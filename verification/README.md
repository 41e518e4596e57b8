# Reddit toxicity bot — a Dafny model

The system watches Reddit users for toxic writing. A pretrained text classifier
sits behind `classify_dm`, which first cleans the text in `clean_text`. Five
programs use it:

- **The inbox bot** (`bot.py`). Every five minutes it reads the unread
  messages. For each sender it analyses their ten latest comments and
  submissions, reports an alert with up to three toxic items, and marks the
  message read.
- **The web app** (`webapp.py`). `/analyze` takes a username and answers with
  the counts and the first five toxic items.
- **Two MCP servers**. `api/mcp.py` uses a keyword stand-in classifier and has
  three tools: token validation, user analysis and text classification.
  `simple_mcp_server.py` uses the real classifier and has two tools.
- **A resumable batch job** (`securedm/testclassifier.py`). It scores a CSV
  column chunk by chunk and saves the whole predictions file after every chunk.
- **A preprocessing job** (`securedm/preprocessing.py`). It drops missing and
  clean-to-nothing rows and adds the cleaned text and the lengths.

The model is split into modules.

- `Chars`: Python's string primitives, on ASCII.
- `Cleaning` and `CleaningNoise`: `clean_text`. The three regular-expression
  passes, lower-casing and stripping are written out. The NLTK tokenizer,
  stop-word list and lemmatizer are oracles that may raise.
- `Classifier`: `classify_dm`. The pipeline is an oracle that is missing, or
  that answers with a dictionary, a list, or an exception.
- `Keyword`: the keyword `classify_dm` of `api/mcp.py`.
- `Activity`: the per-user collection and classification loop shared by the
  bot and the web app.
- `Bot`: an object `Session`. Its fields are the messages marked read, the
  console report and the delays slept. Its methods are `process_messages` and
  the `main` loop.
- `WebApp`, `McpProtocol`, `McpApi` and `SimpleMcp`: the request handlers,
  over decoded JSON values (`Json`).
- `Batch`: the batch job. The predictions file is an object whose content
  every save replaces. A ghost history records every saved content.
- `Preprocessing`: the pandas chain, on one column of indexed cells (`Csv`).

The Reddit API is a set of listings given as functions of the username. Each
yields some items and then may raise.

## Model

| member | source | states |
|---|---|---|
| Chars.Preview | bot.py:67 | The detail text is the text itself up to 100 characters, else its first 100 characters followed by `...`. |
| Chars.Truncate | securedm/testclassifier.py:96-97 | A stored text is the prefix of length `min(len(s), n)`: the whole text when it is short enough, else exactly its first `n` characters. |
| Chars.Strip | webapp.py:109 | `strip()` is the slice `s[i:j]` where `s[:i]` and `s[j:]` are all whitespace. It has no whitespace at either end, and is empty exactly when the input is all whitespace. |
| Chars.StripIdempotent | webapp.py:109 | Stripping twice is stripping once. |
| Cleaning.RemovePunctuation | securedm/model.py:37 | `[^\w\s]` removal keeps exactly the word and space characters, and only those. |
| Cleaning.RemovePunctuationOne | securedm/model.py:37 | One character is kept exactly when it is a word or space character. |
| Cleaning.RemovePunctuationAppend | securedm/model.py:37 | The removal works character by character: the result for a concatenation is the concatenation of the results, so the kept characters stay in order. |
| Cleaning.LightClean | securedm/model.py:35-40 | After the three substitutions, lower-casing and stripping, the text holds only lower-case word characters and whitespace, with no whitespace at its ends. |
| Cleaning.FilterTokens | securedm/model.py:50 | The kept tokens are exactly the alphanumeric, non-stop-word tokens longer than two characters. |
| Cleaning.FilterTokensAppend | securedm/model.py:50 | Filtering distributes over concatenation, so the filter keeps the token order. |
| Cleaning.LemmatizeAll | securedm/model.py:53-54 | One lemma per token, in order. The stage raises exactly when some token's lemmatization raises. |
| Cleaning.SplitJoin | securedm/model.py:56 | Joining space-free tokens with single spaces can be split back into the same tokens. |
| Cleaning.CleanText | securedm/model.py:30-59 | A non-string or empty input gives `""`. So does an input that is empty after the light cleaning. Otherwise the result is the joined lemmas, or the lightly cleaned text when an NLTK call raised. |
| CleaningNoise.NoiseCleansToEmpty | securedm/model.py:35-43 | Text made only of links and `@`/`#` tags, separated by runs of whitespace and with any whitespace before and after, cleans to the empty string. |
| Classifier.ReadPrediction | securedm/model.py:100-101 | A missing label reads as `UNKNOWN` and a missing score as 0.0. |
| Classifier.ReadOutput | securedm/model.py:97-101 | A non-empty list is read through its first element. Reading fails exactly on an empty list. |
| Classifier.ClassifyDm | securedm/model.py:78-107 | No model gives `UNKNOWN`/0.0. A non-string, empty or clean-to-nothing message gives `NON_TOXIC`/0.0. Otherwise the pipeline's reading of the cleaned text is returned, or `ERROR`/0.0 when the call or the reading raised. |
| Classifier.UnavailableIgnoresInput | securedm/model.py:83-84 | Without a model every input gets the same `UNKNOWN` verdict. |
| Classifier.EmptyInputSkipsPipeline | securedm/model.py:86-92 | Input that cleans to nothing never reaches the pipeline: any two pipelines give the same `NON_TOXIC` verdict. |
| Classifier.VerdictOrigin | securedm/model.py:78-107 | Any verdict other than the three fallbacks is the pipeline's answer for the cleaned text. |
| Keyword.KeywordClassify | api/mcp.py:7-17 | `TOXIC` with 0.8 exactly when a listed word occurs in the lower-cased text, else `NON_TOXIC` with 0.2. |
| Keyword.ContainingListedWordIsToxic | api/mcp.py:10-15 | Any text with a listed word anywhere in it, whatever the case of the surrounding text, is `TOXIC`. |
| Keyword.InsultIsToxic | api/mcp.py:7-17 | "I hate you, you stupid idiot" is `TOXIC` with score 0.8. |
| Activity.SubmissionText | bot.py:76-79 | A submission's text is its title, followed by a space and the self text when that is not empty. |
| Activity.CommentPendings | bot.py:62-70 | The comment texts are those of the non-empty, non-`[deleted]` comments, and only those. |
| Activity.CommentPendingsOne | bot.py:62-70 | One comment gives its text exactly when it is neither empty nor `[deleted]`. |
| Activity.CommentPendingsAppend | bot.py:62-70 | The texts of a concatenation are the texts of each part, in order. |
| Activity.Assess | bot.py:99-112 | A detail keeps its kind, preview and subreddit. It takes the returned label and score, or `ERROR`/0.0 when classification raised. |
| Activity.ToxicItems | bot.py:105-107 | The toxic items are exactly the details whose label upper-cases to `TOXIC`. |
| Activity.ToxicItemsAppend | bot.py:99-107 | The toxic items of a concatenation are those of each part, in order. |
| Activity.Summarise | bot.py:91-93 | There is no report exactly when no text was collected. |
| Activity.ReportCounts | bot.py:96-114 | A report has one detail per text, in order. Its toxic count is the number of its toxic items, which are exactly its toxic-labelled details. |
| Activity.RaisedIsNotToxic | bot.py:109-112 | A text whose classification raised is never counted toxic. |
| Activity.CollectComments | bot.py:61-70 | The comment loop collects exactly `CommentPendings`. |
| Activity.CollectSubmissions | bot.py:75-87 | The submission loop collects one text per submission, in order. |
| Activity.ScoreTexts | bot.py:96-112 | The classification loop yields the details, the toxic items in order, and their count. |
| Bot.AnalyzeUser | bot.py:48-118 | The bot's analysis is `BotReport`. A failing listing keeps the items it yielded, and the other listing is still read. |
| Bot.BotReportNoneIffNoTexts | bot.py:91-93 | The bot reports nothing exactly when no comment is usable and there is no submission. |
| Bot.UnknownSenderIsNotAnalysed | bot.py:133-141 | A sender is skipped exactly when the author is missing or is named `Unknown`. |
| Bot.AlertShowsFirstToxicItems | bot.py:141-159 | An alert is raised exactly for an analysed sender with a toxic item. It shows the first three toxic items, in order, all toxic. |
| Bot.MarkingRule | bot.py:120-173 | A message is marked read exactly when the inbox was read, printing its alert (if any) did not raise, and its `mark_read` succeeded. |
| Bot.NumericScoresNeverBlockMarking | bot.py:131-170 | When every score the classifier returns is a number, a message is marked exactly when its `mark_read` succeeds, whatever the analysis says. |
| Bot.DelayIsFlat | bot.py:195-202 | The delay after a cycle does not depend on the cycles before it. |
| Bot.Session.ProcessMessages | bot.py:120-173 | A failed inbox read marks nothing. Otherwise every message gets its report line in order. A message is marked unless printing one of its alert's scores raised or its `mark_read` raised. |
| Bot.Session.HandleMessage | bot.py:131-170 | One message: report on the sender. Mark it read unless formatting a shown score raised first, or `mark_read` raises. |
| Bot.Session.Run | bot.py:175-205 | Nothing happens without authentication. Otherwise the cycles' marks, reports and delays are appended in order. |
| Bot.Session.RunCycles | bot.py:189-202 | The loop appends each cycle's marks, report lines and delay, in order. |
| Bot.Session.RunCycle | bot.py:191-202 | One pass processes the inbox and then sleeps the flat delay. |
| WebApp.AnalyzeUser | webapp.py:135-190 | The web app's analysis is `WebReport`: a listing that raises voids the whole analysis. |
| WebApp.WebReportAgainstBot | webapp.py:135-190 | When no listing fails, the web app reports what the bot reports. When one fails, it reports nothing. |
| WebApp.RequestedUsername | webapp.py:108-109 | The username is the stripped `username` field, `""` when the field is absent. It fails on a body that is not an object or a name that is not a string. |
| WebApp.Analyze | webapp.py:105-133 | `/analyze` answers with `AnalyzeResponse`. |
| WebApp.BlankUsernameNeverFetches | webapp.py:111-112 | A blank username is refused before anything is fetched. |
| WebApp.UsernameIsStripped | webapp.py:109 | Surrounding whitespace in the username does not change the answer. |
| WebApp.SummaryShowsFirstFive | webapp.py:118-130 | "Not found" exactly when there is no report. Otherwise the counts, and at most the first five toxic items, in order, all toxic. |
| WebApp.WebReportCounts | webapp.py:170-187 | A report's toxic count is its number of toxic items, at most the total, and every item is toxic. |
| McpProtocol.ParseRequest | api/mcp.py:57-102 | The request's method, name and arguments are read with their defaults. Reading fails when the request is not an object. A `tools/call` is read exactly when its params is an object. |
| McpProtocol.ToolNames | api/mcp.py:60-98 | One name per listed tool, in order. |
| McpProtocol.CommentBodies | api/mcp.py:132-135 | The texts are exactly the non-empty, non-`[deleted]` comment bodies. |
| McpProtocol.CommentBodiesOne | api/mcp.py:132-135 | One comment gives its body exactly when it is neither empty nor `[deleted]`. |
| McpProtocol.CommentBodiesAppend | api/mcp.py:132-135 | The bodies of a concatenation are the bodies of each part, in order. |
| McpProtocol.CountToxicAppend | api/mcp.py:137-141 | The toxic count of a concatenation is the sum of the parts' counts. |
| McpProtocol.CollectBodies | api/mcp.py:132-135 | The comment loop collects exactly `CommentBodies`. |
| McpApi.ValidateToken | api/mcp.py:113-121 | Valid exactly when `token` is the bearer token, else `Invalid token`. A non-object argument raises. |
| McpApi.ClassifyText | api/mcp.py:155-170 | A string text gets its keyword verdict and its first 100 characters. Any other value gives an error reply. A non-object argument raises. |
| McpApi.AnalyzeUser | api/mcp.py:123-153 | The analysis equals `AnalyzeOutcome`: the loop counts the toxic kept comments. |
| McpApi.AnalyzeSummaryCounts | api/mcp.py:123-153 | A summary is given exactly when the listing did not fail and kept a comment. It names the user, its total is the number of kept comments, and the toxic count is at most the total. Otherwise the reply is an error. |
| McpApi.MaxPostsDefaultsToTen | api/mcp.py:126 | Leaving out `max_posts` is asking for 10. |
| McpApi.HandleRequest | api/mcp.py:55-111 | `tools/list` lists the three tools. `tools/call` dispatches `validate`, `analyze_reddit_user` and `classify_text`. Anything else is `Unknown method`, and a malformed request raises. |
| McpApi.ToolsListed | api/mcp.py:60-98 | The listed tools are `validate`, `analyze_reddit_user` and `classify_text`, and `max_posts` defaults to 10. |
| SimpleMcp.AnalyzeUser | simple_mcp_server.py:63-98 | The reply equals `AnalyzeOutcome`, and the built results list equals `AnalyzeResults`. |
| SimpleMcp.ScoreBodies | simple_mcp_server.py:79-86 | The loop counts the toxic texts and builds one result per text. |
| SimpleMcp.Results | simple_mcp_server.py:82-86 | One result per text, in order, each carrying that text's verdict. |
| SimpleMcp.ResultsMatchSummary | simple_mcp_server.py:79-92 | The summary's toxic count equals the number of results labelled toxic. |
| SimpleMcp.ResultsArePreviews | simple_mcp_server.py:86 | Each result's text is the text cut to 100 characters. |
| SimpleMcp.PreviewOf | simple_mcp_server.py:110 | `text[:100]` succeeds exactly on a string or a list, and cuts a string to its first 100 characters. |
| SimpleMcp.ClassifyText | simple_mcp_server.py:100-115 | A summary is given exactly when the text can be sliced and the score is numeric. It carries `classify_dm`'s verdict. Otherwise the reply is an error, and a non-object argument raises. |
| SimpleMcp.MissingTextIsAnError | simple_mcp_server.py:102-115 | A missing text gives an error reply. |
| SimpleMcp.HandleRequest | simple_mcp_server.py:18-61 | `tools/list` lists two tools. `tools/call` dispatches the two tools. Anything else, `validate` included, is `Unknown method`. |
| SimpleMcp.ToolsListed | simple_mcp_server.py:23-50 | The listed tools are `analyze_reddit_user` and `classify_text`, and there is no `validate`. |
| Batch.RowRecordRules | securedm/testclassifier.py:74-111 | Missing, blank and clean-to-nothing cells are `EMPTY` with 0.0. A non-numeric score gives `ERROR`. Classified rows store texts cut to 500 characters. |
| Batch.EmptyRowsSkipClassifier | securedm/testclassifier.py:77-91 | Missing, blank and clean-to-nothing cells never reach the classifier. |
| Batch.ResumeRows | securedm/testclassifier.py:46-59 | A readable predictions file is resumed from. A missing or unreadable one starts fresh. |
| Batch.Completed | securedm/testclassifier.py:62-118 | A completed run keeps the resumed rows, then has one record per remaining input row. |
| Batch.ResumeMatchesFreshRun | securedm/testclassifier.py:46-118 | Resuming from an interrupted run's checkpoint gives what an uninterrupted run gives. |
| Batch.ResumeIsIdempotent | securedm/testclassifier.py:46-118 | Re-running after a completed run changes nothing. |
| Batch.Windows | securedm/testclassifier.py:68-69 | Every chunk lies inside the rows still to score. |
| Batch.WindowsTile | securedm/testclassifier.py:68-69 | The chunks tile the remaining rows, each non-empty, at most `batch_size` long, and contiguous. |
| Batch.PredictionsFile.Save | securedm/testclassifier.py:118 | A save replaces the whole file content. |
| Batch.ScoreChunk | securedm/testclassifier.py:74-111 | One record per cell of the chunk, in order. |
| Batch.ScoreRemaining | securedm/testclassifier.py:61-126 | After each chunk the file holds the resumed rows plus every record so far. At the end it holds the completed content, or is untouched when nothing was left. |
| Batch.ScoreAndSave | securedm/testclassifier.py:113-118 | One chunk's records are appended and the whole content is saved. |
| Batch.TestClassifier | securedm/testclassifier.py:17-144 | Succeeds exactly for a parsed input with the column and a positive batch size, with the saves of `ScoreRemaining`. On failure the file is untouched. |
| Preprocessing.CountMissing | securedm/preprocessing.py:44-46 | The number of missing cells, at most the row count, and zero when none is missing. |
| Preprocessing.DropMissing | securedm/preprocessing.py:45 | `dropna` keeps exactly the present cells with their indices, in order. |
| Preprocessing.AddCleaned | securedm/preprocessing.py:53 | Each row gets `clean_text` of its text. |
| Preprocessing.DropEmptyCleaned | securedm/preprocessing.py:56 | Exactly the rows with a non-empty cleaned text are kept, in order. |
| Preprocessing.AddLengths | securedm/preprocessing.py:60-61 | Each row gets the lengths of its text and of its cleaned text. |
| Preprocessing.KeptRowsSurvive | securedm/preprocessing.py:44-56 | Every kept row is a present cell that does not clean to nothing. |
| Preprocessing.SurvivorsAreKept | securedm/preprocessing.py:44-56 | Every present cell that does not clean to nothing is kept. |
| Preprocessing.KeptRowsInOrder | securedm/preprocessing.py:44-56 | The kept rows keep the input order. |
| Preprocessing.ProcessColumnKeepsSurvivors | securedm/preprocessing.py:44-61 | The processed rows are exactly the surviving rows, in order, with their cleaned text and lengths. |
| Preprocessing.PreprocessDataset | securedm/preprocessing.py:16-78 | Fails exactly for a missing file, an unparsable file, a missing column or a failed save. Otherwise it yields the surviving rows and the number of missing rows dropped. |

## Left out

- Authentication, praw and the credentials are not modelled. Authentication
  is the boolean `authenticated` of `Bot.Session.Run`. The Reddit listings
  and the inbox are oracles: `Fetch` values that yield some items and then
  may have raised. Their `limit` (10) is inside the oracle.
- NLTK and the transformers pipeline are oracles: `Nlp` and `ToxicModel`.
  Device selection and model loading only decide whether a model is present.
- `\w`, `\s`, `lower()`, `upper()`, `strip()` and `isalnum()` are modelled on
  ASCII. Whitespace is space, `\t` to `\r` and `\x1c` to `\x1f`. Python
  applies them to all of Unicode, so non-ASCII letters and whitespace are
  not modelled.
- Printing, timestamps (`created`, `timestamp`), the sleeps between messages
  and between chunks, and the `Ctrl+C` stop are not modelled. A run of the
  bot is a finite sequence of cycles.
- Float formatting, the toxicity rates and percentages, and the label
  statistics printout are not modelled. A summary carries its counts.
  Scores are reals or a value that `float()` rejects.
- Classifier.ReadPrediction: a prediction is a dictionary. A list element
  that is not a dictionary, and a label that is not a string, are not
  modelled.
- Activity.Assess: a label whose `upper()` raises reaches the `ERROR` branch
  only through the `Scorer` oracle.
- `main` waits 60 s after a cycle that raises. But `process_messages`
  catches every exception, so a failed inbox read is followed by 300 s. The
  60 s branch is reached only by a cycle marked `faulted`, which stands for
  an exception raised outside `process_messages`.
- The console output of a message whose alert printing raised stops
  part-way, and the `Error processing message` line is not a notice: the
  notices record only which sender was handled and its assessment.
- McpApi.ValidateToken: the success reply (the operator's phone number) is
  the constant `Validated`.
- The HTTP handler classes of `api/mcp.py` (`do_POST`, `do_GET`), the Flask
  HTML page and the app start-up, and the stdin loop of
  `simple_mcp_server.py` are not modelled. Neither is `api/index.py`.
- SimpleMcp.AnalyzeUser: the `results` list is returned beside the reply so
  that it can be stated. The source builds it and then discards it.
- The CSV files are values. `read_csv` gives a table of optional string
  cells or is `Unparsable`. Reading back the saved predictions gives the
  saved rows. Pandas column types are not modelled: numeric text columns,
  and the `.str` accessor raising on a column with no string.
- Batch.TestClassifier: a save that raises mid-run is not modelled, nor is
  a negative batch size. A zero batch size fails, because `range` raises.
- Preprocessing.PreprocessDataset: the other columns of a row are carried
  along by its index and are not modelled.
