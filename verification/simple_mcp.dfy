/**
 * The stdin MCP server: two tools (user analysis, text classification) on
 * top of the model-backed `classify_dm`.
 */
module SimpleMcp {
  import opened Wrappers
  import opened Chars
  import opened Json
  import opened Cleaning
  import opened Classifier
  import opened Activity
  import opened McpProtocol

  const Tools: seq<ToolSpec> := [AnalyzeTool, ClassifyTool]

  const PreviewLength: nat := 100

  /** One entry of the `results` list of `analyze_user`. */
  datatype TextResult = TextResult(text: string, category: string, score: ScoreValue)

  function ResultOf(text: string, classify: string -> Verdict): TextResult {
    TextResult(Truncate(text, PreviewLength), classify(text).category, classify(text).score)
  }

  function Results(texts: seq<string>, classify: string -> Verdict): (rs: seq<TextResult>)
    ensures |rs| == |texts|
    ensures forall k :: 0 <= k < |texts| ==> rs[k] == ResultOf(texts[k], classify)
  {
    seq(|texts|, k requires 0 <= k < |texts| => ResultOf(texts[k], classify))
  }

  /** `classify_dm` on each text, through the loaded model. */
  function ModelVerdicts(model: ToxicModel, nlp: Nlp): string -> Verdict {
    t => ClassifyDm(model, Some(t), nlp)
  }

  function ToxicResults(rs: seq<TextResult>): nat {
    if rs == [] then 0
    else ToxicResults(rs[..|rs| - 1]) + (if IsToxicLabel(rs[|rs| - 1].category) then 1 else 0)
  }

  /** The reply of `analyze_user(args)` for a listing. */
  function AnalyzeOutcome(args: JsonValue, comments: CommentSource, model: ToxicModel, nlp: Nlp): Outcome {
    match Get(args, "username", JNull)
    case None => Uncaught
    case Some(username) =>
      var listing := comments(username, Get(args, "max_posts", JNum(DefaultMaxPosts)).value);
      var texts := CommentBodies(listing.items);
      if listing.failed || texts == [] then Answer(ErrorReply(CaughtException))
      else Answer(UserSummary(username, |texts|, CountToxic(texts, ModelVerdicts(model, nlp))))
  }

  /** The `results` list `analyze_user` builds (and does not return); it
    * stays empty when the listing raised. */
  function AnalyzeResults(args: JsonValue, comments: CommentSource, model: ToxicModel, nlp: Nlp): seq<TextResult> {
    match Get(args, "username", JNull)
    case None => []
    case Some(username) =>
      var listing := comments(username, Get(args, "max_posts", JNum(DefaultMaxPosts)).value);
      if listing.failed then [] else Results(CommentBodies(listing.items), ModelVerdicts(model, nlp))
  }

  /** `analyze_user(args)`, with the `results` list it builds. */
  method AnalyzeUser(args: JsonValue, comments: CommentSource, model: ToxicModel, nlp: Nlp) returns (o: Outcome, results: seq<TextResult>)
    ensures o == AnalyzeOutcome(args, comments, model, nlp)
    ensures results == AnalyzeResults(args, comments, model, nlp)
  {
    results := [];
    var username := Get(args, "username", JNull);
    if username.None? {
      return Uncaught, results;
    }
    var maxPosts := Get(args, "max_posts", JNum(DefaultMaxPosts)).value;
    var listing := comments(username.value, maxPosts);
    var texts := CollectBodies(listing.items);
    if listing.failed {
      return Answer(ErrorReply(CaughtException)), results;
    }
    var toxicCount;
    toxicCount, results := ScoreBodies(texts, ModelVerdicts(model, nlp));
    if |texts| == 0 {
      return Answer(ErrorReply(CaughtException)), results;
    }
    o := Answer(UserSummary(username.value, |texts|, toxicCount));
  }

  /** The classification loop of `analyze_user`. */
  method ScoreBodies(texts: seq<string>, classify: string -> Verdict) returns (toxicCount: nat, results: seq<TextResult>)
    ensures toxicCount == CountToxic(texts, classify)
    ensures results == Results(texts, classify)
  {
    toxicCount, results := 0, [];
    for i := 0 to |texts|
      invariant toxicCount == CountToxic(texts[..i], classify)
      invariant results == Results(texts[..i], classify)
    {
      CountToxicStep(texts, i, classify);
      ResultsStep(texts, i, classify);
      var v := classify(texts[i]);
      if Upper(v.category) == "TOXIC" {
        toxicCount := toxicCount + 1;
      }
      results := results + [TextResult(Truncate(texts[i], PreviewLength), v.category, v.score)];
    }
    assert texts[..|texts|] == texts;
  }

  lemma {:induction false} ResultsStep(texts: seq<string>, i: nat, classify: string -> Verdict)
    requires i < |texts|
    ensures Results(texts[..i + 1], classify) == Results(texts[..i], classify) + [ResultOf(texts[i], classify)]
  {
    assert texts[..i + 1] == texts[..i] + [texts[i]];
  }

  /** The summary's toxic count is the number of results labelled toxic. */
  lemma {:induction false} ResultsMatchSummary(texts: seq<string>, classify: string -> Verdict)
    ensures ToxicResults(Results(texts, classify)) == CountToxic(texts, classify)
  {
    if texts != [] {
      var rs := Results(texts, classify);
      ResultsMatchSummary(texts[..|texts| - 1], classify);
      assert rs[..|rs| - 1] == Results(texts[..|texts| - 1], classify);
    }
  }

  /** There is one result per kept comment, in order, each text cut to 100
    * characters. */
  lemma {:induction false} ResultsArePreviews(texts: seq<string>, classify: string -> Verdict)
    ensures |Results(texts, classify)| == |texts|
    ensures forall k :: 0 <= k < |texts| ==>
              var r := Results(texts, classify)[k];
              |r.text| <= PreviewLength && r.text == texts[k][..|r.text|] &&
              (|texts[k]| <= PreviewLength ==> r.text == texts[k])
  {
    forall k | 0 <= k < |texts|
      ensures var r := Results(texts, classify)[k];
              |r.text| <= PreviewLength && r.text == texts[k][..|r.text|] &&
              (|texts[k]| <= PreviewLength ==> r.text == texts[k])
    {
      assert Results(texts, classify)[k].text == Truncate(texts[k], PreviewLength);
    }
  }

  /** The slice `text[:100]` of the classified value: a string or a list is
    * cut; slicing anything else raises. */
  function PreviewOf(text: JsonValue): (p: Option<JsonValue>)
    ensures p.Some? <==> text.JStr? || text.JArr?
    ensures text.JStr? ==> p == Some(JStr(Truncate(text.s, PreviewLength)))
  {
    match text
    case JStr(s) => Some(JStr(Truncate(s, PreviewLength)))
    case JArr(items) => Some(JArr(if |items| <= PreviewLength then items else items[..PreviewLength]))
    case _ => None
  }

  /** `classify_text(args)`: `classify_dm` accepts any value (a non-string is
    * NON_TOXIC), then slicing the text and formatting the score may raise. */
  function ClassifyText(args: JsonValue, model: ToxicModel, nlp: Nlp): (o: Outcome)
    ensures !args.JObj? <==> o == Uncaught
    ensures args.JObj? ==>
              var text := if "text" in args.fields then args.fields["text"] else JNull;
              var v := ClassifyDm(model, if text.JStr? then Some(text.s) else None, nlp);
              && (o.Answer? && o.reply.TextSummary? <==> (text.JStr? || text.JArr?) && v.score.Num?)
              && (o.Answer? && o.reply.TextSummary? ==>
                    o.reply == TextSummary(PreviewOf(text).value, v.category, v.score))
              && (!(o.Answer? && o.reply.TextSummary?) ==> o == Answer(ErrorReply(CaughtException)))
  {
    match Get(args, "text", JNull)
    case None => Uncaught
    case Some(text) =>
      var v := ClassifyDm(model, if text.JStr? then Some(text.s) else None, nlp);
      match PreviewOf(text)
      case None => Answer(ErrorReply(CaughtException))
      case Some(preview) =>
        if v.score.NotNumeric? then Answer(ErrorReply(CaughtException))
        else Answer(TextSummary(preview, v.category, v.score))
  }

  /** A missing text is classified as no message at all, and then slicing
    * `None` raises: the reply is an error. */
  lemma MissingTextIsAnError(fields: map<string, JsonValue>, model: ToxicModel, nlp: Nlp)
    requires "text" !in fields
    ensures ClassifyText(JObj(fields), model, nlp) == Answer(ErrorReply(CaughtException))
  {
  }

  /** `handle_request(request)`: list the two tools, or dispatch a tool call. */
  method HandleRequest(request: JsonValue, comments: CommentSource, model: ToxicModel, nlp: Nlp) returns (o: Outcome)
    ensures ParseRequest(request).None? ==> o == Uncaught
    ensures ParseRequest(request) == Some(ListTools) ==> o == Answer(ToolList(Tools))
    ensures ParseRequest(request) == Some(OtherMethod) ==> o == Answer(ErrorReply(UnknownMethod))
    ensures ParseRequest(request).Some? && ParseRequest(request).value.CallTool? ==>
              var call := ParseRequest(request).value;
              o == if call.name == JStr("analyze_reddit_user") then AnalyzeOutcome(call.arguments, comments, model, nlp)
                   else if call.name == JStr("classify_text") then ClassifyText(call.arguments, model, nlp)
                   else Answer(ErrorReply(UnknownMethod))
  {
    var call := ParseRequest(request);
    if call.None? {
      return Uncaught;
    }
    match call.value
    case ListTools =>
      o := Answer(ToolList(Tools));
    case OtherMethod =>
      o := Answer(ErrorReply(UnknownMethod));
    case CallTool(name, arguments) =>
      if name == JStr("analyze_reddit_user") {
        var results;
        o, results := AnalyzeUser(arguments, comments, model, nlp);
      } else if name == JStr("classify_text") {
        o := ClassifyText(arguments, model, nlp);
      } else {
        o := Answer(ErrorReply(UnknownMethod));
      }
  }

  /** `tools/list` names exactly the two tools, in order; `validate` is not
    * one of them, so calling it is an unknown method. */
  lemma ToolsListed()
    ensures ToolNames(Tools) == ["analyze_reddit_user", "classify_text"]
    ensures "validate" !in ToolNames(Tools)
  {
  }
}
