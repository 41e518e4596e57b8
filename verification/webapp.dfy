/**
 * The Flask endpoint `/analyze`: validates the username from the JSON
 * body, analyses the user, and answers with the counts and the first five
 * toxic items. Its `analyze_user` differs from the bot's: any failure while
 * reading either listing makes the whole analysis `None`.
 */
module WebApp {
  import opened Wrappers
  import opened Chars
  import opened Json
  import opened Activity
  import Bot

  /** The report of the web app's `analyze_user`. */
  function WebReport(reddit: Reddit, username: string, classify: Scorer): Option<Report> {
    var comments := reddit.comments(username);
    var submissions := reddit.submissions(username);
    if comments.failed || submissions.failed then None
    else Summarise(CommentPendings(comments.items) + SubmissionPendings(submissions.items), classify)
  }

  /** `analyze_user(reddit, username)` of the web app: a raising listing is
    * caught by the outer handler, so the submissions are not read after the
    * comments failed. */
  method AnalyzeUser(reddit: Reddit, username: string, classify: Scorer) returns (r: Option<Report>)
    ensures r == WebReport(reddit, username, classify)
  {
    var comments := reddit.comments(username);
    var fromComments := CollectComments(comments.items);
    if comments.failed {
      return None;
    }
    var submissions := reddit.submissions(username);
    var fromSubmissions := CollectSubmissions(submissions.items);
    if submissions.failed {
      return None;
    }
    var texts := fromComments + fromSubmissions;
    if texts == [] {
      return None;
    }
    var details, toxicItems, toxicCount := ScoreTexts(texts, classify);
    r := Some(Report(toxicCount, |texts|, details, toxicItems));
  }

  /** Without a failing listing the web app reports what the bot reports;
    * with one it reports nothing, where the bot keeps the partial items. */
  lemma WebReportAgainstBot(reddit: Reddit, username: string, classify: Scorer)
    ensures !reddit.comments(username).failed && !reddit.submissions(username).failed ==>
              WebReport(reddit, username, classify) == Bot.BotReport(reddit, username, classify)
    ensures reddit.comments(username).failed || reddit.submissions(username).failed ==>
              WebReport(reddit, username, classify).None?
  {
  }

  datatype ErrorReason = UsernameRequired | UserNotFound | Raised

  /** The JSON object `/analyze` answers with. */
  datatype Response =
    | Error(reason: ErrorReason)
    | Summary(username: string, toxicCount: nat, totalCount: nat, toxicItems: seq<Detail>)

  const ShownItems: nat := 5

  /** The username of the request body: `data.get('username', '').strip()`;
    * `None` when that raises (a body that is not an object, a username that
    * is not a string). */
  function RequestedUsername(data: JsonValue): (u: Option<string>)
    ensures u.Some? <==> data.JObj? && ("username" in data.fields ==> data.fields["username"].JStr?)
    ensures u.Some? && "username" in data.fields ==> u.value == Strip(data.fields["username"].s)
    ensures u.Some? && "username" !in data.fields ==> u.value == ""
  {
    match Get(data, "username", JStr(""))
    case None => None
    case Some(v) => if v.JStr? then Some(Strip(v.s)) else None
  }

  /** The response of `analyze()` for a request body. */
  function AnalyzeResponse(data: JsonValue, reddit: Reddit, classify: Scorer): Response {
    ResponseFor(RequestedUsername(data), reddit, classify)
  }

  /** The response once the username was read (`None`: reading it raised). */
  function ResponseFor(requested: Option<string>, reddit: Reddit, classify: Scorer): Response {
    match requested
    case None => Error(Raised)
    case Some(username) =>
      if username == "" then Error(UsernameRequired)
      else match WebReport(reddit, username, classify)
        case None => Error(UserNotFound)
        case Some(r) => Summary(username, r.toxicCount, r.total, r.toxicItems[..if |r.toxicItems| < ShownItems then |r.toxicItems| else ShownItems])
  }

  /** `analyze()` */
  method Analyze(data: JsonValue, reddit: Reddit, classify: Scorer) returns (response: Response)
    ensures response == AnalyzeResponse(data, reddit, classify)
  {
    var username := RequestedUsername(data);
    assert AnalyzeResponse(data, reddit, classify) == ResponseFor(username, reddit, classify);
    if username.None? {
      return Error(Raised);
    }
    if username.value == "" {
      return Error(UsernameRequired);
    }
    var result := AnalyzeUser(reddit, username.value, classify);
    if result.None? {
      return Error(UserNotFound);
    }
    var r := result.value;
    var shown := if |r.toxicItems| < ShownItems then |r.toxicItems| else ShownItems;
    response := Summary(username.value, r.toxicCount, r.total, r.toxicItems[..shown]);
  }

  /** A blank username is refused before anything is fetched: the answer
    * does not depend on Reddit. */
  lemma BlankUsernameNeverFetches(data: JsonValue, reddit1: Reddit, reddit2: Reddit, classify: Scorer)
    requires RequestedUsername(data) == Some("")
    ensures AnalyzeResponse(data, reddit1, classify) == AnalyzeResponse(data, reddit2, classify) == Error(UsernameRequired)
  {
  }

  /** Surrounding whitespace in the username is ignored. */
  lemma UsernameIsStripped(name: string, reddit: Reddit, classify: Scorer)
    ensures AnalyzeResponse(JObj(map["username" := JStr(name)]), reddit, classify) ==
            AnalyzeResponse(JObj(map["username" := JStr(Strip(name))]), reddit, classify)
  {
    StripIdempotent(name);
    UsernameOfBody(name);
    UsernameOfBody(Strip(name));
  }

  lemma UsernameOfBody(name: string)
    ensures RequestedUsername(JObj(map["username" := JStr(name)])) == Some(Strip(name))
  {
  }

  /** A summary reports the analysis' counts and at most its first five
    * toxic items, in order; a user without a report is "not found". */
  lemma SummaryShowsFirstFive(data: JsonValue, reddit: Reddit, classify: Scorer)
    requires RequestedUsername(data).Some? && RequestedUsername(data).value != ""
    ensures var username := RequestedUsername(data).value;
            var report := WebReport(reddit, username, classify);
            var response := AnalyzeResponse(data, reddit, classify);
            && (report.None? <==> response == Error(UserNotFound))
            && (report.Some? ==>
                  && response.Summary? && response.username == username
                  && response.toxicCount == |report.value.toxicItems| <= response.totalCount
                  && |response.toxicItems| == (if response.toxicCount < 5 then response.toxicCount else 5)
                  && response.toxicItems == report.value.toxicItems[..|response.toxicItems|]
                  && (forall d :: d in response.toxicItems ==> IsToxicLabel(d.category)))
  {
    var username := RequestedUsername(data).value;
    assert AnalyzeResponse(data, reddit, classify) == ResponseFor(Some(username), reddit, classify);
    SummaryOfReport(username, reddit, classify);
  }

  /** The response for a non-blank username, in terms of the user's report. */
  lemma {:induction false} SummaryOfReport(username: string, reddit: Reddit, classify: Scorer)
    requires username != ""
    ensures var report := WebReport(reddit, username, classify);
            var response := ResponseFor(Some(username), reddit, classify);
            && (report.None? <==> response == Error(UserNotFound))
            && (report.Some? ==>
                  && response.Summary? && response.username == username
                  && response.toxicCount == |report.value.toxicItems| <= response.totalCount
                  && |response.toxicItems| == (if response.toxicCount < 5 then response.toxicCount else 5)
                  && response.toxicItems == report.value.toxicItems[..|response.toxicItems|]
                  && (forall d :: d in response.toxicItems ==> IsToxicLabel(d.category)))
  {
    var report := WebReport(reddit, username, classify);
    if report.Some? {
      var r := report.value;
      var n := if |r.toxicItems| < ShownItems then |r.toxicItems| else ShownItems;
      assert ResponseFor(Some(username), reddit, classify) == Summary(username, r.toxicCount, r.total, r.toxicItems[..n]);
      WebReportCounts(reddit, username, classify);
      PrefixKeepsLabels(r.toxicItems, n);
    }
  }

  /** A report of the web app counts exactly its toxic items, all labelled toxic. */
  lemma {:induction false} WebReportCounts(reddit: Reddit, username: string, classify: Scorer)
    requires WebReport(reddit, username, classify).Some?
    ensures var r := WebReport(reddit, username, classify).value;
            && r.toxicCount == |r.toxicItems| <= r.total
            && (forall d :: d in r.toxicItems ==> IsToxicLabel(d.category))
  {
    var comments := reddit.comments(username);
    var submissions := reddit.submissions(username);
    ReportCounts(CommentPendings(comments.items) + SubmissionPendings(submissions.items), classify);
  }

  lemma {:induction false} PrefixKeepsLabels(items: seq<Detail>, n: nat)
    requires n <= |items|
    requires forall d :: d in items ==> IsToxicLabel(d.category)
    ensures forall d :: d in items[..n] ==> IsToxicLabel(d.category)
  {
    forall d | d in items[..n] ensures IsToxicLabel(d.category) {
      assert d in items;
    }
  }
}
