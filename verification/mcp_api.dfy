/**
 * The deployed MCP endpoint: three tools (token validation, user analysis,
 * text classification) on top of the keyword classifier.
 */
module McpApi {
  import opened Wrappers
  import opened Chars
  import opened Json
  import opened Classifier
  import opened Activity
  import opened Keyword
  import opened McpProtocol

  const ValidateTool: ToolSpec :=
    ToolSpec("validate", "Validate bearer token and return phone number", [Property("token", "string", None)], ["token"])

  const Tools: seq<ToolSpec> := [ValidateTool, AnalyzeTool, ClassifyTool]

  /** The one bearer token the endpoint accepts. */
  const BearerToken: string := "reddit_toxicity_2024"

  const PreviewLength: nat := 100

  /** `validate_token(args)`; the success reply carries the operator's
    * phone number, which the model does not reproduce. */
  function ValidateToken(args: JsonValue): (o: Outcome)
    ensures !args.JObj? <==> o == Uncaught
    ensures args.JObj? ==> (o == Answer(Validated) <==> "token" in args.fields && args.fields["token"] == JStr(BearerToken))
    ensures args.JObj? && o != Answer(Validated) ==> o == Answer(ErrorReply(InvalidToken))
  {
    match Get(args, "token", JNull)
    case None => Uncaught
    case Some(token) => if token == JStr(BearerToken) then Answer(Validated) else Answer(ErrorReply(InvalidToken))
  }

  /** `classify_text(args)`: the keyword verdict of the text with its first
    * 100 characters; anything but a string makes `lower()` raise. */
  function ClassifyText(args: JsonValue): (o: Outcome)
    ensures !args.JObj? <==> o == Uncaught
    ensures args.JObj? && !("text" in args.fields && args.fields["text"].JStr?) ==> o == Answer(ErrorReply(CaughtException))
    ensures args.JObj? && "text" in args.fields && args.fields["text"].JStr? ==>
              var text := args.fields["text"].s;
              var v := KeywordClassify(text);
              && o.Answer? && o.reply.TextSummary? && o.reply.preview.JStr?
              && |o.reply.preview.s| == (if |text| < PreviewLength then |text| else PreviewLength)
              && o.reply.preview.s == text[..|o.reply.preview.s|]
              && o.reply.category == v.category && o.reply.score == v.score
  {
    match Get(args, "text", JNull)
    case None => Uncaught
    case Some(text) =>
      if text.JStr? then
        var v := KeywordClassify(text.s);
        Answer(TextSummary(JStr(Truncate(text.s, PreviewLength)), v.category, v.score))
      else Answer(ErrorReply(CaughtException))
  }

  /** The reply `analyze_user(args)` gives for a listing; `None` for the
    * arguments when `args.get` raises. */
  function AnalyzeOutcome(args: JsonValue, comments: CommentSource): Outcome {
    match Get(args, "username", JNull)
    case None => Uncaught
    case Some(username) =>
      var listing := comments(username, Get(args, "max_posts", JNum(DefaultMaxPosts)).value);
      var texts := CommentBodies(listing.items);
      if listing.failed || texts == [] then Answer(ErrorReply(CaughtException))
      else Answer(UserSummary(username, |texts|, CountToxic(texts, KeywordClassify)))
  }

  /** `analyze_user(args)`: the listing is read with `limit=max_posts`
    * (10 by default); a failing listing and an empty text list (the rate
    * divides by zero) are both caught and answered with an error. */
  method AnalyzeUser(args: JsonValue, comments: CommentSource) returns (o: Outcome)
    ensures o == AnalyzeOutcome(args, comments)
  {
    var username := Get(args, "username", JNull);
    if username.None? {
      return Uncaught;
    }
    var maxPosts := Get(args, "max_posts", JNum(DefaultMaxPosts)).value;
    var listing := comments(username.value, maxPosts);
    var texts := CollectBodies(listing.items);
    if listing.failed {
      return Answer(ErrorReply(CaughtException));
    }
    var toxicCount := 0;
    for i := 0 to |texts|
      invariant toxicCount == CountToxic(texts[..i], KeywordClassify)
    {
      assert texts[..i + 1][..i] == texts[..i];
      var v := KeywordClassify(texts[i]);
      if Upper(v.category) == "TOXIC" {
        toxicCount := toxicCount + 1;
      }
    }
    assert texts[..|texts|] == texts;
    if |texts| == 0 {
      return Answer(ErrorReply(CaughtException));
    }
    o := Answer(UserSummary(username.value, |texts|, toxicCount));
  }

  /** A summary counts the kept comments of a listing that did not fail,
    * and never more toxic ones than that; no kept comment means an error. */
  lemma AnalyzeSummaryCounts(args: JsonValue, comments: CommentSource)
    requires args.JObj?
    ensures var username := if "username" in args.fields then args.fields["username"] else JNull;
            var limit := if "max_posts" in args.fields then args.fields["max_posts"] else JNum(DefaultMaxPosts);
            var listing := comments(username, limit);
            var o := AnalyzeOutcome(args, comments);
            && (o.reply.UserSummary? <==> !listing.failed && CommentBodies(listing.items) != [])
            && (o.reply.UserSummary? ==>
                  && o.reply.username == username
                  && o.reply.total == |CommentBodies(listing.items)| > 0
                  && o.reply.toxicCount <= o.reply.total)
            && (!o.reply.UserSummary? ==> o == Answer(ErrorReply(CaughtException)))
  {
  }

  /** Leaving out `max_posts` is asking for 10. */
  lemma MaxPostsDefaultsToTen(fields: map<string, JsonValue>, comments: CommentSource)
    requires "max_posts" !in fields
    ensures AnalyzeOutcome(JObj(fields), comments) == AnalyzeOutcome(JObj(fields["max_posts" := JNum(10)]), comments)
  {
    var withLimit := fields["max_posts" := JNum(10)];
    assert Get(JObj(withLimit), "username", JNull) == Get(JObj(fields), "username", JNull);
  }

  /** `handle_request(request)`: list the tools, or dispatch a tool call. */
  method HandleRequest(request: JsonValue, comments: CommentSource) returns (o: Outcome)
    ensures ParseRequest(request).None? ==> o == Uncaught
    ensures ParseRequest(request) == Some(ListTools) ==> o == Answer(ToolList(Tools))
    ensures ParseRequest(request) == Some(OtherMethod) ==> o == Answer(ErrorReply(UnknownMethod))
    ensures ParseRequest(request).Some? && ParseRequest(request).value.CallTool? ==>
              var call := ParseRequest(request).value;
              o == if call.name == JStr("validate") then ValidateToken(call.arguments)
                   else if call.name == JStr("analyze_reddit_user") then AnalyzeOutcome(call.arguments, comments)
                   else if call.name == JStr("classify_text") then ClassifyText(call.arguments)
                   else Answer(ErrorReply(UnknownMethod))
  {
    var call := ParseRequest(request);
    if call.None? {
      return Uncaught;
    }
    match call.value
    case ListTools =>
      o := Answer(ToolList(Tools));
    case OtherMethod =>
      o := Answer(ErrorReply(UnknownMethod));
    case CallTool(name, arguments) =>
      if name == JStr("validate") {
        o := ValidateToken(arguments);
      } else if name == JStr("analyze_reddit_user") {
        o := AnalyzeUser(arguments, comments);
      } else if name == JStr("classify_text") {
        o := ClassifyText(arguments);
      } else {
        o := Answer(ErrorReply(UnknownMethod));
      }
  }

  /** `tools/list` names the three tools, in order; `max_posts` defaults to 10. */
  lemma ToolsListed()
    ensures ToolNames(Tools) == ["validate", "analyze_reddit_user", "classify_text"]
    ensures AnalyzeTool.properties[1] == Property("max_posts", "integer", Some(10))
  {
  }
}
