/**
 * What the two MCP servers share: the request shape (`method`, `params`
 * with `name` and `arguments`), the tool descriptions they both list, the
 * replies they produce, and the comment filter and toxic count of their
 * `analyze_user`.
 */
module McpProtocol {
  import opened Wrappers
  import opened Json
  import opened Classifier
  import opened Activity

  /** One property of a tool's input schema, with its default when it has one. */
  datatype Property = Property(name: string, kind: string, default: Option<int>)

  datatype ToolSpec = ToolSpec(name: string, description: string, properties: seq<Property>, required: seq<string>)

  const DefaultMaxPosts: int := 10

  const AnalyzeTool: ToolSpec :=
    ToolSpec("analyze_reddit_user", "Analyze Reddit user toxicity",
             [Property("username", "string", None), Property("max_posts", "integer", Some(DefaultMaxPosts))],
             ["username"])

  const ClassifyTool: ToolSpec :=
    ToolSpec("classify_text", "Classify text toxicity", [Property("text", "string", None)], ["text"])

  function ToolNames(tools: seq<ToolSpec>): (names: seq<string>)
    ensures |names| == |tools|
    ensures forall k :: 0 <= k < |tools| ==> names[k] == tools[k].name
  {
    seq(|tools|, k requires 0 <= k < |tools| => tools[k].name)
  }

  /** `CaughtException` stands for `{"error": str(e)}` of a caught exception. */
  datatype ErrorReason = UnknownMethod | InvalidToken | CaughtException

  /** The dictionaries a handler returns. The two summaries stand for the
    * formatted `content` text, whose number formatting is not modelled. */
  datatype Reply =
    | ToolList(tools: seq<ToolSpec>)
    | ErrorReply(reason: ErrorReason)
    | Validated
    | UserSummary(username: JsonValue, total: nat, toxicCount: nat)
    | TextSummary(preview: JsonValue, category: string, score: ScoreValue)

  /** A reply, or an exception that escapes `handle_request`. */
  datatype Outcome = Answer(reply: Reply) | Uncaught

  /** The comment listing praw yields for a username and a `limit`. */
  type CommentSource = (JsonValue, JsonValue) -> Fetch<Comment>

  /** What a request asks for. */
  datatype Call = ListTools | CallTool(name: JsonValue, arguments: JsonValue) | OtherMethod

  /** `request.get("method")`, `request.get("params", {})` and, for
    * `tools/call`, `params.get("name")` and `params.get("arguments", {})`;
    * `None` when one of these `.get` calls raises. */
  function ParseRequest(request: JsonValue): (c: Option<Call>)
    ensures !request.JObj? ==> c.None?
    ensures request.JObj? && Get(request, "method", JNull) == Some(JStr("tools/list")) ==> c == Some(ListTools)
    ensures (request.JObj? && Get(request, "method", JNull) != Some(JStr("tools/list")) &&
             Get(request, "method", JNull) != Some(JStr("tools/call"))) ==> c == Some(OtherMethod)
    ensures c.Some? && c.value.CallTool? ==>
              var params := Get(request, "params", JObj(map[])).value;
              && Get(request, "method", JNull) == Some(JStr("tools/call"))
              && Get(params, "name", JNull) == Some(c.value.name)
              && Get(params, "arguments", JObj(map[])) == Some(c.value.arguments)
    ensures request.JObj? && Get(request, "method", JNull) == Some(JStr("tools/call")) ==>
              (c.Some? <==> Get(request, "params", JObj(map[])).value.JObj?)
  {
    match Get(request, "method", JNull)
    case None => None
    case Some(requested) =>
      var params := Get(request, "params", JObj(map[])).value;
      if requested == JStr("tools/list") then Some(ListTools)
      else if requested == JStr("tools/call") then
        match Get(params, "name", JNull)
        case None => None
        case Some(name) => Some(CallTool(name, Get(params, "arguments", JObj(map[])).value))
      else Some(OtherMethod)
  }

  /** The `texts` of `analyze_user`: the bodies of the kept comments, in order. */
  function CommentBodies(cs: seq<Comment>): (texts: seq<string>)
    ensures |texts| <= |cs|
    ensures forall t :: t in texts <==> exists c :: c in cs && KeepComment(c) && c.body == t
  {
    if cs == [] then []
    else
      var front := cs[..|cs| - 1];
      var c := cs[|cs| - 1];
      assert cs == front + [c];
      CommentBodies(front) + (if KeepComment(c) then [c.body] else [])
  }

  /** One comment contributes its body exactly when it is kept. */
  lemma CommentBodiesOne(c: Comment)
    ensures CommentBodies([c]) == if KeepComment(c) then [c.body] else []
  {
    assert [c][..0] == [];
  }

  /** The bodies of two listings read one after the other are the bodies of
    * the first, then those of the second. */
  lemma {:induction false} CommentBodiesAppend(a: seq<Comment>, b: seq<Comment>)
    ensures CommentBodies(a + b) == CommentBodies(a) + CommentBodies(b)
    decreases |b|
  {
    if b == [] {
      assert a + b == a;
    } else {
      var front := b[..|b| - 1];
      var c := b[|b| - 1];
      var kept := if KeepComment(c) then [c.body] else [];
      assert (a + b)[..|a + b| - 1] == a + front;
      assert (a + b)[|a + b| - 1] == c;
      assert CommentBodies(a + b) == CommentBodies(a + front) + kept;
      assert CommentBodies(b) == CommentBodies(front) + kept;
      CommentBodiesAppend(a, front);
      Seqs.AppendAssoc(CommentBodies(a), CommentBodies(front), kept);
    }
  }

  /** The number of texts whose label upper-cases to `TOXIC`. */
  function CountToxic(texts: seq<string>, classify: string -> Verdict): (n: nat)
    ensures n <= |texts|
  {
    if texts == [] then 0
    else CountToxic(texts[..|texts| - 1], classify) + (if IsToxicLabel(classify(texts[|texts| - 1]).category) then 1 else 0)
  }

  /** Counting the toxic texts of a list counts those of each part. */
  lemma {:induction false} CountToxicAppend(a: seq<string>, b: seq<string>, classify: string -> Verdict)
    ensures CountToxic(a + b, classify) == CountToxic(a, classify) + CountToxic(b, classify)
    decreases |b|
  {
    if b == [] {
      assert a + b == a;
    } else {
      var front := b[..|b| - 1];
      assert (a + b)[..|a + b| - 1] == a + front;
      CountToxicAppend(a, front, classify);
    }
  }

  lemma CountToxicStep(texts: seq<string>, i: nat, classify: string -> Verdict)
    requires i < |texts|
    ensures CountToxic(texts[..i + 1], classify) ==
              CountToxic(texts[..i], classify) + (if IsToxicLabel(classify(texts[i]).category) then 1 else 0)
  {
    assert texts[..i + 1][..i] == texts[..i];
  }

  /** The comment-collecting loop shared by both servers. */
  method CollectBodies(cs: seq<Comment>) returns (texts: seq<string>)
    ensures texts == CommentBodies(cs)
  {
    texts := [];
    for j := 0 to |cs|
      invariant texts == CommentBodies(cs[..j])
    {
      assert cs[..j + 1][..j] == cs[..j];
      if KeepComment(cs[j]) {
        texts := texts + [cs[j].body];
      }
    }
    assert cs[..|cs|] == cs;
  }
}
