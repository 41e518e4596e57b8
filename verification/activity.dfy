/**
 * The per-user aggregation shared by the bot and the web app: the recent
 * comments and submissions of a redditor are turned into texts with a
 * display record each, every text is classified, and the toxic ones are
 * collected in order.
 */
module Activity {
  import opened Wrappers
  import opened Chars
  import opened Classifier
  import opened Seqs

  datatype Comment = Comment(body: string, subreddit: string)

  datatype Submission = Submission(title: string, selftext: string, subreddit: string)

  /** What a praw listing yields: the items produced before the iteration
    * ended, and whether it ended by raising. */
  datatype Fetch<T> = Fetch(items: seq<T>, failed: bool)

  /** The listings the Reddit API gives for a username (limit 10). */
  datatype Reddit = Reddit(comments: string -> Fetch<Comment>, submissions: string -> Fetch<Submission>)

  datatype ItemKind = CommentItem | SubmissionItem

  /** A collected text and its entry in `analysis_details` before classification. */
  datatype Pending = Pending(text: string, kind: ItemKind, content: string, subreddit: string)

  /** An `analysis_details` entry after classification. */
  datatype Detail = Detail(kind: ItemKind, content: string, subreddit: string, category: string, score: ScoreValue)

  /** `(toxic_count, total, analysis_details, toxic_items)` */
  datatype Report = Report(toxicCount: nat, total: nat, details: seq<Detail>, toxicItems: seq<Detail>)

  /** `classify_dm` as its caller sees it: `None` when the call, or reading
    * the label it returned, raised. */
  type Scorer = string -> Option<Verdict>

  /** `comment.body and comment.body != "[deleted]"` */
  predicate KeepComment(c: Comment) {
    c.body != "" && c.body != "[deleted]"
  }

  /** `title`, followed by `" " + selftext` when the self text is not empty. */
  function SubmissionText(s: Submission): (t: string)
    ensures s.selftext == "" ==> t == s.title
    ensures s.selftext != "" ==>
              |t| == |s.title| + 1 + |s.selftext| && t[..|s.title|] == s.title &&
              t[|s.title|] == ' ' && t[|s.title| + 1..] == s.selftext
  {
    if s.selftext != "" then s.title + " " + s.selftext else s.title
  }

  function CommentPending(c: Comment): Pending {
    Pending(c.body, CommentItem, Preview(c.body), c.subreddit)
  }

  function SubmissionPending(s: Submission): Pending {
    Pending(SubmissionText(s), SubmissionItem, Preview(SubmissionText(s)), s.subreddit)
  }

  /** The texts the comment loop collects: the kept comments, in order. */
  function CommentPendings(cs: seq<Comment>): (ps: seq<Pending>)
    ensures |ps| <= |cs|
    ensures forall p :: p in ps <==> exists c :: c in cs && KeepComment(c) && p == CommentPending(c)
  {
    if cs == [] then []
    else
      var front := cs[..|cs| - 1];
      var c := cs[|cs| - 1];
      assert cs == front + [c];
      CommentPendings(front) + (if KeepComment(c) then [CommentPending(c)] else [])
  }

  /** One comment yields its text exactly when the loop keeps it. */
  lemma CommentPendingsOne(c: Comment)
    ensures CommentPendings([c]) == if KeepComment(c) then [CommentPending(c)] else []
  {
    assert [c][..0] == [];
  }

  /** The texts of two listings read one after the other are the texts of
    * the first, then those of the second. */
  lemma {:induction false} CommentPendingsAppend(a: seq<Comment>, b: seq<Comment>)
    ensures CommentPendings(a + b) == CommentPendings(a) + CommentPendings(b)
    decreases |b|
  {
    if b == [] {
      assert a + b == a;
    } else {
      var front := b[..|b| - 1];
      var c := b[|b| - 1];
      var kept := if KeepComment(c) then [CommentPending(c)] else [];
      assert (a + b)[..|a + b| - 1] == a + front;
      assert (a + b)[|a + b| - 1] == c;
      assert CommentPendings(a + b) == CommentPendings(a + front) + kept;
      assert CommentPendings(b) == CommentPendings(front) + kept;
      CommentPendingsAppend(a, front);
      AppendAssoc(CommentPendings(a), CommentPendings(front), kept);
    }
  }

  /** The texts the submission loop collects: one per submission, in order. */
  function SubmissionPendings(ss: seq<Submission>): (ps: seq<Pending>)
    ensures |ps| == |ss|
    ensures forall k :: 0 <= k < |ss| ==> ps[k] == SubmissionPending(ss[k])
  {
    seq(|ss|, k requires 0 <= k < |ss| => SubmissionPending(ss[k]))
  }

  /** A label counts as toxic when it upper-cases to `TOXIC` (an empty label does not). */
  predicate IsToxicLabel(category: string) {
    Upper(category) == "TOXIC"
  }

  /** The detail entry of one text once `classify_dm` answered, or raised. */
  function Assess(p: Pending, answer: Option<Verdict>): (d: Detail)
    ensures d.kind == p.kind && d.content == p.content && d.subreddit == p.subreddit
    ensures answer.None? ==> d.category == "ERROR" && d.score == Zero
    ensures answer.Some? ==> d.category == answer.value.category && d.score == answer.value.score
  {
    match answer
    case None => Detail(p.kind, p.content, p.subreddit, "ERROR", Zero)
    case Some(v) => Detail(p.kind, p.content, p.subreddit, v.category, v.score)
  }

  function Details(ps: seq<Pending>, classify: Scorer): (ds: seq<Detail>)
    ensures |ds| == |ps|
    ensures forall k :: 0 <= k < |ps| ==> ds[k] == Assess(ps[k], classify(ps[k].text))
  {
    seq(|ps|, k requires 0 <= k < |ps| => Assess(ps[k], classify(ps[k].text)))
  }

  /** The details whose label is toxic, in their original order. */
  function ToxicItems(ds: seq<Detail>): (ts: seq<Detail>)
    ensures |ts| <= |ds|
    ensures forall d :: d in ts <==> d in ds && IsToxicLabel(d.category)
  {
    if ds == [] then []
    else
      var front := ds[..|ds| - 1];
      var d := ds[|ds| - 1];
      assert ds == front + [d];
      ToxicItems(front) + (if IsToxicLabel(d.category) then [d] else [])
  }

  lemma {:induction false} ToxicItemsAppend(a: seq<Detail>, b: seq<Detail>)
    ensures ToxicItems(a + b) == ToxicItems(a) + ToxicItems(b)
    decreases |b|
  {
    if b == [] {
      assert a + b == a;
    } else {
      var front := b[..|b| - 1];
      var d := b[|b| - 1];
      var kept := if IsToxicLabel(d.category) then [d] else [];
      assert (a + b)[..|a + b| - 1] == a + front;
      assert (a + b)[|a + b| - 1] == d;
      assert ToxicItems(a + b) == ToxicItems(a + front) + kept;
      assert ToxicItems(b) == ToxicItems(front) + kept;
      ToxicItemsAppend(a, front);
      AppendAssoc(ToxicItems(a), ToxicItems(front), kept);
    }
  }

  /** The report for the collected texts: `None` when there are none. */
  function Summarise(ps: seq<Pending>, classify: Scorer): (r: Option<Report>)
    ensures r.None? <==> ps == []
  {
    if ps == [] then None
    else
      var ds := Details(ps, classify);
      Some(Report(|ToxicItems(ds)|, |ps|, ds, ToxicItems(ds)))
  }

  /** The report keeps one detail per text and counts exactly its toxic items. */
  lemma ReportCounts(ps: seq<Pending>, classify: Scorer)
    requires ps != []
    ensures var r := Summarise(ps, classify).value;
            && r.total == |r.details| == |ps| > 0
            && r.toxicCount == |r.toxicItems| <= r.total
            && (forall d :: d in r.toxicItems <==> d in r.details && IsToxicLabel(d.category))
            && (forall k :: 0 <= k < |ps| ==> r.details[k] == Assess(ps[k], classify(ps[k].text)))
  {
  }

  /** A text whose classification raised is reported as ERROR and is never toxic. */
  lemma RaisedIsNotToxic(p: Pending)
    ensures !IsToxicLabel(Assess(p, None).category)
  {
    assert Upper("ERROR") == "ERROR";
  }

  lemma ExtendDetails(ps: seq<Pending>, i: nat, classify: Scorer)
    requires i < |ps|
    ensures Details(ps[..i + 1], classify) == Details(ps[..i], classify) + [Assess(ps[i], classify(ps[i].text))]
  {
    assert ps[..i + 1] == ps[..i] + [ps[i]];
  }

  /** The comment loop: keeps every non-empty, non-deleted comment body. */
  method CollectComments(cs: seq<Comment>) returns (ps: seq<Pending>)
    ensures ps == CommentPendings(cs)
  {
    ps := [];
    for j := 0 to |cs|
      invariant ps == CommentPendings(cs[..j])
    {
      assert cs[..j + 1][..j] == cs[..j];
      if KeepComment(cs[j]) {
        ps := ps + [CommentPending(cs[j])];
      }
    }
    assert cs[..|cs|] == cs;
  }

  /** The submission loop: one text per submission. */
  method CollectSubmissions(ss: seq<Submission>) returns (ps: seq<Pending>)
    ensures ps == SubmissionPendings(ss)
  {
    ps := [];
    for j := 0 to |ss|
      invariant ps == SubmissionPendings(ss[..j])
    {
      ps := ps + [SubmissionPending(ss[j])];
    }
    assert ss[..|ss|] == ss;
  }

  /** The classification loop: each text is classified in turn; a raised
    * call gives that item ERROR and the loop goes on. */
  method ScoreTexts(ps: seq<Pending>, classify: Scorer) returns (details: seq<Detail>, toxicItems: seq<Detail>, toxicCount: nat)
    ensures details == Details(ps, classify)
    ensures toxicItems == ToxicItems(details)
    ensures toxicCount == |toxicItems|
  {
    details, toxicItems, toxicCount := [], [], 0;
    for i := 0 to |ps|
      invariant details == Details(ps[..i], classify)
      invariant toxicItems == ToxicItems(details)
      invariant toxicCount == |toxicItems|
    {
      var d := Assess(ps[i], classify(ps[i].text));
      ExtendDetails(ps, i, classify);
      ToxicItemsAppend(details, [d]);
      assert [d][..0] == [];
      details := details + [d];
      if IsToxicLabel(d.category) {
        toxicCount := toxicCount + 1;
        toxicItems := toxicItems + [d];
      }
    }
    assert ps[..|ps|] == ps;
  }
}
