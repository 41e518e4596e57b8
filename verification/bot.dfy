/**
 * The inbox bot: every cycle it reads the unread messages, analyses the
 * recent activity of each sender, reports the outcome and marks the
 * message read; between cycles it waits a flat delay.
 */
module Bot {
  import opened Wrappers
  import opened Classifier
  import opened Activity
  import opened Seqs

  /** The report the bot's `analyze_user` computes. A failing listing is
    * caught on its own: the items it yielded are kept and the other
    * listing is still read. */
  function BotReport(reddit: Reddit, username: string, classify: Scorer): Option<Report> {
    Summarise(CommentPendings(reddit.comments(username).items) + SubmissionPendings(reddit.submissions(username).items), classify)
  }

  /** `analyze_user(reddit, username)` of the bot. */
  method AnalyzeUser(reddit: Reddit, username: string, classify: Scorer) returns (r: Option<Report>)
    ensures r == BotReport(reddit, username, classify)
  {
    var comments := reddit.comments(username);
    var fromComments := CollectComments(comments.items);
    var submissions := reddit.submissions(username);
    var fromSubmissions := CollectSubmissions(submissions.items);
    var texts := fromComments + fromSubmissions;
    if texts == [] {
      return None;
    }
    var details, toxicItems, toxicCount := ScoreTexts(texts, classify);
    r := Some(Report(toxicCount, |texts|, details, toxicItems));
  }

  /** The bot's report is `None` exactly when neither listing yielded a
    * usable text, and a listing that raised still contributes what it
    * yielded before raising. */
  lemma BotReportNoneIffNoTexts(reddit: Reddit, username: string, classify: Scorer)
    ensures BotReport(reddit, username, classify).None? <==>
              (forall c :: c in reddit.comments(username).items ==> !KeepComment(c)) &&
              reddit.submissions(username).items == []
  {
    var cs := reddit.comments(username).items;
    if forall c :: c in cs ==> !KeepComment(c) {
      if CommentPendings(cs) != [] {
        assert CommentPendings(cs)[0] in CommentPendings(cs);
      }
    } else {
      var c :| c in cs && KeepComment(c);
      assert CommentPending(c) in CommentPendings(cs);
    }
  }

  /** An unread message: its author (`None` for a deleted account) and
    * whether `mark_read` raises for it. */
  datatype Message = Message(id: nat, author: Option<string>, markReadFails: bool)

  /** `str(message.author) if message.author else "Unknown"` */
  function Sender(m: Message): string {
    match m.author case None => "Unknown" case Some(name) => name
  }

  /** A sender is left unanalysed exactly when the author is missing or is literally named `Unknown`. */
  lemma UnknownSenderIsNotAnalysed(m: Message)
    ensures Sender(m) == "Unknown" <==> m.author.None? || m.author == Some("Unknown")
  {
  }

  /** What the bot reports about one sender. */
  datatype Assessment = NotAnalysed | NoActivity | Clean(total: nat) | Alert(toxicCount: nat, total: nat, shown: seq<Detail>)

  /** A line of the bot's console report. */
  datatype Notice = InboxError | NoUnread | Handled(sender: string, assessment: Assessment)

  const AlertItems: nat := 3

  function AssessmentOf(report: Option<Report>): Assessment {
    match report
    case None => NoActivity
    case Some(r) =>
      if r.toxicCount > 0 then Alert(r.toxicCount, r.total, r.toxicItems[..if |r.toxicItems| < AlertItems then |r.toxicItems| else AlertItems])
      else Clean(r.total)
  }

  function AssessSender(m: Message, reddit: Reddit, classify: Scorer): Assessment {
    if Sender(m) == "Unknown" then NotAnalysed else AssessmentOf(BotReport(reddit, Sender(m), classify))
  }

  /** An alert is raised exactly for an analysed sender with a toxic recent
    * item; it shows the first three toxic items, in order, all of them toxic. */
  lemma AlertShowsFirstToxicItems(m: Message, reddit: Reddit, classify: Scorer)
    ensures var a := AssessSender(m, reddit, classify);
            var report := BotReport(reddit, Sender(m), classify);
            && (a.Alert? <==> Sender(m) != "Unknown" && report.Some? && report.value.toxicCount > 0)
            && (a.Alert? ==>
                  && a.toxicCount == |report.value.toxicItems| > 0
                  && a.toxicCount <= a.total == |report.value.details|
                  && |a.shown| == (if a.toxicCount < 3 then a.toxicCount else 3)
                  && a.shown == report.value.toxicItems[..|a.shown|]
                  && (forall d :: d in a.shown ==> d in report.value.details && IsToxicLabel(d.category)))
  {
    var report := BotReport(reddit, Sender(m), classify);
    if report.Some? {
      var texts := CommentPendings(reddit.comments(Sender(m)).items) + SubmissionPendings(reddit.submissions(Sender(m)).items);
      ReportCounts(texts, classify);
      var items := report.value.toxicItems;
      var n := if |items| < AlertItems then |items| else AlertItems;
      forall d | d in items[..n] ensures d in report.value.details && IsToxicLabel(d.category) {
        assert d in items;
      }
    }
  }

  /** Printing an alert formats each shown score with `:.3f`, which raises
    * on a score that is not a number; the message handler catches it before
    * `mark_read` is reached. */
  predicate AlertRaises(a: Assessment) {
    a.Alert? && exists k :: 0 <= k < |a.shown| && a.shown[k].score.NotNumeric?
  }

  /** `mark_read` is reached and succeeds for the message. */
  predicate Marks(m: Message, reddit: Reddit, classify: Scorer) {
    !m.markReadFails && !AlertRaises(AssessSender(m, reddit, classify))
  }

  /** The ids of the messages marked read, in message order. */
  function MarkedIds(ms: seq<Message>, reddit: Reddit, classify: Scorer): (ids: seq<nat>)
    ensures |ids| <= |ms|
    ensures forall id :: id in ids <==> exists m :: m in ms && Marks(m, reddit, classify) && m.id == id
  {
    if ms == [] then []
    else
      var front := ms[..|ms| - 1];
      var m := ms[|ms| - 1];
      assert ms == front + [m];
      MarkedIds(front, reddit, classify) + (if Marks(m, reddit, classify) then [m.id] else [])
  }

  function HandledNotices(ms: seq<Message>, reddit: Reddit, classify: Scorer): (ns: seq<Notice>)
    ensures |ns| == |ms|
    ensures forall k :: 0 <= k < |ms| ==> ns[k] == Handled(Sender(ms[k]), AssessSender(ms[k], reddit, classify))
  {
    seq(|ms|, k requires 0 <= k < |ms| => Handled(Sender(ms[k]), AssessSender(ms[k], reddit, classify)))
  }

  /** The messages marked read in a cycle: none when the inbox could not be read. */
  function CycleMarked(inbox: Fetch<Message>, reddit: Reddit, classify: Scorer): seq<nat> {
    if inbox.failed then [] else MarkedIds(inbox.items, reddit, classify)
  }

  function CycleNotices(inbox: Fetch<Message>, reddit: Reddit, classify: Scorer): seq<Notice> {
    if inbox.failed then [InboxError]
    else if inbox.items == [] then [NoUnread]
    else HandledNotices(inbox.items, reddit, classify)
  }

  /** A message is marked read exactly when the inbox was read, its alert
    * (if any) printed without raising, and its `mark_read` succeeded. */
  lemma MarkingRule(inbox: Fetch<Message>, reddit: Reddit, classify: Scorer, id: nat)
    ensures id in CycleMarked(inbox, reddit, classify) <==>
              !inbox.failed &&
              exists m :: m in inbox.items && m.id == id && !m.markReadFails &&
                          !AlertRaises(AssessSender(m, reddit, classify))
  {
  }

  /** When every score the classifier returns is a number, the analysis never
    * keeps a message unread: it is marked exactly when `mark_read` succeeds. */
  lemma NumericScoresNeverBlockMarking(m: Message, reddit: Reddit, classify: Scorer)
    requires forall t :: classify(t).Some? ==> classify(t).value.score.Num?
    ensures Marks(m, reddit, classify) <==> !m.markReadFails
  {
    var a := AssessSender(m, reddit, classify);
    if a.Alert? {
      var report := BotReport(reddit, Sender(m), classify);
      AlertShowsFirstToxicItems(m, reddit, classify);
      NumericDetails(CommentPendings(reddit.comments(Sender(m)).items) + SubmissionPendings(reddit.submissions(Sender(m)).items), classify);
      forall k | 0 <= k < |a.shown| ensures a.shown[k].score.Num? {
        assert a.shown[k] in a.shown;
      }
    }
  }

  /** With numeric classifier scores, every detail's score is a number
    * (a raised classification is scored 0.0). */
  lemma {:induction false} NumericDetails(ps: seq<Pending>, classify: Scorer)
    requires forall t :: classify(t).Some? ==> classify(t).value.score.Num?
    ensures forall d :: d in Details(ps, classify) ==> d.score.Num?
  {
    var ds := Details(ps, classify);
    forall d | d in ds ensures d.score.Num? {
      var j :| 0 <= j < |ds| && ds[j] == d;
      assert d == Assess(ps[j], classify(ps[j].text));
    }
  }

  /** One cycle of the loop: the inbox as read, and whether an exception
    * escaped the cycle after the messages were processed. */
  datatype Cycle = Cycle(inbox: Fetch<Message>, faulted: bool)

  const CompletedDelay: nat := 300
  const FaultDelay: nat := 60

  /** The seconds slept after each cycle. */
  function Delays(cycles: seq<Cycle>): (ds: seq<nat>)
    ensures |ds| == |cycles|
    ensures forall k :: 0 <= k < |cycles| ==> ds[k] == (if cycles[k].faulted then FaultDelay else CompletedDelay)
  {
    seq(|cycles|, k requires 0 <= k < |cycles| => if cycles[k].faulted then FaultDelay else CompletedDelay)
  }

  /** The delay is flat: what precedes a cycle never changes how long the
    * bot waits after it. */
  lemma DelayIsFlat(before: seq<Cycle>, c: Cycle, after: seq<Cycle>)
    ensures Delays(before + [c] + after)[|before|] == Delays([c])[0]
    ensures Delays([c])[0] == CompletedDelay || Delays([c])[0] == FaultDelay
  {
    assert (before + [c] + after)[|before|] == c;
  }

  function RunMarked(cycles: seq<Cycle>, reddit: Reddit, classify: Scorer): seq<nat> {
    if cycles == [] then [] else RunMarked(cycles[..|cycles| - 1], reddit, classify) + CycleMarked(cycles[|cycles| - 1].inbox, reddit, classify)
  }

  function RunNotices(cycles: seq<Cycle>, reddit: Reddit, classify: Scorer): seq<Notice> {
    if cycles == [] then [] else RunNotices(cycles[..|cycles| - 1], reddit, classify) + CycleNotices(cycles[|cycles| - 1].inbox, reddit, classify)
  }

  lemma {:induction false} MarkedExtend(ms: seq<Message>, i: nat, reddit: Reddit, classify: Scorer)
    requires i < |ms|
    ensures MarkedIds(ms[..i + 1], reddit, classify) ==
              MarkedIds(ms[..i], reddit, classify) + (if Marks(ms[i], reddit, classify) then [ms[i].id] else [])
  {
    assert ms[..i + 1][..i] == ms[..i];
  }

  lemma {:induction false} NoticesExtend(ms: seq<Message>, i: nat, reddit: Reddit, classify: Scorer)
    requires i < |ms|
    ensures HandledNotices(ms[..i + 1], reddit, classify) ==
              HandledNotices(ms[..i], reddit, classify) + [Handled(Sender(ms[i]), AssessSender(ms[i], reddit, classify))]
  {
    assert ms[..i + 1][..i] == ms[..i];
  }

  lemma {:induction false} RunMarkedExtend(cycles: seq<Cycle>, i: nat, reddit: Reddit, classify: Scorer)
    requires i < |cycles|
    ensures RunMarked(cycles[..i + 1], reddit, classify) ==
              RunMarked(cycles[..i], reddit, classify) + CycleMarked(cycles[i].inbox, reddit, classify)
  {
    assert cycles[..i + 1][..i] == cycles[..i];
  }

  lemma {:induction false} RunNoticesExtend(cycles: seq<Cycle>, i: nat, reddit: Reddit, classify: Scorer)
    requires i < |cycles|
    ensures RunNotices(cycles[..i + 1], reddit, classify) == RunNotices(cycles[..i], reddit, classify) + CycleNotices(cycles[i].inbox, reddit, classify)
  {
    assert cycles[..i + 1][..i] == cycles[..i];
  }

  lemma {:induction false} DelaysExtend(cycles: seq<Cycle>, i: nat)
    requires i < |cycles|
    ensures Delays(cycles[..i + 1]) == Delays(cycles[..i]) + [if cycles[i].faulted then FaultDelay else CompletedDelay]
  {
  }

  /** The bot's observable state across cycles. */
  class Session {
    /** Ids of the messages marked read, in order. */
    var marked: seq<nat>
    /** The console report. */
    var notices: seq<Notice>
    /** The seconds slept between cycles. */
    var delays: seq<nat>

    constructor()
      ensures marked == [] && notices == [] && delays == []
    {
      marked, notices, delays := [], [], [];
    }

    /** `process_messages(reddit)`: a failed inbox read is caught and
      * nothing is marked; otherwise each message is reported on and marked
      * read, and an alert whose score cannot be printed or a failing
      * `mark_read` only skips marking that message. */
    method ProcessMessages(inbox: Fetch<Message>, reddit: Reddit, classify: Scorer)
      modifies this
      ensures marked == old(marked) + CycleMarked(inbox, reddit, classify)
      ensures notices == old(notices) + CycleNotices(inbox, reddit, classify)
      ensures delays == old(delays)
    {
      if inbox.failed {
        notices := notices + [InboxError];
        return;
      }
      var messages := inbox.items;
      if messages == [] {
        notices := notices + [NoUnread];
        return;
      }
      for i := 0 to |messages|
        invariant marked == old(marked) + MarkedIds(messages[..i], reddit, classify)
        invariant notices == old(notices) + HandledNotices(messages[..i], reddit, classify)
        invariant delays == old(delays)
      {
        var m := messages[i];
        MarkedExtend(messages, i, reddit, classify);
        NoticesExtend(messages, i, reddit, classify);
        AppendAssoc(old(marked), MarkedIds(messages[..i], reddit, classify), if Marks(m, reddit, classify) then [m.id] else []);
        AppendAssoc(old(notices), HandledNotices(messages[..i], reddit, classify), [Handled(Sender(m), AssessSender(m, reddit, classify))]);
        HandleMessage(m, reddit, classify);
      }
      assert messages[..|messages|] == messages;
      assert CycleMarked(inbox, reddit, classify) == MarkedIds(messages, reddit, classify);
      assert CycleNotices(inbox, reddit, classify) == HandledNotices(messages, reddit, classify);
    }

    /** The body of the message loop: report on the sender, then mark read;
      * printing an unprintable score raises before `mark_read`. */
    method HandleMessage(m: Message, reddit: Reddit, classify: Scorer)
      modifies this
      ensures notices == old(notices) + [Handled(Sender(m), AssessSender(m, reddit, classify))]
      ensures marked == old(marked) + (if Marks(m, reddit, classify) then [m.id] else [])
      ensures delays == old(delays)
    {
      var sender := Sender(m);
      var assessment := NotAnalysed;
      if sender != "Unknown" {
        var report := AnalyzeUser(reddit, sender, classify);
        assessment := AssessmentOf(report);
      }
      notices := notices + [Handled(sender, assessment)];
      if AlertRaises(assessment) {
        return;
      }
      if !m.markReadFails {
        marked := marked + [m.id];
      }
    }

    /** `main()`: nothing happens when authentication failed; otherwise the
      * bot runs the given cycles, sleeping 300 s after a completed cycle and
      * 60 s after one an exception escaped. */
    method Run(authenticated: bool, cycles: seq<Cycle>, reddit: Reddit, classify: Scorer)
      modifies this
      ensures !authenticated ==> marked == old(marked) && notices == old(notices) && delays == old(delays)
      ensures authenticated ==>
                && marked == old(marked) + RunMarked(cycles, reddit, classify)
                && notices == old(notices) + RunNotices(cycles, reddit, classify)
                && delays == old(delays) + Delays(cycles)
    {
      if authenticated {
        RunCycles(cycles, reddit, classify);
      }
    }

    /** The `while True` loop, until it is interrupted after the last given cycle. */
    method RunCycles(cycles: seq<Cycle>, reddit: Reddit, classify: Scorer)
      modifies this
      ensures marked == old(marked) + RunMarked(cycles, reddit, classify)
      ensures notices == old(notices) + RunNotices(cycles, reddit, classify)
      ensures delays == old(delays) + Delays(cycles)
    {
      for i := 0 to |cycles|
        invariant marked == old(marked) + RunMarked(cycles[..i], reddit, classify)
        invariant notices == old(notices) + RunNotices(cycles[..i], reddit, classify)
        invariant delays == old(delays) + Delays(cycles[..i])
      {
        var c := cycles[i];
        RunMarkedExtend(cycles, i, reddit, classify);
        RunNoticesExtend(cycles, i, reddit, classify);
        DelaysExtend(cycles, i);
        AppendAssoc(old(marked), RunMarked(cycles[..i], reddit, classify), CycleMarked(c.inbox, reddit, classify));
        AppendAssoc(old(notices), RunNotices(cycles[..i], reddit, classify), CycleNotices(c.inbox, reddit, classify));
        AppendAssoc(old(delays), Delays(cycles[..i]), [if c.faulted then FaultDelay else CompletedDelay]);
        RunCycle(c, reddit, classify);
      }
      assert cycles[..|cycles|] == cycles;
    }

    /** One pass of the `while True` loop: process the inbox, then sleep. */
    method RunCycle(c: Cycle, reddit: Reddit, classify: Scorer)
      modifies this
      ensures marked == old(marked) + CycleMarked(c.inbox, reddit, classify)
      ensures notices == old(notices) + CycleNotices(c.inbox, reddit, classify)
      ensures delays == old(delays) + [if c.faulted then FaultDelay else CompletedDelay]
    {
      ProcessMessages(c.inbox, reddit, classify);
      if c.faulted {
        delays := delays + [FaultDelay];
      } else {
        delays := delays + [CompletedDelay];
      }
    }
  }
}
