/**
 The notice state machine against its append-only ledger: what a reader of the events may conclude
 about the rows, in every interleaving of the renewal steps.
 */
module NoticeLedger {
  import opened Renewals

  /** The events of one notice, oldest first. */
  function EventsOf(log: seq<NoticeEvent>, n: nat): seq<NoticeEventKind>
    decreases |log|
  {
    if log == [] then []
    else
      var e := log[|log| - 1];
      EventsOf(log[..|log| - 1], n) + (if e.notice == n then [e.kind] else [])
  }

  lemma EventsSnoc(log: seq<NoticeEvent>, e: NoticeEvent, n: nat)
    ensures EventsOf(log + [e], n) == EventsOf(log, n) + (if e.notice == n then [e.kind] else [])
  {
    assert (log + [e])[..|log|] == log;
  }

  const DRAFTED := [NoticeGenerated]
  const CLEARED_TO_SERVE := [NoticeGenerated, NoticeApproved]
  const AWAITING_PROOF := [NoticeGenerated, NoticeApproved, NoticeServiceRecorded]
  const SERVED_AT_ONCE := [NoticeGenerated, NoticeApproved, NoticeServed]
  const SERVED_LATER := [NoticeGenerated, NoticeApproved, NoticeServiceRecorded, NoticeServed]

  /** Status and ledger tell the same story, and a served notice carries proof. */
  predicate Tells(row: Notice, events: seq<NoticeEventKind>) {
    match row.status
    case GENERATED => events == DRAFTED
    case APPROVED => events == CLEARED_TO_SERVE
    case SERVICE_RECORDED_PENDING_EVIDENCE => events == AWAITING_PROOF
    case SERVED => (events == SERVED_AT_ONCE || events == SERVED_LATER) && row.Proven()
    case NOTICE_WITHDRAWN => false
  }

  ghost predicate ServedOn(s: State, c: nat) {
    exists n | 0 <= n < |s.notices| :: s.notices[n].renewalCase == c && s.notices[n].status == SERVED
  }

  ghost predicate Truthful(s: State) {
    && (forall n | 0 <= n < |s.notices| :: Tells(s.notices[n], EventsOf(s.noticeLog, n)))
    && (forall n: nat | n >= |s.notices| :: EventsOf(s.noticeLog, n) == [])
    && (forall c | 0 <= c < |s.cases| :: s.cases[c].noticeServedAt.Some? <==> ServedOn(s, c))
  }

  /** What a step away from the notices leaves alone. */
  ghost predicate NoticesUntouched(s: State, s': State) {
    && s'.notices == s.notices && s'.noticeLog == s.noticeLog && |s.cases| <= |s'.cases|
    && (forall c | 0 <= c < |s.cases| :: s'.cases[c].noticeServedAt == s.cases[c].noticeServedAt)
    && (forall c | |s.cases| <= c < |s'.cases| :: s'.cases[c].noticeServedAt.None?)
  }

  predicate TouchesNotices(step: Step) {
    step.PrepareNotice? || step.ApproveNotice? || step.ServeNotice? || step.ConfirmService?
  }

  lemma UntouchedBy(s: State, step: Step)
    requires Enabled(s, step) && !TouchesNotices(step)
    ensures NoticesUntouched(s, Do(s, step))
  {}

  lemma UntouchedTruthful(s: State, s': State)
    requires Refs(s) && Truthful(s) && NoticesUntouched(s, s')
    ensures Truthful(s')
  {
    forall c | 0 <= c < |s'.cases| ensures s'.cases[c].noticeServedAt.Some? <==> ServedOn(s', c) {
      if c < |s.cases| { assert ServedOn(s, c) <==> ServedOn(s', c); }
    }
  }

  /** One notice row changes and its event is appended; the case follows exactly when the notice becomes served. */
  ghost predicate OneNoticeMoves(s: State, s': State, n: nat, kind: NoticeEventKind) {
    && n < |s'.notices| && |s.notices| <= |s'.notices| <= |s.notices| + 1 && (|s'.notices| > |s.notices| ==>
      n == |s.notices|)
    && (forall m | 0 <= m < |s.notices| && m != n :: s'.notices[m] == s.notices[m])
    && (n < |s.notices| ==> s'.notices[n].renewalCase == s.notices[n].renewalCase && s.notices[n].status != SERVED)
    && s'.noticeLog == s.noticeLog + [NoticeEvent(n, kind)]
    && |s'.cases| == |s.cases|
    && (forall c | 0 <= c < |s.cases| :: s'.cases[c].noticeServedAt.Some? <==>
          s.cases[c].noticeServedAt.Some? || (c == s'.notices[n].renewalCase && s'.notices[n].status == SERVED))
    && Tells(s'.notices[n], EventsOf(s.noticeLog, n) + [kind])
  }

  lemma ServedOnMoves(s: State, s': State, n: nat, kind: NoticeEventKind, c: nat)
    requires OneNoticeMoves(s, s', n, kind)
    ensures ServedOn(s', c) <==> ServedOn(s, c) || (c == s'.notices[n].renewalCase && s'.notices[n].status == SERVED)
  {
    if ServedOn(s', c) {
      var m :| 0 <= m < |s'.notices| && s'.notices[m].renewalCase == c && s'.notices[m].status == SERVED;
      assert m != n ==> s'.notices[m] == s.notices[m];
    }
    if ServedOn(s, c) {
      var m :| 0 <= m < |s.notices| && s.notices[m].renewalCase == c && s.notices[m].status == SERVED;
      assert s'.notices[m] == s.notices[m];
    }
  }

  lemma MoveTruthful(s: State, s': State, n: nat, kind: NoticeEventKind)
    requires Truthful(s) && OneNoticeMoves(s, s', n, kind)
    ensures Truthful(s')
  {
    forall m: nat ensures EventsOf(s'.noticeLog, m) == EventsOf(s.noticeLog, m) + (if m == n then [kind] else []) {
      EventsSnoc(s.noticeLog, NoticeEvent(n, kind), m);
    }
    forall m | 0 <= m < |s'.notices| ensures Tells(s'.notices[m], EventsOf(s'.noticeLog, m)) {
      if m != n { assert s'.notices[m] == s.notices[m]; }
    }
    forall c | 0 <= c < |s'.cases| ensures s'.cases[c].noticeServedAt.Some? <==> ServedOn(s', c) {
      ServedOnMoves(s, s', n, kind, c);
    }
  }

  lemma DraftMoves(s: State, step: Step, n: nat)
    requires Refs(s) && Truthful(s) && Enabled(s, step)
    requires (step.PrepareNotice? && n == |s.notices|) || (step.ApproveNotice? && n == step.n)
    ensures OneNoticeMoves(s, Do(s, step), n, if step.PrepareNotice? then NoticeGenerated else NoticeApproved)
  {
    if n < |s.notices| { assert Tells(s.notices[n], EventsOf(s.noticeLog, n)); }
  }

  lemma ServiceMoves(s: State, n: nat, input: ServiceInput)
    requires Refs(s) && Truthful(s) && Enabled(s, ServeNotice(n, input))
    ensures OneNoticeMoves(s, Do(s, ServeNotice(n, input)), n, if input.HasEvidence() then NoticeServed
      else NoticeServiceRecorded)
  {
    assert Tells(s.notices[n], EventsOf(s.noticeLog, n));
  }

  lemma ProofMoves(s: State, n: nat, input: ServiceInput)
    requires Refs(s) && Truthful(s) && Enabled(s, ConfirmService(n, input))
    ensures OneNoticeMoves(s, Do(s, ConfirmService(n, input)), n, NoticeServed)
  {
    assert Tells(s.notices[n], EventsOf(s.noticeLog, n));
  }

  lemma TruthfulStep(s: State, step: Step)
    requires Refs(s) && Truthful(s) && Enabled(s, step)
    ensures Truthful(Do(s, step))
  {
    var s' := Do(s, step);
    match step
    case PrepareNotice(c, _) =>
      DraftMoves(s, step, |s.notices|);
      MoveTruthful(s, s', |s.notices|, NoticeGenerated);
    case ApproveNotice(n) =>
      DraftMoves(s, step, n);
      MoveTruthful(s, s', n, NoticeApproved);
    case ServeNotice(n, input) =>
      ServiceMoves(s, n, input);
      MoveTruthful(s, s', n, if input.HasEvidence() then NoticeServed else NoticeServiceRecorded);
    case ConfirmService(n, input) =>
      ProofMoves(s, n, input);
      MoveTruthful(s, s', n, NoticeServed);
    case _ =>
      UntouchedBy(s, step);
      UntouchedTruthful(s, s');
  }

  lemma {:induction false} TruthfulRun(s: State, steps: seq<Step>, s': State)
    requires Inv(s) && Truthful(s) && Run(s, steps, s')
    ensures Truthful(s')
    decreases |steps|
  {
    if steps == [] {
    } else {
      InvStep(s, steps[0]);
      TruthfulStep(s, steps[0]);
      TruthfulRun(Do(s, steps[0]), steps[1..], s');
    }
  }

  lemma TellsPrefix(row: Notice, events: seq<NoticeEventKind>)
    requires Tells(row, events)
    ensures events <= SERVED_AT_ONCE || events <= SERVED_LATER
    ensures NoticeServed in events <==> row.status == SERVED
  {}

  /**
   In every interleaving, from empty tables: the events of a notice are a prefix of generated,
   approved, optionally service recorded, served, and they end where the row stands; the ledger says
   served exactly for served rows, and those carry a delivery reference, document or attestation; a
   case has a service date exactly when one of its notices is served.
   */
  lemma LedgerTellsTheTruth(steps: seq<Step>, s: State, n: nat)
    requires Run(EMPTY, steps, s)
    ensures EventsOf(s.noticeLog, n) <= SERVED_AT_ONCE || EventsOf(s.noticeLog, n) <= SERVED_LATER
    ensures NoticeServed in EventsOf(s.noticeLog, n) <==> n < |s.notices| && s.notices[n].status == SERVED
    ensures n < |s.notices| ==> Tells(s.notices[n], EventsOf(s.noticeLog, n))
    ensures n < |s.notices| && s.notices[n].status == SERVED ==> s.notices[n].Proven()
    ensures forall c | 0 <= c < |s.cases| :: s.cases[c].noticeServedAt.Some? <==> ServedOn(s, c)
  {
    assert Inv(EMPTY) && Truthful(EMPTY);
    TruthfulRun(EMPTY, steps, s);
    if n < |s.notices| { TellsPrefix(s.notices[n], EventsOf(s.noticeLog, n)); }
  }

  /** A served notice is served for good, with the proof it was served on. */
  lemma {:induction false} ServedIsFinal(s: State, n: nat, steps: seq<Step>, s': State)
    requires n < |s.notices| && s.notices[n].status == SERVED && Run(s, steps, s')
    ensures n < |s'.notices| && s'.notices[n] == s.notices[n]
    decreases |steps|
  {
    if steps == [] {
    } else {
      assert Do(s, steps[0]).notices[n] == s.notices[n];
      ServedIsFinal(Do(s, steps[0]), n, steps[1..], s');
    }
  }
}
