/**
 Notice calls that overlap. A call reads the notice and its tenancy, checks the status, and writes later
 without a guard; in between other calls may have moved either. Which of these late writes leave rows and
 events in step, and with them whole interleaved runs.
 */
module NoticeRaces {
  import opened Common
  import opened Renewals
  import opened RenewalCalls
  import opened NoticeLedger

  /** A call that passed its check, with what it read: the document it will file, and whether to move the tenancy. */
  datatype Intent =
    | ToApprove(n: nat)
    | ToRecord(n: nat, docId: Option<string>)
    | ToServe(n: nat, input: ServiceInput, docId: Option<string>, moves: bool)

  function DocumentFor(row: Notice, input: ServiceInput): Option<string> {
    if input.docId.Some? then input.docId else row.docId
  }

  predicate BeforeService(status: TenancyStatus) {
    status == T_ACTIVE || status == T_RENEWAL_DUE
  }

  /** The tenancy of a notice, as far as there is one. */
  function TenancyOf(s: State, n: nat): Option<nat> {
    if n < |s.notices| && s.notices[n].renewalCase < |s.cases|
       && s.cases[s.notices[n].renewalCase].tenancy < |s.tenancies|
    then Some(s.cases[s.notices[n].renewalCase].tenancy) else None
  }

  function Service(s: State, n: nat, input: ServiceInput): Intent
    requires n < |s.notices|
  {
    var t := TenancyOf(s, n);
    ToServe(n, input, DocumentFor(s.notices[n], input), t.Some? && BeforeService(s.tenancies[t.value].status))
  }

  /** What the call will write, when its check passes. */
  function IntentOf(s: State, call: Call): Option<Intent> {
    match call
    case ApproveRenewalNotice(n) =>
      if n < |s.notices| && s.notices[n].status == GENERATED then Some(ToApprove(n)) else None
    case ServeNoticeFormal(n, input) =>
      if n < |s.notices| && s.notices[n].status == APPROVED
      then Some(if input.HasEvidence() then Service(s, n, input) else ToRecord(n, DocumentFor(s.notices[n], input)))
      else None
    case ConfirmNoticeService(n, input) =>
      if n < |s.notices| && s.notices[n].status == SERVICE_RECORDED_PENDING_EVIDENCE && input.HasEvidence()
      then Some(Service(s, n, input)) else None
    case _ => None
  }

  /** The event is logged last; a tenancy that can no longer be moved stops the call before it. */
  predicate Announced(s: State, intent: Intent)
    requires intent.ToServe?
  {
    intent.moves ==>
      var t := TenancyOf(s, intent.n);
      t.Some? && T_NOTICE_SERVED in AllowedStatus(s.tenancies[t.value].status)
  }

  /** Notice and case in one transaction, which the active-case index may refuse. */
  function ServedRows(s: State, intent: Intent): State
    requires intent.ToServe? && intent.n < |s.notices| && s.notices[intent.n].renewalCase < |s.cases|
  {
    var n := intent.n;
    var c := s.notices[n].renewalCase;
    s.(notices := s.notices[n := s.notices[n].(status := SERVED, serviceRef := intent.input.serviceRef,
         docId := intent.docId, attestation := intent.input.attestation)],
       cases := s.cases[c := s.cases[c].(status := NOTICE_SERVED, noticeServedAt := Some(intent.input.at))])
  }

  function Announce(s: State, n: nat, kind: NoticeEventKind): State {
    s.(noticeLog := s.noticeLog + [NoticeEvent(n, kind)])
  }

  function Land(s: State, intent: Intent): State {
    if intent.n >= |s.notices| || s.notices[intent.n].renewalCase >= |s.cases| then s
    else
      var n := intent.n;
      match intent
      case ToApprove(_) =>
        Announce(s.(notices := s.notices[n := s.notices[n].(status := APPROVED)]), n, NoticeApproved)
      case ToRecord(_, docId) =>
        var row := s.notices[n].(status := SERVICE_RECORDED_PENDING_EVIDENCE, docId := docId);
        Announce(s.(notices := s.notices[n := row]), n, NoticeServiceRecorded)
      case ToServe(_, input, docId, moves) =>
        if !MayBeActive(s, s.notices[n].renewalCase) then s
        else
          var served := ServedRows(s, intent);
          if !Announced(s, intent) then served
          else if moves then Announce(SetTenancyStatus(served, TenancyOf(s, n).value, T_NOTICE_SERVED), n, NoticeServed)
          else Announce(served, n, NoticeServed)
  }

  /** A call whose write follows its check at once is the call as one step. */
  lemma UninterruptedIsTheCall(s: State, call: Call)
    requires Refs(s)
    requires call.ApproveRenewalNotice? || call.ServeNoticeFormal? || call.ConfirmNoticeService?
    ensures Perform(s, call).state == match IntentOf(s, call) case Some(intent) => Land(s, intent) case None => s
  {
    match call
    case ApproveRenewalNotice(n) =>
    case ServeNoticeFormal(n, input) => ServeAtOnce(s, n, input);
    case ConfirmNoticeService(n, input) => ConfirmAtOnce(s, n, input);
  }

  lemma ServeAtOnce(s: State, n: nat, input: ServiceInput)
    requires Refs(s)
    ensures ServeCall(s, n, input).state ==
            match IntentOf(s, ServeNoticeFormal(n, input)) case Some(intent) => Land(s, intent) case None => s
  {
    if n < |s.notices| && input.HasEvidence() { ServingAtOnce(s, n, input); }
  }

  lemma ConfirmAtOnce(s: State, n: nat, input: ServiceInput)
    requires Refs(s)
    ensures ConfirmCall(s, n, input).state ==
            match IntentOf(s, ConfirmNoticeService(n, input)) case Some(intent) => Land(s, intent) case None => s
  {
    if n < |s.notices| && input.HasEvidence() { ServingAtOnce(s, n, input); }
  }

  lemma ServingAtOnce(s: State, n: nat, input: ServiceInput)
    requires Refs(s) && n < |s.notices|
    ensures Land(s, Service(s, n, input)) ==
            if MayBeActive(s, s.notices[n].renewalCase) then MarkServed(s, n, input) else s
  {}

  // One late write

  /** Whether a write leaves rows and events in step, read off the rows at the moment it lands. */
  predicate Harmless(s: State, intent: Intent)
    requires intent.n < |s.notices| && s.notices[intent.n].renewalCase < |s.cases|
  {
    var status := s.notices[intent.n].status;
    match intent
    case ToApprove(_) => status == GENERATED
    case ToRecord(_, _) => status == APPROVED
    case ToServe(_, _, _, _) =>
      || !MayBeActive(s, s.notices[intent.n].renewalCase)
      || (if Announced(s, intent) then status == APPROVED || status == SERVICE_RECORDED_PENDING_EVIDENCE
          else status == SERVED)
  }

  /** Something a check can have handed on. */
  predicate Checked(s: State, intent: Intent) {
    && intent.n < |s.notices|
    && (intent.ToServe? ==>
          intent.input.HasEvidence() && (intent.input.docId.Some? ==> intent.docId == intent.input.docId))
  }

  lemma LandedRow(s: State, s': State, n: nat, kind: NoticeEventKind)
    requires n < |s'.notices| && Truthful(s') && s'.noticeLog == s.noticeLog + [NoticeEvent(n, kind)]
    ensures Tells(s'.notices[n], EventsOf(s.noticeLog, n) + [kind])
  {
    EventsSnoc(s.noticeLog, NoticeEvent(n, kind), n);
    assert Tells(s'.notices[n], EventsOf(s'.noticeLog, n));
  }

  lemma DraftLandsTruthfullyIff(s: State, intent: Intent)
    requires Refs(s) && Truthful(s) && Checked(s, intent) && !intent.ToServe?
    ensures Truthful(Land(s, intent)) <==> Harmless(s, intent)
  {
    var s', n := Land(s, intent), intent.n;
    var kind := if intent.ToApprove? then NoticeApproved else NoticeServiceRecorded;
    assert Tells(s.notices[n], EventsOf(s.noticeLog, n));
    if Harmless(s, intent) {
      MoveTruthful(s, s', n, kind);
    } else if Truthful(s') {
      LandedRow(s, s', n, kind);
    }
  }

  lemma AnnouncedServiceTruthfulIff(s: State, intent: Intent)
    requires Refs(s) && Truthful(s) && Checked(s, intent) && intent.ToServe? && Announced(s, intent)
    requires MayBeActive(s, s.notices[intent.n].renewalCase)
    ensures Truthful(Land(s, intent)) <==> Harmless(s, intent)
  {
    var s', n := Land(s, intent), intent.n;
    var events := EventsOf(s.noticeLog, n);
    assert Tells(s.notices[n], events);
    assert s.notices[n].status == GENERATED ==> |events + [NoticeServed]| == 2;
    assert s.notices[n].status == SERVED ==>
      |events| >= 3 && (|events| == 3 ==> (events + [NoticeServed])[2] == NoticeServed);
    if Harmless(s, intent) {
      MoveTruthful(s, s', n, NoticeServed);
    } else if Truthful(s') {
      LandedRow(s, s', n, NoticeServed);
    }
  }

  lemma SilentServiceTruthfulIff(s: State, intent: Intent)
    requires Refs(s) && Truthful(s) && Checked(s, intent) && intent.ToServe? && !Announced(s, intent)
    requires MayBeActive(s, s.notices[intent.n].renewalCase)
    ensures Truthful(Land(s, intent)) <==> s.notices[intent.n].status == SERVED
  {
    var s', n := Land(s, intent), intent.n;
    assert Tells(s.notices[n], EventsOf(s.noticeLog, n));
    if s.notices[n].status == SERVED {
      forall c | 0 <= c < |s'.cases| ensures s'.cases[c].noticeServedAt.Some? <==> ServedOn(s', c) {
        ServedOnSame(s, s', c);
        if c == s.notices[n].renewalCase { assert ServedOn(s, c); }
      }
      assert forall m | 0 <= m < |s.notices| && m != n :: s'.notices[m] == s.notices[m];
    } else {
      assert !Tells(s'.notices[n], EventsOf(s'.noticeLog, n));
    }
  }

  lemma ServedOnSame(s: State, s': State, c: nat)
    requires |s'.notices| == |s.notices|
    requires forall m | 0 <= m < |s.notices| ::
               s'.notices[m].renewalCase == s.notices[m].renewalCase && s'.notices[m].status == s.notices[m].status
    ensures ServedOn(s', c) <==> ServedOn(s, c)
  {}

  /** A late write keeps rows and events in step if and only if it is harmless where it lands. */
  lemma LandingTruthfulIff(s: State, intent: Intent)
    requires Refs(s) && Truthful(s) && Checked(s, intent)
    ensures Truthful(Land(s, intent)) <==> Harmless(s, intent)
  {
    if !intent.ToServe? {
      DraftLandsTruthfullyIff(s, intent);
    } else if MayBeActive(s, s.notices[intent.n].renewalCase) {
      if Announced(s, intent) { AnnouncedServiceTruthfulIff(s, intent); } else { SilentServiceTruthfulIff(s, intent); }
    }
  }

  /** Without anything in between, a write is harmless. */
  lemma AtOnceIsHarmless(s: State, call: Call)
    requires Refs(s) && IntentOf(s, call).Some?
    ensures Checked(s, IntentOf(s, call).value) && Harmless(s, IntentOf(s, call).value)
  {}

  // Whole interleaved runs

  datatype Race = Race(s: State, pending: seq<Intent>)

  /** Any other step of the renewal protocol, the check of a notice call, or the write of a pending one. */
  datatype Move = Take(step: Step) | Check(call: Call) | Write(i: nat)

  predicate Possible(r: Race, move: Move) {
    match move
    case Take(step) => Enabled(r.s, step) && !step.ApproveNotice? && !step.ServeNotice? && !step.ConfirmService?
    case Check(call) => IntentOf(r.s, call).Some?
    case Write(i) => i < |r.pending|
  }

  function Next(r: Race, move: Move): Race
    requires Possible(r, move)
  {
    match move
    case Take(step) => r.(s := Do(r.s, step))
    case Check(call) => r.(pending := r.pending + [IntentOf(r.s, call).value])
    case Write(i) => Race(Land(r.s, r.pending[i]), r.pending[..i] + r.pending[i + 1..])
  }

  ghost predicate Runs(r: Race, moves: seq<Move>)
    decreases |moves|
  {
    moves != [] ==> Possible(r, moves[0]) && Runs(Next(r, moves[0]), moves[1..])
  }

  ghost predicate TruthfulAlong(r: Race, moves: seq<Move>)
    requires Runs(r, moves)
    decreases |moves|
  {
    Truthful(r.s) && (moves != [] ==> TruthfulAlong(Next(r, moves[0]), moves[1..]))
  }

  /** Every write of the run is harmless where it lands. */
  ghost predicate HarmlessAlong(r: Race, moves: seq<Move>)
    requires Sound(r) && Runs(r, moves)
    decreases |moves|
  {
    moves != [] ==>
      && (moves[0].Write? ==> Harmless(r.s, r.pending[moves[0].i]))
      && (SoundNext(r, moves[0]); HarmlessAlong(Next(r, moves[0]), moves[1..]))
  }

  ghost predicate Sound(r: Race) {
    Refs(r.s) && forall i | 0 <= i < |r.pending| :: Checked(r.s, r.pending[i])
  }

  lemma LandKeepsRefs(s: State, intent: Intent)
    requires Refs(s)
    ensures Refs(Land(s, intent)) && |Land(s, intent).notices| == |s.notices|
  {}

  lemma SoundNext(r: Race, move: Move)
    requires Sound(r) && Possible(r, move)
    ensures Sound(Next(r, move))
  {
    match move
    case Take(step) => RefsStep(r.s, step);
    case Check(call) => AtOnceIsHarmless(r.s, call);
    case Write(i) => LandKeepsRefs(r.s, r.pending[i]);
  }

  lemma {:induction false} TruthfulIffHarmless(r: Race, moves: seq<Move>)
    requires Sound(r) && Truthful(r.s) && Runs(r, moves)
    ensures TruthfulAlong(r, moves) <==> HarmlessAlong(r, moves)
    decreases |moves|
  {
    if moves == [] {
    } else {
      var next := Next(r, moves[0]);
      SoundNext(r, moves[0]);
      match moves[0]
      case Take(step) =>
        TruthfulStep(r.s, step);
        TruthfulIffHarmless(next, moves[1..]);
      case Check(_) =>
        TruthfulIffHarmless(next, moves[1..]);
      case Write(i) =>
        LandingTruthfulIff(r.s, r.pending[i]);
        if Harmless(r.s, r.pending[i]) { TruthfulIffHarmless(next, moves[1..]); }
    }
  }

  /**
   In every interleaving of checks and writes from empty tables, rows and events stay in step throughout
   if and only if every write is harmless where it lands.
   */
  lemma RacesTruthfulIffHarmless(moves: seq<Move>)
    requires Runs(Race(EMPTY, []), moves)
    ensures TruthfulAlong(Race(EMPTY, []), moves) <==> HarmlessAlong(Race(EMPTY, []), moves)
  {
    TruthfulIffHarmless(Race(EMPTY, []), moves);
  }

  // A served notice under overlapping calls

  predicate IsServed(s: State, n: nat) {
    n < |s.notices| && s.notices[n].status == SERVED && s.notices[n].Proven()
  }

  ghost predicate ServedAlong(r: Race, moves: seq<Move>, n: nat)
    requires Runs(r, moves)
    decreases |moves|
  {
    IsServed(r.s, n) && (moves != [] ==> ServedAlong(Next(r, moves[0]), moves[1..], n))
  }

  /** Does the move write an approval or a service without proof to notice n? */
  predicate WritesDraft(r: Race, move: Move, n: nat)
    requires Possible(r, move)
  {
    move.Write? && r.pending[move.i].n == n && !r.pending[move.i].ToServe?
  }

  ghost predicate NoDraftLandsOn(r: Race, moves: seq<Move>, n: nat)
    requires Runs(r, moves)
    decreases |moves|
  {
    moves != [] ==> !WritesDraft(r, moves[0], n) && NoDraftLandsOn(Next(r, moves[0]), moves[1..], n)
  }

  lemma LandKeepsServedIff(s: State, intent: Intent, n: nat)
    requires Refs(s) && Checked(s, intent) && IsServed(s, n)
    ensures IsServed(Land(s, intent), n) <==> intent.n != n || intent.ToServe?
  {}

  lemma TakeKeepsNotice(s: State, step: Step, n: nat)
    requires Enabled(s, step) && n < |s.notices|
    requires !step.ApproveNotice? && !step.ServeNotice? && !step.ConfirmService?
    ensures n < |Do(s, step).notices| && Do(s, step).notices[n] == s.notices[n]
  {}

  lemma MoveKeepsServedIff(r: Race, move: Move, n: nat)
    requires Sound(r) && Possible(r, move) && IsServed(r.s, n)
    ensures IsServed(Next(r, move).s, n) <==> !WritesDraft(r, move, n)
  {
    match move
    case Take(step) => TakeKeepsNotice(r.s, step, n);
    case Check(_) =>
    case Write(i) => LandKeepsServedIff(r.s, r.pending[i], n);
  }

  /**
   In every interleaving a served notice keeps its status, and proof of service, if and only if no approval
   and no record without proof, checked before, lands on it.
   */
  lemma {:induction false} ServedStaysIff(r: Race, moves: seq<Move>, n: nat)
    requires Sound(r) && Runs(r, moves) && IsServed(r.s, n)
    ensures ServedAlong(r, moves, n) <==> NoDraftLandsOn(r, moves, n)
    decreases |moves|
  {
    if moves == [] {
    } else {
      MoveKeepsServedIff(r, moves[0], n);
      SoundNext(r, moves[0]);
      if !WritesDraft(r, moves[0], n) { ServedStaysIff(Next(r, moves[0]), moves[1..], n); }
    }
  }

  /** In particular it stays served wherever every write is harmless. */
  lemma {:induction false} HarmlessKeepsServed(r: Race, moves: seq<Move>, n: nat)
    requires Sound(r) && Runs(r, moves) && IsServed(r.s, n) && HarmlessAlong(r, moves)
    ensures ServedAlong(r, moves, n)
    decreases |moves|
  {
    if moves == [] {
    } else {
      MoveKeepsServedIff(r, moves[0], n);
      SoundNext(r, moves[0]);
      HarmlessKeepsServed(Next(r, moves[0]), moves[1..], n);
    }
  }

  // Ways to lose step

  lemma ApprovalLands(s: State, n: nat)
    requires Refs(s) && n < |s.notices|
    ensures Land(s, ToApprove(n)).noticeLog == s.noticeLog + [NoticeEvent(n, NoticeApproved)]
    ensures Refs(Land(s, ToApprove(n))) && n < |Land(s, ToApprove(n)).notices|
  {}

  /** Two approvals that both read a generated notice log the approval twice. */
  lemma TwoApprovalsOfOneReading(s: State, n: nat)
    requires Refs(s) && Truthful(s) && n < |s.notices| && s.notices[n].status == GENERATED
    ensures var intent := IntentOf(s, ApproveRenewalNotice(n)).value;
            EventsOf(Land(Land(s, intent), intent).noticeLog, n) == CLEARED_TO_SERVE + [NoticeApproved]
  {
    var once := Land(s, ToApprove(n));
    ApprovalLands(s, n);
    ApprovalLands(once, n);
    assert Tells(s.notices[n], EventsOf(s.noticeLog, n));
    EventsSnoc(s.noticeLog, NoticeEvent(n, NoticeApproved), n);
    EventsSnoc(once.noticeLog, NoticeEvent(n, NoticeApproved), n);
  }

  /** Two approved notices of one case, on a tenancy not yet moved by either. */
  ghost predicate TwoApproved(s: State, n: nat, m: nat) {
    && n < |s.notices| && m < |s.notices| && n != m
    && s.notices[n].status == APPROVED && s.notices[m].status == APPROVED
    && s.notices[n].renewalCase == s.notices[m].renewalCase < |s.cases|
    && !Terminal(s.cases[s.notices[n].renewalCase].status)
    && s.cases[s.notices[n].renewalCase].tenancy < |s.tenancies|
    && BeforeService(s.tenancies[s.cases[s.notices[n].renewalCase].tenancy].status)
  }

  lemma FirstServiceMoves(s: State, n: nat, m: nat, input: ServiceInput)
    requires TwoApproved(s, n, m)
    ensures var mid := Land(s, Service(s, n, input));
            && |mid.notices| == |s.notices| && mid.notices[m] == s.notices[m]
            && |mid.cases| == |s.cases| && !Terminal(mid.cases[s.notices[m].renewalCase].status)
            && TenancyOf(mid, m) == TenancyOf(s, m) && TenancyOf(s, m).Some?
            && mid.tenancies[TenancyOf(s, m).value].status == T_NOTICE_SERVED
            && mid.noticeLog == s.noticeLog + [NoticeEvent(n, NoticeServed)]
  {}

  lemma SecondServiceIsSilent(mid: State, m: nat, intent: Intent)
    requires intent.ToServe? && intent.n == m && intent.moves && m < |mid.notices| && TenancyOf(mid, m).Some?
    requires mid.tenancies[TenancyOf(mid, m).value].status == T_NOTICE_SERVED
    requires !Terminal(mid.cases[mid.notices[m].renewalCase].status)
    ensures var s' := Land(mid, intent);
            && |s'.notices| == |mid.notices| && s'.notices[m].status == SERVED && s'.noticeLog == mid.noticeLog
  {}

  /**
   Two notices of one case served at the same time: both calls read the tenancy before service, the first
   moves it, and the second is refused by the transition table after its notice is served, so that
   notice is served without its event.
   */
  lemma TwoServicesLoseAnEvent(s: State, n: nat, m: nat, input: ServiceInput)
    requires Truthful(s) && TwoApproved(s, n, m)
    ensures var s' := Land(Land(s, Service(s, n, input)), Service(s, m, input));
            && m < |s'.notices| && s'.notices[m].status == SERVED
            && EventsOf(s'.noticeLog, m) == CLEARED_TO_SERVE && !Truthful(s')
  {
    FirstServiceMoves(s, n, m, input);
    var mid := Land(s, Service(s, n, input));
    SecondServiceIsSilent(mid, m, Service(s, m, input));
    assert Tells(s.notices[m], EventsOf(s.noticeLog, m));
    EventsSnoc(s.noticeLog, NoticeEvent(n, NoticeServed), m);
    var s' := Land(mid, Service(s, m, input));
    assert !Tells(s'.notices[m], EventsOf(s'.noticeLog, m));
  }

  // The same from empty tables.

  /** Some interleaving from empty tables ends in r. */
  ghost predicate Reached(r: Race) {
    exists moves :: Runs(Race(EMPTY, []), moves) && End(Race(EMPTY, []), moves) == r
  }

  function End(r: Race, moves: seq<Move>): Race
    requires Runs(r, moves)
    decreases |moves|
  {
    if moves == [] then r else End(Next(r, moves[0]), moves[1..])
  }

  lemma {:induction false} RunsSnoc(r: Race, moves: seq<Move>, move: Move)
    requires Runs(r, moves) && Possible(End(r, moves), move)
    ensures Runs(r, moves + [move]) && End(r, moves + [move]) == Next(End(r, moves), move)
    decreases |moves|
  {
    if moves == [] {
      assert (moves + [move])[1..] == [];
    } else {
      RunsSnoc(Next(r, moves[0]), moves[1..], move);
      assert (moves + [move])[1..] == moves[1..] + [move];
    }
  }

  lemma Reach(r: Race, move: Move)
    requires Reached(r) && Possible(r, move)
    ensures Reached(Next(r, move))
  {
    var moves :| Runs(Race(EMPTY, []), moves) && End(Race(EMPTY, []), moves) == r;
    RunsSnoc(Race(EMPTY, []), moves, move);
  }

  lemma {:induction false} TruthfulAlongEnd(r: Race, moves: seq<Move>)
    requires Runs(r, moves) && TruthfulAlong(r, moves)
    ensures Truthful(End(r, moves).s)
    decreases |moves|
  {
    if moves == [] {
    } else {
      TruthfulAlongEnd(Next(r, moves[0]), moves[1..]);
    }
  }

  lemma TakeTruthfully(r: Race, step: Step)
    requires Reached(r) && Refs(r.s) && Truthful(r.s) && Possible(r, Take(step))
    ensures Reached(Next(r, Take(step))) && Refs(Do(r.s, step)) && Truthful(Do(r.s, step))
  {
    Reach(r, Take(step));
    RefsStep(r.s, step);
    TruthfulStep(r.s, step);
  }

  /** One approved notice more on case 0. */
  lemma ApprovedNotice(r: Race) returns (r': Race)
    requires Reached(r) && Refs(r.s) && Truthful(r.s) && r.pending == [] && |r.s.cases| == 1
    ensures Reached(r') && Refs(r'.s) && Truthful(r'.s) && r'.pending == []
    ensures r'.s.cases == r.s.cases && r'.s.tenancies == r.s.tenancies
    ensures r'.s.notices == r.s.notices + [Notice(0, APPROVED, None, None, None)]
  {
    var n := |r.s.notices|;
    TakeTruthfully(r, PrepareNotice(0, None));
    var drafted := Next(r, Take(PrepareNotice(0, None)));
    Reach(drafted, Check(ApproveRenewalNotice(n)));
    var checked := Next(drafted, Check(ApproveRenewalNotice(n)));
    Reach(checked, Write(0));
    r' := Next(checked, Write(0));
    DraftLandsTruthfullyIff(drafted.s, ToApprove(n));
    LandKeepsRefs(drafted.s, ToApprove(n));
  }

  /** One more notice on case 0, approved by the first of two calls that both read it as generated. */
  lemma ApprovedTwiceOver(r: Race) returns (r': Race)
    requires Reached(r) && Refs(r.s) && Truthful(r.s) && r.pending == [] && |r.s.cases| == 1 && r.s.notices == []
    ensures Reached(r') && Refs(r'.s) && Truthful(r'.s) && r'.pending == [ToApprove(0)]
    ensures r'.s.cases == r.s.cases && r'.s.notices == [Notice(0, APPROVED, None, None, None)]
  {
    TakeTruthfully(r, PrepareNotice(0, None));
    var drafted := Next(r, Take(PrepareNotice(0, None)));
    Reach(drafted, Check(ApproveRenewalNotice(0)));
    var once := Next(drafted, Check(ApproveRenewalNotice(0)));
    Reach(once, Check(ApproveRenewalNotice(0)));
    var twice := Next(once, Check(ApproveRenewalNotice(0)));
    assert twice.pending == [ToApprove(0), ToApprove(0)];
    Reach(twice, Write(0));
    r' := Next(twice, Write(0));
    DraftLandsTruthfullyIff(drafted.s, ToApprove(0));
    LandKeepsRefs(drafted.s, ToApprove(0));
  }

  /** Served, and then overwritten by the approval that was checked before. */
  lemma StaleApprovalUnserves() returns (r: Race, r': Race)
    ensures Reached(r) && IsServed(r.s, 0) && Possible(r, Write(0)) && r' == Next(r, Write(0))
    ensures |r'.s.notices| == 1 && r'.s.notices[0].status == APPROVED
  {
    r := OneCase();
    r := ApprovedTwiceOver(r);
    r := ServedMeanwhile(r, ServiceInput(Some("courier 1"), None, None, 0));
    r' := Next(r, Write(0));
  }

  lemma ServedMeanwhile(late: Race, input: ServiceInput) returns (r: Race)
    requires Reached(late) && late.pending == [ToApprove(0)] && Truthy(input.serviceRef)
    requires late.s.notices == [Notice(0, APPROVED, None, None, None)]
    requires |late.s.cases| == 1 && late.s.cases[0].status == ASSESSING
    ensures Reached(r) && r.pending == [ToApprove(0)] && |r.s.notices| == 1 && IsServed(r.s, 0)
    ensures r.s.notices[0].renewalCase < |r.s.cases|
  {
    Reach(late, Check(ServeNoticeFormal(0, input)));
    var checked := Next(late, Check(ServeNoticeFormal(0, input)));
    Reach(checked, Write(1));
    r := Next(checked, Write(1));
    assert r.pending == [ToApprove(0)];
  }

  lemma TwoServices(r: Race, input: ServiceInput) returns (r': Race)
    requires Reached(r) && r.pending == [] && Truthful(r.s) && TwoApproved(r.s, 0, 1) && input.HasEvidence()
    ensures Reached(r') && !Truthful(r'.s)
  {
    Reach(r, Check(ServeNoticeFormal(0, input)));
    var r1 := Next(r, Check(ServeNoticeFormal(0, input)));
    Reach(r1, Check(ServeNoticeFormal(1, input)));
    var r2 := Next(r1, Check(ServeNoticeFormal(1, input)));
    assert r2.pending == [Service(r.s, 0, input), Service(r.s, 1, input)];
    Reach(r2, Write(0));
    var r3 := Next(r2, Write(0));
    assert r3.pending == [Service(r.s, 1, input)];
    Reach(r3, Write(0));
    r' := Next(r3, Write(0));
    TwoServicesLoseAnEvent(r.s, 0, 1, input);
  }

  lemma OneCase() returns (r: Race)
    ensures Reached(r) && Refs(r.s) && Truthful(r.s) && r.pending == [] && r.s.notices == []
    ensures |r.s.cases| == 1 && r.s.cases[0].tenancy == 0 && r.s.cases[0].status == ASSESSING
    ensures |r.s.tenancies| == 1 && r.s.tenancies[0].status == T_ACTIVE
  {
    r := Race(EMPTY, []);
    assert Runs(r, []) && End(r, []) == r;
    var add := AddTenancy(Tenancy(T_ACTIVE, 0, 365, 60_000, 90, None, None));
    TakeTruthfully(r, add);
    r := Next(r, Take(add));
    TakeTruthfully(r, OpenCase(0));
    r := Next(r, Take(OpenCase(0)));
  }

  /** From empty tables: one tenancy, one case, two notices approved and then served at the same time. */
  lemma ServedWithoutItsEvent() returns (moves: seq<Move>)
    ensures Runs(Race(EMPTY, []), moves) && !TruthfulAlong(Race(EMPTY, []), moves)
  {
    var r := OneCase();
    r := ApprovedNotice(r);
    r := ApprovedNotice(r);
    r := TwoServices(r, ServiceInput(Some("courier 1"), None, None, 0));
    moves :| Runs(Race(EMPTY, []), moves) && End(Race(EMPTY, []), moves) == r;
    if TruthfulAlong(Race(EMPTY, []), moves) { TruthfulAlongEnd(Race(EMPTY, []), moves); }
  }
}
