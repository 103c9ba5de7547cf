/**
 The delivery protocol: any number of workers, each between the claim of a row and its
 completion write, interleaved at the granularity of one database statement or one provider
 call. A worker may crash at any point and may write long after its lease ran out.
 */
module Delivery {
  import opened Common
  import opened Outbox
  import opened Notify

  /** Where a worker stands inside the handler of one claimed row. */
  datatype Phase =
    | Claimed
    | Decided(decision: Decision)
    | SendReturned(sendOk: bool)
    | HandlerReturned(handlerOk: bool)

  datatype Work = Work(entry: Entry, claimedAt: int, phase: Phase)

  datatype Claim = Claim(row: nat, at: int)

  datatype Send = Send(message: nat, key: Option<Key>, to: string, body: string, channel: Channel)

  /**
   `works` holds the claims still in flight, named by their position in `claims`. `inputs`,
   `claims`, `sends` and `runs` are history: the arguments of every notify call, every claim, every
   provider call and the row of every completion write.
   */
  datatype State = State(
    now: int,
    rows: seq<Row>,
    messages: seq<Message>,
    inputs: seq<NotifyInput>,
    works: map<nat, Work>,
    claims: seq<Claim>,
    sends: seq<Send>,
    runs: seq<nat>)

  datatype Step =
    | Tick(to: int)
    | NotifyCall(input: NotifyInput)
    | Enqueue(topic: Topic, availableAt: int, key: Option<Key>)
    | Recover
    | ClaimOne(row: nat)
    | Read(w: nat, env: Env, otherOk: bool)
    | Act(w: nat, ok: bool)
    | WriteStatus(w: nat, ok: bool)
    | Complete(w: nat, ok: bool)
    | Crash(w: nat)

  function Init(now: int): State {
    State(now, [], [], [], map[], [], [], [])
  }

  predicate Enabled(s: State, step: Step) {
    match step
    case Tick(to) => s.now <= to
    case NotifyCall(input) => input.Allowed()
    case Enqueue(topic, _, key) => topic != NotificationSend && KeyFree(s.rows, topic, key)
    case Recover => true
    case ClaimOne(r) => r < |s.rows| && s.rows[r].Due(s.now)
    case Read(w, _, _) => w in s.works && s.works[w].phase == Claimed
    case Act(w, _) => w in s.works && s.works[w].phase.Decided?
    case WriteStatus(w, ok) => w in s.works && s.works[w].phase.SendReturned? && (ok ==> s.works[w].phase.sendOk)
    case Complete(w, ok) =>
      w in s.works && s.works[w].phase.HandlerReturned? && (ok ==> s.works[w].phase.handlerOk)
      && s.works[w].entry.row < |s.rows|
    case Crash(w) => w in s.works
  }

  function SetPhase(s: State, w: nat, phase: Phase): State
    requires w in s.works
  {
    s.(works := s.works[w := s.works[w].(phase := phase)])
  }

  function SetMessageStatus(messages: seq<Message>, m: Option<nat>, status: MessageStatus): (out: seq<Message>)
    ensures |out| == |messages|
  {
    if m.Some? && m.value < |messages| then messages[m.value := messages[m.value].(status := status)] else messages
  }

  /** The handler's first statement: look at the message and settle what to do. */
  function DecideFor(s: State, e: Entry, env: Env, otherOk: bool): Decision {
    if e.topic != NotificationSend then (if otherOk then Skip else Throw)
    else if e.payload.messageId.None? || e.payload.messageId.value >= |s.messages| then Skip
    else Decide(s.messages[e.payload.messageId.value], e.payload, env)
  }

  function DoAct(s: State, w: nat, ok: bool): State
    requires w in s.works && s.works[w].phase.Decided?
  {
    var e := s.works[w].entry;
    match s.works[w].phase.decision
    case Skip => SetPhase(s, w, HandlerReturned(true))
    case Throw => SetPhase(s, w, HandlerReturned(false))
    case MarkFailed =>
      SetPhase(s.(messages := SetMessageStatus(s.messages, e.payload.messageId, MessageFailed)), w,
        HandlerReturned(true))
    case Deliver(to, body, channel) =>
      var m := e.payload.messageId;
      if m.None? || m.value >= |s.messages| then SetPhase(s, w, HandlerReturned(true))
      else
        SetPhase(
          s.(messages := s.messages[m.value := s.messages[m.value].(channel := channel)],
             sends := s.sends + [Send(m.value, e.key, to, body, channel)]),
          w, SendReturned(ok))
  }

  function DoComplete(cfg: Config, s: State, w: nat, ok: bool): State
    requires w in s.works && s.works[w].entry.row < |s.rows|
  {
    var e := s.works[w].entry;
    var row := s.rows[e.row];
    s.(rows := s.rows[e.row := if ok then CompleteOk(row, e) else CompleteFail(cfg, row, e, s.now)],
       works := s.works - {w},
       runs := s.runs + [e.row])
  }

  function Do(cfg: Config, s: State, step: Step): State
    requires Enabled(s, step)
  {
    match step
    case Tick(to) => s.(now := to)
    case NotifyCall(input) =>
      s.(messages := s.messages + [NewMessage(input)],
         inputs := s.inputs + [input],
         rows := if input.channel == INAPP then s.rows else s.rows + [NewSendRow(input, |s.messages|, s.now)])
    case Enqueue(topic, availableAt, key) =>
      s.(rows := s.rows + [NewRow(topic, Payload(None, None, false, None), availableAt, key)])
    case Recover => s.(rows := RecoverRows(s.rows, s.now))
    case ClaimOne(r) =>
      s.(rows := s.rows[r := ClaimRow(cfg, s.rows[r], s.now)],
         works := s.works[|s.claims| := Work(EntryOf(s.rows, r), s.now, Claimed)],
         claims := s.claims + [Claim(r, s.now)])
    case Read(w, env, otherOk) => SetPhase(s, w, Decided(DecideFor(s, s.works[w].entry, env, otherOk)))
    case Act(w, ok) => DoAct(s, w, ok)
    case WriteStatus(w, ok) =>
      SetPhase(
        s.(messages := SetMessageStatus(s.messages, s.works[w].entry.payload.messageId,
          if ok then Sent else MessageFailed)),
        w, HandlerReturned(ok))
    case Complete(w, ok) => DoComplete(cfg, s, w, ok)
    case Crash(w) => s.(works := s.works - {w})
  }

  /** Some run of the protocol from an empty store, every step enabled where it is taken. */
  ghost predicate Run(cfg: Config, s: State, steps: seq<Step>, s': State)
    decreases |steps|
  {
    if steps == [] then s == s'
    else
      Enabled(s, steps[0]) && Run(cfg, Do(cfg, s, steps[0]), steps[1..], s')
  }

  ghost predicate Reachable(cfg: Config, s: State) {
    exists now0: int, steps: seq<Step> :: Run(cfg, Init(now0), steps, s)
  }

  // ---------------------------------------------------------------------------------------------
  // Lease exclusivity
  // ---------------------------------------------------------------------------------------------

  /** Every claim of row r lies at least one lease before t. */
  ghost predicate ClaimsOlderThan(cfg: Config, s: State, r: nat, t: int) {
    forall i | 0 <= i < |s.claims| :: s.claims[i].row == r ==> s.claims[i].at + cfg.leaseMs <= t
  }

  ghost predicate ClaimsSpaced(cfg: Config, s: State) {
    forall i, j | 0 <= i < j < |s.claims| ::
      s.claims[i].row == s.claims[j].row ==> s.claims[i].at + cfg.leaseMs <= s.claims[j].at
  }

  ghost predicate RowGuarded(cfg: Config, s: State, r: nat)
    requires r < |s.rows|
  {
    match s.rows[r].status
    case Pending => ClaimsOlderThan(cfg, s, r, s.now) || ClaimsOlderThan(cfg, s, r, s.rows[r].availableAt)
    case Processing => s.rows[r].lockedUntil.Some? && ClaimsOlderThan(cfg, s, r, s.rows[r].lockedUntil.value)
    case _ => true
  }

  ghost predicate LeaseInv(cfg: Config, s: State) {
    && (forall i | 0 <= i < |s.claims| :: s.claims[i].at <= s.now && s.claims[i].row < |s.rows|)
    && ClaimsSpaced(cfg, s)
    && (forall r | 0 <= r < |s.rows| :: RowGuarded(cfg, s, r))
    && (forall w | w in s.works ::
          w < |s.claims| && s.claims[w] == Claim(s.works[w].entry.row, s.works[w].claimedAt))
  }

  lemma LeaseInvClaim(cfg: Config, s: State, r: nat)
    requires LeaseInv(cfg, s) && Enabled(s, ClaimOne(r))
    ensures LeaseInv(cfg, Do(cfg, s, ClaimOne(r)))
  {
    var s' := Do(cfg, s, ClaimOne(r));
    assert RowGuarded(cfg, s, r);
    assert ClaimsOlderThan(cfg, s, r, s.now);
    forall i, j | 0 <= i < j < |s'.claims| && s'.claims[i].row == s'.claims[j].row
      ensures s'.claims[i].at + cfg.leaseMs <= s'.claims[j].at
    {
      assert s'.claims[i] == s.claims[i];
    }
    forall q | 0 <= q < |s'.rows| ensures RowGuarded(cfg, s', q) {
      assert RowGuarded(cfg, s, q);
    }
  }

  lemma LeaseInvComplete(cfg: Config, s: State, w: nat, ok: bool)
    requires cfg.leaseMs <= cfg.backoffBaseMs
    requires LeaseInv(cfg, s) && Enabled(s, Complete(w, ok))
    ensures LeaseInv(cfg, Do(cfg, s, Complete(w, ok)))
  {
    var s' := Do(cfg, s, Complete(w, ok));
    forall r | 0 <= r < |s'.rows| ensures RowGuarded(cfg, s', r) {
      assert RowGuarded(cfg, s, r);
      if r == s.works[w].entry.row && !ok {
        assert ClaimsOlderThan(cfg, s', r, s'.rows[r].availableAt);
      }
    }
  }

  lemma LeaseInvRecover(cfg: Config, s: State)
    requires LeaseInv(cfg, s)
    ensures LeaseInv(cfg, Do(cfg, s, Recover))
  {
    var s' := Do(cfg, s, Recover);
    forall r | 0 <= r < |s'.rows| ensures RowGuarded(cfg, s', r) {
      assert RowGuarded(cfg, s, r);
    }
  }

  /** Steps that claim nothing and complete nothing: old rows keep their lease fields, new rows were never claimed. */
  lemma LeaseInvFrame(cfg: Config, s: State, s': State)
    requires LeaseInv(cfg, s)
    requires s'.claims == s.claims && s.now <= s'.now
    requires s.rows <= s'.rows
    requires forall w | w in s'.works ::
               w in s.works && s'.works[w].entry == s.works[w].entry && s'.works[w].claimedAt == s.works[w].claimedAt
    requires forall r | |s.rows| <= r < |s'.rows| :: s'.rows[r].status == Pending
    ensures LeaseInv(cfg, s')
  {
    forall r | 0 <= r < |s'.rows| ensures RowGuarded(cfg, s', r) {
      if r < |s.rows| { assert RowGuarded(cfg, s, r) && s'.rows[r] == s.rows[r]; }
    }
  }

  lemma KeepsLeases(cfg: Config, s: State, step: Step)
    requires Enabled(s, step) && !step.ClaimOne? && !step.Complete? && !step.Recover?
    ensures var s' := Do(cfg, s, step);
            && s'.claims == s.claims && s.now <= s'.now && s.rows <= s'.rows
            && (forall w | w in s'.works ::
                  w in s.works && s'.works[w].entry == s.works[w].entry
                    && s'.works[w].claimedAt == s.works[w].claimedAt)
            && (forall r | |s.rows| <= r < |s'.rows| :: s'.rows[r].status == Pending)
  {}

  lemma LeaseInvStep(cfg: Config, s: State, step: Step)
    requires cfg.leaseMs <= cfg.backoffBaseMs
    requires LeaseInv(cfg, s) && Enabled(s, step)
    ensures LeaseInv(cfg, Do(cfg, s, step))
  {
    match step
    case ClaimOne(r) => LeaseInvClaim(cfg, s, r);
    case Complete(w, ok) => LeaseInvComplete(cfg, s, w, ok);
    case Recover => LeaseInvRecover(cfg, s);
    case _ =>
      KeepsLeases(cfg, s, step);
      LeaseInvFrame(cfg, s, Do(cfg, s, step));
  }

  lemma {:induction false} LeaseInvRun(cfg: Config, s: State, steps: seq<Step>, s': State)
    requires cfg.leaseMs <= cfg.backoffBaseMs
    requires LeaseInv(cfg, s) && Run(cfg, s, steps, s')
    ensures LeaseInv(cfg, s')
    decreases |steps|
  {
    if steps == [] {
    } else {
      LeaseInvStep(cfg, s, steps[0]);
      LeaseInvRun(cfg, Do(cfg, s, steps[0]), steps[1..], s');
    }
  }

  /** A worker still in flight whose lease has not run out. */
  ghost predicate Live(cfg: Config, s: State, w: nat) {
    w in s.works && s.now < s.works[w].claimedAt + cfg.leaseMs
  }

  ghost predicate Exclusive(cfg: Config, s: State) {
    forall v, w | v in s.works && w in s.works && v != w && Live(cfg, s, v) && Live(cfg, s, w) ::
      s.works[v].entry.row != s.works[w].entry.row
  }

  /**
   In every interleaving two claims of one row are at least a lease apart, so no row is ever
   inside two live leases. Stale completion writes do not break this because the smallest
   backoff is at least the lease.
   */
  lemma ClaimsOfARowNeverOverlap(cfg: Config, s: State)
    requires cfg.leaseMs <= cfg.backoffBaseMs
    requires Reachable(cfg, s)
    ensures ClaimsSpaced(cfg, s)
    ensures Exclusive(cfg, s)
  {
    var now0: int, steps: seq<Step> :| Run(cfg, Init(now0), steps, s);
    LeaseInvRun(cfg, Init(now0), steps, s);
    forall v, w | v in s.works && w in s.works && v != w && Live(cfg, s, v) && Live(cfg, s, w)
      ensures s.works[v].entry.row != s.works[w].entry.row
    {
      if v < w {
        assert s.claims[v].at <= s.now && s.claims[w].at <= s.now;
      } else {
        assert s.claims[v].at <= s.now && s.claims[w].at <= s.now;
      }
    }
  }

  lemma {:induction false} RunSnoc(cfg: Config, s: State, steps: seq<Step>, mid: State, step: Step)
    requires Run(cfg, s, steps, mid) && Enabled(mid, step)
    ensures Run(cfg, s, steps + [step], Do(cfg, mid, step))
    decreases |steps|
  {
    if steps == [] {
      assert Run(cfg, Do(cfg, mid, step), [], Do(cfg, mid, step));
      assert (steps + [step])[1..] == [];
    } else {
      RunSnoc(cfg, Do(cfg, s, steps[0]), steps[1..], mid, step);
      assert (steps + [step])[1..] == steps[1..] + [step];
    }
  }

  lemma ReachableStep(cfg: Config, s: State, step: Step)
    requires Reachable(cfg, s) && Enabled(s, step)
    ensures Reachable(cfg, Do(cfg, s, step))
  {
    var now0: int, steps: seq<Step> :| Run(cfg, Init(now0), steps, s);
    RunSnoc(cfg, Init(now0), steps, s, step);
  }

  lemma ReachableInit(cfg: Config, now0: int)
    ensures Reachable(cfg, Init(now0))
  {
    assert Run(cfg, Init(now0), [], Init(now0));
  }

  const NOWHERE := Env(None, None, false, false)

  /** One claim whose lease runs out, and a second claim of the same row. */
  lemma LostLease(cfg: Config) returns (s: State)
    ensures Reachable(cfg, s)
    ensures s.now == cfg.leaseMs + 1
    ensures s.rows == [ClaimRow(cfg, NewRow(RiskEvaluate, Payload(None, None, false, None), 0, None), s.now)]
    ensures s.works == map[0 := Work(EntryOf(s.rows, 0), 0, Claimed), 1 := Work(EntryOf(s.rows, 0), s.now, Claimed)]
    ensures s.claims == [Claim(0, 0), Claim(0, s.now)]
  {
    s := Init(0);
    ReachableInit(cfg, 0);
    ReachableStep(cfg, s, Enqueue(RiskEvaluate, 0, None));
    s := Do(cfg, s, Enqueue(RiskEvaluate, 0, None));
    ReachableStep(cfg, s, ClaimOne(0));
    s := Do(cfg, s, ClaimOne(0));
    assert s.claims == [Claim(0, 0)];
    ReachableStep(cfg, s, Tick(cfg.leaseMs + 1));
    s := Do(cfg, s, Tick(cfg.leaseMs + 1));
    ReachableStep(cfg, s, Recover);
    s := Do(cfg, s, Recover);
    assert s.rows == [NewRow(RiskEvaluate, Payload(None, None, false, None), 0, None)];
    ReachableStep(cfg, s, ClaimOne(0));
    s := Do(cfg, s, ClaimOne(0));
  }

  /** The first worker's handler fails and its completion write lands although the lease is gone. */
  lemma LateFailureReopensRow(cfg: Config) returns (s: State)
    ensures Reachable(cfg, s)
    ensures |s.rows| == 1 && s.rows[0].status == Pending && s.rows[0].availableAt == s.now + cfg.backoffBaseMs
    ensures s.now == cfg.leaseMs + 1 && |s.claims| == 2
    ensures 1 in s.works && s.works[1].claimedAt == s.now && s.works[1].entry.row == 0
  {
    s := LostLease(cfg);
    ReachableStep(cfg, s, Read(0, NOWHERE, false));
    s := Do(cfg, s, Read(0, NOWHERE, false));
    assert s.works[0].phase == Decided(Throw);
    ReachableStep(cfg, s, Act(0, false));
    s := Do(cfg, s, Act(0, false));
    assert s.works[0].phase == HandlerReturned(false);
    ReachableStep(cfg, s, Complete(0, false));
    s := Do(cfg, s, Complete(0, false));
    assert Pow2(0) == 1;
  }

  /** With any backoff shorter than the lease, that late failure lets a third worker in beside the second. */
  lemma ShortBackoffBreaksExclusion(cfg: Config) returns (s: State)
    requires cfg.backoffBaseMs < cfg.leaseMs
    ensures Reachable(cfg, s) && !Exclusive(cfg, s)
  {
    s := LateFailureReopensRow(cfg);
    var until := s.now + cfg.backoffBaseMs;
    ReachableStep(cfg, s, Tick(until));
    s := Do(cfg, s, Tick(until));
    ReachableStep(cfg, s, ClaimOne(0));
    s := Do(cfg, s, ClaimOne(0));
    assert Live(cfg, s, 1) && Live(cfg, s, 2);
  }

  /** Exclusivity in every interleaving holds exactly for the configurations whose backoff covers the lease. */
  lemma ExclusionIffBackoffCoversLease(cfg: Config)
    ensures (forall s: State :: Reachable(cfg, s) ==> Exclusive(cfg, s)) <==> cfg.leaseMs <= cfg.backoffBaseMs
  {
    if cfg.leaseMs <= cfg.backoffBaseMs {
      forall s: State | Reachable(cfg, s) ensures Exclusive(cfg, s) {
        ClaimsOfARowNeverOverlap(cfg, s);
      }
    } else {
      var s := ShortBackoffBreaksExclusion(cfg);
    }
  }

  /** The numbers in use, one minute each, are just enough. */
  lemma ShippedNumbersAreJustEnough(s: State)
    requires Reachable(PRODUCTION, s)
    ensures ClaimsSpaced(PRODUCTION, s) && Exclusive(PRODUCTION, s)
    ensures forall leaseMs: nat | leaseMs > BACKOFF_BASE_MS :: Breakable(Config(leaseMs, BACKOFF_BASE_MS))
  {
    ClaimsOfARowNeverOverlap(PRODUCTION, s);
    forall leaseMs: nat | leaseMs > BACKOFF_BASE_MS ensures Breakable(Config(leaseMs, BACKOFF_BASE_MS)) {
      var bad := ShortBackoffBreaksExclusion(Config(leaseMs, BACKOFF_BASE_MS));
    }
  }

  ghost predicate Breakable(cfg: Config) {
    exists s: State :: Reachable(cfg, s) && !Exclusive(cfg, s)
  }
}
