/**
 Runs in which no handler outlives its lease and no worker dies between the provider call and
 the status write. There the exclusive lease turns into at-most-once delivery.
 */
module DeliveryDiscipline {
  import opened Common
  import opened Outbox
  import opened Notify
  import opened Delivery

  /** What a run observes: no handler outlives its lease; no worker dies before its status write. */
  datatype Discipline = Discipline(inTime: bool, unbroken: bool)

  const STRICT := Discipline(true, true)
  const IN_TIME := Discipline(true, false)
  const UNBROKEN := Discipline(false, true)

  ghost predicate InTime(cfg: Config, s: State, step: Step) {
    step.Tick? ==> forall w | w in s.works :: step.to <= s.works[w].claimedAt + cfg.leaseMs
  }

  ghost predicate Unbroken(s: State, step: Step) {
    step.Crash? && step.w in s.works ==> !s.works[step.w].phase.SendReturned?
  }

  ghost predicate Observes(cfg: Config, k: Discipline, s: State, step: Step) {
    (k.inTime ==> InTime(cfg, s, step)) && (k.unbroken ==> Unbroken(s, step))
  }

  ghost predicate RunUnder(cfg: Config, k: Discipline, s: State, steps: seq<Step>, s': State)
    decreases |steps|
  {
    if steps == [] then s == s'
    else
      && Enabled(s, steps[0])
      && Observes(cfg, k, s, steps[0])
      && RunUnder(cfg, k, Do(cfg, s, steps[0]), steps[1..], s')
  }

  ghost predicate ReachableUnder(cfg: Config, k: Discipline, s: State) {
    exists now0: int, steps: seq<Step> :: RunUnder(cfg, k, Init(now0), steps, s)
  }

  lemma {:induction false} UnderSnoc(cfg: Config, k: Discipline, s: State, steps: seq<Step>, mid: State, step: Step)
    requires RunUnder(cfg, k, s, steps, mid) && Enabled(mid, step) && Observes(cfg, k, mid, step)
    ensures RunUnder(cfg, k, s, steps + [step], Do(cfg, mid, step))
    decreases |steps|
  {
    if steps == [] {
      assert RunUnder(cfg, k, Do(cfg, mid, step), [], Do(cfg, mid, step));
      assert (steps + [step])[1..] == [];
    } else {
      UnderSnoc(cfg, k, Do(cfg, s, steps[0]), steps[1..], mid, step);
      assert (steps + [step])[1..] == steps[1..] + [step];
    }
  }

  lemma UnderStep(cfg: Config, k: Discipline, s: State, step: Step)
    requires ReachableUnder(cfg, k, s) && Enabled(s, step) && Observes(cfg, k, s, step)
    ensures ReachableUnder(cfg, k, Do(cfg, s, step))
  {
    var now0: int, steps: seq<Step> :| RunUnder(cfg, k, Init(now0), steps, s);
    UnderSnoc(cfg, k, Init(now0), steps, s, step);
  }

  lemma UnderInit(cfg: Config, k: Discipline, now0: int)
    ensures ReachableUnder(cfg, k, Init(now0))
  {
    assert RunUnder(cfg, k, Init(now0), [], Init(now0));
  }

  /** Observing less allows more runs. */
  lemma {:induction false} UnderWeaker(cfg: Config, k: Discipline, l: Discipline, s: State, steps: seq<Step>, s': State)
    requires RunUnder(cfg, k, s, steps, s') && (l.inTime ==> k.inTime) && (l.unbroken ==> k.unbroken)
    ensures RunUnder(cfg, l, s, steps, s')
    decreases |steps|
  {
    if steps == [] {
    } else {
      UnderWeaker(cfg, k, l, Do(cfg, s, steps[0]), steps[1..], s');
    }
  }

  // Holders: each worker in flight holds the row it claimed, unchanged since the claim.

  ghost predicate Holds(cfg: Config, s: State, w: Work) {
    && s.now <= w.claimedAt + cfg.leaseMs
    && w.entry.row < |s.rows|
    && s.rows[w.entry.row].status == Processing
    && s.rows[w.entry.row].lockedUntil == Some(w.claimedAt + cfg.leaseMs)
    && w.entry == EntryOf(s.rows, w.entry.row)
  }

  ghost predicate HolderInv(cfg: Config, s: State) {
    && (forall w | w in s.works :: w < |s.claims| && Holds(cfg, s, s.works[w]))
    && (forall v, w | v in s.works && w in s.works && v != w :: s.works[v].entry.row != s.works[w].entry.row)
  }

  lemma HolderInvClaim(cfg: Config, s: State, r: nat)
    requires HolderInv(cfg, s) && Enabled(s, ClaimOne(r))
    ensures HolderInv(cfg, Do(cfg, s, ClaimOne(r)))
  {
    var s' := Do(cfg, s, ClaimOne(r));
    forall w | w in s'.works ensures w < |s'.claims| && Holds(cfg, s', s'.works[w]) {
      if w in s.works && w != |s.claims| { assert Holds(cfg, s, s.works[w]); }
    }
    forall v, w | v in s'.works && w in s'.works && v != w
      ensures s'.works[v].entry.row != s'.works[w].entry.row
    {
      if v != |s.claims| { assert Holds(cfg, s, s.works[v]); }
      if w != |s.claims| { assert Holds(cfg, s, s.works[w]); }
    }
  }

  /** Every row a worker holds stays as it is, and no worker changes what it holds. */
  lemma HolderInvFrame(cfg: Config, s: State, s': State)
    requires HolderInv(cfg, s)
    requires s'.claims == s.claims && |s.rows| <= |s'.rows|
    requires forall w | w in s'.works ::
               && w in s.works
               && s'.works[w].entry == s.works[w].entry && s'.works[w].claimedAt == s.works[w].claimedAt
               && s'.now <= s.works[w].claimedAt + cfg.leaseMs
               && s'.rows[s.works[w].entry.row] == s.rows[s.works[w].entry.row]
    ensures HolderInv(cfg, s')
  {
    forall w | w in s'.works ensures w < |s'.claims| && Holds(cfg, s', s'.works[w]) {
      assert Holds(cfg, s, s.works[w]);
    }
  }

  lemma HolderInvComplete(cfg: Config, s: State, w: nat, ok: bool)
    requires HolderInv(cfg, s) && Enabled(s, Complete(w, ok))
    ensures HolderInv(cfg, Do(cfg, s, Complete(w, ok)))
  {
    var s' := Do(cfg, s, Complete(w, ok));
    forall v | v in s'.works ensures Holds(cfg, s, s.works[v]) && s.works[v].entry.row != s.works[w].entry.row {}
    HolderInvFrame(cfg, s, s');
  }

  lemma HolderInvRecover(cfg: Config, s: State)
    requires HolderInv(cfg, s)
    ensures HolderInv(cfg, Do(cfg, s, Recover))
  {
    var s' := Do(cfg, s, Recover);
    forall w | w in s.works ensures s'.rows[s.works[w].entry.row] == s.rows[s.works[w].entry.row] {
      assert Holds(cfg, s, s.works[w]);
    }
    HolderInvFrame(cfg, s, s');
  }

  lemma HeldRowsStay(cfg: Config, s: State, step: Step)
    requires HolderInv(cfg, s) && Enabled(s, step) && Observes(cfg, STRICT, s, step)
    requires !step.ClaimOne? && !step.Complete? && !step.Recover?
    ensures var s' := Do(cfg, s, step);
            && s'.claims == s.claims && s.rows <= s'.rows
            && forall w | w in s'.works ::
                 && w in s.works
                 && s'.works[w].entry == s.works[w].entry && s'.works[w].claimedAt == s.works[w].claimedAt
                 && s'.now <= s.works[w].claimedAt + cfg.leaseMs
  {
    forall w | w in s.works ensures Holds(cfg, s, s.works[w]) {}
  }

  lemma HolderInvStep(cfg: Config, s: State, step: Step)
    requires HolderInv(cfg, s) && Enabled(s, step) && Observes(cfg, STRICT, s, step)
    ensures HolderInv(cfg, Do(cfg, s, step))
  {
    if step.ClaimOne? { HolderInvClaim(cfg, s, step.row); }
    else if step.Complete? { HolderInvComplete(cfg, s, step.w, step.ok); }
    else if step.Recover? { HolderInvRecover(cfg, s); }
    else {
      HeldRowsStay(cfg, s, step);
      HolderInvFrame(cfg, s, Do(cfg, s, step));
    }
  }

  // Counting: attempts is the number of completed runs, and five of them end the row.

  ghost predicate RowCounted(s: State, r: nat)
    requires r < |s.rows|
  {
    && multiset(s.runs)[r] == s.rows[r].attempts <= MAX_ATTEMPTS
    && (s.rows[r].attempts == MAX_ATTEMPTS ==> s.rows[r].Terminal())
  }

  ghost predicate CountInv(s: State) {
    && (forall i | 0 <= i < |s.runs| :: s.runs[i] < |s.rows|)
    && (forall r | 0 <= r < |s.rows| :: RowCounted(s, r))
  }

  lemma CountInvStep(cfg: Config, s: State, step: Step)
    requires HolderInv(cfg, s) && CountInv(s) && Enabled(s, step)
    ensures CountInv(Do(cfg, s, step))
  {
    var s' := Do(cfg, s, step);
    if step.Complete? { assert Holds(cfg, s, s.works[step.w]); }
    forall r | 0 <= r < |s'.rows| ensures RowCounted(s', r) {
      if r < |s.rows| {
        assert RowCounted(s, r);
      } else {
        assert r !in s.runs;
      }
    }
  }

  // Sends.

  /** Worker w is inside the handler of message m. */
  ghost predicate On(s: State, w: nat, m: nat) {
    w in s.works && s.works[w].entry.topic == NotificationSend && s.works[w].entry.payload.messageId == Some(m)
  }

  /** The status write for message m is still owed by some worker. */
  ghost predicate Owed(s: State, m: nat) {
    exists w :: On(s, w, m) && s.works[w].phase.SendReturned?
  }

  ghost predicate RowMessagesInv(s: State) {
    && (forall r | 0 <= r < |s.rows| && s.rows[r].topic == NotificationSend ::
          s.rows[r].payload.messageId.Some? && s.rows[r].payload.messageId.value < |s.messages|)
    && (forall q, r | 0 <= q < r < |s.rows| && s.rows[q].topic == NotificationSend
      && s.rows[r].topic == NotificationSend ::
          s.rows[q].payload.messageId != s.rows[r].payload.messageId)
  }

  /** Only the notification handler touches messages. */
  ghost predicate Handles(s: State, w: Work) {
    w.phase.SendReturned? || (w.phase.Decided? && (w.phase.decision.Deliver? || w.phase.decision.MarkFailed?)) ==>
      && w.entry.topic == NotificationSend
      && w.entry.payload.messageId.Some?
      && w.entry.payload.messageId.value < |s.messages|
  }

  /** The message of a send left the queue, or its status write is still owed. */
  ghost predicate Accounted(s: State, m: nat) {
    m < |s.messages| && (s.messages[m].status != Queued || Owed(s, m))
  }

  ghost predicate SendInv(s: State) {
    && (forall w | w in s.works :: Handles(s, s.works[w]))
    && (forall i | 0 <= i < |s.sends| :: Accounted(s, s.sends[i].message))
    && (forall i, j | 0 <= i < j < |s.sends| :: s.sends[i].message != s.sends[j].message)
    && (forall w | w in s.works && s.works[w].phase.Decided? && s.works[w].phase.decision.Deliver? ::
          s.messages[s.works[w].entry.payload.messageId.value].status == Queued)
  }

  /** Rows keep topic and message; a row that is added is no notification. */
  lemma RowMessagesFrame(s: State, s': State)
    requires RowMessagesInv(s) && |s.messages| <= |s'.messages| && |s.rows| <= |s'.rows|
    requires forall r | 0 <= r < |s.rows| ::
               s'.rows[r].topic == s.rows[r].topic && s'.rows[r].payload.messageId == s.rows[r].payload.messageId
    requires forall r | |s.rows| <= r < |s'.rows| :: s'.rows[r].topic != NotificationSend
    ensures RowMessagesInv(s')
  {}

  lemma RowMessagesNotify(cfg: Config, s: State, input: NotifyInput)
    requires RowMessagesInv(s) && Enabled(s, NotifyCall(input))
    ensures RowMessagesInv(Do(cfg, s, NotifyCall(input)))
  {}

  lemma RowMessagesStep(cfg: Config, s: State, step: Step)
    requires RowMessagesInv(s) && HolderInv(cfg, s) && Enabled(s, step)
    ensures RowMessagesInv(Do(cfg, s, step))
  {
    if step.NotifyCall? {
      RowMessagesNotify(cfg, s, step.input);
    } else {
      if step.Complete? { assert Holds(cfg, s, s.works[step.w]); }
      RowMessagesFrame(s, Do(cfg, s, step));
    }
  }

  /** Steps that neither send nor write a message status, and end no worker that owes a write. */
  lemma SendInvQuiet(cfg: Config, s: State, step: Step)
    requires HolderInv(cfg, s) && SendInv(s) && Enabled(s, step) && Observes(cfg, STRICT, s, step)
    requires !step.Act? && !step.WriteStatus?
    ensures SendInv(Do(cfg, s, step))
  {
    var s' := Do(cfg, s, step);
    forall i | 0 <= i < |s'.sends| ensures Accounted(s', s'.sends[i].message) {
      var m := s.sends[i].message;
      assert Accounted(s, m);
      if s.messages[m].status == Queued {
        var w :| On(s, w, m) && s.works[w].phase.SendReturned?;
        assert Holds(cfg, s, s.works[w]);
        assert On(s', w, m) && s'.works[w].phase.SendReturned?;
      }
    }
  }

  /** No other worker is inside the handler of the message that w is about to write. */
  lemma OthersElsewhere(cfg: Config, s: State, w: nat, v: nat)
    requires RowMessagesInv(s) && HolderInv(cfg, s) && w in s.works && v in s.works && v != w
    requires s.works[w].entry.topic == NotificationSend && s.works[v].entry.topic == NotificationSend
    ensures s.works[w].entry.payload.messageId != s.works[v].entry.payload.messageId
  {
    assert Holds(cfg, s, s.works[v]) && Holds(cfg, s, s.works[w]);
  }

  /** A write to the message of w leaves the messages that other workers are about to deliver queued. */
  lemma OthersStayQueued(cfg: Config, s: State, s': State, w: nat)
    requires RowMessagesInv(s) && HolderInv(cfg, s) && SendInv(s) && w in s.works && Handles(s, s.works[w])
    requires s.works[w].entry.topic == NotificationSend && s.works[w].entry.payload.messageId.Some?
    requires s.works[w].entry.payload.messageId.value < |s.messages| == |s'.messages|
    requires s'.works.Keys <= s.works.Keys && forall v | v in s'.works && v != w :: s'.works[v] == s.works[v]
    requires w in s'.works ==> !s'.works[w].phase.Decided?
    requires forall m | 0 <= m < |s.messages| && s.works[w].entry.payload.messageId != Some(m) ::
               s'.messages[m] == s.messages[m]
    ensures forall v | v in s'.works && s'.works[v].phase.Decided? && s'.works[v].phase.decision.Deliver? ::
              Handles(s', s'.works[v]) && s'.messages[s'.works[v].entry.payload.messageId.value].status == Queued
  {
    forall v | v in s'.works && s'.works[v].phase.Decided? && s'.works[v].phase.decision.Deliver?
      ensures Handles(s', s'.works[v]) && s'.messages[s'.works[v].entry.payload.messageId.value].status == Queued
    {
      assert v != w && Handles(s, s.works[v]);
      OthersElsewhere(cfg, s, w, v);
    }
  }

  lemma SendInvWrite(cfg: Config, s: State, w: nat, ok: bool)
    requires RowMessagesInv(s) && HolderInv(cfg, s) && SendInv(s) && Enabled(s, WriteStatus(w, ok))
    ensures SendInv(Do(cfg, s, WriteStatus(w, ok)))
  {
    var s' := Do(cfg, s, WriteStatus(w, ok));
    assert Handles(s, s.works[w]);
    forall i | 0 <= i < |s'.sends| ensures Accounted(s', s'.sends[i].message) {
      var m := s.sends[i].message;
      assert Accounted(s, m);
      if s.messages[m].status == Queued {
        var v :| On(s, v, m) && s.works[v].phase.SendReturned?;
        if v != w { assert On(s', v, m) && s'.works[v].phase.SendReturned?; }
      }
    }
    HandlesStay(s, s', w);
    OthersStayQueued(cfg, s, s', w);
  }

  /** Worker w moves on: it keeps its entry, and in its new phase it decides nothing. */
  lemma HandlesStay(s: State, s': State, w: nat)
    requires SendInv(s) && w in s.works && |s'.messages| == |s.messages|
    requires s'.works.Keys <= s.works.Keys && forall v | v in s'.works && v != w :: s'.works[v] == s.works[v]
    requires w in s'.works && s'.works[w].phase.SendReturned? ==>
               s'.works[w].entry == s.works[w].entry && s.works[w].phase.Decided?
               && s.works[w].phase.decision.Deliver?
    requires w in s'.works ==> !s'.works[w].phase.Decided?
    ensures forall v | v in s'.works :: Handles(s', s'.works[v])
  {
    forall v | v in s'.works ensures Handles(s', s'.works[v]) {
      assert Handles(s, s.works[v]);
    }
  }

  /** A send still owed stays owed when only the worker w, which owes none, moves. */
  lemma OwedStays(s: State, s': State, w: nat, m: nat)
    requires Owed(s, m) && w in s.works && !s.works[w].phase.SendReturned?
    requires forall v | v in s.works && v != w :: v in s'.works && s'.works[v] == s.works[v]
    ensures Owed(s', m)
  {
    var v :| On(s, v, m) && s.works[v].phase.SendReturned?;
    assert On(s', v, m) && s'.works[v].phase.SendReturned?;
  }

  /** A decision that neither sends nor writes. */
  lemma SendInvPass(cfg: Config, s: State, w: nat, ok: bool)
    requires SendInv(s) && Enabled(s, Act(w, ok))
    requires s.works[w].phase.decision.Skip? || s.works[w].phase.decision.Throw?
    ensures SendInv(Do(cfg, s, Act(w, ok)))
  {
    var s' := Do(cfg, s, Act(w, ok));
    forall i | 0 <= i < |s'.sends| ensures Accounted(s', s'.sends[i].message) {
      var m := s.sends[i].message;
      assert Accounted(s, m);
      if s.messages[m].status == Queued { OwedStays(s, s', w, m); }
    }
    HandlesStay(s, s', w);
  }

  lemma SendInvMarkFailed(cfg: Config, s: State, w: nat, ok: bool)
    requires RowMessagesInv(s) && HolderInv(cfg, s) && SendInv(s) && Enabled(s, Act(w, ok))
    requires s.works[w].phase.decision.MarkFailed?
    ensures SendInv(Do(cfg, s, Act(w, ok)))
  {
    var s' := Do(cfg, s, Act(w, ok));
    assert Handles(s, s.works[w]);
    forall i | 0 <= i < |s'.sends| ensures Accounted(s', s'.sends[i].message) {
      var m := s.sends[i].message;
      assert Accounted(s, m);
      if s.messages[m].status == Queued { OwedStays(s, s', w, m); }
    }
    HandlesStay(s, s', w);
    OthersStayQueued(cfg, s, s', w);
  }

  /** A message about to be delivered was not sent before: its send would still be owed, by another worker on it. */
  lemma NotSentBefore(cfg: Config, s: State, w: nat, i: nat)
    requires RowMessagesInv(s) && HolderInv(cfg, s) && SendInv(s) && w in s.works && i < |s.sends|
    requires s.works[w].phase.Decided? && s.works[w].phase.decision.Deliver?
    ensures s.works[w].entry.payload.messageId != Some(s.sends[i].message)
  {
    assert Handles(s, s.works[w]);
    var m := s.sends[i].message;
    assert Accounted(s, m);
    if s.works[w].entry.payload.messageId == Some(m) {
      var v :| On(s, v, m) && s.works[v].phase.SendReturned?;
      OthersElsewhere(cfg, s, w, v);
      assert false;
    }
  }

  /** A call just made is owed its status write, and the earlier ones are accounted for as before. */
  lemma SentNow(s: State, s': State, w: nat)
    requires SendInv(s) && w in s.works && s.works[w].phase.Decided? && s.works[w].phase.decision.Deliver?
    requires |s'.messages| == |s.messages|
    requires forall m | 0 <= m < |s.messages| :: s'.messages[m].status == s.messages[m].status
    requires |s'.sends| == |s.sends| + 1 && s'.sends[..|s.sends|] == s.sends
    requires s.works[w].entry.payload.messageId == Some(s'.sends[|s.sends|].message)
    requires s'.works.Keys == s.works.Keys && forall v | v in s.works && v != w :: s'.works[v] == s.works[v]
    requires s'.works[w].entry == s.works[w].entry && s'.works[w].phase.SendReturned?
    requires forall i | 0 <= i < |s.sends| :: s.sends[i].message != s'.sends[|s.sends|].message
    ensures SendInv(s')
  {
    assert Handles(s, s.works[w]);
    forall i | 0 <= i < |s'.sends| ensures Accounted(s', s'.sends[i].message) {
      if i == |s.sends| {
        assert On(s', w, s'.sends[i].message) && s'.works[w].phase.SendReturned?;
      } else {
        assert s'.sends[i] == s'.sends[..|s.sends|][i] && Accounted(s, s.sends[i].message);
        if s.messages[s.sends[i].message].status == Queued { OwedStays(s, s', w, s.sends[i].message); }
      }
    }
    HandlesStay(s, s', w);
  }

  /** The provider call: its message was still queued, so no earlier call was made for it. */
  lemma SendInvDeliver(cfg: Config, s: State, w: nat, ok: bool)
    requires RowMessagesInv(s) && HolderInv(cfg, s) && SendInv(s) && Enabled(s, Act(w, ok))
    requires s.works[w].phase.decision.Deliver?
    ensures SendInv(Do(cfg, s, Act(w, ok)))
  {
    assert Handles(s, s.works[w]);
    forall i | 0 <= i < |s.sends| ensures Some(s.sends[i].message) != s.works[w].entry.payload.messageId {
      NotSentBefore(cfg, s, w, i);
    }
    SentNow(s, Do(cfg, s, Act(w, ok)), w);
  }

  ghost predicate DisciplineInv(cfg: Config, s: State) {
    HolderInv(cfg, s) && CountInv(s) && RowMessagesInv(s) && SendInv(s)
  }

  lemma DisciplineInvStep(cfg: Config, s: State, step: Step)
    requires DisciplineInv(cfg, s) && Enabled(s, step) && Observes(cfg, STRICT, s, step)
    ensures DisciplineInv(cfg, Do(cfg, s, step))
  {
    HolderInvStep(cfg, s, step);
    CountInvStep(cfg, s, step);
    RowMessagesStep(cfg, s, step);
    if step.WriteStatus? { SendInvWrite(cfg, s, step.w, step.ok); }
    else if !step.Act? { SendInvQuiet(cfg, s, step); }
    else if s.works[step.w].phase.decision.Deliver? { SendInvDeliver(cfg, s, step.w, step.ok); }
    else if s.works[step.w].phase.decision.MarkFailed? { SendInvMarkFailed(cfg, s, step.w, step.ok); }
    else { SendInvPass(cfg, s, step.w, step.ok); }
  }

  lemma {:induction false} DisciplineInvRun(cfg: Config, s: State, steps: seq<Step>, s': State)
    requires DisciplineInv(cfg, s) && RunUnder(cfg, STRICT, s, steps, s')
    ensures DisciplineInv(cfg, s')
    decreases |steps|
  {
    if steps == [] {
    } else {
      DisciplineInvStep(cfg, s, steps[0]);
      DisciplineInvRun(cfg, Do(cfg, s, steps[0]), steps[1..], s');
    }
  }

  /**
   In disciplined runs the provider is called at most once per message, `attempts` is exactly the
   number of completed handler runs of the row, and five completed runs leave the row terminal.
   */
  lemma AtMostOneSendPerMessage(cfg: Config, s: State)
    requires ReachableUnder(cfg, STRICT, s)
    ensures forall i, j | 0 <= i < j < |s.sends| :: s.sends[i].message != s.sends[j].message
    ensures forall r | 0 <= r < |s.rows| ::
              && multiset(s.runs)[r] == s.rows[r].attempts <= MAX_ATTEMPTS
              && (s.rows[r].attempts == MAX_ATTEMPTS ==> s.rows[r].Terminal())
  {
    var now0: int, steps: seq<Step> :| RunUnder(cfg, STRICT, Init(now0), steps, s);
    DisciplineInvRun(cfg, Init(now0), steps, s);
    forall r | 0 <= r < |s.rows|
      ensures multiset(s.runs)[r] == s.rows[r].attempts <= MAX_ATTEMPTS
      ensures s.rows[r].attempts == MAX_ATTEMPTS ==> s.rows[r].Terminal()
    {
      assert RowCounted(s, r);
    }
  }

  /** In disciplined runs a terminal row never changes again. */
  lemma TerminalStays(cfg: Config, s: State, step: Step, r: nat)
    requires HolderInv(cfg, s) && Enabled(s, step) && r < |s.rows| && s.rows[r].Terminal()
    ensures r < |Do(cfg, s, step).rows| && Do(cfg, s, step).rows[r] == s.rows[r]
  {
    if step.Complete? { assert Holds(cfg, s, s.works[step.w]); }
  }

  lemma {:induction false} TerminalIsFinal(cfg: Config, s: State, steps: seq<Step>, s': State, r: nat)
    requires DisciplineInv(cfg, s) && RunUnder(cfg, STRICT, s, steps, s')
    requires r < |s.rows| && s.rows[r].Terminal()
    ensures r < |s'.rows| && s'.rows[r] == s.rows[r]
    decreases |steps|
  {
    if steps == [] {
    } else {
      var step := steps[0];
      DisciplineInvStep(cfg, s, step);
      TerminalStays(cfg, s, step, r);
      TerminalIsFinal(cfg, Do(cfg, s, step), steps[1..], s', r);
    }
  }

  // Both assumptions are needed: a second provider call without either of them.

  ghost predicate ReadyToSend(cfg: Config, k: Discipline, s: State) {
    && ReachableUnder(cfg, k, s)
    && |s.rows| == 1 && s.rows[0].Due(s.now)
    && s.rows[0].topic == NotificationSend
    && s.rows[0].payload == Payload(Some(0), Some("a@example.com"), false, None)
    && |s.messages| == 1 && s.messages[0] == Message(EMAIL, "cheque_v1", "Due tomorrow", Queued)
    && s.works == map[]
  }

  /** A worker claims the row, reads the message and calls the provider. */
  lemma ClaimAndSend(cfg: Config, s: State) returns (s': State)
    requires ReadyToSend(cfg, IN_TIME, s)
    ensures ReachableUnder(cfg, IN_TIME, s') && s'.now == s.now
    ensures s'.messages == s.messages && s'.works.Keys == {|s.claims|}
    ensures |s'.claims| == |s.claims| + 1 && s'.works[|s.claims|].phase.SendReturned?
    ensures s'.rows == s.rows[0 := s.rows[0].(status := Processing, lockedUntil := Some(s'.now + cfg.leaseMs))]
    ensures s'.sends == s.sends + [Send(0, s.rows[0].key, "a@example.com", "Due tomorrow", EMAIL)]
  {
    var w := |s.claims|;
    UnderStep(cfg, IN_TIME, s, ClaimOne(0));
    s' := Do(cfg, s, ClaimOne(0));
    UnderStep(cfg, IN_TIME, s', Read(w, NOWHERE, true));
    s' := Do(cfg, s', Read(w, NOWHERE, true));
    assert s'.works[w].phase == Decided(Deliver("a@example.com", "Due tomorrow", EMAIL));
    UnderStep(cfg, IN_TIME, s', Act(w, true));
    s' := Do(cfg, s', Act(w, true));
  }

  /** A worker reaches the provider and dies; the lease runs out and the message is still queued. */
  lemma SendThenDie(cfg: Config, s: State) returns (s': State)
    requires ReadyToSend(cfg, IN_TIME, s)
    ensures ReadyToSend(cfg, IN_TIME, s')
    ensures s'.sends == s.sends + [Send(0, s.rows[0].key, "a@example.com", "Due tomorrow", EMAIL)]
    ensures s'.rows[0].key == s.rows[0].key
  {
    s' := ClaimAndSend(cfg, s);
    UnderStep(cfg, IN_TIME, s', Crash(|s.claims|));
    s' := Do(cfg, s', Crash(|s.claims|));
    UnderStep(cfg, IN_TIME, s', Tick(s'.now + cfg.leaseMs + 1));
    s' := Do(cfg, s', Tick(s'.now + cfg.leaseMs + 1));
    UnderStep(cfg, IN_TIME, s', Recover);
    s' := Do(cfg, s', Recover);
  }

  /** A crash between the provider call and the status write makes the next run call again, under the same key. */
  lemma CrashAfterSendRepeatsTheCall(cfg: Config) returns (s: State)
    ensures ReachableUnder(cfg, IN_TIME, s)
    ensures |s.sends| == 2 && s.sends[0] == s.sends[1]
  {
    var input := NotifyInput(EMAIL, "cheque_v1", "Due tomorrow", Some("a@example.com"), false);
    s := Init(0);
    UnderInit(cfg, IN_TIME, 0);
    UnderStep(cfg, IN_TIME, s, NotifyCall(input));
    s := Do(cfg, s, NotifyCall(input));
    s := SendThenDie(cfg, s);
    s := SendThenDie(cfg, s);
  }

  /** A worker looks at a queued message, and its lease runs out before it acts. */
  lemma LookAndStall(cfg: Config, s: State) returns (s': State)
    requires ReadyToSend(cfg, UNBROKEN, s) && s.rows[0].lockedUntil.None? && s.claims == [] && s.sends == []
    ensures ReachableUnder(cfg, UNBROKEN, s') && s'.rows == s.rows && s'.messages == s.messages
    ensures s'.sends == [] && |s'.claims| == 1
    ensures s'.rows[0].Due(s'.now) && s'.works.Keys == {0}
    ensures s'.works[0].entry == EntryOf(s.rows, 0)
    ensures s'.works[0].phase == Decided(Deliver("a@example.com", "Due tomorrow", EMAIL))
  {
    UnderStep(cfg, UNBROKEN, s, ClaimOne(0));
    s' := Do(cfg, s, ClaimOne(0));
    UnderStep(cfg, UNBROKEN, s', Read(0, NOWHERE, true));
    s' := Do(cfg, s', Read(0, NOWHERE, true));
    UnderStep(cfg, UNBROKEN, s', Tick(s'.now + cfg.leaseMs + 1));
    s' := Do(cfg, s', Tick(s'.now + cfg.leaseMs + 1));
    UnderStep(cfg, UNBROKEN, s', Recover);
    s' := Do(cfg, s', Recover);
    assert s'.rows == s.rows;
  }

  /** The second worker reads the message, still queued, and calls the provider; then the first one wakes up. */
  lemma BothCall(cfg: Config, s: State) returns (s': State)
    requires ReachableUnder(cfg, UNBROKEN, s)
    requires |s.rows| == 1 && s.rows[0].Due(s.now) && s.rows[0].topic == NotificationSend
    requires s.rows[0].payload == Payload(Some(0), Some("a@example.com"), false, None)
    requires |s.messages| == 1 && s.messages[0] == Message(EMAIL, "cheque_v1", "Due tomorrow", Queued)
    requires s.sends == [] && |s.claims| == 1 && s.works.Keys == {0} && s.works[0].entry == EntryOf(s.rows, 0)
    requires s.works[0].phase == Decided(Deliver("a@example.com", "Due tomorrow", EMAIL))
    ensures ReachableUnder(cfg, UNBROKEN, s') && |s'.sends| == 2 && s'.sends[0] == s'.sends[1]
    ensures |s'.claims| == 2 && s'.works.Keys == {0, 1}
  {
    UnderStep(cfg, UNBROKEN, s, ClaimOne(0));
    s' := Do(cfg, s, ClaimOne(0));
    UnderStep(cfg, UNBROKEN, s', Read(1, NOWHERE, true));
    s' := Do(cfg, s', Read(1, NOWHERE, true));
    assert s'.works[1].phase == Decided(Deliver("a@example.com", "Due tomorrow", EMAIL));
    UnderStep(cfg, UNBROKEN, s', Act(1, true));
    s' := Do(cfg, s', Act(1, true));
    UnderStep(cfg, UNBROKEN, s', Act(0, true));
    s' := Do(cfg, s', Act(0, true));
  }

  /** Without any crash, a handler that outlives its lease calls the provider a second time. */
  lemma OutlivingTheLeaseRepeatsTheCall(cfg: Config) returns (s: State)
    ensures ReachableUnder(cfg, UNBROKEN, s)
    ensures |s.sends| == 2 && s.sends[0] == s.sends[1] && |s.claims| == 2 && s.works.Keys == {0, 1}
  {
    var input := NotifyInput(EMAIL, "cheque_v1", "Due tomorrow", Some("a@example.com"), false);
    s := Init(0);
    UnderInit(cfg, UNBROKEN, 0);
    UnderStep(cfg, UNBROKEN, s, NotifyCall(input));
    s := Do(cfg, s, NotifyCall(input));
    s := LookAndStall(cfg, s);
    s := BothCall(cfg, s);
  }

  ghost predicate SendsDiffer(s: State) {
    forall i, j | 0 <= i < j < |s.sends| :: s.sends[i].message != s.sends[j].message
  }

  /** At most one provider call per message, over all runs that observe k, if and only if k is strict. */
  lemma AtMostOneSendIffStrict(cfg: Config, k: Discipline)
    ensures (forall s: State | ReachableUnder(cfg, k, s) :: SendsDiffer(s)) <==> k == STRICT
  {
    if k == STRICT {
      forall s: State | ReachableUnder(cfg, k, s) ensures SendsDiffer(s) { AtMostOneSendPerMessage(cfg, s); }
    } else if !k.unbroken {
      var s := CrashAfterSendRepeatsTheCall(cfg);
      var now0: int, steps: seq<Step> :| RunUnder(cfg, IN_TIME, Init(now0), steps, s);
      UnderWeaker(cfg, IN_TIME, k, Init(now0), steps, s);
      assert ReachableUnder(cfg, k, s) && !SendsDiffer(s);
    } else {
      var s := OutlivingTheLeaseRepeatsTheCall(cfg);
      var now0: int, steps: seq<Step> :| RunUnder(cfg, UNBROKEN, Init(now0), steps, s);
      UnderWeaker(cfg, UNBROKEN, k, Init(now0), steps, s);
      assert ReachableUnder(cfg, k, s) && !SendsDiffer(s);
    }
  }

  /** A failing worker that lost its lease puts a dispatched row back to pending. */
  lemma DispatchedIsNotFinalWithoutDiscipline(cfg: Config) returns (s: State, s': State)
    ensures Reachable(cfg, s) && Reachable(cfg, s')
    ensures |s.rows| == 1 && s.rows[0].status == Dispatched
    ensures |s'.rows| == 1 && s'.rows[0].status == Pending && s'.runs == s.runs + [0]
  {
    s := LostLease(cfg);
    ReachableStep(cfg, s, Read(0, NOWHERE, false));
    s := Do(cfg, s, Read(0, NOWHERE, false));
    ReachableStep(cfg, s, Act(0, false));
    s := Do(cfg, s, Act(0, false));
    s := FinishSecond(cfg, s);
    ReachableStep(cfg, s, Complete(0, false));
    s' := Do(cfg, s, Complete(0, false));
  }

  lemma FinishSecond(cfg: Config, s: State) returns (s': State)
    requires Reachable(cfg, s)
    requires |s.rows| == 1 && s.rows[0].status == Processing && s.rows[0].topic == RiskEvaluate
    requires s.rows[0].attempts == 0
    requires 0 in s.works && 1 in s.works && s.works[1].phase == Claimed && s.works[1].entry == EntryOf(s.rows, 0)
    ensures Reachable(cfg, s')
    ensures |s'.rows| == 1 && s'.rows[0].status == Dispatched
    ensures 0 in s'.works && s'.works[0] == s.works[0]
  {
    ReachableStep(cfg, s, Read(1, NOWHERE, true));
    s' := Do(cfg, s, Read(1, NOWHERE, true));
    ReachableStep(cfg, s', Act(1, true));
    s' := Do(cfg, s', Act(1, true));
    ReachableStep(cfg, s', Complete(1, true));
    s' := Do(cfg, s', Complete(1, true));
  }
}
