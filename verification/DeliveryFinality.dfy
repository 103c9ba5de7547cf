/**
 When the end of a row is really the end. Outside disciplined runs a handler may outlive its lease, and
 its completion write still lands: the workers in flight on a row decide whether it can change again.
 */
module DeliveryFinality {
  import opened Outbox
  import opened Delivery

  ghost predicate HeldBy(s: State, r: nat, w: nat) {
    w in s.works && s.works[w].entry.row == r
  }

  /** Nothing any continuation does changes row r. */
  ghost predicate Frozen(cfg: Config, s: State, r: nat)
    requires r < |s.rows|
  {
    forall steps: seq<Step>, s': State :: Run(cfg, s, steps, s') ==> r < |s'.rows| && s'.rows[r] == s.rows[r]
  }

  /** Some continuation puts row r back to pending. */
  ghost predicate CanReopen(cfg: Config, s: State, r: nat) {
    exists steps: seq<Step>, s': State :: Run(cfg, s, steps, s') && r < |s'.rows| && s'.rows[r].status == Pending
  }

  lemma UnheldStep(cfg: Config, s: State, step: Step, r: nat)
    requires Enabled(s, step) && r < |s.rows| && s.rows[r].Terminal() && forall w :: !HeldBy(s, r, w)
    ensures var s' := Do(cfg, s, step); r < |s'.rows| && s'.rows[r] == s.rows[r] && forall w :: !HeldBy(s', r, w)
  {
    var s' := Do(cfg, s, step);
    if step.Complete? { assert !HeldBy(s, r, step.w); }
    forall w ensures !HeldBy(s', r, w) { assert !HeldBy(s, r, w); }
  }

  lemma {:induction false} UnheldRun(cfg: Config, s: State, steps: seq<Step>, s': State, r: nat)
    requires Run(cfg, s, steps, s') && r < |s.rows| && s.rows[r].Terminal() && forall w :: !HeldBy(s, r, w)
    ensures r < |s'.rows| && s'.rows[r] == s.rows[r]
    decreases |steps|
  {
    if steps == [] {
    } else {
      UnheldStep(cfg, s, steps[0], r);
      UnheldRun(cfg, Do(cfg, s, steps[0]), steps[1..], s', r);
    }
  }

  /** Any worker in flight can be brought to its completion write, without touching a row on the way. */
  lemma DriveToReturn(cfg: Config, s: State, w: nat) returns (steps: seq<Step>, s': State)
    requires w in s.works
    ensures Run(cfg, s, steps, s') && s'.rows == s.rows && s'.now == s.now
    ensures w in s'.works && s'.works[w].entry == s.works[w].entry && s'.works[w].phase.HandlerReturned?
  {
    steps, s' := [], s;
    if s'.works[w].phase.Claimed? {
      RunSnoc(cfg, s, steps, s', Read(w, NOWHERE, false));
      steps, s' := steps + [Read(w, NOWHERE, false)], Do(cfg, s', Read(w, NOWHERE, false));
    }
    if s'.works[w].phase.Decided? {
      RunSnoc(cfg, s, steps, s', Act(w, true));
      steps, s' := steps + [Act(w, true)], Do(cfg, s', Act(w, true));
    }
    if s'.works[w].phase.SendReturned? {
      RunSnoc(cfg, s, steps, s', WriteStatus(w, false));
      steps, s' := steps + [WriteStatus(w, false)], Do(cfg, s', WriteStatus(w, false));
    }
  }

  /** A worker on row r can fail late: the row takes the attempts of its snapshot and a new due time. */
  lemma FailLate(cfg: Config, s: State, r: nat, w: nat) returns (steps: seq<Step>, s': State)
    requires r < |s.rows| && HeldBy(s, r, w)
    ensures Run(cfg, s, steps, s') && r < |s'.rows| && s'.rows[r].availableAt > s.rows[r].availableAt
    ensures s'.rows[r].status == if s.works[w].entry.attempts + 1 >= MAX_ATTEMPTS then Failed else Pending
  {
    steps, s' := DriveToReturn(cfg, s, w);
    var later := 1 + if s.now < s.rows[r].availableAt then s.rows[r].availableAt else s.now;
    RunSnoc(cfg, s, steps, s', Tick(later));
    steps, s' := steps + [Tick(later)], Do(cfg, s', Tick(later));
    RunSnoc(cfg, s, steps, s', Complete(w, false));
    steps, s' := steps + [Complete(w, false)], Do(cfg, s', Complete(w, false));
  }

  /** A dispatched or failed row never changes again if and only if no worker is still in flight on it. */
  lemma FinalIffUnheld(cfg: Config, s: State, r: nat)
    requires r < |s.rows| && s.rows[r].Terminal()
    ensures Frozen(cfg, s, r) <==> forall w :: !HeldBy(s, r, w)
  {
    if forall w :: !HeldBy(s, r, w) {
      forall steps: seq<Step>, s': State | Run(cfg, s, steps, s') ensures r < |s'.rows| && s'.rows[r] == s.rows[r] {
        UnheldRun(cfg, s, steps, s', r);
      }
    } else {
      var w :| HeldBy(s, r, w);
      var steps, s' := FailLate(cfg, s, r, w);
      assert Run(cfg, s, steps, s') && s'.rows[r] != s.rows[r];
    }
  }

  // Its status is final a little more often: a worker on its last attempt can only confirm the end.

  ghost predicate OnlyLastAttempts(s: State, r: nat) {
    forall w | HeldBy(s, r, w) :: s.works[w].entry.attempts + 1 >= MAX_ATTEMPTS
  }

  lemma LastAttemptStep(cfg: Config, s: State, step: Step, r: nat)
    requires Enabled(s, step) && r < |s.rows| && s.rows[r].Terminal() && OnlyLastAttempts(s, r)
    ensures var s' := Do(cfg, s, step); r < |s'.rows| && s'.rows[r].Terminal() && OnlyLastAttempts(s', r)
  {
    var s' := Do(cfg, s, step);
    if step.Complete? && s.works[step.w].entry.row == r { assert HeldBy(s, r, step.w); }
    forall w | HeldBy(s', r, w) ensures s'.works[w].entry.attempts + 1 >= MAX_ATTEMPTS { assert HeldBy(s, r, w); }
  }

  lemma {:induction false} LastAttemptRun(cfg: Config, s: State, steps: seq<Step>, s': State, r: nat)
    requires Run(cfg, s, steps, s') && r < |s.rows| && s.rows[r].Terminal() && OnlyLastAttempts(s, r)
    ensures r < |s'.rows| && s'.rows[r].Terminal()
    decreases |steps|
  {
    if steps == [] {
    } else {
      LastAttemptStep(cfg, s, steps[0], r);
      LastAttemptRun(cfg, Do(cfg, s, steps[0]), steps[1..], s', r);
    }
  }

  /** A finished row can go back to pending if and only if some worker in flight on it has attempts left. */
  lemma ReopensIffAttemptsLeft(cfg: Config, s: State, r: nat)
    requires r < |s.rows| && s.rows[r].Terminal()
    ensures CanReopen(cfg, s, r) <==> !OnlyLastAttempts(s, r)
  {
    if OnlyLastAttempts(s, r) {
      forall steps: seq<Step>, s': State | Run(cfg, s, steps, s') ensures r < |s'.rows| && s'.rows[r].Terminal() {
        LastAttemptRun(cfg, s, steps, s', r);
      }
    } else {
      var w :| HeldBy(s, r, w) && s.works[w].entry.attempts + 1 < MAX_ATTEMPTS;
      var steps, s' := FailLate(cfg, s, r, w);
      assert Run(cfg, s, steps, s') && s'.rows[r].status == Pending;
    }
  }
}
