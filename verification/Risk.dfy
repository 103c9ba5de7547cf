/**
 The risk rules engine: flags raised and cleared in place, one ledger event for each change, and
 evaluations that are sequences of raise-or-clear decisions.
 */
module Risk {
  import opened Common
  import opened Dates

  datatype ScopeKind = TENANCY | PAYMENT_ITEM | PROOF_REQUEST | RENEWAL_CASE

  datatype Scope = Scope(kind: ScopeKind, id: nat)

  datatype RiskCode =
    | MISSING_EJARI
    | MISSING_END_DATE
    | CHEQUE_TOTAL_MISMATCH
    | NOTICE_GATE_WITHIN_30D
    | PROOF_OVERDUE
    | AGENT_UNRESPONSIVE
    | PAYMENT_LATE
    | INVOICE_WITHOUT_QUOTE
    | MAINTENANCE_DONE_WITHOUT_TENANT_CONFIRMATION
    | DOCUMENT_EXPIRED
    | APPROVAL_PENDING_TOO_LONG
    | TENANCY_OVERLAP
    | PROPOSED_INCREASE_ABOVE_INDEX_BAND
    | RENEWAL_NOTICE_WINDOW_MISSED

  datatype FlagStatus = Open | Acknowledged | Cleared

  datatype Flag = Flag(scope: Scope, code: RiskCode, status: FlagStatus)
  {
    predicate ActiveFor(sc: Scope, c: RiskCode) {
      scope == sc && code == c && status != Cleared
    }
  }

  datatype LedgerEvent = FlagRaised(scope: Scope, code: RiskCode) | FlagCleared(scope: Scope, code: RiskCode)

  datatype Desk = Desk(flags: seq<Flag>, log: seq<LedgerEvent>)

  function FirstActiveFrom(flags: seq<Flag>, sc: Scope, code: RiskCode, from: nat): (r: Option<nat>)
    requires from <= |flags|
    ensures r.Some? ==> from <= r.value < |flags| && flags[r.value].ActiveFor(sc, code)
    ensures r.Some? ==> forall i | from <= i < r.value :: !flags[i].ActiveFor(sc, code)
    ensures r.None? ==> forall i | from <= i < |flags| :: !flags[i].ActiveFor(sc, code)
    decreases |flags| - from
  {
    if from == |flags| then None
    else if flags[from].ActiveFor(sc, code) then Some(from)
    else FirstActiveFrom(flags, sc, code, from + 1)
  }

  function FirstActive(flags: seq<Flag>, sc: Scope, code: RiskCode): (r: Option<nat>)
    ensures r.Some? ==> r.value < |flags| && flags[r.value].ActiveFor(sc, code)
    ensures r.None? <==> forall i | 0 <= i < |flags| :: !flags[i].ActiveFor(sc, code)
  {
    FirstActiveFrom(flags, sc, code, 0)
  }

  predicate HasActive(d: Desk, sc: Scope, code: RiskCode) {
    FirstActive(d.flags, sc, code).Some?
  }

  function Raise(d: Desk, sc: Scope, code: RiskCode): Desk {
    if HasActive(d, sc, code) then d
    else Desk(d.flags + [Flag(sc, code, Open)], d.log + [FlagRaised(sc, code)])
  }

  function Clear(d: Desk, sc: Scope, code: RiskCode): Desk {
    var open := FirstActive(d.flags, sc, code);
    if open.None? then d
    else Desk(d.flags[open.value := d.flags[open.value].(status := Cleared)], d.log + [FlagCleared(sc, code)])
  }

  /** One rule of an evaluation: raise when its condition holds, clear when it does not. */
  datatype Decision = Decision(code: RiskCode, wanted: bool)

  function Settle(d: Desk, sc: Scope, x: Decision): Desk {
    if x.wanted then Raise(d, sc, x.code) else Clear(d, sc, x.code)
  }

  function SettleAll(d: Desk, sc: Scope, xs: seq<Decision>): Desk
    decreases |xs|
  {
    if xs == [] then d else SettleAll(Settle(d, sc, xs[0]), sc, xs[1..])
  }

  // The ledger is the truth: replaying it gives exactly the active flags.

  predicate Concerns(e: LedgerEvent, sc: Scope, code: RiskCode) {
    e.scope == sc && e.code == code
  }

  /** Replay for one scope and code: raised or not, or None once the alternation is broken. */
  function Replay(log: seq<LedgerEvent>, sc: Scope, code: RiskCode): Option<bool>
    decreases |log|
  {
    if log == [] then Some(false)
    else
      var before := Replay(log[..|log| - 1], sc, code);
      var e := log[|log| - 1];
      if before.None? || !Concerns(e, sc, code) then before
      else if e.FlagRaised? then (if before.value then None else Some(true))
      else (if before.value then Some(false) else None)
  }

  function RaisedMinusCleared(log: seq<LedgerEvent>, sc: Scope, code: RiskCode): int
    decreases |log|
  {
    if log == [] then 0
    else
      var e := log[|log| - 1];
      RaisedMinusCleared(log[..|log| - 1], sc, code)
      + (if !Concerns(e, sc, code) then 0 else if e.FlagRaised? then 1 else -1)
  }

  lemma {:induction false} ReplayCounts(log: seq<LedgerEvent>, sc: Scope, code: RiskCode)
    requires Replay(log, sc, code).Some?
    ensures RaisedMinusCleared(log, sc, code) == if Replay(log, sc, code).value then 1 else 0
    decreases |log|
  {
    if log == [] {
    } else {
      ReplayCounts(log[..|log| - 1], sc, code);
    }
  }

  ghost predicate OneActive(flags: seq<Flag>) {
    forall i, j | 0 <= i < j < |flags| && flags[i].status != Cleared && flags[j].status != Cleared ::
      !(flags[i].scope == flags[j].scope && flags[i].code == flags[j].code)
  }

  ghost predicate Faithful(d: Desk) {
    && OneActive(d.flags)
    && forall sc, code :: Replay(d.log, sc, code) == Some(HasActive(d, sc, code))
  }

  lemma ReplaySnoc(log: seq<LedgerEvent>, e: LedgerEvent, sc: Scope, code: RiskCode)
    ensures Replay(log + [e], sc, code) ==
              (var before := Replay(log, sc, code);
               if before.None? || !Concerns(e, sc, code) then before
               else if e.FlagRaised? then (if before.value then None else Some(true))
               else (if before.value then Some(false) else None))
  {
    assert (log + [e])[..|log|] == log;
  }

  lemma ActiveWitness(flags: seq<Flag>, i: nat, sc: Scope, code: RiskCode)
    requires i < |flags| && flags[i].ActiveFor(sc, code)
    ensures FirstActive(flags, sc, code).Some?
  {}

  lemma AppendEffect(flags: seq<Flag>, f: Flag, sc: Scope, code: RiskCode)
    ensures FirstActive(flags + [f], sc, code).Some? <==> FirstActive(flags, sc, code).Some? || f.ActiveFor(sc, code)
  {
    var was, here := FirstActive(flags, sc, code), FirstActive(flags + [f], sc, code);
    if was.Some? { ActiveWitness(flags + [f], was.value, sc, code); }
    if f.ActiveFor(sc, code) { ActiveWitness(flags + [f], |flags|, sc, code); }
    if here.Some? && here.value < |flags| { ActiveWitness(flags, here.value, sc, code); }
  }

  lemma RaiseEffect(d: Desk, sc: Scope, code: RiskCode, sc': Scope, code': RiskCode)
    ensures HasActive(Raise(d, sc, code), sc', code') <==> (sc' == sc && code' == code) || HasActive(d, sc', code')
  {
    if !HasActive(d, sc, code) {
      AppendEffect(d.flags, Flag(sc, code, Open), sc', code');
    }
  }

  lemma RaiseKeepsOneActive(d: Desk, sc: Scope, code: RiskCode)
    requires OneActive(d.flags)
    ensures OneActive(Raise(d, sc, code).flags)
  {
    if !HasActive(d, sc, code) {
      assert forall i | 0 <= i < |d.flags| :: !d.flags[i].ActiveFor(sc, code);
    }
  }

  lemma ClearEffect(d: Desk, sc: Scope, code: RiskCode, sc': Scope, code': RiskCode)
    requires OneActive(d.flags)
    ensures HasActive(Clear(d, sc, code), sc', code') <==> !(sc' == sc && code' == code) && HasActive(d, sc', code')
  {
    var open := FirstActive(d.flags, sc, code);
    if open.Some? {
      var flags' := Clear(d, sc, code).flags;
      var was, here := FirstActive(d.flags, sc', code'), FirstActive(flags', sc', code');
      if here.Some? {
        assert here.value != open.value && flags'[here.value] == d.flags[here.value];
        ActiveWitness(d.flags, here.value, sc', code');
      }
      if was.Some? && was.value != open.value { ActiveWitness(flags', was.value, sc', code'); }
    }
  }

  lemma ClearKeepsOneActive(d: Desk, sc: Scope, code: RiskCode)
    requires OneActive(d.flags)
    ensures OneActive(Clear(d, sc, code).flags)
  {}

  /** Raise and clear change the answer for their own scope and code only, and to the wanted value. */
  lemma SettleEffect(d: Desk, sc: Scope, x: Decision, sc': Scope, code': RiskCode)
    requires OneActive(d.flags)
    ensures OneActive(Settle(d, sc, x).flags)
    ensures HasActive(Settle(d, sc, x), sc', code') <==>
            if sc' == sc && code' == x.code then x.wanted else HasActive(d, sc', code')
  {
    if x.wanted {
      RaiseEffect(d, sc, x.code, sc', code');
      RaiseKeepsOneActive(d, sc, x.code);
    } else {
      ClearEffect(d, sc, x.code, sc', code');
      ClearKeepsOneActive(d, sc, x.code);
    }
  }

  lemma SettleFaithful(d: Desk, sc: Scope, x: Decision)
    requires Faithful(d)
    ensures Faithful(Settle(d, sc, x))
  {
    var d' := Settle(d, sc, x);
    SettleEffect(d, sc, x, sc, x.code);
    forall sc', code' ensures Replay(d'.log, sc', code') == Some(HasActive(d', sc', code')) {
      SettleEffect(d, sc, x, sc', code');
      assert Replay(d.log, sc', code') == Some(HasActive(d, sc', code'));
      if d' != d { ReplaySnoc(d.log, d'.log[|d.log|], sc', code'); }
    }
  }

  lemma {:induction false} SettleAllFaithful(d: Desk, sc: Scope, xs: seq<Decision>)
    requires Faithful(d)
    ensures Faithful(SettleAll(d, sc, xs))
    decreases |xs|
  {
    if xs == [] {
    } else {
      SettleFaithful(d, sc, xs[0]);
      SettleAllFaithful(Settle(d, sc, xs[0]), sc, xs[1..]);
    }
  }

  /** What faithfulness means to a reader of the ledger. */
  lemma FlagsMatchLedger(d: Desk, sc: Scope, code: RiskCode)
    requires Faithful(d)
    ensures RaisedMinusCleared(d.log, sc, code) == if HasActive(d, sc, code) then 1 else 0
    ensures forall i, j | 0 <= i < j < |d.flags| :: !(d.flags[i].ActiveFor(sc, code) && d.flags[j].ActiveFor(sc, code))
  {
    assert Replay(d.log, sc, code) == Some(HasActive(d, sc, code));
    ReplayCounts(d.log, sc, code);
  }

  /**
   The write looks at no status, but RiskFlag_active_unique refuses it where a cleared flag would become
   active beside an active one of its scope and code.
   */
  predicate MayAcknowledge(d: Desk, i: nat)
    requires i < |d.flags|
  {
    d.flags[i].status != Cleared || !HasActive(d, d.flags[i].scope, d.flags[i].code)
  }

  function Acknowledge(d: Desk, i: nat): Desk
    requires i < |d.flags|
  {
    if MayAcknowledge(d, i) then d.(flags := d.flags[i := d.flags[i].(status := Acknowledged)]) else d
  }

  lemma AcknowledgeActive(d: Desk, i: nat)
    requires Faithful(d) && i < |d.flags| && d.flags[i].status != Cleared
    ensures Faithful(Acknowledge(d, i))
  {
    var d' := Acknowledge(d, i);
    forall sc, code ensures Replay(d'.log, sc, code) == Some(HasActive(d', sc, code)) {
      assert Replay(d.log, sc, code) == Some(HasActive(d, sc, code));
      var was, here := FirstActive(d.flags, sc, code), FirstActive(d'.flags, sc, code);
      if was.Some? { ActiveWitness(d'.flags, was.value, sc, code); }
      if here.Some? { ActiveWitness(d.flags, here.value, sc, code); }
    }
  }

  /** Reviving the last flag of its scope and code makes it active behind the ledger's back. */
  lemma AcknowledgeRevives(d: Desk, i: nat)
    requires Faithful(d) && i < |d.flags| && d.flags[i].status == Cleared && MayAcknowledge(d, i)
    ensures !Faithful(Acknowledge(d, i))
  {
    var d' := Acknowledge(d, i);
    var sc, code := d.flags[i].scope, d.flags[i].code;
    ActiveWitness(d'.flags, i, sc, code);
    assert Replay(d.log, sc, code) == Some(HasActive(d, sc, code));
    assert Replay(d'.log, sc, code) != Some(HasActive(d', sc, code));
  }

  /** What keeps an acknowledgement in step with the ledger: the flag, or another like it, is still active. */
  predicate AcknowledgesActive(d: Desk, i: nat)
    requires i < |d.flags|
  {
    d.flags[i].status != Cleared || HasActive(d, d.flags[i].scope, d.flags[i].code)
  }

  /** Acknowledging keeps flags and ledger in step exactly when a flag of that scope and code is still active. */
  lemma AcknowledgeFaithfulIffActive(d: Desk, i: nat)
    requires Faithful(d) && i < |d.flags|
    ensures Faithful(Acknowledge(d, i)) <==> AcknowledgesActive(d, i)
  {
    if d.flags[i].status != Cleared {
      AcknowledgeActive(d, i);
    } else if MayAcknowledge(d, i) {
      AcknowledgeRevives(d, i);
    }
  }

  /**
   Acknowledging marks the one row, unless it is cleared and another flag of its scope and code is active;
   no other row and no event changes.
   */
  lemma AcknowledgeMarksOneRow(d: Desk, i: nat)
    requires i < |d.flags|
    ensures var d', was := Acknowledge(d, i), d.flags[i];
            && d'.log == d.log && |d'.flags| == |d.flags|
            && (forall j | 0 <= j < |d.flags| && j != i :: d'.flags[j] == d.flags[j])
            && d'.flags[i].scope == was.scope && d'.flags[i].code == was.code
            && d'.flags[i].status == (
                 if was.status == Cleared && (exists j | 0 <= j < |d.flags| ::
                      d.flags[j].scope == was.scope && d.flags[j].code == was.code && d.flags[j].status != Cleared)
                 then Cleared else Acknowledged)
  {
    var active := FirstActive(d.flags, d.flags[i].scope, d.flags[i].code);
    if j :| 0 <= j < |d.flags| && d.flags[j].scope == d.flags[i].scope && d.flags[j].code == d.flags[i].code
            && d.flags[j].status != Cleared
    {
      ActiveWitness(d.flags, j, d.flags[i].scope, d.flags[i].code);
    }
  }

  /** A flag raised, cleared and raised again: acknowledging its old row from a stale page changes nothing. */
  lemma StaleAcknowledgementIsRefused(sc: Scope, code: RiskCode)
    ensures var d := Raise(Clear(Raise(Desk([], []), sc, code), sc, code), sc, code);
            && d.flags == [Flag(sc, code, Cleared), Flag(sc, code, Open)]
            && Faithful(d) && Acknowledge(d, 0) == d
  {
    var empty := Desk([], []);
    assert Faithful(empty);
    SettleFaithful(empty, sc, Decision(code, true));
    var raised := Raise(empty, sc, code);
    SettleFaithful(raised, sc, Decision(code, false));
    var cleared := Clear(raised, sc, code);
    assert cleared.flags == [Flag(sc, code, Cleared)];
    SettleFaithful(cleared, sc, Decision(code, true));
    var again := Raise(cleared, sc, code);
    ActiveWitness(again.flags, 1, sc, code);
  }

  // Evaluations settle: a second pass over unchanged data writes nothing.

  ghost predicate DistinctCodes(xs: seq<Decision>) {
    forall i, j | 0 <= i < j < |xs| :: xs[i].code != xs[j].code
  }

  ghost predicate Settled(d: Desk, sc: Scope, xs: seq<Decision>) {
    forall i | 0 <= i < |xs| :: HasActive(d, sc, xs[i].code) <==> xs[i].wanted
  }

  lemma {:induction false} SettledIsFixed(d: Desk, sc: Scope, xs: seq<Decision>)
    requires Settled(d, sc, xs)
    ensures SettleAll(d, sc, xs) == d
    decreases |xs|
  {
    if xs == [] {
    } else {
      assert HasActive(d, sc, xs[0].code) <==> xs[0].wanted;
      assert Settle(d, sc, xs[0]) == d;
      assert Settled(d, sc, xs[1..]);
      SettledIsFixed(d, sc, xs[1..]);
    }
  }

  /** Everything outside the decided codes of this scope keeps its answer. */
  lemma {:induction false} SettleAllEffect(d: Desk, sc: Scope, xs: seq<Decision>)
    requires OneActive(d.flags) && DistinctCodes(xs)
    ensures OneActive(SettleAll(d, sc, xs).flags) && Settled(SettleAll(d, sc, xs), sc, xs)
    ensures forall sc', code' :: sc' != sc || (forall i | 0 <= i < |xs| :: xs[i].code != code') ==>
              (HasActive(SettleAll(d, sc, xs), sc', code') <==> HasActive(d, sc', code'))
    decreases |xs|
  {
    if xs == [] {
    } else {
      var d1 := Settle(d, sc, xs[0]);
      var d' := SettleAll(d1, sc, xs[1..]);
      SettleEffect(d, sc, xs[0], sc, xs[0].code);
      SettleAllEffect(d1, sc, xs[1..]);
      forall sc', code' | sc' != sc || (forall i | 0 <= i < |xs| :: xs[i].code != code')
        ensures HasActive(d', sc', code') <==> HasActive(d, sc', code')
      {
        SettleEffect(d, sc, xs[0], sc', code');
        assert sc' == sc ==> xs[0].code != code' && forall i | 0 <= i < |xs[1..]| :: xs[1..][i].code != code';
      }
      assert HasActive(d', sc, xs[0].code) <==> HasActive(d1, sc, xs[0].code);
      forall i | 0 <= i < |xs| ensures HasActive(d', sc, xs[i].code) <==> xs[i].wanted {
        if i > 0 { assert xs[i] == xs[1..][i - 1]; }
      }
    }
  }

  lemma ReevaluationIsSilent(d: Desk, sc: Scope, xs: seq<Decision>)
    requires OneActive(d.flags) && DistinctCodes(xs)
    ensures SettleAll(SettleAll(d, sc, xs), sc, xs) == SettleAll(d, sc, xs)
  {
    SettleAllEffect(d, sc, xs);
    SettledIsFixed(SettleAll(d, sc, xs), sc, xs);
  }

  // The two evaluators.

  /** A tenancy as the rules read it; `amounts` are those of its items that are not cancelled. */
  datatype TenancyFacts = TenancyFacts(
    id: nat,
    archived: bool,
    ejariNo: Option<string>,
    endDay: int,
    amounts: seq<int>,
    annualRent: int,
    openGateDay: Option<int>)

  function SumAmounts(amounts: seq<int>): int {
    if amounts == [] then 0 else amounts[0] + SumAmounts(amounts[1..])
  }

  predicate GateWithin30Days(t: TenancyFacts, today: int) {
    t.openGateDay.Some? && 0 <= DaysBetween(today, t.openGateDay.value) <= 30
  }

  /** No item at all leaves the cheque total undecided. Amounts are fils, so any difference exceeds the tolerance. */
  function TenancyDecisions(t: TenancyFacts, today: int): seq<Decision> {
    if t.archived then []
    else
      [Decision(MISSING_EJARI, !Truthy(t.ejariNo)), Decision(MISSING_END_DATE, t.endDay == 0)]
      + (if t.amounts == [] then [] else [Decision(CHEQUE_TOTAL_MISMATCH, SumAmounts(t.amounts) != t.annualRent)])
      + [Decision(NOTICE_GATE_WITHIN_30D, GateWithin30Days(t, today))]
  }

  /** A renewal case as the rules read it: the figures of the active offer and of the case's index capture. */
  datatype CaseFacts = CaseFacts(
    id: nat,
    archived: bool,
    offerRent: Option<int>,
    offerSnapshot: Option<int>,
    captureMax: Option<int>,
    noticeGateDay: Option<int>,
    noticeServed: bool)

  function Ceiling(c: CaseFacts): Option<int> {
    if c.offerRent.Some? && c.offerSnapshot.Some? then c.offerSnapshot else c.captureMax
  }

  predicate AboveBand(c: CaseFacts) {
    Ceiling(c).Some? && c.offerRent.Some? && c.offerRent.value > Ceiling(c).value
  }

  function CaseDecisions(c: CaseFacts, today: int): seq<Decision> {
    if c.archived then []
    else
      [Decision(PROPOSED_INCREASE_ABOVE_INDEX_BAND, AboveBand(c)),
       Decision(RENEWAL_NOTICE_WINDOW_MISSED, c.noticeGateDay.Some? && today > c.noticeGateDay.value
         && !c.noticeServed)]
  }

  function EvaluateTenancy(d: Desk, t: TenancyFacts, today: int): Desk {
    SettleAll(d, Scope(TENANCY, t.id), TenancyDecisions(t, today))
  }

  function EvaluateCase(d: Desk, c: CaseFacts, today: int): Desk {
    SettleAll(d, Scope(RENEWAL_CASE, c.id), CaseDecisions(c, today))
  }

  lemma TenancyDecisionsDistinct(t: TenancyFacts, today: int)
    ensures DistinctCodes(TenancyDecisions(t, today))
  {
    var xs := TenancyDecisions(t, today);
    if !t.archived {
      assert xs[0].code == MISSING_EJARI && xs[1].code == MISSING_END_DATE
        && xs[|xs| - 1].code == NOTICE_GATE_WITHIN_30D;
      assert |xs| == 4 ==> xs[2].code == CHEQUE_TOTAL_MISMATCH;
    }
  }

  /** The flags of a tenancy that is not archived are those its rules ask for. */
  ghost predicate TenancyFlagged(d: Desk, t: TenancyFacts, today: int) {
    var sc := Scope(TENANCY, t.id);
    && (HasActive(d, sc, MISSING_EJARI) <==> !Truthy(t.ejariNo))
    && (HasActive(d, sc, MISSING_END_DATE) <==> t.endDay == 0)
    && (t.amounts != [] ==> (HasActive(d, sc, CHEQUE_TOTAL_MISMATCH) <==> SumAmounts(t.amounts) != t.annualRent))
    && (HasActive(d, sc, NOTICE_GATE_WITHIN_30D) <==>
          t.openGateDay.Some? && today <= t.openGateDay.value <= today + 30)
  }

  ghost predicate CaseFlagged(d: Desk, c: CaseFacts, today: int) {
    var sc := Scope(RENEWAL_CASE, c.id);
    && (HasActive(d, sc, PROPOSED_INCREASE_ABOVE_INDEX_BAND) <==>
          && c.offerRent.Some?
          && (c.offerSnapshot.Some? ==> c.offerRent.value > c.offerSnapshot.value)
          && (c.offerSnapshot.None? ==> c.captureMax.Some? && c.offerRent.value > c.captureMax.value))
    && (HasActive(d, sc, RENEWAL_NOTICE_WINDOW_MISSED) <==>
          c.noticeGateDay.Some? && c.noticeGateDay.value < today && !c.noticeServed)
  }

  lemma SettledTenancyIsFlagged(d: Desk, t: TenancyFacts, today: int)
    requires !t.archived && Settled(d, Scope(TENANCY, t.id), TenancyDecisions(t, today))
    ensures TenancyFlagged(d, t, today)
  {
    var xs := TenancyDecisions(t, today);
    assert xs[0].code == MISSING_EJARI && xs[1].code == MISSING_END_DATE && xs[|xs| - 1].code == NOTICE_GATE_WITHIN_30D;
    if t.amounts != [] { assert xs[2].code == CHEQUE_TOTAL_MISMATCH; }
  }

  lemma SettledCaseIsFlagged(d: Desk, c: CaseFacts, today: int)
    requires !c.archived && Settled(d, Scope(RENEWAL_CASE, c.id), CaseDecisions(c, today))
    ensures CaseFlagged(d, c, today)
  {
    var xs := CaseDecisions(c, today);
    assert xs[0].code == PROPOSED_INCREASE_ABOVE_INDEX_BAND && xs[1].code == RENEWAL_NOTICE_WINDOW_MISSED;
  }

  /** After an evaluation of a live tenancy each rule's flag is up exactly when its condition holds. */
  lemma TenancyFlagsTellTheTruth(d: Desk, t: TenancyFacts, today: int)
    requires OneActive(d.flags) && !t.archived
    ensures var d', sc := EvaluateTenancy(d, t, today), Scope(TENANCY, t.id);
            && TenancyFlagged(d', t, today)
            && (t.amounts == [] ==>
              (HasActive(d', sc, CHEQUE_TOTAL_MISMATCH) <==> HasActive(d, sc, CHEQUE_TOTAL_MISMATCH)))
            && EvaluateTenancy(d', t, today) == d'
  {
    var xs := TenancyDecisions(t, today);
    TenancyDecisionsDistinct(t, today);
    SettleAllEffect(d, Scope(TENANCY, t.id), xs);
    ReevaluationIsSilent(d, Scope(TENANCY, t.id), xs);
    SettledTenancyIsFlagged(EvaluateTenancy(d, t, today), t, today);
    assert xs[0].code == MISSING_EJARI && xs[1].code == MISSING_END_DATE && xs[|xs| - 1].code == NOTICE_GATE_WITHIN_30D;
  }

  lemma CaseDecisionsDistinct(c: CaseFacts, today: int)
    ensures DistinctCodes(CaseDecisions(c, today))
  {}

  /**
   After an evaluation of a live case: a rent above the frozen ceiling, or without one above the
   capture's, and a gate missed unserved.
   */
  lemma CaseFlagsTellTheTruth(d: Desk, c: CaseFacts, today: int)
    requires OneActive(d.flags) && !c.archived
    ensures var d' := EvaluateCase(d, c, today);
            CaseFlagged(d', c, today) && EvaluateCase(d', c, today) == d'
  {
    var xs := CaseDecisions(c, today);
    CaseDecisionsDistinct(c, today);
    SettleAllEffect(d, Scope(RENEWAL_CASE, c.id), xs);
    ReevaluationIsSilent(d, Scope(RENEWAL_CASE, c.id), xs);
    SettledCaseIsFlagged(EvaluateCase(d, c, today), c, today);
  }

  /** An archived tenancy or case keeps the flags it has. */
  lemma ArchivedKeepsItsFlags(d: Desk, t: TenancyFacts, c: CaseFacts, today: int)
    ensures t.archived ==> EvaluateTenancy(d, t, today) == d
    ensures c.archived ==> EvaluateCase(d, c, today) == d
  {}

  // The nightly sweep over a workspace.

  datatype Job = Job(scope: Scope, decisions: seq<Decision>)

  function Jobs(tenancies: seq<TenancyFacts>, cases: seq<CaseFacts>, today: int): (jobs: seq<Job>)
    ensures |jobs| == |tenancies| + |cases|
  {
    seq(|tenancies|,
      i requires 0 <= i < |tenancies| => Job(Scope(TENANCY, tenancies[i].id), TenancyDecisions(tenancies[i], today)))
    + seq(|cases|, i requires 0 <= i < |cases| => Job(Scope(RENEWAL_CASE, cases[i].id), CaseDecisions(cases[i], today)))
  }

  function Sweep(d: Desk, jobs: seq<Job>): Desk
    decreases |jobs|
  {
    if jobs == [] then d else Sweep(SettleAll(d, jobs[0].scope, jobs[0].decisions), jobs[1..])
  }

  ghost predicate OrderlyJobs(jobs: seq<Job>) {
    && (forall i | 0 <= i < |jobs| :: DistinctCodes(jobs[i].decisions))
    && (forall i, j | 0 <= i < j < |jobs| :: jobs[i].scope != jobs[j].scope)
  }

  lemma {:induction false} SweepElsewhere(d: Desk, jobs: seq<Job>, sc: Scope, code: RiskCode)
    requires OneActive(d.flags) && OrderlyJobs(jobs)
    requires forall i | 0 <= i < |jobs| :: jobs[i].scope != sc
    ensures HasActive(Sweep(d, jobs), sc, code) <==> HasActive(d, sc, code)
    decreases |jobs|
  {
    if jobs == [] {
    } else {
      SettleAllEffect(d, jobs[0].scope, jobs[0].decisions);
      SweepElsewhere(SettleAll(d, jobs[0].scope, jobs[0].decisions), jobs[1..], sc, code);
    }
  }

  lemma {:induction false} SweepSettles(d: Desk, jobs: seq<Job>)
    requires OneActive(d.flags) && OrderlyJobs(jobs)
    ensures forall i | 0 <= i < |jobs| :: Settled(Sweep(d, jobs), jobs[i].scope, jobs[i].decisions)
    decreases |jobs|
  {
    if jobs == [] {
    } else {
      var d1 := SettleAll(d, jobs[0].scope, jobs[0].decisions);
      SettleAllEffect(d, jobs[0].scope, jobs[0].decisions);
      SweepSettles(d1, jobs[1..]);
      forall i | 0 <= i < |jobs| ensures Settled(Sweep(d, jobs), jobs[i].scope, jobs[i].decisions) {
        if i == 0 {
          forall k | 0 <= k < |jobs[0].decisions|
            ensures HasActive(Sweep(d, jobs), jobs[0].scope, jobs[0].decisions[k].code) <==> jobs[0].decisions[k].wanted
          {
            SweepElsewhere(d1, jobs[1..], jobs[0].scope, jobs[0].decisions[k].code);
          }
        } else {
          assert jobs[i] == jobs[1..][i - 1];
        }
      }
    }
  }

  lemma {:induction false} SweepFixed(d: Desk, jobs: seq<Job>)
    requires forall i | 0 <= i < |jobs| :: Settled(d, jobs[i].scope, jobs[i].decisions)
    ensures Sweep(d, jobs) == d
    decreases |jobs|
  {
    if jobs == [] {
    } else {
      SettledIsFixed(d, jobs[0].scope, jobs[0].decisions);
      SweepFixed(d, jobs[1..]);
    }
  }

  lemma {:induction false} SweepFaithful(d: Desk, jobs: seq<Job>)
    requires Faithful(d)
    ensures Faithful(Sweep(d, jobs))
    decreases |jobs|
  {
    if jobs == [] {
    } else {
      SettleAllFaithful(d, jobs[0].scope, jobs[0].decisions);
      SweepFaithful(SettleAll(d, jobs[0].scope, jobs[0].decisions), jobs[1..]);
    }
  }

  /** Sweeping a whole workspace twice on one day, nothing else having changed, adds no flag and no ledger event. */
  lemma NightlySweepIsIdempotent(d: Desk, tenancies: seq<TenancyFacts>, cases: seq<CaseFacts>, today: int)
    requires Faithful(d)
    requires forall i, j | 0 <= i < j < |tenancies| :: tenancies[i].id != tenancies[j].id
    requires forall i, j | 0 <= i < j < |cases| :: cases[i].id != cases[j].id
    ensures var jobs := Jobs(tenancies, cases, today);
            Faithful(Sweep(d, jobs)) && Sweep(Sweep(d, jobs), jobs) == Sweep(d, jobs)
  {
    var jobs := Jobs(tenancies, cases, today);
    JobsAreOrderly(tenancies, cases, today);
    SweepFaithful(d, jobs);
    SweepSettles(d, jobs);
    SweepFixed(Sweep(d, jobs), jobs);
  }

  lemma JobsAreOrderly(tenancies: seq<TenancyFacts>, cases: seq<CaseFacts>, today: int)
    requires forall i, j | 0 <= i < j < |tenancies| :: tenancies[i].id != tenancies[j].id
    requires forall i, j | 0 <= i < j < |cases| :: cases[i].id != cases[j].id
    ensures OrderlyJobs(Jobs(tenancies, cases, today))
  {
    var jobs := Jobs(tenancies, cases, today);
    forall i | 0 <= i < |jobs| ensures DistinctCodes(jobs[i].decisions) {
      if i < |tenancies| { TenancyDecisionsDistinct(tenancies[i], today); }
      else { CaseDecisionsDistinct(cases[i - |tenancies|], today); }
    }
  }

  /** After one sweep every flag of every live tenancy and case of the workspace is up exactly when its rule holds. */
  lemma SweepTellsTheTruth(d: Desk, tenancies: seq<TenancyFacts>, cases: seq<CaseFacts>, today: int)
    requires OneActive(d.flags)
    requires forall i, j | 0 <= i < j < |tenancies| :: tenancies[i].id != tenancies[j].id
    requires forall i, j | 0 <= i < j < |cases| :: cases[i].id != cases[j].id
    ensures var d' := Sweep(d, Jobs(tenancies, cases, today));
            && (forall i | 0 <= i < |tenancies| && !tenancies[i].archived :: TenancyFlagged(d', tenancies[i], today))
            && (forall i | 0 <= i < |cases| && !cases[i].archived :: CaseFlagged(d', cases[i], today))
  {
    var jobs := Jobs(tenancies, cases, today);
    var d' := Sweep(d, jobs);
    JobsAreOrderly(tenancies, cases, today);
    SweepSettles(d, jobs);
    forall i | 0 <= i < |tenancies| && !tenancies[i].archived ensures TenancyFlagged(d', tenancies[i], today) {
      assert Settled(d', jobs[i].scope, jobs[i].decisions);
      SettledTenancyIsFlagged(d', tenancies[i], today);
    }
    forall i | 0 <= i < |cases| && !cases[i].archived ensures CaseFlagged(d', cases[i], today) {
      assert Settled(d', jobs[|tenancies| + i].scope, jobs[|tenancies| + i].decisions);
      SettledCaseIsFlagged(d', cases[i], today);
    }
  }

  // Whole runs: whatever is raised, cleared, acknowledged, evaluated or swept, from an empty table.

  datatype Op =
    | RaiseOp(scope: Scope, code: RiskCode)
    | ClearOp(scope: Scope, code: RiskCode)
    | AcknowledgeOp(flag: nat)
    | TenancyOp(tenancy: TenancyFacts, today: int)
    | CaseOp(renewalCase: CaseFacts, today: int)
    | SweepOp(tenancies: seq<TenancyFacts>, cases: seq<CaseFacts>, today: int)

  /** An acknowledgement is given while a flag of that scope and code is active. */
  predicate Allowed(d: Desk, op: Op) {
    op.AcknowledgeOp? ==> op.flag < |d.flags| && AcknowledgesActive(d, op.flag)
  }

  function Apply(d: Desk, op: Op): Desk
    requires Allowed(d, op)
  {
    match op
    case RaiseOp(sc, code) => Raise(d, sc, code)
    case ClearOp(sc, code) => Clear(d, sc, code)
    case AcknowledgeOp(i) => Acknowledge(d, i)
    case TenancyOp(t, today) => EvaluateTenancy(d, t, today)
    case CaseOp(c, today) => EvaluateCase(d, c, today)
    case SweepOp(tenancies, cases, today) => Sweep(d, Jobs(tenancies, cases, today))
  }

  ghost predicate Run(d: Desk, ops: seq<Op>, d': Desk)
    decreases |ops|
  {
    if ops == [] then d == d' else Allowed(d, ops[0]) && Run(Apply(d, ops[0]), ops[1..], d')
  }

  lemma ApplyFaithful(d: Desk, op: Op)
    requires Faithful(d) && Allowed(d, op)
    ensures Faithful(Apply(d, op))
  {
    match op
    case RaiseOp(sc, code) => SettleFaithful(d, sc, Decision(code, true));
    case ClearOp(sc, code) => SettleFaithful(d, sc, Decision(code, false));
    case AcknowledgeOp(i) => AcknowledgeFaithfulIffActive(d, i);
    case TenancyOp(t, today) => SettleAllFaithful(d, Scope(TENANCY, t.id), TenancyDecisions(t, today));
    case CaseOp(c, today) => SettleAllFaithful(d, Scope(RENEWAL_CASE, c.id), CaseDecisions(c, today));
    case SweepOp(tenancies, cases, today) => SweepFaithful(d, Jobs(tenancies, cases, today));
  }

  lemma {:induction false} RunFaithful(d: Desk, ops: seq<Op>, d': Desk)
    requires Faithful(d) && Run(d, ops, d')
    ensures Faithful(d')
    decreases |ops|
  {
    if ops == [] {
    } else {
      ApplyFaithful(d, ops[0]);
      RunFaithful(Apply(d, ops[0]), ops[1..], d');
    }
  }

  lemma {:induction false} ReplayOfPrefix(log: seq<LedgerEvent>, k: nat, sc: Scope, code: RiskCode)
    requires k <= |log| && Replay(log, sc, code).Some?
    ensures Replay(log[..k], sc, code).Some?
    decreases |log|
  {
    if k == |log| {
      assert log[..k] == log;
    } else {
      var shorter := log[..|log| - 1];
      ReplayOfPrefix(shorter, k, sc, code);
      assert shorter[..k] == log[..k];
    }
  }

  /**
   Over any run from an empty table and at every moment of its ledger, raised and cleared events of a scope
   and code alternate, raised first; at the end the flag is active exactly when raised leads by one, and
   there is never a second one.
   */
  lemma LedgerAlternates(ops: seq<Op>, d: Desk, k: nat, sc: Scope, code: RiskCode)
    requires Run(Desk([], []), ops, d) && k <= |d.log|
    ensures 0 <= RaisedMinusCleared(d.log[..k], sc, code) <= 1
    ensures RaisedMinusCleared(d.log, sc, code) == if HasActive(d, sc, code) then 1 else 0
    ensures forall i, j | 0 <= i < j < |d.flags| ::
              !(d.flags[i].ActiveFor(sc, code) && d.flags[j].ActiveFor(sc, code))
  {
    assert Faithful(Desk([], []));
    RunFaithful(Desk([], []), ops, d);
    FlagsMatchLedger(d, sc, code);
    assert Replay(d.log, sc, code) == Some(HasActive(d, sc, code));
    ReplayOfPrefix(d.log, k, sc, code);
    ReplayCounts(d.log[..k], sc, code);
  }

  /** The flag table and its ledger, changed in place. */
  class RiskDesk {
    var flags: seq<Flag>
    var log: seq<LedgerEvent>

    function State(): Desk
      reads this
    {
      Desk(flags, log)
    }

    constructor ()
      ensures State() == Desk([], []) && Faithful(State())
    {
      flags, log := [], [];
    }

    method FindActive(sc: Scope, code: RiskCode) returns (open: Option<nat>)
      ensures open == FirstActive(flags, sc, code)
    {
      var i := 0;
      while i < |flags|
        invariant 0 <= i <= |flags|
        invariant FirstActive(flags, sc, code) == FirstActiveFrom(flags, sc, code, i)
      {
        if flags[i].scope == sc && flags[i].code == code && flags[i].status != Cleared { return Some(i); }
        i := i + 1;
      }
      open := None;
    }

    method RaiseFlag(sc: Scope, code: RiskCode)
      modifies this
      ensures State() == Raise(old(State()), sc, code)
      ensures old(Faithful(State())) ==> Faithful(State())
    {
      ghost var was := State();
      var open := FindActive(sc, code);
      if open.None? {
        flags := flags + [Flag(sc, code, Open)];
        log := log + [FlagRaised(sc, code)];
      }
      if Faithful(was) { SettleFaithful(was, sc, Decision(code, true)); }
    }

    method ClearFlag(sc: Scope, code: RiskCode)
      modifies this
      ensures State() == Clear(old(State()), sc, code)
      ensures old(Faithful(State())) ==> Faithful(State())
    {
      ghost var was := State();
      var open := FindActive(sc, code);
      if open.Some? {
        flags := flags[open.value := flags[open.value].(status := Cleared)];
        log := log + [FlagCleared(sc, code)];
      }
      if Faithful(was) { SettleFaithful(was, sc, Decision(code, false)); }
    }

    /** Refused for an unknown row, and by the unique index beside an active flag of the same scope and code. */
    method AcknowledgeFlag(i: nat) returns (ok: bool)
      modifies this
      ensures ok <==> i < |old(flags)| && MayAcknowledge(old(State()), i)
      ensures State() == if i < |old(flags)| then Acknowledge(old(State()), i) else old(State())
    {
      if i >= |flags| { return false; }
      if flags[i].status == Cleared {
        var active := FindActive(flags[i].scope, flags[i].code);
        if active.Some? { return false; }
      }
      flags := flags[i := flags[i].(status := Acknowledged)];
      ok := true;
    }

    method EvaluateRiskForTenancy(t: TenancyFacts, today: int)
      modifies this
      ensures State() == EvaluateTenancy(old(State()), t, today)
      ensures old(Faithful(State())) ==> Faithful(State())
    {
      if t.archived { return; }
      ghost var was := State();
      var sc := Scope(TENANCY, t.id);
      if !Truthy(t.ejariNo) { RaiseFlag(sc, MISSING_EJARI); } else { ClearFlag(sc, MISSING_EJARI); }
      if t.endDay == 0 { RaiseFlag(sc, MISSING_END_DATE); } else { ClearFlag(sc, MISSING_END_DATE); }
      if t.amounts != [] {
        if SumAmounts(t.amounts) != t.annualRent { RaiseFlag(sc, CHEQUE_TOTAL_MISMATCH); }
          else { ClearFlag(sc, CHEQUE_TOTAL_MISMATCH); }
      }
      if t.openGateDay.Some? && 0 <= DaysBetween(today, t.openGateDay.value) <= 30 {
        RaiseFlag(sc, NOTICE_GATE_WITHIN_30D);
      } else {
        ClearFlag(sc, NOTICE_GATE_WITHIN_30D);
      }
      TenancyUnrolled(was, t, today);
    }

    method EvaluateRenewalRisk(c: CaseFacts, today: int)
      modifies this
      ensures State() == EvaluateCase(old(State()), c, today)
      ensures old(Faithful(State())) ==> Faithful(State())
    {
      if c.archived { return; }
      ghost var was := State();
      var sc := Scope(RENEWAL_CASE, c.id);
      var ceiling := if c.offerRent.Some? && c.offerSnapshot.Some? then c.offerSnapshot else c.captureMax;
      if ceiling.Some? && c.offerRent.Some? && c.offerRent.value > ceiling.value {
        RaiseFlag(sc, PROPOSED_INCREASE_ABOVE_INDEX_BAND);
      } else {
        ClearFlag(sc, PROPOSED_INCREASE_ABOVE_INDEX_BAND);
      }
      var gatePassed := c.noticeGateDay.Some? && today > c.noticeGateDay.value;
      if gatePassed && !c.noticeServed {
        RaiseFlag(sc, RENEWAL_NOTICE_WINDOW_MISSED);
      } else {
        ClearFlag(sc, RENEWAL_NOTICE_WINDOW_MISSED);
      }
      TwoSettled(was, sc, CaseDecisions(c, today));
    }

    method EvaluateWorkspaceRisk(tenancies: seq<TenancyFacts>, cases: seq<CaseFacts>, today: int)
      modifies this
      ensures State() == Sweep(old(State()), Jobs(tenancies, cases, today))
      ensures old(Faithful(State())) ==> Faithful(State())
    {
      ghost var jobs := Jobs(tenancies, cases, today);
      ghost var was := State();
      var i := 0;
      while i < |tenancies|
        invariant i <= |tenancies|
        invariant Sweep(was, jobs) == Sweep(State(), jobs[i..])
      {
        assert jobs[i..][0] == jobs[i] && jobs[i..][1..] == jobs[i + 1..];
        EvaluateRiskForTenancy(tenancies[i], today);
        i := i + 1;
      }
      var k := 0;
      while k < |cases|
        invariant k <= |cases|
        invariant Sweep(was, jobs) == Sweep(State(), jobs[|tenancies| + k..])
      {
        var j := |tenancies| + k;
        assert jobs[j..][0] == jobs[j] && jobs[j..][1..] == jobs[j + 1..];
        EvaluateRenewalRisk(cases[k], today);
        k := k + 1;
      }
      if Faithful(was) { SweepFaithful(was, jobs); }
    }
  }

  lemma OneSettled(d: Desk, sc: Scope, xs: seq<Decision>)
    requires |xs| == 1
    ensures SettleAll(d, sc, xs) == Settle(d, sc, xs[0])
  {
    assert SettleAll(Settle(d, sc, xs[0]), sc, xs[1..]) == Settle(d, sc, xs[0]);
  }

  lemma TwoSettled(d: Desk, sc: Scope, xs: seq<Decision>)
    requires |xs| == 2
    ensures SettleAll(d, sc, xs) == Settle(Settle(d, sc, xs[0]), sc, xs[1])
  {
    OneSettled(Settle(d, sc, xs[0]), sc, xs[1..]);
  }

  lemma TenancyUnrolled(d: Desk, t: TenancyFacts, today: int)
    requires !t.archived
    ensures var sc := Scope(TENANCY, t.id);
            var d2 := Settle(Settle(d, sc, Decision(MISSING_EJARI, !Truthy(t.ejariNo))), sc,
              Decision(MISSING_END_DATE, t.endDay == 0));
            var d3 := if t.amounts == [] then d2
                      else Settle(d2, sc, Decision(CHEQUE_TOTAL_MISMATCH, SumAmounts(t.amounts) != t.annualRent));
            EvaluateTenancy(d, t, today) == Settle(d3, sc, Decision(NOTICE_GATE_WITHIN_30D, GateWithin30Days(t, today)))
  {
    var sc := Scope(TENANCY, t.id);
    var xs := TenancyDecisions(t, today);
    var d2 := Settle(Settle(d, sc, xs[0]), sc, xs[1]);
    var d1 := Settle(d, sc, xs[0]);
    assert SettleAll(d, sc, xs) == SettleAll(d1, sc, xs[1..]);
    assert xs[1..][0] == xs[1] && xs[1..][1..] == xs[2..];
    assert SettleAll(d1, sc, xs[1..]) == SettleAll(d2, sc, xs[2..]);
    if t.amounts == [] {
      OneSettled(d2, sc, xs[2..]);
    } else {
      TwoSettled(d2, sc, xs[2..]);
    }
  }
}
