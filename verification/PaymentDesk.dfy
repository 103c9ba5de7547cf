/**
 Replacing a schedule end to end: items, then the deadlines derived from them, then the risk rules
 that read both. Also the schedule a successor tenancy is minted with.
 */
module PaymentDesk {
  import opened Common
  import opened Cheques
  import opened Payments
  import Risk
  import Deadlines

  datatype TenancyRecord = TenancyRecord(dates: Deadlines.Tenancy, ejariNo: Option<string>, annualRent: int)

  /** The tenancy's items as the regeneration reads them, in row order. */
  function ItemsOf(rows: seq<Option<PaymentItem>>, t: nat): seq<Deadlines.Item>
    decreases |rows|
  {
    if rows == [] then []
    else
      var n := |rows| - 1;
      ItemsOf(rows[..n], t)
      + (if OfTenancy(rows[n], t) then [Deadlines.Item(n, rows[n].value.dueDay, rows[n].value.status == CANCELLED)]
        else [])
  }

  /** The amounts of the tenancy's items that are not cancelled. */
  function AmountsOf(rows: seq<Option<PaymentItem>>, t: nat): seq<int>
    decreases |rows|
  {
    if rows == [] then []
    else
      var n := |rows| - 1;
      AmountsOf(rows[..n], t)
      + (if OfTenancy(rows[n], t) && rows[n].value.status != CANCELLED then [rows[n].value.amount] else [])
  }

  function FactsOf(rec: TenancyRecord, rows: seq<Option<PaymentItem>>, ds: seq<Deadlines.Deadline>): Risk.TenancyFacts {
    var t := rec.dates.id;
    var gate := Deadlines.FirstOpenFrom(ds, t, Deadlines.NOTICE_GATE, None, 0);
    Risk.TenancyFacts(t, rec.dates.archived, rec.ejariNo, rec.dates.endDay, AmountsOf(rows, t), rec.annualRent,
                      if gate.Some? then Some(ds[gate.value].dueDay) else None)
  }

  datatype Desk = Desk(book: Book, deadlines: seq<Deadlines.Deadline>)

  datatype Outcome = Scheduled(rec: TenancyRecord) | DuplicateSeqs | BadNoticePeriod

  /** The items are committed first; a bad notice period then stops the derivations, not the items. */
  function ScheduleAndDerive(s: Desk, rec: TenancyRecord, xs: seq<PaymentItemInput>, today: int): (Desk, Outcome) {
    var t := rec.dates.id;
    var replaced := ReplaceSchedule(s.book, t, xs);
    if replaced.Err? then (s, DuplicateSeqs)
    else
      var book := replaced.value;
      var regenerated := Deadlines.Regenerate(s.deadlines, rec.dates, ItemsOf(book.rows, t));
      if regenerated.Err? then (Desk(book, s.deadlines), BadNoticePeriod)
      else
        var (ds, dates) := regenerated.value;
        var rec' := rec.(dates := dates);
        (Desk(book.(risk := Risk.EvaluateTenancy(book.risk, FactsOf(rec', book.rows, ds), today)), ds), Scheduled(rec'))
  }

  predicate IsItem(x: Deadlines.Item, rows: seq<Option<PaymentItem>>, t: nat) {
    && x.id < |rows| && OfTenancy(rows[x.id], t)
    && x == Deadlines.Item(x.id, rows[x.id].value.dueDay, rows[x.id].value.status == CANCELLED)
  }

  lemma {:induction false} ItemsOfIds(rows: seq<Option<PaymentItem>>, t: nat)
    ensures Deadlines.DistinctItems(ItemsOf(rows, t))
    ensures forall k | 0 <= k < |ItemsOf(rows, t)| :: IsItem(ItemsOf(rows, t)[k], rows, t)
    decreases |rows|
  {
    if rows == [] {
    } else {
      var n := |rows| - 1;
      var before, all := ItemsOf(rows[..n], t), ItemsOf(rows, t);
      ItemsOfIds(rows[..n], t);
      forall k | 0 <= k < |all| ensures IsItem(all[k], rows, t) && (k < |before| ==> all[k].id < n) {
        if k < |before| { assert all[k] == before[k] && IsItem(before[k], rows[..n], t); }
      }
    }
  }

  lemma {:induction false} ItemsOfComplete(rows: seq<Option<PaymentItem>>, t: nat, id: nat)
    requires id < |rows| && OfTenancy(rows[id], t)
    ensures Deadlines.Item(id, rows[id].value.dueDay, rows[id].value.status == CANCELLED) in ItemsOf(rows, t)
    decreases |rows|
  {
    if id < |rows| - 1 { ItemsOfComplete(rows[..|rows| - 1], t, id); }
  }

  function DueDeadline(t: nat, id: nat, item: PaymentItem): Deadlines.Deadline {
    Deadlines.FreshDeadline(t, Deadlines.CHEQUE_DUE, item.dueDay, Some(id))
  }

  /** The mirror said in terms of payment rows. */
  lemma MirrorOfRows(ds: seq<Deadlines.Deadline>, t: nat, endDay: int, notice: int, rows: seq<Option<PaymentItem>>)
    requires Deadlines.Mirrors(ds, t, endDay, notice, ItemsOf(rows, t))
    ensures forall id: nat | id < |rows| && OfTenancy(rows[id], t) && rows[id].value.status != CANCELLED ::
              DueDeadline(t, id, rows[id].value) in ds
    ensures forall d | d in ds && Deadlines.Matches(d, t, Deadlines.CHEQUE_DUE, None) ::
              && d.discriminator.Some? && d.discriminator.value < |rows|
              && OfTenancy(rows[d.discriminator.value], t) && rows[d.discriminator.value].value.status != CANCELLED
  {
    var items := ItemsOf(rows, t);
    ItemsOfIds(rows, t);
    forall id: nat | id < |rows| && OfTenancy(rows[id], t) && rows[id].value.status != CANCELLED
      ensures DueDeadline(t, id, rows[id].value) in ds
    {
      ItemsOfComplete(rows, t, id);
      var x := Deadlines.Item(id, rows[id].value.dueDay, false);
      var k :| 0 <= k < |items| && items[k] == x;
      assert Deadlines.ChequeDeadline(t, items[k]) in ds;
    }
    forall d | d in ds && Deadlines.Matches(d, t, Deadlines.CHEQUE_DUE, None)
      ensures d.discriminator.Some? && d.discriminator.value < |rows|
              && OfTenancy(rows[d.discriminator.value], t) && rows[d.discriminator.value].value.status != CANCELLED
    {
      assert Deadlines.DerivedOpen(d, t);
      var k :| 0 <= k < |items| && items[k].id == d.discriminator.value && !items[k].cancelled;
    }
  }

  /** Deadlines and cached gate agree with the items and the term, and regenerating them changes nothing. */
  ghost predicate DeadlinesTrue(dates: Deadlines.Tenancy, items: seq<Deadlines.Item>, ds: seq<Deadlines.Deadline>) {
    && Deadlines.Mirrors(ds, dates.id, dates.endDay, dates.noticePeriodDays, items)
    && dates.noticeGateDay == Some(dates.endDay - dates.noticePeriodDays)
    && Deadlines.Regenerate(ds, dates, items) == Ok((ds, dates))
  }

  lemma DeadlinesSettle(ds: seq<Deadlines.Deadline>, dates: Deadlines.Tenancy, items: seq<Deadlines.Item>)
    requires Deadlines.Tidy(ds, dates.id) && Deadlines.DistinctItems(items) && !dates.archived
    requires dates.noticePeriodDays > 0
    ensures var r := Deadlines.Regenerate(ds, dates, items);
            && r.Ok? && DeadlinesTrue(r.value.1, items, r.value.0)
            && r.value.1 == dates.(noticeGateDay := Some(dates.endDay - dates.noticePeriodDays))
  {
    Deadlines.RegenerateMirrors(ds, dates, items);
    Deadlines.RegenerateTwiceIsOnce(ds, dates, items);
  }

  /**
   The mismatch flag is up exactly when the amounts do not add up to the rent, and evaluating again
   writes nothing.
   */
  ghost predicate RiskTrue(facts: Risk.TenancyFacts, risk: Risk.Desk, today: int) {
    && (facts.amounts != [] ==>
          Risk.HasActive(risk, Risk.Scope(Risk.TENANCY, facts.id), Risk.CHEQUE_TOTAL_MISMATCH)
          == (Risk.SumAmounts(facts.amounts) != facts.annualRent))
    && Risk.EvaluateTenancy(risk, facts, today) == risk
  }

  lemma RiskSettles(risk: Risk.Desk, facts: Risk.TenancyFacts, today: int)
    requires Risk.OneActive(risk.flags) && !facts.archived
    ensures RiskTrue(facts, Risk.EvaluateTenancy(risk, facts, today), today)
  {
    Risk.TenancyFlagsTellTheTruth(risk, facts, today);
  }

  /**
   A committed schedule of a live tenancy: the items are replaced, the deadline table mirrors them and
   the term, the gate is cached, the cheque-total flag tells the truth, and deriving again changes nothing.
   */
  lemma ScheduleIsConsistent(s: Desk, rec: TenancyRecord, xs: seq<PaymentItemInput>, today: int)
    requires Risk.OneActive(s.book.risk.flags) && Deadlines.Tidy(s.deadlines, rec.dates.id)
    requires DistinctSeqs(xs) && !rec.dates.archived && rec.dates.noticePeriodDays > 0
    ensures var (s', out) := ScheduleAndDerive(s, rec, xs, today);
            && out.Scheduled?
            && s'.book.rows == ReplaceSchedule(s.book, rec.dates.id, xs).value.rows
            && out.rec == rec.(dates := rec.dates.(noticeGateDay := out.rec.dates.noticeGateDay))
            && DeadlinesTrue(out.rec.dates, ItemsOf(s'.book.rows, rec.dates.id), s'.deadlines)
            && RiskTrue(FactsOf(out.rec, s'.book.rows, s'.deadlines), s'.book.risk, today)
  {
    var book := ReplaceSchedule(s.book, rec.dates.id, xs).value;
    ItemsOfIds(book.rows, rec.dates.id);
    DeadlinesSettle(s.deadlines, rec.dates, ItemsOf(book.rows, rec.dates.id));
    var (ds, dates) := Deadlines.Regenerate(s.deadlines, rec.dates, ItemsOf(book.rows, rec.dates.id)).value;
    RiskSettles(book.risk, FactsOf(rec.(dates := dates), book.rows, ds), today);
  }

  // Minting: a tenancy that owns no item yet gets the even schedule.

  ghost predicate NoItems(rows: seq<Option<PaymentItem>>, t: nat) {
    forall i | 0 <= i < |rows| :: !OfTenancy(rows[i], t)
  }

  function NewItems(t: nat, xs: seq<PaymentItemInput>): seq<Option<PaymentItem>> {
    seq(|xs|, i requires 0 <= i < |xs| => NewItem(t, xs[i]))
  }

  lemma {:induction false} AllAdded(rows: seq<Option<PaymentItem>>, t: nat, xs: seq<PaymentItemInput>)
    requires DistinctSeqs(xs)
    requires forall k | 0 <= k < |xs| :: !HeldSeq(rows, t, xs[k].seqNo)
    ensures AddItems(rows, t, xs) == rows + NewItems(t, xs)
    decreases |xs|
  {
    if xs == [] {
    } else {
      AppendHeld(rows, t, xs[0]);
      AllAdded(rows + [NewItem(t, xs[0])], t, xs[1..]);
      assert NewItems(t, xs) == [NewItem(t, xs[0])] + NewItems(t, xs[1..]);
    }
  }

  function InputAmounts(xs: seq<PaymentItemInput>): seq<int> {
    seq(|xs|, i requires 0 <= i < |xs| => xs[i].amount)
  }

  lemma {:induction false} AmountsOfNone(rows: seq<Option<PaymentItem>>, t: nat)
    requires NoItems(rows, t)
    ensures AmountsOf(rows, t) == []
    decreases |rows|
  {
    if rows == [] {
    } else {
      AmountsOfNone(rows[..|rows| - 1], t);
    }
  }

  lemma {:induction false} AmountsOfNew(rows: seq<Option<PaymentItem>>, t: nat, xs: seq<PaymentItemInput>)
    requires NoItems(rows, t)
    ensures AmountsOf(rows + NewItems(t, xs), t) == InputAmounts(xs)
    decreases |xs|
  {
    if xs == [] {
      assert rows + NewItems(t, xs) == rows;
      AmountsOfNone(rows, t);
    } else {
      var n := |xs| - 1;
      var all := rows + NewItems(t, xs);
      assert all[..|all| - 1] == rows + NewItems(t, xs[..n]);
      AmountsOfNew(rows, t, xs[..n]);
      assert InputAmounts(xs) == InputAmounts(xs[..n]) + [xs[n].amount];
    }
  }

  lemma {:induction false} SumOfInputs(xs: seq<PaymentItemInput>)
    ensures Risk.SumAmounts(InputAmounts(xs)) == SumInputs(xs)
    decreases |xs|
  {
    if xs == [] {
    } else {
      SumOfInputs(xs[1..]);
      assert InputAmounts(xs)[1..] == InputAmounts(xs[1..]);
    }
  }

  /** Minting with a cheque count never leaves the cheque-total flag up on the successor. */
  lemma MintedScheduleMatchesRent(s: Desk, rec: TenancyRecord, startDay: int, chequeCount: int, today: int)
    requires BookInv(s.book) && Deadlines.Tidy(s.deadlines, rec.dates.id) && NoItems(s.book.rows, rec.dates.id)
    requires !rec.dates.archived && rec.dates.noticePeriodDays > 0 && chequeCount > 0
    ensures var xs := EvenChequeSchedule(startDay, rec.dates.endDay, rec.annualRent, chequeCount);
            var (s', out) := ScheduleAndDerive(s, rec, xs, today);
            && out.Scheduled?
            && s'.book.rows == s.book.rows + NewItems(rec.dates.id, xs)
            && !Risk.HasActive(s'.book.risk, Risk.Scope(Risk.TENANCY, rec.dates.id), Risk.CHEQUE_TOTAL_MISMATCH)
  {
    var t := rec.dates.id;
    var xs := EvenChequeSchedule(startDay, rec.dates.endDay, rec.annualRent, chequeCount);
    ScheduleShape(startDay, rec.dates.endDay, rec.annualRent, chequeCount);
    ScheduleSumsToRent(startDay, rec.dates.endDay, rec.annualRent, chequeCount);
    assert DeleteMovable(s.book.rows, t) == s.book.rows;
    AllAdded(s.book.rows, t, xs);
    AmountsOfNew(s.book.rows, t, xs);
    SumOfInputs(xs);
    ScheduleIsConsistent(s, rec, xs, today);
  }

  /** The register with its collaborators, changed in place. */
  class PaymentRegister {
    var rows: seq<Option<PaymentItem>>
    var log: seq<PaymentEvent>
    const risk: Risk.RiskDesk
    const deadlines: Deadlines.DeadlineTable

    function State(): Desk
      reads this, risk, deadlines
    {
      Desk(Book(rows, log, risk.State()), deadlines.rows)
    }

    constructor (risk: Risk.RiskDesk, deadlines: Deadlines.DeadlineTable)
      ensures rows == [] && log == [] && this.risk == risk && this.deadlines == deadlines
    {
      rows, log := [], [];
      this.risk, this.deadlines := risk, deadlines;
    }

    method TransitionPayment(id: nat, to: PaymentStatus) returns (r: Result<PaymentItem, PaymentError>)
      modifies this, risk
      ensures var spec := Payments.TransitionPayment(old(State()).book, id, to);
              && State().deadlines == old(State()).deadlines
              && State().book == (if spec.Ok? then spec.value else old(State()).book)
              && (r.Err? <==> spec.Err?) && (r.Err? ==> r.error == spec.error)
              && (r.Ok? ==> Some(r.value) == rows[id])
    {
      if id >= |rows| || rows[id].None? { return Err(NotFound); }
      var item := rows[id].value;
      if to !in Transitions(item.status) { return Err(InvalidTransition); }
      rows := rows[id := Some(item.(status := to))];
      var ev := TransitionEvidence(to);
      if ev.Some? { log := log + [PaymentEvent(id, ev.value)]; }
      if to in {RECEIVED, CLEARED, CANCELLED} { risk.ClearFlag(LateScope(id), Risk.PAYMENT_LATE); }
      r := Ok(item.(status := to));
    }

    method DetectLatePayments(today: int)
      modifies this, risk
      ensures State() == Desk(DetectLateFrom(old(State()).book, today, 0), old(State()).deadlines)
    {
      ghost var was := State().book;
      var i := 0;
      while i < |rows|
        invariant 0 <= i <= |rows|
        invariant DetectLateFrom(was, today, 0) == DetectLateFrom(State().book, today, i)
        invariant deadlines.rows == old(deadlines.rows)
      {
        if Overdue(rows[i], today) {
          rows := rows[i := Some(rows[i].value.(status := LATE))];
          risk.RaiseFlag(LateScope(i), Risk.PAYMENT_LATE);
        }
        i := i + 1;
      }
    }

    /** Clears the schedule's movable items, then adds the requested ones. */
    method ReplaceItems(t: nat, xs: seq<PaymentItemInput>)
      modifies `rows
      ensures rows == AddItems(DeleteMovable(old(rows), t), t, xs)
    {
      var was := rows;
      var i := 0;
      while i < |rows|
        invariant 0 <= i <= |rows| == |was|
        invariant forall k | 0 <= k < |rows| :: rows[k] == if k < i && Movable(was[k], t) then None else was[k]
      {
        if Movable(rows[i], t) { rows := rows[i := None]; }
        i := i + 1;
      }
      assert rows == DeleteMovable(was, t);
      var k := 0;
      while k < |xs|
        invariant 0 <= k <= |xs|
        invariant AddItems(DeleteMovable(was, t), t, xs) == AddItems(rows, t, xs[k..])
      {
        assert xs[k..][0] == xs[k] && xs[k..][1..] == xs[k + 1..];
        if !HeldSeq(rows, t, xs[k].seqNo) {
          rows := rows + [Some(PaymentItem(t, xs[k].seqNo, xs[k].dueDay, xs[k].amount, SCHEDULED))];
        }
        k := k + 1;
      }
    }

    method SetPaymentSchedule(rec: TenancyRecord, xs: seq<PaymentItemInput>, today: int) returns (out: Outcome)
      modifies this, risk, deadlines
      ensures (State(), out) == ScheduleAndDerive(old(State()), rec, xs, today)
    {
      if !DistinctSeqs(xs) { return DuplicateSeqs; }
      ReplaceItems(rec.dates.id, xs);
      var regenerated := deadlines.RegenerateDeadlinesForTenancy(rec.dates, ItemsOf(rows, rec.dates.id));
      if regenerated.Err? { return BadNoticePeriod; }
      var rec' := rec.(dates := regenerated.value);
      risk.EvaluateRiskForTenancy(FactsOf(rec', rows, deadlines.rows), today);
      out := Scheduled(rec');
    }
  }
}
