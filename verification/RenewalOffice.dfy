/**
 Completing and archiving end to end: the renewal tables together with the payment register, the deadline
 table and the risk desk they share.
 */
module RenewalOffice {
  import opened Common
  import opened Dates
  import opened Renewals
  import opened RenewalCalls
  import opened Stranding
  import Cheques
  import Payments
  import PaymentDesk
  import Deadlines
  import Risk
  import RenewalDesk
  import RenewalEffects

  /** Everything a completion or an archiving writes. `gates` caches the notice gate of each tenancy. */
  datatype Books = Books(tables: State, payments: PaymentDesk.Desk, gates: map<nat, int>)

  /** A minted tenancy as the schedule code reads it; it has no Ejari number yet. */
  function RecordOf(row: Tenancy, id: nat): PaymentDesk.TenancyRecord {
    PaymentDesk.TenancyRecord(
      Deadlines.Tenancy(id, row.endDay, row.noticePeriodDays, row.archivedAt.Some?, None), None, row.annualRent)
  }

  /** Without cheques the deadlines and the risk are still derived. */
  function DeriveOnly(p: PaymentDesk.Desk, rec: PaymentDesk.TenancyRecord, today: int)
    : (PaymentDesk.Desk, PaymentDesk.Outcome)
  {
    var regenerated := Deadlines.Regenerate(p.deadlines, rec.dates, PaymentDesk.ItemsOf(p.book.rows, rec.dates.id));
    if regenerated.Err? then (p, PaymentDesk.BadNoticePeriod)
    else
      var (ds, dates) := regenerated.value;
      var rec' := rec.(dates := dates);
      var risk := Risk.EvaluateTenancy(p.book.risk, PaymentDesk.FactsOf(rec', p.book.rows, ds), today);
      (PaymentDesk.Desk(p.book.(risk := risk), ds), PaymentDesk.Scheduled(rec'))
  }

  function Rearm(p: PaymentDesk.Desk, rec: PaymentDesk.TenancyRecord, input: MintInput, chequeCount: int, today: int)
    : (PaymentDesk.Desk, PaymentDesk.Outcome)
  {
    if chequeCount <= 0 then DeriveOnly(p, rec, today)
    else
      var xs := Cheques.EvenChequeSchedule(DayOf(input.startMs), DayOf(input.endMs), input.annualRent, chequeCount);
      PaymentDesk.ScheduleAndDerive(p, rec, xs, today)
  }

  function Cached(gates: map<nat, int>, out: PaymentDesk.Outcome): map<nat, int> {
    if out.Scheduled? && out.rec.dates.noticeGateDay.Some?
    then gates[out.rec.dates.id := out.rec.dates.noticeGateDay.value] else gates
  }

  /** Mint, then re-arm the successor; when that stops on a bad notice period the successor stays minted. */
  function Complete(k: Books, c: nat, input: MintInput, chequeCount: int, today: int)
    : (r: (Books, Result<nat, Refusal>))
  {
    var minted := MintTransaction(k.tables, c, input);
    if minted.reply.Err? then (k, minted.reply)
    else
      var id := |k.tables.tenancies|;
      var (payments, out) := Rearm(k.payments, RecordOf(minted.state.tenancies[id], id), input, chequeCount, today);
      (Books(minted.state, payments, Cached(k.gates, out)), if out.Scheduled? then Ok(id) else Err(Uncaught))
  }

  lemma DerivingAlone(p: PaymentDesk.Desk, rec: PaymentDesk.TenancyRecord, today: int)
    requires Risk.OneActive(p.book.risk.flags) && Deadlines.Tidy(p.deadlines, rec.dates.id)
    requires !rec.dates.archived && rec.dates.noticePeriodDays > 0
    ensures var (p', out) := DeriveOnly(p, rec, today);
            && out.Scheduled? && p'.book.rows == p.book.rows
            && out.rec == rec.(dates := rec.dates.(noticeGateDay := out.rec.dates.noticeGateDay))
            && PaymentDesk.DeadlinesTrue(out.rec.dates, PaymentDesk.ItemsOf(p'.book.rows, rec.dates.id), p'.deadlines)
            && PaymentDesk.RiskTrue(PaymentDesk.FactsOf(out.rec, p'.book.rows, p'.deadlines), p'.book.risk, today)
  {
    PaymentDesk.ItemsOfIds(p.book.rows, rec.dates.id);
    PaymentDesk.DeadlinesSettle(p.deadlines, rec.dates, PaymentDesk.ItemsOf(p.book.rows, rec.dates.id));
    var (ds, dates) := Deadlines.Regenerate(p.deadlines, rec.dates,
      PaymentDesk.ItemsOf(p.book.rows, rec.dates.id)).value;
    PaymentDesk.RiskSettles(p.book.risk, PaymentDesk.FactsOf(rec.(dates := dates), p.book.rows, ds), today);
  }

  /** The successor's books are straight: what the tables derive from the new rows agrees with them. */
  ghost predicate Straight(k: Books, id: nat, today: int) {
    && id < |k.tables.tenancies| && id in k.gates
    && var row := k.tables.tenancies[id];
       var rec := RecordOf(row, id);
       var rec' := rec.(dates := rec.dates.(noticeGateDay := Some(k.gates[id])));
       var rows, ds := k.payments.book.rows, k.payments.deadlines;
       && PaymentDesk.DeadlinesTrue(rec'.dates, PaymentDesk.ItemsOf(rows, id), ds)
       && PaymentDesk.RiskTrue(PaymentDesk.FactsOf(rec', rows, ds), k.payments.book.risk, today)
  }

  /** The tenancy about to be minted has no items yet, and its part of the deadline table is tidy. */
  ghost predicate FreshFor(p: PaymentDesk.Desk, id: nat) {
    PaymentDesk.NoItems(p.book.rows, id) && Deadlines.Tidy(p.deadlines, id)
  }

  lemma ScheduleDistinct(startDay: int, endDay: int, annualRent: int, chequeCount: int)
    requires chequeCount > 0
    ensures Payments.DistinctSeqs(Cheques.EvenChequeSchedule(startDay, endDay, annualRent, chequeCount))
  {
    Cheques.ScheduleShape(startDay, endDay, annualRent, chequeCount);
  }

  lemma RearmedStraight(p: PaymentDesk.Desk, rec: PaymentDesk.TenancyRecord, input: MintInput, chequeCount: int,
      today: int)
    requires Payments.BookInv(p.book) && FreshFor(p, rec.dates.id)
    requires !rec.dates.archived && rec.dates.noticePeriodDays > 0
    ensures var (p', out) := Rearm(p, rec, input, chequeCount, today);
            && out.Scheduled?
            && out.rec == rec.(dates := rec.dates.(noticeGateDay := out.rec.dates.noticeGateDay))
            && PaymentDesk.DeadlinesTrue(out.rec.dates, PaymentDesk.ItemsOf(p'.book.rows, rec.dates.id), p'.deadlines)
            && PaymentDesk.RiskTrue(PaymentDesk.FactsOf(out.rec, p'.book.rows, p'.deadlines), p'.book.risk, today)
  {
    if chequeCount <= 0 {
      DerivingAlone(p, rec, today);
    } else {
      ScheduleDistinct(DayOf(input.startMs), DayOf(input.endMs), input.annualRent, chequeCount);
      var xs := Cheques.EvenChequeSchedule(DayOf(input.startMs), DayOf(input.endMs), input.annualRent, chequeCount);
      PaymentDesk.ScheduleIsConsistent(p, rec, xs, today);
    }
  }

  /** The row a mint adds. */
  lemma MintedRow(s: State, c: nat, input: MintInput)
    requires MintTransaction(s, c, input).reply.Ok?
    ensures var s' := MintTransaction(s, c, input).state;
            && |s'.tenancies| == |s.tenancies| + 1
            && var row := s'.tenancies[|s.tenancies|];
               && row.endDay == DayOf(input.endMs) && row.annualRent == input.annualRent && row.archivedAt.None?
               && row.noticePeriodDays == SuccessorNotice(s, c, input)
  {}

  /** A completion whose mint is accepted goes through exactly when the successor's notice period is positive. */
  lemma CompletionAcceptedIffNoticePositive(k: Books, c: nat, input: MintInput, chequeCount: int, today: int)
    requires Payments.BookInv(k.payments.book) && FreshFor(k.payments, |k.tables.tenancies|)
    requires MintTransaction(k.tables, c, input).reply.Ok?
    ensures var id := |k.tables.tenancies|;
            var (k', r) := Complete(k, c, input, chequeCount, today);
            && k'.tables == MintTransaction(k.tables, c, input).state
            && r == (if SuccessorNotice(k.tables, c, input) > 0 then Ok(id) else Err(Uncaught))
            && (r.Ok? ==> Straight(k', id, today))
  {
    MintedRow(k.tables, c, input);
    var id := |k.tables.tenancies|;
    var rec := RecordOf(MintTransaction(k.tables, c, input).state.tenancies[id], id);
    if rec.dates.noticePeriodDays > 0 {
      RearmedStraight(k.payments, rec, input, chequeCount, today);
    } else {
      BadNoticeStops(k.payments, rec, input, chequeCount, today);
    }
  }

  lemma MintCallReply(s: State, c: nat, input: MintInput)
    requires MintTransaction(s, c, input).reply.Ok?
    ensures MintCall(s, c, input) ==
            Outcome(MintTransaction(s, c, input).state,
                    if SuccessorNotice(s, c, input) > 0 then Ok(|s.tenancies|) else Err(Uncaught))
  {}

  lemma RefusedMintChangesNothing(s: State, c: nat, input: MintInput)
    requires MintTransaction(s, c, input).reply.Err?
    ensures MintTransaction(s, c, input).state == s && MintCall(s, c, input) == MintTransaction(s, c, input)
  {}

  function TablesAndReply(done: (Books, Result<nat, Refusal>)): Outcome {
    Outcome(done.0.tables, done.1)
  }

  lemma RefusedCompletion(k: Books, c: nat, input: MintInput, chequeCount: int, today: int)
    requires MintTransaction(k.tables, c, input).reply.Err?
    ensures TablesAndReply(Complete(k, c, input, chequeCount, today)) == MintCall(k.tables, c, input)
  {
    RefusedMintChangesNothing(k.tables, c, input);
  }

  lemma MintedCompletion(k: Books, c: nat, input: MintInput, chequeCount: int, today: int)
    requires Payments.BookInv(k.payments.book) && FreshFor(k.payments, |k.tables.tenancies|)
    requires MintTransaction(k.tables, c, input).reply.Ok?
    ensures TablesAndReply(Complete(k, c, input, chequeCount, today)) == MintCall(k.tables, c, input)
  {
    CompletionAcceptedIffNoticePositive(k, c, input, chequeCount, today);
    MintCallReply(k.tables, c, input);
  }

  /** On the renewal tables and in its reply the whole completion is the call of the same name. */
  lemma CompletionIsTheCall(k: Books, c: nat, input: MintInput, chequeCount: int, today: int)
    requires Payments.BookInv(k.payments.book) && FreshFor(k.payments, |k.tables.tenancies|)
    ensures TablesAndReply(Complete(k, c, input, chequeCount, today)) ==
            Perform(k.tables, MintRenewedTenancy(c, input))
  {
    if MintTransaction(k.tables, c, input).reply.Err? {
      RefusedCompletion(k, c, input, chequeCount, today);
    } else {
      MintedCompletion(k, c, input, chequeCount, today);
    }
  }

  /**
   Completing a decided case, everything after the mint included, is accepted if and only if the input is
   sound, the case is not stranded, its tenancy has no successor and the successor's notice period is
   positive.
   */
  lemma WholeCompletionAcceptedIff(k: Books, c: nat, input: MintInput, chequeCount: int, today: int)
    requires Payments.BookInv(k.payments.book) && FreshFor(k.payments, |k.tables.tenancies|)
    requires Refs(k.tables) && Decided(k.tables, c)
    ensures Complete(k, c, input, chequeCount, today).1.Ok? <==>
            && SoundTerms(input) && SuccessorNotice(k.tables, c, input) > 0
            && !Stranded(k.tables, c) && !HasSuccessor(k.tables, k.tables.cases[c].tenancy)
  {
    CompletionIsTheCall(k, c, input, chequeCount, today);
    CompletionAcceptedIff(k.tables, c, input);
  }

  lemma BadNoticeStops(p: PaymentDesk.Desk, rec: PaymentDesk.TenancyRecord, input: MintInput, chequeCount: int,
      today: int)
    requires !rec.dates.archived && rec.dates.noticePeriodDays <= 0
    ensures !Rearm(p, rec, input, chequeCount, today).1.Scheduled?
  {}

  /** And with cheques asked for, the successor's items add up to its rent. */
  lemma CompletionWithChequesAddsUp(k: Books, c: nat, input: MintInput, chequeCount: int, today: int)
    requires Payments.BookInv(k.payments.book) && FreshFor(k.payments, |k.tables.tenancies|) && chequeCount > 0
    requires MintTransaction(k.tables, c, input).reply.Ok? && Complete(k, c, input, chequeCount, today).1.Ok?
    ensures var id := |k.tables.tenancies|;
            !Risk.HasActive(Complete(k, c, input, chequeCount, today).0.payments.book.risk,
                            Risk.Scope(Risk.TENANCY, id), Risk.CHEQUE_TOTAL_MISMATCH)
  {
    MintedRow(k.tables, c, input);
    CompletionAcceptedIffNoticePositive(k, c, input, chequeCount, today);
    var id := |k.tables.tenancies|;
    var rec := RecordOf(MintTransaction(k.tables, c, input).state.tenancies[id], id);
    PaymentDesk.MintedScheduleMatchesRent(k.payments, rec, DayOf(input.startMs), chequeCount, today);
  }

  /** The first cheque of the tenancy is there, due on that day and only scheduled. */
  ghost predicate StartsOn(rows: seq<Option<Payments.PaymentItem>>, id: nat, startDay: int) {
    exists i | 0 <= i < |rows| ::
      rows[i].Some? && rows[i].value.tenancy == id && rows[i].value.seqNo == 1
      && rows[i].value.dueDay == startDay && rows[i].value.status == Payments.SCHEDULED
  }

  lemma NothingHeld(p: PaymentDesk.Desk, id: nat, n: int)
    requires PaymentDesk.NoItems(p.book.rows, id)
    ensures !Payments.HeldSeq(Payments.DeleteMovable(p.book.rows, id), id, n)
  {}

  /** Every cheque of the even schedule is on the successor's books, also when the derivations stop after it. */
  lemma ScheduleIsThere(p: PaymentDesk.Desk, rec: PaymentDesk.TenancyRecord, input: MintInput, chequeCount: int,
      today: int, k: nat)
    requires Payments.BookInv(p.book) && FreshFor(p, rec.dates.id) && chequeCount > 0
    requires k < Cheques.ChequeCount(chequeCount)
    ensures var xs :=
              Cheques.EvenChequeSchedule(DayOf(input.startMs), DayOf(input.endMs), input.annualRent, chequeCount);
            k < |xs| && Payments.NewItem(rec.dates.id, xs[k]) in Rearm(p, rec, input, chequeCount, today).0.book.rows
  {
    var t := rec.dates.id;
    var xs := Cheques.EvenChequeSchedule(DayOf(input.startMs), DayOf(input.endMs), input.annualRent, chequeCount);
    Cheques.ScheduleShape(DayOf(input.startMs), DayOf(input.endMs), input.annualRent, chequeCount);
    ScheduleDistinct(DayOf(input.startMs), DayOf(input.endMs), input.annualRent, chequeCount);
    NothingHeld(p, t, xs[k].seqNo);
    Payments.ReplacementEffect(p.book, t, xs);
    var rows := Payments.ReplaceSchedule(p.book, t, xs).value.rows;
    assert Payments.NewItem(t, xs[k]) in rows[|p.book.rows|..];
  }

  /** A completion with cheques: the first is due on the successor's own first day. */
  lemma FirstChequeOnTheStart(k: Books, c: nat, input: MintInput, chequeCount: int, today: int)
    requires Payments.BookInv(k.payments.book) && FreshFor(k.payments, |k.tables.tenancies|) && chequeCount > 0
    requires MintTransaction(k.tables, c, input).reply.Ok?
    ensures var (k', _), id := Complete(k, c, input, chequeCount, today), |k.tables.tenancies|;
            && id < |k'.tables.tenancies| && RenewalEffects.Completed(k.tables, k'.tables, c, input)
            && StartsOn(k'.payments.book.rows, id, k'.tables.tenancies[id].startDay)
  {
    RenewalEffects.MintEffect(k.tables, c, input);
    var id := |k.tables.tenancies|;
    var rec := RecordOf(MintTransaction(k.tables, c, input).state.tenancies[id], id);
    var (startDay, endDay) := (DayOf(input.startMs), DayOf(input.endMs));
    TermRounds(input);
    Cheques.DueDatesAreEven(startDay, endDay, input.annualRent, chequeCount);
    Cheques.ScheduleShape(startDay, endDay, input.annualRent, chequeCount);
    ScheduleIsThere(k.payments, rec, input, chequeCount, today, 0);
  }

  /** The successor is the one asked for, and with cheques its first is due on its own first day. */
  ghost predicate Delivered(k: Books, k': Books, id: nat, c: nat, input: MintInput, chequeCount: int) {
    && id == |k.tables.tenancies| < |k'.tables.tenancies| && RenewalEffects.Mintable(k.tables, c, input)
    && RenewalEffects.Completed(k.tables, k'.tables, c, input)
    && (chequeCount > 0 && FreshFor(k.payments, id) && Payments.BookInv(k.payments.book) ==>
          StartsOn(k'.payments.book.rows, id, k'.tables.tenancies[id].startDay))
  }

  lemma CompletionDelivers(k: Books, c: nat, input: MintInput, chequeCount: int, today: int)
    ensures var (k', r) := Complete(k, c, input, chequeCount, today);
            r.Ok? ==> Delivered(k, k', r.value, c, input, chequeCount)
  {
    RenewalEffects.MintEffect(k.tables, c, input);
    var id := |k.tables.tenancies|;
    if RenewalEffects.Mintable(k.tables, c, input) && chequeCount > 0 && FreshFor(k.payments, id)
       && Payments.BookInv(k.payments.book) {
      FirstChequeOnTheStart(k, c, input, chequeCount, today);
    }
  }

  lemma TermRounds(input: MintInput)
    requires input.startMs < input.endMs
    ensures DayOf(input.startMs) <= DayOf(input.endMs)
  {}

  /** The office: one desk, one register and what they share, changed in place. */
  class Office {
    const desk: RenewalDesk.Desk
    const register: PaymentDesk.PaymentRegister
    var gates: map<nat, int>

    ghost function State(): Books
      reads this, desk, register, register.risk, register.deadlines
    {
      Books(desk.Tables(), register.State(), gates)
    }

    constructor (desk: RenewalDesk.Desk, register: PaymentDesk.PaymentRegister)
      ensures this.desk == desk && this.register == register && gates == map[]
    {
      this.desk, this.register, gates := desk, register, map[];
    }

    method DeriveForTenancy(rec: PaymentDesk.TenancyRecord, today: int) returns (out: PaymentDesk.Outcome)
      modifies register.risk, register.deadlines
      ensures (register.State(), out) == DeriveOnly(old(register.State()), rec, today)
    {
      var regenerated := register.deadlines.RegenerateDeadlinesForTenancy(
        rec.dates, PaymentDesk.ItemsOf(register.rows, rec.dates.id));
      if regenerated.Err? { return PaymentDesk.BadNoticePeriod; }
      var rec' := rec.(dates := regenerated.value);
      register.risk.EvaluateRiskForTenancy(PaymentDesk.FactsOf(rec', register.rows, register.deadlines.rows), today);
      out := PaymentDesk.Scheduled(rec');
    }

    method RearmSuccessor(rec: PaymentDesk.TenancyRecord, input: MintInput, chequeCount: int, today: int)
      returns (out: PaymentDesk.Outcome)
      modifies register, register.risk, register.deadlines
      ensures (register.State(), out) == Rearm(old(register.State()), rec, input, chequeCount, today)
    {
      if chequeCount <= 0 {
        out := DeriveForTenancy(rec, today);
      } else {
        var xs := Cheques.EvenChequeSchedule(DayOf(input.startMs), DayOf(input.endMs), input.annualRent, chequeCount);
        out := register.SetPaymentSchedule(rec, xs, today);
      }
    }

    method CompleteRenewal(c: nat, input: MintInput, chequeCount: int, today: int) returns (r: Result<nat, Refusal>)
      modifies this, desk, register, register.risk, register.deadlines
      ensures (State(), r) == Complete(old(State()), c, input, chequeCount, today)
      ensures r.Ok? ==> Delivered(old(State()), State(), r.value, c, input, chequeCount)
    {
      ghost var k := State();
      r := desk.MintRenewedTenancy(c, input);
      if r.Err? { return; }
      MintedRow(k.tables, c, input);
      var id := r.value;
      var out := RearmSuccessor(RecordOf(desk.tenancies[id], id), input, chequeCount, today);
      if out.Scheduled? && out.rec.dates.noticeGateDay.Some? {
        gates := gates[out.rec.dates.id := out.rec.dates.noticeGateDay.value];
      }
      if !out.Scheduled? { r := Err(Uncaught); }
      CompletionDelivers(k, c, input, chequeCount, today);
    }

    /** Archiving dates the row and cancels every open deadline of the tenancy. */
    method ArchiveTenancy(t: nat, now: int) returns (r: Result<nat, Refusal>)
      modifies desk, register.deadlines
      ensures RenewalCalls.Outcome(desk.Tables(), r) == Perform(old(desk.Tables()), Archive(t, now))
      ensures r.Err? ==> State() == old(State())
      ensures r.Ok? ==>
                State().payments ==
                  old(State()).payments.(deadlines := Deadlines.CancelAllOpen(old(register.deadlines.rows), t))
      ensures r.Ok? ==>
                forall d | d in register.deadlines.rows && d.tenancy == Some(t) :: d.status != Deadlines.Open
      ensures gates == old(gates)
    {
      r := desk.ArchiveTenancy(t, now);
      if r.Err? { return; }
      var rec := RecordOf(desk.tenancies[t], t);
      var regenerated := register.deadlines.RegenerateDeadlinesForTenancy(
        rec.dates, PaymentDesk.ItemsOf(register.rows, t));
    }
  }
}
