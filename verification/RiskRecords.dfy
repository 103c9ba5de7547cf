/** The risk flags on the rows themselves: payment rows, gates and offers, instead of the facts the rules are fed. */
module RiskRecords {
  import opened Common
  import opened Cheques
  import opened Payments
  import opened PaymentDesk
  import Deadlines
  import Renewals
  import RenewalEffects
  import OfferBand
  import Risk

  // ---------------------------------------------------------------------------------------------
  // Tenancies
  // ---------------------------------------------------------------------------------------------

  predicate Counts(row: Option<PaymentItem>, t: nat) {
    row.Some? && row.value.tenancy == t && row.value.status != CANCELLED
  }

  /** What the cheques of a tenancy come to, cancelled ones aside. */
  function Total(rows: seq<Option<PaymentItem>>, t: nat): int {
    if rows == [] then 0
    else (if Counts(rows[0], t) then rows[0].value.amount else 0) + Total(rows[1..], t)
  }

  lemma {:induction false} TotalSnoc(rows: seq<Option<PaymentItem>>, row: Option<PaymentItem>, t: nat)
    ensures Total(rows + [row], t) == Total(rows, t) + (if Counts(row, t) then row.value.amount else 0)
  {
    if rows == [] {
      assert [] + [row] == [row];
    } else {
      assert (rows + [row])[1..] == rows[1..] + [row];
      TotalSnoc(rows[1..], row, t);
    }
  }

  lemma {:induction false} SumOfSnoc(amounts: seq<int>, x: int)
    ensures Risk.SumAmounts(amounts + [x]) == Risk.SumAmounts(amounts) + x
  {
    if amounts == [] {
      assert [] + [x] == [x];
    } else {
      assert (amounts + [x])[1..] == amounts[1..] + [x];
      SumOfSnoc(amounts[1..], x);
    }
  }

  lemma {:induction false} AmountsMakeTheTotal(rows: seq<Option<PaymentItem>>, t: nat)
    ensures Risk.SumAmounts(AmountsOf(rows, t)) == Total(rows, t)
    ensures AmountsOf(rows, t) != [] <==> exists i | 0 <= i < |rows| :: Counts(rows[i], t)
    decreases |rows|
  {
    if rows == [] {
    } else {
      var n := |rows| - 1;
      AmountsMakeTheTotal(rows[..n], t);
      TotalSnoc(rows[..n], rows[n], t);
      assert rows == rows[..n] + [rows[n]];
      if Counts(rows[n], t) {
        SumOfSnoc(AmountsOf(rows[..n], t), rows[n].value.amount);
      } else {
        assert AmountsOf(rows, t) == AmountsOf(rows[..n], t);
      }
    }
  }

  /** The gate the rules read is that of the mirror. */
  lemma GateIsMirrored(rec: TenancyRecord, items: seq<Deadlines.Item>, ds: seq<Deadlines.Deadline>)
    requires Deadlines.Mirrors(ds, rec.dates.id, rec.dates.endDay, rec.dates.noticePeriodDays, items)
    ensures var gate := Deadlines.FirstOpenFrom(ds, rec.dates.id, Deadlines.NOTICE_GATE, None, 0);
            gate.Some? && ds[gate.value].dueDay == rec.dates.endDay - rec.dates.noticePeriodDays
  {
    var t, gateDay := rec.dates.id, rec.dates.endDay - rec.dates.noticePeriodDays;
    var i :| 0 <= i < |ds| && ds[i] == Deadlines.FreshDeadline(t, Deadlines.NOTICE_GATE, gateDay, None);
    var gate := Deadlines.FirstOpenFrom(ds, t, Deadlines.NOTICE_GATE, None, 0);
    assert Deadlines.Matches(ds[i], t, Deadlines.NOTICE_GATE, None);
    assert Deadlines.DerivedOpen(ds[i], t) && Deadlines.DerivedOpen(ds[gate.value], t);
    assert Deadlines.SameSlot(ds[i], ds[gate.value]) && Deadlines.SameSlot(ds[gate.value], ds[i]);
  }

  /**
   After a schedule change: the Ejari flag is up exactly without a number, the gate flag exactly within thirty
   days before the gate, and the cheque-total flag, where there is a cheque, exactly when the cheques do not come
   to the rent.
   */
  lemma ScheduleFlagsOnRecords(s: Desk, rec: TenancyRecord, xs: seq<PaymentItemInput>, today: int)
    requires Risk.OneActive(s.book.risk.flags) && Deadlines.Tidy(s.deadlines, rec.dates.id)
    requires DistinctSeqs(xs) && !rec.dates.archived && rec.dates.noticePeriodDays > 0
    ensures var s', t := ScheduleAndDerive(s, rec, xs, today).0, rec.dates.id;
            var sc := Risk.Scope(Risk.TENANCY, t);
            && (Risk.HasActive(s'.book.risk, sc, Risk.MISSING_EJARI) <==> rec.ejariNo.None? || rec.ejariNo.value == "")
            && (Risk.HasActive(s'.book.risk, sc, Risk.NOTICE_GATE_WITHIN_30D) <==>
                  0 <= rec.dates.endDay - rec.dates.noticePeriodDays - today <= 30)
            && ((exists i | 0 <= i < |s'.book.rows| :: Counts(s'.book.rows[i], t)) ==>
                  (Risk.HasActive(s'.book.risk, sc, Risk.CHEQUE_TOTAL_MISMATCH) <==>
                     Total(s'.book.rows, t) != rec.annualRent))
  {
    var book := ReplaceSchedule(s.book, rec.dates.id, xs).value;
    var items := ItemsOf(book.rows, rec.dates.id);
    ItemsOfIds(book.rows, rec.dates.id);
    DeadlinesSettle(s.deadlines, rec.dates, items);
    var (ds, dates) := Deadlines.Regenerate(s.deadlines, rec.dates, items).value;
    var rec' := rec.(dates := dates);
    GateIsMirrored(rec', items, ds);
    AmountsMakeTheTotal(book.rows, rec.dates.id);
    Risk.TenancyFlagsTellTheTruth(book.risk, FactsOf(rec', book.rows, ds), today);
  }

  /** A schedule change on an archived tenancy raises and clears nothing and leaves it no open deadline. */
  lemma ArchivedTenancyStaysQuiet(s: Desk, rec: TenancyRecord, xs: seq<PaymentItemInput>, today: int)
    requires rec.dates.archived && DistinctSeqs(xs)
    ensures var (s', out) := ScheduleAndDerive(s, rec, xs, today);
            && out == Scheduled(rec) && s'.book.risk == s.book.risk
            && forall i | 0 <= i < |s'.deadlines| ::
                 s'.deadlines[i].tenancy == Some(rec.dates.id) ==> s'.deadlines[i].status != Deadlines.Open
  {
    var book := ReplaceSchedule(s.book, rec.dates.id, xs).value;
    Deadlines.ArchiveClosesEverything(s.deadlines, rec.dates, ItemsOf(book.rows, rec.dates.id));
  }

  // ---------------------------------------------------------------------------------------------
  // Renewal cases
  // ---------------------------------------------------------------------------------------------

  predicate Standing(offer: Renewals.Offer, c: nat) {
    offer.renewalCase == c && offer.status in {Renewals.SENT, Renewals.COUNTERED, Renewals.ACCEPTED}
  }

  /** The offer the rules look at: the current one, else the standing one with the highest version. */
  ghost predicate LookedAt(s: Renewals.State, c: nat, o: nat)
    requires c < |s.cases|
  {
    o < |s.offers| &&
    if s.cases[c].currentOffer.Some? then s.cases[c].currentOffer == Some(o)
    else
      && Standing(s.offers[o], c)
      && forall p | 0 <= p < |s.offers| && Standing(s.offers[p], c) ::
           s.offers[p].version < s.offers[o].version || (s.offers[p].version == s.offers[o].version && p <= o)
  }

  /** The ceiling on record for a case: a linked capture that is gone leaves none. */
  ghost predicate OnRecord(s: Renewals.State, c: nat, max: Option<int>)
    requires c < |s.cases|
  {
    if s.cases[c].indexCapture.Some? && s.cases[c].indexCapture.value >= |s.captures| then max == None
    else RenewalEffects.Frozen(s, c, max)
  }

  /** The rent of the offer is above its own frozen ceiling, or without one above a ceiling on record. */
  ghost predicate TooHigh(s: Renewals.State, c: nat, offer: Renewals.Offer, max: Option<int>)
    requires c < |s.cases|
  {
    if offer.permittedMaxSnapshot.Some? then offer.annualRent > offer.permittedMaxSnapshot.value
    else max.Some? && offer.annualRent > max.value
  }

  lemma {:induction false} NewestLiveIsLookedAt(offers: seq<Renewals.Offer>, c: nat)
    ensures var r := OfferBand.NewestLive(offers, c);
            && (r.None? <==> forall p | 0 <= p < |offers| :: !Standing(offers[p], c))
            && (r.Some? ==>
                  && Standing(offers[r.value], c)
                  && forall p | 0 <= p < |offers| && Standing(offers[p], c) ::
                       offers[p].version < offers[r.value].version
                       || (offers[p].version == offers[r.value].version && p <= r.value))
    decreases |offers|
  {
    if offers == [] {
    } else {
      NewestLiveIsLookedAt(offers[..|offers| - 1], c);
    }
  }

  lemma ActiveIsLookedAt(s: Renewals.State, c: nat, o: nat)
    requires c < |s.cases| && o < |s.offers|
    ensures OfferBand.ActiveOffer(s, c) == Some(o) <==> LookedAt(s, c, o)
  {
    NewestLiveIsLookedAt(s.offers, c);
  }

  lemma CaptureMaxIsOnRecord(s: Renewals.State, c: nat)
    requires c < |s.cases|
    ensures OnRecord(s, c, OfferBand.CaptureMax(s, c))
  {
    RenewalEffects.CeilingIsFrozen(s, c);
  }

  /**
   After an evaluation of a case: the band flag is up exactly when the offer looked at asks too much, the window
   flag exactly when the gate is past and no service is on record.
   */
  lemma CaseFlagsOnRecords(s: Renewals.State, c: nat, was: Risk.Desk, today: int)
    requires c < |s.cases| && Risk.OneActive(was.flags)
    ensures var d, sc := Risk.EvaluateCase(was, OfferBand.FactsOfCase(s, c), today), Risk.Scope(Risk.RENEWAL_CASE, c);
            && (Risk.HasActive(d, sc, Risk.RENEWAL_NOTICE_WINDOW_MISSED) <==>
                  today > s.cases[c].noticeGateDay && s.cases[c].noticeServedAt.None?)
            && (Risk.HasActive(d, sc, Risk.PROPOSED_INCREASE_ABOVE_INDEX_BAND) <==>
                  exists o: nat, max :: LookedAt(s, c, o) && OnRecord(s, c, max) && TooHigh(s, c, s.offers[o], max))
  {
    var facts := OfferBand.FactsOfCase(s, c);
    Risk.CaseFlagsTellTheTruth(was, facts, today);
    CaptureMaxIsOnRecord(s, c);
    var active := OfferBand.ActiveOffer(s, c);
    if active.Some? && active.value < |s.offers| { ActiveIsLookedAt(s, c, active.value); }
    if o: nat, max :| LookedAt(s, c, o) && OnRecord(s, c, max) && TooHigh(s, c, s.offers[o], max) {
      ActiveIsLookedAt(s, c, o);
      if !(s.cases[c].indexCapture.Some? && s.cases[c].indexCapture.value >= |s.captures|) {
        RenewalEffects.FrozenIsUnique(s, c, max, OfferBand.CaptureMax(s, c));
      }
    }
  }
}
