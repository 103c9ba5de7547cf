/** The even cheque schedule: amounts in fils, dates as day numbers. */
module Cheques {
  import opened Dates

  const MAX_CHEQUES := 12
  const FILS_PER_AED := 100

  datatype PaymentItemInput = PaymentItemInput(seqNo: int, dueDay: int, amount: int)

  function ChequeCount(requested: int): (n: nat)
    ensures n <= MAX_CHEQUES
  {
    if requested <= 0 then 0 else if requested > MAX_CHEQUES then MAX_CHEQUES else requested
  }

  /** The even share, rounded to a whole dirham. */
  function Share(annualRent: int, n: nat): int
    requires n > 0
  {
    FILS_PER_AED * RoundHalfUp(annualRent, FILS_PER_AED * n)
  }

  function Offset(termDays: int, i: nat, n: nat): int
    requires n > 0
  {
    RoundHalfUp(i * termDays, n)
  }

  function EvenChequeSchedule(startDay: int, endDay: int, annualRent: int, chequeCount: int)
    : (items: seq<PaymentItemInput>)
    ensures |items| == (if chequeCount <= 0 then 0 else if chequeCount > 12 then 12 else chequeCount)
  {
    var n := ChequeCount(chequeCount);
    if n == 0 then []
    else
      seq(n, i requires 0 <= i < n =>
        PaymentItemInput(
          i + 1,
          startDay + Offset(DaysBetween(startDay, endDay), i, n),
          if i == n - 1 then annualRent - Share(annualRent, n) * (n - 1) else Share(annualRent, n)))
  }

  function SumInputs(items: seq<PaymentItemInput>): int {
    if items == [] then 0 else items[0].amount + SumInputs(items[1..])
  }

  lemma {:induction false} SumOfEqual(items: seq<PaymentItemInput>, a: int)
    requires forall i | 0 <= i < |items| :: items[i].amount == a
    ensures SumInputs(items) == a * |items|
    decreases |items|
  {
    if items == [] {
    } else {
      SumOfEqual(items[1..], a);
    }
  }

  lemma {:induction false} SumSnoc(items: seq<PaymentItemInput>, last: PaymentItemInput)
    ensures SumInputs(items + [last]) == SumInputs(items) + last.amount
    decreases |items|
  {
    if items == [] {
      assert items + [last] == [last];
    } else {
      SumSnoc(items[1..], last);
      assert (items + [last])[1..] == items[1..] + [last];
    }
  }

  /** The schedule adds up to the rent to the fils, whatever the rent. */
  lemma ScheduleSumsToRent(startDay: int, endDay: int, annualRent: int, chequeCount: int)
    requires chequeCount > 0
    ensures SumInputs(EvenChequeSchedule(startDay, endDay, annualRent, chequeCount)) == annualRent
  {
    var n := ChequeCount(chequeCount);
    var items := EvenChequeSchedule(startDay, endDay, annualRent, chequeCount);
    SumOfEqual(items[..n - 1], Share(annualRent, n));
    SumSnoc(items[..n - 1], items[n - 1]);
    assert items == items[..n - 1] + [items[n - 1]];
  }

  lemma WholeDirhams(r: int)
    ensures (FILS_PER_AED * r) % FILS_PER_AED == 0
  {}

  lemma Regroup(k: int, n: int, r: int)
    ensures n * (k * r) == (k * n) * r && 2 * (k * n) * (r + 1) == 2 * ((k * n) * r) + 2 * (k * n)
    ensures 2 * (k * n) * r == 2 * ((k * n) * r)
  {}

  /** All shares together miss the rent by at most half a dirham each. */
  lemma SharesNearRent(annualRent: int, n: nat)
    requires n > 0
    ensures -(FILS_PER_AED * n) < 2 * (n * Share(annualRent, n) - annualRent) <= FILS_PER_AED * n
  {
    Regroup(FILS_PER_AED, n, RoundHalfUp(annualRent, FILS_PER_AED * n));
  }

  lemma OneLess(share: int, n: int)
    ensures share * (n - 1) == n * share - share
  {}

  /** All but the last cheque are in whole dirhams, each the share of the rent to the nearest one, halves up. */
  lemma SharesAreWhole(startDay: int, endDay: int, annualRent: int, chequeCount: int, i: nat)
    requires i + 1 < ChequeCount(chequeCount)
    ensures var n, amount := ChequeCount(chequeCount),
              EvenChequeSchedule(startDay, endDay, annualRent, chequeCount)[i].amount;
            && amount % FILS_PER_AED == 0
            && -(FILS_PER_AED * n) < 2 * (n * amount - annualRent) <= FILS_PER_AED * n
  {
    var n := ChequeCount(chequeCount);
    WholeDirhams(RoundHalfUp(annualRent, FILS_PER_AED * n));
    SharesNearRent(annualRent, n);
  }

  /** Items are numbered 1..n, all but the last carry the even share, and the last is within n/2 dirhams of it. */
  lemma ScheduleShape(startDay: int, endDay: int, annualRent: int, chequeCount: int)
    requires chequeCount > 0
    ensures var n := ChequeCount(chequeCount);
            var items := EvenChequeSchedule(startDay, endDay, annualRent, chequeCount);
            && |items| == n == (if chequeCount > 12 then 12 else chequeCount)
            && (forall i | 0 <= i < n :: items[i].seqNo == i + 1)
            && (forall i, j | 0 <= i < j < n - 1 :: items[i].amount == items[j].amount)
            && (forall i | 0 <= i < n - 1 ::
                  -(FILS_PER_AED * n) <= 2 * (items[n - 1].amount - items[i].amount) <= FILS_PER_AED * n)
  {
    var n := ChequeCount(chequeCount);
    SharesNearRent(annualRent, n);
    OneLess(Share(annualRent, n), n);
  }

  lemma NoSmallMultiple(d: int, k: int)
    requires -d < d * k < d
    ensures k == 0
  {}

  lemma DivUnique(x: int, d: int, q: int, r: int)
    requires d > 0 && 0 <= r < d && x == d * q + r
    ensures x / d == q
  {
    var p := x / d;
    assert d * (p - q) == d * p - d * q == r - x % d;
    NoSmallMultiple(d, p - q);
  }

  lemma DivStep(x: int, e: int, d: int)
    requires d > 0 && 0 <= e < d
    ensures x / d <= (x + e) / d <= x / d + 1
  {
    var q, r := x / d, x % d;
    assert x == d * q + r;
    if r + e < d {
      DivUnique(x + e, d, q, r + e);
    } else {
      assert d * (q + 1) == d * q + d;
      DivUnique(x + e, d, q + 1, r + e - d);
    }
  }

  lemma DivShift(x: int, k: int, d: int)
    requires d > 0
    ensures (x + k * d) / d == x / d + k
  {
    var a := x / d + k;
    assert x + k * d == d * a + x % d;
    DivUnique(x + k * d, d, a, x % d);
  }

  /** One step of the schedule advances by the whole days of an even split, or one day more. */
  lemma OffsetStep(termDays: int, i: nat, n: nat)
    requires n > 0 && termDays >= 0
    ensures termDays / n <= Offset(termDays, i + 1, n) - Offset(termDays, i, n) <= termDays / n + 1
  {
    var q, r := termDays / n, termDays % n;
    var x := 2 * (i * termDays) + n;
    assert termDays == n * q + r;
    assert 2 * ((i + 1) * termDays) + n == (x + 2 * r) + q * (2 * n) by {
      assert (i + 1) * termDays == i * termDays + termDays;
      assert 2 * (n * q) == q * (2 * n);
    }
    DivShift(x + 2 * r, q, 2 * n);
    DivStep(x, 2 * r, 2 * n);
  }

  lemma OffsetEnds(termDays: int, n: nat)
    requires n > 0
    ensures Offset(termDays, 0, n) == 0 && Offset(termDays, n, n) == termDays
  {
    DivUnique(n, 2 * n, 0, n);
    assert 2 * (n * termDays) + n == (2 * n) * termDays + n;
    DivUnique(2 * (n * termDays) + n, 2 * n, termDays, n);
  }

  lemma OffsetGrows(termDays: int, i: nat, n: nat)
    requires n > 0 && termDays >= 0
    ensures Offset(termDays, i, n) <= Offset(termDays, i + 1, n)
  {
    OffsetStep(termDays, i, n);
  }

  lemma {:induction false} OffsetsBelowEnd(termDays: int, i: nat, n: nat)
    requires n > 0 && termDays >= 0 && i <= n
    ensures 0 <= Offset(termDays, i, n) <= termDays
    decreases n - i
  {
    OffsetEnds(termDays, n);
    if i >= n {
    } else {
      OffsetGrows(termDays, i, n);
      OffsetsBelowEnd(termDays, i + 1, n);
      OffsetNonNegative(termDays, i, n);
    }
  }

  lemma {:induction false} OffsetNonNegative(termDays: int, i: nat, n: nat)
    requires n > 0 && termDays >= 0
    ensures 0 <= Offset(termDays, i, n)
    decreases i
  {
    OffsetEnds(termDays, n);
    if i == 0 {
    } else {
      OffsetNonNegative(termDays, i - 1, n);
      OffsetGrows(termDays, i - 1, n);
    }
  }

  /** The i-th due day, with the end of the term standing after the last. */
  function DueOrEnd(items: seq<PaymentItemInput>, endDay: int, i: nat): int
    requires i <= |items|
  {
    if i == |items| then endDay else items[i].dueDay
  }

  /**
   Due dates start on the first day of the term, never leave it, and are spread evenly: every gap,
   the one from the last due date to the end included, is the same number of days or one more.
   */
  lemma DueDatesAreEven(startDay: int, endDay: int, annualRent: int, chequeCount: int)
    requires chequeCount > 0 && startDay <= endDay
    ensures var items := EvenChequeSchedule(startDay, endDay, annualRent, chequeCount);
            && items[0].dueDay == startDay
            && (forall i | 0 <= i < |items| :: startDay <= items[i].dueDay <= endDay)
            && (forall i | 0 <= i < |items| ::
                  (endDay - startDay) / |items| <= DueOrEnd(items, endDay, i + 1) - DueOrEnd(items, endDay, i)
                                                <= (endDay - startDay) / |items| + 1)
  {
    var n := ChequeCount(chequeCount);
    var term := DaysBetween(startDay, endDay);
    var items := EvenChequeSchedule(startDay, endDay, annualRent, chequeCount);
    OffsetEnds(term, n);
    forall i | 0 <= i < n
      ensures startDay <= items[i].dueDay <= endDay
      ensures term / n <= DueOrEnd(items, endDay, i + 1) - DueOrEnd(items, endDay, i) <= term / n + 1
    {
      OffsetsBelowEnd(term, i, n);
      OffsetStep(term, i, n);
    }
  }

  /** Each due day is the nearest one to its share of the term, halves going to the later day. */
  lemma DueDatesAreNearest(startDay: int, endDay: int, annualRent: int, chequeCount: int, i: nat)
    requires i < ChequeCount(chequeCount)
    ensures var items := EvenChequeSchedule(startDay, endDay, annualRent, chequeCount);
            var n := |items|;
            -n < 2 * (n * (items[i].dueDay - startDay) - i * (endDay - startDay)) <= n
  {
    var n := ChequeCount(chequeCount);
    var days := Offset(endDay - startDay, i, n);
    Regroup(1, n, days);
  }

  /** Rounding to whole dirhams can push the last cheque below zero: 54 dirhams over twelve cheques. */
  lemma SmallRentGoesNegative()
    ensures var items := EvenChequeSchedule(0, 364, 54 * FILS_PER_AED, 12);
            items[0].amount == 5 * FILS_PER_AED && items[11].amount == -FILS_PER_AED
  {
    assert RoundHalfUp(5400, 1200) == 5;
  }

  /**
   When the last cheque, which takes the rounding, is not negative: either the share was rounded down, or
   the part of the rent the whole shares leave over, plus the share it lacks, covers what rounding up took.
   */
  predicate RoundingCovered(annualRent: int, n: nat)
    requires n > 0
  {
    var whole := annualRent / (FILS_PER_AED * n);
    var left := annualRent % (FILS_PER_AED * n);
    2 * left < FILS_PER_AED * n || left + FILS_PER_AED * whole >= FILS_PER_AED * (n - 1)
  }

  /** The share is the whole dirhams of an even split, or one more from half a dirham each on. */
  lemma ShareRounds(annualRent: int, n: nat)
    requires n > 0
    ensures var whole := annualRent / (FILS_PER_AED * n);
            var up := 2 * (annualRent % (FILS_PER_AED * n)) >= FILS_PER_AED * n;
            Share(annualRent, n) == FILS_PER_AED * (if up then whole + 1 else whole)
  {
    var d := FILS_PER_AED * n;
    var whole, left := annualRent / d, annualRent % d;
    assert annualRent == d * whole + left;
    if 2 * left >= d {
      assert 2 * annualRent + d == (2 * d) * (whole + 1) + (2 * left - d);
      DivUnique(2 * annualRent + d, 2 * d, whole + 1, 2 * left - d);
    } else {
      assert 2 * annualRent + d == (2 * d) * whole + (2 * left + d);
      DivUnique(2 * annualRent + d, 2 * d, whole, 2 * left + d);
    }
  }

  lemma LastAmount(annualRent: int, n: nat)
    requires n > 0
    ensures var whole := annualRent / (FILS_PER_AED * n);
            var left := annualRent % (FILS_PER_AED * n);
            var last := annualRent - Share(annualRent, n) * (n - 1);
            && (2 * left < FILS_PER_AED * n ==> last == FILS_PER_AED * whole + left)
            && (2 * left >= FILS_PER_AED * n ==> last == left + FILS_PER_AED * whole - FILS_PER_AED * (n - 1))
  {
    var d := FILS_PER_AED * n;
    var whole, left := annualRent / d, annualRent % d;
    ShareRounds(annualRent, n);
    assert annualRent == d * whole + left;
    assert d * whole == FILS_PER_AED * (n * whole);
    if 2 * left >= d {
      assert (FILS_PER_AED * (whole + 1)) * (n - 1) == FILS_PER_AED * (n * whole) - FILS_PER_AED * whole +
        FILS_PER_AED * (n - 1);
    } else {
      assert (FILS_PER_AED * whole) * (n - 1) == FILS_PER_AED * (n * whole) - FILS_PER_AED * whole;
    }
  }

  lemma AmountsAre(startDay: int, endDay: int, annualRent: int, chequeCount: int)
    requires chequeCount > 0
    ensures var n := ChequeCount(chequeCount);
            var items := EvenChequeSchedule(startDay, endDay, annualRent, chequeCount);
            && (forall i | 0 <= i < n - 1 :: items[i].amount == Share(annualRent, n))
            && items[n - 1].amount == annualRent - Share(annualRent, n) * (n - 1)
  {}

  lemma ShareNonNegative(annualRent: int, n: nat)
    requires n > 0 && annualRent >= 0
    ensures annualRent / (FILS_PER_AED * n) >= 0 && Share(annualRent, n) >= 0
  {
    ShareRounds(annualRent, n);
  }

  lemma LastNonNegativeIffCovered(annualRent: int, n: nat)
    requires n > 0 && annualRent >= 0
    ensures annualRent - Share(annualRent, n) * (n - 1) >= 0 <==> RoundingCovered(annualRent, n)
  {
    ShareNonNegative(annualRent, n);
    LastAmount(annualRent, n);
  }

  /** No cheque of a schedule is negative if and only if rounding leaves the last one covered. */
  lemma AmountsNonNegativeIffCovered(startDay: int, endDay: int, annualRent: int, chequeCount: int)
    requires chequeCount > 0 && annualRent >= 0
    ensures (forall i | 0 <= i < ChequeCount(chequeCount) ::
               EvenChequeSchedule(startDay, endDay, annualRent, chequeCount)[i].amount >= 0)
            <==> RoundingCovered(annualRent, ChequeCount(chequeCount))
  {
    var n := ChequeCount(chequeCount);
    var items := EvenChequeSchedule(startDay, endDay, annualRent, chequeCount);
    AmountsAre(startDay, endDay, annualRent, chequeCount);
    ShareNonNegative(annualRent, n);
    LastNonNegativeIffCovered(annualRent, n);
    assert (forall i | 0 <= i < n :: items[i].amount >= 0) <==> items[n - 1].amount >= 0;
  }

  /** From 55 dirhams a year on rounding is covered for every count. */
  lemma CoveredFrom55Dirhams(annualRent: int, n: nat)
    requires 0 < n <= MAX_CHEQUES && annualRent >= 55 * FILS_PER_AED
    ensures RoundingCovered(annualRent, n)
  {
    var d := FILS_PER_AED * n;
    var whole, left := annualRent / d, annualRent % d;
    assert annualRent == d * whole + left;
    assert whole >= 0;
    if 2 * left >= d && whole < n - 1 {
      SmallShare(n, whole, left);
    }
  }

  /** With a share of less than n - 1 dirhams and a rent of 55 or more, a rest of half a dirham each is enough. */
  lemma SmallShare(n: nat, whole: int, left: int)
    requires 0 < n <= MAX_CHEQUES && 0 <= whole < n - 1 && 0 <= left < FILS_PER_AED * n && 2 * left >= FILS_PER_AED * n
    requires (FILS_PER_AED * n) * whole + left >= 55 * FILS_PER_AED
    ensures left + FILS_PER_AED * whole >= FILS_PER_AED * (n - 1)
  {
    if 2 * whole < n - 2 {
      assert FILS_PER_AED * n * (whole + 1) > 55 * FILS_PER_AED;
      assert whole in {0, 1, 2, 3, 4};
    }
  }

  /** So no schedule of 55 dirhams or more holds a negative cheque; 54 is the largest whole rent that can. */
  lemma AmountsNonNegativeFrom55Dirhams(startDay: int, endDay: int, annualRent: int, chequeCount: int)
    requires chequeCount > 0 && annualRent >= 55 * FILS_PER_AED
    ensures forall i | 0 <= i < ChequeCount(chequeCount) ::
              EvenChequeSchedule(startDay, endDay, annualRent, chequeCount)[i].amount >= 0
  {
    AmountsNonNegativeIffCovered(startDay, endDay, annualRent, chequeCount);
    CoveredFrom55Dirhams(annualRent, ChequeCount(chequeCount));
  }
}
