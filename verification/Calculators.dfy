/**
 Date arithmetic on day numbers and millisecond instants. Day 0 is 1 January 1970; a stored
 date-only value is the midnight of its day in UTC. Division rounds down, as day truncation does.
 */
module Dates {
  import opened Common

  const DAY_MS := 86_400_000
  const DUBAI_SHIFT_MS := 4 * 60 * 60 * 1000

  /** Math.round of num / den: halves go up, towards positive infinity. */
  function RoundHalfUp(num: int, den: int): (r: int)
    requires den > 0
    ensures 2 * den * r <= 2 * num + den < 2 * den * (r + 1)
  {
    (2 * num + den) / (2 * den)
  }

  lemma ProductGrows(k: int, x: int, y: int)
    requires k >= 0 && x <= y
    ensures k * x <= k * y
  {
    assert k * y - k * x == k * (y - x);
  }

  /** Rounding keeps the order. */
  lemma RoundingGrows(a: int, b: int, den: int)
    requires den > 0 && a <= b
    ensures RoundHalfUp(a, den) <= RoundHalfUp(b, den)
  {
    var x, y := RoundHalfUp(a, den), RoundHalfUp(b, den);
    if x > y {
      ProductGrows(2 * den, y + 1, x);
      assert false;
    }
  }

  function DayOf(instantMs: int): int {
    instantMs / DAY_MS
  }

  function TodayInDubai(nowMs: int): int {
    DayOf(nowMs + DUBAI_SHIFT_MS)
  }

  function DaysBetween(fromDay: int, toDay: int): int {
    toDay - fromDay
  }

  datatype DateError = BadNoticePeriod

  /** The last day to serve notice. A notice period that is not positive is an error. */
  function NoticeGate(endDay: int, noticePeriodDays: int): (r: Result<int, DateError>)
    ensures r.Ok? <==> noticePeriodDays > 0
    ensures r.Ok? ==> DaysBetween(r.value, endDay) == noticePeriodDays
  {
    if noticePeriodDays <= 0 then Err(BadNoticePeriod) else Ok(endDay - noticePeriodDays)
  }

  function RenewalDate(endDay: int): int {
    endDay + 1
  }

  /** The gate counts as passed from the first Dubai midnight after the gate day, and not a millisecond earlier. */
  lemma GatePassesAtDubaiMidnight(nowMs: int, gateDay: int)
    ensures DaysBetween(TodayInDubai(nowMs), gateDay) < 0 <==> nowMs >= (gateDay + 1) * DAY_MS - DUBAI_SHIFT_MS
  {
    var shifted := nowMs + DUBAI_SHIFT_MS;
    assert shifted == DAY_MS * (shifted / DAY_MS) + shifted % DAY_MS;
  }
}

/**
 The rent ceiling estimate after Article 1 of Dubai Decree No. (43) of 2013. Rents are whole fils;
 the gap comparisons are exact rational arithmetic.
 */
module Rent {
  import opened Common
  import opened Dates

  datatype RentPosition = RentPosition(bandPct: nat, ceiling: int, valueAtRisk: int)

  datatype RentError = NonPositiveRent

  /** The band of the gap (market - current) / market, clamped at 0, against 10, 20, 30 and 40 per cent. */
  function BandPct(current: int, market: int): nat {
    var gap := if market > current then market - current else 0;
    if 10 * gap <= market then 0
    else if 10 * gap <= 2 * market then 5
    else if 10 * gap <= 3 * market then 10
    else if 10 * gap <= 4 * market then 15
    else 20
  }

  function CeilingFor(current: int, bandPct: nat): int {
    RoundHalfUp(current * (100 + bandPct), 100)
  }

  function Decree43(current: int, market: int): Result<RentPosition, RentError> {
    if current <= 0 || market <= 0 then Err(NonPositiveRent)
    else
      var band := BandPct(current, market);
      var ceiling := CeilingFor(current, band);
      Ok(RentPosition(band, ceiling, ceiling - current))
  }

  lemma BandGrowsWithMarket(current: int, market: int, higher: int)
    requires current > 0 && 0 < market <= higher
    ensures BandPct(current, market) <= BandPct(current, higher)
  {}

  lemma CeilingGrowsWithBand(current: int, a: nat, b: nat)
    requires current > 0 && a <= b
    ensures CeilingFor(current, a) <= CeilingFor(current, b)
  {
    ProductGrows(current, 100 + a, 100 + b);
    RoundingGrows(current * (100 + a), current * (100 + b), 100);
  }

  /** A better market never lowers the ceiling. */
  lemma CeilingMonotoneInMarket(current: int, market: int, higher: int)
    requires current > 0 && 0 < market <= higher
    ensures Decree43(current, market).value.ceiling <= Decree43(current, higher).value.ceiling
    ensures Decree43(current, market).value.valueAtRisk <= Decree43(current, higher).value.valueAtRisk
  {
    BandGrowsWithMarket(current, market, higher);
    CeilingGrowsWithBand(current, BandPct(current, market), BandPct(current, higher));
  }

  /** Started tenths of the market average that the current rent is short of it. */
  function StartedTenths(current: int, market: int): (k: nat)
    requires current > 0 && market > 0
    ensures k > 0 ==> (k - 1) * market < 10 * (market - current) <= k * market
    ensures k == 0 <==> current >= market
  {
    if current >= market then 0 else TenthsFrom(10 * (market - current), market, 1)
  }

  function TenthsFrom(gap: int, market: int, k: nat): (r: nat)
    requires market > 0 && k > 0 && (k - 1) * market < gap <= 10 * market
    ensures r > 0 && (r - 1) * market < gap <= r * market
    decreases 10 * market - k * market
  {
    if gap <= k * market then k else TenthsFrom(gap, market, k + 1)
  }

  /** The band is five points for each started tenth beyond the first, four tenths at most. */
  lemma BandCountsTenths(current: int, market: int)
    requires current > 0 && market > 0
    ensures var k := StartedTenths(current, market);
            BandPct(current, market) == (if k <= 1 then 0 else if k >= 5 then 20 else 5 * (k - 1))
  {
    var k := StartedTenths(current, market);
    var gap := 10 * (market - current);
    if k > 5 { assert (k - 1) * market >= 5 * market; }
  }

  /** The permitted percentage by the shortfall of the rent: none up to a tenth of the market, twenty past four. */
  predicate IsBand(current: int, market: int, pct: int) {
    var short := 10 * (market - current);
    match pct
    case 0 => short <= market
    case 5 => market < short <= 2 * market
    case 10 => 2 * market < short <= 3 * market
    case 15 => 3 * market < short <= 4 * market
    case 20 => 4 * market < short
    case _ => false
  }

  /** The rent raised by the permitted percentage, to the nearest fils, halves up. */
  predicate IsCeiling(current: int, market: int, ceiling: int) {
    exists pct | 0 <= pct <= 20 :: IsBand(current, market, pct) && IsRaised(current, pct, ceiling)
  }

  predicate IsRaised(current: int, pct: int, ceiling: int) {
    -50 < 100 * ceiling - current * (100 + pct) <= 50
  }

  /** The estimate exactly; its band is the only one that fits. */
  lemma CeilingExactly(current: int, market: int)
    ensures Decree43(current, market).Ok? <==> current > 0 && market > 0
    ensures Decree43(current, market).Ok? ==>
              var p := Decree43(current, market).value;
              && IsBand(current, market, p.bandPct) && IsRaised(current, p.bandPct, p.ceiling)
              && IsCeiling(current, market, p.ceiling) && p.valueAtRisk == p.ceiling - current
              && (forall pct :: IsBand(current, market, pct) ==> pct == p.bandPct)
  {
    if current > 0 && market > 0 {
      var band := BandPct(current, market);
      assert IsBand(current, market, band);
      assert IsRaised(current, band, CeilingFor(current, band));
    }
  }

  lemma TopBandIsTwelveTenths(current: int)
    ensures CeilingFor(current, 20) == RoundHalfUp(12 * current, 10)
  {
    var a, b := CeilingFor(current, 20), RoundHalfUp(12 * current, 10);
    assert 200 * a <= 240 * current + 100 < 200 * (a + 1);
    assert 20 * b <= 24 * current + 10 < 20 * (b + 1);
  }

  lemma NoBandNoIncrease(current: int)
    ensures CeilingFor(current, 0) == current
  {
    var a := CeilingFor(current, 0);
    assert 200 * a <= 200 * current + 100 < 200 * (a + 1);
  }

  /** The ceiling lies between the current rent and the rounded 120 per cent of it; no band, no increase. */
  lemma CeilingWithinDecree(current: int, market: int)
    requires current > 0 && market > 0
    ensures var p := Decree43(current, market).value;
            && p.bandPct in {0, 5, 10, 15, 20}
            && current <= p.ceiling <= RoundHalfUp(12 * current, 10)
            && p.valueAtRisk == p.ceiling - current >= 0
            && (p.bandPct == 0 ==> p.ceiling == current)
  {
    NoBandNoIncrease(current);
    TopBandIsTwelveTenths(current);
    CeilingGrowsWithBand(current, 0, BandPct(current, market));
    CeilingGrowsWithBand(current, BandPct(current, market), 20);
  }

  /** A permitted increase never reaches the market average, down to a market of one fils. */
  lemma CeilingBelowMarket(current: int, market: int)
    requires current > 0 && market > 0 && BandPct(current, market) > 0
    ensures Decree43(current, market).value.ceiling < market
  {
    var band := BandPct(current, market);
    var ceiling := CeilingFor(current, band);
    assert 200 * ceiling <= 2 * (current * (100 + band)) + 100;
  }
}
