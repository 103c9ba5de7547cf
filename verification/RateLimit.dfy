/** The fixed-window rate limiter: one row per key, rolled or bumped by a single statement. */
module RateLimit {

  datatype Row = Row(windowStart: int, count: nat)

  datatype RateLimitResult = RateLimitResult(ok: bool, count: nat, remaining: nat)

  datatype Hit = Hit(key: string, at: int)

  /** The upsert: insert the first hit, roll an expired window, or bump a live one. */
  function Upsert(rows: map<string, Row>, key: string, windowMs: int, now: int): map<string, Row> {
    if key !in rows then rows[key := Row(now, 1)]
    else if now - rows[key].windowStart > windowMs then rows[key := Row(now, 1)]
    else rows[key := Row(rows[key].windowStart, rows[key].count + 1)]
  }

  class RateLimiter {
    var rows: map<string, Row>

    constructor ()
      ensures rows == map[]
    {
      rows := map[];
    }

    method Consume(key: string, limit: int, windowMs: int, now: int) returns (r: RateLimitResult)
      modifies this
      ensures rows == Upsert(old(rows), key, windowMs, now)
      ensures r.count == rows[key].count && (r.ok <==> r.count <= limit)
      ensures r.remaining == if r.count <= limit then limit - r.count else 0
    {
      if key in rows {
        var expired := now - rows[key].windowStart > windowMs;
        var count := if expired then 1 else rows[key].count + 1;
        var windowStart := if expired then now else rows[key].windowStart;
        rows := rows[key := Row(windowStart, count)];
      } else {
        rows := rows[key := Row(now, 1)];
      }
      var count := rows[key].count;
      r := RateLimitResult(count <= limit, count, if limit - count > 0 then limit - count else 0);
    }
  }

  /** Hits arrive with a clock that never runs backwards. */
  ghost predicate Monotone(hits: seq<Hit>, from: int) {
    && (forall i | 0 <= i < |hits| :: from <= hits[i].at)
    && (forall i, j | 0 <= i < j < |hits| :: hits[i].at <= hits[j].at)
  }

  /** How many of the hits on `key` in [lo, hi] are let through when the run starts from `rows`. */
  function OkBetween(rows: map<string, Row>, hits: seq<Hit>, key: string, limit: int, windowMs: int, lo: int, hi: int)
    : nat
    decreases |hits|
  {
    if hits == [] then 0
    else
      var h := hits[0];
      var rows' := Upsert(rows, h.key, windowMs, h.at);
      (if h.key == key && lo <= h.at <= hi && rows'[key].count <= limit then 1 else 0)
      + OkBetween(rows', hits[1..], key, limit, windowMs, lo, hi)
  }

  function Room(limit: int, count: nat): nat {
    if limit > count then limit - count else 0
  }

  /** Once the clock is inside the interval: what is left of the live window, and one more window. */
  lemma {:induction false} OkInside(rows: map<string, Row>, hits: seq<Hit>, key: string, limit: nat, windowMs: nat,
      lo: int, hi: int)
    requires hi <= lo + windowMs && Monotone(hits, lo)
    ensures key !in rows ==> OkBetween(rows, hits, key, limit, windowMs, lo, hi) <= limit
    ensures key in rows ==>
              OkBetween(rows, hits, key, limit, windowMs, lo, hi)
                <= Room(limit, rows[key].count) + (if rows[key].windowStart < lo then limit else 0)
    decreases |hits|
  {
    if hits == [] {
    } else {
      var h := hits[0];
      var rows' := Upsert(rows, h.key, windowMs, h.at);
      if hi < h.at {
        NoneAfter(rows, hits, key, limit, windowMs, lo, hi);
      } else {
        OkInside(rows', hits[1..], key, limit, windowMs, lo, hi);
      }
    }
  }

  lemma {:induction false} NoneAfter(rows: map<string, Row>, hits: seq<Hit>, key: string, limit: int, windowMs: nat,
      lo: int, hi: int)
    requires forall i | 0 <= i < |hits| :: hi < hits[i].at
    ensures OkBetween(rows, hits, key, limit, windowMs, lo, hi) == 0
    decreases |hits|
  {
    if hits == [] {
    } else {
      NoneAfter(Upsert(rows, hits[0].key, windowMs, hits[0].at), hits[1..], key, limit, windowMs, lo, hi);
    }
  }

  /** A window that was opened by some hit has counted at least that hit. */
  ghost predicate Counted(rows: map<string, Row>, from: int) {
    forall k | k in rows :: rows[k].count >= 1 && rows[k].windowStart <= from
  }

  /**
   Whatever the keys and times of the hits, any closed interval as long as the window lets through at
   most 2 * limit - 1 hits of one key: the hit that opened the earlier window lies before the interval.
   */
  lemma {:induction false} BurstBound(rows: map<string, Row>, hits: seq<Hit>, key: string, limit: nat, windowMs: nat,
      lo: int, hi: int, from: int)
    requires hi <= lo + windowMs && Monotone(hits, from) && Counted(rows, from) && from < lo
    ensures OkBetween(rows, hits, key, limit, windowMs, lo, hi) <= if limit == 0 then 0 else 2 * limit - 1
    decreases |hits|
  {
    if hits == [] {
    } else {
      var h := hits[0];
      if h.at < lo {
        BurstBound(Upsert(rows, h.key, windowMs, h.at), hits[1..], key, limit, windowMs, lo, hi, h.at);
      } else {
        OkInside(rows, hits, key, limit, windowMs, lo, hi);
      }
    }
  }

  /** The same for a whole run of a fresh limiter. */
  lemma AtMostTwiceTheLimit(hits: seq<Hit>, key: string, limit: nat, windowMs: nat, lo: int, hi: int)
    requires hi <= lo + windowMs
    requires forall i, j | 0 <= i < j < |hits| :: hits[i].at <= hits[j].at
    ensures OkBetween(map[], hits, key, limit, windowMs, lo, hi) <= if limit == 0 then 0 else 2 * limit - 1
  {
    if hits != [] {
      var from := if hits[0].at < lo then hits[0].at else lo - 1;
      BurstBound(map[], hits, key, limit, windowMs, lo, hi, from);
    }
  }

  function Repeat(h: Hit, n: nat): seq<Hit> {
    seq(n, _ => h)
  }

  /** n hits at one instant inside a live window. */
  lemma {:induction false} OkRepeated(rows: map<string, Row>, h: Hit, n: nat, rest: seq<Hit>, limit: nat,
      windowMs: nat, lo: int, hi: int)
    requires h.key in rows && h.at - rows[h.key].windowStart <= windowMs && lo <= h.at <= hi
    requires rows[h.key].count + n <= limit
    ensures OkBetween(rows, Repeat(h, n) + rest, h.key, limit, windowMs, lo, hi)
              == n + OkBetween(rows[h.key := Row(rows[h.key].windowStart, rows[h.key].count + n)], rest, h.key, limit,
                windowMs, lo, hi)
    decreases n
  {
    if n == 0 {
      assert Repeat(h, 0) + rest == rest;
      assert rows[h.key := Row(rows[h.key].windowStart, rows[h.key].count)] == rows;
    } else {
      var rows' := Upsert(rows, h.key, windowMs, h.at);
      assert (Repeat(h, n) + rest)[1..] == Repeat(h, n - 1) + rest;
      OkRepeated(rows', h, n - 1, rest, limit, windowMs, lo, hi);
      assert rows'[h.key := Row(rows'[h.key].windowStart, rows'[h.key].count + (n - 1))]
          == rows[h.key := Row(rows[h.key].windowStart, rows[h.key].count + n)];
    }
  }

  /** The bound is reached for every limit and every window: the opening hit at 0, the rest at the two edges. */
  lemma BurstBoundIsTight(key: string, limit: nat, windowMs: nat)
    requires limit >= 1 && windowMs >= 1
    ensures var hits := [Hit(key, 0)] +
      (Repeat(Hit(key, windowMs), limit - 1) + ([Hit(key, windowMs + 1)] + Repeat(Hit(key, windowMs + 1), limit - 1)));
            && (forall i, j | 0 <= i < j < |hits| :: hits[i].at <= hits[j].at)
            && OkBetween(map[], hits, key, limit, windowMs, windowMs, 2 * windowMs) == 2 * limit - 1
  {
    var late := Hit(key, windowMs + 1);
    var tail := [late] + Repeat(late, limit - 1);
    var edge := Repeat(Hit(key, windowMs), limit - 1);
    var hits := [Hit(key, 0)] + (edge + tail);
    assert hits[1..] == edge + tail;
    var rows := map[key := Row(0, 1)];
    OkRepeated(rows, Hit(key, windowMs), limit - 1, tail, limit, windowMs, windowMs, 2 * windowMs);
    var full := rows[key := Row(0, limit)];
    assert tail[1..] == Repeat(late, limit - 1) + [];
    OkRepeated(full[key := Row(windowMs + 1, 1)], late, limit - 1, [], limit, windowMs, windowMs, 2 * windowMs);
  }

  /** The counter after each hit on `key`, in order. */
  function CountsOf(rows: map<string, Row>, hits: seq<Hit>, key: string, windowMs: int): seq<nat>
    decreases |hits|
  {
    if hits == [] then []
    else
      var rows' := Upsert(rows, hits[0].key, windowMs, hits[0].at);
      (if hits[0].key == key then [rows'[key].count] else []) + CountsOf(rows', hits[1..], key, windowMs)
  }

  ghost predicate CountsUp(counts: seq<nat>, from: nat) {
    forall n | 0 <= n < |counts| :: counts[n] == from + n + 1
  }

  /**
   Inside one live window the n-th further hit reads count + n, other keys notwithstanding: the first
   `limit` pass, no later one does.
   */
  lemma {:induction false} FirstLimitPass(rows: map<string, Row>, hits: seq<Hit>, key: string, windowMs: nat)
    requires key in rows
    requires forall i | 0 <= i < |hits| :: hits[i].key == key ==> hits[i].at - rows[key].windowStart <= windowMs
    ensures CountsUp(CountsOf(rows, hits, key, windowMs), rows[key].count)
    decreases |hits|
  {
    if hits == [] {
    } else {
      var rows' := Upsert(rows, hits[0].key, windowMs, hits[0].at);
      FirstLimitPass(rows', hits[1..], key, windowMs);
      var rest := CountsOf(rows', hits[1..], key, windowMs);
      var counts := CountsOf(rows, hits, key, windowMs);
      var opening: seq<nat> := if hits[0].key == key then [rows'[key].count] else [];
      assert counts == opening + rest;
      forall n | 0 <= n < |counts| ensures counts[n] == rows[key].count + n + 1 {
        if n >= |opening| { assert counts[n] == rest[n - |opening|]; }
      }
    }
  }

  /** From the hit that opens a window: the n-th hit of that window passes exactly when n is at most the limit. */
  lemma WindowPassesExactlyTheFirst(rows: map<string, Row>, hits: seq<Hit>, key: string, limit: int, windowMs: nat)
    requires hits != [] && hits[0].key == key
    requires key in rows ==> hits[0].at - rows[key].windowStart > windowMs
    requires forall i | 0 <= i < |hits| :: hits[i].key == key ==> hits[i].at - hits[0].at <= windowMs
    ensures var counts := CountsOf(rows, hits, key, windowMs);
            forall n | 0 <= n < |counts| :: counts[n] <= limit <==> n < limit
  {
    var rows' := Upsert(rows, key, windowMs, hits[0].at);
    FirstLimitPass(rows', hits[1..], key, windowMs);
    var rest := CountsOf(rows', hits[1..], key, windowMs);
    var counts := CountsOf(rows, hits, key, windowMs);
    assert counts == [1] + rest && rows'[key].count == 1;
    forall n | 0 <= n < |counts| ensures counts[n] == n + 1 {
      if n > 0 { assert counts[n] == rest[n - 1]; }
    }
  }
}
