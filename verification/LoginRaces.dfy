/**
 Wrong guesses that overlap. An attempt reads the account, spends time on the password and writes counter
 and lock from what it read, so attempts in flight together undo each other's counting. How many guesses
 get tested within one lock term then depends on how many may be in flight at once.
 */
module LoginRaces {
  import opened Common
  import opened Login

  /** The account, and what each attempt in flight has read of it. */
  datatype Race = Race(user: User, flight: seq<User>)

  datatype Move = Look(plain: string, at: int) | Land(i: nat, at: int)

  /** The write of a miss: counter and lock come from the reading. */
  function Written(u: User, read: User, at: int): User {
    u.(failedLoginCount := read.failedLoginCount + 1,
       loginLockedUntil := if read.failedLoginCount + 1 >= MAX_LOGIN_FAILURES then Some(at + LOGIN_LOCK_MS)
         else read.loginLockedUntil)
  }

  /** A miss that nothing overlaps is the attempt as one step. */
  lemma UninterruptedIsTheAttempt(u: User, plain: string, at: int)
    requires CountedMiss(u, Guess(plain, at))
    ensures Attempt(u, plain, at) == (Written(u, u, at), Refused)
  {}

  /** A wrong guess that was tested: the lock was not holding when the account was read. */
  predicate Tested(r: Race, move: Move) {
    move.Look? && CountedMiss(r.user, Guess(move.plain, move.at))
  }

  /** No guess is right, and a write belongs to an attempt in flight. */
  predicate Possible(r: Race, move: Move) {
    match move
    case Look(plain, at) => r.user.Locked(at) || !r.user.Matches(plain)
    case Land(i, _) => i < |r.flight|
  }

  function Next(r: Race, move: Move): Race
    requires Possible(r, move)
  {
    match move
    case Look(plain, at) => if Tested(r, move) then r.(flight := r.flight + [r.user]) else r
    case Land(i, at) => Race(Written(r.user, r.flight[i], at), r.flight[..i] + r.flight[i + 1..])
  }

  /** A run within [lo, hi] with never more than m attempts in flight. */
  ghost predicate Burst(r: Race, moves: seq<Move>, m: nat, lo: int, hi: int)
    decreases |moves|
  {
    && |r.flight| <= m
    && (moves != [] ==>
          && lo <= moves[0].at <= hi && Possible(r, moves[0])
          && Burst(Next(r, moves[0]), moves[1..], m, lo, hi))
  }

  function TestedIn(r: Race, moves: seq<Move>, m: nat, lo: int, hi: int): nat
    requires Burst(r, moves, m, lo, hi)
    decreases |moves|
  {
    if moves == [] then 0
    else (if Tested(r, moves[0]) then 1 else 0) + TestedIn(Next(r, moves[0]), moves[1..], m, lo, hi)
  }

  // The count goes back to v + 1 whenever a reading of v is written. So a value is reached anew only by such a
  // write, and between two writes at most m attempts can read it.

  /** Readings of each value so far, writes of each so far, and the readings since the last write. */
  datatype Tally = Tally(looks: seq<nat>, writes: seq<nat>, recent: nat)

  const NO_TALLY := Tally([0, 0, 0, 0, 0], [0, 0, 0, 0, 0], 0)

  function Reading(r: Race, k: nat): User {
    User(r.user.password, k, None)
  }

  /** How often the counter came to stand at k. */
  function Arrivals(t: Tally, k: nat): nat
    requires |t.writes| == 5 && k < 5
  {
    if k == 0 then 1 else t.writes[k - 1]
  }

  ghost predicate AccountSound(r: Race, hi: int) {
    && r.user.failedLoginCount <= 5
    && (r.user.failedLoginCount < 5 ==> r.user.loginLockedUntil.None?)
    && (r.user.failedLoginCount == 5 ==> r.user.loginLockedUntil.Some? && r.user.loginLockedUntil.value > hi)
    && forall i | 0 <= i < |r.flight| ::
         r.flight[i].failedLoginCount < 5 && r.flight[i] == Reading(r, r.flight[i].failedLoginCount)
  }

  /** Every reading is in flight or written, and the readings of a value are bounded by its arrivals. */
  ghost predicate Tallied(r: Race, t: Tally, m: nat) {
    && |t.looks| == |t.writes| == 5 && t.recent <= |r.flight| <= m
    && (forall k | 0 <= k < 5 :: multiset(r.flight)[Reading(r, k)] + t.writes[k] == t.looks[k])
    && (forall k | 0 <= k < 5 :: Bounded(r, t, m, k))
  }

  ghost predicate Bounded(r: Race, t: Tally, m: nat, k: nat)
    requires |t.looks| == |t.writes| == 5 && k < 5
  {
    if r.user.failedLoginCount == k then Arrivals(t, k) >= 1 && t.looks[k] <= m * (Arrivals(t, k) - 1) + t.recent
    else t.looks[k] <= m * Arrivals(t, k)
  }

  function TallyNext(t: Tally, r: Race, move: Move): Tally
    requires |t.looks| == |t.writes| == 5 && Possible(r, move)
    requires r.user.failedLoginCount <= 5 && forall i | 0 <= i < |r.flight| :: r.flight[i].failedLoginCount < 5
  {
    match move
    case Look(_, _) =>
      var k := r.user.failedLoginCount;
      if Tested(r, move) && k < 5 then t.(looks := t.looks[k := t.looks[k] + 1], recent := t.recent + 1) else t
    case Land(i, _) =>
      var k := r.flight[i].failedLoginCount;
      t.(writes := t.writes[k := t.writes[k] + 1], recent := 0)
  }

  lemma LookTallied(r: Race, t: Tally, m: nat, move: Move, hi: int)
    requires AccountSound(r, hi) && Tallied(r, t, m) && Possible(r, move) && move.Look? && move.at <= hi
    requires |Next(r, move).flight| <= m
    ensures AccountSound(Next(r, move), hi) && Tallied(Next(r, move), TallyNext(t, r, move), m)
  {
    var r', t' := Next(r, move), TallyNext(t, r, move);
    forall k | 0 <= k < 5 ensures Bounded(r', t', m, k) {
      assert Bounded(r, t, m, k);
    }
  }

  lemma Removed(flight: seq<User>, i: nat)
    requires i < |flight|
    ensures multiset(flight[..i] + flight[i + 1..]) == multiset(flight) - multiset{flight[i]}
  {
    assert flight == flight[..i] + [flight[i]] + flight[i + 1..];
  }

  lemma LandBounded(r: Race, t: Tally, m: nat, move: Move, hi: int, k: nat)
    requires AccountSound(r, hi) && Tallied(r, t, m) && Possible(r, move) && move.Land? && k < 5
    ensures Bounded(Next(r, move), TallyNext(t, r, move), m, k)
  {
    var v, t' := r.flight[move.i].failedLoginCount, TallyNext(t, r, move);
    assert Bounded(r, t, m, k);
    assert t.looks[k] <= m * Arrivals(t, k) by {
      if r.user.failedLoginCount == k { Distribute(m, Arrivals(t, k)); }
    }
    if k == v + 1 { Distribute(m, Arrivals(t', k)); }
  }

  lemma Distribute(m: nat, a: nat)
    requires a >= 1
    ensures m * (a - 1) + m == m * a
  {}

  lemma LandSound(r: Race, move: Move, lo: int, hi: int)
    requires AccountSound(r, hi) && Possible(r, move) && move.Land? && lo <= move.at && hi < lo + LOGIN_LOCK_MS
    ensures AccountSound(Next(r, move), hi)
  {
    var r' := Next(r, move);
    forall i | 0 <= i < |r'.flight|
      ensures r'.flight[i].failedLoginCount < 5 && r'.flight[i] == Reading(r', r'.flight[i].failedLoginCount)
    {
      assert r'.flight[i] == r.flight[if i < move.i then i else i + 1];
    }
  }

  lemma LandCounts(r: Race, t: Tally, m: nat, move: Move, hi: int)
    requires AccountSound(r, hi) && Tallied(r, t, m) && Possible(r, move) && move.Land?
    ensures var r', t' := Next(r, move), TallyNext(t, r, move);
            && |t'.looks| == |t'.writes| == 5 && t'.recent <= |r'.flight| <= m
            && forall k | 0 <= k < 5 :: multiset(r'.flight)[Reading(r', k)] + t'.writes[k] == t'.looks[k]
  {
    Removed(r.flight, move.i);
    assert r.flight[move.i] in multiset(r.flight);
  }

  lemma LandTallied(r: Race, t: Tally, m: nat, move: Move, lo: int, hi: int)
    requires AccountSound(r, hi) && Tallied(r, t, m) && Possible(r, move) && move.Land?
    requires lo <= move.at && hi < lo + LOGIN_LOCK_MS
    ensures AccountSound(Next(r, move), hi) && Tallied(Next(r, move), TallyNext(t, r, move), m)
  {
    LandSound(r, move, lo, hi);
    LandCounts(r, t, m, move, hi);
    forall k | 0 <= k < 5 ensures Bounded(Next(r, move), TallyNext(t, r, move), m, k) {
      LandBounded(r, t, m, move, hi, k);
    }
  }

  function Sum(xs: seq<nat>): nat
    requires |xs| == 5
  {
    xs[0] + xs[1] + xs[2] + xs[3] + xs[4]
  }

  lemma TallySum(t: Tally, r: Race, move: Move, hi: int)
    requires |t.looks| == |t.writes| == 5 && AccountSound(r, hi) && Possible(r, move) && move.at <= hi
    ensures |TallyNext(t, r, move).looks| == 5
    ensures Sum(TallyNext(t, r, move).looks) == Sum(t.looks) + (if Tested(r, move) then 1 else 0)
  {}

  lemma TalliedMove(r: Race, t: Tally, m: nat, move: Move, lo: int, hi: int)
    requires AccountSound(r, hi) && Tallied(r, t, m) && Possible(r, move) && lo <= move.at <= hi
    requires hi < lo + LOGIN_LOCK_MS && |Next(r, move).flight| <= m
    ensures AccountSound(Next(r, move), hi) && Tallied(Next(r, move), TallyNext(t, r, move), m)
    ensures Sum(TallyNext(t, r, move).looks) == Sum(t.looks) + (if Tested(r, move) then 1 else 0)
  {
    TallySum(t, r, move, hi);
    if move.Look? { LookTallied(r, t, m, move, hi); } else { LandTallied(r, t, m, move, lo, hi); }
  }

  lemma {:induction false} TalliedRun(r: Race, t: Tally, moves: seq<Move>, m: nat, lo: int, hi: int)
    returns (r': Race, t': Tally)
    requires AccountSound(r, hi) && Tallied(r, t, m) && Burst(r, moves, m, lo, hi) && hi < lo + LOGIN_LOCK_MS
    ensures AccountSound(r', hi) && Tallied(r', t', m)
    ensures Sum(t'.looks) == Sum(t.looks) + TestedIn(r, moves, m, lo, hi)
    decreases |moves|
  {
    if moves == [] {
      r', t' := r, t;
    } else {
      TalliedMove(r, t, m, moves[0], lo, hi);
      r', t' := TalliedRun(Next(r, moves[0]), TallyNext(t, r, moves[0]), moves[1..], m, lo, hi);
    }
  }

  function Pow(m: nat, k: nat): nat {
    if k == 0 then 1 else m * Pow(m, k - 1)
  }

  lemma ProductMonotone(m: nat, a: nat, b: nat)
    requires a <= b
    ensures m * a <= m * b
  {}

  lemma {:induction false} LooksWithinPower(r: Race, t: Tally, m: nat, k: nat)
    requires Tallied(r, t, m) && k < 5
    ensures t.looks[k] <= Pow(m, k + 1)
    decreases k
  {
    assert Bounded(r, t, m, k);
    if r.user.failedLoginCount == k { Distribute(m, Arrivals(t, k)); }
    if k > 0 {
      LooksWithinPower(r, t, m, k - 1);
      assert multiset(r.flight)[Reading(r, k - 1)] + t.writes[k - 1] == t.looks[k - 1];
    }
    ProductMonotone(m, Arrivals(t, k), Pow(m, k));
  }

  function BurstBound(m: nat): nat {
    Pow(m, 1) + Pow(m, 2) + Pow(m, 3) + Pow(m, 4) + Pow(m, 5)
  }

  /**
   From a fresh account, with at most m attempts in flight at once and within less than one lock term, at
   most m + m^2 + m^3 + m^4 + m^5 wrong guesses are tested, in every interleaving.
   */
  lemma OverlappingGuessesAreBounded(password: Option<string>, moves: seq<Move>, m: nat, lo: int, hi: int)
    requires Burst(Race(User(password, 0, None), []), moves, m, lo, hi) && hi < lo + LOGIN_LOCK_MS
    ensures TestedIn(Race(User(password, 0, None), []), moves, m, lo, hi) <= BurstBound(m)
  {
    var r := Race(User(password, 0, None), []);
    var r', t' := TalliedRun(r, NO_TALLY, moves, m, lo, hi);
    LooksWithinPower(r', t', m, 0);
    LooksWithinPower(r', t', m, 1);
    LooksWithinPower(r', t', m, 2);
    LooksWithinPower(r', t', m, 3);
    LooksWithinPower(r', t', m, 4);
  }

  // With two in flight the five of a lock term are already exceeded.

  lemma BurstCons(r: Race, move: Move, moves: seq<Move>, m: nat, lo: int, hi: int)
    requires |r.flight| <= m && lo <= move.at <= hi && Possible(r, move) && Burst(Next(r, move), moves, m, lo, hi)
    ensures Burst(r, [move] + moves, m, lo, hi)
    ensures TestedIn(r, [move] + moves, m, lo, hi)
            == (if Tested(r, move) then 1 else 0) + TestedIn(Next(r, move), moves, m, lo, hi)
  {
    assert ([move] + moves)[0] == move && ([move] + moves)[1..] == moves;
  }

  /** One guess after the other from count k on, to the lock. */
  lemma {:induction false} OneByOne(password: Option<string>, wrong: string, k: nat, m: nat) returns (moves: seq<Move>)
    requires password != Some(wrong) && k <= 5 && m >= 1
    ensures Burst(Race(User(password, k, if k < 5 then None else Some(LOGIN_LOCK_MS)), []), moves, m, 0, 0)
    ensures TestedIn(Race(User(password, k, if k < 5 then None else Some(LOGIN_LOCK_MS)), []), moves, m, 0, 0) == 5 - k
    decreases 5 - k
  {
    var r := Race(User(password, k, if k < 5 then None else Some(LOGIN_LOCK_MS)), []);
    if k == 5 {
      moves := [];
    } else {
      var rest := OneByOne(password, wrong, k + 1, m);
      var looked := Next(r, Look(wrong, 0));
      assert Next(looked, Land(0, 0)) == Race(User(password, k + 1, if k + 1 < 5 then None else Some(LOGIN_LOCK_MS)),
        []);
      BurstCons(looked, Land(0, 0), rest, m, 0, 0);
      BurstCons(r, Look(wrong, 0), [Land(0, 0)] + rest, m, 0, 0);
      moves := [Look(wrong, 0)] + ([Land(0, 0)] + rest);
    }
  }

  /** Two guesses that read the fresh account together count as one, so a sixth is tested. */
  lemma TwoTogetherCountOnce(password: Option<string>, wrong: string, m: nat) returns (moves: seq<Move>)
    requires password != Some(wrong) && m >= 2
    ensures Burst(Race(User(password, 0, None), []), moves, m, 0, 0)
    ensures TestedIn(Race(User(password, 0, None), []), moves, m, 0, 0) == 6
  {
    var g, u := Look(wrong, 0), User(password, 0, None);
    var rest := OneByOne(password, wrong, 1, m);
    var r := Race(u, []);
    var one := Next(r, g);
    var two := Next(one, g);
    assert two.flight == [u, u];
    var back := Next(two, Land(0, 0));
    assert back.flight == [u];
    assert Next(back, Land(0, 0)) == Race(User(password, 1, None), []);
    BurstCons(back, Land(0, 0), rest, m, 0, 0);
    BurstCons(two, Land(0, 0), [Land(0, 0)] + rest, m, 0, 0);
    BurstCons(one, g, [Land(0, 0)] + ([Land(0, 0)] + rest), m, 0, 0);
    BurstCons(r, g, [g] + ([Land(0, 0)] + ([Land(0, 0)] + rest)), m, 0, 0);
    moves := [g] + ([g] + ([Land(0, 0)] + ([Land(0, 0)] + rest)));
  }

  /** Every burst of at most m attempts at once tests at most five wrong guesses before the lock. */
  ghost predicate FivePerTerm(password: Option<string>, m: nat) {
    forall moves, lo, hi | Burst(Race(User(password, 0, None), []), moves, m, lo, hi) && hi < lo + LOGIN_LOCK_MS ::
      TestedIn(Race(User(password, 0, None), []), moves, m, lo, hi) <= MAX_LOGIN_FAILURES
  }

  /** Five guesses per lock term are kept exactly when attempts never overlap. */
  lemma FivePerTermIffOneAtATime(password: Option<string>, m: nat)
    ensures FivePerTerm(password, m) <==> m <= 1
  {
    if m <= 1 {
      forall moves, lo, hi | Burst(Race(User(password, 0, None), []), moves, m, lo, hi) && hi < lo + LOGIN_LOCK_MS
        ensures TestedIn(Race(User(password, 0, None), []), moves, m, lo, hi) <= MAX_LOGIN_FAILURES
      {
        OverlappingGuessesAreBounded(password, moves, m, lo, hi);
        PowersOfOne(m, 5);
      }
    } else {
      var wrong := if password == Some("") then "a" else "";
      var moves := TwoTogetherCountOnce(password, wrong, m);
      assert !(TestedIn(Race(User(password, 0, None), []), moves, m, 0, 0) <= MAX_LOGIN_FAILURES);
    }
  }

  lemma {:induction false} PowersOfOne(m: nat, k: nat)
    requires m <= 1
    ensures forall j: nat | j <= k :: Pow(m, j) <= 1
    decreases k
  {
    if k == 0 {
    } else {
      PowersOfOne(m, k - 1);
    }
  }
}
