/** Password sign-in: the failure counter, the lock, and what resets them. */
module Login {
  import opened Common

  const MAX_LOGIN_FAILURES := 5
  const LOGIN_LOCK_MS := 15 * 60 * 1000

  /** Passwords stand for themselves; hashing is an injective, opaque step. */
  datatype User = User(password: Option<string>, failedLoginCount: nat, loginLockedUntil: Option<int>)
  {
    predicate Locked(now: int) {
      loginLockedUntil.Some? && loginLockedUntil.value > now
    }

    predicate Matches(plain: string) {
      password == Some(plain)
    }
  }

  datatype LoginOutcome = SignedIn | Refused

  function Attempt(u: User, plain: string, now: int): (User, LoginOutcome) {
    if u.Locked(now) then (u, Refused)
    else if u.Matches(plain) then (u.(failedLoginCount := 0, loginLockedUntil := None), SignedIn)
    else
      var nextCount := u.failedLoginCount + 1;
      (u.(failedLoginCount := nextCount,
          loginLockedUntil := if nextCount >= MAX_LOGIN_FAILURES then Some(now + LOGIN_LOCK_MS)
            else u.loginLockedUntil),
       Refused)
  }

  function SetPassword(u: User, plain: string): User {
    User(Some(plain), 0, None)
  }

  /** The lock runs up to, and not into, its end. */
  predicate LockedOut(u: User, now: int) {
    u.loginLockedUntil.Some? && now < u.loginLockedUntil.value
  }

  /** One more miss on the counter; from the fifth on each sets the lock for a quarter of an hour. */
  predicate MissedOnce(u: User, u': User, now: int) {
    && u'.password == u.password && u'.failedLoginCount == u.failedLoginCount + 1
    && u'.loginLockedUntil == (if u.failedLoginCount >= 4 then Some(now + 900_000) else u.loginLockedUntil)
  }

  /** The user table behind the sign-in door. */
  class Accounts {
    var users: map<string, User>

    constructor (users: map<string, User>)
      ensures this.users == users
    {
      this.users := users;
    }

    /** Unknown accounts, wrong passwords and locked accounts give one answer. */
    method LoginWithPassword(email: string, plain: string, now: int) returns (r: LoginOutcome)
      modifies this
      ensures email !in old(users) ==> r == Refused && users == old(users)
      ensures email in old(users) ==>
                users == old(users)[email := Attempt(old(users)[email], plain, now).0]
                && r == Attempt(old(users)[email], plain, now).1
      ensures r == SignedIn <==>
                && email in old(users) && old(users)[email].password == Some(plain)
                && (old(users)[email].loginLockedUntil.Some? ==> now >= old(users)[email].loginLockedUntil.value)
      ensures r == SignedIn ==> users == old(users)[email := User(Some(plain), 0, None)]
      ensures r == Refused && email in old(users) && LockedOut(old(users)[email], now) ==> users == old(users)
      ensures r == Refused && email in old(users) && !LockedOut(old(users)[email], now) ==>
                MissedOnce(old(users)[email], users[email], now)
      ensures forall other | other in old(users) && other != email ::
                other in users && users[other] == old(users)[other]
    {
      if email !in users { return Refused; }
      var user := users[email];
      var locked := user.loginLockedUntil.Some? && user.loginLockedUntil.value > now;
      var matches := user.password.Some? && user.password.value == plain;
      if locked || !matches {
        if !locked {
          var nextCount := user.failedLoginCount + 1;
          var lock := if nextCount >= MAX_LOGIN_FAILURES then Some(now + LOGIN_LOCK_MS) else user.loginLockedUntil;
          users := users[email := user.(failedLoginCount := nextCount, loginLockedUntil := lock)];
        } else {
          assert users == users[email := user];
        }
        return Refused;
      }
      users := users[email := user.(failedLoginCount := 0, loginLockedUntil := None)];
      r := SignedIn;
    }

    method SetUserPassword(email: string, plain: string)
      requires email in users
      modifies this
      ensures users == old(users)[email := SetPassword(old(users)[email], plain)]
      ensures users == old(users)[email := User(Some(plain), 0, None)]
    {
      users := users[email := User(Some(plain), 0, None)];
    }
  }

  /** A door that opens: to the stored password exactly, and from the lock's last moment on. */
  lemma OpensExactlyToThePassword(u: User, plain: string, now: int)
    ensures Attempt(u, plain, now).1 == SignedIn <==> u.password == Some(plain) && !LockedOut(u, now)
    ensures Attempt(u, plain, now).1 == SignedIn ==> Attempt(u, plain, now).0 == User(Some(plain), 0, None)
    ensures Attempt(u, plain, now).1 == Refused && !LockedOut(u, now) ==> MissedOnce(u, Attempt(u, plain, now).0, now)
    ensures LockedOut(u, now) ==> Attempt(u, plain, now) == (u, Refused)
  {}

  /** After a reset the new password opens at once, and no other one does, whatever came before. */
  lemma ResetOpensToTheNewPassword(password: Option<string>, history: seq<Event>, renewed: string, plain: string,
      at: int, now: int)
    ensures var u := Replay(User(password, 0, None), history + [Reset(renewed, at)]);
            Attempt(u, plain, now).1 == SignedIn <==> plain == renewed
  {
    ReplaySnoc(User(password, 0, None), history, Reset(renewed, at));
  }

  // Whole runs on one account.

  datatype Event = Guess(plain: string, at: int) | Reset(plain: string, at: int)

  function After(u: User, e: Event): User {
    match e
    case Guess(plain, at) => Attempt(u, plain, at).0
    case Reset(plain, _) => SetPassword(u, plain)
  }

  function Replay(u: User, events: seq<Event>): User
    decreases |events|
  {
    if events == [] then u else Replay(After(u, events[0]), events[1..])
  }

  lemma {:induction false} ReplaySnoc(u: User, events: seq<Event>, e: Event)
    ensures Replay(u, events + [e]) == After(Replay(u, events), e)
    decreases |events|
  {
    if events == [] {
      assert Replay(After(u, e), []) == After(u, e);
      assert ([] + [e])[1..] == [];
    } else {
      ReplaySnoc(After(u, events[0]), events[1..], e);
      assert (events + [e])[1..] == events[1..] + [e];
    }
  }

  /** A wrong guess that the counter sees: the lock was not holding. */
  predicate CountedMiss(u: User, e: Event) {
    e.Guess? && !u.Locked(e.at) && !u.Matches(e.plain)
  }

  predicate Success(u: User, e: Event) {
    e.Guess? && Attempt(u, e.plain, e.at).1 == SignedIn
  }

  /** Neither a successful login nor a password reset happens along the way. */
  ghost predicate Unrelieved(u: User, events: seq<Event>)
    decreases |events|
  {
    events == [] || (events[0].Guess? && !Success(u, events[0]) && Unrelieved(After(u, events[0]), events[1..]))
  }

  function MissesBetween(u: User, events: seq<Event>, lo: int, hi: int): nat
    decreases |events|
  {
    if events == [] then 0
    else (if CountedMiss(u, events[0]) && lo <= events[0].at <= hi then 1 else 0)
         + MissesBetween(After(u, events[0]), events[1..], lo, hi)
  }

  ghost predicate Monotone(events: seq<Event>) {
    forall i, j | 0 <= i < j < |events| :: events[i].at <= events[j].at
  }

  function Spells(lo: int, hi: int): nat {
    if hi < lo then 0 else (hi - lo) / LOGIN_LOCK_MS
  }

  /** How many more misses [lo, hi] can take from this state. */
  function Allowance(u: User, lo: int, hi: int): nat {
    if hi < lo then 0
    else if u.failedLoginCount < MAX_LOGIN_FAILURES then (MAX_LOGIN_FAILURES - u.failedLoginCount) + Spells(lo, hi)
    else
      var open := if u.loginLockedUntil.Some? && u.loginLockedUntil.value > lo then u.loginLockedUntil.value else lo;
      if hi < open then 0 else 1 + Spells(open, hi)
  }

  lemma SpellsShift(lo: int, at: int, hi: int)
    requires lo <= at <= hi
    ensures at + LOGIN_LOCK_MS <= hi ==> 1 + Spells(at + LOGIN_LOCK_MS, hi) <= Spells(lo, hi)
    ensures Spells(at, hi) <= Spells(lo, hi)
  {
    assert hi - at <= hi - lo;
    DivMonotone(hi - at, hi - lo);
    if at + LOGIN_LOCK_MS <= hi {
      assert (hi - at - LOGIN_LOCK_MS) / LOGIN_LOCK_MS + 1 == (hi - at) / LOGIN_LOCK_MS;
    }
  }

  lemma DivMonotone(a: nat, b: nat)
    requires a <= b
    ensures a / LOGIN_LOCK_MS <= b / LOGIN_LOCK_MS
  {}

  /** Reaching the limit always leaves a lock, and a lock without the limit never arises. */
  predicate LockConsistent(u: User) {
    (u.failedLoginCount < MAX_LOGIN_FAILURES ==> u.loginLockedUntil.None?)
    && (u.failedLoginCount >= MAX_LOGIN_FAILURES ==> u.loginLockedUntil.Some?)
  }

  lemma {:induction false} MissesWithinAllowance(u: User, events: seq<Event>, lo: int, hi: int)
    requires LockConsistent(u) && Monotone(events) && Unrelieved(u, events)
    requires forall i | 0 <= i < |events| :: lo <= events[i].at
    ensures MissesBetween(u, events, lo, hi) <= Allowance(u, lo, hi)
    decreases |events|
  {
    if events == [] {
    } else {
      var e := events[0];
      var u' := After(u, e);
      if hi < e.at {
        NoMissesAfter(u, events, lo, hi);
      } else {
        MissesWithinAllowance(u', events[1..], lo, hi);
        if CountedMiss(u, e) {
          SpellsShift(lo, e.at, hi);
          LockedAllowance(u', e.at, lo, hi);
          AllowanceAt(u, e.at, lo, hi);
        }
      }
    }
  }

  lemma {:induction false} NoMissesAfter(u: User, events: seq<Event>, lo: int, hi: int)
    requires forall i | 0 <= i < |events| :: hi < events[i].at
    ensures MissesBetween(u, events, lo, hi) == 0
    decreases |events|
  {
    if events == [] {
    } else {
      NoMissesAfter(After(u, events[0]), events[1..], lo, hi);
    }
  }

  lemma LockedAllowance(u: User, at: int, lo: int, hi: int)
    requires lo <= at <= hi && u.failedLoginCount >= MAX_LOGIN_FAILURES ==>
               u.loginLockedUntil == Some(at + LOGIN_LOCK_MS)
    ensures lo <= at <= hi && u.failedLoginCount >= MAX_LOGIN_FAILURES ==> Allowance(u, lo, hi) <= Spells(at, hi)
  {
    if lo <= at <= hi && at + LOGIN_LOCK_MS <= hi { SpellsShift(at, at, hi); }
  }

  lemma AllowanceAt(u: User, at: int, lo: int, hi: int)
    requires lo <= at <= hi && !u.Locked(at) && LockConsistent(u)
    ensures u.failedLoginCount >= MAX_LOGIN_FAILURES ==> Allowance(u, lo, hi) >= 1 + Spells(at, hi)
  {
    if u.failedLoginCount >= MAX_LOGIN_FAILURES {
      var open := if u.loginLockedUntil.value > lo then u.loginLockedUntil.value else lo;
      SpellsShift(open, at, hi);
    }
  }

  lemma {:induction false} ReplayConsistent(u: User, events: seq<Event>)
    requires LockConsistent(u)
    ensures LockConsistent(Replay(u, events))
    decreases |events|
  {
    if events == [] {
    } else {
      ReplayConsistent(After(u, events[0]), events[1..]);
    }
  }

  lemma {:induction false} SegmentBound(u: User, events: seq<Event>, lo: int, hi: int)
    requires LockConsistent(u) && Monotone(events) && Unrelieved(u, events) && lo <= hi
    ensures MissesBetween(u, events, lo, hi) <= MAX_LOGIN_FAILURES + (hi - lo) / LOGIN_LOCK_MS
    decreases |events|
  {
    if events == [] {
    } else {
      if events[0].at < lo {
        SegmentBound(After(u, events[0]), events[1..], lo, hi);
      } else {
        MissesWithinAllowance(u, events, lo, hi);
        var open := if u.loginLockedUntil.Some? && u.loginLockedUntil.value > lo then u.loginLockedUntil.value else lo;
        if open <= hi { SpellsShift(lo, open, hi); }
      }
    }
  }

  /**
   After any history of an account, and until the next success or reset, an interval of length T
   holds at most 5 + floor(T / 15 min) wrong guesses that the counter sees.
   */
  lemma GuessesArePaced(password: Option<string>, history: seq<Event>, segment: seq<Event>, lo: int, hi: int)
    requires Monotone(segment) && lo <= hi
    requires Unrelieved(Replay(User(password, 0, None), history), segment)
    ensures MissesBetween(Replay(User(password, 0, None), history), segment, lo, hi)
              <= MAX_LOGIN_FAILURES + (hi - lo) / LOGIN_LOCK_MS
  {
    ReplayConsistent(User(password, 0, None), history);
    SegmentBound(Replay(User(password, 0, None), history), segment, lo, hi);
  }

  /** While the lock holds every guess is refused, the right one included, and nothing about the account moves. */
  lemma {:induction false} LockHolds(u: User, guesses: seq<Event>)
    requires u.loginLockedUntil.Some?
    requires forall i | 0 <= i < |guesses| :: guesses[i].Guess? && guesses[i].at < u.loginLockedUntil.value
    ensures Replay(u, guesses) == u && Unrelieved(u, guesses)
    decreases |guesses|
  {
    if guesses == [] {
    } else {
      LockHolds(u, guesses[1..]);
    }
  }

  /** The fifth miss locks the account for the full term, whatever is typed in between. */
  lemma FifthMissLocks(u: User, e: Event, guesses: seq<Event>)
    requires CountedMiss(u, e) && u.failedLoginCount + 1 >= MAX_LOGIN_FAILURES
    requires forall i | 0 <= i < |guesses| :: guesses[i].Guess? && e.at <= guesses[i].at < e.at + LOGIN_LOCK_MS
    ensures Replay(After(u, e), guesses) == After(u, e)
    ensures forall i | 0 <= i < |guesses| ::
              Attempt(Replay(After(u, e), guesses), guesses[i].plain, guesses[i].at).1 == Refused
  {
    LockHolds(After(u, e), guesses);
  }

  /** One miss at the end of each of n lock terms, the first at `at`. */
  function Patient(plain: string, at: int, n: nat): seq<Event>
    decreases n
  {
    if n == 0 then [] else [Guess(plain, at)] + Patient(plain, at + LOGIN_LOCK_MS, n - 1)
  }

  lemma {:induction false} PatientMisses(u: User, plain: string, at: int, n: nat, lo: int, hi: int)
    requires u.failedLoginCount >= MAX_LOGIN_FAILURES && !u.Locked(at) && !u.Matches(plain)
    requires lo <= at && at + n * LOGIN_LOCK_MS <= hi + LOGIN_LOCK_MS
    ensures MissesBetween(u, Patient(plain, at, n), lo, hi) == n
    ensures Unrelieved(u, Patient(plain, at, n))
    decreases n
  {
    if n == 0 {
    } else {
      var events := Patient(plain, at, n);
      assert events[1..] == Patient(plain, at + LOGIN_LOCK_MS, n - 1);
      PatientMisses(After(u, events[0]), plain, at + LOGIN_LOCK_MS, n - 1, lo, hi);
    }
  }

  lemma QuickMiss(u: User, g: Event, rest: seq<Event>, lo: int, hi: int)
    requires CountedMiss(u, g) && lo <= g.at <= hi
    ensures MissesBetween(u, [g] + rest, lo, hi) == 1 + MissesBetween(After(u, g), rest, lo, hi)
    ensures Unrelieved(u, [g] + rest) <==> !Success(u, g) && Unrelieved(After(u, g), rest)
  {
    assert ([g] + rest)[0] == g && ([g] + rest)[1..] == rest;
  }

  lemma WholeTerms(n: nat)
    ensures (n * LOGIN_LOCK_MS) / LOGIN_LOCK_MS == n
  {}

  /** The fifth miss and the patient ones after it. */
  lemma PatientTail(password: Option<string>, wrong: string, n: nat)
    requires password != Some(wrong)
    ensures var u, tail := User(password, 4, None), Patient(wrong, 0, n + 1);
            Unrelieved(u, tail) && MissesBetween(u, tail, 0, n * LOGIN_LOCK_MS) == n + 1
  {
    var g, u := Guess(wrong, 0), User(password, 4, None);
    var tail := Patient(wrong, 0, n + 1);
    assert tail == [g] + Patient(wrong, LOGIN_LOCK_MS, n);
    PatientMisses(After(u, g), wrong, LOGIN_LOCK_MS, n, 0, n * LOGIN_LOCK_MS);
    QuickMiss(u, g, Patient(wrong, LOGIN_LOCK_MS, n), 0, n * LOGIN_LOCK_MS);
  }

  /** The pace is attained: four quick misses, then one per lock term, fit 5 + n into n lock terms. */
  lemma PaceIsTight(password: Option<string>, wrong: string, n: nat) returns (events: seq<Event>)
    requires password != Some(wrong)
    ensures Unrelieved(User(password, 0, None), events)
    ensures MissesBetween(User(password, 0, None), events, 0, n * LOGIN_LOCK_MS)
              == MAX_LOGIN_FAILURES + (n * LOGIN_LOCK_MS) / LOGIN_LOCK_MS
  {
    var g := Guess(wrong, 0);
    var tail := Patient(wrong, 0, n + 1);
    var hi := n * LOGIN_LOCK_MS;
    events := [g] + ([g] + ([g] + ([g] + tail)));
    PatientTail(password, wrong, n);
    QuickMiss(User(password, 3, None), g, tail, 0, hi);
    QuickMiss(User(password, 2, None), g, [g] + tail, 0, hi);
    QuickMiss(User(password, 1, None), g, [g] + ([g] + tail), 0, hi);
    QuickMiss(User(password, 0, None), g, [g] + ([g] + ([g] + tail)), 0, hi);
    WholeTerms(n);
  }
}
