/**
 Risk writes that overlap. Raising and clearing look for an active flag first and write later; in between
 another call may have written. Acknowledging writes without looking. Which of these late writes keep flags
 and ledger in step, and with them whole interleaved runs.
 */
module RiskRaces {
  import opened Common
  import opened Risk

  /** A call that has looked: no active flag to raise one over, or the active flag it will clear. */
  datatype Intent = ToRaise(scope: Scope, code: RiskCode) | ToClear(flag: nat)

  datatype Request = RaiseFlag(scope: Scope, code: RiskCode) | ClearFlag(scope: Scope, code: RiskCode)

  /** What the look leads to; nothing to do ends the call. */
  function IntentOf(d: Desk, r: Request): Option<Intent> {
    var open := FirstActive(d.flags, r.scope, r.code);
    if r.RaiseFlag? then (if open.Some? then None else Some(ToRaise(r.scope, r.code)))
    else (if open.Some? then Some(ToClear(open.value)) else None)
  }

  /** The unique index refuses a second active flag; the clearing write goes by row id. */
  function Land(d: Desk, intent: Intent): Desk {
    match intent
    case ToRaise(sc, code) =>
      if HasActive(d, sc, code) then d else Desk(d.flags + [Flag(sc, code, Open)], d.log + [FlagRaised(sc, code)])
    case ToClear(i) =>
      if i >= |d.flags| then d
      else Desk(d.flags[i := d.flags[i].(status := Cleared)], d.log + [FlagCleared(d.flags[i].scope, d.flags[i].code)])
  }

  function Whole(d: Desk, r: Request): Desk {
    if r.RaiseFlag? then Raise(d, r.scope, r.code) else Clear(d, r.scope, r.code)
  }

  /** A call whose write follows its look at once is the call as one step; it writes nothing where nothing is to do. */
  lemma UninterruptedIsTheCall(d: Desk, r: Request)
    ensures IntentOf(d, r).None? <==> (r.RaiseFlag? <==> HasActive(d, r.scope, r.code))
    ensures Whole(d, r) == match IntentOf(d, r) case Some(intent) => Land(d, intent) case None => d
  {}

  /** Whether a write keeps flags and ledger in step, read off the flags at the moment it lands. */
  predicate Harmless(d: Desk, intent: Intent) {
    intent.ToClear? && intent.flag < |d.flags| ==> d.flags[intent.flag].status != Cleared
  }

  lemma LateRaiseIsFaithful(d: Desk, sc: Scope, code: RiskCode)
    requires Faithful(d)
    ensures Faithful(Land(d, ToRaise(sc, code)))
  {
    SettleFaithful(d, sc, Decision(code, true));
    assert Land(d, ToRaise(sc, code)) == Raise(d, sc, code);
  }

  lemma LateClearFaithfulIff(d: Desk, i: nat)
    requires Faithful(d) && i < |d.flags|
    ensures Faithful(Land(d, ToClear(i))) <==> d.flags[i].status != Cleared
  {
    var sc, code, d' := d.flags[i].scope, d.flags[i].code, Land(d, ToClear(i));
    if d.flags[i].status != Cleared {
      TheActiveOne(d, i);
      SettleFaithful(d, sc, Decision(code, false));
      assert d' == Clear(d, sc, code);
    } else {
      assert d'.flags == d.flags;
      ReplaySnoc(d.log, FlagCleared(sc, code), sc, code);
      assert Replay(d.log, sc, code) == Some(HasActive(d, sc, code));
      assert Replay(d'.log, sc, code) != Some(HasActive(d', sc, code));
    }
  }

  lemma TheActiveOne(d: Desk, i: nat)
    requires OneActive(d.flags) && i < |d.flags| && d.flags[i].status != Cleared
    ensures FirstActive(d.flags, d.flags[i].scope, d.flags[i].code) == Some(i)
  {
    ActiveWitness(d.flags, i, d.flags[i].scope, d.flags[i].code);
  }

  /** A late write keeps flags and ledger in step if and only if it does not clear a flag already cleared. */
  lemma LandingFaithfulIff(d: Desk, intent: Intent)
    requires Faithful(d)
    ensures Faithful(Land(d, intent)) <==> Harmless(d, intent)
  {
    match intent
    case ToRaise(sc, code) => LateRaiseIsFaithful(d, sc, code);
    case ToClear(i) => if i < |d.flags| { LateClearFaithfulIff(d, i); }
  }

  // Whole interleaved runs

  datatype Race = Race(desk: Desk, pending: seq<Intent>)

  datatype Move = Look(request: Request) | Write(i: nat) | Acknowledging(flag: nat)

  predicate Possible(r: Race, move: Move) {
    match move
    case Look(request) => IntentOf(r.desk, request).Some?
    case Write(i) => i < |r.pending|
    case Acknowledging(i) => i < |r.desk.flags|
  }

  function Next(r: Race, move: Move): Race
    requires Possible(r, move)
  {
    match move
    case Look(request) => r.(pending := r.pending + [IntentOf(r.desk, request).value])
    case Write(i) => Race(Land(r.desk, r.pending[i]), r.pending[..i] + r.pending[i + 1..])
    case Acknowledging(i) => r.(desk := Acknowledge(r.desk, i))
  }

  /** The condition on one move, where it happens. */
  predicate MoveHarmless(r: Race, move: Move)
    requires Possible(r, move)
  {
    match move
    case Look(_) => true
    case Write(i) => Harmless(r.desk, r.pending[i])
    case Acknowledging(i) => AcknowledgesActive(r.desk, i)
  }

  ghost predicate Runs(r: Race, moves: seq<Move>)
    decreases |moves|
  {
    moves != [] ==> Possible(r, moves[0]) && Runs(Next(r, moves[0]), moves[1..])
  }

  ghost predicate FaithfulAlong(r: Race, moves: seq<Move>)
    requires Runs(r, moves)
    decreases |moves|
  {
    Faithful(r.desk) && (moves != [] ==> FaithfulAlong(Next(r, moves[0]), moves[1..]))
  }

  ghost predicate HarmlessAlong(r: Race, moves: seq<Move>)
    requires Runs(r, moves)
    decreases |moves|
  {
    moves != [] ==> MoveHarmless(r, moves[0]) && HarmlessAlong(Next(r, moves[0]), moves[1..])
  }

  lemma MoveFaithfulIff(r: Race, move: Move)
    requires Faithful(r.desk) && Possible(r, move)
    ensures Faithful(Next(r, move).desk) <==> MoveHarmless(r, move)
  {
    match move
    case Look(_) =>
    case Write(i) => LandingFaithfulIff(r.desk, r.pending[i]);
    case Acknowledging(i) => AcknowledgeFaithfulIffActive(r.desk, i);
  }

  lemma {:induction false} FaithfulIffHarmless(r: Race, moves: seq<Move>)
    requires Faithful(r.desk) && Runs(r, moves)
    ensures FaithfulAlong(r, moves) <==> HarmlessAlong(r, moves)
    decreases |moves|
  {
    if moves == [] {
    } else {
      MoveFaithfulIff(r, moves[0]);
      if MoveHarmless(r, moves[0]) { FaithfulIffHarmless(Next(r, moves[0]), moves[1..]); }
    }
  }

  /**
   In every interleaving of looks, writes and acknowledgements from an empty table, flags and ledger stay in
   step throughout if and only if no write clears a flag that is cleared already and no acknowledgement
   revives one.
   */
  lemma RacesFaithfulIffHarmless(moves: seq<Move>)
    requires Runs(Race(Desk([], []), []), moves)
    ensures FaithfulAlong(Race(Desk([], []), []), moves) <==> HarmlessAlong(Race(Desk([], []), []), moves)
  {
    assert Faithful(Desk([], []));
    FaithfulIffHarmless(Race(Desk([], []), []), moves);
  }

  /** Two calls that both find the flag to clear log the clearing twice. */
  lemma TwoClearsOfOneReading(d: Desk, sc: Scope, code: RiskCode)
    requires Faithful(d) && HasActive(d, sc, code)
    ensures var intent := IntentOf(d, ClearFlag(sc, code)).value;
            var d' := Land(Land(d, intent), intent);
            d'.log == d.log + [FlagCleared(sc, code), FlagCleared(sc, code)] && !Faithful(d')
  {
    var i := FirstActive(d.flags, sc, code).value;
    LateClearFaithfulIff(d, i);
    LateClearFaithfulIff(Land(d, ToClear(i)), i);
  }
}
