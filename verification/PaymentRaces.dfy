/**
 Payment calls that overlap. A transition and the late sweep check the status of an item and write it later,
 without a guard. Which of these late writes keep items, ledger and late flags in balance, and with them
 whole interleaved runs.
 */
module PaymentRaces {
  import opened Common
  import opened Cheques
  import opened Payments
  import Risk

  /** A write whose check has passed. */
  datatype Intent = ToMove(id: nat, to: PaymentStatus) | ToLate(id: nat)

  datatype Request = Transition(id: nat, to: PaymentStatus) | Sweep(id: nat, today: int)

  function IntentOf(b: Book, r: Request): Option<Intent> {
    match r
    case Transition(id, to) =>
      if Exists(b, id) && to in Transitions(b.rows[id].value.status) then Some(ToMove(id, to)) else None
    case Sweep(id, today) => if id < |b.rows| && Overdue(b.rows[id], today) then Some(ToLate(id)) else None
  }

  /** An item deleted in the meantime refuses the write. */
  function Land(b: Book, intent: Intent): Book {
    if !Exists(b, intent.id) then b
    else
      match intent
      case ToMove(id, to) => MoveTo(b, id, to)
      case ToLate(id) => MarkLate(b, id)
  }

  /** A transition whose write follows its check at once is the call as one step. */
  lemma UninterruptedIsTheCall(b: Book, id: nat, to: PaymentStatus)
    ensures match TransitionPayment(b, id, to)
            case Ok(b') => IntentOf(b, Transition(id, to)).Some? && b' == Land(b, IntentOf(b, Transition(id, to)).value)
            case Err(_) => IntentOf(b, Transition(id, to)).None?
  {}

  // One late write

  predicate EverReceived(b: Book, id: nat) {
    Count(b.log, id, ChequeReceived) > 0
  }

  /** A receipt that was not deposited. */
  predicate ReceiptOut(b: Book, id: nat) {
    Count(b.log, id, ChequeReceived) > Count(b.log, id, ChequeDeposited)
  }

  /** Does a move to `to` fit an item of this status, given what happened to its cheque so far? */
  predicate Fits(status: PaymentStatus, to: PaymentStatus, everReceived: bool, receiptOut: bool) {
    match to
    case RECEIVED => status in {SCHEDULED, REQUESTED, LATE, BOUNCED} || (status == CANCELLED && !receiptOut)
    case DEPOSITED => status == RECEIVED || (status == CANCELLED && receiptOut)
    case CLEARED => status == DEPOSITED
    case BOUNCED => status == DEPOSITED
    case CANCELLED => status != DEPOSITED && status != CLEARED
    case _ => status in {SCHEDULED, REQUESTED, LATE} || (status == CANCELLED && !everReceived)
  }

  /** Whether a write keeps the books in balance, read off row, ledger and flag at the moment it lands. */
  predicate Harmless(b: Book, intent: Intent)
    requires Exists(b, intent.id)
  {
    var id := intent.id;
    var to := if intent.ToLate? then LATE else intent.to;
    && Fits(b.rows[id].value.status, to, EverReceived(b, id), ReceiptOut(b, id))
    && (to == REQUESTED ==> !Risk.HasActive(b.risk, LateScope(id), Risk.PAYMENT_LATE))
  }

  /** The counts of the new status hold exactly when the move fits. */
  lemma CountsAfterMove(status: PaymentStatus, to: PaymentStatus, received: nat, deposited: nat, cleared: nat,
      bounced: nat)
    requires StatusCounts(status, received, deposited, cleared, bounced) && to != SCHEDULED
    ensures StatusCounts(to,
                         received + (if to == RECEIVED then 1 else 0), deposited + (if to == DEPOSITED then 1 else 0),
                         cleared + (if to == CLEARED then 1 else 0), bounced + (if to == BOUNCED then 1 else 0))
            <==> Fits(status, to, received > 0, received > deposited)
  {}

  lemma LandCountsElsewhere(b: Book, intent: Intent, x: nat)
    requires BookInv(b) && Exists(b, intent.id) && x != intent.id
    ensures ItemCounts(Land(b, intent), x) && LateFlagTrue(Land(b, intent), x)
  {
    assert ItemCounts(b, x) && LateFlagTrue(b, x);
    EventCounts(b, intent, x);
    FlagOf(b, intent, x);
  }

  /** What the write adds to the ledger of item x. */
  lemma EventCounts(b: Book, intent: Intent, x: nat)
    requires Exists(b, intent.id)
    ensures forall kind :: Count(Land(b, intent).log, x, kind) ==
              Count(b.log, x, kind)
              + (if intent.ToMove? && x == intent.id && TransitionEvidence(intent.to) == Some(kind) then 1 else 0)
  {
    if intent.ToMove? && TransitionEvidence(intent.to).Some? {
      forall kind
        ensures Count(Land(b, intent).log, x, kind) ==
                  Count(b.log, x, kind)
                  + (if x == intent.id && TransitionEvidence(intent.to) == Some(kind) then 1 else 0)
      {
        CountSnoc(b.log, PaymentEvent(intent.id, TransitionEvidence(intent.to).value), x, kind);
      }
    }
  }

  /** The late flag of item x after the write. */
  lemma FlagOf(b: Book, intent: Intent, x: nat)
    requires Exists(b, intent.id) && Risk.OneActive(b.risk.flags)
    ensures Risk.HasActive(Land(b, intent).risk, LateScope(x), Risk.PAYMENT_LATE) <==>
            if x == intent.id && intent.ToLate? then true
            else if x == intent.id && intent.to in {RECEIVED, CLEARED, CANCELLED} then false
            else Risk.HasActive(b.risk, LateScope(x), Risk.PAYMENT_LATE)
  {
    Risk.SettleEffect(b.risk, LateScope(intent.id), Risk.Decision(Risk.PAYMENT_LATE, intent.ToLate?), LateScope(x),
      Risk.PAYMENT_LATE);
  }

  lemma ItemCountsHere(b: Book, intent: Intent)
    requires Exists(b, intent.id) && ItemCounts(b, intent.id) && (intent.ToMove? ==> intent.to != SCHEDULED)
    ensures ItemCounts(Land(b, intent), intent.id) <==>
            Fits(b.rows[intent.id].value.status, if intent.ToLate? then LATE else intent.to,
                 EverReceived(b, intent.id), ReceiptOut(b, intent.id))
  {
    var id, to := intent.id, if intent.ToLate? then LATE else intent.to;
    CountsHere(b, intent, to);
    CountsAfterMove(b.rows[id].value.status, to, Count(b.log, id, ChequeReceived), Count(b.log, id, ChequeDeposited),
                    Count(b.log, id, ChequeCleared), Count(b.log, id, ChequeBounced));
  }

  lemma CountsHere(b: Book, intent: Intent, to: PaymentStatus)
    requires Exists(b, intent.id) && to == if intent.ToLate? then LATE else intent.to
    ensures var b', id := Land(b, intent), intent.id;
            && Exists(b', id) && b'.rows[id].value.status == to
            && Count(b'.log, id, ChequeReceived) == Count(b.log, id, ChequeReceived) + (if to == RECEIVED then 1 else 0)
            && Count(b'.log, id, ChequeDeposited) ==
                 Count(b.log, id, ChequeDeposited) + (if to == DEPOSITED then 1 else 0)
            && Count(b'.log, id, ChequeCleared) == Count(b.log, id, ChequeCleared) + (if to == CLEARED then 1 else 0)
            && Count(b'.log, id, ChequeBounced) == Count(b.log, id, ChequeBounced) + (if to == BOUNCED then 1 else 0)
  {
    EventCounts(b, intent, intent.id);
  }

  /** Does the move fit the item it lands on? */
  predicate FitsHere(b: Book, intent: Intent)
    requires Exists(b, intent.id)
  {
    Fits(b.rows[intent.id].value.status, if intent.ToLate? then LATE else intent.to, EverReceived(b, intent.id),
         ReceiptOut(b, intent.id))
  }

  lemma LateFlagHere(b: Book, intent: Intent)
    requires Exists(b, intent.id) && LateFlagTrue(b, intent.id) && Risk.OneActive(b.risk.flags)
    requires (intent.ToMove? ==> intent.to != SCHEDULED) && FitsHere(b, intent)
    ensures LateFlagTrue(Land(b, intent), intent.id) <==>
            (intent.ToMove? && intent.to == REQUESTED ==>
               !Risk.HasActive(b.risk, LateScope(intent.id), Risk.PAYMENT_LATE))
  {
    FlagOf(b, intent, intent.id);
  }

  lemma InvHere(b: Book, id: nat)
    requires BookInv(b)
    ensures ItemCounts(b, id) && LateFlagTrue(b, id) && Risk.OneActive(b.risk.flags)
  {}

  lemma LandCountsHere(b: Book, intent: Intent)
    requires ItemCounts(b, intent.id) && LateFlagTrue(b, intent.id) && Risk.OneActive(b.risk.flags)
    requires Exists(b, intent.id) && (intent.ToMove? ==> intent.to != SCHEDULED)
    ensures ItemCounts(Land(b, intent), intent.id) && LateFlagTrue(Land(b, intent), intent.id) <==> Harmless(b, intent)
  {
    ItemCountsHere(b, intent);
    if FitsHere(b, intent) { LateFlagHere(b, intent); }
  }

  lemma LandKeepsRest(b: Book, intent: Intent)
    requires UniqueSeqs(b.rows) && Risk.Faithful(b.risk) && Exists(b, intent.id)
    ensures UniqueSeqs(Land(b, intent).rows) && Risk.Faithful(Land(b, intent).risk)
  {
    Risk.SettleFaithful(b.risk, LateScope(intent.id), Risk.Decision(Risk.PAYMENT_LATE, intent.ToLate?));
  }

  /** A late write keeps the books in balance if and only if it is harmless where it lands. */
  lemma LandingBalancedIff(b: Book, intent: Intent)
    requires BookInv(b) && Exists(b, intent.id) && (intent.ToMove? ==> intent.to != SCHEDULED)
    ensures BookInv(Land(b, intent)) <==> Harmless(b, intent)
  {
    var b' := Land(b, intent);
    LandKeepsRest(b, intent);
    InvHere(b, intent.id);
    LandCountsHere(b, intent);
    forall x: nat | x != intent.id ensures ItemCounts(b', x) && LateFlagTrue(b', x) {
      LandCountsElsewhere(b, intent, x);
    }
  }

  /** Without anything in between, a write is harmless. */
  lemma AtOnceIsHarmless(b: Book, r: Request)
    requires BookInv(b) && IntentOf(b, r).Some?
    ensures Exists(b, r.id) && Harmless(b, IntentOf(b, r).value)
  {
    assert ItemCounts(b, r.id) && LateFlagTrue(b, r.id);
  }

  /**
   A transition is accepted if and only if it moves the item, the books stay in balance with it, the item is
   not cancelled, and it does not take back a lateness.
   */
  lemma TransitionAcceptedIff(b: Book, id: nat, to: PaymentStatus)
    requires BookInv(b)
    ensures TransitionPayment(b, id, to).Ok? <==>
            && Exists(b, id) && to != b.rows[id].value.status && to != SCHEDULED
            && Fits(b.rows[id].value.status, to, EverReceived(b, id), ReceiptOut(b, id))
            && b.rows[id].value.status != CANCELLED && !(b.rows[id].value.status == LATE && to == REQUESTED)
    ensures TransitionPayment(b, id, to).Err? ==>
              TransitionPayment(b, id, to).error ==
                if id < |b.rows| && b.rows[id].Some? then InvalidTransition else NotFound
  {
    assert ItemCounts(b, id);
  }

  /** What an accepted transition writes: the status, its event, and a late flag that comes down. */
  lemma TransitionWrites(b: Book, id: nat, to: PaymentStatus, other: nat)
    requires BookInv(b) && TransitionPayment(b, id, to).Ok?
    ensures var b' := TransitionPayment(b, id, to).value;
            && b'.rows == b.rows[id := Some(b.rows[id].value.(status := to))]
            && b'.log == b.log + (match to
                                  case RECEIVED => [PaymentEvent(id, ChequeReceived)]
                                  case DEPOSITED => [PaymentEvent(id, ChequeDeposited)]
                                  case CLEARED => [PaymentEvent(id, ChequeCleared)]
                                  case BOUNCED => [PaymentEvent(id, ChequeBounced)]
                                  case REQUESTED => [PaymentEvent(id, ChequeDue)]
                                  case _ => [])
            && (Risk.HasActive(b'.risk, LateScope(other), Risk.PAYMENT_LATE) <==>
                  && Risk.HasActive(b.risk, LateScope(other), Risk.PAYMENT_LATE)
                  && !(other == id && to in {RECEIVED, CLEARED, CANCELLED}))
  {
    FlagOf(b, ToMove(id, to), other);
    UninterruptedIsTheCall(b, id, to);
  }

  /** Past its day and neither received nor cancelled. */
  predicate IsOverdue(row: Option<PaymentItem>, today: int) {
    row.Some? && row.value.status in {SCHEDULED, REQUESTED} && row.value.dueDay < today
  }

  /** The sweep marks exactly the overdue items late and raises the late flag of each; no other item or flag moves. */
  lemma {:induction false} SweepRaisesFlags(b: Book, today: int, from: nat, id: nat)
    requires from <= |b.rows| && Risk.OneActive(b.risk.flags)
    ensures var b' := DetectLateFrom(b, today, from);
            && |b'.rows| == |b.rows| && b'.log == b.log && Risk.OneActive(b'.risk.flags)
            && (Risk.HasActive(b'.risk, LateScope(id), Risk.PAYMENT_LATE) <==>
                  || Risk.HasActive(b.risk, LateScope(id), Risk.PAYMENT_LATE)
                  || (from <= id < |b.rows| && IsOverdue(b.rows[id], today)))
            && (id < |b.rows| ==>
                  b'.rows[id] == if from <= id && IsOverdue(b.rows[id], today)
                                 then Some(b.rows[id].value.(status := LATE)) else b.rows[id])
    decreases |b.rows| - from
  {
    if from == |b.rows| {
    } else if Overdue(b.rows[from], today) {
      Risk.SettleEffect(b.risk, LateScope(from), Risk.Decision(Risk.PAYMENT_LATE, true), LateScope(id),
                        Risk.PAYMENT_LATE);
      SweepRaisesFlags(MarkLate(b, from), today, from + 1, id);
    } else {
      SweepRaisesFlags(b, today, from + 1, id);
    }
  }

  // Whole interleaved runs

  datatype Race = Race(book: Book, pending: seq<Intent>)

  datatype Move = Check(request: Request) | Write(i: nat) | Reschedule(tenancy: nat, items: seq<PaymentItemInput>)

  predicate Possible(r: Race, move: Move) {
    match move
    case Check(request) => IntentOf(r.book, request).Some?
    case Write(i) => i < |r.pending|
    case Reschedule(_, items) => DistinctSeqs(items)
  }

  function Next(r: Race, move: Move): Race
    requires Possible(r, move)
  {
    match move
    case Check(request) => r.(pending := r.pending + [IntentOf(r.book, request).value])
    case Write(i) => Race(Land(r.book, r.pending[i]), r.pending[..i] + r.pending[i + 1..])
    case Reschedule(t, items) => r.(book := ReplaceSchedule(r.book, t, items).value)
  }

  predicate MoveHarmless(r: Race, move: Move)
    requires Possible(r, move)
  {
    move.Write? && Exists(r.book, r.pending[move.i].id) ==> Harmless(r.book, r.pending[move.i])
  }

  ghost predicate Runs(r: Race, moves: seq<Move>)
    decreases |moves|
  {
    moves != [] ==> Possible(r, moves[0]) && Runs(Next(r, moves[0]), moves[1..])
  }

  ghost predicate BalancedAlong(r: Race, moves: seq<Move>)
    requires Runs(r, moves)
    decreases |moves|
  {
    BookInv(r.book) && (moves != [] ==> BalancedAlong(Next(r, moves[0]), moves[1..]))
  }

  ghost predicate HarmlessAlong(r: Race, moves: seq<Move>)
    requires Runs(r, moves)
    decreases |moves|
  {
    moves != [] ==> MoveHarmless(r, moves[0]) && HarmlessAlong(Next(r, moves[0]), moves[1..])
  }

  ghost predicate PendingSound(r: Race) {
    forall i | 0 <= i < |r.pending| :: r.pending[i].ToMove? ==> r.pending[i].to != SCHEDULED
  }

  lemma MoveBalancedIff(r: Race, move: Move)
    requires BookInv(r.book) && PendingSound(r) && Possible(r, move)
    ensures PendingSound(Next(r, move)) && (BookInv(Next(r, move).book) <==> MoveHarmless(r, move))
  {
    match move
    case Check(_) =>
    case Write(i) => if Exists(r.book, r.pending[i].id) { LandingBalancedIff(r.book, r.pending[i]); }
    case Reschedule(t, items) => ScheduleInv(r.book, t, items);
  }

  lemma {:induction false} BalancedIffHarmless(r: Race, moves: seq<Move>)
    requires BookInv(r.book) && PendingSound(r) && Runs(r, moves)
    ensures BalancedAlong(r, moves) <==> HarmlessAlong(r, moves)
    decreases |moves|
  {
    if moves == [] {
    } else {
      MoveBalancedIff(r, moves[0]);
      if MoveHarmless(r, moves[0]) { BalancedIffHarmless(Next(r, moves[0]), moves[1..]); }
    }
  }

  /**
   In every interleaving of checks, writes and schedule changes from an empty book, items, ledger and late
   flags stay in balance throughout if and only if every write is harmless where it lands.
   */
  lemma RacesBalancedIffHarmless(moves: seq<Move>)
    requires Runs(Race(EMPTY_BOOK, []), moves)
    ensures BalancedAlong(Race(EMPTY_BOOK, []), moves) <==> HarmlessAlong(Race(EMPTY_BOOK, []), moves)
  {
    BalancedIffHarmless(Race(EMPTY_BOOK, []), moves);
  }

  /** Two calls that both read a received cheque deposit it twice. */
  lemma TwoDepositsOfOneReading(b: Book, id: nat)
    requires BookInv(b) && Exists(b, id) && b.rows[id].value.status == RECEIVED
    ensures var intent := IntentOf(b, Transition(id, DEPOSITED)).value;
            var b' := Land(Land(b, intent), intent);
            Count(b'.log, id, ChequeDeposited) == Count(b.log, id, ChequeDeposited) + 2 && !BookInv(b')
  {
    var intent := IntentOf(b, Transition(id, DEPOSITED)).value;
    var once := Land(b, intent);
    AtOnceIsHarmless(b, Transition(id, DEPOSITED));
    LandingBalancedIff(b, intent);
    LandingBalancedIff(once, intent);
    EventCounts(b, intent, id);
    EventCounts(once, intent, id);
  }
}
