/**
 The payments register: schedule replacement, the cheque state machine with its ledger events,
 and the late sweep. A payment row is named by its position; a deleted row leaves None behind.
 */
module Payments {
  import opened Common
  import opened Cheques
  import Risk

  datatype PaymentStatus = SCHEDULED | REQUESTED | RECEIVED | DEPOSITED | CLEARED | LATE | BOUNCED | CANCELLED

  datatype PaymentItem = PaymentItem(tenancy: nat, seqNo: int, dueDay: int, amount: int, status: PaymentStatus)

  datatype Evidence = ChequeDue | ChequeReceived | ChequeDeposited | ChequeCleared | ChequeBounced

  datatype PaymentEvent = PaymentEvent(item: nat, kind: Evidence)

  datatype PaymentError = NotFound | InvalidTransition | DuplicateSeq

  datatype Book = Book(rows: seq<Option<PaymentItem>>, log: seq<PaymentEvent>, risk: Risk.Desk)

  function Transitions(from: PaymentStatus): set<PaymentStatus> {
    match from
    case SCHEDULED => {REQUESTED, RECEIVED, LATE, CANCELLED}
    case REQUESTED => {RECEIVED, LATE, CANCELLED}
    case RECEIVED => {DEPOSITED, CANCELLED}
    case DEPOSITED => {CLEARED, BOUNCED}
    case LATE => {RECEIVED, CANCELLED}
    case BOUNCED => {RECEIVED, CANCELLED}
    case CLEARED => {}
    case CANCELLED => {}
  }

  function TransitionEvidence(to: PaymentStatus): Option<Evidence> {
    match to
    case RECEIVED => Some(ChequeReceived)
    case DEPOSITED => Some(ChequeDeposited)
    case CLEARED => Some(ChequeCleared)
    case BOUNCED => Some(ChequeBounced)
    case REQUESTED => Some(ChequeDue)
    case _ => None
  }

  function LateScope(id: nat): Risk.Scope {
    Risk.Scope(Risk.PAYMENT_ITEM, id)
  }

  predicate Exists(b: Book, id: nat) {
    id < |b.rows| && b.rows[id].Some?
  }

  function SetStatus(b: Book, id: nat, to: PaymentStatus): Book
    requires Exists(b, id)
  {
    b.(rows := b.rows[id := Some(b.rows[id].value.(status := to))])
  }

  /** The writes of a transition: the row, its event and the late flag. */
  function MoveTo(b: Book, id: nat, to: PaymentStatus): Book
    requires Exists(b, id)
  {
    var ev := TransitionEvidence(to);
    SetStatus(b, id, to).(
      log := if ev.Some? then b.log + [PaymentEvent(id, ev.value)] else b.log,
      risk := if to in {RECEIVED, CLEARED, CANCELLED} then Risk.Clear(b.risk, LateScope(id), Risk.PAYMENT_LATE)
        else b.risk)
  }

  function TransitionPayment(b: Book, id: nat, to: PaymentStatus): Result<Book, PaymentError> {
    if !Exists(b, id) then Err(NotFound)
    else if to !in Transitions(b.rows[id].value.status) then Err(InvalidTransition)
    else Ok(MoveTo(b, id, to))
  }

  predicate Overdue(row: Option<PaymentItem>, today: int) {
    row.Some? && (row.value.status == SCHEDULED || row.value.status == REQUESTED) && row.value.dueDay < today
  }

  function MarkLate(b: Book, id: nat): Book
    requires Exists(b, id)
  {
    SetStatus(b, id, LATE).(risk := Risk.Raise(b.risk, LateScope(id), Risk.PAYMENT_LATE))
  }

  /** The late sweep from row `from` on. */
  function DetectLateFrom(b: Book, today: int, from: nat): Book
    requires from <= |b.rows|
    decreases |b.rows| - from
  {
    if from == |b.rows| then b
    else if Overdue(b.rows[from], today) then DetectLateFrom(MarkLate(b, from), today, from + 1)
    else DetectLateFrom(b, today, from + 1)
  }

  predicate OfTenancy(row: Option<PaymentItem>, t: nat) {
    row.Some? && row.value.tenancy == t
  }

  predicate Movable(row: Option<PaymentItem>, t: nat) {
    OfTenancy(row, t) && row.value.status == SCHEDULED
  }

  function DeleteMovable(rows: seq<Option<PaymentItem>>, t: nat): (out: seq<Option<PaymentItem>>)
    ensures |out| == |rows|
  {
    seq(|rows|, i requires 0 <= i < |rows| => if Movable(rows[i], t) then None else rows[i])
  }

  predicate HeldSeq(rows: seq<Option<PaymentItem>>, t: nat, seqNo: int) {
    exists i | 0 <= i < |rows| :: OfTenancy(rows[i], t) && rows[i].value.seqNo == seqNo
  }

  function NewItem(t: nat, x: PaymentItemInput): Option<PaymentItem> {
    Some(PaymentItem(t, x.seqNo, x.dueDay, x.amount, SCHEDULED))
  }

  /** Adds the requested items; a seq that is still held keeps its history. */
  function AddItems(rows: seq<Option<PaymentItem>>, t: nat, xs: seq<PaymentItemInput>): seq<Option<PaymentItem>>
    decreases |xs|
  {
    if xs == [] then rows
    else if HeldSeq(rows, t, xs[0].seqNo) then AddItems(rows, t, xs[1..])
    else AddItems(rows + [NewItem(t, xs[0])], t, xs[1..])
  }

  predicate DistinctSeqs(xs: seq<PaymentItemInput>) {
    forall i, j | 0 <= i < j < |xs| :: xs[i].seqNo != xs[j].seqNo
  }

  function ReplaceSchedule(b: Book, t: nat, xs: seq<PaymentItemInput>): Result<Book, PaymentError> {
    if !DistinctSeqs(xs) then Err(DuplicateSeq)
    else Ok(b.(rows := AddItems(DeleteMovable(b.rows, t), t, xs)))
  }

  // Schedule replacement.

  /** The unique (tenancy, seq) index. */
  ghost predicate UniqueSeqs(rows: seq<Option<PaymentItem>>) {
    forall i, j | 0 <= i < j < |rows| && rows[i].Some? && rows[j].Some? ::
      !(rows[i].value.tenancy == rows[j].value.tenancy && rows[i].value.seqNo == rows[j].value.seqNo)
  }

  lemma {:induction false} AddItemsEffect(rows: seq<Option<PaymentItem>>, t: nat, xs: seq<PaymentItemInput>)
    requires UniqueSeqs(rows)
    ensures var rows' := AddItems(rows, t, xs);
            && rows <= rows'
            && UniqueSeqs(rows')
            && (forall i | |rows| <= i < |rows'| :: OfTenancy(rows'[i], t) && rows'[i].value.status == SCHEDULED)
            && (forall n: int :: HeldSeq(rows', t, n) <==> HeldSeq(rows, t, n) || exists k | 0 <= k < |xs| ::
              xs[k].seqNo == n)
    decreases |xs|
  {
    if xs == [] {
    } else {
      var head, rest := xs[0], xs[1..];
      var rows1 := if HeldSeq(rows, t, head.seqNo) then rows else rows + [NewItem(t, head)];
      var rows' := AddItems(rows, t, xs);
      if !HeldSeq(rows, t, head.seqNo) {
        forall i | 0 <= i < |rows| && OfTenancy(rows[i], t) ensures rows[i].value.seqNo != head.seqNo {}
        AppendHeld(rows, t, head);
      }
      AddItemsEffect(rows1, t, rest);
      forall n: int
        ensures HeldSeq(rows', t, n) <==> HeldSeq(rows, t, n) || exists k | 0 <= k < |xs| :: xs[k].seqNo == n
      {
        if k :| 0 <= k < |xs| && xs[k].seqNo == n { assert k > 0 ==> rest[k - 1].seqNo == n; }
        if k :| 0 <= k < |rest| && rest[k].seqNo == n { assert xs[k + 1].seqNo == n; }
        assert xs[0].seqNo == head.seqNo;
      }
    }
  }

  lemma AppendHeld(rows: seq<Option<PaymentItem>>, t: nat, x: PaymentItemInput)
    ensures forall n: int :: HeldSeq(rows + [NewItem(t, x)], t, n) <==> HeldSeq(rows, t, n) || n == x.seqNo
  {
    var rows' := rows + [NewItem(t, x)];
    forall n: int ensures HeldSeq(rows', t, n) <==> HeldSeq(rows, t, n) || n == x.seqNo {
      assert OfTenancy(rows'[|rows|], t) && rows'[|rows|].value.seqNo == x.seqNo;
      if i :| 0 <= i < |rows| && OfTenancy(rows[i], t) && rows[i].value.seqNo == n { assert rows'[i] == rows[i]; }
    }
  }

  lemma {:induction false} AddItemsData(rows: seq<Option<PaymentItem>>, t: nat, xs: seq<PaymentItemInput>, k: nat)
    requires UniqueSeqs(rows) && DistinctSeqs(xs)
    requires k < |xs| && !HeldSeq(rows, t, xs[k].seqNo)
    ensures exists i | |rows| <= i < |AddItems(rows, t, xs)| :: AddItems(rows, t, xs)[i] == NewItem(t, xs[k])
    decreases |xs|
  {
    var rows1 := if HeldSeq(rows, t, xs[0].seqNo) then rows else rows + [NewItem(t, xs[0])];
    var rows' := AddItems(rows, t, xs);
    if k == 0 {
      assert UniqueSeqs(rows1);
      AddItemsEffect(rows1, t, xs[1..]);
      assert rows'[|rows|] == NewItem(t, xs[0]);
    } else {
      if rows1 != rows {
        assert UniqueSeqs(rows1);
        AppendHeld(rows, t, xs[0]);
      }
      AddItemsData(rows1, t, xs[1..], k - 1);
    }
  }

  lemma ReplacementEffect(b: Book, t: nat, xs: seq<PaymentItemInput>)
    requires UniqueSeqs(b.rows) && DistinctSeqs(xs)
    ensures ReplaceSchedule(b, t, xs).Ok?
    ensures var rows, rows' := b.rows, ReplaceSchedule(b, t, xs).value.rows;
            && |rows| <= |rows'|
            && (forall i | 0 <= i < |rows| :: rows'[i] == if Movable(rows[i], t) then None else rows[i])
            && UniqueSeqs(rows')
            && (forall n: int :: HeldSeq(rows', t, n) <==>
                  (exists i | 0 <= i < |rows| ::
                    OfTenancy(rows[i], t) && !Movable(rows[i], t) && rows[i].value.seqNo == n)
                  || exists k | 0 <= k < |xs| :: xs[k].seqNo == n)
            && (forall k | 0 <= k < |xs| && !HeldSeq(DeleteMovable(rows, t), t, xs[k].seqNo) ::
              NewItem(t, xs[k]) in rows'[|rows|..])
  {
    var rows, kept := b.rows, DeleteMovable(b.rows, t);
    var rows' := AddItems(kept, t, xs);
    AddItemsEffect(kept, t, xs);
    forall i | 0 <= i < |rows| ensures rows'[i] == if Movable(rows[i], t) then None else rows[i] {
      assert rows'[i] == kept[i];
    }
    forall n: int
      ensures HeldSeq(kept, t, n) <==>
                exists i | 0 <= i < |rows| :: OfTenancy(rows[i], t) && !Movable(rows[i], t) && rows[i].value.seqNo == n
    {
      if i :| 0 <= i < |rows| && OfTenancy(rows[i], t) && !Movable(rows[i], t) && rows[i].value.seqNo == n {
        assert kept[i] == rows[i];
      }
      if i :| 0 <= i < |kept| && OfTenancy(kept[i], t) && kept[i].value.seqNo == n {
        assert OfTenancy(rows[i], t) && !Movable(rows[i], t);
      }
    }
    forall k | 0 <= k < |xs| && !HeldSeq(kept, t, xs[k].seqNo) ensures NewItem(t, xs[k]) in rows'[|rows|..] {
      AddItemsData(kept, t, xs, k);
      var i :| |kept| <= i < |rows'| && rows'[i] == NewItem(t, xs[k]);
      assert rows'[|rows|..][i - |rows|] == rows'[i];
    }
  }

  /** An item a schedule change drops. */
  predicate Planned(row: Option<PaymentItem>, t: nat) {
    row.Some? && row.value.tenancy == t && row.value.status == SCHEDULED
  }

  /** The seq is that of an item that moved past SCHEDULED. */
  predicate SeqIsHistory(rows: seq<Option<PaymentItem>>, t: nat, seqNo: int) {
    exists i | 0 <= i < |rows| ::
      rows[i].Some? && rows[i].value.tenancy == t && rows[i].value.status != SCHEDULED && rows[i].value.seqNo == seqNo
  }

  /** What a schedule change leaves: the other items, and each requested one whose seq is not history. */
  ghost predicate Replaced(rows: seq<Option<PaymentItem>>, rows': seq<Option<PaymentItem>>, t: nat,
      xs: seq<PaymentItemInput>)
  {
    && |rows| <= |rows'| && UniqueSeqs(rows')
    && (forall i | 0 <= i < |rows| :: rows'[i] == if Planned(rows[i], t) then None else rows[i])
    && (forall i | |rows| <= i < |rows'| ::
          && Planned(rows'[i], t) && !SeqIsHistory(rows, t, rows'[i].value.seqNo)
          && exists k | 0 <= k < |xs| :: rows'[i].value.seqNo == xs[k].seqNo)
    && (forall k | 0 <= k < |xs| && !SeqIsHistory(rows, t, xs[k].seqNo) ::
          Some(PaymentItem(t, xs[k].seqNo, xs[k].dueDay, xs[k].amount, SCHEDULED)) in rows'[|rows|..])
  }

  lemma KeptIsHistory(rows: seq<Option<PaymentItem>>, t: nat, seqNo: int)
    ensures HeldSeq(DeleteMovable(rows, t), t, seqNo) <==> SeqIsHistory(rows, t, seqNo)
  {
    var kept := DeleteMovable(rows, t);
    if SeqIsHistory(rows, t, seqNo) {
      var i :| 0 <= i < |rows| && rows[i].Some? && rows[i].value.tenancy == t && rows[i].value.status != SCHEDULED
        && rows[i].value.seqNo == seqNo;
      assert OfTenancy(kept[i], t);
    }
    if HeldSeq(kept, t, seqNo) {
      var i :| 0 <= i < |kept| && OfTenancy(kept[i], t) && kept[i].value.seqNo == seqNo;
      assert rows[i] == kept[i];
    }
  }

  lemma AddedWereAsked(rows: seq<Option<PaymentItem>>, t: nat, xs: seq<PaymentItemInput>, i: nat)
    requires UniqueSeqs(rows) && |rows| <= i < |AddItems(DeleteMovable(rows, t), t, xs)|
    ensures var row := AddItems(DeleteMovable(rows, t), t, xs)[i];
            && Planned(row, t) && !SeqIsHistory(rows, t, row.value.seqNo)
            && exists k | 0 <= k < |xs| :: row.value.seqNo == xs[k].seqNo
  {
    var kept := DeleteMovable(rows, t);
    var rows' := AddItems(kept, t, xs);
    AddItemsEffect(kept, t, xs);
    var n := rows'[i].value.seqNo;
    KeptIsHistory(rows, t, n);
    assert HeldSeq(rows', t, n);
    forall j | 0 <= j < |kept| && OfTenancy(kept[j], t) ensures kept[j].value.seqNo != n {
      assert rows'[j] == kept[j];
    }
  }

  /**
   A schedule with a repeated seq is refused. Any other keeps every item that moved past SCHEDULED, drops
   the planned ones, and adds each requested item as given unless its seq is history; nothing else changes.
   */
  lemma ScheduleReplaced(b: Book, t: nat, xs: seq<PaymentItemInput>)
    requires UniqueSeqs(b.rows)
    ensures var r := ReplaceSchedule(b, t, xs);
            if exists i, j | 0 <= i < j < |xs| :: xs[i].seqNo == xs[j].seqNo then r.Err?
            else r.Ok? && r.value.(rows := b.rows) == b && Replaced(b.rows, r.value.rows, t, xs)
  {
    if DistinctSeqs(xs) {
      ReplacementEffect(b, t, xs);
      var rows, rows' := b.rows, ReplaceSchedule(b, t, xs).value.rows;
      forall i | |rows| <= i < |rows'|
        ensures Planned(rows'[i], t) && !SeqIsHistory(rows, t, rows'[i].value.seqNo)
        ensures exists k | 0 <= k < |xs| :: rows'[i].value.seqNo == xs[k].seqNo
      {
        AddedWereAsked(rows, t, xs, i);
      }
      forall k | 0 <= k < |xs| && !SeqIsHistory(rows, t, xs[k].seqNo)
        ensures Some(PaymentItem(t, xs[k].seqNo, xs[k].dueDay, xs[k].amount, SCHEDULED)) in rows'[|rows|..]
      {
        KeptIsHistory(rows, t, xs[k].seqNo);
        assert NewItem(t, xs[k]) in rows'[|rows|..];
      }
    }
  }

  // What the ledger says about one item.

  function Count(log: seq<PaymentEvent>, id: nat, kind: Evidence): nat
    decreases |log|
  {
    if log == [] then 0
    else Count(log[..|log| - 1], id, kind) + (if log[|log| - 1] == PaymentEvent(id, kind) then 1 else 0)
  }

  lemma CountSnoc(log: seq<PaymentEvent>, e: PaymentEvent, id: nat, kind: Evidence)
    ensures Count(log + [e], id, kind) == Count(log, id, kind) + (if e == PaymentEvent(id, kind) then 1 else 0)
  {
    assert (log + [e])[..|log|] == log;
  }

  /** Exact counts for each status of an item that exists. */
  ghost predicate StatusCounts(status: PaymentStatus, received: nat, deposited: nat, cleared: nat, bounced: nat) {
    match status
    case RECEIVED => received == bounced + 1 && deposited == bounced && cleared == 0
    case DEPOSITED => received == deposited == bounced + 1 && cleared == 0
    case CLEARED => received == deposited == bounced + 1 && cleared == 1
    case BOUNCED => received == deposited == bounced >= 1 && cleared == 0
    case CANCELLED => deposited == bounced && deposited <= received <= deposited + 1 && cleared == 0
    case _ => received == deposited == cleared == bounced == 0
  }

  ghost predicate ItemCounts(b: Book, id: nat) {
    var status := if Exists(b, id) then b.rows[id].value.status else SCHEDULED;
    StatusCounts(status, Count(b.log, id, ChequeReceived), Count(b.log, id, ChequeDeposited),
                 Count(b.log, id, ChequeCleared), Count(b.log, id, ChequeBounced))
  }

  ghost predicate LateFlagTrue(b: Book, id: nat) {
    Risk.HasActive(b.risk, LateScope(id), Risk.PAYMENT_LATE) ==> Exists(b, id) && b.rows[id].value.status == LATE
  }

  ghost predicate BookInv(b: Book) {
    && UniqueSeqs(b.rows)
    && Risk.Faithful(b.risk)
    && forall id: nat :: ItemCounts(b, id) && LateFlagTrue(b, id)
  }

  lemma MoveEvents(b: Book, id: nat, to: PaymentStatus, x: nat, kind: Evidence)
    requires Exists(b, id)
    ensures Count(MoveTo(b, id, to).log, x, kind)
         == Count(b.log, x, kind) + if x == id && TransitionEvidence(to) == Some(kind) then 1 else 0
  {
    var ev := TransitionEvidence(to);
    if ev.Some? {
      CountSnoc(b.log, PaymentEvent(id, ev.value), x, kind);
    }
  }

  function One(to: PaymentStatus, kind: PaymentStatus): nat {
    if to == kind then 1 else 0
  }

  lemma MoveStatusCounts(from: PaymentStatus, to: PaymentStatus, r: nat, d: nat, c: nat, u: nat)
    requires StatusCounts(from, r, d, c, u) && to in Transitions(from)
    ensures StatusCounts(to, r + One(to, RECEIVED), d + One(to, DEPOSITED), c + One(to, CLEARED), u + One(to, BOUNCED))
  {}

  lemma TransitionCounts(b: Book, id: nat, to: PaymentStatus, x: nat)
    requires ItemCounts(b, x) && TransitionPayment(b, id, to).Ok?
    ensures ItemCounts(TransitionPayment(b, id, to).value, x)
  {
    MoveEvents(b, id, to, x, ChequeReceived);
    MoveEvents(b, id, to, x, ChequeDeposited);
    MoveEvents(b, id, to, x, ChequeCleared);
    MoveEvents(b, id, to, x, ChequeBounced);
    if x == id {
      MoveStatusCounts(b.rows[id].value.status, to, Count(b.log, x, ChequeReceived), Count(b.log, x, ChequeDeposited),
        Count(b.log, x, ChequeCleared), Count(b.log, x, ChequeBounced));
    }
  }

  lemma TransitionLate(b: Book, id: nat, to: PaymentStatus, x: nat)
    requires LateFlagTrue(b, x) && Risk.OneActive(b.risk.flags) && TransitionPayment(b, id, to).Ok?
    ensures LateFlagTrue(TransitionPayment(b, id, to).value, x)
  {
    Risk.ClearEffect(b.risk, LateScope(id), Risk.PAYMENT_LATE, LateScope(x), Risk.PAYMENT_LATE);
  }

  lemma TransitionInv(b: Book, id: nat, to: PaymentStatus)
    requires BookInv(b) && TransitionPayment(b, id, to).Ok?
    ensures BookInv(TransitionPayment(b, id, to).value)
  {
    var b' := TransitionPayment(b, id, to).value;
    Risk.SettleFaithful(b.risk, LateScope(id), Risk.Decision(Risk.PAYMENT_LATE, false));
    forall x: nat ensures ItemCounts(b', x) && LateFlagTrue(b', x) {
      assert ItemCounts(b, x) && LateFlagTrue(b, x);
      TransitionCounts(b, id, to, x);
      TransitionLate(b, id, to, x);
    }
  }

  lemma MarkLateInv(b: Book, id: nat, today: int)
    requires BookInv(b) && id < |b.rows| && Overdue(b.rows[id], today)
    ensures BookInv(MarkLate(b, id))
  {
    var b' := MarkLate(b, id);
    Risk.SettleFaithful(b.risk, LateScope(id), Risk.Decision(Risk.PAYMENT_LATE, true));
    forall x: nat ensures ItemCounts(b', x) && LateFlagTrue(b', x) {
      assert ItemCounts(b, x) && LateFlagTrue(b, x);
      Risk.RaiseEffect(b.risk, LateScope(id), Risk.PAYMENT_LATE, LateScope(x), Risk.PAYMENT_LATE);
    }
  }

  lemma {:induction false} DetectLateInv(b: Book, today: int, from: nat)
    requires BookInv(b) && from <= |b.rows|
    ensures BookInv(DetectLateFrom(b, today, from))
    decreases |b.rows| - from
  {
    if from >= |b.rows| {
    } else {
      if Overdue(b.rows[from], today) {
        MarkLateInv(b, from, today);
        DetectLateInv(MarkLate(b, from), today, from + 1);
      } else {
        DetectLateInv(b, today, from + 1);
      }
    }
  }

  lemma ScheduleInv(b: Book, t: nat, xs: seq<PaymentItemInput>)
    requires BookInv(b) && DistinctSeqs(xs)
    ensures BookInv(ReplaceSchedule(b, t, xs).value)
  {
    var b' := ReplaceSchedule(b, t, xs).value;
    ReplacementEffect(b, t, xs);
    AddItemsEffect(DeleteMovable(b.rows, t), t, xs);
    forall x: nat ensures ItemCounts(b', x) && LateFlagTrue(b', x) {
      assert ItemCounts(b, x) && LateFlagTrue(b, x);
    }
  }

  /** The sweep marks exactly the overdue items, and running it again marks nothing. */
  lemma {:induction false} DetectLateEffect(b: Book, today: int, from: nat)
    requires from <= |b.rows|
    ensures var b' := DetectLateFrom(b, today, from);
            && |b'.rows| == |b.rows| && b'.log == b.log
            && (forall i | 0 <= i < |b.rows| ::
                  b'.rows[i] == if from <= i && Overdue(b.rows[i], today) then Some(b.rows[i].value.(status := LATE))
                    else b.rows[i])
    decreases |b.rows| - from
  {
    if from >= |b.rows| {
    } else {
      DetectLateEffect(if Overdue(b.rows[from], today) then MarkLate(b, from) else b, today, from + 1);
    }
  }

  lemma {:induction false} NothingOverdue(b: Book, today: int, from: nat)
    requires from <= |b.rows|
    requires forall i | from <= i < |b.rows| :: !Overdue(b.rows[i], today)
    ensures DetectLateFrom(b, today, from) == b
    decreases |b.rows| - from
  {
    if from >= |b.rows| {
    } else {
      NothingOverdue(b, today, from + 1);
    }
  }

  /** One sweep a day is enough: a second one on the same day changes neither items, flags nor ledger. */
  lemma LateSweepIsIdempotent(b: Book, today: int)
    ensures DetectLateFrom(DetectLateFrom(b, today, 0), today, 0) == DetectLateFrom(b, today, 0)
  {
    DetectLateEffect(b, today, 0);
    NothingOverdue(DetectLateFrom(b, today, 0), today, 0);
  }

  // Whole runs.

  datatype Op =
    | MoveOp(id: nat, to: PaymentStatus)
    | LateOp(today: int)
    | ScheduleOp(tenancy: nat, items: seq<PaymentItemInput>)

  /** A refused operation changes nothing. */
  function Apply(b: Book, op: Op): Book {
    match op
    case MoveOp(id, to) => var r := TransitionPayment(b, id, to); if r.Ok? then r.value else b
    case LateOp(today) => DetectLateFrom(b, today, 0)
    case ScheduleOp(t, xs) => var r := ReplaceSchedule(b, t, xs); if r.Ok? then r.value else b
  }

  function Run(b: Book, ops: seq<Op>): Book
    decreases |ops|
  {
    if ops == [] then b else Run(Apply(b, ops[0]), ops[1..])
  }

  const EMPTY_BOOK := Book([], [], Risk.Desk([], []))

  lemma {:induction false} RunInv(b: Book, ops: seq<Op>)
    requires BookInv(b)
    ensures BookInv(Run(b, ops))
    decreases |ops|
  {
    if ops == [] {
    } else {
      match ops[0] {
        case MoveOp(id, to) => if TransitionPayment(b, id, to).Ok? { TransitionInv(b, id, to); }
        case LateOp(today) => DetectLateInv(b, today, 0);
        case ScheduleOp(t, xs) => if DistinctSeqs(xs) { ScheduleInv(b, t, xs); }
      }
      RunInv(Apply(b, ops[0]), ops[1..]);
    }
  }

  /**
   In every run of transitions, sweeps and schedule replacements, for every item: deposits are the
   clearings plus the bounces plus the deposit still out; receipts run at most one ahead of deposits
   and of bounces; an active late flag means the item is LATE; seqs are unique within a tenancy.
   */
  lemma LedgerBalances(ops: seq<Op>, id: nat)
    ensures var b := Run(EMPTY_BOOK, ops);
            && UniqueSeqs(b.rows)
            && Count(b.log, id, ChequeDeposited) ==
                 Count(b.log, id, ChequeCleared) + Count(b.log, id, ChequeBounced)
                 + (if Exists(b, id) && b.rows[id].value.status == DEPOSITED then 1 else 0)
            && Count(b.log, id, ChequeDeposited) <= Count(b.log, id, ChequeReceived) <= Count(b.log, id,
              ChequeDeposited) + 1
            && Count(b.log, id, ChequeReceived) <= Count(b.log, id, ChequeBounced) + 1
            && Count(b.log, id, ChequeCleared) == (if Exists(b, id) && b.rows[id].value.status == CLEARED then 1 else 0)
            && (Risk.HasActive(b.risk, LateScope(id), Risk.PAYMENT_LATE) ==>
              Exists(b, id) && b.rows[id].value.status == LATE)
  {
    RunInv(EMPTY_BOOK, ops);
    assert ItemCounts(Run(EMPTY_BOOK, ops), id) && LateFlagTrue(Run(EMPTY_BOOK, ops), id);
  }

  /** A cleared cheque stays cleared, with its amount and dates, whatever follows. */
  lemma {:induction false} ClearedIsFinal(b: Book, ops: seq<Op>, id: nat)
    requires BookInv(b) && Exists(b, id) && b.rows[id].value.status == CLEARED
    ensures Exists(Run(b, ops), id) && Run(b, ops).rows[id] == b.rows[id]
    decreases |ops|
  {
    if ops == [] {
    } else {
      RunInv(b, ops[..1]);
      var b' := Apply(b, ops[0]);
      assert Run(b, ops[..1]) == b' by { assert ops[..1][0] == ops[0] && ops[..1][1..] == []; }
      match ops[0] {
        case MoveOp(_, _) =>
        case LateOp(today) => DetectLateEffect(b, today, 0);
        case ScheduleOp(t, xs) => if DistinctSeqs(xs) { ReplacementEffect(b, t, xs); }
      }
      ClearedIsFinal(b', ops[1..], id);
    }
  }
}
