/**
 Replacing a payment schedule deletes rows, also rows an import created. Which batches can still be rolled
 back, and which calls take that away.
 */
module ImportRemovals {
  import opened Common
  import opened Cheques
  import opened Imports
  import opened ImportConflicts
  import opened ImportUndo
  import opened ImportRuns
  import Payments
  import Risk

  /** The record was created at some time; an item may have been deleted since. */
  predicate Known(s: State, ref: Ref) {
    match ref
    case ContactRef(id) => id < |s.contacts|
    case PropertyRef(id) => id < |s.properties|
    case TenancyRef(id) => id < |s.tenancies|
    case ItemRef(id) => id < |s.items|
    case DocumentScopeRef(_, _) => true
  }

  ghost predicate RowsKnown(s: State, rows: seq<Row>) {
    forall i, k | 0 <= i < |rows| && 0 <= k < |rows[i].refs| :: Known(s, rows[i].refs[k])
  }

  ghost predicate RefsKnown(s: State) {
    forall b | 0 <= b < |s.batches| :: RowsKnown(s, s.batches[b].rows)
  }

  /** No table gets shorter. */
  ghost predicate Grows(s: State, s': State) {
    && |s.contacts| <= |s'.contacts| && |s.properties| <= |s'.properties|
    && |s.tenancies| <= |s'.tenancies| && |s.items| <= |s'.items|
  }

  /** No item disappears, and none that is gone comes back. */
  ghost predicate ItemsStay(s: State, s': State) {
    && |s.items| <= |s'.items|
    && forall id | 0 <= id < |s.items| :: s'.items[id].Some? <==> s.items[id].Some?
  }

  // What a call does to the tables

  lemma CommitKeepsTables(s: State, actor: Actor, b: nat, today: int)
    requires WellFormed(s) && BatchesSound(s) && CommitTx(s, actor, b).Ok?
    ensures var s' := CommitImportBatch(s, actor, b, today).state;
            Grows(s, s') && ItemsStay(s, s') && b < |s'.batches| && RowsKnown(s', s'.batches[b].rows)
  {
    assert BatchSound(s.batches[b]);
    RowsTrack(s, actor, b, 0);
    CommitRowsTouchRows(s, actor, b, 0);
    var tx := CommitTx(s, actor, b).value;
    RowsDoneAreKnown(s, CommitRows(s, actor, b, 0).value, b);
    AfterCommitKeepsBatches(tx, s.batches[b].rows, |s.tenancies|, today);
    AfterCommitKeepsRecords(tx, s.batches[b].rows, |s.tenancies|, today);
  }

  lemma RowsDoneAreKnown(s: State, r: State, b: nat)
    requires RowsDone(s, r, b, 0)
    ensures RowsKnown(r, r.batches[b].rows) && Grows(s, r) && ItemsStay(s, r)
  {
    var rows := r.batches[b].rows;
    assert rows[0..] == rows;
    forall i, k | 0 <= i < |rows| && 0 <= k < |rows[i].refs| ensures Known(r, rows[i].refs[k]) {
      RefInAll(rows, i, rows[i].refs[k]);
    }
  }

  lemma AfterCommitKeepsRecords(s: State, rows: seq<Row>, from: nat, today: int)
    requires WellFormed(s) && from <= |s.tenancies|
    ensures var s' := AfterCommit(s, rows, from, today).state;
            Grows(s, s') && |s'.tenancies| == |s.tenancies| && s'.items == s.items
              && (forall known :: RowsKnown(s, known) ==> RowsKnown(s', known))
  {
    DeriveOnlyDerives(s, from, from, today);
    OverlapsTouchRiskOnly(Derive(s, from, today).state, rows);
  }

  lemma RollbackKeepsTables(s: State, b: nat)
    ensures var s' := RollbackImportBatch(s, b).state; Grows(s, s') && ItemsStay(s, s')
  {
    if RollbackImportBatch(s, b).reply.Ok? {
      var refs := AllRefs(s.batches[b].rows);
      UndoKeepsRefs(s, refs, refs);
      UndoLeavesContacts(s, refs);
      UndoProperties(s, refs);
      UndoTenancies(s, refs);
      UndoItems(s, refs);
      ReleaseEffect(UndoRefs(s, refs), refs);
    }
  }

  lemma {:induction false} AddedAtTheEnd(rows: seq<Option<Payments.PaymentItem>>, t: nat, xs: seq<PaymentItemInput>)
    ensures rows <= Payments.AddItems(rows, t, xs)
    decreases |xs|
  {
    if xs == [] {
    } else {
      AddedAtTheEnd(if Payments.HeldSeq(rows, t, xs[0].seqNo) then rows else rows + [Payments.NewItem(t, xs[0])], t,
        xs[1..]);
    }
  }

  /** A schedule change deletes exactly the items of the tenancy that are still only scheduled. */
  lemma ScheduleDeletes(s: State, t: nat, xs: seq<PaymentItemInput>, today: int)
    ensures var s' := SetPaymentSchedule(s, t, xs, today).state;
            && Grows(s, s') && s'.batches == s.batches
            && forall id | 0 <= id < |s.items| ::
                 s'.items[id].Some? <==>
                   s.items[id].Some?
                   && !(t < |s.tenancies| && Payments.DistinctSeqs(xs) && Payments.Movable(s.items[id], t))
  {
    var kept := Payments.DeleteMovable(s.items, t);
    AddedAtTheEnd(kept, t, xs);
    assert forall id | 0 <= id < |s.items| :: Payments.AddItems(kept, t, xs)[id] == kept[id];
  }

  lemma CallKeepsTables(s: State, op: Op)
    requires WellFormed(s) && BatchesSound(s)
    ensures Grows(s, Apply(s, op)) && (!op.ScheduleOp? ==> ItemsStay(s, Apply(s, op)))
  {
    match op
    case CommitOp(actor, b, today) => if CommitTx(s, actor, b).Ok? { CommitKeepsTables(s, actor, b, today); }
    case RollbackOp(b) => RollbackKeepsTables(s, b);
    case ScheduleOp(t, xs, today) => ScheduleDeletes(s, t, xs, today);
    case _ =>
  }

  // What a call does to the memory of a batch

  ghost predicate SameRefs(a: seq<Row>, b: seq<Row>) {
    |a| == |b| && forall i | 0 <= i < |a| :: b[i].refs == a[i].refs
  }

  lemma {:induction false} SameRefsSameMemory(a: seq<Row>, b: seq<Row>)
    requires SameRefs(a, b)
    ensures AllRefs(a) == AllRefs(b)
    decreases |a|
  {
    if a == [] {
    } else {
      SameRefsSameMemory(a[1..], b[1..]);
    }
  }

  lemma DetectKeepsMemory(s: State, e: nat, b: nat)
    requires e < |s.batches| && b < |s.batches|
    ensures SameRefs(s.batches[b].rows, DetectConflicts(s, e).batches[b].rows)
  {
    if b == e {
      forall i | 0 <= i < |s.batches[b].rows|
        ensures DetectRows(s, s.batches[b].rows, {})[i].refs == s.batches[b].rows[i].refs
      {
        DetectKeepsRefs(s, s.batches[b].rows, {}, i);
      }
    }
  }

  /** A committed batch keeps its references and, unless it is rolled back, its status. */
  lemma CallKeepsMemory(s: State, op: Op, b: nat)
    requires b < |s.batches| && s.batches[b].status == COMMITTED && !RollsBack(s, op, b)
    ensures b < |Apply(s, op).batches| && Apply(s, op).batches[b].status == COMMITTED
    ensures SameRefs(s.batches[b].rows, Apply(s, op).batches[b].rows)
  {
    StageMoves(s, op, b);
    match op
    case AddRowsOp(e, mapped) =>
      if AddImportRows(s, e, mapped).reply.Ok? { DetectKeepsMemory(WithRows(s, e, mapped), e, b); }
    case DetectOp(e) => if e < |s.batches| { DetectKeepsMemory(s, e, b); }
    case CommitOp(actor, e, today) => CommitMoves(s, actor, e, today, b);
    case ScheduleOp(t, xs, today) => ScheduleDeletes(s, t, xs, today);
    case _ =>
  }

  // Every remembered record is known, in every run

  lemma KnownLater(s: State, s': State, a: seq<Row>, b: seq<Row>)
    requires RowsKnown(s, a) && Grows(s, s') && SameRefs(a, b)
    ensures RowsKnown(s', b)
  {
    forall i, k | 0 <= i < |b| && 0 <= k < |b[i].refs| ensures Known(s', b[i].refs[k]) {
      assert Known(s, a[i].refs[k]);
    }
  }

  lemma AddKeepsKnown(s: State, e: nat, mapped: seq<RowData>, b: nat)
    requires RefsKnown(s) && e < |s.batches| && b < |s.batches|
    ensures var s' := DetectConflicts(WithRows(s, e, mapped), e);
            |s'.batches| == |s.batches| && RowsKnown(s', s'.batches[b].rows)
  {
    var s1 := WithRows(s, e, mapped);
    assert RowsKnown(s, s.batches[b].rows);
    forall i, k | 0 <= i < |s1.batches[b].rows| && 0 <= k < |s1.batches[b].rows[i].refs|
      ensures Known(s1, s1.batches[b].rows[i].refs[k])
    {
      if i < |s.batches[b].rows| { assert Known(s, s.batches[b].rows[i].refs[k]); }
    }
    DetectKeepsMemory(s1, e, b);
    KnownLater(s1, DetectConflicts(s1, e), s1.batches[b].rows, DetectConflicts(s1, e).batches[b].rows);
  }

  lemma CommitKeepsKnown(s: State, actor: Actor, e: nat, today: int, b: nat)
    requires WellFormed(s) && BatchesSound(s) && RefsKnown(s) && b < |s.batches|
    ensures var s' := CommitImportBatch(s, actor, e, today).state;
            |s'.batches| == |s.batches| && RowsKnown(s', s'.batches[b].rows)
  {
    assert RowsKnown(s, s.batches[b].rows);
    CommitMoves(s, actor, e, today, b);
    if CommitTx(s, actor, e).Ok? {
      CommitKeepsTables(s, actor, e, today);
      if b != e {
        KnownLater(s, CommitImportBatch(s, actor, e, today).state, s.batches[b].rows, s.batches[b].rows);
      }
    }
  }

  lemma SameRowsStayKnown(s: State, op: Op, b: nat)
    requires WellFormed(s) && BatchesSound(s) && RefsKnown(s) && b < |s.batches|
    requires op.DetectOp? || op.RollbackOp? || op.ScheduleOp? || op.PaymentOp?
    ensures |Apply(s, op).batches| == |s.batches| && RowsKnown(Apply(s, op), Apply(s, op).batches[b].rows)
  {
    assert RowsKnown(s, s.batches[b].rows);
    CallKeepsTables(s, op);
    match op {
      case DetectOp(e) => if e < |s.batches| { DetectKeepsMemory(s, e, b); }
      case ScheduleOp(t, xs, today) => ScheduleDeletes(s, t, xs, today);
      case _ =>
    }
    KnownLater(s, Apply(s, op), s.batches[b].rows, Apply(s, op).batches[b].rows);
  }

  lemma CallKeepsKnown(s: State, op: Op)
    requires WellFormed(s) && BatchesSound(s) && RefsKnown(s)
    ensures RefsKnown(Apply(s, op))
  {
    var s' := Apply(s, op);
    forall b | 0 <= b < |s'.batches| ensures RowsKnown(s', s'.batches[b].rows) {
      match op
      case CreateOp(_, _) => if b < |s.batches| { assert RowsKnown(s, s.batches[b].rows); }
      case AddRowsOp(e, mapped) =>
        if AddImportRows(s, e, mapped).reply.Ok? { AddKeepsKnown(s, e, mapped, b); }
        else { assert RowsKnown(s, s.batches[b].rows); }
      case CommitOp(actor, e, today) =>
        if CommitTx(s, actor, e).Ok? { CommitMoves(s, actor, e, today, e); }
        CommitKeepsKnown(s, actor, e, today, b);
      case _ => SameRowsStayKnown(s, op, b);
    }
  }

  lemma {:induction false} RunKeepsKnown(s: State, ops: seq<Op>)
    requires WellFormed(s) && BatchesSound(s) && RefsKnown(s)
    ensures WellFormed(Run(s, ops)) && BatchesSound(Run(s, ops)) && RefsKnown(Run(s, ops))
    decreases |ops|
  {
    if ops == [] {
    } else {
      ApplyKeepsSound(s, ops[0]);
      CallKeepsKnown(s, ops[0]);
      RunKeepsKnown(Apply(s, ops[0]), ops[1..]);
    }
  }

  // When a rollback is accepted

  predicate AcceptsRollback(s: State, b: nat) {
    RollbackImportBatch(s, b).reply.Ok?
  }

  /** No item the batch created has been deleted. */
  ghost predicate ItemsKept(s: State, b: nat)
    requires b < |s.batches|
  {
    forall id | 0 <= id < |s.items| && ItemRef(id) in AllRefs(s.batches[b].rows) :: s.items[id].Some?
  }

  lemma AcceptedIffItemsKept(s: State, b: nat)
    requires RefsKnown(s) && b < |s.batches|
    ensures AcceptsRollback(s, b) <==> s.batches[b].status == COMMITTED && ItemsKept(s, b)
  {
    var rows := s.batches[b].rows;
    var refs := AllRefs(rows);
    assert RowsKnown(s, rows);
    forall k | 0 <= k < |refs| ensures Known(s, refs[k]) {
      var i := RefOfSomeRow(rows, refs[k]);
      var j :| 0 <= j < |rows[i].refs| && rows[i].refs[j] == refs[k];
      assert Known(s, rows[i].refs[j]);
    }
    if ItemsKept(s, b) {
      forall k | 0 <= k < |refs| ensures RefExists(s, refs[k]) { assert Known(s, refs[k]); }
    } else {
      var id :| 0 <= id < |s.items| && ItemRef(id) in refs && s.items[id].None?;
      var k :| 0 <= k < |refs| && refs[k] == ItemRef(id);
      assert !RefExists(s, refs[k]);
    }
  }

  /**
   After any import and payment calls a rollback is accepted if and only if the batch is committed and no
   item it created was deleted.
   */
  lemma RollbackAcceptedIff(start: State, ops: seq<Op>, b: nat)
    requires WellFormed(start) && start.batches == [] && b < |Run(start, ops).batches|
    ensures AcceptsRollback(Run(start, ops), b) <==>
            Run(start, ops).batches[b].status == COMMITTED && ItemsKept(Run(start, ops), b)
  {
    RunKeepsKnown(start, ops);
    AcceptedIffItemsKept(Run(start, ops), b);
  }

  /** A schedule change on a tenancy of which the batch created an item that is still only scheduled. */
  predicate DropsItemOf(s: State, op: Op, b: nat)
    requires b < |s.batches|
  {
    && op.ScheduleOp? && op.t < |s.tenancies| && Payments.DistinctSeqs(op.items)
    && exists id | 0 <= id < |s.items| ::
         Payments.Movable(s.items[id], op.t) && ItemRef(id) in AllRefs(s.batches[b].rows)
  }

  /** Of all calls, exactly these end the acceptance of a rollback: the rollback itself and such a schedule change. */
  lemma RollbackLostByExactly(s: State, op: Op, b: nat)
    requires WellFormed(s) && BatchesSound(s) && RefsKnown(s) && b < |s.batches| && AcceptsRollback(s, b)
    ensures AcceptsRollback(Apply(s, op), b) <==> !RollsBack(s, op, b) && !DropsItemOf(s, op, b)
  {
    var s' := Apply(s, op);
    StageMoves(s, op, b);
    AcceptedIffItemsKept(s, b);
    CallKeepsKnown(s, op);
    AcceptedIffItemsKept(s', b);
    if !RollsBack(s, op, b) {
      CallKeepsMemory(s, op, b);
      SameRefsSameMemory(s.batches[b].rows, s'.batches[b].rows);
      KeptUnlessDropped(s, op, b);
    }
  }

  lemma KeptUnlessDropped(s: State, op: Op, b: nat)
    requires WellFormed(s) && BatchesSound(s) && RefsKnown(s) && b < |s.batches| && ItemsKept(s, b)
    requires b < |Apply(s, op).batches| && AllRefs(Apply(s, op).batches[b].rows) == AllRefs(s.batches[b].rows)
    ensures ItemsKept(Apply(s, op), b) <==> !DropsItemOf(s, op, b)
  {
    var s', refs := Apply(s, op), AllRefs(s.batches[b].rows);
    CallKeepsTables(s, op);
    if op.ScheduleOp? { ScheduleDeletes(s, op.t, op.items, op.today); }
    forall id | 0 <= id < |s'.items| && ItemRef(id) in refs ensures id < |s.items| {
      var i := RefOfSomeRow(s.batches[b].rows, ItemRef(id));
      var row := s.batches[b].rows[i];
      var k :| 0 <= k < |row.refs| && row.refs[k] == ItemRef(id);
      assert RowsKnown(s, s.batches[b].rows) && Known(s, row.refs[k]);
    }
  }

  ghost predicate ItemLost(s: State, b: nat) {
    b < |s.batches| && s.batches[b].status == COMMITTED
    && exists id | 0 <= id < |s.items| :: ItemRef(id) in AllRefs(s.batches[b].rows) && s.items[id].None?
  }

  lemma LostRefuses(s: State, b: nat)
    requires ItemLost(s, b)
    ensures !AcceptsRollback(s, b)
  {
    var refs := AllRefs(s.batches[b].rows);
    var id :| 0 <= id < |s.items| && ItemRef(id) in refs && s.items[id].None?;
    var k :| 0 <= k < |refs| && refs[k] == ItemRef(id);
    assert !RefExists(s, refs[k]);
  }

  lemma LostStaysLost(s: State, op: Op, b: nat)
    requires WellFormed(s) && BatchesSound(s) && ItemLost(s, b)
    ensures ItemLost(Apply(s, op), b)
  {
    LostRefuses(s, b);
    CallKeepsMemory(s, op, b);
    SameRefsSameMemory(s.batches[b].rows, Apply(s, op).batches[b].rows);
    CallKeepsTables(s, op);
    if op.ScheduleOp? { ScheduleDeletes(s, op.t, op.items, op.today); }
    var id :| 0 <= id < |s.items| && ItemRef(id) in AllRefs(s.batches[b].rows) && s.items[id].None?;
    assert Apply(s, op).items[id].None?;
  }

  /** Once an item of a committed batch is deleted, its rollback is refused for good. */
  lemma {:induction false} LostForGood(s: State, ops: seq<Op>, b: nat)
    requires WellFormed(s) && BatchesSound(s) && ItemLost(s, b)
    ensures !AcceptsRollback(Run(s, ops), b)
    decreases |ops|
  {
    if ops == [] {
      LostRefuses(s, b);
    } else {
      ApplyKeepsSound(s, ops[0]);
      LostStaysLost(s, ops[0], b);
      LostForGood(Apply(s, ops[0]), ops[1..], b);
    }
  }

  // Such a run: one lease with one cheque is imported, and its schedule is emptied.

  const NOBODY := Party(NoChoice, None, None)
  const ONE_CHEQUE := PaymentItemInput(1, 0, 120_000)
  const ONE_LEASE := RowData(Address("Marina", None, None), None, None, None, 0, 364, 120_000, None, NOBODY, NOBODY, 0,
    [ONE_CHEQUE])
  const EMPTY_TABLES := State([], [], [], [], [], [], [], {}, {}, [], Risk.Desk([], []))

  lemma UploadedBatch() returns (s: State)
    ensures s == Run(EMPTY_TABLES, [CreateOp(EXCEL, None), AddRowsOp(0, [ONE_LEASE])])
    ensures s == EMPTY_TABLES.(batches := [Batch(EXCEL, None, MAPPED, [Row(ONE_LEASE, PENDING, None, [])])])
  {
    var ops := [CreateOp(EXCEL, None), AddRowsOp(0, [ONE_LEASE])];
    var s1 := Apply(EMPTY_TABLES, ops[0]);
    s := Apply(s1, ops[1]);
    assert NewRows([ONE_LEASE]) == [Row(ONE_LEASE, PENDING, None, [])];
    var rows := WithRows(s1, 0, [ONE_LEASE]).batches[0].rows;
    assert rows == [Row(ONE_LEASE, PENDING, None, [])];
    assert DetectRows(WithRows(s1, 0, [ONE_LEASE]), rows, {}) == rows;
    assert ops[1..] == [ops[1]] && ops[1..][1..] == [];
    assert Run(s, []) == s;
    assert Run(s1, ops[1..]) == s;
  }

  /** The one row of the batch, committed on its own. */
  lemma LeaseRow(s: State)
    requires s == EMPTY_TABLES.(batches := s.batches)
    ensures CommitRow(s, Operator, ONE_LEASE, None) ==
            Ok(Progress(s.(properties := [Property(ONE_LEASE.address, None, None, false)],
                           tenancies := [NewTenancy(ONE_LEASE, 0, None, None, None)],
                           items := [Payments.NewItem(0, ONE_CHEQUE)]),
                        [PropertyRef(0), TenancyRef(0), ItemRef(0)]))
  {
    assert ResolveParties(s, ONE_LEASE) == Ok((Bound(s, None), Bound(s, None)));
    var placed := PlaceProperty(s, Operator, ONE_LEASE, None).value;
    assert placed.state.properties == [Property(ONE_LEASE.address, None, None, false)];
    LeaseOfRow(placed.state);
    assert [] + [] + [PropertyRef(0)] + [TenancyRef(0), ItemRef(0)] == [PropertyRef(0), TenancyRef(0), ItemRef(0)];
  }

  lemma LeaseOfRow(s: State)
    requires s.tenancies == [] && s.items == []
    ensures AddLease(s, ONE_LEASE, 0, None, None, None) ==
            Ok(Progress(s.(tenancies := [NewTenancy(ONE_LEASE, 0, None, None, None)],
                           items := [Payments.NewItem(0, ONE_CHEQUE)]),
                        [TenancyRef(0), ItemRef(0)]))
  {
    var s1 := s.(tenancies := s.tenancies + [NewTenancy(ONE_LEASE, 0, None, None, None)]);
    assert s1.tenancies == [NewTenancy(ONE_LEASE, 0, None, None, None)];
    OneItem(s1);
    assert ResolveSchedule(ONE_LEASE) == [ONE_CHEQUE];
    assert [TenancyRef(0)] + [] + [ItemRef(0)] == [TenancyRef(0), ItemRef(0)];
  }

  lemma OneItem(s: State)
    requires s.items == []
    ensures AddItems(s, 0, [ONE_CHEQUE]) ==
            Ok(Progress(s.(items := [Payments.NewItem(0, ONE_CHEQUE)]), [ItemRef(0)]))
  {
    var s1 := s.(items := s.items + [Payments.NewItem(0, ONE_CHEQUE)]);
    assert s1.items == [Payments.NewItem(0, ONE_CHEQUE)];
    assert [ONE_CHEQUE][0] == ONE_CHEQUE && [ONE_CHEQUE][1..] == [];
    assert !Payments.HeldSeq(s.items, 0, ONE_CHEQUE.seqNo);
    assert AddItems(s1, 0, []) == Ok(Progress(s1, []));
    assert [ItemRef(0)] + [] == [ItemRef(0)];
  }

  lemma LeaseCommitted(s: State)
    requires s == EMPTY_TABLES.(batches := [Batch(EXCEL, None, MAPPED, [Row(ONE_LEASE, PENDING, None, [])])])
    ensures CommitTx(s, Operator, 0).Ok?
    ensures var tx := CommitTx(s, Operator, 0).value;
            && |tx.tenancies| == 1 && tx.items == [Payments.NewItem(0, ONE_CHEQUE)]
            && |tx.batches| == 1 && tx.batches[0].status == COMMITTED
            && tx.batches[0].rows == [Row(ONE_LEASE, ACCEPTED, None, [PropertyRef(0), TenancyRef(0), ItemRef(0)])]
  {
    LeaseRow(s);
    var row := Row(ONE_LEASE, ACCEPTED, None, [PropertyRef(0), TenancyRef(0), ItemRef(0)]);
    var s1 := SetRow(CommitRow(s, Operator, ONE_LEASE, None).value.state, 0, 0, row);
    assert CommitRows(s1, Operator, 0, 1) == Ok(s1);
    assert CommitRows(s, Operator, 0, 0) == CommitRows(s1, Operator, 0, 1);
  }

  lemma ImportedLease(s: State)
    requires s == EMPTY_TABLES.(batches := [Batch(EXCEL, None, MAPPED, [Row(ONE_LEASE, PENDING, None, [])])])
    ensures WellFormed(s) && BatchesSound(s)
    ensures var s' := Apply(s, CommitOp(Operator, 0, 0));
            && |s'.tenancies| == 1 && s'.items == [Payments.NewItem(0, ONE_CHEQUE)]
            && |s'.batches| == 1 && s'.batches[0].status == COMMITTED && ItemRef(0) in AllRefs(s'.batches[0].rows)
  {
    LeaseCommitted(s);
    var tx := CommitTx(s, Operator, 0).value;
    TxIsWellFormed(s, Operator, 0);
    AfterCommitKeepsBatches(tx, s.batches[0].rows, 0, 0);
    AfterCommitKeepsRecords(tx, s.batches[0].rows, 0, 0);
    RefInAll(tx.batches[0].rows, 0, ItemRef(0));
  }

  lemma TxIsWellFormed(s: State, actor: Actor, b: nat)
    requires WellFormed(s) && BatchesSound(s) && CommitTx(s, actor, b).Ok?
    ensures WellFormed(CommitTx(s, actor, b).value)
  {
    assert BatchSound(s.batches[b]);
    RowsTrack(s, actor, b, 0);
  }

  lemma {:induction false} RunAppend(s: State, ops: seq<Op>, op: Op)
    ensures Run(s, ops + [op]) == Apply(Run(s, ops), op)
    decreases |ops|
  {
    if ops == [] {
      assert Run(Apply(s, op), []) == Apply(s, op);
      assert ([] + [op])[1..] == [];
    } else {
      RunAppend(Apply(s, ops[0]), ops[1..], op);
      assert (ops + [op])[1..] == ops[1..] + [op];
    }
  }

  /** From empty tables: a committed batch whose rollback is refused, by four calls. */
  lemma EmptiedScheduleBlocksRollback() returns (ops: seq<Op>)
    ensures WellFormed(EMPTY_TABLES)
    ensures |Run(EMPTY_TABLES, ops).batches| == 1 && Run(EMPTY_TABLES, ops).batches[0].status == COMMITTED
    ensures !AcceptsRollback(Run(EMPTY_TABLES, ops), 0)
  {
    var upload := [CreateOp(EXCEL, None), AddRowsOp(0, [ONE_LEASE])];
    var uploaded := UploadedBatch();
    ImportedLease(uploaded);
    RunAppend(EMPTY_TABLES, upload, CommitOp(Operator, 0, 0));
    RunAppend(EMPTY_TABLES, upload + [CommitOp(Operator, 0, 0)], ScheduleOp(0, [], 0));
    ScheduleEmptied(Apply(uploaded, CommitOp(Operator, 0, 0)));
    ops := upload + [CommitOp(Operator, 0, 0)] + [ScheduleOp(0, [], 0)];
  }

  lemma ScheduleEmptied(s: State)
    requires |s.tenancies| == 1 && s.items == [Payments.NewItem(0, ONE_CHEQUE)]
    requires |s.batches| == 1 && s.batches[0].status == COMMITTED && ItemRef(0) in AllRefs(s.batches[0].rows)
    ensures var s' := Apply(s, ScheduleOp(0, [], 0));
            |s'.batches| == 1 && s'.batches[0].status == COMMITTED && !AcceptsRollback(s', 0)
  {
    ScheduleDeletes(s, 0, [], 0);
    assert Payments.Movable(s.items[0], 0);
    LostRefuses(Apply(s, ScheduleOp(0, [], 0)), 0);
  }
}
