/**
 Batches over whole runs of import calls, with payment calls in between: each is committed at most once and
 rolled back at most once.
 */
module ImportRuns {
  import opened Common
  import opened Imports
  import opened ImportConflicts
  import opened ImportUndo
  import opened ImportRoundTrip
  import opened Cheques
  import Payments
  import PaymentDesk

  datatype Op =
    | CreateOp(source: Source, fileDoc: Option<nat>)
    | AddRowsOp(b: nat, mapped: seq<RowData>)
    | DetectOp(b: nat)
    | CommitOp(actor: Actor, b: nat, today: int)
    | RollbackOp(b: nat)
    | ScheduleOp(t: nat, items: seq<PaymentItemInput>, today: int)
    | PaymentOp(id: nat, to: Payments.PaymentStatus)

  /** The payment calls, on the tables of an import. */
  function SetPaymentSchedule(s: State, t: nat, xs: seq<PaymentItemInput>, today: int): Outcome {
    if t >= |s.tenancies| then Outcome(s, Err(NotFound))
    else
      var replaced := Payments.ReplaceSchedule(Payments.Book(s.items, [], s.risk), t, xs);
      if replaced.Err? then Outcome(s, Err(Unprocessable))
      else
        var s1 := s.(items := replaced.value.rows);
        var rearmed := Rearmed(s1, t, today);
        if rearmed.Err? then Outcome(s1, Err(rearmed.error)) else Outcome(rearmed.value, Ok(()))
  }

  function TransitionPayment(s: State, id: nat, to: Payments.PaymentStatus): State {
    var moved := Payments.TransitionPayment(Payments.Book(s.items, [], s.risk), id, to);
    if moved.Err? then s else s.(items := moved.value.rows, risk := moved.value.risk)
  }

  /** On rows, flags and deadlines a schedule change is that of the payment desk, whatever its ledger holds. */
  lemma ScheduleIsTheDesks(s: State, t: nat, xs: seq<PaymentItemInput>, today: int, log: seq<Payments.PaymentEvent>)
    requires t < |s.tenancies|
    ensures var desk := PaymentDesk.Desk(Payments.Book(s.items, log, s.risk), s.deadlines);
            var rec := PaymentDesk.TenancyRecord(DatesOf(s, t), s.tenancies[t].ejariNo, s.tenancies[t].annualRent);
            var (desk', out) := PaymentDesk.ScheduleAndDerive(desk, rec, xs, today);
            var r := SetPaymentSchedule(s, t, xs, today);
            && desk' == PaymentDesk.Desk(Payments.Book(r.state.items, log, r.state.risk), r.state.deadlines)
            && r.reply == (match out
                           case Scheduled(_) => Ok(())
                           case DuplicateSeqs => Err(Unprocessable)
                           case BadNoticePeriod => Err(Uncaught))
            && r.state.tenancies == if !out.Scheduled? then s.tenancies
                 else s.tenancies[t := s.tenancies[t].(noticeGateDay := out.rec.dates.noticeGateDay)]
  {}

  /** So is a transition. */
  lemma TransitionIsTheBooks(s: State, id: nat, to: Payments.PaymentStatus, log: seq<Payments.PaymentEvent>)
    ensures var moved, s' := Payments.TransitionPayment(Payments.Book(s.items, log, s.risk), id, to),
              TransitionPayment(s, id, to);
            if moved.Err? then s' == s else s' == s.(items := moved.value.rows, risk := moved.value.risk)
  {}

  function Apply(s: State, op: Op): State {
    match op
    case CreateOp(source, fileDoc) => s.(batches := s.batches + [Batch(source, fileDoc, UPLOADED, [])])
    case AddRowsOp(b, mapped) => AddImportRows(s, b, mapped).state
    case DetectOp(b) => if b < |s.batches| then DetectConflicts(s, b) else s
    case CommitOp(actor, b, today) => CommitImportBatch(s, actor, b, today).state
    case RollbackOp(b) => RollbackImportBatch(s, b).state
    case ScheduleOp(t, xs, today) => SetPaymentSchedule(s, t, xs, today).state
    case PaymentOp(id, to) => TransitionPayment(s, id, to)
  }

  function Run(s: State, ops: seq<Op>): State
    decreases |ops|
  {
    if ops == [] then s else Run(Apply(s, ops[0]), ops[1..])
  }

  predicate Commits(s: State, op: Op, b: nat) {
    op.CommitOp? && op.b == b && CommitTx(s, op.actor, b).Ok?
  }

  predicate RollsBack(s: State, op: Op, b: nat) {
    op.RollbackOp? && op.b == b && RollbackImportBatch(s, b).reply.Ok?
  }

  function CommitCount(s: State, ops: seq<Op>, b: nat): nat
    decreases |ops|
  {
    if ops == [] then 0
    else (if Commits(s, ops[0], b) then 1 else 0) + CommitCount(Apply(s, ops[0]), ops[1..], b)
  }

  function RollbackCount(s: State, ops: seq<Op>, b: nat): nat
    decreases |ops|
  {
    if ops == [] then 0
    else (if RollsBack(s, ops[0], b) then 1 else 0) + RollbackCount(Apply(s, ops[0]), ops[1..], b)
  }

  function Stage(status: BatchStatus): nat {
    match status
    case COMMITTED => 1
    case ROLLED_BACK => 2
    case _ => 0
  }

  /** Only rows of batch b may change between the two. */
  ghost predicate OnlyRowsOf(a: seq<Batch>, z: seq<Batch>, b: nat) {
    && |z| == |a|
    && (forall e | 0 <= e < |a| && e != b :: z[e] == a[e])
    && (b < |a| ==> z[b] == a[b].(rows := z[b].rows))
  }

  lemma {:induction false} CommitRowsTouchRows(s: State, actor: Actor, b: nat, i: nat)
    requires b < |s.batches| && i <= |s.batches[b].rows| && CommitRows(s, actor, b, i).Ok?
    ensures OnlyRowsOf(s.batches, CommitRows(s, actor, b, i).value.batches, b)
    decreases |s.batches[b].rows| - i
  {
    if i == |s.batches[b].rows| {
    } else if !Committable(s.batches[b].rows[i]) {
      CommitRowsTouchRows(s, actor, b, i + 1);
    } else {
      CommitRowsUnfolds(s, actor, b, i);
      CommitRowsTouchRows(AfterRow(s, actor, b, i).value.0, actor, b, i + 1);
    }
  }

  lemma {:induction false} DeriveKeepsBatches(s: State, t: nat, today: int)
    requires t <= |s.tenancies|
    ensures Derive(s, t, today).state.batches == s.batches
    decreases |s.tenancies| - t
  {
    if t == |s.tenancies| || Rearmed(s, t, today).Err? {
    } else {
      DeriveKeepsBatches(Rearmed(s, t, today).value, t + 1, today);
    }
  }

  lemma AfterCommitKeepsBatches(s: State, rows: seq<Row>, from: nat, today: int)
    requires from <= |s.tenancies|
    ensures AfterCommit(s, rows, from, today).state.batches == s.batches
  {
    DeriveKeepsBatches(s, from, today);
    OverlapsTouchRiskOnly(Derive(s, from, today).state, rows);
  }

  /** What a commit does to the batches: nothing, or the rows and the status of its own. */
  lemma CommitMoves(s: State, actor: Actor, e: nat, today: int, b: nat)
    requires b < |s.batches|
    ensures var s' := CommitImportBatch(s, actor, e, today).state;
            && |s'.batches| == |s.batches|
            && (b != e || CommitTx(s, actor, e).Err? ==> s'.batches[b] == s.batches[b])
            && (b == e && CommitTx(s, actor, e).Ok? ==>
              s'.batches[b].status == COMMITTED && Stage(s.batches[b].status) == 0)
  {
    if CommitTx(s, actor, e).Ok? {
      CommitRowsTouchRows(s, actor, e, 0);
      AfterCommitKeepsBatches(CommitTx(s, actor, e).value, s.batches[e].rows, |s.tenancies|, today);
    }
  }

  /** A call moves a batch one stage on exactly when it commits it or rolls it back. */
  lemma StageMoves(s: State, op: Op, b: nat)
    requires b < |s.batches|
    ensures b < |Apply(s, op).batches|
    ensures Stage(Apply(s, op).batches[b].status) ==
              Stage(s.batches[b].status) + (if Commits(s, op, b) || RollsBack(s, op, b) then 1 else 0)
    ensures Commits(s, op, b) ==> Stage(s.batches[b].status) == 0
    ensures RollsBack(s, op, b) ==> Stage(s.batches[b].status) == 1
  {
    match op
    case CommitOp(actor, e, today) => CommitMoves(s, actor, e, today, b);
    case _ =>
  }

  /** From any state, over any run: the counts say exactly which stages the batch passed. */
  lemma {:induction false} StagesCounted(s: State, ops: seq<Op>, b: nat)
    requires b < |s.batches|
    ensures b < |Run(s, ops).batches|
    ensures var from, to := Stage(s.batches[b].status), Stage(Run(s, ops).batches[b].status);
            && from <= to
            && CommitCount(s, ops, b) == (if from == 0 && to >= 1 then 1 else 0)
            && RollbackCount(s, ops, b) == (if from <= 1 && to == 2 then 1 else 0)
    decreases |ops|
  {
    if ops == [] {
    } else {
      StageMoves(s, ops[0], b);
      StagesCounted(Apply(s, ops[0]), ops[1..], b);
    }
  }

  /**
   A batch is committed at most once and rolled back at most once, only after its commit; its status says
   which of the two happened, and once rolled back it stays so.
   */
  lemma CommittedOnceRolledBackOnce(s: State, ops: seq<Op>, b: nat, more: seq<Op>)
    requires b < |s.batches| && Stage(s.batches[b].status) == 0
    ensures b < |Run(s, ops).batches|
    ensures RollbackCount(s, ops, b) <= CommitCount(s, ops, b) <= 1
    ensures Run(s, ops).batches[b].status == COMMITTED <==> CommitCount(s, ops, b) == 1 && RollbackCount(s, ops, b) == 0
    ensures Run(s, ops).batches[b].status == ROLLED_BACK <==> RollbackCount(s, ops, b) == 1
    ensures Run(s, ops).batches[b].status == ROLLED_BACK ==>
              b < |Run(Run(s, ops), more).batches| && Run(Run(s, ops), more).batches[b].status == ROLLED_BACK
              && CommitCount(Run(s, ops), more, b) == 0 && RollbackCount(Run(s, ops), more, b) == 0
  {
    StagesCounted(s, ops, b);
    StagesCounted(Run(s, ops), more, b);
  }

  // ---------------------------------------------------------------------------------------------
  // Commit and rollback anywhere in a run
  // ---------------------------------------------------------------------------------------------

  /** No remembered scope hangs on a tenancy. */
  ghost predicate PriorsFree(rows: seq<Row>) {
    forall i, d: nat, x | 0 <= i < |rows| && DocumentScopeRef(d, x) in rows[i].refs :: x.kind != AT_TENANCY
  }

  ghost predicate BatchSound(batch: Batch) {
    (Stage(batch.status) == 0 ==> Unrecorded(batch.rows, 0)) && PriorsFree(batch.rows)
  }

  ghost predicate BatchesSound(s: State) {
    forall b | 0 <= b < |s.batches| :: BatchSound(s.batches[b])
  }

  lemma {:induction false} DetectKeepsRefs(s: State, rows: seq<Row>, seen: set<string>, i: nat)
    requires i < |rows|
    ensures DetectRows(s, rows, seen)[i].refs == rows[i].refs
    decreases |rows|
  {
    if i == 0 {
    } else {
      DetectKeepsRefs(s, rows[1..], Seen(seen, rows[0]), i - 1);
    }
  }

  lemma DetectKeepsSound(s: State, b: nat)
    requires BatchesSound(s) && b < |s.batches|
    ensures BatchesSound(DetectConflicts(s, b))
  {
    var rows, rows' := s.batches[b].rows, DetectConflicts(s, b).batches[b].rows;
    forall i | 0 <= i < |rows| ensures rows'[i].refs == rows[i].refs { DetectKeepsRefs(s, rows, {}, i); }
    assert BatchSound(s.batches[b]);
    forall e | 0 <= e < |s.batches| ensures BatchSound(DetectConflicts(s, b).batches[e]) {
      assert BatchSound(s.batches[e]);
    }
  }

  lemma WithRowsKeepsSound(s: State, b: nat, mapped: seq<RowData>)
    requires BatchesSound(s) && b < |s.batches| && Stage(s.batches[b].status) == 0
    ensures BatchesSound(WithRows(s, b, mapped))
  {
    var s' := WithRows(s, b, mapped);
    assert BatchSound(s.batches[b]);
    forall e | 0 <= e < |s.batches| ensures BatchSound(s'.batches[e]) { assert BatchSound(s.batches[e]); }
  }

  lemma {:induction false} RefInAll(rows: seq<Row>, i: nat, ref: Ref)
    requires i < |rows| && ref in rows[i].refs
    ensures ref in AllRefs(rows)
    decreases |rows|
  {
    if i == 0 {
    } else {
      RefInAll(rows[1..], i - 1, ref);
    }
  }

  lemma {:induction false} RefOfSomeRow(rows: seq<Row>, ref: Ref) returns (i: nat)
    requires ref in AllRefs(rows)
    ensures i < |rows| && ref in rows[i].refs
    decreases |rows|
  {
    if ref in rows[0].refs {
      i := 0;
    } else {
      var k := RefOfSomeRow(rows[1..], ref);
      i := k + 1;
    }
  }

  lemma DerivedIsWellFormed(s: State, s': State, t: nat)
    requires WellFormed(s) && OnlyDerives(s, s', t) && DeadlinesBelow(s'.deadlines, |s.tenancies|)
    ensures WellFormed(s')
  {
    forall u | 0 <= u < |s'.tenancies|
      ensures PartyExists(s', s'.tenancies[u].landlord) && PartyExists(s', s'.tenancies[u].tenant)
    {
      assert PartyExists(s, s.tenancies[u].landlord) && PartyExists(s, s.tenancies[u].tenant);
    }
  }

  lemma AfterCommitIsWellFormed(s: State, rows: seq<Row>, from: nat, today: int)
    requires WellFormed(s) && from <= |s.tenancies|
    ensures WellFormed(AfterCommit(s, rows, from, today).state)
  {
    DeriveOnlyDerives(s, from, from, today);
    var derived := Derive(s, from, today).state;
    DerivedIsWellFormed(s, derived, from);
    OverlapsTouchRiskOnly(derived, rows);
  }

  lemma CommittedRowsAreFree(s: State, r: State, b: nat)
    requires RowsDone(s, r, b, 0)
    ensures PriorsFree(r.batches[b].rows)
  {
    var rows := r.batches[b].rows;
    assert rows[0..] == rows;
    forall i, d: nat, x | 0 <= i < |rows| && DocumentScopeRef(d, x) in rows[i].refs ensures x.kind != AT_TENANCY {
      RefInAll(rows, i, DocumentScopeRef(d, x));
    }
  }

  lemma CommitKeepsSound(s: State, actor: Actor, b: nat, today: int)
    requires WellFormed(s) && BatchesSound(s)
    ensures var s' := CommitImportBatch(s, actor, b, today).state; WellFormed(s') && BatchesSound(s')
  {
    if CommitTx(s, actor, b).Ok? {
      assert BatchSound(s.batches[b]);
      var done := CommitRows(s, actor, b, 0).value;
      RowsTrack(s, actor, b, 0);
      CommitRowsTouchRows(s, actor, b, 0);
      CommittedRowsAreFree(s, done, b);
      var tx := SetStatus(done, b, COMMITTED);
      forall e | 0 <= e < |tx.batches| ensures BatchSound(tx.batches[e]) {
        if e != b { assert BatchSound(s.batches[e]); }
      }
      AfterCommitIsWellFormed(tx, s.batches[b].rows, |s.tenancies|, today);
      AfterCommitKeepsBatches(tx, s.batches[b].rows, |s.tenancies|, today);
    }
  }

  /** A document that is rolled back returns to a remembered scope. */
  lemma {:induction false} UndoneScopes(s: State, refs: seq<Ref>, d: nat)
    requires RefsExist(s, refs) && d < |s.documents|
    ensures |UndoRefs(s, refs).documents| == |s.documents|
    ensures var x := UndoRefs(s, refs).documents[d]; x == s.documents[d] || DocumentScopeRef(d, x) in refs
    decreases |refs|
  {
    if refs == [] {
    } else {
      TailExists(s, refs);
      UndoneScopes(UndoRef(s, refs[0]), refs[1..], d);
    }
  }

  ghost predicate AllPriorsFree(refs: seq<Ref>) {
    forall d: nat, x | DocumentScopeRef(d, x) in refs :: x.kind != AT_TENANCY
  }

  lemma UndoneIsWellFormed(s: State, refs: seq<Ref>)
    requires WellFormed(s) && RefsExist(s, refs) && AllPriorsFree(refs)
    ensures WellFormed(UndoRefs(s, refs))
  {
    var u := UndoRefs(s, refs);
    UndoLeavesContacts(s, refs);
    UndoProperties(s, refs);
    UndoTenancies(s, refs);
    UndoDeadlines(s, refs);
    forall t | 0 <= t < |u.tenancies|
      ensures PartyExists(u, u.tenancies[t].landlord) && PartyExists(u, u.tenancies[t].tenant)
    {
      assert PartyExists(s, s.tenancies[t].landlord) && PartyExists(s, s.tenancies[t].tenant);
    }
    forall d | 0 <= d < |u.documents| && u.documents[d].kind == AT_TENANCY ensures u.documents[d] == s.documents[d] {
      UndoneScopes(s, refs, d);
    }
  }

  lemma ReleasedIsWellFormed(s: State, refs: seq<Ref>)
    requires WellFormed(s) && RefsExist(s, refs)
    ensures WellFormed(ReleaseContacts(s, refs))
  {
    ReleaseEffect(s, refs);
    var r := ReleaseContacts(s, refs);
    forall t | 0 <= t < |r.tenancies|
      ensures PartyExists(r, r.tenancies[t].landlord) && PartyExists(r, r.tenancies[t].tenant)
    {
      assert PartyExists(s, s.tenancies[t].landlord) && PartyExists(s, s.tenancies[t].tenant);
    }
  }

  lemma RollbackKeepsSound(s: State, b: nat)
    requires WellFormed(s) && BatchesSound(s)
    ensures var s' := RollbackImportBatch(s, b).state; WellFormed(s') && BatchesSound(s')
  {
    if RollbackImportBatch(s, b).reply.Ok? {
      var rows, refs := s.batches[b].rows, AllRefs(s.batches[b].rows);
      assert BatchSound(s.batches[b]);
      forall d: nat, x | DocumentScopeRef(d, x) in refs ensures x.kind != AT_TENANCY {
        var i := RefOfSomeRow(rows, DocumentScopeRef(d, x));
      }
      UndoKeepsRefs(s, refs, refs);
      UndoneIsWellFormed(s, refs);
      ReleasedIsWellFormed(UndoRefs(s, refs), refs);
      var s' := RollbackImportBatch(s, b).state;
      forall e | 0 <= e < |s'.batches| ensures BatchSound(s'.batches[e]) { assert BatchSound(s.batches[e]); }
    }
  }

  lemma ScheduleKeepsSound(s: State, t: nat, xs: seq<PaymentItemInput>, today: int)
    requires WellFormed(s) && BatchesSound(s)
    ensures var s' := SetPaymentSchedule(s, t, xs, today).state;
            WellFormed(s') && BatchesSound(s') && s'.batches == s.batches
  {
    if t < |s.tenancies| && Payments.DistinctSeqs(xs) {
      var s1 := s.(items := Payments.ReplaceSchedule(Payments.Book(s.items, [], s.risk), t, xs).value.rows);
      if Rearmed(s1, t, today).Ok? {
        RegeneratedOnlyDerives(s1, t, t);
        DerivedIsWellFormed(s1, Regenerated(s1, t).value, t);
      }
    }
  }

  lemma ApplyKeepsSound(s: State, op: Op)
    requires WellFormed(s) && BatchesSound(s)
    ensures WellFormed(Apply(s, op)) && BatchesSound(Apply(s, op))
  {
    match op
    case CreateOp(_, _) =>
      forall b | 0 <= b < |Apply(s, op).batches| ensures BatchSound(Apply(s, op).batches[b]) {
        if b < |s.batches| { assert BatchSound(s.batches[b]); }
      }
    case AddRowsOp(b, mapped) =>
      if AddImportRows(s, b, mapped).reply.Ok? {
        WithRowsKeepsSound(s, b, mapped);
        DetectKeepsSound(WithRows(s, b, mapped), b);
      }
    case DetectOp(b) => if b < |s.batches| { DetectKeepsSound(s, b); }
    case CommitOp(actor, b, today) => CommitKeepsSound(s, actor, b, today);
    case RollbackOp(b) => RollbackKeepsSound(s, b);
    case ScheduleOp(t, xs, today) => ScheduleKeepsSound(s, t, xs, today);
    case PaymentOp(_, _) =>
  }

  lemma {:induction false} RunKeepsSound(s: State, ops: seq<Op>)
    requires WellFormed(s) && BatchesSound(s)
    ensures WellFormed(Run(s, ops)) && BatchesSound(Run(s, ops))
    decreases |ops|
  {
    if ops == [] {
    } else {
      ApplyKeepsSound(s, ops[0]);
      RunKeepsSound(Apply(s, ops[0]), ops[1..]);
    }
  }

  /**
   Wherever in a run of import and payment calls over a well-formed workspace a batch is committed, rolling it back
   right away is accepted and gives the live view from before the commit.
   */
  lemma RollbackUndoesCommitInAnyRun(start: State, ops: seq<Op>, actor: Actor, b: nat, today: int)
    requires WellFormed(start) && start.batches == []
    requires CommitTx(Run(start, ops), actor, b).Ok?
    ensures var s := Run(start, ops);
            var back := RollbackImportBatch(CommitImportBatch(s, actor, b, today).state, b);
            back.reply.Ok? && View(back.state) == View(s)
  {
    RunKeepsSound(start, ops);
    assert BatchSound(Run(start, ops).batches[b]);
    RollbackUndoesCommit(Run(start, ops), actor, b, today);
  }
}
