/**
 Two commits of one batch that overlap. A commit reads the batch and checks its status before its
 transaction, which writes without a guard: the second transaction creates every record once more and
 overwrites what the rows remember.
 */
module ImportRaces {
  import opened Common
  import opened Imports
  import opened ImportUndo
  import opened ImportRoundTrip
  import opened ImportRuns
  import ImportRisk
  import ImportRemovals
  import Payments

  /** The check, on the batch as it is read. */
  predicate MayCommit(s: State, b: nat) {
    b < |s.batches| && s.batches[b].status != COMMITTED && s.batches[b].status != ROLLED_BACK
  }

  /** The transaction and the derivations of a commit that has passed its check, on rows read then. */
  function LateCommit(s: State, actor: Actor, b: nat, read: seq<Row>, today: int): Outcome
    requires b < |s.batches|
  {
    var done := CommitRows(s, actor, b, 0);
    if done.Err? then Outcome(s, Err(done.error))
    else AfterCommit(SetStatus(done.value, b, COMMITTED), read, |s.tenancies|, today)
  }

  /** A commit whose transaction follows its check at once is the call as one step. */
  lemma UninterruptedIsTheCall(s: State, actor: Actor, b: nat, today: int)
    requires MayCommit(s, b)
    ensures CommitImportBatch(s, actor, b, today) == LateCommit(s, actor, b, s.batches[b].rows, today)
  {}

  /** As far as a commit goes: the data, and whether the row is taken. */
  ghost predicate SameWork(a: seq<Row>, b: seq<Row>) {
    && |a| == |b|
    && forall i | 0 <= i < |a| :: b[i].data == a[i].data && (Committable(b[i]) <==> Committable(a[i]))
  }

  lemma TakenRowKeepsWork(s: State, actor: Actor, b: nat, i: nat)
    requires b < |s.batches| && i < |s.batches[b].rows| && Committable(s.batches[b].rows[i])
    requires AfterRow(s, actor, b, i).Ok?
    ensures SameWork(s.batches[b].rows, AfterRow(s, actor, b, i).value.0.batches[b].rows)
  {
    assert Committable(AfterRow(s, actor, b, i).value.1);
  }

  lemma SameWorkTrans(a: seq<Row>, b: seq<Row>, c: seq<Row>)
    requires SameWork(a, b) && SameWork(b, c)
    ensures SameWork(a, c)
  {}

  lemma {:induction false} CommittedRowsKeepWork(s: State, actor: Actor, b: nat, i: nat)
    requires b < |s.batches| && i <= |s.batches[b].rows| && CommitRows(s, actor, b, i).Ok?
    ensures var r := CommitRows(s, actor, b, i).value;
            |r.batches| == |s.batches| && SameWork(s.batches[b].rows, r.batches[b].rows)
    decreases |s.batches[b].rows| - i
  {
    if i == |s.batches[b].rows| {
    } else if !Committable(s.batches[b].rows[i]) {
      CommittedRowsKeepWork(s, actor, b, i + 1);
    } else {
      CommitRowsUnfolds(s, actor, b, i);
      TakenRowKeepsWork(s, actor, b, i);
      var s1 := AfterRow(s, actor, b, i).value.0;
      CommittedRowsKeepWork(s1, actor, b, i + 1);
      SameWorkTrans(s.batches[b].rows, s1.batches[b].rows, CommitRows(s1, actor, b, i + 1).value.batches[b].rows);
    }
  }

  /** After the first commit the second finds the rows it read: the same data, document and rows to take. */
  lemma SecondCommitSeesTheSameRows(s: State, actor: Actor, b: nat, today: int)
    requires b < |s.batches| && CommitTx(s, actor, b).Ok?
    ensures var c := CommitImportBatch(s, actor, b, today).state;
            && |c.batches| == |s.batches| && SameWork(s.batches[b].rows, c.batches[b].rows)
            && ContractDocOf(c.batches[b]) == ContractDocOf(s.batches[b])
  {
    CommittedRowsKeepWork(s, actor, b, 0);
    CommitRowsTouchRows(s, actor, b, 0);
    AfterCommitKeepsBatches(CommitTx(s, actor, b).value, s.batches[b].rows, |s.tenancies|, today);
  }

  // What the overlap leaves behind

  predicate NothingToCommit(rows: seq<Row>) {
    forall i | 0 <= i < |rows| :: !Committable(rows[i])
  }

  lemma {:induction false} CommitAddsTenancies(s: State, actor: Actor, b: nat, i: nat)
    requires b < |s.batches| && i <= |s.batches[b].rows| && CommitRows(s, actor, b, i).Ok?
    ensures |CommitRows(s, actor, b, i).value.tenancies| > |s.tenancies| <==>
              exists k | i <= k < |s.batches[b].rows| :: Committable(s.batches[b].rows[k])
    ensures (forall k | i <= k < |s.batches[b].rows| :: !Committable(s.batches[b].rows[k])) ==>
              CommitRows(s, actor, b, i).value == s
    decreases |s.batches[b].rows| - i
  {
    if i == |s.batches[b].rows| {
    } else if !Committable(s.batches[b].rows[i]) {
      CommitAddsTenancies(s, actor, b, i + 1);
    } else {
      CommitRowsUnfolds(s, actor, b, i);
    }
  }

  lemma {:induction false} DerivedStaysLive(s: State, from: nat, t: nat, today: int)
    requires from <= t <= |s.tenancies| && ImportRisk.AllLive(s, from)
    ensures ImportRisk.AllLive(Derive(s, t, today).state, from)
    ensures |Derive(s, t, today).state.tenancies| == |s.tenancies|
    decreases |s.tenancies| - t
  {
    if t == |s.tenancies| {
    } else if Rearmed(s, t, today).Err? {
      assert Derive(s, t, today).state == s;
    } else {
      assert Derive(s, t, today) == Derive(Rearmed(s, t, today).value, t + 1, today);
      ImportRisk.RearmedStaysLive(s, t, today, from);
      DerivedStaysLive(Rearmed(s, t, today).value, from, t + 1, today);
    }
  }

  lemma NothingNewIsNothingSeen(s: State, b: nat, read: seq<Row>, today: int)
    requires b < |s.batches|
    ensures View(AfterCommit(SetStatus(s, b, COMMITTED), read, |s.tenancies|, today).state) == View(s)
  {
    OverlapsTouchRiskOnly(SetStatus(s, b, COMMITTED), read);
  }

  /** A commit shows exactly when there was a row to take. */
  lemma CommitShowsIffWork(s: State, actor: Actor, b: nat, today: int)
    requires CommitTx(s, actor, b).Ok?
    ensures View(CommitImportBatch(s, actor, b, today).state) == View(s) <==> NothingToCommit(s.batches[b].rows)
  {
    var rows, from := s.batches[b].rows, |s.tenancies|;
    CommitAddsTenancies(s, actor, b, 0);
    if NothingToCommit(rows) {
      NothingNewIsNothingSeen(s, b, rows, today);
    } else {
      var tx := CommitTx(s, actor, b).value;
      ImportRisk.RowsAddLiveTenancies(s, actor, b, 0, from);
      DerivedStaysLive(tx, from, from, today);
      OverlapsTouchRiskOnly(Derive(tx, from, today).state, rows);
      assert from in LiveTenancies(CommitImportBatch(s, actor, b, today).state);
      assert from !in LiveTenancies(s);
    }
  }

  lemma SkippedStayUnrecorded(s: State, actor: Actor, b: nat, today: int)
    requires WellFormed(s) && CommitTx(s, actor, b).Ok? && Unrecorded(s.batches[b].rows, 0)
    ensures var c := CommitImportBatch(s, actor, b, today).state;
            b < |c.batches| && SkippedUnrecorded(c.batches[b].rows, 0)
  {
    SkippedRowsStay(s, actor, b, 0);
    AfterCommitKeepsBatches(CommitTx(s, actor, b).value, s.batches[b].rows, |s.tenancies|, today);
  }

  lemma TakenRowIsNotSkipped(s: State, actor: Actor, b: nat, i: nat)
    requires b < |s.batches| && i < |s.batches[b].rows| && AfterRow(s, actor, b, i).Ok?
    requires SkippedUnrecorded(s.batches[b].rows, 0)
    ensures SkippedUnrecorded(AfterRow(s, actor, b, i).value.0.batches[b].rows, 0)
  {
    assert Committable(AfterRow(s, actor, b, i).value.1);
  }

  lemma {:induction false} SkippedRowsStay(s: State, actor: Actor, b: nat, i: nat)
    requires b < |s.batches| && i <= |s.batches[b].rows| && CommitRows(s, actor, b, i).Ok?
    requires SkippedUnrecorded(s.batches[b].rows, 0)
    ensures var r := CommitRows(s, actor, b, i).value;
            |r.batches| == |s.batches| && SkippedUnrecorded(r.batches[b].rows, 0)
    decreases |s.batches[b].rows| - i
  {
    if i == |s.batches[b].rows| {
    } else if !Committable(s.batches[b].rows[i]) {
      SkippedRowsStay(s, actor, b, i + 1);
    } else {
      CommitRowsUnfolds(s, actor, b, i);
      TakenRowIsNotSkipped(s, actor, b, i);
      SkippedRowsStay(AfterRow(s, actor, b, i).value.0, actor, b, i + 1);
    }
  }

  lemma FirstCommitIsWellFormed(s: State, actor: Actor, b: nat, today: int)
    requires WellFormed(s) && CommitTx(s, actor, b).Ok? && Unrecorded(s.batches[b].rows, 0)
    ensures WellFormed(CommitImportBatch(s, actor, b, today).state)
  {
    RowsTrack(s, actor, b, 0);
    AfterCommitIsWellFormed(CommitTx(s, actor, b).value, s.batches[b].rows, |s.tenancies|, today);
  }

  /** Rolling back after a late commit gives what was there before that commit. */
  lemma RollbackUndoesLateCommit(c: State, actor: Actor, b: nat, read: seq<Row>, today: int)
    requires WellFormed(c) && b < |c.batches| && SkippedUnrecorded(c.batches[b].rows, 0)
    requires CommitRows(c, actor, b, 0).Ok?
    ensures var back := RollbackImportBatch(LateCommit(c, actor, b, read, today).state, b);
            && back.reply.Ok? && View(back.state) == View(c)
            && |back.state.batches| == |c.batches| && back.state.batches[b].status == ROLLED_BACK
  {
    RowsAreCommitted(c, actor, b, read, today);
    var c2 := LateCommit(c, actor, b, read, today).state;
    CommittedIsUndone(c, c2, AllRefs(c2.batches[b].rows));
    var back := RollbackImportBatch(c2, b).state;
    assert View(back) == View(Undone(c2, AllRefs(c2.batches[b].rows)));
  }

  /**
   When a batch is committed by two overlapping calls, its rollback takes back the second commit alone: the
   batch is finished and everything the first one created stays live. The view from before is restored if
   and only if there was no row to take.
   */
  lemma OverlappingCommitsOrphanTheFirst(s: State, first: Actor, second: Actor, b: nat, today: int, later: int)
    requires WellFormed(s) && CommitTx(s, first, b).Ok? && Unrecorded(s.batches[b].rows, 0)
    requires LateCommitAccepted(s, first, second, b, today)
    ensures var c := CommitImportBatch(s, first, b, today).state;
            var back := RollbackImportBatch(LateCommit(c, second, b, s.batches[b].rows, later).state, b);
            && back.reply.Ok? && View(back.state) == View(c)
            && |back.state.batches| == |s.batches| && back.state.batches[b].status == ROLLED_BACK
            && (View(back.state) == View(s) <==> NothingToCommit(s.batches[b].rows))
  {
    var c := CommitImportBatch(s, first, b, today).state;
    FirstCommitIsWellFormed(s, first, b, today);
    SkippedStayUnrecorded(s, first, b, today);
    CommitMoves(s, first, b, today, b);
    RollbackUndoesLateCommit(c, second, b, s.batches[b].rows, later);
    CommitShowsIffWork(s, first, b, today);
  }

  /** The second transaction finds nothing to refuse. */
  predicate LateCommitAccepted(s: State, first: Actor, second: Actor, b: nat, today: int) {
    var c := CommitImportBatch(s, first, b, today).state;
    b < |c.batches| && CommitRows(c, second, b, 0).Ok?
  }

  /** It may well be accepted: the imported lease of ImportRemovals, committed twice. */
  lemma OverlapIsPossible() returns (s: State)
    ensures WellFormed(s) && CommitTx(s, Operator, 0).Ok? && Unrecorded(s.batches[0].rows, 0)
    ensures LateCommitAccepted(s, Operator, Operator, 0, 0) && !NothingToCommit(s.batches[0].rows)
  {
    s := ImportRemovals.UploadedBatch();
    ImportRemovals.LeaseCommitted(s);
    ImportRemovals.ImportedLease(s);
    assert Committable(s.batches[0].rows[0]);
    var c := CommitImportBatch(s, Operator, 0, 0).state;
    SecondCommitSeesTheSameRows(s, Operator, 0, 0);
    LeaseFitsAgain(c);
    OneRowAccepted(c);
  }

  lemma LeaseFitsAgain(c: State)
    requires |c.tenancies| == 1 && c.items == [Payments.NewItem(0, ImportRemovals.ONE_CHEQUE)]
    ensures CommitRow(c, Operator, ImportRemovals.ONE_LEASE, None).Ok?
  {
    var data := ImportRemovals.ONE_LEASE;
    assert ResolveParties(c, data) == Ok((Bound(c, None), Bound(c, None)));
    var placed := PlaceProperty(c, Operator, data, None).value;
    var s1 := placed.state.(tenancies := placed.state.tenancies
      + [NewTenancy(data, placed.property, None, None, None)]);
    assert ResolveSchedule(data) == [ImportRemovals.ONE_CHEQUE];
    assert !Payments.HeldSeq(s1.items, 1, ImportRemovals.ONE_CHEQUE.seqNo);
    assert AddItems(s1.(items := s1.items + [Payments.NewItem(1, ImportRemovals.ONE_CHEQUE)]), 1, []).Ok?;
    assert AddItems(s1, 1, [ImportRemovals.ONE_CHEQUE]).Ok?;
  }

  lemma OneRowAccepted(c: State)
    requires |c.batches| == 1 && |c.batches[0].rows| == 1 && ContractDocOf(c.batches[0]).None?
    requires CommitRow(c, Operator, c.batches[0].rows[0].data, None).Ok?
    ensures CommitRows(c, Operator, 0, 0).Ok?
  {
    if Committable(c.batches[0].rows[0]) {
      var s1 := AfterRow(c, Operator, 0, 0).value.0;
      assert CommitRows(s1, Operator, 0, 1).Ok?;
    } else {
      assert CommitRows(c, Operator, 0, 1).Ok?;
    }
  }

  /** For a batch read from a contract document with a row to take it does: the document is attached by then. */
  lemma DocumentStopsTheSecond(s: State, first: Actor, second: Actor, b: nat, today: int, i: nat, d: nat)
    requires WellFormed(s) && CommitTx(s, first, b).Ok? && Unrecorded(s.batches[b].rows, 0)
    requires i < |s.batches[b].rows| && Committable(s.batches[b].rows[i])
    requires ContractDocOf(s.batches[b]) == Some(d) && d < |s.documents|
    ensures !LateCommitAccepted(s, first, second, b, today)
  {
    var c := CommitImportBatch(s, first, b, today).state;
    FirstCommitIsWellFormed(s, first, b, today);
    SecondCommitSeesTheSameRows(s, first, b, today);
    CommitMoves(s, first, b, today, b);
    DocumentIsHung(s, first, b, 0, i, d);
    AfterCommitKeepsDocuments(CommitTx(s, first, b).value, s.batches[b].rows, |s.tenancies|, today);
    HungDocumentStopsTheBatch(c, second, b, 0, i, d);
  }

  lemma AfterCommitKeepsDocuments(s: State, rows: seq<Row>, from: nat, today: int)
    requires from <= |s.tenancies|
    ensures AfterCommit(s, rows, from, today).state.documents == s.documents
  {
    DeriveKeepsDocuments(s, from, today);
    OverlapsTouchRiskOnly(Derive(s, from, today).state, rows);
  }

  lemma {:induction false} DeriveKeepsDocuments(s: State, t: nat, today: int)
    requires t <= |s.tenancies|
    ensures Derive(s, t, today).state.documents == s.documents
    decreases |s.tenancies| - t
  {
    if t == |s.tenancies| || Rearmed(s, t, today).Err? {
    } else {
      DeriveKeepsDocuments(Rearmed(s, t, today).value, t + 1, today);
    }
  }

  lemma RowHangs(s: State, actor: Actor, b: nat, i: nat, d: nat)
    requires WellFormed(s) && b < |s.batches| && i < |s.batches[b].rows| && AfterRow(s, actor, b, i).Ok?
    requires SkippedUnrecorded(s.batches[b].rows, 0) && ContractDocOf(s.batches[b]) == Some(d) && d < |s.documents|
    ensures var s1 := AfterRow(s, actor, b, i).value.0;
            && WellFormed(s1) && SkippedUnrecorded(s1.batches[b].rows, 0)
            && d < |s1.documents| && s1.documents[d].kind == AT_TENANCY
  {
    AfterRowTracks(s, actor, b, i);
    TakenRowIsNotSkipped(s, actor, b, i);
    RowTakesDocument(s, actor, s.batches[b].rows[i].data, d);
  }

  /** Committing a row of the batch hangs its document on a tenancy. */
  lemma {:induction false} DocumentIsHung(s: State, actor: Actor, b: nat, i: nat, k: nat, d: nat)
    requires WellFormed(s) && b < |s.batches| && i <= k < |s.batches[b].rows| && Committable(s.batches[b].rows[k])
    requires SkippedUnrecorded(s.batches[b].rows, 0)
    requires ContractDocOf(s.batches[b]) == Some(d) && d < |s.documents| && CommitRows(s, actor, b, i).Ok?
    ensures var r := CommitRows(s, actor, b, i).value; d < |r.documents| && r.documents[d].kind == AT_TENANCY
    decreases k - i
  {
    if Committable(s.batches[b].rows[i]) {
      CommitRowsUnfolds(s, actor, b, i);
      RowHangs(s, actor, b, i, d);
      HungStays(AfterRow(s, actor, b, i).value.0, actor, b, i + 1, d);
    } else {
      DocumentIsHung(s, actor, b, i + 1, k, d);
    }
  }

  lemma HungStays(s: State, actor: Actor, b: nat, i: nat, d: nat)
    requires WellFormed(s) && b < |s.batches| && i <= |s.batches[b].rows| && CommitRows(s, actor, b, i).Ok?
    requires SkippedUnrecorded(s.batches[b].rows, 0) && d < |s.documents| && s.documents[d].kind == AT_TENANCY
    ensures var r := CommitRows(s, actor, b, i).value; d < |r.documents| && r.documents[d].kind == AT_TENANCY
  {
    RowsTrack(s, actor, b, i);
    var r := CommitRows(s, actor, b, i).value;
    assert MovedDocuments(s.documents, r.documents, AllRefs(r.batches[b].rows[i..]));
    assert DocumentScopeRef(d, s.documents[d]) !in AllRefs(r.batches[b].rows[i..]);
  }
}
