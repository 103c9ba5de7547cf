/** The deadlines of the tenancies an import creates, and the rows it takes. */
module ImportDeadlines {
  import opened Common
  import opened Imports
  import opened ImportUndo
  import opened ImportRisk
  import PaymentDesk
  import Deadlines

  /** The deadlines of tenancy t mirror its term and items, and its gate is on the row. */
  ghost predicate DatesTrue(s: State, t: nat)
    requires t < |s.tenancies|
  {
    var row := s.tenancies[t];
    && Deadlines.Mirrors(s.deadlines, t, row.endDay, row.noticePeriodDays, PaymentDesk.ItemsOf(s.items, t))
    && row.noticeGateDay == Some(row.endDay - row.noticePeriodDays)
  }

  lemma DatesIgnoreRisk(s: State, s': State, t: nat)
    requires t < |s.tenancies| && s' == s.(risk := s'.risk) && DatesTrue(s, t)
    ensures DatesTrue(s', t)
  {}

  lemma RegeneratedMirrors(s: State, u: nat)
    requires u < |s.tenancies| && !s.tenancies[u].archived && Deadlines.Tidy(s.deadlines, u) && Regenerated(s, u).Ok?
    ensures u < |Regenerated(s, u).value.tenancies| && DatesTrue(Regenerated(s, u).value, u)
  {
    PaymentDesk.ItemsOfIds(s.items, u);
    Deadlines.RegenerateMirrors(s.deadlines, DatesOf(s, u), PaymentDesk.ItemsOf(s.items, u));
  }

  lemma RearmingMirrors(s: State, u: nat, today: int)
    requires u < |s.tenancies| && !s.tenancies[u].archived && Deadlines.Tidy(s.deadlines, u)
    requires Rearmed(s, u, today).Ok?
    ensures u < |Rearmed(s, u, today).value.tenancies| && DatesTrue(Rearmed(s, u, today).value, u)
  {
    RegeneratedMirrors(s, u);
    DatesIgnoreRisk(Regenerated(s, u).value, Rearmed(s, u, today).value, u);
  }

  /** A mirror does not notice what happens to the deadlines of another tenancy. */
  lemma MirrorElsewhere(a: seq<Deadlines.Deadline>, b: seq<Deadlines.Deadline>, u: nat, t: nat, endDay: int,
      notice: int, items: seq<Deadlines.Item>)
    requires Deadlines.OnlyTouches(a, b, u) && t != u && Deadlines.Mirrors(a, t, endDay, notice, items)
    ensures Deadlines.Mirrors(b, t, endDay, notice, items)
  {
    forall y: Deadlines.Deadline | y in a && y.tenancy == Some(t) ensures y in b {
      var i :| 0 <= i < |a| && a[i] == y;
      assert b[i] == y;
    }
    forall i | 0 <= i < |b| && b[i].tenancy == Some(t) ensures i < |a| && a[i] == b[i] {}
    assert Deadlines.Tidy(b, t);
    forall y: Deadlines.Deadline | y in b && Deadlines.DerivedOpen(y, t) && y.kind == Deadlines.CHEQUE_DUE
      ensures y.discriminator.Some? && Deadlines.Live(items, y.discriminator.value)
    {
      var i :| 0 <= i < |b| && b[i] == y;
      assert a[i] == y;
    }
  }

  lemma RegeneratedElsewhereMirrors(s: State, u: nat, t: nat)
    requires u < |s.tenancies| && t < |s.tenancies| && t != u && DatesTrue(s, t) && Regenerated(s, u).Ok?
    ensures t < |Regenerated(s, u).value.tenancies| && DatesTrue(Regenerated(s, u).value, t)
  {
    var row := s.tenancies[t];
    Deadlines.RegenerateTouchesOneTenancy(s.deadlines, DatesOf(s, u), PaymentDesk.ItemsOf(s.items, u));
    MirrorElsewhere(s.deadlines, Regenerated(s, u).value.deadlines, u, t, row.endDay, row.noticePeriodDays,
                    PaymentDesk.ItemsOf(s.items, t));
  }

  lemma RearmingElsewhereMirrors(s: State, u: nat, today: int, t: nat)
    requires u < |s.tenancies| && t < |s.tenancies| && t != u && DatesTrue(s, t) && Rearmed(s, u, today).Ok?
    ensures t < |Rearmed(s, u, today).value.tenancies| && DatesTrue(Rearmed(s, u, today).value, t)
  {
    RegeneratedElsewhereMirrors(s, u, t);
    DatesIgnoreRisk(Regenerated(s, u).value, Rearmed(s, u, today).value, t);
  }

  lemma RearmingStaysBelow(s: State, u: nat, today: int)
    requires u < |s.tenancies| && DeadlinesBelow(s.deadlines, u) && Rearmed(s, u, today).Ok?
    ensures DeadlinesBelow(Rearmed(s, u, today).value.deadlines, u + 1)
  {
    Deadlines.RegenerateTouchesOneTenancy(s.deadlines, DatesOf(s, u), PaymentDesk.ItemsOf(s.items, u));
  }

  lemma {:induction false} DerivedDates(s: State, from: nat, u: nat, today: int)
    requires from <= u <= |s.tenancies| && AllLive(s, from) && DeadlinesBelow(s.deadlines, u)
    requires forall t | from <= t < u :: DatesTrue(s, t)
    requires Derive(s, u, today).reply.Ok?
    ensures var s' := Derive(s, u, today).state;
            |s'.tenancies| == |s.tenancies| && forall t | from <= t < |s'.tenancies| :: DatesTrue(s', t)
    decreases |s.tenancies| - u
  {
    if u == |s.tenancies| {
    } else {
      var s1 := Rearmed(s, u, today).value;
      RearmedStaysLive(s, u, today, from);
      RearmingStaysBelow(s, u, today);
      assert Deadlines.Tidy(s.deadlines, u);
      RearmingMirrors(s, u, today);
      forall t | from <= t < u + 1 ensures DatesTrue(s1, t) {
        if t < u { RearmingElsewhereMirrors(s, u, today, t); }
      }
      DerivedDates(s1, from, u + 1, today);
    }
  }

  /** After a commit that went through, deadlines and gate of every new tenancy are those of its row and items. */
  lemma NewTenanciesHaveTheirDeadlines(s: State, actor: Actor, b: nat, today: int, t: nat)
    requires WellFormed(s) && CommitImportBatch(s, actor, b, today).reply.Ok? && Unrecorded(s.batches[b].rows, 0)
    requires |s.tenancies| <= t < |CommitImportBatch(s, actor, b, today).state.tenancies|
    ensures DatesTrue(CommitImportBatch(s, actor, b, today).state, t)
  {
    var from, rows := |s.tenancies|, s.batches[b].rows;
    var tx := CommitTx(s, actor, b).value;
    RowsAddLiveTenancies(s, actor, b, 0, from);
    CommitKeepsDeadlines(s, actor, b);
    DerivedDates(tx, from, from, today);
    var derived := Derive(tx, from, today).state;
    OverlapsTouchRiskOnly(derived, rows);
    DatesIgnoreRisk(derived, FlagOverlaps(derived, rows), t);
  }

  lemma CommitKeepsDeadlines(s: State, actor: Actor, b: nat)
    requires WellFormed(s) && CommitTx(s, actor, b).Ok? && Unrecorded(s.batches[b].rows, 0)
    ensures CommitTx(s, actor, b).value.deadlines == s.deadlines && DeadlinesBelow(s.deadlines, |s.tenancies|)
  {
    RowsTrack(s, actor, b, 0);
  }

  // Which rows a commit takes

  predicate Taken(row: Row) {
    row.status == PENDING || row.status == ACCEPTED
  }

  function CountTaken(rows: seq<Row>, from: nat): nat
    requires from <= |rows|
    decreases |rows| - from
  {
    if from == |rows| then 0 else (if Taken(rows[from]) then 1 else 0) + CountTaken(rows, from + 1)
  }

  lemma {:induction false} CountOfSameTail(a: seq<Row>, b: seq<Row>, from: nat)
    requires |a| == |b| && from <= |a| && forall i | from <= i < |a| :: a[i] == b[i]
    ensures CountTaken(a, from) == CountTaken(b, from)
    decreases |a| - from
  {
    if from == |a| {
    } else {
      CountOfSameTail(a, b, from + 1);
    }
  }

  lemma RowIsTaken(s: State, actor: Actor, b: nat, i: nat)
    requires b < |s.batches| && i < |s.batches[b].rows| && AfterRow(s, actor, b, i).Ok?
    ensures var (s1, row) := AfterRow(s, actor, b, i).value;
            && |s1.tenancies| == |s.tenancies| + 1 && |s1.batches| == |s.batches|
            && row.data == s.batches[b].rows[i].data && row.status == ACCEPTED
            && s1.batches[b].rows == s.batches[b].rows[i := row]
  {}

  /** From row i on the pending and accepted rows are accepted, with their data; the others are as they were. */
  ghost predicate RowsAfter(rows: seq<Row>, rows': seq<Row>, i: nat) {
    && |rows'| == |rows|
    && forall k | 0 <= k < |rows| ::
         if i <= k && Taken(rows[k]) then rows'[k].data == rows[k].data && rows'[k].status == ACCEPTED
         else rows'[k] == rows[k]
  }

  lemma RowsAfterOne(rows: seq<Row>, rows': seq<Row>, i: nat, row: Row)
    requires i < |rows| && Taken(rows[i]) && row.data == rows[i].data && row.status == ACCEPTED
    requires RowsAfter(rows[i := row], rows', i + 1)
    ensures RowsAfter(rows, rows', i)
  {}

  lemma RowAdds(s: State, actor: Actor, b: nat, i: nat)
    requires b < |s.batches| && i < |s.batches[b].rows| && Taken(s.batches[b].rows[i])
    requires CommitRows(s, actor, b, i).Ok?
    ensures AfterRow(s, actor, b, i).Ok?
    ensures var (s1, row), rows := AfterRow(s, actor, b, i).value, s.batches[b].rows;
            && |s1.batches| == |s.batches| && s1.batches[b].rows == rows[i := row]
            && row.data == rows[i].data && row.status == ACCEPTED
            && CommitRows(s, actor, b, i) == CommitRows(s1, actor, b, i + 1)
            && |s1.tenancies| + CountTaken(s1.batches[b].rows, i + 1) == |s.tenancies| + CountTaken(rows, i)
  {
    CommitRowsUnfolds(s, actor, b, i);
    RowIsTaken(s, actor, b, i);
    CountOfSameTail(s.batches[b].rows, AfterRow(s, actor, b, i).value.0.batches[b].rows, i + 1);
  }

  lemma RowSkipped(s: State, actor: Actor, b: nat, i: nat)
    requires b < |s.batches| && i < |s.batches[b].rows| && !Taken(s.batches[b].rows[i])
    ensures CommitRows(s, actor, b, i) == CommitRows(s, actor, b, i + 1)
  {}

  lemma NoRowLeft(s: State, actor: Actor, b: nat)
    requires b < |s.batches|
    ensures CommitRows(s, actor, b, |s.batches[b].rows|) == Ok(s)
  {}

  /** r has one tenancy more for each row from i on that is pending or accepted, and these rows are accepted. */
  ghost predicate OneTenancyEach(s: State, r: State, b: nat, i: nat)
    requires b < |s.batches| && i <= |s.batches[b].rows|
  {
    && |r.tenancies| == |s.tenancies| + CountTaken(s.batches[b].rows, i)
    && |r.batches| == |s.batches| && RowsAfter(s.batches[b].rows, r.batches[b].rows, i)
  }

  lemma SkippedEach(s: State, r: State, b: nat, i: nat)
    requires b < |s.batches| && i < |s.batches[b].rows| && !Taken(s.batches[b].rows[i])
    requires OneTenancyEach(s, r, b, i + 1)
    ensures OneTenancyEach(s, r, b, i)
  {}

  /** One tenancy for each row that is pending or accepted; these rows are accepted then, the others as they were. */
  lemma {:induction false} EachRowOneTenancy(s: State, actor: Actor, b: nat, i: nat, r: State)
    requires b < |s.batches| && i <= |s.batches[b].rows| && CommitRows(s, actor, b, i) == Ok(r)
    ensures OneTenancyEach(s, r, b, i)
    decreases |s.batches[b].rows| - i
  {
    var rows := s.batches[b].rows;
    if i == |rows| {
      NoRowLeft(s, actor, b);
    } else if !Taken(rows[i]) {
      RowSkipped(s, actor, b, i);
      EachRowOneTenancy(s, actor, b, i + 1, r);
      SkippedEach(s, r, b, i);
    } else {
      RowAdds(s, actor, b, i);
      var (s1, row) := AfterRow(s, actor, b, i).value;
      EachRowOneTenancy(s1, actor, b, i + 1, r);
      RowsAfterOne(rows, r.batches[b].rows, i, row);
    }
  }

  /** The document of a batch goes with its rows only for a batch read from documents. */
  lemma DocumentOfBatch(batch: Batch)
    ensures batch.source == EXCEL ==> ContractDocOf(batch) == None
    ensures batch.source == DOCUMENTS ==> ContractDocOf(batch) == batch.fileDoc
  {}
}
