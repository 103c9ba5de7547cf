/** The conflict pass over the rows of a batch that are still undecided. */
module ImportConflicts {
  import opened Common
  import opened Imports

  predicate OnRecord(s: State, ejariNo: string) {
    exists t | 0 <= t < |s.tenancies| :: s.tenancies[t].ejariNo == Some(ejariNo) && !s.tenancies[t].archived
  }

  predicate OverlapsOn(s: State, property: nat, data: RowData) {
    exists t | 0 <= t < |s.tenancies| ::
      && s.tenancies[t].property == property && !s.tenancies[t].archived
      && s.tenancies[t].startDay <= data.endDay && s.tenancies[t].endDay >= data.startDay
  }

  /** A lease already on the live property at this address overlaps; without a unit number nothing is looked up. */
  predicate Overlaps(s: State, data: RowData) {
    && data.address.community != "" && Truthy(data.address.unitNo)
    && var property := PropertyAt(s.properties, data.address, 0);
       property.Some? && OverlapsOn(s, property.value, data)
  }

  predicate Undecided(row: Row) {
    row.status == PENDING || row.status == CONFLICT
  }

  /** The verdict on one row, given the Ejari numbers seen on earlier ones. The first ground found is the reason. */
  function Judge(s: State, seen: set<string>, data: RowData): Option<Reason> {
    if Truthy(data.ejariNo) && data.ejariNo.value in seen then Some(RepeatedInBatch)
    else if Truthy(data.ejariNo) && OnRecord(s, data.ejariNo.value) then Some(OnRecordAlready)
    else if Overlaps(s, data) then Some(OverlappingDates)
    else None
  }

  function Seen(seen: set<string>, row: Row): set<string> {
    if Undecided(row) && Truthy(row.data.ejariNo) then seen + {row.data.ejariNo.value} else seen
  }

  function Judged(s: State, seen: set<string>, row: Row): Row {
    if !Undecided(row) then row
    else
      var reason := Judge(s, seen, row.data);
      row.(status := if reason.Some? then CONFLICT else PENDING, reason := reason)
  }

  function DetectRows(s: State, rows: seq<Row>, seen: set<string>): (out: seq<Row>)
    ensures |out| == |rows|
    decreases |rows|
  {
    if rows == [] then [] else [Judged(s, seen, rows[0])] + DetectRows(s, rows[1..], Seen(seen, rows[0]))
  }

  function DetectConflicts(s: State, b: nat): State
    requires b < |s.batches|
  {
    s.(batches := s.batches[b := s.batches[b].(rows := DetectRows(s, s.batches[b].rows, {}))])
  }

  /** Add mapped rows to a batch that is not finalised, then pass over all of them. */
  function AddImportRows(s: State, b: nat, mapped: seq<RowData>): Outcome {
    if b >= |s.batches| then Outcome(s, Err(NotFound))
    else if s.batches[b].status == COMMITTED || s.batches[b].status == ROLLED_BACK then Outcome(s, Err(Unprocessable))
    else Outcome(DetectConflicts(WithRows(s, b, mapped), b), Ok(()))
  }

  function NewRows(mapped: seq<RowData>): (rows: seq<Row>)
    ensures |rows| == |mapped| && forall i | 0 <= i < |rows| :: rows[i] == Row(mapped[i], PENDING, None, [])
  {
    seq(|mapped|, i requires 0 <= i < |mapped| => Row(mapped[i], PENDING, None, []))
  }

  function WithRows(s: State, b: nat, mapped: seq<RowData>): State
    requires b < |s.batches|
  {
    var batch := s.batches[b];
    s.(batches := s.batches[b := batch.(rows := batch.rows + NewRows(mapped), status := MAPPED)])
  }

  /** An undecided row before row i carries the same Ejari number. */
  predicate RepeatsEarlier(rows: seq<Row>, i: nat)
    requires i < |rows|
  {
    exists j | 0 <= j < i ::
      Undecided(rows[j]) && Truthy(rows[j].data.ejariNo) && rows[j].data.ejariNo == rows[i].data.ejariNo
  }

  /** What the pass decides: a repeated number in the batch, a number on record, or an overlapping lease. */
  lemma {:induction false} ConflictMeans(s: State, rows: seq<Row>, seen: set<string>, i: nat)
    requires i < |rows| && Undecided(rows[i])
    ensures var ejariNo, out := rows[i].data.ejariNo, DetectRows(s, rows, seen)[i];
            && out.data == rows[i].data && out.refs == rows[i].refs && (out.status == CONFLICT || out.status == PENDING)
            && (out.status == CONFLICT <==>
                  || RepeatsEarlier(rows, i)
                  || (Truthy(ejariNo) && (ejariNo.value in seen || OnRecord(s, ejariNo.value)))
                  || Overlaps(s, rows[i].data))
            && (out.reason.Some? <==> out.status == CONFLICT)
            && (out.reason == Some(RepeatedInBatch) <==>
                  RepeatsEarlier(rows, i) || (Truthy(ejariNo) && ejariNo.value in seen))
            && (out.reason == Some(OnRecordAlready) <==>
                  !RepeatsEarlier(rows, i) && Truthy(ejariNo) && ejariNo.value !in seen && OnRecord(s, ejariNo.value))
            && (out.reason == Some(OverlappingDates) ==> Overlaps(s, rows[i].data))
    decreases |rows|
  {
    if i == 0 {
    } else {
      ConflictMeans(s, rows[1..], Seen(seen, rows[0]), i - 1);
      var first := Undecided(rows[0]) && Truthy(rows[0].data.ejariNo) && rows[0].data.ejariNo == rows[i].data.ejariNo;
      assert RepeatsEarlier(rows, i) <==> first || RepeatsEarlier(rows[1..], i - 1) by {
        if RepeatsEarlier(rows, i) && !first {
          var j :| 0 <= j < i && Undecided(rows[j]) && Truthy(rows[j].data.ejariNo)
            && rows[j].data.ejariNo == rows[i].data.ejariNo;
          assert rows[1..][j - 1] == rows[j];
        }
        if RepeatsEarlier(rows[1..], i - 1) {
          var j :| 0 <= j < i - 1 && Undecided(rows[1..][j]) && Truthy(rows[1..][j].data.ejariNo)
            && rows[1..][j].data.ejariNo == rows[1..][i - 1].data.ejariNo;
          assert rows[j + 1] == rows[1..][j];
        }
      }
    }
  }

  lemma {:induction false} DecidedRowsStay(s: State, rows: seq<Row>, seen: set<string>, i: nat)
    requires i < |rows| && !Undecided(rows[i])
    ensures DetectRows(s, rows, seen)[i] == rows[i]
    decreases |rows|
  {
    if i == 0 {
    } else {
      DecidedRowsStay(s, rows[1..], Seen(seen, rows[0]), i - 1);
    }
  }

  /**
   The rows the pass leaves pending carry distinct Ejari numbers, none of them on record, and overlap
   no lease on file.
   */
  lemma PendingRowsAreFresh(s: State, rows: seq<Row>, i: nat, j: nat)
    requires i < j < |rows| && Undecided(rows[i]) && Undecided(rows[j])
    requires DetectRows(s, rows, {})[i].status == PENDING && DetectRows(s, rows, {})[j].status == PENDING
    ensures Truthy(rows[i].data.ejariNo) ==> rows[i].data.ejariNo != rows[j].data.ejariNo
    ensures Truthy(rows[j].data.ejariNo) ==> !OnRecord(s, rows[j].data.ejariNo.value)
    ensures !Overlaps(s, rows[i].data) && !Overlaps(s, rows[j].data)
  {
    ConflictMeans(s, rows, {}, i);
    ConflictMeans(s, rows, {}, j);
    assert !RepeatsEarlier(rows, j);
  }
}
