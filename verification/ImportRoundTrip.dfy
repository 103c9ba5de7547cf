/** Commit, then roll back: what a reader of live rows sees is what was there before. */
module ImportRoundTrip {
  import opened Common
  import opened Imports
  import opened ImportUndo
  import Payments
  import Deadlines
  import Cheques

  /** What is live, by position: contacts, properties, tenancies, items, open deadlines, and every document's scope. */
  datatype LiveView = LiveView(
    contacts: map<nat, Contact>,
    properties: map<nat, Property>,
    tenancies: map<nat, Tenancy>,
    items: map<nat, Payments.PaymentItem>,
    deadlines: map<nat, Deadlines.Deadline>,
    documents: seq<Scope>)

  ghost function LiveContacts(s: State): map<nat, Contact> {
    map c: nat | c < |s.contacts| && !s.contacts[c].archived :: s.contacts[c]
  }

  ghost function LiveProperties(s: State): map<nat, Property> {
    map p: nat | p < |s.properties| && !s.properties[p].archived :: s.properties[p]
  }

  ghost function LiveTenancies(s: State): map<nat, Tenancy> {
    map t: nat | t < |s.tenancies| && !s.tenancies[t].archived :: s.tenancies[t]
  }

  ghost function LiveItems(s: State): map<nat, Payments.PaymentItem> {
    map i: nat | i < |s.items| && s.items[i].Some? && s.items[i].value.status != Payments.CANCELLED :: s.items[i].value
  }

  ghost function OpenDeadlines(s: State): map<nat, Deadlines.Deadline> {
    map i: nat | i < |s.deadlines| && s.deadlines[i].status == Deadlines.Open :: s.deadlines[i]
  }

  ghost function View(s: State): LiveView {
    LiveView(LiveContacts(s), LiveProperties(s), LiveTenancies(s), LiveItems(s), OpenDeadlines(s), s.documents)
  }

  /** `c` came from `s` by a commit that recorded `refs`, and by the derivations after it. */
  ghost predicate Committed(s: State, c: State, refs: seq<Ref>) {
    && GrewContacts(s.contacts, c.contacts, refs) && GrewProperties(s.properties, c.properties, refs)
    && GrewItems(s.items, c.items, refs) && MovedDocuments(s.documents, c.documents, refs) && c.referrers == s.referrers
    && |s.tenancies| <= |c.tenancies| && (forall t: nat ::
      TenancyRef(t) in refs <==> |s.tenancies| <= t < |c.tenancies|)
    && (forall t | 0 <= t < |s.tenancies| :: c.tenancies[t] == s.tenancies[t])
    && DeadlinesFrom(s.deadlines, c.deadlines, |s.tenancies|) && DeadlinesBelow(c.deadlines, |c.tenancies|)
  }

  lemma CommittedRefsExist(s: State, c: State, refs: seq<Ref>)
    requires Committed(s, c, refs)
    ensures RefsExist(c, refs)
  {
    forall i | 0 <= i < |refs| ensures RefExists(c, refs[i]) {
      assert refs[i] in refs;
    }
  }

  lemma UndoneTables(s: State, c: State, refs: seq<Ref>)
    requires Committed(s, c, refs) && RefsExist(c, refs)
    ensures var u := UndoRefs(c, refs);
            LiveProperties(u) == LiveProperties(s) && LiveTenancies(u) == LiveTenancies(s)
              && LiveItems(u) == LiveItems(s)
  {
    UndoProperties(c, refs);
    UndoTenancies(c, refs);
    UndoItems(c, refs);
  }

  lemma UndoneDeadlines(s: State, c: State, refs: seq<Ref>)
    requires WellFormed(s) && Committed(s, c, refs) && RefsExist(c, refs)
    ensures OpenDeadlines(UndoRefs(c, refs)) == OpenDeadlines(s)
  {
    UndoDeadlines(c, refs);
    forall i | |s.deadlines| <= i < |c.deadlines| ensures UndoRefs(c, refs).deadlines[i].status != Deadlines.Open {
      assert c.deadlines[i].tenancy.Some? && TenancyRef(c.deadlines[i].tenancy.value) in refs;
    }
    forall i | 0 <= i < |s.deadlines| ensures UndoRefs(c, refs).deadlines[i] == s.deadlines[i] {
      assert c.deadlines[i] == s.deadlines[i];
      assert !ClosedBy(s.deadlines[i], refs);
    }
  }

  lemma UndoneDocuments(s: State, c: State, refs: seq<Ref>)
    requires Committed(s, c, refs) && RefsExist(c, refs)
    ensures UndoRefs(c, refs).documents == s.documents
  {
    UndoLeavesContacts(c, refs);
    forall d | 0 <= d < |s.documents| ensures UndoRefs(c, refs).documents[d] == s.documents[d] {
      UndoDocuments(c, refs, d, s.documents[d]);
    }
  }

  /** Once the batch's own rows are archived nothing live names a contact it created. */
  lemma CreatedContactsAreFree(s: State, c: State, refs: seq<Ref>, contact: nat)
    requires WellFormed(s) && Committed(s, c, refs) && RefsExist(c, refs) && contact >= |s.contacts|
    ensures !Referenced(UndoRefs(c, refs), contact)
  {
    var u := UndoRefs(c, refs);
    UndoLeavesContacts(c, refs);
    UndoProperties(c, refs);
    UndoTenancies(c, refs);
    forall model ensures !RowRefers(u, model, contact) {
      match model
      case PropertyModel =>
        forall p | 0 <= p < |u.properties| && !u.properties[p].archived ensures u.properties[p].owner != Some(contact) {
          assert u.properties[p] == s.properties[p];
        }
      case TenancyModel =>
        forall t | 0 <= t < |u.tenancies| && !u.tenancies[t].archived
          ensures u.tenancies[t].landlord != Some(contact) && u.tenancies[t].tenant != Some(contact)
        {
          assert u.tenancies[t] == s.tenancies[t];
          assert PartyExists(s, s.tenancies[t].landlord) && PartyExists(s, s.tenancies[t].tenant);
        }
      case _ =>
    }
  }

  lemma UndoneContacts(s: State, c: State, refs: seq<Ref>)
    requires WellFormed(s) && Committed(s, c, refs) && RefsExist(c, refs)
    ensures RefsExist(UndoRefs(c, refs), refs)
    ensures LiveContacts(ReleaseContacts(UndoRefs(c, refs), refs)) == LiveContacts(s)
  {
    UndoKeepsRefs(c, refs, refs);
    UndoLeavesContacts(c, refs);
    ReleaseEffect(UndoRefs(c, refs), refs);
    forall contact | |s.contacts| <= contact < |c.contacts| ensures !Referenced(UndoRefs(c, refs), contact) {
      CreatedContactsAreFree(s, c, refs, contact);
    }
  }

  lemma CommittedIsUndone(s: State, c: State, refs: seq<Ref>)
    requires WellFormed(s) && Committed(s, c, refs)
    ensures RefsExist(c, refs) && View(Undone(c, refs)) == View(s)
  {
    CommittedRefsExist(s, c, refs);
    UndoneTables(s, c, refs);
    UndoneDeadlines(s, c, refs);
    UndoneDocuments(s, c, refs);
    UndoneContacts(s, c, refs);
    ReleaseEffect(UndoRefs(c, refs), refs);
  }

  /** The transaction's rows and the derivations after it, whatever was checked before. */
  lemma RowsAreCommitted(s: State, actor: Actor, b: nat, read: seq<Row>, today: int)
    requires WellFormed(s) && b < |s.batches| && SkippedUnrecorded(s.batches[b].rows, 0)
    requires CommitRows(s, actor, b, 0).Ok?
    ensures var tx := SetStatus(CommitRows(s, actor, b, 0).value, b, COMMITTED);
            var c := AfterCommit(tx, read, |s.tenancies|, today).state;
            && |c.batches| == |s.batches| && c.batches[b].status == COMMITTED
            && Committed(s, c, AllRefs(c.batches[b].rows))
  {
    var done := CommitRows(s, actor, b, 0).value;
    RowsTrack(s, actor, b, 0);
    assert done.batches[b].rows[0..] == done.batches[b].rows;
    var tx := SetStatus(done, b, COMMITTED);
    DeriveOnlyDerives(tx, |s.tenancies|, |s.tenancies|, today);
    OverlapsTouchRiskOnly(Derive(tx, |s.tenancies|, today).state, read);
  }

  lemma CommitIsCommitted(s: State, actor: Actor, b: nat, today: int)
    requires WellFormed(s) && b < |s.batches| && Unrecorded(s.batches[b].rows, 0) && CommitTx(s, actor, b).Ok?
    ensures var c := CommitImportBatch(s, actor, b, today).state;
            |c.batches| == |s.batches| && c.batches[b].status == COMMITTED
              && Committed(s, c, AllRefs(c.batches[b].rows))
  {
    RowsAreCommitted(s, actor, b, s.batches[b].rows, today);
  }

  /**
   Committing a batch and rolling it back restores the live view exactly, whatever the rows said, also
   when the derivations after the commit stopped early.
   */
  lemma RollbackUndoesCommit(s: State, actor: Actor, b: nat, today: int)
    requires WellFormed(s) && b < |s.batches| && Unrecorded(s.batches[b].rows, 0) && CommitTx(s, actor, b).Ok?
    ensures var back := RollbackImportBatch(CommitImportBatch(s, actor, b, today).state, b);
            && back.reply.Ok? && View(back.state) == View(s)
            && |back.state.batches| == |s.batches| && back.state.batches[b].status == ROLLED_BACK
  {
    CommitIsCommitted(s, actor, b, today);
    var c := CommitImportBatch(s, actor, b, today).state;
    CommittedIsUndone(s, c, AllRefs(c.batches[b].rows));
    var back := RollbackImportBatch(c, b).state;
    assert View(back) == View(Undone(c, AllRefs(c.batches[b].rows)));
  }

  /** A refused transaction changes nothing, and a batch is committed at most once and rolled back at most once. */
  lemma BatchMovesForward(s: State, actor: Actor, b: nat, today: int)
    requires b < |s.batches|
    ensures CommitTx(s, actor, b).Err? ==> CommitImportBatch(s, actor, b, today).state == s
    ensures s.batches[b].status in {COMMITTED, ROLLED_BACK} ==>
              CommitImportBatch(s, actor, b, today) == Outcome(s, Err(Unprocessable))
    ensures s.batches[b].status != COMMITTED ==> RollbackImportBatch(s, b) == Outcome(s, Err(Unprocessable))
  {}

  // ---------------------------------------------------------------------------------------------
  // A contract document holds one lease
  // ---------------------------------------------------------------------------------------------

  lemma {:induction false} ItemsKeepDocuments(s: State, t: nat, xs: seq<Cheques.PaymentItemInput>)
    requires AddItems(s, t, xs).Ok?
    ensures AddItems(s, t, xs).value.state.documents == s.documents
    decreases |xs|
  {
    if xs == [] {
    } else {
      ItemsKeepDocuments(s.(items := s.items + [Payments.NewItem(t, xs[0])]), t, xs[1..]);
    }
  }

  /** A committed row takes its document from outside any tenancy and hangs it on the new one. */
  lemma LeaseTakesDocument(s: State, data: RowData, property: nat, landlord: Option<nat>, tenant: Option<nat>, d: nat)
    requires WellFormed(s) && d < |s.documents| && AddLease(s, data, property, landlord, tenant, Some(d)).Ok?
    ensures s.documents[d].kind != AT_TENANCY
    ensures AddLease(s, data, property, landlord, tenant,
      Some(d)).value.state.documents == s.documents[d := Scope(AT_TENANCY, Some(|s.tenancies|))]
  {
    var t := |s.tenancies|;
    var s1 := s.(tenancies := s.tenancies + [NewTenancy(data, property, landlord, tenant, Some(d))]);
    var attached := AttachDocument(s1, Some(d), t, property).value;
    ItemsKeepDocuments(attached.state, t, ResolveSchedule(data));
  }

  lemma PartiesKeepDocuments(s: State, data: RowData)
    requires WellFormed(s) && ResolveParties(s, data).Ok?
    ensures var (landlord, tenant) := ResolveParties(s, data).value;
            WellFormed(tenant.state) && tenant.state.documents == s.documents
              && PartyExists(tenant.state, landlord.contact)
            && PartyExists(tenant.state, tenant.contact)
  {
    PartyTracks(s, OWNER, data.landlord);
    PartyTracks(ResolveParty(s, OWNER, data.landlord).value.state, TENANT, data.tenant);
  }

  lemma RowTakesDocument(s: State, actor: Actor, data: RowData, d: nat)
    requires WellFormed(s) && d < |s.documents| && CommitRow(s, actor, data, Some(d)).Ok?
    ensures s.documents[d].kind != AT_TENANCY
    ensures var s' := CommitRow(s, actor, data, Some(d)).value.state;
            |s'.documents| == |s.documents| && s'.documents[d].kind == AT_TENANCY
  {
    var (landlord, tenant) := ResolveParties(s, data).value;
    PartiesKeepDocuments(s, data);
    PlaceTracks(tenant.state, actor, data, landlord.contact);
    var placed := PlaceProperty(tenant.state, actor, data, landlord.contact).value;
    assert placed.state.documents == s.documents;
    LeaseTakesDocument(placed.state, data, placed.property, landlord.contact, tenant.contact, d);
  }

  lemma {:induction false} HungDocumentStopsTheBatch(s: State, actor: Actor, b: nat, i: nat, j: nat, d: nat)
    requires WellFormed(s) && b < |s.batches| && i <= j < |s.batches[b].rows| && Committable(s.batches[b].rows[j])
    requires ContractDocOf(s.batches[b]) == Some(d) && d < |s.documents| && s.documents[d].kind == AT_TENANCY
    ensures CommitRows(s, actor, b, i).Err?
    decreases j - i
  {
    var rows := s.batches[b].rows;
    if Committable(rows[i]) {
      if CommitRow(s, actor, rows[i].data, Some(d)).Ok? { RowTakesDocument(s, actor, rows[i].data, d); }
    } else {
      HungDocumentStopsTheBatch(s, actor, b, i + 1, j, d);
    }
  }

  /** A batch read from one contract document commits only if at most one of its rows is to be committed. */
  lemma {:induction false} DocumentHoldsOneLease(s: State, actor: Actor, b: nat, i: nat, j: nat, k: nat, d: nat)
    requires WellFormed(s) && b < |s.batches| && i <= j < k < |s.batches[b].rows|
    requires Committable(s.batches[b].rows[j]) && Committable(s.batches[b].rows[k])
    requires ContractDocOf(s.batches[b]) == Some(d) && d < |s.documents|
    ensures CommitRows(s, actor, b, i).Err?
    decreases j - i
  {
    var rows := s.batches[b].rows;
    if !Committable(rows[i]) {
      DocumentHoldsOneLease(s, actor, b, i + 1, j, k, d);
    } else {
      var done := CommitRow(s, actor, rows[i].data, Some(d));
      if done.Ok? {
        RowTracks(s, actor, rows[i].data, Some(d));
        RowTakesDocument(s, actor, rows[i].data, d);
        HungDocumentStopsTheBatch(SetRow(done.value.state, b, i,
          rows[i].(status := ACCEPTED, refs := done.value.refs)), actor, b, i + 1, k, d);
      }
    }
  }
}
