/** What an import decides, said on the rows it reads: which rows are taken, which conflict, which contacts are kept. */
module ImportRecords {
  import opened Common
  import opened Cheques
  import opened Imports
  import opened ImportConflicts
  import opened ImportLease
  import opened ImportUndo
  import Payments
  import Risk

  // ---------------------------------------------------------------------------------------------
  // Rows a commit takes
  // ---------------------------------------------------------------------------------------------

  /** The property a row is for: the one chosen while live, else the first live one at the address, else a new one. */
  predicate HomeIs(s: State, data: RowData, p: nat) {
    if data.property.Some? && data.property.value < |s.properties| && !s.properties[data.property.value].archived
    then p == data.property.value
    else if exists q | 0 <= q < |s.properties| :: LiveAt(s.properties[q], data.address)
    then p < |s.properties| && LiveAt(s.properties[p], data.address)
         && forall q | 0 <= q < p :: !LiveAt(s.properties[q], data.address)
    else p == |s.properties|
  }

  /** An operator may use any client of the workspace, an agent those it holds a property of. */
  predicate ClientStands(s: State, actor: Actor, client: Option<nat>) {
    client.None?
    || (actor.Operator? && client.value in s.clients)
    || (actor.Agent? && exists p | p in s.book :: p < |s.properties| && s.properties[p].client == client)
  }

  /** A contract document hangs on no tenancy, and on no property but that of the lease. */
  predicate DocumentFree(documents: seq<Scope>, doc: Option<nat>, p: nat) {
    doc.Some? && doc.value < |documents| ==>
      && documents[doc.value].kind != AT_TENANCY
      && (documents[doc.value].kind == AT_PROPERTY ==> documents[doc.value].id == Some(p))
  }

  /** No item belongs to a tenancy that is not there yet. */
  ghost predicate ItemsBelong(s: State) {
    forall i | 0 <= i < |s.items| && s.items[i].Some? :: s.items[i].value.tenancy < |s.tenancies|
  }

  lemma {:induction false} ItemsFit(s: State, t: nat, xs: seq<PaymentItemInput>)
    requires forall k | 0 <= k < |xs| :: !Payments.HeldSeq(s.items, t, xs[k].seqNo)
    ensures AddItems(s, t, xs).Ok? <==> Payments.DistinctSeqs(xs)
    ensures AddItems(s, t, xs).Err? ==> AddItems(s, t, xs).error == Uncaught
    decreases |xs|
  {
    if xs == [] {
    } else {
      var s1 := s.(items := s.items + [Payments.NewItem(t, xs[0])]);
      Payments.AppendHeld(s.items, t, xs[0]);
      if exists k | 0 < k < |xs| :: xs[k].seqNo == xs[0].seqNo {
        var k :| 0 < k < |xs| && xs[k].seqNo == xs[0].seqNo;
        assert Payments.HeldSeq(s1.items, t, xs[1..][k - 1].seqNo);
        HeldStops(s1, t, xs[1..], k - 1);
      } else {
        ItemsFit(s1, t, xs[1..]);
        assert Payments.DistinctSeqs(xs) <==> Payments.DistinctSeqs(xs[1..]) by {
          if Payments.DistinctSeqs(xs[1..]) {
            forall i, j | 0 <= i < j < |xs| ensures xs[i].seqNo != xs[j].seqNo {
              if i > 0 { assert xs[1..][i - 1].seqNo != xs[1..][j - 1].seqNo; }
            }
          }
        }
      }
    }
  }

  lemma {:induction false} HeldStops(s: State, t: nat, xs: seq<PaymentItemInput>, k: nat)
    requires k < |xs| && Payments.HeldSeq(s.items, t, xs[k].seqNo)
    ensures AddItems(s, t, xs) == Err(Uncaught)
    decreases |xs|
  {
    if k == 0 || Payments.HeldSeq(s.items, t, xs[0].seqNo) {
    } else {
      Payments.AppendHeld(s.items, t, xs[0]);
      HeldStops(s.(items := s.items + [Payments.NewItem(t, xs[0])]), t, xs[1..], k - 1);
    }
  }

  /** A contact created for the landlord is an owner, so it is never the tenant chosen. */
  lemma TenantChoiceStands(s: State, landlord: Party, choice: Choice)
    requires ResolveParty(s, OWNER, landlord).Ok?
    ensures ChoiceStands(ResolveParty(s, OWNER, landlord).value.state.contacts, TENANT, choice) <==>
            ChoiceStands(s.contacts, TENANT, choice)
  {
    PartyResolved(s, OWNER, landlord);
  }

  lemma PartiesStand(s: State, data: RowData)
    ensures ResolveParties(s, data).Ok? <==>
            && ChoiceStands(s.contacts, OWNER, data.landlord.choice)
            && ChoiceStands(s.contacts, TENANT, data.tenant.choice)
  {
    PartyIsResolved(s, OWNER, data.landlord);
    if ResolveParty(s, OWNER, data.landlord).Ok? {
      TenantChoiceStands(s, data.landlord, data.tenant.choice);
      PartyIsResolved(ResolveParty(s, OWNER, data.landlord).value.state, TENANT, data.tenant);
    }
  }

  lemma HomeIsPlaced(s: State, actor: Actor, data: RowData, owner: Option<nat>)
    ensures PlaceProperty(s, actor, data, owner).Ok? <==>
            (actor.Agent? ==> forall p: nat | HomeIs(s, data, p) :: p == |s.properties| || p in s.book)
    ensures PlaceProperty(s, actor, data, owner).Err? ==> PlaceProperty(s, actor, data, owner).error == NotFound
    ensures PlaceProperty(s, actor, data, owner).Ok? ==>
              HomeIs(s, data, PlaceProperty(s, actor, data, owner).value.property)
  {
    FirstLiveAt(s.properties, data.address, 0);
    var found := FindProperty(s, data);
    var home := if found.Some? then found.value else |s.properties|;
    assert HomeIs(s, data, home);
    forall p: nat | HomeIs(s, data, p) ensures p == home {}
  }

  lemma LeaseFits(s: State, data: RowData, p: nat, landlord: Option<nat>, tenant: Option<nat>, doc: Option<nat>)
    requires WellFormed(s) && ItemsBelong(s)
    ensures AddLease(s, data, p, landlord, tenant, doc).Ok? <==>
            DocumentFree(s.documents, doc, p) && Payments.DistinctSeqs(ResolveSchedule(data))
    ensures AddLease(s, data, p, landlord, tenant, doc).Err? ==>
              AddLease(s, data, p, landlord, tenant, doc).error ==
                if DocumentFree(s.documents, doc, p) then Uncaught else Unprocessable
  {
    var t := |s.tenancies|;
    var s1 := s.(tenancies := s.tenancies + [NewTenancy(data, p, landlord, tenant, doc)]);
    var attached := AttachDocument(s1, doc, t, p);
    if attached.Ok? { ItemsFit(attached.value.state, t, ResolveSchedule(data)); }
  }

  /**
   A row is committed if and only if the contacts chosen for it are live and of their kind, its client may be
   used, an agent keeps within its book, its document is free and its schedule repeats no number.
   */
  lemma RowTakenIff(s: State, actor: Actor, data: RowData, doc: Option<nat>, p: nat)
    requires WellFormed(s) && ItemsBelong(s) && HomeIs(s, data, p)
    ensures CommitRow(s, actor, data, doc).Ok? <==>
            && ChoiceStands(s.contacts, OWNER, data.landlord.choice)
            && ChoiceStands(s.contacts, TENANT, data.tenant.choice)
            && ClientStands(s, actor, data.client)
            && (actor.Agent? ==> p == |s.properties| || p in s.book)
            && DocumentFree(s.documents, doc, p)
            && Payments.DistinctSeqs(ResolveSchedule(data))
  {
    PartiesStand(s, data);
    if ResolveParties(s, data).Ok? { RestStands(s, actor, data, doc, p); }
  }

  lemma RestStands(s: State, actor: Actor, data: RowData, doc: Option<nat>, p: nat)
    requires WellFormed(s) && ItemsBelong(s) && HomeIs(s, data, p) && ResolveParties(s, data).Ok?
    ensures CommitRow(s, actor, data, doc).Ok? <==>
            && ClientStands(s, actor, data.client)
            && (actor.Agent? ==> p == |s.properties| || p in s.book)
            && DocumentFree(s.documents, doc, p)
            && Payments.DistinctSeqs(ResolveSchedule(data))
    ensures CommitRow(s, actor, data, doc).Err? ==>
              CommitRow(s, actor, data, doc).error ==
                if !ClientStands(s, actor, data.client) || (actor.Agent? && p != |s.properties| && p !in s.book)
                then NotFound
                else if DocumentFree(s.documents, doc, p) then Uncaught else Unprocessable
  {
    var (landlord, tenant) := ResolveParties(s, data).value;
    var s1 := tenant.state;
    PartyTracks(s, OWNER, data.landlord);
    PartyTracks(ResolveParty(s, OWNER, data.landlord).value.state, TENANT, data.tenant);
    assert ClientStands(s, actor, data.client) <==> MayUseClient(s1, actor, data.client);
    assert HomeIs(s1, data, p);
    HomeIsPlaced(s1, actor, data, landlord.contact);
    OneHome(s1, data, p);
    var placed := PlaceProperty(s1, actor, data, landlord.contact);
    if placed.Ok? {
      PlaceTracks(s1, actor, data, landlord.contact);
      LeaseFits(placed.value.state, data, p, landlord.contact, tenant.contact, doc);
    }
  }

  /** A chosen contact that is live is of the wrong kind, else there is none. */
  function ChoiceRefusal(contacts: seq<Contact>, choice: Choice): Refusal {
    if choice.Explicit? && choice.id < |contacts| && !contacts[choice.id].archived then Unprocessable else NotFound
  }

  /**
   Why a row is not taken, first reason first: the chosen landlord, the chosen tenant, then 404 for a client or
   property out of reach, 422 for a document held elsewhere, and the repeated number nothing translates.
   */
  lemma RowRefusedFor(s: State, actor: Actor, data: RowData, doc: Option<nat>, p: nat)
    requires WellFormed(s) && ItemsBelong(s) && HomeIs(s, data, p) && CommitRow(s, actor, data, doc).Err?
    ensures CommitRow(s, actor, data, doc).error ==
              if !ChoiceStands(s.contacts, OWNER, data.landlord.choice)
              then ChoiceRefusal(s.contacts, data.landlord.choice)
              else if !ChoiceStands(s.contacts, TENANT, data.tenant.choice)
              then ChoiceRefusal(ResolveParty(s, OWNER, data.landlord).value.state.contacts, data.tenant.choice)
              else if !ClientStands(s, actor, data.client) || (actor.Agent? && p != |s.properties| && p !in s.book)
              then NotFound
              else if !DocumentFree(s.documents, doc, p) then Unprocessable
              else Uncaught
  {
    PartiesStand(s, data);
    PartyIsResolved(s, OWNER, data.landlord);
    if ResolveParties(s, data).Ok? { RestStands(s, actor, data, doc, p); }
  }

  /** A batch that is not there is 404, a final one takes no rows and no commit, and only a committed one is undone. */
  lemma BatchRefusedFor(s: State, actor: Actor, b: nat, mapped: seq<RowData>, today: int)
    ensures b >= |s.batches| ==>
              Outcome(s, Err(NotFound)) == AddImportRows(s, b, mapped) == CommitImportBatch(s, actor, b, today)
                == RollbackImportBatch(s, b)
    ensures b < |s.batches| && s.batches[b].status in {COMMITTED, ROLLED_BACK} ==>
              Outcome(s, Err(Unprocessable)) == AddImportRows(s, b, mapped) == CommitImportBatch(s, actor, b, today)
    ensures b < |s.batches| && s.batches[b].status != COMMITTED ==>
              RollbackImportBatch(s, b) == Outcome(s, Err(Unprocessable))
    ensures b < |s.batches| && s.batches[b].status == COMMITTED && RollbackImportBatch(s, b).reply.Err? ==>
              RollbackImportBatch(s, b) == Outcome(s, Err(Uncaught))
  {}

  lemma OneHome(s: State, data: RowData, p: nat)
    requires HomeIs(s, data, p)
    ensures forall q: nat | HomeIs(s, data, q) :: q == p
  {}

  // ---------------------------------------------------------------------------------------------
  // Rows that conflict
  // ---------------------------------------------------------------------------------------------

  predicate SameNumber(a: Option<string>, b: Option<string>) {
    a.Some? && a.value != "" && a == b
  }

  /** An earlier undecided row has the number of row i. */
  predicate TakenBefore(rows: seq<Row>, i: nat)
    requires i < |rows|
  {
    exists j | 0 <= j < i ::
      rows[j].status in {PENDING, CONFLICT} && SameNumber(rows[j].data.ejariNo, rows[i].data.ejariNo)
  }

  predicate TakenOnFile(s: State, number: Option<string>) {
    exists t | 0 <= t < |s.tenancies| :: !s.tenancies[t].archived && SameNumber(s.tenancies[t].ejariNo, number)
  }

  lemma NumbersTaken(s: State, rows: seq<Row>, i: nat)
    requires i < |rows|
    ensures RepeatsEarlier(rows, i) <==> TakenBefore(rows, i)
    ensures var number := rows[i].data.ejariNo; Truthy(number) && OnRecord(s, number.value) <==> TakenOnFile(s, number)
  {
    var number := rows[i].data.ejariNo;
    if RepeatsEarlier(rows, i) {
      var j :| 0 <= j < i && Undecided(rows[j]) && Truthy(rows[j].data.ejariNo) && rows[j].data.ejariNo == number;
      assert SameNumber(rows[j].data.ejariNo, number);
    }
    if Truthy(number) && OnRecord(s, number.value) {
      var t :| 0 <= t < |s.tenancies| && s.tenancies[t].ejariNo == Some(number.value) && !s.tenancies[t].archived;
      assert SameNumber(s.tenancies[t].ejariNo, number);
    }
  }

  /** A lease on file for the unit of the row, on the first live property at its address, whose term meets the row's. */
  ghost predicate MeetsLease(s: State, data: RowData) {
    && data.address.community != "" && data.address.unitNo.Some? && data.address.unitNo.value != ""
    && exists p, t ::
         && 0 <= p < |s.properties| && LiveAt(s.properties[p], data.address)
         && (forall q | 0 <= q < p :: !LiveAt(s.properties[q], data.address))
         && 0 <= t < |s.tenancies| && s.tenancies[t].property == p && !s.tenancies[t].archived
         && s.tenancies[t].startDay <= data.endDay && data.startDay <= s.tenancies[t].endDay
  }

  lemma OverlapIsMeeting(s: State, data: RowData)
    ensures Overlaps(s, data) <==> MeetsLease(s, data)
  {
    FirstLiveAt(s.properties, data.address, 0);
  }

  /**
   An undecided row conflicts if and only if an earlier undecided one has its Ejari number, a live tenancy has
   it, or a live lease of its unit meets its term; the first of these is the reason given.
   */
  lemma ConflictOnRecords(s: State, rows: seq<Row>, i: nat)
    requires i < |rows| && rows[i].status in {PENDING, CONFLICT}
    ensures DetectRows(s, rows, {})[i].status == CONFLICT <==>
            TakenBefore(rows, i) || TakenOnFile(s, rows[i].data.ejariNo) || MeetsLease(s, rows[i].data)
    ensures DetectRows(s, rows, {})[i].status in {PENDING, CONFLICT}
    ensures DetectRows(s, rows, {})[i].reason ==
              if TakenBefore(rows, i) then Some(RepeatedInBatch)
              else if TakenOnFile(s, rows[i].data.ejariNo) then Some(OnRecordAlready)
              else if MeetsLease(s, rows[i].data) then Some(OverlappingDates) else None
  {
    ConflictMeans(s, rows, {}, i);
    OverlapIsMeeting(s, rows[i].data);
    NumbersTaken(s, rows, i);
    var out := DetectRows(s, rows, {})[i];
    if out.reason.Some? {
      match out.reason.value
      case RepeatedInBatch =>
      case OnRecordAlready =>
      case OverlappingDates =>
    }
  }

  /** Rows that were accepted or rejected keep their verdict. */
  lemma VerdictsStand(s: State, rows: seq<Row>, i: nat)
    requires i < |rows| && rows[i].status in {ACCEPTED, REJECTED}
    ensures DetectRows(s, rows, {})[i] == rows[i]
  {
    DecidedRowsStay(s, rows, {}, i);
  }

  // ---------------------------------------------------------------------------------------------
  // Contacts a rollback keeps
  // ---------------------------------------------------------------------------------------------

  predicate PartyTo(t: Tenancy, c: nat) {
    t.landlord == Some(c) || t.tenant == Some(c)
  }

  predicate NamesInAnother(r: Referrer, c: nat) {
    r.live && c in r.contacts && r.model != PropertyModel && r.model != TenancyModel
  }

  /** A live property of the contact, a live tenancy it is a party of, or a live row of another model that names it. */
  ghost predicate Named(s: State, c: nat) {
    || (exists p | 0 <= p < |s.properties| :: !s.properties[p].archived && s.properties[p].owner == Some(c))
    || (exists t | 0 <= t < |s.tenancies| :: !s.tenancies[t].archived && PartyTo(s.tenancies[t], c))
    || (exists r | 0 <= r < |s.referrers| :: NamesInAnother(s.referrers[r], c))
  }

  lemma ReferencedIsNamed(s: State, c: nat)
    ensures Referenced(s, c) <==> Named(s, c)
  {
    if model :| RowRefers(s, model, c) {
      assert Named(s, c);
    }
    if p :| 0 <= p < |s.properties| && !s.properties[p].archived && s.properties[p].owner == Some(c) {
      assert RowRefers(s, PropertyModel, c);
    }
    if t :| 0 <= t < |s.tenancies| && !s.tenancies[t].archived && PartyTo(s.tenancies[t], c) {
      assert RowRefers(s, TenancyModel, c);
    }
    if r :| 0 <= r < |s.referrers| && NamesInAnother(s.referrers[r], c) {
      assert RowRefers(s, s.referrers[r].model, c);
    }
  }

  /** The reference check answers with some model exactly for a contact that is named. */
  lemma ReferencesOnRecords(s: State, c: nat)
    ensures FindContactReferences(s, c) != {} <==> Named(s, c)
  {
    NoReferencesMeansNone(s, c);
    ReferencedIsNamed(s, c);
  }

  /**
   After a rollback a contact the batch created is archived unless a live row names it, and every other
   contact is as it was.
   */
  lemma RollbackKeepsNamedContacts(s: State, b: nat, c: nat)
    requires RollbackImportBatch(s, b).reply.Ok? && c < |s.contacts|
    ensures var s' := RollbackImportBatch(s, b).state;
            && |s'.contacts| == |s.contacts|
            && s'.contacts[c] == if ContactRef(c) in AllRefs(s.batches[b].rows) && !Named(s', c)
                                 then s.contacts[c].(archived := true) else s.contacts[c]
  {
    RollbackKeepsReferencedContacts(s, b);
    var s' := RollbackImportBatch(s, b).state;
    ReferencedIsNamed(s', c);
  }

  // ---------------------------------------------------------------------------------------------
  // Overlap flags of rows held back
  // ---------------------------------------------------------------------------------------------

  /** The first property of that community and unit, archived or not, and its first live lease. */
  predicate FlagBelongsOn(s: State, row: Row, t: nat) {
    && row.status == CONFLICT && row.reason == Some(OverlappingDates) && t < |s.tenancies|
    && !s.tenancies[t].archived && s.tenancies[t].property < |s.properties|
    && NamedAs(s.properties[s.tenancies[t].property], row.data.address)
    && (forall q | 0 <= q < s.tenancies[t].property :: !NamedAs(s.properties[q], row.data.address))
    && (forall u | 0 <= u < t :: s.tenancies[u].archived || s.tenancies[u].property != s.tenancies[t].property)
  }

  predicate NamedAs(p: Property, address: Address) {
    p.address.community == address.community && p.address.unitNo == address.unitNo
  }

  lemma {:induction false} FirstNamed(properties: seq<Property>, address: Address, from: nat)
    requires from <= |properties|
    ensures var r := PropertyNamed(properties, address, from);
            && (r.None? <==> forall q | from <= q < |properties| :: !NamedAs(properties[q], address))
            && (r.Some? ==>
                  && NamedAs(properties[r.value], address)
                  && forall q | from <= q < r.value :: !NamedAs(properties[q], address))
    decreases |properties| - from
  {
    if from == |properties| {
    } else {
      FirstNamed(properties, address, from + 1);
    }
  }

  lemma {:induction false} FirstLease(tenancies: seq<Tenancy>, property: nat, from: nat)
    requires from <= |tenancies|
    ensures var r := LeaseOn(tenancies, property, from);
            r.Some? ==> forall u | from <= u < r.value :: tenancies[u].property != property || tenancies[u].archived
    decreases |tenancies| - from
  {
    if from == |tenancies| {
    } else {
      FirstLease(tenancies, property, from + 1);
    }
  }

  lemma OverlappedOnRecords(s: State, row: Row, t: nat)
    ensures OverlappedLease(s, row) == Some(t) <==> FlagBelongsOn(s, row, t)
  {
    FirstNamed(s.properties, row.data.address, 0);
    var p := PropertyNamed(s.properties, row.data.address, 0);
    if p.Some? { FirstLease(s.tenancies, p.value, 0); }
  }

  /** After the pass the overlap flag is up where it was and on the lease each held-back overlap belongs on, only. */
  lemma {:induction false} OverlapFlagsOnRecords(s: State, rows: seq<Row>, t: nat)
    ensures Risk.HasActive(FlagOverlaps(s, rows).risk, Risk.Scope(Risk.TENANCY, t), Risk.TENANCY_OVERLAP) <==>
            || Risk.HasActive(s.risk, Risk.Scope(Risk.TENANCY, t), Risk.TENANCY_OVERLAP)
            || exists i | 0 <= i < |rows| :: FlagBelongsOn(s, rows[i], t)
    decreases |rows|
  {
    if rows == [] {
    } else {
      var lease := OverlappedLease(s, rows[0]);
      var s1 := if lease.None? then s
                else s.(risk := Risk.Raise(s.risk, Risk.Scope(Risk.TENANCY, lease.value), Risk.TENANCY_OVERLAP));
      if lease.Some? {
        Risk.RaiseEffect(s.risk, Risk.Scope(Risk.TENANCY, lease.value), Risk.TENANCY_OVERLAP,
                         Risk.Scope(Risk.TENANCY, t), Risk.TENANCY_OVERLAP);
      }
      OverlappedOnRecords(s, rows[0], t);
      OverlapFlagsOnRecords(s1, rows[1..], t);
      assert (exists i | 0 <= i < |rows| :: FlagBelongsOn(s, rows[i], t)) <==>
             FlagBelongsOn(s, rows[0], t) || exists i | 0 <= i < |rows[1..]| :: FlagBelongsOn(s1, rows[1..][i], t) by {
        if i :| 0 <= i < |rows| && FlagBelongsOn(s, rows[i], t) {
          if i > 0 { assert FlagBelongsOn(s1, rows[1..][i - 1], t); }
        }
        if i :| 0 <= i < |rows[1..]| && FlagBelongsOn(s1, rows[1..][i], t) { assert FlagBelongsOn(s, rows[i + 1], t); }
      }
    }
  }
}
