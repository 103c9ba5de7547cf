/**
 Committing and rolling back in place: the tables are fields, rows and references are handled in
 loops, and a refused transaction puts every table back.
 */
module ImportDesk {
  import opened Common
  import opened Cheques
  import opened Imports
  import opened ImportConflicts
  import Payments
  import PaymentDesk
  import Deadlines
  import Risk

  function Prepend(refs: seq<Ref>, r: Result<Progress, Refusal>): Result<Progress, Refusal> {
    if r.Err? then r else Ok(Progress(r.value.state, refs + r.value.refs))
  }

  lemma PrependNothing(r: Result<Progress, Refusal>)
    ensures Prepend([], r) == r
  {
    if r.Ok? { assert [] + r.value.refs == r.value.refs; }
  }

  lemma PrependMore(refs: seq<Ref>, ref: Ref, r: Result<Progress, Refusal>)
    ensures Prepend(refs, Prepend([ref], r)) == Prepend(refs + [ref], r)
  {
    if r.Ok? { assert refs + ([ref] + r.value.refs) == refs + [ref] + r.value.refs; }
  }

  /** Every model of the schema with a field that names a contact, as the check walks through them. */
  const REFERRERS: seq<Model> :=
    [MembershipModel, WorkspaceInviteModel, PropertyModel, TenancyModel, ProofRequestModel, TaskModel, ApprovalModel,
     NotificationMessageModel, MaintenanceCaseModel, QuoteModel, InvoiceModel, OfferModel]

  lemma EveryModelIsChecked(model: Model)
    ensures model in REFERRERS
  {
    match model
    case MembershipModel => assert REFERRERS[0] == model;
    case WorkspaceInviteModel => assert REFERRERS[1] == model;
    case PropertyModel => assert REFERRERS[2] == model;
    case TenancyModel => assert REFERRERS[3] == model;
    case ProofRequestModel => assert REFERRERS[4] == model;
    case TaskModel => assert REFERRERS[5] == model;
    case ApprovalModel => assert REFERRERS[6] == model;
    case NotificationMessageModel => assert REFERRERS[7] == model;
    case MaintenanceCaseModel => assert REFERRERS[8] == model;
    case QuoteModel => assert REFERRERS[9] == model;
    case InvoiceModel => assert REFERRERS[10] == model;
    case OfferModel => assert REFERRERS[11] == model;
  }

  lemma DeriveNext(s: State, t: nat, today: int)
    requires t < |s.tenancies|
    ensures var r := Rearmed(s, t, today);
            && (r.Err? ==> Derive(s, t, today) == Outcome(s, Err(r.error)))
            && (r.Ok? ==> Derive(s, t, today) == Derive(r.value, t + 1, today))
  {}

  function ContactRefs(refs: seq<Ref>): seq<Ref> {
    if refs == [] then [] else (if refs[0].ContactRef? then [refs[0]] else []) + ContactRefs(refs[1..])
  }

  lemma {:induction false} ContactRefsAppend(a: seq<Ref>, b: seq<Ref>)
    ensures ContactRefs(a + b) == ContactRefs(a) + ContactRefs(b)
    decreases |a|
  {
    if a == [] {
      assert a + b == b;
    } else {
      ContactRefsAppend(a[1..], b);
      assert (a + b)[0] == a[0] && (a + b)[1..] == a[1..] + b;
    }
  }

  lemma RefsTail(s: State, refs: seq<Ref>)
    requires refs != []
    ensures RefsExist(s, refs) <==> RefExists(s, refs[0]) && RefsExist(s, refs[1..])
  {
    assert forall i | 0 <= i < |refs[1..]| :: refs[1..][i] == refs[i + 1];
    assert refs == [refs[0]] + refs[1..];
  }

  lemma UndoKeepsLengths(s: State, ref: Ref, refs: seq<Ref>)
    requires RefExists(s, ref)
    ensures RefsExist(UndoRef(s, ref), refs) <==> RefsExist(s, refs)
  {}

  /** Undoing `rest` from `s` finishes undoing `all` from `s0`; `created` holds the contacts passed so far. */
  ghost predicate Undoing(s0: State, all: seq<Ref>, s: State, rest: seq<Ref>, created: seq<Ref>) {
    && (RefsExist(s0, all) <==> RefsExist(s, rest))
    && (RefsExist(s0, all) ==> UndoRefs(s0, all) == UndoRefs(s, rest))
    && ContactRefs(all) == created + ContactRefs(rest)
  }

  lemma UndoingNext(s0: State, all: seq<Ref>, s: State, rest: seq<Ref>, created: seq<Ref>)
    requires Undoing(s0, all, s, rest, created) && rest != [] && RefExists(s, rest[0])
    ensures Undoing(s0, all, UndoRef(s, rest[0]), rest[1..], if rest[0].ContactRef? then created + [rest[0]]
      else created)
  {
    RefsTail(s, rest);
    UndoKeepsLengths(s, rest[0], rest[1..]);
  }

  /** Only the contacts among the references matter to the second pass. */
  lemma {:induction false} ReleaseNeedsContactsOnly(s: State, refs: seq<Ref>)
    requires RefsExist(s, refs)
    ensures RefsExist(s, ContactRefs(refs)) && ReleaseContacts(s, ContactRefs(refs)) == ReleaseContacts(s, refs)
    decreases |refs|
  {
    if refs == [] {
    } else {
      RefsTail(s, refs);
      var s1 := ReleaseContact(s, refs[0]);
      assert RefsExist(s1, refs[1..]);
      ReleaseNeedsContactsOnly(s1, refs[1..]);
      ReleaseNeedsContactsOnly(s, refs[1..]);
      if refs[0].ContactRef? {
        var cs := ContactRefs(refs);
        assert cs[0] == refs[0] && cs[1..] == ContactRefs(refs[1..]);
        RefsTail(s, cs);
      } else {
        assert ContactRefs(refs) == ContactRefs(refs[1..]);
      }
    }
  }

  class Desk {
    var contacts: seq<Contact>
    var properties: seq<Property>
    var tenancies: seq<Tenancy>
    var items: seq<Option<Payments.PaymentItem>>
    var documents: seq<Scope>
    var deadlines: seq<Deadlines.Deadline>
    var referrers: seq<Referrer>
    var clients: set<nat>
    var book: set<nat>
    var batches: seq<Batch>
    const risk: Risk.RiskDesk

    function Tables(): State
      reads this, risk
    {
      State(contacts, properties, tenancies, items, documents, deadlines, referrers, clients, book, batches,
        risk.State())
    }

    constructor (clients: set<nat>, book: set<nat>, risk: Risk.RiskDesk)
      ensures Tables() == State([], [], [], [], [], [], [], clients, book, [], risk.State()) && this.risk == risk
    {
      contacts, properties, tenancies, items := [], [], [], [];
      documents, deadlines, referrers, batches := [], [], [], [];
      this.clients, this.book, this.risk := clients, book, risk;
    }

    /** Put every table back: what aborting the transaction does. */
    method Restore(s: State)
      requires s.risk == risk.State()
      modifies this
      ensures Tables() == s
    {
      contacts, properties, tenancies, items := s.contacts, s.properties, s.tenancies, s.items;
      documents, deadlines, referrers := s.documents, s.deadlines, s.referrers;
      clients, book, batches := s.clients, s.book, s.batches;
    }

    // Parties

    method FindMatches(kind: ContactKind, key: Key) returns (found: seq<nat>)
      ensures found == LiveMatches(contacts, kind, key)
    {
      found := [];
      var i := 0;
      while i < |contacts|
        invariant 0 <= i <= |contacts|
        invariant found == LiveMatches(contacts[..i], kind, key)
      {
        assert contacts[..i + 1][..i] == contacts[..i];
        if Matches(contacts[i], kind, key) { found := found + [i]; }
        i := i + 1;
      }
      assert contacts[..i] == contacts;
    }

    method ResolveImportParty(kind: ContactKind, party: Party)
      returns (r: Result<Option<nat>, Refusal>, created: seq<Ref>)
      modifies this`contacts
      ensures r.Err? ==> Tables() == old(Tables()) && ResolveParty(old(Tables()), kind, party) == Err(r.error)
      ensures r.Ok? ==> ResolveParty(old(Tables()), kind, party) == Ok(Resolved(Tables(), r.value, created))
    {
      created := [];
      if party.choice.Explicit? {
        var id := party.choice.id;
        if id >= |contacts| || contacts[id].archived { return Err(NotFound), []; }
        if contacts[id].kind != kind { return Err(Unprocessable), []; }
        return Ok(Some(id)), [];
      }
      if Truthy(party.emiratesId) && !party.choice.CreateNew? {
        var byId := FindMatches(kind, ByEmiratesId(party.emiratesId.value));
        if |byId| == 1 { return Ok(Some(byId[0])), []; }
      }
      if Truthy(party.name) && !party.choice.CreateNew? {
        var byName := FindMatches(kind, ByName(party.name.value));
        if |byName| == 1 { return Ok(Some(byName[0])), []; }
      }
      if !Truthy(party.name) { return Ok(None), []; }
      r, created := Ok(Some(|contacts|)), [ContactRef(|contacts|)];
      contacts := contacts +
        [Contact(kind, party.name.value, if Truthy(party.emiratesId) then party.emiratesId else None, false)];
    }

    // Property, document, items

    method FindPropertyAt(address: Address) returns (found: Option<nat>)
      ensures found == PropertyAt(properties, address, 0)
    {
      var i := 0;
      while i < |properties|
        invariant 0 <= i <= |properties|
        invariant PropertyAt(properties, address, 0) == PropertyAt(properties, address, i)
      {
        if !properties[i].archived && properties[i].address == address { return Some(i); }
        i := i + 1;
      }
      found := None;
    }

    method PlaceImportProperty(actor: Actor, data: RowData, owner: Option<nat>)
      returns (r: Result<nat, Refusal>, created: seq<Ref>)
      modifies this`properties, this`book
      ensures r.Err? ==> PlaceProperty(old(Tables()), actor, data, owner) == Err(r.error)
      ensures r.Ok? ==> PlaceProperty(old(Tables()), actor, data, owner) == Ok(Placed(Tables(), r.value, created))
    {
      var found := None;
      if data.property.Some? && data.property.value < |properties| && !properties[data.property.value].archived {
        found := data.property;
      }
      if found.None? { found := FindPropertyAt(data.address); }
      if found.Some? {
        if actor.Agent? && found.value !in book { return Err(NotFound), []; }
        return Ok(found.value), [];
      }
      var id := |properties|;
      properties := properties + [Property(data.address, data.client, owner, false)];
      if actor.Agent? { book := book + {id}; }
      r, created := Ok(id), [PropertyRef(id)];
    }

    method AttachContract(doc: Option<nat>, t: nat, p: nat) returns (r: Result<seq<Ref>, Refusal>)
      modifies this`documents
      ensures r.Err? ==> AttachDocument(old(Tables()), doc, t, p) == Err(r.error)
      ensures r.Ok? ==> AttachDocument(old(Tables()), doc, t, p) == Ok(Progress(Tables(), r.value))
    {
      if doc.None? || doc.value >= |documents| { return Ok([]); }
      var prior := documents[doc.value];
      if (prior.kind == AT_TENANCY && prior.id != Some(t)) || (prior.kind == AT_PROPERTY && prior.id != Some(p)) {
        return Err(Unprocessable);
      }
      documents := documents[doc.value := Scope(AT_TENANCY, Some(t))];
      r := Ok([DocumentScopeRef(doc.value, prior)]);
    }

    method SeqIsTaken(t: nat, seqNo: int) returns (taken: bool)
      ensures taken == Payments.HeldSeq(items, t, seqNo)
    {
      var i := 0;
      while i < |items|
        invariant 0 <= i <= |items|
        invariant forall j | 0 <= j < i :: !(Payments.OfTenancy(items[j], t) && items[j].value.seqNo == seqNo)
      {
        if items[i].Some? && items[i].value.tenancy == t && items[i].value.seqNo == seqNo { return true; }
        i := i + 1;
      }
      taken := false;
    }

    method AddScheduleItems(t: nat, xs: seq<PaymentItemInput>) returns (r: Result<seq<Ref>, Refusal>)
      modifies this`items
      ensures r.Err? ==> AddItems(old(Tables()), t, xs) == Err(r.error)
      ensures r.Ok? ==> AddItems(old(Tables()), t, xs) == Ok(Progress(Tables(), r.value))
    {
      var refs: seq<Ref> := [];
      var k := 0;
      assert xs[0..] == xs;
      PrependNothing(AddItems(Tables(), t, xs));
      while k < |xs|
        invariant 0 <= k <= |xs|
        invariant AddItems(old(Tables()), t, xs) == Prepend(refs, AddItems(Tables(), t, xs[k..]))
      {
        assert xs[k..][0] == xs[k] && xs[k..][1..] == xs[k + 1..];
        var taken := SeqIsTaken(t, xs[k].seqNo);
        if taken { return Err(Uncaught); }
        ghost var rest := AddItems(Tables(), t, xs[k..]);
        var id := |items|;
        items := items + [Payments.NewItem(t, xs[k])];
        assert rest == Prepend([ItemRef(id)], AddItems(Tables(), t, xs[k + 1..]));
        PrependMore(refs, ItemRef(id), AddItems(Tables(), t, xs[k + 1..]));
        refs := refs + [ItemRef(id)];
        k := k + 1;
      }
      assert refs + [] == refs;
      r := Ok(refs);
    }

    method AddImportLease(data: RowData, property: nat, landlord: Option<nat>, tenant: Option<nat>, doc: Option<nat>)
      returns (r: Result<seq<Ref>, Refusal>)
      modifies this`tenancies, this`documents, this`items
      ensures r.Err? ==> AddLease(old(Tables()), data, property, landlord, tenant, doc) == Err(r.error)
      ensures r.Ok? ==>
                AddLease(old(Tables()), data, property, landlord, tenant, doc) == Ok(Progress(Tables(), r.value))
    {
      var t := |tenancies|;
      tenancies := tenancies + [NewTenancy(data, property, landlord, tenant, doc)];
      var attached := AttachContract(doc, t, property);
      if attached.Err? { return Err(attached.error); }
      var added := AddScheduleItems(t, ResolveSchedule(data));
      if added.Err? { return Err(added.error); }
      r := Ok([TenancyRef(t)] + attached.value + added.value);
    }

    method CommitImportRow(actor: Actor, data: RowData, doc: Option<nat>) returns (r: Result<seq<Ref>, Refusal>)
      modifies this`contacts, this`properties, this`book, this`tenancies, this`documents, this`items
      ensures r.Err? ==> CommitRow(old(Tables()), actor, data, doc) == Err(r.error)
      ensures r.Ok? ==> CommitRow(old(Tables()), actor, data, doc) == Ok(Progress(Tables(), r.value))
    {
      var landlord, landlordRefs := ResolveImportParty(OWNER, data.landlord);
      if landlord.Err? { return Err(landlord.error); }
      var tenant, tenantRefs := ResolveImportParty(TENANT, data.tenant);
      if tenant.Err? { return Err(tenant.error); }
      if !MayUseClient(Tables(), actor, data.client) { return Err(NotFound); }
      var property, propertyRefs := PlaceImportProperty(actor, data, landlord.value);
      if property.Err? { return Err(property.error); }
      var lease := AddImportLease(data, property.value, landlord.value, tenant.value, doc);
      if lease.Err? { return Err(lease.error); }
      r := Ok(landlordRefs + tenantRefs + propertyRefs + lease.value);
    }

    // Commit

    method RearmTenancy(t: nat, today: int) returns (r: Result<(), Refusal>)
      requires t < |tenancies|
      modifies this`deadlines, this`tenancies, risk
      ensures r.Err? ==> Tables() == old(Tables()) && Rearmed(old(Tables()), t, today) == Err(r.error)
      ensures r.Ok? ==> Rearmed(old(Tables()), t, today) == Ok(Tables())
    {
      var done := Deadlines.Regenerate(deadlines, DatesOf(Tables(), t), PaymentDesk.ItemsOf(items, t));
      if done.Err? { return Err(Uncaught); }
      deadlines := done.value.0;
      tenancies := tenancies[t := tenancies[t].(noticeGateDay := done.value.1.noticeGateDay)];
      risk.EvaluateRiskForTenancy(FactsOf(Tables(), t), today);
      r := Ok(());
    }

    method DeriveForNew(from: nat, today: int) returns (r: Result<(), Refusal>)
      requires from <= |tenancies|
      modifies this`deadlines, this`tenancies, risk
      ensures Outcome(Tables(), r) == Derive(old(Tables()), from, today)
    {
      var t := from;
      while t < |tenancies|
        invariant from <= t <= |tenancies|
        invariant Derive(old(Tables()), from, today) == Derive(Tables(), t, today)
      {
        DeriveNext(Tables(), t, today);
        var done := RearmTenancy(t, today);
        if done.Err? { return done; }
        t := t + 1;
      }
      r := Ok(());
    }

    method FindPropertyNamed(address: Address) returns (found: Option<nat>)
      ensures found == PropertyNamed(properties, address, 0)
    {
      var i := 0;
      while i < |properties|
        invariant 0 <= i <= |properties|
        invariant PropertyNamed(properties, address, 0) == PropertyNamed(properties, address, i)
      {
        var here := properties[i].address;
        if here.community == address.community && here.unitNo == address.unitNo { return Some(i); }
        i := i + 1;
      }
      found := None;
    }

    method FindLeaseOn(property: nat) returns (found: Option<nat>)
      ensures found == LeaseOn(tenancies, property, 0)
    {
      var i := 0;
      while i < |tenancies|
        invariant 0 <= i <= |tenancies|
        invariant LeaseOn(tenancies, property, 0) == LeaseOn(tenancies, property, i)
      {
        if tenancies[i].property == property && !tenancies[i].archived { return Some(i); }
        i := i + 1;
      }
      found := None;
    }

    method RaiseOverlap(row: Row)
      modifies risk
      ensures Tables() == (var lease := OverlappedLease(old(Tables()), row);
                           if lease.None? then old(Tables())
                           else old(Tables()).(risk := Risk.Raise(old(risk.State()),
                             Risk.Scope(Risk.TENANCY, lease.value),
                                                                  Risk.TENANCY_OVERLAP)))
    {
      if row.status != CONFLICT || row.reason != Some(OverlappingDates) { return; }
      var property := FindPropertyNamed(row.data.address);
      if property.None? { return; }
      var lease := FindLeaseOn(property.value);
      if lease.Some? { risk.RaiseFlag(Risk.Scope(Risk.TENANCY, lease.value), Risk.TENANCY_OVERLAP); }
    }

    method RaiseOverlaps(rows: seq<Row>)
      modifies risk
      ensures Tables() == FlagOverlaps(old(Tables()), rows)
    {
      var i := 0;
      assert rows[0..] == rows;
      while i < |rows|
        invariant 0 <= i <= |rows|
        invariant FlagOverlaps(old(Tables()), rows) == FlagOverlaps(Tables(), rows[i..])
      {
        assert rows[i..][0] == rows[i] && rows[i..][1..] == rows[i + 1..];
        RaiseOverlap(rows[i]);
        i := i + 1;
      }
    }

    /** The transaction over the rows of the batch. */
    method CommitInTransaction(actor: Actor, b: nat) returns (r: Result<(), Refusal>)
      modifies this
      ensures r.Err? ==> Tables() == old(Tables()) && CommitTx(old(Tables()), actor, b) == Err(r.error)
      ensures r.Ok? ==> CommitTx(old(Tables()), actor, b) == Ok(Tables())
    {
      if b >= |batches| { return Err(NotFound); }
      if batches[b].status == COMMITTED || batches[b].status == ROLLED_BACK { return Err(Unprocessable); }
      var before := Tables();
      var i := 0;
      while i < |batches[b].rows|
        invariant b < |batches| && i <= |batches[b].rows|
        invariant risk.State() == before.risk
        invariant CommitRows(before, actor, b, 0) == CommitRows(Tables(), actor, b, i)
      {
        var row := batches[b].rows[i];
        if row.status == PENDING || row.status == ACCEPTED {
          var done := CommitImportRow(actor, row.data, ContractDocOf(batches[b]));
          if done.Err? {
            Restore(before);
            return Err(done.error);
          }
          batches := batches[b := batches[b].(rows := batches[b].rows[i := row.(status := ACCEPTED,
            refs := done.value)])];
        }
        i := i + 1;
      }
      batches := batches[b := batches[b].(status := COMMITTED)];
      r := Ok(());
    }

    method FinishCommit(rows: seq<Row>, from: nat, today: int) returns (r: Result<(), Refusal>)
      requires from <= |tenancies|
      modifies this`deadlines, this`tenancies, risk
      ensures Outcome(Tables(), r) == AfterCommit(old(Tables()), rows, from, today)
    {
      r := DeriveForNew(from, today);
      if r.Err? { return; }
      RaiseOverlaps(rows);
      r := Ok(());
    }

    method CommitImportBatch(actor: Actor, b: nat, today: int) returns (r: Result<(), Refusal>)
      modifies this, risk
      ensures Outcome(Tables(), r) == Imports.CommitImportBatch(old(Tables()), actor, b, today)
    {
      var before := Tables();
      r := CommitInTransaction(actor, b);
      if r.Err? { return; }
      r := FinishCommit(before.batches[b].rows, |before.tenancies|, today);
    }

    // Batches and conflicts

    method CreateImportBatch(source: Source, fileDoc: Option<nat>) returns (b: nat)
      modifies this`batches
      ensures b == |old(batches)|
      ensures Tables() == old(Tables()).(batches := old(batches) + [Batch(source, fileDoc, UPLOADED, [])])
    {
      b := |batches|;
      batches := batches + [Batch(source, fileDoc, UPLOADED, [])];
    }

    method AddImportRows(b: nat, mapped: seq<RowData>) returns (r: Result<(), Refusal>)
      modifies this`batches
      ensures Outcome(Tables(), r) == ImportConflicts.AddImportRows(old(Tables()), b, mapped)
    {
      if b >= |batches| { return Err(NotFound); }
      if batches[b].status == COMMITTED || batches[b].status == ROLLED_BACK { return Err(Unprocessable); }
      var was := batches[b].rows;
      var rows := was;
      var i := 0;
      while i < |mapped|
        invariant 0 <= i <= |mapped|
        invariant rows == was + NewRows(mapped)[..i]
      {
        rows := rows + [Row(mapped[i], PENDING, None, [])];
        i := i + 1;
      }
      batches := batches[b := batches[b].(rows := rows, status := MAPPED)];
      assert NewRows(mapped)[..|mapped|] == NewRows(mapped);
      r := DetectConflicts(b);
    }

    method DetectConflicts(b: nat) returns (r: Result<(), Refusal>)
      modifies this`batches
      ensures b >= |old(batches)| ==> r == Err(NotFound) && Tables() == old(Tables())
      ensures b < |old(batches)| ==> r == Ok(()) && Tables() == ImportConflicts.DetectConflicts(old(Tables()), b)
    {
      if b >= |batches| { return Err(NotFound); }
      var was := batches[b].rows;
      ghost var s := Tables();
      var done: seq<Row> := [];
      var seen: set<string> := {};
      var i := 0;
      assert was[0..] == was;
      while i < |was|
        invariant 0 <= i <= |was|
        invariant DetectRows(s, was, {}) == done + DetectRows(s, was[i..], seen)
      {
        assert was[i..][0] == was[i] && was[i..][1..] == was[i + 1..];
        var row := was[i];
        var reason := Judge(Tables(), seen, row.data);
        ghost var judged := Judged(s, seen, row);
        assert done + ([judged] + DetectRows(s, was[i + 1..], Seen(seen, row))) == done + [judged] + DetectRows(s,
          was[i + 1..], Seen(seen, row));
        if row.status == PENDING || row.status == CONFLICT {
          if Truthy(row.data.ejariNo) { seen := seen + {row.data.ejariNo.value}; }
          row := row.(status := if reason.Some? then CONFLICT else PENDING, reason := reason);
        }
        done := done + [row];
        i := i + 1;
      }
      assert done + [] == done;
      batches := batches[b := batches[b].(rows := done)];
      r := Ok(());
    }

    // Rollback

    method CountReferences(model: Model, c: nat) returns (found: bool)
      ensures found == RowRefers(Tables(), model, c)
    {
      match model {
        case PropertyModel =>
          var p := 0;
          while p < |properties|
            invariant 0 <= p <= |properties|
            invariant forall q | 0 <= q < p :: !(properties[q].owner == Some(c) && !properties[q].archived)
          {
            if properties[p].owner == Some(c) && !properties[p].archived { return true; }
            p := p + 1;
          }
        case TenancyModel =>
          var t := 0;
          while t < |tenancies|
            invariant 0 <= t <= |tenancies|
            invariant forall u | 0 <= u < t ::
                        !((tenancies[u].landlord == Some(c) || tenancies[u].tenant == Some(c))
                          && !tenancies[u].archived)
          {
            if (tenancies[t].landlord == Some(c) || tenancies[t].tenant == Some(c)) && !tenancies[t].archived {
              return true;
            }
            t := t + 1;
          }
        case _ =>
          var k := 0;
          while k < |referrers|
            invariant 0 <= k <= |referrers|
            invariant forall j | 0 <= j < k ::
                        !(referrers[j].model == model && c in referrers[j].contacts && referrers[j].live)
          {
            if referrers[k].model == model && c in referrers[k].contacts && referrers[k].live { return true; }
            k := k + 1;
          }
      }
      found := false;
    }

    method FindAmong(models: seq<Model>, c: nat) returns (found: set<Model>)
      ensures forall model :: model in found <==> model in models && RowRefers(Tables(), model, c)
    {
      found := {};
      var k := 0;
      while k < |models|
        invariant 0 <= k <= |models|
        invariant forall model :: model in found <==> model in models[..k] && RowRefers(Tables(), model, c)
      {
        assert models[..k + 1] == models[..k] + [models[k]];
        var refers := CountReferences(models[k], c);
        if refers { found := found + {models[k]}; }
        k := k + 1;
      }
      assert models[..k] == models;
    }

    method FindContactReferences(c: nat) returns (found: set<Model>)
      ensures found == Imports.FindContactReferences(Tables(), c)
    {
      found := FindAmong(REFERRERS, c);
      forall model ensures model in found <==> RowRefers(Tables(), model, c) { EveryModelIsChecked(model); }
    }

    /** Undo one row's records; contacts are only collected. Stops at a record that is gone. */
    method UndoRecords(refs: seq<Ref>) returns (ok: bool, created: seq<Ref>)
      modifies this`properties, this`tenancies, this`deadlines, this`items, this`documents
      ensures ok == old(RefsExist(Tables(), refs))
      ensures ok ==> Tables() == UndoRefs(old(Tables()), refs) && created == ContactRefs(refs)
    {
      created := [];
      var k := 0;
      assert refs[0..] == refs;
      while k < |refs|
        invariant 0 <= k <= |refs|
        invariant Undoing(old(Tables()), refs, Tables(), refs[k..], created)
      {
        var ref := refs[k];
        assert refs[k..][0] == ref && refs[k..][1..] == refs[k + 1..];
        RefsTail(Tables(), refs[k..]);
        if !RefExists(Tables(), ref) { return false, []; }
        UndoingNext(old(Tables()), refs, Tables(), refs[k..], created);
        UndoOne(ref);
        if ref.ContactRef? { created := created + [ref]; }
        k := k + 1;
      }
      assert refs[k..] == [];
      ok := true;
    }

    method UndoOne(ref: Ref)
      requires RefExists(Tables(), ref)
      modifies this`properties, this`tenancies, this`deadlines, this`items, this`documents
      ensures Tables() == UndoRef(old(Tables()), ref)
    {
      match ref {
        case PropertyRef(id) => properties := properties[id := properties[id].(archived := true)];
        case TenancyRef(id) =>
          tenancies := tenancies[id := tenancies[id].(archived := true)];
          CancelOpenDeadlines(id);
        case ItemRef(id) => items := items[id := Cancelled(items[id])];
        case DocumentScopeRef(id, prior) => if id < |documents| { documents := documents[id := prior]; }
        case ContactRef(_) =>
      }
    }

    method CancelOpenDeadlines(t: nat)
      modifies this`deadlines
      ensures deadlines == Deadlines.CancelAllOpen(old(deadlines), t)
    {
      var was := deadlines;
      var i := 0;
      while i < |deadlines|
        invariant 0 <= i <= |deadlines| == |was|
        invariant forall j | 0 <= j < |was| :: deadlines[j] == if j < i then Deadlines.CancelOpen(was[j], t) else was[j]
      {
        if deadlines[i].tenancy == Some(t) && deadlines[i].status == Deadlines.Open {
          deadlines := deadlines[i := deadlines[i].(status := Deadlines.Cancelled)];
        }
        i := i + 1;
      }
    }

    /** Second pass: archive the collected contacts that nothing live names. */
    method ReleaseCreatedContacts(refs: seq<Ref>)
      requires RefsExist(Tables(), refs) && forall i | 0 <= i < |refs| :: refs[i].ContactRef?
      modifies this`contacts
      ensures Tables() == ReleaseContacts(old(Tables()), refs)
    {
      var k := 0;
      assert refs[0..] == refs;
      while k < |refs|
        invariant 0 <= k <= |refs| && RefsExist(Tables(), refs[k..])
        invariant ReleaseContacts(old(Tables()), refs) == ReleaseContacts(Tables(), refs[k..])
      {
        assert refs[k..][0] == refs[k] && refs[k..][1..] == refs[k + 1..];
        RefsTail(Tables(), refs[k..]);
        var referencedBy := FindContactReferences(refs[k].id);
        if referencedBy == {} { contacts := contacts[refs[k].id := contacts[refs[k].id].(archived := true)]; }
        k := k + 1;
      }
    }

    /** First pass over all rows. */
    method UndoRows(rows: seq<Row>) returns (ok: bool, created: seq<Ref>)
      modifies this`properties, this`tenancies, this`deadlines, this`items, this`documents
      ensures ok == old(RefsExist(Tables(), AllRefs(rows)))
      ensures ok ==> Tables() == UndoRefs(old(Tables()), AllRefs(rows)) && created == ContactRefs(AllRefs(rows))
    {
      ghost var all := AllRefs(rows);
      created := [];
      var i := 0;
      assert rows[0..] == rows;
      while i < |rows|
        invariant 0 <= i <= |rows|
        invariant Undoing(old(Tables()), all, Tables(), AllRefs(rows[i..]), created)
      {
        assert rows[i..][0] == rows[i] && rows[i..][1..] == rows[i + 1..];
        UndoingRow(old(Tables()), all, Tables(), rows[i].refs, AllRefs(rows[i + 1..]), created);
        var undone, contactsOfRow := UndoRecords(rows[i].refs);
        if !undone { return false, []; }
        created := created + contactsOfRow;
        i := i + 1;
      }
      ok := true;
    }

    method RollbackImportBatch(b: nat) returns (r: Result<(), Refusal>)
      modifies this
      ensures Outcome(Tables(), r) == Imports.RollbackImportBatch(old(Tables()), b)
    {
      if b >= |batches| { return Err(NotFound); }
      if batches[b].status != COMMITTED { return Err(Unprocessable); }
      var before := Tables();
      ghost var refs := AllRefs(batches[b].rows);
      var ok, created := UndoRows(batches[b].rows);
      if !ok {
        Restore(before);
        return Err(Uncaught);
      }
      UndoKeepsRefs(before, refs, refs);
      ReleaseNeedsContactsOnly(Tables(), refs);
      OnlyContactRefs(refs);
      ReleaseCreatedContacts(created);
      batches := batches[b := batches[b].(status := ROLLED_BACK)];
      r := Ok(());
    }
  }

  lemma UndoingRow(s0: State, all: seq<Ref>, s: State, a: seq<Ref>, b: seq<Ref>, created: seq<Ref>)
    requires Undoing(s0, all, s, a + b, created)
    ensures RefsExist(s0, all) ==> RefsExist(s, a)
    ensures RefsExist(s, a) ==> Undoing(s0, all, UndoRefs(s, a), b, created + ContactRefs(a))
  {
    UndoSplit(s, a, b);
    ContactRefsAppend(a, b);
  }

  lemma {:induction false} OnlyContactRefs(refs: seq<Ref>)
    ensures forall i | 0 <= i < |ContactRefs(refs)| :: ContactRefs(refs)[i].ContactRef?
    decreases |refs|
  {
    if refs == [] {
    } else {
      OnlyContactRefs(refs[1..]);
    }
  }

  /** Undoing two lists in turn is undoing them as one. */
  lemma {:induction false} UndoSplit(s: State, a: seq<Ref>, b: seq<Ref>)
    ensures RefsExist(s, a + b) <==> RefsExist(s, a) && RefsExist(s, b)
    ensures RefsExist(s, a) ==> (RefsExist(UndoRefs(s, a), b) <==> RefsExist(s, b))
    ensures RefsExist(s, a + b) ==> UndoRefs(s, a + b) == UndoRefs(UndoRefs(s, a), b)
    decreases |a|
  {
    if a == [] {
      assert a + b == b;
    } else {
      assert (a + b)[0] == a[0] && (a + b)[1..] == a[1..] + b;
      RefsTail(s, a + b);
      RefsTail(s, a);
      if RefExists(s, a[0]) {
        UndoKeepsLengths(s, a[0], a[1..]);
        UndoKeepsLengths(s, a[0], b);
        UndoKeepsLengths(s, a[0], a[1..] + b);
        UndoSplit(UndoRef(s, a[0]), a[1..], b);
      }
    }
  }
}
