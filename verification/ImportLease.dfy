/** What a committed row becomes. */
module ImportLease {
  import opened Common
  import opened Cheques
  import opened Imports
  import Payments

  predicate PartyOf(s: State, c: Option<nat>, kind: ContactKind) {
    c.Some? ==> c.value < |s.contacts| && s.contacts[c.value].kind == kind && !s.contacts[c.value].archived
  }

  /**
   What a party resolves to: the contact chosen; else the only live contact of the kind with its Emirates
   ID; else the only one with its name; else, given a name, a new contact; else nobody.
   */
  ghost predicate PartyIs(was: seq<Contact>, kind: ContactKind, party: Party, now: seq<Contact>, c: Option<nat>) {
    if party.choice.Explicit? then
      c == Some(party.choice.id) && now == was
      && c.value < |was| && !was[c.value].archived && was[c.value].kind == kind
    else if party.choice.NoChoice? && exists i: nat :: OnlyBearer(was, kind, party.emiratesId, false, i) then
      now == was && c.Some? && OnlyBearer(was, kind, party.emiratesId, false, c.value)
    else if party.choice.NoChoice? && exists i: nat :: OnlyBearer(was, kind, party.name, true, i) then
      now == was && c.Some? && OnlyBearer(was, kind, party.name, true, c.value)
    else if party.name.None? || party.name.value == "" then c.None? && now == was
    else
      && c == Some(|was|)
      && now == was + [Contact(kind, party.name.value,
                               if party.emiratesId == Some("") then None else party.emiratesId, false)]
  }

  /** The choice of a contact is refused when it is not live or of another kind; nothing else is. */
  predicate ChoiceStands(contacts: seq<Contact>, kind: ContactKind, choice: Choice) {
    choice.Explicit? ==>
      choice.id < |contacts| && !contacts[choice.id].archived && contacts[choice.id].kind == kind
  }

  lemma ChosenParty(s: State, kind: ContactKind, party: Party)
    requires party.choice.Explicit?
    ensures ResolveParty(s, kind, party).Ok? <==> ChoiceStands(s.contacts, kind, party.choice)
    ensures ResolveParty(s, kind, party).Ok? ==>
              var r := ResolveParty(s, kind, party).value;
              PartyIs(s.contacts, kind, party, r.state.contacts, r.contact) && r.refs == [] && r.state == s
  {}

  lemma ImplicitParty(s: State, kind: ContactKind, party: Party)
    requires !party.choice.Explicit?
    ensures ResolveParty(s, kind, party).Ok?
    ensures var r := ResolveParty(s, kind, party).value;
            PartyIs(s.contacts, kind, party, r.state.contacts, r.contact)
  {
    var byId, byName := TheOne(s.contacts, kind, party.emiratesId, false), TheOne(s.contacts, kind, party.name, true);
    if byId.Some? {
      assert OnlyBearer(s.contacts, kind, party.emiratesId, false, byId.value);
    } else {
      assert forall i: nat :: byId != Some(i);
      assert forall i: nat :: !OnlyBearer(s.contacts, kind, party.emiratesId, false, i);
    }
    if byName.Some? {
      assert OnlyBearer(s.contacts, kind, party.name, true, byName.value);
    } else {
      assert forall i: nat :: byName != Some(i);
      assert forall i: nat :: !OnlyBearer(s.contacts, kind, party.name, true, i);
    }
  }

  lemma PartyIsResolved(s: State, kind: ContactKind, party: Party)
    ensures ResolveParty(s, kind, party).Ok? <==> ChoiceStands(s.contacts, kind, party.choice)
    ensures ResolveParty(s, kind, party).Ok? ==>
              var r := ResolveParty(s, kind, party).value;
              PartyIs(s.contacts, kind, party, r.state.contacts, r.contact)
  {
    if party.choice.Explicit? { ChosenParty(s, kind, party); } else { ImplicitParty(s, kind, party); }
  }

  /** Contacts only grow while a row is committed. */
  lemma PartyResolved(s: State, kind: ContactKind, party: Party)
    requires ResolveParty(s, kind, party).Ok?
    ensures var r := ResolveParty(s, kind, party).value;
            && s.contacts <= r.state.contacts && PartyOf(r.state, r.contact, kind)
            && (r.contact.None? ==> !Truthy(party.name))
            && (party.choice.Explicit? ==> r.contact == Some(party.choice.id))
            && (party.choice.CreateNew? && r.contact.Some? ==>
              r.contact == Some(|s.contacts|) && r.refs == [ContactRef(|s.contacts|)])
            && r.state == s.(contacts := r.state.contacts)
            && PartyIs(s.contacts, kind, party, r.state.contacts, r.contact)
  {
    PartyIsResolved(s, kind, party);
  }

  lemma PartyOutlives(s: State, s': State, c: Option<nat>, kind: ContactKind)
    requires PartyOf(s, c, kind) && s.contacts <= s'.contacts
    ensures PartyOf(s', c, kind)
  {}

  function ItemsFor(t: nat, xs: seq<PaymentItemInput>): seq<Option<Payments.PaymentItem>> {
    seq(|xs|, i requires 0 <= i < |xs| => Payments.NewItem(t, xs[i]))
  }

  lemma {:induction false} ItemsAdded(s: State, t: nat, xs: seq<PaymentItemInput>)
    requires AddItems(s, t, xs).Ok?
    ensures AddItems(s, t, xs).value.state == s.(items := s.items + ItemsFor(t, xs))
    ensures forall i, j | 0 <= i < j < |xs| :: xs[i].seqNo != xs[j].seqNo
    decreases |xs|
  {
    if xs == [] {
    } else {
      var s1 := s.(items := s.items + [Payments.NewItem(t, xs[0])]);
      ItemsAdded(s1, t, xs[1..]);
      assert s.items + [Payments.NewItem(t, xs[0])] + ItemsFor(t, xs[1..]) == s.items + ItemsFor(t, xs);
      forall j | 0 < j < |xs| ensures xs[0].seqNo != xs[j].seqNo { FirstSeqIsTaken(s1, t, xs[1..], |s.items|, j - 1); }
      forall i, j | 0 <= i < j < |xs| ensures xs[i].seqNo != xs[j].seqNo {
        if i > 0 { assert xs[i] == xs[1..][i - 1] && xs[j] == xs[1..][j - 1]; }
      }
    }
  }

  /** An item that is there already keeps its number from being used again. */
  lemma {:induction false} FirstSeqIsTaken(s: State, t: nat, xs: seq<PaymentItemInput>, i: nat, j: nat)
    requires AddItems(s, t, xs).Ok? && i < |s.items| && Payments.OfTenancy(s.items[i], t) && j < |xs|
    ensures xs[j].seqNo != s.items[i].value.seqNo
    decreases |xs|
  {
    if j == 0 {
      assert !Payments.HeldSeq(s.items, t, xs[0].seqNo);
    } else {
      var s1 := s.(items := s.items + [Payments.NewItem(t, xs[0])]);
      assert s1.items[i] == s.items[i];
      FirstSeqIsTaken(s1, t, xs[1..], i, j - 1);
    }
  }

  /** The lease of a row: its own terms, on a live property, between a live owner and a live tenant contact. */
  ghost predicate LeaseOf(s: State, row: Tenancy, data: RowData, doc: Option<nat>) {
    && row.startDay == data.startDay && row.endDay == data.endDay && row.annualRent == data.annualRent
      && row.ejariNo == data.ejariNo
    && row.noticePeriodDays == (if data.noticePeriodDays.Some? then data.noticePeriodDays.value else 90)
    && row.contractDoc == doc && !row.archived
    && row.property < |s.properties| && !s.properties[row.property].archived
    && (s.properties[row.property].address == data.address || Some(row.property) == data.property)
    && PartyOf(s, row.landlord, OWNER) && PartyOf(s, row.tenant, TENANT)
  }

  /** The contract document hangs on the new tenancy. */
  function DocumentsAfter(s: State, doc: Option<nat>, t: nat): seq<Scope> {
    if doc.Some? && doc.value < |s.documents| then s.documents[doc.value := Scope(AT_TENANCY, Some(t))] else s.documents
  }

  lemma LeaseAdded(s: State, data: RowData, p: nat, landlord: Option<nat>, tenant: Option<nat>, doc: Option<nat>)
    requires AddLease(s, data, p, landlord, tenant, doc).Ok?
    ensures var s' := AddLease(s, data, p, landlord, tenant, doc).value.state;
            && s'.tenancies == s.tenancies + [NewTenancy(data, p, landlord, tenant, doc)]
            && s'.items == s.items + ItemsFor(|s.tenancies|, ResolveSchedule(data))
            && s'.contacts == s.contacts && s'.properties == s.properties && s'.book == s.book
            && s'.documents == DocumentsAfter(s, doc, |s.tenancies|)
  {
    var s1 := s.(tenancies := s.tenancies + [NewTenancy(data, p, landlord, tenant, doc)]);
    ItemsAdded(AttachDocument(s1, doc, |s.tenancies|, p).value.state, |s.tenancies|, ResolveSchedule(data));
  }

  predicate LiveAt(p: Property, address: Address) {
    !p.archived && p.address == address
  }

  /**
   Where a lease is placed: on the property chosen, while it is live; else on the first live one at the
   address; else on a new one, of the landlord and the client given. An agent keeps within its book.
   */
  ghost predicate PropertyIs(s: State, actor: Actor, data: RowData, owner: Option<nat>, s': State, p: nat) {
    if data.property.Some? && data.property.value < |s.properties| && !s.properties[data.property.value].archived then
      p == data.property.value && s'.properties == s.properties && s'.book == s.book && (actor.Agent? ==> p in s.book)
    else if exists q :: 0 <= q < |s.properties| && LiveAt(s.properties[q], data.address) then
      && p < |s.properties| && LiveAt(s.properties[p], data.address)
      && (forall q | 0 <= q < p :: !LiveAt(s.properties[q], data.address))
      && s'.properties == s.properties && s'.book == s.book && (actor.Agent? ==> p in s.book)
    else
      && p == |s.properties| && s'.properties == s.properties + [Property(data.address, data.client, owner, false)]
      && s'.book == if actor.Agent? then s.book + {p} else s.book
  }

  lemma {:induction false} FirstLiveAt(properties: seq<Property>, address: Address, from: nat)
    requires from <= |properties|
    ensures var r := PropertyAt(properties, address, from);
            && (r.None? <==> forall q | from <= q < |properties| :: !LiveAt(properties[q], address))
            && (r.Some? ==>
                  from <= r.value < |properties| && LiveAt(properties[r.value], address)
                  && forall q | from <= q < r.value :: !LiveAt(properties[q], address))
    decreases |properties| - from
  {
    if from == |properties| {
    } else {
      FirstLiveAt(properties, address, from + 1);
    }
  }

  lemma PropertyIsPlaced(s: State, actor: Actor, data: RowData, owner: Option<nat>)
    ensures var r := PlaceProperty(s, actor, data, owner);
            && (r.Ok? ==> PropertyIs(s, actor, data, owner, r.value.state, r.value.property))
            && (r.Err? ==> actor.Agent?)
  {
    FirstLiveAt(s.properties, data.address, 0);
  }

  lemma PropertyPlaced(s: State, actor: Actor, data: RowData, owner: Option<nat>)
    requires PlaceProperty(s, actor, data, owner).Ok?
    ensures var r := PlaceProperty(s, actor, data, owner).value;
            && r.property < |r.state.properties| && !r.state.properties[r.property].archived
            && (r.state.properties[r.property].address == data.address || Some(r.property) == data.property)
            && (r.property == |s.properties| ==>
                  r.state.properties[r.property].owner == owner && r.state.properties[r.property].client == data.client)
            && s.properties <= r.state.properties && r.state.contacts == s.contacts && r.state.items == s.items
  {}

  /** The items given with the row; without any, even cheques over its term when it asks for some. */
  predicate ScheduleIs(data: RowData, xs: seq<PaymentItemInput>) {
    if |data.items| > 0 then xs == data.items
    else if data.chequeCount > 0
    then xs == EvenChequeSchedule(data.startDay, data.endDay, data.annualRent, data.chequeCount)
    else |xs| == 0
  }

  /** Landlord, then tenant, then property of the lease, each as the one before has left the tables. */
  ghost predicate Parties(s: State, actor: Actor, data: RowData, s': State, row: Tenancy) {
    exists mid :: PartyIs(s.contacts, OWNER, data.landlord, mid, row.landlord)
      && PartyIs(mid, TENANT, data.tenant, s'.contacts, row.tenant)
      && PropertyIs(s, actor, data, row.landlord, s', row.property)
  }

  /**
   A committed row adds exactly one tenancy, with the row's own terms and parties of the right kind, and
   exactly the items of its schedule; an existing property keeps its owner and client.
   */
  lemma RowBecomesLease(s: State, actor: Actor, data: RowData, doc: Option<nat>)
    requires CommitRow(s, actor, data, doc).Ok?
    ensures var s' := CommitRow(s, actor, data, doc).value.state;
            && |s'.tenancies| == |s.tenancies| + 1 && s.tenancies <= s'.tenancies && s.properties <= s'.properties
            && LeaseOf(s', s'.tenancies[|s.tenancies|], data, doc)
            && s'.items == s.items + ItemsFor(|s.tenancies|, ResolveSchedule(data))
            && Parties(s, actor, data, s', s'.tenancies[|s.tenancies|])
            && s'.documents == DocumentsAfter(s, doc, |s.tenancies|)
            && ScheduleIs(data, ResolveSchedule(data))
  {
    var landlord := ResolveParty(s, OWNER, data.landlord).value;
    PartyResolved(s, OWNER, data.landlord);
    var tenant := ResolveParty(landlord.state, TENANT, data.tenant).value;
    PartyResolved(landlord.state, TENANT, data.tenant);
    PartyOutlives(landlord.state, tenant.state, landlord.contact, OWNER);
    var placed := PlaceProperty(tenant.state, actor, data, landlord.contact).value;
    PropertyPlaced(tenant.state, actor, data, landlord.contact);
    LeaseAdded(placed.state, data, placed.property, landlord.contact, tenant.contact, doc);
    RowParties(s, actor, data, doc);
  }

  lemma RowParties(s: State, actor: Actor, data: RowData, doc: Option<nat>)
    requires CommitRow(s, actor, data, doc).Ok?
    ensures var s' := CommitRow(s, actor, data, doc).value.state;
            && |s'.tenancies| == |s.tenancies| + 1 && Parties(s, actor, data, s', s'.tenancies[|s.tenancies|])
            && s'.documents == DocumentsAfter(s, doc, |s.tenancies|)
  {
    var landlord := ResolveParty(s, OWNER, data.landlord).value;
    var tenant := ResolveParty(landlord.state, TENANT, data.tenant).value;
    PartyResolved(s, OWNER, data.landlord);
    PartyResolved(landlord.state, TENANT, data.tenant);
    var placed := PlaceProperty(tenant.state, actor, data, landlord.contact).value;
    PropertyIsPlaced(tenant.state, actor, data, landlord.contact);
    LeaseAdded(placed.state, data, placed.property, landlord.contact, tenant.contact, doc);
    var s' := CommitRow(s, actor, data, doc).value.state;
    assert PropertyIs(s, actor, data, landlord.contact, s', placed.property) by {
      assert PropertyIs(tenant.state, actor, data, landlord.contact, placed.state, placed.property);
    }
    assert PartyIs(s.contacts, OWNER, data.landlord, landlord.state.contacts, landlord.contact);
    assert PartyIs(landlord.state.contacts, TENANT, data.tenant, s'.contacts, tenant.contact);
  }
}
