/**
 Who sees what, said on the records: owners, tenants, landlords of record, clients and books. The id sets the
 code works with do not appear here; the doors and lists are proved to open exactly these records.
 */
module ScopeRecords {
  import opened Common
  import opened Scopes

  /** A current lease of the contact, as its tenant or as its landlord of record. */
  predicate HoldsLease(ctx: Context, t: Tenancy)
    requires ctx.Persona?
  {
    && t.workspace == ctx.workspace && !t.archived
    && (if ctx.role == TENANT then t.tenant == Some(ctx.contact) else t.landlord == Some(ctx.contact))
  }

  /** The client's; a unit the contact owns or holds a current lease on; a unit in the book. */
  ghost predicate OpensProperty(db: Db, ctx: Context, p: Property) {
    p.workspace == ctx.workspace &&
    match ctx
    case ClientViewer(_, client) => p.client == Some(client)
    case Persona(_, contact, role) =>
      || (role == LANDLORD && p.owner == Some(contact))
      || exists t :: t in db.tenancies && HoldsLease(ctx, t) && t.property == p.id
    case Delegate(_, book) => p.id in book
  }

  /** On a unit of the client, or in the book; for a contact the leases it holds, and all of a unit it owns. */
  ghost predicate OpensTenancy(db: Db, ctx: Context, t: Tenancy) {
    t.workspace == ctx.workspace &&
    match ctx
    case ClientViewer(_, client) => exists p :: p in db.properties && p.id == t.property && p.client == Some(client)
    case Persona(ws, contact, role) =>
      || HoldsLease(ctx, t)
      || (role == LANDLORD
          && exists p :: p in db.properties && p.workspace == ws && p.id == t.property && p.owner == Some(contact))
    case Delegate(_, book) => t.property in book
  }

  ghost predicate OpensItem(db: Db, ctx: Context, i: PaymentItem) {
    i.workspace == ctx.workspace && exists t :: t in db.tenancies && t.id == i.tenancy && OpensTenancy(db, ctx, t)
  }

  /** Some unit, lease or item of that id opens. */
  ghost predicate UnitOpens(db: Db, ctx: Context, id: Id) {
    exists p :: p in db.properties && p.id == id && OpensProperty(db, ctx, p)
  }

  ghost predicate LeaseOpens(db: Db, ctx: Context, id: Id) {
    exists t :: t in db.tenancies && t.id == id && OpensTenancy(db, ctx, t)
  }

  ghost predicate ChequeOpens(db: Db, ctx: Context, id: Id) {
    exists i :: i in db.items && i.id == id && OpensItem(db, ctx, i)
  }

  ghost predicate RequestOpens(db: Db, ctx: Context, id: Id) {
    exists q :: q in db.proofs && q.id == id && OpensProof(db, ctx, q)
  }

  ghost predicate OwnPassport(db: Db, ctx: Context, id: Id)
    requires ctx.Persona?
  {
    exists k :: k in db.passports && k.id == id && k.workspace == ctx.workspace && k.contact == ctx.contact
  }

  /** Scoped to a unit, lease or item that opens, or for a viewer to its client; the scope type is not looked at. */
  ghost predicate OpensProof(db: Db, ctx: Context, q: ProofRequest) {
    && q.workspace == ctx.workspace && q.scopeId.Some?
    && var id := q.scopeId.value;
       || UnitOpens(db, ctx, id) || LeaseOpens(db, ctx, id) || ChequeOpens(db, ctx, id)
       || (ctx.ClientViewer? && id == ctx.client)
  }

  ghost predicate OpensDocument(db: Db, ctx: Context, d: Document) {
    d.workspace == ctx.workspace && d.scopeId.Some? &&
    match d.scopeType
    case PROPERTY => UnitOpens(db, ctx, d.scopeId.value)
    case TENANCY => LeaseOpens(db, ctx, d.scopeId.value)
    case PAYMENT_ITEM => ChequeOpens(db, ctx, d.scopeId.value)
    case PROOF_REQUEST => RequestOpens(db, ctx, d.scopeId.value)
    case CLIENT => ctx.ClientViewer? && d.scopeId.value == ctx.client
    case TENANT_PASSPORT => ctx.Persona? && ctx.role == TENANT && OwnPassport(db, ctx, d.scopeId.value)
    case WORKSPACE => false
  }

  ghost predicate Opens(db: Db, ctx: Context, r: Record) {
    match r
    case OfTenancy(t) => OpensTenancy(db, ctx, t)
    case OfProperty(p) => OpensProperty(db, ctx, p)
    case OfDocument(d) => OpensDocument(db, ctx, d)
    case OfProof(q) => OpensProof(db, ctx, q)
  }

  // ---------------------------------------------------------------------------------------------
  // The id sets hold the ids of exactly these records
  // ---------------------------------------------------------------------------------------------

  /** Proof requests have ids of their own as well. */
  ghost predicate ProofIds(db: Db) {
    forall q, r | q in db.proofs && r in db.proofs && q.id == r.id :: q == r
  }

  ghost predicate SetsMatch(db: Db, ctx: Context, ids: ScopeIds) {
    && (forall id :: id in ids.properties <==> UnitOpens(db, ctx, id))
    && (forall id :: id in ids.tenancies <==> LeaseOpens(db, ctx, id))
    && (forall id :: id in ids.items <==> ChequeOpens(db, ctx, id))
    && ids.clients == (if ctx.ClientViewer? then {ctx.client} else {})
  }

  lemma BelowSets(db: Db, ctx: Context, clients: set<Id>, properties: set<Id>)
    requires Sound(db) && !ctx.Persona? && clients == (if ctx.ClientViewer? then {ctx.client} else {})
    requires forall id :: id in properties <==> UnitOpens(db, ctx, id)
    requires forall t | t in db.tenancies && t.workspace == ctx.workspace ::
               OpensTenancy(db, ctx, t) <==> t.property in properties
    ensures SetsMatch(db, ctx, Below(db, ctx.workspace, clients, properties))
  {
    BelowIsPlain(db, ctx.workspace, clients, properties);
    var ids := PlainBelow(db, ctx.workspace, clients, properties);
    forall id ensures id in ids.tenancies <==> LeaseOpens(db, ctx, id) {}
    ItemSets(db, ctx, ids.tenancies);
  }

  lemma ItemSets(db: Db, ctx: Context, tenancies: set<Id>)
    requires Sound(db)
    requires forall id :: id in tenancies <==> LeaseOpens(db, ctx, id)
    ensures forall id :: id in ItemsOf(db, ctx.workspace, tenancies) <==> ChequeOpens(db, ctx, id)
  {
    forall i | i in db.items && i.workspace == ctx.workspace
      ensures i.tenancy in tenancies <==> OpensItem(db, ctx, i)
    {}
  }

  lemma ViewerSets(db: Db, ws: Id, client: Id)
    requires Sound(db) && Proper(client)
    ensures SetsMatch(db, ClientViewer(ws, client), IdsFor(db, ClientViewer(ws, client)))
  {
    var ctx := ClientViewer(ws, client);
    var properties := PropertiesOfClients(db, ws, InIds({client}));
    forall id ensures id in properties <==> UnitOpens(db, ctx, id) {
      if p :| p in db.properties && p.id == id && OpensProperty(db, ctx, p) { assert In({client}, p.client); }
    }
    forall t | t in db.tenancies && t.workspace == ws
      ensures OpensTenancy(db, ctx, t) <==> t.property in properties
    {
      var home :| home in db.properties && home.id == t.property && home.workspace == t.workspace;
      assert OpensProperty(db, ctx, home) <==> OpensTenancy(db, ctx, t);
    }
    BelowSets(db, ctx, {client}, properties);
  }

  lemma DelegateSets(db: Db, ws: Id, book: set<Id>)
    requires Sound(db) && ContextSound(db, Delegate(ws, book))
    ensures SetsMatch(db, Delegate(ws, book), IdsFor(db, Delegate(ws, book)))
  {
    var ctx := Delegate(ws, book);
    forall id ensures id in book <==> UnitOpens(db, ctx, id) {
      if id in book {
        var p :| p in db.properties && p.id == id && p.workspace == ws;
        assert OpensProperty(db, ctx, p);
      }
    }
    BelowSets(db, ctx, {}, book);
  }

  lemma TenantSets(db: Db, ws: Id, contact: Id)
    requires Sound(db)
    ensures SetsMatch(db, Persona(ws, contact, TENANT), IdsFor(db, Persona(ws, contact, TENANT)))
  {
    var ctx := Persona(ws, contact, TENANT);
    var ids := IdsFor(db, ctx);
    forall id ensures id in ids.properties <==> UnitOpens(db, ctx, id) {
      if id in ids.properties {
        var t :| t in db.tenancies && CurrentTenant(t, ws, contact) && t.property == id;
        var home :| home in db.properties && home.id == t.property && home.workspace == t.workspace;
        assert HoldsLease(ctx, t) && OpensProperty(db, ctx, home);
      }
      if p :| p in db.properties && p.id == id && OpensProperty(db, ctx, p) {
        var t :| t in db.tenancies && HoldsLease(ctx, t) && t.property == p.id;
        assert CurrentTenant(t, ws, contact);
      }
    }
    ItemSets(db, ctx, ids.tenancies);
  }

  lemma LandlordSets(db: Db, ws: Id, contact: Id)
    requires Sound(db)
    ensures SetsMatch(db, Persona(ws, contact, LANDLORD), IdsFor(db, Persona(ws, contact, LANDLORD)))
  {
    var ctx := Persona(ws, contact, LANDLORD);
    var ids := IdsFor(db, ctx);
    LandlordPropertySet(db, ws, contact);
    LandlordTenancySet(db, ws, contact);
    ItemSets(db, ctx, ids.tenancies);
  }

  lemma LandlordPropertySet(db: Db, ws: Id, contact: Id)
    requires Sound(db)
    ensures var ctx := Persona(ws, contact, LANDLORD);
            forall id :: id in IdsFor(db, ctx).properties <==> UnitOpens(db, ctx, id)
  {
    var ctx := Persona(ws, contact, LANDLORD);
    var ids := IdsFor(db, ctx);
    forall id ensures id in ids.properties <==> UnitOpens(db, ctx, id) {
      if id in ids.properties {
        if id in OwnedBy(db, ws, contact) {
          var p :| p in db.properties && p.workspace == ws && p.owner == Some(contact) && p.id == id;
          assert OpensProperty(db, ctx, p);
        } else {
          var t :| t in db.tenancies && LandlordOfRecord(t, ws, contact) && t.property == id;
          var home :| home in db.properties && home.id == t.property && home.workspace == t.workspace;
          assert HoldsLease(ctx, t) && OpensProperty(db, ctx, home);
        }
      }
      if p :| p in db.properties && p.id == id && OpensProperty(db, ctx, p) {
        if p.owner != Some(contact) {
          var t :| t in db.tenancies && HoldsLease(ctx, t) && t.property == p.id;
          assert LandlordOfRecord(t, ws, contact);
        } else {
          assert p.id in OwnedBy(db, ws, contact);
        }
      }
    }
  }

  lemma LandlordTenancySet(db: Db, ws: Id, contact: Id)
    requires Sound(db)
    ensures var ctx := Persona(ws, contact, LANDLORD);
            forall id :: id in IdsFor(db, ctx).tenancies <==> LeaseOpens(db, ctx, id)
  {
    var ctx := Persona(ws, contact, LANDLORD);
    var ids := IdsFor(db, ctx);
    forall id ensures id in ids.tenancies <==> LeaseOpens(db, ctx, id) {
      if id in ids.tenancies {
        if id in TenanciesOn(db, ws, OwnedBy(db, ws, contact)) {
          var t :| t in db.tenancies && t.workspace == ws && t.property in OwnedBy(db, ws, contact) && t.id == id;
          assert OpensTenancy(db, ctx, t);
        } else {
          var t :| t in db.tenancies && LandlordOfRecord(t, ws, contact) && t.id == id;
          assert HoldsLease(ctx, t) && OpensTenancy(db, ctx, t);
        }
      }
      if t :| t in db.tenancies && t.id == id && OpensTenancy(db, ctx, t) {
        if HoldsLease(ctx, t) {
          assert LandlordOfRecord(t, ws, contact);
        } else {
          assert t.property in OwnedBy(db, ws, contact);
        }
      }
    }
  }

  lemma SetsHoldTheRecords(db: Db, ctx: Context)
    requires Sound(db) && ContextSound(db, ctx)
    ensures SetsMatch(db, ctx, IdsFor(db, ctx))
  {
    match ctx
    case ClientViewer(ws, client) => ViewerSets(db, ws, client);
    case Persona(ws, contact, role) =>
      if role == TENANT { TenantSets(db, ws, contact); } else { LandlordSets(db, ws, contact); }
    case Delegate(ws, book) => DelegateSets(db, ws, book);
  }

  lemma IdOpens(db: Db, ctx: Context, id: Id)
    requires Sound(db) && ContextSound(db, ctx)
    ensures var ids := IdsFor(db, ctx);
            && (id in ids.properties <==> UnitOpens(db, ctx, id))
            && (id in ids.tenancies <==> LeaseOpens(db, ctx, id))
            && (id in ids.items <==> ChequeOpens(db, ctx, id))
            && (id in ids.clients <==> ctx.ClientViewer? && id == ctx.client)
  {
    SetsHoldTheRecords(db, ctx);
  }

  /** All ids a proof request may be scoped to. */
  function OwnIds(ids: ScopeIds): set<Id> {
    ids.clients + ids.properties + ids.tenancies + ids.items
  }

  lemma ProofsAreOnOwnIds(db: Db, ctx: Context)
    requires Sound(db) && ContextSound(db, ctx)
    ensures IdsFor(db, ctx).proofs == ProofsOn(db, ctx.workspace, OwnIds(IdsFor(db, ctx)))
  {
    match ctx
    case ClientViewer(ws, client) => BelowIsPlain(db, ws, {client}, PropertiesOfClients(db, ws, InIds({client})));
    case Persona(ws, contact, role) =>
      var ids := IdsFor(db, ctx);
      assert OwnIds(ids) == ids.properties + ids.tenancies + ids.items;
    case Delegate(ws, book) => BelowIsPlain(db, ws, {}, book);
  }

  lemma ScopedOnOwnIds(db: Db, ctx: Context, q: ProofRequest)
    requires Sound(db) && ContextSound(db, ctx) && q.workspace == ctx.workspace
    ensures In(OwnIds(IdsFor(db, ctx)), q.scopeId) <==> OpensProof(db, ctx, q)
  {
    if q.scopeId.Some? { IdOpens(db, ctx, q.scopeId.value); }
  }

  lemma ProofSet(db: Db, ctx: Context, id: Id)
    requires Sound(db) && ContextSound(db, ctx)
    ensures id in IdsFor(db, ctx).proofs <==> RequestOpens(db, ctx, id)
  {
    ProofsAreOnOwnIds(db, ctx);
    var own := OwnIds(IdsFor(db, ctx));
    if id in IdsFor(db, ctx).proofs {
      var q :| q in db.proofs && q.workspace == ctx.workspace && In(own, q.scopeId) && q.id == id;
      ScopedOnOwnIds(db, ctx, q);
    }
    if q :| q in db.proofs && q.id == id && OpensProof(db, ctx, q) {
      ScopedOnOwnIds(db, ctx, q);
    }
  }

  // ---------------------------------------------------------------------------------------------
  // The doors
  // ---------------------------------------------------------------------------------------------

  lemma PassportSet(db: Db, ctx: Context, id: Id)
    requires ctx.Persona?
    ensures id in IdsFor(db, ctx).passports <==> ctx.role == TENANT && OwnPassport(db, ctx, id)
  {}

  lemma PersonaDocumentOpens(db: Db, ctx: Context, d: Document)
    requires Sound(db) && ContextSound(db, ctx) && ctx.Persona? && d.scopeId.Some?
    ensures Readable(db, ctx, OfDocument(d)) <==> OpensDocument(db, ctx, d)
  {
    var id := d.scopeId.value;
    IdOpens(db, ctx, id);
    ProofSet(db, ctx, id);
    EmptyIsNoId(db, ctx);
    PassportSet(db, ctx, id);
  }

  /** The scope of the document has its set, and nothing else is looked at. */
  lemma ScopedDocumentDoor(db: Db, ctx: Context, d: Document)
    requires !ctx.Persona? && d.scopeId.Some?
    ensures Readable(db, ctx, OfDocument(d)) <==>
            && d.workspace == ctx.workspace && d.scopeId.value != ""
            && SetOf(IdsFor(db, ctx), d.scopeType).Some?
            && d.scopeId.value in SetOf(IdsFor(db, ctx), d.scopeType).value
  {}

  lemma ScopedDocumentOpens(db: Db, ctx: Context, d: Document)
    requires Sound(db) && ContextSound(db, ctx) && !ctx.Persona? && d.scopeId.Some?
    ensures Readable(db, ctx, OfDocument(d)) <==> OpensDocument(db, ctx, d)
  {
    ScopedDocumentDoor(db, ctx, d);
    IdOpens(db, ctx, d.scopeId.value);
    ProofSet(db, ctx, d.scopeId.value);
    EmptyIsNoId(db, ctx);
  }

  lemma DocumentOpens(db: Db, ctx: Context, d: Document)
    requires Sound(db) && ContextSound(db, ctx)
    ensures Readable(db, ctx, OfDocument(d)) <==> OpensDocument(db, ctx, d)
  {
    if d.scopeId.Some? {
      if ctx.Persona? { PersonaDocumentOpens(db, ctx, d); } else { ScopedDocumentOpens(db, ctx, d); }
    }
  }

  /** The empty id is in no set, so nothing is opened by it. */
  lemma EmptyIsNoId(db: Db, ctx: Context)
    requires Sound(db) && ContextSound(db, ctx)
    ensures var ids := IdsFor(db, ctx);
            && "" !in ids.clients && "" !in ids.properties && "" !in ids.tenancies && "" !in ids.items
            && "" !in ids.proofs && "" !in ids.passports
  {
    IdsAreProper(db, ctx);
    assert !Proper("");
  }

  lemma PropertyOpens(db: Db, ctx: Context, p: Property)
    requires Sound(db) && ContextSound(db, ctx) && p in db.properties
    ensures Readable(db, ctx, OfProperty(p)) <==> OpensProperty(db, ctx, p)
  {
    IdOpens(db, ctx, p.id);
    assert UnitOpens(db, ctx, p.id) <==> OpensProperty(db, ctx, p);
  }

  lemma TenancyOpens(db: Db, ctx: Context, t: Tenancy)
    requires Sound(db) && ContextSound(db, ctx) && t in db.tenancies
    ensures Readable(db, ctx, OfTenancy(t)) <==> OpensTenancy(db, ctx, t)
  {
    IdOpens(db, ctx, t.id);
    assert LeaseOpens(db, ctx, t.id) <==> OpensTenancy(db, ctx, t);
  }

  lemma ProofOpens(db: Db, ctx: Context, q: ProofRequest)
    requires Sound(db) && ProofIds(db) && ContextSound(db, ctx) && q in db.proofs
    ensures Readable(db, ctx, OfProof(q)) <==> OpensProof(db, ctx, q)
  {
    ProofSet(db, ctx, q.id);
  }

  /**
   For viewers, personas and delegates alike the by-id door opens a record, and the list shows it, exactly when
   the records themselves connect it to the context.
   */
  lemma DoorsOpenByRecords(db: Db, ctx: Context, r: Record)
    requires Sound(db) && ProofIds(db) && ContextSound(db, ctx) && FromDb(db, r) && !MentionsSentinel(r)
    ensures Readable(db, ctx, r) <==> Opens(db, ctx, r)
    ensures Listed(db, ctx, r) <==> Opens(db, ctx, r)
  {
    ListMatchesDoor(db, ctx, r);
    match r
    case OfTenancy(t) => TenancyOpens(db, ctx, t);
    case OfProperty(p) => PropertyOpens(db, ctx, p);
    case OfDocument(d) => DocumentOpens(db, ctx, d);
    case OfProof(q) => ProofOpens(db, ctx, q);
  }

  /** A payment item is listed exactly when its lease is one the records open. */
  lemma ItemsListedByRecords(db: Db, ctx: Context, i: PaymentItem)
    requires Sound(db) && ContextSound(db, ctx) && i in db.items
    ensures ItemListed(db, ctx, i) <==> OpensItem(db, ctx, i)
  {
    var t :| t in db.tenancies && t.id == i.tenancy && t.workspace == i.workspace;
    ItemFollowsTenancy(db, ctx, i, t);
    TenancyOpens(db, ctx, t);
  }

  /** A deadline by the unit it carries, or by its lease. */
  lemma DeadlinesListedByRecords(db: Db, ctx: Context, d: Deadline)
    requires Sound(db) && ContextSound(db, ctx)
    requires d.property != Some(NEVER_MATCH_ID) && d.tenancy != Some(NEVER_MATCH_ID)
    ensures DeadlineListed(db, ctx, d) <==>
            && d.workspace == ctx.workspace
            && ((d.property.Some? && UnitOpens(db, ctx, d.property.value))
                || (d.tenancy.Some? && LeaseOpens(db, ctx, d.tenancy.value)))
  {
    var ids := IdsFor(db, ctx);
    if d.property.Some? {
      InIdsExact(ids.properties, d.property.value);
      IdOpens(db, ctx, d.property.value);
    }
    if d.tenancy.Some? {
      InIdsExact(ids.tenancies, d.tenancy.value);
      IdOpens(db, ctx, d.tenancy.value);
    }
  }
}
