/**
 Who sees which rows. Each context has a list filter, a query over id sets, and a by-id check; both
 are built from the same traversals of the tables. Ids are strings: the empty one counts as absent.
 */
module Scopes {
  import opened Common

  type Id = string

  const NEVER_MATCH_ID: Id := "00000000-0000-4000-8000-000000000000"

  datatype ScopeType = WORKSPACE | CLIENT | PROPERTY | TENANCY | PAYMENT_ITEM | PROOF_REQUEST | TENANT_PASSPORT

  datatype Property = Property(workspace: Id, id: Id, client: Option<Id>, owner: Option<Id>)

  datatype Tenancy = Tenancy(workspace: Id, id: Id, property: Id, tenant: Option<Id>, landlord: Option<Id>,
    archived: bool)

  datatype PaymentItem = PaymentItem(workspace: Id, id: Id, tenancy: Id)

  datatype ProofRequest = ProofRequest(workspace: Id, id: Id, scopeType: ScopeType, scopeId: Option<Id>,
    assignee: Option<Id>)

  datatype Passport = Passport(workspace: Id, id: Id, contact: Id)

  datatype Document = Document(workspace: Id, scopeType: ScopeType, scopeId: Option<Id>)

  datatype Deadline = Deadline(workspace: Id, property: Option<Id>, tenancy: Option<Id>)

  datatype Db = Db(
    properties: set<Property>,
    tenancies: set<Tenancy>,
    items: set<PaymentItem>,
    proofs: set<ProofRequest>,
    passports: set<Passport>)

  datatype Role = TENANT | LANDLORD

  datatype Context =
    | ClientViewer(workspace: Id, client: Id)
    | Persona(workspace: Id, contact: Id, role: Role)
    | Delegate(workspace: Id, book: set<Id>)

  datatype ScopeIds = ScopeIds(
    clients: set<Id>,
    properties: set<Id>,
    tenancies: set<Id>,
    items: set<Id>,
    proofs: set<Id>,
    passports: set<Id>)

  /** An empty `in` list is replaced by an id no row has. */
  function InIds(ids: set<Id>): set<Id> {
    if ids == {} then {NEVER_MATCH_ID} else ids
  }

  predicate In(ids: set<Id>, field: Option<Id>) {
    field.Some? && field.value in ids
  }

  // ---------------------------------------------------------------------------------------------
  // Traversals
  // ---------------------------------------------------------------------------------------------

  function PropertiesOfClients(db: Db, ws: Id, clients: set<Id>): set<Id> {
    set p | p in db.properties && p.workspace == ws && In(clients, p.client) :: p.id
  }

  function TenanciesOn(db: Db, ws: Id, properties: set<Id>): set<Id> {
    set t | t in db.tenancies && t.workspace == ws && t.property in properties :: t.id
  }

  function ItemsOf(db: Db, ws: Id, tenancies: set<Id>): set<Id> {
    set i | i in db.items && i.workspace == ws && i.tenancy in tenancies :: i.id
  }

  function ProofsOn(db: Db, ws: Id, scopeIds: set<Id>): set<Id> {
    set r | r in db.proofs && r.workspace == ws && In(scopeIds, r.scopeId) :: r.id
  }

  /** From properties down, as the client and delegate resolvers do it. */
  function Below(db: Db, ws: Id, clients: set<Id>, properties: set<Id>): ScopeIds {
    var tenancies := TenanciesOn(db, ws, InIds(properties));
    var items := ItemsOf(db, ws, InIds(tenancies));
    ScopeIds(clients, properties, tenancies, items, ProofsOn(db, ws, InIds(clients + properties + tenancies + items)),
      {})
  }

  function ResolveClientScopeIds(db: Db, ws: Id, clients: set<Id>): ScopeIds {
    Below(db, ws, clients, PropertiesOfClients(db, ws, InIds(clients)))
  }

  /** The book holds properties, so client-wide rows stay outside. */
  function ResolveDelegateScopeIds(db: Db, ws: Id, book: set<Id>): ScopeIds {
    Below(db, ws, {}, book)
  }

  function OwnedBy(db: Db, ws: Id, contact: Id): set<Id> {
    set p | p in db.properties && p.workspace == ws && p.owner == Some(contact) :: p.id
  }

  predicate LandlordOfRecord(t: Tenancy, ws: Id, contact: Id) {
    t.workspace == ws && t.landlord == Some(contact) && !t.archived
  }

  predicate CurrentTenant(t: Tenancy, ws: Id, contact: Id) {
    t.workspace == ws && t.tenant == Some(contact) && !t.archived
  }

  function ResolveContactScopeIds(db: Db, ws: Id, contact: Id, role: Role): ScopeIds {
    var own :=
      match role
      case TENANT =>
        ScopeIds({}, set t | t in db.tenancies && CurrentTenant(t, ws, contact) :: t.property,
                 set t | t in db.tenancies && CurrentTenant(t, ws, contact) :: t.id, {}, {},
                 set p | p in db.passports && p.workspace == ws && p.contact == contact :: p.id)
      case LANDLORD =>
        var owned := OwnedBy(db, ws, contact);
        ScopeIds({}, owned + set t | t in db.tenancies && LandlordOfRecord(t, ws, contact) :: t.property,
                 TenanciesOn(db, ws, owned) + set t | t in db.tenancies && LandlordOfRecord(t, ws, contact) ::
                   t.id, {}, {}, {});
    var items := ItemsOf(db, ws, own.tenancies);
    own.(items := items, proofs := ProofsOn(db, ws, own.properties + own.tenancies + items))
  }

  function IdsFor(db: Db, ctx: Context): ScopeIds {
    match ctx
    case ClientViewer(ws, client) => ResolveClientScopeIds(db, ws, {client})
    case Persona(ws, contact, role) => ResolveContactScopeIds(db, ws, contact, role)
    case Delegate(ws, book) => ResolveDelegateScopeIds(db, ws, book)
  }

  // ---------------------------------------------------------------------------------------------
  // Scoped rows: a list of query clauses, and a membership switch
  // ---------------------------------------------------------------------------------------------

  datatype Clause = Clause(scopeType: ScopeType, ids: set<Id>)

  function ScopeMatchClauses(ids: ScopeIds): seq<Clause> {
    [Clause(CLIENT, InIds(ids.clients)), Clause(PROPERTY, InIds(ids.properties)), Clause(TENANCY, InIds(ids.tenancies)),
     Clause(PAYMENT_ITEM, InIds(ids.items)), Clause(PROOF_REQUEST, InIds(ids.proofs))]
  }

  function ScopeMatchClausesContact(ids: ScopeIds): seq<Clause> {
    [Clause(PROPERTY, ids.properties), Clause(TENANCY, ids.tenancies), Clause(PAYMENT_ITEM, ids.items),
     Clause(PROOF_REQUEST, ids.proofs), Clause(TENANT_PASSPORT, ids.passports)]
  }

  predicate AnyClause(clauses: seq<Clause>, scopeType: ScopeType, scopeId: Option<Id>) {
    exists i | 0 <= i < |clauses| :: clauses[i].scopeType == scopeType && In(clauses[i].ids, scopeId)
  }

  predicate ScopeBelongsToClient(ids: ScopeIds, scopeType: ScopeType, scopeId: Option<Id>) {
    Truthy(scopeId) &&
    match scopeType
    case CLIENT => scopeId.value in ids.clients
    case PROPERTY => scopeId.value in ids.properties
    case TENANCY => scopeId.value in ids.tenancies
    case PAYMENT_ITEM => scopeId.value in ids.items
    case PROOF_REQUEST => scopeId.value in ids.proofs
    case _ => false
  }

  predicate ScopeBelongsToContact(ids: ScopeIds, scopeType: ScopeType, scopeId: Option<Id>) {
    Truthy(scopeId) &&
    match scopeType
    case PROPERTY => scopeId.value in ids.properties
    case TENANCY => scopeId.value in ids.tenancies
    case PAYMENT_ITEM => scopeId.value in ids.items
    case PROOF_REQUEST => scopeId.value in ids.proofs
    case TENANT_PASSPORT => scopeId.value in ids.passports
    case _ => false
  }

  // ---------------------------------------------------------------------------------------------
  // Lists and doors
  // ---------------------------------------------------------------------------------------------

  datatype Record =
    | OfTenancy(tenancy: Tenancy)
    | OfProperty(property: Property)
    | OfDocument(document: Document)
    | OfProof(proof: ProofRequest)

  predicate InWorkspace(ctx: Context, r: Record) {
    match r
    case OfTenancy(t) => t.workspace == ctx.workspace
    case OfProperty(p) => p.workspace == ctx.workspace
    case OfDocument(d) => d.workspace == ctx.workspace
    case OfProof(q) => q.workspace == ctx.workspace
  }

  /**
   The `where` a list read uses: the sentinel guards the client and delegate filters, except the
   viewer's proof list.
   */
  predicate Listed(db: Db, ctx: Context, r: Record) {
    var ids := IdsFor(db, ctx);
    InWorkspace(ctx, r) &&
    match r
    case OfTenancy(t) => if ctx.Persona? then t.id in ids.tenancies else t.id in InIds(ids.tenancies)
    case OfProperty(p) =>
      if ctx.ClientViewer? then p.client == Some(ctx.client)
      else if ctx.Persona? then p.id in ids.properties else p.id in InIds(ids.properties)
    case OfDocument(d) =>
      AnyClause(if ctx.Persona? then ScopeMatchClausesContact(ids) else ScopeMatchClauses(ids), d.scopeType, d.scopeId)
    case OfProof(q) => if ctx.Delegate? then q.id in InIds(ids.proofs) else q.id in ids.proofs
  }

  /** The property row a tenancy points at belongs to the client. */
  predicate PropertyOfClient(db: Db, property: Id, client: Id) {
    exists p :: p in db.properties && p.id == property && p.client == Some(client)
  }

  /** The one by-id read door. */
  predicate Readable(db: Db, ctx: Context, r: Record) {
    var ids := IdsFor(db, ctx);
    InWorkspace(ctx, r) &&
    match r
    case OfTenancy(t) =>
      if ctx.ClientViewer? then PropertyOfClient(db, t.property, ctx.client) else t.id in ids.tenancies
    case OfProperty(p) => if ctx.ClientViewer? then p.client == Some(ctx.client) else p.id in ids.properties
    case OfDocument(d) =>
      if ctx.Persona? then ScopeBelongsToContact(ids, d.scopeType, d.scopeId)
      else ScopeBelongsToClient(ids, d.scopeType, d.scopeId)
    case OfProof(q) => q.id in ids.proofs
  }

  predicate Proper(id: Id) {
    id != "" && id != NEVER_MATCH_ID
  }

  /** Ids are keys, are never empty or the sentinel, and a tenancy sits on a property of its own workspace. */
  ghost predicate Sound(db: Db) {
    && (forall p, q | p in db.properties && q in db.properties && p.id == q.id :: p == q)
    && (forall t, u | t in db.tenancies && u in db.tenancies && t.id == u.id :: t == u)
    && (forall i, j | i in db.items && j in db.items && i.id == j.id :: i == j)
    && (forall t | t in db.tenancies :: exists p ::
      p in db.properties && p.id == t.property && p.workspace == t.workspace)
    && (forall p | p in db.properties :: Proper(p.id) && (p.client.Some? ==> Proper(p.client.value)))
    && (forall t | t in db.tenancies :: Proper(t.id))
    && (forall i | i in db.items :: Proper(i.id) && exists t ::
      t in db.tenancies && t.id == i.tenancy && t.workspace == i.workspace)
    && (forall q | q in db.proofs :: Proper(q.id) && q.scopeId != Some(NEVER_MATCH_ID))
    && (forall p | p in db.passports :: Proper(p.id))
  }

  /** A book holds properties of its workspace; a viewer has a client. */
  ghost predicate ContextSound(db: Db, ctx: Context) {
    match ctx
    case ClientViewer(_, client) => Proper(client)
    case Persona(_, _, _) => true
    case Delegate(ws, book) =>
      forall id | id in book :: exists p :: p in db.properties && p.id == id && p.workspace == ws
  }

  ghost predicate FromDb(db: Db, r: Record) {
    match r
    case OfTenancy(t) => t in db.tenancies
    case OfProperty(p) => p in db.properties
    case OfDocument(_) => true
    case OfProof(q) => q in db.proofs
  }

  lemma InIdsExact(ids: set<Id>, id: Id)
    requires id != NEVER_MATCH_ID
    ensures id in InIds(ids) <==> id in ids
  {}

  function PlainBelow(db: Db, ws: Id, clients: set<Id>, properties: set<Id>): ScopeIds {
    var tenancies := TenanciesOn(db, ws, properties);
    var items := ItemsOf(db, ws, tenancies);
    ScopeIds(clients, properties, tenancies, items, ProofsOn(db, ws, clients + properties + tenancies + items), {})
  }

  /** Without rows that mention the sentinel the guarded traversal is the plain one. */
  lemma BelowIsPlain(db: Db, ws: Id, clients: set<Id>, properties: set<Id>)
    requires Sound(db)
    ensures Below(db, ws, clients, properties) == PlainBelow(db, ws, clients, properties)
  {
    forall t | t in db.tenancies ensures t.property in InIds(properties) <==> t.property in properties {
      var p :| p in db.properties && p.id == t.property && p.workspace == t.workspace;
      InIdsExact(properties, p.id);
    }
    var tenancies := TenanciesOn(db, ws, properties);
    assert TenanciesOn(db, ws, InIds(properties)) == tenancies;
    forall i | i in db.items ensures i.tenancy in InIds(tenancies) <==> i.tenancy in tenancies {
      var t :| t in db.tenancies && t.id == i.tenancy && t.workspace == i.workspace;
      InIdsExact(tenancies, t.id);
    }
    var items := ItemsOf(db, ws, tenancies);
    assert ItemsOf(db, ws, InIds(tenancies)) == items;
    var own := clients + properties + tenancies + items;
    assert ProofsOn(db, ws, InIds(own)) == ProofsOn(db, ws, own);
  }

  predicate AllProper(ids: set<Id>) {
    forall id | id in ids :: Proper(id)
  }

  predicate ScopeIdsProper(ids: ScopeIds) {
    && AllProper(ids.clients) && AllProper(ids.properties) && AllProper(ids.tenancies)
    && AllProper(ids.items) && AllProper(ids.proofs) && AllProper(ids.passports)
  }

  lemma TraversalsAreProper(db: Db, ws: Id, from: set<Id>)
    requires Sound(db)
    ensures AllProper(PropertiesOfClients(db, ws, from)) && AllProper(TenanciesOn(db, ws, from))
    ensures AllProper(ItemsOf(db, ws, from)) && AllProper(ProofsOn(db, ws, from))
  {}

  lemma BelowIsProper(db: Db, ws: Id, clients: set<Id>, properties: set<Id>)
    requires Sound(db) && AllProper(clients) && AllProper(properties)
    ensures ScopeIdsProper(Below(db, ws, clients, properties))
  {
    var tenancies := TenanciesOn(db, ws, InIds(properties));
    var items := ItemsOf(db, ws, InIds(tenancies));
    TraversalsAreProper(db, ws, InIds(properties));
    TraversalsAreProper(db, ws, InIds(tenancies));
    TraversalsAreProper(db, ws, InIds(clients + properties + tenancies + items));
  }

  lemma TenancyPropertyIsProper(db: Db, t: Tenancy)
    requires Sound(db) && t in db.tenancies
    ensures Proper(t.property) && Proper(t.id)
  {
    var p :| p in db.properties && p.id == t.property && p.workspace == t.workspace;
  }

  lemma ContactIdsAreProper(db: Db, ws: Id, contact: Id, role: Role)
    requires Sound(db)
    ensures ScopeIdsProper(ResolveContactScopeIds(db, ws, contact, role))
  {
    var ids := ResolveContactScopeIds(db, ws, contact, role);
    forall t | t in db.tenancies ensures Proper(t.property) && Proper(t.id) { TenancyPropertyIsProper(db, t); }
    TraversalsAreProper(db, ws, OwnedBy(db, ws, contact));
    TraversalsAreProper(db, ws, ids.tenancies);
    TraversalsAreProper(db, ws, ids.properties + ids.tenancies + ids.items);
  }

  lemma IdsAreProper(db: Db, ctx: Context)
    requires Sound(db) && ContextSound(db, ctx)
    ensures ScopeIdsProper(IdsFor(db, ctx))
  {
    match ctx
    case ClientViewer(ws, client) =>
      TraversalsAreProper(db, ws, InIds({client}));
      BelowIsProper(db, ws, {client}, PropertiesOfClients(db, ws, InIds({client})));
    case Persona(ws, contact, role) => ContactIdsAreProper(db, ws, contact, role);
    case Delegate(ws, book) => BelowIsProper(db, ws, {}, book);
  }

  // ---------------------------------------------------------------------------------------------
  // The two forms agree
  // ---------------------------------------------------------------------------------------------

  lemma ClauseListIsSwitch(ids: ScopeIds, scopeType: ScopeType, scopeId: Option<Id>)
    requires ScopeIdsProper(ids) && scopeId != Some(NEVER_MATCH_ID)
    ensures AnyClause(ScopeMatchClauses(ids), scopeType, scopeId) <==> ScopeBelongsToClient(ids, scopeType, scopeId)
  {
    var clauses := ScopeMatchClauses(ids);
    assert AnyClause(clauses, scopeType, scopeId) <==>
           || (clauses[0].scopeType == scopeType && In(clauses[0].ids, scopeId))
             || (clauses[1].scopeType == scopeType && In(clauses[1].ids, scopeId))
           || (clauses[2].scopeType == scopeType && In(clauses[2].ids, scopeId))
             || (clauses[3].scopeType == scopeType && In(clauses[3].ids, scopeId))
           || (clauses[4].scopeType == scopeType && In(clauses[4].ids, scopeId));
  }

  lemma ContactClauseListIsSwitch(ids: ScopeIds, scopeType: ScopeType, scopeId: Option<Id>)
    requires ScopeIdsProper(ids)
    ensures AnyClause(ScopeMatchClausesContact(ids), scopeType, scopeId) <==>
            ScopeBelongsToContact(ids, scopeType, scopeId)
  {
    var clauses := ScopeMatchClausesContact(ids);
    assert AnyClause(clauses, scopeType, scopeId) <==>
           || (clauses[0].scopeType == scopeType && In(clauses[0].ids, scopeId))
             || (clauses[1].scopeType == scopeType && In(clauses[1].ids, scopeId))
           || (clauses[2].scopeType == scopeType && In(clauses[2].ids, scopeId))
             || (clauses[3].scopeType == scopeType && In(clauses[3].ids, scopeId))
           || (clauses[4].scopeType == scopeType && In(clauses[4].ids, scopeId));
  }

  /** A viewer's tenancy set is exactly the tenancies whose property belongs to the client. */
  lemma ViewerTenancies(db: Db, ws: Id, client: Id, t: Tenancy)
    requires Sound(db) && Proper(client) && t in db.tenancies && t.workspace == ws
    ensures t.id in ResolveClientScopeIds(db, ws, {client}).tenancies <==> PropertyOfClient(db, t.property, client)
  {
    var properties := PropertiesOfClients(db, ws, InIds({client}));
    BelowIsPlain(db, ws, {client}, properties);
    var home :| home in db.properties && home.id == t.property && home.workspace == t.workspace;
    assert t.id in TenanciesOn(db, ws, properties) <==> t.property in properties;
    assert t.property in properties <==> In({client}, home.client);
  }

  /** Does the record, or its scope, mention the sentinel? */
  predicate MentionsSentinel(r: Record) {
    match r
    case OfTenancy(t) => t.id == NEVER_MATCH_ID
    case OfProperty(p) => p.id == NEVER_MATCH_ID
    case OfDocument(d) => d.scopeId == Some(NEVER_MATCH_ID)
    case OfProof(q) => q.id == NEVER_MATCH_ID
  }

  /** For every context and kind of record the list filter matches exactly what the by-id door opens. */
  lemma ListMatchesDoor(db: Db, ctx: Context, r: Record)
    requires Sound(db) && ContextSound(db, ctx) && FromDb(db, r) && !MentionsSentinel(r)
    ensures Listed(db, ctx, r) <==> Readable(db, ctx, r)
  {
    var ids := IdsFor(db, ctx);
    IdsAreProper(db, ctx);
    match r
    case OfTenancy(t) =>
      if ctx.ClientViewer? && t.workspace == ctx.workspace { ViewerTenancies(db, ctx.workspace, ctx.client, t); }
    case OfDocument(d) =>
      if ctx.Persona? { ContactClauseListIsSwitch(ids, d.scopeType, d.scopeId); }
        else { ClauseListIsSwitch(ids, d.scopeType, d.scopeId); }
    case _ =>
  }

  /** The id set that a scope type is matched against. */
  function SetOf(ids: ScopeIds, scopeType: ScopeType): Option<set<Id>> {
    match scopeType
    case CLIENT => Some(ids.clients)
    case PROPERTY => Some(ids.properties)
    case TENANCY => Some(ids.tenancies)
    case PAYMENT_ITEM => Some(ids.items)
    case PROOF_REQUEST => Some(ids.proofs)
    case _ => None
  }

  lemma ClauseMatchesItsSet(ids: ScopeIds, scopeType: ScopeType, scopeId: Option<Id>)
    ensures AnyClause(ScopeMatchClauses(ids), scopeType, scopeId) <==>
            SetOf(ids, scopeType).Some? && In(InIds(SetOf(ids, scopeType).value), scopeId)
  {
    var clauses := ScopeMatchClauses(ids);
    assert AnyClause(clauses, scopeType, scopeId) <==>
           || (clauses[0].scopeType == scopeType && In(clauses[0].ids, scopeId))
           || (clauses[1].scopeType == scopeType && In(clauses[1].ids, scopeId))
           || (clauses[2].scopeType == scopeType && In(clauses[2].ids, scopeId))
           || (clauses[3].scopeType == scopeType && In(clauses[3].ids, scopeId))
           || (clauses[4].scopeType == scopeType && In(clauses[4].ids, scopeId));
  }

  lemma SentinelIsGuardOnly(ids: set<Id>)
    requires AllProper(ids)
    ensures NEVER_MATCH_ID in InIds(ids) <==> ids == {}
    ensures NEVER_MATCH_ID !in ids
  {
    assert !Proper(NEVER_MATCH_ID);
  }

  lemma SentinelInScope(ids: ScopeIds, scopeType: ScopeType)
    requires ScopeIdsProper(ids)
    ensures AnyClause(ScopeMatchClauses(ids), scopeType, Some(NEVER_MATCH_ID)) <==> SetOf(ids, scopeType) == Some({})
    ensures !ScopeBelongsToClient(ids, scopeType, Some(NEVER_MATCH_ID))
  {
    ClauseMatchesItsSet(ids, scopeType, Some(NEVER_MATCH_ID));
    if SetOf(ids, scopeType).Some? { SentinelIsGuardOnly(SetOf(ids, scopeType).value); }
  }

  lemma DocumentDoors(db: Db, ctx: Context, scopeType: ScopeType, scopeId: Option<Id>)
    requires !ctx.Persona?
    ensures var d, ids := OfDocument(Document(ctx.workspace, scopeType, scopeId)), IdsFor(db, ctx);
            && (Listed(db, ctx, d) <==> AnyClause(ScopeMatchClauses(ids), scopeType, scopeId))
            && (Readable(db, ctx, d) <==> ScopeBelongsToClient(ids, scopeType, scopeId))
  {}

  /**
   The sentinel must stay unused: for viewers and delegates a document scoped to it is listed if and only if
   the id set of its scope type is empty, and the by-id door never opens it.
   */
  lemma SentinelListedIffSetEmpty(db: Db, ctx: Context, scopeType: ScopeType)
    requires Sound(db) && ContextSound(db, ctx) && !ctx.Persona?
    ensures var d := OfDocument(Document(ctx.workspace, scopeType, Some(NEVER_MATCH_ID)));
            && (Listed(db, ctx, d) <==> SetOf(IdsFor(db, ctx), scopeType) == Some({}))
            && !Readable(db, ctx, d)
  {
    IdsAreProper(db, ctx);
    DocumentDoors(db, ctx, scopeType, Some(NEVER_MATCH_ID));
    SentinelInScope(IdsFor(db, ctx), scopeType);
  }

  // ---------------------------------------------------------------------------------------------
  // Payment items and deadlines follow their tenancy and property
  // ---------------------------------------------------------------------------------------------

  predicate ItemListed(db: Db, ctx: Context, i: PaymentItem) {
    i.workspace == ctx.workspace &&
    if ctx.ClientViewer? then exists t ::
      t in db.tenancies && t.id == i.tenancy && PropertyOfClient(db, t.property, ctx.client)
    else if ctx.Persona? then i.tenancy in IdsFor(db, ctx).tenancies
    else i.tenancy in InIds(IdsFor(db, ctx).tenancies)
  }

  predicate DeadlineListed(db: Db, ctx: Context, d: Deadline) {
    var ids := IdsFor(db, ctx);
    d.workspace == ctx.workspace &&
    if ctx.Delegate? then In(InIds(ids.properties), d.property) || In(InIds(ids.tenancies), d.tenancy)
    else In(ids.properties, d.property) || In(ids.tenancies, d.tenancy)
  }

  /** A payment item is listed exactly when its tenancy opens. */
  lemma ItemFollowsTenancy(db: Db, ctx: Context, i: PaymentItem, t: Tenancy)
    requires Sound(db) && ContextSound(db, ctx) && i in db.items && t in db.tenancies && t.id == i.tenancy
    requires t.workspace == i.workspace
    ensures ItemListed(db, ctx, i) <==> Readable(db, ctx, OfTenancy(t))
  {
    IdsAreProper(db, ctx);
    InIdsExact(IdsFor(db, ctx).tenancies, t.id);
  }

  /**
   A deadline of a property and a tenancy is listed exactly when one of the two opens: by its unit as
   well as by its lease.
   */
  lemma DeadlineFollowsUnitOrLease(db: Db, ctx: Context, p: Property, t: Tenancy)
    requires Sound(db) && ContextSound(db, ctx) && p in db.properties && t in db.tenancies && p.workspace == t.workspace
    requires t.property == p.id
    ensures DeadlineListed(db, ctx, Deadline(p.workspace, Some(p.id), Some(t.id))) <==>
            Readable(db, ctx, OfProperty(p)) || Readable(db, ctx, OfTenancy(t))
  {
    IdsAreProper(db, ctx);
    var ids := IdsFor(db, ctx);
    InIdsExact(ids.properties, p.id);
    InIdsExact(ids.tenancies, t.id);
    if ctx.ClientViewer? && p.workspace == ctx.workspace {
      ViewerTenancies(db, ctx.workspace, ctx.client, t);
      assert p.id in PropertiesOfClients(db, ctx.workspace, InIds({ctx.client})) <==> p.client == Some(ctx.client);
    }
  }

  // ---------------------------------------------------------------------------------------------
  // Books
  // ---------------------------------------------------------------------------------------------

  function Union(a: ScopeIds, b: ScopeIds): ScopeIds {
    ScopeIds(a.clients + b.clients, a.properties + b.properties, a.tenancies + b.tenancies, a.items + b.items,
             a.proofs + b.proofs, a.passports + b.passports)
  }

  lemma TenanciesDistribute(db: Db, ws: Id, a: set<Id>, b: set<Id>)
    ensures TenanciesOn(db, ws, a + b) == TenanciesOn(db, ws, a) + TenanciesOn(db, ws, b)
  {}

  lemma ItemsDistribute(db: Db, ws: Id, a: set<Id>, b: set<Id>)
    ensures ItemsOf(db, ws, a + b) == ItemsOf(db, ws, a) + ItemsOf(db, ws, b)
  {}

  lemma ProofsDistribute(db: Db, ws: Id, a: set<Id>, b: set<Id>)
    ensures ProofsOn(db, ws, a + b) == ProofsOn(db, ws, a) + ProofsOn(db, ws, b)
  {}

  lemma PropertiesDistribute(db: Db, ws: Id, a: set<Id>, b: set<Id>)
    ensures PropertiesOfClients(db, ws, a + b) == PropertiesOfClients(db, ws, a) + PropertiesOfClients(db, ws, b)
  {}

  lemma OwnIdsRegroup(a: ScopeIds, b: ScopeIds)
    ensures (a.clients + b.clients) + (a.properties + b.properties) + (a.tenancies + b.tenancies) + (a.items + b.items)
            == (a.clients + a.properties + a.tenancies + a.items) + (b.clients + b.properties + b.tenancies + b.items)
  {}

  lemma PlainDistributes(db: Db, ws: Id, c: set<Id>, d: set<Id>, a: set<Id>, b: set<Id>)
    ensures PlainBelow(db, ws, c + d, a + b) == Union(PlainBelow(db, ws, c, a), PlainBelow(db, ws, d, b))
  {
    var x, y := PlainBelow(db, ws, c, a), PlainBelow(db, ws, d, b);
    TenanciesDistribute(db, ws, a, b);
    ItemsDistribute(db, ws, x.tenancies, y.tenancies);
    OwnIdsRegroup(x, y);
    ProofsDistribute(db, ws, c + a + x.tenancies + x.items, d + b + y.tenancies + y.items);
  }

  lemma BelowDistributes(db: Db, ws: Id, c: set<Id>, d: set<Id>, a: set<Id>, b: set<Id>)
    requires Sound(db)
    ensures Below(db, ws, c + d, a + b) == Union(Below(db, ws, c, a), Below(db, ws, d, b))
  {
    BelowIsPlain(db, ws, c, a);
    BelowIsPlain(db, ws, d, b);
    BelowIsPlain(db, ws, c + d, a + b);
    PlainDistributes(db, ws, c, d, a, b);
  }

  /**
   What a delegate sees with two books is what it sees with each; nothing appears or is lost, even
   when one is empty.
   */
  lemma BooksDistribute(db: Db, ws: Id, a: set<Id>, b: set<Id>)
    requires Sound(db)
    ensures ResolveDelegateScopeIds(db, ws, a + b) == Union(ResolveDelegateScopeIds(db, ws, a),
      ResolveDelegateScopeIds(db, ws, b))
  {
    var none: set<Id> := {};
    BelowDistributes(db, ws, none, none, a, b);
    assert none + none == none;
  }

  /** So does a set of clients. */
  lemma ClientsDistribute(db: Db, ws: Id, a: set<Id>, b: set<Id>)
    requires Sound(db)
    ensures ResolveClientScopeIds(db, ws, a + b) == Union(ResolveClientScopeIds(db, ws, a),
      ResolveClientScopeIds(db, ws, b))
  {
    var pa, pb := PropertiesOfClients(db, ws, a), PropertiesOfClients(db, ws, b);
    ClientsArePlain(db, ws, a);
    ClientsArePlain(db, ws, b);
    ClientsArePlain(db, ws, a + b);
    PropertiesDistribute(db, ws, a, b);
    BelowDistributes(db, ws, a, b, pa, pb);
  }

  lemma ClientsArePlain(db: Db, ws: Id, clients: set<Id>)
    requires Sound(db)
    ensures PropertiesOfClients(db, ws, InIds(clients)) == PropertiesOfClients(db, ws, clients)
  {}

  // ---------------------------------------------------------------------------------------------
  // Landlords
  // ---------------------------------------------------------------------------------------------

  /**
   On a unit the landlord does not own, being landlord of record opens that tenancy, its payment items
   and its documents, and nothing of another lease on the unit.
   */
  lemma LandlordOfRecordSeesOneLease(db: Db, ws: Id, contact: Id, p: Property, t: Tenancy)
    requires Sound(db) && p in db.properties && p.owner != Some(contact)
    requires t in db.tenancies && t.property == p.id && t.workspace == ws == p.workspace
    ensures var ids := ResolveContactScopeIds(db, ws, contact, LANDLORD);
            && (t.id in ids.tenancies <==> LandlordOfRecord(t, ws, contact))
            && (forall i | i in db.items && i.workspace == ws && i.tenancy == t.id ::
              i.id in ids.items <==> LandlordOfRecord(t, ws, contact))
            && (ScopeBelongsToContact(ids, TENANCY, Some(t.id)) <==> LandlordOfRecord(t, ws, contact))
  {
    assert Proper(t.id);
    assert p.id !in OwnedBy(db, ws, contact);
    assert t.id !in TenanciesOn(db, ws, OwnedBy(db, ws, contact));
  }

  lemma LandlordPropertiesOnUnit(db: Db, ws: Id, contact: Id, p: Property)
    requires Sound(db) && p in db.properties && p.workspace == ws && p.owner != Some(contact)
    ensures p.id in ResolveContactScopeIds(db, ws, contact, LANDLORD).properties <==>
            exists t :: t in db.tenancies && LandlordOfRecord(t, ws, contact) && t.property == p.id
  {
    assert p.id !in OwnedBy(db, ws, contact);
  }

  /**
   Deadlines are the exception: on a unit the landlord does not own, a deadline that carries the unit is
   listed if and only if the landlord is of record on some tenancy of the unit, whichever lease it belongs to.
   */
  lemma UnitDeadlineListedIffOfRecordOnUnit(db: Db, ws: Id, contact: Id, p: Property, other: Tenancy)
    requires Sound(db) && p in db.properties && p.workspace == ws && p.owner != Some(contact)
    requires other in db.tenancies && other.property == p.id && other.workspace == ws
    ensures DeadlineListed(db, Persona(ws, contact, LANDLORD), Deadline(ws, Some(p.id), Some(other.id))) <==>
            exists t :: t in db.tenancies && LandlordOfRecord(t, ws, contact) && t.property == p.id
  {
    LandlordPropertiesOnUnit(db, ws, contact, p);
    LandlordOfRecordSeesOneLease(db, ws, contact, p, other);
    if LandlordOfRecord(other, ws, contact) { assert other.property == p.id; }
  }

  /** One that carries only its lease is listed if and only if the landlord is of record on that lease. */
  lemma LeaseDeadlineListedIffOfRecordOnLease(db: Db, ws: Id, contact: Id, p: Property, other: Tenancy)
    requires Sound(db) && p in db.properties && p.workspace == ws && p.owner != Some(contact)
    requires other in db.tenancies && other.property == p.id && other.workspace == ws
    ensures DeadlineListed(db, Persona(ws, contact, LANDLORD), Deadline(ws, None, Some(other.id))) <==>
            LandlordOfRecord(other, ws, contact)
  {
    LandlordOfRecordSeesOneLease(db, ws, contact, p, other);
  }

  /** An owner sees every lease on the unit, archived ones too. */
  lemma OwnerSeesEveryLease(db: Db, ws: Id, contact: Id, p: Property, t: Tenancy)
    requires p in db.properties && p.workspace == ws && p.owner == Some(contact)
    requires t in db.tenancies && t.workspace == ws && t.property == p.id
    ensures Readable(db, Persona(ws, contact, LANDLORD), OfTenancy(t))
    ensures Readable(db, Persona(ws, contact, LANDLORD), OfProperty(p))
  {
    assert p.id in OwnedBy(db, ws, contact);
    assert t.id in TenanciesOn(db, ws, OwnedBy(db, ws, contact));
  }

  /** A tenant sees a tenancy exactly while it is theirs and not archived. */
  lemma TenantSeesCurrentLeases(db: Db, ws: Id, contact: Id, t: Tenancy)
    requires Sound(db) && t in db.tenancies && t.workspace == ws
    ensures Readable(db, Persona(ws, contact, TENANT), OfTenancy(t)) <==> CurrentTenant(t, ws, contact)
  {}

  // ---------------------------------------------------------------------------------------------
  // The delegate's write door
  // ---------------------------------------------------------------------------------------------

  /** The property a scope resolves to, if it is one of the scopes that resolve to a property. */
  ghost predicate ResolvesTo(db: Db, ws: Id, scopeType: ScopeType, scopeId: Option<Id>, property: Id) {
    Truthy(scopeId) &&
    match scopeType
    case PROPERTY =>
      scopeId.value == property && exists p :: p in db.properties && p.workspace == ws && p.id == property
    case TENANCY =>
      exists t :: t in db.tenancies && t.workspace == ws && t.id == scopeId.value && t.property == property
    case PAYMENT_ITEM =>
      exists i, t ::
        i in db.items && i.workspace == ws && i.id == scopeId.value && t in db.tenancies && t.id == i.tenancy
          && t.property == property
    case _ => false
  }

  ghost predicate MayWrite(db: Db, ws: Id, book: set<Id>, scopeType: ScopeType, scopeId: Option<Id>) {
    exists property :: property in book && ResolvesTo(db, ws, scopeType, scopeId, property)
  }

  lemma MayWriteTenancy(db: Db, ws: Id, book: set<Id>, id: Id)
    requires id != ""
    ensures MayWrite(db, ws, book, TENANCY, Some(id)) <==> id in TenanciesOn(db, ws, book)
  {
    if id in TenanciesOn(db, ws, book) {
      var t :| t in db.tenancies && t.workspace == ws && t.property in book && t.id == id;
      assert ResolvesTo(db, ws, TENANCY, Some(id), t.property);
    }
  }

  lemma MayWriteItem(db: Db, ws: Id, book: set<Id>, id: Id)
    requires Sound(db) && id != ""
    ensures MayWrite(db, ws, book, PAYMENT_ITEM, Some(id)) <==> id in ItemsOf(db, ws, TenanciesOn(db, ws, book))
  {
    var tenancies := TenanciesOn(db, ws, book);
    if id in ItemsOf(db, ws, tenancies) {
      var i :| i in db.items && i.workspace == ws && i.tenancy in tenancies && i.id == id;
      var t :| t in db.tenancies && t.workspace == ws && t.property in book && t.id == i.tenancy;
      assert ResolvesTo(db, ws, PAYMENT_ITEM, Some(id), t.property);
    }
    if MayWrite(db, ws, book, PAYMENT_ITEM, Some(id)) {
      var property :| property in book && ResolvesTo(db, ws, PAYMENT_ITEM, Some(id), property);
      var i, t :|
        && i in db.items && i.workspace == ws && i.id == id
        && t in db.tenancies && t.id == i.tenancy && t.property == property;
      assert t.id in tenancies;
    }
  }

  lemma MayWriteProperty(db: Db, ws: Id, book: set<Id>, id: Id)
    requires ContextSound(db, Delegate(ws, book)) && id != ""
    ensures MayWrite(db, ws, book, PROPERTY, Some(id)) <==> id in book
  {
    if id in book { assert ResolvesTo(db, ws, PROPERTY, Some(id), id); }
  }

  /** A delegate may write under a property, tenancy or payment item exactly when it may read there. */
  lemma WriteDoorMatchesReadDoor(db: Db, ws: Id, book: set<Id>, scopeType: ScopeType, scopeId: Option<Id>)
    requires Sound(db) && ContextSound(db, Delegate(ws, book))
    requires scopeType in {PROPERTY, TENANCY, PAYMENT_ITEM}
    ensures MayWrite(db, ws, book, scopeType, scopeId) <==>
            ScopeBelongsToClient(ResolveDelegateScopeIds(db, ws, book), scopeType, scopeId)
  {
    BelowIsPlain(db, ws, {}, book);
    if Truthy(scopeId) {
      match scopeType
      case PROPERTY => MayWriteProperty(db, ws, book, scopeId.value);
      case TENANCY => MayWriteTenancy(db, ws, book, scopeId.value);
      case PAYMENT_ITEM => MayWriteItem(db, ws, book, scopeId.value);
    }
  }
}
