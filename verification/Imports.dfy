/**
 Import batches: what a commit creates for each row, what it remembers about it, and how a rollback
 undoes it. Rows of a table are named by their position, so a fresh row is the next position. One
 workspace; names and Emirates IDs are already normalised.
 */
module Imports {
  import opened Common
  import opened Cheques
  import Payments
  import PaymentDesk
  import Deadlines
  import Risk

  datatype ContactKind = OWNER | TENANT | OTHER_KIND

  datatype Contact = Contact(kind: ContactKind, name: string, emiratesId: Option<string>, archived: bool)

  datatype Address = Address(community: string, building: Option<string>, unitNo: Option<string>)

  datatype Property = Property(address: Address, client: Option<nat>, owner: Option<nat>, archived: bool)

  datatype Tenancy = Tenancy(
    property: nat,
    landlord: Option<nat>,
    tenant: Option<nat>,
    ejariNo: Option<string>,
    startDay: int,
    endDay: int,
    annualRent: int,
    noticePeriodDays: int,
    contractDoc: Option<nat>,
    noticeGateDay: Option<int>,
    archived: bool)

  datatype ScopeKind = AT_TENANCY | AT_PROPERTY | ELSEWHERE

  datatype Scope = Scope(kind: ScopeKind, id: Option<nat>)

  /** The models of the schema with a field that names a contact. */
  datatype Model =
    | MembershipModel
    | WorkspaceInviteModel
    | PropertyModel
    | TenancyModel
    | ProofRequestModel
    | TaskModel
    | ApprovalModel
    | NotificationMessageModel
    | MaintenanceCaseModel
    | QuoteModel
    | InvoiceModel
    | OfferModel

  /** A row of one of the other models; `live` is whether it is not archived, for the models that can be. */
  datatype Referrer = Referrer(model: Model, contacts: set<nat>, live: bool)

  datatype RowStatus = PENDING | ACCEPTED | REJECTED | CONFLICT

  datatype BatchStatus = UPLOADED | MAPPED | REVIEWING | COMMITTED | ROLLED_BACK

  datatype Source = EXCEL | DOCUMENTS

  datatype Choice = NoChoice | CreateNew | Explicit(id: nat)

  datatype Party = Party(choice: Choice, name: Option<string>, emiratesId: Option<string>)

  datatype RowData = RowData(
    address: Address,
    client: Option<nat>,
    property: Option<nat>,
    ejariNo: Option<string>,
    startDay: int,
    endDay: int,
    annualRent: int,
    noticePeriodDays: Option<int>,
    landlord: Party,
    tenant: Party,
    chequeCount: int,
    items: seq<PaymentItemInput>)

  datatype Ref =
    | ContactRef(id: nat)
    | PropertyRef(id: nat)
    | TenancyRef(id: nat)
    | ItemRef(id: nat)
    | DocumentScopeRef(id: nat, prior: Scope)

  /** Why a row conflicts. */
  datatype Reason = RepeatedInBatch | OnRecordAlready | OverlappingDates

  datatype Row = Row(data: RowData, status: RowStatus, reason: Option<Reason>, refs: seq<Ref>)

  datatype Batch = Batch(source: Source, fileDoc: Option<nat>, status: BatchStatus, rows: seq<Row>)

  datatype State = State(
    contacts: seq<Contact>,
    properties: seq<Property>,
    tenancies: seq<Tenancy>,
    items: seq<Option<Payments.PaymentItem>>,
    documents: seq<Scope>,
    deadlines: seq<Deadlines.Deadline>,
    referrers: seq<Referrer>,
    clients: set<nat>,
    book: set<nat>,
    batches: seq<Batch>,
    risk: Risk.Desk)

  datatype Actor = Operator | Agent

  datatype Refusal = NotFound | Unprocessable | Uncaught

  /** A state with the references recorded on the way to it. */
  datatype Progress = Progress(state: State, refs: seq<Ref>)

  // ---------------------------------------------------------------------------------------------
  // Parties
  // ---------------------------------------------------------------------------------------------

  datatype Key = ByEmiratesId(value: string) | ByName(value: string)

  predicate Matches(c: Contact, kind: ContactKind, key: Key) {
    !c.archived && c.kind == kind && if key.ByName? then c.name == key.value else c.emiratesId == Some(key.value)
  }

  function LiveMatches(contacts: seq<Contact>, kind: ContactKind, key: Key): (r: seq<nat>)
    ensures forall i :: i in r <==> 0 <= i < |contacts| && Matches(contacts[i], kind, key)
    ensures forall i, j | 0 <= i < j < |r| :: r[i] < r[j]
    ensures |r| <= |contacts|
    decreases |contacts|
  {
    if contacts == [] then []
    else
      var last := |contacts| - 1;
      var rest := LiveMatches(contacts[..last], kind, key);
      assert forall i | 0 <= i < |rest| :: rest[i] in rest;
      rest + (if Matches(contacts[last], kind, key) then [last] else [])
  }

  /** A live contact of the kind that bears the name, or the Emirates ID; an empty key is borne by nobody. */
  predicate Bears(c: Contact, kind: ContactKind, key: Option<string>, byName: bool) {
    && key.Some? && key.value != "" && !c.archived && c.kind == kind
    && (if byName then c.name == key.value else c.emiratesId == key)
  }

  predicate OnlyBearer(contacts: seq<Contact>, kind: ContactKind, key: Option<string>, byName: bool, i: nat) {
    && i < |contacts| && Bears(contacts[i], kind, key, byName)
    && forall j | 0 <= j < |contacts| && j != i :: !Bears(contacts[j], kind, key, byName)
  }

  /** The one live contact of this kind with this key, if there is exactly one. */
  function TheOne(contacts: seq<Contact>, kind: ContactKind, key: Option<string>, byName: bool): (r: Option<nat>)
    ensures r.Some? ==> r.value < |contacts| && !contacts[r.value].archived && contacts[r.value].kind == kind
    ensures forall i: nat :: r == Some(i) <==> OnlyBearer(contacts, kind, key, byName, i)
  {
    if !Truthy(key) then None
    else
      var found := LiveMatches(contacts, kind, if byName then ByName(key.value) else ByEmiratesId(key.value));
      BearersFound(contacts, kind, key, byName, found);
      if |found| == 1 then Some(found[0]) else None
  }

  lemma {:induction false} GrowsByOne(found: seq<nat>, k: nat)
    requires k < |found| && forall a, b | 0 <= a < b < |found| :: found[a] < found[b]
    ensures found[k] >= found[0] + k
    decreases k
  {
    if k == 0 {
    } else {
      GrowsByOne(found, k - 1);
      assert found[k - 1] < found[k];
    }
  }

  lemma ConstantIsOne(found: seq<nat>, i: nat)
    requires i in found && forall k | 0 <= k < |found| :: found[k] == i
    requires forall a, b | 0 <= a < b < |found| :: found[a] < found[b]
    ensures found == [i]
  {
    GrowsByOne(found, |found| - 1);
  }

  lemma BearersFound(contacts: seq<Contact>, kind: ContactKind, key: Option<string>, byName: bool, found: seq<nat>)
    requires Truthy(key)
    requires found == LiveMatches(contacts, kind, if byName then ByName(key.value) else ByEmiratesId(key.value))
    ensures |found| == 1 ==> OnlyBearer(contacts, kind, key, byName, found[0])
    ensures forall i: nat | OnlyBearer(contacts, kind, key, byName, i) :: found == [i]
  {
    forall i | 0 <= i < |contacts| ensures Bears(contacts[i], kind, key, byName) <==> i in found {}
    if |found| == 1 { assert found[0] in found; }
    forall i: nat | OnlyBearer(contacts, kind, key, byName, i) ensures found == [i] {
      assert i in found;
      forall k | 0 <= k < |found| ensures found[k] == i {
        assert found[k] in found;
      }
      ConstantIsOne(found, i);
    }
  }

  datatype Resolved = Resolved(state: State, contact: Option<nat>, refs: seq<Ref>)

  function Bound(s: State, c: Option<nat>): Resolved {
    Resolved(s, c, [])
  }

  /** Explicit choice, unique Emirates ID, unique name, else a new contact when there is a name. */
  function ResolveParty(s: State, kind: ContactKind, party: Party): (r: Result<Resolved, Refusal>)
    ensures r.Ok? ==> r.value.state == s.(contacts := r.value.state.contacts)
  {
    if party.choice.Explicit? then
      (if party.choice.id >= |s.contacts| || s.contacts[party.choice.id].archived then Err(NotFound)
       else if s.contacts[party.choice.id].kind != kind then Err(Unprocessable)
       else Ok(Bound(s, Some(party.choice.id))))
    else
      var byId := if party.choice.CreateNew? then None else TheOne(s.contacts, kind, party.emiratesId, false);
      var byName := if party.choice.CreateNew? then None else TheOne(s.contacts, kind, party.name, true);
      if byId.Some? then Ok(Bound(s, byId))
      else if byName.Some? then Ok(Bound(s, byName))
      else if !Truthy(party.name) then Ok(Bound(s, None))
      else
        var id := |s.contacts|;
        var emiratesId := if Truthy(party.emiratesId) then party.emiratesId else None;
        Ok(Resolved(s.(contacts := s.contacts + [Contact(kind, party.name.value, emiratesId, false)]), Some(id),
          [ContactRef(id)]))
  }

  // ---------------------------------------------------------------------------------------------
  // One row
  // ---------------------------------------------------------------------------------------------

  predicate ServesClient(s: State, client: nat) {
    exists p | p in s.book :: p < |s.properties| && s.properties[p].client == Some(client)
  }

  predicate MayUseClient(s: State, actor: Actor, client: Option<nat>) {
    client.None? || if actor.Agent? then ServesClient(s, client.value) else client.value in s.clients
  }

  function PropertyAt(properties: seq<Property>, address: Address, from: nat): (r: Option<nat>)
    requires from <= |properties|
    ensures r.Some? ==>
              from <= r.value < |properties| && !properties[r.value].archived && properties[r.value].address == address
    ensures r.None? ==>
              forall p | from <= p < |properties| :: properties[p].archived || properties[p].address != address
    decreases |properties| - from
  {
    if from == |properties| then None
    else if !properties[from].archived && properties[from].address == address then Some(from)
    else PropertyAt(properties, address, from + 1)
  }

  /** A live property, by id when one was chosen and is live, else by address. */
  function FindProperty(s: State, data: RowData): (r: Option<nat>)
    ensures r.Some? ==> r.value < |s.properties| && !s.properties[r.value].archived
  {
    if data.property.Some? && data.property.value < |s.properties| && !s.properties[data.property.value].archived then
      data.property
    else PropertyAt(s.properties, data.address, 0)
  }

  datatype Placed = Placed(state: State, property: nat, refs: seq<Ref>)

  /** Reuse or create the property. An agent's new property joins the book; an existing one must be in it. */
  function PlaceProperty(s: State, actor: Actor, data: RowData, owner: Option<nat>): (r: Result<Placed, Refusal>)
    ensures r.Ok? ==> r.value.state == s.(properties := r.value.state.properties, book := r.value.state.book)
  {
    var found := FindProperty(s, data);
    if found.Some? then
      (if actor.Agent? && found.value !in s.book then Err(NotFound) else Ok(Placed(s, found.value, [])))
    else
      var id := |s.properties|;
      Ok(Placed(s.(properties := s.properties + [Property(data.address, data.client, owner, false)],
                   book := if actor.Agent? then s.book + {id} else s.book), id, [PropertyRef(id)]))
  }

  predicate AttachedElsewhere(doc: Scope, t: nat, p: nat) {
    (doc.kind == AT_TENANCY && doc.id != Some(t)) || (doc.kind == AT_PROPERTY && doc.id != Some(p))
  }

  /** Point the contract document at the new tenancy, unless it already hangs on another record. */
  function AttachDocument(s: State, doc: Option<nat>, t: nat, p: nat): Result<Progress, Refusal> {
    if doc.None? || doc.value >= |s.documents| then Ok(Progress(s, []))
    else if AttachedElsewhere(s.documents[doc.value], t, p) then Err(Unprocessable)
    else
      Ok(Progress(s.(documents := s.documents[doc.value := Scope(AT_TENANCY, Some(t))]),
                  [DocumentScopeRef(doc.value, s.documents[doc.value])]))
  }

  function ResolveSchedule(data: RowData): seq<PaymentItemInput> {
    if data.items != [] then data.items
    else if data.chequeCount <= 0 then []
    else EvenChequeSchedule(data.startDay, data.endDay, data.annualRent, data.chequeCount)
  }

  /** Items one by one; a sequence number used twice breaks the unique index. */
  function AddItems(s: State, t: nat, xs: seq<PaymentItemInput>): (r: Result<Progress, Refusal>)
    ensures r.Ok? ==>
              r.value.state.batches == s.batches && r.value.state.tenancies == s.tenancies
                && r.value.state.risk == s.risk
    decreases |xs|
  {
    if xs == [] then Ok(Progress(s, []))
    else if Payments.HeldSeq(s.items, t, xs[0].seqNo) then Err(Uncaught)
    else
      var id := |s.items|;
      var rest := AddItems(s.(items := s.items + [Payments.NewItem(t, xs[0])]), t, xs[1..]);
      if rest.Err? then rest else Ok(Progress(rest.value.state, [ItemRef(id)] + rest.value.refs))
  }

  const DEFAULT_NOTICE_DAYS := 90

  function NewTenancy(data: RowData, property: nat, landlord: Option<nat>, tenant: Option<nat>,
      contractDoc: Option<nat>): Tenancy {
    Tenancy(property, landlord, tenant, data.ejariNo, data.startDay, data.endDay, data.annualRent,
            if data.noticePeriodDays.Some? then data.noticePeriodDays.value else DEFAULT_NOTICE_DAYS,
            contractDoc, None, false)
  }

  /** Tenancy, document and items of a row whose parties and property are known. */
  function AddLease(s: State, data: RowData, property: nat, landlord: Option<nat>, tenant: Option<nat>,
      doc: Option<nat>): (r: Result<Progress, Refusal>)
    ensures r.Ok? ==> r.value.state.batches == s.batches && r.value.state.risk == s.risk
    ensures r.Ok? ==> |r.value.state.tenancies| == |s.tenancies| + 1
  {
    var t := |s.tenancies|;
    var s1 := s.(tenancies := s.tenancies + [NewTenancy(data, property, landlord, tenant, doc)]);
    var attached := AttachDocument(s1, doc, t, property);
    if attached.Err? then attached
    else
      var added := AddItems(attached.value.state, t, ResolveSchedule(data));
      if added.Err? then added
      else Ok(Progress(added.value.state, [TenancyRef(t)] + attached.value.refs + added.value.refs))
  }

  function ResolveParties(s: State, data: RowData): (r: Result<(Resolved, Resolved), Refusal>)
    ensures r.Ok? ==> r.value.1.state == s.(contacts := r.value.1.state.contacts)
  {
    var landlord := ResolveParty(s, OWNER, data.landlord);
    if landlord.Err? then Err(landlord.error)
    else
      var tenant := ResolveParty(landlord.value.state, TENANT, data.tenant);
      if tenant.Err? then Err(tenant.error) else Ok((landlord.value, tenant.value))
  }

  function CommitRow(s: State, actor: Actor, data: RowData, doc: Option<nat>): (r: Result<Progress, Refusal>)
    ensures r.Ok? ==> r.value.state.batches == s.batches && r.value.state.risk == s.risk
    ensures r.Ok? ==> |r.value.state.tenancies| == |s.tenancies| + 1
  {
    var parties := ResolveParties(s, data);
    if parties.Err? then Err(parties.error)
    else
      var (landlord, tenant) := parties.value;
      if !MayUseClient(tenant.state, actor, data.client) then Err(NotFound)
      else
        var placed := PlaceProperty(tenant.state, actor, data, landlord.contact);
        if placed.Err? then Err(placed.error)
        else
          var leased := AddLease(placed.value.state, data, placed.value.property, landlord.contact, tenant.contact,
            doc);
          if leased.Err? then leased
          else Ok(Progress(leased.value.state, landlord.refs + tenant.refs + placed.value.refs + leased.value.refs))
  }

  // ---------------------------------------------------------------------------------------------
  // Commit
  // ---------------------------------------------------------------------------------------------

  predicate Committable(row: Row) {
    row.status == PENDING || row.status == ACCEPTED
  }

  function SetRow(s: State, b: nat, i: nat, row: Row): State
    requires b < |s.batches| && i < |s.batches[b].rows|
  {
    s.(batches := s.batches[b := s.batches[b].(rows := s.batches[b].rows[i := row])])
  }

  function ContractDocOf(batch: Batch): Option<nat> {
    if batch.source == DOCUMENTS then batch.fileDoc else None
  }

  /** The rows from i on, in order; the references of a row are stored on it. */
  function CommitRows(s: State, actor: Actor, b: nat, i: nat): (r: Result<State, Refusal>)
    requires b < |s.batches| && i <= |s.batches[b].rows|
    ensures r.Ok? ==> |r.value.batches| == |s.batches| && |s.tenancies| <= |r.value.tenancies| && r.value.risk == s.risk
    decreases |s.batches[b].rows| - i
  {
    var rows := s.batches[b].rows;
    if i == |rows| then Ok(s)
    else if !Committable(rows[i]) then CommitRows(s, actor, b, i + 1)
    else
      var done := CommitRow(s, actor, rows[i].data, ContractDocOf(s.batches[b]));
      if done.Err? then Err(done.error)
      else CommitRows(SetRow(done.value.state, b, i, rows[i].(status := ACCEPTED, refs := done.value.refs)), actor, b,
        i + 1)
  }

  function SetStatus(s: State, b: nat, status: BatchStatus): State
    requires b < |s.batches|
  {
    s.(batches := s.batches[b := s.batches[b].(status := status)])
  }

  /** The transaction: everything or nothing. */
  function CommitTx(s: State, actor: Actor, b: nat): (r: Result<State, Refusal>)
    ensures r.Ok? ==> b < |s.batches| && |s.tenancies| <= |r.value.tenancies| && r.value.risk == s.risk
  {
    if b >= |s.batches| then Err(NotFound)
    else if s.batches[b].status == COMMITTED || s.batches[b].status == ROLLED_BACK then Err(Unprocessable)
    else
      var done := CommitRows(s, actor, b, 0);
      if done.Err? then done else Ok(SetStatus(done.value, b, COMMITTED))
  }

  // Afterwards, outside the transaction: the deadlines of each new tenancy.

  function DatesOf(s: State, t: nat): Deadlines.Tenancy
    requires t < |s.tenancies|
  {
    Deadlines.Tenancy(t, s.tenancies[t].endDay, s.tenancies[t].noticePeriodDays, s.tenancies[t].archived,
      s.tenancies[t].noticeGateDay)
  }

  function Regenerated(s: State, t: nat): Result<State, Refusal>
    requires t < |s.tenancies|
  {
    var r := Deadlines.Regenerate(s.deadlines, DatesOf(s, t), PaymentDesk.ItemsOf(s.items, t));
    if r.Err? then Err(Uncaught)
    else
      Ok(s.(deadlines := r.value.0,
        tenancies := s.tenancies[t := s.tenancies[t].(noticeGateDay := r.value.1.noticeGateDay)]))
  }

  /** A tenancy as the risk rules read it. */
  function FactsOf(s: State, t: nat): Risk.TenancyFacts
    requires t < |s.tenancies|
  {
    var row := s.tenancies[t];
    PaymentDesk.FactsOf(PaymentDesk.TenancyRecord(DatesOf(s, t), row.ejariNo, row.annualRent), s.items, s.deadlines)
  }

  /** The deadlines of one tenancy, then its risk. */
  function Rearmed(s: State, t: nat, today: int): Result<State, Refusal>
    requires t < |s.tenancies|
  {
    var r := Regenerated(s, t);
    if r.Err? then r else Ok(r.value.(risk := Risk.EvaluateTenancy(r.value.risk, FactsOf(r.value, t), today)))
  }

  datatype Outcome = Outcome(state: State, reply: Result<(), Refusal>)

  /** New tenancies from t on; a bad notice period stops the derivations and leaves the commit in place. */
  function Derive(s: State, t: nat, today: int): Outcome
    requires t <= |s.tenancies|
    decreases |s.tenancies| - t
  {
    if t == |s.tenancies| then Outcome(s, Ok(()))
    else
      var r := Rearmed(s, t, today);
      if r.Err? then Outcome(s, Err(r.error)) else Derive(r.value, t + 1, today)
  }

  // Last, the overlap flags of rows that were held back: on some live lease of some property of that name.

  function PropertyNamed(properties: seq<Property>, address: Address, from: nat): (r: Option<nat>)
    requires from <= |properties|
    ensures r.Some? ==> from <= r.value < |properties|
    decreases |properties| - from
  {
    if from == |properties| then None
    else
      var here := properties[from].address;
      if here.community == address.community && here.unitNo == address.unitNo then Some(from)
      else PropertyNamed(properties, address, from + 1)
  }

  function LeaseOn(tenancies: seq<Tenancy>, property: nat, from: nat): (r: Option<nat>)
    requires from <= |tenancies|
    ensures r.Some? ==>
              from <= r.value < |tenancies| && tenancies[r.value].property == property && !tenancies[r.value].archived
    ensures r.None? ==> forall t | from <= t < |tenancies| :: tenancies[t].property != property || tenancies[t].archived
    decreases |tenancies| - from
  {
    if from == |tenancies| then None
    else if tenancies[from].property == property && !tenancies[from].archived then Some(from)
    else LeaseOn(tenancies, property, from + 1)
  }

  function OverlappedLease(s: State, row: Row): Option<nat> {
    var property := PropertyNamed(s.properties, row.data.address, 0);
    if row.status != CONFLICT || row.reason != Some(OverlappingDates) || property.None? then None
    else LeaseOn(s.tenancies, property.value, 0)
  }

  function FlagOverlaps(s: State, rows: seq<Row>): State
    decreases |rows|
  {
    if rows == [] then s
    else
      var lease := OverlappedLease(s, rows[0]);
      var s1 := if lease.None? then s
                else s.(risk := Risk.Raise(s.risk, Risk.Scope(Risk.TENANCY, lease.value), Risk.TENANCY_OVERLAP));
      FlagOverlaps(s1, rows[1..])
  }

  /** After the transaction: derive for each new tenancy, then flag the overlaps among the rows as they were read. */
  function AfterCommit(s: State, rows: seq<Row>, from: nat, today: int): Outcome
    requires from <= |s.tenancies|
  {
    var derived := Derive(s, from, today);
    if derived.reply.Err? then derived else Outcome(FlagOverlaps(derived.state, rows), Ok(()))
  }

  function CommitImportBatch(s: State, actor: Actor, b: nat, today: int): Outcome {
    var done := CommitTx(s, actor, b);
    if done.Err? then Outcome(s, Err(done.error))
    else AfterCommit(done.value, s.batches[b].rows, |s.tenancies|, today)
  }

  // ---------------------------------------------------------------------------------------------
  // Rollback
  // ---------------------------------------------------------------------------------------------

  predicate RowRefers(s: State, model: Model, c: nat) {
    match model
    case PropertyModel =>
      exists p | 0 <= p < |s.properties| :: s.properties[p].owner == Some(c) && !s.properties[p].archived
    case TenancyModel =>
      exists t | 0 <= t < |s.tenancies| ::
        (s.tenancies[t].landlord == Some(c) || s.tenancies[t].tenant == Some(c)) && !s.tenancies[t].archived
    case _ =>
      exists r | 0 <= r < |s.referrers| ::
        s.referrers[r].model == model && c in s.referrers[r].contacts && s.referrers[r].live
  }

  /** The models with a live row that names the contact. */
  function FindContactReferences(s: State, c: nat): set<Model> {
    set model: Model | RowRefers(s, model, c)
  }

  /** Every record a rollback updates is there. A document may be gone; it is then skipped. */
  predicate RefExists(s: State, ref: Ref) {
    match ref
    case ContactRef(id) => id < |s.contacts|
    case PropertyRef(id) => id < |s.properties|
    case TenancyRef(id) => id < |s.tenancies|
    case ItemRef(id) => id < |s.items| && s.items[id].Some?
    case DocumentScopeRef(_, _) => true
  }

  function Cancelled(row: Option<Payments.PaymentItem>): Option<Payments.PaymentItem> {
    if row.Some? then Some(row.value.(status := Payments.CANCELLED)) else None
  }

  /** First pass: contacts wait for the second. */
  function UndoRef(s: State, ref: Ref): State
    requires RefExists(s, ref)
  {
    match ref
    case ContactRef(_) => s
    case PropertyRef(id) => s.(properties := s.properties[id := s.properties[id].(archived := true)])
    case TenancyRef(id) =>
      s.(tenancies := s.tenancies[id := s.tenancies[id].(archived := true)],
        deadlines := Deadlines.CancelAllOpen(s.deadlines, id))
    case ItemRef(id) => s.(items := s.items[id := Cancelled(s.items[id])])
    case DocumentScopeRef(id, prior) => if id < |s.documents| then s.(documents := s.documents[id := prior]) else s
  }

  predicate RefsExist(s: State, refs: seq<Ref>) {
    forall i | 0 <= i < |refs| :: RefExists(s, refs[i])
  }

  function UndoRefs(s: State, refs: seq<Ref>): State
    requires RefsExist(s, refs)
    decreases |refs|
  {
    if refs == [] then s
    else
      var s1 := UndoRef(s, refs[0]);
      assert forall i | 0 <= i < |refs[1..]| :: refs[1..][i] == refs[i + 1] && RefExists(s, refs[i + 1]);
      UndoRefs(s1, refs[1..])
  }

  function AllRefs(rows: seq<Row>): seq<Ref>
    decreases |rows|
  {
    if rows == [] then [] else rows[0].refs + AllRefs(rows[1..])
  }

  /** Second pass: a contact is archived unless a live row still names it. */
  function ReleaseContact(s: State, ref: Ref): State
    requires RefExists(s, ref)
  {
    if ref.ContactRef? && FindContactReferences(s, ref.id) == {} then
      s.(contacts := s.contacts[ref.id := s.contacts[ref.id].(archived := true)])
    else s
  }

  function ReleaseContacts(s: State, refs: seq<Ref>): State
    requires RefsExist(s, refs)
    decreases |refs|
  {
    if refs == [] then s
    else
      var s1 := ReleaseContact(s, refs[0]);
      assert forall i | 0 <= i < |refs[1..]| :: refs[1..][i] == refs[i + 1] && RefExists(s, refs[i + 1]);
      ReleaseContacts(s1, refs[1..])
  }

  lemma {:induction false} UndoKeepsRefs(s: State, refs: seq<Ref>, more: seq<Ref>)
    requires RefsExist(s, refs) && RefsExist(s, more)
    ensures RefsExist(UndoRefs(s, refs), more) && UndoRefs(s, refs).batches == s.batches
    decreases |refs|
  {
    if refs == [] {
    } else {
      var s1 := UndoRef(s, refs[0]);
      assert RefsExist(s1, refs[1..]) by {
        assert forall i | 0 <= i < |refs[1..]| :: refs[1..][i] == refs[i + 1] && RefExists(s, refs[i + 1]);
      }
      UndoKeepsRefs(s1, refs[1..], more);
    }
  }

  function Undone(s: State, refs: seq<Ref>): State
    requires RefsExist(s, refs)
  {
    UndoKeepsRefs(s, refs, refs);
    ReleaseContacts(UndoRefs(s, refs), refs)
  }

  function RollbackImportBatch(s: State, b: nat): (out: Outcome) {
    if b >= |s.batches| then Outcome(s, Err(NotFound))
    else if s.batches[b].status != COMMITTED then Outcome(s, Err(Unprocessable))
    else
      var refs := AllRefs(s.batches[b].rows);
      if !RefsExist(s, refs) then Outcome(s, Err(Uncaught))
      else
        var undone := Undone(s, refs);
        Outcome(undone.(batches := s.batches[b := s.batches[b].(status := ROLLED_BACK)]), Ok(()))
  }
}
