/** Rolling back: what the references of a batch are good for, and what a rollback leaves behind. */
module ImportUndo {
  import opened Common
  import opened Cheques
  import opened Imports
  import Payments
  import PaymentDesk
  import Deadlines
  import Risk

  // ---------------------------------------------------------------------------------------------
  // What a commit leaves behind is exactly what it remembers
  // ---------------------------------------------------------------------------------------------

  /** References point at rows that exist, and a document hung on a tenancy hangs on an existing one. */
  ghost predicate WellFormed(s: State) {
    && (forall p | 0 <= p < |s.properties| && s.properties[p].owner.Some? :: s.properties[p].owner.value < |s.contacts|)
    && (forall t | 0 <= t < |s.tenancies| ::
      PartyExists(s, s.tenancies[t].landlord) && PartyExists(s, s.tenancies[t].tenant))
    && (forall r, c | 0 <= r < |s.referrers| && c in s.referrers[r].contacts :: c < |s.contacts|)
    && (forall d | 0 <= d < |s.documents| && s.documents[d].kind == AT_TENANCY && s.documents[d].id.Some? ::
          s.documents[d].id.value < |s.tenancies|)
    && (forall i | 0 <= i < |s.deadlines| && s.deadlines[i].tenancy.Some? ::
      s.deadlines[i].tenancy.value < |s.tenancies|)
  }

  predicate PartyExists(s: State, c: Option<nat>) {
    c.Some? ==> c.value < |s.contacts|
  }

  /** Old rows are as they were, new ones are remembered, and nothing else is. */
  ghost predicate GrewContacts(a: seq<Contact>, b: seq<Contact>, refs: seq<Ref>) {
    a <= b && forall i: nat :: ContactRef(i) in refs <==> |a| <= i < |b|
  }

  ghost predicate GrewProperties(a: seq<Property>, b: seq<Property>, refs: seq<Ref>) {
    a <= b && forall i: nat :: PropertyRef(i) in refs <==> |a| <= i < |b|
  }

  ghost predicate GrewTenancies(a: seq<Tenancy>, b: seq<Tenancy>, refs: seq<Ref>) {
    a <= b && forall i: nat :: TenancyRef(i) in refs <==> |a| <= i < |b|
  }

  ghost predicate GrewItems(a: seq<Option<Payments.PaymentItem>>, b: seq<Option<Payments.PaymentItem>>,
      refs: seq<Ref>) {
    && a <= b && (forall i: nat :: ItemRef(i) in refs <==> |a| <= i < |b|)
    && (forall i | |a| <= i < |b| :: b[i].Some?)
  }

  /** A moved document was free before, hangs on a tenancy now, and its old scope is remembered. */
  ghost predicate MovedDocuments(a: seq<Scope>, b: seq<Scope>, refs: seq<Ref>) {
    && |a| == |b|
    && (forall d: nat, x | DocumentScopeRef(d, x) in refs ::
      d < |a| && a[d] == x && x.kind != AT_TENANCY && b[d].kind == AT_TENANCY)
    && (forall d | 0 <= d < |a| && DocumentScopeRef(d, a[d]) !in refs :: b[d] == a[d])
  }

  ghost predicate Tracks(s: State, s': State, refs: seq<Ref>) {
    && GrewContacts(s.contacts, s'.contacts, refs)
    && GrewProperties(s.properties, s'.properties, refs)
    && GrewTenancies(s.tenancies, s'.tenancies, refs)
    && GrewItems(s.items, s'.items, refs)
    && MovedDocuments(s.documents, s'.documents, refs)
    && s'.deadlines == s.deadlines && s'.referrers == s.referrers
  }

  lemma GrewTrans(a: State, b: State, c: State, p: seq<Ref>, q: seq<Ref>)
    requires Tracks(a, b, p) && Tracks(b, c, q)
    ensures GrewContacts(a.contacts, c.contacts, p + q) && GrewProperties(a.properties, c.properties, p + q)
    ensures GrewTenancies(a.tenancies, c.tenancies, p + q) && GrewItems(a.items, c.items, p + q)
  {}

  lemma MovedTrans(a: seq<Scope>, b: seq<Scope>, c: seq<Scope>, p: seq<Ref>, q: seq<Ref>)
    requires MovedDocuments(a, b, p) && MovedDocuments(b, c, q)
    ensures MovedDocuments(a, c, p + q)
  {
    forall d: nat, x | DocumentScopeRef(d, x) in p + q
      ensures d < |a| && a[d] == x && x.kind != AT_TENANCY && c[d].kind == AT_TENANCY
    {
      if DocumentScopeRef(d, x) in p {
        assert DocumentScopeRef(d, b[d]) !in q;
      } else {
        assert b[d] == x && b[d].kind != AT_TENANCY;
        assert DocumentScopeRef(d, a[d]) !in p;
      }
    }
    forall d | 0 <= d < |a| && DocumentScopeRef(d, a[d]) !in p + q ensures c[d] == a[d] {
      assert b[d] == a[d];
    }
  }

  lemma TracksTrans(a: State, b: State, c: State, p: seq<Ref>, q: seq<Ref>)
    requires Tracks(a, b, p) && Tracks(b, c, q)
    ensures Tracks(a, c, p + q)
  {
    GrewTrans(a, b, c, p, q);
    MovedTrans(a.documents, b.documents, c.documents, p, q);
  }

  lemma PartyTracks(s: State, kind: ContactKind, party: Party)
    requires WellFormed(s) && ResolveParty(s, kind, party).Ok?
    ensures var r := ResolveParty(s, kind, party).value;
            Tracks(s, r.state, r.refs) && WellFormed(r.state) && PartyExists(r.state, r.contact)
  {}

  lemma PlaceTracks(s: State, actor: Actor, data: RowData, owner: Option<nat>)
    requires WellFormed(s) && PartyExists(s, owner) && PlaceProperty(s, actor, data, owner).Ok?
    ensures var r := PlaceProperty(s, actor, data, owner).value;
            Tracks(s, r.state, r.refs) && WellFormed(r.state) && r.state.contacts == s.contacts
  {}

  lemma TenancyTracks(s: State, row: Tenancy)
    requires WellFormed(s) && PartyExists(s, row.landlord) && PartyExists(s, row.tenant)
    ensures var s' := s.(tenancies := s.tenancies + [row]);
            Tracks(s, s', [TenancyRef(|s.tenancies|)]) && WellFormed(s')
  {}

  lemma AttachTracks(s: State, doc: Option<nat>, t: nat, p: nat)
    requires WellFormed(s) && AttachDocument(s, doc, t, p).Ok?
    requires t < |s.tenancies| && forall d | 0 <= d < |s.documents| :: s.documents[d] != Scope(AT_TENANCY, Some(t))
    ensures var r := AttachDocument(s, doc, t, p).value;
            Tracks(s, r.state, r.refs) && WellFormed(r.state) && r.state.tenancies == s.tenancies
  {}

  lemma {:induction false} ItemsTrack(s: State, t: nat, xs: seq<PaymentItemInput>)
    requires WellFormed(s) && AddItems(s, t, xs).Ok?
    ensures var r := AddItems(s, t, xs).value; Tracks(s, r.state, r.refs) && WellFormed(r.state)
    decreases |xs|
  {
    if xs == [] {
    } else {
      var s1 := s.(items := s.items + [Payments.NewItem(t, xs[0])]);
      assert Tracks(s, s1, [ItemRef(|s.items|)]);
      ItemsTrack(s1, t, xs[1..]);
      var r := AddItems(s1, t, xs[1..]).value;
      TracksTrans(s, s1, r.state, [ItemRef(|s.items|)], r.refs);
    }
  }

  lemma LeaseTracks(s: State, data: RowData, property: nat, landlord: Option<nat>, tenant: Option<nat>,
      doc: Option<nat>)
    requires WellFormed(s) && PartyExists(s, landlord) && PartyExists(s, tenant)
    requires AddLease(s, data, property, landlord, tenant, doc).Ok?
    ensures var r := AddLease(s, data, property, landlord, tenant, doc).value;
            Tracks(s, r.state, r.refs) && WellFormed(r.state)
  {
    var t := |s.tenancies|;
    var row := NewTenancy(data, property, landlord, tenant, doc);
    var s1 := s.(tenancies := s.tenancies + [row]);
    TenancyTracks(s, row);
    var attached := AttachDocument(s1, doc, t, property).value;
    AttachTracks(s1, doc, t, property);
    var added := AddItems(attached.state, t, ResolveSchedule(data)).value;
    ItemsTrack(attached.state, t, ResolveSchedule(data));
    TracksTrans(s, s1, attached.state, [TenancyRef(t)], attached.refs);
    TracksTrans(s, attached.state, added.state, [TenancyRef(t)] + attached.refs, added.refs);
  }

  lemma RowTracks(s: State, actor: Actor, data: RowData, doc: Option<nat>)
    requires WellFormed(s) && CommitRow(s, actor, data, doc).Ok?
    ensures var r := CommitRow(s, actor, data, doc).value; Tracks(s, r.state, r.refs) && WellFormed(r.state)
  {
    var landlord := ResolveParty(s, OWNER, data.landlord).value;
    PartyTracks(s, OWNER, data.landlord);
    var tenant := ResolveParty(landlord.state, TENANT, data.tenant).value;
    PartyTracks(landlord.state, TENANT, data.tenant);
    var placed := PlaceProperty(tenant.state, actor, data, landlord.contact).value;
    PlaceTracks(tenant.state, actor, data, landlord.contact);
    var leased := AddLease(placed.state, data, placed.property, landlord.contact, tenant.contact, doc).value;
    LeaseTracks(placed.state, data, placed.property, landlord.contact, tenant.contact, doc);
    TracksTrans(s, landlord.state, tenant.state, landlord.refs, tenant.refs);
    TracksTrans(s, tenant.state, placed.state, landlord.refs + tenant.refs, placed.refs);
    TracksTrans(s, placed.state, leased.state, landlord.refs + tenant.refs + placed.refs, leased.refs);
  }

  /** No row carries references before its batch is committed. */
  ghost predicate Unrecorded(rows: seq<Row>, from: nat) {
    forall k | from <= k < |rows| :: rows[k].refs == []
  }

  /** Rows that a commit passes over carry none, at least. */
  ghost predicate SkippedUnrecorded(rows: seq<Row>, from: nat) {
    forall k | from <= k < |rows| && !Committable(rows[k]) :: rows[k].refs == []
  }

  lemma AllRefsAt(rows: seq<Row>, i: nat)
    requires i < |rows|
    ensures AllRefs(rows[i..]) == rows[i].refs + AllRefs(rows[i + 1..])
  {
    assert rows[i..][0] == rows[i] && rows[i..][1..] == rows[i + 1..];
  }

  lemma TracksNothing(s: State)
    ensures Tracks(s, s, [])
  {}

  /** The rows before i are as they were; the others hold all the references of what was created. */
  ghost predicate RowsDone(s: State, r: State, b: nat, i: nat) {
    && b < |s.batches| && |r.batches| == |s.batches|
    && i <= |s.batches[b].rows| && |r.batches[b].rows| == |s.batches[b].rows|
    && r.batches[b].rows[..i] == s.batches[b].rows[..i]
    && Tracks(s, r, AllRefs(r.batches[b].rows[i..]))
  }

  lemma RowBefore(was: seq<Row>, now: seq<Row>, i: nat)
    requires i < |was| == |now| && now[..i + 1] == was[..i + 1]
    ensures now[i] == was[i] && now[..i] == was[..i]
  {
    assert now[i] == now[..i + 1][i] && was[i] == was[..i + 1][i];
    assert now[..i] == now[..i + 1][..i] && was[..i] == was[..i + 1][..i];
  }

  lemma RowSkipped(s: State, r: State, b: nat, i: nat)
    requires RowsDone(s, r, b, i + 1) && s.batches[b].rows[i].refs == []
    ensures RowsDone(s, r, b, i)
  {
    RowBefore(s.batches[b].rows, r.batches[b].rows, i);
    AllRefsAt(r.batches[b].rows, i);
    assert [] + AllRefs(r.batches[b].rows[i + 1..]) == AllRefs(r.batches[b].rows[i + 1..]);
  }

  lemma RowTaken(s: State, s1: State, r: State, b: nat, i: nat, row: Row)
    requires b < |s.batches| == |s1.batches| && i < |s.batches[b].rows|
    requires s1.batches[b].rows == s.batches[b].rows[i := row]
    requires Tracks(s, s1, row.refs) && RowsDone(s1, r, b, i + 1)
    ensures RowsDone(s, r, b, i)
  {
    RowBefore(s1.batches[b].rows, r.batches[b].rows, i);
    assert s1.batches[b].rows[..i] == s.batches[b].rows[..i];
    AllRefsAt(r.batches[b].rows, i);
    TracksTrans(s, s1, r, row.refs, AllRefs(r.batches[b].rows[i + 1..]));
  }

  /** The state after row i, and the row with its references. */
  function AfterRow(s: State, actor: Actor, b: nat, i: nat): (r: Result<(State, Row), Refusal>)
    requires b < |s.batches| && i < |s.batches[b].rows|
    ensures r.Ok? ==>
              |r.value.0.batches| == |s.batches| && r.value.0.batches[b].rows == s.batches[b].rows[i := r.value.1]
  {
    var row := s.batches[b].rows[i];
    var done := CommitRow(s, actor, row.data, ContractDocOf(s.batches[b]));
    if done.Err? then Err(done.error)
    else
      var taken := row.(status := ACCEPTED, refs := done.value.refs);
      Ok((SetRow(done.value.state, b, i, taken), taken))
  }

  lemma CommitRowsUnfolds(s: State, actor: Actor, b: nat, i: nat)
    requires b < |s.batches| && i < |s.batches[b].rows| && Committable(s.batches[b].rows[i])
    requires CommitRows(s, actor, b, i).Ok?
    ensures AfterRow(s, actor, b, i).Ok?
    ensures CommitRows(s, actor, b, i) == CommitRows(AfterRow(s, actor, b, i).value.0, actor, b, i + 1)
  {}

  lemma AfterRowTracks(s: State, actor: Actor, b: nat, i: nat)
    requires WellFormed(s) && b < |s.batches| && i < |s.batches[b].rows| && AfterRow(s, actor, b, i).Ok?
    ensures var (s1, row) := AfterRow(s, actor, b, i).value; WellFormed(s1) && Tracks(s, s1, row.refs)
  {
    RowTracks(s, actor, s.batches[b].rows[i].data, ContractDocOf(s.batches[b]));
  }

  lemma {:induction false} RowsTrack(s: State, actor: Actor, b: nat, i: nat)
    requires WellFormed(s) && b < |s.batches| && i <= |s.batches[b].rows| && SkippedUnrecorded(s.batches[b].rows, i)
    requires CommitRows(s, actor, b, i).Ok?
    ensures WellFormed(CommitRows(s, actor, b, i).value) && RowsDone(s, CommitRows(s, actor, b, i).value, b, i)
    decreases |s.batches[b].rows| - i
  {
    if i == |s.batches[b].rows| {
      TracksNothing(s);
    } else if !Committable(s.batches[b].rows[i]) {
      RowsTrack(s, actor, b, i + 1);
      RowSkipped(s, CommitRows(s, actor, b, i).value, b, i);
    } else {
      CommitRowsUnfolds(s, actor, b, i);
      AfterRowTracks(s, actor, b, i);
      var (s1, row) := AfterRow(s, actor, b, i).value;
      RowsTrack(s1, actor, b, i + 1);
      RowTaken(s, s1, CommitRows(s1, actor, b, i + 1).value, b, i, row);
    }
  }

  // ---------------------------------------------------------------------------------------------
  // Derivations
  // ---------------------------------------------------------------------------------------------

  /** Deadlines of the tenancies from t on, and their gates: nothing else. */
  ghost predicate OnlyDerives(s: State, s': State, t: nat) {
    && s'.contacts == s.contacts && s'.properties == s.properties && s'.items == s.items && s'.documents == s.documents
    && s'.referrers == s.referrers && s'.batches == s.batches
    && |s'.tenancies| == |s.tenancies| && (forall u | 0 <= u < |s.tenancies| && u < t ::
      s'.tenancies[u] == s.tenancies[u])
    && (forall u | 0 <= u < |s.tenancies| ::
      s'.tenancies[u].landlord == s.tenancies[u].landlord && s'.tenancies[u].tenant == s.tenancies[u].tenant)
    && DeadlinesFrom(s.deadlines, s'.deadlines, t)
  }

  ghost predicate DeadlinesFrom(a: seq<Deadlines.Deadline>, b: seq<Deadlines.Deadline>, t: nat) {
    && |a| <= |b|
    && (forall i | 0 <= i < |a| && (a[i].tenancy.None? || a[i].tenancy.value < t) :: b[i] == a[i])
    && (forall i | 0 <= i < |b| && (i >= |a| || !(a[i].tenancy.None? || a[i].tenancy.value < t)) ::
          b[i].tenancy.Some? && b[i].tenancy.value >= t)
  }

  lemma TouchesIsFrom(a: seq<Deadlines.Deadline>, b: seq<Deadlines.Deadline>, u: nat, t: nat)
    requires t <= u && Deadlines.OnlyTouches(a, b, u)
    ensures DeadlinesFrom(a, b, t)
  {
    forall i | 0 <= i < |b| && (i >= |a| || !(a[i].tenancy.None? || a[i].tenancy.value < t))
      ensures b[i].tenancy.Some? && b[i].tenancy.value >= t
    {
      if i < |a| && a[i].tenancy != Some(u) { assert b[i] == a[i]; }
    }
  }

  ghost predicate DeadlinesBelow(ds: seq<Deadlines.Deadline>, n: nat) {
    forall i | 0 <= i < |ds| && ds[i].tenancy.Some? :: ds[i].tenancy.value < n
  }

  lemma FromTrans(a: seq<Deadlines.Deadline>, b: seq<Deadlines.Deadline>, c: seq<Deadlines.Deadline>, t: nat)
    requires DeadlinesFrom(a, b, t) && DeadlinesFrom(b, c, t)
    ensures DeadlinesFrom(a, c, t)
  {}

  lemma RegeneratedOnlyDerives(s: State, u: nat, t: nat)
    requires t <= u < |s.tenancies| && DeadlinesBelow(s.deadlines, |s.tenancies|) && Regenerated(s, u).Ok?
    ensures OnlyDerives(s, Regenerated(s, u).value, t)
    ensures DeadlinesBelow(Regenerated(s, u).value.deadlines, |s.tenancies|)
  {
    Deadlines.RegenerateTouchesOneTenancy(s.deadlines, DatesOf(s, u), PaymentDesk.ItemsOf(s.items, u));
    TouchesIsFrom(s.deadlines, Regenerated(s, u).value.deadlines, u, t);
  }

  lemma DerivesTrans(a: State, b: State, c: State, t: nat)
    requires OnlyDerives(a, b, t) && OnlyDerives(b, c, t)
    ensures OnlyDerives(a, c, t)
  {
    FromTrans(a.deadlines, b.deadlines, c.deadlines, t);
  }

  lemma {:induction false} DeriveOnlyDerives(s: State, u: nat, t: nat, today: int)
    requires t <= u <= |s.tenancies| && DeadlinesBelow(s.deadlines, |s.tenancies|)
    ensures OnlyDerives(s, Derive(s, u, today).state, t)
    ensures DeadlinesBelow(Derive(s, u, today).state.deadlines, |s.tenancies|)
    decreases |s.tenancies| - u
  {
    if u == |s.tenancies| || Rearmed(s, u, today).Err? {
    } else {
      var s1 := Rearmed(s, u, today).value;
      RegeneratedOnlyDerives(s, u, t);
      assert OnlyDerives(s, s1, t);
      DeriveOnlyDerives(s1, u + 1, t, today);
      DerivesTrans(s, s1, Derive(s, u, today).state, t);
    }
  }

  /** Raising overlap flags touches the risk desk alone. */
  lemma {:induction false} OverlapsTouchRiskOnly(s: State, rows: seq<Row>)
    ensures FlagOverlaps(s, rows) == s.(risk := FlagOverlaps(s, rows).risk)
    decreases |rows|
  {
    if rows == [] {
    } else {
      var lease := OverlappedLease(s, rows[0]);
      var s1 := if lease.None? then s
                else s.(risk := Risk.Raise(s.risk, Risk.Scope(Risk.TENANCY, lease.value), Risk.TENANCY_OVERLAP));
      OverlapsTouchRiskOnly(s1, rows[1..]);
    }
  }

  // ---------------------------------------------------------------------------------------------
  // What a rollback does, row by row
  // ---------------------------------------------------------------------------------------------

  function Archived(s: State, p: nat, refs: seq<Ref>): Property
    requires p < |s.properties|
  {
    if PropertyRef(p) in refs then s.properties[p].(archived := true) else s.properties[p]
  }

  lemma TailExists(s: State, refs: seq<Ref>)
    requires refs != [] && RefsExist(s, refs)
    ensures RefExists(s, refs[0]) && RefsExist(UndoRef(s, refs[0]), refs[1..])
    ensures forall x :: x in refs <==> x == refs[0] || x in refs[1..]
  {
    assert forall i | 0 <= i < |refs[1..]| :: refs[1..][i] == refs[i + 1] && RefExists(s, refs[i + 1]);
    assert refs == [refs[0]] + refs[1..];
  }

  lemma {:induction false} UndoProperties(s: State, refs: seq<Ref>)
    requires RefsExist(s, refs)
    ensures |UndoRefs(s, refs).properties| == |s.properties|
    ensures forall p | 0 <= p < |s.properties| :: UndoRefs(s, refs).properties[p] == Archived(s, p, refs)
    decreases |refs|
  {
    if refs == [] {
    } else {
      TailExists(s, refs);
      UndoProperties(UndoRef(s, refs[0]), refs[1..]);
    }
  }

  lemma {:induction false} UndoTenancies(s: State, refs: seq<Ref>)
    requires RefsExist(s, refs)
    ensures |UndoRefs(s, refs).tenancies| == |s.tenancies|
    ensures forall t | 0 <= t < |s.tenancies| :: UndoRefs(s, refs).tenancies[t] ==
              if TenancyRef(t) in refs then s.tenancies[t].(archived := true) else s.tenancies[t]
    decreases |refs|
  {
    if refs == [] {
    } else {
      TailExists(s, refs);
      UndoTenancies(UndoRef(s, refs[0]), refs[1..]);
    }
  }

  lemma {:induction false} UndoItems(s: State, refs: seq<Ref>)
    requires RefsExist(s, refs)
    ensures |UndoRefs(s, refs).items| == |s.items|
    ensures forall i | 0 <= i < |s.items| ::
              UndoRefs(s, refs).items[i] == if ItemRef(i) in refs then Cancelled(s.items[i]) else s.items[i]
    decreases |refs|
  {
    if refs == [] {
    } else {
      TailExists(s, refs);
      UndoItems(UndoRef(s, refs[0]), refs[1..]);
    }
  }

  predicate ClosedBy(d: Deadlines.Deadline, refs: seq<Ref>) {
    d.status == Deadlines.Open && d.tenancy.Some? && TenancyRef(d.tenancy.value) in refs
  }

  lemma {:induction false} UndoDeadlines(s: State, refs: seq<Ref>)
    requires RefsExist(s, refs)
    ensures |UndoRefs(s, refs).deadlines| == |s.deadlines|
    ensures forall i | 0 <= i < |s.deadlines| :: UndoRefs(s, refs).deadlines[i] ==
              if ClosedBy(s.deadlines[i], refs) then s.deadlines[i].(status := Deadlines.Cancelled) else s.deadlines[i]
    decreases |refs|
  {
    if refs == [] {
    } else {
      TailExists(s, refs);
      UndoDeadlines(UndoRef(s, refs[0]), refs[1..]);
    }
  }

  ghost predicate OnePrior(refs: seq<Ref>, d: nat, prior: Scope) {
    forall x | DocumentScopeRef(d, x) in refs :: x == prior
  }

  lemma {:induction false} UndoDocuments(s: State, refs: seq<Ref>, d: nat, prior: Scope)
    requires RefsExist(s, refs) && d < |s.documents| && OnePrior(refs, d, prior)
    ensures |UndoRefs(s, refs).documents| == |s.documents|
    ensures UndoRefs(s, refs).documents[d] == if DocumentScopeRef(d, prior) in refs then prior else s.documents[d]
    decreases |refs|
  {
    if refs == [] {
    } else {
      TailExists(s, refs);
      UndoDocuments(UndoRef(s, refs[0]), refs[1..], d, prior);
    }
  }

  lemma {:induction false} UndoLeavesContacts(s: State, refs: seq<Ref>)
    requires RefsExist(s, refs)
    ensures var u := UndoRefs(s, refs);
            u.contacts == s.contacts && u.referrers == s.referrers && u.batches == s.batches
              && |u.documents| == |s.documents|
    decreases |refs|
  {
    if refs == [] {
    } else {
      TailExists(s, refs);
      UndoLeavesContacts(UndoRef(s, refs[0]), refs[1..]);
    }
  }

  // Contacts

  ghost predicate Referenced(s: State, c: nat) {
    exists model :: RowRefers(s, model, c)
  }

  /** An empty answer means that no live row of any of the models names the contact. */
  lemma NoReferencesMeansNone(s: State, c: nat)
    ensures FindContactReferences(s, c) == {} <==> !Referenced(s, c)
  {
    forall model | RowRefers(s, model, c) ensures model in FindContactReferences(s, c) {}
  }

  ghost predicate SameReferrers(s: State, s': State) {
    s'.properties == s.properties && s'.tenancies == s.tenancies && s'.referrers == s.referrers
  }

  lemma SameReferrersSameAnswer(s: State, s': State, c: nat)
    requires SameReferrers(s, s')
    ensures Referenced(s', c) <==> Referenced(s, c)
  {
    assert forall model :: RowRefers(s', model, c) <==> RowRefers(s, model, c);
  }

  lemma {:induction false} ReleaseEffect(s: State, refs: seq<Ref>)
    requires RefsExist(s, refs)
    ensures var r := ReleaseContacts(s, refs);
            && SameReferrers(s, r) && r.items == s.items && r.documents == s.documents && r.deadlines == s.deadlines
            && |r.contacts| == |s.contacts|
            && forall c | 0 <= c < |s.contacts| :: r.contacts[c] ==
                 if ContactRef(c) in refs && !Referenced(s, c) then s.contacts[c].(archived := true) else s.contacts[c]
    decreases |refs|
  {
    if refs == [] {
    } else {
      var s1 := ReleaseContact(s, refs[0]);
      assert refs == [refs[0]] + refs[1..];
      assert RefsExist(s1, refs[1..]) by {
        assert forall i | 0 <= i < |refs[1..]| :: refs[1..][i] == refs[i + 1] && RefExists(s, refs[i + 1]);
      }
      ReleaseEffect(s1, refs[1..]);
      if refs[0].ContactRef? { NoReferencesMeansNone(s, refs[0].id); }
      forall c | 0 <= c < |s.contacts| ensures Referenced(s1, c) <==> Referenced(s, c) {
        SameReferrersSameAnswer(s, s1, c);
      }
    }
  }

  /**
   In any state, whatever happened since the commit: a rollback archives a contact the batch created
   exactly when no live row of the checked models names it afterwards; no other contact changes.
   */
  lemma RollbackKeepsReferencedContacts(s: State, b: nat)
    requires RollbackImportBatch(s, b).reply.Ok?
    ensures var s', refs := RollbackImportBatch(s, b).state, AllRefs(s.batches[b].rows);
            && |s'.contacts| == |s.contacts|
            && (forall c | 0 <= c < |s.contacts| :: s'.contacts[c].archived <==>
                  s.contacts[c].archived || (ContactRef(c) in refs && !Referenced(s', c)))
            && (forall c | 0 <= c < |s.contacts| ::
              s'.contacts[c].(archived := s.contacts[c].archived) == s.contacts[c])
            && (forall c | 0 <= c < |s.contacts| && !s.contacts[c].archived && s'.contacts[c].archived ::
              !Referenced(s', c))
  {
    var refs := AllRefs(s.batches[b].rows);
    var u := UndoRefs(s, refs);
    UndoKeepsRefs(s, refs, refs);
    UndoLeavesContacts(s, refs);
    ReleaseEffect(u, refs);
    var s' := RollbackImportBatch(s, b).state;
    forall c | 0 <= c < |s.contacts| ensures Referenced(s', c) <==> Referenced(u, c) {
      SameReferrersSameAnswer(u, s', c);
    }
  }
}
