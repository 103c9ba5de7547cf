/** Deadlines derived from a tenancy and its payment items, regenerated by upserts. */
module Deadlines {
  import opened Common
  import opened Dates

  datatype Kind =
    | NOTICE_GATE
    | CONTRACT_EXPIRY
    | RENEWAL_DATE
    | CHEQUE_DUE
    | CHEQUE_FOLLOWUP
    | SERVICE_CHARGE_DUE
    | INSURANCE_EXPIRY
    | DOCUMENT_EXPIRY
    | APPROVAL_DUE
    | TENANT_RESPONSE_DUE
    | EJARI_RENEWAL
    | PERMIT_EXPIRY
    | CUSTOM

  predicate Derived(kind: Kind) {
    kind == NOTICE_GATE || kind == CONTRACT_EXPIRY || kind == RENEWAL_DATE || kind == CHEQUE_DUE
  }

  datatype Status = Open | Done | Missed | Cancelled

  /** `discriminator` is the payment item of a cheque deadline; `manual` marks a hand-made calendar entry. */
  datatype Deadline = Deadline(
    tenancy: Option<nat>,
    kind: Kind,
    dueDay: int,
    status: Status,
    discriminator: Option<nat>,
    manual: bool)

  datatype Tenancy = Tenancy(id: nat, endDay: int, noticePeriodDays: int, archived: bool, noticeGateDay: Option<int>)

  /** A payment item as the regeneration reads it. */
  datatype Item = Item(id: nat, dueDay: int, cancelled: bool)

  predicate Matches(d: Deadline, t: nat, kind: Kind, disc: Option<nat>) {
    d.tenancy == Some(t) && d.kind == kind && d.status == Open && (disc.Some? ==> d.discriminator == disc)
  }

  function FirstOpenFrom(ds: seq<Deadline>, t: nat, kind: Kind, disc: Option<nat>, from: nat): (r: Option<nat>)
    requires from <= |ds|
    ensures r.Some? ==> from <= r.value < |ds| && Matches(ds[r.value], t, kind, disc)
    ensures r.None? ==> forall i | from <= i < |ds| :: !Matches(ds[i], t, kind, disc)
    decreases |ds| - from
  {
    if from == |ds| then None
    else if Matches(ds[from], t, kind, disc) then Some(from)
    else FirstOpenFrom(ds, t, kind, disc, from + 1)
  }

  function FreshDeadline(t: nat, kind: Kind, dueDay: int, disc: Option<nat>): Deadline {
    Deadline(Some(t), kind, dueDay, Open, disc, false)
  }

  function Upsert(ds: seq<Deadline>, t: nat, kind: Kind, dueDay: int, disc: Option<nat>): seq<Deadline> {
    var existing := FirstOpenFrom(ds, t, kind, disc, 0);
    if existing.Some? then ds[existing.value := FreshDeadline(t, kind, dueDay, disc)]
    else ds + [FreshDeadline(t, kind, dueDay, disc)]
  }

  function UpsertItems(ds: seq<Deadline>, t: nat, items: seq<Item>): seq<Deadline>
    decreases |items|
  {
    if items == [] then ds
    else if items[0].cancelled then UpsertItems(ds, t, items[1..])
    else UpsertItems(Upsert(ds, t, CHEQUE_DUE, items[0].dueDay, Some(items[0].id)), t, items[1..])
  }

  predicate Live(items: seq<Item>, id: nat) {
    exists i | 0 <= i < |items| :: items[i].id == id && !items[i].cancelled
  }

  function DropStale(d: Deadline, t: nat, items: seq<Item>): Deadline {
    if Matches(d, t, CHEQUE_DUE, None) && d.discriminator.Some? && !Live(items, d.discriminator.value)
    then d.(status := Cancelled) else d
  }

  function DropAllStale(ds: seq<Deadline>, t: nat, items: seq<Item>): (out: seq<Deadline>)
    ensures |out| == |ds|
  {
    seq(|ds|, i requires 0 <= i < |ds| => DropStale(ds[i], t, items))
  }

  function CancelOpen(d: Deadline, t: nat): Deadline {
    if d.tenancy == Some(t) && d.status == Open then d.(status := Cancelled) else d
  }

  function CancelAllOpen(ds: seq<Deadline>, t: nat): (out: seq<Deadline>)
    ensures |out| == |ds|
  {
    seq(|ds|, i requires 0 <= i < |ds| => CancelOpen(ds[i], t))
  }

  function UpsertTerm(ds: seq<Deadline>, t: nat, endDay: int, gate: int): seq<Deadline> {
    Upsert(Upsert(Upsert(ds, t, NOTICE_GATE, gate, None), t, CONTRACT_EXPIRY, endDay, None), t, RENEWAL_DATE,
      RenewalDate(endDay), None)
  }

  function Regenerate(ds: seq<Deadline>, tenancy: Tenancy, items: seq<Item>)
    : Result<(seq<Deadline>, Tenancy), DateError>
  {
    if tenancy.archived then Ok((CancelAllOpen(ds, tenancy.id), tenancy))
    else
      var gate := NoticeGate(tenancy.endDay, tenancy.noticePeriodDays);
      if gate.Err? then Err(gate.error)
      else
        Ok((DropAllStale(UpsertItems(UpsertTerm(ds, tenancy.id, tenancy.endDay, gate.value), tenancy.id, items),
          tenancy.id, items),
            tenancy.(noticeGateDay := Some(gate.value))))
  }

  // Slots: what a derived open deadline stands for.

  predicate DerivedOpen(d: Deadline, t: nat) {
    d.tenancy == Some(t) && Derived(d.kind) && d.status == Open
  }

  predicate SameSlot(a: Deadline, b: Deadline) {
    a.kind == b.kind && (a.kind == CHEQUE_DUE ==> a.discriminator == b.discriminator)
  }

  /** No slot of the tenancy is open twice, and every open cheque deadline names its item. */
  ghost predicate Tidy(ds: seq<Deadline>, t: nat) {
    && (forall i, j | 0 <= i < j < |ds| && DerivedOpen(ds[i], t) && DerivedOpen(ds[j], t) :: !SameSlot(ds[i], ds[j]))
    && (forall i | 0 <= i < |ds| && DerivedOpen(ds[i], t) && ds[i].kind == CHEQUE_DUE :: ds[i].discriminator.Some?)
  }

  predicate SlotArgs(kind: Kind, disc: Option<nat>) {
    Derived(kind) && (kind == CHEQUE_DUE <==> disc.Some?)
  }

  lemma UpsertTidy(ds: seq<Deadline>, t: nat, kind: Kind, dueDay: int, disc: Option<nat>)
    requires Tidy(ds, t) && SlotArgs(kind, disc)
    ensures Tidy(Upsert(ds, t, kind, dueDay, disc), t)
  {
    var ds' := Upsert(ds, t, kind, dueDay, disc);
    var existing := FirstOpenFrom(ds, t, kind, disc, 0);
    var x := FreshDeadline(t, kind, dueDay, disc);
    if existing.Some? {
      assert SameSlot(ds[existing.value], x);
    } else {
      forall i | 0 <= i < |ds| && DerivedOpen(ds[i], t) ensures !SameSlot(ds[i], x) {
        assert !Matches(ds[i], t, kind, disc);
      }
    }
  }

  /** The upserted deadline is there afterwards, and open deadlines of other slots stay. */
  lemma UpsertEffect(ds: seq<Deadline>, t: nat, kind: Kind, dueDay: int, disc: Option<nat>)
    requires Tidy(ds, t) && SlotArgs(kind, disc)
    ensures var ds' := Upsert(ds, t, kind, dueDay, disc);
            var x := FreshDeadline(t, kind, dueDay, disc);
            && x in ds'
            && (forall y | y in ds && !(DerivedOpen(y, t) && SameSlot(y, x)) :: y in ds')
            && (forall y | y in ds' && y != x :: y in ds)
  {
    var ds' := Upsert(ds, t, kind, dueDay, disc);
    var x := FreshDeadline(t, kind, dueDay, disc);
    var existing := FirstOpenFrom(ds, t, kind, disc, 0);
    if existing.Some? {
      assert ds'[existing.value] == x;
      forall y | y in ds && !(DerivedOpen(y, t) && SameSlot(y, x)) ensures y in ds' {
        var i :| 0 <= i < |ds| && ds[i] == y;
        assert i != existing.value && ds'[i] == y;
      }
    } else {
      assert ds'[|ds|] == x;
    }
  }

  /** Upserting what is already recorded is a no-op. */
  lemma UpsertSame(ds: seq<Deadline>, t: nat, kind: Kind, dueDay: int, disc: Option<nat>)
    requires Tidy(ds, t) && SlotArgs(kind, disc) && FreshDeadline(t, kind, dueDay, disc) in ds
    ensures Upsert(ds, t, kind, dueDay, disc) == ds
  {
    var x := FreshDeadline(t, kind, dueDay, disc);
    var i :| 0 <= i < |ds| && ds[i] == x;
    var existing := FirstOpenFrom(ds, t, kind, disc, 0);
    assert Matches(ds[i], t, kind, disc);
    var j := existing.value;
    assert DerivedOpen(ds[j], t) && SameSlot(ds[j], x);
    assert i == j;
  }

  ghost predicate DistinctItems(items: seq<Item>) {
    forall i, j | 0 <= i < j < |items| :: items[i].id != items[j].id
  }

  function ChequeDeadline(t: nat, item: Item): Deadline {
    FreshDeadline(t, CHEQUE_DUE, item.dueDay, Some(item.id))
  }

  lemma LiveTail(items: seq<Item>, id: nat)
    requires items != []
    ensures Live(items[1..], id) ==> Live(items, id)
  {
    if Live(items[1..], id) {
      var k :| 0 <= k < |items[1..]| && items[1..][k].id == id && !items[1..][k].cancelled;
      assert items[k + 1] == items[1..][k];
    }
  }

  lemma {:induction false} UpsertItemsEffect(ds: seq<Deadline>, t: nat, items: seq<Item>)
    requires Tidy(ds, t) && DistinctItems(items)
    ensures var ds' := UpsertItems(ds, t, items);
            && Tidy(ds', t)
            && (forall i | 0 <= i < |items| && !items[i].cancelled :: ChequeDeadline(t, items[i]) in ds')
            && (forall y | y in ds
              && !(DerivedOpen(y, t) && y.kind == CHEQUE_DUE && Live(items, y.discriminator.value)) :: y in ds')
    decreases |items|
  {
    if items == [] {
    } else {
      var head, rest := items[0], items[1..];
      var ds1 := if head.cancelled then ds else Upsert(ds, t, CHEQUE_DUE, head.dueDay, Some(head.id));
      var ds' := UpsertItems(ds, t, items);
      if !head.cancelled {
        UpsertTidy(ds, t, CHEQUE_DUE, head.dueDay, Some(head.id));
        UpsertEffect(ds, t, CHEQUE_DUE, head.dueDay, Some(head.id));
        assert Live(items, head.id);
      }
      UpsertItemsEffect(ds1, t, rest);
      assert forall k | 0 <= k < |rest| :: rest[k].id != head.id;
      forall i | 0 <= i < |items| && !items[i].cancelled ensures ChequeDeadline(t, items[i]) in ds' {
        if i > 0 { assert items[i] == rest[i - 1]; }
      }
      forall y | y in ds && !(DerivedOpen(y, t) && y.kind == CHEQUE_DUE && Live(items, y.discriminator.value))
        ensures y in ds'
      {
        assert y in ds1;
        if DerivedOpen(y, t) && y.kind == CHEQUE_DUE { LiveTail(items, y.discriminator.value); }
      }
    }
  }

  lemma {:induction false} UpsertItemsSame(ds: seq<Deadline>, t: nat, items: seq<Item>)
    requires Tidy(ds, t)
    requires forall i | 0 <= i < |items| && !items[i].cancelled :: ChequeDeadline(t, items[i]) in ds
    ensures UpsertItems(ds, t, items) == ds
    decreases |items|
  {
    if items == [] {
    } else {
      if !items[0].cancelled { UpsertSame(ds, t, CHEQUE_DUE, items[0].dueDay, Some(items[0].id)); }
      forall i | 0 <= i < |items[1..]| && !items[1..][i].cancelled ensures ChequeDeadline(t, items[1..][i]) in ds {
        assert items[1..][i] == items[i + 1];
      }
      UpsertItemsSame(ds, t, items[1..]);
    }
  }

  lemma DropStaleEffect(ds: seq<Deadline>, t: nat, items: seq<Item>)
    requires Tidy(ds, t)
    ensures var ds' := DropAllStale(ds, t, items);
            && Tidy(ds', t)
            && (forall y | y in ds && DropStale(y, t, items) == y :: y in ds')
            && (forall y | y in ds' && DerivedOpen(y, t) :: y in ds)
            && (forall y | y in ds' && DerivedOpen(y, t) && y.kind == CHEQUE_DUE ::
              y.discriminator.Some? && Live(items, y.discriminator.value))
  {
    var ds' := DropAllStale(ds, t, items);
    forall y | y in ds && DropStale(y, t, items) == y ensures y in ds' {
      var i :| 0 <= i < |ds| && ds[i] == y;
      assert ds'[i] == y;
    }
    forall y | y in ds' && DerivedOpen(y, t)
      ensures y in ds
      ensures y.kind == CHEQUE_DUE ==> y.discriminator.Some? && Live(items, y.discriminator.value)
    {
      var i :| 0 <= i < |ds'| && ds'[i] == y;
      assert ds[i] == y;
    }
  }

  /**
   The table mirrors its sources: one open gate, expiry and renewal deadline on the computed days,
   and the open cheque deadlines are exactly those of the live items, on the items' due days.
   */
  ghost predicate Mirrors(ds: seq<Deadline>, t: nat, endDay: int, noticePeriodDays: int, items: seq<Item>) {
    && Tidy(ds, t)
    && FreshDeadline(t, NOTICE_GATE, endDay - noticePeriodDays, None) in ds
    && FreshDeadline(t, CONTRACT_EXPIRY, endDay, None) in ds
    && FreshDeadline(t, RENEWAL_DATE, endDay + 1, None) in ds
    && (forall i | 0 <= i < |items| && !items[i].cancelled :: ChequeDeadline(t, items[i]) in ds)
    && (forall y | y in ds && DerivedOpen(y, t) && y.kind == CHEQUE_DUE ::
          y.discriminator.Some? && Live(items, y.discriminator.value))
  }

  lemma UpsertTermEffect(ds: seq<Deadline>, t: nat, endDay: int, gate: int)
    requires Tidy(ds, t)
    ensures var ds' := UpsertTerm(ds, t, endDay, gate);
            && Tidy(ds', t)
            && FreshDeadline(t, NOTICE_GATE, gate, None) in ds'
            && FreshDeadline(t, CONTRACT_EXPIRY, endDay, None) in ds'
            && FreshDeadline(t, RENEWAL_DATE, endDay + 1, None) in ds'
  {
    UpsertTidy(ds, t, NOTICE_GATE, gate, None);
    UpsertEffect(ds, t, NOTICE_GATE, gate, None);
    var ds1 := Upsert(ds, t, NOTICE_GATE, gate, None);
    UpsertTidy(ds1, t, CONTRACT_EXPIRY, endDay, None);
    UpsertEffect(ds1, t, CONTRACT_EXPIRY, endDay, None);
    var ds2 := Upsert(ds1, t, CONTRACT_EXPIRY, endDay, None);
    UpsertTidy(ds2, t, RENEWAL_DATE, endDay + 1, None);
    UpsertEffect(ds2, t, RENEWAL_DATE, endDay + 1, None);
  }

  lemma TermDeadlinesSurvive(ds: seq<Deadline>, t: nat, items: seq<Item>, x: Deadline)
    requires Tidy(ds, t) && DistinctItems(items)
    requires x in ds && x.kind != CHEQUE_DUE
    ensures x in DropAllStale(UpsertItems(ds, t, items), t, items)
  {
    UpsertItemsEffect(ds, t, items);
    DropStaleEffect(UpsertItems(ds, t, items), t, items);
  }

  lemma ItemDeadlinesMirror(ds: seq<Deadline>, t: nat, items: seq<Item>)
    requires Tidy(ds, t) && DistinctItems(items)
    ensures var ds' := DropAllStale(UpsertItems(ds, t, items), t, items);
            && Tidy(ds', t)
            && (forall i | 0 <= i < |items| && !items[i].cancelled :: ChequeDeadline(t, items[i]) in ds')
            && (forall y | y in ds' && DerivedOpen(y, t) && y.kind == CHEQUE_DUE ::
                  y.discriminator.Some? && Live(items, y.discriminator.value))
  {
    UpsertItemsEffect(ds, t, items);
    DropStaleEffect(UpsertItems(ds, t, items), t, items);
    forall i | 0 <= i < |items| && !items[i].cancelled
      ensures DropStale(ChequeDeadline(t, items[i]), t, items) == ChequeDeadline(t, items[i])
    {
      assert Live(items, items[i].id);
    }
  }

  lemma ItemsCompleteTheMirror(ds: seq<Deadline>, t: nat, endDay: int, noticePeriodDays: int, items: seq<Item>)
    requires Tidy(ds, t) && DistinctItems(items)
    requires FreshDeadline(t, NOTICE_GATE, endDay - noticePeriodDays, None) in ds
    requires FreshDeadline(t, CONTRACT_EXPIRY, endDay, None) in ds
    requires FreshDeadline(t, RENEWAL_DATE, endDay + 1, None) in ds
    ensures Mirrors(DropAllStale(UpsertItems(ds, t, items), t, items), t, endDay, noticePeriodDays, items)
  {
    TermDeadlinesSurvive(ds, t, items, FreshDeadline(t, NOTICE_GATE, endDay - noticePeriodDays, None));
    TermDeadlinesSurvive(ds, t, items, FreshDeadline(t, CONTRACT_EXPIRY, endDay, None));
    TermDeadlinesSurvive(ds, t, items, FreshDeadline(t, RENEWAL_DATE, endDay + 1, None));
    ItemDeadlinesMirror(ds, t, items);
  }

  lemma RegenerateUnfolds(ds: seq<Deadline>, tenancy: Tenancy, items: seq<Item>)
    requires !tenancy.archived && tenancy.noticePeriodDays > 0
    ensures var t, gate := tenancy.id, tenancy.endDay - tenancy.noticePeriodDays;
            Regenerate(ds, tenancy, items) ==
              Ok((DropAllStale(UpsertItems(UpsertTerm(ds, t, tenancy.endDay, gate), t, items), t, items),
                tenancy.(noticeGateDay := Some(gate))))
  {}

  /** From any tidy table a regeneration of a live tenancy ends in the mirror, and caches the gate on the tenancy. */
  lemma RegenerateMirrors(ds: seq<Deadline>, tenancy: Tenancy, items: seq<Item>)
    requires Tidy(ds, tenancy.id) && DistinctItems(items) && !tenancy.archived && tenancy.noticePeriodDays > 0
    ensures Regenerate(ds, tenancy, items).Ok?
    ensures var (ds', tenancy') := Regenerate(ds, tenancy, items).value;
            && Mirrors(ds', tenancy.id, tenancy.endDay, tenancy.noticePeriodDays, items)
            && tenancy' == tenancy.(noticeGateDay := Some(tenancy.endDay - tenancy.noticePeriodDays))
  {
    var gate := tenancy.endDay - tenancy.noticePeriodDays;
    RegenerateUnfolds(ds, tenancy, items);
    UpsertTermEffect(ds, tenancy.id, tenancy.endDay, gate);
    ItemsCompleteTheMirror(UpsertTerm(ds, tenancy.id, tenancy.endDay, gate), tenancy.id, tenancy.endDay,
      tenancy.noticePeriodDays, items);
  }

  /** On a mirroring table a regeneration changes nothing at all. */
  lemma MirrorIsFixed(ds: seq<Deadline>, tenancy: Tenancy, items: seq<Item>)
    requires !tenancy.archived && tenancy.noticePeriodDays > 0
    requires Mirrors(ds, tenancy.id, tenancy.endDay, tenancy.noticePeriodDays, items)
    requires tenancy.noticeGateDay == Some(tenancy.endDay - tenancy.noticePeriodDays)
    ensures Regenerate(ds, tenancy, items) == Ok((ds, tenancy))
  {
    var t, endDay, gate := tenancy.id, tenancy.endDay, tenancy.endDay - tenancy.noticePeriodDays;
    UpsertSame(ds, t, NOTICE_GATE, gate, None);
    UpsertSame(ds, t, CONTRACT_EXPIRY, endDay, None);
    UpsertSame(ds, t, RENEWAL_DATE, endDay + 1, None);
    UpsertItemsSame(ds, t, items);
    var out := DropAllStale(ds, t, items);
    forall i | 0 <= i < |ds| ensures out[i] == ds[i] {
      assert ds[i] in ds;
    }
    assert out == ds;
  }

  lemma RegenerateTwiceIsOnce(ds: seq<Deadline>, tenancy: Tenancy, items: seq<Item>)
    requires Tidy(ds, tenancy.id) && DistinctItems(items) && Regenerate(ds, tenancy, items).Ok?
    ensures var (ds', tenancy') := Regenerate(ds, tenancy, items).value;
            Regenerate(ds', tenancy', items) == Ok((ds', tenancy'))
  {
    var (ds', tenancy') := Regenerate(ds, tenancy, items).value;
    if tenancy.archived {
      assert CancelAllOpen(ds', tenancy.id) == ds';
    } else {
      RegenerateMirrors(ds, tenancy, items);
      MirrorIsFixed(ds', tenancy', items);
    }
  }

  /** An archived tenancy is left without any open deadline, manual ones included. */
  lemma ArchiveClosesEverything(ds: seq<Deadline>, tenancy: Tenancy, items: seq<Item>)
    requires tenancy.archived
    ensures var (ds', _) := Regenerate(ds, tenancy, items).value;
            forall d | d in ds' && d.tenancy == Some(tenancy.id) :: d.status != Open
  {}

  /** Each live item has one open deadline and each open cheque deadline one live item, with equal days. */
  lemma MirrorIsABijection(ds: seq<Deadline>, t: nat, endDay: int, noticePeriodDays: int, items: seq<Item>)
    requires Mirrors(ds, t, endDay, noticePeriodDays, items) && DistinctItems(items)
    ensures forall i | 0 <= i < |items| && !items[i].cancelled ::
              exists k | 0 <= k < |ds| ::
                ds[k] == ChequeDeadline(t, items[i])
                && forall j | 0 <= j < |ds| && j != k :: !Matches(ds[j], t, CHEQUE_DUE, Some(items[i].id))
    ensures forall k | 0 <= k < |ds| && Matches(ds[k], t, CHEQUE_DUE, None) ::
              exists i | 0 <= i < |items| :: !items[i].cancelled && ds[k] == ChequeDeadline(t, items[i])
    ensures forall k, j | 0 <= k < j < |ds| && DerivedOpen(ds[k], t) && DerivedOpen(ds[j], t)
      && ds[k].kind != CHEQUE_DUE ::
              ds[k].kind != ds[j].kind
  {
    forall i | 0 <= i < |items| && !items[i].cancelled
      ensures exists k | 0 <= k < |ds| ::
                ds[k] == ChequeDeadline(t, items[i])
                && forall j | 0 <= j < |ds| && j != k :: !Matches(ds[j], t, CHEQUE_DUE, Some(items[i].id))
    {
      var k :| 0 <= k < |ds| && ds[k] == ChequeDeadline(t, items[i]);
      forall j | 0 <= j < |ds| && j != k ensures !Matches(ds[j], t, CHEQUE_DUE, Some(items[i].id)) {
        if j < k { assert DerivedOpen(ds[j], t) ==> !SameSlot(ds[j], ds[k]); }
        else { assert DerivedOpen(ds[j], t) ==> !SameSlot(ds[k], ds[j]); }
      }
    }
    forall k | 0 <= k < |ds| && Matches(ds[k], t, CHEQUE_DUE, None)
      ensures exists i | 0 <= i < |items| :: !items[i].cancelled && ds[k] == ChequeDeadline(t, items[i])
    {
      assert ds[k] in ds && DerivedOpen(ds[k], t);
      var i :| 0 <= i < |items| && items[i].id == ds[k].discriminator.value && !items[i].cancelled;
      var j :| 0 <= j < |ds| && ds[j] == ChequeDeadline(t, items[i]);
      assert SameSlot(ds[k], ds[j]) && DerivedOpen(ds[j], t);
      assert j == k;
    }
  }

  // Whole runs: the table stays tidy for every tenancy.

  /** Rows of other tenancies stay where they are, and every added row belongs to t. */
  ghost predicate OnlyTouches(ds: seq<Deadline>, ds': seq<Deadline>, t: nat) {
    && |ds| <= |ds'|
    && (forall i | 0 <= i < |ds| && ds[i].tenancy != Some(t) :: ds'[i] == ds[i])
    && (forall i | 0 <= i < |ds| && ds[i].tenancy == Some(t) :: ds'[i].tenancy == Some(t))
    && (forall i | |ds| <= i < |ds'| :: ds'[i].tenancy == Some(t))
  }

  lemma {:induction false} UpsertItemsTouches(ds: seq<Deadline>, t: nat, items: seq<Item>)
    ensures OnlyTouches(ds, UpsertItems(ds, t, items), t)
    decreases |items|
  {
    if items == [] {
    } else {
      if items[0].cancelled { UpsertItemsTouches(ds, t, items[1..]); }
      else { UpsertItemsTouches(Upsert(ds, t, CHEQUE_DUE, items[0].dueDay, Some(items[0].id)), t, items[1..]); }
    }
  }

  lemma UpsertTouches(ds: seq<Deadline>, t: nat, kind: Kind, dueDay: int, disc: Option<nat>)
    ensures OnlyTouches(ds, Upsert(ds, t, kind, dueDay, disc), t)
  {}

  lemma TouchesTrans(a: seq<Deadline>, b: seq<Deadline>, c: seq<Deadline>, t: nat)
    requires OnlyTouches(a, b, t) && OnlyTouches(b, c, t)
    ensures OnlyTouches(a, c, t)
  {}

  lemma UpsertTermTouches(ds: seq<Deadline>, t: nat, endDay: int, gate: int)
    ensures OnlyTouches(ds, UpsertTerm(ds, t, endDay, gate), t)
  {
    var ds1 := Upsert(ds, t, NOTICE_GATE, gate, None);
    var ds2 := Upsert(ds1, t, CONTRACT_EXPIRY, endDay, None);
    UpsertTouches(ds, t, NOTICE_GATE, gate, None);
    UpsertTouches(ds1, t, CONTRACT_EXPIRY, endDay, None);
    UpsertTouches(ds2, t, RENEWAL_DATE, RenewalDate(endDay), None);
    TouchesTrans(ds, ds1, ds2, t);
    TouchesTrans(ds, ds2, UpsertTerm(ds, t, endDay, gate), t);
  }

  /** A regeneration leaves the deadlines of every other tenancy alone. */
  lemma RegenerateTouchesOneTenancy(ds: seq<Deadline>, tenancy: Tenancy, items: seq<Item>)
    requires Regenerate(ds, tenancy, items).Ok?
    ensures OnlyTouches(ds, Regenerate(ds, tenancy, items).value.0, tenancy.id)
  {
    if !tenancy.archived {
      var t, gate := tenancy.id, tenancy.endDay - tenancy.noticePeriodDays;
      var ds1 := UpsertTerm(ds, t, tenancy.endDay, gate);
      var ds2 := UpsertItems(ds1, t, items);
      UpsertTermTouches(ds, t, tenancy.endDay, gate);
      UpsertItemsTouches(ds1, t, items);
      assert OnlyTouches(ds2, DropAllStale(ds2, t, items), t);
      TouchesTrans(ds, ds1, ds2, t);
      TouchesTrans(ds, ds2, DropAllStale(ds2, t, items), t);
    }
  }

  /** An open cheque deadline whose item is gone or cancelled. */
  predicate Stale(d: Deadline, t: nat, items: seq<Item>) {
    && d.tenancy == Some(t) && d.kind == CHEQUE_DUE && d.status == Open
    && d.discriminator.Some? && !Live(items, d.discriminator.value)
  }

  /** A derived deadline of t as the program writes it: open, not hand-made, and a cheque's for a live item. */
  predicate DerivedRow(d: Deadline, t: nat, items: seq<Item>) {
    && DerivedOpen(d, t) && !d.manual
    && (if d.kind == CHEQUE_DUE then d.discriminator.Some? && Live(items, d.discriminator.value)
        else d.discriminator.None?)
  }

  /** A row as it was, or a derived deadline in the place of an open one of its kind. */
  predicate Rederived(d: Deadline, d': Deadline, t: nat, items: seq<Item>) {
    d' == d
    || (DerivedOpen(d, t) && DerivedRow(d', t, items) && SameSlot(d, d'))
  }

  ghost predicate RowsRederived(ds: seq<Deadline>, ds': seq<Deadline>, t: nat, items: seq<Item>) {
    && |ds| <= |ds'|
    && (forall i | 0 <= i < |ds| :: Rederived(ds[i], ds'[i], t, items))
    && (forall i | |ds| <= i < |ds'| :: DerivedRow(ds'[i], t, items))
  }

  lemma RederivedTrans(a: seq<Deadline>, b: seq<Deadline>, c: seq<Deadline>, t: nat, items: seq<Item>)
    requires RowsRederived(a, b, t, items) && RowsRederived(b, c, t, items)
    ensures RowsRederived(a, c, t, items)
  {}

  lemma UpsertRederives(ds: seq<Deadline>, t: nat, kind: Kind, dueDay: int, disc: Option<nat>, items: seq<Item>)
    requires SlotArgs(kind, disc) && (disc.Some? ==> Live(items, disc.value))
    ensures RowsRederived(ds, Upsert(ds, t, kind, dueDay, disc), t, items)
  {}

  lemma {:induction false} UpsertItemsRederive(ds: seq<Deadline>, t: nat, items: seq<Item>, all: seq<Item>)
    requires forall i | 0 <= i < |items| && !items[i].cancelled :: Live(all, items[i].id)
    ensures RowsRederived(ds, UpsertItems(ds, t, items), t, all)
    decreases |items|
  {
    if items != [] {
      if items[0].cancelled {
        UpsertItemsRederive(ds, t, items[1..], all);
      } else {
        var ds1 := Upsert(ds, t, CHEQUE_DUE, items[0].dueDay, Some(items[0].id));
        UpsertRederives(ds, t, CHEQUE_DUE, items[0].dueDay, Some(items[0].id), all);
        UpsertItemsRederive(ds1, t, items[1..], all);
        RederivedTrans(ds, ds1, UpsertItems(ds1, t, items[1..]), t, all);
      }
    }
  }

  lemma UpsertTermRederives(ds: seq<Deadline>, t: nat, endDay: int, gate: int, items: seq<Item>)
    ensures RowsRederived(ds, UpsertTerm(ds, t, endDay, gate), t, items)
  {
    var ds1 := Upsert(ds, t, NOTICE_GATE, gate, None);
    var ds2 := Upsert(ds1, t, CONTRACT_EXPIRY, endDay, None);
    UpsertRederives(ds, t, NOTICE_GATE, gate, None, items);
    UpsertRederives(ds1, t, CONTRACT_EXPIRY, endDay, None, items);
    UpsertRederives(ds2, t, RENEWAL_DATE, RenewalDate(endDay), None, items);
    RederivedTrans(ds, ds1, ds2, t, items);
    RederivedTrans(ds, ds2, UpsertTerm(ds, t, endDay, gate), t, items);
  }

  /**
   Row by row, whatever the table: a regeneration of a live tenancy cancels exactly the stale cheque deadlines,
   writes derived deadlines over open ones of the same slot, adds derived deadlines, and changes nothing else.
   A cheque deadline that names no item is never cancelled.
   */
  lemma RegenerateRowByRow(ds: seq<Deadline>, tenancy: Tenancy, items: seq<Item>)
    requires !tenancy.archived && Regenerate(ds, tenancy, items).Ok?
    ensures var ds', t := Regenerate(ds, tenancy, items).value.0, tenancy.id;
            && |ds| <= |ds'|
            && (forall i | 0 <= i < |ds| ::
                  if Stale(ds[i], t, items) then ds'[i] == ds[i].(status := Cancelled)
                  else Rederived(ds[i], ds'[i], t, items))
            && (forall i | |ds| <= i < |ds'| :: DerivedRow(ds'[i], t, items))
  {
    var t, gate := tenancy.id, tenancy.endDay - tenancy.noticePeriodDays;
    var ds1 := UpsertTerm(ds, t, tenancy.endDay, gate);
    UpsertTermRederives(ds, t, tenancy.endDay, gate, items);
    UpsertItemsRederive(ds1, t, items, items);
    RederivedTrans(ds, ds1, UpsertItems(ds1, t, items), t, items);
  }

  /**
   A hand-made entry keeps the table tidy exactly when it is not a cheque deadline and opens no
   derived slot twice.
   */
  predicate Harmless(ds: seq<Deadline>, d: Deadline) {
    d.tenancy.Some? && Derived(d.kind) && d.status == Open ==>
      d.kind != CHEQUE_DUE && FirstOpenFrom(ds, d.tenancy.value, d.kind, None, 0).None?
  }

  lemma ManualTidyIffHarmless(ds: seq<Deadline>, d: Deadline)
    requires d.manual && d.discriminator.None?
    requires forall t: nat :: Tidy(ds, t)
    ensures (forall t: nat :: Tidy(ds + [d], t)) <==> Harmless(ds, d)
  {
    var ds' := ds + [d];
    if Harmless(ds, d) {
      forall t: nat ensures Tidy(ds', t) {
        assert Tidy(ds, t);
        if DerivedOpen(d, t) {
          forall i | 0 <= i < |ds| && DerivedOpen(ds[i], t) ensures !SameSlot(ds[i], d) {
            assert !Matches(ds[i], t, d.kind, None);
          }
        }
      }
    } else if d.kind == CHEQUE_DUE {
      assert DerivedOpen(ds'[|ds|], d.tenancy.value);
      assert !Tidy(ds', d.tenancy.value);
    } else {
      var i := FirstOpenFrom(ds, d.tenancy.value, d.kind, None, 0).value;
      assert DerivedOpen(ds'[i], d.tenancy.value) && DerivedOpen(ds'[|ds|], d.tenancy.value)
        && SameSlot(ds'[i], ds'[|ds|]);
      assert !Tidy(ds', d.tenancy.value);
    }
  }

  datatype Op =
    | RegenerateOp(tenancy: Tenancy, items: seq<Item>)
    | ManualOp(entry: Deadline)
    | StatusOp(row: nat, status: Status)

  predicate Allowed(ds: seq<Deadline>, op: Op) {
    match op
    case RegenerateOp(tenancy, items) => Regenerate(ds, tenancy, items).Ok?
    case ManualOp(d) => d.manual && d.discriminator.None? && Harmless(ds, d)
    case StatusOp(row, status) => row < |ds| && (status == Done || status == Cancelled)
  }

  function Apply(ds: seq<Deadline>, op: Op): seq<Deadline>
    requires Allowed(ds, op)
  {
    match op
    case RegenerateOp(tenancy, items) => Regenerate(ds, tenancy, items).value.0
    case ManualOp(d) => ds + [d]
    case StatusOp(row, status) => ds[row := ds[row].(status := status)]
  }

  ghost predicate OpRun(ds: seq<Deadline>, ops: seq<Op>, ds': seq<Deadline>)
    decreases |ops|
  {
    if ops == [] then ds == ds'
    else
      && Allowed(ds, ops[0])
      && (ops[0].RegenerateOp? ==> DistinctItems(ops[0].items))
      && OpRun(Apply(ds, ops[0]), ops[1..], ds')
  }

  lemma RegenerateKeepsTidy(ds: seq<Deadline>, tenancy: Tenancy, items: seq<Item>, t: nat)
    requires Tidy(ds, t) && Tidy(ds, tenancy.id) && DistinctItems(items) && Regenerate(ds, tenancy, items).Ok?
    ensures Tidy(Regenerate(ds, tenancy, items).value.0, t)
  {
    var ds' := Regenerate(ds, tenancy, items).value.0;
    RegenerateTouchesOneTenancy(ds, tenancy, items);
    if t == tenancy.id && !tenancy.archived {
      RegenerateMirrors(ds, tenancy, items);
    } else if t != tenancy.id {
      assert forall i | 0 <= i < |ds'| && DerivedOpen(ds'[i], t) :: i < |ds| && ds'[i] == ds[i];
    }
  }

  /** Whatever is regenerated, entered by hand or ticked off, no derived deadline is ever open twice. */
  lemma {:induction false} AlwaysTidy(ds: seq<Deadline>, ops: seq<Op>, ds': seq<Deadline>)
    requires forall t: nat :: Tidy(ds, t)
    requires OpRun(ds, ops, ds')
    ensures forall t: nat :: Tidy(ds', t)
    decreases |ops|
  {
    if ops == [] {
    } else {
      var op := ops[0];
      match op {
        case RegenerateOp(tenancy, items) =>
          forall t: nat ensures Tidy(Apply(ds, op), t) {
            assert Tidy(ds, t) && Tidy(ds, tenancy.id);
            RegenerateKeepsTidy(ds, tenancy, items, t);
          }
        case ManualOp(d) => ManualTidyIffHarmless(ds, d);
        case StatusOp(row, status) =>
          forall t: nat ensures Tidy(Apply(ds, op), t) {
            assert Tidy(ds, t);
          }
      }
      AlwaysTidy(Apply(ds, op), ops[1..], ds');
    }
  }

  /** The deadline table, changed in place. */
  class DeadlineTable {
    var rows: seq<Deadline>

    constructor ()
      ensures rows == []
    {
      rows := [];
    }

    method FindOpen(t: nat, kind: Kind, disc: Option<nat>) returns (existing: Option<nat>)
      ensures existing == FirstOpenFrom(rows, t, kind, disc, 0)
    {
      var i := 0;
      while i < |rows|
        invariant 0 <= i <= |rows|
        invariant FirstOpenFrom(rows, t, kind, disc, 0) == FirstOpenFrom(rows, t, kind, disc, i)
      {
        if Matches(rows[i], t, kind, disc) { return Some(i); }
        i := i + 1;
      }
      existing := None;
    }

    method UpsertDeadline(t: nat, kind: Kind, dueDay: int, disc: Option<nat>)
      modifies this
      ensures rows == Upsert(old(rows), t, kind, dueDay, disc)
    {
      var existing := FindOpen(t, kind, disc);
      if existing.Some? {
        rows := rows[existing.value := Deadline(Some(t), kind, dueDay, Open, disc, false)];
      } else {
        rows := rows + [Deadline(Some(t), kind, dueDay, Open, disc, false)];
      }
    }

    method RegenerateDeadlinesForTenancy(tenancy: Tenancy, items: seq<Item>) returns (r: Result<Tenancy, DateError>)
      modifies this
      ensures r.Ok? <==> Regenerate(old(rows), tenancy, items).Ok?
      ensures r.Ok? ==> Regenerate(old(rows), tenancy, items) == Ok((rows, r.value))
      ensures r.Err? ==> rows == old(rows)
    {
      if tenancy.archived {
        var was := rows;
        var k := 0;
        while k < |rows|
          invariant 0 <= k <= |rows| == |was|
          invariant forall j | 0 <= j < |rows| :: rows[j] == if j < k then CancelOpen(was[j], tenancy.id) else was[j]
        {
          rows := rows[k := CancelOpen(rows[k], tenancy.id)];
          k := k + 1;
        }
        assert rows == CancelAllOpen(was, tenancy.id);
        return Ok(tenancy);
      }
      var gate := NoticeGate(tenancy.endDay, tenancy.noticePeriodDays);
      if gate.Err? { return Err(gate.error); }
      UpsertDeadline(tenancy.id, NOTICE_GATE, gate.value, None);
      UpsertDeadline(tenancy.id, CONTRACT_EXPIRY, tenancy.endDay, None);
      UpsertDeadline(tenancy.id, RENEWAL_DATE, RenewalDate(tenancy.endDay), None);
      UpsertAll(tenancy.id, items);
      CancelStale(tenancy.id, items);
      r := Ok(tenancy.(noticeGateDay := Some(gate.value)));
    }

    method UpsertAll(t: nat, items: seq<Item>)
      modifies this
      ensures rows == UpsertItems(old(rows), t, items)
    {
      ghost var was := rows;
      var i := 0;
      while i < |items|
        invariant 0 <= i <= |items|
        invariant UpsertItems(was, t, items) == UpsertItems(rows, t, items[i..])
      {
        assert items[i..][0] == items[i] && items[i..][1..] == items[i + 1..];
        if !items[i].cancelled {
          UpsertDeadline(t, CHEQUE_DUE, items[i].dueDay, Some(items[i].id));
        }
        i := i + 1;
      }
    }

    method CancelStale(t: nat, items: seq<Item>)
      modifies this
      ensures rows == DropAllStale(old(rows), t, items)
    {
      var was := rows;
      var i := 0;
      while i < |rows|
        invariant 0 <= i <= |rows| == |was|
        invariant forall j | 0 <= j < |rows| :: rows[j] == if j < i then DropStale(was[j], t, items) else was[j]
      {
        var d := rows[i];
        if d.tenancy == Some(t) && d.kind == CHEQUE_DUE && d.status == Open && d.discriminator.Some?
           && !Live(items, d.discriminator.value) {
          rows := rows[i := d.(status := Cancelled)];
        }
        i := i + 1;
      }
    }
  }
}
