/**
 The offers of a case over any sequence of calls: versions count from one without gaps, at most one
 offer is open and it is the newest, and frozen ceilings settle the above-band flag.
 */
module OfferTable {
  import opened Common
  import opened Renewals
  import opened RenewalCalls

  function CountOn(offers: seq<Offer>, c: nat): nat
    decreases |offers|
  {
    if offers == [] then 0
    else CountOn(offers[..|offers| - 1], c) + (if offers[|offers| - 1].renewalCase == c then 1 else 0)
  }

  /** Each version is one more than the number of earlier offers of its case. */
  ghost predicate Counted(offers: seq<Offer>) {
    forall o | 0 <= o < |offers| :: offers[o].version == CountOn(offers[..o], offers[o].renewalCase) + 1
  }

  /** No two offers of a case are open, and an open one has no successor. */
  ghost predicate OneOnTable(offers: seq<Offer>) {
    forall o, p | 0 <= o < p < |offers| && offers[o].renewalCase == offers[p].renewalCase :: !offers[o].IsOpen()
  }

  ghost predicate OpenIsCurrent(s: State) {
    forall o | 0 <= o < |s.offers| && s.offers[o].IsOpen() ::
      s.offers[o].renewalCase < |s.cases| && s.cases[s.offers[o].renewalCase].currentOffer == Some(o)
  }

  lemma CountSnoc(offers: seq<Offer>, x: Offer, c: nat)
    ensures CountOn(offers + [x], c) == CountOn(offers, c) + (if x.renewalCase == c then 1 else 0)
  {
    assert (offers + [x])[..|offers|] == offers;
  }

  lemma {:induction false} CountGrows(offers: seq<Offer>, i: nat, j: nat, c: nat)
    requires i <= j <= |offers|
    ensures CountOn(offers[..i], c) <= CountOn(offers[..j], c)
    ensures i < j && offers[j - 1].renewalCase == c ==> CountOn(offers[..i], c) < CountOn(offers[..j], c)
    decreases j
  {
    if i >= j {
    } else {
      CountGrows(offers, i, j - 1, c);
      assert offers[..j] == offers[..j - 1] + [offers[j - 1]];
      CountSnoc(offers[..j - 1], offers[j - 1], c);
    }
  }

  lemma {:induction false} CountSame(a: seq<Offer>, b: seq<Offer>, c: nat)
    requires |a| == |b| && forall o | 0 <= o < |a| :: a[o].renewalCase == b[o].renewalCase
    ensures CountOn(a, c) == CountOn(b, c)
    decreases |a|
  {
    if a == [] {
    } else {
      CountSame(a[..|a| - 1], b[..|b| - 1], c);
    }
  }

  /** Rewriting statuses renumbers nothing. */
  lemma CountedSame(a: seq<Offer>, b: seq<Offer>)
    requires Counted(a) && |a| == |b|
    requires forall o | 0 <= o < |a| :: a[o].renewalCase == b[o].renewalCase && a[o].version == b[o].version
    ensures Counted(b)
  {
    forall o | 0 <= o < |b| ensures b[o].version == CountOn(b[..o], b[o].renewalCase) + 1 {
      CountSame(a[..o], b[..o], b[o].renewalCase);
    }
  }

  lemma {:induction false} EveryVersionTaken(offers: seq<Offer>, c: nat, v: nat)
    requires Counted(offers) && 1 <= v <= CountOn(offers, c)
    ensures HasVersion(offers, c, v)
    decreases |offers|
  {
    var last := |offers| - 1;
    assert offers[..|offers|] == offers;
    if offers[last].renewalCase == c && offers[last].version == v {
    } else {
      assert forall o | 0 <= o < last :: offers[..last][..o] == offers[..o];
      EveryVersionTaken(offers[..last], c, v);
      var o :| 0 <= o < last && offers[..last][o].renewalCase == c && offers[..last][o].version == v;
      assert offers[o] == offers[..last][o];
    }
  }

  lemma VersionBound(offers: seq<Offer>, o: nat)
    requires Counted(offers) && o < |offers|
    ensures 1 <= offers[o].version <= CountOn(offers, offers[o].renewalCase)
  {
    CountGrows(offers, o, o + 1, offers[o].renewalCase);
    CountGrows(offers, o + 1, |offers|, offers[o].renewalCase);
    assert offers[..|offers|] == offers;
  }

  lemma VersionsIncrease(offers: seq<Offer>, o: nat, p: nat)
    requires Counted(offers) && o < p < |offers| && offers[o].renewalCase == offers[p].renewalCase
    ensures offers[o].version < offers[p].version
  {
    CountGrows(offers, o, o + 1, offers[o].renewalCase);
    CountGrows(offers, o + 1, p, offers[o].renewalCase);
  }

  ghost predicate HasVersion(offers: seq<Offer>, c: nat, v: nat) {
    exists o :: 0 <= o < |offers| && offers[o].renewalCase == c && offers[o].version == v
  }

  /** The versions of a case are exactly 1 to n. */
  lemma VersionsAreOneToN(offers: seq<Offer>, c: nat, v: nat)
    requires Counted(offers)
    ensures HasVersion(offers, c, v) <==> 1 <= v <= CountOn(offers, c)
  {
    if 1 <= v <= CountOn(offers, c) { EveryVersionTaken(offers, c, v); }
    if HasVersion(offers, c, v) {
      var o :| 0 <= o < |offers| && offers[o].renewalCase == c && offers[o].version == v;
      VersionBound(offers, o);
    }
  }

  /** One more than the highest version is one more than the number of offers. */
  lemma NextVersionCounts(offers: seq<Offer>, c: nat)
    requires Counted(offers)
    ensures NextVersion(offers, c) == CountOn(offers, c) + 1
  {
    var newest := NewestOffer(offers, c);
    if newest.Some? { VersionBound(offers, newest.value); }
    if CountOn(offers, c) >= 1 { EveryVersionTaken(offers, c, CountOn(offers, c)); }
  }

  // ---------------------------------------------------------------------------------------------
  // One call
  // ---------------------------------------------------------------------------------------------

  ghost predicate CurrentRefs(s: State) {
    forall c | 0 <= c < |s.cases| && s.cases[c].currentOffer.Some? ::
      s.cases[c].currentOffer.value < |s.offers| && s.offers[s.cases[c].currentOffer.value].renewalCase == c
  }

  lemma CurrentRefsStep(s: State, step: Step)
    requires CurrentRefs(s) && Enabled(s, step)
    ensures CurrentRefs(Do(s, step))
  {}

  lemma {:induction false} RefsRun(s: State, steps: seq<Step>, s': State)
    requires Refs(s) && CurrentRefs(s) && Run(s, steps, s')
    ensures Refs(s') && CurrentRefs(s')
    decreases |steps|
  {
    if steps == [] {
    } else {
      RefsStep(s, steps[0]);
      CurrentRefsStep(s, steps[0]);
      RefsRun(Do(s, steps[0]), steps[1..], s');
    }
  }

  lemma RefsCall(s: State, call: Call)
    requires Refs(s) && CurrentRefs(s)
    ensures Refs(Perform(s, call).state) && CurrentRefs(Perform(s, call).state)
  {
    CallIsARun(s, call);
    var steps :| Run(s, steps, Perform(s, call).state);
    RefsRun(s, steps, Perform(s, call).state);
  }

  ghost predicate TableInv(s: State) {
    Refs(s) && CurrentRefs(s) && Counted(s.offers) && OneOnTable(s.offers)
  }

  /** What a write that puts nothing on a table may do. */
  ghost predicate TableQuiet(s: State, s': State) {
    && |s'.offers| == |s.offers| && |s.cases| <= |s'.cases|
    && (forall o | 0 <= o < |s.offers| ::
      OfferKept(s.offers[o], s'.offers[o]) && (s'.offers[o].IsOpen() ==> s.offers[o].IsOpen()))
    && (forall o | 0 <= o < |s.offers| && s'.offers[o].IsOpen() && s.offers[o].renewalCase < |s.cases| ::
          s'.cases[s.offers[o].renewalCase].currentOffer == s.cases[s.offers[o].renewalCase].currentOffer)
  }

  lemma QuietKeeps(s: State, s': State)
    requires Refs(s') && CurrentRefs(s') && TableInv(s) && TableQuiet(s, s')
    ensures TableInv(s')
    ensures OpenIsCurrent(s) ==> OpenIsCurrent(s')
  {
    CountedSame(s.offers, s'.offers);
    forall o, p | 0 <= o < p < |s'.offers| && s'.offers[o].renewalCase == s'.offers[p].renewalCase
      ensures !s'.offers[o].IsOpen()
    {
      assert OfferKept(s.offers[o], s'.offers[o]) && OfferKept(s.offers[p], s'.offers[p]);
    }
    if OpenIsCurrent(s) {
      forall o | 0 <= o < |s'.offers| && s'.offers[o].IsOpen()
        ensures s'.cases[s'.offers[o].renewalCase].currentOffer == Some(o)
      {
        assert OfferKept(s.offers[o], s'.offers[o]);
      }
    }
  }

  predicate TablesOffer(step: Step) {
    step.InsertOffer? || step.PointAt?
  }

  lemma AcceptIsQuiet(s: State, o: nat)
    requires Enabled(s, AcceptTx(o))
    ensures TableQuiet(s, Do(s, AcceptTx(o)))
  {}

  lemma CurrentUntouched(s: State, step: Step)
    requires Enabled(s, step) && !TablesOffer(step) && !step.AcceptTx?
    ensures |s.cases| <= |Do(s, step).cases|
    ensures forall c | 0 <= c < |s.cases| :: Do(s, step).cases[c].currentOffer == s.cases[c].currentOffer
  {
    if !WritesCases(step) { CasesUntouched(s, step); }
  }

  lemma StepIsQuiet(s: State, step: Step)
    requires Enabled(s, step) && !TablesOffer(step)
    ensures TableQuiet(s, Do(s, step))
  {
    if step.AcceptTx? {
      AcceptIsQuiet(s, step.o);
    } else {
      CurrentUntouched(s, step);
      if !WritesOffers(step) { OffersUntouched(s, step); }
    }
  }

  lemma QuietTrans(s: State, mid: State, s': State)
    requires TableQuiet(s, mid) && TableQuiet(mid, s')
    ensures TableQuiet(s, s')
  {
    forall o | 0 <= o < |s.offers|
      ensures OfferKept(s.offers[o], s'.offers[o]) && (s'.offers[o].IsOpen() ==> s.offers[o].IsOpen())
      ensures s'.offers[o].IsOpen() && s.offers[o].renewalCase < |s.cases| ==>
                s'.cases[s.offers[o].renewalCase].currentOffer == s.cases[s.offers[o].renewalCase].currentOffer
    {
      assert OfferKept(s.offers[o], mid.offers[o]) && OfferKept(mid.offers[o], s'.offers[o]);
    }
  }

  lemma TryMoveQuiet(s: State, t: nat, status: TenancyStatus)
    ensures TableQuiet(s, TryMove(s, t, status))
    ensures TryMove(s, t, status).offers == s.offers && TryMove(s, t, status).cases == s.cases
  {}

  lemma CountedSnoc(offers: seq<Offer>, x: Offer)
    requires Counted(offers) && x.version == CountOn(offers, x.renewalCase) + 1
    ensures Counted(offers + [x])
  {
    var longer := offers + [x];
    forall o | 0 <= o < |longer| ensures longer[o].version == CountOn(longer[..o], longer[o].renewalCase) + 1 {
      if o < |offers| { assert longer[..o] == offers[..o]; } else { assert longer[..o] == offers; }
    }
  }

  /** After the insert: the new offer is the only open one of its case, and no other offer was opened or rewritten. */
  lemma TabledRows(s: State, c: nat, party: Party, annualRent: int)
    requires c < |s.cases|
    ensures var s2 := Tabled(s, c, party, annualRent);
            && |s2.offers| == |s.offers| + 1 && s2.cases == s.cases
            && s2.offers[|s.offers|].renewalCase == c && s2.offers[|s.offers|].IsOpen()
            && s2.offers[|s.offers|].version == NextVersion(SupersedeAll(s.offers, c), c)
            && s2.offers[..|s.offers|] == SupersedeAll(s.offers, c)
  {}

  lemma SupersedeAllRows(offers: seq<Offer>, c: nat, o: nat)
    requires o < |offers|
    ensures OfferKept(offers[o], SupersedeAll(offers, c)[o])
    ensures SupersedeAll(offers, c)[o].IsOpen() <==> offers[o].IsOpen() && offers[o].renewalCase != c
  {}

  lemma SupersedeAllCounted(offers: seq<Offer>, c: nat)
    requires Counted(offers)
    ensures Counted(SupersedeAll(offers, c)) && CountOn(SupersedeAll(offers, c), c) == CountOn(offers, c)
  {
    CountedSame(offers, SupersedeAll(offers, c));
    CountSame(offers, SupersedeAll(offers, c), c);
  }

  lemma TabledCounted(s: State, c: nat, party: Party, annualRent: int)
    requires Counted(s.offers) && c < |s.cases|
    ensures Counted(Tabled(s, c, party, annualRent).offers)
  {
    var s2 := Tabled(s, c, party, annualRent);
    var closed, x := SupersedeAll(s.offers, c), s2.offers[|s.offers|];
    TabledRows(s, c, party, annualRent);
    SupersedeAllCounted(s.offers, c);
    NextVersionCounts(closed, c);
    CountedSnoc(closed, x);
    assert s2.offers == closed + [x];
  }

  lemma TabledOneOnTable(offers: seq<Offer>, c: nat, x: Offer)
    requires OneOnTable(offers) && x.renewalCase == c
    ensures OneOnTable(SupersedeAll(offers, c) + [x])
  {
    var longer := SupersedeAll(offers, c) + [x];
    forall o, p | 0 <= o < p < |longer| && longer[o].renewalCase == longer[p].renewalCase ensures !longer[o].IsOpen() {
      SupersedeAllRows(offers, c, o);
      if p < |offers| { SupersedeAllRows(offers, c, p); }
    }
  }

  lemma TabledKeeps(s: State, c: nat, party: Party, annualRent: int)
    requires TableInv(s) && c < |s.cases|
    ensures TableInv(Tabled(s, c, party, annualRent))
  {
    var s2 := Tabled(s, c, party, annualRent);
    TabledRows(s, c, party, annualRent);
    TabledCounted(s, c, party, annualRent);
    TabledOneOnTable(s.offers, c, s2.offers[|s.offers|]);
    assert s2.offers == SupersedeAll(s.offers, c) + [s2.offers[|s.offers|]];
    TabledRefs(s, c, party, annualRent);
  }

  lemma TabledRefs(s: State, c: nat, party: Party, annualRent: int)
    requires Refs(s) && CurrentRefs(s) && c < |s.cases|
    ensures Refs(Tabled(s, c, party, annualRent)) && CurrentRefs(Tabled(s, c, party, annualRent))
  {
    var s1 := Do(s, SupersedeOpen(c));
    RefsStep(s, SupersedeOpen(c));
    CurrentRefsStep(s, SupersedeOpen(c));
    var insert := InsertOffer(c, NextVersion(s1.offers, c), party, annualRent, CeilingNow(s1, c));
    RefsStep(s1, insert);
    CurrentRefsStep(s1, insert);
  }

  /** Offers left open by the tabling belong to other cases, and those cases still point at them. */
  lemma OthersStayCurrent(s: State, c: nat, party: Party, annualRent: int, o: nat)
    requires OpenIsCurrent(s) && c < |s.cases| && o < |s.offers| && Tabled(s, c, party, annualRent).offers[o].IsOpen()
    ensures var x := Tabled(s, c, party, annualRent).offers[o];
            x.renewalCase != c && x.renewalCase < |s.cases| && s.cases[x.renewalCase].currentOffer == Some(o)
  {
    SupersedeAllRows(s.offers, c, o);
    TabledRows(s, c, party, annualRent);
    assert Tabled(s, c, party, annualRent).offers[o] == SupersedeAll(s.offers, c)[o];
  }

  /** The new offer becomes current exactly when the active-case index lets the case be active. */
  lemma PutOnTableCurrent(s: State, c: nat, party: Party, annualRent: int)
    requires TableInv(s) && OpenIsCurrent(s) && c < |s.cases|
    ensures OpenIsCurrent(PutOnTable(s, c, party, annualRent).state) <==> MayBeActive(s, c)
  {
    var s2, s' := Tabled(s, c, party, annualRent), PutOnTable(s, c, party, annualRent).state;
    TabledRows(s, c, party, annualRent);
    assert MayBeActive(s2, c) <==> MayBeActive(s, c);
    if MayBeActive(s, c) {
      forall o | 0 <= o < |s'.offers| && s'.offers[o].IsOpen()
        ensures s'.offers[o].renewalCase < |s'.cases| && s'.cases[s'.offers[o].renewalCase].currentOffer == Some(o)
      {
        if o < |s.offers| { OthersStayCurrent(s, c, party, annualRent, o); }
      }
    } else {
      assert s'.offers[|s.offers|].IsOpen() && s'.cases[c].currentOffer != Some(|s.offers|);
    }
  }

  lemma PutOnTableKeeps(s: State, c: nat, party: Party, annualRent: int)
    requires TableInv(s) && c < |s.cases|
    ensures TableInv(PutOnTable(s, c, party, annualRent).state)
  {
    var s2 := Tabled(s, c, party, annualRent);
    TabledRows(s, c, party, annualRent);
    TabledKeeps(s, c, party, annualRent);
    if MayBeActive(s2, c) {
      RefsStep(s2, PointAt(c, |s.offers|));
      CurrentRefsStep(s2, PointAt(c, |s.offers|));
    }
  }

  // ---------------------------------------------------------------------------------------------
  // Any call
  // ---------------------------------------------------------------------------------------------

  /** The case on which a call tables a new offer. */
  function TablesOn(s: State, call: Call): Option<nat> {
    match call
    case ProposeOffer(c, _, annualRent) => if annualRent > 0 && c < |s.cases| then Some(c) else None
    case RespondAsTenant(o, response) =>
      if o < |s.offers| && ValidCounter(response) then Some(s.offers[o].renewalCase) else None
    case RespondViaLink(l, now, response) =>
      if l < |s.links| && s.links[l].offer < |s.offers| && s.links[l].Usable(now) && ValidCounter(response)
      then Some(s.offers[s.links[l].offer].renewalCase) else None
    case _ => None
  }

  ghost predicate SameTables(s: State, s': State) {
    s'.offers == s.offers && s'.cases == s.cases
  }

  lemma SameTablesKeep(s: State, s': State)
    requires SameTables(s, s')
    ensures Counted(s.offers) ==> Counted(s'.offers)
    ensures OneOnTable(s.offers) ==> OneOnTable(s'.offers)
    ensures CurrentRefs(s) ==> CurrentRefs(s')
    ensures OpenIsCurrent(s) <==> OpenIsCurrent(s')
  {}

  lemma ConsumeChangesNoTable(s: State, l: nat, now: int, c: nat, party: Party, annualRent: int)
    requires l < |s.links| && s.links[l].Usable(now) && c < |s.cases|
    ensures SameTables(PutOnTable(s, c, party, annualRent).state,
      PutOnTable(Do(s, ConsumeLink(l, now)), c, party, annualRent).state)
  {
    var s1 := Do(s, ConsumeLink(l, now));
    assert CeilingNow(Do(s1, SupersedeOpen(c)), c) == CeilingNow(Do(s, SupersedeOpen(c)), c);
    assert MayBeActive(Tabled(s1, c, party, annualRent), c) <==> MayBeActive(Tabled(s, c, party, annualRent), c);
  }

  lemma ProposeTables(s: State, c: nat, party: Party, annualRent: int)
    requires annualRent > 0 && c < |s.cases|
    ensures SameTables(PutOnTable(s, c, party, annualRent).state, ProposeCall(s, c, party, annualRent).state)
  {
    TryMoveQuiet(PutOnTable(s, c, party, annualRent).state, s.cases[c].tenancy, T_NEGOTIATING);
  }

  lemma SettleChangesNoTable(s: State, l: nat, applied: bool)
    requires s.owed[l] > 0
    ensures SameTables(s, SettleUse(s, l, applied))
  {}

  /** A counter through a link is a consumed use, then what tabling does. */
  lemma ViaLinkUnfolds(s: State, l: nat, now: int, response: Response)
    requires Refs(s) && TablesOn(s, RespondViaLink(l, now, response)).Some?
    ensures var out := PutOnTable(Do(s, ConsumeLink(l, now)), s.offers[s.links[l].offer].renewalCase, TENANT,
      response.annualRent);
            SameTables(out.state, RespondViaLinkCall(s, l, now, response).state)
  {
    var o := s.links[l].offer;
    var out := ApplyTenantResponse(Do(s, ConsumeLink(l, now)), o, response);
    SettleChangesNoTable(out.state, l, out.reply.Ok?);
  }

  lemma ViaLinkTables(s: State, l: nat, now: int, response: Response)
    requires Refs(s) && TablesOn(s, RespondViaLink(l, now, response)).Some?
    ensures SameTables(PutOnTable(s, TablesOn(s, RespondViaLink(l, now, response)).value, TENANT,
      response.annualRent).state,
                       RespondViaLinkCall(s, l, now, response).state)
  {
    ViaLinkUnfolds(s, l, now, response);
    ConsumeChangesNoTable(s, l, now, s.offers[s.links[l].offer].renewalCase, TENANT, response.annualRent);
  }

  /** A tabling call does to the offers and cases what tabling alone does. */
  lemma TablingCall(s: State, call: Call) returns (party: Party, annualRent: int)
    requires Refs(s) && TablesOn(s, call).Some?
    ensures TablesOn(s, call).value < |s.cases|
    ensures SameTables(PutOnTable(s, TablesOn(s, call).value, party, annualRent).state, Perform(s, call).state)
  {
    match call
    case ProposeOffer(c, p, rent) =>
      party, annualRent := p, rent;
      ProposeTables(s, c, p, rent);
    case RespondAsTenant(o, response) =>
      party, annualRent := TENANT, response.annualRent;
      assert Perform(s, call) == ApplyTenantResponse(s, o, response);
    case RespondViaLink(l, now, response) =>
      party, annualRent := TENANT, response.annualRent;
      ViaLinkTables(s, l, now, response);
  }

  lemma AcceptQuiet(s: State, o: nat)
    ensures TableQuiet(s, AcceptCall(s, o).state)
  {
    if o < |s.offers| && s.offers[o].renewalCase < |s.cases| && Enabled(s, AcceptTx(o)) {
      var s1 := Do(s, AcceptTx(o));
      StepIsQuiet(s, AcceptTx(o));
      TryMoveQuiet(s1, s.cases[s.offers[o].renewalCase].tenancy, T_RENEWED);
      QuietTrans(s, s1, AcceptCall(s, o).state);
    }
  }

  lemma ResponseQuiet(s: State, o: nat, response: Response)
    requires o < |s.offers| && s.offers[o].renewalCase < |s.cases| && !ValidCounter(response)
    ensures TableQuiet(s, ApplyTenantResponse(s, o, response).state)
  {
    if response.Accept? {
      AcceptPathsAgree(s, o);
      AcceptQuiet(s, o);
    }
  }

  lemma SettleQuiet(s: State, mid: State, l: nat, applied: bool)
    requires TableQuiet(s, mid) && mid.owed[l] > 0
    ensures TableQuiet(s, SettleUse(mid, l, applied))
  {
    SettleChangesNoTable(mid, l, applied);
  }

  lemma ViaLinkQuiet(s: State, l: nat, now: int, response: Response)
    requires Refs(s) && TablesOn(s, RespondViaLink(l, now, response)).None?
    ensures TableQuiet(s, RespondViaLinkCall(s, l, now, response).state)
  {
    if l < |s.links| && s.links[l].offer < |s.offers| && s.links[l].Usable(now) {
      var s1 := Do(s, ConsumeLink(l, now));
      var out := ApplyTenantResponse(s1, s.links[l].offer, response);
      StepIsQuiet(s, ConsumeLink(l, now));
      ResponseQuiet(s1, s.links[l].offer, response);
      QuietTrans(s, s1, out.state);
      SettleQuiet(s, out.state, l, out.reply.Ok?);
    }
  }

  lemma ServeRenewalQuiet(s: State, c: nat, input: ServiceInput)
    ensures TableQuiet(s, ServeRenewalCall(s, c, input).state)
  {
    if c < |s.cases| {
      var s1, ready := Do(s, PrepareNotice(c, input.docId)), ReadyToServe(s, c, input.docId);
      StepIsQuiet(s, PrepareNotice(c, input.docId));
      StepIsQuiet(s1, ApproveNotice(|s.notices|));
      QuietTrans(s, s1, ready);
      NoticeQuiet(ready, ServeNoticeFormal(|s.notices|, input));
      QuietTrans(s, ready, ServeCall(ready, |s.notices|, input).state);
    } else {
      QuietRefl(s);
    }
  }

  lemma QuietRefl(s: State)
    ensures TableQuiet(s, s)
  {}

  lemma OneStepQuiet(s: State, call: Call)
    requires call.RegisterTenancy? || call.OpenRenewalCase? || call.CaptureRentIndex? || call.SendOfferToTenant?
             || call.RevokeSecureLink? || call.MintRenewedTenancy? || call.SetStatus? || call.Archive?
    ensures TableQuiet(s, Perform(s, call).state)
  {
    QuietRefl(s);
    match call
    case OpenRenewalCase(t) => if Enabled(s, OpenCase(t)) { StepIsQuiet(s, OpenCase(t)); }
    case MintRenewedTenancy(c, input) => MintQuiet(s, c, input);
    case _ => CallLeavesTables(s, call);
  }

  lemma MintQuiet(s: State, c: nat, input: MintInput)
    ensures TableQuiet(s, MintCall(s, c, input).state)
  {}

  lemma CallLeavesTables(s: State, call: Call)
    requires call.RegisterTenancy? || call.CaptureRentIndex? || call.SendOfferToTenant? || call.RevokeSecureLink?
             || call.SetStatus? || call.Archive?
    ensures SameTables(s, Perform(s, call).state)
  {}

  lemma NoticeQuiet(s: State, call: Call)
    requires call.PrepareRenewalNotice? || call.ApproveRenewalNotice? || call.ServeNoticeFormal?
      || call.ConfirmNoticeService?
    ensures TableQuiet(s, Perform(s, call).state)
  {
    QuietRefl(s);
    match call
    case ServeNoticeFormal(n, input) => if Enabled(s, ServeNotice(n, input)) { StepIsQuiet(s, ServeNotice(n, input)); }
    case ConfirmNoticeService(n, input) =>
      if Enabled(s, ConfirmService(n, input)) { StepIsQuiet(s, ConfirmService(n, input)); }
    case _ =>
  }

  lemma QuietCall(s: State, call: Call)
    requires Refs(s) && TablesOn(s, call).None?
    ensures TableQuiet(s, Perform(s, call).state)
  {
    match call
    case ProposeOffer(_, _, _) => QuietRefl(s);
    case AcceptOffer(o) => AcceptQuiet(s, o);
    case RespondAsTenant(o, response) => if o < |s.offers| { ResponseQuiet(s, o, response); } else { QuietRefl(s); }
    case RespondViaLink(l, now, response) => ViaLinkQuiet(s, l, now, response);
    case ServeRenewalNotice(c, input) => ServeRenewalQuiet(s, c, input);
    case PrepareRenewalNotice(_, _) => NoticeQuiet(s, call);
    case ApproveRenewalNotice(_) => NoticeQuiet(s, call);
    case ServeNoticeFormal(_, _) => NoticeQuiet(s, call);
    case ConfirmNoticeService(_, _) => NoticeQuiet(s, call);
    case _ => OneStepQuiet(s, call);
  }

  /**
   Every call keeps the versions gapless and at most one offer of a case open. It keeps the open offer
   current exactly when it is not a proposal or counter on a case that the active-case index bars.
   */
  lemma TableCall(s: State, call: Call)
    requires TableInv(s)
    ensures TableInv(Perform(s, call).state)
    ensures OpenIsCurrent(s) ==>
              (OpenIsCurrent(Perform(s, call).state) <==>
               TablesOn(s, call).None?
                 || (TablesOn(s, call).value < |s.cases| && MayBeActive(s, TablesOn(s, call).value)))
  {
    RefsCall(s, call);
    var s' := Perform(s, call).state;
    if TablesOn(s, call).None? {
      QuietCall(s, call);
      QuietKeeps(s, s');
    } else {
      var party, annualRent := TablingCall(s, call);
      PutOnTableKeeps(s, TablesOn(s, call).value, party, annualRent);
      if OpenIsCurrent(s) { PutOnTableCurrent(s, TablesOn(s, call).value, party, annualRent); }
      SameTablesKeep(PutOnTable(s, TablesOn(s, call).value, party, annualRent).state, s');
    }
  }

  lemma {:induction false} TableRun(s: State, calls: seq<Call>, s': State)
    requires TableInv(s) && CallRun(s, calls, s')
    ensures TableInv(s')
    decreases |calls|
  {
    if calls == [] {
    } else {
      TableCall(s, calls[0]);
      TableRun(Perform(s, calls[0]).state, calls[1..], s');
    }
  }

  /** No call of the run tables an offer on a case that the index bars. */
  ghost predicate NeverBarred(s: State, calls: seq<Call>)
    decreases |calls|
  {
    calls != [] ==>
      && (TablesOn(s, calls[0]).Some? && TablesOn(s, calls[0]).value < |s.cases| ==>
        MayBeActive(s, TablesOn(s, calls[0]).value))
      && NeverBarred(Perform(s, calls[0]).state, calls[1..])
  }

  lemma {:induction false} CurrentRun(s: State, calls: seq<Call>, s': State)
    requires TableInv(s) && OpenIsCurrent(s) && CallRun(s, calls, s') && NeverBarred(s, calls)
    ensures OpenIsCurrent(s')
    decreases |calls|
  {
    if calls == [] {
    } else {
      TableCall(s, calls[0]);
      if TablesOn(s, calls[0]).Some? { var party, annualRent := TablingCall(s, calls[0]); }
      CurrentRun(Perform(s, calls[0]).state, calls[1..], s');
    }
  }

  /**
   Over any sequence of calls, from empty tables: the versions of a case are exactly 1 to n, in order
   of creation; an open offer is the only open one of its case and has the highest version; and it is
   the case's current offer in every run that never tables an offer against the active-case index.
   */
  lemma OffersOfACase(calls: seq<Call>, s: State, c: nat, v: nat)
    requires CallRun(EMPTY, calls, s)
    ensures HasVersion(s.offers, c, v) <==> 1 <= v <= CountOn(s.offers, c)
    ensures forall o | 0 <= o < |s.offers| && s.offers[o].renewalCase == c && s.offers[o].IsOpen() ::
              s.offers[o].version == CountOn(s.offers, c)
    ensures forall o, p | 0 <= o < |s.offers| && 0 <= p < |s.offers|
      && s.offers[o].renewalCase == s.offers[p].renewalCase
                          && s.offers[o].version == s.offers[p].version :: o == p
    ensures NeverBarred(EMPTY, calls) ==> OpenIsCurrent(s)
  {
    assert TableInv(EMPTY) && OpenIsCurrent(EMPTY);
    TableRun(EMPTY, calls, s);
    if NeverBarred(EMPTY, calls) { CurrentRun(EMPTY, calls, s); }
    VersionsAreOneToN(s.offers, c, v);
    forall o | 0 <= o < |s.offers| && s.offers[o].renewalCase == c && s.offers[o].IsOpen()
      ensures s.offers[o].version == CountOn(s.offers, c)
    {
      OpenIsHighest(s.offers, o);
    }
    VersionsDiffer(s.offers);
  }

  lemma HighestVersionAt(offers: seq<Offer>, o: nat) returns (p: nat)
    requires Counted(offers) && o < |offers|
    ensures p < |offers| && offers[p].renewalCase == offers[o].renewalCase
    ensures offers[o].version <= offers[p].version == CountOn(offers, offers[o].renewalCase)
    ensures p < o ==> offers[p].version < offers[o].version
  {
    var c := offers[o].renewalCase;
    VersionBound(offers, o);
    EveryVersionTaken(offers, c, CountOn(offers, c));
    p :| 0 <= p < |offers| && offers[p].renewalCase == c && offers[p].version == CountOn(offers, c);
    if p < o { VersionsIncrease(offers, p, o); }
  }

  lemma OpenIsHighest(offers: seq<Offer>, o: nat)
    requires Counted(offers) && OneOnTable(offers) && o < |offers| && offers[o].IsOpen()
    ensures offers[o].version == CountOn(offers, offers[o].renewalCase)
  {
    var p := HighestVersionAt(offers, o);
  }

  lemma VersionsDiffer(offers: seq<Offer>)
    requires Counted(offers)
    ensures forall o, p | 0 <= o < |offers| && 0 <= p < |offers| && offers[o].renewalCase == offers[p].renewalCase
                          && offers[o].version == offers[p].version :: o == p
  {
    forall o, p | 0 <= o < |offers| && 0 <= p < |offers| && offers[o].renewalCase == offers[p].renewalCase
                  && offers[o].version == offers[p].version
      ensures o == p
    {
      if o < p { VersionsIncrease(offers, o, p); } else if p < o { VersionsIncrease(offers, p, o); }
    }
  }
}
