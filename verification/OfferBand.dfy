/** The above-band flag of a case and what can still move it; and a run in which an open offer is not current. */
module OfferBand {
  import opened Common
  import opened Dates
  import opened Renewals
  import opened RenewalCalls
  import opened OfferTable
  import Risk

  predicate Live(offer: Offer) {
    offer.IsOpen() || offer.status == ACCEPTED
  }

  /** The live offer of a case with the highest version. */
  function NewestLive(offers: seq<Offer>, c: nat): (r: Option<nat>)
    ensures r.Some? ==> r.value < |offers| && offers[r.value].renewalCase == c && Live(offers[r.value])
    decreases |offers|
  {
    if offers == [] then None
    else
      var last := |offers| - 1;
      var rest := NewestLive(offers[..last], c);
      if offers[last].renewalCase == c && Live(offers[last])
        && (rest.None? || offers[rest.value].version <= offers[last].version)
      then Some(last) else rest
  }

  /** The offer the risk rules look at: the current one, else the newest live one. */
  function ActiveOffer(s: State, c: nat): Option<nat>
    requires c < |s.cases|
  {
    if s.cases[c].currentOffer.Some? then s.cases[c].currentOffer else NewestLive(s.offers, c)
  }

  /** Unlike the ceiling of an offer, a linked capture that is gone is not replaced here. */
  function CaptureMax(s: State, c: nat): Option<int>
    requires c < |s.cases|
  {
    if s.cases[c].indexCapture.Some? && s.cases[c].indexCapture.value >= |s.captures| then None else CeilingNow(s, c)
  }

  function FactsOfCase(s: State, c: nat): Risk.CaseFacts
    requires c < |s.cases|
  {
    var active := ActiveOffer(s, c);
    var row := if active.Some? && active.value < |s.offers| then Some(s.offers[active.value]) else None;
    Risk.CaseFacts(c, false,
                   if row.Some? then Some(row.value.annualRent) else None,
                   if row.Some? then row.value.permittedMaxSnapshot else None,
                   CaptureMax(s, c), Some(s.cases[c].noticeGateDay), s.cases[c].noticeServedAt.Some?)
  }

  /**
   While an offer with a frozen ceiling stays current, nothing, and no capture in particular, changes
   the above-band answer.
   */
  lemma FrozenCeilingSettlesTheBand(s: State, steps: seq<Step>, s': State, c: nat, o: nat)
    requires Inv(s) && Run(s, steps, s') && c < |s.cases| && o < |s.offers|
    requires s.cases[c].currentOffer == Some(o) && s.offers[o].permittedMaxSnapshot.Some?
    requires c < |s'.cases| && s'.cases[c].currentOffer == Some(o)
    ensures Risk.AboveBand(FactsOfCase(s', c)) <==> Risk.AboveBand(FactsOfCase(s, c))
    ensures Risk.AboveBand(FactsOfCase(s', c)) <==> s.offers[o].annualRent > s.offers[o].permittedMaxSnapshot.value
  {
    ForeverRun(s, steps, s');
    assert OfferKept(s.offers[o], s'.offers[o]);
  }

  lemma LatestIsNewCapture(captures: seq<Capture>, k: Capture, t: nat)
    requires CaptureCounts(k, t, true)
    requires forall i | 0 <= i < |captures| && captures[i].tenancy == t :: captures[i].capturedAt <= k.capturedAt
    ensures LatestCapture(captures + [k], t, true) == Some(|captures|)
  {
    assert (captures + [k])[..|captures|] == captures;
  }

  /** Without a frozen ceiling the next capture decides: the flag follows its ceiling. */
  lemma UnfrozenBandFollowsCaptures(s: State, c: nat, o: nat, k: Capture)
    requires c < |s.cases| && o < |s.offers| && s.cases[c].currentOffer == Some(o)
    requires s.offers[o].permittedMaxSnapshot.None?
    requires s.cases[c].indexCapture.None? && Enabled(s, AddCapture(k)) && CaptureCounts(k, s.cases[c].tenancy, true)
    requires forall i | 0 <= i < |s.captures| && s.captures[i].tenancy == s.cases[c].tenancy ::
               s.captures[i].capturedAt <= k.capturedAt
    ensures Risk.AboveBand(FactsOfCase(Do(s, AddCapture(k)), c)) <==> s.offers[o].annualRent > k.permittedMax.value
  {
    LatestIsNewCapture(s.captures, k, s.cases[c].tenancy);
  }

  const TERM := RegisterTenancy(0, 364, 6_000_000, 90)
  const NEXT_TERM := MintInput(365 * DAY_MS, 729 * DAY_MS, 6_100_000, None)

  const HOME := Tenancy(T_ACTIVE, 0, 364, 6_000_000, 90, None, None)
  const CASE := RenewalCase(0, ASSESSING, 274, None, None, None, None, None)
  const OFFER := Offer(0, 1, LANDLORD, 6_100_000, SENT, None)

  const REGISTERED := EMPTY.(tenancies := [HOME])
  const OPENED := REGISTERED.(cases := [CASE])
  const PROPOSED :=
    OPENED.(cases := [CASE.(status := NEGOTIATING, currentOffer := Some(0))], offers := [OFFER],
      tenancies := [HOME.(status := T_NEGOTIATING)])
  const SETTLED :=
    PROPOSED.(cases := [CASE.(status := AGREED, currentOffer := Some(0), decidedOffer := Some(0))],
              offers := [OFFER.(status := ACCEPTED)], tenancies := [HOME.(status := T_RENEWED)])
  const DONE := CASE.(status := RENEWED, currentOffer := Some(0), decidedOffer := Some(0), renewedTenancy := Some(1))
  const MINTED :=
    SETTLED.(cases := [DONE],
      tenancies := [HOME.(status := T_RENEWED), Tenancy(T_ACTIVE, 365, 729, 6_100_000, 90, Some(0), None)])

  /** A completed case beside a new one on the same tenancy. */
  const REOPENED := MINTED.(cases := [DONE, CASE])

  lemma FirstCalls()
    ensures Perform(EMPTY, TERM).state == REGISTERED
    ensures Perform(REGISTERED, OpenRenewalCase(0)).state == OPENED
  {}

  lemma FirstProposal()
    ensures Perform(OPENED, ProposeOffer(0, LANDLORD, 6_100_000)).state == PROPOSED
  {
    var s2 := Tabled(OPENED, 0, LANDLORD, 6_100_000);
    assert s2.offers == [OFFER];
    assert MayBeActive(s2, 0);
    assert PutOnTable(OPENED, 0, LANDLORD, 6_100_000).state.cases == PROPOSED.cases;
  }

  lemma Settlement()
    ensures Perform(PROPOSED, AcceptOffer(0)).state == SETTLED
  {
    assert !AcceptedOn(PROPOSED, 0) && MayBeActive(PROPOSED, 0);
    var s1 := Do(PROPOSED, AcceptTx(0));
    assert s1.offers == SETTLED.offers && s1.cases == SETTLED.cases;
  }

  lemma Completion()
    ensures Perform(SETTLED, MintRenewedTenancy(0, NEXT_TERM)).state == MINTED
    ensures Perform(MINTED, OpenRenewalCase(0)).state == REOPENED
  {
    assert !HasSuccessor(SETTLED, 0);
    assert ActiveCaseFrom(MINTED.cases, 0, 0) == None;
  }

  const UP_TO_REOPENED :=
    [TERM, OpenRenewalCase(0), ProposeOffer(0, LANDLORD, 6_100_000), AcceptOffer(0), MintRenewedTenancy(0, NEXT_TERM),
      OpenRenewalCase(0)]

  lemma ReopenedIsReached()
    ensures CallRun(EMPTY, UP_TO_REOPENED, REOPENED)
  {
    FirstCalls();
    FirstProposal();
    Settlement();
    Completion();
    var calls := UP_TO_REOPENED;
    assert CallRun(REOPENED, calls[6..], REOPENED);
    assert calls[5..][1..] == calls[6..] && CallRun(MINTED, calls[5..], REOPENED);
    assert calls[4..][1..] == calls[5..] && CallRun(SETTLED, calls[4..], REOPENED);
    assert calls[3..][1..] == calls[4..] && CallRun(PROPOSED, calls[3..], REOPENED);
    assert calls[2..][1..] == calls[3..] && CallRun(OPENED, calls[2..], REOPENED);
    assert calls[1..][1..] == calls[2..] && CallRun(REGISTERED, calls[1..], REOPENED);
  }

  /** Proposing on the completed case fails with an untranslated error and leaves an open offer that is not current. */
  lemma BarredProposalLeavesAStrayOffer()
    ensures CallRun(EMPTY, UP_TO_REOPENED, REOPENED) && OpenIsCurrent(REOPENED)
    ensures var out := Perform(REOPENED, ProposeOffer(0, LANDLORD, 6_200_000));
            && out.reply == Err(Uncaught) && !OpenIsCurrent(out.state)
            && |out.state.offers| == 2 && out.state.offers[1].IsOpen() && out.state.cases[0].currentOffer == Some(0)
  {
    ReopenedIsReached();
    var s2 := Tabled(REOPENED, 0, LANDLORD, 6_200_000);
    assert s2.cases[1] == CASE;
    assert ActiveElsewhere(s2, 0);
    assert s2.offers[1].IsOpen() && s2.offers[1].renewalCase == 0;
  }
}
