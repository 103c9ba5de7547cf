/** A run from empty tables to a stranded case that the next action still wants completed. */
module StrandedRun {
  import opened Common
  import opened Renewals
  import opened RenewalCalls
  import opened NextAction
  import opened GuidedRenewal
  import opened GuidedRuns
  import opened OfferBand
  import opened Stranding
  import Rent

  const INDEX := CaptureRentIndex(0, CaptureInput(8_000_000, true, true, 100))
  const PROOF := ServiceInput(Some("courier"), None, None, 200)

  const CALLS :=
    [TERM, INDEX, OpenRenewalCase(0), ServeRenewalNotice(0, PROOF), ProposeOffer(0, LANDLORD, 6_100_000),
      AcceptOffer(0),
     ProposeOffer(0, LANDLORD, 6_200_000)]

  const FIRST := Offer(0, 1, LANDLORD, 6_100_000, SENT, Some(6_600_000))
  const SECOND := Offer(0, 2, LANDLORD, 6_200_000, SENT, Some(6_600_000))
  const SERVED_CASE := CASE.(status := NOTICE_SERVED, noticeServedAt := Some(200))
  const NOTICE := Notice(0, SERVED, Some("courier"), None, None)
  const EVENTS := [NoticeEvent(0, NoticeGenerated), NoticeEvent(0, NoticeApproved), NoticeEvent(0, NoticeServed)]

  const INDEXED := REGISTERED.(captures := [Capture(0, Some(6_600_000), true, 100)])
  const CASED := INDEXED.(cases := [CASE])
  const SERVICED :=
    CASED.(cases := [SERVED_CASE], notices := [NOTICE], noticeLog := EVENTS,
           tenancies := [HOME.(status := T_NOTICE_SERVED)])
  const OFFERED :=
    SERVICED.(cases := [SERVED_CASE.(status := NEGOTIATING, currentOffer := Some(0))], offers := [FIRST],
              tenancies := [HOME.(status := T_NEGOTIATING)])
  const ACCEPTED_STATE :=
    OFFERED.(cases := [SERVED_CASE.(status := AGREED, currentOffer := Some(0), decidedOffer := Some(0))],
             offers := [FIRST.(status := ACCEPTED)], tenancies := [HOME.(status := T_RENEWED)])
  const STRANDED_STATE :=
    ACCEPTED_STATE.(cases := [SERVED_CASE.(status := NEGOTIATING, currentOffer := Some(1), decidedOffer := Some(0))],
                    offers := [FIRST.(status := ACCEPTED), SECOND])

  lemma Assessment()
    ensures Perform(REGISTERED, INDEX).state == INDEXED
    ensures Perform(INDEXED, OpenRenewalCase(0)).state == CASED
  {
    assert Rent.Decree43(6_000_000, 8_000_000).value.ceiling == 6_600_000;
  }

  lemma Service()
    ensures Perform(CASED, ServeRenewalNotice(0, PROOF)).state == SERVICED
  {
    var ready := ReadyToServe(CASED, 0, None);
    assert ready.notices == [Notice(0, APPROVED, None, None, None)];
    assert MayBeActive(ready, 0);
  }

  lemma Proposal()
    ensures Perform(SERVICED, ProposeOffer(0, LANDLORD, 6_100_000)).state == OFFERED
  {
    assert LatestCapture(SERVICED.captures, 0, true) == Some(0);
    var s2 := Tabled(SERVICED, 0, LANDLORD, 6_100_000);
    assert s2.offers == [FIRST];
    assert MayBeActive(s2, 0);
    assert PutOnTable(SERVICED, 0, LANDLORD, 6_100_000).state.cases == OFFERED.cases;
  }

  lemma Acceptance()
    ensures Perform(OFFERED, AcceptOffer(0)).state == ACCEPTED_STATE
  {
    assert !AcceptedOn(OFFERED, 0) && MayBeActive(OFFERED, 0);
    var s1 := Do(OFFERED, AcceptTx(0));
    assert s1.offers == ACCEPTED_STATE.offers && s1.cases == ACCEPTED_STATE.cases;
  }

  lemma SecondProposal()
    ensures Perform(ACCEPTED_STATE, ProposeOffer(0, LANDLORD, 6_200_000)).state == STRANDED_STATE
  {
    assert LatestCapture(ACCEPTED_STATE.captures, 0, true) == Some(0);
    assert NewestOffer(ACCEPTED_STATE.offers, 0) == Some(0);
    var s2 := Tabled(ACCEPTED_STATE, 0, LANDLORD, 6_200_000);
    assert s2.offers == [FIRST.(status := ACCEPTED), SECOND];
    assert MayBeActive(s2, 0);
    assert PutOnTable(ACCEPTED_STATE, 0, LANDLORD, 6_200_000).state.cases == STRANDED_STATE.cases;
  }

  lemma StrandedStateIsReached()
    ensures CallRun(EMPTY, CALLS, STRANDED_STATE)
  {
    FirstCalls();
    Assessment();
    Service();
    Proposal();
    Acceptance();
    SecondProposal();
    var calls := CALLS;
    assert CallRun(STRANDED_STATE, calls[7..], STRANDED_STATE);
    assert calls[6..][1..] == calls[7..] && CallRun(ACCEPTED_STATE, calls[6..], STRANDED_STATE);
    assert calls[5..][1..] == calls[6..] && CallRun(OFFERED, calls[5..], STRANDED_STATE);
    assert calls[4..][1..] == calls[5..] && CallRun(SERVICED, calls[4..], STRANDED_STATE);
    assert calls[3..][1..] == calls[4..] && CallRun(CASED, calls[3..], STRANDED_STATE);
    assert calls[2..][1..] == calls[3..] && CallRun(INDEXED, calls[2..], STRANDED_STATE);
    assert calls[1..][1..] == calls[2..] && CallRun(REGISTERED, calls[1..], STRANDED_STATE);
  }

  lemma StrandedStateIsSound()
    ensures Inv(STRANDED_STATE)
  {
    assert Inv(EMPTY);
    StrandedStateIsReached();
    CallsLead(EMPTY, CALLS, STRANDED_STATE);
    LeadsKeepsInv(EMPTY, STRANDED_STATE);
  }

  /** The facts that the recommendation rests on. */
  lemma StrandedStateFacts(benchmark: bool)
    ensures LatestCase(STRANDED_STATE.cases, 0) == Some(0) && Stranded(STRANDED_STATE, 0)
    ensures NoticeStatusOf(STRANDED_STATE, 0) == Some(SERVED) && IndexSettled(STRANDED_STATE.captures, 0, benchmark)
  {
    assert LatestCapture(STRANDED_STATE.captures, 0, false) == Some(0);
    assert LatestNotice(STRANDED_STATE.notices, 0) == Some(0);
  }

  /**
   With a served notice and an official index, a proposal after the acceptance strands the case: on every
   day the next action is to complete the renewal, and every completion is refused, now and after any calls.
   */
  lemma ProposalAfterAcceptanceStrands(today: int, benchmark: bool, input: MintInput, more: seq<Call>, s': State)
    requires CallRun(STRANDED_STATE, more, s')
    ensures CallRun(EMPTY, CALLS, STRANDED_STATE) && Stranded(STRANDED_STATE, 0)
    ensures Recommended(STRANDED_STATE, 0, today, benchmark) == COMPLETE_RENEWAL
    ensures Perform(STRANDED_STATE, MintRenewedTenancy(0, input)).reply == Err(Unprocessable)
    ensures Perform(s', MintRenewedTenancy(0, input)).reply == Err(Unprocessable)
  {
    StrandedStateIsReached();
    StrandedStateIsSound();
    StrandedStateFacts(benchmark);
    StrandedIsRecommendedToComplete(STRANDED_STATE, 0, 0, today, benchmark, input);
    StrandedIsRefusedForGood(STRANDED_STATE, 0, more, s', input);
  }
}
