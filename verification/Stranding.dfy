/**
 Which calls strand a decided case, when a decided case can still be completed, and runs that end in a
 stranded one.
 */
module Stranding {
  import opened Common
  import opened Renewals
  import opened RenewalCalls
  import opened OfferTable
  import opened NextAction
  import opened GuidedRuns

  /** Accepted and waiting for its successor. */
  ghost predicate Settled(s: State, c: nat) {
    c < |s.cases| && s.cases[c].status == AGREED && s.cases[c].decidedOffer.Some? && s.cases[c].renewedTenancy.None?
  }

  /** The case whose notice a call marks as served. */
  function ServesOn(s: State, call: Call): Option<nat> {
    match call
    case ServeNoticeFormal(n, input) =>
      if n < |s.notices| && s.notices[n].status == APPROVED && input.HasEvidence() then Some(s.notices[n].renewalCase)
      else None
    case ConfirmNoticeService(n, input) =>
      if n < |s.notices| && s.notices[n].status == SERVICE_RECORDED_PENDING_EVIDENCE && input.HasEvidence()
      then Some(s.notices[n].renewalCase) else None
    case ServeRenewalNotice(c, input) => if c < |s.cases| && input.HasEvidence() then Some(c) else None
    case _ => None
  }

  ghost predicate CaseUntouched(s: State, s': State, c: nat)
    requires c < |s.cases|
  {
    c < |s'.cases| && s'.cases[c] == s.cases[c]
  }

  // What strands a case

  lemma TablingMovesItsCase(s: State, e: nat, party: Party, annualRent: int, c: nat)
    requires e < |s.cases| && c < |s.cases|
    ensures var s' := PutOnTable(s, e, party, annualRent).state;
            && |s'.cases| == |s.cases|
            && (e != c ==> CaseUntouched(s, s', c))
            && (e == c && !Terminal(s.cases[c].status) ==>
                  s'.cases[c] == s.cases[c].(status := NEGOTIATING, currentOffer := Some(|s.offers|)))
  {
    assert Tabled(s, e, party, annualRent).cases == s.cases;
  }

  lemma TablingStrandsIffOnCase(s: State, call: Call, c: nat)
    requires Refs(s) && Settled(s, c) && TablesOn(s, call).Some?
    ensures Stranded(Perform(s, call).state, c) <==> TablesOn(s, call) == Some(c)
  {
    var party, annualRent := TablingCall(s, call);
    TablingMovesItsCase(s, TablesOn(s, call).value, party, annualRent, c);
  }

  lemma ServingMovesItsCase(s: State, n: nat, input: ServiceInput, c: nat)
    requires n < |s.notices| && s.notices[n].renewalCase < |s.cases| && c < |s.cases|
    ensures var s' := MarkServed(s, n, input);
            if s.notices[n].renewalCase == c
            then c < |s'.cases| && s'.cases[c] == s.cases[c].(status := NOTICE_SERVED, noticeServedAt := Some(input.at))
            else CaseUntouched(s, s', c)
  {}

  lemma ServeCallMoves(s: State, n: nat, input: ServiceInput, c: nat)
    requires Refs(s) && Settled(s, c)
    ensures var s' := ServeCall(s, n, input).state;
            if ServesOn(s, ServeNoticeFormal(n, input)) == Some(c) then Stranded(s', c) else CaseUntouched(s, s', c)
  {
    if n < |s.notices| { ServingMovesItsCase(s, n, input, c); }
  }

  lemma ConfirmCallMoves(s: State, n: nat, input: ServiceInput, c: nat)
    requires Refs(s) && Settled(s, c)
    ensures var s' := ConfirmCall(s, n, input).state;
            if ServesOn(s, ConfirmNoticeService(n, input)) == Some(c) then Stranded(s', c) else CaseUntouched(s, s', c)
  {
    if n < |s.notices| { ServingMovesItsCase(s, n, input, c); }
  }

  /** Preparing and approving a notice leaves the cases alone and ends in an approved notice of the case. */
  lemma ReadyNotice(s: State, e: nat, docId: Option<string>)
    requires Refs(s) && e < |s.cases|
    ensures var ready := ReadyToServe(s, e, docId);
            && Refs(ready) && ready.cases == s.cases && |ready.notices| == |s.notices| + 1
            && ready.notices[|s.notices|].renewalCase == e && ready.notices[|s.notices|].status == APPROVED
  {
    RefsStep(s, PrepareNotice(e, docId));
    RefsStep(Do(s, PrepareNotice(e, docId)), ApproveNotice(|s.notices|));
  }

  lemma ServeRenewalMovesCase(s: State, e: nat, input: ServiceInput, c: nat)
    requires Refs(s) && Settled(s, c)
    ensures var s' := ServeRenewalCall(s, e, input).state;
            if ServesOn(s, ServeRenewalNotice(e, input)) == Some(c) then Stranded(s', c) else CaseUntouched(s, s', c)
  {
    if e < |s.cases| {
      ReadyNotice(s, e, input.docId);
      ServeCallMoves(ReadyToServe(s, e, input.docId), |s.notices|, input, c);
    }
  }

  /** A case that is decided takes no second acceptance, and acceptances elsewhere pass it by. */
  lemma AcceptPassesBy(s: State, o: nat, c: nat)
    requires DecidedInv(s) && Settled(s, c)
    ensures CaseUntouched(s, AcceptCall(s, o).state, c)
  {
    assert AcceptedOn(s, c);
  }

  lemma ResponsePassesBy(s: State, o: nat, response: Response, c: nat)
    requires DecidedInv(s) && Settled(s, c) && o < |s.offers| && s.offers[o].renewalCase < |s.cases|
    requires !ValidCounter(response)
    ensures CaseUntouched(s, ApplyTenantResponse(s, o, response).state, c)
  {
    if response.Accept? {
      AcceptPathsAgree(s, o);
      AcceptPassesBy(s, o, c);
    }
  }

  lemma ViaLinkPassesBy(s: State, l: nat, now: int, response: Response, c: nat)
    requires Refs(s) && DecidedInv(s) && Settled(s, c) && TablesOn(s, RespondViaLink(l, now, response)).None?
    ensures CaseUntouched(s, RespondViaLinkCall(s, l, now, response).state, c)
  {
    if l < |s.links| && s.links[l].offer < |s.offers| && s.links[l].Usable(now) {
      var s1 := Do(s, ConsumeLink(l, now));
      ResponsePassesBy(s1, s.links[l].offer, response, c);
    }
  }

  lemma PlainCallPassesBy(s: State, call: Call, c: nat)
    requires Settled(s, c)
    requires call.RegisterTenancy? || call.OpenRenewalCase? || call.CaptureRentIndex? || call.SendOfferToTenant?
             || call.RevokeSecureLink? || call.SetStatus? || call.Archive? || call.PrepareRenewalNotice?
             || call.ApproveRenewalNotice?
    ensures CaseUntouched(s, Perform(s, call).state, c)
  {}

  lemma MintPassesBy(s: State, e: nat, input: MintInput, c: nat)
    requires Settled(s, c)
    ensures !Stranded(MintCall(s, e, input).state, c)
  {}

  /**
   Of all calls, exactly those that table an offer on a decided, uncompleted case or serve a notice of it
   with proof strand it.
   */
  lemma StrandedByExactly(s: State, call: Call, c: nat)
    requires Inv(s) && Settled(s, c)
    ensures Stranded(Perform(s, call).state, c) <==> TablesOn(s, call) == Some(c) || ServesOn(s, call) == Some(c)
  {
    if TablesOn(s, call).Some? {
      TablingStrandsIffOnCase(s, call, c);
    } else {
      QuietCallStrandsIffServes(s, call, c);
    }
  }

  lemma QuietCallStrandsIffServes(s: State, call: Call, c: nat)
    requires Refs(s) && DecidedInv(s) && Settled(s, c) && TablesOn(s, call).None?
    ensures Stranded(Perform(s, call).state, c) <==> ServesOn(s, call) == Some(c)
  {
    match call
    case ProposeOffer(_, _, _) =>
    case AcceptOffer(o) => AcceptPassesBy(s, o, c);
    case RespondAsTenant(o, response) => if o < |s.offers| { ResponsePassesBy(s, o, response, c); }
    case RespondViaLink(l, now, response) => ViaLinkPassesBy(s, l, now, response, c);
    case MintRenewedTenancy(e, input) => MintPassesBy(s, e, input, c);
    case ServeNoticeFormal(n, input) => ServeCallMoves(s, n, input, c);
    case ConfirmNoticeService(n, input) => ConfirmCallMoves(s, n, input, c);
    case ServeRenewalNotice(e, input) => ServeRenewalMovesCase(s, e, input, c);
    case _ => PlainCallPassesBy(s, call, c);
  }

  // When the completion is accepted, and when it can still come

  ghost predicate Decided(s: State, c: nat) {
    c < |s.cases| && s.cases[c].decidedOffer.Some? && s.cases[c].renewedTenancy.None?
  }

  predicate SoundTerms(input: MintInput) {
    input.annualRent > 0 && input.startMs < input.endMs
  }

  /**
   Completing a decided case is accepted if and only if the input is sound, the successor's notice period
   included, the case is not stranded and its tenancy has no successor.
   */
  lemma CompletionAcceptedIff(s: State, c: nat, input: MintInput)
    requires Refs(s) && Decided(s, c)
    ensures Perform(s, MintRenewedTenancy(c, input)).reply.Ok? <==>
            && SoundTerms(input) && SuccessorNotice(s, c, input) > 0
            && !Stranded(s, c) && !HasSuccessor(s, s.cases[c].tenancy)
    ensures Perform(s, MintRenewedTenancy(c, input)).reply.Ok? ==>
              c < |Perform(s, MintRenewedTenancy(c, input)).state.cases|
              && Perform(s, MintRenewedTenancy(c, input)).state.cases[c].renewedTenancy.Some?
  {}

  lemma CompletionIsOfADecidedCase(s: State, t: nat, c: nat, today: int, benchmark: bool)
    requires Refs(s) && DecidedInv(s) && t < |s.tenancies| && LatestCase(s.cases, t) == Some(c)
    requires Recommended(s, t, today, benchmark) == COMPLETE_RENEWAL
    ensures Decided(s, c)
  {
    FactsOfCaseAre(s, t, today, benchmark, c);
    ActionNeverRunsAhead(FactsOf(s, t, today, benchmark));
  }

  /**
   Whenever completing is recommended, it is accepted if and only if the case is AGREED, nothing renews the
   tenancy yet and the input is sound, the successor's notice period included.
   */
  lemma RecommendedCompletionAcceptedIff(s: State, t: nat, c: nat, today: int, benchmark: bool, input: MintInput)
    requires Refs(s) && DecidedInv(s) && t < |s.tenancies| && LatestCase(s.cases, t) == Some(c)
    requires Recommended(s, t, today, benchmark) == COMPLETE_RENEWAL
    ensures Perform(s, MintRenewedTenancy(c, input)).reply.Ok? <==>
            && SoundTerms(input) && SuccessorNotice(s, c, input) > 0
            && s.cases[c].status == AGREED && !HasSuccessor(s, t)
  {
    CompletionIsOfADecidedCase(s, t, c, today, benchmark);
    CompletionAcceptedIff(s, c, input);
  }

  /** Some sequence of calls completes the case. */
  ghost predicate CanComplete(s: State, c: nat) {
    exists calls, s' :: CallRun(s, calls, s') && c < |s'.cases| && s'.cases[c].renewedTenancy.Some?
  }

  lemma SuccessorStays(s: State, step: Step, t: nat)
    requires Enabled(s, step) && HasSuccessor(s, t)
    ensures HasSuccessor(Do(s, step), t)
  {
    var u :| 0 <= u < |s.tenancies| && s.tenancies[u].renewsFrom == Some(t);
    assert Do(s, step).tenancies[u].renewsFrom == Some(t);
  }

  lemma StaysUnminted(s: State, step: Step, c: nat)
    requires Inv(s) && Enabled(s, step) && Decided(s, c) && HasSuccessor(s, s.cases[c].tenancy)
    ensures Decided(Do(s, step), c) && HasSuccessor(Do(s, step), Do(s, step).cases[c].tenancy)
  {
    ForeverStep(s, step);
    SuccessorStays(s, step, s.cases[c].tenancy);
    if !step.MintTx? {
      MintsKept(s, step);
      assert MintKept(s.cases[c], Do(s, step).cases[c]);
    }
  }

  /** A tenancy that was renewed through another case is never renewed through this one. */
  lemma {:induction false} NeverMintedTwice(s: State, steps: seq<Step>, s': State, c: nat)
    requires Inv(s) && Run(s, steps, s') && Decided(s, c) && HasSuccessor(s, s.cases[c].tenancy)
    ensures Decided(s', c)
    decreases |steps|
  {
    if steps == [] {
    } else {
      InvStep(s, steps[0]);
      StaysUnminted(s, steps[0], c);
      NeverMintedTwice(Do(s, steps[0]), steps[1..], s', c);
    }
  }

  /**
   A decided case can still be completed, by whatever calls, if and only if it is not stranded and its
   tenancy was not renewed through another case.
   */
  lemma CompletableIff(s: State, c: nat)
    requires Inv(s) && Decided(s, c)
    ensures CanComplete(s, c) <==> !Stranded(s, c) && !HasSuccessor(s, s.cases[c].tenancy)
  {
    var input := MintInput(0, 1, 1, Some(90));
    var mint := MintRenewedTenancy(c, input);
    if !Stranded(s, c) && !HasSuccessor(s, s.cases[c].tenancy) {
      CompletionAcceptedIff(s, c, input);
      var s' := Perform(s, mint).state;
      assert [mint][0] == mint && [mint][1..] == [];
      assert CallRun(s', [], s');
      assert CallRun(s, [mint], s');
    } else {
      forall calls, s' | CallRun(s, calls, s') ensures c < |s'.cases| && s'.cases[c].renewedTenancy.None? {
        CallsLead(s, calls, s');
        var steps :| Run(s, steps, s');
        if Stranded(s, c) { StrandedForever(s, c, steps, s'); } else { NeverMintedTwice(s, steps, s', c); }
      }
    }
  }

  /** After any calls the completion of a stranded case is refused. */
  lemma StrandedIsRefusedForGood(s: State, c: nat, calls: seq<Call>, s': State, input: MintInput)
    requires Inv(s) && Stranded(s, c) && CallRun(s, calls, s')
    ensures Perform(s', MintRenewedTenancy(c, input)).reply == Err(Unprocessable)
  {
    CallsLead(s, calls, s');
    var steps :| Run(s, steps, s');
    StrandedForever(s, c, steps, s');
    StrandedIsRefused(s', c, input);
  }

  lemma StrandedIsRefused(s: State, c: nat, input: MintInput)
    requires Stranded(s, c)
    ensures Perform(s, MintRenewedTenancy(c, input)).reply == Err(Unprocessable)
  {}
}
