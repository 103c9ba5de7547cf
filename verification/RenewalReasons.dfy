/** Why a renewal call is refused: the rows and figures behind each status code. */
module RenewalReasons {
  import opened Common
  import opened Renewals
  import opened RenewalCalls
  import opened RenewalEffects

  predicate BadFigures(call: Call) {
    match call
    case CaptureRentIndex(_, capture) => capture.market <= 0
    case ProposeOffer(_, _, annualRent) => annualRent <= 0
    case _ => false
  }

  predicate Names(s: State, call: Call) {
    match call
    case RegisterTenancy(_, _, _, _) => true
    case OpenRenewalCase(t) => t < |s.tenancies|
    case CaptureRentIndex(t, _) => t < |s.tenancies|
    case SetStatus(t, _) => t < |s.tenancies|
    case Archive(t, _) => t < |s.tenancies|
    case ProposeOffer(c, _, _) => c < |s.cases|
    case MintRenewedTenancy(c, _) => c < |s.cases|
    case PrepareRenewalNotice(c, _) => c < |s.cases|
    case ServeRenewalNotice(c, _) => c < |s.cases|
    case AcceptOffer(o) => o < |s.offers|
    case SendOfferToTenant(o, _) => o < |s.offers|
    case RespondAsTenant(o, _) => o < |s.offers|
    case RevokeSecureLink(l) => l < |s.links|
    case RespondViaLink(l, _, _) => l < |s.links| && s.links[l].offer < |s.offers|
    case ApproveRenewalNotice(n) => n < |s.notices|
    case ServeNoticeFormal(n, _) => n < |s.notices|
    case ConfirmNoticeService(n, _) => n < |s.notices|
  }

  predicate BadCounter(response: Response) {
    response.Counter? && (response.annualRent <= 0 || response.schedule.None? || response.schedule.value == "")
  }

  /** The row is in the wrong status, or what is asked of it is unsound. */
  predicate Unfit(s: State, call: Call)
    requires Names(s, call)
  {
    match call
    case CaptureRentIndex(_, capture) => capture.claimsOfficial && !capture.hasArtefact
    case RespondAsTenant(_, response) => BadCounter(response)
    case RespondViaLink(_, _, response) => BadCounter(response)
    case MintRenewedTenancy(c, input) =>
      s.cases[c].status != AGREED
      || (s.cases[c].renewedTenancy.None? && (input.annualRent <= 0 || input.endMs <= input.startMs))
    case ApproveRenewalNotice(n) => s.notices[n].status != GENERATED
    case ServeNoticeFormal(n, _) => s.notices[n].status != APPROVED
    case ConfirmNoticeService(n, input) =>
      s.notices[n].status != SERVICE_RECORDED_PENDING_EVIDENCE || !Proof(input)
    case SetStatus(t, status) => s.tenancies[t].status !in Sources(status)
    case _ => false
  }

  /** Someone was there before: the case is decided, the offer closed, the renewal done. */
  predicate Clashes(s: State, call: Call)
    requires Names(s, call)
  {
    match call
    case AcceptOffer(o) => !Acceptable(s, o)
    case RespondAsTenant(o, response) => response.Accept? && !Acceptable(s, o)
    case RespondViaLink(l, _, response) => response.Accept? && !Acceptable(s, s.links[l].offer)
    case MintRenewedTenancy(c, _) => s.cases[c].renewedTenancy.Some?
    case _ => false
  }

  predicate HasLiveCase(s: State, t: nat) {
    exists c | 0 <= c < |s.cases| :: s.cases[c].tenancy == t && LiveCase(s.cases[c])
  }

  predicate NoRoom(s: State, c: nat) {
    c < |s.cases| && !RoomFor(s, c)
  }

  /** A term without a notice period has no gate. */
  predicate NoGate(s: State, c: nat, input: MintInput) {
    if input.noticePeriodDays.Some? then input.noticePeriodDays.value <= 0
    else c < |s.cases| && s.cases[c].tenancy < |s.tenancies| && s.tenancies[s.cases[c].tenancy].noticePeriodDays <= 0
  }

  /** A unique index or a calculator stops the call, and nothing translates the error. */
  predicate Breaks(s: State, call: Call)
    requires Names(s, call)
  {
    match call
    case RegisterTenancy(_, _, _, noticePeriodDays) => noticePeriodDays <= 0
    case OpenRenewalCase(t) => s.tenancies[t].noticePeriodDays <= 0 && !HasLiveCase(s, t)
    case CaptureRentIndex(t, _) => s.tenancies[t].annualRent <= 0
    case ProposeOffer(c, _, _) => NoRoom(s, c)
    case RespondAsTenant(o, response) => response.Counter? && NoRoom(s, s.offers[o].renewalCase)
    case RespondViaLink(l, _, response) =>
      response.Counter? && NoRoom(s, s.offers[s.links[l].offer].renewalCase)
    case MintRenewedTenancy(c, input) =>
      (exists t | 0 <= t < |s.tenancies| :: s.tenancies[t].renewsFrom == Some(s.cases[c].tenancy))
      || NoGate(s, c, input)
    case ServeNoticeFormal(n, input) => Proof(input) && NoRoom(s, s.notices[n].renewalCase)
    case ConfirmNoticeService(n, _) => NoRoom(s, s.notices[n].renewalCase)
    case ServeRenewalNotice(c, input) => Proof(input) && NoRoom(s, c)
    case _ => false
  }

  function ReasonOf(s: State, call: Call): Option<Refusal> {
    if BadFigures(call) then Some(Unprocessable)
    else if !Names(s, call) then Some(NotFound)
    else if call.RespondViaLink? && !RenewalEffects.Usable(s.links[call.l], call.now) then Some(Gone)
    else if Unfit(s, call) then Some(Unprocessable)
    else if Clashes(s, call) then Some(Conflict)
    else if Breaks(s, call) then Some(Uncaught)
    else None
  }

  predicate RefusedFor(s: State, call: Call) {
    var reply := Perform(s, call).reply;
    reply.Err? == ReasonOf(s, call).Some? && (reply.Err? ==> ReasonOf(s, call) == Some(reply.error))
  }

  lemma ProposalReasons(s: State, c: nat, party: Party, annualRent: int)
    ensures RefusedFor(s, ProposeOffer(c, party, annualRent))
  {
    ProposeEffect(s, c, party, annualRent);
    if annualRent > 0 && c < |s.cases| {
      PutOnTableEffect(s, c, party, annualRent);
      ProposeIsTabling(s, c, party, annualRent);
    }
  }

  lemma AcceptReasons(s: State, o: nat)
    requires Refs(s)
    ensures RefusedFor(s, AcceptOffer(o)) && RefusedFor(s, RespondAsTenant(o, Accept))
  {
    AcceptEffect(s, o);
  }

  lemma CounterReasons(s: State, o: nat, annualRent: int, schedule: Option<string>)
    requires Refs(s)
    ensures RefusedFor(s, RespondAsTenant(o, Counter(annualRent, schedule)))
  {
    CounterEffect(s, o, annualRent, schedule);
    if o < |s.offers| { PutOnTableEffect(s, s.offers[o].renewalCase, TENANT, annualRent); }
  }

  lemma ResponseReasons(s: State, o: nat, response: Response)
    requires Refs(s)
    ensures RefusedFor(s, RespondAsTenant(o, response))
  {
    match response
    case Accept => AcceptReasons(s, o);
    case Counter(annualRent, schedule) => CounterReasons(s, o, annualRent, schedule);
    case Ask => AskEffect(s, o);
  }

  lemma LinkReasonIsThePortals(s: State, l: nat, now: int, response: Response)
    requires l < |s.links| && s.links[l].offer < |s.offers| && RenewalEffects.Usable(s.links[l], now)
    ensures ReasonOf(s, RespondViaLink(l, now, response)) == ReasonOf(s, RespondAsTenant(s.links[l].offer, response))
  {}

  lemma LinkReplyIsThePortals(s: State, l: nat, now: int, response: Response)
    requires Refs(s) && l < |s.links| && s.links[l].offer < |s.offers|
    ensures Perform(s, RespondViaLink(l, now, response)).reply ==
              if RenewalEffects.Usable(s.links[l], now)
              then Perform(s, RespondAsTenant(s.links[l].offer, response)).reply else Err(Gone)
  {
    ViaLinkEffect(s, l, now, response);
  }

  lemma LinkReasons(s: State, l: nat, now: int, response: Response)
    requires Refs(s)
    ensures RefusedFor(s, RespondViaLink(l, now, response))
  {
    if l < |s.links| && s.links[l].offer < |s.offers| {
      LinkReplyIsThePortals(s, l, now, response);
      if RenewalEffects.Usable(s.links[l], now) {
        LinkReasonIsThePortals(s, l, now, response);
        ResponseReasons(s, s.links[l].offer, response);
      }
    }
  }

  lemma NoticeReasons(s: State, n: nat, input: ServiceInput)
    requires Refs(s)
    ensures RefusedFor(s, ServeNoticeFormal(n, input)) && RefusedFor(s, ConfirmNoticeService(n, input))
  {
    ServeEffect(s, n, input);
    ConfirmEffect(s, n, input);
  }

  lemma ReadyKeepsTheRows(s: State, c: nat, docId: Option<string>)
    requires c < |s.cases|
    ensures var s' := ReadyToServe(s, c, docId);
            && s' == s.(notices := s'.notices, noticeLog := s'.noticeLog) && |s'.notices| == |s.notices| + 1
            && s'.notices[|s.notices|].status == APPROVED && s'.notices[|s.notices|].renewalCase == c
  {}

  lemma ServeRenewalReasons(s: State, c: nat, input: ServiceInput)
    ensures RefusedFor(s, ServeRenewalNotice(c, input))
  {
    if c < |s.cases| {
      ReadyKeepsTheRows(s, c, input.docId);
      var ready := ReadyToServe(s, c, input.docId);
      RoomIsTheIndex(s, c);
      assert MayBeActive(ready, c) <==> MayBeActive(s, c);
    }
  }

  lemma MintReasons(s: State, c: nat, input: MintInput)
    requires Refs(s)
    ensures RefusedFor(s, MintRenewedTenancy(c, input))
  {
    CompletionEffect(s, c, input);
  }

  /**
   A call is refused exactly for a reason of its own, and with its status code: 422 for figures nobody could
   accept, 404 for a row that is not there, 410 for a link without a use, 422 for a row in the wrong status or
   terms that are unsound, 409 where someone was first; what breaks on an index or a calculator is left untranslated.
   */
  lemma RefusedForAReason(s: State, call: Call)
    requires Refs(s)
    ensures RefusedFor(s, call)
  {
    match call
    case OpenRenewalCase(t) => OpenEffect(s, t);
    case CaptureRentIndex(t, k) => CaptureEffect(s, t, k);
    case ProposeOffer(c, party, annualRent) => ProposalReasons(s, c, party, annualRent);
    case AcceptOffer(o) => AcceptReasons(s, o);
    case RespondAsTenant(o, response) => ResponseReasons(s, o, response);
    case RespondViaLink(l, now, response) => LinkReasons(s, l, now, response);
    case MintRenewedTenancy(c, input) => MintReasons(s, c, input);
    case ServeNoticeFormal(n, input) => NoticeReasons(s, n, input);
    case ConfirmNoticeService(n, input) => NoticeReasons(s, n, input);
    case ServeRenewalNotice(c, input) => ServeRenewalReasons(s, c, input);
    case SetStatus(t, status) => SetStatusEffect(s, t, status);
    case _ =>
  }
}
