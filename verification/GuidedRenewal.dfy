/**
 Doing what the next action recommends: the call is always accepted, and the renewal is completed in
 a bounded number of calls.
 */
module GuidedRenewal {
  import opened Common
  import opened Renewals
  import opened RenewalCalls
  import opened OfferTable
  import opened NextAction

  /** A notice period asked for is positive; without one the successor takes the predecessor's. */
  predicate NoticeOrDefault(input: MintInput) {
    input.noticePeriodDays.Some? ==> input.noticePeriodDays.value > 0
  }

  predicate SoundResponse(response: Response) {
    response.Counter? ==> ValidCounter(response)
  }

  /** An official capture, later than every capture on file. */
  predicate FreshOfficialCapture(s: State, t: nat, call: Call) {
    && call.CaptureRentIndex? && call.t == t
    && call.capture.market > 0 && call.capture.claimsOfficial && call.capture.hasArtefact
    && forall k | 0 <= k < |s.captures| && s.captures[k].tenancy == t ::
      s.captures[k].capturedAt < call.capture.capturedAt
  }

  predicate ServesNotice(s: State, c: nat, call: Call) {
    var notice := LatestNotice(s.notices, c);
    || (call.ServeRenewalNotice? && call.c == c)
    || (notice.Some? && s.notices[notice.value].status == GENERATED && call == ApproveRenewalNotice(notice.value))
    || (notice.Some? && s.notices[notice.value].status == APPROVED && call.ServeNoticeFormal? && call.n == notice.value)
  }

  /** The tenant answers the newest offer, in the portal or through a usable link to it. */
  predicate TenantAnswers(s: State, c: nat, call: Call) {
    var newest := NewestOffer(s.offers, c);
    && newest.Some?
    && ((call.RespondAsTenant? && call.o == newest.value && SoundResponse(call.response))
        || (call.RespondViaLink? && call.l < |s.links| && s.links[call.l].offer == newest.value
            && s.links[call.l].Usable(call.now) && SoundResponse(call.response)))
  }

  /** The calls that do what a code recommends. */
  predicate Does(s: State, t: nat, code: Code, call: Call) {
    var latest := LatestCase(s.cases, t);
    match code
    case CAPTURE_INDEX => FreshOfficialCapture(s, t, call)
    case VERIFY_INDEX_SOURCE => FreshOfficialCapture(s, t, call)
    case OPEN_CASE => call == OpenRenewalCase(t)
    case SERVE_NOTICE => latest.Some? && ServesNotice(s, latest.value, call)
    case ADD_SERVICE_EVIDENCE =>
      latest.Some? && ConfirmsNotice(s, latest.value, call)
    case PREPARE_TERMS =>
      latest.Some? && call.ProposeOffer? && call.c == latest.value && call.party == LANDLORD && call.annualRent > 0
    case SEND_OFFER => latest.Some? && call.SendOfferToTenant? && NewestOffer(s.offers, latest.value) == Some(call.o)
    case AWAIT_TENANT => latest.Some? && TenantAnswers(s, latest.value, call)
    case REVIEW_COUNTER =>
      && latest.Some?
      && ((call.AcceptOffer? && NewestOffer(s.offers, latest.value) == Some(call.o))
          || (call.ProposeOffer? && call.c == latest.value && call.party == LANDLORD && call.annualRent > 0))
    case COMPLETE_RENEWAL =>
      latest.Some? && call.MintRenewedTenancy? && call.c == latest.value && call.input.annualRent > 0
        && call.input.startMs < call.input.endMs && NoticeOrDefault(call.input)
    case _ => false
  }

  /** Counters and questions of the tenant are the only moves that do not bring the end nearer. */
  function Cost(call: Call): nat {
    if call.RespondAsTenant? && !call.response.Accept? then 1
    else if call.RespondViaLink? && !call.response.Accept? then 1
    else 0
  }

  // ---------------------------------------------------------------------------------------------
  // Being on track
  // ---------------------------------------------------------------------------------------------

  predicate IndexSettled(captures: seq<Capture>, t: nat, benchmark: bool) {
    var index := LatestCapture(captures, t, false);
    if index.None? then benchmark else captures[index.value].official
  }

  ghost predicate OffersOnTrack(s: State, c: nat) {
    var newest := NewestOffer(s.offers, c);
    newest.Some? && !AcceptedOn(s, c) ==>
      var offer := s.offers[newest.value];
      (offer.party == LANDLORD && offer.status == SENT) || (offer.party == TENANT && offer.status == COUNTERED)
  }

  ghost predicate CaseOnTrack(s: State, c: nat)
    requires c < |s.cases|
  {
    && s.cases[c].status != DECLINED && s.cases[c].status != LAPSED
    && (s.cases[c].renewedTenancy.Some? ==> s.cases[c].status == RENEWED)
    && NoticeStatusOf(s, c) != Some(NOTICE_WITHDRAWN)
    && (NewestOffer(s.offers, c).Some? ==> NoticeStatusOf(s, c) == Some(SERVED))
    && (AcceptedOn(s, c) ==> s.cases[c].status == AGREED || s.cases[c].status == RENEWED)
    && OffersOnTrack(s, c)
  }

  /** At most one case, and everything about it as following the recommendations leaves it. */
  ghost predicate OnTrack(s: State, t: nat, benchmark: bool) {
    && (forall c, d | 0 <= c < |s.cases| && 0 <= d < |s.cases| && s.cases[c].tenancy == t && s.cases[d].tenancy == t ::
      c == d)
    && (LatestCase(s.cases, t).Some? ==>
      IndexSettled(s.captures, t, benchmark) && CaseOnTrack(s, LatestCase(s.cases, t).value))
  }

  function NoticeLeft(status: Option<NoticeStatus>): nat {
    match status
    case None => 2
    case Some(GENERATED) => 3
    case Some(APPROVED) => 2
    case Some(SERVICE_RECORDED_PENDING_EVIDENCE) => 1
    case _ => 0
  }

  /** Calls left on the offer side when the tenant may still spend b counters or questions. */
  function OfferLeft(s: State, c: nat, b: nat): nat {
    var newest := NewestOffer(s.offers, c);
    if AcceptedOn(s, c) then 1
    else if newest.None? || s.offers[newest.value].party == TENANT then 4 + 3 * b
    else if !SentToTenant(s.links, newest.value) then 3 + 3 * b
    else 2 + 3 * b
  }

  function CallsLeft(s: State, t: nat, benchmark: bool, b: nat): nat {
    var latest := LatestCase(s.cases, t);
    if latest.None? then (if IndexSettled(s.captures, t, benchmark) then 0 else 1) + 7 + 3 * b
    else if s.cases[latest.value].status == RENEWED then 0
    else NoticeLeft(NoticeStatusOf(s, latest.value)) + OfferLeft(s, latest.value, b)
  }

  // ---------------------------------------------------------------------------------------------
  // What carries over from call to call
  // ---------------------------------------------------------------------------------------------

  ghost predicate TermsKept(s: State, s': State, t: nat) {
    t < |s.tenancies| ==>
      t < |s'.tenancies| && s'.tenancies[t].annualRent == s.tenancies[t].annualRent
        && s'.tenancies[t].noticePeriodDays == s.tenancies[t].noticePeriodDays
  }

  lemma TermsStep(s: State, step: Step, t: nat)
    requires Enabled(s, step)
    ensures TermsKept(s, Do(s, step), t)
  {}

  lemma {:induction false} TermsRun(s: State, steps: seq<Step>, s': State, t: nat)
    requires Run(s, steps, s')
    ensures TermsKept(s, s', t)
    decreases |steps|
  {
    if steps == [] {
    } else {
      TermsStep(s, steps[0], t);
      TermsRun(Do(s, steps[0]), steps[1..], s', t);
    }
  }

  ghost predicate LinksExist(s: State) {
    forall l | 0 <= l < |s.links| :: s.links[l].offer < |s.offers|
  }

  lemma LinksExistStep(s: State, step: Step)
    requires LinksExist(s) && Enabled(s, step)
    ensures LinksExist(Do(s, step))
  {}

  lemma {:induction false} LinksExistRun(s: State, steps: seq<Step>, s': State)
    requires LinksExist(s) && Run(s, steps, s')
    ensures LinksExist(s')
    decreases |steps|
  {
    if steps == [] {
    } else {
      LinksExistStep(s, steps[0]);
      LinksExistRun(Do(s, steps[0]), steps[1..], s');
    }
  }

  /** What every run keeps, whoever makes the calls. */
  ghost predicate Carried(s: State, t: nat) {
    && Inv(s) && TableInv(s) && LinksExist(s)
    && t < |s.tenancies| && s.tenancies[t].annualRent > 0 && s.tenancies[t].noticePeriodDays > 0
  }

  lemma CarriedOver(s: State, t: nat, call: Call)
    requires Carried(s, t)
    ensures Carried(Perform(s, call).state, t)
  {
    var s' := Perform(s, call).state;
    CallIsARun(s, call);
    LeadsKeepsInv(s, s');
    TableCall(s, call);
    var steps :| Run(s, steps, s');
    TermsRun(s, steps, s', t);
    LinksExistRun(s, steps, s');
  }

  /** A call that changes neither captures nor which case belongs to which tenancy. */
  ghost predicate SameCases(s: State, s': State) {
    && s'.captures == s.captures && |s'.cases| == |s.cases|
    && forall d | 0 <= d < |s.cases| :: s'.cases[d].tenancy == s.cases[d].tenancy
  }

  lemma StillOnTrack(s: State, s': State, t: nat, benchmark: bool, c: nat)
    requires OnTrack(s, t, benchmark) && LatestCase(s.cases, t) == Some(c)
    requires SameCases(s, s') && CaseOnTrack(s', c)
    ensures OnTrack(s', t, benchmark) && LatestCase(s'.cases, t) == Some(c)
  {}

  /** What a call is to achieve. */
  ghost predicate Progress(s: State, t: nat, benchmark: bool, b: nat, call: Call) {
    var out := Perform(s, call);
    && out.reply.Ok? && OnTrack(out.state, t, benchmark)
    && Cost(call) <= b && CallsLeft(out.state, t, benchmark, b - Cost(call)) < CallsLeft(s, t, benchmark, b)
  }

  // ---------------------------------------------------------------------------------------------
  // One recommendation at a time
  // ---------------------------------------------------------------------------------------------

  lemma LatestIsFresh(captures: seq<Capture>, k: Capture, t: nat)
    requires k.tenancy == t && forall i | 0 <= i < |captures| && captures[i].tenancy == t ::
      captures[i].capturedAt < k.capturedAt
    ensures LatestCapture(captures + [k], t, false) == Some(|captures|)
  {
    assert (captures + [k])[..|captures|] == captures;
  }

  lemma CaptureSettles(s: State, t: nat, benchmark: bool, call: Call)
    requires t < |s.tenancies| && s.tenancies[t].annualRent > 0 && FreshOfficialCapture(s, t, call)
    ensures var out := CaptureCall(s, t, call.capture);
            && Perform(s, call) == out && out.reply.Ok? && out.state.cases == s.cases
            && IndexSettled(out.state.captures, t, benchmark)
  {
    var s' := CaptureCall(s, t, call.capture).state;
    LatestIsFresh(s.captures, s'.captures[|s.captures|], t);
  }

  lemma CaptureProgress(s: State, t: nat, benchmark: bool, b: nat, call: Call)
    requires t < |s.tenancies| && s.tenancies[t].annualRent > 0
    requires OnTrack(s, t, benchmark) && LatestCase(s.cases, t).None?
    requires !IndexSettled(s.captures, t, benchmark) && FreshOfficialCapture(s, t, call)
    ensures Progress(s, t, benchmark, b, call)
  {
    CaptureSettles(s, t, benchmark, call);
  }

  lemma OpenStartsCase(s: State, t: nat)
    requires Refs(s) && Enabled(s, OpenCase(t))
    ensures var s', c := Do(s, OpenCase(t)), |s.cases|;
            && LatestCase(s'.cases, t) == Some(c) && CaseOnTrack(s', c) && s'.cases[c].status == ASSESSING
            && NoticeStatusOf(s', c) == None && NewestOffer(s'.offers, c) == None && !AcceptedOn(s', c)
  {}

  lemma OpenCallOpens(s: State, t: nat)
    requires t < |s.tenancies| && s.tenancies[t].noticePeriodDays > 0 && LatestCase(s.cases, t).None?
    ensures Enabled(s, OpenCase(t)) && Perform(s, OpenRenewalCase(t)) == Outcome(Do(s, OpenCase(t)), Ok(|s.cases|))
  {
    assert ActiveCaseFrom(s.cases, t, 0).None? && !HasActiveCase(s, t);
  }

  lemma OpenProgress(s: State, t: nat, benchmark: bool, b: nat)
    requires Refs(s) && t < |s.tenancies| && s.tenancies[t].noticePeriodDays > 0
    requires OnTrack(s, t, benchmark) && LatestCase(s.cases, t).None? && IndexSettled(s.captures, t, benchmark)
    ensures Progress(s, t, benchmark, b, OpenRenewalCase(t))
  {
    OpenCallOpens(s, t);
    OpenStartsCase(s, t);
    OpenOnTrack(s, Do(s, OpenCase(t)), t, benchmark);
    OpenCostsOne(s, Do(s, OpenCase(t)), t, benchmark, b);
  }

  lemma OpenCostsOne(s: State, s': State, t: nat, benchmark: bool, b: nat)
    requires LatestCase(s.cases, t).None? && LatestCase(s'.cases, t).Some?
    requires var c := LatestCase(s'.cases, t).value;
             NoticeStatusOf(s', c) == None && NewestOffer(s'.offers, c) == None && !AcceptedOn(s', c)
    ensures CallsLeft(s', t, benchmark, b) < CallsLeft(s, t, benchmark, b)
  {}

  lemma OpenOnTrack(s: State, s': State, t: nat, benchmark: bool)
    requires LatestCase(s.cases, t).None? && IndexSettled(s.captures, t, benchmark)
    requires s'.captures == s.captures && |s'.cases| == |s.cases| + 1
    requires forall d | 0 <= d < |s.cases| :: s'.cases[d] == s.cases[d]
    requires LatestCase(s'.cases, t) == Some(|s.cases|) && CaseOnTrack(s', |s.cases|)
    ensures OnTrack(s', t, benchmark)
  {}

  /** Offers and links stay; the notice status of case c becomes `status`, and so perhaps its own. */
  ghost predicate NoticeMoved(s: State, s': State, c: nat, status: NoticeStatus) {
    && s'.offers == s.offers && s'.links == s.links && SameCases(s, s') && c < |s.cases|
    && s'.cases[c].renewedTenancy == s.cases[c].renewedTenancy
    && (s'.cases[c].status == s.cases[c].status || s'.cases[c].status == NOTICE_SERVED)
    && NoticeStatusOf(s', c) == Some(status)
  }

  lemma NoticeMovedOnTrack(s: State, s': State, c: nat, status: NoticeStatus)
    requires c < |s.cases| && CaseOnTrack(s, c) && s.cases[c].status != RENEWED
    requires NoticeStatusOf(s, c) != Some(SERVED) && status != NOTICE_WITHDRAWN
    requires NoticeMoved(s, s', c, status)
    ensures CaseOnTrack(s', c)
    ensures forall b: nat :: OfferLeft(s', c, b) == OfferLeft(s, c, b)
  {
    assert !AcceptedOn(s, c) && !AcceptedOn(s', c);
  }

  lemma NoticeProgress(s: State, t: nat, benchmark: bool, b: nat, call: Call, out: Outcome, c: nat,
      status: NoticeStatus)
    requires OnTrack(s, t, benchmark) && LatestCase(s.cases, t) == Some(c) && s.cases[c].status != RENEWED
    requires NoticeStatusOf(s, c) != Some(SERVED) && status != NOTICE_WITHDRAWN
    requires Perform(s, call) == out && out.reply.Ok? && Cost(call) == 0 && NoticeMoved(s, out.state, c, status)
    requires NoticeLeft(Some(status)) < NoticeLeft(NoticeStatusOf(s, c))
    ensures Progress(s, t, benchmark, b, call)
  {
    NoticeMovedOnTrack(s, out.state, c, status);
    StillOnTrack(s, out.state, t, benchmark, c);
  }

  lemma NoticeUpdated(notices: seq<Notice>, n: nat, row: Notice, c: nat)
    requires LatestNotice(notices, c) == Some(n) && row.renewalCase == c
    ensures LatestNotice(notices[n := row], c) == Some(n)
  {
    var notices' := notices[n := row];
    var r := LatestNotice(notices', c);
    assert notices'[n].renewalCase == c;
  }

  lemma ApproveMoves(s: State, c: nat, n: nat)
    requires c < |s.cases| && LatestNotice(s.notices, c) == Some(n) && s.notices[n].status == GENERATED
    ensures ApproveCall(s, n).reply.Ok? && NoticeMoved(s, ApproveCall(s, n).state, c, APPROVED)
    ensures LatestNotice(ApproveCall(s, n).state.notices, c) == Some(n)
    ensures ApproveCall(s, n).state.cases == s.cases
  {
    NoticeUpdated(s.notices, n, s.notices[n].(status := APPROVED), c);
  }

  lemma MarkServedMoves(s: State, c: nat, n: nat, input: ServiceInput)
    requires c < |s.cases| && LatestNotice(s.notices, c) == Some(n)
    ensures NoticeMoved(s, MarkServed(s, n, input), c, SERVED)
  {
    NoticeUpdated(s.notices, n, MarkServed(s, n, input).notices[n], c);
  }

  function ServedAs(input: ServiceInput): NoticeStatus {
    if input.HasEvidence() then SERVED else SERVICE_RECORDED_PENDING_EVIDENCE
  }

  lemma ServeMoves(s: State, c: nat, n: nat, input: ServiceInput)
    requires c < |s.cases| && !Terminal(s.cases[c].status)
    requires LatestNotice(s.notices, c) == Some(n) && s.notices[n].status == APPROVED
    ensures ServeCall(s, n, input).reply.Ok?
    ensures NoticeMoved(s, ServeCall(s, n, input).state, c, ServedAs(input))
  {
    var s' := ServeCall(s, n, input).state;
    if input.HasEvidence() { MarkServedMoves(s, c, n, input); } else { NoticeUpdated(s.notices, n, s'.notices[n], c); }
  }

  lemma ConfirmMoves(s: State, c: nat, n: nat, input: ServiceInput)
    requires c < |s.cases| && !Terminal(s.cases[c].status) && input.HasEvidence()
    requires LatestNotice(s.notices, c) == Some(n) && s.notices[n].status == SERVICE_RECORDED_PENDING_EVIDENCE
    ensures ConfirmCall(s, n, input).reply.Ok? && NoticeMoved(s, ConfirmCall(s, n, input).state, c, SERVED)
  {
    MarkServedMoves(s, c, n, input);
  }

  lemma NoticeMovedTrans(s: State, mid: State, s': State, c: nat, first: NoticeStatus, second: NoticeStatus)
    requires NoticeMoved(s, mid, c, first) && NoticeMoved(mid, s', c, second)
    ensures NoticeMoved(s, s', c, second)
  {}

  lemma PrepareMoves(s: State, c: nat, docId: Option<string>)
    requires c < |s.cases|
    ensures NoticeMoved(s, PrepareCall(s, c, docId).state, c, GENERATED)
    ensures LatestNotice(PrepareCall(s, c, docId).state.notices, c) == Some(|s.notices|)
    ensures PrepareCall(s, c, docId).state.cases == s.cases
  {}

  lemma ReadyMoves(s: State, c: nat, docId: Option<string>)
    requires c < |s.cases|
    ensures var ready := ReadyToServe(s, c, docId);
            && NoticeMoved(s, ready, c, APPROVED) && ready.cases == s.cases
              && LatestNotice(ready.notices, c) == Some(|s.notices|)
            && ready.notices[|s.notices|].status == APPROVED
  {
    var n := |s.notices|;
    var s1 := Do(s, PrepareNotice(c, docId));
    PrepareMoves(s, c, docId);
    ApproveMoves(s1, c, n);
    NoticeMovedTrans(s, s1, ReadyToServe(s, c, docId), c, GENERATED, APPROVED);
  }

  lemma ServeRenewalMoves(s: State, c: nat, input: ServiceInput)
    requires c < |s.cases| && !Terminal(s.cases[c].status)
    ensures ServeRenewalCall(s, c, input).reply.Ok?
    ensures NoticeMoved(s, ServeRenewalCall(s, c, input).state, c, ServedAs(input))
  {
    var ready := ReadyToServe(s, c, input.docId);
    ReadyMoves(s, c, input.docId);
    ServeMoves(ready, c, |s.notices|, input);
    NoticeMovedTrans(s, ready, ServeCall(ready, |s.notices|, input).state, c, APPROVED, ServedAs(input));
  }

  lemma ServeRenewalOutcome(s: State, c: nat, call: Call) returns (out: Outcome)
    requires c < |s.cases| && !Terminal(s.cases[c].status) && call.ServeRenewalNotice? && call.c == c
    ensures Perform(s, call) == out && out.reply.Ok? && NoticeMoved(s, out.state, c, ServedAs(call.service))
  {
    out := ServeRenewalCall(s, c, call.service);
    ServeRenewalMoves(s, c, call.service);
  }

  lemma ApproveProgress(s: State, t: nat, benchmark: bool, b: nat, c: nat, n: nat)
    requires OnTrack(s, t, benchmark) && LatestCase(s.cases, t) == Some(c) && s.cases[c].status != RENEWED
    requires LatestNotice(s.notices, c) == Some(n) && s.notices[n].status == GENERATED
    ensures Progress(s, t, benchmark, b, ApproveRenewalNotice(n))
  {
    ApproveMoves(s, c, n);
    NoticeProgress(s, t, benchmark, b, ApproveRenewalNotice(n), ApproveCall(s, n), c, APPROVED);
  }

  lemma ServeProgress(s: State, t: nat, benchmark: bool, b: nat, c: nat, n: nat, input: ServiceInput)
    requires OnTrack(s, t, benchmark) && LatestCase(s.cases, t) == Some(c) && s.cases[c].status != RENEWED
    requires LatestNotice(s.notices, c) == Some(n) && s.notices[n].status == APPROVED
    ensures Progress(s, t, benchmark, b, ServeNoticeFormal(n, input))
  {
    ServeMoves(s, c, n, input);
    NoticeProgress(s, t, benchmark, b, ServeNoticeFormal(n, input), ServeCall(s, n, input), c, ServedAs(input));
  }

  lemma ServesProgress(s: State, t: nat, benchmark: bool, b: nat, c: nat, call: Call)
    requires OnTrack(s, t, benchmark) && LatestCase(s.cases, t) == Some(c) && s.cases[c].status != RENEWED
    requires NoticeLeft(NoticeStatusOf(s, c)) > 1 && ServesNotice(s, c, call)
    ensures Progress(s, t, benchmark, b, call)
  {
    match call
    case ServeRenewalNotice(_, input) =>
      var out := ServeRenewalOutcome(s, c, call);
      NoticeProgress(s, t, benchmark, b, call, out, c, ServedAs(input));
    case ApproveRenewalNotice(n) => ApproveProgress(s, t, benchmark, b, c, n);
    case ServeNoticeFormal(n, input) => ServeProgress(s, t, benchmark, b, c, n, input);
  }

  predicate ConfirmsNotice(s: State, c: nat, call: Call) {
    call.ConfirmNoticeService? && LatestNotice(s.notices, c) == Some(call.n) && call.service.HasEvidence()
  }

  lemma ConfirmProgress(s: State, t: nat, benchmark: bool, b: nat, c: nat, call: Call)
    requires OnTrack(s, t, benchmark) && LatestCase(s.cases, t) == Some(c) && s.cases[c].status != RENEWED
    requires NoticeStatusOf(s, c) == Some(SERVICE_RECORDED_PENDING_EVIDENCE) && ConfirmsNotice(s, c, call)
    ensures Progress(s, t, benchmark, b, call)
  {
    match call
    case ConfirmNoticeService(n, input) =>
      ConfirmMoves(s, c, n, input);
      NoticeProgress(s, t, benchmark, b, call, ConfirmCall(s, n, input), c, SERVED);
  }

  // ---------------------------------------------------------------------------------------------
  // Offers
  // ---------------------------------------------------------------------------------------------

  /** The newest offer of c is a fresh one of `party`, nothing is accepted, and no link leads to it. */
  ghost predicate FreshOnTable(s: State, s': State, c: nat, party: Party) {
    && SameCases(s, s') && s'.notices == s.notices && c < |s.cases|
    && s'.cases[c].status == NEGOTIATING && s'.cases[c].renewedTenancy == s.cases[c].renewedTenancy
    && NewestOffer(s'.offers, c).Some? && !AcceptedOn(s', c)
    && var o := NewestOffer(s'.offers, c).value;
       s'.offers[o].party == party && s'.offers[o].status == (if party == TENANT then COUNTERED
         else SENT) && !SentToTenant(s'.links, o)
  }

  lemma NewestSnoc(offers: seq<Offer>, x: Offer, c: nat)
    requires x.renewalCase == c && x.version == NextVersion(offers, c)
    ensures NewestOffer(offers + [x], c) == Some(|offers|)
  {
    assert (offers + [x])[..|offers|] == offers;
  }

  lemma TabledAcceptsNothing(s: State, c: nat, party: Party, annualRent: int)
    requires c < |s.cases| && !AcceptedOn(s, c)
    ensures !AcceptedOn(Tabled(s, c, party, annualRent), c)
  {
    var s2 := Tabled(s, c, party, annualRent);
    forall o | 0 <= o < |s2.offers| && s2.offers[o].renewalCase == c ensures s2.offers[o].status != ACCEPTED {
      if o < |s.offers| { assert s.offers[o].renewalCase == c; }
    }
  }

  lemma PutOnTableIsFresh(s: State, c: nat, party: Party, annualRent: int)
    requires LinksExist(s) && c < |s.cases| && !Terminal(s.cases[c].status) && !AcceptedOn(s, c)
    ensures PutOnTable(s, c, party, annualRent).reply.Ok?
    ensures FreshOnTable(s, PutOnTable(s, c, party, annualRent).state, c, party)
  {
    var s1 := Do(s, SupersedeOpen(c));
    var s2 := Tabled(s, c, party, annualRent);
    NewestSnoc(s1.offers, s2.offers[|s.offers|], c);
    TabledAcceptsNothing(s, c, party, annualRent);
    assert MayBeActive(s2, c);
    assert !SentToTenant(s2.links, |s.offers|);
  }

  /** What ProposeOffer and a counter add to the tabling does not touch the table. */
  lemma FreshStays(s: State, mid: State, s': State, c: nat, party: Party)
    requires FreshOnTable(s, mid, c, party) && SameTables(mid, s')
    requires s'.links == mid.links && s'.notices == mid.notices && s'.captures == mid.captures
    ensures FreshOnTable(s, s', c, party)
  {}

  lemma FreshProgress(s: State, t: nat, benchmark: bool, b: nat, call: Call, out: Outcome, c: nat, party: Party)
    requires OnTrack(s, t, benchmark) && LatestCase(s.cases, t) == Some(c) && s.cases[c].status != RENEWED
    requires NoticeStatusOf(s, c) == Some(SERVED)
    requires Perform(s, call) == out && out.reply.Ok? && FreshOnTable(s, out.state, c, party) && Cost(call) <= b
    requires (if party == TENANT then 4 else 3) + 3 * (b - Cost(call)) < OfferLeft(s, c, b)
    ensures Progress(s, t, benchmark, b, call)
  {
    FreshOnTrack(s, out.state, c, party);
    StillOnTrack(s, out.state, t, benchmark, c);
  }

  lemma FreshOnTrack(s: State, s': State, c: nat, party: Party)
    requires c < |s.cases| && CaseOnTrack(s, c) && NoticeStatusOf(s, c) == Some(SERVED) && s.cases[c].status != RENEWED
    requires FreshOnTable(s, s', c, party)
    ensures CaseOnTrack(s', c)
    ensures forall b: nat :: OfferLeft(s', c, b) == (if party == TENANT then 4 else 3) + 3 * b
  {}

  lemma ProposeIsFresh(s: State, c: nat, annualRent: int)
    requires LinksExist(s) && c < |s.cases| && !Terminal(s.cases[c].status) && !AcceptedOn(s, c) && annualRent > 0
    ensures ProposeCall(s, c, LANDLORD, annualRent).reply.Ok?
    ensures FreshOnTable(s, ProposeCall(s, c, LANDLORD, annualRent).state, c, LANDLORD)
  {
    PutOnTableIsFresh(s, c, LANDLORD, annualRent);
    FreshStays(s, PutOnTable(s, c, LANDLORD, annualRent).state, ProposeCall(s, c, LANDLORD, annualRent).state, c,
      LANDLORD);
  }

  /** The newest offer of c is accepted and the case agreed. */
  ghost predicate Agreed(s: State, s': State, c: nat) {
    && SameCases(s, s') && s'.notices == s.notices && c < |s.cases|
    && s'.cases[c].status == AGREED && s'.cases[c].renewedTenancy == s.cases[c].renewedTenancy && AcceptedOn(s', c)
  }

  lemma AcceptAgrees(s: State, c: nat, o: nat)
    requires c < |s.cases| && !Terminal(s.cases[c].status) && !AcceptedOn(s, c)
    requires o < |s.offers| && s.offers[o].renewalCase == c && s.offers[o].IsOpen()
    ensures AcceptCall(s, o).reply.Ok? && Agreed(s, AcceptCall(s, o).state, c)
  {
    assert MayBeActive(s, c);
    var s1 := Do(s, AcceptTx(o));
    assert s1.offers[o].status == ACCEPTED && s1.offers[o].renewalCase == c;
    assert AcceptCall(s, o).state.offers == s1.offers;
  }

  lemma AgreedOnTrack(s: State, s': State, c: nat)
    requires c < |s.cases| && CaseOnTrack(s, c) && NoticeStatusOf(s, c) == Some(SERVED) && s.cases[c].status != RENEWED
    requires Agreed(s, s', c)
    ensures CaseOnTrack(s', c)
  {}

  lemma AgreedProgress(s: State, t: nat, benchmark: bool, b: nat, call: Call, out: Outcome, c: nat)
    requires OnTrack(s, t, benchmark) && LatestCase(s.cases, t) == Some(c) && s.cases[c].status != RENEWED
    requires NoticeStatusOf(s, c) == Some(SERVED) && !AcceptedOn(s, c)
    requires Perform(s, call) == out && out.reply.Ok? && Agreed(s, out.state, c) && Cost(call) == 0
    ensures Progress(s, t, benchmark, b, call)
  {
    AgreedOnTrack(s, out.state, c);
    StillOnTrack(s, out.state, t, benchmark, c);
  }

  /** Nothing the decision function looks at changes, unless the newest offer gains its first link. */
  ghost predicate OnlyLinksChange(s: State, s': State) {
    && s'.offers == s.offers && s'.cases == s.cases && s'.notices == s.notices && s'.captures == s.captures
    && forall o :: SentToTenant(s.links, o) ==> SentToTenant(s'.links, o)
  }

  lemma LinksProgress(s: State, t: nat, benchmark: bool, b: nat, call: Call, out: Outcome, c: nat)
    requires OnTrack(s, t, benchmark) && LatestCase(s.cases, t) == Some(c) && s.cases[c].status != RENEWED
    requires Perform(s, call) == out && out.reply.Ok? && OnlyLinksChange(s, out.state) && Cost(call) <= b
    requires OfferLeft(out.state, c, b - Cost(call)) < OfferLeft(s, c, b)
    ensures Progress(s, t, benchmark, b, call)
  {
    assert AcceptedOn(out.state, c) <==> AcceptedOn(s, c);
    StillOnTrack(s, out.state, t, benchmark, c);
  }

  /** Case c has a landlord offer out and nothing is decided. */
  ghost predicate AwaitsTenant(s: State, c: nat, o: nat) {
    && c < |s.cases| && !Terminal(s.cases[c].status) && !AcceptedOn(s, c)
    && NewestOffer(s.offers, c) == Some(o) && s.offers[o].party == LANDLORD && s.offers[o].status == SENT
  }

  lemma SendProgress(s: State, t: nat, benchmark: bool, b: nat, c: nat, call: Call)
    requires OnTrack(s, t, benchmark) && LatestCase(s.cases, t) == Some(c)
    requires call.SendOfferToTenant? && AwaitsTenant(s, c, call.o) && !SentToTenant(s.links, call.o)
    ensures Progress(s, t, benchmark, b, call)
  {
    var out := Perform(s, call);
    forall o | SentToTenant(s.links, o) ensures SentToTenant(out.state.links, o) {
      var l :| 0 <= l < |s.links| && s.links[l].offer == o;
      assert out.state.links[l].offer == o;
    }
    assert out.state.links[|s.links|].offer == call.o;
    assert AcceptedOn(out.state, c) <==> AcceptedOn(s, c);
    LinksProgress(s, t, benchmark, b, call, out, c);
  }

  /** What the tenant's answer does, whichever way it came in. */
  ghost predicate Answered(s: State, s': State, c: nat, response: Response) {
    match response
    case Accept => Agreed(s, s', c)
    case Counter(_, _) => FreshOnTable(s, s', c, TENANT)
    case Ask => OnlyLinksChange(s, s')
  }

  lemma PortalAnswer(s: State, c: nat, o: nat, response: Response)
    requires Refs(s) && LinksExist(s) && AwaitsTenant(s, c, o) && SoundResponse(response)
    ensures ApplyTenantResponse(s, o, response).reply.Ok?
    ensures Answered(s, ApplyTenantResponse(s, o, response).state, c, response)
  {
    match response
    case Accept =>
      AcceptPathsAgree(s, o);
      AcceptAgrees(s, c, o);
    case Counter(annualRent, _) => PutOnTableIsFresh(s, c, TENANT, annualRent);
    case Ask =>
  }

  lemma SentSame(a: seq<Link>, b: seq<Link>, o: nat)
    requires |a| == |b| && forall l | 0 <= l < |a| :: a[l].offer == b[l].offer
    ensures SentToTenant(a, o) <==> SentToTenant(b, o)
  {
    if SentToTenant(a, o) {
      var l :| 0 <= l < |a| && a[l].offer == o;
      assert b[l].offer == o;
    }
    if SentToTenant(b, o) {
      var l :| 0 <= l < |b| && b[l].offer == o;
      assert a[l].offer == o;
    }
  }

  /** Consuming a use before and settling it after leave the answer as it is. */
  lemma AnswerThroughLink(s: State, s1: State, mid: State, s': State, c: nat, response: Response)
    requires Answered(s1, mid, c, response)
    requires SameTables(s, s1) && s1.notices == s.notices && s1.captures == s.captures
    requires |s1.links| == |s.links| && forall l | 0 <= l < |s.links| :: s1.links[l].offer == s.links[l].offer
    requires SameTables(mid, s') && s'.notices == mid.notices && s'.captures == mid.captures && s'.links == mid.links
    ensures Answered(s, s', c, response)
  {
    match response
    case Counter(_, _) => FreshStays(s1, mid, s', c, TENANT);
    case Accept => assert AcceptedOn(s', c) <==> AcceptedOn(mid, c);
    case Ask =>
      forall o | SentToTenant(s.links, o) ensures SentToTenant(s'.links, o) { SentSame(s.links, s1.links, o); }
  }

  lemma ConsumeStillAwaits(s: State, c: nat, o: nat, l: nat, now: int)
    requires Refs(s) && LinksExist(s) && AwaitsTenant(s, c, o) && l < |s.links| && s.links[l].Usable(now)
    ensures var s1 := Do(s, ConsumeLink(l, now)); Refs(s1) && LinksExist(s1) && AwaitsTenant(s1, c, o)
  {
    assert AcceptedOn(Do(s, ConsumeLink(l, now)), c) <==> AcceptedOn(s, c);
  }

  lemma SettleKeepsRows(s: State, l: nat, applied: bool)
    requires s.owed[l] > 0
    ensures var s' := SettleUse(s, l, applied);
            SameTables(s, s') && s'.notices == s.notices && s'.captures == s.captures && s'.links == s.links
  {}

  lemma LinkAnswer(s: State, c: nat, l: nat, now: int, response: Response)
    requires Refs(s) && LinksExist(s) && l < |s.links| && AwaitsTenant(s, c, s.links[l].offer)
    requires SoundResponse(response)
    requires s.links[l].Usable(now)
    ensures RespondViaLinkCall(s, l, now, response).reply.Ok?
    ensures Answered(s, RespondViaLinkCall(s, l, now, response).state, c, response)
  {
    var o := s.links[l].offer;
    var s1 := Do(s, ConsumeLink(l, now));
    ConsumeStillAwaits(s, c, o, l, now);
    PortalAnswer(s1, c, o, response);
    var out := ApplyTenantResponse(s1, o, response);
    SettleKeepsRows(out.state, l, true);
    var s' := SettleUse(out.state, l, true);
    assert RespondViaLinkCall(s, l, now, response) == Outcome(s', out.reply);
    AnswerThroughLink(s, s1, out.state, s', c, response);
  }

  lemma AnswerProgress(s: State, t: nat, benchmark: bool, b: nat, call: Call, out: Outcome, c: nat, o: nat,
      response: Response)
    requires OnTrack(s, t, benchmark) && LatestCase(s.cases, t) == Some(c) && NoticeStatusOf(s, c) == Some(SERVED)
    requires AwaitsTenant(s, c, o) && SentToTenant(s.links, o)
    requires Perform(s, call) == out && out.reply.Ok? && Answered(s, out.state, c, response)
    requires Cost(call) == (if response.Accept? then 0 else 1) <= b
    ensures Progress(s, t, benchmark, b, call)
  {
    match response
    case Accept => AgreedProgress(s, t, benchmark, b, call, out, c);
    case Counter(_, _) => FreshProgress(s, t, benchmark, b, call, out, c, TENANT);
    case Ask =>
      assert AcceptedOn(out.state, c) <==> AcceptedOn(s, c);
      LinksProgress(s, t, benchmark, b, call, out, c);
  }

  lemma TenantProgress(s: State, t: nat, benchmark: bool, b: nat, c: nat, o: nat, call: Call)
    requires Refs(s) && LinksExist(s)
    requires OnTrack(s, t, benchmark) && LatestCase(s.cases, t) == Some(c) && NoticeStatusOf(s, c) == Some(SERVED)
    requires AwaitsTenant(s, c, o) && SentToTenant(s.links, o) && TenantAnswers(s, c, call) && Cost(call) <= b
    ensures Progress(s, t, benchmark, b, call)
  {
    match call
    case RespondAsTenant(_, response) =>
      PortalAnswer(s, c, o, response);
      AnswerProgress(s, t, benchmark, b, call, ApplyTenantResponse(s, o, response), c, o, response);
    case RespondViaLink(l, now, response) =>
      LinkAnswer(s, c, l, now, response);
      AnswerProgress(s, t, benchmark, b, call, RespondViaLinkCall(s, l, now, response), c, o, response);
  }

  // ---------------------------------------------------------------------------------------------
  // Completion
  // ---------------------------------------------------------------------------------------------

  /** The only case of a tenancy is not minted, so nothing renews the tenancy yet. */
  lemma NoSuccessorYet(s: State, t: nat, c: nat)
    requires MintInv(s) && c < |s.cases| && s.cases[c].tenancy == t && s.cases[c].renewedTenancy.None?
    requires forall d | 0 <= d < |s.cases| && s.cases[d].tenancy == t :: d == c
    ensures !HasSuccessor(s, t)
  {
    forall u | 0 <= u < |s.tenancies| && s.tenancies[u].renewsFrom.Some? ensures s.tenancies[u].renewsFrom.value != t {
      assert MintedBySomeCase(s, u);
      var d :| 0 <= d < |s.cases| && s.cases[d].renewedTenancy == Some(u);
      assert s.tenancies[u].renewsFrom == Some(s.cases[d].tenancy);
    }
  }

  lemma MintCompletes(s: State, c: nat, input: MintInput)
    requires c < |s.cases| && s.cases[c].tenancy < |s.tenancies| && CaseOnTrack(s, c) && s.cases[c].status == AGREED
    requires !HasSuccessor(s, s.cases[c].tenancy) && input.annualRent > 0 && input.startMs < input.endMs
    requires SuccessorNotice(s, c, input) > 0
    ensures MintCall(s, c, input).reply.Ok?
    ensures var s' := MintCall(s, c, input).state;
            SameCases(s, s') && CaseOnTrack(s', c) && s'.cases[c].status == RENEWED
  {
    var s' := MintCall(s, c, input).state;
    assert AcceptedOn(s', c) <==> AcceptedOn(s, c);
  }

  lemma MintProgress(s: State, t: nat, benchmark: bool, b: nat, c: nat, call: Call)
    requires MintInv(s) && t < |s.tenancies| && s.tenancies[t].noticePeriodDays > 0
    requires OnTrack(s, t, benchmark) && LatestCase(s.cases, t) == Some(c) && s.cases[c].status == AGREED
    requires call.MintRenewedTenancy? && call.c == c && call.input.annualRent > 0
    requires call.input.startMs < call.input.endMs && NoticeOrDefault(call.input)
    ensures Progress(s, t, benchmark, b, call)
  {
    NoSuccessorYet(s, t, c);
    MintCompletes(s, c, call.input);
    StillOnTrack(s, Perform(s, call).state, t, benchmark, c);
  }
}
