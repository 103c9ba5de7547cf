/** Whole runs of recommended calls. */
module GuidedRuns {
  import opened Common
  import opened Renewals
  import opened RenewalCalls
  import opened OfferTable
  import opened NextAction
  import opened GuidedRenewal

  lemma CodeBeforeTheCase(s: State, t: nat, today: int, benchmark: bool)
    requires t < |s.tenancies| && LatestCase(s.cases, t).None?
    ensures var code := Recommended(s, t, today, benchmark);
            && code in {REVIEW_CASE, CAPTURE_INDEX, VERIFY_INDEX_SOURCE, OPEN_CASE}
            && (code == REVIEW_CASE <==> FactsOf(s, t, today, benchmark).GatePassed())
            && (code == OPEN_CASE ==> IndexSettled(s.captures, t, benchmark))
            && (code in {CAPTURE_INDEX, VERIFY_INDEX_SOURCE} ==> !IndexSettled(s.captures, t, benchmark))
    ensures FactsOf(s, t, today, benchmark).noticeStatus.None?
  {}

  lemma BeforeTheCase(s: State, t: nat, today: int, benchmark: bool, b: nat, call: Call)
    requires Refs(s) && t < |s.tenancies| && s.tenancies[t].annualRent > 0 && s.tenancies[t].noticePeriodDays > 0
    requires OnTrack(s, t, benchmark) && LatestCase(s.cases, t).None?
    requires Does(s, t, Recommended(s, t, today, benchmark), call)
    ensures Progress(s, t, benchmark, b, call)
  {
    CodeBeforeTheCase(s, t, today, benchmark);
    if Recommended(s, t, today, benchmark) == OPEN_CASE { OpenProgress(s, t, benchmark, b); }
    else { CaptureProgress(s, t, benchmark, b, call); }
  }

  lemma FactsOfCaseAre(s: State, t: nat, today: int, benchmark: bool, c: nat)
    requires t < |s.tenancies| && LatestCase(s.cases, t) == Some(c)
    ensures var f := FactsOf(s, t, today, benchmark);
            && f.caseStatus == Some(s.cases[c].status) && f.noticeStatus == NoticeStatusOf(s, c)
              && f.currentOffer == OfferFactsOf(s, c)
            && f.hasAcceptedOffer == AcceptedOn(s, c) && f.renewed == s.cases[c].renewedTenancy.Some?
            && (f.hasIndex && !f.provisionalIndex <==> IndexSettled(s.captures, t, benchmark))
  {}

  predicate OfferFactsOnTrack(offer: OfferFacts) {
    (offer.party == LANDLORD && offer.status == SENT) || (offer.party == TENANT && offer.status == COUNTERED)
  }

  predicate FactsOnTrack(f: Facts) {
    && f.hasIndex && !f.provisionalIndex
    && f.caseStatus.Some? && f.caseStatus.value != DECLINED && f.caseStatus.value != LAPSED
    && (f.renewed ==> f.caseStatus.value == RENEWED)
    && f.noticeStatus != Some(NOTICE_WITHDRAWN)
    && (f.hasAcceptedOffer ==> f.caseStatus.value == AGREED || f.caseStatus.value == RENEWED)
    && (f.caseStatus.value == AGREED ==> f.hasAcceptedOffer)
    && (f.currentOffer.Some? && !f.hasAcceptedOffer ==> OfferFactsOnTrack(f.currentOffer.value))
  }

  predicate NotYetServed(status: Option<NoticeStatus>) {
    status.None? || status == Some(GENERATED) || status == Some(APPROVED)
  }

  /** What each code says about facts that are on track; only a missed gate leads to a review. */
  ghost predicate CodeMeans(code: Code, f: Facts) {
    match code
    case REVIEW_COMPLETED_CASE => f.caseStatus == Some(RENEWED)
    case REVIEW_CASE => f.caseStatus != Some(RENEWED) && f.GatePassed() && NotYetServed(f.noticeStatus)
    case SERVE_NOTICE => f.caseStatus != Some(RENEWED) && NotYetServed(f.noticeStatus)
    case ADD_SERVICE_EVIDENCE =>
      f.caseStatus != Some(RENEWED) && f.noticeStatus == Some(SERVICE_RECORDED_PENDING_EVIDENCE)
    case COMPLETE_RENEWAL => f.caseStatus == Some(AGREED) && f.noticeStatus == Some(SERVED)
    case PREPARE_TERMS => OffersOpen(f) && f.currentOffer.None?
    case SEND_OFFER => OffersOpen(f) && f.currentOffer == Some(OfferFacts(LANDLORD, SENT, false))
    case AWAIT_TENANT => OffersOpen(f) && f.currentOffer == Some(OfferFacts(LANDLORD, SENT, true))
    case REVIEW_COUNTER =>
      OffersOpen(f) && f.currentOffer.Some? && f.currentOffer.value.party == TENANT
        && f.currentOffer.value.status == COUNTERED
    case _ => false
  }

  predicate OffersOpen(f: Facts) {
    f.caseStatus != Some(RENEWED) && f.noticeStatus == Some(SERVED) && !f.hasAcceptedOffer
  }

  lemma CodeOfFacts(f: Facts)
    requires FactsOnTrack(f)
    ensures CodeMeans(DeriveRenewalNextAction(f).code, f)
  {
    if f.noticeStatus.Some? {
      match f.noticeStatus.value
      case GENERATED =>
      case APPROVED =>
      case SERVICE_RECORDED_PENDING_EVIDENCE =>
      case SERVED =>
      case NOTICE_WITHDRAWN =>
    }
  }

  lemma CaseFactsOnTrack(s: State, t: nat, today: int, benchmark: bool, c: nat)
    requires t < |s.tenancies| && LatestCase(s.cases, t) == Some(c) && DecidedInv(s) && CaseOnTrack(s, c)
    requires IndexSettled(s.captures, t, benchmark)
    ensures FactsOnTrack(FactsOf(s, t, today, benchmark))
  {
    FactsOfCaseAre(s, t, today, benchmark, c);
    DecidedGivesAccepted(s, c);
  }

  lemma DecidedGivesAccepted(s: State, c: nat)
    requires DecidedInv(s) && c < |s.cases|
    ensures s.cases[c].status == AGREED ==> AcceptedOn(s, c)
  {}

  lemma CodeOfCase(s: State, t: nat, today: int, benchmark: bool, c: nat)
    requires DecidedInv(s) && t < |s.tenancies|
    requires OnTrack(s, t, benchmark) && LatestCase(s.cases, t) == Some(c)
    ensures CodeMeans(Recommended(s, t, today, benchmark), FactsOf(s, t, today, benchmark))
  {
    CaseFactsOnTrack(s, t, today, benchmark, c);
    CodeOfFacts(FactsOf(s, t, today, benchmark));
  }

  lemma TermsProgress(s: State, t: nat, benchmark: bool, b: nat, c: nat, call: Call)
    requires LinksExist(s)
    requires OnTrack(s, t, benchmark) && LatestCase(s.cases, t) == Some(c) && s.cases[c].status != RENEWED
    requires NoticeStatusOf(s, c) == Some(SERVED) && !AcceptedOn(s, c)
    requires NewestOffer(s.offers, c).None? || s.offers[NewestOffer(s.offers, c).value].party == TENANT
    requires call.ProposeOffer? && call.c == c && call.party == LANDLORD && call.annualRent > 0
    ensures Progress(s, t, benchmark, b, call)
  {
    ProposeIsFresh(s, c, call.annualRent);
    FreshProgress(s, t, benchmark, b, call, ProposeCall(s, c, LANDLORD, call.annualRent), c, LANDLORD);
  }

  lemma CounterAccepted(s: State, t: nat, benchmark: bool, b: nat, c: nat, o: nat)
    requires OnTrack(s, t, benchmark) && LatestCase(s.cases, t) == Some(c) && s.cases[c].status != RENEWED
    requires NoticeStatusOf(s, c) == Some(SERVED) && !AcceptedOn(s, c)
    requires NewestOffer(s.offers, c) == Some(o) && s.offers[o].IsOpen()
    ensures Progress(s, t, benchmark, b, AcceptOffer(o))
  {
    AcceptAgrees(s, c, o);
    AgreedProgress(s, t, benchmark, b, AcceptOffer(o), AcceptCall(s, o), c);
  }

  lemma OnTheCase(s: State, t: nat, code: Code, benchmark: bool, b: nat, call: Call, c: nat, f: Facts)
    requires Refs(s) && MintInv(s) && LinksExist(s) && t < |s.tenancies| && s.tenancies[t].noticePeriodDays > 0
    requires OnTrack(s, t, benchmark) && LatestCase(s.cases, t) == Some(c)
    requires f.caseStatus == Some(s.cases[c].status) && f.noticeStatus == NoticeStatusOf(s, c)
    requires f.currentOffer == OfferFactsOf(s, c)
    requires f.hasAcceptedOffer == AcceptedOn(s, c) && CodeMeans(code, f)
    requires Does(s, t, code, call) && Cost(call) <= b
    ensures Progress(s, t, benchmark, b, call)
  {
    match code
    case SERVE_NOTICE => ServesProgress(s, t, benchmark, b, c, call);
    case ADD_SERVICE_EVIDENCE => ConfirmProgress(s, t, benchmark, b, c, call);
    case PREPARE_TERMS => TermsProgress(s, t, benchmark, b, c, call);
    case SEND_OFFER => SendProgress(s, t, benchmark, b, c, call);
    case AWAIT_TENANT => TenantProgress(s, t, benchmark, b, c, NewestOffer(s.offers, c).value, call);
    case REVIEW_COUNTER =>
      if call.AcceptOffer? {
        CounterAccepted(s, t, benchmark, b, c, call.o);
      } else {
        TermsProgress(s, t, benchmark, b, c, call);
      }
    case COMPLETE_RENEWAL => MintProgress(s, t, benchmark, b, c, call);
    case _ =>
  }

  lemma CarriedGives(s: State, t: nat)
    requires Carried(s, t)
    ensures Refs(s) && DecidedInv(s) && MintInv(s) && LinksExist(s)
    ensures t < |s.tenancies| && s.tenancies[t].annualRent > 0 && s.tenancies[t].noticePeriodDays > 0
  {}

  lemma RecommendedDoes(s: State, t: nat, today: int, benchmark: bool, b: nat, call: Call)
    requires Refs(s) && DecidedInv(s) && MintInv(s) && LinksExist(s)
    requires t < |s.tenancies| && s.tenancies[t].annualRent > 0 && s.tenancies[t].noticePeriodDays > 0
    requires OnTrack(s, t, benchmark)
    requires Does(s, t, Recommended(s, t, today, benchmark), call) && Cost(call) <= b
    ensures Progress(s, t, benchmark, b, call)
  {
    var latest := LatestCase(s.cases, t);
    if latest.None? {
      BeforeTheCase(s, t, today, benchmark, b, call);
    } else {
      CodeOfCase(s, t, today, benchmark, latest.value);
      FactsOfCaseAre(s, t, today, benchmark, latest.value);
      OnTheCase(s, t, Recommended(s, t, today, benchmark), benchmark, b, call, latest.value,
        FactsOf(s, t, today, benchmark));
    }
  }

  /** A recommended call is accepted, keeps the renewal on track and brings its end nearer. */
  lemma RecommendedCallProgresses(s: State, t: nat, today: int, benchmark: bool, b: nat, call: Call)
    requires Carried(s, t) && OnTrack(s, t, benchmark)
    requires Does(s, t, Recommended(s, t, today, benchmark), call) && Cost(call) <= b
    ensures Progress(s, t, benchmark, b, call) && Carried(Perform(s, call).state, t)
  {
    CarriedGives(s, t);
    RecommendedDoes(s, t, today, benchmark, b, call);
    CarriedOver(s, t, call);
  }

  /** The gate is passed and service has not even been recorded. */
  predicate GateMissed(s: State, t: nat, today: int, benchmark: bool)
    requires t < |s.tenancies|
  {
    var f := FactsOf(s, t, today, benchmark);
    f.GatePassed() && f.noticeStatus != Some(SERVED) && f.noticeStatus != Some(SERVICE_RECORDED_PENDING_EVIDENCE)
  }

  /** One call that does what the code recommends, without spending the tenant's patience. */
  function Suggested(s: State, t: nat, code: Code): Call {
    var latest := LatestCase(s.cases, t);
    var c := if latest.Some? then latest.value else 0;
    var newest := NewestOffer(s.offers, c);
    var o := if newest.Some? then newest.value else 0;
    var notice := LatestNotice(s.notices, c);
    var proof := ServiceInput(Some("courier"), None, None, 0);
    match code
    case CAPTURE_INDEX => OfficialCapture(s, t)
    case VERIFY_INDEX_SOURCE => OfficialCapture(s, t)
    case OPEN_CASE => OpenRenewalCase(t)
    case SERVE_NOTICE => ServeRenewalNotice(c, proof)
    case ADD_SERVICE_EVIDENCE => ConfirmNoticeService(if notice.Some? then notice.value else 0, proof)
    case SEND_OFFER => SendOfferToTenant(o, 0)
    case AWAIT_TENANT => RespondAsTenant(o, Accept)
    case REVIEW_COUNTER => AcceptOffer(o)
    case COMPLETE_RENEWAL => MintRenewedTenancy(c, MintInput(0, 1, 1, None))
    case _ => ProposeOffer(c, LANDLORD, 1)
  }

  function OfficialCapture(s: State, t: nat): Call {
    var latest := LatestCapture(s.captures, t, false);
    CaptureRentIndex(t,
      CaptureInput(1, true, true, if latest.None? then 0 else s.captures[latest.value].capturedAt + 1))
  }

  lemma OfficialCaptureIsFresh(s: State, t: nat)
    ensures FreshOfficialCapture(s, t, OfficialCapture(s, t))
  {
    var latest := LatestCapture(s.captures, t, false);
    forall k | 0 <= k < |s.captures| && s.captures[k].tenancy == t
      ensures latest.Some? && s.captures[k].capturedAt <= s.captures[latest.value].capturedAt
    {
      assert CaptureCounts(s.captures[k], t, false);
    }
  }

  lemma SuggestedDoes(s: State, t: nat, code: Code, f: Facts, c: nat)
    requires LatestCase(s.cases, t) == Some(c) && CodeMeans(code, f) && code != REVIEW_CASE
    requires code != REVIEW_COMPLETED_CASE
    requires f.noticeStatus == NoticeStatusOf(s, c) && f.currentOffer == OfferFactsOf(s, c)
    ensures Does(s, t, code, Suggested(s, t, code)) && Cost(Suggested(s, t, code)) == 0
  {}

  /**
   Unless the gate was missed, the recommendation is either to review the completed case or something
   that can be done.
   */
  lemma SomethingToDo(s: State, t: nat, today: int, benchmark: bool)
    requires DecidedInv(s) && t < |s.tenancies|
    requires OnTrack(s, t, benchmark) && !GateMissed(s, t, today, benchmark)
    ensures var code := Recommended(s, t, today, benchmark);
            code == REVIEW_COMPLETED_CASE
              || (Does(s, t, code, Suggested(s, t, code)) && Cost(Suggested(s, t, code)) == 0)
  {
    var latest, code := LatestCase(s.cases, t), Recommended(s, t, today, benchmark);
    if latest.None? {
      CodeBeforeTheCase(s, t, today, benchmark);
      OfficialCaptureIsFresh(s, t);
    } else {
      CodeOfCase(s, t, today, benchmark, latest.value);
      FactsOfCaseAre(s, t, today, benchmark, latest.value);
      if code != REVIEW_COMPLETED_CASE { SuggestedDoes(s, t, code, FactsOf(s, t, today, benchmark), latest.value); }
    }
  }

  datatype Move = Move(today: int, call: Call)

  /** Each call does what was recommended on its day. */
  ghost predicate GuidedRun(s: State, t: nat, benchmark: bool, moves: seq<Move>, s': State)
    decreases |moves|
  {
    if moves == [] then s == s'
    else
      && t < |s.tenancies| && Does(s, t, Recommended(s, t, moves[0].today, benchmark), moves[0].call)
      && GuidedRun(Perform(s, moves[0].call).state, t, benchmark, moves[1..], s')
  }

  ghost predicate AllAccepted(s: State, moves: seq<Move>)
    decreases |moves|
  {
    moves != [] ==> Perform(s, moves[0].call).reply.Ok? && AllAccepted(Perform(s, moves[0].call).state, moves[1..])
  }

  function Spent(moves: seq<Move>): nat {
    if moves == [] then 0 else Cost(moves[0].call) + Spent(moves[1..])
  }

  /** One move of a run, once it is known to make progress. */
  lemma GuidedStep(s: State, t: nat, benchmark: bool, moves: seq<Move>, s': State)
    requires moves != [] && GuidedRun(s, t, benchmark, moves, s')
    requires Progress(s, t, benchmark, Spent(moves), moves[0].call)
    ensures var out := Perform(s, moves[0].call);
            && out.reply.Ok? && OnTrack(out.state, t, benchmark)
            && GuidedRun(out.state, t, benchmark, moves[1..], s')
            && CallsLeft(out.state, t, benchmark, Spent(moves[1..])) < CallsLeft(s, t, benchmark, Spent(moves))
  {
    assert Spent(moves) - Cost(moves[0].call) == Spent(moves[1..]);
  }

  lemma {:induction false} GuidedRunProgresses(s: State, t: nat, benchmark: bool, moves: seq<Move>, s': State)
    requires Carried(s, t) && OnTrack(s, t, benchmark) && GuidedRun(s, t, benchmark, moves, s')
    ensures AllAccepted(s, moves) && Carried(s', t) && OnTrack(s', t, benchmark)
    ensures |moves| + CallsLeft(s', t, benchmark, 0) <= CallsLeft(s, t, benchmark, Spent(moves))
    decreases |moves|
  {
    if moves == [] {
    } else {
      RecommendedCallProgresses(s, t, moves[0].today, benchmark, Spent(moves), moves[0].call);
      GuidedStep(s, t, benchmark, moves, s');
      GuidedRunProgresses(Perform(s, moves[0].call).state, t, benchmark, moves[1..], s');
    }
  }

  lemma FreshTenancyIsOnTrack(history: seq<Call>, s: State, t: nat, benchmark: bool)
    requires CallRun(EMPTY, history, s) && t < |s.tenancies| && LatestCase(s.cases, t).None?
    requires s.tenancies[t].annualRent > 0 && s.tenancies[t].noticePeriodDays > 0
    ensures Carried(s, t) && OnTrack(s, t, benchmark)
  {
    assert Inv(EMPTY) && TableInv(EMPTY) && LinksExist(EMPTY);
    CallsLead(EMPTY, history, s);
    LeadsKeepsInv(EMPTY, s);
    TableRun(EMPTY, history, s);
    var steps :| Run(EMPTY, steps, s);
    LinksExistRun(EMPTY, steps, s);
  }

  /**
   From a tenancy without a case, after any history: as long as each call does what the next action
   recommends, every call is accepted; there are at most 8 calls and 3 more for each counter or
   question of the tenant; and on every day on which the gate is not missed the run can go on, or the
   renewal is completed. So, unless the gate is missed, it is completed within the bound.
   */
  lemma GuidedRenewalCompletes(history: seq<Call>, s: State, t: nat, benchmark: bool, moves: seq<Move>, s': State,
      today: int)
    requires CallRun(EMPTY, history, s) && t < |s.tenancies| && LatestCase(s.cases, t).None?
    requires s.tenancies[t].annualRent > 0 && s.tenancies[t].noticePeriodDays > 0
    requires GuidedRun(s, t, benchmark, moves, s')
    ensures AllAccepted(s, moves) && |moves| <= 8 + 3 * Spent(moves)
    ensures t < |s'.tenancies|
    ensures GateMissed(s', t, today, benchmark)
            || Recommended(s', t, today, benchmark) == REVIEW_COMPLETED_CASE
            || exists call :: Does(s', t, Recommended(s', t, today, benchmark), call) && Cost(call) == 0
  {
    FreshTenancyIsOnTrack(history, s, t, benchmark);
    GuidedRunProgresses(s, t, benchmark, moves, s');
    CarriedGives(s', t);
    if !GateMissed(s', t, today, benchmark) { SomethingToDo(s', t, today, benchmark); }
  }

  /** A run that used up its bound has completed the renewal. */
  lemma FullRunIsComplete(history: seq<Call>, s: State, t: nat, benchmark: bool, moves: seq<Move>, s': State,
      today: int)
    requires CallRun(EMPTY, history, s) && t < |s.tenancies| && LatestCase(s.cases, t).None?
    requires s.tenancies[t].annualRent > 0 && s.tenancies[t].noticePeriodDays > 0
    requires GuidedRun(s, t, benchmark, moves, s') && |moves| == 8 + 3 * Spent(moves)
    ensures t < |s'.tenancies| && Recommended(s', t, today, benchmark) == REVIEW_COMPLETED_CASE
  {
    FreshTenancyIsOnTrack(history, s, t, benchmark);
    GuidedRunProgresses(s, t, benchmark, moves, s');
    CarriedGives(s', t);
    NothingLeftIsComplete(s', t, benchmark, today);
  }

  lemma NothingLeftIsComplete(s: State, t: nat, benchmark: bool, today: int)
    requires t < |s.tenancies| && CallsLeft(s, t, benchmark, 0) == 0
    ensures Recommended(s, t, today, benchmark) == REVIEW_COMPLETED_CASE
  {
    FactsOfCaseAre(s, t, today, benchmark, LatestCase(s.cases, t).value);
  }

  lemma AcceptedCodeIsComplete(f: Facts)
    requires f.hasIndex && !f.provisionalIndex && !f.renewed && f.hasAcceptedOffer && f.noticeStatus == Some(SERVED)
    requires f.caseStatus == Some(NOTICE_SERVED) || f.caseStatus == Some(NEGOTIATING)
    ensures DeriveRenewalNextAction(f).code == COMPLETE_RENEWAL
  {}

  /** Where the recommendation cannot be followed: a stranded case is to be completed, and completing it is refused. */
  lemma StrandedIsRecommendedToComplete(s: State, t: nat, c: nat, today: int, benchmark: bool, input: MintInput)
    requires DecidedInv(s) && t < |s.tenancies| && LatestCase(s.cases, t) == Some(c) && Stranded(s, c)
    requires s.cases[c].status == NOTICE_SERVED || s.cases[c].status == NEGOTIATING
    requires NoticeStatusOf(s, c) == Some(SERVED) && IndexSettled(s.captures, t, benchmark)
    ensures Recommended(s, t, today, benchmark) == COMPLETE_RENEWAL
    ensures Perform(s, MintRenewedTenancy(c, input)).reply == Err(Unprocessable)
  {
    FactsOfCaseAre(s, t, today, benchmark, c);
    assert AcceptedOn(s, c);
    AcceptedCodeIsComplete(FactsOf(s, t, today, benchmark));
  }
}
