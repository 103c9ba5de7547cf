/** The decision function over the facts of one renewal, and where those facts come from. */
module NextAction {
  import opened Common
  import opened Dates
  import opened Renewals
  import opened RenewalCalls

  datatype Code =
    | CAPTURE_INDEX
    | VERIFY_INDEX_SOURCE
    | OPEN_CASE
    | SERVE_NOTICE
    | ADD_SERVICE_EVIDENCE
    | PREPARE_TERMS
    | SEND_OFFER
    | AWAIT_TENANT
    | REVIEW_COUNTER
    | COMPLETE_RENEWAL
    | REVIEW_COMPLETED_CASE
    | REVIEW_CASE
    | NO_ACTION

  datatype Urgency = CRITICAL | WARN | NORMAL | NONE

  datatype Action = Action(code: Code, urgency: Urgency, due: Option<int>)

  datatype OfferFacts = OfferFacts(party: Party, status: OfferStatus, sentToTenant: bool)

  datatype Facts = Facts(
    gateDay: int,
    daysToGate: int,
    hasIndex: bool,
    provisionalIndex: bool,
    caseStatus: Option<CaseStatus>,
    noticeStatus: Option<NoticeStatus>,
    currentOffer: Option<OfferFacts>,
    hasAcceptedOffer: bool,
    renewed: bool)
  {
    predicate GatePassed() {
      daysToGate < 0
    }
  }

  function GateUrgency(daysToGate: int): Urgency {
    if daysToGate <= 14 then CRITICAL else if daysToGate <= 30 then WARN else NORMAL
  }

  /** The branches in their order: the first that applies decides. */
  function DeriveRenewalNextAction(f: Facts): Action {
    var due := Some(f.gateDay);
    var byGate := GateUrgency(f.daysToGate);
    if f.renewed || f.caseStatus == Some(RENEWED) then Action(REVIEW_COMPLETED_CASE, NONE, None)
    else if f.caseStatus == Some(DECLINED) then Action(NO_ACTION, NONE, None)
    else if f.caseStatus == Some(LAPSED) then Action(REVIEW_CASE, CRITICAL, due)
    else if f.noticeStatus == Some(SERVICE_RECORDED_PENDING_EVIDENCE) then Action(ADD_SERVICE_EVIDENCE, byGate, due)
    else if f.GatePassed() && f.noticeStatus != Some(SERVED) then Action(REVIEW_CASE, CRITICAL, due)
    else if !f.hasIndex then Action(CAPTURE_INDEX, byGate, due)
    else if f.provisionalIndex then Action(VERIFY_INDEX_SOURCE, byGate, due)
    else if f.caseStatus.None? then Action(OPEN_CASE, byGate, due)
    else if f.noticeStatus.None? || f.noticeStatus == Some(GENERATED) || f.noticeStatus == Some(APPROVED) then
      Action(SERVE_NOTICE, byGate, due)
    else if f.noticeStatus == Some(NOTICE_WITHDRAWN) then Action(REVIEW_CASE, WARN, due)
    else if f.hasAcceptedOffer || f.caseStatus == Some(AGREED) then Action(COMPLETE_RENEWAL, NORMAL, due)
    else if f.currentOffer.None? then Action(PREPARE_TERMS, NORMAL, due)
    else
      var offer := f.currentOffer.value;
      if offer.party == TENANT && offer.status == COUNTERED then Action(REVIEW_COUNTER, WARN, due)
      else if offer.party == LANDLORD && offer.status == SENT then
        (if offer.sentToTenant then Action(AWAIT_TENANT, NORMAL, due) else Action(SEND_OFFER, NORMAL, due))
      else Action(REVIEW_CASE, WARN, due)
  }

  predicate Closed(f: Facts) {
    f.renewed || f.caseStatus == Some(RENEWED) || f.caseStatus == Some(DECLINED) || f.caseStatus == Some(LAPSED)
  }

  predicate ServiceOutstanding(f: Facts) {
    f.noticeStatus != Some(SERVED) && f.noticeStatus != Some(SERVICE_RECORDED_PENDING_EVIDENCE)
  }

  /**
   No step is recommended before the one it rests on, whatever the facts; a closed case asks for
   nothing but a look.
   */
  lemma ActionNeverRunsAhead(f: Facts)
    ensures var code := DeriveRenewalNextAction(f).code;
            && (Closed(f) <==>
              code in {REVIEW_COMPLETED_CASE, NO_ACTION} || (code == REVIEW_CASE && f.caseStatus == Some(LAPSED)))
            && (code == ADD_SERVICE_EVIDENCE <==>
              !Closed(f) && f.noticeStatus == Some(SERVICE_RECORDED_PENDING_EVIDENCE))
            && (!Closed(f) && f.GatePassed() && ServiceOutstanding(f) ==> code == REVIEW_CASE)
            && (code == OPEN_CASE ==> f.hasIndex && !f.provisionalIndex && f.caseStatus.None?)
            && (code == SERVE_NOTICE ==>
              f.hasIndex && !f.provisionalIndex && f.caseStatus.Some? && ServiceOutstanding(f) && !f.GatePassed())
            && (code in {PREPARE_TERMS, SEND_OFFER, AWAIT_TENANT, REVIEW_COUNTER, COMPLETE_RENEWAL} ==>
                  f.hasIndex && !f.provisionalIndex && f.caseStatus.Some? && f.noticeStatus == Some(SERVED))
            && (code == COMPLETE_RENEWAL ==> f.hasAcceptedOffer || f.caseStatus == Some(AGREED))
            && (code in {PREPARE_TERMS, SEND_OFFER, AWAIT_TENANT, REVIEW_COUNTER} ==>
              !f.hasAcceptedOffer && f.caseStatus != Some(AGREED))
            && (code in {SEND_OFFER, AWAIT_TENANT} ==>
                  f.currentOffer.Some? && f.currentOffer.value.party == LANDLORD && f.currentOffer.value.status == SENT
                  && (f.currentOffer.value.sentToTenant <==> code == AWAIT_TENANT))
  {
    if f.noticeStatus.Some? {
      match f.noticeStatus.value
      case GENERATED =>
      case APPROVED =>
      case SERVICE_RECORDED_PENDING_EVIDENCE =>
      case SERVED =>
      case NOTICE_WITHDRAWN =>
    }
  }

  /** Neither closed, nor waiting for evidence, nor past the gate without a service. */
  predicate MayGoOn(f: Facts) {
    !Closed(f) && f.noticeStatus != Some(SERVICE_RECORDED_PENDING_EVIDENCE)
    && (f.daysToGate >= 0 || f.noticeStatus == Some(SERVED))
  }

  predicate Indexed(f: Facts) {
    MayGoOn(f) && f.hasIndex && !f.provisionalIndex
  }

  predicate MayNegotiate(f: Facts) {
    && Indexed(f) && f.caseStatus.Some? && f.noticeStatus == Some(SERVED)
    && !f.hasAcceptedOffer && f.caseStatus != Some(AGREED)
  }

  predicate OfferIs(f: Facts, party: Party, status: OfferStatus) {
    f.currentOffer.Some? && f.currentOffer.value.party == party && f.currentOffer.value.status == status
  }

  predicate Missed(f: Facts) {
    (!f.renewed && f.caseStatus == Some(LAPSED)) || (!Closed(f) && f.daysToGate < 0 && ServiceOutstanding(f))
  }

  /** Each code by itself, with its urgency: the facts under which it is the recommendation, whatever the order. */
  lemma EachCodeByItself(f: Facts)
    ensures var a := DeriveRenewalNextAction(f);
            && (a.code == REVIEW_COMPLETED_CASE <==> f.renewed || f.caseStatus == Some(RENEWED))
            && (a.code == NO_ACTION <==> !f.renewed && f.caseStatus == Some(DECLINED))
            && (a.code == CAPTURE_INDEX <==> MayGoOn(f) && !f.hasIndex)
            && (a.code == VERIFY_INDEX_SOURCE <==> MayGoOn(f) && f.hasIndex && f.provisionalIndex)
            && (a.code == OPEN_CASE <==> Indexed(f) && f.caseStatus.None?)
            && (a.code == SERVE_NOTICE <==>
                  && Indexed(f) && f.caseStatus.Some?
                  && f.noticeStatus != Some(SERVED) && f.noticeStatus != Some(NOTICE_WITHDRAWN))
            && (a.code == COMPLETE_RENEWAL <==>
                  && Indexed(f) && f.caseStatus.Some? && f.noticeStatus == Some(SERVED)
                  && (f.hasAcceptedOffer || f.caseStatus == Some(AGREED)))
            && (a.code == PREPARE_TERMS <==> MayNegotiate(f) && f.currentOffer.None?)
            && (a.code == REVIEW_COUNTER <==> MayNegotiate(f) && OfferIs(f, TENANT, COUNTERED))
            && (a.code == AWAIT_TENANT <==>
              MayNegotiate(f) && OfferIs(f, LANDLORD, SENT) && f.currentOffer.value.sentToTenant)
            && (a.code == SEND_OFFER <==>
              MayNegotiate(f) && OfferIs(f, LANDLORD, SENT) && !f.currentOffer.value.sentToTenant)
            && (a.code == REVIEW_CASE && a.urgency == CRITICAL <==> Missed(f))
            && (a.code == REVIEW_CASE && !Missed(f) ==> a.urgency == WARN)
            && (a.code == REVIEW_COUNTER ==> a.urgency == WARN)
            && (a.code in {PREPARE_TERMS, SEND_OFFER, AWAIT_TENANT, COMPLETE_RENEWAL} ==> a.urgency == NORMAL)
  {
    if f.noticeStatus.Some? {
      match f.noticeStatus.value
      case GENERATED =>
      case APPROVED =>
      case SERVICE_RECORDED_PENDING_EVIDENCE =>
      case SERVED =>
      case NOTICE_WITHDRAWN =>
    }
  }

  function Rank(urgency: Urgency): nat {
    match urgency
    case NONE => 0
    case NORMAL => 1
    case WARN => 2
    case CRITICAL => 3
  }

  /**
   As the gate comes nearer, everything else being equal, the urgency never falls. Until the gate is passed
   the action stays the same, and two weeks before it whatever is due before service is critical.
   */
  lemma UrgencyNeverFallsTowardsTheGate(f: Facts, nearer: int)
    requires nearer <= f.daysToGate
    ensures var a, b := DeriveRenewalNextAction(f), DeriveRenewalNextAction(f.(daysToGate := nearer));
            && Rank(a.urgency) <= Rank(b.urgency)
            && (nearer >= 0 ==> b.code == a.code)
            && (b.urgency == NONE <==> b.code == NO_ACTION || b.code == REVIEW_COMPLETED_CASE)
            && b.due == (if b.urgency == NONE then None else Some(f.gateDay))
            && (b.code in {CAPTURE_INDEX, VERIFY_INDEX_SOURCE, OPEN_CASE, SERVE_NOTICE, ADD_SERVICE_EVIDENCE} ==>
                  (b.urgency == CRITICAL <==> nearer <= 14) && (b.urgency == WARN <==> 14 < nearer <= 30))
            && (nearer < 0 && b.code == REVIEW_CASE && f.noticeStatus != Some(SERVED) ==> b.urgency == CRITICAL)
  {}

  /** The case of a tenancy opened last. */
  function LatestCase(cases: seq<RenewalCase>, t: nat): (r: Option<nat>)
    ensures r.Some? ==>
              r.value < |cases| && cases[r.value].tenancy == t && forall d | r.value < d < |cases| ::
                cases[d].tenancy != t
    ensures r.None? <==> forall d | 0 <= d < |cases| :: cases[d].tenancy != t
    decreases |cases|
  {
    if cases == [] then None
    else if cases[|cases| - 1].tenancy == t then Some(|cases| - 1)
    else LatestCase(cases[..|cases| - 1], t)
  }

  /** The notice of a case prepared last. */
  function LatestNotice(notices: seq<Notice>, c: nat): (r: Option<nat>)
    ensures r.Some? ==>
              r.value < |notices| && notices[r.value].renewalCase == c && forall n | r.value < n < |notices| ::
                notices[n].renewalCase != c
    ensures r.None? <==> forall n | 0 <= n < |notices| :: notices[n].renewalCase != c
    decreases |notices|
  {
    if notices == [] then None
    else if notices[|notices| - 1].renewalCase == c then Some(|notices| - 1)
    else LatestNotice(notices[..|notices| - 1], c)
  }

  predicate SentToTenant(links: seq<Link>, o: nat) {
    exists l | 0 <= l < |links| :: links[l].offer == o
  }

  function NoticeStatusOf(s: State, c: nat): Option<NoticeStatus> {
    var notice := LatestNotice(s.notices, c);
    if notice.None? then None else Some(s.notices[notice.value].status)
  }

  function OfferFactsOf(s: State, c: nat): Option<OfferFacts> {
    var newest := NewestOffer(s.offers, c);
    if newest.None? then None
    else
      var o := newest.value;
      Some(OfferFacts(s.offers[o].party, s.offers[o].status, SentToTenant(s.links, o)))
  }

  /** The facts as the risk report assembles them; a building or community benchmark stands in for a missing capture. */
  function FactsOf(s: State, t: nat, today: int, benchmark: bool): Facts
    requires t < |s.tenancies|
  {
    var gateDay := s.tenancies[t].endDay - s.tenancies[t].noticePeriodDays;
    var index := LatestCapture(s.captures, t, false);
    var latest := LatestCase(s.cases, t);
    var at := Facts(gateDay, DaysBetween(today, gateDay), index.Some? || benchmark, index.Some?
      && !s.captures[index.value].official,
                    None, None, None, false, false);
    if latest.None? then at
    else
      var c := latest.value;
      at.(caseStatus := Some(s.cases[c].status), noticeStatus := NoticeStatusOf(s, c),
        currentOffer := OfferFactsOf(s, c),
          hasAcceptedOffer := AcceptedOn(s, c), renewed := s.cases[c].renewedTenancy.Some?)
  }

  function Recommended(s: State, t: nat, today: int, benchmark: bool): Code
    requires t < |s.tenancies|
  {
    DeriveRenewalNextAction(FactsOf(s, t, today, benchmark)).code
  }

  /** The facts on the rows: the gate to the day, and the status, decision and successor of the case opened last. */
  lemma FactsOnRecords(s: State, t: nat, c: nat, today: int, benchmark: bool)
    requires t < |s.tenancies|
    ensures var f := FactsOf(s, t, today, benchmark);
            && f.gateDay + s.tenancies[t].noticePeriodDays == s.tenancies[t].endDay
            && today + f.daysToGate == f.gateDay
            && (f.GatePassed() <==> today > s.tenancies[t].endDay - s.tenancies[t].noticePeriodDays)
            && (f.caseStatus.None? <==> forall d | 0 <= d < |s.cases| :: s.cases[d].tenancy != t)
            && (&& c < |s.cases| && s.cases[c].tenancy == t
                && (forall d | c < d < |s.cases| :: s.cases[d].tenancy != t) ==>
                  && f.caseStatus == Some(s.cases[c].status)
                  && (f.renewed <==> s.cases[c].renewedTenancy.Some?)
                  && (f.hasAcceptedOffer <==> exists o | 0 <= o < |s.offers| ::
                        s.offers[o].renewalCase == c && s.offers[o].status == ACCEPTED))
  {
    var latest := LatestCase(s.cases, t);
    if c < |s.cases| && s.cases[c].tenancy == t && (forall d | c < d < |s.cases| :: s.cases[d].tenancy != t) {
      assert latest.Some? && latest.value == c;
    }
  }
}
