/**
 The renewal tables and every write to them, one step per database statement or transaction. Rows
 are named by their position, so creation order is position order. The unique indexes are store
 constraints: a write that would break one is not enabled.
 */
module Renewals {
  import opened Common

  datatype CaseStatus = ASSESSING | NOTICE_DUE | NOTICE_SERVED | NEGOTIATING | AGREED | RENEWED | DECLINED | LAPSED

  predicate Terminal(status: CaseStatus) {
    status == RENEWED || status == DECLINED || status == LAPSED
  }

  datatype RenewalCase = RenewalCase(
    tenancy: nat,
    status: CaseStatus,
    noticeGateDay: int,
    noticeServedAt: Option<int>,
    decidedOffer: Option<nat>,
    currentOffer: Option<nat>,
    indexCapture: Option<nat>,
    renewedTenancy: Option<nat>)

  datatype Party = LANDLORD | TENANT

  datatype OfferStatus = SENT | COUNTERED | ACCEPTED | SUPERSEDED | WITHDRAWN

  datatype Offer = Offer(
    renewalCase: nat,
    version: nat,
    party: Party,
    annualRent: int,
    status: OfferStatus,
    permittedMaxSnapshot: Option<int>)
  {
    predicate IsOpen() {
      status == SENT || status == COUNTERED
    }
  }

  datatype TenancyStatus =
    | T_ACTIVE
    | T_RENEWAL_DUE
    | T_NOTICE_SERVED
    | T_NEGOTIATING
    | T_RENEWED
    | T_ENDING
    | T_DISPUTED
    | T_ARCHIVED

  datatype Tenancy = Tenancy(
    status: TenancyStatus,
    startDay: int,
    endDay: int,
    annualRent: int,
    noticePeriodDays: int,
    renewsFrom: Option<nat>,
    archivedAt: Option<int>)

  function AllowedStatus(from: TenancyStatus): set<TenancyStatus> {
    match from
    case T_ACTIVE => {T_RENEWAL_DUE, T_NOTICE_SERVED, T_NEGOTIATING, T_ENDING, T_DISPUTED, T_ARCHIVED}
    case T_RENEWAL_DUE => {T_NOTICE_SERVED, T_NEGOTIATING, T_RENEWED, T_ENDING, T_DISPUTED}
    case T_NOTICE_SERVED => {T_NEGOTIATING, T_RENEWED, T_ENDING, T_DISPUTED}
    case T_NEGOTIATING => {T_RENEWED, T_ENDING, T_DISPUTED}
    case T_RENEWED => {T_ARCHIVED}
    case T_ENDING => {T_ARCHIVED, T_DISPUTED}
    case T_DISPUTED => {T_ACTIVE, T_ENDING, T_ARCHIVED}
    case T_ARCHIVED => {}
  }

  /** How far a tenancy has come, with a dispute past everything else. */
  function Stage(status: TenancyStatus): nat {
    match status
    case T_ACTIVE => 0
    case T_RENEWAL_DUE => 1
    case T_NOTICE_SERVED => 2
    case T_NEGOTIATING => 3
    case T_RENEWED => 4
    case T_ENDING => 4
    case T_ARCHIVED => 5
    case T_DISPUTED => 6
  }

  /**
   Outside a dispute the transition table only leads forward; only an open tenancy can be renewed, and
   a renewed one only archived.
   */
  lemma StatusMovesForward(from: TenancyStatus, to: TenancyStatus)
    requires to in AllowedStatus(from)
    ensures from != T_DISPUTED ==> Stage(from) < Stage(to)
    ensures from == T_DISPUTED ==> to in {T_ACTIVE, T_ENDING, T_ARCHIVED}
    ensures to == T_RENEWED ==> from in {T_RENEWAL_DUE, T_NOTICE_SERVED, T_NEGOTIATING}
    ensures from == T_RENEWED ==> to == T_ARCHIVED
  {}

  ghost predicate AllowedPath(path: seq<TenancyStatus>) {
    forall i | 0 < i < |path| :: path[i] in AllowedStatus(path[i - 1])
  }

  /** So a path without a dispute takes at most five moves, and an archived tenancy makes none. */
  lemma {:induction false} PathsAreShort(path: seq<TenancyStatus>)
    requires path != [] && AllowedPath(path) && T_DISPUTED !in path
    ensures |path| - 1 + Stage(path[0]) <= Stage(path[|path| - 1])
    ensures path[0] == T_ARCHIVED ==> |path| == 1
    ensures |path| <= 6
    decreases |path|
  {
    if |path| > 1 {
      assert path[1] in AllowedStatus(path[0]);
      StatusMovesForward(path[0], path[1]);
      assert forall i | 0 < i < |path[1..]| :: path[1..][i] in AllowedStatus(path[1..][i - 1]) by {
        forall i | 0 < i < |path[1..]| ensures path[1..][i] in AllowedStatus(path[1..][i - 1]) {
          assert path[i + 1] in AllowedStatus(path[i]);
        }
      }
      PathsAreShort(path[1..]);
    }
  }

  datatype NoticeStatus = GENERATED | APPROVED | SERVICE_RECORDED_PENDING_EVIDENCE | SERVED | NOTICE_WITHDRAWN

  datatype Notice = Notice(
    renewalCase: nat,
    status: NoticeStatus,
    serviceRef: Option<string>,
    docId: Option<string>,
    attestation: Option<string>)
  {
    /** One of the three accepted proofs is on the row. */
    predicate Proven() {
      Truthy(serviceRef) || Truthy(docId) || Truthy(attestation)
    }
  }

  datatype NoticeEventKind = NoticeGenerated | NoticeApproved | NoticeServiceRecorded | NoticeServed

  datatype NoticeEvent = NoticeEvent(notice: nat, kind: NoticeEventKind)

  datatype ServiceInput = ServiceInput(serviceRef: Option<string>, docId: Option<string>, attestation: Option<string>,
    at: int)
  {
    predicate HasEvidence() {
      Truthy(serviceRef) || Truthy(docId) || Truthy(attestation)
    }
  }

  datatype Link = Link(offer: nat, maxUses: Option<nat>, useCount: nat, expiresAt: int, revoked: bool)
  {
    /** The guard inside the consuming statement. */
    predicate Usable(now: int) {
      !revoked && expiresAt > now && (maxUses.None? || useCount < maxUses.value)
    }
  }

  /** An index capture; `permittedMax` is absent on rows that predate the calculator. */
  datatype Capture = Capture(tenancy: nat, permittedMax: Option<int>, official: bool, capturedAt: int)

  /**
   `owed` counts link uses that were consumed but whose response is not applied yet, `responses` the
   applied ones. `noticeLog` is the ledger of notice events.
   */
  datatype State = State(
    cases: seq<RenewalCase>,
    offers: seq<Offer>,
    tenancies: seq<Tenancy>,
    notices: seq<Notice>,
    links: seq<Link>,
    captures: seq<Capture>,
    noticeLog: seq<NoticeEvent>,
    owed: multiset<nat>,
    responses: multiset<nat>)

  datatype Step =
    | AddTenancy(tenancy: Tenancy)
    | OpenCase(t: nat)
    | AddCapture(capture: Capture)
    | SupersedeOpen(c: nat)
    | InsertOffer(c: nat, version: nat, party: Party, annualRent: int, snapshot: Option<int>)
    | PointAt(c: nat, o: nat)
    | AcceptTx(o: nat)
    | MintTx(c: nat, startDay: int, endDay: int, annualRent: int, noticePeriodDays: int)
    | PrepareNotice(c: nat, docId: Option<string>)
    | ApproveNotice(n: nat)
    | ServeNotice(n: nat, input: ServiceInput)
    | ConfirmService(n: nat, input: ServiceInput)
    | MoveTenancy(t: nat, status: TenancyStatus)
    | ArchiveTenancy(t: nat, now: int)
    | IssueLink(o: nat, maxUses: Option<nat>, expiresAt: int)
    | RevokeLink(l: nat)
    | ConsumeLink(l: nat, now: int)
    | ApplyResponse(l: nat)
    | DropResponse(l: nat)

  // The unique indexes.

  predicate ActiveElsewhere(s: State, c: nat)
    requires c < |s.cases|
  {
    exists d | 0 <= d < |s.cases| :: d != c && s.cases[d].tenancy == s.cases[c].tenancy && !Terminal(s.cases[d].status)
  }

  /** RenewalCase_active_unique lets case c take a status that is not terminal. */
  predicate MayBeActive(s: State, c: nat)
    requires c < |s.cases|
  {
    !Terminal(s.cases[c].status) || !ActiveElsewhere(s, c)
  }

  predicate HasActiveCase(s: State, t: nat) {
    exists d | 0 <= d < |s.cases| :: s.cases[d].tenancy == t && !Terminal(s.cases[d].status)
  }

  /** Offer_one_accepted_per_case. */
  predicate AcceptedOn(s: State, c: nat) {
    exists o | 0 <= o < |s.offers| :: s.offers[o].renewalCase == c && s.offers[o].status == ACCEPTED
  }

  /** Offer (renewalCaseId, version). */
  predicate VersionTaken(s: State, c: nat, version: nat) {
    exists o | 0 <= o < |s.offers| :: s.offers[o].renewalCase == c && s.offers[o].version == version
  }

  /** Tenancy_renewsFromTenancyId_key. */
  predicate HasSuccessor(s: State, t: nat) {
    exists u | 0 <= u < |s.tenancies| :: s.tenancies[u].renewsFrom == Some(t)
  }

  predicate Enabled(s: State, step: Step) {
    match step
    case AddTenancy(tenancy) => tenancy.renewsFrom.None?
    case OpenCase(t) => t < |s.tenancies| && s.tenancies[t].noticePeriodDays > 0 && !HasActiveCase(s, t)
    case AddCapture(capture) => capture.tenancy < |s.tenancies|
    case SupersedeOpen(c) => c < |s.cases|
    case InsertOffer(c, version, _, _, _) => c < |s.cases| && !VersionTaken(s, c, version)
    case PointAt(c, o) => c < |s.cases| && o < |s.offers| && s.offers[o].renewalCase == c && MayBeActive(s, c)
    case AcceptTx(o) =>
      && o < |s.offers| && s.offers[o].IsOpen() && s.offers[o].renewalCase < |s.cases|
      && !AcceptedOn(s, s.offers[o].renewalCase) && MayBeActive(s, s.offers[o].renewalCase)
    case MintTx(c, _, _, _, _) =>
      && c < |s.cases| && s.cases[c].status == AGREED && s.cases[c].renewedTenancy.None?
      && s.cases[c].tenancy < |s.tenancies| && !HasSuccessor(s, s.cases[c].tenancy)
    case PrepareNotice(c, _) => c < |s.cases|
    case ApproveNotice(n) => n < |s.notices| && s.notices[n].status == GENERATED
    case ServeNotice(n, input) =>
      && n < |s.notices| && s.notices[n].status == APPROVED && s.notices[n].renewalCase < |s.cases|
      && (input.HasEvidence() ==> MayBeActive(s, s.notices[n].renewalCase))
    case ConfirmService(n, input) =>
      && n < |s.notices| && s.notices[n].status == SERVICE_RECORDED_PENDING_EVIDENCE
        && s.notices[n].renewalCase < |s.cases|
      && input.HasEvidence() && MayBeActive(s, s.notices[n].renewalCase)
    case MoveTenancy(t, status) => t < |s.tenancies| && status in AllowedStatus(s.tenancies[t].status)
    case ArchiveTenancy(t, _) => t < |s.tenancies|
    case IssueLink(o, _, _) => o < |s.offers|
    case RevokeLink(l) => l < |s.links|
    case ConsumeLink(l, now) => l < |s.links| && s.links[l].Usable(now)
    case ApplyResponse(l) => s.owed[l] > 0
    case DropResponse(l) => s.owed[l] > 0
  }

  function SupersedeAll(offers: seq<Offer>, c: nat): (out: seq<Offer>)
    ensures |out| == |offers|
  {
    seq(|offers|, i requires 0 <= i < |offers| =>
      if offers[i].renewalCase == c && offers[i].IsOpen() then offers[i].(status := SUPERSEDED) else offers[i])
  }

  function OfferRow(c: nat, version: nat, party: Party, annualRent: int, snapshot: Option<int>): Offer {
    Offer(c, version, party, annualRent, if party == TENANT then COUNTERED else SENT, snapshot)
  }

  function SetTenancyStatus(s: State, t: nat, status: TenancyStatus): State
    requires t < |s.tenancies|
  {
    s.(tenancies := s.tenancies[t := s.tenancies[t].(status := status)])
  }

  function MarkServed(s: State, n: nat, input: ServiceInput): State
    requires n < |s.notices| && s.notices[n].renewalCase < |s.cases|
  {
    var c := s.notices[n].renewalCase;
    var docId := if input.docId.Some? then input.docId else s.notices[n].docId;
    var served := s.(
      notices := s.notices[n := s.notices[n].(status := SERVED, serviceRef := input.serviceRef, docId := docId,
        attestation := input.attestation)],
      cases := s.cases[c := s.cases[c].(status := NOTICE_SERVED, noticeServedAt := Some(input.at))],
      noticeLog := s.noticeLog + [NoticeEvent(n, NoticeServed)]);
    var t := s.cases[c].tenancy;
    if t < |s.tenancies| && (s.tenancies[t].status == T_ACTIVE || s.tenancies[t].status == T_RENEWAL_DUE)
    then SetTenancyStatus(served, t, T_NOTICE_SERVED) else served
  }

  function Do(s: State, step: Step): State
    requires Enabled(s, step)
  {
    match step
    case AddTenancy(tenancy) => s.(tenancies := s.tenancies + [tenancy])
    case OpenCase(t) =>
      s.(cases := s.cases +
        [RenewalCase(t, ASSESSING, s.tenancies[t].endDay - s.tenancies[t].noticePeriodDays, None, None, None, None,
          None)])
    case AddCapture(capture) => s.(captures := s.captures + [capture])
    case SupersedeOpen(c) => s.(offers := SupersedeAll(s.offers, c))
    case InsertOffer(c, version, party, annualRent, snapshot) =>
      s.(offers := s.offers + [OfferRow(c, version, party, annualRent, snapshot)])
    case PointAt(c, o) => s.(cases := s.cases[c := s.cases[c].(status := NEGOTIATING, currentOffer := Some(o))])
    case AcceptTx(o) =>
      var c := s.offers[o].renewalCase;
      s.(offers := SupersedeAll(s.offers[o := s.offers[o].(status := ACCEPTED)], c),
         cases := s.cases[c := s.cases[c].(status := AGREED, decidedOffer := Some(o), currentOffer := Some(o))])
    case MintTx(c, startDay, endDay, annualRent, noticePeriodDays) =>
      var p := s.cases[c].tenancy;
      s.(tenancies := s.tenancies[p := s.tenancies[p].(status := T_RENEWED)]
                      + [Tenancy(T_ACTIVE, startDay, endDay, annualRent, noticePeriodDays, Some(p), None)],
         cases := s.cases[c := s.cases[c].(status := RENEWED, renewedTenancy := Some(|s.tenancies|))])
    case PrepareNotice(c, docId) =>
      s.(notices := s.notices + [Notice(c, GENERATED, None, docId, None)],
         noticeLog := s.noticeLog + [NoticeEvent(|s.notices|, NoticeGenerated)])
    case ApproveNotice(n) =>
      s.(notices := s.notices[n := s.notices[n].(status := APPROVED)],
         noticeLog := s.noticeLog + [NoticeEvent(n, NoticeApproved)])
    case ServeNotice(n, input) =>
      if input.HasEvidence() then MarkServed(s, n, input)
      else
        s.(notices := s.notices[n := s.notices[n].(
                        status := SERVICE_RECORDED_PENDING_EVIDENCE,
                        docId := if input.docId.Some? then input.docId else s.notices[n].docId)],
           noticeLog := s.noticeLog + [NoticeEvent(n, NoticeServiceRecorded)])
    case ConfirmService(n, input) => MarkServed(s, n, input)
    case MoveTenancy(t, status) => SetTenancyStatus(s, t, status)
    case ArchiveTenancy(t, now) =>
      s.(tenancies := s.tenancies[t := s.tenancies[t].(status := T_ARCHIVED, archivedAt := Some(now))])
    case IssueLink(o, maxUses, expiresAt) => s.(links := s.links + [Link(o, maxUses, 0, expiresAt, false)])
    case RevokeLink(l) => s.(links := s.links[l := s.links[l].(revoked := true)])
    case ConsumeLink(l, _) =>
      s.(links := s.links[l := s.links[l].(useCount := s.links[l].useCount + 1)], owed := s.owed + multiset{l})
    case ApplyResponse(l) => s.(owed := s.owed - multiset{l}, responses := s.responses + multiset{l})
    case DropResponse(l) => s.(owed := s.owed - multiset{l})
  }

  const EMPTY := State([], [], [], [], [], [], [], multiset{}, multiset{})

  ghost predicate Run(s: State, steps: seq<Step>, s': State)
    decreases |steps|
  {
    if steps == [] then s == s'
    else Enabled(s, steps[0]) && Run(Do(s, steps[0]), steps[1..], s')
  }

  // ---------------------------------------------------------------------------------------------
  // Decisions
  // ---------------------------------------------------------------------------------------------

  /** Every reference points at a row that exists. */
  ghost predicate Refs(s: State) {
    && (forall o | 0 <= o < |s.offers| :: s.offers[o].renewalCase < |s.cases|)
    && (forall c | 0 <= c < |s.cases| :: s.cases[c].tenancy < |s.tenancies|)
    && (forall n | 0 <= n < |s.notices| :: s.notices[n].renewalCase < |s.cases|)
  }

  /** The decided offer is the accepted offer of the case, in both directions. */
  ghost predicate DecidedInv(s: State) {
    && (forall c | 0 <= c < |s.cases| && s.cases[c].decidedOffer.Some? ::
          var o := s.cases[c].decidedOffer.value;
          o < |s.offers| && s.offers[o].renewalCase == c && s.offers[o].status == ACCEPTED)
    && (forall o | 0 <= o < |s.offers| && s.offers[o].status == ACCEPTED ::
          s.offers[o].renewalCase < |s.cases| && s.cases[s.offers[o].renewalCase].decidedOffer == Some(o))
    && (forall c | 0 <= c < |s.cases| && s.cases[c].status in {AGREED, RENEWED} :: s.cases[c].decidedOffer.Some?)
  }

  lemma OfferRefsStep(s: State, step: Step)
    requires Refs(s) && Enabled(s, step)
    ensures forall o | 0 <= o < |Do(s, step).offers| :: Do(s, step).offers[o].renewalCase < |Do(s, step).cases|
  {}

  lemma CaseRefsStep(s: State, step: Step)
    requires Refs(s) && Enabled(s, step)
    ensures forall c | 0 <= c < |Do(s, step).cases| :: Do(s, step).cases[c].tenancy < |Do(s, step).tenancies|
  {}

  lemma NoticeRefsStep(s: State, step: Step)
    requires Refs(s) && Enabled(s, step)
    ensures forall n | 0 <= n < |Do(s, step).notices| :: Do(s, step).notices[n].renewalCase < |Do(s, step).cases|
  {}

  lemma RefsStep(s: State, step: Step)
    requires Refs(s) && Enabled(s, step)
    ensures Refs(Do(s, step))
  {
    OfferRefsStep(s, step);
    CaseRefsStep(s, step);
    NoticeRefsStep(s, step);
  }

  /** The terms and the frozen ceiling of an offer never change, and an accepted offer stays accepted. */
  ghost predicate OfferKept(a: Offer, b: Offer) {
    && b.(status := a.status) == a
    && (a.status == ACCEPTED ==> b.status == ACCEPTED)
  }

  predicate WritesOffers(step: Step) {
    step.SupersedeOpen? || step.InsertOffer? || step.AcceptTx?
  }

  lemma OffersUntouched(s: State, step: Step)
    requires Enabled(s, step) && !WritesOffers(step)
    ensures Do(s, step).offers == s.offers
  {}

  lemma OffersKept(s: State, step: Step)
    requires Enabled(s, step)
    ensures |s.offers| <= |Do(s, step).offers|
    ensures forall o | 0 <= o < |s.offers| :: OfferKept(s.offers[o], Do(s, step).offers[o])
    ensures forall o | |s.offers| <= o < |Do(s, step).offers| :: Do(s, step).offers[o].status != ACCEPTED
    ensures !step.AcceptTx? ==>
              forall o | 0 <= o < |s.offers| && s.offers[o].status != ACCEPTED ::
                Do(s, step).offers[o].status != ACCEPTED
  {
    if !WritesOffers(step) { OffersUntouched(s, step); }
  }

  /** What a step that is not an acceptance may do to a case, as far as its decision goes. */
  ghost predicate DecisionKept(a: RenewalCase, b: RenewalCase) {
    && b.decidedOffer == a.decidedOffer
    && (b.status == AGREED ==> a.status == AGREED)
    && (b.status == RENEWED ==> a.status == AGREED || a.status == RENEWED)
  }

  predicate WritesCases(step: Step) {
    step.OpenCase? || step.PointAt? || step.AcceptTx? || step.MintTx? || step.ServeNotice? || step.ConfirmService?
  }

  lemma CasesUntouched(s: State, step: Step)
    requires Enabled(s, step) && !WritesCases(step)
    ensures Do(s, step).cases == s.cases
  {}

  lemma DecisionsKept(s: State, step: Step)
    requires Enabled(s, step) && !step.AcceptTx?
    ensures |s.cases| <= |Do(s, step).cases|
    ensures forall c | 0 <= c < |s.cases| :: DecisionKept(s.cases[c], Do(s, step).cases[c])
    ensures forall c | |s.cases| <= c < |Do(s, step).cases| ::
              Do(s, step).cases[c].decidedOffer.None? && Do(s, step).cases[c].status == ASSESSING
  {
    if !WritesCases(step) { CasesUntouched(s, step); }
  }

  lemma DecidedAccept(s: State, o: nat)
    requires Refs(s) && DecidedInv(s) && Enabled(s, AcceptTx(o))
    ensures DecidedInv(Do(s, AcceptTx(o)))
    ensures s.cases[s.offers[o].renewalCase].decidedOffer.None?
  {
    var s' := Do(s, AcceptTx(o));
    forall p | 0 <= p < |s'.offers| && s'.offers[p].status == ACCEPTED
      ensures s'.cases[s'.offers[p].renewalCase].decidedOffer == Some(p)
    {
      if p != o { assert s.offers[p].status == ACCEPTED; }
    }
  }

  lemma DecidedStep(s: State, step: Step)
    requires Refs(s) && DecidedInv(s) && Enabled(s, step)
    ensures DecidedInv(Do(s, step))
  {
    if step.AcceptTx? {
      DecidedAccept(s, step.o);
    } else {
      OffersKept(s, step);
      DecisionsKept(s, step);
      DecidedFrame(s, Do(s, step));
    }
  }

  lemma DecidedFrame(s: State, s': State)
    requires Refs(s) && DecidedInv(s)
    requires |s.offers| <= |s'.offers| && |s.cases| <= |s'.cases|
    requires forall o | 0 <= o < |s.offers| ::
               OfferKept(s.offers[o], s'.offers[o]) && (s.offers[o].status != ACCEPTED ==>
                 s'.offers[o].status != ACCEPTED)
    requires forall o | |s.offers| <= o < |s'.offers| :: s'.offers[o].status != ACCEPTED
    requires forall c | 0 <= c < |s.cases| :: DecisionKept(s.cases[c], s'.cases[c])
    requires forall c | |s.cases| <= c < |s'.cases| :: s'.cases[c].decidedOffer.None? && s'.cases[c].status == ASSESSING
    ensures DecidedInv(s')
  {
    forall c | 0 <= c < |s'.cases| && s'.cases[c].decidedOffer.Some?
      ensures var o := s'.cases[c].decidedOffer.value;
              o < |s'.offers| && s'.offers[o].renewalCase == c && s'.offers[o].status == ACCEPTED
    {
      assert DecisionKept(s.cases[c], s'.cases[c]);
      var o := s.cases[c].decidedOffer.value;
      assert OfferKept(s.offers[o], s'.offers[o]);
    }
    forall o | 0 <= o < |s'.offers| && s'.offers[o].status == ACCEPTED
      ensures s'.offers[o].renewalCase < |s'.cases| && s'.cases[s'.offers[o].renewalCase].decidedOffer == Some(o)
    {
      assert OfferKept(s.offers[o], s'.offers[o]);
    }
  }

  // ---------------------------------------------------------------------------------------------
  // Minting
  // ---------------------------------------------------------------------------------------------

  /** Minted tenancies and cases with a successor correspond one to one, and no tenancy is renewed twice. */
  ghost predicate MintInv(s: State) {
    && (forall c | 0 <= c < |s.cases| && s.cases[c].renewedTenancy.Some? ::
          var t := s.cases[c].renewedTenancy.value;
          t < |s.tenancies| && s.tenancies[t].renewsFrom == Some(s.cases[c].tenancy) && s.cases[c].decidedOffer.Some?)
    && (forall c | 0 <= c < |s.cases| && s.cases[c].status == RENEWED :: s.cases[c].renewedTenancy.Some?)
    && (forall t | 0 <= t < |s.tenancies| && s.tenancies[t].renewsFrom.Some? ::
          s.tenancies[t].renewsFrom.value < t && MintedBySomeCase(s, t))
    && (forall t, u | 0 <= t < u < |s.tenancies| && s.tenancies[t].renewsFrom.Some? ::
          s.tenancies[t].renewsFrom != s.tenancies[u].renewsFrom)
    && (forall c, d | 0 <= c < d < |s.cases| && s.cases[c].renewedTenancy.Some? ::
          s.cases[c].renewedTenancy != s.cases[d].renewedTenancy)
  }

  ghost predicate MintedBySomeCase(s: State, t: nat) {
    exists c :: 0 <= c < |s.cases| && s.cases[c].renewedTenancy == Some(t)
  }

  ghost predicate MintKept(a: RenewalCase, b: RenewalCase) {
    && b.tenancy == a.tenancy && b.renewedTenancy == a.renewedTenancy
    && (a.decidedOffer.Some? ==> b.decidedOffer.Some?)
    && (b.status == RENEWED ==> a.status == RENEWED)
  }

  lemma MintsKept(s: State, step: Step)
    requires Enabled(s, step) && !step.MintTx?
    ensures |s.cases| <= |Do(s, step).cases| && |s.tenancies| <= |Do(s, step).tenancies|
    ensures forall c | 0 <= c < |s.cases| :: MintKept(s.cases[c], Do(s, step).cases[c])
    ensures forall c | |s.cases| <= c < |Do(s, step).cases| ::
              Do(s, step).cases[c].renewedTenancy.None? && Do(s, step).cases[c].status == ASSESSING
    ensures forall t | 0 <= t < |s.tenancies| :: Do(s, step).tenancies[t].renewsFrom == s.tenancies[t].renewsFrom
    ensures forall t | |s.tenancies| <= t < |Do(s, step).tenancies| :: Do(s, step).tenancies[t].renewsFrom.None?
  {
    if !WritesCases(step) { CasesUntouched(s, step); }
  }

  lemma MintFrame(s: State, s': State)
    requires MintInv(s)
    requires |s.cases| <= |s'.cases| && |s.tenancies| <= |s'.tenancies|
    requires forall c | 0 <= c < |s.cases| :: MintKept(s.cases[c], s'.cases[c])
    requires forall c | |s.cases| <= c < |s'.cases| ::
               s'.cases[c].renewedTenancy.None? && s'.cases[c].status == ASSESSING
    requires forall t | 0 <= t < |s.tenancies| :: s'.tenancies[t].renewsFrom == s.tenancies[t].renewsFrom
    requires forall t | |s.tenancies| <= t < |s'.tenancies| :: s'.tenancies[t].renewsFrom.None?
    ensures MintInv(s')
  {
    forall c | 0 <= c < |s'.cases| && s'.cases[c].renewedTenancy.Some?
      ensures var t := s'.cases[c].renewedTenancy.value;
              t < |s'.tenancies| && s'.tenancies[t].renewsFrom == Some(s'.cases[c].tenancy)
                && s'.cases[c].decidedOffer.Some?
    {
      assert MintKept(s.cases[c], s'.cases[c]);
    }
    forall t | 0 <= t < |s'.tenancies| && s'.tenancies[t].renewsFrom.Some?
      ensures s'.tenancies[t].renewsFrom.value < t && MintedBySomeCase(s', t)
    {
      assert MintedBySomeCase(s, t);
      var c :| 0 <= c < |s.cases| && s.cases[c].renewedTenancy == Some(t);
      assert MintKept(s.cases[c], s'.cases[c]);
    }
    forall c, d | 0 <= c < d < |s'.cases| && s'.cases[c].renewedTenancy.Some?
      ensures s'.cases[c].renewedTenancy != s'.cases[d].renewedTenancy
    {
      assert MintKept(s.cases[c], s'.cases[c]);
      if d < |s.cases| { assert MintKept(s.cases[d], s'.cases[d]); }
    }
  }

  /** A fresh tenancy that renews an unrenewed one keeps both directions of the correspondence injective. */
  lemma MintedLinks(s: State, s': State, c: nat)
    requires MintInv(s) && c < |s.cases| && s.cases[c].renewedTenancy.None? && !HasSuccessor(s, s.cases[c].tenancy)
    requires |s'.cases| == |s.cases| && forall d | 0 <= d < |s.cases| && d != c :: s'.cases[d] == s.cases[d]
    requires s'.cases[c].renewedTenancy == Some(|s.tenancies|) && |s'.tenancies| == |s.tenancies| + 1
    requires forall t | 0 <= t < |s.tenancies| :: s'.tenancies[t].renewsFrom == s.tenancies[t].renewsFrom
    requires s'.tenancies[|s.tenancies|].renewsFrom == Some(s.cases[c].tenancy)
    ensures forall t, u | 0 <= t < u < |s'.tenancies| && s'.tenancies[t].renewsFrom.Some? ::
              s'.tenancies[t].renewsFrom != s'.tenancies[u].renewsFrom
    ensures forall e, d | 0 <= e < d < |s'.cases| && s'.cases[e].renewedTenancy.Some? ::
              s'.cases[e].renewedTenancy != s'.cases[d].renewedTenancy
  {}

  lemma MintStep(s: State, c: nat, startDay: int, endDay: int, annualRent: int, notice: int)
    requires Refs(s) && DecidedInv(s) && MintInv(s) && Enabled(s, MintTx(c, startDay, endDay, annualRent, notice))
    ensures MintInv(Do(s, MintTx(c, startDay, endDay, annualRent, notice)))
  {
    var s' := Do(s, MintTx(c, startDay, endDay, annualRent, notice));
    var n := |s.tenancies|;
    MintedLinks(s, s', c);
    forall t | 0 <= t < |s'.tenancies| && s'.tenancies[t].renewsFrom.Some?
      ensures s'.tenancies[t].renewsFrom.value < t && MintedBySomeCase(s', t)
    {
      if t == n {
        assert s'.cases[c].renewedTenancy == Some(n);
      } else {
        assert MintedBySomeCase(s, t);
        var d :| 0 <= d < |s.cases| && s.cases[d].renewedTenancy == Some(t);
        assert s'.cases[d] == s.cases[d];
      }
    }
  }

  lemma MintInvStep(s: State, step: Step)
    requires Refs(s) && DecidedInv(s) && MintInv(s) && Enabled(s, step)
    ensures MintInv(Do(s, step))
  {
    if step.MintTx? {
      MintStep(s, step.c, step.startDay, step.endDay, step.annualRent, step.noticePeriodDays);
    } else {
      MintsKept(s, step);
      MintFrame(s, Do(s, step));
    }
  }

  // ---------------------------------------------------------------------------------------------
  // One active case per tenancy, and capped links
  // ---------------------------------------------------------------------------------------------

  ghost predicate ActiveInv(s: State) {
    forall c, d | 0 <= c < d < |s.cases| && s.cases[c].tenancy == s.cases[d].tenancy ::
      Terminal(s.cases[c].status) || Terminal(s.cases[d].status)
  }

  ghost predicate ActivityKept(a: RenewalCase, b: RenewalCase) {
    b.tenancy == a.tenancy && (Terminal(a.status) ==> Terminal(b.status))
  }

  /** At most case c changes its standing, and only where the index allows it. */
  lemma ActiveFrame(s: State, s': State, c: nat)
    requires ActiveInv(s) && |s'.cases| == |s.cases|
    requires c < |s.cases| ==> s'.cases[c].tenancy == s.cases[c].tenancy && MayBeActive(s, c)
    requires forall d | 0 <= d < |s.cases| && d != c :: ActivityKept(s.cases[d], s'.cases[d])
    ensures ActiveInv(s')
  {
    forall e, d | 0 <= e < d < |s'.cases| && s'.cases[e].tenancy == s'.cases[d].tenancy
      ensures Terminal(s'.cases[e].status) || Terminal(s'.cases[d].status)
    {
      if e != c { assert ActivityKept(s.cases[e], s'.cases[e]); }
      if d != c { assert ActivityKept(s.cases[d], s'.cases[d]); }
    }
  }

  lemma ServedActive(s: State, n: nat, input: ServiceInput)
    requires Refs(s) && ActiveInv(s) && n < |s.notices| && MayBeActive(s, s.notices[n].renewalCase)
    ensures ActiveInv(MarkServed(s, n, input))
  {
    ActiveFrame(s, MarkServed(s, n, input), s.notices[n].renewalCase);
  }

  lemma ActiveStep(s: State, step: Step)
    requires Refs(s) && ActiveInv(s) && Enabled(s, step)
    ensures ActiveInv(Do(s, step))
  {
    match step
    case PointAt(c, _) => ActiveFrame(s, Do(s, step), c);
    case AcceptTx(o) => ActiveFrame(s, Do(s, step), s.offers[o].renewalCase);
    case ServeNotice(n, input) =>
      if input.HasEvidence() { ServedActive(s, n, input); } else { ActiveFrame(s, Do(s, step), |s.cases|); }
    case ConfirmService(n, input) => ServedActive(s, n, input);
    case OpenCase(t) =>
    case MintTx(_, _, _, _, _) => ActiveFrame(s, Do(s, step), |s.cases|);
    case _ =>
      CasesUntouched(s, step);
      ActiveFrame(s, Do(s, step), |s.cases|);
  }

  ghost predicate LinkInv(s: State) {
    && (forall l: nat | l >= |s.links| :: s.owed[l] == 0 && s.responses[l] == 0)
    && (forall l | 0 <= l < |s.links| :: LinkAccounted(s, l))
  }

  /** Responses recorded or still owed through a link are covered by its uses, and the uses by its cap. */
  ghost predicate LinkAccounted(s: State, l: nat)
    requires l < |s.links|
  {
    && s.owed[l] + s.responses[l] <= s.links[l].useCount
    && (s.links[l].maxUses.Some? ==> s.links[l].useCount <= s.links[l].maxUses.value)
  }

  /** Steps that leave the accounts of links alone; new links start unused. */
  lemma LinkFrame(s: State, s': State)
    requires LinkInv(s) && s'.owed == s.owed && s'.responses == s.responses && |s.links| <= |s'.links|
    requires forall l | 0 <= l < |s.links| ::
               s'.links[l].useCount == s.links[l].useCount && s'.links[l].maxUses == s.links[l].maxUses
    requires forall l | |s.links| <= l < |s'.links| :: s'.links[l].useCount == 0
    ensures LinkInv(s')
  {
    forall l | 0 <= l < |s'.links| ensures LinkAccounted(s', l) {
      if l < |s.links| { assert LinkAccounted(s, l); }
    }
  }

  predicate UsesLink(step: Step) {
    step.ConsumeLink? || step.ApplyResponse? || step.DropResponse?
  }

  lemma LinkUse(s: State, step: Step)
    requires LinkInv(s) && Enabled(s, step) && UsesLink(step)
    ensures LinkInv(Do(s, step))
  {
    var s' := Do(s, step);
    assert step.l < |s.links|;
    forall l | 0 <= l < |s'.links| ensures LinkAccounted(s', l) {
      assert LinkAccounted(s, l);
    }
  }

  lemma LinkStep(s: State, step: Step)
    requires LinkInv(s) && Enabled(s, step)
    ensures LinkInv(Do(s, step))
  {
    if UsesLink(step) { LinkUse(s, step); } else { LinkFrame(s, Do(s, step)); }
  }

  // ---------------------------------------------------------------------------------------------
  // Whole runs
  // ---------------------------------------------------------------------------------------------

  ghost predicate Inv(s: State) {
    Refs(s) && DecidedInv(s) && MintInv(s) && ActiveInv(s) && LinkInv(s)
  }

  lemma InvStep(s: State, step: Step)
    requires Inv(s) && Enabled(s, step)
    ensures Inv(Do(s, step))
  {
    RefsStep(s, step);
    DecidedStep(s, step);
    MintInvStep(s, step);
    ActiveStep(s, step);
    LinkStep(s, step);
  }

  lemma {:induction false} InvRun(s: State, steps: seq<Step>, s': State)
    requires Inv(s) && Run(s, steps, s')
    ensures Inv(s')
    decreases |steps|
  {
    if steps == [] {
    } else {
      InvStep(s, steps[0]);
      InvRun(Do(s, steps[0]), steps[1..], s');
    }
  }

  /** What is decided stays decided: the decided offer, the accepted offers, the successor and every offer's terms. */
  ghost predicate Forever(s: State, s': State) {
    && |s.cases| <= |s'.cases| && |s.offers| <= |s'.offers|
    && (forall c | 0 <= c < |s.cases| ::
          && (s.cases[c].decidedOffer.Some? ==> s'.cases[c].decidedOffer == s.cases[c].decidedOffer)
          && (s.cases[c].renewedTenancy.Some? ==> s'.cases[c].renewedTenancy == s.cases[c].renewedTenancy)
          && s'.cases[c].tenancy == s.cases[c].tenancy)
    && (forall o | 0 <= o < |s.offers| :: OfferKept(s.offers[o], s'.offers[o]))
  }

  lemma ForeverStep(s: State, step: Step)
    requires Inv(s) && Enabled(s, step)
    ensures Forever(s, Do(s, step))
  {
    OffersKept(s, step);
    if step.AcceptTx? { DecidedAccept(s, step.o); } else { DecisionsKept(s, step); }
    if !step.MintTx? { MintsKept(s, step); }
    var s' := Do(s, step);
    forall c | 0 <= c < |s.cases|
      ensures s.cases[c].decidedOffer.Some? ==> s'.cases[c].decidedOffer == s.cases[c].decidedOffer
      ensures s.cases[c].renewedTenancy.Some? ==> s'.cases[c].renewedTenancy == s.cases[c].renewedTenancy
      ensures s'.cases[c].tenancy == s.cases[c].tenancy
    {
      if !step.AcceptTx? { assert DecisionKept(s.cases[c], s'.cases[c]); }
      if !step.MintTx? { assert MintKept(s.cases[c], s'.cases[c]); }
    }
  }

  lemma ForeverTrans(s: State, mid: State, s': State)
    requires Forever(s, mid) && Forever(mid, s')
    ensures Forever(s, s')
  {
    forall o | 0 <= o < |s.offers| ensures OfferKept(s.offers[o], s'.offers[o]) {
      assert OfferKept(s.offers[o], mid.offers[o]) && OfferKept(mid.offers[o], s'.offers[o]);
    }
  }

  lemma {:induction false} ForeverRun(s: State, steps: seq<Step>, s': State)
    requires Inv(s) && Run(s, steps, s')
    ensures Forever(s, s')
    decreases |steps|
  {
    if steps == [] {
    } else {
      InvStep(s, steps[0]);
      ForeverStep(s, steps[0]);
      ForeverRun(Do(s, steps[0]), steps[1..], s');
      ForeverTrans(s, Do(s, steps[0]), s');
    }
  }

  lemma InvReachable(steps: seq<Step>, s: State)
    requires Run(EMPTY, steps, s)
    ensures Inv(s)
  {
    assert Inv(EMPTY);
    InvRun(EMPTY, steps, s);
  }

  lemma DecidedMeansAccepted(s: State)
    requires Refs(s) && DecidedInv(s)
    ensures forall o, p | 0 <= o < |s.offers| && 0 <= p < |s.offers| && s.offers[o].status == ACCEPTED
      && s.offers[p].status == ACCEPTED
                          && s.offers[o].renewalCase == s.offers[p].renewalCase :: o == p
    ensures forall c | 0 <= c < |s.cases| :: s.cases[c].decidedOffer.Some? <==> AcceptedOn(s, c)
    ensures forall c | 0 <= c < |s.cases| && s.cases[c].status in {AGREED, RENEWED} :: AcceptedOn(s, c)
  {}

  /**
   In every interleaving, from empty tables: a case has at most one accepted offer and that is its
   decided offer; an agreed or renewed case is decided; the first decision, the first successor and
   the terms of every offer are final; a link never records more responses than its cap.
   */
  lemma OneDecisionPerCase(steps: seq<Step>, s: State, more: seq<Step>, s': State)
    requires Run(EMPTY, steps, s) && Run(s, more, s')
    ensures forall o, p | 0 <= o < |s.offers| && 0 <= p < |s.offers| && s.offers[o].status == ACCEPTED
      && s.offers[p].status == ACCEPTED
                          && s.offers[o].renewalCase == s.offers[p].renewalCase :: o == p
    ensures forall c | 0 <= c < |s.cases| :: s.cases[c].decidedOffer.Some? <==> AcceptedOn(s, c)
    ensures forall c | 0 <= c < |s.cases| && s.cases[c].status in {AGREED, RENEWED} :: AcceptedOn(s, c)
    ensures Forever(s, s')
    ensures forall l | 0 <= l < |s.links| && s.links[l].maxUses.Some? :: s.responses[l] <= s.links[l].maxUses.value
  {
    InvReachable(steps, s);
    DecidedMeansAccepted(s);
    ForeverRun(s, more, s');
    forall l | 0 <= l < |s.links| && s.links[l].maxUses.Some? ensures s.responses[l] <= s.links[l].maxUses.value {
      assert LinkAccounted(s, l);
    }
  }

  // ---------------------------------------------------------------------------------------------
  // Renewal chains
  // ---------------------------------------------------------------------------------------------

  /** The tenancy k renewals before t. */
  function Ancestor(s: State, t: nat, k: nat): Option<nat>
    decreases k
  {
    if t >= |s.tenancies| then None
    else if k == 0 then Some(t)
    else if s.tenancies[t].renewsFrom.None? then None
    else Ancestor(s, s.tenancies[t].renewsFrom.value, k - 1)
  }

  lemma {:induction false} AncestorsAreOlder(s: State, t: nat, k: nat)
    requires MintInv(s) && Ancestor(s, t, k).Some?
    ensures Ancestor(s, t, k).value + k <= t
    decreases k
  {
    if k == 0 {
    } else {
      AncestorsAreOlder(s, s.tenancies[t].renewsFrom.value, k - 1);
    }
  }

  lemma {:induction false} AncestorSplit(s: State, t: nat, j: nat, k: nat)
    requires Ancestor(s, t, j + k).Some?
    ensures Ancestor(s, t, j).Some? && Ancestor(s, Ancestor(s, t, j).value, k) == Ancestor(s, t, j + k)
    decreases j
  {
    if j == 0 {
    } else {
      AncestorSplit(s, s.tenancies[t].renewsFrom.value, j - 1, k);
    }
  }

  /** Two tenancies equally far from a common origin are the same tenancy. */
  lemma {:induction false} EqualDepthIsEqual(s: State, t: nat, u: nat, k: nat)
    requires MintInv(s) && Ancestor(s, t, k).Some? && Ancestor(s, t, k) == Ancestor(s, u, k)
    ensures t == u
    decreases k
  {
    if k == 0 {
    } else {
      var p, q := s.tenancies[t].renewsFrom.value, s.tenancies[u].renewsFrom.value;
      EqualDepthIsEqual(s, p, q, k - 1);
      assert s.tenancies[t].renewsFrom == s.tenancies[u].renewsFrom;
    }
  }

  /** Of two tenancies with a common origin, the one nearer to it is an ancestor of the other. */
  lemma ChainsAreLinear(s: State, t: nat, u: nat, j: nat, k: nat)
    requires MintInv(s)
    requires Ancestor(s, t, j).Some? && Ancestor(s, t, j) == Ancestor(s, u, k) && j <= k
    ensures Ancestor(s, u, k - j) == Some(t)
    ensures t == u ==> j == k
  {
    AncestorSplit(s, u, k - j, j);
    EqualDepthIsEqual(s, t, Ancestor(s, u, k - j).value, j);
    AncestorsAreOlder(s, u, k - j);
  }

  lemma NoTenancyRenewedTwice(s: State, t: nat, u: nat)
    requires MintInv(s) && t < |s.tenancies| && u < |s.tenancies|
    requires s.tenancies[t].renewsFrom.Some? && s.tenancies[t].renewsFrom == s.tenancies[u].renewsFrom
    ensures t == u
  {}

  /**
   Renewals form disjoint linear chains: no tenancy is its own ancestor, no two tenancies renew the
   same one, and of two tenancies with a common origin one is an ancestor of the other.
   */
  lemma RenewalsFormChains(steps: seq<Step>, s: State, t: nat, u: nat, j: nat, k: nat)
    requires Run(EMPTY, steps, s) && j <= k
    requires Ancestor(s, t, j).Some? && Ancestor(s, t, j) == Ancestor(s, u, k)
    ensures Ancestor(s, u, k - j) == Some(t)
    ensures t == u ==> j == k
    ensures s.tenancies[t].renewsFrom.Some? && s.tenancies[t].renewsFrom == s.tenancies[u].renewsFrom ==> t == u
  {
    InvReachable(steps, s);
    ChainsAreLinear(s, t, u, j, k);
    if s.tenancies[t].renewsFrom.Some? && s.tenancies[t].renewsFrom == s.tenancies[u].renewsFrom {
      NoTenancyRenewedTwice(s, t, u);
    }
  }

  // ---------------------------------------------------------------------------------------------
  // Decided cases that can no longer be completed
  // ---------------------------------------------------------------------------------------------

  /** Decided, not minted, and no longer AGREED: a proposal, a counter or a served notice came after the acceptance. */
  ghost predicate Stranded(s: State, c: nat) {
    && c < |s.cases|
    && s.cases[c].decidedOffer.Some? && s.cases[c].renewedTenancy.None? && s.cases[c].status != AGREED
  }

  /** No interleaving ever brings such a case back to AGREED, so its successor is never minted. */
  lemma {:induction false} StrandedForever(s: State, c: nat, steps: seq<Step>, s': State)
    requires Inv(s) && Stranded(s, c) && Run(s, steps, s')
    ensures Stranded(s', c)
    decreases |steps|
  {
    if steps == [] {
    } else {
      var step, mid := steps[0], Do(s, steps[0]);
      InvStep(s, step);
      ForeverStep(s, step);
      assert AcceptedOn(s, c);
      if step.AcceptTx? {
        assert s.offers[step.o].renewalCase != c;
      } else {
        DecisionsKept(s, step);
        assert DecisionKept(s.cases[c], mid.cases[c]);
      }
      if !step.MintTx? { MintsKept(s, step); assert MintKept(s.cases[c], mid.cases[c]); }
      StrandedForever(mid, c, steps[1..], s');
    }
  }
}
