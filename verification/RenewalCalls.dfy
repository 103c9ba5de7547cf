/**
 The renewal service calls, each one run of renewal steps taken without interruption. A call either
 replies with the row it concerns or refuses; a refusal late in a call leaves the earlier statements
 of that call in place, as the source does.
 */
module RenewalCalls {
  import opened Common
  import opened Dates
  import opened Renewals
  import Rent

  /** Refusals by status code, and Uncaught for an error nothing translates. */
  datatype Refusal = NotFound | Conflict | Gone | Unprocessable | Uncaught

  datatype Outcome = Outcome(state: State, reply: Result<nat, Refusal>)

  datatype Response = Accept | Counter(annualRent: int, schedule: Option<string>) | Ask

  datatype MintInput = MintInput(startMs: int, endMs: int, annualRent: int, noticePeriodDays: Option<int>)

  datatype CaptureInput = CaptureInput(market: int, claimsOfficial: bool, hasArtefact: bool, capturedAt: int)

  datatype Call =
    | RegisterTenancy(startDay: int, endDay: int, annualRent: int, noticePeriodDays: int)
    | OpenRenewalCase(t: nat)
    | CaptureRentIndex(t: nat, capture: CaptureInput)
    | ProposeOffer(c: nat, party: Party, annualRent: int)
    | AcceptOffer(o: nat)
    | SendOfferToTenant(o: nat, now: int)
    | RevokeSecureLink(l: nat)
    | RespondAsTenant(o: nat, response: Response)
    | RespondViaLink(l: nat, now: int, response: Response)
    | MintRenewedTenancy(c: nat, input: MintInput)
    | PrepareRenewalNotice(c: nat, docId: Option<string>)
    | ApproveRenewalNotice(n: nat)
    | ServeNoticeFormal(n: nat, service: ServiceInput)
    | ConfirmNoticeService(n: nat, service: ServiceInput)
    | ServeRenewalNotice(c: nat, service: ServiceInput)
    | SetStatus(t: nat, status: TenancyStatus)
    | Archive(t: nat, now: int)

  const TENANT_LINK_USES: nat := 5
  const LINK_TTL_DAYS := 14

  // ---------------------------------------------------------------------------------------------
  // Reads
  // ---------------------------------------------------------------------------------------------

  function ActiveCaseFrom(cases: seq<RenewalCase>, t: nat, from: nat): (r: Option<nat>)
    requires from <= |cases|
    ensures r.Some? ==> from <= r.value < |cases| && cases[r.value].tenancy == t && !Terminal(cases[r.value].status)
    ensures r.None? ==> forall c | from <= c < |cases| :: !(cases[c].tenancy == t && !Terminal(cases[c].status))
    decreases |cases| - from
  {
    if from == |cases| then None
    else if cases[from].tenancy == t && !Terminal(cases[from].status) then Some(from)
    else ActiveCaseFrom(cases, t, from + 1)
  }

  /** The offer of a case with the highest version. */
  function NewestOffer(offers: seq<Offer>, c: nat): (r: Option<nat>)
    ensures r.Some? ==>
              && r.value < |offers| && offers[r.value].renewalCase == c
              && forall o | 0 <= o < |offers| && offers[o].renewalCase == c ::
                offers[o].version <= offers[r.value].version
    ensures r.None? <==> forall o | 0 <= o < |offers| :: offers[o].renewalCase != c
    decreases |offers|
  {
    if offers == [] then None
    else
      var last := |offers| - 1;
      var rest := NewestOffer(offers[..last], c);
      if offers[last].renewalCase == c && (rest.None? || offers[rest.value].version <= offers[last].version) then
        Some(last)
      else rest
  }

  function NextVersion(offers: seq<Offer>, c: nat): (v: nat)
    ensures v >= 1
    ensures forall o | 0 <= o < |offers| && offers[o].renewalCase == c :: offers[o].version < v
  {
    var newest := NewestOffer(offers, c);
    if newest.None? then 1 else offers[newest.value].version + 1
  }

  predicate CaptureCounts(k: Capture, t: nat, withCeiling: bool) {
    k.tenancy == t && (withCeiling ==> k.permittedMax.Some?)
  }

  /** The capture of a tenancy with the latest capture time; the later row wins a tie. */
  function LatestCapture(captures: seq<Capture>, t: nat, withCeiling: bool): (r: Option<nat>)
    ensures r.Some? ==>
              && r.value < |captures| && CaptureCounts(captures[r.value], t, withCeiling)
              && forall k | 0 <= k < |captures| && CaptureCounts(captures[k], t, withCeiling) ::
                   captures[k].capturedAt <= captures[r.value].capturedAt
    ensures r.None? <==> forall k | 0 <= k < |captures| :: !CaptureCounts(captures[k], t, withCeiling)
    decreases |captures|
  {
    if captures == [] then None
    else
      var last := |captures| - 1;
      var rest := LatestCapture(captures[..last], t, withCeiling);
      if CaptureCounts(captures[last], t, withCeiling)
        && (rest.None? || captures[rest.value].capturedAt <= captures[last].capturedAt)
      then Some(last) else rest
  }

  /** The ceiling an offer is measured against: the capture linked to the case, else the latest with a ceiling. */
  function CeilingNow(s: State, c: nat): Option<int>
    requires c < |s.cases|
  {
    var linked := s.cases[c].indexCapture;
    if linked.Some? && linked.value < |s.captures| then s.captures[linked.value].permittedMax
    else
      var latest := LatestCapture(s.captures, s.cases[c].tenancy, true);
      if latest.None? then None else s.captures[latest.value].permittedMax
  }

  // ---------------------------------------------------------------------------------------------
  // Calls
  // ---------------------------------------------------------------------------------------------

  function Refuse(s: State, why: Refusal): Outcome {
    Outcome(s, Err(why))
  }

  function OpenCaseCall(s: State, t: nat): Outcome {
    if t >= |s.tenancies| then Refuse(s, NotFound)
    else
      var existing := ActiveCaseFrom(s.cases, t, 0);
      if existing.Some? then Outcome(s, Ok(existing.value))
      else if NoticeGate(s.tenancies[t].endDay, s.tenancies[t].noticePeriodDays).Err? then Refuse(s, Uncaught)
      else Outcome(Do(s, OpenCase(t)), Ok(|s.cases|))
  }

  function CaptureCall(s: State, t: nat, k: CaptureInput): Outcome {
    if k.market <= 0 then Refuse(s, Unprocessable)
    else if t >= |s.tenancies| then Refuse(s, NotFound)
    else if k.claimsOfficial && !k.hasArtefact then Refuse(s, Unprocessable)
    else
      var position := Rent.Decree43(s.tenancies[t].annualRent, k.market);
      if position.Err? then Refuse(s, Uncaught)
      else
        Outcome(Do(s,
          AddCapture(Capture(t, Some(position.value.ceiling), k.claimsOfficial && k.hasArtefact, k.capturedAt))),
                Ok(|s.captures|))
  }

  function TryMove(s: State, t: nat, status: TenancyStatus): State {
    if t < |s.tenancies| && status in AllowedStatus(s.tenancies[t].status) then Do(s, MoveTenancy(t, status)) else s
  }

  /** Supersede the open offers of the case and insert the next version. */
  function Tabled(s: State, c: nat, party: Party, annualRent: int): State
    requires c < |s.cases|
  {
    var s1 := Do(s, SupersedeOpen(c));
    Do(s1, InsertOffer(c, NextVersion(s1.offers, c), party, annualRent, CeilingNow(s1, c)))
  }

  /** Table an offer and point the case at it; the active-case index may refuse that last write. */
  function PutOnTable(s: State, c: nat, party: Party, annualRent: int): Outcome
    requires c < |s.cases|
  {
    var s2 := Tabled(s, c, party, annualRent);
    if MayBeActive(s2, c) then Outcome(Do(s2, PointAt(c, |s.offers|)), Ok(|s.offers|)) else Refuse(s2, Uncaught)
  }

  function ProposeCall(s: State, c: nat, party: Party, annualRent: int): Outcome {
    if annualRent <= 0 then Refuse(s, Unprocessable)
    else if c >= |s.cases| then Refuse(s, NotFound)
    else
      var out := PutOnTable(s, c, party, annualRent);
      if out.reply.Err? then out else Outcome(TryMove(out.state, s.cases[c].tenancy, T_NEGOTIATING), out.reply)
  }

  /** The accepting transaction: a closed offer, a case already decided and a refusing index all answer 409. */
  function AcceptTransaction(s: State, o: nat): Outcome
    requires o < |s.offers| && s.offers[o].renewalCase < |s.cases|
  {
    if Enabled(s, AcceptTx(o)) then Outcome(Do(s, AcceptTx(o)), Ok(o)) else Refuse(s, Conflict)
  }

  function AcceptCall(s: State, o: nat): Outcome {
    if o >= |s.offers| || s.offers[o].renewalCase >= |s.cases| then Refuse(s, NotFound)
    else
      var out := AcceptTransaction(s, o);
      if out.reply.Err? then out
      else Outcome(TryMove(out.state, s.cases[s.offers[o].renewalCase].tenancy, T_RENEWED), out.reply)
  }

  predicate RenewFrom(status: TenancyStatus) {
    status == T_RENEWAL_DUE || status == T_NOTICE_SERVED || status == T_NEGOTIATING
  }

  predicate ValidCounter(response: Response) {
    response.Counter? && response.annualRent > 0 && Truthy(response.schedule)
  }

  /** A tenant's response. A counter does not look at the status of the offer it answers. */
  function ApplyTenantResponse(s: State, o: nat, response: Response): (out: Outcome)
    requires o < |s.offers| && s.offers[o].renewalCase < |s.cases|
    ensures out.state.owed == s.owed
  {
    var c := s.offers[o].renewalCase;
    match response
    case Counter(annualRent, _) =>
      if !ValidCounter(response) then Refuse(s, Unprocessable) else PutOnTable(s, c, TENANT, annualRent)
    case Accept =>
      var out := AcceptTransaction(s, o);
      var t := s.cases[c].tenancy;
      if out.reply.Ok? && t < |s.tenancies| && RenewFrom(s.tenancies[t].status)
      then Outcome(SetTenancyStatus(out.state, t, T_RENEWED), out.reply) else out
    case Ask => Outcome(s, Ok(o))
  }

  function RespondAsTenantCall(s: State, o: nat, response: Response): Outcome {
    if o >= |s.offers| || s.offers[o].renewalCase >= |s.cases| then Refuse(s, NotFound)
    else ApplyTenantResponse(s, o, response)
  }

  /** The use is consumed before the response is applied, and is not given back when that fails. */
  function RespondViaLinkCall(s: State, l: nat, now: int, response: Response): Outcome {
    if l >= |s.links| || s.links[l].offer >= |s.offers| || s.offers[s.links[l].offer].renewalCase >= |s.cases| then
      Refuse(s, NotFound)
    else if !s.links[l].Usable(now) then Refuse(s, Gone)
    else
      var out := ApplyTenantResponse(Do(s, ConsumeLink(l, now)), s.links[l].offer, response);
      Outcome(SettleUse(out.state, l, out.reply.Ok?), out.reply)
  }

  function SettleUse(s: State, l: nat, applied: bool): State
    requires s.owed[l] > 0
  {
    s.(owed := s.owed - multiset{l}, responses := if applied then s.responses + multiset{l} else s.responses)
  }

  /** The notice period of a successor: the one asked for, else the predecessor's. */
  function SuccessorNotice(s: State, c: nat, input: MintInput): int
    requires c < |s.cases| && s.cases[c].tenancy < |s.tenancies|
  {
    if input.noticePeriodDays.Some? then input.noticePeriodDays.value
    else s.tenancies[s.cases[c].tenancy].noticePeriodDays
  }

  /** The checks and the transaction of a completion. */
  function MintTransaction(s: State, c: nat, input: MintInput): Outcome {
    if c >= |s.cases| then Refuse(s, NotFound)
    else if s.cases[c].status != AGREED then Refuse(s, Unprocessable)
    else if s.cases[c].renewedTenancy.Some? then Refuse(s, Conflict)
    else if input.annualRent <= 0 || input.endMs <= input.startMs then Refuse(s, Unprocessable)
    else if s.cases[c].tenancy >= |s.tenancies| then Refuse(s, NotFound)
    else if HasSuccessor(s, s.cases[c].tenancy) then Refuse(s, Uncaught)
    else
      var notice := SuccessorNotice(s, c, input);
      Outcome(Do(s, MintTx(c, DayOf(input.startMs), DayOf(input.endMs), input.annualRent, notice)), Ok(|s.tenancies|))
  }

  /** The derivations after the transaction throw on a notice period that is not positive; the mint stands. */
  function MintCall(s: State, c: nat, input: MintInput): Outcome {
    var minted := MintTransaction(s, c, input);
    if minted.reply.Ok? && SuccessorNotice(s, c, input) <= 0 then Outcome(minted.state, Err(Uncaught)) else minted
  }

  function PrepareCall(s: State, c: nat, docId: Option<string>): Outcome {
    if c >= |s.cases| then Refuse(s, NotFound) else Outcome(Do(s, PrepareNotice(c, docId)), Ok(|s.notices|))
  }

  function ApproveCall(s: State, n: nat): Outcome {
    if n >= |s.notices| then Refuse(s, NotFound)
    else if s.notices[n].status != GENERATED then Refuse(s, Unprocessable)
    else Outcome(Do(s, ApproveNotice(n)), Ok(n))
  }

  function ServeCall(s: State, n: nat, input: ServiceInput): Outcome {
    if n >= |s.notices| || s.notices[n].renewalCase >= |s.cases| then Refuse(s, NotFound)
    else if s.notices[n].status != APPROVED then Refuse(s, Unprocessable)
    else if Enabled(s, ServeNotice(n, input)) then Outcome(Do(s, ServeNotice(n, input)), Ok(n))
    else Refuse(s, Uncaught)
  }

  function ConfirmCall(s: State, n: nat, input: ServiceInput): Outcome {
    if n >= |s.notices| || s.notices[n].renewalCase >= |s.cases| then Refuse(s, NotFound)
    else if s.notices[n].status != SERVICE_RECORDED_PENDING_EVIDENCE then Refuse(s, Unprocessable)
    else if !input.HasEvidence() then Refuse(s, Unprocessable)
    else if Enabled(s, ConfirmService(n, input)) then Outcome(Do(s, ConfirmService(n, input)), Ok(n))
    else Refuse(s, Uncaught)
  }

  /** A notice drafted and approved in one go. */
  function ReadyToServe(s: State, c: nat, docId: Option<string>): State
    requires c < |s.cases|
  {
    Do(Do(s, PrepareNotice(c, docId)), ApproveNotice(|s.notices|))
  }

  /** Prepare, approve and serve: a fresh notice is always there to approve, so only the last part can refuse. */
  function ServeRenewalCall(s: State, c: nat, input: ServiceInput): Outcome {
    if c >= |s.cases| then Refuse(s, NotFound) else ServeCall(ReadyToServe(s, c, input.docId), |s.notices|, input)
  }

  function Perform(s: State, call: Call): Outcome {
    match call
    case RegisterTenancy(startDay, endDay, annualRent, noticePeriodDays) =>
      // Here too the row stands when its derivations throw.
      Outcome(Do(s, AddTenancy(Tenancy(T_ACTIVE, startDay, endDay, annualRent, noticePeriodDays, None, None))),
        if noticePeriodDays > 0 then Ok(|s.tenancies|) else Err(Uncaught))
    case OpenRenewalCase(t) => OpenCaseCall(s, t)
    case CaptureRentIndex(t, capture) => CaptureCall(s, t, capture)
    case ProposeOffer(c, party, annualRent) => ProposeCall(s, c, party, annualRent)
    case AcceptOffer(o) => AcceptCall(s, o)
    case SendOfferToTenant(o, now) =>
      if o >= |s.offers| then Refuse(s, NotFound)
      else Outcome(Do(s, IssueLink(o, Some(TENANT_LINK_USES), now + LINK_TTL_DAYS * DAY_MS)), Ok(|s.links|))
    case RevokeSecureLink(l) => if l >= |s.links| then Refuse(s, NotFound) else Outcome(Do(s, RevokeLink(l)), Ok(l))
    case RespondAsTenant(o, response) => RespondAsTenantCall(s, o, response)
    case RespondViaLink(l, now, response) => RespondViaLinkCall(s, l, now, response)
    case MintRenewedTenancy(c, input) => MintCall(s, c, input)
    case PrepareRenewalNotice(c, docId) => PrepareCall(s, c, docId)
    case ApproveRenewalNotice(n) => ApproveCall(s, n)
    case ServeNoticeFormal(n, input) => ServeCall(s, n, input)
    case ConfirmNoticeService(n, input) => ConfirmCall(s, n, input)
    case ServeRenewalNotice(c, input) => ServeRenewalCall(s, c, input)
    case SetStatus(t, status) =>
      if t >= |s.tenancies| then Refuse(s, NotFound)
      else if status !in AllowedStatus(s.tenancies[t].status) then Refuse(s, Unprocessable)
      else Outcome(Do(s, MoveTenancy(t, status)), Ok(t))
    case Archive(t, now) =>
      if t >= |s.tenancies| then Refuse(s, NotFound) else Outcome(Do(s, ArchiveTenancy(t, now)), Ok(t))
  }

  // ---------------------------------------------------------------------------------------------
  // Links
  // ---------------------------------------------------------------------------------------------

  datatype LinkProblem = Revoked | Expired | Exhausted

  /** The friendly check a public page makes before it offers the action. */
  function ValidateLink(link: Link, now: int): Option<LinkProblem> {
    if link.revoked then Some(Revoked)
    else if link.expiresAt < now then Some(Expired)
    else if link.maxUses.Some? && link.useCount >= link.maxUses.value then Some(Exhausted)
    else None
  }

  /** The friendly check and the consuming guard disagree at one instant only, the one at which the link expires. */
  lemma ValidationAndConsumptionAgree(link: Link, now: int)
    ensures link.Usable(now) <==> ValidateLink(link, now).None? && now != link.expiresAt
    ensures ValidateLink(link, now).None? <==> link.Usable(now) || (now == link.expiresAt && link.Usable(now - 1))
    ensures ValidateLink(link, now) == Some(Revoked) <==> link.revoked
    ensures ValidateLink(link, now) == Some(Exhausted) <==>
              !link.revoked && now <= link.expiresAt && link.maxUses.Some? && link.maxUses.value <= link.useCount
  {}

  /** Over its lifetime a link only loses uses: its terms stay, its use count grows, a revocation is kept. */
  ghost predicate LinkWanes(a: Link, b: Link) {
    && b.offer == a.offer && b.maxUses == a.maxUses && b.expiresAt == a.expiresAt
    && a.useCount <= b.useCount && (a.revoked ==> b.revoked)
  }

  lemma {:induction false} LinksWane(s: State, steps: seq<Step>, s': State, l: nat)
    requires Run(s, steps, s') && l < |s.links|
    ensures l < |s'.links| && LinkWanes(s.links[l], s'.links[l])
    decreases |steps|
  {
    if steps == [] {
    } else {
      assert LinkWanes(s.links[l], Do(s, steps[0]).links[l]);
      LinksWane(Do(s, steps[0]), steps[1..], s', l);
    }
  }

  /** A link that is revoked, expired or used up stays unusable for good, whatever is done and however late. */
  lemma UnusableForever(s: State, steps: seq<Step>, s': State, l: nat, now: int, later: int)
    requires Run(s, steps, s') && l < |s.links| && !s.links[l].Usable(now) && now <= later
    ensures l < |s'.links| && !s'.links[l].Usable(later)
  {
    LinksWane(s, steps, s', l);
  }

  // ---------------------------------------------------------------------------------------------
  // Every call is a run of steps
  // ---------------------------------------------------------------------------------------------

  ghost predicate Leads(s: State, s': State) {
    exists steps :: Run(s, steps, s')
  }

  lemma LeadsRefl(s: State)
    ensures Leads(s, s)
  {
    assert Run(s, [], s);
  }

  lemma {:induction false} RunAppend(s: State, steps: seq<Step>, mid: State, more: seq<Step>, s': State)
    requires Run(s, steps, mid) && Run(mid, more, s')
    ensures Run(s, steps + more, s')
    decreases |steps|
  {
    if steps == [] {
      assert steps + more == more;
    } else {
      var all := steps + more;
      assert all[0] == steps[0] && all[1..] == steps[1..] + more;
      RunAppend(Do(s, steps[0]), steps[1..], mid, more, s');
    }
  }

  lemma LeadsTrans(s: State, mid: State, s': State)
    requires Leads(s, mid) && Leads(mid, s')
    ensures Leads(s, s')
  {
    var a :| Run(s, a, mid);
    var b :| Run(mid, b, s');
    RunAppend(s, a, mid, b, s');
  }

  lemma LeadsStep(s: State, step: Step)
    requires Enabled(s, step)
    ensures Leads(s, Do(s, step))
  {
    assert Run(Do(s, step), [step][1..], Do(s, step));
    assert Run(s, [step], Do(s, step));
  }

  lemma LeadsOn(s: State, mid: State, step: Step)
    requires Leads(s, mid) && Enabled(mid, step)
    ensures Leads(s, Do(mid, step))
  {
    LeadsStep(mid, step);
    LeadsTrans(s, mid, Do(mid, step));
  }

  lemma TryMoveLeads(s: State, mid: State, t: nat, status: TenancyStatus)
    requires Leads(s, mid)
    ensures Leads(s, TryMove(mid, t, status))
  {
    if t < |mid.tenancies| && status in AllowedStatus(mid.tenancies[t].status) {
      LeadsOn(s, mid, MoveTenancy(t, status));
    }
  }

  lemma PutOnTableLeads(s: State, c: nat, party: Party, annualRent: int)
    requires c < |s.cases|
    ensures Leads(s, PutOnTable(s, c, party, annualRent).state)
  {
    var s1 := Do(s, SupersedeOpen(c));
    var insert := InsertOffer(c, NextVersion(s1.offers, c), party, annualRent, CeilingNow(s1, c));
    LeadsStep(s, SupersedeOpen(c));
    LeadsOn(s, s1, insert);
    var s2 := Do(s1, insert);
    if MayBeActive(s2, c) { LeadsOn(s, s2, PointAt(c, |s.offers|)); }
  }

  /** The two ways to accept an offer end in the same state. */
  lemma AcceptPathsAgree(s: State, o: nat)
    requires o < |s.offers| && s.offers[o].renewalCase < |s.cases|
    ensures ApplyTenantResponse(s, o, Accept) == AcceptCall(s, o)
  {
    var t := s.cases[s.offers[o].renewalCase].tenancy;
    if t < |s.tenancies| {
      assert RenewFrom(s.tenancies[t].status) <==> T_RENEWED in AllowedStatus(s.tenancies[t].status);
    }
  }

  lemma AcceptLeads(s: State, o: nat)
    ensures Leads(s, AcceptCall(s, o).state)
  {
    LeadsRefl(s);
    if o < |s.offers| && s.offers[o].renewalCase < |s.cases| && Enabled(s, AcceptTx(o)) {
      LeadsStep(s, AcceptTx(o));
      TryMoveLeads(s, Do(s, AcceptTx(o)), s.cases[s.offers[o].renewalCase].tenancy, T_RENEWED);
    }
  }

  lemma ResponseLeads(s: State, o: nat, response: Response)
    requires o < |s.offers| && s.offers[o].renewalCase < |s.cases|
    ensures Leads(s, ApplyTenantResponse(s, o, response).state)
  {
    LeadsRefl(s);
    if response.Accept? {
      AcceptPathsAgree(s, o);
      AcceptLeads(s, o);
    } else if ValidCounter(response) {
      PutOnTableLeads(s, s.offers[o].renewalCase, TENANT, response.annualRent);
    }
  }

  lemma ViaLinkLeads(s: State, l: nat, now: int, response: Response)
    ensures Leads(s, RespondViaLinkCall(s, l, now, response).state)
  {
    LeadsRefl(s);
    if l < |s.links| && s.links[l].offer < |s.offers| && s.offers[s.links[l].offer].renewalCase < |s.cases|
      && s.links[l].Usable(now) {
      var s1 := Do(s, ConsumeLink(l, now));
      LeadsStep(s, ConsumeLink(l, now));
      ResponseLeads(s1, s.links[l].offer, response);
      var out := ApplyTenantResponse(s1, s.links[l].offer, response);
      LeadsTrans(s, s1, out.state);
      LeadsOn(s, out.state, if out.reply.Ok? then ApplyResponse(l) else DropResponse(l));
    }
  }

  lemma NoticeCallLeads(s: State, call: Call)
    requires call.PrepareRenewalNotice? || call.ApproveRenewalNotice? || call.ServeNoticeFormal?
      || call.ConfirmNoticeService?
    ensures Leads(s, Perform(s, call).state)
  {
    LeadsRefl(s);
    if Perform(s, call).reply.Ok? {
      match call
      case PrepareRenewalNotice(c, docId) => LeadsStep(s, PrepareNotice(c, docId));
      case ApproveRenewalNotice(n) => LeadsStep(s, ApproveNotice(n));
      case ServeNoticeFormal(n, input) => LeadsStep(s, ServeNotice(n, input));
      case ConfirmNoticeService(n, input) => LeadsStep(s, ConfirmService(n, input));
    }
  }

  lemma ReadyToServeLeads(s: State, c: nat, docId: Option<string>)
    requires c < |s.cases|
    ensures Leads(s, ReadyToServe(s, c, docId))
  {
    LeadsStep(s, PrepareNotice(c, docId));
    LeadsOn(s, Do(s, PrepareNotice(c, docId)), ApproveNotice(|s.notices|));
  }

  lemma ServeRenewalLeads(s: State, c: nat, input: ServiceInput)
    ensures Leads(s, ServeRenewalCall(s, c, input).state)
  {
    LeadsRefl(s);
    if c < |s.cases| {
      var ready := ReadyToServe(s, c, input.docId);
      ReadyToServeLeads(s, c, input.docId);
      NoticeCallLeads(ready, ServeNoticeFormal(|s.notices|, input));
      LeadsTrans(s, ready, ServeCall(ready, |s.notices|, input).state);
    }
  }

  /** Whatever a call replies, it got there by enabled steps: all the invariants over runs hold between calls too. */
  lemma CallIsARun(s: State, call: Call)
    ensures Leads(s, Perform(s, call).state)
  {
    LeadsRefl(s);
    match call
    case ProposeOffer(c, party, annualRent) =>
      if annualRent > 0 && c < |s.cases| {
        PutOnTableLeads(s, c, party, annualRent);
        TryMoveLeads(s, PutOnTable(s, c, party, annualRent).state, s.cases[c].tenancy, T_NEGOTIATING);
      }
    case AcceptOffer(o) => AcceptLeads(s, o);
    case RespondAsTenant(o, response) =>
      if o < |s.offers| && s.offers[o].renewalCase < |s.cases| { ResponseLeads(s, o, response); }
    case RespondViaLink(l, now, response) => ViaLinkLeads(s, l, now, response);
    case ServeRenewalNotice(c, input) => ServeRenewalLeads(s, c, input);
    case PrepareRenewalNotice(_, _) => NoticeCallLeads(s, call);
    case ApproveRenewalNotice(_) => NoticeCallLeads(s, call);
    case ServeNoticeFormal(_, _) => NoticeCallLeads(s, call);
    case ConfirmNoticeService(_, _) => NoticeCallLeads(s, call);
    case _ => OneStepCalls(s, call);
  }

  lemma OneStepCalls(s: State, call: Call)
    requires call.RegisterTenancy? || call.OpenRenewalCase? || call.CaptureRentIndex? || call.SendOfferToTenant?
             || call.RevokeSecureLink? || call.MintRenewedTenancy? || call.SetStatus? || call.Archive?
    ensures Leads(s, Perform(s, call).state)
  {
    LeadsRefl(s);
    if Perform(s, call).state != s {
      match call
      case RegisterTenancy(startDay, endDay, annualRent, noticePeriodDays) =>
        LeadsStep(s, AddTenancy(Tenancy(T_ACTIVE, startDay, endDay, annualRent, noticePeriodDays, None, None)));
      case OpenRenewalCase(t) => LeadsStep(s, OpenCase(t));
      case CaptureRentIndex(t, k) =>
        var ceiling := Rent.Decree43(s.tenancies[t].annualRent, k.market).value.ceiling;
        LeadsStep(s, AddCapture(Capture(t, Some(ceiling), k.claimsOfficial && k.hasArtefact, k.capturedAt)));
      case SendOfferToTenant(o, now) =>
        LeadsStep(s, IssueLink(o, Some(TENANT_LINK_USES), now + LINK_TTL_DAYS * DAY_MS));
      case RevokeSecureLink(l) => LeadsStep(s, RevokeLink(l));
      case MintRenewedTenancy(c, input) =>
        var notice := SuccessorNotice(s, c, input);
        LeadsStep(s, MintTx(c, DayOf(input.startMs), DayOf(input.endMs), input.annualRent, notice));
      case SetStatus(t, status) => LeadsStep(s, MoveTenancy(t, status));
      case Archive(t, now) => LeadsStep(s, ArchiveTenancy(t, now));
    }
  }

  ghost predicate CallRun(s: State, calls: seq<Call>, s': State)
    decreases |calls|
  {
    if calls == [] then s == s' else CallRun(Perform(s, calls[0]).state, calls[1..], s')
  }

  lemma {:induction false} CallsLead(s: State, calls: seq<Call>, s': State)
    requires CallRun(s, calls, s')
    ensures Leads(s, s')
    decreases |calls|
  {
    LeadsRefl(s);
    if calls == [] {
    } else {
      CallIsARun(s, calls[0]);
      CallsLead(Perform(s, calls[0]).state, calls[1..], s');
      LeadsTrans(s, Perform(s, calls[0]).state, s');
    }
  }

  lemma LeadsKeepsInv(s: State, s': State)
    requires Inv(s) && Leads(s, s')
    ensures Inv(s') && Forever(s, s')
  {
    var steps :| Run(s, steps, s');
    InvRun(s, steps, s');
    ForeverRun(s, steps, s');
  }

  /** So every invariant over steps holds after any sequence of calls. */
  lemma CallsKeepInvariants(calls: seq<Call>, s: State, more: seq<Call>, s': State)
    requires CallRun(EMPTY, calls, s) && CallRun(s, more, s')
    ensures Inv(s) && Inv(s') && Forever(s, s')
  {
    assert Inv(EMPTY);
    CallsLead(EMPTY, calls, s);
    LeadsKeepsInv(EMPTY, s);
    CallsLead(s, more, s');
    LeadsKeepsInv(s, s');
  }

  // ---------------------------------------------------------------------------------------------
  // What a link lets through
  // ---------------------------------------------------------------------------------------------

  /** The call answers through link l and gets somewhere: it is accepted, or an offer or a case changes. */
  predicate ActsThrough(s: State, call: Call, l: nat) {
    && call.RespondViaLink? && call.l == l
    && var out := Perform(s, call);
       out.reply.Ok? || out.state.offers != s.offers || out.state.cases != s.cases || out.state.tenancies != s.tenancies
  }

  function ActsCount(s: State, calls: seq<Call>, l: nat): nat
    decreases |calls|
  {
    if calls == [] then 0
    else (if ActsThrough(s, calls[0], l) then 1 else 0) + ActsCount(Perform(s, calls[0]).state, calls[1..], l)
  }

  lemma LeadsKeepsLink(s: State, s': State, l: nat)
    requires Leads(s, s') && l < |s.links|
    ensures l < |s'.links| && LinkWanes(s.links[l], s'.links[l])
  {
    var steps :| Run(s, steps, s');
    LinksWane(s, steps, s', l);
  }

  /** Whoever acts through a link has consumed a use of it, also when the response itself is refused later. */
  lemma ActingConsumes(s: State, call: Call, l: nat)
    requires l < |s.links| && ActsThrough(s, call, l)
    ensures l < |Perform(s, call).state.links| && Perform(s, call).state.links[l].useCount > s.links[l].useCount
  {
    var now, response := call.now, call.response;
    assert s.links[l].Usable(now);
    var s1 := Do(s, ConsumeLink(l, now));
    var out := ApplyTenantResponse(s1, s.links[l].offer, response);
    ResponseLeads(s1, s.links[l].offer, response);
    LeadsKeepsLink(s1, out.state, l);
  }

  lemma {:induction false} ActsAreUses(s: State, calls: seq<Call>, s': State, l: nat)
    requires CallRun(s, calls, s') && l < |s.links|
    ensures l < |s'.links| && s.links[l].useCount + ActsCount(s, calls, l) <= s'.links[l].useCount
    decreases |calls|
  {
    if calls == [] {
    } else {
      var mid := Perform(s, calls[0]).state;
      CallIsARun(s, calls[0]);
      LeadsKeepsLink(s, mid, l);
      if ActsThrough(s, calls[0], l) { ActingConsumes(s, calls[0], l); }
      ActsAreUses(mid, calls[1..], s', l);
    }
  }

  /**
   Over any sequence of calls, at most as many answers through a link leave a trace, an offer tabled or
   accepted, a question, or an offer left behind by a refused counter, as its cap allows.
   */
  lemma LinkActsAtMostItsCap(history: seq<Call>, s: State, calls: seq<Call>, s': State, l: nat)
    requires CallRun(EMPTY, history, s) && CallRun(s, calls, s') && l < |s.links| && s.links[l].maxUses.Some?
    ensures ActsCount(s, calls, l) <= s.links[l].maxUses.value
  {
    CallsKeepInvariants(history, s, calls, s');
    ActsAreUses(s, calls, s', l);
    CallsLead(s, calls, s');
    LeadsKeepsLink(s, s', l);
    assert LinkAccounted(s', l);
  }
}
