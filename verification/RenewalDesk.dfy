/**
 The renewal tables changed in place, call by call, against the calls as functions. Queries and bulk
 updates are loops over the rows; the unique indexes are checked where the database checks them.
 */
module RenewalDesk {
  import opened Common
  import opened Dates
  import opened Renewals
  import opened RenewalCalls
  import opened OfferBand
  import RenewalEffects
  import Rent
  import Risk

  /** What the risk rules read of a case does not depend on how links were used. */
  lemma FactsIgnoreUses(s: State, s': State, c: nat)
    requires c < |s.cases| && s'.cases == s.cases && s'.offers == s.offers && s'.captures == s.captures
    ensures FactsOfCase(s', c) == FactsOfCase(s, c)
  {}

  class Desk {
    var cases: seq<RenewalCase>
    var offers: seq<Offer>
    var tenancies: seq<Tenancy>
    var notices: seq<Notice>
    var links: seq<Link>
    var captures: seq<Capture>
    var noticeLog: seq<NoticeEvent>
    ghost var owed: multiset<nat>
    ghost var responses: multiset<nat>
    const risk: Risk.RiskDesk

    ghost function Tables(): State
      reads this
    {
      State(cases, offers, tenancies, notices, links, captures, noticeLog, owed, responses)
    }

    /** The flags are those of `was` after an evaluation of case c as it now stands. */
    ghost predicate Evaluated(was: Risk.Desk, c: nat, today: int)
      reads this, risk
    {
      c < |cases| && risk.State() == Risk.EvaluateCase(was, FactsOfCase(Tables(), c), today)
    }

    constructor (risk: Risk.RiskDesk)
      ensures Tables() == EMPTY && this.risk == risk
    {
      cases, offers, tenancies, notices, links, captures, noticeLog := [], [], [], [], [], [], [];
      owed, responses := multiset{}, multiset{};
      this.risk := risk;
    }

    // Queries

    method FindActiveCase(t: nat) returns (found: Option<nat>)
      ensures found == ActiveCaseFrom(cases, t, 0)
    {
      var i := 0;
      while i < |cases|
        invariant 0 <= i <= |cases|
        invariant ActiveCaseFrom(cases, t, 0) == ActiveCaseFrom(cases, t, i)
      {
        if cases[i].tenancy == t && !Terminal(cases[i].status) { return Some(i); }
        i := i + 1;
      }
      found := None;
    }

    method FindNewestOffer(c: nat) returns (newest: Option<nat>)
      ensures newest == NewestOffer(offers, c)
    {
      newest := None;
      var i := 0;
      while i < |offers|
        invariant 0 <= i <= |offers|
        invariant newest == NewestOffer(offers[..i], c)
      {
        assert offers[..i + 1][..i] == offers[..i];
        if offers[i].renewalCase == c && (newest.None? || offers[newest.value].version <= offers[i].version) {
          newest := Some(i);
        }
        i := i + 1;
      }
      assert offers[..i] == offers;
    }

    method FindNewestLive(c: nat) returns (newest: Option<nat>)
      ensures newest == NewestLive(offers, c)
    {
      newest := None;
      var i := 0;
      while i < |offers|
        invariant 0 <= i <= |offers|
        invariant newest == NewestLive(offers[..i], c)
      {
        assert offers[..i + 1][..i] == offers[..i];
        if offers[i].renewalCase == c && Live(offers[i])
          && (newest.None? || offers[newest.value].version <= offers[i].version) {
          newest := Some(i);
        }
        i := i + 1;
      }
      assert offers[..i] == offers;
    }

    method FindLatestCapture(t: nat, withCeiling: bool) returns (latest: Option<nat>)
      ensures latest == LatestCapture(captures, t, withCeiling)
    {
      latest := None;
      var i := 0;
      while i < |captures|
        invariant 0 <= i <= |captures|
        invariant latest == LatestCapture(captures[..i], t, withCeiling)
      {
        assert captures[..i + 1][..i] == captures[..i];
        if CaptureCounts(captures[i], t, withCeiling)
          && (latest.None? || captures[latest.value].capturedAt <= captures[i].capturedAt) {
          latest := Some(i);
        }
        i := i + 1;
      }
      assert captures[..i] == captures;
    }

    method ResolveCeiling(c: nat) returns (ceiling: Option<int>)
      requires c < |cases|
      ensures ceiling == CeilingNow(Tables(), c)
    {
      var linked := cases[c].indexCapture;
      if linked.Some? && linked.value < |captures| { return captures[linked.value].permittedMax; }
      var latest := FindLatestCapture(cases[c].tenancy, true);
      ceiling := if latest.None? then None else captures[latest.value].permittedMax;
    }

    // Unique indexes

    method MayTakeActiveStatus(c: nat) returns (allowed: bool)
      requires c < |cases|
      ensures allowed == MayBeActive(Tables(), c)
    {
      if !Terminal(cases[c].status) { return true; }
      var d := 0;
      while d < |cases|
        invariant 0 <= d <= |cases|
        invariant forall e | 0 <= e < d ::
                    !(e != c && cases[e].tenancy == cases[c].tenancy && !Terminal(cases[e].status))
      {
        if d != c && cases[d].tenancy == cases[c].tenancy && !Terminal(cases[d].status) {
          assert ActiveElsewhere(Tables(), c);
          return false;
        }
        d := d + 1;
      }
      allowed := true;
    }

    method AcceptedExists(c: nat) returns (found: bool)
      ensures found == AcceptedOn(Tables(), c)
    {
      var o := 0;
      while o < |offers|
        invariant 0 <= o <= |offers|
        invariant forall p | 0 <= p < o :: !(offers[p].renewalCase == c && offers[p].status == ACCEPTED)
      {
        if offers[o].renewalCase == c && offers[o].status == ACCEPTED { return true; }
        o := o + 1;
      }
      found := false;
    }

    method SuccessorExists(t: nat) returns (found: bool)
      ensures found == HasSuccessor(Tables(), t)
    {
      var u := 0;
      while u < |tenancies|
        invariant 0 <= u <= |tenancies|
        invariant forall v | 0 <= v < u :: tenancies[v].renewsFrom != Some(t)
      {
        if tenancies[u].renewsFrom == Some(t) { return true; }
        u := u + 1;
      }
      found := false;
    }

    // Writes shared by the calls

    method SupersedeOpenOffers(c: nat)
      modifies this`offers
      ensures offers == SupersedeAll(old(offers), c)
    {
      var i := 0;
      while i < |offers|
        invariant 0 <= i <= |offers| == |old(offers)|
        invariant offers == SupersedeAll(old(offers), c)[..i] + old(offers)[i..]
      {
        if offers[i].renewalCase == c && offers[i].IsOpen() { offers := offers[i := offers[i].(status := SUPERSEDED)]; }
        i := i + 1;
      }
    }

    method SetTenancyStatus(t: nat, status: TenancyStatus) returns (r: Result<nat, Refusal>)
      modifies this`tenancies
      ensures Outcome(Tables(), r) == Perform(old(Tables()), SetStatus(t, status))
    {
      if t >= |tenancies| { return Err(NotFound); }
      if status !in AllowedStatus(tenancies[t].status) { return Err(Unprocessable); }
      tenancies := tenancies[t := tenancies[t].(status := status)];
      r := Ok(t);
    }

    /** A move the table does not allow is passed over in silence. */
    method TryMoveTenancy(t: nat, status: TenancyStatus)
      modifies this`tenancies
      ensures Tables() == TryMove(old(Tables()), t, status)
    {
      var moved := SetTenancyStatus(t, status);
    }

    method ArchiveTenancy(t: nat, now: int) returns (r: Result<nat, Refusal>)
      modifies this`tenancies
      ensures Outcome(Tables(), r) == Perform(old(Tables()), Archive(t, now))
    {
      if t >= |tenancies| { return Err(NotFound); }
      tenancies := tenancies[t := tenancies[t].(status := T_ARCHIVED, archivedAt := Some(now))];
      r := Ok(t);
    }

    method EvaluateRenewalRisk(c: nat, today: int)
      requires c < |cases|
      modifies risk
      ensures Evaluated(old(risk.State()), c, today)
      ensures old(Risk.Faithful(risk.State())) ==> Risk.Faithful(risk.State())
    {
      var active := cases[c].currentOffer;
      if active.None? { active := FindNewestLive(c); }
      var row := if active.Some? && active.value < |offers| then Some(offers[active.value]) else None;
      var captureMax := None;
      if !(cases[c].indexCapture.Some? && cases[c].indexCapture.value >= |captures|) {
        captureMax := ResolveCeiling(c);
      }
      risk.EvaluateRenewalRisk(
        Risk.CaseFacts(c, false,
                       if row.Some? then Some(row.value.annualRent) else None,
                       if row.Some? then row.value.permittedMaxSnapshot else None,
                       captureMax, Some(cases[c].noticeGateDay), cases[c].noticeServedAt.Some?),
        today);
    }

    // Cases and captures

    method OpenRenewalCase(t: nat) returns (r: Result<nat, Refusal>)
      modifies this`cases
      ensures Outcome(Tables(), r) == OpenCaseCall(old(Tables()), t)
    {
      if t >= |tenancies| { return Err(NotFound); }
      var existing := FindActiveCase(t);
      if existing.Some? { return Ok(existing.value); }
      var gate := NoticeGate(tenancies[t].endDay, tenancies[t].noticePeriodDays);
      if gate.Err? { return Err(Uncaught); }
      r := Ok(|cases|);
      cases := cases + [RenewalCase(t, ASSESSING, gate.value, None, None, None, None, None)];
    }

    method CaptureRentIndex(t: nat, k: CaptureInput) returns (r: Result<nat, Refusal>)
      modifies this`captures
      ensures Outcome(Tables(), r) == CaptureCall(old(Tables()), t, k)
    {
      if k.market <= 0 { return Err(Unprocessable); }
      if t >= |tenancies| { return Err(NotFound); }
      if k.claimsOfficial && !k.hasArtefact { return Err(Unprocessable); }
      var position := Rent.Decree43(tenancies[t].annualRent, k.market);
      if position.Err? { return Err(Uncaught); }
      r := Ok(|captures|);
      captures := captures +
        [Capture(t, Some(position.value.ceiling), k.claimsOfficial && k.hasArtefact, k.capturedAt)];
    }

    // Offers

    method TableOffer(c: nat, party: Party, annualRent: int)
      requires c < |cases|
      modifies this`offers
      ensures Tables() == Tabled(old(Tables()), c, party, annualRent)
    {
      SupersedeOpenOffers(c);
      assert Tables() == Do(old(Tables()), SupersedeOpen(c));
      var last := FindNewestOffer(c);
      var version := if last.None? then 1 else offers[last.value].version + 1;
      var ceiling := ResolveCeiling(c);
      offers := offers + [OfferRow(c, version, party, annualRent, ceiling)];
    }

    method PutOffer(c: nat, party: Party, annualRent: int) returns (r: Result<nat, Refusal>)
      requires c < |cases|
      modifies this`offers, this`cases
      ensures Outcome(Tables(), r) == PutOnTable(old(Tables()), c, party, annualRent)
    {
      TableOffer(c, party, annualRent);
      var allowed := MayTakeActiveStatus(c);
      if !allowed { return Err(Uncaught); }
      r := Ok(|offers| - 1);
      cases := cases[c := cases[c].(status := NEGOTIATING, currentOffer := Some(|offers| - 1))];
    }

    method ProposeOffer(c: nat, party: Party, annualRent: int, today: int) returns (r: Result<nat, Refusal>)
      modifies this`offers, this`cases, this`tenancies, risk
      ensures Outcome(Tables(), r) == ProposeCall(old(Tables()), c, party, annualRent)
      ensures r.Err? ==> risk.State() == old(risk.State())
      ensures r.Ok? ==> Evaluated(old(risk.State()), c, today)
    {
      if annualRent <= 0 { return Err(Unprocessable); }
      if c >= |cases| { return Err(NotFound); }
      var t := cases[c].tenancy;
      r := PutOffer(c, party, annualRent);
      if r.Err? { return; }
      TryMoveTenancy(t, T_NEGOTIATING);
      EvaluateRenewalRisk(c, today);
    }

    /** Claim, supersede, decide; an index that refuses undoes all of it. */
    method AcceptInTransaction(o: nat) returns (r: Result<nat, Refusal>)
      requires o < |offers| && offers[o].renewalCase < |cases|
      modifies this`offers, this`cases
      ensures Outcome(Tables(), r) == AcceptTransaction(old(Tables()), o)
    {
      var before, c := offers, offers[o].renewalCase;
      if !offers[o].IsOpen() { return Err(Conflict); }
      var taken := AcceptedExists(c);
      if taken { return Err(Conflict); }
      offers := offers[o := offers[o].(status := ACCEPTED)];
      SupersedeOpenOffers(c);
      var allowed := MayTakeActiveStatus(c);
      assert allowed == MayBeActive(old(Tables()), c) by {
        assert cases == old(cases);
        assert ActiveElsewhere(Tables(), c) <==> ActiveElsewhere(old(Tables()), c);
      }
      if !allowed {
        offers := before;
        return Err(Conflict);
      }
      cases := cases[c := cases[c].(status := AGREED, decidedOffer := Some(o), currentOffer := Some(o))];
      r := Ok(o);
    }

    method AcceptOffer(o: nat, today: int) returns (r: Result<nat, Refusal>)
      modifies this`offers, this`cases, this`tenancies, risk
      ensures Outcome(Tables(), r) == AcceptCall(old(Tables()), o)
      ensures r.Err? ==> risk.State() == old(risk.State())
      ensures r.Ok? ==> Evaluated(old(risk.State()), old(offers[o].renewalCase), today)
    {
      if o >= |offers| || offers[o].renewalCase >= |cases| { return Err(NotFound); }
      var c := offers[o].renewalCase;
      r := AcceptInTransaction(o);
      if r.Err? { return; }
      TryMoveTenancy(cases[c].tenancy, T_RENEWED);
      EvaluateRenewalRisk(c, today);
    }

    /** The tenant's own acceptance moves the tenancy by an inline check instead of the transition table. */
    method AcceptForTenant(o: nat) returns (r: Result<nat, Refusal>)
      requires o < |offers| && offers[o].renewalCase < |cases|
      modifies this`offers, this`cases, this`tenancies
      ensures Outcome(Tables(), r) == ApplyTenantResponse(old(Tables()), o, Accept)
    {
      var c := offers[o].renewalCase;
      r := AcceptInTransaction(o);
      if r.Err? { return; }
      var t := cases[c].tenancy;
      if t < |tenancies| && RenewFrom(tenancies[t].status) {
        tenancies := tenancies[t := tenancies[t].(status := T_RENEWED)];
      }
    }

    method ApplyTenantOfferResponse(o: nat, response: Response, today: int) returns (r: Result<nat, Refusal>)
      requires o < |offers| && offers[o].renewalCase < |cases|
      modifies this`offers, this`cases, this`tenancies, risk
      ensures Outcome(Tables(), r) == ApplyTenantResponse(old(Tables()), o, response)
      ensures r.Err? ==> risk.State() == old(risk.State())
      ensures r.Ok? ==> Evaluated(old(risk.State()), old(offers[o].renewalCase), today)
    {
      var c := offers[o].renewalCase;
      match response {
        case Counter(annualRent, schedule) =>
          if annualRent <= 0 || !Truthy(schedule) { return Err(Unprocessable); }
          r := PutOffer(c, TENANT, annualRent);
          if r.Err? { return; }
        case Accept =>
          r := AcceptForTenant(o);
          if r.Err? { return; }
        case Ask =>
          r := Ok(o);
      }
      EvaluateRenewalRisk(c, today);
    }

    method RevokeSecureLink(l: nat) returns (r: Result<nat, Refusal>)
      modifies this`links
      ensures Outcome(Tables(), r) == Perform(old(Tables()), RenewalCalls.RevokeSecureLink(l))
    {
      if l >= |links| { return Err(NotFound); }
      links := links[l := links[l].(revoked := true)];
      r := Ok(l);
    }

    method ConsumeLinkUse(l: nat, now: int) returns (consumed: bool)
      requires l < |links|
      modifies this`links, this`owed
      ensures consumed == old(links[l].Usable(now))
      ensures !consumed ==> Tables() == old(Tables())
      ensures consumed ==> Tables() == Do(old(Tables()), ConsumeLink(l, now))
    {
      consumed := !links[l].revoked && links[l].expiresAt > now
        && (links[l].maxUses.None? || links[l].useCount < links[l].maxUses.value);
      if consumed {
        links := links[l := links[l].(useCount := links[l].useCount + 1)];
        owed := owed + multiset{l};
      }
    }

    ghost method SettleLinkUse(l: nat, applied: bool)
      requires owed[l] > 0
      modifies this`owed, this`responses
      ensures Tables() == SettleUse(old(Tables()), l, applied)
    {
      owed := owed - multiset{l};
      if applied { responses := responses + multiset{l}; }
    }

    /** The response and then the accounting of the use it was given. */
    method AnswerAndSettle(l: nat, o: nat, response: Response, today: int) returns (r: Result<nat, Refusal>)
      requires o < |offers| && offers[o].renewalCase < |cases| && owed[l] > 0
      modifies this, risk
      ensures var out := ApplyTenantResponse(old(Tables()), o, response);
              r == out.reply && Tables() == SettleUse(out.state, l, r.Ok?)
      ensures r.Err? ==> risk.State() == old(risk.State())
      ensures r.Ok? ==> Evaluated(old(risk.State()), old(offers[o].renewalCase), today)
    {
      r := ApplyTenantOfferResponse(o, response, today);
      ghost var answered := Tables();
      SettleLinkUse(l, r.Ok?);
      if r.Ok? { FactsIgnoreUses(answered, Tables(), old(offers[o].renewalCase)); }
    }

    method RespondToOfferViaLink(l: nat, now: int, response: Response, today: int) returns (r: Result<nat, Refusal>)
      modifies this, risk
      ensures Outcome(Tables(), r) == RespondViaLinkCall(old(Tables()), l, now, response)
      ensures r.Err? ==> risk.State() == old(risk.State())
      ensures r.Ok? ==> Evaluated(old(risk.State()), old(offers[links[l].offer].renewalCase), today)
    {
      if l >= |links| || links[l].offer >= |offers| || offers[links[l].offer].renewalCase >= |cases| {
        return Err(NotFound);
      }
      var o := links[l].offer;
      var consumed := ConsumeLinkUse(l, now);
      if !consumed { return Err(Gone); }
      r := AnswerAndSettle(l, o, response, today);
    }

    method SendOfferToTenant(o: nat, now: int) returns (r: Result<nat, Refusal>)
      modifies this`links
      ensures Outcome(Tables(), r) == Perform(old(Tables()), RenewalCalls.SendOfferToTenant(o, now))
    {
      if o >= |offers| { return Err(NotFound); }
      r := Ok(|links|);
      links := links + [Link(o, Some(TENANT_LINK_USES), 0, now + LINK_TTL_DAYS * DAY_MS, false)];
    }

    // Completion

    method MintRenewedTenancy(c: nat, input: MintInput) returns (r: Result<nat, Refusal>)
      modifies this`tenancies, this`cases
      ensures Outcome(Tables(), r) == MintTransaction(old(Tables()), c, input)
      ensures r.Ok? <==> RenewalEffects.Mintable(old(Tables()), c, input)
      ensures r.Ok? ==> r.value == |old(tenancies)| && RenewalEffects.Completed(old(Tables()), Tables(), c, input)
    {
      RenewalEffects.MintEffect(Tables(), c, input);
      if c >= |cases| { return Err(NotFound); }
      if cases[c].status != AGREED { return Err(Unprocessable); }
      if cases[c].renewedTenancy.Some? { return Err(Conflict); }
      if input.annualRent <= 0 { return Err(Unprocessable); }
      if input.endMs <= input.startMs { return Err(Unprocessable); }
      var p := cases[c].tenancy;
      if p >= |tenancies| { return Err(NotFound); }
      // One transaction: claim the case, create the successor, close the predecessor, link the case.
      var claimed := cases[c := cases[c].(status := RENEWED)];
      var taken := SuccessorExists(p);
      if taken { return Err(Uncaught); }
      var notice := if input.noticePeriodDays.Some? then input.noticePeriodDays.value
        else tenancies[p].noticePeriodDays;
      var id := |tenancies|;
      tenancies := tenancies +
        [Tenancy(T_ACTIVE, DayOf(input.startMs), DayOf(input.endMs), input.annualRent, notice, Some(p), None)];
      tenancies := tenancies[p := tenancies[p].(status := T_RENEWED)];
      cases := claimed[c := claimed[c].(renewedTenancy := Some(id))];
      r := Ok(id);
    }

    // Notices

    method PrepareNotice(c: nat, docId: Option<string>) returns (r: Result<nat, Refusal>)
      modifies this`notices, this`noticeLog
      ensures Outcome(Tables(), r) == PrepareCall(old(Tables()), c, docId)
    {
      if c >= |cases| { return Err(NotFound); }
      r := Ok(|notices|);
      noticeLog := noticeLog + [NoticeEvent(|notices|, NoticeGenerated)];
      notices := notices + [Notice(c, GENERATED, None, docId, None)];
    }

    method ApproveNotice(n: nat) returns (r: Result<nat, Refusal>)
      modifies this`notices, this`noticeLog
      ensures Outcome(Tables(), r) == ApproveCall(old(Tables()), n)
    {
      if n >= |notices| { return Err(NotFound); }
      if notices[n].status != GENERATED { return Err(Unprocessable); }
      notices := notices[n := notices[n].(status := APPROVED)];
      noticeLog := noticeLog + [NoticeEvent(n, NoticeApproved)];
      r := Ok(n);
    }

    /** The one path to a served notice: row and case in one transaction, then the tenancy, the event and the risk. */
    method MarkNoticeServed(n: nat, input: ServiceInput, today: int)
      requires n < |notices| && notices[n].renewalCase < |cases|
      modifies this`notices, this`cases, this`tenancies, this`noticeLog, risk
      ensures Tables() == MarkServed(old(Tables()), n, input)
      ensures Evaluated(old(risk.State()), old(notices[n].renewalCase), today)
    {
      var c := notices[n].renewalCase;
      var docId := if input.docId.Some? then input.docId else notices[n].docId;
      notices := notices[n := notices[n].(status := SERVED, serviceRef := input.serviceRef, docId := docId,
        attestation := input.attestation)];
      cases := cases[c := cases[c].(status := NOTICE_SERVED, noticeServedAt := Some(input.at))];
      var t := cases[c].tenancy;
      if t < |tenancies| && (tenancies[t].status == T_ACTIVE || tenancies[t].status == T_RENEWAL_DUE) {
        tenancies := tenancies[t := tenancies[t].(status := T_NOTICE_SERVED)];
      }
      noticeLog := noticeLog + [NoticeEvent(n, NoticeServed)];
      EvaluateRenewalRisk(c, today);
    }

    /** Service without proof is recorded and waits for the evidence. */
    method RecordService(n: nat, input: ServiceInput)
      requires n < |notices| && notices[n].status == APPROVED && notices[n].renewalCase < |cases|
      requires !input.HasEvidence()
      modifies this`notices, this`noticeLog
      ensures Tables() == Do(old(Tables()), ServeNotice(n, input))
    {
      notices := notices[n := notices[n].(status := SERVICE_RECORDED_PENDING_EVIDENCE,
                                          docId := if input.docId.Some? then input.docId else notices[n].docId)];
      noticeLog := noticeLog + [NoticeEvent(n, NoticeServiceRecorded)];
    }

    method ServeNoticeFormal(n: nat, input: ServiceInput, today: int) returns (r: Result<nat, Refusal>)
      modifies this`notices, this`cases, this`tenancies, this`noticeLog, risk
      ensures Outcome(Tables(), r) == ServeCall(old(Tables()), n, input)
      ensures r.Err? ==> risk.State() == old(risk.State())
      ensures r.Ok? ==> Evaluated(old(risk.State()), old(notices[n].renewalCase), today)
    {
      if n >= |notices| || notices[n].renewalCase >= |cases| { return Err(NotFound); }
      if notices[n].status != APPROVED { return Err(Unprocessable); }
      var c := notices[n].renewalCase;
      if !input.HasEvidence() {
        RecordService(n, input);
        EvaluateRenewalRisk(c, today);
        return Ok(n);
      }
      var allowed := MayTakeActiveStatus(c);
      if !allowed { return Err(Uncaught); }
      MarkNoticeServed(n, input, today);
      r := Ok(n);
    }

    method ConfirmNoticeService(n: nat, input: ServiceInput, today: int) returns (r: Result<nat, Refusal>)
      modifies this`notices, this`cases, this`tenancies, this`noticeLog, risk
      ensures Outcome(Tables(), r) == ConfirmCall(old(Tables()), n, input)
      ensures r.Err? ==> risk.State() == old(risk.State())
      ensures r.Ok? ==> Evaluated(old(risk.State()), old(notices[n].renewalCase), today)
    {
      if n >= |notices| || notices[n].renewalCase >= |cases| { return Err(NotFound); }
      if notices[n].status != SERVICE_RECORDED_PENDING_EVIDENCE { return Err(Unprocessable); }
      if !input.HasEvidence() { return Err(Unprocessable); }
      var allowed := MayTakeActiveStatus(notices[n].renewalCase);
      if !allowed { return Err(Uncaught); }
      MarkNoticeServed(n, input, today);
      r := Ok(n);
    }

    method DraftAndApprove(c: nat, docId: Option<string>) returns (n: nat)
      requires c < |cases|
      modifies this`notices, this`noticeLog
      ensures n == |old(notices)| && Tables() == ReadyToServe(old(Tables()), c, docId)
      ensures n < |notices| && notices[n].renewalCase == c
    {
      var prepared := PrepareNotice(c, docId);
      n := prepared.value;
      var approved := ApproveNotice(n);
    }

    method ServeRenewalNotice(c: nat, input: ServiceInput, today: int) returns (r: Result<nat, Refusal>)
      modifies this`notices, this`cases, this`tenancies, this`noticeLog, risk
      ensures Outcome(Tables(), r) == ServeRenewalCall(old(Tables()), c, input)
      ensures r.Err? ==> risk.State() == old(risk.State())
      ensures r.Ok? ==> Evaluated(old(risk.State()), c, today)
    {
      if c >= |cases| { return Err(NotFound); }
      var n := DraftAndApprove(c, input.docId);
      r := ServeNoticeFormal(n, input, today);
    }
  }
}
