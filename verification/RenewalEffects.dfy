/**
 What each renewal call does to the rows, said on the rows: when it is accepted, what the rows it writes hold
 afterwards, and that no other row changes.
 */
module RenewalEffects {
  import opened Common
  import opened Renewals
  import opened RenewalCalls
  import Rent

  /** Offers that a case's next offer or acceptance closes. */
  predicate OnTable(offer: Offer, c: nat) {
    offer.renewalCase == c && (offer.status == SENT || offer.status == COUNTERED)
  }

  predicate LiveCase(row: RenewalCase) {
    row.status !in {RENEWED, DECLINED, LAPSED}
  }

  /** The unique index on live cases of a tenancy has room for case c. */
  predicate RoomFor(s: State, c: nat)
    requires c < |s.cases|
  {
    LiveCase(s.cases[c]) ||
    forall d | 0 <= d < |s.cases| && d != c && s.cases[d].tenancy == s.cases[c].tenancy :: !LiveCase(s.cases[d])
  }

  lemma RoomIsTheIndex(s: State, c: nat)
    requires c < |s.cases|
    ensures MayBeActive(s, c) <==> RoomFor(s, c)
  {}

  /** Only the status of tenancy t changes, to `to`, and only from one of the statuses given. */
  ghost predicate TenancyMoves(s: State, s': State, t: nat, from: set<TenancyStatus>, to: TenancyStatus) {
    && |s'.tenancies| == |s.tenancies|
    && forall u | 0 <= u < |s.tenancies| ::
         s'.tenancies[u] ==
           if u == t && s.tenancies[u].status in from then s.tenancies[u].(status := to) else s.tenancies[u]
  }

  ghost predicate OnlyCase(s: State, s': State, c: nat, row: RenewalCase) {
    && |s'.cases| == |s.cases| && c < |s.cases| && s'.cases[c] == row
    && forall d | 0 <= d < |s.cases| && d != c :: s'.cases[d] == s.cases[d]
  }

  // ---------------------------------------------------------------------------------------------
  // Opening a case, capturing an index
  // ---------------------------------------------------------------------------------------------

  /** A live case of the tenancy answers; without one a new case starts assessing, its gate the notice period early. */
  lemma OpenEffect(s: State, t: nat)
    ensures var out := Perform(s, OpenRenewalCase(t));
            && (out.reply.Ok? <==>
                  t < |s.tenancies|
                  && (s.tenancies[t].noticePeriodDays > 0
                      || exists c | 0 <= c < |s.cases| :: s.cases[c].tenancy == t && LiveCase(s.cases[c])))
            && (out.reply.Ok? && out.reply.value < |s.cases| ==>
                  out.state == s && s.cases[out.reply.value].tenancy == t && LiveCase(s.cases[out.reply.value]))
            && (out.reply.Ok? && out.reply.value >= |s.cases| ==>
                  && out.reply.value == |s.cases|
                  && (forall c | 0 <= c < |s.cases| :: s.cases[c].tenancy == t ==> !LiveCase(s.cases[c]))
                  && out.state == s.(cases := s.cases + [RenewalCase(t, ASSESSING,
                       s.tenancies[t].endDay - s.tenancies[t].noticePeriodDays, None, None, None, None, None)]))
            && (out.reply.Err? ==> out.state == s)
  {
    if t < |s.tenancies| {
      var existing := ActiveCaseFrom(s.cases, t, 0);
      if existing.Some? { assert LiveCase(s.cases[existing.value]); }
    }
  }

  /** A capture freezes the ceiling of the decree for the rent on record; it is official only with its artefact. */
  lemma CaptureEffect(s: State, t: nat, k: CaptureInput)
    ensures var out := Perform(s, CaptureRentIndex(t, k));
            && (out.reply.Ok? <==>
                  t < |s.tenancies| && k.market > 0 && s.tenancies[t].annualRent > 0
                  && (k.claimsOfficial ==> k.hasArtefact))
            && (out.reply.Err? ==> out.state == s)
            && (out.reply.Ok? ==>
                  && out.reply.value == |s.captures| && |out.state.captures| == |s.captures| + 1
                  && out.state == s.(captures := s.captures + [out.state.captures[|s.captures|]])
                  && var row := out.state.captures[|s.captures|];
                     && row.tenancy == t && row.official == k.claimsOfficial && row.capturedAt == k.capturedAt
                     && row.permittedMax.Some?
                     && Rent.IsCeiling(s.tenancies[t].annualRent, k.market, row.permittedMax.value))
  {
    if t < |s.tenancies| && s.tenancies[t].annualRent > 0 && k.market > 0 {
      Rent.CeilingExactly(s.tenancies[t].annualRent, k.market);
    }
  }

  // ---------------------------------------------------------------------------------------------
  // Offers
  // ---------------------------------------------------------------------------------------------

  predicate HasCeiling(k: Capture, t: nat) {
    k.tenancy == t && k.permittedMax.Some?
  }

  /**
   The ceiling frozen on an offer: of the capture linked to the case, else of the latest capture of the
   tenancy that has one, else none.
   */
  ghost predicate Frozen(s: State, c: nat, snapshot: Option<int>)
    requires c < |s.cases|
  {
    var row := s.cases[c];
    if row.indexCapture.Some? && row.indexCapture.value < |s.captures|
    then snapshot == s.captures[row.indexCapture.value].permittedMax
    else if exists k | 0 <= k < |s.captures| :: HasCeiling(s.captures[k], row.tenancy)
    then exists k: nat :: LatestWithCeiling(s.captures, row.tenancy, k) && snapshot == s.captures[k].permittedMax
    else snapshot == None
  }

  /** The later row of two with one capture time. */
  ghost predicate LatestWithCeiling(captures: seq<Capture>, t: nat, k: nat) {
    && k < |captures| && HasCeiling(captures[k], t)
    && forall j | 0 <= j < |captures| && HasCeiling(captures[j], t) ::
         captures[j].capturedAt < captures[k].capturedAt
         || (captures[j].capturedAt == captures[k].capturedAt && j <= k)
  }

  lemma {:induction false} LatestCaptureIsLatest(captures: seq<Capture>, t: nat)
    ensures var r := LatestCapture(captures, t, true);
            && (r.None? <==> forall k | 0 <= k < |captures| :: !HasCeiling(captures[k], t))
            && (r.Some? ==> LatestWithCeiling(captures, t, r.value))
    decreases |captures|
  {
    if captures == [] {
    } else {
      LatestCaptureIsLatest(captures[..|captures| - 1], t);
    }
  }

  lemma CeilingIsFrozen(s: State, c: nat)
    requires c < |s.cases|
    ensures Frozen(s, c, CeilingNow(s, c))
  {
    var t := s.cases[c].tenancy;
    LatestCaptureIsLatest(s.captures, t);
  }

  /** There is one such ceiling. */
  lemma FrozenIsUnique(s: State, c: nat, a: Option<int>, b: Option<int>)
    requires c < |s.cases| && Frozen(s, c, a) && Frozen(s, c, b)
    ensures a == b
  {
    var t := s.cases[c].tenancy;
    if k: nat :| LatestWithCeiling(s.captures, t, k) && a == s.captures[k].permittedMax {
      if j: nat :| LatestWithCeiling(s.captures, t, j) && b == s.captures[j].permittedMax {
        assert HasCeiling(s.captures[j], t) && HasCeiling(s.captures[k], t);
      }
    }
  }

  /** One above the highest version of the case, one for its first offer. */
  ghost predicate NextOf(offers: seq<Offer>, c: nat, version: nat) {
    && (forall o | 0 <= o < |offers| && offers[o].renewalCase == c :: offers[o].version < version)
    && (version == 1 || exists o | 0 <= o < |offers| :: offers[o].renewalCase == c && offers[o].version == version - 1)
  }

  /** The open offers of the case are superseded and one new offer is there, with its terms and its frozen ceiling. */
  ghost predicate OfferTabled(s: State, s': State, c: nat, party: Party, annualRent: int)
    requires c < |s.cases|
  {
    && |s'.offers| == |s.offers| + 1
    && (forall o | 0 <= o < |s.offers| ::
          s'.offers[o] == if OnTable(s.offers[o], c) then s.offers[o].(status := SUPERSEDED) else s.offers[o])
    && var row := s'.offers[|s.offers|];
       && row.renewalCase == c && row.party == party && row.annualRent == annualRent
       && row.status == (if party == LANDLORD then SENT else COUNTERED)
       && NextOf(s.offers, c, row.version) && Frozen(s, c, row.permittedMaxSnapshot)
  }

  lemma TabledIsOffer(s: State, c: nat, party: Party, annualRent: int)
    requires c < |s.cases|
    ensures var s2 := Tabled(s, c, party, annualRent);
            && OfferTabled(s, s2, c, party, annualRent) && s2 == s.(offers := s2.offers)
  {
    var s1 := Do(s, SupersedeOpen(c));
    assert CeilingNow(s1, c) == CeilingNow(s, c);
    CeilingIsFrozen(s, c);
    var newest := NewestOffer(s1.offers, c);
    if newest.Some? { assert s.offers[newest.value].version == s1.offers[newest.value].version; }
    forall o | 0 <= o < |s.offers| && s.offers[o].renewalCase == c
      ensures s.offers[o].version < NextVersion(s1.offers, c)
    {
      assert s1.offers[o].version == s.offers[o].version;
    }
  }

  /** The offer is on the table and current, the case negotiating; of the other tables only `tenancies` may differ. */
  ghost predicate PutOn(s: State, s': State, c: nat, party: Party, annualRent: int)
    requires c < |s.cases|
  {
    && OfferTabled(s, s', c, party, annualRent)
    && OnlyCase(s, s', c, s.cases[c].(status := NEGOTIATING, currentOffer := Some(|s.offers|)))
    && s' == s.(offers := s'.offers, cases := s'.cases, tenancies := s'.tenancies)
  }

  lemma PutOnTableEffect(s: State, c: nat, party: Party, annualRent: int)
    requires c < |s.cases|
    ensures var out := PutOnTable(s, c, party, annualRent);
            && out.reply == (if RoomFor(s, c) then Ok(|s.offers|) else Err(Uncaught))
            && out.state.tenancies == s.tenancies
            && (out.reply.Ok? ==> PutOn(s, out.state, c, party, annualRent))
            && (out.reply.Err? ==> OfferTabled(s, out.state, c, party, annualRent) && out.state.cases == s.cases)
  {
    TabledIsOffer(s, c, party, annualRent);
    RoomIsTheIndex(s, c);
    RoomIsTheIndex(Tabled(s, c, party, annualRent), c);
  }

  lemma NegotiatingRows(s: State, t: nat)
    ensures var s' := TryMove(s, t, T_NEGOTIATING);
            && TenancyMoves(s, s', t, {T_ACTIVE, T_RENEWAL_DUE, T_NOTICE_SERVED}, T_NEGOTIATING)
            && s' == s.(tenancies := s'.tenancies)
  {}

  lemma ProposeIsTabling(s: State, c: nat, party: Party, annualRent: int)
    requires annualRent > 0 && c < |s.cases|
    ensures var out, tabled := Perform(s, ProposeOffer(c, party, annualRent)), PutOnTable(s, c, party, annualRent);
            && out.reply == tabled.reply
            && (out.reply.Ok? ==> out.state == TryMove(tabled.state, s.cases[c].tenancy, T_NEGOTIATING))
  {}

  /** A proposal: accepted for a positive rent on a case the index has room for; the tenancy is then negotiating. */
  lemma ProposeEffect(s: State, c: nat, party: Party, annualRent: int)
    ensures var out := Perform(s, ProposeOffer(c, party, annualRent));
            && (out.reply.Ok? <==> annualRent > 0 && c < |s.cases| && RoomFor(s, c))
            && (out.reply.Ok? ==>
                  && out.reply.value == |s.offers| && PutOn(s, out.state, c, party, annualRent)
                  && TenancyMoves(s, out.state, s.cases[c].tenancy, {T_ACTIVE, T_RENEWAL_DUE, T_NOTICE_SERVED},
                                  T_NEGOTIATING))
            && (annualRent <= 0 || c >= |s.cases| ==> out.state == s)
  {
    if annualRent > 0 && c < |s.cases| {
      PutOnTableEffect(s, c, party, annualRent);
      ProposeIsTabling(s, c, party, annualRent);
      NegotiatingRows(PutOnTable(s, c, party, annualRent).state, s.cases[c].tenancy);
    }
  }

  /** A tenant's counter: positive rent and a schedule; it needs nothing of the offer it answers. */
  lemma CounterEffect(s: State, o: nat, annualRent: int, schedule: Option<string>)
    requires Refs(s)
    ensures var out := Perform(s, RespondAsTenant(o, Counter(annualRent, schedule)));
            && (out.reply.Ok? <==>
                  o < |s.offers| && annualRent > 0 && schedule.Some? && schedule.value != ""
                  && RoomFor(s, s.offers[o].renewalCase))
            && (out.reply.Ok? ==>
                  && out.reply.value == |s.offers| && PutOn(s, out.state, s.offers[o].renewalCase, TENANT, annualRent)
                  && out.state.tenancies == s.tenancies)
  {
    if o < |s.offers| { PutOnTableEffect(s, s.offers[o].renewalCase, TENANT, annualRent); }
  }

  /** An offer can be accepted while it is open, its case has no accepted offer, and the index has room. */
  predicate Acceptable(s: State, o: nat) {
    && o < |s.offers| && s.offers[o].status in {SENT, COUNTERED} && s.offers[o].renewalCase < |s.cases|
    && (forall p | 0 <= p < |s.offers| ::
          !(s.offers[p].renewalCase == s.offers[o].renewalCase && s.offers[p].status == ACCEPTED))
    && RoomFor(s, s.offers[o].renewalCase)
  }

  lemma AcceptableIsEnabled(s: State, o: nat)
    ensures Acceptable(s, o) <==> Enabled(s, AcceptTx(o))
  {
    if o < |s.offers| && s.offers[o].renewalCase < |s.cases| { RoomIsTheIndex(s, s.offers[o].renewalCase); }
  }

  /** The offer is accepted, the case agreed on it, and every other open offer of the case superseded. */
  ghost predicate AcceptedOffer(s: State, s': State, o: nat)
    requires o < |s.offers| && s.offers[o].renewalCase < |s.cases|
  {
    var c := s.offers[o].renewalCase;
    && |s'.offers| == |s.offers| && s'.offers[o] == s.offers[o].(status := ACCEPTED)
    && (forall p | 0 <= p < |s.offers| && p != o ::
          s'.offers[p] == if OnTable(s.offers[p], c) then s.offers[p].(status := SUPERSEDED) else s.offers[p])
    && OnlyCase(s, s', c, s.cases[c].(status := AGREED, decidedOffer := Some(o), currentOffer := Some(o)))
    && s' == s.(offers := s'.offers, cases := s'.cases, tenancies := s'.tenancies)
  }

  lemma AcceptRows(s: State, o: nat)
    requires Enabled(s, AcceptTx(o))
    ensures AcceptedOffer(s, Do(s, AcceptTx(o)), o) && Do(s, AcceptTx(o)).tenancies == s.tenancies
  {}

  /** An acceptance, by the landlord or by the tenant. */
  lemma AcceptEffect(s: State, o: nat)
    requires Refs(s)
    ensures var out := Perform(s, AcceptOffer(o));
            && (out.reply.Ok? <==> Acceptable(s, o))
            && (out.reply.Err? ==> out.state == s)
            && (out.reply.Ok? ==>
                  && out.reply.value == o && AcceptedOffer(s, out.state, o)
                  && TenancyMoves(s, out.state, s.cases[s.offers[o].renewalCase].tenancy,
                                  {T_RENEWAL_DUE, T_NOTICE_SERVED, T_NEGOTIATING}, T_RENEWED))
            && Perform(s, RespondAsTenant(o, Accept)) == out
  {
    AcceptableIsEnabled(s, o);
    if o < |s.offers| {
      AcceptPathsAgree(s, o);
      if Enabled(s, AcceptTx(o)) { AcceptRows(s, o); }
    }
  }

  /** A question is always taken and changes nothing. */
  lemma AskEffect(s: State, o: nat)
    requires Refs(s)
    ensures Perform(s, RespondAsTenant(o, Ask)) == Outcome(s, if o < |s.offers| then Ok(o) else Err(NotFound))
  {}

  // ---------------------------------------------------------------------------------------------
  // Links
  // ---------------------------------------------------------------------------------------------

  /** Not revoked, not yet at its end, and with a use left. */
  predicate Usable(link: Link, now: int) {
    !link.revoked && now < link.expiresAt && (link.maxUses.Some? ==> link.useCount < link.maxUses.value)
  }

  /** A sent offer has a fresh link: five uses, fourteen days. */
  lemma SendEffect(s: State, o: nat, now: int)
    ensures var out := Perform(s, SendOfferToTenant(o, now));
            && (out.reply == if o < |s.offers| then Ok(|s.links|) else Err(NotFound))
            && out.state == if o >= |s.offers| then s
                 else s.(links := s.links + [Link(o, Some(5), 0, now + 1_209_600_000, false)])
  {}

  lemma RevokeEffect(s: State, l: nat, later: int)
    ensures var out := Perform(s, RevokeSecureLink(l));
            && (out.reply.Ok? <==> l < |s.links|)
            && (out.reply.Ok? ==>
                  |out.state.links| == |s.links| && out.state == s.(links := s.links[l := out.state.links[l]])
                  && out.state.links[l] == s.links[l].(revoked := true) && !Usable(out.state.links[l], later))
  {}

  /** A response through a link uses it up by one, whatever becomes of the response; without a use nothing happens. */
  lemma ViaLinkEffect(s: State, l: nat, now: int, response: Response)
    requires Refs(s) && l < |s.links| && s.links[l].offer < |s.offers|
    ensures var out := Perform(s, RespondViaLink(l, now, response));
            && (!Usable(s.links[l], now) ==> out == Outcome(s, Err(Gone)))
            && (Usable(s.links[l], now) ==>
                  && out.state.links == s.links[l := s.links[l].(useCount := s.links[l].useCount + 1)]
                  && var answered := Perform(s, RespondAsTenant(s.links[l].offer, response));
                     && out.reply == answered.reply && out.state.offers == answered.state.offers
                     && out.state.cases == answered.state.cases && out.state.tenancies == answered.state.tenancies
                     && out.state.notices == s.notices && out.state.captures == s.captures
                     && out.state.noticeLog == s.noticeLog)
  {
    if Usable(s.links[l], now) { AnswersAsThePortal(s, l, now, response); }
  }

  lemma AnswersAsThePortal(s: State, l: nat, now: int, response: Response)
    requires Refs(s) && l < |s.links| && s.links[l].offer < |s.offers| && Usable(s.links[l], now)
    ensures var out := Perform(s, RespondViaLink(l, now, response));
            var answered := ApplyTenantResponse(s, s.links[l].offer, response);
            && out.reply == answered.reply
            && out.state == answered.state.(owed := out.state.owed, responses := out.state.responses,
                 links := s.links[l := s.links[l].(useCount := s.links[l].useCount + 1)])
            && answered.state.notices == s.notices && answered.state.captures == s.captures
            && answered.state.noticeLog == s.noticeLog
  {
    UsableAnswers(s, l, now, response);
    ResponseIgnoresLinks(s, Do(s, ConsumeLink(l, now)), s.links[l].offer, response);
  }

  lemma UsableAnswers(s: State, l: nat, now: int, response: Response)
    requires Refs(s) && l < |s.links| && s.links[l].offer < |s.offers| && Usable(s.links[l], now)
    ensures var used := Do(s, ConsumeLink(l, now));
            && used == s.(links := s.links[l := s.links[l].(useCount := s.links[l].useCount + 1)], owed := used.owed)
            && var out, answered := Perform(s, RespondViaLink(l, now, response)),
                 ApplyTenantResponse(used, s.links[l].offer, response);
               && out.reply == answered.reply
               && out.state == answered.state.(owed := out.state.owed, responses := out.state.responses)
  {}

  /** A response reads and writes no link. */
  lemma ResponseIgnoresLinks(s: State, s1: State, o: nat, response: Response)
    requires Refs(s) && o < |s.offers| && s1 == s.(links := s1.links, owed := s1.owed)
    ensures var a, b := ApplyTenantResponse(s, o, response), ApplyTenantResponse(s1, o, response);
            && b.reply == a.reply && b.state == a.state.(links := s1.links, owed := s1.owed)
            && a.state.notices == s.notices && a.state.captures == s.captures && a.state.noticeLog == s.noticeLog
  {
    var c := s.offers[o].renewalCase;
    match response
    case Counter(annualRent, _) =>
      assert CeilingNow(Do(s1, SupersedeOpen(c)), c) == CeilingNow(Do(s, SupersedeOpen(c)), c);
      assert MayBeActive(Tabled(s1, c, TENANT, annualRent), c) <==> MayBeActive(Tabled(s, c, TENANT, annualRent), c);
    case Accept =>
      AcceptableIsEnabled(s, o);
      AcceptableIsEnabled(s1, o);
      assert Acceptable(s1, o) <==> Acceptable(s, o);
    case Ask =>
  }

  // ---------------------------------------------------------------------------------------------
  // Completion
  // ---------------------------------------------------------------------------------------------

  /**
   The successor has the term and rent asked for and its predecessor as source; predecessor and case are
   renewed, the case carries the id; no other row changes.
   */
  ghost predicate Completed(s: State, s': State, c: nat, input: MintInput)
    requires c < |s.cases| && s.cases[c].tenancy < |s.tenancies|
  {
    var p, id := s.cases[c].tenancy, |s.tenancies|;
    && |s'.tenancies| == id + 1
    && s'.tenancies[id] ==
         Tenancy(T_ACTIVE, input.startMs / 86_400_000, input.endMs / 86_400_000, input.annualRent,
                 if input.noticePeriodDays.Some? then input.noticePeriodDays.value else s.tenancies[p].noticePeriodDays,
                 Some(p), None)
    && (forall t | 0 <= t < id ::
          s'.tenancies[t] == if t == p then s.tenancies[t].(status := T_RENEWED) else s.tenancies[t])
    && OnlyCase(s, s', c, s.cases[c].(status := RENEWED, renewedTenancy := Some(id)))
    && s' == s.(tenancies := s'.tenancies, cases := s'.cases)
  }

  /** When a mint goes through: an agreed case without a successor, a positive rent and a term. */
  predicate Mintable(s: State, c: nat, input: MintInput) {
    && c < |s.cases| && s.cases[c].status == AGREED && s.cases[c].renewedTenancy.None?
    && s.cases[c].tenancy < |s.tenancies| && input.annualRent > 0 && input.startMs < input.endMs
    && forall t | 0 <= t < |s.tenancies| :: s.tenancies[t].renewsFrom != Some(s.cases[c].tenancy)
  }

  lemma MintEffect(s: State, c: nat, input: MintInput)
    ensures var out := MintTransaction(s, c, input);
            && (out.reply.Ok? <==> Mintable(s, c, input))
            && (out.reply.Err? ==> out.state == s)
            && (out.reply.Ok? ==> out.reply.value == |s.tenancies| && Completed(s, out.state, c, input))
  {}

  /** The whole call: the derivations need a positive notice period; the mint stands without. */
  lemma CompletionEffect(s: State, c: nat, input: MintInput)
    ensures var out := Perform(s, MintRenewedTenancy(c, input));
            && (Mintable(s, c, input) <==> out.state != s)
            && (Mintable(s, c, input) ==>
                  && Completed(s, out.state, c, input)
                  && out.reply == (if out.state.tenancies[|s.tenancies|].noticePeriodDays > 0 then Ok(|s.tenancies|)
                                   else Err(Uncaught)))
            && (!Mintable(s, c, input) ==> out.reply.Err?)
  {
    MintEffect(s, c, input);
    if Mintable(s, c, input) { assert |MintTransaction(s, c, input).state.tenancies| != |s.tenancies|; }
  }

  // ---------------------------------------------------------------------------------------------
  // Notices
  // ---------------------------------------------------------------------------------------------

  /** A delivery reference, a document or an attestation that is not empty. */
  predicate Proof(input: ServiceInput) {
    || (input.serviceRef.Some? && input.serviceRef.value != "")
    || (input.docId.Some? && input.docId.value != "")
    || (input.attestation.Some? && input.attestation.value != "")
  }

  /** The notice holds the proof as given, the case its service date; a tenancy before service is moved on. */
  ghost predicate Served(s: State, s': State, n: nat, input: ServiceInput)
    requires n < |s.notices| && s.notices[n].renewalCase < |s.cases|
  {
    var c := s.notices[n].renewalCase;
    && s'.notices == s.notices[n := Notice(c, SERVED, input.serviceRef,
         if input.docId.Some? then input.docId else s.notices[n].docId, input.attestation)]
    && s'.noticeLog == s.noticeLog + [NoticeEvent(n, NoticeServed)]
    && OnlyCase(s, s', c, s.cases[c].(status := NOTICE_SERVED, noticeServedAt := Some(input.at)))
    && TenancyMoves(s, s', s.cases[c].tenancy, {T_ACTIVE, T_RENEWAL_DUE}, T_NOTICE_SERVED)
    && s' == s.(notices := s'.notices, noticeLog := s'.noticeLog, cases := s'.cases, tenancies := s'.tenancies)
  }

  lemma MarkServedRows(s: State, n: nat, input: ServiceInput)
    requires n < |s.notices| && s.notices[n].renewalCase < |s.cases|
    ensures Served(s, MarkServed(s, n, input), n, input)
  {}

  lemma PrepareEffect(s: State, c: nat, docId: Option<string>)
    ensures var out := Perform(s, PrepareRenewalNotice(c, docId));
            && out.reply == (if c < |s.cases| then Ok(|s.notices|) else Err(NotFound))
            && out.state == if c >= |s.cases| then s
                            else s.(notices := s.notices + [Notice(c, GENERATED, None, docId, None)],
                                    noticeLog := s.noticeLog + [NoticeEvent(|s.notices|, NoticeGenerated)])
  {}

  lemma ApproveEffect(s: State, n: nat)
    ensures var out := Perform(s, ApproveRenewalNotice(n));
            && (out.reply.Ok? <==> n < |s.notices| && s.notices[n].status == GENERATED)
            && out.state == if out.reply.Err? then s
                            else s.(notices := s.notices[n := s.notices[n].(status := APPROVED)],
                                    noticeLog := s.noticeLog + [NoticeEvent(n, NoticeApproved)])
  {}

  /** Service with proof; without it the intent is recorded and neither case nor tenancy moves. */
  lemma ServeEffect(s: State, n: nat, input: ServiceInput)
    requires Refs(s)
    ensures var out := Perform(s, ServeNoticeFormal(n, input));
            && (out.reply.Ok? <==>
                  n < |s.notices| && s.notices[n].status == APPROVED
                  && (Proof(input) ==> RoomFor(s, s.notices[n].renewalCase)))
            && (out.reply.Err? ==> out.state == s)
            && (out.reply.Ok? && Proof(input) ==> Served(s, out.state, n, input))
            && (out.reply.Ok? && !Proof(input) ==>
                  && out.state.notices == s.notices[n := s.notices[n].(status := SERVICE_RECORDED_PENDING_EVIDENCE,
                       docId := if input.docId.Some? then input.docId else s.notices[n].docId)]
                  && out.state.noticeLog == s.noticeLog + [NoticeEvent(n, NoticeServiceRecorded)]
                  && out.state == s.(notices := out.state.notices, noticeLog := out.state.noticeLog))
  {
    if n < |s.notices| {
      RoomIsTheIndex(s, s.notices[n].renewalCase);
      MarkServedRows(s, n, input);
    }
  }

  /** A recorded service is confirmed by proof alone. */
  lemma ConfirmEffect(s: State, n: nat, input: ServiceInput)
    requires Refs(s)
    ensures var out := Perform(s, ConfirmNoticeService(n, input));
            && (out.reply.Ok? <==>
                  n < |s.notices| && s.notices[n].status == SERVICE_RECORDED_PENDING_EVIDENCE && Proof(input)
                  && RoomFor(s, s.notices[n].renewalCase))
            && (out.reply.Err? ==> out.state == s)
            && (out.reply.Ok? ==> Served(s, out.state, n, input))
  {
    if n < |s.notices| {
      RoomIsTheIndex(s, s.notices[n].renewalCase);
      MarkServedRows(s, n, input);
    }
  }

  // ---------------------------------------------------------------------------------------------
  // Tenancies
  // ---------------------------------------------------------------------------------------------

  /** From where a tenancy may be moved to a status, target by target. */
  function Sources(to: TenancyStatus): set<TenancyStatus> {
    match to
    case T_ACTIVE => {T_DISPUTED}
    case T_RENEWAL_DUE => {T_ACTIVE}
    case T_NOTICE_SERVED => {T_ACTIVE, T_RENEWAL_DUE}
    case T_NEGOTIATING => {T_ACTIVE, T_RENEWAL_DUE, T_NOTICE_SERVED}
    case T_RENEWED => {T_RENEWAL_DUE, T_NOTICE_SERVED, T_NEGOTIATING}
    case T_ENDING => {T_ACTIVE, T_RENEWAL_DUE, T_NOTICE_SERVED, T_NEGOTIATING, T_DISPUTED}
    case T_DISPUTED => {T_ACTIVE, T_RENEWAL_DUE, T_NOTICE_SERVED, T_NEGOTIATING, T_ENDING}
    case T_ARCHIVED => {T_ACTIVE, T_RENEWED, T_ENDING, T_DISPUTED}
  }

  lemma SetStatusEffect(s: State, t: nat, status: TenancyStatus)
    ensures var out := Perform(s, SetStatus(t, status));
            && (out.reply.Ok? <==> t < |s.tenancies| && s.tenancies[t].status in Sources(status))
            && (out.reply.Ok? ==>
                  TenancyMoves(s, out.state, t, Sources(status), status)
                  && out.state == s.(tenancies := out.state.tenancies))
            && (out.reply.Err? ==> out.state == s)
  {}

  /** Archiving needs only the row, and dates it. */
  lemma ArchiveEffect(s: State, t: nat, now: int)
    ensures var out := Perform(s, Archive(t, now));
            && (out.reply.Ok? <==> t < |s.tenancies|)
            && out.state == if out.reply.Err? then s
                 else s.(tenancies := s.tenancies[t := s.tenancies[t].(status := T_ARCHIVED, archivedAt := Some(now))])
  {}

  lemma RegisterEffect(s: State, startDay: int, endDay: int, annualRent: int, noticePeriodDays: int)
    ensures var out := Perform(s, RegisterTenancy(startDay, endDay, annualRent, noticePeriodDays));
            && (out.reply == if noticePeriodDays > 0 then Ok(|s.tenancies|) else Err(Uncaught))
            && out.state == s.(tenancies := s.tenancies
                 + [Tenancy(T_ACTIVE, startDay, endDay, annualRent, noticePeriodDays, None, None)])
  {}
}
