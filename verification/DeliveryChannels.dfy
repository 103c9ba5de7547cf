/** How a queued message may leave: over which channel, to which address, with which text. */
module ChannelRules {
  import opened Common
  import opened Outbox
  import opened Notify
  import Categories

  /** The message was made for WhatsApp, or WhatsApp is preferred for it. */
  predicate WantsWhatsapp(m: Message, p: Payload) {
    m.channel == WHATSAPP || p.preferWhatsapp
  }

  /** The recipient consented, the provider is set up, and there is a phone. */
  predicate MayWhatsapp(env: Env) {
    env.consented && env.whatsappConfigured && env.phone.Some? && env.phone.value != ""
  }

  predicate ByWhatsapp(m: Message, p: Payload, env: Env) {
    WantsWhatsapp(m, p) && MayWhatsapp(env)
  }

  /** An address given with the message comes before the recipient's own. */
  function EmailOf(p: Payload, env: Env): string {
    if p.toAddress.Some? then p.toAddress.value else if env.email.Some? then env.email.value else ""
  }

  /** Templates whose text is a secret: it travels with the payload and is never taken from the message. */
  predicate Secret(m: Message) {
    m.templateCode in {"auth_reset_v1", "proof_request_v1", "renewal_offer_v1"}
  }

  predicate TextIs(m: Message, p: Payload, body: string) {
    if Secret(m) then p.body == Some(body) else body == m.bodyRef
  }

  predicate HasText(m: Message, p: Payload) {
    Secret(m) ==> p.body.Some?
  }

  /** A provider call for the message as it stood, to a recipient of these records. */
  predicate SentRightly(m: Message, p: Payload, env: Env, to: string, body: string, channel: Channel) {
    && m.status == Queued && TextIs(m, p, body)
    && (channel == WHATSAPP <==> ByWhatsapp(m, p, env))
    && (channel == WHATSAPP ==> env.phone == Some(to))
    && (channel != WHATSAPP ==> channel == EMAIL && to == EmailOf(p, env) && to != "")
  }

  /** No text, or neither the channel WhatsApp nor an address for an email. */
  predicate Undeliverable(m: Message, p: Payload, env: Env) {
    !HasText(m, p) || (!ByWhatsapp(m, p, env) && EmailOf(p, env) == "")
  }

  /** A channel nothing is set up for. */
  predicate NoAdapter(m: Message, p: Payload) {
    !WantsWhatsapp(m, p) && m.channel != EMAIL
  }

  /** What a delivery attempt leaves of a queued message, and whether it went through. */
  predicate Attempted(m: Message, m': Message, ok: bool, p: Payload, env: Env, providerOk: bool) {
    if Undeliverable(m, p, env) then ok && m' == m.(status := MessageFailed)
    else if NoAdapter(m, p) then !ok && m' == m
    else
      && ok == providerOk
      && m' == m.(channel := if ByWhatsapp(m, p, env) then WHATSAPP else EMAIL,
                  status := if providerOk then Sent else MessageFailed)
  }

  lemma SecretTemplates(m: Message)
    ensures Categories.IsSensitiveTemplate(m.templateCode) <==> Secret(m)
  {}

  /** The verdict on a message by the records alone: what is sent, what fails, what throws. */
  lemma VerdictByRecords(m: Message, p: Payload, env: Env)
    requires m.status == Queued
    ensures var verdict := Decide(m, p, env);
            && (verdict.MarkFailed? <==> Undeliverable(m, p, env))
            && (verdict.Throw? <==> !Undeliverable(m, p, env) && NoAdapter(m, p))
            && (verdict.Deliver? <==> !Undeliverable(m, p, env) && !NoAdapter(m, p))
            && (verdict.Deliver? ==> SentRightly(m, p, env, verdict.to, verdict.body, verdict.channel))
  {
    SecretTemplates(m);
  }
}

/** Every provider call of every run goes where the recipient's records allowed it when they were read. */
module DeliveryChannels {
  import opened Common
  import opened Outbox
  import opened Notify
  import opened Delivery
  import opened ChannelRules

  /** Step j reads message m for a worker whose claim carries the payload p, the message being as in s. */
  ghost predicate ReadsIn(cfg: Config, s0: State, steps: seq<Step>, j: nat, s: State, m: nat) {
    && j < |steps| && Run(cfg, s0, steps[..j], s) && steps[j].Read? && steps[j].w in s.works
    && m < |s.messages| && s.works[steps[j].w].entry.payload.messageId == Some(m)
  }

  /** Some reading of message m in the run allows this call. */
  ghost predicate Allowed(cfg: Config, s0: State, steps: seq<Step>, m: nat, to: string, body: string,
      channel: Channel) {
    exists j: nat, s: State :: ReadsIn(cfg, s0, steps, j, s, m)
      && SentRightly(s.messages[m], s.works[steps[j].w].entry.payload, steps[j].env, to, body, channel)
  }

  ghost predicate DecisionAllowed(cfg: Config, s0: State, steps: seq<Step>, w: Work) {
    w.phase.Decided? && w.phase.decision.Deliver? && w.entry.payload.messageId.Some? ==>
      Allowed(cfg, s0, steps, w.entry.payload.messageId.value, w.phase.decision.to, w.phase.decision.body,
              w.phase.decision.channel)
  }

  ghost predicate SendAllowed(cfg: Config, s0: State, steps: seq<Step>, d: Send) {
    Allowed(cfg, s0, steps, d.message, d.to, d.body, d.channel)
  }

  ghost predicate AllAllowed(cfg: Config, s0: State, steps: seq<Step>, s: State) {
    && (forall w | w in s.works :: DecisionAllowed(cfg, s0, steps, s.works[w]))
    && (forall i | 0 <= i < |s.sends| :: SendAllowed(cfg, s0, steps, s.sends[i]))
  }

  lemma StillAllowed(cfg: Config, s0: State, steps: seq<Step>, step: Step, m: nat, to: string, body: string,
      channel: Channel)
    requires Allowed(cfg, s0, steps, m, to, body, channel)
    ensures Allowed(cfg, s0, steps + [step], m, to, body, channel)
  {
    var j: nat, s: State :| ReadsIn(cfg, s0, steps, j, s, m)
      && SentRightly(s.messages[m], s.works[steps[j].w].entry.payload, steps[j].env, to, body, channel);
    assert (steps + [step])[..j] == steps[..j] && (steps + [step])[j] == steps[j];
    assert ReadsIn(cfg, s0, steps + [step], j, s, m);
  }

  /** A worker that reads and settles to send does so by the rule. */
  lemma ReadIsAllowed(cfg: Config, s0: State, steps: seq<Step>, s: State, step: Step)
    requires Run(cfg, s0, steps, s) && Enabled(s, step) && step.Read?
    ensures DecisionAllowed(cfg, s0, steps + [step], Do(cfg, s, step).works[step.w])
  {
    var w := Do(cfg, s, step).works[step.w];
    if w.phase.decision.Deliver? && w.entry.payload.messageId.Some? {
      var m := w.entry.payload.messageId.value;
      VerdictByRecords(s.messages[m], w.entry.payload, step.env);
      assert (steps + [step])[..|steps|] == steps && (steps + [step])[|steps|] == step;
      assert ReadsIn(cfg, s0, steps + [step], |steps|, s, m);
    }
  }

  lemma SendsStayAllowed(cfg: Config, s0: State, steps: seq<Step>, s: State, step: Step)
    requires AllAllowed(cfg, s0, steps, s) && Enabled(s, step)
    ensures forall i | 0 <= i < |Do(cfg, s, step).sends| ::
              SendAllowed(cfg, s0, steps + [step], Do(cfg, s, step).sends[i])
  {
    var s' := Do(cfg, s, step);
    forall i | 0 <= i < |s'.sends| ensures SendAllowed(cfg, s0, steps + [step], s'.sends[i]) {
      var d := s'.sends[i];
      if i < |s.sends| {
        assert SendAllowed(cfg, s0, steps, s.sends[i]) && d == s.sends[i];
      } else {
        assert DecisionAllowed(cfg, s0, steps, s.works[step.w]);
      }
      StillAllowed(cfg, s0, steps, step, d.message, d.to, d.body, d.channel);
    }
  }

  lemma DecisionsStayAllowed(cfg: Config, s0: State, steps: seq<Step>, s: State, step: Step, v: nat)
    requires Run(cfg, s0, steps, s) && AllAllowed(cfg, s0, steps, s) && Enabled(s, step)
    requires v in Do(cfg, s, step).works
    ensures DecisionAllowed(cfg, s0, steps + [step], Do(cfg, s, step).works[v])
  {
    var w := Do(cfg, s, step).works[v];
    if step.Read? && v == step.w {
      ReadIsAllowed(cfg, s0, steps, s, step);
    } else if w.phase.Decided? && w.phase.decision.Deliver? && w.entry.payload.messageId.Some? {
      assert v in s.works && s.works[v] == w && DecisionAllowed(cfg, s0, steps, s.works[v]);
      StillAllowed(cfg, s0, steps, step, w.entry.payload.messageId.value, w.phase.decision.to, w.phase.decision.body,
                   w.phase.decision.channel);
    }
  }

  lemma StepStaysAllowed(cfg: Config, s0: State, steps: seq<Step>, s: State, step: Step)
    requires Run(cfg, s0, steps, s) && AllAllowed(cfg, s0, steps, s) && Enabled(s, step)
    ensures Run(cfg, s0, steps + [step], Do(cfg, s, step))
    ensures AllAllowed(cfg, s0, steps + [step], Do(cfg, s, step))
  {
    RunSnoc(cfg, s0, steps, s, step);
    SendsStayAllowed(cfg, s0, steps, s, step);
    forall v | v in Do(cfg, s, step).works
      ensures DecisionAllowed(cfg, s0, steps + [step], Do(cfg, s, step).works[v])
    {
      DecisionsStayAllowed(cfg, s0, steps, s, step, v);
    }
  }

  lemma {:induction false} RunStaysAllowed(cfg: Config, s0: State, done: seq<Step>, s: State, steps: seq<Step>,
      s': State)
    requires Run(cfg, s0, done, s) && AllAllowed(cfg, s0, done, s) && Run(cfg, s, steps, s')
    ensures AllAllowed(cfg, s0, done + steps, s')
    decreases |steps|
  {
    if steps == [] {
      assert done + steps == done;
    } else {
      StepStaysAllowed(cfg, s0, done, s, steps[0]);
      RunStaysAllowed(cfg, s0, done + [steps[0]], Do(cfg, s, steps[0]), steps[1..], s');
      assert done + [steps[0]] + steps[1..] == done + steps;
    }
  }

  /**
   In every interleaving each provider call follows from one reading of its message: it went over WhatsApp
   if and only if that was the message's channel or preferred and the recipient had consented, the provider
   was set up and there was a phone, which it went to; otherwise by email, to the address given, else to the
   recipient's own.
   */
  lemma SendsFollowTheRecords(cfg: Config, now0: int, steps: seq<Step>, s: State, i: nat)
    requires Run(cfg, Init(now0), steps, s) && i < |s.sends|
    ensures Allowed(cfg, Init(now0), steps, s.sends[i].message, s.sends[i].to, s.sends[i].body, s.sends[i].channel)
  {
    RunStaysAllowed(cfg, Init(now0), [], Init(now0), steps, s);
    assert [] + steps == steps;
    assert SendAllowed(cfg, Init(now0), steps, s.sends[i]);
  }
}
