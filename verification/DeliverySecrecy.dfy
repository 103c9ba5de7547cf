/**
 What the payload body can be, in every interleaving. No assumption on workers: they may crash,
 outlive their lease and write late.
 */
module DeliverySecrecy {
  import opened Common
  import opened Categories
  import opened Outbox
  import opened Notify
  import opened Delivery

  /** A payload of message m: the body is the caller's own text or nothing, and only a secret travels here. */
  ghost predicate PayloadFaithful(s: State, topic: Topic, p: Payload, key: Option<Key>) {
    if topic == NotificationSend then
      && p.messageId.Some? && p.messageId.value < |s.inputs|
      && key == Some(SendKey(p.messageId.value))
      && p.toAddress == s.inputs[p.messageId.value].toAddress
      && p.preferWhatsapp == s.inputs[p.messageId.value].preferWhatsapp
      && (p.body.Some? ==> p.body == Some(s.inputs[p.messageId.value].body) && s.inputs[p.messageId.value].Sensitive())
    else
      p.body.None?
  }

  ghost predicate RowFaithful(s: State, row: Row) {
    PayloadFaithful(s, row.topic, row.payload, row.key) && (row.Terminal() ==> row.payload.body.None?)
  }

  ghost predicate MessageFaithful(input: NotifyInput, m: Message) {
    && m.templateCode == input.templateCode
    && m.bodyRef == (if input.Sensitive() then RedactedBodyFor(input.templateCode) else input.body)
  }

  ghost predicate WorkFaithful(s: State, w: Work) {
    && PayloadFaithful(s, w.entry.topic, w.entry.payload, w.entry.key)
    && w.entry.row < |s.rows|
    && s.rows[w.entry.row].topic == w.entry.topic
    && s.rows[w.entry.row].key == w.entry.key
    && (w.phase.Decided? && w.phase.decision.Deliver? ==>
          w.entry.topic == NotificationSend && w.phase.decision.body == s.inputs[w.entry.payload.messageId.value].body)
  }

  ghost predicate SendFaithful(s: State, d: Send) {
    d.message < |s.inputs| && d.key == Some(SendKey(d.message)) && d.body == s.inputs[d.message].body
  }

  ghost predicate BodyInv(s: State) {
    && |s.messages| == |s.inputs|
    && (forall m | 0 <= m < |s.messages| :: MessageFaithful(s.inputs[m], s.messages[m]))
    && (forall r | 0 <= r < |s.rows| :: RowFaithful(s, s.rows[r]))
    && (forall w | w in s.works :: WorkFaithful(s, s.works[w]))
    && (forall i | 0 <= i < |s.sends| :: SendFaithful(s, s.sends[i]))
  }

  lemma BodyInvNotify(cfg: Config, s: State, input: NotifyInput)
    requires BodyInv(s) && Enabled(s, NotifyCall(input))
    ensures BodyInv(Do(cfg, s, NotifyCall(input)))
  {
    var s' := Do(cfg, s, NotifyCall(input));
    forall r | 0 <= r < |s'.rows| ensures RowFaithful(s', s'.rows[r]) {
      if r < |s.rows| { assert RowFaithful(s, s.rows[r]); }
    }
    forall w | w in s'.works ensures WorkFaithful(s', s'.works[w]) {
      assert WorkFaithful(s, s.works[w]);
    }
    forall i | 0 <= i < |s'.sends| ensures SendFaithful(s', s'.sends[i]) {
      assert SendFaithful(s, s.sends[i]);
    }
  }

  /** Steps on rows and clocks: the messages, their inputs and the sends stay. */
  lemma BodyInvRows(cfg: Config, s: State, step: Step)
    requires BodyInv(s) && Enabled(s, step)
    requires step.Tick? || step.Enqueue? || step.Recover? || step.ClaimOne? || step.Crash?
    ensures BodyInv(Do(cfg, s, step))
  {
    var s' := Do(cfg, s, step);
    forall r | 0 <= r < |s'.rows| ensures RowFaithful(s', s'.rows[r]) {
      if r < |s.rows| { assert RowFaithful(s, s.rows[r]); }
    }
    forall w | w in s'.works ensures WorkFaithful(s', s'.works[w]) {
      if w in s.works { assert WorkFaithful(s, s.works[w]); }
    }
    forall i | 0 <= i < |s'.sends| ensures SendFaithful(s', s'.sends[i]) {
      assert SendFaithful(s, s.sends[i]);
    }
  }

  lemma BodyInvComplete(cfg: Config, s: State, w: nat, ok: bool)
    requires BodyInv(s) && Enabled(s, Complete(w, ok))
    ensures BodyInv(Do(cfg, s, Complete(w, ok)))
  {
    var s' := Do(cfg, s, Complete(w, ok));
    assert WorkFaithful(s, s.works[w]);
    forall r | 0 <= r < |s'.rows| ensures RowFaithful(s', s'.rows[r]) {
      assert RowFaithful(s, s.rows[r]);
    }
    forall v | v in s'.works ensures WorkFaithful(s', s'.works[v]) {
      assert WorkFaithful(s, s.works[v]);
    }
    forall i | 0 <= i < |s'.sends| ensures SendFaithful(s', s'.sends[i]) {
      assert SendFaithful(s, s.sends[i]);
    }
  }

  lemma BodyInvRead(cfg: Config, s: State, w: nat, env: Env, otherOk: bool)
    requires BodyInv(s) && Enabled(s, Read(w, env, otherOk))
    ensures BodyInv(Do(cfg, s, Read(w, env, otherOk)))
  {
    var s' := Do(cfg, s, Read(w, env, otherOk));
    forall r | 0 <= r < |s'.rows| ensures RowFaithful(s', s'.rows[r]) {
      assert RowFaithful(s, s.rows[r]);
    }
    forall v | v in s'.works ensures WorkFaithful(s', s'.works[v]) {
      assert WorkFaithful(s, s.works[v]);
      if v == w && s.works[w].entry.topic == NotificationSend {
        var m := s.works[w].entry.payload.messageId.value;
        assert MessageFaithful(s.inputs[m], s.messages[m]);
      }
    }
    forall i | 0 <= i < |s'.sends| ensures SendFaithful(s', s'.sends[i]) {
      assert SendFaithful(s, s.sends[i]);
    }
  }

  /** Rows and inputs stay, messages keep template and stored body, no worker gains a delivery decision. */
  lemma BodyInvFrame(s: State, s': State)
    requires BodyInv(s)
    requires s'.rows == s.rows && s'.inputs == s.inputs && |s'.messages| == |s.messages|
    requires forall m | 0 <= m < |s.messages| ::
               s'.messages[m].templateCode == s.messages[m].templateCode
                 && s'.messages[m].bodyRef == s.messages[m].bodyRef
    requires forall w | w in s'.works ::
               w in s.works && s'.works[w].entry == s.works[w].entry
               && (s'.works[w].phase.Decided? ==> s'.works[w].phase == s.works[w].phase)
    requires |s.sends| <= |s'.sends|
    requires forall i | 0 <= i < |s'.sends| ::
               (i < |s.sends| && s'.sends[i] == s.sends[i]) || SendFaithful(s', s'.sends[i])
    ensures BodyInv(s')
  {
    forall m | 0 <= m < |s'.messages| ensures MessageFaithful(s'.inputs[m], s'.messages[m]) {
      assert MessageFaithful(s.inputs[m], s.messages[m]);
    }
    forall r | 0 <= r < |s'.rows| ensures RowFaithful(s', s'.rows[r]) {
      assert RowFaithful(s, s.rows[r]);
    }
    forall v | v in s'.works ensures WorkFaithful(s', s'.works[v]) {
      assert WorkFaithful(s, s.works[v]);
    }
    forall i | 0 <= i < |s'.sends| ensures SendFaithful(s', s'.sends[i]) {
      if i < |s.sends| { assert SendFaithful(s, s.sends[i]); }
    }
  }

  lemma BodyInvDeliver(cfg: Config, s: State, w: nat, ok: bool)
    requires BodyInv(s) && Enabled(s, Act(w, ok)) && s.works[w].phase.decision.Deliver?
    ensures BodyInv(Do(cfg, s, Act(w, ok)))
  {
    var s' := Do(cfg, s, Act(w, ok));
    assert WorkFaithful(s, s.works[w]);
    forall i | |s.sends| <= i < |s'.sends| ensures SendFaithful(s', s'.sends[i]) {}
    BodyInvFrame(s, s');
  }

  lemma BodyInvAct(cfg: Config, s: State, w: nat, ok: bool)
    requires BodyInv(s) && Enabled(s, Act(w, ok)) && !s.works[w].phase.decision.Deliver?
    ensures BodyInv(Do(cfg, s, Act(w, ok)))
  {
    BodyInvFrame(s, Do(cfg, s, Act(w, ok)));
  }

  lemma BodyInvStatus(cfg: Config, s: State, w: nat, ok: bool)
    requires BodyInv(s) && Enabled(s, WriteStatus(w, ok))
    ensures BodyInv(Do(cfg, s, WriteStatus(w, ok)))
  {
    BodyInvFrame(s, Do(cfg, s, WriteStatus(w, ok)));
  }

  lemma {:induction false} BodyInvRun(cfg: Config, s: State, steps: seq<Step>, s': State)
    requires BodyInv(s) && Run(cfg, s, steps, s')
    ensures BodyInv(s')
    decreases |steps|
  {
    if steps == [] {
    } else {
      var step := steps[0];
      if step.NotifyCall? { BodyInvNotify(cfg, s, step.input); }
      else if step.Complete? { BodyInvComplete(cfg, s, step.w, step.ok); }
      else if step.Read? { BodyInvRead(cfg, s, step.w, step.env, step.otherOk); }
      else if step.Act? && s.works[step.w].phase.decision.Deliver? { BodyInvDeliver(cfg, s, step.w, step.ok); }
      else if step.Act? { BodyInvAct(cfg, s, step.w, step.ok); }
      else if step.WriteStatus? { BodyInvStatus(cfg, s, step.w, step.ok); }
      else { BodyInvRows(cfg, s, step); }
      BodyInvRun(cfg, Do(cfg, s, step), steps[1..], s');
    }
  }

  /**
   In every interleaving: a finished row holds no body; a row's body is the caller's original
   text or absent; the message row of a secret stores only the placeholder; and every provider
   call carries the original text of its message, secret or not, under that message's own key.
   */
  lemma SecretsStayOffTheRecord(cfg: Config, s: State)
    requires Reachable(cfg, s)
    ensures |s.messages| == |s.inputs|
    ensures forall r | 0 <= r < |s.rows| :: s.rows[r].Terminal() ==> s.rows[r].payload.body.None?
    ensures forall r | 0 <= r < |s.rows| && s.rows[r].payload.body.Some? ::
              s.rows[r].payload.messageId.Some? && s.rows[r].payload.messageId.value < |s.inputs|
              && s.rows[r].payload.body == Some(s.inputs[s.rows[r].payload.messageId.value].body)
    ensures forall r | 0 <= r < |s.rows| && s.rows[r].topic == NotificationSend ::
              s.rows[r].payload.messageId.Some? && s.rows[r].payload.messageId.value < |s.inputs|
              && s.rows[r].payload.toAddress == s.inputs[s.rows[r].payload.messageId.value].toAddress
              && s.rows[r].payload.preferWhatsapp == s.inputs[s.rows[r].payload.messageId.value].preferWhatsapp
    ensures forall m | 0 <= m < |s.messages| && s.inputs[m].Sensitive() ::
              s.messages[m].bodyRef == RedactedBodyFor(s.inputs[m].templateCode)
    ensures forall i | 0 <= i < |s.sends| ::
              s.sends[i].message < |s.inputs|
              && s.sends[i].body == s.inputs[s.sends[i].message].body
              && s.sends[i].key == Some(SendKey(s.sends[i].message))
  {
    var now0: int, steps: seq<Step> :| Run(cfg, Init(now0), steps, s);
    BodyInvRun(cfg, Init(now0), steps, s);
    forall r | 0 <= r < |s.rows|
      ensures s.rows[r].Terminal() ==> s.rows[r].payload.body.None?
      ensures s.rows[r].payload.body.Some? ==>
                s.rows[r].payload.messageId.Some? && s.rows[r].payload.messageId.value < |s.inputs|
                && s.rows[r].payload.body == Some(s.inputs[s.rows[r].payload.messageId.value].body)
      ensures s.rows[r].topic == NotificationSend ==>
                s.rows[r].payload.messageId.Some? && s.rows[r].payload.messageId.value < |s.inputs|
                && s.rows[r].payload.toAddress == s.inputs[s.rows[r].payload.messageId.value].toAddress
                && s.rows[r].payload.preferWhatsapp == s.inputs[s.rows[r].payload.messageId.value].preferWhatsapp
    {
      assert RowFaithful(s, s.rows[r]);
    }
    forall i | 0 <= i < |s.sends| ensures SendFaithful(s, s.sends[i]) {}
  }
}
