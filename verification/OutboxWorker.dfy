/**
 One worker as the code runs it: the outbox and message tables are fields, a dispatch recovers
 expired leases, claims a batch and then handles and completes the entries one by one. The ghost
 field `proto` follows along in the interleaved protocol, so whatever is proved of every protocol
 run holds of these methods.
 */
module OutboxWorker {
  import opened Common
  import opened Categories
  import opened Outbox
  import opened Notify
  import opened Delivery
  import ChannelRules

  /** Everything a handler run learns from outside the database. */
  datatype Outside = Outside(env: Env, providerOk: bool, otherOk: bool, finishedAt: int)

  datatype NotifyError = SensitiveInApp

  ghost predicate Leads(cfg: Config, s: State, s': State) {
    exists steps: seq<Step> :: Run(cfg, s, steps, s')
  }

  lemma LeadsNowhere(cfg: Config, s: State)
    ensures Leads(cfg, s, s)
  {
    assert Run(cfg, s, [], s);
  }

  lemma LeadsStep(cfg: Config, s: State, mid: State, step: Step)
    requires Leads(cfg, s, mid) && Enabled(mid, step)
    ensures Leads(cfg, s, Do(cfg, mid, step))
  {
    var steps: seq<Step> :| Run(cfg, s, steps, mid);
    RunSnoc(cfg, s, steps, mid, step);
  }

  lemma {:induction false} RunAppend(cfg: Config, s: State, steps: seq<Step>, mid: State, more: seq<Step>, s': State)
    requires Run(cfg, s, steps, mid) && Run(cfg, mid, more, s')
    ensures Run(cfg, s, steps + more, s')
    decreases |more|
  {
    if more == [] {
      assert steps + more == steps;
    } else {
      RunSnoc(cfg, s, steps, mid, more[0]);
      RunAppend(cfg, s, steps + [more[0]], Do(cfg, mid, more[0]), more[1..], s');
      assert steps + [more[0]] + more[1..] == steps + more;
    }
  }

  lemma LeadsAppend(cfg: Config, s: State, mid: State, s': State)
    requires Leads(cfg, s, mid) && Leads(cfg, mid, s')
    ensures Leads(cfg, s, s')
  {
    var a: seq<Step> :| Run(cfg, s, a, mid);
    var b: seq<Step> :| Run(cfg, mid, b, s');
    RunAppend(cfg, s, a, mid, b, s');
  }

  // What one uninterrupted handler run does to the message table.

  function DecideEntry(messages: seq<Message>, e: Entry, o: Outside): Decision {
    if e.topic != NotificationSend then (if o.otherOk then Skip else Throw)
    else if e.payload.messageId.None? || e.payload.messageId.value >= |messages| then Skip
    else Decide(messages[e.payload.messageId.value], e.payload, o.env)
  }

  function HandledMessages(messages: seq<Message>, e: Entry, o: Outside): (out: seq<Message>)
    ensures |out| == |messages|
  {
    match DecideEntry(messages, e, o)
    case Skip => messages
    case Throw => messages
    case MarkFailed => SetMessageStatus(messages, e.payload.messageId, MessageFailed)
    case Deliver(_, _, channel) =>
      var m := e.payload.messageId.value;
      messages[m := messages[m].(channel := channel, status := if o.providerOk then Sent else MessageFailed)]
  }

  function HandledOk(messages: seq<Message>, e: Entry, o: Outside): bool {
    match DecideEntry(messages, e, o)
    case Throw => false
    case Deliver(_, _, _) => o.providerOk
    case _ => true
  }

  /** The message a call records: a secret leaves only its placeholder on it. */
  predicate RecordedAs(m: Message, input: NotifyInput) {
    && m.channel == input.channel && m.templateCode == input.templateCode
    && m.bodyRef == (if ChannelRules.Secret(m) then RedactedBodyFor(input.templateCode) else input.body)
    && m.status == (if input.channel == INAPP then Delivered else Queued)
  }

  /** The row that will send it: due at once, and the carrier of a secret's text. */
  predicate SendsMessage(row: Row, input: NotifyInput, id: nat, now: int) {
    && row.topic == NotificationSend && row.key == Some(SendKey(id)) && row.attempts == 0
    && row.status == Pending && row.availableAt == now && row.lockedUntil.None?
    && row.payload.messageId == Some(id) && row.payload.toAddress == input.toAddress
    && row.payload.preferWhatsapp == input.preferWhatsapp
    && row.payload.body == (if input.templateCode in {"auth_reset_v1", "proof_request_v1", "renewal_offer_v1"}
                            then Some(input.body) else None)
  }

  /** The entry names a message that is still queued. */
  predicate QueuedFor(messages: seq<Message>, e: Entry) {
    e.payload.messageId.Some? && e.payload.messageId.value < |messages|
    && messages[e.payload.messageId.value].status == Queued
  }

  /** What the handler does to a queued message is what the records say. */
  lemma HandledByRecords(messages: seq<Message>, e: Entry, o: Outside)
    requires e.topic == NotificationSend && QueuedFor(messages, e)
    ensures var id, after := e.payload.messageId.value, HandledMessages(messages, e, o);
            && after == messages[id := after[id]]
            && ChannelRules.Attempted(messages[id], after[id], HandledOk(messages, e, o), e.payload, o.env,
                                      o.providerOk)
  {
    ChannelRules.VerdictByRecords(messages[e.payload.messageId.value], e.payload, o.env);
  }

  /** A handler run taken alone is Read, Act and, after a provider call, WriteStatus. */
  lemma HandlerIsARun(cfg: Config, s: State, w: nat, o: Outside) returns (s': State)
    requires Enabled(s, Read(w, o.env, o.otherOk))
    ensures Leads(cfg, s, s')
    ensures s'.messages == HandledMessages(s.messages, s.works[w].entry, o)
    ensures s'.works == s.works[w := s.works[w].(phase := HandlerReturned(HandledOk(s.messages, s.works[w].entry, o)))]
    ensures s'.rows == s.rows && s'.claims == s.claims && s'.runs == s.runs && s'.now == s.now && s'.inputs == s.inputs
  {
    var e := s.works[w].entry;
    LeadsNowhere(cfg, s);
    LeadsStep(cfg, s, s, Read(w, o.env, o.otherOk));
    var s1 := Do(cfg, s, Read(w, o.env, o.otherOk));
    assert s1 == s.(works := s.works[w := s.works[w].(phase := Decided(DecideEntry(s.messages, e, o)))]);
    LeadsStep(cfg, s, s1, Act(w, o.providerOk));
    var s2 := Do(cfg, s1, Act(w, o.providerOk));
    if DecideEntry(s.messages, e, o).Deliver? {
      LeadsStep(cfg, s, s2, WriteStatus(w, o.providerOk));
      s' := Do(cfg, s2, WriteStatus(w, o.providerOk));
    } else {
      s' := s2;
    }
    assert s'.works == s.works[w := s.works[w].(phase := HandlerReturned(HandledOk(s.messages, e, o)))];
  }

  /** A batch in claim order: due rows, oldest first, nothing due left out that is older than a row taken. */
  ghost predicate IsDueBatch(rows: seq<Row>, now: int, batchSize: nat, ids: seq<nat>) {
    && |ids| <= batchSize
    && (forall i | 0 <= i < |ids| :: ids[i] < |rows| && rows[ids[i]].Due(now))
    && (forall i, j | 0 <= i < j < |ids| :: ids[i] != ids[j] && rows[ids[i]].availableAt <= rows[ids[j]].availableAt)
    && (forall r: nat | r < |rows| && rows[r].Due(now) && r !in ids ::
          |ids| == batchSize && forall i | 0 <= i < |ids| :: rows[ids[i]].availableAt <= rows[r].availableAt)
  }

  ghost predicate EntriesOf(rows: seq<Row>, ids: seq<nat>, entries: seq<Entry>) {
    && |entries| == |ids|
    && forall i | 0 <= i < |ids| :: ids[i] < |rows| && entries[i] == EntryOf(rows, ids[i])
  }

  function RowsOf(entries: seq<Entry>): seq<nat> {
    seq(|entries|, i requires 0 <= i < |entries| => entries[i].row)
  }

  ghost predicate LeasedBatch(cfg: Config, was: seq<Row>, rows: seq<Row>, ids: seq<nat>, now: int) {
    && |rows| == |was|
    && forall r: nat | r < |rows| :: rows[r] == if r in ids then ClaimRow(cfg, was[r], now) else was[r]
  }

  /** Claims numbered from `base` belong to this worker; those before `done` are finished, the rest untouched. */
  ghost predicate InFlight(was: map<nat, Work>, works: map<nat, Work>, base: nat, entries: seq<Entry>, done: nat,
      now: int) {
    && done <= |entries|
    && (forall w | w in was :: w < base)
    && (forall w: nat :: w in works <==> w in was || base + done <= w < base + |entries|)
    && (forall w | w in was :: works[w] == was[w])
    && (forall w | w in works && w >= base :: works[w] == Work(entries[w - base], now, Claimed))
  }

  lemma InFlightPush(was: map<nat, Work>, works: map<nat, Work>, works': map<nat, Work>, base: nat,
      entries: seq<Entry>, e: Entry, now: int)
    requires InFlight(was, works, base, entries, 0, now)
    requires works' == works[base + |entries| := Work(e, now, Claimed)]
    ensures InFlight(was, works', base, entries + [e], 0, now)
  {}

  /** One more row of the batch is leased, and its entry is the snapshot from before the claim. */
  lemma BatchPush(cfg: Config, was: seq<Row>, rows: seq<Row>, batch: seq<nat>, entries: seq<Entry>, now: int)
    requires |entries| < |batch| && batch[|entries|] < |rows| && batch[|entries|] !in batch[..|entries|]
    requires LeasedBatch(cfg, was, rows, batch[..|entries|], now) && EntriesOf(was, batch[..|entries|], entries)
    ensures var r := batch[|entries|];
            && LeasedBatch(cfg, was, rows[r := ClaimRow(cfg, rows[r], now)], batch[..|entries| + 1], now)
            && EntriesOf(was, batch[..|entries| + 1], entries + [EntryOf(rows, r)])
  {
    assert batch[..|entries| + 1] == batch[..|entries|] + [batch[|entries|]];
  }

  lemma InFlightPop(was: map<nat, Work>, works: map<nat, Work>, base: nat, entries: seq<Entry>, done: nat, now: int)
    requires InFlight(was, works, base, entries, done, now) && done < |entries|
    ensures InFlight(was, works - {base + done}, base, entries, done + 1, now)
    ensures base + done in works && works[base + done] == Work(entries[done], now, Claimed)
  {}

  lemma InFlightDone(was: map<nat, Work>, works: map<nat, Work>, base: nat, entries: seq<Entry>, now: int)
    requires InFlight(was, works, base, entries, |entries|, now)
    ensures works == was
  {}

  /** Due rows, oldest first, and no row left out is older than one taken. */
  ghost predicate OldestFirst(rows: seq<Row>, now: int, ids: seq<nat>) {
    && (forall i | 0 <= i < |ids| :: ids[i] < |rows| && rows[ids[i]].Due(now))
    && (forall i, j | 0 <= i < j < |ids| :: ids[i] != ids[j] && rows[ids[i]].availableAt <= rows[ids[j]].availableAt)
    && (forall i, r: nat | 0 <= i < |ids| && r < |rows| && rows[r].Due(now) && r !in ids ::
      rows[ids[i]].availableAt <= rows[r].availableAt)
  }

  lemma TakeOldest(rows: seq<Row>, now: int, ids: seq<nat>, best: nat)
    requires OldestFirst(rows, now, ids) && best < |rows| && rows[best].Due(now) && best !in ids
    requires forall r: nat | r < |rows| && rows[r].Due(now) && r !in ids ::
               rows[best].availableAt <= rows[r].availableAt
    ensures OldestFirst(rows, now, ids + [best])
  {}

  lemma RowsOfSnoc(runs: seq<nat>, entries: seq<Entry>, i: nat)
    requires i < |entries|
    ensures runs + RowsOf(entries[..i]) + [entries[i].row] == runs + RowsOf(entries[..i + 1])
  {
    assert RowsOf(entries[..i + 1]) == RowsOf(entries[..i]) + [entries[i].row];
  }

  class Worker {
    var rows: seq<Row>
    var messages: seq<Message>
    const cfg: Config
    ghost var proto: State

    ghost predicate Valid()
      reads this
    {
      && proto.rows == rows && proto.messages == messages
      && |proto.inputs| == |messages|
      && (forall w | w in proto.works :: w < |proto.claims| && proto.works[w].entry.row < |rows|)
    }

    constructor (cfg: Config, ghost now: int)
      ensures Valid() && this.cfg == cfg
      ensures rows == [] && messages == [] && proto == Init(now)
    {
      this.cfg := cfg;
      rows, messages := [], [];
      proto := Init(now);
    }

    /** Creates the message and, unless it is an in-app item, the one outbox row that will send it. */
    method Notify(input: NotifyInput, now: int) returns (r: Result<nat, NotifyError>)
      requires Valid() && now == proto.now
      modifies this
      ensures Valid() && Leads(cfg, old(proto), proto)
      ensures r.Err? <==> input.Sensitive() && input.channel == INAPP
      ensures r.Err? ==> rows == old(rows) && messages == old(messages)
      ensures r.Ok? ==> r.value == |old(messages)| && messages == old(messages) + [NewMessage(input)]
      ensures r.Ok? ==> rows == if input.channel == INAPP then old(rows)
                                else old(rows) + [NewSendRow(input, |old(messages)|, now)]
      ensures proto.inputs == if r.Ok? then old(proto.inputs) + [input] else old(proto.inputs)
      ensures r.Ok? ==> RecordedAs(messages[r.value], input)
      ensures r.Ok? && input.channel != INAPP ==>
                |rows| == |old(rows)| + 1 && SendsMessage(rows[|old(rows)|], input, r.value, now)
    {
      LeadsNowhere(cfg, proto);
      if input.Sensitive() && input.channel == INAPP { return Err(SensitiveInApp); }
      LeadsStep(cfg, proto, proto, NotifyCall(input));
      proto := Do(cfg, proto, NotifyCall(input));
      var id := |messages|;
      messages := messages + [NewMessage(input)];
      if input.channel != INAPP {
        rows := rows + [NewSendRow(input, id, now)];
      }
      r := Ok(id);
    }

    /** Releases every row whose lease has run out. */
    method RecoverExpired(now: int)
      requires Valid() && now == proto.now
      modifies this
      ensures Valid() && Leads(cfg, old(proto), proto)
      ensures rows == RecoverRows(old(rows), now) && messages == old(messages)
      ensures proto == old(proto).(rows := rows)
    {
      ghost var start := proto;
      var was := rows;
      var i := 0;
      while i < |rows|
        invariant 0 <= i <= |rows| == |was|
        invariant messages == old(messages) && proto == start
        invariant forall k | 0 <= k < |rows| :: rows[k] == if k < i then RecoverRow(was[k], now) else was[k]
      {
        rows := rows[i := RecoverRow(rows[i], now)];
        i := i + 1;
      }
      assert rows == RecoverRows(was, now);
      LeadsNowhere(cfg, proto);
      LeadsStep(cfg, proto, proto, Recover);
      proto := Do(cfg, proto, Recover);
    }

    /** The oldest due row not taken yet. */
    method OldestDue(now: int, taken: seq<nat>) returns (best: Option<nat>)
      ensures best.None? ==> forall r: nat | r < |rows| && rows[r].Due(now) :: r in taken
      ensures best.Some? ==> best.value < |rows| && rows[best.value].Due(now) && best.value !in taken
      ensures best.Some? ==> forall r: nat | r < |rows| && rows[r].Due(now) && r !in taken ::
                rows[best.value].availableAt <= rows[r].availableAt
    {
      best := None;
      var i := 0;
      while i < |rows|
        invariant 0 <= i <= |rows|
        invariant best.None? ==> forall r: nat | r < i && rows[r].Due(now) :: r in taken
        invariant best.Some? ==> best.value < i && rows[best.value].Due(now) && best.value !in taken
        invariant best.Some? ==> forall r: nat | r < i && rows[r].Due(now) && r !in taken ::
                    rows[best.value].availableAt <= rows[r].availableAt
      {
        if rows[i].Due(now) && i !in taken && (best.None? || rows[i].availableAt < rows[best.value].availableAt) {
          best := Some(i);
        }
        i := i + 1;
      }
    }

    method SelectDue(now: int, batchSize: nat) returns (ids: seq<nat>)
      ensures IsDueBatch(rows, now, batchSize, ids)
    {
      ids := [];
      var best: Option<nat> := OldestDue(now, ids);
      while |ids| < batchSize && best.Some?
        invariant |ids| <= batchSize
        invariant OldestFirst(rows, now, ids)
        invariant best.None? ==> forall r: nat | r < |rows| && rows[r].Due(now) :: r in ids
        invariant best.Some? ==> best.value < |rows| && rows[best.value].Due(now) && best.value !in ids
        invariant best.Some? ==> forall r: nat | r < |rows| && rows[r].Due(now) && r !in ids ::
                    rows[best.value].availableAt <= rows[r].availableAt
      {
        TakeOldest(rows, now, ids, best.value);
        ids := ids + [best.value];
        best := OldestDue(now, ids);
      }
    }

    /** Leases one due row to this worker. */
    method ClaimOneRow(r: nat, now: int) returns (e: Entry)
      requires Valid() && now == proto.now
      requires r < |rows| && rows[r].Due(now)
      modifies this
      ensures Valid() && Leads(cfg, old(proto), proto)
      ensures messages == old(messages) && e == EntryOf(old(rows), r)
      ensures rows == old(rows)[r := ClaimRow(cfg, old(rows)[r], now)]
      ensures proto.works == old(proto.works)[|old(proto.claims)| := Work(e, now, Claimed)]
      ensures |proto.claims| == |old(proto.claims)| + 1
      ensures proto.now == now && proto.inputs == old(proto.inputs) && proto.runs == old(proto.runs)
    {
      LeadsNowhere(cfg, proto);
      LeadsStep(cfg, proto, proto, ClaimOne(r));
      proto := Do(cfg, proto, ClaimOne(r));
      e := EntryOf(rows, r);
      rows := rows[r := ClaimRow(cfg, rows[r], now)];
    }

    /** Leases the selected rows one after the other within the claim's transaction. */
    method ClaimRows(batch: seq<nat>, now: int) returns (entries: seq<Entry>)
      requires Valid() && now == proto.now
      requires forall i | 0 <= i < |batch| :: batch[i] < |rows| && rows[batch[i]].Due(now)
      requires forall i, j | 0 <= i < j < |batch| :: batch[i] != batch[j]
      modifies this
      ensures Valid() && Leads(cfg, old(proto), proto)
      ensures messages == old(messages)
      ensures EntriesOf(old(rows), batch, entries) && LeasedBatch(cfg, old(rows), rows, batch, now)
      ensures proto.now == now && proto.runs == old(proto.runs)
      ensures |proto.claims| == |old(proto.claims)| + |entries|
      ensures InFlight(old(proto.works), proto.works, |old(proto.claims)|, entries, 0, now)
    {
      ghost var was := rows;
      ghost var start := proto;
      entries := [];
      LeadsNowhere(cfg, proto);
      while |entries| < |batch|
        invariant |entries| <= |batch|
        invariant Valid() && Leads(cfg, start, proto) && messages == old(messages)
        invariant proto.now == now && proto.runs == start.runs
        invariant LeasedBatch(cfg, was, rows, batch[..|entries|], now)
        invariant EntriesOf(was, batch[..|entries|], entries)
        invariant |proto.claims| == |start.claims| + |entries|
        invariant InFlight(start.works, proto.works, |start.claims|, entries, 0, now)
      {
        var r := batch[|entries|];
        assert rows[r] == was[r] by { assert r !in batch[..|entries|]; }
        BatchPush(cfg, was, rows, batch, entries, now);
        ghost var before := proto;
        var e := ClaimOneRow(r, now);
        LeadsAppend(cfg, start, before, proto);
        InFlightPush(start.works, before.works, proto.works, |start.claims|, entries, e, now);
        entries := entries + [e];
      }
      assert batch[..|entries|] == batch;
    }

    /** Picks the due batch, marks it as leased to this worker and returns the snapshots to work from. */
    method ClaimBatch(now: int, batchSize: nat) returns (entries: seq<Entry>, ghost ids: seq<nat>)
      requires Valid() && now == proto.now
      modifies this
      ensures Valid() && Leads(cfg, old(proto), proto)
      ensures messages == old(messages)
      ensures IsDueBatch(old(rows), now, batchSize, ids)
      ensures EntriesOf(old(rows), ids, entries) && LeasedBatch(cfg, old(rows), rows, ids, now)
      ensures proto.now == now && proto.runs == old(proto.runs)
      ensures |proto.claims| == |old(proto.claims)| + |entries|
      ensures InFlight(old(proto.works), proto.works, |old(proto.claims)|, entries, 0, now)
    {
      var batch := SelectDue(now, batchSize);
      ids := batch;
      entries := ClaimRows(batch, now);
    }

    /** The notification handler, and a stand-in for the handlers of the other topics. */
    method Handle(e: Entry, ghost w: nat, o: Outside) returns (ok: bool)
      requires Valid()
      requires w in proto.works && proto.works[w].phase == Claimed && proto.works[w].entry == e
      modifies this
      ensures Valid() && Leads(cfg, old(proto), proto)
      ensures messages == HandledMessages(old(messages), e, o) && rows == old(rows)
      ensures ok == HandledOk(old(messages), e, o)
      ensures proto.works == old(proto.works)[w := old(proto.works)[w].(phase := HandlerReturned(ok))]
      ensures proto.claims == old(proto.claims) && proto.runs == old(proto.runs) && proto.now == old(proto.now)
      ensures proto.inputs == old(proto.inputs)
    {
      ghost var s' := HandlerIsARun(cfg, proto, w, o);
      proto := s';
      ok := DeliverNotification(e, o);
    }

    /** Deliver a queued message through the channel its recipient allows, or mark it failed. */
    method DeliverNotification(e: Entry, o: Outside) returns (ok: bool)
      modifies `messages
      ensures messages == HandledMessages(old(messages), e, o)
      ensures ok == HandledOk(old(messages), e, o)
      ensures e.topic == NotificationSend && !QueuedFor(old(messages), e) ==> ok && messages == old(messages)
      ensures e.topic == NotificationSend && QueuedFor(old(messages), e) ==>
                var id := e.payload.messageId.value;
                && messages == old(messages)[id := messages[id]]
                && ChannelRules.Attempted(old(messages)[id], messages[id], ok, e.payload, o.env, o.providerOk)
    {
      if e.topic == NotificationSend && QueuedFor(messages, e) { HandledByRecords(messages, e, o); }
      if e.topic != NotificationSend { return o.otherOk; }
      if e.payload.messageId.None? || e.payload.messageId.value >= |messages| { return true; }
      var id := e.payload.messageId.value;
      var message := messages[id];
      if message.status != Queued { return true; }
      var sensitive := IsSensitiveTemplate(message.templateCode);
      if sensitive && e.payload.body.None? {
        messages := messages[id := message.(status := MessageFailed)];
        return true;
      }
      var channel := message.channel;
      if e.payload.preferWhatsapp { channel := WHATSAPP; }
      if channel == WHATSAPP && (!o.env.whatsappConfigured || !o.env.consented || !Truthy(o.env.phone)) {
        channel := EMAIL;
      }
      var to := if channel == WHATSAPP then o.env.phone else Coalesce(e.payload.toAddress, o.env.email);
      if !Truthy(to) {
        messages := messages[id := message.(status := MessageFailed)];
        return true;
      }
      if channel != EMAIL && channel != WHATSAPP { return false; }
      if channel != message.channel {
        messages := messages[id := messages[id].(channel := channel)];
      }
      messages := messages[id := messages[id].(status := if o.providerOk then Sent else MessageFailed)];
      ok := o.providerOk;
    }

    /** The completion write of entry e, at its own time. */
    method FinishEntry(e: Entry, ghost w: nat, ok: bool, now: int)
      requires Valid() && proto.now <= now
      requires w in proto.works && proto.works[w].phase == HandlerReturned(ok) && proto.works[w].entry == e
      modifies this
      ensures Valid() && Leads(cfg, old(proto), proto)
      ensures messages == old(messages)
      ensures e.row < |old(rows)|
      ensures rows == old(rows)[e.row := if ok then CompleteOk(old(rows)[e.row], e)
        else CompleteFail(cfg, old(rows)[e.row], e, now)]
      ensures proto.works == old(proto.works) - {w}
      ensures proto.claims == old(proto.claims) && proto.runs == old(proto.runs) + [e.row] && proto.now == now
      ensures proto.inputs == old(proto.inputs)
    {
      LeadsNowhere(cfg, proto);
      LeadsStep(cfg, proto, proto, Tick(now));
      proto := Do(cfg, proto, Tick(now));
      LeadsStep(cfg, old(proto), proto, Complete(w, ok));
      proto := Do(cfg, proto, Complete(w, ok));
      var row := rows[e.row];
      rows := rows[e.row := if ok then CompleteOk(row, e) else CompleteFail(cfg, row, e, now)];
    }

    /** Handles one claimed entry and writes its completion. */
    method RunEntry(e: Entry, ghost w: nat, o: Outside)
      requires Valid() && proto.now <= o.finishedAt
      requires w in proto.works && proto.works[w].phase == Claimed && proto.works[w].entry == e
      modifies this
      ensures Valid() && Leads(cfg, old(proto), proto)
      ensures e.row < |old(rows)| && messages == HandledMessages(old(messages), e, o)
      ensures rows == old(rows)[e.row := if HandledOk(old(messages), e, o) then CompleteOk(old(rows)[e.row], e)
                                         else CompleteFail(cfg, old(rows)[e.row], e, o.finishedAt)]
      ensures proto.works == old(proto.works) - {w}
      ensures proto.claims == old(proto.claims) && proto.runs == old(proto.runs) + [e.row] && proto.now == o.finishedAt
    {
      var ok := Handle(e, w, o);
      ghost var mid := proto;
      FinishEntry(e, w, ok, o.finishedAt);
      LeadsAppend(cfg, old(proto), mid, proto);
    }

    /** Works through the claimed entries in order. */
    method RunEntries(entries: seq<Entry>, claimedAt: int, outside: nat -> Outside, ghost was: map<nat, Work>,
        ghost base: nat)
      requires Valid() && InFlight(was, proto.works, base, entries, 0, claimedAt)
      requires proto.now <= outside(0).finishedAt
      requires forall i: nat, j: nat | i <= j :: outside(i).finishedAt <= outside(j).finishedAt
      modifies this
      ensures Valid() && Leads(cfg, old(proto), proto)
      ensures proto.works == was && proto.runs == old(proto.runs) + RowsOf(entries)
    {
      ghost var start := proto;
      LeadsNowhere(cfg, proto);
      var i := 0;
      while i < |entries|
        invariant i <= |entries|
        invariant Valid() && Leads(cfg, start, proto)
        invariant proto.runs == start.runs + RowsOf(entries[..i])
        invariant proto.now <= outside(i).finishedAt
        invariant InFlight(was, proto.works, base, entries, i, claimedAt)
      {
        ghost var before := proto;
        InFlightPop(was, proto.works, base, entries, i, claimedAt);
        RunEntry(entries[i], base + i, outside(i));
        LeadsAppend(cfg, start, before, proto);
        RowsOfSnoc(start.runs, entries, i);
        i := i + 1;
      }
      assert entries[..i] == entries;
      InFlightDone(was, proto.works, base, entries, claimedAt);
    }

    /**
     One dispatch: recover, claim, then handle and complete every claimed entry. It is a run of the
     protocol, it leaves no claim of its own in flight, and it completes exactly the due batch.
     */
    method DispatchPending(now: int, batchSize: nat, outside: nat -> Outside)
      returns (processed: nat, ghost ids: seq<nat>)
      requires Valid() && now == proto.now
      requires now <= outside(0).finishedAt
      requires forall i: nat, j: nat | i <= j :: outside(i).finishedAt <= outside(j).finishedAt
      modifies this
      ensures Valid() && Leads(cfg, old(proto), proto)
      ensures IsDueBatch(RecoverRows(old(rows), now), now, batchSize, ids)
      ensures processed == |ids| && proto.runs == old(proto.runs) + ids
      ensures proto.works == old(proto.works)
    {
      RecoverExpired(now);
      ghost var mid := proto;
      var entries: seq<Entry>;
      entries, ids := ClaimBatch(now, batchSize);
      LeadsAppend(cfg, old(proto), mid, proto);
      assert RowsOf(entries) == ids;
      ghost var claimed := proto;
      RunEntries(entries, now, outside, mid.works, |mid.claims|);
      LeadsAppend(cfg, old(proto), claimed, proto);
      processed := |entries|;
    }
  }
}
