/**
 The outbox row and the four statements that touch it: enqueue, lease recovery, claim, and the
 two completion writes. A `Config` carries the lease and the smallest backoff so that the
 exclusivity theorem can say exactly how the two numbers must relate.
 */
module Outbox {
  import opened Common

  const MAX_ATTEMPTS := 5
  const LEASE_MS := 60_000
  const BACKOFF_BASE_MS := 60_000

  datatype Config = Config(leaseMs: nat, backoffBaseMs: nat)

  const PRODUCTION := Config(LEASE_MS, BACKOFF_BASE_MS)

  datatype Topic = NotificationSend | RiskEvaluate | PaymentsLateCheck | WhatsappStatus

  /** The provider idempotency key. Two sends share a key only if they are for one message. */
  datatype Key = SendKey(messageId: nat) | NamedKey(name: string)

  datatype Payload = Payload(messageId: Option<nat>, toAddress: Option<string>, preferWhatsapp: bool,
    body: Option<string>)

  datatype Status = Pending | Processing | Dispatched | Failed

  datatype Row = Row(
    topic: Topic,
    payload: Payload,
    status: Status,
    attempts: nat,
    availableAt: int,
    lockedUntil: Option<int>,
    key: Option<Key>)
  {
    predicate Terminal() {
      status == Dispatched || status == Failed
    }

    /** The claim query's filter. */
    predicate Due(now: int) {
      status == Pending && availableAt <= now
    }
  }

  /** What a worker carries away from the claim: a snapshot, not the row. */
  datatype Entry = Entry(row: nat, topic: Topic, payload: Payload, attempts: nat, key: Option<Key>)

  /** Strips the transient secret from a payload that is about to be kept for good. */
  function ScrubTerminalPayload(p: Payload): Payload {
    p.(body := None)
  }

  function NewRow(topic: Topic, payload: Payload, availableAt: int, key: Option<Key>): Row {
    Row(topic, payload, Pending, 0, availableAt, None, key)
  }

  /** The unique (topic, idempotencyKey) index; absent keys never clash. */
  predicate KeyFree(rows: seq<Row>, topic: Topic, key: Option<Key>) {
    key.None? || forall r | 0 <= r < |rows| :: !(rows[r].topic == topic && rows[r].key == key)
  }

  function Pow2(n: nat): (p: nat)
    ensures p >= 1
  {
    if n == 0 then 1 else 2 * Pow2(n - 1)
  }

  /** Exponential backoff after the given completed attempt: base, 2 base, 4 base, ... */
  function Backoff(cfg: Config, attempts: nat): (ms: nat)
    requires attempts >= 1
    ensures ms >= cfg.backoffBaseMs
  {
    var p := Pow2(attempts - 1);
    assert cfg.backoffBaseMs * p >= cfg.backoffBaseMs;
    cfg.backoffBaseMs * p
  }

  function RecoverRow(row: Row, now: int): Row {
    if row.status == Processing && row.lockedUntil.Some? && row.lockedUntil.value < now then
      row.(status := Pending, lockedUntil := None)
    else
      row
  }

  function RecoverRows(rows: seq<Row>, now: int): (out: seq<Row>)
    ensures |out| == |rows|
  {
    seq(|rows|, i requires 0 <= i < |rows| => RecoverRow(rows[i], now))
  }

  function ClaimRow(cfg: Config, row: Row, now: int): Row {
    row.(status := Processing, lockedUntil := Some(now + cfg.leaseMs))
  }

  function EntryOf(rows: seq<Row>, r: nat): Entry
    requires r < |rows|
  {
    Entry(r, rows[r].topic, rows[r].payload, rows[r].attempts, rows[r].key)
  }

  /** The success write. It names the row by id only, so a worker that lost its lease still applies it. */
  function CompleteOk(row: Row, e: Entry): Row {
    row.(status := Dispatched, attempts := row.attempts + 1, lockedUntil := None,
      payload := ScrubTerminalPayload(e.payload))
  }

  /** The failure write: attempts come from the worker's snapshot, the payload is kept unless this is terminal. */
  function CompleteFail(cfg: Config, row: Row, e: Entry, now: int): Row {
    var attempts := e.attempts + 1;
    var failed := attempts >= MAX_ATTEMPTS;
    row.(status := if failed then Failed else Pending,
         attempts := attempts,
         lockedUntil := None,
         availableAt := now + Backoff(cfg, attempts),
         payload := if failed then ScrubTerminalPayload(e.payload) else row.payload)
  }
}
