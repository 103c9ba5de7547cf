/** To the millisecond: when a lease ends, when a failed run is due again, and what is left at the end. */
module QueueTiming {
  import opened Common
  import opened Outbox
  import opened Delivery

  /** A claimed row stays with its worker through the last millisecond of the lease and is released by the next. */
  lemma LeaseEndsToTheMillisecond(cfg: Config, row: Row, at: int, now: int)
    requires row.status == Pending
    ensures var claimed := ClaimRow(cfg, row, at);
            && claimed.status == Processing && claimed.lockedUntil == Some(at + cfg.leaseMs)
            && claimed.(status := row.status, lockedUntil := row.lockedUntil) == row
            && RecoverRow(claimed, now) ==
                 (if now > at + cfg.leaseMs then row.(lockedUntil := None) else claimed)
  {}

  /** Rows that are not leased are never touched by a recovery. */
  lemma OnlyLeasesAreRecovered(row: Row, now: int)
    requires row.status != Processing
    ensures RecoverRow(row, now) == row
  {}

  /** The minutes to wait after the n-th failed run. */
  const WAITS: seq<int> := [1, 2, 4, 8]

  /**
   After the n-th failed run a row is due again one, two, four and eight minutes later, to the millisecond,
   with its payload; the fifth failure ends it and drops the text.
   */
  lemma FailureBacksOff(row: Row, e: Entry, now: int, t: int)
    requires e.attempts < MAX_ATTEMPTS
    ensures var after, n := CompleteFail(PRODUCTION, row, e, now), e.attempts + 1;
            && after.attempts == n && after.lockedUntil.None? && after.topic == row.topic && after.key == row.key
            && (n < MAX_ATTEMPTS ==>
                  && after.status == Pending && after.payload == row.payload
                  && (after.Due(t) <==> t - now >= WAITS[n - 1] * 60_000))
            && (n == MAX_ATTEMPTS ==>
                  after.status == Failed && after.payload == e.payload.(body := None) && !after.Due(t))
  {
    assert Pow2(0) == 1 && Pow2(1) == 2 && Pow2(2) == 4 && Pow2(3) == 8;
  }

  /** A successful run counts, ends the row and drops the text. */
  lemma SuccessEnds(row: Row, e: Entry, t: int)
    ensures var after := CompleteOk(row, e);
            && after.status == Dispatched && after.attempts == row.attempts + 1 && after.lockedUntil.None?
            && after.payload == e.payload.(body := None) && after.topic == row.topic && after.key == row.key
            && !after.Due(t)
  {}

  /** A row takes its key for its own topic and for no other, and a row without a key takes none. */
  lemma KeysArePerTopic(rows: seq<Row>, row: Row, topic: Topic, key: Key)
    ensures KeyFree([], topic, Some(key))
    ensures KeyFree(rows + [row], topic, Some(key)) <==>
              KeyFree(rows, topic, Some(key)) && !(row.topic == topic && row.key == Some(key))
  {
    assert (rows + [row])[|rows|] == row;
    assert forall r | 0 <= r < |rows| :: (rows + [row])[r] == rows[r];
  }

  /** A fresh row is due from its first moment on. */
  lemma FreshRowIsDue(topic: Topic, payload: Payload, availableAt: int, key: Option<Key>, t: int)
    ensures var row := NewRow(topic, payload, availableAt, key);
            row.attempts == 0 && !row.Terminal() && (row.Due(t) <==> t >= availableAt)
  {}

  /** An enqueued entry is claimable from the moment asked for, and under the topic and key given. */
  lemma EnqueuedWhenAsked(cfg: Config, s: State, topic: Topic, availableAt: int, key: Option<Key>, t: int)
    requires Enabled(s, Enqueue(topic, availableAt, key))
    ensures var s' := Do(cfg, s, Enqueue(topic, availableAt, key));
            && |s'.rows| == |s.rows| + 1 && s' == s.(rows := s.rows + [s'.rows[|s.rows|]])
            && var row := s'.rows[|s.rows|];
               row.topic == topic && row.key == key && row.attempts == 0 && (row.Due(t) <==> t >= availableAt)
  {}
}
