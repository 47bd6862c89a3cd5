/**
 The outbox table and the relay that publishes it: one batch as the source's loop, and all runs of
 any number of relay workers over a broker that may take a message without acknowledging it.
 */
module Outbox {
  import opened Events
  import opened Wrappers

  /** Unix milliseconds. */
  type Time = int

  const MAX_ATTEMPTS: nat := 10
  const SECOND: Time := 1000
  const MAX_BACKOFF: Time := 300 * SECOND
  const BATCH_SIZE: nat := 100

  datatype Delivery = Waiting | Sent | Failed

  /** An outbox row; its index in the table is its id and event id. */
  datatype Row = Row(event: Event, status: Delivery, retryCount: nat, nextRetryAt: Option<Time>, sentAt: Option<Time>)

  function NewRow(event: Event): Row {
    Row(event, Waiting, 0, None, None)
  }

  // ----- backoff -----

  function PowerOfTwo(n: nat): nat {
    if n == 0 then 1 else 2 * PowerOfTwo(n - 1)
  }

  /** The delay after the k-th failed attempt. */
  function Delay(attempts: nat): Time {
    var backoff := SECOND * PowerOfTwo(attempts);
    if backoff > MAX_BACKOFF then MAX_BACKOFF else backoff
  }

  /** None parks the event. */
  function NextRetryAt(now: Time, attempts: nat): Option<Time> {
    if attempts >= MAX_ATTEMPTS then None else Some(now + Delay(attempts))
  }

  lemma {:induction false} PowersGrow(m: nat, n: nat)
    requires m <= n
    ensures PowerOfTwo(m) <= PowerOfTwo(n)
  {
    if m < n { PowersGrow(m, n - 1); }
  }

  /** The delays never shrink: they double from two seconds, and from the ninth failure on are five minutes. */
  lemma DelaysGrow(m: nat, n: nat)
    requires m <= n
    ensures Delay(m) <= Delay(n) <= 300_000
    ensures n <= 8 ==> Delay(n) == 1000 * PowerOfTwo(n)
    ensures n >= 9 ==> Delay(n) == 300_000
  {
    PowersGrow(m, n);
    assert PowerOfTwo(8) == 256 && PowerOfTwo(9) == 512;
    if n <= 8 { PowersGrow(n, 8); } else { PowersGrow(9, n); }
  }

  /** The sum of the delays after failures from, from + 1, ..., to - 1. */
  function TotalDelay(from: nat, to: nat): Time {
    if from >= to then 0 else TotalDelay(from, to - 1) + Delay(to - 1)
  }

  lemma NineDelays()
    ensures TotalDelay(1, 10) == 810_000
  {
    DelaysGrow(9, 9);
    assert PowerOfTwo(4) == 16 && PowerOfTwo(8) == 256;
    assert Delay(1) == 2000 && Delay(2) == 4000 && Delay(3) == 8000 && Delay(4) == 16000;
    assert Delay(5) == 32000 && Delay(6) == 64000 && Delay(7) == 128000 && Delay(8) == 256000;
    assert TotalDelay(1, 3) == 6000 && TotalDelay(1, 5) == 30000 && TotalDelay(1, 7) == 126000
        && TotalDelay(1, 9) == 510000;
  }

  // ----- claiming -----

  /** The WHERE clause of the claim. */
  predicate Claimable(row: Row, now: Time) {
    || (row.status == Waiting && (row.nextRetryAt.None? || row.nextRetryAt.value <= now))
    || (row.status == Failed && row.nextRetryAt.Some? && row.nextRetryAt.value <= now)
  }

  /** Not sent, and with no retry time ahead: a failed row without one is parked. */
  predicate IsDue(row: Row, now: Time) {
    match row.nextRetryAt
    case None => row.status == Waiting
    case Some(at) => row.status != Sent && at <= now
  }

  /** Rows in id order from `from` on, skipping locked ones, at most `limit`. */
  function Claim(rows: seq<Row>, locked: set<nat>, now: Time, limit: nat, from: nat): (claimed: seq<nat>)
    requires from <= |rows|
    ensures |claimed| <= limit
    ensures forall i | 0 <= i < |claimed| ::
              from <= claimed[i] < |rows| && IsDue(rows[claimed[i]], now) && claimed[i] !in locked
    ensures forall i, j | 0 <= i < j < |claimed| :: claimed[i] < claimed[j]
    ensures forall r | from <= r < |rows| && IsDue(rows[r], now) && r !in locked && r !in claimed ::
              |claimed| == limit && forall i | 0 <= i < |claimed| :: claimed[i] < r
    decreases |rows| - from
  {
    if from == |rows| || limit == 0 then []
    else if Claimable(rows[from], now) && from !in locked then [from] + Claim(rows, locked, now, limit - 1, from + 1)
    else Claim(rows, locked, now, limit, from + 1)
  }

  // ----- settling a batch -----

  /** Publish answers one result per message, but a shorter answer counts as failures. */
  predicate Acked(acks: seq<bool>, i: nat) {
    i < |acks| && acks[i]
  }

  /** A claimed row after its attempt. */
  function Outcome(row: Row, acked: bool, now: Time): Row {
    if acked then row.(status := Sent, sentAt := Some(now), nextRetryAt := None)
    else row.(status := Failed, retryCount := row.retryCount + 1, nextRetryAt := NextRetryAt(now, row.retryCount + 1))
  }

  /** `ids` name distinct rows of a table of `n` rows. */
  predicate DistinctRows(ids: seq<nat>, n: nat) {
    && (forall i | 0 <= i < |ids| :: ids[i] < n)
    && (forall i, j | 0 <= i < j < |ids| :: ids[i] != ids[j])
  }

  /** How many of the first n results are acknowledgements. */
  function AckCount(acks: seq<bool>, n: nat): nat {
    if n == 0 then 0 else AckCount(acks, n - 1) + if Acked(acks, n - 1) then 1 else 0
  }

  /** The table after a batch is recorded. */
  ghost predicate Settled(before: seq<Row>, after: seq<Row>, claimed: seq<nat>, acks: seq<bool>, now: Time)
  {
    && DistinctRows(claimed, |before|) && |after| == |before|
    && (forall i | 0 <= i < |claimed| :: after[claimed[i]] == Outcome(before[claimed[i]], Acked(acks, i), now))
    && (forall r | 0 <= r < |before| && r !in claimed :: after[r] == before[r])
  }

  class OutboxTable {
    var rows: seq<Row>

    constructor ()
      ensures rows == []
    {
      rows := [];
    }

    /** The bulk update of the acknowledged rows. */
    method MarkSent(ids: seq<nat>, now: Time)
      modifies this
      ensures |rows| == |old(rows)|
      ensures forall r | 0 <= r < |rows| ::
                rows[r] == if r in ids then Outcome(old(rows)[r], true, now) else old(rows)[r]
    {
      var before := rows;
      rows := seq(|before|, r requires 0 <= r < |before| =>
        if r in ids then before[r].(status := Sent, sentAt := Some(now), nextRetryAt := None) else before[r]);
    }

    /** publishBatch: failures are recorded one by one, the acknowledged rows in one update at the end. */
    method PublishBatch(claimed: seq<nat>, acks: seq<bool>, now: Time) returns (sent: nat, failed: nat)
      requires DistinctRows(claimed, |rows|)
      modifies this
      ensures Settled(old(rows), rows, claimed, acks, now)
      ensures sent + failed == |claimed| && sent == AckCount(acks, |claimed|)
    {
      sent, failed := 0, 0;
      var sentIds := [];
      var events := rows;
      for i := 0 to |claimed|
        invariant |rows| == |events| && sent + failed == i && sent == AckCount(acks, i)
        invariant forall r | r in sentIds :: r in claimed
        invariant forall j | 0 <= j < |claimed| :: claimed[j] in sentIds <==> j < i && Acked(acks, j)
        invariant forall j | 0 <= j < |claimed| :: rows[claimed[j]] ==
                    if j < i && !Acked(acks, j) then Outcome(events[claimed[j]], false, now) else events[claimed[j]]
        invariant forall r | 0 <= r < |events| && r !in claimed :: rows[r] == events[r]
      {
        if Acked(acks, i) {
          sentIds := sentIds + [claimed[i]];
          sent := sent + 1;
          continue;
        }
        failed := failed + 1;
        var attempts := events[claimed[i]].retryCount + 1;
        rows := rows[claimed[i] := rows[claimed[i]].(
          status := Failed, retryCount := attempts, nextRetryAt := NextRetryAt(now, attempts))];
      }
      MarkSent(sentIds, now);
    }
  }
}
