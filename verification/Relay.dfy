/**
 All runs of the outbox relay: any number of workers, each claiming a batch under row locks,
 publishing it, and then either recording the outcome or crashing before the commit.  A message may
 reach the broker without an acknowledgement, late, or more than once.
 */
module Relay {
  import opened Events
  import opened Wrappers
  import opened Outbox

  /** A claim transaction that is still open; its rows are locked. */
  datatype Batch = Batch(now: Time, claimed: seq<nat>)

  /**
   The table, the open claims by worker, the rows ever handed to the broker, the broker's partition
   logs (row ids in the order they landed), and for each row the times of its committed failures.
   */
  datatype State = State(
    rows: seq<Row>,
    open: map<nat, Batch>,
    offered: set<nat>,
    logs: seq<seq<nat>>,
    failures: seq<seq<Time>>)

  datatype Action =
    | Enqueue(event: Event)
    | Begin(worker: nat, now: Time, limit: nat)
    | Land(row: nat, partition: nat)
    | Commit(worker: nat, acks: seq<bool>)
    | Crash(worker: nat)

  ghost predicate Landed(logs: seq<seq<nat>>, r: nat) {
    exists p :: 0 <= p < |logs| && r in logs[p]
  }

  ghost function Locked(s: State): set<nat> {
    set w, i | w in s.open && 0 <= i < |s.open[w].claimed| :: s.open[w].claimed[i]
  }

  /** Failures are noted for the claimed rows that were not acknowledged. */
  ghost predicate Noted(before: seq<seq<Time>>, after: seq<seq<Time>>, claimed: seq<nat>, acks: seq<bool>, now: Time)
  {
    && DistinctRows(claimed, |before|) && |after| == |before|
    && (forall i | 0 <= i < |claimed| ::
          after[claimed[i]] == before[claimed[i]] + if Acked(acks, i) then [] else [now])
    && (forall r | 0 <= r < |before| && r !in claimed :: after[r] == before[r])
  }

  /** A commit by `batch`'s owner; only messages that reached the broker are acknowledged. */
  ghost predicate Committed(s: State, worker: nat, acks: seq<bool>, next: State) {
    && worker in s.open
    && var batch := s.open[worker];
    && (forall i | 0 <= i < |batch.claimed| :: Acked(acks, i) ==> Landed(s.logs, batch.claimed[i]))
    && Settled(s.rows, next.rows, batch.claimed, acks, batch.now)
    && Noted(s.failures, next.failures, batch.claimed, acks, batch.now)
    && next == s.(rows := next.rows, failures := next.failures, open := s.open - {worker})
  }

  ghost predicate Step(s: State, action: Action, next: State) {
    match action
    case Enqueue(event) => next == s.(rows := s.rows + [NewRow(event)], failures := s.failures + [[]])
    case Begin(worker, now, limit) =>
      && worker !in s.open
      && var claimed := Claim(s.rows, Locked(s), now, limit, 0);
      next == s.(open := s.open[worker := Batch(now, claimed)], offered := s.offered + set r | r in claimed)
    case Land(row, partition) =>
      row in s.offered && partition < |s.logs| && next == s.(logs := s.logs[partition := s.logs[partition] + [row]])
    case Commit(worker, acks) => Committed(s, worker, acks, next)
    case Crash(worker) => next == s.(open := s.open - {worker})
  }

  ghost predicate Initial(s: State) {
    s == State([], map[], {}, s.logs, []) && forall p | 0 <= p < |s.logs| :: s.logs[p] == []
  }

  // ----- the invariant -----

  predicate Parked(row: Row) {
    row.status == Failed && row.nextRetryAt.None?
  }

  /** Each attempt after the first waited out the backoff of the one before. */
  ghost predicate Spaced(failures: seq<Time>) {
    forall k | 0 < k < |failures| :: failures[k] >= failures[k - 1] + Delay(k)
  }

  ghost predicate RowOk(row: Row, landed: bool, failures: seq<Time>) {
    && row.retryCount == |failures| <= MAX_ATTEMPTS
    && Spaced(failures)
    && match row.status
       case Waiting => failures == [] && row.nextRetryAt.None?
       case Sent => landed && row.nextRetryAt.None? && row.sentAt.Some? && |failures| < MAX_ATTEMPTS
       case Failed => failures != [] && row.nextRetryAt == NextRetryAt(failures[|failures| - 1], |failures|)
  }

  ghost predicate RowAt(s: State, r: nat) {
    r < |s.rows| && r < |s.failures| ==> RowOk(s.rows[r], Landed(s.logs, r), s.failures[r])
  }

  /** The rows of an open claim are still as claimable as when they were locked. */
  ghost predicate BatchAt(s: State, w: nat) {
    w in s.open ==>
      && DistinctRows(s.open[w].claimed, |s.rows|)
      && forall i | 0 <= i < |s.open[w].claimed| :: Claimable(s.rows[s.open[w].claimed[i]], s.open[w].now)
  }

  ghost predicate Disjoint(s: State, v: nat, w: nat) {
    v in s.open && w in s.open && v != w ==> forall r | r in s.open[v].claimed :: r !in s.open[w].claimed
  }

  ghost predicate Inv(s: State) {
    && |s.failures| == |s.rows|
    && (forall r: nat :: RowAt(s, r))
    && (forall w: nat :: BatchAt(s, w))
    && (forall v: nat, w: nat :: Disjoint(s, v, w))
    && (forall r | r in s.offered :: r < |s.rows|)
    && (forall p, o | 0 <= p < |s.logs| && 0 <= o < |s.logs[p]| :: s.logs[p][o] in s.offered)
  }

  /** What never changes back: sent and parked rows are final, failures and logs only grow. */
  ghost predicate RowLater(s: State, next: State, r: nat) {
    r < |s.rows| && r < |s.failures| ==>
      && r < |next.rows| && r < |next.failures|
      && next.rows[r].event == s.rows[r].event
      && (s.rows[r].status == Sent || Parked(s.rows[r]) ==> next.rows[r] == s.rows[r])
      && s.failures[r] <= next.failures[r]
  }

  ghost predicate LogLater(s: State, next: State, p: nat) {
    p < |s.logs| ==> p < |next.logs| && s.logs[p] <= next.logs[p]
  }

  ghost predicate Later(s: State, next: State) {
    && |s.rows| <= |next.rows| && |s.logs| == |next.logs|
    && (forall r: nat :: RowLater(s, next, r))
    && (forall p: nat :: LogLater(s, next, p))
  }

  // ----- every step keeps it -----

  /** The steps that leave the rows of the table alone: enqueue, land and crash. */
  lemma QuietKeeps(s: State, action: Action, next: State)
    requires Inv(s) && Step(s, action, next) && (action.Enqueue? || action.Land? || action.Crash?)
    ensures Inv(next) && Later(s, next)
  {
    forall r: nat ensures RowAt(next, r) && RowLater(s, next, r) {
      assert RowAt(s, r);
      if p :| 0 <= p < |s.logs| && r in s.logs[p] { assert r in next.logs[p]; }
    }
    forall w: nat ensures BatchAt(next, w) { assert BatchAt(s, w); }
    forall v: nat, w: nat ensures Disjoint(next, v, w) { assert Disjoint(s, v, w); }
    forall p: nat ensures LogLater(s, next, p) {}
  }

  lemma BeginKeeps(s: State, worker: nat, now: Time, limit: nat, next: State)
    requires Inv(s) && Step(s, Begin(worker, now, limit), next)
    ensures Inv(next) && Later(s, next)
  {
    var claimed := Claim(s.rows, Locked(s), now, limit, 0);
    forall r: nat ensures RowAt(next, r) && RowLater(s, next, r) { assert RowAt(s, r); }
    forall w: nat ensures BatchAt(next, w) { assert BatchAt(s, w); }
    forall v: nat, w: nat ensures Disjoint(next, v, w) {
      assert Disjoint(s, v, w);
      forall u, r | u in s.open && r in s.open[u].claimed ensures r in Locked(s) && r !in claimed {
        var i :| 0 <= i < |s.open[u].claimed| && s.open[u].claimed[i] == r;
      }
    }
    forall p: nat ensures LogLater(s, next, p) {}
  }

  /** A claimable row is neither sent nor parked, and its attempt leaves a row that is accounted for. */
  lemma AttemptKeeps(row: Row, landed: bool, failures: seq<Time>, acked: bool, now: Time)
    requires RowOk(row, landed, failures) && Claimable(row, now) && (acked ==> landed)
    ensures row.status != Sent && !Parked(row)
    ensures RowOk(Outcome(row, acked, now), landed, failures + if acked then [] else [now])
  {
    if !acked {
      var more := failures + [now];
      forall k | 0 < k < |more| ensures more[k] >= more[k - 1] + Delay(k) {
        if k < |failures| { assert failures[k] >= failures[k - 1] + Delay(k); }
      }
    } else {
      assert failures + [] == failures;
    }
  }

  lemma CommitKeeps(s: State, worker: nat, acks: seq<bool>, next: State)
    requires Inv(s) && Step(s, Commit(worker, acks), next)
    ensures Inv(next) && Later(s, next)
  {
    var batch := s.open[worker];
    assert BatchAt(s, worker);
    forall r: nat ensures RowAt(next, r) && RowLater(s, next, r) {
      assert RowAt(s, r);
      if r in batch.claimed {
        var i :| 0 <= i < |batch.claimed| && batch.claimed[i] == r;
        AttemptKeeps(s.rows[r], Landed(s.logs, r), s.failures[r], Acked(acks, i), batch.now);
      }
    }
    forall w: nat ensures BatchAt(next, w) {
      assert BatchAt(s, w) && Disjoint(s, w, worker);
    }
    forall v: nat, w: nat ensures Disjoint(next, v, w) { assert Disjoint(s, v, w); }
    forall p: nat ensures LogLater(s, next, p) {}
  }

  lemma StepKeeps(s: State, action: Action, next: State)
    requires Inv(s) && Step(s, action, next)
    ensures Inv(next) && Later(s, next)
  {
    match action
    case Enqueue(_) => QuietKeeps(s, action, next);
    case Begin(worker, now, limit) => BeginKeeps(s, worker, now, limit, next);
    case Land(_, _) => QuietKeeps(s, action, next);
    case Commit(worker, acks) => CommitKeeps(s, worker, acks, next);
    case Crash(_) => QuietKeeps(s, action, next);
  }

  // ----- runs -----

  ghost predicate Reaches(s: State, next: State) {
    exists action :: Step(s, action, next)
  }

  ghost predicate Run(states: seq<State>) {
    && |states| > 0 && Initial(states[0])
    && forall i | 0 < i < |states| :: Reaches(states[i - 1], states[i])
  }

  lemma InitialHolds(s: State)
    requires Initial(s)
    ensures Inv(s)
  {
    forall r: nat ensures RowAt(s, r) {}
    forall w: nat ensures BatchAt(s, w) {}
    forall v: nat, w: nat ensures Disjoint(s, v, w) {}
  }

  lemma ReachesKeeps(s: State, next: State)
    requires Inv(s) && Reaches(s, next)
    ensures Inv(next) && Later(s, next)
  {
    var action :| Step(s, action, next);
    StepKeeps(s, action, next);
  }

  lemma {:induction false} RunKeeps(states: seq<State>, i: nat, j: nat)
    requires Run(states) && i <= j < |states|
    ensures Inv(states[i]) && Inv(states[j]) && Later(states[i], states[j])
    decreases j, i
  {
    if i < j {
      RunKeeps(states, i, j - 1);
      ReachesKeeps(states[j - 1], states[j]);
      forall r: nat ensures RowLater(states[i], states[j], r) {
        assert RowLater(states[i], states[j - 1], r) && RowLater(states[j - 1], states[j], r);
      }
      forall p: nat ensures LogLater(states[i], states[j], p) {
        assert LogLater(states[i], states[j - 1], p) && LogLater(states[j - 1], states[j], p);
      }
    } else {
      if i == 0 {
        InitialHolds(states[0]);
      } else {
        RunKeeps(states, i - 1, i - 1);
        ReachesKeeps(states[i - 1], states[i]);
      }
      forall r: nat ensures RowLater(states[i], states[i], r) {}
      forall p: nat ensures LogLater(states[i], states[i], p) {}
    }
  }

  // ----- what the relay promises -----

  /**
   No event is lost: its row is sent and in the broker's log, or parked after ten failures, or it
   is claimable at every time from its retry time on.
   */
  lemma NothingIsLost(states: seq<State>, k: nat, r: nat)
    requires Run(states) && k < |states| && r < |states[k].rows|
    ensures var row := states[k].rows[r];
            match row.status
            case Sent => Landed(states[k].logs, r)
            case Failed => if row.nextRetryAt.None? then row.retryCount == 10
                           else forall t :: IsDue(row, t) && Claimable(row, t) <==> row.nextRetryAt.value <= t
            case Waiting => forall t :: IsDue(row, t) && Claimable(row, t)
  {
    RunKeeps(states, k, k);
    assert RowAt(states[k], r);
  }

  /** Sent and parked are absorbing, events are never rewritten, and the broker's logs only grow. */
  lemma SentAndParkedAreFinal(states: seq<State>, i: nat, j: nat, r: nat)
    requires Run(states) && i <= j < |states| && r < |states[i].rows|
    ensures r < |states[j].rows| && states[j].rows[r].event == states[i].rows[r].event
    ensures states[i].rows[r].status == Sent ==> states[j].rows[r] == states[i].rows[r] && Landed(states[j].logs, r)
    ensures Parked(states[i].rows[r]) ==> states[j].rows[r] == states[i].rows[r]
  {
    RunKeeps(states, i, j);
    assert RowLater(states[i], states[j], r) && RowAt(states[j], r) && RowAt(states[i], r);
  }

  /** Two workers never hold the same row. */
  lemma WorkersAreDisjoint(states: seq<State>, k: nat, v: nat, w: nat, r: nat)
    requires Run(states) && k < |states| && v in states[k].open && w in states[k].open
    requires r in states[k].open[v].claimed && r in states[k].open[w].claimed
    ensures v == w && r < |states[k].rows| && states[k].rows[r].status != Sent
  {
    RunKeeps(states, k, k);
    assert Disjoint(states[k], v, w) && BatchAt(states[k], v);
    var i :| 0 <= i < |states[k].open[v].claimed| && states[k].open[v].claimed[i] == r;
  }

  lemma {:induction false} SpacedSpan(failures: seq<Time>, n: nat)
    requires Spaced(failures) && 0 < n <= |failures|
    ensures failures[n - 1] - failures[0] >= TotalDelay(1, n)
  {
    if n > 1 { SpacedSpan(failures, n - 1); }
  }

  /**
   An event is parked exactly when its tenth attempt failed, it is never attempted again after that,
   and the tenth failure comes no sooner than 810 seconds after the first.
   */
  lemma ParkedAfterTenFailures(states: seq<State>, k: nat, r: nat)
    requires Run(states) && k < |states| && r < |states[k].rows|
    ensures r < |states[k].failures|
    ensures var row, failures := states[k].rows[r], states[k].failures[r];
            && row.retryCount == |failures| <= 10
            && (Parked(row) <==> |failures| == 10)
            && (|failures| == 10 ==> failures[9] - failures[0] >= 810_000)
  {
    RunKeeps(states, k, k);
    assert RowAt(states[k], r);
    var failures := states[k].failures[r];
    if |failures| == MAX_ATTEMPTS {
      SpacedSpan(failures, MAX_ATTEMPTS);
      NineDelays();
    }
  }

  // ----- a run that sends -----

  /** One event is enqueued, claimed, landed and acknowledged. */
  function Sending(event: Event, n: nat): State {
    match n
    case 0 => State([], map[], {}, [[]], [])
    case 1 => State([NewRow(event)], map[], {}, [[]], [[]])
    case 2 => State([NewRow(event)], map[3 := Batch(7, [0])], {0}, [[]], [[]])
    case 3 => State([NewRow(event)], map[3 := Batch(7, [0])], {0}, [[0]], [[]])
    case _ => State([Row(event, Sent, 0, None, Some(7))], map[], {0}, [[0]], [[]])
  }

  lemma SendingClaims(event: Event)
    ensures Step(Sending(event, 0), Enqueue(event), Sending(event, 1))
    ensures Step(Sending(event, 1), Begin(3, 7, 100), Sending(event, 2))
  {
    var rows := Sending(event, 1).rows;
    assert Claim(rows, {}, 7, 99, 1) == [];
    assert Claim(rows, {}, 7, 100, 0) == [0];
    assert Locked(Sending(event, 1)) == {};
    assert {} + (set r | r in [0]) == {0};
  }

  lemma SendingCommits(event: Event)
    ensures Step(Sending(event, 2), Land(0, 0), Sending(event, 3))
    ensures Step(Sending(event, 3), Commit(3, [true]), Sending(event, 4))
  {
    assert Sending(event, 2).logs[0] + [0] == [0];
    assert Landed(Sending(event, 3).logs, 0) by { assert 0 in Sending(event, 3).logs[0]; }
    assert Sending(event, 3).open - {3} == map[];
  }

  /** So the relay does send: there is a run that ends with the event sent, in the log once, and no row held. */
  lemma AnEventIsSent(event: Event) returns (states: seq<State>)
    ensures Run(states) && |states| == 5
    ensures states[4].rows == [Row(event, Sent, 0, None, Some(7))] && states[4].logs == [[0]] && states[4].open == map[]
  {
    SendingClaims(event);
    SendingCommits(event);
    states := seq(5, (n: nat) => Sending(event, n));
    assert Reaches(states[0], states[1]) && Reaches(states[1], states[2]);
    assert Reaches(states[2], states[3]) && Reaches(states[3], states[4]);
  }
}
