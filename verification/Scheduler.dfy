/**
 The periodic jobs, running while nobody else writes: one tick of the status sync, and ticks of the
 approval timeout.  (Module Protocol lets the same steps interleave with everything else.)
 */
module Scheduler {
  import opened Model
  import opened Transactions
  import opened Services
  import opened Invariants
  import opened ActivityChanges
  import opened StaleReads
  import opened Transitions
  import opened Database

  // ----- time based activity statuses -----

  /** The status an activity has after a tick at `now`: finished from its end on, ongoing from its start. */
  function StatusAt(activity: Activity, now: Time): ActivityStatus {
    if (activity.status == Published || activity.status == Ongoing) && activity.form.end <= now then Finished
    else if activity.status == Published && activity.form.start <= now then Ongoing
    else activity.status
  }

  /** A tick over the activities `ids`, in the order the SELECT returns them. */
  function SyncTick(db: Db, ids: seq<Id>, now: Time): Db {
    SyncTx(db, SyncCandidates(db, ids, now), now)
  }

  /** Activity `a` after a tick: at its time based status if the tick has reached it. */
  ghost predicate SyncedAt(was: map<Id, Activity>, after: map<Id, Activity>, reached: bool, now: Time, a: Id) {
    a in was ==>
      && a in after && after[a].form == was[a].form
      && after[a].status == if reached then StatusAt(was[a], now) else was[a].status
  }

  /** One more id: either the prefilter hides it, and rightly so, or its row is synced. */
  lemma SyncTickStep(db: Db, ids: seq<Id>, now: Time, last: Id)
    ensures SyncTick(db, ids + [last], now)
            == if last in db.activities && TimedCandidate(db.activities[last], now)
               then SyncOne(SyncTick(db, ids, now), last, db.activities[last], now) else SyncTick(db, ids, now)
  {
    assert (ids + [last])[..|ids|] == ids;
    var rows := SyncCandidates(db, ids, now);
    if last in db.activities && TimedCandidate(db.activities[last], now) {
      assert (rows + [(last, db.activities[last])])[..|rows|] == rows;
    }
  }

  lemma SyncOneEffect(was: map<Id, Activity>, db: Db, ids: seq<Id>, last: Id, now: Time, next: Db, a: Id)
    requires forall a: Id :: SyncedAt(was, db.activities, a in ids, now, a)
    requires next == if last in was && TimedCandidate(was[last], now) then SyncOne(db, last, was[last], now) else db
    ensures SyncedAt(was, next.activities, a in ids + [last], now, a)
  {
    assert SyncedAt(was, db.activities, a in ids, now, a);
  }

  /** A tick moves every activity to its time based status, the prefilter hiding none. */
  lemma {:induction false} SyncTickEffect(db: Db, ids: seq<Id>, now: Time, a: Id)
    requires a in db.activities
    ensures SyncedAt(db.activities, SyncTick(db, ids, now).activities, a in ids, now, a)
  {
    if ids != [] {
      var fewer, last := ids[..|ids| - 1], ids[|ids| - 1];
      assert ids == fewer + [last];
      forall k: Id ensures SyncedAt(db.activities, SyncTick(db, fewer, now).activities, k in fewer, now, k) {
        if k in db.activities { SyncTickEffect(db, fewer, now, k); }
      }
      SyncTickStep(db, fewer, now, last);
      SyncOneEffect(db.activities, SyncTick(db, fewer, now), fewer, last, now, SyncTick(db, ids, now), a);
    }
  }

  /** Ticks at `t1` and then at `t2` leave every activity in the status one tick at `t2` alone would. */
  lemma TwoTicksAreOne(db: Db, ids: seq<Id>, ids': seq<Id>, t1: Time, t2: Time, a: Id)
    requires t1 <= t2 && a in db.activities && a in ids && a in ids'
    ensures a in SyncTick(db, ids', t2).activities && a in SyncTick(SyncTick(db, ids, t1), ids', t2).activities
    ensures SyncTick(SyncTick(db, ids, t1), ids', t2).activities[a].status
        == SyncTick(db, ids', t2).activities[a].status
    ensures StatusAt(SyncTick(db, ids', t2).activities[a], t2) == SyncTick(db, ids', t2).activities[a].status
  {
    SyncTickEffect(db, ids, t1, a);
    SyncTickEffect(SyncTick(db, ids, t1), ids', t2, a);
    SyncTickEffect(db, ids', t2, a);
  }

  // ----- approval timeouts -----

  /** How many overdue registrations one tick handles. */
  const EXPIRY_LIMIT: nat := 200

  /** The pending registrations whose deadline has passed. */
  function Due(registrations: map<Id, Registration>, now: Time): set<Id> {
    set r | r in registrations && registrations[r].status == Pending && registrations[r].active
            && registrations[r].expiresAt.Some? && registrations[r].expiresAt.value <= now
  }

  predicate Distinct(rows: seq<Id>) {
    forall i, j | 0 <= i < j < |rows| :: rows[i] != rows[j]
  }

  function Members(rows: seq<Id>): set<Id> {
    set r | r in rows
  }

  function Least(x: nat, y: nat): nat {
    if x < y then x else y
  }

  /** What ListExpiredPending may answer: overdue rows, at most the limit, none due later than one left out. */
  ghost predicate Listing(registrations: map<Id, Registration>, now: Time, rows: seq<Id>) {
    && Members(rows) <= Due(registrations, now)
    && Distinct(rows)
    && |rows| == Least(EXPIRY_LIMIT, |Due(registrations, now)|)
    && (forall q, r | q in Due(registrations, now) && q in rows && r in Due(registrations, now) && r !in rows ::
          registrations[q].expiresAt.value <= registrations[r].expiresAt.value)
  }

  /** One round of the loop: the state after it and whether it counts as expired. */
  ghost function ExpireOne(read: Db, db: Db, r: Id, now: Time): (Db, nat) {
    match ApplyPrepared(db, PrepareExpire(read, db, r, now))
    case Ok(next) => (next, 1)
    case Err(_) => (db, 0)
  }

  /** The loop over the rows listed in `read`: the final state and the number reported. */
  ghost function ExpireRows(read: Db, rows: seq<Id>, now: Time): (Db, nat) {
    if rows == [] then (read, 0)
    else
      var (db, count) := ExpireRows(read, rows[..|rows| - 1], now);
      var (next, more) := ExpireOne(read, db, rows[|rows| - 1], now);
      (next, count + more)
  }

  /** The service loop, on the mutable tables. */
  method ExpirePending(tables: Database, rows: seq<Id>, now: Time) returns (expired: nat)
    requires forall r <- rows :: r in Due(tables.registrations, now)
    modifies tables
    ensures (tables.State(), expired) == ExpireRows(old(tables.State()), rows, now)
  {
    var listed := tables.State();
    expired := 0;
    for i := 0 to |rows|
      invariant (tables.State(), expired) == ExpireRows(listed, rows[..i], now)
    {
      assert rows[..i + 1][..i] == rows[..i];
      assert rows[..i + 1][i] == rows[i] && rows[i] in rows;
      var registration := listed.registrations[rows[i]];
      if registration.activityId !in tables.activities { continue; }
      var failure := tables.Transition(ReleasePending(rows[i], registration, Expired, BySystem));
      if failure.Some? { continue; }
      expired := expired + 1;
    }
    assert rows[..|rows|] == rows;
  }

  /** A registration row after the timeout released it. */
  function TimedOut(row: Registration): Registration {
    row.(status := Expired, active := false)
  }

  /** `after` is `before` with exactly the listed rows timed out. */
  ghost predicate ReleasedAt(before: map<Id, Registration>, after: map<Id, Registration>, rows: seq<Id>, r: Id) {
    r in before ==> r in after && after[r] == if r in rows then TimedOut(before[r]) else before[r]
  }

  ghost predicate Released(before: map<Id, Registration>, after: map<Id, Registration>, rows: seq<Id>) {
    && before.Keys == after.Keys
    && forall r: Id :: ReleasedAt(before, after, rows, r)
  }

  /** One more round: nothing stands in the way of a row that is still pending. */
  lemma ExpireOneReleases(read: Db, db: Db, r: Id, now: Time)
    requires Good(read) && Good(db) && Evolves(read, db)
    requires r in Due(read.registrations, now)
    requires r in db.registrations && db.registrations[r] == read.registrations[r]
    ensures var (next, more) := ExpireOne(read, db, r, now);
            && more == 1 && Good(next) && Evolves(db, next)
            && next.registrations == db.registrations[r := TimedOut(db.registrations[r])]
  {
    var row := read.registrations[r];
    assert RegistrationAt(db.activities, db.registrations, r);
    var input := ReleasePending(r, row, Expired, BySystem);
    EvolvesReflexive(db);
    ReleaseStale(read, db, db, r, Expired, BySystem);
    var next := TransitionTx(db, input).value;
    TransitionKeeps(db, input, next);
  }

  /** The loop releases exactly the listed rows and reports how many there were. */
  lemma {:induction false} ExpireRowsReleases(read: Db, rows: seq<Id>, now: Time)
    requires Good(read) && Distinct(rows) && Members(rows) <= Due(read.registrations, now)
    ensures var (db, count) := ExpireRows(read, rows, now);
            && count == |rows| && Good(db) && Evolves(read, db) && Released(read.registrations, db.registrations, rows)
  {
    if rows == [] {
      EvolvesReflexive(read);
      forall r: Id ensures ReleasedAt(read.registrations, read.registrations, rows, r) {}
    } else {
      var n := |rows| - 1;
      var (fewer, last) := (rows[..n], rows[n]);
      assert rows == fewer + [last];
      assert last in Members(rows);
      assert forall r <- fewer :: r in Members(rows);
      ExpireRowsReleases(read, fewer, now);
      var db := ExpireRows(read, fewer, now).0;
      assert last !in fewer;
      assert ReleasedAt(read.registrations, db.registrations, fewer, last);
      ExpireOneReleases(read, db, last, now);
      var next := ExpireOne(read, db, last, now).0;
      EvolvesTransitive(read, db, next);
      forall r: Id ensures ReleasedAt(read.registrations, next.registrations, rows, r) {
        assert ReleasedAt(read.registrations, db.registrations, fewer, r);
      }
    }
  }

  lemma {:induction false} CountMembers(rows: seq<Id>)
    requires Distinct(rows)
    ensures |Members(rows)| == |rows|
  {
    if rows != [] {
      var fewer, last := rows[..|rows| - 1], rows[|rows| - 1];
      CountMembers(fewer);
      assert rows == fewer + [last];
      assert Members(rows) == Members(fewer) + {last};
      assert last !in fewer;
    }
  }

  /** The listed registrations of activity `a`. */
  ghost function Freed(registrations: map<Id, Registration>, rows: seq<Id>, a: Id): set<Id> {
    set r | r in rows && r in registrations && registrations[r].activityId == a
  }

  lemma ReleasedHolding(before: map<Id, Registration>, after: map<Id, Registration>, rows: seq<Id>, now: Time, a: Id)
    requires Released(before, after, rows) && Members(rows) <= Due(before, now)
    ensures |Holding(after, a, Pending)| == |Holding(before, a, Pending)| - |Freed(before, rows, a)|
    ensures Holding(after, a, Approved) == Holding(before, a, Approved)
  {
    var freed, was, left := Freed(before, rows, a), Holding(before, a, Pending), Holding(after, a, Pending);
    assert forall r <- rows :: r in Members(rows);
    assert freed <= was;
    forall r: Id
      ensures r in left <==> r in was - freed
      ensures r in Holding(after, a, Approved) <==> r in Holding(before, a, Approved)
    {
      assert ReleasedAt(before, after, rows, r);
    }
    assert left == was - freed;
    Subset(freed, was);
  }

  /**
   A tick frees exactly the slots it reports: the pending counter of every activity drops by the
   number of its listed registrations, and these add up to the count.
   */
  lemma TickFreesWhatItReports(db: Db, rows: seq<Id>, now: Time, a: Id)
    requires Good(db) && Listing(db.registrations, now, rows) && a in db.activities
    ensures var (next, expired) := ExpireRows(db, rows, now);
            && expired == Least(200, |Due(db.registrations, now)|) == |Members(rows)|
            && a in next.activities
            && next.activities[a].pending == db.activities[a].pending - |Freed(db.registrations, rows, a)|
            && next.activities[a].approved == db.activities[a].approved
  {
    ExpireRowsReleases(db, rows, now);
    CountMembers(rows);
    var next := ExpireRows(db, rows, now).0;
    ReleasedHolding(db.registrations, next.registrations, rows, now, a);
    assert ActivityLater(db.activities, next.activities, a);
    assert CounterOk(db.activities, db.registrations, a) && CounterOk(next.activities, next.registrations, a);
  }

  lemma {:induction false} Subset(x: set<Id>, y: set<Id>)
    requires x <= y
    ensures |x| <= |y| && |y - x| == |y| - |x|
  {
    assert y == x + (y - x);
  }

  /** Taking 200 of `all` at most, and from `due` first, leaves what 200 leave of `due`. */
  lemma TakenFirst(due: set<Id>, all: set<Id>, taken: set<Id>)
    requires due <= all && taken <= all && |taken| == Least(EXPIRY_LIMIT, |all|)
    requires due <= taken || taken <= due
    ensures |due - taken| == |due| - Least(EXPIRY_LIMIT, |due|)
  {
    Subset(due, all);
    if due <= taken {
      Subset(due, taken);
      assert due - taken == {};
    } else {
      Subset(taken, due);
    }
  }

  /** A tick at `t` or later takes up to 200 of the registrations due at `t` before it takes any other. */
  lemma TickServesTheOldest(db: Db, rows: seq<Id>, t: Time, now: Time)
    requires Good(db) && t <= now && Listing(db.registrations, now, rows)
    ensures var next := ExpireRows(db, rows, now).0;
            && Good(next)
            && |Due(next.registrations, t)|
               == |Due(db.registrations, t)| - Least(200, |Due(db.registrations, t)|)
  {
    ExpireRowsReleases(db, rows, now);
    CountMembers(rows);
    var next := ExpireRows(db, rows, now).0;
    var due, taken := Due(db.registrations, t), Members(rows);
    forall r: Id ensures r in Due(next.registrations, t) <==> r in due - taken {
      assert ReleasedAt(db.registrations, next.registrations, rows, r);
    }
    assert Due(next.registrations, t) == due - taken;
    if left :| left in due && left !in taken {
      forall r | r in taken ensures r in due {
        assert r in Due(db.registrations, now) && r in rows;
        assert db.registrations[r].expiresAt.value <= db.registrations[left].expiresAt.value;
      }
    }
    TakenFirst(due, Due(db.registrations, now), taken);
  }

  /** A sequence of ticks with nobody else writing. */
  ghost predicate Ticks(dbs: seq<Db>, listings: seq<seq<Id>>, times: seq<Time>) {
    && |dbs| == |times| + 1 && |listings| == |times|
    && forall i | 0 <= i < |times| ::
         && Listing(dbs[i].registrations, times[i], listings[i])
         && dbs[i + 1] == ExpireRows(dbs[i], listings[i], times[i]).0
  }

  /**
   However the tick times go on, the registrations due at `t` are worked off 200 a tick, so that
   after k ticks exactly n - 200k of them are left, and none after ceil(n / 200).
   */
  lemma {:induction false} TicksDrain(dbs: seq<Db>, listings: seq<seq<Id>>, times: seq<Time>, t: Time)
    requires Ticks(dbs, listings, times) && Good(dbs[0])
    requires forall i | 0 <= i < |times| :: t <= times[i]
    ensures var k, n := |times|, |Due(dbs[0].registrations, t)|;
            && Good(dbs[k])
            && |Due(dbs[k].registrations, t)| == (if n <= 200 * k then 0 else n - 200 * k)
            && (Due(dbs[k].registrations, t) == {} <==> (n + 199) / 200 <= k)
  {
    var k := |times|;
    if k != 0 {
      TicksDrain(dbs[..k], listings[..k - 1], times[..k - 1], t);
      TickServesTheOldest(dbs[k - 1], listings[k - 1], t, times[k - 1]);
    }
  }

  /** The least element of a non-empty set of rows, by deadline. */
  lemma {:induction false} EarliestDue(registrations: map<Id, Registration>, due: set<Id>) returns (first: Id)
    requires due != {} && forall r <- due :: r in registrations && registrations[r].expiresAt.Some?
    ensures first in due
    ensures forall r <- due :: registrations[first].expiresAt.value <= registrations[r].expiresAt.value
  {
    var r :| r in due;
    if due == {r} {
      first := r;
    } else {
      var other := EarliestDue(registrations, due - {r});
      first := if registrations[other].expiresAt.value <= registrations[r].expiresAt.value then other else r;
    }
  }

  /** Rows taken from `due` by deadline: every row left behind is due no sooner than any row taken. */
  lemma {:induction false} TakeEarliest(registrations: map<Id, Registration>, due: set<Id>, n: nat)
    returns (rows: seq<Id>)
    requires n <= |due| && forall r <- due :: r in registrations && registrations[r].expiresAt.Some?
    ensures |rows| == n && Distinct(rows) && Members(rows) <= due
    ensures forall q, r | q in rows && q in due && r in due && r !in rows ::
              registrations[q].expiresAt.value <= registrations[r].expiresAt.value
  {
    if n == 0 {
      rows := [];
    } else {
      var first := EarliestDue(registrations, due);
      var rest := TakeEarliest(registrations, due - {first}, n - 1);
      rows := [first] + rest;
      assert first !in Members(rest);
      assert forall r <- rest :: r in Members(rest);
      forall q, r | q in rows && q in due && r in due && r !in rows
        ensures registrations[q].expiresAt.value <= registrations[r].expiresAt.value
      {
        assert r != first && r !in rest;
      }
    }
  }

  /** The SELECT always has an answer. */
  lemma ListingExists(registrations: map<Id, Registration>, now: Time) returns (rows: seq<Id>)
    ensures Listing(registrations, now, rows)
  {
    var due := Due(registrations, now);
    rows := TakeEarliest(registrations, due, Least(EXPIRY_LIMIT, |due|));
  }
}
