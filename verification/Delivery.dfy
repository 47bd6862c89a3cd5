/**
 Deliveries that run concurrently.  A delivery takes its targets under the hub's lock and then sends
 to them one by one without it; when a send is refused it closes that peer, but only later.  In
 between, the writer may make room and another delivery may get through.
 */
module Delivery {
  import Hub

  type ConnId = nat
  type DeliveryId = nat
  type Room = nat

  const QUEUE_SIZE: nat := Hub.QUEUE_SIZE

  /** A frame of a delivery, or one the connection's own goroutine sends. */
  datatype Frame = Delivered(delivery: DeliveryId) | Own

  /** `stopped` says that the writer has returned. */
  datatype Conn = Conn(queue: seq<Frame>, open: bool, stopped: bool, accepted: seq<Frame>, written: seq<Frame>)

  /** A delivery under way: the targets not tried yet, and the refused ones not closed yet. */
  datatype Progress = Progress(pending: set<ConnId>, condemned: set<ConnId>)

  /** `owed` relates each delivery to the connections that were in its room when it began. */
  datatype State = State(
    rooms: set<(Room, ConnId)>,
    conns: map<ConnId, Conn>,
    running: map<DeliveryId, Progress>,
    owed: set<(DeliveryId, ConnId)>,
    begun: set<DeliveryId>)

  datatype Action =
    | Connect(conn: ConnId)
    | JoinRoom(room: Room, conn: ConnId)
    | Leave(conn: ConnId)
    | Begin(delivery: DeliveryId, room: Room)
    | Send(delivery: DeliveryId, conn: ConnId, late: bool)
    | CloseSlow(delivery: DeliveryId, conn: ConnId)
    | Finish(delivery: DeliveryId)
    | SendOwn(conn: ConnId)
    | Write(conn: ConnId, wrote: bool)
    | StopWriter(conn: ConnId)
    | Hangup(conn: ConnId)

  const NEW_CONN := Conn([], true, false, [], [])

  predicate CanTake(c: Conn) {
    c.open && |c.queue| < QUEUE_SIZE
  }

  function Take(c: Conn, frame: Frame): Conn {
    c.(queue := c.queue + [frame], accepted := c.accepted + [frame])
  }

  function Targets(rooms: set<(Room, ConnId)>, conns: map<ConnId, Conn>, room: Room): set<ConnId> {
    set c | c in conns && (room, c) in rooms
  }

  ghost predicate Step(s: State, action: Action, next: State) {
    match action
    case Connect(c) => c !in s.conns && next == s.(conns := s.conns[c := NEW_CONN])
    case JoinRoom(room, c) => c in s.conns && next == s.(rooms := s.rooms + {(room, c)})
    case Leave(c) => next == s.(rooms := set p | p in s.rooms && p.1 != c)
    case Begin(d, room) =>
      && d !in s.begun
      && var targets := Targets(s.rooms, s.conns, room);
      next == s.(running := s.running[d := Progress(targets, {})],
                 owed := s.owed + (set c | c in targets :: (d, c)),
                 begun := s.begun + {d})
    case Send(d, c, late) =>
      && d in s.running && c in s.running[d].pending && c in s.conns
      && var p, conn := s.running[d], s.conns[c];
      && (late ==> !conn.open && |conn.queue| < QUEUE_SIZE)
      && next == if CanTake(conn) || late
                 then s.(running := s.running[d := p.(pending := p.pending - {c})],
                         conns := s.conns[c := Take(conn, Delivered(d))])
                 else s.(running := s.running[d := Progress(p.pending - {c}, p.condemned + {c})])
    case CloseSlow(d, c) =>
      && d in s.running && c in s.running[d].condemned && c in s.conns
      && next == s.(running := s.running[d := s.running[d].(condemned := s.running[d].condemned - {c})],
                    conns := s.conns[c := s.conns[c].(open := false)])
    case Finish(d) =>
      d in s.running && s.running[d] == Progress({}, {}) && next == s.(running := s.running - {d})
    case SendOwn(c) =>
      c in s.conns && CanTake(s.conns[c]) && next == s.(conns := s.conns[c := Take(s.conns[c], Own)])
    case Write(c, wrote) =>
      && c in s.conns && s.conns[c].queue != [] && !s.conns[c].stopped
      && var conn := s.conns[c];
      && next == s.(conns := s.conns[c :=
           if wrote then conn.(queue := conn.queue[1..], written := conn.written + [conn.queue[0]])
           else conn.(queue := conn.queue[1..], open := false, stopped := true)])
    case StopWriter(c) =>
      c in s.conns && !s.conns[c].open && next == s.(conns := s.conns[c := s.conns[c].(stopped := true)])
    case Hangup(c) => c in s.conns && next == s.(conns := s.conns[c := s.conns[c].(open := false)])
  }

  ghost predicate Initial(s: State) {
    s == State({}, map[], map[], {}, {})
  }

  // ----- the invariant -----

  predicate Has(c: Conn, d: DeliveryId) {
    Delivered(d) in c.accepted
  }

  ghost predicate NoRepeat(c: Conn) {
    forall i, j | 0 <= i < j < |c.accepted| :: c.accepted[i].Delivered? ==> c.accepted[i] != c.accepted[j]
  }

  ghost predicate ConnOk(c: Conn) {
    && |c.queue| <= QUEUE_SIZE
    && c.written <= c.accepted && (!c.stopped ==> c.accepted == c.written + c.queue) && (c.open ==> !c.stopped)
    && NoRepeat(c)
  }

  ghost predicate ConnAt(s: State, c: ConnId) {
    c in s.conns ==> ConnOk(s.conns[c])
  }

  /** Delivery `d` still has business with connection `c`. */
  predicate Unsettled(s: State, d: DeliveryId, c: ConnId) {
    d in s.running && (c in s.running[d].pending || c in s.running[d].condemned)
  }

  /** How delivery `d` stands with connection `c`. */
  ghost predicate OwedAt(s: State, d: DeliveryId, c: ConnId) {
    && (d in s.running ==> d in s.begun)
    && ((d, c) in s.owed ==> d in s.begun && c in s.conns)
    && (Unsettled(s, d, c) ==> (d, c) in s.owed && (c in s.conns ==> !Has(s.conns[c], d)))
    && (d in s.running ==> c !in s.running[d].pending || c !in s.running[d].condemned)
    && (c in s.conns && Has(s.conns[c], d) ==> (d, c) in s.owed)
    && ((d, c) in s.owed && c in s.conns ==> Unsettled(s, d, c) || Has(s.conns[c], d) || !s.conns[c].open)
  }

  ghost predicate Inv(s: State) {
    && (forall c: ConnId :: ConnAt(s, c))
    && (forall d: DeliveryId, c: ConnId :: OwedAt(s, d, c))
  }

  /** Closed is for good, and what was accepted stays, in order. */
  ghost predicate ConnLater(s: State, next: State, c: ConnId) {
    c in s.conns ==>
      && c in next.conns && (next.conns[c].open ==> s.conns[c].open) && s.conns[c].accepted <= next.conns[c].accepted
  }

  ghost predicate Later(s: State, next: State) {
    && s.begun <= next.begun && s.owed <= next.owed
    && forall c: ConnId :: ConnLater(s, next, c)
  }

  lemma TakeKeeps(c: Conn, frame: Frame)
    requires ConnOk(c) && |c.queue| < QUEUE_SIZE && (frame.Delivered? ==> !Has(c, frame.delivery))
    ensures ConnOk(Take(c, frame))
    ensures forall d :: Has(Take(c, frame), d) <==> Has(c, d) || frame == Delivered(d)
  {
    var after := Take(c, frame).accepted;
    forall i, j | 0 <= i < j < |after| ensures after[i].Delivered? ==> after[i] != after[j] {
      if j == |c.accepted| { assert after[i] in c.accepted; }
    }
  }

  lemma SendKeeps(s: State, d: DeliveryId, c: ConnId, late: bool, next: State)
    requires Inv(s) && Step(s, Send(d, c, late), next)
    ensures Inv(next) && Later(s, next)
  {
    assert OwedAt(s, d, c) && ConnAt(s, c);
    if CanTake(s.conns[c]) || late { TakeKeeps(s.conns[c], Delivered(d)); }
    forall k: ConnId ensures ConnAt(next, k) && ConnLater(s, next, k) { assert ConnAt(s, k); }
    forall e: DeliveryId, k: ConnId ensures OwedAt(next, e, k) { assert OwedAt(s, e, k); }
  }

  lemma OtherStepKeeps(s: State, action: Action, next: State)
    requires Inv(s) && Step(s, action, next) && !action.Send?
    ensures Inv(next) && Later(s, next)
  {
    if action.SendOwn? {
      assert ConnAt(s, action.conn);
      TakeKeeps(s.conns[action.conn], Own);
    }
    forall k: ConnId ensures ConnAt(next, k) && ConnLater(s, next, k) { assert ConnAt(s, k); }
    forall e: DeliveryId, k: ConnId ensures OwedAt(next, e, k) { assert OwedAt(s, e, k); }
  }

  // ----- runs -----

  ghost predicate Reaches(s: State, next: State) {
    exists action :: Step(s, action, next)
  }

  ghost predicate StepAt(states: seq<State>, n: nat) {
    0 < n < |states| ==> Reaches(states[n - 1], states[n])
  }

  ghost predicate Run(states: seq<State>) {
    |states| > 0 && Initial(states[0]) && forall n: nat :: StepAt(states, n)
  }

  lemma ReachesKeeps(s: State, next: State)
    requires Inv(s) && Reaches(s, next)
    ensures Inv(next) && Later(s, next)
  {
    var action :| Step(s, action, next);
    if action.Send? {
      SendKeeps(s, action.delivery, action.conn, action.late, next);
    } else {
      OtherStepKeeps(s, action, next);
    }
  }

  lemma {:induction false} RunKeeps(states: seq<State>, i: nat, j: nat)
    requires Run(states) && i <= j < |states|
    ensures Inv(states[i]) && Inv(states[j]) && Later(states[i], states[j])
    decreases j, i
  {
    if i < j {
      RunKeeps(states, i, j - 1);
      assert StepAt(states, j);
      ReachesKeeps(states[j - 1], states[j]);
      forall c: ConnId ensures ConnLater(states[i], states[j], c) {
        assert ConnLater(states[i], states[j - 1], c) && ConnLater(states[j - 1], states[j], c);
      }
    } else {
      if i == 0 {
        forall d: DeliveryId, c: ConnId ensures OwedAt(states[0], d, c) {}
      } else {
        RunKeeps(states, i - 1, i - 1);
        assert StepAt(states, i);
        ReachesKeeps(states[i - 1], states[i]);
      }
      forall c: ConnId ensures ConnLater(states[i], states[i], c) {}
    }
  }

  // ----- what a peer is promised -----

  /**
   Queues stay bounded, and a peer reads a beginning of what was accepted, in order, even after the
   close; until the writer stops, nothing accepted is lost.
   */
  lemma QueuesAreBounded(states: seq<State>, k: nat, c: ConnId)
    requires Run(states) && k < |states| && c in states[k].conns
    ensures var conn := states[k].conns[c];
            && |conn.queue| <= 64 && conn.written <= conn.accepted
            && (!conn.stopped ==> conn.accepted == conn.written + conn.queue)
            && (conn.open ==> !conn.stopped)
  {
    RunKeeps(states, k, k);
    assert ConnAt(states[k], c);
  }

  /**
   No gaps: a connection that is open, and that no delivery still has business with, has accepted
   the frame of every delivery to a room it was in, and no other delivery's, each exactly once.
   */
  lemma NoGaps(states: seq<State>, k: nat, c: ConnId, d: DeliveryId)
    requires Run(states) && k < |states| && c in states[k].conns && states[k].conns[c].open
    requires !Unsettled(states[k], d, c)
    ensures Has(states[k].conns[c], d) <==> (d, c) in states[k].owed
    ensures forall i, j | 0 <= i < j < |states[k].conns[c].accepted| ::
              states[k].conns[c].accepted[i] == Delivered(d) ==> states[k].conns[c].accepted[j] != Delivered(d)
  {
    RunKeeps(states, k, k);
    assert OwedAt(states[k], d, c) && ConnAt(states[k], c);
  }

  /** Rooms have only connections that exist. */
  lemma {:induction false} MembersExist(states: seq<State>, k: nat)
    requires Run(states) && k < |states|
    ensures forall p <- states[k].rooms :: p.1 in states[k].conns
  {
    if k > 0 {
      MembersExist(states, k - 1);
      assert StepAt(states, k);
    }
  }

  /** A delivery is owed to those who were in its room when it began, and to nobody who came later. */
  lemma {:induction false} OwedAreTheMembers(states: seq<State>, m: nat, k: nat, d: DeliveryId, room: Room, c: ConnId)
    requires Run(states) && m < k < |states| && Step(states[m], Begin(d, room), states[m + 1])
    ensures d in states[k].begun
    ensures (d, c) in states[k].owed <==> (room, c) in states[m].rooms
  {
    if k == m + 1 {
      MembersExist(states, m);
      RunKeeps(states, m, m);
      assert OwedAt(states[m], d, c);
    } else {
      OwedAreTheMembers(states, m, k - 1, d, room, c);
      assert StepAt(states, k);
    }
  }

  /** So an open connection that the delivery is through with has its frame iff it was in the room. */
  lemma TheRoomHasTheFrame(states: seq<State>, m: nat, k: nat, d: DeliveryId, room: Room, c: ConnId)
    requires Run(states) && m < k < |states| && Step(states[m], Begin(d, room), states[m + 1])
    requires c in states[k].conns && states[k].conns[c].open && !Unsettled(states[k], d, c)
    ensures Has(states[k].conns[c], d) <==> (room, c) in states[m].rooms
  {
    OwedAreTheMembers(states, m, k, d, room, c);
    NoGaps(states, k, c, d);
  }

  /**
   In order: when delivery `d` was through with an open connection before delivery `e` began, the
   connection has d's frame before e's.
   */
  lemma FramesKeepTheirOrder(states: seq<State>, i: nat, k: nat, c: ConnId, d: DeliveryId, e: DeliveryId)
    returns (at: nat, after: nat)
    requires Run(states) && i <= k < |states|
    requires (d, c) in states[i].owed && !Unsettled(states[i], d, c) && e !in states[i].begun
    requires (e, c) in states[k].owed && !Unsettled(states[k], e, c) && c in states[k].conns && states[k].conns[c].open
    ensures at < after < |states[k].conns[c].accepted|
    ensures states[k].conns[c].accepted[at] == Delivered(d) && states[k].conns[c].accepted[after] == Delivered(e)
  {
    RunKeeps(states, i, k);
    assert OwedAt(states[i], d, c) && OwedAt(states[i], e, c) && OwedAt(states[k], e, c)
        && ConnLater(states[i], states[k], c);
    var before, now := states[i].conns[c].accepted, states[k].conns[c].accepted;
    at :| 0 <= at < |before| && before[at] == Delivered(d);
    after :| 0 <= after < |now| && now[after] == Delivered(e);
    assert forall x | 0 <= x < |before| :: before[x] in before;
  }

  /**
   Exactly when an open connection lacks a frame it is owed: while the delivery has not tried it yet,
   or was refused and has yet to close it.
   */
  lemma GapsAreExactlyUnsettled(states: seq<State>, k: nat, c: ConnId, d: DeliveryId)
    requires Run(states) && k < |states| && c in states[k].conns && (d, c) in states[k].owed
    ensures states[k].conns[c].open ==> (!Has(states[k].conns[c], d) <==> Unsettled(states[k], d, c))
  {
    RunKeeps(states, k, k);
    assert OwedAt(states[k], d, c);
  }

  /** Delivery `d` is still to try connection `c`. */
  predicate Untried(s: State, d: DeliveryId, c: ConnId) {
    d !in s.begun || (d in s.running && c in s.running[d].pending)
  }

  /** At state `m` delivery `d` tried connection `c`, whose queue was full. */
  ghost predicate RefusedAt(states: seq<State>, m: nat, d: DeliveryId, c: ConnId) {
    && m + 1 < |states| && Untried(states[m], d, c) && !Untried(states[m + 1], d, c)
    && c in states[m].conns && |states[m].conns[c].queue| == 64
  }

  /** A delivery tries a connection at most once. */
  lemma {:induction false} TriedForGood(states: seq<State>, i: nat, k: nat, d: DeliveryId, c: ConnId)
    requires Run(states) && i <= k < |states| && !Untried(states[i], d, c)
    requires c in states[i].conns && !Has(states[i].conns[c], d)
    ensures !Untried(states[k], d, c) && c in states[k].conns && !Has(states[k].conns[c], d)
  {
    if i < k {
      TriedForGood(states, i, k - 1, d, c);
      assert StepAt(states, k);
    }
  }

  lemma {:induction false} RefusalFound(states: seq<State>, k: nat, d: DeliveryId, c: ConnId) returns (m: nat)
    requires Run(states) && k < |states| && c in states[k].conns && states[k].conns[c].open
    requires (d, c) in states[k].owed && !Untried(states[k], d, c) && !Has(states[k].conns[c], d)
    ensures m < k && RefusedAt(states, m, d, c)
  {
    assert k > 0;
    RunKeeps(states, k - 1, k);
    assert StepAt(states, k);
    assert OwedAt(states[k], d, c) && OwedAt(states[k - 1], d, c) && ConnAt(states[k - 1], c);
    if Untried(states[k - 1], d, c) {
      m := k - 1;
    } else {
      m := RefusalFound(states, k - 1, d, c);
    }
  }

  /**
   The branch behind a gap: an open connection lacks a frame that its delivery has tried iff its queue
   held 64 frames at that try.
   */
  lemma GapsComeFromFullQueues(states: seq<State>, k: nat, d: DeliveryId, c: ConnId)
    requires Run(states) && k < |states| && c in states[k].conns && states[k].conns[c].open
    requires (d, c) in states[k].owed && !Untried(states[k], d, c)
    ensures !Has(states[k].conns[c], d) <==> exists m: nat :: m < k && RefusedAt(states, m, d, c)
  {
    if !Has(states[k].conns[c], d) {
      var m := RefusalFound(states, k, d, c);
    }
    if m: nat :| m < k && RefusedAt(states, m, d, c) {
      RunKeeps(states, m, m + 1);
      assert StepAt(states, m + 1);
      assert OwedAt(states[m], d, c) && ConnAt(states[m], c);
      TriedForGood(states, m + 1, k, d, c);
    }
  }

  /** An open peer that a delivery is about to close had a full queue when it was tried. */
  lemma {:induction false} CondemnedWasRefused(states: seq<State>, k: nat, d: DeliveryId, c: ConnId) returns (m: nat)
    requires Run(states) && k < |states| && d in states[k].running && c in states[k].running[d].condemned
    requires c in states[k].conns && states[k].conns[c].open
    ensures m < k && RefusedAt(states, m, d, c)
  {
    assert k > 0;
    assert StepAt(states, k);
    RunKeeps(states, k - 1, k);
    assert OwedAt(states[k - 1], d, c) && ConnAt(states[k - 1], c) && ConnLater(states[k - 1], states[k], c);
    if d in states[k - 1].running && c in states[k - 1].running[d].condemned {
      m := CondemnedWasRefused(states, k - 1, d, c);
    } else {
      m := k - 1;
    }
  }

  /** Nobody is closed but by a hangup, a failed write, or a delivery whose frame found 64 frames queued. */
  lemma OnlySlowPeersAreClosed(states: seq<State>, k: nat, c: ConnId)
    requires Run(states) && k + 1 < |states| && c in states[k].conns && c in states[k + 1].conns
    requires states[k].conns[c].open && !states[k + 1].conns[c].open
    ensures || Step(states[k], Hangup(c), states[k + 1]) || Step(states[k], Write(c, false), states[k + 1])
            || exists d: DeliveryId, m: nat :: m < k && RefusedAt(states, m, d, c)
  {
    assert StepAt(states, k + 1);
    var action :| Step(states[k], action, states[k + 1]);
    if action.CloseSlow? {
      var m := CondemnedWasRefused(states, k, action.delivery, c);
    }
  }

  // ----- a run that shows a gap -----

  /** Connection 1 in room 0, with frames accepted and written as given and the rest queued. */
  function Alone(accepted: seq<Frame>, written: nat, running: map<DeliveryId, Progress>, begun: set<DeliveryId>): State
    requires written <= |accepted|
  {
    State({(0, 1)}, map[1 := Conn(accepted[written..], true, false, accepted, accepted[..written])], running,
          set d | d in begun :: (d, 1), begun)
  }

  function OwnFrames(n: nat): (frames: seq<Frame>)
    ensures |frames| == n && forall i | 0 <= i < n :: frames[i] == Own
  {
    seq(n, _ => Own)
  }

  /** The states after the queue is full: delivery 5 is refused, the writer makes room, delivery 6 gets through. */
  function Overtaken(n: nat): State {
    var full := OwnFrames(QUEUE_SIZE);
    var tried, refused := Progress({1}, {}), Progress({}, {1});
    match n
    case 0 => Alone(full, 0, map[], {})
    case 1 => Alone(full, 0, map[5 := tried], {5})
    case 2 => Alone(full, 0, map[5 := refused], {5})
    case 3 => Alone(full, 1, map[5 := refused], {5})
    case 4 => Alone(full, 1, map[5 := refused, 6 := tried], {5, 6})
    case _ => Alone(full + [Delivered(6)], 1, map[5 := refused, 6 := Progress({}, {})], {5, 6})
  }

  lemma RefusedWhenFull()
    ensures forall n | 0 < n < 4 :: Reaches(Overtaken(n - 1), Overtaken(n))
  {
    var full := OwnFrames(QUEUE_SIZE);
    assert full[0..] == full && full[..0] + [full[0]] == full[..1];
    assert Targets(Overtaken(0).rooms, Overtaken(0).conns, 0) == {1};
    assert Step(Overtaken(0), Begin(5, 0), Overtaken(1));
    assert {1} - {1} == {} && {} + {1} == {1};
    assert Step(Overtaken(1), Send(5, 1, false), Overtaken(2));
    assert Step(Overtaken(2), Write(1, true), Overtaken(3));
  }

  lemma PassesTheRefused()
    ensures forall n | 4 <= n < 6 :: Reaches(Overtaken(n - 1), Overtaken(n))
  {
    var full := OwnFrames(QUEUE_SIZE);
    var more := full + [Delivered(6)];
    assert full[1..] + [Delivered(6)] == more[1..] && more[..1] == full[..1];
    assert Targets(Overtaken(3).rooms, Overtaken(3).conns, 0) == {1};
    assert Step(Overtaken(3), Begin(6, 0), Overtaken(4));
    assert {1} - {1} == {};
    assert Step(Overtaken(4), Send(6, 1, false), Overtaken(5));
  }

  /** From the start to a full queue, and then on to the gap. */
  function GapRun(n: nat): State {
    if n == 0 then State({}, map[], map[], {}, {})
    else if n == 1 then State({}, map[1 := NEW_CONN], map[], {}, {})
    else if n <= QUEUE_SIZE + 2 then Alone(OwnFrames(n - 2), 0, map[], {})
    else Overtaken(n - 2 - QUEUE_SIZE)
  }

  lemma GapRunSteps(n: nat)
    requires 0 < n < QUEUE_SIZE + 8
    ensures Reaches(GapRun(n - 1), GapRun(n))
  {
    if n == 1 {
      assert Step(GapRun(0), Connect(1), GapRun(1));
    } else if n == 2 {
      assert OwnFrames(0) == [] && (set d: nat | d in {} :: (d, 1)) == {};
      assert Step(GapRun(1), JoinRoom(0, 1), GapRun(2));
    } else if n <= QUEUE_SIZE + 2 {
      assert OwnFrames(n - 3) + [Own] == OwnFrames(n - 2);
      assert Step(GapRun(n - 1), SendOwn(1), GapRun(n));
    } else {
      assert OwnFrames(QUEUE_SIZE)[0..] == OwnFrames(QUEUE_SIZE);
      RefusedWhenFull();
      PassesTheRefused();
    }
  }

  /** An open connection can hold a later frame and lack an earlier one. */
  lemma AGapAppears() returns (states: seq<State>, k: nat)
    ensures Run(states) && k < |states| && 1 in states[k].conns && states[k].conns[1].open
    ensures (5, 1) in states[k].owed && (6, 1) in states[k].owed
    ensures !Has(states[k].conns[1], 5) && Has(states[k].conns[1], 6)
  {
    k := QUEUE_SIZE + 7;
    states := seq(k + 1, (n: nat) => GapRun(n));
    forall n: nat ensures StepAt(states, n) {
      if 0 < n < |states| { GapRunSteps(n); }
    }
    assert states[k].conns[1].accepted[QUEUE_SIZE] == Delivered(6);
  }
}
