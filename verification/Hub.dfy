/**
 The hub of live WebSocket connections: its three overlapping indexes as mutable maps, and the bounded
 outbound queue of a connection.  Module Delivery treats deliveries that run concurrently.
 */
module Hub {
  type Frame = seq<int>

  const QUEUE_SIZE: nat := 64

  class Connection {
    const user: string
    var queue: seq<Frame>
    var open: bool
    var writing: bool
    ghost var accepted: seq<Frame>
    ghost var written: seq<Frame>

    constructor (user: string)
      ensures Valid() && open && this.user == user && accepted == [] && queue == []
    {
      this.user := user;
      queue, open, writing := [], true, true;
      accepted, written := [], [];
    }

    /** Frames leave in the order they came; until the writer stops none is lost. */
    ghost predicate Valid()
      reads this
    {
      && |queue| <= QUEUE_SIZE
      && written <= accepted
      && (writing ==> accepted == written + queue)
      && (open ==> writing)
    }

    predicate CanTake()
      reads this
    {
      open && |queue| < QUEUE_SIZE
    }

    /**
     Queues a frame without blocking; false when the connection was seen closed or the queue is full.
     A connection that closes between the two selects is not seen closed (`sawDone`), and still takes
     the frame.
     */
    method SendRaw(payload: Frame, sawDone: bool) returns (ok: bool)
      requires Valid() && (sawDone ==> !open)
      modifies this
      ensures Valid() && open == old(open) && writing == old(writing) && written == old(written)
      ensures ok == (!sawDone && old(|queue|) < QUEUE_SIZE)
      ensures accepted == old(accepted) + (if ok then [payload] else [])
      ensures queue == old(queue) + (if ok then [payload] else [])
    {
      if sawDone { return false; }
      if |queue| == QUEUE_SIZE { return false; }
      queue := queue + [payload];
      accepted := accepted + [payload];
      return true;
    }

    /**
     One round of WriteLoop.  When the connection is closed and frames are queued, the select may pick
     either: `sawDone` says that it picked the close.  `wrote` says whether the socket took the frame.
     */
    method WriteOne(sawDone: bool, wrote: bool)
      requires Valid() && writing
      modifies this
      ensures Valid() && accepted == old(accepted)
      ensures var stops := !old(open) && (sawDone || old(queue) == []);
              var picks := !stops && old(queue) != [];
              && queue == (if picks then old(queue)[1..] else old(queue))
              && written == old(written) + (if picks && wrote then [old(queue)[0]] else [])
              && open == (old(open) && (picks ==> wrote))
              && writing == (!stops && (picks ==> wrote))
    {
      if !open && (sawDone || |queue| == 0) {
        writing := false;
        return;
      }
      if |queue| == 0 { return; }
      var payload := queue[0];
      queue := queue[1..];
      if !wrote {
        Close();
        writing := false;
        return;
      }
      written := written + [payload];
    }

    /** Closing again changes nothing. */
    method Close()
      modifies this`open
      ensures !open
    {
      if !open { return; }
      open := false;
    }
  }

  /** The pairs of a room and a connection in it. */
  ghost function Pairs(rooms: map<string, set<Connection>>): set<(string, Connection)> {
    set g, c | g in rooms && c in rooms[g] :: (g, c)
  }

  ghost function Subscriptions(groups: seq<string>, conn: Connection): set<(string, Connection)> {
    set g | g in groups :: (g, conn)
  }

  /** Room `g` had `members`; in `rooms` it has them without `conn`, or is gone when none is left. */
  ghost predicate LeftRoom(members: set<Connection>, rooms: map<string, set<Connection>>, g: string, conn: Connection) {
    (g in rooms <==> members - {conn} != {}) && (g in rooms ==> rooms[g] == members - {conn})
  }

  lemma LeftRooms(before: map<string, set<Connection>>, after: map<string, set<Connection>>, conn: Connection)
    requires after.Keys <= before.Keys && forall g <- before :: LeftRoom(before[g], after, g, conn)
    ensures Pairs(after) == set p | p in Pairs(before) && p.1 != conn
    ensures forall g <- after :: after[g] != {}
  {
    forall g <- before ensures LeftRoom(before[g], after, g, conn) {}
    var left := set p | p in Pairs(before) && p.1 != conn;
    forall g, c | (g, c) in left ensures (g, c) in Pairs(after) {
      assert c in before[g] - {conn};
    }
  }

  class Hub {
    var conns: set<Connection>
    var byUser: map<string, set<Connection>>
    var byGroup: map<string, set<Connection>>

    constructor ()
      ensures conns == {} && Rooms() == {} && Valid()
    {
      conns, byUser, byGroup := {}, map[], map[];
    }

    /** The subscriptions as a plain relation. */
    ghost function Rooms(): set<(string, Connection)>
      reads this`byGroup
    {
      Pairs(byGroup)
    }

    /** The registered connections of a user. */
    ghost function Peers(user: string): set<Connection>
      reads this`conns
    {
      set c | c in conns && c.user == user
    }

    /** byUser lists exactly the registered connections by their user, and no index holds an empty set. */
    ghost predicate Valid()
      reads this
    {
      && (forall u: string :: UserAt(u))
      && (forall g <- byGroup :: byGroup[g] != {})
    }

    ghost predicate UserAt(u: string)
      reads this`conns, this`byUser
    {
      (u in byUser <==> Peers(u) != {}) && (u in byUser ==> byUser[u] == Peers(u))
    }

    /** Only registered connections are in rooms. */
    ghost predicate Coherent()
      reads this`conns, this`byGroup
    {
      forall p <- Rooms() :: p.1 in conns
    }

    method Register(conn: Connection)
      requires Valid()
      modifies this
      ensures Valid() && conns == old(conns) + {conn} && Rooms() == old(Rooms())
    {
      conns := conns + {conn};
      var peers := if conn.user in byUser then byUser[conn.user] else {};
      byUser := byUser[conn.user := peers + {conn}];
      forall u: string ensures UserAt(u) {
        assert old(UserAt(u));
        if u == conn.user { assert conn in Peers(u); }
        assert Peers(u) == if u == conn.user then old(Peers(u)) + {conn} else old(Peers(u));
      }
    }

    method Unregister(conn: Connection)
      requires Valid()
      modifies this
      ensures Valid() && conns == old(conns) - {conn}
      ensures Rooms() == set p | p in old(Rooms()) && p.1 != conn
      ensures old(Coherent()) ==> Coherent()
    {
      LeaveRooms(conn);
      conns := conns - {conn};
      if conn.user in byUser {
        var peers := byUser[conn.user] - {conn};
        byUser := if peers == {} then byUser - {conn.user} else byUser[conn.user := peers];
      }
      forall u: string ensures UserAt(u) {
        assert old(UserAt(u));
        assert Peers(u) == old(Peers(u)) - {conn};
      }
    }

    /** Removes a connection from every room, dropping rooms that become empty. */
    method LeaveRooms(conn: Connection)
      requires forall g <- byGroup :: byGroup[g] != {}
      modifies this`byGroup
      ensures forall g <- byGroup :: byGroup[g] != {}
      ensures Rooms() == set p | p in old(Rooms()) && p.1 != conn
    {
      var before, rooms, todo := byGroup, byGroup, byGroup.Keys;
      while todo != {}
        invariant todo <= before.Keys && rooms.Keys <= before.Keys
        invariant forall g <- todo :: g in rooms && rooms[g] == before[g]
        invariant forall g <- before.Keys - todo :: LeftRoom(before[g], rooms, g, conn)
        decreases |todo|
      {
        var g :| g in todo;
        todo := todo - {g};
        var members := rooms[g] - {conn};
        rooms := if members == {} then rooms - {g} else rooms[g := members];
      }
      LeftRooms(before, rooms, conn);
      byGroup := rooms;
    }

    /** Only joins of connections that are not registered break coherence. */
    method Join(group: string, conn: Connection)
      requires Valid()
      modifies this`byGroup
      ensures Valid() && Rooms() == old(Rooms()) + {(group, conn)}
      ensures Coherent() <==> old(Coherent()) && conn in conns
    {
      var members := if group in byGroup then byGroup[group] else {};
      byGroup := byGroup[group := members + {conn}];
      assert forall u: string :: old(UserAt(u)) ==> UserAt(u);
      assert (group, conn) in Rooms();
    }

    method JoinGroups(groups: seq<string>, conn: Connection)
      requires Valid()
      modifies this`byGroup
      ensures Valid() && Rooms() == old(Rooms()) + Subscriptions(groups, conn)
      ensures old(Coherent()) && conn in conns ==> Coherent()
    {
      for i := 0 to |groups|
        invariant Valid()
        invariant Rooms() == old(Rooms()) + Subscriptions(groups[..i], conn)
        invariant old(Coherent()) && conn in conns ==> Coherent()
      {
        Join(groups[i], conn);
        assert groups[..i + 1] == groups[..i] + [groups[i]];
        assert Subscriptions(groups[..i + 1], conn) == Subscriptions(groups[..i], conn) + {(groups[i], conn)};
      }
      assert groups[..|groups|] == groups;
    }

    /** The connections in a room. */
    ghost function Members(group: string): set<Connection>
      reads this`byGroup
    {
      set p | p in Rooms() && p.0 == group :: p.1
    }

    method DeliverToGroup(group: string, payload: Frame) returns (delivered: nat)
      requires Valid() && forall p <- Rooms() :: p.1.Valid()
      modifies set p | p in Rooms() :: p.1
      ensures delivered == |old(Able(Members(group)))|
      ensures forall c <- Members(group) :: Received(c, payload)
      ensures forall p <- Rooms() :: (group, p.1) !in Rooms() ==> Untouched(p.1)
    {
      var members := if group in byGroup then byGroup[group] else {};
      var targets := Collect(members);
      assert forall c: Connection :: (group, c) in Rooms() <==> c in members;
      assert Members(group) == members;
      assert targets[..|targets|] == targets;
      ReadyCounts(targets, |targets|, members);
      delivered := Deliver(targets, payload);
    }

    method DeliverToUser(user: string, payload: Frame) returns (delivered: nat)
      requires Valid() && forall c <- conns :: c.Valid()
      modifies conns
      ensures delivered == |old(Able(Peers(user)))|
      ensures forall c <- conns :: if c.user == user then Received(c, payload) else Untouched(c)
    {
      assert UserAt(user);
      var members := if user in byUser then byUser[user] else {};
      assert members == Peers(user) && forall c <- conns :: c.user == user <==> c in members;
      var targets := Collect(members);
      assert targets[..|targets|] == targets;
      ReadyCounts(targets, |targets|, members);
      delivered := Deliver(targets, payload);
    }
  }

  /** An open connection with room in its queue took the frame; any other is closed. */
  twostate predicate Received(c: Connection, payload: Frame)
    reads c
  {
    if old(c.CanTake())
    then c.open && c.accepted == old(c.accepted) + [payload] && c.written == old(c.written) && c.Valid()
    else !c.open && c.accepted == old(c.accepted) && c.Valid()
  }

  twostate predicate Untouched(c: Connection)
    reads c
  {
    && c.queue == old(c.queue) && c.open == old(c.open) && c.writing == old(c.writing)
    && c.accepted == old(c.accepted) && c.written == old(c.written)
  }

  predicate Distinct(targets: seq<Connection>) {
    forall i, j | 0 <= i < j < |targets| :: targets[i] != targets[j]
  }

  /** How many of the first n targets can take a frame. */
  function Ready(targets: seq<Connection>, n: nat): nat
    requires n <= |targets|
    reads targets
  {
    if n == 0 then 0 else Ready(targets, n - 1) + if targets[n - 1].CanTake() then 1 else 0
  }

  /** Those of `members` that can take a frame. */
  ghost function Able(members: set<Connection>): set<Connection>
    reads members
  {
    set c | c in members && c.CanTake()
  }

  lemma {:induction false} ReadyCounts(targets: seq<Connection>, n: nat, members: set<Connection>)
    requires n <= |targets| && Distinct(targets) && forall c: Connection :: c in members <==> c in targets[..n]
    ensures Ready(targets, n) == |Able(members)|
  {
    if n == 0 {
      assert Able(members) == {};
    } else {
      var c := targets[n - 1];
      assert targets[..n] == targets[..n - 1] + [c];
      assert c !in targets[..n - 1];
      ReadyCounts(targets, n - 1, members - {c});
      assert Able(members) == Able(members - {c}) + if c.CanTake() then {c} else {};
    }
  }

  /** The targets of a delivery, collected under the hub's lock. */
  method Collect(members: set<Connection>) returns (targets: seq<Connection>)
    ensures Distinct(targets) && forall c: Connection :: c in members <==> c in targets
    ensures forall i | 0 <= i < |targets| :: targets[i] in members
  {
    targets := [];
    var todo := members;
    while todo != {}
      invariant todo <= members && Distinct(targets)
      invariant forall c: Connection :: c in targets <==> c in members - todo
      decreases |todo|
    {
      var conn :| conn in todo;
      assert forall i | 0 <= i < |targets| :: targets[i] in targets;
      todo, targets := todo - {conn}, targets + [conn];
    }
  }

  /** A peer that cannot take the frame is closed rather than left with a gap. */
  method Deliver(targets: seq<Connection>, payload: Frame) returns (delivered: nat)
    requires Distinct(targets) && forall i | 0 <= i < |targets| :: targets[i].Valid()
    modifies targets
    ensures delivered == old(Ready(targets, |targets|))
    ensures forall i | 0 <= i < |targets| :: Received(targets[i], payload)
  {
    delivered := 0;
    for i := 0 to |targets|
      invariant delivered == old(Ready(targets, i))
      invariant forall j | i <= j < |targets| :: Untouched(targets[j]) && targets[j].Valid()
      invariant forall j | 0 <= j < i :: Received(targets[j], payload)
    {
      assert Untouched(targets[i]);
      var ok := targets[i].SendRaw(payload, !targets[i].open);
      if ok {
        delivered := delivered + 1;
      } else {
        targets[i].Close();
      }
    }
  }
}
