/**
 From an outbox row to exactly one notification: the relay of module Relay, a consumer group that
 handles a record and then commits its offset, and the insert-or-ignore of the notification with its
 realtime hint in one transaction.  Any process may crash between any two of these.
 */
module Notifications {
  import opened Events
  import opened Wrappers
  import opened Outbox
  import Relay

  // ----- which event notifies whom -----

  datatype Kind = NewRegistration | ApprovedKind | RejectedKind | ExpiredKind

  /** notificationKey: one key for each event and recipient. */
  datatype Key = Key(eventId: nat, recipient: nat)

  /** The recipient of an event's notification, if it has one. */
  function Recipient(directory: Directory, event: Event): Option<nat> {
    match event
    case Hint(_, _) => None
    case Domain(eventType, activity, user) =>
      match eventType
      case RegistrationCreated =>
        if activity in directory.organizers && directory.organizers[activity] in directory.users
        then Some(directory.organizers[activity]) else None
      case RegistrationApproved | RegistrationRejected | RegistrationExpired =>
        if user in directory.users then Some(user) else None
      case RegistrationCancelled | OtherType => None
  }

  function KindOf(eventType: EventType): Kind {
    match eventType
    case RegistrationCreated => NewRegistration
    case RegistrationApproved => ApprovedKind
    case RegistrationRejected => RejectedKind
    case _ => ExpiredKind
  }

  // ----- the transaction and the consumer loop -----

  class NotificationTables {
    var notifications: map<Key, Kind>
    var outbox: seq<Row>

    constructor ()
      ensures notifications == map[] && outbox == []
    {
      notifications, outbox := map[], [];
    }

    /** NotificationRepository.Create: a duplicate key inserts nothing and announces nothing. */
    method Create(key: Key, kind: Kind, hint: Event) returns (created: bool)
      modifies this
      ensures created <==> key !in old(notifications)
      ensures notifications == if created then old(notifications)[key := kind] else old(notifications)
      ensures outbox == if created then old(outbox) + [NewRow(hint)] else old(outbox)
    {
      created := false;
      if key in notifications { return; }
      notifications := notifications[key := kind];
      created := true;
      outbox := outbox + [NewRow(hint)];
    }

    /** NotificationConsumer.HandleEvent for the record of outbox row `r`. */
    method HandleEvent(directory: Directory, r: nat)
      requires r < |outbox|
      modifies this
      ensures (outbox, notifications) == Handled(directory, old(outbox), old(notifications), r)
    {
      var event := outbox[r].event;
      var recipient := Recipient(directory, event);
      if recipient.Some? {
        var created := Create(Key(r, recipient.value), KindOf(event.eventType), Hint(r, recipient.value));
      }
    }
  }

  /** The tables after the record of row `r` is handled. */
  function Handled(directory: Directory, rows: seq<Row>, notifications: map<Key, Kind>, r: nat)
    : (seq<Row>, map<Key, Kind>)
    requires r < |rows|
  {
    match Recipient(directory, rows[r].event)
    case None => (rows, notifications)
    case Some(user) =>
      if Key(r, user) in notifications then (rows, notifications)
      else (rows + [NewRow(Hint(r, user))], notifications[Key(r, user) := KindOf(rows[r].event.eventType)])
  }

  /**
   Consumer.Run over the records of one fetch: each is handled and then committed, and the first
   failure ends it.  `handles` and `commits` say which calls succeed.  So the committed records are a
   prefix, all of them handled, and at most one handled record is left uncommitted.
   */
  method EachRecord(handles: seq<bool>, commits: seq<bool>) returns (handled: nat, committed: nat, failed: bool)
    requires |handles| == |commits|
    ensures committed <= handled <= |handles|
    ensures forall i | 0 <= i < committed :: handles[i] && commits[i]
    ensures failed <==> committed < |handles|
    ensures failed ==> !(handles[committed] && commits[committed])
    ensures handled == if failed && handles[committed] then committed + 1 else committed
  {
    handled, committed, failed := 0, 0, false;
    for i := 0 to |handles|
      invariant committed <= i && committed <= handled
      invariant forall j | 0 <= j < committed :: handles[j] && commits[j]
      invariant failed <==> committed < i
      invariant failed ==> !(handles[committed] && commits[committed])
      invariant handled == if failed && handles[committed] then committed + 1 else committed
    {
      if failed { continue; }
      if !handles[i] {
        failed := true;
        continue;
      }
      handled := handled + 1;
      if !commits[i] {
        failed := true;
      } else {
        committed := committed + 1;
      }
    }
  }

  // ----- the whole pipeline -----

  /** The partitions of the two topics the group subscribes to; all others belong to other topics. */
  datatype Layout = Layout(registration: set<nat>, ticket: set<nat>)

  predicate Subscribed(layout: Layout, p: nat) {
    p in layout.registration || p in layout.ticket
  }

  /** The relay's choice of topic: registration events, hints, and all the rest. */
  predicate Routed(layout: Layout, event: Event, p: nat) {
    match event
    case Hint(_, _) => !Subscribed(layout, p)
    case Domain(OtherType, _, _) => p !in layout.registration
    case Domain(_, _, _) => p in layout.registration
  }

  /**
   The topics' partitions, the relay's state, the committed offset of each partition, the records
   (partition, offset) ever handled, and the notifications.
   */
  datatype State = State(
    layout: Layout,
    relay: Relay.State,
    committed: seq<nat>,
    handled: set<(nat, nat)>,
    notifications: map<Key, Kind>)

  datatype Action =
    | RelayAction(action: Relay.Action)
    | Handle(partition: nat, offset: nat)
    | CommitOffset(partition: nat)
    | Rewind(partition: nat, offset: nat)

  /** Services enqueue domain events, only the handler enqueues hints, and messages land in their topic. */
  predicate Allowed(s: State, action: Relay.Action) {
    && (action.Enqueue? ==> action.event.Domain?)
    && (action.Land? ==>
          && action.row < |s.relay.rows|
          && Routed(s.layout, s.relay.rows[action.row].event, action.partition))
  }

  ghost predicate Step(directory: Directory, s: State, action: Action, next: State) {
    var logs := s.relay.logs;
    match action
    case RelayAction(a) => Allowed(s, a) && Relay.Step(s.relay, a, next.relay) && next == s.(relay := next.relay)
    case Handle(p, o) =>
      && Subscribed(s.layout, p) && p < |logs| && o < |logs[p]| && logs[p][o] < |s.relay.rows|
      && var (rows, notifications) := Handled(directory, s.relay.rows, s.notifications, logs[p][o]);
      && next.layout == s.layout && next.notifications == notifications
      && next.handled == s.handled + {(p, o)} && next.committed == s.committed
      && if rows == s.relay.rows then next.relay == s.relay
         else Relay.Step(s.relay, Relay.Enqueue(rows[|rows| - 1].event), next.relay)
    case CommitOffset(p) =>
      && p < |s.committed| && (p, s.committed[p]) in s.handled
      && next == s.(committed := s.committed[p := s.committed[p] + 1])
    case Rewind(p, o) => p < |s.committed| && o <= s.committed[p] && next == s.(committed := s.committed[p := o])
  }

  ghost predicate Initial(s: State) {
    && Relay.Initial(s.relay) && |s.committed| == |s.relay.logs|
    && (forall p | 0 <= p < |s.committed| :: s.committed[p] == 0)
    && s.handled == {} && s.notifications == map[]
  }

  // ----- the invariant -----

  /** How many hints the outbox holds for a notification. */
  function Hints(rows: seq<Row>, key: Key): nat {
    if rows == [] then 0
    else Hints(rows[..|rows| - 1], key) + if rows[|rows| - 1].event == Hint(key.eventId, key.recipient) then 1 else 0
  }

  ghost predicate WasHandled(s: State, r: nat) {
    exists p, o :: (p, o) in s.handled && p < |s.relay.logs| && o < |s.relay.logs[p]| && s.relay.logs[p][o] == r
  }

  /** Key of an event of the table that has that recipient. */
  predicate Notifies(directory: Directory, rows: seq<Row>, key: Key) {
    key.eventId < |rows| && Recipient(directory, rows[key.eventId].event) == Some(key.recipient)
  }

  ghost predicate KeyAt(directory: Directory, s: State, key: Key) {
    && (WasHandled(s, key.eventId) ==> key.eventId < |s.relay.rows|)
    && (key in s.notifications <==> Notifies(directory, s.relay.rows, key) && WasHandled(s, key.eventId))
    && (key in s.notifications ==> s.notifications[key] == KindOf(s.relay.rows[key.eventId].event.eventType))
    && Hints(s.relay.rows, key) == if key in s.notifications then 1 else 0
  }

  ghost predicate OffsetAt(s: State, p: nat) {
    p < |s.committed| && p < |s.relay.logs| ==>
      s.committed[p] <= |s.relay.logs[p]| && forall o | 0 <= o < s.committed[p] :: (p, o) in s.handled
  }

  ghost predicate RecordAt(s: State, p: nat, o: nat) {
    (p, o) in s.handled ==> p < |s.relay.logs| && o < |s.relay.logs[p]|
  }

  /** A record lies in a partition of its event's topic. */
  ghost predicate RoutedAt(s: State, p: nat, o: nat) {
    p < |s.relay.logs| && o < |s.relay.logs[p]| && s.relay.logs[p][o] < |s.relay.rows| ==>
      Routed(s.layout, s.relay.rows[s.relay.logs[p][o]].event, p)
  }

  ghost predicate Inv(directory: Directory, s: State) {
    && Relay.Inv(s.relay) && |s.committed| == |s.relay.logs|
    && (forall p: nat, o: nat :: RecordAt(s, p, o) && RoutedAt(s, p, o))
    && (forall p: nat :: OffsetAt(s, p))
    && (forall key: Key :: KeyAt(directory, s, key))
  }

  // ----- every step keeps it -----

  /** Hints only depends on the events, which the relay never rewrites. */
  lemma {:induction false} SameEventsSameHints(rows: seq<Row>, after: seq<Row>, key: Key)
    requires |rows| == |after| && forall r | 0 <= r < |rows| :: rows[r].event == after[r].event
    ensures Hints(rows, key) == Hints(after, key)
  {
    if rows != [] { SameEventsSameHints(rows[..|rows| - 1], after[..|after| - 1], key); }
  }

  lemma OneMoreRow(rows: seq<Row>, event: Event, key: Key)
    ensures Hints(rows + [NewRow(event)], key)
            == Hints(rows, key) + if event == Hint(key.eventId, key.recipient) then 1 else 0
  {
    assert (rows + [NewRow(event)])[..|rows|] == rows;
  }

  /** The records handled so far stay where they are while the logs grow. */
  lemma HandledStays(s: State, next: State, r: nat)
    requires Relay.Later(s.relay, next.relay) && next.handled == s.handled
    requires forall p: nat, o: nat :: RecordAt(s, p, o)
    ensures WasHandled(s, r) <==> WasHandled(next, r)
  {
    forall p: nat, o: nat | (p, o) in s.handled
      ensures p < |s.relay.logs| && o < |s.relay.logs[p]| && p < |next.relay.logs| && o < |next.relay.logs[p]|
      ensures s.relay.logs[p][o] == next.relay.logs[p][o]
    {
      assert RecordAt(s, p, o) && Relay.LogLater(s.relay, next.relay, p);
    }
  }

  lemma RelayKeepsHints(s: State, action: Relay.Action, next: State, key: Key)
    requires Relay.Inv(s.relay) && Allowed(s, action) && Relay.Step(s.relay, action, next.relay)
    ensures Hints(next.relay.rows, key) == Hints(s.relay.rows, key)
  {
    if action.Enqueue? {
      OneMoreRow(s.relay.rows, action.event, key);
    } else {
      Relay.StepKeeps(s.relay, action, next.relay);
      forall r | 0 <= r < |s.relay.rows| ensures s.relay.rows[r].event == next.relay.rows[r].event {
        assert Relay.RowLater(s.relay, next.relay, r);
      }
      SameEventsSameHints(s.relay.rows, next.relay.rows, key);
    }
  }

  /** Records stay in place, their events never change, and a new one lands in its topic. */
  lemma StillRouted(s: State, action: Relay.Action, next: State, p: nat, o: nat)
    requires Relay.Inv(s.relay) && Relay.Inv(next.relay) && Relay.Later(s.relay, next.relay)
    requires Allowed(s, action) && Relay.Step(s.relay, action, next.relay) && next.layout == s.layout
    requires RoutedAt(s, p, o)
    ensures RoutedAt(next, p, o)
  {
    if p < |next.relay.logs| && o < |next.relay.logs[p]| {
      var r := next.relay.logs[p][o];
      assert Relay.LogLater(s.relay, next.relay, p);
      if o < |s.relay.logs[p]| {
        assert s.relay.logs[p][o] in s.relay.offered;
      }
      assert r in s.relay.offered;
      assert Relay.RowLater(s.relay, next.relay, r);
    }
  }

  lemma RelayKeeps(directory: Directory, s: State, action: Relay.Action, next: State)
    requires Inv(directory, s) && Step(directory, s, RelayAction(action), next)
    ensures Inv(directory, next)
  {
    Relay.StepKeeps(s.relay, action, next.relay);
    forall p: nat, o: nat ensures RecordAt(next, p, o) && RoutedAt(next, p, o) {
      assert RecordAt(s, p, o) && RoutedAt(s, p, o) && Relay.LogLater(s.relay, next.relay, p);
      StillRouted(s, action, next, p, o);
    }
    forall p: nat ensures OffsetAt(next, p) {
      assert OffsetAt(s, p) && Relay.LogLater(s.relay, next.relay, p);
    }
    forall key: Key ensures KeyAt(directory, next, key) {
      assert KeyAt(directory, s, key) && Relay.RowLater(s.relay, next.relay, key.eventId);
      RelayKeepsHints(s, action, next, key);
      HandledStays(s, next, key.eventId);
    }
  }

  /** The tables after a record is handled, for one key. */
  lemma HandleKeepsKey(directory: Directory, s: State, p: nat, o: nat, next: State, key: Key)
    requires Relay.Inv(s.relay) && KeyAt(directory, s, key)
    requires Step(directory, s, Handle(p, o), next)
    ensures KeyAt(directory, next, key)
  {
    var rows, logs := s.relay.rows, s.relay.logs;
    var r := logs[p][o];
    assert next.relay.logs == logs;
    assert WasHandled(next, key.eventId) <==> WasHandled(s, key.eventId) || key.eventId == r by {
      assert (p, o) in next.handled;
      if WasHandled(s, key.eventId) {
        var q, k :| (q, k) in s.handled && q < |logs| && k < |logs[q]| && logs[q][k] == key.eventId;
        assert (q, k) in next.handled;
      }
    }
    match Recipient(directory, rows[r].event)
    case None =>
    case Some(user) => OneMoreRow(rows, Hint(r, user), key);
  }

  lemma HandleKeeps(directory: Directory, s: State, p: nat, o: nat, next: State)
    requires Inv(directory, s) && Step(directory, s, Handle(p, o), next)
    ensures Inv(directory, next)
  {
    var rows := Handled(directory, s.relay.rows, s.notifications, s.relay.logs[p][o]).0;
    if rows != s.relay.rows {
      Relay.StepKeeps(s.relay, Relay.Enqueue(rows[|rows| - 1].event), next.relay);
    }
    forall q: nat, k: nat ensures RecordAt(next, q, k) && RoutedAt(next, q, k) {
      assert RecordAt(s, q, k) && RoutedAt(s, q, k);
      assert q < |s.relay.logs| && k < |s.relay.logs[q]| ==> s.relay.logs[q][k] in s.relay.offered;
    }
    forall q: nat ensures OffsetAt(next, q) { assert OffsetAt(s, q); }
    forall key: Key ensures KeyAt(directory, next, key) {
      assert KeyAt(directory, s, key);
      HandleKeepsKey(directory, s, p, o, next, key);
    }
  }

  lemma OffsetKeeps(directory: Directory, s: State, action: Action, next: State)
    requires Inv(directory, s) && Step(directory, s, action, next) && (action.CommitOffset? || action.Rewind?)
    ensures Inv(directory, next)
  {
    assert RecordAt(s, action.partition, s.committed[action.partition]);
    forall q: nat, k: nat ensures RecordAt(next, q, k) && RoutedAt(next, q, k) {
      assert RecordAt(s, q, k) && RoutedAt(s, q, k);
      assert q < |s.relay.logs| && k < |s.relay.logs[q]| ==> s.relay.logs[q][k] in s.relay.offered;
    }
    forall q: nat ensures OffsetAt(next, q) { assert OffsetAt(s, q); }
    forall key: Key ensures KeyAt(directory, next, key) {
      assert KeyAt(directory, s, key);
      assert WasHandled(s, key.eventId) <==> WasHandled(next, key.eventId);
    }
  }

  // ----- runs -----

  ghost predicate Reaches(directory: Directory, s: State, next: State) {
    exists action :: Step(directory, s, action, next)
  }

  ghost predicate Run(directory: Directory, states: seq<State>) {
    && |states| > 0 && Initial(states[0])
    && forall i | 0 < i < |states| :: Reaches(directory, states[i - 1], states[i])
  }

  lemma ReachesKeeps(directory: Directory, s: State, next: State)
    requires Inv(directory, s) && Reaches(directory, s, next)
    ensures Inv(directory, next)
  {
    var action :| Step(directory, s, action, next);
    match action
    case RelayAction(a) => RelayKeeps(directory, s, a, next);
    case Handle(p, o) => HandleKeeps(directory, s, p, o, next);
    case CommitOffset(_) => OffsetKeeps(directory, s, action, next);
    case Rewind(_, _) => OffsetKeeps(directory, s, action, next);
  }

  lemma {:induction false} RunIsSound(directory: Directory, states: seq<State>, k: nat)
    requires Run(directory, states) && k < |states|
    ensures Inv(directory, states[k])
  {
    if k == 0 {
      Relay.InitialHolds(states[0].relay);
      forall p: nat, o: nat ensures RecordAt(states[0], p, o) && RoutedAt(states[0], p, o) {}
      forall p: nat ensures OffsetAt(states[0], p) {}
      forall key: Key ensures KeyAt(directory, states[0], key) {}
    } else {
      RunIsSound(directory, states, k - 1);
      ReachesKeeps(directory, states[k - 1], states[k]);
    }
  }

  // ----- what the pipeline promises -----

  /**
   The notifications are a function of the events handled so far, however often, in whatever order
   and with whatever crashes: one for each handled event that has a recipient, with exactly one
   realtime hint in the outbox; every other key has no hint at all.
   */
  lemma NotificationsAreTheHandledEvents(directory: Directory, states: seq<State>, k: nat, key: Key)
    requires Run(directory, states) && k < |states|
    ensures var s := states[k];
            && (key in s.notifications <==> Notifies(directory, s.relay.rows, key) && WasHandled(s, key.eventId))
            && Hints(s.relay.rows, key) == if key in s.notifications then 1 else 0
  {
    RunIsSound(directory, states, k);
    assert KeyAt(directory, states[k], key);
  }

  /** Who is told of an event, and how: the organizer of a new registration, the registrant of a decision. */
  ghost predicate Expected(directory: Directory, event: Event, recipient: nat, kind: Kind) {
    match event
    case Domain(RegistrationCreated, a, _) =>
      a in directory.organizers && recipient == directory.organizers[a] && recipient in directory.users
      && kind == NewRegistration
    case Domain(RegistrationApproved, _, user) =>
      recipient == user && user in directory.users && kind == ApprovedKind
    case Domain(RegistrationRejected, _, user) =>
      recipient == user && user in directory.users && kind == RejectedKind
    case Domain(RegistrationExpired, _, user) =>
      recipient == user && user in directory.users && kind == ExpiredKind
    case _ => false
  }

  /** So for each event type the notifications say the right thing to the right person. */
  lemma EachEventIsTold(directory: Directory, states: seq<State>, k: nat, key: Key, kind: Kind)
    requires Run(directory, states) && k < |states|
    ensures var s := states[k];
            key in s.notifications && s.notifications[key] == kind <==>
              && WasHandled(s, key.eventId) && key.eventId < |s.relay.rows|
              && Expected(directory, s.relay.rows[key.eventId].event, key.recipient, kind)
  {
    RunIsSound(directory, states, k);
    assert KeyAt(directory, states[k], key);
  }

  /** A committed offset never passes a record that was not handled. */
  lemma CommittedMeansHandled(directory: Directory, states: seq<State>, k: nat, p: nat, o: nat)
    requires Run(directory, states) && k < |states| && p < |states[k].committed| && o < states[k].committed[p]
    ensures p < |states[k].relay.logs| && o < |states[k].relay.logs[p]|
    ensures WasHandled(states[k], states[k].relay.logs[p][o])
  {
    RunIsSound(directory, states, k);
    assert OffsetAt(states[k], p) && (p, o) in states[k].handled;
  }

  /** The group has committed every record of its topics. */
  ghost predicate CaughtUp(s: State) {
    && |s.committed| == |s.relay.logs|
    && forall p: nat :: p < |s.committed| && Subscribed(s.layout, p) ==> s.committed[p] == |s.relay.logs[p]|
  }

  /**
   End to end: an event whose row is sent has its notification once the group has caught up.  So
   when every event with a recipient is sent, the notifications are exactly those the events call for.
   */
  lemma SentAndCaughtUpMeansNotified(directory: Directory, states: seq<State>, k: nat, key: Key)
    requires Run(directory, states) && k < |states| && CaughtUp(states[k])
    requires Notifies(directory, states[k].relay.rows, key) ==> states[k].relay.rows[key.eventId].status == Sent
    ensures key in states[k].notifications <==> Notifies(directory, states[k].relay.rows, key)
    ensures Hints(states[k].relay.rows, key) == if Notifies(directory, states[k].relay.rows, key) then 1 else 0
  {
    var s := states[k];
    RunIsSound(directory, states, k);
    assert KeyAt(directory, s, key);
    if Notifies(directory, s.relay.rows, key) {
      assert Relay.RowAt(s.relay, key.eventId);
      var p :| 0 <= p < |s.relay.logs| && key.eventId in s.relay.logs[p];
      var o :| 0 <= o < |s.relay.logs[p]| && s.relay.logs[p][o] == key.eventId;
      assert RoutedAt(s, p, o);
      CommittedMeansHandled(directory, states, k, p, o);
    }
  }
}
