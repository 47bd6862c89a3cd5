/**
 From a reviewed registration to its notification: the core's outbox, carried by the relay and handled by
 the notification consumer, notifies the user of each approval exactly once.
 */
module Approvals {
  import opened Wrappers
  import opened Model
  import opened Protocol
  import opened Invariants
  import opened Reachable
  import opened Announcements

  import Events
  import Outbox
  import Notifications

  // ----- one approval for each registration -----

  predicate IsApproval(outbox: seq<Event>, j: nat, r: Id) {
    && j < |outbox| && outbox[j].RegistrationEvent? && outbox[j].registrationId == r
    && outbox[j].from.Some? && outbox[j].to == Approved
  }

  ghost predicate SameApproval(outbox: seq<Event>, r: Id, i: nat, j: nat) {
    IsApproval(outbox, i, r) && IsApproval(outbox, j, r) ==> i == j
  }

  /** An approval is a step from pending that is not taken back. */
  ghost predicate ApprovedOnce(db: Db, r: Id) {
    && (forall i: nat, j: nat :: SameApproval(db.outbox, r, i, j))
    && (forall j: nat :: IsApproval(db.outbox, j, r) ==>
          && db.outbox[j].from == Some(Pending)
          && r in db.registrations && db.registrations[r].status != Pending)
  }

  lemma StepApprovesOnce(db: Db, events: seq<Event>, next: Db, r: Id)
    requires Changes(db, events, next) && ApprovedOnce(db, r)
    ensures ApprovedOnce(next, r)
  {
    var n := |db.outbox|;
    if events != [] && events[0].RegistrationEvent? && events[0].registrationId == r {
      StatusMoved(db, events, next);
    } else {
      StatusKept(db, events, next, r);
    }
    forall j: nat | IsApproval(next.outbox, j, r)
      ensures if j < n then IsApproval(db.outbox, j, r) else j == n && events[0] == next.outbox[j]
    {
      assert j >= n ==> next.outbox[j] == events[j - n];
    }
    assert forall i: nat, j: nat :: SameApproval(db.outbox, r, i, j);
    forall i: nat, j: nat ensures SameApproval(next.outbox, r, i, j) {
      assert SameApproval(db.outbox, r, i, j);
    }
  }

  lemma {:induction false} RunApprovesOnce(history: seq<Db>, k: nat, r: Id)
    requires Run(history) && k < |history|
    ensures ApprovedOnce(history[k], r)
  {
    if k == 0 {
      forall i: nat, j: nat ensures SameApproval(history[0].outbox, r, i, j) {}
    } else {
      RunApprovesOnce(history, k - 1, r);
      var events := RunChanges(history, k);
      StepApprovesOnce(history[k - 1], events, history[k], r);
    }
  }

  lemma {:induction false} AnnouncedIsAnEvent(outbox: seq<Event>, r: Id) returns (j: nat)
    requires (Pending, Approved) in AnnouncedChanges(outbox, r)
    ensures IsApproval(outbox, j, r)
  {
    var n := |outbox| - 1;
    if (Pending, Approved) in AnnouncedChanges(outbox[..n], r) {
      j := AnnouncedIsAnEvent(outbox[..n], r);
    } else {
      j := n;
    }
  }

  lemma {:induction false} AnEventIsAnnounced(outbox: seq<Event>, j: nat, r: Id)
    requires IsApproval(outbox, j, r) && outbox[j].from == Some(Pending)
    ensures (Pending, Approved) in AnnouncedChanges(outbox, r)
  {
    var n := |outbox| - 1;
    if j < n { AnEventIsAnnounced(outbox[..n], j, r); }
  }

  // ----- the rows that carry the outbox -----

  function DomainOf(e: Event): Events.Event {
    match e
    case ActivityEvent(_, a, _, _) => Events.Domain(EventTypeOf(e), a, 0)
    case RegistrationEvent(_, a, u, _, _) => Events.Domain(EventTypeOf(e), a, u)
    case TicketEvent(_, _, a) => Events.Domain(EventTypeOf(e), a, 0)
  }

  /** How many rows before row `i` are not hints. */
  function Source(rows: seq<Outbox.Row>, i: nat): nat
    requires i <= |rows|
  {
    if i == 0 then 0 else Source(rows, i - 1) + if rows[i - 1].event.Domain? then 1 else 0
  }

  ghost predicate CarriesAt(rows: seq<Outbox.Row>, outbox: seq<Event>, i: nat) {
    i < |rows| && rows[i].event.Domain? ==>
      Source(rows, i) < |outbox| && rows[i].event == DomainOf(outbox[Source(rows, i)])
  }

  /** The rows that are not hints are the core's outbox, in order. */
  ghost predicate Carries(rows: seq<Outbox.Row>, outbox: seq<Event>) {
    Source(rows, |rows|) == |outbox| && forall i: nat :: CarriesAt(rows, outbox, i)
  }

  lemma {:induction false} SourceGrows(rows: seq<Outbox.Row>, i: nat, j: nat)
    requires i <= j <= |rows|
    ensures Source(rows, i) <= Source(rows, j)
    ensures i < j && rows[i].event.Domain? ==> Source(rows, i) < Source(rows, j)
  {
    if i < j { SourceGrows(rows, i, j - 1); }
  }

  lemma {:induction false} RowFor(rows: seq<Outbox.Row>, n: nat, j: nat) returns (i: nat)
    requires n <= |rows| && j < Source(rows, n)
    ensures i < n && rows[i].event.Domain? && Source(rows, i) == j
  {
    if j < Source(rows, n - 1) {
      i := RowFor(rows, n - 1, j);
    } else {
      i := n - 1;
    }
  }

  // ----- the notification -----

  /** The event of which a notification of that kind tells. */
  predicate Caused(e: Event, kind: Notifications.Kind) {
    && e.RegistrationEvent?
    && match kind
       case NewRegistration => e.from.None?
       case ApprovedKind => e.from.Some? && e.to == Approved
       case RejectedKind => e.from.Some? && e.to == Rejected
       case ExpiredKind => e.from.Some? && e.to == Expired
  }

  /**
   Every notification tells of a registration event of the core, in its own kind: a new registration goes
   to the organizer the directory names, and a decision to the registration's own user.
   */
  lemma NotificationsTellTheCore(directory: Events.Directory, history: seq<Db>, k: nat,
                                 states: seq<Notifications.State>, m: nat, key: Notifications.Key)
    requires Run(history) && k < |history|
    requires Notifications.Run(directory, states) && m < |states|
    requires Carries(states[m].relay.rows, history[k].outbox) && key in states[m].notifications
    ensures key.eventId < |states[m].relay.rows|
    ensures Source(states[m].relay.rows, key.eventId) < |history[k].outbox|
    ensures var e, kind := history[k].outbox[Source(states[m].relay.rows, key.eventId)], states[m].notifications[key];
            && Caused(e, kind) && e.registrationId in history[k].registrations
            && (if kind == Notifications.NewRegistration then
                  e.activityId in directory.organizers && key.recipient == directory.organizers[e.activityId]
                else key.recipient == history[k].registrations[e.registrationId].userId)
  {
    var s, db := states[m], history[k];
    RunIsSound(history);
    Notifications.EachEventIsTold(directory, states, m, key, s.notifications[key]);
    assert CarriesAt(s.relay.rows, db.outbox, key.eventId);
    assert EventAt(db.registrations, db.outbox, Source(s.relay.rows, key.eventId));
  }

  /** Row `r` is sent if it carries event `j` of the core. */
  predicate SentIfFor(rows: seq<Outbox.Row>, j: nat, r: nat) {
    r < |rows| && rows[r].event.Domain? && Source(rows, r) == j ==> rows[r].status == Outbox.Sent
  }

  /** A decision whose event is sent is told, in its own kind, once the consumer group has caught up. */
  lemma DecisionsAreTold(directory: Events.Directory, history: seq<Db>, k: nat,
                         states: seq<Notifications.State>, m: nat, j: nat, kind: Notifications.Kind) returns (i: nat)
    requires Run(history) && k < |history|
    requires Notifications.Run(directory, states) && m < |states| && Notifications.CaughtUp(states[m])
    requires Carries(states[m].relay.rows, history[k].outbox)
    requires forall r: nat :: SentIfFor(states[m].relay.rows, j, r)
    requires j < |history[k].outbox| && Caused(history[k].outbox[j], kind) && kind != Notifications.NewRegistration
    requires history[k].outbox[j].userId in directory.users
    ensures var key := Notifications.Key(i, history[k].outbox[j].userId);
            && i < |states[m].relay.rows| && Source(states[m].relay.rows, i) == j
            && key in states[m].notifications && states[m].notifications[key] == kind
            && Notifications.Hints(states[m].relay.rows, key) == 1
  {
    var s, db := states[m], history[k];
    i := RowFor(s.relay.rows, |s.relay.rows|, j);
    var key := Notifications.Key(i, db.outbox[j].userId);
    assert CarriesAt(s.relay.rows, db.outbox, i) && SentIfFor(s.relay.rows, j, i);
    Notifications.SentAndCaughtUpMeansNotified(directory, states, m, key);
    Notifications.EachEventIsTold(directory, states, m, key, s.notifications[key]);
  }

  /** Row `i` announces the approval of registration `r`. */
  predicate ApprovalRow(rows: seq<Outbox.Row>, outbox: seq<Event>, r: Id, i: nat) {
    i < |rows| && rows[i].event.Domain? && IsApproval(outbox, Source(rows, i), r)
  }

  /** A notification that tells somebody of the approval of registration `r`. */
  ghost predicate TellsApproval(s: Notifications.State, outbox: seq<Event>, r: Id, key: Notifications.Key) {
    key in s.notifications && ApprovalRow(s.relay.rows, outbox, r, key.eventId)
  }

  /** The row that announces the approval of registration `r`, if there is one, is sent. */
  ghost predicate ApprovalSent(s: Notifications.State, outbox: seq<Event>, r: Id) {
    forall i: nat :: ApprovalRow(s.relay.rows, outbox, r, i) ==> s.relay.rows[i].status == Outbox.Sent
  }

  /** What a notification of an approval says, and to whom. */
  lemma WhatItTells(directory: Events.Directory, history: seq<Db>, k: nat, states: seq<Notifications.State>, m: nat,
                    r: Id, key: Notifications.Key)
    requires Run(history) && k < |history|
    requires Notifications.Run(directory, states) && m < |states|
    requires Carries(states[m].relay.rows, history[k].outbox)
    requires TellsApproval(states[m], history[k].outbox, r, key)
    ensures states[m].notifications[key] == Notifications.ApprovedKind
    ensures r in history[k].registrations && key.recipient == history[k].registrations[r].userId
    ensures Notifications.Hints(states[m].relay.rows, key) == 1
  {
    var s, db := states[m], history[k];
    RunIsSound(history);
    Notifications.RunIsSound(directory, states, m);
    assert Notifications.KeyAt(directory, s, key);
    assert CarriesAt(s.relay.rows, db.outbox, key.eventId);
    assert EventAt(db.registrations, db.outbox, Source(s.relay.rows, key.eventId));
  }

  /**
   Once its event is sent and the consumer group has caught up, a registration has a notification of its
   approval iff the status log records that it was approved by a review.
   */
  lemma ApprovalIsTold(directory: Events.Directory, history: seq<Db>, k: nat, states: seq<Notifications.State>, m: nat,
                       r: Id)
    requires Run(history) && k < |history|
    requires Notifications.Run(directory, states) && m < |states| && Notifications.CaughtUp(states[m])
    requires Carries(states[m].relay.rows, history[k].outbox) && ApprovalSent(states[m], history[k].outbox, r)
    requires r in history[k].registrations && history[k].registrations[r].userId in directory.users
    ensures (exists key :: TellsApproval(states[m], history[k].outbox, r, key))
            <==> (Pending, Approved) in LoggedChanges(history[k].registrationLog, r)
  {
    var s, db := states[m], history[k];
    RunIsSound(history);
    assert RegistrationAccounted(db.registrations, db.registrationLog, db.outbox, r);
    RunApprovesOnce(history, k, r);
    if (Pending, Approved) in LoggedChanges(db.registrationLog, r) {
      var j := AnnouncedIsAnEvent(db.outbox, r);
      var i := RowFor(s.relay.rows, |s.relay.rows|, j);
      var key := Notifications.Key(i, db.registrations[r].userId);
      assert CarriesAt(s.relay.rows, db.outbox, i);
      assert EventAt(db.registrations, db.outbox, j);
      Notifications.SentAndCaughtUpMeansNotified(directory, states, m, key);
      assert TellsApproval(s, db.outbox, r, key);
    }
    if key :| TellsApproval(s, db.outbox, r, key) {
      AnEventIsAnnounced(db.outbox, Source(s.relay.rows, key.eventId), r);
    }
  }

  /** And it never has two. */
  lemma ApprovalIsToldOnce(directory: Events.Directory, history: seq<Db>, k: nat, states: seq<Notifications.State>,
                           m: nat, r: Id, key: Notifications.Key, other: Notifications.Key)
    requires Run(history) && k < |history|
    requires Notifications.Run(directory, states) && m < |states|
    requires Carries(states[m].relay.rows, history[k].outbox)
    requires TellsApproval(states[m], history[k].outbox, r, key)
    requires TellsApproval(states[m], history[k].outbox, r, other)
    ensures key == other
  {
    var rows, outbox := states[m].relay.rows, history[k].outbox;
    RunApprovesOnce(history, k, r);
    assert SameApproval(outbox, r, Source(rows, key.eventId), Source(rows, other.eventId));
    SourceGrows(rows, key.eventId, if key.eventId <= other.eventId then other.eventId else key.eventId);
    SourceGrows(rows, other.eventId, if key.eventId <= other.eventId then other.eventId else key.eventId);
    WhatItTells(directory, history, k, states, m, r, key);
    WhatItTells(directory, history, k, states, m, r, other);
  }
}
