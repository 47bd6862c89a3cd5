/** What one written registration or ticket row does to the invariant, whoever writes it. */
module Slots {
  import opened Wrappers
  import opened Model
  import opened Transactions
  import opened Invariants
  import opened Folds

  // ----- one registration row written -----

  /** Only participant counters differ. */
  ghost predicate SameButCounters(was: map<Id, Activity>, now: map<Id, Activity>) {
    && was.Keys == now.Keys
    && forall a <- was :: was[a].(approved := now[a].approved, pending := now[a].pending) == now[a]
  }

  lemma ActivityHistoryKept(was: map<Id, Activity>, now: map<Id, Activity>, log: seq<ActivityLog>, outbox: seq<Event>,
                            more: seq<Event>)
    requires ActivityHistoryOk(was, log, outbox) && SameButCounters(was, now)
    requires forall a: Id :: ActivityEvents(more, a) == ActivityEvents(outbox, a)
    ensures ActivityHistoryOk(now, log, more)
  {
    forall a: Id ensures ActivityAccounted(now, log, more, a) {
      assert ActivityAccounted(was, log, outbox, a);
    }
  }

  lemma RegistrationWritten(was: map<Id, Activity>, now: map<Id, Activity>, registrations: map<Id, Registration>,
                            id: Id, row: Registration)
    requires RegistrationsOk(was, registrations) && SameButCounters(was, now)
    requires row.activityId in was && RegistrationRowOk(row, was[row.activityId])
    ensures RegistrationsOk(now, registrations[id := row])
  {
    var after := registrations[id := row];
    forall r: Id ensures RegistrationAt(now, after, r) {
      assert RegistrationAt(was, registrations, r);
    }
  }

  lemma ActiveWritten(registrations: map<Id, Registration>, id: Id, row: Registration)
    requires OneActive(registrations)
    requires row.active ==>
               if id in registrations then SameSlot(row, registrations[id])
               else !HasActive(registrations, row.activityId, row.userId)
    ensures OneActive(registrations[id := row])
  {
    var after := registrations[id := row];
    forall r: Id, q: Id ensures SlotUnique(after, r, q) {
      assert SlotUnique(registrations, r, q) && SlotUnique(registrations, id, q) && SlotUnique(registrations, r, id);
    }
  }

  lemma CountersWritten(activities: map<Id, Activity>, registrations: map<Id, Registration>, id: Id, row: Registration,
                        approved: nat, pending: nat)
    requires CountersOk(activities, registrations) && row.activityId in activities
    requires id in registrations ==> registrations[id].activityId == row.activityId
    requires approved == activities[row.activityId].approved
                         - (if id in registrations && registrations[id].status == Approved then 1 else 0)
                         + (if row.status == Approved then 1 else 0)
    requires pending == activities[row.activityId].pending
                        - (if id in registrations && registrations[id].status == Pending then 1 else 0)
                        + (if row.status == Pending then 1 else 0)
    requires approved + pending <= activities[row.activityId].form.maxParticipants
    ensures CountersOk(activities[row.activityId :=
                         activities[row.activityId].(approved := approved, pending := pending)],
                       registrations[id := row])
  {
    var after := registrations[id := row];
    var now := activities[row.activityId := activities[row.activityId].(approved := approved, pending := pending)];
    forall a: Id ensures CounterOk(now, after, a) {
      HoldingWritten(registrations, id, row, a, Approved);
      HoldingWritten(registrations, id, row, a, Pending);
      assert CounterOk(activities, registrations, a);
    }
  }

  /** No ticket points at a registration that is new or pending, so writing it disturbs none. */
  lemma TicketsFollow(was: map<Id, Activity>, now: map<Id, Activity>, registrations: map<Id, Registration>,
                      tickets: map<Id, Ticket>, id: Id, row: Registration)
    requires TicketsOk(was, registrations, tickets) && SameButCounters(was, now)
    requires id in registrations ==> registrations[id].status == Pending
    ensures TicketsOk(now, registrations[id := row], tickets)
  {
    var after := registrations[id := row];
    forall t: Id ensures TicketAt(now, after, tickets, t) {
      assert TicketAt(was, registrations, tickets, t);
    }
  }

  lemma TicketInserted(activities: map<Id, Activity>, registrations: map<Id, Registration>, tickets: map<Id, Ticket>,
                       checkIns: map<Id, CheckIn>, id: Id, row: Ticket)
    requires TicketsOk(activities, registrations, tickets) && OneTicketEach(tickets) && CheckInsOk(tickets, checkIns)
    requires !TicketKeyTaken(tickets, id, row) && row.status == Unused
    requires row.registrationId in registrations && registrations[row.registrationId].activityId in activities
    requires TicketRowOk(row, registrations[row.registrationId],
                         activities[registrations[row.registrationId].activityId])
    ensures TicketsOk(activities, registrations, tickets[id := row])
    ensures OneTicketEach(tickets[id := row]) && CheckInsOk(tickets[id := row], checkIns)
  {
    var more := tickets[id := row];
    forall t: Id ensures TicketAt(activities, registrations, more, t) && UsedIsRedeemed(more, checkIns, t) {
      assert TicketAt(activities, registrations, tickets, t) && UsedIsRedeemed(tickets, checkIns, t);
    }
    forall t: Id, u: Id ensures TicketUnique(more, t, u) {
      assert TicketUnique(tickets, t, u);
    }
    forall c: Id ensures CheckInAt(more, checkIns, c) {
      assert CheckInAt(tickets, checkIns, c);
    }
  }

  lemma ApprovedWritten(registrations: map<Id, Registration>, tickets: map<Id, Ticket>, more: map<Id, Ticket>,
                        id: Id, row: Registration)
    requires ApprovedHaveTickets(registrations, tickets)
    requires forall t <- tickets :: t in more && more[t].registrationId == tickets[t].registrationId
    requires row.status == Approved ==> HasTicket(more, id)
    ensures ApprovedHaveTickets(registrations[id := row], more)
  {
    var after := registrations[id := row];
    forall r: Id ensures TicketIfApproved(after, more, r) {
      assert TicketIfApproved(registrations, tickets, r);
      if r != id && HasTicket(tickets, r) { HasTicketKept(tickets, more, r); }
    }
  }

  /** One registration event, with its log entry unless it is the creation. */
  lemma RegistrationHistoryWritten(registrations: map<Id, Registration>, log: seq<RegistrationLog>,
                                   more: seq<RegistrationLog>, outbox: seq<Event>, id: Id, row: Registration, e: Event)
    requires RegistrationHistoryOk(registrations, log, outbox)
    requires e.RegistrationEvent? && e.registrationId == id && e.to == row.status
    requires e.activityId == row.activityId && e.userId == row.userId
    requires id in registrations ==>
               registrations[id].activityId == row.activityId && registrations[id].userId == row.userId
    requires e.from == if id in registrations then Some(registrations[id].status) else None
    requires if e.from.None? then more == log
             else |more| == |log| + 1 && more[..|log|] == log && more[|log|].registrationId == id
                  && more[|log|].from == e.from.value && more[|log|].to == e.to
    ensures RegistrationHistoryOk(registrations[id := row], more, outbox + [e])
  {
    EventAppended(outbox, e);
    if e.from.Some? {
      RegistrationLogAppended(log, more[|log|]);
      assert more == log + [more[|log|]];
    }
    var after, events := registrations[id := row], outbox + [e];
    forall r: Id ensures RegistrationAccounted(after, more, events, r) {
      assert RegistrationAccounted(registrations, log, outbox, r);
    }
    forall k: nat ensures EventAt(after, events, k) {
      assert EventAt(registrations, outbox, k);
    }
  }

  /** Ticket events say nothing about registrations or activities. */
  lemma TicketEventAppended(registrations: map<Id, Registration>, log: seq<RegistrationLog>, outbox: seq<Event>,
                            e: Event)
    requires RegistrationHistoryOk(registrations, log, outbox) && e.TicketEvent?
    ensures RegistrationHistoryOk(registrations, log, outbox + [e])
    ensures forall a: Id :: ActivityEvents(outbox + [e], a) == ActivityEvents(outbox, a)
  {
    EventAppended(outbox, e);
    var events := outbox + [e];
    forall r: Id ensures RegistrationAccounted(registrations, log, events, r) {
      assert RegistrationAccounted(registrations, log, outbox, r);
    }
    forall k: nat ensures EventAt(registrations, events, k) {
      assert EventAt(registrations, outbox, k);
    }
  }

  /** Registration events say nothing about tickets or activities. */
  lemma RegistrationEventAppended(registrations: map<Id, Registration>, tickets: map<Id, Ticket>, outbox: seq<Event>,
                                  id: Id, row: Registration, e: Event)
    requires TicketHistoryOk(registrations, tickets, outbox) && e.RegistrationEvent?
    requires id in registrations && registrations[id].status == Cancelled ==> row.status == Cancelled
    ensures TicketHistoryOk(registrations[id := row], tickets, outbox + [e])
    ensures forall a: Id :: ActivityEvents(outbox + [e], a) == ActivityEvents(outbox, a)
  {
    EventAppended(outbox, e);
    var after, events := registrations[id := row], outbox + [e];
    forall t: Id ensures TicketAccounted(after, tickets, events, t) {
      assert TicketAccounted(registrations, tickets, outbox, t);
    }
  }

  lemma TicketIssued(registrations: map<Id, Registration>, tickets: map<Id, Ticket>, outbox: seq<Event>,
                     id: Id, row: Ticket, e: Event)
    requires TicketHistoryOk(registrations, tickets, outbox)
    requires id !in tickets && row.status == Unused && e.TicketEvent? && e.ticketKind == TicketCreated
        && e.ticketId == id
    ensures TicketHistoryOk(registrations, tickets[id := row], outbox + [e])
  {
    EventAppended(outbox, e);
    var after, events := tickets[id := row], outbox + [e];
    forall t: Id ensures TicketAccounted(registrations, after, events, t) {
      assert TicketAccounted(registrations, tickets, outbox, t);
    }
  }

  // ----- the pieces together -----

  /** The activity row after its counters moved. */
  function Counted(activities: map<Id, Activity>, a: Id, approved: nat, pending: nat): map<Id, Activity>
  {
    if a in activities then activities[a := activities[a].(approved := approved, pending := pending)] else activities
  }

  /** A registration row written together with the counters of its activity. */
  lemma SlotWritten(activities: map<Id, Activity>, groups: map<Id, Group>, registrations: map<Id, Registration>,
                    id: Id, row: Registration, approved: nat, pending: nat)
    requires ActivitiesOk(activities) && GroupsOk(activities, groups)
    requires RegistrationsOk(activities, registrations) && OneActive(registrations)
        && CountersOk(activities, registrations)
    requires row.activityId in activities && RegistrationRowOk(row, activities[row.activityId])
    requires if id in registrations then registrations[id].activityId == row.activityId else row.active
    requires row.active ==>
               if id in registrations then SameSlot(row, registrations[id])
               else !HasActive(registrations, row.activityId, row.userId)
    requires approved == activities[row.activityId].approved
                         - (if id in registrations && registrations[id].status == Approved then 1 else 0)
                         + (if row.status == Approved then 1 else 0)
    requires pending == activities[row.activityId].pending
                        - (if id in registrations && registrations[id].status == Pending then 1 else 0)
                        + (if row.status == Pending then 1 else 0)
    requires approved + pending <= activities[row.activityId].form.maxParticipants
    ensures var now := Counted(activities, row.activityId, approved, pending);
            && SameButCounters(activities, now) && ActivitiesOk(now) && GroupsOk(now, groups)
            && RegistrationsOk(now, registrations[id := row]) && OneActive(registrations[id := row])
            && CountersOk(now, registrations[id := row])
  {
    var now := Counted(activities, row.activityId, approved, pending);
    CountersWritten(activities, registrations, id, row, approved, pending);
    ActiveWritten(registrations, id, row);
    RegistrationWritten(activities, now, registrations, id, row);
    forall a: Id ensures ActivityAt(now, a) && GroupAt(now, groups, a) {
      assert ActivityAt(activities, a) && GroupAt(activities, groups, a);
    }
  }

  /** The registration event and log entry of a written row. */
  lemma ChangeRecorded(was: map<Id, Activity>, now: map<Id, Activity>, registrations: map<Id, Registration>,
                       tickets: map<Id, Ticket>, activityLog: seq<ActivityLog>,
                       log: seq<RegistrationLog>, more: seq<RegistrationLog>, outbox: seq<Event>,
                       id: Id, row: Registration, e: Event)
    requires ActivityHistoryOk(was, activityLog, outbox) && SameButCounters(was, now)
    requires RegistrationHistoryOk(registrations, log, outbox) && TicketHistoryOk(registrations, tickets, outbox)
    requires e.RegistrationEvent? && e.registrationId == id && e.to == row.status
    requires e.activityId == row.activityId && e.userId == row.userId
    requires id in registrations ==>
               registrations[id].activityId == row.activityId && registrations[id].userId == row.userId
    requires e.from == if id in registrations then Some(registrations[id].status) else None
    requires if e.from.None? then more == log
             else |more| == |log| + 1 && more[..|log|] == log && more[|log|].registrationId == id
                  && more[|log|].from == e.from.value && more[|log|].to == e.to
    requires id in registrations && registrations[id].status == Cancelled ==> row.status == Cancelled
    ensures ActivityHistoryOk(now, activityLog, outbox + [e])
    ensures RegistrationHistoryOk(registrations[id := row], more, outbox + [e])
    ensures TicketHistoryOk(registrations[id := row], tickets, outbox + [e])
  {
    RegistrationHistoryWritten(registrations, log, more, outbox, id, row, e);
    RegistrationEventAppended(registrations, tickets, outbox, id, row, e);
    ActivityHistoryKept(was, now, activityLog, outbox, outbox + [e]);
  }

  /** The ticket.created event of an issued ticket. */
  lemma TicketIssueRecorded(activities: map<Id, Activity>, registrations: map<Id, Registration>,
                            tickets: map<Id, Ticket>, activityLog: seq<ActivityLog>,
                            log: seq<RegistrationLog>, outbox: seq<Event>,
                            id: Id, row: Ticket, e: Event)
    requires ActivityHistoryOk(activities, activityLog, outbox)
    requires RegistrationHistoryOk(registrations, log, outbox) && TicketHistoryOk(registrations, tickets, outbox)
    requires id !in tickets && row.status == Unused
    requires e.TicketEvent? && e.ticketKind == TicketCreated && e.ticketId == id
    ensures ActivityHistoryOk(activities, activityLog, outbox + [e])
    ensures RegistrationHistoryOk(registrations, log, outbox + [e])
    ensures TicketHistoryOk(registrations, tickets[id := row], outbox + [e])
  {
    TicketEventAppended(registrations, log, outbox, e);
    TicketIssued(registrations, tickets, outbox, id, row, e);
    ActivityHistoryKept(activities, activities, activityLog, outbox, outbox + [e]);
  }
}
