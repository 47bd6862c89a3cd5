/** Checking in and expiring tickets keep the invariant. */
module Redemption {
  import opened Wrappers
  import opened Model
  import opened Transactions
  import opened Invariants
  import opened Folds

  /** An unused ticket closed as used or expired, by the event of that name. */
  lemma CloseRecorded(activities: map<Id, Activity>, activityLog: seq<ActivityLog>,
                      registrations: map<Id, Registration>, log: seq<RegistrationLog>,
                      tickets: map<Id, Ticket>, outbox: seq<Event>, t: Id, to: TicketStatus, e: Event)
    requires ActivityHistoryOk(activities, activityLog, outbox)
    requires RegistrationHistoryOk(registrations, log, outbox) && TicketHistoryOk(registrations, tickets, outbox)
    requires t in tickets && tickets[t].status == Unused
    requires e.TicketEvent? && e.ticketId == t
    requires (to == Used && e.ticketKind == TicketUsed) || (to == TicketExpired && e.ticketKind == TicketExpiredEvent)
    ensures ActivityHistoryOk(activities, activityLog, outbox + [e])
    ensures RegistrationHistoryOk(registrations, log, outbox + [e])
    ensures TicketHistoryOk(registrations, CloseTicket(tickets, t, to), outbox + [e])
  {
    var closed, events := CloseTicket(tickets, t, to), outbox + [e];
    EventAppended(outbox, e);
    forall u: Id ensures TicketAccounted(registrations, closed, events, u) {
      assert TicketAccounted(registrations, tickets, outbox, u);
    }
    forall r: Id ensures RegistrationAccounted(registrations, log, events, r) {
      assert RegistrationAccounted(registrations, log, outbox, r);
    }
    forall a: Id ensures ActivityAccounted(activities, activityLog, events, a) {
      assert ActivityAccounted(activities, activityLog, outbox, a);
    }
    forall k: nat ensures EventAt(registrations, events, k) {
      assert EventAt(registrations, outbox, k);
    }
  }

  lemma TicketClosed(activities: map<Id, Activity>, registrations: map<Id, Registration>, tickets: map<Id, Ticket>,
                     t: Id, to: TicketStatus)
    requires TicketsOk(activities, registrations, tickets) && OneTicketEach(tickets)
    requires ApprovedHaveTickets(registrations, tickets)
    requires to == Used || to == TicketExpired
    ensures TicketsOk(activities, registrations, CloseTicket(tickets, t, to))
        && OneTicketEach(CloseTicket(tickets, t, to))
    ensures ApprovedHaveTickets(registrations, CloseTicket(tickets, t, to))
  {
    var closed := CloseTicket(tickets, t, to);
    forall u: Id ensures TicketAt(activities, registrations, closed, u) {
      assert TicketAt(activities, registrations, tickets, u);
    }
    forall u: Id, v: Id ensures TicketUnique(closed, u, v) {
      assert TicketUnique(tickets, u, v);
    }
    forall r: Id ensures TicketIfApproved(registrations, closed, r) {
      assert TicketIfApproved(registrations, tickets, r);
      if HasTicket(tickets, r) { HasTicketKept(tickets, closed, r); }
    }
  }

  lemma CheckInWritten(tickets: map<Id, Ticket>, checkIns: map<Id, CheckIn>, id: Id, row: CheckIn)
    requires CheckInsOk(tickets, checkIns)
    requires row.ticketId in tickets && tickets[row.ticketId].status == Unused
    requires CheckInRowOk(row, tickets[row.ticketId].(status := Used))
    requires !CheckInKeyTaken(checkIns, id, row)
    ensures CheckInsOk(CloseTicket(tickets, row.ticketId, Used), checkIns[id := row])
  {
    var closed, more := CloseTicket(tickets, row.ticketId, Used), checkIns[id := row];
    forall c: Id ensures CheckInAt(closed, more, c) {
      assert CheckInAt(tickets, checkIns, c);
    }
    forall c: Id, d: Id ensures CheckInUnique(more, c, d) {
      assert CheckInUnique(checkIns, c, d);
    }
    forall t: Id ensures UsedIsRedeemed(closed, more, t) {
      assert UsedIsRedeemed(tickets, checkIns, t);
      if t == row.ticketId {
        assert more[id].ticketId == t;
      } else if t in tickets && tickets[t].status == Used {
        var c :| c in checkIns && checkIns[c].ticketId == t;
        assert c in more && more[c].ticketId == t;
      }
    }
  }

  /** What PrepareCheckIn guarantees about its record while the ticket is unused. */
  ghost predicate CheckInReady(db: Db, record: CheckIn, events: seq<Event>) {
    && record.ticketId in db.tickets
    && CheckInRowOk(record, db.tickets[record.ticketId].(status := Used))
    && events == [TicketEvent(TicketUsed, record.ticketId, record.activityId)]
  }

  lemma CheckInKeeps(db: Db, id: Id, record: CheckIn, events: seq<Event>, next: Db)
    requires Good(db) && CheckInReady(db, record, events) && CheckInTx(db, id, record, events) == Ok(next)
    ensures Good(next) && Evolves(db, next)
  {
    TicketClosed(db.activities, db.registrations, db.tickets, record.ticketId, Used);
    CheckInWritten(db.tickets, db.checkIns, id, record);
    CloseRecorded(db.activities, db.activityLog, db.registrations, db.registrationLog, db.tickets, db.outbox,
                  record.ticketId, Used, events[0]);
    forall a: Id ensures ActivityLater(db.activities, next.activities, a) {}
    forall r: Id ensures RegistrationLater(db.registrations, next.registrations, r) {}
    forall u: Id ensures TicketLater(db.tickets, next.tickets, u) {}
    forall c: Id ensures CheckInLater(db.checkIns, next.checkIns, c) {}
  }

  lemma ExpireTicketKeeps(db: Db, t: Id, events: seq<Event>, next: Db)
    requires Good(db) && ExpireTicketTx(db, t, events) == Ok(next)
    requires |events| == 1 && events[0].TicketEvent? && events[0].ticketKind == TicketExpiredEvent
        && events[0].ticketId == t
    ensures Good(next) && Evolves(db, next)
  {
    TicketClosed(db.activities, db.registrations, db.tickets, t, TicketExpired);
    forall c: Id ensures CheckInAt(next.tickets, db.checkIns, c) {
      assert CheckInAt(db.tickets, db.checkIns, c);
    }
    forall u: Id ensures UsedIsRedeemed(next.tickets, db.checkIns, u) {
      assert UsedIsRedeemed(db.tickets, db.checkIns, u);
    }
    CloseRecorded(db.activities, db.activityLog, db.registrations, db.registrationLog, db.tickets, db.outbox,
                  t, TicketExpired, events[0]);
    assert events == [events[0]];
    forall a: Id ensures ActivityLater(db.activities, next.activities, a) {}
    forall r: Id ensures RegistrationLater(db.registrations, next.registrations, r) {}
    forall u: Id ensures TicketLater(db.tickets, next.tickets, u) {}
    forall c: Id ensures CheckInLater(db.checkIns, next.checkIns, c) {}
  }
}
