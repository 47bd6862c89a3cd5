/**
 Why stale reads are harmless: what an operation prepared from earlier states still fits the state
 its transaction commits against, whenever that transaction's own guard passes.
 */
module StaleReads {
  import opened Wrappers
  import opened Model
  import opened Transactions
  import opened Services
  import opened Invariants
  import opened Transitions
  import opened ActivityChanges
  import opened Redemption

  lemma RegisterStale(readActivity: Db, readActive: Db, db: Db, q: RegisterRequest, input: RegisterInput)
    requires ActivitiesOk(readActivity.activities) && Evolves(readActivity, db)
    requires PrepareRegister(readActivity, readActive, q) == Ok(input)
    ensures q.activityId in readActivity.activities
    ensures readActivity.activities[q.activityId].status == Published
            || readActivity.activities[q.activityId].status == Ongoing
    ensures RegisterReady(db, input)
  {
    assert ActivityAt(readActivity.activities, q.activityId);
    assert ActivityLater(readActivity.activities, db.activities, q.activityId);
  }

  /** An approved registration's activity was published before it was approved, so its form is final. */
  lemma ApproveStale(readRegistration: Db, readActivity: Db, db: Db, r: Id, actor: Actor, ticketId: Id, code: string,
                     input: TransitionInput)
    requires RegistrationsOk(readRegistration.activities, readRegistration.registrations)
    requires Evolves(readRegistration, readActivity) && Evolves(readActivity, db) && Evolves(readRegistration, db)
    requires PrepareApprove(readRegistration, readActivity, r, actor, ticketId, code) == Ok(input)
    ensures ApproveReady(db, input)
  {
    var a := readRegistration.registrations[r].activityId;
    assert RegistrationAt(readRegistration.activities, readRegistration.registrations, r);
    assert RegistrationLater(readRegistration.registrations, db.registrations, r);
    assert ActivityLater(readRegistration.activities, readActivity.activities, a);
    assert ActivityLater(readActivity.activities, db.activities, a);
  }

  lemma ReleaseStale(readRegistration: Db, readActivity: Db, db: Db, r: Id, to: RegistrationStatus, operator: Operator)
    requires r in readRegistration.registrations && readRegistration.registrations[r].status == Pending
    requires readRegistration.registrations[r].activityId in readActivity.activities
    requires to == Rejected || to == Expired || to == Cancelled
    requires Evolves(readRegistration, db) && Evolves(readActivity, db)
    requires r in db.registrations && db.registrations[r].status == Pending
    ensures ReleaseReady(db, ReleasePending(r, readRegistration.registrations[r], to, operator))
  {
    assert RegistrationLater(readRegistration.registrations, db.registrations, r);
    assert ActivityLater(readActivity.activities, db.activities, readRegistration.registrations[r].activityId);
  }

  /** A registration that is still pending had no ticket at any earlier moment either. */
  lemma PendingHadNoTicket(read: Db, db: Db, r: Id)
    requires TicketsOk(read.activities, read.registrations, read.tickets) && Evolves(read, db)
    requires r in db.registrations && db.registrations[r].status == Pending
    ensures TicketOf(read.tickets, r) == None
  {
    assert RegistrationLater(read.registrations, db.registrations, r);
    forall t: Id ensures !(t in read.tickets && read.tickets[t].registrationId == r) {
      assert TicketAt(read.activities, read.registrations, read.tickets, t);
    }
  }

  /**
   The ticket read of a cancellation: since the registration was read as approved first, the later
   ticket read finds its one ticket, and finds it unused if it is unused now.
   */
  lemma ApprovedTicketFound(readRegistration: Db, readTicket: Db, db: Db, r: Id)
    requires r in readRegistration.registrations && readRegistration.registrations[r].status == Approved
    requires ApprovedHaveTickets(readRegistration.registrations, readRegistration.tickets)
    requires OneTicketEach(db.tickets)
    requires Evolves(readRegistration, readTicket) && Evolves(readTicket, db)
    ensures var t := TicketOf(readTicket.tickets, r);
            && t.Some? && t.value in db.tickets && db.tickets[t.value].registrationId == r
            && (forall u <- db.tickets :: db.tickets[u].registrationId == r ==> u == t.value)
            && (db.tickets[t.value].status == Unused ==> readTicket.tickets[t.value].status == Unused)
  {
    assert TicketIfApproved(readRegistration.registrations, readRegistration.tickets, r);
    var u :| u in readRegistration.tickets && readRegistration.tickets[u].registrationId == r;
    assert TicketLater(readRegistration.tickets, readTicket.tickets, u);
    var t := TicketOf(readTicket.tickets, r).value;
    assert TicketLater(readTicket.tickets, db.tickets, t);
    forall v | v in db.tickets && db.tickets[v].registrationId == r ensures v == t {
      assert TicketUnique(db.tickets, v, t);
    }
  }

  lemma CancelStale(readRegistration: Db, readActivity: Db, readTicket: Db, db: Db, r: Id, user: Id,
                    input: TransitionInput)
    requires TicketsGood(readRegistration) && TicketsGood(readTicket) && TicketsGood(db)
    requires Evolves(readRegistration, readTicket) && Evolves(readTicket, db)
    requires Evolves(readRegistration, db) && Evolves(readActivity, db)
    requires PrepareCancel(readRegistration, readActivity, readTicket, r, user) == Ok(input)
    requires r in db.registrations && db.registrations[r].status == input.from
    ensures if input.from == Pending then ReleaseReady(db, input) else CancelReady(db, input)
  {
    assert RegistrationLater(readRegistration.registrations, db.registrations, r);
    assert ActivityLater(readActivity.activities, db.activities, readRegistration.registrations[r].activityId);
    if input.from == Pending {
      PendingHadNoTicket(readTicket, db, r);
    } else {
      ApprovedTicketFound(readRegistration, readTicket, db, r);
    }
  }

  lemma CheckInStale(readTicket: Db, readActivity: Db, db: Db, q: CheckInRequest, record: CheckIn, events: seq<Event>)
    requires TicketsOk(readTicket.activities, readTicket.registrations, readTicket.tickets)
    requires Evolves(readTicket, db)
    requires PrepareCheckIn(readTicket, readActivity, q) == Ok((record, events))
    ensures CheckInReady(db, record, events)
  {
    assert TicketAt(readTicket.activities, readTicket.registrations, readTicket.tickets, q.ticketId);
    assert TicketLater(readTicket.tickets, db.tickets, q.ticketId);
  }

  /** A stale edit commits only if the row's version never moved, so the row is still editable. */
  lemma UpdateStale(read: Db, db: Db, id: Id, user: Id, form: Form, input: ActivityUpdateInput)
    requires Evolves(read, db) && PrepareUpdate(read, id, user, form) == Ok(input)
    ensures UpdateReady(db, input)
  {
    assert ActivityLater(read.activities, db.activities, id);
  }

  lemma TransitionStale(read: Db, db: Db, id: Id, to: ActivityStatus, operator: Operator, now: Time)
    requires id in read.activities && Evolves(read, db)
    requires AllowedActivityChange(read.activities[id].status, to)
    ensures ActivityTransitionReady(db, PrepareActivityTransition(id, read.activities[id], to, operator, now))
  {
    assert ActivityLater(read.activities, db.activities, id);
  }

  /** The consumer's group fallback never fires: an approved registration's activity has a group. */
  lemma GroupAlreadyThere(readEvent: Db, readActivity: Db, readGroup: Db, db: Db, event: nat)
    requires Good(readEvent) && Evolves(readEvent, readGroup)
    requires event < |readEvent.outbox| && readEvent.outbox[event].RegistrationEvent?
    requires readEvent.outbox[event].activityId in readActivity.activities
    ensures FindOrCreateGroup(readActivity, readGroup, db, readEvent.outbox[event].activityId) == Ok(db)
  {
    var a := readEvent.outbox[event].activityId;
    assert EventAt(readEvent.registrations, readEvent.outbox, event);
    assert RegistrationAt(readEvent.activities, readEvent.registrations, readEvent.outbox[event].registrationId);
    assert GroupAt(readEvent.activities, readEvent.groups, a);
  }
}
