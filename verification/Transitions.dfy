/** Each registration transaction keeps the invariant, given what its service guarantees of the input. */
module Transitions {
  import opened Wrappers
  import opened Model
  import opened Transactions
  import opened Services
  import opened Invariants
  import opened Folds
  import opened Slots

  // ----- register -----

  /** What PrepareRegister guarantees about its input in every later state. */
  ghost predicate RegisterReady(db: Db, input: RegisterInput) {
    var row := input.registration;
    && row.activityId in db.activities
    && var activity := db.activities[row.activityId];
    && activity.publishedAt.Some?
    && input.approved == !activity.form.requireApproval
    && activity.form.registerStart <= row.createdAt <= activity.form.registerEnd <= activity.form.start
    && row == Registration(row.activityId, row.userId, if input.approved then Approved else Pending, true,
                           if input.approved then None else Some(ApprovalDeadline(row.createdAt, activity.form.start)),
                           row.createdAt)
    && var created := RegistrationEvent(input.id, row.activityId, row.userId, None, row.status);
    && (input.approved ==>
          && input.ticket.Some?
          && input.ticket.value.1 == IssueTicket(row.activityId, activity, row.userId, input.ticket.value.1.code)
          && input.events == [created, TicketEvent(TicketCreated, input.ticket.value.0, row.activityId)])
    && (!input.approved ==> input.ticket == None && input.events == [created])
  }

  lemma RegisterEvolves(db: Db, input: RegisterInput, next: Db)
    requires RegisterReady(db, input) && RegisterTx(db, input) == Ok(next)
    ensures Evolves(db, next)
  {
    forall a: Id ensures ActivityLater(db.activities, next.activities, a) {}
    forall r: Id ensures RegistrationLater(db.registrations, next.registrations, r) {}
    forall t: Id ensures TicketLater(db.tickets, next.tickets, t) {}
    forall c: Id ensures CheckInLater(db.checkIns, next.checkIns, c) {}
  }

  lemma RegisterEffect(db: Db, input: RegisterInput, next: Db)
    requires RegisterReady(db, input) && RegisterTx(db, input) == Ok(next)
    ensures input.id !in db.registrations && HasRoom(db.activities[input.registration.activityId])
    ensures !HasActive(db.registrations, input.registration.activityId, input.registration.userId)
    ensures next == db.(
              registrations := db.registrations[input.id := input.registration],
              activities := Counted(db.activities, input.registration.activityId,
                                    db.activities[input.registration.activityId].approved
                                    + (if input.approved then 1 else 0),
                                    db.activities[input.registration.activityId].pending
                                    + (if input.approved then 0 else 1)),
              tickets := next.tickets,
              outbox := db.outbox + input.events)
    ensures InsertOptionalTicket(db.tickets, input.ticket, input.id) == Ok(next.tickets)
  {
  }

  lemma RegisterKeepsSlots(db: Db, input: RegisterInput, next: Db)
    requires SlotsGood(db) && RegisterReady(db, input) && RegisterTx(db, input) == Ok(next)
    ensures SlotsGood(next)
  {
    var before := db.activities[input.registration.activityId];
    assert CounterOk(db.activities, db.registrations, input.registration.activityId);
    SlotWritten(db.activities, db.groups, db.registrations, input.id, input.registration,
                before.approved + (if input.approved then 1 else 0),
                before.pending + (if input.approved then 0 else 1));
    RegisterEffect(db, input, next);
  }

  lemma RegisterKeepsTickets(db: Db, input: RegisterInput, next: Db)
    requires TicketsGood(db) && RegisterReady(db, input) && RegisterTx(db, input) == Ok(next)
    ensures TicketsGood(next)
  {
    var id, row := input.id, input.registration;
    var before := db.activities[row.activityId];
    var now := Counted(db.activities, row.activityId,
                       before.approved + (if input.approved then 1 else 0),
                       before.pending + (if input.approved then 0 else 1));
    TicketsFollow(db.activities, now, db.registrations, db.tickets, id, row);
    if input.approved {
      TicketInserted(now, db.registrations[id := row], db.tickets, db.checkIns,
                     input.ticket.value.0, input.ticket.value.1.(registrationId := id));
    }
    if input.approved {
      assert next.tickets[input.ticket.value.0].registrationId == id;
    }
    ApprovedWritten(db.registrations, db.tickets, next.tickets, id, row);
    RegisterEffect(db, input, next);
  }

  lemma RegisterKeepsHistory(db: Db, input: RegisterInput, next: Db)
    requires HistoryGood(db) && RegisterReady(db, input) && RegisterTx(db, input) == Ok(next)
    ensures HistoryGood(next)
  {
    RegisterEffect(db, input, next);
    ChangeRecorded(db.activities, next.activities, db.registrations, db.tickets, db.activityLog,
                   db.registrationLog, db.registrationLog, db.outbox, input.id, input.registration, input.events[0]);
    if input.approved {
      var outbox := db.outbox + [input.events[0]];
      assert next.outbox == outbox + [input.events[1]];
      TicketIssueRecorded(next.activities, next.registrations, db.tickets, db.activityLog, db.registrationLog, outbox,
                          input.ticket.value.0, input.ticket.value.1.(registrationId := input.id), input.events[1]);
    }
  }

  // ----- approve -----

  /** What PrepareApprove guarantees about its input in every later state. */
  ghost predicate ApproveReady(db: Db, input: TransitionInput) {
    && input.registrationId in db.registrations
    && var row := db.registrations[input.registrationId];
    && row.activityId in db.activities
    && input.ticket.Some?
    && var ticket := input.ticket.value;
    && input == TransitionInput(
         input.registrationId, row.activityId, Pending, Approved, false, -1, 1, false,
         Some((ticket.0, IssueTicket(row.activityId, db.activities[row.activityId], row.userId, ticket.1.code))), None,
         RegistrationLog(input.registrationId, Pending, Approved, input.log.operator),
         [RegistrationEvent(input.registrationId, row.activityId, row.userId, Some(Pending), Approved),
          TicketEvent(TicketCreated, ticket.0, row.activityId)])
  }

  /** A status that is counted has at least the one registration that holds it. */
  lemma CountedAtLeastOnce(activities: map<Id, Activity>, registrations: map<Id, Registration>, r: Id)
    requires CountersOk(activities, registrations) && r in registrations && registrations[r].activityId in activities
    ensures registrations[r].status == Pending ==> activities[registrations[r].activityId].pending >= 1
    ensures registrations[r].status == Approved ==> activities[registrations[r].activityId].approved >= 1
  {
    var row := registrations[r];
    assert CounterOk(activities, registrations, row.activityId);
    assert r in Holding(registrations, row.activityId, row.status);
  }

  lemma ApproveEffect(db: Db, input: TransitionInput, next: Db)
    requires ApproveReady(db, input) && TransitionTx(db, input) == Ok(next)
    requires db.activities[input.activityId].pending >= 1
    ensures db.registrations[input.registrationId].status == Pending
    ensures next == db.(
              registrations := db.registrations[input.registrationId :=
                                 db.registrations[input.registrationId].(status := Approved)],
              activities := Counted(db.activities, input.activityId,
                                    db.activities[input.activityId].approved + 1,
                                    db.activities[input.activityId].pending - 1),
              tickets := next.tickets,
              registrationLog := db.registrationLog + [input.log],
              outbox := db.outbox + input.events)
    ensures InsertOptionalTicket(db.tickets, input.ticket, input.registrationId) == Ok(next.tickets)
  {
  }

  lemma ApproveKeepsSlots(db: Db, input: TransitionInput, next: Db)
    requires SlotsGood(db) && ApproveReady(db, input) && TransitionTx(db, input) == Ok(next)
    requires db.activities[input.activityId].pending >= 1
    ensures SlotsGood(next)
  {
    var row := db.registrations[input.registrationId].(status := Approved);
    var before := db.activities[row.activityId];
    assert RegistrationAt(db.activities, db.registrations, input.registrationId);
    assert CounterOk(db.activities, db.registrations, row.activityId);
    SlotWritten(db.activities, db.groups, db.registrations, input.registrationId, row,
                before.approved + 1, before.pending - 1);
    ApproveEffect(db, input, next);
  }

  lemma ApproveKeepsTickets(db: Db, input: TransitionInput, next: Db)
    requires TicketsGood(db) && ApproveReady(db, input) && TransitionTx(db, input) == Ok(next)
    requires db.activities[input.activityId].pending >= 1
    ensures TicketsGood(next)
  {
    var id := input.registrationId;
    var row := db.registrations[id].(status := Approved);
    var before := db.activities[row.activityId];
    var now := Counted(db.activities, row.activityId, before.approved + 1, before.pending - 1);
    TicketsFollow(db.activities, now, db.registrations, db.tickets, id, row);
    TicketInserted(now, db.registrations[id := row], db.tickets, db.checkIns,
                   input.ticket.value.0, input.ticket.value.1.(registrationId := id));
    assert next.tickets[input.ticket.value.0].registrationId == id;
    ApprovedWritten(db.registrations, db.tickets, next.tickets, id, row);
    ApproveEffect(db, input, next);
  }

  lemma ApproveKeepsHistory(db: Db, input: TransitionInput, next: Db)
    requires HistoryGood(db) && ApproveReady(db, input) && TransitionTx(db, input) == Ok(next)
    requires db.activities[input.activityId].pending >= 1
    ensures HistoryGood(next)
  {
    var id := input.registrationId;
    ApproveEffect(db, input, next);
    ChangeRecorded(db.activities, next.activities, db.registrations, db.tickets, db.activityLog,
                   db.registrationLog, next.registrationLog, db.outbox, id, next.registrations[id], input.events[0]);
    var outbox := db.outbox + [input.events[0]];
    assert next.outbox == outbox + [input.events[1]];
    TicketIssueRecorded(next.activities, next.registrations, db.tickets, db.activityLog, next.registrationLog, outbox,
                        input.ticket.value.0, input.ticket.value.1.(registrationId := id), input.events[1]);
  }

  // ----- reject, expire, and cancel while pending -----

  /** A release of a pending slot, as reject, expire and cancel build it. */
  ghost predicate ReleaseReady(db: Db, input: TransitionInput) {
    && input.registrationId in db.registrations
    && var row := db.registrations[input.registrationId];
    && row.activityId in db.activities
    && row.status == Pending
    && (input.to == Rejected || input.to == Expired || input.to == Cancelled)
    && input == ReleasePending(input.registrationId, row, input.to, input.log.operator)
  }

  lemma ReleaseEffect(db: Db, input: TransitionInput, next: Db)
    requires ReleaseReady(db, input) && TransitionTx(db, input) == Ok(next)
    requires db.activities[input.activityId].pending >= 1
    ensures next == db.(
              registrations := db.registrations[input.registrationId :=
                                 db.registrations[input.registrationId].(status := input.to, active := false)],
              activities := Counted(db.activities, input.activityId,
                                    db.activities[input.activityId].approved,
                                    db.activities[input.activityId].pending - 1),
              registrationLog := db.registrationLog + [input.log],
              outbox := db.outbox + [input.events[0]])
  {
  }

  lemma ReleaseKeepsSlots(db: Db, input: TransitionInput, next: Db)
    requires SlotsGood(db) && ReleaseReady(db, input) && TransitionTx(db, input) == Ok(next)
    requires db.activities[input.activityId].pending >= 1
    ensures SlotsGood(next)
  {
    var row := db.registrations[input.registrationId].(status := input.to, active := false);
    var before := db.activities[row.activityId];
    assert RegistrationAt(db.activities, db.registrations, input.registrationId);
    assert CounterOk(db.activities, db.registrations, row.activityId);
    SlotWritten(db.activities, db.groups, db.registrations, input.registrationId, row,
                before.approved, before.pending - 1);
    ReleaseEffect(db, input, next);
  }

  lemma ReleaseKeepsTickets(db: Db, input: TransitionInput, next: Db)
    requires TicketsGood(db) && ReleaseReady(db, input) && TransitionTx(db, input) == Ok(next)
    requires db.activities[input.activityId].pending >= 1
    ensures TicketsGood(next)
  {
    var id := input.registrationId;
    var row := db.registrations[id].(status := input.to, active := false);
    var before := db.activities[row.activityId];
    TicketsFollow(db.activities, Counted(db.activities, row.activityId, before.approved, before.pending - 1),
                  db.registrations, db.tickets, id, row);
    ApprovedWritten(db.registrations, db.tickets, db.tickets, id, row);
    ReleaseEffect(db, input, next);
  }

  lemma ReleaseKeepsHistory(db: Db, input: TransitionInput, next: Db)
    requires HistoryGood(db) && ReleaseReady(db, input) && TransitionTx(db, input) == Ok(next)
    requires db.activities[input.activityId].pending >= 1
    ensures HistoryGood(next)
  {
    var id := input.registrationId;
    ReleaseEffect(db, input, next);
    ChangeRecorded(db.activities, next.activities, db.registrations, db.tickets, db.activityLog,
                   db.registrationLog, next.registrationLog, db.outbox, id, next.registrations[id], input.events[0]);
  }

  // ----- cancel while approved -----

  /**
   What PrepareCancel guarantees of the cancellation of an approved registration: the ticket to void
   is the registration's own, and every unused ticket of the registration is the one to void.
   */
  ghost predicate CancelReady(db: Db, input: TransitionInput) {
    && input.registrationId in db.registrations
    && var row := db.registrations[input.registrationId];
    && row.activityId in db.activities
    && row.status == Approved
    && (input.voidTicket.Some? ==>
          && input.voidTicket.value in db.tickets
          && db.tickets[input.voidTicket.value].registrationId == input.registrationId)
    && (forall t <- db.tickets ::
          db.tickets[t].registrationId == input.registrationId && db.tickets[t].status == Unused
          ==> input.voidTicket == Some(t))
    && var cancelled := RegistrationEvent(input.registrationId, row.activityId, row.userId, Some(Approved), Cancelled);
    && input == TransitionInput(
         input.registrationId, row.activityId, Approved, Cancelled, true, 0, -1, false, None, input.voidTicket,
         RegistrationLog(input.registrationId, Approved, Cancelled, input.log.operator),
         if input.voidTicket.Some? then [cancelled, TicketEvent(TicketVoided, input.voidTicket.value, row.activityId)]
         else [cancelled])
  }

  /** The tickets of a registration that is being cancelled, once its unused ticket is void. */
  lemma CancelledTickets(was: map<Id, Activity>, now: map<Id, Activity>, registrations: map<Id, Registration>,
                         tickets: map<Id, Ticket>, checkIns: map<Id, CheckIn>, id: Id, row: Registration, t: Option<Id>)
    requires TicketsOk(was, registrations, tickets) && OneTicketEach(tickets) && CheckInsOk(tickets, checkIns)
    requires SameButCounters(was, now)
    requires id in registrations && row == registrations[id].(status := Cancelled, active := false)
        && row.activityId in was
    requires t.Some? ==> t.value in tickets && tickets[t.value].registrationId == id
    requires forall u <- tickets :: tickets[u].registrationId == id && tickets[u].status == Unused ==> t == Some(u)
    ensures TicketsOk(now, registrations[id := row], VoidOptionalTicket(tickets, t))
    ensures OneTicketEach(VoidOptionalTicket(tickets, t)) && CheckInsOk(VoidOptionalTicket(tickets, t), checkIns)
  {
    var after, closed := registrations[id := row], VoidOptionalTicket(tickets, t);
    forall u: Id ensures TicketAt(now, after, closed, u) && UsedIsRedeemed(closed, checkIns, u) {
      assert TicketAt(was, registrations, tickets, u) && UsedIsRedeemed(tickets, checkIns, u);
    }
    forall u: Id, v: Id ensures TicketUnique(closed, u, v) {
      assert TicketUnique(tickets, u, v);
    }
    forall c: Id ensures CheckInAt(closed, checkIns, c) {
      assert CheckInAt(tickets, checkIns, c);
    }
  }

  /** The voided event of a cancellation, which may find its ticket no longer unused. */
  lemma TicketVoidAnnounced(registrations: map<Id, Registration>, after: map<Id, Registration>,
                            tickets: map<Id, Ticket>, outbox: seq<Event>, id: Id, t: Id, e: Event)
    requires TicketHistoryOk(registrations, tickets, outbox)
    requires id in registrations && registrations[id].status == Approved
    requires id in after && after == registrations[id := after[id]] && after[id].status == Cancelled
    requires t in tickets && tickets[t].registrationId == id
    requires e.TicketEvent? && e.ticketKind == TicketVoided && e.ticketId == t
    ensures TicketHistoryOk(after, CloseTicket(tickets, t, Voided), outbox + [e])
  {
    EventAppended(outbox, e);
    var closed, events := CloseTicket(tickets, t, Voided), outbox + [e];
    forall u: Id ensures TicketAccounted(after, closed, events, u) {
      assert TicketAccounted(registrations, tickets, outbox, u);
    }
  }

  lemma CancelEffect(db: Db, input: TransitionInput, next: Db)
    requires CancelReady(db, input) && TransitionTx(db, input) == Ok(next)
    requires db.activities[input.activityId].approved >= 1
    ensures next == db.(
              registrations := db.registrations[input.registrationId :=
                                 db.registrations[input.registrationId].(status := Cancelled, active := false)],
              activities := Counted(db.activities, input.activityId,
                                    db.activities[input.activityId].approved - 1,
                                    db.activities[input.activityId].pending),
              tickets := VoidOptionalTicket(db.tickets, input.voidTicket),
              registrationLog := db.registrationLog + [input.log],
              outbox := db.outbox + input.events)
  {
  }

  /** The two events of a cancellation that voids a ticket. */
  lemma CancellationRecorded(db: Db, input: TransitionInput, next: Db)
    requires CancelReady(db, input) && input.voidTicket.Some?
    requires next.registrations == db.registrations[input.registrationId :=
                                     db.registrations[input.registrationId].(status := Cancelled, active := false)]
    requires SameButCounters(db.activities, next.activities)
    requires next.registrationLog == db.registrationLog + [input.log]
    requires TicketHistoryOk(db.registrations, db.tickets, db.outbox)
    requires RegistrationHistoryOk(db.registrations, db.registrationLog, db.outbox)
    requires ActivityHistoryOk(db.activities, db.activityLog, db.outbox)
    ensures var outbox := db.outbox + [input.events[0]] + [input.events[1]];
            && TicketHistoryOk(next.registrations, CloseTicket(db.tickets, input.voidTicket.value, Voided), outbox)
            && RegistrationHistoryOk(next.registrations, next.registrationLog, outbox)
            && ActivityHistoryOk(next.activities, db.activityLog, outbox)
  {
    var id, t := input.registrationId, input.voidTicket.value;
    var row := next.registrations[id];
    var outbox := db.outbox + [input.events[0]];
    RegistrationHistoryWritten(db.registrations, db.registrationLog, next.registrationLog, db.outbox, id, row,
                               input.events[0]);
    TicketEventAppended(next.registrations, next.registrationLog, outbox, input.events[1]);
    RegistrationEventAppended(db.registrations, db.tickets, db.outbox, id, db.registrations[id], input.events[0]);
    assert db.registrations[id := db.registrations[id]] == db.registrations;
    TicketVoidAnnounced(db.registrations, next.registrations, db.tickets, outbox, id, t, input.events[1]);
    ActivityHistoryKept(db.activities, next.activities, db.activityLog, db.outbox, outbox + [input.events[1]]);
  }

  lemma CancelKeepsSlots(db: Db, input: TransitionInput, next: Db)
    requires SlotsGood(db) && CancelReady(db, input) && TransitionTx(db, input) == Ok(next)
    requires db.activities[input.activityId].approved >= 1
    ensures SlotsGood(next)
  {
    var row := db.registrations[input.registrationId].(status := Cancelled, active := false);
    var before := db.activities[row.activityId];
    assert RegistrationAt(db.activities, db.registrations, input.registrationId);
    assert CounterOk(db.activities, db.registrations, row.activityId);
    SlotWritten(db.activities, db.groups, db.registrations, input.registrationId, row,
                before.approved - 1, before.pending);
    CancelEffect(db, input, next);
  }

  lemma CancelKeepsTickets(db: Db, input: TransitionInput, next: Db)
    requires TicketsGood(db) && CancelReady(db, input) && TransitionTx(db, input) == Ok(next)
    requires db.activities[input.activityId].approved >= 1
    ensures TicketsGood(next)
  {
    var id := input.registrationId;
    var row := db.registrations[id].(status := Cancelled, active := false);
    CancelEffect(db, input, next);
    CancelledTickets(db.activities, next.activities, db.registrations, db.tickets, db.checkIns, id, row,
                     input.voidTicket);
    ApprovedWritten(db.registrations, db.tickets, next.tickets, id, row);
  }

  lemma CancelKeepsHistory(db: Db, input: TransitionInput, next: Db)
    requires HistoryGood(db) && CancelReady(db, input) && TransitionTx(db, input) == Ok(next)
    requires db.activities[input.activityId].approved >= 1
    ensures HistoryGood(next)
  {
    var id := input.registrationId;
    CancelEffect(db, input, next);
    if input.voidTicket.Some? {
      CancellationRecorded(db, input, next);
      assert next.outbox == db.outbox + [input.events[0]] + [input.events[1]];
    } else {
      ChangeRecorded(db.activities, next.activities, db.registrations, db.tickets, db.activityLog,
                     db.registrationLog, next.registrationLog, db.outbox, id, next.registrations[id], input.events[0]);
    }
  }

  // ----- all of them -----

  /** The compare-and-set guard of a transition. */
  ghost predicate GuardPasses(db: Db, input: TransitionInput) {
    input.registrationId in db.registrations && db.registrations[input.registrationId].status == input.from
  }

  /** The input describes what the transition does to the state it commits against. */
  ghost predicate Fits(db: Db, input: TransitionInput) {
    ReleaseReady(db, input) || CancelReady(db, input) || ApproveReady(db, input)
  }

  lemma TransitionEvolves(db: Db, input: TransitionInput, next: Db)
    requires Fits(db, input) && TransitionTx(db, input) == Ok(next)
    ensures Evolves(db, next)
  {
    forall a: Id ensures ActivityLater(db.activities, next.activities, a) {}
    forall r: Id ensures RegistrationLater(db.registrations, next.registrations, r) {}
    forall t: Id ensures TicketLater(db.tickets, next.tickets, t) {}
    forall c: Id ensures CheckInLater(db.checkIns, next.checkIns, c) {}
  }

  /** A transition whose input fits keeps the whole invariant. */
  lemma TransitionKeeps(db: Db, input: TransitionInput, next: Db)
    requires Good(db) && Fits(db, input) && TransitionTx(db, input) == Ok(next)
    ensures Good(next) && Evolves(db, next)
  {
    CountedAtLeastOnce(db.activities, db.registrations, input.registrationId);
    if ReleaseReady(db, input) {
      ReleaseKeepsSlots(db, input, next);
      ReleaseKeepsTickets(db, input, next);
      ReleaseKeepsHistory(db, input, next);
    } else if CancelReady(db, input) {
      CancelKeepsSlots(db, input, next);
      CancelKeepsTickets(db, input, next);
      CancelKeepsHistory(db, input, next);
    } else {
      ApproveKeepsSlots(db, input, next);
      ApproveKeepsTickets(db, input, next);
      ApproveKeepsHistory(db, input, next);
    }
    TransitionEvolves(db, input, next);
  }
}
