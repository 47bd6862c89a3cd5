/**
 The tables as mutable state, and the repository transactions as the source writes them: row by row
 in place, with a rollback when a later statement of the transaction fails.  Every transaction is
 proved to be the all-or-nothing step that module Transactions defines for it.
 */
module Database {
  import opened Wrappers
  import opened Model
  import opened Transactions

  /** The transaction took `was` to `now`, or reported its error and left `was` as it was. */
  ghost predicate Atomically(outcome: Result<Db, TxError>, failure: Option<TxError>, was: Db, now: Db) {
    match outcome
    case Ok(next) => failure == None && now == next
    case Err(e) => failure == Some(e) && now == was
  }

  class Database {
    var activities: map<Id, Activity>
    var registrations: map<Id, Registration>
    var tickets: map<Id, Ticket>
    var checkIns: map<Id, CheckIn>
    var groups: map<Id, Group>
    var activityLog: seq<ActivityLog>
    var registrationLog: seq<RegistrationLog>
    var outbox: seq<Event>

    constructor ()
      ensures State() == EMPTY_DB
    {
      activities, registrations, tickets := map[], map[], map[];
      checkIns, groups := map[], map[];
      activityLog, registrationLog, outbox := [], [], [];
    }

    function State(): Db
      reads this
    {
      Db(activities, registrations, tickets, checkIns, groups, activityLog, registrationLog, outbox)
    }

    method Rollback(saved: Db)
      modifies this
      ensures State() == saved
    {
      activities, registrations, tickets := saved.activities, saved.registrations, saved.tickets;
      checkIns, groups := saved.checkIns, saved.groups;
      activityLog, registrationLog, outbox := saved.activityLog, saved.registrationLog, saved.outbox;
    }

    // ----- statements inside a transaction -----

    method EnqueueOutboxEvents(events: seq<Event>)
      modifies this`outbox
      ensures outbox == old(outbox) + events
    {
      for i := 0 to |events|
        invariant outbox == old(outbox) + events[..i]
      {
        outbox := outbox + [events[i]];
      }
      assert events[..|events|] == events;
    }

    method AdjustParticipantCounters(a: Id, pendingDelta: int, approvedDelta: int, guard: bool)
      returns (failure: Option<TxError>)
      modifies this`activities
      ensures match AdjustCounters(old(activities), a, pendingDelta, approvedDelta, guard)
              case Ok(rows) => failure == None && activities == rows
              case Err(e) => failure == Some(e) && activities == old(activities)
    {
      if pendingDelta == 0 && approvedDelta == 0 { return None; }
      var affected := 0;
      if a in activities && (!guard || HasRoom(activities[a])) {
        if pendingDelta != 0 {
          activities := activities[a := activities[a].(pending := Clamp(activities[a].pending, pendingDelta))];
        }
        if approvedDelta != 0 {
          activities := activities[a := activities[a].(approved := Clamp(activities[a].approved, approvedDelta))];
        }
        affected := 1;
      }
      if guard && affected == 0 { return Some(CapacityFull); }
      return None;
    }

    method CreateTicket(ticket: Option<(Id, Ticket)>, registrationId: Id) returns (failure: Option<TxError>)
      modifies this`tickets
      ensures match InsertOptionalTicket(old(tickets), ticket, registrationId)
              case Ok(rows) => failure == None && tickets == rows
              case Err(e) => failure == Some(e) && tickets == old(tickets)
    {
      if ticket.Some? {
        var row := ticket.value.1.(registrationId := registrationId);
        if TicketKeyTaken(tickets, ticket.value.0, row) { return Some(DuplicateKey); }
        tickets := tickets[ticket.value.0 := row];
      }
      return None;
    }

    /** Voids a ticket that is still unused; touching no row is not an error. */
    method VoidTicket(ticket: Option<Id>)
      modifies this`tickets
      ensures tickets == VoidOptionalTicket(old(tickets), ticket)
    {
      if ticket.Some? {
        var t := ticket.value;
        if t in tickets && tickets[t].status == Unused {
          tickets := tickets[t := tickets[t].(status := Voided, version := tickets[t].version + 1)];
        }
      }
    }

    /** createGroupWithOwner, for a transition that publishes. */
    method CreateGroup(a: Id, group: Option<Group>) returns (failure: Option<TxError>)
      modifies this`groups
      ensures match CreateOptionalGroup(old(groups), a, group)
              case Ok(rows) => failure == None && groups == rows
              case Err(e) => failure == Some(e) && groups == old(groups)
    {
      if group.Some? {
        if a in groups { return Some(DuplicateKey); }
        groups := groups[a := group.value];
      }
      return None;
    }

    method DissolveGroup(a: Id, dissolve: bool)
      modifies this`groups
      ensures groups == Dissolve(old(groups), a, dissolve)
    {
      if dissolve && a in groups {
        groups := groups[a := groups[a].(status := GroupDissolved)];
      }
    }

    /** The UPDATE of a registration whose guard matched. */
    method UpdateRegistration(r: Id, to: RegistrationStatus, clearActive: bool)
      requires r in registrations
      modifies this`registrations
      ensures registrations == old(registrations)[r := old(registrations)[r].(
                status := to, active := if clearActive then false else old(registrations)[r].active)]
    {
      registrations := registrations[r := registrations[r].(status := to)];
      if clearActive {
        registrations := registrations[r := registrations[r].(active := false)];
      }
    }

    /** The UPDATE of an activity whose guard matched. */
    method MoveActivity(a: Id, to: ActivityStatus, publishedAt: Option<Time>)
      requires a in activities
      modifies this`activities
      ensures activities == old(activities)[a := old(activities)[a].(
                status := to, version := old(activities)[a].version + 1,
                publishedAt := if publishedAt.Some? then publishedAt else old(activities)[a].publishedAt)]
    {
      activities := activities[a := activities[a].(status := to, version := activities[a].version + 1)];
      if publishedAt.Some? {
        activities := activities[a := activities[a].(publishedAt := publishedAt)];
      }
    }

    // ----- registrations -----

    /** RegistrationRepository.Register */
    method Register(input: RegisterInput) returns (failure: Option<TxError>)
      modifies this
      ensures Atomically(RegisterTx(old(State()), input), failure, old(State()), State())
    {
      var saved := State();
      var pendingDelta, approvedDelta := 0, 0;
      if input.approved { approvedDelta := 1; } else { pendingDelta := 1; }
      failure := AdjustParticipantCounters(input.registration.activityId, pendingDelta, approvedDelta, true);
      if failure.Some? { return; }
      var row := input.registration;
      if input.id in registrations || (row.active && HasActive(registrations, row.activityId, row.userId)) {
        Rollback(saved);
        return Some(DuplicateKey);
      }
      registrations := registrations[input.id := row];
      failure := CreateTicket(input.ticket, input.id);
      if failure.Some? {
        Rollback(saved);
        return;
      }
      EnqueueOutboxEvents(input.events);
    }

    /** RegistrationRepository.Transition */
    method Transition(input: TransitionInput) returns (failure: Option<TxError>)
      modifies this
      ensures Atomically(TransitionTx(old(State()), input), failure, old(State()), State())
    {
      var saved := State();
      var r := input.registrationId;
      if r !in registrations || registrations[r].status != input.from { return Some(ConcurrentUpdate); }
      UpdateRegistration(r, input.to, input.clearActive);
      failure := AdjustParticipantCounters(input.activityId, input.pendingDelta, input.approvedDelta,
                                           input.guardCapacity);
      if failure.Some? {
        Rollback(saved);
        return;
      }
      failure := CreateTicket(input.ticket, r);
      if failure.Some? {
        Rollback(saved);
        return;
      }
      VoidTicket(input.voidTicket);
      registrationLog := registrationLog + [input.log];
      EnqueueOutboxEvents(input.events);
    }

    // ----- activities -----

    /** ActivityRepository.Create */
    method CreateActivity(id: Id, row: Activity, events: seq<Event>) returns (failure: Option<TxError>)
      modifies this
      ensures Atomically(CreateActivityTx(old(State()), id, row, events), failure, old(State()), State())
    {
      if id in activities { return Some(DuplicateKey); }
      activities := activities[id := row];
      EnqueueOutboxEvents(events);
      return None;
    }

    /** ActivityRepository.Update */
    method UpdateActivity(input: ActivityUpdateInput) returns (failure: Option<TxError>)
      modifies this
      ensures Atomically(UpdateActivityTx(old(State()), input), failure, old(State()), State())
    {
      var a := input.activityId;
      if a !in activities || activities[a].version != input.version { return Some(ConcurrentUpdate); }
      activities := activities[a := activities[a].(form := input.form, version := input.version + 1)];
      if input.to.Some? {
        activities := activities[a := activities[a].(status := input.to.value)];
      }
      if input.log.Some? {
        activityLog := activityLog + [input.log.value];
      }
      EnqueueOutboxEvents(input.events);
      return None;
    }

    /** ActivityRepository.Transition */
    method TransitionActivity(input: ActivityTransitionInput) returns (failure: Option<TxError>)
      modifies this
      ensures Atomically(TransitionActivityTx(old(State()), input), failure, old(State()), State())
    {
      var saved := State();
      var a := input.activityId;
      if a !in activities || activities[a].status != input.from { return Some(ConcurrentUpdate); }
      MoveActivity(a, input.to, input.publishedAt);
      failure := CreateGroup(a, input.group);
      if failure.Some? {
        Rollback(saved);
        return;
      }
      DissolveGroup(a, input.dissolveGroup);
      activityLog := activityLog + [input.log];
      EnqueueOutboxEvents(input.events);
      return None;
    }

    /** ActivityRepository.SyncStatuses, for the candidate rows its SELECT returned. */
    method SyncStatuses(candidates: seq<(Id, Activity)>, now: Time) returns (changed: nat)
      modifies this
      ensures State() == SyncTx(old(State()), candidates, now)
      ensures |activityLog| == |old(activityLog)| + changed
    {
      changed := 0;
      for i := 0 to |candidates|
        invariant State() == SyncTx(old(State()), candidates[..i], now)
        invariant |activityLog| == |old(activityLog)| + changed
      {
        assert candidates[..i + 1][..i] == candidates[..i];
        var (a, read) := candidates[i];
        var next := NextTimedStatus(read.status, read.form.start, read.form.end, now);
        if next.None? { continue; }
        if a !in activities || activities[a].status != read.status { continue; }
        activities := activities[a := activities[a].(status := next.value, version := activities[a].version + 1)];
        activityLog := activityLog + [ActivityLog(a, read.status, next.value, BySystem)];
        EnqueueOutboxEvents([ActivityEvent(StatusChanged, a, next.value, read.version + 1)]);
        changed := changed + 1;
      }
      assert candidates[..|candidates|] == candidates;
    }

    // ----- tickets and check-ins -----

    /** CheckInRepository.CheckIn */
    method CheckIn(id: Id, record: CheckIn, events: seq<Event>) returns (failure: Option<TxError>)
      modifies this
      ensures Atomically(CheckInTx(old(State()), id, record, events), failure, old(State()), State())
    {
      var saved := State();
      var t := record.ticketId;
      if t !in tickets || tickets[t].status != Unused { return Some(TicketNotUsable); }
      tickets := tickets[t := tickets[t].(status := Used, version := tickets[t].version + 1)];
      if CheckInKeyTaken(checkIns, id, record) {
        Rollback(saved);
        return Some(DuplicateKey);
      }
      checkIns := checkIns[id := record];
      EnqueueOutboxEvents(events);
      return None;
    }

    /** TicketRepository.Expire */
    method ExpireTicket(t: Id, events: seq<Event>) returns (failure: Option<TxError>)
      modifies this
      ensures Atomically(ExpireTicketTx(old(State()), t, events), failure, old(State()), State())
    {
      if t !in tickets || tickets[t].status != Unused { return Some(ConcurrentUpdate); }
      tickets := tickets[t := tickets[t].(status := TicketExpired, version := tickets[t].version + 1)];
      EnqueueOutboxEvents(events);
      return None;
    }
  }
}
