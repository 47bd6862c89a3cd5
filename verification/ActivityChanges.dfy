/** Creating, editing, reviewing, cancelling and syncing activities keep the invariant. */
module ActivityChanges {
  import opened Wrappers
  import opened Model
  import opened Transactions
  import opened Services
  import opened Invariants
  import opened Folds

  // ----- one activity row written -----

  /** Nobody registers for an activity that was never published. */
  lemma UnpublishedIsEmpty(activities: map<Id, Activity>, registrations: map<Id, Registration>, a: Id,
                           s: RegistrationStatus)
    requires RegistrationsOk(activities, registrations)
    requires a in activities ==> activities[a].publishedAt.None?
    ensures Holding(registrations, a, s) == {}
  {
    forall r: Id ensures r !in Holding(registrations, a, s) {
      assert RegistrationAt(activities, registrations, r);
    }
  }

  /**
   A row that may replace row `a`: the counters carry over, once published neither the form nor the
   publication time moves, and an edit leaves a draft.
   */
  ghost predicate MayReplace(activities: map<Id, Activity>, a: Id, row: Activity) {
    && ActivityRowOk(row)
    && if a !in activities then row.approved == 0 && row.pending == 0 && row.publishedAt.None?
       else
         var was := activities[a];
         && row.approved == was.approved && row.pending == was.pending && row.organizer == was.organizer
         && (was.publishedAt.Some? ==> row.form == was.form && row.publishedAt == was.publishedAt)
         && (row.form != was.form ==> EditableStatus(was.status) && row.status == Draft)
  }

  lemma ActivityWritten(activities: map<Id, Activity>, groups: map<Id, Group>, registrations: map<Id, Registration>,
                        a: Id, row: Activity, after: map<Id, Group>)
    requires ActivitiesOk(activities) && GroupsOk(activities, groups)
    requires RegistrationsOk(activities, registrations) && CountersOk(activities, registrations)
    requires MayReplace(activities, a, row)
    requires GroupAt(activities[a := row], after, a)
    requires forall b: Id :: b != a ==> (b in after <==> b in groups) && (b in groups ==> after[b] == groups[b])
    ensures ActivitiesOk(activities[a := row]) && GroupsOk(activities[a := row], after)
    ensures RegistrationsOk(activities[a := row], registrations) && CountersOk(activities[a := row], registrations)
  {
    var now := activities[a := row];
    forall b: Id ensures ActivityAt(now, b) && GroupAt(now, after, b) {
      assert ActivityAt(activities, b) && GroupAt(activities, groups, b);
    }
    forall r: Id ensures RegistrationAt(now, registrations, r) {
      assert RegistrationAt(activities, registrations, r);
    }
    forall b: Id ensures CounterOk(now, registrations, b) {
      assert CounterOk(activities, registrations, b);
      if b == a && (a in activities ==> activities[a].publishedAt.None?) {
        UnpublishedIsEmpty(activities, registrations, a, Approved);
        UnpublishedIsEmpty(activities, registrations, a, Pending);
      }
    }
  }

  /** What the log entry of a committed change says about the rows before and after. */
  ghost predicate Explains(entry: Option<ActivityLog>, a: Id, was: Option<Activity>, row: Activity) {
    match entry
    case None =>
      row.status == (if was.Some? then was.value.status else Draft)
      && row.publishedAt == (if was.Some? then was.value.publishedAt else None)
    case Some(l) =>
      && l.activityId == a && was.Some? && l.from == was.value.status && l.to == row.status
      && AllowedActivityChange(l.from, l.to)
      && (if l.to == Published then was.value.publishedAt.None? && row.publishedAt.Some?
          else row.publishedAt == was.value.publishedAt)
  }

  ghost function Row(activities: map<Id, Activity>, a: Id): Option<Activity> {
    if a in activities then Some(activities[a]) else None
  }

  /** One committed change of activity `a`: its event, and its log entry when the status moved. */
  lemma ActivityChangeRecorded(activities: map<Id, Activity>, registrations: map<Id, Registration>,
                               tickets: map<Id, Ticket>, activityLog: seq<ActivityLog>,
                               log: seq<RegistrationLog>, outbox: seq<Event>,
                               a: Id, row: Activity, entry: Option<ActivityLog>, e: Event)
    requires ActivityHistoryOk(activities, activityLog, outbox)
    requires RegistrationHistoryOk(registrations, log, outbox) && TicketHistoryOk(registrations, tickets, outbox)
    requires e.ActivityEvent? && e.activityId == a
    requires row.version == if a in activities then activities[a].version + 1 else 0
    requires Explains(entry, a, Row(activities, a), row)
    ensures ActivityHistoryOk(activities[a := row], OptionalLog(activityLog, entry), outbox + [e])
    ensures RegistrationHistoryOk(registrations, log, outbox + [e])
        && TicketHistoryOk(registrations, tickets, outbox + [e])
  {
    var now, more, events := activities[a := row], OptionalLog(activityLog, entry), outbox + [e];
    EventAppended(outbox, e);
    if entry.Some? { ActivityLogAppended(activityLog, entry.value); }
    forall b: Id ensures ActivityAccounted(now, more, events, b) {
      assert ActivityAccounted(activities, activityLog, outbox, b);
    }
    forall r: Id ensures RegistrationAccounted(registrations, log, events, r) {
      assert RegistrationAccounted(registrations, log, outbox, r);
    }
    forall t: Id ensures TicketAccounted(registrations, tickets, events, t) {
      assert TicketAccounted(registrations, tickets, outbox, t);
    }
    forall k: nat ensures EventAt(registrations, events, k) {
      assert EventAt(registrations, outbox, k);
    }
  }

  /** `next` is `db` after one change of activity `a`. */
  ghost predicate Changed(db: Db, a: Id, row: Activity, groups: map<Id, Group>, entry: Option<ActivityLog>, e: Event,
                          next: Db)
  {
    && next == db.(activities := db.activities[a := row], groups := groups,
                   activityLog := OptionalLog(db.activityLog, entry), outbox := db.outbox + [e])
    && MayReplace(db.activities, a, row)
    && GroupAt(db.activities[a := row], groups, a)
    && (forall b: Id :: b != a ==> (b in groups <==> b in db.groups) && (b in db.groups ==> groups[b] == db.groups[b]))
    && e.ActivityEvent? && e.activityId == a
    && row.version == (if a in db.activities then db.activities[a].version + 1 else 0)
    && Explains(entry, a, Row(db.activities, a), row)
  }

  lemma ChangeEvolves(db: Db, a: Id, row: Activity, groups: map<Id, Group>, entry: Option<ActivityLog>, e: Event,
                      next: Db)
    requires Good(db) && Changed(db, a, row, groups, entry, e, next)
    requires a in db.activities ==> db.activities[a].status != Finished && db.activities[a].status != ActivityCancelled
    requires a in db.groups ==> a in groups
    ensures Evolves(db, next)
  {
    assert ActivityAt(db.activities, a);
    forall b: Id ensures ActivityLater(db.activities, next.activities, b) {}
    forall r: Id ensures RegistrationLater(db.registrations, next.registrations, r) {}
    forall t: Id ensures TicketLater(db.tickets, next.tickets, t) {}
    forall c: Id ensures CheckInLater(db.checkIns, next.checkIns, c) {}
  }

  lemma ChangeKeeps(db: Db, a: Id, row: Activity, groups: map<Id, Group>, entry: Option<ActivityLog>, e: Event,
                    next: Db)
    requires Good(db) && Changed(db, a, row, groups, entry, e, next)
    requires a in db.activities ==> db.activities[a].status != Finished && db.activities[a].status != ActivityCancelled
    requires a in db.groups ==> a in groups
    ensures Good(next) && Evolves(db, next)
  {
    ActivityWritten(db.activities, db.groups, db.registrations, a, row, groups);
    forall t: Id ensures TicketAt(next.activities, db.registrations, db.tickets, t) {
      assert TicketAt(db.activities, db.registrations, db.tickets, t);
      if t in db.tickets { assert RegistrationAt(db.activities, db.registrations, db.tickets[t].registrationId); }
    }
    ActivityChangeRecorded(db.activities, db.registrations, db.tickets, db.activityLog, db.registrationLog, db.outbox,
                           a, row, entry, e);
    ChangeEvolves(db, a, row, groups, entry, e, next);
  }

  // ----- the operations -----

  lemma CreateKeeps(db: Db, id: Id, organizer: Id, form: Form, next: Db)
    requires Good(db) && CreateActivity(db, id, organizer, form) == Ok(next)
    ensures Good(next) && Evolves(db, next)
  {
    assert GroupAt(db.activities, db.groups, id);
    ChangeKeeps(db, id, Activity(organizer, form, 0, 0, Draft, 0, None), db.groups, None,
                ActivityEvent(ActivityCreated, id, Draft, 1), next);
  }

  /** What PrepareUpdate guarantees about its input when the version still matches. */
  ghost predicate UpdateReady(db: Db, input: ActivityUpdateInput) {
    && input.activityId in db.activities
    && var row := db.activities[input.activityId];
    && (row.version == input.version ==>
          && EditableStatus(row.status)
          && ValidForm(input.form)
          && (if row.status == ActivityRejected
              then
                && input.to == Some(Draft)
                && input.log == Some(ActivityLog(input.activityId, ActivityRejected, Draft, ByUser))
              else input.to == None && input.log == None)
          && |input.events| == 1 && input.events[0].ActivityEvent? && input.events[0].activityId == input.activityId)
  }

  lemma UpdateKeeps(db: Db, input: ActivityUpdateInput, next: Db)
    requires Good(db) && UpdateReady(db, input) && UpdateActivityTx(db, input) == Ok(next)
    ensures Good(next) && Evolves(db, next)
  {
    var a := input.activityId;
    assert ActivityAt(db.activities, a) && GroupAt(db.activities, db.groups, a);
    assert input.events == [input.events[0]];
    ChangeKeeps(db, a, next.activities[a], db.groups, input.log, input.events[0], next);
  }

  /** What PrepareActivityTransition guarantees about its input when the status still matches. */
  ghost predicate ActivityTransitionReady(db: Db, input: ActivityTransitionInput) {
    && input.activityId in db.activities
    && var row := db.activities[input.activityId];
    && AllowedActivityChange(input.from, input.to)
    && (input.publishedAt.Some? <==> input.to == Published)
    && input.group == (if input.to == Published then Some(Group(row.organizer, GroupActive)) else None)
    && input.dissolveGroup == (input.to == ActivityCancelled)
    && input.log.activityId == input.activityId && input.log.from == input.from && input.log.to == input.to
    && |input.events| == 1 && input.events[0].ActivityEvent? && input.events[0].activityId == input.activityId
  }

  lemma ActivityTransitionKeeps(db: Db, input: ActivityTransitionInput, next: Db)
    requires Good(db) && ActivityTransitionReady(db, input) && TransitionActivityTx(db, input) == Ok(next)
    ensures Good(next) && Evolves(db, next)
  {
    var a := input.activityId;
    assert ActivityAt(db.activities, a) && GroupAt(db.activities, db.groups, a);
    assert input.events == [input.events[0]];
    ChangeKeeps(db, a, next.activities[a], next.groups, Some(input.log), input.events[0], next);
  }

  lemma SyncOneKeeps(db: Db, a: Id, read: Activity, now: Time)
    requires Good(db)
    ensures Good(SyncOne(db, a, read, now)) && Evolves(db, SyncOne(db, a, read, now))
  {
    var next := SyncOne(db, a, read, now);
    var to := NextTimedStatus(read.status, read.form.start, read.form.end, now);
    if to.Some? && a in db.activities && db.activities[a].status == read.status {
      assert ActivityAt(db.activities, a) && GroupAt(db.activities, db.groups, a);
      ChangeKeeps(db, a, next.activities[a], db.groups, Some(ActivityLog(a, read.status, to.value, BySystem)),
                  ActivityEvent(StatusChanged, a, to.value, read.version + 1), next);
    } else {
      EvolvesReflexive(db);
    }
  }

  lemma EvolvesReflexive(db: Db)
    ensures Evolves(db, db)
  {
    forall a: Id ensures ActivityLater(db.activities, db.activities, a) {}
    forall r: Id ensures RegistrationLater(db.registrations, db.registrations, r) {}
    forall t: Id ensures TicketLater(db.tickets, db.tickets, t) {}
    forall c: Id ensures CheckInLater(db.checkIns, db.checkIns, c) {}
  }

  lemma EvolvesTransitive(x: Db, y: Db, z: Db)
    requires Evolves(x, y) && Evolves(y, z)
    ensures Evolves(x, z)
  {
    forall a: Id ensures ActivityLater(x.activities, z.activities, a) {
      assert ActivityLater(x.activities, y.activities, a) && ActivityLater(y.activities, z.activities, a);
    }
    forall r: Id ensures RegistrationLater(x.registrations, z.registrations, r) {
      assert RegistrationLater(x.registrations, y.registrations, r)
          && RegistrationLater(y.registrations, z.registrations, r);
    }
    forall t: Id ensures TicketLater(x.tickets, z.tickets, t) {
      assert TicketLater(x.tickets, y.tickets, t) && TicketLater(y.tickets, z.tickets, t);
    }
    forall c: Id ensures CheckInLater(x.checkIns, z.checkIns, c) {
      assert CheckInLater(x.checkIns, y.checkIns, c) && CheckInLater(y.checkIns, z.checkIns, c);
    }
  }

  lemma {:induction false} SyncKeeps(db: Db, candidates: seq<(Id, Activity)>, now: Time)
    requires Good(db)
    ensures Good(SyncTx(db, candidates, now)) && Evolves(db, SyncTx(db, candidates, now))
  {
    if candidates == [] {
      EvolvesReflexive(db);
    } else {
      var last := candidates[|candidates| - 1];
      var before := SyncTx(db, candidates[..|candidates| - 1], now);
      SyncKeeps(db, candidates[..|candidates| - 1], now);
      SyncOneKeeps(before, last.0, last.1, now);
      EvolvesTransitive(db, before, SyncOne(before, last.0, last.1, now));
    }
  }
}
