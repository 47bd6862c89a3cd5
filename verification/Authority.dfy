/**
 Who may do what: although every permission is checked on rows that were read earlier, whoever
 changes a row was entitled to when the change commits.
 */
module Authority {
  import opened Model
  import opened Transactions
  import opened Protocol
  import opened Invariants
  import opened Transitions
  import opened Reachable

  /** What never changes about a row, and which rows a version or status guard finds unchanged. */
  ghost predicate Owned(was: Db, db: Db) {
    && (forall a <- was.activities :: a in db.activities && ActivityEvolves(was.activities[a], db.activities[a]))
    && (forall r <- was.registrations ::
          r in db.registrations && RegistrationEvolves(was.registrations[r], db.registrations[r]))
    && (forall t <- was.tickets :: t in db.tickets && TicketEvolves(was.tickets[t], db.tickets[t]))
  }

  lemma RowsKeepTheirOwners(history: seq<Db>, i: nat)
    requires Run(history) && i < |history|
    ensures Good(history[|history| - 1]) && Owned(history[i], history[|history| - 1])
  {
    RunIsSound(history);
    var was, db := history[i], history[|history| - 1];
    assert Evolves(was, db);
    forall a | a in was.activities ensures a in db.activities && ActivityEvolves(was.activities[a], db.activities[a]) {
      assert ActivityLater(was.activities, db.activities, a);
    }
    forall r | r in was.registrations
      ensures r in db.registrations && RegistrationEvolves(was.registrations[r], db.registrations[r])
    {
      assert RegistrationLater(was.registrations, db.registrations, r);
    }
    forall t | t in was.tickets ensures t in db.tickets && TicketEvolves(was.tickets[t], db.tickets[t]) {
      assert TicketLater(was.tickets, db.tickets, t);
    }
  }

  /** A title of 1 to 100 characters, a capacity, and times that are given and in order. */
  predicate Acceptable(form: Form) {
    && 1 <= |form.title| <= 100 && form.maxParticipants >= 1
    && form.registerStart != 0 && form.registerEnd != 0 && form.start != 0 && form.end != 0
    && form.registerStart < form.registerEnd <= form.start < form.end
  }

  /**
   Only its organizer edits, submits or cancels an activity, and only in a status that allows it
   when the change commits.
   */
  lemma OnlyTheOrganizerChangesAnActivity(history: seq<Db>, action: Action, next: Db)
    requires Run(history) && Step(history, action, next) && next != history[|history| - 1]
    requires action.DoUpdateActivity? || action.DoSubmitActivity? || action.DoCancelActivity?
    ensures action.id in history[|history| - 1].activities
    ensures var row := history[|history| - 1].activities[action.id];
            && row.organizer == action.user
            && (if action.DoCancelActivity? then
                  row.status == Draft || row.status == PendingReview || row.status == Published || row.status == Ongoing
                else row.status == Draft || row.status == ActivityRejected)
            && (action.DoUpdateActivity? ==> Acceptable(action.form))
  {
    RowsKeepTheirOwners(history, action.read);
  }

  /** Approve and reject: the registration read is pending still, and its activity's organizer is the same. */
  lemma ReviewersManage(history: seq<Db>, action: Action, input: TransitionInput)
    requires Run(history) && Prepared(history, action, input) && GuardPasses(history[|history| - 1], input)
    requires action.DoApprove? || action.DoReject?
    ensures var db := history[|history| - 1];
            && action.r in db.registrations && db.registrations[action.r].activityId in db.activities
            && db.registrations[action.r].status == Pending
            && (db.activities[db.registrations[action.r].activityId].organizer == action.actor.id
                || action.actor.isAdmin)
            && (action.DoReject? ==> 1 <= |action.reason| <= 255)
  {
    RowsKeepTheirOwners(history, action.read);
    RowsKeepTheirOwners(history, action.read2);
  }

  /** Cancel and expire. */
  lemma OwnersAndTimeRelease(history: seq<Db>, action: Action, input: TransitionInput)
    requires Run(history) && Prepared(history, action, input) && GuardPasses(history[|history| - 1], input)
    requires action.DoCancel? || action.DoExpire?
    ensures var db := history[|history| - 1];
            && action.r in db.registrations && db.registrations[action.r].activityId in db.activities
            && var row := db.registrations[action.r];
            && (row.status == Pending || (row.status == Approved && action.DoCancel?))
            && (action.DoCancel? ==> row.userId == action.user)
            && (action.DoExpire? ==> row.expiresAt.Some? && row.expiresAt.value <= action.now)
  {
    RowsKeepTheirOwners(history, action.read);
    RowsKeepTheirOwners(history, action.read2);
    assert RegistrationAt(history[|history| - 1].activities, history[|history| - 1].registrations, action.r);
  }

  /**
   Only its own user cancels a registration, only its activity's organizer or a request made as an
   administrator approves or rejects it, and it only times out past its deadline; all of them while it
   holds a slot.  The organizer is the one of the rows at the commit; the role is the request's.
   */
  lemma OnlyEntitledUsersMoveARegistration(history: seq<Db>, action: Action, next: Db)
    requires Run(history) && MovesRegistration(action) && Step(history, action, next) && next != history[|history| - 1]
    ensures var db := history[|history| - 1];
            && action.r in db.registrations && db.registrations[action.r].activityId in db.activities
            && var row := db.registrations[action.r];
            && (row.status == Pending || (row.status == Approved && action.DoCancel?))
            && match action
               case DoCancel(_, _, _, _, user) => row.userId == user
               case DoApprove(_, _, _, actor, _, _) =>
                 db.activities[row.activityId].organizer == actor.id || actor.isAdmin
               case DoReject(_, _, _, actor, reason) =>
                 (db.activities[row.activityId].organizer == actor.id || actor.isAdmin) && 1 <= |reason| <= 255
               case DoExpire(_, _, _, now) => row.expiresAt.Some? && row.expiresAt.value <= now
  {
    MoveCommits(history, action, next);
    if action.DoApprove? || action.DoReject? {
      ReviewersManage(history, action, InputOf(history, action).value);
    } else {
      OwnersAndTimeRelease(history, action, InputOf(history, action).value);
    }
  }

  /**
   A check-in that commits was made by the organizer of the ticket's activity or by a request made as an
   administrator, inside the ticket's window, for the activity the scanner expected, and not for one
   that was seen cancelled.
   */
  lemma OnlyManagersCheckIn(history: seq<Db>, action: Action, next: Db)
    requires Run(history) && Step(history, action, next) && next != history[|history| - 1]
    requires action.DoCheckIn?
    ensures var db, q := history[|history| - 1], action.checkIn;
            && q.ticketId in db.tickets && db.tickets[q.ticketId].activityId in db.activities
            && var ticket := db.tickets[q.ticketId];
            && (db.activities[ticket.activityId].organizer == q.actor.id || q.actor.isAdmin)
            && (q.expectedActivity.Some? ==> q.expectedActivity.value == ticket.activityId)
            && (ticket.validStart.Some? ==> ticket.validStart.value <= q.now)
            && (ticket.validEnd.Some? ==> q.now <= ticket.validEnd.value)
            && ticket.activityId in history[action.read3].activities
            && history[action.read3].activities[ticket.activityId].status != ActivityCancelled
            && q.checkInId in next.checkIns && next.checkIns[q.checkInId].operatorId == q.actor.id
            && next.checkIns[q.checkInId].checkedInAt == q.now && next.checkIns[q.checkInId].requestId == q.requestId
  {
    RowsKeepTheirOwners(history, action.read2);
    RowsKeepTheirOwners(history, action.read3);
  }
}
