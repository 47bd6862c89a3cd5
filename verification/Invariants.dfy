/** What every reachable state satisfies, and how any state relates to every later one. */
module Invariants {
  import opened Wrappers
  import opened Model
  import opened Services

  // ----- folds over the outbox and the logs -----

  datatype Replayed = NotCreated | At(status: RegistrationStatus) | Broken

  /** One registration event applied to what is known of registration `r`. */
  ghost function ReplayStep(known: Replayed, e: Event, r: Id): Replayed {
    if !e.RegistrationEvent? || e.registrationId != r then known
    else
      match (known, e.from)
      case (NotCreated, None) => At(e.to)
      case (At(s), Some(f)) => if f == s then At(e.to) else Broken
      case _ => Broken
  }

  /** Folds the events of registration `r`, in id order; Broken when a from_status does not fit. */
  ghost function ReplayRegistration(outbox: seq<Event>, r: Id): Replayed {
    if outbox == [] then NotCreated
    else ReplayStep(ReplayRegistration(outbox[..|outbox| - 1], r), outbox[|outbox| - 1], r)
  }

  /** How many ticket events of one kind the outbox holds for ticket `t`. */
  ghost function TicketEvents(outbox: seq<Event>, kind: TicketEventKind, t: Id): nat {
    if outbox == [] then 0
    else
      var e := outbox[|outbox| - 1];
      TicketEvents(outbox[..|outbox| - 1], kind, t)
      + if e.TicketEvent? && e.ticketKind == kind && e.ticketId == t then 1 else 0
  }

  /** How many events the outbox holds for activity `a`. */
  ghost function ActivityEvents(outbox: seq<Event>, a: Id): nat {
    if outbox == [] then 0
    else
      var e := outbox[|outbox| - 1];
      ActivityEvents(outbox[..|outbox| - 1], a) + if e.ActivityEvent? && e.activityId == a then 1 else 0
  }

  /** The status changes the outbox announces for registration `r`, oldest first. */
  ghost function AnnouncedChanges(outbox: seq<Event>, r: Id): seq<(RegistrationStatus, RegistrationStatus)> {
    if outbox == [] then []
    else
      var e := outbox[|outbox| - 1];
      AnnouncedChanges(outbox[..|outbox| - 1], r)
      + if e.RegistrationEvent? && e.registrationId == r && e.from.Some? then [(e.from.value, e.to)] else []
  }

  /** The status changes the status log records for registration `r`, oldest first. */
  ghost function LoggedChanges(log: seq<RegistrationLog>, r: Id): seq<(RegistrationStatus, RegistrationStatus)> {
    if log == [] then []
    else
      var l := log[|log| - 1];
      LoggedChanges(log[..|log| - 1], r) + if l.registrationId == r then [(l.from, l.to)] else []
  }

  /** The edges of the activity life cycle. */
  predicate AllowedActivityChange(from: ActivityStatus, to: ActivityStatus) {
    match from
    case Draft => to == PendingReview || to == ActivityCancelled
    case PendingReview => to == Published || to == ActivityRejected || to == Draft || to == ActivityCancelled
    case ActivityRejected => to == PendingReview || to == Draft
    case Published => to == Ongoing || to == Finished || to == ActivityCancelled
    case Ongoing => to == Finished || to == ActivityCancelled
    case Finished => false
    case ActivityCancelled => false
  }

  /** Walks the status log of activity `a` from Draft; None when an entry is not an allowed edge. */
  ghost function ActivityPath(log: seq<ActivityLog>, a: Id): Option<ActivityStatus> {
    if log == [] then Some(Draft)
    else
      var before := ActivityPath(log[..|log| - 1], a);
      var l := log[|log| - 1];
      if l.activityId != a then before
      else if before == Some(l.from) && AllowedActivityChange(l.from, l.to) then Some(l.to)
      else None
  }

  ghost function TimesPublished(log: seq<ActivityLog>, a: Id): nat {
    if log == [] then 0
    else
      var l := log[|log| - 1];
      TimesPublished(log[..|log| - 1], a) + if l.activityId == a && l.to == Published then 1 else 0
  }

  // ----- the invariant -----

  /** The registrations of activity `a` in status `s`. */
  ghost function Holding(registrations: map<Id, Registration>, a: Id, s: RegistrationStatus): set<Id> {
    set r | r in registrations && registrations[r].activityId == a && registrations[r].status == s
  }

  ghost predicate ActivityRowOk(row: Activity) {
    && ValidForm(row.form)
    && (RegisterableStatus(row.status) || row.status == Finished ==> row.publishedAt.Some?)
    && (row.status == Draft || row.status == PendingReview || row.status == ActivityRejected ==> row.publishedAt.None?)
    && (row.status == PendingReview ==> row.version >= 1)
    && (row.publishedAt.Some? ==> row.version >= 2)
  }

  ghost predicate ActivityAt(activities: map<Id, Activity>, a: Id) {
    a in activities ==> ActivityRowOk(activities[a])
  }

  ghost predicate ActivitiesOk(activities: map<Id, Activity>) {
    forall a: Id :: ActivityAt(activities, a)
  }

  /** The status log and the outbox account for every committed change of an activity. */
  ghost predicate ActivityAccounted(activities: map<Id, Activity>, log: seq<ActivityLog>, outbox: seq<Event>, a: Id) {
    && ActivityEvents(outbox, a) == (if a in activities then activities[a].version + 1 else 0)
    && ActivityPath(log, a) == Some(if a in activities then activities[a].status else Draft)
    && TimesPublished(log, a) == (if a in activities && activities[a].publishedAt.Some? then 1 else 0)
  }

  ghost predicate ActivityHistoryOk(activities: map<Id, Activity>, log: seq<ActivityLog>, outbox: seq<Event>) {
    forall a: Id :: ActivityAccounted(activities, log, outbox, a)
  }

  /** Activity `a` has a chat group iff it was ever published; the group is dissolved iff `a` is cancelled. */
  ghost predicate GroupAt(activities: map<Id, Activity>, groups: map<Id, Group>, a: Id) {
    if a in activities && activities[a].publishedAt.Some? then
      a in groups && groups[a] == Group(activities[a].organizer,
                                        if activities[a].status == ActivityCancelled
                                        then GroupDissolved else GroupActive)
    else a !in groups
  }

  ghost predicate GroupsOk(activities: map<Id, Activity>, groups: map<Id, Group>) {
    forall a: Id :: GroupAt(activities, groups, a)
  }

  /** A registration row fits the activity it belongs to. */
  ghost predicate RegistrationRowOk(row: Registration, activity: Activity) {
    && activity.publishedAt.Some?
    && row.status != Failed
    && activity.form.registerStart <= row.createdAt <= activity.form.registerEnd
    && (row.active <==> row.status == Pending || row.status == Approved)
    && (row.status == Pending || row.status == Rejected || row.status == Expired ==> activity.form.requireApproval)
    && (row.expiresAt.Some? <==> activity.form.requireApproval)
    && (row.expiresAt.Some? ==>
          row.createdAt <= row.expiresAt.value == ApprovalDeadline(row.createdAt, activity.form.start))
  }

  ghost predicate RegistrationAt(activities: map<Id, Activity>, registrations: map<Id, Registration>, r: Id) {
    r in registrations ==>
      && registrations[r].activityId in activities
      && RegistrationRowOk(registrations[r], activities[registrations[r].activityId])
  }

  ghost predicate RegistrationsOk(activities: map<Id, Activity>, registrations: map<Id, Registration>) {
    forall r: Id :: RegistrationAt(activities, registrations, r)
  }

  ghost predicate SameSlot(x: Registration, y: Registration) {
    x.active && y.active && x.activityId == y.activityId && x.userId == y.userId
  }

  ghost predicate SlotUnique(registrations: map<Id, Registration>, r: Id, q: Id) {
    r in registrations && q in registrations && SameSlot(registrations[r], registrations[q]) ==> r == q
  }

  /** The uk_active_registration key. */
  ghost predicate OneActive(registrations: map<Id, Registration>) {
    forall r: Id, q: Id :: SlotUnique(registrations, r, q)
  }

  /** The participant counters of activity `a` equal what they count, and never exceed the capacity. */
  ghost predicate CounterOk(activities: map<Id, Activity>, registrations: map<Id, Registration>, a: Id) {
    a in activities ==>
      && activities[a].approved == |Holding(registrations, a, Approved)|
      && activities[a].pending == |Holding(registrations, a, Pending)|
      && activities[a].approved + activities[a].pending <= activities[a].form.maxParticipants
  }

  ghost predicate CountersOk(activities: map<Id, Activity>, registrations: map<Id, Registration>) {
    forall a: Id :: CounterOk(activities, registrations, a)
  }

  /** A ticket row fits its registration and the activity of that registration. */
  ghost predicate TicketRowOk(ticket: Ticket, registration: Registration, activity: Activity) {
    && ticket.activityId == registration.activityId
    && ticket.userId == registration.userId
    && ticket.validStart == Some(activity.form.start - TICKET_LEAD)
    && ticket.validEnd == Some(activity.form.end)
    && (registration.status == Approved || registration.status == Cancelled)
    && (ticket.status == Unused ==> registration.status == Approved)
    && (ticket.status == Voided ==> registration.status == Cancelled)
  }

  ghost predicate TicketAt(activities: map<Id, Activity>, registrations: map<Id, Registration>,
                           tickets: map<Id, Ticket>, t: Id)
  {
    t in tickets ==>
      && tickets[t].registrationId in registrations
      && registrations[tickets[t].registrationId].activityId in activities
      && TicketRowOk(tickets[t], registrations[tickets[t].registrationId],
                     activities[registrations[tickets[t].registrationId].activityId])
  }

  ghost predicate TicketsOk(activities: map<Id, Activity>, registrations: map<Id, Registration>,
                            tickets: map<Id, Ticket>)
  {
    forall t: Id :: TicketAt(activities, registrations, tickets, t)
  }

  ghost predicate TicketUnique(tickets: map<Id, Ticket>, t: Id, u: Id) {
    t in tickets && u in tickets && tickets[t].registrationId == tickets[u].registrationId ==> t == u
  }

  /** The unique registration_id key of tickets. */
  ghost predicate OneTicketEach(tickets: map<Id, Ticket>) {
    forall t: Id, u: Id :: TicketUnique(tickets, t, u)
  }

  ghost predicate HasTicket(tickets: map<Id, Ticket>, r: Id) {
    exists t :: t in tickets && tickets[t].registrationId == r
  }

  ghost predicate TicketIfApproved(registrations: map<Id, Registration>, tickets: map<Id, Ticket>, r: Id) {
    r in registrations && registrations[r].status == Approved ==> HasTicket(tickets, r)
  }

  ghost predicate ApprovedHaveTickets(registrations: map<Id, Registration>, tickets: map<Id, Ticket>) {
    forall r: Id :: TicketIfApproved(registrations, tickets, r)
  }

  /** A check-in row fits the ticket it redeemed. */
  ghost predicate CheckInRowOk(row: CheckIn, ticket: Ticket) {
    && ticket.status == Used
    && row.registrationId == ticket.registrationId
    && row.activityId == ticket.activityId
    && row.userId == ticket.userId
    && ticket.validStart.Some? && ticket.validStart.value <= row.checkedInAt
    && ticket.validEnd.Some? && row.checkedInAt <= ticket.validEnd.value
  }

  ghost predicate Redeemed(checkIns: map<Id, CheckIn>, t: Id) {
    exists c :: c in checkIns && checkIns[c].ticketId == t
  }

  ghost predicate CheckInAt(tickets: map<Id, Ticket>, checkIns: map<Id, CheckIn>, c: Id) {
    c in checkIns ==> checkIns[c].ticketId in tickets && CheckInRowOk(checkIns[c], tickets[checkIns[c].ticketId])
  }

  ghost predicate CheckInUnique(checkIns: map<Id, CheckIn>, c: Id, d: Id) {
    (&& c in checkIns && d in checkIns
     && (checkIns[c].ticketId == checkIns[d].ticketId || checkIns[c].requestId == checkIns[d].requestId))
    ==> c == d
  }

  ghost predicate UsedIsRedeemed(tickets: map<Id, Ticket>, checkIns: map<Id, CheckIn>, t: Id) {
    t in tickets && tickets[t].status == Used ==> Redeemed(checkIns, t)
  }

  ghost predicate CheckInsOk(tickets: map<Id, Ticket>, checkIns: map<Id, CheckIn>) {
    && (forall c: Id :: CheckInAt(tickets, checkIns, c))
    && (forall c: Id, d: Id :: CheckInUnique(checkIns, c, d))
    && (forall t: Id :: UsedIsRedeemed(tickets, checkIns, t))
  }

  /** The registration events and the status log tell the current statuses. */
  ghost predicate RegistrationAccounted(
    registrations: map<Id, Registration>, log: seq<RegistrationLog>, outbox: seq<Event>, r: Id)
  {
    && ReplayRegistration(outbox, r) == (if r in registrations then At(registrations[r].status) else NotCreated)
    && AnnouncedChanges(outbox, r) == LoggedChanges(log, r)
  }

  /** The k-th outbox event, when about a registration, names its row, activity and user. */
  ghost predicate EventAt(registrations: map<Id, Registration>, outbox: seq<Event>, k: nat) {
    k < |outbox| && outbox[k].RegistrationEvent? ==>
      && outbox[k].registrationId in registrations
      && registrations[outbox[k].registrationId].activityId == outbox[k].activityId
      && registrations[outbox[k].registrationId].userId == outbox[k].userId
  }

  ghost predicate RegistrationHistoryOk(registrations: map<Id, Registration>, log: seq<RegistrationLog>,
                                        outbox: seq<Event>)
  {
    && (forall r: Id :: RegistrationAccounted(registrations, log, outbox, r))
    && (forall k: nat :: EventAt(registrations, outbox, k))
  }

  /** Ticket `t` in `tickets` is accounted for by the events counted. */
  ghost predicate TicketAccounted(registrations: map<Id, Registration>, tickets: map<Id, Ticket>, outbox: seq<Event>,
                                  t: Id)
  {
    && TicketEvents(outbox, TicketCreated, t) == (if t in tickets then 1 else 0)
    && TicketEvents(outbox, TicketUsed, t) == (if t in tickets && tickets[t].status == Used then 1 else 0)
    && TicketEvents(outbox, TicketExpiredEvent, t)
        == (if t in tickets && tickets[t].status == TicketExpired then 1 else 0)
    && TicketEvents(outbox, TicketVoided, t) <= 1
    && (t in tickets && tickets[t].status == Voided ==> TicketEvents(outbox, TicketVoided, t) == 1)
    && (TicketEvents(outbox, TicketVoided, t) == 1 ==>
          t in tickets && tickets[t].registrationId in registrations
          && registrations[tickets[t].registrationId].status == Cancelled)
  }

  ghost predicate TicketHistoryOk(registrations: map<Id, Registration>, tickets: map<Id, Ticket>, outbox: seq<Event>) {
    forall t: Id :: TicketAccounted(registrations, tickets, outbox, t)
  }

  /** Activities, their groups, and the registrations that hold their slots. */
  ghost predicate SlotsGood(db: Db) {
    && ActivitiesOk(db.activities)
    && GroupsOk(db.activities, db.groups)
    && RegistrationsOk(db.activities, db.registrations)
    && OneActive(db.registrations)
    && CountersOk(db.activities, db.registrations)
  }

  /** Tickets and check-ins. */
  ghost predicate TicketsGood(db: Db) {
    && TicketsOk(db.activities, db.registrations, db.tickets)
    && OneTicketEach(db.tickets)
    && ApprovedHaveTickets(db.registrations, db.tickets)
    && CheckInsOk(db.tickets, db.checkIns)
  }

  /** Status logs and outbox. */
  ghost predicate HistoryGood(db: Db) {
    && ActivityHistoryOk(db.activities, db.activityLog, db.outbox)
    && RegistrationHistoryOk(db.registrations, db.registrationLog, db.outbox)
    && TicketHistoryOk(db.registrations, db.tickets, db.outbox)
  }

  ghost predicate Good(db: Db) {
    SlotsGood(db) && TicketsGood(db) && HistoryGood(db)
  }

  // ----- how a state relates to a later one -----

  /** How many changes an activity in this status is at least away from the commit of an edit. */
  function ChangesToEdit(status: ActivityStatus): nat {
    if status == PendingReview then 2 else 1
  }

  /** How many changes an activity needs at least from an edit to this status. */
  function ChangesFromEdit(status: ActivityStatus): nat {
    match status
    case Draft => 0
    case PendingReview => 1
    case ActivityCancelled => 1
    case _ => 2
  }

  ghost predicate ActivityEvolves(was: Activity, row: Activity) {
    && was.organizer == row.organizer
    && was.version <= row.version
    && (was.version == row.version ==>
          was.form == row.form && was.status == row.status && was.publishedAt == row.publishedAt)
    && (was.publishedAt.Some? ==> was.form == row.form && was.publishedAt == row.publishedAt)
    && (was.status == Finished || was.status == ActivityCancelled ==>
          row.status == was.status && row.version == was.version)
    && was.version + ChangesFromEdit(row.status) <= row.version + ChangesFromEdit(was.status)
    && was.version + ChangesToEdit(was.status) <= row.version + ChangesToEdit(row.status)
    && (was.form != row.form ==>
          was.version + ChangesToEdit(was.status) + ChangesFromEdit(row.status) <= row.version)
  }

  ghost predicate RegistrationEvolves(was: Registration, row: Registration) {
    && was.(status := row.status, active := row.active) == row
    && (was.status != Pending && was.status != Approved ==> was.status == row.status)
    && (was.status == Approved ==> row.status == Approved || row.status == Cancelled)
  }

  ghost predicate TicketEvolves(was: Ticket, row: Ticket) {
    && was.(status := row.status, version := row.version) == row
    && (was.status != Unused ==> was == row)
  }

  ghost predicate ActivityLater(was: map<Id, Activity>, now: map<Id, Activity>, a: Id) {
    a in was ==> a in now && ActivityEvolves(was[a], now[a])
  }

  ghost predicate RegistrationLater(was: map<Id, Registration>, now: map<Id, Registration>, r: Id) {
    r in was ==> r in now && RegistrationEvolves(was[r], now[r])
  }

  ghost predicate TicketLater(was: map<Id, Ticket>, now: map<Id, Ticket>, t: Id) {
    t in was ==> t in now && TicketEvolves(was[t], now[t])
  }

  ghost predicate CheckInLater(was: map<Id, CheckIn>, now: map<Id, CheckIn>, c: Id) {
    c in was ==> c in now && was[c] == now[c]
  }

  ghost predicate Evolves(was: Db, db: Db) {
    && (forall a: Id :: ActivityLater(was.activities, db.activities, a))
    && (forall r: Id :: RegistrationLater(was.registrations, db.registrations, r))
    && (forall t: Id :: TicketLater(was.tickets, db.tickets, t))
    && (forall c: Id :: CheckInLater(was.checkIns, db.checkIns, c))
    && was.groups.Keys <= db.groups.Keys
    && was.activityLog <= db.activityLog
    && was.registrationLog <= db.registrationLog
    && was.outbox <= db.outbox
  }
}
