/**
 The repository transactions as functions on the tables: each either commits all of its effects or
 reports why it rolled back.  Class Database performs the same transactions in place.
 */
module Transactions {
  import opened Wrappers
  import opened Model

  datatype RegisterInput = RegisterInput(
    id: Id,
    registration: Registration,
    ticket: Option<(Id, Ticket)>,
    events: seq<Event>,
    approved: bool)

  datatype TransitionInput = TransitionInput(
    registrationId: Id,
    activityId: Id,
    from: RegistrationStatus,
    to: RegistrationStatus,
    clearActive: bool,
    pendingDelta: int,
    approvedDelta: int,
    guardCapacity: bool,
    ticket: Option<(Id, Ticket)>,
    voidTicket: Option<Id>,
    log: RegistrationLog,
    events: seq<Event>)

  datatype ActivityTransitionInput = ActivityTransitionInput(
    activityId: Id,
    from: ActivityStatus,
    to: ActivityStatus,
    publishedAt: Option<Time>,
    group: Option<Group>,
    dissolveGroup: bool,
    log: ActivityLog,
    events: seq<Event>)

  datatype ActivityUpdateInput = ActivityUpdateInput(
    activityId: Id,
    version: nat,
    form: Form,
    to: Option<ActivityStatus>,
    log: Option<ActivityLog>,
    events: seq<Event>)

  /** GREATEST(CAST(x AS SIGNED) + delta, 0). */
  function Clamp(x: nat, delta: int): (r: nat)
    ensures r >= x + delta && (r == 0 || r == x + delta)
  {
    if x + delta < 0 then 0 else x + delta
  }

  predicate HasRoom(activity: Activity) {
    activity.approved + activity.pending < activity.form.maxParticipants
  }

  function AdjustCounters(activities: map<Id, Activity>, a: Id, pendingDelta: int, approvedDelta: int, guard: bool)
    : Result<map<Id, Activity>, TxError>
  {
    if pendingDelta == 0 && approvedDelta == 0 then
      Ok(activities)
    else if a in activities && (guard ==> HasRoom(activities[a])) then
      var row := activities[a];
      Ok(activities[a := row.(pending := Clamp(row.pending, pendingDelta),
                              approved := Clamp(row.approved, approvedDelta))])
    else if guard then
      Err(CapacityFull)
    else
      Ok(activities)
  }

  /** A row of the uk_active_registration key: an active registration of the user for the activity. */
  predicate HasActive(registrations: map<Id, Registration>, activityId: Id, userId: Id) {
    exists r <- registrations ::
      registrations[r].active && registrations[r].activityId == activityId && registrations[r].userId == userId
  }

  function InsertRegistration(registrations: map<Id, Registration>, id: Id, row: Registration)
    : Result<map<Id, Registration>, TxError>
  {
    if id in registrations || (row.active && HasActive(registrations, row.activityId, row.userId)) then
      Err(DuplicateKey)
    else
      Ok(registrations[id := row])
  }

  predicate TicketKeyTaken(tickets: map<Id, Ticket>, id: Id, row: Ticket) {
    id in tickets || exists t <- tickets ::
      tickets[t].code == row.code || tickets[t].registrationId == row.registrationId
  }

  function InsertTicket(tickets: map<Id, Ticket>, id: Id, row: Ticket): Result<map<Id, Ticket>, TxError> {
    if TicketKeyTaken(tickets, id, row) then Err(DuplicateKey) else Ok(tickets[id := row])
  }

  function InsertOptionalTicket(tickets: map<Id, Ticket>, ticket: Option<(Id, Ticket)>, registrationId: Id)
    : Result<map<Id, Ticket>, TxError>
  {
    match ticket
    case None => Ok(tickets)
    case Some(t) => InsertTicket(tickets, t.0, t.1.(registrationId := registrationId))
  }

  /** Sets the status of an unused ticket; any other ticket is left alone. */
  function CloseTicket(tickets: map<Id, Ticket>, t: Id, to: TicketStatus): map<Id, Ticket> {
    if t in tickets && tickets[t].status == Unused then
      tickets[t := tickets[t].(status := to, version := tickets[t].version + 1)]
    else
      tickets
  }

  function VoidOptionalTicket(tickets: map<Id, Ticket>, t: Option<Id>): map<Id, Ticket> {
    match t
    case None => tickets
    case Some(id) => CloseTicket(tickets, id, Voided)
  }

  function RegisterTx(db: Db, input: RegisterInput): Result<Db, TxError> {
    var activities :- AdjustCounters(db.activities, input.registration.activityId,
                                     if input.approved then 0 else 1, if input.approved then 1 else 0, true);
    var registrations :- InsertRegistration(db.registrations, input.id, input.registration);
    var tickets :- InsertOptionalTicket(db.tickets, input.ticket, input.id);
    Ok(db.(activities := activities, registrations := registrations, tickets := tickets,
           outbox := db.outbox + input.events))
  }

  function TransitionTx(db: Db, input: TransitionInput): Result<Db, TxError> {
    if input.registrationId !in db.registrations || db.registrations[input.registrationId].status != input.from then
      Err(ConcurrentUpdate)
    else
      var row := db.registrations[input.registrationId];
      var registrations := db.registrations[input.registrationId :=
        row.(status := input.to, active := if input.clearActive then false else row.active)];
      var activities :- AdjustCounters(db.activities, input.activityId,
                                       input.pendingDelta, input.approvedDelta, input.guardCapacity);
      var tickets :- InsertOptionalTicket(db.tickets, input.ticket, input.registrationId);
      Ok(db.(activities := activities, registrations := registrations,
             tickets := VoidOptionalTicket(tickets, input.voidTicket),
             registrationLog := db.registrationLog + [input.log],
             outbox := db.outbox + input.events))
  }

  function CreateActivityTx(db: Db, id: Id, row: Activity, events: seq<Event>): Result<Db, TxError> {
    if id in db.activities then Err(DuplicateKey)
    else Ok(db.(activities := db.activities[id := row], outbox := db.outbox + events))
  }

  function OptionalLog<T>(log: seq<T>, entry: Option<T>): seq<T> {
    match entry
    case None => log
    case Some(e) => log + [e]
  }

  /** Compare-and-set on the version column. */
  function UpdateActivityTx(db: Db, input: ActivityUpdateInput): Result<Db, TxError> {
    if input.activityId !in db.activities || db.activities[input.activityId].version != input.version then
      Err(ConcurrentUpdate)
    else
      var row := db.activities[input.activityId];
      var status := if input.to.Some? then input.to.value else row.status;
      Ok(db.(activities := db.activities[input.activityId :=
                             row.(form := input.form, status := status, version := input.version + 1)],
             activityLog := OptionalLog(db.activityLog, input.log),
             outbox := db.outbox + input.events))
  }

  function CreateOptionalGroup(groups: map<Id, Group>, a: Id, group: Option<Group>): Result<map<Id, Group>, TxError> {
    match group
    case None => Ok(groups)
    case Some(g) => if a in groups then Err(DuplicateKey) else Ok(groups[a := g])
  }

  function Dissolve(groups: map<Id, Group>, a: Id, dissolve: bool): map<Id, Group> {
    if dissolve && a in groups then groups[a := groups[a].(status := GroupDissolved)] else groups
  }

  /** Compare-and-set on the status column. */
  function TransitionActivityTx(db: Db, input: ActivityTransitionInput): Result<Db, TxError> {
    if input.activityId !in db.activities || db.activities[input.activityId].status != input.from then
      Err(ConcurrentUpdate)
    else
      var row := db.activities[input.activityId];
      var groups :- CreateOptionalGroup(db.groups, input.activityId, input.group);
      Ok(db.(activities := db.activities[input.activityId :=
                             row.(status := input.to, version := row.version + 1,
                                  publishedAt := if input.publishedAt.Some? then input.publishedAt
                                                 else row.publishedAt)],
             groups := Dissolve(groups, input.activityId, input.dissolveGroup),
             activityLog := db.activityLog + [input.log],
             outbox := db.outbox + input.events))
  }

  /** The time based target of a published or ongoing activity, if it has one. */
  function NextTimedStatus(current: ActivityStatus, start: Time, end: Time, now: Time): Option<ActivityStatus> {
    match current
    case Published => if end <= now then Some(Finished) else if start <= now then Some(Ongoing) else None
    case Ongoing => if end <= now then Some(Finished) else None
    case _ => None
  }

  /** The WHERE clause that selects the candidates of a status sync. */
  predicate TimedCandidate(activity: Activity, now: Time) {
    (activity.status == Published || activity.status == Ongoing)
        && (activity.form.start <= now || activity.form.end <= now)
  }

  /** One round of the sync loop for one candidate row, as it was read. */
  function SyncOne(db: Db, a: Id, read: Activity, now: Time): Db {
    match NextTimedStatus(read.status, read.form.start, read.form.end, now)
    case None => db
    case Some(to) =>
      if a !in db.activities || db.activities[a].status != read.status then db
      else db.(activities := db.activities[a :=
                 db.activities[a].(status := to, version := db.activities[a].version + 1)],
               activityLog := db.activityLog + [ActivityLog(a, read.status, to, BySystem)],
               outbox := db.outbox + [ActivityEvent(StatusChanged, a, to, read.version + 1)])
  }

  function SyncTx(db: Db, candidates: seq<(Id, Activity)>, now: Time): Db {
    if candidates == [] then db
    else
      var last := candidates[|candidates| - 1];
      SyncOne(SyncTx(db, candidates[..|candidates| - 1], now), last.0, last.1, now)
  }

  predicate CheckInKeyTaken(checkIns: map<Id, CheckIn>, id: Id, row: CheckIn) {
    id in checkIns || exists c <- checkIns ::
      checkIns[c].ticketId == row.ticketId || checkIns[c].requestId == row.requestId
  }

  function CheckInTx(db: Db, id: Id, record: CheckIn, events: seq<Event>): Result<Db, TxError> {
    if record.ticketId !in db.tickets || db.tickets[record.ticketId].status != Unused then
      Err(TicketNotUsable)
    else if CheckInKeyTaken(db.checkIns, id, record) then
      Err(DuplicateKey)
    else
      Ok(db.(tickets := CloseTicket(db.tickets, record.ticketId, Used), checkIns := db.checkIns[id := record],
             outbox := db.outbox + events))
  }

  function ExpireTicketTx(db: Db, t: Id, events: seq<Event>): Result<Db, TxError> {
    if t !in db.tickets || db.tickets[t].status != Unused then Err(ConcurrentUpdate)
    else Ok(db.(tickets := CloseTicket(db.tickets, t, TicketExpired), outbox := db.outbox + events))
  }

  /** The membership consumer's group creation for an activity without a group. */
  function CreateGroupTx(db: Db, a: Id, group: Group): Result<Db, TxError> {
    var groups :- CreateOptionalGroup(db.groups, a, Some(group));
    Ok(db.(groups := groups))
  }
}
