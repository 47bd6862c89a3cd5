/**
 The service layer: every operation reads rows, decides, and builds the input of one repository
 transaction.  The reads come from the states passed in, which need not be the state the
 transaction commits against.
 */
module Services {
  import opened Wrappers
  import opened Model
  import opened Transactions

  // ----- activities -----

  /** Non-zero times, non-empty windows, and registration closing no later than the start. */
  predicate ValidActivityWindow(form: Form) {
    && form.registerStart != 0 && form.registerEnd != 0 && form.start != 0 && form.end != 0
    && form.registerStart < form.registerEnd && form.start < form.end && form.registerEnd <= form.start
  }

  predicate ValidForm(form: Form) {
    1 <= |form.title| <= 100 && 1 <= form.maxParticipants && ValidActivityWindow(form)
  }

  predicate EditableStatus(status: ActivityStatus) {
    status == Draft || status == ActivityRejected
  }

  predicate CancellableStatus(status: ActivityStatus) {
    status == Draft || status == PendingReview || status == Published || status == Ongoing
  }

  predicate ReviewableStatus(status: ActivityStatus) {
    status == PendingReview
  }

  predicate RegisterableStatus(status: ActivityStatus) {
    status == Published || status == Ongoing
  }

  function CreateActivity(db: Db, id: Id, organizer: Id, form: Form): Result<Db, Error> {
    if !ValidForm(form) then Err(Invalid)
    else
      var row := Activity(organizer, form, 0, 0, Draft, 0, None);
      match CreateActivityTx(db, id, row, [ActivityEvent(ActivityCreated, id, Draft, 1)])
      case Ok(next) => Ok(next)
      case Err(e) => Err(Storage(e))
  }

  function FindOwned(read: Db, id: Id, user: Id): Result<Activity, Error> {
    if id !in read.activities then Err(ActivityNotFound)
    else if read.activities[id].organizer != user then Err(Forbidden)
    else Ok(read.activities[id])
  }

  function PrepareUpdate(read: Db, id: Id, user: Id, form: Form): Result<ActivityUpdateInput, Error> {
    var activity :- FindOwned(read, id, user);
    if !EditableStatus(activity.status) then Err(Conflict)
    else if !ValidForm(form) then Err(Invalid)
    else
      var rejected := activity.status == ActivityRejected;
      Ok(ActivityUpdateInput(id, activity.version, form,
                             if rejected then Some(Draft) else None,
                             if rejected then Some(ActivityLog(id, ActivityRejected, Draft, ByUser)) else None,
                             [ActivityEvent(ActivityUpdated, id, activity.status, activity.version + 1)]))
  }

  function UpdateActivity(read: Db, db: Db, id: Id, user: Id, form: Form): Result<Db, Error> {
    var input :- PrepareUpdate(read, id, user, form);
    match UpdateActivityTx(db, input)
    case Ok(next) => Ok(next)
    case Err(ConcurrentUpdate) => Err(Conflict)
    case Err(e) => Err(Storage(e))
  }

  function TransitionEventKind(to: ActivityStatus): ActivityEventKind {
    if to == Published then ActivityPublished
    else if to == ActivityCancelled then ActivityCancelledEvent
    else StatusChanged
  }

  /** The shared tail of submit, cancel and review: the activity was read in `activity`. */
  function PrepareActivityTransition(id: Id, activity: Activity, to: ActivityStatus, operator: Operator, now: Time)
    : ActivityTransitionInput
  {
    ActivityTransitionInput(
      id, activity.status, to,
      if to == Published then Some(now) else None,
      if to == Published then Some(Group(activity.organizer, GroupActive)) else None,
      to == ActivityCancelled,
      ActivityLog(id, activity.status, to, operator),
      [ActivityEvent(TransitionEventKind(to), id, to, activity.version + 1)])
  }

  function ApplyActivityTransition(db: Db, input: ActivityTransitionInput): Result<Db, Error> {
    match TransitionActivityTx(db, input)
    case Ok(next) => Ok(next)
    case Err(ConcurrentUpdate) => Err(Conflict)
    case Err(e) => Err(Storage(e))
  }

  function SubmitActivity(read: Db, db: Db, id: Id, user: Id, now: Time): Result<Db, Error> {
    var activity :- FindOwned(read, id, user);
    if !EditableStatus(activity.status) then Err(Conflict)
    else ApplyActivityTransition(db, PrepareActivityTransition(id, activity, PendingReview, ByUser, now))
  }

  function CancelActivity(read: Db, db: Db, id: Id, user: Id, now: Time): Result<Db, Error> {
    var activity :- FindOwned(read, id, user);
    if !CancellableStatus(activity.status) then Err(Conflict)
    else ApplyActivityTransition(db, PrepareActivityTransition(id, activity, ActivityCancelled, ByUser, now))
  }

  /** A refusal comes with its trimmed reason. */
  datatype Verdict = Publish | Refuse(reason: string) | SendBack

  function VerdictStatus(verdict: Verdict): ActivityStatus {
    match verdict
    case Publish => Published
    case Refuse(_) => ActivityRejected
    case SendBack => Draft
  }

  function ReviewActivity(read: Db, db: Db, id: Id, verdict: Verdict, now: Time): Result<Db, Error> {
    if verdict.Refuse? && (verdict.reason == "" || |verdict.reason| > 500) then Err(Invalid)
    else if id !in read.activities then Err(ActivityNotFound)
    else if !ReviewableStatus(read.activities[id].status) then Err(Conflict)
    else ApplyActivityTransition(
      db, PrepareActivityTransition(id, read.activities[id], VerdictStatus(verdict), ByAdmin, now))
  }

  /** The rows of `ids` that the sync's prefilter selects in the state it reads. */
  function SyncCandidates(read: Db, ids: seq<Id>, now: Time): (rows: seq<(Id, Activity)>)
    ensures forall i | 0 <= i < |rows| ::
      rows[i].0 in read.activities && rows[i].1 == read.activities[rows[i].0] && TimedCandidate(rows[i].1, now)
  {
    if ids == [] then []
    else
      var rows := SyncCandidates(read, ids[..|ids| - 1], now);
      var id := ids[|ids| - 1];
      if id in read.activities && TimedCandidate(read.activities[id], now)
      then rows + [(id, read.activities[id])] else rows
  }

  // ----- registrations -----

  function ApprovalDeadline(now: Time, activityStart: Time): Time {
    if now + APPROVAL_WINDOW > activityStart then activityStart else now + APPROVAL_WINDOW
  }

  /** The ticket for an approved registration; the transaction fills in the registration. */
  function IssueTicket(activityId: Id, activity: Activity, userId: Id, code: string): Ticket {
    Ticket(code, 0, activityId, userId, Unused,
           Some(activity.form.start - TICKET_LEAD), Some(activity.form.end), 0)
  }

  datatype RegisterRequest = RegisterRequest(
    activityId: Id, userId: Id, eligible: bool, now: Time, registrationId: Id, ticketId: Id, code: string)

  function PrepareRegister(readActivity: Db, readActive: Db, q: RegisterRequest): Result<RegisterInput, Error> {
    if q.activityId !in readActivity.activities then Err(ActivityNotFound)
    else
      var activity := readActivity.activities[q.activityId];
      if !RegisterableStatus(activity.status) || q.now < activity.form.registerStart
          || q.now > activity.form.registerEnd
      then Err(Conflict)
      else if !q.eligible then Err(NotEligible)
      else if HasActive(readActive.registrations, q.activityId, q.userId) then Err(Conflict)
      else
        var approved := !activity.form.requireApproval;
        var status := if approved then Approved else Pending;
        var expiresAt := if approved then None else Some(ApprovalDeadline(q.now, activity.form.start));
        var created := RegistrationEvent(q.registrationId, q.activityId, q.userId, None, status);
        Ok(RegisterInput(
          q.registrationId,
          Registration(q.activityId, q.userId, status, true, expiresAt, q.now),
          if approved then Some((q.ticketId, IssueTicket(q.activityId, activity, q.userId, q.code))) else None,
          if approved then [created, TicketEvent(TicketCreated, q.ticketId, q.activityId)] else [created],
          approved))
  }

  function Register(readActivity: Db, readActive: Db, db: Db, q: RegisterRequest): Result<Db, Error> {
    var input :- PrepareRegister(readActivity, readActive, q);
    match RegisterTx(db, input)
    case Ok(next) => Ok(next)
    case Err(CapacityFull) => Err(Conflict)
    case Err(e) => Err(Storage(e))
  }

  function ApplyTransition(db: Db, input: TransitionInput): Result<Db, Error> {
    match TransitionTx(db, input)
    case Ok(next) => Ok(next)
    case Err(ConcurrentUpdate) => Err(Conflict)
    case Err(CapacityFull) => Err(Conflict)
    case Err(e) => Err(Storage(e))
  }

  /** Cancel, approve, reject and expire end alike: a prepared input is applied. */
  function ApplyPrepared(db: Db, prepared: Result<TransitionInput, Error>): Result<Db, Error> {
    var input :- prepared;
    ApplyTransition(db, input)
  }

  /** FindByRegistrationID: the registration_id column is unique, so at most one row matches. */
  ghost function TicketOf(tickets: map<Id, Ticket>, registrationId: Id): (t: Option<Id>)
    ensures t.Some? ==> t.value in tickets && tickets[t.value].registrationId == registrationId
    ensures t.None? ==> forall k <- tickets :: tickets[k].registrationId != registrationId
  {
    if exists t :: t in tickets && tickets[t].registrationId == registrationId then
      var t :| t in tickets && tickets[t].registrationId == registrationId;
      Some(t)
    else None
  }

  ghost function PrepareCancel(readRegistration: Db, readActivity: Db, readTicket: Db, r: Id, user: Id)
    : Result<TransitionInput, Error>
  {
    if r !in readRegistration.registrations then Err(RegistrationNotFound)
    else
      var registration := readRegistration.registrations[r];
      if registration.userId != user then Err(Forbidden)
      else if registration.status != Pending && registration.status != Approved then Err(Conflict)
      else if registration.activityId !in readActivity.activities then Err(ActivityNotFound)
      else
        var approved := registration.status == Approved;
        var ticket := TicketOf(readTicket.tickets, r);
        var unused := ticket.Some? && readTicket.tickets[ticket.value].status == Unused;
        var cancelled := RegistrationEvent(r, registration.activityId, user, Some(registration.status), Cancelled);
        Ok(TransitionInput(
          r, registration.activityId, registration.status, Cancelled, true,
          if approved then 0 else -1, if approved then -1 else 0, false,
          None, if unused then ticket else None,
          RegistrationLog(r, registration.status, Cancelled, ByUser),
          if unused then [cancelled, TicketEvent(TicketVoided, ticket.value, registration.activityId)]
          else [cancelled]))
  }

  datatype Actor = Actor(id: Id, isAdmin: bool)

  predicate CanManage(activity: Activity, actor: Actor) {
    activity.organizer == actor.id || actor.isAdmin
  }

  function ReviewOperator(activity: Activity, actor: Actor): Operator {
    if activity.organizer == actor.id then ByOrganizer else ByAdmin
  }

  /** The registration and its activity, for an actor allowed to manage the activity. */
  function LoadManaged(readRegistration: Db, readActivity: Db, r: Id, actor: Actor)
    : Result<(Registration, Activity), Error>
  {
    if r !in readRegistration.registrations then Err(RegistrationNotFound)
    else
      var registration := readRegistration.registrations[r];
      if registration.activityId !in readActivity.activities then Err(ActivityNotFound)
      else
        var activity := readActivity.activities[registration.activityId];
        if !CanManage(activity, actor) then Err(Forbidden) else Ok((registration, activity))
  }

  function PrepareApprove(readRegistration: Db, readActivity: Db, r: Id, actor: Actor, ticketId: Id, code: string)
    : Result<TransitionInput, Error>
  {
    var loaded :- LoadManaged(readRegistration, readActivity, r, actor);
    var (registration, activity) := loaded;
    if registration.status != Pending then Err(Conflict)
    else
      Ok(TransitionInput(
        r, registration.activityId, Pending, Approved, false, -1, 1, false,
        Some((ticketId, IssueTicket(registration.activityId, activity, registration.userId, code))), None,
        RegistrationLog(r, Pending, Approved, ReviewOperator(activity, actor)),
        [RegistrationEvent(r, registration.activityId, registration.userId, Some(Pending), Approved),
         TicketEvent(TicketCreated, ticketId, registration.activityId)]))
  }

  /** The input that releases a pending registration's slot, shared by reject and expire. */
  function ReleasePending(r: Id, registration: Registration, to: RegistrationStatus, operator: Operator)
    : TransitionInput
  {
    TransitionInput(
      r, registration.activityId, registration.status, to, true, -1, 0, false, None, None,
      RegistrationLog(r, registration.status, to, operator),
      [RegistrationEvent(r, registration.activityId, registration.userId, Some(registration.status), to)])
  }

  /** `reason` is the trimmed reject reason. */
  function PrepareReject(readRegistration: Db, readActivity: Db, r: Id, actor: Actor, reason: string)
    : Result<TransitionInput, Error>
  {
    if reason == "" || |reason| > 255 then Err(Invalid)
    else
      var loaded :- LoadManaged(readRegistration, readActivity, r, actor);
      if loaded.0.status != Pending then Err(Conflict)
      else Ok(ReleasePending(r, loaded.0, Rejected, ReviewOperator(loaded.1, actor)))
  }

  /** The WHERE clause that selects overdue pending registrations. */
  predicate Overdue(registration: Registration, now: Time) {
    registration.status == Pending && registration.active
    && registration.expiresAt.Some? && registration.expiresAt.value <= now
  }

  /** One round of the expiry loop: a candidate whose activity is gone is skipped. */
  function PrepareExpire(readRegistration: Db, readActivity: Db, r: Id, now: Time): Result<TransitionInput, Error> {
    if r !in readRegistration.registrations || !Overdue(readRegistration.registrations[r], now)
    then Err(RegistrationNotFound)
    else
      var registration := readRegistration.registrations[r];
      if registration.activityId !in readActivity.activities then Err(ActivityNotFound)
      else Ok(ReleasePending(r, registration, Expired, BySystem))
  }

  // ----- check-in -----

  datatype CheckInRequest = CheckInRequest(
    requestId: string, ticketId: Id, expectedActivity: Option<Id>, actor: Actor, now: Time, checkInId: Id)

  /** Unused, not of a cancelled activity, and inside its validity window. */
  predicate CheckInAllowed(ticket: Ticket, activity: Activity, now: Time) {
    && ticket.status == Unused
    && activity.status != ActivityCancelled
    && (ticket.validStart.Some? ==> ticket.validStart.value <= now)
    && (ticket.validEnd.Some? ==> now <= ticket.validEnd.value)
  }

  function PrepareCheckIn(readTicket: Db, readActivity: Db, q: CheckInRequest): Result<(CheckIn, seq<Event>), Error> {
    if q.ticketId !in readTicket.tickets then Err(TicketNotFound)
    else
      var ticket := readTicket.tickets[q.ticketId];
      if ticket.activityId !in readActivity.activities then Err(ActivityNotFound)
      else
        var activity := readActivity.activities[ticket.activityId];
        if q.expectedActivity.Some? && q.expectedActivity.value != ticket.activityId then Err(Conflict)
        else if !CanManage(activity, q.actor) then Err(Forbidden)
        else if !CheckInAllowed(ticket, activity, q.now) then Err(Conflict)
        else
          Ok((CheckIn(q.ticketId, ticket.registrationId, ticket.activityId, ticket.userId,
                      q.actor.id, q.requestId, q.now),
              [TicketEvent(TicketUsed, q.ticketId, ticket.activityId)]))
  }

  /** FindByRequestID: the client_request_id column is unique. */
  ghost function FindByRequestId(checkIns: map<Id, CheckIn>, requestId: string): (c: Option<Id>)
    ensures c.Some? ==> c.value in checkIns && checkIns[c.value].requestId == requestId
    ensures c.None? ==> forall k <- checkIns :: checkIns[k].requestId != requestId
  {
    if exists c :: c in checkIns && checkIns[c].requestId == requestId then
      var c :| c in checkIns && checkIns[c].requestId == requestId;
      Some(c)
    else None
  }

  /**
   The state after a check-in request and its answer.  A request id that is already recorded
   answers with that record; after a failed transaction the request id is looked up once more,
   in `readLate`, before the failure is reported.
   */
  ghost function CheckInService(readRequest: Db, readTicket: Db, readActivity: Db, db: Db, readLate: Db,
                                q: CheckInRequest)
    : (Db, Result<(Id, CheckIn), Error>)
  {
    if q.requestId == "" || |q.requestId| > 64 then (db, Err(Invalid))
    else
      match FindByRequestId(readRequest.checkIns, q.requestId)
      case Some(c) => (db, Ok((c, readRequest.checkIns[c])))
      case None =>
        match PrepareCheckIn(readTicket, readActivity, q)
        case Err(e) => (db, Err(e))
        case Ok((record, events)) =>
          match CheckInTx(db, q.checkInId, record, events)
          case Ok(next) => (next, Ok((q.checkInId, record)))
          case Err(e) =>
            match FindByRequestId(readLate.checkIns, q.requestId)
            case Some(c) => (db, Ok((c, readLate.checkIns[c])))
            case None => (db, if e == TicketNotUsable then Err(Conflict) else Err(Storage(e)))
  }

  /** The WHERE clause that selects unused tickets past their window. */
  predicate TicketOverdue(ticket: Ticket, now: Time) {
    ticket.status == Unused && ticket.validEnd.Some? && ticket.validEnd.value <= now
  }

  /** One round of the ticket expiry loop; a ticket that moved on meanwhile is skipped. */
  function ExpireTicket(read: Db, db: Db, t: Id, now: Time): Result<Db, Error> {
    if t !in read.tickets || !TicketOverdue(read.tickets[t], now) then Err(TicketNotFound)
    else
      match ExpireTicketTx(db, t, [TicketEvent(TicketExpiredEvent, t, read.tickets[t].activityId)])
      case Ok(next) => Ok(next)
      case Err(e) => Err(Conflict)
  }

  // ----- chat group fallback -----

  /** The membership consumer's findOrCreateGroup for an activity it read in `read`. */
  function FindOrCreateGroup(read: Db, readGroup: Db, db: Db, a: Id): Result<Db, Error> {
    if a !in read.activities then Err(ActivityNotFound)
    else if a in readGroup.groups then Ok(db)
    else
      match CreateGroupTx(db, a, Group(read.activities[a].organizer, GroupActive))
      case Ok(next) => Ok(next)
      case Err(e) => Err(Storage(e))
  }
}
