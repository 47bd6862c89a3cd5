/** Option and Result, used for nullable columns and for error returns. */
module Wrappers {
  datatype Option<+T> = None | Some(value: T)

  datatype Result<+T, +E> = Ok(value: T) | Err(error: E) {
    predicate IsFailure() { Err? }

    function PropagateFailure<U>(): (r: Result<U, E>)
      requires Err?
    {
      Err(error)
    }

    function Extract(): T
      requires Ok?
    {
      value
    }
  }
}

/**
 The rows of the registration core.  A table is a map from the row's identifier to the row: the
 auto-increment id and the uuid of a row are two names for the same thing, so one identifier stands
 for both.  Status logs and the outbox are sequences in insertion (id) order.
 Times are Unix milliseconds; 0 is the zero time of the source's timestamp type.
 */
module Model {
  import opened Wrappers

  type Id = nat
  type Time = int

  const HOUR: Time := 3_600_000
  /** How long a pending registration keeps its slot. */
  const APPROVAL_WINDOW: Time := 48 * HOUR
  /** How long before the start of the activity a ticket becomes valid. */
  const TICKET_LEAD: Time := HOUR

  datatype ActivityStatus =
    | Draft
    | PendingReview
    | Published
    | Ongoing
    | Finished
    | ActivityRejected
    | ActivityCancelled

  datatype RegistrationStatus = Pending | Approved | Rejected | Cancelled | Failed | Expired

  datatype TicketStatus = Unused | Used | TicketExpired | Voided

  datatype GroupStatus = GroupActive | GroupReadOnly | GroupDissolved

  /** The columns an organizer edits. */
  datatype Form = Form(
    title: string,
    registerStart: Time,
    registerEnd: Time,
    start: Time,
    end: Time,
    maxParticipants: nat,
    requireApproval: bool)

  datatype Activity = Activity(
    organizer: Id,
    form: Form,
    approved: nat,
    pending: nat,
    status: ActivityStatus,
    version: nat,
    publishedAt: Option<Time>)

  datatype Registration = Registration(
    activityId: Id,
    userId: Id,
    status: RegistrationStatus,
    active: bool,
    expiresAt: Option<Time>,
    createdAt: Time)

  datatype Ticket = Ticket(
    code: string,
    registrationId: Id,
    activityId: Id,
    userId: Id,
    status: TicketStatus,
    validStart: Option<Time>,
    validEnd: Option<Time>,
    version: nat)

  datatype CheckIn = CheckIn(
    ticketId: Id,
    registrationId: Id,
    activityId: Id,
    userId: Id,
    operatorId: Id,
    requestId: string,
    checkedInAt: Time)

  datatype Group = Group(ownerId: Id, status: GroupStatus)

  datatype Operator = ByUser | ByOrganizer | ByAdmin | BySystem

  datatype ActivityLog = ActivityLog(activityId: Id, from: ActivityStatus, to: ActivityStatus, operator: Operator)

  datatype RegistrationLog = RegistrationLog(
    registrationId: Id, from: RegistrationStatus, to: RegistrationStatus, operator: Operator)

  datatype ActivityEventKind =
    | ActivityCreated
    | ActivityUpdated
    | ActivityPublished
    | ActivityCancelledEvent
    | StatusChanged

  datatype TicketEventKind = TicketCreated | TicketUsed | TicketExpiredEvent | TicketVoided

  /** Outbox rows, by the fields their consumers and the theorems read. */
  datatype Event =
    | ActivityEvent(kind: ActivityEventKind, activityId: Id, status: ActivityStatus, version: nat)
    | RegistrationEvent(registrationId: Id, activityId: Id, userId: Id,
                        from: Option<RegistrationStatus>, to: RegistrationStatus)
    | TicketEvent(ticketKind: TicketEventKind, ticketId: Id, activityId: Id)

  datatype Db = Db(
    activities: map<Id, Activity>,
    registrations: map<Id, Registration>,
    tickets: map<Id, Ticket>,
    checkIns: map<Id, CheckIn>,
    groups: map<Id, Group>,
    activityLog: seq<ActivityLog>,
    registrationLog: seq<RegistrationLog>,
    outbox: seq<Event>)

  const EMPTY_DB := Db(map[], map[], map[], map[], map[], [], [], [])

  /** Why a repository transaction rolled back. */
  datatype TxError = CapacityFull | ConcurrentUpdate | DuplicateKey | TicketNotUsable

  /** Why a service operation failed. */
  datatype Error =
    | ActivityNotFound
    | RegistrationNotFound
    | TicketNotFound
    | Conflict
    | NotEligible
    | Forbidden
    | Invalid
    | Storage(tx: TxError)
}
