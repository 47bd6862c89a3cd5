/**
 All runs of the registration core.  A run is the history of committed states.  Every read of an
 operation is answered by some state of the history, so a step covers an operation that was in
 flight while any number of other operations committed.  An action's first components say which
 states answered its reads, in program order.
 */
module Protocol {
  import opened Wrappers
  import opened Model
  import opened Transactions
  import opened Services

  datatype Action =
    | DoCreateActivity(id: Id, organizer: Id, form: Form)
    | DoUpdateActivity(read: nat, id: Id, user: Id, form: Form)
    | DoSubmitActivity(read: nat, id: Id, user: Id, now: Time)
    | DoCancelActivity(read: nat, id: Id, user: Id, now: Time)
    | DoReviewActivity(read: nat, id: Id, verdict: Verdict, now: Time)
    | DoSyncStatuses(read: nat, ids: seq<Id>, now: Time)
    | DoRegister(read: nat, read2: nat, register: RegisterRequest)
    | DoCancel(read: nat, read2: nat, read3: nat, r: Id, user: Id)
    | DoApprove(read: nat, read2: nat, r: Id, actor: Actor, ticketId: Id, code: string)
    | DoReject(read: nat, read2: nat, r: Id, actor: Actor, reason: string)
    | DoExpire(read: nat, read2: nat, r: Id, now: Time)
    | DoCheckIn(read: nat, read2: nat, read3: nat, checkIn: CheckInRequest)
    | DoExpireTicket(read: nat, t: Id, now: Time)
    | DoFindOrCreateGroup(read: nat, read2: nat, read3: nat, event: nat)

  /** Every read is answered by a past state, and no later read by an earlier state than a former one. */
  predicate Readable(states: nat, action: Action) {
    match action
    case DoCreateActivity(_, _, _) => true
    case DoUpdateActivity(i, _, _, _) => i < states
    case DoSubmitActivity(i, _, _, _) => i < states
    case DoCancelActivity(i, _, _, _) => i < states
    case DoReviewActivity(i, _, _, _) => i < states
    case DoSyncStatuses(i, _, _) => i < states
    case DoRegister(i, j, _) => i <= j < states
    case DoCancel(i, j, k, _, _) => i <= j <= k < states
    case DoApprove(i, j, _, _, _, _) => i <= j < states
    case DoReject(i, j, _, _, _) => i <= j < states
    case DoExpire(i, j, _, _) => i <= j < states
    case DoCheckIn(i, j, k, _) => i <= j <= k < states
    case DoExpireTicket(i, _, _) => i < states
    case DoFindOrCreateGroup(i, j, k, _) => i <= j <= k < states
  }

  ghost function Committed(db: Db, outcome: Result<Db, Error>): Db {
    match outcome case Ok(next) => next case Err(_) => db
  }

  /** The group fallback is reached from a registration.approved event of the outbox. */
  ghost predicate Approval(db: Db, event: nat) {
    event < |db.outbox| && db.outbox[event].RegistrationEvent? && db.outbox[event].from.Some?
        && db.outbox[event].to == Approved
  }

  /** The actions that move a registration row. */
  predicate MovesRegistration(action: Action) {
    action.DoCancel? || action.DoApprove? || action.DoReject? || action.DoExpire?
  }

  /** What such an action prepares from the states that answer its reads. */
  ghost function InputOf(history: seq<Db>, action: Action): Result<TransitionInput, Error>
    requires MovesRegistration(action) && Readable(|history|, action)
  {
    match action
    case DoCancel(i, j, k, r, user) => PrepareCancel(history[i], history[j], history[k], r, user)
    case DoApprove(i, j, r, actor, t, code) => PrepareApprove(history[i], history[j], r, actor, t, code)
    case DoReject(i, j, r, actor, reason) => PrepareReject(history[i], history[j], r, actor, reason)
    case DoExpire(i, j, r, now) => PrepareExpire(history[i], history[j], r, now)
  }

  ghost function Exec(history: seq<Db>, action: Action): Db
    requires |history| > 0 && Readable(|history|, action)
  {
    var db := history[|history| - 1];
    match action
    case DoCreateActivity(id, organizer, form) => Committed(db, CreateActivity(db, id, organizer, form))
    case DoUpdateActivity(i, id, user, form) => Committed(db, UpdateActivity(history[i], db, id, user, form))
    case DoSubmitActivity(i, id, user, now) => Committed(db, SubmitActivity(history[i], db, id, user, now))
    case DoCancelActivity(i, id, user, now) => Committed(db, CancelActivity(history[i], db, id, user, now))
    case DoReviewActivity(i, id, verdict, now) => Committed(db, ReviewActivity(history[i], db, id, verdict, now))
    case DoSyncStatuses(i, ids, now) => SyncTx(db, SyncCandidates(history[i], ids, now), now)
    case DoRegister(i, j, q) => Committed(db, Register(history[i], history[j], db, q))
    case DoCancel(_, _, _, _, _) => Committed(db, ApplyPrepared(db, InputOf(history, action)))
    case DoApprove(_, _, _, _, _, _) => Committed(db, ApplyPrepared(db, InputOf(history, action)))
    case DoReject(_, _, _, _, _) => Committed(db, ApplyPrepared(db, InputOf(history, action)))
    case DoExpire(_, _, _, _) => Committed(db, ApplyPrepared(db, InputOf(history, action)))
    case DoCheckIn(i, j, k, q) => CheckInService(history[i], history[j], history[k], db, db, q).0
    case DoExpireTicket(i, t, now) => Committed(db, ExpireTicket(history[i], db, t, now))
    case DoFindOrCreateGroup(i, j, k, event) =>
      if Approval(history[i], event)
      then Committed(db, FindOrCreateGroup(history[j], history[k], db, history[i].outbox[event].activityId))
      else db
  }

  /** `next` is a state the action may lead to after `history`. */
  ghost predicate Step(history: seq<Db>, action: Action, next: Db) {
    |history| > 0 && Readable(|history|, action) && next == Exec(history, action)
  }

  /** Some action leads from `history` to `next`. */
  ghost predicate Reaches(history: seq<Db>, next: Db) {
    exists action :: Step(history, action, next)
  }

  /** The n-th state was reached from the states before it. */
  ghost predicate StepAt(history: seq<Db>, n: nat) {
    0 < n < |history| ==> Reaches(history[..n], history[n])
  }

  /** `history` is the history of some run that starts with empty tables. */
  ghost predicate Run(history: seq<Db>) {
    |history| > 0 && history[0] == EMPTY_DB && forall n: nat :: StepAt(history, n)
  }
}
