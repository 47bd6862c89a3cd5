/**
 What each registration operation answers in a run, as a table over the rows it read and the rows it
 commits against, and the state it leaves behind.  The tables name statuses, times and errors themselves,
 and none of the tests of the service.
 */
module RegistrationAnswers {
  import opened Wrappers
  import opened Model
  import opened Transactions
  import opened Services
  import opened Protocol
  import opened Invariants
  import opened Transitions
  import opened StaleReads
  import opened Reachable
  import opened Authority

  /** The user has a registration for the activity that is pending or approved. */
  ghost predicate HoldsSlot(db: Db, a: Id, user: Id) {
    exists r :: r in db.registrations && db.registrations[r].activityId == a && db.registrations[r].userId == user
                && (db.registrations[r].status == Pending || db.registrations[r].status == Approved)
  }

  /** How many registrations of the activity are pending or approved. */
  ghost function SlotsTaken(db: Db, a: Id): nat {
    |set r | r in db.registrations && db.registrations[r].activityId == a && db.registrations[r].status == Approved|
    + |set r | r in db.registrations && db.registrations[r].activityId == a && db.registrations[r].status == Pending|
  }

  ghost predicate TicketInUse(db: Db, t: Id, code: string) {
    t in db.tickets || exists u :: u in db.tickets && db.tickets[u].code == code
  }

  /** A ticket as it is issued: valid from an hour before the start to the end of the activity. */
  function Issued(r: Id, a: Id, user: Id, form: Form, code: string): Ticket {
    Ticket(code, r, a, user, Unused, Some(form.start - 3_600_000), Some(form.end), 0)
  }

  lemma SlotsAreActive(db: Db, a: Id, user: Id)
    requires Good(db)
    ensures HasActive(db.registrations, a, user) <==> HoldsSlot(db, a, user)
    ensures a in db.activities ==> SlotsTaken(db, a) == db.activities[a].approved + db.activities[a].pending
  {
    assert CounterOk(db.activities, db.registrations, a);
    assert (set r | r in db.registrations && db.registrations[r].activityId == a
                    && db.registrations[r].status == Approved) == Holding(db.registrations, a, Approved);
    assert (set r | r in db.registrations && db.registrations[r].activityId == a
                    && db.registrations[r].status == Pending) == Holding(db.registrations, a, Pending);
    forall r | r in db.registrations
      ensures db.registrations[r].active
              <==> db.registrations[r].status == Pending || db.registrations[r].status == Approved
    {
      assert RegistrationAt(db.activities, db.registrations, r);
    }
  }

  // ----- register -----

  /** What a registration leaves behind. */
  function Registered(db: Db, q: RegisterRequest): Db
    requires q.activityId in db.activities
  {
    var a, r, row := q.activityId, q.registrationId, db.activities[q.activityId];
    if row.form.requireApproval then
      var deadline := if q.now + 172_800_000 < row.form.start then q.now + 172_800_000 else row.form.start;
      db.(registrations := db.registrations[r := Registration(a, q.userId, Pending, true, Some(deadline), q.now)],
          activities := db.activities[a := row.(pending := row.pending + 1)],
          outbox := db.outbox + [RegistrationEvent(r, a, q.userId, None, Pending)])
    else
      db.(registrations := db.registrations[r := Registration(a, q.userId, Approved, true, None, q.now)],
          activities := db.activities[a := row.(approved := row.approved + 1)],
          tickets := db.tickets[q.ticketId := Issued(r, a, q.userId, row.form, q.code)],
          outbox := db.outbox + [RegistrationEvent(r, a, q.userId, None, Approved),
                                 TicketEvent(TicketCreated, q.ticketId, a)])
  }

  /** What the service decides before its transaction. */
  lemma RegisterIsPrepared(seen: Db, active: Db, q: RegisterRequest)
    requires Good(seen) && Good(active)
    ensures var a := q.activityId;
            match PrepareRegister(seen, active, q)
            case Ok(input) =>
              && a in seen.activities
              && (seen.activities[a].status == Published || seen.activities[a].status == Ongoing)
              && seen.activities[a].form.registerStart <= q.now <= seen.activities[a].form.registerEnd
              && q.eligible && !HoldsSlot(active, a, q.userId) && input.id == q.registrationId
            case Err(e) =>
              if a !in seen.activities then e == ActivityNotFound
              else if (seen.activities[a].status == Published || seen.activities[a].status == Ongoing)
                      && seen.activities[a].form.registerStart <= q.now <= seen.activities[a].form.registerEnd
              then if q.eligible then e == Conflict && HoldsSlot(active, a, q.userId) else e == NotEligible
              else e == Conflict
  {
    SlotsAreActive(active, q.activityId, q.userId);
  }

  /** And the transaction, against whatever state. */
  lemma RegisterCommits(db: Db, q: RegisterRequest, input: RegisterInput)
    requires Good(db) && RegisterReady(db, input) && input.id == q.registrationId
    requires input.registration.activityId == q.activityId && input.registration.userId == q.userId
    requires input.registration.createdAt == q.now
    requires input.approved ==> input.ticket.value.0 == q.ticketId && input.ticket.value.1.code == q.code
    ensures var row := db.activities[q.activityId];
            RegisterTx(db, input) ==
            if SlotsTaken(db, q.activityId) >= row.form.maxParticipants then Err(CapacityFull)
            else if q.registrationId in db.registrations || HoldsSlot(db, q.activityId, q.userId)
                 || (!row.form.requireApproval && TicketInUse(db, q.ticketId, q.code)) then Err(DuplicateKey)
            else Ok(Registered(db, q))
  {
    SlotsAreActive(db, q.activityId, q.userId);
    forall t | t in db.tickets ensures db.tickets[t].registrationId in db.registrations {
      assert TicketAt(db.activities, db.registrations, db.tickets, t);
    }
  }

  /** What Register should answer, for a registration that read `seen` and `active` and commits against `db`. */
  ghost function RegisterShould(seen: Db, active: Db, db: Db, q: RegisterRequest): Result<Db, Error>
    requires q.activityId in seen.activities ==> q.activityId in db.activities
  {
    var a := q.activityId;
    if a !in seen.activities then Err(ActivityNotFound)
    else if seen.activities[a].status != Published && seen.activities[a].status != Ongoing then Err(Conflict)
    else if q.now < seen.activities[a].form.registerStart then Err(Conflict)
    else if seen.activities[a].form.registerEnd < q.now then Err(Conflict)
    else if !q.eligible then Err(NotEligible)
    else if HoldsSlot(active, a, q.userId) then Err(Conflict)
    else if SlotsTaken(db, a) >= db.activities[a].form.maxParticipants then Err(Conflict)
    else if q.registrationId in db.registrations || HoldsSlot(db, a, q.userId)
         || (!db.activities[a].form.requireApproval && TicketInUse(db, q.ticketId, q.code))
    then Err(Storage(DuplicateKey))
    else Ok(Registered(db, q))
  }

  /** Both together. */
  lemma RegisterTable(seen: Db, active: Db, db: Db, q: RegisterRequest)
    requires Good(seen) && Good(active) && Good(db) && Evolves(seen, db)
    ensures q.activityId in seen.activities ==> q.activityId in db.activities
    ensures Register(seen, active, db, q) == RegisterShould(seen, active, db, q)
  {
    assert ActivityLater(seen.activities, db.activities, q.activityId);
    RegisterIsPrepared(seen, active, q);
    var prepared := PrepareRegister(seen, active, q);
    if prepared.Ok? {
      RegisterStale(seen, active, db, q, prepared.value);
      RegisterCommits(db, q, prepared.value);
    }
  }

  /**
   Register.  The activity's status and window and the user's slot are those of the states read; the
   capacity and the unique keys are those of the commit.
   */
  lemma RegisterAnswer(history: seq<Db>, i: nat, j: nat, q: RegisterRequest)
    requires Run(history) && i <= j < |history|
    ensures q.activityId in history[i].activities ==> q.activityId in history[|history| - 1].activities
    ensures Register(history[i], history[j], history[|history| - 1], q)
            == RegisterShould(history[i], history[j], history[|history| - 1], q)
    ensures var answer := Register(history[i], history[j], history[|history| - 1], q);
            Exec(history, DoRegister(i, j, q)) == if answer.Ok? then answer.value else history[|history| - 1]
  {
    RunIsSound(history);
    assert Evolves(history[i], history[|history| - 1]);
    RegisterTable(history[i], history[j], history[|history| - 1], q);
  }

  // ----- the operations that move a registration -----

  /** Registration `r` in its new status, with a log entry and an event that say so. */
  function Moved(db: Db, r: Id, to: RegistrationStatus, operator: Operator): Db
    requires r in db.registrations
  {
    var row := db.registrations[r];
    db.(registrations := db.registrations[r := row.(status := to, active := to == Approved)],
        registrationLog := db.registrationLog + [RegistrationLog(r, row.status, to, operator)],
        outbox := db.outbox + [RegistrationEvent(r, row.activityId, row.userId, Some(row.status), to)])
  }

  /** The slot of a pending registration is free. */
  function Released(db: Db, r: Id, to: RegistrationStatus, operator: Operator): Db
    requires r in db.registrations && db.registrations[r].activityId in db.activities
    requires db.activities[db.registrations[r].activityId].pending >= 1
  {
    var a := db.registrations[r].activityId;
    Moved(db, r, to, operator).(
      activities := db.activities[a := db.activities[a].(pending := db.activities[a].pending - 1)])
  }

  /** The pending slot is an approved one, and there is a ticket. */
  function ApprovedState(db: Db, r: Id, operator: Operator, t: Id, code: string): Db
    requires r in db.registrations && db.registrations[r].activityId in db.activities
    requires db.activities[db.registrations[r].activityId].pending >= 1
  {
    var a := db.registrations[r].activityId;
    var row, moved := db.activities[a], Moved(db, r, Approved, operator);
    moved.(activities := db.activities[a := row.(pending := row.pending - 1, approved := row.approved + 1)],
           tickets := db.tickets[t := Issued(r, a, db.registrations[r].userId, row.form, code)],
           outbox := moved.outbox + [TicketEvent(TicketCreated, t, a)])
  }

  /**
   The approved slot is free, and the ticket void if it was unused; `announced` is the ticket whose end is
   announced.
   */
  function Withdrawn(db: Db, r: Id, announced: Option<Id>): Db
    requires r in db.registrations && db.registrations[r].activityId in db.activities
    requires db.activities[db.registrations[r].activityId].approved >= 1
  {
    var a := db.registrations[r].activityId;
    var row, moved := db.activities[a], Moved(db, r, Cancelled, ByUser);
    moved.(activities := db.activities[a := row.(approved := row.approved - 1)],
           tickets := map t | t in db.tickets ::
             if db.tickets[t].registrationId == r && db.tickets[t].status == Unused
             then db.tickets[t].(status := Voided, version := db.tickets[t].version + 1) else db.tickets[t],
           outbox := moved.outbox + if announced.Some? then [TicketEvent(TicketVoided, announced.value, a)] else [])
  }

  lemma SlotIsCounted(db: Db, r: Id)
    requires Good(db) && r in db.registrations
    ensures db.registrations[r].activityId in db.activities
    ensures db.registrations[r].status == Pending ==> db.activities[db.registrations[r].activityId].pending >= 1
    ensures db.registrations[r].status == Approved ==> db.activities[db.registrations[r].activityId].approved >= 1
    ensures db.registrations[r].active
            <==> db.registrations[r].status == Pending || db.registrations[r].status == Approved
  {
    assert RegistrationAt(db.activities, db.registrations, r);
    CountedAtLeastOnce(db.activities, db.registrations, r);
  }

  /** Registration `r` exists in that status, its activity exists and counts it. */
  ghost predicate SlotOf(db: Db, r: Id, status: RegistrationStatus) {
    && r in db.registrations && db.registrations[r].status == status && db.registrations[r].activityId in db.activities
    && (status == Pending ==> db.activities[db.registrations[r].activityId].pending >= 1)
    && (status == Approved ==> db.activities[db.registrations[r].activityId].approved >= 1)
  }

  lemma ReleaseCommits(db: Db, input: TransitionInput)
    requires Good(db) && ReleaseReady(db, input)
    ensures SlotOf(db, input.registrationId, Pending)
    ensures TransitionTx(db, input) == Ok(Released(db, input.registrationId, input.to, input.log.operator))
  {
    SlotIsCounted(db, input.registrationId);
  }

  lemma ApproveCommits(db: Db, input: TransitionInput)
    requires Good(db) && ApproveReady(db, input) && db.registrations[input.registrationId].status == Pending
    ensures SlotOf(db, input.registrationId, Pending)
    ensures var t, code := input.ticket.value.0, input.ticket.value.1.code;
            TransitionTx(db, input) ==
            if TicketInUse(db, t, code) then Err(DuplicateKey)
            else Ok(ApprovedState(db, input.registrationId, input.log.operator, t, code))
  {
    SlotIsCounted(db, input.registrationId);
    forall t | t in db.tickets ensures db.tickets[t].registrationId != input.registrationId {
      assert TicketAt(db.activities, db.registrations, db.tickets, t);
    }
    if !TicketInUse(db, input.ticket.value.0, input.ticket.value.1.code) {
      var next := TransitionTx(db, input).value;
      ApproveEffect(db, input, next);
      assert next.outbox == db.outbox + [input.events[0]] + [input.events[1]];
    }
  }

  lemma WithdrawalCommits(db: Db, input: TransitionInput)
    requires Good(db) && CancelReady(db, input)
    ensures SlotOf(db, input.registrationId, Approved)
    ensures TransitionTx(db, input).Ok?
    ensures var next, expected := TransitionTx(db, input).value, Withdrawn(db, input.registrationId, input.voidTicket);
            next == expected.(registrationLog := db.registrationLog + [input.log])
  {
    var r := input.registrationId;
    SlotIsCounted(db, r);
    var next := TransitionTx(db, input).value;
    CancelEffect(db, input, next);
    var expected := Withdrawn(db, r, input.voidTicket);
    forall t | t in db.tickets ensures next.tickets[t] == expected.tickets[t] {
      if db.tickets[t].registrationId == r { assert TicketAt(db.activities, db.registrations, db.tickets, t); }
    }
    assert next.tickets == expected.tickets;
    assert next.outbox == expected.outbox;
  }

  /** The unused ticket of a registration, if it has one. */
  ghost function UnusedTicket(db: Db, r: Id): (t: Option<Id>)
    ensures t.Some? ==>
              t.value in db.tickets && db.tickets[t.value].registrationId == r && db.tickets[t.value].status == Unused
    ensures t.None? ==>
              forall u <- db.tickets :: db.tickets[u].registrationId != r || db.tickets[u].status != Unused
  {
    if exists t :: t in db.tickets && db.tickets[t].registrationId == r && db.tickets[t].status == Unused then
      var t :| t in db.tickets && db.tickets[t].registrationId == r && db.tickets[t].status == Unused;
      Some(t)
    else None
  }

  /** What a run says of a registration read at state `i`. */
  lemma SeenAndNow(history: seq<Db>, i: nat, j: nat, r: Id)
    requires Run(history) && i <= j < |history| && r in history[i].registrations
    ensures var seen, db := history[i].registrations[r], history[|history| - 1];
            && r in db.registrations && db.registrations[r].activityId == seen.activityId
            && db.registrations[r].userId == seen.userId && db.registrations[r].expiresAt == seen.expiresAt
            && seen.activityId in history[j].activities && seen.activityId in db.activities
            && history[j].activities[seen.activityId].organizer == db.activities[seen.activityId].organizer
            && SlotOf(db, r, db.registrations[r].status)
  {
    RunIsSound(history);
    RowsKeepTheirOwners(history, i);
    RowsKeepTheirOwners(history, j);
    assert RegistrationAt(history[i].activities, history[i].registrations, r);
    assert Evolves(history[i], history[j]);
    assert ActivityLater(history[i].activities, history[j].activities, history[i].registrations[r].activityId);
    SlotIsCounted(history[|history| - 1], r);
  }

  ghost function CancelOf(history: seq<Db>, i: nat, j: nat, k: nat, r: Id, user: Id): Result<Db, Error>
    requires i <= j <= k < |history|
  {
    ApplyPrepared(history[|history| - 1], PrepareCancel(history[i], history[j], history[k], r, user))
  }

  /** The ticket that the cancellation looks up is the registration's only one. */
  lemma SameTicket(db: Db, r: Id, t: Option<Id>)
    requires Good(db)
    requires var found := TicketOf(db.tickets, r);
             t == if found.Some? && db.tickets[found.value].status == Unused then found else None
    ensures t == UnusedTicket(db, r)
  {
    var found, unused := TicketOf(db.tickets, r), UnusedTicket(db, r);
    if found.Some? && unused.Some? { assert TicketUnique(db.tickets, found.value, unused.value); }
  }

  lemma CancelPasses(history: seq<Db>, i: nat, j: nat, k: nat, r: Id, user: Id, input: TransitionInput)
    requires Run(history) && i <= j <= k < |history|
    requires PrepareCancel(history[i], history[j], history[k], r, user) == Ok(input)
    requires GuardPasses(history[|history| - 1], input)
    ensures var db := history[|history| - 1];
            && SlotOf(db, r, db.registrations[r].status) && (input.from == Pending || input.from == Approved)
            && TransitionTx(db, input) ==
               if input.from == Pending then Ok(Released(db, r, Cancelled, ByUser))
               else Ok(Withdrawn(db, r, UnusedTicket(history[k], r)))
  {
    var db := history[|history| - 1];
    RunIsSound(history);
    assert Evolves(history[i], history[k]) && Evolves(history[k], db) && Evolves(history[i], db)
        && Evolves(history[j], db);
    CancelStale(history[i], history[j], history[k], db, r, user, input);
    if input.from == Pending {
      ReleaseCommits(db, input);
    } else {
      WithdrawalCommits(db, input);
      SameTicket(history[k], r, input.voidTicket);
    }
  }

  /** Cancel. */
  lemma CancelAnswer(history: seq<Db>, i: nat, j: nat, k: nat, r: Id, user: Id)
    requires Run(history) && i <= j <= k < |history|
    ensures r in history[i].registrations ==>
              r in history[|history| - 1].registrations
              && SlotOf(history[|history| - 1], r, history[|history| - 1].registrations[r].status)
    ensures var seen, db := history[i], history[|history| - 1];
            Exec(history, DoCancel(i, j, k, r, user)) == Committed(db, CancelOf(history, i, j, k, r, user))
            && CancelOf(history, i, j, k, r, user) ==
               if r !in seen.registrations then Err(RegistrationNotFound)
               else if seen.registrations[r].userId != user then Err(Forbidden)
               else if seen.registrations[r].status != Pending && seen.registrations[r].status != Approved
               then Err(Conflict)
               else if db.registrations[r].status != seen.registrations[r].status then Err(Conflict)
               else if db.registrations[r].status == Pending then Ok(Released(db, r, Cancelled, ByUser))
               else Ok(Withdrawn(db, r, UnusedTicket(history[k], r)))
  {
    if r in history[i].registrations {
      SeenAndNow(history, i, j, r);
      var prepared := PrepareCancel(history[i], history[j], history[k], r, user);
      if prepared.Ok? && GuardPasses(history[|history| - 1], prepared.value) {
        CancelPasses(history, i, j, k, r, user, prepared.value);
      }
    }
  }

  ghost function ApproveOf(history: seq<Db>, i: nat, j: nat, r: Id, actor: Actor, t: Id, code: string)
    : Result<Db, Error>
    requires i <= j < |history|
  {
    ApplyPrepared(history[|history| - 1], PrepareApprove(history[i], history[j], r, actor, t, code))
  }

  lemma ApprovePasses(history: seq<Db>, i: nat, j: nat, r: Id, actor: Actor, t: Id, code: string,
                      input: TransitionInput)
    requires Run(history) && i <= j < |history| && r in history[i].registrations
    requires PrepareApprove(history[i], history[j], r, actor, t, code) == Ok(input)
    requires GuardPasses(history[|history| - 1], input)
    ensures var db := history[|history| - 1];
            && SlotOf(db, r, Pending)
            && TransitionTx(db, input) ==
               if TicketInUse(db, t, code) then Err(DuplicateKey)
               else Ok(ApprovedState(db, r, input.log.operator, t, code))
  {
    var db := history[|history| - 1];
    RunIsSound(history);
    ApproveFits(history, i, j, r, actor, t, code, input);
    ApproveCommits(db, input);
  }

  /** Approve. */
  lemma ApproveAnswer(history: seq<Db>, i: nat, j: nat, r: Id, actor: Actor, t: Id, code: string)
    requires Run(history) && i <= j < |history|
    ensures r in history[i].registrations ==>
              r in history[|history| - 1].registrations
              && SlotOf(history[|history| - 1], r, history[|history| - 1].registrations[r].status)
    ensures var seen, db := history[i], history[|history| - 1];
            Exec(history, DoApprove(i, j, r, actor, t, code))
              == Committed(db, ApproveOf(history, i, j, r, actor, t, code))
            && ApproveOf(history, i, j, r, actor, t, code) ==
               if r !in seen.registrations then Err(RegistrationNotFound)
               else
                 var organizer := db.activities[db.registrations[r].activityId].organizer;
                 if actor.id != organizer && !actor.isAdmin then Err(Forbidden)
                 else if seen.registrations[r].status != Pending then Err(Conflict)
                 else if db.registrations[r].status != Pending then Err(Conflict)
                 else if TicketInUse(db, t, code) then Err(Storage(DuplicateKey))
                 else Ok(ApprovedState(db, r, if actor.id == organizer then ByOrganizer else ByAdmin, t, code))
  {
    if r in history[i].registrations {
      SeenAndNow(history, i, j, r);
      var prepared := PrepareApprove(history[i], history[j], r, actor, t, code);
      if prepared.Ok? && GuardPasses(history[|history| - 1], prepared.value) {
        ApprovePasses(history, i, j, r, actor, t, code, prepared.value);
      }
    }
  }

  ghost function RejectOf(history: seq<Db>, i: nat, j: nat, r: Id, actor: Actor, reason: string): Result<Db, Error>
    requires i <= j < |history|
  {
    ApplyPrepared(history[|history| - 1], PrepareReject(history[i], history[j], r, actor, reason))
  }

  lemma ReleasePasses(history: seq<Db>, i: nat, j: nat, r: Id, to: RegistrationStatus, operator: Operator)
    requires Run(history) && i <= j < |history| && (to == Rejected || to == Expired)
    requires r in history[i].registrations && history[i].registrations[r].status == Pending
    requires r in history[|history| - 1].registrations && history[|history| - 1].registrations[r].status == Pending
    ensures SlotOf(history[|history| - 1], r, Pending)
    ensures TransitionTx(history[|history| - 1], ReleasePending(r, history[i].registrations[r], to, operator))
            == Ok(Released(history[|history| - 1], r, to, operator))
  {
    SeenAndNow(history, i, j, r);
    RunIsSound(history);
    ReleaseFits(history, i, j, r, to, operator);
    ReleaseCommits(history[|history| - 1], ReleasePending(r, history[i].registrations[r], to, operator));
  }

  /** Reject, for a reason already trimmed. */
  lemma RejectAnswer(history: seq<Db>, i: nat, j: nat, r: Id, actor: Actor, reason: string)
    requires Run(history) && i <= j < |history|
    ensures r in history[i].registrations ==>
              r in history[|history| - 1].registrations
              && SlotOf(history[|history| - 1], r, history[|history| - 1].registrations[r].status)
    ensures var seen, db := history[i], history[|history| - 1];
            Exec(history, DoReject(i, j, r, actor, reason)) == Committed(db, RejectOf(history, i, j, r, actor, reason))
            && RejectOf(history, i, j, r, actor, reason) ==
               if |reason| == 0 || |reason| > 255 then Err(Invalid)
               else if r !in seen.registrations then Err(RegistrationNotFound)
               else
                 var organizer := db.activities[db.registrations[r].activityId].organizer;
                 if actor.id != organizer && !actor.isAdmin then Err(Forbidden)
                 else if seen.registrations[r].status != Pending then Err(Conflict)
                 else if db.registrations[r].status != Pending then Err(Conflict)
                 else Ok(Released(db, r, Rejected, if actor.id == organizer then ByOrganizer else ByAdmin))
  {
    if r in history[i].registrations {
      SeenAndNow(history, i, j, r);
      if history[i].registrations[r].status == Pending && history[|history| - 1].registrations[r].status == Pending {
        ReleasePasses(history, i, j, r, Rejected, ReviewOperator(
          history[j].activities[history[i].registrations[r].activityId], actor));
      }
    }
  }

  ghost function ExpireOf(history: seq<Db>, i: nat, j: nat, r: Id, now: Time): Result<Db, Error>
    requires i <= j < |history|
  {
    ApplyPrepared(history[|history| - 1], PrepareExpire(history[i], history[j], r, now))
  }

  /** A pending registration is due from its creation plus 48 hours on, or from the start of the activity. */
  lemma DueWhen(history: seq<Db>, i: nat, j: nat, r: Id, now: Time)
    requires Run(history) && i <= j < |history| && r in history[i].registrations
    requires r in history[|history| - 1].registrations
    requires history[|history| - 1].registrations[r].activityId in history[|history| - 1].activities
    ensures var seen, row := history[i].registrations[r], history[|history| - 1].registrations[r];
            var form := history[|history| - 1].activities[row.activityId].form;
            PrepareExpire(history[i], history[j], r, now) ==
            if seen.status != Pending || (now < row.createdAt + 172_800_000 && now < form.start)
            then Err(RegistrationNotFound) else Ok(ReleasePending(r, seen, Expired, BySystem))
  {
    SeenAndNow(history, i, j, r);
    RowsKeepTheirOwners(history, i);
    RunIsSound(history);
    assert RegistrationAt(history[i].activities, history[i].registrations, r);
  }

  /** The approval timeout of one registration. */
  lemma ExpireAnswer(history: seq<Db>, i: nat, j: nat, r: Id, now: Time)
    requires Run(history) && i <= j < |history|
    ensures r in history[i].registrations ==>
              r in history[|history| - 1].registrations
              && SlotOf(history[|history| - 1], r, history[|history| - 1].registrations[r].status)
    ensures var seen, db := history[i], history[|history| - 1];
            Exec(history, DoExpire(i, j, r, now)) == Committed(db, ExpireOf(history, i, j, r, now))
            && ExpireOf(history, i, j, r, now) ==
               if r !in seen.registrations || seen.registrations[r].status != Pending then Err(RegistrationNotFound)
               else
                 var row, form := db.registrations[r], db.activities[db.registrations[r].activityId].form;
                 if now < row.createdAt + 172_800_000 && now < form.start then Err(RegistrationNotFound)
                 else if row.status != Pending then Err(Conflict)
                 else Ok(Released(db, r, Expired, BySystem))
  {
    if r in history[i].registrations {
      SeenAndNow(history, i, j, r);
      DueWhen(history, i, j, r, now);
      if history[i].registrations[r].status == Pending && history[|history| - 1].registrations[r].status == Pending {
        ReleasePasses(history, i, j, r, Expired, BySystem);
      }
    }
  }
}
