/** Every state of every run satisfies the invariant, and every state evolves into every later one. */
module Reachable {
  import opened Wrappers
  import opened Model
  import opened Transactions
  import opened Services
  import opened Protocol
  import opened Invariants
  import opened Transitions
  import opened ActivityChanges
  import opened Redemption
  import opened StaleReads

  /** The induction hypothesis: all states so far are good, and each evolves into the later ones. */
  ghost predicate Sound(history: seq<Db>) {
    && (forall i | 0 <= i < |history| :: Good(history[i]))
    && (forall i, j | 0 <= i <= j < |history| :: Evolves(history[i], history[j]))
  }

  lemma RegisterStep(history: seq<Db>, i: nat, j: nat, q: RegisterRequest, next: Db)
    requires Sound(history) && i <= j < |history|
    requires Register(history[i], history[j], history[|history| - 1], q) == Ok(next)
    ensures Good(next) && Evolves(history[|history| - 1], next)
  {
    var db := history[|history| - 1];
    var input := PrepareRegister(history[i], history[j], q).value;
    assert Evolves(history[i], db);
    RegisterStale(history[i], history[j], db, q, input);
    RegisterKeepsSlots(db, input, next);
    RegisterKeepsTickets(db, input, next);
    RegisterKeepsHistory(db, input, next);
    RegisterEvolves(db, input, next);
  }

  /** `input` is what the action prepared. */
  ghost predicate Prepared(history: seq<Db>, action: Action, input: TransitionInput) {
    |history| > 0 && MovesRegistration(action) && Readable(|history|, action) && InputOf(history, action) == Ok(input)
  }

  lemma CancelFits(history: seq<Db>, i: nat, j: nat, k: nat, r: Id, user: Id, input: TransitionInput)
    requires Sound(history) && i <= j <= k < |history|
    requires PrepareCancel(history[i], history[j], history[k], r, user) == Ok(input)
    requires GuardPasses(history[|history| - 1], input)
    ensures CancelReady(history[|history| - 1], input) || ReleaseReady(history[|history| - 1], input)
  {
    var db := history[|history| - 1];
    assert Evolves(history[i], history[k]) && Evolves(history[k], db) && Evolves(history[i], db)
        && Evolves(history[j], db);
    CancelStale(history[i], history[j], history[k], db, r, user, input);
  }

  lemma ApproveFits(history: seq<Db>, i: nat, j: nat, r: Id, actor: Actor, t: Id, code: string, input: TransitionInput)
    requires Sound(history) && i <= j < |history|
    requires PrepareApprove(history[i], history[j], r, actor, t, code) == Ok(input)
    requires GuardPasses(history[|history| - 1], input)
    ensures ApproveReady(history[|history| - 1], input)
  {
    var db := history[|history| - 1];
    assert Evolves(history[i], history[j]) && Evolves(history[j], db) && Evolves(history[i], db);
    ApproveStale(history[i], history[j], db, r, actor, t, code, input);
  }

  /** Reject and expire. */
  lemma ReleaseFits(history: seq<Db>, i: nat, j: nat, r: Id, to: RegistrationStatus, operator: Operator)
    requires Sound(history) && i <= j < |history| && (to == Rejected || to == Expired)
    requires r in history[i].registrations && history[i].registrations[r].status == Pending
    requires history[i].registrations[r].activityId in history[j].activities
    requires GuardPasses(history[|history| - 1], ReleasePending(r, history[i].registrations[r], to, operator))
    ensures ReleaseReady(history[|history| - 1], ReleasePending(r, history[i].registrations[r], to, operator))
  {
    assert Evolves(history[i], history[|history| - 1]) && Evolves(history[j], history[|history| - 1]);
    ReleaseStale(history[i], history[j], history[|history| - 1], r, to, operator);
  }

  /** Whenever a prepared transition's guard passes, its input fits the state it commits against. */
  lemma PreparedFits(history: seq<Db>, action: Action, input: TransitionInput)
    requires Sound(history) && Prepared(history, action, input)
    requires GuardPasses(history[|history| - 1], input)
    ensures Fits(history[|history| - 1], input)
  {
    match action
    case DoCancel(i, j, k, r, user) => CancelFits(history, i, j, k, r, user, input);
    case DoApprove(i, j, r, actor, t, code) => ApproveFits(history, i, j, r, actor, t, code, input);
    case DoReject(i, j, r, _, _) => ReleaseFits(history, i, j, r, Rejected, input.log.operator);
    case DoExpire(i, j, r, _) => ReleaseFits(history, i, j, r, Expired, input.log.operator);
  }

  /** A step that moves a registration commits what its action prepared. */
  lemma MoveCommits(history: seq<Db>, action: Action, next: Db)
    requires MovesRegistration(action) && Step(history, action, next) && next != history[|history| - 1]
    ensures InputOf(history, action).Ok? && Prepared(history, action, InputOf(history, action).value)
    ensures TransitionTx(history[|history| - 1], InputOf(history, action).value) == Ok(next)
  {
  }

  /** Cancel, approve, reject and expire, when they commit. */
  lemma TransitionStep(history: seq<Db>, action: Action, next: Db)
    requires Sound(history) && MovesRegistration(action) && Step(history, action, next)
        && next != history[|history| - 1]
    ensures Good(next) && Evolves(history[|history| - 1], next)
  {
    MoveCommits(history, action, next);
    var input := InputOf(history, action).value;
    PreparedFits(history, action, input);
    TransitionKeeps(history[|history| - 1], input, next);
  }

  lemma UpdateStep(history: seq<Db>, i: nat, id: Id, user: Id, form: Form, next: Db)
    requires Sound(history) && i < |history|
    requires UpdateActivity(history[i], history[|history| - 1], id, user, form) == Ok(next)
    ensures Good(next) && Evolves(history[|history| - 1], next)
  {
    var db := history[|history| - 1];
    var input := PrepareUpdate(history[i], id, user, form).value;
    assert Evolves(history[i], db);
    UpdateStale(history[i], db, id, user, form, input);
    UpdateKeeps(db, input, next);
  }

  lemma ActivityStep(history: seq<Db>, i: nat, id: Id, to: ActivityStatus, operator: Operator, now: Time, next: Db)
    requires Sound(history) && i < |history|
    requires id in history[i].activities && AllowedActivityChange(history[i].activities[id].status, to)
    requires ApplyActivityTransition(history[|history| - 1],
                                     PrepareActivityTransition(id, history[i].activities[id], to, operator, now))
       == Ok(next)
    ensures Good(next) && Evolves(history[|history| - 1], next)
  {
    var db := history[|history| - 1];
    assert Evolves(history[i], db);
    TransitionStale(history[i], db, id, to, operator, now);
    ActivityTransitionKeeps(db, PrepareActivityTransition(id, history[i].activities[id], to, operator, now), next);
  }

  lemma CheckInStep(history: seq<Db>, i: nat, j: nat, k: nat, q: CheckInRequest, next: Db)
    requires Sound(history) && i <= j <= k < |history|
    requires next
             == CheckInService(history[i], history[j], history[k], history[|history| - 1], history[|history| - 1], q).0
    ensures Good(next) && Evolves(history[|history| - 1], next)
  {
    var db := history[|history| - 1];
    assert Evolves(history[j], db);
    var prepared := PrepareCheckIn(history[j], history[k], q);
    if prepared.Ok? && CheckInTx(db, q.checkInId, prepared.value.0, prepared.value.1) == Ok(next) {
      CheckInStale(history[j], history[k], db, q, prepared.value.0, prepared.value.1);
      CheckInKeeps(db, q.checkInId, prepared.value.0, prepared.value.1, next);
    } else {
      assert next == db;
      EvolvesReflexive(db);
    }
  }

  /** A committed submit, cancel or review of an activity. */
  lemma ActivityActionStep(history: seq<Db>, action: Action, next: Db)
    requires Sound(history) && Step(history, action, next) && next != history[|history| - 1]
    requires action.DoSubmitActivity? || action.DoCancelActivity? || action.DoReviewActivity?
    ensures Good(next) && Evolves(history[|history| - 1], next)
  {
    match action
    case DoSubmitActivity(i, id, user, now) => ActivityStep(history, i, id, PendingReview, ByUser, now, next);
    case DoCancelActivity(i, id, user, now) => ActivityStep(history, i, id, ActivityCancelled, ByUser, now, next);
    case DoReviewActivity(i, id, verdict, now) =>
      ActivityStep(history, i, id, VerdictStatus(verdict), ByAdmin, now, next);
  }

  /** One step of the protocol keeps the invariant. */
  lemma StepKeeps(history: seq<Db>, action: Action, next: Db)
    requires Sound(history) && Step(history, action, next)
    ensures Good(next) && Evolves(history[|history| - 1], next)
  {
    var db := history[|history| - 1];
    if next == db {
      EvolvesReflexive(db);
    } else {
      match action
      case DoCreateActivity(id, organizer, form) => CreateKeeps(db, id, organizer, form, next);
      case DoUpdateActivity(i, id, user, form) => UpdateStep(history, i, id, user, form, next);
      case DoSubmitActivity(_, _, _, _) => ActivityActionStep(history, action, next);
      case DoCancelActivity(_, _, _, _) => ActivityActionStep(history, action, next);
      case DoReviewActivity(_, _, _, _) => ActivityActionStep(history, action, next);
      case DoSyncStatuses(i, ids, now) => SyncKeeps(db, SyncCandidates(history[i], ids, now), now);
      case DoRegister(i, j, q) => RegisterStep(history, i, j, q, next);
      case DoCancel(_, _, _, _, _) => TransitionStep(history, action, next);
      case DoApprove(_, _, _, _, _, _) => TransitionStep(history, action, next);
      case DoReject(_, _, _, _, _) => TransitionStep(history, action, next);
      case DoExpire(_, _, _, _) => TransitionStep(history, action, next);
      case DoCheckIn(i, j, k, q) => CheckInStep(history, i, j, k, q, next);
      case DoExpireTicket(i, t, now) =>
        ExpireTicketKeeps(db, t, [TicketEvent(TicketExpiredEvent, t, history[i].tickets[t].activityId)], next);
      case DoFindOrCreateGroup(i, j, k, event) =>
        assert Evolves(history[i], history[k]);
        if history[i].outbox[event].activityId in history[j].activities {
          GroupAlreadyThere(history[i], history[j], history[k], db, event);
        }
        assert false;
    }
  }

  lemma EmptyIsGood()
    ensures Sound([EMPTY_DB])
  {
    EvolvesReflexive(EMPTY_DB);
    assert forall a, s :: Holding(map[], a, s) == {};
  }

  lemma SoundExtends(history: seq<Db>, next: Db)
    requires |history| > 0 && Sound(history) && Good(next) && Evolves(history[|history| - 1], next)
    ensures Sound(history + [next])
  {
    var more := history + [next];
    forall i | 0 <= i < |history| ensures Evolves(history[i], next) {
      EvolvesTransitive(history[i], history[|history| - 1], next);
    }
    EvolvesReflexive(next);
    forall i, j | 0 <= i <= j < |more| ensures Evolves(more[i], more[j]) {
      if j < |history| { assert Evolves(history[i], history[j]); }
    }
  }

  lemma ReachesKeeps(history: seq<Db>, next: Db)
    requires Sound(history) && Reaches(history, next)
    ensures |history| > 0 && Good(next) && Evolves(history[|history| - 1], next)
  {
    var action :| Step(history, action, next);
    StepKeeps(history, action, next);
  }

  lemma {:induction false} SoundUpTo(history: seq<Db>, n: nat)
    requires Run(history) && 0 < n <= |history|
    ensures Sound(history[..n])
  {
    if n == 1 {
      assert history[..1] == [EMPTY_DB];
      EmptyIsGood();
    } else {
      var before, next := history[..n - 1], history[n - 1];
      SoundUpTo(history, n - 1);
      assert Reaches(before, next) by { assert StepAt(history, n - 1); }
      assert Good(next) && Evolves(before[n - 2], next) by { ReachesKeeps(before, next); }
      SoundExtends(before, next);
      assert history[..n] == before + [next];
    }
  }

  /** The main invariant theorem of the registration core. */
  lemma RunIsSound(history: seq<Db>)
    requires Run(history)
    ensures Sound(history)
  {
    SoundUpTo(history, |history|);
    assert history[..|history|] == history;
  }
}
