/** What the registration core promises, read off the invariant for every state of every run. */
module Guarantees {
  import opened Wrappers
  import opened Model
  import opened Transactions
  import opened Services
  import opened Protocol
  import opened Invariants
  import opened Transitions
  import opened StaleReads
  import opened Reachable
  import opened Authority

  lemma StateIsGood(history: seq<Db>, k: nat)
    requires Run(history) && k < |history|
    ensures Good(history[k])
  {
    RunIsSound(history);
  }

  // ----- capacity and counters -----

  /** No interleaving overbooks an activity, and its counters count exactly its registrations. */
  lemma NeverOverbooked(history: seq<Db>, k: nat, a: Id)
    requires Run(history) && k < |history| && a in history[k].activities
    ensures var db := history[k];
            && db.activities[a].approved == |Holding(db.registrations, a, Approved)|
            && db.activities[a].pending == |Holding(db.registrations, a, Pending)|
            && db.activities[a].approved + db.activities[a].pending <= db.activities[a].form.maxParticipants
  {
    StateIsGood(history, k);
    assert CounterOk(history[k].activities, history[k].registrations, a);
  }

  /** The users with a pending or approved registration for activity `a`. */
  ghost function SlotHolders(registrations: map<Id, Registration>, a: Id): set<Id> {
    set r | r in registrations && registrations[r].activityId == a && registrations[r].active :: registrations[r].userId
  }

  /** The ids and the ticket code a registration brings are not in use. */
  ghost predicate FreshFor(db: Db, input: RegisterInput) {
    && input.id !in db.registrations
    && (input.ticket.Some? ==>
          !TicketKeyTaken(db.tickets, input.ticket.value.0, input.ticket.value.1.(registrationId := input.id)))
  }

  /**
   Exactly when a prepared registration, which is of an eligible user inside the registration window,
   commits: the registrations holding a slot at that instant are fewer than the capacity, and the
   user holds none.  Nothing else is read again, in particular
   not the status of the activity.
   */
  lemma RegistrationCommitsIff(history: seq<Db>, i: nat, j: nat, q: RegisterRequest, input: RegisterInput)
    requires Run(history) && i <= j < |history| && PrepareRegister(history[i], history[j], q) == Ok(input)
    requires FreshFor(history[|history| - 1], input)
    ensures q.activityId in history[i].activities
    ensures history[i].activities[q.activityId].status == Published
            || history[i].activities[q.activityId].status == Ongoing
    ensures var db := history[|history| - 1];
            && q.activityId in db.activities && q.eligible
            && db.activities[q.activityId].form.registerStart <= q.now <= db.activities[q.activityId].form.registerEnd
            && (RegisterTx(db, input).Ok? <==>
                  |Holding(db.registrations, q.activityId, Approved)|
                  + |Holding(db.registrations, q.activityId, Pending)|
                    < db.activities[q.activityId].form.maxParticipants
                  && q.userId !in SlotHolders(db.registrations, q.activityId))
  {
    var n := |history| - 1;
    var db := history[n];
    StateIsGood(history, i);
    assert ActivityAt(history[i].activities, q.activityId);
    RowsKeepTheirOwners(history, i);
    NeverOverbooked(history, n, q.activityId);
    assert HasActive(db.registrations, q.activityId, q.userId)
        <==> q.userId in SlotHolders(db.registrations, q.activityId);
  }

  /** A set whose elements have pairwise distinct images has as many images. */
  lemma {:induction false} DistinctImages(rows: set<Id>, registrations: map<Id, Registration>, users: set<Id>)
    requires forall r <- rows :: r in registrations
    requires forall r <- rows, q <- rows :: registrations[r].userId == registrations[q].userId ==> r == q
    requires users == set r | r in rows :: registrations[r].userId
    ensures |users| == |rows|
  {
    if rows == {} {
      assert users == {};
    } else {
      var r :| r in rows;
      var fewer := users - {registrations[r].userId};
      assert fewer == set q | q in rows - {r} :: registrations[q].userId;
      DistinctImages(rows - {r}, registrations, fewer);
      assert registrations[r].userId in users;
    }
  }

  /** The slots taken are taken by that many distinct users: nobody holds two. */
  lemma SlotsAreDistinctUsers(history: seq<Db>, k: nat, a: Id)
    requires Run(history) && k < |history| && a in history[k].activities
    ensures |SlotHolders(history[k].registrations, a)|
            == history[k].activities[a].approved + history[k].activities[a].pending
  {
    StateIsGood(history, k);
    var activities, registrations := history[k].activities, history[k].registrations;
    var approved, pending := Holding(registrations, a, Approved), Holding(registrations, a, Pending);
    NeverOverbooked(history, k, a);
    forall r: Id
      ensures r in approved + pending
              <==> r in registrations && registrations[r].activityId == a && registrations[r].active
    {
      assert RegistrationAt(activities, registrations, r);
    }
    forall r, q | r in approved + pending && q in approved + pending
        && registrations[r].userId == registrations[q].userId
      ensures r == q
    {
      assert SlotUnique(registrations, r, q);
    }
    DistinctImages(approved + pending, registrations, SlotHolders(registrations, a));
    assert approved * pending == {};
  }

  /** What a stale read prepared still fits whenever the guard of its transaction passes. */
  lemma StaleInputFits(history: seq<Db>, action: Action, input: TransitionInput)
    requires Run(history) && Prepared(history, action, input)
    requires GuardPasses(history[|history| - 1], input)
    ensures Good(history[|history| - 1]) && Fits(history[|history| - 1], input)
  {
    RunIsSound(history);
    PreparedFits(history, action, input);
  }

  /** GREATEST(..., 0) never takes effect: no committing transition drives a counter below zero. */
  lemma ClampNeverBites(history: seq<Db>, action: Action, input: TransitionInput)
    requires Run(history) && Prepared(history, action, input)
    requires TransitionTx(history[|history| - 1], input).Ok?
    ensures var db := history[|history| - 1];
            && input.activityId in db.activities
            && db.activities[input.activityId].pending + input.pendingDelta >= 0
            && db.activities[input.activityId].approved + input.approvedDelta >= 0
  {
    var db := history[|history| - 1];
    StaleInputFits(history, action, input);
    CountedAtLeastOnce(db.activities, db.registrations, input.registrationId);
  }

  // ----- registrations and tickets -----

  /** The tickets of registration `r`. */
  ghost function TicketsFor(tickets: map<Id, Ticket>, r: Id): set<Id> {
    set t | t in tickets && tickets[t].registrationId == r
  }

  lemma TicketsFit(db: Db, r: Id)
    requires Good(db) && r in db.registrations
    ensures TicketsFor(db.tickets, r) != {} ==>
              db.registrations[r].status == Approved || db.registrations[r].status == Cancelled
    ensures |TicketsFor(db.tickets, r)| <= 1
    ensures db.registrations[r].status == Approved ==> |TicketsFor(db.tickets, r)| == 1
  {
    var mine := TicketsFor(db.tickets, r);
    if db.registrations[r].status == Approved {
      assert TicketIfApproved(db.registrations, db.tickets, r);
      var t :| t in db.tickets && db.tickets[t].registrationId == r;
      assert t in mine;
    }
    if mine != {} {
      var t :| t in mine;
      assert TicketAt(db.activities, db.registrations, db.tickets, t);
      forall u: Id ensures u in mine ==> u == t {
        assert TicketUnique(db.tickets, u, t);
      }
      assert mine == {t};
    }
  }

  /** active_flag marks exactly the pending and approved; approved means exactly one ticket, the rest as listed. */
  lemma TicketsMatchStatuses(history: seq<Db>, k: nat, r: Id)
    requires Run(history) && k < |history| && r in history[k].registrations
    ensures var row := history[k].registrations[r];
            var held := |TicketsFor(history[k].tickets, r)|;
            && row.status != Failed
            && (row.active <==> row.status == Pending || row.status == Approved)
            && (row.status == Approved ==> held == 1)
            && (row.status == Cancelled ==> held <= 1)
            && (row.status == Pending || row.status == Rejected || row.status == Expired ==> held == 0)
  {
    StateIsGood(history, k);
    assert RegistrationAt(history[k].activities, history[k].registrations, r);
    TicketsFit(history[k], r);
  }

  /** The id and the code of the ticket a transition issues are not in use. */
  ghost predicate FreshTicket(tickets: map<Id, Ticket>, input: TransitionInput) {
    input.ticket.Some? ==>
      input.ticket.value.0 !in tickets && forall t <- tickets :: tickets[t].code != input.ticket.value.1.code
  }

  /** A registration that is not approved yet has no ticket, so a fresh one can be inserted. */
  lemma PassingGuardCommits(db: Db, input: TransitionInput)
    requires TicketsGood(db) && Fits(db, input) && GuardPasses(db, input) && FreshTicket(db.tickets, input)
    ensures TransitionTx(db, input).Ok?
  {
    if input.ticket.Some? {
      forall t | t in db.tickets ensures db.tickets[t].registrationId != input.registrationId {
        assert TicketAt(db.activities, db.registrations, db.tickets, t);
      }
    }
  }

  /**
   A prepared cancel, approve, reject or expire commits exactly when the registration still has the
   status that was read; nothing else that happened in between can make it fail.
   */
  lemma TransitionCommitsIff(history: seq<Db>, action: Action, input: TransitionInput)
    requires Run(history) && Prepared(history, action, input) && FreshTicket(history[|history| - 1].tickets, input)
    ensures TransitionTx(history[|history| - 1], input).Ok? <==> GuardPasses(history[|history| - 1], input)
  {
    var db := history[|history| - 1];
    if GuardPasses(db, input) {
      StaleInputFits(history, action, input);
      PassingGuardCommits(db, input);
    }
  }

  /** An unused ticket belongs to an approved registration; a voided one to a cancelled registration. */
  lemma UnusedMeansApproved(history: seq<Db>, k: nat, t: Id)
    requires Run(history) && k < |history| && t in history[k].tickets
    ensures var db := history[k];
            var row := db.tickets[t];
            && row.registrationId in db.registrations
            && db.registrations[row.registrationId].userId == row.userId
            && db.registrations[row.registrationId].activityId == row.activityId
            && (row.status == Unused ==> db.registrations[row.registrationId].status == Approved)
            && (row.status == Voided ==> db.registrations[row.registrationId].status == Cancelled)
  {
    StateIsGood(history, k);
    assert TicketAt(history[k].activities, history[k].registrations, history[k].tickets, t);
  }

  /**
   A check-in that commits redeems a registration that is approved at that instant, whatever its
   reads saw, although it never reads the registration.
   */
  lemma CheckInRedeemsApproved(history: seq<Db>, i: nat, j: nat, k: nat, late: Db, q: CheckInRequest, next: Db)
    requires Run(history) && i <= j <= k < |history|
    requires CheckInService(history[i], history[j], history[k], history[|history| - 1], late, q).0 == next
    requires next != history[|history| - 1]
    ensures var db := history[|history| - 1];
            && q.ticketId in db.tickets && db.tickets[q.ticketId].status == Unused
            && db.tickets[q.ticketId].registrationId in db.registrations
            && db.registrations[db.tickets[q.ticketId].registrationId].status == Approved
            && q.ticketId in next.tickets && next.tickets[q.ticketId].status == Used
            && next.registrations == db.registrations && next.activities == db.activities
  {
    UnusedMeansApproved(history, |history| - 1, q.ticketId);
  }

  /** A ticket is valid from one hour before the start of its activity to the end of it. */
  lemma TicketWindows(history: seq<Db>, k: nat, t: Id)
    requires Run(history) && k < |history| && t in history[k].tickets
    ensures var ticket, activities := history[k].tickets[t], history[k].activities;
            && ticket.activityId in activities
            && ticket.validStart == Some(activities[ticket.activityId].form.start - 3_600_000)
            && ticket.validEnd == Some(activities[ticket.activityId].form.end)
  {
    StateIsGood(history, k);
    assert TicketAt(history[k].activities, history[k].registrations, history[k].tickets, t);
  }

  /** Every check-in happened inside that window. */
  lemma CheckInTimes(history: seq<Db>, k: nat, c: Id)
    requires Run(history) && k < |history| && c in history[k].checkIns
    ensures var row, activities := history[k].checkIns[c], history[k].activities;
            && row.activityId in activities
            && activities[row.activityId].form.start - 3_600_000 <= row.checkedInAt
            && row.checkedInAt <= activities[row.activityId].form.end
  {
    StateIsGood(history, k);
    assert CheckInAt(history[k].tickets, history[k].checkIns, c);
    TicketWindows(history, k, history[k].checkIns[c].ticketId);
  }

  /**
   Every registration was made inside the registration window.  It has a deadline iff approval is
   required: 48 hours, or the start of the activity if sooner.
   */
  lemma ApprovalDeadlines(history: seq<Db>, k: nat, r: Id)
    requires Run(history) && k < |history| && r in history[k].registrations
    ensures var row, activities := history[k].registrations[r], history[k].activities;
            && row.activityId in activities
            && var form := activities[row.activityId].form;
            && form.registerStart <= row.createdAt <= form.registerEnd
            && (row.expiresAt.Some? <==> form.requireApproval)
            && (row.expiresAt.Some? ==>
                  && row.createdAt <= row.expiresAt.value
                  && row.expiresAt.value <= row.createdAt + 172_800_000 && row.expiresAt.value <= form.start
                  && (row.expiresAt.value == row.createdAt + 172_800_000 || row.expiresAt.value == form.start))
  {
    StateIsGood(history, k);
    assert RegistrationAt(history[k].activities, history[k].registrations, r);
  }

  /** Once anybody registered, the capacity, the windows and the approval mode of the activity never move again. */
  lemma RegisteredFormIsFinal(history: seq<Db>, i: nat, j: nat, r: Id)
    requires Run(history) && i <= j < |history| && r in history[i].registrations
    ensures r in history[j].registrations
    ensures var a := history[i].registrations[r].activityId;
            && history[j].registrations[r].activityId == a
            && a in history[i].activities && a in history[j].activities
            && history[i].activities[a].form == history[j].activities[a].form
  {
    RunIsSound(history);
    assert Good(history[i]) && Evolves(history[i], history[j]);
    assert RegistrationAt(history[i].activities, history[i].registrations, r);
    assert RegistrationLater(history[i].registrations, history[j].registrations, r);
    assert ActivityLater(history[i].activities, history[j].activities, history[i].registrations[r].activityId);
  }

  // ----- outbox and logs -----

  /**
   Folding a registration's outbox events in id order gives its current status, every from_status
   being the previous to_status; the status log records the same changes.
   */
  lemma OutboxReplaysRegistrations(history: seq<Db>, k: nat, r: Id)
    requires Run(history) && k < |history|
    ensures var db := history[k];
            && ReplayRegistration(db.outbox, r)
               == (if r in db.registrations then At(db.registrations[r].status) else NotCreated)
            && AnnouncedChanges(db.outbox, r) == LoggedChanges(db.registrationLog, r)
  {
    StateIsGood(history, k);
    assert RegistrationAccounted(history[k].registrations, history[k].registrationLog, history[k].outbox, r);
  }

  /** Tickets issued, used and expired correspond one to one to their events; a void is announced exactly once. */
  lemma TicketEventsMatchTickets(history: seq<Db>, k: nat, t: Id)
    requires Run(history) && k < |history|
    ensures var db := history[k];
            && TicketEvents(db.outbox, TicketCreated, t) == (if t in db.tickets then 1 else 0)
            && TicketEvents(db.outbox, TicketUsed, t)
               == (if t in db.tickets && db.tickets[t].status == Used then 1 else 0)
            && TicketEvents(db.outbox, TicketExpiredEvent, t)
               == (if t in db.tickets && db.tickets[t].status == TicketExpired then 1 else 0)
            && TicketEvents(db.outbox, TicketVoided, t) <= 1
            && (t in db.tickets && db.tickets[t].status == Voided ==> TicketEvents(db.outbox, TicketVoided, t) == 1)
  {
    StateIsGood(history, k);
    assert TicketAccounted(history[k].registrations, history[k].tickets, history[k].outbox, t);
  }

  // ----- check-in -----

  /** Used tickets and check-in rows are in one-to-one correspondence. */
  lemma UsedTicketsAreCheckIns(history: seq<Db>, k: nat)
    requires Run(history) && k < |history|
    ensures var db := history[k];
            && (forall c <- db.checkIns ::
                  db.checkIns[c].ticketId in db.tickets && db.tickets[db.checkIns[c].ticketId].status == Used
                  && db.checkIns[c].registrationId == db.tickets[db.checkIns[c].ticketId].registrationId)
            && (forall t <- db.tickets :: db.tickets[t].status == Used ==>
                  exists c :: c in db.checkIns && db.checkIns[c].ticketId == t
                              && forall d <- db.checkIns :: db.checkIns[d].ticketId == t ==> d == c)
  {
    StateIsGood(history, k);
    var db := history[k];
    forall c | c in db.checkIns
      ensures db.checkIns[c].ticketId in db.tickets && db.tickets[db.checkIns[c].ticketId].status == Used
      ensures db.checkIns[c].registrationId == db.tickets[db.checkIns[c].ticketId].registrationId
    {
      assert CheckInAt(db.tickets, db.checkIns, c);
    }
    forall t | t in db.tickets && db.tickets[t].status == Used
      ensures exists c :: c in db.checkIns && db.checkIns[c].ticketId == t
                          && forall d <- db.checkIns :: db.checkIns[d].ticketId == t ==> d == c
    {
      assert UsedIsRedeemed(db.tickets, db.checkIns, t);
      var c :| c in db.checkIns && db.checkIns[c].ticketId == t;
      forall d | d in db.checkIns && db.checkIns[d].ticketId == t ensures d == c {
        assert CheckInUnique(db.checkIns, c, d);
      }
    }
  }

  /** Over the whole run a request id names at most one check-in, and the record never changes. */
  lemma OneRecordPerRequest(history: seq<Db>, i: nat, j: nat, c: Id, d: Id)
    requires Run(history) && i < |history| && j < |history|
    requires c in history[i].checkIns && d in history[j].checkIns
    requires history[i].checkIns[c].requestId == history[j].checkIns[d].requestId
    ensures c == d && history[i].checkIns[c] == history[j].checkIns[d]
  {
    RunIsSound(history);
    var k := if i <= j then j else i;
    assert Evolves(history[i], history[k]) && Evolves(history[j], history[k]) && Good(history[k]);
    assert CheckInLater(history[i].checkIns, history[k].checkIns, c);
    assert CheckInLater(history[j].checkIns, history[k].checkIns, d);
    assert CheckInUnique(history[k].checkIns, c, d);
  }

  /**
   A check-in request served in a run: its first lookup, ticket and activity were read at states
   `first`, `ticket` and `activity`, its transaction ran against state `at`, and a lookup after a
   failed transaction was answered at `late`.
   */
  datatype Served = Served(first: nat, ticket: nat, activity: nat, at: nat, late: nat, request: CheckInRequest,
                           answer: (Id, CheckIn))

  /** The request was served successfully with that answer. */
  ghost predicate ServedIn(history: seq<Db>, v: Served) {
    && v.first <= v.ticket <= v.activity <= v.at <= v.late < |history| && v.at + 1 < |history|
    && CheckInService(history[v.first], history[v.ticket], history[v.activity], history[v.at], history[v.late],
                      v.request)
       == (history[v.at + 1], Ok(v.answer))
  }

  /** The answer is the record some state holds under that id. */
  lemma AnswerIsRecorded(history: seq<Db>, v: Served) returns (m: nat)
    requires ServedIn(history, v)
    ensures m < |history| && v.answer.0 in history[m].checkIns && history[m].checkIns[v.answer.0] == v.answer.1
    ensures v.answer.1.requestId == v.request.requestId
  {
    if FindByRequestId(history[v.first].checkIns, v.request.requestId).Some? {
      m := v.first;
    } else {
      var prepared := PrepareCheckIn(history[v.ticket], history[v.activity], v.request).value;
      m := if CheckInTx(history[v.at], v.request.checkInId, prepared.0, prepared.1).Ok? then v.at + 1 else v.late;
    }
  }

  /** All successful answers to one client_request_id are the same record, under any interleaving. */
  lemma CheckInIsIdempotent(history: seq<Db>, v: Served, w: Served)
    requires Run(history) && ServedIn(history, v) && ServedIn(history, w)
    requires v.request.requestId == w.request.requestId
    ensures v.answer == w.answer
  {
    var m := AnswerIsRecorded(history, v);
    var n := AnswerIsRecorded(history, w);
    OneRecordPerRequest(history, m, n, v.answer.0, w.answer.0);
  }

  // ----- activities -----

  /**
   The status log of an activity is a path of the life cycle from Draft to its status; its version
   counts the committed changes; it is published at most once, and exactly the published have a chat
   group, dissolved iff the activity is cancelled.  Its windows are non-empty and in order.
   */
  lemma ActivityLifeCycle(history: seq<Db>, k: nat, a: Id)
    requires Run(history) && k < |history| && a in history[k].activities
    ensures var db := history[k];
            var row := db.activities[a];
            && ActivityPath(db.activityLog, a) == Some(row.status)
            && ActivityEvents(db.outbox, a) == row.version + 1
            && TimesPublished(db.activityLog, a) == (if row.publishedAt.Some? then 1 else 0)
            && (a in db.groups <==> TimesPublished(db.activityLog, a) == 1)
            && (a in db.groups ==> db.groups[a].ownerId == row.organizer
                                   && (db.groups[a].status == GroupDissolved <==> row.status == ActivityCancelled))
            && (row.status == Published || row.status == Ongoing || row.status == Finished ==>
                  row.publishedAt.Some? && row.version >= 2)
            && row.form.registerStart < row.form.registerEnd <= row.form.start < row.form.end
            && row.form.maxParticipants >= 1
  {
    StateIsGood(history, k);
    var db := history[k];
    assert ActivityAt(db.activities, a) && GroupAt(db.activities, db.groups, a);
    assert ActivityAccounted(db.activities, db.activityLog, db.outbox, a);
  }

  /** A finished or cancelled activity stays exactly as it is; a published form is final. */
  lemma ActivityEndsAreFinal(history: seq<Db>, i: nat, j: nat, a: Id)
    requires Run(history) && i <= j < |history| && a in history[i].activities
    ensures a in history[j].activities
    ensures history[i].activities[a].version <= history[j].activities[a].version
    ensures history[i].activities[a].publishedAt.Some?
        ==> history[j].activities[a].form == history[i].activities[a].form
    ensures history[i].activities[a].status == Finished || history[i].activities[a].status == ActivityCancelled ==>
              history[j].activities[a].status == history[i].activities[a].status
  {
    RunIsSound(history);
    assert Evolves(history[i], history[j]);
    assert ActivityLater(history[i].activities, history[j].activities, a);
  }

  /**
   An approval publishes the form that was reviewed whenever at most two changes were committed since
   it was read: the shortest way to another form is to be sent back, edited and submitted again.
   */
  lemma ReviewedFormIsPublished(history: seq<Db>, i: nat, id: Id, now: Time, next: Db)
    requires Run(history) && Step(history, DoReviewActivity(i, id, Publish, now), next)
        && next != history[|history| - 1]
    ensures id in history[i].activities && id in history[|history| - 1].activities && id in next.activities
    ensures history[|history| - 1].activities[id].version <= history[i].activities[id].version + 2 ==>
              next.activities[id].form == history[i].activities[id].form
  {
    RowsKeepTheirOwners(history, i);
  }

  /** The membership consumer never has to create a group for an approved registration. */
  lemma GroupFallbackNeverFires(history: seq<Db>, i: nat, j: nat, k: nat, event: nat, next: Db)
    requires Run(history) && Step(history, DoFindOrCreateGroup(i, j, k, event), next)
    ensures next == history[|history| - 1]
  {
    RunIsSound(history);
    if Approval(history[i], event) && history[i].outbox[event].activityId in history[j].activities {
      assert Evolves(history[i], history[k]);
      GroupAlreadyThere(history[i], history[j], history[k], history[|history| - 1], event);
    }
  }

  // ----- why the order of reads matters -----

  /**
   Were the ticket read before the registration, a cancellation racing with an approval would leave
   an unused ticket on a cancelled registration: the order in Cancel is what excludes it.
   */
  lemma TicketMustBeReadAfterRegistration(db: Db, r: Id, actor: Actor, t: Id, code: string, approved: Db)
    requires r in db.registrations && TicketOf(db.tickets, r) == None
    requires ApplyPrepared(db, PrepareApprove(db, db, r, actor, t, code)) == Ok(approved)
    ensures var outcome := ApplyPrepared(approved,
                                         PrepareCancel(approved, approved, db, r, db.registrations[r].userId));
            && outcome.Ok?
            && outcome.value.registrations[r].status == Cancelled
            && t in outcome.value.tickets && outcome.value.tickets[t].status == Unused
            && outcome.value.tickets[t].registrationId == r
  {
    var input := PrepareCancel(approved, approved, db, r, db.registrations[r].userId).value;
    assert input.voidTicket == None;
  }
}
