/**
 What the registration core's outbox tells the consumers.  The members of an activity that requires
 approval, as the consumer works them out from the events, are the users with an approved registration.
 */
module Announcements {
  import opened Wrappers
  import opened Model
  import opened Transactions
  import opened Services
  import opened Protocol
  import opened Invariants
  import opened Transitions
  import opened StaleReads
  import opened Reachable

  import Events
  import Chat = ChatMembership
  import Partitions

  // ----- the events as their consumers read them -----

  function EventTypeOf(e: Event): Events.EventType {
    match e
    case RegistrationEvent(_, _, _, None, _) => Events.RegistrationCreated
    case RegistrationEvent(_, _, _, Some(_), Approved) => Events.RegistrationApproved
    case RegistrationEvent(_, _, _, Some(_), Rejected) => Events.RegistrationRejected
    case RegistrationEvent(_, _, _, Some(_), Expired) => Events.RegistrationExpired
    case RegistrationEvent(_, _, _, Some(_), Cancelled) => Events.RegistrationCancelled
    case _ => Events.OtherType
  }

  /** The registration topic: the registration events in order, keyed by their registration. */
  function Topic(outbox: seq<Event>): seq<Partitions.Keyed> {
    if outbox == [] then []
    else
      var rest, e := Topic(outbox[..|outbox| - 1]), outbox[|outbox| - 1];
      if e.RegistrationEvent?
      then rest + [Partitions.Keyed(e.registrationId, Chat.Record(EventTypeOf(e), e.activityId, e.userId))] else rest
  }

  /** What the last join or leave of a place in one partition of the topic says. */
  function WordIn(directory: Events.Directory, outbox: seq<Event>, layout: nat -> nat, p: nat, place: Chat.Place)
    : Option<bool>
  {
    Partitions.Word(directory, Partitions.Part(Topic(outbox), layout, p, true), place)
  }

  predicate KnownPlace(directory: Events.Directory, place: Chat.Place) {
    place.user in directory.users && place.activity in directory.organizers
  }

  /** The event is about a registration of the place, and goes to partition `p`. */
  predicate IsAbout(e: Event, layout: nat -> nat, p: nat, place: Chat.Place) {
    e.RegistrationEvent? && layout(e.registrationId) == p && Chat.Place(e.activityId, e.userId) == place
  }

  lemma WordAppended(directory: Events.Directory, outbox: seq<Event>, e: Event, layout: nat -> nat, p: nat,
                     place: Chat.Place)
    requires KnownPlace(directory, place)
    ensures WordIn(directory, outbox + [e], layout, p, place)
            == if IsAbout(e, layout, p, place) && Chat.ActionFor(EventTypeOf(e)) != Chat.Ignore
               then Some(Chat.ActionFor(EventTypeOf(e)) == Chat.Join) else WordIn(directory, outbox, layout, p, place)
  {
    assert (outbox + [e])[..|outbox|] == outbox;
    if e.RegistrationEvent? {
      var more := Topic(outbox + [e]);
      assert more[..|more| - 1] == Topic(outbox);
      if layout(e.registrationId) == p {
        var part := Partitions.Part(more, layout, p, true);
        assert part[..|part| - 1] == Partitions.Part(Topic(outbox), layout, p, true);
        Partitions.WordOfLast(directory, part, place);
      }
    }
  }

  // ----- which events a step announces -----

  /** A registration is created pending or approved as its activity wants it; then it is decided, or cancelled. */
  ghost predicate EdgeOk(db: Db, e: Event)
    requires e.RegistrationEvent?
  {
    match e.from
    case None =>
      && e.activityId in db.activities && db.activities[e.activityId].publishedAt.Some?
      && e.to == (if db.activities[e.activityId].form.requireApproval then Pending else Approved)
    case Some(Pending) => e.to == Approved || e.to == Rejected || e.to == Expired || e.to == Cancelled
    case Some(Approved) => e.to == Cancelled
    case Some(_) => false
  }

  /** At most the first of the events is about a registration. */
  ghost predicate Announced(db: Db, events: seq<Event>) {
    && (forall k | 0 < k < |events| :: !events[k].RegistrationEvent?)
    && (events != [] && events[0].RegistrationEvent? ==> EdgeOk(db, events[0]))
  }

  lemma {:induction false} SyncAnnounces(db: Db, candidates: seq<(Id, Activity)>, now: Time)
    returns (events: seq<Event>)
    ensures SyncTx(db, candidates, now).outbox == db.outbox + events
    ensures forall k | 0 <= k < |events| :: !events[k].RegistrationEvent?
  {
    events := [];
    if candidates != [] {
      var last := candidates[|candidates| - 1];
      events := SyncAnnounces(db, candidates[..|candidates| - 1], now);
      var before, after := SyncTx(db, candidates[..|candidates| - 1], now), SyncTx(db, candidates, now);
      assert after == SyncOne(before, last.0, last.1, now);
      if after != before {
        var e := after.outbox[|after.outbox| - 1];
        assert after.outbox == before.outbox + [e] && e.ActivityEvent?;
        events := events + [e];
      }
    }
  }

  lemma RegisterAnnounces(history: seq<Db>, i: nat, j: nat, q: RegisterRequest, next: Db) returns (events: seq<Event>)
    requires Sound(history) && i <= j < |history|
    requires Register(history[i], history[j], history[|history| - 1], q) == Ok(next)
    ensures next.outbox == history[|history| - 1].outbox + events && Announced(history[|history| - 1], events)
  {
    var db := history[|history| - 1];
    var input := PrepareRegister(history[i], history[j], q).value;
    assert Evolves(history[i], db);
    RegisterStale(history[i], history[j], db, q, input);
    events := input.events;
  }

  lemma FittingAnnounces(db: Db, input: TransitionInput)
    requires Fits(db, input)
    ensures Announced(db, input.events)
  {
  }

  lemma MoveAnnounces(history: seq<Db>, action: Action, next: Db) returns (events: seq<Event>)
    requires Sound(history) && MovesRegistration(action) && Step(history, action, next)
    requires next != history[|history| - 1]
    ensures next.outbox == history[|history| - 1].outbox + events && Announced(history[|history| - 1], events)
  {
    MoveCommits(history, action, next);
    var input := InputOf(history, action).value;
    assert GuardPasses(history[|history| - 1], input);
    PreparedFits(history, action, input);
    FittingAnnounces(history[|history| - 1], input);
    events := input.events;
    assert next.outbox == history[|history| - 1].outbox + events;
  }

  lemma StepAnnounces(history: seq<Db>, action: Action, next: Db) returns (events: seq<Event>)
    requires Sound(history) && Step(history, action, next)
    ensures next.outbox == history[|history| - 1].outbox + events && Announced(history[|history| - 1], events)
  {
    var db := history[|history| - 1];
    if next == db {
      events := [];
    } else if action.DoRegister? {
      events := RegisterAnnounces(history, action.read, action.read2, action.register, next);
    } else if MovesRegistration(action) {
      events := MoveAnnounces(history, action, next);
    } else if action.DoSyncStatuses? {
      events := SyncAnnounces(db, SyncCandidates(history[action.read], action.ids, action.now), action.now);
    } else {
      events := OtherAnnounces(history, action, next);
    }
  }

  /** Activities, check-ins, tickets and groups announce nothing of registrations. */
  lemma OtherAnnounces(history: seq<Db>, action: Action, next: Db) returns (events: seq<Event>)
    requires Step(history, action, next) && next != history[|history| - 1]
    requires !action.DoRegister? && !MovesRegistration(action) && !action.DoSyncStatuses?
    ensures next.outbox == history[|history| - 1].outbox + events
    ensures forall k | 0 <= k < |events| :: !events[k].RegistrationEvent?
  {
    var db := history[|history| - 1];
    events := next.outbox[|db.outbox|..];
  }

  // ----- what the words say of the registrations -----

  predicate IsHere(registrations: map<Id, Registration>, r: Id, layout: nat -> nat, p: nat, place: Chat.Place) {
    && r in registrations && layout(r) == p
    && registrations[r].activityId == place.activity && registrations[r].userId == place.user
  }

  predicate IsApproved(registrations: map<Id, Registration>, r: Id, layout: nat -> nat, p: nat, place: Chat.Place) {
    IsHere(registrations, r, layout, p, place) && registrations[r].status == Approved
  }

  predicate IsDecided(registrations: map<Id, Registration>, r: Id, layout: nat -> nat, p: nat, place: Chat.Place) {
    IsHere(registrations, r, layout, p, place) && registrations[r].status != Pending
  }

  /** The user holds an approved registration of the activity, whose events go to partition `p`. */
  ghost predicate ApprovedIn(db: Db, layout: nat -> nat, p: nat, place: Chat.Place) {
    exists r :: IsApproved(db.registrations, r, layout, p, place)
  }

  /** The user has or had a registration of the activity there that is no longer pending. */
  ghost predicate DecidedIn(db: Db, layout: nat -> nat, p: nat, place: Chat.Place) {
    exists r :: IsDecided(db.registrations, r, layout, p, place)
  }

  /** The activity is one whose registrations are reviewed. */
  predicate Reviewed(db: Db, a: Id) {
    a in db.activities && db.activities[a].form.requireApproval
  }

  /**
   In each partition the last word on a place is a join iff the user holds an approved registration
   there that was reviewed.  Every word is on a decided registration, and if the activity's are reviewed
   every decided one has a word.
   */
  ghost predicate Agrees(directory: Events.Directory, db: Db, layout: nat -> nat, p: nat, place: Chat.Place) {
    var word := WordIn(directory, db.outbox, layout, p, place);
    && (word == Some(true) <==> ApprovedIn(db, layout, p, place) && Reviewed(db, place.activity))
    && (word.Some? ==> DecidedIn(db, layout, p, place))
    && (DecidedIn(db, layout, p, place) && Reviewed(db, place.activity) ==> word.Some?)
  }

  /** A committed change of tables that were and are good. */
  ghost predicate Changes(db: Db, events: seq<Event>, next: Db) {
    Good(db) && Good(next) && Evolves(db, next) && next.outbox == db.outbox + events && Announced(db, events)
  }

  /** The events after the first tell nothing of registrations. */
  lemma {:induction false} RestIsSilent(directory: Events.Directory, outbox: seq<Event>, events: seq<Event>,
                                        layout: nat -> nat, p: nat, place: Chat.Place)
    requires events != [] && forall k | 0 < k < |events| :: !events[k].RegistrationEvent?
    requires KnownPlace(directory, place)
    ensures WordIn(directory, outbox + events, layout, p, place)
            == WordIn(directory, outbox + [events[0]], layout, p, place)
  {
    var n := |events| - 1;
    if n == 0 {
      assert events == [events[0]];
    } else {
      RestIsSilent(directory, outbox, events[..n], layout, p, place);
      assert outbox + events == outbox + events[..n] + [events[n]];
      WordAppended(directory, outbox + events[..n], events[n], layout, p, place);
    }
  }

  lemma {:induction false} OneReplayStep(outbox: seq<Event>, events: seq<Event>, r: Id)
    requires events != [] && forall k | 0 < k < |events| :: !events[k].RegistrationEvent?
    ensures ReplayRegistration(outbox + events, r) == ReplayStep(ReplayRegistration(outbox, r), events[0], r)
  {
    var n := |events| - 1;
    assert (outbox + events)[..|outbox| + n] == outbox + events[..n];
    if n == 0 {
      assert outbox + events[..n] == outbox;
    } else {
      OneReplayStep(outbox, events[..n], r);
    }
  }

  /** A registration that no event is about keeps its status. */
  lemma StatusKept(db: Db, events: seq<Event>, next: Db, r: Id)
    requires Changes(db, events, next)
    requires events != [] && events[0].RegistrationEvent? ==> events[0].registrationId != r
    ensures r in next.registrations <==> r in db.registrations
    ensures r in db.registrations ==>
              && next.registrations[r].status == db.registrations[r].status
              && next.registrations[r].activityId == db.registrations[r].activityId
              && next.registrations[r].userId == db.registrations[r].userId
  {
    if events == [] {
      assert next.outbox == db.outbox;
    } else {
      OneReplayStep(db.outbox, events, r);
    }
    assert RegistrationAccounted(db.registrations, db.registrationLog, db.outbox, r);
    assert RegistrationAccounted(next.registrations, next.registrationLog, next.outbox, r);
    assert RegistrationLater(db.registrations, next.registrations, r);
  }

  /** The registration that the first event is about moves as the event says. */
  lemma StatusMoved(db: Db, events: seq<Event>, next: Db)
    requires Changes(db, events, next) && events != [] && events[0].RegistrationEvent?
    ensures var e, r := events[0], events[0].registrationId;
            && r in next.registrations && next.registrations[r].status == e.to
            && next.registrations[r].activityId == e.activityId && next.registrations[r].userId == e.userId
            && (if r in db.registrations then
                  && e.from == Some(db.registrations[r].status)
                  && db.registrations[r].activityId == e.activityId && db.registrations[r].userId == e.userId
                else e.from.None?)
  {
    var r := events[0].registrationId;
    OneReplayStep(db.outbox, events, r);
    assert RegistrationAccounted(db.registrations, db.registrationLog, db.outbox, r);
    assert RegistrationAccounted(next.registrations, next.registrationLog, next.outbox, r);
    assert RegistrationLater(db.registrations, next.registrations, r);
    assert next.outbox[|db.outbox|] == events[0];
    assert EventAt(next.registrations, next.outbox, |db.outbox|);
  }

  /** A published form is final, so an activity's review mode does not change under its registrations. */
  lemma ModeKept(db: Db, next: Db, r: Id)
    requires Good(db) && Evolves(db, next) && r in db.registrations
    ensures var a := db.registrations[r].activityId; Reviewed(next, a) <==> Reviewed(db, a)
  {
    assert RegistrationAt(db.activities, db.registrations, r);
    assert ActivityLater(db.activities, next.activities, db.registrations[r].activityId);
  }

  /** A step whose first event is not about the place changes neither the word nor the registrations of it. */
  lemma SilentStepAgrees(directory: Events.Directory, db: Db, events: seq<Event>, next: Db,
                         layout: nat -> nat, p: nat, place: Chat.Place)
    requires Changes(db, events, next) && KnownPlace(directory, place) && Agrees(directory, db, layout, p, place)
    requires events != [] ==> !IsAbout(events[0], layout, p, place)
    ensures Agrees(directory, next, layout, p, place)
  {
    if events == [] {
      assert next.outbox == db.outbox;
    } else {
      RestIsSilent(directory, db.outbox, events, layout, p, place);
      WordAppended(directory, db.outbox, events[0], layout, p, place);
    }
    forall r: Id
      ensures IsHere(next.registrations, r, layout, p, place) <==> IsHere(db.registrations, r, layout, p, place)
      ensures IsApproved(next.registrations, r, layout, p, place) <==> IsApproved(db.registrations, r, layout, p, place)
      ensures IsDecided(next.registrations, r, layout, p, place) <==> IsDecided(db.registrations, r, layout, p, place)
    {
      if events != [] && events[0].RegistrationEvent? && events[0].registrationId == r {
        StatusMoved(db, events, next);
      } else {
        StatusKept(db, events, next, r);
      }
    }
    if r: Id :| IsHere(db.registrations, r, layout, p, place) {
      ModeKept(db, next, r);
    }
  }

  /** The first event is about the place and creates a registration. */
  lemma CreationAgrees(directory: Events.Directory, db: Db, events: seq<Event>, next: Db,
                       layout: nat -> nat, p: nat, place: Chat.Place)
    requires Changes(db, events, next) && KnownPlace(directory, place) && Agrees(directory, db, layout, p, place)
    requires events != [] && IsAbout(events[0], layout, p, place) && events[0].from.None?
    ensures Agrees(directory, next, layout, p, place)
  {
    var created := events[0].registrationId;
    RestIsSilent(directory, db.outbox, events, layout, p, place);
    WordAppended(directory, db.outbox, events[0], layout, p, place);
    StatusMoved(db, events, next);
    assert ActivityLater(db.activities, next.activities, place.activity);
    forall r: Id | r != created
      ensures IsApproved(next.registrations, r, layout, p, place) <==> IsApproved(db.registrations, r, layout, p, place)
      ensures IsDecided(next.registrations, r, layout, p, place) <==> IsDecided(db.registrations, r, layout, p, place)
    {
      StatusKept(db, events, next, r);
    }
  }

  /** Nobody else holds the place while the registration that leaves held it. */
  lemma LeaverHeldThePlace(db: Db, events: seq<Event>, next: Db, layout: nat -> nat, p: nat, place: Chat.Place, r: Id)
    requires Changes(db, events, next)
    requires events != [] && IsAbout(events[0], layout, p, place) && events[0].from.Some? && events[0].to != Approved
    ensures !IsApproved(next.registrations, r, layout, p, place)
  {
    var leaver := events[0].registrationId;
    StatusMoved(db, events, next);
    if r != leaver {
      StatusKept(db, events, next, r);
      assert RegistrationAt(db.activities, db.registrations, r);
      assert RegistrationAt(db.activities, db.registrations, leaver);
      assert SlotUnique(db.registrations, r, leaver);
    }
  }

  /** The first event is about the place and moves a registration, so it is the last word. */
  lemma MoveSpeaks(directory: Events.Directory, db: Db, events: seq<Event>, next: Db,
                   layout: nat -> nat, p: nat, place: Chat.Place)
    requires Changes(db, events, next) && KnownPlace(directory, place)
    requires events != [] && IsAbout(events[0], layout, p, place) && events[0].from.Some?
    ensures WordIn(directory, next.outbox, layout, p, place) == Some(events[0].to == Approved)
    ensures IsDecided(next.registrations, events[0].registrationId, layout, p, place)
    ensures events[0].to == Approved ==>
              && IsApproved(next.registrations, events[0].registrationId, layout, p, place)
              && Reviewed(next, place.activity)
  {
    RestIsSilent(directory, db.outbox, events, layout, p, place);
    WordAppended(directory, db.outbox, events[0], layout, p, place);
    StatusMoved(db, events, next);
    ModeKept(db, next, events[0].registrationId);
    assert RegistrationAt(db.activities, db.registrations, events[0].registrationId);
  }

  lemma MoveAgrees(directory: Events.Directory, db: Db, events: seq<Event>, next: Db,
                   layout: nat -> nat, p: nat, place: Chat.Place)
    requires Changes(db, events, next) && KnownPlace(directory, place)
    requires events != [] && IsAbout(events[0], layout, p, place) && events[0].from.Some?
    ensures Agrees(directory, next, layout, p, place)
  {
    MoveSpeaks(directory, db, events, next, layout, p, place);
    if events[0].to != Approved {
      forall q: Id ensures !IsApproved(next.registrations, q, layout, p, place) {
        LeaverHeldThePlace(db, events, next, layout, p, place, q);
      }
    }
  }

  lemma StepAgrees(directory: Events.Directory, db: Db, events: seq<Event>, next: Db,
                   layout: nat -> nat, p: nat, place: Chat.Place)
    requires Changes(db, events, next) && KnownPlace(directory, place) && Agrees(directory, db, layout, p, place)
    ensures Agrees(directory, next, layout, p, place)
  {
    if events == [] || !IsAbout(events[0], layout, p, place) {
      SilentStepAgrees(directory, db, events, next, layout, p, place);
    } else if events[0].from.None? {
      CreationAgrees(directory, db, events, next, layout, p, place);
    } else {
      MoveAgrees(directory, db, events, next, layout, p, place);
    }
  }

  /** The n-th state of a run is a committed change of the one before. */
  lemma RunChanges(history: seq<Db>, n: nat) returns (events: seq<Event>)
    requires Run(history) && 0 < n < |history|
    ensures Changes(history[n - 1], events, history[n])
  {
    var past := history[..n];
    RunIsSound(history);
    assert StepAt(history, n);
    var action :| Step(past, action, history[n]);
    events := StepAnnounces(past, action, history[n]);
    assert Evolves(history[n - 1], history[n]);
  }

  lemma {:induction false} AgreesAlways(directory: Events.Directory, history: seq<Db>, k: nat,
                                        layout: nat -> nat, p: nat, place: Chat.Place)
    requires Run(history) && k < |history| && KnownPlace(directory, place)
    ensures Agrees(directory, history[k], layout, p, place)
  {
    if k > 0 {
      AgreesAlways(directory, history, k - 1, layout, p, place);
      var events := RunChanges(history, k);
      StepAgrees(directory, history[k - 1], events, history[k], layout, p, place);
    }
  }

  // ----- who is a member -----

  /** The layout of a topic with a single partition. */
  function Together(registration: nat): nat {
    0
  }

  /** The user holds an approved registration of an activity whose registrations are reviewed. */
  ghost predicate HoldsReviewed(db: Db, place: Chat.Place) {
    Reviewed(db, place.activity) && ApprovedIn(db, Together, 0, place)
  }

  /** The consumer's tables have every group that publishing created. */
  predicate HasGroups(db: Db, t: Chat.Tables) {
    forall a <- db.groups :: a in t.groups
  }

  lemma {:induction false} TopicIsOfTheOutbox(outbox: seq<Event>, i: nat) returns (j: nat)
    requires i < |Topic(outbox)|
    ensures j < |outbox| && outbox[j].RegistrationEvent?
    ensures Topic(outbox)[i].record == Chat.Record(EventTypeOf(outbox[j]), outbox[j].activityId, outbox[j].userId)
  {
    var n := |outbox| - 1;
    if i < |Topic(outbox[..n])| {
      j := TopicIsOfTheOutbox(outbox[..n], i);
    } else {
      j := n;
    }
  }

  /** No join ever has to create its group. */
  lemma JoinsFindTheirGroups(directory: Events.Directory, history: seq<Db>, k: nat, t: Chat.Tables)
    requires Run(history) && k < |history| && HasGroups(history[k], t)
    ensures Chat.GroupsThere(directory, t, Partitions.Records(Topic(history[k].outbox)))
  {
    var db := history[k];
    var topic := Topic(db.outbox);
    RunIsSound(history);
    Partitions.RecordsCount(topic);
    forall i | 0 <= i < |topic| ensures Partitions.Records(topic)[i].activity in t.groups {
      Partitions.RecordAt(topic, i);
      var j := TopicIsOfTheOutbox(db.outbox, i);
      assert EventAt(db.registrations, db.outbox, j);
      assert RegistrationAt(db.activities, db.registrations, db.outbox[j].registrationId);
      assert GroupAt(db.activities, db.groups, db.outbox[j].activityId);
    }
  }

  lemma WholeTopic(directory: Events.Directory, outbox: seq<Event>, place: Chat.Place)
    ensures WordIn(directory, outbox, Together, 0, place) == Partitions.Word(directory, Topic(outbox), place)
  {
    Partitions.AllInOne(Topic(outbox), Together, 0);
  }

  /** The last word of the whole topic. */
  lemma LastWordIsTheRegistration(directory: Events.Directory, history: seq<Db>, k: nat, place: Chat.Place)
    requires Run(history) && k < |history| && KnownPlace(directory, place)
    ensures Partitions.Word(directory, Topic(history[k].outbox), place) == Some(true)
            <==> HoldsReviewed(history[k], place)
  {
    WholeTopic(directory, history[k].outbox, place);
    AgreesAlways(directory, history, k, Together, 0, place);
  }

  /**
   When the topic is handled in order, the members are the users with an approved registration, if the
   activity's registrations are reviewed; an approval without a review makes nobody a member.
   */
  lemma MembersAreTheApproved(directory: Events.Directory, history: seq<Db>, k: nat, t: Chat.Tables, place: Chat.Place)
    requires Run(history) && k < |history| && KnownPlace(directory, place)
    requires Chat.Grounded(t) && HasGroups(history[k], t) && !Chat.ActiveIn(t, place)
    ensures Chat.ActiveIn(Chat.Pass(directory, t, Partitions.Records(Topic(history[k].outbox))), place)
            <==> HoldsReviewed(history[k], place)
  {
    JoinsFindTheirGroups(directory, history, k, t);
    Chat.LastWordWins(directory, t, Partitions.Records(Topic(history[k].outbox)), place);
    LastWordIsTheRegistration(directory, history, k, place);
  }

  /** Whatever order the partitions are handled in, the members are the users with a reviewed approval. */
  ghost predicate AlwaysAgrees(directory: Events.Directory, db: Db, t: Chat.Tables, layout: nat -> nat,
                               place: Chat.Place)
  {
    forall handled :: Partitions.Delivers(Topic(db.outbox), layout, handled) ==>
                        (Chat.ActiveIn(Chat.Pass(directory, t, Partitions.Records(handled)), place)
                         <==> HoldsReviewed(db, place))
  }

  /** `q` is a decided registration of the user for the activity, and `r` an approved one. */
  predicate SharesPlace(registrations: map<Id, Registration>, r: Id, q: Id, place: Chat.Place) {
    IsApproved(registrations, r, Together, 0, place) && IsDecided(registrations, q, Together, 0, place)
  }

  /** All decided registrations of the user for the activity go to the partition of the approved one. */
  ghost predicate OnePartition(db: Db, layout: nat -> nat, place: Chat.Place) {
    forall r, q :: SharesPlace(db.registrations, r, q, place) ==> layout(r) == layout(q)
  }

  lemma OnePartitionConcurs(directory: Events.Directory, history: seq<Db>, k: nat, layout: nat -> nat,
                            place: Chat.Place, p: nat)
    requires Run(history) && k < |history| && KnownPlace(directory, place)
    requires Reviewed(history[k], place.activity) ==> OnePartition(history[k], layout, place)
    ensures Partitions.Concurs(directory, Topic(history[k].outbox), layout, place, p)
  {
    var db := history[k];
    AgreesAlways(directory, history, k, layout, p, place);
    LastWordIsTheRegistration(directory, history, k, place);
    Partitions.PartitionsAreHeard(directory, Topic(db.outbox), layout, place, p);
    if r :| IsApproved(db.registrations, r, layout, p, place) {
      assert IsApproved(db.registrations, r, Together, 0, place);
    }
    if HoldsReviewed(db, place) && DecidedIn(db, layout, p, place) {
      var r :| IsApproved(db.registrations, r, Together, 0, place);
      var q :| IsDecided(db.registrations, q, layout, p, place);
      assert SharesPlace(db.registrations, r, q, place);
      assert IsApproved(db.registrations, r, layout, p, place);
    }
  }

  lemma ConcursOnlyInOnePartition(directory: Events.Directory, history: seq<Db>, k: nat, layout: nat -> nat,
                                  place: Chat.Place, r: Id, q: Id)
    requires Run(history) && k < |history| && KnownPlace(directory, place) && Reviewed(history[k], place.activity)
    requires Partitions.Concurs(directory, Topic(history[k].outbox), layout, place, layout(q))
    requires SharesPlace(history[k].registrations, r, q, place)
    ensures layout(r) == layout(q)
  {
    var db := history[k];
    AgreesAlways(directory, history, k, layout, layout(q), place);
    LastWordIsTheRegistration(directory, history, k, place);
    assert IsDecided(db.registrations, q, layout, layout(q), place);
    var held :| IsApproved(db.registrations, held, layout, layout(q), place);
    RunIsSound(history);
    assert RegistrationAt(db.activities, db.registrations, r) && RegistrationAt(db.activities, db.registrations, held);
    assert SlotUnique(db.registrations, r, held);
  }

  /**
   Exactly when the partitions may be handled in any order: no user holds an approved registration while
   the events of another decided one of theirs for the same activity go to another partition.  So a user
   without an approved registration never ends in the group, and one with it can only end outside by
   having registered before.
   */
  lemma MembersInAnyOrderIff(directory: Events.Directory, history: seq<Db>, k: nat, t: Chat.Tables,
                             layout: nat -> nat, place: Chat.Place)
    requires Run(history) && k < |history| && KnownPlace(directory, place)
    requires Chat.Grounded(t) && HasGroups(history[k], t) && !Chat.ActiveIn(t, place)
    ensures AlwaysAgrees(directory, history[k], t, layout, place)
            <==> (Reviewed(history[k], place.activity) ==> OnePartition(history[k], layout, place))
  {
    var db, topic := history[k], Topic(history[k].outbox);
    MembersAreTheApproved(directory, history, k, t, place);
    JoinsFindTheirGroups(directory, history, k, t);
    Partitions.MembershipAgreesIff(directory, t, topic, layout, place);
    if Reviewed(db, place.activity) ==> OnePartition(db, layout, place) {
      forall p: nat ensures Partitions.Concurs(directory, topic, layout, place, p) {
        OnePartitionConcurs(directory, history, k, layout, place, p);
      }
    } else {
      var r, q :| SharesPlace(db.registrations, r, q, place) && layout(r) != layout(q);
      if Partitions.Concurs(directory, topic, layout, place, layout(q)) {
        ConcursOnlyInOnePartition(directory, history, k, layout, place, r, q);
      }
    }
  }
}
