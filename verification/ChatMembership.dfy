/**
 The consumer that keeps group membership in step with registration events.  It handles each record
 of a partition and then commits its offset; a crash in between delivers the record again.
 */
module ChatMembership {
  import opened Events
  import opened Wrappers

  datatype Role = MemberRole | OwnerRole

  /** A membership row, without its timestamps. */
  datatype Member = Member(role: Role, active: bool, lastRead: Option<nat>)

  /** The unique key of a membership row: the group (there is one for an activity) and the user. */
  datatype Place = Place(activity: nat, user: nat)

  /** The owner of each activity's group, and the membership rows. */
  datatype Tables = Tables(groups: map<nat, nat>, members: map<Place, Member>)

  datatype Record = Record(eventType: EventType, activity: nat, user: nat)

  datatype MembershipAction = Ignore | Join | Leave

  function ActionFor(eventType: EventType): MembershipAction {
    match eventType
    case RegistrationApproved => Join
    case RegistrationCancelled | RegistrationRejected | RegistrationExpired => Leave
    case RegistrationCreated | OtherType => Ignore
  }

  // ----- what one record does to the tables -----

  function WithGroup(t: Tables, activity: nat, owner: nat): Tables {
    if activity in t.groups then t
    else Tables(t.groups[activity := owner], t.members[Place(activity, owner) := Member(OwnerRole, true, None)])
  }

  function Joined(t: Tables, place: Place): Tables {
    t.(members := t.members[place :=
      if place in t.members then t.members[place].(active := true) else Member(MemberRole, true, None)])
  }

  function Left(t: Tables, place: Place): Tables {
    if place in t.members && t.members[place].active
    then t.(members := t.members[place := t.members[place].(active := false)]) else t
  }

  /** The user and the activity of the record are known. */
  predicate Known(directory: Directory, record: Record) {
    record.user in directory.users && record.activity in directory.organizers
  }

  function PlaceOf(record: Record): Place {
    Place(record.activity, record.user)
  }

  predicate Joins(directory: Directory, record: Record) {
    ActionFor(record.eventType) == Join && Known(directory, record)
  }

  /** The first of a join's two transactions. */
  function Grouped(directory: Directory, t: Tables, record: Record): Tables {
    if Joins(directory, record)
    then WithGroup(t, record.activity, directory.organizers[record.activity]) else t
  }

  function Apply(directory: Directory, t: Tables, record: Record): Tables {
    if !Known(directory, record) then t
    else
      match ActionFor(record.eventType)
      case Join => Joined(Grouped(directory, t, record), PlaceOf(record))
      case Leave => if record.activity in t.groups then Left(t, PlaceOf(record)) else t
      case Ignore => t
  }

  /** Every record of the log applied exactly once, in order. */
  function Pass(directory: Directory, t: Tables, log: seq<Record>): Tables {
    if log == [] then t
    else Apply(directory, Pass(directory, t, log[..|log| - 1]), log[|log| - 1])
  }

  class ChatTables {
    var groups: map<nat, nat>
    var members: map<Place, Member>

    constructor (initial: Tables)
      ensures State() == initial
    {
      groups, members := initial.groups, initial.members;
    }

    function State(): Tables
      reads this
    {
      Tables(groups, members)
    }

    /** An upsert: a new row is a plain member, an existing row only becomes active again. */
    method JoinGroup(place: Place)
      modifies this
      ensures State() == Joined(old(State()), place)
    {
      if place in members {
        members := members[place := members[place].(active := true)];
      } else {
        members := members[place := Member(MemberRole, true, None)];
      }
    }

    method LeaveGroup(place: Place)
      modifies this
      ensures State() == Left(old(State()), place)
    {
      if place in members && members[place].active {
        members := members[place := members[place].(active := false)];
      }
    }

    method FindOrCreateGroup(activity: nat, owner: nat)
      modifies this
      ensures State() == WithGroup(old(State()), activity, owner)
    {
      if activity in groups { return; }
      groups := groups[activity := owner];
      members := members[Place(activity, owner) := Member(OwnerRole, true, None)];
    }

    method HandleEvent(directory: Directory, record: Record)
      modifies this
      ensures State() == Apply(directory, old(State()), record)
    {
      var action := ActionFor(record.eventType);
      if action == Join {
        if record.user !in directory.users { return; }
        if record.activity !in directory.organizers { return; }
        FindOrCreateGroup(record.activity, directory.organizers[record.activity]);
        JoinGroup(PlaceOf(record));
      } else if action == Leave {
        if record.user !in directory.users { return; }
        if record.activity !in directory.organizers { return; }
        if record.activity !in groups { return; }
        LeaveGroup(PlaceOf(record));
      }
    }
  }

  // ----- what a pass means -----

  predicate ActiveIn(t: Tables, place: Place) {
    place in t.members && t.members[place].active
  }

  /** The record is a join or a leave of the place. */
  predicate Speaks(directory: Directory, record: Record, place: Place) {
    Known(directory, record) && PlaceOf(record) == place && ActionFor(record.eventType) != Ignore
  }

  /** Where the last join or leave of a place is in the log. */
  function LastAt(directory: Directory, log: seq<Record>, place: Place): (at: Option<nat>)
    ensures at.Some? ==> at.value < |log| && Speaks(directory, log[at.value], place)
    ensures forall i | (if at.Some? then at.value + 1 else 0) <= i < |log| :: !Speaks(directory, log[i], place)
  {
    if log == [] then None
    else if Speaks(directory, log[|log| - 1], place) then Some(|log| - 1)
    else LastAt(directory, log[..|log| - 1], place)
  }

  /** What the last join or leave of a place says of its active flag. */
  function LastWord(directory: Directory, log: seq<Record>, place: Place): Option<bool> {
    var at := LastAt(directory, log, place);
    if at.Some? then Some(ActionFor(log[at.value].eventType) == Join) else None
  }

  /** The active flag that the last word leaves, or the one there was. */
  predicate OnceSaid(directory: Directory, t: Tables, log: seq<Record>, place: Place) {
    match LastWord(directory, log, place)
    case Some(on) => on
    case None => ActiveIn(t, place)
  }

  /** Every group a join of the log needs is already there. */
  ghost predicate GroupsThere(directory: Directory, t: Tables, log: seq<Record>) {
    forall i | 0 <= i < |log| :: Joins(directory, log[i]) ==> log[i].activity in t.groups
  }

  /** Rows belong to groups. */
  ghost predicate Grounded(t: Tables) {
    forall place <- t.members :: place.activity in t.groups
  }

  function OwnerPlace(directory: Directory, activity: nat): Place
    requires activity in directory.organizers
  {
    Place(activity, directory.organizers[activity])
  }

  /** The organizer's place in an activity that has no group yet. */
  predicate NewOwner(directory: Directory, t: Tables, place: Place) {
    && place.activity in directory.organizers && place.activity !in t.groups
    && place == OwnerPlace(directory, place.activity)
  }

  /** What one record says of a place, unless it creates the group of the place's user. */
  lemma OneWord(directory: Directory, t: Tables, record: Record, place: Place)
    requires Grounded(t)
    requires NewOwner(directory, t, place) ==> !(Joins(directory, record) && record.activity == place.activity)
    ensures Grounded(Apply(directory, t, record))
    ensures forall a <- t.groups :: a in Apply(directory, t, record).groups
    ensures ActiveIn(Apply(directory, t, record), place)
            == if Speaks(directory, record, place) then ActionFor(record.eventType) == Join else ActiveIn(t, place)
  {
  }

  /**
   The last join or leave of a place decides whether it is active.  Only the organizer of a group that
   is still missing is different: creating the group makes the organizer active.
   */
  lemma {:induction false} LastWordWins(directory: Directory, t: Tables, log: seq<Record>, place: Place)
    requires Grounded(t) && (NewOwner(directory, t, place) ==> GroupsThere(directory, t, log))
    ensures var end := Pass(directory, t, log);
            && Grounded(end) && (forall a <- t.groups :: a in end.groups)
            && (GroupsThere(directory, t, log) ==> end.groups == t.groups)
            && ActiveIn(end, place) == OnceSaid(directory, t, log, place)
  {
    if log != [] {
      LastWordWins(directory, t, log[..|log| - 1], place);
      OneWord(directory, Pass(directory, t, log[..|log| - 1]), log[|log| - 1], place);
    }
  }

  /** Whatever the log, a row keeps its role and its read pointer, and groups keep their owners. */
  lemma {:induction false} RolesAndReadPointersAreKept(directory: Directory, t: Tables, log: seq<Record>, place: Place)
    requires Grounded(t)
    ensures Grounded(Pass(directory, t, log))
    ensures forall a <- t.groups ::
              a in Pass(directory, t, log).groups && Pass(directory, t, log).groups[a] == t.groups[a]
    ensures place in t.members ==>
              && place in Pass(directory, t, log).members
              && Pass(directory, t, log).members[place]
                  == t.members[place].(active := Pass(directory, t, log).members[place].active)
  {
    if log != [] {
      RolesAndReadPointersAreKept(directory, t, log[..|log| - 1], place);
    }
  }

  // ----- the consumer -----

  /**
   The partition's log so far, the committed offset, whether the record there was handled since, how
   far the log was ever handled, and the tables.
   */
  datatype State = State(log: seq<Record>, committed: nat, done: bool, reached: nat, tables: Tables)

  datatype Action =
    | Publish(record: Record)
    | HandleRecord
    | Interrupt
    | CommitRecord
    | Restart
    | Rewind(offset: nat)

  ghost predicate Step(directory: Directory, s: State, action: Action, next: State) {
    match action
    case Publish(record) => next == s.(log := s.log + [record])
    case HandleRecord =>
      s.committed < |s.log|
      && next == s.(tables := Apply(directory, s.tables, s.log[s.committed]), done := true,
                    reached := if s.reached <= s.committed then s.committed + 1 else s.reached)
    case Interrupt =>
      s.committed < |s.log| && next == s.(tables := Grouped(directory, s.tables, s.log[s.committed]))
    case CommitRecord => s.committed < |s.log| && s.done && next == s.(committed := s.committed + 1, done := false)
    case Restart => next == s.(done := false)
    case Rewind(o) => o <= s.committed && next == s.(committed := o, done := false)
  }

  ghost predicate Reaches(directory: Directory, s: State, next: State, rewinds: bool) {
    exists action :: Step(directory, s, action, next) && (action.Rewind? ==> rewinds)
  }

  ghost predicate StepAt(directory: Directory, states: seq<State>, rewinds: bool, n: nat) {
    0 < n < |states| ==> Reaches(directory, states[n - 1], states[n], rewinds)
  }

  ghost predicate Run(directory: Directory, initial: Tables, states: seq<State>, rewinds: bool) {
    && |states| > 0 && states[0] == State([], 0, false, 0, initial)
    && forall n: nat :: StepAt(directory, states, rewinds, n)
  }

  /** The first n records applied once each. */
  function Prefix(directory: Directory, initial: Tables, log: seq<Record>, n: nat): Tables
    requires n <= |log|
  {
    Pass(directory, initial, log[..n])
  }

  lemma PrefixStep(directory: Directory, initial: Tables, log: seq<Record>, n: nat)
    requires n < |log|
    ensures Prefix(directory, initial, log, n + 1) == Apply(directory, Prefix(directory, initial, log, n), log[n])
  {
    assert log[..n + 1][..n] == log[..n];
  }

  /** Handling a record again, or after only its group was created, changes nothing more. */
  lemma ApplyIsIdempotent(directory: Directory, t: Tables, record: Record)
    ensures Apply(directory, Apply(directory, t, record), record) == Apply(directory, t, record)
    ensures Apply(directory, Grouped(directory, t, record), record) == Apply(directory, t, record)
    ensures Grouped(directory, Apply(directory, t, record), record) == Apply(directory, t, record)
    ensures Grouped(directory, Grouped(directory, t, record), record) == Grouped(directory, t, record)
  {
  }

  /** Without rewinds: the tables are the pass up to the committed offset, or stand somewhere in its next record. */
  ghost predicate InStep(directory: Directory, initial: Tables, s: State) {
    && s.committed <= |s.log|
    && if s.committed == |s.log| then !s.done && s.tables == Prefix(directory, initial, s.log, s.committed)
       else
         var t, record := Prefix(directory, initial, s.log, s.committed), s.log[s.committed];
         if s.done then s.tables == Apply(directory, t, record)
         else s.tables == t || s.tables == Apply(directory, t, record) || s.tables == Grouped(directory, t, record)
  }

  lemma {:induction false} RunStaysInStep(directory: Directory, initial: Tables, states: seq<State>, k: nat)
    requires Run(directory, initial, states, false) && k < |states|
    ensures InStep(directory, initial, states[k])
  {
    if k > 0 {
      RunStaysInStep(directory, initial, states, k - 1);
      assert StepAt(directory, states, false, k);
      var action :| Step(directory, states[k - 1], action, states[k]) && !action.Rewind?;
      var s, next := states[k - 1], states[k];
      if action.Publish? {
        assert next.log[..s.committed] == s.log[..s.committed];
      } else if s.committed < |s.log| {
        ApplyIsIdempotent(directory, Prefix(directory, initial, s.log, s.committed), s.log[s.committed]);
        PrefixStep(directory, initial, s.log, s.committed);
      }
    }
  }

  /**
   However often the consumer crashes and restarts from its committed offset, once it has caught up
   the tables are those of a single exactly-once pass.
   */
  lemma RestartsAreHarmless(directory: Directory, initial: Tables, states: seq<State>, k: nat)
    requires Run(directory, initial, states, false) && k < |states| && states[k].committed == |states[k].log|
    ensures states[k].tables == Pass(directory, initial, states[k].log)
  {
    RunStaysInStep(directory, initial, states, k);
    assert states[k].log[..|states[k].log|] == states[k].log;
  }
}
