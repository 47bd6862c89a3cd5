/**
 What setting the membership consumer's offset back does.  Records are then replayed over tables that
 already know the future: groups that a later record created are there from the start.
 */
module Rewinds {
  import opened Events
  import opened Wrappers
  import opened ChatMembership

  // ----- the condition -----

  /** Record `c` is the first join of an activity that had no group, so it creates the group. */
  ghost predicate Creates(directory: Directory, initial: Tables, log: seq<Record>, c: nat) {
    && c < |log| && Joins(directory, log[c]) && log[c].activity !in initial.groups
    && forall j | 0 <= j < c :: !(Joins(directory, log[j]) && log[j].activity == log[c].activity)
  }

  /**
   If record `c` creates a group, the organizer has no leave before it, or has the last word at or
   after it.
   */
  ghost predicate SettledAt(directory: Directory, initial: Tables, log: seq<Record>, c: nat) {
    Creates(directory, initial, log, c) ==>
      || (forall j | 0 <= j < c :: !Speaks(directory, log[j], OwnerPlace(directory, log[c].activity)))
      || (exists j :: c <= j < |log| && Speaks(directory, log[j], OwnerPlace(directory, log[c].activity)))
  }

  ghost predicate OrganizersSettled(directory: Directory, initial: Tables, log: seq<Record>) {
    forall c: nat :: SettledAt(directory, initial, log, c)
  }

  // ----- prefixes of a pass -----

  lemma {:induction false} PrefixGrows(directory: Directory, initial: Tables, log: seq<Record>, m: nat, n: nat)
    requires m <= n <= |log| && Grounded(initial)
    ensures var was, now := Prefix(directory, initial, log, m), Prefix(directory, initial, log, n);
            && Grounded(now)
            && (forall a <- was.groups :: a in now.groups && now.groups[a] == was.groups[a])
            && (forall place <- was.members :: SameRow(was, now, place))
  {
    if m < n {
      PrefixGrows(directory, initial, log, m, n - 1);
      PrefixStep(directory, initial, log, n - 1);
    } else if m > 0 {
      PrefixGrows(directory, initial, log, m - 1, n - 1);
      PrefixStep(directory, initial, log, m - 1);
    }
  }

  /** The place has a row in both tables, alike but for the active flag. */
  ghost predicate SameRow(t: Tables, u: Tables, place: Place) {
    && place in t.members && place in u.members
    && t.members[place].(active := false) == u.members[place].(active := false)
  }

  // ----- the invariant: the tables against the whole log -----

  /** How far the log counts as handled for the active flags. */
  function Position(s: State): nat {
    if s.done then s.committed + 1 else s.committed
  }

  /** The groups lie between those of the furthest prefix and those of the whole pass. */
  ghost predicate GroupFits(directory: Directory, initial: Tables, log: seq<Record>, reached: nat, t: Tables, a: nat)
    requires reached <= |log|
  {
    var end := Pass(directory, initial, log);
    && (a in Prefix(directory, initial, log, reached).groups ==> a in t.groups)
    && (a in t.groups ==> a in end.groups && end.groups[a] == t.groups[a])
    && (a in t.groups && a !in initial.groups ==>
          a in directory.organizers && OwnerPlace(directory, a) in t.members)
  }

  /** So do the rows, apart from their active flags. */
  ghost predicate RowFits(directory: Directory, initial: Tables, log: seq<Record>, reached: nat, t: Tables,
                          place: Place)
    requires reached <= |log|
  {
    && (place in Prefix(directory, initial, log, reached).members ==> place in t.members)
    && (place in t.members ==> SameRow(t, Pass(directory, initial, log), place) && place.activity in t.groups)
  }

  /** Beyond the last join or leave of a place, its active flag is what that says. */
  ghost predicate FlagFits(directory: Directory, initial: Tables, log: seq<Record>, position: nat, t: Tables,
                           place: Place)
  {
    match LastAt(directory, log, place)
    case Some(i) => position > i ==> ActiveIn(t, place) == (ActionFor(log[i].eventType) == Join)
    case None =>
      ActiveIn(t, place)
      == (ActiveIn(initial, place) || (NewOwner(directory, initial, place) && place.activity in t.groups))
  }

  ghost predicate Fits(directory: Directory, initial: Tables, log: seq<Record>, s: State) {
    && s.log <= log && s.committed <= s.reached <= |s.log| && (s.done ==> s.committed < s.reached)
    && (forall a: nat :: GroupFits(directory, initial, log, s.reached, s.tables, a))
    && (forall place: Place :: RowFits(directory, initial, log, s.reached, s.tables, place))
    && (forall place: Place :: FlagFits(directory, initial, log, Position(s), s.tables, place))
  }

  /** A group is missing from the tables only if the next record is the one that creates it. */
  lemma MissingGroup(directory: Directory, initial: Tables, log: seq<Record>, s: State)
    requires Grounded(initial) && Fits(directory, initial, log, s) && s.committed < |s.log|
    requires Joins(directory, log[s.committed]) && log[s.committed].activity !in s.tables.groups
    ensures s.reached == s.committed && Creates(directory, initial, log, s.committed)
    ensures var a, end := log[s.committed].activity, Pass(directory, initial, log);
            && a in end.groups && end.groups[a] == directory.organizers[a]
            && OwnerPlace(directory, a) in end.members
            && end.members[OwnerPlace(directory, a)].(active := true) == Member(OwnerRole, true, None)
  {
    var c, a := s.committed, log[s.committed].activity;
    assert log[..|log|] == log;
    PrefixGrows(directory, initial, log, c + 1, |log|);
    PrefixStep(directory, initial, log, c);
    assert GroupFits(directory, initial, log, s.reached, s.tables, a);
    if s.reached > c { PrefixGrows(directory, initial, log, c + 1, s.reached); }
    PrefixGrows(directory, initial, log, 0, c);
    var owner := OwnerPlace(directory, a);
    assert SameRow(Prefix(directory, initial, log, c + 1), Pass(directory, initial, log), owner);
    forall j | 0 <= j < c ensures !(Joins(directory, log[j]) && log[j].activity == a) {
      PrefixStep(directory, initial, log, j);
      PrefixGrows(directory, initial, log, j + 1, c);
    }
  }

  /** The first half of a join. */
  lemma InterruptKeeps(directory: Directory, initial: Tables, log: seq<Record>, s: State, next: State)
    requires Grounded(initial) && OrganizersSettled(directory, initial, log)
    requires Fits(directory, initial, log, s) && s.committed < |s.log| && Step(directory, s, Interrupt, next)
    ensures Fits(directory, initial, log, next)
  {
    var record := log[s.committed];
    assert s.log[s.committed] == record;
    var a := record.activity;
    if Joins(directory, record) && a !in s.tables.groups {
      var owner := OwnerPlace(directory, a);
      MissingGroup(directory, initial, log, s);
      assert SettledAt(directory, initial, log, s.committed);
      forall b: nat ensures GroupFits(directory, initial, log, next.reached, next.tables, b) {
        assert GroupFits(directory, initial, log, s.reached, s.tables, b);
      }
      forall place: Place
        ensures RowFits(directory, initial, log, next.reached, next.tables, place)
        ensures FlagFits(directory, initial, log, Position(next), next.tables, place)
      {
        assert RowFits(directory, initial, log, s.reached, s.tables, place);
        assert FlagFits(directory, initial, log, Position(s), s.tables, place);
      }
    } else {
      assert next.tables == s.tables;
    }
  }

  /** The record at the committed offset can be handled, and its group is there. */
  ghost predicate Ready(directory: Directory, initial: Tables, log: seq<Record>, s: State) {
    && Grounded(initial) && Fits(directory, initial, log, s) && s.committed < |s.log|
    && (Joins(directory, log[s.committed]) ==> log[s.committed].activity in s.tables.groups)
  }

  lemma HandleKeepsGroups(directory: Directory, initial: Tables, log: seq<Record>, s: State, next: State, a: nat)
    requires Ready(directory, initial, log, s) && Step(directory, s, HandleRecord, next)
    ensures GroupFits(directory, initial, log, next.reached, next.tables, a)
  {
    assert s.log[s.committed] == log[s.committed];
    PrefixStep(directory, initial, log, s.committed);
    assert GroupFits(directory, initial, log, s.reached, s.tables, a);
  }

  lemma HandleKeepsRow(directory: Directory, initial: Tables, log: seq<Record>, s: State, next: State, place: Place)
    requires Ready(directory, initial, log, s) && Step(directory, s, HandleRecord, next)
    ensures RowFits(directory, initial, log, next.reached, next.tables, place)
  {
    var c, record := s.committed, log[s.committed];
    assert s.log[c] == record && log[..|log|] == log;
    var before, after, end := Prefix(directory, initial, log, c), Prefix(directory, initial, log, c + 1),
                              Pass(directory, initial, log);
    var furthest := Prefix(directory, initial, log, s.reached);
    assert RowFits(directory, initial, log, s.reached, s.tables, place);
    PrefixStep(directory, initial, log, c);
    PrefixGrows(directory, initial, log, 0, c);
    assert GroupFits(directory, initial, log, s.reached, s.tables, record.activity);
    if place == PlaceOf(record) && Joins(directory, record) && place !in s.tables.members {
      PrefixGrows(directory, initial, log, c + 1, |log|);
      PrefixGrows(directory, initial, log, c, s.reached);
      assert SameRow(after, end, place);
      assert place in before.members ==> SameRow(before, furthest, place);
    }
  }

  lemma HandleKeepsFlag(directory: Directory, initial: Tables, log: seq<Record>, s: State, next: State, place: Place)
    requires Ready(directory, initial, log, s) && Step(directory, s, HandleRecord, next)
    ensures FlagFits(directory, initial, log, Position(next), next.tables, place)
  {
    assert s.log[s.committed] == log[s.committed];
    assert RowFits(directory, initial, log, s.reached, s.tables, place);
    assert FlagFits(directory, initial, log, Position(s), s.tables, place);
  }

  lemma HandleKeeps(directory: Directory, initial: Tables, log: seq<Record>, s: State, next: State)
    requires Ready(directory, initial, log, s) && Step(directory, s, HandleRecord, next)
    ensures Fits(directory, initial, log, next)
  {
    forall a: nat ensures GroupFits(directory, initial, log, next.reached, next.tables, a) {
      HandleKeepsGroups(directory, initial, log, s, next, a);
    }
    forall place: Place
      ensures RowFits(directory, initial, log, next.reached, next.tables, place)
      ensures FlagFits(directory, initial, log, Position(next), next.tables, place)
    {
      HandleKeepsRow(directory, initial, log, s, next, place);
      HandleKeepsFlag(directory, initial, log, s, next, place);
    }
  }

  lemma StepKeeps(directory: Directory, initial: Tables, log: seq<Record>, s: State, action: Action, next: State)
    requires Grounded(initial) && OrganizersSettled(directory, initial, log)
    requires Fits(directory, initial, log, s) && Step(directory, s, action, next) && next.log <= log
    ensures Fits(directory, initial, log, next)
  {
    if action.Interrupt? {
      InterruptKeeps(directory, initial, log, s, next);
    } else if action.HandleRecord? {
      // A join handles its group first, in a transaction of its own.
      var record := s.log[s.committed];
      var half := s.(tables := Grouped(directory, s.tables, record));
      InterruptKeeps(directory, initial, log, s, half);
      ApplyIsIdempotent(directory, s.tables, record);
      HandleKeeps(directory, initial, log, half, next);
    } else {
      forall a: nat ensures GroupFits(directory, initial, log, next.reached, next.tables, a) {
        assert GroupFits(directory, initial, log, s.reached, s.tables, a);
      }
      forall place: Place
        ensures RowFits(directory, initial, log, next.reached, next.tables, place)
        ensures FlagFits(directory, initial, log, Position(next), next.tables, place)
      {
        assert RowFits(directory, initial, log, s.reached, s.tables, place);
        assert FlagFits(directory, initial, log, Position(s), s.tables, place);
      }
    }
  }

  lemma InitialFits(directory: Directory, initial: Tables, log: seq<Record>, s: State)
    requires Grounded(initial) && s.log <= log && s == State(s.log, 0, false, 0, initial)
    ensures Fits(directory, initial, log, s)
  {
    assert log[..0] == [] && log[..|log|] == log;
    PrefixGrows(directory, initial, log, 0, |log|);
    forall a: nat ensures GroupFits(directory, initial, log, 0, initial, a) {}
    forall place: Place
      ensures RowFits(directory, initial, log, 0, initial, place)
      ensures FlagFits(directory, initial, log, 0, initial, place)
    {
      if place in initial.members { assert SameRow(initial, Pass(directory, initial, log), place); }
    }
  }

  lemma {:induction false} RunFits(directory: Directory, initial: Tables, states: seq<State>, k: nat, log: seq<Record>)
    requires Run(directory, initial, states, true) && k < |states| && states[k].log <= log
    requires Grounded(initial) && OrganizersSettled(directory, initial, log)
    ensures Fits(directory, initial, log, states[k])
  {
    if k == 0 {
      InitialFits(directory, initial, log, states[0]);
    } else {
      assert StepAt(directory, states, true, k);
      var action :| Step(directory, states[k - 1], action, states[k]);
      RunFits(directory, initial, states, k - 1, log);
      StepKeeps(directory, initial, log, states[k - 1], action, states[k]);
    }
  }

  /** The pass itself is one way to go through the log. */
  lemma {:induction false} PassFits(directory: Directory, initial: Tables, log: seq<Record>, n: nat)
    requires Grounded(initial) && OrganizersSettled(directory, initial, log) && n <= |log|
    ensures Fits(directory, initial, log, State(log, n, false, n, Prefix(directory, initial, log, n)))
  {
    if n == 0 {
      assert log[..0] == [];
      InitialFits(directory, initial, log, State(log, 0, false, 0, initial));
    } else {
      var s := State(log, n - 1, false, n - 1, Prefix(directory, initial, log, n - 1));
      var handled := State(log, n - 1, true, n, Prefix(directory, initial, log, n));
      PassFits(directory, initial, log, n - 1);
      PrefixStep(directory, initial, log, n - 1);
      StepKeeps(directory, initial, log, s, HandleRecord, handled);
      StepKeeps(directory, initial, log, handled, CommitRecord, handled.(committed := n, done := false));
    }
  }

  /** Tables that fit at the end of the log are those of the pass. */
  lemma FitsAtTheEnd(directory: Directory, initial: Tables, log: seq<Record>, s: State)
    requires Grounded(initial) && OrganizersSettled(directory, initial, log)
    requires Fits(directory, initial, log, s) && s.log == log && s.committed == |log|
    ensures s.tables == Pass(directory, initial, log)
  {
    var end, n := Pass(directory, initial, log), |log|;
    assert log[..n] == log;
    PassFits(directory, initial, log, n);
    var pass := State(log, n, false, n, end);
    assert Position(s) == Position(pass) == n;
    forall a: nat ensures a in s.tables.groups <==> a in end.groups {
      assert GroupFits(directory, initial, log, n, s.tables, a);
    }
    forall a | a in s.tables.groups ensures s.tables.groups[a] == end.groups[a] {
      assert GroupFits(directory, initial, log, n, s.tables, a);
    }
    forall place: Place
      ensures place in s.tables.members <==> place in end.members
      ensures place in s.tables.members ==> s.tables.members[place] == end.members[place]
    {
      assert RowFits(directory, initial, log, n, s.tables, place);
      assert FlagFits(directory, initial, log, Position(s), s.tables, place);
      assert FlagFits(directory, initial, log, Position(pass), end, place);
    }
    assert s.tables.groups == end.groups && s.tables.members == end.members;
  }

  /**
   When the organizers are settled, a consumer whose offset was set back, to any earlier record and
   any number of times, has the tables of a single pass once it has caught up.
   */
  lemma RewindsAreHarmless(directory: Directory, initial: Tables, states: seq<State>, k: nat)
    requires Run(directory, initial, states, true) && k < |states| && states[k].committed == |states[k].log|
    requires Grounded(initial) && OrganizersSettled(directory, initial, states[k].log)
    ensures states[k].tables == Pass(directory, initial, states[k].log)
  {
    RunFits(directory, initial, states, k, states[k].log);
    FitsAtTheEnd(directory, initial, states[k].log, states[k]);
  }

  // ----- when they are not settled -----

  /** The run that ends in `last`, one state longer. */
  lemma Extend(directory: Directory, initial: Tables, states: seq<State>, action: Action, next: State)
    requires Run(directory, initial, states, true) && Step(directory, states[|states| - 1], action, next)
    ensures Run(directory, initial, states + [next], true)
  {
    var more := states + [next];
    assert Reaches(directory, states[|states| - 1], next, true);
    forall n: nat ensures StepAt(directory, more, true, n) {
      assert StepAt(directory, states, true, n);
    }
  }

  lemma {:induction false} Published(directory: Directory, initial: Tables, log: seq<Record>)
    returns (states: seq<State>)
    ensures Run(directory, initial, states, true)
    ensures states[|states| - 1] == State(log, 0, false, 0, initial)
  {
    if log == [] {
      states := [State([], 0, false, 0, initial)];
      forall n: nat ensures StepAt(directory, states, true, n) {}
    } else {
      states := Published(directory, initial, log[..|log| - 1]);
      var next := State(log, 0, false, 0, initial);
      assert log == log[..|log| - 1] + [log[|log| - 1]];
      Extend(directory, initial, states, Publish(log[|log| - 1]), next);
      states := states + [next];
    }
  }

  /** From offset 0, the first n records handled and committed one by one. */
  lemma {:induction false} Consumed(directory: Directory, initial: Tables, states: seq<State>, n: nat)
    returns (more: seq<State>)
    requires Run(directory, initial, states, true)
    requires var s := states[|states| - 1]; s.committed == 0 && !s.done && n <= |s.log|
    ensures Run(directory, initial, more, true)
    ensures var s, end := states[|states| - 1], more[|more| - 1];
            end.log == s.log && end.committed == n && !end.done && end.tables == Prefix(directory, s.tables, s.log, n)
  {
    var s := states[|states| - 1];
    if n == 0 {
      more := states;
      assert s.log[..0] == [];
    } else {
      more := Consumed(directory, initial, states, n - 1);
      var last := more[|more| - 1];
      PrefixStep(directory, s.tables, s.log, n - 1);
      var handled := last.(tables := Prefix(directory, s.tables, s.log, n), done := true,
                           reached := if last.reached <= n - 1 then n else last.reached);
      Extend(directory, initial, more, HandleRecord, handled);
      more := more + [handled];
      var committed := handled.(committed := n, done := false);
      Extend(directory, initial, more, CommitRecord, committed);
      more := more + [committed];
    }
  }

  lemma {:induction false} NotCreatedBefore(directory: Directory, initial: Tables, log: seq<Record>, c: nat, n: nat)
    requires Grounded(initial) && Creates(directory, initial, log, c) && n <= c
    ensures log[c].activity !in Prefix(directory, initial, log, n).groups
  {
    if n > 0 {
      NotCreatedBefore(directory, initial, log, c, n - 1);
      PrefixStep(directory, initial, log, n - 1);
    }
  }

  /** The organizer of a group that record `c` created stays active while nothing says otherwise. */
  lemma {:induction false} StaysActive(directory: Directory, initial: Tables, log: seq<Record>, c: nat, n: nat)
    requires Grounded(initial) && Creates(directory, initial, log, c) && c < n <= |log|
    requires forall j | c <= j < |log| :: !Speaks(directory, log[j], OwnerPlace(directory, log[c].activity))
    ensures ActiveIn(Prefix(directory, initial, log, n), OwnerPlace(directory, log[c].activity))
    ensures log[c].activity in Prefix(directory, initial, log, n).groups
  {
    PrefixStep(directory, initial, log, n - 1);
    if n == c + 1 {
      NotCreatedBefore(directory, initial, log, c, c);
    } else {
      StaysActive(directory, initial, log, c, n - 1);
    }
  }

  lemma AllGroupsThere(directory: Directory, initial: Tables, log: seq<Record>)
    requires Grounded(initial)
    ensures GroupsThere(directory, Pass(directory, initial, log), log) && Grounded(Pass(directory, initial, log))
  {
    assert log[..|log|] == log;
    PrefixGrows(directory, initial, log, 0, |log|);
    forall i | 0 <= i < |log| && Joins(directory, log[i])
      ensures log[i].activity in Pass(directory, initial, log).groups
    {
      PrefixStep(directory, initial, log, i);
      PrefixGrows(directory, initial, log, i + 1, |log|);
    }
  }

  /** A run, rewinds included, that has handled and committed all of its log. */
  ghost predicate CaughtUpRun(directory: Directory, initial: Tables, states: seq<State>, log: seq<Record>) {
    && Run(directory, initial, states, true)
    && states[|states| - 1].log == log && states[|states| - 1].committed == |log|
  }

  /**
   When an organizer left before the group was created and said nothing since, one replay of the whole
   log leaves the organizer out of the group, where a single pass leaves the organizer in it.
   */
  lemma RewindsDoHarm(directory: Directory, initial: Tables, log: seq<Record>, c: nat) returns (states: seq<State>)
    requires Grounded(initial) && !SettledAt(directory, initial, log, c)
    ensures CaughtUpRun(directory, initial, states, log)
    ensures var owner := OwnerPlace(directory, log[c].activity);
            ActiveIn(Pass(directory, initial, log), owner) && !ActiveIn(states[|states| - 1].tables, owner)
  {
    var once, owner := Pass(directory, initial, log), OwnerPlace(directory, log[c].activity);
    assert log[..|log|] == log;
    states := Published(directory, initial, log);
    states := Consumed(directory, initial, states, |log|);
    var rewound := states[|states| - 1].(committed := 0, done := false);
    Extend(directory, initial, states, Rewind(0), rewound);
    states := Consumed(directory, initial, states + [rewound], |log|);
    StaysActive(directory, initial, log, c, |log|);
    AllGroupsThere(directory, initial, log);
    LastWordWins(directory, once, log, owner);
  }

  /** Every run that has caught up with the log has the tables of a single pass. */
  ghost predicate RewindsHarmless(directory: Directory, initial: Tables, log: seq<Record>) {
    forall states: seq<State> :: CaughtUpRun(directory, initial, states, log) ==>
                       states[|states| - 1].tables == Pass(directory, initial, log)
  }

  /**
   Exactly when rewinds are harmless: for each group the log creates, the organizer has no leave before
   the creating record, or a join or leave at or after it.
   */
  lemma RewindsAreHarmlessIff(directory: Directory, initial: Tables, log: seq<Record>)
    requires Grounded(initial)
    ensures RewindsHarmless(directory, initial, log) <==> OrganizersSettled(directory, initial, log)
  {
    if OrganizersSettled(directory, initial, log) {
      forall states: seq<State> | CaughtUpRun(directory, initial, states, log)
        ensures states[|states| - 1].tables == Pass(directory, initial, log)
      {
        RewindsAreHarmless(directory, initial, states, |states| - 1);
      }
    } else {
      var c: nat :| !SettledAt(directory, initial, log, c);
      var states := RewindsDoHarm(directory, initial, log, c);
    }
  }

  /** The shortest such case: the organizer's own registration is cancelled before anybody is approved. */
  lemma RewindBeforeGroupCreation(activity: nat, organizer: nat, user: nat) returns (states: seq<State>)
    requires organizer != user
    ensures var directory := Directory(map[activity := organizer], {organizer, user});
            var log := [Record(RegistrationCancelled, activity, organizer),
                        Record(RegistrationApproved, activity, user)];
            var initial := Tables(map[], map[]);
            && CaughtUpRun(directory, initial, states, log)
            && ActiveIn(Pass(directory, initial, log), Place(activity, organizer))
            && !ActiveIn(states[|states| - 1].tables, Place(activity, organizer))
  {
    var directory := Directory(map[activity := organizer], {organizer, user});
    var log := [Record(RegistrationCancelled, activity, organizer), Record(RegistrationApproved, activity, user)];
    assert Speaks(directory, log[0], Place(activity, organizer));
    states := RewindsDoHarm(directory, Tables(map[], map[]), log, 1);
  }
}
