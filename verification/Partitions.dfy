/**
 Registration events are partitioned by their registration, and one user can hold several registrations
 for an activity one after the other.  The partitions are handled side by side, so the words on one
 membership can be heard in another order than they were spoken in.
 */
module Partitions {
  import opened Events
  import opened Wrappers
  import opened ChatMembership

  /** A record with its partition key. */
  datatype Keyed = Keyed(registration: nat, record: Record)

  function Records(log: seq<Keyed>): seq<Record> {
    if log == [] then [] else Records(log[..|log| - 1]) + [log[|log| - 1].record]
  }

  /** The records that the layout puts into partition `p`, in order, or those that it puts elsewhere. */
  function Part(log: seq<Keyed>, layout: nat -> nat, p: nat, here: bool): seq<Keyed> {
    if log == [] then []
    else
      var rest, last := Part(log[..|log| - 1], layout, p, here), log[|log| - 1];
      if (layout(last.registration) == p) == here then rest + [last] else rest
  }

  /** The records of `s` in order, each handled at least once before the next one. */
  ghost predicate Repeats(handled: seq<Keyed>, s: seq<Keyed>) {
    if handled == [] || s == [] then handled == s
    else
      && handled[|handled| - 1] == s[|s| - 1]
      && (Repeats(handled[..|handled| - 1], s) || Repeats(handled[..|handled| - 1], s[..|s| - 1]))
  }

  /** One way to handle everything published: each partition in order, its records repeated after crashes. */
  ghost predicate Delivers(published: seq<Keyed>, layout: nat -> nat, handled: seq<Keyed>) {
    forall p: nat :: Repeats(Part(handled, layout, p, true), Part(published, layout, p, true))
  }

  function Word(directory: Directory, log: seq<Keyed>, place: Place): Option<bool> {
    LastWord(directory, Records(log), place)
  }

  lemma {:induction false} RepeatsItself(s: seq<Keyed>)
    ensures Repeats(s, s)
  {
    if s != [] { RepeatsItself(s[..|s| - 1]); }
  }

  lemma {:induction false} RepeatsKeepTheWord(directory: Directory, handled: seq<Keyed>, s: seq<Keyed>, place: Place)
    requires Repeats(handled, s)
    ensures Word(directory, handled, place) == Word(directory, s, place)
  {
    if handled != [] && s != [] {
      WordOfLast(directory, handled, place);
      WordOfLast(directory, s, place);
      if Repeats(handled[..|handled| - 1], s) {
        RepeatsKeepTheWord(directory, handled[..|handled| - 1], s, place);
      } else {
        RepeatsKeepTheWord(directory, handled[..|handled| - 1], s[..|s| - 1], place);
      }
    }
  }

  lemma WordOfLast(directory: Directory, log: seq<Keyed>, place: Place)
    requires log != []
    ensures var record := log[|log| - 1].record;
            Word(directory, log, place)
            == if Speaks(directory, record, place) then Some(ActionFor(record.eventType) == Join)
               else Word(directory, log[..|log| - 1], place)
  {
    var n := |log| - 1;
    assert Records(log)[..n] == Records(log[..n]) by { RecordsCount(log[..n]); }
    RecordsCount(log);
  }

  lemma {:induction false} RecordsCount(log: seq<Keyed>)
    ensures |Records(log)| == |log|
  {
    if log != [] { RecordsCount(log[..|log| - 1]); }
  }

  /** What is said later counts. */
  lemma {:induction false} WordOfBoth(directory: Directory, first: seq<Keyed>, second: seq<Keyed>, place: Place)
    ensures Word(directory, first + second, place)
            == if Word(directory, second, place).Some? then Word(directory, second, place)
               else Word(directory, first, place)
  {
    if second == [] {
      assert first + second == first;
    } else {
      var n := |second| - 1;
      assert (first + second)[..|first| + n] == first + second[..n] && (first + second)[|first| + n] == second[n];
      WordOfBoth(directory, first, second[..n], place);
      WordOfLast(directory, first + second, place);
      WordOfLast(directory, second, place);
    }
  }

  /** The last word of the whole log is the last word of its partition. */
  lemma {:induction false} SpokenInAPartition(directory: Directory, log: seq<Keyed>, layout: nat -> nat, place: Place)
    returns (p: nat)
    ensures Word(directory, Part(log, layout, p, true), place) == Word(directory, log, place)
  {
    p := 0;
    if log != [] {
      var rest, last := log[..|log| - 1], log[|log| - 1];
      WordOfLast(directory, log, place);
      if Speaks(directory, last.record, place) {
        p := layout(last.registration);
        WordOfLast(directory, Part(log, layout, p, true), place);
      } else {
        p := SpokenInAPartition(directory, rest, layout, place);
        if layout(last.registration) == p { WordOfLast(directory, Part(log, layout, p, true), place); }
      }
    }
  }

  /** Where a partition speaks, the whole log does. */
  lemma {:induction false} PartitionsAreHeard(directory: Directory, log: seq<Keyed>, layout: nat -> nat, place: Place,
                                              p: nat)
    ensures Word(directory, Part(log, layout, p, true), place).Some? ==> Word(directory, log, place).Some?
  {
    if log != [] {
      PartitionsAreHeard(directory, log[..|log| - 1], layout, place, p);
      WordOfLast(directory, log, place);
      if layout(log[|log| - 1].registration) == p { WordOfLast(directory, Part(log, layout, p, true), place); }
    }
  }

  lemma {:induction false} PartOfBoth(first: seq<Keyed>, second: seq<Keyed>, layout: nat -> nat, p: nat)
    ensures Part(first + second, layout, p, true) == Part(first, layout, p, true) + Part(second, layout, p, true)
  {
    if second == [] {
      assert first + second == first;
    } else {
      var n := |second| - 1;
      assert (first + second)[..|first| + n] == first + second[..n];
      PartOfBoth(first, second[..n], layout, p);
    }
  }

  lemma {:induction false} PartOfPart(log: seq<Keyed>, layout: nat -> nat, p: nat, here: bool, q: nat)
    ensures Part(Part(log, layout, p, here), layout, q, true)
            == if (q == p) == here then Part(log, layout, q, true) else []
  {
    if log != [] {
      var rest := Part(log[..|log| - 1], layout, p, here);
      PartOfPart(log[..|log| - 1], layout, p, here, q);
      if (layout(log[|log| - 1].registration) == p) == here {
        assert Part(log, layout, p, here)[..|rest|] == rest;
      }
    }
  }

  /** Everything else first, then partition `p`. */
  lemma PartitionLast(published: seq<Keyed>, layout: nat -> nat, p: nat) returns (handled: seq<Keyed>)
    ensures Delivers(published, layout, handled)
    ensures handled == Part(published, layout, p, false) + Part(published, layout, p, true)
  {
    handled := Part(published, layout, p, false) + Part(published, layout, p, true);
    forall q: nat ensures Repeats(Part(handled, layout, q, true), Part(published, layout, q, true)) {
      PartOfBoth(Part(published, layout, p, false), Part(published, layout, p, true), layout, q);
      PartOfPart(published, layout, p, false, q);
      PartOfPart(published, layout, p, true, q);
      assert Part(handled, layout, q, true) == Part(published, layout, q, true);
      RepeatsItself(Part(published, layout, q, true));
    }
  }

  lemma {:induction false} RecordAt(log: seq<Keyed>, i: nat)
    requires i < |log|
    ensures |Records(log)| == |log| && Records(log)[i] == log[i].record
  {
    RecordsCount(log);
    RecordsCount(log[..|log| - 1]);
    if i < |log| - 1 { RecordAt(log[..|log| - 1], i); }
  }

  lemma {:induction false} RepeatsAreOfTheLog(handled: seq<Keyed>, s: seq<Keyed>, keyed: Keyed)
    requires Repeats(handled, s) && keyed in handled
    ensures keyed in s
  {
    var n := |handled| - 1;
    if keyed != handled[n] {
      assert keyed in handled[..n];
      if Repeats(handled[..n], s) {
        RepeatsAreOfTheLog(handled[..n], s, keyed);
      } else {
        RepeatsAreOfTheLog(handled[..n], s[..|s| - 1], keyed);
      }
    }
  }

  lemma {:induction false} PartHolds(log: seq<Keyed>, layout: nat -> nat, p: nat, keyed: Keyed)
    ensures keyed in Part(log, layout, p, true) <==> keyed in log && layout(keyed.registration) == p
  {
    if log != [] {
      var n := |log| - 1;
      PartHolds(log[..n], layout, p, keyed);
      assert log == log[..n] + [log[n]];
    }
  }

  /** Nothing is handled that was not published, so groups that are there for the one are for the other. */
  lemma GroupsStillThere(directory: Directory, t: Tables, published: seq<Keyed>, layout: nat -> nat,
                         handled: seq<Keyed>)
    requires Delivers(published, layout, handled) && GroupsThere(directory, t, Records(published))
    ensures GroupsThere(directory, t, Records(handled))
  {
    RecordsCount(handled);
    forall i | 0 <= i < |handled| && Joins(directory, Records(handled)[i])
      ensures Records(handled)[i].activity in t.groups
    {
      var p := layout(handled[i].registration);
      RecordAt(handled, i);
      PartHolds(handled, layout, p, handled[i]);
      RepeatsAreOfTheLog(Part(handled, layout, p, true), Part(published, layout, p, true), handled[i]);
      PartHolds(published, layout, p, handled[i]);
      var j :| 0 <= j < |published| && published[j] == handled[i];
      RecordAt(published, j);
    }
  }

  /** However the partitions are handled, the place ends as if everything was handled as published. */
  ghost predicate OrderIsIrrelevant(directory: Directory, t: Tables, published: seq<Keyed>, layout: nat -> nat,
                                    place: Place)
  {
    forall handled :: Delivers(published, layout, handled) ==>
                        (ActiveIn(Pass(directory, t, Records(handled)), place)
                         <==> ActiveIn(Pass(directory, t, Records(published)), place))
  }

  /** A partition that has a word on the place ends with the last word of all. */
  ghost predicate Concurs(directory: Directory, published: seq<Keyed>, layout: nat -> nat, place: Place, p: nat) {
    var word := Word(directory, Part(published, layout, p, true), place);
    word.Some? ==> word == Word(directory, published, place)
  }

  /**
   Membership follows the published order in every order of handling exactly when each partition that
   has a join or leave of the place ends with the same one as the whole.  The organizer's own place is
   included if the group is there before it is needed.
   */
  lemma MembershipAgreesIff(directory: Directory, t: Tables, published: seq<Keyed>, layout: nat -> nat, place: Place)
    requires Grounded(t) && (NewOwner(directory, t, place) ==> GroupsThere(directory, t, Records(published)))
    ensures OrderIsIrrelevant(directory, t, published, layout, place)
            <==> forall p: nat :: Concurs(directory, published, layout, place, p)
  {
    LastWordWins(directory, t, Records(published), place);
    if forall p: nat :: Concurs(directory, published, layout, place, p) {
      forall handled | Delivers(published, layout, handled)
        ensures ActiveIn(Pass(directory, t, Records(handled)), place)
                == ActiveIn(Pass(directory, t, Records(published)), place)
      {
        if NewOwner(directory, t, place) { GroupsStillThere(directory, t, published, layout, handled); }
        LastWordWins(directory, t, Records(handled), place);
        WordsAgree(directory, published, layout, handled, place);
      }
    } else {
      var p: nat :| !Concurs(directory, published, layout, place, p);
      var handled := PartitionLast(published, layout, p);
      PartitionsAreHeard(directory, published, layout, place, p);
      WordOfBoth(directory, Part(published, layout, p, false), Part(published, layout, p, true), place);
      if NewOwner(directory, t, place) { GroupsStillThere(directory, t, published, layout, handled); }
      LastWordWins(directory, t, Records(handled), place);
    }
  }

  lemma WordsAgree(directory: Directory, published: seq<Keyed>, layout: nat -> nat, handled: seq<Keyed>, place: Place)
    requires Delivers(published, layout, handled)
    requires forall p: nat :: Concurs(directory, published, layout, place, p)
    ensures Word(directory, handled, place) == Word(directory, published, place)
  {
    var h := SpokenInAPartition(directory, handled, layout, place);
    var p := SpokenInAPartition(directory, published, layout, place);
    RepeatsKeepTheWord(directory, Part(handled, layout, h, true), Part(published, layout, h, true), place);
    RepeatsKeepTheWord(directory, Part(handled, layout, p, true), Part(published, layout, p, true), place);
    PartitionsAreHeard(directory, handled, layout, place, p);
    assert Concurs(directory, published, layout, place, h);
  }

  lemma {:induction false} AllInOne(log: seq<Keyed>, layout: nat -> nat, p: nat)
    requires forall keyed <- log :: layout(keyed.registration) == p
    ensures Part(log, layout, p, true) == log
  {
    if log != [] { AllInOne(log[..|log| - 1], layout, p); }
  }

  /**
   A user cancels one registration and has another approved.  When the two are in different partitions,
   the user may end outside the group although the published order ends with the approval.
   */
  lemma ApprovedYetOutside(directory: Directory, t: Tables, layout: nat -> nat, place: Place, cancelled: nat,
                           approved: nat)
    returns (published: seq<Keyed>, handled: seq<Keyed>)
    requires Grounded(t) && !NewOwner(directory, t, place)
    requires place.user in directory.users && place.activity in directory.organizers
    requires layout(cancelled) != layout(approved)
    ensures published == [
              Keyed(cancelled, Record(RegistrationApproved, place.activity, place.user)),
              Keyed(cancelled, Record(RegistrationCancelled, place.activity, place.user)),
              Keyed(approved, Record(RegistrationApproved, place.activity, place.user))]
    ensures Delivers(published, layout, handled)
    ensures ActiveIn(Pass(directory, t, Records(published)), place)
    ensures !ActiveIn(Pass(directory, t, Records(handled)), place)
  {
    var joins := Record(RegistrationApproved, place.activity, place.user);
    var leaves := Record(RegistrationCancelled, place.activity, place.user);
    var first := [Keyed(cancelled, joins), Keyed(cancelled, leaves)];
    published := first + [Keyed(approved, joins)];
    assert published[..2] == first;
    WordOfLast(directory, published, place);
    WordOfLast(directory, first, place);
    AllInOne(first, layout, layout(cancelled));
    assert !Concurs(directory, published, layout, place, layout(cancelled));
    LastWordWins(directory, t, Records(published), place);
    MembershipAgreesIff(directory, t, published, layout, place);
    handled :| Delivers(published, layout, handled)
               && ActiveIn(Pass(directory, t, Records(handled)), place)
                  != ActiveIn(Pass(directory, t, Records(published)), place);
  }
}
