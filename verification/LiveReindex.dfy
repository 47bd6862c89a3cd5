/**
 The online reindex as a protocol: services commit to the table, the live indexer writes what it
 read at any earlier moment through the alias, and one reindex run builds an index, verifies it,
 switches the alias and compensates.  A step of any of them may come between any two of another.
 */
module LiveReindex {
  import opened Wrappers
  import opened Search

  type Name = nat

  /**
   Where the reindex run is.  A scan knows the table at its start, its cursor, and the rest of the
   batch it read together with the table it read it from.
   */
  datatype Phase =
    | Idle
    | Scanning(compensating: bool, start: Table, after: Id, read: Table, batch: seq<Id>, count: nat, samples: seq<Id>)
    | Built(start: Table, count: nat, samples: seq<Id>)
    | Verified(start: Table)
    | Switched
    | Done(start: Table)
    | Failed

  /** `built` is the table when the build began, once the alias points to what was built. */
  datatype State = State(
    table: Table,
    indices: map<Name, Index>,
    alias: Name,
    target: Name,
    phase: Phase,
    built: Option<Table>)

  datatype Action =
    | CommitRows(table: Table)
    | LiveIndex(id: Id, version: nat)
    | Create
    | ReadBatch(limit: nat, ids: seq<Id>)
    | IndexNext
    | Verify
    | SwitchAlias
    | Compensate
    | Abort

  // ----- the table -----

  ghost predicate RowLater(was: Table, now: Table, id: Id) {
    id in was ==> id in now && now[id].deleted == was[id].deleted && was[id].version <= now[id].version
  }

  /** Rows are added and updated, never removed; every update raises the version. */
  ghost predicate TableLater(was: Table, now: Table) {
    0 !in now && forall id: Id :: RowLater(was, now, id)
  }

  lemma TableLaterTransitive(x: Table, y: Table, z: Table)
    requires TableLater(x, y) && TableLater(y, z)
    ensures TableLater(x, z)
  {
    forall id: Id ensures RowLater(x, z, id) { assert RowLater(x, y, id) && RowLater(y, z, id); }
  }

  // ----- the steps -----

  /** The index a scan writes to. */
  function Destination(s: State): Name {
    if s.phase.Scanning? && s.phase.compensating then s.alias else s.target
  }

  function Stored(index: Index, id: Id, version: nat): Index {
    var put := Put(index, id, version);
    if put.Some? then put.value else index
  }

  ghost predicate Step(s: State, action: Action, next: State) {
    match action
    case CommitRows(table) => TableLater(s.table, table) && next == s.(table := table)
    case LiveIndex(id, version) =>
      id in s.table && version <= s.table[id].version && s.alias in s.indices
      && next == s.(indices := s.indices[s.alias := Stored(s.indices[s.alias], id, version)])
    case Create =>
      s.phase.Idle?
      && next == s.(indices := if s.target in s.indices then s.indices else s.indices[s.target := map[]],
                    phase := Scanning(false, s.table, 0, s.table, [], 0, []))
    case ReadBatch(limit, ids) =>
      s.phase.Scanning? && s.phase.batch == [] && limit > 0 && Batch(s.table, s.phase.after, limit, ids)
      && next == s.(phase :=
           if ids != [] then s.phase.(read := s.table, batch := ids)
           else if s.phase.compensating then Done(s.phase.start)
           else Built(s.phase.start, s.phase.count, s.phase.samples))
    case IndexNext =>
      s.phase.Scanning? && s.phase.batch != [] && s.phase.batch[0] in s.phase.read && Destination(s) in s.indices
      && var id := s.phase.batch[0];
      var put := Put(s.indices[Destination(s)], id, s.phase.read[id].version);
      next == if put.None? then s.(phase := Failed)
              else s.(indices := s.indices[Destination(s) := put.value],
                      phase := s.phase.(after := id, batch := s.phase.batch[1..], count := s.phase.count + 1,
                                        samples := if |s.phase.samples| < 3 then s.phase.samples + [id]
                                                   else s.phase.samples))
    case Verify =>
      s.phase.Built? && s.target in s.indices
      && next == s.(phase :=
           if |s.indices[s.target]| == s.phase.count && forall id <- s.phase.samples :: id in s.indices[s.target]
           then Verified(s.phase.start) else Failed)
    case SwitchAlias =>
      s.phase.Verified? && next == s.(alias := s.target, phase := Switched, built := Some(s.phase.start))
    case Compensate => s.phase.Switched? && next == s.(phase := Scanning(true, s.table, 0, s.table, [], 0, []))
    case Abort => next == s.(phase := Failed)
  }

  /** Any table, an aliased index that shows only rows of the table, and possibly leftover indices. */
  ghost predicate Initial(s: State) {
    && 0 !in s.table && s.alias in s.indices && s.phase == Idle && s.built == None
    && forall name: Name, id: Id :: DocAt(s, name, id)
  }

  // ----- the invariant -----

  /** A document shows a version its row has or had. */
  ghost predicate DocAt(s: State, name: Name, id: Id) {
    name in s.indices && id in s.indices[name] ==>
      && id in s.table && s.indices[name][id].version <= s.table[id].version
      && s.indices[name][id] == DocOf(s.indices[name][id].version)
  }

  /** The index has `id`, no older than it was in `start`. */
  ghost predicate CoveredAt(index: Index, start: Table, id: Id) {
    Live(start, id) ==> id in index && index[id].external >= External(start[id].version)
  }

  ghost predicate Covers(index: Index, start: Table) {
    forall id: Id :: CoveredAt(index, start, id)
  }

  /** What the cursor has passed is covered, and what it has not is in the batch or beyond it. */
  ghost predicate ScannedAt(index: Index, phase: Phase, id: Id)
  {
    phase.Scanning? && Live(phase.start, id) ==>
      && (id <= phase.after ==> CoveredAt(index, phase.start, id))
      && (id > phase.after && phase.batch != [] ==> id in phase.batch || id > phase.batch[|phase.batch| - 1])
  }

  ghost predicate ScanOk(s: State) {
    var phase := s.phase;
    && phase.Scanning? && Destination(s) in s.indices && (phase.compensating ==> s.alias == s.target)
    && TableLater(phase.start, phase.read) && TableLater(phase.read, s.table)
    && Ascending(phase.batch) && (forall id <- phase.batch :: id in phase.read && id > phase.after)
    && (forall id: Id :: ScannedAt(s.indices[Destination(s)], phase, id))
  }

  ghost predicate Inv(s: State) {
    && 0 !in s.table && s.alias in s.indices
    && (forall name: Name, id: Id :: DocAt(s, name, id))
    && (s.built.Some? ==> s.alias == s.target && Covers(s.indices[s.alias], s.built.value))
    && match s.phase
       case Idle => s.built.None?
       case Scanning(compensating, _, _, _, _, _, _) => ScanOk(s) && (s.built.Some? <==> compensating)
       case Built(start, _, _) => s.target in s.indices && Covers(s.indices[s.target], start) && s.built.None?
       case Verified(start) => s.target in s.indices && Covers(s.indices[s.target], start) && s.built.None?
       case Switched => s.built.Some?
       case Done(start) => Covers(s.indices[s.alias], start) && s.built.Some?
       case Failed => true
  }

  /** Documents stay, and their external versions never decrease. */
  ghost predicate DocLater(was: Index, now: Index, id: Id) {
    id in was ==> id in now && was[id].external <= now[id].external
  }

  ghost predicate IndexLater(was: Index, now: Index) {
    forall id: Id :: DocLater(was, now, id)
  }

  ghost predicate IndicesLater(s: State, next: State) {
    forall name: Name :: name in s.indices ==> name in next.indices && IndexLater(s.indices[name], next.indices[name])
  }

  // ----- every step keeps it -----

  lemma StoredLater(index: Index, id: Id, version: nat)
    ensures IndexLater(index, Stored(index, id, version))
  {
    forall other: Id ensures DocLater(index, Stored(index, id, version), other) {}
  }

  lemma CoversLater(was: Index, now: Index, start: Table)
    requires Covers(was, start) && IndexLater(was, now)
    ensures Covers(now, start)
  {
    forall id: Id ensures CoveredAt(now, start, id) { assert CoveredAt(was, start, id) && DocLater(was, now, id); }
  }

  /** A scan's progress survives later documents in its index. */
  lemma ScanLater(was: Index, now: Index, phase: Phase)
    requires phase.Scanning? && IndexLater(was, now)
    requires forall id: Id :: ScannedAt(was, phase, id)
    ensures forall id: Id :: ScannedAt(now, phase, id)
  {
    forall id: Id ensures ScannedAt(now, phase, id) {
      assert ScannedAt(was, phase, id) && DocLater(was, now, id);
    }
  }

  lemma StepIndicesLater(s: State, action: Action, next: State)
    requires Step(s, action, next)
    ensures IndicesLater(s, next)
  {
    if action.LiveIndex? {
      StoredLater(s.indices[s.alias], action.id, action.version);
    } else if action.IndexNext? {
      StoredLater(s.indices[Destination(s)], s.phase.batch[0], s.phase.read[s.phase.batch[0]].version);
    }
    forall name: Name | name in s.indices
      ensures name in next.indices && IndexLater(s.indices[name], next.indices[name])
    {
      if next.indices[name] == s.indices[name] {
        forall id: Id ensures DocLater(s.indices[name], next.indices[name], id) {}
      }
    }
  }

  lemma CommitRowsKeeps(s: State, table: Table, next: State)
    requires Inv(s) && Step(s, CommitRows(table), next)
    ensures Inv(next)
  {
    forall name: Name, id: Id ensures DocAt(next, name, id) {
      assert DocAt(s, name, id) && RowLater(s.table, table, id);
    }
    if s.phase.Scanning? { TableLaterTransitive(s.phase.read, s.table, table); }
  }

  lemma LiveIndexKeeps(s: State, id: Id, version: nat, next: State)
    requires Inv(s) && Step(s, LiveIndex(id, version), next)
    ensures Inv(next)
  {
    StoredLater(s.indices[s.alias], id, version);
    forall name: Name, other: Id ensures DocAt(next, name, other) { assert DocAt(s, name, other); }
    var was, now := s.indices[s.alias], next.indices[s.alias];
    if s.built.Some? { CoversLater(was, now, s.built.value); }
    match s.phase
    case Scanning(_, _, _, _, _, _, _) => if Destination(s) == s.alias { ScanLater(was, now, s.phase); }
    case Built(start, _, _) => if s.target == s.alias { CoversLater(was, now, start); }
    case Verified(start) => if s.target == s.alias { CoversLater(was, now, start); }
    case Done(start) => CoversLater(was, now, start);
    case _ =>
  }

  /** The steps that store no document and read no row. */
  lemma PhaseKeeps(s: State, action: Action, next: State)
    requires Inv(s) && Step(s, action, next)
    requires || action.Create? || action.Compensate? || action.Verify? || action.SwitchAlias? || action.Abort?
             || (action.IndexNext? && next.phase.Failed?)
    ensures Inv(next)
  {
    forall name: Name, id: Id ensures DocAt(next, name, id) { assert DocAt(s, name, id); }
    forall id: Id ensures RowLater(s.table, s.table, id) {}
    if action.Create? || action.Compensate? {
      assert ScanOk(next) by {
        forall id: Id ensures ScannedAt(next.indices[Destination(next)], next.phase, id) {}
      }
    }
  }

  lemma ReadBatchKeeps(s: State, limit: nat, ids: seq<Id>, next: State)
    requires Inv(s) && Step(s, ReadBatch(limit, ids), next)
    ensures Inv(next)
  {
    var phase, index := s.phase, s.indices[Destination(s)];
    forall name: Name, id: Id ensures DocAt(next, name, id) { assert DocAt(s, name, id); }
    TableLaterTransitive(phase.start, phase.read, s.table);
    forall id: Id ensures RowLater(s.table, s.table, id) {}
    forall id: Id ensures Live(phase.start, id) ==> Live(s.table, id) && RowLater(phase.start, s.table, id) {
      assert RowLater(phase.start, s.table, id);
    }
    if ids == [] {
      forall id: Id ensures CoveredAt(index, phase.start, id) { assert ScannedAt(index, phase, id); }
    } else {
      assert ids[|ids| - 1] in ids;
      forall id: Id ensures ScannedAt(index, next.phase, id) { assert ScannedAt(index, phase, id); }
    }
  }

  lemma IndexNextKeeps(s: State, next: State)
    requires Inv(s) && Step(s, IndexNext, next) && !next.phase.Failed?
    ensures Inv(next)
  {
    var phase, was := s.phase, s.indices[Destination(s)];
    var id, now := phase.batch[0], next.indices[Destination(s)];
    var version := phase.read[id].version;
    StoredLater(was, id, version);
    forall name: Name, other: Id ensures DocAt(next, name, other) {
      assert DocAt(s, name, other) && RowLater(phase.read, s.table, id);
    }
    if s.built.Some? { CoversLater(was, now, s.built.value); }
    ScanLater(was, now, phase);
    forall other: Id ensures ScannedAt(now, next.phase, other) {
      assert ScannedAt(now, phase, other) && RowLater(phase.start, phase.read, id);
      if other in phase.batch {
        var i :| 0 <= i < |phase.batch| && phase.batch[i] == other;
        if i > 0 { assert phase.batch[1..][i - 1] == other; }
      }
    }
    assert forall other <- phase.batch[1..] :: other in phase.batch;
    assert forall i | 0 <= i < |phase.batch| - 1 :: phase.batch[1..][i] == phase.batch[i + 1];
  }

  // ----- runs -----

  ghost predicate Reaches(s: State, next: State) {
    exists action :: Step(s, action, next)
  }

  ghost predicate StepAt(states: seq<State>, n: nat) {
    0 < n < |states| ==> Reaches(states[n - 1], states[n])
  }

  ghost predicate Run(states: seq<State>) {
    |states| > 0 && Initial(states[0]) && forall n: nat :: StepAt(states, n)
  }

  /** Every step of the run, the live indexer and the services keeps the invariant. */
  lemma ReachesKeeps(s: State, next: State)
    requires Inv(s) && Reaches(s, next)
    ensures Inv(next) && IndicesLater(s, next)
  {
    var action :| Step(s, action, next);
    StepIndicesLater(s, action, next);
    match action
    case CommitRows(table) => CommitRowsKeeps(s, table, next);
    case LiveIndex(id, version) => LiveIndexKeeps(s, id, version, next);
    case Create => PhaseKeeps(s, action, next);
    case Compensate => PhaseKeeps(s, action, next);
    case ReadBatch(limit, ids) => ReadBatchKeeps(s, limit, ids, next);
    case IndexNext => if next.phase.Failed? { PhaseKeeps(s, action, next); } else { IndexNextKeeps(s, next); }
    case Verify => PhaseKeeps(s, action, next);
    case SwitchAlias => PhaseKeeps(s, action, next);
    case Abort => PhaseKeeps(s, action, next);
  }

  lemma {:induction false} RunIsSound(states: seq<State>, k: nat)
    requires Run(states) && k < |states|
    ensures Inv(states[k])
  {
    if k > 0 {
      RunIsSound(states, k - 1);
      assert StepAt(states, k);
      ReachesKeeps(states[k - 1], states[k]);
    }
  }

  // ----- what a reindex promises -----

  /**
   When the reindex succeeds, every activity that was in the table when compensation began is in the
   aliased index, at no older version than it had then, whatever was written around the switch.
   */
  lemma NothingIsMissing(states: seq<State>, k: nat, id: Id)
    requires Run(states) && k < |states| && states[k].phase.Done? && Live(states[k].phase.start, id)
    ensures var s := states[k];
            && s.alias == s.target && s.alias in s.indices && id in s.indices[s.alias]
            && s.indices[s.alias][id].external >= External(s.phase.start[id].version)
  {
    RunIsSound(states, k);
    assert CoveredAt(states[k].indices[states[k].alias], states[k].phase.start, id);
  }

  /** From the moment of the switch on, even if compensation fails, nothing the build saw is missing. */
  lemma NothingIsMissingFromTheSwitchOn(states: seq<State>, k: nat, id: Id)
    requires Run(states) && k < |states| && states[k].built.Some? && Live(states[k].built.value, id)
    ensures var s := states[k];
            && s.alias == s.target && s.alias in s.indices && id in s.indices[s.alias]
            && s.indices[s.alias][id].external >= External(s.built.value[id].version)
  {
    RunIsSound(states, k);
    assert CoveredAt(states[k].indices[states[k].alias], states[k].built.value, id);
  }

  /** Over any stretch of a run, documents stay and their external versions never decrease. */
  lemma {:induction false} DocumentsNeverGoBack(states: seq<State>, i: nat, j: nat, name: Name, id: Id)
    requires Run(states) && i <= j < |states|
    requires name in states[i].indices && id in states[i].indices[name]
    ensures name in states[j].indices && id in states[j].indices[name]
    ensures states[i].indices[name][id].external <= states[j].indices[name][id].external
  {
    if i < j {
      DocumentsNeverGoBack(states, i, j - 1, name, id);
      RunIsSound(states, j - 1);
      assert StepAt(states, j);
      ReachesKeeps(states[j - 1], states[j]);
      assert DocLater(states[j - 1].indices[name], states[j].indices[name], id);
    }
  }

  /**
   No index is ahead of the table, so a writer that was refused succeeds once it has reloaded the
   row, in whichever index it writes to.
   */
  lemma FreshWritesAreAccepted(states: seq<State>, k: nat, name: Name, id: Id)
    requires Run(states) && k < |states| && name in states[k].indices && id in states[k].table
    ensures Accepts(states[k].indices[name], id, states[k].table[id].version)
    ensures id in states[k].indices[name] ==> states[k].indices[name][id].version <= states[k].table[id].version
  {
    RunIsSound(states, k);
    assert DocAt(states[k], name, id);
  }

  /** Within one index, a public version of an activity never gives way to an older one. */
  lemma PublicDocumentsNeverGoBack(states: seq<State>, i: nat, j: nat, name: Name, id: Id)
    requires Run(states) && i <= j < |states|
    requires name in states[i].indices && id in states[i].indices[name] && states[i].indices[name][id].version >= 2
    ensures name in states[j].indices && id in states[j].indices[name]
    ensures states[i].indices[name][id].version <= states[j].indices[name][id].version
  {
    DocumentsNeverGoBack(states, i, j, name, id);
    RunIsSound(states, i);
    RunIsSound(states, j);
    assert DocAt(states[i], name, id) && DocAt(states[j], name, id);
  }

  // ----- what search shows -----

  /** The index that search reads. */
  function Shown(s: State): Index {
    if s.alias in s.indices then s.indices[s.alias] else map[]
  }

  /** What search shows of a public activity is older later on, or gone. */
  ghost predicate SetBack(s: State, later: State, id: Id) {
    && id in Shown(s) && Shown(s)[id].version >= 2
    && (id in Shown(later) ==> Shown(later)[id].version < Shown(s)[id].version)
  }

  /** An alias that differs was switched in between. */
  lemma {:induction false} AliasMoves(states: seq<State>, i: nat, j: nat) returns (m: nat)
    requires Run(states) && i <= j < |states| && states[i].alias != states[j].alias
    ensures i <= m < j && Step(states[m], SwitchAlias, states[m + 1]) && states[m].alias != states[m + 1].alias
  {
    if states[j - 1].alias == states[j].alias {
      m := AliasMoves(states, i, j - 1);
    } else {
      m := j - 1;
      assert StepAt(states, j);
      var action :| Step(states[m], action, states[m + 1]);
      assert action == SwitchAlias;
    }
  }

  /**
   As long as the alias stays, what search shows of a public activity never gets older: only a switch
   of the alias sets it back.
   */
  lemma OnlyTheSwitchSetsBack(states: seq<State>, i: nat, j: nat, id: Id) returns (m: nat)
    requires Run(states) && i <= j < |states| && SetBack(states[i], states[j], id)
    ensures states[i].alias != states[j].alias
    ensures i <= m < j && Step(states[m], SwitchAlias, states[m + 1]) && states[m].alias != states[m + 1].alias
  {
    RunIsSound(states, i);
    if states[i].alias == states[j].alias {
      PublicDocumentsNeverGoBack(states, i, j, states[i].alias, id);
    }
    m := AliasMoves(states, i, j);
  }

  /** The switch sets back only activities that were new or changed since the build began. */
  lemma TheSwitchSetsBackWhatChanged(states: seq<State>, m: nat, id: Id)
    requires Run(states) && m + 1 < |states| && Step(states[m], SwitchAlias, states[m + 1])
    requires SetBack(states[m], states[m + 1], id)
    ensures states[m].alias != states[m].target && id in states[m].table && states[m + 1].built.Some?
    ensures var built := states[m + 1].built.value;
            Live(built, id) ==> built[id].version < Shown(states[m])[id].version <= states[m].table[id].version
  {
    var s, next := states[m], states[m + 1];
    RunIsSound(states, m);
    RunIsSound(states, m + 1);
    assert DocAt(s, s.alias, id) && DocAt(next, next.alias, id);
    if Live(next.built.value, id) { NothingIsMissingFromTheSwitchOn(states, m + 1, id); }
  }

  /** The run has not begun to compensate. */
  predicate BeforeCompensation(phase: Phase) {
    !phase.Done? && (phase.Scanning? ==> !phase.compensating)
  }

  /** Compensation starts from a table no older than any before it. */
  lemma {:induction false} CompensationStartsLater(states: seq<State>, j: nat, k: nat)
    requires Run(states) && j <= k < |states| && BeforeCompensation(states[j].phase)
    ensures TableLater(states[j].table, states[k].table)
    ensures var phase := states[k].phase;
            !BeforeCompensation(phase) ==> TableLater(states[j].table, phase.start)
  {
    if j == k {
      RunIsSound(states, j);
      forall id: Id ensures RowLater(states[j].table, states[j].table, id) {}
    } else {
      CompensationStartsLater(states, j, k - 1);
      assert StepAt(states, k);
      var action :| Step(states[k - 1], action, states[k]);
      if action.CommitRows? { TableLaterTransitive(states[j].table, states[k - 1].table, states[k].table); }
    }
  }

  /**
   When the reindex succeeds, search shows every live activity at least as new as it was ever shown
   before compensation began, through whichever index the alias named then.
   */
  lemma CompensationUndoesTheSetback(states: seq<State>, j: nat, k: nat, id: Id)
    requires Run(states) && j <= k < |states| && BeforeCompensation(states[j].phase) && states[k].phase.Done?
    requires id in Shown(states[j]) && Live(states[k].phase.start, id)
    ensures id in Shown(states[k]) && Shown(states[k])[id].external >= Shown(states[j])[id].external
    ensures !SetBack(states[j], states[k], id)
  {
    CompensationStartsLater(states, j, k);
    NothingIsMissing(states, k, id);
    RunIsSound(states, j);
    RunIsSound(states, k);
    assert DocAt(states[j], states[j].alias, id) && DocAt(states[k], states[k].alias, id);
    assert RowLater(states[j].table, states[k].phase.start, id);
  }

  // ----- runs that show the limits -----

  /**
   A reindex of one activity that was at version 2 when the build read it.  Before the build ends the
   row moves to version 3, and the live indexer puts that into the index search still reads.
   */
  function Setback(n: nat): State {
    var before, after: Table := map[1 := Row(2, false)], map[1 := Row(3, false)];
    var none, two, three: Index := map[], map[1 := DocOf(2)], map[1 := DocOf(3)];
    match n
    case 0 => State(before, map[0 := two], 0, 9, Idle, None)
    case 1 => State(before, map[0 := two, 9 := none], 0, 9, Scanning(false, before, 0, before, [], 0, []), None)
    case 2 => State(before, map[0 := two, 9 := none], 0, 9, Scanning(false, before, 0, before, [1], 0, []), None)
    case 3 => State(before, map[0 := two, 9 := two], 0, 9, Scanning(false, before, 1, before, [], 1, [1]), None)
    case 4 => State(after, map[0 := two, 9 := two], 0, 9, Scanning(false, before, 1, before, [], 1, [1]), None)
    case 5 => State(after, map[0 := three, 9 := two], 0, 9, Scanning(false, before, 1, before, [], 1, [1]), None)
    case 6 => State(after, map[0 := three, 9 := two], 0, 9, Built(before, 1, [1]), None)
    case 7 => State(after, map[0 := three, 9 := two], 0, 9, Verified(before), None)
    case _ => State(after, map[0 := three, 9 := two], 9, 9, Switched, Some(before))
  }

  lemma SetbackBuilds()
    ensures forall n | 0 < n < 4 :: Reaches(Setback(n - 1), Setback(n))
  {
    assert Step(Setback(0), Create, Setback(1));
    assert Step(Setback(1), ReadBatch(5, [1]), Setback(2));
    assert Step(Setback(2), IndexNext, Setback(3)) by {
      var s, two: Index := Setback(2), map[1 := DocOf(2)];
      assert s.phase.batch[1..] == [] && s.phase.samples + [1] == [1] && s.indices[9][1 := DocOf(2)] == two;
      assert s.indices[9 := two] == Setback(3).indices;
    }
  }

  lemma SetbackMovesOn()
    ensures forall n | 4 <= n < 6 :: Reaches(Setback(n - 1), Setback(n))
  {
    assert Step(Setback(3), CommitRows(Setback(4).table), Setback(4)) by {
      assert forall id: Id :: RowLater(Setback(3).table, Setback(4).table, id);
    }
    assert Step(Setback(4), LiveIndex(1, 3), Setback(5)) by {
      var s, three: Index := Setback(4), map[1 := DocOf(3)];
      assert s.indices[0][1 := DocOf(3)] == three && s.indices[0 := three] == Setback(5).indices;
    }
  }

  lemma SetbackSwitches()
    ensures forall n | 6 <= n < 9 :: Reaches(Setback(n - 1), Setback(n))
  {
    assert Step(Setback(5), ReadBatch(5, []), Setback(6));
    assert Step(Setback(6), Verify, Setback(7)) by {
      assert Setback(6).indices[9].Keys == {1};
    }
    assert Step(Setback(7), SwitchAlias, Setback(8));
  }

  /** So the switch can set a public activity back. */
  lemma TheSwitchSetsBack() returns (states: seq<State>)
    ensures Run(states) && |states| == 9 && SetBack(states[7], states[8], 1)
  {
    states := seq(9, (n: nat) => Setback(n));
    SetbackBuilds();
    SetbackMovesOn();
    SetbackSwitches();
    forall n: nat ensures StepAt(states, n) {}
  }

  /** Version 0 does replace version 1: the live indexer read the row before its first change. */
  lemma ZeroReplacesOne() returns (states: seq<State>)
    ensures Run(states) && |states| == 2
    ensures 1 in Shown(states[0]) && Shown(states[0])[1].version == 1
    ensures 1 in Shown(states[1]) && Shown(states[1])[1].version == 0
  {
    var one, zero: Index := map[1 := DocOf(1)], map[1 := DocOf(0)];
    var s := State(map[1 := Row(1, false)], map[0 := one], 0, 9, Idle, None);
    var next := s.(indices := map[0 := zero]);
    assert one[1 := DocOf(0)] == zero && s.indices[0 := zero] == next.indices;
    assert Step(s, LiveIndex(1, 0), next);
    states := [s, next];
    forall n: nat ensures StepAt(states, n) {}
  }

  // ----- a fresh target passes its verification -----

  /** Up to the switch, a target that did not exist holds exactly what the scan stored and counted. */
  ghost predicate FreshTarget(s: State) {
    match s.phase
    case Idle => s.target !in s.indices && s.alias in s.indices
    case Scanning(compensating, _, after, _, _, count, samples) =>
      !compensating ==>
        && s.target in s.indices && s.alias in s.indices && s.alias != s.target
        && |s.indices[s.target]| == count && (forall id <- samples :: id in s.indices[s.target])
        && (forall id <- s.indices[s.target] :: id <= after)
    case Built(_, count, samples) =>
      && s.target in s.indices && s.alias in s.indices && s.alias != s.target
      && |s.indices[s.target]| == count && (forall id <- samples :: id in s.indices[s.target])
    case _ => true
  }

  lemma StepKeepsFreshTarget(s: State, action: Action, next: State)
    requires Inv(s) && FreshTarget(s) && Step(s, action, next)
    ensures FreshTarget(next)
  {
    if action.IndexNext? && !next.phase.Failed? && !s.phase.compensating {
      var id := s.phase.batch[0];
      assert id in s.phase.batch;
      assert id !in s.indices[s.target];
      assert next.indices[s.target].Keys == s.indices[s.target].Keys + {id};
    }
  }

  /** When the run creates its target index, the count and sample checks never fail. */
  lemma {:induction false} FreshTargetsVerify(states: seq<State>, k: nat)
    requires Run(states) && k < |states| && states[0].target !in states[0].indices
    ensures FreshTarget(states[k])
    ensures states[k].phase.Built? ==>
              && states[k].target in states[k].indices && |states[k].indices[states[k].target]| == states[k].phase.count
              && forall id <- states[k].phase.samples :: id in states[k].indices[states[k].target]
  {
    if k > 0 {
      FreshTargetsVerify(states, k - 1);
      RunIsSound(states, k - 1);
      assert StepAt(states, k);
      var action :| Step(states[k - 1], action, states[k]);
      StepKeepsFreshTarget(states[k - 1], action, states[k]);
    }
  }

  /** What was built had as many documents as were counted, and all the samples. */
  ghost predicate Verifiable(s: State) {
    && s.phase.Built? && s.target in s.indices && |s.indices[s.target]| == s.phase.count
    && forall i | 0 <= i < |s.phase.samples| :: s.phase.samples[i] in s.indices[s.target]
  }

  /** The alias is only ever switched to an index that was verified. */
  lemma {:induction false} OnlyVerifiedIsSwitched(states: seq<State>, k: nat) returns (m: nat)
    requires Run(states) && k < |states| && (states[k].phase.Verified? || states[k].built.Some?)
    ensures m < k && Verifiable(states[m]) && states[m + 1].phase == Verified(states[m].phase.start)
  {
    assert k > 0;
    assert StepAt(states, k);
    if states[k - 1].phase.Verified? || states[k - 1].built.Some? {
      m := OnlyVerifiedIsSwitched(states, k - 1);
    } else {
      m := k - 1;
      var action :| Step(states[m], action, states[k]);
      assert action == Verify;
    }
  }

  // ----- what a switch to a fresh target shows -----

  /** The build stores its copy of `id` in this step. */
  predicate Stores(s: State, next: State, id: Id) {
    && s.phase.Scanning? && !s.phase.compensating && s.phase.batch != [] && s.phase.batch[0] == id
    && id in s.phase.read && next.phase.Scanning? && next.phase.count == s.phase.count + 1
  }

  /** The version of `id` that the build had read when it stored it, if it did so before state `k`. */
  function ReadByBuild(states: seq<State>, k: nat, id: Id): Option<nat>
    requires k < |states|
  {
    if k == 0 then None
    else if Stores(states[k - 1], states[k], id) then Some(states[k - 1].phase.read[id].version)
    else ReadByBuild(states, k - 1, id)
  }

  /** The build is under way or about to be switched to. */
  predicate Building(phase: Phase) {
    (phase.Scanning? && !phase.compensating) || phase.Built? || phase.Verified?
  }

  /** The fresh target holds `id` as the build read it, and nobody else writes to it. */
  ghost predicate CopyAt(states: seq<State>, k: nat, id: Id)
    requires k < |states|
  {
    var s := states[k];
    && (s.phase.Idle? ==> s.target !in s.indices && ReadByBuild(states, k, id).None?)
    && (Building(s.phase) ==>
          && s.target in s.indices && s.alias != s.target
          && (id in s.indices[s.target] <==> ReadByBuild(states, k, id).Some?)
          && (id in s.indices[s.target] ==> s.indices[s.target][id] == DocOf(ReadByBuild(states, k, id).value)))
  }

  /** Only the build itself stores in the target. */
  lemma CopyStays(states: seq<State>, k: nat, id: Id, action: Action)
    requires 0 < k < |states| && Step(states[k - 1], action, states[k]) && CopyAt(states, k - 1, id)
    requires Inv(states[k - 1]) && !action.IndexNext?
    ensures CopyAt(states, k, id)
  {
    assert !Stores(states[k - 1], states[k], id);
  }

  lemma CopyGrows(states: seq<State>, k: nat, id: Id)
    requires 0 < k < |states| && Step(states[k - 1], IndexNext, states[k]) && CopyAt(states, k - 1, id)
    requires Inv(states[k - 1]) && FreshTarget(states[k - 1])
    ensures CopyAt(states, k, id)
  {
    assert states[k - 1].phase.batch[0] in states[k - 1].phase.batch;
  }

  lemma {:induction false} TargetIsTheCopy(states: seq<State>, k: nat, id: Id)
    requires Run(states) && k < |states| && states[0].target !in states[0].indices
    ensures CopyAt(states, k, id)
  {
    if k > 0 {
      TargetIsTheCopy(states, k - 1, id);
      assert StepAt(states, k);
      var action :| Step(states[k - 1], action, states[k]);
      RunIsSound(states, k - 1);
      if action.IndexNext? {
        FreshTargetsVerify(states, k - 1);
        CopyGrows(states, k, id);
      } else {
        CopyStays(states, k, id, action);
      }
    }
  }

  /**
   Exactly when the switch to a fresh target sets a public activity back: the build did not store it,
   or stored an older version than search shows.
   */
  lemma TheSwitchSetsBackIff(states: seq<State>, m: nat, id: Id)
    requires Run(states) && m + 1 < |states| && Step(states[m], SwitchAlias, states[m + 1])
    requires states[0].target !in states[0].indices
    ensures var copy := ReadByBuild(states, m, id);
            SetBack(states[m], states[m + 1], id) <==>
              && id in Shown(states[m]) && Shown(states[m])[id].version >= 2
              && (copy.Some? ==> copy.value < Shown(states[m])[id].version)
  {
    TargetIsTheCopy(states, m, id);
  }
}
