/**
 The search read model: a versioned document store, and the keyset scan that rebuilds an index from
 the activity table.
 */
module Search {
  import opened Wrappers

  type Id = nat

  /** What the scan reads of an activity row: its version and whether it is soft-deleted. */
  datatype Row = Row(version: nat, deleted: bool)

  /** A stored document: its external version and the row version it was built from. */
  datatype Doc = Doc(external: nat, version: nat)

  type Table = map<Id, Row>
  type Index = map<Id, Doc>

  // ----- the document store -----

  /** The store has no external version 0, so version 0 is sent as 1. */
  function External(version: nat): nat {
    if version == 0 then 1 else version
  }

  function DocOf(version: nat): Doc {
    Doc(External(version), version)
  }

  /** version_type external_gte: only a lower external version is refused. */
  predicate Accepts(index: Index, id: Id, version: nat) {
    id in index ==> index[id].external <= External(version)
  }

  function Put(index: Index, id: Id, version: nat): Option<Index> {
    if Accepts(index, id, version) then Some(index[id := DocOf(version)]) else None
  }

  /** Documents carry the external version of the row version they show. */
  ghost predicate Faithful(index: Index) {
    forall id <- index :: index[id] == DocOf(index[id].version)
  }

  /**
   An accepted write replaces the document of a newer row version exactly when it writes version 0
   over version 1.  Public activities are at version 2 or more, so they are never set back.
   */
  lemma OlderReplacesNewerOnlyAtZero(index: Index, id: Id, version: nat)
    requires Faithful(index) && id in index
    ensures Put(index, id, version).Some? && version < index[id].version <==> version == 0 && index[id].version == 1
    ensures index[id].version >= 2 && Put(index, id, version).Some? ==> version >= index[id].version
  {
  }

  // ----- the scan -----

  predicate Live(rows: Table, id: Id) {
    id in rows && !rows[id].deleted
  }

  ghost function LiveIds(rows: Table): set<Id> {
    set id | id in rows && Live(rows, id)
  }

  predicate Ascending(ids: seq<Id>) {
    forall i, j | 0 <= i < j < |ids| :: ids[i] < ids[j]
  }

  /** What ListForSearchRebuild answers: the first `limit` live ids after `after`, in id order. */
  ghost predicate Batch(rows: Table, after: Id, limit: nat, ids: seq<Id>) {
    && |ids| <= limit && Ascending(ids)
    && (forall id <- ids :: Live(rows, id) && id > after)
    && (forall id: Id :: Live(rows, id) && id > after && id !in ids ==>
          |ids| == limit && forall other <- ids :: other < id)
  }

  /** The first at most three live ids, in id order. */
  ghost predicate Samples(rows: Table, ids: seq<Id>) {
    && Ascending(ids)
    && (forall id <- ids :: Live(rows, id))
    && |ids| == (if |LiveIds(rows)| < 3 then |LiveIds(rows)| else 3)
    && (forall id: Id, other: Id :: other in ids && Live(rows, id) && id !in ids ==> other < id)
  }

  lemma {:induction false} LeastId(ids: set<Id>) returns (least: Id)
    requires ids != {}
    ensures least in ids && forall id <- ids :: least <= id
  {
    var id :| id in ids;
    if ids == {id} {
      least := id;
    } else {
      var rest := ids - {id};
      var other := LeastId(rest);
      least := if other < id then other else id;
      forall x | x in ids ensures least <= x {
        if x != id { assert x in rest; }
      }
    }
  }

  /** The live ids up to and including `last`. */
  ghost function UpTo(rows: Table, last: Id): set<Id> {
    set id | id in rows && Live(rows, id) && id <= last
  }

  /** `id` is the first live id after `last`. */
  ghost predicate Follows(rows: Table, last: Id, id: Id) {
    last < id && Live(rows, id) && forall other: Id :: Live(rows, other) && other > last ==> id <= other
  }

  /** A batch's ids follow the cursor and each other. */
  lemma BatchFollows(rows: Table, after: Id, limit: nat, ids: seq<Id>, pos: nat)
    requires Batch(rows, after, limit, ids) && pos < |ids|
    ensures Follows(rows, if pos == 0 then after else ids[pos - 1], ids[pos])
  {
    var last := if pos == 0 then after else ids[pos - 1];
    assert ids[pos] in ids && (pos > 0 ==> ids[pos - 1] in ids);
    forall other: Id | Live(rows, other) && other > last ensures ids[pos] <= other {
      if other in ids {
        var i :| 0 <= i < |ids| && ids[i] == other;
        assert pos <= i;
      } else {
        assert ids[pos] < other;
      }
    }
  }

  /** The scan so far: exactly the live rows up to `last` are indexed, counted and sampled. */
  ghost predicate Scanned(rows: Table, before: Index, index: Index, last: Id, count: nat, samples: seq<Id>) {
    && count == |UpTo(rows, last)|
    && (forall id: Id :: IndexedAt(rows, before, index, last, id))
    && SampledUpTo(rows, last, count, samples)
  }

  ghost predicate IndexedAt(rows: Table, before: Index, index: Index, last: Id, id: Id) {
    if id in UpTo(rows, last) then
      id in index && index[id] == DocOf(rows[id].version) && Accepts(before, id, rows[id].version)
    else
      KeptAt(before, index, id)
  }

  ghost predicate SampledUpTo(rows: Table, last: Id, count: nat, samples: seq<Id>) {
    && Ascending(samples) && (forall id <- samples :: id in UpTo(rows, last))
    && |samples| == (if count < 3 then count else 3)
    && (count <= 3 ==> forall id <- UpTo(rows, last) :: id in samples)
    && (forall id: Id, other: Id :: other in samples && id in UpTo(rows, last) && id !in samples ==> other < id)
  }

  /** One more row is indexed. */
  lemma ScanStep(rows: Table, before: Index, index: Index, last: Id, count: nat, samples: seq<Id>, id: Id)
    requires Scanned(rows, before, index, last, count, samples) && Follows(rows, last, id)
    ensures Accepts(index, id, rows[id].version) <==> Accepts(before, id, rows[id].version)
    ensures ScanKept(rows, before, index)
    ensures Accepts(index, id, rows[id].version) ==>
              Scanned(rows, before, index[id := DocOf(rows[id].version)], id, count + 1,
                      if |samples| < 3 then samples + [id] else samples)
  {
    var after := index[id := DocOf(rows[id].version)];
    assert UpTo(rows, id) == UpTo(rows, last) + {id};
    assert IndexedAt(rows, before, index, last, id);
    forall other: Id ensures other !in LiveIds(rows) ==> KeptAt(before, index, other) {
      assert IndexedAt(rows, before, index, last, other);
    }
    assert forall i | 0 <= i < |samples| :: samples[i] in samples;
    if Accepts(index, id, rows[id].version) {
      forall other: Id ensures IndexedAt(rows, before, after, id, other) {
        assert IndexedAt(rows, before, index, last, other);
      }
    }
  }

  /** The scan has passed the last live row. */
  lemma ScanDone(rows: Table, before: Index, index: Index, last: Id, count: nat, samples: seq<Id>)
    requires Scanned(rows, before, index, last, count, samples) && forall id: Id :: Live(rows, id) ==> id <= last
    ensures count == |LiveIds(rows)| && Samples(rows, samples)
    ensures forall id <- LiveIds(rows) ::
              id in index && index[id] == DocOf(rows[id].version) && Accepts(before, id, rows[id].version)
    ensures ScanKept(rows, before, index)
  {
    assert UpTo(rows, last) == LiveIds(rows);
    forall id: Id
      ensures id in LiveIds(rows) ==>
                id in index && index[id] == DocOf(rows[id].version) && Accepts(before, id, rows[id].version)
      ensures id !in LiveIds(rows) ==> KeptAt(before, index, id)
    {
      assert IndexedAt(rows, before, index, last, id);
    }
  }

  ghost predicate KeptAt(before: Index, index: Index, id: Id) {
    (id in index <==> id in before) && (id in index ==> index[id] == before[id])
  }

  /** Documents of no live row are left alone. */
  ghost predicate ScanKept(rows: Table, before: Index, index: Index) {
    forall id: Id :: id !in LiveIds(rows) ==> KeptAt(before, index, id)
  }

  class Rebuilder {
    const rows: Table
    var index: Index

    constructor (rows: Table, index: Index)
      ensures this.rows == rows && this.index == index
    {
      this.rows, this.index := rows, index;
    }

    /** The SELECT: id > after, in id order, at most limit rows. */
    method ListForSearchRebuild(after: Id, limit: nat) returns (ids: seq<Id>)
      ensures Batch(rows, after, limit, ids)
    {
      ids := [];
      var last := after;
      while |ids| < limit && exists id :: id in rows && Live(rows, id) && id > last
        invariant |ids| <= limit && Ascending(ids) && after <= last
        invariant forall id <- ids :: Live(rows, id) && after < id <= last
        invariant forall id: Id :: Live(rows, id) && after < id <= last ==> id in ids
      {
        ghost var rest := set id | id in rows && Live(rows, id) && id > last;
        ghost var some :| some in rows && Live(rows, some) && some > last;
        assert some in rest;
        ghost var least := LeastId(rest);
        assert forall other <- rows :: Live(rows, other) && other > last ==> other in rest;
        var id :| id in rows && Live(rows, id) && id > last
                  && forall other <- rows :: Live(rows, other) && other > last ==> id <= other;
        assert forall i | 0 <= i < |ids| :: ids[i] in ids;
        ids, last := ids + [id], id;
      }
    }

    /** Client.Index */
    method IndexDocument(id: Id, version: nat) returns (ok: bool)
      modifies this
      ensures ok == Put(old(index), id, version).Some?
      ensures index == if ok then Put(old(index), id, version).value else old(index)
    {
      var external := version;
      if external == 0 { external := 1; }
      if id in index && index[id].external > external { return false; }
      index := index[id := Doc(external, version)];
      return true;
    }

    /**
     Rebuild: for every table, batch size and prior index content, the scan succeeds iff no document
     is ahead of its row; then it has indexed every live activity exactly once, in id order.
     */
    method Rebuild(batchSize: int) returns (ok: bool, count: nat, samples: seq<Id>)
      requires 0 !in rows
      modifies this
      ensures ok <==> forall id <- LiveIds(rows) :: Accepts(old(index), id, rows[id].version)
      ensures ok ==> count == |LiveIds(rows)| && Samples(rows, samples)
      ensures ok ==> forall id <- LiveIds(rows) :: id in index && index[id] == DocOf(rows[id].version)
      ensures ScanKept(rows, old(index), index)
    {
      var limit: nat := if batchSize <= 0 then 200 else batchSize;
      count, samples := 0, [];
      var afterId := 0;
      ghost var before := index;
      assert UpTo(rows, 0) == {};
      while true
        invariant Scanned(rows, before, index, afterId, count, samples)
        decreases LiveIds(rows) - UpTo(rows, afterId)
      {
        var batch := ListForSearchRebuild(afterId, limit);
        if |batch| == 0 {
          ScanDone(rows, before, index, afterId, count, samples);
          return true, count, samples;
        }
        ghost var start := afterId;
        assert batch[|batch| - 1] in batch;
        assert batch[|batch| - 1] in LiveIds(rows) - UpTo(rows, start);
        assert batch[|batch| - 1] in UpTo(rows, batch[|batch| - 1]);
        for pos := 0 to |batch|
          invariant Scanned(rows, before, index, if pos == 0 then start else batch[pos - 1], count, samples)
        {
          var id := batch[pos];
          ghost var last := if pos == 0 then start else batch[pos - 1];
          BatchFollows(rows, start, limit, batch, pos);
          ScanStep(rows, before, index, last, count, samples, id);
          var accepted := IndexDocument(id, rows[id].version);
          if !accepted {
            assert id in LiveIds(rows);
            return false, count, samples;
          }
          count := count + 1;
          if |samples| < 3 { samples := samples + [id]; }
        }
        afterId := batch[|batch| - 1];
      }
    }
  }
}
