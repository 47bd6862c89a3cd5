/**
 What each activity operation answers in a run, as a table over the row it read and the row it commits
 against, and the state it leaves behind.
 */
module ActivityAnswers {
  import opened Wrappers
  import opened Model
  import opened Transactions
  import opened Services
  import opened Protocol
  import opened Invariants
  import opened Reachable
  import opened Authority

  lemma CreateAnswer(history: seq<Db>, id: Id, organizer: Id, form: Form)
    requires Run(history)
    ensures var db := history[|history| - 1];
            && Exec(history, DoCreateActivity(id, organizer, form))
               == Committed(db, CreateActivity(db, id, organizer, form))
            && CreateActivity(db, id, organizer, form) ==
               if !Acceptable(form) then Err(Invalid)
               else if id in db.activities then Err(Storage(DuplicateKey))
               else Ok(db.(activities := db.activities[id := Activity(organizer, form, 0, 0, Draft, 0, None)],
                           outbox := db.outbox + [ActivityEvent(ActivityCreated, id, Draft, 1)]))
  {
  }

  /** What a run says of an activity read at state `i`. */
  lemma ActivitySeenAndNow(history: seq<Db>, i: nat, id: Id)
    requires Run(history) && i < |history| && id in history[i].activities
    ensures id in history[|history| - 1].activities
    ensures ActivityEvolves(history[i].activities[id], history[|history| - 1].activities[id])
    ensures ActivityRowOk(history[i].activities[id]) && ActivityRowOk(history[|history| - 1].activities[id])
    ensures GroupAt(history[|history| - 1].activities, history[|history| - 1].groups, id)
  {
    RunIsSound(history);
    RowsKeepTheirOwners(history, i);
    assert ActivityAt(history[i].activities, id);
    assert ActivityAt(history[|history| - 1].activities, id);
  }

  /** An edit: the form is replaced and a rejected activity is a draft again. */
  function Edited(db: Db, id: Id, form: Form): Db
    requires id in db.activities
  {
    var row := db.activities[id];
    db.(activities := db.activities[id := row.(form := form, status := Draft, version := row.version + 1)],
        activityLog := db.activityLog
                       + if row.status == Draft then [] else [ActivityLog(id, row.status, Draft, ByUser)],
        outbox := db.outbox + [ActivityEvent(ActivityUpdated, id, row.status, row.version + 1)])
  }

  /** Update: an edit of a draft or a rejected activity commits iff the row has not changed since it was read. */
  lemma UpdateAnswer(history: seq<Db>, i: nat, id: Id, user: Id, form: Form)
    requires Run(history) && i < |history|
    ensures id in history[i].activities ==> id in history[|history| - 1].activities
    ensures var seen, db := history[i], history[|history| - 1];
            && Exec(history, DoUpdateActivity(i, id, user, form))
               == Committed(db, UpdateActivity(seen, db, id, user, form))
            && UpdateActivity(seen, db, id, user, form) ==
               if id !in seen.activities then Err(ActivityNotFound)
               else if user != db.activities[id].organizer then Err(Forbidden)
               else if seen.activities[id].status != Draft && seen.activities[id].status != ActivityRejected
               then Err(Conflict)
               else if !Acceptable(form) then Err(Invalid)
               else if db.activities[id].version != seen.activities[id].version then Err(Conflict)
               else Ok(Edited(db, id, form))
  {
    if id in history[i].activities {
      ActivitySeenAndNow(history, i, id);
      assert history[|history| - 1].activityLog + [] == history[|history| - 1].activityLog;
    }
  }

  /** A change of status, with the version that the event names. */
  function Turned(db: Db, id: Id, to: ActivityStatus, operator: Operator, kind: ActivityEventKind, version: nat): Db
    requires id in db.activities
  {
    var row := db.activities[id];
    db.(activities := db.activities[id := row.(status := to, version := row.version + 1)],
        activityLog := db.activityLog + [ActivityLog(id, row.status, to, operator)],
        outbox := db.outbox + [ActivityEvent(kind, id, to, version)])
  }

  /** Submit. */
  lemma SubmitAnswer(history: seq<Db>, i: nat, id: Id, user: Id, now: Time)
    requires Run(history) && i < |history|
    ensures id in history[i].activities ==> id in history[|history| - 1].activities
    ensures var seen, db := history[i], history[|history| - 1];
            && Exec(history, DoSubmitActivity(i, id, user, now))
               == Committed(db, SubmitActivity(seen, db, id, user, now))
            && SubmitActivity(seen, db, id, user, now) ==
               if id !in seen.activities then Err(ActivityNotFound)
               else if user != db.activities[id].organizer then Err(Forbidden)
               else if seen.activities[id].status != Draft && seen.activities[id].status != ActivityRejected
               then Err(Conflict)
               else if db.activities[id].status != seen.activities[id].status then Err(Conflict)
               else Ok(Turned(db, id, PendingReview, ByUser, StatusChanged, seen.activities[id].version + 1))
  {
    if id in history[i].activities {
      ActivitySeenAndNow(history, i, id);
    }
  }

  /** Cancel: the chat group, if there is one, is dissolved with it. */
  lemma CancelActivityAnswer(history: seq<Db>, i: nat, id: Id, user: Id, now: Time)
    requires Run(history) && i < |history|
    ensures id in history[i].activities ==> id in history[|history| - 1].activities
    ensures var seen, db := history[i], history[|history| - 1];
            && Exec(history, DoCancelActivity(i, id, user, now))
               == Committed(db, CancelActivity(seen, db, id, user, now))
            && CancelActivity(seen, db, id, user, now) ==
               if id !in seen.activities then Err(ActivityNotFound)
               else if user != db.activities[id].organizer then Err(Forbidden)
               else if seen.activities[id].status in {Finished, ActivityCancelled, ActivityRejected} then Err(Conflict)
               else if db.activities[id].status != seen.activities[id].status then Err(Conflict)
               else
                 var turned := Turned(db, id, ActivityCancelled, ByUser, ActivityCancelledEvent,
                                      seen.activities[id].version + 1);
                 Ok(if id !in db.groups then turned
                    else turned.(groups := db.groups[id := Group(db.activities[id].organizer, GroupDissolved)]))
  {
    if id in history[i].activities {
      ActivitySeenAndNow(history, i, id);
    }
  }

  /** Review: publishing sets the time of publication and creates the chat group, whose key is always free. */
  lemma ReviewAnswer(history: seq<Db>, i: nat, id: Id, verdict: Verdict, now: Time)
    requires Run(history) && i < |history|
    ensures id in history[i].activities ==> id in history[|history| - 1].activities
    ensures var seen, db := history[i], history[|history| - 1];
            && Exec(history, DoReviewActivity(i, id, verdict, now))
               == Committed(db, ReviewActivity(seen, db, id, verdict, now))
            && ReviewActivity(seen, db, id, verdict, now) ==
               if verdict.Refuse? && (|verdict.reason| == 0 || |verdict.reason| > 500) then Err(Invalid)
               else if id !in seen.activities then Err(ActivityNotFound)
               else if seen.activities[id].status != PendingReview then Err(Conflict)
               else if db.activities[id].status != PendingReview then Err(Conflict)
               else
                 var row, version := db.activities[id], seen.activities[id].version + 1;
                 match verdict
                 case Refuse(_) => Ok(Turned(db, id, ActivityRejected, ByAdmin, StatusChanged, version))
                 case SendBack => Ok(Turned(db, id, Draft, ByAdmin, StatusChanged, version))
                 case Publish =>
                   var turned := Turned(db, id, Published, ByAdmin, ActivityPublished, version);
                   Ok(turned.(activities := db.activities[id :=
                                row.(status := Published, version := row.version + 1, publishedAt := Some(now))],
                              groups := db.groups[id := Group(row.organizer, GroupActive)]))
  {
    if id in history[i].activities {
      ActivitySeenAndNow(history, i, id);
    }
  }

  // ----- the status sync -----

  /** A row at its time based status: finished from the end on, and ongoing from the start if it was published. */
  function AtTime(row: Activity, now: Time): Activity {
    if (row.status == Published || row.status == Ongoing) && row.form.end <= now
    then row.(status := Finished, version := row.version + 1)
    else if row.status == Published && row.form.start <= now
    then row.(status := Ongoing, version := row.version + 1)
    else row
  }

  /** Activity `a` after a sync of `ids` that read `seen`: moved if its status is still the one that was read. */
  ghost predicate SyncedTo(seen: Db, db: Db, after: Db, reached: bool, now: Time, a: Id) {
    a in db.activities ==>
      && a in after.activities
      && after.activities[a] ==
         if reached && a in seen.activities && seen.activities[a].status == db.activities[a].status
         then AtTime(db.activities[a], now) else db.activities[a]
  }

  /** A published or ongoing activity keeps the form that was read. */
  ghost predicate FormKept(seen: Db, db: Db, a: Id) {
    a in seen.activities && (seen.activities[a].status == Published || seen.activities[a].status == Ongoing) ==>
      a in db.activities && seen.activities[a].form == db.activities[a].form
      && db.activities[a].form.start < db.activities[a].form.end
  }

  /** One candidate: its row moves if it is still as read, any other row stays. */
  lemma SyncOneMoves(seen: Db, db: Db, before: Db, reached: bool, last: Id, now: Time, after: Db, a: Id)
    requires SyncedTo(seen, db, before, reached, now, a) && FormKept(seen, db, last)
    requires after == if last in seen.activities && TimedCandidate(seen.activities[last], now)
                      then SyncOne(before, last, seen.activities[last], now) else before
    ensures SyncedTo(seen, db, after, reached || a == last, now, a)
  {
  }

  /** The candidates of one more id. */
  lemma OneMoreCandidate(seen: Db, db: Db, ids: seq<Id>, last: Id, now: Time)
    ensures SyncTx(db, SyncCandidates(seen, ids + [last], now), now)
            == if last in seen.activities && TimedCandidate(seen.activities[last], now)
               then SyncOne(SyncTx(db, SyncCandidates(seen, ids, now), now), last, seen.activities[last], now)
               else SyncTx(db, SyncCandidates(seen, ids, now), now)
  {
    assert (ids + [last])[..|ids|] == ids;
    var rows := SyncCandidates(seen, ids, now);
    if last in seen.activities && TimedCandidate(seen.activities[last], now) {
      assert (rows + [(last, seen.activities[last])])[..|rows|] == rows;
    }
  }

  lemma {:induction false} SyncMovesEach(seen: Db, db: Db, ids: seq<Id>, now: Time, a: Id)
    requires forall b: Id :: FormKept(seen, db, b)
    ensures SyncedTo(seen, db, SyncTx(db, SyncCandidates(seen, ids, now), now), a in ids, now, a)
  {
    if ids != [] {
      var fewer, last := ids[..|ids| - 1], ids[|ids| - 1];
      assert ids == fewer + [last];
      SyncMovesEach(seen, db, fewer, now, a);
      OneMoreCandidate(seen, db, fewer, last, now);
      assert FormKept(seen, db, last);
      SyncOneMoves(seen, db, SyncTx(db, SyncCandidates(seen, fewer, now), now), a in fewer, last, now,
                   SyncTx(db, SyncCandidates(seen, ids, now), now), a);
    }
  }

  lemma {:induction false} SyncTouchesOnlyActivities(db: Db, candidates: seq<(Id, Activity)>, now: Time)
    ensures var next := SyncTx(db, candidates, now);
            next == db.(activities := next.activities, activityLog := next.activityLog, outbox := next.outbox)
            && next.activities.Keys == db.activities.Keys
  {
    if candidates != [] { SyncTouchesOnlyActivities(db, candidates[..|candidates| - 1], now); }
  }

  /** A status sync, whatever committed since it selected its candidates. */
  lemma SyncAnswer(history: seq<Db>, i: nat, ids: seq<Id>, now: Time, a: Id)
    requires Run(history) && i < |history|
    ensures var seen, db, next := history[i], history[|history| - 1], Exec(history, DoSyncStatuses(i, ids, now));
            && SyncedTo(seen, db, next, a in ids, now, a)
            && next == db.(activities := next.activities, activityLog := next.activityLog, outbox := next.outbox)
            && next.activities.Keys == db.activities.Keys
  {
    var db := history[|history| - 1];
    forall b: Id ensures FormKept(history[i], db, b) {
      if b in history[i].activities { ActivitySeenAndNow(history, i, b); }
    }
    SyncMovesEach(history[i], db, ids, now, a);
    SyncTouchesOnlyActivities(db, SyncCandidates(history[i], ids, now), now);
  }
}
