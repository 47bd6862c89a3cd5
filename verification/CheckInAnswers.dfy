/**
 What a check-in and a ticket timeout answer in a run, as tables over the rows they read and the rows
 they commit against, and the state they leave behind.
 */
module CheckInAnswers {
  import opened Wrappers
  import opened Model
  import opened Services
  import opened Protocol
  import opened Invariants
  import opened Reachable
  import opened Authority

  /** Some record carries the request id. */
  ghost predicate Recorded(db: Db, requestId: string) {
    exists c :: c in db.checkIns && db.checkIns[c].requestId == requestId
  }

  /** The ticket in its new status. */
  function Closed(db: Db, t: Id, to: TicketStatus, kind: TicketEventKind): Db
    requires t in db.tickets
  {
    var ticket := db.tickets[t];
    db.(tickets := db.tickets[t := ticket.(status := to, version := ticket.version + 1)],
        outbox := db.outbox + [TicketEvent(kind, t, ticket.activityId)])
  }

  /** The record of a check-in. */
  function RecordOf(db: Db, q: CheckInRequest): CheckIn
    requires q.ticketId in db.tickets
  {
    var ticket := db.tickets[q.ticketId];
    CheckIn(q.ticketId, ticket.registrationId, ticket.activityId, ticket.userId, q.actor.id, q.requestId, q.now)
  }

  function CheckedIn(db: Db, q: CheckInRequest): Db
    requires q.ticketId in db.tickets
  {
    Closed(db, q.ticketId, Used, TicketUsed).(checkIns := db.checkIns[q.checkInId := RecordOf(db, q)])
  }

  /** The activity of a ticket read at state `i` is there from then on, with the same organizer. */
  lemma ActivityOfTicket(history: seq<Db>, i: nat, j: nat, t: Id)
    requires Run(history) && i <= j < |history| && t in history[i].tickets
    ensures var a, db := history[i].tickets[t].activityId, history[|history| - 1];
            a in history[j].activities && a in db.activities
            && history[j].activities[a].organizer == db.activities[a].organizer
  {
    RunIsSound(history);
    assert Evolves(history[i], history[j]) && Evolves(history[j], history[|history| - 1]);
    assert TicketAt(history[i].activities, history[i].registrations, history[i].tickets, t);
    assert ActivityLater(history[i].activities, history[j].activities, history[i].tickets[t].activityId);
    assert ActivityLater(history[j].activities, history[|history| - 1].activities, history[i].tickets[t].activityId);
  }

  lemma TicketNow(db: Db, t: Id)
    requires Good(db) && t in db.tickets
    ensures db.tickets[t].activityId in db.activities
    ensures db.tickets[t].validStart == Some(db.activities[db.tickets[t].activityId].form.start - 3_600_000)
    ensures db.tickets[t].validEnd == Some(db.activities[db.tickets[t].activityId].form.end)
  {
    assert TicketAt(db.activities, db.registrations, db.tickets, t);
  }

  /** What a run says of a ticket read at state `i` and its activity. */
  lemma TicketSeenAndNow(history: seq<Db>, i: nat, j: nat, t: Id)
    requires Run(history) && i <= j < |history| && t in history[i].tickets
    ensures var seen, db := history[i].tickets[t], history[|history| - 1];
            && t in db.tickets
            && seen.(status := db.tickets[t].status, version := db.tickets[t].version) == db.tickets[t]
            && seen.activityId in history[j].activities && seen.activityId in db.activities
            && history[j].activities[seen.activityId].organizer == db.activities[seen.activityId].organizer
            && seen.validStart == Some(db.activities[seen.activityId].form.start - 3_600_000)
            && seen.validEnd == Some(db.activities[seen.activityId].form.end)
  {
    RowsKeepTheirOwners(history, i);
    TicketNow(history[|history| - 1], t);
    ActivityOfTicket(history, i, j, t);
  }

  /** A ticket that is unused has no record. */
  lemma UnusedIsUnrecorded(db: Db, t: Id)
    requires Good(db) && t in db.tickets && db.tickets[t].status == Unused
    ensures forall c <- db.checkIns :: db.checkIns[c].ticketId != t
  {
    forall c | c in db.checkIns ensures db.checkIns[c].ticketId != t {
      assert CheckInAt(db.tickets, db.checkIns, c);
    }
  }

  /** A request id that is recorded is answered with a record of it, and an unusable one with an error. */
  lemma ReplayAnswer(history: seq<Db>, i: nat, j: nat, k: nat, db: Db, late: Db, q: CheckInRequest)
    requires i <= j <= k < |history|
    ensures |q.requestId| == 0 || |q.requestId| > 64 ==>
              CheckInService(history[i], history[j], history[k], db, late, q) == (db, Err(Invalid))
    ensures 1 <= |q.requestId| <= 64 && Recorded(history[i], q.requestId) ==>
              var (next, answer) := CheckInService(history[i], history[j], history[k], db, late, q);
              && next == db && answer.Ok? && answer.value.0 in history[i].checkIns
              && answer.value.1 == history[i].checkIns[answer.value.0] && answer.value.1.requestId == q.requestId
  {
  }

  /**
   A first check-in: its request id was recorded nowhere when it was looked up, neither before the
   ticket was read nor after a failed transaction.
   */
  lemma CheckInAnswer(history: seq<Db>, i: nat, j: nat, k: nat, late: Db, q: CheckInRequest)
    requires Run(history) && i <= j <= k < |history| && 1 <= |q.requestId| <= 64
    requires !Recorded(history[i], q.requestId) && !Recorded(late, q.requestId)
    ensures q.ticketId in history[j].tickets ==>
              && q.ticketId in history[|history| - 1].tickets
              && history[j].tickets[q.ticketId].activityId in history[k].activities
              && history[j].tickets[q.ticketId].activityId in history[|history| - 1].activities
    ensures var seen, db := history[j], history[|history| - 1];
            CheckInService(history[i], seen, history[k], db, late, q) ==
            if q.ticketId !in seen.tickets then (db, Err(TicketNotFound))
            else
              var a := seen.tickets[q.ticketId].activityId;
              if q.expectedActivity != None && q.expectedActivity != Some(a) then (db, Err(Conflict))
              else if q.actor.id != db.activities[a].organizer && !q.actor.isAdmin then (db, Err(Forbidden))
              else if seen.tickets[q.ticketId].status != Unused then (db, Err(Conflict))
              else if history[k].activities[a].status == ActivityCancelled then (db, Err(Conflict))
              else if q.now < db.activities[a].form.start - 3_600_000 || db.activities[a].form.end < q.now
              then (db, Err(Conflict))
              else if db.tickets[q.ticketId].status != Unused then (db, Err(Conflict))
              else if q.checkInId in db.checkIns || Recorded(db, q.requestId) then (db, Err(Storage(DuplicateKey)))
              else (CheckedIn(db, q), Ok((q.checkInId, RecordOf(db, q))))
  {
    if q.ticketId in history[j].tickets {
      TicketSeenAndNow(history, j, k, q.ticketId);
      StateIsGoodAt(history);
      if history[|history| - 1].tickets[q.ticketId].status == Unused {
        UnusedIsUnrecorded(history[|history| - 1], q.ticketId);
      }
    }
  }

  lemma StateIsGoodAt(history: seq<Db>)
    requires Run(history)
    ensures Good(history[|history| - 1])
  {
    RunIsSound(history);
  }

  /** What is recorded stays recorded. */
  lemma RecordsStay(history: seq<Db>, i: nat, requestId: string)
    requires Run(history) && i < |history| && Recorded(history[i], requestId)
    ensures Recorded(history[|history| - 1], requestId)
  {
    RunIsSound(history);
    assert Evolves(history[i], history[|history| - 1]);
    var c :| c in history[i].checkIns && history[i].checkIns[c].requestId == requestId;
    assert CheckInLater(history[i].checkIns, history[|history| - 1].checkIns, c);
  }

  /** A request that is recorded at the commit changes nothing. */
  lemma RecordedChangesNothing(history: seq<Db>, i: nat, j: nat, k: nat, q: CheckInRequest)
    requires i <= j <= k < |history| && Recorded(history[|history| - 1], q.requestId)
    ensures Exec(history, DoCheckIn(i, j, k, q)) == history[|history| - 1]
  {
  }

  /** Exactly when a check-in commits, and what it does then; otherwise it changes nothing. */
  lemma CheckInCommitsIff(history: seq<Db>, i: nat, j: nat, k: nat, q: CheckInRequest)
    requires Run(history) && i <= j <= k < |history|
    ensures var seen, db := history[j], history[|history| - 1];
            && (q.ticketId in seen.tickets ==>
                  && q.ticketId in db.tickets && seen.tickets[q.ticketId].activityId in history[k].activities
                  && seen.tickets[q.ticketId].activityId in db.activities)
            && Exec(history, DoCheckIn(i, j, k, q)) ==
               if && 1 <= |q.requestId| <= 64 && !Recorded(db, q.requestId) && q.checkInId !in db.checkIns
                  && q.ticketId in seen.tickets
                  && var a := seen.tickets[q.ticketId].activityId;
                  && (q.expectedActivity == None || q.expectedActivity == Some(a))
                  && (q.actor.id == db.activities[a].organizer || q.actor.isAdmin)
                  && seen.tickets[q.ticketId].status == Unused && db.tickets[q.ticketId].status == Unused
                  && history[k].activities[a].status != ActivityCancelled
                  && db.activities[a].form.start - 3_600_000 <= q.now <= db.activities[a].form.end
               then CheckedIn(db, q) else db
  {
    var db := history[|history| - 1];
    if q.ticketId in history[j].tickets { TicketSeenAndNow(history, j, k, q.ticketId); }
    if Recorded(history[i], q.requestId) { RecordsStay(history, i, q.requestId); }
    if Recorded(db, q.requestId) {
      RecordedChangesNothing(history, i, j, k, q);
    } else if 1 <= |q.requestId| <= 64 {
      CheckInAnswer(history, i, j, k, db, q);
    }
  }

  /** The timeout of one ticket. */
  lemma ExpireTicketAnswer(history: seq<Db>, i: nat, t: Id, now: Time)
    requires Run(history) && i < |history|
    ensures t in history[i].tickets ==>
              && t in history[|history| - 1].tickets
              && history[i].tickets[t].activityId in history[|history| - 1].activities
    ensures var seen, db := history[i], history[|history| - 1];
            Exec(history, DoExpireTicket(i, t, now)) == Committed(db, ExpireTicket(seen, db, t, now))
            && ExpireTicket(seen, db, t, now) ==
               if t !in seen.tickets || seen.tickets[t].status != Unused then Err(TicketNotFound)
               else if now < db.activities[seen.tickets[t].activityId].form.end then Err(TicketNotFound)
               else if db.tickets[t].status != Unused then Err(Conflict)
               else Ok(Closed(db, t, TicketExpired, TicketExpiredEvent))
  {
    if t in history[i].tickets {
      TicketSeenAndNow(history, i, i, t);
    }
  }
}
