/** How the folds and counts of the invariant move when one row or one event is added. */
module Folds {
  import opened Wrappers
  import opened Model
  import opened Invariants

  /** One more outbox event. */
  lemma EventAppended(o: seq<Event>, e: Event)
    ensures forall r: Id :: ReplayRegistration(o + [e], r) == ReplayStep(ReplayRegistration(o, r), e, r)
    ensures forall kind, t: Id :: TicketEvents(o + [e], kind, t)
              == TicketEvents(o, kind, t) + if e.TicketEvent? && e.ticketKind == kind && e.ticketId == t then 1 else 0
    ensures forall a: Id :: ActivityEvents(o + [e], a)
              == ActivityEvents(o, a) + if e.ActivityEvent? && e.activityId == a then 1 else 0
    ensures forall r: Id :: AnnouncedChanges(o + [e], r)
              == AnnouncedChanges(o, r)
                 + if e.RegistrationEvent? && e.registrationId == r && e.from.Some? then [(e.from.value, e.to)] else []
  {
    assert (o + [e])[..|o|] == o;
  }

  lemma RegistrationLogAppended(log: seq<RegistrationLog>, l: RegistrationLog)
    ensures forall r: Id :: LoggedChanges(log + [l], r)
              == LoggedChanges(log, r) + if l.registrationId == r then [(l.from, l.to)] else []
  {
    assert (log + [l])[..|log|] == log;
  }

  lemma ActivityLogAppended(log: seq<ActivityLog>, l: ActivityLog)
    ensures forall a: Id :: ActivityPath(log + [l], a)
              == if l.activityId != a then ActivityPath(log, a)
                 else if ActivityPath(log, a) == Some(l.from) && AllowedActivityChange(l.from, l.to) then Some(l.to)
                 else None
    ensures forall a: Id :: TimesPublished(log + [l], a)
              == TimesPublished(log, a) + if l.activityId == a && l.to == Published then 1 else 0
  {
    assert (log + [l])[..|log|] == log;
  }

  /** Two sets that agree except on `x`. */
  lemma CountMoved<T>(before: set<T>, after: set<T>, x: T)
    requires before - {x} == after - {x}
    ensures |after| == |before| - (if x in before then 1 else 0) + (if x in after then 1 else 0)
  {
    assert |before| == |before - {x}| + if x in before then 1 else 0;
    assert |after| == |after - {x}| + if x in after then 1 else 0;
  }

  /** One registration row written: counted where it is now, no longer where it was. */
  lemma HoldingWritten(registrations: map<Id, Registration>, id: Id, row: Registration, a: Id, s: RegistrationStatus)
    ensures |Holding(registrations[id := row], a, s)|
            == |Holding(registrations, a, s)|
               - (if id in registrations && registrations[id].activityId == a && registrations[id].status == s
                  then 1 else 0)
               + (if row.activityId == a && row.status == s then 1 else 0)
  {
    var before, after := Holding(registrations, a, s), Holding(registrations[id := row], a, s);
    assert before - {id} == after - {id};
    CountMoved(before, after, id);
  }

  /** A ticket or registration lookup by key survives a write elsewhere. */
  lemma HasTicketKept(tickets: map<Id, Ticket>, after: map<Id, Ticket>, r: Id)
    requires HasTicket(tickets, r)
    requires forall t <- tickets :: t in after && after[t].registrationId == tickets[t].registrationId
    ensures HasTicket(after, r)
  {
    var t :| t in tickets && tickets[t].registrationId == r;
    assert t in after;
  }
}
