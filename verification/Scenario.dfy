/**
 Concrete runs of the registration core: one that goes through to a redeemed ticket, and one that
 shows what the commit of a registration does not check.
 */
module Scenario {
  import opened Wrappers
  import opened Model
  import opened Transactions
  import opened Services
  import opened Protocol

  lemma Extend(history: seq<Db>, action: Action, next: Db)
    requires Run(history) && Step(history, action, next)
    ensures Run(history + [next])
  {
    var more := history + [next];
    assert Reaches(history, next);
    forall n: nat ensures StepAt(more, n) {
      assert StepAt(history, n);
      if 0 < n < |history| {
        assert more[..n] == history[..n];
      } else if n == |history| {
        assert more[..n] == history;
      }
    }
  }

  function SomeForm(): Form {
    Form("Hike", 1, 5, 10, 20, 1, false)
  }

  /** Activity 1 of organizer 7 before it is published. */
  function Unpublished(form: Form, status: ActivityStatus, version: nat): Activity {
    Activity(7, form, 0, 0, status, version, None)
  }

  /** A run of three states after which activity 1 waits for review. */
  lemma SubmittedRun() returns (history: seq<Db>)
    ensures Run(history) && |history| == 3
    ensures history[2].activities == map[1 := Unpublished(SomeForm(), PendingReview, 1)]
    ensures history[2].registrations == map[] && history[2].tickets == map[] && history[2].checkIns == map[]
    ensures history[2].groups == map[]
  {
    history := [EMPTY_DB];
    assert forall n: nat :: StepAt(history, n);
    var created := CreateActivity(EMPTY_DB, 1, 7, SomeForm()).value;
    assert created.activities == map[1 := Unpublished(SomeForm(), Draft, 0)];
    Extend(history, DoCreateActivity(1, 7, SomeForm()), created);
    history := history + [created];
    var submitted := SubmitActivity(created, created, 1, 7, 0).value;
    assert submitted.activities == map[1 := Unpublished(SomeForm(), PendingReview, 1)];
    Extend(history, DoSubmitActivity(1, 1, 7, 0), submitted);
    history := history + [submitted];
  }

  /** A run of four states after which activity 1 is published. */
  lemma PublishedRun() returns (history: seq<Db>)
    ensures Run(history) && |history| == 4
    ensures var db := history[3];
            && db.activities == map[1 := Activity(7, SomeForm(), 0, 0, Published, 2, Some(0))]
            && db.registrations == map[] && db.tickets == map[] && db.checkIns == map[]
            && 1 in db.groups && db.groups == map[1 := Group(7, GroupActive)]
  {
    history := SubmittedRun();
    var submitted := history[2];
    var published := ReviewActivity(submitted, submitted, 1, Publish, 0).value;
    assert published.activities == map[1 := Activity(7, SomeForm(), 0, 0, Published, 2, Some(0))];
    Extend(history, DoReviewActivity(2, 1, Publish, 0), published);
    history := history + [published];
  }

  /** There is a run in which user 8 registers and the ticket is redeemed. */
  lemma ATicketIsRedeemed() returns (history: seq<Db>)
    ensures Run(history) && |history| == 6
    ensures 3 in history[5].tickets && history[5].tickets[3].status == Used && 4 in history[5].checkIns
    ensures 1 in history[5].activities && history[5].activities[1].approved == 1
  {
    history := PublishedRun();
    var published := history[3];
    var q := RegisterRequest(1, 8, true, 2, 2, 3, "A");
    var input := PrepareRegister(published, published, q).value;
    var registered := Register(published, published, published, q).value;
    Extend(history, DoRegister(3, 3, q), registered);
    history := history + [registered];
    var request := CheckInRequest("r", 3, None, Actor(7, false), 15, 4);
    var prepared := PrepareCheckIn(registered, registered, request).value;
    assert FindByRequestId(registered.checkIns, "r") == None;
    var redeemed := CheckInTx(registered, 4, prepared.0, prepared.1).value;
    Extend(history, DoCheckIn(4, 4, 4, request), redeemed);
    history := history + [redeemed];
  }

  /**
   The commit of a registration reads neither the status nor the windows of the activity again: a
   registration that was prepared before a cancellation commits after it.
   */
  lemma RegisterAfterCancellation() returns (history: seq<Db>)
    ensures Run(history) && |history| == 6
    ensures 1 in history[4].activities && history[4].activities[1].status == ActivityCancelled
    ensures 2 !in history[4].registrations && 2 in history[5].registrations
    ensures history[5].registrations[2].status == Approved
  {
    history := PublishedRun();
    var published := history[3];
    var cancelled := CancelActivity(published, published, 1, 7, 0).value;
    Extend(history, DoCancelActivity(3, 1, 7, 0), cancelled);
    history := history + [cancelled];
    var q := RegisterRequest(1, 8, true, 2, 2, 3, "A");
    var input := PrepareRegister(published, published, q).value;
    var registered := Register(published, published, cancelled, q).value;
    Extend(history, DoRegister(3, 3, q), registered);
    history := history + [registered];
  }

  function OtherForm(): Form {
    SomeForm().(title := "Swim")
  }

  /** Activity 1 was submitted at state 2, then sent back and edited `edits` times. */
  lemma {:induction false} EditedRun(edits: nat) returns (history: seq<Db>)
    ensures Run(history) && |history| == 4 + edits
    ensures history[2].activities == map[1 := Unpublished(SomeForm(), PendingReview, 1)]
    ensures history[3 + edits].activities
            == map[1 := Unpublished(if edits == 0 then SomeForm() else OtherForm(), Draft, 2 + edits)]
    ensures history[3 + edits].groups == map[]
  {
    if edits == 0 {
      history := SubmittedRun();
      var sentBack := ReviewActivity(history[2], history[2], 1, SendBack, 0).value;
      assert sentBack.activities == map[1 := Unpublished(SomeForm(), Draft, 2)];
      Extend(history, DoReviewActivity(2, 1, SendBack, 0), sentBack);
      history := history + [sentBack];
    } else {
      history := EditedRun(edits - 1);
      var last := history[2 + edits];
      var edited := UpdateActivity(last, last, 1, 7, OtherForm()).value;
      assert edited.activities == map[1 := Unpublished(OtherForm(), Draft, 2 + edits)];
      Extend(history, DoUpdateActivity(2 + edits, 1, 7, OtherForm()), edited);
      history := history + [edited];
    }
  }

  /**
   The commit of an approval compares the status, not the version: from three changes on, an approval
   of what was read at state 2 can publish a form that nobody reviewed.
   */
  lemma AnUnseenFormIsPublished(changes: nat) returns (history: seq<Db>, next: Db)
    requires changes >= 3
    ensures Run(history) && |history| == 3 + changes && Step(history, DoReviewActivity(2, 1, Publish, 0), next)
    ensures 1 in history[2].activities && 1 in history[2 + changes].activities && 1 in next.activities
    ensures history[2 + changes].activities[1].version == history[2].activities[1].version + changes
    ensures next.activities[1].status == Published && next.activities[1].form != history[2].activities[1].form
  {
    var edits := changes - 2;
    history := EditedRun(edits);
    var last := history[3 + edits];
    var submitted := SubmitActivity(last, last, 1, 7, 0).value;
    assert submitted.activities == map[1 := Unpublished(OtherForm(), PendingReview, 3 + edits)];
    Extend(history, DoSubmitActivity(3 + edits, 1, 7, 0), submitted);
    next := ReviewActivity(history[2], submitted, 1, Publish, 0).value;
    history := history + [submitted];
  }
}
