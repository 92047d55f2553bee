/** The automation worker: one requested run, from start to review, with every early exit. */
module AutomationWorker {
  import opened Wrappers
  import opened AutomationTables
  import AutomationStore

  /** What happens outside the store: which logs and events were accepted, and how the browser launch ended. */
  datatype Outside = Outside(
    startNoted: bool, loadNoted: bool, browserError: Option<string>, browserNoted: bool, reviewNoted: bool)

  /** The text of a store error. */
  const ErrorText: Failure -> string

  /** The tables after one message, and whether the run was prepared. */
  function Handled(db: Db, id: nat, outside: Outside, finalUrl: string, now: int): (Db, bool) {
    var (started, start) := Start(db, id, now);
    if start.Err? || !outside.startNoted then (started, false)
    else
      var packet := PacketOf(started, start.value.applicationId);
      if packet.Err? then (Fail(started, id, ErrorText(packet.error), now).0, false)
      else if !outside.loadNoted then (started, false)
      else if outside.browserError.Some? then (Fail(started, id, outside.browserError.value, now).0, false)
      else if !outside.browserNoted then (started, false)
      else
        var (reviewed, review) := RequireReview(started, id, finalUrl, now);
        (reviewed, review.Ok? && outside.reviewNoted)
  }

  class Worker {
    const store: AutomationStore.Store

    constructor (store: AutomationStore.Store)
      ensures this.store == store
    {
      this.store := store;
    }

    method ProcessMessage(id: nat, outside: Outside, finalUrl: string, now: int) returns (prepared: bool)
      modifies store
      ensures (store.View(), prepared) == Handled(old(store.View()), id, outside, finalUrl, now)
    {
      var run := store.StartAutomationRun(id, now);
      if run.Err? || !outside.startNoted {
        return false;
      }
      var packet := PacketOf(store.View(), run.value.applicationId);
      if packet.Err? {
        var _ := store.MarkAutomationFailed(id, ErrorText(packet.error), now);
        return false;
      }
      if !outside.loadNoted {
        return false;
      }
      if outside.browserError.Some? {
        var _ := store.MarkAutomationFailed(id, outside.browserError.value, now);
        return false;
      }
      if !outside.browserNoted {
        return false;
      }
      var review := store.MarkAutomationReviewRequired(id, finalUrl, now);
      prepared := review.Ok? && outside.reviewNoted;
    }
  }

  /**
   A worker touches its own run and no other row. A prepared run waits for review with its start time
   known; a worker never submits a run and never finishes one without recording the error.
   */
  lemma WorkerStopsAtReview(db: Db, id: nat, outside: Outside, finalUrl: string, now: int)
    ensures var (after, prepared) := Handled(db, id, outside, finalUrl, now);
            && after.(runs := db.runs) == db
            && (forall r | r != id ::
              (r in after.runs <==> r in db.runs) && (r in db.runs ==> after.runs[r] == db.runs[r]))
            && (id !in after.runs || !after.runs[id].status.RunSubmitted? || after == db)
            && (after != db ==>
                  && id in db.runs && id in after.runs
                  && RunMoves(db.runs[id], after.runs[id]) && after.runs[id].startedAt.Some?)
            && (prepared ==>
                  id in after.runs && after.runs[id].status.ReviewRequired?
                    && after.runs[id].finalUrl == Some(finalUrl))
            && (after != db && after.runs[id].status.Failed? ==>
                  after.runs[id].error.Some? && after.runs[id].finishedAt == Some(now))
  {
    hide PacketOf;
  }
}
