/** What each writer leaves in the rows of applications and runs, and a run's whole life in one row. */
module AutomationRows {
  import opened Wrappers
  import opened Tables
  import opened AutomationTables
  import opened AutomationWorker
  import opened Automation

  // ---- Applications ---------------------------------------------------------------------------

  /**
   A match makes the job's one application ready, with its profile and score: the known one, with what
   it has selected, or a new one that has selected nothing.
   */
  lemma MatchWrites(db: Db, jobId: nat, profileId: nat, score: int)
    requires IdsIssued(db) && JobsUnique(db.applications)
    ensures var after := MarkReady(db, jobId, profileId, score);
            exists id | id in after.applications ::
              && after == db.(applications := db.applications[id := after.applications[id]],
                              nextApplication := after.nextApplication)
              && var row := after.applications[id];
                 && row.jobId == jobId && row.profileId == profileId && row.matchScore == score
                 && row.status == ReadyToApply
                 && if id in db.applications
                    then db.applications[id].jobId == jobId
                         && row.resume == db.applications[id].resume && row.cover == db.applications[id].cover
                    else (forall j | j in db.applications :: db.applications[j].jobId != jobId)
                         && row.resume.None? && row.cover.None?
  {
    var found := ApplicationFor(db.applications, jobId, db.nextApplication);
    var id := if found.Some? then found.value else db.nextApplication;
    hide FirstRow;
    assert id in MarkReady(db, jobId, profileId, score).applications;
  }

  /**
   An approval marks the application and selects for it; it returns the newest active run untouched, or
   a new requested run for the application's job and profile with what was selected. Nothing else changes.
   */
  lemma ApprovalWrites(db: Db, app: nat, rows: seq<nat>, now: int)
    requires IdsIssued(db) && RowsOf(db.materials, app, rows) && Approve(db, app, rows, now).1.Ok?
    ensures var (after, run) := (Approve(db, app, rows, now).0, Approve(db, app, rows, now).1.value);
            && app in db.applications && app in after.applications && run in after.runs
            && after.materials == db.materials
            && after.applications == db.applications[app := after.applications[app]]
            && var (row, was) := (after.applications[app], db.applications[app]);
               && row.status == ApprovedForAutomation
               && row.jobId == was.jobId && row.profileId == was.profileId && row.matchScore == was.matchScore
               && row.resume.Some? && row.resume.value in db.materials
               && db.materials[row.resume.value].kind == "resume"
               && db.materials[row.resume.value].applicationId == app
               && (row.cover.Some? ==>
                     row.cover.value in db.materials && db.materials[row.cover.value].kind == "cover_letter"
                     && db.materials[row.cover.value].applicationId == app)
               && (forall m | m in db.materials && db.materials[m].applicationId == app ::
                     db.materials[m].status == "approved")
               && if exists r | r in db.runs :: IsActive(db.runs[r], app)
                  then after.runs == db.runs && IsActive(db.runs[run], app)
                       && forall r | r in db.runs && IsActive(db.runs[r], app) :: r <= run
                  else run !in db.runs && after.runs == db.runs[run := after.runs[run]]
                       && after.runs[run] == Run(app, was.jobId, was.profileId, Requested, row.resume.value, row.cover,
                                                 None, None, now, None, None, None)
  {
    ApprovalGate(db, app, rows, now);
    hide Picked, RowsOf, HasKind;
    var active := ActiveRun(db.runs, app, db.nextRun);
    assert active.None? ==> forall r | r in db.runs :: !IsActive(db.runs[r], app);
    assert active.Some? ==> IsActive(db.runs[active.value], app);
  }

  // ---- Runs -----------------------------------------------------------------------------------

  /** Which runs each transition accepts; a refused one changes nothing, an accepted one that run only. */
  lemma TransitionsAccept(db: Db, id: nat, text: string, now: int)
    ensures var known := id in db.runs;
            && (Start(db, id, now).1.Ok? <==> known && db.runs[id].status in {Requested, Started})
            && (RequireReview(db, id, text, now).1.Ok?
                <==> known && db.runs[id].status in {Requested, Started, ReviewRequired})
            && (Submit(db, id, text, now).1.Ok? <==> known && db.runs[id].status in {Started, ReviewRequired})
            && (Fail(db, id, text, now).1.Ok? <==> known)
    ensures forall t | t in {Start(db, id, now), RequireReview(db, id, text, now), Submit(db, id, text, now),
                             Fail(db, id, text, now)} ::
              if t.1.Ok? then id in t.0.runs && t.1.value == t.0.runs[id]
                              && t.0 == db.(runs := db.runs[id := t.0.runs[id]])
              else t.0 == db
  {
  }

  /**
   A run's whole life: requested, started twice, reviewed, submitted. The first start time stays, the
   address given last and not blank is the final one, and every other column is as requested.
   */
  lemma LifeOfARun(db: Db, id: nat, t1: int, t2: int, url: string, t3: int, final: string, t4: int)
    requires id in db.runs && db.runs[id].status.Requested? && db.runs[id].startedAt.None?
    ensures var started := Start(Start(db, id, t1).0, id, t2).0;
            var submitted := Submit(RequireReview(started, id, url, t3).0, id, final, t4);
            && submitted.1.Ok?
            && submitted.1.value == db.runs[id].(
                 status := RunSubmitted, startedAt := Some(t1), reviewRequiredAt := Some(t3), finishedAt := Some(t4),
                 finalUrl := Some(if final == "" then url else final))
  {
  }

  /** A started run that fails keeps its times and says why; its retry is a new requested run of the same ids. */
  lemma LifeOfAFailure(db: Db, id: nat, t1: int, message: string, t2: int, t3: int)
    requires IdsIssued(db) && id in db.runs && db.runs[id].status.Requested? && db.runs[id].startedAt.None?
    ensures var failed := Fail(Start(db, id, t1).0, id, message, t2);
            && failed.1.Ok?
            && failed.1.value == db.runs[id].(
                 status := Failed, startedAt := Some(t1), error := Some(message), finishedAt := Some(t2))
            && var (after, retry) := Retry(failed.0, failed.1.value, t3);
               && retry !in db.runs && retry in after.runs && id in after.runs && after.runs[id] == failed.1.value
               && (forall r | r in db.runs && r != id :: r in after.runs && after.runs[r] == db.runs[r])
               && var (row, was) := (after.runs[retry], db.runs[id]);
                  row == Run(was.applicationId, was.jobId, was.profileId, Requested, was.resume, was.cover,
                             None, None, t3, None, None, None)
  {
  }

  /** When a packet loads, and what it holds: the application's ids and selection, and its newest active run or 0. */
  lemma PacketHolds(db: Db, app: nat)
    requires IdsIssued(db)
    ensures var packet := PacketOf(db, app);
            && (packet.Ok? <==>
                  && app in db.applications && db.applications[app].resume.Some?
                  && db.applications[app].resume.value != 0
                  && db.applications[app].resume.value in db.materials
                  && (db.applications[app].cover.Some? ==> db.applications[app].cover.value in db.materials))
            && (packet.Ok? ==>
                  && packet.value.applicationId == app && packet.value.jobId == db.applications[app].jobId
                  && packet.value.profileId == db.applications[app].profileId
                  && Some(packet.value.resume) == db.applications[app].resume
                  && packet.value.cover == db.applications[app].cover
                  && (forall r | r in db.runs && IsActive(db.runs[r], app) :: r <= packet.value.run)
                  && (packet.value.run != 0 ==>
                        packet.value.run in db.runs && IsActive(db.runs[packet.value.run], app)))
  {
  }

  // ---- The worker -----------------------------------------------------------------------------

  /** How a run ends up after one message: prepared, failed and why, or left started. */
  lemma WorkerOutcome(db: Db, id: nat, outside: Outside, finalUrl: string, now: int)
    requires id in db.runs && db.runs[id].status in {Requested, Started}
    ensures var (after, prepared) := Handled(db, id, outside, finalUrl, now);
            var (started, was) := (Start(db, id, now).0, db.runs[id]);
            var packet := PacketOf(started, was.applicationId);
            var reachesBrowser := outside.startNoted && packet.Ok? && outside.loadNoted;
            && id in after.runs
            && (prepared <==>
                  && reachesBrowser && outside.browserError.None? && outside.browserNoted && outside.reviewNoted)
            && after.runs[id].startedAt == (if was.startedAt.Some? then was.startedAt else Some(now))
            && (after.runs[id].status.ReviewRequired? <==>
                  reachesBrowser && outside.browserError.None? && outside.browserNoted)
            && (after.runs[id].status.Failed? <==>
                  outside.startNoted && (packet.Err? || (outside.loadNoted && outside.browserError.Some?)))
            && (after.runs[id].status.Failed? ==>
                  after.runs[id].error == if packet.Err? then Some(ErrorText(packet.error)) else outside.browserError)
            && (!after.runs[id].status.ReviewRequired? && !after.runs[id].status.Failed? ==>
                  after.runs[id].status.Started?)
  {
    hide PacketOf;
  }

  lemma WorkerRefuses(db: Db, id: nat, outside: Outside, finalUrl: string, now: int)
    requires id !in db.runs || db.runs[id].status !in {Requested, Started}
    ensures Handled(db, id, outside, finalUrl, now) == (db, false)
  {
    hide PacketOf;
  }

  // ---- Calls nobody interrupts ----------------------------------------------------------------

  /** The steps of a mark-submitted call with nothing between them: the run, and then its application. */
  lemma UninterruptedSubmission(s: Sys, op: nat, id: nat, finalUrl: string, now: int)
    requires op !in s.submits && id in s.db.runs
    ensures var t := Do(Do(Do(s, SubmitRead(op, id)), SubmitRun(op, finalUrl, now)), SubmitApplication(op));
            var (after, result) := Submit(s.db, id, finalUrl, now);
            && t.db == (if result.Ok? then SetApplicationStatus(after, s.db.runs[id].applicationId, Submitted)
              else s.db)
            && t.submits == s.submits
  {
    hide Submit, SetApplicationStatus;
    TransitionsAccept(s.db, id, finalUrl, now);
    assert s.submits[op := PendingRun(id, s.db.runs[id].applicationId)] - {op} == s.submits;
    assert s.submits[op := PendingApplication(s.db.runs[id].applicationId)] - {op} == s.submits;
  }

  /** Setting an application's status writes that column of that row, and nothing for an unknown one. */
  lemma StatusSet(db: Db, app: nat, status: ApplicationStatus)
    ensures var after := SetApplicationStatus(db, app, status);
            && after == db.(applications := after.applications) && after.applications.Keys == db.applications.Keys
            && (forall i | i in db.applications && i != app :: after.applications[i] == db.applications[i])
            && (app in db.applications ==>
                  after.applications[app].status == status
                  && after.applications[app] == db.applications[app].(status := after.applications[app].status))
  {
  }

  /** The same for a retry. */
  lemma UninterruptedRetry(s: Sys, op: nat, id: nat, now: int)
    requires op !in s.retries && id in s.db.runs
    ensures var t := Do(Do(s, RetryRead(op, id)), RetryInsert(op, now));
            t.db == Retry(s.db, s.db.runs[id], now).0 && t.retries == s.retries
  {
    hide Retry;
    assert s.retries[op := Read(id, s.db.runs[id])] - {op} == s.retries;
  }
}
