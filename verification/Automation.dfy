/**
 Approval, automation worker and API calls running at once. Every statement or transaction of the
 store is one step, and a worker or an API call may stop for good between any two of its steps.
 */
module Automation {
  import opened Wrappers
  import opened Text
  import opened AutomationTables
  import opened AutomationWorker

  /** A `MarkAutomationSubmitted` call before its first update, and before its second. */
  datatype Submission = PendingRun(run: nat, applicationId: nat) | PendingApplication(applicationId: nat)

  /** A `RetryAutomationRun` call that has read its run. */
  datatype Read = Read(run: nat, row: Run)

  /** The tables, the run each worker holds, and the API calls under way. */
  datatype Sys = Sys(db: Db, workers: map<nat, nat>, submits: map<nat, Submission>, retries: map<nat, Read>)

  const INIT := Sys(EMPTY, map[], map[], map[])

  datatype Step =
    | MatchJob(jobId: nat, profileId: nat, score: int)
    | AddMaterial(p: MaterialParams)
    | RewriteMaterial(material: nat, documentId: nat, status: string, notes: string)
    | Review(material: nat, status: string, notes: string)
    | ScheduleInterview(app: nat)
    | ApproveApplication(app: nat, rows: seq<nat>, now: int)
    | WorkerStart(worker: nat, run: nat, now: int)
    | WorkerFail(worker: nat, message: string, now: int)
    | WorkerReview(worker: nat, finalUrl: string, now: int)
    | WorkerExit(worker: nat)
    | FailRun(run: nat, message: string, now: int)
    | SubmitRead(op: nat, run: nat)
    | SubmitRun(op: nat, finalUrl: string, now: int)
    | SubmitApplication(op: nat)
    | RetryRead(op: nat, run: nat)
    | RetryInsert(op: nat, now: int)
    | Drop(op: nat)

  // ---- One step; a step that is not possible changes nothing ----------------------------------

  function DbAfter(s: Sys, step: Step): Db {
    match step
    case MatchJob(job, profile, score) => MarkReady(s.db, job, profile, score)
    case AddMaterial(p) => InsertMaterial(s.db, p).0
    case RewriteMaterial(id, document, status, notes) => UpdateMaterial(s.db, id, document, status, notes)
    case Review(id, status, notes) => ReviewMaterial(s.db, id, status, notes).0
    case ScheduleInterview(app) => SetApplicationStatus(s.db, app, Interview)
    case ApproveApplication(app, rows, now) =>
      if RowsOf(s.db.materials, app, rows) then Approve(s.db, app, rows, now).0 else s.db
    case WorkerStart(w, run, now) => if w in s.workers then s.db else Start(s.db, run, now).0
    case WorkerFail(w, message, now) => if w in s.workers then Fail(s.db, s.workers[w], message, now).0 else s.db
    case WorkerReview(w, url, now) => if w in s.workers then RequireReview(s.db, s.workers[w], url, now).0 else s.db
    case FailRun(run, message, now) => Fail(s.db, run, message, now).0
    case SubmitRun(op, url, now) =>
      if op in s.submits && s.submits[op].PendingRun? then Submit(s.db, s.submits[op].run, url, now).0 else s.db
    case SubmitApplication(op) =>
      if op in s.submits && s.submits[op].PendingApplication?
      then SetApplicationStatus(s.db, s.submits[op].applicationId, Submitted) else s.db
    case RetryInsert(op, now) => if op in s.retries then Retry(s.db, s.retries[op].row, now).0 else s.db
    case _ => s.db
  }

  function WorkersAfter(s: Sys, step: Step): map<nat, nat> {
    match step
    case WorkerStart(w, run, now) =>
      if w !in s.workers && Start(s.db, run, now).1.Ok? then s.workers[w := run] else s.workers
    case WorkerFail(w, _, _) => s.workers - {w}
    case WorkerReview(w, _, _) => s.workers - {w}
    case WorkerExit(w) => s.workers - {w}
    case _ => s.workers
  }

  function SubmitsAfter(s: Sys, step: Step): map<nat, Submission> {
    match step
    case SubmitRead(op, run) =>
      if op !in s.submits && run in s.db.runs
      then s.submits[op := PendingRun(run, s.db.runs[run].applicationId)] else s.submits
    case SubmitRun(op, url, now) =>
      if op !in s.submits || !s.submits[op].PendingRun? then s.submits
      else if Submit(s.db, s.submits[op].run, url, now).1.Ok?
      then s.submits[op := PendingApplication(s.submits[op].applicationId)]
      else s.submits - {op}
    case SubmitApplication(op) =>
      if op in s.submits && s.submits[op].PendingApplication? then s.submits - {op} else s.submits
    case Drop(op) => s.submits - {op}
    case _ => s.submits
  }

  function RetriesAfter(s: Sys, step: Step): map<nat, Read> {
    match step
    case RetryRead(op, run) =>
      if op !in s.retries && run in s.db.runs then s.retries[op := Read(run, s.db.runs[run])] else s.retries
    case RetryInsert(op, _) => s.retries - {op}
    case Drop(op) => s.retries - {op}
    case _ => s.retries
  }

  function Do(s: Sys, step: Step): Sys {
    Sys(DbAfter(s, step), WorkersAfter(s, step), SubmitsAfter(s, step), RetriesAfter(s, step))
  }

  function After(steps: seq<Step>): Sys {
    if steps == [] then INIT else Do(After(steps[..|steps| - 1]), steps[|steps| - 1])
  }

  lemma AfterOneMore(steps: seq<Step>, step: Step)
    ensures After(steps + [step]) == Do(After(steps), step)
  {
    assert (steps + [step])[..|steps|] == steps;
  }

  // ---- A worker nobody interrupts -------------------------------------------------------------

  /** The step after the start that ends the handling of one message. */
  function LastStep(started: Db, w: nat, run: Run, outside: Outside, finalUrl: string, now: int): Step {
    var packet := PacketOf(started, run.applicationId);
    if !outside.startNoted then WorkerExit(w)
    else if packet.Err? then WorkerFail(w, ErrorText(packet.error), now)
    else if !outside.loadNoted then WorkerExit(w)
    else if outside.browserError.Some? then WorkerFail(w, outside.browserError.value, now)
    else if !outside.browserNoted then WorkerExit(w)
    else WorkerReview(w, finalUrl, now)
  }

  /** Two steps of the machine do to the tables what handling the message in one go does. */
  lemma UninterruptedWorker(s: Sys, w: nat, id: nat, outside: Outside, finalUrl: string, now: int)
    requires w !in s.workers && Start(s.db, id, now).1.Ok?
    ensures var t := Do(s, WorkerStart(w, id, now));
            var last := LastStep(t.db, w, t.db.runs[id], outside, finalUrl, now);
            && Do(t, last).db == Handled(s.db, id, outside, finalUrl, now).0
            && Do(t, last).workers == s.workers
  {
    hide PacketOf;
    assert s.workers[w := id] - {w} == s.workers;
  }

  // ---- The approval gate ----------------------------------------------------------------------

  predicate IsAmong(materials: map<nat, Material>, rows: seq<nat>, id: nat, kind: string)
    requires forall id | id in rows :: id in materials
  {
    id in rows && materials[id].kind == kind
  }

  /** What the material loop accepts, and what it picks. */
  lemma {:induction false} PickedSpec(materials: map<nat, Material>, rows: seq<nat>, resume: nat, cover: nat)
    requires forall id | id in rows :: 1 <= id && id in materials
    ensures var picked := Picked(materials, rows, resume, cover);
            && (picked.Ok? <==> (forall id | id in rows :: materials[id].status == APPROVED)
                                && (resume != 0 || exists id | id in rows :: materials[id].kind == RESUME))
            && (picked.Ok? ==>
                  && picked.value.0 != 0
                  && (picked.value.0 == resume || IsAmong(materials, rows, picked.value.0, RESUME))
                  && (picked.value.1 == cover || IsAmong(materials, rows, picked.value.1, COVER_LETTER)))
            && (picked.Ok? && picked.value.1 == 0 ==> forall id | id in rows :: materials[id].kind != COVER_LETTER)
  {
    if rows == [] {
    } else {
      var id := rows[0];
      var resume' := if materials[id].kind == RESUME then id else resume;
      var cover' := if materials[id].kind == COVER_LETTER then id else cover;
      assert forall m :: m in rows <==> m == id || m in rows[1..];
      PickedSpec(materials, rows[1..], resume', cover');
    }
  }

  ghost predicate AllApproved(materials: map<nat, Material>, app: nat) {
    forall m | m in materials && materials[m].applicationId == app :: materials[m].status == APPROVED
  }

  ghost predicate HasKind(materials: map<nat, Material>, app: nat, kind: string) {
    exists m | m in materials :: materials[m].applicationId == app && materials[m].kind == kind
  }

  /** Material `m` belongs to the application and is of the kind. */
  predicate IsOf(materials: map<nat, Material>, m: nat, app: nat, kind: string) {
    1 <= m && m in materials && materials[m].applicationId == app && materials[m].kind == kind
  }

  lemma HasKindAmong(materials: map<nat, Material>, app: nat, rows: seq<nat>, kind: string)
    requires RowsOf(materials, app, rows)
    ensures HasKind(materials, app, kind) <==> exists id | id in rows :: materials[id].kind == kind
  {
    if HasKind(materials, app, kind) {
      var m :| m in materials && materials[m].applicationId == app && materials[m].kind == kind;
      assert m in rows;
    }
  }

  /** The material loop over an application's rows: when it succeeds, and what it picks. */
  lemma PickedGate(materials: map<nat, Material>, app: nat, rows: seq<nat>)
    requires RowsOf(materials, app, rows) && forall m | m in materials :: 1 <= m
    ensures var picked := Picked(materials, rows, 0, 0);
            && (picked.Ok? <==> AllApproved(materials, app) && HasKind(materials, app, RESUME))
            && (picked.Ok? ==>
                  && IsOf(materials, picked.value.0, app, RESUME)
                  && (picked.value.1 != 0 <==> HasKind(materials, app, COVER_LETTER))
                  && (picked.value.1 != 0 ==> IsOf(materials, picked.value.1, app, COVER_LETTER)))
  {
    PickedSpec(materials, rows, 0, 0);
    HasKindAmong(materials, app, rows, RESUME);
    HasKindAmong(materials, app, rows, COVER_LETTER);
    hide Picked, HasKind;
  }

  /**
   Approval succeeds exactly when the application exists, is not submitted, has a resume and has no
   unapproved material; it then selects a resume and, if there is one, a cover letter of its own.
   */
  lemma ApprovalGate(db: Db, app: nat, rows: seq<nat>, now: int)
    requires IdsIssued(db) && RowsOf(db.materials, app, rows)
    ensures var (after, result) := Approve(db, app, rows, now);
            && (result.Ok? <==> app in db.applications && db.applications[app].status != Submitted
                                && AllApproved(db.materials, app) && HasKind(db.materials, app, RESUME))
            && (result.Err? ==> after == db)
            && (result.Ok? ==>
                  && app in after.applications
                  && after.applications[app].resume.Some?
                  && IsOf(db.materials, after.applications[app].resume.value, app, RESUME)
                  && (after.applications[app].cover.Some? <==> HasKind(db.materials, app, COVER_LETTER))
                  && (after.applications[app].cover.Some? ==>
                        IsOf(db.materials, after.applications[app].cover.value, app, COVER_LETTER)))
  {
    PickedGate(db.materials, app, rows) by { assert forall m | m in db.materials :: 1 <= m; }
    hide ActiveRun, Picked, RowsOf, AllApproved, HasKind, IsOf;
  }

  // ---- Unique keys ----------------------------------------------------------------------------

  /** One application for each job. */
  ghost predicate JobsUnique(applications: map<nat, Application>) {
    forall i, j | i in applications && j in applications && i != j :: applications[i].jobId != applications[j].jobId
  }

  /** One material for each application, kind and source event. */
  ghost predicate DraftsUnique(materials: map<nat, Material>) {
    forall m, n | m in materials && n in materials && m != n && materials[m].sourceEvent.Some? ::
      !SameDraft(materials[n], materials[m].applicationId, materials[m].kind, materials[m].sourceEvent.value)
  }

  /** Source events are stored trimmed, and a blank one not at all. */
  ghost predicate EventsTrimmed(db: Db) {
    forall m | m in db.materials && db.materials[m].sourceEvent.Some? ::
      TrimSpace(db.materials[m].sourceEvent.value) == db.materials[m].sourceEvent.value
  }

  lemma EventsStayTrimmed(s: Sys, step: Step)
    requires EventsTrimmed(s.db)
    ensures EventsTrimmed(DbAfter(s, step))
  {
    if step.AddMaterial? { TrimIdentity(Go, step.p.sourceEventId); TrimIdentity(Go, TrimSpace(step.p.sourceEventId)); }
    assert step.AddMaterial? ==> TrimSpace(TrimSpace(step.p.sourceEventId)) == TrimSpace(step.p.sourceEventId);
    hide ActiveRun, Picked, RowsOf, TrimSpace;
  }

  lemma JobsStayUnique(s: Sys, step: Step)
    requires IdsIssued(s.db) && JobsUnique(s.db.applications)
    ensures JobsUnique(DbAfter(s, step).applications)
  {
    hide ActiveRun, Picked, RowsOf;
  }

  lemma DraftsStayUnique(s: Sys, step: Step)
    requires IdsIssued(s.db) && DraftsUnique(s.db.materials)
    ensures DraftsUnique(DbAfter(s, step).materials)
  {
    hide ActiveRun, Picked, RowsOf, NullIfEmpty;
  }

  /** The application has a draft of that kind for the event. */
  ghost predicate HasDraft(db: Db, p: MaterialParams, event: string) {
    exists m | m in db.materials :: SameDraft(db.materials[m], p.applicationId, p.kind, event)
  }

  /**
   `CreateApplicationMaterial` selects in one state and writes in another. It fails exactly when the
   trimmed event has a draft at the write that the select did not find: because it compares the padded
   id, which is never stored, or because the draft was not there yet.
   */
  lemma DraftRefusedIff(before: Db, at: Db, p: MaterialParams)
    requires IdsIssued(before) && EventsTrimmed(before)
    ensures var event := TrimSpace(p.sourceEventId);
            WriteDraft(at, p, SelectDraft(before, p)).1.Err?
            <==> event != "" && HasDraft(at, p, event) && (event != p.sourceEventId || !HasDraft(before, p, event))
  {
    TrimIdentity(Go, "");
    assert TrimSpace("") == "";
    hide TrimSpace;
    var event := TrimSpace(p.sourceEventId);
    if SelectDraft(before, p).Some? {
      assert IsDraftOf(before.materials, SelectDraft(before, p).value, p);
    }
  }

  /** Creating the same draft again rewrites its one row. */
  lemma DraftWrittenOnce(db: Db, p: MaterialParams, again: MaterialParams)
    requires IdsIssued(db) && p.sourceEventId != "" && TrimSpace(p.sourceEventId) == p.sourceEventId
    requires again.applicationId == p.applicationId && again.kind == p.kind && again.sourceEventId == p.sourceEventId
    ensures var (first, id) := CreateMaterial(db, p);
            var (second, same) := CreateMaterial(first, again);
            && id.Ok? && same == id && second.materials.Keys == first.materials.Keys && id.value in second.materials
            && second.materials[id.value].documentId == again.documentId
            && second.materials[id.value].status == StatusOrDraft(again.status)
            && second.materials[id.value].notes == again.notes
            && (forall m | m in first.materials && m != id.value :: second.materials[m] == first.materials[m])
  {
    hide TrimSpace, StatusOrDraft;
    DraftFound(db, p, again);
  }

  predicate SameLookup(p: MaterialParams, q: MaterialParams) {
    q.applicationId == p.applicationId && q.kind == p.kind && q.sourceEventId == p.sourceEventId
  }

  lemma DraftFound(db: Db, p: MaterialParams, again: MaterialParams)
    requires IdsIssued(db) && p.sourceEventId != "" && TrimSpace(p.sourceEventId) == p.sourceEventId
        && SameLookup(p, again)
    ensures var (first, id) := CreateMaterial(db, p);
            id.Ok? && MaterialFor(first.materials, again, first.nextMaterial) == Some(id.value)
  {
    hide TrimSpace, StatusOrDraft;
    var (first, id) := CreateMaterial(db, p);
    assert IsDraftOf(first.materials, id.value, again);
    assert forall m | 1 <= m < id.value :: IsDraftOf(first.materials, m, again) <==> IsDraftOf(db.materials, m, p);
  }

  // ---- What every step keeps ------------------------------------------------------------------

  /** Every id was issued by its table. */
  lemma IdsStayIssued(s: Sys, step: Step)
    requires IdsIssued(s.db)
    ensures IdsIssued(DbAfter(s, step))
  {
    hide Picked, RowsOf, ActiveRun;
  }

  lemma RunsEvolve(s: Sys, step: Step)
    requires IdsIssued(s.db)
    ensures RunsMove(s.db.runs, DbAfter(s, step).runs)
  {
    hide Picked, RowsOf, ActiveRun;
  }

  lemma MaterialsStay(s: Sys, step: Step)
    requires IdsIssued(s.db)
    ensures MaterialsKept(s.db.materials, DbAfter(s, step).materials)
  {
    hide Picked, RowsOf, ActiveRun;
  }

  /** Rows are never removed, and no run ever moves backwards. */
  lemma DbEvolves(s: Sys, step: Step)
    requires IdsIssued(s.db)
    ensures Evolves(s.db, DbAfter(s, step))
  {
    RunsEvolve(s, step);
    MaterialsStay(s, step);
    hide Picked, RowsOf, ActiveRun, RunMoves, RunsMove, MaterialsKept;
  }

  lemma EvolvesTransitive(a: Db, b: Db, c: Db)
    requires Evolves(a, b) && Evolves(b, c)
    ensures Evolves(a, c)
  {
  }

  ghost predicate Chosen(materials: map<nat, Material>, resume: nat, cover: Option<nat>, app: nat) {
    IsOf(materials, resume, app, RESUME) && (cover.Some? ==> IsOf(materials, cover.value, app, COVER_LETTER))
  }

  /** A selection of the application is of the right kind and its own; a cover letter comes with a resume. */
  ghost predicate SelectionTyped(materials: map<nat, Material>, app: Application, i: nat) {
    if app.resume.Some? then Chosen(materials, app.resume.value, app.cover, i) else app.cover.None?
  }

  /** The selections of every application and run are of the right kind and of that application. */
  ghost predicate ApplicationsTyped(db: Db) {
    forall i | i in db.applications ::
      SelectionTyped(db.materials, db.applications[i], i)
  }

  ghost predicate RunTyped(db: Db, run: Run) {
    && run.applicationId in db.applications
    && run.jobId == db.applications[run.applicationId].jobId
    && db.applications[run.applicationId].resume.Some?
    && Chosen(db.materials, run.resume, run.cover, run.applicationId)
  }

  ghost predicate RunsTyped(db: Db) {
    forall r | r in db.runs :: RunTyped(db, db.runs[r])
  }

  /** Started, waiting for review or submitted: the start time is known; requested: it is not. */
  ghost predicate StartKnown(run: Run) {
    && (run.status.Started? || run.status.ReviewRequired? || run.status.RunSubmitted? ==> run.startedAt.Some?)
    && (run.status.Requested? ==> run.startedAt.None?)
  }

  /** Finished, failed and reviewed runs carry the times, the error and the address they should, and no others do. */
  ghost predicate FinishKnown(run: Run) {
    && (run.status.RunSubmitted? || run.status.Failed? <==> run.finishedAt.Some?)
    && (run.status.Failed? <==> run.error.Some?)
    && (run.status.ReviewRequired? ==> run.reviewRequiredAt.Some? && run.finalUrl.Some?)
  }

  ghost predicate FinishesKnown(db: Db) {
    forall r | r in db.runs :: FinishKnown(db.runs[r])
  }

  ghost predicate StartsKnown(db: Db) {
    forall r | r in db.runs :: StartKnown(db.runs[r])
  }

  ghost predicate WorkersHold(s: Sys) {
    forall w | w in s.workers :: s.workers[w] in s.db.runs && s.db.runs[s.workers[w]].startedAt.Some?
  }

  ghost predicate SubmitsHold(runs: map<nat, Run>, submits: map<nat, Submission>) {
    forall op | op in submits && submits[op].PendingRun? ::
      submits[op].run in runs && runs[submits[op].run].applicationId == submits[op].applicationId
  }

  ghost predicate RetriesHold(runs: map<nat, Run>, retries: map<nat, Read>) {
    forall op | op in retries :: retries[op].run in runs && SameIds(retries[op].row, runs[retries[op].run])
  }

  ghost predicate Inv(s: Sys) {
    IdsIssued(s.db) && ApplicationsTyped(s.db) && RunsTyped(s.db) && StartsKnown(s.db) && FinishesKnown(s.db)
    && WorkersHold(s)
    && SubmitsHold(s.db.runs, s.submits) && RetriesHold(s.db.runs, s.retries)
  }

  lemma ChosenStays(a: map<nat, Material>, b: map<nat, Material>, resume: nat, cover: Option<nat>, app: nat)
    requires MaterialsKept(a, b) && Chosen(a, resume, cover, app)
    ensures Chosen(b, resume, cover, app)
  {
  }

  lemma {:induction false} KeysAlwaysUnique(steps: seq<Step>)
    ensures JobsUnique(After(steps).db.applications) && DraftsUnique(After(steps).db.materials)
        && EventsTrimmed(After(steps).db)
  {
    if steps == [] {
    } else {
      var n := |steps| - 1;
      KeysAlwaysUnique(steps[..n]);
      Always(steps[..n]);
      JobsStayUnique(After(steps[..n]), steps[n]);
      DraftsStayUnique(After(steps[..n]), steps[n]);
      EventsStayTrimmed(After(steps[..n]), steps[n]);
      hide JobsUnique, DraftsUnique, EventsTrimmed;
    }
  }

  /** The application a step selects materials for. */
  predicate Selects(step: Step, app: nat) {
    step.ApproveApplication? && step.app == app
  }

  lemma SelectionsFramed(s: Sys, step: Step)
    requires IdsIssued(s.db)
    ensures var after := DbAfter(s, step).applications;
            forall i | i in after && !Selects(step, i) ::
              if i in s.db.applications
              then after[i].resume == s.db.applications[i].resume && after[i].cover == s.db.applications[i].cover
              else after[i].resume.None? && after[i].cover.None?
  {
    hide RowsOf, Picked;
  }

  lemma ApplicationsStayTyped(s: Sys, step: Step)
    requires Inv(s)
    ensures ApplicationsTyped(DbAfter(s, step))
  {
    var t := DbAfter(s, step);
    DbEvolves(s, step);
    SelectionsFramed(s, step);
    hide DbAfter;
    forall i | i in t.applications
      ensures SelectionTyped(t.materials, t.applications[i], i)
    {
      if Selects(step, i) {
        SelectedTyped(s, step);
      } else if i in s.db.applications && t.applications[i].resume.Some? {
        ChosenStays(s.db.materials, t.materials, t.applications[i].resume.value, t.applications[i].cover, i);
      }
    }
  }

  lemma SelectedTyped(s: Sys, step: Step)
    requires IdsIssued(s.db) && ApplicationsTyped(s.db) && step.ApproveApplication?
    requires step.app in DbAfter(s, step).applications
    ensures SelectionTyped(DbAfter(s, step).materials, DbAfter(s, step).applications[step.app], step.app)
  {
    hide ActiveRun, Picked;
    if RowsOf(s.db.materials, step.app, step.rows) { ApprovalGate(s.db, step.app, step.rows, step.now); }
  }

  /** A run a step inserts is a new approval's or a copy of the row a retry read. */
  lemma NewRuns(s: Sys, step: Step)
    requires Inv(s)
    ensures var t := DbAfter(s, step);
            forall r | r in t.runs && r !in s.db.runs ::
              && r == s.db.nextRun && t.runs[r].status.Requested? && t.runs[r].startedAt.None?
              && if step.RetryInsert? then step.op in s.retries && SameIds(t.runs[r], s.retries[step.op].row)
                 else && step.ApproveApplication? && step.app in t.applications
                      && RowsOf(s.db.materials, step.app, step.rows)
                      && Approve(s.db, step.app, step.rows, step.now).1 == Ok(r)
                      && ActiveRun(s.db.runs, step.app, s.db.nextRun).None?
                      && t.runs[r].applicationId == step.app && t.runs[r].jobId == t.applications[step.app].jobId
                      && t.applications[step.app].resume == Some(t.runs[r].resume)
                      && t.applications[step.app].cover == t.runs[r].cover
  {
    hide ActiveRun, Picked, RowsOf;
  }

  lemma RunsStayTyped(s: Sys, step: Step)
    requires Inv(s)
    ensures RunsTyped(DbAfter(s, step))
  {
    var t := DbAfter(s, step);
    DbEvolves(s, step);
    NewRuns(s, step);
    ApplicationsStayTyped(s, step);
    hide DbAfter;
    forall r | r in t.runs ensures RunTyped(t, t.runs[r]) {
      if r in s.db.runs {
        ChosenStays(s.db.materials, t.materials, t.runs[r].resume, t.runs[r].cover, t.runs[r].applicationId);
      } else if step.RetryInsert? {
        var read := s.retries[step.op];
        assert RunTyped(s.db, s.db.runs[read.run]);
        ChosenStays(s.db.materials, t.materials, t.runs[r].resume, t.runs[r].cover, t.runs[r].applicationId);
      }
    }
  }

  lemma StartsStayKnown(s: Sys, step: Step)
    requires StartsKnown(s.db) && WorkersHold(s)
    ensures StartsKnown(DbAfter(s, step))
  {
    hide ActiveRun, Picked, RowsOf;
  }

  lemma FinishesStayKnown(s: Sys, step: Step)
    requires FinishesKnown(s.db)
    ensures FinishesKnown(DbAfter(s, step))
  {
    hide ActiveRun, Picked, RowsOf;
  }

  lemma StarterHolds(s: Sys, step: Step)
    requires step.WorkerStart? && step.worker !in s.workers && Start(s.db, step.run, step.now).1.Ok?
    ensures step.run in DbAfter(s, step).runs && DbAfter(s, step).runs[step.run].startedAt.Some?
  {
  }

  lemma WorkersStay(s: Sys, step: Step)
    requires Inv(s)
    ensures WorkersHold(Do(s, step))
  {
    hide DbAfter, SubmitsAfter, RetriesAfter;
    RunsEvolve(s, step);
    if step.WorkerStart? && step.worker !in s.workers && Start(s.db, step.run, step.now).1.Ok? {
      StarterHolds(s, step);
    }
  }

  lemma SubmitsStay(s: Sys, step: Step)
    requires Inv(s)
    ensures SubmitsHold(DbAfter(s, step).runs, SubmitsAfter(s, step))
  {
    DbEvolves(s, step);
    hide DbAfter, Submit;
  }

  lemma RetriesStay(s: Sys, step: Step)
    requires Inv(s)
    ensures RetriesHold(DbAfter(s, step).runs, RetriesAfter(s, step))
  {
    DbEvolves(s, step);
    hide DbAfter;
  }

  lemma {:induction false} Always(steps: seq<Step>)
    ensures Inv(After(steps))
  {
    if steps == [] {
    } else {
      var n := |steps| - 1;
      Always(steps[..n]);
      var s, step := After(steps[..n]), steps[n];
      DbEvolves(s, step);
      ApplicationsStayTyped(s, step);
      RunsStayTyped(s, step);
      StartsStayKnown(s, step);
      FinishesStayKnown(s, step);
      WorkersStay(s, step);
      IdsStayIssued(s, step);
      SubmitsStay(s, step);
      RetriesStay(s, step);
    }
  }
}
