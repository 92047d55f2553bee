/**
 Applications, materials and automation runs as values: what each statement or transaction of the
 store makes of them.
 */
module AutomationTables {
  import opened Wrappers
  import opened Tables
  import opened Text

  datatype ApplicationStatus = ReadyToApply | ApprovedForAutomation | Submitted | Interview

  datatype Application = Application(
    jobId: nat, profileId: nat, status: ApplicationStatus, matchScore: int, resume: Option<nat>, cover: Option<nat>)

  datatype Material = Material(
    applicationId: nat, jobId: nat, profileId: nat, kind: string, documentId: nat,
    status: string, notes: string, sourceEvent: Option<string>)

  datatype RunStatus = Requested | Started | ReviewRequired | RunSubmitted | Failed

  datatype Run = Run(
    applicationId: nat, jobId: nat, profileId: nat, status: RunStatus, resume: nat, cover: Option<nat>,
    finalUrl: Option<string>, error: Option<string>,
    requestedAt: int, startedAt: Option<int>, reviewRequiredAt: Option<int>, finishedAt: Option<int>)

  datatype Db = Db(
    applications: map<nat, Application>, materials: map<nat, Material>, runs: map<nat, Run>,
    nextApplication: nat, nextMaterial: nat, nextRun: nat)

  const EMPTY := Db(map[], map[], map[], 1, 1, 1)

  datatype Failure =
    | NotFound | AlreadySubmitted | NotApproved(material: nat) | NoApprovedResume
    | NotStartable | NotReviewable | NotSubmittable | UnsupportedStatus | UniqueViolation | NoSelectedResume

  const APPROVED := "approved"
  const RESUME := "resume"
  const COVER_LETTER := "cover_letter"

  // ---- Applications ---------------------------------------------------------------------------

  function ApplicationFor(applications: map<nat, Application>, jobId: nat, next: nat): (found: Option<nat>)
    ensures found.Some? ==> found.value in applications && applications[found.value].jobId == jobId
    ensures found.None? ==> forall id | id in applications && 1 <= id < next :: applications[id].jobId != jobId
  {
    FirstRow(applications, (row: Application) => row.jobId == jobId, 1, next)
  }

  /** `MarkApplicationReady`: one application per job; its selected materials stay. */
  function MarkReady(db: Db, jobId: nat, profileId: nat, score: int): Db {
    match ApplicationFor(db.applications, jobId, db.nextApplication)
    case Some(id) =>
      db.(applications := db.applications[id := db.applications[id].(
            profileId := profileId, status := ReadyToApply, matchScore := score)])
    case None =>
      var row := Application(jobId, profileId, ReadyToApply, score, None, None);
      db.(applications := db.applications[db.nextApplication := row],
          nextApplication := db.nextApplication + 1)
  }

  function SetApplicationStatus(db: Db, id: nat, status: ApplicationStatus): Db {
    if id in db.applications
    then db.(applications := db.applications[id := db.applications[id].(status := status)]) else db
  }

  // ---- Materials ------------------------------------------------------------------------------

  datatype MaterialParams = MaterialParams(
    applicationId: nat, jobId: nat, profileId: nat, kind: string, documentId: nat,
    status: string, notes: string, sourceEventId: string)

  function StatusOrDraft(status: string): string {
    if status == "" then "draft" else status
  }

  predicate SameDraft(m: Material, applicationId: nat, kind: string, event: string) {
    m.applicationId == applicationId && m.kind == kind && m.sourceEvent == Some(event)
  }

  /** The oldest such draft. */
  function MaterialFor(materials: map<nat, Material>, p: MaterialParams, next: nat): (found: Option<nat>)
    ensures found.Some? ==> 1 <= found.value < next && IsDraftOf(materials, found.value, p)
    ensures found.Some? ==> forall id | 1 <= id < found.value :: !IsDraftOf(materials, id, p)
    ensures found.None? ==> forall id | 1 <= id < next :: !IsDraftOf(materials, id, p)
  {
    FirstRow(materials, (row: Material) => SameDraft(row, p.applicationId, p.kind, p.sourceEventId), 1, next)
  }

  predicate IsDraftOf(materials: map<nat, Material>, id: nat, p: MaterialParams) {
    id in materials && SameDraft(materials[id], p.applicationId, p.kind, p.sourceEventId)
  }

  function InsertMaterial(db: Db, p: MaterialParams): (Db, Result<nat, Failure>) {
    var event := NullIfEmpty(p.sourceEventId);
    if event.Some? && exists m | m in db.materials :: SameDraft(db.materials[m], p.applicationId, p.kind, event.value)
    then (db, Err(UniqueViolation))
    else
      var row := Material(
        p.applicationId, p.jobId, p.profileId, p.kind, p.documentId, StatusOrDraft(p.status), p.notes, event);
      (db.(materials := db.materials[db.nextMaterial := row], nextMaterial := db.nextMaterial + 1), Ok(db.nextMaterial))
  }

  function UpdateMaterial(db: Db, id: nat, documentId: nat, status: string, notes: string): Db {
    if id in db.materials then
      db.(materials := db.materials[id := db.materials[id].(
            documentId := documentId, status := status, notes := notes)])
    else db
  }

  /** The select of `CreateApplicationMaterial`. */
  function SelectDraft(db: Db, p: MaterialParams): Option<nat> {
    if p.sourceEventId == "" then None else MaterialFor(db.materials, p, db.nextMaterial)
  }

  /** Its update or insert, in whatever state that statement runs. */
  function WriteDraft(db: Db, p: MaterialParams, existing: Option<nat>): (Db, Result<nat, Failure>) {
    if existing.Some? then
      (UpdateMaterial(db, existing.value, p.documentId, StatusOrDraft(p.status), p.notes), Ok(existing.value))
    else InsertMaterial(db, p)
  }

  /** The whole call, when nothing runs between the two. */
  function CreateMaterial(db: Db, p: MaterialParams): (Db, Result<nat, Failure>) {
    WriteDraft(db, p, SelectDraft(db, p))
  }

  predicate SupportedStatus(status: string) {
    status in {"draft", APPROVED, "rejected", "needs_changes", "regeneration_requested"}
  }

  function ReviewMaterial(db: Db, id: nat, status: string, notes: string): (Db, Result<(), Failure>) {
    if !SupportedStatus(status) then (db, Err(UnsupportedStatus))
    else if id !in db.materials then (db, Err(NotFound))
    else (UpdateMaterial(db, id, db.materials[id].documentId, status, notes), Ok(()))
  }

  // ---- Approval -------------------------------------------------------------------------------

  /** The last resume and the last cover letter of the rows (0 for none), if every row is approved. */
  function Picked(materials: map<nat, Material>, rows: seq<nat>, resume: nat, cover: nat): Result<(nat, nat), Failure>
    requires forall id | id in rows :: id in materials
  {
    if rows == [] then (if resume == 0 then Err(NoApprovedResume) else Ok((resume, cover)))
    else
      var id := rows[0];
      if materials[id].status != APPROVED then Err(NotApproved(id))
      else Picked(materials, rows[1..],
                  if materials[id].kind == RESUME then id else resume,
                  if materials[id].kind == COVER_LETTER then id else cover)
  }

  /** The rows are the application's materials, each once, in whatever order the query returns them. */
  predicate RowsOf(materials: map<nat, Material>, applicationId: nat, rows: seq<nat>) {
    && (forall i, j | 0 <= i < j < |rows| :: rows[i] != rows[j])
    && (forall id | id in rows :: id in materials && materials[id].applicationId == applicationId)
    && (forall id | id in materials && materials[id].applicationId == applicationId :: id in rows)
  }

  predicate IsActive(run: Run, applicationId: nat) {
    run.applicationId == applicationId && (run.status.Requested? || run.status.Started? || run.status.ReviewRequired?)
  }

  /** The newest active run of the application. */
  function ActiveRun(runs: map<nat, Run>, applicationId: nat, hi: nat): (found: Option<nat>)
    ensures found.Some? ==> found.value in runs && found.value < hi && IsActive(runs[found.value], applicationId)
    ensures found.Some? ==> forall id | id in runs && found.value < id < hi :: !IsActive(runs[id], applicationId)
    ensures found.None? ==> forall id | id in runs && id < hi :: !IsActive(runs[id], applicationId)
  {
    if hi == 0 then None
    else if hi - 1 in runs && IsActive(runs[hi - 1], applicationId) then Some(hi - 1)
    else ActiveRun(runs, applicationId, hi - 1)
  }

  function NullIfZero(id: nat): Option<nat> {
    if id == 0 then None else Some(id)
  }

  function NewRun(applicationId: nat, jobId: nat, profileId: nat, resume: nat, cover: Option<nat>, now: int): Run {
    Run(applicationId, jobId, profileId, Requested, resume, cover, None, None, now, None, None, None)
  }

  function Approve(db: Db, id: nat, rows: seq<nat>, now: int): (Db, Result<nat, Failure>)
    requires forall m | m in rows :: m in db.materials
  {
    if id !in db.applications then (db, Err(NotFound))
    else if db.applications[id].status == Submitted then (db, Err(AlreadySubmitted))
    else
      var picked := Picked(db.materials, rows, 0, 0);
      if picked.Err? then (db, Err(picked.error))
      else
        var app, (resume, cover) := db.applications[id], picked.value;
        var selected := db.applications[id := app.(
          status := ApprovedForAutomation, resume := Some(resume), cover := NullIfZero(cover))];
        var active := ActiveRun(db.runs, id, db.nextRun);
        if active.Some? then (db.(applications := selected), Ok(active.value))
        else
          (db.(applications := selected,
               runs := db.runs[db.nextRun := NewRun(id, app.jobId, app.profileId, resume, NullIfZero(cover), now)],
               nextRun := db.nextRun + 1), Ok(db.nextRun))
  }

  // ---- Runs -----------------------------------------------------------------------------------

  function PutRun(db: Db, id: nat, run: Run): Db {
    db.(runs := db.runs[id := run])
  }

  function Start(db: Db, id: nat, now: int): (Db, Result<Run, Failure>) {
    if id !in db.runs || !(db.runs[id].status.Requested? || db.runs[id].status.Started?) then (db, Err(NotStartable))
    else
      var run := db.runs[id].(status := Started,
                              startedAt := if db.runs[id].startedAt.Some? then db.runs[id].startedAt else Some(now));
      (PutRun(db, id, run), Ok(run))
  }

  function RequireReview(db: Db, id: nat, finalUrl: string, now: int): (Db, Result<Run, Failure>) {
    if id !in db.runs || !IsActive(db.runs[id], db.runs[id].applicationId) then (db, Err(NotReviewable))
    else
      var run := db.runs[id].(status := ReviewRequired, finalUrl := Some(finalUrl), reviewRequiredAt := Some(now));
      (PutRun(db, id, run), Ok(run))
  }

  /** `MarkAutomationFailed` has no guard on the status. */
  function Fail(db: Db, id: nat, message: string, now: int): (Db, Result<Run, Failure>) {
    if id !in db.runs then (db, Err(NotFound))
    else
      var run := db.runs[id].(status := Failed, error := Some(message), finishedAt := Some(now));
      (PutRun(db, id, run), Ok(run))
  }

  /** The first statement of `MarkAutomationSubmitted`; the second sets the application's status. */
  function Submit(db: Db, id: nat, finalUrl: string, now: int): (Db, Result<Run, Failure>) {
    if id !in db.runs || !(db.runs[id].status.ReviewRequired? || db.runs[id].status.Started?)
      then (db, Err(NotSubmittable))
    else
      var run := db.runs[id].(status := RunSubmitted, finishedAt := Some(now),
                              finalUrl := if finalUrl == "" then db.runs[id].finalUrl else Some(finalUrl));
      (PutRun(db, id, run), Ok(run))
  }

  /** The insert of `RetryAutomationRun`, from the row it read before. */
  function Retry(db: Db, read: Run, now: int): (Db, nat) {
    var run := NewRun(read.applicationId, read.jobId, read.profileId, read.resume, read.cover, now);
    (db.(runs := db.runs[db.nextRun := run], nextRun := db.nextRun + 1), db.nextRun)
  }

  // ---- The packet a worker loads --------------------------------------------------------------

  datatype Packet = Packet(applicationId: nat, run: nat, jobId: nat, profileId: nat, resume: nat, cover: Option<nat>)

  function PacketOf(db: Db, id: nat): Result<Packet, Failure> {
    if id !in db.applications then Err(NotFound)
    else
      var app := db.applications[id];
      var active := ActiveRun(db.runs, id, db.nextRun);
      if app.resume.None? || app.resume.value == 0 then Err(NoSelectedResume)
      else if app.resume.value !in db.materials then Err(NotFound)
      else if app.cover.Some? && app.cover.value !in db.materials then Err(NotFound)
      else
        var run := if active.Some? then active.value else 0;
        Ok(Packet(id, run, app.jobId, app.profileId, app.resume.value, app.cover))
  }

  /** The whole approval call: the transaction, then the packet and the run, whose failure undoes nothing. */
  function HandOff(db: Db, id: nat, rows: seq<nat>, now: int): (Db, Result<(Run, Packet), Failure>)
    requires forall m | m in rows :: m in db.materials
  {
    var (after, approved) := Approve(db, id, rows, now);
    if approved.Err? then (after, Err(approved.error))
    else
      var packet := PacketOf(after, id);
      if packet.Err? then (after, Err(packet.error))
      else if approved.value !in after.runs then (after, Err(NotFound))
      else (after, Ok((after.runs[approved.value], packet.value)))
  }

  // ---- What one statement may change ----------------------------------------------------------

  function Rank(status: RunStatus): nat {
    match status case Requested => 0 case Started => 1 case ReviewRequired => 2 case RunSubmitted => 3 case Failed => 4
  }

  predicate SameIds(a: Run, b: Run) {
    && a.applicationId == b.applicationId && a.jobId == b.jobId && a.profileId == b.profileId
    && a.resume == b.resume && a.cover == b.cover
  }

  /**
   A run moves forward: same ids, a status that never goes down, a start time never rewritten, a final
   address never lost.
   */
  ghost predicate RunMoves(a: Run, b: Run) {
    && SameIds(a, b) && Rank(a.status) <= Rank(b.status)
    && (a.startedAt.Some? ==> b.startedAt == a.startedAt) && (a.finalUrl.Some? ==> b.finalUrl.Some?)
  }

  ghost predicate RunsMove(a: map<nat, Run>, b: map<nat, Run>) {
    forall r | r in a :: r in b && RunMoves(a[r], b[r])
  }

  ghost predicate ApplicationsKept(a: map<nat, Application>, b: map<nat, Application>) {
    forall i | i in a :: i in b && b[i].jobId == a[i].jobId && (a[i].resume.Some? ==> b[i].resume.Some?)
  }

  ghost predicate MaterialsKept(a: map<nat, Material>, b: map<nat, Material>) {
    forall m | m in a ::
      m in b && b[m].applicationId == a[m].applicationId && b[m].kind == a[m].kind
        && b[m].sourceEvent == a[m].sourceEvent
  }

  ghost predicate Evolves(a: Db, b: Db) {
    ApplicationsKept(a.applications, b.applications) && MaterialsKept(a.materials, b.materials)
      && RunsMove(a.runs, b.runs)
  }

  ghost predicate IdsIssued(db: Db) {
    && db.nextApplication >= 1 && db.nextMaterial >= 1
    && (forall i | i in db.applications :: 1 <= i < db.nextApplication)
    && (forall m | m in db.materials :: 1 <= m < db.nextMaterial)
    && (forall r | r in db.runs :: r < db.nextRun)
  }
}
