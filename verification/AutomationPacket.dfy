/** The packet a worker loads: what it holds, where that was chosen, and whether it is still approved. */
module AutomationPacket {
  import opened Wrappers
  import opened AutomationTables
  import opened Automation
  import opened AutomationHistory

  // ---- The packet a worker loads --------------------------------------------------------------

  /** A worker can always load the packet of a run it holds, and it holds that application's own materials. */
  lemma PacketLoads(steps: seq<Step>, r: nat)
    requires r in After(steps).db.runs
    ensures var db := After(steps).db;
            var packet := PacketOf(db, db.runs[r].applicationId);
            && packet.Ok? && packet.value.jobId == db.runs[r].jobId
            && Chosen(db.materials, packet.value.resume, packet.value.cover, db.runs[r].applicationId)
            && (IsActive(db.runs[r], db.runs[r].applicationId) ==>
                  packet.value.run in db.runs && IsActive(db.runs[packet.value.run], db.runs[r].applicationId))
  {
    Always(steps);
    var db := After(steps).db;
    hide After;
    var app := db.runs[r].applicationId;
    assert RunTyped(db, db.runs[r]);
    assert ActiveRun(db.runs, app, db.nextRun).None? ==> forall q | q in db.runs :: !IsActive(db.runs[q], app);
  }

  /** Step `k` is a successful approval of the application. */
  ghost predicate SelectedAt(steps: seq<Step>, k: nat, app: nat) {
    k < |steps| && steps[k].ApproveApplication? && steps[k].app == app
    && RowsOf(After(steps[..k]).db.materials, app, steps[k].rows)
    && Approve(After(steps[..k]).db, app, steps[k].rows, steps[k].now).1.Ok?
  }

  ghost predicate LastSelectedAt(steps: seq<Step>, k: nat, app: nat) {
    SelectedAt(steps, k, app) && forall j | k < j < |steps| :: !SelectedAt(steps, j, app)
  }

  /** The selection is the one step `k` made, among materials that were then all approved. */
  ghost predicate SelectionFrom(steps: seq<Step>, k: nat, app: nat) {
    k < |steps|
    && var s, t, now := After(steps[..k]).db, DbAfter(After(steps[..k]), steps[k]), After(steps).db;
       && app in s.applications && app in t.applications && app in now.applications
       && now.applications[app].resume == t.applications[app].resume
       && now.applications[app].cover == t.applications[app].cover
       && AllApproved(s.materials, app)
       && t.applications[app].resume.Some?
       && Chosen(s.materials, t.applications[app].resume.value, t.applications[app].cover, app)
  }

  lemma SelectedAtStays(steps: seq<Step>, step: Step, app: nat)
    ensures forall j: nat | j < |steps| :: SelectedAt(steps + [step], j, app) <==> SelectedAt(steps, j, app)
    ensures forall j: nat | j < |steps| :: (steps + [step])[..j] == steps[..j]
  {
    hide After, Approve, RowsOf;
    forall j: nat | j < |steps| ensures SelectedAt(steps + [step], j, app) <==> SelectedAt(steps, j, app) {
      assert (steps + [step])[..j] == steps[..j];
    }
  }

  /** The step is a successful approval of the application. */
  predicate Reselects(s: Sys, step: Step, app: nat) {
    Selects(step, app) && RowsOf(s.db.materials, app, step.rows) && Approve(s.db, app, step.rows, step.now).1.Ok?
  }

  lemma ReselectsApproved(s: Sys, step: Step, app: nat)
    requires IdsIssued(s.db) && Reselects(s, step, app)
    ensures app in s.db.applications && AllApproved(s.db.materials, app) && app in DbAfter(s, step).applications
    ensures var after := DbAfter(s, step).applications[app];
            after.resume.Some? && Chosen(s.db.materials, after.resume.value, after.cover, app)
  {
    ApprovalGate(s.db, app, step.rows, step.now);
    hide ActiveRun, Picked, RowsOf, AllApproved, HasKind;
    assert DbAfter(s, step) == Approve(s.db, app, step.rows, step.now).0;
  }

  lemma ApprovalSelects(steps: seq<Step>, step: Step, app: nat)
    requires Reselects(After(steps), step, app)
    ensures LastSelectedAt(steps + [step], |steps|, app) && SelectionFrom(steps + [step], |steps|, app)
  {
    hide DbAfter, Approve, RowsOf, Chosen, AllApproved;
    Always(steps);
    AfterOneMore(steps, step);
    assert (steps + [step])[..|steps|] == steps;
    hide After;
    ReselectsApproved(After(steps), step, app);
  }

  /** The selection changes only by a successful approval. */
  lemma SelectionStays(s: Sys, step: Step, app: nat)
    requires Inv(s) && app in DbAfter(s, step).applications
    requires !Reselects(s, step, app)
    ensures var after := DbAfter(s, step).applications[app];
            if app in s.db.applications
            then after.resume == s.db.applications[app].resume && after.cover == s.db.applications[app].cover
            else after.resume.None?
  {
    if Selects(step, app) {
      hide RowsOf, Picked, ActiveRun;
      assert DbAfter(s, step) == s.db;
    } else {
      hide DbAfter;
      SelectionsFramed(s, step);
    }
  }

  lemma SelectionKept(before: seq<Step>, step: Step, app: nat, k: nat)
    requires LastSelectedAt(before, k, app) && SelectionFrom(before, k, app) && !Reselects(After(before), step, app)
    ensures LastSelectedAt(before + [step], k, app) && SelectionFrom(before + [step], k, app)
  {
    var steps := before + [step];
    var s := After(before);
    Always(before);
    AfterOneMore(before, step);
    SelectedAtStays(before, step, app);
    assert steps[..|before|] == before && steps[..k] == before[..k];
    hide After;
    DbEvolves(s, step);
    SelectionStays(s, step, app);
    hide Approve, RowsOf, DbAfter;
  }

  /**
   What an application has selected, hence what its packet holds, is what its latest successful
   approval selected, when all of the application's materials were approved.
   */
  lemma {:induction false} SelectionIsTheLastApproval(steps: seq<Step>, app: nat)
    requires app in After(steps).db.applications && After(steps).db.applications[app].resume.Some?
    ensures exists k: nat :: LastSelectedAt(steps, k, app) && SelectionFrom(steps, k, app)
  {
    var n := |steps| - 1;
    var before, step := steps[..n], steps[n];
    assert steps == before + [step];
    var s := After(before);
    AfterOneMore(before, step);
    hide After, Reselects, DbAfter;
    if Reselects(s, step, app) {
      ApprovalSelects(before, step, app);
    } else {
      Always(before);
      SelectionStays(s, step, app);
      SelectionIsTheLastApproval(before, app);
      var k: nat :| LastSelectedAt(before, k, app) && SelectionFrom(before, k, app);
      SelectionKept(before, step, app, k);
    }
  }

  /** The status a step writes to the material. */
  function StatusWritten(step: Step, m: nat): Option<string> {
    match step
    case RewriteMaterial(id, _, status, _) => if id == m then Some(status) else None
    case Review(id, status, _) => if id == m && SupportedStatus(status) then Some(status) else None
    case _ => None
  }

  function LastWritten(steps: seq<Step>, m: nat, status: string): string {
    if steps == [] then status
    else
      var written := StatusWritten(steps[|steps| - 1], m);
      if written.Some? then written.value else LastWritten(steps[..|steps| - 1], m, status)
  }

  lemma LastWrittenOneMore(steps: seq<Step>, step: Step, m: nat, status: string)
    ensures LastWritten(steps + [step], m, status)
         == if StatusWritten(step, m).Some? then StatusWritten(step, m).value else LastWritten(steps, m, status)
  {
    assert (steps + [step])[..|steps|] == steps;
  }

  lemma StatusStep(s: Sys, step: Step, m: nat)
    requires IdsIssued(s.db) && m in s.db.materials
    ensures m in DbAfter(s, step).materials
    ensures DbAfter(s, step).materials[m].status
         == if StatusWritten(step, m).Some? then StatusWritten(step, m).value else s.db.materials[m].status
  {
    hide ActiveRun, Picked, RowsOf;
  }

  /** A material's status is the last one that was written to it. */
  lemma {:induction false} StatusIsTheLastWritten(steps: seq<Step>, k: nat, m: nat)
    requires k <= |steps| && m in After(steps[..k]).db.materials
    ensures m in After(steps).db.materials
    ensures After(steps).db.materials[m].status == LastWritten(steps[k..], m, After(steps[..k]).db.materials[m].status)
  {
    if k == |steps| {
      assert steps[..k] == steps;
    } else {
      var n := |steps| - 1;
      var before, step := steps[..n], steps[n];
      assert steps == before + [step] && before[..k] == steps[..k] && steps[k..] == before[k..] + [step];
      AfterOneMore(before, step);
      hide After;
      StatusIsTheLastWritten(before, k, m);
      Always(before);
      StatusStep(After(before), step, m);
      LastWrittenOneMore(before[k..], step, m, After(steps[..k]).db.materials[m].status);
      hide DbAfter, LastWritten;
    }
  }

  /**
   The packet of an application names an approved resume exactly when nothing since its latest
   approval wrote another status to that resume last: loading a packet checks no status again.
   */
  lemma PacketApprovedIffNotRevoked(steps: seq<Step>, app: nat, k: nat)
    requires app in After(steps).db.applications && LastSelectedAt(steps, k, app) && SelectionFrom(steps, k, app)
    ensures var db := After(steps).db;
            && PacketOf(db, app).Ok?
            && var resume := PacketOf(db, app).value.resume;
               resume in db.materials
               && (db.materials[resume].status == APPROVED <==> LastWritten(steps[k..], resume, APPROVED) == APPROVED)
  {
    Always(steps);
    var s, db := After(steps[..k]).db, After(steps).db;
    var resume := db.applications[app].resume.value;
    assert IsOf(s.materials, resume, app, RESUME) && s.materials[resume].status == APPROVED;
    StatusIsTheLastWritten(steps, k, resume);
    hide After, DbAfter, ActiveRun, RowsOf, Approve;
    assert Chosen(db.materials, resume, db.applications[app].cover, app);
  }

  // ---- The approval call ----------------------------------------------------------------------

  /**
   With nothing running between its transaction and its two loads, the call fails in every reachable
   state exactly when the transaction does, and its packet holds the new selection.
   */
  lemma UninterruptedHandOff(steps: seq<Step>, app: nat, rows: seq<nat>, now: int)
    requires RowsOf(After(steps).db.materials, app, rows)
    ensures var db := After(steps).db;
            var (after, result) := HandOff(db, app, rows, now);
            && after == Approve(db, app, rows, now).0
            && (result.Ok? <==> Approve(db, app, rows, now).1.Ok?)
            && (result.Ok? ==>
                  && app in after.applications && after.applications[app].resume == Some(result.value.1.resume)
                  && after.applications[app].cover == result.value.1.cover
                  && result.value.0.applicationId == app && IsActive(result.value.0, app))
  {
    Always(steps);
    var db := After(steps).db;
    hide After, Picked, RowsOf;
    ApprovalGate(db, app, rows, now);
  }

  lemma ReselectsRun(s: Sys, step: Step, app: nat)
    requires Reselects(s, step, app)
    ensures Approve(s.db, app, step.rows, step.now).1.value in DbAfter(s, step).runs
  {
    assert DbAfter(s, step) == Approve(s.db, app, step.rows, step.now).0;
    hide DbAfter, RowsOf, Picked;
  }

  /** Whatever runs after the transaction, both loads succeed; the packet holds the application's own materials. */
  lemma PacketLoadsAfterApproval(steps: seq<Step>, step: Step, later: seq<Step>, app: nat)
    requires Reselects(After(steps), step, app)
    ensures var db := After(steps + [step] + later).db;
            && PacketOf(db, app).Ok?
            && Chosen(db.materials, PacketOf(db, app).value.resume, PacketOf(db, app).value.cover, app)
            && Approve(After(steps).db, app, step.rows, step.now).1.value in db.runs
  {
    var approved, all := steps + [step], steps + [step] + later;
    assert all[..|approved|] == approved;
    Always(steps);
    AfterOneMore(steps, step);
    ReselectsApproved(After(steps), step, app);
    ReselectsRun(After(steps), step, app);
    HistoryMovesForward(all, |approved|);
    Always(all);
    hide After, DbAfter, Reselects, Approve;
    var db := After(all).db;
    assert SelectionTyped(db.materials, db.applications[app], app);
  }

  // ---- The run an approval returns ------------------------------------------------------------

  /** The last row of the kind, or 0 for none. */
  function LastOf(materials: map<nat, Material>, rows: seq<nat>, kind: string): nat
    requires forall id | id in rows :: id in materials
    decreases |rows|
  {
    if rows == [] then 0
    else
      var n := |rows| - 1;
      if materials[rows[n]].kind == kind then rows[n] else LastOf(materials, rows[..n], kind)
  }

  lemma {:induction false} LastOfFirst(materials: map<nat, Material>, rows: seq<nat>, kind: string)
    requires rows != [] && forall id | id in rows :: 1 <= id && id in materials
    ensures var last := LastOf(materials, rows[1..], kind);
            LastOf(materials, rows, kind)
            == if last != 0 then last else if materials[rows[0]].kind == kind then rows[0] else 0
    decreases |rows|
  {
    var n := |rows| - 1;
    if n == 0 {
      assert rows[..n] == [] && rows[1..] == [];
    } else {
      assert rows[..n][1..] == rows[1..][..n - 1] && rows[1..][n - 1] == rows[n];
      assert forall id | id in rows[..n] :: id in rows;
      LastOfFirst(materials, rows[..n], kind);
    }
  }

  /** The loop picks the last resume and the last cover letter of the rows. */
  lemma {:induction false} PickedIsLast(materials: map<nat, Material>, rows: seq<nat>, resume: nat, cover: nat)
    requires forall id | id in rows :: 1 <= id && id in materials
    requires Picked(materials, rows, resume, cover).Ok?
    ensures var (lastResume, lastCover) := (LastOf(materials, rows, RESUME), LastOf(materials, rows, COVER_LETTER));
            Picked(materials, rows, resume, cover)
            == Ok((if lastResume != 0 then lastResume else resume, if lastCover != 0 then lastCover else cover))
  {
    if rows == [] {
    } else {
      var id, rest := rows[0], rows[1..];
      assert forall m | m in rest :: m in rows;
      LastOfFirst(materials, rows, RESUME);
      LastOfFirst(materials, rows, COVER_LETTER);
      PickedIsLast(materials, rest, if materials[id].kind == RESUME then id else resume,
                   if materials[id].kind == COVER_LETTER then id else cover);
      hide LastOf;
    }
  }

  /** The run carries what the application has selected. */
  predicate Carries(run: Run, app: Application) {
    app.resume == Some(run.resume) && app.cover == run.cover
  }

  /** The run an approval returns carries what the approval selected for the application. */
  predicate ApprovalAgrees(db: Db, app: nat, rows: seq<nat>, now: int)
    requires forall m | m in rows :: m in db.materials
  {
    var (after, result) := Approve(db, app, rows, now);
    result.Ok? && app in after.applications && result.value in after.runs
    && Carries(after.runs[result.value], after.applications[app])
  }

  /**
   Approving again while a run is active keeps that run, and selects anew for the application: the
   run returned carries the selection exactly when there was no active run, or the last resume and
   the last cover letter of the rows are the ones it already had.
   */
  lemma ApprovalAgreesWithItsRun(db: Db, app: nat, rows: seq<nat>, now: int)
    requires IdsIssued(db) && RowsOf(db.materials, app, rows) && Approve(db, app, rows, now).1.Ok?
    ensures var active := ActiveRun(db.runs, app, db.nextRun);
            ApprovalAgrees(db, app, rows, now)
            <==> active.None?
                 || (&& LastOf(db.materials, rows, RESUME) == db.runs[active.value].resume
                     && NullIfZero(LastOf(db.materials, rows, COVER_LETTER)) == db.runs[active.value].cover)
  {
    PickedIsLast(db.materials, rows, 0, 0);
    PickedSpec(db.materials, rows, 0, 0);
    hide Picked, LastOf, RowsOf;
  }

  lemma {:induction false} LastOfSpec(materials: map<nat, Material>, rows: seq<nat>, kind: string)
    requires forall id | id in rows :: 1 <= id && id in materials
    ensures var last := LastOf(materials, rows, kind);
            if last == 0 then forall id | id in rows :: materials[id].kind != kind
            else last in rows && materials[last].kind == kind
    decreases |rows|
  {
    if rows == [] {
    } else {
      var n := |rows| - 1;
      var earlier := rows[..n];
      assert forall id | id in earlier :: id in rows;
      assert forall id :: id in rows <==> id in earlier || id == rows[n];
      LastOfSpec(materials, earlier, kind);
    }
  }

  /** The same rows, with one of them moved to the end. */
  lemma MovedLast(rows: seq<nat>, m: nat) returns (moved: seq<nat>)
    requires m in rows && forall i, j | 0 <= i < j < |rows| :: rows[i] != rows[j]
    ensures moved != [] && moved[|moved| - 1] == m && |moved| == |rows|
    ensures forall i, j | 0 <= i < j < |moved| :: moved[i] != moved[j]
    ensures forall id :: id in moved <==> id in rows
  {
    var k :| 0 <= k < |rows| && rows[k] == m;
    var front, back := rows[..k], rows[k + 1..];
    moved := front + back + [m];
    assert rows == front + [m] + back;
  }

  /** Every material of the kind that the application has is that one. */
  ghost predicate OnlyOfKind(materials: map<nat, Material>, app: nat, kind: string, id: Option<nat>) {
    forall m | m in materials && materials[m].applicationId == app && materials[m].kind == kind :: id == Some(m)
  }

  ghost predicate AgreesInEveryOrder(db: Db, app: nat, now: int) {
    forall rows | RowsOf(db.materials, app, rows) :: ApprovalAgrees(db, app, rows, now)
  }

  lemma SameGate(db: Db, app: nat, rows: seq<nat>, other: seq<nat>, now: int)
    requires IdsIssued(db) && RowsOf(db.materials, app, rows) && RowsOf(db.materials, app, other)
    ensures Approve(db, app, rows, now).1.Ok? <==> Approve(db, app, other, now).1.Ok?
  {
    hide Approve, RowsOf;
    ApprovalGate(db, app, rows, now);
    ApprovalGate(db, app, other, now);
  }

  lemma OnlyOneIsLast(db: Db, app: nat, rows: seq<nat>, kind: string, id: Option<nat>)
    requires IdsIssued(db) && RowsOf(db.materials, app, rows) && OnlyOfKind(db.materials, app, kind, id)
    requires id.Some? ==> IsOf(db.materials, id.value, app, kind)
    ensures NullIfZero(LastOf(db.materials, rows, kind)) == id
  {
    LastOfSpec(db.materials, rows, kind);
    hide LastOf;
  }

  /** With another material of the kind, the order that has it last picks that one. */
  lemma OtherPicked(db: Db, app: nat, rows: seq<nat>, kind: string, m: nat) returns (moved: seq<nat>)
    requires IdsIssued(db) && RowsOf(db.materials, app, rows) && IsOf(db.materials, m, app, kind)
    ensures RowsOf(db.materials, app, moved) && LastOf(db.materials, moved, kind) == m
  {
    moved := MovedLast(rows, m);
  }

  lemma SomeOrderDisagrees(db: Db, app: nat, rows: seq<nat>, now: int, run: Run)
    requires IdsIssued(db) && RowsOf(db.materials, app, rows) && Approve(db, app, rows, now).1.Ok?
    requires var active := ActiveRun(db.runs, app, db.nextRun); active.Some? && run == db.runs[active.value]
    requires !OnlyOfKind(db.materials, app, RESUME, Some(run.resume))
             || !OnlyOfKind(db.materials, app, COVER_LETTER, run.cover)
    ensures !AgreesInEveryOrder(db, app, now)
  {
    hide Approve, RowsOf, LastOf, ApprovalAgrees, ActiveRun;
    var moved: seq<nat>;
    if !OnlyOfKind(db.materials, app, RESUME, Some(run.resume)) {
      var m :| m in db.materials && db.materials[m].applicationId == app && db.materials[m].kind == RESUME
        && m != run.resume;
      moved := OtherPicked(db, app, rows, RESUME, m);
    } else {
      var m :| m in db.materials && db.materials[m].applicationId == app && db.materials[m].kind == COVER_LETTER
               && run.cover != Some(m);
      moved := OtherPicked(db, app, rows, COVER_LETTER, m);
    }
    SameGate(db, app, rows, moved, now);
    ApprovalAgreesWithItsRun(db, app, moved, now);
    assert !ApprovalAgrees(db, app, moved, now);
  }

  /**
   The query names no order: the approval agrees with its run in every order of the rows exactly when
   no run is active, or the application has no other resume and no other cover letter than the run's.
   */
  lemma ApprovalAgreesInEveryOrder(db: Db, app: nat, rows: seq<nat>, now: int)
    requires IdsIssued(db) && RowsOf(db.materials, app, rows) && Approve(db, app, rows, now).1.Ok?
    requires ApplicationsTyped(db) && RunsTyped(db)
    ensures var active := ActiveRun(db.runs, app, db.nextRun);
            AgreesInEveryOrder(db, app, now)
            <==> active.None? || (&& OnlyOfKind(db.materials, app, RESUME, Some(db.runs[active.value].resume))
                                  && OnlyOfKind(db.materials, app, COVER_LETTER, db.runs[active.value].cover))
  {
    var active := ActiveRun(db.runs, app, db.nextRun);
    if active.None? {
      forall other | RowsOf(db.materials, app, other) ensures ApprovalAgrees(db, app, other, now) {
        SameGate(db, app, rows, other, now);
        ApprovalAgreesWithItsRun(db, app, other, now);
      }
    } else {
      var run := db.runs[active.value];
      assert RunTyped(db, run);
      if OnlyOfKind(db.materials, app, RESUME, Some(run.resume))
        && OnlyOfKind(db.materials, app, COVER_LETTER, run.cover) {
        forall other | RowsOf(db.materials, app, other) ensures ApprovalAgrees(db, app, other, now) {
          SameGate(db, app, rows, other, now);
          OnlyOneIsLast(db, app, other, RESUME, Some(run.resume));
          OnlyOneIsLast(db, app, other, COVER_LETTER, run.cover);
          ApprovalAgreesWithItsRun(db, app, other, now);
        }
      } else {
        SomeOrderDisagrees(db, app, rows, now, run);
      }
    }
  }
}
