/** What holds over whole histories of automation runs: status, submission, activity and origin. */
module AutomationHistory {
  import opened Wrappers
  import opened Sets
  import opened Text
  import opened AutomationTables
  import opened Automation

  // ---- Status over whole histories ------------------------------------------------------------

  /**
   Between any two moments of any history no row is lost, no run's ids change, no run's status goes
   down in the order requested, started, review required, submitted, failed, and no start time is
   rewritten.
   */
  lemma {:induction false} HistoryMovesForward(steps: seq<Step>, k: nat)
    requires k <= |steps|
    ensures Evolves(After(steps[..k]).db, After(steps).db)
  {
    if k == |steps| {
      assert steps[..k] == steps;
    } else {
      var n := |steps| - 1;
      var before, step := steps[..n], steps[n];
      assert steps == before + [step] && before[..k] == steps[..k];
      AfterOneMore(before, step);
      hide After, DbAfter, Evolves;
      HistoryMovesForward(before, k);
      Always(before);
      DbEvolves(After(before), step);
      EvolvesTransitive(After(steps[..k]).db, After(before).db, After(steps).db);
    }
  }

  /** Status, times, error and final address of a run always agree with each other. */
  lemma RunRowAgrees(steps: seq<Step>, r: nat)
    requires r in After(steps).db.runs
    ensures StartKnown(After(steps).db.runs[r]) && FinishKnown(After(steps).db.runs[r])
  {
    Always(steps);
  }

  /** `MarkAutomationReviewRequired` by itself keeps that true exactly for runs that are not still requested. */
  lemma ReviewKeepsStartKnown(db: Db, id: nat, finalUrl: string, now: int)
    requires StartsKnown(db) && RequireReview(db, id, finalUrl, now).1.Ok?
    ensures StartsKnown(RequireReview(db, id, finalUrl, now).0) <==> !db.runs[id].status.Requested?
  {
    var after := RequireReview(db, id, finalUrl, now).0;
    assert StartKnown(db.runs[id]);
    assert after.runs[id].status.ReviewRequired? && after.runs[id].startedAt == db.runs[id].startedAt;
  }

  /** Step `k` is the first update of a mark-submitted call, on run `r`, and it succeeds. */
  ghost predicate SubmittedAt(steps: seq<Step>, k: nat, r: nat) {
    k < |steps| && steps[k].SubmitRun?
    && var s := After(steps[..k]);
       && steps[k].op in s.submits && s.submits[steps[k].op].PendingRun? && s.submits[steps[k].op].run == r
       && r in s.db.runs && (s.db.runs[r].status.Started? || s.db.runs[r].status.ReviewRequired?)
  }

  lemma SubmittedAtStays(steps: seq<Step>, step: Step, k: nat, r: nat)
    requires SubmittedAt(steps, k, r)
    ensures SubmittedAt(steps + [step], k, r)
  {
    assert (steps + [step])[..k] == steps[..k];
  }

  lemma NewlySubmitted(s: Sys, step: Step, r: nat)
    requires IdsIssued(s.db)
    requires r in DbAfter(s, step).runs && DbAfter(s, step).runs[r].status.RunSubmitted?
    requires r !in s.db.runs || !s.db.runs[r].status.RunSubmitted?
    ensures step.SubmitRun? && step.op in s.submits && s.submits[step.op].PendingRun? && s.submits[step.op].run == r
    ensures r in s.db.runs && (s.db.runs[r].status.Started? || s.db.runs[r].status.ReviewRequired?)
  {
    hide ActiveRun, Picked, RowsOf;
  }

  /** Only the mark-submitted call ever makes a run submitted; no worker does. */
  lemma {:induction false} SubmittedOnlyByCall(steps: seq<Step>, r: nat)
    requires r in After(steps).db.runs && After(steps).db.runs[r].status.RunSubmitted?
    ensures exists k: nat :: SubmittedAt(steps, k, r)
  {
    var n := |steps| - 1;
    var before, step := steps[..n], steps[n];
    assert steps == before + [step];
    var s := After(before);
    assert After(steps).db == DbAfter(s, step);
    hide After, DbAfter;
    if r in s.db.runs && s.db.runs[r].status.RunSubmitted? {
      SubmittedOnlyByCall(before, r);
      var k: nat :| SubmittedAt(before, k, r);
      SubmittedAtStays(before, step, k, r);
    } else {
      Always(before);
      NewlySubmitted(s, step, r);
      assert SubmittedAt(steps, n, r);
    }
  }

  /** A run of the application was marked submitted by some step. */
  ghost predicate RunSubmittedFor(steps: seq<Step>, app: nat) {
    exists k: nat, r: nat ::
      SubmittedAt(steps, k, r) && r in After(steps).db.runs && After(steps).db.runs[r].applicationId == app
  }

  lemma RunSubmittedForStays(steps: seq<Step>, step: Step, app: nat)
    requires RunSubmittedFor(steps, app)
    ensures RunSubmittedFor(steps + [step], app)
  {
    var k: nat, r: nat :| SubmittedAt(steps, k, r) && r in After(steps).db.runs
      && After(steps).db.runs[r].applicationId == app;
    SubmittedAtStays(steps, step, k, r);
    AfterOneMore(steps, step);
    Always(steps);
    RunsEvolve(After(steps), step);
    hide After, DbAfter, SubmittedAt;
    assert SubmittedAt(steps + [step], k, r);
  }

  ghost predicate SubmissionsBacked(steps: seq<Step>) {
    var s := After(steps);
    && (forall i | i in s.db.applications && s.db.applications[i].status == Submitted :: RunSubmittedFor(steps, i))
    && (forall op | op in s.submits && s.submits[op].PendingApplication? ::
      RunSubmittedFor(steps, s.submits[op].applicationId))
  }

  lemma NewlySubmittedApplication(s: Sys, step: Step, i: nat)
    requires i in DbAfter(s, step).applications && DbAfter(s, step).applications[i].status == Submitted
    requires i !in s.db.applications || s.db.applications[i].status != Submitted
    ensures step.SubmitApplication? && step.op in s.submits && s.submits[step.op] == PendingApplication(i)
  {
    hide ActiveRun, Picked, RowsOf;
  }

  lemma NewlyPending(steps: seq<Step>, step: Step, op: nat)
    requires var s := After(steps);
             && op in SubmitsAfter(s, step) && SubmitsAfter(s, step)[op].PendingApplication?
             && (op !in s.submits || !s.submits[op].PendingApplication?)
    ensures RunSubmittedFor(steps + [step], SubmitsAfter(After(steps), step)[op].applicationId)
  {
    var s := After(steps);
    Always(steps);
    RunsEvolve(s, step);
    AfterOneMore(steps, step);
    assert (steps + [step])[..|steps|] == steps;
    hide After, DbAfter;
    assert SubmittedAt(steps + [step], |steps|, s.submits[op].run);
  }

  /** An application is submitted only after one of its own runs was marked submitted. */
  lemma {:induction false} SubmittedApplicationHasItsRun(steps: seq<Step>)
    ensures SubmissionsBacked(steps)
  {
    if steps == [] {
    } else {
      var n := |steps| - 1;
      var before, step := steps[..n], steps[n];
      assert steps == before + [step];
      SubmittedApplicationHasItsRun(before);
      AfterOneMore(before, step);
      var s, t := After(before), After(steps);
      hide After, DbAfter, SubmitsAfter, RunSubmittedFor;
      forall i | i in t.db.applications && t.db.applications[i].status == Submitted ensures RunSubmittedFor(steps, i) {
        if i !in s.db.applications || s.db.applications[i].status != Submitted {
          NewlySubmittedApplication(s, step, i);
        }
        RunSubmittedForStays(before, step, i);
      }
      forall op | op in t.submits && t.submits[op].PendingApplication?
        ensures RunSubmittedFor(steps, t.submits[op].applicationId) {
        if op in s.submits && s.submits[op].PendingApplication? {
          PendingKept(s, step, op);
          RunSubmittedForStays(before, step, s.submits[op].applicationId);
        } else {
          NewlyPending(before, step, op);
        }
      }
    }
  }

  lemma PendingKept(s: Sys, step: Step, op: nat)
    requires op in s.submits && s.submits[op].PendingApplication? && op in SubmitsAfter(s, step)
    ensures SubmitsAfter(s, step)[op] == s.submits[op]
  {
  }

  // ---- Material drafts ------------------------------------------------------------------------

  /** The condition for two overlapping calls: one selects after `steps`, and writes after `later` as well. */
  lemma DraftCallRefusedIff(steps: seq<Step>, later: seq<Step>, p: MaterialParams)
    ensures var (before, at, event) := (After(steps).db, After(steps + later).db, TrimSpace(p.sourceEventId));
            WriteDraft(at, p, SelectDraft(before, p)).1.Err?
            <==> event != "" && HasDraft(at, p, event) && (event != p.sourceEventId || !HasDraft(before, p, event))
  {
    Always(steps);
    KeysAlwaysUnique(steps);
    DraftRefusedIff(After(steps).db, After(steps + later).db, p);
  }

  /** A draft, once written, is the one found for its application, kind and event ever after. */
  lemma DraftKeepsItsId(steps: seq<Step>, later: seq<Step>, p: MaterialParams, m: nat)
    requires p.sourceEventId != "" && IsDraftOf(After(steps).db.materials, m, p)
    ensures SelectDraft(After(steps + later).db, p) == Some(m)
  {
    var all := steps + later;
    assert all[..|steps|] == steps;
    HistoryMovesForward(all, |steps|);
    Always(all);
    KeysAlwaysUnique(all);
    var db := After(all).db;
    hide After;
    assert IsDraftOf(db.materials, m, p);
    assert forall id | IsDraftOf(db.materials, id, p) :: id == m;
  }

  // ---- What becomes of a submission -----------------------------------------------------------

  /** The step marks the run failed, for a user or for a worker that holds it. */
  predicate FailsRun(s: Sys, step: Step, r: nat) {
    (step.FailRun? && step.run == r) || (step.WorkerFail? && step.worker in s.workers && s.workers[step.worker] == r)
  }

  /** A submitted run stays submitted through every step but one that fails it: `MarkAutomationFailed` has no guard. */
  lemma SubmittedStaysUnlessFailed(s: Sys, step: Step, r: nat)
    requires IdsIssued(s.db) && r in s.db.runs && s.db.runs[r].status.RunSubmitted?
    ensures r in DbAfter(s, step).runs
    ensures DbAfter(s, step).runs[r].status.RunSubmitted? <==> !FailsRun(s, step, r)
  {
    hide ActiveRun, Picked, RowsOf;
  }

  /** The step makes the application ready again, or schedules an interview for it. */
  predicate Reopens(s: Sys, step: Step, app: nat)
    requires app in s.db.applications
  {
    (step.MatchJob? && step.jobId == s.db.applications[app].jobId) || (step.ScheduleInterview? && step.app == app)
  }

  /** A submitted application stays submitted through every step but these two. */
  lemma SubmittedApplicationStaysUnlessReopened(s: Sys, step: Step, app: nat)
    requires IdsIssued(s.db) && JobsUnique(s.db.applications)
    requires app in s.db.applications && s.db.applications[app].status == Submitted
    ensures app in DbAfter(s, step).applications
    ensures DbAfter(s, step).applications[app].status == Submitted <==> !Reopens(s, step, app)
  {
    hide ActiveRun, Picked, RowsOf;
  }

  /** Step `j` inserts run `r`. */
  ghost predicate InsertedAt(steps: seq<Step>, j: nat, r: nat) {
    j < |steps| && r !in After(steps[..j]).db.runs && r in DbAfter(After(steps[..j]), steps[j]).runs
  }

  lemma {:induction false} InsertedBetween(steps: seq<Step>, k: nat, r: nat) returns (j: nat)
    requires k < |steps| && r !in After(steps[..k]).db.runs && r in After(steps).db.runs
    ensures k <= j && InsertedAt(steps, j, r)
  {
    var n := |steps| - 1;
    var before, step := steps[..n], steps[n];
    assert before[..k] == steps[..k] && (k == n ==> steps[..k] == before);
    assert steps == before + [step];
    AfterOneMore(before, step);
    hide After, DbAfter;
    if r in After(before).db.runs {
      j := InsertedBetween(before, k, r);
      assert before[..j] == steps[..j] && before[j] == steps[j];
    } else {
      j := n;
    }
  }

  /** A run is marked submitted once at most. */
  lemma RunSubmittedOnce(steps: seq<Step>, k: nat, j: nat, r: nat)
    requires SubmittedAt(steps, k, r) && SubmittedAt(steps, j, r)
    ensures k == j
  {
    if k < j {
      SubmittedIsPast(steps, k, j, r);
    } else if j < k {
      SubmittedIsPast(steps, j, k, r);
    }
  }

  /** After the step that marks a run submitted, its status stays submitted or failed. */
  lemma SubmittedIsPast(steps: seq<Step>, k: nat, j: nat, r: nat)
    requires SubmittedAt(steps, k, r) && k < j <= |steps|
    ensures r in After(steps[..j]).db.runs && Rank(After(steps[..j]).db.runs[r].status) >= 3
  {
    var upTo, before := steps[..j], steps[..k];
    assert upTo[..k + 1] == before + [steps[k]];
    AfterOneMore(before, steps[k]);
    assert r in After(upTo[..k + 1]).db.runs && After(upTo[..k + 1]).db.runs[r].status.RunSubmitted?;
    hide After, DbAfter;
    HistoryMovesForward(upTo, k + 1);
  }

  /** What has to happen for a second run of an application to be submitted at step `j`, after step `k`. */
  ghost predicate AllowsSecond(steps: seq<Step>, k: nat, j: nat, app: nat) {
    || (exists i: nat :: i < k && RetriedAt(steps, i, app))
    || (exists i: nat :: k < i < j && (RetriedAt(steps, i, app) || ApprovedOpenAt(steps, i, app)))
  }

  /** Step `i` inserts a retry of a run of the application. */
  ghost predicate RetriedAt(steps: seq<Step>, i: nat, app: nat) {
    i < |steps| && IsRetryFor(After(steps[..i]), steps[i], app)
  }

  /** Step `i` approves the application while it is not submitted. */
  ghost predicate ApprovedOpenAt(steps: seq<Step>, i: nat, app: nat) {
    i < |steps| && Selects(steps[i], app)
    && app in After(steps[..i]).db.applications && After(steps[..i]).db.applications[app].status != Submitted
  }

  /** Steps `k` and `j` submit two different runs of one application. */
  ghost predicate SubmittedTwice(steps: seq<Step>, k: nat, r: nat, j: nat, q: nat) {
    && q != r && k < j && SubmittedAt(steps, k, r) && SubmittedAt(steps, j, q)
    && After(steps[..k]).db.runs[r].applicationId == After(steps[..j]).db.runs[q].applicationId
  }

  /**
   A second submission of an application is one of another run, and takes a retry made before the
   first, or a retry or an approval of the application, not submitted at that moment, made between
   the two.
   */
  lemma SecondSubmission(steps: seq<Step>, k: nat, r: nat, j: nat, q: nat, app: nat)
    requires SubmittedAt(steps, k, r) && SubmittedAt(steps, j, q) && k < j
    requires After(steps[..k]).db.runs[r].applicationId == app && After(steps[..j]).db.runs[q].applicationId == app
    ensures q != r && AllowsSecond(steps, k, j, app)
  {
    SubmittedIsPast(steps, k, j, r);
    var upTo := steps[..j];
    assert upTo[..k] == steps[..k];
    if q in After(upTo[..k]).db.runs {
      HistoryMovesForward(upTo, k);
      var runs := After(steps[..k]).db.runs;
      hide After;
      TwoActive(steps[..k], r, q, app);
      var i := SomeRetry(steps[..k], app);
      assert steps[..k][..i] == steps[..i];
      assert RetriedAt(steps, i, app);
    } else {
      var i := InsertedBetween(upTo, k, q);
      assert upTo[..i] == steps[..i];
      InsertedHow(upTo, i, q, app);
      assert RetriedAt(steps, i, app) || ApprovedOpenAt(steps, i, app);
      assert i != k;
    }
  }

  lemma TwoActive(steps: seq<Step>, r: nat, q: nat, app: nat)
    requires var runs := After(steps).db.runs;
             r != q && r in runs && q in runs && IsActive(runs[r], app) && IsActive(runs[q], app)
    ensures RetriesFor(steps, app) >= 1
  {
    var active := ActiveRuns(After(steps).db.runs, app);
    assert r in active && q in active;
    hide After, ActiveRuns, RetriesFor;
    SmallerIsFewer({r, q}, active);
    ActiveRunsBounded(steps, app);
  }

  lemma {:induction false} SomeRetry(steps: seq<Step>, app: nat) returns (i: nat)
    requires RetriesFor(steps, app) >= 1
    ensures i < |steps| && RetriedAt(steps, i, app)
  {
    var n := |steps| - 1;
    var before := steps[..n];
    if IsRetryFor(After(before), steps[n], app) {
      i := n;
    } else {
      i := SomeRetry(before, app);
      assert before[..i] == steps[..i];
    }
  }

  lemma NewRunHow(s: Sys, step: Step, q: nat, app: nat)
    requires Inv(s) && q !in s.db.runs && q in DbAfter(s, step).runs && DbAfter(s, step).runs[q].applicationId == app
    ensures IsRetryFor(s, step, app)
        || (Selects(step, app) && app in s.db.applications && s.db.applications[app].status != Submitted)
    ensures !step.SubmitRun?
  {
    NewRuns(s, step);
    hide DbAfter, RowsOf, Picked, ActiveRun;
  }

  lemma InsertedHow(steps: seq<Step>, i: nat, q: nat, app: nat)
    requires InsertedAt(steps, i, q) && q in After(steps).db.runs && After(steps).db.runs[q].applicationId == app
    ensures RetriedAt(steps, i, app) || ApprovedOpenAt(steps, i, app)
    ensures !steps[i].SubmitRun?
  {
    assert steps[..i + 1] == steps[..i] + [steps[i]];
    AfterOneMore(steps[..i], steps[i]);
    hide After, DbAfter, IsRetryFor;
    Always(steps[..i]);
    HistoryMovesForward(steps, i + 1);
    NewRunHow(After(steps[..i]), steps[i], q, app);
  }

  // ---- How many runs of one application are active --------------------------------------------

  function ActiveRuns(runs: map<nat, Run>, app: nat): set<nat> {
    set r | r in runs && IsActive(runs[r], app)
  }

  /** The step inserts a retry of a run of the application. */
  predicate IsRetryFor(s: Sys, step: Step, app: nat) {
    step.RetryInsert? && step.op in s.retries && s.retries[step.op].row.applicationId == app
  }

  /** How often the history retried a run of the application. */
  function RetriesFor(steps: seq<Step>, app: nat): nat {
    if steps == [] then 0
    else
      var before, step := steps[..|steps| - 1], steps[|steps| - 1];
      RetriesFor(before, app) + if IsRetryFor(After(before), step, app) then 1 else 0
  }

  /** A finished run never becomes active again. */
  lemma InactiveStays(a: Run, b: Run, app: nat)
    requires RunMoves(a, b) && IsActive(b, app)
    ensures IsActive(a, app)
  {
  }

  lemma ActiveRunsGrow(s: Sys, step: Step, app: nat)
    requires Inv(s)
    ensures var (before, after) := (ActiveRuns(s.db.runs, app), ActiveRuns(DbAfter(s, step).runs, app));
            && after <= before + {s.db.nextRun}
            && (after <= before || IsRetryFor(s, step, app) || before == {})
  {
    var t := DbAfter(s, step);
    RunsEvolve(s, step);
    NewRuns(s, step);
    hide DbAfter;
    forall r | r in ActiveRuns(t.runs, app)
      ensures r in ActiveRuns(s.db.runs, app)
              || (r == s.db.nextRun && (IsRetryFor(s, step, app) || ActiveRuns(s.db.runs, app) == {}))
    {
      if r in s.db.runs {
        InactiveStays(s.db.runs[r], t.runs[r], app);
      } else if step.ApproveApplication? {
        assert forall q | q in s.db.runs :: q < s.db.nextRun;
        assert forall q | q in s.db.runs :: !IsActive(s.db.runs[q], app);
      }
    }
  }

  /** At most one run of an application is active for its approvals, and one more for each retry made. */
  lemma {:induction false} ActiveRunsBounded(steps: seq<Step>, app: nat)
    ensures |ActiveRuns(After(steps).db.runs, app)| <= 1 + RetriesFor(steps, app)
  {
    if steps == [] {
    } else {
      var n := |steps| - 1;
      var s, step := After(steps[..n]), steps[n];
      ActiveRunsBounded(steps[..n], app);
      Always(steps[..n]);
      ActiveRunsGrow(s, step, app);
      var before, after := ActiveRuns(s.db.runs, app), ActiveRuns(DbAfter(s, step).runs, app);
      hide DbAfter, ActiveRuns;
      if after <= before {
        SmallerIsFewer(after, before);
      } else {
        SmallerIsFewer(after, before + {s.db.nextRun});
      }
    }
  }

  // ---- Where a run comes from -----------------------------------------------------------------

  /**
   Step `k` is an approval that inserted run `r`: the application was not submitted, all its materials
   were approved, and the run's materials are a resume and a cover letter of its own among them.
   */
  ghost predicate CreatedByApproval(steps: seq<Step>, k: nat, r: nat) {
    k < |steps| && steps[k].ApproveApplication?
    && var s, t, app := After(steps[..k]).db, DbAfter(After(steps[..k]), steps[k]), steps[k].app;
       && r !in s.runs && r in t.runs
       && app in s.applications && s.applications[app].status != Submitted
       && AllApproved(s.materials, app)
       && t.runs[r].applicationId == app
       && t.runs[r].jobId == s.applications[app].jobId && t.runs[r].profileId == s.applications[app].profileId
       && Chosen(s.materials, t.runs[r].resume, t.runs[r].cover, app)
  }

  /** Step `k` is a retry of run `parent` that inserted run `r` with the same ids. */
  ghost predicate CreatedByRetry(steps: seq<Step>, k: nat, parent: nat, r: nat) {
    k < |steps| && steps[k].RetryInsert?
    && var s, t := After(steps[..k]), DbAfter(After(steps[..k]), steps[k]);
       && steps[k].op in s.retries && s.retries[steps[k].op].run == parent && parent in s.db.runs
       && r !in s.db.runs && r in t.runs && SameIds(t.runs[r], s.db.runs[parent])
  }

  ghost predicate Approved(steps: seq<Step>, r: nat) {
    exists k: nat :: CreatedByApproval(steps, k, r)
  }

  ghost predicate Retried(steps: seq<Step>, parent: nat, r: nat) {
    exists k: nat :: CreatedByRetry(steps, k, parent, r)
  }

  /** The chain starts at an approved run, and every later run is a retry of the one before it. */
  ghost predicate Lineage(steps: seq<Step>, chain: seq<nat>) {
    && chain != [] && Approved(steps, chain[0])
    && (forall i | 0 < i < |chain| :: Retried(steps, chain[i - 1], chain[i]))
    && var runs := After(steps).db.runs;
       chain[0] in runs && forall r | r in chain :: r in runs && SameIds(runs[r], runs[chain[0]])
  }

  ghost predicate Traced(steps: seq<Step>, r: nat) {
    exists chain: seq<nat> :: Lineage(steps, chain) && chain[|chain| - 1] == r
  }

  lemma ApprovedStays(steps: seq<Step>, step: Step, r: nat)
    requires Approved(steps, r)
    ensures Approved(steps + [step], r)
  {
    var k: nat :| CreatedByApproval(steps, k, r);
    assert (steps + [step])[..k] == steps[..k];
    hide After, DbAfter;
    assert CreatedByApproval(steps + [step], k, r);
  }

  lemma RetriedStays(steps: seq<Step>, step: Step, parent: nat, r: nat)
    requires Retried(steps, parent, r)
    ensures Retried(steps + [step], parent, r)
  {
    var k: nat :| CreatedByRetry(steps, k, parent, r);
    assert (steps + [step])[..k] == steps[..k];
    hide After, DbAfter;
    assert CreatedByRetry(steps + [step], k, parent, r);
  }

  lemma LineageStays(steps: seq<Step>, step: Step, chain: seq<nat>)
    requires Lineage(steps, chain)
    ensures Lineage(steps + [step], chain)
  {
    Always(steps);
    RunsEvolve(After(steps), step);
    ApprovedStays(steps, step, chain[0]);
    forall i | 0 < i < |chain| ensures Retried(steps + [step], chain[i - 1], chain[i]) {
      RetriedStays(steps, step, chain[i - 1], chain[i]);
    }
    assert (steps + [step])[..|steps|] == steps;
    var runs, runs' := After(steps).db.runs, After(steps + [step]).db.runs;
    assert RunsMove(runs, runs');
    hide Approved, Retried, After, DbAfter;
  }

  lemma ApprovalCreates(steps: seq<Step>, step: Step, r: nat)
    requires step.ApproveApplication? && r !in After(steps).db.runs && r in DbAfter(After(steps), step).runs
    ensures Approved(steps + [step], r)
  {
    var s := After(steps);
    Always(steps);
    NewRuns(s, step);
    ApprovalGate(s.db, step.app, step.rows, step.now);
    assert (steps + [step])[..|steps|] == steps;
    hide After, Picked, RowsOf, ActiveRun;
    assert CreatedByApproval(steps + [step], |steps|, r);
  }

  lemma RetryCreates(steps: seq<Step>, step: Step, r: nat)
    requires step.RetryInsert? && r !in After(steps).db.runs && r in DbAfter(After(steps), step).runs
    ensures var s := After(steps);
            && step.op in s.retries && s.retries[step.op].run in s.db.runs
            && SameIds(DbAfter(s, step).runs[r], s.db.runs[s.retries[step.op].run])
            && Retried(steps + [step], s.retries[step.op].run, r)
  {
    var s := After(steps);
    Always(steps);
    NewRuns(s, step);
    assert (steps + [step])[..|steps|] == steps;
    hide After, DbAfter;
    assert CreatedByRetry(steps + [step], |steps|, s.retries[step.op].run, r);
  }

  lemma LineageStarts(steps: seq<Step>, r: nat)
    requires r in After(steps).db.runs && Approved(steps, r)
    ensures Traced(steps, r)
  {
    var chain := [r];
    assert Lineage(steps, chain) && chain[|chain| - 1] == r;
  }

  lemma LineageGrows(before: seq<Step>, step: Step, chain: seq<nat>, r: nat)
    requires var steps, s := before + [step], After(before);
             && Lineage(steps, chain) && r in After(steps).db.runs
             && chain[|chain| - 1] in s.db.runs && RunsMove(s.db.runs, After(steps).db.runs)
             && Retried(steps, chain[|chain| - 1], r)
             && SameIds(After(steps).db.runs[r], s.db.runs[chain[|chain| - 1]])
    ensures Traced(before + [step], r)
  {
    var steps := before + [step];
    var longer := chain + [r];
    hide After, Approved, Retried;
    assert forall i | 0 < i < |longer| :: Retried(steps, longer[i - 1], longer[i]);
    assert Lineage(steps, longer) && longer[|longer| - 1] == r;
  }

  /**
   Every run traces back, one retry at a time, to a run that an approval inserted, and the
   application, job, profile, resume and cover letter are the same all along the chain.
   */
  lemma {:induction false} EveryRunWasApproved(steps: seq<Step>, r: nat)
    requires r in After(steps).db.runs
    ensures Traced(steps, r)
    decreases |steps|
  {
    var n := |steps| - 1;
    var before, step := steps[..n], steps[n];
    assert steps == before + [step];
    var s := After(before);
    assert After(steps).db == DbAfter(s, step);
    Always(before);
    RunsEvolve(s, step);
    hide After, DbAfter, Lineage;
    if r in s.db.runs {
      EveryRunWasApproved(before, r);
      var chain: seq<nat> :| Lineage(before, chain) && chain[|chain| - 1] == r;
      LineageStays(before, step, chain);
    } else if step.RetryInsert? {
      RetryCreates(before, step, r);
      var parent := s.retries[step.op].run;
      EveryRunWasApproved(before, parent);
      var chain: seq<nat> :| Lineage(before, chain) && chain[|chain| - 1] == parent;
      LineageStays(before, step, chain);
      LineageGrows(before, step, chain, r);
    } else {
      NewRuns(s, step);
      ApprovalCreates(before, step, r);
      LineageStarts(steps, r);
    }
  }
}
