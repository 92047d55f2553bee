/** When an application can be submitted, once more included: the exact conditions. */
module AutomationSubmissions {
  import opened Wrappers
  import opened Sets
  import opened AutomationTables
  import opened Automation
  import opened AutomationHistory
  import opened AutomationPacket

  /** Step `i` retries a run of the application, or approves the application while it is not submitted. */
  ghost predicate MayMakeRunAt(steps: seq<Step>, i: nat, app: nat) {
    RetriedAt(steps, i, app) || ApprovedOpenAt(steps, i, app)
  }

  /** Step `j` of the longer history submits run `q` of the application, and no step before it may make a run for it. */
  ghost predicate SubmitsQuietly(steps: seq<Step>, later: seq<Step>, j: nat, q: nat, app: nat) {
    var all := steps + later;
    && |steps| <= j && SubmittedAt(all, j, q) && After(all[..j]).db.runs[q].applicationId == app
    && forall i: nat | |steps| <= i < j :: !MayMakeRunAt(all, i, app)
  }

  ghost predicate CanSubmitQuietly(steps: seq<Step>, app: nat) {
    exists later: seq<Step>, j: nat, q: nat :: SubmitsQuietly(steps, later, j, q, app)
  }

  lemma MayMakeRunPrefix(steps: seq<Step>, j: nat, i: nat, app: nat)
    requires i < j <= |steps|
    ensures MayMakeRunAt(steps[..j], i, app) <==> MayMakeRunAt(steps, i, app)
    ensures RetriedAt(steps[..j], i, app) <==> RetriedAt(steps, i, app)
  {
    assert steps[..j][..i] == steps[..i];
    hide After, IsRetryFor;
  }

  lemma OnlyThoseMakeRuns(steps: seq<Step>, i: nat, app: nat)
    requires i < |steps| && !steps[i].RetryInsert? && !steps[i].ApproveApplication?
    ensures !MayMakeRunAt(steps, i, app)
  {
    hide After;
  }

  /** A run of the application that is there at step `j` was there at step `n`, or was made between. */
  lemma RunMadeBetween(steps: seq<Step>, n: nat, j: nat, q: nat, app: nat) returns (i: nat)
    requires n <= j <= |steps| && q !in After(steps[..n]).db.runs
    requires q in After(steps[..j]).db.runs && After(steps[..j]).db.runs[q].applicationId == app
    ensures n <= i < j && MayMakeRunAt(steps, i, app)
  {
    var upTo := steps[..j];
    assert upTo[..n] == steps[..n];
    hide After, InsertedAt, RetriedAt, ApprovedOpenAt;
    i := InsertedBetween(upTo, n, q);
    InsertedHow(upTo, i, q, app) by { assert InsertedAt(upTo, i, q); }
    MayMakeRunPrefix(steps, j, i, app);
  }

  lemma QuietRunWasActive(steps: seq<Step>, later: seq<Step>, j: nat, q: nat, app: nat)
    requires SubmitsQuietly(steps, later, j, q, app)
    ensures q in ActiveRuns(After(steps).db.runs, app)
  {
    var all := steps + later;
    assert all[..|steps|] == steps && all[..j][..|steps|] == steps;
    if q in After(steps).db.runs {
      HistoryMovesForward(all[..j], |steps|);
      hide After;
      InactiveStays(After(steps).db.runs[q], After(all[..j]).db.runs[q], app);
    } else {
      var i := RunMadeBetween(all, |steps|, j, q, app);
    }
  }

  /** The three steps that bring an active run to its submission. */
  function SubmissionSteps(q: nat, w: nat, op: nat): seq<Step> {
    [WorkerStart(w, q, 0), SubmitRead(op, q), SubmitRun(op, "", 0)]
  }

  lemma ActiveGetsReady(s: Sys, q: nat, w: nat, op: nat, app: nat)
    requires q in s.db.runs && IsActive(s.db.runs[q], app) && w !in s.workers && op !in s.submits
    ensures var t := Do(Do(s, WorkerStart(w, q, 0)), SubmitRead(op, q));
            && q in t.db.runs && t.db.runs[q].applicationId == app
            && (t.db.runs[q].status.Started? || t.db.runs[q].status.ReviewRequired?)
            && op in t.submits && t.submits[op] == PendingRun(q, app)
  {
    var started := Do(s, WorkerStart(w, q, 0));
    assert q in started.db.runs && started.db.runs[q].applicationId == app && op !in started.submits;
    assert started.db.runs[q].status.Started? || started.db.runs[q].status.ReviewRequired?;
  }

  lemma ThreeMore(steps: seq<Step>, a: Step, b: Step, c: Step)
    ensures var (all, n) := (steps + [a, b, c], |steps|);
            && all[n] == a && all[n + 1] == b && all[n + 2] == c
            && After(all[..n + 2]) == Do(Do(After(steps), a), b)
  {
    hide After, Do;
    AfterOneMore(steps, a);
    AfterOneMore(steps + [a], b);
    assert (steps + [a, b, c])[..|steps| + 2] == steps + [a] + [b];
  }

  lemma ReadySubmits(steps: seq<Step>, j: nat, q: nat, op: nat, app: nat)
    requires j < |steps| && steps[j] == SubmitRun(op, "", 0)
    requires var t := After(steps[..j]);
             && q in t.db.runs && t.db.runs[q].applicationId == app
             && (t.db.runs[q].status.Started? || t.db.runs[q].status.ReviewRequired?)
             && op in t.submits && t.submits[op] == PendingRun(q, app)
    ensures SubmittedAt(steps, j, q)
  {
    hide After;
  }

  lemma ActiveSubmits(steps: seq<Step>, q: nat, w: nat, op: nat, app: nat)
    requires q in After(steps).db.runs && IsActive(After(steps).db.runs[q], app)
    requires w !in After(steps).workers && op !in After(steps).submits
    ensures var all, j := steps + SubmissionSteps(q, w, op), |steps| + 2;
            SubmittedAt(all, j, q) && q in After(all[..j]).db.runs && After(all[..j]).db.runs[q].applicationId == app
  {
    var start, read, submit := WorkerStart(w, q, 0), SubmitRead(op, q), SubmitRun(op, "", 0);
    ThreeMore(steps, start, read, submit);
    ActiveGetsReady(After(steps), q, w, op, app);
    hide After, Do, IsActive, SubmittedAt;
    ReadySubmits(steps + [start, read, submit], |steps| + 2, q, op, app);
  }

  lemma ActiveSubmitsQuietly(steps: seq<Step>, q: nat, w: nat, op: nat, app: nat)
    requires q in ActiveRuns(After(steps).db.runs, app) && w !in After(steps).workers && op !in After(steps).submits
    ensures SubmitsQuietly(steps, SubmissionSteps(q, w, op), |steps| + 2, q, app)
  {
    hide After, IsActive, SubmittedAt, MayMakeRunAt;
    ActiveSubmits(steps, q, w, op, app);
    OnlyThoseMakeRuns(steps + SubmissionSteps(q, w, op), |steps|, app);
    OnlyThoseMakeRuns(steps + SubmissionSteps(q, w, op), |steps| + 1, app);
  }

  /**
   Without a retry or an approval before it, a submission of the application is possible exactly while
   one of its runs is active: the query the approval itself makes. How often it was submitted already
   does not matter.
   */
  lemma SubmitsQuietlyIffActive(steps: seq<Step>, app: nat)
    ensures CanSubmitQuietly(steps, app) <==> ActiveRuns(After(steps).db.runs, app) != {}
  {
    if CanSubmitQuietly(steps, app) {
      var later: seq<Step>, j: nat, q: nat :| SubmitsQuietly(steps, later, j, q, app);
      QuietRunWasActive(steps, later, j, q, app);
    }
    if ActiveRuns(After(steps).db.runs, app) != {} {
      var q :| q in ActiveRuns(After(steps).db.runs, app);
      var w := Above(After(steps).workers.Keys);
      var op := Above(After(steps).submits.Keys);
      assert w !in After(steps).workers.Keys && op !in After(steps).submits.Keys;
      hide After, SubmitsQuietly, ActiveRuns;
      ActiveSubmitsQuietly(steps, q, w, op, app);
    }
  }

  /** After a first submission that gives the exact condition for a second one. */
  lemma SecondQuietlyIffActive(steps: seq<Step>, k: nat, r: nat, app: nat)
    requires SubmittedAt(steps, k, r) && After(steps[..k]).db.runs[r].applicationId == app
    ensures (exists later: seq<Step>, j: nat, q: nat ::
               SubmitsQuietly(steps, later, j, q, app) && SubmittedTwice(steps + later, k, r, j, q))
            <==> ActiveRuns(After(steps).db.runs, app) != {}
  {
    SubmitsQuietlyIffActive(steps, app);
    hide After, SubmittedAt, SubmitsQuietly, ActiveRuns, SubmittedTwice;
    if CanSubmitQuietly(steps, app) {
      var later: seq<Step>, j: nat, q: nat :| SubmitsQuietly(steps, later, j, q, app);
      QuietSecond(steps, later, k, r, j, q, app);
    }
  }

  lemma QuietSecond(steps: seq<Step>, later: seq<Step>, k: nat, r: nat, j: nat, q: nat, app: nat)
    requires SubmittedAt(steps, k, r) && After(steps[..k]).db.runs[r].applicationId == app
    requires SubmitsQuietly(steps, later, j, q, app)
    ensures SubmittedTwice(steps + later, k, r, j, q)
  {
    assert (steps + later)[..k] == steps[..k];
    if q == r {
      RunSubmittedOnce(steps + later, k, j, r);
      assert false;
    }
    hide After;
  }

  /** No run of the application is retried. */
  ghost predicate NeverRetried(steps: seq<Step>, app: nat) {
    forall i: nat | i < |steps| :: !RetriedAt(steps, i, app)
  }

  lemma QuietNeverRetried(steps: seq<Step>, later: seq<Step>, j: nat, q: nat, app: nat)
    requires NeverRetried(steps, app) && SubmitsQuietly(steps, later, j, q, app)
    ensures j <= |steps + later| && NeverRetried((steps + later)[..j], app)
  {
    var all := steps + later;
    assert all[..|steps|] == steps;
    hide RetriedAt, ApprovedOpenAt;
    forall i: nat | i < j ensures !RetriedAt(all[..j], i, app) {
      MayMakeRunPrefix(all, j, i, app);
      if i < |steps| {
        MayMakeRunPrefix(all, |steps|, i, app);
      } else {
        assert !MayMakeRunAt(all, i, app);
      }
    }
  }

  /** A run becomes active where none was exactly by a retry, or by an approval that passes its gate. */
  lemma BecomesActiveIff(s: Sys, step: Step, app: nat)
    requires Inv(s) && ActiveRuns(s.db.runs, app) == {}
    ensures ActiveRuns(DbAfter(s, step).runs, app) != {} <==> IsRetryFor(s, step, app) || Reselects(s, step, app)
  {
    if Reselects(s, step, app) {
      ApprovalActivates(s, step, app);
    } else if IsRetryFor(s, step, app) {
      RetryActivates(s, step, app);
    } else {
      NothingActivates(s, step, app);
    }
  }

  lemma ApprovalActivates(s: Sys, step: Step, app: nat)
    requires IdsIssued(s.db) && ActiveRuns(s.db.runs, app) == {} && Reselects(s, step, app)
    ensures ActiveRuns(DbAfter(s, step).runs, app) != {}
  {
    assert forall r | r in s.db.runs && IsActive(s.db.runs[r], app) :: r in ActiveRuns(s.db.runs, app);
    assert DbAfter(s, step) == Approve(s.db, app, step.rows, step.now).0;
    hide DbAfter, Picked, RowsOf, ActiveRun;
    assert s.db.nextRun in ActiveRuns(DbAfter(s, step).runs, app);
  }

  lemma RetryActivates(s: Sys, step: Step, app: nat)
    requires IsRetryFor(s, step, app)
    ensures ActiveRuns(DbAfter(s, step).runs, app) != {}
  {
    assert DbAfter(s, step) == Retry(s.db, s.retries[step.op].row, step.now).0;
    hide DbAfter;
    assert s.db.nextRun in ActiveRuns(DbAfter(s, step).runs, app);
  }

  lemma NothingActivates(s: Sys, step: Step, app: nat)
    requires Inv(s) && ActiveRuns(s.db.runs, app) == {}
    requires !IsRetryFor(s, step, app) && !Reselects(s, step, app)
    ensures ActiveRuns(DbAfter(s, step).runs, app) == {}
  {
    var t := DbAfter(s, step);
    RunsEvolve(s, step);
    NewRuns(s, step);
    hide DbAfter, RowsOf, Picked, ActiveRun;
    assert forall r | r in s.db.runs && IsActive(s.db.runs[r], app) :: r in ActiveRuns(s.db.runs, app);
    forall r | r in t.runs ensures !IsActive(t.runs[r], app) {
      if r in s.db.runs { StaysInactive(s.db.runs[r], t.runs[r], app); }
    }
  }

  lemma StaysInactive(a: Run, b: Run, app: nat)
    requires RunMoves(a, b) && !IsActive(a, app)
    ensures !IsActive(b, app)
  {
  }
}
