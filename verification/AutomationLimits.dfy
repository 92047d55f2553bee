/** Histories that show what the automation code does not promise. */
module AutomationLimits {
  import opened Wrappers
  import opened Sets
  import opened Text
  import opened AutomationTables
  import opened Automation
  import opened AutomationHistory
  import opened AutomationPacket
  import opened AutomationSubmissions

  const RESUME_APPROVED := MaterialParams(1, 7, 1, RESUME, 1, APPROVED, "", "")
  const PREPARED := [MatchJob(7, 1, 90), AddMaterial(RESUME_APPROVED)]
  const FIRST_APPROVAL := ApproveApplication(1, [1], 0)
  const APPROVAL := PREPARED + [FIRST_APPROVAL]

  ghost predicate OneApproved(db: Db) {
    && db.applications == map[1 := Application(7, 1, ApprovedForAutomation, 90, Some(1), None)]
    && db.materials == map[1 := Material(1, 7, 1, RESUME, 1, APPROVED, "", None)] && db.nextMaterial == 2
    && db.runs == map[1 := NewRun(1, 7, 1, 1, None, 0)] && db.nextRun == 2
  }

  lemma AfterApproval()
    ensures OneApproved(After(APPROVAL).db)
    ensures After(APPROVAL).submits == map[] && After(APPROVAL).workers == map[]
    ensures Reselects(After(PREPARED), FIRST_APPROVAL, 1)
  {
    var one := [MatchJob(7, 1, 90)];
    assert one == [] + [MatchJob(7, 1, 90)];
    assert PREPARED == one + [AddMaterial(RESUME_APPROVED)];
    AfterOneMore([], MatchJob(7, 1, 90));
    AfterOneMore(one, AddMaterial(RESUME_APPROVED));
    AfterOneMore(PREPARED, FIRST_APPROVAL);
    assert After(one).db.applications == map[1 := Application(7, 1, ReadyToApply, 90, None, None)];
    hide After;
    assert After(PREPARED).db.materials == map[1 := Material(1, 7, 1, RESUME, 1, APPROVED, "", None)];
  }

  ghost predicate LoadsRejectedResume(db: Db, run: nat) {
    && run in db.runs && db.runs[run].status.Requested?
    && var packet := PacketOf(db, db.runs[run].applicationId);
       && packet.Ok? && packet.value.resume in db.materials && db.materials[packet.value.resume].status == "rejected"
  }

  /** An approved resume may be rejected later, and the packet of the requested run still loads it. */
  lemma PacketMayBeRejected()
    ensures exists steps :: LoadsRejectedResume(After(steps).db, 1)
  {
    AfterApproval();
    AfterOneMore(APPROVAL, Review(1, "rejected", ""));
    hide After;
    assert LoadsRejectedResume(After(APPROVAL + [Review(1, "rejected", "")]).db, 1);
  }

  ghost predicate SelectsAnotherResume(db: Db, run: nat) {
    && run in db.runs && db.runs[run].applicationId in db.applications
    && IsActive(db.runs[run], db.runs[run].applicationId)
    && db.applications[db.runs[run].applicationId].resume != Some(db.runs[run].resume)
  }

  lemma PicksTheLaterResume(materials: map<nat, Material>)
    requires 1 in materials && 2 in materials
    requires materials[1].kind == RESUME && materials[1].status == APPROVED
    requires materials[2].kind == RESUME && materials[2].status == APPROVED
    ensures Picked(materials, [1, 2], 0, 0) == Ok((2, 0))
  {
    assert [1, 2][1..] == [2] && [2][1..] == [];
    assert Picked(materials, [2], 1, 0) == Picked(materials, [], 2, 0);
  }

  lemma SecondApproval(db: Db)
    requires OneApproved(db)
    ensures var again := InsertMaterial(db, RESUME_APPROVED).0;
            RowsOf(again.materials, 1, [1, 2]) && SelectsAnotherResume(Approve(again, 1, [1, 2], 1).0, 1)
  {
    var again := InsertMaterial(db, RESUME_APPROVED).0;
    PicksTheLaterResume(again.materials);
    hide Picked;
  }

  lemma AddedAndApproved(s: Sys, p: MaterialParams, app: nat, rows: seq<nat>, now: int)
    ensures DbAfter(s, AddMaterial(p)) == InsertMaterial(s.db, p).0
    ensures RowsOf(s.db.materials, app, rows) ==>
              DbAfter(s, ApproveApplication(app, rows, now)) == Approve(s.db, app, rows, now).0
  {
    hide InsertMaterial, RowsOf, Approve;
  }

  lemma ThenAnotherResume(steps: seq<Step>)
    requires OneApproved(After(steps).db)
    ensures var later := [AddMaterial(RESUME_APPROVED)] + [ApproveApplication(1, [1, 2], 1)];
            SelectsAnotherResume(After(steps + later).db, 1)
  {
    var add, approve := AddMaterial(RESUME_APPROVED), ApproveApplication(1, [1, 2], 1);
    assert steps + ([add] + [approve]) == steps + [add] + [approve];
    AfterOneMore(steps, add);
    AfterOneMore(steps + [add], approve);
    hide After, DbAfter, Approve, InsertMaterial, RowsOf, OneApproved, SelectsAnotherResume;
    AddedAndApproved(After(steps), RESUME_APPROVED, 1, [], 0);
    SecondApproval(After(steps).db);
    AddedAndApproved(After(steps + [add]), RESUME_APPROVED, 1, [1, 2], 1);
  }

  lemma ApprovalMayKeepAnotherResume()
    ensures exists steps :: SelectsAnotherResume(After(steps).db, 1)
  {
    AfterApproval();
    hide After, SelectsAnotherResume;
    ThenAnotherResume(APPROVAL);
  }

  /** The packet loaded after an approval and `later` steps holds another resume than the approval selected. */
  ghost predicate LoadsLaterSelection(steps: seq<Step>, step: Step, later: seq<Step>, app: nat) {
    var (selected, loaded) := (After(steps + [step]).db, PacketOf(After(steps + [step] + later).db, app));
    && Reselects(After(steps), step, app) && app in selected.applications
    && loaded.Ok? && selected.applications[app].resume != Some(loaded.value.resume)
  }

  lemma PacketMayHoldALaterSelection()
    ensures exists steps, step, later, app :: LoadsLaterSelection(steps, step, later, app)
  {
    var add, approve := AddMaterial(RESUME_APPROVED), ApproveApplication(1, [1, 2], 1);
    var later := [add] + [approve];
    AfterApproval();
    ThenAnotherResume(APPROVAL);
    PacketLoadsAfterApproval(PREPARED, FIRST_APPROVAL, later, 1);
    HistoryMovesForward(APPROVAL + later, |APPROVAL|);
    assert (APPROVAL + later)[..|APPROVAL|] == APPROVAL;
    hide After, Reselects;
    assert After(APPROVAL + later).db.runs[1].resume == 1 && After(APPROVAL + later).db.runs[1].applicationId == 1;
    assert LoadsLaterSelection(PREPARED, FIRST_APPROVAL, later, 1);
  }

  // ---- Material drafts ------------------------------------------------------------------------

  const DRAFT := MaterialParams(1, 7, 1, RESUME, 1, "", "", "e")

  lemma AfterDraft()
    ensures var db := After([AddMaterial(DRAFT)]).db; 1 in db.materials && IsDraftOf(db.materials, 1, DRAFT)
    ensures TrimSpace("e") == TrimSpace(" e") == "e"
  {
    assert [AddMaterial(DRAFT)] == [] + [AddMaterial(DRAFT)];
    AfterOneMore([], AddMaterial(DRAFT));
    TrimPadded(Go, "", "e", "");
    TrimPadded(Go, " ", "e", "");
    assert "" + "e" + "" == "e" && " " + "e" + "" == " e";
  }

  /** A call that selects after `steps` and writes after `later` as well, and is refused. */
  ghost predicate CallRefused(steps: seq<Step>, later: seq<Step>, p: MaterialParams) {
    WriteDraft(After(steps + later).db, p, SelectDraft(After(steps).db, p)).1 == Err(UniqueViolation)
  }

  /** A draft for event "e" makes the creation of one for " e" fail, although nothing interrupts it. */
  lemma PaddedDraftIsRefused()
    ensures exists steps, p: MaterialParams :: CallRefused(steps, [], p)
  {
    var steps, p := [AddMaterial(DRAFT)], DRAFT.(sourceEventId := " e");
    AfterDraft();
    assert steps + [] == steps;
    DraftCallRefusedIff(steps, [], p);
    hide After, TrimSpace;
    assert HasDraft(After(steps).db, p, "e");
    assert CallRefused(steps, [], p);
  }

  /** Two calls for the same unpadded event overlap, and the second one is refused. */
  lemma OverlappingDraftIsRefused()
    ensures exists steps, later, p: MaterialParams ::
        TrimSpace(p.sourceEventId) == p.sourceEventId && CallRefused(steps, later, p)
  {
    AfterDraft();
    var later := [AddMaterial(DRAFT)];
    assert [] + later == later;
    assert After([]).db.materials == map[];
    DraftCallRefusedIff([], later, DRAFT);
    hide After, TrimSpace;
    assert HasDraft(After(later).db, DRAFT, "e");
    assert CallRefused([], later, DRAFT);
  }

  // ---- After a submission ---------------------------------------------------------------------

  const SUBMITTED := APPROVAL + SubmissionSteps(1, 1, 1)
  const SECOND_APPROVAL := ApproveApplication(1, [1], 1)

  /** The run of the one approved application is submitted, and the application is not yet. */
  ghost predicate OnlyRunSubmitted(db: Db) {
    && db.applications == map[1 := Application(7, 1, ApprovedForAutomation, 90, Some(1), None)]
    && db.materials == map[1 := Material(1, 7, 1, RESUME, 1, APPROVED, "", None)]
    && db.runs.Keys == {1} && db.runs[1].status.RunSubmitted?
  }

  lemma BetweenTheUpdates(s: Sys)
    requires OneApproved(s.db) && s.submits == map[] && s.workers == map[]
    ensures OnlyRunSubmitted(Do(Do(Do(s, WorkerStart(1, 1, 0)), SubmitRead(1, 1)), SubmitRun(1, "", 0)).db)
  {
    var started := Do(s, WorkerStart(1, 1, 0));
    assert started.db.runs.Keys == {1} && started.db.runs[1].status.Started? && started.submits == map[];
    var ready := Do(started, SubmitRead(1, 1));
    assert ready.submits == map[1 := PendingRun(1, 1)] && ready.db == started.db;
  }

  lemma AfterSubmission()
    ensures OnlyRunSubmitted(After(SUBMITTED).db)
    ensures SubmittedAt(SUBMITTED, |APPROVAL| + 2, 1)
        && After(SUBMITTED[..|APPROVAL| + 2]).db.runs[1].applicationId == 1
  {
    var start, read, submit := WorkerStart(1, 1, 0), SubmitRead(1, 1), SubmitRun(1, "", 0);
    AfterApproval();
    ActiveSubmits(APPROVAL, 1, 1, 1, 1);
    AfterOneMore(APPROVAL, start);
    AfterOneMore(APPROVAL + [start], read);
    AfterOneMore(APPROVAL + [start] + [read], submit);
    assert SUBMITTED == APPROVAL + [start] + [read] + [submit];
    hide After, Do, SubmittedAt;
    BetweenTheUpdates(After(APPROVAL));
  }

  /** What is true of the step that marked a run submitted stays true of longer histories. */
  lemma SubmittedAtKept(steps: seq<Step>, later: seq<Step>, k: nat, r: nat)
    requires SubmittedAt(steps, k, r)
    ensures k < |steps| && SubmittedAt(steps + later, k, r) && (steps + later)[..k] == steps[..k]
    ensures r in After(steps).db.runs
        && After(steps).db.runs[r].applicationId == After(steps[..k]).db.runs[r].applicationId
  {
    assert (steps + later)[..k] == steps[..k];
    HistoryMovesForward(steps, k);
    hide After;
  }

  lemma RetryIsActive(s: Sys, r: nat, op: nat)
    requires r in s.db.runs && op !in s.retries
    ensures s.db.nextRun in ActiveRuns(Do(Do(s, RetryRead(op, r)), RetryInsert(op, 0)).db.runs,
        s.db.runs[r].applicationId)
  {
  }

  /**
   Whatever happened, a run that was submitted can be retried and its retry submitted: the
   application is submitted a second time. `RetryAutomationRun` looks at no status.
   */
  lemma SubmittedAgain(steps: seq<Step>, k: nat, r: nat)
    requires SubmittedAt(steps, k, r)
    ensures exists later: seq<Step>, j: nat, q: nat :: SubmittedTwice(steps + later, k, r, j, q)
  {
    hide After, SubmittedAt, SubmittedTwice, SubmitsQuietly, ActiveRuns, Do;
    var op := Above(After(steps).retries.Keys);
    assert op !in After(steps).retries.Keys;
    var read, insert := RetryRead(op, r), RetryInsert(op, 0);
    var retried := [read] + [insert];
    assert steps + retried == steps + [read] + [insert];
    AfterOneMore(steps, read);
    AfterOneMore(steps + [read], insert);
    SubmittedAtKept(steps, retried, k, r);
    RetryIsActive(After(steps), r, op);
    SecondQuietlyIffActive(steps + retried, k, r, After(steps).db.runs[r].applicationId);
    var later: seq<Step>, j: nat, q: nat :| SubmittedTwice(steps + retried + later, k, r, j, q);
    assert steps + (retried + later) == steps + retried + later;
  }

  /** A submitted run may become failed. */
  lemma SubmittedMayFail()
    ensures exists steps, k: nat ::
        SubmittedAt(steps, k, 1) && 1 in After(steps).db.runs && After(steps).db.runs[1].status.Failed?
  {
    var k, fail := |APPROVAL| + 2, FailRun(1, "", 0);
    AfterSubmission();
    AfterOneMore(SUBMITTED, fail);
    SubmittedAtKept(SUBMITTED, [fail], k, 1);
    hide After, SubmittedAt;
    assert SubmittedAt(SUBMITTED + [fail], k, 1) && After(SUBMITTED + [fail]).db.runs[1].status.Failed?;
  }

  lemma ApprovableAgain(s: Sys)
    requires OnlyRunSubmitted(s.db)
    ensures Reselects(s, SECOND_APPROVAL, 1) && ActiveRuns(s.db.runs, 1) == {}
  {
    assert [1][1..] == [];
    assert Picked(s.db.materials, [1], 0, 0) == Picked(s.db.materials, [], 1, 0);
  }

  lemma NotRetriedYet()
    ensures NeverRetried(SUBMITTED + [SECOND_APPROVAL], 1)
  {
    hide After;
    assert SUBMITTED + [SECOND_APPROVAL] == PREPARED + [FIRST_APPROVAL] + SubmissionSteps(1, 1, 1) + [SECOND_APPROVAL];
  }

  lemma ActiveAgain()
    ensures ActiveRuns(After(SUBMITTED + [SECOND_APPROVAL]).db.runs, 1) != {}
  {
    AfterSubmission();
    ApprovableAgain(After(SUBMITTED));
    Always(SUBMITTED);
    AfterOneMore(SUBMITTED, SECOND_APPROVAL);
    hide After, OnlyRunSubmitted, SubmittedAt, DbAfter, Reselects;
    BecomesActiveIff(After(SUBMITTED), SECOND_APPROVAL, 1);
  }

  /**
   An approval between the two updates of a mark-submitted call leads to a second submission although
   no run was ever retried.
   */
  lemma SubmittedAgainByApproval()
    ensures exists steps, k: nat, j: nat, q: nat :: SubmittedTwice(steps, k, 1, j, q) && NeverRetried(steps[..j], 1)
  {
    var k, steps := |APPROVAL| + 2, SUBMITTED + [SECOND_APPROVAL];
    AfterSubmission();
    NotRetriedYet();
    ActiveAgain();
    hide After, SubmittedAt, SubmitsQuietly, NeverRetried;
    SubmittedAtKept(SUBMITTED, [SECOND_APPROVAL], k, 1);
    SecondQuietlyIffActive(steps, k, 1, 1);
    hide SubmittedTwice;
    var later: seq<Step>, j: nat, q: nat :| SubmitsQuietly(steps, later, j, q, 1)
      && SubmittedTwice(steps + later, k, 1, j, q);
    QuietNeverRetried(steps, later, j, q, 1);
  }
}
