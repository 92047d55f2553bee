/** Where a material's status comes from, and that no run exists without a review that approved its materials. */
module AutomationReviews {
  import opened Wrappers
  import opened Text
  import opened AutomationTables
  import opened Automation
  import opened AutomationHistory
  import opened AutomationPacket

  // ---- What the writers of materials store ----------------------------------------------------

  /** The material holds what the call was given; without a status it is a draft. */
  ghost predicate MaterialFrom(m: Material, p: MaterialParams) {
    && m.applicationId == p.applicationId && m.jobId == p.jobId && m.profileId == p.profileId && m.kind == p.kind
    && m.documentId == p.documentId && m.notes == p.notes
    && m.status == (if p.status == "" then "draft" else p.status)
    && m.sourceEvent == (if AllSpace(Go, p.sourceEventId) then None else Some(TrimSpace(p.sourceEventId)))
  }

  /** The application has a material of that kind for that very event. */
  ghost predicate Drafted(db: Db, app: nat, kind: string, event: string) {
    exists m | m in db.materials ::
      db.materials[m].applicationId == app && db.materials[m].kind == kind && db.materials[m].sourceEvent == Some(event)
  }

  /** An insert is refused exactly when the application has a material of the kind for the trimmed event. */
  lemma InsertRefusedIff(db: Db, p: MaterialParams)
    ensures InsertMaterial(db, p).1.Err? <==>
            !AllSpace(Go, p.sourceEventId) && Drafted(db, p.applicationId, p.kind, TrimSpace(p.sourceEventId))
    ensures InsertMaterial(db, p).1.Err? ==> InsertMaterial(db, p) == (db, Err(UniqueViolation))
  {
    TrimIdentity(Go, p.sourceEventId);
    hide Trim, AllSpace;
  }

  /** The select finds a draft exactly when there is one for the event as it was given, and then such a one. */
  lemma SelectFindsIff(db: Db, p: MaterialParams)
    requires IdsIssued(db)
    ensures var found := SelectDraft(db, p);
            && (found.Some? <==> p.sourceEventId != "" && Drafted(db, p.applicationId, p.kind, p.sourceEventId))
            && (found.Some? ==>
                  && found.value in db.materials
                  && var row := db.materials[found.value];
                     row.applicationId == p.applicationId && row.kind == p.kind
                     && row.sourceEvent == Some(p.sourceEventId))
  {
    if SelectDraft(db, p).Some? {
      assert IsDraftOf(db.materials, SelectDraft(db, p).value, p);
    } else {
      assert p.sourceEventId != "" ==> forall m | m in db.materials :: !IsDraftOf(db.materials, m, p);
    }
  }

  /** An accepted insert adds one material, as given, under a new id, and changes no other row. */
  lemma InsertStores(db: Db, p: MaterialParams)
    requires IdsIssued(db) && InsertMaterial(db, p).1.Ok?
    ensures var (after, id) := (InsertMaterial(db, p).0, InsertMaterial(db, p).1.value);
            && id !in db.materials && id in after.materials && MaterialFrom(after.materials[id], p)
            && after.materials == db.materials[id := after.materials[id]]
            && after.applications == db.applications && after.runs == db.runs
  {
    TrimIdentity(Go, p.sourceEventId);
    hide Trim, AllSpace;
  }

  /** The update of a draft found before keeps what identifies it. */
  lemma RewriteStores(db: Db, p: MaterialParams, id: nat)
    requires id in db.materials
    ensures var after := WriteDraft(db, p, Some(id)).0;
            && WriteDraft(db, p, Some(id)).1 == Ok(id) && id in after.materials
            && after == db.(materials := db.materials[id := after.materials[id]])
            && var (row, was) := (after.materials[id], db.materials[id]);
               && row.documentId == p.documentId && row.notes == p.notes
               && row.status == (if p.status == "" then "draft" else p.status)
               && row == was.(documentId := row.documentId, notes := row.notes, status := row.status)
  {
    hide InsertMaterial;
  }

  /** A review is one of five words for a material that is there, and writes that word and the notes. */
  lemma ReviewStores(db: Db, id: nat, status: string, notes: string)
    ensures var (after, result) := ReviewMaterial(db, id, status, notes);
            && (result.Ok? <==>
                  && id in db.materials
                  && status in {"draft", "approved", "rejected", "needs_changes", "regeneration_requested"})
            && (result.Err? ==> after == db)
            && (result.Ok? ==>
                  after == db.(materials := db.materials[id := db.materials[id].(status := status, notes := notes)]))
  {
  }

  // ---- Where a status comes from --------------------------------------------------------------

  /** The status a step writes to material `m`, or to the material it inserts as `m`. */
  ghost predicate Wrote(s: Sys, step: Step, m: nat, status: string) {
    match step
    case AddMaterial(p) =>
      m !in s.db.materials && m in DbAfter(s, step).materials && status == if p.status == "" then "draft" else p.status
    case RewriteMaterial(id, _, given, _) => id == m && given == status
    case Review(id, given, _) =>
      id == m && given == status
      && status in {"draft", "approved", "rejected", "needs_changes", "regeneration_requested"}
    case _ => false
  }

  ghost predicate WroteAt(steps: seq<Step>, k: nat, m: nat, status: string) {
    k < |steps| && Wrote(After(steps[..k]), steps[k], m, status)
  }

  lemma WroteAtStays(steps: seq<Step>, step: Step, k: nat, m: nat, status: string)
    requires WroteAt(steps, k, m, status)
    ensures WroteAt(steps + [step], k, m, status)
  {
    assert (steps + [step])[..k] == steps[..k];
    hide After, Wrote;
  }

  lemma NewMaterialWrote(s: Sys, step: Step, m: nat)
    requires IdsIssued(s.db) && m !in s.db.materials && m in DbAfter(s, step).materials
    ensures Wrote(s, step, m, DbAfter(s, step).materials[m].status)
  {
    hide ActiveRun, Picked, RowsOf, NullIfEmpty;
  }

  lemma WrittenWrote(s: Sys, step: Step, m: nat)
    requires StatusWritten(step, m).Some?
    ensures Wrote(s, step, m, StatusWritten(step, m).value)
  {
    hide DbAfter;
  }

  /** Whatever status a material has, some step wrote that very word to it. */
  lemma {:induction false} StatusWasWritten(steps: seq<Step>, m: nat)
    requires m in After(steps).db.materials
    ensures exists k: nat :: WroteAt(steps, k, m, After(steps).db.materials[m].status)
  {
    var n := |steps| - 1;
    var before, step := steps[..n], steps[n];
    assert steps == before + [step];
    AfterOneMore(before, step);
    Always(before);
    hide After, DbAfter, Wrote;
    if m !in After(before).db.materials {
      NewMaterialWrote(After(before), step, m);
      assert WroteAt(steps, n, m, After(steps).db.materials[m].status);
    } else {
      StatusStep(After(before), step, m);
      if StatusWritten(step, m).Some? {
        WrittenWrote(After(before), step, m);
        assert WroteAt(steps, n, m, After(steps).db.materials[m].status);
      } else {
        StatusWasWritten(before, m);
        var k: nat :| WroteAt(before, k, m, After(before).db.materials[m].status);
        WroteAtStays(before, step, k, m, After(before).db.materials[m].status);
      }
    }
  }

  // ---- No run without a review ----------------------------------------------------------------

  /** Step `j` is a review that approved the material. */
  predicate ApprovedInReview(steps: seq<Step>, j: nat, m: nat) {
    j < |steps| && steps[j].Review? && steps[j].material == m && steps[j].status == "approved"
  }

  /** Drafts are written under any status but this one, as the tuning worker writes them. */
  predicate OnlyReviewsApprove(steps: seq<Step>) {
    forall k | 0 <= k < |steps| ::
      && (steps[k].AddMaterial? ==> steps[k].p.status != "approved")
      && (steps[k].RewriteMaterial? ==> steps[k].status != "approved")
  }

  lemma ApprovedWasReviewed(steps: seq<Step>, k: nat, m: nat)
    requires OnlyReviewsApprove(steps) && k <= |steps|
    requires m in After(steps[..k]).db.materials && After(steps[..k]).db.materials[m].status == APPROVED
    ensures exists j: nat :: j < k && ApprovedInReview(steps, j, m)
  {
    hide After, DbAfter;
    StatusWasWritten(steps[..k], m);
    var j: nat :| WroteAt(steps[..k], j, m, APPROVED);
    assert steps[..k][j] == steps[j];
    assert ApprovedInReview(steps, j, m);
  }

  /** Step `k` approves the run's application, and the run's materials were each approved in a review before it. */
  ghost predicate ReviewedBefore(steps: seq<Step>, k: nat, run: Run) {
    && k < |steps| && Selects(steps[k], run.applicationId)
    && (exists j: nat :: j < k && ApprovedInReview(steps, j, run.resume))
    && (run.cover.Some? ==> exists j: nat :: j < k && ApprovedInReview(steps, j, run.cover.value))
  }

  lemma CreatedRunWasReviewed(steps: seq<Step>, k: nat, root: nat, run: Run)
    requires OnlyReviewsApprove(steps) && CreatedByApproval(steps, k, root)
    requires SameIds(run, DbAfter(After(steps[..k]), steps[k]).runs[root])
    ensures ReviewedBefore(steps, k, run)
  {
    hide After, DbAfter, OnlyReviewsApprove, ApprovedInReview;
    ApprovedWasReviewed(steps, k, run.resume);
    if run.cover.Some? { ApprovedWasReviewed(steps, k, run.cover.value); }
  }

  /** A run's ids are those it was inserted with. */
  lemma CreatedIdsStay(steps: seq<Step>, k: nat, root: nat)
    requires CreatedByApproval(steps, k, root)
    ensures root in After(steps).db.runs
        && SameIds(After(steps).db.runs[root], DbAfter(After(steps[..k]), steps[k]).runs[root])
  {
    assert steps[..k + 1] == steps[..k] + [steps[k]];
    AfterOneMore(steps[..k], steps[k]);
    hide After, DbAfter;
    HistoryMovesForward(steps, k + 1);
  }

  /**
   As long as drafts are not written as approved, no run exists, by retry or otherwise, unless its
   resume and its cover letter were each approved in a review, and its application approved after that.
   */
  lemma NoRunWithoutReview(steps: seq<Step>, r: nat)
    requires OnlyReviewsApprove(steps) && r in After(steps).db.runs
    ensures exists k: nat :: ReviewedBefore(steps, k, After(steps).db.runs[r])
  {
    hide After, DbAfter, OnlyReviewsApprove, CreatedByApproval, Retried, ReviewedBefore;
    EveryRunWasApproved(steps, r);
    var chain: seq<nat> :| Lineage(steps, chain) && chain[|chain| - 1] == r;
    assert r in chain;
    var k: nat :| CreatedByApproval(steps, k, chain[0]);
    CreatedIdsStay(steps, k, chain[0]);
    CreatedRunWasReviewed(steps, k, chain[0], After(steps).db.runs[r]);
  }
}
