/** The store's writers of applications, materials and automation runs, changing the tables in place. */
module AutomationStore {
  import opened Wrappers
  import opened Text
  import opened AutomationTables

  class Store {
    var applications: map<nat, Application>
    var materials: map<nat, Material>
    var runs: map<nat, Run>
    var nextApplication: nat
    var nextMaterial: nat
    var nextRun: nat

    function View(): Db
      reads this
    {
      Db(applications, materials, runs, nextApplication, nextMaterial, nextRun)
    }

    constructor ()
      ensures View() == EMPTY
    {
      applications, materials, runs := map[], map[], map[];
      nextApplication, nextMaterial, nextRun := 1, 1, 1;
    }

    method MarkApplicationReady(jobId: nat, profileId: nat, score: int)
      modifies this`applications, this`nextApplication
      ensures View() == MarkReady(old(View()), jobId, profileId, score)
    {
      var existing := ApplicationFor(applications, jobId, nextApplication);
      if existing.Some? {
        applications := applications[existing.value := applications[existing.value].(
          profileId := profileId, status := ReadyToApply, matchScore := score)];
      } else {
        applications := applications[nextApplication := Application(jobId, profileId, ReadyToApply, score, None, None)];
        nextApplication := nextApplication + 1;
      }
    }

    method FindDraft(p: MaterialParams) returns (existing: Option<nat>)
      ensures existing == SelectDraft(View(), p)
    {
      existing := None;
      if p.sourceEventId != "" {
        existing := MaterialFor(materials, p, nextMaterial);
      }
    }

    method SaveDraft(p: MaterialParams, existing: Option<nat>) returns (result: Result<nat, Failure>)
      modifies this`materials, this`nextMaterial
      ensures (View(), result) == WriteDraft(old(View()), p, existing)
    {
      var status := StatusOrDraft(p.status);
      if existing.Some? {
        if existing.value in materials {
          materials := materials[existing.value := materials[existing.value].(
            documentId := p.documentId, status := status, notes := p.notes)];
        }
        return Ok(existing.value);
      }
      var event := NullIfEmpty(p.sourceEventId);
      if event.Some? && exists m | m in materials :: SameDraft(materials[m], p.applicationId, p.kind, event.value) {
        return Err(UniqueViolation);
      }
      materials := materials[nextMaterial := Material(
        p.applicationId, p.jobId, p.profileId, p.kind, p.documentId, status, p.notes, event)];
      result := Ok(nextMaterial);
      nextMaterial := nextMaterial + 1;
    }

    /** Both statements, with nothing running between them. */
    method CreateApplicationMaterial(p: MaterialParams) returns (result: Result<nat, Failure>)
      modifies this`materials, this`nextMaterial
      ensures (View(), result) == CreateMaterial(old(View()), p)
    {
      hide SelectDraft, WriteDraft;
      var existing := FindDraft(p);
      result := SaveDraft(p, existing);
    }

    method UpdateApplicationMaterialStatus(id: nat, status: string, notes: string) returns (result: Result<(), Failure>)
      modifies this`materials
      ensures (View(), result) == ReviewMaterial(old(View()), id, status, notes)
    {
      if !SupportedStatus(status) {
        return Err(UnsupportedStatus);
      }
      if id !in materials {
        return Err(NotFound);
      }
      materials := materials[id := materials[id].(status := status, notes := notes)];
      result := Ok(());
    }

    /** `approvedMaterialIDsTx`: one pass over the rows, the later id overwriting the earlier. */
    method ApprovedMaterialIds(rows: seq<nat>) returns (result: Result<(nat, nat), Failure>)
      requires forall id | id in rows :: id in materials
      ensures result == Picked(materials, rows, 0, 0)
    {
      var resume, cover := 0, 0;
      for i := 0 to |rows|
        invariant Picked(materials, rows[i..], resume, cover) == Picked(materials, rows, 0, 0)
      {
        var id := rows[i];
        assert rows[i..][1..] == rows[i + 1..];
        if materials[id].status != APPROVED {
          return Err(NotApproved(id));
        }
        if materials[id].kind == RESUME {
          resume := id;
        } else if materials[id].kind == COVER_LETTER {
          cover := id;
        }
      }
      if resume == 0 {
        return Err(NoApprovedResume);
      }
      result := Ok((resume, cover));
    }

    method ApproveApplicationForAutomation(id: nat, rows: seq<nat>, now: int)
      returns (result: Result<(Run, Packet), Failure>)
      requires forall m | m in rows :: m in materials
      modifies this`applications, this`runs, this`nextRun
      ensures (View(), result) == HandOff(old(View()), id, rows, now)
    {
      hide Picked, ActiveRun;
      var approved := ApproveInTransaction(id, rows, now);
      if approved.Err? {
        return Err(approved.error);
      }
      var packet := PacketOf(View(), id);
      if packet.Err? {
        return Err(packet.error);
      }
      if approved.value !in runs {
        return Err(NotFound);
      }
      result := Ok((runs[approved.value], packet.value));
    }

    /** The transaction of the approval. */
    method ApproveInTransaction(id: nat, rows: seq<nat>, now: int) returns (result: Result<nat, Failure>)
      requires forall m | m in rows :: m in materials
      modifies this`applications, this`runs, this`nextRun
      ensures (View(), result) == Approve(old(View()), id, rows, now)
    {
      if id !in applications {
        return Err(NotFound);
      }
      var app := applications[id];
      if app.status == Submitted {
        return Err(AlreadySubmitted);
      }
      var picked := ApprovedMaterialIds(rows);
      if picked.Err? {
        return Err(picked.error);
      }
      var (resume, cover) := picked.value;
      var active := ActiveRun(runs, id, nextRun);
      var runId := nextRun;
      if active.Some? {
        runId := active.value;
      } else {
        runs := runs[runId := NewRun(id, app.jobId, app.profileId, resume, NullIfZero(cover), now)];
        nextRun := nextRun + 1;
      }
      applications := applications[id := app.(status := ApprovedForAutomation, resume := Some(resume),
        cover := NullIfZero(cover))];
      result := Ok(runId);
    }

    method StartAutomationRun(id: nat, now: int) returns (result: Result<Run, Failure>)
      modifies this`runs
      ensures (View(), result) == Start(old(View()), id, now)
    {
      if id !in runs || !(runs[id].status.Requested? || runs[id].status.Started?) {
        return Err(NotStartable);
      }
      var startedAt := if runs[id].startedAt.Some? then runs[id].startedAt else Some(now);
      runs := runs[id := runs[id].(status := Started, startedAt := startedAt)];
      result := Ok(runs[id]);
    }

    method MarkAutomationReviewRequired(id: nat, finalUrl: string, now: int) returns (result: Result<Run, Failure>)
      modifies this`runs
      ensures (View(), result) == RequireReview(old(View()), id, finalUrl, now)
    {
      if id !in runs || runs[id].status.RunSubmitted? || runs[id].status.Failed? {
        return Err(NotReviewable);
      }
      runs := runs[id := runs[id].(status := ReviewRequired, finalUrl := Some(finalUrl),
        reviewRequiredAt := Some(now))];
      result := Ok(runs[id]);
    }

    method MarkAutomationFailed(id: nat, message: string, now: int) returns (result: Result<Run, Failure>)
      modifies this`runs
      ensures (View(), result) == Fail(old(View()), id, message, now)
    {
      if id in runs {
        runs := runs[id := runs[id].(status := Failed, error := Some(message), finishedAt := Some(now))];
      }
      result := if id in runs then Ok(runs[id]) else Err(NotFound);
    }

    /** Both statements, with nothing running between them. */
    method MarkAutomationSubmitted(id: nat, finalUrl: string, now: int) returns (result: Result<Run, Failure>)
      modifies this`runs, this`applications
      ensures var (after, submitted) := Submit(old(View()), id, finalUrl, now);
              if id !in old(runs) then View() == old(View()) && result == Err(NotFound)
              else result == submitted
                   && View() == if submitted.Ok?
                     then SetApplicationStatus(after, submitted.value.applicationId, Submitted) else after
    {
      if id !in runs {
        return Err(NotFound);
      }
      var app := runs[id].applicationId;
      if !(runs[id].status.ReviewRequired? || runs[id].status.Started?) {
        return Err(NotSubmittable);
      }
      var url := if finalUrl == "" then runs[id].finalUrl else Some(finalUrl);
      runs := runs[id := runs[id].(status := RunSubmitted, finishedAt := Some(now), finalUrl := url)];
      if app in applications {
        applications := applications[app := applications[app].(status := Submitted)];
      }
      result := Ok(runs[id]);
    }

    method RetryAutomationRun(id: nat, now: int) returns (result: Result<Run, Failure>)
      modifies this`runs, this`nextRun
      ensures if id !in old(runs) then View() == old(View()) && result == Err(NotFound)
              else var (after, retry) := Retry(old(View()), old(runs)[id], now);
                   View() == after && result == Ok(after.runs[retry])
    {
      if id !in runs {
        return Err(NotFound);
      }
      var read := runs[id];
      runs := runs[nextRun := NewRun(read.applicationId, read.jobId, read.profileId, read.resume, read.cover, now)];
      result := Ok(runs[nextRun]);
      nextRun := nextRun + 1;
    }
  }
}
