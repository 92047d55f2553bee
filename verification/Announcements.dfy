/** What the stream says: nothing twice, and nothing but what a commit brought about. */
module Announcements {
  import opened Wrappers
  import opened Text
  import opened Events
  import opened JobTables
  import opened Dispatcher

  // ---- Nothing twice --------------------------------------------------------------------------

  ghost predicate NoRepeats(stream: seq<Message>) {
    forall i, j | 0 <= i < j < |stream| :: !SameNews(stream[i], stream[j])
  }

  lemma PublishedNoRepeats(stream: seq<Message>, m: Message)
    requires NoRepeats(stream)
    ensures NoRepeats(Published(stream, m))
  {
    PublishedSpec(stream, m);
    hide Published, SameNews;
  }

  /** The message a step publishes, if it publishes one. */
  function PublishedBy(s: Sys, step: Step): Option<Message> {
    if (step.PublishSaved? || step.PublishFetch?) && step.worker in s.workers
       && s.workers[step.worker].msg in s.inbox then
      var (e, phase) := (s.inbox[s.workers[step.worker].msg], s.workers[step.worker].phase);
      if step.PublishSaved? && phase.Committed? then Some(JobSaved(e.source, phase.jobId, phase.created))
      else if step.PublishFetch? && phase.Announced? && AllSpace(Go, e.payload.description)
        then Some(FetchRequested(e.source, phase.jobId))
      else None
    else None
  }

  lemma StreamStep(s: Sys, step: Step)
    ensures var m := PublishedBy(s, step);
            Do(s, step).stream == if m.Some? then Published(s.stream, m.value) else s.stream
  {
    if step.PublishFetch? && step.worker in s.workers && s.workers[step.worker].msg in s.inbox {
      BlankIsAllSpace(s.inbox[s.workers[step.worker].msg]);
    }
    hide Published, Save, Apply, BlankDescription, AllSpace;
  }

  /** However often a discovery is delivered, the stream says the same thing once. */
  lemma {:induction false} StreamNeverRepeats(steps: seq<Step>)
    ensures NoRepeats(After(steps).stream)
  {
    if steps == [] {
    } else {
      var s, step := After(steps[..|steps| - 1]), steps[|steps| - 1];
      StreamNeverRepeats(steps[..|steps| - 1]);
      StreamStep(s, step);
      hide Do, Published, NoRepeats;
      if PublishedBy(s, step).Some? { PublishedNoRepeats(s.stream, PublishedBy(s, step).value); }
    }
  }

  // ---- Nothing made up ------------------------------------------------------------------------

  /** Step `k` resolved message `msg` to the job, creating it or not. */
  ghost predicate CommittedAt(steps: seq<Step>, k: nat, msg: nat, jobId: nat, created: bool) {
    ResolvedAt(steps, k, msg, jobId)
    && Save(After(steps[..k]).db, WithSource(After(steps[..k]).inbox[msg])).1.value.created == created
  }

  ghost predicate CommittedAs(steps: seq<Step>, msg: nat, jobId: nat, created: bool) {
    exists k: nat :: CommittedAt(steps, k, msg, jobId, created)
  }

  lemma CommittedStays(steps: seq<Step>, step: Step, msg: nat, jobId: nat, created: bool)
    requires CommittedAs(steps, msg, jobId, created)
    ensures CommittedAs(steps + [step], msg, jobId, created)
  {
    hide After, Save;
    var k: nat :| CommittedAt(steps, k, msg, jobId, created);
    assert (steps + [step])[..k] == steps[..k];
    assert CommittedAt(steps + [step], k, msg, jobId, created);
  }

  ghost predicate WorkersCommitted(steps: seq<Step>) {
    var s := After(steps);
    forall w | w in s.workers && s.workers[w].phase.Committed? ::
      CommittedAs(steps, s.workers[w].msg, s.workers[w].phase.jobId, s.workers[w].phase.created)
  }

  lemma CommitCommits(steps: seq<Step>, step: Step, w: nat)
    requires var t := Do(After(steps), step); w in t.workers && t.workers[w].phase.Committed?
    requires Moves(step, w) && WorkersCommitted(steps)
    ensures var work := Do(After(steps), step).workers[w];
            CommittedAs(steps + [step], work.msg, work.phase.jobId, work.phase.created)
  {
    hide After, Save, Published;
    var s, work := After(steps), Do(After(steps), step).workers[w];
    if w in s.workers && s.workers[w].phase.Committed? {
      CommittedStays(steps, step, work.msg, work.phase.jobId, work.phase.created);
    } else {
      assert (steps + [step])[..|steps|] == steps;
      assert CommittedAt(steps + [step], |steps|, work.msg, work.phase.jobId, work.phase.created);
    }
  }

  lemma {:induction false} WorkersStayCommitted(steps: seq<Step>)
    ensures WorkersCommitted(steps)
  {
    if steps == [] {
    } else {
      var before, step := steps[..|steps| - 1], steps[|steps| - 1];
      WorkersStayCommitted(before);
      assert steps == before + [step];
      AfterOneMore(before, step);
      hide Do, After, CommittedAs;
      DoFrames(After(before), step);
      var t := Do(After(before), step);
      forall w | w in t.workers && t.workers[w].phase.Committed?
        ensures CommittedAs(steps, t.workers[w].msg, t.workers[w].phase.jobId, t.workers[w].phase.created)
      {
        if Moves(step, w) {
          CommitCommits(before, step, w);
        } else {
          CommittedStays(before, step, t.workers[w].msg, t.workers[w].phase.jobId, t.workers[w].phase.created);
        }
      }
    }
  }

  /** The message is news of discovery `msg`: of a commit of it, or a request for the description it lacks. */
  ghost predicate NewsOf(steps: seq<Step>, m: Message, msg: nat) {
    var inbox := After(steps).inbox;
    && msg in inbox && m.source == inbox[msg].source
    && (m.JobSaved? ==> CommittedAs(steps, msg, m.jobId, m.created))
    && (m.FetchRequested? ==> AllSpace(Go, inbox[msg].payload.description) && Resolved(steps, msg, m.jobId))
  }

  ghost predicate IsNews(steps: seq<Step>, m: Message) {
    exists msg :: NewsOf(steps, m, msg)
  }

  ghost predicate Backed(steps: seq<Step>) {
    forall m | m in After(steps).stream :: IsNews(steps, m)
  }

  lemma NewsStays(steps: seq<Step>, step: Step, m: Message)
    requires IsNews(steps, m)
    ensures IsNews(steps + [step], m)
  {
    var msg :| NewsOf(steps, m, msg);
    AfterOneMore(steps, step);
    hide After, Do, CommittedAs, Resolved, AllSpace;
    DoExtends(After(steps), step);
    if m.JobSaved? {
      CommittedStays(steps, step, msg, m.jobId, m.created);
    } else {
      ResolvedStays(steps, step, msg, m.jobId);
    }
    assert NewsOf(steps + [step], m, msg);
  }

  lemma PublishedIsNews(steps: seq<Step>, step: Step)
    requires PublishedBy(After(steps), step).Some?
    ensures IsNews(steps, PublishedBy(After(steps), step).value)
  {
    WorkersStayCommitted(steps);
    WorkersStayResolved(steps);
    hide After, CommittedAs, Resolved, AllSpace;
    assert NewsOf(steps, PublishedBy(After(steps), step).value, After(steps).workers[step.worker].msg);
  }

  lemma BackedOneMore(steps: seq<Step>, step: Step)
    requires Backed(steps)
    ensures Backed(steps + [step])
  {
    AfterOneMore(steps, step);
    StreamStep(After(steps), step);
    hide After, Do, IsNews, PublishedBy;
    var m := PublishedBy(After(steps), step);
    if m.Some? {
      PublishedSpec(After(steps).stream, m.value);
      PublishedIsNews(steps, step);
    }
    hide Published, SameNews;
    forall sent | sent in After(steps + [step]).stream ensures IsNews(steps + [step], sent) {
      assert sent in After(steps).stream || m == Some(sent);
      NewsStays(steps, step, sent);
    }
  }

  /**
   Every message in the stream is news of a discovery that was received: jobs.saved of a commit that
   resolved it to that job and created it or not, a fetch request of one without a description.
   */
  lemma {:induction false} StreamIsBacked(steps: seq<Step>)
    ensures Backed(steps)
  {
    if steps == [] {
    } else {
      var before, step := steps[..|steps| - 1], steps[|steps| - 1];
      StreamIsBacked(before);
      assert steps == before + [step];
      hide Backed;
      BackedOneMore(before, step);
    }
  }

  // ---- When handling a message succeeds -------------------------------------------------------

  /**
   Handling a message succeeds exactly when it is a discovery, its save commits, and each message due
   was accepted; then the stream announces its job and asks for the description it lacks. It never
   publishes before the commit.
   */
  lemma HandledIff(db: Db, stream: seq<Message>, e: Envelope, saved: Outcome, fetch: Outcome)
    ensures var (after, sent, jobId) := Processed(db, stream, e, saved, fetch);
            var save := Save(db, WithSource(e)).1;
            && (jobId.Some? <==>
                  && e.eventType == JOB_DISCOVERED && save.Ok? && saved.Accepted?
                  && (AllSpace(Go, e.payload.description) ==> fetch.Accepted?))
            && (jobId.Some? ==>
                  && jobId.value == save.value.jobId
                  && SavedAnnounced(sent, e, jobId.value) && FetchAsked(sent, e, jobId.value))
            && (e.eventType != JOB_DISCOVERED || save.Err? ==> after == db && sent == stream)
            && (e.eventType == JOB_DISCOVERED ==> after == Save(db, WithSource(e)).0)
            && stream <= sent
  {
    BlankIsAllSpace(e);
    hide Save, Published, BlankDescription, AllSpace, Announces, Asks;
    if Save(db, WithSource(e)).1.Err? { SaveFails(db, WithSource(e)); }
    if Save(db, WithSource(e)).1.Ok? {
      var result := Save(db, WithSource(e)).1.value;
      var one := Published(stream, JobSaved(e.source, result.jobId, result.created));
      PublishedAnnounces(stream, e, result.jobId, result.created);
      PublishedAsks(one, e, result.jobId);
      PublishedSpec(stream, JobSaved(e.source, result.jobId, result.created));
      PublishedSpec(one, FetchRequested(e.source, result.jobId));
      assert forall i | 0 <= i < |one| :: Published(one, FetchRequested(e.source, result.jobId))[i] == one[i];
    }
  }

  lemma SaveFails(db: Db, e: Envelope)
    requires Save(db, e).1.Err?
    ensures Save(db, e).0 == db
  {
    hide JobFor, Clashes, RowOf;
  }
}
