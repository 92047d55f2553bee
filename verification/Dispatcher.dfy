/**
 The persistence dispatcher: commit, publish, publish, acknowledge, with a crash possible after any
 of them and every unacknowledged discovery delivered again. A stream keeps one message per message
 id for ever, and a hashed message id is taken to be as good as the parts hashed.
 */
module Dispatcher {
  import opened Wrappers
  import opened Text
  import opened Events
  import opened JobTables
  import JobStore

  datatype Message =
    | JobSaved(source: string, jobId: nat, created: bool)
    | FetchRequested(source: string, jobId: nat)

  function MsgId(m: Message): Message {
    m.(source := Normalize(m.source))
  }

  predicate Holds(stream: seq<Message>, id: Message) {
    exists i | 0 <= i < |stream| :: MsgId(stream[i]) == id
  }

  /** A publish appends the message or finds an earlier one with its id. */
  function Published(stream: seq<Message>, m: Message): seq<Message> {
    if Holds(stream, MsgId(m)) then stream else stream + [m]
  }

  predicate BlankDescription(e: Envelope) {
    TrimSpace(e.payload.description) == ""
  }

  // ---- One message, handled without interruption ----------------------------------------------

  /** How a publish ends: a failed one may have reached the stream all the same. */
  datatype Outcome = Accepted | Refused | Unanswered

  function Sent(stream: seq<Message>, m: Message, outcome: Outcome): seq<Message> {
    if outcome.Refused? then stream else Published(stream, m)
  }

  /** Tables and stream after `processMessage`, and the job it saved to, if it succeeds. */
  function Processed(db: Db, stream: seq<Message>, e: Envelope, saved: Outcome, fetch: Outcome)
    : (Db, seq<Message>, Option<nat>)
  {
    if e.eventType != JOB_DISCOVERED then (db, stream, None)
    else
      var (after, result) := Save(db, WithSource(e));
      if result.Err? then (after, stream, None)
      else
        var id := result.value.jobId;
        var announced := Sent(stream, JobSaved(e.source, id, result.value.created), saved);
        if !saved.Accepted? then (after, announced, None)
        else if !BlankDescription(e) then (after, announced, Some(id))
        else (after, Sent(announced, FetchRequested(e.source, id), fetch), if fetch.Accepted? then Some(id) else None)
  }

  class Service {
    const store: JobStore.Store
    var stream: seq<Message>

    constructor (store: JobStore.Store)
      ensures this.store == store && stream == []
    {
      this.store := store;
      stream := [];
    }

    method Publish(m: Message, outcome: Outcome) returns (ok: bool)
      modifies this
      ensures stream == Sent(old(stream), m, outcome) && ok == outcome.Accepted?
    {
      if !outcome.Refused? && !Holds(stream, MsgId(m)) {
        stream := stream + [m];
      }
      ok := outcome.Accepted?;
    }

    /** Returns the saved job, or nothing when the message must be delivered again. */
    method ProcessMessage(e: Envelope, savedOutcome: Outcome, fetchOutcome: Outcome) returns (jobId: Option<nat>)
      requires store.Valid()
      modifies this, store
      ensures store.Valid()
      ensures (store.View(), stream, jobId) == Processed(old(store.View()), old(stream), e, savedOutcome, fetchOutcome)
    {
      hide Save;
      if e.eventType != JOB_DISCOVERED {
        return None;
      }
      var saved := store.SaveDiscoveredJob(WithSource(e));
      if saved.Err? {
        return None;
      }
      var announced := Publish(JobSaved(e.source, saved.value.jobId, saved.value.created), savedOutcome);
      if !announced {
        return None;
      }
      if BlankDescription(e) {
        var asked := Publish(FetchRequested(e.source, saved.value.jobId), fetchOutcome);
        if !asked {
          return None;
        }
      }
      jobId := Some(saved.value.jobId);
    }
  }

  // ---- Any interleaving, with crashes ---------------------------------------------------------

  datatype Phase = Received | Committed(jobId: nat, created: bool) | Announced(jobId: nat) | Handled(jobId: nat)
  datatype Work = Work(msg: nat, phase: Phase)

  datatype Sys = Sys(db: Db, stream: seq<Message>, inbox: map<nat, Envelope>, acked: set<nat>, workers: map<nat, Work>)

  const INIT := Sys(EMPTY, [], map[], {}, map[])

  datatype Step =
    | Discover(msg: nat, e: Envelope)
    | Receive(worker: nat, msg: nat)
    | Commit(worker: nat)
    | PublishSaved(worker: nat)
    | PublishFetch(worker: nat)
    | Ack(worker: nat)
    | Crash(worker: nat)
    | Write(op: Op)

  /** One step; a step that is not possible changes nothing. */
  function Do(s: Sys, step: Step): Sys {
    match step
    case Discover(msg, e) => if msg in s.inbox then s else s.(inbox := s.inbox[msg := e])
    case Receive(w, msg) =>
      if w in s.workers || msg !in s.inbox || msg in s.acked then s
      else s.(workers := s.workers[w := Work(msg, Received)])
    case Commit(w) =>
      if w !in s.workers || s.workers[w].msg !in s.inbox || !s.workers[w].phase.Received? then s
      else CommitOf(s, w, s.inbox[s.workers[w].msg])
    case PublishSaved(w) =>
      if w !in s.workers || s.workers[w].msg !in s.inbox || !s.workers[w].phase.Committed? then s
      else
        var work := s.workers[w];
        var m := JobSaved(s.inbox[work.msg].source, work.phase.jobId, work.phase.created);
        s.(stream := Published(s.stream, m), workers := s.workers[w := work.(phase := Announced(work.phase.jobId))])
    case PublishFetch(w) =>
      if w !in s.workers || s.workers[w].msg !in s.inbox || !s.workers[w].phase.Announced? then s
      else
        var work := s.workers[w];
        var e := s.inbox[work.msg];
        var stream := if BlankDescription(e) then Published(s.stream, FetchRequested(e.source, work.phase.jobId))
          else s.stream;
        s.(stream := stream, workers := s.workers[w := work.(phase := Handled(work.phase.jobId))])
    case Ack(w) =>
      if w !in s.workers || !s.workers[w].phase.Handled? then s
      else s.(acked := s.acked + {s.workers[w].msg}, workers := s.workers - {w})
    case Crash(w) => s.(workers := s.workers - {w})
    case Write(op) => if op.Deliver? then s else s.(db := Apply(s.db, op))
  }

  /** The store transaction of one worker; a failure gives the message back. */
  function CommitOf(s: Sys, w: nat, e: Envelope): Sys
    requires w in s.workers
  {
    if e.eventType != JOB_DISCOVERED then s.(workers := s.workers - {w})
    else
      var (after, result) := Save(s.db, WithSource(e));
      s.(db := after,
         workers := if result.Ok?
                    then s.workers[w := s.workers[w].(phase := Committed(result.value.jobId, result.value.created))]
                    else s.workers - {w})
  }

  function After(steps: seq<Step>): Sys {
    if steps == [] then INIT else Do(After(steps[..|steps| - 1]), steps[|steps| - 1])
  }

  /** The steps of one worker that handles one message by itself; a failed publish ends in giving it back. */
  function WorkerSteps(w: nat, msg: nat, e: Envelope, saved: Outcome, fetch: Outcome): seq<Step> {
    var failed := BlankDescription(e) && !fetch.Accepted?;
    [Receive(w, msg), Commit(w)]
    + if saved.Refused? then [Crash(w)]
      else if saved.Unanswered? then [PublishSaved(w), Crash(w)]
      else if failed && fetch.Refused? then [PublishSaved(w), Crash(w)]
      else [PublishSaved(w), PublishFetch(w), if failed then Crash(w) else Ack(w)]
  }

  function DoAll(s: Sys, steps: seq<Step>): Sys
    decreases |steps|
  {
    if steps == [] then s else DoAll(Do(s, steps[0]), steps[1..])
  }

  lemma DoFirst(s: Sys, step: Step, rest: seq<Step>)
    ensures DoAll(s, [step] + rest) == DoAll(Do(s, step), rest)
  {
    assert ([step] + rest)[1..] == rest;
  }

  lemma DoFour(s: Sys, a: Step, b: Step, c: Step, d: Step)
    ensures DoAll(s, [a, b, c]) == Do(Do(Do(s, a), b), c)
    ensures DoAll(s, [a, b, c, d]) == Do(Do(Do(Do(s, a), b), c), d)
  {
    hide Do;
    var three := Do(Do(Do(s, a), b), c);
    assert DoAll(three, []) == three && DoAll(Do(three, d), []) == Do(three, d);
    hide DoAll;
    DoFirst(s, a, [b, c]);
    DoFirst(Do(s, a), b, [c]);
    DoFirst(Do(Do(s, a), b), c, []);
    DoFirst(s, a, [b, c, d]);
    DoFirst(Do(s, a), b, [c, d]);
    DoFirst(Do(Do(s, a), b), c, [d]);
    DoFirst(three, d, []);
    assert [a] + [b, c] == [a, b, c] && [b] + [c] == [b, c] && [c] + [] == [c] && [d] + [] == [d];
    assert [a] + [b, c, d] == [a, b, c, d] && [b] + [c, d] == [b, c, d] && [c] + [d] == [c, d];
  }

  lemma DoFive(s: Sys, a: Step, b: Step, c: Step, d: Step, f: Step)
    ensures DoAll(s, [a, b, c, d, f]) == Do(Do(Do(Do(Do(s, a), b), c), d), f)
  {
    hide Do, DoAll;
    DoFirst(s, a, [b, c, d, f]);
    assert [a] + [b, c, d, f] == [a, b, c, d, f];
    DoFour(Do(s, a), b, c, d, f);
  }

  lemma AnnouncingWorker(s: Sys, w: nat)
    requires w in s.workers && s.workers[w].msg in s.inbox && s.workers[w].phase.Committed?
    ensures var (e, phase) := (s.inbox[s.workers[w].msg], s.workers[w].phase);
            Do(s, PublishSaved(w)) == s.(
              stream := Published(s.stream, JobSaved(e.source, phase.jobId, phase.created)),
              workers := s.workers[w := s.workers[w].(phase := Announced(phase.jobId))])
  {
    hide Published, CommitOf, Apply;
  }

  lemma AskingWorker(s: Sys, w: nat)
    requires w in s.workers && s.workers[w].msg in s.inbox && s.workers[w].phase.Announced?
    ensures var (e, phase) := (s.inbox[s.workers[w].msg], s.workers[w].phase);
            Do(s, PublishFetch(w)) == s.(
              stream := if BlankDescription(e) then Published(s.stream, FetchRequested(e.source, phase.jobId))
                else s.stream,
              workers := s.workers[w := s.workers[w].(phase := Handled(phase.jobId))])
  {
    hide Published, CommitOf, Apply, BlankDescription;
  }

  lemma LeavingWorker(s: Sys, w: nat)
    ensures Do(s, Crash(w)) == s.(workers := s.workers - {w})
    ensures w in s.workers && s.workers[w].phase.Handled? ==>
              Do(s, Ack(w)) == s.(acked := s.acked + {s.workers[w].msg}, workers := s.workers - {w})
  {
    hide Published, CommitOf, Apply, BlankDescription;
  }

  /** Where a worker that has committed can leave the system, after one or both of its publishes. */
  lemma CommittedWorker(s: Sys, w: nat)
    requires w in s.workers && s.workers[w].msg in s.inbox && s.workers[w].phase.Committed?
    ensures var (e, phase) := (s.inbox[s.workers[w].msg], s.workers[w].phase);
            var one := Published(s.stream, JobSaved(e.source, phase.jobId, phase.created));
            var two := if BlankDescription(e) then Published(one, FetchRequested(e.source, phase.jobId)) else one;
            var left := s.(workers := s.workers - {w});
            && Do(s, Crash(w)) == left
            && Do(Do(s, PublishSaved(w)), Crash(w)) == left.(stream := one)
            && Do(Do(Do(s, PublishSaved(w)), PublishFetch(w)), Crash(w)) == left.(stream := two)
            && Do(Do(Do(s, PublishSaved(w)), PublishFetch(w)), Ack(w))
               == left.(stream := two, acked := s.acked + {s.workers[w].msg})
  {
    hide Published, BlankDescription, Do;
    var c := Do(s, PublishSaved(w));
    var d := Do(c, PublishFetch(w));
    AnnouncingWorker(s, w);
    AskingWorker(c, w);
    LeavingWorker(s, w);
    LeavingWorker(c, w);
    LeavingWorker(d, w);
    assert c.workers - {w} == s.workers - {w} && d.workers - {w} == s.workers - {w};
  }

  /** A worker that got its message back to the stream does nothing more. */
  lemma GoneWorker(s: Sys, w: nat)
    requires w !in s.workers
    ensures Do(s, Crash(w)) == Do(s, PublishSaved(w)) == Do(s, PublishFetch(w)) == Do(s, Ack(w)) == s
  {
    hide Published, CommitOf, Apply, BlankDescription;
    assert s.workers - {w} == s.workers;
  }

  /** Receiving and committing: the tables of the save, and a worker only if it succeeded. */
  lemma CommittingWorker(s: Sys, w: nat, msg: nat)
    requires w !in s.workers && msg in s.inbox && msg !in s.acked
    ensures var (e, t) := (s.inbox[msg], Do(Do(s, Receive(w, msg)), Commit(w)));
            var (after, result) := Save(s.db, WithSource(e));
            && t.workers - {w} == s.workers
            && t == if e.eventType != JOB_DISCOVERED then s
                    else if result.Err? then s.(db := after)
                    else s.(db := after,
                      workers := s.workers[w := Work(msg, Committed(result.value.jobId, result.value.created))])
  {
    hide Save;
    assert s.workers[w := Work(msg, Received)] - {w} == s.workers;
    var e := s.inbox[msg];
    if e.eventType == JOB_DISCOVERED && Save(s.db, WithSource(e)).1.Ok? {
      var result := Save(s.db, WithSource(e)).1.value;
      assert s.workers[w := Work(msg, Received)][w := Work(msg, Committed(result.jobId, result.created))]
          == s.workers[w := Work(msg, Committed(result.jobId, result.created))];
    }
  }

  lemma WorkerStepsDone(s: Sys, w: nat, msg: nat, e: Envelope, saved: Outcome, fetch: Outcome)
    ensures var failed := BlankDescription(e) && !fetch.Accepted?;
            var b := Do(Do(s, Receive(w, msg)), Commit(w));
            var c := Do(b, PublishSaved(w));
            DoAll(s, WorkerSteps(w, msg, e, saved, fetch))
            == if saved.Refused? then Do(b, Crash(w))
               else if saved.Unanswered? || (failed && fetch.Refused?) then Do(c, Crash(w))
               else Do(Do(c, PublishFetch(w)), if failed then Crash(w) else Ack(w))
  {
    var failed := BlankDescription(e) && !fetch.Accepted?;
    var last := if failed then Crash(w) else Ack(w);
    var receive, commit, announce, ask, crash := Receive(w, msg), Commit(w), PublishSaved(w), PublishFetch(w), Crash(w);
    hide Do, DoAll, BlankDescription;
    assert WorkerSteps(w, msg, e, saved, fetch)
        == if saved.Refused? then [receive, commit, crash]
           else if saved.Unanswered? || (failed && fetch.Refused?) then [receive, commit, announce, crash]
           else [receive, commit, announce, ask, last];
    hide WorkerSteps;
    DoFour(s, receive, commit, crash, crash);
    DoFour(s, receive, commit, announce, crash);
    DoFive(s, receive, commit, announce, ask, last);
  }

  /**
   The steps of a worker nobody interrupts do what handling the message in one go does, whatever
   becomes of its publishes, and acknowledge exactly on success.
   */
  lemma UninterruptedWorker(s: Sys, w: nat, msg: nat, saved: Outcome, fetch: Outcome)
    requires w !in s.workers && msg in s.inbox && msg !in s.acked
    ensures var t := DoAll(s, WorkerSteps(w, msg, s.inbox[msg], saved, fetch));
            var (db, stream, jobId) := Processed(s.db, s.stream, s.inbox[msg], saved, fetch);
            && t.db == db && t.stream == stream
            && t.acked == (if jobId.Some? then s.acked + {msg} else s.acked)
            && t.workers == s.workers && t.inbox == s.inbox
  {
    var e := s.inbox[msg];
    hide Do, DoAll, Save, Published, BlankDescription, WorkerSteps;
    var b := Do(Do(s, Receive(w, msg)), Commit(w));
    CommittingWorker(s, w, msg);
    WorkerStepsDone(s, w, msg, e, saved, fetch);
    if w in b.workers {
      CommittedWorker(b, w);
    } else {
      GoneWorker(b, w);
    }
  }

  // ---- What every interleaving keeps ----------------------------------------------------------

  /** Tables only grow: no event and no job is ever forgotten. */
  ghost predicate Grows(before: Db, after: Db) {
    before.events.Keys <= after.events.Keys && before.jobs.Keys <= after.jobs.Keys
  }

  lemma SaveGrows(db: Db, e: Envelope)
    ensures Grows(db, Save(db, e).0)
    ensures Save(db, e).1.Ok? ==> e.eventId in Save(db, e).0.events && Save(db, e).1.value.jobId in Save(db, e).0.jobs
  {
    hide JobFor, RowOf, Clashes;
  }

  lemma WriteGrows(db: Db, op: Op)
    requires !op.Deliver?
    ensures Grows(db, Apply(db, op))
  {
  }

  /** The same kind of message about the same job, from the same source up to padding and case. */
  predicate SameNews(a: Message, b: Message) {
    && (a.JobSaved? <==> b.JobSaved?) && a.jobId == b.jobId && Normalize(a.source) == Normalize(b.source)
    && (a.JobSaved? && b.JobSaved? ==> a.created == b.created)
  }

  /** Two messages have one message id exactly when they say the same. */
  lemma MsgIdIsTheNews(a: Message, b: Message)
    ensures MsgId(a) == MsgId(b) <==> SameNews(a, b)
  {
    hide Normalize;
  }

  /** A publish keeps the stream and has it say the message, adding it only when nothing there says the same. */
  lemma PublishedSpec(stream: seq<Message>, m: Message)
    ensures stream <= Published(stream, m)
    ensures exists i | 0 <= i < |Published(stream, m)| :: SameNews(Published(stream, m)[i], m)
    ensures Published(stream, m) == stream <==> exists i | 0 <= i < |stream| :: SameNews(stream[i], m)
    ensures Published(stream, m) == stream || Published(stream, m) == stream + [m]
  {
    hide Normalize, MsgId, SameNews;
    var after := Published(stream, m);
    MsgIdIsTheNews(m, m);
    forall i | 0 <= i < |stream| ensures MsgId(stream[i]) == MsgId(m) <==> SameNews(stream[i], m) {
      MsgIdIsTheNews(stream[i], m);
    }
    if Holds(stream, MsgId(m)) {
      var i :| 0 <= i < |stream| && MsgId(stream[i]) == MsgId(m);
      assert SameNews(after[i], m);
    } else {
      assert after[|stream|] == m && |after| != |stream|;
    }
  }

  /** The message says that the job was saved for a source that is the envelope's, up to padding and case. */
  predicate Announces(m: Message, e: Envelope, jobId: nat) {
    m.JobSaved? && m.jobId == jobId && Normalize(m.source) == Normalize(e.source)
  }

  predicate Asks(m: Message, e: Envelope, jobId: nat) {
    m.FetchRequested? && m.jobId == jobId && Normalize(m.source) == Normalize(e.source)
  }

  ghost predicate SavedAnnounced(stream: seq<Message>, e: Envelope, jobId: nat) {
    exists i | 0 <= i < |stream| :: Announces(stream[i], e, jobId)
  }

  /** Without a description, the stream asks for one. */
  ghost predicate FetchAsked(stream: seq<Message>, e: Envelope, jobId: nat) {
    AllSpace(Go, e.payload.description) ==> exists i | 0 <= i < |stream| :: Asks(stream[i], e, jobId)
  }

  lemma PublishedAnnounces(stream: seq<Message>, e: Envelope, jobId: nat, created: bool)
    ensures SavedAnnounced(Published(stream, JobSaved(e.source, jobId, created)), e, jobId)
  {
    var m := JobSaved(e.source, jobId, created);
    PublishedSpec(stream, m);
    hide Published, Normalize;
    var i :| 0 <= i < |Published(stream, m)| && SameNews(Published(stream, m)[i], m);
    assert Announces(Published(stream, m)[i], e, jobId);
  }

  lemma PublishedAsks(stream: seq<Message>, e: Envelope, jobId: nat)
    ensures FetchAsked(Published(stream, FetchRequested(e.source, jobId)), e, jobId)
  {
    var m := FetchRequested(e.source, jobId);
    PublishedSpec(stream, m);
    hide Published, Normalize;
    var i :| 0 <= i < |Published(stream, m)| && SameNews(Published(stream, m)[i], m);
    assert Asks(Published(stream, m)[i], e, jobId);
  }

  lemma BlankIsAllSpace(e: Envelope)
    ensures BlankDescription(e) <==> AllSpace(Go, e.payload.description)
  {
    TrimIdentity(Go, e.payload.description);
  }

  /** Event logged, job stored, and the messages due at this phase in the stream. */
  ghost predicate PhaseHolds(s: Sys, e: Envelope, phase: Phase) {
    phase.Received?
    || (&& e.eventId in s.db.events
        && phase.jobId in s.db.jobs
        && (phase.Announced? || phase.Handled? ==> SavedAnnounced(s.stream, e, phase.jobId))
        && (phase.Handled? ==> FetchAsked(s.stream, e, phase.jobId)))
  }

  ghost predicate MessagesNameJobs(s: Sys) {
    forall i | 0 <= i < |s.stream| :: s.stream[i].jobId in s.db.jobs
  }

  ghost predicate WorkersHold(s: Sys) {
    forall w | w in s.workers ::
      s.workers[w].msg in s.inbox && PhaseHolds(s, s.inbox[s.workers[w].msg], s.workers[w].phase)
  }

  ghost predicate Extends(s: Sys, t: Sys) {
    && Grows(s.db, t.db)
    && s.stream <= t.stream
    && s.inbox.Keys <= t.inbox.Keys && (forall n | n in s.inbox :: t.inbox[n] == s.inbox[n])
  }

  lemma DoExtends(s: Sys, step: Step)
    ensures Extends(s, Do(s, step))
  {
    hide Save, Apply;
    match step
    case Commit(w) =>
      if w in s.workers && s.workers[w].msg in s.inbox { SaveGrows(s.db, WithSource(s.inbox[s.workers[w].msg])); }
    case PublishSaved(w) =>
      if w in s.workers && s.workers[w].msg in s.inbox && s.workers[w].phase.Committed? {
        var phase := s.workers[w].phase;
        PublishedSpec(s.stream, JobSaved(s.inbox[s.workers[w].msg].source, phase.jobId, phase.created));
      }
    case PublishFetch(w) =>
      if w in s.workers && s.workers[w].msg in s.inbox && s.workers[w].phase.Announced? {
        PublishedSpec(s.stream, FetchRequested(s.inbox[s.workers[w].msg].source, s.workers[w].phase.jobId));
      }
    case Write(op) => if !op.Deliver? { WriteGrows(s.db, op); }
    case _ =>
  }

  lemma PhaseExtends(s: Sys, t: Sys, e: Envelope, phase: Phase)
    requires Extends(s, t) && PhaseHolds(s, e, phase)
    ensures PhaseHolds(t, e, phase)
  {
    hide Announces, Asks;
    assert forall i | 0 <= i < |s.stream| :: t.stream[i] == s.stream[i];
  }

  /** The step takes worker `w` to its next phase. */
  predicate Moves(step: Step, w: nat) {
    (step.Commit? || step.PublishSaved? || step.PublishFetch?) && step.worker == w
  }

  /** The worker a step moves forward reaches its next phase with everything due in place. */
  lemma MoverHolds(s: Sys, step: Step, w: nat)
    requires WorkersHold(s) && MessagesNameJobs(s)
    requires Moves(step, w)
    ensures var t := Do(s, step);
            w in t.workers ==>
              t.workers[w].msg in t.inbox && PhaseHolds(t, t.inbox[t.workers[w].msg], t.workers[w].phase)
  {
    hide Save;
    if w in s.workers && s.workers[w].msg in s.inbox {
      var e, phase := s.inbox[s.workers[w].msg], s.workers[w].phase;
      DoExtends(s, step);
      PhaseExtends(s, Do(s, step), e, phase);
      SaveGrows(s.db, WithSource(e));
      BlankIsAllSpace(e);
      if phase.Committed? { PublishedAnnounces(s.stream, e, phase.jobId, phase.created); }
      if phase.Announced? { PublishedAsks(s.stream, e, phase.jobId); }
      hide Published, BlankDescription, SavedAnnounced, AllSpace, Asks;
    }
  }

  /** A step leaves every worker alone but the one it starts or moves forward. */
  lemma DoFrames(s: Sys, step: Step)
    ensures forall w | w in Do(s, step).workers :: Moves(step, w)
              || (w in s.workers && Do(s, step).workers[w] == s.workers[w])
              || (Do(s, step).workers[w].phase.Received? && Do(s, step).workers[w].msg in s.inbox)
    ensures forall w | w in Do(s, step).workers && Moves(step, w) :: w in s.workers
  {
    hide Save, Apply;
  }

  lemma DoKeepsWorkers(s: Sys, step: Step)
    requires WorkersHold(s) && MessagesNameJobs(s)
    ensures WorkersHold(Do(s, step))
  {
    hide Do;
    var t := Do(s, step);
    DoExtends(s, step);
    DoFrames(s, step);
    forall w | w in t.workers
      ensures t.workers[w].msg in t.inbox && PhaseHolds(t, t.inbox[t.workers[w].msg], t.workers[w].phase)
    {
      if Moves(step, w) {
        MoverHolds(s, step, w);
      } else if w in s.workers && t.workers[w] == s.workers[w] {
        PhaseExtends(s, t, s.inbox[s.workers[w].msg], s.workers[w].phase);
      }
    }
  }

  lemma DoKeepsMessages(s: Sys, step: Step)
    requires WorkersHold(s) && MessagesNameJobs(s)
    ensures MessagesNameJobs(Do(s, step))
  {
    hide Save, Apply;
    DoExtends(s, step);
  }

  lemma {:induction false} AlwaysHolds(steps: seq<Step>)
    ensures WorkersHold(After(steps)) && MessagesNameJobs(After(steps))
  {
    if steps == [] {
    } else {
      hide Do;
      var n := |steps| - 1;
      AlwaysHolds(steps[..n]);
      DoKeepsWorkers(After(steps[..n]), steps[n]);
      DoKeepsMessages(After(steps[..n]), steps[n]);
    }
  }

  /** No published message ever names a missing job, whatever crashed, was redelivered or overwritten. */
  lemma NoMessageNamesAMissingJob(steps: seq<Step>)
    ensures forall i | 0 <= i < |After(steps).stream| :: After(steps).stream[i].jobId in After(steps).db.jobs
  {
    AlwaysHolds(steps);
  }

  /** Step `k` is the commit that resolved message `msg` to job `jobId`. */
  ghost predicate ResolvedAt(steps: seq<Step>, k: nat, msg: nat, jobId: nat) {
    k < |steps| && steps[k].Commit?
    && var s := After(steps[..k]);
       && steps[k].worker in s.workers && s.workers[steps[k].worker] == Work(msg, Received)
       && msg in s.inbox && s.inbox[msg].eventType == JOB_DISCOVERED
       && var result := Save(s.db, WithSource(s.inbox[msg])).1; result.Ok? && result.value.jobId == jobId
  }

  ghost predicate Resolved(steps: seq<Step>, msg: nat, jobId: nat) {
    exists k: nat :: ResolvedAt(steps, k, msg, jobId)
  }

  lemma ResolvedStays(steps: seq<Step>, step: Step, msg: nat, jobId: nat)
    requires Resolved(steps, msg, jobId)
    ensures Resolved(steps + [step], msg, jobId)
  {
    hide After, Save;
    var k: nat :| ResolvedAt(steps, k, msg, jobId);
    assert (steps + [step])[..k] == steps[..k];
    assert ResolvedAt(steps + [step], k, msg, jobId);
  }

  /** What an acknowledged discovery leaves behind. */
  ghost predicate Delivered(steps: seq<Step>, msg: nat, jobId: nat) {
    var s := After(steps);
    && msg in s.inbox
    && Resolved(steps, msg, jobId)
    && s.inbox[msg].eventId in s.db.events
    && jobId in s.db.jobs
    && SavedAnnounced(s.stream, s.inbox[msg], jobId)
    && FetchAsked(s.stream, s.inbox[msg], jobId)
  }

  ghost predicate WorkersResolved(steps: seq<Step>) {
    var s := After(steps);
    forall w | w in s.workers && !s.workers[w].phase.Received? ::
      Resolved(steps, s.workers[w].msg, s.workers[w].phase.jobId)
  }

  /** The worker a step moves has its message resolved afterwards, by this step or by an earlier one. */
  lemma MoverResolved(steps: seq<Step>, step: Step, w: nat)
    requires WorkersResolved(steps) && Moves(step, w)
    ensures var t := Do(After(steps), step);
            w in t.workers && !t.workers[w].phase.Received? ==>
              Resolved(steps + [step], t.workers[w].msg, t.workers[w].phase.jobId)
  {
    hide After, Save;
    var s, t := After(steps), Do(After(steps), step);
    if w in t.workers && !t.workers[w].phase.Received? {
      if w in s.workers && !s.workers[w].phase.Received? {
        ResolvedStays(steps, step, t.workers[w].msg, t.workers[w].phase.jobId);
      } else {
        assert (steps + [step])[..|steps|] == steps;
        assert ResolvedAt(steps + [step], |steps|, t.workers[w].msg, t.workers[w].phase.jobId);
      }
    }
  }

  lemma {:induction false} WorkersStayResolved(steps: seq<Step>)
    ensures WorkersResolved(steps)
  {
    if steps == [] {
    } else {
      var n := |steps| - 1;
      var before, step := steps[..n], steps[n];
      WorkersStayResolved(before);
      assert steps == before + [step];
      var s, t := After(before), After(steps);
      hide Do;
      DoFrames(s, step);
      forall w | w in t.workers && !t.workers[w].phase.Received?
        ensures Resolved(steps, t.workers[w].msg, t.workers[w].phase.jobId)
      {
        if Moves(step, w) {
          MoverResolved(before, step, w);
        } else {
          ResolvedStays(before, step, s.workers[w].msg, s.workers[w].phase.jobId);
        }
      }
    }
  }

  lemma AfterOneMore(steps: seq<Step>, step: Step)
    ensures After(steps + [step]) == Do(After(steps), step)
  {
    assert (steps + [step])[..|steps|] == steps;
  }

  lemma DeliveredStays(before: seq<Step>, step: Step, msg: nat, jobId: nat)
    requires Delivered(before, msg, jobId)
    ensures Delivered(before + [step], msg, jobId)
  {
    AfterOneMore(before, step);
    hide After, Do, MsgId, Resolved;
    DoExtends(After(before), step);
    ResolvedStays(before, step, msg, jobId);
  }

  /** The acknowledgement that a step adds is that of a handled message. */
  lemma AckedNow(s: Sys, step: Step, msg: nat)
    requires msg in Do(s, step).acked && msg !in s.acked
    ensures step.Ack? && step.worker in s.workers && s.workers[step.worker].phase.Handled?
        && s.workers[step.worker].msg == msg
  {
    hide Published, Save, Apply, BlankDescription;
  }

  lemma AckDelivers(before: seq<Step>, step: Step, msg: nat)
    requires msg in Do(After(before), step).acked && msg !in After(before).acked
    ensures exists jobId :: Delivered(before, msg, jobId)
  {
    AlwaysHolds(before);
    WorkersStayResolved(before);
    AckedNow(After(before), step, msg);
    hide After, Do, Resolved, MsgId;
    assert Delivered(before, msg, After(before).workers[step.worker].phase.jobId);
  }

  /**
   Every acknowledged discovery was resolved to a job by some commit; its event is in the log, that
   job exists, and the stream holds a jobs.saved for it and, when the description was blank, a
   description fetch request for the same job.
   */
  lemma {:induction false} AckedIsDelivered(steps: seq<Step>, msg: nat)
    requires msg in After(steps).acked
    ensures exists jobId :: Delivered(steps, msg, jobId)
  {
    var n := |steps| - 1;
    var before, step := steps[..n], steps[n];
    assert steps == before + [step];
    AfterOneMore(before, step);
    hide After, Do, Delivered;
    if msg in After(before).acked {
      AckedIsDelivered(before, msg);
    } else {
      AckDelivers(before, step, msg);
    }
    var jobId :| Delivered(before, msg, jobId);
    DeliveredStays(before, step, msg, jobId);
  }
}
