/** When a discovery that is logged but not acknowledged can still be acknowledged. */
module Redelivery {
  import opened Sets
  import opened Events
  import opened JobTables
  import opened Dispatcher

  // ---- Longer histories -----------------------------------------------------------------------

  lemma {:induction false} AfterAll(steps: seq<Step>, later: seq<Step>)
    ensures After(steps + later) == DoAll(After(steps), later)
    decreases |later|
  {
    if later == [] {
      assert steps + later == steps;
    } else {
      AfterOneMore(steps, later[0]);
      assert steps + later == steps + [later[0]] + later[1..];
      AfterAll(steps + [later[0]], later[1..]);
    }
  }

  lemma {:induction false} EventsGrow(steps: seq<Step>, later: seq<Step>)
    ensures After(steps).db.events.Keys <= After(steps + later).db.events.Keys
  {
    var n := |later| - 1;
    if later == [] {
      assert steps + later == steps;
    } else {
      assert steps + later == steps + later[..n] + [later[n]];
      EventsGrow(steps, later[..n]);
      AfterOneMore(steps + later[..n], later[n]);
      hide After, Do;
      DoExtends(After(steps + later[..n]), later[n]);
    }
  }

  lemma DoKeepsTables(s: Sys, step: Step)
    requires IndexAgrees(s.db) && IdsIssued(s.db)
    ensures IndexAgrees(Do(s, step).db) && IdsIssued(Do(s, step).db)
  {
    hide Save, IndexAgrees, IdsIssued;
    match step
    case Commit(w) =>
      if w in s.workers && s.workers[w].msg in s.inbox {
        ApplyKeepsIndex(s.db, Deliver(WithSource(s.inbox[s.workers[w].msg])));
      }
    case Write(op) => ApplyKeepsIndex(s.db, op);
    case _ =>
  }

  /** The search index agrees with the tables while the dispatcher runs, too. */
  lemma {:induction false} TablesAlwaysAgree(steps: seq<Step>)
    ensures IndexAgrees(After(steps).db) && IdsIssued(After(steps).db)
  {
    if steps == [] {
    } else {
      var n := |steps| - 1;
      hide Do, IndexAgrees, IdsIssued;
      TablesAlwaysAgree(steps[..n]);
      DoKeepsTables(After(steps[..n]), steps[n]);
    }
  }

  // ---- A message that can be acknowledged -----------------------------------------------------

  /** A worker has committed the message and not yet acknowledged it. */
  ghost predicate UnderWay(s: Sys, msg: nat) {
    exists w | w in s.workers :: s.workers[w].msg == msg && !s.workers[w].phase.Received?
  }

  /** The message is of a logged discovery, and still to be acknowledged. */
  ghost predicate Pending(s: Sys, msg: nat) {
    && msg in s.inbox && msg !in s.acked && s.inbox[msg].eventType == JOB_DISCOVERED
    && s.inbox[msg].eventId in s.db.events
  }

  ghost predicate KeyHeld(s: Sys, msg: nat)
    requires msg in s.inbox
  {
    Held(s.db.jobs, ByIdempotencyKey(s.inbox[msg].idempotencyKey))
  }

  /** The message is acknowledged in some continuation that logs no new event. */
  ghost predicate Acknowledgeable(steps: seq<Step>, msg: nat) {
    exists later: seq<Step> :: AckedQuietly(steps, later, msg)
  }

  ghost predicate AckedQuietly(steps: seq<Step>, later: seq<Step>, msg: nat) {
    After(steps + later).db.events.Keys == After(steps).db.events.Keys && msg in After(steps + later).acked
  }

  lemma HeldProcesses(db: Db, stream: seq<Message>, e: Envelope)
    requires IdsIssued(db) && e.eventId in db.events && e.eventType == JOB_DISCOVERED
    requires Held(db.jobs, ByIdempotencyKey(e.idempotencyKey))
    ensures var (after, _, jobId) := Processed(db, stream, e, Accepted, Accepted); after == db && jobId.Some?
  {
    hide Save, Held, IdsIssued, Sent, BlankDescription;
    RedeliveryResolves(db, WithSource(e));
  }

  lemma HeldAcks(steps: seq<Step>, msg: nat)
    requires Pending(After(steps), msg) && KeyHeld(After(steps), msg)
    ensures Acknowledgeable(steps, msg)
  {
    var s := After(steps);
    var w := Above(s.workers.Keys);
    assert w !in s.workers.Keys;
    var later := WorkerSteps(w, msg, s.inbox[msg], Accepted, Accepted);
    TablesAlwaysAgree(steps);
    hide After, WorkerSteps, DoAll, Processed, Held, IdsIssued, IndexAgrees;
    HeldProcesses(s.db, s.stream, s.inbox[msg]);
    UninterruptedWorker(s, w, msg, Accepted, Accepted);
    AfterAll(steps, later);
    assert AckedQuietly(steps, later, msg);
  }

  /** A worker's remaining steps; those it has behind it are not possible, and change nothing. */
  lemma FinishingWorker(s: Sys, w: nat)
    requires w in s.workers && s.workers[w].msg in s.inbox && !s.workers[w].phase.Received?
    ensures var t := Do(Do(Do(s, PublishSaved(w)), PublishFetch(w)), Ack(w));
            t.db == s.db && s.workers[w].msg in t.acked
  {
    hide Published, BlankDescription;
  }

  lemma UnderWayAcks(steps: seq<Step>, msg: nat)
    requires UnderWay(After(steps), msg)
    ensures Acknowledgeable(steps, msg)
  {
    var s := After(steps);
    var w :| w in s.workers && s.workers[w].msg == msg && !s.workers[w].phase.Received?;
    var later := [PublishSaved(w), PublishFetch(w), Ack(w)];
    AlwaysHolds(steps);
    hide After, Do;
    FinishingWorker(s, w);
    DoFour(s, PublishSaved(w), PublishFetch(w), Ack(w), Ack(w));
    AfterAll(steps, later);
    assert AckedQuietly(steps, later, msg);
  }

  // ---- A message that cannot ------------------------------------------------------------------

  /** No row has the key of the pending message, and no worker has got past its commit. */
  ghost predicate Stranded(s: Sys, msg: nat) {
    Pending(s, msg) && !KeyHeld(s, msg) && !UnderWay(s, msg)
  }

  lemma WriteKeepsStranded(s: Sys, op: Op, msg: nat)
    requires Stranded(s, msg) && !op.Deliver?
    ensures Stranded(s.(db := Apply(s.db, op)), msg)
  {
    hide Apply;
    WriteKeepsKeys(s.db, op);
  }

  /** A commit that logs no event changes no table. */
  lemma QuietSave(db: Db, e: Envelope)
    requires Save(db, e).0.events.Keys == db.events.Keys
    ensures Save(db, e).0 == db
  {
    hide JobFor, Clashes, RowOf;
  }

  lemma CommitKeepsStranded(s: Sys, w: nat, msg: nat)
    requires IdsIssued(s.db) && Stranded(s, msg) && Do(s, Commit(w)).db.events.Keys == s.db.events.Keys
    ensures Stranded(Do(s, Commit(w)), msg)
  {
    hide Save, Held;
    if w in s.workers && s.workers[w].msg in s.inbox {
      var e := WithSource(s.inbox[s.workers[w].msg]);
      RedeliveryResolves(s.db, e);
      if Save(s.db, e).0.events.Keys == s.db.events.Keys { QuietSave(s.db, e); }
    }
  }

  /** Only a commit takes a worker past it. */
  lemma OnlyCommitsCommit(s: Sys, step: Step)
    requires !step.Commit? && !step.Write?
    ensures var t := Do(s, step);
            && t.db == s.db
            && forall w | w in t.workers && !t.workers[w].phase.Received? ::
                 w in s.workers && !s.workers[w].phase.Received? && t.workers[w].msg == s.workers[w].msg
  {
    hide Apply, CommitOf, Published, BlankDescription;
  }

  lemma OtherKeepsStranded(s: Sys, step: Step, msg: nat)
    requires Stranded(s, msg) && !step.Commit? && !step.Write?
    ensures Stranded(Do(s, step), msg)
  {
    hide Do, Held;
    OnlyCommitsCommit(s, step);
    DoExtends(s, step);
    if msg in Do(s, step).acked { AckedNow(s, step, msg); }
  }

  lemma StrandedStep(s: Sys, step: Step, msg: nat)
    requires IdsIssued(s.db) && Stranded(s, msg) && Do(s, step).db.events.Keys == s.db.events.Keys
    ensures Stranded(Do(s, step), msg)
  {
    hide Stranded, IdsIssued;
    if step.Commit? {
      CommitKeepsStranded(s, step.worker, msg);
    } else if step.Write? {
      if !step.op.Deliver? { WriteKeepsStranded(s, step.op, msg); }
    } else {
      OtherKeepsStranded(s, step, msg);
    }
  }

  lemma {:induction false} StaysStranded(steps: seq<Step>, later: seq<Step>, msg: nat)
    requires Stranded(After(steps), msg) && After(steps + later).db.events.Keys == After(steps).db.events.Keys
    ensures Stranded(After(steps + later), msg)
  {
    hide After, Do, Stranded, IndexAgrees, IdsIssued;
    if later == [] {
      assert steps + later == steps;
    } else {
      var rest, step := later[..|later| - 1], later[|later| - 1];
      assert steps + later == steps + rest + [step];
      AfterOneMore(steps + rest, step);
      EventsGrow(steps, rest);
      DoExtends(After(steps + rest), step);
      StaysStranded(steps, rest, msg);
      TablesAlwaysAgree(steps + rest);
      StrandedStep(After(steps + rest), step, msg);
    }
  }

  /**
   A logged discovery can be acknowledged without a new event exactly while some row has its key, or
   some worker has committed it. Otherwise no redelivery succeeds until another event is logged.
   */
  lemma AcknowledgeableIff(steps: seq<Step>, msg: nat)
    requires Pending(After(steps), msg)
    ensures Acknowledgeable(steps, msg) <==> KeyHeld(After(steps), msg) || UnderWay(After(steps), msg)
  {
    hide After, KeyHeld, UnderWay;
    if KeyHeld(After(steps), msg) {
      HeldAcks(steps, msg);
    } else if UnderWay(After(steps), msg) {
      UnderWayAcks(steps, msg);
    } else if Acknowledgeable(steps, msg) {
      var later: seq<Step> :| AckedQuietly(steps, later, msg);
      StaysStranded(steps, later, msg);
    }
  }

  /** A worker that commits, and whose first publish fails. */
  lemma CommitsOnly(s: Sys, msg: nat)
    requires s.workers == map[] && s.acked == {} && msg in s.inbox && s.inbox[msg].eventType == JOB_DISCOVERED
    ensures var t := DoAll(s, WorkerSteps(1, msg, s.inbox[msg], Refused, Refused));
            t.db == Save(s.db, WithSource(s.inbox[msg])).0 && t.workers == map[] && t.acked == {} && t.inbox == s.inbox
  {
    hide DoAll, WorkerSteps, Save;
    UninterruptedWorker(s, 1, msg, Refused, Refused);
  }

  function TwoFound(e: Envelope, other: Envelope): Sys {
    Sys(EMPTY, [], map[1 := e, 2 := other], {}, map[])
  }

  lemma AfterTwoFound(e: Envelope, other: Envelope)
    ensures After([Discover(1, e), Discover(2, other)]) == TwoFound(e, other)
  {
    AfterAll([], [Discover(1, e), Discover(2, other)]);
    assert [] + [Discover(1, e), Discover(2, other)] == [Discover(1, e), Discover(2, other)];
    assert [Discover(1, e), Discover(2, other)][1..] == [Discover(2, other)];
    assert DoAll(Do(Do(INIT, Discover(1, e)), Discover(2, other)), []) == TwoFound(e, other);
  }

  /** Both discoveries committed, and neither acknowledged. */
  lemma CommittedBoth(e: Envelope, other: Envelope) returns (steps: seq<Step>)
    requires e.eventType == other.eventType == JOB_DISCOVERED
    ensures After(steps).db == Save(Save(EMPTY, WithSource(e)).0, WithSource(other)).0
    ensures After(steps).workers == map[] && After(steps).acked == {} && After(steps).inbox == map[1 := e, 2 := other]
  {
    var found := [Discover(1, e), Discover(2, other)];
    var first, second := WorkerSteps(1, 1, e, Refused, Refused), WorkerSteps(1, 2, other, Refused, Refused);
    AfterTwoFound(e, other);
    hide After, WorkerSteps, Save, DoAll;
    AfterAll(found, first);
    CommitsOnly(After(found), 1);
    AfterAll(found + first, second);
    CommitsOnly(After(found + first), 2);
    steps := found + first + second;
  }

  /** Two discoveries are enough: the second takes the first one's key before its redelivery. */
  lemma MayBeStranded(e: Envelope, other: Envelope)
    requires e.eventType == other.eventType == JOB_DISCOVERED && FindsJobOf(WithSource(e), WithSource(other))
    requires e.idempotencyKey != other.idempotencyKey && e.eventId != other.eventId
    ensures exists steps :: 1 in After(steps).inbox && After(steps).inbox[1] == e && Stranded(After(steps), 1)
  {
    var steps := CommittedBoth(e, other);
    hide After, Save, OnlyJob, FindsJobOf, Stranded;
    StoredOver(WithSource(e), WithSource(other));
    OnlyJobStrands(After(steps), 1, WithSource(other));
  }

  lemma OnlyJobStrands(s: Sys, msg: nat, last: Envelope)
    requires Pending(s, msg) && OnlyJob(s.db, last) && last.idempotencyKey != s.inbox[msg].idempotencyKey
    requires s.workers == map[]
    ensures Stranded(s, msg)
  {
  }
}
