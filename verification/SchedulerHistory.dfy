/**
 What any history of configurations and ticks guarantees about the recorded runs. A tick may be cut
 off after any number of sources; nothing is assumed about the clock.
 */
module SchedulerHistory {
  import opened Wrappers
  import opened Text
  import opened SchedulerTables
  import Scheduler

  datatype Event =
    | Configure(name: string, settings: Settings, enabled: bool, interval: nat)
    | Tick(now: int, rows: seq<Source>, outcomes: seq<Outcome>)

  /** The due sources a tick reaches before it is cut off. */
  function Reached(rows: seq<Source>, now: int, outcomes: seq<Outcome>): (reached: seq<Source>)
    ensures |reached| <= |outcomes|
  {
    var due := Due(rows, now);
    if |outcomes| < |due| then due[..|outcomes|] else due
  }

  const NOTHING := RunResult(0, 0, 0, 0, 0, 0)

  function Apply(db: Db, e: Event): Db {
    match e
    case Configure(name, settings, enabled, interval) => Upsert(db, name, settings, enabled, StoredSeconds(interval))
    case Tick(now, rows, outcomes) =>
      if EnabledRows(db, rows) then RunAll(db, Reached(rows, now, outcomes), now, outcomes, NOTHING).0 else db
  }

  function After(events: seq<Event>): Db {
    if events == [] then EMPTY else Apply(After(events[..|events| - 1]), events[|events| - 1])
  }

  // ---- The due sources ------------------------------------------------------------------------

  ghost predicate DistinctIds(sources: seq<Source>) {
    forall i, j | 0 <= i < j < |sources| :: sources[i].id != sources[j].id
  }

  /** Exactly the sources that are due are selected, and none twice. */
  lemma {:induction false} DueSpec(sources: seq<Source>, now: int)
    ensures forall s :: s in Due(sources, now) <==> s in sources && IsDue(s, now)
    ensures DistinctIds(sources) ==> DistinctIds(Due(sources, now))
  {
    if sources == [] {
    } else {
      var n := |sources| - 1;
      DueSpec(sources[..n], now);
      assert sources == sources[..n] + [sources[n]];
      if DistinctIds(sources) {
        assert forall i | 0 <= i < |Due(sources[..n], now)| :: Due(sources[..n], now)[i] in sources[..n];
      }
    }
  }

  /** The selection keeps the order of the rows: it can be computed piece by piece. */
  lemma {:induction false} DueKeepsOrder(a: seq<Source>, b: seq<Source>, now: int)
    ensures Due(a + b, now) == Due(a, now) + Due(b, now)
  {
    if b == [] {
      assert a + b == a;
    } else {
      var n := |b| - 1;
      assert (a + b)[..|a| + n] == a + b[..n];
      DueKeepsOrder(a, b[..n], now);
    }
  }

  // ---- What one source run keeps --------------------------------------------------------------

  ghost predicate Issued(db: Db) {
    && (forall id | id in db.sources :: db.sources[id].id == id && id < db.nextSource)
    && (forall r | r in db.runs :: r < db.nextRun && db.runs[r].sourceId in db.sources
                                   && db.runs[r].sourceName == db.sources[db.runs[r].sourceId].name)
  }

  /** `last_run_at` is the greatest recorded start of the source. */
  ghost predicate LastRunIsLatest(db: Db) {
    && (forall r | r in db.runs && db.runs[r].sourceId in db.sources ::
          db.sources[db.runs[r].sourceId].lastRun.Some?
            && db.runs[r].startedAt <= db.sources[db.runs[r].sourceId].lastRun.value)
    && (forall id | id in db.sources && db.sources[id].lastRun.Some? ::
          exists r | r in db.runs :: db.runs[r].sourceId == id && db.runs[r].startedAt == db.sources[id].lastRun.value)
  }

  /** Any two runs of a source of that name start at least `gap` apart, in the order they were recorded. */
  ghost predicate Spaced(runs: map<nat, SourceRun>, name: string, gap: int) {
    forall q, r | q in runs && r in runs && q < r && runs[q].sourceId == runs[r].sourceId
      && runs[r].sourceName == name ::
      runs[q].startedAt + gap <= runs[r].startedAt
  }

  /** The stored interval of a source of that name never repeats a run sooner than `gap`. */
  predicate AllowsOnly(source: Source, name: string, gap: int) {
    source.name == name ==> source.intervalSeconds <= 0 || gap <= source.intervalSeconds * SECOND
  }

  ghost predicate AllAllowOnly(db: Db, name: string, gap: int) {
    forall id | id in db.sources :: AllowsOnly(db.sources[id], name, gap)
  }

  ghost predicate Inv(db: Db, name: string, gap: int) {
    Issued(db) && LastRunIsLatest(db) && Spaced(db.runs, name, gap) && AllAllowOnly(db, name, gap)
  }

  /** The source's row is still the one the tick read. */
  predicate Fresh(db: Db, source: Source) {
    source.id in db.sources && db.sources[source.id] == source
  }

  lemma BeginKeepsLatest(db: Db, source: Source, now: int)
    requires Issued(db) && LastRunIsLatest(db) && Fresh(db, source) && IsDue(source, now)
    ensures LastRunIsLatest(Begin(db, source, now).0)
  {
    var (after, id) := Begin(db, source, now);
    forall i | i in after.sources && after.sources[i].lastRun.Some?
      ensures exists r | r in after.runs ::
          after.runs[r].sourceId == i && after.runs[r].startedAt == after.sources[i].lastRun.value
    {
      if i == source.id {
        assert after.runs[id].sourceId == i && after.runs[id].startedAt == now;
      } else {
        var r :| r in db.runs && db.runs[r].sourceId == i && db.runs[r].startedAt == db.sources[i].lastRun.value;
        assert after.runs[r] == db.runs[r];
      }
    }
  }

  lemma BeginKeepsSpaced(db: Db, source: Source, now: int, name: string, gap: int)
    requires Inv(db, name, gap) && Fresh(db, source) && IsDue(source, now)
    ensures Spaced(Begin(db, source, now).0.runs, name, gap)
  {
    forall q | q in db.runs && db.runs[q].sourceId == source.id && source.name == name
      ensures db.runs[q].startedAt + gap <= now
    {
      assert db.runs[q].startedAt <= source.lastRun.value;
    }
    hide LastRunIsLatest;
  }

  lemma BeginKeeps(db: Db, source: Source, now: int, name: string, gap: int)
    requires Inv(db, name, gap) && Fresh(db, source) && IsDue(source, now)
    ensures Inv(Begin(db, source, now).0, name, gap)
  {
    hide LastRunIsLatest, Spaced, IsDue;
    BeginKeepsLatest(db, source, now);
    BeginKeepsSpaced(db, source, now, name, gap);
  }

  predicate SameButSuccess(a: Source, b: Source) {
    a.id == b.id && a.name == b.name && a.intervalSeconds == b.intervalSeconds && a.lastRun == b.lastRun
  }

  /** Same rows, same identities, same starts: all that the invariant looks at. */
  ghost predicate SameStarts(a: Db, b: Db) {
    && a.sources.Keys == b.sources.Keys && a.runs.Keys == b.runs.Keys && a.nextSource == b.nextSource
    && a.nextRun == b.nextRun
    && (forall id | id in a.sources :: SameButSuccess(a.sources[id], b.sources[id]))
    && (forall r | r in a.runs ::
      b.runs[r].sourceId == a.runs[r].sourceId && b.runs[r].sourceName == a.runs[r].sourceName
                                  && b.runs[r].startedAt == a.runs[r].startedAt)
  }

  lemma LatestOfSameStarts(a: Db, b: Db)
    requires SameStarts(a, b) && LastRunIsLatest(a)
    ensures LastRunIsLatest(b)
  {
    forall id | id in b.sources && b.sources[id].lastRun.Some?
      ensures exists r | r in b.runs :: b.runs[r].sourceId == id && b.runs[r].startedAt == b.sources[id].lastRun.value
    {
      var r :| r in a.runs && a.runs[r].sourceId == id && a.runs[r].startedAt == a.sources[id].lastRun.value;
      assert r in b.runs;
    }
  }

  lemma InvOfSameStarts(a: Db, b: Db, name: string, gap: int)
    requires SameStarts(a, b) && Inv(a, name, gap)
    ensures Inv(b, name, gap)
  {
    LatestOfSameStarts(a, b);
    hide LastRunIsLatest;
  }

  lemma CompleteKeeps(
    db: Db, id: nat, status: string, seen: int, published: int, error: string, finishedAt: int, name: string, gap: int)
    requires Inv(db, name, gap)
    ensures Inv(Complete(db, id, status, seen, published, error, finishedAt).0, name, gap)
  {
    hide Inv;
    InvOfSameStarts(db, Complete(db, id, status, seen, published, error, finishedAt).0, name, gap);
  }

  lemma RunSourceKeeps(db: Db, source: Source, now: int, outcome: Outcome, name: string, gap: int)
    requires Inv(db, name, gap) && Fresh(db, source) && IsDue(source, now)
    ensures Inv(RunSource(db, source, now, outcome).0, name, gap)
  {
    hide Begin, Complete, IsDue, Inv;
    BeginKeeps(db, source, now, name, gap);
    var (begun, id) := Begin(db, source, now);
    match outcome
    case ProducerFailed(seen, published, error, finishedAt, _) =>
      CompleteKeeps(begun, id, "failed", seen, published, error, finishedAt, name, gap);
    case Produced(seen, published, finishedAt, _) =>
      CompleteKeeps(begun, id, "succeeded", seen, published, "", finishedAt, name, gap);
    case NotBegun =>
  }

  /** Running one source writes that source's row only, and of it only the run times. */
  lemma RunSourceFrames(db: Db, source: Source, now: int, outcome: Outcome)
    requires Issued(db) && source.id in db.sources
    ensures var after := RunSource(db, source, now, outcome).0;
            && after.sources.Keys == db.sources.Keys
            && (forall id | id in db.sources && id != source.id :: after.sources[id] == db.sources[id])
            && after.sources[source.id].lastRun
              == (if outcome.NotBegun? then db.sources[source.id].lastRun else Some(now))
  {
  }

  // ---- One tick -------------------------------------------------------------------------------

  ghost predicate AllFreshAndDue(db: Db, due: seq<Source>, now: int) {
    DistinctIds(due) && forall s | s in due :: Fresh(db, s) && IsDue(s, now)
  }

  function Ids(sources: seq<Source>): set<nat> {
    set s | s in sources :: s.id
  }

  /** Every source of the list that could be begun has its last run set to `now`, and no other row changed. */
  ghost predicate Ran(before: map<nat, Source>, after: map<nat, Source>, due: seq<Source>, now: int,
    outcomes: seq<Outcome>)
    requires |due| <= |outcomes|
  {
    && after.Keys == before.Keys
    && (forall id | id in before && id !in Ids(due) :: after[id] == before[id])
    && (forall i | 0 <= i < |due| ::
          due[i].id in after && after[due[i].id].lastRun == if outcomes[i].NotBegun? then due[i].lastRun else Some(now))
  }

  lemma IdsOneMore(earlier: seq<Source>, source: Source)
    ensures Ids(earlier + [source]) == Ids(earlier) + {source.id}
    ensures forall i | 0 <= i < |earlier| :: earlier[i].id in Ids(earlier)
  {
    var due := earlier + [source];
    assert source in due;
    assert forall s :: s in due <==> s in earlier || s == source;
  }

  lemma RanOneMore(
    a: map<nat, Source>, b: map<nat, Source>, c: map<nat, Source>,
    earlier: seq<Source>, source: Source, now: int, outcomes: seq<Outcome>)
    requires |earlier| < |outcomes| && Ran(a, b, earlier, now, outcomes) && source.id !in Ids(earlier)
    requires source.id in b && c.Keys == b.Keys && forall id | id in b && id != source.id :: c[id] == b[id]
    requires c[source.id].lastRun == if outcomes[|earlier|].NotBegun? then source.lastRun else Some(now)
    ensures Ran(a, c, earlier + [source], now, outcomes)
  {
    hide Ids;
    var due := earlier + [source];
    IdsOneMore(earlier, source);
    assert forall i | 0 <= i < |earlier| :: due[i] == earlier[i] && earlier[i].id in b && earlier[i].id != source.id;
  }

  lemma {:induction false} RunAllKeeps(db: Db, due: seq<Source>, now: int, outcomes: seq<Outcome>, name: string,
    gap: int)
    requires |due| <= |outcomes| && Inv(db, name, gap) && AllFreshAndDue(db, due, now)
    ensures Inv(RunAll(db, due, now, outcomes, NOTHING).0, name, gap)
    ensures Ran(db.sources, RunAll(db, due, now, outcomes, NOTHING).0.sources, due, now, outcomes)
  {
    if due == [] {
    } else {
      var n := |due| - 1;
      var earlier, source := due[..n], due[n];
      assert due == earlier + [source];
      AllFreshPrefix(db, earlier, source, now);
      RunAllKeeps(db, earlier, now, outcomes, name, gap);
      var before := RunAll(db, earlier, now, outcomes, NOTHING).0;
      assert RunAll(db, due, now, outcomes, NOTHING).0 == RunSource(before, source, now, outcomes[n]).0;
      hide RunAll, Inv, RunSource, IsDue;
      InvIssued(before, name, gap);
      RunSourceKeeps(before, source, now, outcomes[n], name, gap);
      RunSourceFrames(before, source, now, outcomes[n]);
      RanOneMore(db.sources, before.sources, RunSource(before, source, now, outcomes[n]).0.sources, earlier, source,
        now, outcomes);
    }
  }

  lemma InvIssued(db: Db, name: string, gap: int)
    requires Inv(db, name, gap)
    ensures Issued(db)
  {
  }

  lemma AllFreshPrefix(db: Db, earlier: seq<Source>, source: Source, now: int)
    requires AllFreshAndDue(db, earlier + [source], now)
    ensures AllFreshAndDue(db, earlier, now) && Fresh(db, source) && IsDue(source, now) && source.id !in Ids(earlier)
  {
    var due := earlier + [source];
    assert due[|earlier|] == source;
    assert forall s | s in earlier :: s in due;
    assert forall i | 0 <= i < |earlier| :: due[i] == earlier[i] && due[i].id != source.id;
  }

  lemma ReachedAreDue(db: Db, rows: seq<Source>, now: int, outcomes: seq<Outcome>)
    requires EnabledRows(db, rows)
    ensures AllFreshAndDue(db, Reached(rows, now, outcomes), now)
  {
    var due, reached := Due(rows, now), Reached(rows, now, outcomes);
    assert DistinctIds(rows);
    DueSpec(rows, now);
    assert forall i | 0 <= i < |reached| :: reached[i] == due[i];
    assert forall s | s in reached :: s in due;
  }

  /**
   A tick that is not cut off sets the last run of every due source that could be begun to its own
   time, and leaves every other source as it was.
   */
  lemma TickReachesEveryDueSource(events: seq<Event>, now: int, rows: seq<Source>, outcomes: seq<Outcome>, id: nat)
    requires EnabledRows(After(events), rows) && |rows| <= |outcomes| && (forall o | o in outcomes :: !o.NotBegun?)
    requires id in After(events).sources
    ensures var before, after := After(events).sources[id], Apply(After(events), Tick(now, rows, outcomes)).sources;
            id in after && if IsDue(before, now) then after[id].lastRun == Some(now) else after[id] == before
  {
    var db := After(events);
    AlwaysInv(events, "", 0);
    Scheduler.DueIsFewer(rows, now);
    ReachedAreDue(db, rows, now, outcomes);
    DueSpec(rows, now);
    RunAllKeeps(db, Due(rows, now), now, outcomes, "", 0);
    hide RunAll, Inv, After;
    var due := Due(rows, now);
    if IsDue(db.sources[id], now) {
      assert db.sources[id] in due;
      var i :| 0 <= i < |due| && due[i] == db.sources[id];
      assert !outcomes[i].NotBegun?;
    } else {
      assert id !in Ids(due);
    }
  }

  lemma {:induction false} CountersDoNotMatter(db: Db, due: seq<Source>, now: int, outcomes: seq<Outcome>, a: RunResult,
    b: RunResult)
    requires |due| <= |outcomes|
    ensures RunAll(db, due, now, outcomes, a).0 == RunAll(db, due, now, outcomes, b).0
  {
    if due == [] {
    } else {
      CountersDoNotMatter(db, due[..|due| - 1], now, outcomes, a, b);
    }
  }

  /** A finished `RunOnce`, whatever its counters, leaves the tables of an uncut tick. */
  lemma RunOnceIsATick(db: Db, rows: seq<Source>, now: int, outcomes: seq<Outcome>, counters: RunResult)
    requires EnabledRows(db, rows) && |rows| <= |outcomes|
    ensures |Due(rows, now)| <= |rows|
    ensures RunAll(db, Due(rows, now), now, outcomes, counters).0 == Apply(db, Tick(now, rows, outcomes))
  {
    Scheduler.DueIsFewer(rows, now);
    CountersDoNotMatter(db, Due(rows, now), now, outcomes, counters, NOTHING);
  }

  // ---- Whole histories ------------------------------------------------------------------------

  /** Every configuration of that name stores an interval that allows only that gap. */
  ghost predicate ConfiguredFor(events: seq<Event>, name: string, gap: int) {
    forall e | e in events && e.Configure? && e.name == name ::
      StoredSeconds(e.interval) == 0 || gap <= StoredSeconds(e.interval) * SECOND
  }

  lemma UpsertKeepsLatest(db: Db, name: string, settings: Settings, enabled: bool, seconds: int)
    requires Issued(db) && LastRunIsLatest(db)
    ensures LastRunIsLatest(Upsert(db, name, settings, enabled, seconds))
  {
  }

  lemma UpsertKeeps(db: Db, e: Event, name: string, gap: int)
    requires Inv(db, name, gap) && e.Configure? && ConfiguredFor([e], name, gap)
    ensures Inv(Apply(db, e), name, gap)
  {
    hide StoredSeconds, LastRunIsLatest;
    assert e in [e];
    UpsertKeepsLatest(db, e.name, e.settings, e.enabled, StoredSeconds(e.interval));
  }

  lemma {:induction false} AlwaysInv(events: seq<Event>, name: string, gap: int)
    requires ConfiguredFor(events, name, gap)
    ensures Inv(After(events), name, gap)
  {
    if events == [] {
    } else {
      var n := |events| - 1;
      var db, e := After(events[..n]), events[n];
      AlwaysInv(events[..n], name, gap);
      match e
      case Configure(_, _, _, _) => UpsertKeeps(db, e, name, gap);
      case Tick(now, rows, outcomes) =>
        if EnabledRows(db, rows) {
          ReachedAreDue(db, rows, now, outcomes);
          RunAllKeeps(db, Reached(rows, now, outcomes), now, outcomes, name, gap);
        }
    }
  }

  /** Runs of one source start at least as far apart as any interval that was ever stored for it. */
  lemma RunsAreSpaced(events: seq<Event>, name: string, gap: int)
    requires ConfiguredFor(events, name, gap)
    ensures Spaced(After(events).runs, name, gap)
  {
    AlwaysInv(events, name, gap);
  }

  lemma LastRunIsTheLatestStart(events: seq<Event>)
    ensures LastRunIsLatest(After(events))
  {
    forall e | e in events && e.Configure? && e.name == ""
      ensures StoredSeconds(e.interval) == 0 || 0 <= StoredSeconds(e.interval) * SECOND {
    }
    AlwaysInv(events, "", 0);
  }

  // ---- Source names ---------------------------------------------------------------------------

  /** The UNIQUE key of the sources. */
  ghost predicate NamesUnique(sources: map<nat, Source>) {
    forall i, j | i in sources && j in sources && i != j :: sources[i].name != sources[j].name
  }

  /** Every id was issued, from 1 on. */
  ghost predicate SourcesIssued(db: Db) {
    db.nextSource >= 1 && forall id | id in db.sources :: 1 <= id < db.nextSource
  }

  ghost predicate SameNames(a: Db, b: Db) {
    && b.nextSource == a.nextSource && b.sources.Keys == a.sources.Keys
    && forall id | id in a.sources :: b.sources[id].name == a.sources[id].name
  }

  lemma RunSourceKeepsNames(db: Db, source: Source, now: int, outcome: Outcome)
    ensures SameNames(db, RunSource(db, source, now, outcome).0)
  {
  }

  lemma {:induction false} RunAllKeepsNames(db: Db, due: seq<Source>, now: int, outcomes: seq<Outcome>)
    requires |due| <= |outcomes|
    ensures SameNames(db, RunAll(db, due, now, outcomes, NOTHING).0)
  {
    if due == [] {
    } else {
      var n := |due| - 1;
      var before := RunAll(db, due[..n], now, outcomes, NOTHING).0;
      assert RunAll(db, due, now, outcomes, NOTHING).0 == RunSource(before, due[n], now, outcomes[n]).0;
      hide RunAll, RunSource;
      RunAllKeepsNames(db, due[..n], now, outcomes);
      RunSourceKeepsNames(before, due[n], now, outcomes[n]);
    }
  }

  /** Configuring by name never makes a second source of that name. */
  lemma {:induction false} NamesAlwaysUnique(events: seq<Event>)
    ensures NamesUnique(After(events).sources) && SourcesIssued(After(events))
  {
    if events == [] {
    } else {
      var n := |events| - 1;
      var db, e := After(events[..n]), events[n];
      NamesAlwaysUnique(events[..n]);
      hide RunAll, Reached, EnabledRows, StoredSeconds;
      match e
      case Configure(name, settings, enabled, interval) =>
      case Tick(now, rows, outcomes) => RunAllKeepsNames(db, Reached(rows, now, outcomes), now, outcomes);
    }
  }

  // ---- Recorded results -----------------------------------------------------------------------

  /** A run is finished exactly when it is no longer running, and only a failed one has an error. */
  ghost predicate ResultAgrees(run: SourceRun) {
    && run.status in {"running", "succeeded", "failed"}
    && (run.finishedAt.None? <==> run.status == "running") && (run.error.Some? ==> run.status == "failed")
    && run.durationMs >= 0
  }

  /** The source has succeeded exactly when one of its runs did, and `last_success_at` is when such a run finished. */
  ghost predicate SuccessBacked(runs: map<nat, SourceRun>, id: nat, success: Option<int>) {
    if success.None? then forall r | r in runs && runs[r].sourceId == id :: runs[r].status != "succeeded"
    else exists r | r in runs ::
      runs[r].sourceId == id && runs[r].status == "succeeded" && runs[r].finishedAt == success
  }

  ghost predicate ResultsHold(db: Db) {
    && (forall r | r in db.runs :: ResultAgrees(db.runs[r]))
    && (forall id | id in db.sources :: SuccessBacked(db.runs, id, db.sources[id].lastSuccess))
  }

  lemma SuccessStays(a: map<nat, SourceRun>, b: map<nat, SourceRun>, id: nat, success: Option<int>, fresh': nat)
    requires SuccessBacked(a, id, success) && b.Keys == a.Keys + {fresh'}
    requires forall r | r in a && r != fresh' :: b[r] == a[r]
    requires fresh' in a ==> a[fresh'].status == "running"
    requires b[fresh'].sourceId == id ==> b[fresh'].status != "succeeded"
    ensures SuccessBacked(b, id, success)
  {
    if success.Some? {
      var r :| r in a && a[r].sourceId == id && a[r].status == "succeeded" && a[r].finishedAt == success;
      assert b[r] == a[r];
    }
  }

  lemma BeginKeepsResults(db: Db, source: Source, now: int)
    requires Issued(db) && ResultsHold(db) && source.id in db.sources
    ensures ResultsHold(Begin(db, source, now).0)
  {
    var (after, id) := Begin(db, source, now);
    forall i | i in after.sources ensures SuccessBacked(after.runs, i, after.sources[i].lastSuccess) {
      SuccessStays(db.runs, after.runs, i, db.sources[i].lastSuccess, id);
    }
  }

  lemma CompleteKeepsResults(db: Db, id: nat, status: string, seen: int, published: int, error: string, finishedAt: int)
    requires Issued(db) && ResultsHold(db) && id in db.runs && db.runs[id].status == "running"
    requires status == "failed" || (status == "succeeded" && error == "")
    ensures ResultsHold(Complete(db, id, status, seen, published, error, finishedAt).0)
  {
    var after := Complete(db, id, status, seen, published, error, finishedAt).0;
    NoErrorText();
    hide NullIfEmpty;
    forall i | i in after.sources ensures SuccessBacked(after.runs, i, after.sources[i].lastSuccess) {
      if status == "succeeded" && i == db.runs[id].sourceId {
        assert after.runs[id].status == "succeeded" && after.runs[id].finishedAt == Some(finishedAt);
      } else {
        SuccessStays(db.runs, after.runs, i, db.sources[i].lastSuccess, id);
      }
    }
  }

  lemma NoErrorText()
    ensures NullIfEmpty("") == None
  {
  }

  lemma RunSourceKeepsResults(db: Db, source: Source, now: int, outcome: Outcome)
    requires Issued(db) && ResultsHold(db) && source.id in db.sources && source == db.sources[source.id]
    ensures ResultsHold(RunSource(db, source, now, outcome).0)
  {
    hide Complete, ResultsHold;
    BeginKeepsResults(db, source, now);
    var (begun, id) := Begin(db, source, now);
    match outcome
    case ProducerFailed(seen, published, error, finishedAt, _) =>
      CompleteKeepsResults(begun, id, "failed", seen, published, error, finishedAt);
    case Produced(seen, published, finishedAt, _) =>
      CompleteKeepsResults(begun, id, "succeeded", seen, published, "", finishedAt);
    case NotBegun =>
  }

  lemma {:induction false} RunAllKeepsResults(db: Db, due: seq<Source>, now: int, outcomes: seq<Outcome>)
    requires |due| <= |outcomes| && Inv(db, "", 0) && AllFreshAndDue(db, due, now) && ResultsHold(db)
    ensures ResultsHold(RunAll(db, due, now, outcomes, NOTHING).0)
  {
    if due == [] {
    } else {
      var n := |due| - 1;
      var earlier, source := due[..n], due[n];
      assert due == earlier + [source];
      AllFreshPrefix(db, earlier, source, now);
      RunAllKeepsResults(db, earlier, now, outcomes);
      RunAllKeeps(db, earlier, now, outcomes, "", 0);
      var before := RunAll(db, earlier, now, outcomes, NOTHING).0;
      assert RunAll(db, due, now, outcomes, NOTHING).0 == RunSource(before, source, now, outcomes[n]).0;
      hide RunAll, Inv, RunSource, IsDue, ResultsHold, Ids;
      InvIssued(before, "", 0);
      RunSourceKeepsResults(before, source, now, outcomes[n]);
    }
  }

  lemma UpsertKeepsResults(db: Db, name: string, settings: Settings, enabled: bool, seconds: int)
    requires Issued(db) && ResultsHold(db)
    ensures ResultsHold(Upsert(db, name, settings, enabled, seconds))
  {
  }

  /** Run rows and sources tell the same story of successes and failures after any history. */
  lemma {:induction false} ResultsAlwaysHold(events: seq<Event>)
    ensures ResultsHold(After(events))
  {
    if events == [] {
    } else {
      var n := |events| - 1;
      var db, e := After(events[..n]), events[n];
      ResultsAlwaysHold(events[..n]);
      AlwaysInv(events[..n], "", 0);
      hide ResultsHold, RunAll, Upsert;
      match e
      case Configure(name, settings, enabled, interval) =>
        InvIssued(db, "", 0);
        UpsertKeepsResults(db, name, settings, enabled, StoredSeconds(interval));
      case Tick(now, rows, outcomes) =>
        if EnabledRows(db, rows) {
          ReachedAreDue(db, rows, now, outcomes);
          RunAllKeepsResults(db, Reached(rows, now, outcomes), now, outcomes);
        }
    }
  }

  // ---- The configured interval, and the one stored --------------------------------------------

  ghost predicate ConfiguredWith(events: seq<Event>, interval: nat) {
    forall e | e in events && e.Configure? :: e.interval == interval
  }

  /** Under that one configured interval, runs of a source always start at least the interval apart. */
  ghost predicate AlwaysSpacedBy(interval: nat) {
    forall events, name | ConfiguredWith(events, interval) :: Spaced(After(events).runs, name, interval)
  }

  /**
   Runs keep the configured interval exactly when it is a whole number of seconds, or less than one
   second: the stored interval drops the fraction, and a source stored with interval 0 never runs again.
   */
  lemma SpacedByConfigurationIff(interval: nat)
    ensures AlwaysSpacedBy(interval) <==> interval % SECOND == 0 || interval < SECOND
  {
    if interval % SECOND == 0 || interval < SECOND {
      forall events, name | ConfiguredWith(events, interval) ensures Spaced(After(events).runs, name, interval) {
        WholeSecondsKept(interval);
        assert ConfiguredFor(events, name, interval);
        RunsAreSpaced(events, name, interval);
      }
    } else {
      ShortRepeat(interval);
    }
  }

  lemma WholeSecondsKept(interval: nat)
    requires interval % SECOND == 0 || interval < SECOND
    ensures StoredSeconds(interval) == 0 || interval <= StoredSeconds(interval) * SECOND
  {
  }

  const SETTINGS := Settings("", "", 0)

  /** Two ticks a stored interval apart: both run the source, sooner than configured. */
  function TwoTicks(interval: nat): seq<Event> {
    var seconds := StoredSeconds(interval);
    var fine := [Produced(0, 0, 0, true)];
    [Configure("s", SETTINGS, true, interval),
     Tick(0, [Source(1, "s", SETTINGS, true, seconds, None, None)], fine),
     Tick(seconds * SECOND, [Source(1, "s", SETTINGS, true, seconds, Some(0), Some(0))], fine)]
  }

  lemma OneSourceReached(source: Source, now: int, outcome: Outcome)
    requires IsDue(source, now)
    ensures Reached([source], now, [outcome]) == [source]
  {
    assert [source][..0] == [];
    assert Due([], now) == [];
  }

  lemma OneSourceTick(db: Db, source: Source, now: int)
    requires db.sources == map[1 := source] && source.id == 1 && IsDue(source, now)
    ensures var after := Apply(db, Tick(now, [source], [Produced(0, 0, 0, true)]));
            && after.sources == map[1 := source.(lastRun := Some(now), lastSuccess := Some(0))]
            && after.nextRun == db.nextRun + 1
            && after.runs.Keys == db.runs.Keys + {db.nextRun}
            && after.runs[db.nextRun].sourceId == 1 && after.runs[db.nextRun].sourceName == source.name
            && after.runs[db.nextRun].startedAt == now
            && (forall r | r in db.runs && r != db.nextRun :: after.runs[r] == db.runs[r])
  {
    var outcomes := [Produced(0, 0, 0, true)];
    OneSourceReached(source, now, outcomes[0]);
    assert EnabledRows(db, [source]);
    hide Reached, EnabledRows, Due, IsDue;
    assert [source][..0] == [];
    assert RunAll(db, [], now, outcomes, NOTHING) == (db, NOTHING);
    var after := RunSource(db, source, now, outcomes[0]).0;
    assert RunAll(db, [source], now, outcomes, NOTHING).0 == after;
    hide RunAll;
  }

  lemma ShortRepeat(interval: nat)
    requires interval % SECOND != 0 && interval >= SECOND
    ensures !AlwaysSpacedBy(interval)
  {
    var seconds, events := StoredSeconds(interval), TwoTicks(interval);
    assert seconds >= 1 && seconds * SECOND < interval;
    hide StoredSeconds;
    var first := Source(1, "s", SETTINGS, true, seconds, None, None);
    var second := first.(lastRun := Some(0), lastSuccess := Some(0));
    assert events[..3] == events && events[..3][..2] == events[..2] && events[..2][..1] == events[..1]
      && events[..1][..0] == [];
    var one := After(events[..1]);
    assert one == Apply(After([]), events[0]);
    assert one.sources == map[1 := first];
    var two, three := After(events[..2]), After(events);
    OneSourceTick(one, first, 0);
    OneSourceTick(two, second, seconds * SECOND);
    hide Apply, After;
    assert three.runs[1].startedAt == 0 && three.runs[2].startedAt == seconds * SECOND;
    assert !Spaced(three.runs, "s", interval);
    assert ConfiguredWith(events, interval);
  }
}
