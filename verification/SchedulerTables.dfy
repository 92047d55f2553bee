/**
 Job sources and their recorded runs: which sources a tick finds due, and what one tick writes.
 Times and durations are whole nanoseconds.
 */
module SchedulerTables {
  import opened Wrappers
  import opened Tables
  import opened Text

  /** The columns that do not decide which sources run. */
  datatype Settings = Settings(kind: string, schedule: string, timeoutSeconds: int)

  datatype Source = Source(
    id: nat, name: string, settings: Settings, enabled: bool, intervalSeconds: int,
    lastRun: Option<int>, lastSuccess: Option<int>)

  datatype SourceRun = SourceRun(
    sourceId: nat, sourceName: string, status: string, startedAt: int, finishedAt: Option<int>, durationMs: int,
    seen: int, published: int, error: Option<string>)

  datatype Db = Db(sources: map<nat, Source>, runs: map<nat, SourceRun>, nextSource: nat, nextRun: nat)

  const EMPTY := Db(map[], map[], 1, 1)
  const SECOND := 1_000_000_000
  const MILLISECOND := 1_000_000

  /** `int(d.Seconds())` of a positive duration: the fraction of a second is cut off. */
  function StoredSeconds(interval: nat): nat {
    interval / SECOND
  }

  function SourceNamed(sources: map<nat, Source>, name: string, next: nat): (found: Option<nat>)
    ensures found.Some? ==> found.value in sources && sources[found.value].name == name
    ensures found.None? ==> forall id | id in sources && 1 <= id < next :: sources[id].name != name
  {
    FirstRow(sources, (row: Source) => row.name == name, 1, next)
  }

  /** `UpsertJobSource`: the run times of a known source stay. */
  function Upsert(db: Db, name: string, settings: Settings, enabled: bool, seconds: int): Db {
    match SourceNamed(db.sources, name, db.nextSource)
    case Some(id) => db.(sources := db.sources[id := db.sources[id].(
            settings := settings, enabled := enabled, intervalSeconds := seconds)])
    case None =>
      db.(sources := db.sources[db.nextSource := Source(db.nextSource, name, settings, enabled, seconds, None, None)],
          nextSource := db.nextSource + 1)
  }

  function Begin(db: Db, source: Source, startedAt: int): (Db, nat) {
    var run := SourceRun(source.id, source.name, "running", startedAt, None, 0, 0, 0, None);
    var sources := if source.id in db.sources
                   then db.sources[source.id := db.sources[source.id].(lastRun := Some(startedAt))] else db.sources;
    (db.(sources := sources, runs := db.runs[db.nextRun := run], nextRun := db.nextRun + 1), db.nextRun)
  }

  function Duration(startedAt: int, finishedAt: int): int {
    if finishedAt < startedAt then 0 else (finishedAt - startedAt) / MILLISECOND
  }

  function Complete(db: Db, id: nat, status: string, seen: int, published: int, error: string, finishedAt: int)
    : (Db, bool)
  {
    if id !in db.runs then (db, false)
    else
      var run := db.runs[id].(status := status, finishedAt := Some(finishedAt),
                              durationMs := Duration(db.runs[id].startedAt, finishedAt),
                              seen := seen, published := published, error := NullIfEmpty(error));
      var sources := if status == "succeeded" && run.sourceId in db.sources
                     then db.sources[run.sourceId := db.sources[run.sourceId].(lastSuccess := Some(finishedAt))]
                     else db.sources;
      (db.(runs := db.runs[id := run], sources := sources), true)
  }

  // ---- Which sources are due ------------------------------------------------------------------

  predicate IsDue(source: Source, now: int) {
    source.enabled
    && (source.lastRun.None?
        || (source.intervalSeconds > 0 && source.lastRun.value + source.intervalSeconds * SECOND <= now))
  }

  function Due(sources: seq<Source>, now: int): seq<Source> {
    if sources == [] then []
    else
      var n := |sources| - 1;
      if IsDue(sources[n], now) then Due(sources[..n], now) + [sources[n]] else Due(sources[..n], now)
  }

  method DueSources(sources: seq<Source>, now: int) returns (due: seq<Source>)
    ensures due == Due(sources, now)
  {
    due := [];
    for i := 0 to |sources|
      invariant due == Due(sources[..i], now)
    {
      assert sources[..i + 1][..i] == sources[..i];
      var source := sources[i];
      if !source.enabled {
        continue;
      }
      if source.lastRun.None? {
        due := due + [source];
        continue;
      }
      var interval := source.intervalSeconds * SECOND;
      if interval <= 0 {
        continue;
      }
      if source.lastRun.value + interval <= now {
        due := due + [source];
      }
    }
    assert sources[..|sources|] == sources;
  }

  /** The rows are exactly the enabled sources, each once. */
  predicate EnabledRows(db: Db, rows: seq<Source>) {
    && (forall i | 0 <= i < |rows| :: rows[i].id in db.sources && db.sources[rows[i].id] == rows[i] && rows[i].enabled)
    && (forall id | id in db.sources && db.sources[id].enabled :: db.sources[id] in rows)
    && (forall i, j | 0 <= i < j < |rows| :: rows[i].id != rows[j].id)
  }

  // ---- One tick -------------------------------------------------------------------------------

  /** How running one due source ends; `completed` is false when the result could not be recorded. */
  datatype Outcome =
    | NotBegun
    | ProducerFailed(seen: int, published: int, error: string, finishedAt: int, completed: bool)
    | Produced(seen: int, published: int, finishedAt: int, completed: bool)

  datatype RunResult = RunResult(evaluated: nat, run: nat, skipped: nat, failed: nat, seen: int, published: int)

  /** `runSource`: the tables, and what the producer delivered if the source counts as run. */
  function RunSource(db: Db, source: Source, now: int, outcome: Outcome): (Db, Option<(int, int)>) {
    if outcome.NotBegun? then (db, None)
    else
      var (begun, id) := Begin(db, source, now);
      if outcome.ProducerFailed? then
        (if outcome.completed
         then Complete(begun, id, "failed", outcome.seen, outcome.published, outcome.error, outcome.finishedAt).0
         else begun, None)
      else if outcome.completed then
        (Complete(begun, id, "succeeded", outcome.seen, outcome.published, "", outcome.finishedAt).0,
         Some((outcome.seen, outcome.published)))
      else (begun, None)
  }

  function Counted(result: RunResult, produced: Option<(int, int)>): RunResult {
    if produced.None? then result.(failed := result.failed + 1)
    else result.(run := result.run + 1, seen := result.seen + produced.value.0,
      published := result.published + produced.value.1)
  }

  function RunAll(db: Db, due: seq<Source>, now: int, outcomes: seq<Outcome>, result: RunResult): (Db, RunResult)
    requires |due| <= |outcomes|
  {
    if due == [] then (db, result)
    else
      var n := |due| - 1;
      var (before, counted) := RunAll(db, due[..n], now, outcomes, result);
      var (after, produced) := RunSource(before, due[n], now, outcomes[n]);
      (after, Counted(counted, produced))
  }
}
