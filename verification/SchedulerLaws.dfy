/** The scheduler's rules spelled out in the columns of a source, and what one tick records. */
module SchedulerLaws {
  import opened Wrappers
  import opened Text
  import opened SchedulerTables
  import opened SchedulerHistory
  import Scheduler

  // ---- Which sources are due ------------------------------------------------------------------

  /** Enabled, and never run, or run a positive interval of seconds ago or longer. */
  predicate Waits(source: Source, now: int) {
    source.enabled
    && (source.lastRun == None
        || (0 < source.intervalSeconds && source.intervalSeconds * 1_000_000_000 <= now - source.lastRun.value))
  }

  /** The sources selected are the waiting ones. */
  lemma SelectedWait(sources: seq<Source>, now: int)
    ensures forall s :: s in Due(sources, now) <==> s in sources && Waits(s, now)
  {
    DueSpec(sources, now);
    assert forall s | s in sources :: IsDue(s, now) <==> Waits(s, now);
  }

  /** A source that is due stays due until it is run: no tick can come too late for it. */
  lemma DueStaysDue(source: Source, now: int, later: int)
    requires IsDue(source, now) && now <= later
    ensures IsDue(source, later)
  {
  }

  /**
   A tick that is not cut off sets the last run of every waiting source to its own time, and touches no
   other source: what waits at one tick is run at the first uncut tick from then on.
   */
  lemma TickRunsWhatWaits(events: seq<Event>, now: int, rows: seq<Source>, outcomes: seq<Outcome>, id: nat)
    requires EnabledRows(After(events), rows) && |rows| <= |outcomes| && (forall o | o in outcomes :: !o.NotBegun?)
    requires id in After(events).sources
    ensures var before, after := After(events).sources[id], Apply(After(events), Tick(now, rows, outcomes)).sources;
            id in after && if Waits(before, now) then after[id].lastRun == Some(now) else after[id] == before
  {
    hide After, Apply;
    TickReachesEveryDueSource(events, now, rows, outcomes, id);
  }

  // ---- Configuring a source -------------------------------------------------------------------

  /** The interval is stored in whole seconds: the most that fit into it. */
  lemma StoredSecondsSpec(interval: nat)
    ensures StoredSeconds(interval) * 1_000_000_000 <= interval < (StoredSeconds(interval) + 1) * 1_000_000_000
  {
  }

  /** Row `id` has the name and what was configured; a known source keeps its run times, a new one has none. */
  ghost predicate ConfiguredAs(
    db: Db, after: Db, id: nat, name: string, settings: Settings, enabled: bool, seconds: int)
  {
    && id in after.sources
    && after == db.(sources := db.sources[id := after.sources[id]], nextSource := after.nextSource)
    && var row := after.sources[id];
       && row.id == id && row.name == name && row.settings == settings && row.enabled == enabled
       && row.intervalSeconds == seconds
       && if id in db.sources
          then db.sources[id].name == name && row.lastRun == db.sources[id].lastRun
               && row.lastSuccess == db.sources[id].lastSuccess
          else (forall j | j in db.sources :: db.sources[j].name != name)
               && row.lastRun.None? && row.lastSuccess.None?
  }

  lemma UpsertConfigures(db: Db, name: string, settings: Settings, enabled: bool, seconds: int)
    requires Issued(db) && SourcesIssued(db)
    ensures exists id ::
        ConfiguredAs(db, Upsert(db, name, settings, enabled, seconds), id, name, settings, enabled, seconds)
  {
    var found := SourceNamed(db.sources, name, db.nextSource);
    var id := if found.Some? then found.value else db.nextSource;
    assert ConfiguredAs(db, Upsert(db, name, settings, enabled, seconds), id, name, settings, enabled, seconds);
  }

  /** Configuring by name writes one row: the source of that name, or a new one. */
  lemma ConfigureWrites(events: seq<Event>, name: string, settings: Settings, enabled: bool, interval: nat)
    ensures var after := Apply(After(events), Configure(name, settings, enabled, interval));
            exists id :: ConfiguredAs(After(events), after, id, name, settings, enabled, StoredSeconds(interval))
  {
    NamesAlwaysUnique(events);
    AlwaysIssued(events);
    assert Apply(After(events), Configure(name, settings, enabled, interval))
      == Upsert(After(events), name, settings, enabled, StoredSeconds(interval));
    hide After, StoredSeconds, Upsert, ConfiguredAs;
    UpsertConfigures(After(events), name, settings, enabled, StoredSeconds(interval));
  }

  lemma AlwaysIssued(events: seq<Event>)
    ensures Issued(After(events))
  {
    forall e | e in events && e.Configure? && e.name == ""
      ensures StoredSeconds(e.interval) == 0 || 0 <= StoredSeconds(e.interval) * SECOND {
    }
    AlwaysInv(events, "", 0);
  }

  // ---- Running one source ---------------------------------------------------------------------

  /** The row of a run, as its outcome tells it. */
  ghost predicate Records(run: SourceRun, source: Source, now: int, outcome: Outcome)
    requires !outcome.NotBegun?
  {
    && run.sourceId == source.id && run.sourceName == source.name && run.startedAt == now
    && if !outcome.completed
       then run.status == "running" && run.finishedAt.None? && run.error.None?
            && run.seen == run.published == run.durationMs == 0
       else run.finishedAt == Some(outcome.finishedAt) && run.seen == outcome.seen && run.published == outcome.published
            && Lasted(run.durationMs, outcome.finishedAt - now)
            && (outcome.Produced? ==> run.status == "succeeded" && run.error.None?)
            && (outcome.ProducerFailed? ==>
                  run.status == "failed"
                  && run.error == if AllSpace(Go, outcome.error) then None else Some(TrimSpace(outcome.error)))
  }

  /** Whole milliseconds; none when the clock went back. */
  predicate Lasted(ms: int, nanoseconds: int) {
    if nanoseconds < 0 then ms == 0 else ms * 1_000_000 <= nanoseconds < (ms + 1) * 1_000_000
  }

  lemma DurationLasts(startedAt: int, finishedAt: int)
    ensures Lasted(Duration(startedAt, finishedAt), finishedAt - startedAt)
  {
  }

  /**
   Running a source adds one run that records its outcome; only a recorded success sets the source's
   last success, to the time it finished, and only it counts as run.
   */
  lemma RunSourceRecords(db: Db, source: Source, now: int, outcome: Outcome)
    requires Issued(db) && source.id in db.sources
    ensures var (after, produced) := RunSource(db, source, now, outcome);
            var success := outcome.Produced? && outcome.completed;
            && (outcome.NotBegun? ==> after == db)
            && (!outcome.NotBegun? ==>
                  && db.nextRun !in db.runs && db.nextRun in after.runs
                  && after.runs == db.runs[db.nextRun := after.runs[db.nextRun]]
                  && Records(after.runs[db.nextRun], source, now, outcome))
            && produced == (if success then Some((outcome.seen, outcome.published)) else None)
            && source.id in after.sources
            && after.sources[source.id].lastSuccess
               == if success then Some(outcome.finishedAt) else db.sources[source.id].lastSuccess
  {
    if !outcome.NotBegun? && outcome.completed { DurationLasts(now, outcome.finishedAt); }
    if outcome.ProducerFailed? { TrimIdentity(Go, outcome.error); }
    TrimIdentity(Go, "");
    hide Duration, Trim, Lasted;
    assert TrimSpace("") == "";
    hide AllSpace, TrimSpace;
  }

  // ---- The counters of a tick -----------------------------------------------------------------

  function Succeeded(o: Outcome): bool {
    o.Produced? && o.completed
  }

  /** How many of the first `n` outcomes succeeded, and what they delivered. */
  function Totals(outcomes: seq<Outcome>, n: nat): (nat, int, int)
    requires n <= |outcomes|
  {
    if n == 0 then (0, 0, 0)
    else
      var (count, seen, published) := Totals(outcomes, n - 1);
      var o := outcomes[n - 1];
      if Succeeded(o) then (count + 1, seen + o.seen, published + o.published) else (count, seen, published)
  }

  /** A tick counts each due source as run or as failed, and adds up what the successful ones delivered. */
  lemma {:induction false} TickCounts(db: Db, due: seq<Source>, now: int, outcomes: seq<Outcome>, start: RunResult)
    requires |due| <= |outcomes|
    ensures var (end, totals) := (RunAll(db, due, now, outcomes, start).1, Totals(outcomes, |due|));
            && end.evaluated == start.evaluated && end.skipped == start.skipped
            && end.run == start.run + totals.0 && end.failed == start.failed + |due| - totals.0
            && end.seen == start.seen + totals.1 && end.published == start.published + totals.2
  {
    if due == [] {
    } else {
      var n := |due| - 1;
      TickCounts(db, due[..n], now, outcomes, start);
      ProducedIffSucceeded(RunAll(db, due[..n], now, outcomes, start).0, due[n], now, outcomes[n]);
      hide RunSource;
    }
  }

  lemma ProducedIffSucceeded(db: Db, source: Source, now: int, o: Outcome)
    ensures RunSource(db, source, now, o).1 == if Succeeded(o) then Some((o.seen, o.published)) else None
  {
    hide Begin, Complete;
  }
}
