/** The scheduler and its store: sources and runs changed in place, one tick at a time. */
module Scheduler {
  import opened Wrappers
  import opened Text
  import opened SchedulerTables

  class Store {
    var sources: map<nat, Source>
    var runs: map<nat, SourceRun>
    var nextSource: nat
    var nextRun: nat

    function View(): Db
      reads this
    {
      Db(sources, runs, nextSource, nextRun)
    }

    constructor ()
      ensures View() == EMPTY
    {
      sources, runs, nextSource, nextRun := map[], map[], 1, 1;
    }

    method UpsertJobSource(name: string, settings: Settings, enabled: bool, seconds: int)
      modifies this`sources, this`nextSource
      ensures View() == Upsert(old(View()), name, settings, enabled, seconds)
    {
      var known := SourceNamed(sources, name, nextSource);
      if known.Some? {
        sources := sources[known.value := sources[known.value].(
          settings := settings, enabled := enabled, intervalSeconds := seconds)];
      } else {
        sources := sources[nextSource := Source(nextSource, name, settings, enabled, seconds, None, None)];
        nextSource := nextSource + 1;
      }
    }

    method BeginSourceRun(source: Source, startedAt: int) returns (id: nat)
      modifies this`sources, this`runs, this`nextRun
      ensures (View(), id) == Begin(old(View()), source, startedAt)
    {
      id := nextRun;
      runs := runs[id := SourceRun(source.id, source.name, "running", startedAt, None, 0, 0, 0, None)];
      nextRun := nextRun + 1;
      if source.id in sources {
        sources := sources[source.id := sources[source.id].(lastRun := Some(startedAt))];
      }
    }

    method CompleteSourceRun(id: nat, status: string, seen: int, published: int, error: string, finishedAt: int)
      returns (done: bool)
      modifies this`sources, this`runs
      ensures (View(), done) == Complete(old(View()), id, status, seen, published, error, finishedAt)
    {
      if id !in runs {
        return false;
      }
      var source := runs[id].sourceId;
      runs := runs[id := runs[id].(
        status := status, finishedAt := Some(finishedAt), durationMs := Duration(runs[id].startedAt, finishedAt),
        seen := seen, published := published, error := NullIfEmpty(error))];
      if status == "succeeded" && source in sources {
        sources := sources[source := sources[source].(lastSuccess := Some(finishedAt))];
      }
      done := true;
    }
  }

  class Service {
    const store: Store

    constructor (store: Store)
      ensures this.store == store
    {
      this.store := store;
    }

    method RunSourceOnce(source: Source, now: int, outcome: Outcome) returns (produced: Option<(int, int)>)
      modifies store
      ensures (store.View(), produced) == RunSource(old(store.View()), source, now, outcome)
    {
      if outcome.NotBegun? {
        return None;
      }
      var id := store.BeginSourceRun(source, now);
      if outcome.ProducerFailed? {
        if outcome.completed {
          var _ := store.CompleteSourceRun(id, "failed", outcome.seen, outcome.published, outcome.error,
            outcome.finishedAt);
        }
        return None;
      }
      if !outcome.completed {
        return None;
      }
      var _ := store.CompleteSourceRun(id, "succeeded", outcome.seen, outcome.published, "", outcome.finishedAt);
      produced := Some((outcome.seen, outcome.published));
    }

    /** One tick over the enabled rows; every evaluated source is run, failed or skipped. */
    method RunOnce(now: int, rows: seq<Source>, outcomes: seq<Outcome>) returns (result: RunResult)
      requires EnabledRows(store.View(), rows) && |rows| <= |outcomes|
      modifies store
      ensures var due := Due(rows, now);
              && |due| <= |rows|
              && (store.View(), result)
                == RunAll(old(store.View()), due, now, outcomes, RunResult(|rows|, 0, |rows| - |due|, 0, 0, 0))
      ensures result.evaluated == |rows| && result.evaluated == result.run + result.failed + result.skipped
    {
      var due := DueSources(rows, now);
      DueIsFewer(rows, now);
      result := RunResult(|rows|, 0, |rows| - |due|, 0, 0, 0);
      var start := result;
      for i := 0 to |due|
        invariant result.evaluated == |rows| && result.skipped == |rows| - |due| && result.run + result.failed == i
        invariant (store.View(), result) == RunAll(old(store.View()), due[..i], now, outcomes, start)
      {
        assert due[..i + 1][..i] == due[..i];
        var produced := RunSourceOnce(due[i], now, outcomes[i]);
        if produced.None? {
          result := result.(failed := result.failed + 1);
          continue;
        }
        result := result.(
          run := result.run + 1, seen := result.seen + produced.value.0,
            published := result.published + produced.value.1);
      }
      assert due[..|due|] == due;
    }
  }

  lemma {:induction false} DueIsFewer(sources: seq<Source>, now: int)
    ensures |Due(sources, now)| <= |sources|
  {
    if sources == [] {
    } else {
      DueIsFewer(sources[..|sources| - 1], now);
    }
  }
}
