/** The store's job writers, changing the tables in place; a failing transaction is rolled back. */
module JobStore {
  import opened Wrappers
  import opened Text
  import opened Events
  import opened JobTables

  class Store {
    var events: map<string, Envelope>
    var jobs: map<nat, JobRow>
    var descriptions: map<nat, DescriptionRow>
    var index: map<nat, IndexRow>
    var requirements: map<nat, RequirementsRow>
    var nextJob: nat

    function View(): Db
      reads this
    {
      Db(events, jobs, descriptions, index, requirements, nextJob)
    }

    /** Ids are handed out in order and never reused. */
    ghost predicate Valid()
      reads this
    {
      IdsIssued(View())
    }

    constructor ()
      ensures View() == EMPTY && Valid()
    {
      events, jobs, descriptions, index, requirements, nextJob := map[], map[], map[], map[], map[], 1;
    }

    method Rollback(begin: Db)
      modifies this
      ensures View() == begin
    {
      events, jobs, descriptions := begin.events, begin.jobs, begin.descriptions;
      index, requirements, nextJob := begin.index, begin.requirements, begin.nextJob;
    }

    /** `SELECT id ... ORDER BY id LIMIT 1` over one key. */
    method SelectFirst(k: Key) returns (found: Option<nat>)
      ensures found == FirstWith(jobs, k, 1, nextJob)
    {
      var id := 1;
      while id < nextJob
        invariant id <= nextJob || id == 1
        invariant FirstWith(jobs, k, id, nextJob) == FirstWith(jobs, k, 1, nextJob)
      {
        if id in jobs && HasKey(jobs[id], k) {
          return Some(id);
        }
        id := id + 1;
      }
      found := None;
    }

    method FindExisting(e: Envelope) returns (existing: Option<nat>)
      requires Valid()
      ensures existing.Some? ==> existing.value in jobs
      ensures JobFor(jobs, nextJob, e) == if existing.Some? then existing.value else nextJob
    {
      var external, url := SourceExternalKey(e.payload), JobUrl(e.payload);
      existing := SelectFirst(ByIdempotencyKey(e.idempotencyKey));
      if existing.None? && external != "" {
        existing := SelectFirst(BySourceExternalKey(external));
      }
      if existing.None? && url != "" {
        existing := SelectFirst(ByCanonicalUrl(url));
      }
    }

    method UpsertJob(e: Envelope) returns (result: Result<Saved, Failure>)
      requires Valid()
      modifies this`jobs, this`nextJob
      ensures var id := JobFor(old(jobs), old(nextJob), e);
              if Clashes(old(jobs), id, e)
              then result == Err(UniqueViolation) && jobs == old(jobs) && nextJob == old(nextJob)
              else result == Ok(Saved(id, id == old(nextJob)))
                   && jobs == old(jobs)[id := RowOf(e, StatusOf(old(jobs), id))]
                   && nextJob == if id == old(nextJob) then old(nextJob) + 1 else old(nextJob)
    {
      hide JobFor, RowOf, Clashes;
      var existing := FindExisting(e);
      var id := if existing.Some? then existing.value else nextJob;
      if Clashes(jobs, id, e) {
        return Err(UniqueViolation);
      }
      if existing.Some? {
        jobs := jobs[id := RowOf(e, jobs[id].status)];
        return Ok(Saved(id, false));
      }
      jobs := jobs[id := RowOf(e, "discovered")];
      nextJob := nextJob + 1;
      result := Ok(Saved(id, true));
    }

    method UpsertDescription(id: nat, job: Payload)
      modifies this`descriptions
      ensures descriptions == old(descriptions)[id := DescriptionOf(old(descriptions), id).(
                                rawText := job.description, detectedSkills := job.detectedSkills)]
    {
      if id in descriptions {
        descriptions := descriptions[id := descriptions[id].(rawText := job.description,
          detectedSkills := job.detectedSkills)];
      } else {
        descriptions := descriptions[id := DescriptionRow(job.description, None, job.detectedSkills, None, None)];
      }
    }

    method ReplaceSearchIndex(id: nat, row: IndexRow)
      modifies this`index
      ensures index == old(index)[id := row]
    {
      index := index - {id};
      index := index[id := row];
    }

    method SaveDiscoveredJob(e: Envelope) returns (result: Result<Saved, Failure>)
      requires Valid()
      modifies this
      ensures Valid() && (View(), result) == Save(old(View()), e)
    {
      SaveKeepsIds(View(), e);
      if e.eventId in events {
        var found := SelectFirst(ByIdempotencyKey(e.idempotencyKey));
        return if found.Some? then Ok(Saved(found.value, false)) else Err(NoJobForKey);
      }
      result := StoreDiscovery(e);
    }

    /** The part of the transaction after the event was found to be new. */
    method StoreDiscovery(e: Envelope) returns (result: Result<Saved, Failure>)
      requires Valid()
      modifies this
      ensures var id := JobFor(old(jobs), old(nextJob), e);
              (View(), result) == if Clashes(old(jobs), id, e) then (old(View()), Err(UniqueViolation))
                                  else (Stored(old(View()), e, id), Ok(Saved(id, id == old(nextJob))))
    {
      hide JobFor, RowOf, Clashes;
      var begin := View();
      events := events[e.eventId := e];
      result := UpsertJob(e);
      if result.Err? {
        Rollback(begin);
        return;
      }
      var job := e.payload;
      UpsertDescription(result.value.jobId, job);
      ReplaceSearchIndex(result.value.jobId, IndexRow(job.title, job.company, job.location, job.description));
    }

    method UpdateFetchedDescription(f: Fetched) returns (result: Result<(), Failure>)
      requires Valid()
      modifies this
      ensures Valid() && (View(), result) == UpdateFetched(old(View()), f)
    {
      var begin := View();
      descriptions := descriptions[f.jobId := DescriptionOf(descriptions, f.jobId).(
        rawText := f.rawText, rawHtml := NullIfEmpty(f.rawHtml), fetchedAt := Some(f.fetchedAt))];
      if f.jobId in jobs {
        jobs := jobs[f.jobId := jobs[f.jobId].(status := "description_fetched")];
      }
      if f.jobId !in jobs {
        Rollback(begin);
        return Err(NoSuchJob);
      }
      var job := jobs[f.jobId];
      ReplaceSearchIndex(f.jobId, IndexRow(job.title, job.company, job.location, f.rawText));
      result := Ok(());
    }

    method SaveParsedJob(id: nat, p: Parsed)
      requires Valid()
      modifies this
      ensures Valid() && View() == SaveParsed(old(View()), id, p)
    {
      requirements := requirements[id := RequirementsOf(p)];
      if id in descriptions {
        descriptions := descriptions[id := descriptions[id].(metadata := Some(p))];
      }
      if id in jobs {
        var job := jobs[id];
        jobs := jobs[id := job.(status := "parsed",
                                remotePolicy := Coalesce(NullIfEmpty(p.remotePolicy), job.remotePolicy),
                                employmentType := Coalesce(NullIfEmpty(p.employmentType), job.employmentType))];
      }
    }

    method MarkJobReady(id: nat)
      requires Valid()
      modifies this`jobs
      ensures Valid() && View() == MarkReady(old(View()), id)
    {
      if id in jobs {
        jobs := jobs[id := jobs[id].(status := "ready_to_apply")];
      }
    }
  }
}
