/**
 The job tables as values: what each writer's transaction makes of them, and what every run keeps.
 */
module JobTables {
  import opened Wrappers
  import opened Tables
  import opened Text
  import opened Events

  datatype JobRow = JobRow(
    source: string, externalId: string, title: string, company: string, location: string,
    remotePolicy: string, employmentType: string, sourceUrl: string, applicationUrl: string,
    status: string, idempotencyKey: string, sourceExternalKey: Option<string>, canonicalUrl: Option<string>,
    publishedAt: Option<int>, discoveredAt: int)

  /** What the parser found, as it is kept with the description. */
  datatype Parsed = Parsed(
    skills: seq<string>, requirements: seq<string>, responsibilities: seq<string>,
    salaryMin: Option<int>, salaryMax: Option<int>, salaryCurrency: string, salaryPeriod: string,
    remotePolicy: string, seniority: string, employmentType: string, parsedAt: int)

  datatype RequirementsRow = RequirementsRow(
    skills: seq<string>, requirements: seq<string>, responsibilities: seq<string>,
    salaryMin: Option<int>, salaryMax: Option<int>, salaryCurrency: Option<string>, salaryPeriod: Option<string>,
    remotePolicy: Option<string>, seniority: Option<string>, employmentType: Option<string>)

  datatype DescriptionRow = DescriptionRow(
    rawText: string, rawHtml: Option<string>, detectedSkills: seq<string>, fetchedAt: Option<int>,
      metadata: Option<Parsed>)

  datatype IndexRow = IndexRow(title: string, company: string, location: string, description: string)

  datatype Db = Db(
    events: map<string, Envelope>, jobs: map<nat, JobRow>, descriptions: map<nat, DescriptionRow>,
    index: map<nat, IndexRow>, requirements: map<nat, RequirementsRow>, nextJob: nat)

  const EMPTY := Db(map[], map[], map[], map[], map[], 1)

  datatype Saved = Saved(jobId: nat, created: bool)
  datatype Failure = UniqueViolation | NoJobForKey | NoSuchJob

  // ---- Lookups and constraints ----------------------------------------------------------------

  datatype Key = ByIdempotencyKey(key: string) | BySourceExternalKey(key: string) | ByCanonicalUrl(key: string)

  predicate HasKey(row: JobRow, k: Key) {
    match k
    case ByIdempotencyKey(key) => row.idempotencyKey == key
    case BySourceExternalKey(key) => row.sourceExternalKey == Some(key)
    case ByCanonicalUrl(key) => row.canonicalUrl == Some(key)
  }

  /** The least id in `[lo, hi)` whose row has the key. */
  function FirstWith(jobs: map<nat, JobRow>, k: Key, lo: nat, hi: nat): (found: Option<nat>)
    ensures found.Some? ==> lo <= found.value < hi && found.value in jobs && HasKey(jobs[found.value], k)
    ensures found.Some? ==> forall id | lo <= id < found.value && id in jobs :: !HasKey(jobs[id], k)
    ensures found.None? ==> forall id | lo <= id < hi && id in jobs :: !HasKey(jobs[id], k)
  {
    FirstRow(jobs, (row: JobRow) => HasKey(row, k), lo, hi)
  }

  /**
   The job a discovery is stored in: the one with its key, else the one with its source and external
   id, else the oldest with its URL, else a new one under the next id.
   */
  function JobFor(jobs: map<nat, JobRow>, next: nat, e: Envelope): nat {
    var external, url := SourceExternalKey(e.payload), JobUrl(e.payload);
    var byKey := FirstWith(jobs, ByIdempotencyKey(e.idempotencyKey), 1, next);
    if byKey.Some? then byKey.value
    else
      var byExternal := FirstWith(jobs, BySourceExternalKey(external), 1, next);
      if external != "" && byExternal.Some? then byExternal.value
      else
        var byUrl := FirstWith(jobs, ByCanonicalUrl(url), 1, next);
        if url != "" && byUrl.Some? then byUrl.value else next
  }

  /** Another row than `id` already holds one of the envelope's unique keys. */
  predicate Clashes(jobs: map<nat, JobRow>, id: nat, e: Envelope) {
    var external := NullIfEmpty(SourceExternalKey(e.payload));
    exists j | j in jobs :: j != id
      && (HasKey(jobs[j], ByIdempotencyKey(e.idempotencyKey))
          || (external.Some? && HasKey(jobs[j], BySourceExternalKey(external.value))))
  }

  // ---- The writers ----------------------------------------------------------------------------

  function RowOf(e: Envelope, status: string): JobRow {
    var job := e.payload;
    JobRow(job.source, job.externalId, job.title, job.company, job.location, job.remotePolicy, job.employmentType,
           job.sourceUrl, job.applicationUrl, status, e.idempotencyKey,
           NullIfEmpty(SourceExternalKey(job)), NullIfEmpty(JobUrl(job)),
           job.publishedAt, if job.discoveredAt.Some? then job.discoveredAt.value else e.occurredAt)
  }

  const NO_DESCRIPTION := DescriptionRow("", None, [], None, None)

  function DescriptionOf(descriptions: map<nat, DescriptionRow>, id: nat): DescriptionRow {
    if id in descriptions then descriptions[id] else NO_DESCRIPTION
  }

  function StatusOf(jobs: map<nat, JobRow>, id: nat): string {
    if id in jobs then jobs[id].status else "discovered"
  }

  /** The tables after a discovery is stored in job `id`. */
  function Stored(db: Db, e: Envelope, id: nat): Db {
    var job := e.payload;
    var described := DescriptionOf(db.descriptions, id).(rawText := job.description,
      detectedSkills := job.detectedSkills);
    Db(db.events[e.eventId := e],
       db.jobs[id := RowOf(e, StatusOf(db.jobs, id))],
       db.descriptions[id := described],
       db.index[id := IndexRow(job.title, job.company, job.location, job.description)],
       db.requirements,
       if id == db.nextJob then db.nextJob + 1 else db.nextJob)
  }

  /** The transaction of `SaveDiscoveredJob`: all of it, or nothing. */
  function Save(db: Db, e: Envelope): (Db, Result<Saved, Failure>) {
    if e.eventId in db.events then
      var found := FirstWith(db.jobs, ByIdempotencyKey(e.idempotencyKey), 1, db.nextJob);
      (db, if found.Some? then Ok(Saved(found.value, false)) else Err(NoJobForKey))
    else
      var id := JobFor(db.jobs, db.nextJob, e);
      if Clashes(db.jobs, id, e) then (db, Err(UniqueViolation))
      else (Stored(db, e, id), Ok(Saved(id, id == db.nextJob)))
  }

  datatype Fetched = Fetched(jobId: nat, rawText: string, rawHtml: string, fetchedAt: int)

  function UpdateFetched(db: Db, f: Fetched): (Db, Result<(), Failure>) {
    if f.jobId !in db.jobs then (db, Err(NoSuchJob))
    else
      var job := db.jobs[f.jobId];
      var described := DescriptionOf(db.descriptions, f.jobId).(
        rawText := f.rawText, rawHtml := NullIfEmpty(f.rawHtml), fetchedAt := Some(f.fetchedAt));
      (db.(descriptions := db.descriptions[f.jobId := described],
           jobs := db.jobs[f.jobId := job.(status := "description_fetched")],
           index := db.index[f.jobId := IndexRow(job.title, job.company, job.location, f.rawText)]), Ok(()))
  }

  function SaveParsed(db: Db, id: nat, p: Parsed): Db {
    var described := if id in db.descriptions
      then db.(descriptions := db.descriptions[id := db.descriptions[id].(metadata := Some(p))]) else db;
    var updated := if id in db.jobs
      then described.(jobs := db.jobs[id := db.jobs[id].(
             status := "parsed",
             remotePolicy := Coalesce(NullIfEmpty(p.remotePolicy), db.jobs[id].remotePolicy),
             employmentType := Coalesce(NullIfEmpty(p.employmentType), db.jobs[id].employmentType))])
      else described;
    updated.(requirements := db.requirements[id := RequirementsOf(p)])
  }

  function RequirementsOf(p: Parsed): RequirementsRow {
    RequirementsRow(
      p.skills, p.requirements, p.responsibilities, p.salaryMin, p.salaryMax,
      NullIfEmpty(p.salaryCurrency), NullIfEmpty(p.salaryPeriod),
      NullIfEmpty(p.remotePolicy), NullIfEmpty(p.seniority), NullIfEmpty(p.employmentType))
  }

  function Coalesce(value: Option<string>, otherwise: string): string {
    if value.Some? then value.value else otherwise
  }

  /** What `MarkApplicationReady` does to the jobs table. */
  function MarkReady(db: Db, id: nat): Db {
    if id in db.jobs then db.(jobs := db.jobs[id := db.jobs[id].(status := "ready_to_apply")]) else db
  }

  datatype Op = Deliver(e: Envelope) | Fetch(f: Fetched) | Parse(id: nat, p: Parsed) | Ready(id: nat)

  function Apply(db: Db, op: Op): Db {
    match op
    case Deliver(e) => Save(db, e).0
    case Fetch(f) => UpdateFetched(db, f).0
    case Parse(id, p) => SaveParsed(db, id, p)
    case Ready(id) => MarkReady(db, id)
  }

  function Run(db: Db, ops: seq<Op>): Db
    decreases |ops|
  {
    if ops == [] then db else Run(Apply(db, ops[0]), ops[1..])
  }

  // ---- What every run keeps -------------------------------------------------------------------

  ghost predicate IndexAgrees(db: Db) {
    && db.jobs.Keys == db.descriptions.Keys == db.index.Keys
    && forall id | id in db.jobs ::
         db.index[id] == IndexRow(db.jobs[id].title, db.jobs[id].company, db.jobs[id].location,
           db.descriptions[id].rawText)
  }

  ghost predicate IdsIssued(db: Db) {
    db.nextJob >= 1 && forall id | id in db.jobs :: 1 <= id < db.nextJob
  }

  /** One row per idempotency key, and no row with a second, different key. */
  ghost predicate KeysDisciplined(db: Db) {
    && (forall i, j | i in db.jobs && j in db.jobs && i != j :: db.jobs[i].idempotencyKey != db.jobs[j].idempotencyKey)
    && (forall i | i in db.jobs && db.jobs[i].sourceExternalKey.Some? ::
          db.jobs[i].sourceExternalKey.value == db.jobs[i].idempotencyKey)
  }

  ghost predicate Agreeing(op: Op) {
    op.Deliver? ==> KeysAgree(op.e)
  }

  ghost predicate Held(jobs: map<nat, JobRow>, k: Key) {
    exists j | j in jobs :: HasKey(jobs[j], k)
  }

  /** The job a discovery belongs to, said without a search. */
  ghost predicate RightJob(jobs: map<nat, JobRow>, next: nat, e: Envelope, id: nat) {
    var key := ByIdempotencyKey(e.idempotencyKey);
    var external, url := BySourceExternalKey(SourceExternalKey(e.payload)), ByCanonicalUrl(JobUrl(e.payload));
    if Held(jobs, key) then id in jobs && HasKey(jobs[id], key)
    else if external.key != "" && Held(jobs, external) then id in jobs && HasKey(jobs[id], external)
    else if url.key != "" && Held(jobs, url) then
      id in jobs && HasKey(jobs[id], url) && forall j | j in jobs && j < id :: !HasKey(jobs[j], url)
    else id == next
  }

  lemma FirstWithFinds(jobs: map<nat, JobRow>, next: nat, k: Key)
    requires forall j | j in jobs :: 1 <= j < next
    ensures FirstWith(jobs, k, 1, next).Some? <==> Held(jobs, k)
  {
  }

  lemma JobForFinds(jobs: map<nat, JobRow>, next: nat, e: Envelope)
    requires forall j | j in jobs :: 1 <= j < next
    ensures RightJob(jobs, next, e, JobFor(jobs, next, e))
    ensures JobFor(jobs, next, e) == next || JobFor(jobs, next, e) in jobs
  {
    hide SourceExternalKey, JobUrl;
    FirstWithFinds(jobs, next, ByIdempotencyKey(e.idempotencyKey));
    FirstWithFinds(jobs, next, BySourceExternalKey(SourceExternalKey(e.payload)));
    FirstWithFinds(jobs, next, ByCanonicalUrl(JobUrl(e.payload)));
  }

  /**
   What a committed first delivery does: it is stored in the job it belongs to, which afterwards
   alone holds its key and its text; a job is created exactly when it belongs to none; the other
   rows are as they were, and no job goes away.
   */
  lemma SaveResolves(db: Db, e: Envelope)
    requires IdsIssued(db) && e.eventId !in db.events && Save(db, e).1.Ok?
    ensures var (after, result) := Save(db, e);
            var id := result.value.jobId;
            && RightJob(db.jobs, db.nextJob, e, id)
            && (result.value.created <==> id !in db.jobs)
            && after.events == db.events[e.eventId := e]
            && after.jobs.Keys == db.jobs.Keys + {id}
            && (forall j | j in after.jobs :: HasKey(after.jobs[j], ByIdempotencyKey(e.idempotencyKey)) <==> j == id)
            && (forall j | j in db.jobs && j != id :: after.jobs[j] == db.jobs[j])
            && after.index[id] == IndexRow(e.payload.title, e.payload.company, e.payload.location,
              e.payload.description)
  {
    hide JobFor, TrimSpace;
    JobForFinds(db.jobs, db.nextJob, e);
  }

  /**
   A delivery of a logged event changes nothing, and resolves exactly when some row still has its
   key; delivered again right after its first commit it resolves to the same job, no longer created.
   */
  lemma RedeliveryResolves(db: Db, e: Envelope)
    requires IdsIssued(db)
    ensures e.eventId in db.events ==>
              Save(db, e).0 == db && (Save(db, e).1.Ok? <==> Held(db.jobs, ByIdempotencyKey(e.idempotencyKey)))
    ensures e.eventId in db.events && Save(db, e).1.Ok? ==>
              var saved := Save(db, e).1.value;
              !saved.created && saved.jobId in db.jobs && db.jobs[saved.jobId].idempotencyKey == e.idempotencyKey
    ensures e.eventId !in db.events && Save(db, e).1.Ok? ==>
              Save(Save(db, e).0, e) == (Save(db, e).0, Ok(Saved(Save(db, e).1.value.jobId, false)))
  {
    hide JobFor, TrimSpace;
    FirstWithFinds(db.jobs, db.nextJob, ByIdempotencyKey(e.idempotencyKey));
    if e.eventId !in db.events && Save(db, e).1.Ok? {
      SaveResolves(db, e);
      SaveKeepsIds(db, e);
      var after := Save(db, e).0;
      FirstWithFinds(after.jobs, after.nextJob, ByIdempotencyKey(e.idempotencyKey));
    }
  }

  lemma PutKeepsIndex(db: Db, after: Db, id: nat, row: JobRow, described: DescriptionRow)
    requires IndexAgrees(db)
    requires after.jobs == db.jobs[id := row] && after.descriptions == db.descriptions[id := described]
    requires after.index == db.index[id := IndexRow(row.title, row.company, row.location, described.rawText)]
    ensures IndexAgrees(after)
  {
    assert after.jobs.Keys == db.jobs.Keys + {id};
    assert after.descriptions.Keys == db.descriptions.Keys + {id};
    assert after.index.Keys == db.index.Keys + {id};
  }

  lemma StoredKeepsIndex(db: Db, e: Envelope, id: nat)
    requires IndexAgrees(db) && IdsIssued(db) && (id in db.jobs || id == db.nextJob)
    ensures IndexAgrees(Stored(db, e, id)) && IdsIssued(Stored(db, e, id))
  {
    hide SourceExternalKey, NullIfEmpty, JobUrl;
    var after := Stored(db, e, id);
    PutKeepsIndex(db, after, id, after.jobs[id], after.descriptions[id]);
  }

  lemma SaveKeepsIds(db: Db, e: Envelope)
    requires IdsIssued(db)
    ensures IdsIssued(Save(db, e).0)
  {
    hide JobFor, SourceExternalKey, NullIfEmpty, JobUrl;
    JobForFinds(db.jobs, db.nextJob, e);
  }

  lemma FetchKeepsIndex(db: Db, f: Fetched)
    requires IndexAgrees(db) && IdsIssued(db)
    ensures IndexAgrees(UpdateFetched(db, f).0) && IdsIssued(UpdateFetched(db, f).0)
  {
    if f.jobId in db.jobs {
      var after := UpdateFetched(db, f).0;
      PutKeepsIndex(db, after, f.jobId, after.jobs[f.jobId], after.descriptions[f.jobId]);
    }
  }

  lemma ParseKeepsIndex(db: Db, id: nat, p: Parsed)
    requires IndexAgrees(db) && IdsIssued(db)
    ensures IndexAgrees(SaveParsed(db, id, p)) && IdsIssued(SaveParsed(db, id, p))
  {
    if id in db.jobs {
      var after := SaveParsed(db, id, p);
      assert db.index[id := db.index[id]] == db.index;
      PutKeepsIndex(db, after, id, after.jobs[id], after.descriptions[id]);
    }
  }

  lemma ReadyKeepsIndex(db: Db, id: nat)
    requires IndexAgrees(db) && IdsIssued(db)
    ensures IndexAgrees(MarkReady(db, id)) && IdsIssued(MarkReady(db, id))
  {
    if id in db.jobs {
      var after := MarkReady(db, id);
      assert db.index[id := db.index[id]] == db.index && db.descriptions[id := db.descriptions[id]] == db.descriptions;
      PutKeepsIndex(db, after, id, after.jobs[id], after.descriptions[id]);
    }
  }

  lemma ApplyKeepsIndex(db: Db, op: Op)
    requires IndexAgrees(db) && IdsIssued(db)
    ensures IndexAgrees(Apply(db, op)) && IdsIssued(Apply(db, op))
  {
    match op
    case Deliver(e) =>
      if Save(db, e).0 != db {
        JobForFinds(db.jobs, db.nextJob, e);
        StoredKeepsIndex(db, e, JobFor(db.jobs, db.nextJob, e));
      }
    case Fetch(f) => FetchKeepsIndex(db, f);
    case Parse(id, p) => ParseKeepsIndex(db, id, p);
    case Ready(id) => ReadyKeepsIndex(db, id);
  }

  /** Whichever writers ran, and whatever failed: the search index agrees with the tables. */
  lemma {:induction false} IndexAlwaysAgrees(db: Db, ops: seq<Op>)
    requires IndexAgrees(db) && IdsIssued(db)
    ensures IndexAgrees(Run(db, ops)) && IdsIssued(Run(db, ops))
    decreases |ops|
  {
    if ops == [] {
    } else {
      ApplyKeepsIndex(db, ops[0]);
      IndexAlwaysAgrees(Apply(db, ops[0]), ops[1..]);
    }
  }

  lemma PutKeepsKeys(db: Db, after: Db, id: nat, row: JobRow)
    requires KeysDisciplined(db) && after.jobs == db.jobs[id := row]
    requires forall j | j in db.jobs && j != id :: db.jobs[j].idempotencyKey != row.idempotencyKey
    requires row.sourceExternalKey.Some? ==> row.sourceExternalKey.value == row.idempotencyKey
    ensures KeysDisciplined(after)
  {
  }

  lemma StoredKeepsKeys(db: Db, e: Envelope, id: nat)
    requires KeysDisciplined(db) && KeysAgree(e)
    requires forall j | j in db.jobs && j != id :: !HasKey(db.jobs[j], ByIdempotencyKey(e.idempotencyKey))
    ensures KeysDisciplined(Stored(db, e, id))
  {
    KeyIsStoredWhole(e.payload);
    hide SourceExternalKey, NullIfEmpty, JobUrl;
    PutKeepsKeys(db, Stored(db, e, id), id, Stored(db, e, id).jobs[id]);
  }

  lemma NoClash(db: Db, e: Envelope, id: nat)
    requires KeysDisciplined(db) && KeysAgree(e)
    requires forall j | j in db.jobs && j != id :: !HasKey(db.jobs[j], ByIdempotencyKey(e.idempotencyKey))
    ensures !Clashes(db.jobs, id, e)
  {
    KeyIsStoredWhole(e.payload);
    hide SourceExternalKey, NullIfEmpty, JobUrl;
  }

  /** With agreeing keys a first delivery commits, and the key discipline holds after it. */
  lemma AgreeingSaveCommits(db: Db, e: Envelope)
    requires IdsIssued(db) && KeysDisciplined(db) && KeysAgree(e)
    ensures e.eventId !in db.events ==> Save(db, e).1.Ok? && Save(db, e).0.events.Keys == db.events.Keys + {e.eventId}
    ensures Save(db, e).1 != Err(UniqueViolation)
    ensures KeysDisciplined(Save(db, e).0)
  {
    if e.eventId !in db.events {
      var id := JobFor(db.jobs, db.nextJob, e);
      hide JobFor, Clashes, Stored, KeysDisciplined, KeysAgree, FirstWith;
      NoOtherHolds(db, e);
      NoClash(db, e, id);
      StoredKeepsKeys(db, e, id);
      StoredLogs(db, e, id);
    }
  }

  /** No other job than the one a discovery belongs to has its key. */
  lemma NoOtherHolds(db: Db, e: Envelope)
    requires IdsIssued(db) && KeysDisciplined(db)
    ensures forall j | j in db.jobs && j != JobFor(db.jobs, db.nextJob, e) ::
        !HasKey(db.jobs[j], ByIdempotencyKey(e.idempotencyKey))
  {
    JobForFinds(db.jobs, db.nextJob, e);
    hide JobFor, SourceExternalKey, JobUrl;
  }

  lemma StoredLogs(db: Db, e: Envelope, id: nat)
    ensures Stored(db, e, id).events == db.events[e.eventId := e]
  {
    hide RowOf, StatusOf, DescriptionOf;
  }

  /** No event logged, no job created, no key changed. */
  ghost predicate KeysKept(db: Db, after: Db) {
    && after.events == db.events && after.jobs.Keys == db.jobs.Keys
    && forall j | j in after.jobs ::
         && after.jobs[j].idempotencyKey == db.jobs[j].idempotencyKey
         && after.jobs[j].sourceExternalKey == db.jobs[j].sourceExternalKey
  }

  lemma FetchKeepsKeys(db: Db, f: Fetched)
    ensures KeysKept(db, UpdateFetched(db, f).0)
  {
    hide NullIfEmpty, DescriptionOf;
  }

  lemma ParseKeepsKeys(db: Db, id: nat, p: Parsed)
    ensures KeysKept(db, SaveParsed(db, id, p))
  {
    hide NullIfEmpty, RequirementsOf, Coalesce;
  }

  lemma ReadyKeepsKeys(db: Db, id: nat)
    ensures KeysKept(db, MarkReady(db, id))
  {
  }

  lemma WriteKeepsKeys(db: Db, op: Op)
    requires !op.Deliver?
    ensures KeysKept(db, Apply(db, op))
  {
    hide KeysKept, UpdateFetched, SaveParsed, MarkReady, Save;
    match op
    case Fetch(f) => FetchKeepsKeys(db, f);
    case Parse(id, p) => ParseKeepsKeys(db, id, p);
    case Ready(id) => ReadyKeepsKeys(db, id);
  }

  lemma OthersKeepKeys(db: Db, op: Op)
    requires KeysDisciplined(db) && !op.Deliver?
    ensures KeysDisciplined(Apply(db, op)) && Apply(db, op).events == db.events
  {
    hide Apply;
    WriteKeepsKeys(db, op);
  }

  lemma ApplyKeepsKeys(db: Db, op: Op)
    requires IndexAgrees(db) && IdsIssued(db) && KeysDisciplined(db) && Agreeing(op)
    ensures KeysDisciplined(Apply(db, op))
  {
    if op.Deliver? { AgreeingSaveCommits(db, op.e); } else { OthersKeepKeys(db, op); }
  }

  lemma {:induction false} KeysStayDisciplined(db: Db, ops: seq<Op>)
    requires IndexAgrees(db) && IdsIssued(db) && KeysDisciplined(db)
    requires forall op | op in ops :: Agreeing(op)
    ensures KeysDisciplined(Run(db, ops))
    decreases |ops|
  {
    if ops == [] {
    } else {
      ApplyKeepsIndex(db, ops[0]);
      ApplyKeepsKeys(db, ops[0]);
      KeysStayDisciplined(Apply(db, ops[0]), ops[1..]);
    }
  }

  /**
   The exact condition for a save never to break a UNIQUE constraint: an envelope whose keys agree
   is never refused after any run of agreeing deliveries and other writers, and one whose keys
   disagree is refused after some such run.
   */
  lemma NeverRefusedExactlyWhenKeysAgree(e: Envelope)
    ensures KeysAgree(e) <==>
            forall ops: seq<Op> | (forall op | op in ops :: Agreeing(op)) ::
              Save(Run(EMPTY, ops), e).1 != Err(UniqueViolation)
  {
    if KeysAgree(e) {
      forall ops: seq<Op> | forall op | op in ops :: Agreeing(op)
        ensures Save(Run(EMPTY, ops), e).1 != Err(UniqueViolation)
      {
        IndexAlwaysAgrees(EMPTY, ops);
        KeysStayDisciplined(EMPTY, ops);
        AgreeingSaveCommits(Run(EMPTY, ops), e);
      }
    } else {
      var ops := RefusingRun(e);
    }
  }

  lemma BlankUrls(job: Payload)
    requires job.applicationUrl == "" && job.sourceUrl == ""
    ensures JobUrl(job) == ""
  {
    TrimIdentity(Go, "");
  }

  lemma TwoDiscoveries(e: Envelope) returns (first: Envelope, second: Envelope)
    ensures first.eventId != e.eventId && second.eventId != e.eventId && second.eventId != first.eventId
    ensures JobUrl(first.payload) == "" && JobUrl(second.payload) == ""
    ensures first.idempotencyKey == e.idempotencyKey && SourceExternalKey(first.payload) == ""
    ensures second.idempotencyKey == SourceExternalKey(second.payload) == SourceExternalKey(e.payload)
  {
    first := e.(eventId := e.eventId + "1",
      payload := e.payload.(externalId := "", applicationUrl := "", sourceUrl := ""));
    second := e.(eventId := e.eventId + "2", idempotencyKey := SourceExternalKey(e.payload),
                 payload := e.payload.(applicationUrl := "", sourceUrl := ""));
    TrimIdentity(Go, "");
    BlankUrls(first.payload);
    BlankUrls(second.payload);
    assert |e.eventId| < |first.eventId| && |e.eventId| < |second.eventId|;
    assert second.eventId[|e.eventId|] != first.eventId[|e.eventId|];
  }

  lemma RunTwo(db: Db, a: Op, b: Op)
    ensures Run(db, [a, b]) == Apply(Apply(db, a), b)
  {
    hide Apply;
    assert [a, b][1..] == [b] && [b][1..] == [];
    assert Run(Apply(db, a), [b]) == Run(Apply(Apply(db, a), b), []);
  }

  /** Two agreeing discoveries, one under each of the envelope's two keys, make its own save fail. */
  lemma RefusingRun(e: Envelope) returns (ops: seq<Op>)
    requires !KeysAgree(e)
    ensures forall op | op in ops :: Agreeing(op)
    ensures Save(Run(EMPTY, ops), e).1 == Err(UniqueViolation)
  {
    hide Save, SourceExternalKey, NullIfEmpty, JobUrl;
    var first, second := TwoDiscoveries(e);
    ops := [Deliver(first), Deliver(second)];
    RunTwo(EMPTY, Deliver(first), Deliver(second));
    var one := Save(EMPTY, first).0;
    var two := Save(one, second).0;
    CreatesJob(EMPTY, first);
    CreatesJob(one, second);
    KeyIsStoredWhole(e.payload);
    Refused(two, e, 1, 2);
  }

  /** A discovery without URLs whose keys no row has creates a job. */
  lemma CreatesJob(db: Db, e: Envelope)
    requires IdsIssued(db) && KeysAgree(e) && JobUrl(e.payload) == "" && e.eventId !in db.events
    requires forall j | j in db.jobs ::
        db.jobs[j].idempotencyKey != e.idempotencyKey && db.jobs[j].sourceExternalKey.None?
    ensures var (after, id, external) := (Save(db, e).0, db.nextJob, SourceExternalKey(e.payload));
            && IdsIssued(after) && after.nextJob == id + 1
            && after.events.Keys == db.events.Keys + {e.eventId}
            && after.jobs.Keys == db.jobs.Keys + {id}
            && (forall j | j in db.jobs :: after.jobs[j] == db.jobs[j])
            && after.jobs[id].idempotencyKey == e.idempotencyKey
            && after.jobs[id].sourceExternalKey == if external == "" then None else Some(external)
  {
    hide JobFor, SourceExternalKey, NullIfEmpty, JobUrl;
    JobForFinds(db.jobs, db.nextJob, e);
    KeyIsStoredWhole(e.payload);
  }

  lemma Refused(db: Db, e: Envelope, i: nat, j: nat)
    requires IdsIssued(db) && e.eventId !in db.events && i in db.jobs && j in db.jobs && i != j
    requires forall k | k in db.jobs && k != i :: db.jobs[k].idempotencyKey != e.idempotencyKey
    requires HasKey(db.jobs[i], ByIdempotencyKey(e.idempotencyKey))
    requires NullIfEmpty(SourceExternalKey(e.payload)).Some?
        && db.jobs[j].sourceExternalKey == NullIfEmpty(SourceExternalKey(e.payload))
    ensures Save(db, e).1 == Err(UniqueViolation)
  {
    JobForFinds(db.jobs, db.nextJob, e);
    assert HasKey(db.jobs[j], BySourceExternalKey(NullIfEmpty(SourceExternalKey(e.payload)).value));
  }

  // ---- An overwritten key ---------------------------------------------------------------------

  /** A save takes a key away exactly when it lands in the one job that has it, and brings another key. */
  lemma KeyLostIff(db: Db, e: Envelope, id: nat)
    requires IdsIssued(db) && e.eventId !in db.events && id in db.jobs
    requires forall j | j in db.jobs && j != id :: db.jobs[j].idempotencyKey != db.jobs[id].idempotencyKey
    ensures var (key, result) := (db.jobs[id].idempotencyKey, Save(db, e).1);
            !Held(Save(db, e).0.jobs, ByIdempotencyKey(key))
            <==> result.Ok? && result.value.jobId == id && e.idempotencyKey != key
  {
    hide JobFor, Clashes, Stored;
    assert Save(db, e).1.Err? ==> Save(db, e).0 == db;
    hide Save, RightJob, HasKey;
    if Save(db, e).1.Ok? {
      SaveResolves(db, e);
      KeyGoneIff(db.jobs, Save(db, e).0.jobs, id, Save(db, e).1.value.jobId, e.idempotencyKey);
    } else {
      assert HasKey(db.jobs[id], ByIdempotencyKey(db.jobs[id].idempotencyKey));
    }
  }

  lemma KeyGoneIff(jobs: map<nat, JobRow>, after: map<nat, JobRow>, id: nat, saved: nat, key: string)
    requires id in jobs && after.Keys == jobs.Keys + {saved}
    requires forall j | j in jobs && j != id :: jobs[j].idempotencyKey != jobs[id].idempotencyKey
    requires forall j | j in jobs && j != saved :: after[j] == jobs[j]
    requires forall j | j in after :: HasKey(after[j], ByIdempotencyKey(key)) <==> j == saved
    ensures !Held(after, ByIdempotencyKey(jobs[id].idempotencyKey)) <==> saved == id && key != jobs[id].idempotencyKey
  {
    assert id in after && HasKey(after[saved], ByIdempotencyKey(key));
    if saved != id { assert HasKey(after[id], ByIdempotencyKey(jobs[id].idempotencyKey)); }
  }

  lemma RunThree(db: Db, a: Op, b: Op, c: Op)
    ensures Run(db, [a, b, c]) == Apply(Run(db, [a, b]), c)
  {
    hide Apply;
    var one, two := Apply(db, a), Apply(Apply(db, a), b);
    assert [a, b, c][1..] == [b, c] && [b, c][1..] == [c] && [c][1..] == [];
    assert Run(two, [c]) == Run(Apply(two, c), []);
    RunTwo(db, a, b);
  }

  /** The only job, with the keys of the envelope stored last. */
  ghost predicate OnlyJob(db: Db, e: Envelope) {
    && db.nextJob == 2 && db.jobs.Keys == {1} && db.jobs[1].idempotencyKey == e.idempotencyKey
    && db.jobs[1].sourceExternalKey == NullIfEmpty(SourceExternalKey(e.payload))
    && db.jobs[1].canonicalUrl == NullIfEmpty(JobUrl(e.payload))
  }

  /** The second discovery has the source and external id, or the URL, that the first one stored. */
  predicate FindsJobOf(e: Envelope, other: Envelope) {
    || (SourceExternalKey(other.payload) != "" && SourceExternalKey(other.payload) == SourceExternalKey(e.payload))
    || NullIfEmpty(JobUrl(e.payload)) == Some(JobUrl(other.payload))
  }

  lemma FirstJob(e: Envelope)
    ensures OnlyJob(Save(EMPTY, e).0, e) && Save(EMPTY, e).0.events.Keys == {e.eventId}
  {
    hide JobFor, SourceExternalKey, NullIfEmpty, JobUrl;
    JobForFinds(EMPTY.jobs, 1, e);
  }

  lemma SameJobAgain(db: Db, e: Envelope, other: Envelope)
    requires OnlyJob(db, e) && FindsJobOf(e, other) && other.eventId !in db.events
    ensures OnlyJob(Save(db, other).0, other) && Save(db, other).0.events.Keys == db.events.Keys + {other.eventId}
  {
    hide JobFor, SourceExternalKey, JobUrl;
    JobForFinds(db.jobs, 2, other);
    KeyIsStoredWhole(e.payload);
    hide NullIfEmpty;
    assert HasKey(db.jobs[1], BySourceExternalKey(SourceExternalKey(other.payload)))
        || HasKey(db.jobs[1], ByCanonicalUrl(JobUrl(other.payload)));
  }

  lemma OnlyJobRedelivered(db: Db, e: Envelope, last: Envelope)
    requires OnlyJob(db, last) && e.eventId in db.events
    ensures Save(db, e)
            == (db, if last.idempotencyKey == e.idempotencyKey then Ok(Saved(1, false)) else Err(NoJobForKey))
  {
    hide JobFor, SourceExternalKey, NullIfEmpty, JobUrl, Clashes, Stored;
    FirstWithFinds(db.jobs, 2, ByIdempotencyKey(e.idempotencyKey));
    assert HasKey(db.jobs[1], ByIdempotencyKey(last.idempotencyKey));
  }

  /**
   A discovery that finds the job by source and external id, or by URL, overwrites the key of the job
   with its own, and from then on a redelivery of the first event fails; once the old key is stored
   again, by a third event, the redelivery resolves again.
   */
  lemma RedeliveryFailsWhileOverwritten(e: Envelope, other: Envelope, again: Envelope)
    requires FindsJobOf(e, other) && FindsJobOf(other, again)
    requires e.idempotencyKey == again.idempotencyKey != other.idempotencyKey
    requires e.eventId != other.eventId && again.eventId !in {e.eventId, other.eventId}
    ensures var db := Run(EMPTY, [Deliver(e), Deliver(other)]);
            e.eventId in db.events && Save(db, e) == (db, Err(NoJobForKey))
    ensures var db := Run(EMPTY, [Deliver(e), Deliver(other), Deliver(again)]);
            e.eventId in db.events && Save(db, e) == (db, Ok(Saved(1, false)))
  {
    RunTwo(EMPTY, Deliver(e), Deliver(other));
    RunThree(EMPTY, Deliver(e), Deliver(other), Deliver(again));
    hide Run, Save, FindsJobOf, OnlyJob;
    var two := Save(Save(EMPTY, e).0, other).0;
    var three := Save(two, again).0;
    StoredOver(e, other);
    SameJobAgain(two, other, again);
    OnlyJobRedelivered(two, e, other);
    OnlyJobRedelivered(three, e, again);
  }

  lemma StoredOver(e: Envelope, other: Envelope)
    requires FindsJobOf(e, other) && e.eventId != other.eventId
    ensures var two := Save(Save(EMPTY, e).0, other).0;
            OnlyJob(two, other) && two.events.Keys == {e.eventId, other.eventId}
  {
    hide Save, FindsJobOf, OnlyJob;
    FirstJob(e);
    SameJobAgain(Save(EMPTY, e).0, e, other);
  }

  /** Agreeing envelopes are not spared: two of them for one URL, under different keys, are enough. */
  lemma AgreeingKeyOverwritten(e: Envelope, other: Envelope)
    requires KeysAgree(e) && KeysAgree(other) && e.idempotencyKey != other.idempotencyKey && e.eventId != other.eventId
    requires JobUrl(e.payload) == JobUrl(other.payload) == TrimSpace(JobUrl(e.payload)) != ""
    ensures var ops := [Deliver(e), Deliver(other)];
            var db := Run(EMPTY, ops);
            && (forall op | op in ops :: Agreeing(op)) && KeysDisciplined(db)
            && e.eventId in db.events && Save(db, e) == (db, Err(NoJobForKey))
  {
    hide Run, Save, OnlyJob, JobUrl, SourceExternalKey, KeysAgree;
    KeysStayDisciplined(EMPTY, [Deliver(e), Deliver(other)]);
    hide KeysDisciplined;
    RunTwo(EMPTY, Deliver(e), Deliver(other));
    StoredOver(e, other);
    OnlyJobRedelivered(Save(Save(EMPTY, e).0, other).0, e, other);
  }

  // ---- Redelivery -----------------------------------------------------------------------------

  /** The run with every delivery of an event id after its first one left out. */
  function FirstDeliveries(ops: seq<Op>, seen: set<string>): seq<Op> {
    if ops == [] then []
    else match ops[0]
      case Deliver(e) =>
        if e.eventId in seen then FirstDeliveries(ops[1..], seen)
        else [ops[0]] + FirstDeliveries(ops[1..], seen + {e.eventId})
      case _ => [ops[0]] + FirstDeliveries(ops[1..], seen)
  }

  /** Redelivering events, however often and whatever ran in between, changes nothing. */
  lemma {:induction false} RedeliveryChangesNothing(db: Db, ops: seq<Op>)
    requires IndexAgrees(db) && IdsIssued(db) && KeysDisciplined(db)
    requires forall op | op in ops :: Agreeing(op)
    ensures Run(db, ops) == Run(db, FirstDeliveries(ops, db.events.Keys))
    decreases |ops|
  {
    if ops == [] {
    } else {
      var op, next := ops[0], Apply(db, ops[0]);
      ApplyKeepsIndex(db, op);
      ApplyKeepsKeys(db, op);
      RedeliveryChangesNothing(next, ops[1..]);
      if op.Deliver? {
        AgreeingSaveCommits(db, op.e);
      } else {
        OthersKeepKeys(db, op);
      }
    }
  }
}
