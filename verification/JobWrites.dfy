/** What each writer leaves in a job's rows, column by column, and what becomes of them over whole runs. */
module JobWrites {
  import opened Wrappers
  import opened Text
  import opened Events
  import opened JobTables

  // ---- A discovery ----------------------------------------------------------------------------

  /** The row holds what the envelope says, and the URL that canonicalizes to something, its own first. */
  ghost predicate RowFrom(row: JobRow, e: Envelope) {
    var job := e.payload;
    && row.source == job.source && row.externalId == job.externalId && row.title == job.title
    && row.company == job.company && row.location == job.location && row.remotePolicy == job.remotePolicy
    && row.employmentType == job.employmentType && row.sourceUrl == job.sourceUrl
    && row.applicationUrl == job.applicationUrl && row.publishedAt == job.publishedAt
    && row.idempotencyKey == e.idempotencyKey
    && (job.discoveredAt.Some? ==> row.discoveredAt == job.discoveredAt.value)
    && (job.discoveredAt.None? ==> row.discoveredAt == e.occurredAt)
    && (AllSpace(Go, job.externalId) ==> row.sourceExternalKey.None?)
    && (!AllSpace(Go, job.externalId) ==>
          row.sourceExternalKey == Some(Normalize(job.source) + ":" + Normalize(job.externalId)))
    && (CanonicalUrl(job.applicationUrl) != "" ==> row.canonicalUrl == NullIfEmpty(CanonicalUrl(job.applicationUrl)))
    && (CanonicalUrl(job.applicationUrl) == "" ==> row.canonicalUrl == NullIfEmpty(CanonicalUrl(job.sourceUrl)))
  }

  /** A known job keeps its place in the pipeline; a new one starts as discovered. */
  ghost predicate ProgressKept(before: Db, after: Db, id: nat)
    requires id in after.jobs && id in after.descriptions
  {
    && after.jobs[id].status == (if id in before.jobs then before.jobs[id].status else "discovered")
    && var described := after.descriptions[id];
       if id in before.descriptions
       then var was := before.descriptions[id];
            described.rawHtml == was.rawHtml && described.fetchedAt == was.fetchedAt
              && described.metadata == was.metadata
       else described.rawHtml.None? && described.fetchedAt.None? && described.metadata.None?
  }

  lemma RowOfFrom(e: Envelope, status: string)
    ensures RowFrom(RowOf(e, status), e) && RowOf(e, status).status == status
  {
    KeyIsStoredWhole(e.payload);
    TrimIdentity(Go, e.payload.externalId);
    hide Trim, AllSpace, Normalize, NullIfEmpty;
  }

  /**
   A committed first delivery writes the job's columns from the envelope, and of the job's progress
   nothing: status, fetched page and parsed facts are as they were.
   */
  lemma DiscoveryWrites(db: Db, e: Envelope)
    requires e.eventId !in db.events && Save(db, e).1.Ok?
    ensures var (after, id) := (Save(db, e).0, Save(db, e).1.value.jobId);
            && id in after.jobs && id in after.descriptions
            && RowFrom(after.jobs[id], e)
            && ProgressKept(db, after, id)
            && after.descriptions[id].rawText == e.payload.description
            && after.descriptions[id].detectedSkills == e.payload.detectedSkills
            && after.requirements == db.requirements
            && (forall j | j in db.descriptions && j != id :: j in after.descriptions
                 && after.descriptions[j] == db.descriptions[j])
  {
    var id := JobFor(db.jobs, db.nextJob, e);
    RowOfFrom(e, StatusOf(db.jobs, id));
    hide JobFor, Clashes, RowOf, RowFrom;
  }

  /** However often known jobs are discovered again, none of them loses its place in the pipeline. */
  lemma {:induction false} RediscoveryKeepsProgress(db: Db, ops: seq<Op>, id: nat)
    requires IndexAgrees(db) && IdsIssued(db) && id in db.jobs && forall op | op in ops :: op.Deliver?
    ensures var after := Run(db, ops);
            && id in after.jobs && id in db.descriptions && id in after.descriptions && ProgressKept(db, after, id)
            && after.requirements == db.requirements
    decreases |ops|
  {
    if ops == [] {
    } else {
      var next := Apply(db, ops[0]);
      ApplyKeepsIndex(db, ops[0]);
      DeliveryKeepsProgress(db, ops[0].e, id);
      hide Save, Apply;
      RediscoveryKeepsProgress(next, ops[1..], id);
    }
  }

  lemma DeliveryKeepsProgress(db: Db, e: Envelope, id: nat)
    requires id in db.jobs && id in db.descriptions
    ensures var after := Save(db, e).0;
            && id in after.jobs && id in after.descriptions && ProgressKept(db, after, id)
            && after.requirements == db.requirements
  {
    if e.eventId !in db.events && Save(db, e).1.Ok? { DiscoveryWrites(db, e); }
    hide JobFor, Clashes, RowOf, RowFrom;
  }

  // ---- The other writers ----------------------------------------------------------------------

  /** A fetched description exists only for a job, and replaces text, page and index text together. */
  lemma FetchWrites(db: Db, f: Fetched)
    requires IndexAgrees(db)
    ensures var (after, id) := (UpdateFetched(db, f).0, f.jobId);
            && (UpdateFetched(db, f).1.Ok? <==> id in db.jobs)
            && (id !in db.jobs ==> after == db)
            && (id in db.jobs ==>
                  && after == db.(jobs := after.jobs, descriptions := after.descriptions, index := after.index)
                  && id in after.jobs && after.jobs == db.jobs[id := db.jobs[id].(status := "description_fetched")]
                  && id in after.descriptions && after.descriptions == db.descriptions[id := after.descriptions[id]]
                  && var (row, was) := (after.descriptions[id], db.descriptions[id]);
                     && row.rawText == f.rawText && row.fetchedAt == Some(f.fetchedAt)
                     && row.rawHtml == (if AllSpace(Go, f.rawHtml) then None else Some(TrimSpace(f.rawHtml)))
                     && row.detectedSkills == was.detectedSkills && row.metadata == was.metadata
                     && id in after.index && after.index[id] == db.index[id].(description := f.rawText)
                     && after.index == db.index[id := after.index[id]])
  {
    TrimIdentity(Go, f.rawHtml);
    hide Trim, AllSpace;
  }

  /** A text column of a parsed fact: blank is null. */
  ghost predicate Holds(column: Option<string>, fact: string) {
    column == if AllSpace(Go, fact) then None else Some(TrimSpace(fact))
  }

  lemma ColumnHolds(fact: string)
    ensures Holds(NullIfEmpty(fact), fact)
  {
    TrimIdentity(Go, fact);
  }

  /**
   Parsed facts are stored one by one, blank ones as null; a blank remote policy or employment type
   leaves the job's own; the text, the index and the event log are not touched.
   */
  lemma ParseWrites(db: Db, id: nat, p: Parsed)
    requires IndexAgrees(db) && id in db.jobs
    ensures var after := SaveParsed(db, id, p);
            && after == db.(jobs := after.jobs, descriptions := after.descriptions, requirements := after.requirements)
            && id in after.requirements && after.requirements == db.requirements[id := after.requirements[id]]
            && var row := after.requirements[id];
               && row.skills == p.skills && row.requirements == p.requirements
               && row.responsibilities == p.responsibilities
               && row.salaryMin == p.salaryMin && row.salaryMax == p.salaryMax
               && Holds(row.salaryCurrency, p.salaryCurrency) && Holds(row.salaryPeriod, p.salaryPeriod)
               && Holds(row.remotePolicy, p.remotePolicy) && Holds(row.seniority, p.seniority)
               && Holds(row.employmentType, p.employmentType)
  {
    ColumnHolds(p.salaryCurrency);
    ColumnHolds(p.salaryPeriod);
    ColumnHolds(p.remotePolicy);
    ColumnHolds(p.seniority);
    ColumnHolds(p.employmentType);
    hide NullIfEmpty, Holds;
  }

  lemma ParseWritesJob(db: Db, id: nat, p: Parsed)
    requires IndexAgrees(db) && id in db.jobs
    ensures var after := SaveParsed(db, id, p);
            && id in after.jobs && id in after.descriptions
            && after.descriptions == db.descriptions[id := db.descriptions[id].(metadata := Some(p))]
            && after.jobs == db.jobs[id := after.jobs[id]]
            && var (row, was) := (after.jobs[id], db.jobs[id]);
               && row == was.(status := "parsed", remotePolicy := row.remotePolicy,
                 employmentType := row.employmentType)
               && row.remotePolicy == (if AllSpace(Go, p.remotePolicy) then was.remotePolicy
                 else TrimSpace(p.remotePolicy))
               && row.employmentType
                  == if AllSpace(Go, p.employmentType) then was.employmentType else TrimSpace(p.employmentType)
  {
    TrimIdentity(Go, p.remotePolicy);
    TrimIdentity(Go, p.employmentType);
    hide Trim, AllSpace, RequirementsOf;
  }

  // ---- The status over a run ------------------------------------------------------------------

  /** The status a writer gives the job: a discovery gives none. */
  function StatusGiven(op: Op, id: nat): Option<string> {
    match op
    case Deliver(_) => None
    case Fetch(f) => if f.jobId == id then Some("description_fetched") else None
    case Parse(job, _) => if job == id then Some("parsed") else None
    case Ready(job) => if job == id then Some("ready_to_apply") else None
  }

  function LastGiven(ops: seq<Op>, id: nat, status: string): string
    decreases |ops|
  {
    if ops == [] then status
    else
      var given := StatusGiven(ops[0], id);
      LastGiven(ops[1..], id, if given.Some? then given.value else status)
  }

  lemma StatusAfterOne(db: Db, op: Op, id: nat)
    requires IndexAgrees(db) && id in db.jobs
    ensures id in Apply(db, op).jobs
    ensures Apply(db, op).jobs[id].status
         == if StatusGiven(op, id).Some? then StatusGiven(op, id).value else db.jobs[id].status
  {
    hide Save, UpdateFetched, SaveParsed;
    match op
    case Deliver(e) => DeliveryKeepsProgress(db, e, id);
    case Fetch(f) => FetchWrites(db, f);
    case Parse(job, p) => if job == id { ParseWritesJob(db, id, p); } else { ParseElsewhere(db, job, p, id); }
    case Ready(_) =>
  }

  lemma ParseElsewhere(db: Db, job: nat, p: Parsed, id: nat)
    requires id in db.jobs && id != job
    ensures id in SaveParsed(db, job, p).jobs && SaveParsed(db, job, p).jobs[id] == db.jobs[id]
  {
  }

  /** A job's status is the last one a fetch, a parse or a match gave it, whatever was discovered in between. */
  lemma {:induction false} StatusIsTheLastGiven(db: Db, ops: seq<Op>, id: nat)
    requires IndexAgrees(db) && IdsIssued(db) && id in db.jobs
    ensures id in Run(db, ops).jobs && Run(db, ops).jobs[id].status == LastGiven(ops, id, db.jobs[id].status)
    decreases |ops|
  {
    if ops == [] {
    } else {
      ApplyKeepsIndex(db, ops[0]);
      StatusAfterOne(db, ops[0], id);
      hide Apply;
      StatusIsTheLastGiven(Apply(db, ops[0]), ops[1..], id);
    }
  }
}
