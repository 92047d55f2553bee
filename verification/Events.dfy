/** Discovery events and the keys they are deduplicated by. */
module Events {
  import opened Wrappers
  import opened Text

  const JOB_DISCOVERED := "JobDiscovered"

  datatype Payload = Payload(
    source: string, externalId: string, title: string, company: string, location: string,
    remotePolicy: string, employmentType: string, sourceUrl: string, applicationUrl: string,
    description: string, detectedSkills: seq<string>,
    publishedAt: Option<int>, discoveredAt: Option<int>)

  datatype Envelope = Envelope(
    eventId: string, eventType: string, occurredAt: int, source: string,
    idempotencyKey: string, payload: Payload)

  // `StableID` hashes its parts and `canonicalJobURL` parses a URL: neither result can be seen here.
  type Digest = f: seq<string> -> string | forall parts :: f(parts) != "" witness _ => "0"
  type UrlForm = f: string -> string | forall s :: TrimSpace(s) == "" ==> f(s) == "" witness _ => ""
  const StableId: Digest
  const CanonicalUrl: UrlForm

  function JobIdempotencyKey(job: Payload): string {
    if job.externalId != "" then Normalize(job.source) + ":" + Normalize(job.externalId)
    else if job.applicationUrl != "" then Normalize(job.source) + ":" + Normalize(job.applicationUrl)
    else Normalize(job.source) + ":" + StableId(["job-fallback", job.company, job.title, job.location, job.sourceUrl])
  }

  function SourceExternalKey(job: Payload): string {
    if TrimSpace(job.externalId) == "" then ""
    else Normalize(job.source) + ":" + Normalize(job.externalId)
  }

  function JobUrl(job: Payload): string {
    var url := CanonicalUrl(job.applicationUrl);
    if url == "" then CanonicalUrl(job.sourceUrl) else url
  }

  /** The two keys a save writes are the same key, or it writes only one. */
  predicate KeysAgree(e: Envelope) {
    SourceExternalKey(e.payload) == "" || SourceExternalKey(e.payload) == e.idempotencyKey
  }

  /** The dispatcher fills in a missing payload source from the envelope, after the key was computed. */
  function WithSource(e: Envelope): Envelope {
    if e.payload.source == "" then e.(payload := e.payload.(source := e.source)) else e
  }

  /** `nullIfEmpty` stores a source/external key unchanged. */
  lemma KeyIsStoredWhole(job: Payload)
    ensures NullIfEmpty(SourceExternalKey(job)) ==
            if SourceExternalKey(job) == "" then None else Some(SourceExternalKey(job))
  {
    NormalizeShape(job.source);
    NormalizeShape(job.externalId);
    FoldProperties(Go, ':');
    TrimIdentity(Go, SourceExternalKey(job));
  }

  /**
   An envelope keyed by `JobIdempotencyKey` reaches the store with agreeing keys exactly when its
   payload names a source, or the source filled in is blank, or it has no external id.
   */
  lemma DiscoveredKeysAgree(e: Envelope)
    requires e.idempotencyKey == JobIdempotencyKey(e.payload)
    ensures KeysAgree(WithSource(e)) <==>
            e.payload.source != "" || TrimSpace(e.source) == "" || TrimSpace(e.payload.externalId) == ""
  {
    NormalizeShape(e.source);
    NormalizeShape(e.payload.externalId);
    TrimIdentity(Go, "");
    if e.payload.source == "" && TrimSpace(e.payload.externalId) != "" {
      assert Normalize("") == "";
      assert |SourceExternalKey(WithSource(e).payload)| == |Normalize(e.source)| + |e.idempotencyKey|;
      if TrimSpace(e.source) == "" {
        assert Normalize(e.source) + ":" == "" + ":";
      }
    }
  }

  /** Filling in the source changes nothing else, and no source that is there. */
  lemma SourceFilledIn(e: Envelope)
    ensures WithSource(e) == e.(payload := e.payload.(source := WithSource(e).payload.source))
    ensures WithSource(e).payload.source == if e.payload.source == "" then e.source else e.payload.source
  {
  }

  /** What a discovery is recognised by, within its source: the first of these that it has. */
  datatype Identity = ExternalId(id: string) | Posting(url: string) | Content(parts: seq<string>)

  ghost predicate IdentifiedBy(job: Payload, i: Identity) {
    match i
    case ExternalId(id) => job.externalId != "" && id == Normalize(job.externalId)
    case Posting(url) => job.externalId == "" && job.applicationUrl != "" && url == Normalize(job.applicationUrl)
    case Content(parts) =>
      job.externalId == job.applicationUrl == ""
      && parts == ["job-fallback", job.company, job.title, job.location, job.sourceUrl]
  }

  lemma SamePrefix(prefix: string, a: string, b: string)
    ensures prefix + a == prefix + b ==> a == b
  {
    assert (prefix + a)[|prefix|..] == a && (prefix + b)[|prefix|..] == b;
  }

  /**
   Discoveries of one source that are recognised alike have the same key, and two that have external
   ids, or two that have only URLs, have the same key only if these are equal up to padding and case.
   */
  lemma KeyFollowsIdentity(a: Payload, b: Payload, i: Identity, j: Identity)
    requires Normalize(a.source) == Normalize(b.source) && IdentifiedBy(a, i) && IdentifiedBy(b, j)
    ensures i == j ==> JobIdempotencyKey(a) == JobIdempotencyKey(b)
    ensures (i.ExternalId? && j.ExternalId?) || (i.Posting? && j.Posting?) ==>
              (JobIdempotencyKey(a) == JobIdempotencyKey(b) <==> i == j)
  {
    hide Normalize;
    var prefix := Normalize(a.source) + ":";
    if (i.ExternalId? && j.ExternalId?) || (i.Posting? && j.Posting?) {
      SamePrefix(prefix, if i.ExternalId? then i.id else i.url, if j.ExternalId? then j.id else j.url);
    }
  }
}
