# Hedhuntr: verified model

Hedhuntr moves a job posting from discovery to application over one SQLite store and a message stream.
This project models the parts of it that must hold over every run and every input, and proves them in
Dafny 4.11. `dafny verify dfyconfig.toml` checks everything.

| part | files |
|---|---|
| text: trimming, case, order of strings; rows of a table; finite sets | `Text.dfy`, `StringOrder.dfy`, `StableOrder.dfy`, `Tables.dfy`, `Sets.dfy` |
| job ingestion: the three-key save, the search index, redelivery | `Events.dfy`, `JobTables.dfy`, `JobStore.dfy`, `JobWrites.dfy` |
| the dispatcher: commit, publish, acknowledge, crash | `Dispatcher.dfy`, `Announcements.dfy`, `Redelivery.dfy` |
| approval and automation runs, the automation worker | `AutomationTables.dfy`, `AutomationStore.dfy`, `AutomationWorker.dfy`, `Automation.dfy`, `AutomationHistory.dfy`, `AutomationRows.dfy`, `AutomationReviews.dfy`, `AutomationPacket.dfy`, `AutomationSubmissions.dfy`, `AutomationLimits.dfy` |
| the scheduler | `SchedulerTables.dfy`, `Scheduler.dfy`, `SchedulerHistory.dfy`, `SchedulerLaws.dfy` |
| the résumé tuner and the review screen that reads it back | `Tuner.dfy`, `SkillScores.dfy`, `Resume.dfy`, `ResumeLines.dfy` |
| skill extraction and matching | `SkillParser.dfy`, `SkillTokens.dfy`, `Matcher.dfy`, `MatchRules.dfy` |
| candidate profiles | `ProfileTables.dfy`, `ProfileStore.dfy`, `ProfileHistory.dfy` |
| the WebSocket hub | `Hub.dfy`, `HubHistory.dfy` |

**How it is built.** A stateful component is a class whose methods change its tables in place
(`JobStore.Store`, `AutomationStore.Store`, `Scheduler.Store`, `ProfileStore.Store`, `Hub.ClientHub`,
`Dispatcher.Service`, `AutomationWorker.Worker`). Each method is proved equal to a function on table
values (`Save`, `Approve`, `Begin`, ...), and the promises are proved about those functions: what each
writes, column by column and in the constants of the source (`JobWrites`, `AutomationRows`,
`AutomationReviews`, `SchedulerLaws`, `MatchRules`, `ResumeLines`), and what follows over runs. Runs are
sequences of steps: `After(steps)` folds a step function over the sequence, a step that is not
possible changes nothing, and the theorems quantify over all sequences, so over every interleaving,
crash and redelivery. SQL transactions, and statements outside a transaction, are single steps.
Lemmas named `Uninterrupted...` connect the step machines with the methods that run without
interruption.

**What the inputs are.** Clocks, query row orders, message contents, outcomes of browser launches and
of source producers are parameters. The Unicode tables (`Text.GoFold`, `Text.BrowserFold`,
`SkillParser.Folds`), float64 rounding (`Matcher.Round`), SHA-256 (`Events.StableId`) and
`canonicalJobURL` (`Events.CanonicalUrl`) are unspecified constants of a type that states the little
the proofs need; every result holds for any of them.

## What the code does not promise

The model does what the code does, so these are limits of the code, each with a witness or its exact condition.

- A save can break a UNIQUE constraint. The dispatcher fills a missing `payload.source` after the
  producer computed the idempotency key, so the two stored keys may differ. `Save` is never refused
  exactly when they agree (`JobTables.NeverRefusedExactlyWhenKeysAgree`), and `Events.DiscoveredKeysAgree`
  says which envelopes those are.
- A redelivered event fails while no row has its key: `findJobIDByIdempotencyKey` wraps
  `sql.ErrNoRows`, which the caller then does not recognise (`JobTables.RedeliveryResolves`). A save takes
  a key away exactly when it lands in the job that has it and brings another one (`JobTables.KeyLostIff`).
  Envelopes with agreeing keys do that too, when two of them name one URL
  (`JobTables.AgreeingKeyOverwritten`); `JobTables.RedeliveryFailsWhileOverwritten` has the runs in which a
  redelivery fails and later resolves again. So a logged discovery may be stranded
  (`Redelivery.MayBeStranded`): without a new event it can be acknowledged exactly while some row has its
  key or some worker has committed it (`Redelivery.AcknowledgeableIff`). No job id of 0 is ever published.
- The packet of a run is called approved in the repository's own README, line 489, but loading it checks
  no status again: a resume rejected after the approval is still loaded (`AutomationLimits.PacketMayBeRejected`,
  exact condition `AutomationPacket.PacketApprovedIffNotRevoked`). Approving again while a run is active
  selects materials the run does not carry (`AutomationLimits.ApprovalMayKeepAnotherResume`). The two agree
  exactly when no run was active or the last resume and cover letter of the rows are the run's
  (`AutomationPacket.ApprovalAgreesWithItsRun`); since the query names no order, they agree in every order
  exactly when the application has no other ones (`AutomationPacket.ApprovalAgreesInEveryOrder`).
- The approval call loads its packet after its transaction. Whatever runs between, both loads succeed with
  materials of the application (`AutomationPacket.PacketLoadsAfterApproval`), but the packet may hold a later
  approval's selection (`AutomationLimits.PacketMayHoldALaterSelection`).
- `MarkAutomationReviewRequired` accepts a run that was never started (`AutomationHistory.ReviewKeepsStartKnown`);
  no worker uses it that way.
- `MarkAutomationFailed` has no guard: a submitted run stays submitted through every step but one that
  fails it (`AutomationHistory.SubmittedStaysUnlessFailed`), and may fail (`AutomationLimits.SubmittedMayFail`).
- An application can be submitted twice, by two of its runs. Without a further retry or approval it can be
  submitted, again or for the first time, exactly while one of its runs is active, which is the query an approval makes
  (`AutomationSubmissions.SubmitsQuietlyIffActive`, `AutomationSubmissions.SecondQuietlyIffActive`). Where
  none is active, exactly a retry or an approval that passes its gate makes one active
  (`AutomationSubmissions.BecomesActiveIff`). The gate lets an application pass that has been submitted but
  does not count as such. It starts to count with the second update of a mark-submitted call
  (`AutomationHistory.NewlySubmittedApplication`) and stops with a new match or an interview
  (`AutomationHistory.SubmittedApplicationStaysUnlessReopened`). Both ways are reached: by a retry after any
  history (`AutomationLimits.SubmittedAgain`), and by an approval between the two updates of the first call,
  with no retry at all (`AutomationLimits.SubmittedAgainByApproval`).
- `CreateApplicationMaterial` selects and then writes. It is refused exactly when the trimmed event has a
  draft at the write that the select did not find (`AutomationHistory.DraftCallRefusedIff`): because it
  looked for a padded id (`AutomationLimits.PaddedDraftIsRefused`), or because another call had not written
  it yet (`AutomationLimits.OverlappingDraftIsRefused`).
- Loading a profile makes six queries outside a transaction. Each part is the one the profile had when its
  query ran (`ProfileHistory.LoadTakesEachPart`), so a save between two of them gives a profile that was
  never saved (`ProfileHistory.LoadMayBeTorn`), and a load no write of that profile interrupts gives the
  profile kept (`ProfileHistory.UndisturbedLoad`).
- A configured interval of a second or more with a fraction is not kept, and one below a second makes
  the source run once only (`SchedulerHistory.SpacedByConfigurationIff`; `SchedulerHistory.RunsAreSpaced`
  holds for every gap when the stored interval is 0).
- A connection can be acknowledged only while fewer than 16 matching broadcasts have reached it
  (`HubHistory.AcknowledgedIffFewEarly`); after that it is a member for ever, never served and never
  removed (`HubHistory.StuckForever`, reached in `HubHistory.StuckIsReachable`). The acknowledgement is
  the first message only if no matching broadcast came before it (`HubHistory.AckFirstIffNothingEarly`,
  `HubHistory.AckMayComeSecond`).
- The review screen loses the skills of a resume whose headline reads as the section's heading, and
  any skill that keeps white space the browser trims, such as U+FEFF (`Resume.SkillsRoundTrip`,
  `Resume.HeadlineHidesSkills`, `Resume.ByteOrderMarkIsLost`).
- A spelling "golang" or "node" in padding would be shown under another key than it is collected
  under (`SkillParser.DisplayHasItsKey`); `New` keeps no such spelling.

## Model

| member | source | states |
|---|---|---|
| `Text.TrimWindow` | internal/resumetuner/tuner.go:354-370 | trimming cuts exactly the window between the first and last character that is not white space |
| `Text.SpacesListed` | src/App.tsx:574-583 | the white space of both dialects character by character; they differ on U+0085 and U+FEFF only |
| `Text.TrimPadded` | src/App.tsx:574-583 | white space around a trimmed text goes away and nothing else does, for Go and for the browser |
| `Text.TrimIdentity` | internal/store/store.go:306-312 | trimming changes nothing exactly on trimmed texts, its result is trimmed, and it is empty exactly for all-blank texts |
| `Text.TrimLower` | internal/events/events.go:364-366 | trimming and lower-casing commute |
| `Text.ContainsTrim` | internal/resumetuner/tuner.go:343-352 | a trimmed non-empty needle is in a text exactly when it is in the trimmed text |
| `Tables.FirstRow` | internal/store/store.go:126-141 | the lookup returns the least wanted id, and none only when no row is wanted |
| `StringOrder.SortStringsSpec` | internal/matcher/matcher.go:68-69 | the reference sort orders the strings and keeps each as often as it occurred |
| `StringOrder.SortedUnique` | internal/parser/parser.go:92-96 | sorted lists of the same strings are equal, so map iteration order cannot be seen in a sorted result |
| `StableOrder.StableSortSpec` | internal/resumetuner/tuner.go:264-266 | the reference stable sort is descending, a permutation, and keeps the order inside every score |
| `StableOrder.StableOrderUnique` | internal/resumetuner/tuner.go:264-266 | descending order and the order inside each score leave only one sequence |
| `StableOrder.SortIsTheStableOrder` | internal/resumetuner/tuner.go:264-266 | whatever is descending and keeps the order inside each score is the stable sort |
| `StableOrder.TiesKeepTheirOrder` | internal/resumetuner/tuner.go:264-266 | elements of one score stand in the sorted sequence in the order they stood in before |
| `StableOrder.SliceStable` | internal/resumetuner/tuner.go:264-266 | sorting the array in place leaves the stable sort of what it held |
| `Tuner.OrderedUnique` | internal/resumetuner/tuner.go:354-370 | the loop over the seen map computes the deduplication whose meaning DistinctSpec gives |
| `Tuner.DistinctSpec` | internal/resumetuner/tuner.go:354-370 | the first spelling of every non-blank key, once, trimmed; deduplicating again changes nothing |
| `Tuner.UnseenKeepsOrder` | internal/resumetuner/tuner.go:354-370 | what is kept stands in the order of the values it was kept from |
| `Tuner.SortThenDistinct` | internal/resumetuner/tuner.go:256-269 | sorting then deduplicating equals deduplicating then sorting, for scores blind to padding and case |
| `Tuner.ScoreText` | internal/resumetuner/tuner.go:343-352 | the loop counts the skills found in the text ignoring case |
| `SkillScores.ScoreCountsNamed` | internal/resumetuner/tuner.go:343-352 | the score of a text is the number of skills that stand in it ignoring case |
| `Tuner.TrimKeepsScore` | internal/resumetuner/tuner.go:343-352 | trimming a text never changes its score when skills are trimmed and non-empty |
| `Tuner.ScoreIgnoresPaddingAndCase` | internal/resumetuner/tuner.go:343-352 | texts equal up to padding and case have the same score |
| `Tuner.PaddedSkillBreaksScore` | internal/resumetuner/tuner.go:343-352 | a padded skill makes trimming change a score, so the premise is needed |
| `Tuner.Set` | internal/resumetuner/tuner.go:372-378 | the set of normalized values |
| `Tuner.PrioritizeSkills` | internal/resumetuner/tuner.go:328-341 | the same skills, those with a matched key before all others and both groups in job order; two passes equal to a stable sort, whose final deduplication changes nothing |
| `Tuner.PriorityOrder` | internal/resumetuner/tuner.go:328-341 | the stable sort by membership keeps the skills, has every matched one first and keeps the job's order among the matched and among the others |
| `Tuner.PartitionIsStableSort` | internal/resumetuner/tuner.go:328-341 | matched then unmatched in order is the stable sort by being matched |
| `Tuner.SelectHighlights` | internal/resumetuner/tuner.go:256-269 | collecting, sorting in place, deduplicating and cutting gives the first max of the ranking |
| `Tuner.TopHighlights` | internal/resumetuner/tuner.go:256-269 | true top-k: stored highlights in first spelling, distinct ignoring case, non-increasing score, none left out above one kept |
| `SkillScores.StoredItemByItem` | internal/resumetuner/tuner.go:257-263 | the candidates are all highlights of the work history, item by item, and then all those of the projects |
| `Tuner.Ranked` | internal/resumetuner/tuner.go:271-308 | a sorted copy with every item kept, ties in stored order |
| `Tuner.RankedWorkHistory` | internal/resumetuner/tuner.go:271-282 | work history by the skill score of its joined fields, best first, none lost, ties in stored order |
| `Tuner.RankedProjects` | internal/resumetuner/tuner.go:284-295 | the same for projects and their joined fields |
| `Tuner.RankedCertifications` | internal/resumetuner/tuner.go:297-308 | the same for certifications and their joined fields |
| `SkillScores.WorkNames` | internal/resumetuner/tuner.go:310-315 | a one-word skill counts for a work item if and only if its company, title, location, summary, a highlight or a technology names it |
| `SkillScores.ProjectNames` | internal/resumetuner/tuner.go:317-322 | the same for a project's name, role, address, summary, highlights and technologies |
| `SkillScores.CertificationNames` | internal/resumetuner/tuner.go:324-326 | the same for a certification's name, issuer and address |
| `Resume.Buffer.WriteLine` | internal/resumetuner/tuner.go:380-382 | appends exactly the line and a newline to the buffer |
| `Resume.WriteIdentity` | internal/resumetuner/tuner.go:39-52 | prints name, headline and links as the opening lines |
| `Resume.WriteTarget` | internal/resumetuner/tuner.go:54-61 | prints the target role section |
| `Resume.WriteSkills` | internal/resumetuner/tuner.go:63-73 | prints the priority skills, or the profile's when there are none |
| `Resume.WriteHighlights` | internal/resumetuner/tuner.go:75-83 | prints the highlights, or the placeholder when there are none |
| `Resume.Tune` | internal/resumetuner/tuner.go:28-83 | the printed resume is the trimmed document followed by whatever the later sections print |
| `ResumeLines.IdentityLines` | internal/resumetuner/tuner.go:39-52 | the résumé opens with the name, and prints headline and links when there are any |
| `ResumeLines.LinkShown` | internal/resumetuner/tuner.go:45-52 | every link stands in the links line, its caption before its address |
| `ResumeLines.TargetLines` | internal/resumetuner/tuner.go:54-61 | it prints the job title at the company, the location when there is one, and the match score |
| `ResumeLines.DigitsReadBack` | internal/resumetuner/tuner.go:61 | the printed score reads back as the number |
| `ResumeLines.PrintedInOrder` | internal/resumetuner/tuner.go:32-73 | the printed skills are the job's, each once, those the candidate has before all others and both groups in job order; the profile's own exactly when the job names none |
| `ResumeLines.PrintedHighlights` | internal/resumetuner/tuner.go:29-83 | at most the wanted number of stored highlights, six by default, best first, none left out above one printed; the placeholder when none is stored |
| `Resume.FindHeading` | src/App.tsx:574-577 | the first line that is the section's heading, ignoring padding and case, with none before it |
| `Resume.CollectBullets` | src/App.tsx:577-582 | the bullets up to the next heading, in order |
| `Resume.ExtractSectionBullets` | src/App.tsx:574-583 | the bullets of the first such section, nothing without one |
| `Resume.ShownSkills` | src/App.tsx:421-436 | what the review screen shows of printed one-line skills, whatever follows them |
| `Resume.SkillsRoundTrip` | src/App.tsx:574-583 | the screen shows exactly the printed skills in order if and only if the headline is not that heading and every skill is readable |
| `Resume.HeadlineHidesSkills` | internal/resumetuner/tuner.go:41-44 | a headline reading as the heading hides every skill |
| `Resume.ByteOrderMarkIsLost` | src/App.tsx:574-583 | a job skill ending in U+FEFF is not read back |
| `Events.KeyIsStoredWhole` | internal/store/store.go:306-312 | `nullIfEmpty` stores a source/external key unchanged |
| `Events.SourceFilledIn` | internal/dispatcher/service.go:155-157 | a missing source is filled in from the envelope and nothing else changes |
| `Events.KeyFollowsIdentity` | internal/events/events.go:341-353 | discoveries of one source recognised alike have one key; two with external ids, or two with only addresses, have one key only if these agree up to padding and case |
| `Events.DiscoveredKeysAgree` | internal/dispatcher/service.go:155-157 | a discovery keyed by `JobIdempotencyKey` reaches the store with agreeing keys exactly when it names a source, or the filled-in source or the external id is blank |
| `JobTables.SaveResolves` | internal/store/store.go:116-226 | a first delivery is stored in the job the three keys point to, which afterwards alone holds its key and text; others are untouched; created exactly when there was none |
| `JobWrites.DiscoveryWrites` | internal/store/store.go:116-249 | a committed first delivery writes every column of the job from the envelope, but a known job keeps its status, fetched page and parsed facts, and a new one is discovered |
| `JobWrites.RediscoveryKeepsProgress` | internal/store/store.go:147-181 | after any number of deliveries a known job has its status, fetched page, parsed facts and requirements still |
| `JobWrites.StatusIsTheLastGiven` | internal/store/store.go:147-181 | over any run a job's status is the last one a fetch, a parse or a match gave it |
| `JobWrites.FetchWrites` | internal/store/descriptions.go:51-115 | a fetch stores its text, page and time and the text in the index, for an existing job only, and keeps skills and parsed facts |
| `JobWrites.ParseWrites` | internal/store/parsed_jobs.go:56-167 | each parsed fact is in its own column, blank ones null |
| `JobWrites.ParseWritesJob` | internal/store/parsed_jobs.go:56-167 | the job becomes parsed; a blank remote policy or employment type leaves its own |
| `JobTables.RedeliveryResolves` | internal/store/store.go:52-60 | a logged event changes nothing and resolves exactly when some row still has its key, to such a row and not as created; right after its commit, to the same job |
| `JobTables.RedeliveryFailsWhileOverwritten` | internal/store/store.go:52-60 | another event that finds the same job by source and external id, or by URL, under another key makes the redelivery of the first fail; a third one with the old key makes it resolve again |
| `JobTables.KeyLostIff` | internal/store/store.go:143-226 | a save takes a key away from the tables if and only if it commits to the one job that has it, under another key |
| `JobTables.AgreeingKeyOverwritten` | internal/store/store.go:52-60 | two discoveries with agreeing keys and one canonical URL keep the row invariant and yet make the redelivery of the first fail |
| `JobTables.IndexAlwaysAgrees` | internal/store/store.go:97-113 | after any run of the writers jobs, descriptions and index have the same ids and each index row equals its job's fields and text |
| `JobTables.AgreeingSaveCommits` | internal/store/migrations.go:38-49 | with agreeing keys a first delivery commits and every row's second key is null or equals its first |
| `JobTables.KeysStayDisciplined` | internal/store/store.go:116-226 | that row invariant holds after any run of agreeing deliveries and other writers |
| `JobTables.NeverRefusedExactlyWhenKeysAgree` | internal/store/migrations.go:38-49 | an envelope is never refused by a UNIQUE key after any such run if and only if its keys agree |
| `JobTables.RefusingRun` | internal/store/store.go:116-226 | the two agreeing discoveries after which a disagreeing envelope is refused |
| `JobTables.RedeliveryChangesNothing` | internal/store/store.go:45-60 | any run with redeliveries leaves the tables of the run with first deliveries only |
| `JobStore.Store.FindExisting` | internal/store/store.go:126-141 | the three lookups in order find the job the save overwrites |
| `JobStore.Store.UpsertJob` | internal/store/store.go:116-226 | updates or inserts the row, or reports the UNIQUE violation |
| `JobStore.Store.SaveDiscoveredJob` | internal/store/store.go:45-114 | the whole transaction equals `Save`: all of event, job, description and index, or nothing |
| `JobStore.Store.UpdateFetchedDescription` | internal/store/descriptions.go:51-115 | description, status and index row change together, or nothing does |
| `JobStore.Store.SaveParsedJob` | internal/store/parsed_jobs.go:56-167 | parsed facts go to requirements, description and job, blank ones as null; the index stays |
| `JobStore.Store.MarkJobReady` | internal/store/matching.go:248-252 | only the job's status changes |
| `Dispatcher.Service.Publish` | internal/dispatcher/service.go:206-218 | a publish appends, or finds an earlier message with its id, or fails before or after reaching the stream |
| `Dispatcher.MsgIdIsTheNews` | internal/events/events.go:191-220 | two messages have one message id if and only if they are of one kind, about one job, from one source up to padding and case, and alike in created |
| `Dispatcher.PublishedSpec` | internal/dispatcher/service.go:206-218 | after a publish the stream says the message; it is added exactly when nothing there said the same |
| `Dispatcher.Service.ProcessMessage` | internal/dispatcher/service.go:147-204 | commit, then jobs.saved, then a fetch request for a blank description; success only when each of them succeeded |
| `Dispatcher.UninterruptedWorker` | internal/dispatcher/service.go:121-138 | the steps of one worker, with nothing in between, do what `ProcessMessage` does, whatever becomes of its publishes, and acknowledge exactly on success |
| `Dispatcher.NoMessageNamesAMissingJob` | internal/dispatcher/service.go:164-192 | under any interleaving, crash and redelivery every published message names a stored job |
| `Dispatcher.AckedIsDelivered` | internal/dispatcher/service.go:121-204 | every acknowledged discovery was resolved by a commit to a job that is there and is in the event log; the stream holds a jobs.saved naming that job and the discovery's source, and a fetch request naming it when the description was blank |
| `Announcements.StreamNeverRepeats` | internal/dispatcher/service.go:206-218 | under any interleaving, crash and redelivery the stream never says the same twice |
| `Announcements.StreamIsBacked` | internal/dispatcher/service.go:164-192 | every jobs.saved comes from a commit that resolved a received discovery to that job, created or not as it says; every fetch request from one without a description |
| `Announcements.HandledIff` | internal/dispatcher/service.go:147-204 | handling succeeds if and only if the message is a discovery, its save commits and each message due was accepted; a failed save leaves tables and stream |
| `Redelivery.TablesAlwaysAgree` | internal/store/store.go:97-113 | jobs, descriptions and index agree after every interleaving of the dispatcher with the other writers |
| `Redelivery.AcknowledgeableIff` | internal/dispatcher/service.go:121-204 | an unacknowledged discovery in the event log is acknowledged in some continuation without a new event if and only if some row has its key or some worker has committed it |
| `Redelivery.StaysStranded` | internal/store/store.go:52-60 | a logged discovery whose key no row has, held by no worker past its commit, stays so until a new event is logged |
| `Redelivery.MayBeStranded` | internal/dispatcher/service.go:121-204 | two discoveries of one job under two keys reach that state |
| `AutomationTables.ApplicationFor` | internal/store/matching.go:231-239 | the job's application, or none when it has none |
| `AutomationTables.MaterialFor` | internal/store/resumes.go:124-132 | the oldest draft with that application, kind and event, or none when there is none |
| `AutomationTables.ActiveRun` | internal/store/automation.go:97-103 | the newest active run of the application, or none when there is none |
| `AutomationStore.Store.MarkApplicationReady` | internal/store/matching.go:230-256 | inserts the application or renews it, keeping its selections |
| `AutomationRows.MatchWrites` | internal/store/matching.go:230-256 | the job's one application gets profile, score and ready; a known one keeps its selections, a new one has none |
| `AutomationStore.Store.FindDraft` | internal/store/resumes.go:124-132 | the select of a draft, for the event id as it was given |
| `AutomationStore.Store.SaveDraft` | internal/store/resumes.go:133-170 | updates the draft found, or inserts one under the trimmed event id, or is refused |
| `AutomationStore.Store.CreateApplicationMaterial` | internal/store/resumes.go:118-170 | the select and then the write, with nothing running between; any other interleaving is `AutomationHistory.DraftCallRefusedIff` |
| `AutomationReviews.InsertStores` | internal/store/resumes.go:150-166 | an accepted insert adds one material with the ids, kind, document, notes and status given, draft when none was |
| `AutomationReviews.InsertRefusedIff` | internal/store/resumes.go:150-163 | it is refused if and only if the application has a material of the kind for the trimmed event |
| `AutomationReviews.SelectFindsIff` | internal/store/resumes.go:122-134 | the select finds a draft if and only if there is one for the event as given |
| `AutomationReviews.RewriteStores` | internal/store/resumes.go:136-148 | the update writes document, status and notes and keeps what identifies the material |
| `AutomationStore.Store.UpdateApplicationMaterialStatus` | internal/store/review.go:121-147 | rejects unsupported statuses and missing rows, writes status and notes only |
| `AutomationReviews.ReviewStores` | internal/store/review.go:121-147 | accepted for an existing material and one of five words exactly; writes status and notes |
| `AutomationReviews.StatusWasWritten` | internal/store/review.go:121-147 | in every history a material's status is a word that some insert, update or review wrote to it |
| `AutomationReviews.NoRunWithoutReview` | internal/resumetuningworker/service.go:193-201 | when drafts are not written as approved, as the worker does not, every run has a resume and cover letter that a review approved, before an approval of its application |
| `AutomationStore.Store.ApprovedMaterialIds` | internal/store/automation.go:516-551 | the loop stops at the first unapproved row and keeps the last resume and cover letter |
| `AutomationStore.Store.ApproveApplicationForAutomation` | internal/store/automation.go:81-152 | the approval transaction, then the packet and the run, whose failure undoes nothing; with nothing running between, other interleavings are `AutomationPacket.PacketLoadsAfterApproval` |
| `AutomationStore.Store.ApproveInTransaction` | internal/store/automation.go:82-141 | gate, reuse of an active run or insert, and selection, all or nothing |
| `AutomationRows.ApprovalWrites` | internal/store/automation.go:82-141 | a passed approval finds every material approved, marks the application and selects its own resume and cover letter; it returns the newest active run as it was, or a new requested one of the application's job and profile with the selection |
| `AutomationStore.Store.StartAutomationRun` | internal/store/automation.go:277-295 | requested or started becomes started, the first start time stays |
| `AutomationStore.Store.MarkAutomationReviewRequired` | internal/store/automation.go:297-316 | an active run waits for review with its final address |
| `AutomationStore.Store.MarkAutomationFailed` | internal/store/automation.go:318-330 | any run becomes failed with its error |
| `AutomationStore.Store.MarkAutomationSubmitted` | internal/store/automation.go:332-363 | a started or reviewed run and then its application become submitted |
| `AutomationStore.Store.RetryAutomationRun` | internal/store/automation.go:365-387 | a new requested run with the ids of the one read |
| `AutomationRows.TransitionsAccept` | internal/store/automation.go:277-350 | which statuses each transition accepts, in both directions; a refusal changes nothing, an acceptance that run only |
| `AutomationRows.LifeOfARun` | internal/store/automation.go:277-350 | requested, started twice, reviewed and submitted: the first start time, the review and finish times and the last address given that is not blank, every other column as requested |
| `AutomationRows.LifeOfAFailure` | internal/store/automation.go:318-387 | a failed run keeps its start time and tells its error and time; its retry is a new requested run of the same ids |
| `AutomationRows.PacketHolds` | internal/store/automation.go:409-465 | when a packet loads, and that it holds the application's ids and selection and the newest active run |
| `AutomationRows.StatusSet` | internal/store/automation.go:351-361 | setting an application's status writes that column only |
| `AutomationRows.UninterruptedSubmission` | internal/store/automation.go:332-363 | the steps of a mark-submitted call, with nothing in between, do what the method does |
| `AutomationRows.UninterruptedRetry` | internal/store/automation.go:365-387 | and those of a retry |
| `AutomationWorker.Worker.ProcessMessage` | internal/automationworker/service.go:119-216 | start, load, browse, review, with each early exit |
| `AutomationWorker.WorkerStopsAtReview` | internal/automationworker/service.go:119-216 | a worker writes its own run only, never submits it, prepares it exactly into review, and records the error of a failure |
| `AutomationRows.WorkerOutcome` | internal/automationworker/service.go:119-216 | when a run is prepared, when it fails and with which error, and when it is left started |
| `AutomationRows.WorkerRefuses` | internal/automationworker/service.go:128-131 | a run that is not requested or started is left alone |
| `Automation.UninterruptedWorker` | internal/automationworker/service.go:119-216 | two steps of the machine, with nothing in between, do what `ProcessMessage` does |
| `Automation.PickedSpec` | internal/store/automation.go:516-551 | the loop succeeds exactly when every row is approved and one is a resume; what it picks are such rows |
| `Automation.ApprovalGate` | internal/store/automation.go:81-152 | approval succeeds exactly when the application exists, is not submitted, has a resume and no unapproved material; it selects materials of its own; a failure changes nothing |
| `Automation.KeysAlwaysUnique` | internal/store/migrations.go:410-412 | in every reachable state one application per job and one material per application, kind and event |
| `Automation.DraftRefusedIff` | internal/store/resumes.go:118-170 | for a select in one state and a write in another: refused exactly when the trimmed event has a draft at the write and its id is padded or it had none at the select |
| `Automation.DraftWrittenOnce` | internal/store/resumes.go:118-170 | creating the same draft again rewrites its one row and no other |
| `Automation.DbEvolves` | internal/store/automation.go:277-387 | one step loses no row, changes no run's ids, never lowers a status, rewrites a start time or loses a final address |
| `Automation.RunsStayTyped` | internal/store/automation.go:106-138 | without foreign keys every run's resume and cover letter are of that kind and of its application, and its job is the application's |
| `Automation.ApplicationsStayTyped` | internal/store/matching.go:230-256 | the same for what applications have selected, under every writer |
| `Automation.Always` | internal/store/automation.go:81-387 | the typing, times and worker invariants hold after every sequence of steps |
| `AutomationHistory.HistoryMovesForward` | internal/store/automation.go:277-363 | between any two moments of any history status never goes down and no id or start time changes |
| `AutomationHistory.RunRowAgrees` | internal/store/automation.go:277-363 | started, reviewed and submitted runs have a start time, exactly the finished ones a finish time, exactly the failed ones an error |
| `AutomationHistory.ReviewKeepsStartKnown` | internal/store/automation.go:297-316 | marking for review keeps start times known exactly for runs that are not still requested |
| `AutomationHistory.SubmittedOnlyByCall` | internal/automationworker/service.go:119-216 | a submitted run was submitted by the mark-submitted call, from started or review required |
| `AutomationHistory.SubmittedApplicationHasItsRun` | internal/store/automation.go:351-361 | an application is submitted only after one of its own runs was |
| `AutomationHistory.NewlySubmittedApplication` | internal/store/automation.go:351-361 | only the second update of a mark-submitted call makes an application submitted |
| `AutomationHistory.DraftCallRefusedIff` | internal/store/resumes.go:118-170 | two overlapping calls or one, after any history: when the write of a draft is refused |
| `AutomationHistory.DraftKeepsItsId` | internal/store/resumes.go:124-132 | a draft once written is the one the select finds ever after |
| `AutomationHistory.SubmittedStaysUnlessFailed` | internal/store/automation.go:318-330 | a submitted run stays submitted through a step if and only if the step does not fail it |
| `AutomationHistory.SubmittedApplicationStaysUnlessReopened` | internal/store/matching.go:230-246 | a submitted application stays submitted through a step if and only if the step is no new match and no interview |
| `AutomationHistory.RunSubmittedOnce` | internal/store/automation.go:337-350 | one run is marked submitted at one step at most |
| `AutomationHistory.SecondSubmission` | internal/store/automation.go:332-387 | a second submission of an application is of another run, and takes a retry, or an approval between the two while it was not submitted; when one is possible is `AutomationSubmissions.SecondQuietlyIffActive` |
| `AutomationHistory.ActiveRunsBounded` | internal/store/automation.go:97-124 | active runs of an application are at most one plus the retries made for it |
| `AutomationHistory.EveryRunWasApproved` | internal/store/automation.go:365-387 | every run traces back through retries to one inserted by an approval with all materials approved and the application not submitted, with the same ids all along |
| `AutomationPacket.PacketLoads` | internal/store/automation.go:409-465 | loading the packet of any existing run succeeds, with materials of its application and an active run when there is one |
| `AutomationPacket.SelectionIsTheLastApproval` | internal/store/automation.go:126-138 | what an application has selected is what its latest successful approval selected, all approved then |
| `AutomationPacket.StatusIsTheLastWritten` | internal/store/review.go:121-147 | a material's status is the last one written to it |
| `AutomationPacket.PacketApprovedIffNotRevoked` | internal/store/automation.go:409-465 | the packet's resume is approved if and only if nothing since the latest approval wrote another status last |
| `AutomationLimits.PacketMayBeRejected` | internal/store/automation.go:409-465 | a run whose packet loads a rejected resume |
| `AutomationPacket.ApprovalAgreesWithItsRun` | internal/store/automation.go:97-138 | the run returned carries the selected materials if and only if no run was active or the last resume and cover letter of the rows are that run's |
| `AutomationPacket.PickedIsLast` | internal/store/automation.go:516-551 | the loop picks the last resume and the last cover letter of the rows |
| `AutomationPacket.ApprovalAgreesInEveryOrder` | internal/store/automation.go:517-520 | they agree in every order of the rows if and only if no run was active or the application has no other resume and cover letter |
| `AutomationPacket.UninterruptedHandOff` | internal/store/automation.go:81-152 | with nothing running between, the call fails in every reachable state exactly when its transaction does, and its packet holds the new selection |
| `AutomationPacket.PacketLoadsAfterApproval` | internal/store/automation.go:141-151 | whatever runs after the transaction of an approval, its packet loads with materials of its application and its run is there |
| `AutomationLimits.PacketMayHoldALaterSelection` | internal/store/automation.go:141-151 | a history in which the packet an approval loads holds another approval's selection |
| `AutomationSubmissions.SubmitsQuietlyIffActive` | internal/store/automation.go:332-363 | after any history the application can be submitted, with no retry and no approval of it while unsubmitted before that step, if and only if one of its runs is active |
| `AutomationSubmissions.SecondQuietlyIffActive` | internal/store/automation.go:332-363 | after a first submission that is the exact condition for a second one, by another run |
| `AutomationSubmissions.BecomesActiveIff` | internal/store/automation.go:97-124 | where no run of the application is active a step makes one active if and only if it inserts a retry of one or is an approval that passes its gate |
| `AutomationSubmissions.RunMadeBetween` | internal/store/automation.go:97-124 | a run that appears between two moments was inserted by a retry, or by an approval of its application while that was not submitted |
| `AutomationLimits.ApprovalMayKeepAnotherResume` | internal/store/automation.go:97-138 | a second approval that selects another resume than the active run has |
| `AutomationLimits.PaddedDraftIsRefused` | internal/store/resumes.go:118-170 | a history after which a padded event id is refused, with nothing running between |
| `AutomationLimits.OverlappingDraftIsRefused` | internal/store/resumes.go:118-170 | two overlapping calls for one unpadded event, the second refused |
| `AutomationLimits.SubmittedAgain` | internal/store/automation.go:365-387 | after any history a submitted run can be retried and its retry submitted |
| `AutomationLimits.SubmittedAgainByApproval` | internal/store/automation.go:97-124 | a history in which an approval between the two updates of a submission leads to a second one, with no retry |
| `AutomationLimits.SubmittedMayFail` | internal/store/automation.go:318-330 | a history in which a submitted run becomes failed |
| `SchedulerTables.SourceNamed` | internal/store/scheduler.go:40-72 | the source with that name, or none when there is none |
| `SchedulerTables.DueSources` | internal/scheduler/scheduler.go:212-231 | the loop selects the due sources in order |
| `SchedulerLaws.SelectedWait` | internal/scheduler/scheduler.go:212-231 | selected are exactly the sources that are enabled and have never run, or whose positive interval of seconds has passed since the last run |
| `SchedulerLaws.DueStaysDue` | internal/scheduler/scheduler.go:226-228 | a due source stays due at every later time |
| `Scheduler.Store.UpsertJobSource` | internal/store/scheduler.go:40-72 | inserts or reconfigures the source, keeping its run times |
| `SchedulerLaws.ConfigureWrites` | internal/store/scheduler.go:40-72 | after any history configuring writes the one row of that name: settings, enabled and interval, with the run times kept or, for a new one, empty |
| `SchedulerLaws.StoredSecondsSpec` | internal/scheduler/scheduler.go:128-130 | the stored interval is the most whole seconds that fit |
| `Scheduler.Store.BeginSourceRun` | internal/store/scheduler.go:99-135 | records a running run and the source's last run together |
| `Scheduler.Store.CompleteSourceRun` | internal/store/scheduler.go:137-198 | finishes the run; only a success sets the last success |
| `Scheduler.Service.RunSourceOnce` | internal/scheduler/scheduler.go:138-181 | begin, produce, complete, counted as run only when the success was recorded |
| `SchedulerLaws.RunSourceRecords` | internal/scheduler/scheduler.go:138-181 | one run row with the outcome's status, counts, error, times and whole milliseconds; the last success moves exactly with a recorded success |
| `Scheduler.Service.RunOnce` | internal/scheduler/scheduler.go:63-92 | one tick over the due sources; evaluated equals run plus failed plus skipped |
| `SchedulerLaws.TickCounts` | internal/scheduler/scheduler.go:74-89 | the counters are the number of successes and failures and the sums over the successes |
| `SchedulerHistory.DueSpec` | internal/scheduler/scheduler.go:212-231 | exactly the due sources are selected, none twice |
| `SchedulerHistory.DueKeepsOrder` | internal/scheduler/scheduler.go:212-231 | the selection keeps the order of the rows |
| `SchedulerHistory.RunOnceIsATick` | internal/scheduler/scheduler.go:63-92 | a finished tick of the service is a tick of the history |
| `SchedulerHistory.TickReachesEveryDueSource` | internal/scheduler/scheduler.go:63-92 | an uncut tick sets the last run of every due source to its own time and leaves every other source alone |
| `SchedulerLaws.TickRunsWhatWaits` | internal/scheduler/scheduler.go:63-92 | an uncut tick sets the last run of every enabled source never run, or whose positive interval has passed, and leaves the others |
| `SchedulerHistory.RunsAreSpaced` | internal/store/scheduler.go:99-135 | over any history, cut ticks and any clock included, two runs of a source start at least as far apart as every interval stored for it |
| `SchedulerHistory.LastRunIsTheLatestStart` | internal/store/scheduler.go:122-130 | `last_run_at` is the greatest recorded start |
| `SchedulerHistory.NamesAlwaysUnique` | internal/store/scheduler.go:40-72 | configuring by name never makes a second source of that name |
| `SchedulerHistory.ResultsAlwaysHold` | internal/store/scheduler.go:137-198 | a run is finished exactly when it is not running, only failed ones have an error, and a source has succeeded exactly when one of its runs did, at the time such a run finished |
| `SchedulerHistory.SpacedByConfigurationIff` | internal/scheduler/scheduler.go:128-130 | the configured interval is kept by all histories if and only if it is whole seconds or under one second |
| `SchedulerHistory.ShortRepeat` | internal/scheduler/scheduler.go:128-130 | the history in which a fractional interval is not kept |
| `Matcher.SkillPointsSpec` | internal/matcher/matcher.go:45-46 | the skill points lie in 0..55 and grow with the matches, for any monotone rounding |
| `Matcher.SkillPointsShare` | internal/matcher/matcher.go:45-46 | the points are 55 times the share matched, cut to a whole number, up to rounding |
| `Matcher.MatchSkills` | internal/matcher/matcher.go:73-98 | the two loops over maps compute the split |
| `Matcher.SkillsSplitExactly` | internal/matcher/matcher.go:73-98 | matched and missing list each distinct non-blank job key once, the candidate's in a candidate's spelling, the others in the job's |
| `Matcher.LastSpellingKept` | internal/matcher/matcher.go:74-77 | of several spellings of a key the candidate's last one is shown |
| `Matcher.MissingIsFirst` | internal/matcher/matcher.go:82-96 | a missing skill is spelled as the job's first one with its key |
| `Matcher.TitleMatches` | internal/matcher/matcher.go:100-111 | some non-blank preferred title occurs in the title |
| `Matcher.LocationMatches` | internal/matcher/matcher.go:113-131 | some non-blank preferred location occurs in the location; the remote branch adds nothing |
| `MatchRules.PreferenceRule` | internal/matcher/matcher.go:100-131 | a preference matches if and only if one that is not blank stands in the text, padding and case aside |
| `MatchRules.RemoteRule` | internal/matcher/matcher.go:133-140 | equal words match when not blank; otherwise only a hybrid job for somebody who prefers remote |
| `MatchRules.SalaryRule` | internal/matcher/matcher.go:142-153 | matches if and only if both sides name a salary and the best known pay reaches what is asked |
| `MatchRules.SalaryIsMonotone` | internal/matcher/matcher.go:142-153 | asking for less or a higher maximum never loses the match |
| `Matcher.Score` | internal/matcher/matcher.go:36-71 | the score, the sorted lists and the notes; the clamp changes nothing |
| `Matcher.PointsInRange` | internal/matcher/matcher.go:65-67 | the score lies in 0..100 before the clamp |
| `MatchRules.Weights` | internal/matcher/matcher.go:40-63 | skills up to 55 or 35 without job skills, title 15, location, remote and salary 10 each, and a note for exactly the tests passed |
| `MatchRules.FullScoreIff` | internal/matcher/matcher.go:36-71 | 100 points if and only if all skill points and all four tests |
| `MatchRules.SkillShare` | internal/matcher/matcher.go:41-46 | the skill points follow the share of the job's listed skills whose keys the candidate has |
| `Matcher.MoreKeysMorePoints` | internal/matcher/matcher.go:41-46 | more candidate keys never give fewer skill points |
| `Matcher.ScoreFollowsSkillKeys` | internal/matcher/matcher.go:36-71 | order, repetition, case and padding of the candidate's skills change nothing, and an added skill never lowers the score |
| `Matcher.FullSkillScore` | internal/matcher/matcher.go:41-46 | all distinct job skills matched give all 55 points |
| `SkillParser.New` | internal/parser/parser.go:35-50 | the loop keeps the first of each normalized spelling |
| `SkillParser.FindSkills` | internal/parser/parser.go:68-90 | the loop fills the map of found skills |
| `SkillParser.ExtractSkills` | internal/parser/parser.go:92-97 | the map's values, one per key, sorted |
| `SkillParser.FreshSpec` | internal/parser/parser.go:35-50 | kept spellings are non-blank, distinct ignoring padding and case, and cover every one given |
| `SkillParser.CanonicalResolves` | internal/parser/parser.go:229-278 | the canonical display of a spelling reads back as its key, the two aliases as what they stand for |
| `SkillParser.DisplayHasItsKey` | internal/parser/parser.go:76-88 | the shown skill normalizes to its map key if and only if the spelling is not a padded alias |
| `SkillParser.FoundSpec` | internal/parser/parser.go:68-90 | the map has exactly the keys of the spellings that occur, each with a value that normalizes to it |
| `SkillParser.LastFoundShown` | internal/parser/parser.go:76-89 | of the spellings found under one key the last known one decides the display |
| `SkillParser.ExtractedExactly` | internal/parser/parser.go:68-97 | the result is sorted, distinct ignoring case, and has a skill if and only if one of its known spellings stands in the text between delimiters |
| `SkillTokens.MatchesIff` | internal/parser/parser.go:75-76 | a spelling is found if and only if the text can be cut around a word that folds to it, with a delimiter or nothing on both sides |
| `SkillTokens.AsciiDelimiters` | internal/parser/parser.go:75 | ASCII letters, digits, plus, hash and dot do not delimit, all other ASCII characters do |
| `SkillTokens.AsciiFolds` | internal/parser/parser.go:75-85 | ASCII words fold to each other if and only if they differ in case only |
| `SkillTokens.OthersShownAsSpelled` | internal/parser/parser.go:275-276 | a skill outside the table is shown as spelled, without padding |
| `SkillTokens.TableShowsCapitals` | internal/parser/parser.go:229-274 | one in the table is shown with capitals |
| `SkillParser.AddedSkillsKept` | internal/parser/parser.go:35-50 | no non-blank spelling is dropped but repeats |
| `ProfileTables.AnswerUnique` | internal/store/full_profile.go:223-231 | ordering by sort order and id leaves a query one answer |
| `ProfileTables.AnswerExists` | internal/store/full_profile.go:223-231 | and it always has one |
| `ProfileTables.ReplacedAnswers` | internal/store/full_profile.go:157-221 | after the section was replaced its query gives back the items in order |
| `ProfileTables.ReplacedFrames` | internal/store/full_profile.go:157-221 | and every other profile's query answers as before |
| `ProfileStore.ReplaceSection` | internal/store/full_profile.go:171-182 | delete, then insert numbered from 0 |
| `ProfileStore.LoadSection` | internal/store/full_profile.go:223-249 | appends the items of the rows in the query's order |
| `ProfileStore.Store.UpsertFullCandidateProfile` | internal/store/full_profile.go:12-34 | validates, upserts the profile row and replaces all five sections, or changes nothing |
| `ProfileStore.Store.UpsertCandidateProfile` | internal/store/matching.go:44-112 | writes the profile's row alone, without validation |
| `ProfileStore.Store.LoadFullCandidateProfile` | internal/store/full_profile.go:36-91 | the profile from its row and sections, or not found, with nothing written between its queries; other interleavings are `ProfileHistory.LoadTakesEachPart` |
| `ProfileStore.PreferenceComesBack` | internal/profile/profile.go:77-83 | every preference validation admits survives its nullable column |
| `ProfileStore.SaveThenLoad` | internal/store/full_profile.go:12-91 | a valid profile loads back as saved, with its id and all sections in order; an invalid one changes nothing |
| `ProfileStore.RefusedIff` | internal/profile/profile.go:67-116 | a full save is refused if and only if a required text is blank, there is no skill, the salary is negative or the preference is unknown |
| `ProfileStore.SavedUnder` | internal/store/full_profile.go:109-154 | a profile with an id is saved under it, one without under the next id |
| `ProfileStore.SaveLeavesOthers` | internal/store/full_profile.go:157-171 | saving one profile changes nothing that loading another reads |
| `ProfileStore.SaveKeepsIds` | internal/store/full_profile.go:109-154 | ids stay issued by their tables |
| `ProfileStore.NewProfileIsNew` | internal/store/full_profile.go:138-154 | a profile without an id never lands on an existing one |
| `ProfileStore.LoadIsDetermined` | internal/store/full_profile.go:36-91 | what a load returns is determined by the tables |
| `ProfileHistory.LoadGivesTheKept` | internal/store/full_profile.go:12-91 | after any sequence of writes a load from one state gives the last full save with the columns of any later row save, or not found |
| `ProfileHistory.LoadTakesEachPart` | internal/store/full_profile.go:36-91 | a load whose six queries run at six moments gives the columns of the first and each section as it was kept at its own moment |
| `ProfileHistory.UndisturbedLoad` | internal/store/full_profile.go:36-91 | with no write of that profile between the first and the last query the load is the profile kept, whatever is saved for others |
| `ProfileHistory.LoadMayBeTorn` | internal/store/full_profile.go:36-91 | a save between two queries makes a load give a profile that was never kept |
| `Hub.Client.Send` | internal/api/hub.go:65-68 | queues the message unless 16 wait; never called on a closed channel |
| `Hub.Client.Close` | internal/api/hub.go:49-56 | never called on a closed channel |
| `Hub.Client.Subscribe` | internal/api/hub.go:118-123 | replaces the topic set |
| `Hub.ClientHub.Add` | internal/api/hub.go:36-47 | a new member with an open empty channel and no topics |
| `Hub.ClientHub.Remove` | internal/api/hub.go:49-56 | closes a member's channel, and does nothing the second time |
| `Hub.ClientHub.Broadcast` | internal/api/hub.go:58-78 | offers the message once to every member, in any order |
| `HubHistory.AlwaysChannels` | internal/api/hub.go:36-70 | at most 16 messages wait, and a channel is closed exactly once its client is no member, once only |
| `HubHistory.ChannelsUsedOpen` | internal/api/hub.go:49-70 | no send on a closed channel and no second close |
| `HubHistory.ReceivedInOrder` | internal/api/hub.go:58-78 | what a client received or has queued is an in-order subsequence of the matching broadcasts, and exactly those that found the queue full are missing |
| `HubHistory.VisitDelivers` | internal/api/hub.go:58-78 | a visit queues the event if and only if the client has no topics, or the event none, or the topic is the client's, and fewer than 16 wait |
| `HubHistory.OnlyWhatWasAskedFor` | internal/api/hub.go:72-78 | between two subscriptions a client is offered only events it asked for |
| `HubHistory.AckFirstIffNothingEarly` | internal/api/server.go:611-628 | the acknowledgement is the first message if and only if no matching broadcast came before it |
| `HubHistory.StuckForever` | internal/api/server.go:611-630 | a client whose queue filled before its acknowledgement is never served or removed |
| `HubHistory.AlwaysEarlyQueued` | internal/api/server.go:611-630 | until its acknowledgement a client has its matching broadcasts queued, the first 16 of them |
| `HubHistory.AcknowledgedIffFewEarly` | internal/api/server.go:616-628 | a waiting connection can still be acknowledged if and only if fewer than 16 matching broadcasts reached it |
| `HubHistory.AckMayComeSecond` | internal/api/server.go:616-628 | an open client whose first message is a broadcast |
| `HubHistory.StuckIsReachable` | internal/api/server.go:611-630 | sixteen broadcasts reach that state |
| `HubHistory.VisitsOfferOnce` | internal/api/hub.go:58-70 | whatever the order of its visits a broadcast offers its message to every member once |
| `HubHistory.UninterruptedBroadcast` | internal/api/hub.go:58-70 | run alone, the steps of a broadcast do what the method does |

## Left out

- Text: case mapping works character by character; Unicode normalisation and characters whose lower case is longer are not modelled.
- Text.Contains: invalid UTF-8 and byte offsets are not modelled; a string is its characters.
- Events.StableId: a hash is an unspecified function, and message ids are compared by the parts hashed.
- Dispatcher: the stream remembers message ids for ever; the finite deduplication window of JetStream is not modelled.
- Dispatcher.Service.ProcessMessage: undecodable messages, logging and the batch counters of `Run`; the outcome of a publish is a parameter.
- JobStore.Store.SaveDiscoveredJob: timestamps, raw payload and salary columns, which no lookup or index row uses.
- JobTables.IndexAlwaysAgrees: the index's skills column, which two writers encode differently.
- SaveJobMatch: writes the job_matches table only, which nothing modelled here reads.
- Foreign keys: not relied on; no modelled writer deletes a parent row.
- AutomationTables.PacketOf: joins with jobs and documents, answers and file contents; it fails here only for missing application or material rows.
- AutomationStore.Store.CreateApplicationMaterial: the method runs its two statements in one state; `AutomationHistory.DraftCallRefusedIff` has them apart.
- AutomationStore.Store.ApproveApplicationForAutomation: the method loads the packet in the state its transaction left; `AutomationPacket.PacketLoadsAfterApproval` covers later ones.
- AutomationWorker.Worker.ProcessMessage: log rows and status events are reduced to being accepted or not; the adapter plan is its final address.
- Automation: creating an interview is the one statement that writes an application's status; interview and notification tables are not modelled.
- Automation.RewriteMaterial: the update of a draft may name any row and any values, more than its select allows.
- Scheduler: one scheduler process; two racing ones are not modelled. A source's timeout reaches the model only through the outcome of its run.
- SchedulerTables.StoredSeconds: float64 seconds of a duration are taken as exact; intervals beyond the 64-bit range of a duration are not modelled.
- StableOrder.SliceStable: the library's block merge; insertion sort is modelled, and StableOrder.SortIsTheStableOrder says every stable sort agrees.
- Resume.Tune: the sections after the highlights are one arbitrary text; cover letter and answers are not modelled.
- reviewMaterial: of its lists only the skills are modelled; sections, links, notes and warnings are display.
- Matcher.Round: float64 division and multiplication are any monotone rounding that is exact on 0, 1 and 55 and off by at most 0.00001 between.
- SkillParser.Matches: the regular expression is stated as the existence of a delimited occurrence; the search itself is the library's. Salary, seniority, section and heading extraction are left out.
- ProfileTables: a JSON column gives back the list written to it.
- ProfileStore.Store.LoadFullCandidateProfile: the method answers its six queries from one state; `ProfileHistory` has them at six.
- Hub.Client: reading a topic set while its reader replaces it is a data race in Go and one atomic step here; framing, pings and write errors are left out.
- HTTP handlers, NATS set-up, configuration loading, browser launching, documents on disk and webhooks: foreign effects.
