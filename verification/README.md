# Verified model of CargoGrid's gates, workers and server-side cores

CargoGrid is a multi-tenant logistics platform. This project models, in Dafny 4.11, the parts of its
repository in which the logic is hard and self-contained, and proves what they are for.

| module | models |
|---|---|
| NormalizePrompts | the prompt normaliser that checks its own output |
| FeatureFlags, FlagCache | feature-flag evaluation, the registry check and the TTL cache |
| JobEnvironment | the event log, the job's row and the replies the processors share |
| DeliveryProtocol | runs, crashes and retries of one delivery job against its row and its job |
| WebhookDelivery, NotificationDelivery | the two delivery processors as effects on an event log |
| ExternalSync, MalwareScan, MalwareScanWorker, ClaimLoop | the sync and scan processors, the scanner's polling and the workers' claim loops |
| Parentheticals, KnownIssues | the issue ledger's parser and its index/record checks |
| PromptPackage | manifest, sections and successor graph of the prompt package |
| PathPattern, ProtectedPaths, ChangedPaths, UnlockedPaths | the escaped-path pattern, the ordered path rules, the changes read from git and the unlocked paths |
| WorktreeCollision | the fork decision over a commit graph |
| Words32, SsrfGuard, Redact | 32-bit operators, the address guard and the fingerprint |
| Pagination, EnvValidation, ChartTooltip | page window, environment validation, tooltip escaping |
| Text, Sequences, Numbers, Wrappers | strings, counting, numbers, results |

Code that updates state is a method, with loops where the source has loops; the processors append to
an event log, and the cache is a class. Each method is tied to a specification function, and the
properties are proved about that function. What an operation answers is stated in the source's own
fields and literals, so that no definition the code uses stands between input and answer. Everything outside (RPC, fetch, DNS, git, storage, clock)
is an arbitrary reply. An exception is a `Thrown` result. Error texts are datatypes that keep what
the text is built from. Automatic induction is switched off on inductive lemmas, so that each proof is
the one written down.

`dafny verify dfyconfig.toml` checks the project.

## Where code and documentation differ

The model follows the code. Each point is a lemma below.

- The normaliser's self-check reduces both texts with the very transform it checks. It accepts exactly
  when no line starts with eight spaces (`SelfCheckAcceptsIff`); its last message, for texts that
  differ without a divergent line, cannot occur.
- The cache key does not tell a context without cohorts from one with a single empty cohort name
  (`KeysAliasIff`, `EmptyCohortNameAliases`); with non-empty names keys never alias.
- A malformed response or record is documented never to be fatal, but a null body ends the run with an
  exception, and so does the first null record of a batch, after the records before it were written
  (`RunReturnsIff`, `NullBodyIsFatal`, `NullRecordIsFatal`).
- The package gate treats a backward reference as the shape of a cycle, but only warns about it. A
  package is acyclic exactly when no self or backward reference leads back to its own start
  (`AcyclicIff`), so a passing package may contain a cycle (`GatePassesIff`, `PassingPackageMayCycle`).
- A step's range is that of the files whose number no later file repeats. A file lies in its own
  step's range, and its references stay there, exactly when such files of its directory have numbers
  on both sides of its own (`OwnRangeIff`, `EdgesStayInStep`). A repeated number can thus leave a
  directory without range (`DuplicateNumberEscapesRange`) or narrow it so that a real successor is
  dropped (`DuplicateNumberNarrowsRange`); with distinct numbers neither happens
  (`DistinctNumbersSuffice`).
- The cache's deletion on read is not observable while the clock does not go back; it shows exactly
  when some read found the entry expired and a later one comes before its expiry
  (`LazyDeletionShowsIff`).
- A newly added migration is documented never to be flagged. It is, exactly when its base name reads
  as a real environment file (`AddedMigrationIsFlaggedIff`).
- The webhook run promises to fail closed before any write when the delivery is another tenant's. It
  never posts, but it records a failed attempt on the other tenant's open delivery, which may close
  it (`ForeignRowChangesIff`, `ForeignRowIsClosed`).
- Counting a lost lease as an attempt is to make a job that always crashes dead-letter. The table's
  constraint on attempts bounds its runs (`RunsAreBounded`), but the last claim then raises and the
  job stays in progress: only a failure report makes a job dead (`CrashLoopSticks`,
  `DeadNeedsReport`).
- The path gate is to keep forbidden files untouched, but sees a rename by its new path only: it lets
  exactly the changes through that rename forbidden files away and leave allowed paths
  (`GateMissesIff`, `RenameOutOfTreeIsMissed`).
- A rollout percentage that is not a number passes the check for 0 to 100 (`NoViolationsIff`); it
  switches nobody on (`NaNIsNeverRolledOut`).
- A pattern built from an empty list matches the empty path (`LanguageIsListIff`).

## Model

| member | source | states |
|---|---|---|
| NormalizePrompts.Deindent | scripts/docs/normalize-template-variant-prompts.ts:54-67 | the text has the same lines, each without its first four spaces where it starts with them; the count is how many did, so the text is shorter by four characters for each |
| NormalizePrompts.CanonicalizeHeadings | scripts/docs/normalize-template-variant-prompts.ts:70-83 | the text is the successive leftmost replacement of every legacy heading marker; the count is how many markers occurred when their turn came |
| NormalizePrompts.VerifyOnlyPermittedDifferences | scripts/docs/normalize-template-variant-prompts.ts:96-123 | no problem exactly when the two reduced texts are equal; otherwise the first line on which they differ. The fallback message for texts without a divergent line is never given |
| NormalizePrompts.NormalizeContent | scripts/docs/normalize-template-variant-prompts.ts:125-149 | a result exactly when no line starts with eight spaces: the reduced text, the number of indented lines and of renamed headings; the self-check's problem otherwise |
| NormalizePrompts.RenamesAre | scripts/docs/normalize-template-variant-prompts.ts:45-83 | the five renames, word for word: the canonical heading drops what the older wording adds |
| NormalizePrompts.CanonicalReads | scripts/docs/normalize-template-variant-prompts.ts:70-83 | what the renaming writes: a text without a marker stays, and otherwise what precedes the first marker stays, the marker becomes its own canonical heading, and the rest is renamed in the same way |
| NormalizePrompts.LookupNeverThrows | scripts/docs/normalize-template-variant-prompts.ts:45-51 | every field of the legacy table has a canonical heading, the one numbered with that field |
| NormalizePrompts.RenamesAreIndependent | scripts/docs/normalize-template-variant-prompts.ts:69-83 | no marker and no canonical heading of the table starts inside another |
| NormalizePrompts.OrderIsIrrelevant | scripts/docs/normalize-template-variant-prompts.ts:69-83 | every rearrangement of the table gives every text the same canonical form |
| NormalizePrompts.ReplaceLeavesNoMarker | scripts/docs/normalize-template-variant-prompts.ts:78 | a global replacement leaves no occurrence of its marker, for heading-like markers |
| NormalizePrompts.ReplaceKeepsOtherMarkers | scripts/docs/normalize-template-variant-prompts.ts:78 | it neither creates nor destroys an occurrence of another heading's marker |
| NormalizePrompts.CanonicalIsIdempotent | scripts/docs/normalize-template-variant-prompts.ts:70-83 | canonicalising twice is canonicalising once, on every text |
| NormalizePrompts.RenamedCountsMarkers | scripts/docs/normalize-template-variant-prompts.ts:77-80 | the rename count is the number of legacy markers that occur in the original text |
| NormalizePrompts.DeindentKeepsSize | scripts/docs/normalize-template-variant-prompts.ts:54-67 | the line count is kept and the original is longer than the result by four characters for each counted line |
| NormalizePrompts.CanonicalCommutesWithDeindent | scripts/docs/normalize-template-variant-prompts.ts:129-131 | on a line, removing the indent and renaming the headings commute |
| NormalizePrompts.ReducedLineIsFixed | scripts/docs/normalize-template-variant-prompts.ts:97-107 | reducing a transformed line gives the reduced original exactly when the line does not start with two indents |
| NormalizePrompts.SelfCheckAcceptsIff | scripts/docs/normalize-template-variant-prompts.ts:96-136 | for every text the self-check accepts the transform's own output if and only if no line starts with eight spaces |
| NormalizePrompts.AcceptedOutputIsClean | scripts/docs/normalize-template-variant-prompts.ts:125-136 | an accepted output has no indented line and no legacy heading |
| FeatureFlags.EnabledIff | scripts/feature-flags/flags.ts:62-92 | a flag is on exactly when no kill switch, environment, window or deny list switches it off and the allow list, or a shared cohort and a bucket of the hash modulo 100 below the percentage, switch it on |
| FeatureFlags.ReasonIs | scripts/feature-flags/flags.ts:62-92 | the reason is the first that applies, in the flag's own fields |
| FeatureFlags.EvaluateOverTime | scripts/feature-flags/flags.ts:70-75 | the result depends on the time only through being inside the effective-date window |
| FeatureFlags.EvaluateIgnoresCohortOrder | scripts/feature-flags/flags.ts:82-87 | contexts with the same cohorts in any order and multiplicity evaluate alike |
| FeatureFlags.RolloutIsMonotone | scripts/feature-flags/flags.ts:88-91 | raising the rollout percentage, infinity included, never disables a tenant, and from 100 on nobody is left out |
| FeatureFlags.ValidateFlagRegistry | scripts/feature-flags/flags.ts:127-149 | the violations of every flag, in order |
| FeatureFlags.ViolationsOfAre | scripts/feature-flags/flags.ts:129-145 | a flag's violations are those that hold of it, each once, in order: id seen before, blank owner, percentage outside 0 to 100, window that ends before it begins |
| FeatureFlags.ViolationsAre | scripts/feature-flags/flags.ts:127-149 | and of a registry they follow flag by flag, an id counting as seen when an earlier flag has it |
| FeatureFlags.NoViolationsIff | scripts/feature-flags/flags.ts:127-149 | no violation exactly when ids are distinct and every flag has an owner, a percentage that is from 0 to 100 or not a number, and an ordered window |
| Text.SpacesAre | scripts/feature-flags/flags.ts:137 | a blank owner is one of these 25 characters only |
| FeatureFlags.NaNIsNeverRolledOut | scripts/feature-flags/flags.ts:88-140 | a percentage that is not a number passes the registry check and rolls out to nobody |
| Numbers.OrderIs | scripts/feature-flags/flags.ts:88-142 | a comparison of two percentages: minus infinity first, plus infinity last, by value in between, and none with NaN |
| FeatureFlags.FallbackFindsTheFlag | scripts/feature-flags/flags.ts:102-117 | in a registry with distinct ids, whatever other violations it has, the fallback evaluates exactly the flag asked for |
| FeatureFlags.FallbackIs | scripts/feature-flags/flags.ts:102-117 | an unreadable registry gives the default, degraded; an unknown id gives the default; otherwise the first flag with the id is evaluated |
| FlagCache.Cache.constructor | scripts/feature-flags/flags.ts:174-176 | a new cache has an empty history |
| FlagCache.Cache.Get | scripts/feature-flags/flags.ts:178-187 | the result is what the call history determines; the call is added to the history and its lazy deletion keeps the representation |
| FlagCache.Cache.Set | scripts/feature-flags/flags.ts:189-191 | the call is added to the history and becomes the key's entry |
| FlagCache.Cache.Invalidate | scripts/feature-flags/flags.ts:193-195 | the call is added to the history and the key has no entry |
| FlagCache.Cache.Size | scripts/feature-flags/flags.ts:197-199 | the number of keys held |
| FlagCache.SortIsCanonical | scripts/feature-flags/flags.ts:166 | sorting gives one result for two lists exactly when they are rearrangements of each other |
| FlagCache.KeyReads | scripts/feature-flags/flags.ts:165-167 | the key is flag, tenant, environment name and the sorted cohort names, joined by double colons and commas |
| FlagCache.LeIs | scripts/feature-flags/flags.ts:166 | sorting compares as prefixes or at the first differing character |
| FlagCache.KeysAliasIff | scripts/feature-flags/flags.ts:165-167 | for flags and tenants whose own ending double colon is the first and cohort names without a comma two queries share a key exactly when flag, tenant and environment agree and the cohorts are the same multiset, or one has no cohort and the other a single empty name |
| FlagCache.SingleColonsArePlain | scripts/feature-flags/flags.ts:165-167 | the flag and tenant names meant are those without a double colon that do not end in a colon |
| FlagCache.KeysNeverAlias | scripts/feature-flags/flags.ts:156-167 | with non-empty cohort names keys never alias |
| FlagCache.ExpiredStaysExpired | scripts/feature-flags/flags.ts:182-185 | under a clock that does not go back an entry once seen expired stays expired until it is set again |
| FlagCache.LazyDeletionIsInvisible | scripts/feature-flags/flags.ts:182-185 | deleting an expired entry on read changes no later answer |
| FlagCache.LazyDeletionNeedsTheClock | scripts/feature-flags/flags.ts:182-185 | an input, with a clock that goes back, on which the deletion shows |
| FlagCache.LazyDeletionShowsIff | scripts/feature-flags/flags.ts:182-185 | over any history the deletion shows exactly when some read since the latest set already found it expired and the present read is before its expiry |
| FlagCache.CacheRefinesIdealStore | scripts/feature-flags/flags.ts:165-195 | over every sequence of calls with a non-decreasing clock a read returns a value exactly when the latest set for the same query was not invalidated since and is younger than the TTL, and then that value |
| FlagCache.HitEqualsFreshEvaluation | scripts/feature-flags/flags.ts:63-92 | a hit on a value produced by evaluating the unchanged flag equals a fresh evaluation unless a bound of the effective-date window was crossed in between |
| FlagCache.EmptyCohortNameAliases | scripts/feature-flags/flags.ts:165-167 | an empty cohort name aliases with no cohort, and the cached answer is then wrong |
| FlagCache.SeparatorInNameAliases | scripts/feature-flags/flags.ts:165-167 | a separator moves freely from the end of the flag to the front of the tenant: two different queries, one key |
| DeliveryProtocol.RetriesAreSafe | supabase/migrations/20260827000000_wire_observability_alert_producers.sql:58-135 | over every sequence of runs of one job, each returning or dying anywhere: the row counts exactly the recorded attempts, at most one success is recorded and nothing is posted or recorded after it, POSTs beyond the recorded attempts belong to runs that died, a closed row stays as it is, and a completed job leaves a closed delivery |
| DeliveryProtocol.PostsAreBounded | supabase/migrations/20260827000000_wire_observability_alert_producers.sql:58-135 | the runs the job has left bound the number of POSTs, whatever the row; so do the attempts left in the row, up to one more for each run that died |
| DeliveryProtocol.RunsAreBounded | supabase/migrations/20260719170000_create_import_export_job_framework.sql:271-276 | over every history each run spends one of the runs the job has left: from a pending job at most one more than its attempts left, whether runs return or die |
| JobEnvironment.ClaimableIff | supabase/migrations/20260907190000_fix_job_claim_complete_audit_actor_mismatch_new1.sql:73-106 | a job can be claimed exactly while it has runs left |
| DeliveryProtocol.CrashLoopSticks | supabase/migrations/20260907190000_fix_job_claim_complete_audit_actor_mismatch_new1.sql:90-104 | the bound is met when every run dies; the job is then in progress with all attempts spent, cannot be claimed any more, and is not dead-lettered |
| DeliveryProtocol.DeadNeedsReport | supabase/migrations/20260816000000_harden_observability_audit_findings.sql:65-81 | over every history a job becomes dead only by a failure report |
| DeliveryProtocol.ReturnedRunReportsOnce | lib/webhooks/process-webhook-delivery-job.server.ts:74-191 | a returning run makes one job report as its last act; with a delivery of an open status it has recorded one attempt just before, successful exactly when the job is completed |
| DeliveryProtocol.RunFollowsRow | supabase/migrations/20260907190000_fix_job_claim_complete_audit_actor_mismatch_new1.sql:55-175 | the effect of one run on row and job, wherever it stops |
| DeliveryProtocol.RunLeaves | supabase/migrations/20260907190000_fix_job_claim_complete_audit_actor_mismatch_new1.sql:55-175 | a claimed run gets through exactly when it records no attempt on a closed row and reports no failure on a job without an attempt left; the job is then done, one attempt further or still in progress, dead exactly when its last attempt failed, and the row has one attempt more if one was recorded, closed exactly at its limit |
| DeliveryProtocol.AttemptsAreAccounted | supabase/migrations/20260907190000_fix_job_claim_complete_audit_actor_mismatch_new1.sql:90-175 | over every history the job's attempts are those it began with, the failures reported and the runs taken over from one that died |
| WebhookDelivery.ProcessWebhookDeliveryJob | lib/webhooks/process-webhook-delivery-job.server.ts:74-191 | the log grows by the events of the run's plan, and the outcome or exception is the plan's |
| WebhookDelivery.ProcessOpen | lib/webhooks/process-webhook-delivery-job.server.ts:118-191 | a disabled endpoint and an unsafe URL fail closed with one attempt and one job failure; otherwise the payload is signed before the call |
| WebhookDelivery.Dispatch | lib/webhooks/process-webhook-delivery-job.server.ts:138-191 | the POST and its two reports, for every status, timeout and failure |
| WebhookDelivery.WebhookRetriesAreSafe | lib/webhooks/process-webhook-delivery-job.server.ts:74-191 | whatever else the environment replies, retries of a webhook job keep the protocol's invariant |
| WebhookDelivery.PostsExactlyWhen | lib/webhooks/process-webhook-delivery-job.server.ts:75-149 | a POST happens exactly after tenant, status, endpoint and URL checks passed: to the checked URL, with the payload, and with type, timestamp, signature, event and delivery id as its five headers |
| WebhookDelivery.EarlyEndIs | lib/webhooks/process-webhook-delivery-job.server.ts:75-116 | the first of actor, id, row and tenant that fails, with its text, and the run that only completes because the row is no longer open |
| WebhookDelivery.LateEndIs | lib/webhooks/process-webhook-delivery-job.server.ts:118-136 | of an own open row a disabled endpoint and then an unsafe URL, each with its text |
| WebhookDelivery.AttemptIs | lib/webhooks/process-webhook-delivery-job.server.ts:142-190 | what a POST is recorded with: success exactly for 2xx, the status when there is one, and the text for each failure |
| WebhookDelivery.ResultIs | lib/webhooks/process-webhook-delivery-job.server.ts:75-190 | what a run hands back: its exception, or its kind with the status and text it recorded |
| WebhookDelivery.OutcomeMatchesReports | lib/webhooks/process-webhook-delivery-job.server.ts:182-190 | outcome, recorded attempt and job report agree |
| WebhookDelivery.ForeignRowChangesIff | lib/webhooks/process-webhook-delivery-job.server.ts:94-108 | a run that names another tenant's delivery never posts, and it changes that row exactly when actor and id are there, the row is open and two events took effect: one more attempt, closed if it was the last |
| WebhookDelivery.ForeignRowIsClosed | lib/webhooks/process-webhook-delivery-job.server.ts:94-108 | an input on which such a run closes another tenant's delivery |
| NotificationDelivery.ProcessNotificationDeliveryJob | lib/notifications/process-notification-delivery-job.server.ts:104-214 | the log grows by the events of the run's plan, and the outcome or exception is the plan's |
| NotificationDelivery.ProcessOwn | lib/notifications/process-notification-delivery-job.server.ts:144-165 | recipient, connection and provider address in order, each failing closed with one attempt and one job failure |
| NotificationDelivery.CheckAndTransmit | lib/notifications/process-notification-delivery-job.server.ts:167-213 | the URL's safety, failing closed with one attempt and one job failure, before the credential is read |
| NotificationDelivery.TransmitAs | lib/notifications/process-notification-delivery-job.server.ts:175-203 | a missing credential fails closed, and so does a channel without a provider, whose exception is caught |
| NotificationDelivery.Transmit | lib/notifications/process-notification-delivery-job.server.ts:183-214 | one request per channel and its two reports, for every status, timeout and failure |
| NotificationDelivery.NotificationRetriesAreSafe | lib/notifications/process-notification-delivery-job.server.ts:104-214 | retries of a notification job keep the protocol's invariant |
| NotificationDelivery.SendsExactlyWhen | lib/notifications/process-notification-delivery-job.server.ts:132-192 | a request is sent exactly when every check on the row's own fields passed and the channel is e-mail, WhatsApp or SMS: to the provider's checked address, with type and bearer token as headers |
| NotificationDelivery.MessageIs | lib/notifications/process-notification-delivery-job.server.ts:144-192 | an e-mail goes to the recipient's e-mail address with its subject, the other two channels to the contact address, each with its own fields |
| NotificationDelivery.AttemptIs | lib/notifications/process-notification-delivery-job.server.ts:183-213 | success exactly for 2xx, billed by the length of the body to four decimals; a failure is recorded with the text the job fails with |
| NotificationDelivery.EarlyEndIs | lib/notifications/process-notification-delivery-job.server.ts:105-142 | the first of actor, id, row and tenant that fails, with its text, and the run that only completes |
| NotificationDelivery.RefusalIs | lib/notifications/process-notification-delivery-job.server.ts:144-165 | of an own open row a missing recipient, then a missing or inactive connection, then a missing address, each with its text |
| NotificationDelivery.LateRefusalIs | lib/notifications/process-notification-delivery-job.server.ts:167-203 | an unsafe address, then a missing credential, then a channel without a provider, each with its text and the checks made before it |
| NotificationDelivery.RequestFailureIs | lib/notifications/process-notification-delivery-job.server.ts:183-213 | the text of a timed-out, failed or refused request, by channel |
| NotificationDelivery.ResultIs | lib/notifications/process-notification-delivery-job.server.ts:105-213 | what a run hands back: its exception, or its kind with the text it recorded |
| NotificationDelivery.OutcomeMatchesReports | lib/notifications/process-notification-delivery-job.server.ts:205-213 | outcome, recorded attempt and job report agree |
| ClaimLoop.RunEnds | scripts/jobs/external-sync-worker.ts:57-75 | the loop stays within its iterations, ends at the first exception, and stops early exactly when the limit's number of consecutive empty polls, and no fewer, has just been seen |
| ClaimLoop.RunIsAccounted | scripts/jobs/external-sync-worker.ts:57-75 | of any worker whose returning runs report once: claimed = succeeded + failed within the budget, one report for each and a completion for each success, and an early stop only after the limit's number of empty polls |
| ExternalSync.ProcessExternalSyncJob | lib/external-integrations/process-external-sync-job.server.ts:64-179 | the log grows by exactly the run's events; the result is the run's outcome or exception |
| ExternalSync.RecordEach | lib/external-integrations/process-external-sync-job.server.ts:157-175 | of the records read one snapshot for each usable one, in order; both counters; it stops at a null record |
| ExternalSync.SnapshotOfRecord | lib/external-integrations/process-external-sync-job.server.ts:157-175 | the snapshot of a usable record stands after those of the usable ones before it, with its id and payload and the job's connection, adapter and type |
| ExternalSync.RecordIsWritten | lib/external-integrations/process-external-sync-job.server.ts:153-175 | in a run that reaches its body each usable one of the first 500 records before a null one is so written, after the four calls |
| ExternalSync.SyncedRunEnds | lib/external-integrations/process-external-sync-job.server.ts:177-179 | a synced run ends with the completion of its job |
| ExternalSync.EarlyEndIs | lib/external-integrations/process-external-sync-job.server.ts:65-104 | the first of actor, payload, connection, tenant and address that fails, with the calls made before it |
| ExternalSync.CheckedEndIs | lib/external-integrations/process-external-sync-job.server.ts:106-118 | an unsafe address, and a missing credential after it |
| ExternalSync.RequestEndIs | lib/external-integrations/process-external-sync-job.server.ts:120-151 | a timeout, an exception, a status outside 2xx or a body that is not JSON, after the four calls; everything else reaches the body |
| ExternalSync.RunAccounts | lib/external-integrations/process-external-sync-job.server.ts:64-179 | a returning run reports once, completes exactly when it synced, and recorded plus skipped is the number of records up to 500, one snapshot each |
| ExternalSync.SnapshotsStayInTenant | lib/external-integrations/process-external-sync-job.server.ts:93-97 | every snapshot carries the job's own tenant, which is the connection's, and is written only after the URL was found safe |
| ExternalSync.RunReturnsIff | lib/external-integrations/process-external-sync-job.server.ts:56-68 | a run returns exactly when the job has an actor and, if every check up to a readable 2xx response passes, neither the body nor one of its first 500 records is null; a run that throws has reported nothing |
| ExternalSync.NullRecordIsFatal | lib/external-integrations/process-external-sync-job.server.ts:157-163 | in every batch the first null record ends the run with an exception: the usable records before it are written, and the job gets no report |
| ExternalSync.NullBodyIsFatal | lib/external-integrations/process-external-sync-job.server.ts:58-60 | a null body ends every run that reaches it with an exception, without a snapshot and without a report |
| ExternalSync.BodyIsReached | lib/external-integrations/process-external-sync-job.server.ts:64-155 | and such a run exists, for every job with an actor and a valid payload and every JSON body |
| ExternalSync.RunExternalSyncWorker | scripts/jobs/external-sync-worker.ts:49-78 | the log grows by the trace of the polls made; the counters are their tally; an exception is passed on |
| ExternalSync.WorkerRunIsAccounted | scripts/jobs/external-sync-worker.ts:48-78 | for every run that returns claimed = synced + failed within the budget, each claimed job has one report, its own, the snapshots are as many as recorded, and a run that stops early has just seen the limit's number of empty claims |
| MalwareScan.ScanFileWithVirusTotal | lib/malware-scan/scan-file-with-virustotal.server.ts:151-193 | the outcome is that of the size, the submission and the first decided poll |
| MalwareScan.FirstDecidedIs | lib/malware-scan/scan-file-with-virustotal.server.ts:169-190 | the loop stops at the first poll that is not queued, among at most the given number |
| MalwareScan.VerdictIff | lib/malware-scan/scan-file-with-virustotal.server.ts:156-192 | on the replies themselves: infected exactly when the first that is not queued is a completed analysis with both counts of which one is positive, clean when neither is, error when a count is missing or the size is 0 or above 32 MiB, retryable without an id, after a failed poll, or when nothing is decided in time |
| MalwareScan.DecidingReply | lib/malware-scan/scan-file-with-virustotal.server.ts:169-190 | the outcome of an accepted file as a table over the deciding reply |
| MalwareScan.LaterPollsAreIrrelevant | lib/malware-scan/scan-file-with-virustotal.server.ts:169-190 | replies after the first decided one change nothing |
| MalwareScan.ProcessMalwareScanJob | lib/malware-scan/process-malware-scan-job.server.ts:84-141 | the log grows by the events of the run's plan, and the outcome or exception is the plan's |
| MalwareScan.RecordsExactlyWhenResolved | lib/malware-scan/process-malware-scan-job.server.ts:103-140 | a verdict is recorded exactly when actor, the five payload fields, download and key are there and the scan resolves, and it is the scan's |
| MalwareScan.EarlyEndIs | lib/malware-scan/process-malware-scan-job.server.ts:91-100 | a missing actor throws without an effect; a missing payload field is reported in the requester's name |
| MalwareScan.RunIs | lib/malware-scan/process-malware-scan-job.server.ts:101-140 | of a complete payload the calls made, the failure of each, and the verdict with its file, reference and uploader followed by the completion |
| MalwareScan.RunLeaves | supabase/migrations/20260719140000_create_document_file_engine.sql:536-594 | a claimed run gets through exactly when it records no verdict against the file's own and reports no failure on a job without an attempt left, and what it leaves on file and job |
| MalwareScan.VerdictIsFinal | supabase/migrations/20260719140000_create_document_file_engine.sql:536-594 | over all retries a file that has left pending keeps its status |
| MalwareScan.RunsAreBounded | supabase/migrations/20260719170000_create_import_export_job_framework.sql:271-276 | each run, returned or dead, spends one of the runs the job has left |
| MalwareScan.FileLeavesPendingOnce | supabase/migrations/20260719140000_create_document_file_engine.sql:536-594 | over all retries at most one run takes a file out of pending |
| MalwareScan.RecordedVerdictsAgree | supabase/migrations/20260719140000_create_document_file_engine.sql:536-594 | two runs whose recordings were both accepted recorded the same verdict |
| MalwareScan.CompletedMeansResolved | lib/malware-scan/process-malware-scan-job.server.ts:132-139 | a completed job leaves a file with a verdict |
| MalwareScan.RetryMustAgree | lib/malware-scan/process-malware-scan-job.server.ts:132-139 | a run repeated after a crash between record and complete can complete only with the verdict already on file |
| MalwareScanWorker.RunMalwareScanWorker | scripts/jobs/malware-scan-worker.ts:47-72 | the log grows by the trace of the polls made; the counters are their tally |
| MalwareScanWorker.WorkerRunIsAccounted | scripts/jobs/malware-scan-worker.ts:46-72 | claimed = resolved + failed within the budget, each claimed job has one report, its own, with one verdict and completion for each resolved job; a run that stops early has just seen the limit's number of empty claims |
| Parentheticals.LastParentheticalSpan | scripts/docs/check-known-issues.ts:96-111 | the loop computes the span of the specification, on every string |
| Parentheticals.LastSpanIs | scripts/docs/check-known-issues.ts:88-111 | the span is the last bracket group at the top level: it ends at the last closing bracket that returns to depth 0, the number of opening less closing ones, and starts at the bracket that one closes; none exactly when no bracket returns to 0 |
| Parentheticals.DepthIs | scripts/docs/check-known-issues.ts:99-105 | the depth at a position is the opening less the closing brackets before it |
| Parentheticals.PrefixKeepsSpan | scripts/docs/check-known-issues.ts:100-109 | text after the last balanced end does not move the span |
| KnownIssues.ParseKnownIssues | scripts/docs/check-known-issues.ts:129-169 | one record for each record line and one row for each row line of the index, in order, read from that line: a record's status and severity from the last bracket group of its heading, or from nothing |
| KnownIssues.LastGroupDecides | scripts/docs/check-known-issues.ts:121-127 | headings with the same last bracket group give the same status and severity, whatever else they say |
| KnownIssues.InIndexIff | scripts/docs/check-known-issues.ts:137-149 | a line belongs to the index exactly when the last section header at or before it opened it |
| KnownIssues.CellsCounted | scripts/docs/check-known-issues.ts:155-163 | a row printed from its cells with a leading and a closing pipe counts those cells; without the closing pipe a blank last cell is not counted |
| KnownIssues.SummarizeRecords | scripts/docs/check-known-issues.ts:358-376 | the counters are the numbers of records in each class, by the status and severity their headings declare: none declared counts as open, no severity as medium |
| KnownIssues.ClassesAddUp | scripts/docs/check-known-issues.ts:358-376 | open + accepted + closed = total, and the severities add up to open |
| KnownIssues.CheckKnownIssues | scripts/docs/check-known-issues.ts:274-344 | the findings of records, rows, summary table, orphans and coverage, in order |
| KnownIssues.ErrorsAre | scripts/docs/check-known-issues.ts:274-344 | what each finding means, in the ledger's own fields: the record, row or declared count it is about, and what is wrong with it |
| KnownIssues.ErrorsInOrder | scripts/docs/check-known-issues.ts:274-344 | they come in five parts: records, rows, summary table, rows without a record, records against rows |
| KnownIssues.NoErrorsIff | scripts/docs/check-known-issues.ts:278-341 | no error exactly when ids are unique on both sides, rows are well formed, every record has status and severity, rows and records correspond one to one by id with equal status and severity, and every count the summary declares is the number of records of its class |
| KnownIssues.CleanCountsAgree | scripts/docs/check-known-issues.ts:354-376 | on a clean ledger open, accepted, closed and per-severity open counts over the rows equal those over the records |
| PromptPackage.CheckManifest | scripts/docs/check-prompt-package.ts:366-394 | the findings of every row and of every unlisted file, in order |
| PromptPackage.RowErrorsAre | scripts/docs/check-prompt-package.ts:371-388 | a row is held against an earlier row with its id, the last earlier row with its path, and a file that is not there, in this order |
| PromptPackage.InventoryFindingsAre | scripts/docs/check-prompt-package.ts:350-394 | the findings are the missing required files and, of a manifest that is there, those of its rows and the files no row lists |
| PromptPackage.InventoryInOrder | scripts/docs/check-prompt-package.ts:350-394 | in that order |
| PromptPackage.InventoryIsBijection | scripts/docs/check-prompt-package.ts:350-394 | no finding exactly when the required files are there, manifest ids are distinct, and the paths enumerate exactly the package's files once each |
| PromptPackage.ParseSections | scripts/docs/check-prompt-package.ts:277-293 | each heading closes the section being read; lines before the first heading are dropped |
| PromptPackage.SectionsKeepLines | scripts/docs/check-prompt-package.ts:277-293 | from the first heading on no line is lost, repeated, moved or put under another heading; what precedes it is dropped |
| PromptPackage.ClassifyNextSection | scripts/docs/check-prompt-package.ts:204-251 | a template wins, then the successors that remain after range and exclusion, then delegation, then terminal |
| PromptPackage.TargetsAre | scripts/docs/check-prompt-package.ts:211-245 | a template names nothing; otherwise the targets are exactly the numbers from 10 to 430 that are named and not excluded and lie in the step's range or right after it, ascending; the kind is explicit with a target, delegated without one if the section delegates, terminal if not |
| PromptPackage.StepRanges | scripts/docs/check-prompt-package.ts:484-489 | every directory with a prompt, and no other, has the exact least and greatest prompt number, whatever the visiting order |
| PromptPackage.DirOfIs | scripts/docs/check-prompt-package.ts:486 | a path's directory is what precedes its first slash, or the root |
| PromptPackage.CheckEdges | scripts/docs/check-prompt-package.ts:501-516 | the findings of every edge, in order |
| PromptPackage.EdgesAre | scripts/docs/check-prompt-package.ts:491-497 | a numbered file has an edge for exactly the successors its section names, none if it is a template |
| PromptPackage.EdgeErrorsAre | scripts/docs/check-prompt-package.ts:501-516 | an edge is held against a missing target, its own prompt as target, or an earlier one |
| PromptPackage.NoEdgeFindingsIff | scripts/docs/check-prompt-package.ts:499-516 | no finding exactly when every edge leads to a prompt of the package with a greater number |
| PromptPackage.WalksIncrease | scripts/docs/check-prompt-package.ts:499-516 | without a finding every walk strictly increases the prompt number and stays in the package |
| PromptPackage.WalksAreBounded | scripts/docs/check-prompt-package.ts:499-516 | and has no more prompts than the package |
| PromptPackage.GatePassesIff | scripts/docs/check-prompt-package.ts:501-516 | the gate, which fails on errors only, passes exactly when every edge leads to another prompt of the package |
| PromptPackage.PassingPackageMayCycle | scripts/docs/check-prompt-package.ts:508-515 | two prompts of one step that name each other pass the gate and form a cycle |
| PromptPackage.AcyclicIff | scripts/docs/check-prompt-package.ts:508-515 | the references are acyclic exactly when no self or backward reference names a prompt from which its own prompt can be reached |
| PromptPackage.EdgesStayInStep | scripts/docs/check-prompt-package.ts:198-202 | whatever numbers repeat, a reference stays in its step's exact range or is the number right after it exactly when surviving files of its directory have numbers on both sides of its own; it is always one its section names and does not exclude |
| PromptPackage.OwnRangeIff | scripts/docs/check-prompt-package.ts:198-202 | a file lies in the range of its own directory exactly when two files of that directory, whose numbers no later file repeats, have numbers on both sides of its own |
| PromptPackage.DirectoryHasRangeIff | scripts/docs/check-prompt-package.ts:484-489 | a directory has a range exactly when the number of one of its files is not repeated by a later file |
| PromptPackage.DistinctNumbersSuffice | scripts/docs/check-prompt-package.ts:198-202 | with distinct numbers every reference stays in its step or is the number right after it |
| PromptPackage.DuplicateNumberEscapesRange | scripts/docs/check-prompt-package.ts:422 | two files in different directories with one number: the first directory has no range, and any prompt number is accepted as successor |
| PromptPackage.DuplicateNumberNarrowsRange | scripts/docs/check-prompt-package.ts:422 | with another surviving number in the directory the range is there but narrowed: the file lies outside it and a successor its section names is dropped |
| PathPattern.PatternRoundTrip | scripts/git/check-protected-paths.ts:150-154 | the pattern text built for any list parses back, by ECMA-262's grammar, to two anchors around one group with one literal alternative per path |
| PathPattern.PatternMatchesExactly | scripts/git/check-protected-paths.ts:150-154 | that pattern matches exactly the listed paths, except that the empty list's pattern matches the empty path |
| PathPattern.LanguageIsListIff | scripts/git/check-protected-paths.ts:150-154 | the language is the list if and only if the list is not empty |
| PathPattern.SyntaxIs | scripts/git/check-protected-paths.ts:150-154 | the escaped characters are exactly the fourteen of the class |
| ProtectedPaths.CheckEntry | scripts/git/check-protected-paths.ts:187-199 | the report of the first rule in table order that matches and is not exempt, or none |
| ProtectedPaths.InListIsPattern | scripts/git/check-protected-paths.ts:150-161 | a path is on a list exactly when the pattern built from the list, read by ECMA-262's grammar, matches it, the empty list included |
| ProtectedPaths.CheckProtectedPaths | scripts/git/check-protected-paths.ts:185-201 | the reports of the entries, in input order |
| ProtectedPaths.SeverityIs | scripts/git/check-protected-paths.ts:163-201 | one finding at most; forbidden exactly for a path under the blueprint or package folder, a real environment file, or a migration not merely added, unless it is unlocked, which is only a caution |
| ProtectedPaths.PackageIsForbiddenUnlessUnlocked | scripts/git/check-protected-paths.ts:11-16 | inside the package tree every path is reported, with a caution exactly when it is unlocked |
| ProtectedPaths.FindingsAre | scripts/git/check-protected-paths.ts:185-235 | at most one finding per entry, and the gate fails exactly when some entry is forbidden |
| ChangedPaths.OutputReads | scripts/git/check-protected-paths.ts:203-217 | the output of a list of plain changes is read as their entries in order, each with its status letter and last path |
| ChangedPaths.LineIs | scripts/git/check-protected-paths.ts:207-217 | of any line: nothing of a blank one or one without a tab, otherwise its first character as status and its last field as path |
| ChangedPaths.GateMissesIff | scripts/git/check-protected-paths.ts:203-229 | the gate lets a change of forbidden paths through exactly when it renames one of them away and every path it leaves is allowed |
| ChangedPaths.RenameOutOfTreeIsMissed | scripts/git/check-protected-paths.ts:214-217 | a blueprint file renamed to an unprotected path gives no finding |
| ChangedPaths.QuotedPathIsMissed | scripts/git/check-protected-paths.ts:163-201 | a path printed in quotes is matched by no rule but the environment-file rule |
| UnlockedPaths.RepositoryListsAreInPackage | scripts/git/check-protected-paths.ts:48-161 | the three lists are not empty and name paths of the package tree only, as the rules assume |
| ProtectedPaths.ReportsAreLocal | scripts/git/check-protected-paths.ts:187-199 | reports of a concatenation are the concatenated reports |
| ProtectedPaths.AddedMigrationIsFlaggedIff | scripts/git/check-protected-paths.ts:18-24 | an added migration is flagged if and only if its base name reads as a real environment file, and then by that rule |
| ProtectedPaths.AddedMigrationMayBeFlagged | scripts/git/check-protected-paths.ts:18-24 | an added migration for which that happens, and its finding |
| ProtectedPaths.EnvPatternIsBaseName | scripts/git/check-protected-paths.ts:172 | the environment-file pattern with its lookahead decides on the base name alone |
| ProtectedPaths.MigrationPatternIs | scripts/git/check-protected-paths.ts:39 | the migration pattern matches exactly the folder, a digit, anything on one line and the ending |
| ProtectedPaths.RealEnvIs | scripts/git/check-protected-paths.ts:172 | the environment-file pattern matches exactly the paths whose base name is .env or .env. and anything but example, sample and template |
| ProtectedPaths.EditedMigrationIsForbidden | scripts/git/check-protected-paths.ts:163-201 | with every status but added such a migration gets exactly one finding, forbidden by the migration rule |
| WorktreeCollision.ForkIffIncomparable | scripts/git/check-worktree-collision.ts:74-84 | for every best common ancestor git may choose, a pair is a fork exactly when neither tip contains the other |
| WorktreeCollision.AheadIff | scripts/git/check-worktree-collision.ts:60-68 | a branch is ahead exactly when main is known and does not contain its tip |
| WorktreeCollision.DivergedAre | scripts/git/check-worktree-collision.ts:87-90 | the compared branches are exactly the listed ones that are ahead |
| WorktreeCollision.DivergedInOrder | scripts/git/check-worktree-collision.ts:87-90 | they are kept once each, in the order of the list, with their count and tip |
| WorktreeCollision.CheckWorktreeCollision | scripts/git/check-worktree-collision.ts:86-116 | the result is that of the pairs, or the exception of the first git command that fails |
| WorktreeCollision.EveryPairOnce | scripts/git/check-worktree-collision.ts:93-101 | every unordered pair is reported once at most: the reports are as many as the forked pairs of positions |
| WorktreeCollision.ReportsAreForkedPairs | scripts/git/check-worktree-collision.ts:93-101 | and they name exactly the branches of the forked pairs |
| WorktreeCollision.AnsweredIffShared | scripts/git/check-worktree-collision.ts:82 | the check gets to the end exactly when all compared branches share history pairwise |
| WorktreeCollision.NoRiskIffChain | scripts/git/check-worktree-collision.ts:106-107 | for every commit graph no risk is reported exactly when the tips can be ordered into a chain under ancestry |
| WorktreeCollision.NoRiskHasTop | scripts/git/check-worktree-collision.ts:106-107 | and then one tip contains all others, and no other commit does |
| WorktreeCollision.CheckIsExact | scripts/git/check-worktree-collision.ts:86-116 | from the list of branches: the compared tips are commits of the graph, the check gets to the end exactly when they share history pairwise, and it then reports no risk exactly when they can be ordered into a chain, of which one contains all |
| SsrfGuard.PackIsPositional | lib/webhooks/ssrf-guard.server.ts:34-37 | packing octets through signed shifts and ors gives the positional value |
| SsrfGuard.Ipv4Reads | lib/webhooks/ssrf-guard.server.ts:34-37 | an IPv4 text is the dotted form of the octets it is read as |
| SsrfGuard.Ipv4Iff | lib/webhooks/ssrf-guard.server.ts:94 | the IPv4 texts are exactly the dotted forms of four octets, each of one |
| SsrfGuard.RangeComparesPrefixes | lib/webhooks/ssrf-guard.server.ts:39-42 | for every prefix length from 0 to 32 the shift-and-mask test asks whether two addresses lie in the same aligned block |
| SsrfGuard.BlockIsQuotient | lib/webhooks/ssrf-guard.server.ts:39-42 | lying in the same block is having equal integer quotients |
| SsrfGuard.UnsafeIsUnionOfIntervals | lib/webhooks/ssrf-guard.server.ts:49-65 | the refused addresses are a union of eleven integer intervals |
| SsrfGuard.TableIsUnionOfIntervals | lib/webhooks/ssrf-guard.server.ts:39-65 | for any range table, whatever its bases, membership is a union of integer intervals, one for each entry |
| SsrfGuard.UnsafeAddressesAre | lib/webhooks/ssrf-guard.server.ts:44-65 | exactly the networks the comment names are refused |
| SsrfGuard.CheckAddresses | lib/webhooks/ssrf-guard.server.ts:119-126 | the first unsafe address is reported, entries of other families are passed over |
| SsrfGuard.CheckWebhookDispatchUrlIsSafe | lib/webhooks/ssrf-guard.server.ts:87-127 | safe exactly for a parseable https URL whose host is a literal outside the refused networks or resolves to a non-empty list without an unsafe entry of family 4 or 6; the reason given is the first that holds |
| SsrfGuard.OrderIsIrrelevant | lib/webhooks/ssrf-guard.server.ts:119-124 | two lists with the same IPv4 and IPv6 entries are accepted alike exactly when both or neither are empty, or an unsafe entry refuses both |
| Words32.AndMask | lib/webhooks/ssrf-guard.server.ts:40-41 | masking a word by leading ones leaves the multiple of the block size below it |
| Words32.OrDisjoint | lib/webhooks/ssrf-guard.server.ts:36 | an or of disjoint bits is a sum |
| Pagination.ComputePaginationRange | lib/tables/pagination-range.ts:24-55 | over a finite total: the pages hold the rows, the page is the one asked for brought between 1 and the last, the first for what is not a number, with both flags and the items of the window; over an infinite total the endless range, without any page when the size is infinite too |
| Pagination.WindowCoversAllPages | lib/tables/pagination-range.ts:30-46 | reading an ellipsis as the pages it hides, the items are 1 to the last page, each once |
| Pagination.WindowShows | lib/tables/pagination-range.ts:30-46 | the pages shown are exactly first, last, current and its neighbours; an ellipsis stands exactly where two shown neighbours are more than one apart |
| Pagination.EndlessShows | lib/tables/pagination-range.ts:25-46 | over an infinite total the page is the one asked for, at least the first; the window shows the first, that one and its neighbours, then an ellipsis and the last page, which is infinity |
| Pagination.WindowIsShort | lib/tables/pagination-range.ts:30-46 | there are at most seven items |
| Pagination.TotalPagesFit | lib/tables/pagination-range.ts:25-27 | the pages hold all rows of the count and size given, each at its least value when it is no number, and the last one is needed; an infinite page size needs one page |
| Pagination.OnePageCountFits | lib/tables/pagination-range.ts:25-27 | and no other page count does |
| Redact.HashUnits | scripts/env/redact.ts:20-24 | the wrapping signed loop computes the unwrapped polynomial in 31 modulo 2^32 |
| Redact.Fingerprint | scripts/env/redact.ts:20-26 | the printed fingerprint is that of the length and the hash |
| Redact.HexReads | scripts/env/redact.ts:26 | the hexadecimal text has the number's value and no leading zero |
| Redact.HashOfConcatenation | scripts/env/redact.ts:20-26 | the hash of s + t is hash(s) times 31 to the length of t, plus hash(t), modulo 2^32 |
| Redact.FingerprintsAgreeIff | scripts/env/redact.ts:14-26 | printed fingerprints are equal exactly when length and hash are |
| EnvValidation.CheckProductionLinkage | scripts/env/validate.ts:73-93 | loopback required in the local class and refused in every other |
| EnvValidation.LoadEnv | scripts/env/validate.ts:100-141 | values or all failures in registry order, the linkage failure last |
| EnvValidation.ClassNamedIff | scripts/env/schema.ts:28-36 | the seven class names are recognised and nothing else |
| EnvValidation.FailuresRevealNoValue | scripts/env/validate.ts:95-99 | environments alike in class, in which variables are unset, valid or invalid with which issues, and in loopback fail with identical failures, whatever the raw values |
| EnvValidation.LoadSucceedsIff | scripts/env/validate.ts:73-141 | success exactly when every demanded variable is set, not empty and valid and a demanded Supabase address is on 127.0.0.1, localhost or ::1 just in the local class; the values are then exactly those of the demanded variables, as they stand in the source |
| EnvValidation.LoadReports | scripts/env/validate.ts:100-141 | a missing or unknown class alone; otherwise each demanded variable that is unset, empty or invalid, in registry order with its issues, and last a valid Supabase address on the wrong side of the loopback rule |
| EnvValidation.RegistryRequires | scripts/env/schema.ts:62-123 | the registry declares the class variable, requires six variables in every class and the cron secret in production only |
| EnvValidation.SecretsAre | scripts/env/schema.ts:62-117 | the secrets are the service-role key and the cron secret |
| EnvValidation.PublicAre | scripts/env/schema.ts:62-117 | the prefix that puts a variable into the browser bundle is that of the public variables, so of no secret |
| EnvValidation.AuditMarksAllSet | scripts/env/validate.ts:143-148 | after a success the audit has one line for every demanded variable, in registry order with its name and classification, and marks it as set |
| ChartTooltip.DecodeEscape | lib/charts/chart-tooltip.ts:9-24 | decoding undoes escaping on every string, whatever follows and whatever other references the decoder knows |
| ChartTooltip.EscapedIsPlain | lib/charts/chart-tooltip.ts:2-7 | an escaped text has no angle bracket |
| ChartTooltip.TooltipShowsItsContent | lib/charts/chart-tooltip.ts:39-58 | scanning the HTML finds the template's tags and decoding its text gives back every value in place |
| ChartTooltip.TooltipReads | lib/charts/chart-tooltip.ts:39-58 | to any HTML reader the tooltip reads as its heading and then each row's caption, value and comparison, unless that is absent or empty, with nothing but layout around them |
| ChartTooltip.TooltipIsNested | lib/charts/chart-tooltip.ts:39-58 | every element the HTML opens is closed in it, innermost first, whatever the texts hold |
| ChartTooltip.MarkupDependsOnShape | lib/charts/chart-tooltip.ts:2-7 | the tags depend only on the number of rows and on which comparisons are not empty |

## Left out

- User interface, hooks, pages, design-system data and the other provider clients, processors, guards and command-line checks: no further hard property.
- The bodies of the database functions: `DeliveryProtocol` and `MalwareScan` model only how attempts, verdicts, claims and reports change the row and the job.
- Authority checks of the database functions, which may make a report raise: the model lets it through.
- Paths that git prints in quotes: what the rules make of one is stated (`QuotedPathIsMissed`), which paths git quotes is not.
- Two workers on one job at the same time: runs of one job follow one another, as the claim's lease intends.
- Runs that end in an exception of an RPC are cut off at an arbitrary event; what the exception says is not modelled.
- `checkForBuriedClosures`, a heuristic warning, and the version, heading and metadata findings of the package check.
- Regular expressions other than the ones of the protected-path rules are arbitrary classifications of lines or texts.
- The text of the summary table's patterns: the declared totals are inputs.
- The wording of error messages, JSON printing, URL parsing, IPv6 recognition and date parsing.
- The hash behind `bucketFor` is an arbitrary function, reduced modulo 100.
- Strings are sequences of characters: sorting compares character codes, where JavaScript compares UTF-16 code units; `Redact` works on code units.
- Floating point: the page count divides exactly, which double precision also does for counts below 2^53; rollout percentages are real numbers.
- Number texts other than decimal digits in `ipv4ToInt`: they count as zero here. Only literal hosts are checked to be IPv4 addresses; the addresses of a lookup are taken from the resolver by their family, without a check of their text.
- The rules' lemmas hold for any lists of unlocked package paths, and loading for any registry; the repository's own are shown to meet what is assumed of them. The schemas in the registry are arbitrary.
- A section's body is kept as its lines; the original joins them.
- Matching by name in `git branch` output, the dirty-file list, and reading and writing of files.
- The order in which set and map entries are visited is arbitrary where the source's order does not matter.
- Waiting between polls, timers and abort signals: a timeout is one of the possible replies.
- Detection counts of the scanner are integers.
