# Proofs about the platform's daemons and build, render and billing paths

This project models the parts of the platform that keep state or transform documents under concurrency, crashes and
untrusted input, and proves what their code and documentation promise of every run. Where the code does less than its
comments say, the model follows the code: a lemma shows the input on which the promise fails, and another says exactly
when it holds.

- **Bucket exporter** (`Scheduler`, `Freshness`, `ActivityLog`, `Exporter`). The read scheduler never starves a bucket,
  reads changed buckets first and forgets no write it was shown. The log cursor tiles time, and the cross-check of the
  log against Garage's counter raises no false alarm, and which refreshes decide it is known exactly.
- **App-auth** (`Access`, `AccessBinding`, `AccessCache`, `Preview`, `Seal`, `SignIn`, `SignInHandlers`,
  `SignInAdmission`, `SignOut`, `EndedSessions`, `Cookies`). Sign-ins racing for access-list entries, single-use codes
  that carry a sign-in across two hosts, sign-out records with their one delivery, and the two caches that stand between
  the database and a request.
- **Builds** (`BuildWorker`, `BuildCrash`, `BuildLog`). A worker that may die between any two calls, and the byte offsets
  of the log it mirrors.
- **Post-renderer** (`PostRender`, `PostRenderPass`). What rewriting and stopping do to parsed documents.
- **API** (`Identity`, `Webhook`, `NestedPath`). Who a request comes from, what payment notifications do, and reads and
  writes along a path.
- `Text`, `Numerals`, `Options` and `Json` are shared helpers.

Objects that change in place are classes, each method proved to take its state to a function of the old one, or a step
away from it; the theorems are about those functions, and about runs of such steps in any interleaving. A run is a
sequence of states and events; what the network, the clock, Keycloak, Loki, Garage, kubectl and the payment provider
answer are parameters of the events.

Where the code and its own words part ways:

- The claim that every bucket is read within 2N turns needs each turn's pick to yield to those it passes over, which
  turns at increasing times do: equal times are ordered by alias and can starve a bucket
  (`Scheduler.EqualTimesStarve`, `Scheduler.YieldsTo`, `Scheduler.IncreasingTimesYield`).
- The configuration accepts a refresh interval equal to the lag, but then the cross-check may never decide anything
  (`ActivityLog.OneLagApartNeverDecides`): a refresh decides exactly when it comes the lag, and the fraction of a second
  that truncating loses, after the one before (`ActivityLog.DecidesExactly`, `ActivityLog.IntervalsThatDecide`).
- A bucket recovered from a stored size and not yet listed has no Garage id, so a write logged by id is missed
  (`Freshness.UnlistedIdIsMissed`). So is one to a bucket that is missing from a list, and back in a later one, while it
  is being read (`Freshness.RelistedReadIsMissed`). Nothing is forgotten exactly as long as every window names the listed
  buckets by names the scheduler knows, or missing one is harmless, and no list brings back the bucket being read once a
  later write to it has been shown (`Freshness.RunRemembersExactly`).
- Nothing keeps an OIDC code from being stored after its Keycloak session has ended; that app hears of no sign-out
  (`SignOut.LateSignInIsMissed`, `SignOut.NoAppLeftSignedIn`).
- `KubectlBuildJobClient` reports a failed `kubectl get` as a missing Job and ignores a failed delete, so a build can be
  given up while its Job runs on (`BuildCrash.FailedGetOrphans`, `BuildCrash.NoOrphansExactly`,
  `BuildCrash.UntruthfulAnswerToBlame`).
- Log offsets under the truncation marker do change once (`BuildLog.OtherOffsetsChange`), and the platform's last line is
  added past the cap.
- A stopped release "runs nothing" but for DaemonSets, bare ReplicaSets and ReplicationControllers, and whatever is
  inside a `List`, all of which pass through (`PostRender.StoppedStartsNothingKnown`, `PostRender.StoppedListRuns`).
- "Each pod template gets" the egress gate but those inside a `List`, and that of a workload other than a CronJob with a
  `jobTemplate` in its spec (`PostRender.GatedExactly`, `PostRender.OddEscapes`, `PostRender.ListedEscapes`).
- A Pod or autoscaler that would be dropped still fails the render when it cannot be rewritten
  (`PostRender.StepsCommute`).
- A first payment that fails and is then paid leaves its deployment `provisioning` with no job
  (`Webhook.LatePaymentStartsNothing`), and a subscription set back to `pending` through the API can get a second create
  job (`Webhook.ResetEnqueuesTwice`), exactly when it has a first payment and one of its deployments has had one
  (`Webhook.ResetIsSafeExactly`).

## Model

| member | source | states |
|---|---|---|
| Scheduler.FirstAlias | daemons/bucket-exporter/state.go:51-58 | the first alias of the deployments' prefix, or none when no alias has it |
| Scheduler.DeploymentAlias | daemons/bucket-exporter/state.go:51-58 | the loop finds that alias |
| Scheduler.State.constructor | daemons/bucket-exporter/state.go:42-48 | the first state |
| Scheduler.State.SetBuckets | daemons/bucket-exporter/state.go:63-85 | listed buckets are kept or added, vanished ones dropped, and every id and alias of the list known |
| Scheduler.State.Seed | daemons/bucket-exporter/state.go:89-105 | recovered sizes fill only buckets without one, and add those not listed |
| Scheduler.State.MarkWritten | daemons/bucket-exporter/state.go:110-124 | writes named by alias or id move their buckets' marks forward, never back |
| Scheduler.State.SetActivityOK | daemons/bucket-exporter/state.go:126-130 | sets the signal and nothing else |
| Scheduler.State.Next | daemons/bucket-exporter/state.go:138-155 | a turn of the machine: a changed bucket on a changed turn with the signal up, else the oldest |
| Scheduler.State.Oldest | daemons/bucket-exporter/state.go:160-172 | the scan's pick comes before every other candidate by time tried, then alias |
| Scheduler.State.Read | daemons/bucket-exporter/state.go:175-182 | records a size and when it was read |
| Scheduler.State.ReadFailed | daemons/bucket-exporter/state.go:186-190 | counts a failure and leaves every mark |
| Scheduler.State.Succeeded | daemons/bucket-exporter/state.go:193-199 | the time of the last success only moves forward |
| Scheduler.ListedExactly | daemons/bucket-exporter/state.go:63-85 | an alias is listed exactly when some bucket of the list has it as its first deployment alias |
| Scheduler.FirstAliasIsFirst | daemons/bucket-exporter/state.go:51-58 | a bucket goes by the first of its aliases with the prefix |
| Scheduler.AliasMapIsLast | daemons/bucket-exporter/state.go:68-84 | an id stands for the deployment alias it was last listed with |
| Scheduler.SizeIsLatest | daemons/bucket-exporter/state.go:63-182 | over any run from no buckets, a published size is the one read of the bucket last, or recovered if it has not been read, since it was listed |
| Scheduler.LastSuccessIsReal | daemons/bucket-exporter/state.go:174-199 | the last success published is that of the last read, or of a later answer since |
| Scheduler.ErrorsAreFailures | daemons/bucket-exporter/state.go:186-190 | each failed read is counted once |
| Scheduler.FieldsStay | daemons/bucket-exporter/state.go:63-199 | turns alternate by picks alone, the signal is moved by itself alone, and ids are learned from lists alone |
| Scheduler.MarksExactly | daemons/bucket-exporter/state.go:110-124 | a write is marked on the bucket its name stands for, unless the signal is down or the mark is as late already |
| Scheduler.TurnsAlternate | daemons/bucket-exporter/state.go:132-155 | turns alternate: a changed bucket only on a changed turn with the signal up and always then if there is one, else the one tried longest ago; the pick counts as tried now |
| Scheduler.PassedOver | daemons/bucket-exporter/state.go:138-172 | a turn that passes over a bucket, its pick yielding, sends the pick behind it and puts nothing ahead |
| Scheduler.WaitShortens | daemons/bucket-exporter/state.go:138-172 | each such turn shortens the wait; only an added bucket lengthens it, by two |
| Scheduler.NoStarvation | daemons/bucket-exporter/state.go:63-172 | a listed bucket is picked within 2(r + 1 + a) turns, r ahead of it and a added, whatever else happens, if every pick made instead yields to it |
| Scheduler.StalenessBound | daemons/bucket-exporter/state.go:132-155 | with nothing added, within 2N turns of N buckets |
| Scheduler.ChangedComesSooner | daemons/bucket-exporter/state.go:132-155 | while the signal is up and the bucket stays changed, within r + 1 + a turns |
| Scheduler.IncreasingTimesYield | daemons/bucket-exporter/state.go:138-155 | turns that each come later than the one before always do |
| Scheduler.YieldsTo | daemons/bucket-exporter/state.go:157-172 | a pick goes behind a waiting bucket exactly when that was tried earlier, or then under a lesser alias |
| Scheduler.EqualTimesStarve | daemons/bucket-exporter/state.go:157-172 | turns all at one time can pass over a bucket any number of times |
| Freshness.NoShownWriteForgotten | daemons/bucket-exporter/main.go:29-98 | under any interleaving of refreshes and reads whose steps are heeded, a listed bucket recorded as read and not changed had its read begun after every shown write, and is recorded as read then |
| Freshness.LandsExactly | daemons/bucket-exporter/state.go:175-182 | a landing, of a read begun whenever, forgets nothing exactly when a mark after its beginning is there or no write after it was shown |
| Freshness.StepRemembersExactly | daemons/bucket-exporter/state.go:63-182 | one step leaves nothing forgotten, now and when the read in flight lands, exactly when it is heeded: a window names each listed bucket as known or missing it is harmless, a list does not bring back the bucket being read after a later write to it |
| Freshness.RunRemembersExactly | daemons/bucket-exporter/main.go:29-98 | no state of a run forgets a shown write, nor will by the read in flight, exactly when all its steps are heeded |
| Freshness.KnownExactly | daemons/bucket-exporter/state.go:110-124 | no window whatever can name a listed bucket by an unknown name exactly when the list in force knows all their names |
| Freshness.KnownBucketByBucket | daemons/bucket-exporter/state.go:63-85 | which is so exactly when each bucket is known by its ids, and by its alias unless that is an id |
| Freshness.KnownIsHeeded | daemons/bucket-exporter/state.go:110-124 | then every window is heeded |
| Freshness.KnownOnceListed | daemons/bucket-exporter/state.go:63-85 | one true list makes every bucket's id and alias known |
| Freshness.KnownKept | daemons/bucket-exporter/state.go:89-105 | they stay known until an unlisted bucket's size is recovered |
| Freshness.UnlistedIdIsMissed | daemons/bucket-exporter/state.go:89-124 | a run from the start in which a recovered bucket is read and then misses a write logged by its id |
| Freshness.RelistedReadIsMissed | daemons/bucket-exporter/state.go:63-85 | a run from the start in which a bucket vanishes and comes back while it is read, and misses a write shown in between |
| ActivityLog.Truncate | daemons/bucket-exporter/activity.go:75-79 | whole seconds: less than a second is lost |
| ActivityLog.KeepLast | daemons/bucket-exporter/activity.go:142-147 | the last n, in order |
| ActivityLog.HoldsTheLatest | daemons/bucket-exporter/activity.go:98-105 | four windows and three readings are held, the new one last |
| ActivityLog.RangeEndIsLatest | daemons/bucket-exporter/activity.go:75-80 | a range ends at the latest whole second that is a lag ago and within the hour |
| ActivityLog.Judged | daemons/bucket-exporter/activity.go:115-129 | the latest pair of readings the log has been read past, or none |
| ActivityLog.SumOver | daemons/bucket-exporter/activity.go:126-139 | the loop sums exactly the windows that overlap the interval |
| ActivityLog.Activity.constructor | daemons/bucket-exporter/activity.go:62-70 | an empty log, read to a lag before now |
| ActivityLog.Activity.Writes | daemons/bucket-exporter/activity.go:75-100 | a window of all its samples is consumed and their buckets named in order, or nothing changes when none is due or the query fails |
| ActivityLog.Activity.Counted | daemons/bucket-exporter/activity.go:103-105 | three readings are kept |
| ActivityLog.Activity.Broken | daemons/bucket-exporter/activity.go:115-140 | the backward loop reaches the verdict on the latest decided interval |
| ActivityLog.VerdictExactly | daemons/bucket-exporter/activity.go:115-139 | by the latest reading read past and the one before it: broken exactly when no overlapping window has a line, or the last verdict when there was no rise or the windows begin later |
| ActivityLog.TiledStays | daemons/bucket-exporter/activity.go:75-100 | windows stay whole-second, contiguous, at most an hour long, and end at the cursor |
| ActivityLog.TotalIsCount | daemons/bucket-exporter/activity.go:92-98 | when each sample has the number of lines its bucket has in the range and every bucket with lines has a sample, a window counts all the lines in its range |
| ActivityLog.TotalIsNone | daemons/bucket-exporter/activity.go:92-98 | a window counts none exactly when every sample is empty |
| ActivityLog.NamesAreWritten | daemons/bucket-exporter/activity.go:93-95 | and the names handed on are those of the buckets with lines there |
| ActivityLog.RiseIsLogged | daemons/bucket-exporter/activity.go:107-140 | a counter that rose, restarts or not, rose by a write, and a logged write is a line in between |
| ActivityLog.VerdictSound | daemons/bucket-exporter/activity.go:107-140 | no verdict accuses a log that has every write |
| ActivityLog.NoFalseAlarm | daemons/bucket-exporter/activity.go:62-140 | in no reachable state, through failures, clamped ranges, dropped windows and restarts |
| ActivityLog.EachLineOnce | daemons/bucket-exporter/activity.go:72-100 | every line between a run's first and last cursor was counted exactly once |
| ActivityLog.Decides | daemons/bucket-exporter/activity.go:107-147 | a regular refresh judges the interval between the two before it: broken exactly when the counter rose and no sample of either answer over it has a line |
| ActivityLog.AlwaysDecides | daemons/bucket-exporter/activity.go:75-147 | from the third regular refresh on it always does, so three readings and four windows are enough |
| ActivityLog.AccusedExactlyWhenSilent | daemons/bucket-exporter/activity.go:107-140 | the log is accused exactly when it holds no line over those windows |
| ActivityLog.DecidesExactlyWhen | daemons/bucket-exporter/activity.go:75-129 | a refresh judges the interval before its own exactly when it comes the lag and the fraction lost after that interval's end, and never another |
| ActivityLog.DecidesExactly | daemons/bucket-exporter/activity.go:75-147 | from the third of any refreshes in order and under an hour apart, each that comes so settles the verdict by the lines over the interval before its own, and any other lets it stand |
| ActivityLog.IntervalsThatDecide | daemons/bucket-exporter/config.go:75-79 | every refresh decides from an interval of a lag and a second less a nanosecond, none under a lag, and at one lag those on whole seconds |
| ActivityLog.OneLagApartNeverDecides | daemons/bucket-exporter/config.go:75-79 | refreshes one lag apart, which the configuration accepts, may never decide |
| Exporter.Exporter.constructor | daemons/bucket-exporter/main.go:63-76 | scheduler and log as they start |
| Exporter.Exporter.Relist | daemons/bucket-exporter/main.go:30-38 | a list that cannot be had changes nothing |
| Exporter.Exporter.Refresh | daemons/bucket-exporter/main.go:29-59 | list, count, read, judge and mark, in that order |
| Exporter.Exporter.ReadOne | daemons/bucket-exporter/main.go:79-98 | one turn and one read, of the size as of that turn |
| Exporter.SignalAfterRefresh | daemons/bucket-exporter/main.go:39-58 | the signal is up exactly when the log answered and the cross-check stands |
| Exporter.LogAfterRefresh | daemons/bucket-exporter/main.go:40-52 | the log is told the count, asked for its range, and judged if it answered |
| Exporter.OnlySilenceTakesTheSignalDown | daemons/bucket-exporter/main.go:29-59 | while every write is logged, only a log that does not answer takes it down |
| Exporter.WindowsEndInThePast | daemons/bucket-exporter/activity.go:75-79 | a window never ends after the refresh that reads it |
| Exporter.MarksAfter | daemons/bucket-exporter/main.go:46-58 | writes are marked only while the signal is up |
| Exporter.RefreshMarksTheWritten | daemons/bucket-exporter/main.go:46-58 | a refresh that is answered truly marks exactly the listed buckets with a line in the range read, by id or alias, as of its end |
| Exporter.RefreshIsWatched | daemons/bucket-exporter/main.go:29-59 | every refresh is made of steps the freshness theorem covers |
| Access.Admits | daemons/app-auth/access.go:17-36 | the two loops decide as the list rule says, and name the first open entry |
| Access.FirstOpen | daemons/app-auth/access.go:30-35 | an open entry for the address, or there is none |
| Access.EqualFoldExactly | daemons/app-auth/access.go:22-31 | two addresses are one exactly when they differ in nothing but the case of letters |
| Access.AdmitExactly | daemons/app-auth/access.go:17-36 | admitted is exactly who the owner or an entry names by subject, the owner by address while without one, and who an unbound entry waits for by address; only the last is to be bound, to the first such entry |
| Access.BoundListAdmitsItsSubjects | daemons/app-auth/access.go:17-36 | a list with no open place admits exactly the subjects it names |
| AccessBinding.AccessTable.BindEntry | daemons/app-auth/store.go:230-240 | an entry is bound only while unbound and only to a subject with no entry there, and says whether it was |
| AccessBinding.AdmittedWasAdmissible | daemons/app-auth/access.go:40-60 | a binding sign-in is admitted only if at some moment of it the owner rule or an entry of its subject admitted it |
| AccessBinding.OneEntryEach | api/alembic/versions/b4d8f2a6c1e9_app_access_list.py:35-43 | no subject ever holds two entries of one deployment |
| AccessBinding.BoundForGood | daemons/app-auth/store.go:230-240 | a bound entry keeps its subject as long as it exists, and its id is not used again |
| AccessBinding.OneSubjectEver | daemons/app-auth/store.go:230-240 | over a whole run an entry carries at most one subject |
| AccessBinding.OneWinner | daemons/app-auth/access.go:40-60 | of sign-ins racing for an entry at most one binds it |
| AccessBinding.LoneCallIsAnswered | daemons/app-auth/access.go:40-60 | a call that nothing interrupts is answered by the list as it stands, and goes on to bind exactly when it binds and an entry waits for its address; the second time round only being recognised will do |
| AccessBinding.LoneSignInIsBound | daemons/app-auth/store.go:230-240 | going on alone it gets that entry, and no other row changes |
| AccessBinding.LosersLookAgain | daemons/app-auth/access.go:49-59 | a sign-in whose entry is gone or bound, or whose subject holds another by then, looks at the list once more |
| AccessBinding.NoOwnerNoAnswer | daemons/app-auth/access.go:41-44 | a deployment that is gone admits nobody |
| AccessCache.AccessCacheMap.Load | daemons/app-auth/access.go:122-142 | a read replaces the copy, emptying a full map; a failed one answers with whatever is held |
| AccessCache.AccessCacheMap.Admits | daemons/app-auth/access.go:94-110 | a stale copy is read again, and a refusal by one older than five seconds is checked |
| AccessCache.BoundedStaleness | daemons/app-auth/access.go:62-142 | with no failed read, a yes rests on a list the database held under 33 s before, a no on one at most 8 s old |
| AccessCache.NeverReadAdmitsNobody | daemons/app-auth/access.go:94-142 | whatever fails, the answer is no until a list has been read for the host |
| AccessCache.FactsAreTrue | daemons/app-auth/store.go:209-228 | a list an answer rests on is what the database held at that moment |
| AccessCache.FailedReadsAnswerFromAnyAge | daemons/app-auth/access.go:122-142 | a run from the start in which a list is read and emptied, and any time later still admits: unread up to the time to live, by a failed read from then on |
| AccessCache.LooksExactly | daemons/app-auth/access.go:94-106 | a copy is stale from thirty seconds on, answered from while younger if it admits, and doubted from five seconds on if it does not |
| AccessCache.DoubtsExactly | daemons/app-auth/access.go:104-107 | a no of a copy at most five seconds old stands, an older one is checked against the database |
| AccessCache.StoredIsNow | daemons/app-auth/access.go:134-140 | a copy is as old as its storing |
| AccessCache.StaysSmall | daemons/app-auth/access.go:137-140 | the map never holds more than ten thousand copies, and is emptied when full |
| AccessCache.LoadsExactly | daemons/app-auth/access.go:122-142 | a read is stored and answered with, a failed one answered with what is held |
| Preview.CutDot | daemons/app-auth/broker.go:615-622 | splits at the first dot, if there is one |
| Preview.PreviewsExactly | daemons/app-auth/broker.go:607-622 | a hostname previews an app exactly when it is its preview label under the tenant domain |
| Seal.ParseKeyring | daemons/app-auth/seal.go:36-65 | accepted exactly when every part decodes, ids differ and a key is left; the keys keep their order |
| Seal.FindKey | daemons/app-auth/seal.go:110-144 | the key of an id, or no key has it |
| Seal.KeysAreTheParts | daemons/app-auth/seal.go:39-60 | the keys are the non-blank parts, each once, in their order |
| Seal.AcceptedExactly | daemons/app-auth/seal.go:36-65 | accepted exactly when every part is well-formed or blank, not all are blank, and no id comes twice |
| Seal.OpensExactly | daemons/app-auth/seal.go:88-144 | a sealed value opens exactly for its purpose, before its expiry, with its key in the ring |
| Seal.RotationKeepsOpening | daemons/app-auth/seal.go:33-65 | a key put in front leaves everything sealed before it openable |
| EndedSessions.EndedCache.constructor | daemons/app-auth/ended.go:34-36 | nothing read yet |
| EndedSessions.EndedCache.Refresh | daemons/app-auth/ended.go:53-80 | rows since the lookback are learned and the old forgotten; a failed read changes nothing |
| EndedSessions.EndedCache.Status | daemons/app-auth/ended.go:40-48 | not ready until read, then whether the session is held |
| EndedSessions.LatestIsLearned | daemons/app-auth/ended.go:66-71 | the next read goes on from the latest end held or read |
| EndedSessions.LearnsExactly | daemons/app-auth/ended.go:66-71 | every row read is learned, the last of a session counting, and nothing else changes |
| EndedSessions.RefreshForgets | daemons/app-auth/ended.go:72-78 | exactly what ended longer ago than the retention is forgotten |
| EndedSessions.PurgeLeavesRecentRows | daemons/app-auth/store.go:408-425 | the purge leaves exactly the ends of the last seven days |
| EndedSessions.CacheIsComplete | daemons/app-auth/ended.go:50-80 | if ends commit within the lookback, every end committed before the last read is held or past the retention |
| EndedSessions.SeenIsEverythingRead | daemons/app-auth/store.go:396-406 | from when a read is applied to when the next one is, the ends accounted for are all those committed when it was made |
| EndedSessions.LateCommitIsMissed | daemons/app-auth/ended.go:14-32 | a later commit than the lookback is missed: the bound is exact |
| EndedSessions.CookieOpensWhenUnsealed | daemons/app-auth/verify.go:122-130 | when the session keyring opens a cookie |
| EndedSessions.ForgettingRevivesOnlyLaterCookies | daemons/app-auth/store.go:62-72 | forgetting an end can revive a cookie exactly when it was sealed in a later second |
| EndedSessions.EndedStaysEnded | daemons/app-auth/verify.go:73-81 | once a read made since has been applied, no request with a cookie sealed no later than its session's end gets in, ever after |
| EndedSessions.HeldHaveEnded | daemons/app-auth/ended.go:66-71 | in every reachable state a session held for ended was ended, at the time held |
| EndedSessions.LiveSessionsGetIn | daemons/app-auth/verify.go:73-81 | once the cache is read, a session never ended gets in exactly while its cookie opens |
| SignIn.SessionProvenance | daemons/app-auth/verify.go:135-213 | every session was given to a callback that presented its one code, within its minute, at its host and with a login cookie of its nonce, for a flow that nonce started at this host, after consent to the deployment found there and, if listed, admission |
| SignIn.IDTokenProvenance | daemons/app-auth/provider.go:497-556 | every ID token was given to an admitted request for its client, from the one code of that client, account and redirect URI, the URI being registered before the issue; its verifier has the digest the flow started with, and a flow without one was redeemed without one |
| SignIn.LoggedTruly | daemons/app-auth/broker.go:391-399 | what the history says was logged by a step at which it was true: a flow started, an identity brought back, a deployment found, a consent given and recorded, an admission answered, a code stored for its request, a code and nonce presented |
| SignIn.ConsentWasGiven | daemons/app-auth/broker.go:284-297 | consent is only recorded for the account that gave it, on a page about that very deployment |
| SignIn.NoPromptMeansNone | daemons/app-auth/provider.go:318-325 | a client that asked for no prompt is never answered by way of a consent page |
| SignIn.FreshCodeRedeems | daemons/app-auth/verify.go:174-204 | a stored code gives its session at the first callback to present it, in time, at its host, from the browser with the nonce |
| SignIn.FreshOIDCCodeRedeems | daemons/app-auth/provider.go:497-534 | a client's stored code gives its ID token at the first request to present it, in time, by that client and URI, for an account admitted, with the verifier of the challenge or none if there was none |
| SignIn.InsertStores | daemons/app-auth/store.go:269-276 | a code is stored for its own kind of target and is good for a minute |
| SignIn.StartedCanReturn | daemons/app-auth/broker.go:182-202 | a started flow can be come back to |
| SignIn.PurgeLeavesTheGood | daemons/app-auth/store.go:294-300 | a purge leaves exactly the codes still good |
| SignIn.SmoothSignInGetsItsCode | daemons/app-auth/broker.go:213-231 | with its target found, consent on record and the list, if any, saying yes, an uninterrupted sign-in to an app or a client takes each of its steps and ends with its code stored |
| SignIn.AskedForConsent | daemons/app-auth/broker.go:224-244 | a page asks for consent exactly when none is on record or the flow asks afresh, unless no page may be shown |
| SignIn.RefusalsEndIt | daemons/app-auth/broker.go:220-223 | a refusal by the list, whenever it is asked, ends the request, and so does a target not found or replaced since its page was shown |
| SignIn.AllowedSignInGetsItsCode | daemons/app-auth/broker.go:278-298 | allowed there, with the same app found again, an uninterrupted sign-in ends with its consent recorded and its code stored |
| SignIn.HeaderAppExactly | daemons/app-auth/broker.go:388-399 | a host is served by its own app, else as a preview by that of a name under the tenant domain |
| SignIn.ClientFoundExactly | daemons/app-auth/provider.go:109-126 | a client is found exactly when on record with the redirect URI |
| SignIn.RedeemedIsBacked | daemons/app-auth/store.go:278-292 | a burnt code was issued exactly once, and everything that must precede its issue did, in order |
| SignIn.InvStep | daemons/app-auth/broker.go:182-299 | every step of every request keeps what a session or token will be justified by |
| SignInAdmission.AdmissionWasTrue | daemons/app-auth/access.go:40-60 | with the access list's machine beside it and each binding its own call there, an admission in the history was the list's, at a moment within that call |
| SignInAdmission.ListedCodeWasAdmissible | daemons/app-auth/broker.go:431-449 | every code of a listed deployment was issued by a sign-in the list admitted after it had authenticated and consented and before it stored that code |
| SignInAdmission.ListedSessionWasAdmissible | daemons/app-auth/verify.go:162-204 | so was the code of every session of a listed deployment |
| SignInAdmission.ListedTokenWasAdmissible | daemons/app-auth/provider.go:497-556 | and that of every ID token of one |
| SignInHandlers.CodeStore.InsertCode | daemons/app-auth/store.go:269-276 | stores the record the machine's step does, expiring a minute on |
| SignInHandlers.CodeStore.RedeemCode | daemons/app-auth/store.go:278-292 | looking a code up deletes it, whatever else is wrong |
| SignInHandlers.CodeStore.RedeemOIDCCode | daemons/app-auth/store.go:427-449 | the same of OIDC codes |
| SignInHandlers.CodeStore.Callback | daemons/app-auth/verify.go:162-204 | burns the code and seals a session exactly when the machine's step logs one |
| SignInHandlers.CodeStore.Redeem | daemons/app-auth/provider.go:497-556 | burns the code and gives an ID token exactly when the machine's step logs one |
| SignInHandlers.NonceMatches | daemons/app-auth/verify.go:206-213 | true exactly when some login cookie has the wanted digest |
| SignOut.Store.SignIn | daemons/app-auth/store.go:349-368 | an existing record keeps its session ID and takes the account and time; the code gets the ID kept |
| SignOut.Store.EndSession | daemons/app-auth/store.go:370-394 | removes and returns each of the session's records once, and keeps an earlier end |
| SignOut.Store.PurgeSignIns | daemons/app-auth/store.go:408-425 | removes exactly the records past 720 hours |
| SignOut.Store.PurgeEnded | daemons/app-auth/store.go:408-425 | removes exactly the ends past seven days |
| SignOut.Deliveries.Deliver | daemons/app-auth/signout.go:96-136 | the app is posted its record's token exactly when it is found with a URI, the provider on, the token signed and the request made; signed out exactly on a 2xx |
| SignOut.Deliveries.DeliverLogouts | daemons/app-auth/signout.go:81-94 | one attempt for each removed record and at most one post, in order, none retried |
| SignOut.PostsForExactly | daemons/app-auth/signout.go:96-124 | the posts are those of the apps that can be sent a token, and no others |
| SignOut.StepsAreStatements | daemons/app-auth/store.go:349-425 | the steps move the tables as those statements do |
| SignOut.OneSid | daemons/app-auth/client.go:178-190 | however keys rotate, all codes under a record and its logout token carry one session ID, made for that client |
| SignOut.LeavesOnce | daemons/app-auth/store.go:370-425 | every record there has been is still there, or left by an end, a purge or its deployment, once |
| SignOut.RecordsLeaveExactly | daemons/app-auth/store.go:370-425 | an end takes exactly its session's records, a purge those past 720 hours, a deletion its deployment's |
| SignOut.LeavesForItsOwn | daemons/app-auth/store.go:370-425 | over any run a record left only for its own session's end, its own age or its own deployment's deletion |
| SignOut.OneDeliveryEach | daemons/app-auth/signout.go:61-94 | a record an end removed is waiting for its delivery or has had it, never twice |
| SignOut.TokenSaysWhoSignedIn | daemons/app-auth/signout.go:96-116 | only ended records are delivered, naming the account of the last code under them |
| SignOut.PostsSayWhoSignedIn | daemons/app-auth/signout.go:112-118 | each post is for one of the removed records, at its app's URI, from the issuer, now; its token carries the session ID every code under that record carried, made for the client it is addressed to, and the account of the last code |
| SignOut.PurgeGoesByLatestSignIn | daemons/app-auth/store.go:350-356 | a purge takes a record exactly when its latest sign-in is past the retention |
| SignOut.FirstEndStands | daemons/app-auth/store.go:373-375 | a session's first end stands until it is purged past its retention |
| SignOut.EndIsStamped | daemons/app-auth/store.go:373-377 | a recorded end is stamped with the moment the session was first ended at since it was last not on record |
| SignOut.PurgeLeavesRecentEnds | daemons/app-auth/store.go:408-425 | a purge leaves exactly the ends within the retention |
| SignOut.NoAppLeftSignedIn | daemons/app-auth/store.go:349-394 | ends leave no app signed in exactly when every code is stored before its session ends |
| SignOut.LateSignInIsMissed | daemons/app-auth/provider.go:394-415 | a sign-in finishing after its session ended stays signed in and hears nothing |
| Cookies.Split | daemons/app-auth/request.go:109 | parts without the separator, at least one |
| Cookies.NameOf | daemons/app-auth/request.go:114 | what precedes the first equals sign |
| Cookies.JoinAll | daemons/app-auth/request.go:121 | the loop joins with `; ` |
| Cookies.JoinsExactly | daemons/app-auth/request.go:121 | between any two parts stand a semicolon and a space, and nothing else is added |
| Cookies.FilterCookies | daemons/app-auth/request.go:106-122 | the nested loops keep the apps' pairs of all lines, in order |
| Cookies.CookieValues | daemons/app-auth/request.go:127-138 | the nested loops find every value of a name, in order |
| Cookies.FilterIsExact | daemons/app-auth/request.go:102-138 | parsing the filtered header finds no platform cookie and, for every other name, the same values in the same order |
| Cookies.FilterTwice | daemons/app-auth/request.go:102-122 | filtering twice is filtering once |
| Cookies.FoundExactly | daemons/app-auth/request.go:127-138 | a value is found under a name exactly when some line has that pair |
| Cookies.PlatformExactly | daemons/app-auth/request.go:114-117 | the cookies kept from apps are those whose names start as the platform's do |
| BuildLog.TruncateLog | api/app/build_worker.py:92-102 | never over the cap, the data itself if it fits, else exactly the cap |
| BuildLog.MergeLog | api/app/build_worker.py:154-170 | never shortens what is stored, never exceeds the cap |
| BuildLog.CutSaysSo | api/app/build_worker.py:92-102 | cut output is its own beginning and then the marker naming the cap, all within it |
| BuildLog.MergesExactly | api/app/build_worker.py:154-170 | a read that fits and is as long as what is stored replaces it, a shorter one does not |
| BuildLog.LogIsLongestRead | api/app/build_worker.py:154-170 | over any reads the stored log is the latest of the longest read, cut |
| BuildLog.LineComesLast | api/app/build_worker.py:105-150 | the platform's line comes last, on a line of its own, after all that was stored |
| BuildLog.ClosesOnce | api/app/models/build.py:144-178 | and is added once |
| BuildLog.SliceOf | api/app/services/builds.py:245-252 | the bytes are the log's, at the offset given |
| BuildLog.ServedExactly | api/app/services/builds.py:230-252 | a stored offset is served exactly when asked for, as the byte it is |
| BuildLog.RangeRoundTrip | api/app/api/builds.py:24-38 | a client is understood to ask for the range it asks for, unless that ends before it starts |
| BuildLog.ParsesExactly | api/app/api/builds.py:24-38 | a range is read from exactly the headers of that form that do not end before they start |
| BuildLog.GetBuildLog | api/app/api/builds.py:238-268 | 200 in full or 206 in part, with a Content-Range exactly for bytes, true of the log |
| BuildLog.StoredBytesStay | api/app/build_worker.py:154-170 | when accepted reads are prefixes of one output, no later read, nor the last line, changes a stored byte clear of the marker |
| BuildLog.PollsMakeTheLog | api/app/cli.py:1650-1665 | a client polling from where it left off holds the stored log at all those offsets, and all its length after a poll |
| BuildLog.OtherOffsetsChange | api/app/build_worker.py:92-102 | every offset under the marker changes for some output |
| BuildWorker.VisitOutcome | api/app/build_worker.py:280-382 | how a visit leaves a running build: when it succeeds, fails or goes on, what its log is, and that its Job, start and creation stay |
| BuildWorker.TransitionsExactly | api/app/models/build.py:144-178 | which transitions are allowed, with an image exactly for success, and what each stamps |
| BuildWorker.VisitAll | api/app/build_worker.py:402-416 | a pass adds no build, and leaves those it does not visit as they were |
| BuildWorker.VisitsAreApart | api/app/build_worker.py:402-416 | each build it visits is visited as it was, whatever the other visits did |
| BuildWorker.PassOutcome | api/app/build_worker.py:280-416 | of the builds running at its start, exactly which succeeded, run on and failed, and that no other changed |
| BuildWorker.Worker.constructor | api/app/build_worker.py:400 | an empty pass result |
| BuildWorker.Worker.AdvanceBuild | api/app/build_worker.py:280-382 | the visit, and the result lists' account of it |
| BuildWorker.Worker.ClaimNextBuild | api/app/build_worker.py:184-208 | the oldest queued build, by creation then id, runs from now on, and nothing else of any build changes; None only when none is queued |
| BuildWorker.Worker.ClaimBuilds | api/app/build_worker.py:418-430 | claims oldest first, below the limit, until full or a start raises |
| BuildWorker.Worker.RunPass | api/app/build_worker.py:390-441 | advances every running build, then claims |
| BuildCrash.OutcomeAccepted | api/app/models/build.py:144-178 | the state machine never rejects the outcome a visit settled on |
| BuildCrash.VisitIsItsSteps | api/app/build_worker.py:280-382 | an uninterrupted visit's steps are what the worker's method does |
| BuildCrash.InvStep | api/app/build_worker.py:184-243 | every step, crash and failure keeps the builds, Jobs and worker's place consistent |
| BuildCrash.LimitsHold | api/app/build_worker.py:418-430 | never more running than allowed, never two Jobs for a build |
| BuildCrash.StartedWhenClaimed | api/app/build_worker.py:202-206 | over any run a build counts as started from the time of the pass that claimed it |
| BuildCrash.PassTimeIsBegun | api/app/build_worker.py:390-400 | a pass's time is the one it began with |
| BuildCrash.RaiseGoesOn | api/app/build_worker.py:402-430 | a visit that raises leaves its build for the next pass and the rest of this one goes on; a start that raises ends the pass |
| BuildCrash.GivenUpExactly | api/app/build_worker.py:360-382 | a visit gives up a build whose recorded Job is active exactly when its pass began more than deadline and grace after the claiming one |
| BuildCrash.SuccessHasAnImage | api/app/models/build.py:158-178 | a build has an image exactly when it succeeded |
| BuildCrash.TerminalForever | api/app/services/build_constants.py:34-43 | a terminal build, its image and its log never change |
| BuildCrash.JobsComeAndGo | api/app/services/build_jobs.py:300-345 | a Job is there from a create that takes effect, whether or not its call comes back, until a delete that does or until it is gone |
| BuildCrash.NoOrphans | api/app/build_worker.py:280-382 | wherever the worker dies, an active Job's build is running, if the client's answers are truthful |
| BuildCrash.OutcomeOrphansExactly | api/app/services/build_jobs.py:312-345 | the answer that settles an outcome leaves no orphan exactly when it is truthful |
| BuildCrash.NoOrphansExactly | api/app/build_worker.py:280-382 | over any run no active Job is without a running build exactly when no outcome is committed of a build whose Job is active |
| BuildCrash.UntruthfulAnswerToBlame | api/app/services/build_jobs.py:312-345 | and such a commit always follows an untruthful answer about that Job, active ever since |
| BuildCrash.FailedGetOrphans | api/app/services/build_jobs.py:312-330 | a failed `kubectl get` gives up a build whose Job runs on |
| BuildCrash.PassSettles | api/app/build_worker.py:299-430 | after an error-free pass every build running at its start is terminal, or its recorded Job was active within deadline and grace |
| PostRender.TemplateTwice | api/app/post_render.py:121-135 | rewriting a template twice is rewriting it once |
| PostRender.RewriteTwice | api/app/post_render.py:104-135 | the same of documents |
| PostRender.RewriteFrame | api/app/post_render.py:104-135 | only the pod template changes, and only by the gate in first place and the annotations |
| PostRender.RewriteRaisesExactly | api/app/post_render.py:104-135 | rewriting raises exactly when something on the way to the template, its init containers or its metadata is malformed |
| PostRender.TemplateIsRewritten | api/app/egress_gate.py:75-78 | the gate is first, the other init containers follow in order, and all else of the template stays |
| PostRender.OthersInOrder | api/app/egress_gate.py:75-78 | the init containers kept are exactly those not named as the gate is, in order |
| PostRender.StopTwice | api/app/post_render.py:86-101 | stopping twice is stopping once |
| PostRender.StepsCommute | api/app/post_render.py:192-197 | rewriting and stopping commute, but that a document to be dropped must still be rewritable |
| PostRender.StoppedStartsNothingKnown | api/app/post_render.py:86-101 | what is left starts a pod exactly when it is a DaemonSet, bare ReplicaSet or ReplicationController that does, or a list with a document in it that does |
| PostRender.StoppedListRuns | api/app/post_render.py:86-101 | a Deployment of three replicas is stopped, and in a `List` is not |
| PostRender.TemplateFoundExactly | api/app/post_render.py:104-118 | the template found is the one Kubernetes runs exactly when the workload is a Pod or CronJob or has no `jobTemplate` |
| PostRender.GatedExactly | api/app/post_render.py:121-135 | of what starts pods, a workload whose template is so found gets the gate first; any other, and every document in a list, keeps the template it came with |
| PostRender.OddEscapes | api/app/post_render.py:113-114 | a Deployment with an empty `jobTemplate` gets no gate |
| PostRender.ListedEscapes | api/app/post_render.py:121-135 | a Deployment in a `List` gets none |
| PostRender.StoppedIngressIsParked | api/app/post_render.py:71-83 | every path of every rule for the hostname, in whatever case, leads to the parking service, and every other rule and field is as it was |
| PostRender.ForHostExactly | api/app/post_render.py:77-79 | which rules are for the hostname |
| PostRender.IngressRaisesExactly | api/app/post_render.py:71-83 | stopping an Ingress raises exactly when its spec, rules or a rule for the hostname is malformed |
| PostRenderPass.Document.constructor | api/app/post_render.py:191 | the parsed document |
| PostRenderPass.Document.Reroute | api/app/post_render.py:71-83 | the loop over rules reroutes as specified, or raises |
| PostRenderPass.Document.Stop | api/app/post_render.py:86-101 | dropped, kept or raised as specified |
| PostRenderPass.Document.Rewrite | api/app/post_render.py:127-135 | rewritten or raised as specified |
| PostRenderPass.RerouteEach | api/app/post_render.py:78-82 | the loop over paths gives each the backend |
| PostRenderPass.RenderOne | api/app/post_render.py:189-202 | one chunk's way through the pass |
| PostRenderPass.Render | api/app/post_render.py:175-205 | the loop over chunks, and the parking service at the end |
| PostRenderPass.EachGoesOutOnce | api/app/post_render.py:184-202 | chunks go out once each, in order, unchanged ones verbatim, all but blank ones and a stopped release's Pods and autoscalers |
| PostRenderPass.OwnTextExactly | api/app/post_render.py:189-202 | a chunk goes out as its own text exactly when it has no pod template and stopping leaves it alone |
| PostRenderPass.RenderRaisesExactly | api/app/post_render.py:175-205 | a render raises exactly when rewriting or then stopping one of its chunks does |
| PostRenderPass.BackendIsServed | api/app/post_render.py:58-75 | rerouted paths name the parking service and its port, and that stands for the parking host |
| PostRenderPass.ParkingGoesOutOnce | api/app/post_render.py:203-205 | it goes out once, last, exactly for a stopped release with a hostname |
| Identity.UserTable.LiveBySubject | api/app/deps.py:14-17 | the live record bound to a subject, or none is |
| Identity.UserTable.LiveByEmail | api/app/deps.py:14-17 | the live record holding an address in whatever case, or none does |
| Identity.UserTable.ResolveUser | api/app/deps.py:27-56 | the ladder, and the indexes still hold |
| Identity.UserTable.GetCurrentUser | api/app/deps.py:59-77 | no address, no caller; otherwise the ladder's answer for the trimmed headers |
| Identity.AlwaysUnique | api/app/models/core.py:49-67 | live records never share an address or a subject |
| Identity.BoundForGood | api/app/deps.py:27-31 | a bound record is never bound to another subject |
| Identity.OwnRecordOnly | api/app/deps.py:27-56 | a request with a subject gets the one live record bound to it, never one bound to another |
| Identity.OneRecordPerSubject | api/app/deps.py:27-56 | one subject gets one record however its address changes, while that record lives |
| Identity.RefusedExactly | api/app/deps.py:20-24 | a request is refused exactly when another account's record holds its address and cannot be adopted |
| Identity.ChangesOnlyItsOwn | api/app/deps.py:27-56 | a request changes at most the record it is answered with, which then has its address and subject |
| Identity.AddressAloneFinds | api/app/deps.py:42-45 | without a subject the live record at the address answers, or a new unbound one |
| Identity.NewOnlyIfUnknown | api/app/deps.py:27-56 | a record is made exactly when nobody live has the subject or the address |
| Identity.HeadersExactly | api/app/deps.py:70-71 | the headers are trimmed, the address lowered, and a blank subject is none |
| Webhook.Handler.CreateSubscription | api/app/api/webhooks.py:214-224 | one subscription a key, whether or not the answer comes back |
| Webhook.Handler.HandleFirstPaymentPaid | api/app/api/webhooks.py:176-230 | the paid first payment's changes, or none when something raises |
| Webhook.Handler.FindSubscription | api/app/api/webhooks.py:125-129 | the one subscription with that provider id, or none has it |
| Webhook.Handler.MollieWebhook | api/app/api/webhooks.py:100-173 | a delivery's whole effect, rollback included |
| Webhook.ProvisionEach | api/app/api/webhooks.py:189-192 | the loop moves exactly the pending deployments |
| Webhook.EnqueueEach | api/app/api/webhooks.py:195-201 | the loop gives each provisioning deployment a create job, or raises at one in progress |
| Webhook.DeliveryOutcome | api/app/api/webhooks.py:81-93 | the payment's record, its subscription's state, mandate and recurring subscription, its pending deployments and their jobs afterwards, and that nothing else changed |
| Webhook.FoundExactly | api/app/api/webhooks.py:112-149 | a payment is known by its own id, or by the provider's id of one of our subscriptions |
| Webhook.IgnoredDeliveries | api/app/api/webhooks.py:105-154 | what is not known, cannot be fetched or has a status not heard of changes nothing |
| Webhook.FirstPaidRaises | api/app/services/jobs.py:42-59 | a paid first payment raises exactly when a deployment it would start has a job in progress, or there is none |
| Webhook.RedeliveryIsNoOp | api/app/api/webhooks.py:92-93 | a processed notification changes nothing when it comes again, whatever then fails |
| Webhook.FaultyDelivery | api/app/api/webhooks.py:172-224 | a delivery that met a fault did what it would have without, or nothing, or only asked the provider; one that fails to commit leaves the database as it was |
| Webhook.RetryIsOnce | api/app/api/webhooks.py:203-224 | a failed delivery that comes again ends where one that never failed would |
| Webhook.AtMostOneCreateJob | api/app/api/webhooks.py:194-201 | over any run a deployment is given at most one create job, if a subscription with a first payment is set back to pending only while none of its deployments has had one |
| Webhook.ResetExactly | api/app/services/subscriptions.py:98-114 | setting a state keeps jobs and awaited payments in step exactly when it is no other kind of reset |
| Webhook.ResetIsSafeExactly | api/app/services/subscriptions.py:98-114 | a reset can lead to a second create job exactly when its subscription has a first payment and a deployment of it has had one |
| Webhook.OneRemoteEach | api/app/api/webhooks.py:203-224 | over any run, resets included, at most one provider subscription for each of ours, kept for good, and no two of ours share one |
| Webhook.JobExactlyWhenAwaited | api/app/api/webhooks.py:184-201 | a first payment gives a deployment its job exactly when its subscription still awaited it |
| Webhook.LatePaymentStartsNothing | api/app/api/webhooks.py:233-236 | a payment that fails and is then paid starts nothing |
| Webhook.ResetEnqueuesTwice | api/app/services/subscriptions.py:98-114 | a subscription set back to pending gets a second create job |
| NestedPath.Document.Get | api/app/util.py:29-45 | the walk reads what the path leads to, or nothing |
| NestedPath.Document.Set | api/app/util.py:48-69 | the walk writes at the path's last container, or nothing |
| NestedPath.SetThenGet | api/app/util.py:48-69 | a write changes nothing or is what the path then reads |
| NestedPath.SetTwice | api/app/util.py:48-69 | the second write wins |
| NestedPath.GetThenSet | api/app/util.py:29-69 | writing back what a path reads changes nothing |
| NestedPath.SetElsewhere | api/app/util.py:29-69 | every path that turns off, at a key or `*`, reads as before |
| NestedPath.StepExactly | api/app/util.py:29-45 | `*` reads a list's first element, any other key a mapping's own |
| NestedPath.ReadsOn | api/app/util.py:29-45 | a path reads what its last key does from what the rest reads |
| NestedPath.WritesOne | api/app/util.py:48-69 | a write changes one element or key of one container |
| NestedPath.TakesExactly | api/app/util.py:48-69 | a write takes effect exactly when the rest of the path reads a mapping, or for `*` a list with an element |

## Left out

- HTTP, cookies on the wire, HTML pages, logging, signals, sleeping and process spawning carry no state worth proving.
- Sealing, hashing, signing and token verification are unforgeable, injective constructors; their bytes are not modelled.
- Postgres, Keycloak, Garage, Loki, Kubernetes and the payment provider are small states whose calls are atomic and may fail.
- YAML, JSON and URL parsing and the regular expressions: documents start parsed, and the order of a mapping's keys is not kept.
- The reconcile queue, the reconciler, quotas, usage sampling and recording, hostnames, deployment variables and the user interfaces.
- SSH authentication, the origin and version guards and the network policies are single decisions.
- ActivityLog.TotalIsCount: that Loki's answer has each bucket's lines in the range, and every bucket with any, is a premise.
- AccessBinding.LoneCallIsAnswered: the account has a subject, and no row is bound to an empty one.
- ActivityLog.Activity.Counted: Garage's counter is a float in the source and a whole number here.
- Scheduler.State.Next: times are unbounded nanoseconds, with one value for Go's zero time; the mutex is each method being one step.
- Freshness.NoShownWriteForgotten: a window read while the signal is down, or just before it goes down, marks nothing and counts as not shown.
- Access.Admits: case folding is ASCII only, as it is wherever an address, host or label is compared.
- Cookies.FilterCookies: blanks to trim are the ASCII ones.
- AccessCache.AccessCacheMap.Admits: owner and entries are read at one moment; the two reads of a host and of the app it previews are one.
- SignIn.SessionProvenance: handlers are steps on values so that any number can interleave; the access list's answer is a parameter, which `SignInAdmission` joins to `AccessBinding` where a code is issued but not where one is redeemed; expiry of sealed cookies and the state and CSRF tokens only refuse more; an app's own host and its preview's base are looked up together.
- SignIn.IDTokenProvenance: the client's authentication and the format of its verifier only refuse more.
- SignOut.Deliveries.DeliverLogouts: the limit of eight at a time is not modelled, and a process that dies between the commit and the delivery loses it.
- BuildLog.RangeRoundTrip: digits are the ASCII ones; a negative cap is not modelled.
- BuildCrash.NoOrphans: what a visit reads of a Job and its pod is one step, a deleted Job counts as gone at once, and a create takes effect by the time its call is over.
- BuildWorker.Worker.AdvanceBuild: the usage figures stored with an outcome; the wording of an eviction line is a parameter.
- BuildWorker.Worker.RunPass: one worker at a time; rows locked by another are not modelled.
- PostRender.GatedExactly: `StartsPods` knows Kubernetes' own workloads and lists; what a custom resource's controller starts is not modelled.
- PostRender.StoppedIngressIsParked: a rule's host counts only if it is text; nodes shared through YAML anchors are separate.
- PostRenderPass.Render: the comment lines kept above a rewritten document are those of its own text, and are not spelled out.
- Identity.UserTable.ResolveUser: each resolution is atomic, so the retry after a lost race has nothing to do.
- Webhook.Handler.MollieWebhook: amounts, dates and descriptions sent to the provider are not modelled.
- NestedPath.Document.Set: the tree is a value, so sharing between its parts, and a caller's own references into it, are not captured.
