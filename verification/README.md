# A verified model of the live-platform backend

This Dafny project models the parts of the live-platform backend whose correctness rests on
state, timing or interleaving, and proves what they keep. `dafny verify dfyconfig.toml` checks
all of it. Each module follows one component.

| module | component |
|---|---|
| `RateLimit` | the token-bucket limiter and its janitor |
| `Settlement`, `SettlementRuns`, `SettlementCalls`, `SettlementService` | order settlement by client, bundle client and webhook, and refunds: the concurrent machine, what holds in its runs, what one call does alone, and the four operations in their own imperative form |
| `TenantCache`, `TenantService` | the cache-aside tenant lookup: the interleaved protocol, and the Redis wrapper and service as classes |
| `ChatHub` | the live chat hub's loop |
| `Schedule` | recurring classes: the service's preview and the materialising worker |
| `LineWrap` | the share poster's word wrapper |
| `Streak` | daily check-ins and streak badges |
| `RlsPool` | row-level-security contexts over a pool of shared connections |
| `Attempts`, `AttemptRaces` | taking and scoring a test: calls one at a time, and overlapping calls as interleaved queries |
| `FanOut` | sending one notification to many devices |
| `Devices` | the cap on active devices |
| `BulkImport` | importing a roster |
| `SignedToken` | signed playback tokens |

Code that changes state is modelled by classes and methods with loops, proved against functions
of the old state; the properties are then proved about those functions over whole runs.
Protocols with several actors are state machines whose steps are single database, cache, lock or
channel operations: `Settlement`, `TenantCache`, `RlsPool`, `FanOut`, `AttemptRaces` and the
second half of `Devices`. For settlement, lookups, devices and attempts a lemma shows that a call of
the machine that nothing overlaps does what the method does. A run is an arbitrary sequence of steps, so a lemma about every run covers every
interleaving, failure and crash that the steps allow.

## Assumptions

- Rate limiter: tokens and times are reals, requests to one limiter are served in the order in
  which they hold its mutex, and their clock readings do not decrease.
- Settlement: a transaction's writes are private until its commit, and a row lock is held until
  the transaction ends. A bundle lists a course once. `enrollments.course_id` is NOT NULL
  (migrations/007_create_courses_tables.sql), so inserting a bundle order's absent course fails.
- Tenant lookup: organisation codes arrive trimmed and in upper case and are never renamed. Only
  UpdateBranding and the administrators' changes of plan and status write the rows it shows.
- Chat: one hub iteration is atomic, and a connection registers once.
- Schedules: a time zone gives every day a midnight, in order, and every time of day an instant
  inside that day. The database's CURRENT_DATE is in UTC. The coverage lemmas are about
  occurrences about which no query fails, and runs whose final touch works.
- Streaks: CURRENT_DATE does not go back between two check-ins of one user.
- Attempts: the questions do not change, marks are whole hundredths. Any query of a call may fail.
  In `Attempts` calls do not overlap; in `AttemptRaces` they do.
- Devices: one instant serves all the queries of a serial `Register`; ties between equally old
  rows are broken in any way.
- Bulk import: lower() of the database is an arbitrary function; the tenant's users change only
  through the import.
- Tokens: HMAC-SHA256 (section 2 of RFC 2104) is an arbitrary function.

## What the proofs show about the code

Where the code and its comments disagree, the model follows the code.

- A limiter with `15 * rpm < burst` answers differently because of eviction
  (`RateLimit.EvictionInvisibleIff`), and `rpm = 1` with no burst rejects everybody
  (`RateLimit.RejectsEverybodyIff`).
- The webhook takes every error of its locking read for an order of another flow and reports
  success, so that a delivery whose read fails is not repeated and leaves its order unsettled
  (`SettlementRuns.UnsettledSuccessIff`, `SettlementRuns.WebhookLosesOrder`).
- The comment in the bundle settlement promises that a webhook retry can complete it. The webhook
  rolls back on every bundle order (`SettlementRuns.BundleNeedsBundleVerify`).
- UpdateBranding is said to show edits immediately. There are exactly two ways in which it does
  not: a lookup that read the old row before the edit writes it back after the invalidation
  (`TenantCache.StaleReachable`), or the invalidation fails, which is ignored, and the old entry
  is served until it expires (`TenantCache.FailedDeleteReachable`; both in
  `TenantCache.FreshExactly`).
- `starts_on` and `ends_on` are compared as instants: east of Greenwich the first day is lost,
  west of it the last one (`Schedule.BoundsExact`).
- The 14-day horizon affords ticks up to 13.5 days apart and no more, because of the 12-hour gate
  (`Schedule.CoversIff`).
- An over-wide first word leaves the poster's first line slot blank (`LineWrap.Wrap`).
- An answer that is blank, or to a subjective question, counts as wrong, and an option need not
  belong to its question; an answer to another test's question is stored and scored
  (`Attempts.Service.SubmitAnswer`, `Attempts.PartsAddUpIff`).
- A completed attempt can be submitted again, and the queries that count and sum its answers may
  fail unnoticed: a resubmission can then erase the counts or the score
  (`Attempts.SubmittedIsFinalIff`, `Attempts.ResubmitLosesScore`). A failing query for the
  attempt in progress opens a second one (`Attempts.SecondActiveIff`, `Attempts.TwoActive`).
- No transaction or index guards the attempts: two overlapping starts open two attempts without
  any failure (`AttemptRaces.TwoStarts`), and an answer that passed its check before a submission
  can land after it and stay unscored (`AttemptRaces.FinalIff`, `AttemptRaces.LateAnswerSpoils`).
- Registration's comment promises at most two active devices. That holds serially; k overlapping
  registrations can leave k + 1, and each failed query one more (`Devices.RunCapped`,
  `Devices.BoundReached`).
- A launch of the app on the most recently used of two devices evicts the other one
  (`Devices.SurvivesIff`).
- A repeated check-in on a day can still add a badge, after a failed grant
  (`Streak.SameDayIdempotent`).
- The import's comment on an existing user says that name and email are updated; only the name
  is (`BulkImport.Service.ProcessRow`).

## Model

| member | source | states |
|---|---|---|
| `RateLimit.Normalise` | internal/middleware/ratelimit.go:53-59 | the limits in force: at least one request a minute; half of it as burst where none is given; a burst of zero arises exactly from rpm 1 without a burst; 120 and 60 when neither is given |
| `RateLimit.FirstIsAdmitted` | internal/middleware/ratelimit.go:93-107 | with a burst of at least one, the first request of every key in every run is admitted |
| `RateLimit.RejectsEverybodyIff` | internal/middleware/ratelimit.go:53-59 | a configured limiter rejects every keyed request of every run if and only if rpm is 1 and no burst is given |
| `RateLimit.Limiter.constructor` | internal/middleware/ratelimit.go:52-68 | a limiter starts without buckets and with the normalised limits |
| `RateLimit.Limiter.Handle` | internal/middleware/ratelimit.go:87-117 | one request: the verdict and the new bucket table, for a known, a new and an empty key |
| `RateLimit.Limiter.Sweep` | internal/middleware/ratelimit.go:71-85 | a janitor pass deletes exactly the buckets idle for more than 15 minutes |
| `RateLimit.Drive` | internal/middleware/ratelimit.go:71-117 | any sequence of requests and janitor passes on the real limiter leaves the state of the run that the lemmas are about |
| `RateLimit.LevelIsLeastAllowance` | internal/middleware/ratelimit.go:100-114 | the lazily refilled level equals the minimum, over all windows ending now, of burst plus refill minus admissions |
| `RateLimit.ExactAdmission` | internal/middleware/ratelimit.go:100-114 | a request is rejected exactly when admitting it would put some window over burst plus refill |
| `RateLimit.WindowBound` | internal/middleware/ratelimit.go:100-114 | no stretch of time admits more than the burst plus what it refills |
| `RateLimit.RunTracks` | internal/middleware/ratelimit.go:71-117 | in every run a stored bucket is what a never-evicting limiter would hold, and a missing one would be full again |
| `RateLimit.EvictionIsInvisible` | internal/middleware/ratelimit.go:71-117 | if 15 idle minutes refill a burst, every request on any key is answered as if its key were alone and nothing were evicted |
| `RateLimit.RunAdmission` | internal/middleware/ratelimit.go:71-117 | in such runs, rejection exactly when a window of the key is over budget |
| `RateLimit.RejectedIff` | internal/middleware/ratelimit.go:87-117 | the same without the bucket: a request is rejected if and only if, counted from some request of its key on, the admitted requests of its key and this one exceed the burst plus rpm/60 a second |
| `RateLimit.EvictionVisible` | internal/middleware/ratelimit.go:71-117 | otherwise a concrete run, for each configuration, in which eviction changes an answer |
| `RateLimit.EvictionInvisibleIff` | internal/middleware/ratelimit.go:71-117 | eviction changes no answer in any run if and only if 15 minutes refill a burst |
| `Settlement.StepInv` | internal/courseorders/service.go:160-209 | every step of every call, and every crash, keeps locks, rows, private writes, commits and pending announcements consistent |
| `Settlement.RunInv` | internal/courseorders/service.go:160-234 | the invariant holds in every state of every interleaving of course verify, bundle verify, webhook, refund and administrators |
| `SettlementRuns.StatusAdvances` | internal/refunds/service.go:80-110 | a status moves only from created to paid to refunded, so nothing leaves refunded, and rows keep their identity |
| `SettlementRuns.SettledOnce` | internal/webhooks/razorpay.go:166-217 | however many deliveries race, an order turns paid exactly once, or never if it stays unsettled |
| `SettlementRuns.PaidMeansEnrolled` | internal/coursebundles/service.go:191-228 | in every reachable state an order that is paid, or was, records the payment id of the call that settled it, and its buyer is enrolled in its course, or in every course of the list its bundle had while the settling transaction read it; the settlement took those courses and no others |
| `SettlementRuns.BundleNeedsBundleVerify` | internal/coursebundles/service.go:163-228 | a settled order was settled by the bundle path if and only if it is a bundle order |
| `SettlementRuns.EffectsAtMostOnce` | internal/courseorders/service.go:211-231 | each purchase event and reward call fires at most once, only after a commit and only if its service is wired to make it, and all of them fire if the settling call does not crash |
| `SettlementRuns.EffectsExact` | internal/coursebundles/service.go:230-246 | when the settling call ran to its end: nothing fired after a webhook; otherwise, as far as a producer and referrals are wired, the payment, a purchase of exactly each enrolled course, and the reward for a course order |
| `SettlementRuns.PlanExact` | internal/coursebundles/service.go:230-246 | which announcements a settlement plans, by its path and the wiring: a purchase of exactly the courses it settled |
| `SettlementRuns.RunExact` | internal/courseorders/service.go:180-209 | after any run the enrollments are the initial ones and exactly those that settled orders pay for |
| `SettlementRuns.SettledAreCommitted` | internal/webhooks/razorpay.go:172-217 | the orders no longer waiting for payment are exactly those with a committed settlement |
| `SettlementRuns.Converge` | internal/webhooks/razorpay.go:166-217 | two runs that settle the same orders end with the same enrollments, whatever the order, overlap, repetition or crash of deliveries |
| `SettlementRuns.UnsettledSuccessIff` | internal/webhooks/razorpay.go:179-192 | under every interleaving a reply of success leaves the order unsettled exactly when it is a webhook whose locking read failed, or found no row, while the order was unsettled |
| `SettlementRuns.WebhookLosesOrder` | internal/webhooks/razorpay.go:179-184 | the run: one webhook, a failing locking read, a success reply and an order still created |
| `SettlementRuns.AllDelivered` | internal/courseorders/service.go:160-209 | once a client, or a webhook that found the row, was told of success about every order and none was refunded, all are paid and the enrollment set is the one they pay for |
| `SettlementRuns.AllClientsTold` | internal/courseorders/service.go:160-209 | the same from what callers can see: a success reply to some client about every order |
| `SettlementCalls.UnsettledReplyIff` | internal/webhooks/razorpay.go:166-192 | of a call on its own: success with the order unsettled exactly for a webhook whose locking read failed on an unsettled order or found no row |
| `SettlementCalls.SoloRun` | internal/courseorders/service.go:160-234 | a call of the concurrent machine that nothing overlaps ends, and its reply, tables and announcements are those of the serial methods, whichever operations fail |
| `SettlementService.Payments.VerifyCourse` | internal/courseorders/service.go:160-234 | success exactly under the specified conditions; one settlement with its announcements, or no change at all, whichever operations fail |
| `SettlementService.Payments.ApplyPaymentSuccess` | internal/webhooks/razorpay.go:166-223 | success, skip and failure of the webhook exactly; at most one settlement, no announcements |
| `SettlementService.Payments.VerifyBundle` | internal/coursebundles/service.go:163-246 | all courses that the bundle lists or none, with the announcements of exactly those courses; the order paid with this payment id |
| `SettlementService.Payments.Issue` | internal/refunds/service.go:66-110 | a refund succeeds exactly on a paid order of the tenant with a payment id, and changes only its status |
| `TenantCache.KeysDisjoint` | internal/cache/cache.go:84-87 | the four key shapes never collide and each is injective |
| `TenantCache.KeyTexts` | internal/cache/cache.go:29-87 | the texts of the two keys of a tenant |
| `TenantCache.RunInv` | internal/tenants/service.go:68-112 | in every run each cached entry and each row in a lookup's hands was the database row at a recorded step, and expires in time |
| `TenantCache.BoundedStaleness` | internal/tenants/service.go:74-111 | an answer was the database row no longer ago than the 5-minute TTL plus the longest gap so far between a read and its cache write |
| `TenantCache.GapExact` | internal/tenants/service.go:96-111 | that gap is exactly the longest between a read and its cache write: no write had a longer one and, unless it is zero, some write had it |
| `TenantCache.FreshAfterUpdate` | internal/tenants/service.go:347-371 | a lookup begun after UpdateBranding returned, its invalidation having worked or not, answers with a row no older than the update if no lookup carried an older one across it and the cache serves none |
| `TenantCache.SeesNewBranding` | internal/tenants/service.go:347-371 | under the same two conditions, until the next update of that tenant it answers field by field with the new name and logo where given, the old ones where blank, and the new theme, under the same id and slug, whatever administrators do to plan and status |
| `TenantCache.OlderReaderShows` | internal/tenants/service.go:96-111 | a lookup that carries an older row writes it into the cache, and the next lookup answers with it |
| `TenantCache.FreshExactly` | internal/tenants/service.go:352-370 | some later lookup can answer with an older row if and only if, when the update returns, a lookup carries one or the cache still serves one |
| `TenantCache.LeftoverOnlyIfDeleteFailed` | internal/cache/cache.go:69-82 | the cache still serves one only if the ignored delete failed |
| `TenantCache.StaleReachable` | internal/tenants/service.go:74-111 | from every state, for every update, a run in which a lookup carries the replaced row across it and a later lookup answers with that row |
| `TenantCache.FailedDeleteReachable` | internal/cache/cache.go:81-81 | from every state, for every update, a run in which only the delete fails, the update reports success and the next lookup answers with the replaced row |
| `TenantCache.LookupAlone` | internal/tenants/service.go:68-112 | a lookup of the machine that nothing overlaps answers, and leaves the cache serving, what the serial method does, whichever operations fail |
| `TenantCache.UpdateAlone` | internal/tenants/service.go:347-371 | the same for an update |
| `TenantService.Cache.Get` | internal/cache/cache.go:34-53 | hit, miss, expired, undecodable (the key is dropped) and unreachable cache |
| `TenantService.Cache.Set` | internal/cache/cache.go:55-67 | the value is stored for its TTL; an unreachable cache is ignored |
| `TenantService.Cache.Invalidate` | internal/cache/cache.go:69-82 | exactly the given keys are dropped |
| `TenantService.Service.LookupByOrgCode` | internal/tenants/service.go:68-112 | the answer and the new cache in each branch: blank code, hit, undecodable hit, miss with an active row, without one, and with a failing read |
| `TenantService.Service.UpdateBranding` | internal/tenants/service.go:347-371 | the row's name and logo where given, its theme always, and no other field; both keys of the tenant dropped, or kept when the delete fails; no change when the write fails |
| `TenantService.Service.EditThenLookup` | internal/tenants/service.go:352-369 | undisturbed, a lookup after an update answers with the new name and logo where given, the old ones where blank, and the new theme, whatever the cache held |
| `ChatHub.Hub.OnRegister` | internal/chat/handler.go:87-93 | registering adds the client to its room, creating the room if needed |
| `ChatHub.Hub.OnUnregister` | internal/chat/handler.go:95-106 | a listed client is removed and closed, an empty room deleted; an unlisted one is ignored |
| `ChatHub.Hub.SendOrDrop` | internal/chat/handler.go:112-120 | a non-blocking send, or the close and removal of a slow client |
| `ChatHub.Hub.OnBroadcast` | internal/chat/handler.go:108-121 | in whatever order the room is visited, exactly its clients get the message or are dropped |
| `ChatHub.Hub.ViewerCount` | internal/chat/handler.go:127-131 | the size of the room |
| `ChatHub.Hub.Run` | internal/chat/handler.go:84-124 | the loop over any events leaves the state of the run that the lemmas are about |
| `ChatHub.StepKeepsRooms` | internal/chat/handler.go:84-124 | every event keeps rooms listing exactly the open channels of their stream, and channels bounded |
| `ChatHub.HubNeverPanics` | internal/chat/handler.go:95-120 | in no run is a channel closed twice or sent on after its close, over both removal paths |
| `ChatHub.ChannelStep` | internal/chat/handler.go:84-124 | what one event does to one client: a message of its stream is appended unless the event removes the client |
| `ChatHub.Gapless` | internal/chat/handler.go:84-124 | what was put into a client's channel is exactly its stream's broadcasts, in hub order, from registration to removal |
| `ChatHub.Delivery` | internal/chat/handler.go:192-211 | the write pump took a prefix of those, and the client is listed exactly until its removal |
| `ChatHub.ViewersAreListed` | internal/chat/handler.go:126-131 | a room holds exactly the clients of its stream that registered and have not been removed |
| `Schedule.Atoi` | cmd/scheduleworker/main.go:206-215 | the digit loop computes the decimal value, or nothing if a character is no digit |
| `Schedule.ClockRoundTrip` | cmd/scheduleworker/main.go:196-204 | every HH:MM is read back as its hour and minute |
| `Schedule.ParsersAgree` | internal/schedule/service.go:168-173 | the worker accepts exactly the strings with a colon that the service reads as a time of day, and then both agree |
| `Schedule.WantedDays` | internal/schedule/service.go:175-187 | the weekday map holds exactly the schedule's ISO weekdays in Go's numbering |
| `Schedule.OccurrencesExact` | internal/schedule/service.go:189-214 | the day loop emits exactly the instants that satisfy weekday, bounds, horizon and the one-hour rule |
| `Schedule.EmittedIff` | internal/schedule/service.go:189-214 | for ISO weekdays, at any horizon: emitted exactly on the days whose ISO weekday, counting day 0 as a Thursday, is listed, within the bounds and the horizon and at most an hour past |
| `Schedule.OccurrencesAscend` | internal/schedule/service.go:189-214 | in strictly ascending order |
| `Schedule.NextOccurrences` | internal/schedule/service.go:163-215 | the service's loop returns that sequence, or an error for an unknown zone or a malformed start time |
| `Schedule.Worker.EnsureRow` | cmd/scheduleworker/main.go:157-186 | a row is inserted exactly when it is missing and no query fails; one of the three counts goes up by one |
| `Schedule.Worker.MaterialiseDays` | cmd/scheduleworker/main.go:127-187 | the worker's loop goes through the same sequence, creates exactly the missing rows, and created + skipped + errors is its length |
| `Schedule.Worker.Materialise` | cmd/scheduleworker/main.go:112-194 | one error and no change for a bad zone or start time; otherwise the day loop's result, and the touch unless it fails |
| `Schedule.Worker.Run` | cmd/scheduleworker/main.go:94-106 | a tick's counts add up to all occurrences and unreadable schedules, each in its own zone, whatever queries fail, and created is the number of new rows |
| `Schedule.MissingExact` | cmd/scheduleworker/main.go:157-186 | exactly the occurrences that get a row: emitted, not there, not failing |
| `Schedule.UpcomingOn` | cmd/scheduleworker/main.go:137-155 | a run looks at a day's occurrence exactly when its horizon reaches the day, the day qualifies and it began at most an hour ago |
| `Schedule.LooksAtIff` | cmd/scheduleworker/main.go:137-155 | the same of the worker's 14 days in numbers: day 0 a Thursday, horizon 1209600 seconds, one hour of grace |
| `Schedule.RunCounts` | cmd/scheduleworker/main.go:137-187 | a run adds one row for an occurrence that it looks at, that has none and about which no query fails, and no other |
| `Schedule.RowIff` | cmd/scheduleworker/main.go:137-187 | whatever queries fail in which runs, an occurrence has exactly one row if and only if some run looked at it without a failure about it |
| `Schedule.CreatorIff` | cmd/scheduleworker/main.go:157-186 | and the run that creates it is the first of those |
| `Schedule.Coverage` | cmd/scheduleworker/main.go:137-187 | over overlapping runs an occurrence about which no query fails has no row until a run reaches it, exactly one ever after, and that run is no later than its start |
| `Schedule.GateKeepsOverlap` | sql/queries/class_schedules.sql:28-44 | with ticks at most 13.5 days apart the 12-hour gate leaves runs at most 14 days apart, and every tick within the dates at most 12 hours after a run |
| `Schedule.PicksUpIff` | sql/queries/class_schedules.sql:28-44 | a tick picks the schedule up exactly within its dates and more than 12 hours after the run before |
| `Schedule.TickCoverage` | sql/queries/class_schedules.sql:28-44 | under such ticks, also outside the dates, each occurrence up to the last horizon about which no query fails is created exactly once, in time |
| `Schedule.GateLosesOccurrence` | cmd/scheduleworker/main.go:42-44 | for every longer gap a daily class and three ticks in which an occurrence is not created in time |
| `Schedule.CoversIff` | cmd/scheduleworker/main.go:42-44 | all occurrences are created once and in time under every sequence of ticks with gaps up to g if and only if g is at most 14 days less 12 hours, 1166400 seconds |
| `Schedule.BoundsExact` | internal/schedule/service.go:199-205 | with a fixed offset the date bounds are the civil ones except on the first day east and the last day west of Greenwich |
| `Schedule.BoundsAreCivilIff` | cmd/scheduleworker/main.go:144-149 | they are civil dates for every schedule if and only if the offset is zero |
| `LineWrap.SplitWords` | internal/share/poster.go:169-184 | the index loop returns the words of the string |
| `LineWrap.SplitAtSpace` | internal/share/poster.go:169-184 | a space separates the words before it from those after it |
| `LineWrap.OneWord` | internal/share/poster.go:169-184 | a nonempty string without spaces is one word |
| `LineWrap.WordsAreWords` | internal/share/poster.go:169-184 | no word is empty or holds a space |
| `LineWrap.JoinSplit` | internal/share/poster.go:147-184 | splitting a drawn line gives back the words set on it |
| `LineWrap.FitsByPixels` | internal/share/poster.go:147-160 | a line fits in pixels exactly when its length is within the capacity |
| `LineWrap.WrapLoopIs` | internal/share/poster.go:147-167 | the loop's line, height and drawing are those of greedy breaking |
| `LineWrap.Wrap` | internal/share/poster.go:147-167 | the drawn lines and their heights are the greedy lines of the words, one slot lower after an over-wide first word |
| `LineWrap.Lossless` | internal/share/poster.go:147-184 | the lines hold the words in order, none lost or added; each fits or is one over-wide word |
| `LineWrap.GreedyAhead` | internal/share/poster.go:147-167 | no setting of the words has fewer lines, and one with as many has at least as many words on its last |
| `LineWrap.GreedyIsOptimal` | internal/share/poster.go:147-167 | no other way to set the words uses fewer lines, and greedy is one of the ways |
| `Streak.Engagement.CheckIn` | internal/engagement/handler.go:409-442 | the new row and grants, with a failing upsert and a failing grant |
| `Streak.Replay` | internal/engagement/handler.go:409-442 | check-in by check-in the method leaves the row and badges of the history |
| `Streak.Extend` | internal/engagement/handler.go:411-428 | one update keeps the row a summary of the active days: current run, longest run, last day |
| `Streak.StreakIsLongestRun` | internal/engagement/handler.go:411-428 | current_streak is the run of consecutive days ending at the last check-in, longest_streak the longest run ever |
| `Streak.SameDayIdempotent` | internal/engagement/handler.go:411-440 | a repeated check-in on a day leaves the row; it adds a badge exactly when its grant query works and an earned badge is missing, so never after a grant that worked |
| `Streak.BadgesExact` | internal/engagement/handler.go:432-440 | a badge is held exactly when a check-in whose grant query worked ended a run of 7 or 30 days |
| `Streak.BadgeIffLongest` | internal/engagement/handler.go:432-440 | if no grant fails, the 7 and 30 day badges are held exactly when longest_streak reaches 7 and 30 |
| `RlsPool.Connection.SetConfig` | internal/tenants/service.go:82-89 | a direct set_config changes one session variable until something overwrites it |
| `RlsPool.Connection.BeforeAcquire` | internal/database/postgres.go:63-81 | the hook writes all four variables from the context, or rejects the connection |
| `RlsPool.BareContextSeesNothing` | internal/database/rls_context.go:50-56 | a context without values shows no row at all |
| `RlsPool.TenantScope` | internal/database/rls_context.go:32-38 | which rows a WithTenant context shows, exactly |
| `RlsPool.SuperAdminScope` | internal/database/rls_context.go:40-44 | a super-admin context shows every row |
| `RlsPool.PublicLookupScope` | internal/database/rls_context.go:46-48 | a public-lookup context adds exactly the tenant records |
| `RlsPool.SessionIsOwn` | internal/database/postgres.go:63-81 | in every history a held connection carries exactly what its holder's acquire and set_config calls wrote, and no connection has two holders |
| `RlsPool.SeenIsOwn` | internal/database/postgres.go:63-81 | the rows shown by each of a client's queries are a function of its own calls |
| `RlsPool.NonInterference` | internal/database/postgres.go:63-81 | two histories in which a client does the same show it the same rows, whatever the others did on the shared connections |
| `RlsPool.PoolQuery` | internal/database/postgres.go:49-81 | acquire and query, with any events of other clients before and between: the query shows exactly what its own context allows |
| `Attempts.Grade` | internal/tests/service.go:268-292 | full marks for the option marked correct or a number less than 0.0001 away from the correct one, never for a blank; the negative marks for a wrong attempt; nothing for a blank one |
| `Attempts.Service.GetActiveAttempt` | sql/queries/test_attempts.sql:10-14 | an attempt in progress started last, if there is one |
| `Attempts.Service.StartAttempt` | internal/tests/service.go:220-240 | returns the attempt in progress, or opens one that counts the test's questions when none is active or the query for it fails; an error exactly when the count or the insert fails |
| `Attempts.Service.SubmitAnswer` | internal/tests/service.go:251-308 | the graded answer replaces the earlier one to that question, or is refused with no change, also for an unknown option; an option that cannot be read counts as wrong |
| `Attempts.Service.SubmitAttempt` | internal/tests/service.go:318-353 | the score and counts of the stored answers, with 0 and NULL for a count and a sum that fail, clamped skipped count, status completed |
| `Attempts.UpsertSum` | sql/queries/test_attempts.sql:37-50 | an upsert changes any total by the new answer's weight minus the replaced one's, and only that question's row |
| `Attempts.SumIsOverLastAnswers` | sql/queries/test_attempts.sql:58-65 | any total over the rows is the sum over the questions of the last answer to each |
| `Attempts.OrderIndependent` | internal/tests/service.go:251-353 | histories that end with the same answer to each question are graded alike |
| `Attempts.PartsAddUpIff` | internal/tests/service.go:326-332 | correct + wrong + skipped is the total if and only if no more answers were counted than the attempt has questions |
| `Attempts.ForeignAnswer` | internal/tests/service.go:262-265 | a run whose parts do not add up: an answer to another test's question |
| `Attempts.RunOk` | internal/tests/service.go:220-353 | of calls made one at a time: an attempt's rows are those of the answers it accepted, and a completed one shows what its last submission computed from them |
| `Attempts.SecondActiveIff` | internal/tests/service.go:221-226 | a call that nothing overlaps leaves a user with two attempts in progress at one test if and only if it is a start that creates one while one is active, which then takes a failing query |
| `Attempts.OneActiveIff` | internal/tests/service.go:220-240 | of calls made one at a time: never two in progress if and only if no start is of that kind |
| `Attempts.TwoActive` | internal/tests/service.go:220-240 | such a run: two starts, the second with a failing query |
| `Attempts.FinalScore` | internal/tests/service.go:318-353 | a submitted attempt at its own questions shows as score the marks of the last answer to each question added up, as correct and wrong the numbers of questions whose last answer is and is not correct, and as skipped the rest, if and only if no query of its last submission hid something |
| `Attempts.TruthfulIff` | internal/tests/service.go:326-328 | a completed attempt shows its true grades if and only if the failing queries of its last submission hid nothing |
| `Attempts.ChangesIff` | internal/tests/service.go:318-353 | a call changes a truly graded attempt if and only if it is a resubmission with a failing query that hides something; it never changes the answers |
| `Attempts.SubmittedIsFinalIff` | internal/tests/service.go:251-353 | through any later calls made one at a time a truly graded attempt stays the same if and only if none of them is such a resubmission |
| `Attempts.ResubmitLosesScore` | internal/tests/service.go:326-347 | every submitted attempt loses its score when its owner resubmits and the sum fails |
| `Attempts.OneAnswer` | internal/tests/service.go:220-353 | start, one answer, submit: the score is that answer's marks, correct and wrong are 1 and 0 or 0 and 1, and the other questions are skipped |
| `AttemptRaces.SoloRun` | internal/tests/service.go:220-353 | a call of the interleaved machine that nothing overlaps does what the serial call does, whichever queries fail |
| `AttemptRaces.SecondInsertIff` | internal/tests/service.go:221-235 | under overlapping calls two attempts in progress arise from a step if and only if it inserts one while another is in progress |
| `AttemptRaces.NeverTwoIff` | internal/tests/service.go:221-235 | in every interleaving: never two if and only if no step is such an insert |
| `AttemptRaces.SecondNeedsFaultOrRace` | internal/tests/service.go:221-235 | such an insert takes a failed query for the active attempt, or another start that inserted between that query and this insert |
| `AttemptRaces.TwoStarts` | internal/tests/service.go:221-235 | the run: two overlapping starts and no failing query |
| `AttemptRaces.FinalIff` | internal/tests/service.go:251-353 | a truly graded attempt and its answers stay the same through every continuation without a spoiling call if and only if no answer that passed its check is still to be written with an effect and no submission in flight holds other values |
| `AttemptRaces.QuietIsFinal` | internal/tests/service.go:251-353 | so it is final once no answer or submission of it is in flight |
| `AttemptRaces.LateAnswerSpoils` | internal/tests/service.go:258-294 | an answer checked before a submission and written after it leaves a score of 0 for answers worth something |
| `FanOut.Limit` | internal/push/fcm.go:79-82 | the configured limit when positive and 20 otherwise, so never below one |
| `FanOut.StepInv` | internal/push/fcm.go:136-154 | every step keeps semaphore, wait group, mutex and failure count in balance and brings the end nearer |
| `FanOut.RunInv` | internal/push/fcm.go:136-154 | in every state of every interleaving |
| `FanOut.Progress` | internal/push/fcm.go:142-154 | until Send returns some process can move: no deadlock |
| `FanOut.Bounded` | internal/push/fcm.go:136-153 | at most maxConcurrency requests are in flight, the counters are updated by one goroutine at a time, no token is sent twice |
| `FanOut.LimitReached` | internal/push/fcm.go:142-147 | and a run has exactly that many in flight, or one for each token if there are fewer |
| `FanOut.Terminates` | internal/push/fcm.go:142-154 | no interleaving makes more than 12 moves a token and three |
| `FanOut.Outcome` | internal/push/fcm.go:148-163 | at the return every token was sent once, failed is the number of failing sends, the kept error is a failing send's |
| `FanOut.StuckIff` | internal/push/fcm.go:79-82 | a state that cannot move is reachable if and only if the limit is zero and there is a token |
| `FanOut.Fcm.constructor` | internal/push/fcm.go:79-91 | the configured limit, or 20 |
| `FanOut.Fcm.Send` | internal/push/fcm.go:131-170 | under any scheduling it ends, each token is sent once, and it errs exactly when the list is nonempty and every send failed |
| `Devices.Service.EvictOldestDeviceForUser` | sql/queries/device_tokens.sql:34-45 | one oldest row of the account is deleted, stale ones included |
| `Devices.Service.Register` | internal/devices/service.go:34-60 | the loop ends; deletions are oldest first and only the account's; the token is then active; without failures the exact resulting table |
| `Devices.SerialCap` | internal/devices/service.go:34-60 | used serially an account never has more than two active devices and no other account loses one but for the token |
| `Devices.RegisteredIs` | internal/devices/service.go:34-60 | what a registration leaves: the token with its account and time, all other rows as they were and those of other accounts all there; below two active devices nothing goes, from two on only one newest device of the account stays beside it |
| `Devices.SurvivesIff` | internal/devices/service.go:38-54 | another device survives a registration only if the account was below the cap or it is a newest, and certainly below the cap or if it is the newest alone; a newest device that registers again evicts all others |
| `Devices.StepCapped` | internal/devices/service.go:38-60 | each step of overlapping registrations keeps active devices plus pending upserts within the bound |
| `Devices.SoloRun` | internal/devices/service.go:34-60 | a call of the concurrent machine that nothing overlaps ends in the table that Register is proved to leave |
| `Devices.RunCapped` | internal/devices/service.go:34-60 | with at most k registrations in flight, active devices never exceed the cap less one plus k, plus one for each failed query |
| `Devices.BoundReached` | internal/devices/service.go:34-60 | for every k and e some run with k overlapping registrations and e failed queries ends with exactly that many active devices |
| `BulkImport.IndexHeader` | internal/bulkimport/service.go:112-132 | each column is the last with its title in any case and order; an error exactly when phone or name is missing |
| `BulkImport.ToLowerAt` | internal/bulkimport/service.go:115-115 | lower case, character by character, of ASCII text |
| `BulkImport.SpacesAre` | internal/bulkimport/service.go:139-139 | the white space that is trimmed, character by character |
| `BulkImport.TrimIff` | internal/bulkimport/service.go:139-139 | trimming leaves exactly the text between the white space at both ends |
| `BulkImport.NormalizeIff` | internal/bulkimport/service.go:223-227 | normalising leaves exactly the phone in which spaces and dashes were strewn, with white space around |
| `BulkImport.PhoneOkIff` | internal/bulkimport/service.go:65-65 | a valid phone is 7 to 15 digits with or without a plus sign before them |
| `BulkImport.ReadIs` | internal/bulkimport/service.go:134-164 | how a row is read from its cells as typed: a phone with spaces and dashes anywhere is that phone, a blank role is a student, and the first check that fails is the error |
| `BulkImport.StoredPhoneStable` | internal/bulkimport/service.go:223-227 | a phone that passes the check is its own normal form |
| `BulkImport.Service.ProcessRow` | internal/bulkimport/service.go:134-218 | the new tables, counts and errors for each kind of row and each failing query |
| `BulkImport.Service.Import` | internal/bulkimport/service.go:72-103 | refused exactly on an unreadable or incomplete header; otherwise the rows in order, counts that add up, one error a skipped row |
| `BulkImport.SumsUp` | internal/bulkimport/service.go:85-102 | created + updated + skipped is the number of data rows and skipped the number of errors |
| `BulkImport.ErrorRows` | internal/bulkimport/service.go:85-102 | error row numbers are strictly increasing and those of exactly the skipped rows |
| `BulkImport.CreatedAreAdded` | internal/bulkimport/service.go:166-218 | whatever fails, one new user for each row counted as created, with a phone from the file |
| `BulkImport.CreatedIsDistinctNew` | internal/bulkimport/service.go:166-218 | without insert failures, created counts the distinct valid phones that are new |
| `BulkImport.LastNameWins` | internal/bulkimport/service.go:166-183 | whatever queries fail, a user ends with the name of the last row that wrote one for the phone, and keeps name and email otherwise |
| `BulkImport.MembersExact` | internal/bulkimport/service.go:176-206 | whatever queries fail, the memberships added are exactly those of the rows that were taken and whose membership query worked |
| `BulkImport.BarrenRun` | internal/bulkimport/service.go:166-199 | where every row's phone is known, its email taken or its insert failing, nobody is created, and what each row comes to |
| `BulkImport.NobodyCreatedIff` | internal/bulkimport/service.go:166-199 | an import creates nobody if and only if that holds of every row |
| `BulkImport.Reimport` | internal/bulkimport/service.go:72-218 | whatever queries fail in either import, when importing a file again creates nobody, and then which rows are skipped again |
| `SignedToken.ParseFormat` | internal/videoguard/signed_url.go:35-38 | the formatted expiry parses back for every 64-bit value |
| `SignedToken.FormatParseIff` | internal/videoguard/signed_url.go:50-51 | a parsed expiry formats back to its text if and only if the text is canonical |
| `SignedToken.ParsesIff` | internal/videoguard/signed_url.go:50-51 | which texts parse: an optional sign and digits within 64 bits |
| `SignedToken.HexInjective` | internal/videoguard/signed_url.go:38-38 | different digests have different hexadecimal texts |
| `SignedToken.UnhexHex` | internal/videoguard/signed_url.go:38-38 | hexadecimal text reads back as the bytes, in digits and lower-case letters |
| `SignedToken.RoundTrip` | internal/videoguard/signed_url.go:34-67 | Verify accepts Sign's token exactly while now is at most the expiry, and calls it expired after that |
| `SignedToken.SignSpells` | internal/videoguard/signed_url.go:34-38 | Sign's token is the digest of user, recording and expiry joined by bars, in hexadecimal, a dot and the expiry |
| `SignedToken.VerdictOf` | internal/videoguard/signed_url.go:44-67 | the verdict on any token by the text around its first dot, in the order of the checks |
| `SignedToken.AcceptedIff` | internal/videoguard/signed_url.go:44-67 | a token is accepted if and only if it is the digest of the payload, a dot, and that payload's parseable unexpired expiry |
| `SignedToken.AcceptedIsSignedIff` | internal/videoguard/signed_url.go:44-67 | an accepted token is Sign's output if and only if its expiry is written canonically |
| `SignedToken.PayloadInjective` | internal/videoguard/signed_url.go:35-35 | identifiers without a bar make different payloads |
| `SignedToken.SharedTokenIsCollision` | internal/videoguard/signed_url.go:58-64 | a token accepted for two viewers or recordings is a collision of the digest |

## Left out

- SettlementRuns.PaidMeansEnrolled: courses that an administrator adds to a bundle after the settlement listed it are not enrolled, in the source as in the model.
- SettlementRuns.Converge: compares enrollments only; payment ids are those of whichever delivery settled first.
- RlsPool.BareContextSeesNothing: covers the policies of migration 029; those of migration 042 cast a blank tenant to a UUID, so that a query on their tables fails instead of showing nothing.
- TenantService.Cache.Get: the error value beside a miss, which its caller ignores.
- Schedule.TickCoverage: the limit of 1000 schedules a tick, deactivating a schedule and a failing touch are not covered; a run's touch carries the time at which the run began.
- ChatHub.Hub.Run: the map delete under a read lock is a data race between goroutines that atomic iterations do not show; JSON encoding, timestamps, pings and read limits are left out.
- FanOut.Fcm.Send: the token request, HTTP and JSON of one send are one step with an arbitrary outcome; an error is identified by the position of its token.
- Devices.Service.Register: the platform column and NULL times are not modelled.
- BulkImport.Service.Import: CSV parsing is not modelled (a record or a parse error is an input), nor is a body whose reads keep failing; batch codes are only logged by the source; users without a phone appear only through their email addresses.
- SignedToken.Verify: constant-time comparison and the 15-minute lifetime chosen by the caller.
- Attempts.Service.SubmitAttempt: time taken and the abandoned status; deleting an attempt or a question.
- LineWrap.Wrap: drawing of glyphs; widths are 7 pixels a rune times the scale, as in the fixed face the source uses, and a rune is one character.
- Streak.Engagement.CheckIn: the profile and leaderboard that read the same tables.
- RlsPool.Connection.BeforeAcquire: writes under row-level security, and set_config calls local to a transaction.
- Enrollment status: the settlement paths insert a NULL status and overwrite a cancelled one; only the (user, course) pairs are modelled.
- Subscriptions and fee instalments, which write to the same payments table through other code.
- The referral reward's own effects: only the call is modelled, once for each settlement.
- Signature verification, the payment provider, email, metrics, logging, HTTP, JSON binding, configuration.
- Float rounding: marks, tokens and tolerances are exact.
- Daylight-saving gaps at midnight and the time-zone database.
- The remaining services (courses, subjects, banners, materials, bookmarks and the like) are single-query wrappers.
