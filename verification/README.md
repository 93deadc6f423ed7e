# Ingest service: a verified model

A Dafny model of the event-ingestion service and of the packages under it, with proofs about whole
runs: many handlers sharing Redis counters, Postgres rows, one key cache and one ClickHouse table,
clients that resend freely, and dependencies that fail before or after taking effect.

`dafny verify dfyconfig.toml` checks everything.

## How it is built

Each state machine has a datatype `Step`, a total function `Apply`, and runs that are arbitrary
sequences of steps. A step that cannot happen changes nothing, so every theorem about a run holds
for every interleaving. Code that changes fields in place is also written as it stands, as classes
and loops, and proved equal to the functions the machines are made of. Parameters say how a call to a
dependency goes: well, without effect, or with its effect but no reply.

| files | what they model |
|---|---|
| `Clock`, `Keys`, `Redis`, `Wrappers` | 64-bit millisecond arithmetic, saturating time differences, UTC calendar, Redis key text, commands with expiry |
| `Quota`, `FixedWindow` | the two admission scripts |
| `Events`, `Enrich`, `EventTable` | validation, clock correction, offset stores, rows, the merging table |
| `Pipeline` | batch ingestion as atomic steps, and its invariant |
| `Acks`, `Budget`, `Dedup`, `Isolation`, `Responses` | theorems about runs of `Pipeline` |
| `Handler` | the batch handler's loops, with everybody else running between its calls; each of its runs is a run of `Pipeline` |
| `KeyCache`, `SigningKeys`, `Tokens`, `Rotation` | cached keys, the key table, tokens, and all three together |
| `Challenges`, `InstallTable` | the nonce store and the installs table |
| `Exchange`, `ExchangeLimits`, `ExchangeIds`, `TokenHandler` | limiter, nonces, tiers and identities under concurrency; the two endpoints, with everybody else running between their calls |
| `PgMigrate`, `ChMigrate` | the two migration runners |

Standards named in the model: RFC 7519 sections 2 and 4.1.3 to 4.1.5, RFC 9068 section 2.1,
RFC 7517 sections 4.2 and 4.5, RFC 8037 section 2, RFC 6749 section 3.3, RFC 6585 section 4 and
RFC 9110 section 10.2.3.

## Where the code and its comments differ

- Comments in `services/ingest/internal/enrich/skew.go` and
  `services/ingest/internal/handler/batch.go` say that a resent event keeps its `ts`. The clamp
  makes `ts` the receipt time outside the window from 24 hours before to 30 days after the corrected
  time. `Dedup.DeliveriesCollapseIff` gives the exact condition, `Dedup.RowsLeftByAnEvent` the row
  count, and `Dedup.LateResendIsStoredTwice` a run on which plain idempotence fails.
- The quota keys are named after a clock reading taken before the body is read
  (`services/ingest/internal/handler/batch.go:56`), so a script can run long after the second its
  key is named for, when the counter has already expired. `Quota.SeenIsExactIff` says exactly when the
  script sees the true sum, `Quota.SlowScriptIsRefunded` gives a run in which it does not, and
  `Quota.ExpiryNeverRefunds` is the guarantee for scripts that run within half a second.
- `services/ingest/internal/attest/attest.go` scopes a nonce key to a client and a platform. The
  platform is free text, so two clients can share a key; `Keys.AttestKeyCollision` says exactly
  which. Theorems about nonces are therefore per key.

## Model

| member | source | states |
|---|---|---|
| Keys.RateKey | services/ingest/internal/quota/quota.go:83 | A rate key is in a Redis key family of its own, recognised from its first four characters |
| Keys.DayKey | services/ingest/internal/quota/quota.go:84 | So is a daily key |
| Keys.TokenKey | services/ingest/internal/handler/token.go:86 | So is the token limiter's key |
| Keys.ChallengeKey | services/ingest/internal/handler/token.go:164 | So is the challenge limiter's key |
| Keys.AttestKey | services/ingest/internal/attest/attest.go:87-89 | So is a nonce key; with the rows above, no two families ever share a key |
| Keys.RateKeyInjective | services/ingest/internal/quota/quota.go:83 | One (tenant, install, second) per rate key, whatever characters the tenant id holds |
| Keys.DayKeyInjective | services/ingest/internal/quota/quota.go:84 | One (tenant, UTC day) per daily key |
| Keys.AttestKeyCollision | services/ingest/internal/attest/attest.go:87-89 | Two client ids can produce one nonce key if and only if they are equal or the longer continues the shorter with "}:" |
| Clock.DatesIncrease | services/ingest/internal/quota/quota.go:84 | Later UTC days have later calendar dates |
| Clock.DateOfIsCalendar | services/ingest/internal/quota/quota.go:84 | Counting UTC days one by one agrees with the closed form of the Gregorian calendar, leap years included |
| Quota.Checker.Allow | services/ingest/internal/quota/quota.go:46-105 | Running the script's commands one by one gives the decision and the counters of one atomic admission; the reason is the rate exactly when the install's second cannot take the call, the day only when that one can and the day cannot |
| Quota.ConsumeOneKey | services/ingest/internal/quota/quota.go:65-68 | An admission adds its units to its own two buckets, re-arms their expiry, and leaves every other bucket's entry alone |
| Quota.SeenIsExactIff | services/ingest/internal/quota/quota.go:55-68 | In every reachable state the script sees exactly the units admitted on a bucket if and only if no admission on it, nor this look, came a whole TTL after the one before |
| Quota.ExpiryNeverRefunds | services/ingest/internal/quota/quota.go:46-92 | With scripts within 0.5 s of their receipt time, a call is denied exactly when it would exceed a positive limit on the units really admitted, for the rate exactly when the rate is exceeded; an admitted call counts on its two buckets only, a denied one nowhere |
| Quota.SlowScriptIsRefunded | services/ingest/internal/handler/batch.go:56-75 | A script three seconds behind its receipt time is admitted on a bucket that is already full |
| Quota.BudgetKept | services/ingest/internal/quota/quota.go:55-68 | Over any run the units admitted on a bucket stay within d when every admitting call was prompt and had a positive limit of at most d |
| Quota.UntilNextUtcDay | services/ingest/internal/quota/quota.go:139-144 | The delay is positive, at most a day, and ends at a UTC midnight |
| Quota.RetryAfterReachesNextBucket | services/ingest/internal/handler/batch.go:143-147 | Waiting the header's seconds reaches another bucket key; after a daily denial the next UTC day, at most one second in |
| Quota.EarlyRetryIsDenied | services/ingest/internal/quota/quota.go:139-144 | An earlier retry on the same bucket with no fewer units and no larger limit is denied again, whatever ran in between |
| Quota.OversizeIsAlwaysDenied | services/ingest/internal/quota/quota.go:55-63 | A batch larger than a positive limit is denied in every reachable state |
| FixedWindow.Limiter.AllowClient | services/ingest/internal/quota/quota.go:119-137 | The call counts itself, is allowed exactly within the limit, and never leaves a counter without expiry |
| FixedWindow.ExpiryIsFirstCallPlusWindow | services/ingest/internal/quota/quota.go:127-137 | A live counter expires exactly one window after the call that opened it, denied calls included; windows are at least a window apart |
| FixedWindow.CounterIsExact | services/ingest/internal/quota/quota.go:119-137 | The counter is the number of calls since its window opened, and a call is allowed exactly when it is one of the first `limit` of its window |
| FixedWindow.PaidByWindows | services/ingest/internal/quota/quota.go:119-137 | Allowed calls in an interval are covered by limit times the windows opened in it, plus one window that was open before |
| FixedWindow.AllowedCallsBounded | services/ingest/internal/quota/quota.go:119-137 | At most limit * (ceil(W / window) + 1) calls are allowed in any interval of length W |
| Spacing.FewInInterval | pkg/tenant/verify.go:33-35 | Instants kept a gap apart number at most floor(W / gap) + 1 in any interval of length W |
| Events.ValidIffStorable | services/ingest/internal/validate/validate.go:53-104 | The chain of early returns accepts exactly the events that meet every storage bound |
| Events.CodeNamesTheBound | services/ingest/internal/validate/validate.go:58-101 | Each code names the bound that is missed first, with every earlier bound met; a property complaint is true of some property |
| Events.ValidityIgnoresPropertyOrder | services/ingest/internal/validate/validate.go:85-101 | Acceptance does not depend on the order in which properties are visited |
| Enrich.CandidateNeverWraps | services/ingest/internal/enrich/skew.go:56-67 | For every 64-bit send time the subtraction does not wrap; the estimate is the true difference when that lies in [-24 h, 30 d], otherwise zero |
| Enrich.CorrectExactly | services/ingest/internal/enrich/skew.go:42-52 | For validated device times nothing overflows or saturates visibly; the result is the corrected time inside its window and the receipt outside, always within [receipt - 30 d, receipt + 24 h] |
| Enrich.OutsideIsElsewhere | services/ingest/internal/enrich/skew.go:42-52 | A clamped delivery never lands on the event's corrected millisecond |
| Enrich.PostgresOffsets.GetOrSet | services/ingest/internal/enrich/postgres_offset_store.go:21-37 | First writer wins, later calls return the stored offset, every call bumps last_seen |
| Enrich.MemoryOffsets.GetOrSet | services/ingest/internal/enrich/skew.go:81-89 | First writer wins in the in-process store |
| Enrich.StoresAgree | services/ingest/internal/enrich/skew.go:27-35 | Without retention sweeps the two stores stay in step, so they answer alike |
| Enrich.PropsJson | services/ingest/internal/enrich/enrich.go:52-74 | The loop builds the flat object of the set properties |
| Enrich.FlattenMeaning | services/ingest/internal/enrich/enrich.go:49-66 | The flat object holds each set property under its own key and nothing else |
| Enrich.FlattenIgnoresOrder | services/ingest/internal/enrich/enrich.go:57-66 | The stored properties do not depend on the visiting order |
| Enrich.RowKeepsEvent | services/ingest/internal/enrich/enrich.go:12-47 | A stored row gives the event back, raw device time included; tenant, install and tier are the token's |
| EventTable.ScheduleCovers | migrations/clickhouse/0001_events.sql:32-34 | No merge schedule invents a row, loses a sort key, or loses the newest version of one |
| EventTable.MergingCanFinish | migrations/clickhouse/0001_events.sql:32-34 | From any table some schedule of merges leads to a fully merged one |
| EventTable.FullyMergedCount | migrations/clickhouse/0001_events.sql:32-34 | A fully merged table holds one row of an event per distinct stored millisecond, across partitions |
| Pipeline.ValidEventsAreValid | services/ingest/internal/handler/batch.go:110-117 | Exactly the valid events of a batch go on, and valid and rejected add up |
| Pipeline.RunKeepsInv | services/ingest/internal/handler/batch.go:110-189 | In every reachable state each request's rows, ids, memo and store calls are those of a prefix of its valid events, stored rows belong to requests, and a finished one's rows are all in a successful insert |
| Acks.ValidationPartitions | services/ingest/internal/handler/batch.go:110-117 | Valid and rejected events make up the batch as a multiset; each reject carries its event's id and first complaint, in order |
| Acks.AckIsDurable | services/ingest/internal/handler/batch.go:185-202 | In every run a 200 accepts exactly the valid ids in request order and rejects exactly the others; each accepted event has a row of the claim's tenant and install in an insert that returned success, and, whatever merges have run, the table still holds a row of it received no earlier |
| Acks.MemoIsTransparent | services/ingest/internal/handler/batch.go:152-183 | While no sweep runs, each row equals the one that asking the store for every event would give; the store answered once per distinct session |
| Acks.StoredTimesAreBounded | services/ingest/internal/enrich/skew.go:42-67 | In every reachable state stored offsets lie in [-24 h, 30 d] and stored times in [receipt - 30 d, receipt + 24 h] |
| Budget.PaidRowsAreAdmitted | services/ingest/internal/handler/batch.go:134-189 | If every insertion is covered by its request's one admission, a bucket's insertions never exceed its admitted units |
| Budget.StoredNeverExceedsAdmitted | services/ingest/internal/handler/batch.go:134-189 | Over every interleaving, partial inserts and lost replies included, rows stored in a bucket never exceed the units admitted on it |
| Budget.AdmissionHasCharge | services/ingest/internal/handler/batch.go:119-138 | In every run each admission on record was made by one quota call of its request: its tenant, install and receipt time, one unit per valid event or one for none, the daily limit that was looked up, and the legacy rate for legacy requests, the tier's otherwise |
| Budget.BudgetHolds | services/ingest/internal/handler/batch.go:119-189 | Rows stored in a bucket never exceed d when every quota call that admitted a request of it was prompt and brought a positive limit of at most d: a tenant's day under dailyEvents, an install's second under its rate |
| Dedup.RunKeepsOneOffset | migrations/postgres/0002_session_offsets_retention.sql:5-13 | Across sweeps at any moment, a session touched at least every 30 days keeps its first offset, and all handlers agree on it |
| Dedup.DeliveriesCollapseIff | services/ingest/internal/enrich/skew.go:42-52 | Two deliveries share a sort key if and only if both were received inside the event's window or both outside it in the same millisecond |
| Dedup.RowsLeftByAnEvent | migrations/clickhouse/0001_events.sql:32-34 | Fully merged, an event has left one row if some delivery was inside its window, plus one per distinct millisecond of receipt outside |
| Dedup.RowsLeftOnceMerged | migrations/clickhouse/0001_events.sql:32-34 | From any run, merges alone lead to a fully merged table with that count |
| Dedup.LateResendIsStoredTwice | services/ingest/internal/enrich/skew.go:45-50 | A run: one valid event delivered at once and again a millisecond more than 30 days later, its session touched in time, ends with two rows of it under different sort keys and nothing left to merge |
| Dedup.SweptSessionSplits | migrations/postgres/0002_session_offsets_retention.sql:5-13 | A run: a session quiet for just over 30 days is swept, and the resend, though received inside the first offset's window, is stored under another sort key |
| Isolation.TenantIsIsolated | services/ingest/internal/handler/batch.go:119-189 | Deleting every other tenant's steps, and everything the limiters and nonces do in the same Redis, from a run leaves a tenant's counters, offsets, rows, requests and responses unchanged |
| Responses.ChargeAnswers | services/ingest/internal/handler/batch.go:119-147 | A quota call ends in a 503 exactly without limits or without a reply, in a 429 exactly when the install's second or the tenant's day cannot take the batch, the second named first, with a wait that meets another bucket, and otherwise enters the row loop |
| Responses.ResponseHasCause | services/ingest/internal/handler/batch.go:92-202 | In every run every response has its cause: 413 a batch over 500 events, 429 a full bucket with an honest wait, each 503 the failure of the dependency it names, 200 an acknowledgement |
| Handler.ValidateAll | services/ingest/internal/handler/batch.go:110-117 | The loop splits the batch into the valid events and the complaints about the others |
| Handler.Admission | services/ingest/internal/handler/batch.go:119-147 | The quota call is a step of the run, and the state it met decides: 429 with its reason and an honest wait, or the row loop; only a failing call gives a 503 |
| Handler.BuildRows | services/ingest/internal/handler/batch.go:149-183 | With any steps of others in between, the row loop and its local memo do exactly the request's own steps of the system |
| Handler.StoreAndAck | services/ingest/internal/handler/batch.go:185-202 | Insert comes before the acknowledgement, and its failure is a 503 |
| Handler.Handle | services/ingest/internal/handler/batch.go:92-202 | The whole handler leaves a run of the system whose outcome for this request is the response: 413 exactly over 500 events, 429 exactly when the quota call met a full bucket, each 503 only when its call failed, otherwise a 200, and a 200 is sound |
| Handler.Shared.Allow | services/ingest/internal/handler/batch.go:119-147 | The script is given the request's tenant, install, receipt time and units and the limits looked up, the legacy rate for legacy requests; the reply is the decision in the state it met, and there is none exactly when the call fails |
| Handler.Shared.GetOrSet | services/ingest/internal/handler/batch.go:161-175 | The reply is the stored offset if there is one; no reply ends the request with a 503 |
| Handler.Shared.InsertRows | services/ingest/internal/handler/batch.go:185-189 | Success puts every row in the table; failure may have stored any of them |
| KeyCache.KeyStore.RefetchLocked | pkg/tenant/verify.go:223-232 | Every attempt counts against the rate limit; only a reply replaces the set |
| KeyCache.KeyStore.Key | pkg/tenant/verify.go:172-221 | Staleness, rate limit, grace, discard and miss as one transition with at most one attempt: within the TTL a cached key is returned without asking, within the grace it is returned and kept when the endpoint fails or may not be asked, past it nothing is |
| KeyCache.CacheAnswers | pkg/tenant/verify.go:174-221 | What a call must answer, case by case: the key, the set kept or thrown away, and whether the endpoint is asked |
| KeyCache.AskingCall | pkg/tenant/verify.go:182-219 | A call that tries the endpoint does so once, at least 30 s after the attempt before; what it returns is from the reply, or from the old set within grace |
| KeyCache.KeyWasServedRecently | pkg/tenant/verify.go:174-232 | For calls in any order of clock readings, a returned key was usable in a set served at most 15 minutes before the reading, 10 if no fetch has failed |
| KeyCache.OutageIsBridged | pkg/tenant/verify.go:187-208 | After a fetch at f serves a key, it is returned at every reading up to f + 15 min while the endpoint fails, and at none after |
| KeyCache.LookupMeaning | pkg/tenant/verify.go:234-261 | A key resolves exactly when it is published under the kid with use sig, kty OKP and crv Ed25519 |
| KeyCache.FetchesAreRateLimited | pkg/tenant/verify.go:182-232 | Attempts within any interval of length W number at most floor(W / 30 s) + 1 |
| KeyCache.PublishedKidIsFound | pkg/tenant/verify.go:206-220 | A kid the endpoint publishes is refused only within 30 s of the previous attempt |
| SigningKeys.Store.PublicJwks | pkg/controlplane/keys.go:36-64 | The loop publishes exactly the unretired rows |
| SigningKeys.Store.ActiveSigningKey | pkg/controlplane/keys.go:18-34 | It fails exactly when no key is active and unretired |
| SigningKeys.Store.EnsureSigningKey | pkg/controlplane/keys.go:86-112 | Success means an active key exists; failure happens exactly when the kid is taken and nothing is active |
| SigningKeys.NeverTwoActiveKeys | migrations/postgres/0001_control_plane.sql:49-50 | With check and insert apart, racing replicas and operators never produce two active unretired keys |
| SigningKeys.MaterialNeverChanges | pkg/controlplane/keys.go:86-99 | No row is lost, no kid's key pair changes, retirement is final |
| SigningKeys.ReturningSawActiveKey | pkg/controlplane/keys.go:100-112 | In every run, a call that has returned without error saw a kid that was active and unretired at some moment of the run, and that still has the same key pair |
| SigningKeys.ColdStartAgrees | pkg/controlplane/keys.go:66-112 | From an empty table without rotation no call fails and all replicas see the same kid |
| Tokens.ScopeIsByWholeWord | pkg/tenant/verify.go:276-283 | A scope is granted if and only if it stands in the text delimited by spaces or ends |
| Tokens.Verifier.Verify | pkg/tenant/verify.go:79-170 | The chain of checks gives the verdict and the cache of the specification |
| Tokens.VerdictExactly | pkg/tenant/verify.go:101-169 | Any token is accepted exactly when its key is known and signed it, issuer and sole audience match, the reading is timely, the write scope is there and the bearer is named; each error says which of these fails first |
| Tokens.HeaderExactly | pkg/tenant/verify.go:79-99 | Before any key is looked up: exactly one signature, then the algorithm, then the type |
| Tokens.MintVerifyRoundTrip | pkg/tenant/token.go:56-85 | A minted token verifies to exactly its claims if and only if they are mintable and the time lies in [nbf - 60 s, exp + 60 s]; otherwise it is refused |
| Rotation.ResolvedKeyWasLive | pkg/tenant/verify.go:174-232 | Against a changing key table, a resolved key is the kid's own and was unretired 15 minutes before |
| Rotation.RetiredKeyIsRefused | pkg/controlplane/keys.go:38-64 | A retired kid is refused at every reading more than 15 minutes after its retirement, even if the endpoint never answers again |
| Rotation.AcceptedTokenIsCurrent | pkg/tenant/verify.go:79-221 | In every run an accepted token was signed by the key table's own pair for its kid, which was unretired 15 minutes before the reading; its window holds the reading, issuer and sole audience are the verifier's, its claims are returned and mintable |
| Rotation.MintedTokenVerifies | pkg/tenant/verify.go:79-221 | With an unretired kid and an answering endpoint, the verdict on a minted token is exactly the round trip's, except within 30 s of the previous attempt, when the kid may be unknown |
| Challenges.RedisChallenges.Issue | services/ingest/internal/attest/attest.go:60-74 | A new nonce replaces the outstanding one of its client and platform for five minutes; a failing SET may or may not have done so, and reports failure |
| Challenges.RedisChallenges.Consume | services/ingest/internal/attest/attest.go:76-85 | A command that takes effect uses up the outstanding nonce, right or wrong, and touches no other key; success is exactly a reply, an unexpired nonce, and that nonce presented |
| Challenges.TakeMeaning | services/ingest/internal/attest/attest.go:76-85 | The same of the transition the runs are made of |
| InstallTable.Installs.IssueInstall | pkg/controlplane/store.go:36-71 | The upsert returns an existing identity's own id, otherwise the candidate; the row returned is the tenant's and the attested subject's, or without a subject the device's; text with a NUL and a taken candidate are refused; a lost reply leaves the row behind |
| InstallTable.UpsertMeaning | pkg/controlplane/store.go:48-66 | A known identity always gets its row back, only its tier changed; a new one is appended under the candidate; refused are exactly text with a NUL and, for a newcomer, a taken candidate |
| InstallTable.CandidatesDiffer | pkg/controlplane/store.go:37-41 | Different draws are different candidate ids |
| Exchange.NonceIsSpentOnce | services/ingest/internal/attest/attest.go:76-85 | In every run each nonce is spent at most once, and only if issued |
| Exchange.OnlyTheLatestNonceSucceeds | services/ingest/internal/attest/attest.go:67-85 | A superseded, spent or expired nonce never succeeds |
| Exchange.GuessUsesUpNonce | services/ingest/internal/attest/attest.go:76-85 | In every run, after any presentation on a key whose command took effect no exchange wins on that key until a new challenge is issued on it |
| Exchange.GrantsNeverExceedChallenges | services/ingest/internal/handler/token.go:102-109 | Tier-0 grants on a nonce key never outnumber the challenges issued on it |
| ExchangeLimits.ExchangesAreRateLimited | services/ingest/internal/handler/token.go:85-97 | Over any run, at most 30 * (ceil(W / 1 min) + 1) exchanges of one client pass the limiter in any interval of length W |
| ExchangeLimits.ChallengesAreRateLimited | services/ingest/internal/handler/token.go:163-177 | Every challenge is issued to a request of its own that the limiter let through, at most 30 * (ceil(W / 1 min) + 1) of one client in any interval of length W |
| ExchangeIds.InstallIdIsWriteOnce | migrations/postgres/0001_control_plane.sql:76-79 | An identity's install id never changes once given, and distinct identities never share one |
| ExchangeIds.SameInstallIff | pkg/controlplane/store.go:48-66 | In every run two grants give the same id exactly when the tenant is the same and either the attested subject is, whatever the device keys, or neither has a subject and the device key is the same |
| ExchangeIds.GrantIsEarned | services/ingest/internal/handler/token.go:102-112 | Tier 0 exactly for a won challenge with a positive verdict, on a nonce not granted before; the id is the one the identity keeps |
| TokenHandler.DeviceKeysApart | services/ingest/internal/handler/token.go:202-209 | Anchors of different clients differ; within a client they agree exactly when the joined platform and hint do |
| TokenHandler.NulPlatformsCollide | services/ingest/internal/handler/token.go:202-209 | A platform with a NUL can share an anchor with another, and no exchange with such a platform is ever granted an install |
| TokenHandler.GrantedAnchorsApart | services/ingest/internal/handler/token.go:202-209 | Requests that can be granted share an anchor exactly when client, platform and hint agree |
| TokenHandler.GrantedTokenVerifies | services/ingest/internal/handler/token.go:118-123 | The token of a grant verifies, throughout its window, to that tenant, install id, tier and write scope |
| TokenHandler.Server.NewToken | services/ingest/internal/handler/token.go:58-142 | With anything running between its calls: 401 exactly for an unknown or revoked client or a failing lookup, 429 exactly when the limiter's call met a full window; a request whose calls go well, without NUL text and with an unused candidate, gets a token, minted for exactly the tier, identity and id the run granted; tier 0 is exactly a nonce alive when presented and a positive verdict |
| TokenHandler.Server.NewChallenge | services/ingest/internal/handler/token.go:146-187 | 401 and 429 as for tokens; a challenge is returned only to a request of its own that the limiter let through, and is the latest and outstanding one of its client and platform, for five minutes |
| TokenHandler.Server.LimitToken | services/ingest/internal/handler/token.go:85-97 | 503 exactly without a reply, counted or not; otherwise 429 with 60 seconds exactly when the window is full |
| TokenHandler.Server.LimitChallenge | services/ingest/internal/handler/token.go:163-175 | The same for the challenge endpoint's own counter |
| TokenHandler.Server.Consume | services/ingest/internal/handler/token.go:99-104 | The exchange wins exactly when there was a reply and the nonce presented was alive |
| TokenHandler.Server.Redeem | services/ingest/internal/handler/token.go:99-116 | Challenge, attestation and install together: tier, identity and id, or the reason for a refusal |
| TokenHandler.Server.IssueInstall | services/ingest/internal/handler/token.go:111-116 | An id is returned exactly when the exchange is granted; it is refused only by a failing statement, NUL text or a taken candidate |
| PgMigrate.EachFileTakesEffectOnce | pkg/controlplane/migrate.go:41-118 | With or without the lock, any replicas, interleaving and crashes: the ledger is a prefix of the sorted names and exactly its bodies have taken effect, once each, in order; success means all of them |
| PgMigrate.LockRemovesRaceErrors | pkg/controlplane/migrate.go:47-59 | While the lock is respected no replica fails because another was faster |
| PgMigrate.LockIsGivenBack | pkg/controlplane/migrate.go:52-59 | In every run a held lock belongs to a replica still working, and when none works a waiting one can take it |
| PgMigrate.WithoutLockTheLoserFails | pkg/controlplane/migrate.go:104-115 | Without it, of two replicas past the same body the second to commit fails on the ledger's primary key |
| PgMigrate.Database.Migrate | pkg/controlplane/migrate.go:81-118 | The loop leaves ledger and effects a common prefix whatever fails, all names on success, and fails only at a file whose statements or commit failed |
| ChMigrate.Connection.AppliedMigrations | pkg/clickhouse/migrate.go:104-120 | The names read back are exactly the recorded ones |
| ChMigrate.Connection.RunFile | pkg/clickhouse/migrate.go:86-94 | The non-blank statements run in order, up to the first that errors or the crash |
| ChMigrate.StatementsInOrder | pkg/clickhouse/migrate.go:86-90 | A file's statements are its non-blank pieces in the order of the text |
| ChMigrate.RunInOrder | pkg/clickhouse/migrate.go:86-94 | Running a list is running its first part and then, if that gets through, the rest |
| ChMigrate.Connection.Migrate | pkg/clickhouse/migrate.go:54-102 | A run leaves what the specification says and returns without error exactly when it gets through, whichever statement errors and wherever it dies |
| ChMigrate.RecordedFilesAreNotRerun | pkg/clickhouse/migrate.go:77-80 | No statement of a recorded file runs again, and records are never lost |
| ChMigrate.CrashIsHarmless | pkg/clickhouse/migrate.go:47-54 | If every file that gets through also gets through after any part of it has run, to the same schema, then a crash anywhere leaves the retry of a run that would get through doing so, with the same schema and ledger |
| ChMigrate.CrashedRunsConverge | pkg/clickhouse/migrate.go:47-54 | Under the same condition any crashed runs followed by a complete one get through and give the schema and ledger of one clean run |
| ChMigrate.RerunnableIsNeeded | pkg/clickhouse/migrate.go:50-53 | For one unrecorded file and a given schema, every crash is harmless if and only if re-running any part of it is |
| ChMigrate.CreateTwiceIsStuck | pkg/clickhouse/migrate.go:32-37 | A single CREATE without IF NOT EXISTS gets through on its own, but after a crash before its record no retry ever does |

## Left out

- HTTP, body size and gzip handling, protojson decoding and encoding, and the 500 on an encoding failure: a request starts as decoded events with verified claims.
- `VerifyOrLegacy`, the legacy modes and `stripBearer`: whether a request is a legacy one is a field of the request.
- `LimitsFor`: the limits of a call are whatever the step brings, so theorems hold for limits that change at any time.
- Cryptography: a token verifies under a key exactly when that key pair signed it, and the SHA-256 of a device key is the hashed text. Random nonces never repeat; candidate install ids may.
- Counting hooks (`OnClockSkew`, `OnLegacyUse`) and log text.
- Numbers: Lua doubles above 2^53 and 64-bit counter overflow are not modelled, and the seconds of Retry-After are an integer floor, which the code's floating-point conversion agrees with for delays of up to a day.
- Redis: a key is gone from the instant its expiry names. Redis Cluster placement is not modelled.
- Strings are byte strings, except that scope splitting uses Unicode spaces.
- The table's 13-month deletion.
- Sorting of file names and splitting of SQL text: the runners are given sorted names and split, trimmed pieces.
- Platform attestation is an arbitrary function.
- An exchange without a rate limiter (a nil `RateLimit`), which production does not use, and client rows that change while one exchange is under way: a client is looked up once.
- A ClickHouse statement that errors has no effect of its own in the model; one that errors half way through is a crash between two smaller statements.
- A failing call of the Postgres migration runner ends it; the lock's own failure is a replica that never starts.
- Budget.BudgetHolds: needs prompt admitting calls (12 hours for a day, half a second for a second), because the counters expire by Redis time while their names come from the handler's clock.
- Dedup.RunKeepsOneOffset: is for sessions touched at least every 30 days, because the sweep forgets quieter ones and the next contact then sets a new offset.
- Dedup.RowsLeftByAnEvent: speaks of one event the client made (one device time, one session per event id); a client that reuses an id for different events leaves rows of each.
- Acks.MemoIsTransparent: assumes no retention sweep while the request runs, because a sweep may remove the offset the batch remembers.
- PgMigrate.Database.Migrate: is one replica alone; replicas together are in PgMigrate.EachFileTakesEffectOnce.
- TokenHandler.Server.NewChallenge: a nonce that repeats an earlier one is taken for a failure, where the code would store it; 256 random bits rule it out.
- Rotation.RetiredKeyIsRefused: assumes a caller's reading never lies ahead of the clock that dates retirements.
