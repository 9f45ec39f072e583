# Session, abuse-protection and authority model of agql-auth

This project models the stateful core of the Rust crate `agql-auth` and proves what it
promises under concurrency. Four state machines are modelled:

1. **Refresh-token rotation with reuse grace.** Sign-in, refresh, step-up, reuse of a just
   superseded token, replay handling, expiry and sign-out over one token store.
2. **Abuse protection.** Recording, guarding and clearing of counters by compare-and-swap over a
   bounded store with an expiry index.
3. **Login challenges.** Reserve, verify and consume by any number of concurrent verifiers.
4. **Authority around tokens.** Scope claims (the grammar of section 3.3 of RFC 6749),
   hierarchical scope matching, session assurance, and delegation from a session between two reads.

## How it is built

An `.await` on a store is a step boundary. A call is the list of values it carries from one await
to the next (`Pc`), and one step of a call is the code between two awaits: at most one atomic store
step, taken on values that may be stale. A run (`IsRun`) interleaves the steps of any number of
calls with clock readings, administrator revocations, reclamation and cancelled calls. Clocks of
different instances need not agree: `Tick` sets the clock to any value, forwards or backwards;
where a theorem needs one shared clock that never goes back (`SharedClock`), it says so.

Time is in nanoseconds within the range of `OffsetDateTime`. Identities are numbers that are never
drawn twice; opaque tokens are represented by their hashes, and no two draws have the same hash.
Users, roles, host grants and signing are answers of the environment, which may differ at every step.

`RefreshService`, `RateLimitService` and `LoginChallengeService` hold the imperative code: the source's
methods and retry loops over the in-memory stores, with whatever other calls may do at each await. Their ghost state
follows each call as a run of the protocol, and their contracts say that the call ends in the
protocol position of the answer it returns. So the theorems about runs are theorems about this code
(`StoredFamiliesAreChains`, `ReplayLeavesNoLiveToken`, `StoredCountersAreExact`,
`VerdictsAreJustified` and `StoredBudgetsHold` say some of them of the stores and answers themselves).

| file | contents |
|---|---|
| `Common`, `Text`, `TextOrder`, `Segments`, `Dedupe` | time, strings, sorting, splitting and joining, stable de-duplication |
| `Assurance` | session assurance, and the recent-MFA policy |
| `RefreshRecords`, `RefreshMemoryStore` | records and the atomic store steps; the in-memory store |
| `RotationProtocol`, `RotationInvariants`, `RotationSteps`, `RotationTheorems`, `RotationAnswers` | the rotation state machine, what every step keeps, what follows, and what each answer tells |
| `RefreshService` | the rotation code over the in-memory store |
| `RateLimitPolicy`, `RateLimitMemoryStore` | policy, backoff and transition; the indexed store |
| `RateLimitProtocol`, `RateLimitInvariants`, `RateLimitTheorems` | the counter state machine, what every step keeps, and what follows |
| `RateLimitGuard`, `RateLimitRecording`, `RateLimitAnswers` | what verdicts, "recorded", "cleared" and giving up mean |
| `RateLimitKeys` | which counters a request is charged to |
| `RateLimitService` | the recording, guarding and clearing loops over the indexed store |
| `LoginChallengeStore`, `LoginChallengeProtocol`, `LoginChallengeTheorems`, `LoginChallengeAnswers`, `LoginChallengeService` | login challenges: store, state machine, what follows, what each answer tells, and the code with its abuse protection |
| `ScopeClaims`, `ScopeMatch` | scope claims and scope matching |
| `Delegation` | session-bound delegation |

## Properties that needed a condition

- **Hierarchical matching is not transitive in general.** With default options, "a.\*.c\*" covers
  "a.\*.cx", which covers "a.y.cx", but "a.\*.c\*" does not. `TransitiveExactly` proves that a grant
  is transitive for all other scopes if and only if it is not `IsAmbiguous`: it does not end in a
  wildcard after a prefix that itself ends in a wildcard or contains a whole wildcard segment.
  `AmbiguousScopesWiden` carries this over to delegation.
- **Recent-MFA evaluation and whole seconds.** Access tokens carry the authentication time in
  seconds. `MirroredSessionAcceptedExactly` proves that a session which satisfies the policy is
  accepted if and only if it authenticated on a whole second.
- **Identity of the rotated user.** `prepare_rotation` takes the id of the loaded user without
  comparing it with the record. `Config.honestUsers` is the assumption that the user store returns
  the user it was asked for. Where a theorem depends on it, it says so; without it, the exact extra
  reason for a refusal is part of `Excuse`.
- **Stamps of attempts are not monotone**, because a recorder reads the clock once before its retry
  loop. Nothing about their order is assumed; `AdmissionsAreSpaced` needs only `SharedClock`.

## Model

| member | source | states |
|---|---|---|
| RotationTheorems.FamilyIsOneChain | src/service.rs:574-769 | In every reachable state the tokens of a family form one `replaced_by` chain from the login token; only the last can be unrevoked, and a token revoked without a replacement means that none is |
| RotationTheorems.DeadFamiliesStayDead | src/stores.rs:117-146 | Once a family has no live token it never has one again, whatever calls with stale reads are in flight |
| RotationTheorems.SignOutIsFinal | src/service.rs:874-902 | A whole-family sign-out begun with a stored token: once it has answered, no token of that token's family is live, then or ever after, however many rotations were in flight |
| RotationAnswers.OneSignOutIsFinal | src/service.rs:874-902 | A sign-out of one token, begun with a stored token: once it has answered, that token is revoked, then and ever after, also where the grace makes it leave an already revoked token alone |
| RotationAnswers.RevocationsHaveCauses | src/service.rs:574-902 | A live token is revoked only by an administrator, by a sign-out with it or with a token of its family, by a refresh that presents it after its expiry, by a rotation that replaces it in time, or by a replay of a token of its family |
| RotationAnswers.AnswersAreDue | src/service.rs:574-871 | Every answer of every call is due: new tokens by a commit prepared for an enabled user under the current grant, "replay" by a token revoked while the call was in flight, and expiry, refusal and contention by the reasons below |
| RotationAnswers.RefusalsHaveReasons | src/service.rs:574-587 | A call is refused only if, in a step of its own, it found nothing stored under its hash, or the user missing or disabled, the grant gone, or the issuance impossible |
| RotationAnswers.ExpiryIsTrue | src/service.rs:604-615 | A token is reported expired only if this call found it unrevoked and had read a clock value at or past its expiry; it is revoked from then on |
| RotationAnswers.ReplayMeansRevoked | src/service.rs:588-661 | With or without a grace, a call condemns a family only if the token it presented was revoked at some moment while the call was in flight |
| RotationAnswers.ContentionMeansLostSwaps | src/service.rs:690-769 | A reuse runs out of retries only after it has lost every one of its compare-and-swaps, each on a newest token that others had meanwhile revoked |
| RotationAnswers.RotationsAreTimely | src/service.rs:604-661 | Neither the presented nor the replaced token of any rotation had expired, by a clock value that the committing call had read; the new token lives one TTL from that value |
| RotationTheorems.RevokedRecordsAreFrozen | src/stores.rs:124-140 | While a family lives, no step changes the revocation time or the replacement of a revoked token |
| RotationTheorems.ReusesShareOneWindow | src/service.rs:681-734 | Every accepted reuse of a token is measured against the one rotation that superseded it, and lies strictly inside the window, even when it was decided on a stale read |
| RotationTheorems.NewestIsReplaceableExactly | src/refresh_reuse_grace.rs:75-91 | The search for the newest token succeeds if and only if the family has an unexpired live token: the contract checks on it never fail for another reason |
| RotationTheorems.SearchSucceedsExactly | src/service.rs:692-707 | Over whole runs, for a store that can search and users loaded as asked: a reuse that looks for the newest token of its family finds a replaceable one if and only if the family then has an unexpired live token, and condemns the family otherwise |
| RotationTheorems.ReplayIsExcused | src/service.rs:588-661 | With the grace on and supported, a call answers "replay" only if, at a moment while it was in flight and for a clock value it read, the window of the token it presented had elapsed, that token had expired, or its family had no unexpired live token |
| RotationTheorems.ReplayKillsFamily | src/service.rs:588-602 | A call that answers "replay" leaves the family of the token it presented without a live token, in that state and every later one |
| RotationTheorems.GrantsNeverWiden | src/service.rs:776-827 | Roles, scopes and authorization roles of every record are contained in those of its family's login record |
| RotationTheorems.EachRotationNarrows | src/service.rs:803-827 | Each new record's grants are contained in the replaced record's and the presented record's, and its roles and scopes in the current grant of an enabled user that the committing call had read when it prepared |
| RotationTheorems.AssuranceHasAnOrigin | src/service.rs:829-860 | Each record's assurance is its login's or one supplied by a step-up in its family; a reuse carries the presented token's, not the newest's |
| RotationTheorems.IssuedClaimsSatisfyPolicy | src/assurance.rs:564-645 | For every payload ever issued, the token's assurance claims never disagree with its session: the recent-MFA policy decides by MFA, allowlists and age alone, for whole-second times |
| RotationTheorems.WithoutGraceTokensRotateOnce | src/service.rs:627-661 | With the grace off, a stored token is the source of at most one rotation in a run |
| RotationTheorems.WithoutGraceOneCallSucceeds | src/service.rs:574-670 | With the grace off, at most one of all the calls that present a token succeeds |
| RotationTheorems.SuccessIsCommitted | src/service.rs:617-670 | Every successful answer is one commit in the history, made for the token the call presented |
| RotationTheorems.SuccessesDiffer | src/service.rs:681-769 | No two calls are answered with the same new token |
| RotationSteps.StepKeepsInv | src/service.rs:574-902 | Every step of any call, host or administrator keeps chains, identities, history and in-flight readings consistent, and only ever evolves the store |
| RefreshRecords.PreparedContinues | src/service.rs:776-871 | A prepared rotation continues the source's session under the drawn identity, within the source, the replaced record and current authority, with claims that mirror the session |
| RefreshRecords.RotationIsExact | src/stores.rs:92-109 | The swap succeeds if and only if the current token is stored and unrevoked; it then changes of it only last use, client, revocation and replacement, adds the replacement under its hash, and leaves every other token alone |
| RefreshRecords.RevocationIsExact | src/stores.rs:131-134 | Revoking one token changes a live one only, of it only revocation and replacement, and nothing else |
| RefreshRecords.FamilyRevocationIsExact | src/stores.rs:131-140 | Revoking a family sets the revocation time of its tokens, but for revoked ones that the store leaves alone, and changes nothing else |
| RefreshRecords.RotatesExactly | src/service.rs:776-871 | A rotation is prepared if and only if the user was found and is not disabled, the grant source is the stored user or a host that answers, the provider did not fail, signing worked and the expiry is representable; its authority is that user's or the host's, and each failure has its own reason |
| RefreshRecords.IssuesExactly | src/service.rs:1612-1700 | Tokens are issued if and only if provider, signing and clock serve; the record mirrors the user, and keeps of the provider's roles exactly those under the ceiling |
| RefreshRecords.PreparedKeepsExactly | src/service.rs:796-827 | A rotation keeps exactly the roles and scopes that source, newest and current authority all hold, once each; and of the authorization roles the provider answers, exactly those that source and newest hold |
| RefreshMemoryStore.MemoryRefreshTokenStore.RotateRefreshToken | src/tests.rs:181-208 | The in-place rotation succeeds exactly when the token is stored and unrevoked, and then is the atomic step of the protocol |
| RefreshMemoryStore.MemoryRefreshTokenStore.RevokeRefreshToken | src/tests.rs:131-145 | Revoking one token leaves an already revoked one untouched |
| RefreshMemoryStore.MemoryRefreshTokenStore.RevokeRefreshTokenFamily | src/tests.rs:147-164 | The loop over the stored values is the atomic family revocation |
| RefreshMemoryStore.MemoryRefreshTokenStore.FindRefreshTokenByHash | src/tests.rs:124-129 | Lookup by hash finds a record if and only if one is stored under it, revoked or not |
| RefreshMemoryStore.CollectLive | src/tests.rs:210-226 | The filter returns each unrevoked token of the family once, and nothing else |
| RefreshService.SessionService.RotateSession | src/service.rs:574-670 | The call it begins ends, in a run of the protocol, with the answer it returns, and that answer is due; an issued payload is the newest commit and the stored record |
| RefreshService.SessionService.ReissueWithinReuseGrace | src/service.rs:681-769 | The retry loop follows the protocol: reissued, refused, out of retries, or replay at the clock value that decided it |
| RefreshService.SessionService.PrepareFor | src/service.rs:776-871 | Preparation succeeds if and only if the answers of its own step allow the rotation, and then yields the protocol's prepared rotation; otherwise the call is refused |
| RefreshService.SessionService.Commit | src/service.rs:627-661 | The compare-and-swap either issues the payload or takes the branch for a lost race |
| RefreshService.SessionService.Refresh | src/service.rs:541-547 | The answer is that of a call begun here as a rotation of the presented hash without a step-up; it is one of the answers a rotation can have, it is due, and an issued payload has just been stored |
| RefreshService.SessionService.StepUpSession | src/service.rs:555-572 | The answer is that of a call begun here as a rotation that carries the assurance built from the evidence; it is one a rotation can have and is due; evidence that cannot be built changes nothing |
| RefreshService.SessionService.Logout | src/service.rs:874-902 | Sign-out leaves the presented token revoked in the store, and for the whole family no unrevoked token of its family; it follows the protocol, which leaves a superseded token alone while the grace is on |
| RefreshService.SessionService.IssueSession | src/service.rs:1173-1223 | A new session is stored under a family never used, with exactly the roles and scopes given, each once, the given metadata, client and grant source, a lifetime of one TTL, and the compatibility view derived from its assurance; invalid assurance is rejected exactly, and a failure stores nothing |
| RefreshService.StoredFamiliesAreChains | src/tests.rs:92-226 | In the store the code works on, every family is one chain from its login |
| RefreshService.ReplayLeavesNoLiveToken | src/service.rs:595-602 | After "replay" the store holds no unrevoked token of the family of the token that was presented |
| RateLimitPolicy.BackoffDuration | src/service.rs:2184-2206 | Despite early exits, checked multiplication and a saturating 32-bit factor, the loop computes min(base * 2^min(attempts - threshold, 30), max) |
| RateLimitPolicy.BackoffDoubles | src/service.rs:2184-2206 | Backoff is the base up to the threshold, then twice the previous one per attempt, at most the maximum, for thirty doublings |
| RateLimitPolicy.BackoffIsMonotone | src/service.rs:2184-2206 | Backoff never decreases with attempts and stays between base and maximum |
| RateLimitPolicy.NextStateHolds | src/service.rs:2101-2172 | Inside its window and before its expiry a state counts one attempt more and keeps its start; otherwise it starts again at one. It locks or backs off exactly by the thresholds and for exactly the delay of its count, and expires at the latest of its TTL, window, backoff and lockout |
| RateLimitPolicy.NextStateFailsExactly | src/service.rs:2101-2182 | The transition fails if and only if the end of its delay, of its TTL or of its window is not representable |
| RateLimitPolicy.ActiveExactlyBeforeHeldUntil | src/service.rs:2057-2072 | A state refuses attempts exactly until its backoff or lockout ends; its expiry never cuts either short |
| RateLimitPolicy.ActiveMeans | src/service.rs:2041-2072 | Any state refuses if and only if a lockout or backoff of its own ends after now, and the state has not expired |
| RateLimitMemoryStore.IndexIsDetermined | src/memory_rate_limit.rs:50-55 | Agreement with the map leaves the expiry index no freedom |
| RateLimitMemoryStore.MemoryState.PurgeExpired | src/memory_rate_limit.rs:57-70 | Popping expiry buckets removes exactly the entries with expiry at or before now, and counts them |
| RateLimitMemoryStore.MemoryState.Remove | src/memory_rate_limit.rs:72-82 | Removal keeps index and map in agreement and drops one key |
| RateLimitMemoryStore.MemoryState.Insert | src/memory_rate_limit.rs:84-91 | Insertion keeps them in agreement and stores one entry |
| RateLimitMemoryStore.MemoryAuthRateLimitStore.Find | src/memory_rate_limit.rs:141-151 | Finding is a lookup after the filter |
| RateLimitMemoryStore.MemoryAuthRateLimitStore.CompareExchange | src/memory_rate_limit.rs:153-183 | The indexed store is a plain map with a filter: it commits exactly on the expected revision, its own key, an unexpired replacement and room; each refusal has exactly its reason; size never exceeds capacity |
| RateLimitMemoryStore.MemoryAuthRateLimitStore.Clear | src/memory_rate_limit.rs:185-202 | A clear removes exactly the observed version and no other unexpired entry |
| RateLimitTheorems.NoIncrementIsLost | src/service.rs:1980-2020 | Every stored counter is the transition folded over all attempts committed since its entry came into being, and counts exactly those from the start of the current window on, which the stamps of the attempts alone determine |
| RateLimitTheorems.WindowStartHolds | src/service.rs:2107-2126 | Every later attempt of a window is stamped before its end, and each further window starts at or past the end of the one before |
| RateLimitTheorems.RetryMeansInterference | src/service.rs:1988-2015 | A compare-and-swap fails only if another commit, clear or reclamation of that key happened after the step in which this very try read the entry |
| RateLimitTheorems.ClearSparesLaterFailures | src/service.rs:2022-2039 | A clear erases an entry only if every attempt in it was committed before the guard read it, even after clearing, expiry and re-creation |
| RateLimitTheorems.LoginClearsOnlyWhatItSaw | src/service.rs:1874-1929 | Over whole runs, a successful login clears an entry only if every attempt in it was committed before the step in which its guard read that very key |
| RateLimitTheorems.AdmissionsAreSpaced | src/service.rs:1958-1978 | Under one shared clock, after an admission stamped t that left count k, no later admission of the key commits before t plus the backoff or lockout of k |
| RateLimitTheorems.FlowsHavePolicies | src/config.rs:238-243 | Failures of codes and passwords count under the credential policy and are never held off while they are recorded; requests for a mail count under the request policy and are |
| RateLimitTheorems.ReclaimedIsOver | src/service.rs:2150-2161 | Reclamation never drops a backoff or lockout that is still running |
| RateLimitGuard.VerdictIsJustified | src/service.rs:1874-1929 | Each verdict rests on the guard's own reading of every key, one step for each: a permit lists the versions read, and each key held nothing off as it was read; a refusal names the latest lockout, or failing any the latest backoff, among what was read, for the one clock value |
| RateLimitGuard.DenialIsJustified | src/service.rs:1993-1999 | A request is denied only if in one of its steps it read one of its keys as locked or backing off |
| RateLimitTheorems.PurgeIsReclaim | src/memory_rate_limit.rs:57-70 | The memory store's filter is a reclamation step of the protocol |
| RateLimitInvariants.StepKeepsInv | src/stores.rs:157-194 | Every step keeps counters, revisions, observations and in-flight calls consistent with the history |
| RateLimitService.RateLimiter.RecordAttemptForKey | src/service.rs:1980-2020 | The retry loop over the memory store follows the protocol, and adds exactly one commit of this call, on this key and with this stamp, to the history; when it denies, fails or runs out of retries it adds none, and it aborts only where the store refuses the transition |
| RateLimitRecording.RecordedIsCommitted | src/service.rs:1931-2020 | A call that answers "recorded" has committed exactly one attempt on each of the keys it began with, in their order, all stamped with the one instant it began at |
| RateLimitRecording.HistoryAccounts | src/service.rs:1931-2020 | At every moment of a run the history accounts for each call: none committed before it records, and then one on each key it has passed, also when it stops at a denied key |
| RateLimitRecording.CommitsAreOwn | src/service.rs:1980-2020 | The positions counted for a call rise and are exactly those of its own commits |
| RateLimitService.RateLimiter.Record | src/service.rs:1931-1978 | All keys are stamped with one clock reading, the call ends with the answer it returns, and exactly the keys it passed are recorded, each by one commit of its own: all of them when it answers "recorded"; it aborts only at a key whose attempt the store refuses |
| RateLimitService.RateLimiter.RejectIfRateLimited | src/service.rs:1874-1929 | The guard's verdict is the protocol's: the latest lockout, else the latest backoff, else a permit of the versions it saw |
| RateLimitService.RateLimiter.ClearAttempts | src/service.rs:2022-2039 | The clears follow the protocol for exactly the versions in the permit: every observation of this call's permit has its turn, and an entry still at the version observed is removed |
| RateLimitService.StoredCountersAreExact | src/memory_rate_limit.rs:153-183 | In the store the loops work on, every counter accounts for every attempt since its entry was created |
| RateLimitService.VerdictsAreJustified | src/service.rs:1874-1929 | Every verdict the imperative guard has given is justified in this sense |
| RateLimitService.AnswersAreDue | src/service.rs:1931-2039 | Every answer the imperative loops have given is due: "recorded" by own commits, "denied" by a key read as active, "cleared" by a turn for every observation, giving up by lost swaps or an instant out of range |
| RateLimitAnswers.ClearedCallsCleared | src/service.rs:2022-2039 | A call that answers "cleared" has turned, in a step of its own each, to every observation of its permit: an entry still at the version observed was removed then, and nothing else was |
| RateLimitAnswers.GivingUpIsDue | src/service.rs:1980-2020 | A recording answers that it ran out of retries only after losing all of them on one key, each to a changed version, and fails only on a key whose next state is out of range |
| LoginChallengeTheorems.BudgetIsKept | src/stores.rs:230-246 | Password comparisons never exceed admissions, which are counted exactly and never exceed `max_attempts` |
| LoginChallengeTheorems.NothingIsRefunded | src/stores.rs:240-246 | Over any part of a run, attempts never go back, definitions never change, and consumption stays as it was |
| LoginChallengeTheorems.VerifiedOnceInTime | src/service/challenge.rs:158-182 | At most one call ever reports a challenge verified, only after it was consumed, and with a time before its expiry |
| LoginChallengeTheorems.VerifiedCallsWentThrough | src/service/challenge.rs:116-182 | A call reports "verified" only after it was admitted, then compared a matching code, then consumed the challenge itself |
| LoginChallengeTheorems.ConsistencyCheckNeverRejects | src/service/challenge.rs:116-125 | The service's check of the reserved record never rejects a conforming store |
| LoginChallengeTheorems.RefusalsAreTrue | src/service/challenge.rs:103-181 | A call reports a challenge as missing, replayed, exhausted or expired only if it was, at a moment while that call was in flight, and for expiry by a clock value shown in flight |
| LoginChallengeAnswers.AnswersFollowComparison | src/service/challenge.rs:130-182 | Answers follow the comparison: "invalid" or, after an admission, "exhausted" only if this call's own code was compared once and did not match, "invalid" exactly with attempts left and "exhausted" with none; a call whose code matched ends verified, expired, given up, or replayed because another call consumed the challenge; one that consumed it is never told "replayed"; every other refusal comes before any admission |
| LoginChallengeAnswers.ComparisonsAreThePools | src/service/challenge.rs:131-138 | What the history says of a comparison is what the password pool reported in a step of that call, before the challenge expired |
| LoginChallengeAnswers.UnavailableMeansNoWork | src/service/challenge.rs:116-149 | "Unavailable" is answered only if the pool did not run for this call |
| LoginChallengeTheorems.ConfirmedExactly | src/service/challenge.rs:119-130 | Whatever a store returns for an admission, the call goes on if and only if it is the challenge found, unconsumed, charged within the budget, and still in time |
| LoginChallengeTheorems.StepKeepsInv | src/service/challenge.rs:75-182 | Every step of any verifier keeps budget, single consumption and in-flight readings consistent |
| LoginChallengeService.ChallengeService.VerifyLoginChallengeWithMetadata | src/service/challenge.rs:75-182 | A call begun here ends in a run of the challenge protocol with the answer decided, which tells the truth about its own comparison and the attempts left, and its own limiter calls have done their part: guards begun since have permitted the client, and then the stored challenge's principal; a comparison that failed was recorded by a call begun since, once on each of exactly those keys; a verified call had its own permit resolved and cleared; a call that gives up was turned away by one of these guards, or failed and met a reason why its failure could not be recorded |
| LoginChallengeService.ChallengeService.VerifyLoginChallenge | src/service/challenge.rs:55-72 | The same, in full, without client metadata |
| LoginChallengeService.ChallengeService.ConsumeAndFinish | src/service/challenge.rs:158-182 | After a matching code the call is answered as the protocol has it: a lost consumption is recorded on the call's keys before it is told, and "verified" follows the clearing of what this call's own guard had permitted |
| LoginChallengeService.ChallengeService.PassGuard | src/service/challenge.rs:85-101 | A call goes on only if a guard begun here permitted every key, and is given up only if that guard answered with a lockout or backoff |
| LoginChallengeService.ChallengeService.RecordFailure | src/service/challenge.rs:143-156 | A failure is told only after a call begun here recorded it on exactly the keys; if it could not be recorded, the limiter's reason is told instead |
| LoginChallengeService.ChallengeService.CompareCode | src/service/challenge.rs:131-156 | A matching code leads to consumption at the second look at the clock; any other end is the answer that the comparison, the attempts left and the clock decide |
| RateLimitKeys.KeysAreOfOneFlow | src/service.rs:1850-1872 | Every key of a request is of the given flow, and none is charged twice |
| RateLimitKeys.SpellingSharesCounter | src/service.rs:2074-2077 | Putting white space around a principal, or changing the case of its letters, leaves every counter it is charged to the same |
| RateLimitKeys.PrincipalsShareExactly | src/service.rs:1850-1872 | Two requests share a principal's counter if and only if they are of one flow and their principals, trimmed, are visible and differ in nothing but case |
| RateLimitKeys.ClientsShareExactly | src/service.rs:2079-2082 | Two requests share a client's counter if and only if they are of one flow and their addresses, trimmed, are visible and equal |
| Text.CasesOfOneLetter | src/service.rs:2074-2077 | Two different characters become the same one if and only if they are the two cases of one ASCII letter |
| Text.TrimIsExact | src/service.rs:2074-2082 | Trimming takes away all the white space around a value and nothing else |
| LoginChallengeService.ChallengeService.CreateLoginChallenge | src/service/challenge.rs:20-52 | Nothing is stored, and none returned, exactly when an option is invalid or the expiry is not representable; otherwise an unused identity is stored with an unspent budget, created now and expiring at now plus the TTL |
| LoginChallengeService.StoredBudgetsHold | src/tests.rs:394-414 | In the store the methods work on, no challenge is charged beyond its budget or compared more often than charged |
| LoginChallengeStore.MemoryLoginChallengeStore.ReserveLoginChallengeAttempt | src/tests.rs:394-414 | The in-place reservation refuses for exactly the contract's reasons, in their order, and otherwise charges one attempt within the budget |
| LoginChallengeStore.MemoryLoginChallengeStore.ConsumeLoginChallenge | src/tests.rs:416-430 | Consumption happens exactly for an existing, unconsumed, unexpired challenge with an admitted attempt |
| LoginChallengeStore.MemoryLoginChallengeStore.InsertLoginChallenge | src/tests.rs:375-385 | Insertion rejects an identity that exists |
| Dedupe.DedupedIsFirstOccurrences | src/token_decode.rs:386-394 | De-duplication keeps the same values, each once, ordered by first occurrence |
| Dedupe.DedupedIsIdentityOnDistinct | src/token_decode.rs:386-394 | A list without repetitions is left as it is |
| Dedupe.DedupeByScan | src/token_decode.rs:386-394 | The scan of the output computes the stable de-duplication |
| Dedupe.DedupeBySet | src/service.rs:2374-2383 | The set-backed loop computes the same function as the scan |
| TextOrder.CanonicalIsSetIdentity | src/token_decode.rs:379-384 | Sorting and dropping repeats makes two lists equal if and only if they hold the same values |
| ScopeClaims.IssuedClaimsRoundTrip | src/token_decode.rs:313-377 | Every scope list the issuer accepts is read back, in either format, as its stable de-duplication |
| ScopeClaims.StandardClaimsAreExactlyIssued | src/token_decode.rs:361-370 | The parser accepts a scope string if and only if the issuer can produce it |
| ScopeClaims.TwoClaimsMustAgree | src/token_decode.rs:332-359 | A token with two well-formed claims is accepted if and only if they denote the same set, and then means the standard list |
| ScopeClaims.ParsedExactly | src/token_decode.rs:332-359 | Any two claims: each that is present must be well-formed, the array form, alone or not, must be allowed, and both must denote the same set; the standard one gives the order |
| ScopeClaims.IssuableExactly | src/token_decode.rs:313-330 | A list is encoded if and only if it has at most 256 scopes of 1 to 512 bytes, printable without space, quote or backslash, that take at most 16 KiB when joined |
| ScopeClaims.ParsedScopesCanBeReissued | src/token_decode.rs:332-377 | What a token says is duplicate-free and can be issued and read again unchanged |
| Segments.PartsOfJoined | src/token_decode.rs:325-368 | Splitting undoes joining for parts without the separator |
| Segments.JoinedOfParts | src/token_decode.rs:361-368 | Joining undoes splitting, always |
| ScopeMatch.TransitiveExactly | src/scope_match.rs:308-347 | Under default options, covering is transitive from a grant if and only if the grant is not ambiguous |
| ScopeMatch.FinalWildcardsAreTransitive | src/scope_match.rs:308-347 | A grant with no wildcard but a final one covers whatever the scopes it covers do |
| ScopeMatch.CoversMeans | src/scope_match.rs:308-347 | The cases of the matcher reduce to three: equality, a trailing prefix, or segments of equal count |
| ScopeMatch.HierarchyMeans | src/scope_match.rs:308-347 | For any options: an equal scope, everything, whatever extends a prefix by any or by one segment, or as many segments, each equal or a wildcard |
| ScopeMatch.SatisfiedExactly | src/scope_match.rs:256-306 | A requirement is satisfied by itself; a protected one otherwise only by a super-scope where those are allowed; any other by a super-scope or by one above it in the hierarchy |
| ScopeMatch.ExactOnlySubtreesAreSealed | src/scope_match.rs:270-299 | Below an unambiguous exact-only pattern no wildcard grant satisfies anything, at any depth |
| Assurance.NormalizeMethods | src/assurance.rs:203-225 | The loop with its seen-set computes the normalized list, or the error of the first offending entry |
| Assurance.NormalizedShape | src/assurance.rs:203-225 | An accepted list comes out distinct, normal and within bounds |
| Assurance.ConstructedExactly | src/assurance.rs:153-250 | Evidence is accepted if and only if it has at most sixteen methods of at most 64 bytes and visible, short context; each method is kept once, normalized, and nothing else is changed |
| Assurance.SpellingsOfOneMethod | src/assurance.rs:203-225 | Two spellings are one method if and only if they differ in case and surrounding white space only |
| Assurance.ValidateAcceptsExactlyConstructed | src/assurance.rs:153-188 | Validation accepts exactly the assurances that construction can produce |
| Assurance.MirroredTimeRoundTrips | src/assurance.rs:617-638 | A claim in seconds restores the session's instant if and only if that is a whole second |
| Assurance.MirroredSessionAcceptedExactly | src/assurance.rs:564-645 | For claims that mirror an aligned session, acceptance is exactly MFA, allowlists and a recent whole-second time |
| Assurance.AcceptedExactly | src/assurance.rs:564-645 | For any token claims: accepted if and only if the session's assurance is valid, satisfies MFA and the allowlists, all or any, is recent, and the claims state its methods, class and time exactly; it then holds for the maximum age |
| Delegation.IssuedExactly | src/service.rs:1406-1496 | Whatever happened to the session in between, a token is issued if and only if the second read shows the stamped session and version, live, with every requested role, every scope covered, and whatever actor, key, resource type and resource id it is bound to equal to those requested, TTL and confirmation are valid, and time is left |
| Delegation.GrantIsBounded | src/service.rs:1430-1496 | The token carries the session's identity, version and assurance, the requested grants only, and the requested actor, key, resource, correlation and operation, which equal the session's own wherever it is bound; it ends at the earliest of the requested TTL, the ceiling, and the idle and absolute expiry |
| Delegation.PrepareStamps | src/service.rs:1330-1384 | Preparation succeeds only on a live session, and stamps its version and identity |
| Delegation.PreparedExactly | src/service.rs:1330-1384 | Preparation succeeds if and only if the source is a user's own session, neither delegated nor sessionless, the read shows that session live at its version, the binding is well-formed, and the session holds every role, scope and binding asked for |
| Delegation.FaultlessExactly | src/service.rs:2273-2321 | A request is accepted if and only if its TTL lies within the maximum, its confirmation names a key, it refers to a user's own session, and every part of its binding is visible text of at most 1024 bytes |
| Delegation.ResolvesExactlySameSession | src/principal_reference.rs:362-410 | A stamped reference resolves if and only if the record still is that session at that version, unrevoked and unexpired |
| Delegation.UserRefersExactly | src/principal_reference.rs:86-130 | The reference of a user refers to another user if and only if that one is in the same session and tenant and neither sessionless nor delegated, at the version referred to if any, with the same resource, actor and operation; a delegated token's reference needs exactly its version instead |
| Delegation.TokenRefersExactly | src/principal_reference.rs:131-147 | The reference of an API token refers to exactly the tokens of the same kind, subject, identity, audience and resource; users and API tokens are never taken for each other |
| Delegation.TokenFollowsSession | src/principal_reference.rs:90-103 | The reference of an issued delegated token refers to just the session it was issued from, at the version of issuance |
| Delegation.DelegationsCannotDelegate | src/service.rs:1337-1357 | A delegated token is refused as a source of another delegation, whatever it is presented with, and no reference refers to it |
| Delegation.DelegationNeverWidens | src/service.rs:1518-1525 | When no held scope is ambiguous, whatever the delegated scopes cover, the session's scopes cover |
| Delegation.AmbiguousScopesWiden | src/scope_match.rs:308-347 | A session holding a single scope cannot delegate access it lacks if and only if that scope is not ambiguous |

## Left out

- JWT signing and decoding, Argon2, SHA-256, HMAC, random generation: answers of the environment, or identities and hashes that never repeat.
- Stores that break the contracts of `stores.rs`, for example a family revocation that misses a replacement committed while it runs; store errors end a call without effect.
- `touch_refresh_token`, revocation reasons, and the observer that is told about accepted reuses: they influence no decision.
- RateLimitService.RateLimiter.Record: a failure recorded after a permit is a new call on the same keys, as in the source; the protocol also has this as a step of the guarding call.
- Rate-limit policies that are switched off: guarding and recording then do nothing; the policies modelled are switched on.
- `retry_after_seconds`: lockouts and backoffs are reported as the instant at which they end, not as rounded seconds.
- The deadline of the password pool: a comparison runs, does not run, or finds the challenge expired, as one step.
- Custom claims of delegated tokens and the fixed-audience variant, which adds one more user check.
- ScopeMatch.TransitiveExactly: the default separator, wildcard and multi-segment option; other options are modelled but not classified.
- OIDC and OAuth exchanges, client authentication, GraphQL plumbing, guards, keys, TOTP, API tokens and purpose tokens: request plumbing, or the same consume-once and comparison ideas with less structure.
- `ReauthorizationPolicy::next_deadline`: floating point inside one short function.
