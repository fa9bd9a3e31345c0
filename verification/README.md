# Verification of the session, limiter, load-test and configuration logic

A Dafny model of the parts of the service where a mistake is hardest to see, and
proofs about them. `dafny verify dfyconfig.toml` checks everything.

* **Refresh-token sessions.** `AuthApplicationService` and
  `AuthSessionRepository` are modelled twice. `AuthProtocol` is a labelled
  transition system: every `await` on the database is one atomic step, any number
  of requests interleave, and a request may die at any point. `AuthInvariants`
  has the inductive invariant; `AuthTheorems`, `AuthRuns`, `AuthLineage`,
  `AuthFates` and `AuthClosedFamilies` say what it means for all reachable states
  and all runs (refresh-token rotation with reuse detection, section 4.14.2 of
  RFC 9700).
  `AuthSessionRepository` and `AuthApplicationService` are the same code as
  objects, with loops over rows and early exits; each method is proved equal to
  `AuthSequential.Exec`, and each such call is proved to be a schedule of the
  protocol, so the theorems about runs also hold of the objects. `AuthContracts`
  writes out what every call answers and changes, in columns, claims and numbers.
* **Login limiter.** The same transition system: counting, checking the password
  and recording are separate steps, so the bound mentions the logins in flight,
  and is shown to be reached.
* **Purge.** A simulation between the purged and the unpurged tables.
* **Load tester.** Algorithm R on shared state with its exact counting theorems,
  the in-place sort, and the nearest-rank percentile.
* **Configuration.** The `.env` parser, the paging loop, the layered merge, and
  the environment schema with its write-back into the process environment, and
  in `EnvironmentContracts` what each variable accepts.
* **Refresh cookie** (section 4.2.1 of RFC 6265, section 2.1 of RFC 3986) and the
  **message worker**, an object whose methods are runs of an at-least-once queue.

## What the proofs found

* Five failed logins per email and twenty per address are limits for one login
  at a time. With at most k in flight the true limits are 4 + k and 19 + k, and
  for every key and every k > 0 some run reaches them
  (`AuthLimiter.LimiterBound`, `AuthLimiterLimits.LimiterBoundIsReached`).
* `schema.ts:15-17` says a rotated row points at its successor through
  `replaced_by_jti`. No caller passes it: in every reachable state the column is
  null (`AuthTheorems.TokenAndTableAgree`). Lineage is ghost state here.
* The `user_inactive` reason never reaches the table: the row of a refresh that
  reaches that branch is already revoked as rotated
  (`AuthTheorems.RevokeFamilyTouchesAtMostOne`). The family still ends for good.
* A detected reuse does not always end the family: a rotation that had already won
  its revoke, and not yet stored its successor, can store it afterwards
  (`AuthFates.ReuseCanMissTheSuccessor`). The family ends for good exactly when no
  such rotation is in flight at that step, other than one that has already met an
  inactive user (`AuthFates.ReuseEndsTheFamilyExactlyWhen`); and whatever is active
  later descends from the token that rotation had spent
  (`AuthLineage.ReuseKillsAllButTheRotationInFlight`). `logoutAll` has the same gap
  (`AuthFates.LogoutAllEndsAFamilyExactlyWhen`,
  `AuthLineage.LogoutAllKillsAllButTheClaimsInFlight`).
* `expires_in` is the constant 900 and is right only when the configured lifetime
  is the default (`AuthTokens.ExpiresInIsTrueOnlyAtTheDefault`).
* A refresh lifetime that is not positive consumes the presented token and then
  fails, because reading the new token's expiry back verifies it
  (`AuthClosedFamilies.RefreshSucceedsExactlyWhen`).
* A purge is invisible if and only if its bound is no later than the start of the
  15-minute window (`AuthPurge.PurgeIsInvisibleExactlyWhen`); any later bound lets
  some locked-out email in again (`AuthPurge.LatePurgeIsSeen`). Even an invisible
  purge changes one number: `logoutAll` counts expired rows that were never
  revoked, and after a purge it reports fewer by exactly those.
* The reported error rate can exceed 1: a failed status whose body then cannot be
  read is counted twice (`LoadTest.ErrorRateCanExceedOne`). It is at most 1 exactly
  when no more requests failed twice than went well
  (`LoadTest.RateIsAProportionExactlyWhen`).
* The environment survives its write-back exactly when the files the framework
  reads below the process environment say nothing more. In the local stage they
  do not, if they read as the loader's own `.env`. In the other stages the loader
  ignores `.env` while the framework still reads it unless the stage or
  `NODE_ENV` is production, so a variable set only there appears on the second
  parse (`EnvironmentSchema.WriteBackRoundTrip`,
  `EnvironmentSchema.SecondReaderSeesTheSame`,
  `EnvironmentExamples.SecondParseCanDiffer`).

## Model

| member | source | states |
|---|---|---|
| AuthSessionRepository.Repository.Store | src/auth/infrastructure/persistence/drizzle/auth-session.repository.ts:22-24 | inserts one row; fails, changing nothing, exactly when the jti is already stored (unique index) |
| AuthSessionRepository.Repository.FindByJti | src/auth/infrastructure/persistence/drizzle/auth-session.repository.ts:26-42 | the stored row with that jti, or none |
| AuthSessionRepository.Repository.UpdateActive | src/auth/infrastructure/persistence/drizzle/auth-session.repository.ts:55-85 | the conditional update as a loop: rows selected and still unrevoked are revoked, all others untouched, and the count is the number of rows hit |
| AuthSessionRepository.Repository.RevokeByJti | src/auth/infrastructure/persistence/drizzle/auth-session.repository.ts:50-66 | true exactly when the row existed and was unrevoked; that row then carries the time, the reason and the successor given, and no other row changes |
| AuthSessionRepository.Repository.RevokeFamily | src/auth/infrastructure/persistence/drizzle/auth-session.repository.ts:68-76 | every unrevoked row of the family, and no other, carries the time and the reason; returns how many |
| AuthSessionRepository.Repository.RevokeAllForUser | src/auth/infrastructure/persistence/drizzle/auth-session.repository.ts:78-86 | every unrevoked row of the user, and no other, carries the time and the reason; returns how many |
| AuthSessionRepository.Repository.RecordLoginAttempt | src/auth/infrastructure/persistence/drizzle/auth-session.repository.ts:88-90 | appends one failed attempt at the current time |
| AuthSessionRepository.Repository.CountLoginAttempts | src/auth/infrastructure/persistence/drizzle/auth-session.repository.ts:92-118 | the number of attempts of the email, and of a given address, at or after the start |
| AuthSessionRepository.Repository.ClearLoginAttempts | src/auth/infrastructure/persistence/drizzle/auth-session.repository.ts:120-122 | deletes exactly the email's attempts, keeping the order of the rest |
| AuthSessionRepository.Repository.PurgeExpired | src/auth/infrastructure/persistence/drizzle/auth-session.repository.ts:124-136 | deletes sessions and attempts older than the bound and returns the number of rows that went |
| SessionTable.CountMonotone | src/auth/infrastructure/persistence/drizzle/auth-session.repository.ts:92-118 | a later window start never counts more |
| SessionTable.ClearCounts | src/auth/infrastructure/persistence/drizzle/auth-session.repository.ts:120-122 | clearing empties the email's own count and raises no other |
| SessionTable.PurgeCounts | src/auth/infrastructure/persistence/drizzle/auth-session.repository.ts:130-133 | after a purge every count is the count from the later of bound and window start |
| SessionTable.ClearPurgeCommute | src/auth/infrastructure/persistence/drizzle/auth-session.repository.ts:120-136 | clearing and purging attempts commute |
| SessionTable.ClearedAttempts | src/auth/infrastructure/persistence/drizzle/auth-session.repository.ts:120-122 | clearing leaves every attempt of other emails, as often and in the order they were, and none of the email |
| SessionTable.PurgedAttempts | src/auth/infrastructure/persistence/drizzle/auth-session.repository.ts:130-133 | purging leaves every attempt at or after the bound, as often and in order, and none before it |
| SessionTable.FamilyUpdate | src/auth/infrastructure/persistence/drizzle/auth-session.repository.ts:68-76 | row by row: which rows a family revoke changes, to what, and which it returns |
| SessionTable.UserUpdate | src/auth/infrastructure/persistence/drizzle/auth-session.repository.ts:78-86 | the same for a revoke of all rows of a user |
| SessionTable.JtiUpdate | src/auth/infrastructure/persistence/drizzle/auth-session.repository.ts:50-66 | the same for a revoke of one row |
| AuthTokens.SignedPairAgreesWithItsRow | src/auth/application/security/auth-token.service.ts:53-82 | the stored row has the refresh token's jti, family, user and expiry; a rotation keeps the family; the refresh token verifies as refresh and the access token does not |
| AuthTokens.SignedPairWrittenOut | src/auth/application/security/auth-token.service.ts:53-82 | every claim of both tokens, the expiry returned, the constant 900, and the row stored, from the user, the drawn identifiers, the clock and the configured lifetimes |
| AuthTokens.SignedPairLives | src/auth/application/security/auth-token.service.ts:84-105 | a signed token verifies, as its own type only, at exactly the times before its issue second plus its configured lifetime |
| AuthTokens.ExpiresInIsTrueOnlyAtTheDefault | src/auth/application/security/auth-token.service.ts:72-81 | the constant `expires_in` equals the token's lifetime exactly when that is 900 seconds |
| AuthTokens.ExpiredRowMeansDeadToken | src/auth/application/security/auth-token.service.ts:84-127 | a row old enough to purge belongs to a token that no longer verifies |
| AuthInvariants.StepKeepsInv | src/auth/application/service/auth.application-service.ts:97-312 | every step of every request, and every crash and purge, keeps the protocol invariant |
| AuthInvariants.SpentIsExclusive | src/auth/application/service/auth.application-service.ts:190-219 | no two rotations in flight spent the same token |
| AuthInvariants.InactiveRevokesNothing | src/auth/application/service/auth.application-service.ts:214-217 | the family revoke of the inactive-user branch hits no row |
| AuthTheorems.OneClaimPerFamily | src/auth/application/service/auth.application-service.ts:178-220 | in every reachable state a family has at most one unrevoked row or unfinished claim, together |
| AuthTheorems.RevokeFamilyTouchesAtMostOne | src/auth/infrastructure/persistence/drizzle/auth-session.repository.ts:68-76 | revokeFamily returns at most 1, and 0 for an inactive user; no row carries `user_inactive` |
| AuthTheorems.LogoutAllCountsFamilies | src/auth/application/service/auth.application-service.ts:236-245 | logoutAll returns the number of the user's families with an unrevoked row |
| AuthTheorems.TokenAndTableAgree | src/auth/application/service/auth.application-service.ts:286-301 | every refresh token whose row is stored agrees with it, a family has one user, `replaced_by_jti` is null in every stored row |
| AuthTheorems.InsertNeverClashes | src/auth/infrastructure/persistence/drizzle/schema.ts:48 | the unique index on jti is never violated |
| AuthTheorems.EveryWinIsAccountedFor | src/auth/infrastructure/persistence/drizzle/auth-session.repository.ts:44-66 | revocations won equal successful refreshes plus winners in flight plus winners rejected or crashed |
| AuthTheorems.CountsSuccessesFrom | src/auth/application/service/auth.application-service.ts:190-219 | from any state the invariant holds in, the successes of a token in a run are counted exactly by its entry in the history |
| AuthTheorems.AtMostOneSuccessPerToken | src/auth/infrastructure/persistence/drizzle/auth-session.repository.ts:44-66 | no token refreshes successfully twice in any interleaved run with crashes and purges |
| AuthRuns.DeadFamilyStaysDead | src/auth/application/service/auth.application-service.ts:191-219 | with no unrevoked row and no claim in flight, no continuation makes a row of the family active |
| AuthRuns.InactiveUserEndsTheFamily | src/auth/application/service/auth.application-service.ts:212-217 | a refresh for an absent, inactive or blocked user ends the family for good, even if the user is reactivated |
| AuthLineage.ReuseRevokesTheFamily | src/auth/application/service/auth.application-service.ts:193-210 | at the step of a reuse-detected revoke the family has no active row, and any claim left is a rotation's |
| AuthLineage.OnlyTheClaimInFlightLives | src/auth/application/service/auth.application-service.ts:191-219 | from a state where a family has no active row, a row of it that is ever active descends from the one claim in flight there |
| AuthLineage.ReuseKillsAllButTheRotationInFlight | src/auth/application/service/auth.application-service.ts:193-210 | any row active after a reuse descends, by replacements, from the token the one rotation in flight had spent |
| AuthLineage.LogoutAllKillsAllButTheClaimsInFlight | src/auth/application/service/auth.application-service.ts:236-245 | a row of the user active after logoutAll is of a family opened later, or descends from the one claim that held its family at that step |
| AuthFates.DeadExactlyWhenDoomed | src/auth/application/service/auth.application-service.ts:191-219 | no continuation makes a row of the family active if and only if it has none now and every claim on it is about to reject an inactive user |
| AuthFates.ReuseEndsTheFamilyExactlyWhen | src/auth/application/service/auth.application-service.ts:193-210 | a reuse ends the family for good if and only if at that step no refresh of it is between winning its revoke and storing, unless it has met an inactive user |
| AuthFates.ReuseCanMissTheSuccessor | src/auth/application/service/auth.application-service.ts:190-219 | a reachable state, a reuse-detected revoke, and a continuation in which the family has an active row again |
| AuthFates.LogoutAllEndsAFamilyExactlyWhen | src/auth/application/service/auth.application-service.ts:236-245 | logoutAll ends a family of the user for good under the same condition |
| AuthRuns.RevocationIsFinal | src/auth/infrastructure/persistence/drizzle/auth-session.repository.ts:50-86 | over any run identity columns never change, a revocation keeps its time and reason, a deleted row never returns |
| AuthRuns.RowsAreConserved | src/auth/infrastructure/persistence/drizzle/auth-session.repository.ts:22-136 | rows ever stored equal active plus revoked by reason plus purged |
| AuthRuns.RotatedIsTheTally | src/auth/application/service/auth.application-service.ts:190-191 | in every reachable state the rows marked `rotated` are exactly those a refresh won, less the purged ones |
| AuthLimiter.StepKeepsTimely | src/auth/application/service/auth.application-service.ts:253-259 | windows and attempts always lie in the past |
| AuthLimiter.StepKeepsBound | src/auth/application/service/auth.application-service.ts:97-124 | one step of anyone keeps attempts in the window plus logins past the check within the bound |
| AuthLimiter.LimiterBound | src/auth/application/service/auth.application-service.ts:253-284 | along any run with at most k logins in flight for the key, the bound is 4 + k per email and 19 + k per non-empty address |
| AuthLimiterLimits.LimiterBoundIsReached | src/auth/application/service/auth.application-service.ts:97-124 | for every key and every k > 0 some run with at most k in flight ends with exactly that many attempts in the window: the bound is exact |
| AuthLimiterLimits.LockOutEnds | src/auth/application/service/auth.application-service.ts:253-284 | from every reachable state: if every login of the email is limited from then on, its count is zero once the window has passed |
| AuthSequential.CallIsASchedule | src/auth/application/service/auth.application-service.ts:97-312 | every whole call is a schedule of the protocol, also beside requests in flight, and the last step of the schedule tells the caller the outcome |
| AuthSequential.LoginMovesTheCount | src/auth/application/service/auth.application-service.ts:97-128 | a limited login changes nothing, a failed one adds exactly one to its email's count, an accepted one brings it to zero |
| AuthApplicationService.Service.Refresh | src/auth/application/service/auth.application-service.ts:178-220 | new state and outcome are those of the sequential specification, in every branch |
| AuthApplicationService.Service.Logout | src/auth/application/service/auth.application-service.ts:223-233 | the same, for logout |
| AuthApplicationService.Service.LogoutAll | src/auth/application/service/auth.application-service.ts:236-245 | the same, for logout of every session |
| AuthApplicationService.Service.AssertNotRateLimited | src/auth/application/service/auth.application-service.ts:253-284 | rejects exactly when one of the two counts has reached its threshold |
| AuthApplicationService.Service.Login | src/auth/application/service/auth.application-service.ts:97-128 | the same as Refresh, for login: limited, failed and recorded, or cleared and issued |
| AuthApplicationService.Service.BuildTokenResponse | src/auth/application/service/auth.application-service.ts:286-312 | signs, stores the row, and answers with the pair; an error leaves no row |
| AuthPurge.CallSeesTheSame | src/auth/infrastructure/persistence/drizzle/auth-session.repository.ts:124-136 | one call on purged and unpurged tables has the same outcome, for logoutAll up to the rows purged while open, and keeps the two related |
| AuthPurge.PurgeIsInvisible | src/auth/infrastructure/persistence/drizzle/auth-session.repository.ts:124-136 | a purge up to the start of the window changes no later refresh, logout, login or opening of a sequential run; a later logoutAll reports fewer by exactly the purged rows it would have closed |
| AuthPurge.PurgeIsInvisibleExactlyWhen | src/auth/infrastructure/persistence/drizzle/auth-session.repository.ts:124-136 | no run from any world of that time notices the purge if and only if its bound is at most the start of the window (or the epoch) |
| AuthPurge.LatePurgeIsSeen | src/auth/application/service/auth.application-service.ts:253-284 | for every later bound, a world in which a login is limited without the purge and admitted after it |
| AuthPurge.LogoutAllMissesThePurged | src/auth/application/service/auth.application-service.ts:236-245 | logoutAll then reports fewer by exactly the purged rows that were still unrevoked |
| AuthPurge.EarlyPurgeShortensTheWindow | src/auth/infrastructure/persistence/drizzle/auth-session.repository.ts:130-133 | after a purge the limiter's counts, per email and per address, start at the later of bound and window |
| AuthClosedFamilies.ClosedFamilyNeverRefreshes | src/auth/application/service/auth.application-service.ts:178-220 | in a sequential run no token of a closed family ever refreshes again |
| AuthClosedFamilies.WhatClosesAFamily | src/auth/application/service/auth.application-service.ts:185-233 | reuse, an absent, inactive or blocked user, or logout with a live token closes the whole family |
| AuthClosedFamilies.RefreshSucceedsExactlyWhen | src/auth/application/service/auth.application-service.ts:178-220 | success if and only if the token verifies, its row is stored and unrevoked, the user is active and the new token is alive; any other outcome for a stored session closes its family |
| AuthClosedFamilies.SuccessfulRefreshRotates | src/auth/application/service/auth.application-service.ts:191-219 | a successful refresh keeps family and user, leaves exactly the new row open, and marks the old one rotated |
| AuthContracts.RefreshOfNoSession | src/auth/application/service/auth.application-service.ts:182-188 | an unsigned, expired or access token, or one without a stored session: unauthorized, nothing changes |
| AuthContracts.RefreshOfASpentToken | src/auth/application/service/auth.application-service.ts:193-210 | unauthorized; every open row of the family, and no other, is revoked now as reuse_detected |
| AuthContracts.RefreshForNoActiveUser | src/auth/application/service/auth.application-service.ts:212-217 | user absent, inactive or blocked: unauthorized, and the presented row, revoked as rotated, is the only change |
| AuthContracts.RefreshOfAnActiveUser | src/auth/application/service/auth.application-service.ts:191-219 | the whole new state and the whole answer of a rotation, every column and claim written out |
| AuthContracts.LogoutWrittenOut | src/auth/application/service/auth.application-service.ts:223-233 | the answer and the one row a logout changes |
| AuthContracts.LogoutAllWrittenOut | src/auth/application/service/auth.application-service.ts:236-245 | the number answered and the rows changed, with time and reason |
| AuthContracts.LoginLimitedExactlyWhen | src/auth/application/service/auth.application-service.ts:253-284 | limited if and only if at least 5 failures of the email, or 20 of a given address, lie in the last 900000 milliseconds; nothing changes |
| AuthContracts.LoginRefusedExactlyWhen | src/auth/application/service/auth.application-service.ts:114-121 | below the limits, unauthorized if and only if there is no such user, no password, the user is not active, or the password does not match; exactly one attempt is appended |
| AuthContracts.LoginSucceedsExactlyWhen | src/auth/application/service/auth.application-service.ts:97-128 | success if and only if both counts are below 5 and 20, the user exists, has a password, is active, the password matches, and the token lifetime is positive |
| AuthContracts.LoginOpens | src/auth/application/service/auth.application-service.ts:124-127 | right credentials: the email's attempts go and a pair of a new family is stored and answered, all written out |
| AuthContracts.OpenWrittenOut | src/auth/application/service/auth.application-service.ts:130-169 | an opening by register or google issues a pair of a new family whatever the status |
| AuthContracts.PurgeWrittenOut | src/auth/infrastructure/persistence/drizzle/auth-session.repository.ts:124-136 | which sessions and attempts a purge leaves |
| AuthContracts.StepsDecide | src/auth/application/service/auth.application-service.ts:105-216 | at any state of any interleaving: which way the password check, the user lookup and the revoke of the presented token send the request |
| AuthContracts.LimiterDecides | src/auth/application/service/auth.application-service.ts:253-284 | at any state: the limiter lets a login on if and only if the count it read per email is below 5 and the count per address it reads is below 20 |
| AuthContracts.LimiterCounts | src/auth/application/service/auth.application-service.ts:254-259 | the window of a login starts 900000 milliseconds before it, and the count per email is taken at its own step |
| AuthContracts.EmailBoundWrittenOut | src/auth/application/service/auth.application-service.ts:97-124 | 4 + k with the window and the requests past the check written out |
| AuthContracts.IpBoundWrittenOut | src/auth/application/service/auth.application-service.ts:97-124 | 19 + k per non-empty address, likewise |
| AuthContracts.LockOutEndsWrittenOut | src/auth/application/service/auth.application-service.ts:253-284 | after a lock-out no failure of the email lies in the last 900000 milliseconds |
| Reservoir.SlotsAreDistinct | scripts/load-test.ts:61-69 | the slots hold different, already seen observations |
| Reservoir.DrawsAreTheLegalOnes | scripts/load-test.ts:67 | the counted draw sequences are exactly those in range |
| Reservoir.DrawsCount | scripts/load-test.ts:67 | each further observation multiplies the number of draw sequences by the observations seen |
| Reservoir.EveryObservationIsEquallyLikely | scripts/load-test.ts:61-69 | for every observation, the draw sequences that keep it, times n, equal k times all draw sequences |
| ReservoirSubsets.EverySampleIsEquallyLikely | scripts/load-test.ts:61-69 | every set of k observations is left by exactly (n - k)! draw sequences |
| ReservoirSubsets.AllDraws | scripts/load-test.ts:61-69 | there are n! / k! draw sequences, so every set of k has the same chance |
| LoadTest.SampleStep | scripts/load-test.ts:61-69 | if the sample holds the slots of the passes so far, then after recording one more it holds those of the longer list |
| LoadTest.Report.Answer | scripts/load-test.ts:46-49 | a failed status is counted at once, before the body is read |
| LoadTest.Report.Settle | scripts/load-test.ts:49-57 | the end of a pass counts it, counts an exception, and records its latency |
| LoadTest.Report.RunWorkers | scripts/load-test.ts:17-59 | over any interleaving of the workers between awaits: the finished passes, the sample, and, once all are done, an error count that is the sum over the passes |
| LoadTest.CountersWrittenOut | scripts/load-test.ts:46-57 | over any interleaving: one pass per end of a pass, one error per failed status and per exception |
| LoadTest.Report.Sort | scripts/load-test.ts:19 | the array ends up sorted and a permutation of what it was |
| LoadTest.Report.Finish | scripts/load-test.ts:19-34 | sorts in place; the percentile of the sample; rate times requests is the errors, and the rate is 1 without requests |
| LoadTest.SampleIsFair | scripts/load-test.ts:61-69 | min(n, k) entries, one observation per slot, a sub-multiset of all latencies |
| LoadTest.PickIsSubMultiset | scripts/load-test.ts:61-69 | different positions of a list pick a sub-multiset of it |
| LoadTest.P95IsNearestRank | scripts/load-test.ts:20 | the smallest sample with at least 95% of the samples at or below it; 0 when there is none |
| LoadTest.SortedIsUnique | scripts/load-test.ts:19 | a sorted permutation is determined by the contents, so the percentile does not depend on how the array is sorted |
| LoadTest.RateIsAProportionExactlyWhen | scripts/load-test.ts:21-55 | the rate is at most 1 if and only if no more passes counted two errors than none |
| LoadTest.ErrorRateCanExceedOne | scripts/load-test.ts:44-54 | a schedule of one worker whose reported error rate is 2 |
| ConfigLoader.SkippedExactlyWhen | src/shared/infrastructure/config/config-loader.ts:37-41 | a line is skipped if and only if it is blank, a comment, or has no "=" |
| ConfigLoader.LayoutDoesNotMatter | src/shared/infrastructure/config/config-loader.ts:37-54 | white space before and after the name and the value makes no difference to the entry read |
| ConfigLoader.ParseEnvFile | src/shared/infrastructure/config/config-loader.ts:29-58 | the loop over lines equals the parse of the content; a missing file is an empty one |
| ConfigLoader.ConcatenationMerges | src/shared/infrastructure/config/config-loader.ts:36-57 | the parse of two texts joined by a line break is the right-biased merge of their parses |
| ConfigLoader.LineWrittenOut | src/shared/infrastructure/config/config-loader.ts:37-54 | any line not skipped: the trimmed text before the first "=", and the trimmed text after it less a pair of equal quotes around it |
| ConfigLoader.BareValueIsKept | src/shared/infrastructure/config/config-loader.ts:43-54 | a value not wrapped in equal quotes is kept, in any layout |
| ConfigLoader.QuotedValueIsInside | src/shared/infrastructure/config/config-loader.ts:46-52 | a value in double or single quotes is what is between them, in any layout |
| ConfigLoader.FileRoundTrip | src/shared/infrastructure/config/config-loader.ts:29-58 | a whole file of assignments, bare or quoted either way, reads back as what was written |
| ConfigLoader.FetchSsmParameters | src/shared/infrastructure/config/config-loader.ts:68-94 | the paging loop collects the concatenation of the pages |
| ConfigLoader.PageBoundariesDoNotMatter | src/shared/infrastructure/config/config-loader.ts:73-91 | cutting any page in two changes nothing |
| ConfigLoader.CollectedExactly | src/shared/infrastructure/config/config-loader.ts:83-88 | a key is collected with a value if and only if a parameter with a non-empty name and a value gives it and no later one gives the same key |
| ConfigLoader.KeyUnderPrefix | src/shared/infrastructure/config/config-loader.ts:85-87 | a name under the prefix is known by the rest of its path, less one leading slash |
| ConfigLoader.KeyLosesFirstPrefix | src/shared/infrastructure/config/config-loader.ts:86 | of any name the first occurrence of the prefix goes, wherever it is, then one leading slash |
| ConfigLoader.KeyWithoutPrefix | src/shared/infrastructure/config/config-loader.ts:86 | a name without the prefix loses one leading slash only |
| ConfigLoader.LoadConfig | src/shared/infrastructure/config/config-loader.ts:133-198 | which layers are read in which stage, which failures are errors, and the merge |
| ConfigLoader.LoadWrittenOut | src/shared/infrastructure/config/config-loader.ts:139-198 | the four stages, which layer is read when, which failure is an error, and the merge, from options, environment, file and cloud |
| ConfigLoader.StrongestLayerWins | src/shared/infrastructure/config/config-loader.ts:185-194 | every lookup is the value of the strongest layer that defines the key; only APP_STAGE is fixed |
| EnvironmentSchema.ParseIsTyped | src/shared/infrastructure/config/environment.schema.ts:3-33 | whatever a field parses to has the field's type |
| EnvironmentSchema.ShowThenParse | src/shared/infrastructure/config/environment.schema.ts:167-171 | every value of a field's type is parsed back from the string it is written as |
| EnvironmentSchema.EveryFieldIsSound | src/shared/infrastructure/config/environment.schema.ts:35-79 | no field has a default its own rules would reject |
| EnvironmentSchema.ValidatedIsTyped | src/shared/infrastructure/config/environment.schema.ts:142-154 | a validated environment is typed, has every field with a default, and obeys the cross-field rules |
| EnvironmentSchema.WriteBackRoundTrip | src/shared/infrastructure/config/environment.schema.ts:162-174 | validating what was written back gives the same environment if and only if the files below say nothing more |
| EnvironmentSchema.Process.ValidateEnvironmentAsync | src/shared/infrastructure/config/environment.schema.ts:162-174 | the outcome of load and validate; the process environment is overwritten entry by entry, only on success |
| EnvironmentSchema.SecondReaderSeesTheSame | src/app.module.ts:25-31 | the framework's second validation gives the start-up environment unless its files say more; a file layer read as the loader reads it never does |
| EnvironmentExamples.SomeRuntimeIsFaithful | src/shared/infrastructure/config/environment.schema.ts:64-65 | the promises asked of the runtime can be kept |
| EnvironmentExamples.SecondParseCanDiffer | src/app.module.ts:25-31 | a valid staging start-up with one name only in `.env`, for which the framework's second parse gives a different environment |
| EnvironmentSchema.ProductionIsLockedDown | src/shared/infrastructure/config/environment.schema.ts:92-137 | a valid staging or production environment has its own long secret, no local origin, no static cloud keys, and a database |
| EnvironmentSchema.CookieNameIsWellFormed | src/shared/infrastructure/config/environment.schema.ts:56-59 | a cookie name that validates is one the cookie reader can find |
| EnvironmentContracts.OriginsAreTrimmed | src/shared/infrastructure/config/environment.schema.ts:24-33 | origins with any white space around them are accepted, trimmed and in order, if and only if all are URLs |
| EnvironmentContracts.BlankPieceIsDropped | src/shared/infrastructure/config/environment.schema.ts:28-30 | a blank piece of the list is as good as none |
| EnvironmentContracts.NumbersAccept | src/shared/infrastructure/config/environment.schema.ts:39-77 | for each numeric variable, the decimals accepted |
| EnvironmentContracts.BlankIsZero | src/shared/infrastructure/config/environment.schema.ts:39-77 | a blank numeric variable counts as zero |
| EnvironmentContracts.WordsAccept | src/shared/infrastructure/config/environment.schema.ts:37-42 | for each variable with a fixed list, the words accepted |
| EnvironmentContracts.TextsAccept | src/shared/infrastructure/config/environment.schema.ts:53-72 | for each text variable, the texts accepted |
| EnvironmentContracts.OptionalsAccept | src/shared/infrastructure/config/environment.schema.ts:43-74 | an optional variable that is empty is undefined |
| EnvironmentContracts.DefaultsWrittenOut | src/shared/infrastructure/config/environment.schema.ts:37-77 | the value of every variable that is not set |
| EnvironmentContracts.WrittenAs | src/shared/infrastructure/config/environment.schema.ts:169 | the string each kind of value is written back as |
| EnvironmentContracts.AcceptedExactlyWhen | src/shared/infrastructure/config/environment.schema.ts:80-138 | a configuration whose fields parse is accepted if and only if the cross-field rules hold of its own strings |
| AuthRefreshCookie.ReadCookie | src/auth/infrastructure/http/auth-refresh-cookie.ts:6-24 | the scan of the header equals the lookup |
| AuthRefreshCookie.FirstPartDecides | src/auth/infrastructure/http/auth-refresh-cookie.ts:7-23 | on any header: null if no part has the name, otherwise what the first such part decodes to |
| AuthRefreshCookie.HeaderDecides | src/auth/infrastructure/http/auth-refresh-cookie.ts:7-23 | the same on the parts' own text: name before the first "=", value after it, both trimmed, the value decoded |
| AuthRefreshCookie.ReadUndoesWrite | src/auth/infrastructure/http/auth-refresh-cookie.ts:37-42 | among cookies with distinct well-formed names each value comes back, and any other name reads as null |
| Percent.DecodeEncode | src/auth/infrastructure/http/auth-refresh-cookie.ts:17 | decoding undoes percent-encoding of UTF-8, for every string |
| Percent.DecodesExactlyWhen | src/auth/infrastructure/http/auth-refresh-cookie.ts:16-20 | decoding answers a string if and only if the input spells it, and fails if and only if it spells none |
| Percent.Utf8IsUnique | src/auth/infrastructure/http/auth-refresh-cookie.ts:17 | a group of bytes is read as a number if and only if it is that number's shortest form: no overlong forms, no surrogates |
| Text.SplitAt | src/shared/infrastructure/config/config-loader.ts:36 | splitting at a separator in the middle is splitting both sides |
| Text.SplitJoin | src/shared/infrastructure/config/environment.schema.ts:24-33 | joining parts that lack the separator and splitting again gives the parts back |
| Text.TrimPadded | src/shared/infrastructure/config/config-loader.ts:37-44 | trimming takes away exactly the white space around |
| Text.ReadPrint | src/shared/infrastructure/config/environment.schema.ts:167-171 | decimal printing of a whole number is undone by reading |
| Text.PrintIsCanonical | src/shared/infrastructure/config/environment.schema.ts:169 | decimals are printed without leading zeros |
| MessageQueue.NothingIsLost | src/worker/application/service/message-worker.ts:24-59 | in every reachable state the messages ever sent are exactly those queued and those deleted, none is both, and a deleted one was a dispatched well-formed envelope |
| MessageQueue.FailuresDoNotBlockOthers | src/worker/application/service/message-worker.ts:31 | a complete well-formed message is deleted by its own dispatch and acknowledgement whatever the rest of the batch does |
| MessageWorker.Worker.Process | src/worker/application/service/message-worker.ts:35-59 | is the steps Handle and, if that completed, Acknowledge; the message leaves the queue if and only if its body is a well-formed envelope, it has a receipt, and neither the dispatch nor the acknowledgement fails |
| MessageWorker.Worker.PollOnce | src/worker/application/service/message-worker.ts:24-33 | is a run of the queue's steps; exactly the complete, well-formed messages whose own dispatch and acknowledgement went through leave the queue |
| MessageWorker.Worker.Run | src/worker/application/service/message-worker.ts:16-22 | is a run of the queue's steps; over all polls, a message leaves the queue if and only if it went through in one of them |
| MessageWorker.Queue.Receive | src/worker/application/service/message-worker.ts:25-30 | a batch is handed out, perhaps without bodies or receipts, and nothing leaves the queue |

## Idealisations

* Signatures are unforgeable: a token verifies only if it was signed. UUIDs are
  fresh, and never drawn twice.
* One clock for the application and the database, in whole milliseconds; it never
  goes back.
* `Math.random` is a free choice below the number of observations, and 0.95 times
  a length is exact. Latencies are reals.
* Strings are sequences of Unicode scalar values.
* For numbers that are not plain decimals, `String` and `Number` are parameters
  with the round trip of section 6.1.6.1.20 of ECMA-262 as a hypothesis
  (`EnvironmentSchema.Faithful`); plain decimals are proved. What is a URL, and
  its host name, are parameters too.

## Left out

- Session columns no decision reads: token hash, user agent, address, row id, creation time; likewise the email and role claims.
- The writes of `register` and `google` to the user table: a user changes in a step of the environment, and both requests enter where they start issuing, with no condition on the user's status.
- Lower-casing of the login email, which the request schema has already done; parsing of addresses by the database.
- HTTP statuses and messages, logging, timing equalisation, password hashing, the Google verifier, `countActiveSessions`.
- Purges beside requests in flight: the safety theorems include them, the invisibility theorem is about runs of whole calls after the purge.
- The library sort of the load tester: an insertion sort stands in, and sorted permutations are unique; rounding of the printed report and threshold errors.
- Arguments and paths of the load tester's command line.
- Waiting and cancellation in the worker's loop; the envelope schema, which is reduced to well formed or malformed. A poll that throws ends the loop, which is one of the places a run may stop.
- Store and secret clients and their JSON; a store's pages are a finite list; a secret that cannot be parsed is an empty one.
- Property names with a meaning of their own in the language (`__proto__`) as variable names.
- Values that are not strings as input of the schema; the texts of the reported issues.
- The framework's own parser of `.env` files, whose result is a parameter.
- Cookie attributes: expiry, path, same-site, secure.
