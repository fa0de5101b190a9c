# Verification of the authentication core

A Dafny model of the parts of this API whose correctness depends on state that many requests share:
the distributed rate limiter, sessions and refresh tokens, single-use credentials, TOTP and recovery
codes, MFA login, lockout, signing keys, audit redaction and API keys. Each service keeps its form:
methods that update tables, keys or nodes in place are methods of classes, each proved equal to a
step function; the theorems are about runs of those steps, over every interleaving.

`dafny verify dfyconfig.toml` checks everything.

## How it is built

- **Steps.** One SQL statement, one `SaveChanges` and one Lua script is one atomic step. A service
  method with several statements is several steps, and other steps may come between them, except
  where "Left out" says otherwise.
- **Time** is an argument of each step and does not go back within a run. Instants are integers:
  milliseconds for the limiter, 100 ns ticks elsewhere.
- **Fresh values.** Ids, tokens and stamps are fresh numbers, hashing is injective, and a token is
  identified with its hash.

| file | about |
|---|---|
| `SlidingWindow.dfy`, `SlidingWindowBounds.dfy`, `SlidingWindowDecisions.dfy` | the segmented sliding window: refinement of a log, rate bounds, retry hint, every decision |
| `FixedWindow.dfy` | the fixed window counter and its TTL |
| `Sessions.dfy`, `AuthDatabase.dfy` | database steps of sessions and refresh tokens; the services that take them |
| `SessionRuns.dfy`, `SessionGuarantees.dfy` | runs of the session protocol, its invariant and its guarantees |
| `SessionHistory.dfy` | every answer of a rotation and every access token, from the history alone |
| `RotationRace.dfy`, `RacedRuns.dfy` | rotation split into its read and its write; runs of the split form |
| `ResetSurvivors.dfy` | logins that race a password reset |
| `Cleanup.dfy`, `Batches.dfy` | the cleanup worker |
| `OneShotTokens.dfy`, `MfaLogin.dfy`, `MfaSignIn.dfy` | conditional consumption; the two requests of an MFA login and when they end in a session |
| `Totp.dfy`, `TotpHistory.dfy`, `TotpRates.dfy`, `RecoveryCodes.dfy` | second factors: replay, which codes work, how often one can be used, recovery codes |
| `Lockout.dfy` | account lockout and its rate theorem |
| `AccessTokens.dfy`, `KeyRing.dfy`, `KeyCache.dfy` | claim times; the issuer's retry loop, the key ring and the cache before it |
| `SensitiveFieldNames.dfy`, `Redaction.dfy`, `RedactionInPlace.dfy` | redaction of audit metadata |
| `ApiKeys.dfy` | API keys: printing, parsing, authentication |
| `Events.dfy`, `Sets.dfy`, `Strings.dfy`, `Options.dfy` | timed events and other shared notions |

## Where the code does less than its text

Each is a theorem below with the exact condition.

- The sliding window's key expiry is too short for some allowed configurations, such as 1021 ms in
  60 segments: the key is gone while a segment still counts, so decisions differ from a full log's
  and callers are served before their hint (`RefinementExact`, `NotBeforeRetry`,
  `DefaultIsCoveredShortWindowIsNot`). The rate bounds hold all the same (`WindowRateBound`).
- The fixed window's hint is a millisecond early if Redis still serves a key in the millisecond its
  TTL ends (`RetryHint`).
- `SessionExpired` can never be returned, against the comment at
  `Services/Tokens/RefreshTokenService.cs:99` (`SessionExpiredUnreachable`).
- `RevokedAt` is not set once, as `Models/Session.cs:70` says: presenting a spent token rewrites it
  (`RevokedExactly`). The idle bound is reached at equality, where
  `Models/Session.cs:56` says "greater".
- After a revocation or a reset, access tokens of a session die within lifetime + skew only if the
  login that made the session had finished (`AccessTailExact`).
- Two rotations that race fork a session's chain, and nothing notices (`RaceForksChain`,
  `ForkGoesUnnoticed`); likewise a recovery code raced is accepted twice (`OnceExactly`). A rotation
  raced by the cut of `RevokeForSessionAsync` leaves a token whose replay is not recognised
  (`LateReplayExactly`), and one raced by a revocation still succeeds (`DeadRotatesExactly`,
  `RotatedTailExactly`).
- A cleanup that deletes a ticket between its trade and the read of its owner fails a rightful login
  (`CleanupLoses`).
- A login that verified the old password before a reset and reads the stamp after it opens a session
  that outlives the reset (`SurvivesExactly`).
- A retired key is still found for as long as an answer about it is cached
  (`FoundAfterRetirementExactly`).
- Confirming a confirmed TOTP credential again can put an accepted step back in reach
  (`ReplayExactly`, `ReconfirmationReplays`).
- A TOTP verification may claim a step it read earlier, so T(t2) - T(t1) + 3 does not bound the
  successes in an interval (`UsesPerInterval`, with what does in `AllowanceAttained`).
- The options validator accepts a key grace of exactly lifetime + skew, which is one instant short,
  and the grace must also cover the time a rotation takes to commit (`ValidatorBoundary`,
  `VerifiableExactly`).

## Model

| member | source | states |
|---|---|---|
| SlidingWindow.SegmentLength | Services/RateLimiting/RedisRateLimitStore.cs:38 | the least length whose `segments` multiples cover the window |
| SlidingWindow.RedisHash.PurgeAndSum | Services/RateLimiting/RedisRateLimitStore.cs:43-56 | whatever order the fields come in, exactly the segments before the minimum are deleted, the total is the sum of the rest and the oldest is the smallest recorded one |
| SlidingWindow.RedisHash.Acquire | Services/RateLimiting/RedisRateLimitStore.cs:33-73 | the script, run in place, is one step of the expiring hash and returns that step's decision |
| SlidingWindow.RunsAgree | Services/RateLimiting/RedisRateLimitStore.cs:33-73 | over every run with non-decreasing server time the hash grants what a log of all grants would, and stays tied to it |
| SlidingWindow.RefinesLog | Services/RateLimiting/RedisRateLimitStore.cs:33-73 | if the TTL covers the window, every answer (acquired, remaining, retry) is the log's answer |
| SlidingWindow.ShortTtlForgets | Services/RateLimiting/RedisRateLimitStore.cs:67 | otherwise some run is answered differently |
| SlidingWindow.RefinementExact | Services/RateLimiting/RedisRateLimitStore.cs:38-67 | hash and log agree on all runs if and only if segments * length <= window + length (plus one if keys linger) |
| SlidingWindow.LongWindowsAreCovered | Configuration/RateLimitOptions.cs:38-45 | a window of at least (segments - 1)^2 ms meets that condition |
| SlidingWindow.DefaultIsCoveredShortWindowIsNot | Configuration/RateLimitOptions.cs:38-45 | the default configuration meets it; 1021 ms with 60 segments is in range and does not |
| SlidingWindowDecisions.HoldsExactly | Services/RateLimiting/RedisRateLimitStore.cs:42-67 | for every configuration and run: the hash holds exactly the permits granted since its calls last paused for a key's life |
| SlidingWindowDecisions.DecidesExactly | Services/RateLimiting/RedisRateLimitStore.cs:58-72 | for every configuration and run: a request is granted exactly if it fits beside those of them that lie in the window; what remains; and which instant a denial's hint names |
| SlidingWindowBounds.BandBounded | Services/RateLimiting/RedisRateLimitStore.cs:42-65 | within less than a key's life, any `segments` consecutive segments are granted at most the limit, on every run and configuration |
| SlidingWindowBounds.RateBoundExact | Services/RateLimiting/RedisRateLimitStore.cs:38-67 | for every configuration: closed intervals of length d stay within the limit on all runs if and only if d <= (segments - 1) * length and d is less than a key's life |
| SlidingWindowBounds.WindowRateBound | Services/RateLimiting/RedisRateLimitStore.cs:38-67 | for every configuration: a bound holds for all intervals of a window's length if and only if it is at least the limit where the window meets that condition, and twice the limit otherwise |
| SlidingWindowBounds.RetryInRange | Services/RateLimiting/RedisRateLimitStore.cs:68-71 | the hash's hint lies in 1..segments * length and ends where the oldest segment that counts leaves the window |
| SlidingWindowBounds.NotBeforeRetry | Services/RateLimiting/RedisRateLimitStore.cs:58-71 | on all runs no request for as many permits is granted before the hint, whatever others do, if and only if the TTL covers the window |
| SlidingWindowBounds.ServedAtRetry | Services/RateLimiting/RedisRateLimitStore.cs:58-71 | for every configuration: a request for one permit, once denied, is granted from the hint on if nobody was granted anything in between, however many others were denied |
| FixedWindow.RedisCounter.Acquire | Services/RateLimiting/RedisRateLimitStore.cs:11-31 | the script, run in place, is one step of the expiring counter and returns its decision |
| FixedWindow.StepInvariant | Services/RateLimiting/RedisRateLimitStore.cs:18-26 | a call keeps: count within 1..limit and equal to what its counter granted, TTL of the first increment, counters disjoint in time |
| FixedWindow.CounterNeverLeaks | Services/RateLimiting/RedisRateLimitStore.cs:20-25 | on every run a stored counter lies in 1..limit and carries a TTL |
| FixedWindow.DecidesExactly | Services/RateLimiting/RedisRateLimitStore.cs:18-30 | on every run a request is granted exactly if it fits beside what the log says the live counter granted; what remains, and the hint, by the log |
| FixedWindow.StartsExactly | Services/RateLimiting/RedisRateLimitStore.cs:20-23 | a grant belongs to the counter that is still alive, or starts a new one at its own instant |
| FixedWindow.RateBoundExact | Services/RateLimiting/RedisRateLimitStore.cs:11-31 | a bound holds for all closed intervals of length d, on all runs, if and only if it is at least what counters a life apart can grant in it |
| FixedWindow.MostInLives | Services/RateLimiting/RedisRateLimitStore.cs:11-31 | that is (q + 1) * limit for q whole lives, and (q + 2) * limit - 1 if something is left over |
| FixedWindow.WindowRateBound | Services/RateLimiting/RedisRateLimitStore.cs:11-31 | any interval of a window's length is granted at most twice the limit |
| FixedWindow.NotBeforeRenewal | Services/RateLimiting/RedisRateLimitStore.cs:18-30 | after a denial nobody is granted as much until the counter is gone |
| FixedWindow.ServedAtRenewal | Services/RateLimiting/RedisRateLimitStore.cs:18-30 | once it is gone the first request within the limit is granted, whatever others did before, grants included |
| FixedWindow.RetryHint | Services/RateLimiting/RedisRateLimitStore.cs:28-30 | the returned hint is exactly that instant unless keys linger in their last millisecond, and how far off it is then |
| AuthDatabases.AuthDatabase.CreateSession | Services/Tokens/SessionService.cs:18-52 | inserts the session with the user's stamp and the cap, or fails without a user |
| AuthDatabases.AuthDatabase.Issue | Services/Tokens/RefreshTokenService.cs:26-38 | inserts an unspent token that ends at the session's cap |
| AuthDatabases.AuthDatabase.Rotate | Services/Tokens/RefreshTokenService.cs:40-173 | checks in the source's order; new state and outcome are those of the rotation step |
| AuthDatabases.AuthDatabase.RevokeForSession | Services/Tokens/RefreshTokenService.cs:175-187 | cuts exactly the session's unspent, unexpired tokens short |
| AuthDatabases.AuthDatabase.Revoke | Services/Tokens/SessionService.cs:81-97 | revokes a live session and leaves a revoked one alone |
| AuthDatabases.AuthDatabase.RevokeAllForUser | Services/Tokens/SessionService.cs:99-118 | revokes exactly the user's live sessions but the excepted one, and counts them |
| AuthDatabases.AuthDatabase.Touch | Services/Tokens/SessionService.cs:54-63 | moves the activity time only |
| AuthDatabases.AuthDatabase.MarkReauthenticated | Services/Tokens/SessionService.cs:65-79 | moves authentication and activity time only |
| AuthDatabases.AuthDatabase.RevokeOwnSession | Services/Sessions/SessionQueryService.cs:38-64 | revokes the caller's own live session and cuts its tokens short, or reports it missing |
| AuthDatabases.AuthDatabase.RevokeAllOthers | Services/Sessions/SessionQueryService.cs:66-101 | the same for all of the caller's other sessions, and counts them |
| AuthDatabases.AuthDatabase.ReplaceStampAndRevoke | Services/Auth/PasswordResetService.cs:93-101 | a fresh stamp, then every session of the user revoked |
| SessionRuns.NextKeepsInv | Services/Tokens/RefreshTokenService.cs:40-203 | every step of every service and of cleanup keeps the protocol invariant: keys, caps, token ends and rotation chains |
| SessionGuarantees.ReplayNeverMissed | Services/Tokens/RefreshTokenService.cs:65-87 | a rotated token presented again any time before the cap is answered ReuseDetected and leaves the session revoked for it, whatever ran in between |
| SessionGuarantees.SingleChain | Services/Tokens/RefreshTokenService.cs:57-133 | all tokens ever issued for a session form one acyclic path in order of use, at most one stored token is unspent, and a rotation that fails leaves the tokens as they are |
| SessionGuarantees.SessionExpiredUnreachable | Services/Tokens/RefreshTokenService.cs:94-105 | no reachable state answers SessionExpired |
| SessionGuarantees.RotationBounds | Services/Tokens/RefreshTokenService.cs:99-157 | rotations happen within both bounds, move the activity time only, and mint the session's auth_time and methods |
| SessionGuarantees.SessionFixed | Services/Tokens/SessionService.cs:35-76 | one step leaves user, stamp, methods and cap; authentication moves to the instant of a re-authentication alone, activity also to that of a touch or a rotation |
| SessionGuarantees.SessionFixedInRun | Services/Tokens/SessionService.cs:35-76 | the same over any number of steps: each of the two is the instant of the last step that moves it |
| SessionGuarantees.FreshLoginRotates | Services/Tokens/RefreshTokenService.cs:57-171 | from any reachable state, a fresh login's first token rotates at every later instant inside both bounds |
| SessionGuarantees.CleanupIsSafe | BackgroundServices/ExpiredAuthArtifactCleanupService.cs:49-89 | cleanup deletes only rows eligible at its instant, and the session cascade takes no unexpired token |
| SessionGuarantees.RevocationAndResetKill | Services/Tokens/SessionService.cs:88-118 | revocation, replay and a fresh stamp each make a session dead |
| SessionGuarantees.DeadForever | Services/Tokens/RefreshTokenService.cs:89-123 | a dead session never rotates again, on any continuation of atomic rotations |
| SessionHistory.RevokedExactly | Services/Tokens/SessionService.cs:81-118 | exactly a revocation of the session, one of all its user's others, and a replay record one, with their instant and reason; a recorded one is rewritten by a replay alone |
| SessionHistory.AnswersExactly | Services/Tokens/RefreshTokenService.cs:57-171 | from any reachable state, after any steps since a login and at any instant before its cap: which of the eight outcomes each of its tokens gets, from those steps alone, and what a rotation's access token says |
| SessionHistory.MintsExactly | Services/Auth/AuthenticationSessionFactory.cs:34-55 | exactly the end of a login and a rotation mint an access token; the first carries the instant the login began, later ones the session's last authentication |
| SessionHistory.MintedByHistory | Services/Tokens/RefreshTokenService.cs:144-157 | the same for every access token of a session over any run since its login |
| SessionHistory.GoneExactly | BackgroundServices/ExpiredAuthArtifactCleanupService.cs:49-89 | sessions and tokens go exactly in a cleanup that lists them, or their session, when they are over |
| SessionHistory.UsersExactly | Models/User.cs:57 | users are added by registration alone, with a stamp nobody had |
| SessionGuarantees.AccessTailExact | Services/Auth/AuthenticationSessionFactory.cs:34-55 | with atomic rotations, the access tokens of a dead session all die within lifetime + skew if and only if its login is no longer in flight |
| ResetSurvivors.SurvivesExactly | Services/Tokens/SessionService.cs:18-51 | over every interleaving of logins and resets, a session survives resets of the password it was opened with if and only if a reset fell between the acceptance of that password and the read of the stamp, none came after the read, and no revocation after the insert |
| ResetSurvivors.SurvivorFollows | Services/Auth/PasswordResetService.cs:93-101 | from any state such a survivor can follow |
| AccessTokens.MintedLifetime | Handlers/Authentication/ConfigureJwtBearerOptions.cs:135-152 | a minted token passes no later than lifetime + skew after minting, and until less than a second before |
| AccessTokens.MintedExactly | Services/Tokens/AccessTokenIssuer.cs:32-53 | a token is the one minted for a request exactly if each claim is the request's, instants cut to the second |
| RotationRace.LateExactly | Services/Tokens/RefreshTokenService.cs:51-163 | writing a rotation decided earlier, with its access token issued in between, is the atomic step if and only if every check still passes and the claims are the same to the second |
| RotationRace.RaceForksChain | Services/Tokens/RefreshTokenService.cs:51-163 | two rotations that read before either writes both succeed and leave two unspent tokens, one off the chain |
| RotationRace.ForkGoesUnnoticed | Services/Tokens/RefreshTokenService.cs:68-163 | both branches can then be rotated without a replay being seen |
| RacedRuns.ReplayExactly | Services/Tokens/RefreshTokenService.cs:65-87 | over all runs in which rotations read and write in separate steps, replays of a spent token are recognised until the session's cap if and only if the token ends no earlier |
| RacedRuns.LateReplayExactly | Services/Tokens/RefreshTokenService.cs:175-187 | after a late write they are if and only if the token was not cut short between the rotation's read and its write, or the cap has passed |
| RacedRuns.DeadRotatesExactly | Services/Tokens/RefreshTokenService.cs:89-163 | a revoked or reset session rotates again on some such run if and only if a rotation decided before is still under way and its token's row exists |
| RacedRuns.ReadExactly | Services/Tokens/RefreshTokenService.cs:51-123 | a read that passes every check puts the rotation under way and writes nothing; any other is answered at once |
| RacedRuns.WriteRotates | Services/Tokens/RefreshTokenService.cs:125-163 | from any state, such a rotation's write hands out an access token and leaves a fresh unspent token on the session, dead or not |
| RacedRuns.RotatedTailExactly | Services/Tokens/RefreshTokenService.cs:144-163 | the access tokens that rotations of a dead session hand out all die within lifetime + skew if and only if none is under way |
| Batches.Take | BackgroundServices/ExpiredAuthArtifactCleanupService.cs:54-61 | a batch is the oldest eligible rows, full or all there are |
| Cleanup.ArtifactStore.CleanupOnce | BackgroundServices/ExpiredAuthArtifactCleanupService.cs:35-47 | one pass deletes one such batch from each of four tables, and nothing else |
| Cleanup.PassDeletesEligible | BackgroundServices/ExpiredAuthArtifactCleanupService.cs:49-129 | every deleted row was eligible, but for tokens cascaded from an eligible session |
| Cleanup.PassTakesOldest | BackgroundServices/ExpiredAuthArtifactCleanupService.cs:54-121 | of each table's eligible rows, what a pass leaves is no older than what it took |
| Cleanup.BacklogAfter | BackgroundServices/ExpiredAuthArtifactCleanupService.cs:49-129 | k passes take k batches off every backlog |
| Cleanup.Drains | BackgroundServices/ExpiredAuthArtifactCleanupService.cs:35-129 | ceil(n / BatchSize) passes or more leave nothing eligible, n the largest backlog |
| Cleanup.NoFewerPasses | BackgroundServices/ExpiredAuthArtifactCleanupService.cs:35-129 | fewer than ceil(n / BatchSize) leave something, n the largest backlog not counting tokens a cascade may take |
| Cleanup.DrainsExactly | BackgroundServices/ExpiredAuthArtifactCleanupService.cs:35-129 | where no eligible token belongs to an eligible session, nothing is left if and only if there were ceil(n / BatchSize) passes |
| Cleanup.CascadeHelps | BackgroundServices/ExpiredAuthArtifactCleanupService.cs:83-88 | otherwise one pass may do where the backlog alone takes two |
| OneShotTokens.VerificationTokens.ExecuteConsume | Services/Passkeys/PasskeyService.cs:297-315 | the conditional update marks the row and reports 1 exactly when hash, type, owner, use and expiry allow |
| OneShotTokens.VerificationTokens.ConsumeTicket | Services/Tokens/MfaTicketService.cs:38-68 | returns the owner of a ticket it could spend, and none otherwise |
| OneShotTokens.SpentAtMostOnce | Services/Tokens/MfaTicketService.cs:43-56 | over every interleaving each token is spent at most once, by its type and owner, strictly before it expires |
| OneShotTokens.ConsumeExactly | Services/Auth/PasswordResetService.cs:68-82 | an update affects a row, and marks it with its instant, if and only if the token was issued for that use, is unexpired and unspent; deletions make no difference |
| OneShotTokens.DeletedExactly | BackgroundServices/ExpiredAuthArtifactCleanupService.cs:91-110 | a cleanup takes exactly those of its rows that have expired or been spent |
| MfaSignIn.SignedInExactly | Services/Auth/LoginService.cs:53-109 | over every interleaving, a completion ends in a session exactly if the first check after its owner was read said yes and the session was asked for; a password-only login exactly if it had no confirmed credential and asked |
| MfaSignIn.SecondFactorTrail | Services/Auth/LoginService.cs:53-109 | behind each such session: an accepted password of that user, then a ticket issued to that request, then its trade before it ended |
| MfaSignIn.SecondFactorSucceeds | Services/Auth/LoginService.cs:53-109 | after any run, an accepted password, its ticket traded in before it ends and a code that verifies make a session |
| MfaSignIn.CleanupLoses | Services/Tokens/MfaTicketService.cs:43-68 | a cleanup between a ticket's trade and the read of its owner loses that login for good |
| MfaLogin.MfaConservation | Services/Auth/LoginService.cs:53-109 | per user and run: second-factor sessions <= checks <= tickets consumed <= tickets issued <= passwords accepted, and no request that read a confirmed credential signs in with the password alone |
| Totp.TotpCredentials.Enroll | Services/Mfa/TotpService.cs:31-71 | refused exactly for a confirmed credential; adds a row only for a user without one |
| Totp.TotpCredentials.Save | Services/Mfa/TotpService.cs:90-92 | the save of a confirmation: both columns, but the step only if it differs from the one read, or failure if the row is gone |
| Totp.TotpCredentials.Confirm | Services/Mfa/TotpService.cs:73-98 | uninterrupted, it confirms and overwrites the remembered step |
| Totp.TotpCredentials.ClaimStep | Services/Mfa/TotpService.cs:116-133 | claims exactly a step above the remembered one |
| Totp.ReplayExactly | Services/Mfa/TotpService.cs:84-132 | from a state without a replay in reach, a step makes some verification acceptable for a step at or below an accepted one if and only if it saves a confirmation below an accepted step that a current code or an earlier read can still claim |
| Totp.OrderlyExactly | Services/Mfa/TotpService.cs:84-132 | the runs on which a replay never comes into reach are exactly those without such a confirmation |
| Totp.StepsStrictlyIncrease | Services/Mfa/TotpService.cs:105-133 | on those runs, over every interleaving of reads, claims and confirmations, accepted steps of a credential strictly increase (section 5.2 of RFC 6238) |
| TotpHistory.WorksExactly | Services/Mfa/TotpService.cs:84-133 | over every interleaving, by the run alone: when a verification gets to its claim, when the claim is accepted, and when a confirmation gets to its save |
| TotpRates.UsesWithinDelay | Services/Mfa/TotpService.cs:105-133 | if no verification takes longer than delay from read to claim, at most T(t2) - T(t1 - delay) + 3 succeed in [t1, t2] |
| TotpRates.AllowanceAttained | Services/Mfa/TotpService.cs:105-133 | for every delay and interval some run attains that |
| TotpRates.UsesPerInterval | Services/Mfa/TotpService.cs:105-133 | at most T(t2) - T(t1) + 3 succeed in every [t1, t2] on all those runs if and only if codes are claimed the instant they are read |
| Totp.ReconfirmationReplays | Services/Mfa/TotpService.cs:84-92 | from any state where the codes of two successive steps are good, confirming with the first while the second verifies puts a replay in reach |
| RecoveryCodes.RecoveryCodeTable.Replace | Services/Mfa/TotpService.cs:220-241 | leaves the user with exactly ten new codes, unused, and everybody else's as they were |
| RecoveryCodes.RecoveryCodeTable.SaveUsed | Services/Mfa/TotpService.cs:146-147 | saves UsedAt on the row if it is still there, and fails otherwise |
| RecoveryCodes.WorksExactly | Services/Mfa/TotpService.cs:135-148 | over every interleaving, by the run alone: a read finds exactly a code made for the user, not deleted since and not accepted; a save is accepted exactly if its code was not deleted in the meantime |
| RecoveryCodes.OnceExactly | Services/Mfa/TotpService.cs:135-148 | over every interleaving each code is accepted at most once if and only if no save found its code used since the read |
| RecoveryCodes.AtomicUseIsOnce | Services/Mfa/TotpService.cs:135-148 | with reads and saves uninterrupted every code is accepted at most once |
| RecoveryCodes.RacingReadsBothAccepted | Services/Mfa/TotpService.cs:135-148 | in any state two requests that both read an unused code are both accepted |
| Lockout.Account.RegisterFailure | Services/Security/LockoutPolicy.cs:51-86 | counts, clears an elapsed lock, locks at the threshold; true exactly when the account becomes locked |
| Lockout.Account.Attempt | Services/Auth/LoginService.cs:35-51 | accepts exactly a verified attempt on an unlocked account; otherwise the policy's new state |
| Lockout.CountNeverExceeds | Services/Security/LockoutPolicy.cs:76-83 | on every run the stored count is at most Max, and Max exactly while a lock is stored |
| Lockout.GroupsOfMax | Services/Security/LockoutPolicy.cs:60-97 | from the start or any accepted attempt until the next one, exactly every Max-th counted failure locks, and none is counted until its lock has run out: a success leaves a full allowance |
| Lockout.LockedExactly | Services/Security/LockoutPolicy.cs:41-84 | on every run the account is locked out exactly for the lockout duration after each failure that locked it |
| Lockout.FailureRateBound | Services/Security/LockoutPolicy.cs:41-86 | in any interval of length T without a success, at most Max * (floor(T / D) + 1) failures are counted, whatever happened outside it |
| Lockout.FailureRateBoundIsTight | Services/Security/LockoutPolicy.cs:41-86 | for every configuration and length some run attains that bound |
| KeyRing.SigningKeyManager.GetOrCreateActiveKey | Services/Tokens/SigningKeyManager.cs:200-230 | returns the one active key, creating it in an empty ring |
| KeyRing.SigningKeyManager.RotateAsync | Services/Tokens/SigningKeyManager.cs:87-121 | demotes the active key with the entry clock reading and returns a new active one |
| KeyRing.SigningKeyManager.RetireElapsedKeys | Services/Tokens/SigningKeyManager.cs:123-154 | retires exactly the keys demoted at least the grace ago, and counts them |
| KeyRing.SigningKeyManager.ResolveValidationKey | Services/Tokens/SigningKeyManager.cs:169-197 | finds exactly an active or retiring key of that kid |
| KeyRing.SigningKeyManager.IssueAccessToken | Services/Tokens/AccessTokenIssuer.cs:25-91 | the retry loop, with arbitrary steps of others before each read and each signature |
| KeyRing.IssueExactly | Services/Tokens/AccessTokenIssuer.cs:32-91 | it fails if and only if the ring was rotated between read and signature in all attempts; a returned token names the key that signed it, and its claims are the request's, auth_time included, cut to the second |
| KeyRing.IssueIsRun | Services/Tokens/AccessTokenIssuer.cs:58-87 | issuing is a run of ordinary steps that ends with the signature |
| KeyRing.RetirementIsFinal | Services/Tokens/SigningKeyManager.cs:173-184 | in the database, a retired key never resolves again |
| KeyCache.FoundAfterRetirementExactly | Services/Tokens/SigningKeyManager.cs:143-190 | through the cache, over all runs, a retired key is found for less than an answer's lifetime after its retirement, and no shorter time bounds that |
| KeyCache.RemovedIsFinal | Services/Tokens/SigningKeyManager.cs:143-153 | once every stored answer about it is removed, a retired key is never found again |
| KeyRing.VerifiableExactly | Services/Tokens/ISigningKeyManager.cs:36-51 | over all runs every issued token finds its key whenever it passes the lifetime check if and only if grace > lifetime + skew + the longest commit of a rotation |
| KeyRing.ValidatorBoundary | Configuration/Validation/JwtOptionsValidator.cs:14-18 | with instant commits, every accepted grace is enough but exactly lifetime + skew |
| KeyRing.DefaultsTolerate | Configuration/JwtOptions.cs:27-49 | the defaults are enough exactly while rotations commit in under 4.5 minutes |
| SensitiveFieldNames.NamesExactly | Logging/SensitiveFieldNames.cs:33-60 | exactly the names that spell one of the eleven words somewhere, in any case, are secret; likewise "email" |
| SensitiveFieldNames.MatchesWithin | Logging/SensitiveFieldNames.cs:91-92 | re-spelling a name in another case or inside a longer name keeps it on a list |
| SensitiveFieldNames.MaskExactly | Logging/SensitiveFieldNames.cs:74-89 | every value masks to a masked form, and exactly the masked forms are left alone |
| SensitiveFieldNames.MaskReveals | Logging/SensitiveFieldNames.cs:64-89 | two values mask alike if and only if neither is an address or both show the same first character and domain |
| Redaction.CleanExactly | Services/Audit/AuditMetadataSerializer.cs:57-109 | a redacted tree has nothing left to redact, and exactly such trees are unchanged |
| Redaction.Idempotent | Services/Audit/AuditMetadataSerializer.cs:57-109 | redacting twice is redacting once |
| Redaction.HidesExactly | Services/Audit/AuditMetadataSerializer.cs:57-109 | two trees redact alike if and only if they differ only below secret names and in the masked part of addresses |
| RedactionInPlace.Redact | Services/Audit/AuditMetadataSerializer.cs:57-79 | the in-place walk leaves the node standing for the redacted tree, and touches nothing else |
| RedactionInPlace.RedactProperty | Services/Audit/AuditMetadataSerializer.cs:81-109 | one entry is redacted, its neighbours stay |
| RedactionInPlace.DenotesOne | Services/Audit/AuditMetadataSerializer.cs:57-79 | a node stands for one tree only |
| ApiKeys.CreatePrefix | Services/ApiKeys/ApiKeyService.cs:108-131 | the first twelve alphanumerics of the token stream, so no delimiter |
| ApiKeys.ParseExactly | Handlers/Authentication/ApiKeyAuthenticationHandler.cs:47-56 | splitting yields (prefix, secret) if and only if they print to the credential and the prefix has no underscore |
| ApiKeys.KeptExactly | Services/ApiKeys/ApiKeyService.cs:114-126 | exactly ASCII letters and digits are kept, in order |
| ApiKeys.CarriedExactly | Handlers/Authentication/ApiKeyAuthenticationHandler.cs:108-132 | a header is read as a credential if and only if it is that credential, bare or behind the scheme in any case, with blanks after it |
| ApiKeys.ApiKeyStore.Create | Services/ApiKeys/ApiKeyService.cs:25-67 | forbidden exactly for a scope that is not granted; otherwise stores the key under its prefix and prints it, or is refused for a taken prefix |
| ApiKeys.ApiKeyStore.Revoke | Services/ApiKeys/ApiKeyService.cs:89-106 | revokes exactly the owner's unrevoked key of that id |
| ApiKeys.ApiKeyStore.HandleAuthenticate | Handlers/Authentication/ApiKeyAuthenticationHandler.cs:38-79 | the handler's outcome, and only the used key's LastUsedAt moves |
| ApiKeys.AuthenticatesExactly | Handlers/Authentication/ApiKeyAuthenticationHandler.cs:40-75 | a header authenticates as a key if and only if it carries that key as printed and the key is neither revoked nor expired; it is left to other schemes if and only if it carries no credential |

## Left out

- AuthDatabases.AuthDatabase.CreateSession: reads the stamp and inserts in one step; ResetSurvivors takes them apart.
- AuthDatabases.AuthDatabase.Issue: reads the session and inserts in one step; what it reads never changes.
- AuthDatabases.AuthDatabase.Rotate: one step for the whole transaction, with one clock reading; RotationRace and RacedRuns take it apart.
- AuthDatabases.AuthDatabase.ReplaceStampAndRevoke: its two steps back to back; runs take them apart.
- AuthDatabases.AuthDatabase.RevokeOwnSession: check, revocation and cut with one clock reading and nothing in between; runs take them apart.
- AuthDatabases.AuthDatabase.RevokeAllOthers: listing, revoking and cutting short with one clock reading and nothing in between; runs take them apart.
- Lockout.Account.Attempt: reading, counting and saving a user is one step, so failures lost to concurrent saves are not modelled.
- OneShotTokens.VerificationTokens.ConsumeTicket: the owner is read back at once; MfaLogin lets cleanup delete the row first.
- Totp.TotpCredentials.Enroll: looks and inserts in one step, which the unique user of a credential enforces; without the secret.
- Totp.TotpCredentials.Confirm: match and save back to back; runs take them apart.
- RecoveryCodes.RecoveryCodeTable.Replace: delete and insert back to back; runs take them apart.
- Cleanup.ArtifactStore.CleanupOnce: selects and deletes a table's batch in one step; a selected row is still eligible when it is deleted. It is without the pass's last call, key retirement, which is `KeyRing`'s.
- RedactionInPlace.Redact: names are unique within an object, so an entry is addressed by its index; turning objects into nodes and nodes into text is not modelled.
- ApiKeys.CarriedExactly: blanks are those of ASCII.
- SensitiveFieldNames.NamesExactly: letter case is that of ASCII; the few other characters .NET folds onto ASCII letters are not modelled.
- KeyRing.SigningKeyManager.GetOrCreateActiveKey: looks and inserts in one step; the source re-reads the winner's key when it loses that race.
- KeyRing.SigningKeyManager.ResolveValidationKey: without the HybridCache in front of it, which is KeyCache's.
- KeyRing.SigningKeyManager.RotateAsync: takes effect at its commit; a rotation that read an older active key fails there on the unique index and changes nothing.
- KeyRing.SigningKeyManager.RetireElapsedKeys: reads and saves in one step; RetiredAt, which nothing reads.
- ApiKeys.ApiKeyStore.Create: reads the granted scopes and inserts in one step.
- ApiKeys.ApiKeyStore.Revoke: finds the key and saves it in one step, so that two revocations cannot both find it.
- ApiKeys.ApiKeyStore.HandleAuthenticate: looks up and updates LastUsedAt in one step; without the principal's roles and scopes.
- `Logging/SensitiveDataDestructuringPolicy.cs`, which applies the same names and mask to log events.
- `Milliseconds` and `Decision` of the rate-limit store, number formatting between Lua and Redis, and the lease statistics of `Services/RateLimiting/RedisWindowRateLimiter.cs`.
- Redis expires keys on its own clock; whether a key is readable in the very millisecond its TTL ends is the parameter `lingers`, and both answers are covered.
- Password change, account deletion, role changes and the administrator's unlock.
- CSRF tokens: a nonce and a protected payload around one comparison.
- Repair of undecryptable signing keys in Development, publishing keys as JWKS, and all cryptography.
- Truncation of user agents, audit entries, e-mail, metrics and timing equalisation.
- The HTTP pipeline, DTOs, options binding, OAuth and WebAuthn verification, migrations and seeding.
