# Kohaku, verified

A Dafny model of the stateful cores of the Kohaku server, with proofs of what they
promise over whole runs: the rate limiter, the account security machine (lockout, second
factor, reset links, sessions, device cookies), the mail outbox and its worker, the host
map and its watcher, the reader pool, and the calendar, base32 and MAC-input kernels.
`dafny verify dfyconfig.toml` checks all of it.

Each core has the same layout. A specification on values says what one transaction or
call does to the rows or maps it works on. Where the source changes things step by step,
a class or a method with loops does the same work statement by statement and is proved
equal to that specification. A run is any sequence of such steps, and the main lemmas are
about all runs. Times come from the callers as in the source; a lemma that needs an
ordered clock says so in its `requires`, and everything else holds for any times.

| file | models |
|---|---|
| `Rate.dfy`, `RateProofs.dfy` | arrival-time buckets, prefixes, overflow, sweep, instance-wide mail bucket |
| `SignIn.dfy` | sessions, device cookies, reset links |
| `Accounts.dfy`, `AccountTables.dfy` | the two-phase check, lockout, second factor, enrollment, password changes, reset links |
| `AccountRuns.dfy`, `Isolation.dfy` | every interleaving of an account's transactions |
| `Guesses.dfy` | how every check ends, and what wrong and right guesses lead to |
| `Lasting.dfy` | what a success or a reset leaves behind, and for how long |
| `Retention.dfy` | those interleavings with and without the sign-in step of retention |
| `SessionIds.dfy` | when a session's row id still means the session it was read for |
| `Outbox.dfy`, `OutboxRuns.dfy` | the outbox table, its worker and retention |
| `Server.dfy` | accounts and outbox together: which transaction queues which mail, what a give-up ends |
| `Hosts.dfy` | the projects table, the host map, refreshes and the polling watcher |
| `Pool.dfy` | the reader pool |
| `Schedule.dfy` | when the background jobs run |
| `Calendar.dfy`, `Base32.dfy`, `MacInput.dfy` | `format_utc_minute`, base32 and recovery codes, the MAC input |

Five promises turned out not to hold as the source states or suggests them. Each has a
concrete example and the exact condition under which it does hold:

- Lockout mails are not always 24 hours apart. After `admin unlock` a second lock in the
  second of the last mail mails again, because the update reports a mail time equal to
  `now` whether it set it or found it (`AccountRuns.LockoutMailRepeats`,
  `AccountRuns.MailKeepsDayWhen`, `AccountRuns.LockoutMailsDayApart`).
- The comment at `src/auth/mail.rs:39-40` says a given-up mail ends the link it carries.
  It ends every unused link of the account, a newer one too
  (`Server.OlderMailEndsNewerLink`, `Server.LinkSurvivesExactly`).
- Retention of sign-in rows is not always invisible. `confirm_totp` reads the pending
  nonce of its session without asking whether the session is still live, so for a session
  that dies after its request was let in the answer depends on retention: with it there is
  nothing to confirm, without it the code is judged (`Retention.ConfirmMissesSession`,
  `Retention.ConfirmShowsExactly`). For sessions named by their tokens this is the one
  exception in a run whose transactions go by times not before an earlier retention run:
  `Retention.RetentionIsInvisible` is an if-and-only-if.
- A session lookup reads and records in two transactions. Retention between them, with a
  clock past the session's idle end, ends a session the record would have kept
  (`Retention.UseIsRecordedInVain`, `Retention.UseMissesSession`). More generally, a
  transaction that goes by a time before an earlier retention run can tell the two apart
  exactly when something it finds was already dead then (`Retention.ShowsExactly`).
- After the lookup a request acts on its session by row id, and `sessions.id`
  (`migrations/0002_admin_auth.sql:27`) may be given out again once the newest row is
  deleted, so a logout can end another session (`SessionIds.LogoutEndsNewSession`). The id
  means the session it was read for exactly when no login meets a table whose largest id is
  one below it (`SessionIds.IdMeansTokenExactly`).

## Model

| member | source | states |
|---|---|---|
| `RateLimiter.DemandOf` | src/limits/rate.rs:163-190 | every demand names each bucket once with the budget its key determines, and all its keys share its overflow bucket |
| `RateRuns.SharedKeys` | src/limits/rate.rs:95-190 | two requests share a bucket if and only if they are of one class from the same IPv4 address or IPv6 /48, public mails from the same, or mails to one address; none is without a bucket |
| `RateRuns.SharedNarrowKey` | src/limits/rate.rs:95-174 | two IPv6 addresses share both buckets of a class if and only if their /64 is the same |
| `RateRuns.OverflowsApart` | src/limits/rate.rs:115-190 | falling back mixes no two classes and neither kind of mail with another |
| `RateRuns.Allowances` | src/limits/rate.rs:43-80 | the bursts and the times they are earned again in: 300 a minute, 10 in 15 minutes, 5 an hour, eightfold for a /48, 10 and 3 mails an hour |
| `RateLimiter.Limiter.AdmitWith` | src/limits/rate.rs:225-278 | admits exactly when every bucket needed has a token, the instance bucket included; then one is taken from each, and a denied demand changes nothing |
| `RateRuns.AdmittedExactly` | src/limits/rate.rs:225-257 | a demand is admitted if and only if the token bucket behind every bucket it needs has a token |
| `RateRuns.ChargedExactly` | src/limits/rate.rs:258-278 | and then exactly those are charged |
| `RateRuns.Undisturbed` | src/limits/rate.rs:225-286 | after any ordered run of demands sharing no bucket with it, and sweeps, while nothing overflows, a demand is answered as before |
| `RateLimiter.Limiter.CountMissing` | src/limits/rate.rs:234-238 | counts the demand's keys without a bucket |
| `RateLimiter.Limiter.KeysAdmit` | src/limits/rate.rs:241-248 | the keys pass exactly when every existing bucket among them admits |
| `RateLimiter.Limiter.TakeFromKeys` | src/limits/rate.rs:258-268 | the loop takes from exactly the charged keys and creates the missing ones full unless overflow is used |
| `RateRuns.SweepLeavesBucketsAlike` | src/limits/rate.rs:281-286 | from its time on a sweep makes no difference to any bucket: swept or not, it admits alike and is the same after a charge |
| `RateRuns.SweptLeavesAhead` | src/limits/rate.rs:281-286 | after a sweep exactly the buckets ahead of its time are left |
| `RateRuns.StartIsSound` | src/limits/rate.rs:202-211 | the empty limiter with a full instance bucket is sound |
| `RateRuns.ReachableIsSound` | src/limits/rate.rs:131-153 | in every reachable state at most 100,000 buckets exist, each has its key's budget and is at most its capacity ahead of the last time |
| `RateRuns.SpanBound` | src/limits/rate.rs:136-286 | in every ordered run any one bucket, keyed, overflow or instance-wide, hands out at most capacity + floor(W/interval) in any span W, through sweeps and re-creation |
| `RateRuns.AdmissionsAreCharged` | src/limits/rate.rs:225-278 | every admitted demand naming a key is charged to that key's bucket or its overflow bucket |
| `RateRuns.Slash48Names` | src/limits/rate.rs:95-104 | every class request from an address of a /48 names that /48's bucket |
| `RateRuns.Slash48Bound` | src/limits/rate.rs:75-174 | whatever addresses it rotates through, one /48 gets at most its eightfold budget plus the class's overflow in any span |
| `RateRuns.SweepsAreInvisible` | src/limits/rate.rs:234-286 | sweeps at any times change no answer while the unswept limiter does not overflow, and cause no overflow themselves |
| `RateRuns.RefinesTokenBucket` | src/limits/rate.rs:136-153 | an arrival-time bucket answers every request sequence as a continuously refilled token bucket with the matching level |
| `SignIn.SignInTables.FindSession` | src/auth/session.rs:92-123 | the read transaction finds exactly the valid sessions and asks for a record exactly when the last one is five minutes old |
| `SignIn.SignInTables.RecordUse` | src/auth/session.rs:124-135 | the write transaction moves the last use forward only, touches no other session and brings none back |
| `SessionIds.IdMeansTokenExactly` | src/auth/session.rs:124-135 | acting by a row id read earlier is acting by the session's token through a whole run of logins and deletions if and only if no login meets a table whose largest id is one below |
| `SessionIds.LaterSessionProtects` | src/auth/session.rs:211-227 | it is as long as that session or any begun later stays |
| `SessionIds.LogoutEndsNewSession` | src/admin/mod.rs:87-94 | a logout after retention and a login can end the new session |
| `SignIn.SignInTables.SignedIn` | src/admin/login.rs:74-82 | a login adds a session and, without a known device, a device cookie, evicting beyond ten |
| `Lasting.LoginAddsSession` | src/admin/login.rs:74-82 | a login adds its session with nothing pending and leaves every other as it was |
| `Lasting.NewSessionLasts` | src/auth/session.rs:211-227 | a session given out at u and neither used nor ended is valid if and only if t < u + 43,200, over every run, retention included |
| `Lasting.NewDeviceLasts` | src/auth/session.rs:230-258 | a device cookie given out at u, none dated later, is known for a year until all are forgotten or ten more are given out, over every run |
| `Lasting.LetInExactly` | src/auth/session.rs:92-123 | a request is let in if and only if its session is within twelve hours and seven days and its account enabled with a password |
| `Lasting.SignOutEnds` | src/admin/mod.rs:87-94 | signing out ends that session and no other, ending the others every other |
| `SignIn.SignInTables.ConsumeLink` | src/admin/reset.rs:255-268 | one conditional update consumes a link exactly when it is unused, unexpired and its account enabled |
| `SignIn.SignInTables.IssueLink` | src/auth/reset.rs:12-34 | every older link of the account is marked used, then the new one added |
| `Lasting.LinkComesFrom` | src/admin/reset.rs:127-149 | a link is issued by the command, and by the form if and only if the account is an enabled maintainer with a password |
| `Lasting.NewLinkLasts` | src/admin/reset.rs:253-302 | a link issued at u sets the password it is submitted with if and only if t < u + 3600 and the account is enabled, over every run in which nothing ends links |
| `Lasting.LinksEndBy` | src/auth/mail.rs:41-49 | links end by a newer link, a set password or a given-up reset mail and nothing else |
| `SignIn.SignInTables.ExpireLinks` | src/auth/mail.rs:41-49 | no link of the account is valid at any time from here on, and links used before keep their time of use |
| `SignIn.SignInTables.EndAll` | src/auth/session.rs:262-266 | no session is valid and no device known at any time from here on, and every link is as valid as before |
| `SignIn.SignInTables.Retention` | src/jobs.rs:146-163 | deletes exactly the rows that are dead at the given time |
| `SignIn.KeptIsNewestTen` | src/auth/session.rs:230-243 | eviction keeps at most ten device cookies and drops none that is newer than a kept one |
| `SignIn.NewDeviceKept` | src/auth/session.rs:230-243 | a new device cookie survives its own eviction if and only if fewer than ten are dated after it |
| `Retention.RetentionIsInvisible` | src/jobs.rs:146-163 | over every interleaving of the account's transactions, none going by a time before an earlier retention, retention any number of times changes no report, verdict, confirmation result, session lookup or device check if and only if every confirmation that finds a nonce has a session live at the latest retention; then only dead rows are missing at the end |
| `Retention.LaterAnswersAlike` | src/auth/session.rs:230-258 | after such a run, for every time from the latest retention on, session lookups, link checks, device checks and the live device cookies left by evictions are what they would be without retention |
| `Retention.ShowsExactly` | src/jobs.rs:146-163 | whatever the clocks say, a transaction right after a retention run answers as without it if and only if every row it finds was live then |
| `Retention.ConfirmShowsExactly` | src/admin/account.rs:291-327 | a confirmation sees no retention at v if and only if its session was live at v, is not there, or has no nonce pending |
| `Retention.ConfirmMissesSession` | src/admin/account.rs:309-351 | with an ordered clock a retention run just before a confirmation makes it find nothing to confirm, where a wrong code would have been asked for again and the right one would have enrolled the account and forgotten its device |
| `Retention.SessionLifetime` | src/auth/session.rs:83-137 | a session used at u and then neither used nor ended is valid through u + 42,900 s, dead from u + 43,200 s and never valid from seven days after its login, over every run in between, retention included |
| `Retention.UseIsRecordedInVain` | src/auth/session.rs:90-135 | a retention run between a lookup's read and its record ends a session in use |
| `Retention.UseMissesSession` | src/auth/session.rs:90-135 | that race makes no difference at t if and only if nothing was to be recorded, retention came before the session's idle end, or the recorded use or the session has run out by t |
| `Accounts.MatchingStep` | src/auth/totp.rs:75-87 | the latest of three steps whose code is the text; none exactly when no step's is |
| `Accounts.FindMatchingStep` | src/auth/totp.rs:75-87 | the loop finds that step |
| `Accounts.StepCovers` | src/auth/totp.rs:49-51 | a step is its half minute, for negative times as well |
| `Accounts.TrimExactly` | src/auth/credentials.rs:272 | exactly the ASCII blanks at both ends of a typed code are dropped |
| `AccountTables.Tables.CountFailure` | src/auth/credentials.rs:292-350 | the two conditional updates count as specified, and a mail is queued exactly when a lock starts and the mail time reads now |
| `AccountTables.Tables.CodeAccepted` | src/auth/credentials.rs:265-288 | accepts exactly a later step or an unused recovery code and spends just that |
| `AccountTables.Tables.ReplaceCodes` | src/auth/recovery.rs:34-52 | the drawing loop ends with ten codes with different hashes, the only ones stored, all of them drawn |
| `AccountTables.Tables.DecideCheck` | src/auth/credentials.rs:218-261 | the transaction's decision is the specified one |
| `Guesses.CheckEnds` | src/auth/credentials.rs:218-261 | every check ends in exactly one of five ways: shut out with nothing changed, wrong and counted, sent to enroll, rolled back, or successful with the counters cleared |
| `Guesses.SignsInExactly` | src/auth/credentials.rs:130-261 | from read to commit with anything in between, a check succeeds if and only if it could read with the right password, the hash is the same at commit, nobody is shut out, the factor is met or not needed, and the action works |
| `AccountTables.Tables.Perform` | src/admin/account.rs:215-395 | each success action changes exactly the rows it should |
| `Lasting.PasswordIsChanged` | src/admin/account.rs:215-226 | the new password is stored and no session, device or link from before is good any more |
| `Lasting.OnlyTheseSetPasswords` | src/admin/reset.rs:253-302 | a password is set by a valid link or a successful change and nothing else |
| `Lasting.EnrollmentCompletes` | src/admin/account.rs:269-351 | a start followed by the right code enrolls that nonce, with its step spent, the drawn codes and this session alone |
| `Lasting.DrawnCodesWork` | src/auth/recovery.rs:22-61 | codes drawn afresh are the only ones and each is accepted in any case and spacing |
| `Lasting.DisablingEnds` | src/admin/account.rs:381-391 | no factor is asked for any more, no code is left and no device known |
| `Lasting.SuccessClears` | src/auth/credentials.rs:255-261 | a success clears both counts and the window and nothing else of the lock |
| `AccountTables.Tables.Check` | src/auth/credentials.rs:218-261 | decision and action together are one step; an action that fails leaves every row as it was |
| `AccountTables.Tables.SetPassword` | src/admin/account.rs:216-225 | a new password, no sessions, no devices, no unused link |
| `AccountTables.Tables.ConfirmTotp` | src/admin/account.rs:309-351 | tells nothing started, wrong code and enrolled apart; enrolling takes the pending nonce with the matched step as its last, shows ten codes and keeps only this session |
| `AccountTables.Tables.QueueResetLink` | src/admin/reset.rs:127-180 | issues a link exactly for an enabled maintainer with a password |
| `AccountTables.Tables.LinkSubmit` | src/admin/reset.rs:253-302 | sets the password exactly when the link is consumed, and then ends sessions, devices and other links |
| `AccountTables.Tables.UnlockAccount` | src/auth/commands.rs:72-88 | no request is blocked at any time from here on, the count starts over, and the time of the last lockout mail stays |
| `AccountRuns.LockoutLedger` | src/auth/credentials.rs:218-350 | over any run at any times, failures counted without a device = 10 per lock + those on the counter + those cleared; the counters stay below 10 and at most 20 |
| `AccountRuns.LocksApart` | src/auth/credentials.rs:312-329 | locks without an unlock between them start at least 900 s apart, also with unordered times |
| `Guesses.EveryTenthLocks` | src/auth/credentials.rs:239-253 | without a success or unlock, every tenth wrong guess of password or code at times when no lock runs starts a lock, over every run |
| `Guesses.TenthLeavesLocked` | src/auth/credentials.rs:312-329 | and leaves the account locked for exactly 900 s |
| `Guesses.LockKeepsOut` | src/auth/credentials.rs:96-105 | from a lock at t until an unlock no check without a known device going by a time before t + 900 succeeds or counts |
| `AccountRuns.MailsExactly` | src/auth/credentials.rs:318-350 | a failure mails if and only if it locks and the last mail is a day old, of this second, or there was none |
| `AccountRuns.OnlyOnce` | src/auth/credentials.rs:192-208 | a check is decided once and a session use recorded once |
| `AccountRuns.LockoutMailsApart` | src/auth/credentials.rs:312-350 | two lockout mails are of the same second or at least 24 h apart |
| `AccountRuns.LockoutMailsDayApart` | src/auth/credentials.rs:312-350 | without an unlock between them they are at least 24 h apart |
| `AccountRuns.MailKeepsDayWhen` | src/auth/credentials.rs:318-329 | a lock's mail keeps the 24 h if and only if the last mail is not of this second |
| `AccountRuns.LockoutMailRepeats` | src/auth/commands.rs:72-88 | twenty failing sign-ins of a fresh account with an unlock after ten send two lockout mails in one second |
| `AccountRuns.FailuresInSpan` | src/auth/credentials.rs:312-350 | in any stretch of any run without a success or unlock, failures counted without a device in a span of W seconds are at most 10 (floor(W/900) + 1) + 9 |
| `AccountRuns.DeviceLedger` | src/auth/credentials.rs:299-311 | over any run known devices get at most twenty counted failures per window, plus what the first window still took |
| `AccountRuns.WindowsApart` | src/auth/credentials.rs:299-311 | windows without a success or unlock between them start at least an hour apart, also with unordered times |
| `AccountRuns.DeviceFailuresInSpan` | src/auth/credentials.rs:299-311 | in any stretch of any run without a success or unlock, failures counted from known devices in a span of W seconds are at most 20 (floor(W/3600) + 1) and what the first window still took |
| `Guesses.WindowFills` | src/auth/credentials.rs:299-311 | while a window lasts its count is exactly the wrong guesses from known devices |
| `Guesses.WindowOpens` | src/auth/credentials.rs:299-311 | a window opens if and only if a known device guesses wrong and none is open, and counts that guess |
| `Guesses.TwentiethKeepsOut` | src/auth/credentials.rs:96-105 | twenty wrong guesses in a window opened at w keep known devices out until w + 3600 |
| `AccountRuns.StepsIncrease` | src/auth/credentials.rs:265-284 | within one enrollment every accepted step is later than all accepted before, in every interleaving (section 5.2 of RFC 6238) |
| `AccountRuns.CodesOnce` | src/auth/recovery.rs:34-61 | a spent or replaced recovery code never works again unless drawn again |
| `AccountRuns.SuccessMeans` | src/auth/credentials.rs:130-261 | whatever ran between read and commit, a check succeeds if and only if a check done at once at commit would, the verified hash is still the stored one, and its action works |
| `AccountRuns.FactorAccepted` | src/auth/credentials.rs:265-288 | a code is accepted if and only if it is the code of a near, later step or an unused recovery code |
| `AccountRuns.SuccessSpends` | src/auth/credentials.rs:239-261 | a success on an enrolled account spends a factor and clears the counters, not the lock; anything else, a failed action too, spends nothing |
| `AccountRuns.PasswordEffect` | src/admin/reset.rs:253-302 | a password changes only where the run's log says so, and a submitted link sets its password exactly when valid |
| `AccountRuns.SignInsEnd` | src/auth/session.rs:260-266 | once a password is set no earlier session is valid, and after that or a change of enrollment no earlier device cookie is known, in every later run |
| `AccountRuns.AtMostOneUnusedLink` | src/auth/reset.rs:12-34 | two unused reset links of one account never exist together, in any reachable state |
| `AccountRuns.LinksEnd` | src/admin/reset.rs:253-302 | once it is used, a newer link issued, a password set or a reset mail given up, a link sets no password again |
| `Isolation.StrangerWritesLockOnly` | src/auth/credentials.rs:312-350 | a failing check without a known device writes only the three lock fields |
| `Isolation.KnownReadsNoLock` | src/auth/credentials.rs:96-112 | a check with a known device reads none of them |
| `Isolation.DeviceIsolation` | src/auth/credentials.rs:96-350 | no run of failing checks without a known device changes how any check with one ends, nor anything but the lock fields |
| `Outbox.OutboxTable.Enqueue` | src/mail/outbox.rs:105-140 | a new id, every other row as before, due at once, and unexpired if and only if its kind has a positive lifetime |
| `Outbox.OutboxTable.GiveUp` | src/mail/outbox.rs:163-186 | deletes an unsent row with a token, marks any other, ends the links of a reset mail's account; nothing for a row with an outcome |
| `Outbox.OutboxTable.GiveUpExpired` | src/mail/outbox.rs:189-205 | the loop gives up exactly the rows past their deadline, in any order |
| `Outbox.OutboxTable.PickRow` | src/mail/outbox.rs:229-267 | expired rows given up, due placeholders deleted, then the first due row or the earliest next attempt |
| `Outbox.OutboxTable.Record` | src/mail/outbox.rs:277-325 | records an attempt: sent, retried before the deadline, or given up; a row gone meanwhile stays gone |
| `Outbox.OutboxTable.Retention` | src/jobs.rs:124-130 | only unsent rows before their deadline are left |
| `OutboxRuns.OutboxIsSound` | src/mail/outbox.rs:105-325 | in every run every unsent row's next attempt is before its deadline and no row with a token carries an outcome |
| `OutboxRuns.LifetimesMatter` | src/mail/outbox.rs:105-145 | queuing keeps that if and only if the kind has a positive lifetime, as all declared kinds have |
| `OutboxRuns.AttemptMeans` | src/mail/outbox.rs:229-259 | a picked row is unsent, due, no placeholder and before its deadline, and no due security row is passed over |
| `OutboxRuns.IdleMeans` | src/mail/outbox.rs:259-267 | an idle time is after now, the earliest next attempt, and before every waiting row's deadline, so sleeping until then loses no row |
| `OutboxRuns.LeavesWhenDone` | src/mail/outbox.rs:163-325 | a row stops being unsent only by being sent, with no attempt left before its deadline, or as a due placeholder |
| `OutboxRuns.FinishMeans` | src/mail/outbox.rs:277-325 | an attempt sent or without time left ends its row, deleted with a token and marked otherwise; with time left it is retried after exactly the next delay; no other row is touched |
| `OutboxRuns.ExpiredRowsEnd` | src/mail/outbox.rs:189-240 | after a pick or retention no row past its deadline is unsent and no placeholder due |
| `OutboxRuns.DeliveredOnce` | src/mail/outbox.rs:297-305 | once recorded as sent a row is never unsent, attempted or sent again in any later run |
| `OutboxRuns.AtMostOneDelivery` | src/mail/outbox.rs:277-325 | over every run a row is recorded as sent at most once |
| `OutboxRuns.StartIsPaced` | src/mail/outbox.rs:105-140 | an empty outbox meets what the lemmas on attempts start from |
| `OutboxRuns.AttemptStarts` | src/mail/outbox.rs:147-154 | the n-th attempt, n at least 4, starts no earlier than 2160 + 7200 (n - 4) s after queuing and before the deadline; n is at most 15 |
| `OutboxRuns.LeftDecreases` | src/mail/outbox.rs:277-325 | every recorded attempt uses up one of fifteen and nothing gives one back: the retry loop's termination measure |
| `OutboxRuns.AtMostFifteenAttempts` | src/mail/outbox.rs:277-325 | over every run with attempts ending no earlier than they start, a row has at most fifteen recorded attempts |
| `Server.AccountsRunAlone` | src/mail/outbox.rs:163-186 | every account in the server goes through a run of its own machine, mail give-ups included |
| `Server.MailRunsAlone` | src/mail/outbox.rs:105-140 | the outbox goes through a run of its own, fed by the accounts' mails |
| `Server.MailsMatch` | src/auth/credentials.rs:334-350 | over every run of the server an account's mails are one for each lockout to be mailed, one for each password set and one for each link the form issued |
| `Server.QueuedAtItsTime` | src/admin/account.rs:227-239 | a mail's lifetime counts from the time its transaction went by |
| `Server.EveryRequestQueues` | src/admin/reset.rs:127-180 | a reset asked for queues one row of the same shape whether or not the account exists or may have a link |
| `Server.WarningsGoFirst` | src/mail/outbox.rs:240-257 | over every run a reset mail is attempted only when no lockout or password-changed mail is waiting and due |
| `Server.EndedExactly` | src/auth/mail.rs:15-49 | a worker's or retention's transaction ends an account's links if and only if it gives up a reset mail of that account |
| `Server.LinkSurvivesExactly` | src/auth/mail.rs:39-49 | an unused link outlives such a transaction if and only if no reset mail of its account is given up, whichever link it carried |
| `Server.GivenUpLinkNeverWorks` | src/mail/outbox.rs:163-186 | once a reset mail of an account is given up, no link the account had works in any later run of the server, at any time, unless the same token is issued again |
| `Server.OlderMailEndsNewerLink` | src/auth/mail.rs:39-49 | an older mail's expiry ends a newer link whose own mail still waits |
| `Hosts.ParseHost` | src/projects/mod.rs:124-137 | nothing typed is no domain; otherwise exactly a dotted DNS name other than the main host is accepted, in lower case, and each refusal has its reason |
| `Hosts.ProjectsTable.CreateProject` | src/projects/mod.rs:282-320 | creates unless slug or domain is taken |
| `Hosts.ProjectsTable.UpdateProject` | src/projects/mod.rs:324-365 | replaces the settings unless missing, unchanged or the domain is taken |
| `Hosts.ChangesKeepSound` | src/projects/mod.rs:268-375 | slugs and domains stay distinct and none is the main host; a refused change changes nothing |
| `Hosts.ChangesDo` | src/projects/mod.rs:282-375 | a created project is there under a new id, an updated one has its new settings and old slug, a deleted one is gone, and no other is touched; refusals have exactly their reasons |
| `Hosts.Load` | src/routing/hosts.rs:95-111 | the loop builds the map of the rows |
| `Hosts.LookupSearchesTable` | src/routing/hosts.rs:84-111 | with a sound table a lookup answers as a direct search of the table, for every host and row order |
| `Hosts.DomainSearchesTable` | src/routing/hosts.rs:89-111 | the domain of a slug is exactly its project's |
| `Hosts.RowOrderDoesNotMatter` | src/routing/hosts.rs:95-111 | any two row orders give the same map |
| `Hosts.MainAnswersUnlessClaimed` | src/routing/hosts.rs:62-78 | the main host answers as itself if and only if no project claims it |
| `HostWatch.StepKeepsSound` | src/routing/hosts.rs:143-190 | every commit, refresh, tick or failure keeps the published map genuine and never moves it back |
| `HostWatch.PublishedIsCommitted` | src/routing/hosts.rs:143-190 | in every interleaving the published map is the load of a committed table, never older than before, and of the current one whenever the watcher's version is current |
| `HostWatch.RefreshPublishes` | src/routing/hosts.rs:143-151 | a refresh that finishes leaves, then and ever after, a map no older than the table current when it began |
| `HostWatch.TickPublishes` | src/routing/hosts.rs:155-178 | a tick that finishes has seen the version it began with, and the map is no older |
| `HostWatch.TickRoutes` | src/routing/hosts.rs:155-178 | with no commit since it began, requests are then routed by the current table |
| `HostWatch.AfterIsSound` | src/projects/mod.rs:268-375 | every committed change, with the domain as typed, leaves a sound table |
| `HostWatch.StartIsSound` | src/routing/hosts.rs:95-124 | a sound table with the map loaded from it is where runs start |
| `HostWatch.CurrentWatcherRoutes` | src/routing/hosts.rs:155-190 | after any run an up-to-date watcher routes exactly as a search of the current table, which is sound |
| `ReaderPool.StepKeepsSound` | src/db/mod.rs:187-220 | no step of a reader panics, and permits and connections are conserved |
| `ReaderPool.PoolIsSafe` | src/db/mod.rs:131-148 | in every interleaving a permit holder finds a connection, and pooled plus held ones are always all readers |
| `ReaderPool.PermitFirstPanics` | src/db/mod.rs:142-145 | released before its connection, a permit would let another reader find the pool empty |
| `ReaderPool.ReadRestoresPool` | src/db/mod.rs:131-148 | a read alone gets a connection and leaves the pool as it found it |
| `ReaderPool.StartIsSound` | src/db/mod.rs:90-105 | a pool starts with every permit free and every reader pooled |
| `ReaderPool.Readers.AcquirePermit` | src/db/mod.rs:137-140 | takes one permit |
| `ReaderPool.Readers.ReleasePermit` | src/db/mod.rs:142-145 | gives the permit back once the connection is back |
| `ReaderPool.Readers.TakeConnection` | src/db/mod.rs:193-204 | pops a connection without panicking |
| `ReaderPool.Readers.PutConnectionBack` | src/db/mod.rs:211-220 | pushes the connection back |
| `Schedule.Schedule.Due` | src/jobs.rs:57-72 | each due job once however late, rescheduled to its own next slot |
| `Schedule.NextSlotIsFirst` | src/jobs.rs:57-72 | that slot is the first of its grid after now |
| `Schedule.Schedule.NextWake` | src/jobs.rs:74-76 | the earlier of the two next times |
| `Calendar.CivilInverse` | src/time.rs:14-26 | every day gives a valid date whose day number is that day |
| `Calendar.CivilOfDayNumber` | src/time.rs:14-26 | every valid date is the date of its day number |
| `Calendar.CivilIsTheCalendar` | src/time.rs:14-26 | day 0 is 1970-01-01 and each next day is the calendar's next date, for every integer |
| `Calendar.FormatOrder` | src/time.rs:14-32 | from year 0 through 9999 the texts are ordered exactly as the minutes |
| `Calendar.FormatReadsBack` | src/time.rs:27-31 | from year 0 through 9999 the text has its fixed form and its numbers are the date, hour and minute |
| `Base32.Encode` | src/auth/mod.rs:59-78 | the wrapping 16-bit buffer emits the bits in groups of five, the last filled with zeros (section 6 of RFC 4648), so ceil(8n/5) digits |
| `Base32.DecodeUndoesEncode` | src/auth/mod.rs:59-78 | decoding an encoding gives back the bytes, for every byte string |
| `Base32.EncodingIsUnique` | src/auth/mod.rs:59-78 | a byte string has one encoding |
| `RecoveryCodes.NormalizeReadsTyped` | src/auth/recovery.rs:22-30 | input is read as a code if and only if it types that code in any case with spaces and hyphens anywhere |
| `RecoveryCodes.DisplayReadsBack` | src/auth/recovery.rs:15-30 | a shown code reads back as itself |
| `RecoveryCodes.CodeOfTenBytes` | src/auth/recovery.rs:15-48 | ten bytes give a code that reads back as itself in any case and spacing and still holds all eighty bits |
| `MacInput.MacInputOf` | src/keys.rs:44-52 | the loop feeds each part after its big-endian length, and panics exactly for a part of 4 GiB or more |
| `MacInput.MacInputInjective` | src/keys.rs:33-52 | equal MAC inputs have equal purposes and equal fields |

## Left out

- HTTP handlers, headers, cookies, CSRF, templates, the server loop and hashing permits (a busy answer changes no row).
- SMTP, TLS, message building, recipient validation and mail texts; an outbox row keeps only what decides its fate.
- argon2, HMAC, SHA-256, TOTP codes and random sources are function parameters or given values; digests stand for tokens, so two different tokens with one digest are not told apart.
- Freshness of random tokens: the lemmas about codes and links say "unless drawn or issued again" instead.
- Backup, restore, migrations, configuration, command-line grammar, audit log, counters, logging and stale temporary files.
- Integer widths and `Duration` overflow: times and counters are unbounded integers; base32's 16-bit buffer and the 32-bit MAC lengths are modelled.
- An account is named by its id and its rows are grouped under it; look-up by email, and an account deleted during a check, are not modelled. No code at this commit creates, disables or deletes accounts.
- Ids of outbox rows, accounts and projects are never reused, as the schema says. Ids of device cookies may be, which only keeps their order; the model counts them up.
- SignIn.SignInTables.RecordUse: names the session by its token, as all account runs do, while the source updates by row id; SessionIds.IdMeansTokenExactly says when that is the same. The schema does not keep a session id from being given out again.
- `disable_totp` and `regenerate_codes` refuse some roles and accounts before the check; the runs here also contain the refused ones.
- The trim in `confirm_totp` is Unicode-aware; `Accounts.Confirm` takes the text after trimming.
- Retention.RetentionIsInvisible: assumes that no transaction goes by a time before an earlier retention run, and that no session token is given out while a lookup carries the same one; without the first, Retention.ShowsExactly and Retention.UseMissesSession say when a difference shows.
- RateRuns.SpanBound: assumes requests reach the limiter's lock in the order of their times.
- The worker's and the watcher's sleeping, waking and stopping are any order of their events.
- `normalize` and `request_host`, which take the port off a request's host and lower its case before the lookup.
