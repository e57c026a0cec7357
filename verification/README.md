# Remote unlock, verified

A Dafny model of the remote-unlock service: a phone proves over a mutually authenticated WebSocket that its
owner wants the laptop unlocked, the listener turns that proof into a short-lived single-use grant, and a PAM
helper claims the grant at the login prompt. The model covers the v2 protocol of the Linux listener with its
lockouts, its device registry and its hash-chained audit log, and the nonce table and rate limiter of the
Windows listener.

## How it is modelled

`asyncio` runs each stretch of code between two awaits without interruption. `Service` gives each stretch of a
WebSocket session and of a PAM request as a function of the shared state and of what the stretch reads (message,
clock, drawn nonce, configuration file, which audit records can be written), and a class `UnlockService`
whose methods update the shared objects in place and are proved equal to those functions. `Protocol` interleaves
any number of sessions, PAM requests, honest phones, PAM helpers and edits of the configuration file, in any
order, over that one state, and the theorems about runs hold for every sequence of enabled steps.

- The network is free: every message a session or a phone reads is arbitrary, messages may be lost, duplicated
  or swapped between sessions, and connections may drop at any await. The one restriction is on signatures: one
  that verifies under a key held honestly is over a text that the holder signed earlier in the run. Verification is
  a relation, so a text may have many valid signatures and encodings.
- Device keys outside the honest set and their signatures are unrestricted, and the honest keys may include the
  laptop's own.
- Nonces are fresh 32-digit hex strings, the clock is a real number that never goes back, and each stretch reads
  it once.
- The configuration file is edited by other processes, which no `await` holds up: `pair.py` commands and edits of
  the settings fall anywhere, also inside a reload, before it reads the text or between that and its second `stat`.
  Each edit replaces the file as a whole and leaves any modification time, also one that the file had before. The
  service starts with the configuration that is on disk.
- Recording raises or not, separately for the records of the session's own code and for the rejection that the
  exception handler records; what the phone is told is part of the state.
- The audit log is a text, and a write may stop anywhere in a line. SHA-256 is a parameter: any function from texts
  to 64 hex digits. Tamper evidence is a reduction that names two colliding texts, so nothing is assumed about the
  function. JSON is a concrete printer and parser: the parser is proved to read exactly the grammar of sections 2 to
  7 of RFC 8259, for integers, and the printer to choose the one compact text of each value.
- Imperative parts are classes: `Backoff`, `GrantBroker`, `Config`, the two `UnlockService` classes and `AuditLog`
  update their fields and are proved against functions of the old state. The laws are lemmas about those functions,
  stated from the outside: by clock times, by the full history, by a reader of the printed text, or by exactly when
  each answer is given.

| file | what it holds |
|---|---|
| `Prelude.dfy`, `Text.dfy` | options, extrema; decimal printing, splitting and joining |
| `Wire.dfy` | the signed text and its unique readability |
| `Backoff.dfy`, `BackoffLaws.dfy` | the lockout table, its pruning, and its time budget |
| `Broker.dfy` | the grant slot and its waiting coroutines |
| `Registry.dfy` | the device registry and the configuration object |
| `Challenges.dfy` | the table of pending nonces, and its refinement of the full history |
| `Client.dfy`, `PamHelper.dfy` | the honest phone; the PAM helper's reply loop |
| `Service.dfy`, `ServiceFacts.dfy` | the stretches of sessions and PAM requests |
| `Gates.dfy` | what lets a session through each gate, and what its phone is told where it ends |
| `Protocol.dfy`, `StepFacts.dfy` | the interleaved system and its runs |
| `Agreement.dfy`, `MutualTls.dfy` | injective agreement; authorisations and pinned certificates |
| `EndToEnd.dfy` | from the phone to the PAM helper's yes |
| `Grants.dfy`, `Patience.dfy` | conservation of grants and wakeups over runs; how long requests wait, and for what |
| `Lockouts.dfy`, `Leaks.dfy` | open sessions, and guesses during a lockout; when there are none |
| `Answers.dfy` | what phones are told |
| `GuessBudget.dfy` | what each stretch charges, and how much time guessing takes over runs |
| `Revocations.dfy` | revocation over runs, and how one is missed |
| `HonestRun.dfy` | the undisturbed unlock goes through, from pairing and from hello to yes |
| `Json.dfy`, `JsonLaws.dfy` | canonical JSON and its parser |
| `JsonGrammar.dfy`, `JsonCompact.dfy` | the grammar that the parser reads, and what the printer chooses from it |
| `TornJson.dfy`, `JsonPieces.dfy` | what the parser makes of pieces of objects, alone and behind other text |
| `Audit.dfy`, `AuditLaws.dfy`, `AuditVerdicts.dfy` | the hash chain and its laws; the exact verdict on any text |
| `TornLines.dfy`, `Histories.dfy` | logs that end in a torn line; all histories of appends and restarts |
| `Windows.dfy` | the Windows nonce table and sliding-window limiter |

`dafny verify dfyconfig.toml` checks the whole project.

## Where the obvious statement is false

- A revocation on disk does not always bind the next session. `reload` reads the text and then takes a second
  `stat`; if the file is replaced in between, or by a file with the same modification time, the service remembers
  the time of a file it has not read. `RacedRevocation` is such a run, after which nothing is loaded until the next
  edit, and in `RevocationMissed` a phone that is revoked on disk is authorised. `RevocationBinds` has the exact
  condition: the file shows another time than the service remembers, or the revocation was loaded before.
  `RevocationTakesEffect` gives a discipline that ensures it; `RevokedNeverAuthorised` needs none.
- A log that does not verify stays so under every extension only while the fault lies in a line that has its
  newline (`FailureIsFinal`). `BlankLineHeals` is a log that fails and verifies after the next entry;
  `AppendKeepsFailure` says exactly when an appended entry leaves the verdict alone.
- What `append` wrote does not always verify. It advances the sequence number before it writes, the head only after
  the line has been written, synced and closed, and it does not look at how much `os.write` wrote.
  `AppendRestartVerify` says exactly which histories of appends and restarts verify, and what is reported otherwise.
- The Windows limiter records an unknown action before it asks whether the rate is exceeded.
  `UnknownActionsUnlimited` records any number of failures at one instant; `SixFailuresExactly` says when six
  failures in a row span the window; behind the dispatch of `handler` they always do.
- The Windows table is purged at an age of ten seconds while `verify` still takes a nonce of exactly ten
  seconds. `PurgeBoundary` shows the two outcomes; `AcceptedExactly` has the exact condition for all attempts.
- A phone that is told no may have its grant, which is issued before the audit write. `NoDespiteGrant` is such a
  run, and `ToldExactly` the exact condition: the response was accepted, recording that raised, and recording the
  rejection did not. A yes is always true (`YesIsTrue`).
- A running lockout does not stop all guesses: it gates a session before its challenge only. `EmptyGuess` is a
  response that any session waiting for one can still bring. `LockoutLeaks` says when none gets through: exactly
  when no session of the key comes to wait for a response, and for a device exactly when no session was past the
  gate at the start. `GuessesDuringLockout` bounds the guesses, and `GuessesTakeTime` adds that to the lockouts.
- Not every failure charges the device. `ResponseCharges` and `HelloCharges` have the exact bill of each case: a
  timeout, an unreadable message or a check that raises costs the IP alone, and a rejection that cannot be recorded
  costs the IP twice.

The source and its documentation disagree in places; the model follows the code. The Windows listener calls its
nonce lifetime, rate limiting and verification identical to the Linux ones, but it signs no device or target
identity and limits by a sliding window instead of a lockout. The comment on the anchor of the audit log says that
it detects truncation, but a log file that does not exist verifies under every anchor.

## Model

| member | source | states |
|---|---|---|
| Wire.ReadsBack | common.py:54-62 | Splitting the signed text at its separators and reading the number back recovers role, nonce, integer time, device and target, for all inputs that `signed_message` accepts, including identifiers that end in a newline. |
| Wire.SignedBytesInjective | common.py:33-62 | Equal signed texts come from equal fields; hence no challenge text is a response text. |
| Wire.SignsExactly | common.py:54-61 | A text is formed exactly for the two roles and for a nonce and identifiers that match their patterns. |
| Wire.IdPattern | common.py:33-33 | An identifier matches exactly when it has 1 to 63 characters of the alphabet, not a hyphen first, not counting one final newline. |
| Wire.NoncePattern | common.py:34-34 | A nonce matches exactly when it has 32 lower-case hexadecimal digits, not counting one final newline. |
| Client.UnlockExactly | client_example.py:46-53 | The phone signs exactly when the challenge is for its target and carries the laptop's signature over itself, and what it signs reads as the response with the challenge's nonce and time and its own device and target. |
| Backoffs.Backoff.RemainingTime | listener.py:58-60 | The seconds left of a key's lockout, zero for an unknown or expired one. |
| Backoffs.Backoff.RecordFailure | listener.py:62-79 | The whole table after a failure, quiet reset, doubling, cap and pruning included, and whether a lockout started. |
| Backoffs.Backoff.Success | listener.py:81-82 | A success forgets the key and nothing else. |
| Backoffs.Backoff.Prune | listener.py:84-87 | The loop removes exactly the keys that are unlocked and quiet. |
| BackoffLaws.PruningInvisible | listener.py:62-87 | Over every call sequence a pruning table answers every call, and every question about any key at any later time, as one that never prunes. |
| BackoffLaws.LockoutsBounded | listener.py:58-79 | In every run no key is locked for longer than the maximum. |
| BackoffLaws.SoundRun | listener.py:62-79 | In every run each entry has fewer failures than the threshold, and its lockout ends at most the maximum after its last failure. |
| BackoffLaws.KeysIsolated | listener.py:58-87 | A call about one key leaves the remaining lockout of every other key as it was, pruning included. |
| BackoffLaws.TimeBudget | listener.py:62-79 | From any table with a sound entry, or none, of the key: in a stretch without success, in which each failure but the first comes at most the quiet time after the one before or while the last lockout runs, lockouts overlap neither each other nor the one running at the start, the i-th lasts exactly `min(base * 2**(l0 + i), max)` for the level l0 that the first failure finds, and k+1 of them span at least the sum of the first k lengths, from l0 on and hence from 0 on. |
| BackoffLaws.LapsedForgets | listener.py:62-72 | And a stretch goes no further: more than the quiet time after its last failure and with its last lockout over, every later call about the key is answered as if it had never failed. |
| BackoffLaws.SuccessForgets | listener.py:81-82 | After a success every later call about the key is answered as if it had never failed. |
| BackoffLaws.LargeTablesArePruned | listener.py:77-87 | A counted failure that starts no lockout leaves a table of more than 2048 keys without entries that have lapsed. |
| BackoffLaws.DurationExactly | listener.py:74-75 | The length of a lockout: `base * 2**level` up to the maximum, and the maximum above. |
| BackoffLaws.LockoutRuns | listener.py:58-79 | In such a stretch the remaining time is what is left of the last lockout of exactly that length, or of the one running at the start. |
| BackoffLaws.FailuresPerLockout | listener.py:73-77 | In such a stretch the failures counted, together with those that the first failure finds, divided by the threshold, are the lockouts started. |
| BackoffLaws.TotalUncapped | listener.py:74-75 | While uncapped, the first k lockout lengths add up to `base * 2**k - base`. |
| BackoffLaws.DoubledIsPower | listener.py:75-75 | The doubling used for lengths is `base * 2**n`. |
| BackoffLaws.GuessingCost | listener.py:62-79 | While uncapped, getting threshold * (k + 1) failures counted takes at least `base * 2**k - base` seconds, whatever the table holds at the start: guesses are logarithmic in time. |
| Broker.GrantBroker.IssueGrant | listener.py:99-101 | Issuing overwrites the slot, sets the event and wakes everyone queued on it. |
| Broker.GrantBroker.LoopOnce | listener.py:103-119 | One pass of the loop of `consume`, from the clock reading to returning or suspending. |
| Broker.PassKeepsAwake | listener.py:103-119 | A pass takes the grant exactly when one is live, leaves none behind for any later time, suspends only before its deadline, and keeps the wakeup invariant. |
| Grants.NoLostWakeups | listener.py:94-119 | The same in every reachable state of every interleaving with sessions, timeouts and restarts of waiting. |
| Patience.TurnsExactly | listener.py:103-119 | In every run, each turn of a request for the configured user takes the grant exactly when one is live and its wait has not timed out, and is then answered yes if that can be recorded; otherwise it is answered no exactly when `pam_wait` has passed since it asked, and goes on waiting if not. |
| Patience.NoIsPatient | listener.py:103-119 | In every run, no request for the configured user is answered no before it has waited `pam_wait` seconds, unless recording its grant raised. |
| Patience.GatesExactly | listener.py:288-300 | Only an allowed uid gets to ask, and only for the configured user; whoever is stopped is answered no and takes nothing. |
| Patience.GrantReachesWaiter | listener.py:94-119 | In every reachable state, a waiting request that wakes while a grant is live takes it, and its helper says yes. |
| Patience.LoginWaitsForPhone | listener.py:237-312 | A login that finds no grant waits; an unlock that follows grants it, and its helper says yes if it wakes before that grant is over. |
| Registry.Config.ReloadIfChanged | common.py:185-199 | A missing or unparsable file and one with the known modification time keep the last good configuration; otherwise what was read is taken, and remembered under the time of the second `stat`, which may be that of a later file. |
| Registry.Config.ByFingerprint | common.py:215-219 | The loop finds the first enabled device with that certificate, or none exists. |
| Registry.Config.ById | common.py:221-225 | The loop finds the first enabled device with that id, or none exists. |
| Registry.Config.AddTo | pair.py:144-174 | A new device is appended enabled, unless its name is bad, already registered (revoked or not), or its key is refused. |
| Registry.Config.RevokeIn | pair.py:181-189 | The first record with the name is disabled in place and nothing else changes; failure when there is none. |
| Registry.RevokedForever | pair.py:150-189 | Over every command sequence ids stay pairwise distinct, and a revoked id stays registered, disabled and out of both lookups. |
| Registry.RevokeFrame | pair.py:181-189 | A revocation succeeds exactly when the id is registered, takes it out of the lookup, and leaves every lookup of other ids and other fingerprints as it was. |
| Registry.AddFrame | pair.py:150-174 | Pairing succeeds exactly for a proper name that no record carries and a good key. Then the device is found under its id with that key and certificate and, unless an enabled one shares it, under its fingerprint; every record stays and every other lookup is as it was. A pairing that fails changes nothing. |
| Registry.FirstById | common.py:221-225 | The lookup takes the first enabled record with the id, and finds none exactly when there is none. |
| Registry.FirstByFingerprint | common.py:215-219 | The same for fingerprints. |
| Registry.EditsKeepRevoked | pair.py:150-189 | No sequence of commands and of edits of the settings, with whatever modification times, brings a revoked device back. |
| Registry.EditsExactly | pair.py:150-189 | Edits leave the settings that were edited last, and the devices as the commands alone leave them. |
| Revocations.RevokedNeverAuthorised | listener.py:188-260 | In every run, once the service has loaded a configuration that revokes a device, no session that starts later is authorised for it, whatever commands and messages follow. |
| Revocations.LoadsExactly | common.py:185-199 | A session loads nothing unless it is admitted, can read the file and sees another modification time than the one remembered; then the service has the whole configuration as it was when it was read, settings and devices, under the time that the file showed afterwards. |
| Revocations.RevocationBinds | common.py:185-199 | In every run, a session that is admitted and can read the file loads a revocation on disk if and only if the file shows another modification time than the one remembered, or the revocation was loaded before; then neither this session nor a later one is authorised for the device. |
| Revocations.RacedRevocation | common.py:185-199 | For every configuration a device that is revoked between the reading and the second `stat` of a reload is revoked on disk and enabled in the service, in every continuation without another edit. |
| Revocations.RevocationMissed | common.py:185-199 | Whenever the file shows the remembered modification time, a phone that is revoked on disk only is authorised by its four steps. |
| Revocations.RevocationTakesEffect | common.py:185-199 | As long as no edit falls between the reading and the second `stat` of a reload and modification times rise, a revocation on disk binds the first admitted session that can read the file, and every session after it. |
| Service.UnlockService.IssueChallenge | listener.py:136-148 | Purge, bound and storing in place; a challenge whose text cannot be formed stays stored although it raises. |
| Service.UnlockService.CheckResponse | listener.py:150-165 | The presented nonce is burned whoever presents it, and the verdict is the first check that fails, in the order of the code. |
| PendingLaws.PendingRefinesHistory | listener.py:136-165 | With a constant lifetime a response is accepted exactly when its nonce was issued to this device, never presented before by anyone, is in time and properly signed; a challenge is refused exactly when 64 unpresented ones are in time, and the table never exceeds 64. |
| PendingLaws.VerdictExactly | listener.py:136-165 | With a constant nonnegative lifetime every response gets the verdict due by the full history: unknown exactly when the nonce was never issued, was presented before, or was out of time when a challenge was last asked for; expired when it ran out since; and malformed, another device's, raising, badly signed or accepted as the record and the signature say. |
| Service.UnlockService.FailInSession | listener.py:225-235 | A rejection charges the IP and, when named, the device; when recording raises, the handler charges the IP once more. |
| Service.UnlockService.SessionOpens | listener.py:181-188 | Admission below the connection limit, the count, the reload, and the session up to its first await. |
| Service.UnlockService.SessionBegins | listener.py:237-251 | The IP gate, the pinned certificate and the mutual TLS requirement. |
| Service.UnlockService.HelloArrives | listener.py:253-269 | Every way a hello can end: dropped, malformed, unknown or mismatched device, locked device, full table, or a challenge sent. |
| Service.UnlockService.ResponseArrives | listener.py:270-282 | Every way a response can end; a success clears both lockouts and issues the grant before the audit write. |
| Service.UnlockService.SessionEnds | listener.py:189-198 | A session leaves the count once; a late lockout record that raises charges the IP. |
| Service.UnlockService.PamLineArrives | listener.py:295-305 | Only the configured user reaches the broker; a failing audit write after a grant turns the reply into a no. |
| Service.UnlockService.PamWaitBegins | listener.py:115-117 | The wait returns at once when the event is set, and queues otherwise. |
| Service.UnlockService.PamWaitReturns | listener.py:109-119 | A woken request passes through the loop again. |
| Service.UnlockService.PamWaitTimesOut | listener.py:115-119 | A wait that times out leaves the queue, and the request is answered no. |
| Service.UnlockService.PamConnects | listener.py:291-294 | Only an allowed uid gets to send its request line. |
| Gates.OpenExactly | listener.py:181-251 | A session is refused exactly at the limit, and gets to say hello exactly when its IP is not locked and its certificate is known or none is required; what it is told otherwise. |
| Gates.HelloExactly | listener.py:253-269 | A hello is answered with a challenge exactly when it names the device of the certificate, or without one a registered device, that is not locked, fewer than 64 challenges are in time, and the text can be formed; what the phone is told otherwise. |
| Gates.ResponseExactly | listener.py:189-282 | What the phone is told in the end, by the verdict and by which records raise, and exactly when a lockout record is owed. |
| ServiceFacts.ToldExactly | listener.py:189-282 | A response issues a grant exactly when it is accepted; its phone is told yes exactly when that is recorded too, and told no in spite of the grant exactly when recording the acceptance raised and recording the rejection did not. |
| Answers.YesIsTrue | listener.py:270-282 | In every run a phone that is told yes was authorised in that very session. |
| Answers.NoDespiteGrant | listener.py:189-282 | An honest unlock whose acceptance cannot be recorded ends with a phone that is told no and a grant of the whole lifetime. |
| Agreement.InjectiveAgreement | listener.py:136-282 | In every run each authorisation, under whatever key, used up an earlier challenge to its device, no older than the lifetime in force, and no two the same; each one under an honest key rests on a distinct run of an honest phone with that key, which verified the laptop's signature over the same nonce, time, device and target before signing; and every phone run, used or not, was prompted by such a challenge. |
| EndToEnd.YesNeedsPhone | listener.py:136-312 | If only keys of honest phones are ever registered, then in every run each yes of a PAM helper goes back, through its own grant and authorisation, to its own run of an honest phone and its own challenge, issued less than the challenge's lifetime and the grant's together before the grant was taken. |
| MutualTls.AuthorisedByCertificate | listener.py:242-260 | While every configuration requires mutual TLS, each authorisation belongs to a session whose peer showed the certificate pinned to the authorised device. |
| Grants.GrantConservation | listener.py:94-312 | In every run each yes of a PAM helper rests on a grant that an earlier authorisation issued and its own request took within the grant's lifetime, for an allowed uid and the configured user; different yeses rest on different authorisations; and whether or not a yes comes of it, each request that takes a grant takes that of an authorisation of its own. |
| Grants.NoMoreYesesThanAuthorizations | pam_unlock_helper.py:28-46 | In every run the helpers say yes at most as often as sessions were authorised. |
| Lockouts.ActiveCountsSessions | listener.py:181-198 | In every run the counter equals the number of open sessions and never exceeds the highest limit a session was admitted under. |
| Lockouts.GuessesDuringLockout | listener.py:200-275 | From the start of a lockout of an IP or a device until it expires or a success clears it, fewer responses are checked for that key than connections are allowed. |
| Lockouts.GuessesUseUpArmed | listener.py:237-275 | While a lockout lasts, every checked response uses up a session that had passed the gate before. |
| Leaks.GuessExactly | listener.py:270-275 | A step checks a response for a key exactly when it brings a response, of whatever content, to a session of the key that waits for one; then it checks one. |
| Leaks.LockoutLeaks | listener.py:200-275 | A running lockout lets no guess through in any continuation exactly when no session of its key comes to wait for a response while it lasts; that is so when no session was past the gate at its start, and for a device only then. |
| GuessBudget.GuessesTakeTime | listener.py:50-282 | Over the whole protocol, from any reachable state and for any IP or device: while no success clears it and each charge after the first comes at most the quiet time after the one before or during a lockout, (threshold + connections) * (k + 1) responses checked for it take at least as long as k consecutive lockouts, so at least the first k, so at least `base * 2**k - base` seconds while uncapped. |
| GuessBudget.RunSound | listener.py:62-87 | In every reachable state every IP and device has failed less often than the threshold since its last lockout. |
| GuessBudget.ResponseCharges | listener.py:189-282 | The tables after a response are exactly the old ones with its bill: nothing when the connection drops, the IP once when the message is late or unreadable or its check raises, IP and device for a wrong type and for each verdict that rejects, the IP once more when recording that raises, and for an acceptance both cleared, and the IP charged when recording it raises. |
| GuessBudget.HelloCharges | listener.py:237-269 | The tables after a hello are exactly the old ones with its bill, which is never a device's: the IP once for a malformed message or a challenge that cannot be made, once or twice for a rejection, and for a locked device only when recording that raises. |
| GuessBudget.OpenBilled | listener.py:181-251 | The tables after opening a session are exactly the old ones with its bill: nothing at the limit or when it gets to say hello, the IP for a missing certificate, and for a locked IP only when recording that raises. |
| GuessBudget.FinishBilled | listener.py:189-198 | The end of a session charges the IP exactly when a lockout record is owed and raises. |
| GuessBudget.EveryStepPays | listener.py:181-282 | In any step of the system that does not clear it, a key's entry is untouched, pruned if it was quiet, or exactly what the step's failures make of it; and a step that judged a guess of the key charges it at least once. |
| HonestRun.HonestUnlockSucceeds | client_example.py:42-56 | A registered phone whose four steps, at any times, follow each other without another step between them is authorised with a signature over the text that `unlock` gave it, if there is room, each lockout is over when it is looked at and the response is in time, whether or not the configuration is reloaded; and a grant with the whole lifetime exists. |
| HonestRun.PairingUnlocks | pair.py:150-174 | A device that `pair.py` adds under a new name and certificate, and saves under a time that the service does not remember, is authorised in its first session. |
| HonestRun.LiveGrantIsClaimed | listener.py:285-312 | A request of an allowed peer for the configured user that connects, asks, is answered and read at times of their own, and asks while a grant is live, takes it, and its helper says yes. |
| HonestRun.HelloToYes | client_example.py:42-56 | The two together: from the hello of a welcome phone to the yes of the helper, whether or not the audit log can be written for the phone. |
| PamHelper.ReadReply | pam_unlock_helper.py:34-44 | The loop computes the specified answer with exactly the reads that complete the reply, and at most eight. |
| PamHelper.TakenDecides | pam_unlock_helper.py:38-43 | Once the reply is complete, what would be read next is never looked at: the reads made decide the answer. |
| PamHelper.YesExactly | pam_unlock_helper.py:38-44 | For every fragmentation the helper says yes exactly when the expected peer's first read is the yes reply, or its first two reads are its halves. |
| PamHelper.YesHoweverFragmented | pam_unlock_helper.py:38-44 | A whole stream of the yes reply is a yes however it is cut. |
| PamHelper.YesMeansYes | pam_unlock_helper.py:34-44 | A yes needs the expected peer and a stream that starts with the yes reply. |
| JsonLaws.CanonParses | audit.py:31-32 | Parsing undoes canonical printing on every value, escapes, surrogate pairs and nested objects included. |
| JsonLaws.CanonInjective | audit.py:31-36 | The canonical text determines the value. |
| JsonLaws.CanonPrintable | audit.py:31-32 | A canonical text is one nonempty line of printable ASCII. |
| JsonGrammar.ParseExactly | audit.py:51-51 | A text parses to a value exactly when the grammar, with all its choices of blanks and escapes, writes the value so. |
| JsonGrammar.DictKeepsLast | audit.py:51-51 | An object that repeats a key holds the value that was written last. |
| JsonCompact.CanonExactly | audit.py:31-32 | Of all the texts of a value the canonical one is the compact one: no blanks, keys in order, the seven letter escapes, printable ASCII as it is, everything else spelled out in lower-case hexadecimal. |
| Audit.Verify | audit.py:39-65 | The loop over the lines computes the specified verdict: count, head, line and kind of the first problem, the anchor, and the exception on a line that is no object. |
| Audit.AuditLog.constructor | audit.py:69-76 | Opening takes count and head of the last good entry and remembers the problem. |
| Audit.AuditLog.Record | audit.py:78-98 | Whatever part of the line reaches the file, and whether or not an exception follows, the count moves on, and the head only when the append returns. |
| AuditLaws.VerifiedIsChain | audit.py:44-65 | A verifying log is a hash chain of as many entries as counted, each numbered, linked and hashed, ending in the reported head. |
| AuditLaws.TamperEvidence | audit.py:35-65 | Two logs that verify with the same head hold the same entries in the same order, or comparing them from the end names two different texts, one hashed in each, with equal hash, or one that hashes to the genesis value. |
| AuditLaws.LaterHashesDiffer | audit.py:35-65 | Two verifying logs that differ at an entry have different hashes at every later entry, or an equal one names a collision. |
| AuditLaws.AnchorPins | audit.py:63-65 | A log that verifies against the full head of another one holds the same entries, or the two name a collision. |
| AuditVerdicts.VerifyExactly | audit.py:39-65 | The exact verdict on any text: the first line that does not fit behind the entries before it is reported with its kind, and the count, head and line at that point, or raises; without one, the log holds as many entries as lines that are not empty. |
| AuditVerdicts.AnchorExactly | audit.py:63-65 | An anchor of any length and case changes the verdict exactly when the log verifies without it and its head does not begin with it. |
| AuditVerdicts.DigitsPin | audit.py:63-65 | A log that verifies against the first k digits of another head has a head with these digits, and with the same head it holds the same entries or names a collision. |
| AuditLaws.FailureIsFinal | audit.py:44-65 | Once the whole lines of a log fail, the log and every extension fail with the same error, count and head, whatever a torn last line and the continuation are; so the whole lines of a verifying log verify. |
| AuditLaws.PrefixHead | audit.py:44-65 | A verifying prefix by whole lines holds the first entries of every longer log, and its head is the hash of its last one. |
| TornJson.JoinedParses | audit.py:50-54 | An entry written behind a torn line parses exactly when the torn line is blank. |
| JsonPieces.PieceParses | audit.py:50-54 | No proper beginning of an entry's line parses. |
| JsonPieces.PieceBehindParses | audit.py:50-54 | Nor does an entry or a beginning of one behind any text that begins with a brace. |
| TornLines.AppendKeepsFailure | audit.py:72-98 | An entry appended after reopening a failing log leaves error, count and head as they were if and only if the fault is in a line with its newline, or the torn line is unparsable and not blank. |
| TornLines.TornFailureChanges | audit.py:44-98 | A fault in a torn line that is blank or an object is not final: some continuation changes the verdict. |
| TornLines.BlankLineHeals | audit.py:72-98 | A log that is one torn blank line fails, and verifies after the next entry. |
| Histories.HistoryTracks | audit.py:44-98 | After any history of reopenings and of appends that write all of their line, a part or nothing, and return or raise, checking the text of the file comes out as a machine of counts, heads and the state of the last line that knows no text. |
| Histories.AppendRestartVerify | audit.py:68-98 | After any such history from a fresh file the log verifies if and only if nothing was put into it as a piece of a line, behind a line without its newline, or while the log's count or head were off; then it holds as many entries as whole lines were put into it, its head is the hash of the last one and passes as an anchor, and count and head are the log's exactly when no append since the last opening put them off. Otherwise the verdict names the line and the kind of the first fault: unparsable, sequence gap or broken link. |
| Windows.UnlockService.IssueChallenge | windows/listener_windows.py:109-118 | The nonce is stored and everything of ten seconds or more is purged. |
| Windows.UnlockService.RateLimited | windows/listener_windows.py:120-124 | The loop drops failures older than the window from the front and compares what is left with the limit. |
| Windows.UnlockService.VerifyResponse | windows/listener_windows.py:129-167 | The whole new state and the verdict; an attempt turned away by the limiter neither records a failure nor takes the nonce. |
| WindowsLaws.DequeIsWindow | windows/listener_windows.py:120-127 | In every run, after `_rate_limited` the deque is the full failure history filtered to the last sixty seconds. |
| WindowsLaws.SixFailuresSpanWindow | windows/listener_windows.py:236-254 | Behind the dispatch, any six failures recorded in a row span more than sixty seconds. |
| WindowsLaws.SixFailuresExactly | windows/listener_windows.py:129-138 | Without the dispatch they do if and only if no unknown action arrived while five failures were recent. |
| WindowsLaws.UnknownActionsUnlimited | windows/listener_windows.py:131-134 | Any number of unknown actions is recorded at one instant. |
| WindowsLaws.OneShotActions | windows/listener_windows.py:129-160 | In every run each nonce yields at most one accepted attempt across both actions, pending and used nonces are disjoint, and what was accepted is signed in a text that reads as its own action, nonce and timestamp, so in a text of its own. |
| WindowsLaws.TextReads | windows/listener_windows.py:156-156 | A reader that knows only the separator recovers action, nonce and printed timestamp from the signed text, for known actions and hexadecimal nonces. |
| WindowsLaws.TextsApart | windows/listener_windows.py:156-156 | Hence equal texts come from the same action, nonce and printed timestamp. |
| WindowsLaws.ActionsSignedApart | windows/listener_windows.py:156-156 | A shutdown text is never an unlock text. |
| WindowsLaws.AcceptedExactly | windows/listener_windows.py:109-167 | An attempt is accepted if and only if its action is one of the two and, by the full history, recent failures are fewer than five, the nonce was issued and not taken, is at most ten seconds old and was younger at the last challenge, its timestamp is at most fifteen seconds off, and its signature is good for a text that reads as this action, nonce and timestamp. |
| WindowsLaws.PurgeBoundary | windows/listener_windows.py:113-148 | A nonce of exactly ten seconds is accepted, unless a challenge is issued to anyone at that moment. |

## Left out

- TLS handshakes, certificates, key files and passphrases: all that is left of them is the fingerprint a peer showed.
- ECDSA: verification is a relation. That a DER signature of exactly 64 bytes would be read as a raw pair is part of that relation and not examined.
- Randomness and key use elsewhere: nonces are assumed never to repeat, and neither the laptop's nor an honest phone's key signs anything else.
- The clock: each atomic stretch reads it once, as a nonnegative real, where the code reads it several times and rounds; the Windows `verify` has three readings.
- Audit content and alerts of the running service: only whether recording raises is modelled, with one answer for the session's own records and one for the exception handler's; the throttle that skips repeated lockout records is part of those answers.
- Audit.AuditLog.Record: two processes writing one log, an edit of the log between opening and appending, and undecodable bytes are not modelled; the file is the text it decodes to, with its line ends translated.
- JsonLaws.CanonParses: JSON numbers with fractions or exponents, NaN, Infinity and -Infinity, escaped lone surrogates and the limits on integer length and nesting are outside the modelled values; the service writes no such number, and such a surrogate only when a PAM request names one as its user.
- JsonLaws.CanonInjective: for the same values.
- Audit.Verify: a line that holds such a number or surrogate is called unparsable, where the library would accept it.
- AuditLaws.FailureIsFinal: says nothing of a fault in a torn last line. TornLines.TornFailureChanges shows that it is not final where the line is blank or an object, and TornLines.AppendKeepsFailure decides what the entries of AuditLog do; for arbitrary continuations of unparsable text it depends on whether the text is the beginning of some valid line.
- AuditLaws.AnchorPins: is about files that exist; a missing file verifies under every anchor.
- PendingLaws.PendingRefinesHistory: holds for one lifetime, as does PendingLaws.VerdictExactly; the protocol theorems let the lifetime change and compare with the one in force.
- Agreement.InjectiveAgreement: the phone run behind an authorisation is there for the keys of honest phones only; other keys sign what they like.
- Leaks.LockoutLeaks: for an IP the exact condition speaks of what sessions may come to, since a session behind the IP's gate may still be turned away by the device's gate, a full table or a changed registry.
- Lockouts.GuessesDuringLockout: counts against the highest connection limit that any session was admitted under, since the limit can be lowered while sessions are open.
- EndToEnd.YesNeedsPhone: says nothing once a key that no honest phone holds has been registered.
- HonestRun.HonestUnlockSucceeds: other sessions do not step in between the four steps; that they cannot spoil a session is not claimed, since they can use up pending challenges or lock the device.
- GuessBudget.GuessesTakeTime: does not count a device's guesses whose check raised, because the code charges only the IP for them; they can never be accepted.
- Revocations.RevokedNeverAuthorised: sessions that were open before the revocation was loaded are excepted, as in the code; and the service starts with the configuration that is on disk, so an edit inside its very first load is not covered.
- `pair.py init` and `renew_server`, concurrent runs of `pair.py`, and configurations that are valid JSON but lack keys.
- Windows timestamps that are not numbers, nonces that cannot be keys of a table, the shutdown switch, the named pipe and the credential provider.
- The mobile app, notifications, command lines, service files, and the version 1 scripts.
