# Proofs about the mail monitor and the service modules

This project models the stateful parts of the repository in Dafny and proves what they
keep over whole runs. Each module models one source file or one pair that belongs
together:

- `EmailMonitor` and `EmailStore`: the IMAP monitor as interleaved steps between awaits, and the bounded store
  whose UID mark it relies on (`Email/server/monitor.js`, `Email/server/store.js`).
- `StaggeredRace`, `StartConnection` and `AddrInfos`: racing connection attempts, who owns their sockets, and the order
  the addresses are tried in.
- `RateLimiter`: the pruned sliding window and its blocks against a full history.
- `Otps`, `Sessions` and `Accounts`: one-time codes, sessions, and the login steps that join them.
- `DownloadTokens`: single-use tokens.
- `BaseProtocol`: the drain waiter of a paused connection.
- `RedirectLoop`: the redirect and retry loop of a client request.
- `EmailImport` and `SecretFraming`: the importer's loop over a session without autoflush, and the format of the
  secret that the monitor writes and the importer reads.
- `EmailSafety`: the safety verdict.
- `Common`: a few shared definitions.

Most modules have two layers. A state is a value and a step is a function on it; a run is any sequence of events with
their times. Invariants are proved for every step and by induction for every run, and the theorems follow from them.
Beside it stands the source's own form, a class or a method with loops that changes fields in place; its contract says
that the new state is the step of the old one. Library calls (URL parsing, regular expressions, hashes, ciphers, sockets,
the operating system, random values, clocks) are parameters of the steps, unconstrained unless a theorem says otherwise.

Where the code differs from what it seems to promise, the code is modelled, an input is given on which the promise fails,
and the exact condition is proved:

- `StartConnection.RaceCanFailSilently`: when every raced attempt fails with another kind of exception, an IndexError
  escapes; `StartConnection.ConnectRaced` says exactly when.
- `RateLimiter.ExactlyTheShortest`: a window is exact only if it is the shortest its address meets and no longer than
  max(default_window, block_duration), or not positive. `RateLimiter.WaitingServesExactly`: waiting as told by
  Retry-After is enough only under the largest limit an address meets, or in a window of one second.
- `Accounts.LockIsReached` and `Accounts.LockedOutForGood`: the fifteen-minute lock never ends, since only a successful
  login resets the counter; `Accounts.LoginSucceedsExactly` and `Accounts.LoginsAreExact` say when a login gets
  through and what it counts.
- `DownloadTokens.ClockBackwardsMeetsTwo` and `DownloadTokens.TwoRowsExactly`: a lookup before the issue of an unused
  token can meet two rows.
- `BaseProtocol.CancellingOneCancelsAll` and `BaseProtocol.CancelledExactly`: cancelling one suspended drain cancels
  those that share its waiter, and no others.
- `RedirectLoop.BoundedExactly`: `max_redirects=0` means no limit, unless redirects are not followed at all.
  `RedirectLoop.DefaultExactly`: a redirect to another origin is sent the session's own credentials unless it has a base
  URL elsewhere or the URL has some.
- `EmailImport.DifferentMailIsSkipped` and `EmailImport.SeenExactly`: a mail is skipped as a duplicate also when its id is
  the prefix and another's id.
- `SecretFraming.ReadersAgreeExactly`: the two readers treat a fourth part, a part with a character too many and tags of
  another length differently; what the Python reader gets from the other one is stripped.

## Model

| member | source | states |
|---|---|---|
| `EmailMonitor.EmittedOnce` | Email/server/monitor.js:288-342 | over every run of syncs, stops, reconnects and arrivals, emitted UIDs strictly ascend, so no mail is emitted twice although the store forgets old records; each emitted email has the UID, message-id, content and assessed status of a mailbox message, and the store is the view of the emitted log |
| `EmailMonitor.NothingIsSkipped` | Email/server/monitor.js:297-338 | at or below the high-water mark exactly the messages with a source from the last backfill's first wanted one on (of the last SYNC_LIMIT there were at its call) were emitted or turned away: none is skipped and nothing older is fetched |
| `EmailMonitor.AnswerLeavesNothing` | Email/server/monitor.js:317-338 | of what a running answer has been through, exactly the messages with a source from that one on were emitted or turned away; at its end that is all it served |
| `EmailMonitor.BackfillLeavesNothing` | Email/server/monitor.js:301-306 | so the answer to a backfill leaves none of the last min(SYNC_LIMIT, known) messages there were at the call, whatever happens while it runs |
| `EmailMonitor.CallsAskRightly` | Email/server/monitor.js:288-306 | in every run a call of `#syncNew` finds the section taken and only leaves a queued flag if it is forced, or leaves at once (not connected, stopped, nothing known), or asks for exactly the last min(SYNC_LIMIT, known) messages, or for exactly the UIDs beyond the mark |
| `EmailMonitor.WaitingCallsBalance` | Email/server/monitor.js:289-313 | conservation over every step: follow-ups scheduled plus a queued call change exactly by forced calls that find the section taken with nothing queued, and by follow-ups that run |
| `EmailMonitor.AnswersAdvance` | Email/server/monitor.js:317-338 | an answer runs to the end of the mailbox as it was when served; each message is passed by, or parsed first if it has a source and an unknown UID; a stop ends it at the next message |
| `EmailMonitor.StoppingEnds` | Email/server/monitor.js:320-326 | once stopped, in every continuation, no more than the one message in the parser is still emitted |
| `EmailMonitor.RejectedAreDuplicates` | Email/server/monitor.js:326-337 | a message that was turned away has the UID or the message-id of an emitted email |
| `EmailMonitor.OneFetchAtATime` | Email/server/monitor.js:289-293 | `_fetching` says whether a call is inside the guarded section, and there is never more than one |
| `EmailMonitor.ForcedSyncIsNotLost` | Email/server/monitor.js:288-314 | for every forced call the section was entered since, or a call is queued while one runs, or a follow-up is scheduled |
| `EmailMonitor.RunKeeps` | Email/server/monitor.js:288-338 | the invariant of flags, suspended calls, mailbox and store behind these, over every run |
| `EmailMonitor.ServeKeeps` | Email/server/monitor.js:299-306 | the answer to `n:*` (which always includes the last message) starts no later than the first unsettled message |
| `EmailMonitor.KeepKeeps` | Email/server/monitor.js:330-338 | storing and emitting, or turning away, the next message keeps the invariant of mailbox, store and emitted log |
| `EmailMonitor.Monitor.SyncNew` | Email/server/monitor.js:288-315 | the code up to the first await, on the object: exactly the step of the state machine |
| `EmailMonitor.Monitor.RunFollowUp` | Email/server/monitor.js:310-313 | the scheduled follow-up is a forced call |
| `EmailMonitor.Monitor.NextMessage` | Email/server/monitor.js:320-328 | one message of the answer: stop, skip without a source, turn away a known UID, or parse |
| `EmailMonitor.Monitor.ParserReturned` | Email/server/monitor.js:330-338 | assess, store and emit unless the store refuses, whether or not the disk write succeeds |
| `EmailMonitor.Monitor.EndFetch` | Email/server/monitor.js:308-314 | leaving the section, by the end of the answer or an exception, reschedules a queued call |
| `EmailStore.StoreRefinesLog` | Email/server/store.js:58-93 | over every use (add, set the mark, save and load) the store is the view of an unbounded accepted log: its last MAX_STORED emails, its length, its largest UID; what is stored has distinct UIDs and distinct non-empty message-ids |
| `EmailStore.AcceptsAgainIffEvicted` | Email/server/store.js:67-77 | an email of the log is accepted again exactly when it has been evicted, which is why the mark is needed |
| `EmailStore.HighUidIsMaximum` | Email/server/store.js:79 | the mark of a log is one of its UIDs and none is larger |
| `EmailStore.LoadUndoesSave` | Email/server/store.js:34-65 | loading what was saved gives the same state |
| `EmailStore.LoadsWhatIsThere` | Email/server/store.js:34-56 | a missing or damaged file, or absent fields, stand for an empty store; otherwise every record is loaded, with a status |
| `EmailStore.SliceIsExact` | Email/server/store.js:103-106 | a slice is exactly the elements between its bounds, negative ones counted from the end |
| `EmailStore.PagesTile` | Email/server/store.js:103-106 | consecutive pages tile the newest-first order, for every page size |
| `EmailStore.PushKeepsDistinct` | Email/server/store.js:67-77 | adding an email that is not there, and evicting, keeps UIDs and message-ids distinct |
| `EmailStore.Store.AddEmail` | Email/server/store.js:73-82 | accepted exactly if not already there; then pushed, counted, evicted and saved, else nothing changes |
| `EmailStore.Store.BackfillSafety` | Email/server/store.js:51-56 | records without a safety status, and only those, are assessed on load |
| `EmailStore.Store.SetLastUid` | Email/server/store.js:88-93 | the mark never goes down |
| `StaggeredRace.Race` | backend/uploads/3a52126cec6b4f2490830cf5e3603678__staggered.py:101-197 | under every schedule, in terms of the wake-ups of the loop: interrupted exactly if the last is an interruption; the winner is exactly the coroutine of the last wake-up if it has succeeded, and no earlier wake-up is of either kind; no task wakes twice, at most 2n wake-ups; exactly one function more than wake-ups to start the next is started (at most all), in order, with one exceptions entry each, set exactly for the failed; nothing is left running; no winner exactly when all were started and failed |
| `StaggeredRace.Contest` | backend/uploads/3a52126cec6b4f2490830cf5e3603678__staggered.py:139-175 | the racing loop, up to its verdict, decided by the last wake-up |
| `StaggeredRace.SequentialWithoutDelay` | backend/uploads/3a52126cec6b4f2490830cf5e3603678__staggered.py:146-148 | without a delay two coroutines are never unfinished at once, at any point of any schedule |
| `StaggeredRace.EventsAct` | backend/uploads/3a52126cec6b4f2490830cf5e3603678__staggered.py:106-130 | what a start, a step, a failure, a success, the timer and a cancellation do to the coroutines, the entries and the start signal |
| `StaggeredRace.ScheduleKeeps` | backend/uploads/3a52126cec6b4f2490830cf5e3603678__staggered.py:121-130 | along every schedule the entries match the coroutines, and the start signal stands for the latest one having failed or for its timer |
| `StaggeredRace.CanWake` | backend/uploads/3a52126cec6b4f2490830cf5e3603678__staggered.py:154-157 | the loop never waits for nothing: from every state it waits in, some schedule wakes it |
| `StaggeredRace.AwaitTurns` | backend/uploads/3a52126cec6b4f2490830cf5e3603678__staggered.py:154-175 | the inner loop: it ends with the first interruption or success that wakes it, and else exactly when the next function is due or no task is left; its waits are paid for by tasks taken out and the start signal consumed |
| `StaggeredRace.CancelRest` | backend/uploads/3a52126cec6b4f2490830cf5e3603678__staggered.py:176-195 | after the `finally` block every remaining task is finished, and finished ones are unchanged; each is cancelled once, and one that has not begun by then never runs |
| `AddrInfos.InterleavingIsPermutation` | backend/uploads/66a60f4e64164e7694427d9c0e5787ec_impl.py:228-247 | the reordering is a permutation, for every first-family count |
| `AddrInfos.InterleavingKeepsFamilyOrder` | backend/uploads/66a60f4e64164e7694427d9c0e5787ec_impl.py:228-247 | the order within each family is kept, for every first-family count |
| `AddrInfos.InterleavingIsFair` | backend/uploads/66a60f4e64164e7694427d9c0e5787ec_impl.py:242-246 | with count 1, in every prefix the counts of two families that are not used up differ by at most one |
| `AddrInfos.InterleavingStartsWithPopped` | backend/uploads/a9afc13eeff24e12a125f533c68b8de3_utils.py:34-53 | for every r the first sum of min(count, r) elements are, as a multiset, exactly what `pop_addr_infos_interleave` with r removes |
| `AddrInfos.InterleaveAddrInfos` | backend/uploads/66a60f4e64164e7694427d9c0e5787ec_impl.py:228-247 | the grouping and round-robin loops compute the specified order |
| `AddrInfos.PopAddrInfosInterleave` | backend/uploads/a9afc13eeff24e12a125f533c68b8de3_utils.py:34-53 | the list is overwritten with the elements beyond the first r of their family |
| `AddrInfos.WithoutKeepsOrder` | backend/uploads/a9afc13eeff24e12a125f533c68b8de3_utils.py:72-82 | removal keeps exactly the other addresses, in their order |
| `AddrInfos.RemoveAddrInfos` | backend/uploads/a9afc13eeff24e12a125f533c68b8de3_utils.py:63-82 | removal by equal text, else by equal parsed address; ValueError exactly when the text is not found and some address does not parse or the parsed one is not found, and then the list is unchanged |
| `StartConnection.OpenSocketsAreExact` | backend/uploads/66a60f4e64164e7694427d9c0e5787ec_impl.py:86-117 | in every interleaving of raced attempts `open_sockets` holds exactly the sockets of attempts in flight or succeeded, and every other socket is closed |
| `StartConnection.StartConnection` | backend/uploads/66a60f4e64164e7694427d9c0e5787ec_impl.py:54-156 | in every outcome every socket ever created is closed except the one returned; ValueError exactly for no addresses; without a delay or with one address the outcome is that of trying the addresses in turn, else that of a race, by its last wake-up; before an error is reported the whole order was tried; an IndexError only when racing |
| `StartConnection.ConnectRaced` | backend/uploads/66a60f4e64164e7694427d9c0e5787ec_impl.py:86-156 | raced attempts, under every interleaving: connected exactly if the last wake-up is of an attempt that succeeded, and then its socket is returned and every other closed, runner-ups that finished in the cancellation window as well; the IndexError of `all_exceptions[0]` escapes exactly when every attempt failed without recording an exception |
| `StartConnection.RaceCanFailSilently` | backend/uploads/66a60f4e64164e7694427d9c0e5787ec_impl.py:119-122 | such races exist for any number of attempts and any exception that is neither OSError nor RuntimeError, so the attempt's own exception is lost behind an IndexError |
| `StartConnection.ConnectSock` | backend/uploads/66a60f4e64164e7694427d9c0e5787ec_impl.py:177-225 | one attempt gets through exactly if a socket can be made, a local address bound (or none is asked for) and the connect succeeds; else it raises the first exception, or the one from closing, and records the errors before, itself if OSError or RuntimeError, and the one from closing; its socket is returned or closed |
| `StartConnection.FailsInOneWay` | backend/uploads/66a60f4e64164e7694427d9c0e5787ec_impl.py:177-225 | for every answer of the system an attempt either gets through or fails, with one exception and one record |
| `StartConnection.ConnectInTurn` | backend/uploads/66a60f4e64164e7694427d9c0e5787ec_impl.py:71-85 | the addresses are tried in order: all but the last tried fail with an OSError or RuntimeError; it connects, raises something else, or was the last of all and fails alike, with the error combined from all that was recorded; no other socket stays open, and an IndexError is impossible |
| `StartConnection.InTurnIsExact` | backend/uploads/66a60f4e64164e7694427d9c0e5787ec_impl.py:71-85 | there is only one such outcome for given answers of the system, so each comes about exactly under its condition |
| `StartConnection.RefusedWithTheErrno` | backend/uploads/66a60f4e64164e7694427d9c0e5787ec_impl.py:119-151 | if whatever the system refuses has one errno and no address gets through, the connection is refused with that errno |
| `StartConnection.CombineKeepsWhatAgrees` | backend/uploads/66a60f4e64164e7694427d9c0e5787ec_impl.py:119-151 | errors that read the same are raised as the first; otherwise a RuntimeError exactly if they all are, else an OSError, with an errno exactly if they all have it |
| `StartConnection.OrderIsPermutation` | backend/uploads/66a60f4e64164e7694427d9c0e5787ec_impl.py:57-66 | the order tried is a permutation, as given without interleaving; a delay alone means interleaving by one |
| `StartConnection.ScheduleCanBeLifted` | backend/uploads/66a60f4e64164e7694427d9c0e5787ec_impl.py:88-103 | every schedule of the race is the race of some interleaving of socket operations |
| `StartConnection.CloseRunnersUp` | backend/uploads/66a60f4e64164e7694427d9c0e5787ec_impl.py:104-117 | the `finally` block closes exactly the open sockets that are not the winner's |
| `RateLimiter.AdmissionMatchesHistory` | backend/uploads/bef0bb98b8f540019c4f8e1e4bf90dbf_rate_limit.py:101-118 | over every run: a request under a window that is no longer than any other its address meets, nor than max(default_window, block_duration), is answered as by a limiter that never forgets; it is admitted exactly when fewer than `limit` admissions lie in (now-W, now], so each admission is one of at most `limit` |
| `RateLimiter.ExactlyTheShortest` | backend/uploads/bef0bb98b8f540019c4f8e1e4bf90dbf_rate_limit.py:56-73 | the exact condition: of the windows an address meets, one is answered as from the full history in every run if and only if it is the shortest of them and no longer than max(default_window, block_duration), or is not positive |
| `RateLimiter.ExactlyOneWindow` | backend/uploads/bef0bb98b8f540019c4f8e1e4bf90dbf_rate_limit.py:84-99 | so all positive windows of an address are if and only if they are one and the same, no longer than that |
| `RateLimiter.ShorterWindowForgets` | backend/uploads/bef0bb98b8f540019c4f8e1e4bf90dbf_rate_limit.py:108-118 | for every shorter window a run of two visits after which the longer one admits too much |
| `RateLimiter.CleanupForgets` | backend/uploads/bef0bb98b8f540019c4f8e1e4bf90dbf_rate_limit.py:61-67 | for every window above max(default_window, block_duration) a run of one visit after which it admits too much, with no other window in play |
| `RateLimiter.CleanupIsInvisible` | backend/uploads/bef0bb98b8f540019c4f8e1e4bf90dbf_rate_limit.py:56-73 | cleaning up changes no later decision under a window if and only if that is no longer than max(default_window, block_duration), or not positive |
| `RateLimiter.CleanupKeepsBlocks` | backend/uploads/bef0bb98b8f540019c4f8e1e4bf90dbf_rate_limit.py:68-70 | cleaning up ends no block early |
| `RateLimiter.BlockedExactly` | backend/uploads/bef0bb98b8f540019c4f8e1e4bf90dbf_rate_limit.py:98-104 | over every run: a request is answered as blocked exactly when its address was denied with at least block_threshold remembered denials in a row before it, and block_duration seconds from the last such denial have not passed; the time left is told |
| `RateLimiter.DenialsBlock` | backend/uploads/bef0bb98b8f540019c4f8e1e4bf90dbf_rate_limit.py:192-204 | more than block_threshold denials within max(default_window, block_duration) seconds without an admission between block the address for block_duration seconds from the last |
| `RateLimiter.RunKeepsDenials` | backend/uploads/bef0bb98b8f540019c4f8e1e4bf90dbf_rate_limit.py:56-73 | in every run what is kept of an address's denials and blocks is exactly what the admissions, denials and cleanings so far leave |
| `RateLimiter.BlockNeedsDenials` | backend/uploads/bef0bb98b8f540019c4f8e1e4bf90dbf_rate_limit.py:192-204 | a block is set only by a denial, and only after block_threshold + 1 denials with no admission between |
| `RateLimiter.BlockedOnlyAfterDenials` | backend/uploads/bef0bb98b8f540019c4f8e1e4bf90dbf_rate_limit.py:192-204 | over whole runs: whoever is blocked was at some moment denied that often running |
| `RateLimiter.BruteForceBlocks` | backend/uploads/bef0bb98b8f540019c4f8e1e4bf90dbf_rate_limit.py:133-145 | whatever the table holds: a POST is refused and its address blocked exactly for ten recorded requests under its path in a minute |
| `RateLimiter.BlockedIsNotServed` | backend/uploads/bef0bb98b8f540019c4f8e1e4bf90dbf_rate_limit.py:160-171 | while an address is blocked its requests never reach the limiter |
| `RateLimiter.RetryAfterIsBounded` | backend/uploads/bef0bb98b8f540019c4f8e1e4bf90dbf_rate_limit.py:114-116 | 1 <= Retry-After <= window + 1 |
| `RateLimiter.RetryAfterIsTight` | backend/uploads/bef0bb98b8f540019c4f8e1e4bf90dbf_rate_limit.py:114-116 | it is the first whole second by which the oldest recent admission has left the window |
| `RateLimiter.WaitingServesExactly` | backend/uploads/bef0bb98b8f540019c4f8e1e4bf90dbf_rate_limit.py:84-99 | the exact condition: of the limits and windows an address meets, waiting as told under a limit and a window is enough in every run if and only if none has a larger limit (and a positive window), or the window is at most one second |
| `RateLimiter.RetryAfterExactly` | backend/uploads/bef0bb98b8f540019c4f8e1e4bf90dbf_rate_limit.py:108-118 | in one state: waiting as told is enough exactly if the limit-th last recent admission has left the window by then |
| `RateLimiter.RetryAfterIsHonoured` | backend/uploads/bef0bb98b8f540019c4f8e1e4bf90dbf_rate_limit.py:108-118 | so it is enough whenever no more than `limit` admissions are kept |
| `RateLimiter.LargestLimitIsKept` | backend/uploads/bef0bb98b8f540019c4f8e1e4bf90dbf_rate_limit.py:108-118 | which is so in every run for a limit that is the largest its address meets |
| `RateLimiter.WaitingIsEnough` | backend/uploads/bef0bb98b8f540019c4f8e1e4bf90dbf_rate_limit.py:108-118 | over whole runs: an address that is denied is told to wait between 1 and window + 1 seconds, and if it meets no larger limit or the window is at most one second, it is admitted when it has |
| `RateLimiter.DenialsInBetween` | backend/uploads/bef0bb98b8f540019c4f8e1e4bf90dbf_rate_limit.py:108-118 | denials in between only prune and change no later decision |
| `RateLimiter.RetryAfterCanMislead` | backend/uploads/bef0bb98b8f540019c4f8e1e4bf90dbf_rate_limit.py:84-99 | for every larger limit a run after which an address waits as told under the smaller one and is denied again |
| `RateLimiter.DispatchKeeps` | backend/uploads/bef0bb98b8f540019c4f8e1e4bf90dbf_rate_limit.py:147-220 | one dispatched request keeps the relation between what is kept of an address and its full history, for every window that the request cannot make it forget |
| `RateLimiter.RateLimitMiddleware.HandleRequest` | backend/uploads/bef0bb98b8f540019c4f8e1e4bf90dbf_rate_limit.py:147-220 | the middleware object's dispatch is the specified step |
| `RateLimiter.RateLimitMiddleware.CheckRateLimit` | backend/uploads/bef0bb98b8f540019c4f8e1e4bf90dbf_rate_limit.py:108-118 | prune in place, then deny, or admit and record |
| `RateLimiter.RateLimitMiddleware.CleanupOldEntries` | backend/uploads/bef0bb98b8f540019c4f8e1e4bf90dbf_rate_limit.py:56-73 | keys, blocks and histories that have run out are deleted, at most every two minutes |
| `RateLimiter.RateLimitMiddleware.DetectBruteForcePattern` | backend/uploads/bef0bb98b8f540019c4f8e1e4bf90dbf_rate_limit.py:133-145 | blocks on ten requests recorded under the path in a minute |
| `Otps.VerifyKeeps` | backend/uploads/8999c51fa55a44b4a0d5c462f8b12354_otp_service.py:108-165 | verifying keeps: at most one unused code of a user and purpose, unused implies attempts < max, attempts of the last half hour at most OTP_MAX_TOTAL_FAILURES; used rows never change |
| `Otps.CreateKeeps` | backend/uploads/8999c51fa55a44b4a0d5c462f8b12354_otp_service.py:81-106 | so does creating a code |
| `Otps.VerifiedExactly` | backend/uploads/8999c51fa55a44b4a0d5c462f8b12354_otp_service.py:108-152 | a code is accepted exactly when it is the live row's, unexpired, and the user is not locked out |
| `Otps.VerifiedConsumes` | backend/uploads/8999c51fa55a44b4a0d5c462f8b12354_otp_service.py:142-152 | the accepted row was unused and is used up at that moment |
| `Otps.VerifyTouchesOne` | backend/uploads/8999c51fa55a44b4a0d5c462f8b12354_otp_service.py:119-163 | under the invariant the loop over up to five candidates touches one row only |
| `Otps.TwoLiveCodesAreChargedTwice` | backend/uploads/8999c51fa55a44b4a0d5c462f8b12354_otp_service.py:135-163 | without the invariant one wrong guess is charged to two rows, which would break the bound on attempts |
| `Otps.GuessesAreCharged` | backend/uploads/8999c51fa55a44b4a0d5c462f8b12354_otp_service.py:131-163 | a guess at the live code costs one attempt; the right one, or the last, uses it up; no other row changes |
| `Otps.GuessesInVain` | backend/uploads/8999c51fa55a44b4a0d5c462f8b12354_otp_service.py:112-129 | locked out, or without a live code, a guess changes nothing, and the reply says exactly which |
| `Otps.CreatesExactly` | backend/uploads/8999c51fa55a44b4a0d5c462f8b12354_otp_service.py:81-106 | creating uses up exactly the older unused codes; the new one has three attempts and is the one accepted, for five minutes, unless locked out |
| `Otps.RateIsExact` | backend/uploads/8999c51fa55a44b4a0d5c462f8b12354_otp_service.py:31-57 | too many exactly from five in the last hour; else allowed exactly a minute after the latest, and until then the wait is told in whole seconds |
| `Otps.RateCapsCreation` | backend/uploads/8999c51fa55a44b4a0d5c462f8b12354_otp_service.py:31-57 | a code asked for within the rate leaves at most OTP_MAX_REQUESTS_PER_HOUR created in the last hour |
| `Otps.OtpTable.VerifyOtp` | backend/uploads/8999c51fa55a44b4a0d5c462f8b12354_otp_service.py:108-165 | the service's loop over the table, in place, is the specified step |
| `Otps.OtpTable.CreateOtp` | backend/uploads/8999c51fa55a44b4a0d5c462f8b12354_otp_service.py:81-106 | older codes are used up, then one row is added |
| `Otps.OtpTable.InvalidateUserOtps` | backend/uploads/8999c51fa55a44b4a0d5c462f8b12354_otp_service.py:168-183 | every unused row of the user and purpose, and no other, is used up |
| `Otps.OtpTable.CheckOtpLockout` | backend/uploads/8999c51fa55a44b4a0d5c462f8b12354_otp_service.py:60-79 | locked out exactly when the attempts of the last half hour reach the maximum |
| `Otps.OtpTable.CheckRateLimit` | backend/uploads/8999c51fa55a44b4a0d5c462f8b12354_otp_service.py:31-57 | too many in the hour, cooling down since the latest, or allowed |
| `Sessions.CreateKeeps` | backend/uploads/c3249cf405df4da99affffe54205acac_session_service.py:28-66 | creating a session keeps: at most one active session of a user, active exactly when `revoked_at` is unset, ids distinct, revoked rows unchanged |
| `Sessions.TouchedKeeps` | backend/uploads/c3249cf405df4da99affffe54205acac_session_service.py:74-289 | so does everything that revokes or uses rows |
| `Sessions.CreateLeavesOnlyTheNew` | backend/uploads/c3249cf405df4da99affffe54205acac_session_service.py:28-71 | after a login the new session is the user's only active one and its access token validates |
| `Sessions.ValidatesExactly` | backend/uploads/c3249cf405df4da99affffe54205acac_session_service.py:74-142 | an access token is valid exactly if it is that of the live session of that id; another ends the session, the right one moves it to where it is used; no other row changes |
| `Sessions.RefreshesExactly` | backend/uploads/c3249cf405df4da99affffe54205acac_session_service.py:145-196 | a refresh token is accepted exactly if it is that of the live session of that id, which gets the new tokens and half an hour more; another ends the session; no other row changes |
| `Sessions.IssuedTokensWork` | backend/uploads/c3249cf405df4da99affffe54205acac_session_service.py:165-196 | the tokens issued by a refresh, and no others, work, for exactly half an hour |
| `Sessions.EndsExactly` | backend/uploads/c3249cf405df4da99affffe54205acac_session_service.py:199-222 | a logout ends the active session of that id, expired or not, and no other, and says whether there was one |
| `Sessions.SweepsExactly` | backend/uploads/c3249cf405df4da99affffe54205acac_session_service.py:225-289 | logging a user out everywhere ends exactly their active sessions, cleaning up exactly those that have run out |
| `Sessions.SweepsAreCounted` | backend/uploads/c3249cf405df4da99affffe54205acac_session_service.py:225-289 | both report exactly how many sessions they end |
| `Sessions.CreatesExactly` | backend/uploads/c3249cf405df4da99affffe54205acac_session_service.py:28-71 | a login ends the user's other sessions and no one else's; the new session's tokens are those that work, for half an hour |
| `Sessions.CreatedExactly` | backend/uploads/c3249cf405df4da99affffe54205acac_session_service.py:51-62 | creation fails exactly when the session id is taken |
| `Sessions.RefreshTokenWorksOnce` | backend/uploads/c3249cf405df4da99affffe54205acac_session_service.py:145-196 | a refresh token presented again after it was replaced ends the session: nothing validates under that id any more |
| `Accounts.ReplacedTokenIsRefused` | backend/uploads/c3249cf405df4da99affffe54205acac_session_service.py:165-190 | over every run: a refresh token that was replaced is never accepted again, whatever is requested in between, as long as no later one has its hash |
| `Sessions.AtMostOneActive` | backend/uploads/c3249cf405df4da99affffe54205acac_session_service.py:225-250 | the rows that the invariant lets be active number at most one |
| `Sessions.SessionTable.InvalidateAllUserSessions` | backend/uploads/c3249cf405df4da99affffe54205acac_session_service.py:225-250 | exactly the user's active rows are revoked, and their number is returned |
| `Sessions.SessionTable.CreateSession` | backend/uploads/c3249cf405df4da99affffe54205acac_session_service.py:28-71 | the older sessions are revoked, then one row is added unless its id is taken |
| `Sessions.SessionTable.ValidateSession` | backend/uploads/c3249cf405df4da99affffe54205acac_session_service.py:74-142 | a wrong token ends the session, a right one moves it to where it is used from |
| `Sessions.SessionTable.RefreshSession` | backend/uploads/c3249cf405df4da99affffe54205acac_session_service.py:145-196 | a wrong refresh token ends the session, a right one is replaced |
| `Sessions.SessionTable.InvalidateSession` | backend/uploads/c3249cf405df4da99affffe54205acac_session_service.py:199-222 | an active session of that id is revoked, expired or not |
| `Sessions.SessionTable.CleanupExpiredSessions` | backend/uploads/c3249cf405df4da99affffe54205acac_session_service.py:268-289 | exactly the active rows that have expired are revoked, and counted |
| `Accounts.OneActiveSession` | backend/uploads/c3249cf405df4da99affffe54205acac_session_service.py:28-62 | over every run of logins, verifications, refreshes, logouts and the rest: at most one active session of each user, active exactly when `revoked_at` is unset |
| `Accounts.CodesAreBounded` | backend/uploads/8999c51fa55a44b4a0d5c462f8b12354_otp_service.py:60-165 | over every run: at most one unused code of a user and purpose, attempts below the maximum while unused, and at most OTP_MAX_TOTAL_FAILURES attempts on codes of the last half hour |
| `Accounts.SessionsAreEarned` | backend/uploads/95280ea58aed41bb9ca1012506f06da4_auth_service.py:491-524 | over every run: every session made by `verify_otp_and_login` has a code of its own, of the same user, used up at the very moment the session was made |
| `Accounts.AcceptedOnce` | backend/uploads/8999c51fa55a44b4a0d5c462f8b12354_otp_service.py:135-152 | over every run: no code, of any purpose, is accepted twice |
| `Accounts.RevokedStaysRevoked` | backend/uploads/c3249cf405df4da99affffe54205acac_session_service.py:144-250 | over every run: a used code and a revoked session never change again |
| `Accounts.RunKeeps` | backend/uploads/95280ea58aed41bb9ca1012506f06da4_auth_service.py:138-610 | the invariant of users, codes, sessions and what each session was given for |
| `Accounts.VerifyGrantsExactly` | backend/uploads/95280ea58aed41bb9ca1012506f06da4_auth_service.py:468-534 | a session is granted exactly if the payload names an active user who is not locked out, the code is that of their live unexpired row, and the session id is free; the row is used up |
| `Accounts.VerifyRefusesExactly` | backend/uploads/95280ea58aed41bb9ca1012506f06da4_auth_service.py:475-503 | in every other case it is refused: no session changes, and the guess is charged |
| `Accounts.SessionsEndExactly` | backend/uploads/95280ea58aed41bb9ca1012506f06da4_auth_service.py:468-563 | over every run: a request ends an active session exactly if it is a login of its user that gets through, presents a wrong token for it, logs it or its user out, or cleans up after it has run out |
| `Accounts.EndedIsRefused` | backend/uploads/c3249cf405df4da99affffe54205acac_session_service.py:74-196 | over every run: once a session has ended no token is accepted under its id again |
| `Accounts.LoginsAreExact` | backend/uploads/95280ea58aed41bb9ca1012506f06da4_auth_service.py:110-336 | what a login does with the user it names: a wrong password is counted, a right one clears the count, from the fifth on the lock is set anew; a right one makes a session or sends a code; nobody else changes |
| `Accounts.UnnamedLogins` | backend/uploads/95280ea58aed41bb9ca1012506f06da4_auth_service.py:77-86 | an identifier that is nobody's is refused, one that two users share crashes; nothing changes |
| `Accounts.RegistersExactly` | backend/uploads/95280ea58aed41bb9ca1012506f06da4_auth_service.py:37-74 | a user is added exactly if neither name, email nor phone is taken |
| `Accounts.ResendsExactly` | backend/uploads/95280ea58aed41bb9ca1012506f06da4_auth_service.py:338-376 | another code is sent exactly to a known user with an address and fewer than five codes in the last hour |
| `Accounts.OthersAreExact` | backend/uploads/95280ea58aed41bb9ca1012506f06da4_auth_service.py:537-578 | turning the second factor on sends a code to exactly the known users |
| `Accounts.ConfirmsExactly` | backend/uploads/95280ea58aed41bb9ca1012506f06da4_auth_service.py:587-610 | the phone is stored exactly if the live code is confirmed by a token for it, there is such a user and nobody else has the number |
| `Accounts.LoginSucceedsExactly` | backend/uploads/95280ea58aed41bb9ca1012506f06da4_auth_service.py:109-247 | a login gets through exactly when the identifier names one user who has failed fewer than five times and is neither suspended nor pending, the password is right, and (without a phone) the drawn session id is free; the end of the fifteen minutes plays no part |
| `Accounts.LockIsReached` | backend/uploads/95280ea58aed41bb9ca1012506f06da4_auth_service.py:131-135 | any password that is refused locks a new user out in five logins |
| `Accounts.LockedOutForGood` | backend/uploads/95280ea58aed41bb9ca1012506f06da4_auth_service.py:109-129 | once the counter has reached five no run ever lets that user log in again, because only a login resets it |
| `Accounts.FindUserFinds` | backend/uploads/95280ea58aed41bb9ca1012506f06da4_auth_service.py:77-86 | no user, the one user, or two: the lookup by email or name, including its exception for two |
| `Accounts.AuthService.LoginUser` | backend/uploads/95280ea58aed41bb9ca1012506f06da4_auth_service.py:138-335 | login over the three tables, in place, is the specified step |
| `Accounts.AuthService.VerifyOtpAndLogin` | backend/uploads/95280ea58aed41bb9ca1012506f06da4_auth_service.py:468-534 | so is verifying a code and logging in |
| `Accounts.AuthService.ResendOtp` | backend/uploads/95280ea58aed41bb9ca1012506f06da4_auth_service.py:338-372 | so is asking for another code: the cooldown is ignored |
| `Accounts.AuthService.ConfirmEnable2fa` | backend/uploads/95280ea58aed41bb9ca1012506f06da4_auth_service.py:587-610 | so is confirming a phone number, which fails at the commit, after the code is used up, if another user has it |
| `DownloadTokens.OneLiveToken` | backend/uploads/38f3b4ec993e4475a046a8360b393112_file_service.py:55-93 | at any moment not before the issues so far of a user and file there is at most one unused, unexpired token of theirs, so `scalar_one_or_none` does not meet two rows |
| `DownloadTokens.NeverTwoRows` | backend/uploads/38f3b4ec993e4475a046a8360b393112_file_service.py:60-69 | with the issues of each user and file in the order of their times no lookup ever meets two rows; between other calls the clock may do what it likes |
| `DownloadTokens.ClockBackwardsMeetsTwo` | backend/uploads/38f3b4ec993e4475a046a8360b393112_file_service.py:60-69 | of three issues in a row the third meets two rows if and only if the first token had expired at the second issue but has not at the third |
| `DownloadTokens.TwoRowsExactly` | backend/uploads/38f3b4ec993e4475a046a8360b393112_file_service.py:60-69 | whatever the clock does: the lookup meets two rows exactly when an older unused token of the user and file has not expired beside a younger unused one, and then it comes before the younger one was issued |
| `DownloadTokens.AcceptedOnce` | backend/uploads/38f3b4ec993e4475a046a8360b393112_file_service.py:96-129 | whatever the clock does: each token is accepted at most once, only for its own user and file and before it expires; acceptances never outnumber tokens issued |
| `DownloadTokens.ValidExactly` | backend/uploads/38f3b4ec993e4475a046a8360b393112_file_service.py:96-129 | a token is accepted exactly when it is a row of that user and file, unused and unexpired |
| `DownloadTokens.ValidatesExactly` | backend/uploads/38f3b4ec993e4475a046a8360b393112_file_service.py:96-129 | unknown, used already and expired, each exactly for its rows; only an accepted token changes |
| `DownloadTokens.TwoNamedRows` | backend/uploads/38f3b4ec993e4475a046a8360b393112_file_service.py:103-110 | whatever the table holds, two rows of one name, and only those, raise |
| `DownloadTokens.IssuesExactly` | backend/uploads/38f3b4ec993e4475a046a8360b393112_file_service.py:55-93 | issuing uses up exactly the live token and adds one good for five minutes, unless there are two live ones or the name is taken |
| `DownloadTokens.FileService.CreateDownloadToken` | backend/uploads/38f3b4ec993e4475a046a8360b393112_file_service.py:55-93 | the service's call, in place, is the specified step |
| `DownloadTokens.FileService.ValidateDownloadToken` | backend/uploads/38f3b4ec993e4475a046a8360b393112_file_service.py:96-129 | likewise |
| `BaseProtocol.NoLostWakeUp` | backend/uploads/47e18846f5de4b6bbad20e71da3b0f74_base_protocol.py:52-64 | in every run with cancellations a drain is suspended only while paused and connected, on the current waiter, and with no wake-up since it started |
| `BaseProtocol.WokenAtOnce` | backend/uploads/47e18846f5de4b6bbad20e71da3b0f74_base_protocol.py:111-129 | right after `resume_writing` or `connection_lost` no drain is suspended and there is no waiter |
| `BaseProtocol.SharedBetweenWakeUps` | backend/uploads/47e18846f5de4b6bbad20e71da3b0f74_base_protocol.py:131-140 | two drains await the same future exactly when no wake-up came between them |
| `BaseProtocol.CancelledExactly` | backend/uploads/47e18846f5de4b6bbad20e71da3b0f74_base_protocol.py:136-140 | a drain that has ended ended in CancelledError exactly when it was cancelled before it resumed, or some drain between the same two wake-ups was cancelled while suspended, itself or another |
| `BaseProtocol.EndsAsWoken` | backend/uploads/47e18846f5de4b6bbad20e71da3b0f74_base_protocol.py:111-129 | a drain that ends uncancelled ends as the first wake-up after its start says: in failure exactly if that was the loss of the connection with an exception |
| `BaseProtocol.TasksExactly` | backend/uploads/47e18846f5de4b6bbad20e71da3b0f74_base_protocol.py:136-140 | in every step of every run a drain is cancelled, cancelled late, or ends exactly by its own event in the right state |
| `BaseProtocol.DrainsExactly` | backend/uploads/47e18846f5de4b6bbad20e71da3b0f74_base_protocol.py:131-140 | in every run a drain fails exactly without a connection, passes exactly while writing is not paused, and else waits |
| `BaseProtocol.ResumesExactly` | backend/uploads/47e18846f5de4b6bbad20e71da3b0f74_base_protocol.py:56-64 | resuming fails its assertion exactly when writing is not paused, and then changes nothing |
| `BaseProtocol.CancellingOneCancelsAll` | backend/uploads/47e18846f5de4b6bbad20e71da3b0f74_base_protocol.py:136-140 | so cancelling one drain ends others, even one that starts later, although nobody cancelled them |
| `BaseProtocol.Protocol.ResumeWriting` | backend/uploads/47e18846f5de4b6bbad20e71da3b0f74_base_protocol.py:56-64 | the object's method, on real futures, is the specified step |
| `BaseProtocol.Protocol.ConnectionLost` | backend/uploads/47e18846f5de4b6bbad20e71da3b0f74_base_protocol.py:111-129 | likewise |
| `BaseProtocol.Protocol.DrainHelper` | backend/uploads/47e18846f5de4b6bbad20e71da3b0f74_base_protocol.py:131-140 | likewise: it fails when closed, passes when not paused, else awaits the shared waiter |
| `BaseProtocol.Protocol.PauseWriting` | backend/uploads/47e18846f5de4b6bbad20e71da3b0f74_base_protocol.py:52-54 | likewise, with the assertion of its caller |
| `RedirectLoop.CallsAreBounded` | backend/uploads/b78a0d07cb434963a6c7c7ef26cd3d1e_client.py:857-899 | with max_redirects = N > 0 the handler is called at most N + 1 times (N without a retry), for negative N and without allow_redirects at most twice, and the loop has then ended |
| `RedirectLoop.BoundedExactly` | backend/uploads/b78a0d07cb434963a6c7c7ef26cd3d1e_client.py:886-899 | some number bounds the calls of all requests if and only if max_redirects is not 0 or redirects are not followed |
| `RedirectLoop.ZeroIsUnbounded` | backend/uploads/b78a0d07cb434963a6c7c7ef26cd3d1e_client.py:895 | with max_redirects = 0 and redirects followed, a server that always redirects is followed for ever |
| `RedirectLoop.EndsExactly` | backend/uploads/b78a0d07cb434963a6c7c7ef26cd3d1e_client.py:857-986 | in every run the next reply ends the request in at most one way, each under exactly its own condition on the reply, the last call and what went before (returned, too many redirects, consumed body, bad or non-HTTP URL, contradicting credentials, the handler's failure, a wrapped OSError), and otherwise exactly one more call is made |
| `RedirectLoop.StartsExactly` | backend/uploads/b78a0d07cb434963a6c7c7ef26cd3d1e_client.py:707-757 | the first call, with exactly the caller's choices and the credentials due, or the error that prevents it |
| `RedirectLoop.SecretsStayOnOrigin` | backend/uploads/b78a0d07cb434963a6c7c7ef26cd3d1e_client.py:974-979 | auth and cookies arguments and Authorization, Cookie and Proxy-Authorization headers go exactly to the calls whose whole chain so far shares the first URL's origin; the auth argument also gives way to credentials in a URL |
| `RedirectLoop.OtherAuthFits` | backend/uploads/b78a0d07cb434963a6c7c7ef26cd3d1e_client.py:726-744 | credentials from a URL are sent only to its origin, netrc's only to their host, the session's only to its base URL's origin, or anywhere if it has no base URL |
| `RedirectLoop.DefaultExactly` | backend/uploads/b78a0d07cb434963a6c7c7ef26cd3d1e_client.py:726-738 | since the last change of origin (or from the start, without the caller's) the session's own credentials are sent exactly if they are offered to this origin and no URL since then was written with credentials |
| `RedirectLoop.DefaultCrossesOrigins` | backend/uploads/b78a0d07cb434963a6c7c7ef26cd3d1e_client.py:731-738 | so in a session without a base URL a redirect to another origin is sent the session's credentials |
| `RedirectLoop.MethodOnlyBecomesGet` | backend/uploads/b78a0d07cb434963a6c7c7ef26cd3d1e_client.py:905-928 | the method only ever changes to GET and then stays; a body is kept only with the same method |
| `RedirectLoop.CallsAreLinked` | backend/uploads/b78a0d07cb434963a6c7c7ef26cd3d1e_client.py:857-984 | how each call follows from the one before, in all it sends: a retry repeats it; a redirect has one of the five statuses, a location, converts method, body and Content-Length by the rule, and carries credentials, cookies and headers by origin |
| `RedirectLoop.RetryRepeats` | backend/uploads/b78a0d07cb434963a6c7c7ef26cd3d1e_client.py:867-871 | a retry makes the same call again |
| `RedirectLoop.ResponsesAreReleased` | backend/uploads/b78a0d07cb434963a6c7c7ef26cd3d1e_client.py:893-983 | in every outcome no response is left open but the one returned |
| `RedirectLoop.SendRequest` | backend/uploads/b78a0d07cb434963a6c7c7ef26cd3d1e_client.py:700-986 | the loop, variable by variable, is the specified machine, including its errors |
| `RedirectLoop.PrepareCall` | backend/uploads/b78a0d07cb434963a6c7c7ef26cd3d1e_client.py:707-757 | the top of the loop: errors, and the choice of credentials |
| `RedirectLoop.FollowRedirect` | backend/uploads/b78a0d07cb434963a6c7c7ef26cd3d1e_client.py:893-984 | a redirect: where the loop goes on or how it ends |
| `EmailImport.ImportTwiceIsOnce` | backend/import_email_folder.py:321-547 | running the import twice is running it once on every table, whether it succeeds or is rolled back; the second time all mails are skipped |
| `EmailImport.RolledBackExactly` | backend/import_email_folder.py:343-353 | it is rolled back exactly when it comes to an unseen mail whose rows cannot be made or whose id belongs to another user's record; UIDs never clash although they may repeat in the file and autoflush is off |
| `EmailImport.CountsAddUp` | backend/import_email_folder.py:339-545 | imported + skipped = number of mails; records and `emails_checked` grow by exactly the imported, threats by the malicious; `last_uid` is never lowered; (config, folder, uid) stays unique |
| `EmailImport.QuarantineMatches` | backend/import_email_folder.py:506-533 | the new quarantine rows are exactly one for each new malicious record, in order |
| `EmailImport.ImportAddsExactly` | backend/import_email_folder.py:339-535 | a completed import adds, for each new mail in order, its record, exactly its rows (each attachment, each link that can be parsed, each reason, and the fixed ones) and its UID if the configuration does not have it yet, and nothing else |
| `EmailImport.ConfiguresExactly` | backend/import_email_folder.py:257-319 | a configuration is added exactly for a user without one, unless the password cannot be decrypted; a rollback leaves just that |
| `EmailImport.SeenExactly` | backend/import_email_folder.py:343-353 | after any imports a mail counts as a duplicate exactly when it was imported under its own id, or that is the prefix and the id of one that was |
| `EmailImport.ImportKeepsPrefixed` | backend/import_email_folder.py:344-345 | every import keeps the ids of every user prefixed and the processed UIDs unique |
| `EmailImport.DifferentMailIsSkipped` | backend/import_email_folder.py:344-353 | so after the import of a mail another one, with the prefix before its id, is skipped by the next import and adds nothing |
| `EmailImport.LoopKeepsRecords` | backend/import_email_folder.py:412-430 | at each lookup at most one UID row is pending, and afterwards every mail so far has been seen |
| `EmailImport.Importer.ImportEmailData` | backend/import_email_folder.py:321-547 | the script, over its session and tables, is the specified import |
| `EmailImport.Importer.ImportMail` | backend/import_email_folder.py:385-535 | one unseen mail: flush the record, look the UID up, add the rest |
| `SecretFraming.ReadersUndoWriter` | backend/import_email_folder.py:191-211 | both readers recover every non-empty secret, for all byte lengths, given only that the cipher and UTF-8 are undone |
| `SecretFraming.DecodeUndoesEncode` | Email/server/crypto.js:37 | unpadded base64url is read back for every number of bytes and contains neither "." nor "=" |
| `SecretFraming.LengthOfEncoded` | Email/server/crypto.js:37 | its exact length: four characters for every three bytes, and one more than the number of bytes left over; so never one more than a multiple of four |
| `SecretFraming.DecodeUndoesPaddedEncode` | backend/import_email_folder.py:200-202 | so it is after filling up with "=" |
| `SecretFraming.FourthPart` | Email/server/crypto.js:41-51 | so they differ on every written secret with another part behind the third: one ignores it, the other refuses |
| `SecretFraming.ReadersAgreeExactly` | backend/import_email_folder.py:191-225 | the exact condition, for every text of base64 characters and dots: the readers agree whatever the cipher (as long as what it opens is valid UTF-8) if and only if there are fewer than three parts, or exactly three, none with a character too many, and a tag of sixteen bytes |
| `SecretFraming.ReadersAgree` | backend/import_email_folder.py:212-225 | with one cipher and tags of sixteen bytes: if and only if the JavaScript reader has nothing to show, or there are three parts and either the Python reader gets through by itself (no part with a character too many, valid UTF-8) or what is shown survives being printed and stripped |
| `SecretFraming.NewlinesAre` | backend/import_email_folder.py:219-222 | reading the other process as text turns each kind of line end into one newline |
| `SecretFraming.EmptySecret` | Email/server/crypto.js:31-42 | the empty secret is written as nothing and read as none |
| `EmailSafety.StatusExactly` | Email/server/safety.js:401-439 | dangerous, unknown and safe in terms of the mail alone; a double extension plays no part |
| `EmailSafety.FindingsAreExact` | Email/server/safety.js:147-344 | a finding, with its level, code and subject, is listed exactly if the mail has what it stands for |
| `EmailSafety.FindingsAreInTurn` | Email/server/safety.js:401-414 | the findings are in order: sender, attachments, links, wording |
| `EmailSafety.ReasonsAreExact` | Email/server/safety.js:121-125 | every reason given is a finding that is not mild, or the word of the scanner that fits the verdict; with fewer than eight none is missing |
| `EmailSafety.ExtensionIs` | Email/server/safety.js:127-132 | the extension of a path is what follows the last dot of its last part, in small letters |
| `EmailSafety.ExtensionOnlyIf` | Email/server/safety.js:127-132 | only if there is something on both sides of that dot |
| `EmailSafety.BaseDomainIs` | Email/server/safety.js:134-137 | the base domain of a host is its last two parts, in small letters |
| `EmailSafety.SenderBaseIs` | Email/server/safety.js:298-312 | the sender's domain is that of what follows the last @, if something is before it |
| `EmailSafety.CleansName` | Email/server/safety.js:193-199 | a file is known by the last part of its path, or the whole if that is empty, trimmed and in small letters |
| `EmailSafety.DoubleExtensionOnlyIf` | Email/server/safety.js:208-235 | a double extension is a decoy, after a dot or alone, a dot and a dangerous extension at the end |
| `EmailSafety.MoreIsNeverSafer` | Email/server/safety.js:298-344 | adding attachments or links never lowers the status, although the wording check depends on all of them |
| `EmailSafety.OrderDoesNotMatter` | Email/server/safety.js:409-414 | permuting attachments and links never changes the status |
| `EmailSafety.DoubleExtensionIsDangerous` | Email/server/safety.js:208-235 | a `double_extension` finding always comes with `dangerous_attachment` for the same file, for every file name |
| `EmailSafety.WordingDependsOnLinks` | Email/server/safety.js:314-344 | a harmless link to elsewhere turns a safe mail with phishing wording into a dangerous one |
| `EmailSafety.ReasonsAreGiven` | Email/server/safety.js:121-125 | at most eight reasons, all different, and at least one unless the mail is safe |
| `EmailSafety.CheckAttachment` | Email/server/safety.js:193-244 | the findings pushed for an attachment, and whether it stays unresolved |
| `EmailSafety.CheckLink` | Email/server/safety.js:246-296 | the findings pushed for a link |
| `EmailSafety.FindForeignLink` | Email/server/safety.js:298-312 | the loop over the links finds one that leads away from the sender's domain exactly when there is one |
| `EmailSafety.CheckWording` | Email/server/safety.js:314-344 | the finding pushed for the wording |
| `EmailSafety.AssessEmailSafety` | Email/server/safety.js:401-439 | the loops and the final decision give the specified result |

## Left out

- EmailMonitor: connection state, reconnect backoff and `_attempts`, polling, `refresh`'s waiting and its counts; several
  mailboxes or a changed configuration; messages that are expunged; the forwarding to the main backend. Unforced syncs
  during a fetch are dropped, as in the source.
- EmailMonitor.Monitor: a crash after a failed disk write, which leaves an older file to be loaded, is not modelled.
- EmailStore: nothing in the repository calls `setLastUid`; JSON itself and the fields of an email other than UID,
  message-id and safety are abstract.
- StaggeredRace.Race: SystemExit and KeyboardInterrupt are not modelled, and nothing is claimed about the entries of
  coroutines other than the winner beyond "set exactly when it failed" (one cancelled before its first step keeps None).
- StartConnection: closing a socket raises nothing but an OSError; the wording of combined messages, and the order in which exceptions of raced attempts are recorded.
- AddrInfos.InterleaveAddrInfos: needs a non-empty list for a count above 1, where the source would raise IndexError; its
  only caller never passes an empty one.
- RateLimiter: real numbers stand for floating point; the progressive delay only sleeps and is left out, as are the
  X-RateLimit headers and the reading of the client's address. No code writes a `bf:` key, so the brute-force branch
  never fires; it is modelled.
- RateLimiter.CleanupIsInvisible: claims nothing about the failure and suspicion histories, which cleaning up can shorten
  (`RateLimiter.RunKeepsDenials` says how).
- Otps, Sessions, Accounts, DownloadTokens: each service call is one atomic step at one reading of the clock; concurrent
  database transactions, audit and login-attempt rows, delivery of codes, masking and JWT contents are left out.
- Accounts.CodesAreBounded: no bound on codes per hour, since `login` does no rate check and `resend_otp` ignores the
  cooldown.
- BaseProtocol: pausing and resuming of reading, and the parser.
- RedirectLoop: everything before and after the loop, the cookie jar, proxies, tracing and timeouts; closing of the
  request body.
- EmailImport.ImportTwiceIsOnce: presupposes that (config, folder, uid) is unique beforehand, as the table's constraint has it.
- EmailImport: the user lookup, dates, and the columns of rows that no property speaks of.
- SecretFraming.ReadersAgreeExactly: on other characters and on padding inside a text the library decoders' tolerance is
  not modelled, nor a nonce length that only one of the libraries takes, nor that the other process cannot be started.
- EmailSafety: the regular expressions, URL parsing and the reading of a scanner's verdict are inputs; letters outside
  ASCII are not changed by lower-casing; records so malformed that the analysis throws are left out; a finding's text is
  its code and what it is about.
- User interface, reports, rule and risk engines, metadata and hash analysers, ORM schemas and vendored reflection code:
  they would only add easy members.
