# A model of the Zalo bridge

`apps/zalo-bridge` is a long-lived process. It keeps a login session on disk, holds one connection to Zalo,
sends rate-limited messages once per key, filters its own echoes, and stores incoming events durably before
it delivers them. This project models its concurrent core and proves what the code and its comments promise.

Every asynchronous function is split at its awaits. One stretch of code between two awaits is one event of a
state machine (`Step`, `Run`); the environment chooses which event comes next, how it ends and how late. The
main results hold for every run, that is for every sequence of events. Beside each machine stands a class with
the fields of the source, whose methods are proved to perform exactly the events of the machine; the promises
of the machine are then promises of the object (`KeepsItsPromises`, `OnePostPerKeyAndDay`).

| file | what it models |
|---|---|
| `SessionDisk.dfy` | `desired`, the serial chain of disk commands, deadlines, late effects, resynchronisation |
| `BridgeClient.dfy` | generations, logins, attach, listeners, reconnect timer, logout, QR attempts, over the disk machine |
| `ZaloClient.dfy` | the same as an object, one method for each stretch of code |
| `Reconnector.dfy` | the reconnect timer and its delay |
| `SendQueue.dfy` | the rate-limited queue |
| `SendDedupe.dfy`, `InsertionMap.dfy` | the ledger of sent keys, over an insertion-ordered map |
| `EchoFilter.dfy` | the echo filter and its naive specification |
| `SendPath.dfy` | queue, ledger and flights together: one post per key and day |
| `Retention.dfy` | which loaded ledgers the shipped limits leave room for, exactly |
| `Restarts.dfy` | the send path over many processes and one ledger file |
| `RestartLimit.dfy` | how many restarts in a day the ledger withstands, exactly |
| `LedgerOnDisk.dfy` | the ledger over the text of its file, and one atomic write of it |
| `SendCalls.dfy` | the same as an object, with the echo filter and the message handler |
| `Outbox.dfy`, `OutboxFile.dfy` | the outbox and the text of its file |
| `OutboxOnDisk.dfy` | the outbox over that text, and one atomic write of it |
| `AtomicFile.dfy` | atomic file replacement and the credential store |
| `Options.dfy`, `Clock.dfy`, `Backoff.dfy` | a value that may be absent, lengths of time, capped delays |

## What the proofs found

- CONNECTING can be orphaned. A QR code expires or is declined, the login confirmed on it succeeds all the same,
  and `qrStart` is called while that login waits for its save: the attempt counts as ended, so it is abandoned,
  and nothing is left that would move the client out of CONNECTING (`BridgeClient.OrphanedRunExists`).
  `OrphanedExactly` and `NeverOrphanedExactly` say that nothing else can.
- A reconnect that is scheduled while a QR login waits for its save survives the attach that follows, and later
  drops the new connection (`BridgeClient.HandOverUnderTimerExists`, `TimerDropsLiveConnection`; exactly then:
  `CalmExactly`, and over runs `ConnectionsAreLeftAlone`).
- What a run posts itself is never forgotten early, whatever ledger it loaded. A loaded key can be: exactly when
  some hour of the first day has no room for the loaded keys still within their day and for all the sends the cap
  allows until then (`Retention.RetentionExactly`). A ledger of up to 2,800 keys always leaves room, a larger one
  need not (`RetentionBySize`). Sleeps of the queue that wake early are part of these runs.
- Restarts begin the hourly cap anew, which the ledger is not sized for: `send-dedupe.ts:6` promises that a retry
  after a restart gets the old id, and `send-dedupe.ts:13` that 10,000 keys cover a day. That is so for up to nine
  restarts in any day, and not for ten: some confirmed send is then forgotten within its day, and a retry is not
  answered with its id (`RestartLimit.RestartsExactly`).
- `SendDedupe.load` does not always start empty from a damaged file, although its comment says so: rows before one
  that cannot be taken apart stay (`DamagedFileKeepsRows`). It starts empty exactly when no row is taken
  (`LoadIsEmptyExactly`). The model follows the code.

## Assumptions

- Time is one integer clock that does not go back. The queue reads `performance.now` and the ledger `Date.now`;
  here both read the same clock.
- A physical disk operation takes effect at one moment between its start and its end, and one that is rejected
  never took effect (`AtomicFile.WriteFileAtomic`: nothing after the rename can fail).
- `getOwnId`, `listener.on` and `listener.start` do not throw: the catch of `connect` compares with the
  generation from before `attach`.
- zca-js emits no QR event after `loginQR` has settled. That an aborted `loginQR` does not succeed is not
  assumed, except where `ObedientRun` says so.
- `start` is called once, before anything else. A client with an injected `deps.api` is not part of this model.
- A ledger that is loaded is in order of expiry and no key in it outlives its day, as the same clock wrote it.
- The continuation of `queue.enqueue` writes the ledger a few microtasks after its send settled, before the next
  send can succeed.
- Of JSON, `OutboxFile` and `LedgerOnDisk` use only that what was written can be read back and that no strict prefix
  of it can be read, and `OutboxFile` that it has no newline (`CodecsExist`: that can be had); of encryption,
  `AtomicFile` only that it can be undone.
- The session file found at start-up is none that this process wrote.

## Model

| member | source | states |
|---|---|---|
| `SessionDisk.DiskConverges` | apps/zalo-bridge/src/zalo-client.ts:172-265 | Over any interleaving of logins, logouts, retried saves, failures, missed deadlines and late effects: once no command and no abandoned operation is left, a logged-out client has no session file or reports a stale one, and a logged-in client has exactly its session on disk or reports a failed save, with the file then absent or reported stale. |
| `SessionDisk.StepKeepsInv` | apps/zalo-bridge/src/zalo-client.ts:181-265 | One inductive invariant kept by every step: someone is still due to repair the file or it is already right; removals left in the chain are followed by the save of the current session; a declined save is of a session no longer wanted. |
| `SessionDisk.LateOperationsHeal` | apps/zalo-bridge/src/zalo-client.ts:186-203 | An operation that outlives its deadline cannot spoil the file for good: if nothing fails any more from a moment on at which one is still alive, then in whatever order things happen, logins and logouts included, the file is exactly the wanted one and health reports nothing whenever the disk is quiet. |
| `SessionDisk.SomeRunEnds` | apps/zalo-bridge/src/zalo-client.ts:181-203 | From every reachable state some run without failure brings the disk to rest, so the chain never deadlocks. |
| `SessionDisk.GivenUpSessionStaysGone` | apps/zalo-bridge/src/zalo-client.ts:172-179 | A session given up by a logout or for another account, that is not on disk and whose rename has not been allowed yet, never comes to disk again, over any run and whatever saves of it are queued, running or late. |
| `SessionDisk.CommandsRunInOrder` | apps/zalo-bridge/src/zalo-client.ts:181-185 | The chain is a queue: over any run the commands begin in the order they were asked for, each once, and the rest is what still waits. |
| `SessionDisk.AtMostOneResync` | apps/zalo-bridge/src/zalo-client.ts:220-234 | Over any run, at most one resynchronisation waits in the chain however many operations are late, and `resyncPending` says whether one does. |
| `SessionDisk.SettledCommandTellsTheTruth` | apps/zalo-bridge/src/zalo-client.ts:210-264 | What a command reports when its operation settles and nothing late interfered: a change that took place is what the file is and leaves no stale file; a save error is set exactly if the save of the session wanted now failed, and the command of another session leaves it alone. |
| `SessionDisk.FailureDecides` | apps/zalo-bridge/src/zalo-client.ts:186-264 | What a rejected operation and a missed deadline lead to: after a save at once a removal for the same session; after a removal a reported stale file, and with it the failed save of a session still wanted; an operation past its deadline goes on as it was, and nothing else changes. |
| `SessionDisk.NoSilentFailure` | apps/zalo-bridge/src/zalo-client.ts:186-264 | Over any run no command ends by a failure or a missed deadline without a reported stale file. |
| `SessionDisk.BeginDecides` | apps/zalo-bridge/src/zalo-client.ts:210-248 | A removal always runs, a save only for the session still wanted, and a resynchronisation does what the session wanted now needs. |
| `SessionDisk.RequestsDecide` | apps/zalo-bridge/src/zalo-client.ts:478-511 | A logout and a login change what is wanted at once, forget the save error before, and queue one command. |
| `SessionDisk.CheckDecides` | apps/zalo-bridge/src/zalo-client.ts:246 | A save asks once, and goes on exactly if its session is still wanted. |
| `SessionDisk.DesiredNeverReturns` | apps/zalo-bridge/src/zalo-client.ts:108-110 | Once `desired` leaves a session, or the start-up token, it never comes back to it. |
| `SessionDisk.DiskChain.LogOut` | apps/zalo-bridge/src/zalo-client.ts:484-491 | The disk part of `logout`, as the logout event of the machine. |
| `SessionDisk.DiskChain.LogIn` | apps/zalo-bridge/src/zalo-client.ts:585-591 | A completed QR login makes a fresh session the wanted one and queues its save. |
| `SessionDisk.DiskChain.SaveAgain` | apps/zalo-bridge/src/zalo-client.ts:459-463 | `retrySessionSave`: queues a save only after a failed one and only for a QR session. |
| `SessionDisk.DiskChain.RunNext` | apps/zalo-bridge/src/zalo-client.ts:211-234 | The head of the chain leaves it and runs to its first await; a resynchronisation reads `desired` at that moment. |
| `SessionDisk.DiskChain.AskWanted` | apps/zalo-bridge/src/zalo-client.ts:246 | The question asked right before the rename decides between committing and declining. |
| `SessionDisk.DiskChain.TimedOut` | apps/zalo-bridge/src/zalo-client.ts:186-192 | A missed deadline fails the command and leaves its operation running on its own. |
| `SessionDisk.DiskChain.LateSettled` | apps/zalo-bridge/src/zalo-client.ts:193-197 | A late operation that settles asks for a resynchronisation, well or badly settled. |
| `BridgeClient.StepKeepsInv` | apps/zalo-bridge/src/zalo-client.ts:348-609 | The disk invariant and the connection invariant (generations, timers, accounts, QR attempts) are kept by every stretch of code between two awaits. |
| `BridgeClient.DiskConverges` | apps/zalo-bridge/src/zalo-client.ts:172-265 | Disk convergence again, over all runs of the whole client. |
| `BridgeClient.DiskOnlyStepsByItsEvents` | apps/zalo-bridge/src/zalo-client.ts:459-463 | The client touches the disk machine only through its own events, and through which one is stated for every event: the two machines compose. |
| `BridgeClient.OnlyTheDesiredAccount` | apps/zalo-bridge/src/zalo-client.ts:418-447 | Over all runs: every login call and every attach used the session wanted at that instant; a live connection belongs to the current generation; a logged-out client has no connection. |
| `BridgeClient.ReadsOnlyForStartup` | apps/zalo-bridge/src/zalo-client.ts:428-447 | The session file is read only while the start-up session is wanted, and credentials read from it are used only while it still is. |
| `BridgeClient.LoggedOutUntilQrLogin` | apps/zalo-bridge/src/zalo-client.ts:478-489 | From a logged-out state, over any run in which no QR attempt that is not abandoned completes: still logged out, and no connection. |
| `BridgeClient.StartupFileIsUntouched` | apps/zalo-bridge/src/zalo-client.ts:172-179 | While the start-up session is wanted, the client has not touched the file. |
| `BridgeClient.StaleForGood` | apps/zalo-bridge/src/zalo-client.ts:363-367 | Once a newer generation has begun, every result, callback, drop and message of an older one is silent in every later state: no state, connection, timer or session changes, nothing is pushed, and a QR attempt that waited for it ends. |
| `BridgeClient.OnlyLiveListenersPush` | apps/zalo-bridge/src/zalo-client.ts:379-393 | Over any run, every message and undo pushed to the outbox came from the listener of the generation current at that instant. |
| `BridgeClient.OrphanedExactly` | apps/zalo-bridge/src/zalo-client.ts:526-535 | In any reachable state, a step leaves CONNECTING with nothing under way if and only if it is a `qrStart` that abandons a login which succeeded after its code had expired or been declined and is waiting for its save. |
| `BridgeClient.NeverOrphanedExactly` | apps/zalo-bridge/src/zalo-client.ts:395-457 | A whole run never shows such a state exactly when it never takes that step. |
| `BridgeClient.ConnectingIsNeverOrphaned` | apps/zalo-bridge/src/zalo-client.ts:395-457 | From process start: CONNECTING always has a login, attach, listener, hand-over or reconnect behind it if expired and declined codes never log in, and in general exactly if no `qrStart` abandons a hand-over. |
| `BridgeClient.OrphanedRunExists` | apps/zalo-bridge/src/zalo-client.ts:565-592 | A concrete run that ends in CONNECTING with nothing under way. |
| `BridgeClient.CalmExactly` | apps/zalo-bridge/src/zalo-client.ts:588-594 | A reconnect is pending beside a live connection after exactly one kind of step: a hand-over that attaches although a reconnect was scheduled while it waited for its save. |
| `BridgeClient.ConnectionsAreLeftAlone` | apps/zalo-bridge/src/zalo-client.ts:588-594 | From process start, over any run: no reconnect is ever pending beside a live connection if and only if no hand-over attaches under a pending one. |
| `BridgeClient.HandOverUnderTimerExists` | apps/zalo-bridge/src/zalo-client.ts:588-594 | A concrete run that takes this step. |
| `BridgeClient.OthersAreAbandoned` | apps/zalo-bridge/src/zalo-client.ts:513-535 | Over all runs: every QR login still pending, waiting or attaching, other than the current attempt, is abandoned. |
| `BridgeClient.AbandonedIsSilent` | apps/zalo-bridge/src/zalo-client.ts:553-604 | An event of an abandoned attempt changes nothing but the record of that attempt: not `desired`, not the disk chain, not the connection. |
| `BridgeClient.AbandonedForGood` | apps/zalo-bridge/src/zalo-client.ts:513-518 | An abandoned attempt stays abandoned in every later state. |
| `BridgeClient.StateIsTheListeners` | apps/zalo-bridge/src/zalo-client.ts:369-404 | CONNECTED and KICKED are entered by the listener of the current generation and by nothing else. |
| `BridgeClient.ErrorIsShownExactly` | apps/zalo-bridge/src/zalo-client.ts:279-285 | After any event the client reports an error of its own if and only if the event failed, or one was reported and the event is no recovery; retrying alone never hides it. |
| `BridgeClient.FlappingBacksOff` | apps/zalo-bridge/src/zalo-client.ts:369-377 | Connecting and dropping again never resets the reconnect delay; each timer scheduled counts one attempt more. |
| `BridgeClient.NeedQrIsEntered` | apps/zalo-bridge/src/zalo-client.ts:418-456 | NEED_QR is entered exactly by an unreadable or missing start-up session, a login that asks for it, a logout, and a connect while logged out. |
| `BridgeClient.ConnectDecides` | apps/zalo-bridge/src/zalo-client.ts:418-444 | A connect begins a generation without a connection, and reads the file, logs in with the session in memory, or neither when logged out; what becomes of the timer. |
| `BridgeClient.LoadDecides` | apps/zalo-bridge/src/zalo-client.ts:431-444 | What was read leads to a login or to NEED_QR. |
| `BridgeClient.LoginDecides` | apps/zalo-bridge/src/zalo-client.ts:444-447 | A login of the wanted session has a connection with its attach pending, and retries a failed save. |
| `BridgeClient.LoginFailureDecides` | apps/zalo-bridge/src/zalo-client.ts:448-456 | A failed login is NEED_QR, or CONNECTING with a timer pending. |
| `BridgeClient.FetchDecides` | apps/zalo-bridge/src/zalo-client.ts:357-415 | A current attach starts its listener, an overtaken one does not, and the QR attempt that waited is over. |
| `BridgeClient.ListenerDecides` | apps/zalo-bridge/src/zalo-client.ts:369-406 | A connection that is up is CONNECTED with the stability timer running; one that dropped is gone, with a reconnect pending unless the account was taken over. |
| `BridgeClient.MessageDecides` | apps/zalo-bridge/src/zalo-client.ts:379-393 | A message of the current listener that is to be forwarded is pushed in any state; no other is. |
| `BridgeClient.StableDecides` | apps/zalo-bridge/src/zalo-client.ts:372-375 | A minute of stable connection resets the backoff and nothing else. |
| `BridgeClient.LogoutDecides` | apps/zalo-bridge/src/zalo-client.ts:478-491 | A logout leaves no connection, no reconnect, no current QR attempt, and abandons the one there was. |
| `BridgeClient.QrStartDecides` | apps/zalo-bridge/src/zalo-client.ts:526-545 | A running attempt is joined; else the current one is abandoned and a new one opened with its 20-second timer. |
| `BridgeClient.QrEventDecides` | apps/zalo-bridge/src/zalo-client.ts:554-575 | Which reports of zca-js stop the timer, end the attempt, and keep the login info. |
| `BridgeClient.FirstImageDecides` | apps/zalo-bridge/src/zalo-client.ts:537-544 | An attempt without an image after 20 seconds is abandoned. |
| `BridgeClient.QrLoginDecides` | apps/zalo-bridge/src/zalo-client.ts:576-603 | A QR login with its login info becomes the wanted session, is saved and stops a reconnect; one without, or rejected, ends and changes nothing else. |
| `BridgeClient.HandOverDecides` | apps/zalo-bridge/src/zalo-client.ts:591-597 | After the wait for the save the connection attaches as the session the login became. |
| `ZaloClient.ZaloClient.constructor` | apps/zalo-bridge/src/zalo-client.ts:148-172 | The closure at its start is the initial state of the machine. |
| `ZaloClient.ZaloClient.KeepsItsPromises` | apps/zalo-bridge/src/zalo-client.ts:148-696 | Between any two calls: a quiet disk holds what is wanted or health says why not; at most one resynchronisation waits; one live connection, of the current generation; none when logged out; logins only as the wanted account; every unfinished QR login but the current one is abandoned; only live listeners have pushed; and CONNECTING has something under way unless a `qrStart` has abandoned a hand-over. |
| `ZaloClient.ZaloClient.Start` | apps/zalo-bridge/src/zalo-client.ts:465-471 | The start event of the machine. |
| `ZaloClient.ZaloClient.Reconnect` | apps/zalo-bridge/src/zalo-client.ts:473-476 | The reconnect event of the machine. |
| `ZaloClient.ZaloClient.TimerFires` | apps/zalo-bridge/src/zalo-client.ts:267 | The timer event of the machine. |
| `ZaloClient.ZaloClient.Loaded` | apps/zalo-bridge/src/zalo-client.ts:431-444 | The continuation of `connect` after the file was read. |
| `ZaloClient.ZaloClient.LoggedIn` | apps/zalo-bridge/src/zalo-client.ts:444-447 | The continuation of `connect` after a login: only the wanted session of the current generation attaches. |
| `ZaloClient.ZaloClient.LoginFailed` | apps/zalo-bridge/src/zalo-client.ts:448-456 | The continuation after a failed login: NEED_QR, or CONNECTING and a reconnect. |
| `ZaloClient.ZaloClient.Fetched` | apps/zalo-bridge/src/zalo-client.ts:357-415 | The continuation of `attach`: only the current generation listens; the QR attempt ends either way. |
| `ZaloClient.ZaloClient.ListenerConnected` | apps/zalo-bridge/src/zalo-client.ts:369-377 | The `connected` callback. |
| `ZaloClient.ZaloClient.ListenerMessage` | apps/zalo-bridge/src/zalo-client.ts:379-393 | The `message` and `undo` callbacks push only for the current generation. |
| `ZaloClient.ZaloClient.ListenerDropped` | apps/zalo-bridge/src/zalo-client.ts:395-406 | The `closed` and `disconnected` callbacks. |
| `ZaloClient.ZaloClient.StableFires` | apps/zalo-bridge/src/zalo-client.ts:372-375 | A minute of stable connection resets the backoff. |
| `ZaloClient.ZaloClient.Logout` | apps/zalo-bridge/src/zalo-client.ts:478-491 | `logout` up to its wait for the disk. |
| `ZaloClient.ZaloClient.QrStart` | apps/zalo-bridge/src/zalo-client.ts:526-535 | Joins the running attempt or opens a new one, and says which. |
| `ZaloClient.ZaloClient.QrFirstImageLate` | apps/zalo-bridge/src/zalo-client.ts:537-544 | The 20-second timer of an attempt. |
| `ZaloClient.ZaloClient.QrEmits` | apps/zalo-bridge/src/zalo-client.ts:554-575 | The callback of `loginQR`. |
| `ZaloClient.ZaloClient.QrResolved` | apps/zalo-bridge/src/zalo-client.ts:576-591 | `loginQR` resolved: only now `desired` changes and the save is queued. |
| `ZaloClient.ZaloClient.QrRejected` | apps/zalo-bridge/src/zalo-client.ts:599-603 | `loginQR` rejected. |
| `ZaloClient.ZaloClient.HandOverDone` | apps/zalo-bridge/src/zalo-client.ts:591-597 | The wait for the save is over: attach unless abandoned. |
| `ZaloClient.ZaloClient.DiskGoesOn` | apps/zalo-bridge/src/zalo-client.ts:181-265 | A step of the disk machine is a step of the client. |
| `Reconnector.BackoffShape` | apps/zalo-bridge/src/reconnect.ts:4-6 | The delay starts at 5 s, never shrinks, doubles exactly until the cap, and is the cap exactly from the seventh attempt on. |
| `Reconnector.Reconnector.Schedule` | apps/zalo-bridge/src/reconnect.ts:15-24 | At most one timer is pending; a second request leaves it alone and is told so. |
| `Reconnector.Reconnector.Reset` | apps/zalo-bridge/src/reconnect.ts:31-34 | No timer, no attempts. |
| `SendQueue.StartKeepsCap` | apps/zalo-bridge/src/send-queue.ts:55-63 | A start taken on the pruned list keeps every sliding hour of the full history at or below the cap. |
| `SendQueue.DecisionIsExact` | apps/zalo-bridge/src/send-queue.ts:56-57 | What the pruned list counts lies between what the full history has in the last hour at the last and at the first reading of the clock; with one reading it is equal. |
| `SendQueue.KeptAgrees` | apps/zalo-bridge/src/send-queue.ts:56 | The filtered list is sorted and agrees with the full history on every window that begins within the last hour. |
| `SendQueue.CapOverHours` | apps/zalo-bridge/src/send-queue.ts:54-63 | A cap per sliding hour bounds every span of whole hours by as many times the cap. |
| `SendQueue.CapLoopEnds` | apps/zalo-bridge/src/send-queue.ts:54-59 | The cap loop ends: with a cap above zero it waits fewer times than there are milliseconds until its newest start is an hour old, however early its sleeps wake, as long as each advances the clock. |
| `SendQueue.OneFullSleepSuffices` | apps/zalo-bridge/src/send-queue.ts:58 | It waits at most once if the sleep does not wake early. |
| `SendQueue.CheckDecides` | apps/zalo-bridge/src/send-queue.ts:54-60 | The cap loop starts its task exactly when fewer starts than the cap are less than an hour old; otherwise nothing starts and it sleeps until the oldest of those is an hour old, at least a millisecond. |
| `SendQueue.WaitIsNeeded` | apps/zalo-bridge/src/send-queue.ts:58 | The sleep of the cap loop is no longer than needed: before its end the task could not start. |
| `SendQueue.GapShape` | apps/zalo-bridge/src/send-queue.ts:50 | The gap is the spacing and the share of the jitter that was drawn, rounded down; a draw in [0, 1) keeps it between the spacing and the spacing plus the jitter. |
| `SendQueue.BeginDecides` | apps/zalo-bridge/src/send-queue.ts:48-52 | The next task goes on at once for the first start or when the gap is over, else after a sleep that ends exactly when it is. |
| `SendQueue.Filter` | apps/zalo-bridge/src/send-queue.ts:56 | The filter loop computes the kept starts, each compared with its own reading of the clock. |
| `SendQueue.SendQueue.Enqueue` | apps/zalo-bridge/src/send-queue.ts:35-42 | A task goes to the end of the queue. |
| `SendQueue.SendQueue.Begin` | apps/zalo-bridge/src/send-queue.ts:48-52 | The next task in order gets its turn and the spacing it still has to wait for. |
| `SendQueue.SendQueue.Wake` | apps/zalo-bridge/src/send-queue.ts:51-52 | A spacing sleep that lasted its time has rested the queue. |
| `SendQueue.SendQueue.Check` | apps/zalo-bridge/src/send-queue.ts:55-63 | A start is the next task in the order of `enqueue`, keeps every sliding hour at the cap, and comes at least the spacing and the drawn jitter after the last start unless the sleep woke early. |
| `SendQueue.SendQueue.Settle` | apps/zalo-bridge/src/send-queue.ts:37-38 | A task that settles, well or badly, frees the queue; the size still counts it. |
| `SendQueue.SendQueue.Lower` | apps/zalo-bridge/src/send-queue.ts:39-41 | The size goes down when the handlers of the settled task run. |
| `SendQueue.SendQueue.TaskStarts` | apps/zalo-bridge/src/send-queue.ts:54-64 | In this object a task at the head waits fewer than 3,600,000 times. |
| `SendDedupe.SetKeepsLiveEntriesExactly` | apps/zalo-bridge/src/send-dedupe.ts:31-39 | A `set` keeps all live entries up to the maximum size: expired entries go first. |
| `SendDedupe.SetForgetsLiveEntryExactly` | apps/zalo-bridge/src/send-dedupe.ts:31-39 | A `set` forgets some entry that is still within its day if and only if the live entries with the new one exceed the maximum. |
| `SendDedupe.KeptEntryIsFound` | apps/zalo-bridge/src/send-dedupe.ts:21-29 | An entry that is kept is found under its key as before. |
| `SendDedupe.SetIsFound` | apps/zalo-bridge/src/send-dedupe.ts:31-33 | What was just set is found. |
| `SendDedupe.AnswersWhileLive` | apps/zalo-bridge/src/send-dedupe.ts:21-29 | A key is answered with an id exactly while an entry of it with that id is within its day, and forgotten by a lookup only when it is not. |
| `SendDedupe.ReloadAgrees` | apps/zalo-bridge/src/send-dedupe.ts:41-59 | After `persist` and `load`, every key has the same answer as before, now and at any later time. |
| `SendDedupe.LoadIsEmptyExactly` | apps/zalo-bridge/src/send-dedupe.ts:49-58 | The ledger starts empty if and only if no row of the file is taken: a good row, within its day, with no row before it that cannot be taken apart. The comment promises an empty start for every damaged file; that is false. |
| `SendDedupe.DamagedFileKeepsRows` | apps/zalo-bridge/src/send-dedupe.ts:49-58 | A damaged file from which a key survives. |
| `SendDedupe.SendDedupe.constructor` | apps/zalo-bridge/src/send-dedupe.ts:11-19 | The ledger starts with what its file holds. |
| `SendDedupe.SendDedupe.Get` | apps/zalo-bridge/src/send-dedupe.ts:21-29 | The answer is that of the table; at most the asked key, if expired, is forgotten; order is kept. |
| `SendDedupe.SendDedupe.Set` | apps/zalo-bridge/src/send-dedupe.ts:31-39 | The whole new table; insertion order stays order of expiry. |
| `SendDedupe.SendDedupe.EvictOldest` | apps/zalo-bridge/src/send-dedupe.ts:34-38 | The eviction loop drops the oldest entries down to the maximum. |
| `SendDedupe.SendDedupe.Persist` | apps/zalo-bridge/src/send-dedupe.ts:41-45 | A write is asked for. |
| `SendDedupe.SendDedupe.StartWrite` | apps/zalo-bridge/src/send-dedupe.ts:44 | A write takes its snapshot when its turn comes. |
| `SendDedupe.SendDedupe.EndWrite` | apps/zalo-bridge/src/send-dedupe.ts:44-46 | A write that fails leaves the file; once every key that was set has been through a write that succeeded, a process that loads the file gives the same answers at every later time. |
| `SendDedupe.Serialize` | apps/zalo-bridge/src/send-dedupe.ts:44 | The rows of the table, in order. |
| `SendDedupe.LoadAll` | apps/zalo-bridge/src/send-dedupe.ts:49-58 | The loading loop, row by row. |
| `EchoFilter.EchoFilter.IsEcho` | apps/zalo-bridge/src/echo-filter.ts:37-42 | True if and only if the id was last noted as sent within 24 h, or it is a self message whose text was noted within 60 s; another account is suppressed for its id only. Consuming and pruning cannot be observed. |
| `EchoFilter.EchoFilter.NoteSending` | apps/zalo-bridge/src/echo-filter.ts:24-26 | The history gains one note; the lists still answer like the history. |
| `EchoFilter.EchoFilter.NoteSent` | apps/zalo-bridge/src/echo-filter.ts:28-35 | The same, though the sending note is consumed. |
| `EchoFilter.EchoFilter.Prune` | apps/zalo-bridge/src/echo-filter.ts:44-53 | Pruning from the front leaves exactly the ids of the last day and no text older than a minute. |
| `EchoFilter.DropExpired` | apps/zalo-bridge/src/echo-filter.ts:4-8 | The prefix cut keeps exactly the unexpired items of a list in order of time. |
| `EchoFilter.OwnTextIsOwn` | apps/zalo-bridge/src/echo-filter.ts:37-42 | A self message with a noted text is the bridge's own for a minute, whatever else is noted before or after. |
| `EchoFilter.OwnIdIsOwn` | apps/zalo-bridge/src/echo-filter.ts:37-42 | A noted id is the bridge's own for a day, whatever is noted later. |
| `EchoFilter.OthersAreForwarded` | apps/zalo-bridge/src/echo-filter.ts:15-16 | A message whose id was not noted within a day is not suppressed: one of another account, or without text, whatever texts were noted; one of the own account unless its text was noted within a minute. |
| `EchoFilter.OnlyItsIdSuppressesAnother` | apps/zalo-bridge/src/echo-filter.ts:40 | A message that is not of the own account, or has no text, is suppressed exactly for its id. |
| `InsertionMap.DeleteIsExact` | apps/zalo-bridge/src/send-dedupe.ts:32 | Deleting a key of an insertion-ordered map changes the answer for that key only. |
| `InsertionMap.AppendIsExact` | apps/zalo-bridge/src/send-dedupe.ts:33 | Setting a new key adds exactly that key, at the end. |
| `InsertionMap.PutIsExact` | apps/zalo-bridge/src/send-dedupe.ts:53 | Setting a key changes the answer for that key only; one that is present keeps its place. |
| `SendPath.AtMostOnePostPerKeyAndDay` | apps/zalo-bridge/src/zalo-client.ts:624-665 | Over all interleavings of calls, failures and delays in one run, from whatever ledger was loaded: two successful posts with one key are at least 24 h apart, and no sliding hour has more starts than the cap. |
| `SendPath.EveryCallerGetsTheSameId` | apps/zalo-bridge/src/zalo-client.ts:656-665 | From whatever ledger was loaded: for a day after a post every caller with its key gets its message id, from the ledger or by joining the flight that carries it. |
| `SendPath.FlightKeepsItsId` | apps/zalo-bridge/src/zalo-client.ts:651-653 | A flight that carries an id keeps it until it resolves with it. |
| `SendPath.PostsOnlyForgottenKeys` | apps/zalo-bridge/src/zalo-client.ts:657-664 | A post is made for a key only when no post of the last day has it. |
| `SendPath.SendDecides` | apps/zalo-bridge/src/zalo-client.ts:657-664 | A known key changes nothing but what the lookup forgets; any other opens a flight, queued last while connected and failed at once else. |
| `SendPath.FinishDecides` | apps/zalo-bridge/src/zalo-client.ts:629-650 | A send ends with a post of its key and the id Zalo gave it, or failed; the queue is free either way. |
| `SendPath.SaveDecides` | apps/zalo-bridge/src/zalo-client.ts:651-653 | A posted send enters the ledger under its key, with its id, for a day. |
| `SendPath.ResolveDecides` | apps/zalo-bridge/src/zalo-client.ts:662 | A flight that is through leaves the table, and nothing else changes. |
| `SendPath.LoadedKeysAreAnswered` | apps/zalo-bridge/src/zalo-client.ts:657-664 | If the loaded ledger leaves room, a key loaded with it is answered with its id until its day is over, and not posted again before, over any run. |
| `SendPath.NoKeyIsForgottenEarly` | apps/zalo-bridge/src/send-dedupe.ts:12-14 | If the loaded ledger leaves room in each hour of the first day, for its keys still within their day and for all the cap allows until then, no write of any run forgets a key within its day; for any cap and size. |
| `SendPath.OwnIsNotForgotten` | apps/zalo-bridge/src/send-dedupe.ts:12-14 | Whatever ledger was loaded, no write of a run forgets within its day an entry that the run has written itself. |
| `SendPath.WriteHasRoom` | apps/zalo-bridge/src/send-dedupe.ts:12-14 | The count behind it: live keys at a write, with the new one, never exceed the maximum. |
| `Retention.RetentionExactly` | apps/zalo-bridge/src/send-dedupe.ts:12-14 | With 300 sends an hour, 24 h and 10,000 entries, for every ledger: no run from it forgets a key within its day if and only if for each k below 24 the keys still within their day after k hours and 300 (k + 1) sends fit. |
| `Retention.RetentionNeedsRoom` | apps/zalo-bridge/src/send-dedupe.ts:12-14 | The run behind the other half: a burst of 300 at the start of each hour, the last of which forgets a live key when there is no room. |
| `Retention.RetentionBySize` | apps/zalo-bridge/src/send-dedupe.ts:12-14 | By size alone: every ledger of n keys leaves room if and only if n is at most 2,800. |
| `Restarts.ConfirmedIsAnswered` | apps/zalo-bridge/src/zalo-client.ts:651-665 | Over all crashes, failed writes and restarts in which every process has loaded a ledger with room: a send whose own write of the ledger file succeeded is answered with its id until its day is over, whatever other writes are queued, running or lost. |
| `Restarts.ConfirmedIsNotPostedAgain` | apps/zalo-bridge/src/zalo-client.ts:624-665 | In the same lives no process posts again, before its day is over, a message whose send an earlier process confirmed; and in one process posts with one key are a day apart. |
| `Restarts.EveryProcessHasRoom` | apps/zalo-bridge/src/send-dedupe.ts:6-14 | With at most nine restarts in the day before any start, and any number over the whole life, every process loads a ledger with room. |
| `Restarts.NextBudget` | apps/zalo-bridge/src/send-dedupe.ts:12-14 | What a loaded ledger may still hold at any moment of the day after: the hours of the cap left of the day before, one hour more for each restart of that day but one, and two sends for each; nothing without a restart in that day. |
| `Restarts.WritesDecide` | apps/zalo-bridge/src/send-dedupe.ts:41-47 | Every send that enters the ledger asks for a write and resolves only after it; writes run in order on the ledger as it is when they begin; only a write that renamed confirms, and only the send that asked for it; what a restart keeps. |
| `Restarts.StepKeepsBaseInv` | apps/zalo-bridge/src/send-dedupe.ts:41-47 | File, snapshot and loaded ledger stay in order and within this budget, however often the process restarts. |
| `Restarts.StepKeepsKeptInv` | apps/zalo-bridge/src/send-dedupe.ts:41-47 | With room, confirmed entries are in the file, in the snapshot being written and in the ledger; queued ones are in the ledger. |
| `RestartLimit.RestartsExactly` | apps/zalo-bridge/src/send-dedupe.ts:6-14 | In every life with at most n restarts in any day every confirmed send is answered within its day, if and only if n is at most nine. |
| `RestartLimit.TenRestartsForget` | apps/zalo-bridge/src/send-dedupe.ts:6-14 | The life behind the other half: ten processes that each begin with 300 confirmed sends, and an eleventh that sends a burst every hour until it forgets one of those. |
| `LedgerOnDisk.RestartLoadsTheText` | apps/zalo-bridge/src/send-dedupe.ts:49-59 | Over any life, a process that starts loads exactly what it reads from the text of the file, which begins missing or with no row that is taken. |
| `LedgerOnDisk.ConfirmedIsInTheText` | apps/zalo-bridge/src/zalo-client.ts:651-653 | With room, a confirmed send is in what is loaded from the text until its day is over. |
| `LedgerOnDisk.TornTextStartsEmpty` | apps/zalo-bridge/src/send-dedupe.ts:49-58 | A text cut anywhere loads as an empty ledger. |
| `LedgerOnDisk.WriteTable` | apps/zalo-bridge/src/send-dedupe.ts:44 | A write that renamed is read back exactly, one that failed left what was there, and a process that starts at any moment of it reads the old table or the new one. |
| `SendPath.StepKeepsInv` | apps/zalo-bridge/src/zalo-client.ts:624-665 | The invariant of queue, flights, ledger and history is kept by every step. |
| `SendCalls.Sender.Send` | apps/zalo-bridge/src/zalo-client.ts:657-665 | The reply to a caller (done, joined or opened) and the whole new state. |
| `SendCalls.Sender.Begin` | apps/zalo-bridge/src/zalo-client.ts:629 | The next send in order gets its turn, with its own text. |
| `SendCalls.Sender.Check` | apps/zalo-bridge/src/zalo-client.ts:629-632 | A send that starts while connected notes its text before it is handed to Zalo. |
| `SendCalls.Sender.Succeeded` | apps/zalo-bridge/src/zalo-client.ts:637-649 | The id Zalo gave is noted with the text of the send, and the queue goes on. |
| `SendCalls.Sender.Failed` | apps/zalo-bridge/src/zalo-client.ts:630-641 | A send that fails, or is not handed to Zalo, frees the queue; nothing is noted as sent. |
| `SendCalls.Sender.Save` | apps/zalo-bridge/src/zalo-client.ts:651-652 | The key and the id enter the ledger, and a write of its file is asked for. |
| `SendCalls.Sender.Resolve` | apps/zalo-bridge/src/zalo-client.ts:662 | The flight leaves the table. |
| `SendCalls.Sender.OnMessage` | apps/zalo-bridge/src/zalo-client.ts:379-387 | A message is pushed if and only if its listener is of the current generation, it is of the chosen group, can be forwarded, and is not own; so one of another account with an id not sent within a day is always pushed, no copy of a post for a day by id or a minute by text, nor one that overtakes the answer to its send. |
| `SendCalls.Sender.OnePostPerKeyAndDay` | apps/zalo-bridge/src/zalo-client.ts:656-665 | In the life of this object two posts with one key are a day apart. |
| `SendCalls.PostIsOwn` | apps/zalo-bridge/src/zalo-client.ts:631-646 | Every copy of a post recorded in the filter's history is the bridge's own. |
| `Outbox.NoAcknowledgedEventIsLost` | apps/zalo-bridge/src/outbox.ts:50-116 | Over all pushes, passes, failed writes, crashes and restarts: an event whose push resolved is in the file as it was pushed, text and time, or a post of it was answered with ok or drop, or it was discarded more than a day after its push. |
| `Outbox.PostedIsAnswered` | apps/zalo-bridge/src/outbox.ts:85-96 | Over any run, what counts as taken or refused is exactly what the API answered with ok or drop: nothing leaves that way on retry or without an answer. |
| `Outbox.BooksAreAnswers` | apps/zalo-bridge/src/outbox.ts:85-96 | In a process, delivered are exactly the rows answered with ok and refused those with drop, in order. |
| `Outbox.PostDecides` | apps/zalo-bridge/src/outbox.ts:85-98 | On retry the entry stays in its place with one attempt more, due after the delay for it; on ok or drop exactly that entry leaves and the others keep their order. |
| `Outbox.PushDecides` | apps/zalo-bridge/src/outbox.ts:50-53 | A push puts its event last, due at once and not tried, and asks for a write. |
| `Outbox.PassDecides` | apps/zalo-bridge/src/outbox.ts:67-102 | A pass begins with the list as it is unless one runs or waits for its write; at its end it waits for a write of its own exactly if it changed anything. |
| `Outbox.WriteEndDecides` | apps/zalo-bridge/src/outbox.ts:99-115 | A pass is let go by the end of its own write, failed or not; a push is acknowledged by the success of its own. |
| `Outbox.PassesEnd` | apps/zalo-bridge/src/outbox.ts:67-102 | Over any run, the write that lets a waiting pass go is queued or under way. |
| `Outbox.RestIsOnDisk` | apps/zalo-bridge/src/outbox.ts:99-116 | When nothing is under way and no write has failed, the file is exactly the list, in order. |
| `Outbox.RestartDecides` | apps/zalo-bridge/src/outbox.ts:123-141 | A crash leaves the file alone; the next process starts with its rows, due at once and not tried, and counts from zero. |
| `Outbox.OnlyPushedIsAcknowledged` | apps/zalo-bridge/src/outbox.ts:50-55 | Every acknowledged event is one that was pushed, with the text and the time of its push. |
| `Outbox.PassGoesThroughTheList` | apps/zalo-bridge/src/outbox.ts:67-93 | Whatever is pushed or finished meanwhile, what a pass has visited and still has to visit is the list at its start, in order and each entry once; at its end it has visited all of it; it posts the entry visited last, one at a time. |
| `Outbox.BooksBalance` | apps/zalo-bridge/src/outbox.ts:50-106 | As multisets: what was loaded and pushed is what is left, delivered, refused and discarded; the counter of discarded events is exact. |
| `Outbox.VisitDecides` | apps/zalo-bridge/src/outbox.ts:71-85 | An entry of the pass is still in the list when its turn comes, and its age and due time at that moment decide between discarding it alone, waiting and posting it. |
| `Outbox.AtMost150Posts` | apps/zalo-bridge/src/outbox.ts:89-96 | In one process an entry that is always answered with retry is posted at most 150 times. |
| `Outbox.DayHoldsDelaysExactly` | apps/zalo-bridge/src/outbox.ts:15-17 | The delays before the n-th retry fit into the age limit exactly for n below 150. |
| `Outbox.DelayShape` | apps/zalo-bridge/src/outbox.ts:91 | Delays start at 5 s, never shrink, double up to 320 s and are 600 s exactly from the eighth on. |
| `Outbox.StepKeepsInv` | apps/zalo-bridge/src/outbox.ts:50-116 | The invariant of list, write chain, file, pass and books is kept by every step. |
| `Outbox.Outbox.constructor` | apps/zalo-bridge/src/outbox.ts:30-39 | A new process starts with the file the last one left. |
| `Outbox.Outbox.Push` | apps/zalo-bridge/src/outbox.ts:50-55 | The entry is in the list and its write is queued. |
| `Outbox.Outbox.StartWrite` | apps/zalo-bridge/src/outbox.ts:108-113 | A write takes its snapshot when its turn comes, not when it was asked for. |
| `Outbox.Outbox.RenameTakesPlace` | apps/zalo-bridge/src/outbox.ts:111-113 | The rename puts the snapshot of the write on disk. |
| `Outbox.Outbox.FinishWrite` | apps/zalo-bridge/src/outbox.ts:113-115 | A push resolves if and only if its write took place. |
| `Outbox.Outbox.FlushOnce` | apps/zalo-bridge/src/outbox.ts:67-93 | A pass starts unless one is running, and goes on to its first post. |
| `Outbox.Outbox.PostAnswered` | apps/zalo-bridge/src/outbox.ts:85-96 | What an answer does to its entry; the pass goes on to its next post. |
| `Outbox.Outbox.Advance` | apps/zalo-bridge/src/outbox.ts:71-102 | The loop of a pass between two awaits, and its end. |
| `Outbox.Outbox.VisitNext` | apps/zalo-bridge/src/outbox.ts:72-84 | One turn of the loop. |
| `Outbox.Outbox.KeepsItsPromises` | apps/zalo-bridge/src/outbox.ts:50-116 | Between any two calls every acknowledged event is in the file as it was pushed, or was answered with ok or drop, or discarded when over a day old; what counts as taken was answered; the books balance and the counter is exact. |
| `Outbox.Remove` | apps/zalo-bridge/src/outbox.ts:104-106 | Filtering by identity takes out exactly one entry. |
| `Outbox.Serialize` | apps/zalo-bridge/src/outbox.ts:111 | The rows of the snapshot, in order. |
| `OutboxFile.RoundTrip` | apps/zalo-bridge/src/outbox.ts:108-113 | Reading what was written gives the same entries in the same order. |
| `OutboxFile.BodyIsLines` | apps/zalo-bridge/src/outbox.ts:111-112 | The file has one line for each entry, in order, and each line ends with a newline. |
| `OutboxFile.TruncatedReadsPrefix` | apps/zalo-bridge/src/outbox.ts:123-146 | A file cut anywhere reads as a prefix of the entries, with at least every entry whose line is complete. |
| `OutboxFile.BrokenLineIsSkipped` | apps/zalo-bridge/src/outbox.ts:134-144 | A line that cannot be read costs only itself. |
| `OutboxFile.ReadAll` | apps/zalo-bridge/src/outbox.ts:132-145 | The reading loop. |
| `OutboxOnDisk.TextReadsTheRows` | apps/zalo-bridge/src/outbox.ts:108-146 | At every moment of every run, reading the text of the file gives the rows the machine has on disk, whatever text the first process found. |
| `OutboxOnDisk.RestartReadsTheText` | apps/zalo-bridge/src/outbox.ts:123-146 | A process that starts has in its list exactly what it reads from the text, in order, each entry due at once and not tried yet. |
| `OutboxOnDisk.AcknowledgedEventIsInTheText` | apps/zalo-bridge/src/outbox.ts:50-146 | An event whose push resolved can be read from the text of the file with the time of its push, or a post of it was answered with ok or drop, or it was discarded more than a day after its push. |
| `OutboxOnDisk.WriteLines` | apps/zalo-bridge/src/outbox.ts:108-113 | A write that renamed is read back exactly, one that failed left what was there, and a process that starts at any moment of it reads the old entries or the new ones. |
| `AtomicFile.WriteFileAtomic` | apps/zalo-bridge/src/fs-atomic.ts:7-30 | When it resolves, declines and rejects; a rejection never took effect; at every moment in between, also on a disk that loses power, the file is the old one or the whole new one. |
| `AtomicFile.WriteTemp` | apps/zalo-bridge/src/fs-atomic.ts:12-19 | Success means the temporary file holds all of the data durably; nothing else is touched. |
| `AtomicFile.CredentialStore.Load` | apps/zalo-bridge/src/credentials.ts:18-32 | The first load sweeps temporary files; the sweep never changes what is read. |
| `AtomicFile.CredentialStore.Save` | apps/zalo-bridge/src/credentials.ts:34-36 | A save that renamed is what the next load reads; otherwise the next load reads what it read before. |
| `AtomicFile.CredentialStore.Clear` | apps/zalo-bridge/src/credentials.ts:38-41 | A clear that succeeds leaves no session and no removable temporary file; one that fails changes nothing. |
| `AtomicFile.CredentialStore.RemoveTemps` | apps/zalo-bridge/src/credentials.ts:46-63 | Exactly the removable temporary files go; the session file never does. |
| `AtomicFile.TempNamesExactly` | apps/zalo-bridge/src/credentials.ts:46-58 | What is taken for a temporary file: the names of `writeFileAtomic`, and the one where the two dots of such a name fall together. |

## Left out

- HTTP routes, bearer tokens, environment parsing, signals and the real network: the environment's choices stand for them.
- The wording of errors and logs, `lastError`, `since`, `publishState` and the state events it pushes: only whether an error is set is kept.
- `zaloUid`, the profile, `lastEventAt`, `lastSentAt` and `listenerErrors`: plain fields without influence on the protocol.
- `groups`, `setGroup`, the shaping of messages and undo events, and the texts of login errors: a failed login is either `need-qr` or worth retrying, and a message either has an event to forward or not.
- The image and the displayed status of a QR attempt (`qr-session.ts`), and the promise each caller of `qrStart` waits on: the model says which attempt is shared.
- The eight-second deadline of `logout` towards its caller: the removal stays in the chain either way, as the code says.
- The 60-second and 15-second time limits of login and account info: a login that times out is a failed login, and an account info that does is one that ended.
- A ledger without a path, which never writes: the shipped process always has one.
- The polling interval of the outbox and the flush after a push: a pass may begin at any time.
- `Outbox.Outbox`: entries are values with a tag for their identity, not shared objects; the file and the answer to a push are ghost state of the object.
- `Restarts.ConfirmedIsAnswered`: asks that every process has room, because without it the promise is false; `RestartLimit.RestartsExactly` says for how many restarts it holds.
- `BridgeClient.ConnectingIsNeverOrphaned`: the promise without a condition is false; see `BridgeClient.OrphanedRunExists`.
- Everything outside `apps/zalo-bridge`: data, database scripts and web pages.
