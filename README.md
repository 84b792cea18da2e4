# PostCardList card-sending scheduler, modelled in Dafny

PostCardList keeps a queue of postcards and sends at most one of them a day
from a background thread. The thread runs `sendCards` (src/main.py), a
polling loop over two locals, `lastSendingTime` and `waitingInterval`. Each
iteration applies, in order: the stop flag, the login check, the internal
cooldown, the remote "remaining time" oracle (whose sign carries meaning),
and a non-empty queue check. Only then does it send the head card. A
successful send emits `requestMoveToSentPostCard(0)`, shows a tray
notification and re-arms a cooldown of 24 h plus a random 10 s to 7 h.

The model has two modules:

- `SendCards` (SendCards.dfy): the data (cards, recipients, the
  per-iteration environment answers `Tick`, the loop state `State`), the
  per-iteration rules as the pure function `Step`, the loop body as the
  method `Iteration` and the loop as the method `RunSendCards`, both proved
  against `Step`, and the run over a finite trace as the function `RunTicks`.
- `SchedulerProperties` (SchedulerProperties.dfy): lemmas about whole runs:
  the start-up cooldown, the 24 h cooldown between sends, what the oracle's
  deferral does and does not guarantee, the busy loops, retry after failure,
  and one move-to-sent signal per success.

Times are integer milliseconds: the 2.5 s poll interval is 2500, the initial
interval 5000, the 24 h base 86 400 000, and the jitter lies in
[10 000, 25 200 000]. The clock, the sleep, the random jitter, the login
check, the oracle, the send result and the card and recipient lists are all
inputs of an iteration (`Tick`). Sleeping is recorded in the branch an
iteration takes (`Slept`), not performed.

Where the code and a natural reading of its design differ, the model
follows the code:

- With the cooldown elapsed, the oracle at 0 and an empty queue, the
  iteration falls through with no sleep (src/main.py:70). A negative oracle
  answer also continues with no sleep (src/main.py:63-65). Either can make
  the loop spin on the oracle (`RunSpinsWithoutSleep`).
- A positive oracle answer R raises `waitingInterval` by R + 2.5 s, but if
  the cooldown had elapsed long before, the next iteration may ask the
  oracle again at once. So the next check is not guaranteed to come R later
  (`DeferralCanRecheckAtOnce`). What does hold is that the threshold rises
  by R + 2.5 s (`RunDeferralRaisesThreshold`).
- A card whose `recipientId` is out of range, or an empty recipient list,
  raises Python's IndexError. Nothing catches it, so the thread ends
  (`RecipientIndexError` halts the run). There is no quarantine policy.
  A negative `recipientId` indexes from the end of the list, as Python does.

## Model

| member | source | states |
|---|---|---|
| SendCards.Init | src/main.py:44-46 | the loop starts with lastSendingTime = the start time and a 5 s interval, so the cooldown test first passes exactly 5 s after start |
| SendCards.PyIndex | src/main.py:73-74 | Python list indexing succeeds exactly for -len <= i < len, and yields xs[i] for a non-negative index and xs[len + i] for a negative one |
| SendCards.ResolveCall | src/main.py:72-74 | the lookup succeeds exactly when the recipient list is non-empty and the head card's recipientId is a valid Python index; it then uses the head card, sender recipientList[0] and recipient recipientList[recipientId] for a non-negative id, recipientList[len + recipientId] for a negative one |
| SendCards.Step | src/main.py:48-89 | one iteration: stop exits first and changes nothing; not logged in sleeps without touching the oracle or the state; an unelapsed cooldown sleeps likewise; the oracle is asked exactly when the first three guards pass; negative leaves the state alone, positive R adds exactly R + 2500 ms to waitingInterval; a send is attempted exactly when all guards pass and both lookups succeed; success happens exactly when the attempted send succeeds, emits the move signal and sets lastSendingTime to the clock after the send and waitingInterval to 24 h plus the drawn jitter, hence into [86 410 000, 111 600 000]; every other branch keeps lastSendingTime and never shortens waitingInterval |
| SendCards.RunTicks | src/main.py:48-89 | the run over a finite trace executes one iteration per input until an iteration ends the loop; no iteration before the last one ends it, and a run that has not ended has consumed all its inputs |
| SendCards.Emitted | src/main.py:79-80 | the move-to-sent signals a sequence of iterations emits: never more than one per iteration, and none at all exactly when no iteration sent a card |
| SendCards.RunPrefix | src/main.py:48-89 | running a prefix of the inputs gives a prefix of the log; a halted prefix is the whole run; a running prefix of k inputs has made k iterations |
| SendCards.RunOneMore | src/main.py:48-89 | a run not yet ended after i inputs executes input i exactly as Step prescribes |
| SendCards.Iteration | src/main.py:49-89 | the imperative loop body, with its guard chain and the reassignment of the two locals, computes exactly Step's new state and branch |
| SendCards.RunSendCards | src/main.py:33-89 | the loop started at time `start` (waitingInterval 5 s, lastSendingTime = start) yields exactly the run RunTicks gives from Init(start), and emits exactly the move-to-sent signals of the successful iterations |
| SchedulerProperties.LogAt | src/main.py:48-89 | iteration j of a run takes Step's branch for the state before it and leaves Step's new state |
| SchedulerProperties.QuietStretch | src/main.py:56-68 | between two successful sends lastSendingTime stays fixed and waitingInterval never decreases |
| SchedulerProperties.RunStartupCooldown | src/main.py:44-57 | before the first successful send, every send attempt happens at least 5 s after the loop started |
| SchedulerProperties.RunDailyCooldown | src/main.py:56-89 | after a successful send, the next attempt happens at least 24 h + 10 s after the clock reading taken after that send, so never within 24 h |
| SchedulerProperties.RunDeferralRaisesThreshold | src/main.py:62-68 | after the oracle defers by R, the oracle is next asked only once the time since lastSendingTime reaches the old interval plus R + 2.5 s |
| SchedulerProperties.DeferralCanRecheckAtOnce | src/main.py:62-68 | a concrete pair of iterations: after a deferral of 60 s with the cooldown an hour past, the next iteration 1 ms later asks the oracle again |
| SchedulerProperties.RunNeverLoggedNeverSends | src/main.py:52-54 | a trace that is never logged in never asks the oracle, never calls the sender, emits no move signal and leaves both locals unchanged |
| SchedulerProperties.RunSpinsWithoutSleep | src/main.py:62-70 | with the cooldown elapsed and the oracle negative, or 0 on an empty queue, every iteration asks the oracle, none sleeps, none sends, the run does not end and the state is unchanged |
| SchedulerProperties.RunFailureRetries | src/main.py:75-77 | a failed send emits no move signal and leaves the state unchanged, so the next iteration that passes the guards with the same lists retries the same head card, sender and recipient |
| SchedulerProperties.EmittedIsOneHeadPerSend | src/main.py:79-80 | the loop emits exactly one move-to-sent signal per successful send, and each names index 0 |

## Left out

- Qt/QML plumbing (`registerQmlCustomTypes`, `setAppVisible`, the `__main__` block that builds the application, engine, tray menu and context properties): user-interface wiring, not scheduling logic.
- The tray notification and its translated text (src/main.py:82-85): a fire-and-forget effect; the `Sent` branch is where it happens.
- The thread, its `join` and the lambda that reads `stopAllThreads`: the stop flag is an input of each iteration instead.
- `time.time`, `time.sleep` and `random.uniform`: the clock readings and the jitter are inputs; a sleep is recorded, not performed. The jitter's range is enforced by its type.
- Floating-point seconds: times are integer milliseconds, since the loop only adds and compares them.
- `PostCardSender`, `CredentialManager`, `PostCardListModel`, `RecipientListModel` and `Database` are not part of this model. Their answers (`isLogged`, `getRemainingTimeForNextCard`, `sendPostCard`, the lists) are inputs; `rowCount()` is taken to be the length of `postCardList`.
- The handler of `requestMoveToSentPostCard` is not part of this model: the model records the emitted index, and the queue seen by each iteration is an input, so the effect of removal on later iterations is not assumed.
- Database persistence (`saveDatabase`): I/O after the thread has ended.
- Exceptions raised by the collaborators themselves (network errors inside `sendPostCard`, for example) are not modelled; only the two list lookups of src/main.py:73-74 raise.
