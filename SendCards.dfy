/**
 * The card-sending scheduler `sendCards` of src/main.py.
 *
 * One loop iteration reads a fixed, ordered series of the environment's
 * answers: the stop flag, the login state, the clock, the remote
 * "remaining time" oracle, the queue, and the send result. Everything the
 * loop asks its collaborators is therefore an input of the iteration, a
 * `Tick`, and the two locals the loop reassigns (`lastSendingTime` and
 * `waitingInterval`) form the `State`. All durations are integer
 * milliseconds.
 */
module SendCards {

  /** threadSleepDuration = 2.5 s */
  const PollInterval: int := 2500
  /** The waitingInterval the loop starts with: 5 s */
  const StartInterval: int := 5000
  /** The base cooldown after a successful send: 24 * 60 * 60 s */
  const Day: int := 86_400_000
  /** The bounds of random.uniform(10.0, 7 * 60 * 60) */
  const MinJitter: int := 10_000
  const MaxJitter: int := 25_200_000

  /** A value random.uniform(10.0, 7 * 60 * 60) can return. */
  type Jitter = j: int | MinJitter <= j <= MaxJitter witness MinJitter

  datatype Option<T> = None | Some(value: T)

  /** A queued postcard; only its recipientId matters to the scheduler. */
  datatype Card = Card(cardId: nat, recipientId: int)

  /** An entry of the recipient list. Entry 0 is the sender ("self"). */
  datatype Recipient = Recipient(name: string)

  /** The arguments of one call postCardSender.sendPostCard(card, sender, recipient). */
  datatype SendCall = SendCall(card: Card, sender: Recipient, recipient: Recipient)

  /** The two locals of sendCards that survive from one iteration to the next. */
  datatype State = State(lastSendingTime: int, waitingInterval: int)

  /**
   * What the environment answers during one iteration, in program order:
   * checkStop(), isLogged(), time.time() at the cooldown test, the oracle
   * getRemainingTimeForNextCard(), the card and recipient lists, the result
   * of sendPostCard, time.time() after the send, and the random jitter.
   * An iteration reads only the answers its branch reaches.
   */
  datatype Tick = Tick(
    stop: bool,
    logged: bool,
    now: int,
    remaining: int,
    cards: seq<Card>,
    recipients: seq<Recipient>,
    sendOk: bool,
    sentAt: int,
    jitter: Jitter)

  /** The branch one iteration takes; each names the lines that end it. */
  datatype Branch =
    | Stopped                  // checkStop() held: break
    | NotLoggedSleep           // not logged in: sleep, continue
    | CooldownSleep            // cooldown not elapsed: sleep, continue
    | OracleNotLogged          // remaining time < 0: continue, no sleep
    | OracleDeferred(extra: int) // remaining time > 0: extend the interval, continue, no sleep
    | QueueEmpty               // rowCount() == 0: falls through to the next iteration, no sleep
    | RecipientIndexError      // recipientList[...] raised IndexError: the thread ends
    | SendFailed(call: SendCall) // sendPostCard returned false: sleep, continue
    | Sent(call: SendCall)     // success: move-to-sent(0), notify, re-arm

  datatype StepResult = StepResult(next: State, branch: Branch)

  /** The outcome of running the loop over a finite prefix of its inputs. */
  datatype Progress = Progress(state: State, log: seq<Branch>, halted: bool)

  /** The state the loop starts in when time.time() returns `start`. */
  function Init(start: int): (s: State)
    ensures s.lastSendingTime == start
    ensures forall now :: CooldownElapsed(s, now) <==> now >= start + StartInterval
  {
    State(start, StartInterval)
  }

  /** Whether the iteration paused for one poll interval. */
  predicate Slept(b: Branch) {
    b.NotLoggedSleep? || b.CooldownSleep? || b.SendFailed?
  }

  /** Whether the iteration called getRemainingTimeForNextCard(). */
  predicate ConsultedOracle(b: Branch) {
    !(b.Stopped? || b.NotLoggedSleep? || b.CooldownSleep?)
  }

  /** Whether the loop stops after this iteration (break or uncaught exception). */
  predicate Ends(b: Branch) {
    b.Stopped? || b.RecipientIndexError?
  }

  /** The sendPostCard call the iteration made, if it made one. */
  function Attempt(b: Branch): Option<SendCall> {
    match b
    case SendFailed(c) => Some(c)
    case Sent(c) => Some(c)
    case _ => None
  }

  /** The arguments of the requestMoveToSentPostCard signals the iteration emitted. */
  function MoveSignals(b: Branch): seq<nat> {
    if b.Sent? then [0] else []
  }

  /** `time.time() - lastSendingTime < waitingInterval` is false. */
  predicate CooldownElapsed(s: State, now: int) {
    now - s.lastSendingTime >= s.waitingInterval
  }

  /**
   * The guards that must all pass before the loop takes the head card:
   * no stop request, logged in, cooldown elapsed, the oracle answers
   * exactly 0, and the queue is not empty.
   */
  predicate MaySend(s: State, t: Tick) {
    !t.stop && t.logged && CooldownElapsed(s, t.now) && t.remaining == 0 && |t.cards| > 0
  }

  /** Python's `xs[i]`: negative indices count from the end; out of range raises IndexError (None). */
  function PyIndex<T>(xs: seq<T>, i: int): (r: Option<T>)
    ensures r.Some? <==> -|xs| <= i < |xs|
    ensures r.Some? ==> r.value in xs
    ensures 0 <= i < |xs| ==> r == Some(xs[i])
    ensures -|xs| <= i < 0 ==> r == Some(xs[|xs| + i])
  {
    if 0 <= i < |xs| then Some(xs[i])
    else if -|xs| <= i < 0 then Some(xs[|xs| + i])
    else None
  }

  /**
   * The card, sender and recipient the loop looks up before calling
   * sendPostCard; None when one of the two list lookups raises IndexError.
   */
  function ResolveCall(t: Tick): (r: Option<SendCall>)
    requires |t.cards| > 0
    ensures r.Some? <==>
      |t.recipients| > 0 && -|t.recipients| <= t.cards[0].recipientId < |t.recipients|
    ensures r.Some? ==>
      r.value.card == t.cards[0] && r.value.sender == t.recipients[0] &&
      r.value.recipient in t.recipients
    ensures r.Some? && t.cards[0].recipientId >= 0 ==>
      r.value.recipient == t.recipients[t.cards[0].recipientId]
    ensures r.Some? && t.cards[0].recipientId < 0 ==>
      r.value.recipient == t.recipients[|t.recipients| + t.cards[0].recipientId]
  {
    var card := t.cards[0];
    match PyIndex(t.recipients, 0)
    case None => None
    case Some(sender) =>
      match PyIndex(t.recipients, card.recipientId)
      case None => None
      case Some(recipient) => Some(SendCall(card, sender, recipient))
  }

  /**
   * One iteration of the `while True` loop of sendCards.
   * The contract states, branch by branch, when each branch is taken and
   * what it does to the state.
   */
  function Step(s: State, t: Tick): (r: StepResult)
    // the stop flag comes first and changes nothing
    ensures r.branch.Stopped? <==> t.stop
    ensures t.stop ==> r.next == s
    // not logged in: sleep, no oracle, no send
    ensures r.branch.NotLoggedSleep? <==> !t.stop && !t.logged
    // cooldown not elapsed: sleep, no oracle, no send
    ensures r.branch.CooldownSleep? <==> !t.stop && t.logged && !CooldownElapsed(s, t.now)
    // the oracle is asked exactly when the first three guards pass
    ensures ConsultedOracle(r.branch) <==> !t.stop && t.logged && CooldownElapsed(s, t.now)
    ensures r.branch.OracleNotLogged? <==> ConsultedOracle(r.branch) && t.remaining < 0
    ensures r.branch.OracleDeferred? <==> ConsultedOracle(r.branch) && t.remaining > 0
    ensures r.branch.OracleDeferred? ==>
      r.branch.extra == t.remaining &&
      r.next.waitingInterval == s.waitingInterval + t.remaining + PollInterval &&
      r.next.waitingInterval > s.waitingInterval
    ensures r.branch.QueueEmpty? <==> ConsultedOracle(r.branch) && t.remaining == 0 && |t.cards| == 0
    // a send is attempted exactly when every guard passes and both lookups succeed,
    // always with the head card, sender recipientList[0] and the card's recipient
    ensures Attempt(r.branch).Some? <==> MaySend(s, t) && ResolveCall(t).Some?
    ensures Attempt(r.branch).Some? ==> Attempt(r.branch) == ResolveCall(t)
    ensures r.branch.RecipientIndexError? <==> MaySend(s, t) && ResolveCall(t).None?
    // success exactly when the attempted send reports it
    ensures r.branch.Sent? <==> Attempt(r.branch).Some? && t.sendOk
    ensures MoveSignals(r.branch) != [] <==> r.branch.Sent?
    // success re-arms: 24 h plus a jitter in [10 s, 7 h]
    ensures r.branch.Sent? ==>
      r.next.lastSendingTime == t.sentAt &&
      r.next.waitingInterval == Day + t.jitter &&
      Day + MinJitter <= r.next.waitingInterval <= Day + MaxJitter
    // every other branch keeps lastSendingTime and never shortens the interval;
    // only the positive-oracle branch changes the state at all
    ensures !r.branch.Sent? ==>
      r.next.lastSendingTime == s.lastSendingTime &&
      r.next.waitingInterval >= s.waitingInterval
    ensures !r.branch.Sent? && !r.branch.OracleDeferred? ==> r.next == s
  {
    if t.stop then StepResult(s, Stopped)
    else if !t.logged then StepResult(s, NotLoggedSleep)
    else if t.now - s.lastSendingTime < s.waitingInterval then StepResult(s, CooldownSleep)
    else if t.remaining < 0 then StepResult(s, OracleNotLogged)
    else if t.remaining > 0 then
      StepResult(s.(waitingInterval := s.waitingInterval + t.remaining + PollInterval),
                 OracleDeferred(t.remaining))
    else if |t.cards| == 0 then StepResult(s, QueueEmpty)
    else
      match ResolveCall(t)
      case None => StepResult(s, RecipientIndexError)
      case Some(call) =>
        if !t.sendOk then StepResult(s, SendFailed(call))
        else StepResult(State(t.sentAt, Day + t.jitter), Sent(call))
  }

  /**
   * The loop run over the inputs `ts` from state `s0`: the iterations
   * executed, in order, until the inputs run out or an iteration ends the
   * loop.
   */
  function RunTicks(s0: State, ts: seq<Tick>): (r: Progress)
    ensures |r.log| <= |ts|
    ensures !r.halted ==> |r.log| == |ts|
    ensures r.halted ==> |r.log| > 0 && Ends(r.log[|r.log| - 1])
    ensures forall k :: 0 <= k < |r.log| - 1 ==> !Ends(r.log[k])
    ensures !r.halted ==> forall k :: 0 <= k < |r.log| ==> !Ends(r.log[k])
    decreases |ts|
  {
    if ts == [] then Progress(s0, [], false)
    else
      var p := RunTicks(s0, ts[..|ts| - 1]);
      if p.halted then p
      else
        var st := Step(p.state, ts[|ts| - 1]);
        Progress(st.next, p.log + [st.branch], Ends(st.branch))
  }

  /** The requestMoveToSentPostCard signals a sequence of iterations emitted, in order. */
  function Emitted(log: seq<Branch>): (r: seq<nat>)
    ensures |r| <= |log|
    ensures r == [] <==> forall k :: 0 <= k < |log| ==> !log[k].Sent?
    decreases |log|
  {
    if log == [] then [] else Emitted(log[..|log| - 1]) + MoveSignals(log[|log| - 1])
  }

  /**
   * A prefix of a run is the run of the prefix: its log is a prefix of the
   * whole log, a halted prefix is the whole run, and a running prefix of k
   * inputs has executed k iterations.
   */
  lemma {:induction false} RunPrefix(s0: State, ts: seq<Tick>, k: nat)
    requires k <= |ts|
    ensures RunTicks(s0, ts[..k]).log <= RunTicks(s0, ts).log
    ensures RunTicks(s0, ts[..k]).halted ==> RunTicks(s0, ts) == RunTicks(s0, ts[..k])
    ensures !RunTicks(s0, ts[..k]).halted ==> |RunTicks(s0, ts[..k]).log| == k
    decreases |ts|
  {
    if k == |ts| {
      assert ts[..k] == ts;
    } else {
      var front := ts[..|ts| - 1];
      assert front[..k] == ts[..k];
      RunPrefix(s0, front, k);
    }
  }

  /** A run that has not ended after i inputs executes the next one as Step says. */
  lemma RunOneMore(s0: State, ts: seq<Tick>, i: nat)
    requires i < |ts| && !RunTicks(s0, ts[..i]).halted
    ensures var p := RunTicks(s0, ts[..i]);
      var st := Step(p.state, ts[i]);
      RunTicks(s0, ts[..i + 1]) == Progress(st.next, p.log + [st.branch], Ends(st.branch))
  {
    assert ts[..i + 1][..i] == ts[..i];
  }

  /**
   * The body of the `while True` loop: one iteration from the locals
   * `lastSendingTime` and `waitingInterval`, answered by `t`. This is the
   * imperative form of `Step`, reassigning the locals as the source does;
   * the two are kept in sync by the postcondition, which equates them.
   */
  method Iteration(lastSendingTime: int, waitingInterval: int, t: Tick)
    returns (last: int, wait: int, b: Branch)
    ensures Step(State(lastSendingTime, waitingInterval), t) == StepResult(State(last, wait), b)
  {
    last, wait := lastSendingTime, waitingInterval;
    if t.stop {
      b := Stopped;
    } else if !t.logged {
      b := NotLoggedSleep;
    } else if t.now - last < wait {
      b := CooldownSleep;
    } else if t.remaining < 0 {
      b := OracleNotLogged;
    } else if t.remaining > 0 {
      wait := wait + t.remaining + PollInterval;
      b := OracleDeferred(t.remaining);
    } else if |t.cards| == 0 {
      b := QueueEmpty;
    } else {
      var call := ResolveCall(t);
      if call.None? {
        b := RecipientIndexError;
      } else if !t.sendOk {
        b := SendFailed(call.value);
      } else {
        last := t.sentAt;
        wait := Day + t.jitter;
        b := Sent(call.value);
      }
    }
  }

  /**
   * The scheduler loop itself, over a finite trace of environment answers,
   * started when time.time() returns `start`. It returns the final values
   * of the two locals, the branch each iteration took, the arguments of the
   * move-to-sent signals it emitted, and whether the loop ended.
   */
  method RunSendCards(start: int, ticks: seq<Tick>)
    returns (lastSendingTime: int, waitingInterval: int, log: seq<Branch>, moved: seq<nat>, halted: bool)
    ensures RunTicks(Init(start), ticks) == Progress(State(lastSendingTime, waitingInterval), log, halted)
    ensures moved == Emitted(log)
  {
    lastSendingTime := start;
    waitingInterval := StartInterval;
    log, moved, halted := [], [], false;
    var i := 0;
    while i < |ticks| && !halted
      invariant 0 <= i <= |ticks|
      invariant RunTicks(Init(start), ticks[..i]) ==
                Progress(State(lastSendingTime, waitingInterval), log, halted)
      invariant moved == Emitted(log)
    {
      var t := ticks[i];
      ghost var before := State(lastSendingTime, waitingInterval);
      var b: Branch;
      lastSendingTime, waitingInterval, b := Iteration(lastSendingTime, waitingInterval, t);
      if b.Sent? {
        moved := moved + [0];
      }
      RunOneMore(Init(start), ticks, i);
      assert (log + [b])[..|log|] == log;
      log := log + [b];
      halted := Ends(b);
      i := i + 1;
    }
    if halted {
      RunPrefix(Init(start), ticks, i);
    } else {
      assert ticks[..i] == ticks;
    }
  }
}
