/**
 * Properties of whole runs of the sendCards loop: what the guards and the
 * re-arm of each iteration add up to over a trace of environment answers.
 */
module SchedulerProperties {
  import opened SendCards

  /** The state of the two locals before iteration k of the run from s0 over ts. */
  function StateBefore(s0: State, ts: seq<Tick>, k: nat): State
    requires k <= |ts|
  {
    RunTicks(s0, ts[..k]).state
  }

  /**
   * Iteration j of a run took the branch that Step gives for the state
   * before it, and left the state that Step gives.
   */
  lemma {:induction false} LogAt(s0: State, ts: seq<Tick>, j: nat)
    requires j < |RunTicks(s0, ts).log|
    ensures !RunTicks(s0, ts[..j]).halted
    ensures RunTicks(s0, ts).log[j] == Step(StateBefore(s0, ts, j), ts[j]).branch
    ensures StateBefore(s0, ts, j + 1) == Step(StateBefore(s0, ts, j), ts[j]).next
  {
    RunPrefix(s0, ts, j);
    RunPrefix(s0, ts, j + 1);
    RunOneMore(s0, ts, j);
  }

  /**
   * Between two successful sends nothing resets lastSendingTime, and
   * waitingInterval never shrinks (it only grows by the oracle's deferrals).
   */
  lemma {:induction false} QuietStretch(s0: State, ts: seq<Tick>, i: nat, j: nat)
    requires i <= j <= |RunTicks(s0, ts).log|
    requires forall k :: i <= k < j ==> !RunTicks(s0, ts).log[k].Sent?
    ensures StateBefore(s0, ts, j).lastSendingTime == StateBefore(s0, ts, i).lastSendingTime
    ensures StateBefore(s0, ts, j).waitingInterval >= StateBefore(s0, ts, i).waitingInterval
    decreases j - i
  {
    if i < j {
      QuietStretch(s0, ts, i, j - 1);
      LogAt(s0, ts, j - 1);
    }
  }

  /**
   * Start-up cooldown: as long as no card has been sent yet, every send
   * attempt happens at least 5 s after the loop was started.
   */
  lemma RunStartupCooldown(start: int, ts: seq<Tick>, j: nat)
    requires j < |RunTicks(Init(start), ts).log|
    requires Attempt(RunTicks(Init(start), ts).log[j]).Some?
    requires forall k :: 0 <= k < j ==> !RunTicks(Init(start), ts).log[k].Sent?
    ensures ts[j].now >= start + StartInterval
  {
    assert ts[..0] == [];
    QuietStretch(Init(start), ts, 0, j);
    LogAt(Init(start), ts, j);
  }

  /**
   * After a successful send at iteration i, the next attempt (at any later
   * iteration j with no success in between) happens at least 24 h + 10 s
   * after the clock reading taken right after that send.
   */
  lemma RunDailyCooldown(s0: State, ts: seq<Tick>, i: nat, j: nat)
    requires i < j < |RunTicks(s0, ts).log|
    requires RunTicks(s0, ts).log[i].Sent?
    requires Attempt(RunTicks(s0, ts).log[j]).Some?
    requires forall k :: i < k < j ==> !RunTicks(s0, ts).log[k].Sent?
    ensures ts[j].now >= ts[i].sentAt + Day + MinJitter
    ensures ts[j].now - ts[i].sentAt > Day
  {
    LogAt(s0, ts, i);
    QuietStretch(s0, ts, i + 1, j);
    LogAt(s0, ts, j);
  }

  /**
   * After the oracle defers by R at iteration i, the oracle is next asked
   * (at a later iteration j with no success in between) only once the time
   * since lastSendingTime reaches the old interval plus R + 2.5 s.
   */
  lemma RunDeferralRaisesThreshold(s0: State, ts: seq<Tick>, i: nat, j: nat)
    requires i < j < |RunTicks(s0, ts).log|
    requires RunTicks(s0, ts).log[i].OracleDeferred?
    requires ConsultedOracle(RunTicks(s0, ts).log[j])
    requires forall k :: i < k < j ==> !RunTicks(s0, ts).log[k].Sent?
    ensures ts[j].now - StateBefore(s0, ts, i).lastSendingTime >=
            StateBefore(s0, ts, i).waitingInterval + ts[i].remaining + PollInterval
  {
    LogAt(s0, ts, i);
    QuietStretch(s0, ts, i + 1, j);
    LogAt(s0, ts, j);
  }

  /**
   * The deferral does not make the next oracle call wait R: when the
   * cooldown had long elapsed, the next iteration, 1 ms later, asks the
   * oracle again without sleeping.
   */
  lemma DeferralCanRecheckAtOnce()
    ensures
      var t1 := Tick(false, true, 3_600_000, 60_000, [], [], false, 0, MinJitter);
      var t2 := t1.(now := t1.now + 1);
      var r1 := Step(Init(0), t1);
      var r2 := Step(r1.next, t2);
      r1.branch == OracleDeferred(60_000) && !Slept(r1.branch) &&
      ConsultedOracle(r2.branch) && t2.now < t1.now + t1.remaining
  {
  }

  /**
   * A trace that is never logged in never consults the oracle, never calls
   * the sender and leaves both locals as they were.
   */
  lemma {:induction false} RunNeverLoggedNeverSends(s0: State, ts: seq<Tick>)
    requires forall k :: 0 <= k < |ts| ==> !ts[k].logged
    ensures RunTicks(s0, ts).state == s0
    ensures forall k :: 0 <= k < |RunTicks(s0, ts).log| ==>
      Attempt(RunTicks(s0, ts).log[k]).None? && !ConsultedOracle(RunTicks(s0, ts).log[k])
    ensures Emitted(RunTicks(s0, ts).log) == []
    decreases |ts|
  {
    if ts != [] {
      var front := ts[..|ts| - 1];
      RunNeverLoggedNeverSends(s0, front);
      var p := RunTicks(s0, front);
      if !p.halted {
        var log := p.log + [Step(p.state, ts[|ts| - 1]).branch];
        assert log[..|log| - 1] == p.log;
      }
    }
  }

  /**
   * With the cooldown elapsed and the oracle answering 0 on an empty queue,
   * or answering a negative time, the loop spins: every iteration asks the
   * oracle, none sleeps, nothing is sent and nothing changes.
   */
  lemma {:induction false} RunSpinsWithoutSleep(s: State, ts: seq<Tick>)
    requires forall k :: 0 <= k < |ts| ==>
      !ts[k].stop && ts[k].logged && CooldownElapsed(s, ts[k].now) &&
      (ts[k].remaining < 0 || (ts[k].remaining == 0 && ts[k].cards == []))
    ensures RunTicks(s, ts).state == s && !RunTicks(s, ts).halted
    ensures |RunTicks(s, ts).log| == |ts|
    ensures forall k :: 0 <= k < |ts| ==>
      var b := RunTicks(s, ts).log[k];
      (b == QueueEmpty || b == OracleNotLogged) && ConsultedOracle(b) && !Slept(b)
    decreases |ts|
  {
    if ts != [] {
      var front := ts[..|ts| - 1];
      RunSpinsWithoutSleep(s, front);
    }
  }

  /**
   * A failed send changes nothing, so when the next iteration passes the
   * guards at a later clock reading with the same lists, it retries the
   * very same call: same head card, same sender, same recipient.
   */
  lemma RunFailureRetries(s0: State, ts: seq<Tick>, j: nat)
    requires j + 1 < |RunTicks(s0, ts).log|
    requires RunTicks(s0, ts).log[j].SendFailed?
    requires !ts[j + 1].stop && ts[j + 1].logged && ts[j + 1].remaining == 0
    requires ts[j + 1].now >= ts[j].now
    requires ts[j + 1].cards == ts[j].cards && ts[j + 1].recipients == ts[j].recipients
    ensures StateBefore(s0, ts, j + 1) == StateBefore(s0, ts, j)
    ensures Attempt(RunTicks(s0, ts).log[j + 1]) == Attempt(RunTicks(s0, ts).log[j])
    ensures MoveSignals(RunTicks(s0, ts).log[j]) == []
  {
    LogAt(s0, ts, j);
    LogAt(s0, ts, j + 1);
  }

  /** The number of successful sends among the iterations of a log. */
  function SentCount(log: seq<Branch>): nat
    decreases |log|
  {
    if log == [] then 0
    else SentCount(log[..|log| - 1]) + (if log[|log| - 1].Sent? then 1 else 0)
  }

  /**
   * The loop emits exactly one move-to-sent signal per successful send
   * and every signal names index 0, the head of the queue.
   */
  lemma {:induction false} EmittedIsOneHeadPerSend(log: seq<Branch>)
    ensures |Emitted(log)| == SentCount(log)
    ensures forall k :: 0 <= k < |Emitted(log)| ==> Emitted(log)[k] == 0
    decreases |log|
  {
    if log != [] {
      EmittedIsOneHeadPerSend(log[..|log| - 1]);
    }
  }
}
