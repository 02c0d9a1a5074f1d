/** How much one reliable call may do: passes, waiting, and what its dead letters record. */
module DeliveryBounds {
  import opened Wrappers
  import opened Delivery
  import Retry
  import RS = RunState

  function Asks(t: Log): nat {
    if t == [] then 0 else Asks(t[..|t| - 1]) + if t[|t| - 1].BreakerAsked? then 1 else 0
  }

  function TotalSleep(t: Log): nat {
    if t == [] then 0 else TotalSleep(t[..|t| - 1]) + if t[|t| - 1].Slept? then t[|t| - 1].delay else 0
  }

  /** Dead letters written at or after position `from` record exactly `attempts` attempts. */
  predicate LettersRecord(t: Log, from: nat, attempts: int) {
    forall i :: from <= i < |t| && t[i].DeadLettered? ==> t[i].letter.attempts == attempts
  }

  /** `w'` extends `w` without a delivery, with at most `asks` more passes and `sleep` more waiting. */
  ghost predicate Spends(w: World, w': World, asks: nat, sleep: nat, attempts: int) {
    && w.log <= w'.log
    && Asks(w'.log) <= Asks(w.log) + asks
    && TotalSleep(w'.log) <= TotalSleep(w.log) + sleep
    && LettersRecord(w'.log, |w.log|, attempts)
    && forall i :: |w.log| <= i < |w'.log| ==> !w'.log[i].Consumed?
  }

  lemma EmitSpends(w: World, e: Event, attempts: int)
    requires !e.Consumed? && (e.DeadLettered? ==> e.letter.attempts == attempts)
    ensures Spends(w, Emit(w, e), if e.BreakerAsked? then 1 else 0, if e.Slept? then e.delay else 0, attempts)
  {
    assert (w.log + [e])[..|w.log + [e]| - 1] == w.log;
  }

  lemma SpendsTransitive(a: World, b: World, c: World, n: nat, m: nat, x: nat, y: nat, attempts: int)
    requires Spends(a, b, n, x, attempts) && Spends(b, c, m, y, attempts)
    ensures Spends(a, c, n + m, x + y, attempts)
  {
    hide Asks, TotalSleep;
    forall i | |a.log| <= i < |c.log| && c.log[i].DeadLettered? ensures c.log[i].letter.attempts == attempts {
      if i < |b.log| {
        assert c.log[i] == b.log[i];
      }
    }
  }

  lemma SpendsNothing(w: World, attempts: int)
    ensures Spends(w, w, 0, 0, attempts)
  {}

  /** What remains to be waited for from this attempt on, at most. */
  function SleepBound(policy: Retry.Policy, attempt: int): nat { Max(0, policy.maxAttempts - attempt) * policy.maxDelay }

  function FinalAttempt(policy: Retry.Policy, attempt: int): int { Max(attempt, policy.maxAttempts) }

  lemma AckSpends(env: Env, w: World, at: nat, outcome: Outcome, attempts: int)
    ensures
      var h := AckAndFinish(env, w, at, outcome);
      Spends(w, h.w, 0, 0, attempts) && !h.verdict.Again?
  {
    hide Spends;
    EmitSpends(w, Acked(at, env.ack(w.log)), attempts);
  }

  lemma RetrySpends(env: Env, policy: Retry.Policy, w: World, at: nat, msg: Inbound, kind: string, attempt: U32)
    ensures
      var h := Retrying(env, policy, w, at, msg, kind, attempt);
      Spends(w, h.w, 0, if h.verdict.Again? then policy.maxDelay else 0, FinalAttempt(policy, attempt))
  {
    hide AckAndFinish, Asks, TotalSleep, LettersRecord;
    var last := FinalAttempt(policy, attempt);
    SpendsNothing(w, last);
    match Retry.Classify(policy, kind, attempt)
    case RetryNow =>
    case RetryAfter(delay) =>
      EmitSpends(w, Slept(delay), last);
      Retry.DelayNeverShrinks(policy, attempt, attempt);
    case Abort => AckSpends(env, w, at, Outcome(None, Some(RetryExhausted), RS.Failed), last);
    case SendToDeadLetter =>
      var ok := env.deadLetter(w.log);
      var e := DeadLettered(at, DeadLetter(msg.id, msg.session, attempt, msg.payload), ok);
      EmitSpends(w, e, last);
      if ok {
        var outcome := Outcome(None, Some(SentToDeadLetter), RS.Failed);
        AckSpends(env, Emit(w, e), at, outcome, last);
        SpendsTransitive(w, Emit(w, e), AckAndFinish(env, Emit(w, e), at, outcome).w, 0, 0, 0, 0, last);
      }
  }

  lemma PublishSpends(env: Env, policy: Retry.Policy, w: World, at: nat, msg: Inbound, outcome: Outcome, attempt: U32)
    requires outcome.response.Some?
    ensures
      var h := PublishReply(env, policy, w, at, msg, outcome, attempt);
      Spends(w, h.w, 0, if h.verdict.Again? then policy.maxDelay else 0, FinalAttempt(policy, attempt))
  {
    hide AckAndFinish, Spends, Retrying;
    var last := FinalAttempt(policy, attempt);
    var ok := env.publish(w.log);
    var e := Published(at, msg.id, msg.session, outcome.response.value, ok);
    var sent := Emit(w, e);
    var told := Emit(sent, BreakerTold(ok));
    EmitSpends(w, e, last);
    EmitSpends(sent, BreakerTold(ok), last);
    SpendsTransitive(w, sent, told, 0, 0, 0, 0, last);
    if ok {
      var marked := Mark(told, msg);
      MarkSpends(told, msg, last);
      SpendsTransitive(w, told, marked, 0, 0, 0, 0, last);
      AckSpends(env, marked, at, outcome, last);
      SpendsTransitive(w, marked, AckAndFinish(env, marked, at, outcome).w, 0, 0, 0, 0, last);
    } else {
      RetrySpends(env, policy, told, at, msg, "transport_unavailable", attempt);
      var h := Retrying(env, policy, told, at, msg, "transport_unavailable", attempt);
      SpendsTransitive(w, told, h.w, 0, 0, 0, if h.verdict.Again? then policy.maxDelay else 0, last);
    }
  }

  lemma MarkSpends(w: World, msg: Inbound, attempts: int)
    ensures Spends(w, Mark(w, msg), 0, 0, attempts)
  {
    EmitSpends(w, Marked(msg.id, msg.session), attempts);
  }

  lemma AttemptSpends(env: Env, policy: Retry.Policy, w: World, at: nat, msg: Inbound, attempt: U32)
    ensures
      var h := Attempt(env, policy, w, at, msg, attempt);
      && Spends(w, h.w, 1, if h.verdict.Again? then policy.maxDelay else 0, FinalAttempt(policy, attempt))
      && |h.w.log| > |w.log| && h.w.log[|w.log|].BreakerAsked?
  {
    hide Spends, Retrying, PublishReply, ProcessMessage;
    var last := FinalAttempt(policy, attempt);
    var allowed := env.allow(w.log);
    var asked := Emit(w, BreakerAsked(allowed));
    var h := Attempt(env, policy, w, at, msg, attempt);
    var sleep: nat := if h.verdict.Again? then policy.maxDelay else 0;
    EmitSpends(w, BreakerAsked(allowed), last);
    if !allowed {
      RetrySpends(env, policy, asked, at, msg, "provider_unavailable", attempt);
    } else {
      var outcome := ProcessMessage(msg, env.turn(asked.log, msg));
      if outcome.error.None? && outcome.response.Some? {
        PublishSpends(env, policy, asked, at, msg, outcome, attempt);
      } else if CountsAgainstProvider(outcome.error) {
        var told := Emit(asked, BreakerTold(false));
        EmitSpends(asked, BreakerTold(false), last);
        RetrySpends(env, policy, told, at, msg, ErrorKind(outcome.error), attempt);
        SpendsTransitive(asked, told, h.w, 0, 0, 0, sleep, last);
      } else {
        RetrySpends(env, policy, asked, at, msg, ErrorKind(outcome.error), attempt);
      }
    }
    SpendsTransitive(w, asked, h.w, 1, 0, 0, sleep, last);
    SpendsExtends(asked, h.w, 0, sleep, last);
  }

  lemma SpendsExtends(w: World, w': World, asks: nat, sleep: nat, attempts: int)
    requires Spends(w, w', asks, sleep, attempts)
    ensures w.log <= w'.log
  {}

  /** From attempt `attempt` the loop makes at most max(1, M - attempt + 1) passes and waits at most
      max(0, M - attempt) times the longest delay; a dead letter records max(attempt, M) attempts. */
  lemma {:induction false} LoopSpends(env: Env, policy: Retry.Policy, w: World, at: nat, msg: Inbound, attempt: U32)
    ensures Spends(w, ReliableLoop(env, policy, w, at, msg, attempt).w, Max(1, policy.maxAttempts - attempt + 1),
                   SleepBound(policy, attempt), FinalAttempt(policy, attempt))
    decreases policy.maxAttempts - attempt
  {
    hide Attempt, Asks, TotalSleep, LettersRecord;
    var h := Attempt(env, policy, w, at, msg, attempt);
    AttemptSpends(env, policy, w, at, msg, attempt);
    if h.verdict.Again? {
      LoopSpends(env, policy, h.w, at, msg, attempt + 1);
      var rest := policy.maxAttempts - attempt - 1;
      assert (rest + 1) * policy.maxDelay == rest * policy.maxDelay + policy.maxDelay;
      SpendsTransitive(w, h.w, ReliableLoop(env, policy, h.w, at, msg, attempt + 1).w,
                       1, Max(1, policy.maxAttempts - attempt), policy.maxDelay, SleepBound(policy, attempt + 1),
                       FinalAttempt(policy, attempt));
    }
  }

  /** One reliable call is bounded: with a0 = max(header attempt, 1) and M the attempt limit, at most
      max(1, M - a0 + 1) passes, at most max(0, M - a0) longest delays of waiting, and every dead letter
      records exactly max(a0, M) attempts. */
  lemma {:induction false} ReliableCallIsBounded(env: Env, policy: Retry.Policy, w: World)
    ensures
      var w' := RunOnceReliable(env, policy, w).w;
      var msg := env.consume(w.log);
      var first := if msg.Some? then Max(msg.value.attempt, 1) else 1;
      && Asks(w'.log) <= Asks(w.log) + Max(1, policy.maxAttempts - first + 1)
      && TotalSleep(w'.log) <= TotalSleep(w.log) + Max(0, policy.maxAttempts - first) * policy.maxDelay
      && LettersRecord(w'.log, |w.log|, Max(first, policy.maxAttempts))
  {
    hide ReliableLoop, AckAndFinish, Asks, TotalSleep;
    var consumed := env.consume(w.log);
    if consumed.Some? {
      var msg, at := consumed.value, |w.log|;
      var got, first := Emit(w, Consumed(msg)), Max(msg.attempt, 1);
      var last := FinalAttempt(policy, first);
      ConsumingIsFree(w, msg);
      if DedupeKey(msg) in w.keys {
        AckSpends(env, got, at, DUPLICATE, last);
      } else {
        LoopSpends(env, policy, got, at, msg, first);
      }
      assert RunOnceReliable(env, policy, w).w.log[at] == got.log[at];
    }
  }

  lemma ConsumingIsFree(w: World, msg: Inbound)
    ensures
      var got := Emit(w, Consumed(msg));
      Asks(got.log) == Asks(w.log) && TotalSleep(got.log) == TotalSleep(w.log)
  {
    assert (w.log + [Consumed(msg)])[..|w.log + [Consumed(msg)]| - 1] == w.log;
  }
}
