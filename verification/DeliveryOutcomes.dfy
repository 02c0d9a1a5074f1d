/** What the outcome of a call says, and when a call gets there. */
module DeliveryOutcomes {
  import opened Wrappers
  import opened Delivery
  import opened DeliveryTheorems
  import Retry
  import RS = RunState

  /** What the outcome of a finished call says about the delivery it handled. */
  ghost predicate Truthful(h: Handled, at: nat, msg: Inbound) {
    h.verdict.Finished? ==>
      var t, o := h.w.log, h.verdict.outcome;
      && t != [] && t[|t| - 1] == Acked(at, true)
      && match o.error
         case None =>
           && o.finalState == RS.Completed && o.response.Some?
           && exists i :: at < i < |t| && t[i] == Published(at, msg.id, msg.session, o.response.value, true)
         case Some(SentToDeadLetter) =>
           o.response.None? && o.finalState == RS.Failed && exists i :: at < i < |t| && IsLetterFor(t[i], at, msg) && t[i].ok
         case Some(RetryExhausted) => o.response.None? && o.finalState == RS.Failed && !Validates(msg)
         case _ => false
  }

  lemma RetryIsTruthful(env: Env, policy: Retry.Policy, w: World, at: nat, msg: Inbound, kind: string, attempt: U32)
    requires at < |w.log|
    requires kind == "validation" || kind == "schema" || kind == "duplicate" ==> !Validates(msg)
    ensures
      var h := Retrying(env, policy, w, at, msg, kind, attempt);
      Truthful(h, at, msg) && |h.w.log| >= |w.log|
  {
    hide Validates;
    if Retry.Classify(policy, kind, attempt).SendToDeadLetter? {
      var h := Retrying(env, policy, w, at, msg, kind, attempt);
      assert IsLetterFor(h.w.log[|w.log|], at, msg);
    }
  }

  lemma PublishIsTruthful(
    env: Env, policy: Retry.Policy, w: World, at: nat, msg: Inbound, outcome: Outcome, attempt: U32)
    requires at < |w.log| && outcome.response.Some? && outcome.error.None? && outcome.finalState == RS.Completed
    ensures
      var h := PublishReply(env, policy, w, at, msg, outcome, attempt);
      Truthful(h, at, msg) && |h.w.log| >= |w.log|
  {
    hide Retrying, Validates;
    var ok := env.publish(w.log);
    var sent := Emit(w, Published(at, msg.id, msg.session, outcome.response.value, ok));
    if ok {
      var h := PublishReply(env, policy, w, at, msg, outcome, attempt);
      assert h.w.log[|w.log|] == Published(at, msg.id, msg.session, outcome.response.value, true);
    } else {
      RetryIsTruthful(env, policy, Emit(sent, BreakerTold(false)), at, msg, "transport_unavailable", attempt);
    }
  }

  lemma AnswersAreCompleted(msg: Inbound, end: TurnEnd)
    ensures
      var o := ProcessMessage(msg, end);
      && (o.error.None? <==> Validates(msg) && end.Answered?)
      && (o.error.None? ==> o.response == Some(end.content) && o.finalState == RS.Completed)
  {
    assert RS.After(RS.Executing, [RS.ExecutionStarted, RS.ExecutionFinished]) == RS.Publishing;
  }

  lemma AttemptIsTruthful(env: Env, policy: Retry.Policy, w: World, at: nat, msg: Inbound, attempt: U32)
    requires at < |w.log|
    ensures
      var h := Attempt(env, policy, w, at, msg, attempt);
      Truthful(h, at, msg) && |h.w.log| >= |w.log|
  {
    hide Retrying, PublishReply, ProcessMessage, Truthful, Validates;
    var allowed := env.allow(w.log);
    var asked := Emit(w, BreakerAsked(allowed));
    if !allowed {
      RetryIsTruthful(env, policy, asked, at, msg, "provider_unavailable", attempt);
    } else {
      var end := env.turn(asked.log, msg);
      var outcome := ProcessMessage(msg, end);
      AnswersAreCompleted(msg, end);
      if outcome.error.None? && outcome.response.Some? {
        PublishIsTruthful(env, policy, asked, at, msg, outcome, attempt);
      } else {
        OnlyInvalidMessagesAbort(msg, end);
        var told := if CountsAgainstProvider(outcome.error) then Emit(asked, BreakerTold(false)) else asked;
        RetryIsTruthful(env, policy, told, at, msg, ErrorKind(outcome.error), attempt);
      }
    }
  }

  lemma {:induction false} LoopIsTruthful(env: Env, policy: Retry.Policy, w: World, at: nat, msg: Inbound, attempt: U32)
    requires at < |w.log|
    ensures Truthful(ReliableLoop(env, policy, w, at, msg, attempt), at, msg)
    decreases policy.maxAttempts - attempt
  {
    hide Attempt, Truthful;
    AttemptIsTruthful(env, policy, w, at, msg, attempt);
    var h := Attempt(env, policy, w, at, msg, attempt);
    if h.verdict.Again? {
      LoopIsTruthful(env, policy, h.w, at, msg, attempt + 1);
    }
  }

  /** After any calls, the outcome of a finished reliable call tells what became of its message: a duplicate
      was answered before, or discarded by a plain call; success means that exactly this response was
      published; `SentToDeadLetter` means the whole message was buried; `RetryExhausted` means it failed
      validation. There is no other outcome, and the delivery has been acknowledged. */
  lemma {:induction false} OutcomesAreTruthful(calls: seq<Call>, env: Env, policy: Retry.Policy, msg: Inbound)
    requires env.consume(RunCalls(FRESH, calls).log) == Some(msg)
    requires RunOnceReliable(env, policy, RunCalls(FRESH, calls)).verdict.Finished?
    ensures
      var w := RunCalls(FRESH, calls);
      var h := RunOnceReliable(env, policy, w);
      if h.verdict.outcome.error == Some(DuplicateMessage)
      then
        && (if AllReliable(calls) then WasAnswered(w.log, msg) else WasAnswered(w.log, msg) || WasDiscarded(w.log, msg))
        && h.w.log == w.log + [Consumed(msg), Acked(|w.log|, true)]
        && h.verdict.outcome == Outcome(None, Some(DuplicateMessage), RS.Completed)
      else !WasAnswered(w.log, msg) && !WasDiscarded(w.log, msg) && Truthful(h, |w.log|, msg)
  {
    hide RunCalls, ReliableLoop, DedupeKey, WasMarked, WasAnswered, WasDiscarded, AllReliable, Validates;
    var w := RunCalls(FRESH, calls);
    DuplicatesAreGenuine(calls, msg);
    if DedupeKey(msg) !in w.keys {
      LoopIsTruthful(env, policy, Emit(w, Consumed(msg)), |w.log|, msg, Max(msg.attempt, 1));
    }
  }

  /** After any calls, what a plain call that has finished returns: a duplicate was answered or discarded
      before, and otherwise the outcome is told by the message and the end of its turn. */
  lemma {:induction false} PlainOutcomesAreTruthful(calls: seq<Call>, env: Env, msg: Inbound)
    requires env.consume(RunCalls(FRESH, calls).log) == Some(msg)
    requires RunOnce(env, RunCalls(FRESH, calls)).verdict.Finished?
    ensures
      var w := RunCalls(FRESH, calls);
      var o, t := RunOnce(env, w).verdict.outcome, w.log + [Consumed(msg)];
      if WasAnswered(w.log, msg) || WasDiscarded(w.log, msg) then o == Outcome(None, Some(DuplicateMessage), RS.Completed)
      else if !Validates(msg) then o == Outcome(None, Some(ValidationFailed), RS.Failed)
      else
        match env.turn(t, msg)
        case Answered(content) => o == Outcome(Some(content), None, RS.Completed)
        case LoopExhausted(notice) => o == Outcome(Some(notice), Some(RetryExhausted), RS.Failed)
        case OverBudget => o == Outcome(None, Some(BudgetExceeded), RS.Failed)
        case ProviderDown => o == Outcome(None, Some(ProviderUnavailable), RS.Degraded)
        case ProviderGarbled => o == Outcome(None, Some(ProviderResponseInvalid), RS.Degraded)
  {
    hide RunCalls, DedupeKey, WasMarked, WasAnswered, WasDiscarded, AllReliable, Validates, RS.After;
    DuplicatesAreGenuine(calls, msg);
    AnswersAreCompleted(msg, env.turn(RunCalls(FRESH, calls).log + [Consumed(msg)], msg));
  }

  // ----- progress

  /** How a call that does not go on has ended: with an acknowledgement, or because one operation failed. */
  ghost predicate EndsWell(h: Handled, at: nat) {
    var t := h.w.log;
    match h.verdict
    case Again => true
    case Finished(_) => t != [] && t[|t| - 1] == Acked(at, true)
    case Errored => t != [] && (t[|t| - 1] == Acked(at, false) || IsFailedLetter(t[|t| - 1], at))
  }

  predicate IsFailedLetter(e: Event, at: nat) { e.DeadLettered? && e.at == at && !e.ok }

  lemma RetryEndsWell(env: Env, policy: Retry.Policy, w: World, at: nat, msg: Inbound, kind: string, attempt: U32)
    ensures EndsWell(Retrying(env, policy, w, at, msg, kind, attempt), at)
  {
    hide Retry.Classify;
  }

  lemma AttemptEndsWell(env: Env, policy: Retry.Policy, w: World, at: nat, msg: Inbound, attempt: U32)
    ensures EndsWell(Attempt(env, policy, w, at, msg, attempt), at)
  {
    hide Retrying, ProcessMessage, ErrorKind;
    var asked := Emit(w, BreakerAsked(env.allow(w.log)));
    var outcome := ProcessMessage(msg, env.turn(asked.log, msg));
    RetryEndsWell(env, policy, asked, at, msg, "provider_unavailable", attempt);
    RetryEndsWell(env, policy, asked, at, msg, ErrorKind(outcome.error), attempt);
    RetryEndsWell(env, policy, Emit(asked, BreakerTold(false)), at, msg, ErrorKind(outcome.error), attempt);
    if outcome.response.Some? {
      var sent := Emit(asked, Published(at, msg.id, msg.session, outcome.response.value, env.publish(asked.log)));
      RetryEndsWell(env, policy, Emit(sent, BreakerTold(false)), at, msg, "transport_unavailable", attempt);
    }
  }

  lemma {:induction false} LoopEndsWell(env: Env, policy: Retry.Policy, w: World, at: nat, msg: Inbound, attempt: U32)
    ensures EndsWell(ReliableLoop(env, policy, w, at, msg, attempt), at)
    ensures !ReliableLoop(env, policy, w, at, msg, attempt).verdict.Again?
    decreases policy.maxAttempts - attempt
  {
    hide Attempt, EndsWell;
    AttemptEndsWell(env, policy, w, at, msg, attempt);
    var h := Attempt(env, policy, w, at, msg, attempt);
    if h.verdict.Again? {
      LoopEndsWell(env, policy, h.w, at, msg, attempt + 1);
    }
  }

  /** A reliable call always comes to an end. It errs if and only if there was nothing to consume, or the
      last thing it did was an acknowledgement or a dead letter that failed. */
  lemma {:induction false} ReliableCallErrsIff(env: Env, policy: Retry.Policy, w: World)
    ensures
      var h := RunOnceReliable(env, policy, w);
      var t, at := h.w.log, |w.log|;
      && !h.verdict.Again?
      && (env.consume(w.log).Some? ==> t != [])
      && (h.verdict.Errored? <==>
            env.consume(w.log).None? || t[|t| - 1] == Acked(at, false) || IsFailedLetter(t[|t| - 1], at))
  {
    hide ReliableLoop, DedupeKey;
    var consumed := env.consume(w.log);
    if consumed.Some? && DedupeKey(consumed.value) !in w.keys {
      LoopEndsWell(env, policy, Emit(w, Consumed(consumed.value)), |w.log|, consumed.value, Max(consumed.value.attempt, 1));
    }
  }

  /** What a pass adds to the log when its turn is permitted, answers, and the answer is published. */
  function AnswerEvents(at: nat, msg: Inbound, content: string): Log {
    [BreakerAsked(true), Published(at, msg.id, msg.session, content, true), BreakerTold(true), Marked(msg.id, msg.session)]
  }

  /** The pass of a valid message is permitted and answers with `content`, and the publish succeeds. */
  predicate WillAnswer(env: Env, t: Log, msg: Inbound, content: string) {
    var asked := t + [BreakerAsked(true)];
    env.allow(t) && env.turn(asked, msg) == TurnEnd.Answered(content) && env.publish(asked)
  }

  lemma AttemptAnswers(env: Env, policy: Retry.Policy, w: World, at: nat, msg: Inbound, attempt: U32, content: string)
    requires Validates(msg) && WillAnswer(env, w.log, msg, content)
    ensures
      var h := Attempt(env, policy, w, at, msg, attempt);
      var t := w.log + AnswerEvents(at, msg, content);
      && h.w == World(t + [Acked(at, env.ack(t))], w.keys + {DedupeKey(msg)})
      && h.verdict == if env.ack(t) then Finished(Outcome(Some(content), None, RS.Completed)) else Errored
  {
    hide Validates, DedupeKey;
    AnswersAreCompleted(msg, TurnEnd.Answered(content));
    var asked := w.log + [BreakerAsked(true)];
    var sent := asked + [Published(at, msg.id, msg.session, content, true)];
    var t := w.log + AnswerEvents(at, msg, content);
    assert sent + [BreakerTold(true)] + [Marked(msg.id, msg.session)] == t;
  }

  /** With a permitted turn that answers and a successful publish, a reliable call finishes with that
      answer in its first pass, unless the acknowledgement fails. */
  lemma {:induction false} ReliableCallAnswers(env: Env, policy: Retry.Policy, w: World, msg: Inbound, content: string)
    requires env.consume(w.log) == Some(msg) && DedupeKey(msg) !in w.keys && Validates(msg)
    requires WillAnswer(env, w.log + [Consumed(msg)], msg, content)
    ensures
      var h := RunOnceReliable(env, policy, w);
      var t := w.log + [Consumed(msg)] + AnswerEvents(|w.log|, msg, content);
      && h.w == World(t + [Acked(|w.log|, env.ack(t))], w.keys + {DedupeKey(msg)})
      && h.verdict == if env.ack(t) then Finished(Outcome(Some(content), None, RS.Completed)) else Errored
  {
    hide Attempt, WillAnswer, DedupeKey, Validates;
    AttemptAnswers(env, policy, Emit(w, Consumed(msg)), |w.log|, msg, Max(msg.attempt, 1), content);
  }
}
