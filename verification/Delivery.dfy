/** Reliable delivery: `run_once`, `run_once_reliable` and `handle_retry_decision` over unreliable
    transports. The broker may deliver anything at any time, and a publish or an acknowledgement may
    fail at any time: each is an oracle over the log of everything that happened before. Calls do not
    overlap. */
module Delivery {
  import opened Wrappers
  import opened Text
  import Retry
  import RS = RunState

  /** A UUID as text, which has no colon. */
  type MessageId = s: string | ':' !in s

  datatype Payload = Payload(
    channel: string, senderId: string, chatId: string, sessionKey: string, content: string,
    mediaReferences: seq<string>, resumeTurn: bool)

  datatype Inbound = Inbound(id: MessageId, session: string, attempt: U32, payload: Payload)

  datatype ErrorCode =
    | InvalidSchema | ValidationFailed | DuplicateMessage | SessionBusy | AgentTimeout | ToolTimeout
    | ProviderUnavailable | ProviderResponseInvalid | TransportUnavailable | RetryExhausted | BudgetExceeded
    | SentToDeadLetter

  datatype Outcome = Outcome(response: Option<string>, error: Option<ErrorCode>, finalState: RS.RunState)

  /** How the inner turn ended, as far as delivery can tell. */
  datatype TurnEnd = Answered(content: string) | LoopExhausted(notice: string) | OverBudget | ProviderDown | ProviderGarbled

  datatype DeadLetter = DeadLetter(id: string, session: string, attempts: U32, payload: Payload)

  /** One effect on the outside world. `at` is the position of the delivery it belongs to. */
  datatype Event =
    | Consumed(msg: Inbound)
    | Published(at: nat, id: MessageId, session: string, content: string, ok: bool)
    | DeadLettered(at: nat, letter: DeadLetter, ok: bool)
    | Marked(id: MessageId, session: string)
    | Acked(at: nat, ok: bool)
    | Slept(delay: Retry.Duration)
    | BreakerAsked(allowed: bool)
    | BreakerTold(success: bool)

  type Log = seq<Event>

  datatype Env = Env(
    consume: Log -> Option<Inbound>,
    publish: Log -> bool,
    deadLetter: Log -> bool,
    ack: Log -> bool,
    allow: Log -> bool,
    turn: (Log, Inbound) -> TurnEnd)

  datatype World = World(log: Log, keys: set<string>)

  function Emit(w: World, e: Event): World { w.(log := w.log + [e]) }

  // ----- processing

  function IdempotencyKey(id: string, session: string, stage: string): string {
    id + ":" + session + ":" + stage
  }

  function DedupeKey(msg: Inbound): string { IdempotencyKey(msg.id, msg.session, "agent_run") }

  predicate Validates(msg: Inbound) {
    Trim(msg.payload.content) != [] || msg.payload.resumeTurn || msg.payload.mediaReferences != []
  }

  function ProcessMessage(msg: Inbound, end: TurnEnd): Outcome {
    if !Validates(msg) then Outcome(None, Some(ValidationFailed), RS.Failed)
    else
      var state := RS.After(RS.Received,
        [RS.StartValidation, RS.ValidationPassed, RS.ContextPrepared, RS.ExecutionStarted, RS.ExecutionFinished]);
      match end
      case Answered(content) => Outcome(Some(content), None, RS.Transition(state, RS.Published))
      case LoopExhausted(notice) => Outcome(Some(notice), Some(RetryExhausted), RS.Failed)
      case OverBudget => Outcome(None, Some(BudgetExceeded), RS.Failed)
      case ProviderDown => Outcome(None, Some(ProviderUnavailable), RS.Degraded)
      case ProviderGarbled => Outcome(None, Some(ProviderResponseInvalid), RS.Degraded)
  }

  function ErrorKind(code: Option<ErrorCode>): string {
    match code
    case Some(ValidationFailed) => "validation"
    case Some(InvalidSchema) => "validation"
    case Some(DuplicateMessage) => "duplicate"
    case Some(ProviderUnavailable) => "provider_unavailable"
    case Some(ToolTimeout) => "tool_timeout"
    case Some(TransportUnavailable) => "transport_unavailable"
    case _ => "unknown"
  }

  predicate CountsAgainstProvider(code: Option<ErrorCode>) {
    code == Some(ProviderUnavailable) || code == Some(ToolTimeout)
  }

  // ----- one call

  /** Where a call stands: try again, return an outcome, or fail with a transport error. */
  datatype Verdict = Again | Finished(outcome: Outcome) | Errored

  datatype Handled = Handled(w: World, verdict: Verdict)

  /** Acknowledges the delivery and finishes, unless the acknowledgement fails. */
  function AckAndFinish(env: Env, w: World, at: nat, outcome: Outcome): Handled {
    var ok := env.ack(w.log);
    Handled(Emit(w, Acked(at, ok)), if ok then Finished(outcome) else Errored)
  }

  function HandleRetryDecision(
    env: Env, w: World, at: nat, msg: Inbound, decision: Retry.Decision, attempt: U32): Handled {
    match decision
    case RetryNow => Handled(w, Again)
    case RetryAfter(delay) => Handled(Emit(w, Slept(delay)), Again)
    case Abort => AckAndFinish(env, w, at, Outcome(None, Some(RetryExhausted), RS.Failed))
    case SendToDeadLetter =>
      var ok := env.deadLetter(w.log);
      var sent := Emit(w, DeadLettered(at, DeadLetter(msg.id, msg.session, attempt, msg.payload), ok));
      if ok then AckAndFinish(env, sent, at, Outcome(None, Some(SentToDeadLetter), RS.Failed)) else Handled(sent, Errored)
  }

  function Retrying(
    env: Env, policy: Retry.Policy, w: World, at: nat, msg: Inbound, kind: string, attempt: U32): Handled {
    HandleRetryDecision(env, w, at, msg, Retry.Classify(policy, kind, attempt), attempt)
  }

  function Mark(w: World, msg: Inbound): World {
    Emit(w, Marked(msg.id, msg.session)).(keys := w.keys + {DedupeKey(msg)})
  }

  function PublishReply(
    env: Env, policy: Retry.Policy, w: World, at: nat, msg: Inbound, outcome: Outcome, attempt: U32): Handled
    requires outcome.response.Some?
  {
    var ok := env.publish(w.log);
    var sent := Emit(w, Published(at, msg.id, msg.session, outcome.response.value, ok));
    if ok then AckAndFinish(env, Mark(Emit(sent, BreakerTold(true)), msg), at, outcome)
    else Retrying(env, policy, Emit(sent, BreakerTold(false)), at, msg, "transport_unavailable", attempt)
  }

  /** One pass through the loop of `run_once_reliable`. Only attempts below the limit are repeated. */
  function Attempt(env: Env, policy: Retry.Policy, w: World, at: nat, msg: Inbound, attempt: U32): (h: Handled)
    ensures h.verdict.Again? ==> attempt < policy.maxAttempts
  {
    var allowed := env.allow(w.log);
    var asked := Emit(w, BreakerAsked(allowed));
    if !allowed then Retrying(env, policy, asked, at, msg, "provider_unavailable", attempt)
    else
      var outcome := ProcessMessage(msg, env.turn(asked.log, msg));
      if outcome.error.None? && outcome.response.Some? then PublishReply(env, policy, asked, at, msg, outcome, attempt)
      else
        var told := if CountsAgainstProvider(outcome.error) then Emit(asked, BreakerTold(false)) else asked;
        Retrying(env, policy, told, at, msg, ErrorKind(outcome.error), attempt)
  }

  function ReliableLoop(env: Env, policy: Retry.Policy, w: World, at: nat, msg: Inbound, attempt: U32): Handled
    decreases policy.maxAttempts - attempt
  {
    var h := Attempt(env, policy, w, at, msg, attempt);
    if h.verdict.Again? then ReliableLoop(env, policy, h.w, at, msg, attempt + 1) else h
  }

  const DUPLICATE := Outcome(None, Some(DuplicateMessage), RS.Completed)

  function RunOnceReliable(env: Env, policy: Retry.Policy, w: World): Handled {
    match env.consume(w.log)
    case None => Handled(w, Errored)
    case Some(msg) =>
      var at, got := |w.log|, Emit(w, Consumed(msg));
      if DedupeKey(msg) in w.keys then AckAndFinish(env, got, at, DUPLICATE)
      else ReliableLoop(env, policy, got, at, msg, Max(msg.attempt, 1))
  }

  /** The plain variant: one attempt, marked and acknowledged whatever came of it. */
  function RunOnce(env: Env, w: World): Handled {
    match env.consume(w.log)
    case None => Handled(w, Errored)
    case Some(msg) =>
      var at, got := |w.log|, Emit(w, Consumed(msg));
      if DedupeKey(msg) in w.keys then AckAndFinish(env, got, at, DUPLICATE)
      else
        var outcome := ProcessMessage(msg, env.turn(got.log, msg));
        if outcome.response.None? then AckAndFinish(env, Mark(got, msg), at, outcome)
        else
          var ok := env.publish(got.log);
          var sent := Emit(got, Published(at, msg.id, msg.session, outcome.response.value, ok));
          if ok then AckAndFinish(env, Mark(sent, msg), at, outcome) else Handled(sent, Errored)
  }

  // ----- any number of calls

  /** Each call may come with its own policy and its own transports. */
  datatype Call = Reliable(env: Env, policy: Retry.Policy) | Plain(env: Env)

  function RunCall(w: World, c: Call): World {
    match c
    case Reliable(env, policy) => RunOnceReliable(env, policy, w).w
    case Plain(env) => RunOnce(env, w).w
  }

  function RunCalls(w: World, calls: seq<Call>): World {
    if calls == [] then w else RunCall(RunCalls(w, calls[..|calls| - 1]), calls[|calls| - 1])
  }

  const FRESH := World([], {})

  // ----- the loops and stores themselves

  /** The runtime's view of its transports and its idempotency store, changed in place. */
  class Runtime {
    var log: Log
    var keys: set<string>

    function View(): World
      reads this
    {
      World(log, keys)
    }

    constructor ()
      ensures View() == FRESH
    {
      log, keys := [], {};
    }

    method Acknowledge(env: Env, at: nat, outcome: Outcome) returns (verdict: Verdict)
      modifies this
      ensures Handled(View(), verdict) == AckAndFinish(env, old(View()), at, outcome)
    {
      var ok := env.ack(log);
      log := log + [Acked(at, ok)];
      verdict := if ok then Finished(outcome) else Errored;
    }

    method Decide(env: Env, at: nat, msg: Inbound, decision: Retry.Decision, attempt: U32) returns (verdict: Verdict)
      modifies this
      ensures Handled(View(), verdict) == HandleRetryDecision(env, old(View()), at, msg, decision, attempt)
    {
      match decision
      case RetryNow =>
        verdict := Again;
      case RetryAfter(delay) =>
        log := log + [Slept(delay)];
        verdict := Again;
      case Abort =>
        verdict := Acknowledge(env, at, Outcome(None, Some(RetryExhausted), RS.Failed));
      case SendToDeadLetter =>
        var ok := env.deadLetter(log);
        log := log + [DeadLettered(at, DeadLetter(msg.id, msg.session, attempt, msg.payload), ok)];
        if !ok {
          return Errored;
        }
        verdict := Acknowledge(env, at, Outcome(None, Some(SentToDeadLetter), RS.Failed));
    }

    method TryOnce(env: Env, policy: Retry.Policy, at: nat, msg: Inbound, attempt: U32) returns (verdict: Verdict)
      modifies this
      ensures Handled(View(), verdict) == Attempt(env, policy, old(View()), at, msg, attempt)
    {
      var allowed := env.allow(log);
      log := log + [BreakerAsked(allowed)];
      if !allowed {
        verdict := Decide(env, at, msg, Retry.Classify(policy, "provider_unavailable", attempt), attempt);
        return;
      }
      var outcome := ProcessMessage(msg, env.turn(log, msg));
      if outcome.error.None? && outcome.response.Some? {
        var ok := env.publish(log);
        log := log + [Published(at, msg.id, msg.session, outcome.response.value, ok)];
        log := log + [BreakerTold(ok)];
        if !ok {
          verdict := Decide(env, at, msg, Retry.Classify(policy, "transport_unavailable", attempt), attempt);
          return;
        }
        log := log + [Marked(msg.id, msg.session)];
        keys := keys + {DedupeKey(msg)};
        verdict := Acknowledge(env, at, outcome);
        return;
      }
      if CountsAgainstProvider(outcome.error) {
        log := log + [BreakerTold(false)];
      }
      verdict := Decide(env, at, msg, Retry.Classify(policy, ErrorKind(outcome.error), attempt), attempt);
    }

    method RunReliably(env: Env, policy: Retry.Policy) returns (verdict: Verdict)
      modifies this
      ensures Handled(View(), verdict) == RunOnceReliable(env, policy, old(View()))
    {
      hide ReliableLoop, AckAndFinish, IdempotencyKey;
      var consumed := env.consume(log);
      if consumed.None? {
        return Errored;
      }
      var msg, at := consumed.value, |log|;
      log := log + [Consumed(msg)];
      if DedupeKey(msg) in keys {
        verdict := Acknowledge(env, at, DUPLICATE);
        return;
      }
      verdict := KeepTrying(env, policy, at, msg, Max(msg.attempt, 1));
    }

    /** The retry loop, from its first attempt on. */
    method KeepTrying(env: Env, policy: Retry.Policy, at: nat, msg: Inbound, first: U32) returns (verdict: Verdict)
      modifies this
      ensures Handled(View(), verdict) == ReliableLoop(env, policy, old(View()), at, msg, first)
    {
      hide Attempt;
      var attempt := first;
      verdict := TryOnce(env, policy, at, msg, attempt);
      while verdict.Again?
        invariant verdict.Again? ==> attempt < policy.maxAttempts
        invariant ReliableLoop(env, policy, old(View()), at, msg, first)
               == if verdict.Again? then ReliableLoop(env, policy, View(), at, msg, attempt + 1)
                  else Handled(View(), verdict)
        decreases verdict.Again?, policy.maxAttempts - attempt
      {
        attempt := attempt + 1;
        verdict := TryOnce(env, policy, at, msg, attempt);
      }
    }

    method RunPlainly(env: Env) returns (verdict: Verdict)
      modifies this
      ensures Handled(View(), verdict) == RunOnce(env, old(View()))
    {
      var consumed := env.consume(log);
      if consumed.None? {
        return Errored;
      }
      var msg, at := consumed.value, |log|;
      log := log + [Consumed(msg)];
      if DedupeKey(msg) in keys {
        verdict := Acknowledge(env, at, DUPLICATE);
        return;
      }
      var outcome := ProcessMessage(msg, env.turn(log, msg));
      if outcome.response.Some? {
        var ok := env.publish(log);
        log := log + [Published(at, msg.id, msg.session, outcome.response.value, ok)];
        if !ok {
          return Errored;
        }
      }
      log := log + [Marked(msg.id, msg.session)];
      keys := keys + {DedupeKey(msg)};
      verdict := Acknowledge(env, at, outcome);
    }
  }
}
