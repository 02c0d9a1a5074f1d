/** The delivery protocol, one event at a time: which event the log of a call continues with, read off the
    log alone. The calls are written as nested decisions; here they are shown to be runs of this small
    automaton, over any sequence of calls. */
module DeliveryProtocol {
  import opened Wrappers
  import opened Text
  import opened Delivery
  import opened DeliveryBounds
  import opened DeliveryTheorems
  import Retry
  import RS = RunState

  /** The number of the attempt that a log, whose current delivery is `at`, is in. */
  function AttemptAt(t: Log, at: nat, msg: Inbound): U32
    requires at <= |t|
  {
    Min(Max(Max(msg.attempt, 1) + Asks(t) - Asks(t[..at]) - 1, 0), U32_MAX)
  }

  predicate IsEmpty(p: Payload) { Trim(p.content) == [] && !p.resumeTurn && p.mediaReferences == [] }

  /** With attempts left `e`, and otherwise the dead letter of the delivery. */
  function UnlessExhausted(env: Env, policy: Retry.Policy, t: Log, at: nat, msg: Inbound, e: Event): Event
    requires at <= |t|
  {
    var n := AttemptAt(t, at, msg);
    if n < policy.maxAttempts then e
    else DeadLettered(at, DeadLetter(msg.id, msg.session, n, msg.payload), env.deadLetter(t))
  }

  /** The event that follows log `t` in a reliable call, and none when the call is over. */
  function NextReliable(env: Env, policy: Retry.Policy, t: Log, at: nat, msg: Inbound, duplicate: bool): Option<Event>
    requires at < |t|
  {
    var ask, ack := BreakerAsked(env.allow(t)), Acked(at, env.ack(t));
    var backOff := UnlessExhausted(env, policy, t, at, msg, Slept(Retry.DelayFor(policy, AttemptAt(t, at, msg))));
    match t[|t| - 1]
    case Consumed(_) => Some(if duplicate then ack else ask)
    case Slept(_) => Some(ask)
    case BreakerAsked(allowed) =>
      if !allowed then Some(backOff)
      else if IsEmpty(msg.payload) then Some(UnlessExhausted(env, policy, t, at, msg, ack))
      else (
        match env.turn(t, msg)
        case Answered(content) => Some(Published(at, msg.id, msg.session, content, env.publish(t)))
        case ProviderDown => Some(BreakerTold(false))
        case _ => Some(UnlessExhausted(env, policy, t, at, msg, ask)))
    case Published(_, _, _, _, ok) => Some(BreakerTold(ok))
    case BreakerTold(success) => Some(if success then Marked(msg.id, msg.session) else backOff)
    case Marked(_, _) => Some(ack)
    case DeadLettered(_, _, ok) => if ok then Some(ack) else None
    case Acked(_, _) => None
  }

  /** The same for a plain call. */
  function NextPlain(env: Env, t: Log, at: nat, msg: Inbound, duplicate: bool): Option<Event>
    requires at < |t|
  {
    var ack, mark := Acked(at, env.ack(t)), Marked(msg.id, msg.session);
    match t[|t| - 1]
    case Consumed(_) =>
      if duplicate then Some(ack)
      else if IsEmpty(msg.payload) then Some(mark)
      else (
        match env.turn(t, msg)
        case Answered(content) => Some(Published(at, msg.id, msg.session, content, env.publish(t)))
        case LoopExhausted(notice) => Some(Published(at, msg.id, msg.session, notice, env.publish(t)))
        case _ => Some(mark))
    case Published(_, _, _, _, ok) => if ok then Some(mark) else None
    case Marked(_, _) => Some(ack)
    case _ => None
  }

  function Next(c: Call, t: Log, at: nat, msg: Inbound, duplicate: bool): Option<Event>
    requires at < |t|
  {
    match c
    case Reliable(env, policy) => NextReliable(env, policy, t, at, msg, duplicate)
    case Plain(env) => NextPlain(env, t, at, msg, duplicate)
  }

  /** Every event after the delivery `at` is the next one of its call. */
  predicate Follows(c: Call, t: Log, at: nat, msg: Inbound, duplicate: bool) {
    && at < |t| && t[at] == Consumed(msg)
    && forall i :: at < i < |t| ==> Next(c, t[..i], at, msg, duplicate) == Some(t[i])
  }

  lemma EmitFollows(c: Call, w: World, e: Event, at: nat, msg: Inbound, duplicate: bool)
    requires Follows(c, w.log, at, msg, duplicate) && Next(c, w.log, at, msg, duplicate) == Some(e)
    ensures Follows(c, Emit(w, e).log, at, msg, duplicate)
  {
    hide Next;
    var t, u := w.log, w.log + [e];
    forall i | at < i < |u| ensures Next(c, u[..i], at, msg, duplicate) == Some(u[i]) {
      assert u[..i] == t[..i];
      if i == |t| {
        assert t[..i] == t;
      }
    }
  }

  /** In a pass with number `attempt`, whose request to the breaker has been made. */
  predicate InPass(c: Call, t: Log, at: nat, msg: Inbound, attempt: U32) {
    c.Reliable? && Follows(c, t, at, msg, false) && Max(msg.attempt, 1) + Asks(t) - Asks(t[..at]) - 1 == attempt
  }

  lemma InPassNumber(c: Call, t: Log, at: nat, msg: Inbound, attempt: U32)
    requires InPass(c, t, at, msg, attempt)
    ensures at < |t| && AttemptAt(t, at, msg) == attempt
  {
    hide Follows, Asks;
    assert at < |t| by { FollowsDelivery(c, t, at, msg); }
  }

  lemma FollowsDelivery(c: Call, t: Log, at: nat, msg: Inbound)
    requires Follows(c, t, at, msg, false)
    ensures at < |t|
  {}

  lemma AsksSnoc(t: Log, e: Event, at: nat)
    requires at <= |t|
    ensures Asks(t + [e]) == Asks(t) + (if e.BreakerAsked? then 1 else 0) && (t + [e])[..at] == t[..at]
  {
    assert (t + [e])[..|t|] == t;
  }

  /** An event that is due, and does not begin a pass, keeps the call in its pass. */
  lemma EmitInPass(c: Call, w: World, e: Event, at: nat, msg: Inbound, attempt: U32)
    requires InPass(c, w.log, at, msg, attempt) && at < |w.log| && Next(c, w.log, at, msg, false) == Some(e)
    requires !e.BreakerAsked?
    ensures InPass(c, Emit(w, e).log, at, msg, attempt)
  {
    hide Next, Asks, Follows;
    EmitFollows(c, w, e, at, msg, false);
    AsksSnoc(w.log, e, at);
  }

  /** Ready to begin the pass with number `attempt`. */
  predicate Ready(c: Call, t: Log, at: nat, msg: Inbound, attempt: U32) {
    && c.Reliable? && Follows(c, t, at, msg, false)
    && Next(c, t, at, msg, false) == Some(BreakerAsked(c.env.allow(t)))
    && Max(msg.attempt, 1) + Asks(t) - Asks(t[..at]) == attempt
  }

  lemma BeginPass(c: Call, w: World, at: nat, msg: Inbound, attempt: U32)
    requires Ready(c, w.log, at, msg, attempt)
    ensures InPass(c, Emit(w, BreakerAsked(c.env.allow(w.log))).log, at, msg, attempt)
  {
    hide Next, Asks;
    var e := BreakerAsked(c.env.allow(w.log));
    EmitFollows(c, w, e, at, msg, false);
    AsksSnoc(w.log, e, at);
  }

  /** What a decision leaves behind: a call that is ready for its next pass, or over. */
  ghost predicate Continues(c: Call, h: Handled, at: nat, msg: Inbound, attempt: U32) {
    && Follows(c, h.w.log, at, msg, false)
    && (h.verdict.Again? ==> attempt < U32_MAX && Ready(c, h.w.log, at, msg, attempt + 1))
    && (!h.verdict.Again? ==> Next(c, h.w.log, at, msg, false) == None)
  }

  lemma AckContinues(c: Call, w: World, at: nat, msg: Inbound, outcome: Outcome, duplicate: bool)
    requires Follows(c, w.log, at, msg, duplicate)
    requires Next(c, w.log, at, msg, duplicate) == Some(Acked(at, c.env.ack(w.log)))
    ensures
      var h := AckAndFinish(c.env, w, at, outcome);
      && Follows(c, h.w.log, at, msg, duplicate) && !h.verdict.Again?
      && Next(c, h.w.log, at, msg, duplicate) == None
  {
    hide Follows;
    EmitFollows(c, w, Acked(at, c.env.ack(w.log)), at, msg, duplicate);
  }

  /** An exhausted pass ends in its dead letter and, if that got through, its acknowledgement. */
  lemma LetterContinues(c: Call, w: World, at: nat, msg: Inbound, kind: string, attempt: U32)
    requires InPass(c, w.log, at, msg, attempt) && at < |w.log| && attempt >= c.policy.maxAttempts
    requires Next(c, w.log, at, msg, false)
          == Some(DeadLettered(at, DeadLetter(msg.id, msg.session, attempt, msg.payload), c.env.deadLetter(w.log)))
    ensures Continues(c, Retrying(c.env, c.policy, w, at, msg, kind, attempt), at, msg, attempt)
  {
    hide Asks, Follows, AckAndFinish;
    var e := DeadLettered(at, DeadLetter(msg.id, msg.session, attempt, msg.payload), c.env.deadLetter(w.log));
    EmitInPass(c, w, e, at, msg, attempt);
    if e.ok {
      AckContinues(c, Emit(w, e), at, msg, Outcome(None, Some(SentToDeadLetter), RS.Failed), false);
    }
  }

  lemma BackOffContinues(c: Call, w: World, at: nat, msg: Inbound, kind: string, attempt: U32)
    requires InPass(c, w.log, at, msg, attempt) && at < |w.log| && kind in ["provider_unavailable", "transport_unavailable"]
    requires w.log[|w.log| - 1] == BreakerAsked(false) || w.log[|w.log| - 1] == BreakerTold(false)
    ensures Continues(c, Retrying(c.env, c.policy, w, at, msg, kind, attempt), at, msg, attempt)
  {
    hide Asks, Follows, AckAndFinish, Retry.DelayFor;
    InPassNumber(c, w.log, at, msg, attempt);
    if attempt >= c.policy.maxAttempts {
      LetterContinues(c, w, at, msg, kind, attempt);
    } else {
      var e := Slept(Retry.DelayFor(c.policy, attempt));
      EmitInPass(c, w, e, at, msg, attempt);
    }
  }

  /** A turn that was permitted and came to nothing that counts against the provider. */
  lemma FruitlessContinues(c: Call, w: World, at: nat, msg: Inbound, attempt: U32, end: TurnEnd)
    requires InPass(c, w.log, at, msg, attempt) && at < |w.log| && w.log[|w.log| - 1] == BreakerAsked(true)
    requires end == c.env.turn(w.log, msg) && (Validates(msg) ==> !end.Answered? && !end.ProviderDown?)
    ensures
      var kind := ErrorKind(ProcessMessage(msg, end).error);
      Continues(c, Retrying(c.env, c.policy, w, at, msg, kind, attempt), at, msg, attempt)
  {
    hide Asks, Follows, AckAndFinish, Trim, RS.After;
    InPassNumber(c, w.log, at, msg, attempt);
    if attempt >= c.policy.maxAttempts {
      LetterContinues(c, w, at, msg, ErrorKind(ProcessMessage(msg, end).error), attempt);
    } else if !Validates(msg) {
      AckContinues(c, w, at, msg, Outcome(None, Some(RetryExhausted), RS.Failed), false);
    }
  }

  lemma AnswerContinues(c: Call, w: World, at: nat, msg: Inbound, attempt: U32, outcome: Outcome)
    requires InPass(c, w.log, at, msg, attempt) && at < |w.log| && outcome.response.Some?
    requires Next(c, w.log, at, msg, false)
          == Some(Published(at, msg.id, msg.session, outcome.response.value, c.env.publish(w.log)))
    ensures Continues(c, PublishReply(c.env, c.policy, w, at, msg, outcome, attempt), at, msg, attempt)
  {
    hide Asks, Follows, AckAndFinish, Retrying, Trim, DedupeKey;
    var ok := c.env.publish(w.log);
    var e := Published(at, msg.id, msg.session, outcome.response.value, ok);
    EmitInPass(c, w, e, at, msg, attempt);
    var sent := Emit(w, e);
    EmitInPass(c, sent, BreakerTold(ok), at, msg, attempt);
    var told := Emit(sent, BreakerTold(ok));
    if ok {
      EmitInPass(c, told, Marked(msg.id, msg.session), at, msg, attempt);
      AckContinues(c, Mark(told, msg), at, msg, outcome, false);
    } else {
      BackOffContinues(c, told, at, msg, "transport_unavailable", attempt);
    }
  }

  lemma AttemptContinues(c: Call, w: World, at: nat, msg: Inbound, attempt: U32)
    requires Ready(c, w.log, at, msg, attempt)
    ensures Continues(c, Attempt(c.env, c.policy, w, at, msg, attempt), at, msg, attempt)
  {
    hide Asks, Follows, InPass, Continues, Retrying, PublishReply, ProcessMessage, RS.After;
    BeginPass(c, w, at, msg, attempt);
    var asked := Emit(w, BreakerAsked(c.env.allow(w.log)));
    InPassNumber(c, asked.log, at, msg, attempt);
    if !c.env.allow(w.log) {
      BackOffContinues(c, asked, at, msg, "provider_unavailable", attempt);
    } else {
      var end := c.env.turn(asked.log, msg);
      OutcomeByEnd(msg, end);
      if Validates(msg) && end.Answered? {
        AnswerContinues(c, asked, at, msg, attempt, ProcessMessage(msg, end));
      } else if Validates(msg) && end.ProviderDown? {
        EmitInPass(c, asked, BreakerTold(false), at, msg, attempt);
        BackOffContinues(c, Emit(asked, BreakerTold(false)), at, msg, "provider_unavailable", attempt);
      } else {
        FruitlessContinues(c, asked, at, msg, attempt, end);
      }
    }
  }

  /** What delivery sees of a processed message. */
  lemma OutcomeByEnd(msg: Inbound, end: TurnEnd)
    ensures
      var o := ProcessMessage(msg, end);
      && (o.error.None? && o.response.Some? <==> Validates(msg) && end.Answered?)
      && (Validates(msg) && (end.Answered? || end.LoopExhausted?) <==> o.response.Some?)
      && (Validates(msg) && end.Answered? ==> o.response == Some(end.content))
      && (Validates(msg) && end.LoopExhausted? ==> o.response == Some(end.notice))
      && (Validates(msg) && end.ProviderDown? <==> CountsAgainstProvider(o.error))
      && (Validates(msg) && end.ProviderDown? ==> ErrorKind(o.error) == "provider_unavailable")
  {
    hide Validates, RS.After;
  }

  lemma {:induction false} LoopContinues(c: Call, w: World, at: nat, msg: Inbound, attempt: U32)
    requires Ready(c, w.log, at, msg, attempt)
    ensures
      var t := ReliableLoop(c.env, c.policy, w, at, msg, attempt).w.log;
      Follows(c, t, at, msg, false) && Next(c, t, at, msg, false) == None
    decreases c.policy.maxAttempts - attempt
  {
    hide Attempt, Follows, Next, Asks;
    AttemptContinues(c, w, at, msg, attempt);
    var h := Attempt(c.env, c.policy, w, at, msg, attempt);
    if h.verdict.Again? {
      LoopContinues(c, h.w, at, msg, attempt + 1);
    }
  }

  lemma PlainFollows(c: Call, w: World, msg: Inbound)
    requires c.Plain? && c.env.consume(w.log) == Some(msg) && DedupeKey(msg) !in w.keys
    ensures
      var t := RunOnce(c.env, w).w.log;
      Follows(c, t, |w.log|, msg, false) && Next(c, t, |w.log|, msg, false) == None
  {
    hide Follows, AckAndFinish, ProcessMessage, DedupeKey, Trim;
    var at, got := |w.log|, Emit(w, Consumed(msg));
    DeliveryFollows(c, w, msg, false);
    var end := c.env.turn(got.log, msg);
    OutcomeByEnd(msg, end);
    var outcome := ProcessMessage(msg, end);
    if outcome.response.None? {
      EmitFollows(c, got, Marked(msg.id, msg.session), at, msg, false);
      AckContinues(c, Mark(got, msg), at, msg, outcome, false);
    } else {
      var e := Published(at, msg.id, msg.session, outcome.response.value, c.env.publish(got.log));
      EmitFollows(c, got, e, at, msg, false);
      if e.ok {
        EmitFollows(c, Emit(got, e), Marked(msg.id, msg.session), at, msg, false);
        AckContinues(c, Mark(Emit(got, e), msg), at, msg, outcome, false);
      }
    }
  }

  lemma DeliveryFollows(c: Call, w: World, msg: Inbound, duplicate: bool)
    ensures Follows(c, Emit(w, Consumed(msg)).log, |w.log|, msg, duplicate)
  {}

  lemma FirstPassIsReady(c: Call, w: World, msg: Inbound)
    requires c.Reliable?
    ensures Ready(c, Emit(w, Consumed(msg)).log, |w.log|, msg, Max(msg.attempt, 1))
  {
    hide Asks;
    DeliveryFollows(c, w, msg, false);
    AsksSnoc(w.log, Consumed(msg), |w.log|);
    assert w.log[..|w.log|] == w.log;
  }

  /** A call consumes one message and then does exactly what the protocol says, up to the point where the
      protocol is over. Without a message it does nothing. */
  lemma {:induction false} CallsFollowProtocol(w: World, c: Call)
    ensures
      var t := RunCall(w, c).log;
      match c.env.consume(w.log)
      case None => t == w.log
      case Some(msg) =>
        var duplicate := DedupeKey(msg) in w.keys;
        w.log <= t && Follows(c, t, |w.log|, msg, duplicate) && Next(c, t, |w.log|, msg, duplicate) == None
  {
    hide Follows, AckAndFinish, ReliableLoop, RunOnce, RunOnceReliable, DedupeKey;
    CallExtends(w, c);
    var consumed := c.env.consume(w.log);
    if consumed.Some? {
      var msg := consumed.value;
      var got := Emit(w, Consumed(msg));
      if DedupeKey(msg) in w.keys {
        DeliveryFollows(c, w, msg, true);
        AckContinues(c, got, |w.log|, msg, DUPLICATE, true);
        DuplicateCall(w, c, msg);
      } else if c.Plain? {
        PlainFollows(c, w, msg);
      } else {
        FirstPassIsReady(c, w, msg);
        LoopContinues(c, got, |w.log|, msg, Max(msg.attempt, 1));
        NewCall(w, c, msg);
      }
    }
  }

  lemma DuplicateCall(w: World, c: Call, msg: Inbound)
    requires c.env.consume(w.log) == Some(msg) && DedupeKey(msg) in w.keys
    ensures RunCall(w, c) == AckAndFinish(c.env, Emit(w, Consumed(msg)), |w.log|, DUPLICATE).w
  {}

  lemma NewCall(w: World, c: Call, msg: Inbound)
    requires c.Reliable? && c.env.consume(w.log) == Some(msg) && DedupeKey(msg) !in w.keys
    ensures RunCall(w, c)
         == ReliableLoop(c.env, c.policy, Emit(w, Consumed(msg)), |w.log|, msg, Max(msg.attempt, 1)).w
  {
    hide ReliableLoop;
  }

  // ----- over any run

  /** Event `j` of the log belongs to call `n`, whose delivery is at `at`. */
  predicate BelongsTo(calls: seq<Call>, n: nat, at: nat, j: nat)
    requires n < |calls|
  {
    at == |RunCalls(FRESH, calls[..n]).log| && at <= j < |RunCalls(FRESH, calls[..n + 1]).log|
  }

  /** The protocol position of event `j` in call `n`. */
  ghost predicate IsDue(calls: seq<Call>, n: nat, at: nat, j: nat, t: Log)
    requires n < |calls|
  {
    && BelongsTo(calls, n, at, j) && j < |t| && t[at].Consumed?
    && var w, msg := RunCalls(FRESH, calls[..n]), t[at].msg;
       && calls[n].env.consume(w.log) == Some(msg)
       && (j > at ==> Next(calls[n], t[..j], at, msg, DedupeKey(msg) in w.keys) == Some(t[j]))
       && (j + 1 == |RunCalls(FRESH, calls[..n + 1]).log| ==>
             Next(calls[n], t[..j + 1], at, msg, DedupeKey(msg) in w.keys) == None)
  }

  /** Every event of every run is a delivery, or the event that the protocol of its call makes due there;
      and a call stops only where its protocol is over. */
  lemma {:induction false} RunsFollowProtocol(calls: seq<Call>, j: nat) returns (n: nat, at: nat)
    requires j < |RunCalls(FRESH, calls).log|
    ensures n < |calls| && IsDue(calls, n, at, j, RunCalls(FRESH, calls).log)
    decreases |calls|
  {
    hide Next, RunCall, DedupeKey;
    var before, c := calls[..|calls| - 1], calls[|calls| - 1];
    var w, t := RunCalls(FRESH, before), RunCalls(FRESH, calls).log;
    CallsFollowProtocol(w, c);
    if j < |w.log| {
      n, at := RunsFollowProtocol(before, j);
      assert before[..n] == calls[..n] && before[..n + 1] == calls[..n + 1];
      assert w.log[..j] == t[..j] && w.log[..j + 1] == t[..j + 1];
    } else {
      n, at := |calls| - 1, |w.log|;
      assert calls[..n + 1] == calls;
      assert j + 1 == |t| ==> t[..j + 1] == t;
    }
  }

  /** A reply is published right after the breaker permitted its pass, or by a plain call right after the
      delivery: a denied pass publishes nothing. */
  lemma {:induction false} DeniedPassesPublishNothing(calls: seq<Call>, j: nat)
    requires j < |RunCalls(FRESH, calls).log| && RunCalls(FRESH, calls).log[j].Published?
    ensures
      var t := RunCalls(FRESH, calls).log;
      && j > 0 && (t[j - 1] == BreakerAsked(true) || t[j - 1].Consumed?)
      && (AllReliable(calls) ==> t[j - 1] == BreakerAsked(true))
  {
    hide RunCalls, DedupeKey, Trim, IsEmpty;
    var n, at := RunsFollowProtocol(calls, j);
  }

  /** The next event after one of call `n` that does not end it. */
  lemma EventIsFollowed(calls: seq<Call>, j: nat, n: nat, at: nat)
    requires j < |RunCalls(FRESH, calls).log| && n < |calls| && IsDue(calls, n, at, j, RunCalls(FRESH, calls).log)
    requires
      var w, t := RunCalls(FRESH, calls[..n]), RunCalls(FRESH, calls).log;
      Next(calls[n], t[..j + 1], at, t[at].msg, DedupeKey(t[at].msg) in w.keys).Some?
    ensures j + 1 < |RunCalls(FRESH, calls).log|
    ensures
      var w, t := RunCalls(FRESH, calls[..n]), RunCalls(FRESH, calls).log;
      Next(calls[n], t[..j + 1], at, t[at].msg, DedupeKey(t[at].msg) in w.keys) == Some(t[j + 1])
  {
    hide Next, DedupeKey, RunCalls;
    var t := RunCalls(FRESH, calls).log;
    var next := RunCalls(FRESH, calls[..n + 1]).log;
    assert calls[..n + 1] + calls[n + 1..] == calls;
    CallsExtend(calls[..n + 1], calls[n + 1..]);
    assert j + 1 < |next|;
    var n', at' := RunsFollowProtocol(calls, j + 1);
    SameCall(calls, n, at, j + 1, n', at', j + 1);
  }

  lemma SameCall(calls: seq<Call>, n: nat, at: nat, j: nat, n': nat, at': nat, j': nat)
    requires n < |calls| && n' < |calls| && BelongsTo(calls, n, at, j) && BelongsTo(calls, n', at', j')
    requires at <= j' && at' <= j
    ensures n' == n && at' == at
  {
    hide RunCalls;
    if n' < n {
      assert calls[..n' + 1] + calls[n' + 1..n] == calls[..n];
      CallsExtend(calls[..n' + 1], calls[n' + 1..n]);
    } else if n < n' {
      assert calls[..n + 1] + calls[n + 1..n'] == calls[..n'];
      CallsExtend(calls[..n + 1], calls[n + 1..n']);
    }
  }

  /** A pass was denied, failed to publish, or told the breaker of a provider that is down. */
  predicate IsSetback(e: Event) { e == BreakerAsked(false) || e == BreakerTold(false) }

  /** Every setback of a reliable call is followed by exactly the delay of its attempt and then the next
      pass, while attempts are left, and by the dead letter that records its attempt when they are not. */
  lemma {:induction false} SetbacksBackOff(calls: seq<Call>, j: nat) returns (n: nat, at: nat)
    requires j < |RunCalls(FRESH, calls).log| && IsSetback(RunCalls(FRESH, calls).log[j])
    ensures n < |calls| && BelongsTo(calls, n, at, j) && calls[n].Reliable?
    ensures
      var t := RunCalls(FRESH, calls).log;
      && at < j && t[at].Consumed? && j + 1 < |t|
      && var msg, policy, attempt := t[at].msg, calls[n].policy, AttemptAt(t[..j + 1], at, t[at].msg);
         if attempt < policy.maxAttempts
         then t[j + 1] == Slept(Retry.DelayFor(policy, attempt)) && j + 2 < |t| && t[j + 2].BreakerAsked?
         else t[j + 1].DeadLettered? && t[j + 1].letter == DeadLetter(msg.id, msg.session, attempt, msg.payload)
  {
    hide RunCalls, DedupeKey, Trim, IsEmpty, AttemptAt, Retry.DelayFor;
    n, at := RunsFollowProtocol(calls, j);
    var t := RunCalls(FRESH, calls).log;
    assert t[..j + 1][j] == t[j];
    EventIsFollowed(calls, j, n, at);
    if t[j + 1].Slept? {
      DueNext(calls, j, n, at);
      assert t[..j + 2][j + 1] == t[j + 1];
      EventIsFollowed(calls, j + 1, n, at);
    }
  }

  /** The event after one that is due is due in the same call. */
  lemma DueNext(calls: seq<Call>, j: nat, n: nat, at: nat)
    requires j + 1 < |RunCalls(FRESH, calls).log| && n < |calls|
    requires IsDue(calls, n, at, j, RunCalls(FRESH, calls).log) && !RunCalls(FRESH, calls).log[j + 1].Consumed?
    ensures IsDue(calls, n, at, j + 1, RunCalls(FRESH, calls).log)
  {
    hide Next, RunCalls, DedupeKey;
    var n', at' := RunsFollowProtocol(calls, j + 1);
    var t := RunCalls(FRESH, calls).log;
    if at' == j + 1 {
      assert false;
    }
    SameCall(calls, n, at, j, n', at', j + 1);
  }
}
