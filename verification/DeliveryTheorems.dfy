/** What reliable delivery guarantees over any number of calls. */
module DeliveryTheorems {
  import opened Wrappers
  import opened Delivery
  import opened DeliveryBounds
  import Retry
  import RS = RunState

  // ----- idempotency keys

  lemma FirstColonAt(a: string, x: string)
    requires ':' !in a
    ensures
      var s := a + ":" + x;
      s[|a|] == ':' && (forall i :: 0 <= i < |a| ==> s[i] != ':') && s[..|a|] == a && s[|a| + 1..] == x
  {
    var s := a + ":" + x;
    assert forall i :: 0 <= i < |a| ==> s[i] == a[i];
  }

  lemma SplitAtFirstColon(a: string, x: string, b: string, y: string)
    requires ':' !in a && ':' !in b && a + ":" + x == b + ":" + y
    ensures a == b && x == y
  {
    FirstColonAt(a, x);
    FirstColonAt(b, y);
  }

  /** Distinct messages have distinct keys, because a message id has no colon. */
  lemma {:induction false} KeyIsInjective(
    id: MessageId, session: string, id': MessageId, session': string, stage: string)
    requires IdempotencyKey(id, session, stage) == IdempotencyKey(id', session', stage)
    ensures id == id' && session == session'
  {
    var tail := ":" + stage;
    assert IdempotencyKey(id, session, stage) == id + ":" + (session + tail);
    assert IdempotencyKey(id', session', stage) == id' + ":" + (session' + tail);
    SplitAtFirstColon(id, session + tail, id', session' + tail);
    assert session == (session + tail)[..|session + tail| - |tail|];
    assert session' == (session' + tail)[..|session' + tail| - |tail|];
  }

  function KeyOf(id: string, session: string): string { IdempotencyKey(id, session, "agent_run") }

  // ----- at most one publish

  predicate IsReplyTo(e: Event, id: string, session: string) {
    e.Published? && e.ok && e.id == id && e.session == session
  }

  /** Successful outbound publishes for one message. */
  function Publishes(t: Log, id: string, session: string): nat {
    if t == [] then 0
    else Publishes(t[..|t| - 1], id, session) + if IsReplyTo(t[|t| - 1], id, session) then 1 else 0
  }

  ghost predicate Once(w: World) {
    forall id: string, session: string ::
      Publishes(w.log, id, session) == 0 || (Publishes(w.log, id, session) == 1 && KeyOf(id, session) in w.keys)
  }

  lemma PublishesSnoc(w: World, e: Event, id: string, session: string)
    ensures Publishes(Emit(w, e).log, id, session)
         == Publishes(w.log, id, session) + if IsReplyTo(e, id, session) then 1 else 0
  {
    assert (w.log + [e])[..|w.log + [e]| - 1] == w.log;
  }

  predicate IsQuiet(e: Event) { !(e.Published? && e.ok) }

  /** Still unanswered and not yet marked. */
  ghost predicate Pending(w: World, msg: Inbound) {
    Once(w) && Publishes(w.log, msg.id, msg.session) == 0
  }

  lemma QuietKeepsOnce(w: World, e: Event)
    requires Once(w) && IsQuiet(e)
    ensures Once(Emit(w, e))
    ensures forall msg: Inbound :: Pending(w, msg) ==> Pending(Emit(w, e), msg)
  {
    forall id: string, session: string
      ensures Publishes(Emit(w, e).log, id, session) == Publishes(w.log, id, session)
    {
      PublishesSnoc(w, e, id, session);
    }
  }

  lemma AckKeepsOnce(env: Env, w: World, at: nat, outcome: Outcome)
    requires Once(w)
    ensures Once(AckAndFinish(env, w, at, outcome).w) && !AckAndFinish(env, w, at, outcome).verdict.Again?
  {
    hide Once;
    QuietKeepsOnce(w, Acked(at, env.ack(w.log)));
  }

  lemma RetryKeepsOnce(env: Env, policy: Retry.Policy, w: World, at: nat, msg: Inbound, kind: string, attempt: U32)
    requires Pending(w, msg)
    ensures
      var h := Retrying(env, policy, w, at, msg, kind, attempt);
      Once(h.w) && (h.verdict.Again? ==> Pending(h.w, msg))
  {
    hide Once, AckAndFinish;
    match Retry.Classify(policy, kind, attempt)
    case RetryNow =>
    case RetryAfter(delay) => QuietKeepsOnce(w, Slept(delay));
    case Abort => AckKeepsOnce(env, w, at, Outcome(None, Some(RetryExhausted), RS.Failed));
    case SendToDeadLetter =>
      var ok := env.deadLetter(w.log);
      var e := DeadLettered(at, DeadLetter(msg.id, msg.session, attempt, msg.payload), ok);
      QuietKeepsOnce(w, e);
      if ok {
        AckKeepsOnce(env, Emit(w, e), at, Outcome(None, Some(SentToDeadLetter), RS.Failed));
      }
  }

  /** Publishing an unanswered message and marking it, with quiet events between, publishes it once. */
  lemma PublishAndMark(w: World, at: nat, msg: Inbound, content: string, told: bool)
    requires Pending(w, msg)
    ensures
      var sent := Emit(w, Published(at, msg.id, msg.session, content, true));
      Once(Mark(if told then Emit(sent, BreakerTold(true)) else sent, msg))
  {
    var e := Published(at, msg.id, msg.session, content, true);
    var sent := Emit(w, e);
    var ready := if told then Emit(sent, BreakerTold(true)) else sent;
    var marked := Mark(ready, msg);
    forall id: string, session: string
      ensures Publishes(marked.log, id, session) == 0
              || (Publishes(marked.log, id, session) == 1 && KeyOf(id, session) in marked.keys)
    {
      PublishesSnoc(w, e, id, session);
      PublishesSnoc(sent, BreakerTold(true), id, session);
      PublishesSnoc(ready, Marked(msg.id, msg.session), id, session);
    }
  }

  lemma AttemptKeepsOnce(env: Env, policy: Retry.Policy, w: World, at: nat, msg: Inbound, attempt: U32)
    requires Pending(w, msg)
    ensures
      var h := Attempt(env, policy, w, at, msg, attempt);
      Once(h.w) && (h.verdict.Again? ==> Pending(h.w, msg))
  {
    hide Once, Pending, Retrying, AckAndFinish, ProcessMessage, Mark;
    PendingIsOnce(w, msg);
    var allowed := env.allow(w.log);
    var asked := Emit(w, BreakerAsked(allowed));
    QuietKeepsOnce(w, BreakerAsked(allowed));
    if !allowed {
      RetryKeepsOnce(env, policy, asked, at, msg, "provider_unavailable", attempt);
    } else {
      var outcome := ProcessMessage(msg, env.turn(asked.log, msg));
      if outcome.error.None? && outcome.response.Some? {
        var ok := env.publish(asked.log);
        var e := Published(at, msg.id, msg.session, outcome.response.value, ok);
        if ok {
          PublishAndMark(asked, at, msg, outcome.response.value, true);
          AckKeepsOnce(env, Mark(Emit(Emit(asked, e), BreakerTold(true)), msg), at, outcome);
        } else {
          PendingIsOnce(asked, msg);
          QuietKeepsOnce(asked, e);
          PendingIsOnce(Emit(asked, e), msg);
          QuietKeepsOnce(Emit(asked, e), BreakerTold(false));
          RetryKeepsOnce(env, policy, Emit(Emit(asked, e), BreakerTold(false)), at, msg, "transport_unavailable", attempt);
        }
      } else {
        if CountsAgainstProvider(outcome.error) {
          PendingIsOnce(asked, msg);
          QuietKeepsOnce(asked, BreakerTold(false));
        }
        var told := if CountsAgainstProvider(outcome.error) then Emit(asked, BreakerTold(false)) else asked;
        RetryKeepsOnce(env, policy, told, at, msg, ErrorKind(outcome.error), attempt);
      }
    }
  }

  lemma PendingIsOnce(w: World, msg: Inbound)
    requires Pending(w, msg)
    ensures Once(w)
  {}

  lemma {:induction false} LoopKeepsOnce(env: Env, policy: Retry.Policy, w: World, at: nat, msg: Inbound, attempt: U32)
    requires Pending(w, msg)
    ensures Once(ReliableLoop(env, policy, w, at, msg, attempt).w)
    decreases policy.maxAttempts - attempt
  {
    hide Once, Pending, Attempt;
    AttemptKeepsOnce(env, policy, w, at, msg, attempt);
    var h := Attempt(env, policy, w, at, msg, attempt);
    if h.verdict.Again? {
      LoopKeepsOnce(env, policy, h.w, at, msg, attempt + 1);
    }
  }

  lemma CallKeepsOnce(w: World, c: Call)
    requires Once(w)
    ensures Once(RunCall(w, c))
  {
    hide ReliableLoop, ProcessMessage, AckAndFinish, Mark;
    var consumed := c.env.consume(w.log);
    if consumed.Some? {
      var msg, at := consumed.value, |w.log|;
      var got := Emit(w, Consumed(msg));
      QuietKeepsOnce(w, Consumed(msg));
      if DedupeKey(msg) in w.keys {
        AckKeepsOnce(c.env, got, at, DUPLICATE);
      } else {
        PublishesSnoc(w, Consumed(msg), msg.id, msg.session);
        assert Pending(got, msg);
        if c.Reliable? {
          LoopKeepsOnce(c.env, c.policy, got, at, msg, Max(msg.attempt, 1));
        } else {
          PlainKeepsOnce(c.env, got, at, msg, ProcessMessage(msg, c.env.turn(got.log, msg)));
        }
      }
    }
  }

  lemma PlainKeepsOnce(env: Env, got: World, at: nat, msg: Inbound, outcome: Outcome)
    requires Pending(got, msg)
    ensures Once(AckAndFinish(env, Mark(got, msg), at, outcome).w)
    ensures outcome.response.Some? ==>
              var ok := env.publish(got.log);
              var sent := Emit(got, Published(at, msg.id, msg.session, outcome.response.value, ok));
              Once(if ok then AckAndFinish(env, Mark(sent, msg), at, outcome).w else sent)
  {
    hide AckAndFinish;
    QuietKeepsOnce(got, Marked(msg.id, msg.session));
    AckKeepsOnce(env, Mark(got, msg), at, outcome);
    if outcome.response.Some? {
      var ok := env.publish(got.log);
      var e := Published(at, msg.id, msg.session, outcome.response.value, ok);
      if ok {
        PublishAndMark(got, at, msg, outcome.response.value, false);
        AckKeepsOnce(env, Mark(Emit(got, e), msg), at, outcome);
      } else {
        QuietKeepsOnce(got, e);
      }
    }
  }

  lemma {:induction false} CallsKeepOnce(calls: seq<Call>)
    ensures Once(RunCalls(FRESH, calls))
  {
    hide Once, RunCall;
    if calls == [] {
      NothingPublished();
    } else {
      CallsKeepOnce(calls[..|calls| - 1]);
      CallKeepsOnce(RunCalls(FRESH, calls[..|calls| - 1]), calls[|calls| - 1]);
    }
  }

  lemma NothingPublished()
    ensures Once(FRESH)
  {}

  /** Over any sequence of reliable and plain calls, with any redelivery and any failures, each message
      gets at most one successful outbound publish. */
  lemma {:induction false} AtMostOnePublish(calls: seq<Call>, id: MessageId, session: string)
    ensures Publishes(RunCalls(FRESH, calls).log, id, session) <= 1
  {
    CallsKeepOnce(calls);
  }

  // ----- what an acknowledgement means

  predicate Replied(t: Log, id: string, session: string) {
    exists i :: 0 <= i < |t| && IsReplyTo(t[i], id, session)
  }

  predicate WasAnswered(t: Log, msg: Inbound) { Replied(t, msg.id, msg.session) }

  predicate IsLetterFor(e: Event, at: nat, msg: Inbound) {
    && e.DeadLettered? && e.at == at
    && e.letter.id == msg.id && e.letter.session == msg.session && e.letter.payload == msg.payload
  }

  /** The whole payload reached the dead-letter transport. */
  predicate WasBuried(t: Log, at: nat, msg: Inbound) {
    exists i :: 0 <= i < |t| && IsLetterFor(t[i], at, msg) && t[i].ok
  }

  /** Event `i` marks a message as seen straight after its delivery, so nothing came of it. */
  predicate Discards(t: Log, i: nat, id: string, session: string) {
    0 < i < |t| && t[i].Marked? && t[i].id == id && t[i].session == session && IsDelivery(t, i - 1, id, session)
  }

  ghost predicate WasDiscarded(t: Log, msg: Inbound) { exists i: nat :: Discards(t, i, msg.id, msg.session) }

  predicate WasMarked(t: Log, id: string, session: string) {
    exists i :: 0 <= i < |t| && t[i].Marked? && t[i].id == id && t[i].session == session
  }

  predicate NoFailedLetter(t: Log, at: nat) {
    forall i :: 0 <= i < |t| ==> !(t[i].DeadLettered? && t[i].at == at && !t[i].ok)
  }

  predicate NotAcked(t: Log, at: nat) {
    forall i :: 0 <= i < |t| ==> !(t[i].Acked? && t[i].at == at)
  }

  predicate IsDelivery(t: Log, at: nat, id: string, session: string) {
    at < |t| && t[at].Consumed? && t[at].msg.id == id && t[at].msg.session == session
  }

  /** When event `e` may follow log `t`: a delivery is acknowledged only once its message is answered,
      buried, invalid or discarded, and never after a failed dead letter; a dead letter carries its own
      delivery's message and comes before any acknowledgement; a reply belongs to a delivery and its
      message is not marked yet; a message is marked when it has been answered, or straight after its
      delivery while it has not; and the circuit breaker hears of a success or failure right after the
      publish that succeeded or failed, or of a failure right after a permitted turn. */
  ghost predicate MayFollow(t: Log, e: Event) {
    match e
    case Acked(at, _) =>
      && at < |t| && t[at].Consumed? && NoFailedLetter(t, at)
      && (WasAnswered(t, t[at].msg) || WasBuried(t, at, t[at].msg) || !Validates(t[at].msg) || WasDiscarded(t, t[at].msg))
    case DeadLettered(at, letter, ok) =>
      at < |t| && t[at].Consumed? && IsLetterFor(e, at, t[at].msg) && NotAcked(t, at)
    case Published(at, id, session, _, _) =>
      IsDelivery(t, at, id, session) && !WasMarked(t, id, session)
    case Marked(id, session) =>
      t != [] && if t[|t| - 1].Consumed? then IsDelivery(t, |t| - 1, id, session) && !Replied(t, id, session)
                 else Replied(t, id, session)
    case BreakerTold(success) =>
      t != [] && ((t[|t| - 1].Published? && t[|t| - 1].ok == success) || (!success && t[|t| - 1] == BreakerAsked(true)))
    case _ => true
  }

  ghost predicate Lawful(t: Log) {
    forall j :: 0 <= j < |t| ==> MayFollow(t[..j], t[j])
  }

  predicate IsMarkFor(e: Event, key: string) { e.Marked? && KeyOf(e.id, e.session) == key }

  /** The store holds exactly the keys of the marked messages. */
  ghost predicate KeysAreMarks(w: World) {
    forall key :: key in w.keys <==> exists i :: 0 <= i < |w.log| && IsMarkFor(w.log[i], key)
  }

  ghost predicate Accountable(w: World) { Lawful(w.log) && KeysAreMarks(w) }

  /** Delivery `at` of `msg` has neither been acknowledged nor failed to be buried. */
  ghost predicate IsOpen(w: World, at: nat, msg: Inbound) {
    && Accountable(w)
    && at < |w.log| && w.log[at] == Consumed(msg) && NotAcked(w.log, at) && NoFailedLetter(w.log, at)
  }

  /** The call owns an open delivery of a message that is not marked. */
  ghost predicate Owns(w: World, at: nat, msg: Inbound) {
    IsOpen(w, at, msg) && !WasMarked(w.log, msg.id, msg.session)
  }

  lemma EmitLawful(t: Log, e: Event)
    requires Lawful(t) && MayFollow(t, e)
    ensures Lawful(t + [e])
  {
    hide MayFollow;
    var t' := t + [e];
    forall j | 0 <= j < |t'| ensures MayFollow(t'[..j], t'[j]) {
      assert t'[..j] == t[..j];
      if j == |t| {
        assert t[..j] == t;
      }
    }
  }

  lemma EmitKeepsMarks(w: World, e: Event)
    requires KeysAreMarks(w) && !e.Marked?
    ensures KeysAreMarks(Emit(w, e))
  {
    hide KeyOf;
    var t := w.log + [e];
    forall key ensures key in w.keys <==> exists i :: 0 <= i < |t| && IsMarkFor(t[i], key) {
      if key in w.keys {
        var i :| 0 <= i < |w.log| && IsMarkFor(w.log[i], key);
        assert IsMarkFor(t[i], key);
      }
    }
  }

  lemma EmitAccountable(w: World, e: Event)
    requires Accountable(w) && MayFollow(w.log, e) && !e.Marked?
    ensures Accountable(Emit(w, e))
  {
    hide MayFollow, Lawful, KeysAreMarks;
    EmitLawful(w.log, e);
    EmitKeepsMarks(w, e);
  }

  lemma MarkAccountable(w: World, msg: Inbound)
    requires Accountable(w) && MayFollow(w.log, Marked(msg.id, msg.session))
    ensures Accountable(Mark(w, msg))
  {
    hide MayFollow, Lawful, IdempotencyKey;
    EmitLawful(w.log, Marked(msg.id, msg.session));
    var m := Mark(w, msg);
    forall key ensures key in m.keys <==> exists i :: 0 <= i < |m.log| && IsMarkFor(m.log[i], key) {
      if key in w.keys {
        var i :| 0 <= i < |w.log| && IsMarkFor(w.log[i], key);
        assert IsMarkFor(m.log[i], key);
      } else if key == DedupeKey(msg) {
        assert IsMarkFor(m.log[|w.log|], key);
      }
    }
  }

  /** A message is a duplicate if and only if it was marked: keys of different messages differ. */
  lemma DuplicateIffMarked(w: World, msg: Inbound)
    requires KeysAreMarks(w)
    ensures DedupeKey(msg) in w.keys <==> WasMarked(w.log, msg.id, msg.session)
  {
    if DedupeKey(msg) in w.keys {
      var i :| 0 <= i < |w.log| && IsMarkFor(w.log[i], DedupeKey(msg));
      KeyIsInjective(w.log[i].id, w.log[i].session, msg.id, msg.session, "agent_run");
    }
  }

  /** A marked message was answered or discarded. */
  lemma MarkedIsSettled(t: Log, id: string, session: string)
    requires Lawful(t) && WasMarked(t, id, session)
    ensures Replied(t, id, session) || exists i: nat :: Discards(t, i, id, session)
  {
    var i :| 0 <= i < |t| && t[i].Marked? && t[i].id == id && t[i].session == session;
    assert MayFollow(t[..i], t[i]);
    if t[..i][i - 1].Consumed? {
      assert Discards(t, i, id, session);
    } else {
      var j :| 0 <= j < i && IsReplyTo(t[..i][j], id, session);
      assert IsReplyTo(t[j], id, session);
    }
  }

  /** A discarded message is never answered, before or after. */
  lemma DiscardedIsUnanswered(t: Log, id: string, session: string, i: nat)
    requires Lawful(t) && Discards(t, i, id, session)
    ensures !Replied(t, id, session)
  {
    assert MayFollow(t[..i], t[i]);
    forall j | 0 <= j < |t| ensures !IsReplyTo(t[j], id, session) {
      if j < i {
        assert t[..i][j] == t[j];
      } else if j > i && t[j].Published? {
        assert MayFollow(t[..j], t[j]);
        assert t[..j][i] == t[i];
      }
    }
  }

  /** Events that neither acknowledge, bury nor mark anything keep a delivery owned. */
  lemma EmitOwns(w: World, e: Event, at: nat, msg: Inbound)
    requires Owns(w, at, msg) && !e.Acked? && !e.DeadLettered? && !e.Marked? && MayFollow(w.log, e)
    ensures Owns(Emit(w, e), at, msg)
  {
    hide Accountable, MayFollow;
    EmitAccountable(w, e);
  }

  lemma AckAccountable(env: Env, w: World, at: nat, outcome: Outcome)
    requires Accountable(w) && MayFollow(w.log, Acked(at, env.ack(w.log)))
    ensures Accountable(AckAndFinish(env, w, at, outcome).w) && !AckAndFinish(env, w, at, outcome).verdict.Again?
  {
    hide Accountable, MayFollow;
    EmitAccountable(w, Acked(at, env.ack(w.log)));
  }

  lemma RetryAccountable(env: Env, policy: Retry.Policy, w: World, at: nat, msg: Inbound, kind: string, attempt: U32)
    requires Owns(w, at, msg)
    requires kind == "validation" || kind == "schema" || kind == "duplicate" ==> !Validates(msg)
    ensures
      var h := Retrying(env, policy, w, at, msg, kind, attempt);
      Accountable(h.w) && (h.verdict.Again? ==> Owns(h.w, at, msg))
  {
    hide Accountable, Validates, WasMarked;
    match Retry.Classify(policy, kind, attempt)
    case RetryNow =>
    case RetryAfter(delay) => EmitOwns(w, Slept(delay), at, msg);
    case Abort => AckAccountable(env, w, at, Outcome(None, Some(RetryExhausted), RS.Failed));
    case SendToDeadLetter =>
      var ok := env.deadLetter(w.log);
      var e := DeadLettered(at, DeadLetter(msg.id, msg.session, attempt, msg.payload), ok);
      EmitAccountable(w, e);
      if ok {
        var sent := Emit(w, e);
        assert IsLetterFor(sent.log[|w.log|], at, msg);
        AckAccountable(env, sent, at, Outcome(None, Some(SentToDeadLetter), RS.Failed));
      }
  }

  /** An open delivery whose message was just answered, or just discarded, is marked and acknowledged. */
  lemma SettleAccountable(env: Env, w: World, at: nat, msg: Inbound, outcome: Outcome)
    requires IsOpen(w, at, msg) && MayFollow(w.log, Marked(msg.id, msg.session))
    ensures Accountable(AckAndFinish(env, Mark(w, msg), at, outcome).w)
    ensures !AckAndFinish(env, Mark(w, msg), at, outcome).verdict.Again?
  {
    hide Accountable, Validates, AckAndFinish;
    MarkAccountable(w, msg);
    var m := Mark(w, msg);
    if w.log[|w.log| - 1].Consumed? {
      assert Discards(m.log, |w.log|, msg.id, msg.session);
    } else {
      var i :| 0 <= i < |w.log| && IsReplyTo(w.log[i], msg.id, msg.session);
      assert IsReplyTo(m.log[i], msg.id, msg.session);
    }
    AckAccountable(env, m, at, outcome);
  }

  lemma PublishAccountable(
    env: Env, policy: Retry.Policy, w: World, at: nat, msg: Inbound, outcome: Outcome, attempt: U32)
    requires Owns(w, at, msg) && outcome.response.Some?
    ensures
      var h := PublishReply(env, policy, w, at, msg, outcome, attempt);
      Accountable(h.w) && (h.verdict.Again? ==> Owns(h.w, at, msg))
  {
    hide Accountable, Retrying, AckAndFinish, Mark, WasMarked, NotAcked, NoFailedLetter;
    var ok := env.publish(w.log);
    var e := Published(at, msg.id, msg.session, outcome.response.value, ok);
    var sent := Emit(w, e);
    EmitOwns(w, e, at, msg);
    EmitOwns(sent, BreakerTold(ok), at, msg);
    var told := Emit(sent, BreakerTold(ok));
    if ok {
      assert IsReplyTo(told.log[|w.log|], msg.id, msg.session);
      SettleAccountable(env, told, at, msg, outcome);
    } else {
      RetryAccountable(env, policy, told, at, msg, "transport_unavailable", attempt);
    }
  }

  lemma OnlyInvalidMessagesAbort(msg: Inbound, end: TurnEnd)
    ensures
      var kind := ErrorKind(ProcessMessage(msg, end).error);
      kind == "validation" || kind == "schema" || kind == "duplicate" ==> !Validates(msg)
  {}

  lemma AttemptAccountable(env: Env, policy: Retry.Policy, w: World, at: nat, msg: Inbound, attempt: U32)
    requires Owns(w, at, msg)
    ensures
      var h := Attempt(env, policy, w, at, msg, attempt);
      Accountable(h.w) && (h.verdict.Again? ==> Owns(h.w, at, msg))
  {
    hide Accountable, Owns, Retrying, PublishReply, ProcessMessage;
    var allowed := env.allow(w.log);
    var asked := Emit(w, BreakerAsked(allowed));
    EmitOwns(w, BreakerAsked(allowed), at, msg);
    if !allowed {
      RetryAccountable(env, policy, asked, at, msg, "provider_unavailable", attempt);
    } else {
      var end := env.turn(asked.log, msg);
      var outcome := ProcessMessage(msg, end);
      if outcome.error.None? && outcome.response.Some? {
        PublishAccountable(env, policy, asked, at, msg, outcome, attempt);
      } else {
        OnlyInvalidMessagesAbort(msg, end);
        if CountsAgainstProvider(outcome.error) {
          EmitOwns(asked, BreakerTold(false), at, msg);
        }
        var told := if CountsAgainstProvider(outcome.error) then Emit(asked, BreakerTold(false)) else asked;
        RetryAccountable(env, policy, told, at, msg, ErrorKind(outcome.error), attempt);
      }
    }
  }

  lemma {:induction false} LoopAccountable(
    env: Env, policy: Retry.Policy, w: World, at: nat, msg: Inbound, attempt: U32)
    requires Owns(w, at, msg)
    ensures Accountable(ReliableLoop(env, policy, w, at, msg, attempt).w)
    decreases policy.maxAttempts - attempt
  {
    hide Accountable, Owns, Attempt;
    AttemptAccountable(env, policy, w, at, msg, attempt);
    var h := Attempt(env, policy, w, at, msg, attempt);
    if h.verdict.Again? {
      LoopAccountable(env, policy, h.w, at, msg, attempt + 1);
    }
  }

  /** A fresh delivery is open: no earlier event can refer to it. */
  lemma FreshDeliveryIsOpen(w: World, msg: Inbound)
    requires Accountable(w)
    ensures IsOpen(Emit(w, Consumed(msg)), |w.log|, msg)
  {
    hide KeysAreMarks;
    EmitAccountable(w, Consumed(msg));
    var t := w.log;
    forall i | 0 <= i < |t| && (t[i].Acked? || t[i].DeadLettered?) ensures t[i].at < |t| {
      assert MayFollow(t[..i], t[i]);
    }
  }

  /** Skipping a duplicate is lawful: its message was answered or discarded before. */
  lemma SkipAccountable(env: Env, w: World, msg: Inbound)
    requires Accountable(w) && DedupeKey(msg) in w.keys
    ensures Accountable(AckAndFinish(env, Emit(w, Consumed(msg)), |w.log|, DUPLICATE).w)
  {
    hide Lawful, KeysAreMarks, Validates, AckAndFinish, NotAcked, WasMarked, DedupeKey;
    var got := Emit(w, Consumed(msg));
    FreshDeliveryIsOpen(w, msg);
    DuplicateIffMarked(got, msg);
    MarkedIsSettled(got.log, msg.id, msg.session);
    AckAccountable(env, got, |w.log|, DUPLICATE);
  }

  /** A delivery that is not a duplicate can be answered or discarded. */
  lemma NewMessageIsOwned(w: World, msg: Inbound)
    requires Accountable(w) && Once(w) && DedupeKey(msg) !in w.keys
    ensures Owns(Emit(w, Consumed(msg)), |w.log|, msg)
    ensures MayFollow(Emit(w, Consumed(msg)).log, Marked(msg.id, msg.session))
  {
    hide Lawful, KeysAreMarks, DedupeKey;
    var got := Emit(w, Consumed(msg));
    FreshDeliveryIsOpen(w, msg);
    DuplicateIffMarked(got, msg);
    NewMessageIsUnanswered(w, msg);
    forall i | 0 <= i < |got.log| ensures !IsReplyTo(got.log[i], msg.id, msg.session) {
      if i < |w.log| {
        assert got.log[i] == w.log[i];
      }
    }
  }

  lemma NewMessageIsUnanswered(w: World, msg: Inbound)
    requires Once(w) && DedupeKey(msg) !in w.keys
    ensures !WasAnswered(w.log, msg)
  {
    if WasAnswered(w.log, msg) {
      AnsweredIsCounted(w.log, msg);
    }
  }

  lemma {:induction false} AnsweredIsCounted(t: Log, msg: Inbound)
    requires WasAnswered(t, msg)
    ensures Publishes(t, msg.id, msg.session) >= 1
  {
    var i :| 0 <= i < |t| && IsReplyTo(t[i], msg.id, msg.session);
    if i < |t| - 1 {
      assert t[..|t| - 1][i] == t[i];
      AnsweredIsCounted(t[..|t| - 1], msg);
    }
  }

  lemma PlainAccountable(env: Env, w: World, msg: Inbound)
    requires Accountable(w) && Once(w) && DedupeKey(msg) !in w.keys && env.consume(w.log) == Some(msg)
    ensures Accountable(RunOnce(env, w).w)
  {
    hide Accountable, AckAndFinish, ProcessMessage, DedupeKey, Mark, Once, NotAcked, NoFailedLetter, WasMarked;
    NewMessageIsOwned(w, msg);
    var at, got := |w.log|, Emit(w, Consumed(msg));
    var outcome := ProcessMessage(msg, env.turn(got.log, msg));
    if outcome.response.None? {
      SettleAccountable(env, got, at, msg, outcome);
    } else {
      var e := Published(at, msg.id, msg.session, outcome.response.value, env.publish(got.log));
      EmitOwns(got, e, at, msg);
      if e.ok {
        assert IsReplyTo(Emit(got, e).log[|got.log|], msg.id, msg.session);
        SettleAccountable(env, Emit(got, e), at, msg, outcome);
      }
    }
  }

  lemma CallAccountable(w: World, c: Call)
    requires Accountable(w) && Once(w)
    ensures Accountable(RunCall(w, c))
  {
    hide Accountable, Once, ReliableLoop, AckAndFinish, DedupeKey, ProcessMessage, Owns, MayFollow;
    var consumed := c.env.consume(w.log);
    if consumed.Some? {
      var msg := consumed.value;
      if DedupeKey(msg) in w.keys {
        SkipAccountable(c.env, w, msg);
      } else if c.Plain? {
        PlainAccountable(c.env, w, msg);
      } else {
        NewMessageIsOwned(w, msg);
        LoopAccountable(c.env, c.policy, Emit(w, Consumed(msg)), |w.log|, msg, Max(msg.attempt, 1));
      }
    }
  }

  lemma {:induction false} CallsAccountable(calls: seq<Call>)
    ensures Accountable(RunCalls(FRESH, calls))
  {
    hide RunCall, MayFollow, Once;
    if calls != [] {
      var before, c := calls[..|calls| - 1], calls[|calls| - 1];
      CallsAccountable(before);
      CallsKeepOnce(before);
      CallAccountable(RunCalls(FRESH, before), c);
    }
  }

  /** In any run of reliable and plain calls, whenever a delivery is acknowledged its message was already
      published outbound, or its full payload already reached the dead-letter transport, or it failed
      validation, or a plain call had discarded it (`DiscardsComeFromPlainCalls`). */
  lemma {:induction false} AckedMessagesAreSettled(calls: seq<Call>, j: nat)
    requires j < |RunCalls(FRESH, calls).log| && RunCalls(FRESH, calls).log[j].Acked?
    ensures
      var t := RunCalls(FRESH, calls).log;
      var at := t[j].at;
      && at < j && t[at].Consumed?
      && (WasAnswered(t[..j], t[at].msg) || WasBuried(t[..j], at, t[at].msg) || !Validates(t[at].msg)
          || WasDiscarded(t[..j], t[at].msg))
  {
    hide RunCalls, Validates;
    CallsAccountable(calls);
    var t := RunCalls(FRESH, calls).log;
    assert MayFollow(t[..j], t[j]);
  }

  predicate AllReliable(calls: seq<Call>) { forall i :: 0 <= i < |calls| ==> calls[i].Reliable? }

  /** In any run of reliable calls no acknowledged message is lost: it was answered, or buried whole, or
      it failed validation. */
  lemma {:induction false} NoAckedMessageIsLost(calls: seq<Call>, j: nat)
    requires AllReliable(calls)
    requires j < |RunCalls(FRESH, calls).log| && RunCalls(FRESH, calls).log[j].Acked?
    ensures
      var t := RunCalls(FRESH, calls).log;
      var at := t[j].at;
      && at < j && t[at].Consumed?
      && (WasAnswered(t[..j], t[at].msg) || WasBuried(t[..j], at, t[at].msg) || !Validates(t[at].msg))
  {
    hide RunCalls, Validates, WasAnswered, WasBuried;
    AckedMessagesAreSettled(calls, j);
    var t := RunCalls(FRESH, calls).log;
    var msg := t[t[j].at].msg;
    if WasDiscarded(t[..j], msg) {
      var i: nat :| Discards(t[..j], i, msg.id, msg.session);
      assert Discards(t, i, msg.id, msg.session);
      ReliableCallsDiscardNothing(calls, msg);
    }
  }

  /** A message whose dead letter failed is never acknowledged, so the broker keeps it. */
  lemma {:induction false} FailedDeadLetterStaysUnacked(calls: seq<Call>, i: nat, j: nat)
    requires
      var t := RunCalls(FRESH, calls).log;
      i < |t| && j < |t| && t[i].DeadLettered? && !t[i].ok && t[j].Acked?
    ensures
      var t := RunCalls(FRESH, calls).log;
      t[j].at != t[i].at
  {
    hide RunCalls, Validates;
    CallsAccountable(calls);
    var t := RunCalls(FRESH, calls).log;
    assert MayFollow(t[..j], t[j]) && MayFollow(t[..i], t[i]);
    if i < j {
      assert t[..j][i] == t[i];
    } else {
      assert t[..i][j] == t[j];
    }
  }

  /** Distinct messages never suppress each other. In any run of both calls a message is skipped as a
      duplicate if and only if that very message was marked, which is so if and only if it was answered or
      discarded, and never both. In a run of reliable calls it was answered. */
  lemma {:induction false} DuplicatesAreGenuine(calls: seq<Call>, msg: Inbound)
    ensures
      var w := RunCalls(FRESH, calls);
      && (DedupeKey(msg) in w.keys <==> WasMarked(w.log, msg.id, msg.session))
      && (DedupeKey(msg) in w.keys <==> WasAnswered(w.log, msg) || WasDiscarded(w.log, msg))
      && !(WasAnswered(w.log, msg) && WasDiscarded(w.log, msg))
      && (AllReliable(calls) ==> (DedupeKey(msg) in w.keys <==> WasAnswered(w.log, msg)))
  {
    hide RunCalls, Lawful, KeysAreMarks, Once, DedupeKey;
    CallsAccountable(calls);
    CallsKeepOnce(calls);
    var w := RunCalls(FRESH, calls);
    DuplicateIffMarked(w, msg);
    if DedupeKey(msg) in w.keys {
      MarkedIsSettled(w.log, msg.id, msg.session);
    } else {
      NewMessageIsUnanswered(w, msg);
    }
    if WasDiscarded(w.log, msg) {
      var i: nat :| Discards(w.log, i, msg.id, msg.session);
      assert WasMarked(w.log, msg.id, msg.session);
      DiscardedIsUnanswered(w.log, msg.id, msg.session, i);
      if AllReliable(calls) {
        ReliableCallsDiscardNothing(calls, msg);
      }
    }
  }

  // ----- the plain variant loses messages

  /** `run_once` makes no such promise: in any reachable world, when it finishes with a new message it has
      acknowledged it and buried it nowhere, answered it exactly when it is valid and its turn produced a
      response, and discarded it otherwise. */
  lemma {:induction false} PlainCallLosesUnansweredMessages(calls: seq<Call>, env: Env, msg: Inbound)
    requires env.consume(RunCalls(FRESH, calls).log) == Some(msg) && DedupeKey(msg) !in RunCalls(FRESH, calls).keys
    requires RunOnce(env, RunCalls(FRESH, calls)).verdict.Finished?
    ensures
      var w := RunCalls(FRESH, calls);
      var t := RunOnce(env, w).w.log;
      var end := env.turn(w.log + [Consumed(msg)], msg);
      && t[|t| - 1] == Acked(|w.log|, true) && !WasBuried(t, |w.log|, msg)
      && (WasAnswered(t, msg) <==> Validates(msg) && (end.Answered? || end.LoopExhausted?))
      && (WasDiscarded(t, msg) <==> !WasAnswered(t, msg))
  {
    hide RunCalls, Validates, Accountable, Once, RunOnce, DedupeKey, WasAnswered, WasDiscarded, WasBuried;
    CallsAccountable(calls);
    CallsKeepOnce(calls);
    PlainCallSettles(env, RunCalls(FRESH, calls), msg);
  }

  lemma PlainCallSettles(env: Env, w: World, msg: Inbound)
    requires Accountable(w) && Once(w) && env.consume(w.log) == Some(msg) && DedupeKey(msg) !in w.keys
    requires RunOnce(env, w).verdict.Finished?
    ensures
      var t := RunOnce(env, w).w.log;
      var end := env.turn(w.log + [Consumed(msg)], msg);
      && t[|t| - 1] == Acked(|w.log|, true) && !WasBuried(t, |w.log|, msg)
      && (WasAnswered(t, msg) <==> Validates(msg) && (end.Answered? || end.LoopExhausted?))
      && (WasDiscarded(t, msg) <==> !WasAnswered(t, msg))
  {
    hide Validates, Lawful, Once, RunOnce, DedupeKey, KeysAreMarks, WasAnswered, WasDiscarded, WasBuried;
    PlainCallLog(env, w, msg);
    CallAccountable(w, Plain(env));
    var outcome := ProcessMessage(msg, env.turn(w.log + [Consumed(msg)], msg));
    PlainEventsSettle(w.log, msg, outcome);
    PlainEventsBuryNothing(w.log, msg, outcome);
  }

  lemma PlainEventsSettle(t: Log, msg: Inbound, outcome: Outcome)
    requires Lawful(t + PlainEvents(|t|, msg, outcome))
    ensures
      var u := t + PlainEvents(|t|, msg, outcome);
      && (WasAnswered(u, msg) <==> outcome.response.Some?)
      && (WasDiscarded(u, msg) <==> outcome.response.None?)
  {
    hide Lawful;
    var u := t + PlainEvents(|t|, msg, outcome);
    if outcome.response.Some? {
      assert IsReplyTo(u[|t| + 1], msg.id, msg.session);
      if i: nat :| Discards(u, i, msg.id, msg.session) {
        DiscardedIsUnanswered(u, msg.id, msg.session, i);
      }
    } else {
      assert Discards(u, |t| + 1, msg.id, msg.session);
      DiscardedIsUnanswered(u, msg.id, msg.session, |t| + 1);
    }
  }

  lemma PlainEventsBuryNothing(t: Log, msg: Inbound, outcome: Outcome)
    requires Lawful(t)
    ensures !WasBuried(t + PlainEvents(|t|, msg, outcome), |t|, msg)
  {
    var u := t + PlainEvents(|t|, msg, outcome);
    forall i | 0 <= i < |u| ensures !IsLetterFor(u[i], |t|, msg) {
      if i < |t| {
        assert MayFollow(t[..i], t[i]);
      }
    }
  }

  /** What a plain call that finishes with a new message adds to the log. */
  function PlainEvents(at: nat, msg: Inbound, outcome: Outcome): Log {
    if outcome.response.None? then [Consumed(msg), Marked(msg.id, msg.session), Acked(at, true)]
    else [Consumed(msg), Published(at, msg.id, msg.session, outcome.response.value, true),
          Marked(msg.id, msg.session), Acked(at, true)]
  }

  lemma PlainCallLog(env: Env, w: World, msg: Inbound)
    requires env.consume(w.log) == Some(msg) && DedupeKey(msg) !in w.keys && RunOnce(env, w).verdict.Finished?
    ensures RunOnce(env, w).w.log
         == w.log + PlainEvents(|w.log|, msg, ProcessMessage(msg, env.turn(w.log + [Consumed(msg)], msg)))
  {
    hide ProcessMessage, DedupeKey;
  }

  const HELLO := Inbound("id", "session", 1, Payload("telegram", "sender", "chat", "session", "hello", [], false))

  /** The broker delivers `HELLO`, the turn runs over its budget, and every transport works. */
  const OVER_BUDGET := Env(_ => Some(HELLO), _ => true, _ => true, _ => true, _ => true, (_, _) => OverBudget)

  /** The loss is real: a plain call discards a valid message. */
  lemma {:induction false} PlainCallLosesAMessage()
    ensures Validates(HELLO)
    ensures
      var h := RunOnce(OVER_BUDGET, FRESH);
      h.verdict.Finished? && WasDiscarded(h.w.log, HELLO) && !WasAnswered(h.w.log, HELLO)
  {
    var w := Emit(FRESH, Consumed(HELLO));
    var h := RunOnce(OVER_BUDGET, FRESH);
    assert h.w == Emit(Mark(w, HELLO), Acked(0, true));
    assert Discards(h.w.log, 1, HELLO.id, HELLO.session);
  }

  /** A discarded message stays lost: whatever calls follow, it is never answered, and every redelivery
      to a reliable call is acknowledged as a duplicate. */
  lemma {:induction false} DiscardedMessagesStayLost(
    calls: seq<Call>, more: seq<Call>, msg: Inbound, env: Env, policy: Retry.Policy)
    requires WasDiscarded(RunCalls(FRESH, calls).log, msg)
    ensures
      var w := RunCalls(FRESH, calls + more);
      && !WasAnswered(w.log, msg)
      && (env.consume(w.log) == Some(msg) ==>
            RunOnceReliable(env, policy, w) == AckAndFinish(env, Emit(w, Consumed(msg)), |w.log|, DUPLICATE))
  {
    hide RunCalls, DedupeKey, ReliableLoop, AckAndFinish, WasMarked, WasAnswered;
    var early, late := RunCalls(FRESH, calls).log, RunCalls(FRESH, calls + more).log;
    CallsExtend(calls, more);
    var i: nat :| Discards(early, i, msg.id, msg.session);
    assert Discards(late, i, msg.id, msg.session);
    DuplicatesAreGenuine(calls + more, msg);
  }

  lemma {:induction false} CallsExtend(calls: seq<Call>, more: seq<Call>)
    ensures RunCalls(FRESH, calls).log <= RunCalls(FRESH, calls + more).log
    decreases |more|
  {
    hide RunCall;
    var all := calls + more;
    if more == [] {
      assert all == calls;
    } else {
      var init := more[..|more| - 1];
      assert all[..|all| - 1] == calls + init && all[|all| - 1] == more[|more| - 1];
      CallsExtend(calls, init);
      CallExtends(RunCalls(FRESH, calls + init), more[|more| - 1]);
    }
  }

  /** A call adds one delivery and then events that are none; unless it is a plain call whose message
      came to nothing, the first of them is not a mark. */
  lemma CallExtends(w: World, c: Call)
    ensures
      var t, msg := RunCall(w, c).log, c.env.consume(w.log);
      && w.log <= t && (msg.None? ==> t == w.log)
      && (msg.Some? ==> |t| > |w.log| + 1 && t[|w.log|] == Consumed(msg.value))
      && (forall i :: |w.log| < i < |t| ==> !t[i].Consumed?)
      && (msg.Some? && t[|w.log| + 1].Marked? ==>
            c.Plain? && ProcessMessage(msg.value, c.env.turn(w.log + [Consumed(msg.value)], msg.value)).response.None?)
  {
    hide ReliableLoop, ProcessMessage, DedupeKey, Spends;
    var consumed := c.env.consume(w.log);
    if consumed.Some? && c.Reliable? && DedupeKey(consumed.value) !in w.keys {
      var msg, got := consumed.value, Emit(w, Consumed(consumed.value));
      LoopExtends(c.env, c.policy, got, |w.log|, msg, Max(msg.attempt, 1));
      assert forall i :: 0 <= i < |got.log| ==> RunCall(w, c).log[i] == got.log[i];
    }
  }

  lemma LoopExtends(env: Env, policy: Retry.Policy, w: World, at: nat, msg: Inbound, attempt: U32)
    ensures
      var t := ReliableLoop(env, policy, w, at, msg, attempt).w.log;
      && w.log < t && t[|w.log|].BreakerAsked? && forall i :: |w.log| <= i < |t| ==> !t[i].Consumed?
  {
    hide Attempt, Asks, TotalSleep, LettersRecord;
    LoopSpends(env, policy, w, at, msg, attempt);
    AttemptSpends(env, policy, w, at, msg, attempt);
    var h := Attempt(env, policy, w, at, msg, attempt);
    if h.verdict.Again? {
      LoopSpends(env, policy, h.w, at, msg, attempt + 1);
    }
  }

  /** Only a plain call discards, and only a message that its processing gave no response for. */
  lemma {:induction false} DiscardsComeFromPlainCalls(calls: seq<Call>, i: nat, id: string, session: string)
    requires Discards(RunCalls(FRESH, calls).log, i, id, session)
    ensures exists n: nat :: n < |calls| && DiscardedBy(calls, n, i, RunCalls(FRESH, calls).log)
    decreases |calls|
  {
    hide RunCall, ProcessMessage, Discards;
    DiscardsAnEvent(RunCalls(FRESH, calls).log, i, id, session);
    var before, c := calls[..|calls| - 1], calls[|calls| - 1];
    var w, t := RunCalls(FRESH, before), RunCalls(FRESH, calls).log;
    CallExtends(w, c);
    if i < |w.log| {
      assert Discards(w.log, i, id, session) by { DiscardsEarlier(w.log, t, i, id, session); }
      DiscardsComeFromPlainCalls(before, i, id, session);
      var n: nat :| n < |before| && DiscardedBy(before, n, i, w.log);
      assert before[..n] == calls[..n];
      assert DiscardedBy(calls, n, i, t);
    } else {
      DiscardIsSecond(w.log, t, i, id, session);
      assert DiscardedBy(calls, |calls| - 1, i, t);
    }
  }

  /** Call `n` is a plain call that consumed the message marked at `i`, and got no response for it. */
  predicate DiscardedBy(calls: seq<Call>, n: nat, i: nat, t: Log)
    requires n < |calls|
  {
    var w, c := RunCalls(FRESH, calls[..n]), calls[n];
    && c.Plain? && i == |w.log| + 1 && i < |t| && t[i - 1].Consumed? && c.env.consume(w.log) == Some(t[i - 1].msg)
    && ProcessMessage(t[i - 1].msg, c.env.turn(w.log + [t[i - 1]], t[i - 1].msg)).response.None?
  }

  lemma DiscardsAnEvent(t: Log, i: nat, id: string, session: string)
    requires Discards(t, i, id, session)
    ensures i < |t|
  {}

  lemma DiscardsEarlier(t: Log, t': Log, i: nat, id: string, session: string)
    requires t <= t' && Discards(t', i, id, session) && i < |t|
    ensures Discards(t, i, id, session)
  {}

  lemma DiscardIsSecond(t: Log, t': Log, i: nat, id: string, session: string)
    requires t <= t' && Discards(t', i, id, session) && i >= |t|
    requires t'[|t|].Consumed? && forall j :: |t| < j < |t'| ==> !t'[j].Consumed?
    ensures i == |t| + 1 && t'[i].Marked? && t'[i - 1].Consumed?
  {}

  lemma ReliableCallsDiscardNothing(calls: seq<Call>, msg: Inbound)
    requires AllReliable(calls)
    ensures !WasDiscarded(RunCalls(FRESH, calls).log, msg)
  {
    hide RunCalls;
    var t := RunCalls(FRESH, calls).log;
    if i: nat :| Discards(t, i, msg.id, msg.session) {
      DiscardsComeFromPlainCalls(calls, i, msg.id, msg.session);
    }
  }
}
