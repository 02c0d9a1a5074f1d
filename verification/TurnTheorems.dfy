/** What callers of the turn engine may rely on, for every provider, every tool set and every input. */
module TurnTheorems {
  import opened Wrappers
  import opened Text
  import opened Turn
  import opened TurnHistory

  /** At every provider call the messages are the initial ones followed by complete blocks, an
      assistant message and one answer per call in order. Only the last permitted request may end in
      the final-iteration prompt, which never becomes part of the conversation, and does so unless a
      system message among the initial ones already says so. */
  lemma {:induction false} ConversationLog(env: Env, limits: Limits, input: Input, k: nat, j: nat)
    requires j < |RunTurn(env, limits, input, k).p.trace| && RunTurn(env, limits, input, k).p.trace[j].Chat?
    ensures
      var t := RunTurn(env, limits, input, k).p.trace;
      var prefix := InitialMessages(input);
      var isLast := |Requests(t[..j])| + 1 == limits.maxIterations;
      var said := exists m :: 0 <= m < |prefix| && prefix[m].role == "system" && Contains(prefix[m].content, WARNING);
      var warned := isLast && limits.maxIterations >= 3 && !said;
      var log := Replay(env, prefix, t[..j]);
      && WellFormedLog(prefix, log) && t[j].reply == env.chat(t[..j], t[j].request)
      && t[j].request == log + (if warned then [Message("system", FINAL_ITERATION_PROMPT, [], None, None)] else [])
  {
    hide Replay, WellFormedLog, RunTurn, AllAnswered, HasWarning;
    WarningIsSaid(InitialMessages(input));
    TurnIsGood(env, limits, input, k);
    var t := RunTurn(env, limits, input, k).p.trace;
    var prefix := InitialMessages(input);
    assert MayFollow(env, limits, prefix, t[..j], t[j]);
    assert Replay(env, prefix, t[..j]) + [] == Replay(env, prefix, t[..j]);
  }

  lemma WarningIsSaid(log: seq<Message>)
    ensures HasWarning(log)
        <==> exists m :: 0 <= m < |log| && log[m].role == "system" && Contains(log[m].content, WARNING)
  {
    hide Contains;
    if m :| m in log && IsWarning(m) {
      var i :| 0 <= i < |log| && log[i] == m;
    } else {
      forall i | 0 <= i < |log| ensures !IsWarning(log[i]) {
        assert log[i] in log;
      }
    }
  }

  /** Each executed call is the next unexecuted call of the reply before it. */
  lemma {:induction false} ExecutionOrder(env: Env, limits: Limits, input: Input, k: nat, j: nat)
    requires j < |RunTurn(env, limits, input, k).p.trace| && RunTurn(env, limits, input, k).p.trace[j].Exec?
    ensures
      var t := RunTurn(env, limits, input, k).p.trace;
      var r, i := LastResponse(t[..j]), TrailingExecs(t[..j]);
      && r.Some? && i < |r.value.toolCalls| && t[j].call == r.value.toolCalls[i]
      && t[j].result == env.execute(t[..j], t[j].call)
  {
    hide RunTurn;
    TurnIsGood(env, limits, input, k);
    var t := RunTurn(env, limits, input, k).p.trace;
    assert MayFollow(env, limits, InitialMessages(input), t[..j], t[j]);
  }

  // ----- what the model gets to see

  lemma {:induction false} ReplayGrows(env: Env, prefix: seq<Message>, t: seq<Event>, i: nat, j: nat)
    requires i <= j <= |t|
    ensures Replay(env, prefix, t[..i]) <= Replay(env, prefix, t[..j])
    decreases j
  {
    if i < j {
      assert t[..j][..j - 1] == t[..j - 1];
      ReplayGrows(env, prefix, t, i, j - 1);
    }
  }

  lemma ReplayNext(env: Env, prefix: seq<Message>, t: seq<Event>, i: nat)
    requires i < |t|
    ensures
      var log, log' := Replay(env, prefix, t[..i]), Replay(env, prefix, t[..i + 1]);
      match t[i]
      case Exec(call, result) =>
        log' == log + [Message("tool", env.render(result, call.name), result.media, None, call.id)]
      case Chat(_, Success(r)) =>
        r.toolCalls != [] ==> log' == log + [Message("assistant", r.content, [], Some(r.toolCalls), None)]
      case _ => true
  {
    assert t[..i + 1][..i] == t[..i];
  }

  lemma ExecsNext(t: seq<Event>, i: nat)
    requires i < |t|
    ensures TrailingExecs(t[..i + 1]) == if t[i].Chat? then 0 else TrailingExecs(t[..i]) + 1
    ensures LastResponse(t[..i + 1]) == if t[i].Chat? then ReplyOf(t[i]) else LastResponse(t[..i])
  {
    assert t[..i + 1][..i] == t[..i];
  }

  /** The calls of the reply at `i` are executed right after it, before the request at `j`. */
  lemma {:induction false} CallsFollowReply(
    env: Env, limits: Limits, prefix: seq<Message>, t: seq<Event>, i: nat, j: nat, r: Response, m: nat)
    requires Lawful(env, limits, prefix, t) && i < j < |t| && t[j].Chat? && t[i].Chat? && t[i].reply == Success(r)
    requires m <= |r.toolCalls|
    ensures i + m < j && TrailingExecs(t[..i + 1 + m]) == m && LastResponse(t[..i + 1 + m]) == Some(r)
    ensures forall n :: i < n <= i + m ==> t[n].Exec? && t[n].call == r.toolCalls[n - i - 1]
  {
    hide Lawful, TrailingExecs, LastResponse, WellFormedLog, Replay, HasWarning;
    if m == 0 {
      ExecsNext(t, i);
    } else {
      CallsFollowReply(env, limits, prefix, t, i, j, r, m - 1);
      var e := i + m;
      LawfulAt(env, limits, prefix, t, e);
      ExecsNext(t, e);
    }
  }

  lemma LawfulAt(env: Env, limits: Limits, prefix: seq<Message>, t: seq<Event>, i: nat)
    requires Lawful(env, limits, prefix, t) && i < |t|
    ensures MayFollow(env, limits, prefix, t[..i], t[i])
  {}

  /** Every request tells the model all that happened: for every earlier reply with tool calls it carries,
      at one place and in order, that reply and then for each of its calls the rendered result and the
      media of its execution, under the id of the call. */
  lemma {:induction false} RequestsCarryResults(
    env: Env, limits: Limits, input: Input, k: nat, i: nat, j: nat, r: Response, m: nat)
    requires
      var t := RunTurn(env, limits, input, k).p.trace;
      && i < j < |t| && t[j].Chat? && t[i].Chat? && t[i].reply == Success(r) && m < |r.toolCalls|
    ensures
      var t := RunTurn(env, limits, input, k).p.trace;
      var at, request := |Replay(env, InitialMessages(input), t[..i])|, t[j].request;
      && at + 1 + m < |request| && i + 1 + m < j
      && request[at] == Message("assistant", r.content, [], Some(r.toolCalls), None)
      && t[i + 1 + m].Exec? && t[i + 1 + m].call == r.toolCalls[m]
      && var result := t[i + 1 + m].result;
         && result == env.execute(t[..i + 1 + m], r.toolCalls[m])
         && request[at + 1 + m]
            == Message("tool", env.render(result, r.toolCalls[m].name), result.media, None, r.toolCalls[m].id)
  {
    hide RunTurn, InitialMessages, Replay, Lawful;
    var t, prefix := RunTurn(env, limits, input, k).p.trace, InitialMessages(input);
    TurnIsLawful(env, limits, input, k);
    var e := i + 1 + m;
    CallsFollowReply(env, limits, prefix, t, i, j, r, m + 1);
    ExecutionOrder(env, limits, input, k, e);
    RequestExtendsReplay(env, limits, prefix, t, j);
    LengthAfterCalls(env, prefix, t, i, r, m);
    ReplayNext(env, prefix, t, i);
    ReplayGrows(env, prefix, t, i + 1, j);
    ReplayNext(env, prefix, t, e);
    ReplayGrows(env, prefix, t, e + 1, j);
  }

  lemma TurnIsLawful(env: Env, limits: Limits, input: Input, k: nat)
    ensures Lawful(env, limits, InitialMessages(input), RunTurn(env, limits, input, k).p.trace)
  {
    hide RunTurn, Lawful, InitialMessages, Replay, WellFormedLog, AuditsOf, UsagesOf, RequestAuditsOf;
    TurnIsGood(env, limits, input, k);
  }

  lemma RequestExtendsReplay(env: Env, limits: Limits, prefix: seq<Message>, t: seq<Event>, j: nat)
    requires Lawful(env, limits, prefix, t) && j < |t| && t[j].Chat?
    ensures Replay(env, prefix, t[..j]) <= t[j].request
  {
    hide Lawful, Replay, WellFormedLog, HasWarning, AllAnswered;
    LawfulAt(env, limits, prefix, t, j);
  }

  lemma {:induction false} LengthAfterCalls(
    env: Env, prefix: seq<Message>, t: seq<Event>, i: nat, r: Response, m: nat)
    requires i + m < |t| && t[i].Chat? && t[i].reply == Success(r) && r.toolCalls != []
    requires forall n :: i < n <= i + m ==> t[n].Exec?
    ensures |Replay(env, prefix, t[..i + 1 + m])| == |Replay(env, prefix, t[..i])| + 1 + m
  {
    hide Replay;
    if m == 0 {
      ReplayNext(env, prefix, t, i);
    } else {
      LengthAfterCalls(env, prefix, t, i, r, m - 1);
      ReplayNext(env, prefix, t, i + m);
    }
  }

  function AuditResults(audits: seq<ToolAudit>): seq<ToolResult> {
    seq(|audits|, i requires 0 <= i < |audits| => audits[i].result)
  }

  lemma {:induction false} AuditsRecordResults(t: seq<Event>)
    ensures AuditResults(AuditsOf(t)) == Results(t)
  {
    if t != [] {
      AuditsRecordResults(t[..|t| - 1]);
    }
  }

  predicate HasSignal(r: ToolResult, kind: string) { exists s :: 0 <= s < |r.signals| && r.signals[s].kind == kind }

  lemma CarriesIsHasSignal(r: ToolResult, kind: string)
    ensures Carries(r.signals, kind) <==> HasSignal(r, kind)
  {
    if Carries(r.signals, kind) {
      var s :| s in r.signals && s.kind == kind;
      var i :| 0 <= i < |r.signals| && r.signals[i] == s;
    } else {
      forall i | 0 <= i < |r.signals| ensures r.signals[i].kind != kind {
        assert r.signals[i] in r.signals;
      }
    }
  }

  /** In a turn that ends normally, only the last executed result can carry an ending signal, and that
      result alone decides the disposition; the signals are those of the audited results in order. */
  lemma {:induction false} SignalsDecideTheEnding(env: Env, limits: Limits, input: Input, k: nat, out: Output)
    requires RunTurn(env, limits, input, k).Done? && RunTurn(env, limits, input, k).outcome == Success(out)
    ensures
      var results := Results(RunTurn(env, limits, input, k).p.trace);
      var last := |results| - 1;
      && AuditResults(out.toolAudits) == results
      && out.signals == AllSignals(results)
      && (forall i :: 0 <= i < last ==> !HasSignal(results[i], "approval_required") && !HasSignal(results[i], "stop"))
      && (out.disposition == ApprovalRequired <==> results != [] && HasSignal(results[last], "approval_required"))
      && (out.disposition == Stopped <==>
            results != [] && HasSignal(results[last], "stop") && !HasSignal(results[last], "approval_required"))
      && (out.disposition == FinalMessage <==>
            results == [] || (!HasSignal(results[last], "approval_required") && !HasSignal(results[last], "stop")))
  {
    hide RunTurn, Lawful, Carries, AuditsOf, UsagesOf, RequestAuditsOf, HasSignal;
    forall r: ToolResult, kind: string ensures Carries(r.signals, kind) <==> HasSignal(r, kind) {
      CarriesIsHasSignal(r, kind);
    }
    TurnIsGood(env, limits, input, k);
    AuditsRecordResults(RunTurn(env, limits, input, k).p.trace);
  }

  /** The first stop signal names `ask_question` as its source, or a single-select question card is attached. */
  predicate AwaitsAnswer(signals: seq<Signal>) {
    || (exists i :: 0 <= i < |signals| && ShowsQuestion(signals[i]))
    || (exists i :: 0 <= i < |signals| && signals[i].kind == "stop"
                    && (forall j :: 0 <= j < i ==> signals[j].kind != "stop") && AsksQuestion(signals[i]))
  }

  predicate ShowsQuestion(s: Signal) {
    && s.kind == "im_card" && s.payload.JObject? && "kind" in s.payload.fields
    && s.payload.fields["kind"] == JString("question_single_select")
  }

  predicate AsksQuestion(s: Signal) {
    && s.payload.JObject? && "source" in s.payload.fields && s.payload.fields["source"].JString?
    && Trim(s.payload.fields["source"].s) == "ask_question"
  }

  lemma {:induction false} FirstOfKindMeaning(signals: seq<Signal>, kind: string) returns (i: nat)
    ensures FirstOfKind(signals, kind).None? ==> forall s :: s in signals ==> s.kind != kind
    ensures FirstOfKind(signals, kind).Some? ==>
              i < |signals| && FirstOfKind(signals, kind).value == signals[i] && signals[i].kind == kind
              && forall j :: 0 <= j < i ==> signals[j].kind != kind
  {
    i := 0;
    if signals != [] && signals[0].kind != kind {
      var n := FirstOfKindMeaning(signals[1..], kind);
      i := n + 1;
    }
  }

  lemma {:induction false} StoppedText(signals: seq<Signal>)
    ensures StoppedTurnContent(signals) == if AwaitsAnswer(signals) then "" else STOPPED_TURN_MESSAGE
  {
    hide Trim;
    forall j | 0 <= j < |signals| ensures signals[j] in signals && (IsQuestionCard(signals[j]) <==> ShowsQuestion(signals[j])) {}
    var i := FirstOfKindMeaning(signals, STOP);
    var first := FirstOfKind(signals, STOP);
    if first.None? {
      forall j | 0 <= j < |signals| ensures signals[j].kind != STOP {
        assert signals[j] in signals;
      }
    } else {
      assert AsksQuestion(signals[i]) ==> AwaitsAnswer(signals);
    }
  }

  /** The text of a normal ending: the model's answer; the model's words when it asked for approval; and
      otherwise the stop notice, which is empty exactly when the user is being asked a question. */
  lemma {:induction false} EndingText(env: Env, limits: Limits, input: Input, k: nat, out: Output)
    requires RunTurn(env, limits, input, k).Done? && RunTurn(env, limits, input, k).outcome == Success(out)
    ensures
      var t := RunTurn(env, limits, input, k).p.trace;
      var r, results := LastResponse(t), Results(t);
      && r.Some? && out.reasoning == r.value.reasoning
      && (out.disposition != FinalMessage ==> results != [])
      && (out.disposition == FinalMessage || (out.disposition == ApprovalRequired && Trim(r.value.content) != []) ==>
            out.content == r.value.content)
      && (out.disposition == ApprovalRequired && Trim(r.value.content) == []
          && !Carries(results[|results| - 1].signals, STOP) ==>
            out.content == results[|results| - 1].content)
      && (out.disposition == Stopped
          || (out.disposition == ApprovalRequired && Trim(r.value.content) == []
              && Carries(results[|results| - 1].signals, STOP)) ==>
            out.content == if AwaitsAnswer(results[|results| - 1].signals) then "" else STOPPED_TURN_MESSAGE)
  {
    hide RunTurn, Lawful, Carries, AuditsOf, UsagesOf, RequestAuditsOf, Trim, ShortCircuits, AwaitsAnswer;
    hide StoppedTurnContent;
    TurnIsGood(env, limits, input, k);
    var results := Results(RunTurn(env, limits, input, k).p.trace);
    if results != [] {
      StoppedText(results[|results| - 1].signals);
    }
  }

  // ----- the initial messages

  lemma {:induction false} HistoryKeepsOrder(a: seq<HistoryMessage>, b: seq<HistoryMessage>)
    ensures HistoryMessages(a + b) == HistoryMessages(a) + HistoryMessages(b)
  {
    hide SupportedRole;
    if a == [] {
      assert a + b == b;
    } else {
      assert (a + b)[1..] == a[1..] + b;
      HistoryKeepsOrder(a[1..], b);
    }
  }

  lemma {:induction false} HistoryIsFiltered(history: seq<HistoryMessage>, m: Message)
    ensures m in HistoryMessages(history) <==>
              m.media == [] && m.role in ["system", "user", "assistant", "tool"]
              && HistoryMessage(m.role, m.content, m.toolCalls, m.toolCallId) in history
  {
    if history != [] {
      HistoryIsFiltered(history[1..], m);
      assert history == [history[0]] + history[1..];
    }
  }

  /** The first request starts with the system prompt, ends with the user's turn when there is one, and
      has exactly the supported history in between. */
  lemma PromptAssembly(input: Input)
    ensures
      var ms := InitialMessages(input);
      var first := if input.systemPrompt.Some? then 1 else 0;
      var last := if Trim(input.userContent) == [] && input.userMedia == [] then 0 else 1;
      && |ms| >= first + last
      && (first == 1 ==> ms[0] == PlainMessage("system", input.systemPrompt.value))
      && (last == 1 ==> ms[|ms| - 1] == Message("user", input.userContent, input.userMedia, None, None))
      && ms[first..|ms| - last] == HistoryMessages(input.history)
  {
    hide Trim;
    var history := HistoryMessages(input.history);
    var ms := InitialMessages(input);
    var first := if input.systemPrompt.Some? then 1 else 0;
    assert ms[first..first + |history|] == history;
  }

  /** The token budget is exact although the running total saturates: a normal ending never spent
      more than the budget, and a budget failure names the first response that went over, none of
      whose tool calls were executed. At 0 and at 2^64-1 the budget never fails a turn. */
  lemma {:induction false} ExactBudget(env: Env, limits: Limits, input: Input, k: nat)
    requires RunTurn(env, limits, input, k).Done?
    ensures
      var Done(p, outcome) := RunTurn(env, limits, input, k);
      var budget := limits.tokenBudget;
      var bounded := 0 < budget < U64_MAX;
      && (outcome.Success? && bounded ==> Tokens(p.trace) <= budget)
      && (outcome.Failure? && outcome.error.BudgetExceeded? ==>
            && bounded && outcome.error.budget == budget
            && outcome.error.used == Min(Tokens(p.trace), U64_MAX)
            && p.trace != [] && p.trace[|p.trace| - 1].Chat?
            && Tokens(p.trace[..|p.trace| - 1]) <= budget < Tokens(p.trace))
  {
    hide RunTurn, Lawful, Results, Tokens;
    TurnIsGood(env, limits, input, k);
  }

  /** Requests never exceed a positive iteration limit and executions never exceed a positive call
      limit below 2^32-1; `ToolLoopExhausted` means that one of the two is used up exactly. */
  lemma {:induction false} ExecutionCaps(env: Env, limits: Limits, input: Input, k: nat)
    ensures
      var s := RunTurn(env, limits, input, k);
      var requests, results := |Requests(s.p.trace)|, |Results(s.p.trace)|;
      && (limits.maxIterations > 0 ==> requests <= limits.maxIterations)
      && (0 < limits.maxCalls < U32_MAX ==> results <= limits.maxCalls)
      && (s.Done? && s.outcome == Failure(ToolLoopExhausted) ==>
            || (limits.maxIterations > 0 && requests == limits.maxIterations)
            || (0 < limits.maxCalls < U32_MAX && results == limits.maxCalls))
  {
    hide RunTurn, Lawful;
    TurnIsGood(env, limits, input, k);
  }
}

/** Which turns end. */
module TurnTermination {
  import opened Wrappers
  import opened Turn
  import opened TurnHistory

  /** Every successful reply reports at least one token. */
  ghost predicate ReportsUsage(env: Env) {
    forall t, request :: var reply := env.chat(t, request);
      reply.Success? ==> reply.value.usage.Some? && reply.value.usage.value.totalTokens >= 1
  }

  lemma StepCounts(env: Env, limits: Limits, prefix: seq<Message>, p: Progress)
    requires Inv(env, limits, prefix, p) && Step(env, limits, p).Running?
    ensures
      var t, t' := p.trace, Step(env, limits, p).p.trace;
      && |Requests(t')| == |Requests(t)| + 1
      && |Results(t')| >= |Results(t)| + 1
      && (ReportsUsage(env) ==> Tokens(t') >= Tokens(t) + 1)
  {
    hide Lawful, WellFormedLog, ShortCircuits, ApplyToolCalls, ReportsUsage;
    AskKeeps(env, limits, prefix, p);
    var asked := Ask(env, limits, p);
    assert asked.trace[..|asked.trace| - 1] == p.trace;
    var r := LastReply(asked).value;
    AccountKeeps(env, limits, prefix, p.trace, r, asked);
    var q := RecordAudit(r, AccountUsage(r, asked));
    var ready := q.(log := q.log + [AssistantMessage(r)]);
    ApplyLawful(env, limits, prefix, ready.iteration, r.toolCalls, 0, ready);
    ApplySyncs(env, limits, prefix, ready.iteration, r.toolCalls, 0, ready);
    ReplyReports(env, p.trace, RequestFor(limits, asked.iteration, p.log));
  }

  lemma ReplyReports(env: Env, t: seq<Event>, request: seq<Message>)
    ensures ReportsUsage(env) ==> var e := Chat(request, env.chat(t, request)); e.reply.Success? ==> EventTokens(e) >= 1
  {}

  lemma {:induction false} RunningCounts(env: Env, limits: Limits, prefix: seq<Message>, p: Progress, k: nat)
    requires Inv(env, limits, prefix, p) && Run(env, limits, p, k).Running?
    ensures
      var t, t' := p.trace, Run(env, limits, p, k).p.trace;
      && |Requests(t')| == |Requests(t)| + k
      && |Results(t')| >= |Results(t)| + k
      && (ReportsUsage(env) ==> Tokens(t') >= Tokens(t) + k)
    decreases k
  {
    hide Inv, Step, ReportsUsage, Requests, Results, Tokens;
    if k > 0 {
      StepCounts(env, limits, prefix, p);
      StepKeeps(env, limits, prefix, p);
      RunningCounts(env, limits, prefix, Step(env, limits, p).p, k - 1);
    }
  }

  /** Limits that end every turn, whatever the provider does. */
  predicate Bounded(limits: Limits) {
    limits.maxIterations > 0 || 0 < limits.maxCalls < U32_MAX
  }

  predicate BudgetBounded(limits: Limits) {
    0 < limits.tokenBudget < U64_MAX
  }

  /** One iteration more than any of these limits admits. */
  function IterationBound(limits: Limits): nat {
    if limits.maxIterations > 0 then limits.maxIterations + 1
    else if 0 < limits.maxCalls < U32_MAX then limits.maxCalls + 1
    else limits.tokenBudget + 1
  }

  lemma {:induction false} TurnEnds(env: Env, limits: Limits, input: Input)
    requires Bounded(limits) || (BudgetBounded(limits) && ReportsUsage(env))
    ensures RunTurn(env, limits, input, IterationBound(limits)).Done?
  {
    hide Lawful, WellFormedLog, Synced, ReportsUsage, Step;
    var prefix, k := InitialMessages(input), IterationBound(limits);
    TurnIsGood(env, limits, input, 0);
    if Run(env, limits, Start(input), k).Running? {
      TurnIsGood(env, limits, input, k);
      RunningCounts(env, limits, prefix, Start(input), k);
      assert false;
    }
  }

  // ----- and the ones that need not

  /** A provider that asks for one more call every time, and tools that never stop it. */
  function Relentless(usage: Option<Usage>): Env {
    Env((t, request) => Success(Response("", None, [ToolCall(None, "again", JNull)], usage, None, None)),
        (t, call) => ToolResult(true, "", None, None, None, [], []),
        (result, name) => "")
  }

  lemma RelentlessStep(usage: Option<Usage>, limits: Limits, p: Progress)
    requires !Bounded(limits) && (usage.Some? ==> !BudgetBounded(limits))
    ensures Step(Relentless(usage), limits, p).Running?
  {
    var env := Relentless(usage);
    var asked := Ask(env, limits, p);
    var r := LastReply(asked).value;
    assert r.toolCalls == [ToolCall(None, "again", JNull)];
    var q := RecordAudit(r, AccountUsage(r, asked));
    var ready := q.(log := q.log + [AssistantMessage(r)]);
    assert !OverCallLimit(limits.maxCalls, CountCall(ready));
    var one := ExecuteCall(env, ready.iteration, 0, r.toolCalls[0], CountCall(ready));
    assert one.verdict == AllExecuted;
    assert ApplyToolCalls(env, limits.maxCalls, ready.iteration, r.toolCalls, 1, one.p) == Applied(one.p, AllExecuted);
    assert ApplyToolCalls(env, limits.maxCalls, ready.iteration, r.toolCalls, 0, ready) == Applied(one.p, AllExecuted);
  }

  lemma {:induction false} RelentlessRun(usage: Option<Usage>, limits: Limits, p: Progress, k: nat)
    requires !Bounded(limits) && (usage.Some? ==> !BudgetBounded(limits))
    ensures Run(Relentless(usage), limits, p, k).Running?
    decreases k
  {
    hide Step, Relentless;
    if k > 0 {
      RelentlessStep(usage, limits, p);
      RelentlessRun(usage, limits, Step(Relentless(usage), limits, p).p, k - 1);
    }
  }

  /** Termination is decided by the limits, and by nothing weaker: every turn ends exactly when the
      iterations or the calls are bounded, where a call limit of 2^32-1 bounds nothing because the
      counter wraps; and every turn with a provider that reports its usage ends exactly when one of
      the three limits bounds it. */
  lemma {:induction false} TerminationIsDecidedByLimits(limits: Limits)
    ensures Bounded(limits) <==> forall env, input :: EndsEventually(env, limits, input)
    ensures Bounded(limits) || BudgetBounded(limits)
            <==> forall env, input :: ReportsUsage(env) ==> EndsEventually(env, limits, input)
  {
    hide RunTurn, ReportsUsage;
    forall env, input | Bounded(limits) || (BudgetBounded(limits) && ReportsUsage(env))
      ensures EndsEventually(env, limits, input)
    {
      TurnEnds(env, limits, input);
    }
    var input := Input(None, [], "", []);
    if !Bounded(limits) {
      RelentlessNeverEnds(None, limits, input);
      if !BudgetBounded(limits) {
        var usage := Some(Usage(1, 1, 2));
        RelentlessNeverEnds(usage, limits, input);
        RelentlessReports(usage.value);
      }
    }
  }

  ghost predicate EndsEventually(env: Env, limits: Limits, input: Input) {
    exists k: nat :: RunTurn(env, limits, input, k).Done?
  }

  lemma RelentlessNeverEnds(usage: Option<Usage>, limits: Limits, input: Input)
    requires !Bounded(limits) && (usage.Some? ==> !BudgetBounded(limits))
    ensures !EndsEventually(Relentless(usage), limits, input)
  {
    forall k: nat ensures RunTurn(Relentless(usage), limits, input, k).Running? {
      RelentlessRun(usage, limits, Start(input), k);
    }
  }

  lemma RelentlessReports(usage: Usage)
    requires usage.totalTokens >= 1
    ensures ReportsUsage(Relentless(Some(usage)))
  {}

  /** The call limit of 2^32-1 is no cap: executions pass it when nothing else ends the turn. */
  lemma {:induction false} LargestCallLimitIsNoCap(limits: Limits, input: Input, k: nat)
    requires limits.maxIterations == 0 && limits.maxCalls == U32_MAX
    ensures |Results(RunTurn(Relentless(None), limits, input, k).p.trace)| >= k
  {
    TurnIsGood(Relentless(None), limits, input, 0);
    RelentlessRun(None, limits, Start(input), k);
    RunningCounts(Relentless(None), limits, InitialMessages(input), Start(input), k);
  }
}
