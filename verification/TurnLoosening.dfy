/** Two runs of the same turn under different limits. */
module TurnLoosening {
  import opened Wrappers
  import opened Text
  import opened Turn
  import opened TurnHistory
  import opened TurnTheorems

  /** A limit of zero is unlimited. */
  predicate NoTighterField(a: nat, b: nat) { b == 0 || 0 < a <= b }

  predicate NoTighter(l: Limits, l': Limits) {
    && NoTighterField(l.maxIterations, l'.maxIterations)
    && NoTighterField(l.maxCalls, l'.maxCalls)
    && NoTighterField(l.tokenBudget, l'.tokenBudget)
  }

  lemma {:induction false} ApplyLoosened(
    env: Env, m: U32, m': U32, requestSeq: nat, calls: seq<ToolCall>, index: nat, p: Progress)
    requires index <= |calls| && NoTighterField(m, m')
    requires !ApplyToolCalls(env, m, requestSeq, calls, index, p).verdict.CallLimit?
    ensures ApplyToolCalls(env, m', requestSeq, calls, index, p) == ApplyToolCalls(env, m, requestSeq, calls, index, p)
    decreases |calls| - index
  {
    hide ExecuteCall;
    if index < |calls| {
      var one := ExecuteCall(env, requestSeq, index, calls[index], CountCall(p));
      if !one.verdict.ShortCircuit? {
        ApplyLoosened(env, m, m', requestSeq, calls, index + 1, one.p);
      }
    }
  }

  predicate Survives(s: State) { s.Running? || s.outcome.Success? }

  lemma StepLoosened(env: Env, l: Limits, l': Limits, p: Progress)
    requires NoTighter(l, l') && Survives(Step(env, l, p))
    requires Warns(l, p.iteration + 1, p.log) == Warns(l', p.iteration + 1, p.log)
    requires p.iteration < U32_MAX || (l.maxIterations == 0 && l'.maxIterations == 0)
    ensures Step(env, l', p) == Step(env, l, p)
  {
    hide HasWarning, ApplyToolCalls, MakeOutput, ShortCircuitOutput;
    var asked := Ask(env, l, p);
    assert asked == Ask(env, l', p);
    if LastReply(asked).Success? {
      var r := LastReply(asked).value;
      if r.toolCalls != [] {
        var q := RecordAudit(r, AccountUsage(r, asked));
        var ready := q.(log := q.log + [AssistantMessage(r)]);
        ApplyLoosened(env, l.maxCalls, l'.maxCalls, asked.iteration, r.toolCalls, 0, ready);
      }
    }
  }

  // ----- traces only grow

  lemma {:induction false} ApplyExtends(
    env: Env, maxCalls: U32, requestSeq: nat, calls: seq<ToolCall>, index: nat, p: Progress)
    requires index <= |calls|
    ensures p.trace <= ApplyToolCalls(env, maxCalls, requestSeq, calls, index, p).p.trace
    decreases |calls| - index
  {
    if index < |calls| && !OverCallLimit(maxCalls, CountCall(p)) {
      var one := ExecuteCall(env, requestSeq, index, calls[index], CountCall(p));
      if one.verdict.AllExecuted? {
        ApplyExtends(env, maxCalls, requestSeq, calls, index + 1, one.p);
      }
    }
  }

  lemma StepExtends(env: Env, limits: Limits, p: Progress)
    ensures p.trace <= Step(env, limits, p).p.trace
    ensures !IterationsUsedUp(limits, p) ==> Ask(env, limits, p).trace <= Step(env, limits, p).p.trace
  {
    hide ApplyToolCalls, HasWarning, ShortCircuitOutput;
    var asked := Ask(env, limits, p);
    if !IterationsUsedUp(limits, p) && LastReply(asked).Success? {
      var r := LastReply(asked).value;
      var q := RecordAudit(r, AccountUsage(r, asked));
      ApplyExtends(env, limits.maxCalls, asked.iteration, r.toolCalls, 0, q.(log := q.log + [AssistantMessage(r)]));
    }
  }

  lemma {:induction false} RunExtends(env: Env, limits: Limits, p: Progress, k: nat)
    ensures p.trace <= Run(env, limits, p, k).p.trace
    decreases k
  {
    hide Step;
    if k > 0 {
      StepExtends(env, limits, p);
      if Step(env, limits, p).Running? {
        RunExtends(env, limits, Step(env, limits, p).p, k - 1);
      }
    }
  }

  lemma {:induction false} RequestsExtend(t: seq<Event>, u: seq<Event>)
    requires t <= u
    ensures Requests(t) <= Requests(u)
    decreases |u|
  {
    if |t| == |u| {
      assert t == u;
    } else {
      RequestsExtend(t, u[..|u| - 1]);
    }
  }

  /** Where in the trace the i-th request was made. */
  lemma {:induction false} FindRequest(t: seq<Event>, i: nat) returns (j: nat)
    requires i < |Requests(t)|
    ensures j < |t| && t[j].Chat? && |Requests(t[..j])| == i && t[j].request == Requests(t)[i]
  {
    var before := t[..|t| - 1];
    if i < |Requests(before)| {
      j := FindRequest(before, i);
      assert before[..j] == t[..j];
    } else {
      j := |t| - 1;
    }
  }

  // ----- loosening

  /** The last request of a turn with `n` requests under `l` did not depend on the iteration limit, or
      the other limits have the same one. */
  predicate WarningIndependent(l: Limits, l': Limits, prefix: seq<Message>, n: nat) {
    n < l.maxIterations || l.maxIterations <= 2 || HasWarning(prefix) || l'.maxIterations == l.maxIterations
  }

  lemma {:induction false} RunLoosened(env: Env, l: Limits, l': Limits, prefix: seq<Message>, p: Progress, k: nat)
    requires Inv(env, l, prefix, p) && NoTighter(l, l')
    requires Run(env, l, p, k).Done? && Run(env, l, p, k).outcome.Success?
    requires WarningIndependent(l, l', prefix, |Requests(Run(env, l, p, k).p.trace)|)
    ensures Run(env, l', p, k) == Run(env, l, p, k)
    decreases k
  {
    hide Step, Ask, Lawful, AuditsOf, UsagesOf, RequestAuditsOf, HasWarning;
    var s := Step(env, l, p);
    StepSameWarning(env, l, l', prefix, p, k);
    StepLoosened(env, l, l', p);
    if s.Running? {
      StepKeeps(env, l, prefix, p);
      RunLoosened(env, l, l', prefix, s.p, k - 1);
    }
  }

  lemma StepSameWarning(env: Env, l: Limits, l': Limits, prefix: seq<Message>, p: Progress, k: nat)
    requires Inv(env, l, prefix, p) && NoTighter(l, l')
    requires Run(env, l, p, k).Done? && Run(env, l, p, k).outcome.Success?
    requires WarningIndependent(l, l', prefix, |Requests(Run(env, l, p, k).p.trace)|)
    ensures k > 0 && Survives(Step(env, l, p))
    ensures Warns(l, p.iteration + 1, p.log) == Warns(l', p.iteration + 1, p.log)
    ensures p.iteration < U32_MAX || (l.maxIterations == 0 && l'.maxIterations == 0)
  {
    hide AfterReply, Lawful, WellFormedLog, AuditsOf, UsagesOf, RequestAuditsOf, HasWarning;
    var s, t := Step(env, l, p), Run(env, l, p, k).p.trace;
    WarningStaysInPrefix(prefix, p.log);
    StepExtends(env, l, p);
    if s.Running? {
      RunExtends(env, l, s.p, k - 1);
    }
    var asked := Ask(env, l, p);
    Snoc(p.trace, asked.trace[|p.trace|]);
    assert asked.trace <= t;
    RequestsExtend(asked.trace, t);
  }

  lemma PromptIsNotConversation(prefix: seq<Message>, log: seq<Message>, log': seq<Message>)
    requires !HasWarning(prefix) && WellFormedLog(prefix, log')
    ensures log + [PlainMessage("system", FINAL_ITERATION_PROMPT)] != log' + []
  {
    hide WellFormedLog;
    var prompt := PlainMessage("system", FINAL_ITERATION_PROMPT);
    assert OccursAt(FINAL_ITERATION_PROMPT, WARNING, 0) && IsWarning(prompt);
    WarningStaysInPrefix(prefix, log');
    assert prompt in log + [prompt];
  }

  /** A request that carried the final-iteration prompt is never made under another iteration limit,
      by any provider, tools or number of iterations. */
  lemma {:induction false} WarnedRequestIsUnique(
    env: Env, l: Limits, env': Env, l': Limits, input: Input, k: nat, k': nat)
    requires
      var requests := Requests(RunTurn(env, l, input, k).p.trace);
      !WarningIndependent(l, l', InitialMessages(input), |requests|)
    ensures !(Requests(RunTurn(env, l, input, k).p.trace) <= Requests(RunTurn(env', l', input, k').p.trace))
  {
    hide RunTurn, Replay, InitialMessages, WellFormedLog;
    var prefix := InitialMessages(input);
    var t, t' := RunTurn(env, l, input, k).p.trace, RunTurn(env', l', input, k').p.trace;
    ExecutionCaps(env, l, input, k);
    var i := |Requests(t)| - 1;
    if Requests(t) <= Requests(t') {
      var j := FindRequest(t, i);
      var j' := FindRequest(t', i);
      ConversationLog(env, l, input, k, j);
      ConversationLog(env', l', input, k', j');
      WarningIsSaid(prefix);
      PromptIsNotConversation(prefix, Replay(env, prefix, t[..j]), Replay(env', prefix, t'[..j']));
    }
  }

  /** Loosening limits preserves results. If a turn ends normally after `n` requests under `l`, then
      under any limits no tighter it is the same turn, with the same requests, executions and output,
      exactly when the final-iteration prompt did not enter its last request or the iteration limit is
      unchanged; otherwise the requests differ however long the other turn runs. */
  lemma {:induction false} LooseningPreservesTurn(env: Env, l: Limits, l': Limits, input: Input, k: nat)
    requires NoTighter(l, l')
    requires RunTurn(env, l, input, k).Done? && RunTurn(env, l, input, k).outcome.Success?
    ensures
      var n := |Requests(RunTurn(env, l, input, k).p.trace)|;
      var same := n < l.maxIterations || l.maxIterations <= 2 || HasWarning(InitialMessages(input))
                  || l'.maxIterations == l.maxIterations;
      && (same ==> RunTurn(env, l', input, k) == RunTurn(env, l, input, k))
      && (!same ==> forall k' ::
            !(Requests(RunTurn(env, l, input, k).p.trace) <= Requests(RunTurn(env, l', input, k').p.trace)))
  {
    hide Run, Inv, HasWarning, InitialMessages;
    var n := |Requests(RunTurn(env, l, input, k).p.trace)|;
    if WarningIndependent(l, l', InitialMessages(input), n) {
      StartIsGood(env, l, input);
      RunLoosened(env, l, l', InitialMessages(input), Start(input), k);
    } else {
      forall k' ensures !(Requests(RunTurn(env, l, input, k).p.trace) <= Requests(RunTurn(env, l', input, k').p.trace)) {
        WarnedRequestIsUnique(env, l, env, l', input, k, k');
      }
    }
  }

  // ----- and it can change one

  const LOOK := ToolCall(None, "look", JNull)
  const FOUND := ToolResult(true, "", None, None, None, [], [])

  function Reply(content: string, calls: seq<ToolCall>): Response { Response(content, None, calls, None, None, None) }

  predicate IsTold(request: seq<Message>) { request != [] && request[|request| - 1].role == "system" }

  /** Asks for one call twice, and then answers, with a summary if the request ends in a prompt. */
  function Diligent(): Env {
    Env((t: seq<Event>, request) =>
          Success(if |t| < 4 then Reply("", [LOOK])
                  else Reply(if IsTold(request) then "summary" else "answer", [])),
        (t, call) => FOUND,
        (result, name) => "")
  }

  /** A reply that asks for one call, when nothing limits calls or tokens. */
  lemma OneCallRuns(env: Env, l: Limits, p: Progress)
    requires l.maxCalls == 0 && env.execute(p.trace, LOOK) == FOUND
    ensures
      var s, r := AfterReply(env, l, Reply("", [LOOK]), p), Reply("", [LOOK]);
      && s.Running? && s.p.iteration == p.iteration && s.p.trace == p.trace + [Exec(LOOK, FOUND)]
      && s.p.log == p.log + [AssistantMessage(r)] + [ToolMessage(env, LOOK, FOUND)]
  {
    var r := Reply("", [LOOK]);
    var ready := p.(log := p.log + [AssistantMessage(r)]);
    var one := ExecuteCall(env, p.iteration, 0, LOOK, CountCall(ready));
    assert one.verdict == AllExecuted;
    assert ApplyToolCalls(env, l.maxCalls, p.iteration, r.toolCalls, 1, one.p) == Applied(one.p, AllExecuted);
    assert ApplyToolCalls(env, l.maxCalls, p.iteration, r.toolCalls, 0, ready) == Applied(one.p, AllExecuted);
  }

  /** `i` iterations are over, and no message carries a warning. */
  predicate Working(p: Progress, i: nat) {
    |p.trace| == 2 * i && p.iteration == i && !HasWarning(p.log) && !IsTold(p.log)
  }

  lemma DiligentWorks(l: Limits, p: Progress, i: nat)
    requires Working(p, i) && i < 2 && (l.maxIterations == 0 || l.maxIterations == 3) && l.maxCalls == 0
    ensures Step(Diligent(), l, p).Running? && Working(Step(Diligent(), l, p).p, i + 1)
  {
    hide AfterReply, HasWarning, IsTold;
    var env := Diligent();
    var asked := Ask(env, l, p);
    assert LastReply(asked) == Success(Reply("", [LOOK]));
    OneCallRuns(env, l, asked);
    BlockIsNoWarning(p.log, AssistantMessage(Reply("", [LOOK])), ToolMessage(env, LOOK, FOUND));
  }

  lemma BlockIsNoWarning(log: seq<Message>, asks: Message, result: Message)
    requires !HasWarning(log) && asks.role == "assistant" && result.role == "tool"
    ensures !HasWarning(log + [asks] + [result]) && !IsTold(log + [asks] + [result])
  {
    hide Contains;
  }

  lemma DiligentAnswers(l: Limits, p: Progress)
    requires Working(p, 2) && (l.maxIterations == 0 || l.maxIterations == 3)
    ensures
      var s := Step(Diligent(), l, p);
      s.Done? && s.outcome.Success? && s.outcome.value.content == if l.maxIterations == 3 then "summary" else "answer"
  {
    hide HasWarning, ApplyToolCalls;
    var asked := Ask(Diligent(), l, p);
    assert LastReply(asked) == Success(Reply(if l.maxIterations == 3 then "summary" else "answer", []));
  }

  lemma DiligentTurn(l: Limits, p: Progress)
    requires Working(p, 0) && (l.maxIterations == 0 || l.maxIterations == 3) && l.maxCalls == 0
    ensures
      var s := Run(Diligent(), l, p, 3);
      s.Done? && s.outcome.Success? && s.outcome.value.content == if l.maxIterations == 3 then "summary" else "answer"
  {
    hide Step, Diligent, Working;
    DiligentWorks(l, p, 0);
    var q := Step(Diligent(), l, p).p;
    DiligentWorks(l, q, 1);
    DiligentAnswers(l, Step(Diligent(), l, q).p);
  }

  /** One input for which lifting the iteration limit changes the answer: the last permitted request
      carried the final-iteration prompt, and under the looser limits it does not. */
  lemma {:induction false} LooseningCanChangeATurn()
    ensures
      var input := Input(None, [], "", []);
      var s, s' := RunTurn(Diligent(), Limits(3, 0, 0), input, 3), RunTurn(Diligent(), Limits(0, 0, 0), input, 3);
      && NoTighter(Limits(3, 0, 0), Limits(0, 0, 0))
      && s.Done? && s.outcome.Success? && s.outcome.value.content == "summary"
      && s'.Done? && s'.outcome.Success? && s'.outcome.value.content == "answer"
  {
    hide Run, Diligent;
    var input := Input(None, [], "", []);
    assert InitialMessages(input) == [];
    DiligentTurn(Limits(3, 0, 0), Start(input));
    DiligentTurn(Limits(0, 0, 0), Start(input));
  }
}
