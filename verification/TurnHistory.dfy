/** What every turn keeps, stated on the trace of provider requests and tool executions.

    The engine updates its log, counters, signals and audits incrementally. Here each of them is a
    fold of the whole trace (`Synced`), the trace itself obeys the protocol (`Lawful`), and the
    theorems at the end read the endings of a turn off its trace. */
module TurnHistory {
  import opened Wrappers
  import opened Text
  import opened Turn

  // ----- reference definitions over a trace

  function Requests(t: seq<Event>): seq<seq<Message>> {
    if t == [] then []
    else
      var e := t[|t| - 1];
      Requests(t[..|t| - 1]) + (if e.Chat? then [e.request] else [])
  }

  /** The results of the executed tool calls, in order. */
  function Results(t: seq<Event>): seq<ToolResult> {
    if t == [] then []
    else
      var e := t[|t| - 1];
      Results(t[..|t| - 1]) + (if e.Exec? then [e.result] else [])
  }

  function EventTokens(e: Event): nat {
    var r := ReplyOf(e);
    if r.Some? && r.value.usage.Some? then r.value.usage.value.totalTokens else 0
  }

  /** Reported total tokens, summed without bound. */
  function Tokens(t: seq<Event>): nat {
    if t == [] then 0 else Tokens(t[..|t| - 1]) + EventTokens(t[|t| - 1])
  }

  function AllSignals(results: seq<ToolResult>): seq<Signal> {
    if results == [] then [] else AllSignals(results[..|results| - 1]) + results[|results| - 1].signals
  }

  /** Tool executions since the last provider request. */
  function TrailingExecs(t: seq<Event>): nat {
    if t == [] || t[|t| - 1].Chat? then 0 else TrailingExecs(t[..|t| - 1]) + 1
  }

  /** The sequence number a record made after trace `t` carries. */
  function RequestSeq(t: seq<Event>): nat { Min(|Requests(t)|, U32_MAX) }

  function AuditsOf(t: seq<Event>): seq<ToolAudit> {
    if t == [] then []
    else
      var before, e := t[..|t| - 1], t[|t| - 1];
      AuditsOf(before)
      + if e.Exec?
        then [ToolAudit(RequestSeq(before), TrailingExecs(before) + 1, e.call.id, e.call.name, e.call.arguments, e.result)]
        else []
  }

  /** The successful reply carried by an event, if any. */
  function ReplyOf(e: Event): Option<Response> {
    if e.Chat? && e.reply.Success? then Some(e.reply.value) else None
  }

  function UsagesOf(t: seq<Event>): seq<RequestUsage> {
    if t == [] then []
    else
      var r := ReplyOf(t[|t| - 1]);
      UsagesOf(t[..|t| - 1])
      + if r.Some? && r.value.usage.Some?
        then [RequestUsage(RequestSeq(t), r.value.usage.value,
                           if r.value.usageSource.Some? then r.value.usageSource.value else ProviderReported)]
        else []
  }

  function RequestAuditsOf(t: seq<Event>): seq<RequestAudit> {
    if t == [] then []
    else
      var r := ReplyOf(t[|t| - 1]);
      RequestAuditsOf(t[..|t| - 1])
      + if r.Some? && r.value.audit.Some? then [RequestAudit(RequestSeq(t), r.value.audit.value)] else []
  }

  /** The conversation that the trace amounts to: a reply with tool calls and every tool result. */
  function Replay(env: Env, prefix: seq<Message>, t: seq<Event>): seq<Message> {
    if t == [] then prefix
    else
      Replay(env, prefix, t[..|t| - 1])
      + match t[|t| - 1]
        case Exec(call, result) => [Message("tool", env.render(result, call.name), result.media, None, call.id)]
        case Chat(_, Failure(_)) => []
        case Chat(_, Success(r)) =>
          if r.toolCalls == [] then [] else [Message("assistant", r.content, [], Some(r.toolCalls), None)]
  }

  lemma Snoc(t: seq<Event>, e: Event)
    ensures (t + [e])[..|t + [e]| - 1] == t && (t + [e])[|t + [e]| - 1] == e
  {}

  // ----- conversation blocks

  /** The messages answer the calls one by one: same number, same order, same ids. */
  predicate Answers(ms: seq<Message>, calls: seq<ToolCall>) {
    |ms| == |calls|
    && forall i :: 0 <= i < |ms| ==> ms[i].role == "tool" && ms[i].toolCallId == calls[i].id && ms[i].toolCalls == None
  }

  predicate IsBlock(ms: seq<Message>) {
    ms != [] && ms[0].role == "assistant" && ms[0].toolCalls.Some? && ms[0].toolCalls.value != []
    && Answers(ms[1..], ms[0].toolCalls.value)
  }

  /** Zero or more complete blocks. */
  ghost predicate Blocks(ms: seq<Message>) {
    ms == [] || exists cut :: 0 < cut <= |ms| && IsBlock(ms[..cut]) && Blocks(ms[cut..])
  }

  ghost predicate WellFormedLog(prefix: seq<Message>, log: seq<Message>) {
    prefix <= log && Blocks(log[|prefix|..])
  }

  lemma {:induction false} BlocksAppend(ms: seq<Message>, block: seq<Message>)
    requires Blocks(ms) && IsBlock(block)
    ensures Blocks(ms + block)
  {
    hide IsBlock;
    var all := ms + block;
    if ms == [] {
      assert all[..|block|] == block && all[|block|..] == [];
    } else {
      var cut :| 0 < cut <= |ms| && IsBlock(ms[..cut]) && Blocks(ms[cut..]);
      BlocksAppend(ms[cut..], block);
      assert all[..cut] == ms[..cut] && all[cut..] == ms[cut..] + block;
    }
  }

  lemma {:induction false} BlocksHaveNoSystemMessage(ms: seq<Message>, m: Message)
    requires Blocks(ms) && m in ms
    ensures m.role != "system"
  {
    var cut :| 0 < cut <= |ms| && IsBlock(ms[..cut]) && Blocks(ms[cut..]);
    var i :| 0 <= i < |ms| && ms[i] == m;
    if i < cut {
      var b := ms[..cut];
      assert b[i] == m && (i > 0 ==> b[1..][i - 1] == m);
    } else {
      assert ms[cut..][i - cut] == m;
      BlocksHaveNoSystemMessage(ms[cut..], m);
    }
  }

  /** Whether the final-iteration prompt is due depends on the initial messages only. */
  lemma WarningStaysInPrefix(prefix: seq<Message>, log: seq<Message>)
    requires WellFormedLog(prefix, log)
    ensures HasWarning(log) == HasWarning(prefix)
  {
    if HasWarning(log) {
      var m :| m in log && IsWarning(m);
      if m in log[|prefix|..] {
        BlocksHaveNoSystemMessage(log[|prefix|..], m);
      }
    }
    forall m | m in prefix ensures m in log {
      var i :| 0 <= i < |prefix| && prefix[i] == m;
      assert log[i] == m;
    }
  }

  // ----- what holds between iterations

  /** Every accumulator is the fold of the trace that it stands for. */
  ghost predicate Synced(env: Env, prefix: seq<Message>, p: Progress) {
    && p.log == Replay(env, prefix, p.trace)
    && p.iteration == RequestSeq(p.trace)
    && p.tokensUsed == Min(Tokens(p.trace), U64_MAX)
    && p.callsUsed == |Results(p.trace)| % (U32_MAX + 1)
    && SyncedOutput(p)
  }

  predicate Quiet(results: seq<ToolResult>) {
    forall i :: 0 <= i < |results| ==> !ShortCircuits(results[i])
  }

  /** Only the last result may carry a signal that ends the turn. */
  predicate QuietUpToLast(results: seq<ToolResult>) {
    forall i :: 0 <= i < |results| - 1 ==> !ShortCircuits(results[i])
  }

  /** The parts of the state that end up in the output of a turn. */
  predicate SyncedOutput(p: Progress) {
    && p.signals == AllSignals(Results(p.trace)) && p.toolAudits == AuditsOf(p.trace)
    && p.usages == UsagesOf(p.trace) && p.requestAudits == RequestAuditsOf(p.trace)
  }

  predicate EndsWithSignal(results: seq<ToolResult>, result: ToolResult) {
    results != [] && results[|results| - 1] == result && ShortCircuits(result) && QuietUpToLast(results)
  }

  /** The reply that the executions at the end of `t` belong to. */
  function LastResponse(t: seq<Event>): Option<Response> {
    if t == [] then None
    else if t[|t| - 1].Exec? then LastResponse(t[..|t| - 1])
    else ReplyOf(t[|t| - 1])
  }

  /** All calls of the last reply have been executed. */
  predicate AllAnswered(t: seq<Event>) {
    t != [] ==> LastResponse(t).Some? && TrailingExecs(t) == |LastResponse(t).value.toolCalls|
  }

  /** Event `e` may follow trace `t`, and carries what the outside world answers there.
      A request is the well-formed conversation so far, followed by the final-iteration prompt exactly
      when this is the last permitted request, the limit is at least three, and the initial messages do
      not already carry the warning. An execution is the next unexecuted call of the last reply. */
  ghost predicate MayFollow(env: Env, limits: Limits, prefix: seq<Message>, t: seq<Event>, e: Event) {
    match e
    case Chat(request, reply) =>
      var log := Replay(env, prefix, t);
      var last := limits.maxIterations >= 3 && |Requests(t)| + 1 == limits.maxIterations && !HasWarning(prefix);
      && WellFormedLog(prefix, log) && AllAnswered(t) && reply == env.chat(t, request)
      && request == (if last then log + [PlainMessage("system", FINAL_ITERATION_PROMPT)] else log)
    case Exec(call, result) =>
      var r, i := LastResponse(t), TrailingExecs(t);
      r.Some? && i < |r.value.toolCalls| && call == r.value.toolCalls[i] && result == env.execute(t, call)
  }

  ghost predicate Lawful(env: Env, limits: Limits, prefix: seq<Message>, t: seq<Event>) {
    forall j :: 0 <= j < |t| ==> MayFollow(env, limits, prefix, t[..j], t[j])
  }

  lemma LawfulSnoc(env: Env, limits: Limits, prefix: seq<Message>, t: seq<Event>, e: Event)
    requires Lawful(env, limits, prefix, t) && MayFollow(env, limits, prefix, t, e)
    ensures Lawful(env, limits, prefix, t + [e])
  {
    var u := t + [e];
    forall j | 0 <= j < |u| ensures MayFollow(env, limits, prefix, u[..j], u[j]) {
      assert u[..j] == t[..j];
      if j == |t| {
        assert t[..j] == t;
      }
    }
  }

  predicate RequestsWithin(limits: Limits, requests: seq<seq<Message>>) {
    limits.maxIterations > 0 ==> |requests| <= limits.maxIterations
  }

  predicate CallsWithin(limits: Limits, results: seq<ToolResult>) {
    0 < limits.maxCalls < U32_MAX ==> |results| <= limits.maxCalls
  }

  predicate WithinBudget(limits: Limits, t: seq<Event>) {
    0 < limits.tokenBudget < U64_MAX ==> Tokens(t) <= limits.tokenBudget
  }

  /** Holds whenever the loop is about to start an iteration. */
  ghost predicate Inv(env: Env, limits: Limits, prefix: seq<Message>, p: Progress) {
    && Synced(env, prefix, p)
    && WellFormedLog(prefix, p.log)
    && Lawful(env, limits, prefix, p.trace)
    && Quiet(Results(p.trace)) && AllAnswered(p.trace)
    && RequestsWithin(limits, Requests(p.trace)) && CallsWithin(limits, Results(p.trace))
    && WithinBudget(limits, p.trace)
  }

  // ----- one tool call, then all of them

  lemma ExecSyncs(env: Env, prefix: seq<Message>, requestSeq: nat, index: nat, call: ToolCall, p: Progress)
    requires Synced(env, prefix, p)
    requires requestSeq == RequestSeq(p.trace) && index == TrailingExecs(p.trace)
    ensures
      var q := ExecuteCall(env, requestSeq, index, call, CountCall(p)).p;
      var result := env.execute(p.trace, call);
      && Synced(env, prefix, q)
      && q.trace == p.trace + [Exec(call, result)]
      && Results(q.trace) == Results(p.trace) + [result]
      && Requests(q.trace) == Requests(p.trace) && Tokens(q.trace) == Tokens(p.trace)
      && TrailingExecs(q.trace) == index + 1 && LastResponse(q.trace) == LastResponse(p.trace)
  {
    hide ShortCircuits, Replay, AuditsOf, UsagesOf, RequestAuditsOf, Results, Requests, Tokens;
    hide TrailingExecs, LastResponse, AllSignals;
    ExecFolds(env, prefix, p.trace, call, env.execute(p.trace, call));
    CountWraps(|Results(p.trace)|);
  }

  lemma SyncedCounts(env: Env, prefix: seq<Message>, p: Progress)
    requires Synced(env, prefix, p)
    ensures p.callsUsed == |Results(p.trace)| % (U32_MAX + 1) && p.iteration == RequestSeq(p.trace) && SyncedOutput(p)
  {}

  lemma CountWraps(n: nat)
    ensures (n % (U32_MAX + 1) + 1) % (U32_MAX + 1) == (n + 1) % (U32_MAX + 1)
  {}

  /** What each fold makes of one more execution. */
  lemma ExecFolds(env: Env, prefix: seq<Message>, t: seq<Event>, call: ToolCall, result: ToolResult)
    ensures
      var u := t + [Exec(call, result)];
      && Replay(env, prefix, u)
         == Replay(env, prefix, t) + [Message("tool", env.render(result, call.name), result.media, None, call.id)]
      && Results(u) == Results(t) + [result] && AllSignals(Results(u)) == AllSignals(Results(t)) + result.signals
      && Requests(u) == Requests(t) && Tokens(u) == Tokens(t) && LastResponse(u) == LastResponse(t)
      && TrailingExecs(u) == TrailingExecs(t) + 1 && UsagesOf(u) == UsagesOf(t) && RequestAuditsOf(u) == RequestAuditsOf(t)
      && AuditsOf(u) == AuditsOf(t)
           + [ToolAudit(RequestSeq(t), TrailingExecs(t) + 1, call.id, call.name, call.arguments, result)]
  {
    hide RequestSeq;
    Snoc(t, Exec(call, result));
    var rs := Results(t) + [result];
    assert rs[..|rs| - 1] == Results(t);
  }

  lemma ExecIsLawful(
    env: Env, limits: Limits, prefix: seq<Message>, calls: seq<ToolCall>, t: seq<Event>, result: ToolResult)
    requires Lawful(env, limits, prefix, t)
    requires LastResponse(t).Some? && LastResponse(t).value.toolCalls == calls && TrailingExecs(t) < |calls|
    requires result == env.execute(t, calls[TrailingExecs(t)])
    ensures
      var u := t + [Exec(calls[TrailingExecs(t)], result)];
      && Lawful(env, limits, prefix, u)
      && LastResponse(u) == LastResponse(t) && TrailingExecs(u) == TrailingExecs(t) + 1
      && Requests(u) == Requests(t) && Tokens(u) == Tokens(t)
  {
    hide Lawful, WellFormedLog, Replay;
    var e := Exec(calls[TrailingExecs(t)], result);
    Snoc(t, e);
    LawfulSnoc(env, limits, prefix, t, e);
  }

  /** Tool calls are executed in the order the provider asked for them. */
  lemma {:induction false} ApplyLawful(
    env: Env, limits: Limits, prefix: seq<Message>, requestSeq: nat, calls: seq<ToolCall>, index: nat, p: Progress)
    requires index <= |calls|
    requires Lawful(env, limits, prefix, p.trace)
    requires LastResponse(p.trace).Some? && LastResponse(p.trace).value.toolCalls == calls
    requires index == TrailingExecs(p.trace)
    ensures
      var q := ApplyToolCalls(env, limits.maxCalls, requestSeq, calls, index, p).p;
      && Lawful(env, limits, prefix, q.trace)
      && Requests(q.trace) == Requests(p.trace) && Tokens(q.trace) == Tokens(p.trace)
      && LastResponse(q.trace) == LastResponse(p.trace)
      && (ApplyToolCalls(env, limits.maxCalls, requestSeq, calls, index, p).verdict.AllExecuted? ==>
            TrailingExecs(q.trace) == |calls|)
    decreases |calls| - index
  {
    hide Lawful, Requests, Tokens, LastResponse, TrailingExecs, ShortCircuits;
    if index < |calls| && !OverCallLimit(limits.maxCalls, CountCall(p)) {
      var one := ExecuteCall(env, requestSeq, index, calls[index], CountCall(p));
      ExecIsLawful(env, limits, prefix, calls, p.trace, env.execute(p.trace, calls[index]));
      if one.verdict.AllExecuted? {
        ApplyLawful(env, limits, prefix, requestSeq, calls, index + 1, one.p);
      }
    }
  }

  /** What `apply_tool_calls` leaves behind, by how it ended. */
  ghost predicate AppliedWell(
    env: Env, limits: Limits, prefix: seq<Message>, executed: nat, remaining: nat, a: Applied) {
    var results := Results(a.p.trace);
    && SyncedOutput(a.p) && CallsWithin(limits, results) && |results| >= executed
    && match a.verdict
       case AllExecuted => Quiet(results) && Synced(env, prefix, a.p) && |results| == executed + remaining
       case ShortCircuit(result) => EndsWithSignal(results, result)
       case CallLimit => 0 < limits.maxCalls < U32_MAX && |results| == limits.maxCalls && Quiet(results)
  }

  /** The state between two tool calls of a block. */
  ghost predicate MidBlock(env: Env, limits: Limits, prefix: seq<Message>, requestSeq: nat, index: nat, p: Progress) {
    && Synced(env, prefix, p) && Quiet(Results(p.trace)) && CallsWithin(limits, Results(p.trace))
    && requestSeq == RequestSeq(p.trace) && index == TrailingExecs(p.trace)
  }

  lemma OneCallKeeps(
    env: Env, limits: Limits, prefix: seq<Message>, requestSeq: nat, index: nat, remaining: nat, call: ToolCall, p: Progress)
    requires MidBlock(env, limits, prefix, requestSeq, index, p) && !OverCallLimit(limits.maxCalls, CountCall(p))
    ensures
      var one := ExecuteCall(env, requestSeq, index, call, CountCall(p));
      && |Results(one.p.trace)| == |Results(p.trace)| + 1
      && (one.verdict.AllExecuted? ==> MidBlock(env, limits, prefix, requestSeq, index + 1, one.p))
      && !one.verdict.CallLimit?
      && (one.verdict.ShortCircuit? ==> AppliedWell(env, limits, prefix, |Results(p.trace)|, remaining, one))
  {
    hide Synced, Carries, Results, Requests, Tokens, TrailingExecs, LastResponse, ToolMessage;
    SyncedCounts(env, prefix, p);
    ExecSyncs(env, prefix, requestSeq, index, call, p);
    CallsStayUnderLimit(limits.maxCalls, p.callsUsed, |Results(p.trace)|);
  }

  lemma {:induction false} ApplySyncs(
    env: Env, limits: Limits, prefix: seq<Message>, requestSeq: nat, calls: seq<ToolCall>, index: nat, p: Progress)
    requires index <= |calls| && MidBlock(env, limits, prefix, requestSeq, index, p)
    ensures AppliedWell(env, limits, prefix, |Results(p.trace)|, |calls| - index,
                        ApplyToolCalls(env, limits.maxCalls, requestSeq, calls, index, p))
    decreases |calls| - index
  {
    hide AppliedWell, MidBlock, ExecuteCall;
    if index == |calls| {
      NothingLeft(env, limits, prefix, requestSeq, index, p);
    } else if OverCallLimit(limits.maxCalls, CountCall(p)) {
      LimitReached(env, limits, prefix, requestSeq, index, |calls| - index, p);
    } else {
      var one := ExecuteCall(env, requestSeq, index, calls[index], CountCall(p));
      OneCallKeeps(env, limits, prefix, requestSeq, index, |calls| - index, calls[index], p);
      if one.verdict.AllExecuted? {
        var a := ApplyToolCalls(env, limits.maxCalls, requestSeq, calls, index + 1, one.p);
        ApplySyncs(env, limits, prefix, requestSeq, calls, index + 1, one.p);
        AppliedOneMore(env, limits, prefix, |Results(p.trace)|, |calls| - index, a);
      }
    }
  }

  lemma NothingLeft(env: Env, limits: Limits, prefix: seq<Message>, requestSeq: nat, index: nat, p: Progress)
    requires MidBlock(env, limits, prefix, requestSeq, index, p)
    ensures AppliedWell(env, limits, prefix, |Results(p.trace)|, 0, Applied(p, AllExecuted))
  {}

  lemma LimitReached(
    env: Env, limits: Limits, prefix: seq<Message>, requestSeq: nat, index: nat, remaining: nat, p: Progress)
    requires MidBlock(env, limits, prefix, requestSeq, index, p) && OverCallLimit(limits.maxCalls, CountCall(p))
    ensures AppliedWell(env, limits, prefix, |Results(p.trace)|, remaining, Applied(CountCall(p), CallLimit))
  {
    CallLimitMeansFull(limits.maxCalls, p.callsUsed, |Results(p.trace)|);
  }

  lemma AppliedOneMore(env: Env, limits: Limits, prefix: seq<Message>, executed: nat, remaining: nat, a: Applied)
    requires remaining > 0 && AppliedWell(env, limits, prefix, executed + 1, remaining - 1, a)
    ensures AppliedWell(env, limits, prefix, executed, remaining, a)
  {}

  /** When every call was executed, the log grew by exactly one answer per call. */
  lemma {:induction false} ApplyAnswers(
    env: Env, maxCalls: U32, requestSeq: nat, calls: seq<ToolCall>, index: nat, p: Progress) returns (ms: seq<Message>)
    requires index <= |calls|
    requires ApplyToolCalls(env, maxCalls, requestSeq, calls, index, p).verdict.AllExecuted?
    ensures ApplyToolCalls(env, maxCalls, requestSeq, calls, index, p).p.log == p.log + ms
    ensures Answers(ms, calls[index..])
    decreases |calls| - index
  {
    hide ShortCircuits;
    if index == |calls| {
      return [];
    }
    var one := ExecuteCall(env, requestSeq, index, calls[index], CountCall(p)).p;
    var answer := ToolMessage(env, calls[index], env.execute(p.trace, calls[index]));
    var rest := ApplyAnswers(env, maxCalls, requestSeq, calls, index + 1, one);
    ms := [answer] + rest;
    assert calls[index..] == [calls[index]] + calls[index + 1..];
    assert one.log == p.log + [answer] && one.log + rest == p.log + ms;
  }

  /** A 32-bit counter reaches "over the limit" only when the limit is below its maximum and used up. */
  lemma CallLimitMeansFull(maxCalls: U32, used: U32, executed: nat)
    requires used == executed % (U32_MAX + 1)
    requires 0 < maxCalls < U32_MAX ==> executed <= maxCalls
    requires maxCalls > 0 && (used + 1) % (U32_MAX + 1) > maxCalls
    ensures maxCalls < U32_MAX && executed == maxCalls
  {}

  lemma CallsStayUnderLimit(maxCalls: U32, used: U32, executed: nat)
    requires used == executed % (U32_MAX + 1)
    requires 0 < maxCalls < U32_MAX ==> executed <= maxCalls
    requires !(maxCalls > 0 && (used + 1) % (U32_MAX + 1) > maxCalls)
    ensures 0 < maxCalls < U32_MAX ==> executed + 1 <= maxCalls
  {}

  // ----- one iteration

  /** Right after a request, before its reply is accounted for. The accumulators lag one event behind. */
  ghost predicate JustAsked(env: Env, limits: Limits, prefix: seq<Message>, before: seq<Event>, p: Progress) {
    && p.trace != [] && p.trace[..|p.trace| - 1] == before && p.trace[|p.trace| - 1].Chat?
    && Synced(env, prefix, p.(trace := before, iteration := RequestSeq(before)))
    && p.iteration == RequestSeq(p.trace)
    && WellFormedLog(prefix, p.log)
    && Lawful(env, limits, prefix, p.trace)
    && Quiet(Results(before))
    && RequestsWithin(limits, Requests(p.trace)) && CallsWithin(limits, Results(before))
    && WithinBudget(limits, before)
  }

  lemma AskKeeps(env: Env, limits: Limits, prefix: seq<Message>, p: Progress)
    requires Inv(env, limits, prefix, p) && !IterationsUsedUp(limits, p)
    ensures JustAsked(env, limits, prefix, p.trace, Ask(env, limits, p))
  {
    var asked := Ask(env, limits, p);
    var e := asked.trace[|p.trace|];
    Snoc(p.trace, e);
    WarningStaysInPrefix(prefix, p.log);
    LawfulSnoc(env, limits, prefix, p.trace, e);
    assert p.(iteration := RequestSeq(p.trace)) == p;
    assert asked.(trace := p.trace, iteration := RequestSeq(p.trace)) == p;
  }

  /** Accounting catches the accumulators up, and the budget test is exact although it saturates. */
  lemma {:induction false} AccountKeeps(
    env: Env, limits: Limits, prefix: seq<Message>, before: seq<Event>, r: Response, p: Progress)
    requires JustAsked(env, limits, prefix, before, p) && ReplyOf(p.trace[|p.trace| - 1]) == Some(r)
    ensures
      var u := AccountUsage(r, p);
      var q := RecordAudit(r, u);
      && u.tokensUsed == Min(Tokens(p.trace), U64_MAX)
      && (OverBudget(limits, r, u) <==> 0 < limits.tokenBudget < U64_MAX && Tokens(p.trace) > limits.tokenBudget)
      && q == p.(tokensUsed := u.tokensUsed, usages := UsagesOf(p.trace), requestAudits := RequestAuditsOf(p.trace))
      && SyncedOutput(q)
    ensures Results(p.trace) == Results(before) && Tokens(p.trace) == Tokens(before) + EventTokens(p.trace[|p.trace| - 1])
    ensures LastResponse(p.trace) == Some(r) && TrailingExecs(p.trace) == 0
  {
    hide WellFormedLog, Lawful;
    assert UsagesOf(before) + [] == UsagesOf(before) && RequestAuditsOf(before) + [] == RequestAuditsOf(before);
    assert Results(before) + [] == Results(before) && AuditsOf(before) + [] == AuditsOf(before);
  }

  /** The output of a turn that ended normally, read off its trace. */
  ghost predicate FitsOutput(limits: Limits, t: seq<Event>, out: Output) {
    var results, r := Results(t), LastResponse(t);
    && r.Some? && out.reasoning == r.value.reasoning
    && out.signals == AllSignals(results) && out.toolAudits == AuditsOf(t)
    && out.usages == UsagesOf(t) && out.requestAudits == RequestAuditsOf(t)
    && QuietUpToLast(results)
    && WithinBudget(limits, t)
    && (if Quiet(results) then out.disposition == FinalMessage && out.content == r.value.content
        else
          var last := results[|results| - 1];
          if Carries(last.signals, APPROVAL_REQUIRED) then
            && out.disposition == ApprovalRequired
            && (Trim(r.value.content) != [] ==> out.content == r.value.content)
            && (Trim(r.value.content) == [] ==>
                  out.content == if Carries(last.signals, STOP) then StoppedTurnContent(last.signals) else last.content)
          else
            && Carries(last.signals, STOP) && out.disposition == Stopped
            && out.content == StoppedTurnContent(last.signals))
  }

  ghost predicate Ending(
    env: Env, limits: Limits, prefix: seq<Message>, t: seq<Event>, outcome: Result<Output, TurnError>) {
    && Lawful(env, limits, prefix, t)
    && RequestsWithin(limits, Requests(t)) && CallsWithin(limits, Results(t))
    && match outcome
       case Success(out) => FitsOutput(limits, t, out)
       case Failure(Provider(reason)) =>
         t != [] && t[|t| - 1].Chat? && t[|t| - 1].reply == Failure(reason) && Quiet(Results(t)) && WithinBudget(limits, t)
       case Failure(ToolLoopExhausted) =>
         && Quiet(Results(t)) && WithinBudget(limits, t)
         && (|| (limits.maxIterations > 0 && |Requests(t)| == limits.maxIterations
                 && WellFormedLog(prefix, Replay(env, prefix, t)))
             || (0 < limits.maxCalls < U32_MAX && |Results(t)| == limits.maxCalls))
       case Failure(BudgetExceeded(used, budget)) =>
         && budget == limits.tokenBudget && 0 < budget < U64_MAX
         && t != [] && t[|t| - 1].Chat?
         && Tokens(t[..|t| - 1]) <= budget < Tokens(t)
         && used == Min(Tokens(t), U64_MAX) && Quiet(Results(t))
  }

  /** A state reached by the loop: ready for the next iteration, or ended as it should be. */
  ghost predicate Good(env: Env, limits: Limits, prefix: seq<Message>, s: State) {
    match s
    case Running(p) => Inv(env, limits, prefix, p)
    case Done(p, outcome) => Ending(env, limits, prefix, p.trace, outcome)
  }

  lemma BlockCompletes(
    env: Env, maxCalls: U32, prefix: seq<Message>, requestSeq: nat, r: Response, asked: Progress, log: seq<Message>)
    requires WellFormedLog(prefix, log) && r.toolCalls != [] && asked.log == log + [AssistantMessage(r)]
    requires ApplyToolCalls(env, maxCalls, requestSeq, r.toolCalls, 0, asked).verdict.AllExecuted?
    ensures WellFormedLog(prefix, ApplyToolCalls(env, maxCalls, requestSeq, r.toolCalls, 0, asked).p.log)
  {
    hide ApplyToolCalls, WellFormedLog, Answers;
    var ms := ApplyAnswers(env, maxCalls, requestSeq, r.toolCalls, 0, asked);
    assert r.toolCalls[0..] == r.toolCalls;
    LogGrowsByBlock(prefix, log, AssistantMessage(r), ms, r.toolCalls);
  }

  lemma LogGrowsByBlock(
    prefix: seq<Message>, log: seq<Message>, asks: Message, ms: seq<Message>, calls: seq<ToolCall>)
    requires WellFormedLog(prefix, log) && Answers(ms, calls) && calls != []
    requires asks.role == "assistant" && asks.toolCalls == Some(calls)
    ensures WellFormedLog(prefix, log + [asks] + ms)
  {
    hide Answers, Blocks;
    var block := [asks] + ms;
    assert block[1..] == ms && block[0] == asks;
    BlocksAppend(log[|prefix|..], block);
    var all := log + [asks] + ms;
    assert all == log + block && all[|prefix|..] == log[|prefix|..] + block;
  }

  lemma CallsConclude(
    env: Env, limits: Limits, prefix: seq<Message>, executed: nat, remaining: nat, r: Response, a: Applied)
    requires Lawful(env, limits, prefix, a.p.trace)
    requires RequestsWithin(limits, Requests(a.p.trace)) && WithinBudget(limits, a.p.trace)
    requires AppliedWell(env, limits, prefix, executed, remaining, a)
    requires a.verdict.AllExecuted? ==> WellFormedLog(prefix, a.p.log) && AllAnswered(a.p.trace)
    requires LastResponse(a.p.trace) == Some(r)
    ensures Good(env, limits, prefix, AfterCalls(r, a))
  {
    hide Lawful, WellFormedLog, Synced, Trim, StoppedTurnContent, Carries;
  }

  lemma ToolCallsKeep(env: Env, limits: Limits, prefix: seq<Message>, r: Response, log: seq<Message>, asked: Progress)
    requires MidBlock(env, limits, prefix, asked.iteration, 0, asked) && Lawful(env, limits, prefix, asked.trace)
    requires LastResponse(asked.trace) == Some(r) && r.toolCalls != []
    requires RequestsWithin(limits, Requests(asked.trace)) && WithinBudget(limits, asked.trace)
    requires WellFormedLog(prefix, log) && asked.log == log + [AssistantMessage(r)]
    ensures Good(env, limits, prefix,
                 AfterCalls(r, ApplyToolCalls(env, limits.maxCalls, asked.iteration, r.toolCalls, 0, asked)))
  {
    hide Synced, Lawful, AppliedWell, WellFormedLog, Good, AfterCalls;
    var a := ApplyToolCalls(env, limits.maxCalls, asked.iteration, r.toolCalls, 0, asked);
    ApplyLawful(env, limits, prefix, asked.iteration, r.toolCalls, 0, asked);
    ApplySyncs(env, limits, prefix, asked.iteration, r.toolCalls, 0, asked);
    if a.verdict.AllExecuted? {
      BlockCompletes(env, limits.maxCalls, prefix, asked.iteration, r, asked, log);
    }
    CallsConclude(env, limits, prefix, |Results(asked.trace)|, |r.toolCalls|, r, a);
  }

  lemma AfterReplyKeeps(env: Env, limits: Limits, prefix: seq<Message>, before: seq<Event>, r: Response, p: Progress)
    requires JustAsked(env, limits, prefix, before, p) && ReplyOf(p.trace[|p.trace| - 1]) == Some(r)
    ensures Good(env, limits, prefix, AfterReply(env, limits, r, p))
  {
    hide Lawful, WellFormedLog, ApplyToolCalls, AfterCalls, ShortCircuits;
    AccountKeeps(env, limits, prefix, before, r, p);
    var q := RecordAudit(r, AccountUsage(r, p));
    if !OverBudget(limits, r, AccountUsage(r, p)) && r.toolCalls != [] {
      var asked := q.(log := q.log + [AssistantMessage(r)]);
      ToolCallsKeep(env, limits, prefix, r, p.log, asked);
    }
  }

  lemma ExhaustionIsGood(env: Env, limits: Limits, prefix: seq<Message>, p: Progress)
    requires Inv(env, limits, prefix, p) && IterationsUsedUp(limits, p)
    ensures Ending(env, limits, prefix, p.trace, Failure(ToolLoopExhausted))
  {
    hide Lawful, WellFormedLog, ShortCircuits, Replay, AuditsOf, UsagesOf, RequestAuditsOf;
  }

  lemma ProviderFailureIsGood(
    env: Env, limits: Limits, prefix: seq<Message>, before: seq<Event>, p: Progress, reason: string)
    requires JustAsked(env, limits, prefix, before, p) && p.trace[|p.trace| - 1].reply == Failure(reason)
    ensures Ending(env, limits, prefix, p.trace, Failure(Provider(reason)))
  {
    hide Lawful, WellFormedLog, ShortCircuits, Replay, AuditsOf, UsagesOf, RequestAuditsOf;
    assert Results(before) + [] == Results(before);
  }

  lemma StepKeeps(env: Env, limits: Limits, prefix: seq<Message>, p: Progress)
    requires Inv(env, limits, prefix, p)
    ensures Good(env, limits, prefix, Step(env, limits, p))
  {
    hide Inv, Ending, JustAsked, AfterReply, RequestFor;
    if IterationsUsedUp(limits, p) {
      ExhaustionIsGood(env, limits, prefix, p);
    } else {
      AskKeeps(env, limits, prefix, p);
      var asked := Ask(env, limits, p);
      var reply := LastReply(asked);
      assert reply.Success? ==> ReplyOf(asked.trace[|asked.trace| - 1]) == Some(reply.value);
      if reply.Success? {
        AfterReplyKeeps(env, limits, prefix, p.trace, reply.value, asked);
      } else {
        ProviderFailureIsGood(env, limits, prefix, p.trace, asked, reply.error);
      }
    }
  }

  lemma {:induction false} RunKeeps(env: Env, limits: Limits, prefix: seq<Message>, p: Progress, k: nat)
    requires Inv(env, limits, prefix, p)
    ensures Good(env, limits, prefix, Run(env, limits, p, k))
    decreases k
  {
    hide Inv, Ending, Step;
    if k > 0 {
      StepKeeps(env, limits, prefix, p);
      var s := Step(env, limits, p);
      if s.Running? {
        RunKeeps(env, limits, prefix, s.p, k - 1);
      }
    }
  }

  lemma StartIsGood(env: Env, limits: Limits, input: Input)
    ensures Inv(env, limits, InitialMessages(input), Start(input))
  {
    var prefix := InitialMessages(input);
    assert prefix[|prefix|..] == [];
  }

  /** The heart of the module: every state that any turn reaches is good. */
  lemma {:induction false} TurnIsGood(env: Env, limits: Limits, input: Input, k: nat)
    ensures Good(env, limits, InitialMessages(input), RunTurn(env, limits, input, k))
  {
    hide Inv, Good;
    StartIsGood(env, limits, input);
    RunKeeps(env, limits, InitialMessages(input), Start(input), k);
  }
}
