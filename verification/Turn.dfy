/** The tool-calling turn engine: `run_agent_execution` and `apply_tool_calls`.

    The provider and the tools are unknown code, so they are deterministic oracles over everything
    that happened so far in the turn. One `Step` is one iteration of the loop; `Run` is any number of
    iterations. The loops themselves are the methods at the end of the module. */
module Turn {
  import opened Wrappers
  import opened Text

  // ----- data

  datatype Json =
    | JNull
    | JBool(b: bool)
    | JNumber(n: int)
    | JString(s: string)
    | JArray(items: seq<Json>)
    | JObject(fields: map<string, Json>)

  datatype Media = Media(mimeType: Option<string>, url: string)
  datatype ToolCall = ToolCall(id: Option<string>, name: string, arguments: Json)

  datatype Message = Message(
    role: string, content: string, media: seq<Media>, toolCalls: Option<seq<ToolCall>>, toolCallId: Option<string>)

  datatype Usage = Usage(inputTokens: U64, outputTokens: U64, totalTokens: U64)
  datatype UsageSource = ProviderReported | EstimatedLocal

  datatype Response = Response(
    content: string, reasoning: Option<string>, toolCalls: seq<ToolCall>,
    usage: Option<Usage>, usageSource: Option<UsageSource>, audit: Option<Json>)

  datatype Signal = Signal(kind: string, payload: Json)

  datatype ToolResult = ToolResult(
    ok: bool, content: string, errorCode: Option<string>, errorDetails: Option<Json>, retryable: Option<bool>,
    signals: seq<Signal>, media: seq<Media>)

  datatype Limits = Limits(maxIterations: U32, maxCalls: U32, tokenBudget: U64)

  datatype HistoryMessage = HistoryMessage(
    role: string, content: string, toolCalls: Option<seq<ToolCall>>, toolCallId: Option<string>)

  datatype Input = Input(
    systemPrompt: Option<string>, history: seq<HistoryMessage>, userContent: string, userMedia: seq<Media>)

  datatype RequestUsage = RequestUsage(requestSeq: nat, usage: Usage, source: UsageSource)
  datatype RequestAudit = RequestAudit(requestSeq: nat, payload: Json)

  datatype ToolAudit = ToolAudit(
    requestSeq: nat, callSeq: nat, callId: Option<string>, name: string, arguments: Json, result: ToolResult)

  datatype Disposition = FinalMessage | ApprovalRequired | Stopped

  datatype Output = Output(
    content: string, reasoning: Option<string>, disposition: Disposition, signals: seq<Signal>,
    usages: seq<RequestUsage>, requestAudits: seq<RequestAudit>, toolAudits: seq<ToolAudit>)

  datatype TurnError =
    | Provider(reason: string)
    | ToolLoopExhausted
    | BudgetExceeded(used: U64, budget: U64)

  /** What the engine did to the outside world, with the answer it got. */
  datatype Event =
    | Chat(request: seq<Message>, reply: Result<Response, string>)
    | Exec(call: ToolCall, result: ToolResult)

  /** The provider, the tool executor, and the serializer that wraps a tool result for the model. */
  datatype Env = Env(
    chat: (seq<Event>, seq<Message>) -> Result<Response, string>,
    execute: (seq<Event>, ToolCall) -> ToolResult,
    render: (ToolResult, string) -> string)

  /** The local variables of the loop, with the trace of outside effects. */
  datatype Progress = Progress(
    log: seq<Message>, trace: seq<Event>, iteration: U32, callsUsed: U32, tokensUsed: U64,
    signals: seq<Signal>, usages: seq<RequestUsage>, requestAudits: seq<RequestAudit>, toolAudits: seq<ToolAudit>)

  datatype State =
    | Running(p: Progress)
    | Done(p: Progress, outcome: Result<Output, TurnError>)

  const APPROVAL_REQUIRED := "approval_required"
  const IM_CARD := "im_card"
  const STOP := "stop"
  const STOPPED_TURN_MESSAGE := "Current turn stopped. No further tool calls were made."
  const WARNING := "You are about to reach the maximum tool call limit"

  /** The rest of its text matters to the model provider only. */
  const FINAL_ITERATION_PROMPT := WARNING + ". This is your final iteration."

  // ----- messages

  function PlainMessage(role: string, content: string): Message {
    Message(role, content, [], None, None)
  }

  predicate SupportedRole(role: string) {
    role == "system" || role == "user" || role == "assistant" || role == "tool"
  }

  function HistoryMessages(history: seq<HistoryMessage>): seq<Message> {
    if history == [] then []
    else
      var h := history[0];
      (if SupportedRole(h.role) then [Message(h.role, h.content, [], h.toolCalls, h.toolCallId)] else [])
      + HistoryMessages(history[1..])
  }

  function InitialMessages(input: Input): seq<Message> {
    (if input.systemPrompt.Some? then [PlainMessage("system", input.systemPrompt.value)] else [])
    + HistoryMessages(input.history)
    + (if Trim(input.userContent) != [] || input.userMedia != []
       then [Message("user", input.userContent, input.userMedia, None, None)] else [])
  }

  predicate IsWarning(m: Message) {
    m.role == "system" && Contains(m.content, WARNING)
  }

  predicate HasWarning(log: seq<Message>) {
    exists m :: m in log && IsWarning(m)
  }

  function AssistantMessage(r: Response): Message {
    Message("assistant", r.content, [], Some(r.toolCalls), None)
  }

  function ToolMessage(env: Env, call: ToolCall, result: ToolResult): Message {
    Message("tool", env.render(result, call.name), result.media, None, call.id)
  }

  // ----- signals

  predicate Carries(signals: seq<Signal>, kind: string) {
    exists s :: s in signals && s.kind == kind
  }

  /** A result that ends the turn. */
  predicate ShortCircuits(r: ToolResult) {
    Carries(r.signals, APPROVAL_REQUIRED) || Carries(r.signals, STOP)
  }

  function StringField(v: Json, field: string): Option<string> {
    if v.JObject? && field in v.fields && v.fields[field].JString? then Some(v.fields[field].s) else None
  }

  function FirstOfKind(signals: seq<Signal>, kind: string): Option<Signal> {
    if signals == [] then None
    else if signals[0].kind == kind then Some(signals[0])
    else FirstOfKind(signals[1..], kind)
  }

  predicate IsQuestionCard(s: Signal) {
    s.kind == IM_CARD && StringField(s.payload, "kind") == Some("question_single_select")
  }

  function StoppedTurnContent(signals: seq<Signal>): string {
    var stop := FirstOfKind(signals, STOP);
    var source := if stop.Some? then StringField(stop.value.payload, "source") else None;
    var asksQuestion := source.Some? && Trim(source.value) == "ask_question";
    if (exists s :: s in signals && IsQuestionCard(s)) || asksQuestion then "" else STOPPED_TURN_MESSAGE
  }

  // ----- one iteration

  function SaturatingAdd(a: nat, b: nat, max: nat): nat { Min(a + b, max) }

  datatype Verdict = AllExecuted | ShortCircuit(result: ToolResult) | CallLimit
  datatype Applied = Applied(p: Progress, verdict: Verdict)

  /** Counts a call. The counter is a 32-bit integer incremented with `+=`, which wraps. */
  function CountCall(p: Progress): Progress {
    p.(callsUsed := (p.callsUsed + 1) % (U32_MAX + 1))
  }

  predicate OverCallLimit(maxCalls: U32, p: Progress) {
    maxCalls > 0 && p.callsUsed > maxCalls
  }

  function ExecuteCall(env: Env, requestSeq: nat, index: nat, call: ToolCall, p: Progress): Applied {
    var result := env.execute(p.trace, call);
    Applied(
      p.(trace := p.trace + [Exec(call, result)],
         toolAudits := p.toolAudits + [ToolAudit(requestSeq, index + 1, call.id, call.name, call.arguments, result)],
         signals := p.signals + result.signals,
         log := p.log + [ToolMessage(env, call, result)]),
      if ShortCircuits(result) then ShortCircuit(result) else AllExecuted)
  }

  function ApplyToolCalls(
    env: Env, maxCalls: U32, requestSeq: nat, calls: seq<ToolCall>, index: nat, p: Progress): Applied
    requires index <= |calls|
    decreases |calls| - index
  {
    if index == |calls| then Applied(p, AllExecuted)
    else
      var counted := CountCall(p);
      if OverCallLimit(maxCalls, counted) then Applied(counted, CallLimit)
      else
        var one := ExecuteCall(env, requestSeq, index, calls[index], counted);
        if one.verdict.ShortCircuit? then one
        else ApplyToolCalls(env, maxCalls, requestSeq, calls, index + 1, one.p)
  }

  /** Whether the request of iteration `iteration` gets the final-iteration prompt appended. */
  predicate Warns(limits: Limits, iteration: nat, log: seq<Message>) {
    limits.maxIterations >= 3 && iteration == limits.maxIterations && !HasWarning(log)
  }

  function RequestFor(limits: Limits, iteration: nat, log: seq<Message>): seq<Message> {
    if Warns(limits, iteration, log) then log + [PlainMessage("system", FINAL_ITERATION_PROMPT)] else log
  }

  function SourceOf(r: Response): UsageSource {
    if r.usageSource.Some? then r.usageSource.value else ProviderReported
  }

  function AccountUsage(r: Response, p: Progress): Progress {
    match r.usage
    case None => p
    case Some(u) =>
      p.(tokensUsed := SaturatingAdd(p.tokensUsed, u.totalTokens, U64_MAX),
         usages := p.usages + [RequestUsage(p.iteration, u, SourceOf(r))])
  }

  predicate OverBudget(limits: Limits, r: Response, p: Progress) {
    r.usage.Some? && limits.tokenBudget > 0 && p.tokensUsed > limits.tokenBudget
  }

  function RecordAudit(r: Response, p: Progress): Progress {
    if r.audit.Some? then p.(requestAudits := p.requestAudits + [RequestAudit(p.iteration, r.audit.value)]) else p
  }

  function MakeOutput(content: string, r: Response, d: Disposition, p: Progress): Output {
    Output(content, r.reasoning, d, p.signals, p.usages, p.requestAudits, p.toolAudits)
  }

  function ShortCircuitOutput(r: Response, result: ToolResult, p: Progress): Output {
    var approval := Carries(result.signals, APPROVAL_REQUIRED);
    var content :=
      if approval && Trim(r.content) != [] then r.content
      else if Carries(result.signals, STOP) then StoppedTurnContent(result.signals)
      else result.content;
    MakeOutput(content, r, if approval then ApprovalRequired else Stopped, p)
  }

  function AfterCalls(r: Response, a: Applied): State {
    match a.verdict
    case AllExecuted => Running(a.p)
    case CallLimit => Done(a.p, Failure(ToolLoopExhausted))
    case ShortCircuit(result) => Done(a.p, Success(ShortCircuitOutput(r, result, a.p)))
  }

  /** What follows a successful provider reply: accounting, then either the answer or the tool calls. */
  function AfterReply(env: Env, limits: Limits, r: Response, p: Progress): State {
    var accounted := AccountUsage(r, p);
    if OverBudget(limits, r, accounted) then
      Done(accounted, Failure(BudgetExceeded(accounted.tokensUsed, limits.tokenBudget)))
    else
      var audited := RecordAudit(r, accounted);
      if r.toolCalls == [] then Done(audited, Success(MakeOutput(r.content, r, FinalMessage, audited)))
      else
        var asked := audited.(log := audited.log + [AssistantMessage(r)]);
        AfterCalls(r, ApplyToolCalls(env, limits.maxCalls, p.iteration, r.toolCalls, 0, asked))
  }

  /** Sends the request of the next iteration. */
  function Ask(env: Env, limits: Limits, p: Progress): Progress {
    var iteration := SaturatingAdd(p.iteration, 1, U32_MAX);
    var request := RequestFor(limits, iteration, p.log);
    p.(iteration := iteration, trace := p.trace + [Chat(request, env.chat(p.trace, request))])
  }

  predicate IterationsUsedUp(limits: Limits, p: Progress) {
    limits.maxIterations > 0 && p.iteration >= limits.maxIterations
  }

  /** The reply to the last request. */
  function LastReply(p: Progress): Result<Response, string>
    requires p.trace != [] && p.trace[|p.trace| - 1].Chat?
  {
    p.trace[|p.trace| - 1].reply
  }

  function Step(env: Env, limits: Limits, p: Progress): State {
    if IterationsUsedUp(limits, p) then Done(p, Failure(ToolLoopExhausted))
    else
      var asked := Ask(env, limits, p);
      match LastReply(asked)
      case Failure(reason) => Done(asked, Failure(Provider(reason)))
      case Success(r) => AfterReply(env, limits, r, asked)
  }

  function Start(input: Input): Progress {
    Progress(InitialMessages(input), [], 0, 0, 0, [], [], [], [])
  }

  /** At most `k` iterations from `p`; the result is `Done` exactly when the turn has ended by then. */
  function Run(env: Env, limits: Limits, p: Progress, k: nat): State
    decreases k
  {
    if k == 0 then Running(p)
    else
      match Step(env, limits, p)
      case Done(q, o) => Done(q, o)
      case Running(q) => Run(env, limits, q, k - 1)
  }

  function RunTurn(env: Env, limits: Limits, input: Input, k: nat): State {
    Run(env, limits, Start(input), k)
  }

  // ----- the loops

  method ApplyToolCallsLoop(env: Env, maxCalls: U32, requestSeq: nat, calls: seq<ToolCall>, start: Progress)
    returns (p: Progress, verdict: Verdict)
    ensures Applied(p, verdict) == ApplyToolCalls(env, maxCalls, requestSeq, calls, 0, start)
  {
    hide ExecuteCall;
    p := start;
    for i := 0 to |calls|
      invariant ApplyToolCalls(env, maxCalls, requestSeq, calls, 0, start)
             == ApplyToolCalls(env, maxCalls, requestSeq, calls, i, p)
    {
      p := p.(callsUsed := if p.callsUsed == U32_MAX then 0 else p.callsUsed + 1);
      if maxCalls > 0 && p.callsUsed > maxCalls {
        return p, CallLimit;
      }
      p, verdict := ExecuteAndRecord(env, requestSeq, i, calls[i], p);
      if verdict.ShortCircuit? {
        return;
      }
    }
    verdict := AllExecuted;
  }

  /** The rest of the loop's body: the execution, its audit, its signals and its message. */
  method ExecuteAndRecord(env: Env, requestSeq: nat, index: nat, call: ToolCall, start: Progress)
    returns (p: Progress, verdict: Verdict)
    ensures Applied(p, verdict) == ExecuteCall(env, requestSeq, index, call, start)
  {
    hide Carries;
    var result := env.execute(start.trace, call);
    p := start.(trace := start.trace + [Exec(call, result)]);
    p := p.(toolAudits := p.toolAudits + [ToolAudit(requestSeq, index + 1, call.id, call.name, call.arguments, result)]);
    p := p.(signals := p.signals + result.signals);
    p := p.(log := p.log + [Message("tool", env.render(result, call.name), result.media, None, call.id)]);
    var stops := Carries(result.signals, APPROVAL_REQUIRED) || Carries(result.signals, STOP);
    verdict := if stops then ShortCircuit(result) else AllExecuted;
  }

  /** The body of the loop: one request, its accounting, and its tool calls. */
  method RunIteration(env: Env, limits: Limits, start: Progress) returns (s: State)
    requires !IterationsUsedUp(limits, start)
    ensures s == Step(env, limits, start)
  {
    var p := start.(iteration := Min(start.iteration + 1, U32_MAX));
    var request := p.log;
    if p.iteration == limits.maxIterations && limits.maxIterations >= 3 && !HasWarning(p.log) {
      request := request + [PlainMessage("system", FINAL_ITERATION_PROMPT)];
    }
    var reply := env.chat(p.trace, request);
    p := p.(trace := p.trace + [Chat(request, reply)]);
    assert p == Ask(env, limits, start) && LastReply(p) == reply;
    if reply.Failure? {
      return Done(p, Failure(Provider(reply.error)));
    }
    s := HandleReply(env, limits, reply.value, p);
  }

  method HandleReply(env: Env, limits: Limits, r: Response, start: Progress) returns (s: State)
    ensures s == AfterReply(env, limits, r, start)
  {
    var p := start;
    if r.usage.Some? {
      var u := r.usage.value;
      p := p.(tokensUsed := Min(p.tokensUsed + u.totalTokens, U64_MAX));
      var source := if r.usageSource.Some? then r.usageSource.value else ProviderReported;
      p := p.(usages := p.usages + [RequestUsage(p.iteration, u, source)]);
      if limits.tokenBudget > 0 && p.tokensUsed > limits.tokenBudget {
        return Done(p, Failure(BudgetExceeded(p.tokensUsed, limits.tokenBudget)));
      }
    }
    p := RecordAudit(r, p);
    if r.toolCalls == [] {
      return Done(p, Success(MakeOutput(r.content, r, FinalMessage, p)));
    }
    p := p.(log := p.log + [AssistantMessage(r)]);
    var verdict;
    p, verdict := ApplyToolCallsLoop(env, limits.maxCalls, p.iteration, r.toolCalls, p);
    match verdict
    case CallLimit => s := Done(p, Failure(ToolLoopExhausted));
    case ShortCircuit(result) => s := Done(p, Success(ShortCircuitOutput(r, result, p)));
    case AllExecuted => s := Running(p);
  }

  /** The whole turn. `bound` witnesses that this turn ends; a turn that never ends returns nothing
      to specify. Module `TurnTermination` says which turns end. */
  method RunAgentExecution(env: Env, limits: Limits, input: Input, ghost bound: nat)
    returns (outcome: Result<Output, TurnError>, trace: seq<Event>)
    requires RunTurn(env, limits, input, bound).Done?
    ensures outcome == RunTurn(env, limits, input, bound).outcome
    ensures trace == RunTurn(env, limits, input, bound).p.trace
  {
    hide AfterReply, Ask, InitialMessages;
    var p := Start(input);
    ghost var left := bound;
    while !(limits.maxIterations > 0 && p.iteration >= limits.maxIterations)
      invariant Run(env, limits, p, left) == RunTurn(env, limits, input, bound)
      invariant left > 0
      decreases left
    {
      var s := RunIteration(env, limits, p);
      match s
      case Done(q, o) => return o, q.trace;
      case Running(q) => p := q;
      left := left - 1;
    }
    return Failure(ToolLoopExhausted), p.trace;
  }
}
