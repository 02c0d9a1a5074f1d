/** Exponential backoff and the classification of failures into retry decisions. */
module Retry {
  import opened Wrappers

  /** A duration in nanoseconds; the largest one is 2^64-1 seconds and 999999999 nanoseconds. */
  const MAX_DURATION: nat := U64_MAX * 1_000_000_000 + 999_999_999
  type Duration = n: nat | n <= MAX_DURATION

  datatype Decision = RetryNow | RetryAfter(delay: Duration) | SendToDeadLetter | Abort

  datatype Policy = Policy(maxAttempts: U32, baseDelay: Duration, maxDelay: Duration)

  function Pow2(n: nat): (p: nat)
    ensures p >= 1
  {
    if n == 0 then 1 else 2 * Pow2(n - 1)
  }

  /** `2u32.saturating_pow`. */
  function SaturatingPow2(n: nat): U32 { Min(Pow2(n), U32_MAX) }

  function DelayFor(policy: Policy, attempt: U32): Duration {
    var factor := SaturatingPow2(Max(attempt - 1, 0));
    Min(Min(policy.baseDelay * factor, MAX_DURATION), policy.maxDelay)
  }

  function Classify(policy: Policy, kind: string, attempt: U32): Decision {
    if attempt >= policy.maxAttempts then SendToDeadLetter
    else if kind == "validation" || kind == "schema" || kind == "duplicate" then Abort
    else if kind == "provider_unavailable" || kind == "transport_unavailable" || kind == "tool_timeout" then
      RetryAfter(DelayFor(policy, attempt))
    else RetryNow
  }

  lemma {:induction false} Pow2Monotone(m: nat, n: nat)
    requires m <= n
    ensures Pow2(m) <= Pow2(n)
    decreases n - m
  {
    if m < n {
      Pow2Monotone(m, n - 1);
    }
  }

  lemma Pow2At32()
    ensures Pow2(31) == 0x8000_0000 && Pow2(32) == 0x1_0000_0000
  {
    assert Pow2(8) == 256;
    assert Pow2(16) == 65536;
    assert Pow2(24) == 0x100_0000;
  }

  lemma MulMonotone(a: nat, x: nat, y: nat)
    requires x <= y
    ensures a * x <= a * y
  {}

  /** Waiting never gets shorter from one attempt to the next. */
  lemma {:induction false} DelayNeverShrinks(policy: Policy, a: U32, b: U32)
    requires a <= b
    ensures DelayFor(policy, a) <= DelayFor(policy, b) <= policy.maxDelay
  {
    Pow2Monotone(Max(a - 1, 0), Max(b - 1, 0));
    MulMonotone(policy.baseDelay, SaturatingPow2(Max(a - 1, 0)), SaturatingPow2(Max(b - 1, 0)));
  }

  /** base * 2^(attempt-1), capped at the longest delay. */
  function IdealDelay(policy: Policy, attempt: U32): nat
    requires attempt >= 1
  {
    Min(policy.baseDelay * Pow2(attempt - 1), policy.maxDelay)
  }

  lemma DelayIsIdeal(policy: Policy, attempt: U32)
    requires attempt >= 1
    requires policy.baseDelay == 0 || policy.maxDelay <= policy.baseDelay * U32_MAX
    ensures DelayFor(policy, attempt) == IdealDelay(policy, attempt)
  {
    if Pow2(attempt - 1) > U32_MAX {
      MulMonotone(policy.baseDelay, U32_MAX, Pow2(attempt - 1));
    }
  }

  /** The saturating arithmetic computes the documented formula for every attempt exactly when the
      cap is reached before the 32-bit power saturates; otherwise the 33rd attempt is too short. */
  lemma {:induction false} BackoffIsExponential(policy: Policy)
    ensures (forall attempt: U32 :: attempt >= 1 ==> DelayFor(policy, attempt) == IdealDelay(policy, attempt))
            <==> policy.baseDelay == 0 || policy.maxDelay <= policy.baseDelay * U32_MAX
  {
    if policy.baseDelay == 0 || policy.maxDelay <= policy.baseDelay * U32_MAX {
      forall attempt: U32 | attempt >= 1 ensures DelayFor(policy, attempt) == IdealDelay(policy, attempt) {
        DelayIsIdeal(policy, attempt);
      }
    } else {
      Pow2At32();
      var attempt: U32 := 33;
      assert policy.baseDelay * 0x1_0000_0000 == policy.baseDelay * U32_MAX + policy.baseDelay;
      assert DelayFor(policy, attempt) != IdealDelay(policy, attempt);
    }
  }
}

/** The in-memory circuit breaker. */
module CircuitBreaker {
  import opened Wrappers

  /** `openMillis` is the open interval in milliseconds, already truncated to 64 bits. */
  datatype Policy = Policy(threshold: U32, openMillis: U64)

  datatype Cells = Cells(failures: U32, openUntil: U64)

  datatype Event = Succeeded | Failed(at: U64)

  const CLOSED := Cells(0, 0)

  /** When the circuit opened at `at` closes again: a 64-bit addition, which wraps. */
  function Deadline(policy: Policy, at: U64): U64 { (at + policy.openMillis) % (U64_MAX + 1) }

  /** The atomic `fetch_add` wraps. */
  function WrappingIncrement(n: U32): U32 { if n == U32_MAX then 0 else n + 1 }

  function Allows(c: Cells, now: U64): bool { now >= c.openUntil }

  function Next(policy: Policy, c: Cells, e: Event): Cells {
    match e
    case Succeeded => CLOSED
    case Failed(at) =>
      var failures := WrappingIncrement(c.failures);
      if failures >= policy.threshold then Cells(0, Deadline(policy, at)) else Cells(failures, c.openUntil)
  }

  function After(policy: Policy, h: seq<Event>): Cells {
    if h == [] then CLOSED else Next(policy, After(policy, h[..|h| - 1]), h[|h| - 1])
  }

  /** The object itself, whose methods are the sequential calls. */
  class InMemoryCircuitBreaker {
    const policy: Policy
    var consecutiveFailures: U32
    var openUntilEpochMs: U64

    function View(): Cells
      reads this
    {
      Cells(consecutiveFailures, openUntilEpochMs)
    }

    constructor (policy: Policy)
      ensures this.policy == policy && View() == CLOSED
    {
      this.policy := policy;
      consecutiveFailures := 0;
      openUntilEpochMs := 0;
    }

    method AllowRequest(now: U64) returns (allowed: bool)
      ensures allowed == Allows(View(), now)
    {
      allowed := now >= openUntilEpochMs;
    }

    method OnSuccess()
      modifies this
      ensures View() == Next(policy, old(View()), Succeeded)
    {
      consecutiveFailures := 0;
      openUntilEpochMs := 0;
    }

    method OnFailure(now: U64)
      modifies this
      ensures View() == Next(policy, old(View()), Failed(now))
    {
      var failures := WrappingIncrement(consecutiveFailures);
      consecutiveFailures := failures;
      if failures >= policy.threshold {
        openUntilEpochMs := (now + policy.openMillis) % (U64_MAX + 1);
        consecutiveFailures := 0;
      }
    }
  }

  // ----- what a call history means

  /** Failures since the last success. */
  function TrailingFailures(h: seq<Event>): nat {
    if h == [] || h[|h| - 1].Succeeded? then 0 else TrailingFailures(h[..|h| - 1]) + 1
  }

  function Period(policy: Policy): (t: nat)
    ensures t >= 1
  {
    Max(policy.threshold, 1)
  }

  /** How far a count is into its current period. */
  function Phase(n: nat, m: nat): nat
    requires m >= 1
  {
    n % m
  }

  /** The circuit opens at every failure that completes another `Period` of consecutive failures. */
  predicate IsTrip(policy: Policy, h: seq<Event>, i: nat) {
    i < |h| && h[i].Failed? && Phase(TrailingFailures(h[..i + 1]), Period(policy)) == 0
  }

  /** `i` is the latest trip and nothing succeeded since. */
  predicate OpenedBy(policy: Policy, h: seq<Event>, i: nat) {
    IsTrip(policy, h, i) && forall j :: i < j < |h| ==> !h[j].Succeeded? && !IsTrip(policy, h, j)
  }

  lemma PhaseStep(n: nat, m: nat)
    requires m >= 1
    ensures Phase(n + 1, m) == if Phase(n, m) + 1 == m then 0 else Phase(n, m) + 1
    ensures Phase(0, m) == 0 && Phase(n, m) < m
  {
    var q, r := n / m, n % m;
    assert n == q * m + r;
    if r + 1 == m {
      assert n + 1 == (q + 1) * m;
      PhaseOfMultiple(q + 1, m, 0);
    } else {
      PhaseOfMultiple(q, m, r + 1);
    }
  }

  lemma PhaseOfMultiple(q: nat, m: nat, r: nat)
    requires r < m
    ensures (q * m + r) % m == r
  {
    var x := q * m + r;
    var d := x / m - q;
    assert x == (x / m) * m + x % m;
    assert d * m == r - x % m;
    MulGap(d, m);
  }

  lemma MulGap(d: int, m: nat)
    ensures (d >= 1 ==> d * m >= m) && (d <= -1 ==> d * m <= -1 * m)
  {}

  /** The counter is the number of failures since the last success or trip. */
  lemma {:induction false} CounterRefinesHistory(policy: Policy, h: seq<Event>)
    ensures After(policy, h).failures == Phase(TrailingFailures(h), Period(policy))
    ensures After(policy, h).failures < Period(policy)
  {
    hide Phase;
    PhaseStep(TrailingFailures(h), Period(policy));
    if h != [] {
      var init := h[..|h| - 1];
      CounterRefinesHistory(policy, init);
      PhaseStep(TrailingFailures(init), Period(policy));
    }
  }

  lemma FailureTrips(policy: Policy, c: Cells, n: nat, at: U64)
    requires c.failures == Phase(n, Period(policy))
    ensures
      var c' := Next(policy, c, Failed(at));
      c'.openUntil == if Phase(n + 1, Period(policy)) == 0 then Deadline(policy, at) else c.openUntil
  {
    hide Phase, Deadline;
    PhaseStep(n, Period(policy));
  }

  lemma LastEventTrips(policy: Policy, h: seq<Event>)
    requires h != [] && h[|h| - 1].Failed?
    ensures
      After(policy, h).openUntil
      == if IsTrip(policy, h, |h| - 1) then Deadline(policy, h[|h| - 1].at) else After(policy, h[..|h| - 1]).openUntil
  {
    hide Phase, Deadline, Period, Next;
    var init := h[..|h| - 1];
    CounterRefinesHistory(policy, init);
    FailureTrips(policy, After(policy, init), TrailingFailures(init), h[|h| - 1].at);
    assert h[..|h|] == h;
  }

  lemma OpenedByNext(policy: Policy, h: seq<Event>, e: Event, i: nat)
    ensures
      var h' := h + [e];
      OpenedBy(policy, h', i) <==>
        (if e.Succeeded? then false else if IsTrip(policy, h', |h|) then i == |h| else OpenedBy(policy, h, i))
  {
    hide Phase, TrailingFailures;
    var h' := h + [e];
    forall j: nat | j < |h| ensures IsTrip(policy, h', j) <==> IsTrip(policy, h, j) {
      assert h'[..j + 1] == h[..j + 1];
    }
    assert h'[|h|] == e && forall j :: 0 <= j < |h| ==> h'[j] == h[j];
  }

  lemma {:induction false} DeadlineRefinesHistory(policy: Policy, h: seq<Event>, i: nat)
    ensures OpenedBy(policy, h, i) ==> After(policy, h).openUntil == Deadline(policy, h[i].at)
    ensures (forall j: nat :: !OpenedBy(policy, h, j)) ==> After(policy, h).openUntil == 0
    decreases |h|
  {
    hide Phase, TrailingFailures, Deadline;
    if h != [] {
      var init, e := h[..|h| - 1], h[|h| - 1];
      assert h == init + [e];
      DeadlineRefinesHistory(policy, init, i);
      forall j: nat ensures OpenedBy(policy, h, j) <==>
        (if e.Succeeded? then false else if IsTrip(policy, h, |init|) then j == |init| else OpenedBy(policy, init, j))
      {
        OpenedByNext(policy, init, e, j);
      }
      if e.Failed? {
        LastEventTrips(policy, h);
        assert IsTrip(policy, h, |init|) ==> OpenedBy(policy, h, |init|);
      }
    }
  }

  /** The breaker refines its call history: a request is denied exactly when the latest trip has no
      later success and its deadline is still ahead. No assumption on the order of clock readings. */
  lemma {:induction false} DeniedIffOpen(policy: Policy, h: seq<Event>, now: U64)
    ensures !Allows(After(policy, h), now)
        <==> exists i: nat :: OpenedBy(policy, h, i) && now < (h[i].at + policy.openMillis) % (U64_MAX + 1)
  {
    if i: nat :| OpenedBy(policy, h, i) {
      DeadlineRefinesHistory(policy, h, i);
      forall j: nat | OpenedBy(policy, h, j) ensures j == i {}
    } else {
      DeadlineRefinesHistory(policy, h, 0);
    }
  }

  /** A deadline means "open for the whole interval" exactly when the 64-bit sum does not wrap. */
  lemma {:induction false} DeadlineIsTrueUnlessItWraps(policy: Policy, at: U64)
    ensures (forall now: U64 :: Allows(Cells(0, Deadline(policy, at)), now) <==> now >= at + policy.openMillis)
            <==> at + policy.openMillis <= U64_MAX
  {
    if at + policy.openMillis > U64_MAX {
      var latest: U64 := U64_MAX;
      assert Allows(Cells(0, Deadline(policy, at)), latest);
    }
  }

  // ----- overlapping calls, one atomic access at a time

  /** Where a call in flight stands: before its next access to a shared cell. */
  datatype Pc = BeforeCount | BeforeOpening | BeforeReset | BeforeClearCount | BeforeClearDeadline

  datatype Shared = Shared(cells: Cells, calls: map<nat, Pc>)

  datatype Action = BeginFailure(call: nat) | BeginSuccess(call: nat) | Access(call: nat, now: U64)

  /** Calls that counted a tripping failure and have not yet reset the counter. */
  function Tripping(calls: map<nat, Pc>): set<nat> {
    set c | c in calls && (calls[c] == BeforeOpening || calls[c] == BeforeReset)
  }

  function Perform(policy: Policy, s: Shared, a: Action): Shared {
    match a
    case BeginFailure(c) => if c in s.calls then s else s.(calls := s.calls[c := BeforeCount])
    case BeginSuccess(c) => if c in s.calls then s else s.(calls := s.calls[c := BeforeClearCount])
    case Access(c, now) =>
      if c !in s.calls then s
      else
        match s.calls[c]
        case BeforeCount =>
          var failures := WrappingIncrement(s.cells.failures);
          Shared(s.cells.(failures := failures),
                 if failures >= policy.threshold then s.calls[c := BeforeOpening] else s.calls - {c})
        case BeforeOpening => Shared(s.cells.(openUntil := Deadline(policy, now)), s.calls[c := BeforeReset])
        case BeforeReset => Shared(s.cells.(failures := 0), s.calls - {c})
        case BeforeClearCount => Shared(s.cells.(failures := 0), s.calls[c := BeforeClearDeadline])
        case BeforeClearDeadline => Shared(s.cells.(openUntil := 0), s.calls - {c})
  }

  function PerformAll(policy: Policy, s: Shared, actions: seq<Action>): Shared {
    if actions == [] then s
    else Perform(policy, PerformAll(policy, s, actions[..|actions| - 1]), actions[|actions| - 1])
  }

  lemma AccessTripping(policy: Policy, s: Shared, a: Action)
    requires policy.threshold >= 1
    requires s.cells.failures <= policy.threshold - 1 + |Tripping(s.calls)|
    ensures
      var s' := Perform(policy, s, a);
      s'.cells.failures <= policy.threshold - 1 + |Tripping(s'.calls)|
  {
    var s' := Perform(policy, s, a);
    if a.Access? && a.call in s.calls {
      if s.calls[a.call] == BeforeCount && a.call in s'.calls {
        assert Tripping(s'.calls) == Tripping(s.calls) + {a.call};
      } else if s.calls[a.call] != BeforeReset {
        assert Tripping(s'.calls) == Tripping(s.calls);
      }
    } else {
      assert Tripping(s'.calls) == Tripping(s.calls);
    }
  }

  /** Under any interleaving of the atomic accesses of overlapping calls, the counter exceeds
      `threshold - 1` by at most the number of tripping calls that have not reset it yet. */
  lemma {:induction false} InterleavedCounterBound(policy: Policy, actions: seq<Action>)
    requires policy.threshold >= 1
    ensures
      var s := PerformAll(policy, Shared(CLOSED, map[]), actions);
      s.cells.failures <= policy.threshold - 1 + |Tripping(s.calls)|
  {
    if actions == [] {
      assert Tripping(map[]) == {};
    } else {
      var before := actions[..|actions| - 1];
      InterleavedCounterBound(policy, before);
      AccessTripping(policy, PerformAll(policy, Shared(CLOSED, map[]), before), actions[|actions| - 1]);
    }
  }
}
