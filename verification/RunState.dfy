/** The outer lifecycle of a message: `AgentLoop::transition` and the language it recognizes. */
module RunState {
  datatype RunState = Received | Validating | PreparingContext | Executing | Publishing | Completed | Degraded | Failed

  datatype Event =
    | StartValidation | ValidationPassed | ValidationFailed | ContextPrepared
    | ExecutionStarted | ExecutionFinished | Published | RecoverableError | FatalError

  function Transition(s: RunState, e: Event): RunState {
    match (s, e)
    case (Received, StartValidation) => Validating
    case (Validating, ValidationPassed) => PreparingContext
    case (Validating, ValidationFailed) => Failed
    case (PreparingContext, ContextPrepared) => Executing
    case (Executing, ExecutionStarted) => Executing
    case (Executing, ExecutionFinished) => Publishing
    case (Publishing, Published) => Completed
    case (_, RecoverableError) => Degraded
    case (_, FatalError) => Failed
    case (_, _) => s
  }

  function After(s: RunState, w: seq<Event>): RunState
    decreases |w|
  {
    if w == [] then s else After(Transition(s, w[0]), w[1..])
  }

  predicate IsError(e: Event) { e.RecoverableError? || e.FatalError? }

  predicate ErrorFree(w: seq<Event>) { forall i :: 0 <= i < |w| ==> !IsError(w[i]) }

  const HAPPY_PATH: seq<Event> := [StartValidation, ValidationPassed, ContextPrepared, ExecutionFinished, Published]

  /** `path` can be read off `w` by skipping events. */
  predicate IsSubsequence(path: seq<Event>, w: seq<Event>)
    decreases |w|
  {
    path == [] || (w != [] && ((w[0] == path[0] && IsSubsequence(path[1..], w[1..])) || IsSubsequence(path, w[1..])))
  }

  lemma {:induction false} ShorterPath(path: seq<Event>, w: seq<Event>)
    requires path != [] && IsSubsequence(path, w)
    ensures IsSubsequence(path[1..], w)
    decreases |w|
  {
    if w[0] == path[0] && IsSubsequence(path[1..], w[1..]) {
      if |path| > 1 {
        ShorterPath(path[1..], w[1..]);
      }
    } else {
      ShorterPath(path, w[1..]);
    }
  }

  /** Reading the head of the path as early as possible loses nothing. */
  lemma Greedy(path: seq<Event>, w: seq<Event>)
    requires path != [] && w != []
    ensures IsSubsequence(path, w) <==> IsSubsequence(if w[0] == path[0] then path[1..] else path, w[1..])
  {
    if w[0] == path[0] && IsSubsequence(path, w[1..]) {
      ShorterPath(path, w[1..]);
    }
  }

  /** Validation fails before it passes. */
  predicate FailsFirst(w: seq<Event>) {
    w != [] && !w[0].ValidationPassed? && (w[0].ValidationFailed? || FailsFirst(w[1..]))
  }

  /** Validation starts and its first verdict is a failure. */
  predicate Rejected(w: seq<Event>) {
    w != [] && if w[0].StartValidation? then FailsFirst(w[1..]) else Rejected(w[1..])
  }

  function Stage(i: nat): RunState
    requires i <= 5
  {
    [Received, Validating, PreparingContext, Executing, Publishing, Completed][i]
  }

  lemma {:induction false} FromStage(i: nat, w: seq<Event>)
    requires 2 <= i <= 5 && ErrorFree(w)
    ensures After(Stage(i), w) == Completed <==> IsSubsequence(HAPPY_PATH[i..], w)
    decreases |w|
  {
    if w != [] {
      var next := if i < 5 && w[0] == HAPPY_PATH[i] then i + 1 else i;
      assert !IsError(w[0]);
      assert Transition(Stage(i), w[0]) == Stage(next);
      FromStage(next, w[1..]);
      if i < 5 {
        assert HAPPY_PATH[i..][1..] == HAPPY_PATH[i + 1..];
        Greedy(HAPPY_PATH[i..], w);
      }
    }
  }

  lemma {:induction false} FromValidating(w: seq<Event>)
    requires ErrorFree(w)
    ensures After(Validating, w) == Completed <==> IsSubsequence(HAPPY_PATH[1..], w) && !FailsFirst(w)
  {
    if w != [] {
      assert !IsError(w[0]);
      assert HAPPY_PATH[1..][1..] == HAPPY_PATH[2..];
      FromValidating(w[1..]);
      FromStage(2, w[1..]);
      ErrorStateStays(Failed, w[1..]);
      Greedy(HAPPY_PATH[1..], w);
    }
  }

  lemma {:induction false} FromReceived(w: seq<Event>)
    requires ErrorFree(w)
    ensures After(Received, w) == Completed <==> IsSubsequence(HAPPY_PATH, w) && !Rejected(w)
  {
    if w != [] {
      assert !IsError(w[0]);
      FromReceived(w[1..]);
      Greedy(HAPPY_PATH, w);
      FromValidating(w[1..]);
    }
  }

  /** The last error event, if any. */
  predicate LastErrorIs(w: seq<Event>, i: nat) {
    i < |w| && IsError(w[i]) && ErrorFree(w[i + 1..])
  }

  lemma {:induction false} SplitAfter(s: RunState, u: seq<Event>, v: seq<Event>)
    ensures After(s, u + v) == After(After(s, u), v)
    decreases |u|
  {
    if u == [] {
      assert u + v == v;
    } else {
      assert (u + v)[1..] == u[1..] + v;
      SplitAfter(Transition(s, u[0]), u[1..], v);
    }
  }

  lemma {:induction false} ErrorStateStays(s: RunState, w: seq<Event>)
    requires ErrorFree(w) && (s == Degraded || s == Failed)
    ensures After(s, w) == s
  {
    if w != [] {
      assert !IsError(w[0]);
      ErrorStateStays(s, w[1..]);
    }
  }

  /** After an error the state is never anything but the one named by the last error event. */
  lemma {:induction false} ErrorsAreForever(s: RunState, w: seq<Event>, i: nat)
    requires LastErrorIs(w, i)
    ensures After(s, w) == if w[i].FatalError? then Failed else Degraded
  {
    assert w == w[..i] + ([w[i]] + w[i + 1..]);
    SplitAfter(s, w[..i], [w[i]] + w[i + 1..]);
    assert ([w[i]] + w[i + 1..])[1..] == w[i + 1..];
    ErrorStateStays(if w[i].FatalError? then Failed else Degraded, w[i + 1..]);
  }

  lemma {:induction false} FindLastError(w: seq<Event>) returns (i: nat)
    requires !ErrorFree(w)
    ensures LastErrorIs(w, i)
  {
    var last := |w| - 1;
    if IsError(w[last]) {
      i := last;
    } else {
      var init := w[..last];
      assert !ErrorFree(init);
      i := FindLastError(init);
      assert forall j :: i < j < last ==> init[i + 1..][j - (i + 1)] == w[j];
    }
  }

  lemma {:induction false} LaterStagesStay(i: nat, w: seq<Event>)
    requires 2 <= i <= 5 && ErrorFree(w)
    ensures After(Stage(i), w) != Failed && After(Stage(i), w) != Degraded
    decreases |w|
  {
    if w != [] {
      var next := if i < 5 && w[0] == HAPPY_PATH[i] then i + 1 else i;
      assert !IsError(w[0]);
      assert Transition(Stage(i), w[0]) == Stage(next);
      LaterStagesStay(next, w[1..]);
    }
  }

  lemma {:induction false} ValidationDecides(w: seq<Event>)
    requires ErrorFree(w)
    ensures (After(Validating, w) == Failed <==> FailsFirst(w)) && After(Validating, w) != Degraded
  {
    if w != [] {
      assert !IsError(w[0]);
      ValidationDecides(w[1..]);
      LaterStagesStay(2, w[1..]);
      ErrorStateStays(Failed, w[1..]);
    }
  }

  /** Without an error event a run fails exactly when validation rejects the message, and never degrades. */
  lemma {:induction false} FailedLanguage(w: seq<Event>)
    requires ErrorFree(w)
    ensures (After(Received, w) == Failed <==> Rejected(w)) && After(Received, w) != Degraded
  {
    if w != [] {
      assert !IsError(w[0]);
      FailedLanguage(w[1..]);
      ValidationDecides(w[1..]);
    }
  }

  /** The language of completed runs: a message completes exactly when no error ever occurred, the
      five steps of the happy path occurred in order, and validation did not fail first. */
  lemma {:induction false} CompletedLanguage(w: seq<Event>)
    ensures After(Received, w) == Completed <==> ErrorFree(w) && IsSubsequence(HAPPY_PATH, w) && !Rejected(w)
  {
    if ErrorFree(w) {
      FromReceived(w);
    } else {
      var i := FindLastError(w);
      ErrorsAreForever(Received, w, i);
    }
  }
}
