/** Pending callbacks of the event loop: each runs once, in the order they were asked for. */
module EventLoopPending {
  import opened EventLoop
  import opened EventLoopRuns

  /** The queue from its back to its front, which is the order of asking. */
  function Waiting(queue: seq<int>): seq<int> {
    if queue == [] then [] else Waiting(queue[1..]) + [queue[0]]
  }

  lemma AskedLast(queue: seq<int>, callback: int)
    ensures Waiting([callback] + queue) == Waiting(queue) + [callback]
  {
    assert ([callback] + queue)[1..] == queue;
  }

  lemma {:induction false} BackIsFirst(queue: seq<int>)
    requires queue != []
    ensures Waiting(queue) == [queue[|queue| - 1]] + Waiting(queue[..|queue| - 1])
  {
    if |queue| > 1 {
      BackIsFirst(queue[1..]);
      assert queue[1..][..|queue| - 2] == queue[..|queue| - 1][1..];
    }
  }

  /** The callback that the step completes, if any. */
  function Completed(s: State, step: Step): seq<int> {
    if step.Return? && s.pc.InPendingCallback? && s.pending != [] then [s.pending[|s.pending| - 1]] else []
  }

  function Asked(step: Step): seq<int> {
    if step.Pend? then [step.callback] else []
  }

  lemma PendingUntouched(s: State)
    requires CanProceed(s) && BeforeSync(s.pc)
    ensures EventStep(s).pending == s.pending
  {
  }

  lemma PendingStep(s: State, step: Step)
    requires Enabled(s, step)
    ensures Completed(s, step) + Waiting(Apply(s, step).pending) == Waiting(s.pending) + Asked(step)
  {
    hide Succeeds, Operated, Queued, Subscribed, Unsubscribed, Level, EventStep, Waiting;
    if step.Proceed? && BeforeSync(s.pc) {
      PendingUntouched(s);
    } else if step.Pend? {
      AskedLast(s.pending, step.callback);
    } else if step.Return? && s.pc.InPendingCallback? {
      BackIsFirst(s.pending);
    } else {
      assert Apply(s, step).pending == s.pending;
    }
  }

  /** Callbacks completed in a run, in order. */
  ghost function AllCompleted(s: State, steps: seq<Step>): seq<int>
    requires CanRun(s, steps)
    decreases |steps|
  {
    if steps == [] then [] else Completed(s, steps[0]) + AllCompleted(Apply(s, steps[0]), steps[1..])
  }

  /** Callbacks asked for in a run, in order. */
  function AllAsked(steps: seq<Step>): seq<int> {
    if steps == [] then [] else Asked(steps[0]) + AllAsked(steps[1..])
  }

  lemma Chained(done: seq<int>, middle: seq<int>, before: seq<int>, asked: seq<int>, laterDone: seq<int>, end: seq<int>, laterAsked: seq<int>)
    requires done + middle == before + asked && laterDone + end == middle + laterAsked
    ensures done + laterDone + end == before + (asked + laterAsked)
  {
    assert done + laterDone + end == done + (laterDone + end);
    assert done + (middle + laterAsked) == done + middle + laterAsked;
    assert before + asked + laterAsked == before + (asked + laterAsked);
  }

  lemma {:induction false} PendingConserved(s: State, steps: seq<Step>)
    requires CanRun(s, steps)
    ensures AllCompleted(s, steps) + Waiting(After(s, steps).pending) == Waiting(s.pending) + AllAsked(steps)
    decreases |steps|
  {
    if steps != [] {
      var s', rest := Apply(s, steps[0]), steps[1..];
      PendingStep(s, steps[0]);
      PendingConserved(s', rest);
      Chained(Completed(s, steps[0]), Waiting(s'.pending), Waiting(s.pending), Asked(steps[0]),
              AllCompleted(s', rest), Waiting(After(s', rest).pending), AllAsked(rest));
    }
  }

  /** From allocation on, what was completed and what still waits is exactly what was asked for, in that order. */
  lemma EachCallbackOnceInOrder(start: State, steps: seq<Step>)
    requires Init(start) && CanRun(start, steps)
    ensures AllCompleted(start, steps) + Waiting(After(start, steps).pending) == AllAsked(steps)
  {
    PendingConserved(start, steps);
  }

  /** While a pending callback runs, whatever it asks for, the entry to be removed stays its own. */
  lemma RunningCallbackKeepsItsEntry(s: State, step: Step)
    requires s.pc.InPendingCallback? && s.pending != [] && Enabled(s, step) && !step.Return?
    ensures var s' := Apply(s, step);
            && s'.pc.InPendingCallback? && s'.pending != []
            && s'.pending[|s'.pending| - 1] == s.pending[|s.pending| - 1]
  {
  }
}
