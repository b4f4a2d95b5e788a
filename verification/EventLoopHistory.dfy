/**
 What the steps of a run alone say about the state it leads to: which item an object is subscribed with and how,
 what its queue or semaphore holds, and when the loop stops.
 */
module EventLoopHistory {
  import opened Sequences
  import opened Ticks
  import opened Timers
  import opened EventLoop
  import opened EventLoopSafety
  import opened EventLoopRuns

  // --- Subscriptions -----------------------------------------------------------------------------

  /** How an object is subscribed: by which item, in which direction, edge- or level-triggered. */
  datatype Standing = Nobody | By(id: int, direction: Direction, edge: bool)

  function NextStanding(x: Standing, step: Step, o: int): Standing {
    match step
    case Subscribe(i, p, d, edge) => if p == o then By(i, d, edge) else x
    case Unsubscribe(p) => if p == o then Nobody else x
    case _ => x
  }

  /** The last subscription of the object in the steps that is not followed by its end; `x` is the one before. */
  function StandingAfter(x: Standing, steps: seq<Step>, o: int): Standing
    decreases |steps|
  {
    if steps == [] then x else StandingAfter(NextStanding(x, steps[0], o), steps[1..], o)
  }

  function LastSubscription(steps: seq<Step>, o: int): Standing {
    StandingAfter(Nobody, steps, o)
  }

  /** The tree's item for the object is live and has what the subscription asked for. */
  predicate Stands(s: State, o: int, x: Standing) {
    match x
    case Nobody => o !in s.reactor.tree
    case By(i, d, edge) =>
      && o in s.reactor.tree && s.reactor.tree[o] == i && i in s.reactor.items
      && s.reactor.items[i] == Item(o, d, edge, true)
  }

  lemma StandsAfterUnsubscribe(s: State, p: int, o: int, x: Standing)
    requires Safe(s) && Enabled(s, Unsubscribe(p)) && Stands(s, o, x)
    ensures Stands(Apply(s, Unsubscribe(p)), o, NextStanding(x, Unsubscribe(p), o))
  {
    assert TreeEntry(s.reactor, p);
    assert o in s.reactor.tree ==> TreeEntry(s.reactor, o);
  }

  lemma StandsAfterSubscribe(s: State, j: int, p: int, d: Direction, edge: bool, o: int, x: Standing)
    requires Enabled(s, Subscribe(j, p, d, edge)) && Stands(s, o, x)
    ensures Stands(Apply(s, Subscribe(j, p, d, edge)), o, NextStanding(x, Subscribe(j, p, d, edge), o))
  {
  }

  lemma StandsAfterNotify(s: State, p: int, d: Direction, o: int, x: Standing)
    requires Enabled(s, Notify(p, d)) && Stands(s, o, x)
    ensures Stands(Apply(s, Notify(p, d)), o, x)
  {
  }

  lemma StandsAfterEventStep(s: State, o: int, x: Standing)
    requires Safe(s) && CanProceed(s) && BeforeSync(s.pc) && Stands(s, o, x)
    ensures Stands(EventStep(s), o, x)
  {
    hide Lifetime, Level;
  }

  lemma StandsStep(s: State, step: Step, o: int, x: Standing)
    requires Safe(s) && Enabled(s, step) && Stands(s, o, x)
    ensures Stands(Apply(s, step), o, NextStanding(x, step, o))
  {
    hide Safe, Subscribed, Unsubscribed, Queued, EventStep, Succeeds, Operated, Level, Consistent, Listed, NoWrap;
    if LeavesReactor(s, step) {
      ReactorKept(s, step);
      return;
    }
    match step
    case Notify(p, d) => StandsAfterNotify(s, p, d, o, x);
    case Subscribe(j, p, d, edge) => StandsAfterSubscribe(s, j, p, d, edge, o, x);
    case Unsubscribe(p) => StandsAfterUnsubscribe(s, p, o, x);
    case Proceed => StandsAfterEventStep(s, o, x);
    case _ =>
  }

  lemma {:induction false} StandsThrough(s: State, steps: seq<Step>, o: int, x: Standing)
    requires LoopInvariant(s) && CanRun(s, steps) && Stands(s, o, x)
    ensures LoopInvariant(After(s, steps)) && Stands(After(s, steps), o, StandingAfter(x, steps, o))
    decreases |steps|
  {
    hide Enabled, Apply, Stands, NextStanding, Safe, NoLostLevel, TimersKept, ExpiryKept, BitsKept;
    if steps != [] {
      InvariantStep(s, steps[0]);
      StandsStep(s, steps[0], o, x);
      StandsThrough(Apply(s, steps[0]), steps[1..], o, NextStanding(x, steps[0], o));
    }
  }

  /** In every run from allocation on, an object's item, direction and trigger kind are those of its last subscription. */
  lemma SubscriptionsFromHistory(start: State, steps: seq<Step>, o: int)
    requires Init(start) && CanRun(start, steps)
    ensures LoopInvariant(After(start, steps)) && Stands(After(start, steps), o, LastSubscription(steps, o))
  {
    InitInvariant(start);
    hide LoopInvariant;
    StandsThrough(start, steps, o, Nobody);
  }

  /**
   From allocation on: if the last subscription of an object is level-triggered and its level is high, the
   item is queued, in hand, or some thread still owes the notification.
   */
  lemma NoLevelEventIsLost(start: State, steps: seq<Step>, o: int)
    requires Init(start) && CanRun(start, steps)
    ensures var s, x := After(start, steps), LastSubscription(steps, o);
            x.By? && !x.edge ==>
              && o in s.sources
              && (Level(s.sources[o], x.direction) ==>
                    x.id in s.reactor.waiting || Covers(s.pc, x.id) || (o, x.direction) in s.owed)
  {
    SubscriptionsFromHistory(start, steps, o);
    assert o in After(start, steps).reactor.tree ==> Pursued(After(start, steps), o);
  }

  /** When the loop is about to wait and no thread owes a notification, no level subscription has a high level. */
  lemma QuietMeansServed(start: State, steps: seq<Step>, o: int)
    requires Init(start) && CanRun(start, steps)
    requires After(start, steps).pc.Top? && After(start, steps).owed == multiset{} && After(start, steps).flags == {}
    ensures var s, x := After(start, steps), LastSubscription(steps, o);
            x.By? && !x.edge ==> o in s.sources && !Level(s.sources[o], x.direction)
  {
    NoLevelEventIsLost(start, steps, o);
    SubscriptionsFromHistory(start, steps, o);
  }

  // --- Queues and semaphores ---------------------------------------------------------------------------

  /** The messages put since the last reset, after those there before. */
  function Offered(m: seq<int>, steps: seq<Step>, o: int): seq<int>
    decreases |steps|
  {
    if steps == [] then m
    else if steps[0].Operate? && steps[0].obj == o && steps[0].operation.Put? then
      Offered(m + [steps[0].operation.message], steps[1..], o)
    else if steps[0] == Operate(o, Reset) then Offered([], steps[1..], o)
    else Offered(m, steps[1..], o)
  }

  /** How many were got since then. */
  function Taken(n: nat, steps: seq<Step>, o: int): nat
    decreases |steps|
  {
    if steps == [] then n
    else Taken(if steps[0] == Operate(o, Get) then n + 1 else if steps[0] == Operate(o, Reset) then 0 else n, steps[1..], o)
  }

  function Count(steps: seq<Step>, step: Step): nat
    decreases |steps|
  {
    if steps == [] then 0 else (if steps[0] == step then 1 else 0) + Count(steps[1..], step)
  }

  lemma SourceKept(s: State, step: Step, o: int)
    requires Enabled(s, step) && o in s.sources
    ensures o in Apply(s, step).sources
    ensures Apply(s, step).sources[o] ==
            if step.Operate? && step.obj == o then Operated(s.sources[o], step.operation) else s.sources[o]
  {
    hide Operated, Succeeds, Level, DrainOne, Fire, Order, Allocate, Queued, Subscribed, Unsubscribed, NoWrap;
  }

  /** The messages held are those offered without those taken: the queue hands them out in the order they were put. */
  lemma {:induction false} QueueIsFifo(s: State, steps: seq<Step>, o: int, m: seq<int>, n: nat)
    requires CanRun(s, steps) && o in s.sources && s.sources[o].MessageQueue?
    requires n <= |m| && s.sources[o].messages == m[n..]
    ensures var q, all, got := After(s, steps).sources, Offered(m, steps, o), Taken(n, steps, o);
            && o in q && got <= |all| && q[o] == MessageQueue(all[got..], s.sources[o].capacity)
            && (forall x {:trigger Put(x)} :: Enabled(After(s, steps), Operate(o, Put(x))) <==> |all| - got < s.sources[o].capacity)
            && (Enabled(After(s, steps), Operate(o, Get)) <==> got < |all|)
            && Enabled(After(s, steps), Operate(o, Reset))
    decreases |steps|
  {
    if steps != [] {
      var step := steps[0];
      SourceKept(s, step, o);
      assert Enabled(s, step);
      hide Enabled, Apply;
      if step.Operate? && step.obj == o {
        assert step.operation.Put? || step == Operate(o, Get) || step == Operate(o, Reset);
        assert step.operation.Put? ==> (m + [step.operation.message])[n..] == m[n..] + [step.operation.message];
      }
      var m' := if step.Operate? && step.obj == o && step.operation.Put? then m + [step.operation.message]
                else if step == Operate(o, Reset) then [] else m;
      var n' := if step == Operate(o, Get) then n + 1 else if step == Operate(o, Reset) then 0 else n;
      QueueIsFifo(Apply(s, step), steps[1..], o, m', n');
    }
  }

  /** A semaphore's count is what it was and the units released, without the units acquired. */
  lemma {:induction false} SemaphoreAccounts(s: State, steps: seq<Step>, o: int)
    requires CanRun(s, steps) && o in s.sources && s.sources[o].Semaphore?
    ensures var c := s.sources[o].count + Count(steps, Operate(o, Release)) - Count(steps, Operate(o, Acquire));
            && c >= 0 && o in After(s, steps).sources && After(s, steps).sources[o] == Semaphore(c, s.sources[o].maxCount)
            && (Enabled(After(s, steps), Operate(o, Release)) <==> c < s.sources[o].maxCount)
            && (Enabled(After(s, steps), Operate(o, Acquire)) <==> c > 0)
    decreases |steps|
  {
    if steps != [] {
      SourceKept(s, steps[0], o);
      assert Enabled(s, steps[0]);
      if steps[0].Operate? && steps[0].obj == o {
        assert steps[0] == Operate(o, Release) || steps[0] == Operate(o, Acquire);
      }
      hide Enabled, Apply;
      SemaphoreAccounts(Apply(s, steps[0]), steps[1..], o);
    }
  }

  /** The notifications that operations of the run on `o` call for in direction `d`, less those made. */
  function OwedBy(steps: seq<Step>, o: int, d: Direction): int
    decreases |steps|
  {
    if steps == [] then 0
    else
      (if steps[0].Operate? && steps[0].obj == o && Notifies(steps[0].operation) == d then 1
       else if steps[0] == Notify(o, d) then -1 else 0) + OwedBy(steps[1..], o, d)
  }

  lemma OwedKept(s: State, step: Step)
    requires Enabled(s, step) && !step.Operate? && !step.Notify?
    ensures Apply(s, step).owed == s.owed
  {
    hide Level, DrainOne, Fire, Order, Allocate, Queued, Subscribed, Unsubscribed, NoWrap, Due, TickDue, Consistent, Listed;
  }

  lemma OwedMoved(s: State, p: int, op: Operation, e: Direction)
    ensures Enabled(s, Operate(p, op)) ==> Apply(s, Operate(p, op)).owed == s.owed + multiset{(p, Notifies(op))}
    ensures Enabled(s, Notify(p, e)) ==> (p, e) in s.owed && Apply(s, Notify(p, e)).owed == s.owed - multiset{(p, e)}
  {
    hide Operated, Succeeds, Queued;
  }

  lemma OneOwed(owed: multiset<(int, Direction)>, x: (int, Direction), y: (int, Direction))
    ensures (owed + multiset{x})[y] == owed[y] + if x == y then 1 else 0
    ensures x in owed ==> (owed - multiset{x})[y] == owed[y] - if x == y then 1 else 0
  {
  }

  lemma OwedThroughStep(s: State, step: Step, o: int, d: Direction)
    requires Enabled(s, step)
    ensures Apply(s, step).owed[(o, d)] == s.owed[(o, d)] + OwedBy([step], o, d)
  {
    hide Enabled, Apply, Notifies;
    assert [step][1..] == [];
    match step
    case Operate(p, op) =>
      OwedMoved(s, p, op, d);
      OneOwed(s.owed, (p, Notifies(op)), (o, d));
    case Notify(p, e) =>
      OwedMoved(s, p, Get, e);
      OneOwed(s.owed, (p, e), (o, d));
    case _ => OwedKept(s, step);
  }

  /** Each operation owes one notification in its direction, which is made once. */
  lemma {:induction false} NotificationsAccount(s: State, steps: seq<Step>, o: int, d: Direction)
    requires CanRun(s, steps)
    ensures After(s, steps).owed[(o, d)] == s.owed[(o, d)] + OwedBy(steps, o, d)
    decreases |steps|
  {
    hide Enabled, Apply, Notifies;
    if steps != [] {
      OwedThroughStep(s, steps[0], o, d);
      assert [steps[0]][1..] == [];
      NotificationsAccount(Apply(s, steps[0]), steps[1..], o, d);
    }
  }

  // --- Bits are set for a reason ------------------------------------------------------------------------

  /** The Timer bit means a request, the Event bit is never among those to restore, and an item put back waits. */
  ghost predicate BitsMeant(s: State) {
    && (TimerFlag in s.flags || TimerFlag in Rest(s.pc) ==> s.timers.queue != [] && !s.pc.DrainTimers? && !s.pc.Draining?)
    && Event !in Rest(s.pc)
    && (s.pc.Renotify? ==> s.reactor.waiting != [])
  }

  lemma MeantByEventStep(s: State)
    requires CanProceed(s) && BeforeSync(s.pc) && BitsMeant(s)
    ensures BitsMeant(EventStep(s))
    ensures Event !in s.flags && Event in EventStep(s).flags ==> EventStep(s).reactor.waiting != []
  {
  }

  lemma MeantByOtherStep(s: State)
    requires CanProceed(s) && !BeforeSync(s.pc) && BitsMeant(s)
    ensures BitsMeant(OtherStep(s)) && (Event in OtherStep(s).flags ==> Event in s.flags)
  {
    hide DrainOne, Listed, Consistent, Due;
  }

  lemma OrderQueues(ts: Timers, id: int, c: Command)
    requires id in ts.table
    ensures Order(ts, id, c).queue != []
  {
  }

  lemma MeantByReactorStep(s: State, step: Step)
    requires Enabled(s, step) && BitsMeant(s) && (step.Notify? || step.Subscribe? || step.Unsubscribe?)
    ensures BitsMeant(Apply(s, step))
    ensures Event !in s.flags && Event in Apply(s, step).flags ==> Apply(s, step).reactor.waiting != []
  {
    hide Level, Unlink;
  }

  lemma MeantByBranch(s: State, step: Step)
    requires Enabled(s, step) && BitsMeant(s) && (step.Wait? || step.TimeOut? || step.Return?)
    ensures BitsMeant(Apply(s, step)) && (Event in Apply(s, step).flags ==> Event in s.flags)
  {
  }

  lemma BitsMeantStep(s: State, step: Step)
    requires Enabled(s, step) && BitsMeant(s)
    ensures BitsMeant(Apply(s, step))
    ensures Event !in s.flags && Event in Apply(s, step).flags ==> Apply(s, step).reactor.waiting != []
  {
    hide Succeeds, Operated, Level, NoWrap, Listed, Consistent, Unlink, CommandAllowed, EventStep, OtherStep, Order;
    hide Subscribed, Unsubscribed, Queued, Branch;
    match step
    case Proceed =>
      if BeforeSync(s.pc) {
        MeantByEventStep(s);
      } else {
        MeantByOtherStep(s);
      }
    case OrderTimer(id, c) => OrderQueues(s.timers, id, c);
    case Notify(_, _) => MeantByReactorStep(s, step);
    case Subscribe(_, _, _, _) => MeantByReactorStep(s, step);
    case Unsubscribe(_) => MeantByReactorStep(s, step);
    case Return => MeantByBranch(s, step);
    case Wait => MeantByBranch(s, step);
    case TimeOut => MeantByBranch(s, step);
    case _ =>
  }

  lemma {:induction false} BitsMeantThrough(s: State, steps: seq<Step>)
    requires CanRun(s, steps) && BitsMeant(s)
    ensures BitsMeant(After(s, steps))
    decreases |steps|
  {
    hide Enabled, Apply, BitsMeant;
    if steps != [] {
      BitsMeantStep(s, steps[0]);
      BitsMeantThrough(Apply(s, steps[0]), steps[1..]);
    }
  }

  /** In every run: at the top of the loop the Timer bit is set exactly if a request waits. */
  lemma TimerBitIffRequests(start: State, steps: seq<Step>)
    requires Init(start) && CanRun(start, steps) && After(start, steps).pc.Top?
    ensures TimerFlag in After(start, steps).flags <==> After(start, steps).timers.queue != []
  {
    QueuedWorkHasItsBit(start, steps);
    BitsMeantThrough(start, steps);
  }

  /** In every run: whenever the Event bit goes up, some item waits. */
  lemma EventBitMeansWork(start: State, steps: seq<Step>, step: Step)
    requires Init(start) && CanRun(start, steps) && Enabled(After(start, steps), step)
    requires Event !in After(start, steps).flags && Event in Apply(After(start, steps), step).flags
    ensures Apply(After(start, steps), step).reactor.waiting != []
  {
    BitsMeantThrough(start, steps);
    hide Enabled, Apply, BitsMeant;
    BitsMeantStep(After(start, steps), step);
  }

  // --- Stopping -------------------------------------------------------------------------------------------

  lemma StopStays(s: State, step: Step)
    requires Enabled(s, step)
    ensures s.pc.Stopped? ==> Apply(s, step).pc.Stopped? && !BeginsIteration(step)
    ensures StopFlag in s.flags && !BeginsIteration(step) ==> StopFlag in Apply(s, step).flags
    ensures StopFlag in s.flags && BeginsIteration(step) ==> Apply(s, step).pc.Stopped?
  {
    hide Operated, Succeeds, Level, DrainOne, Fire, Order, Allocate, Queued, Subscribed, Unsubscribed, NoWrap, Due, TickDue, Listed;
    hide Consistent, ProcessTick, CommandAllowed;
  }

  /** Once a stop has been requested, the loop begins one more iteration at most, and that one stops it. */
  lemma {:induction false} StopIsPrompt(s: State, steps: seq<Step>)
    requires CanRun(s, steps) && (StopFlag in s.flags || s.pc.Stopped?)
    ensures Iterations(steps) <= if s.pc.Stopped? then 0 else 1
    ensures s.pc.Stopped? || Iterations(steps) == 1 ==> After(s, steps).pc.Stopped?
    decreases |steps|
  {
    hide Enabled, Apply, BeginsIteration;
    if steps != [] {
      StopStays(s, steps[0]);
      StopIsPrompt(Apply(s, steps[0]), steps[1..]);
    }
  }
}
