/** Notification bits, timers and fairness over whole runs of the event loop. */
module EventLoopRuns {
  import opened Sequences
  import opened Ticks
  import opened Timers
  import opened EventLoop
  import opened EventLoopSafety

  // --- Notification bits -----------------------------------------------------------------------

  /** Work that is queued has its bit set, or the loop is on its way to doing it or to restoring the bit. */
  ghost predicate BitsKept(s: State) {
    && (s.reactor.waiting != [] ==> Event in s.flags || BeforeSync(s.pc))
    && (s.timers.queue != [] ==> TimerFlag in s.flags || TimerFlag in Rest(s.pc) || s.pc.DrainTimers? || s.pc.Draining?)
    && (s.pc.Draining? ==> s.timers.queue != [])
    && (s.pending != [] ==> Pending in s.flags || Pending in Rest(s.pc) || s.pc.RunPending? || s.pc.InPendingCallback?)
    && (s.pc.TimedOut? || s.pc.Firing? || s.pc.Moving? || s.pc.TickCheck? ==> s.timers.queue == [])
    && (s.pc.InPendingCallback? ==> s.pending != [])
  }

  lemma BitsKeptByOthers(s: State, step: Step)
    requires BitsKept(s) && Enabled(s, step) && !step.Proceed? && !step.Wait? && !step.Return?
    ensures BitsKept(Apply(s, step))
  {
    hide Order, CommandAllowed, Succeeds, Operated, Level, Listed, NoWrap, EventStep, OtherStep, CanProceed;
    if step.Unsubscribe? && s.reactor.waiting == [] {
      assert Unlink(s.reactor.waiting, s.reactor.tree[step.obj]) == [];
    }
  }

  lemma BitsKeptByEventStep(s: State)
    requires BitsKept(s) && CanProceed(s) && BeforeSync(s.pc)
    ensures BitsKept(EventStep(s))
  {
  }

  lemma BitsKeptByOtherStep(s: State)
    requires BitsKept(s) && CanProceed(s) && !BeforeSync(s.pc)
    ensures BitsKept(OtherStep(s))
  {
  }

  lemma BitsKeptByReturn(s: State)
    requires BitsKept(s) && Enabled(s, Return)
    ensures BitsKept(AfterReturn(s))
  {
  }

  lemma BitsKeptByWait(s: State)
    requires BitsKept(s) && s.pc.Top? && StopFlag !in s.flags
    ensures BitsKept(s.(flags := {}, pc := Branch(s.flags)))
  {
  }

  lemma BitsKeptByLoop(s: State, step: Step)
    requires BitsKept(s) && Enabled(s, step) && (step.Proceed? || step.Wait? || step.Return?)
    requires !Apply(s, step).pc.Stopped?
    ensures BitsKept(Apply(s, step))
  {
    if step.Wait? {
      BitsKeptByWait(s);
    } else if step.Return? {
      BitsKeptByReturn(s);
    } else if BeforeSync(s.pc) {
      BitsKeptByEventStep(s);
    } else {
      BitsKeptByOtherStep(s);
    }
  }

  // --- Timers --------------------------------------------------------------------------------

  ghost predicate PeriodPositive(ts: Timers, id: int)
    requires id in ts.table
  {
    var t := ts.table[id];
    t.periodic ==> (t.active ==> t.interval > 0) && (t.request == Start ==> t.nextInterval > 0)
  }

  ghost predicate TimersKept(ts: Timers, now: Word) {
    && Consistent(ts) && Sorted(ts, now)
    && forall id {:trigger PeriodPositive(ts, id)} :: id in ts.table ==> PeriodPositive(ts, id)
  }

  lemma AllocateKept(ts: Timers, id: int, periodic: bool, now: Word)
    requires TimersKept(ts, now) && id !in ts.table
    ensures TimersKept(Allocate(ts, id, periodic), now)
  {
    var ts' := Allocate(ts, id, periodic);
    AllocateConsistent(ts, id, periodic);
    SameTimesSorted(ts, ts', now);
    forall j | j in ts'.table ensures PeriodPositive(ts', j) { assert j in ts.table ==> PeriodPositive(ts, j); }
  }

  lemma OrderKept(ts: Timers, id: int, c: Command, now: Word)
    requires TimersKept(ts, now) && id in ts.table && CommandAllowed(ts.table[id], c)
    ensures TimersKept(Order(ts, id, c), now)
  {
    var ts' := Order(ts, id, c);
    OrderConsistent(ts, id, c);
    SameTimesSorted(ts, ts', now);
    forall j | j in ts'.table ensures PeriodPositive(ts', j) { assert PeriodPositive(ts, j); }
  }

  lemma DrainKept(ts: Timers, t: Word, now: Word)
    requires TimersKept(ts, now) && ts.queue != []
    ensures TimersKept(DrainOne(ts, t, now), now)
  {
    var ts' := DrainOne(ts, t, now);
    DrainOneConsistent(ts, t, now);
    DrainOneSorted(ts, t, now);
    DrainUnlinks(ts);
    forall j | j in ts'.table ensures PeriodPositive(ts', j) {
      assert PeriodPositive(ts, j) && PeriodPositive(ts, ts.queue[0]);
    }
  }

  lemma FrontPeriodPositive(ts: Timers, now: Word)
    requires TimersKept(ts, now) && ts.list != []
    ensures ts.list[0] in ts.table && ts.table[ts.list[0]].active
    ensures ts.table[ts.list[0]].periodic ==> ts.table[ts.list[0]].interval > 0
  {
    assert ts.list[0] in Elements(ts.list);
    assert PeriodPositive(ts, ts.list[0]);
  }

  lemma FireKept(ts: Timers, t: Word, now: Word)
    requires TimersKept(ts, now) && ts.list != []
    requires ts.table[ts.list[0]].periodic ==> ts.table[ts.list[0]].interval > 0
    ensures TimersKept(Fire(ts, t, now), now)
  {
    var ts' := Fire(ts, t, now);
    FireConsistent(ts, t, now);
    FireSorted(ts, t, now);
    forall j | j in ts'.table ensures PeriodPositive(ts', j) { assert PeriodPositive(ts, j); }
  }

  lemma TimersKeptStep(s: State, step: Step)
    requires TimersKept(s.timers, s.now) && Enabled(s, step)
    ensures TimersKept(Apply(s, step).timers, Apply(s, step).now)
  {
    hide Consistent, Sorted, PeriodPositive, Succeeds, Operated, Queued, Subscribed, Unsubscribed, Level, DrainOne, Fire, Order, Allocate;
    match step
    case TimePasses(d) => SortedAsTimePasses(s.timers, s.now, d);
    case NewTimer(id, p) => AllocateKept(s.timers, id, p, s.now);
    case OrderTimer(id, c) => OrderKept(s.timers, id, c, s.now);
    case Proceed =>
      if s.pc.Draining? {
        DrainKept(s.timers, s.pc.at, s.now);
      } else if s.pc.Moving? {
        FireKept(s.timers, s.pc.at, s.now);
      }
    case _ =>
  }

  /** The first timer, found due, stays due until it is moved, and its periods are counted no earlier than that. */
  ghost predicate ExpiryKept(s: State) {
    && ((s.pc.Firing? || s.pc.Moving?) ==> Listed(s.timers) && Due(s.timers, s.now))
    && (s.pc.Moving? ==> Due(s.timers, s.pc.at) && ReadLater(s.timers.table[s.timers.list[0]], s.pc.at, s.now))
  }

  lemma DueAsTimePasses(ts: Timers, now: Word, d: Word)
    requires Listed(ts) && Due(ts, now) && NoWrap(ts, now, d)
    ensures Due(ts, Plus(now, d))
    ensures forall at {:trigger ReadLater(ts.table[ts.list[0]], at, now)} ::
              ReadLater(ts.table[ts.list[0]], at, now) ==> ReadLater(ts.table[ts.list[0]], at, Plus(now, d))
  {
    var t := ts.table[ts.list[0]];
    RemainingCountsDown(t.startTime, t.interval, now, d);
  }

  lemma ExpiryKeptByLoop(s: State)
    requires Listed(s.timers) && ExpiryKept(s) && Enabled(s, Proceed)
    ensures ExpiryKept(Apply(s, Proceed))
  {
    hide Level, DrainOne, Fire, Queued, Listed, Consistent;
  }

  lemma ExpiryKeptStep(s: State, step: Step)
    requires TimersKept(s.timers, s.now) && ExpiryKept(s) && Enabled(s, step)
    ensures ExpiryKept(Apply(s, step))
  {
    hide Sorted, PeriodPositive, Succeeds, Operated, Queued, Subscribed, Unsubscribed, Level, Order, Allocate, CanProceed, EventStep, OtherStep;
    if step.Proceed? {
      ExpiryKeptByLoop(s);
    } else if step.TimePasses? && (s.pc.Firing? || s.pc.Moving?) {
      DueAsTimePasses(s.timers, s.now, step.ticks);
    }
  }

  // --- Whole runs -----------------------------------------------------------------------------

  ghost predicate LoopInvariant(s: State) {
    Safe(s) && NoLostLevel(s) && TimersKept(s.timers, s.now) && ExpiryKept(s) && (s.pc.Stopped? || BitsKept(s))
  }

  lemma InitInvariant(s: State)
    requires Init(s)
    ensures LoopInvariant(s)
  {
  }

  lemma InvariantStep(s: State, step: Step)
    requires LoopInvariant(s) && Enabled(s, step)
    ensures LoopInvariant(Apply(s, step))
  {
    SafeStep(s, step);
    NoLostLevelStep(s, step);
    TimersKeptStep(s, step);
    ExpiryKeptStep(s, step);
    BitsStep(s, step);
  }

  lemma BitsStep(s: State, step: Step)
    requires (s.pc.Stopped? || BitsKept(s)) && Enabled(s, step)
    ensures Apply(s, step).pc.Stopped? || BitsKept(Apply(s, step))
  {
    if !Apply(s, step).pc.Stopped? {
      if step.Proceed? || step.Wait? || step.Return? {
        BitsKeptByLoop(s, step);
      } else {
        BitsKeptByOthers(s, step);
      }
    }
  }

  ghost predicate CanRun(s: State, steps: seq<Step>)
    decreases |steps|
  {
    steps == [] || (Enabled(s, steps[0]) && CanRun(Apply(s, steps[0]), steps[1..]))
  }

  ghost function After(s: State, steps: seq<Step>): State
    requires CanRun(s, steps)
    decreases |steps|
  {
    if steps == [] then s else After(Apply(s, steps[0]), steps[1..])
  }

  /** Every reachable state satisfies the invariant, under every interleaving. */
  lemma {:induction false} RunInvariant(s: State, steps: seq<Step>)
    requires LoopInvariant(s) && CanRun(s, steps)
    ensures LoopInvariant(After(s, steps))
    decreases |steps|
  {
    if steps != [] {
      InvariantStep(s, steps[0]);
      RunInvariant(Apply(s, steps[0]), steps[1..]);
    }
  }

  // --- What the invariant means ------------------------------------------------------------------

  /** At the top of the loop every non-empty queue has its bit set. */
  lemma QueuedWorkHasItsBit(start: State, steps: seq<Step>)
    requires Init(start) && CanRun(start, steps) && After(start, steps).pc.Top?
    ensures var s := After(start, steps);
            && (s.reactor.waiting != [] ==> Event in s.flags)
            && (s.timers.queue != [] ==> TimerFlag in s.flags)
            && (s.pending != [] ==> Pending in s.flags)
  {
    InitInvariant(start);
    RunInvariant(start, steps);
  }

  /** Whenever the loop computes its sleep, no active timer and no tick runs out before the sleep does. */
  lemma SleepIsNeverTooLong(start: State, steps: seq<Step>, id: int)
    requires Init(start) && CanRun(start, steps)
    ensures var s := After(start, steps);
            && Consistent(s.timers)
            && (id in s.timers.table && s.timers.table[id].active ==>
                  SleepTime(s.timers, s.tick, s.now) <= TimeLeft(s.timers, id, s.now))
            && (s.tick.hasCallback ==>
                  SleepTime(s.timers, s.tick, s.now) <= Remaining(s.tick.prevTime, s.tick.interval, s.now))
  {
    InitInvariant(start);
    RunInvariant(start, steps);
    var s := After(start, steps);
    SleepsNoLongerThanAnyTimer(s.timers, s.tick, s.now, id);
  }

  /** Nor does it wake for nothing: sleeping undisturbed for that time is possible, and then a timer or the tick is due. */
  lemma SleepIsNeverTooShort(start: State, steps: seq<Step>)
    requires Init(start) && CanRun(start, steps)
    ensures var s := After(start, steps);
            && Consistent(s.timers)
            && var wait := SleepTime(s.timers, s.tick, s.now);
               wait < WAIT_FOREVER ==>
                 && Enabled(s, TimePasses(wait))
                 && (Due(s.timers, Apply(s, TimePasses(wait)).now) || TickDue(s.tick, Apply(s, TimePasses(wait)).now))
  {
    InitInvariant(start);
    RunInvariant(start, steps);
    var s := After(start, steps);
    if SleepTime(s.timers, s.tick, s.now) < WAIT_FOREVER {
      SleepEndsInWork(s.timers, s.tick, s.now);
    }
  }

  /** Throughout every run tree, links, waiting list and live items agree, and a callback starts only when subscribed. */
  lemma ItemsLiveWhileNamed(start: State, steps: seq<Step>)
    requires Init(start) && CanRun(start, steps)
    ensures var s := After(start, steps);
            && Safe(s)
            && (BeforeSync(s.pc) ==> s.pc.InCallback? || CanProceed(s))
            && (s.pc.FirstCheck? ==>
                  && s.pc.item in s.reactor.items
                  && s.reactor.items[s.pc.item].obj in s.reactor.tree
                  && s.reactor.tree[s.reactor.items[s.pc.item].obj] == s.pc.item)
  {
    InitInvariant(start);
    RunInvariant(start, steps);
    var s := After(start, steps);
    if BeforeSync(s.pc) {
      NeverTouchesFreedItem(s);
    }
    if s.pc.FirstCheck? {
      assert ItemEntry(s.reactor, s.pc.item, Held(s.pc));
    }
  }

  /** With no item in hand, the live items are exactly the subscribed ones: every other one was freed. */
  lemma NothingLeaks(start: State, steps: seq<Step>)
    requires Init(start) && CanRun(start, steps) && Held(After(start, steps).pc) == NULL
    ensures After(start, steps).reactor.items.Keys == After(start, steps).reactor.tree.Values
  {
    InitInvariant(start);
    RunInvariant(start, steps);
    var r := After(start, steps).reactor;
    forall i | i in r.items ensures i in r.tree.Values {
      assert ItemEntry(r, i, NULL);
    }
    forall o | o in r.tree ensures r.tree[o] in r.items {
      assert TreeEntry(r, o);
    }
  }

  // --- The ThreadFlag bit --------------------------------------------------------------------------

  /** The bit is set, or was read and will be restored. */
  predicate Tracked(s: State) {
    ThreadFlag in s.flags || ThreadFlag in Rest(s.pc)
  }

  /** A wait that reads the bit and does not restore it: Stop was read too, or neither Event nor Timer was. */
  predicate Decides(s: State, step: Step) {
    step.Wait? && (StopFlag in s.flags || (Event !in s.flags && TimerFlag !in s.flags))
  }

  /** The bit stays through every step but a deciding wait; that wait delivers it exactly if it reads neither Stop nor Pending. */
  lemma ThreadFlagStep(s: State, step: Step)
    requires Enabled(s, step) && Tracked(s)
    ensures Tracked(Apply(s, step)) <==> !Decides(s, step)
    ensures Decides(s, step) ==>
              (Apply(s, step).pc.InThreadFlagCallback? <==> StopFlag !in s.flags && Pending !in s.flags)
  {
    if step.Proceed? && BeforeSync(s.pc) {
      RestKept(s);
    }
  }

  lemma RestKept(s: State)
    requires CanProceed(s) && BeforeSync(s.pc)
    ensures EventStep(s).flags >= s.flags && Rest(EventStep(s).pc) == Rest(s.pc)
  {
  }

  ghost predicate TrackedThroughout(s: State, steps: seq<Step>)
    requires CanRun(s, steps)
    decreases |steps|
  {
    Tracked(s) && (steps == [] || TrackedThroughout(Apply(s, steps[0]), steps[1..]))
  }

  /** Through any run the bit stays until the first deciding wait, which delivers it or, with Stop or Pending, drops it. */
  lemma {:induction false} ThreadFlagFate(s: State, steps: seq<Step>) returns (k: nat)
    requires CanRun(s, steps) && Tracked(s)
    ensures k <= |steps| && CanRun(s, steps[..k]) && TrackedThroughout(s, steps[..k])
    ensures Tracked(After(s, steps[..k]))
    ensures k < |steps| ==>
              var last := After(s, steps[..k]);
              && Enabled(last, steps[k]) && Decides(last, steps[k])
              && !Tracked(Apply(last, steps[k]))
              && (Apply(last, steps[k]).pc.InThreadFlagCallback? <==> StopFlag !in last.flags && Pending !in last.flags)
    decreases |steps|
  {
    hide Enabled, Apply, Tracked, Decides;
    if steps == [] {
      return 0;
    }
    ThreadFlagStep(s, steps[0]);
    if Decides(s, steps[0]) {
      assert steps[..0] == [];
      return 0;
    }
    var j := ThreadFlagFate(Apply(s, steps[0]), steps[1..]);
    k := j + 1;
    assert steps[..k][1..] == steps[1..][..j] && steps[..k][0] == steps[0] && steps[k..] == steps[1..][j..];
  }

  lemma ThreeSteps(s: State, a: Step, s1: State, b: Step, s2: State, c: Step)
    requires Enabled(s, a) && s1 == Apply(s, a) && Enabled(s1, b) && s2 == Apply(s1, b) && Enabled(s2, c)
    ensures CanRun(s, [a, b, c]) && After(s, [a, b, c]) == Apply(s2, c)
  {
    hide Enabled, Apply;
    assert [a, b, c][1..] == [b, c] && [b, c][1..] == [c] && [c][1..] == [];
    assert CanRun(s2, [c]) && After(s2, [c]) == Apply(s2, c);
    assert CanRun(s1, [b, c]) && After(s1, [b, c]) == Apply(s2, c);
  }

  /** The loop is told of a thread flag and of a pending callback before it runs. */
  const BOTH_ANNOUNCED: seq<Step> := [SetThreadFlag, Pend(1), Return]

  /** From allocation on the bit can be dropped: read together with Pending alone, it is gone and nothing was called for it. */
  lemma ThreadFlagCanBeDropped(start: State)
    requires Init(start)
    ensures CanRun(start, BOTH_ANNOUNCED) && Tracked(After(start, BOTH_ANNOUNCED))
    ensures Enabled(After(start, BOTH_ANNOUNCED), Wait)
    ensures var s := Apply(After(start, BOTH_ANNOUNCED), Wait);
            s.pc.RunPending? && !Tracked(s)
  {
    hide EventStep, OtherStep, CanProceed, CanRun, After;
    var s1 := start.(flags := {ThreadFlag});
    var s2 := s1.(flags := {ThreadFlag, Pending}, pending := [1]);
    ThreeSteps(start, SetThreadFlag, s1, Pend(1), s2, Return);
  }

  /** An object subscribed in one direction takes no subscription in the other, although that slot of its link is free. */
  lemma SecondDirectionRefused(start: State, i: int, j: int, o: int)
    requires Init(start) && o in start.sources && i != NULL && j != NULL && i != j
    ensures Enabled(start, Subscribe(i, o, In, false))
    ensures var s := Apply(start, Subscribe(i, o, In, false));
            Slot(s.reactor.links[o], Out) == NULL && j !in s.reactor.items && !Enabled(s, Subscribe(j, o, Out, false))
  {
  }

  // --- Timers fire only while started --------------------------------------------------------------

  predicate Armed(ts: Timers, id: int) {
    var o := OutcomeOf(ts, id);
    o.Kept? && o.active
  }

  ghost predicate Fires(s: State, step: Step, id: int) {
    step.Proceed? && s.pc.Moving? && s.timers.list != [] && s.timers.list[0] == id
  }

  predicate Starts(step: Step, id: int) {
    step.OrderTimer? && step.id == id && (step.command.StartCommand? || step.command.RestartCommand?)
  }

  /** Expired timers are processed only when no request is waiting, so only started ones fire. */
  lemma FiresOnlyIfArmed(s: State, step: Step, id: int)
    requires LoopInvariant(s) && Enabled(s, step) && Fires(s, step, id)
    ensures s.timers.queue == [] && Armed(s.timers, id)
  {
    FrontPeriodPositive(s.timers, s.now);
    assert id in Requested(s.timers) ==> id in Elements(s.timers.queue);
  }

  lemma FireDisarmsOnly(ts: Timers, t: Word, now: Word, id: int)
    requires TimersKept(ts, now) && ts.list != []
    requires ts.table[ts.list[0]].periodic ==> ts.table[ts.list[0]].interval > 0
    requires Armed(Fire(ts, t, now), id)
    ensures Armed(ts, id)
  {
    FrontPeriodPositive(ts, now);
  }

  lemma ArmedOnlyByStart(s: State, step: Step, id: int)
    requires TimersKept(s.timers, s.now) && Enabled(s, step) && !Starts(step, id)
    requires Armed(Apply(s, step).timers, id)
    ensures Armed(s.timers, id)
  {
    hide Sorted, PeriodPositive, Succeeds, Operated, Queued, Subscribed, Unsubscribed, Level, DrainOne, Fire, NoWrap;
    if step.Proceed? && s.pc.Draining? {
      DrainKeepsOutcomes(s.timers, s.pc.at, s.now, id);
    } else if step.Proceed? && s.pc.Moving? {
      FireDisarmsOnly(s.timers, s.pc.at, s.now, id);
    }
  }

  /** Some step of the run fires timer `id`. */
  ghost predicate FiresIn(s: State, steps: seq<Step>, id: int)
    requires CanRun(s, steps)
    decreases |steps|
  {
    steps != [] && (Fires(s, steps[0], id) || FiresIn(Apply(s, steps[0]), steps[1..], id))
  }

  lemma {:induction false} SilentUntilStarted(s: State, steps: seq<Step>, id: int)
    requires LoopInvariant(s) && CanRun(s, steps) && !Armed(s.timers, id)
    requires forall k :: 0 <= k < |steps| ==> !Starts(steps[k], id)
    ensures !FiresIn(s, steps, id)
    decreases |steps|
  {
    if steps != [] {
      var s' := Apply(s, steps[0]);
      if Fires(s, steps[0], id) {
        FiresOnlyIfArmed(s, steps[0], id);
        assert false;
      }
      if Armed(s'.timers, id) {
        ArmedOnlyByStart(s, steps[0], id);
        assert false;
      }
      InvariantStep(s, steps[0]);
      SilentUntilStarted(s', steps[1..], id);
    }
  }

  /** After stop or free returns, the timer does not fire unless it is started again. */
  lemma NeverFiresAfterStop(s: State, id: int, c: Command, steps: seq<Step>)
    requires LoopInvariant(s) && Enabled(s, OrderTimer(id, c)) && (c.StopCommand? || c.FreeCommand?)
    requires CanRun(Apply(s, OrderTimer(id, c)), steps)
    requires forall k :: 0 <= k < |steps| ==> !Starts(steps[k], id)
    ensures !FiresIn(Apply(s, OrderTimer(id, c)), steps, id)
  {
    InvariantStep(s, OrderTimer(id, c));
    hide LoopInvariant, CanRun, FiresIn;
    SilentUntilStarted(Apply(s, OrderTimer(id, c)), steps, id);
  }

  // --- Fairness --------------------------------------------------------------------------------

  /** The loop takes item `i` from the waiting list. */
  predicate Turn(s: State, step: Step, i: int) {
    step.Proceed? && s.pc.PopItem? && s.reactor.waiting != [] && s.reactor.waiting[0] == i
  }

  predicate Drops(s: State, step: Step, i: int) {
    step.Unsubscribe? && step.obj in s.reactor.tree && s.reactor.tree[step.obj] == i
  }

  /** A loop iteration begins with a wait that reads bits or times out. */
  predicate BeginsIteration(step: Step) {
    step.Wait? || step.TimeOut?
  }

  /** How many iterations may still begin before item `i` has its turn. */
  function TurnsLeft(s: State, i: int): nat
    requires i in s.reactor.waiting
  {
    Index(s.reactor.waiting, i) + if s.pc.PopItem? then 0 else 1
  }

  lemma QueuedKeepsPlace(r: Reactor, j: int, i: int)
    requires i in r.waiting
    ensures i in Queued(r, j).waiting && Index(Queued(r, j).waiting, i) == Index(r.waiting, i)
  {
    IndexAppend(r.waiting, j, i);
  }

  lemma PlaceImprovesInEvent(s: State, i: int)
    requires Safe(s) && CanProceed(s) && BeforeSync(s.pc) && i in s.reactor.waiting
    requires !Turn(s, Proceed, i)
    ensures i in EventStep(s).reactor.waiting && TurnsLeft(EventStep(s), i) <= TurnsLeft(s, i)
  {
    hide Index, Lifetime, HeldItemState, Level;
    if s.pc.PopItem? {
      IndexTail(s.reactor.waiting, i);
    } else if s.pc.Requeue? {
      QueuedKeepsPlace(s.reactor, s.pc.item, i);
    }
  }

  lemma PlaceImprovesInReactor(s: State, step: Step, i: int)
    requires Safe(s) && Enabled(s, step) && i in s.reactor.waiting && !LeavesReactor(s, step)
    requires !Turn(s, step, i) && !Drops(s, step, i)
    ensures i in Apply(s, step).reactor.waiting
    ensures TurnsLeft(Apply(s, step), i) <= TurnsLeft(s, i)
  {
    hide Index, Unlink, EventStep, HeldItemState, TreeEntry, LinkEntry, ItemEntry, Level;
    var r := s.reactor;
    match step
    case Notify(o, d) => QueuedKeepsPlace(r, Slot(r.links[o], d), i);
    case Subscribe(j, o, d, edge) => QueuedKeepsPlace(Subscribed(r, j, o, d, edge), j, i);
    case Unsubscribe(o) => IndexUnlink(r.waiting, r.tree[o], i);
    case Proceed => PlaceImprovesInEvent(s, i);
  }

  /** The step neither moves the item back nor, when it begins an iteration, leaves its count of iterations as it was. */
  lemma PlaceImproves(s: State, step: Step, i: int)
    requires Safe(s) && (s.pc.Stopped? || BitsKept(s)) && Enabled(s, step) && i in s.reactor.waiting
    requires !Turn(s, step, i) && !Drops(s, step, i) && !Apply(s, step).pc.Stopped?
    ensures i in Apply(s, step).reactor.waiting
    ensures TurnsLeft(Apply(s, step), i) + (if BeginsIteration(step) then 1 else 0) <= TurnsLeft(s, i)
  {
    if LeavesReactor(s, step) {
      ReactorKept(s, step);
    } else {
      PlaceImprovesInReactor(s, step, i);
    }
  }

  function Iterations(steps: seq<Step>): nat {
    if steps == [] then 0 else (if BeginsIteration(steps[0]) then 1 else 0) + Iterations(steps[1..])
  }

  /** Throughout the run item `i` has no turn, is not unsubscribed, and the loop does not stop. */
  ghost predicate Unserved(s: State, steps: seq<Step>, i: int)
    requires CanRun(s, steps)
    decreases |steps|
  {
    steps == [] ||
    (!Turn(s, steps[0], i) && !Drops(s, steps[0], i) && !Apply(s, steps[0]).pc.Stopped?
     && Unserved(Apply(s, steps[0]), steps[1..], i))
  }

  lemma {:induction false} IterationsAreBounded(s: State, steps: seq<Step>, i: int)
    requires LoopInvariant(s) && CanRun(s, steps) && i in s.reactor.waiting && Unserved(s, steps, i)
    ensures i in After(s, steps).reactor.waiting
    ensures Iterations(steps) + TurnsLeft(After(s, steps), i) <= TurnsLeft(s, i)
    decreases |steps|
  {
    if steps != [] {
      PlaceImproves(s, steps[0], i);
      InvariantStep(s, steps[0]);
      IterationsAreBounded(Apply(s, steps[0]), steps[1..], i);
    }
  }

  /** An item at index `k` is taken no later than in the (k+1)-th iteration from now on. */
  lemma FairTurn(s: State, steps: seq<Step>, i: int, k: nat)
    requires LoopInvariant(s) && k < |s.reactor.waiting| && s.reactor.waiting[k] == i
    requires CanRun(s, steps) && Unserved(s, steps, i)
    ensures Iterations(steps) <= k + 1
    ensures Iterations(steps) == k + 1 ==>
              After(s, steps).pc.PopItem? && After(s, steps).reactor.waiting != [] && After(s, steps).reactor.waiting[0] == i
  {
    IndexUnique(s.reactor.waiting, i, k);
    IterationsAreBounded(s, steps, i);
  }
}
