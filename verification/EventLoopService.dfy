/** The callbacks that the loop delivers over whole runs: of high levels, of notified edges, and no others. */
module EventLoopService {
  import opened Sequences
  import opened Ticks
  import opened Timers
  import opened EventLoop
  import opened EventLoopSafety
  import opened EventLoopRuns
  import opened EventLoopHistory

  // --- What is called for is served -----------------------------------------------------------------

  /** Object `o` is subscribed with item `i`, which would be called back if looked at: it is for edges, or its level is high. */
  ghost predicate Wanting(s: State, o: int, i: int) {
    && o in s.reactor.tree && s.reactor.tree[o] == i && i in s.reactor.items && o in s.sources
    && (s.reactor.items[i].edge || Level(s.sources[o], s.reactor.items[i].direction))
  }

  /** The step starts the callback of item `i`. */
  ghost predicate StartsCallback(s: State, step: Step, i: int)
    requires Enabled(s, step)
  {
    s.pc.FirstCheck? && s.pc.item == i && Apply(s, step).pc.InCallback?
  }

  /** Throughout the run the item is called for and the loop does not stop, yet the callback is not started. */
  ghost predicate Neglected(s: State, steps: seq<Step>, o: int, i: int)
    requires CanRun(s, steps)
    decreases |steps|
  {
    && Wanting(s, o, i) && !s.pc.Stopped?
    && (steps == [] || (!StartsCallback(s, steps[0], i) && Neglected(Apply(s, steps[0]), steps[1..], o, i)))
  }

  predicate InHand(s: State, i: int) {
    s.pc.FirstCheck? && s.pc.item == i
  }

  /** How many iterations may still begin before the callback of `i` starts. */
  function ServiceLeft(s: State, i: int): nat
    requires InHand(s, i) || i in s.reactor.waiting
  {
    if InHand(s, i) then 0 else TurnsLeft(s, i)
  }

  /** With such an item in hand, the loop's next move is to call back. */
  lemma InHandIsCalled(s: State, step: Step, o: int, i: int)
    requires Safe(s) && Enabled(s, step) && InHand(s, i) && Wanting(s, o, i)
    ensures StartsCallback(s, step, i) || (InHand(Apply(s, step), i) && !BeginsIteration(step))
  {
    assert TreeEntry(s.reactor, o);
    hide Succeeds, Operated, Level, DrainOne, Fire, Order, Allocate, Lifetime;
  }

  /** The step that takes the item from the list puts it in hand. */
  lemma TurnPutsInHand(s: State, step: Step, i: int)
    requires Enabled(s, step) && Turn(s, step, i)
    ensures InHand(Apply(s, step), i)
  {
  }

  lemma UnsubscribeEndsWanting(s: State, step: Step, o: int, i: int)
    requires Safe(s) && Enabled(s, step) && Wanting(s, o, i) && Drops(s, step, i)
    ensures !Wanting(Apply(s, step), o, i)
  {
    assert TreeEntry(s.reactor, o) && TreeEntry(s.reactor, step.obj);
  }

  lemma ServiceImproves(s: State, step: Step, o: int, i: int)
    requires LoopInvariant(s) && Enabled(s, step) && Wanting(s, o, i) && (InHand(s, i) || i in s.reactor.waiting)
    requires !StartsCallback(s, step, i) && Wanting(Apply(s, step), o, i) && !Apply(s, step).pc.Stopped?
    ensures InHand(Apply(s, step), i) || i in Apply(s, step).reactor.waiting
    ensures ServiceLeft(Apply(s, step), i) + (if BeginsIteration(step) then 1 else 0) <= ServiceLeft(s, i)
  {
    hide Enabled, Apply, Safe, BitsKept, TimersKept, NoLostLevel, Index, Wanting, StartsCallback;
    if InHand(s, i) {
      InHandIsCalled(s, step, o, i);
    } else if Turn(s, step, i) {
      TurnPutsInHand(s, step, i);
    } else {
      if Drops(s, step, i) {
        UnsubscribeEndsWanting(s, step, o, i);
        assert false;
      }
      PlaceImproves(s, step, i);
    }
  }

  lemma {:induction false} ServiceIsBounded(s: State, steps: seq<Step>, o: int, i: int)
    requires LoopInvariant(s) && CanRun(s, steps) && Neglected(s, steps, o, i)
    requires InHand(s, i) || i in s.reactor.waiting
    ensures Iterations(steps) <= ServiceLeft(s, i)
    decreases |steps|
  {
    hide Enabled, Apply, LoopInvariant, Wanting, StartsCallback, Index, TurnsLeft;
    if steps != [] {
      InvariantStep(s, steps[0]);
      ServiceImproves(s, steps[0], o, i);
      ServiceIsBounded(Apply(s, steps[0]), steps[1..], o, i);
    }
  }

  /**
   Throughout the run the subscription of `o` with `i` in direction `d` lasts, its level is high if it is
   level-triggered, and the loop does not stop, yet the callback is not started.
   */
  ghost predicate Unanswered(s: State, steps: seq<Step>, o: int, i: int, d: Direction, edge: bool)
    requires CanRun(s, steps)
    decreases |steps|
  {
    && !s.pc.Stopped? && o in s.sources && (edge || Level(s.sources[o], d))
    && (steps == [] ||
        (steps[0] != Unsubscribe(o) && !StartsCallback(s, steps[0], i)
         && Unanswered(Apply(s, steps[0]), steps[1..], o, i, d, edge)))
  }

  lemma SubscribedStays(s: State, step: Step, o: int, i: int, d: Direction, edge: bool)
    requires Safe(s) && Enabled(s, step) && Stands(s, o, By(i, d, edge)) && step != Unsubscribe(o)
    ensures Stands(Apply(s, step), o, By(i, d, edge))
  {
    assert !(step.Subscribe? && step.obj == o);
    hide Enabled, Apply, Safe;
    StandsStep(s, step, o, By(i, d, edge));
  }

  lemma SafeOf(s: State)
    requires LoopInvariant(s)
    ensures Safe(s)
  {
  }

  lemma {:induction false} UnansweredIsNeglected(s: State, steps: seq<Step>, o: int, i: int, d: Direction, edge: bool)
    requires LoopInvariant(s) && CanRun(s, steps)
    requires Stands(s, o, By(i, d, edge)) && Unanswered(s, steps, o, i, d, edge)
    ensures Neglected(s, steps, o, i)
    decreases |steps|
  {
    hide Enabled, Apply, StartsCallback, LoopInvariant;
    if steps != [] {
      SafeOf(s);
      SubscribedStays(s, steps[0], o, i, d, edge);
      InvariantStep(s, steps[0]);
      UnansweredIsNeglected(Apply(s, steps[0]), steps[1..], o, i, d, edge);
    }
  }

  /**
   After any run from allocation on that ends at the top of the loop: if the last subscription of an object is
   level-triggered, its level is high and no notification is owed for it, its item waits at some index k; as long
   as it stays high and subscribed and the loop does not stop, at most k + 1 iterations begin before its callback
   is started, whatever else happens.
   */
  lemma HighLevelIsServed(start: State, before: seq<Step>, steps: seq<Step>, o: int)
    requires Init(start) && CanRun(start, before) && After(start, before).pc.Top?
    requires var x := LastSubscription(before, o);
             && x.By? && !x.edge && (o, x.direction) !in After(start, before).owed
             && CanRun(After(start, before), steps)
             && Unanswered(After(start, before), steps, o, x.id, x.direction, false)
    ensures var w, i := After(start, before).reactor.waiting, LastSubscription(before, o).id;
            i in w && Iterations(steps) <= Index(w, i) + 1
  {
    var s, x := After(start, before), LastSubscription(before, o);
    SubscriptionsFromHistory(start, before, o);
    NoLevelEventIsLost(start, before, o);
    UnansweredIsNeglected(s, steps, o, x.id, x.direction, false);
    hide LoopInvariant, Neglected, Unanswered;
    ServiceIsBounded(s, steps, o, x.id);
  }

  /**
   A notification in the direction of an object's last subscription, edge-triggered, puts its item at some index k
   unless it waits already; as long as it stays subscribed and the loop does not stop, at most k + 1 iterations
   begin before its callback is started.
   */
  lemma EdgeIsServed(start: State, before: seq<Step>, steps: seq<Step>, o: int)
    requires Init(start) && CanRun(start, before)
    requires var s, x := After(start, before), LastSubscription(before, o);
             && x.By? && x.edge && Enabled(s, Notify(o, x.direction))
             && CanRun(Apply(s, Notify(o, x.direction)), steps)
             && Unanswered(Apply(s, Notify(o, x.direction)), steps, o, x.id, x.direction, true)
    ensures var x := LastSubscription(before, o);
            var w := Apply(After(start, before), Notify(o, x.direction)).reactor.waiting;
            x.id in w && Iterations(steps) <= Index(w, x.id) + 1
  {
    var s, x := After(start, before), LastSubscription(before, o);
    SubscriptionsFromHistory(start, before, o);
    SafeOf(s);
    NotifyQueues(s, o, x.id, x.direction, true);
    InvariantStep(s, Notify(o, x.direction));
    hide LoopInvariant, Neglected, Safe, Stands, Enabled, Apply;
    var s' := Apply(s, Notify(o, x.direction));
    UnansweredIsNeglected(s', steps, o, x.id, x.direction, true);
    hide Unanswered;
    ServiceIsBounded(s', steps, o, x.id);
  }

  lemma NotifyQueues(s: State, o: int, i: int, d: Direction, edge: bool)
    requires Safe(s) && Stands(s, o, By(i, d, edge)) && Enabled(s, Notify(o, d))
    ensures i in Apply(s, Notify(o, d)).reactor.waiting && Stands(Apply(s, Notify(o, d)), o, By(i, d, edge))
  {
    assert TreeEntry(s.reactor, o);
    assert ItemEntry(s.reactor, i, Held(s.pc));
  }

  // --- No callback without a reason -------------------------------------------------------------------

  /** A callback starts only for the item of an object's last subscription; a level-triggered one only while its level is high. */
  lemma CallbackHasReason(start: State, steps: seq<Step>, step: Step, i: int) returns (o: int)
    requires Init(start) && CanRun(start, steps) && Enabled(After(start, steps), step)
    requires StartsCallback(After(start, steps), step, i)
    ensures var s, x := After(start, steps), LastSubscription(steps, o);
            x.By? && x.id == i && o in s.sources && (x.edge || Level(s.sources[o], x.direction))
  {
    var s := After(start, steps);
    StartOnlyOnLook(s, step, i);
    o := s.reactor.items[i].obj;
    SubscriptionsFromHistory(start, steps, o);
    SafeOf(s);
    assert ItemEntry(s.reactor, i, Held(s.pc));
  }

  lemma StartOnlyOnLook(s: State, step: Step, i: int)
    requires Enabled(s, step) && StartsCallback(s, step, i)
    ensures step.Proceed? && i in s.reactor.items && s.reactor.items[i].obj in s.sources
    ensures s.reactor.items[i].edge || Level(s.sources[s.reactor.items[i].obj], s.reactor.items[i].direction)
  {
    hide Succeeds, Operated, Level, DrainOne, Fire, Order, Allocate, Unsubscribed, Subscribed, Queued, NoWrap;
  }

  lemma UnlinkedWas(s: seq<int>, x: int, i: int)
    requires Distinct(s) && i in Unlink(s, x)
    ensures i in s
  {
    UnlinkElements(s, x);
    assert i in Elements(Unlink(s, x));
  }

  /**
   An item comes into the waiting list only by a notification in its own object's direction, by a level-triggered
   subscription that finds the level high, or by being put back.
   */
  lemma QueuedForReason(s: State, step: Step, i: int) returns (o: int)
    requires Safe(s) && Enabled(s, step) && i !in s.reactor.waiting && i in Apply(s, step).reactor.waiting
    ensures var s' := Apply(s, step);
            && o in s'.reactor.tree && s'.reactor.tree[o] == i && i in s'.reactor.items && o in s.sources
            && var item := s'.reactor.items[i];
               || step == Notify(o, item.direction)
               || (step == Subscribe(i, o, item.direction, false) && Level(s.sources[o], item.direction))
               || (step.Proceed? && s.pc.Requeue? && s.pc.item == i)
  {
    if LeavesReactor(s, step) {
      ReactorKept(s, step);
      assert false;
    }
    hide Level, Lifetime, HeldItemState, Unlink, EventStep;
    match step
    case Notify(p, d) =>
      o := p;
      LinkedStands(s, p, d);
    case Subscribe(j, p, d, edge) => o := p;
    case Unsubscribe(p) =>
      DistinctWaiting(s);
      UnlinkedWas(s.reactor.waiting, s.reactor.tree[p], i);
      assert false;
    case Proceed => o := PutBackQueues(s, i);
    case _ =>
  }

  lemma LinkedStands(s: State, o: int, d: Direction)
    requires Safe(s) && o in s.reactor.links && Slot(s.reactor.links[o], d) != NULL
    ensures o in s.sources && o in s.reactor.tree && s.reactor.tree[o] == Slot(s.reactor.links[o], d)
    ensures s.reactor.tree[o] in s.reactor.items && s.reactor.items[s.reactor.tree[o]].direction == d
  {
    assert LinkEntry(s.reactor, o, d);
  }

  lemma DistinctWaiting(s: State)
    requires Safe(s)
    ensures Distinct(s.reactor.waiting)
  {
  }

  lemma PutBackQueues(s: State, i: int) returns (o: int)
    requires Safe(s) && CanProceed(s) && BeforeSync(s.pc) && i !in s.reactor.waiting && i in EventStep(s).reactor.waiting
    ensures s.pc.Requeue? && s.pc.item == i && o in s.sources
    ensures var r := EventStep(s).reactor;
            o in r.tree && r.tree[o] == i && i in r.items
  {
    o := s.reactor.items[i].obj;
    assert ItemEntry(s.reactor, i, Held(s.pc));
    assert TreeEntry(s.reactor, o);
  }

  /** The loop decides to put an item back only at its second look, exactly if the level is then high. */
  lemma PutBackIffStillHigh(s: State, step: Step)
    requires Safe(s) && Enabled(s, step)
    ensures s.pc.SecondCheck? && step.Proceed? ==>
              var item := s.reactor.items[s.pc.item];
              && Apply(s, step).pc.Finish? && item.obj in s.sources
              && (Apply(s, step).pc.status.Incomplete? <==> Level(s.sources[item.obj], item.direction))
    ensures Apply(s, step).pc.Finish? && Apply(s, step).pc.status.Incomplete? && Apply(s, step).pc != s.pc ==>
              s.pc.SecondCheck? && step.Proceed?
    ensures Apply(s, step).pc.Requeue? && Apply(s, step).pc != s.pc ==>
              s.pc.Finish? && s.pc.status.Incomplete? && s.pc.item == Apply(s, step).pc.item
  {
    hide Succeeds, Operated, Level, DrainOne, Fire, Order, Allocate, Unsubscribed, Subscribed, Queued, NoWrap, Lifetime, Due;
  }

  /** The item neither waits nor is about to be called back or put back. */
  predicate AtRest(s: State, i: int) {
    && i !in s.reactor.waiting
    && !(Held(s.pc) == i && (s.pc.FirstCheck? || s.pc.SecondCheck? || s.pc.Requeue? || (s.pc.Finish? && s.pc.status.Incomplete?)))
  }

  lemma RestsAfterNotify(s: State, p: int, e: Direction, o: int, i: int, d: Direction)
    requires Safe(s) && Stands(s, o, By(i, d, true)) && AtRest(s, i) && p in s.reactor.links && (p != o || e != d)
    ensures AtRest(Notified(s, p, e), i)
  {
    assert LinkEntry(s.reactor, p, e);
    assert p in s.reactor.tree ==> TreeEntry(s.reactor, p);
    assert TreeEntry(s.reactor, o);
    assert ItemEntry(s.reactor, i, Held(s.pc));
  }

  lemma RestsAfterUnsubscribe(s: State, p: int, i: int)
    requires Safe(s) && Enabled(s, Unsubscribe(p)) && AtRest(s, i)
    ensures AtRest(Apply(s, Unsubscribe(p)), i)
  {
    UnlinkElements(s.reactor.waiting, s.reactor.tree[p]);
    var w := Unlink(s.reactor.waiting, s.reactor.tree[p]);
    assert i in w ==> i in Elements(w);
  }

  lemma RestsAfterEventStep(s: State, o: int, i: int, d: Direction)
    requires Safe(s) && CanProceed(s) && BeforeSync(s.pc) && Stands(s, o, By(i, d, true)) && AtRest(s, i)
    ensures AtRest(EventStep(s), i)
  {
    assert ItemEntry(s.reactor, i, Held(s.pc));
  }

  lemma RestsAfterOther(s: State, step: Step, i: int)
    requires Enabled(s, step) && LeavesReactor(s, step) && AtRest(s, i)
    requires i in s.reactor.items && s.reactor.items[i].edge
    ensures AtRest(Apply(s, step), i)
  {
    hide Succeeds, Operated, Level, DrainOne, Fire, Order, Allocate, Due, TickDue, ProcessTick, CommandAllowed, NoWrap;
  }

  lemma EdgeRests(s: State, step: Step, o: int, i: int, d: Direction)
    requires Safe(s) && Enabled(s, step) && Stands(s, o, By(i, d, true)) && AtRest(s, i)
    requires step != Notify(o, d) && step != Unsubscribe(o)
    ensures AtRest(Apply(s, step), i) && !StartsCallback(s, step, i)
  {
    if LeavesReactor(s, step) {
      RestsAfterOther(s, step, i);
      return;
    }
    hide Safe, Unsubscribed, EventStep, Unlink;
    match step
    case Notify(p, e) => RestsAfterNotify(s, p, e, o, i, d);
    case Subscribe(j, p, e, edge) => assert j != i;
    case Unsubscribe(p) => RestsAfterUnsubscribe(s, p, i);
    case Proceed => RestsAfterEventStep(s, o, i, d);
    case _ =>
  }

  ghost predicate Calls(s: State, steps: seq<Step>, i: int)
    requires CanRun(s, steps)
    decreases |steps|
  {
    steps != [] && (StartsCallback(s, steps[0], i) || Calls(Apply(s, steps[0]), steps[1..], i))
  }

  lemma {:induction false} RestsUntilNotified(s: State, steps: seq<Step>, o: int, i: int, d: Direction)
    requires LoopInvariant(s) && CanRun(s, steps) && Stands(s, o, By(i, d, true)) && AtRest(s, i)
    requires Notify(o, d) !in steps && Unsubscribe(o) !in steps
    ensures !Calls(s, steps, i)
    decreases |steps|
  {
    hide Enabled, Apply, StartsCallback, LoopInvariant, Stands, AtRest;
    if steps != [] {
      assert steps[0] in steps;
      SafeOf(s);
      EdgeRests(s, steps[0], o, i, d);
      SubscribedStays(s, steps[0], o, i, d, true);
      InvariantStep(s, steps[0]);
      RestsUntilNotified(Apply(s, steps[0]), steps[1..], o, i, d);
    }
  }

  /** An edge-triggered subscription is not called back before it is notified, whatever its level is. */
  lemma EdgeNeedsNotification(s: State, i: int, o: int, d: Direction, steps: seq<Step>)
    requires LoopInvariant(s) && Enabled(s, Subscribe(i, o, d, true)) && CanRun(Apply(s, Subscribe(i, o, d, true)), steps)
    requires Notify(o, d) !in steps && Unsubscribe(o) !in steps
    ensures !Calls(Apply(s, Subscribe(i, o, d, true)), steps, i)
  {
    var s' := Apply(s, Subscribe(i, o, d, true));
    InvariantStep(s, Subscribe(i, o, d, true));
    assert Stands(s', o, By(i, d, true)) && AtRest(s', i);
    hide LoopInvariant, Enabled, Apply;
    RestsUntilNotified(s', steps, o, i, d);
  }

  /** Once called back, it is not called again without another notification, unless one came in since it was taken. */
  lemma EdgeIsCalledOnce(start: State, before: seq<Step>, step: Step, steps: seq<Step>, o: int)
    requires Init(start) && CanRun(start, before) && Enabled(After(start, before), step)
    requires LastSubscription(before, o).By? && LastSubscription(before, o).edge
    requires var s, x := After(start, before), LastSubscription(before, o);
             && StartsCallback(s, step, x.id) && x.id !in s.reactor.waiting && CanRun(Apply(s, step), steps)
             && Notify(o, x.direction) !in steps && Unsubscribe(o) !in steps
    ensures !Calls(Apply(After(start, before), step), steps, LastSubscription(before, o).id)
  {
    var s, x := After(start, before), LastSubscription(before, o);
    SubscriptionsFromHistory(start, before, o);
    StartOnlyOnLook(s, step, x.id);
    SafeOf(s);
    SubscribedStays(s, step, o, x.id, x.direction, true);
    InvariantStep(s, step);
    assert AtRest(Apply(s, step), x.id);
    hide LoopInvariant, Enabled, Apply;
    RestsUntilNotified(Apply(s, step), steps, o, x.id, x.direction);
  }
}
