/**
 The event loop object, updated in place as furi/core/event_loop.c does.  It keeps the history of its critical
 sections as a run of the state machine of EventLoop.dfy, so every theorem about runs is a theorem about it.
 */
module LoopObject {
  import opened Sequences
  import opened Ticks
  import opened Timers
  import opened EventLoop
  import opened EventLoopSafety
  import opened EventLoopRuns
  import opened EventLoopHistory
  import opened EventLoopService
  import opened EventSources
  import TL = TimerLoop

  ghost predicate AllWithin(sources: map<int, Source>) {
    forall o :: o in sources ==> Within(sources[o])
  }

  // --- Runs grow at the end ------------------------------------------------------------------------

  lemma {:induction false} RunOneMore(s: State, steps: seq<Step>, step: Step)
    requires CanRun(s, steps) && Enabled(After(s, steps), step)
    ensures CanRun(s, steps + [step]) && After(s, steps + [step]) == Apply(After(s, steps), step)
    decreases |steps|
  {
    hide Enabled, Apply;
    if steps == [] {
      assert (steps + [step])[1..] == [];
    } else {
      RunOneMore(Apply(s, steps[0]), steps[1..], step);
      assert (steps + [step])[1..] == steps[1..] + [step];
    }
  }

  /** The history `after` is `before` and one step more. */
  ghost predicate Extended(before: seq<Step>, after: seq<Step>, step: Step) {
    after == before + [step] && Iterations(after) == Iterations(before) + if BeginsIteration(step) then 1 else 0
  }

  /** The history `after` goes on from `before`, and `n` iterations begin in between. */
  ghost predicate Grown(before: seq<Step>, after: seq<Step>, n: nat) {
    before <= after && Iterations(after) == Iterations(before) + n
  }

  lemma {:induction false} OneStepMore(trace: seq<Step>, step: Step)
    ensures Extended(trace, trace + [step], step)
  {
    if trace != [] {
      assert (trace + [step])[1..] == trace[1..] + [step];
      OneStepMore(trace[1..], step);
    }
  }

  /** The history is a run from allocation on and leads to `machine`. */
  ghost predicate Traced(start: State, trace: seq<Step>, machine: State) {
    Init(start) && CanRun(start, trace) && After(start, trace) == machine && Safe(machine) && LoopInvariant(machine)
  }

  /** A loop just allocated. */
  function Allocated(sources: map<int, Source>, links: map<int, Link>, now: Word): State {
    State(sources, multiset{}, Reactor(map[], map[], links, []), {}, EMPTY, Tick(0, 0, false), [], now, Setup)
  }

  lemma StartTraced(sources: map<int, Source>, links: map<int, Link>, now: Word)
    requires links == map o | o in sources :: Link(NULL, NULL)
    ensures Traced(Allocated(sources, links, now), [], Allocated(sources, links, now))
  {
    InitInvariant(Allocated(sources, links, now));
  }

  /** What the other threads do at the `k`-th point where they may come in between. */
  function At(others: seq<seq<Step>>, k: nat): seq<Step> {
    if k < |others| then others[k] else []
  }

  /** Steps of threads other than the loop's. */
  predicate Foreign(step: Step) {
    step.Operate? || step.Notify? || step.RequestStop? || step.SetThreadFlag? || step.TimePasses?
  }

  /** The item that current_item names: only while it is being processed. */
  function Current(pc: Pc): int {
    if pc.InCallback? || pc.SecondCheck? || pc.Finish? then pc.item else NULL
  }

  lemma CurrentIsHeld(pc: Pc)
    requires UserCode(pc)
    ensures Current(pc) == Held(pc)
  {
  }

  /** Only the sources, what is owed, the waiting list, the bits and the time may have changed. */
  ghost predicate Undisturbed(s: State, s': State) {
    && s'.pc == s.pc && s'.reactor.items == s.reactor.items && s'.reactor.tree == s.reactor.tree
    && s'.timers == s.timers && s'.tick == s.tick && s'.pending == s.pending
  }

  lemma Unlinked(objects: map<int, EventSource>, links: map<int, Link>, sources: map<int, Source>)
    requires forall o :: o in objects ==> objects[o].link == Link(NULL, NULL)
    requires links == (map o | o in objects :: objects[o].link) && sources.Keys == objects.Keys
    ensures links == map o | o in sources :: Link(NULL, NULL)
  {
    var m := map o | o in sources :: Link(NULL, NULL);
    assert links.Keys == m.Keys;
    forall o | o in links ensures links[o] == m[o] {
      assert o in objects;
    }
  }

  /** A sleep of `wait` ticks from `now` on ends before no active timer and before no tick. */
  ghost predicate SoonEnough(ts: Timers, tick: Tick, now: Word, wait: Word) {
    && (forall id :: id in ts.table && ts.table[id].active ==> wait <= TimeLeft(ts, id, now))
    && (tick.hasCallback ==> wait <= Remaining(tick.prevTime, tick.interval, now))
  }

  /** What the callbacks of an iteration do, and what other threads do while the loop sleeps and in between. */
  datatype Plan = Plan(
    asleep: seq<Step>,
    awake: seq<Step>,
    scripts: seq<seq<Step>>,
    others: seq<seq<Step>>,
    restoring: seq<Step>)

  /** How an iteration leaves the loop: going on, stopped, or halted by a check that failed in a callback. */
  datatype Course = Running | Ended | Halted

  ghost predicate Follows(course: Course, pc: Pc) {
    (course.Running? ==> pc.Top?) && (course.Ended? ==> pc.Stopped?)
  }

  // --- The steps one by one ------------------------------------------------------------------------

  lemma OperateStep(s: State, o: int, op: Operation)
    requires o in s.sources && Succeeds(s.sources[o], op)
    ensures Enabled(s, Step.Operate(o, op)) && Apply(s, Step.Operate(o, op)) == AfterOperation(s, o, op)
  {
  }

  lemma NotifyStep(s: State, o: int, d: Direction)
    requires (o, d) in s.owed && o in s.reactor.links
    ensures Enabled(s, Notify(o, d)) && Apply(s, Notify(o, d)) == Notified(s, o, d)
  {
  }

  lemma TimeStep(s: State, d: Word)
    requires Listed(s.timers) && NoWrap(s.timers, s.now, d)
    ensures Enabled(s, TimePasses(d)) && Apply(s, TimePasses(d)) == s.(now := Plus(s.now, d))
  {
  }

  lemma FlagStep(s: State)
    ensures Enabled(s, RequestStop) && Apply(s, RequestStop) == s.(flags := s.flags + {StopFlag})
    ensures Enabled(s, SetThreadFlag) && Apply(s, SetThreadFlag) == s.(flags := s.flags + {ThreadFlag})
  {
  }

  lemma SubscribeStep(s: State, i: int, o: int, d: Direction, edge: bool)
    requires Safe(s) && UserCode(s.pc) && o in s.sources && i != NULL && i !in s.reactor.items && o !in s.reactor.tree
    ensures o in s.reactor.links && Slot(s.reactor.links[o], d) == NULL
    ensures Enabled(s, Subscribe(i, o, d, edge))
    ensures var s', r := Apply(s, Subscribe(i, o, d, edge)), Subscribed(s.reactor, i, o, d, edge);
            && s' == s.(reactor := s'.reactor, flags := s'.flags)
            && if !edge && Level(s.sources[o], d) then s'.reactor == Queued(r, i) && s'.flags == s.flags + {Event}
               else s'.reactor == r && s'.flags == s.flags
  {
    assert LinkEntry(s.reactor, o, d);
  }

  lemma UnsubscribeStep(s: State, o: int)
    requires Safe(s) && UserCode(s.pc) && o in s.reactor.tree
    ensures TreeEntry(s.reactor, o) && o in s.sources && Enabled(s, Step.Unsubscribe(o))
    ensures Apply(s, Step.Unsubscribe(o)) == s.(reactor := Unsubscribed(s.reactor, o, Held(s.pc)))
  {
    assert TreeEntry(s.reactor, o);
  }

  lemma PendStep(s: State, callback: int)
    requires UserCode(s.pc)
    ensures Enabled(s, Pend(callback))
    ensures Apply(s, Pend(callback)) == s.(pending := [callback] + s.pending, flags := s.flags + {Pending})
  {
  }

  lemma ReturnStep(s: State)
    requires Safe(s) && s.pc.InCallback?
    ensures s.pc.item in s.reactor.items && Enabled(s, Return)
    ensures Apply(s, Return) ==
            s.(pc := if s.reactor.items[s.pc.item].edge then Finish(s.pc.item, Complete, s.pc.rest) else SecondCheck(s.pc.item, s.pc.rest))
  {
  }

  lemma LoopStep(s: State)
    requires Safe(s) && BeforeSync(s.pc) && !s.pc.InCallback?
    ensures CanProceed(s) && Enabled(s, Proceed) && Apply(s, Proceed) == EventStep(s)
  {
    NeverTouchesFreedItem(s);
  }

  lemma PopStep(s: State)
    requires Safe(s) && s.pc.PopItem?
    ensures Enabled(s, Proceed)
    ensures var w := s.reactor.waiting;
            if w == [] then Apply(s, Proceed) == s.(pc := Restore(s.pc.rest))
            else w[0] != NULL && Apply(s, Proceed) == s.(reactor := s.reactor.(waiting := w[1..]), pc := FirstCheck(w[0], s.pc.rest))
  {
    LoopStep(s);
    if s.reactor.waiting != [] {
      assert s.reactor.waiting[0] in s.reactor.waiting;
      assert ItemEntry(s.reactor, s.reactor.waiting[0], NULL);
    }
  }

  lemma LookStep(s: State)
    requires Safe(s) && (s.pc.FirstCheck? || s.pc.SecondCheck?)
    ensures s.pc.item in s.reactor.items && s.reactor.items[s.pc.item].obj in s.sources && Enabled(s, Proceed)
    ensures var i, item := s.pc.item, s.reactor.items[s.pc.item];
            var high := Level(s.sources[item.obj], item.direction);
            Apply(s, Proceed) ==
              s.(pc := if s.pc.SecondCheck? then Finish(i, if high then Incomplete else Complete, s.pc.rest)
                       else if item.edge || high then InCallback(i, s.pc.rest)
                       else Finish(i, Complete, s.pc.rest))
  {
    LoopStep(s);
  }

  lemma FinishStep(s: State)
    requires Safe(s) && s.pc.Finish?
    ensures s.pc.item in s.reactor.items && Enabled(s, Proceed)
    ensures Apply(s, Proceed) ==
            s.(pc := if !s.reactor.items[s.pc.item].owned then FreeItem(s.pc.item, s.pc.rest)
                     else if s.pc.status.Incomplete? then Requeue(s.pc.item, s.pc.rest)
                     else Sync(s.pc.rest))
  {
    LoopStep(s);
  }

  lemma ConcludeStep(s: State)
    requires Safe(s) && (s.pc.Requeue? || s.pc.Renotify? || s.pc.FreeItem? || s.pc.Sync?)
    ensures Enabled(s, Proceed)
    ensures s.pc.Requeue? ==> Apply(s, Proceed) == s.(reactor := Queued(s.reactor, s.pc.item), pc := Renotify(s.pc.rest))
    ensures s.pc.Renotify? ==> Apply(s, Proceed) == s.(flags := s.flags + {Event}, pc := Sync(s.pc.rest))
    ensures s.pc.FreeItem? ==>
              Apply(s, Proceed) == s.(reactor := s.reactor.(items := s.reactor.items - {s.pc.item}), pc := Sync(s.pc.rest))
    ensures s.pc.Sync? ==>
              Apply(s, Proceed) == s.(flags := if s.reactor.waiting != [] then s.flags + {Event} else s.flags, pc := Restore(s.pc.rest))
  {
    LoopStep(s);
  }

  lemma TracedSafe(start: State, trace: seq<Step>, machine: State)
    requires Traced(start, trace, machine)
    ensures Safe(machine) && TimersKept(machine.timers, machine.now) && ExpiryKept(machine) && (machine.pc.Stopped? || BitsKept(machine))
  {
  }

  lemma RestoreStep(s: State)
    requires s.pc.Restore?
    ensures Enabled(s, Proceed) && Apply(s, Proceed) == s.(flags := s.flags + s.pc.rest, pc := Top)
  {
  }

  lemma WaitStep(s: State)
    requires s.pc.Top?
    ensures s.flags != {} ==> Enabled(s, Wait) && Apply(s, Wait) == s.(flags := {}, pc := Branch(s.flags))
    ensures s.flags == {} ==> Enabled(s, TimeOut) && Apply(s, TimeOut) == s.(pc := TimedOut)
  {
  }

  lemma EnterStep(s: State)
    requires s.pc.Setup?
    ensures Enabled(s, Return)
    ensures Apply(s, Return) == s.(pc := Top, tick := if s.tick.hasCallback then s.tick.(prevTime := s.now) else s.tick)
  {
  }

  lemma TimerStep(s: State, id: int, periodic: bool)
    requires UserCode(s.pc) && id !in s.timers.table
    ensures Enabled(s, NewTimer(id, periodic))
    ensures Apply(s, NewTimer(id, periodic)) == s.(timers := Allocate(s.timers, id, periodic))
  {
  }

  lemma OrderStep(s: State, id: int, c: Command)
    requires UserCode(s.pc) && id in s.timers.table && CommandAllowed(s.timers.table[id], c)
    ensures Enabled(s, OrderTimer(id, c))
    ensures Apply(s, OrderTimer(id, c)) == s.(timers := Order(s.timers, id, c), flags := s.flags + {TimerFlag})
  {
  }

  lemma SetTickStep(s: State, interval: Word, hasCallback: bool)
    requires UserCode(s.pc) && (hasCallback ==> interval > 0)
    ensures Enabled(s, Step.SetTick(interval, hasCallback))
    ensures Apply(s, Step.SetTick(interval, hasCallback)) == s.(tick := Tick(interval, s.now, hasCallback))
  {
  }

  lemma DrainStep(s: State)
    requires TimersKept(s.timers, s.now) && (s.pc.DrainTimers? || (s.pc.Draining? && BitsKept(s)))
    ensures Enabled(s, Proceed)
    ensures s.pc.DrainTimers? ==>
              Apply(s, Proceed) == s.(pc := if s.timers.queue == [] then Restore(s.pc.rest) else Draining(s.now, s.pc.rest))
    ensures s.pc.Draining? ==>
              && Consistent(s.timers) && s.timers.queue != []
              && Apply(s, Proceed) == s.(timers := DrainOne(s.timers, s.pc.at, s.now), pc := DrainTimers(s.pc.rest))
  {
  }

  lemma PendingStep(s: State)
    requires s.pc.RunPending? || (s.pc.InPendingCallback? && BitsKept(s))
    ensures s.pc.RunPending? ==>
              Enabled(s, Proceed) && Apply(s, Proceed) == s.(pc := if s.pending == [] then Top else InPendingCallback)
    ensures s.pc.InPendingCallback? ==>
              && s.pending != [] && Enabled(s, Return)
              && Apply(s, Return) == s.(pc := RunPending, pending := s.pending[..|s.pending| - 1])
  {
  }

  /** Callbacks that are not an item's and not pending return to the top of the loop. */
  predicate PlainCallback(pc: Pc) {
    pc.InThreadFlagCallback? || pc.InTimerCallback? || pc.InTickCallback?
  }

  lemma PlainReturnStep(s: State)
    requires PlainCallback(s.pc)
    ensures Enabled(s, Return) && Apply(s, Return) == s.(pc := Top)
  {
  }

  lemma TickStep(s: State)
    requires s.pc.TickCheck?
    ensures Enabled(s, Proceed)
    ensures Apply(s, Proceed) ==
            if TickDue(s.tick, s.now) then s.(tick := ProcessTick(s.tick, s.now), pc := InTickCallback) else s.(pc := Top)
  {
  }

  lemma ExpiryStep(s: State)
    requires TimersKept(s.timers, s.now) && ExpiryKept(s) && (s.pc.TimedOut? || s.pc.Firing? || s.pc.Moving?)
    ensures Consistent(s.timers) && Enabled(s, Proceed)
    ensures s.pc.TimedOut? ==> Apply(s, Proceed) == s.(pc := if Due(s.timers, s.now) then Firing else TickCheck)
    ensures s.pc.Firing? ==> Apply(s, Proceed) == s.(pc := Moving(s.now))
    ensures s.pc.Moving? ==>
              && s.timers.list != []
              && (s.timers.table[s.timers.list[0]].periodic ==> s.timers.table[s.timers.list[0]].interval > 0)
              && Apply(s, Proceed) == s.(timers := Fire(s.timers, s.pc.at, s.now), pc := InTimerCallback)
  {
    if s.timers.list != [] {
      FrontPeriodPositive(s.timers, s.now);
    }
  }

  class FuriEventLoop {
    /** The sources, which exist before the loop and outlive it. */
    const objects: map<int, EventSource>

    var items: map<int, Item>
    var tree: map<int, int>
    var waiting: seq<int>
    var currentItem: int
    var pending: seq<int>
    var flags: set<Flag>

    /** The timers, the tick's bookkeeping and the kernel's tick counter. */
    const timers: TL.TimerLoop
    var tick: Tick
    var now: Word

    /** Where the other threads are: the notifications they have still to make. */
    var owed: multiset<(int, Direction)>

    ghost const start: State
    ghost var machine: State
    ghost var trace: seq<Step>

    ghost function Sources(): map<int, Source>
      reads objects.Values
    {
      map o | o in objects :: objects[o].state
    }

    ghost function Links(): map<int, Link>
      reads objects.Values
    {
      map o | o in objects :: objects[o].link
    }

    ghost function View(): Reactor
      reads this`items, this`tree, this`waiting, objects.Values
    {
      Reactor(items, tree, Links(), waiting)
    }

    ghost predicate Separate() {
      forall o, p :: o in objects && p in objects && o != p ==> objects[o] != objects[p]
    }

    /** The fields are those of the state machine's state. */
    ghost predicate Matches(s: State)
      reads this, objects.Values, timers
    {
      && s.sources == Sources() && s.reactor == View()
      && s.timers == timers.View() && s.tick == tick && s.now == now
      && s.flags == flags && s.pending == pending && s.owed == owed
      && currentItem == Current(s.pc)
    }

    ghost predicate Valid()
      reads this, objects.Values, timers
    {
      && Separate() && AllWithin(Sources())
      && Traced(start, trace, machine) && Matches(machine)
    }

    constructor (objects: map<int, EventSource>, now: Word)
      requires forall o :: o in objects ==> Within(objects[o].state) && objects[o].link == Link(NULL, NULL)
      requires forall o, p :: o in objects && p in objects && o != p ==> objects[o] != objects[p]
      ensures this.objects == objects && fresh(timers) && Valid() && trace == [] && machine.pc == Setup
    {
      hide Traced;
      this.objects := objects;
      timers := new TL.TimerLoop();
      tick, this.now := Tick(0, 0, false), now;
      items, tree, waiting, currentItem, pending, flags, owed := map[], map[], [], NULL, [], {}, multiset{};
      ghost var sources := map o | o in objects :: objects[o].state;
      ghost var links := map o | o in objects :: objects[o].link;
      Unlinked(objects, links, sources);
      StartTraced(sources, links, now);
      start, machine, trace := Allocated(sources, links, now), Allocated(sources, links, now), [];
      new;
      assert Sources() == sources && Links() == links && timers.View() == EMPTY;
    }

    /** One more critical section in the history. */
    ghost method Record(step: Step)
      requires Traced(start, trace, machine) && Enabled(machine, step)
      modifies `machine, `trace
      ensures Traced(start, trace, machine) && machine == Apply(old(machine), step) && Extended(old(trace), trace, step)
    {
      RunOneMore(start, trace, step);
      OneStepMore(trace, step);
      InvariantStep(machine, step);
      hide Iterations, Enabled, Apply, CanRun, After, Safe, Init, NoLostLevel, TimersKept, BitsKept;
      machine, trace := Apply(machine, step), trace + [step];
    }

    // --- Any thread --------------------------------------------------------------------------------

    method SetState(o: int, op: Operation) returns (ok: bool)
      requires Separate() && o in objects && AllWithin(Sources())
      modifies objects[o]
      ensures ok <==> Succeeds(old(Sources())[o], op)
      ensures Sources() == if ok then old(Sources())[o := Operated(old(Sources())[o], op)] else old(Sources())
      ensures Links() == old(Links()) && AllWithin(Sources())
    {
      hide Within, Succeeds, Operated;
      assert Within(Sources()[o]);
      ok := objects[o].Perform(op);
      forall p | p in objects && p != o ensures objects[p].state == old(objects[p].state) {
        assert objects[p] != objects[o];
      }
    }

    /** An operation on a source; a failed one changes nothing, a successful one owes its notification. */
    method Operate(o: int, op: Operation) returns (ok: bool)
      requires Valid()
      modifies this`owed, this`machine, this`trace, objects.Values
      ensures Valid() && (ok <==> o in objects && Succeeds(old(Sources())[o], op))
      ensures if ok then Extended(old(trace), trace, Step.Operate(o, op)) else trace == old(trace)
      ensures Undisturbed(old(machine), machine)
    {
      hide Traced, Succeeds, Operated, AllWithin, Held, UserCode, Enabled, Apply;
      ok := o in objects;
      if ok {
        ok := SetState(o, op);
      }
      if ok {
        OperateStep(machine, o, op);
        owed := owed + multiset{(o, Notifies(op))};
        Record(Step.Operate(o, op));
      }
    }

    /** Puts an item at the back unless it waits already. */
    method PushWaiting(i: int)
      modifies this`waiting
      ensures View() == Queued(old(View()), i)
    {
      if i !in waiting {
        waiting := waiting + [i];
      }
    }

    method ItemNotify(i: int)
      modifies this`waiting, this`flags
      ensures View() == Queued(old(View()), i) && flags == old(flags) + {Event}
    {
      PushWaiting(i);
      flags := flags + {Event};
    }

    /** Notifies the item in one slot of a link, if there is one. */
    method SlotNotify(link: Link, d: Direction)
      modifies this`waiting, this`flags
      ensures var i := Slot(link, d);
              if i == NULL then View() == old(View()) && flags == old(flags)
              else View() == Queued(old(View()), i) && flags == old(flags) + {Event}
    {
      if d == In {
        if link.itemIn != NULL {
          ItemNotify(link.itemIn);
        }
      } else {
        if link.itemOut != NULL {
          ItemNotify(link.itemOut);
        }
      }
    }

    /** The notification a thread owes after its operation; refused when it owes none. */
    method LinkNotify(o: int, d: Direction) returns (ok: bool)
      requires Valid()
      modifies this`owed, this`waiting, this`flags, this`now, this`machine, this`trace
      ensures Valid() && (ok <==> o in objects && (o, d) in old(owed))
      ensures if ok then Extended(old(trace), trace, Notify(o, d)) else trace == old(trace)
      ensures Undisturbed(old(machine), machine)
    {
      hide Traced, AllWithin, Queued, UserCode, Slot, Enabled, Apply, Separate, Safe, Current, Sources;
      ok := o in objects && (o, d) in owed;
      if ok {
        NotifyStep(machine, o, d);
        hide View, Sources, Links, Separate;
        SlotNotify(objects[o].link, d);
        owed := owed - multiset{(o, d)};
        Record(Notify(o, d));
        assert Valid();
      }
    }

    method Stop()
      requires Valid()
      modifies this`flags, this`machine, this`trace
      ensures Valid() && Extended(old(trace), trace, RequestStop) && Undisturbed(old(machine), machine)
    {
      hide Traced, AllWithin, Enabled, Apply;
      FlagStep(machine);
      flags := flags + {StopFlag};
      Record(RequestStop);
    }

    method ThreadFlagCallback()
      requires Valid()
      modifies this`flags, this`machine, this`trace
      ensures Valid() && Extended(old(trace), trace, SetThreadFlag) && Undisturbed(old(machine), machine)
    {
      hide Traced, AllWithin, Enabled, Apply;
      FlagStep(machine);
      flags := flags + {ThreadFlag};
      Record(SetThreadFlag);
    }

    /** The tick counter advances, as far as no listed timer's elapsed time wraps. */
    method Advance(d: Word)
      requires Valid()
      modifies this`now, this`machine, this`trace
      ensures Valid() && Undisturbed(old(machine), machine)
      ensures if NoWrap(timers.View(), old(now), d) then Extended(old(trace), trace, TimePasses(d)) else trace == old(trace)
    {
      hide AllWithin, Enabled, Apply, Traced, Safe, BitsKept, Held, UserCode;
      TracedSafe(start, trace, machine);
      if NoWrap(timers.View(), now, d) {
        TimeStep(machine, d);
        now := Plus(now, d);
        Record(TimePasses(d));
      }
    }

    /** One step of another thread; one it cannot take is skipped. */
    method ForeignCall(step: Step)
      requires Valid() && Foreign(step)
      modifies this`owed, this`waiting, this`flags, this`now, this`machine, this`trace, objects.Values
      ensures Valid() && Undisturbed(old(machine), machine) && Grown(old(trace), trace, 0)
    {
      hide Valid, Undisturbed;
      if step.Operate? {
        var ok := Operate(step.obj, step.operation);
      } else if step.Notify? {
        var ok := LinkNotify(step.obj, step.direction);
      } else if step.RequestStop? {
        Stop();
      } else if step.SetThreadFlag? {
        ThreadFlagCallback();
      } else {
        Advance(step.ticks);
      }
    }

    /** Other threads come in between. */
    method Interleave(steps: seq<Step>)
      requires Valid()
      modifies this`owed, this`waiting, this`flags, this`now, this`machine, this`trace, objects.Values
      ensures Valid() && Undisturbed(old(machine), machine) && Grown(old(trace), trace, 0)
    {
      hide Valid;
      for n := 0 to |steps|
        invariant Valid() && Undisturbed(old(machine), machine) && Grown(old(trace), trace, 0)
      {
        if Foreign(steps[n]) {
          ForeignCall(steps[n]);
        }
      }
    }

    // --- Application code on the loop thread -------------------------------------------------------

    method SetLink(o: int, d: Direction, i: int)
      requires Separate() && o in objects
      modifies objects[o]
      ensures Links() == old(Links())[o := SetSlot(old(Links())[o], d, i)] && Sources() == old(Sources())
    {
      if d == In {
        objects[o].link := objects[o].link.(itemIn := i);
      } else {
        objects[o].link := objects[o].link.(itemOut := i);
      }
      forall p | p in objects && p != o ensures objects[p].link == old(objects[p].link) {
        assert objects[p] != objects[o];
      }
    }

    method AddItem(i: int, o: int, d: Direction, edge: bool)
      requires Separate() && o in objects
      modifies this`items, this`tree, objects[o]
      ensures View() == Subscribed(old(View()), i, o, d, edge) && Sources() == old(Sources())
    {
      items := items[i := Item(o, d, edge, true)];
      tree := tree[o := i];
      SetLink(o, d, i);
    }

    /** A level that is high at subscription is queued at once. */
    method QueueIfHigh(i: int, o: int, d: Direction, edge: bool)
      requires o in objects
      modifies this`waiting, this`flags
      ensures if !edge && Level(Sources()[o], d) then View() == Queued(old(View()), i) && flags == old(flags) + {Event}
              else View() == old(View()) && flags == old(flags)
    {
      if !edge {
        var high := objects[o].GetLevel(d);
        if high {
          ItemNotify(i);
        }
      }
    }

    /** Lists a new item; `next` is the state that makes. */
    method Enlist(i: int, o: int, d: Direction, edge: bool, ghost next: State)
      requires Separate() && o in objects
      requires var r := Subscribed(View(), i, o, d, edge);
               if !edge && Level(Sources()[o], d) then next.reactor == Queued(r, i) && next.flags == flags + {Event}
               else next.reactor == r && next.flags == flags
      modifies this`items, this`tree, this`waiting, this`flags, objects[o]
      ensures Sources() == old(Sources()) && View() == next.reactor && flags == next.flags
    {
      hide Separate, Subscribed, Queued, Level, View, Sources, Links;
      AddItem(i, o, d, edge);
      QueueIfHigh(i, o, d, edge);
    }

    /** `ok` is false when a check fails and the system halts: exactly for an object subscribed already. */
    method ObjectSubscribe(i: int, o: int, d: Direction, edge: bool) returns (ok: bool)
      requires Valid() && UserCode(machine.pc) && o in objects && i != NULL && i !in items
      modifies this`items, this`tree, this`waiting, this`flags, this`machine, this`trace, objects.Values
      ensures Valid() && (ok <==> o !in old(tree)) && machine.pc == old(machine.pc)
      ensures if ok then Extended(old(trace), trace, Subscribe(i, o, d, edge)) else trace == old(trace)
    {
      hide AllWithin, Enabled, Apply, Traced, Safe, TimersKept, BitsKept, Queued, Subscribed, Level, Separate, Links, Current;
      ok := o !in tree;
      if !ok {
        return;
      }
      TracedSafe(start, trace, machine);
      assert o in machine.sources;
      SubscribeStep(machine, i, o, d, edge);
      hide View, UserCode, Sources;
      Enlist(i, o, d, edge, Apply(machine, Subscribe(i, o, d, edge)));
      Record(Subscribe(i, o, d, edge));
    }

    method UnlinkWaiting(i: int)
      modifies this`waiting
      ensures waiting == Unlink(old(waiting), i)
    {
      if i in waiting {
        var k := Index(waiting, i);
        waiting := waiting[..k] + waiting[k + 1..];
      }
    }

    method RemoveItem(o: int)
      requires Separate() && o in objects && o in tree && tree[o] in items
      modifies this`items, this`tree, this`waiting, objects[o]
      ensures View() == Unsubscribed(old(View()), o, currentItem) && Sources() == old(Sources())
    {
      hide SetSlot, Sources, Links, Unlink, Separate;
      var i := tree[o];
      tree := tree - {o};
      SetLink(o, items[i].direction, NULL);
      UnlinkWaiting(i);
      if currentItem == i {
        items := items[i := items[i].(owned := false)];
      } else {
        items := items - {i};
      }
    }

    /** Only an object without a subscription makes a check fail. */
    method Unsubscribe(o: int) returns (ok: bool)
      requires Valid() && UserCode(machine.pc)
      modifies this`items, this`tree, this`waiting, this`machine, this`trace, objects.Values
      ensures Valid() && (ok <==> o in old(tree)) && machine.pc == old(machine.pc)
      ensures if ok then Extended(old(trace), trace, Step.Unsubscribe(o)) else trace == old(trace)
    {
      hide AllWithin, Enabled, Apply, Traced, Safe, TimersKept, BitsKept, Separate, Links;
      ok := o in tree;
      if !ok {
        return;
      }
      TracedSafe(start, trace, machine);
      UnsubscribeStep(machine, o);
      CurrentIsHeld(machine.pc);
      hide View, UserCode, Sources, Links, Separate, Unsubscribed, Held, Current;
      RemoveItem(o);
      Record(Step.Unsubscribe(o));
    }

    method PendCallback(callback: int)
      requires Valid() && UserCode(machine.pc)
      modifies this`pending, this`flags, this`machine, this`trace
      ensures Valid() && machine.pc == old(machine.pc) && Extended(old(trace), trace, Pend(callback))
    {
      hide AllWithin, Traced, Enabled, Apply, Held;
      PendStep(machine, callback);
      pending := [callback] + pending;
      flags := flags + {Pending};
      Record(Pend(callback));
    }

    method TimerAlloc(id: int, periodic: bool)
      requires Valid() && UserCode(machine.pc) && id !in timers.table
      modifies this`machine, this`trace, timers
      ensures Valid() && machine.pc == old(machine.pc) && Extended(old(trace), trace, NewTimer(id, periodic))
    {
      hide AllWithin, Enabled, Apply, Traced, Safe, BitsKept, Separate, Links, Sources, Allocate, Consistent, Current;
      TracedSafe(start, trace, machine);
      TimerStep(machine, id, periodic);
      hide UserCode;
      timers.Alloc(id, periodic);
      Record(NewTimer(id, periodic));
    }

    method GiveOrder(id: int, command: Command) returns (ok: bool)
      requires Consistent(timers.View()) && id in timers.table
      modifies timers
      ensures ok <==> old(timers.table)[id].request != Free
      ensures ok ==> timers.View() == Order(old(timers.View()), id, command)
    {
      hide Consistent, Order;
      match command {
        case StartCommand(interval) => ok := timers.Start(id, interval);
        case RestartCommand => ok := timers.Restart(id);
        case StopCommand => ok := timers.Stop(id);
        case FreeCommand => ok := timers.FreeTimer(id);
      }
    }

    /** `ok` is false for a timer already freed, which halts the system.  A periodic timer must not be started with interval 0. */
    method TimerOrder(id: int, command: Command) returns (ok: bool)
      requires Valid() && UserCode(machine.pc) && id in timers.table
      requires timers.table[id].request != Free ==> CommandAllowed(timers.table[id], command)
      modifies this`flags, this`machine, this`trace, timers
      ensures ok <==> old(timers.table)[id].request != Free
      ensures Valid() && machine.pc == old(machine.pc)
      ensures if ok then Extended(old(trace), trace, OrderTimer(id, command)) else trace == old(trace)
    {
      hide AllWithin, Enabled, Apply, Traced, Safe, BitsKept, Separate, Links, Sources, Order, Consistent, CommandAllowed, Current;
      TracedSafe(start, trace, machine);
      if timers.table[id].request == Free {
        return false;
      }
      OrderStep(machine, id, command);
      hide UserCode;
      ok := GiveOrder(id, command);
      flags := flags + {TimerFlag};
      Record(OrderTimer(id, command));
    }

    /** `ok` is false when the check fails: a tick callback needs a positive interval. */
    method SetTick(interval: Word, hasCallback: bool) returns (ok: bool)
      requires Valid() && UserCode(machine.pc)
      modifies this`tick, this`machine, this`trace
      ensures Valid() && machine.pc == old(machine.pc) && (ok <==> (hasCallback ==> interval > 0))
      ensures if ok then Extended(old(trace), trace, Step.SetTick(interval, hasCallback)) else trace == old(trace)
    {
      hide AllWithin, Enabled, Apply, Traced, Separate, Links, Sources, Current;
      ok := hasCallback ==> interval > 0;
      if ok {
        SetTickStep(machine, interval, hasCallback);
        hide UserCode;
        tick := Tick(interval, now, hasCallback);
        Record(Step.SetTick(interval, hasCallback));
      }
    }

    /**
     One call of the application's own, or a step of another thread meanwhile.  `ok` is false when a check fails;
     the heap hands out addresses not in use, and a periodic timer is not started with interval 0.
     */
    method UserStep(step: Step) returns (ok: bool)
      requires Valid() && UserCode(machine.pc)
      modifies this, objects.Values, timers
      ensures Valid() && machine.pc == old(machine.pc) && Grown(old(trace), trace, 0)
    {
      hide Valid, UserCode, CommandAllowed;
      ok := true;
      if Foreign(step) {
        ForeignCall(step);
        return;
      }
      match step {
        case Subscribe(i, o, d, edge) =>
          ok := i != NULL && i !in items && o in objects;
          if ok {
            ok := ObjectSubscribe(i, o, d, edge);
          }
        case Unsubscribe(o) =>
          ok := Unsubscribe(o);
        case Pend(callback) =>
          PendCallback(callback);
        case NewTimer(id, periodic) =>
          ok := id !in timers.table;
          if ok {
            TimerAlloc(id, periodic);
          }
        case OrderTimer(id, command) =>
          ok := id in timers.table && (timers.table[id].request != Free ==> CommandAllowed(timers.table[id], command));
          if ok {
            ok := TimerOrder(id, command);
          }
        case SetTick(interval, hasCallback) =>
          ok := SetTick(interval, hasCallback);
        case _ =>
      }
    }

    /** The application's code: its own calls and, in between, other threads. */
    method RunUserCode(script: seq<Step>) returns (ok: bool)
      requires Valid() && UserCode(machine.pc)
      modifies this, objects.Values, timers
      ensures Valid() && machine.pc == old(machine.pc) && Grown(old(trace), trace, 0)
      ensures script == [] ==> ok && pending == old(pending)
    {
      hide Valid, UserCode;
      ok := true;
      for n := 0 to |script|
        invariant Valid() && machine.pc == old(machine.pc) && Grown(old(trace), trace, 0)
        invariant script == [] ==> pending == old(pending)
      {
        ok := UserStep(script[n]);
        if !ok {
          return;
        }
      }
    }

    // --- The loop thread -----------------------------------------------------------------------------

    /** The first waiting item, which is live and owned, or NULL from an empty list. */
    method GetWaitingItem() returns (i: int)
      requires Valid() && machine.pc.PopItem?
      modifies this`waiting, this`machine, this`trace
      ensures Valid() && Extended(old(trace), trace, Proceed)
      ensures i == NULL <==> old(waiting) == []
      ensures i == NULL ==> machine.pc == Restore(old(machine.pc).rest)
      ensures i != NULL ==> [i] + waiting == old(waiting) && machine.pc == FirstCheck(i, old(machine.pc).rest)
    {
      hide AllWithin, Enabled, Apply, Traced, Safe, TimersKept, BitsKept, Separate, Links, Consistent;
      TracedSafe(start, trace, machine);
      PopStep(machine);
      hide Links, Sources, Separate;
      i := NULL;
      if waiting != [] {
        i := waiting[0];
        waiting := waiting[1..];
      }
      Record(Proceed);
    }

    /** The level of the object an item is for. */
    method ReadLevel(i: int) returns (high: bool)
      requires Valid() && HasItem(machine.pc) && i == Held(machine.pc)
      ensures i in items && items[i].obj in Sources() && (high <==> Level(Sources()[items[i].obj], items[i].direction))
    {
      hide AllWithin, Level, TimersKept, BitsKept, Lifetime, HeldItemState, Separate;
      TracedSafe(start, trace, machine);
      high := objects[items[i].obj].GetLevel(items[i].direction);
    }

    /** The first look at an item: an edge item is called at once, a level item if its level is high. */
    method FirstLook(i: int) returns (call: bool)
      requires Valid() && machine.pc.FirstCheck? && i == machine.pc.item
      modifies this`currentItem, this`machine, this`trace
      ensures Valid() && Extended(old(trace), trace, Proceed) && currentItem == i
      ensures machine.pc == if call then InCallback(i, old(machine.pc).rest) else Finish(i, Complete, old(machine.pc).rest)
    {
      hide AllWithin, Enabled, Apply, Traced, Safe, TimersKept, BitsKept, Separate, Links, Consistent;
      TracedSafe(start, trace, machine);
      LookStep(machine);
      call := ReadLevel(i);
      call := items[i].edge || call;
      hide View, Sources, Links, Separate, Level;
      currentItem := i;
      Record(Proceed);
    }

    method LevelLook(i: int) returns (high: bool)
      requires Valid() && machine.pc.SecondCheck? && i == machine.pc.item
      modifies this`machine, this`trace
      ensures Valid() && Extended(old(trace), trace, Proceed)
      ensures machine.pc == Finish(i, if high then Incomplete else Complete, old(machine.pc).rest)
    {
      hide AllWithin, Enabled, Apply, Traced, Safe, TimersKept, BitsKept, Separate, Links, Consistent;
      TracedSafe(start, trace, machine);
      LookStep(machine);
      high := ReadLevel(i);
      hide View, Sources, Links, Separate, Level;
      Record(Proceed);
    }

    method CallbackReturns(i: int) returns (again: bool)
      requires Valid() && machine.pc.InCallback? && i == machine.pc.item
      modifies this`machine, this`trace
      ensures Valid() && Extended(old(trace), trace, Return)
      ensures machine.pc == if again then SecondCheck(i, old(machine.pc).rest) else Finish(i, Complete, old(machine.pc).rest)
    {
      hide AllWithin, Enabled, Apply, Traced, Safe, TimersKept, BitsKept, Separate, Links, Consistent;
      TracedSafe(start, trace, machine);
      ReturnStep(machine);
      again := !items[i].edge;
      hide View, Sources, Links, Separate;
      Record(Return);
    }

    /** The callback returned: a level item is looked at again. */
    method SecondLook(i: int, others: seq<Step>) returns (high: bool)
      requires Valid() && machine.pc.InCallback? && i == machine.pc.item
      modifies this`owed, this`waiting, this`flags, this`now, this`machine, this`trace, objects.Values
      ensures Valid() && Grown(old(trace), trace, 0)
      ensures machine.pc == Finish(i, if high then Incomplete else Complete, old(machine.pc).rest)
    {
      hide Valid;
      var again := CallbackReturns(i);
      high := false;
      if again {
        Interleave(others);
        high := LevelLook(i);
      }
    }

    /** Where the loop goes with an item, by the status of its processing. */
    function Onward(i: int, status: Status, rest: set<Flag>): Pc {
      match status
      case Complete => Sync(rest)
      case Incomplete => Requeue(i, rest)
      case FreeLater => FreeItem(i, rest)
    }

    /** The item's owner decides: unsubscribed in its own callback, it is to be freed. */
    method Judge(i: int, incomplete: bool) returns (status: Status)
      requires Valid() && machine.pc.Finish? && machine.pc.item == i
      requires machine.pc.status == if incomplete then Incomplete else Complete
      modifies this`currentItem, this`machine, this`trace
      ensures Valid() && Extended(old(trace), trace, Proceed)
      ensures machine.pc == Onward(i, status, old(machine.pc).rest)
    {
      hide AllWithin, Enabled, Apply, Traced, Safe, TimersKept, BitsKept, Separate, Links, Consistent;
      TracedSafe(start, trace, machine);
      FinishStep(machine);
      status := if !items[i].owned then FreeLater else if incomplete then Incomplete else Complete;
      hide View, Sources, Links, Separate;
      currentItem := NULL;
      Record(Proceed);
    }

    /** One item, whatever its callback does; `ok` is false when a check in the callback fails. */
    method ProcessEvent(i: int, script: seq<Step>, others: seq<seq<Step>>) returns (ok: bool, status: Status)
      requires Valid() && machine.pc.FirstCheck? && i == machine.pc.item
      modifies this, objects.Values, timers
      ensures Valid() && Grown(old(trace), trace, 0)
      ensures ok ==> machine.pc == Onward(i, status, old(machine.pc).rest)
    {
      hide Valid;
      var call := FirstLook(i);
      ok, status := true, Complete;
      var high := false;
      if call {
        ok := RunUserCode(script);
        if !ok {
          return;
        }
        high := SecondLook(i, At(others, 1));
      }
      Interleave(At(others, 2));
      status := Judge(i, high);
    }

    method PutBack(i: int)
      requires Valid() && machine.pc.Requeue? && i == machine.pc.item
      modifies this`waiting, this`machine, this`trace
      ensures Valid() && Extended(old(trace), trace, Proceed) && machine.pc == Renotify(old(machine.pc).rest)
    {
      hide AllWithin, Enabled, Apply, Traced, Safe, TimersKept, BitsKept, Separate, Links, Consistent;
      TracedSafe(start, trace, machine);
      hide Queued, View, Sources, Links, Separate;
      ConcludeStep(machine);
      PushWaiting(i);
      Record(Proceed);
    }

    method NotifyAgain()
      requires Valid() && machine.pc.Renotify?
      modifies this`flags, this`machine, this`trace
      ensures Valid() && Extended(old(trace), trace, Proceed) && machine.pc == Sync(old(machine.pc).rest)
    {
      hide AllWithin, Enabled, Apply, Traced, Safe, TimersKept, BitsKept, Separate, Links, Consistent;
      TracedSafe(start, trace, machine);
      hide View, Sources, Links, Separate;
      ConcludeStep(machine);
      flags := flags + {Event};
      Record(Proceed);
    }

    /** The deferred free of an item unsubscribed in its own callback. */
    method ItemFree(i: int)
      requires Valid() && machine.pc.FreeItem? && i == machine.pc.item
      modifies this`items, this`machine, this`trace
      ensures Valid() && Extended(old(trace), trace, Proceed) && machine.pc == Sync(old(machine.pc).rest)
    {
      hide AllWithin, Enabled, Apply, Traced, Safe, TimersKept, BitsKept, Separate, Links, Consistent;
      TracedSafe(start, trace, machine);
      hide Sources, Links, Separate;
      ConcludeStep(machine);
      items := items - {i};
      Record(Proceed);
    }

    method SyncFlags()
      requires Valid() && machine.pc.Sync?
      modifies this`flags, this`machine, this`trace
      ensures Valid() && Extended(old(trace), trace, Proceed) && machine.pc == Restore(old(machine.pc).rest)
      ensures waiting != [] ==> Event in flags
    {
      hide AllWithin, Enabled, Apply, Traced, Safe, TimersKept, BitsKept, Separate, Links, Consistent;
      TracedSafe(start, trace, machine);
      ConcludeStep(machine);
      hide Sources, Links, Separate;
      if waiting != [] {
        flags := flags + {Event};
      }
      Record(Proceed);
    }

    /** Carries out a status, then synchronises the Event bit with the list. */
    method Conclude(i: int, status: Status, others: seq<seq<Step>>)
      requires Valid() && machine.pc == Onward(i, status, Rest(machine.pc))
      modifies this`items, this`waiting, this`flags, this`owed, this`now, this`machine, this`trace, objects.Values
      ensures Valid() && Grown(old(trace), trace, 0) && machine.pc == Restore(Rest(old(machine.pc)))
    {
      hide Valid;
      match status {
        case Complete =>
        case Incomplete =>
          PutBack(i);
          Interleave(At(others, 3));
          NotifyAgain();
        case FreeLater =>
          ItemFree(i);
      }
      Interleave(At(others, 4));
      SyncFlags();
    }

    /**
     One call serves at most one item.  Whatever the callback does and whatever other threads do at the
     points in between, the call is a run of the state machine from the pop to the restoring of the bits,
     with the levels read from the sources themselves.
     */
    method ProcessWaitingList(script: seq<Step>, others: seq<seq<Step>>) returns (ok: bool)
      requires Valid() && machine.pc.PopItem?
      modifies this, objects.Values, timers
      ensures Valid() && Grown(old(trace), trace, 0)
      ensures ok ==> machine.pc == Restore(old(machine.pc).rest)
      ensures old(waiting) == [] ==> ok && Extended(old(trace), trace, Proceed)
    {
      hide Valid;
      var i := GetWaitingItem();
      ok := true;
      if i != NULL {
        Interleave(At(others, 0));
        var status;
        ok, status := ProcessEvent(i, script, others);
        if ok {
          Conclude(i, status, others);
        }
      }
    }

    method RestoreFlags(rest: set<Flag>)
      requires Valid() && machine.pc == Restore(rest)
      modifies this`flags, this`machine, this`trace
      ensures Valid() && Extended(old(trace), trace, Proceed) && machine.pc == Top && flags == old(flags) + rest
    {
      hide AllWithin, Enabled, Apply, Traced, Safe, TimersKept, BitsKept, Separate, Links, Consistent;
      TracedSafe(start, trace, machine);
      RestoreStep(machine);
      hide View, Sources, Links, Separate;
      if rest != {} {
        flags := flags + rest;
      }
      Record(Proceed);
    }

    // --- The other branches ---------------------------------------------------------------------------

    /** Is there a request?  If so, the clock is read for it. */
    method DrainLook() returns (more: bool, t: Word)
      requires Valid() && machine.pc.DrainTimers?
      modifies this`machine, this`trace
      ensures Valid() && Extended(old(trace), trace, Proceed) && (more <==> timers.queue != []) && t == now
      ensures machine.pc == if more then Draining(t, old(machine.pc).rest) else Restore(old(machine.pc).rest)
    {
      hide AllWithin, Enabled, Apply, Traced, Safe, TimersKept, BitsKept;
      hide Separate, Links, Sources, View, Consistent, DrainOne;
      TracedSafe(start, trace, machine);
      DrainStep(machine);
      more, t := timers.queue != [], now;
      Record(Proceed);
    }

    /** The first request is carried out, with the tick read for it. */
    method DrainTurn(t: Word)
      requires Valid() && machine.pc.Draining? && machine.pc.at == t
      modifies this`machine, this`trace, timers
      ensures Valid() && Extended(old(trace), trace, Proceed) && machine.pc == DrainTimers(old(machine.pc).rest)
      ensures old(timers.queue) != [] && timers.queue == old(timers.queue)[1..]
    {
      hide AllWithin, Enabled, Apply, Traced, Safe, TimersKept, BitsKept;
      hide Separate, Links, Sources, View, Consistent, DrainOne;
      TracedSafe(start, trace, machine);
      DrainStep(machine);
      TL.DrainShortens(machine.timers, t, now);
      timers.DrainRequest(t, now);
      Record(Proceed);
    }

    /** Every request is carried out, with the ticks read while other threads go on. */
    method ProcessTimerQueue(others: seq<seq<Step>>)
      requires Valid() && machine.pc.DrainTimers?
      modifies this`owed, this`waiting, this`flags, this`now, this`machine, this`trace, objects.Values, timers
      ensures Valid() && Grown(old(trace), trace, 0) && timers.queue == [] && machine.pc == Restore(old(machine.pc).rest)
    {
      hide Valid;
      var n := 0;
      var more, t := DrainLook();
      while more
        invariant Valid() && Grown(old(trace), trace, 0) && (more <==> timers.queue != [])
        invariant machine.pc == if more then Draining(t, old(machine.pc).rest) else Restore(old(machine.pc).rest)
        decreases |timers.queue|
      {
        Interleave(At(others, n));
        DrainTurn(t);
        more, t := DrainLook();
        n := n + 1;
      }
    }

    method PendingLook() returns (call: bool)
      requires Valid() && machine.pc.RunPending?
      modifies this`machine, this`trace
      ensures Valid() && Extended(old(trace), trace, Proceed) && (call <==> pending != [])
      ensures machine.pc == if call then InPendingCallback else Top
    {
      hide AllWithin, Enabled, Apply, Traced, Safe, TimersKept, BitsKept, Separate, Links, Sources, View;
      TracedSafe(start, trace, machine);
      PendingStep(machine);
      call := pending != [];
      Record(Proceed);
    }

    /** The entry leaves the queue after its callback has returned. */
    method PendingReturns()
      requires Valid() && machine.pc.InPendingCallback?
      modifies this`pending, this`machine, this`trace
      ensures Valid() && Extended(old(trace), trace, Return) && machine.pc == RunPending
      ensures old(pending) != [] && pending == old(pending)[..|old(pending)| - 1]
    {
      hide AllWithin, Enabled, Apply, Traced, Safe, TimersKept, BitsKept, Separate, Links, Sources, View;
      TracedSafe(start, trace, machine);
      PendingStep(machine);
      pending := pending[..|pending| - 1];
      Record(Return);
    }

    /** The pending callbacks run until none is left, those that they ask for included. */
    method ProcessPendingCallbacks(scripts: seq<seq<Step>>) returns (ok: bool)
      requires Valid() && machine.pc.RunPending?
      modifies this, objects.Values, timers
      ensures Valid() && Grown(old(trace), trace, 0) && (ok ==> machine.pc == Top && pending == [])
    {
      hide Valid;
      var n := 0;
      var more := PendingLook();
      while more
        invariant Valid() && Grown(old(trace), trace, 0) && n <= |scripts|
        invariant machine.pc == if more then InPendingCallback else Top
        invariant !more ==> pending == []
        decreases |scripts| - n, more, |pending|
      {
        ok := RunUserCode(At(scripts, n));
        if !ok {
          return;
        }
        n := if n < |scripts| then n + 1 else n;
        PendingReturns();
        more := PendingLook();
      }
      ok := true;
    }

    method CallbackDone()
      requires Valid() && PlainCallback(machine.pc)
      modifies this`machine, this`trace
      ensures Valid() && Extended(old(trace), trace, Return) && machine.pc == Top
    {
      hide AllWithin, Enabled, Apply, Traced, Safe, TimersKept, BitsKept, Separate, Links, Sources, View;
      PlainReturnStep(machine);
      Record(Return);
    }

    /** A callback of the thread flags, a timer or the tick. */
    method RunPlainCallback(script: seq<Step>) returns (ok: bool)
      requires Valid() && PlainCallback(machine.pc)
      modifies this, objects.Values, timers
      ensures Valid() && Grown(old(trace), trace, 0) && (ok ==> machine.pc == Top)
    {
      hide Valid;
      ok := RunUserCode(script);
      if ok {
        CallbackDone();
      }
    }

    /** Has the first timer run out? */
    method ExpiryLook() returns (due: bool)
      requires Valid() && machine.pc.TimedOut?
      modifies this`machine, this`trace
      ensures Valid() && Extended(old(trace), trace, Proceed) && machine.pc == if due then Firing else TickCheck
    {
      hide AllWithin, Enabled, Apply, Traced, Safe, TimersKept, BitsKept, Separate, Links, Sources, View, Consistent, Due;
      TracedSafe(start, trace, machine);
      ExpiryStep(machine);
      due := timers.FirstExpired(now);
      Record(Proceed);
    }

    /** The clock is read for the elapsed periods. */
    method PeriodsLook() returns (t: Word)
      requires Valid() && machine.pc.Firing?
      modifies this`machine, this`trace
      ensures Valid() && Extended(old(trace), trace, Proceed) && machine.pc == Moving(t)
    {
      hide AllWithin, Enabled, Apply, Traced, Safe, TimersKept, BitsKept, Separate, Links, Sources, View, Consistent, Due;
      TracedSafe(start, trace, machine);
      ExpiryStep(machine);
      t := now;
      Record(Proceed);
    }

    method Expire(t: Word)
      requires Valid() && machine.pc == Moving(t)
      modifies this`machine, this`trace, timers
      ensures Valid() && Extended(old(trace), trace, Proceed) && machine.pc == InTimerCallback
    {
      hide AllWithin, Enabled, Apply, Traced, Safe, TimersKept, BitsKept, Separate, Links, Sources, View, Consistent, Due, Fire;
      TracedSafe(start, trace, machine);
      ExpiryStep(machine);
      timers.FireFirst(t, now);
      Record(Proceed);
    }

    /** The clock is read for the test, for the elapsed periods and while scheduling, with other threads in between. */
    method ProcessExpiredTimers(before: seq<Step>, after: seq<Step>) returns (fired: bool)
      requires Valid() && machine.pc.TimedOut?
      modifies this`owed, this`waiting, this`flags, this`now, this`machine, this`trace, objects.Values, timers
      ensures Valid() && Grown(old(trace), trace, 0) && machine.pc == if fired then InTimerCallback else TickCheck
    {
      hide Valid;
      fired := ExpiryLook();
      if fired {
        Interleave(before);
        var t := PeriodsLook();
        Interleave(after);
        Expire(t);
      }
    }

    method TickLook() returns (call: bool)
      requires Valid() && machine.pc.TickCheck?
      modifies this`tick, this`machine, this`trace
      ensures Valid() && Extended(old(trace), trace, Proceed) && machine.pc == if call then InTickCallback else Top
      ensures call <==> TickDue(old(tick), now)
    {
      hide AllWithin, Enabled, Apply, Traced, Safe, TimersKept, BitsKept, Separate, Links, Sources, View;
      TickStep(machine);
      call := TickDue(tick, now);
      if call {
        tick := tick.(prevTime := Plus(tick.prevTime, tick.interval));
      }
      Record(Proceed);
    }

    // --- The loop ------------------------------------------------------------------------------------------

    /** The application's setup is over: furi_event_loop_run begins. */
    method Enter()
      requires Valid() && machine.pc.Setup?
      modifies this`tick, this`machine, this`trace
      ensures Valid() && Extended(old(trace), trace, Return) && machine.pc == Top
      ensures tick == if old(tick).hasCallback then old(tick).(prevTime := now) else old(tick)
    {
      hide AllWithin, Enabled, Apply, Traced, Safe, TimersKept, BitsKept, Separate, Links, Sources, View;
      EnterStep(machine);
      if tick.hasCallback {
        tick := tick.(prevTime := now);
      }
      Record(Return);
    }

    /** The wait reads and clears all bits at once, or times out with none set. */
    method Sleep() returns (read: set<Flag>)
      requires Valid() && machine.pc.Top?
      modifies this`flags, this`machine, this`trace
      ensures Valid() && read == old(flags) && flags == {}
      ensures Extended(old(trace), trace, if read == {} then TimeOut else Wait)
      ensures machine.pc == if read == {} then TimedOut else Branch(read)
    {
      hide AllWithin, Enabled, Apply, Traced, Safe, TimersKept, BitsKept, Separate, Links, Sources, View;
      WaitStep(machine);
      hide Branch;
      read := flags;
      flags := {};
      Record(if read == {} then TimeOut else Wait);
    }

    method TicksToSleep() returns (wait: Word)
      requires Valid()
      ensures SoonEnough(timers.View(), tick, now, wait)
    {
      hide Traced, Safe, BitsKept, Separate, AllWithin, Consistent, Sorted, Sources, View, Links, Current;
      TracedSafe(start, trace, machine);
      wait := timers.GetTimerWaitTime(now);
      var tickWait := TickWaitTime(tick, now);
      if tickWait < wait {
        wait := tickWait;
      }
    }

    /** The Event and Timer branches, which end with restoring the other bits. */
    method ServeQueues(read: set<Flag>, plan: Plan) returns (ok: bool)
      requires Valid() && StopFlag !in read && (Event in read || TimerFlag in read) && machine.pc == Branch(read)
      modifies this, objects.Values, timers
      ensures Valid() && Grown(old(trace), trace, 0) && (ok ==> machine.pc == Top)
    {
      hide Valid;
      ok := true;
      if Event in read {
        ok := ProcessWaitingList(At(plan.scripts, 0), plan.others);
        if !ok {
          return;
        }
      } else {
        ProcessTimerQueue(plan.others);
      }
      Interleave(plan.restoring);
      RestoreFlags(if Event in read then read - {Event} else read - {TimerFlag});
    }

    /** A timer that has run out or, without one, the tick. */
    method ServeTimeOut(plan: Plan) returns (ok: bool)
      requires Valid() && machine.pc.TimedOut?
      modifies this, objects.Values, timers
      ensures Valid() && Grown(old(trace), trace, 0) && (ok ==> machine.pc == Top)
    {
      hide Valid;
      var call := ProcessExpiredTimers(At(plan.others, 0), At(plan.others, 1));
      if !call {
        Interleave(At(plan.others, 2));
        call := TickLook();
      }
      ok := true;
      if call {
        ok := RunPlainCallback(At(plan.scripts, 0));
      }
    }

    /** The branch for the bits read. */
    method Serve(read: set<Flag>, plan: Plan) returns (ok: bool)
      requires Valid() && StopFlag !in read && machine.pc == if read == {} then TimedOut else Branch(read)
      modifies this, objects.Values, timers
      ensures Valid() && Grown(old(trace), trace, 0) && (ok ==> machine.pc.Top?)
    {
      hide Valid;
      if read == {} {
        ok := ServeTimeOut(plan);
      } else if Event in read || TimerFlag in read {
        ok := ServeQueues(read, plan);
      } else if Pending in read {
        ok := ProcessPendingCallbacks(plan.scripts);
      } else {
        ok := RunPlainCallback(At(plan.scripts, 0));
      }
    }

    /**
     One iteration of furi_event_loop_run, whatever the callbacks do and whatever other threads do while the
     loop sleeps and at the points in between.
     */
    method Iterate(plan: Plan) returns (course: Course, wait: Word)
      requires Valid() && machine.pc.Top?
      modifies this, objects.Values, timers
      ensures Valid() && Grown(old(trace), trace, 1) && Follows(course, machine.pc)
      ensures SoonEnough(old(timers.View()), old(tick), old(now), wait)
    {
      hide Valid, SoonEnough;
      wait := TicksToSleep();
      Interleave(plan.asleep);
      var read := Sleep();
      if StopFlag in read {
        return Ended, wait;
      }
      Interleave(plan.awake);
      var ok := Serve(read, plan);
      course := if ok then Running else Halted;
    }

    /** furi_event_loop_run for as many iterations as there are plans, unless it stops or halts earlier. */
    method Run(plans: seq<Plan>) returns (course: Course, n: nat)
      requires Valid() && machine.pc.Setup?
      modifies this, objects.Values, timers
      ensures Valid() && Grown(old(trace), trace, n) && Follows(course, machine.pc)
      ensures n <= |plans| && (course.Running? ==> n == |plans|)
    {
      hide Valid, SoonEnough;
      Enter();
      course, n := Running, 0;
      while n < |plans| && course.Running?
        invariant Valid() && Grown(old(trace), trace, n) && Follows(course, machine.pc) && n <= |plans|
      {
        var wait;
        course, wait := Iterate(plans[n]);
        n := n + 1;
      }
    }

    // --- What holds of the object at all times ---------------------------------------------------------

    /** Subscriptions are what the object's history says: item, direction and trigger kind. */
    lemma SubscribedAsAsked(o: int)
      requires Valid()
      ensures match LastSubscription(trace, o)
              case Nobody => o !in tree
              case By(i, d, edge) => o in objects && o in tree && tree[o] == i && i in items && items[i] == Item(o, d, edge, true)
    {
      SubscriptionsFromHistory(start, trace, o);
      assert o in machine.reactor.tree ==> TreeEntry(machine.reactor, o);
    }

    /** A high level of a level-triggered subscription is waiting, in hand, or some thread still owes its notification. */
    lemma NoLevelIsLost(o: int)
      requires Valid()
      ensures var x := LastSubscription(trace, o);
              x.By? && !x.edge ==>
                && o in objects
                && (Level(objects[o].state, x.direction) ==>
                      x.id in waiting || Covers(machine.pc, x.id) || (o, x.direction) in owed)
    {
      NoLevelEventIsLost(start, trace, o);
      hide Safe, CanRun, After, Init, Covers;
      assert o in objects ==> Sources()[o] == objects[o].state;
    }

    /** At the top of the loop, with no item in hand, the live items are the subscribed ones and a non-empty queue has its bit. */
    lemma TidyAtTop()
      requires Valid() && machine.pc.Top?
      ensures items.Keys == tree.Values && currentItem == NULL
      ensures (waiting != [] ==> Event in flags) && (pending != [] ==> Pending in flags) && (timers.queue != [] ==> TimerFlag in flags)
    {
      NothingLeaks(start, trace);
      QueuedWorkHasItsBit(start, trace);
    }
  }

  lemma {:induction false} RunGoesOn(s: State, before: seq<Step>, more: seq<Step>)
    requires CanRun(s, before) && CanRun(s, before + more)
    ensures CanRun(After(s, before), more) && Iterations(before + more) == Iterations(before) + Iterations(more)
    decreases |before|
  {
    hide Enabled, Apply;
    if before == [] {
      assert before + more == more;
    } else {
      assert (before + more)[1..] == before[1..] + more;
      RunGoesOn(Apply(s, before[0]), before[1..], more);
    }
  }

  /**
   Two moments in the life of a loop object, the first at the top of the loop.  A level-triggered subscription whose
   level is high at the first, with no notification owed for it, waits at some index k; once k + 2 iterations
   have begun, its callback has been started, unless the level fell, its object was unsubscribed or the loop stopped.
   */
  lemma ServedMeanwhile(start: State, before: seq<Step>, first: State, after: seq<Step>, last: State, o: int)
    requires Traced(start, before, first) && Traced(start, after, last) && before <= after && first.pc.Top?
    requires var x := LastSubscription(before, o);
             && x.By? && !x.edge && (o, x.direction) !in first.owed
             && o in first.sources && Level(first.sources[o], x.direction)
    ensures var x := LastSubscription(before, o);
            && x.id in first.reactor.waiting && CanRun(first, after[|before|..])
            && (Iterations(after) >= Iterations(before) + Index(first.reactor.waiting, x.id) + 2 ==>
                  !Unanswered(first, after[|before|..], o, x.id, x.direction, false))
  {
    var x, more := LastSubscription(before, o), after[|before|..];
    assert after == before + more;
    RunGoesOn(start, before, more);
    hide LoopInvariant, Safe, Init, After;
    HighLevelIsServed(start, before, [], o);
    if Unanswered(first, more, o, x.id, x.direction, false) {
      HighLevelIsServed(start, before, more, o);
    }
  }

  /** The life of an application: it allocates the loop, sets it up and runs it. */
  method RunApplication(objects: map<int, EventSource>, now: Word, setup: seq<Step>, plans: seq<Plan>)
    returns (loop: FuriEventLoop, course: Course)
    requires forall o :: o in objects ==> Within(objects[o].state) && objects[o].link == Link(NULL, NULL)
    requires forall o, p :: o in objects && p in objects && o != p ==> objects[o] != objects[p]
    modifies objects.Values
    ensures fresh(loop) && loop.objects == objects && loop.Valid() && Follows(course, loop.machine.pc)
  {
    loop := new FuriEventLoop(objects, now);
    var ok := loop.RunUserCode(setup);
    if !ok {
      return loop, Halted;
    }
    var n;
    course, n := loop.Run(plans);
  }
}
