/** Timers and the tick over whole runs: when they first fire, how often, and what they keep. */
module EventLoopTiming {
  import opened Sequences
  import opened Ticks
  import opened Timers
  import opened EventLoop
  import opened EventLoopSafety
  import opened EventLoopRuns

  // --- A periodic timer keeps its phase ---------------------------------------------------------------

  predicate Orders(step: Step, id: int) {
    step.OrderTimer? && step.id == id
  }

  /** A running periodic timer without a waiting request. */
  predicate Periodic(ts: Timers, id: int) {
    id in ts.table && ts.table[id].active && ts.table[id].periodic && ts.table[id].request == NoRequest
  }

  /** Timer `id` of a state. */
  function TimerOf(s: State, id: int): Timer
    requires Periodic(s.timers, id)
  {
    s.timers.table[id]
  }

  lemma DrainLeavesOthers(ts: Timers, t: Word, now: Word, id: int)
    requires Consistent(ts) && ts.queue != [] && id in ts.table && ts.table[id].request == NoRequest
    ensures id in DrainOne(ts, t, now).table && DrainOne(ts, t, now).table[id] == ts.table[id]
  {
    DrainUnlinks(ts);
  }

  /** Firing moves the first timer to its next period and leaves the others. */
  lemma FireMovesFirst(ts: Timers, t: Word, now: Word, id: int)
    requires TimersKept(ts, now) && Due(ts, t) && Periodic(ts, id)
    requires ts.table[ts.list[0]].periodic ==> ts.table[ts.list[0]].interval > 0
    ensures Periodic(Fire(ts, t, now), id)
    ensures ts.list[0] != id ==> Fire(ts, t, now).table[id] == ts.table[id]
    ensures ts.list[0] == id ==> ts.table[id].interval > 0 && InNextPeriod(ts.table[id], Fire(ts, t, now).table[id], t)
  {
    if ts.list[0] == id {
      FireKeepsPhase(ts, t, t, now);
    }
  }

  /** Only firing moves it, and by whole intervals to a deadline that is still to come. */
  lemma PhaseThroughStep(s: State, step: Step, id: int)
    requires TimersKept(s.timers, s.now) && ExpiryKept(s) && Enabled(s, step) && Periodic(s.timers, id) && !Orders(step, id)
    ensures Periodic(Apply(s, step).timers, id)
    ensures !Fires(s, step, id) ==> TimerOf(Apply(s, step), id) == TimerOf(s, id)
    ensures Fires(s, step, id) ==>
              TimerOf(s, id).interval > 0 && InNextPeriod(TimerOf(s, id), TimerOf(Apply(s, step), id), s.pc.at)
  {
    hide Sorted, PeriodPositive, InNextPeriod, Succeeds, Operated, Queued, Subscribed, Unsubscribed, Level, DrainOne, Fire, NoWrap, Unlink;
    if step.Proceed? && s.pc.Draining? {
      DrainLeavesOthers(s.timers, s.pc.at, s.now, id);
    } else if step.Proceed? && s.pc.Moving? {
      FireMovesFirst(s.timers, s.pc.at, s.now, id);
    }
  }

  /** How often the run fires timer `id`. */
  ghost function Firings(s: State, steps: seq<Step>, id: int): nat
    requires CanRun(s, steps)
    decreases |steps|
  {
    if steps == [] then 0 else (if Fires(s, steps[0], id) then 1 else 0) + Firings(Apply(s, steps[0]), steps[1..], id)
  }

  /** The tick `n` intervals after `start`. */
  function Periods(start: Word, interval: Word, n: nat): Word {
    (start + interval * n) % WRAP
  }

  lemma PeriodsAddUp(start: Word, interval: Word, k: nat, n: nat)
    ensures Periods(Periods(start, interval, k), interval, n) == Periods(start, interval, k + n)
  {
    var x, y := start + interval * k, interval * n;
    assert start + interval * (k + n) == x + y;
    RemainderOfSum(x, y);
  }

  lemma NoPeriods(start: Word, interval: Word)
    ensures Periods(start, interval, 0) == start
  {
    SmallMod(start);
  }

  lemma KeptTimers(s: State)
    requires LoopInvariant(s)
    ensures TimersKept(s.timers, s.now) && ExpiryKept(s)
  {
  }

  lemma RemainderOfSum(x: int, y: int)
    ensures (x % WRAP + y) % WRAP == (x + y) % WRAP
  {
  }

  lemma NextPeriodIsPeriods(was: Timer, moved: Timer, t: Word) returns (k: nat)
    requires was.interval > 0 && InNextPeriod(was, moved, t)
    ensures k >= 1 && moved == was.(startTime := Periods(was.startTime, was.interval, k))
  {
    k := Minus(t, was.startTime) / was.interval;
    SmallMod(was.startTime + was.interval * k);
  }

  /**
   As long as nobody gives it another order, a periodic timer's start stays a whole number of intervals
   after the tick it was started at, modulo 2^32: at least one interval for each time it fired.
   */
  lemma {:induction false} PhaseKept(s: State, steps: seq<Step>, id: int) returns (n: nat)
    requires LoopInvariant(s) && CanRun(s, steps) && Periodic(s.timers, id)
    requires forall k :: 0 <= k < |steps| ==> !Orders(steps[k], id)
    ensures Periodic(After(s, steps).timers, id)
    ensures var t := TimerOf(s, id);
            TimerOf(After(s, steps), id) == t.(startTime := Periods(t.startTime, t.interval, n))
    ensures Firings(s, steps, id) <= n && (Firings(s, steps, id) == 0 ==> n == 0)
    decreases |steps|
  {
    hide Enabled, Apply, LoopInvariant, InNextPeriod, Periods, Due, Periodic, Orders;
    var t := TimerOf(s, id);
    if steps == [] {
      NoPeriods(t.startTime, t.interval);
      return 0;
    }
    var s' := Apply(s, steps[0]);
    assert TimersKept(s.timers, s.now) && ExpiryKept(s) by { KeptTimers(s); }
    PhaseThroughStep(s, steps[0], id);
    InvariantStep(s, steps[0]);
    n := PhaseKept(s', steps[1..], id);
    if Fires(s, steps[0], id) {
      var k := NextPeriodIsPeriods(t, TimerOf(s', id), s.pc.at);
      PeriodsAddUp(t.startTime, t.interval, k, n);
      n := k + n;
    }
  }

  // --- When a timer fires -----------------------------------------------------------------------------

  /** The ticks that pass in the run. */
  function TicksIn(steps: seq<Step>): nat
    decreases |steps|
  {
    if steps == [] then 0 else (if steps[0].TimePasses? then steps[0].ticks else 0) + TicksIn(steps[1..])
  }

  /** Timer `id` is to be started with interval `n`; since it was ordered, `e` ticks passed. */
  predicate ToStart(s: State, id: int, n: Word, e: nat) {
    && id in s.timers.table && s.timers.table[id].request == Start && s.timers.table[id].nextInterval == n
    && (s.pc.Draining? && s.timers.queue != [] && s.timers.queue[0] == id ==> Minus(s.now, s.pc.at) <= e)
  }

  /** It runs; of the `e` ticks, `spent` went into firings and the elapsed time comes on top. */
  predicate Running(s: State, id: int, n: Word, spent: nat, e: nat) {
    id in s.timers.table
    && var t := s.timers.table[id];
       t.request == NoRequest && t.active && t.interval == n && spent + Minus(s.now, t.startTime) <= e
  }

  predicate Finished(s: State, id: int, spent: nat, e: nat) {
    id in s.timers.table && s.timers.table[id].request == NoRequest && !s.timers.table[id].active && spent <= e
  }

  predicate Paced(s: State, id: int, n: Word, spent: nat, e: nat) {
    (spent == 0 && ToStart(s, id, n, e)) || Running(s, id, n, spent, e) || Finished(s, id, spent, e)
  }

  /** A period later the elapsed time is shorter by at least the interval. */
  lemma MovedClock(was: Timer, moved: Timer, at: Word, now: Word)
    requires was.interval > 0 && InNextPeriod(was, moved, at) && ReadLater(was, at, now)
    ensures was.interval + Minus(now, moved.startTime) <= Minus(now, was.startTime)
  {
    var elapsed: int := Minus(at, was.startTime);
    var events := elapsed / was.interval;
    var whole := was.interval * events;
    assert whole <= elapsed && whole >= was.interval by {
      WholeIntervals(elapsed, was.interval);
    }
  }

  lemma WholeIntervals(elapsed: nat, n: nat)
    requires n > 0 && elapsed / n >= 1
    ensures n <= n * (elapsed / n) <= elapsed
  {
    assert elapsed == n * (elapsed / n) + elapsed % n;
  }

  /** Steps that neither carry out a request, nor fire a timer, nor let time pass, leave a timer without orders alone. */
  lemma TimerLeftAlone(s: State, step: Step, id: int)
    requires Enabled(s, step) && id in s.timers.table && !Orders(step, id)
    requires !step.TimePasses? && !(step.Proceed? && (s.pc.Draining? || s.pc.Moving?))
    ensures var s' := Apply(s, step);
            && id in s'.timers.table && s'.timers.table[id] == s.timers.table[id] && s'.now == s.now
            && (s'.pc.Draining? ==> s'.pc.at == s.now || (s'.pc == s.pc && s'.timers.queue == s.timers.queue))
  {
    hide Succeeds, Operated, Queued, Subscribed, Unsubscribed, Level, DrainOne, Fire, NoWrap, Unlink, Listed, Due;
  }

  lemma PacedAfterDrain(s: State, id: int, n: Word, spent: nat, e: nat)
    requires TimersKept(s.timers, s.now) && Enabled(s, Proceed) && s.pc.Draining? && Paced(s, id, n, spent, e)
    ensures Paced(Apply(s, Proceed), id, n, spent, e)
  {
    hide Sorted, PeriodPositive, DrainOne;
    var first := s.timers.queue[0];
    if first == id {
      assert id in Elements(s.timers.queue);
      DrainStartsClock(s.timers, s.pc.at, s.now);
    } else {
      DrainLeavesRest(s.timers, s.pc.at, s.now, id);
    }
  }

  lemma PacedAfterFire(s: State, id: int, n: Word, spent: nat, e: nat)
    requires TimersKept(s.timers, s.now) && ExpiryKept(s) && s.timers.queue == []
    requires Enabled(s, Proceed) && s.pc.Moving? && Paced(s, id, n, spent, e)
    ensures Paced(Apply(s, Proceed), id, n, spent + if Fires(s, Proceed, id) then n else 0, e)
  {
    hide Sorted, PeriodPositive, Fire, InNextPeriod;
    assert id in Requested(s.timers) ==> id in Elements(s.timers.queue);
    assert s.timers.list[0] in Elements(s.timers.list);
    FireChangesOnlyFirst(s.timers, s.pc.at, s.now);
    if s.timers.list[0] == id && s.timers.table[id].periodic {
      FireKeepsPhase(s.timers, s.pc.at, s.pc.at, s.now);
      MovedClock(s.timers.table[id], Apply(s, Proceed).timers.table[id], s.pc.at, s.now);
    }
  }

  lemma PacedStep(s: State, step: Step, id: int, n: Word, spent: nat, e: nat)
    requires LoopInvariant(s) && Enabled(s, step) && !Orders(step, id) && Paced(s, id, n, spent, e)
    ensures Paced(Apply(s, step), id, n, spent + (if Fires(s, step, id) then n else 0),
                  e + if step.TimePasses? then step.ticks else 0)
  {
    hide Safe, NoLostLevel, Consistent, Sorted, PeriodPositive;
    if step.TimePasses? {
      assert Apply(s, step) == s.(now := Plus(s.now, step.ticks));
    } else if step.Proceed? && s.pc.Draining? {
      PacedAfterDrain(s, id, n, spent, e);
    } else if step.Proceed? && s.pc.Moving? {
      PacedAfterFire(s, id, n, spent, e);
    } else {
      TimerLeftAlone(s, step, id);
    }
  }

  lemma PacedBound(s: State, id: int, n: Word, spent: nat, e: nat)
    requires Paced(s, id, n, spent, e)
    ensures spent <= e
  {
  }

  lemma OneMoreTime(k: nat, n: nat)
    ensures (1 + k) * n == n + k * n
  {
  }

  lemma {:induction false} PacedThrough(s: State, steps: seq<Step>, id: int, n: Word, spent: nat, e: nat)
    requires LoopInvariant(s) && CanRun(s, steps) && Paced(s, id, n, spent, e)
    requires forall k :: 0 <= k < |steps| ==> !Orders(steps[k], id)
    ensures spent + Firings(s, steps, id) * n <= e + TicksIn(steps)
    decreases |steps|
  {
    hide Enabled, Apply, LoopInvariant, Paced, Fires, Orders;
    if steps == [] {
      PacedBound(s, id, n, spent, e);
    } else {
      var fires := Fires(s, steps[0], id);
      InvariantStep(s, steps[0]);
      PacedStep(s, steps[0], id, n, spent, e);
      PacedThrough(Apply(s, steps[0]), steps[1..], id, n, spent + (if fires then n else 0),
                   e + if steps[0].TimePasses? then steps[0].ticks else 0);
      OneMoreTime(Firings(Apply(s, steps[0]), steps[1..], id), n);
    }
  }

  /** The interval that starting or restarting asks for. */
  function AskedInterval(t: Timer, c: Command): Word
    requires c.StartCommand? || c.RestartCommand?
  {
    if c.StartCommand? then c.interval else t.interval
  }

  lemma OrderedToStart(s: State, id: int, c: Command)
    requires Enabled(s, OrderTimer(id, c)) && (c.StartCommand? || c.RestartCommand?)
    ensures ToStart(Apply(s, OrderTimer(id, c)), id, AskedInterval(s.timers.table[id], c), 0)
  {
  }

  /**
   From the order that starts a timer with interval n on, without another order for it, a run in which it fires k
   times lets at least k * n ticks pass: it never fires early, neither at first nor later.
   */
  lemma FiringsTakeTime(s: State, id: int, c: Command, steps: seq<Step>)
    requires LoopInvariant(s) && Enabled(s, OrderTimer(id, c)) && (c.StartCommand? || c.RestartCommand?)
    requires CanRun(Apply(s, OrderTimer(id, c)), steps) && forall k :: 0 <= k < |steps| ==> !Orders(steps[k], id)
    ensures Firings(Apply(s, OrderTimer(id, c)), steps, id) * AskedInterval(s.timers.table[id], c) <= TicksIn(steps)
  {
    InvariantStep(s, OrderTimer(id, c));
    OrderedToStart(s, id, c);
    hide LoopInvariant, Enabled, Apply, ToStart, Firings, TicksIn;
    PacedThrough(Apply(s, OrderTimer(id, c)), steps, id, AskedInterval(s.timers.table[id], c), 0, 0);
  }

  // --- When it is due -----------------------------------------------------------------------------------

  /** The timer's request was taken up at a tick `e` ticks ago, or it was started at that tick. */
  predicate CountsFrom(s: State, id: int, n: Word, e: nat) {
    && id in s.timers.table && e < WRAP
    && var t := s.timers.table[id];
       if t.request == Start then
         t.nextInterval == n && s.pc.Draining? && s.timers.queue != [] && s.timers.queue[0] == id && Minus(s.now, s.pc.at) == e
       else t.request == NoRequest && t.active && t.interval == n && Minus(s.now, t.startTime) == e
  }

  lemma CountsFromStep(s: State, step: Step, id: int, n: Word, e: nat)
    requires LoopInvariant(s) && Enabled(s, step) && !Orders(step, id) && !Fires(s, step, id) && CountsFrom(s, id, n, e)
    requires e + (if step.TimePasses? then step.ticks else 0) < WRAP
    ensures CountsFrom(Apply(s, step), id, n, e + if step.TimePasses? then step.ticks else 0)
  {
    hide Safe, NoLostLevel, Sorted, PeriodPositive, DrainOne, Fire;
    if step.TimePasses? {
      assert Apply(s, step) == s.(now := Plus(s.now, step.ticks));
    } else if step.Proceed? && s.pc.Draining? {
      assert s.timers.queue[0] in Elements(s.timers.queue);
      if s.timers.queue[0] == id {
        DrainStartsClock(s.timers, s.pc.at, s.now);
      } else {
        DrainLeavesRest(s.timers, s.pc.at, s.now, id);
      }
    } else if step.Proceed? && s.pc.Moving? {
      FireChangesOnlyFirst(s.timers, s.pc.at, s.now);
    } else {
      hide Consistent;
      TimerLeftAlone(s, step, id);
    }
  }

  lemma {:induction false} CountsFromThrough(s: State, steps: seq<Step>, id: int, n: Word, e: nat)
    requires LoopInvariant(s) && CanRun(s, steps) && CountsFrom(s, id, n, e) && e + TicksIn(steps) < WRAP
    requires Firings(s, steps, id) == 0 && forall k :: 0 <= k < |steps| ==> !Orders(steps[k], id)
    ensures CountsFrom(After(s, steps), id, n, e + TicksIn(steps))
    decreases |steps|
  {
    hide Enabled, Apply, LoopInvariant, CountsFrom, Fires, Orders;
    if steps != [] {
      InvariantStep(s, steps[0]);
      CountsFromStep(s, steps[0], id, n, e);
      CountsFromThrough(Apply(s, steps[0]), steps[1..], id, n, e + if steps[0].TimePasses? then steps[0].ticks else 0);
    }
  }

  /**
   From the tick at which the drain takes up the request to start a timer, the time it has left counts down from the
   interval asked for, tick by tick, until it fires or gets another order: it is due after exactly that many ticks.
   */
  lemma StartedTimerCountsDown(s: State, steps: seq<Step>, id: int)
    requires LoopInvariant(s) && s.pc.DrainTimers? && s.timers.queue != [] && s.timers.queue[0] == id
    requires id in s.timers.table && s.timers.table[id].request == Start
    requires Enabled(s, Proceed) && CanRun(Apply(s, Proceed), steps) && TicksIn(steps) < WRAP
    requires Firings(Apply(s, Proceed), steps, id) == 0 && forall k :: 0 <= k < |steps| ==> !Orders(steps[k], id)
    ensures var last, n := After(Apply(s, Proceed), steps), s.timers.table[id].nextInterval;
            && id in last.timers.table
            && (last.timers.table[id].request == NoRequest ==>
                  && last.timers.table[id].active
                  && TimeLeft(last.timers, id, last.now) == if TicksIn(steps) < n then n - TicksIn(steps) else 0)
  {
    var s', n := Apply(s, Proceed), s.timers.table[id].nextInterval;
    InvariantStep(s, Proceed);
    assert CountsFrom(s', id, n, 0);
    hide LoopInvariant, Enabled, Apply, Firings, TicksIn;
    CountsFromThrough(s', steps, id, n, 0);
  }

  // --- What a timer keeps ---------------------------------------------------------------------------------

  lemma DrainKeepsKind(ts: Timers, t: Word, now: Word, id: int)
    requires Consistent(ts) && ts.queue != [] && id in DrainOne(ts, t, now).table
    ensures id in ts.table && DrainOne(ts, t, now).table[id].periodic == ts.table[id].periodic
  {
    DrainUnlinks(ts);
  }

  predicate Allocates(step: Step, id: int) {
    step.NewTimer? && step.id == id
  }

  lemma KindThroughStep(s: State, step: Step, id: int, periodic: bool)
    requires TimersKept(s.timers, s.now) && Enabled(s, step) && !Allocates(step, id)
    requires id in s.timers.table ==> s.timers.table[id].periodic == periodic
    ensures id in Apply(s, step).timers.table ==> Apply(s, step).timers.table[id].periodic == periodic
  {
    hide Sorted, PeriodPositive, Succeeds, Operated, Queued, Subscribed, Unsubscribed, Level, NoWrap, Unlink, Due, Fire, DrainOne;
    if step.Proceed? && s.pc.Moving? {
      FireChangesOnlyFirst(s.timers, s.pc.at, s.now);
    } else if step.Proceed? && s.pc.Draining? && id in Apply(s, step).timers.table {
      DrainKeepsKind(s.timers, s.pc.at, s.now, id);
    }
  }

  lemma {:induction false} KindThrough(s: State, steps: seq<Step>, id: int, periodic: bool)
    requires LoopInvariant(s) && CanRun(s, steps)
    requires forall k :: 0 <= k < |steps| ==> !Allocates(steps[k], id)
    requires id in s.timers.table ==> s.timers.table[id].periodic == periodic
    ensures LoopInvariant(After(s, steps))
    ensures id in After(s, steps).timers.table ==> After(s, steps).timers.table[id].periodic == periodic
    decreases |steps|
  {
    hide Enabled, Apply, LoopInvariant, TimersKept;
    if steps != [] {
      KeptTimers(s);
      KindThroughStep(s, steps[0], id, periodic);
      InvariantStep(s, steps[0]);
      KindThrough(Apply(s, steps[0]), steps[1..], id, periodic);
    }
  }

  /** A timer that fires is listed again exactly when it was allocated as periodic, and keeps its interval either way. */
  lemma ListedAgainIfPeriodic(s: State, id: int, periodic: bool, steps: seq<Step>)
    requires LoopInvariant(s) && Enabled(s, NewTimer(id, periodic)) && CanRun(Apply(s, NewTimer(id, periodic)), steps)
    requires forall k :: 0 <= k < |steps| ==> !Allocates(steps[k], id)
    requires var last := After(Apply(s, NewTimer(id, periodic)), steps);
             Enabled(last, Proceed) && Fires(last, Proceed, id)
    ensures var last := After(Apply(s, NewTimer(id, periodic)), steps);
            var next := Apply(last, Proceed);
            && id in last.timers.table && id in next.timers.table
            && (id in next.timers.list <==> periodic) && (next.timers.table[id].active <==> periodic)
            && next.timers.table[id].interval == last.timers.table[id].interval
  {
    var s' := Apply(s, NewTimer(id, periodic));
    InvariantStep(s, NewTimer(id, periodic));
    assert s'.timers.table[id].periodic == periodic;
    KindThrough(s', steps, id, periodic);
    var last := After(s', steps);
    FiredKeepsSettings(last, id);
  }

  lemma FiredKeepsSettings(s: State, id: int)
    requires LoopInvariant(s) && Enabled(s, Proceed) && Fires(s, Proceed, id)
    ensures var next := Apply(s, Proceed);
            && id in s.timers.table && s.timers.table[id].active && id in next.timers.table
            && (id in next.timers.list <==> s.timers.table[id].periodic)
            && (next.timers.table[id].active <==> s.timers.table[id].periodic)
            && next.timers.table[id].interval == s.timers.table[id].interval
  {
    FrontPeriodPositive(s.timers, s.now);
    FireChangesOnlyFirst(s.timers, s.pc.at, s.now);
  }

  /** What a step makes of a timer's existence, activity and interval: orders have their effect, and a one-shot timer that fires ends. */
  lemma OutcomeThroughStep(s: State, step: Step, id: int)
    requires LoopInvariant(s) && Enabled(s, step) && id in s.timers.table
    ensures OutcomeOf(Apply(s, step).timers, id) ==
            if Orders(step, id) then Effect(s.timers.table[id], step.command)
            else if Fires(s, step, id) && !s.timers.table[id].periodic then Kept(false, s.timers.table[id].interval)
            else OutcomeOf(s.timers, id)
  {
    hide Safe, NoLostLevel, Sorted, PeriodPositive, DrainOne, Fire, Due;
    if step.Proceed? && s.pc.Draining? {
      DrainKeepsOutcomes(s.timers, s.pc.at, s.now, id);
    } else if step.Proceed? && s.pc.Moving? {
      assert id in Requested(s.timers) ==> id in Elements(s.timers.queue);
      FireChangesOnlyFirst(s.timers, s.pc.at, s.now);
    } else if Orders(step, id) {
      OrderHasEffect(s.timers, id, step.command);
    } else if !step.TimePasses? {
      TimerLeftAlone(s, step, id);
    }
  }

  lemma OrderHasEffect(ts: Timers, id: int, c: Command)
    requires id in ts.table
    ensures OutcomeOf(Order(ts, id, c), id) == Effect(ts.table[id], c)
  {
  }

  // --- The tick ---------------------------------------------------------------------------------------------

  ghost predicate CallsTick(s: State, step: Step)
    requires Enabled(s, step)
  {
    s.pc.TickCheck? && Apply(s, step).pc.InTickCallback?
  }

  ghost function TickCalls(s: State, steps: seq<Step>): nat
    requires CanRun(s, steps)
    decreases |steps|
  {
    if steps == [] then 0 else (if CallsTick(s, steps[0]) then 1 else 0) + TickCalls(Apply(s, steps[0]), steps[1..])
  }

  predicate TickPaced(s: State, n: Word, spent: nat, e: nat) {
    s.tick.interval == n && spent + Minus(s.now, s.tick.prevTime) <= e
  }

  lemma TickPacedStep(s: State, step: Step, n: Word, spent: nat, e: nat)
    requires Enabled(s, step) && !step.SetTick? && TickPaced(s, n, spent, e)
    ensures TickPaced(Apply(s, step), n, spent + (if CallsTick(s, step) then n else 0), e + if step.TimePasses? then step.ticks else 0)
  {
    hide Succeeds, Operated, Queued, Subscribed, Unsubscribed, Level, DrainOne, Fire, NoWrap, Unlink, Listed, Due;
    if step.Proceed? && s.pc.TickCheck? {
      TickPaysOneInterval(s.tick, s.now);
    }
  }

  lemma {:induction false} TickPacedThrough(s: State, steps: seq<Step>, n: Word, spent: nat, e: nat)
    requires CanRun(s, steps) && TickPaced(s, n, spent, e)
    requires forall k :: 0 <= k < |steps| ==> !steps[k].SetTick?
    ensures spent + TickCalls(s, steps) * n <= e + TicksIn(steps)
    decreases |steps|
  {
    hide Enabled, Apply, CallsTick;
    if steps != [] {
      var ticks := CallsTick(s, steps[0]);
      TickPacedStep(s, steps[0], n, spent, e);
      TickPacedThrough(Apply(s, steps[0]), steps[1..], n, spent + (if ticks then n else 0),
                       e + if steps[0].TimePasses? then steps[0].ticks else 0);
      OneMoreTime(TickCalls(Apply(s, steps[0]), steps[1..]), n);
    }
  }

  /** From setting the tick on, a run in which it is called k times lets at least k intervals pass. */
  lemma TickCallsTakeTime(s: State, n: Word, hasCallback: bool, steps: seq<Step>)
    requires Enabled(s, SetTick(n, hasCallback)) && CanRun(Apply(s, SetTick(n, hasCallback)), steps)
    requires forall k :: 0 <= k < |steps| ==> !steps[k].SetTick?
    ensures TickCalls(Apply(s, SetTick(n, hasCallback)), steps) * n <= TicksIn(steps)
  {
    assert TickPaced(Apply(s, SetTick(n, hasCallback)), n, 0, 0);
    hide Enabled, Apply;
    TickPacedThrough(Apply(s, SetTick(n, hasCallback)), steps, n, 0, 0);
  }

  // --- What wakes the loop is served --------------------------------------------------------------------------

  lemma RunFirst(s: State, step: Step, steps: seq<Step>)
    requires Enabled(s, step) && CanRun(Apply(s, step), steps)
    ensures CanRun(s, [step] + steps) && After(s, [step] + steps) == After(Apply(s, step), steps)
  {
    hide Enabled, Apply;
    assert ([step] + steps)[1..] == steps;
  }

  lemma TimerCalledAfterTimeOut(s: State)
    requires TimersKept(s.timers, s.now) && s.pc.TimedOut? && Due(s.timers, s.now)
    ensures CanRun(s, [Proceed, Proceed, Proceed]) && After(s, [Proceed, Proceed, Proceed]).pc == InTimerCallback
  {
    var s1, s2 := s.(pc := Firing), s.(pc := Moving(s.now));
    TimerFoundDue(s);
    TimerMoves(s2);
    hide Enabled, Apply, TimersKept, CanRun, After;
    ThreeSteps(s, Proceed, s1, Proceed, s2, Proceed);
  }

  lemma TimerFoundDue(s: State)
    requires Listed(s.timers) && s.pc.TimedOut? && Due(s.timers, s.now)
    ensures Enabled(s, Proceed) && Apply(s, Proceed) == s.(pc := Firing)
    ensures Enabled(s.(pc := Firing), Proceed) && Apply(s.(pc := Firing), Proceed) == s.(pc := Moving(s.now))
  {
    hide Listed, Fire, DrainOne;
  }

  lemma TimerMoves(s: State)
    requires TimersKept(s.timers, s.now) && s.pc.Moving? && s.timers.list != []
    ensures Enabled(s, Proceed) && Apply(s, Proceed).pc == InTimerCallback
  {
    FrontPeriodPositive(s.timers, s.now);
    hide Sorted, PeriodPositive, Fire;
  }

  lemma TickCalledAfterTimeOut(s: State)
    requires Listed(s.timers) && s.pc.TimedOut? && !Due(s.timers, s.now) && TickDue(s.tick, s.now)
    ensures CanRun(s, [Proceed, Proceed]) && After(s, [Proceed, Proceed]).pc == InTickCallback
  {
    hide Fire, CanRun, After;
    var s1 := s.(pc := TickCheck);
    assert Enabled(s, Proceed) && Apply(s, Proceed) == s1;
    assert Enabled(s1, Proceed) && Apply(s1, Proceed).pc == InTickCallback;
    TwoSteps(s, s1);
  }

  lemma TwoSteps(s: State, s1: State)
    requires Enabled(s, Proceed) && Apply(s, Proceed) == s1 && Enabled(s1, Proceed)
    ensures CanRun(s, [Proceed, Proceed]) && After(s, [Proceed, Proceed]) == Apply(s1, Proceed)
  {
    hide Enabled, Apply;
    assert [Proceed, Proceed][1..] == [Proceed] && [Proceed][1..] == [];
    assert CanRun(s1, [Proceed]) && After(s1, [Proceed]) == Apply(s1, Proceed);
  }

  /** With the first timer due or the tick due, timing out leads to its callback. */
  lemma CallsAfterTimeOut(s: State) returns (steps: seq<Step>)
    requires LoopInvariant(s) && s.pc.TimedOut?
    requires Consistent(s.timers) && (Due(s.timers, s.now) || TickDue(s.tick, s.now))
    ensures (forall k :: 0 <= k < |steps| ==> steps[k] == Proceed) && CanRun(s, steps)
    ensures After(s, steps).pc == if Due(s.timers, s.now) then InTimerCallback else InTickCallback
  {
    hide Enabled, Apply, CanRun, After, Due, TickDue;
    if Due(s.timers, s.now) {
      TimerCalledAfterTimeOut(s);
      steps := [Proceed, Proceed, Proceed];
    } else {
      TickCalledAfterTimeOut(s);
      steps := [Proceed, Proceed];
    }
  }

  /**
   A loop about to sleep for a finite time with no bits set, and left alone, calls a timer back when it wakes, or
   else the tick, in steps of its own.
   */
  lemma SleptOutIsServed(s: State) returns (steps: seq<Step>)
    requires LoopInvariant(s) && s.pc.Top? && s.flags == {} && Consistent(s.timers)
    requires SleepTime(s.timers, s.tick, s.now) < WAIT_FOREVER
    ensures |steps| >= 2 && steps[0] == TimePasses(SleepTime(s.timers, s.tick, s.now)) && steps[1] == TimeOut
    ensures forall k :: 2 <= k < |steps| ==> steps[k] == Proceed
    ensures CanRun(s, steps) && (After(s, steps).pc.InTimerCallback? || After(s, steps).pc.InTickCallback?)
  {
    var wait := SleepTime(s.timers, s.tick, s.now);
    SleepEndsInWork(s.timers, s.tick, s.now);
    var s1 := s.(now := Plus(s.now, wait));
    var s2 := s1.(pc := TimedOut);
    assert Enabled(s, TimePasses(wait)) && Apply(s, TimePasses(wait)) == s1;
    InvariantStep(s, TimePasses(wait));
    assert Enabled(s1, TimeOut) && Apply(s1, TimeOut) == s2;
    InvariantStep(s1, TimeOut);
    hide LoopInvariant, Enabled, Apply;
    var more := CallsAfterTimeOut(s2);
    RunFirst(s1, TimeOut, more);
    RunFirst(s, TimePasses(wait), [TimeOut] + more);
    steps := [TimePasses(wait)] + ([TimeOut] + more);
  }
}
