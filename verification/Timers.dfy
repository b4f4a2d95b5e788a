/** 32-bit tick arithmetic. */
module Ticks {
  const WRAP: int := 0x1_0000_0000
  const WAIT_FOREVER: int := 0xFFFF_FFFF

  type Word = x: int | 0 <= x < 0x1_0000_0000

  function Plus(a: Word, d: Word): Word {
    if a + d < WRAP then a + d else a + d - WRAP
  }

  function Minus(a: Word, b: Word): Word {
    if a >= b then a - b else a - b + WRAP
  }

  /** What is left of `interval` at tick `now` when it began at `start`, and 0 from then on. */
  function Remaining(start: Word, interval: Word, now: Word): Word {
    var elapsed := Minus(now, start);
    if elapsed < interval then interval - elapsed else 0
  }

  predicate Expired(start: Word, interval: Word, now: Word) {
    Minus(now, start) >= interval
  }

  /** As the tick counter advances and wraps, the remaining time counts down and stops at 0. */
  lemma RemainingCountsDown(start: Word, interval: Word, now: Word, d: Word)
    requires Minus(now, start) + d < WRAP
    ensures Minus(Plus(now, d), start) == Minus(now, start) + d
    ensures Remaining(start, interval, Plus(now, d)) ==
            if Remaining(start, interval, now) > d then Remaining(start, interval, now) - d else 0
  {
  }
}

/**
 The timers of furi/core/event_loop_timer.c and the tick of furi/core/event_loop_tick.c, as values:
 the timer table, the list of active timers and the queue of requests not yet carried out.
 */
module Timers {
  import opened Sequences
  import opened Ticks

  datatype Request = NoRequest | Start | Stop | Free

  datatype Timer = Timer(interval: Word, startTime: Word, nextInterval: Word, request: Request, active: bool, periodic: bool)

  datatype Timers = Timers(table: map<int, Timer>, list: seq<int>, queue: seq<int>)

  const EMPTY := Timers(map[], [], [])

  function TimeLeft(ts: Timers, id: int, now: Word): Word
    requires id in ts.table
  {
    Remaining(ts.table[id].startTime, ts.table[id].interval, now)
  }

  // --- Operations --------------------------------------------------------------------------

  function Allocate(ts: Timers, id: int, periodic: bool): Timers {
    ts.(table := ts.table[id := Timer(0, 0, 0, NoRequest, false, periodic)])
  }

  /** A new request replaces the one that is still waiting. */
  function Enqueue(ts: Timers, id: int, request: Request): Timers
    requires id in ts.table
  {
    var t := ts.table[id];
    var queue := if t.request != NoRequest then Unlink(ts.queue, id) else ts.queue;
    ts.(table := ts.table[id := t.(request := request)], queue := queue + [id])
  }

  datatype Command = StartCommand(interval: Word) | RestartCommand | StopCommand | FreeCommand

  /** furi_event_loop_timer_start, _restart, _stop and _free. */
  function Order(ts: Timers, id: int, c: Command): Timers
    requires id in ts.table
  {
    var t := ts.table[id];
    match c
    case StartCommand(interval) => Enqueue(ts.(table := ts.table[id := t.(nextInterval := interval)]), id, Start)
    case RestartCommand => Enqueue(ts.(table := ts.table[id := t.(nextInterval := t.interval)]), id, Start)
    case StopCommand => Enqueue(ts, id, Stop)
    case FreeCommand => Enqueue(ts, id, Free)
  }

  /** Scanning from the back, the position after the first timer that has no more time left than `left`. */
  function Place(s: seq<int>, table: map<int, Timer>, left: Word, now: Word): (k: nat)
    requires forall i :: 0 <= i < |s| ==> s[i] in table
    ensures k <= |s|
    ensures k > 0 ==> Remaining(table[s[k - 1]].startTime, table[s[k - 1]].interval, now) <= left
    ensures forall i :: k <= i < |s| ==> left < Remaining(table[s[i]].startTime, table[s[i]].interval, now)
  {
    if s == [] then 0
    else
      var last := table[s[|s| - 1]];
      if left >= Remaining(last.startTime, last.interval, now) then |s| else Place(s[..|s| - 1], table, left, now)
  }

  ghost predicate Listed(ts: Timers) {
    forall i :: 0 <= i < |ts.list| ==> ts.list[i] in ts.table
  }

  function Schedule(ts: Timers, id: int, now: Word): Timers
    requires Listed(ts) && id in ts.table
  {
    ts.(list := With(ts.list, Place(ts.list, ts.table, TimeLeft(ts, id, now), now), id))
  }

  /** Takes the head off the queue and, while the request is carried out, off the list. */
  function Popped(ts: Timers): Timers
    requires ts.queue != [] && ts.queue[0] in ts.table
  {
    var id := ts.queue[0];
    ts.(queue := ts.queue[1..], list := if ts.table[id].active then Unlink(ts.list, id) else ts.list)
  }

  /** The head of the queue, started at tick `t` with its requested interval and not yet listed. */
  function Started(ts: Timers, t: Word): Timers
    requires ts.queue != [] && ts.queue[0] in ts.table
  {
    var id := ts.queue[0];
    var timer := ts.table[id];
    Popped(ts).(table := ts.table[id := timer.(active := true, interval := timer.nextInterval, startTime := t, request := NoRequest)])
  }

  /** Carries out the request at the head of the queue; the start time was read at tick `t`. */
  function DrainOne(ts: Timers, t: Word, now: Word): Timers
    requires Consistent(ts) && ts.queue != []
  {
    var id := ts.queue[0];
    assert id in Elements(ts.queue);
    match ts.table[id].request
    case Start =>
      UnlinkListed(ts, id);
      Schedule(Started(ts, t), id, now)
    case Stop => Popped(ts).(table := ts.table[id := ts.table[id].(active := false, request := NoRequest)])
    case Free => Popped(ts).(table := ts.table - {id})
    case NoRequest => Popped(ts)
  }

  /** Whether the first timer in the list has run out. */
  predicate Due(ts: Timers, now: Word)
    requires Listed(ts)
  {
    ts.list != [] && Expired(ts.table[ts.list[0]].startTime, ts.table[ts.list[0]].interval, now)
  }

  /** The start time after a late period: moved by the whole periods elapsed at tick `t`. */
  function CaughtUp(timer: Timer, t: Word): Word
    requires timer.interval > 0
  {
    var events := Minus(t, timer.startTime) / timer.interval;
    (timer.startTime + timer.interval * events) % WRAP
  }

  /** Takes the due timer off the list and, when periodic, lists it for its next period. */
  function Fire(ts: Timers, t: Word, now: Word): Timers
    requires Listed(ts) && ts.list != []
    requires ts.table[ts.list[0]].periodic ==> ts.table[ts.list[0]].interval > 0
  {
    var id := ts.list[0];
    var timer := ts.table[id];
    var ts1 := ts.(list := ts.list[1..]);
    if timer.periodic then
      Schedule(ts1.(table := ts.table[id := timer.(startTime := CaughtUp(timer, t))]), id, now)
    else
      ts1.(table := ts.table[id := timer.(active := false)])
  }

  function WaitTime(ts: Timers, now: Word): Word
    requires Listed(ts)
  {
    if ts.list == [] then WAIT_FOREVER else TimeLeft(ts, ts.list[0], now)
  }

  // --- Bookkeeping -------------------------------------------------------------------------

  ghost function Requested(ts: Timers): set<int> {
    set id | id in ts.table && ts.table[id].request != NoRequest
  }

  ghost function Active(ts: Timers): set<int> {
    set id | id in ts.table && ts.table[id].active
  }

  /** Each requested timer is queued once, each active timer is listed once, and no others are. */
  ghost predicate Consistent(ts: Timers) {
    && Distinct(ts.queue) && Elements(ts.queue) == Requested(ts)
    && Distinct(ts.list) && Elements(ts.list) == Active(ts)
    && Listed(ts)
  }

  lemma UnlinkListed(ts: Timers, id: int)
    requires Listed(ts)
    ensures forall i :: 0 <= i < |Unlink(ts.list, id)| ==> Unlink(ts.list, id)[i] in ts.table
  {
    if id in ts.list {
      WithoutAt(ts.list, Index(ts.list, id));
    }
  }

  lemma AllocateConsistent(ts: Timers, id: int, periodic: bool)
    requires Consistent(ts) && id !in ts.table
    ensures Consistent(Allocate(ts, id, periodic))
  {
    var c := Allocate(ts, id, periodic);
    assert Requested(c) == Requested(ts);
    assert Active(c) == Active(ts);
  }

  lemma EnqueueConsistent(ts: Timers, id: int, request: Request)
    requires Consistent(ts) && id in ts.table && request != NoRequest
    ensures Consistent(Enqueue(ts, id, request))
  {
    var c := Enqueue(ts, id, request);
    assert Requested(c) == Requested(ts) + {id};
    assert Active(c) == Active(ts);
    UnlinkElements(ts.queue, id);
    var queue := if ts.table[id].request != NoRequest then Unlink(ts.queue, id) else ts.queue;
    assert id !in queue by {
      assert id !in Elements(queue);
    }
    AppendElements(queue, id);
  }

  lemma OrderConsistent(ts: Timers, id: int, c: Command)
    requires Consistent(ts) && id in ts.table
    ensures Consistent(Order(ts, id, c))
  {
    if c.StartCommand? || c.RestartCommand? {
      var next := if c.StartCommand? then c.interval else ts.table[id].interval;
      var ts1 := ts.(table := ts.table[id := ts.table[id].(nextInterval := next)]);
      assert Requested(ts1) == Requested(ts) && Active(ts1) == Active(ts);
      EnqueueConsistent(ts1, id, Start);
    } else {
      EnqueueConsistent(ts, id, if c.StopCommand? then Stop else Free);
    }
  }

  /** Listing a timer that was not listed. */
  lemma ScheduleConsistent(ts: Timers, id: int, now: Word)
    requires Distinct(ts.list) && Listed(ts) && id in ts.table && id !in ts.list
    requires Elements(ts.list) + {id} == Active(ts)
    requires Distinct(ts.queue) && Elements(ts.queue) == Requested(ts)
    ensures Consistent(Schedule(ts, id, now))
  {
    var k := Place(ts.list, ts.table, TimeLeft(ts, id, now), now);
    WithDistinct(ts.list, k, id);
    var c := Schedule(ts, id, now);
    assert Requested(c) == Requested(ts) && Active(c) == Active(ts);
    forall i | 0 <= i < |c.list| ensures c.list[i] in c.table {
      assert c.list[i] in Elements(c.list);
    }
  }

  lemma HeadUnlinked(s: seq<int>)
    requires s != [] && Distinct(s)
    ensures Distinct(s[1..]) && Elements(s[1..]) == Elements(s) - {s[0]} && s[0] !in s[1..]
  {
    assert s == [s[0]] + s[1..];
  }

  lemma DrainUnlinks(ts: Timers)
    requires Consistent(ts) && ts.queue != []
    ensures var id := ts.queue[0];
            && id in ts.table && id in Requested(ts)
            && Distinct(Popped(ts).queue) && Elements(Popped(ts).queue) == Requested(ts) - {id}
            && Distinct(Popped(ts).list) && Elements(Popped(ts).list) == Active(ts) - {id} && id !in Popped(ts).list
            && forall i :: 0 <= i < |Popped(ts).list| ==> Popped(ts).list[i] in ts.table && Popped(ts).list[i] != id
  {
    var id := ts.queue[0];
    assert id in Elements(ts.queue);
    HeadUnlinked(ts.queue);
    UnlinkElements(ts.list, id);
    var list := Popped(ts).list;
    assert Elements(list) == Active(ts) - {id};
    forall i | 0 <= i < |list| ensures list[i] in ts.table && list[i] != id {
      assert list[i] in Elements(list);
    }
    assert id !in list by {
      assert id !in Elements(list);
    }
  }

  lemma DrainStartConsistent(ts: Timers, t: Word, now: Word)
    requires Consistent(ts) && ts.queue != []
    ensures ts.queue[0] in ts.table && Listed(Started(ts, t)) && Consistent(Schedule(Started(ts, t), ts.queue[0], now))
  {
    DrainUnlinks(ts);
    var id, ts2 := ts.queue[0], Started(ts, t);
    assert Requested(ts2) == Requested(ts) - {id};
    assert Active(ts2) == Active(ts) + {id};
    ScheduleConsistent(ts2, id, now);
  }

  lemma DrainEndConsistent(ts: Timers, t: Word, now: Word)
    requires Consistent(ts) && ts.queue != []
    requires ts.queue[0] in ts.table && ts.table[ts.queue[0]].request != Start
    ensures Consistent(DrainOne(ts, t, now))
  {
    DrainUnlinks(ts);
    var id, c := ts.queue[0], DrainOne(ts, t, now);
    assert Requested(c) == Requested(ts) - {id};
    assert Active(c) == Active(ts) - {id};
  }

  lemma DrainOneConsistent(ts: Timers, t: Word, now: Word)
    requires Consistent(ts) && ts.queue != []
    ensures Consistent(DrainOne(ts, t, now))
  {
    assert ts.queue[0] in Elements(ts.queue);
    if ts.table[ts.queue[0]].request == Start {
      DrainStartConsistent(ts, t, now);
    } else {
      DrainEndConsistent(ts, t, now);
    }
  }

  lemma FireConsistent(ts: Timers, t: Word, now: Word)
    requires Consistent(ts) && ts.list != []
    requires ts.table[ts.list[0]].periodic ==> ts.table[ts.list[0]].interval > 0
    ensures Consistent(Fire(ts, t, now))
  {
    var id := ts.list[0];
    assert id in Elements(ts.list);
    HeadUnlinked(ts.list);
    var timer, c := ts.table[id], Fire(ts, t, now);
    if timer.periodic {
      var ts1 := ts.(list := ts.list[1..], table := ts.table[id := timer.(startTime := CaughtUp(timer, t))]);
      assert Requested(ts1) == Requested(ts) && Active(ts1) == Active(ts);
      ScheduleConsistent(ts1, id, now);
    } else {
      assert Requested(c) == Requested(ts) && Active(c) == Active(ts) - {id};
    }
  }

  // --- Order in time ------------------------------------------------------------------------

  /** Listed timer `i` has no less time left than the one before it. */
  ghost predicate InOrder(ts: Timers, i: int, now: Word)
    requires Listed(ts) && 0 < i < |ts.list|
  {
    TimeLeft(ts, ts.list[i - 1], now) <= TimeLeft(ts, ts.list[i], now)
  }

  ghost predicate Sorted(ts: Timers, now: Word)
    requires Listed(ts)
  {
    forall i {:trigger InOrder(ts, i, now)} :: 0 < i < |ts.list| ==> InOrder(ts, i, now)
  }

  /** No listed timer's elapsed time reaches 2^32 within the next `d` ticks. */
  predicate NoWrap(ts: Timers, now: Word, d: Word)
    requires Listed(ts)
  {
    forall i :: 0 <= i < |ts.list| ==> Minus(now, ts.table[ts.list[i]].startTime) + d < WRAP
  }

  /** The order survives the passing of time, across wrap-arounds of the tick counter. */
  lemma SortedAsTimePasses(ts: Timers, now: Word, d: Word)
    requires Listed(ts) && Sorted(ts, now) && NoWrap(ts, now, d)
    ensures Sorted(ts, Plus(now, d))
  {
    forall i | 0 < i < |ts.list| ensures InOrder(ts, i, Plus(now, d)) {
      var a, b := ts.table[ts.list[i - 1]], ts.table[ts.list[i]];
      RemainingCountsDown(a.startTime, a.interval, now, d);
      RemainingCountsDown(b.startTime, b.interval, now, d);
      assert InOrder(ts, i, now);
    }
  }

  /** A timer left unprocessed for 2^32 ticks looks new again, and the order is lost. */
  lemma WrapBreaksOrder()
    ensures exists ts: Timers, now: Word, d: Word ::
              Consistent(ts) && Sorted(ts, now) && !NoWrap(ts, now, d) && !Sorted(ts, Plus(now, d))
  {
    var a := Timer(10, 1, 10, NoRequest, true, false);
    var b := Timer(5, 0xFFFF_FFFF, 5, NoRequest, true, false);
    var ts := Timers(map[0 := a, 1 := b], [0, 1], []);
    assert ts.list[0] == 0 && ts.list[1] == 1;
    assert TimeLeft(ts, ts.list[0], 0) == 0 && TimeLeft(ts, ts.list[1], 0) == 4;
    assert TimeLeft(ts, ts.list[0], 1) == 10 && TimeLeft(ts, ts.list[1], 1) == 3;
    assert Plus(0, 1) == 1 && !InOrder(ts, 1, 1);
    assert Consistent(ts) by {
      assert Elements(ts.list) == {0, 1} == Active(ts);
      assert Requested(ts) == {};
    }
    assert Consistent(ts) && Sorted(ts, 0) && !NoWrap(ts, 0, 1) && !Sorted(ts, Plus(0, 1));
  }

  lemma ScheduleSorted(ts: Timers, id: int, now: Word)
    requires Listed(ts) && id in ts.table && Sorted(ts, now)
    ensures Listed(Schedule(ts, id, now)) && Sorted(Schedule(ts, id, now), now)
  {
    var s, c := ts.list, Schedule(ts, id, now);
    var k := Place(s, ts.table, TimeLeft(ts, id, now), now);
    WithAt(s, k, id);
    forall i | 0 <= i < |c.list| ensures c.list[i] in c.table {
    }
    forall i | 0 < i < |c.list| ensures InOrder(c, i, now) {
      assert i < k ==> InOrder(ts, i, now);
      assert i > k + 1 ==> InOrder(ts, i - 1, now);
    }
  }

  lemma UnlinkSorted(ts: Timers, id: int, now: Word)
    requires Listed(ts) && Sorted(ts, now)
    ensures Listed(ts.(list := Unlink(ts.list, id))) && Sorted(ts.(list := Unlink(ts.list, id)), now)
  {
    if id in ts.list {
      var k, c := Index(ts.list, id), ts.(list := Unlink(ts.list, id));
      WithoutAt(ts.list, k);
      forall i | 0 < i < |c.list| ensures InOrder(c, i, now) {
        assert i <= k ==> InOrder(ts, i, now);
        assert i >= k ==> InOrder(ts, i + 1, now);
      }
    }
  }

  /** Only start times and intervals of listed timers matter to the order. */
  lemma SameTimesSorted(ts: Timers, ts': Timers, now: Word)
    requires Listed(ts) && Sorted(ts, now) && ts'.list == ts.list
    requires forall i :: 0 <= i < |ts.list| ==>
               && ts.list[i] in ts'.table
               && ts'.table[ts.list[i]].startTime == ts.table[ts.list[i]].startTime
               && ts'.table[ts.list[i]].interval == ts.table[ts.list[i]].interval
    ensures Listed(ts') && Sorted(ts', now)
  {
    forall i | 0 < i < |ts.list| ensures InOrder(ts', i, now) {
      assert InOrder(ts, i, now);
    }
  }

  lemma DrainOneSorted(ts: Timers, t: Word, now: Word)
    requires Consistent(ts) && ts.queue != [] && Sorted(ts, now)
    ensures Listed(DrainOne(ts, t, now)) && Sorted(DrainOne(ts, t, now), now)
  {
    DrainUnlinks(ts);
    var id := ts.queue[0];
    UnlinkSorted(ts, id, now);
    var ts1 := ts.(list := Popped(ts).list);
    if ts.table[id].request == Start {
      SameTimesSorted(ts1, Started(ts, t), now);
      ScheduleSorted(Started(ts, t), id, now);
    } else {
      SameTimesSorted(ts1, DrainOne(ts, t, now), now);
    }
  }

  lemma FireSorted(ts: Timers, t: Word, now: Word)
    requires Consistent(ts) && ts.list != [] && Sorted(ts, now)
    requires ts.table[ts.list[0]].periodic ==> ts.table[ts.list[0]].interval > 0
    ensures Listed(Fire(ts, t, now)) && Sorted(Fire(ts, t, now), now)
  {
    var id := ts.list[0];
    HeadUnlinked(ts.list);
    var timer, c := ts.table[id], Fire(ts, t, now);
    var ts1 := ts.(list := ts.list[1..]);
    forall i | 0 < i < |ts1.list| ensures InOrder(ts1, i, now) {
      assert InOrder(ts, i + 1, now);
    }
    forall i | 0 <= i < |ts1.list| ensures ts1.list[i] in ts.table && ts1.list[i] != id {
      assert ts1.list[i] == ts.list[i + 1];
    }
    if timer.periodic {
      var ts2 := ts1.(table := ts.table[id := timer.(startTime := CaughtUp(timer, t))]);
      SameTimesSorted(ts1, ts2, now);
      ScheduleSorted(ts2, id, now);
    } else {
      SameTimesSorted(ts1, c, now);
    }
  }

  // --- Periodic timers ------------------------------------------------------------------------

  /** However late it fires, a periodic timer keeps its phase and its next deadline is at most one interval away. */
  lemma NoDrift(timer: Timer, t: Word)
    requires timer.interval > 0 && Expired(timer.startTime, timer.interval, t)
    ensures var events := Minus(t, timer.startTime) / timer.interval;
            var start := CaughtUp(timer, t);
            && events >= 1
            && timer.interval * events < WRAP
            && start == Plus(timer.startTime, timer.interval * events)
            && !Expired(start, timer.interval, t)
            && 0 < Remaining(start, timer.interval, t) <= timer.interval
            && Minus(t, start) == Minus(t, timer.startTime) % timer.interval
  {
    var elapsed: int := Minus(t, timer.startTime);
    var events := elapsed / timer.interval;
    assert elapsed == timer.interval * events + elapsed % timer.interval;
    assert events >= 1 by {
      if events == 0 {
        assert false;
      }
    }
    var moved := timer.interval * events;
    assert 0 <= moved <= elapsed;
    assert (timer.startTime + moved) % WRAP == Plus(timer.startTime, moved) by {
      SmallMod(timer.startTime + moved);
    }
  }

  /** Tick `t` is read no earlier than tick `first`, on the timer's clock. */
  predicate ReadLater(timer: Timer, first: Word, t: Word) {
    Minus(first, timer.startTime) <= Minus(t, timer.startTime)
  }

  /** `moved` is timer `was` in its next period, as seen at tick `t`. */
  ghost predicate InNextPeriod(was: Timer, moved: Timer, t: Word)
    requires was.interval > 0
  {
    var events := Minus(t, was.startTime) / was.interval;
    && moved == was.(startTime := moved.startTime)
    && events >= 1 && was.interval * events < WRAP
    && moved.startTime == Plus(was.startTime, was.interval * events)
    && !Expired(moved.startTime, moved.interval, t)
    && 0 < Remaining(moved.startTime, moved.interval, t) <= moved.interval
  }

  /** A periodic timer found due at tick `first` and moved at a later tick `t` is moved to its next period. */
  lemma FireKeepsPhase(ts: Timers, first: Word, t: Word, now: Word)
    requires Listed(ts) && Due(ts, first)
    requires var timer := ts.table[ts.list[0]];
             timer.periodic && timer.interval > 0 && ReadLater(timer, first, t)
    ensures ts.list[0] in Fire(ts, t, now).table
    ensures InNextPeriod(ts.table[ts.list[0]], Fire(ts, t, now).table[ts.list[0]], t)
  {
    NoDrift(ts.table[ts.list[0]], t);
  }

  /**
   Firing changes no timer's interval, request or kind: of the first timer it changes the start when periodic and the
   activity when not, of the others nothing.  A periodic timer is listed again, another one is not.
   */
  lemma FireChangesOnlyFirst(ts: Timers, t: Word, now: Word)
    requires Consistent(ts) && ts.list != []
    requires ts.table[ts.list[0]].periodic ==> ts.table[ts.list[0]].interval > 0
    ensures var fired, id := Fire(ts, t, now), ts.list[0];
            && fired.queue == ts.queue && fired.table.Keys == ts.table.Keys
            && (forall j :: j in ts.table && j != id ==> fired.table[j] == ts.table[j])
            && fired.table[id] == (if ts.table[id].periodic then ts.table[id].(startTime := fired.table[id].startTime)
                                   else ts.table[id].(active := false))
            && (id in fired.list <==> ts.table[id].periodic)
  {
    FireConsistent(ts, t, now);
    var fired, id := Fire(ts, t, now), ts.list[0];
    assert id in Elements(ts.list);
    assert id in Elements(fired.list) <==> id in Active(fired);
  }

  /** The timer at the head of the queue, started with the tick read, runs with its requested interval from that tick on. */
  lemma DrainStartsClock(ts: Timers, t: Word, now: Word)
    requires Consistent(ts) && ts.queue != [] && ts.queue[0] in ts.table && ts.table[ts.queue[0]].request == Start
    ensures var id, done := ts.queue[0], DrainOne(ts, t, now);
            && id in done.table && id in done.list
            && done.table[id] == ts.table[id].(active := true, interval := ts.table[id].nextInterval, startTime := t, request := NoRequest)
            && TimeLeft(done, id, t) == ts.table[id].nextInterval
  {
    DrainOneConsistent(ts, t, now);
    var id, done := ts.queue[0], DrainOne(ts, t, now);
    assert id in Elements(done.list) <==> id in Active(done);
  }

  lemma DrainLeavesRest(ts: Timers, t: Word, now: Word, id: int)
    requires Consistent(ts) && ts.queue != [] && id in ts.table && id != ts.queue[0]
    ensures id in DrainOne(ts, t, now).table && DrainOne(ts, t, now).table[id] == ts.table[id]
  {
    DrainUnlinks(ts);
  }

  lemma SmallMod(x: int)
    requires 0 <= x < 2 * WRAP
    ensures x % WRAP == if x < WRAP then x else x - WRAP
  {
  }

  // --- Requests and their effect ----------------------------------------------------------------

  /** What a timer amounts to once its request is carried out. */
  datatype Outcome = Gone | Kept(active: bool, interval: Word)

  function Settled(t: Timer): Outcome {
    match t.request
    case NoRequest => Kept(t.active, t.interval)
    case Start => Kept(true, t.nextInterval)
    case Stop => Kept(false, t.interval)
    case Free => Gone
  }

  function OutcomeOf(ts: Timers, id: int): Outcome {
    if id in ts.table then Settled(ts.table[id]) else Gone
  }

  lemma DrainKeepsOutcomes(ts: Timers, t: Word, now: Word, id: int)
    requires Consistent(ts) && ts.queue != []
    ensures OutcomeOf(DrainOne(ts, t, now), id) == OutcomeOf(ts, id)
  {
    DrainUnlinks(ts);
  }

  /** furi_event_loop_process_timer_queue, with the ticks each turn of its loop reads. */
  ghost function Drain(ts: Timers, ticks: seq<(Word, Word)>): (r: Timers)
    requires Consistent(ts) && |ticks| == |ts.queue|
    ensures Consistent(r) && r.queue == []
    decreases |ticks|
  {
    if ts.queue == [] then ts
    else
      DrainOneConsistent(ts, ticks[0].0, ticks[0].1);
      Drain(DrainOne(ts, ticks[0].0, ticks[0].1), ticks[1..])
  }

  lemma {:induction false} DrainSettles(ts: Timers, ticks: seq<(Word, Word)>, id: int)
    requires Consistent(ts) && |ticks| == |ts.queue|
    ensures OutcomeOf(Drain(ts, ticks), id) == OutcomeOf(ts, id)
    ensures id in Drain(ts, ticks).table ==> Drain(ts, ticks).table[id].request == NoRequest
    decreases |ticks|
  {
    if ts.queue == [] {
      assert id in Requested(ts) ==> id in Elements(ts.queue);
    } else {
      DrainOneConsistent(ts, ticks[0].0, ticks[0].1);
      DrainKeepsOutcomes(ts, ticks[0].0, ticks[0].1, id);
      DrainSettles(DrainOne(ts, ticks[0].0, ticks[0].1), ticks[1..], id);
    }
  }

  /** The orders given between two drains; a freed timer takes no further orders. */
  ghost predicate Legal(ts: Timers, orders: seq<(int, Command)>)
    decreases |orders|
  {
    orders == [] ||
    (orders[0].0 in ts.table && ts.table[orders[0].0].request != Free
     && Legal(Order(ts, orders[0].0, orders[0].1), orders[1..]))
  }

  ghost function GiveOrders(ts: Timers, orders: seq<(int, Command)>): Timers
    requires Legal(ts, orders)
    decreases |orders|
  {
    if orders == [] then ts else GiveOrders(Order(ts, orders[0].0, orders[0].1), orders[1..])
  }

  predicate Asked(orders: seq<(int, Command)>, id: int) {
    exists i :: 0 <= i < |orders| && orders[i].0 == id
  }

  /** The place of the last order for a timer. */
  function LastOrder(orders: seq<(int, Command)>, id: int): (k: nat)
    requires Asked(orders, id)
    ensures k < |orders| && orders[k].0 == id && forall i :: k < i < |orders| ==> orders[i].0 != id
  {
    if orders[|orders| - 1].0 == id then |orders| - 1
    else
      AskedBefore(orders, id);
      LastOrder(orders[..|orders| - 1], id)
  }

  /** Requests are carried out in the order in which they were last asked for. */
  lemma {:induction false} QueuedInOrder(ts: Timers, orders: seq<(int, Command)>)
    requires Consistent(ts) && ts.queue == [] && Legal(ts, orders)
    ensures var q := GiveOrders(ts, orders).queue;
            && (forall a :: 0 <= a < |q| ==> Asked(orders, q[a]))
            && (forall a, b :: 0 <= a < b < |q| ==> LastOrder(orders, q[a]) < LastOrder(orders, q[b]))
    decreases |orders|
  {
    if orders == [] {
      return;
    }
    hide Consistent, Order, Asked, LastOrder, Legal, GiveOrders, Unlink;
    var n := |orders| - 1;
    LastOfOrders(ts, orders, n);
    var before := GiveOrders(ts, orders[..n]);
    QueuedInOrder(ts, orders[..n]);
    OrdersConsistent(ts, orders[..n]);
    OrderMovesToBack(before, orders[n].0, orders[n].1);
    OneMoreQueued(before.queue, orders, n);
  }

  lemma LastOfOrders(ts: Timers, orders: seq<(int, Command)>, n: nat)
    requires Legal(ts, orders) && n == |orders| - 1
    ensures Legal(ts, orders[..n])
    ensures var before := GiveOrders(ts, orders[..n]);
            orders[n].0 in before.table && GiveOrders(ts, orders) == Order(before, orders[n].0, orders[n].1)
  {
    hide Order;
    OrdersSplit(ts, orders, n);
    assert orders[n..] == [orders[n]] && orders[n..][1..] == [];
  }

  lemma {:induction false} OrdersSplit(ts: Timers, orders: seq<(int, Command)>, n: nat)
    requires Legal(ts, orders) && n < |orders|
    ensures Legal(ts, orders[..n])
    ensures var before := GiveOrders(ts, orders[..n]);
            && orders[n].0 in before.table && before.table[orders[n].0].request != Free
            && Legal(before, orders[n..]) && GiveOrders(before, orders[n..]) == GiveOrders(ts, orders)
    decreases n
  {
    hide Order;
    if n == 0 {
      assert orders[..0] == [] && orders[0..] == orders;
    } else {
      assert orders[..n][1..] == orders[1..][..n - 1] && orders[n..] == orders[1..][n - 1..];
      OrdersSplit(Order(ts, orders[0].0, orders[0].1), orders[1..], n - 1);
    }
  }

  lemma {:induction false} OrdersConsistent(ts: Timers, orders: seq<(int, Command)>)
    requires Consistent(ts) && Legal(ts, orders)
    ensures Consistent(GiveOrders(ts, orders))
    decreases |orders|
  {
    if orders != [] {
      OrderConsistent(ts, orders[0].0, orders[0].1);
      OrdersConsistent(Order(ts, orders[0].0, orders[0].1), orders[1..]);
    }
  }

  lemma OrderMovesToBack(ts: Timers, id: int, c: Command)
    requires Consistent(ts) && id in ts.table
    ensures Distinct(ts.queue) && Order(ts, id, c).queue == Unlink(ts.queue, id) + [id]
  {
    assert ts.table[id].request == NoRequest ==> id !in Requested(ts);
    assert id in ts.queue ==> id in Elements(ts.queue);
  }

  lemma AskedBefore(orders: seq<(int, Command)>, id: int)
    requires Asked(orders, id) && orders[|orders| - 1].0 != id
    ensures Asked(orders[..|orders| - 1], id)
  {
    var i :| 0 <= i < |orders| && orders[i].0 == id;
    assert orders[..|orders| - 1][i].0 == id;
  }

  lemma AskedStill(orders: seq<(int, Command)>, n: nat, id: int)
    requires n == |orders| - 1 && Asked(orders[..n], id)
    ensures Asked(orders, id)
    ensures orders[n].0 != id ==> LastOrder(orders, id) == LastOrder(orders[..n], id)
  {
    var i :| 0 <= i < n && orders[..n][i].0 == id;
    assert orders[i].0 == id;
  }

  lemma AskedNow(orders: seq<(int, Command)>, n: nat)
    requires n == |orders| - 1
    ensures Asked(orders, orders[n].0) && LastOrder(orders, orders[n].0) == n
  {
  }

  lemma OneMoreQueued(was: seq<int>, orders: seq<(int, Command)>, n: nat)
    requires n == |orders| - 1 && Distinct(was)
    requires forall a :: 0 <= a < |was| ==> Asked(orders[..n], was[a])
    requires forall a, b :: 0 <= a < b < |was| ==> LastOrder(orders[..n], was[a]) < LastOrder(orders[..n], was[b])
    ensures var q := Unlink(was, orders[n].0) + [orders[n].0];
            && (forall a :: 0 <= a < |q| ==> Asked(orders, q[a]))
            && (forall a, b :: 0 <= a < b < |q| ==> LastOrder(orders, q[a]) < LastOrder(orders, q[b]))
  {
    hide Asked, Unlink, Distinct, LastOrder;
    var id := orders[n].0;
    var q := Unlink(was, id) + [id];
    AskedNow(orders, n);
    forall a | 0 <= a < |q| ensures Asked(orders, q[a]) {
      if a < |q| - 1 {
        var c := PlaceBefore(was, id, a);
        AskedStill(orders, n, was[c]);
      }
    }
    forall a, b | 0 <= a < b < |q| ensures LastOrder(orders, q[a]) < LastOrder(orders, q[b]) {
      var c := PlaceBefore(was, id, a);
      AskedStill(orders, n, was[c]);
      if b < |q| - 1 {
        var d := PlaceBefore(was, id, b);
        AskedStill(orders, n, was[d]);
        PlacesInOrder(was, id, a, b, c, d);
      }
    }
  }

  /** Where an element of a list without `x` was in the list. */
  lemma PlaceBefore(s: seq<int>, x: int, a: nat) returns (c: nat)
    requires a < |Unlink(s, x)| && Distinct(s)
    ensures c < |s| && s[c] == Unlink(s, x)[a] && s[c] != x
    ensures c == if x in s && a >= Index(s, x) then a + 1 else a
  {
    c := if x in s && a >= Index(s, x) then a + 1 else a;
    if x in s {
      WithoutAt(s, Index(s, x));
    }
  }

  lemma PlacesInOrder(s: seq<int>, x: int, a: nat, b: nat, c: nat, d: nat)
    requires a < b && c == (if x in s && a >= Index(s, x) then a + 1 else a)
    requires d == if x in s && b >= Index(s, x) then b + 1 else b
    ensures c < d
  {
  }

  /** The effect of one command on a timer that had nothing pending. */
  function Effect(t: Timer, c: Command): Outcome {
    match c
    case StartCommand(interval) => Kept(true, interval)
    case RestartCommand => Kept(true, t.interval)
    case StopCommand => Kept(false, t.interval)
    case FreeCommand => Gone
  }

  /** The effect on timer `id` of its last order alone. */
  ghost function LastEffect(ts: Timers, orders: seq<(int, Command)>, id: int): Outcome
    decreases |orders|
  {
    if orders == [] || id !in ts.table then OutcomeOf(ts, id)
    else
      var last := orders[|orders| - 1];
      if last.0 == id then Effect(ts.table[id], last.1) else LastEffect(ts, orders[..|orders| - 1], id)
  }

  lemma {:induction false} OrdersHaveLastEffect(ts: Timers, orders: seq<(int, Command)>, id: int)
    requires Consistent(ts) && Legal(ts, orders)
    ensures Consistent(GiveOrders(ts, orders))
    ensures OutcomeOf(GiveOrders(ts, orders), id) == LastEffect(ts, orders, id)
    decreases |orders|
  {
    if orders != [] {
      var o := orders[0];
      var ts1 := Order(ts, o.0, o.1);
      OrderConsistent(ts, o.0, o.1);
      OrdersHaveLastEffect(ts1, orders[1..], id);
      FirstOrderOverruled(ts, orders, id);
    }
  }

  /** An order for `id` matters only until the next one for `id`. */
  lemma {:induction false} FirstOrderOverruled(ts: Timers, orders: seq<(int, Command)>, id: int)
    requires orders != [] && orders[0].0 in ts.table
    ensures LastEffect(Order(ts, orders[0].0, orders[0].1), orders[1..], id) == LastEffect(ts, orders, id)
    decreases |orders|
  {
    if |orders| > 1 {
      assert orders[1..][..|orders| - 2] == orders[..|orders| - 1][1..];
      FirstOrderOverruled(ts, orders[..|orders| - 1], id);
    }
  }

  /** After a drain each timer's activity and interval are what its last order alone says. */
  lemma LastOrderWins(ts: Timers, orders: seq<(int, Command)>, ticks: seq<(Word, Word)>, id: int)
    requires Consistent(ts) && ts.queue == [] && Legal(ts, orders)
    requires Consistent(GiveOrders(ts, orders)) && |ticks| == |GiveOrders(ts, orders).queue|
    ensures var done := Drain(GiveOrders(ts, orders), ticks);
            match LastEffect(ts, orders, id)
            case Gone => id !in done.table
            case Kept(active, interval) =>
              id in done.table && done.table[id].active == active && done.table[id].interval == interval
              && done.table[id].request == NoRequest && (id in done.list <==> active)
  {
    OrdersHaveLastEffect(ts, orders, id);
    var given := GiveOrders(ts, orders);
    DrainSettles(given, ticks, id);
    var done := Drain(given, ticks);
    assert id in Elements(done.list) <==> id in Active(done);
  }

  // --- How long the loop sleeps -----------------------------------------------------------------

  datatype Tick = Tick(interval: Word, prevTime: Word, hasCallback: bool)

  function TickWaitTime(tick: Tick, now: Word): Word {
    if tick.hasCallback then Remaining(tick.prevTime, tick.interval, now) else WAIT_FOREVER
  }

  predicate TickDue(tick: Tick, now: Word) {
    tick.hasCallback && Expired(tick.prevTime, tick.interval, now)
  }

  function ProcessTick(tick: Tick, now: Word): Tick {
    if TickDue(tick, now) then tick.(prevTime := Plus(tick.prevTime, tick.interval)) else tick
  }

  /** A due tick is paid off by exactly one interval, however late it is. */
  lemma TickPaysOneInterval(tick: Tick, now: Word)
    ensures Minus(now, ProcessTick(tick, now).prevTime) ==
            Minus(now, tick.prevTime) - (if TickDue(tick, now) then tick.interval else 0)
  {
  }

  function SleepTime(ts: Timers, tick: Tick, now: Word): Word
    requires Listed(ts)
  {
    var timer, tickWait := WaitTime(ts, now), TickWaitTime(tick, now);
    if timer < tickWait then timer else tickWait
  }

  lemma {:induction false} FirstIsSoonest(ts: Timers, i: nat, now: Word)
    requires Listed(ts) && Sorted(ts, now) && i < |ts.list|
    ensures TimeLeft(ts, ts.list[0], now) <= TimeLeft(ts, ts.list[i], now)
  {
    if i > 0 {
      FirstIsSoonest(ts, i - 1, now);
      assert InOrder(ts, i, now);
    }
  }

  /** The loop never plans to sleep past an active timer or past the tick. */
  lemma SleepsNoLongerThanAnyTimer(ts: Timers, tick: Tick, now: Word, id: int)
    requires Consistent(ts) && Sorted(ts, now)
    ensures id in ts.table && ts.table[id].active ==> SleepTime(ts, tick, now) <= TimeLeft(ts, id, now)
    ensures tick.hasCallback ==> SleepTime(ts, tick, now) <= Remaining(tick.prevTime, tick.interval, now)
  {
    if id in ts.table && ts.table[id].active {
      assert id in Active(ts);
      assert id in Elements(ts.list);
      FirstIsSoonest(ts, Index(ts.list, id), now);
    }
  }

  /** A sleep that is slept out ends with the first timer or the tick due, and no listed timer's clock wraps meanwhile. */
  lemma SleepEndsInWork(ts: Timers, tick: Tick, now: Word)
    requires Consistent(ts) && Sorted(ts, now) && SleepTime(ts, tick, now) < WAIT_FOREVER
    ensures var wait := SleepTime(ts, tick, now);
            NoWrap(ts, now, wait) && (Due(ts, Plus(now, wait)) || TickDue(tick, Plus(now, wait)))
  {
    var wait := SleepTime(ts, tick, now);
    forall i | 0 <= i < |ts.list| ensures Minus(now, ts.table[ts.list[i]].startTime) + wait < WRAP {
      FirstIsSoonest(ts, i, now);
    }
    if wait == TickWaitTime(tick, now) {
      RemainingCountsDown(tick.prevTime, tick.interval, now, wait);
    } else {
      var t := ts.table[ts.list[0]];
      RemainingCountsDown(t.startTime, t.interval, now, wait);
    }
  }
}
