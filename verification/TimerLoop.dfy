/**
 The timer half of the event loop object, as furi/core/event_loop_timer.c updates it in place.  The Timer
 bit that a request sets belongs to the loop object.
 */
module TimerLoop {
  import opened Sequences
  import opened Ticks
  import opened Timers

  /** The place for a timer is the only one with no later timer before it and no earlier one after it. */
  lemma PlaceUnique(s: seq<int>, table: map<int, Timer>, left: Word, now: Word, k: nat)
    requires forall i :: 0 <= i < |s| ==> s[i] in table
    requires k <= |s|
    requires k > 0 ==> Remaining(table[s[k - 1]].startTime, table[s[k - 1]].interval, now) <= left
    requires forall i :: k <= i < |s| ==> left < Remaining(table[s[i]].startTime, table[s[i]].interval, now)
    ensures Place(s, table, left, now) == k
  {
  }

  lemma QueueHeadRequested(ts: Timers)
    requires Consistent(ts) && ts.queue != []
    ensures ts.queue[0] in ts.table && ts.table[ts.queue[0]].request != NoRequest
  {
    assert ts.queue[0] in Elements(ts.queue);
  }

  /** The timer at the head of the queue, started, can be scheduled. */
  lemma PoppedListed(ts: Timers, t: Word)
    requires Consistent(ts) && ts.queue != [] && ts.queue[0] in ts.table
    ensures Popped(ts).table == ts.table && Listed(Started(ts, t))
  {
    UnlinkListed(ts, ts.queue[0]);
  }

  lemma ListHeadActive(ts: Timers)
    requires Consistent(ts) && ts.list != []
    ensures ts.list[0] in ts.table && ts.table[ts.list[0]].active
    ensures Unlink(ts.list, ts.list[0]) == ts.list[1..]
  {
    assert ts.list[0] in Elements(ts.list);
    IndexUnique(ts.list, ts.list[0], 0);
  }

  class TimerLoop {
    var table: map<int, Timer>
    var list: seq<int>
    var queue: seq<int>

    function View(): Timers
      reads this
    {
      Timers(table, list, queue)
    }

    constructor ()
      ensures View() == EMPTY && Consistent(View())
    {
      table, list, queue := map[], [], [];
    }

    /** A new timer, inactive and without a request, at an address no timer uses. */
    method Alloc(id: int, periodic: bool)
      requires Consistent(View()) && id !in table
      modifies this`table
      ensures View() == Allocate(old(View()), id, periodic) && Consistent(View())
      ensures id in table && id !in Active(View()) && id !in Requested(View())
    {
      AllocateConsistent(View(), id, periodic);
      table := table[id := Timer(0, 0, 0, NoRequest, false, periodic)];
    }

    /** Tick readings inside the critical section are one value, `now`. */
    method ScheduleTimer(id: int, now: Word)
      requires Listed(View()) && id in table
      modifies this`list
      ensures View() == Schedule(old(View()), id, now)
    {
      var left := Remaining(table[id].startTime, table[id].interval, now);
      var k := |list|;
      while k > 0 && left < Remaining(table[list[k - 1]].startTime, table[list[k - 1]].interval, now)
        invariant 0 <= k <= |list|
        invariant forall i :: k <= i < |list| ==>
                    left < Remaining(table[list[i]].startTime, table[list[i]].interval, now)
      {
        k := k - 1;
      }
      PlaceUnique(list, table, left, now, k);
      list := list[..k] + [id] + list[k..];
    }

    method UnlinkRequest(id: int)
      modifies this`queue
      ensures queue == Unlink(old(queue), id)
    {
      if id in queue {
        var k := Index(queue, id);
        queue := queue[..k] + queue[k + 1..];
      }
    }

    /** `ok` is false when the timer has already been freed, which halts the system. */
    method EnqueueRequest(id: int, request: Request) returns (ok: bool)
      requires id in table
      modifies this
      ensures ok <==> old(table)[id].request != Free
      ensures ok ==> View() == Enqueue(old(View()), id, request)
    {
      if table[id].request != NoRequest {
        if table[id].request == Free {
          return false;
        }
        UnlinkRequest(id);
      }
      hide Unlink;
      table := table[id := table[id].(request := request)];
      queue := queue + [id];
      ok := true;
    }

    method Start(id: int, interval: Word) returns (ok: bool)
      requires Consistent(View()) && id in table
      modifies this
      ensures ok <==> old(table)[id].request != Free
      ensures ok ==> View() == Order(old(View()), id, StartCommand(interval)) && Consistent(View())
    {
      OrderConsistent(View(), id, StartCommand(interval));
      table := table[id := table[id].(nextInterval := interval)];
      ok := EnqueueRequest(id, Request.Start);
    }

    method Restart(id: int) returns (ok: bool)
      requires Consistent(View()) && id in table
      modifies this
      ensures ok <==> old(table)[id].request != Free
      ensures ok ==> View() == Order(old(View()), id, RestartCommand) && Consistent(View())
    {
      OrderConsistent(View(), id, RestartCommand);
      table := table[id := table[id].(nextInterval := table[id].interval)];
      ok := EnqueueRequest(id, Request.Start);
    }

    method Stop(id: int) returns (ok: bool)
      requires Consistent(View()) && id in table
      modifies this
      ensures ok <==> old(table)[id].request != Free
      ensures ok ==> View() == Order(old(View()), id, StopCommand) && Consistent(View())
    {
      OrderConsistent(View(), id, StopCommand);
      ok := EnqueueRequest(id, Request.Stop);
    }

    method FreeTimer(id: int) returns (ok: bool)
      requires Consistent(View()) && id in table
      modifies this
      ensures ok <==> old(table)[id].request != Free
      ensures ok ==> View() == Order(old(View()), id, FreeCommand) && Consistent(View())
    {
      OrderConsistent(View(), id, FreeCommand);
      ok := EnqueueRequest(id, Request.Free);
    }

    /** Takes the first request off the queue and its timer, while the request is carried out, off the list. */
    method PopRequest() returns (id: int)
      requires queue != [] && queue[0] in table
      modifies this`list, this`queue
      ensures id == old(queue)[0] && View() == Popped(old(View()))
    {
      id := queue[0];
      queue := queue[1..];
      if table[id].active && id in list {
        var k := Index(list, id);
        list := list[..k] + list[k + 1..];
      }
    }

    /** One turn of the drain: `t` is the start time read, `now` the tick during scheduling. */
    method DrainRequest(t: Word, now: Word)
      requires Consistent(View()) && queue != []
      modifies this`table, this`list, this`queue
      ensures View() == DrainOne(old(View()), t, now) && Consistent(View())
    {
      DrainOneConsistent(View(), t, now);
      QueueHeadRequested(View());
      PoppedListed(View(), t);
      hide Consistent, Popped;
      var id := PopRequest();
      if table[id].request == Request.Start {
        table := table[id := table[id].(active := true, interval := table[id].nextInterval, startTime := t, request := NoRequest)];
        ScheduleTimer(id, now);
      } else if table[id].request == Request.Stop {
        table := table[id := table[id].(active := false, request := NoRequest)];
      } else {
        table := table - {id};
      }
    }

    /** Every queued request is carried out; `ticks` are the readings of the clock, turn by turn. */
    method ProcessTimerQueue(ticks: seq<(Word, Word)>)
      requires Consistent(View()) && |ticks| == |queue|
      modifies this`table, this`list, this`queue
      ensures View() == Drain(old(View()), ticks)
      ensures Consistent(View()) && queue == []
    {
      var n := 0;
      while queue != []
        invariant 0 <= n <= |ticks| && |ticks| - n == |queue|
        invariant Consistent(View())
        invariant Drain(View(), ticks[n..]) == Drain(old(View()), ticks)
        decreases |queue|
      {
        assert ticks[n..][1..] == ticks[n + 1..];
        DrainShortens(View(), ticks[n].0, ticks[n].1);
        DrainRequest(ticks[n].0, ticks[n].1);
        n := n + 1;
      }
    }

    /** Whether the first timer has run out at tick `now`. */
    method FirstExpired(now: Word) returns (due: bool)
      requires Consistent(View())
      ensures due <==> Due(View(), now)
    {
      due := list != [] && Expired(table[list[0]].startTime, table[list[0]].interval, now);
    }

    /** Takes the first timer off the list and, when periodic, lists it for its next period; `t` is read for the elapsed periods. */
    method FireFirst(t: Word, now: Word)
      requires Consistent(View()) && list != []
      requires table[list[0]].periodic ==> table[list[0]].interval > 0
      modifies this`table, this`list
      ensures View() == Fire(old(View()), t, now) && Consistent(View())
    {
      FireConsistent(View(), t, now);
      ListHeadActive(View());
      hide Consistent, CaughtUp;
      var id := list[0];
      list := list[1..];
      if table[id].periodic {
        table := table[id := table[id].(startTime := CaughtUp(table[id], t))];
        ScheduleTimer(id, now);
      } else {
        table := table[id := table[id].(active := false)];
      }
    }

    /** The three readings of the clock: in the test, for the elapsed periods, and while scheduling. */
    method ProcessExpiredTimers(first: Word, t: Word, now: Word) returns (fired: bool)
      requires Consistent(View())
      requires list != [] ==> table[list[0]].periodic ==> table[list[0]].interval > 0
      modifies this`table, this`list
      ensures fired <==> Due(old(View()), first)
      ensures View() == if fired then Fire(old(View()), t, now) else old(View())
      ensures Consistent(View())
      ensures var was := old(View());
              fired && was.table[was.list[0]].periodic && ReadLater(was.table[was.list[0]], first, t) ==>
                was.list[0] in table && InNextPeriod(was.table[was.list[0]], table[was.list[0]], t)
    {
      fired := FirstExpired(first);
      if fired {
        if table[list[0]].periodic && ReadLater(table[list[0]], first, t) {
          FireKeepsPhase(View(), first, t, now);
        }
        hide InNextPeriod, Fire;
        FireFirst(t, now);
      }
    }

    method GetTimerWaitTime(now: Word) returns (wait: Word)
      requires Consistent(View())
      ensures wait == WaitTime(View(), now)
      ensures Sorted(View(), now) ==> forall id :: id in table && table[id].active ==> wait <= TimeLeft(View(), id, now)
    {
      wait := WAIT_FOREVER;
      if list != [] {
        wait := Remaining(table[list[0]].startTime, table[list[0]].interval, now);
      }
      if Sorted(View(), now) {
        forall id | id in table && table[id].active ensures wait <= TimeLeft(View(), id, now) {
          SleepsNoLongerThanAnyTimer(View(), Tick(0, 0, false), now, id);
        }
      }
    }
  }

  lemma DrainShortens(ts: Timers, t: Word, now: Word)
    requires Consistent(ts) && ts.queue != []
    ensures Consistent(DrainOne(ts, t, now)) && DrainOne(ts, t, now).queue == ts.queue[1..]
  {
    DrainOneConsistent(ts, t, now);
    QueueHeadRequested(ts);
  }
}
