/**
 The event loop of furi/core/event_loop.c with message queues and semaphores as event sources,
 as interleaved atomic steps.  A step is one critical section or one uninterrupted piece of code of
 some thread: a producer's queue operation and its notification are two steps, and the loop thread
 takes several steps for one event.
 */
module EventLoop {
  import opened Sequences
  import opened Ticks
  import opened Timers

  const NULL: int := 0

  // --- Event sources -------------------------------------------------------------------------

  datatype Direction = In | Out

  datatype Source =
    | MessageQueue(messages: seq<int>, capacity: nat)
    | Semaphore(count: nat, maxCount: nat)

  datatype Operation = Put(message: int) | Get | Reset | Release | Acquire

  /** The get_level of the source's event loop contract. */
  predicate Level(src: Source, d: Direction) {
    match (src, d)
    case (MessageQueue(m, c), In) => |m| > 0
    case (MessageQueue(m, c), Out) => |m| < c
    case (Semaphore(n, c), In) => n > 0
    case (Semaphore(n, c), Out) => n < c
  }

  /** Whether the operation succeeds on the source; a failed one changes and notifies nothing. */
  predicate Succeeds(src: Source, op: Operation) {
    match op
    case Put(_) => src.MessageQueue? && |src.messages| < src.capacity
    case Get => src.MessageQueue? && |src.messages| > 0
    case Reset => src.MessageQueue?
    case Release => src.Semaphore? && src.count < src.maxCount
    case Acquire => src.Semaphore? && src.count > 0
  }

  function Operated(src: Source, op: Operation): Source
    requires Succeeds(src, op)
  {
    match op
    case Put(m) => src.(messages := src.messages + [m])
    case Get => src.(messages := src.messages[1..])
    case Reset => src.(messages := [])
    case Release => src.(count := src.count + 1)
    case Acquire => src.(count := src.count - 1)
  }

  /** The direction an operation notifies afterwards. */
  function Notifies(op: Operation): Direction {
    if op.Put? || op.Release? then In else Out
  }

  // --- Subscriptions ---------------------------------------------------------------------------

  /** `owned` is false once the item was unsubscribed inside its own callback. */
  datatype Item = Item(obj: int, direction: Direction, edge: bool, owned: bool)

  datatype Link = Link(itemIn: int, itemOut: int)

  function Slot(l: Link, d: Direction): int {
    if d == In then l.itemIn else l.itemOut
  }

  function SetSlot(l: Link, d: Direction, i: int): Link {
    if d == In then l.(itemIn := i) else l.(itemOut := i)
  }

  /** Items by address, the tree by object, each object's link, and the waiting list. */
  datatype Reactor = Reactor(items: map<int, Item>, tree: map<int, int>, links: map<int, Link>, waiting: seq<int>)

  /** furi_event_loop_item_notify without the notification bit. */
  function Queued(r: Reactor, i: int): Reactor {
    if i in r.waiting then r else r.(waiting := r.waiting + [i])
  }

  function Subscribed(r: Reactor, i: int, o: int, d: Direction, edge: bool): Reactor
    requires o in r.links
  {
    r.(items := r.items[i := Item(o, d, edge, true)],
       tree := r.tree[o := i],
       links := r.links[o := SetSlot(r.links[o], d, i)])
  }

  /** The current item is only marked; any other item is freed at once. */
  function Unsubscribed(r: Reactor, o: int, current: int): Reactor
    requires o in r.tree && r.tree[o] in r.items && o in r.links
  {
    var i := r.tree[o];
    var item := r.items[i];
    r.(items := if i == current then r.items[i := item.(owned := false)] else r.items - {i},
       tree := r.tree - {o},
       links := r.links[o := SetSlot(r.links[o], item.direction, NULL)],
       waiting := Unlink(r.waiting, i))
  }

  // --- The loop thread ---------------------------------------------------------------------------

  datatype Flag = Event | StopFlag | TimerFlag | Pending | ThreadFlag

  datatype Status = Complete | Incomplete | FreeLater

  /** Where the loop thread is; `rest` are the bits it read and has still to restore, `at` is a tick it has just read. */
  datatype Pc =
    | Setup
    | Top
    | PopItem(rest: set<Flag>)
    | FirstCheck(item: int, rest: set<Flag>)
    | InCallback(item: int, rest: set<Flag>)
    | SecondCheck(item: int, rest: set<Flag>)
    | Finish(item: int, status: Status, rest: set<Flag>)
    | Requeue(item: int, rest: set<Flag>)
    | Renotify(rest: set<Flag>)
    | FreeItem(item: int, rest: set<Flag>)
    | Sync(rest: set<Flag>)
    | Restore(rest: set<Flag>)
    | DrainTimers(rest: set<Flag>)
    | Draining(at: Word, rest: set<Flag>)
    | RunPending
    | InPendingCallback
    | InThreadFlagCallback
    | TimedOut
    | Firing
    | Moving(at: Word)
    | InTimerCallback
    | TickCheck
    | InTickCallback
    | Stopped

  /** The application's code runs on the loop thread. */
  predicate UserCode(pc: Pc) {
    pc.Setup? || pc.InCallback? || pc.InPendingCallback? || pc.InThreadFlagCallback? || pc.InTimerCallback? || pc.InTickCallback?
  }

  /** The item taken from the waiting list and not yet done with, or NULL. */
  function Held(pc: Pc): int {
    match pc
    case FirstCheck(i, _) => i
    case InCallback(i, _) => i
    case SecondCheck(i, _) => i
    case Finish(i, _, _) => i
    case Requeue(i, _) => i
    case FreeItem(i, _) => i
    case _ => NULL
  }

  /** The bits read by the wait and still to be restored. */
  function Rest(pc: Pc): set<Flag> {
    match pc
    case PopItem(r) => r
    case FirstCheck(_, r) => r
    case InCallback(_, r) => r
    case SecondCheck(_, r) => r
    case Finish(_, _, r) => r
    case Requeue(_, r) => r
    case Renotify(r) => r
    case FreeItem(_, r) => r
    case Sync(r) => r
    case Restore(r) => r
    case DrainTimers(r) => r
    case Draining(_, r) => r
    case _ => {}
  }

  /** The loop is in its Event branch, before furi_event_loop_sync_flags. */
  predicate BeforeSync(pc: Pc) {
    pc.PopItem? || pc.FirstCheck? || pc.InCallback? || pc.SecondCheck? || pc.Finish? || pc.Requeue? || pc.Renotify? || pc.FreeItem? || pc.Sync?
  }

  datatype State = State(
    sources: map<int, Source>,
    owed: multiset<(int, Direction)>,
    reactor: Reactor,
    flags: set<Flag>,
    timers: Timers,
    tick: Tick,
    pending: seq<int>,
    now: Word,
    pc: Pc)

  /** A loop just allocated, with nothing subscribed to the existing sources. */
  ghost predicate Init(s: State) {
    && s.owed == multiset{}
    && s.reactor == Reactor(map[], map[], map o | o in s.sources :: Link(NULL, NULL), [])
    && s.flags == {}
    && s.timers == EMPTY
    && s.pending == []
    && s.pc == Setup
  }

  // --- Steps -----------------------------------------------------------------------------------

  datatype Step =
    // any thread
    | Operate(obj: int, operation: Operation)
    | Notify(obj: int, direction: Direction)
    | RequestStop
    | SetThreadFlag
    | TimePasses(ticks: Word)
    // application code on the loop thread
    | Subscribe(id: int, obj: int, direction: Direction, edge: bool)
    | Unsubscribe(obj: int)
    | Pend(callback: int)
    | NewTimer(id: int, periodic: bool)
    | OrderTimer(id: int, command: Command)
    | SetTick(interval: Word, hasCallback: bool)
    | Return
    // the loop itself
    | Wait
    | TimeOut
    | Proceed

  /** The branch the loop takes for the bits it read: Stop, Event, Timer, Pending, ThreadFlag. */
  function Branch(read: set<Flag>): Pc {
    if StopFlag in read then Stopped
    else if Event in read then PopItem(read - {Event})
    else if TimerFlag in read then DrainTimers(read - {TimerFlag})
    else if Pending in read then RunPending
    else InThreadFlagCallback
  }

  /** Order of commands for periodic timers: the code divides by their interval. */
  predicate CommandAllowed(t: Timer, c: Command) {
    && t.request != Free
    && (t.periodic && c.StartCommand? ==> c.interval > 0)
    && (t.periodic && c.RestartCommand? ==> t.interval > 0)
  }

  ghost predicate Enabled(s: State, step: Step) {
    match step
    case Operate(o, op) => o in s.sources && Succeeds(s.sources[o], op)
    case Notify(o, d) => (o, d) in s.owed && o in s.reactor.links
    case RequestStop => true
    case SetThreadFlag => true
    case TimePasses(d) => Listed(s.timers) && NoWrap(s.timers, s.now, d)
    case Subscribe(i, o, d, edge) =>
      && UserCode(s.pc) && o in s.sources && o in s.reactor.links && o !in s.reactor.tree
      && Slot(s.reactor.links[o], d) == NULL
      && i != NULL && i !in s.reactor.items
    case Unsubscribe(o) =>
      && UserCode(s.pc) && o in s.reactor.tree && s.reactor.tree[o] in s.reactor.items && o in s.reactor.links
    case Pend(_) => UserCode(s.pc)
    case NewTimer(id, _) => UserCode(s.pc) && id !in s.timers.table
    case OrderTimer(id, c) => UserCode(s.pc) && id in s.timers.table && CommandAllowed(s.timers.table[id], c)
    case SetTick(interval, cb) => UserCode(s.pc) && (cb ==> interval > 0)
    case Return => UserCode(s.pc) && (s.pc.InPendingCallback? ==> s.pending != [])
    case Wait => s.pc.Top? && s.flags != {}
    case TimeOut => s.pc.Top? && s.flags == {}
    case Proceed => CanProceed(s)
  }

  ghost predicate CanProceed(s: State) {
    match s.pc
    case PopItem(_) => true
    case FirstCheck(i, _) => i in s.reactor.items && s.reactor.items[i].obj in s.sources
    case SecondCheck(i, _) => i in s.reactor.items && s.reactor.items[i].obj in s.sources
    case Finish(i, _, _) => i in s.reactor.items
    case Requeue(i, _) => i in s.reactor.items
    case Renotify(_) => true
    case FreeItem(i, _) => i in s.reactor.items
    case Sync(_) => true
    case Restore(_) => true
    case DrainTimers(_) => true
    case Draining(_, _) => Consistent(s.timers) && s.timers.queue != []
    case RunPending => true
    case TimedOut => Listed(s.timers)
    case Firing => Listed(s.timers) && s.timers.list != []
    case Moving(_) =>
      && Listed(s.timers) && s.timers.list != []
      && var t := s.timers.table[s.timers.list[0]];
         t.periodic ==> t.interval > 0
    case TickCheck => true
    case _ => false
  }

  function AfterOperation(s: State, o: int, op: Operation): State
    requires o in s.sources && Succeeds(s.sources[o], op)
  {
    s.(sources := s.sources[o := Operated(s.sources[o], op)], owed := s.owed + multiset{(o, Notifies(op))})
  }

  /** furi_event_loop_link_notify, one critical section. */
  function Notified(s: State, o: int, d: Direction): State
    requires o in s.reactor.links
  {
    var i := Slot(s.reactor.links[o], d);
    var s1 := s.(owed := s.owed - multiset{(o, d)});
    if i == NULL then s1 else s1.(reactor := Queued(s.reactor, i), flags := s.flags + {Event})
  }

  /** furi_event_loop_object_subscribe, one critical section; a high level is queued at once. */
  function AfterSubscribe(s: State, i: int, o: int, d: Direction, edge: bool): State
    requires o in s.sources && o in s.reactor.links
  {
    var r := Subscribed(s.reactor, i, o, d, edge);
    if !edge && Level(s.sources[o], d) then s.(reactor := Queued(r, i), flags := s.flags + {Event}) else s.(reactor := r)
  }

  /** What the loop does when application code returns to it. */
  function AfterReturn(s: State): State
    requires UserCode(s.pc) && (s.pc.InPendingCallback? ==> s.pending != [])
  {
    match s.pc
    case Setup => s.(pc := Top, tick := if s.tick.hasCallback then s.tick.(prevTime := s.now) else s.tick)
    case InCallback(i, r) => s.(pc := if i in s.reactor.items && s.reactor.items[i].edge then Finish(i, Complete, r) else SecondCheck(i, r))
    case InPendingCallback => s.(pc := RunPending, pending := s.pending[..|s.pending| - 1])
    case _ => s.(pc := Top)
  }

  /** One step of furi_event_loop_process_waiting_list. */
  ghost function EventStep(s: State): State
    requires CanProceed(s) && BeforeSync(s.pc)
  {
    var r := s.reactor;
    match s.pc
    case PopItem(rest) =>
      if r.waiting == [] then s.(pc := Restore(rest))
      else s.(reactor := r.(waiting := r.waiting[1..]), pc := FirstCheck(r.waiting[0], rest))
    case FirstCheck(i, rest) =>
      var item := r.items[i];
      if item.edge || Level(s.sources[item.obj], item.direction) then s.(pc := InCallback(i, rest))
      else s.(pc := Finish(i, Complete, rest))
    case SecondCheck(i, rest) =>
      var item := r.items[i];
      s.(pc := Finish(i, if Level(s.sources[item.obj], item.direction) then Incomplete else Complete, rest))
    case Finish(i, status, rest) =>
      s.(pc := if !r.items[i].owned then FreeItem(i, rest)
               else if status.Incomplete? then Requeue(i, rest)
               else Sync(rest))
    case Requeue(i, rest) => s.(reactor := Queued(r, i), pc := Renotify(rest))
    case Renotify(rest) => s.(flags := s.flags + {Event}, pc := Sync(rest))
    case FreeItem(i, rest) => s.(reactor := r.(items := r.items - {i}), pc := Sync(rest))
    case Sync(rest) => s.(flags := if r.waiting != [] then s.flags + {Event} else s.flags, pc := Restore(rest))
    case InCallback(_, _) => s
  }

  /** One step of the loop outside the Event branch. */
  ghost function OtherStep(s: State): State
    requires CanProceed(s) && !BeforeSync(s.pc)
  {
    match s.pc
    case Restore(rest) => s.(flags := s.flags + rest, pc := Top)
    case DrainTimers(rest) =>
      s.(pc := if s.timers.queue == [] then Restore(rest) else Draining(s.now, rest))
    case Draining(at, rest) => s.(timers := DrainOne(s.timers, at, s.now), pc := DrainTimers(rest))
    case RunPending => s.(pc := if s.pending == [] then Top else InPendingCallback)
    case TimedOut => s.(pc := if Due(s.timers, s.now) then Firing else TickCheck)
    case Firing => s.(pc := Moving(s.now))
    case Moving(at) => s.(timers := Fire(s.timers, at, s.now), pc := InTimerCallback)
    case TickCheck =>
      if TickDue(s.tick, s.now) then s.(tick := ProcessTick(s.tick, s.now), pc := InTickCallback) else s.(pc := Top)
    case _ => s
  }

  ghost function Apply(s: State, step: Step): State
    requires Enabled(s, step)
  {
    match step
    case Operate(o, op) => AfterOperation(s, o, op)
    case Notify(o, d) => Notified(s, o, d)
    case RequestStop => s.(flags := s.flags + {StopFlag})
    case SetThreadFlag => s.(flags := s.flags + {ThreadFlag})
    case TimePasses(d) => s.(now := Plus(s.now, d))
    case Subscribe(i, o, d, edge) => AfterSubscribe(s, i, o, d, edge)
    case Unsubscribe(o) => s.(reactor := Unsubscribed(s.reactor, o, Held(s.pc)))
    case Pend(cb) => s.(pending := [cb] + s.pending, flags := s.flags + {Pending})
    case NewTimer(id, p) => s.(timers := Allocate(s.timers, id, p))
    case OrderTimer(id, c) => s.(timers := Order(s.timers, id, c), flags := s.flags + {TimerFlag})
    case SetTick(interval, cb) => s.(tick := Tick(interval, s.now, cb))
    case Return => AfterReturn(s)
    case Wait => s.(flags := {}, pc := Branch(s.flags))
    case TimeOut => s.(pc := TimedOut)
    case Proceed => if BeforeSync(s.pc) then EventStep(s) else OtherStep(s)
  }
}
