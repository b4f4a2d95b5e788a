/** Item lifetime and no lost level event, over every interleaving of steps. */
module EventLoopSafety {
  import opened Sequences
  import opened Ticks
  import opened Timers
  import opened EventLoop

  // --- Item lifetime ---------------------------------------------------------------------------

  /** The tree's item for an object is live, owned, for that object, and in the object's link. */
  ghost predicate TreeEntry(r: Reactor, o: int)
    requires o in r.tree
  {
    var i := r.tree[o];
    && i in r.items && r.items[i].obj == o && r.items[i].owned
    && o in r.links && Slot(r.links[o], r.items[i].direction) == i
  }

  /** A link's item is the tree's item for that object, in that direction. */
  ghost predicate LinkEntry(r: Reactor, o: int, d: Direction)
    requires o in r.links
  {
    var i := Slot(r.links[o], d);
    i != NULL ==> o in r.tree && r.tree[o] == i && i in r.items && r.items[i].direction == d
  }

  /** A live item is in the tree, or was unsubscribed in its own callback that still runs. */
  ghost predicate ItemEntry(r: Reactor, i: int, held: int)
    requires i in r.items
  {
    i != NULL && if r.items[i].owned then r.items[i].obj in r.tree && r.tree[r.items[i].obj] == i else i == held
  }

  /** Tree, links, waiting list and live items name the same items. */
  ghost predicate Lifetime(r: Reactor, held: int) {
    && (forall o {:trigger TreeEntry(r, o)} :: o in r.tree ==> TreeEntry(r, o))
    && (forall o, d {:trigger LinkEntry(r, o, d)} :: o in r.links ==> LinkEntry(r, o, d))
    && (forall i {:trigger ItemEntry(r, i, held)} :: i in r.items ==> ItemEntry(r, i, held))
    && Distinct(r.waiting)
    && (forall i :: i in r.waiting ==> i in r.items && r.items[i].owned)
    && (held != NULL ==> held in r.items)
  }

  lemma QueuedLifetime(r: Reactor, i: int, held: int)
    requires Lifetime(r, held) && i in r.items && r.items[i].owned
    ensures Lifetime(Queued(r, i), held)
  {
    var r' := Queued(r, i);
    forall o | o in r'.tree ensures TreeEntry(r', o) { assert TreeEntry(r, o); }
    forall o, d | o in r'.links ensures LinkEntry(r', o, d) { assert LinkEntry(r, o, d); }
    forall j | j in r'.items ensures ItemEntry(r', j, held) { assert ItemEntry(r, j, held); }
  }

  /** Changing the waiting list, or which owned item is held, keeps the rest. */
  lemma RewaitLifetime(r: Reactor, waiting: seq<int>, held: int, held': int)
    requires Lifetime(r, held)
    requires Distinct(waiting) && forall i :: i in waiting ==> i in r.waiting
    requires held != NULL && held != held' ==> r.items[held].owned
    requires held' != NULL ==> held' in r.items
    ensures Lifetime(r.(waiting := waiting), held')
  {
    var r' := r.(waiting := waiting);
    forall o | o in r'.tree ensures TreeEntry(r', o) { assert TreeEntry(r, o); }
    forall o, d | o in r'.links ensures LinkEntry(r', o, d) { assert LinkEntry(r, o, d); }
    forall j | j in r'.items ensures ItemEntry(r', j, held') { assert ItemEntry(r, j, held); }
  }

  lemma SubscribedLifetime(r: Reactor, i: int, o: int, d: Direction, edge: bool, held: int)
    requires Lifetime(r, held) && o in r.links && o !in r.tree
    requires i != NULL && i !in r.items
    ensures Lifetime(Subscribed(r, i, o, d, edge), held)
  {
    var r' := Subscribed(r, i, o, d, edge);
    assert LinkEntry(r, o, In) && LinkEntry(r, o, Out);
    forall p | p in r'.tree ensures TreeEntry(r', p) {
      assert p != o ==> TreeEntry(r, p);
    }
    forall p, e | p in r'.links ensures LinkEntry(r', p, e) {
      assert LinkEntry(r, p, e);
      assert Slot(r.links[p], e) != i by { assert p in r.tree ==> TreeEntry(r, p); }
    }
    forall j | j in r'.items ensures ItemEntry(r', j, held) {
      assert j != i ==> ItemEntry(r, j, held);
    }
  }

  lemma UnsubscribedLifetime(r: Reactor, o: int, held: int)
    requires Lifetime(r, held) && o in r.tree && TreeEntry(r, o)
    ensures Lifetime(Unsubscribed(r, o, held), held)
  {
    var i, r' := r.tree[o], Unsubscribed(r, o, held);
    UnlinkElements(r.waiting, i);
    forall j | j in r'.waiting ensures j in r'.items && r'.items[j].owned {
      assert j in Elements(r'.waiting);
    }
    forall p | p in r'.tree ensures TreeEntry(r', p) {
      assert TreeEntry(r, p);
    }
    forall p, e | p in r'.links ensures LinkEntry(r', p, e) {
      assert LinkEntry(r, p, e);
      assert p in r.tree ==> TreeEntry(r, p);
    }
    forall j | j in r'.items ensures ItemEntry(r', j, held) {
      assert ItemEntry(r, j, held);
    }
    assert ItemEntry(r, i, held);
  }

  lemma FreedLifetime(r: Reactor, i: int)
    requires Lifetime(r, i) && i in r.items && !r.items[i].owned
    ensures Lifetime(r.(items := r.items - {i}), NULL)
  {
    var r' := r.(items := r.items - {i});
    forall o | o in r'.tree ensures TreeEntry(r', o) { assert TreeEntry(r, o); }
    forall o, d | o in r'.links ensures LinkEntry(r', o, d) {
      assert LinkEntry(r, o, d);
      assert o in r.tree ==> TreeEntry(r, o);
    }
    forall j | j in r'.items ensures ItemEntry(r', j, NULL) { assert ItemEntry(r, j, i); }
  }

  /** What the program point says about the item in hand. */
  ghost predicate HeldItemState(r: Reactor, pc: Pc) {
    match pc
    case FirstCheck(i, _) => i in r.items && r.items[i].owned
    case Requeue(i, _) => i in r.items && r.items[i].owned
    case FreeItem(i, _) => i in r.items && !r.items[i].owned
    case _ => true
  }

  predicate HasItem(pc: Pc) {
    pc.FirstCheck? || pc.InCallback? || pc.SecondCheck? || pc.Finish? || pc.Requeue? || pc.FreeItem?
  }

  ghost predicate Safe(s: State) {
    && Lifetime(s.reactor, Held(s.pc))
    && HeldItemState(s.reactor, s.pc)
    && s.reactor.links.Keys == s.sources.Keys
    && (HasItem(s.pc) ==> Held(s.pc) in s.reactor.items && s.reactor.items[Held(s.pc)].obj in s.sources)
  }

  lemma SafeNotify(s: State, o: int, d: Direction)
    requires Safe(s) && o in s.reactor.links
    ensures Safe(Notified(s, o, d))
  {
    var r := s.reactor;
    var i := Slot(r.links[o], d);
    assert LinkEntry(r, o, d);
    if i != NULL {
      assert TreeEntry(r, o);
      QueuedLifetime(r, i, Held(s.pc));
    }
  }

  lemma SafeSubscribe(s: State, i: int, o: int, d: Direction, edge: bool)
    requires Safe(s) && Enabled(s, Subscribe(i, o, d, edge))
    ensures Safe(AfterSubscribe(s, i, o, d, edge))
  {
    SubscribedLifetime(s.reactor, i, o, d, edge, Held(s.pc));
    QueuedLifetime(Subscribed(s.reactor, i, o, d, edge), i, Held(s.pc));
  }

  lemma SafeUnsubscribe(s: State, o: int)
    requires Safe(s) && Enabled(s, Unsubscribe(o))
    ensures Safe(s.(reactor := Unsubscribed(s.reactor, o, Held(s.pc))))
  {
    assert TreeEntry(s.reactor, o);
    UnsubscribedLifetime(s.reactor, o, Held(s.pc));
  }

  lemma SafeEventStep(s: State)
    requires Safe(s) && CanProceed(s) && BeforeSync(s.pc)
    ensures Safe(EventStep(s))
  {
    var r := s.reactor;
    match s.pc
    case PopItem(rest) =>
      if r.waiting != [] {
        var i := r.waiting[0];
        HeadUnlinked(r.waiting);
        assert i in r.waiting;
        RewaitLifetime(r, r.waiting[1..], NULL, i);
        assert ItemEntry(r, i, NULL);
        assert TreeEntry(r, r.items[i].obj);
      }
    case Finish(i, status, rest) =>
      if r.items[i].owned && !status.Incomplete? {
        RewaitLifetime(r, r.waiting, i, NULL);
      }
    case Requeue(i, rest) =>
      QueuedLifetime(r, i, i);
      RewaitLifetime(Queued(r, i), Queued(r, i).waiting, i, NULL);
    case FreeItem(i, rest) => FreedLifetime(r, i);
    case _ =>
  }

  /** Steps that leave the subscriptions alone and do not move the loop within its Event branch. */
  predicate LeavesReactor(s: State, step: Step) {
    !step.Notify? && !step.Subscribe? && !step.Unsubscribe? && !(step.Proceed? && BeforeSync(s.pc))
  }

  lemma ReactorKept(s: State, step: Step)
    requires Enabled(s, step) && LeavesReactor(s, step)
    ensures var s' := Apply(s, step);
            && s'.reactor == s.reactor && s'.sources.Keys == s.sources.Keys
            && Held(s'.pc) == Held(s.pc) && HasItem(s'.pc) == HasItem(s.pc)
            && (s'.pc == s.pc || s'.pc.SecondCheck? || s'.pc.Finish? || !HasItem(s'.pc))
  {
    hide Succeeds, Operated, Level, DrainOne, Fire, Order, Allocate, Due, TickDue, ProcessTick, CommandAllowed, NoWrap;
  }

  lemma SafeStep(s: State, step: Step)
    requires Safe(s) && Enabled(s, step)
    ensures Safe(Apply(s, step))
  {
    if LeavesReactor(s, step) {
      ReactorKept(s, step);
      return;
    }
    match step
    case Notify(o, d) => SafeNotify(s, o, d);
    case Subscribe(i, o, d, edge) => SafeSubscribe(s, i, o, d, edge);
    case Unsubscribe(o) => SafeUnsubscribe(s, o);
    case Proceed =>
      if BeforeSync(s.pc) {
        SafeEventStep(s);
      }
    case _ =>
  }

  /** Between alloc and stop the loop never touches a freed item: every step of its code is possible. */
  lemma NeverTouchesFreedItem(s: State)
    requires Safe(s) && BeforeSync(s.pc)
    ensures s.pc.InCallback? || CanProceed(s)
  {
  }

  /** The checks of furi_event_loop_unsubscribe hold for every subscribed object. */
  lemma UnsubscribeChecksHold(s: State, o: int)
    requires Safe(s) && o in s.reactor.tree
    ensures var i := s.reactor.tree[o];
            && o in s.reactor.links && i in s.reactor.items && s.reactor.items[i].owned
            && Slot(s.reactor.links[o], s.reactor.items[i].direction) == i
  {
    assert TreeEntry(s.reactor, o);
  }

  /** A callback starts only for an item whose object is subscribed with that very item. */
  lemma CallbackOnlyForSubscribed(s: State)
    requires Safe(s) && s.pc.FirstCheck? && Enabled(s, Proceed)
    requires Apply(s, Proceed).pc.InCallback?
    ensures var i := s.pc.item;
            s.reactor.items[i].obj in s.reactor.tree && s.reactor.tree[s.reactor.items[i].obj] == i
  {
    assert ItemEntry(s.reactor, s.pc.item, Held(s.pc));
  }

  /** A deferred free hits an item that nothing refers to any more, and leaves no unsubscribed item behind. */
  lemma FreedOnceAndForgotten(s: State)
    requires Safe(s) && s.pc.FreeItem? && Enabled(s, Proceed)
    ensures var i, r := s.pc.item, s.reactor;
            && i in r.items && i !in r.waiting && i !in r.tree.Values
            && (forall o, d :: o in r.links ==> Slot(r.links[o], d) != i)
            && (forall j :: j in Apply(s, Proceed).reactor.items ==> r.items[j].owned)
  {
    var i, r := s.pc.item, s.reactor;
    forall o | o in r.tree ensures r.tree[o] != i {
      assert TreeEntry(r, o);
    }
    forall o, d | o in r.links ensures Slot(r.links[o], d) != i {
      assert LinkEntry(r, o, d);
      assert ItemEntry(r, i, i);
    }
    forall j | j in r.items && j != i ensures r.items[j].owned {
      assert ItemEntry(r, j, i);
    }
  }

  // --- No lost level event -------------------------------------------------------------------

  /** The loop will look at the level of item `i` again before it forgets the item. */
  predicate Covers(pc: Pc, i: int) {
    match pc
    case FirstCheck(j, _) => i == j
    case InCallback(j, _) => i == j
    case SecondCheck(j, _) => i == j
    case Finish(j, status, _) => i == j && status.Incomplete?
    case Requeue(j, _) => i == j
    case _ => false
  }

  /** A high level of a level-triggered subscription is queued, in hand, or about to be notified. */
  ghost predicate Pursued(s: State, o: int) {
    && o in s.reactor.tree && o in s.sources && s.reactor.tree[o] in s.reactor.items
    && var i := s.reactor.tree[o];
       var item := s.reactor.items[i];
       !item.edge && Level(s.sources[o], item.direction) ==>
         i in s.reactor.waiting || Covers(s.pc, i) || (o, item.direction) in s.owed
  }

  ghost predicate NoLostLevel(s: State) {
    forall o {:trigger Pursued(s, o)} :: o in s.reactor.tree ==> Pursued(s, o)
  }

  /** A level only rises by an operation that owes the notification for that direction. */
  lemma RisesOnlyWhenOwed(src: Source, op: Operation, d: Direction)
    requires Succeeds(src, op) && Level(Operated(src, op), d) && !Level(src, d)
    ensures Notifies(op) == d
  {
  }

  lemma PursuedAfterOperation(s: State, o: int, op: Operation, p: int)
    requires Pursued(s, p) && o in s.sources && Succeeds(s.sources[o], op)
    ensures Pursued(AfterOperation(s, o, op), p)
  {
    if p == o {
      var d := s.reactor.items[s.reactor.tree[p]].direction;
      if Level(Operated(s.sources[o], op), d) && !Level(s.sources[o], d) {
        RisesOnlyWhenOwed(s.sources[o], op, d);
      }
    }
  }

  lemma PursuedAfterNotify(s: State, o: int, d: Direction, p: int)
    requires Safe(s) && Pursued(s, p) && o in s.reactor.links
    ensures Pursued(Notified(s, o, d), p)
  {
    assert TreeEntry(s.reactor, p);
    var i := s.reactor.tree[p];
    assert ItemEntry(s.reactor, i, Held(s.pc));
    var item, s' := s.reactor.items[i], Notified(s, o, d);
    if p == o && item.direction == d {
      assert i in s'.reactor.waiting;
    } else {
      assert (p, item.direction) in s.owed ==> (p, item.direction) in s'.owed;
    }
  }

  lemma PursuedAfterSubscribe(s: State, i: int, o: int, d: Direction, edge: bool, p: int)
    requires Safe(s) && Enabled(s, Subscribe(i, o, d, edge)) && (p == o || Pursued(s, p))
    ensures Pursued(AfterSubscribe(s, i, o, d, edge), p)
  {
  }

  lemma PursuedAfterUnsubscribe(s: State, o: int, p: int)
    requires Safe(s) && Enabled(s, Unsubscribe(o)) && Pursued(s, p) && p != o
    ensures Pursued(s.(reactor := Unsubscribed(s.reactor, o, Held(s.pc))), p)
  {
    assert TreeEntry(s.reactor, o) && TreeEntry(s.reactor, p);
    UnlinkElements(s.reactor.waiting, s.reactor.tree[o]);
    var i := s.reactor.tree[p];
    assert i in s.reactor.waiting ==> i in Elements(Unlink(s.reactor.waiting, s.reactor.tree[o]));
  }

  lemma PursuedAfterEventStep(s: State, p: int)
    requires Safe(s) && CanProceed(s) && BeforeSync(s.pc) && Pursued(s, p)
    ensures Pursued(EventStep(s), p)
  {
    assert TreeEntry(s.reactor, p);
    if s.pc.PopItem? && s.reactor.waiting != [] {
      HeadUnlinked(s.reactor.waiting);
      assert s.reactor.waiting == [s.reactor.waiting[0]] + s.reactor.waiting[1..];
    }
  }

  lemma PursuedOtherwise(s: State, step: Step, p: int)
    requires Safe(s) && Enabled(s, step) && LeavesReactor(s, step) && !step.Operate? && Pursued(s, p)
    ensures Pursued(Apply(s, step), p)
  {
    ReactorKept(s, step);
    var s' := Apply(s, step);
    assert s'.sources == s.sources && s'.owed == s.owed;
    assert !s.reactor.items[s.reactor.tree[p]].edge && Covers(s.pc, s.reactor.tree[p]) ==> Covers(s'.pc, s.reactor.tree[p]);
  }

  lemma PursuedAfterReactorStep(s: State, step: Step, p: int)
    requires Safe(s) && Enabled(s, step) && !LeavesReactor(s, step)
    requires p in Apply(s, step).reactor.tree && (p in s.reactor.tree ==> Pursued(s, p))
    ensures Pursued(Apply(s, step), p)
  {
    hide Safe, Pursued, Unlink, Level;
    match step
    case Notify(o, d) => PursuedAfterNotify(s, o, d, p);
    case Subscribe(i, o, d, edge) => PursuedAfterSubscribe(s, i, o, d, edge, p);
    case Unsubscribe(o) => PursuedAfterUnsubscribe(s, o, p);
    case Proceed => PursuedAfterEventStep(s, p);
  }

  lemma NoLostLevelStep(s: State, step: Step)
    requires Safe(s) && NoLostLevel(s) && Enabled(s, step)
    ensures NoLostLevel(Apply(s, step))
  {
    forall p | p in Apply(s, step).reactor.tree ensures Pursued(Apply(s, step), p) {
      assert p in s.reactor.tree ==> Pursued(s, p);
      if step.Operate? {
        PursuedAfterOperation(s, step.obj, step.operation, p);
      } else if LeavesReactor(s, step) {
        ReactorKept(s, step);
        PursuedOtherwise(s, step, p);
      } else {
        PursuedAfterReactorStep(s, step, p);
      }
    }
  }
}
