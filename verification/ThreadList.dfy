/** The thread list of furi/core/thread_list.c and the enumeration that fills it (furi/core/thread.c). */
module ThreadList {
  import opened Sequences

  /** The fields the list and its upkeep use. */
  datatype Item = Item(thread: int, tick: nat, previous: nat, current: nat)

  /** One task in the kernel's run-time statistics. */
  datatype TaskStatus = TaskStatus(task: int, counter: nat)

  /** Array, dictionary and the items that are allocated, by address. */
  datatype ThreadTable = ThreadTable(items: seq<int>, search: map<int, int>, store: map<int, Item>)

  /** Array and dictionary name exactly the allocated items, each once and under its own thread. */
  ghost predicate InStep(l: ThreadTable) {
    && Distinct(l.items) && Elements(l.items) == l.store.Keys
    && (forall x :: x in l.store ==> Filed(l, x))
    && (forall k :: k in l.search ==> Names(l, k))
  }

  predicate Filed(l: ThreadTable, x: int)
    requires x in l.store
  {
    l.store[x].thread in l.search && l.search[l.store[x].thread] == x
  }

  predicate Names(l: ThreadTable, k: int)
    requires k in l.search
  {
    l.search[k] in l.store && l.store[l.search[k]].thread == k
  }

  /** Array and dictionary are in bijection. */
  lemma Bijection(l: ThreadTable)
    requires InStep(l)
    ensures forall k :: k in l.search ==> l.search[k] in l.items
    ensures forall x :: x in l.items ==> exists k :: k in l.search && l.search[k] == x
    ensures forall j, k :: j in l.search && k in l.search && l.search[j] == l.search[k] ==> j == k
  {
    forall k | k in l.search ensures l.search[k] in l.items {
      assert Names(l, k);
      assert l.search[k] in Elements(l.items);
    }
    forall x | x in l.items ensures exists k :: k in l.search && l.search[k] == x {
      assert x in Elements(l.items);
      assert Filed(l, x);
    }
    forall j, k | j in l.search && k in l.search && l.search[j] == l.search[k] ensures j == k {
      assert Names(l, j) && Names(l, k);
    }
  }

  // --- Dropping items --------------------------------------------------------------------------

  function DropAt(l: ThreadTable, i: nat): ThreadTable
    requires i < |l.items| && l.items[i] in l.store
  {
    var x := l.items[i];
    ThreadTable(Without(l.items, i), l.search - {l.store[x].thread}, l.store - {x})
  }

  lemma DropInStep(l: ThreadTable, i: nat)
    requires InStep(l) && i < |l.items|
    ensures l.items[i] in l.store && InStep(DropAt(l, i))
  {
    var x := l.items[i];
    assert x in Elements(l.items);
    assert Filed(l, x);
    var r := DropAt(l, i);
    DistinctWithout(l.items, i);
    forall y | y in r.store ensures Filed(r, y) {
      assert Filed(l, y);
    }
    forall k | k in r.search ensures Names(r, k) {
      assert Names(l, k);
    }
  }

  /** The addresses in `items` whose item was last seen at `tick`, in order. */
  function Survivors(items: seq<int>, store: map<int, Item>, tick: nat): seq<int> {
    if items == [] then []
    else (if items[0] in store && store[items[0]].tick == tick then [items[0]] else [])
         + Survivors(items[1..], store, tick)
  }

  lemma {:induction false} AllSurvive(items: seq<int>, store: map<int, Item>, tick: nat)
    requires forall i :: 0 <= i < |items| ==> Current(items[i], store, tick)
    ensures Survivors(items, store, tick) == items
  {
    if items != [] {
      AllSurvive(items[1..], store, tick);
    }
  }

  lemma {:induction false} StaleDoesNotSurvive(items: seq<int>, store: map<int, Item>, tick: nat, i: nat)
    requires i < |items| && items[i] in store && store[items[i]].tick != tick
    ensures Survivors(Without(items, i), store, tick) == Survivors(items, store, tick)
  {
    if i == 0 {
      assert Without(items, i) == items[1..];
    } else {
      assert Without(items, i)[1..] == Without(items[1..], i - 1);
      StaleDoesNotSurvive(items[1..], store, tick, i - 1);
    }
  }

  /** `s` holds those entries of `was` that were seen at `tick`, and perhaps others of `was`. */
  ghost predicate Between(s: map<int, Item>, was: map<int, Item>, tick: nat) {
    && (forall x :: x in s ==> x in was && s[x] == was[x])
    && (forall x :: x in was && was[x].tick == tick ==> x in s)
  }

  lemma BetweenItself(s: map<int, Item>, tick: nat)
    ensures Between(s, s, tick)
  {
  }

  lemma StillCurrent(s: map<int, Item>, was: map<int, Item>, tick: nat, x: int)
    requires Between(s, was, tick) && x in s
    ensures x in was && s[x] == was[x]
  {
  }

  /** Dropping a stale item keeps all entries of this tick. */
  lemma DropBetween(l: ThreadTable, was: map<int, Item>, tick: nat, i: nat)
    requires Between(l.store, was, tick) && i < |l.items| && l.items[i] in l.store && l.store[l.items[i]].tick != tick
    ensures Between(DropAt(l, i).store, was, tick)
  {
  }

  predicate Current(x: int, was: map<int, Item>, tick: nat) {
    x in was && was[x].tick == tick
  }

  // --- The entry of a thread -------------------------------------------------------------------

  predicate Knows(l: ThreadTable, k: int) {
    k in l.search && l.search[k] in l.store
  }

  /** What the list says of thread `k`. */
  function EntryOf(l: ThreadTable, k: int): Item
    requires Knows(l, k)
  {
    l.store[l.search[k]]
  }

  lemma KnowsIffListed(l: ThreadTable, k: int)
    requires InStep(l)
    ensures k in l.search <==> Knows(l, k)
    ensures Knows(l, k) <==> exists x :: x in l.items && x in l.store && l.store[x].thread == k
  {
    if k in l.search {
      assert Names(l, k);
      assert l.search[k] in Elements(l.items);
    }
    forall x | x in l.items && x in l.store && l.store[x].thread == k ensures Knows(l, k) {
      assert Filed(l, x);
    }
  }

  /** After pruning, exactly the threads seen at `tick` are known, with the entry they had. */
  lemma PrunedEntries(l: ThreadTable, was: ThreadTable, tick: nat, k: int)
    requires InStep(l) && InStep(was) && Between(l.store, was.store, tick)
    requires forall x :: x in l.store ==> l.store[x].tick == tick
    ensures Knows(l, k) <==> Knows(was, k) && EntryOf(was, k).tick == tick
    ensures Knows(l, k) ==> EntryOf(l, k) == EntryOf(was, k)
  {
    if Knows(l, k) {
      assert Names(l, k);
      assert Filed(was, l.search[k]);
    }
    if Knows(was, k) && EntryOf(was, k).tick == tick {
      assert Names(was, k);
      assert Filed(l, was.search[k]);
    }
  }

  lemma Pruned(l: ThreadTable, was: ThreadTable, tick: nat)
    requires InStep(l) && InStep(was) && Between(l.store, was.store, tick)
    requires forall j :: 0 <= j < |l.items| ==> Current(l.items[j], was.store, tick)
    ensures forall k :: Knows(l, k) <==> Knows(was, k) && EntryOf(was, k).tick == tick
    ensures forall k :: Knows(l, k) ==> EntryOf(l, k) == EntryOf(was, k)
  {
    forall x | x in l.store ensures l.store[x].tick == tick {
      assert x in Elements(l.items);
    }
    forall k {
      PrunedEntries(l, was, tick, k);
    }
  }

  /** The list after its item for `task` has been found or made, and filled in. */
  lemma FilledInStep(l: ThreadTable, x: int, item: Item)
    requires InStep(l) && Knows(l, item.thread) && l.search[item.thread] == x
    ensures InStep(l.(store := l.store[x := item]))
  {
    var r := l.(store := l.store[x := item]);
    assert Names(l, item.thread);
    forall y | y in r.store ensures Filed(r, y) {
      assert Filed(l, y);
    }
    forall k | k in r.search ensures Names(r, k) {
      assert Names(l, k);
    }
  }

  lemma InsertedInStep(l: ThreadTable, x: int, item: Item)
    requires InStep(l) && x !in l.store && item.thread !in l.search
    ensures InStep(ThreadTable(l.items + [x], l.search[item.thread := x], l.store[x := item]))
  {
    var r := ThreadTable(l.items + [x], l.search[item.thread := x], l.store[x := item]);
    assert x !in Elements(l.items);
    AppendElements(l.items, x);
    forall y | y in r.store ensures Filed(r, y) {
      assert y != x ==> Filed(l, y);
    }
    forall k | k in r.search ensures Names(r, k) {
      assert k != item.thread ==> Names(l, k);
    }
  }

  /** The entry a scan at `tick` leaves for a task: the counters move up by one. */
  function Scanned(l: ThreadTable, t: TaskStatus, tick: nat): Item {
    Item(t.task, tick, if Knows(l, t.task) then EntryOf(l, t.task).current else 0, t.counter)
  }

  /** `l` is `was` after a scan of `tasks` at `tick`. */
  ghost predicate ScannedAll(l: ThreadTable, was: ThreadTable, tasks: seq<TaskStatus>, tick: nat) {
    && (forall i :: 0 <= i < |tasks| ==> Knows(l, tasks[i].task) && EntryOf(l, tasks[i].task) == Scanned(was, tasks[i], tick))
    && (forall k :: !Listed(tasks, k) ==> Untouched(l, was, k))
  }

  predicate Listed(tasks: seq<TaskStatus>, k: int) {
    exists i :: 0 <= i < |tasks| && tasks[i].task == k
  }

  predicate Untouched(l: ThreadTable, was: ThreadTable, k: int) {
    (Knows(l, k) <==> Knows(was, k)) && (Knows(l, k) ==> EntryOf(l, k) == EntryOf(was, k))
  }

  ghost predicate DistinctTasks(tasks: seq<TaskStatus>) {
    forall i, j :: 0 <= i < j < |tasks| ==> tasks[i].task != tasks[j].task
  }

  /** One more task: its own entry is new, every other one is as it was. */
  lemma ScanOneMore(l: ThreadTable, m: ThreadTable, was: ThreadTable, tasks: seq<TaskStatus>, n: nat, tick: nat)
    requires n < |tasks| && DistinctTasks(tasks)
    requires ScannedAll(l, was, tasks[..n], tick)
    requires Knows(m, tasks[n].task) && EntryOf(m, tasks[n].task) == Scanned(l, tasks[n], tick)
    requires forall k :: k != tasks[n].task ==> Untouched(m, l, k)
    ensures ScannedAll(m, was, tasks[..n + 1], tick)
  {
    var t := tasks[n];
    assert !Listed(tasks[..n], t.task);
    assert Untouched(l, was, t.task);
    forall i | 0 <= i < n ensures Knows(m, tasks[i].task) && EntryOf(m, tasks[i].task) == Scanned(was, tasks[i], tick) {
      assert tasks[..n][i] == tasks[i];
      assert Untouched(m, l, tasks[i].task);
    }
    forall k | !Listed(tasks[..n + 1], k) ensures Untouched(m, was, k) {
      assert tasks[..n + 1][n] == t;
      forall i | 0 <= i < n ensures tasks[..n][i].task != k {
        assert tasks[..n + 1][i] == tasks[i];
      }
      assert Untouched(m, l, k) && Untouched(l, was, k);
    }
  }

  /** A thread that has gone stays listed only if it was last seen at this very tick. */
  ghost predicate Stale(was: ThreadTable, tasks: seq<TaskStatus>, tick: nat, k: int) {
    Knows(was, k) && EntryOf(was, k).tick == tick && !Listed(tasks, k)
  }

  lemma KnownAfterPrune(l: ThreadTable, m: ThreadTable, was: ThreadTable, tasks: seq<TaskStatus>, tick: nat, k: int)
    requires ScannedAll(m, was, tasks, tick)
    requires Knows(l, k) <==> Knows(m, k) && EntryOf(m, k).tick == tick
    ensures Knows(l, k) <==> Listed(tasks, k) || Stale(was, tasks, tick, k)
  {
    if Listed(tasks, k) {
      var i :| 0 <= i < |tasks| && tasks[i].task == k;
      assert EntryOf(m, tasks[i].task) == Scanned(was, tasks[i], tick);
    } else {
      assert Untouched(m, was, k);
    }
  }

  class FuriThreadList {
    var items: seq<int>
    var search: map<int, int>
    var store: map<int, Item>

    ghost function View(): ThreadTable
      reads this
    {
      ThreadTable(items, search, store)
    }

    constructor ()
      ensures InStep(View()) && items == [] && store == map[]
    {
      items, search, store := [], map[], map[];
    }

    /** A new item is zeroed memory at an `address` that holds no other item. */
    method GetOrInsert(thread: int, address: int) returns (x: int)
      requires address !in store
      modifies this
      ensures thread in old(search) ==> x == old(search)[thread] && View() == old(View())
      ensures thread !in old(search) ==>
                x == address
                && View() == ThreadTable(old(items) + [x], old(search)[thread := x], old(store)[x := Item(0, 0, 0, 0)])
    {
      if thread in search {
        return search[thread];
      }
      x := address;
      store := store[x := Item(0, 0, 0, 0)];
      items := items + [x];
      search := search[thread := x];
    }

    /** The caller's half: find the item of a task and fill it in. */
    method Observe(t: TaskStatus, tick: nat, address: int)
      requires InStep(View()) && address !in store
      modifies this
      ensures InStep(View())
      ensures Knows(View(), t.task) && EntryOf(View(), t.task) == Scanned(old(View()), t, tick)
      ensures forall k :: k != t.task ==> Untouched(View(), old(View()), k)
      ensures forall x :: x in store ==> x in old(store) || x == address
    {
      KnowsIffListed(View(), t.task);
      ghost var was := View();
      var x := GetOrInsert(t.task, address);
      var item := Item(t.task, tick, store[x].current, t.counter);
      if t.task in was.search {
        FilledInStep(was, x, item);
      } else {
        InsertedInStep(was, x, item);
      }
      store := store[x := item];
      UntouchedByObserve(View(), was, x, item);
    }

    method Drop(i: nat)
      requires InStep(View()) && i < |items|
      modifies this
      ensures |items| == |old(items)| - 1 && items[..i] == old(items)[..i]
      ensures old(items)[i] in old(store) && View() == DropAt(old(View()), i) && InStep(View())
    {
      DropInStep(View(), i);
      var x := items[i];
      items := items[..i] + items[i + 1..];
      search := search - {store[x].thread};
      store := store - {x};
    }

    /** Items not seen at `tick` leave the array, the dictionary and the heap together. */
    method Process(tick: nat)
      requires InStep(View())
      modifies this
      ensures InStep(View())
      ensures items == Survivors(old(items), old(store), tick)
      ensures forall x :: x in store ==> x in old(store)
      ensures forall k :: Knows(View(), k) <==> Knows(old(View()), k) && EntryOf(old(View()), k).tick == tick
      ensures forall k :: Knows(View(), k) ==> EntryOf(View(), k) == EntryOf(old(View()), k)
    {
      hide Survivors, Between, Filed, Names, Without, Distinct;
      ghost var was := View();
      var i := 0;
      BetweenItself(store, tick);
      while i < |items|
        invariant 0 <= i <= |items|
        invariant InStep(View()) && Between(store, was.store, tick)
        invariant forall j :: 0 <= j < i ==> Current(items[j], was.store, tick)
        invariant Survivors(items, was.store, tick) == Survivors(was.items, was.store, tick)
        decreases |items| - i
      {
        assert items[i] in Elements(items);
        StillCurrent(store, was.store, tick, items[i]);
        if store[items[i]].tick != tick {
          StaleDoesNotSurvive(items, was.store, tick, i);
          DropBetween(View(), was.store, tick, i);
          Drop(i);
        } else {
          i := i + 1;
        }
      }
      AllSurvive(items, was.store, tick);
      Pruned(View(), was, tick);
    }

    /** One enumeration of all tasks; `addresses[i]` is what the heap would give for task `i`. */
    method Enumerate(tasks: seq<TaskStatus>, tick: nat, addresses: seq<int>)
      requires InStep(View()) && DistinctTasks(tasks) && |addresses| == |tasks|
      requires forall i, j :: 0 <= i < j < |tasks| ==> addresses[i] != addresses[j]
      requires forall i :: 0 <= i < |tasks| ==> addresses[i] !in store
      modifies this
      ensures InStep(View())
      ensures forall x :: x in store ==> x in old(store) || x in addresses
      ensures forall k :: Knows(View(), k) <==> Listed(tasks, k) || Stale(old(View()), tasks, tick, k)
      ensures forall i :: 0 <= i < |tasks| ==>
                Knows(View(), tasks[i].task) && EntryOf(View(), tasks[i].task) == Scanned(old(View()), tasks[i], tick)
    {
      ghost var was := View();
      var n := 0;
      while n < |tasks|
        invariant 0 <= n <= |tasks|
        invariant InStep(View())
        invariant ScannedAll(View(), was, tasks[..n], tick)
        invariant forall x :: x in store ==> x in was.store || x in addresses
        invariant forall i :: n <= i < |tasks| ==> addresses[i] !in store
      {
        ghost var before := View();
        Observe(tasks[n], tick, addresses[n]);
        ScanOneMore(before, View(), was, tasks, n, tick);
        n := n + 1;
      }
      assert tasks[..n] == tasks;
      ghost var full := View();
      Process(tick);
      forall k {
        KnownAfterPrune(View(), full, was, tasks, tick, k);
      }
    }
  }

  /** A thread seen at tick 5 and gone is still known after a second enumeration at tick 5. */
  method GoneThreadStays() returns (known: bool)
    ensures known
  {
    var list := new FuriThreadList();
    list.Enumerate([TaskStatus(3, 0)], 5, [7]);
    assert Listed([TaskStatus(3, 0)], 3) by { assert [TaskStatus(3, 0)][0].task == 3; }
    ghost var was := list.View();
    assert EntryOf(was, [TaskStatus(3, 0)][0].task).tick == 5;
    list.Enumerate([], 5, []);
    assert Stale(was, [], 5, 3);
    known := 3 in list.search;
  }

  /**
   After two enumerations that list a task, its entry has the counter of the first as previous and that of the second
   as current one, and the second tick.
   */
  method ScanTwice(list: FuriThreadList, before: seq<TaskStatus>, tick: nat, addresses: seq<int>,
                   after: seq<TaskStatus>, later: nat, more: seq<int>, i: nat, j: nat)
    requires InStep(list.View())
    requires DistinctTasks(before) && |addresses| == |before|
    requires DistinctTasks(after) && |more| == |after|
    requires forall a, b :: 0 <= a < b < |before| ==> addresses[a] != addresses[b]
    requires forall a, b :: 0 <= a < b < |after| ==> more[a] != more[b]
    requires forall a :: 0 <= a < |before| ==> addresses[a] !in list.store
    requires forall a :: 0 <= a < |after| ==> more[a] !in list.store && more[a] !in addresses
    requires i < |before| && j < |after| && before[i].task == after[j].task
    modifies list
    ensures InStep(list.View()) && Knows(list.View(), after[j].task)
    ensures EntryOf(list.View(), after[j].task) == Item(after[j].task, later, before[i].counter, after[j].counter)
  {
    list.Enumerate(before, tick, addresses);
    assert EntryOf(list.View(), before[i].task).current == before[i].counter;
    list.Enumerate(after, later, more);
  }

  lemma UntouchedByObserve(l: ThreadTable, was: ThreadTable, x: int, item: Item)
    requires InStep(was) && InStep(l)
    requires item.thread in was.search ==> was.search[item.thread] == x && l == was.(store := was.store[x := item])
    requires item.thread !in was.search ==>
               x !in was.store
               && l == ThreadTable(was.items + [x], was.search[item.thread := x], was.store[x := item])
    ensures forall k :: k != item.thread ==> Untouched(l, was, k)
  {
    forall k | k != item.thread ensures Untouched(l, was, k) {
      if k in was.search {
        assert Names(was, k);
      }
      if item.thread in was.search {
        assert Names(was, item.thread);
      }
    }
  }
}
