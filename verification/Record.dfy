/** The record registry of furi/core/record.c: blocking open, create, destroy and close. */
module Record {
  const SIZE_T: nat := 0x1_0000_0000
  const NULL: nat := 0

  /** `id` stands for the address of the dictionary entry: every new entry gets a fresh one. */
  datatype RecordData = RecordData(id: nat, ready: bool, data: nat, holders: nat)

  datatype Registry = Registry(records: map<string, RecordData>, next: nat)

  /** `holders_count` is a size_t: it wraps. */
  function Increment(n: nat): (r: nat)
    ensures n + 1 < SIZE_T ==> r == n + 1
  {
    (n + 1) % SIZE_T
  }

  function Decrement(n: nat): (r: nat)
    ensures 0 < n < SIZE_T ==> r == n - 1
    ensures n == 0 ==> r == SIZE_T - 1
  {
    (n + SIZE_T - 1) % SIZE_T
  }

  function GetOrCreate(g: Registry, name: string): Registry {
    if name in g.records then g
    else Registry(g.records[name := RecordData(g.next, false, NULL, 0)], g.next + 1)
  }

  function Put(g: Registry, name: string, r: RecordData): Registry {
    g.(records := g.records[name := r])
  }

  predicate CanCreate(g: Registry, name: string, data: nat) {
    data != NULL && (name in g.records ==> g.records[name].data == NULL)
  }

  function Created(g: Registry, name: string, data: nat): Registry {
    var n := GetOrCreate(g, name);
    Put(n, name, n.records[name].(data := data, ready := true))
  }

  function Destroyed(g: Registry, name: string): Registry {
    if name in g.records && g.records[name].holders == 0 then g.(records := g.records - {name}) else g
  }

  function OpenBegun(g: Registry, name: string): Registry {
    var n := GetOrCreate(g, name);
    var r := n.records[name];
    Put(n, name, r.(holders := Increment(r.holders)))
  }

  function Closed(g: Registry, name: string): Registry
    requires name in g.records
  {
    var r := g.records[name];
    Put(g, name, r.(holders := Decrement(r.holders)))
  }

  // --- The registry object ---------------------------------------------------------------------

  /** Each method is one critical section under the registry's mutex. */
  class FuriRecord {
    var records: map<string, RecordData>
    var next: nat

    ghost function View(): Registry
      reads this
    {
      Registry(records, next)
    }

    constructor ()
      ensures View() == Registry(map[], 0)
    {
      records := map[];
      next := 0;
    }

    method DataGetOrCreate(name: string)
      modifies this
      ensures View() == GetOrCreate(old(View()), name)
      ensures name in records
    {
      if name !in records {
        records := records[name := RecordData(next, false, NULL, 0)];
        next := next + 1;
      }
    }

    /** `ok` is false when a check of the source fails, which halts the system. */
    method Create(name: string, data: nat) returns (ok: bool)
      modifies this
      ensures ok <==> CanCreate(old(View()), name, data)
      ensures View() == if ok then Created(old(View()), name, data) else old(View())
      ensures ok ==> name in records && records[name].data == data && records[name].ready
      ensures ok ==> records[name].holders == if name in old(records) then old(records)[name].holders else 0
    {
      if data == NULL {
        return false;
      }
      DataGetOrCreate(name);
      if records[name].data != NULL {
        return false;
      }
      records := records[name := records[name].(data := data)];
      records := records[name := records[name].(ready := true)];
      ok := true;
    }

    method Destroy(name: string) returns (ok: bool, erased: bool)
      modifies this
      ensures ok <==> name in old(records)
      ensures erased <==> ok && old(records)[name].holders == 0
      ensures View() == Destroyed(old(View()), name)
    {
      if name !in records {
        return false, false;
      }
      ok, erased := true, false;
      if records[name].holders == 0 {
        records := records - {name};
        erased := true;
      }
    }

    /** The locked half of open; the entry's address is what the caller then waits on. */
    method OpenBegin(name: string) returns (id: nat)
      modifies this
      ensures View() == OpenBegun(old(View()), name)
      ensures id == records[name].id
    {
      DataGetOrCreate(name);
      var r := records[name];
      records := records[name := r.(holders := Increment(r.holders))];
      id := r.id;
    }

    method Close(name: string) returns (ok: bool)
      modifies this
      ensures ok <==> name in old(records)
      ensures View() == if ok then Closed(old(View()), name) else old(View())
    {
      if name !in records {
        return false;
      }
      var r := records[name];
      records := records[name := r.(holders := Decrement(r.holders))];
      ok := true;
    }
  }

  // --- Clients ---------------------------------------------------------------------------------

  /** One use of a record, from inside open to the end of close. */
  datatype Handle =
    | Waiting(name: string, id: nat)
    | Holding(name: string, id: nat, data: nat)

  datatype World = World(reg: Registry, handles: map<nat, Handle>)

  datatype Step =
    | Create(name: string, data: nat)
    | Destroy(name: string)
    | OpenBegin(h: nat, name: string)
    | OpenReturn(h: nat)
    | Close(h: nat)

  /** The entry a handle points to is still in the dictionary. */
  predicate Attached(w: World, h: Handle) {
    h.name in w.reg.records && w.reg.records[h.name].id == h.id
  }

  /** When a step may happen: checks pass, waiters see the flag, clients close only what they opened. */
  predicate Enabled(w: World, step: Step) {
    match step
    case Create(name, data) => CanCreate(w.reg, name, data)
    case Destroy(name) => name in w.reg.records
    case OpenBegin(h, _) => h !in w.handles && |w.handles| + 1 < SIZE_T
    case OpenReturn(h) =>
      h in w.handles && w.handles[h].Waiting? && Attached(w, w.handles[h]) && w.reg.records[w.handles[h].name].ready
    case Close(h) => h in w.handles && w.handles[h].Holding? && w.handles[h].name in w.reg.records
  }

  function Apply(w: World, step: Step): World
    requires Enabled(w, step)
  {
    match step
    case Create(name, data) => w.(reg := Created(w.reg, name, data))
    case Destroy(name) => w.(reg := Destroyed(w.reg, name))
    case OpenBegin(h, name) =>
      var g := OpenBegun(w.reg, name);
      World(g, w.handles[h := Waiting(name, g.records[name].id)])
    case OpenReturn(h) =>
      var u := w.handles[h];
      w.(handles := w.handles[h := Holding(u.name, u.id, w.reg.records[u.name].data)])
    case Close(h) => World(Closed(w.reg, w.handles[h].name), w.handles - {h})
  }

  /** The opens of `name` not yet closed. */
  function Opens(handles: map<nat, Handle>, name: string): set<nat> {
    set h | h in handles && handles[h].name == name
  }

  predicate RecordOk(w: World, name: string)
    requires name in w.reg.records
  {
    var r := w.reg.records[name];
    r.holders == |Opens(w.handles, name)|
    && (r.ready <==> r.data != NULL)
    && (r.data != NULL || r.holders > 0)
    && r.id < w.reg.next
  }

  predicate HandleOk(w: World, h: nat)
    requires h in w.handles
  {
    var u := w.handles[h];
    Attached(w, u)
    && (u.Holding? ==> u.data != NULL && w.reg.records[u.name].data == u.data)
  }

  predicate Invariant(w: World) {
    (forall name :: name in w.reg.records ==> RecordOk(w, name))
    && (forall h :: h in w.handles ==> HandleOk(w, h))
    && |w.handles| < SIZE_T
  }

  const Start: World := World(Registry(map[], 0), map[])

  lemma OpensBounded(handles: map<nat, Handle>, name: string)
    ensures |Opens(handles, name)| <= |handles|
  {
    Within(Opens(handles, name), handles.Keys);
  }

  lemma {:induction false} Within(a: set<nat>, b: set<nat>)
    requires a <= b
    ensures |a| <= |b|
  {
    if a != {} {
      var x :| x in a;
      Within(a - {x}, b - {x});
    }
  }

  lemma NoneOpen(w: World, name: string)
    requires Invariant(w) && name !in w.reg.records
    ensures Opens(w.handles, name) == {}
  {
    forall h | h in w.handles ensures w.handles[h].name != name {
      assert HandleOk(w, h);
    }
  }

  lemma CreateKeeps(w: World, name: string, data: nat)
    requires Invariant(w) && Enabled(w, Create(name, data))
    ensures Invariant(Apply(w, Create(name, data)))
  {
    var v := Apply(w, Create(name, data));
    if name !in w.reg.records {
      NoneOpen(w, name);
    }
    forall n | n in v.reg.records ensures RecordOk(v, n) {
      assert n != name ==> RecordOk(w, n);
      assert n in w.reg.records ==> RecordOk(w, n);
    }
    forall h | h in v.handles ensures HandleOk(v, h) {
      assert HandleOk(w, h);
    }
  }

  lemma DestroyKeeps(w: World, name: string)
    requires Invariant(w) && Enabled(w, Destroy(name))
    ensures Invariant(Apply(w, Destroy(name)))
  {
    var v := Apply(w, Destroy(name));
    assert RecordOk(w, name);
    forall n | n in v.reg.records ensures RecordOk(v, n) {
      assert RecordOk(w, n);
    }
    forall h | h in v.handles ensures HandleOk(v, h) {
      assert HandleOk(w, h);
      assert w.handles[h].name == name ==> h in Opens(w.handles, name);
    }
  }

  lemma OpensAfterOpen(handles: map<nat, Handle>, h: nat, u: Handle, name: string)
    requires h !in handles
    ensures |Opens(handles[h := u], name)| == |Opens(handles, name)| + if u.name == name then 1 else 0
  {
    assert Opens(handles[h := u], name) == Opens(handles, name) + if u.name == name then {h} else {};
  }

  lemma OpensAfterClose(handles: map<nat, Handle>, h: nat, name: string)
    requires h in handles
    ensures |Opens(handles - {h}, name)| == |Opens(handles, name)| - if handles[h].name == name then 1 else 0
  {
    assert handles[h].name == name ==> h in Opens(handles, name);
    assert Opens(handles - {h}, name) == Opens(handles, name) - if handles[h].name == name then {h} else {};
  }

  lemma OpenedRecord(w: World, h: nat, name: string)
    requires Invariant(w) && Enabled(w, OpenBegin(h, name))
    ensures RecordOk(Apply(w, OpenBegin(h, name)), name)
  {
    var v := Apply(w, OpenBegin(h, name));
    OpensAfterOpen(w.handles, h, v.handles[h], name);
    OpensBounded(w.handles, name);
    if name in w.reg.records {
      assert RecordOk(w, name);
    } else {
      NoneOpen(w, name);
    }
  }

  lemma OtherRecord(w: World, h: nat, name: string, n: string)
    requires Invariant(w) && Enabled(w, OpenBegin(h, name))
    requires n != name && n in w.reg.records
    ensures RecordOk(Apply(w, OpenBegin(h, name)), n)
  {
    var v := Apply(w, OpenBegin(h, name));
    OpensAfterOpen(w.handles, h, v.handles[h], n);
    assert RecordOk(w, n);
  }

  lemma OpenBeginKeeps(w: World, h: nat, name: string)
    requires Invariant(w) && Enabled(w, OpenBegin(h, name))
    ensures Invariant(Apply(w, OpenBegin(h, name)))
  {
    var v := Apply(w, OpenBegin(h, name));
    assert v.handles.Keys == w.handles.Keys + {h};
    forall n | n in v.reg.records ensures RecordOk(v, n) {
      if n == name {
        OpenedRecord(w, h, name);
      } else {
        OtherRecord(w, h, name, n);
      }
    }
    forall k | k in v.handles ensures HandleOk(v, k) {
      assert k != h ==> HandleOk(w, k);
    }
  }

  lemma OpensAfterReturn(handles: map<nat, Handle>, h: nat, u: Handle, name: string)
    requires h in handles && u.name == handles[h].name
    ensures Opens(handles[h := u], name) == Opens(handles, name)
  {
  }

  lemma ReturnedHandle(w: World, h: nat, k: nat)
    requires Enabled(w, OpenReturn(h)) && k in w.handles && HandleOk(w, k)
    requires w.handles[h].name in w.reg.records && RecordOk(w, w.handles[h].name)
    ensures HandleOk(Apply(w, OpenReturn(h)), k)
  {
    hide Opens;
  }

  lemma OpenReturnKeeps(w: World, h: nat)
    requires Invariant(w) && Enabled(w, OpenReturn(h))
    ensures Invariant(Apply(w, OpenReturn(h)))
  {
    var v := Apply(w, OpenReturn(h));
    assert v.handles.Keys == w.handles.Keys;
    assert RecordOk(w, w.handles[h].name);
    forall n | n in v.reg.records ensures RecordOk(v, n) {
      assert RecordOk(w, n);
      OpensAfterReturn(w.handles, h, v.handles[h], n);
    }
    forall k | k in v.handles ensures HandleOk(v, k) {
      assert HandleOk(w, k);
      ReturnedHandle(w, h, k);
    }
  }

  lemma CloseRecord(w: World, h: nat, n: string)
    requires Invariant(w) && Enabled(w, Close(h)) && n in w.reg.records
    ensures RecordOk(Apply(w, Close(h)), n)
  {
    OpensAfterClose(w.handles, h, n);
    OpensBounded(w.handles, n);
    assert RecordOk(w, n) && HandleOk(w, h);
    assert w.handles[h].name == n ==> h in Opens(w.handles, n);
  }

  lemma CloseKeeps(w: World, h: nat)
    requires Invariant(w) && Enabled(w, Close(h))
    ensures Invariant(Apply(w, Close(h)))
  {
    var v := Apply(w, Close(h));
    assert v.handles.Keys == w.handles.Keys - {h};
    forall n | n in v.reg.records ensures RecordOk(v, n) {
      CloseRecord(w, h, n);
    }
    forall k | k in v.handles ensures HandleOk(v, k) {
      assert HandleOk(w, k);
    }
  }

  lemma InvariantStep(w: World, step: Step)
    requires Invariant(w) && Enabled(w, step)
    ensures Invariant(Apply(w, step))
  {
    match step
    case Create(name, data) => CreateKeeps(w, name, data);
    case Destroy(name) => DestroyKeeps(w, name);
    case OpenBegin(h, name) => OpenBeginKeeps(w, h, name);
    case OpenReturn(h) => OpenReturnKeeps(w, h);
    case Close(h) => CloseKeeps(w, h);
  }

  // --- Runs ------------------------------------------------------------------------------------

  predicate Runs(w: World, steps: seq<Step>)
    decreases |steps|
  {
    steps == [] || (Enabled(w, steps[0]) && Runs(Apply(w, steps[0]), steps[1..]))
  }

  function Run(w: World, steps: seq<Step>): World
    requires Runs(w, steps)
    decreases |steps|
  {
    if steps == [] then w else Run(Apply(w, steps[0]), steps[1..])
  }

  lemma {:induction false} RunKeepsInvariant(w: World, steps: seq<Step>)
    requires Invariant(w) && Runs(w, steps)
    ensures Invariant(Run(w, steps))
    decreases |steps|
  {
    if steps != [] {
      InvariantStep(w, steps[0]);
      RunKeepsInvariant(Apply(w, steps[0]), steps[1..]);
    }
  }

  /** Every interleaving of well-paired clients, from the empty registry. */
  lemma RecordSafety(steps: seq<Step>)
    requires Runs(Start, steps)
    ensures Invariant(Run(Start, steps))
  {
    RunKeepsInvariant(Start, steps);
  }

  /** A record is destroyed exactly when nobody has it open or waits for it. */
  lemma DestroySucceedsIffUnused(w: World, name: string)
    requires Invariant(w) && Enabled(w, Destroy(name))
    ensures name !in Apply(w, Destroy(name)).reg.records <==> Opens(w.handles, name) == {}
  {
    assert RecordOk(w, name);
  }

  /** The checks in close, and the reads through the entry address after unlocking, never fail. */
  lemma CloseAndReturnNeverFault(w: World, h: nat)
    requires Invariant(w) && h in w.handles
    ensures w.handles[h].Holding? ==> Enabled(w, Close(h))
    ensures Attached(w, w.handles[h])
    ensures w.handles[h].Waiting? ==> (Enabled(w, OpenReturn(h)) <==> w.reg.records[w.handles[h].name].data != NULL)
  {
    assert HandleOk(w, h);
    assert RecordOk(w, w.handles[h].name);
  }

  lemma HandleStays(w: World, step: Step, h: nat)
    requires Enabled(w, step) && h in w.handles && step != Close(h) && step != OpenReturn(h)
    ensures h in Apply(w, step).handles && Apply(w, step).handles[h] == w.handles[h]
  {
  }

  /** A step neither erases the entry an unfinished open or a holder uses nor changes its data. */
  lemma HeldThroughStep(w: World, step: Step, h: nat)
    requires Invariant(w) && Enabled(w, step)
    requires h in w.handles && step != Close(h) && step != OpenReturn(h)
    ensures h in Apply(w, step).handles && Apply(w, step).handles[h] == w.handles[h]
    ensures Attached(w, w.handles[h]) && Attached(Apply(w, step), w.handles[h])
    ensures w.reg.records[w.handles[h].name].data != NULL ==>
              Apply(w, step).reg.records[w.handles[h].name].data == w.reg.records[w.handles[h].name].data
  {
    hide Enabled, Apply, RecordOk;
    InvariantStep(w, step);
    HandleStays(w, step, h);
    assert HandleOk(w, h) && HandleOk(Apply(w, step), h);
    if w.reg.records[w.handles[h].name].data != NULL {
      DataComesFromCreate(w, step, w.handles[h].name);
    }
  }

  /** From the return of an open to its close the record stays and its data never changes. */
  lemma {:induction false} HeldUntilClosed(w: World, steps: seq<Step>, h: nat)
    requires Invariant(w) && Runs(w, steps)
    requires h in w.handles && w.handles[h].Holding?
    requires Close(h) !in steps
    ensures h in Run(w, steps).handles && Run(w, steps).handles[h] == w.handles[h]
    ensures Attached(Run(w, steps), w.handles[h])
    ensures Run(w, steps).reg.records[w.handles[h].name].data == w.handles[h].data != NULL
    decreases |steps|
  {
    assert HandleOk(w, h);
    if steps != [] {
      assert steps[0] in steps;
      HeldThroughStep(w, steps[0], h);
      InvariantStep(w, steps[0]);
      HeldUntilClosed(Apply(w, steps[0]), steps[1..], h);
    }
  }

  /** A record with data keeps it for a waiting open, which stays able to return. */
  lemma {:induction false} DataStaysForWaiter(w: World, steps: seq<Step>, h: nat)
    requires Invariant(w) && Runs(w, steps)
    requires h in w.handles && w.handles[h].Waiting? && OpenReturn(h) !in steps
    requires Attached(w, w.handles[h]) && w.reg.records[w.handles[h].name].data != NULL
    ensures h in Run(w, steps).handles && Enabled(Run(w, steps), OpenReturn(h))
    ensures Apply(Run(w, steps), OpenReturn(h)).handles[h]
         == Holding(w.handles[h].name, w.handles[h].id, w.reg.records[w.handles[h].name].data)
    decreases |steps|
  {
    if steps == [] {
      CloseAndReturnNeverFault(w, h);
    } else {
      assert steps[0] in steps;
      HeldThroughStep(w, steps[0], h);
      InvariantStep(w, steps[0]);
      DataStaysForWaiter(Apply(w, steps[0]), steps[1..], h);
    }
  }

  /**
   Data can be created for every name that has none, whoever holds or awaits it; then the record has that data
   and every open waiting for it can return.
   */
  lemma CreateFillsAndWakes(w: World, name: string, data: nat)
    requires Invariant(w) && data != NULL && (name in w.reg.records ==> w.reg.records[name].data == NULL)
    ensures Enabled(w, Create(name, data))
    ensures var v := Apply(w, Create(name, data));
            && v.handles == w.handles && name in v.reg.records && v.reg.records[name].data == data
            && forall h :: h in v.handles && v.handles[h].name == name ==>
                 && v.handles[h].Waiting? && Enabled(v, OpenReturn(h))
                 && Apply(v, OpenReturn(h)).handles[h] == Holding(name, v.handles[h].id, data)
  {
    var v := Apply(w, Create(name, data));
    CreateKeeps(w, name, data);
    forall h | h in v.handles && v.handles[h].name == name
      ensures v.handles[h].Waiting? && Enabled(v, OpenReturn(h))
      ensures Apply(v, OpenReturn(h)).handles[h] == Holding(name, v.handles[h].id, data)
    {
      assert HandleOk(w, h) && HandleOk(v, h);
      CloseAndReturnNeverFault(v, h);
    }
  }

  /** Whatever happens between the create that fills its record and its return, a waiting open returns that data. */
  lemma WakeupIsNotLost(w: World, data: nat, steps: seq<Step>, h: nat)
    requires Invariant(w) && h in w.handles && w.handles[h].Waiting? && Enabled(w, Create(w.handles[h].name, data))
    requires Runs(Apply(w, Create(w.handles[h].name, data)), steps) && OpenReturn(h) !in steps
    ensures var v := Run(Apply(w, Create(w.handles[h].name, data)), steps);
            && Enabled(v, OpenReturn(h))
            && Apply(v, OpenReturn(h)).handles[h] == Holding(w.handles[h].name, w.handles[h].id, data)
  {
    hide Runs, Run;
    var name := w.handles[h].name;
    CreateFillsAndWakes(w, name, data);
    CreateKeeps(w, name, data);
    DataStaysForWaiter(Apply(w, Create(name, data)), steps, h);
  }

  /** The data of an entry changes only when create fills an empty one. */
  lemma DataComesFromCreate(w: World, step: Step, name: string)
    requires Enabled(w, step) && name in Apply(w, step).reg.records
    ensures var now := Apply(w, step).reg.records[name].data;
            var was := if name in w.reg.records then w.reg.records[name].data else NULL;
            now == was || (was == NULL && step == Create(name, now))
  {
  }

  // --- The registry against its history ---------------------------------------------------------

  /** What the calls alone say: the data provided under each name, and the opens not yet closed. */
  datatype Ledger = Ledger(provided: map<string, nat>, users: map<nat, string>)

  function Entered(l: Ledger, step: Step): Ledger {
    match step
    case Create(name, data) => l.(provided := l.provided[name := data])
    case Destroy(name) => if name in l.users.Values then l else l.(provided := l.provided - {name})
    case OpenBegin(h, name) => l.(users := l.users[h := name])
    case OpenReturn(_) => l
    case Close(h) => l.(users := l.users - {h})
  }

  function LedgerOf(l: Ledger, steps: seq<Step>): Ledger
    decreases |steps|
  {
    if steps == [] then l else LedgerOf(Entered(l, steps[0]), steps[1..])
  }

  /** A name is in the registry when it is provided or in use, with the data provided. */
  predicate NameAgrees(g: Registry, l: Ledger, name: string) {
    && (name in g.records <==> name in l.provided || name in l.users.Values)
    && (name in g.records ==> g.records[name].data == if name in l.provided then l.provided[name] else NULL)
    && (name in l.provided ==> l.provided[name] != NULL)
  }

  predicate HandlesAgree(handles: map<nat, Handle>, users: map<nat, string>) {
    handles.Keys == users.Keys && forall h :: h in handles ==> handles[h].name == users[h]
  }

  ghost predicate Agree(w: World, l: Ledger) {
    HandlesAgree(w.handles, l.users) && forall name {:trigger NameAgrees(w.reg, l, name)} :: NameAgrees(w.reg, l, name)
  }

  lemma UseCounts(w: World, l: Ledger, name: string)
    requires Invariant(w) && HandlesAgree(w.handles, l.users) && name in w.reg.records
    ensures w.reg.records[name].holders == 0 <==> name !in l.users.Values
  {
    assert RecordOk(w, name);
    if name in l.users.Values {
      var h :| h in l.users && l.users[h] == name;
      assert h in Opens(w.handles, name);
    } else {
      forall h | h in w.handles ensures w.handles[h].name != name {
        assert l.users[h] in l.users.Values;
      }
      assert Opens(w.handles, name) == {};
    }
  }

  lemma UsersAfterOpen(users: map<nat, string>, h: nat, name: string, n: string)
    requires h !in users
    ensures n in users[h := name].Values <==> n in users.Values || n == name
  {
    var more := users[h := name];
    assert more[h] == name;
    if n in users.Values {
      var k :| k in users && users[k] == n;
      assert more[k] == n;
    }
  }

  lemma UsersAfterClose(users: map<nat, string>, h: nat, n: string)
    requires h in users
    ensures n in (users - {h}).Values ==> n in users.Values
    ensures n in users.Values && n != users[h] ==> n in (users - {h}).Values
  {
    if n in users.Values && n != users[h] {
      var k :| k in users && users[k] == n;
      assert (users - {h})[k] == n;
    }
  }

  lemma NameAfterOpen(g: Registry, l: Ledger, h: nat, name: string, n: string)
    requires NameAgrees(g, l, n) && h !in l.users
    ensures NameAgrees(OpenBegun(g, name), Entered(l, OpenBegin(h, name)), n)
  {
    UsersAfterOpen(l.users, h, name, n);
  }

  lemma NameAfterClose(g: Registry, l: Ledger, h: nat, n: string)
    requires NameAgrees(g, l, n) && h in l.users && l.users[h] in g.records && l.users[h] in l.provided
    ensures NameAgrees(Closed(g, l.users[h]), Entered(l, Close(h)), n)
  {
    UsersAfterClose(l.users, h, n);
  }

  lemma NameAfterDestroy(g: Registry, l: Ledger, name: string, n: string)
    requires NameAgrees(g, l, n) && NameAgrees(g, l, name) && name in g.records
    requires g.records[name].holders == 0 <==> name !in l.users.Values
    ensures NameAgrees(Destroyed(g, name), Entered(l, Destroy(name)), n)
  {
  }

  lemma NameAfterStep(w: World, l: Ledger, step: Step, n: string)
    requires Invariant(w) && Agree(w, l) && Enabled(w, step)
    ensures NameAgrees(Apply(w, step).reg, Entered(l, step), n)
  {
    hide NameAgrees, Closed, OpenBegun, Destroyed;
    assert NameAgrees(w.reg, l, n);
    match step
    case Create(name, data) => NameAfterCreate(w.reg, l, name, data, n);
    case Destroy(name) =>
      assert NameAgrees(w.reg, l, name);
      UseCounts(w, l, name);
      NameAfterDestroy(w.reg, l, name, n);
    case OpenBegin(h, name) => NameAfterOpen(w.reg, l, h, name, n);
    case OpenReturn(h) =>
    case Close(h) =>
      assert HandleOk(w, h);
      assert NameAgrees(w.reg, l, l.users[h]);
      HeldIsProvided(w, l, h);
      NameAfterClose(w.reg, l, h, n);
  }

  lemma HeldIsProvided(w: World, l: Ledger, h: nat)
    requires h in w.handles && HandleOk(w, h) && w.handles[h].Holding?
    requires h in l.users && l.users[h] == w.handles[h].name && NameAgrees(w.reg, l, l.users[h])
    ensures l.users[h] in l.provided
  {
  }

  lemma NameAfterCreate(g: Registry, l: Ledger, name: string, data: nat, n: string)
    requires NameAgrees(g, l, n) && data != NULL
    ensures NameAgrees(Created(g, name, data), Entered(l, Create(name, data)), n)
  {
  }

  lemma AgreeStep(w: World, l: Ledger, step: Step)
    requires Invariant(w) && Agree(w, l) && Enabled(w, step)
    ensures Agree(Apply(w, step), Entered(l, step))
  {
    forall name ensures NameAgrees(Apply(w, step).reg, Entered(l, step), name) {
      NameAfterStep(w, l, step, name);
    }
    hide Invariant, NameAgrees, Created, OpenBegun, Destroyed, Closed;
  }

  lemma {:induction false} AgreeThrough(w: World, l: Ledger, steps: seq<Step>)
    requires Invariant(w) && Agree(w, l) && Runs(w, steps)
    ensures Invariant(Run(w, steps)) && Agree(Run(w, steps), LedgerOf(l, steps))
    decreases |steps|
  {
    hide Enabled, Apply, Invariant, Agree, Entered;
    if steps != [] {
      AgreeStep(w, l, steps[0]);
      InvariantStep(w, steps[0]);
      AgreeThrough(Apply(w, steps[0]), Entered(l, steps[0]), steps[1..]);
    }
  }

  const NoCalls: Ledger := Ledger(map[], map[])

  lemma NamesAllow(w: World, l: Ledger, name: string, data: nat)
    requires Invariant(w) && Agree(w, l)
    ensures Enabled(w, Create(name, data)) <==> data != NULL && name !in l.provided
    ensures Enabled(w, Destroy(name)) <==> name in l.provided || name in l.users.Values
    ensures Enabled(w, Destroy(name)) ==>
              (name !in Apply(w, Destroy(name)).reg.records <==> name !in l.users.Values)
  {
    if name in w.reg.records {
      UseCounts(w, l, name);
    }
    assert NameAgrees(w.reg, l, name);
    hide Invariant, RecordOk, HandleOk;
  }

  lemma HandlesGet(w: World, l: Ledger, h: nat)
    requires Invariant(w) && Agree(w, l)
    ensures h in w.handles <==> h in l.users
    ensures h in w.handles ==>
              var u, name := w.handles[h], l.users[h];
              && (u.Waiting? ==> (Enabled(w, OpenReturn(h)) <==> name in l.provided))
              && (Enabled(w, OpenReturn(h)) ==> Apply(w, OpenReturn(h)).handles[h] == Holding(name, u.id, l.provided[name]))
              && (u.Holding? ==> name in l.provided && u.data == l.provided[name])
  {
    if h in w.handles {
      CloseAndReturnNeverFault(w, h);
      assert HandleOk(w, h);
      assert NameAgrees(w.reg, l, l.users[h]);
    }
    hide Invariant, RecordOk, HandleOk;
  }

  /**
   After every interleaving of well-paired clients the calls alone decide what may happen to a name: data can be
   created exactly where none is provided, and destroyed is what is provided or in use, with effect when not in use.
   */
  lemma CallsDecideNames(steps: seq<Step>, name: string, data: nat)
    requires Runs(Start, steps)
    ensures var w, l := Run(Start, steps), LedgerOf(NoCalls, steps);
            && (Enabled(w, Create(name, data)) <==> data != NULL && name !in l.provided)
            && (Enabled(w, Destroy(name)) <==> name in l.provided || name in l.users.Values)
            && (Enabled(w, Destroy(name)) ==>
                  (name !in Apply(w, Destroy(name)).reg.records <==> name !in l.users.Values))
  {
    AgreeThrough(Start, NoCalls, steps);
    hide Enabled, Apply, Runs, Run, LedgerOf, Agree, Invariant;
    NamesAllow(Run(Start, steps), LedgerOf(NoCalls, steps), name, data);
  }

  /** And what an open gets: it returns as soon as its name is provided, with that data, which stays while it is held. */
  lemma CallsDecideOpens(steps: seq<Step>, h: nat)
    requires Runs(Start, steps)
    ensures var w, l := Run(Start, steps), LedgerOf(NoCalls, steps);
            && (h in w.handles <==> h in l.users)
            && (h in w.handles ==>
                  var u, name := w.handles[h], l.users[h];
                  && (u.Waiting? ==> (Enabled(w, OpenReturn(h)) <==> name in l.provided))
                  && (Enabled(w, OpenReturn(h)) ==> Apply(w, OpenReturn(h)).handles[h] == Holding(name, u.id, l.provided[name]))
                  && (u.Holding? ==> name in l.provided && u.data == l.provided[name]))
  {
    AgreeThrough(Start, NoCalls, steps);
    hide Enabled, Apply, Runs, Run, LedgerOf, Agree, Invariant;
    HandlesGet(Run(Start, steps), LedgerOf(NoCalls, steps), h);
  }
}
