/** The table from threads to their implicit producers in external/cameron314/concurrentqueue.h
    (get_or_add_implicit_producer and implicit_producer_thread_exited), as an interleaving machine: a chain of
    open-addressed tables, the newest one current, that threads probe, add themselves to and clear themselves from. */
module ProducerHash {
  import opened Options
  import Arithmetic

  /** invalid_thread_id, invalid_thread_id2, or the id of a thread. */
  datatype Key = Empty | Tomb | Id(thread: nat)

  datatype Entry = Entry(key: Key, value: nat)

  type Tables = seq<seq<Entry>>

  /** A first insertion that took an empty slot: the table, and the count its thread got. */
  datatype Unit = Unit(table: nat, n: int)

  /** The tables, oldest first, each linked to the one before it; implicitProducerHashCount; and the resize lock.  For
      the record: the first insertions that took an empty slot, and for each table how many first insertions took
      over a cleared slot of an older table while this one was there, or before it was made on the table before it. */
  datatype Memory = Memory(tables: Tables, count: int, locked: bool, units: seq<Unit>, reused: seq<nat>)

  datatype Result = NoCall | Failed | Got(producer: nat)

  datatype Pc =
    | Idle(last: Result)
    | LoadMain
    | Probe(main: nat, table: nat, j: nat)               // about to load the key of the j-th slot on its way
    | AddEmpty(main: nat, j: nat, value: nat)            // found in an older table: about to take an empty slot of main
    | AddTomb(main: nat, j: nat, value: nat)             //                          or a cleared one
    | Count(main: nat)
    | Check(main: nat, n: int)
    | Lock(main: nat, n: int)
    | Reload(n: int)                                     // from here to Unlock with the resize lock held
    | Grow(main: nat, n: int)
    | GiveUpLocked(n: int)
    | UnlockFailed
    | Unlock(main: nat, n: int)
    | Room(main: nat, n: int)
    | Acquire(main: nat, n: int)                         // about to recycle or create a producer
    | GiveUp(n: int)
    | TakeTomb(main: nat, n: int, j: nat, value: nat)    // first insertion: about to take a cleared slot of main
    | TakeEmpty(main: nat, n: int, j: nat, value: nat)   //                  or an empty one
    | Uncount(main: nat, n: int, slot: nat, value: nat)
    | StoreValue(main: nat, slot: nat, value: nat)
    | ExitLoad
    | Clear(table: nat, j: nat)                          // about to clear its key from the j-th slot on its way
    | Release

  /** owns is the producer the thread has taken and not given back. */
  datatype Thread = Thread(hash: nat, pc: Pc, owns: Option<nat>)

  datatype State = State(mem: Memory, threads: seq<Thread>)

  /** Which thread moves; whether an idle one calls or exits; whether an allocation fails; which producer is got. */
  datatype Pick = Pick(thread: nat, exit: bool, noMemory: bool, producer: nat)

  function Slot(hash: nat, capacity: nat, j: nat): (i: nat)
    requires capacity > 0
    ensures i < capacity
  { (hash + j) % capacity }

  predicate Shaped(tables: Tables) { |tables| > 0 && forall k :: 0 <= k < |tables| ==> |tables[k]| > 0 }

  predicate Sized(m: Memory) { Shaped(m.tables) && |m.reused| == |m.tables| }

  predicate HasMain(pc: Pc) {
    pc.Probe? || pc.AddEmpty? || pc.AddTomb? || pc.Count? || pc.Check? || pc.Lock? || pc.Grow? || pc.Unlock? || pc.Room?
    || pc.Acquire? || pc.TakeTomb? || pc.TakeEmpty? || pc.Uncount? || pc.StoreValue?
  }

  predicate InRange(tables: Tables, pc: Pc) {
    && (HasMain(pc) ==> pc.main < |tables|)
    && (pc.Probe? || pc.Clear? ==> pc.table < |tables|)
    && (pc.Uncount? || pc.StoreValue? ==> pc.slot < |tables[pc.main]|)
  }

  function Last(m: Memory): nat
    requires |m.tables| > 0
  { |m.tables| - 1 }

  function SetEntry(tables: Tables, k: nat, i: nat, e: Entry): Tables
    requires k < |tables| && i < |tables[k]|
  { tables[k := tables[k][i := e]] }

  function Half(m: Memory, k: nat): nat
    requires k < |m.tables|
  { |m.tables[k]| / 2 }

  /** Three quarters of a table, as the source computes it. */
  function Limit(capacity: nat): nat { capacity / 2 + capacity / 4 }

  /** The capacity of the next table: doubled until half of it is more than n. */
  function Doubled(capacity: nat, n: int): (c: nat)
    requires capacity > 0
    ensures c >= capacity && n < c / 2
    decreases 2 * n + 2 - capacity
  { if n >= capacity / 2 then Doubled(2 * capacity, n) else capacity }

  /** One access of thread t. */
  function Access(m: Memory, t: nat, th: Thread, pick: Pick): (Memory, Thread)
    requires Sized(m) && InRange(m.tables, th.pc)
  {
    match th.pc
    case Idle(_) =>
      if !pick.exit then (m, th.(pc := LoadMain))
      else if th.owns.Some? then (m, th.(pc := ExitLoad))
      else (m, th)
    case LoadMain => (m, th.(pc := Probe(Last(m), Last(m), 0)))
    case Probe(main, k, j) =>
      var e := m.tables[k][Slot(th.hash, |m.tables[k]|, j)];
      if e.key == Id(t) then (m, th.(pc := if k == main then Idle(Got(e.value)) else AddEmpty(main, 0, e.value)))
      else if e.key == Empty then (m, th.(pc := if k == 0 then Count(main) else Probe(main, k - 1, 0)))
      else (m, th.(pc := Probe(main, k, j + 1)))
    case AddEmpty(main, j, v) =>
      var i := Slot(th.hash, |m.tables[main]|, j);
      var e := m.tables[main][i];
      if e.key == Empty then (m.(tables := SetEntry(m.tables, main, i, e.(key := Id(t)))), th.(pc := StoreValue(main, i, v)))
      else (m, th.(pc := AddTomb(main, j, v)))
    case AddTomb(main, j, v) =>
      var i := Slot(th.hash, |m.tables[main]|, j);
      var e := m.tables[main][i];
      if e.key == Tomb then (m.(tables := SetEntry(m.tables, main, i, e.(key := Id(t)))), th.(pc := StoreValue(main, i, v)))
      else (m, th.(pc := AddEmpty(main, j + 1, v)))
    case Count(main) => (m.(count := m.count + 1), th.(pc := Check(main, m.count + 1)))
    case Check(main, n) => (m, th.(pc := if n >= Half(m, main) then Lock(main, n) else Room(main, n)))
    case Lock(main, n) =>
      if m.locked then (m, th.(pc := Room(main, n))) else (m.(locked := true), th.(pc := Reload(n)))
    case Reload(n) => (m, th.(pc := if n >= Half(m, Last(m)) then Grow(Last(m), n) else Unlock(Last(m), n)))
    case Grow(main, n) =>
      if pick.noMemory then (m, th.(pc := GiveUpLocked(n)))
      else
        var newest := seq(Doubled(2 * |m.tables[main]|, n), _ => Entry(Empty, 0));
        (m.(tables := m.tables + [newest], reused := m.reused + [m.reused[Last(m)]]), th.(pc := Unlock(|m.tables|, n)))
    case GiveUpLocked(_) => (m.(count := m.count - 1), th.(pc := UnlockFailed))
    case UnlockFailed => (m.(locked := false), th.(pc := Idle(Failed)))
    case Unlock(main, n) => (m.(locked := false), th.(pc := Room(main, n)))
    case Room(main, n) =>
      (m, th.(pc := if n < Limit(|m.tables[main]|) then Acquire(main, n) else Check(Last(m), n)))
    case Acquire(main, n) =>
      if pick.noMemory then (m, th.(pc := GiveUp(n)))
      else (m, Thread(th.hash, TakeTomb(main, n, 0, pick.producer), Some(pick.producer)))
    case GiveUp(_) => (m.(count := m.count - 1), th.(pc := Idle(Failed)))
    case TakeTomb(main, n, j, v) =>
      var i := Slot(th.hash, |m.tables[main]|, j);
      var e := m.tables[main][i];
      if e.key == Tomb then
        (m.(tables := SetEntry(m.tables, main, i, e.(key := Id(t))), reused := Reused(m.reused, main)), th.(pc := Uncount(main, n, i, v)))
      else (m, th.(pc := TakeEmpty(main, n, j, v)))
    case TakeEmpty(main, n, j, v) =>
      var i := Slot(th.hash, |m.tables[main]|, j);
      var e := m.tables[main][i];
      if e.key == Empty then
        (m.(tables := SetEntry(m.tables, main, i, e.(key := Id(t))), units := m.units + [Unit(main, n)]), th.(pc := StoreValue(main, i, v)))
      else (m, th.(pc := TakeTomb(main, n, j + 1, v)))
    case Uncount(main, n, i, v) => (m.(count := m.count - 1), th.(pc := StoreValue(main, i, v)))
    case StoreValue(main, i, v) =>
      (m.(tables := SetEntry(m.tables, main, i, m.tables[main][i].(value := v))), th.(pc := Idle(Got(v))))
    case ExitLoad => (m, th.(pc := Clear(Last(m), 0)))
    case Clear(k, j) =>
      var i := Slot(th.hash, |m.tables[k]|, j);
      var e := m.tables[k][i];
      var next := if k == 0 then Release else Clear(k - 1, 0);
      if e.key == Id(t) then (m.(tables := SetEntry(m.tables, k, i, e.(key := Tomb))), th.(pc := next))
      else (m, th.(pc := if e.key == Empty then next else Clear(k, j + 1)))
    case Release => (m, Thread(th.hash, Idle(NoCall), None))
  }

  /** A cleared slot of a table is taken over: counted against every newer table. */
  function Reused(reused: seq<nat>, table: nat): seq<nat> {
    seq(|reused|, k requires 0 <= k < |reused| => if k > table then reused[k] + 1 else reused[k])
  }

  predicate Enabled(s: State, pick: Pick) {
    && pick.thread < |s.threads| && Sized(s.mem) && InRange(s.mem.tables, s.threads[pick.thread].pc)
  }

  function Step(s: State, pick: Pick): State
    requires Enabled(s, pick)
  {
    var (m, th) := Access(s.mem, pick.thread, s.threads[pick.thread], pick);
    State(m, s.threads[pick.thread := th])
  }

  /** One empty table and threads without a producer. */
  function Init(capacity: nat, hashes: seq<nat>): State
    requires capacity > 0
  {
    State(Memory([seq(capacity, _ => Entry(Empty, 0))], 0, false, [], [0]),
          seq(|hashes|, t requires 0 <= t < |hashes| => Thread(hashes[t], Idle(NoCall), None)))
  }

  // ---- Whose key is where -------------------------------------------------------------------------------------

  ghost predicate Absent(table: seq<Entry>, t: nat) { forall i :: 0 <= i < |table| ==> table[i].key != Id(t) }

  ghost predicate AbsentFrom(tables: Tables, t: nat, k: nat) { forall l :: k <= l < |tables| ==> Absent(tables[l], t) }

  ghost predicate Present(tables: Tables, t: nat) { exists l :: 0 <= l < |tables| && !Absent(tables[l], t) }

  /** The first j slots on the way from a hash are not empty. */
  ghost predicate Passed(table: seq<Entry>, hash: nat, j: nat)
    requires |table| > 0
  { forall x: nat :: x < j ==> table[Slot(hash, |table|, x)].key != Empty }

  /** Nor are they thread t's. */
  ghost predicate PassedOver(table: seq<Entry>, hash: nat, j: nat, t: nat)
    requires |table| > 0
  { forall x: nat :: x < j ==> table[Slot(hash, |table|, x)].key !in {Empty, Id(t)} }

  /** Thread t is in the table at most once, where its way from its hash leads before any empty slot. */
  ghost predicate Placed(table: seq<Entry>, t: nat, hash: nat)
    requires |table| > 0
  {
    && (forall a, b :: 0 <= a < b < |table| && table[a].key == Id(t) ==> table[b].key != Id(t))
    && (forall j: nat :: j < |table| && table[Slot(hash, |table|, j)].key == Id(t) ==> Passed(table, hash, j))
  }

  ghost predicate AllPlaced(tables: Tables, t: nat, hash: nat)
    requires Shaped(tables)
  { forall k :: 0 <= k < |tables| ==> Placed(tables[k], t, hash) }

  /** Where thread t has its key and not yet its producer. */
  function Storing(pc: Pc): Option<(nat, nat)> { if pc.Uncount? || pc.StoreValue? then Some((pc.main, pc.slot)) else None }

  /** Every other entry of thread t holds its producer. */
  ghost predicate ValuesOk(tables: Tables, t: nat, storing: Option<(nat, nat)>, owns: Option<nat>) {
    forall k, i :: 0 <= k < |tables| && 0 <= i < |tables[k]| && tables[k][i].key == Id(t) && storing != Some((k, i)) ==>
      owns == Some(tables[k][i].value)
  }

  predicate Inserting(pc: Pc) {
    pc.Count? || pc.Check? || pc.Lock? || pc.Reload? || pc.Grow? || pc.GiveUpLocked? || pc.UnlockFailed? || pc.Unlock? || pc.Room?
    || pc.Acquire? || pc.GiveUp?
  }

  predicate Exiting(pc: Pc) { pc.Clear? || pc.Release? }

  /** What the program counter of thread t says about the tables. */
  ghost predicate PcOk(tables: Tables, t: nat, th: Thread)
    requires Shaped(tables) && InRange(tables, th.pc)
  {
    var pc := th.pc;
    && (pc.Idle? || pc.LoadMain? || pc.Probe? || pc.ExitLoad? ==> (th.owns.Some? <==> Present(tables, t)))
    && (pc.Idle? && pc.last.Got? ==> th.owns == Some(pc.last.producer))
    && (pc.ExitLoad? ==> th.owns.Some?)
    && (pc.Probe? ==> pc.table <= pc.main && AbsentFrom(tables, t, pc.table + 1) && PassedOver(tables[pc.table], th.hash, pc.j, t))
    && (pc.AddEmpty? || pc.AddTomb? ==>
          AbsentFrom(tables, t, pc.main) && Present(tables, t) && th.owns == Some(pc.value) && Passed(tables[pc.main], th.hash, pc.j))
    && (pc.AddTomb? ==> tables[pc.main][Slot(th.hash, |tables[pc.main]|, pc.j)].key != Empty)
    && (Inserting(pc) ==> th.owns == None && AbsentFrom(tables, t, 0))
    && (pc.TakeTomb? || pc.TakeEmpty? ==>
          AbsentFrom(tables, t, 0) && th.owns == Some(pc.value) && Passed(tables[pc.main], th.hash, pc.j))
    && (pc.Uncount? || pc.StoreValue? ==> th.owns == Some(pc.value) && tables[pc.main][pc.slot].key == Id(t))
    && (pc.Clear? ==> AbsentFrom(tables, t, pc.table + 1) && PassedOver(tables[pc.table], th.hash, pc.j, t))
    && (pc.Release? ==> AbsentFrom(tables, t, 0))
  }

  ghost predicate ThreadOk(tables: Tables, t: nat, th: Thread)
    requires Shaped(tables)
  { InRange(tables, th.pc) && PcOk(tables, t, th) && ValuesOk(tables, t, Storing(th.pc), th.owns) && AllPlaced(tables, t, th.hash) }

  // ---- Other threads' steps -----------------------------------------------------------------------------------

  /** What thread u may do to an entry: take it if it is nobody's, clear it if it is its own. */
  predicate EntryEvolves(e: Entry, e': Entry, u: nat) {
    e' == e || ((e.key == Id(u) || !e.key.Id?) && e'.key in {Tomb, Id(u)})
  }

  ghost predicate Evolves(tables: Tables, tables': Tables, u: nat) {
    && |tables| <= |tables'|
    && (forall k :: 0 <= k < |tables| ==> |tables'[k]| == |tables[k]|)
    && (forall k, i :: 0 <= k < |tables| && 0 <= i < |tables[k]| ==> EntryEvolves(tables[k][i], tables'[k][i], u))
    && (forall k, i :: |tables| <= k < |tables'| && 0 <= i < |tables'[k]| ==> tables'[k][i].key == Empty)
  }

  lemma AbsentKept(tables: Tables, tables': Tables, u: nat, t: nat, l: nat)
    requires Evolves(tables, tables', u) && t != u && l < |tables'|
    ensures l < |tables| ==> (Absent(tables'[l], t) <==> Absent(tables[l], t))
    ensures l >= |tables| ==> Absent(tables'[l], t)
  {
    if l < |tables| {
      forall i | 0 <= i < |tables[l]| ensures tables'[l][i].key == Id(t) <==> tables[l][i].key == Id(t) {
        assert EntryEvolves(tables[l][i], tables'[l][i], u);
      }
    }
  }

  lemma PlacedKept(tables: Tables, tables': Tables, u: nat, t: nat, hash: nat, k: nat)
    requires Shaped(tables) && Shaped(tables') && Evolves(tables, tables', u) && t != u && k < |tables'|
    requires k < |tables| ==> Placed(tables[k], t, hash)
    ensures Placed(tables'[k], t, hash)
  {
    if k < |tables| {
      forall i | 0 <= i < |tables[k]|
        ensures tables'[k][i].key == Id(t) <==> tables[k][i].key == Id(t)
        ensures tables[k][i].key != Empty ==> tables'[k][i].key != Empty
      {
        assert EntryEvolves(tables[k][i], tables'[k][i], u);
      }
    }
  }

  lemma PassedKept(tables: Tables, tables': Tables, u: nat, t: nat, hash: nat, k: nat, j: nat)
    requires Shaped(tables) && Shaped(tables') && Evolves(tables, tables', u) && t != u && k < |tables|
    ensures Passed(tables[k], hash, j) ==> Passed(tables'[k], hash, j)
    ensures PassedOver(tables[k], hash, j, t) ==> PassedOver(tables'[k], hash, j, t)
  {
    forall x: nat
      ensures var i := Slot(hash, |tables[k]|, x);
              && (tables'[k][i].key == Id(t) <==> tables[k][i].key == Id(t))
              && (tables[k][i].key != Empty ==> tables'[k][i].key != Empty)
    {
      var i := Slot(hash, |tables[k]|, x);
      assert EntryEvolves(tables[k][i], tables'[k][i], u);
    }
  }

  lemma PresentKept(tables: Tables, tables': Tables, u: nat, t: nat)
    requires Evolves(tables, tables', u) && t != u
    ensures Present(tables, t) <==> Present(tables', t)
    ensures forall k: nat :: AbsentFrom(tables, t, k) ==> AbsentFrom(tables', t, k)
  {
    forall l | 0 <= l < |tables'|
      ensures l < |tables| ==> (Absent(tables'[l], t) <==> Absent(tables[l], t))
      ensures l >= |tables| ==> Absent(tables'[l], t)
    {
      AbsentKept(tables, tables', u, t, l);
    }
    if Present(tables, t) {
      var l :| 0 <= l < |tables| && !Absent(tables[l], t);
      assert !Absent(tables'[l], t);
    }
  }

  lemma ValuesKept(tables: Tables, tables': Tables, u: nat, t: nat, storing: Option<(nat, nat)>, owns: Option<nat>)
    requires Evolves(tables, tables', u) && t != u && ValuesOk(tables, t, storing, owns)
    ensures ValuesOk(tables', t, storing, owns)
  {
    forall k, i | 0 <= k < |tables'| && 0 <= i < |tables'[k]| && tables'[k][i].key == Id(t) && storing != Some((k, i))
      ensures owns == Some(tables'[k][i].value)
    {
      assert k < |tables| ==> EntryEvolves(tables[k][i], tables'[k][i], u);
    }
  }

  lemma OtherKeeps(tables: Tables, tables': Tables, u: nat, t: nat, th: Thread)
    requires Shaped(tables) && Shaped(tables') && Evolves(tables, tables', u) && t != u && ThreadOk(tables, t, th)
    ensures ThreadOk(tables', t, th)
  {
    var pc := th.pc;
    if pc.AddTomb? {
      var i := Slot(th.hash, |tables[pc.main]|, pc.j);
      assert EntryEvolves(tables[pc.main][i], tables'[pc.main][i], u);
    }
    if pc.Uncount? || pc.StoreValue? { assert EntryEvolves(tables[pc.main][pc.slot], tables'[pc.main][pc.slot], u); }
    assert AllPlaced(tables', t, th.hash) by {
      forall k | 0 <= k < |tables'| ensures Placed(tables'[k], t, th.hash) { PlacedKept(tables, tables', u, t, th.hash, k); }
    }
    hide AllPlaced, Present, AbsentFrom, ValuesOk, Passed, PassedOver;
    PresentKept(tables, tables', u, t);
    ValuesKept(tables, tables', u, t, Storing(pc), th.owns);
    if pc.Probe? || pc.Clear? { PassedKept(tables, tables', u, t, th.hash, pc.table, pc.j); }
    if pc.AddEmpty? || pc.AddTomb? || pc.TakeTomb? || pc.TakeEmpty? { PassedKept(tables, tables', u, t, th.hash, pc.main, pc.j); }
  }

  // ---- A thread's own steps -----------------------------------------------------------------------------------

  lemma SetEvolves(tables: Tables, k: nat, i: nat, e: Entry, t: nat)
    requires Shaped(tables) && k < |tables| && i < |tables[k]| && EntryEvolves(tables[k][i], e, t)
    ensures Shaped(SetEntry(tables, k, i, e)) && Evolves(tables, SetEntry(tables, k, i, e), t)
  {
  }

  lemma SameEvolves(tables: Tables, t: nat)
    ensures Evolves(tables, tables, t)
  {
  }

  lemma GrowEvolves(tables: Tables, n: nat, t: nat)
    requires Shaped(tables) && n > 0
    ensures var tables' := tables + [seq(n, _ => Entry(Empty, 0))]; Shaped(tables') && Evolves(tables, tables', t)
  {
  }

  /** The slot an access looks at. */
  function Looks(tables: Tables, th: Thread): (nat, nat)
    requires Shaped(tables) && InRange(tables, th.pc)
    requires th.pc.Clear? || th.pc.AddEmpty? || th.pc.AddTomb? || th.pc.TakeTomb? || th.pc.TakeEmpty? || th.pc.StoreValue?
  {
    if th.pc.StoreValue? then (th.pc.main, th.pc.slot)
    else var k := if th.pc.Clear? then th.pc.table else th.pc.main; (k, Slot(th.hash, |tables[k]|, th.pc.j))
  }

  lemma AccessEvolves(m: Memory, t: nat, th: Thread, pick: Pick)
    requires Sized(m) && InRange(m.tables, th.pc) && PcOk(m.tables, t, th)
    ensures var m' := Access(m, t, th, pick).0; Sized(m') && Evolves(m.tables, m'.tables, t)
  {
    hide Evolves, PassedOver, Passed, AbsentFrom, Present;
    var m' := Access(m, t, th, pick).0;
    SameEvolves(m.tables, t);
    if th.pc.Grow? {
      GrowEvolves(m.tables, Doubled(2 * |m.tables[th.pc.main]|, th.pc.n), t);
    } else if th.pc.Clear? || th.pc.AddEmpty? || th.pc.AddTomb? || th.pc.TakeTomb? || th.pc.TakeEmpty? || th.pc.StoreValue? {
      var (k, i) := Looks(m.tables, th);
      var e := m.tables[k][i];
      if !e.key.Id? { SetEvolves(m.tables, k, i, e.(key := Id(t)), t); }
      if e.key == Id(t) { SetEvolves(m.tables, k, i, e.(key := Tomb), t); }
      if th.pc.StoreValue? { SetEvolves(m.tables, k, i, e.(value := th.pc.value), t); }
    }
  }

  /** Every slot of a table is on the way from every hash. */
  lemma SlotOnWay(hash: nat, capacity: nat, i: nat) returns (j: nat)
    requires i < capacity
    ensures j < capacity && Slot(hash, capacity, j) == i
  {
    j := (i - hash) % capacity;
    Arithmetic.RingShift(i - hash, hash, capacity);
    Arithmetic.RingSmall(i, capacity);
  }

  lemma SlotOnce(hash: nat, capacity: nat, j: nat, x: nat)
    requires j < x < capacity
    ensures Slot(hash, capacity, j) != Slot(hash, capacity, x)
  {
    if Slot(hash, capacity, j) == Slot(hash, capacity, x) { Arithmetic.RingInjective(hash + j, hash + x, capacity); }
  }

  lemma NothingPassed(tables: Tables, t: nat, hash: nat)
    requires Shaped(tables)
    ensures AbsentFrom(tables, t, |tables|)
    ensures forall k :: 0 <= k < |tables| ==> Passed(tables[k], hash, 0) && PassedOver(tables[k], hash, 0, t)
  {
  }

  lemma AbsentEverywhere(tables: Tables, t: nat, storing: Option<(nat, nat)>, owns: Option<nat>)
    requires AbsentFrom(tables, t, 0)
    ensures !Present(tables, t) && ValuesOk(tables, t, storing, owns) && forall k: nat :: AbsentFrom(tables, t, k)
  {
  }

  lemma AbsentMore(tables: Tables, t: nat, k: nat)
    requires k < |tables| && AbsentFrom(tables, t, k + 1) && Absent(tables[k], t)
    ensures AbsentFrom(tables, t, k)
  {
  }

  /** An empty slot on the way before its own: thread t is not in the table. */
  lemma NotHere(tables: Tables, t: nat, hash: nat, k: nat, j: nat)
    requires Shaped(tables) && AllPlaced(tables, t, hash) && k < |tables| && PassedOver(tables[k], hash, j, t)
    requires AbsentFrom(tables, t, k + 1) && tables[k][Slot(hash, |tables[k]|, j)].key == Empty
    ensures AbsentFrom(tables, t, k)
  {
    var table := tables[k];
    assert Placed(table, t, hash);
    forall i | 0 <= i < |table| ensures table[i].key != Id(t) {
      var x := SlotOnWay(hash, |table|, i);
      assert x < j || x == j || (table[i].key == Id(t) ==> Passed(table, hash, x));
    }
    AbsentMore(tables, t, k);
  }

  lemma PassedOne(table: seq<Entry>, hash: nat, j: nat, t: nat)
    requires |table| > 0
    ensures Passed(table, hash, j) && table[Slot(hash, |table|, j)].key != Empty ==> Passed(table, hash, j + 1)
    ensures PassedOver(table, hash, j, t) && table[Slot(hash, |table|, j)].key !in {Empty, Id(t)} ==> PassedOver(table, hash, j + 1, t)
  {
  }

  lemma IsPresent(tables: Tables, t: nat, k: nat, i: nat, storing: Option<(nat, nat)>, owns: Option<nat>)
    requires k < |tables| && i < |tables[k]| && tables[k][i].key == Id(t)
    ensures Present(tables, t)
    ensures ValuesOk(tables, t, storing, owns) && storing != Some((k, i)) ==> owns == Some(tables[k][i].value)
  {
    assert !Absent(tables[k], t);
  }

  lemma ProbeOk(m: Memory, t: nat, th: Thread, pick: Pick)
    requires Sized(m) && ThreadOk(m.tables, t, th) && th.pc.Probe?
    ensures ThreadOk(m.tables, t, Access(m, t, th, pick).1)
  {
    hide AllPlaced, Present, AbsentFrom, ValuesOk, Passed, PassedOver;
    var Probe(main, k, j) := th.pc;
    var i := Slot(th.hash, |m.tables[k]|, j);
    NothingPassed(m.tables, t, th.hash);
    if m.tables[k][i].key == Id(t) {
      IsPresent(m.tables, t, k, i, None, th.owns);
      AbsentLater(m.tables, t, k + 1, main);
    } else if m.tables[k][i].key == Empty {
      NotHere(m.tables, t, th.hash, k, j);
      if k == 0 { AbsentEverywhere(m.tables, t, None, th.owns); }
    } else {
      PassedOne(m.tables[k], th.hash, j, t);
    }
  }

  lemma AbsentLater(tables: Tables, t: nat, k: nat, l: nat)
    requires AbsentFrom(tables, t, k)
    ensures l >= k ==> AbsentFrom(tables, t, l)
  {
  }

  /** Clearing the one entry of thread t in table k. */
  lemma ClearedOk(tables: Tables, t: nat, th: Thread, k: nat, i: nat)
    requires Shaped(tables) && AllPlaced(tables, t, th.hash) && AbsentFrom(tables, t, k + 1) && ValuesOk(tables, t, None, th.owns)
    requires k < |tables| && i < |tables[k]| && tables[k][i].key == Id(t)
    ensures var tables' := SetEntry(tables, k, i, tables[k][i].(key := Tomb));
            AllPlaced(tables', t, th.hash) && AbsentFrom(tables', t, k) && ValuesOk(tables', t, None, th.owns)
  {
    var tables' := SetEntry(tables, k, i, tables[k][i].(key := Tomb));
    assert Placed(tables[k], t, th.hash);
    assert Absent(tables'[k], t);
    forall l | 0 <= l < |tables'| && l != k ensures tables'[l] == tables[l] {}
    assert AbsentFrom(tables', t, k + 1);
    AbsentMore(tables', t, k);
  }

  lemma ClearOk(m: Memory, t: nat, th: Thread, pick: Pick)
    requires Sized(m) && ThreadOk(m.tables, t, th) && th.pc.Clear?
    ensures var (m', th') := Access(m, t, th, pick); Sized(m') && ThreadOk(m'.tables, t, th')
  {
    hide AllPlaced, Present, AbsentFrom, ValuesOk, Passed, PassedOver;
    var Clear(k, j) := th.pc;
    var m' := Access(m, t, th, pick).0;
    var i := Slot(th.hash, |m.tables[k]|, j);
    AccessEvolves(m, t, th, pick);
    NothingPassed(m'.tables, t, th.hash);
    if m.tables[k][i].key == Id(t) {
      ClearedOk(m.tables, t, th, k, i);
    } else if m.tables[k][i].key == Empty {
      NotHere(m.tables, t, th.hash, k, j);
    } else {
      PassedOne(m.tables[k], th.hash, j, t);
    }
  }

  /** Thread t takes the j-th slot on its way in a table it is not in. */
  lemma TakenOk(tables: Tables, t: nat, th: Thread, k: nat, j: nat)
    requires Shaped(tables) && AllPlaced(tables, t, th.hash) && ValuesOk(tables, t, None, th.owns)
    requires k < |tables| && Absent(tables[k], t) && Passed(tables[k], th.hash, j)
    ensures var i := Slot(th.hash, |tables[k]|, j);
            var tables' := SetEntry(tables, k, i, tables[k][i].(key := Id(t)));
            AllPlaced(tables', t, th.hash) && ValuesOk(tables', t, Some((k, i)), th.owns)
  {
    var i := Slot(th.hash, |tables[k]|, j);
    var tables' := SetEntry(tables, k, i, tables[k][i].(key := Id(t)));
    var table := tables'[k];
    forall x: nat | x < |table| && table[Slot(th.hash, |table|, x)].key == Id(t) ensures Passed(table, th.hash, x) {
      if j < x { SlotOnce(th.hash, |table|, j, x); }
    }
    forall l | 0 <= l < |tables'| && l != k ensures tables'[l] == tables[l] {}
  }

  predicate Takes(pc: Pc) { pc.AddEmpty? || pc.AddTomb? || pc.TakeTomb? || pc.TakeEmpty? }

  lemma TookOk(tables: Tables, t: nat, th: Thread, pc: Pc)
    requires Shaped(tables) && ThreadOk(tables, t, th) && Takes(th.pc) && (pc.Uncount? || pc.StoreValue?)
    requires pc.main == th.pc.main && pc.slot == Slot(th.hash, |tables[pc.main]|, th.pc.j) && pc.value == th.pc.value
    ensures var tables' := SetEntry(tables, pc.main, pc.slot, tables[pc.main][pc.slot].(key := Id(t)));
            Shaped(tables') && ThreadOk(tables', t, th.(pc := pc))
  {
    assert Absent(tables[pc.main], t);
    hide AllPlaced, Present, Absent, AbsentFrom, ValuesOk, Passed, PassedOver;
    TakenOk(tables, t, th, pc.main, th.pc.j);
  }

  lemma AddOk(m: Memory, t: nat, th: Thread, pick: Pick)
    requires Sized(m) && ThreadOk(m.tables, t, th) && (th.pc.AddEmpty? || th.pc.AddTomb?)
    ensures var (m', th') := Access(m, t, th, pick); Sized(m') && ThreadOk(m'.tables, t, th')
  {
    hide AllPlaced, Present, AbsentFrom, ValuesOk, Passed, PassedOver;
    var (m', th') := Access(m, t, th, pick);
    if th'.pc.StoreValue? {
      TookOk(m.tables, t, th, th'.pc);
    } else {
      PassedOne(m.tables[th.pc.main], th.hash, th.pc.j, t);
    }
  }

  lemma TakeOk(m: Memory, t: nat, th: Thread, pick: Pick)
    requires Sized(m) && ThreadOk(m.tables, t, th) && (th.pc.TakeTomb? || th.pc.TakeEmpty?)
    ensures var (m', th') := Access(m, t, th, pick); Sized(m') && ThreadOk(m'.tables, t, th')
  {
    hide AllPlaced, Present, AbsentFrom, ValuesOk, Passed, PassedOver;
    var (m', th') := Access(m, t, th, pick);
    if th'.pc.StoreValue? || th'.pc.Uncount? {
      TookOk(m.tables, t, th, th'.pc);
    } else {
      PassedOne(m.tables[th.pc.main], th.hash, th.pc.j, t);
    }
  }

  /** Thread t stores its producer. */
  lemma StoredOk(tables: Tables, t: nat, th: Thread, k: nat, i: nat, v: nat)
    requires Shaped(tables) && AllPlaced(tables, t, th.hash) && ValuesOk(tables, t, Some((k, i)), Some(v))
    requires k < |tables| && i < |tables[k]| && tables[k][i].key == Id(t)
    ensures var tables' := SetEntry(tables, k, i, tables[k][i].(value := v));
            AllPlaced(tables', t, th.hash) && ValuesOk(tables', t, None, Some(v)) && Present(tables', t)
  {
    var tables' := SetEntry(tables, k, i, tables[k][i].(value := v));
    forall l | 0 <= l < |tables'| ensures Placed(tables'[l], t, th.hash) {
      assert Placed(tables[l], t, th.hash);
      assert forall x :: 0 <= x < |tables[l]| ==> tables'[l][x].key == tables[l][x].key;
    }
    assert tables'[k][i].key == Id(t);
    IsPresent(tables', t, k, i, None, Some(v));
  }

  lemma StoreOk(m: Memory, t: nat, th: Thread, pick: Pick)
    requires Sized(m) && ThreadOk(m.tables, t, th) && th.pc.StoreValue?
    ensures var (m', th') := Access(m, t, th, pick); Sized(m') && ThreadOk(m'.tables, t, th')
  {
    hide AllPlaced, Present, AbsentFrom, ValuesOk, Passed, PassedOver;
    AccessEvolves(m, t, th, pick);
    StoredOk(m.tables, t, th, th.pc.main, th.pc.slot, th.pc.value);
  }

  lemma GrownOk(tables: Tables, t: nat, hash: nat, n: nat)
    requires Shaped(tables) && n > 0 && AllPlaced(tables, t, hash) && AbsentFrom(tables, t, 0)
    ensures var tables' := tables + [seq(n, _ => Entry(Empty, 0))];
            Shaped(tables') && AllPlaced(tables', t, hash) && AbsentFrom(tables', t, 0)
  {
  }

  lemma GrowOk(m: Memory, t: nat, th: Thread, pick: Pick)
    requires Sized(m) && ThreadOk(m.tables, t, th) && th.pc.Grow?
    ensures var (m', th') := Access(m, t, th, pick); Sized(m') && ThreadOk(m'.tables, t, th')
  {
    hide AllPlaced, Present, AbsentFrom, ValuesOk, Passed, PassedOver;
    var m' := Access(m, t, th, pick).0;
    if !pick.noMemory { GrownOk(m.tables, t, th.hash, Doubled(2 * |m.tables[th.pc.main]|, th.pc.n)); }
    AbsentEverywhere(m'.tables, t, None, th.owns);
  }

  predicate Quiet(pc: Pc) {
    !(pc.Probe? || pc.Clear? || pc.AddEmpty? || pc.AddTomb? || pc.TakeTomb? || pc.TakeEmpty? || pc.StoreValue? || pc.Grow?)
  }

  lemma InsertingOk(m: Memory, t: nat, th: Thread, pick: Pick)
    requires Sized(m) && ThreadOk(m.tables, t, th) && Inserting(th.pc) && !th.pc.Grow?
    ensures var (m', th') := Access(m, t, th, pick); Sized(m') && ThreadOk(m'.tables, t, th')
  {
    hide AllPlaced, Present, AbsentFrom, ValuesOk, Passed, PassedOver;
    NothingPassed(m.tables, t, th.hash);
    AbsentEverywhere(m.tables, t, None, Access(m, t, th, pick).1.owns);
  }

  lemma QuietOk(m: Memory, t: nat, th: Thread, pick: Pick)
    requires Sized(m) && ThreadOk(m.tables, t, th) && Quiet(th.pc) && !Inserting(th.pc)
    ensures var (m', th') := Access(m, t, th, pick); Sized(m') && ThreadOk(m'.tables, t, th')
  {
    hide AllPlaced, Present, AbsentFrom, ValuesOk, Passed, PassedOver;
    NothingPassed(m.tables, t, th.hash);
    if th.pc.Release? { AbsentEverywhere(m.tables, t, None, None); }
  }

  lemma OwnKeeps(m: Memory, t: nat, th: Thread, pick: Pick)
    requires Sized(m) && ThreadOk(m.tables, t, th)
    ensures var (m', th') := Access(m, t, th, pick); Sized(m') && ThreadOk(m'.tables, t, th')
  {
    hide ThreadOk;
    var pc := th.pc;
    if pc.Probe? {
      ProbeOk(m, t, th, pick);
    } else if pc.Clear? {
      ClearOk(m, t, th, pick);
    } else if pc.AddEmpty? || pc.AddTomb? {
      AddOk(m, t, th, pick);
    } else if pc.TakeTomb? || pc.TakeEmpty? {
      TakeOk(m, t, th, pick);
    } else if pc.StoreValue? {
      StoreOk(m, t, th, pick);
    } else if pc.Grow? {
      GrowOk(m, t, th, pick);
    } else if Inserting(pc) {
      InsertingOk(m, t, th, pick);
    } else {
      QuietOk(m, t, th, pick);
    }
  }

  // ---- Runs -----------------------------------------------------------------------------------------------------

  predicate HoldsLock(pc: Pc) { pc.Reload? || pc.Grow? || pc.GiveUpLocked? || pc.UnlockFailed? || pc.Unlock? }

  /** One thread at a time has the resize lock, and it alone makes tables, after the latest one. */
  ghost predicate LockOk(s: State)
    requires |s.mem.tables| > 0
  {
    && (forall t, u :: 0 <= t < |s.threads| && 0 <= u < |s.threads| && t != u && HoldsLock(s.threads[t].pc) ==> !HoldsLock(s.threads[u].pc))
    && (forall t :: 0 <= t < |s.threads| && HoldsLock(s.threads[t].pc) ==> s.mem.locked)
    && (forall t :: 0 <= t < |s.threads| && s.threads[t].pc.Grow? ==> s.threads[t].pc.main == Last(s.mem))
  }

  /** No two threads own the same producer. */
  ghost predicate Exclusive(threads: seq<Thread>) {
    forall t, u :: 0 <= t < |threads| && 0 <= u < |threads| && t != u && threads[t].owns.Some? ==> threads[u].owns != threads[t].owns
  }

  ghost predicate Inv(s: State) {
    && Sized(s.mem) && LockOk(s) && Exclusive(s.threads)
    && (forall t :: 0 <= t < |s.threads| ==> ThreadOk(s.mem.tables, t, s.threads[t]))
  }

  /** recycle_or_create_producer gives out a producer that nobody has (shown in ProducerThreads.LegalHash). */
  predicate Legal(s: State, pick: Pick) {
    && pick.thread < |s.threads|
    && (s.threads[pick.thread].pc.Acquire? && !pick.noMemory ==>
          forall u :: 0 <= u < |s.threads| && u != pick.thread ==> s.threads[u].owns != Some(pick.producer))
  }

  lemma ExclusiveKept(s: State, pick: Pick)
    requires Enabled(s, pick) && Legal(s, pick) && Exclusive(s.threads)
    ensures Exclusive(Step(s, pick).threads)
  {
    var s' := Step(s, pick);
    var t := pick.thread;
    assert s'.threads[t].owns in {s.threads[t].owns, None} || (s.threads[t].pc.Acquire? && s'.threads[t].owns == Some(pick.producer));
    forall u | 0 <= u < |s.threads| && u != t ensures s'.threads[u] == s.threads[u] {}
  }

  lemma LockKept(s: State, pick: Pick)
    requires Enabled(s, pick) && LockOk(s)
    ensures var s' := Step(s, pick); |s'.mem.tables| > 0 && LockOk(s')
  {
    var s' := Step(s, pick);
    var t := pick.thread;
    var pc, pc' := s.threads[t].pc, s'.threads[t].pc;
    forall u | 0 <= u < |s.threads| && u != t ensures s'.threads[u] == s.threads[u] {}
    assert HoldsLock(pc) || HoldsLock(pc') || (s'.mem.locked == s.mem.locked && |s'.mem.tables| == |s.mem.tables|);
    assert pc'.Grow? ==> pc'.main == Last(s'.mem) && |s'.mem.tables| == |s.mem.tables|;
    assert HoldsLock(pc') && !HoldsLock(pc) ==> !s.mem.locked && s'.mem.locked && |s'.mem.tables| == |s.mem.tables|;
    assert HoldsLock(pc') ==> s'.mem.locked;
  }

  /** Every access of every thread is in range and keeps the invariant. */
  lemma StepKeeps(s: State, pick: Pick)
    requires Inv(s) && Legal(s, pick)
    ensures Enabled(s, pick) && Inv(Step(s, pick))
  {
    var t := pick.thread;
    assert ThreadOk(s.mem.tables, t, s.threads[t]);
    ExclusiveKept(s, pick);
    LockKept(s, pick);
    AccessEvolves(s.mem, t, s.threads[t], pick);
    OwnKeeps(s.mem, t, s.threads[t], pick);
    hide ThreadOk, LockOk, Exclusive, Evolves, Access;
    var s' := Step(s, pick);
    forall u | 0 <= u < |s'.threads| ensures ThreadOk(s'.mem.tables, u, s'.threads[u]) {
      if u != t { OtherKeeps(s.mem.tables, s'.mem.tables, t, u, s.threads[u]); }
    }
  }

  predicate Follows(s: State, pick: Pick, s': State) { Legal(s, pick) && (Enabled(s, pick) ==> s' == Step(s, pick)) }

  ghost predicate Run(states: seq<State>, picks: seq<Pick>) {
    && |states| == |picks| + 1
    && (exists capacity: nat, hashes: seq<nat> :: capacity > 0 && states[0] == Init(capacity, hashes))
    && (forall i :: 0 <= i < |picks| ==> Follows(states[i], picks[i], states[i + 1]))
  }

  lemma InitOk(capacity: nat, hashes: seq<nat>)
    requires capacity > 0
    ensures Inv(Init(capacity, hashes))
  {
  }

  lemma {:induction false} RunInv(states: seq<State>, picks: seq<Pick>, i: nat)
    requires Run(states, picks) && i < |states|
    ensures Inv(states[i])
    ensures i < |picks| ==> Enabled(states[i], picks[i]) && states[i + 1] == Step(states[i], picks[i])
  {
    hide Inv, Step, Enabled;
    if i == 0 {
      var capacity: nat, hashes: seq<nat> :| capacity > 0 && states[0] == Init(capacity, hashes);
      InitOk(capacity, hashes);
    } else {
      RunInv(states, picks, i - 1);
      assert Follows(states[i - 1], picks[i - 1], states[i]);
      StepKeeps(states[i - 1], picks[i - 1]);
    }
    if i < |picks| {
      assert Follows(states[i], picks[i], states[i + 1]);
      StepKeeps(states[i], picks[i]);
    }
  }

  /** In every state of every run: whatever a call returned is the producer its thread owns; a thread that owns one is
      not inserted again; no two threads own the same one; every entry with a thread's key holds its producer, there
      is at most one in a table, and none is left once the thread has given its producer back. */
  lemma LookupReturnsOwn(states: seq<State>, picks: seq<Pick>, i: nat, t: nat)
    requires Run(states, picks) && i < |states| && t < |states[i].threads|
    ensures var s := states[i];
            var tables, th := s.mem.tables, s.threads[t];
            && (th.pc.Idle? && th.pc.last.Got? ==> th.owns == Some(th.pc.last.producer))
            && (Inserting(th.pc) ==> th.owns == None)
            && (forall u :: 0 <= u < |s.threads| && u != t && th.owns.Some? ==> s.threads[u].owns != th.owns)
            && (forall k, a :: 0 <= k < |tables| && 0 <= a < |tables[k]| && tables[k][a].key == Id(t) && Storing(th.pc) != Some((k, a)) ==>
                  th.owns == Some(tables[k][a].value))
            && (forall k, a, b :: 0 <= k < |tables| && 0 <= a < b < |tables[k]| && tables[k][a].key == Id(t) ==> tables[k][b].key != Id(t))
            && (th.pc.Idle? && th.owns == None ==> forall k :: 0 <= k < |tables| ==> Absent(tables[k], t))
  {
    RunInv(states, picks, i);
    var s := states[i];
    assert ThreadOk(s.mem.tables, t, s.threads[t]);
    forall k | 0 <= k < |s.mem.tables| ensures Placed(s.mem.tables[k], t, s.threads[t].hash) {}
  }
}
