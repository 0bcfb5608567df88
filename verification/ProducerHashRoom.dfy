/** How full the tables of module ProducerHash get: when every probe loop comes to an end. */
module ProducerHashRoom {
  import opened Options
  import opened ProducerHash

  // ---- Sizes of sets --------------------------------------------------------------------------------------------

  lemma {:induction false} SubsetSize(a: set<nat>, b: set<nat>)
    requires a <= b
    ensures |a| <= |b|
  {
    if a != {} {
      var x :| x in a;
      SubsetSize(a - {x}, b - {x});
    }
  }

  lemma OneMore(a: set<nat>, b: set<nat>, x: nat)
    requires a <= b + {x}
    ensures |a| <= |b| + 1
  {
    SubsetSize(a - {x}, b);
    assert x in a ==> |a - {x}| == |a| - 1;
    assert x !in a ==> a - {x} == a;
  }

  lemma Added(a: set<nat>, x: nat)
    requires x !in a
    ensures |a + {x}| == |a| + 1
  {
  }

  lemma AddedAtMost(a: set<nat>, x: nat)
    ensures |a + {x}| <= |a| + 1
  {
    OneMore(a + {x}, a, x);
  }

  lemma UnionSize(a: set<nat>, b: set<nat>)
    ensures |a + b| <= |a| + |b|
  {
    assert a + b == a + (b - a);
    SubsetSize(b - a, b);
  }

  lemma SizeWithout(a: set<nat>, b: set<nat>, x: nat)
    requires a - {x} == b - {x}
    ensures |a| == |b| + (if x in a && x !in b then 1 else if x in b && x !in a then -1 else 0)
  {
    assert x in a ==> |a - {x}| == |a| - 1;
    assert x !in a ==> a - {x} == a;
    assert x in b ==> |b - {x}| == |b| - 1;
    assert x !in b ==> b - {x} == b;
  }

  function Below(n: nat): (r: set<nat>)
    ensures |r| == n && forall i: nat :: i in r <==> i < n
  { if n == 0 then {} else Below(n - 1) + {n - 1} }

  // ---- What is counted ------------------------------------------------------------------------------------------

  /** The slots of a table that are not empty. */
  function Used(table: seq<Entry>): set<nat> { set i: nat | i < |table| && table[i].key != Empty }

  /** Thread t may still be added to table k on a lookup: it is in an older table, not in this one. */
  ghost predicate Waits(tables: Tables, t: nat, pc: Pc, k: nat)
    requires k < |tables|
  { !Exiting(pc) && Absent(tables[k], t) && exists l :: 0 <= l < k && !Absent(tables[l], t) }

  ghost function Waiting(s: State, k: nat): set<nat>
    requires k < |s.mem.tables|
  { set t: nat | t < |s.threads| && Waits(s.mem.tables, t, s.threads[t].pc, k) }

  /** First insertions into empty slots of table k and older ones. */
  function UnitsIn(units: seq<Unit>, k: nat): set<nat> { set x: nat | x < |units| && units[x].table <= k }

  function UnitsUpTo(units: seq<Unit>, b: nat): set<nat> { set x: nat | x < |units| && units[x].n <= b }

  /** The thread is counted, and whether for good is still open. */
  predicate Pending(pc: Pc) {
    pc.Check? || pc.Lock? || pc.Reload? || pc.Grow? || pc.GiveUpLocked? || pc.Unlock? || pc.Room? || pc.Acquire? || pc.GiveUp?
    || pc.TakeTomb? || pc.TakeEmpty? || pc.Uncount?
  }

  function PendingUpTo(threads: seq<Thread>, b: nat): set<nat> {
    set t: nat | t < |threads| && Pending(threads[t].pc) && threads[t].pc.n <= b
  }

  function AllPending(threads: seq<Thread>): set<nat> { set t: nat | t < |threads| && Pending(threads[t].pc) }

  // ---- The invariant --------------------------------------------------------------------------------------------

  /** The count is that of the slots taken for good and of the threads still at it, and at no time are more of them
      numbered up to b than b. */
  ghost predicate CountOk(s: State) {
    && s.mem.count == |s.mem.units| + |AllPending(s.threads)|
    && (forall b: nat :: |UnitsUpTo(s.mem.units, b)| + |PendingUpTo(s.threads, b)| <= b)
  }

  /** A table is only inserted into by threads numbered below three quarters of it; newer tables are larger. */
  ghost predicate FitOk(s: State) {
    && (forall k, l :: 0 <= k < l < |s.mem.tables| ==> |s.mem.tables[k]| <= |s.mem.tables[l]|)
    && (forall x :: 0 <= x < |s.mem.units| ==>
          s.mem.units[x].table < |s.mem.tables| && s.mem.units[x].n < Limit(|s.mem.tables[s.mem.units[x].table]|))
    && (forall t :: 0 <= t < |s.threads| ==> PcFits(s.mem.tables, s.threads[t].pc))
  }

  predicate PcFits(tables: Tables, pc: Pc) {
    pc.Acquire? || pc.TakeTomb? || pc.TakeEmpty? ==> pc.main < |tables| && pc.n < Limit(|tables[pc.main]|)
  }

  /** The slots of a table and the threads that wait for one are paid for. */
  ghost predicate RoomOk(s: State) {
    && |s.mem.reused| == |s.mem.tables|
    && forall k: nat :: k < |s.mem.tables| ==> Paid(s, k)
  }

  ghost predicate Paid(s: State, k: nat)
    requires k < |s.mem.tables| == |s.mem.reused|
  { |Used(s.mem.tables[k])| + |Waiting(s, k)| <= |UnitsIn(s.mem.units, k)| + s.mem.reused[k] }

  // ---- The count ------------------------------------------------------------------------------------------------

  lemma PendingSame(threads: seq<Thread>, t: nat, th: Thread, b: nat)
    requires t < |threads| && Pending(threads[t].pc) && Pending(th.pc) && th.pc.n == threads[t].pc.n
    ensures PendingUpTo(threads[t := th], b) == PendingUpTo(threads, b) && AllPending(threads[t := th]) == AllPending(threads)
  {
  }

  lemma PendingGone(threads: seq<Thread>, t: nat, th: Thread, b: nat)
    requires t < |threads| && !Pending(th.pc)
    ensures PendingUpTo(threads[t := th], b) == PendingUpTo(threads, b) - {t} && AllPending(threads[t := th]) == AllPending(threads) - {t}
  {
  }

  lemma PendingNew(threads: seq<Thread>, t: nat, th: Thread, b: nat)
    requires t < |threads| && !Pending(threads[t].pc) && Pending(th.pc)
    ensures PendingUpTo(threads[t := th], b) == PendingUpTo(threads, b) + (if th.pc.n <= b then {t} else {})
    ensures AllPending(threads[t := th]) == AllPending(threads) + {t} && t !in AllPending(threads)
  {
  }

  lemma UnitsMore(units: seq<Unit>, u: Unit, b: nat)
    ensures |UnitsUpTo(units + [u], b)| == |UnitsUpTo(units, b)| + (if u.n <= b then 1 else 0)
  {
    var more := UnitsUpTo(units + [u], b);
    forall x: nat ensures x in more <==> x in UnitsUpTo(units, b) || (x == |units| && u.n <= b) {
      assert x < |units| ==> (units + [u])[x] == units[x];
    }
    assert more == UnitsUpTo(units, b) + (if u.n <= b then {|units|} else {});
  }

  lemma UnitsInMore(units: seq<Unit>, u: Unit, k: nat)
    ensures |UnitsIn(units + [u], k)| == |UnitsIn(units, k)| + (if u.table <= k then 1 else 0)
  {
    var more := UnitsIn(units + [u], k);
    forall x: nat ensures x in more <==> x in UnitsIn(units, k) || (x == |units| && u.table <= k) {
      assert x < |units| ==> (units + [u])[x] == units[x];
    }
    assert more == UnitsIn(units, k) + (if u.table <= k then {|units|} else {});
  }

  lemma UnitsAll(units: seq<Unit>, b: nat)
    ensures |UnitsUpTo(units, b)| <= |units|
  {
    SubsetSize(UnitsUpTo(units, b), Below(|units|));
  }

  /** A thread takes its number: one more than there are before it. */
  lemma CountStep(s: State, t: nat, m': Memory, th: Thread)
    requires CountOk(s) && t < |s.threads| && !Pending(s.threads[t].pc) && Pending(th.pc) && th.pc.n == s.mem.count + 1
    requires m'.count == s.mem.count + 1 && m'.units == s.mem.units
    ensures CountOk(State(m', s.threads[t := th]))
  {
    var units, threads := s.mem.units, s.threads;
    PendingNew(threads, t, th, 0);
    forall b: nat ensures |UnitsUpTo(units, b)| + |PendingUpTo(threads[t := th], b)| <= b {
      PendingNew(threads, t, th, b);
      if th.pc.n <= b {
        UnitsAll(units, b);
        SubsetSize(PendingUpTo(threads, b), AllPending(threads));
      }
    }
  }

  /** A thread gives its number back. */
  lemma UncountStep(s: State, t: nat, m': Memory, th: Thread)
    requires CountOk(s) && t < |s.threads| && Pending(s.threads[t].pc) && !Pending(th.pc)
    requires m'.count == s.mem.count - 1 && m'.units == s.mem.units
    ensures CountOk(State(m', s.threads[t := th]))
  {
    PendingGone(s.threads, t, th, 0);
    forall b: nat ensures |UnitsUpTo(m'.units, b)| + |PendingUpTo(s.threads[t := th], b)| <= b {
      PendingGone(s.threads, t, th, b);
      SubsetSize(PendingUpTo(s.threads[t := th], b), PendingUpTo(s.threads, b));
    }
  }

  /** A thread takes an empty slot: its number is used for good. */
  lemma UnitStep(s: State, t: nat, m': Memory, th: Thread)
    requires CountOk(s) && t < |s.threads| && s.threads[t].pc.TakeEmpty? && !Pending(th.pc)
    requires m'.count == s.mem.count && m'.units == s.mem.units + [Unit(s.threads[t].pc.main, s.threads[t].pc.n)]
    ensures CountOk(State(m', s.threads[t := th]))
  {
    var u := Unit(s.threads[t].pc.main, s.threads[t].pc.n);
    PendingGone(s.threads, t, th, 0);
    forall b: nat ensures |UnitsUpTo(m'.units, b)| + |PendingUpTo(s.threads[t := th], b)| <= b {
      UnitsMore(s.mem.units, u, b);
      PendingGone(s.threads, t, th, b);
      if u.n <= b { assert t in PendingUpTo(s.threads, b); }
      SubsetSize(PendingUpTo(s.threads[t := th], b), PendingUpTo(s.threads, b));
    }
  }

  lemma SameStep(s: State, t: nat, m': Memory, th: Thread)
    requires CountOk(s) && t < |s.threads| && m'.count == s.mem.count && m'.units == s.mem.units
    requires Pending(th.pc) == Pending(s.threads[t].pc) && (Pending(th.pc) ==> th.pc.n == s.threads[t].pc.n)
    ensures CountOk(State(m', s.threads[t := th]))
  {
    forall b: nat
      ensures PendingUpTo(s.threads[t := th], b) == PendingUpTo(s.threads, b) && AllPending(s.threads[t := th]) == AllPending(s.threads)
    {
      if Pending(th.pc) { PendingSame(s.threads, t, th, b); } else { PendingGone(s.threads, t, th, b); }
    }
    assert AllPending(s.threads[t := th]) == AllPending(s.threads) by { assert PendingUpTo(s.threads[t := th], 0) == PendingUpTo(s.threads, 0); }
  }

  lemma CountKept(s: State, pick: Pick)
    requires Enabled(s, pick) && CountOk(s)
    ensures CountOk(Step(s, pick))
  {
    hide CountOk;
    var t := pick.thread;
    var (m', th) := Access(s.mem, t, s.threads[t], pick);
    var pc := s.threads[t].pc;
    if pc.Count? {
      CountStep(s, t, m', th);
    } else if pc.GiveUp? || pc.GiveUpLocked? || pc.Uncount? {
      UncountStep(s, t, m', th);
    } else if pc.TakeEmpty? && th.pc.StoreValue? {
      UnitStep(s, t, m', th);
    } else {
      SameStep(s, t, m', th);
    }
  }

  // ---- Numbers fit their tables ---------------------------------------------------------------------------------

  lemma LimitGrows(c: nat, d: nat)
    requires c <= d
    ensures Limit(c) <= Limit(d)
  {
  }

  /** Tables keep their size, and a new one is at least twice the latest. */
  ghost predicate SizesGrow(tables: Tables, tables': Tables) {
    && 0 < |tables| <= |tables'| <= |tables| + 1
    && (forall k :: 0 <= k < |tables| ==> |tables'[k]| == |tables[k]|)
    && (|tables'| > |tables| ==> |tables'[|tables|]| >= 2 * |tables[|tables| - 1]|)
  }

  lemma SizesAccess(m: Memory, t: nat, th: Thread, pick: Pick)
    requires Sized(m) && InRange(m.tables, th.pc) && (th.pc.Grow? ==> th.pc.main == Last(m))
    ensures SizesGrow(m.tables, Access(m, t, th, pick).0.tables)
  {
  }

  lemma PcFitsAccess(m: Memory, t: nat, th: Thread, pick: Pick)
    requires Sized(m) && InRange(m.tables, th.pc) && PcFits(m.tables, th.pc)
    ensures var (m', th') := Access(m, t, th, pick); PcFits(m'.tables, th'.pc)
  {
    hide Limit, Slot, SetEntry, Doubled, Reused;
    var (m', th') := Access(m, t, th, pick);
    if th'.pc.Acquire? || th'.pc.TakeTomb? || th'.pc.TakeEmpty? { assert m' == m; }
  }

  lemma UnitsAccess(m: Memory, t: nat, th: Thread, pick: Pick)
    requires Sized(m) && InRange(m.tables, th.pc)
    ensures var (m', th') := Access(m, t, th, pick);
            m'.units == if th.pc.TakeEmpty? && th'.pc.StoreValue? then m.units + [Unit(th.pc.main, th.pc.n)] else m.units
  {
  }

  lemma FitKept(s: State, pick: Pick)
    requires Enabled(s, pick) && FitOk(s) && LockOk(s)
    ensures FitOk(Step(s, pick))
  {
    var s' := Step(s, pick);
    var t := pick.thread;
    SizesAccess(s.mem, t, s.threads[t], pick);
    assert PcFits(s.mem.tables, s.threads[t].pc);
    PcFitsAccess(s.mem, t, s.threads[t], pick);
    UnitsAccess(s.mem, t, s.threads[t], pick);
    hide Access, LockOk, InRange, Sized;
    FitAfter(s, s', t);
  }

  lemma FitAfter(s: State, s': State, t: nat)
    requires FitOk(s) && t < |s.threads| && SizesGrow(s.mem.tables, s'.mem.tables)
    requires t < |s'.threads| && PcFits(s'.mem.tables, s'.threads[t].pc) && s'.threads == s.threads[t := s'.threads[t]]
    requires var pc := s.threads[t].pc;
             s'.mem.units == s.mem.units || (pc.TakeEmpty? && s'.mem.units == s.mem.units + [Unit(pc.main, pc.n)])
    ensures FitOk(s')
  {
    hide Limit;
    var tables, tables' := s.mem.tables, s'.mem.tables;
    forall u | 0 <= u < |s'.threads| ensures PcFits(tables', s'.threads[u].pc) {
      assert u != t ==> PcFits(tables, s.threads[u].pc);
    }
    assert PcFits(tables, s.threads[t].pc);
    forall k, l | 0 <= k < l < |tables'| ensures |tables'[k]| <= |tables'[l]| {
      assert l < |tables| ==> |tables[k]| <= |tables[l]|;
      assert l == |tables| && k < l - 1 ==> |tables[k]| <= |tables[l - 1]|;
    }
  }

  // ---- Slots and who waits for them -----------------------------------------------------------------------------

  /** Whether another thread waits is not changed by thread t. */
  lemma WaitsOther(tables: Tables, tables': Tables, t: nat, u: nat, pc: Pc, k: nat)
    requires Evolves(tables, tables', t) && u != t && k < |tables|
    ensures Waits(tables', u, pc, k) <==> Waits(tables, u, pc, k)
  {
    forall l | 0 <= l < |tables| ensures Absent(tables'[l], u) <==> Absent(tables[l], u) { AbsentKept(tables, tables', t, u, l); }
    if Waits(tables, u, pc, k) {
      var l :| 0 <= l < k && !Absent(tables[l], u);
      assert !Absent(tables'[l], u);
    }
  }

  /** The waiting threads of table k after a step of thread t, given whether t waits before and after. */
  lemma WaitingAfter(s: State, s': State, t: nat, k: nat)
    requires t < |s.threads| && k < |s.mem.tables| && Evolves(s.mem.tables, s'.mem.tables, t)
    requires |s'.threads| == |s.threads| && forall u :: 0 <= u < |s.threads| && u != t ==> s'.threads[u] == s.threads[u]
    ensures var before, after := Waits(s.mem.tables, t, s.threads[t].pc, k), Waits(s'.mem.tables, t, s'.threads[t].pc, k);
            |Waiting(s', k)| == |Waiting(s, k)| + (if after && !before then 1 else if before && !after then -1 else 0)
  {
    forall u: nat | u != t ensures u in Waiting(s', k) <==> u in Waiting(s, k) {
      if u < |s.threads| { WaitsOther(s.mem.tables, s'.mem.tables, t, u, s.threads[u].pc, k); }
    }
    SizeWithout(Waiting(s', k), Waiting(s, k), t);
  }

  /** Taking a slot. */
  lemma UsedAfter(table: seq<Entry>, i: nat, e: Entry)
    requires i < |table| && e.key != Empty
    ensures |Used(table[i := e])| == |Used(table)| + (if table[i].key == Empty then 1 else 0)
  {
    SizeWithout(Used(table[i := e]), Used(table), i);
  }

  /** Thread t takes a slot of table l: it waits no more for l, and may wait for newer tables. */
  lemma TakeWaits(tables: Tables, t: nat, th: Thread, pc: Pc, k: nat)
    requires Shaped(tables) && ThreadOk(tables, t, th) && Takes(th.pc) && (pc.Uncount? || pc.StoreValue?) && k < |tables|
    requires pc.main == th.pc.main && pc.slot < |tables[pc.main]|
    ensures var tables' := SetEntry(tables, pc.main, pc.slot, tables[pc.main][pc.slot].(key := Id(t)));
            var before, after := Waits(tables, t, th.pc, k), Waits(tables', t, pc, k);
            && (k < pc.main ==> before == after)
            && (k == pc.main ==> !after && (th.pc.AddEmpty? || th.pc.AddTomb? ==> before))
            && (k > pc.main ==> (th.pc.AddEmpty? || th.pc.AddTomb? ==> before == after))
  {
    var l, i := pc.main, pc.slot;
    var tables' := SetEntry(tables, l, i, tables[l][i].(key := Id(t)));
    forall x | 0 <= x < |tables| && x != l ensures tables'[x] == tables[x] {}
    assert tables'[l][i].key == Id(t);
    assert !Absent(tables'[l], t);
    if th.pc.AddEmpty? || th.pc.AddTomb? {
      var o :| 0 <= o < |tables| && !Absent(tables[o], t);
      assert o < l && tables'[o] == tables[o];
    }
  }

  /** What a successful take does to the memory. */
  ghost predicate Took(m: Memory, t: nat, th: Thread, m': Memory, pc: Pc)
    requires Sized(m) && InRange(m.tables, th.pc) && Takes(th.pc)
  {
    var i := Slot(th.hash, |m.tables[th.pc.main]|, th.pc.j);
    var e := m.tables[th.pc.main][i];
    && (pc.StoreValue? || pc.Uncount?) && pc.main == th.pc.main && pc.slot == i && pc.value == th.pc.value
    && e.key == (if th.pc.AddEmpty? || th.pc.TakeEmpty? then Empty else Tomb)
    && m'.tables == SetEntry(m.tables, th.pc.main, i, e.(key := Id(t)))
    && m'.units == (if th.pc.TakeEmpty? then m.units + [Unit(th.pc.main, th.pc.n)] else m.units)
    && m'.reused == (if th.pc.TakeTomb? then Reused(m.reused, th.pc.main) else m.reused)
  }

  lemma TakeAccess(m: Memory, t: nat, th: Thread, pick: Pick)
    requires Sized(m) && InRange(m.tables, th.pc) && Takes(th.pc)
    ensures var (m', th') := Access(m, t, th, pick);
            th'.hash == th.hash && (Took(m, t, th, m', th'.pc) || (m' == m && !Exiting(th'.pc)))
  {
    hide Slot, Reused;
  }

  /** Taking a slot is paid for: an empty one by the new unit or by the thread's own wait, a cleared one of an older
      table by being put on record. */
  lemma PaidTake(s: State, s': State, t: nat, k: nat)
    requires Inv(s) && RoomOk(s) && t < |s.threads| && k < |s.mem.tables| && Takes(s.threads[t].pc)
    requires |s'.threads| == |s.threads| && forall u :: 0 <= u < |s.threads| && u != t ==> s'.threads[u] == s.threads[u]
    requires InRange(s.mem.tables, s.threads[t].pc) && Took(s.mem, t, s.threads[t], s'.mem, s'.threads[t].pc)
    ensures k < |s'.mem.tables| == |s'.mem.reused| && Paid(s', k)
  {
    var m, th, pc := s.mem, s.threads[t], s'.threads[t].pc;
    var l, i := th.pc.main, pc.slot;
    var e := m.tables[l][i].(key := Id(t));
    assert Paid(s, k) && ThreadOk(m.tables, t, th);
    SetEvolves(m.tables, l, i, e, t);
    hide Inv, RoomOk, Evolves, Waits, Waiting, Used, UnitsIn, ThreadOk;
    TakeWaits(m.tables, t, th, pc, k);
    WaitingAfter(s, s', t, k);
    UsedAfter(m.tables[l], i, e);
    if th.pc.TakeEmpty? { UnitsInMore(m.units, Unit(l, th.pc.n), k); }
  }

  /** Steps that leave all keys alone and make no thread wait. */
  lemma PaidQuiet(s: State, s': State, t: nat, k: nat)
    requires RoomOk(s) && t < |s.threads| && k < |s.mem.tables| && Evolves(s.mem.tables, s'.mem.tables, t)
    requires |s'.threads| == |s.threads| && forall u :: 0 <= u < |s.threads| && u != t ==> s'.threads[u] == s.threads[u]
    requires Used(s'.mem.tables[k]) == Used(s.mem.tables[k])
    requires s'.mem.units == s.mem.units && |s'.mem.reused| == |s'.mem.tables| && s'.mem.reused[k] == s.mem.reused[k]
    requires Waits(s'.mem.tables, t, s'.threads[t].pc, k) ==> Waits(s.mem.tables, t, s.threads[t].pc, k)
    ensures Paid(s', k)
  {
    assert Paid(s, k);
    hide RoomOk, Evolves, Waits, Waiting, Used, UnitsIn;
    WaitingAfter(s, s', t, k);
  }

  // ---- A new table ------------------------------------------------------------------------------------------------

  function Residents(table: seq<Entry>, n: nat): set<nat>
    requires n <= |table|
  {
    if n == 0 then {}
    else if table[n - 1].key.Id? then Residents(table, n - 1) + {table[n - 1].key.thread}
    else Residents(table, n - 1)
  }

  function UsedBelow(table: seq<Entry>, n: nat): set<nat>
    requires n <= |table|
  {
    if n == 0 then {}
    else if table[n - 1].key != Empty then UsedBelow(table, n - 1) + {n - 1}
    else UsedBelow(table, n - 1)
  }

  lemma ResidentsNext(table: seq<Entry>, n: nat)
    requires n < |table|
    ensures |Residents(table, n + 1)| <= |Residents(table, n)| + (if table[n].key.Id? then 1 else 0)
  {
    if table[n].key.Id? { AddedAtMost(Residents(table, n), table[n].key.thread); }
  }

  lemma {:induction false} UsedBelowIs(table: seq<Entry>, n: nat, i: nat)
    requires n <= |table|
    ensures i in UsedBelow(table, n) <==> i < n && table[i].key != Empty
  {
    if n > 0 { UsedBelowIs(table, n - 1, i); }
  }

  lemma UsedNext(table: seq<Entry>, n: nat)
    requires n < |table|
    ensures |UsedBelow(table, n + 1)| == |UsedBelow(table, n)| + (if table[n].key != Empty then 1 else 0)
  {
    UsedBelowIs(table, n, n);
    if table[n].key != Empty { Added(UsedBelow(table, n), n); }
  }

  /** The threads in a table are no more than its used slots. */
  lemma {:induction false} ResidentsFew(table: seq<Entry>, n: nat)
    requires n <= |table|
    ensures |Residents(table, n)| <= |UsedBelow(table, n)|
  {
    assert |Residents(table, 0)| == 0;
    hide Residents, UsedBelow;
    if n > 0 {
      ResidentsFew(table, n - 1);
      ResidentsNext(table, n - 1);
      UsedNext(table, n - 1);
    }
  }

  lemma {:induction false} ResidentsAll(table: seq<Entry>, n: nat, i: nat)
    requires i < n <= |table| && table[i].key.Id?
    ensures table[i].key.thread in Residents(table, n)
  {
    if i < n - 1 { ResidentsAll(table, n - 1, i); }
  }

  /** Whoever waits for a new table waited for the one before it or is in it. */
  lemma NewWaiters(s: State, s': State)
    requires Sized(s.mem) && |s'.mem.tables| == |s.mem.tables| + 1 && |s'.threads| == |s.threads|
    requires forall k :: 0 <= k < |s.mem.tables| ==> s'.mem.tables[k] == s.mem.tables[k]
    requires forall t :: 0 <= t < |s.threads| ==> (Exiting(s.threads[t].pc) ==> Exiting(s'.threads[t].pc))
    ensures var table := s.mem.tables[Last(s.mem)];
            Waiting(s', |s.mem.tables|) <= Residents(table, |table|) + Waiting(s, Last(s.mem))
  {
    var n, last := |s.mem.tables|, Last(s.mem);
    var table := s.mem.tables[last];
    forall t | t in Waiting(s', n) ensures t in Residents(table, |table|) || t in Waiting(s, last) {
      var l :| 0 <= l < n && !Absent(s'.mem.tables[l], t);
      if i: nat :| i < |table| && table[i].key == Id(t) {
        ResidentsAll(table, |table|, i);
      } else {
        assert l < last && !Absent(s.mem.tables[l], t);
      }
    }
  }

  lemma UsedBelowAll(table: seq<Entry>)
    ensures UsedBelow(table, |table|) == Used(table)
  {
    forall i: nat ensures i in UsedBelow(table, |table|) <==> i in Used(table) { UsedBelowIs(table, |table|, i); }
  }

  lemma UnitsInLast(s: State)
    requires Sized(s.mem) && FitOk(s)
    ensures UnitsIn(s.mem.units, |s.mem.tables|) == UnitsIn(s.mem.units, Last(s.mem))
  {
  }

  lemma PaidNew(s: State, s': State)
    requires Sized(s.mem) && RoomOk(s) && FitOk(s)
    requires |s'.mem.tables| == |s'.mem.reused| == |s.mem.tables| + 1 && |s'.threads| == |s.threads|
    requires forall k :: 0 <= k < |s.mem.tables| ==> s'.mem.tables[k] == s.mem.tables[k]
    requires Used(s'.mem.tables[|s.mem.tables|]) == {} && s'.mem.units == s.mem.units
    requires s'.mem.reused[|s.mem.tables|] == s.mem.reused[|s.mem.tables| - 1]
    requires forall t :: 0 <= t < |s.threads| ==> (Exiting(s.threads[t].pc) ==> Exiting(s'.threads[t].pc))
    ensures Paid(s', |s.mem.tables|)
  {
    var n, last := |s.mem.tables|, Last(s.mem);
    var table := s.mem.tables[last];
    var here, there := Residents(table, |table|), Waiting(s, last);
    assert Paid(s, last);
    hide RoomOk, Waiting, Used, UnitsIn, Residents, UsedBelow;
    UsedBelowAll(table);
    UnitsInLast(s);
    hide FitOk;
    ResidentsFew(table, |table|);
    NewWaiters(s, s');
    SubsetSize(Waiting(s', n), here + there);
    UnionSize(here, there);
  }

  lemma QuietAccess(m: Memory, t: nat, th: Thread, pick: Pick)
    requires Sized(m) && ThreadOk(m.tables, t, th) && !Takes(th.pc) && !th.pc.Clear? && !th.pc.Grow?
    ensures var (m', th') := Access(m, t, th, pick);
            && |m'.tables| == |m.tables| && m'.units == m.units && m'.reused == m.reused
            && (forall k :: 0 <= k < |m.tables| ==> SameKeys(m.tables[k], m'.tables[k]))
            && (Exiting(th.pc) ==> Exiting(th'.pc) || AbsentFrom(m.tables, t, 0))
  {
    hide AllPlaced, Present, AbsentFrom, ValuesOk, Passed, PassedOver;
  }

  ghost predicate SameKeys(table: seq<Entry>, table': seq<Entry>) {
    |table'| == |table| && forall i :: 0 <= i < |table| ==> table'[i].key == table[i].key
  }

  lemma SameKeysSame(table: seq<Entry>, table': seq<Entry>, t: nat)
    requires SameKeys(table, table')
    ensures Used(table') == Used(table) && (Absent(table', t) <==> Absent(table, t))
  {
  }

  lemma ClearAccess(m: Memory, t: nat, th: Thread, pick: Pick)
    requires Sized(m) && InRange(m.tables, th.pc) && th.pc.Clear?
    ensures var (m', th') := Access(m, t, th, pick);
            && |m'.tables| == |m.tables| && m'.units == m.units && m'.reused == m.reused && Exiting(th'.pc)
            && (forall k :: 0 <= k < |m.tables| ==> Used(m'.tables[k]) == Used(m.tables[k]))
  {
  }

  // ---- Runs -----------------------------------------------------------------------------------------------------

  lemma QuietPaid(s: State, pick: Pick, k: nat)
    requires Inv(s) && RoomOk(s) && Enabled(s, pick) && k < |s.mem.tables|
    requires var pc := s.threads[pick.thread].pc; !Takes(pc) && !pc.Clear? && !pc.Grow?
    ensures var s' := Step(s, pick); k < |s'.mem.tables| == |s'.mem.reused| && Paid(s', k)
  {
    var t, s' := pick.thread, Step(s, pick);
    assert ThreadOk(s.mem.tables, t, s.threads[t]);
    AccessEvolves(s.mem, t, s.threads[t], pick);
    QuietAccess(s.mem, t, s.threads[t], pick);
    hide Inv, Access, ThreadOk, Evolves, Paid, Used, InRange;
    forall l | 0 <= l < |s.mem.tables|
      ensures Used(s'.mem.tables[l]) == Used(s.mem.tables[l]) && (Absent(s'.mem.tables[l], t) <==> Absent(s.mem.tables[l], t))
    {
      SameKeysSame(s.mem.tables[l], s'.mem.tables[l], t);
    }
    PaidQuiet(s, s', t, k);
  }

  lemma ClearPaid(s: State, pick: Pick, k: nat)
    requires Inv(s) && RoomOk(s) && Enabled(s, pick) && k < |s.mem.tables| && s.threads[pick.thread].pc.Clear?
    ensures var s' := Step(s, pick); k < |s'.mem.tables| == |s'.mem.reused| && Paid(s', k)
  {
    var t, s' := pick.thread, Step(s, pick);
    assert ThreadOk(s.mem.tables, t, s.threads[t]);
    AccessEvolves(s.mem, t, s.threads[t], pick);
    ClearAccess(s.mem, t, s.threads[t], pick);
    hide Inv, Access, ThreadOk, Evolves, Paid, Used, InRange;
    PaidQuiet(s, s', t, k);
  }

  lemma GrowPaid(s: State, pick: Pick, k: nat)
    requires Inv(s) && RoomOk(s) && FitOk(s) && Enabled(s, pick) && s.threads[pick.thread].pc.Grow?
    requires k < |Step(s, pick).mem.tables|
    ensures var s' := Step(s, pick); |s'.mem.tables| == |s'.mem.reused| && Paid(s', k)
  {
    var t, s' := pick.thread, Step(s, pick);
    assert ThreadOk(s.mem.tables, t, s.threads[t]);
    AccessEvolves(s.mem, t, s.threads[t], pick);
    var n := |s.mem.tables|;
    assert forall l :: 0 <= l < n ==> s'.mem.tables[l] == s.mem.tables[l] && s'.mem.reused[l] == s.mem.reused[l];
    assert s'.mem.units == s.mem.units && |s'.mem.tables| == |s'.mem.reused|;
    assert |s'.mem.tables| > n ==> |s'.mem.tables| == n + 1 && Used(s'.mem.tables[n]) == {} && s'.mem.reused[n] == s.mem.reused[n - 1];
    assert !Exiting(s.threads[t].pc);
    assert AbsentFrom(s.mem.tables, t, 0);
    hide Inv, Access, ThreadOk, Evolves, Paid, Used, InRange, RoomOk, FitOk;
    if k < n {
      PaidQuiet(s, s', t, k);
    } else {
      PaidNew(s, s');
    }
  }

  lemma TakePaid(s: State, pick: Pick, k: nat)
    requires Inv(s) && RoomOk(s) && Enabled(s, pick) && k < |s.mem.tables| && Takes(s.threads[pick.thread].pc)
    ensures var s' := Step(s, pick); k < |s'.mem.tables| == |s'.mem.reused| && Paid(s', k)
  {
    var t, s' := pick.thread, Step(s, pick);
    AccessEvolves(s.mem, t, s.threads[t], pick);
    TakeAccess(s.mem, t, s.threads[t], pick);
    hide Inv, Access, Evolves, Paid, Used, InRange, RoomOk, Took;
    if Took(s.mem, t, s.threads[t], s'.mem, s'.threads[t].pc) {
      PaidTake(s, s', t, k);
    } else {
      PaidQuiet(s, s', t, k);
    }
  }

  ghost predicate RoomInv(s: State) { Inv(s) && CountOk(s) && FitOk(s) && RoomOk(s) }

  lemma RoomKept(s: State, pick: Pick)
    requires RoomInv(s) && Legal(s, pick)
    ensures Enabled(s, pick) && RoomInv(Step(s, pick))
  {
    hide CountOk, FitOk, RoomOk, Paid;
    StepKeeps(s, pick);
    CountKept(s, pick);
    FitKept(s, pick);
    var s', pc := Step(s, pick), s.threads[pick.thread].pc;
    TablesAfter(s, pick);
    forall k: nat | k < |s'.mem.tables| ensures |s'.mem.tables| == |s'.mem.reused| && Paid(s', k) {
      if Takes(pc) { TakePaid(s, pick, k); }
      else if pc.Clear? { ClearPaid(s, pick, k); }
      else if pc.Grow? { GrowPaid(s, pick, k); }
      else { QuietPaid(s, pick, k); }
    }
    RoomIs(s');
  }

  lemma TablesAfter(s: State, pick: Pick)
    requires Enabled(s, pick)
    ensures var m' := Step(s, pick).mem; 0 < |s.mem.tables| <= |m'.tables| && |m'.reused| == |m'.tables|
    ensures !s.threads[pick.thread].pc.Grow? ==> |Step(s, pick).mem.tables| == |s.mem.tables|
  {
  }

  lemma RoomIs(s: State)
    requires |s.mem.reused| == |s.mem.tables| && forall k: nat :: k < |s.mem.tables| ==> Paid(s, k)
    ensures RoomOk(s)
  {
  }

  lemma InitRoom(capacity: nat, hashes: seq<nat>)
    requires capacity > 0
    ensures RoomInv(Init(capacity, hashes))
  {
    var s := Init(capacity, hashes);
    InitOk(capacity, hashes);
    assert AllPending(s.threads) == {} && Used(s.mem.tables[0]) == {} && Waiting(s, 0) == {};
    forall b: nat ensures UnitsUpTo(s.mem.units, b) == {} && PendingUpTo(s.threads, b) == {} {}
  }

  lemma {:induction false} RunRoom(states: seq<State>, picks: seq<Pick>, i: nat)
    requires Run(states, picks) && i < |states|
    ensures RoomInv(states[i])
  {
    hide RoomInv, Step, Enabled;
    if i == 0 {
      var capacity: nat, hashes: seq<nat> :| capacity > 0 && states[0] == Init(capacity, hashes);
      InitRoom(capacity, hashes);
    } else {
      RunRoom(states, picks, i - 1);
      assert Follows(states[i - 1], picks[i - 1], states[i]);
      RoomKept(states[i - 1], picks[i - 1]);
    }
  }

  /** First insertions into empty slots of a table and older ones stay below three quarters of it. */
  lemma UnitsFew(s: State, k: nat)
    requires CountOk(s) && FitOk(s) && k < |s.mem.tables|
    ensures |UnitsIn(s.mem.units, k)| <= if Limit(|s.mem.tables[k]|) == 0 then 0 else Limit(|s.mem.tables[k]|) - 1
  {
    var units, limit := s.mem.units, Limit(|s.mem.tables[k]|);
    forall x | x in UnitsIn(units, k) ensures units[x].n < limit {
      LimitGrows(|s.mem.tables[units[x].table]|, |s.mem.tables[k]|);
    }
    if limit == 0 {
      forall x: nat ensures x !in UnitsIn(units, k) { assert x in UnitsIn(units, k) ==> units[x].n < 0; UnitsPositive(s, x); }
      assert UnitsIn(units, k) == {};
    } else {
      SubsetSize(UnitsIn(units, k), UnitsUpTo(units, limit - 1));
      assert |UnitsUpTo(units, limit - 1)| + |PendingUpTo(s.threads, limit - 1)| <= limit - 1;
    }
  }

  lemma UnitsPositive(s: State, x: nat)
    requires CountOk(s)
    ensures x < |s.mem.units| ==> s.mem.units[x].n > 0
  {
    assert |UnitsUpTo(s.mem.units, 0)| + |PendingUpTo(s.threads, 0)| <= 0;
    assert x !in UnitsUpTo(s.mem.units, 0);
  }

  // ---- Every probe loop ends while a table has an empty slot ---------------------------------------------------

  ghost predicate HasEmpty(table: seq<Entry>) { exists i :: 0 <= i < |table| && table[i].key == Empty }

  lemma FewUsed(table: seq<Entry>)
    requires |Used(table)| < |table|
    ensures HasEmpty(table)
  {
    assert HasEmpty(table) || Used(table) == Below(|table|);
  }

  /** In every state of every run, a table has fewer than three quarters of its slots in use, plus one for each first
      insertion that took over a cleared slot of an older table; so it keeps an empty slot until there have been more
      of these than a quarter of its size. */
  lemma TableKeepsRoom(states: seq<State>, picks: seq<Pick>, i: nat, k: nat)
    requires Run(states, picks) && i < |states| && k < |states[i].mem.tables|
    ensures var m := states[i].mem;
            var capacity := |m.tables[k]|;
            && |m.reused| == |m.tables|
            && |Used(m.tables[k])| <= (if Limit(capacity) == 0 then 0 else Limit(capacity) - 1) + m.reused[k]
            && (m.reused[k] <= capacity / 4 ==> HasEmpty(m.tables[k]))
  {
    RunRoom(states, picks, i);
    var s := states[i];
    assert Paid(s, k);
    UnitsFew(s, k);
    hide Inv, CountOk, FitOk, RoomOk, UnitsIn, Waiting, Used;
    if s.mem.reused[k] <= |s.mem.tables[k]| / 4 { FewUsed(s.mem.tables[k]); }
  }

  /** The table a thread probes. */
  function Probed(pc: Pc): nat
    requires Takes(pc) || pc.Probe? || pc.Clear?
  { if Takes(pc) then pc.main else pc.table }

  /** A thread that probes a table with an empty slot has not yet been all the way around it: each of its loops ends
      after at most as many turns as the table has slots. */
  lemma ProbesEnd(states: seq<State>, picks: seq<Pick>, i: nat, t: nat)
    requires Run(states, picks) && i < |states| && t < |states[i].threads|
    requires var pc := states[i].threads[t].pc; Takes(pc) || pc.Probe? || pc.Clear?
    requires Probed(states[i].threads[t].pc) < |states[i].mem.tables| && HasEmpty(states[i].mem.tables[Probed(states[i].threads[t].pc)])
    ensures var pc := states[i].threads[t].pc; pc.j < |states[i].mem.tables[Probed(pc)]|
  {
    RunInv(states, picks, i);
    var s := states[i];
    var th := s.threads[t];
    assert ThreadOk(s.mem.tables, t, th);
    var table := s.mem.tables[Probed(th.pc)];
    var x :| 0 <= x < |table| && table[x].key == Empty;
    var j := SlotOnWay(th.hash, |table|, x);
    assert table[Slot(th.hash, |table|, j)].key == Empty;
  }

  /** A lookup in a table that has neither an empty slot nor the thread's key never gets out of it. */
  lemma {:induction false} FullTableTraps(states: seq<State>, picks: seq<Pick>, i: nat, i': nat, t: nat)
    requires Run(states, picks) && i <= i' < |states| && t < |states[i].threads| && states[i].threads[t].pc.Probe?
    requires var k := states[i].threads[t].pc.table;
             k < |states[i].mem.tables| && !HasEmpty(states[i].mem.tables[k]) && Absent(states[i].mem.tables[k], t)
    ensures var k, s' := states[i].threads[t].pc.table, states[i'];
            && |s'.threads| == |states[i].threads| && s'.threads[t].pc.Probe? && s'.threads[t].pc.table == k
            && k < |s'.mem.tables| && !HasEmpty(s'.mem.tables[k]) && Absent(s'.mem.tables[k], t)
    decreases i' - i
  {
    if i < i' {
      FullTableTraps(states, picks, i, i' - 1, t);
      RunInv(states, picks, i' - 1);
      TrapStep(states[i' - 1], picks[i' - 1], t, states[i].threads[t].pc.table);
    }
  }

  lemma TrapStep(s: State, pick: Pick, t: nat, k: nat)
    requires Inv(s) && Enabled(s, pick) && t < |s.threads| && s.threads[t].pc.Probe? && s.threads[t].pc.table == k < |s.mem.tables|
    requires !HasEmpty(s.mem.tables[k]) && Absent(s.mem.tables[k], t)
    ensures var s' := Step(s, pick);
            && |s'.threads| == |s.threads| && s'.threads[t].pc.Probe? && s'.threads[t].pc.table == k
            && k < |s'.mem.tables| && !HasEmpty(s'.mem.tables[k]) && Absent(s'.mem.tables[k], t)
  {
    var s', u := Step(s, pick), pick.thread;
    assert ThreadOk(s.mem.tables, u, s.threads[u]);
    AccessEvolves(s.mem, u, s.threads[u], pick);
    if u == t {
      var table := s.mem.tables[k];
      var i := Slot(s.threads[t].hash, |table|, s.threads[t].pc.j);
      assert table[i].key != Empty && table[i].key != Id(t);
    } else {
      hide Access;
      AbsentKept(s.mem.tables, s'.mem.tables, u, t, k);
      forall i | 0 <= i < |s'.mem.tables[k]| ensures s'.mem.tables[k][i].key != Empty {
        assert EntryEvolves(s.mem.tables[k][i], s'.mem.tables[k][i], u);
      }
    }
  }

  // ---- The first table ------------------------------------------------------------------------------------------

  /** No older table has slots to take over when the first one is there, and each later one has twice the slots. */
  ghost predicate Doubling(s: State) {
    && |s.mem.reused| == |s.mem.tables| > 0 && s.mem.reused[0] == 0
    && (forall k :: 0 < k < |s.mem.tables| ==> |s.mem.tables[k]| >= 2 * |s.mem.tables[k - 1]|)
  }

  lemma FirstReused(m: Memory, t: nat, th: Thread, pick: Pick)
    requires Sized(m) && InRange(m.tables, th.pc)
    ensures var m' := Access(m, t, th, pick).0; |m'.reused| == |m'.tables| > 0 && m'.reused[0] == m.reused[0]
  {
    hide Slot, Doubled;
  }

  lemma DoublingKept(s: State, pick: Pick)
    requires Enabled(s, pick) && LockOk(s) && Doubling(s)
    ensures Doubling(Step(s, pick))
  {
    var s', t, n := Step(s, pick), pick.thread, |s.mem.tables|;
    SizesAccess(s.mem, t, s.threads[t], pick);
    FirstReused(s.mem, t, s.threads[t], pick);
    hide Access;
    forall k | 0 < k < |s'.mem.tables| ensures |s'.mem.tables[k]| >= 2 * |s'.mem.tables[k - 1]| {
      assert k < n ==> |s.mem.tables[k]| >= 2 * |s.mem.tables[k - 1]|;
    }
  }

  lemma {:induction false} RunDoubling(states: seq<State>, picks: seq<Pick>, i: nat)
    requires Run(states, picks) && i < |states|
    ensures Doubling(states[i]) && |states[i].threads| == |states[0].threads|
    ensures |states[0].mem.tables| == 1 <= |states[i].mem.tables| && |states[i].mem.tables[0]| == |states[0].mem.tables[0]|
  {
    if i == 0 {
      var capacity: nat, hashes: seq<nat> :| capacity > 0 && states[0] == Init(capacity, hashes);
    } else {
      RunDoubling(states, picks, i - 1);
      RunInv(states, picks, i - 1);
      var s := states[i - 1];
      DoublingKept(s, picks[i - 1]);
      SizesAccess(s.mem, picks[i - 1].thread, s.threads[picks[i - 1].thread], picks[i - 1]);
    }
  }

  // ---- No exits -------------------------------------------------------------------------------------------------

  predicate NobodyExits(picks: seq<Pick>) { forall i :: 0 <= i < |picks| ==> !picks[i].exit }

  ghost predicate NoTombs(tables: Tables) {
    forall k, i :: 0 <= k < |tables| && 0 <= i < |tables[k]| ==> tables[k][i].key != Tomb
  }

  /** Nobody is on the way out, no slot has been cleared, none was taken over. */
  ghost predicate Calm(s: State) {
    && NoTombs(s.mem.tables) && (forall k :: 0 <= k < |s.mem.reused| ==> s.mem.reused[k] == 0)
    && (forall t :: 0 <= t < |s.threads| ==> !s.threads[t].pc.ExitLoad? && !Exiting(s.threads[t].pc))
  }

  lemma CalmAccess(m: Memory, t: nat, th: Thread, pick: Pick)
    requires Sized(m) && InRange(m.tables, th.pc) && !pick.exit && !th.pc.ExitLoad? && !Exiting(th.pc) && NoTombs(m.tables)
    requires th.pc.StoreValue? ==> m.tables[th.pc.main][th.pc.slot].key == Id(t)
    ensures var (m', th') := Access(m, t, th, pick);
            && NoTombs(m'.tables) && !th'.pc.ExitLoad? && !Exiting(th'.pc)
            && (m'.reused == m.reused || m'.reused == m.reused + [m.reused[Last(m)]])
  {
    hide Slot, Doubled;
  }

  lemma CalmKept(s: State, pick: Pick)
    requires Inv(s) && Calm(s) && Enabled(s, pick) && !pick.exit
    ensures Calm(Step(s, pick))
  {
    var t := pick.thread;
    assert ThreadOk(s.mem.tables, t, s.threads[t]);
    CalmAccess(s.mem, t, s.threads[t], pick);
    hide Inv, ThreadOk, Access, NoTombs;
  }

  lemma {:induction false} RunCalm(states: seq<State>, picks: seq<Pick>, i: nat)
    requires Run(states, picks) && NobodyExits(picks) && i < |states|
    ensures Calm(states[i])
  {
    if i == 0 {
      var capacity: nat, hashes: seq<nat> :| capacity > 0 && states[0] == Init(capacity, hashes);
    } else {
      RunCalm(states, picks, i - 1);
      RunInv(states, picks, i - 1);
      hide Calm, Inv, Step, Enabled;
      CalmKept(states[i - 1], picks[i - 1]);
    }
  }

  /** As long as nobody exits, every table keeps an empty slot, however many threads there are. */
  lemma WithoutExitsKeepRoom(states: seq<State>, picks: seq<Pick>, i: nat, k: nat)
    requires Run(states, picks) && NobodyExits(picks) && i < |states| && k < |states[i].mem.tables|
    ensures HasEmpty(states[i].mem.tables[k])
  {
    RunCalm(states, picks, i);
    TableKeepsRoom(states, picks, i, k);
  }
}
