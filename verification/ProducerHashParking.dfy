/** Where the threads of module ProducerHash are on their ways through a table, counted slot by slot: a table that has more
    slots than there are threads never fills up, whatever the threads do. */
module ProducerHashParking {
  import opened Options
  import opened ProducerHash
  import opened ProducerHashRoom
  import Arithmetic

  // ---- On the way through a table -------------------------------------------------------------------------------

  /** The thread is about to take the j-th slot on its way through table k, if it can. */
  predicate AboutToTake(table: seq<Entry>, k: nat, th: Thread, j: nat)
    requires |table| > 0
  {
    var pc := th.pc;
    || ((pc.AddEmpty? || pc.AddTomb? || pc.TakeTomb?) && pc.main == k && j == pc.j)
    || (pc.TakeEmpty? && pc.main == k && j == if table[Slot(th.hash, |table|, pc.j)].key == Empty then pc.j else pc.j + 1)
  }

  /** Thread t has the j-th slot on its way through table k, or is about to take it. */
  predicate At(table: seq<Entry>, k: nat, t: nat, th: Thread, j: nat)
    requires |table| > 0
  { (j < |table| && table[Slot(th.hash, |table|, j)].key == Id(t)) || AboutToTake(table, k, th, j) }

  /** It has passed over slot y. */
  ghost predicate Over(table: seq<Entry>, k: nat, t: nat, th: Thread, y: nat)
    requires |table| > 0
  { exists l: nat, j: nat :: l < j && Slot(th.hash, |table|, l) == y && At(table, k, t, th, j) }

  ghost function Overs(table: seq<Entry>, k: nat, threads: seq<Thread>, y: nat): set<nat>
    requires |table| > 0
  { set t: nat | t < |threads| && Over(table, k, t, threads[t], y) }

  function Hashes(threads: seq<Thread>): seq<nat> { seq(|threads|, t requires 0 <= t < |threads| => threads[t].hash) }

  /** The threads whose way begins at slot y. */
  function Starts(hashes: seq<nat>, capacity: nat, y: nat): set<nat>
    requires capacity > 0
  { set t: nat | t < |hashes| && Slot(hashes[t], capacity, 0) == y }

  /** How many ways begin at the i slots after z. */
  function Arc(hashes: seq<nat>, capacity: nat, z: nat, i: nat): nat
    requires capacity > 0
  { if i == 0 then 0 else Arc(hashes, capacity, z, i - 1) + |Starts(hashes, capacity, Slot(z, capacity, i))| }

  /** The i slots after z are in use. */
  ghost predicate InUse(table: seq<Entry>, z: nat, i: nat)
    requires |table| > 0
  { forall l: nat :: 1 <= l <= i ==> table[Slot(z, |table|, l)].key != Empty }

  /** Of the threads whose ways begin at the i slots after z, one for each slot does not pass over the last. */
  ghost predicate BoundAt(table: seq<Entry>, k: nat, threads: seq<Thread>, z: nat, i: nat)
    requires |table| > 0
  { |Overs(table, k, threads, Slot(z, |table|, i))| + i <= Arc(Hashes(threads), |table|, z, i) }

  /** Of the threads whose ways begin in a stretch of slots in use, each slot of the stretch keeps one from passing it. */
  ghost predicate Parked(table: seq<Entry>, k: nat, threads: seq<Thread>) {
    && |table| > 0
    && forall z: nat, i: nat :: z < |table| && i < |table| && table[z].key == Empty && InUse(table, z, i) ==>
         BoundAt(table, k, threads, z, i)
  }

  // ---- Slots and arcs -------------------------------------------------------------------------------------------

  lemma SlotBefore(a: nat, b: nat, capacity: nat, i: nat, j: nat)
    requires capacity > 0 && i > 0 && j > 0 && Slot(a, capacity, i) == Slot(b, capacity, j)
    ensures Slot(a, capacity, i - 1) == Slot(b, capacity, j - 1)
  {
    Arithmetic.RingShift(a + i, -1, capacity);
    Arithmetic.RingShift(b + j, -1, capacity);
  }

  lemma SlotAfter(z: nat, capacity: nat, m: nat, i: nat)
    requires capacity > 0
    ensures Slot(Slot(z, capacity, m), capacity, i) == Slot(z, capacity, m + i)
  {
    Arithmetic.RingShift(z + m, i, capacity);
  }

  lemma SlotZero(z: nat, capacity: nat)
    requires z < capacity
    ensures Slot(z, capacity, 0) == z && Slot(z, capacity, capacity) == z
  {
    Arithmetic.RingSmall(z, capacity);
    Arithmetic.AddMultiple(z, capacity, 1);
  }

  /** A stretch of slots and the one after it together. */
  lemma {:induction false} ArcOn(hashes: seq<nat>, capacity: nat, z: nat, m: nat, i: nat)
    requires capacity > 0
    ensures Arc(hashes, capacity, z, m + i) == Arc(hashes, capacity, z, m) + Arc(hashes, capacity, Slot(z, capacity, m), i)
  {
    if i > 0 {
      ArcOn(hashes, capacity, z, m, i - 1);
      SlotAfter(z, capacity, m, i);
    }
  }

  /** The threads whose ways begin in the stretch. */
  function ArcSet(hashes: seq<nat>, capacity: nat, z: nat, i: nat): set<nat>
    requires capacity > 0
  { if i == 0 then {} else ArcSet(hashes, capacity, z, i - 1) + Starts(hashes, capacity, Slot(z, capacity, i)) }

  lemma {:induction false} InArc(hashes: seq<nat>, capacity: nat, z: nat, i: nat, t: nat)
    requires capacity > 0 && t in ArcSet(hashes, capacity, z, i)
    ensures t < |hashes| && exists l: nat :: 1 <= l <= i && Slot(hashes[t], capacity, 0) == Slot(z, capacity, l)
  {
    if t in ArcSet(hashes, capacity, z, i - 1) { InArc(hashes, capacity, z, i - 1, t); }
  }

  lemma ArcApart(hashes: seq<nat>, capacity: nat, z: nat, i: nat, t: nat)
    requires 0 < i <= capacity && t in ArcSet(hashes, capacity, z, i - 1)
    ensures t !in Starts(hashes, capacity, Slot(z, capacity, i))
  {
    InArc(hashes, capacity, z, i - 1, t);
    hide ArcSet, Slot;
    var l: nat :| 1 <= l <= i - 1 && Slot(hashes[t], capacity, 0) == Slot(z, capacity, l);
    if Slot(z, capacity, l) == Slot(z, capacity, i) { SameSlot(z, capacity, l, i); }
  }

  lemma SameSlot(z: nat, capacity: nat, l: nat, i: nat)
    requires l <= i < l + capacity && Slot(z, capacity, l) == Slot(z, capacity, i)
    ensures l == i
  {
    Arithmetic.RingInjective(z + l, z + i, capacity);
  }

  /** Once around at most, every thread is counted once at most. */
  lemma {:induction false} ArcIsSet(hashes: seq<nat>, capacity: nat, z: nat, i: nat)
    requires capacity > 0 && i <= capacity
    ensures |ArcSet(hashes, capacity, z, i)| == Arc(hashes, capacity, z, i)
  {
    if i > 0 {
      var a, b := ArcSet(hashes, capacity, z, i - 1), Starts(hashes, capacity, Slot(z, capacity, i));
      ArcIsSet(hashes, capacity, z, i - 1);
      hide Starts, Slot;
      forall t | t in a ensures t !in b { ArcApart(hashes, capacity, z, i, t); }
      assert a !! b;
    }
  }

  lemma ArcAtMost(hashes: seq<nat>, capacity: nat, z: nat)
    requires capacity > 0
    ensures Arc(hashes, capacity, z, capacity) <= |hashes|
  {
    ArcIsSet(hashes, capacity, z, capacity);
    var a := ArcSet(hashes, capacity, z, capacity);
    forall t | t in a ensures t in Below(|hashes|) { InArc(hashes, capacity, z, capacity, t); }
    SubsetSize(a, Below(|hashes|));
  }

  // ---- Where a thread is ----------------------------------------------------------------------------------------

  lemma AtPassed(tables: Tables, k: nat, t: nat, th: Thread, j: nat)
    requires Shaped(tables) && k < |tables| && ThreadOk(tables, t, th) && At(tables[k], k, t, th, j)
    ensures Passed(tables[k], th.hash, j)
  {
    assert Placed(tables[k], t, th.hash);
  }

  /** Nobody gets past an empty slot, so every way ends within one turn. */
  lemma WithinTurn(table: seq<Entry>, hash: nat, j: nat, z: nat)
    requires z < |table| && table[z].key == Empty && Passed(table, hash, j)
    ensures j < |table|
  {
    var x := SlotOnWay(hash, |table|, z);
  }

  lemma AtOnce(tables: Tables, k: nat, t: nat, th: Thread, i: nat, j: nat)
    requires Shaped(tables) && k < |tables| && ThreadOk(tables, t, th) && At(tables[k], k, t, th, i) && At(tables[k], k, t, th, j)
    ensures i == j
  {
    var table := tables[k];
    assert Placed(table, t, th.hash);
    if AboutToTake(table, k, th, i) || AboutToTake(table, k, th, j) {
      assert Absent(table, t);
    } else if i < j {
      SlotOnce(th.hash, |table|, i, j);
    } else if j < i {
      SlotOnce(th.hash, |table|, j, i);
    }
  }

  lemma NobodyOverEmpty(s: State, k: nat, z: nat)
    requires Inv(s) && k < |s.mem.tables| && z < |s.mem.tables[k]| && s.mem.tables[k][z].key == Empty
    ensures Overs(s.mem.tables[k], k, s.threads, z) == {}
  {
    var table := s.mem.tables[k];
    forall t: nat | t < |s.threads| ensures !Over(table, k, t, s.threads[t], z) {
      var th := s.threads[t];
      assert ThreadOk(s.mem.tables, t, th);
      if l: nat, j: nat :| l < j && Slot(th.hash, |table|, l) == z && At(table, k, t, th, j) { AtPassed(s.mem.tables, k, t, th, j); }
    }
  }

  /** A thread that is at slot y, or past it, began there or has passed over the slot before it. */
  ghost predicate Reaches(table: seq<Entry>, k: nat, t: nat, th: Thread, y: nat)
    requires |table| > 0
  { exists l: nat, j: nat :: l <= j && Slot(th.hash, |table|, l) == y && At(table, k, t, th, j) }

  lemma ReachesFrom(table: seq<Entry>, k: nat, threads: seq<Thread>, t: nat, z: nat, i: nat)
    requires |table| > 0 && i > 0 && t < |threads| && Reaches(table, k, t, threads[t], Slot(z, |table|, i))
    ensures t in Overs(table, k, threads, Slot(z, |table|, i - 1)) + Starts(Hashes(threads), |table|, Slot(z, |table|, i))
  {
    var th := threads[t];
    var l: nat, j: nat :| l <= j && Slot(th.hash, |table|, l) == Slot(z, |table|, i) && At(table, k, t, th, j);
    if l > 0 {
      SlotBefore(th.hash, z, |table|, l, i);
      assert l - 1 < j && Slot(th.hash, |table|, l - 1) == Slot(z, |table|, i - 1);
    }
  }

  /** However many are at a slot or past it: one fewer than the slots of the stretch up to it, and all of them together,
      are no more than began in the stretch. */
  lemma FewReach(table: seq<Entry>, k: nat, threads: seq<Thread>, z: nat, i: nat, ts: set<nat>)
    requires |table| > 0 && i > 0
    requires |Overs(table, k, threads, Slot(z, |table|, i - 1))| + (i - 1) <= Arc(Hashes(threads), |table|, z, i - 1)
    requires forall t :: t in ts ==> t < |threads| && Reaches(table, k, t, threads[t], Slot(z, |table|, i))
    ensures |ts| + (i - 1) <= Arc(Hashes(threads), |table|, z, i)
  {
    var a, b := Overs(table, k, threads, Slot(z, |table|, i - 1)), Starts(Hashes(threads), |table|, Slot(z, |table|, i));
    forall t | t in ts ensures t in a + b { ReachesFrom(table, k, threads, t, z, i); }
    SubsetSize(ts, a + b);
    UnionSize(a, b);
  }

  // ---- One access ------------------------------------------------------------------------------------------------

  /** A thread gets on by one slot at most, and only over the slot given. */
  ghost predicate Moved(table: seq<Entry>, table': seq<Entry>, k: nat, t: nat, th: Thread, th': Thread, over: Option<nat>)
    requires 0 < |table| == |table'|
  {
    && th'.hash == th.hash
    && forall j: nat :: At(table', k, t, th', j) ==>
         At(table, k, t, th, j) || j == 0 || (At(table, k, t, th, j - 1) && over == Some(Slot(th.hash, |table|, j - 1)))
  }

  lemma OverFrom(table: seq<Entry>, table': seq<Entry>, k: nat, t: nat, th: Thread, th': Thread, over: Option<nat>, y: nat)
    requires 0 < |table| == |table'| && Moved(table, table', k, t, th, th', over) && Over(table', k, t, th', y)
    ensures Over(table, k, t, th, y) || (over == Some(y) && Reaches(table, k, t, th, y))
  {
    var l: nat, j: nat :| l < j && Slot(th'.hash, |table'|, l) == y && At(table', k, t, th', j);
    if !At(table, k, t, th, j) {
      assert At(table, k, t, th, j - 1);
      if l != j - 1 { assert l < j - 1; }
    }
  }

  /** What thread t does to a table: other threads' keys stay, and at most one slot is no longer empty. */
  ghost predicate Filled(table: seq<Entry>, table': seq<Entry>, t: nat, over: Option<nat>) {
    && 0 < |table| == |table'|
    && (forall i, u: nat :: 0 <= i < |table| && u != t ==> (table'[i].key == Id(u) <==> table[i].key == Id(u)))
    && (forall i: nat :: i < |table| && over != Some(i) ==> (table'[i].key == Empty <==> table[i].key == Empty))
    && (over.Some? ==> over.value < |table| && table[over.value].key == Empty && table'[over.value].key == Id(t))
  }

  lemma OtherMoved(table: seq<Entry>, table': seq<Entry>, t: nat, k: nat, u: nat, th: Thread, over: Option<nat>)
    requires Filled(table, table', t, over) && u != t
    ensures Moved(table, table', k, u, th, th, over)
  {
  }

  /** The slot that thread t fills in table k. */
  function Fills(table: seq<Entry>, k: nat, th: Thread): Option<nat>
    requires |table| > 0
  {
    if (th.pc.AddEmpty? || th.pc.TakeEmpty?) && th.pc.main == k && table[Slot(th.hash, |table|, th.pc.j)].key == Empty then
      Some(Slot(th.hash, |table|, th.pc.j))
    else None
  }

  /** The slot of table k that thread t gives up on, since another thread has it. */
  function Skips(table: seq<Entry>, k: nat, th: Thread): Option<nat>
    requires |table| > 0
  {
    if (th.pc.AddTomb? || th.pc.TakeTomb?) && th.pc.main == k && table[Slot(th.hash, |table|, th.pc.j)].key.Id? then
      Some(Slot(th.hash, |table|, th.pc.j))
    else None
  }

  lemma AccessFills(m: Memory, t: nat, th: Thread, pick: Pick, k: nat)
    requires Sized(m) && ThreadOk(m.tables, t, th) && k < |m.tables|
    ensures var m' := Access(m, t, th, pick).0;
            k < |m'.tables| && Filled(m.tables[k], m'.tables[k], t, Fills(m.tables[k], k, th))
  {
    hide ValuesOk, AllPlaced, Reused, Doubled, Slot;
  }

  predicate Taking(k: nat, pc: Pc) { (pc.AddEmpty? || pc.AddTomb? || pc.TakeTomb? || pc.TakeEmpty?) && pc.main == k }

  /** Elsewhere a thread keeps its slot, loses it, or begins a way. */
  lemma QuietAt(m: Memory, t: nat, th: Thread, pick: Pick, k: nat, j: nat)
    requires Sized(m) && ThreadOk(m.tables, t, th) && k < |m.tables| && !Taking(k, th.pc)
    ensures var (m', th') := Access(m, t, th, pick);
            && k < |m'.tables| && |m'.tables[k]| == |m.tables[k]| && th'.hash == th.hash
            && (At(m'.tables[k], k, t, th', j) ==> At(m.tables[k], k, t, th, j) || j == 0)
  {
    hide ValuesOk, AllPlaced, PcOk, Reused, Doubled, Slot;
  }

  lemma TakingAt(m: Memory, t: nat, th: Thread, pick: Pick, k: nat, j: nat)
    requires Sized(m) && ThreadOk(m.tables, t, th) && k < |m.tables| && HasEmpty(m.tables[k]) && Taking(k, th.pc)
    ensures var (m', th') := Access(m, t, th, pick);
            && k < |m'.tables| && |m'.tables[k]| == |m.tables[k]| && th'.hash == th.hash
            && (At(m'.tables[k], k, t, th', j) ==>
                  || At(m.tables[k], k, t, th, j)
                  || (j > 0 && At(m.tables[k], k, t, th, j - 1) && Skips(m.tables[k], k, th) == Some(Slot(th.hash, |m.tables[k]|, j - 1))))
  {
    var table := m.tables[k];
    var (m', th') := Access(m, t, th, pick);
    var z :| 0 <= z < |table| && table[z].key == Empty;
    assert Absent(table, t) && Passed(table, th.hash, th.pc.j);
    WithinTurn(table, th.hash, th.pc.j, z);
    if j < th.pc.j { SlotOnce(th.hash, |table|, j, th.pc.j); }
    if th.pc.j < j < |table| { SlotOnce(th.hash, |table|, th.pc.j, j); }
    hide ValuesOk, AllPlaced, PcOk, Reused, Slot, Passed;
  }

  lemma MoverMoved(m: Memory, t: nat, th: Thread, pick: Pick, k: nat)
    requires Sized(m) && ThreadOk(m.tables, t, th) && k < |m.tables| && HasEmpty(m.tables[k])
    ensures var (m', th') := Access(m, t, th, pick);
            k < |m'.tables| && |m'.tables[k]| == |m.tables[k]| && Moved(m.tables[k], m'.tables[k], k, t, th, th', Skips(m.tables[k], k, th))
  {
    assert InRange(m.tables, th.pc);
    hide Access, ThreadOk, At, Skips, HasEmpty, InRange;
    if Taking(k, th.pc) { TakingAt(m, t, th, pick, k, 0); } else { QuietAt(m, t, th, pick, k, 0); }
    var (m', th') := Access(m, t, th, pick);
    forall j: nat | At(m'.tables[k], k, t, th', j)
      ensures At(m.tables[k], k, t, th, j) || j == 0
              || (At(m.tables[k], k, t, th, j - 1) && Skips(m.tables[k], k, th) == Some(Slot(th.hash, |m.tables[k]|, j - 1)))
    {
      if Taking(k, th.pc) { TakingAt(m, t, th, pick, k, j); } else { QuietAt(m, t, th, pick, k, j); }
    }
  }

  // ---- What it does to the count ----------------------------------------------------------------------------------

  /** A step of thread t in table k, by which it may fill a slot, which others then pass over, or pass over one itself. */
  ghost predicate Steps(table: seq<Entry>, table': seq<Entry>, k: nat, threads: seq<Thread>, threads': seq<Thread>, t: nat, fill: Option<nat>, skip: Option<nat>) {
    && Filled(table, table', t, fill) && t < |threads| == |threads'|
    && (forall u :: 0 <= u < |threads| ==> Moved(table, table', k, u, threads[u], threads'[u], if u == t then skip else fill))
  }

  lemma StepsHashes(table: seq<Entry>, table': seq<Entry>, k: nat, threads: seq<Thread>, threads': seq<Thread>, t: nat, fill: Option<nat>, skip: Option<nat>)
    requires Steps(table, table', k, threads, threads', t, fill, skip)
    ensures |table'| == |table| && Hashes(threads') == Hashes(threads)
  {
    forall u | 0 <= u < |threads| ensures threads'[u].hash == threads[u].hash {
      assert Moved(table, table', k, u, threads[u], threads'[u], if u == t then skip else fill);
    }
  }

  lemma OversAfter(table: seq<Entry>, table': seq<Entry>, k: nat, threads: seq<Thread>, threads': seq<Thread>, t: nat, fill: Option<nat>, skip: Option<nat>, y: nat, u: nat)
    requires Steps(table, table', k, threads, threads', t, fill, skip) && u in Overs(table', k, threads', y)
    ensures u < |threads|
    ensures || u in Overs(table, k, threads, y)
            || (Reaches(table, k, u, threads[u], y) && (if u == t then skip == Some(y) else fill == Some(y)))
  {
    hide At;
    OverFrom(table, table', k, u, threads[u], threads'[u], if u == t then skip else fill, y);
  }

  /** Where nobody comes to pass over slot y. */
  lemma OversShrink(table: seq<Entry>, table': seq<Entry>, k: nat, threads: seq<Thread>, threads': seq<Thread>, t: nat, fill: Option<nat>, skip: Option<nat>, y: nat)
    requires Steps(table, table', k, threads, threads', t, fill, skip) && fill != Some(y) && skip != Some(y)
    ensures |Overs(table', k, threads', y)| <= |Overs(table, k, threads, y)|
  {
    var a, b := Overs(table', k, threads', y), Overs(table, k, threads, y);
    forall u | u in a ensures u in b { OversAfter(table, table', k, threads, threads', t, fill, skip, y, u); }
    SubsetSize(a, b);
  }

  /** Thread t passes over slot y, where another thread v stays. */
  lemma SkipBound(table: seq<Entry>, table': seq<Entry>, k: nat, threads: seq<Thread>, threads': seq<Thread>, t: nat, v: nat, z: nat, i: nat)
    requires |table| > 0 && i > 0 && Steps(table, table', k, threads, threads', t, None, Some(Slot(z, |table|, i)))
    requires BoundAt(table, k, threads, z, i - 1) && v < |threads| && v != t
    requires var y := Slot(z, |table|, i);
             && Reaches(table, k, t, threads[t], y) && !Over(table, k, t, threads[t], y)
             && Reaches(table, k, v, threads[v], y) && !Over(table, k, v, threads[v], y)
    ensures BoundAt(table', k, threads', z, i)
  {
    var y := Slot(z, |table|, i);
    var a, b := Overs(table', k, threads', y), Overs(table, k, threads, y);
    forall u | u in a ensures u in b + {t} { OversAfter(table, table', k, threads, threads', t, None, Some(y), y, u); }
    forall u | u in b + {t, v} ensures u < |threads| && Reaches(table, k, u, threads[u], y) {}
    FewReach(table, k, threads, z, i, b + {t, v});
    StepsHashes(table, table', k, threads, threads', t, None, Some(y));
    hide Overs, Reaches, Over, Steps;
    SubsetSize(a, b + {t});
    assert b + {t, v} == b + {t} + {v} && |b + {t} + {v}| == |b + {t}| + 1;
  }

  /** Thread t fills slot y, which the others that are there pass over then. */
  lemma FillBound(table: seq<Entry>, table': seq<Entry>, k: nat, threads: seq<Thread>, threads': seq<Thread>, t: nat, z: nat, i: nat)
    requires |table| > 0 && i > 0 && Steps(table, table', k, threads, threads', t, Some(Slot(z, |table|, i)), None)
    requires BoundAt(table, k, threads, z, i - 1)
    requires var y := Slot(z, |table|, i); Reaches(table, k, t, threads[t], y) && Overs(table, k, threads, y) == {}
    ensures BoundAt(table', k, threads', z, i) && i <= Arc(Hashes(threads), |table|, z, i)
  {
    var y := Slot(z, |table|, i);
    var a := Overs(table', k, threads', y);
    forall u | u in a ensures u < |threads| && u != t && Reaches(table, k, u, threads[u], y) {
      OversAfter(table, table', k, threads, threads', t, Some(y), None, y, u);
    }
    FewReach(table, k, threads, z, i, a + {t});
    StepsHashes(table, table', k, threads, threads', t, Some(y), None);
    assert |a + {t}| == |a| + 1;
  }

  /** Where the step changes nothing. */
  lemma SameBound(table: seq<Entry>, table': seq<Entry>, k: nat, threads: seq<Thread>, threads': seq<Thread>, t: nat, fill: Option<nat>, skip: Option<nat>, z: nat, i: nat)
    requires |table| > 0 && Steps(table, table', k, threads, threads', t, fill, skip) && BoundAt(table, k, threads, z, i)
    requires fill != Some(Slot(z, |table|, i)) && skip != Some(Slot(z, |table|, i))
    ensures BoundAt(table', k, threads', z, i)
  {
    OversShrink(table, table', k, threads, threads', t, fill, skip, Slot(z, |table|, i));
    StepsHashes(table, table', k, threads, threads', t, fill, skip);
  }

  lemma LaterSlot(z: nat, capacity: nat, m: nat, i: nat)
    requires m < i < m + capacity
    ensures Slot(Slot(z, capacity, m), capacity, i - m) == Slot(z, capacity, i) != Slot(z, capacity, m)
  {
    SlotAfter(z, capacity, m, i - m);
    if Slot(z, capacity, i) == Slot(z, capacity, m) { SameSlot(z, capacity, m, i); }
  }

  /** Two stretches become one. */
  lemma FarBound(table: seq<Entry>, table': seq<Entry>, k: nat, threads: seq<Thread>, threads': seq<Thread>, t: nat, z: nat, m: nat, i: nat)
    requires 0 < m < i < |table| && Steps(table, table', k, threads, threads', t, Some(Slot(z, |table|, m)), None)
    requires BoundAt(table, k, threads, Slot(z, |table|, m), i - m) && m <= Arc(Hashes(threads), |table|, z, m)
    ensures BoundAt(table', k, threads', z, i)
  {
    hide *;
    var y, w := Slot(z, |table|, m), Slot(z, |table|, i);
    LaterSlot(z, |table|, m, i);
    OversShrink(table, table', k, threads, threads', t, Some(y), None, w);
    StepsHashes(table, table', k, threads, threads', t, Some(y), None);
    ArcOn(Hashes(threads), |table|, z, m, i - m);
    Bounds(table, k, threads, y, i - m);
    Bounds(table', k, threads', z, i);
  }

  lemma Bounds(table: seq<Entry>, k: nat, threads: seq<Thread>, z: nat, i: nat)
    requires |table| > 0
    ensures BoundAt(table, k, threads, z, i) <==>
              |Overs(table, k, threads, Slot(z, |table|, i))| + i <= Arc(Hashes(threads), |table|, z, i)
  {
  }

  /** Thread t passes over a slot, or nothing happens. */
  lemma SkipParked(table: seq<Entry>, table': seq<Entry>, k: nat, threads: seq<Thread>, threads': seq<Thread>, t: nat, skip: Option<nat>, v: nat)
    requires Parked(table, k, threads) && Steps(table, table', k, threads, threads', t, None, skip)
    requires skip.Some? ==>
               && v < |threads| && v != t && skip.value < |table| && table[skip.value].key != Empty
               && Reaches(table, k, t, threads[t], skip.value) && !Over(table, k, t, threads[t], skip.value)
               && Reaches(table, k, v, threads[v], skip.value) && !Over(table, k, v, threads[v], skip.value)
    ensures Parked(table', k, threads')
  {
    hide BoundAt, Reaches, Over, Moved;
    forall z: nat, i: nat | z < |table'| && i < |table'| && table'[z].key == Empty && InUse(table', z, i)
      ensures BoundAt(table', k, threads', z, i)
    {
      InUseBefore(table, table', t, None, z, i);
      if skip == Some(Slot(z, |table|, i)) {
        SlotZero(z, |table|);
        assert i > 0;
        SkipBound(table, table', k, threads, threads', t, v, z, i);
      } else {
        SameBound(table, table', k, threads, threads', t, None, skip, z, i);
      }
    }
  }

  /** Stretches that were in use before the step: those that do not have the slot filled now. */
  lemma InUseBefore(table: seq<Entry>, table': seq<Entry>, t: nat, fill: Option<nat>, z: nat, i: nat)
    requires Filled(table, table', t, fill) && z < |table'| && table'[z].key == Empty && InUse(table', z, i)
    requires forall l: nat :: 1 <= l <= i ==> fill != Some(Slot(z, |table|, l))
    ensures table[z].key == Empty && forall h: nat :: h <= i ==> InUse(table, z, h)
  {
  }

  lemma FillParked(table: seq<Entry>, table': seq<Entry>, k: nat, threads: seq<Thread>, threads': seq<Thread>, t: nat, y: nat)
    requires Parked(table, k, threads) && Steps(table, table', k, threads, threads', t, Some(y), None)
    requires Reaches(table, k, t, threads[t], y) && Overs(table, k, threads, y) == {}
    ensures Parked(table', k, threads')
  {
    hide BoundAt, Reaches, Over, Moved, Overs;
    forall z: nat, i: nat | z < |table'| && i < |table'| && table'[z].key == Empty && InUse(table', z, i)
      ensures BoundAt(table', k, threads', z, i)
    {
      if m: nat :| 1 <= m <= i && Slot(z, |table|, m) == y {
        FillStretch(table, table', k, threads, threads', t, z, m, i);
      } else {
        InUseBefore(table, table', t, Some(y), z, i);
        SlotZero(z, |table|);
        SameBound(table, table', k, threads, threads', t, Some(y), None, z, i);
      }
    }
  }

  lemma FillStretch(table: seq<Entry>, table': seq<Entry>, k: nat, threads: seq<Thread>, threads': seq<Thread>, t: nat, z: nat, m: nat, i: nat)
    requires Parked(table, k, threads) && 1 <= m <= i < |table| && z < |table| && Steps(table, table', k, threads, threads', t, Some(Slot(z, |table|, m)), None)
    requires var y := Slot(z, |table|, m); Reaches(table, k, t, threads[t], y) && Overs(table, k, threads, y) == {}
    requires table'[z].key == Empty && InUse(table', z, i)
    ensures BoundAt(table', k, threads', z, i)
  {
    hide BoundAt, Reaches, Over, Moved, Overs;
    var y := Slot(z, |table|, m);
    forall l: nat | 1 <= l <= i && Slot(z, |table|, l) == y ensures l == m {
      if l < m { SameSlot(z, |table|, l, m); } else { SameSlot(z, |table|, m, l); }
    }
    InUseBefore(table, table', t, Some(y), z, m - 1);
    assert BoundAt(table, k, threads, z, m - 1);
    FillBound(table, table', k, threads, threads', t, z, m);
    if m < i {
      forall l: nat | 1 <= l <= i - m ensures table[Slot(y, |table|, l)].key != Empty { SlotAfter(z, |table|, m, l); }
      assert BoundAt(table, k, threads, y, i - m);
      FarBound(table, table', k, threads, threads', t, z, m, i);
    }
  }

  /** The last slot of a table is filled only if there are as many threads as slots. */
  lemma FillRoom(table: seq<Entry>, table': seq<Entry>, k: nat, threads: seq<Thread>, threads': seq<Thread>, t: nat, y: nat)
    requires Parked(table, k, threads) && Steps(table, table', k, threads, threads', t, Some(y), None)
    requires Reaches(table, k, t, threads[t], y) && Overs(table, k, threads, y) == {}
    ensures HasEmpty(table') || |threads| >= |table|
  {
    hide Reaches, Over, Moved, Overs;
    if !HasEmpty(table') {
      var c := |table|;
      SlotZero(y, c);
      forall l: nat | 1 <= l <= c - 1 ensures table[Slot(y, c, l)].key != Empty {
        if Slot(y, c, l) == Slot(y, c, 0) { SameSlot(y, c, 0, l); }
      }
      assert BoundAt(table, k, threads, y, c - 1);
      FillBound(table, table', k, threads, threads', t, y, c);
      ArcAtMost(Hashes(threads), c, y);
    }
  }

  // ---- Runs -----------------------------------------------------------------------------------------------------

  ghost predicate KeysKnown(table: seq<Entry>, n: nat) { forall i :: 0 <= i < |table| && table[i].key.Id? ==> table[i].key.thread < n }

  ghost predicate Roomy(s: State, k: nat)
    requires k < |s.mem.tables|
  {
    && Parked(s.mem.tables[k], k, s.threads) && KeysKnown(s.mem.tables[k], |s.threads|)
    && (|s.threads| < |s.mem.tables[k]| ==> HasEmpty(s.mem.tables[k]))
  }

  lemma NotOver(tables: Tables, k: nat, t: nat, th: Thread, j: nat)
    requires Shaped(tables) && k < |tables| && ThreadOk(tables, t, th) && At(tables[k], k, t, th, j) && HasEmpty(tables[k])
    ensures !Over(tables[k], k, t, th, Slot(th.hash, |tables[k]|, j))
  {
    var table := tables[k];
    AtPassed(tables, k, t, th, j);
    var z :| 0 <= z < |table| && table[z].key == Empty;
    WithinTurn(table, th.hash, j, z);
    hide At, ThreadOk;
    if l: nat, i: nat :| l < i && Slot(th.hash, |table|, l) == Slot(th.hash, |table|, j) && At(table, k, t, th, i) {
      AtOnce(tables, k, t, th, i, j);
      SlotOnce(th.hash, |table|, l, j);
    }
  }

  lemma StepsHere(s: State, pick: Pick, k: nat)
    requires Inv(s) && Enabled(s, pick) && k < |s.mem.tables| && HasEmpty(s.mem.tables[k])
    ensures var s', th := Step(s, pick), s.threads[pick.thread];
            && k < |s'.mem.tables|
            && Steps(s.mem.tables[k], s'.mem.tables[k], k, s.threads, s'.threads, pick.thread, Fills(s.mem.tables[k], k, th), Skips(s.mem.tables[k], k, th))
  {
    var t := pick.thread;
    var th, s' := s.threads[t], Step(s, pick);
    assert ThreadOk(s.mem.tables, t, th);
    AccessFills(s.mem, t, th, pick, k);
    MoverMoved(s.mem, t, th, pick, k);
    hide Access, Filled, Moved, ThreadOk;
    forall u | 0 <= u < |s.threads| && u != t
      ensures Moved(s.mem.tables[k], s'.mem.tables[k], k, u, s.threads[u], s'.threads[u], Fills(s.mem.tables[k], k, th))
    {
      OtherMoved(s.mem.tables[k], s'.mem.tables[k], t, k, u, s.threads[u], Fills(s.mem.tables[k], k, th));
    }
  }

  lemma KnownKept(table: seq<Entry>, table': seq<Entry>, t: nat, fill: Option<nat>, n: nat)
    requires Filled(table, table', t, fill) && KeysKnown(table, n) && t < n
    ensures KeysKnown(table', n)
  {
    forall i | 0 <= i < |table'| && table'[i].key.Id? ensures table'[i].key.thread < n {
      var u := table'[i].key.thread;
      assert u != t ==> table[i].key == Id(u);
    }
  }

  /** A thread fills a slot. */
  lemma FillKeeps(s: State, pick: Pick, k: nat)
    requires Inv(s) && Enabled(s, pick) && k < |s.mem.tables| && Roomy(s, k) && HasEmpty(s.mem.tables[k])
    requires Fills(s.mem.tables[k], k, s.threads[pick.thread]).Some?
    ensures var s' := Step(s, pick); k < |s'.mem.tables| && Roomy(s', k)
  {
    var t, table := pick.thread, s.mem.tables[k];
    var th, s' := s.threads[t], Step(s, pick);
    var y := Fills(table, k, th).value;
    StepsHere(s, pick, k);
    NobodyOverEmpty(s, k, y);
    assert At(table, k, t, th, th.pc.j) && Slot(th.hash, |table|, th.pc.j) == y;
    hide Inv, Access, At, Overs, Moved, Enabled;
    FillParked(table, s'.mem.tables[k], k, s.threads, s'.threads, t, y);
    FillRoom(table, s'.mem.tables[k], k, s.threads, s'.threads, t, y);
    KnownKept(table, s'.mem.tables[k], t, Some(y), |s.threads|);
  }

  /** The thread that has a slot is at it. */
  lemma HolderAt(table: seq<Entry>, k: nat, v: nat, th: Thread, y: nat) returns (j: nat)
    requires y < |table| && table[y].key == Id(v)
    ensures Slot(th.hash, |table|, j) == y && At(table, k, v, th, j)
  {
    j := SlotOnWay(th.hash, |table|, y);
  }

  /** A thread fills no slot of the table. */
  lemma SkipKeeps(s: State, pick: Pick, k: nat)
    requires Inv(s) && Enabled(s, pick) && k < |s.mem.tables| && Roomy(s, k) && HasEmpty(s.mem.tables[k])
    requires Fills(s.mem.tables[k], k, s.threads[pick.thread]) == None
    ensures var s' := Step(s, pick); k < |s'.mem.tables| && Roomy(s', k)
  {
    var t, table := pick.thread, s.mem.tables[k];
    var th, s' := s.threads[t], Step(s, pick);
    var skip := Skips(table, k, th);
    StepsHere(s, pick, k);
    var v := t;
    if skip.Some? {
      v := table[skip.value].key.thread;
      assert v < |s.threads| && ThreadOk(s.mem.tables, t, th) && ThreadOk(s.mem.tables, v, s.threads[v]);
      var j := HolderAt(table, k, v, s.threads[v], skip.value);
      NotOver(s.mem.tables, k, v, s.threads[v], j);
      NotOver(s.mem.tables, k, t, th, th.pc.j);
      assert Absent(table, t);
    }
    hide Inv, Access, At, Overs, Over, Moved, Enabled, ThreadOk;
    SkipParked(table, s'.mem.tables[k], k, s.threads, s'.threads, t, skip, v);
    KnownKept(table, s'.mem.tables[k], t, None, |s.threads|);
    var z :| 0 <= z < |table| && table[z].key == Empty;
    assert s'.mem.tables[k][z].key == Empty;
  }

  /** A full table stays as it is. */
  lemma FullKeeps(s: State, pick: Pick, k: nat)
    requires Inv(s) && Enabled(s, pick) && k < |s.mem.tables| && Roomy(s, k) && !HasEmpty(s.mem.tables[k])
    ensures var s' := Step(s, pick); k < |s'.mem.tables| && Roomy(s', k)
  {
    var t, table := pick.thread, s.mem.tables[k];
    var th, s' := s.threads[t], Step(s, pick);
    assert ThreadOk(s.mem.tables, t, th);
    AccessFills(s.mem, t, th, pick, k);
    hide Inv, Access, Enabled, ThreadOk, BoundAt;
    KnownKept(table, s'.mem.tables[k], t, Fills(table, k, th), |s.threads|);
    forall z: nat | z < |table| ensures s'.mem.tables[k][z].key != Empty {}
  }

  lemma NewRoom(s: State, k: nat)
    requires Inv(s) && k < |s.mem.tables| && forall i :: 0 <= i < |s.mem.tables[k]| ==> s.mem.tables[k][i].key == Empty
    ensures Roomy(s, k)
  {
    var table := s.mem.tables[k];
    assert table[0].key == Empty;
    forall z: nat, i: nat | z < |table| && i > 0 ensures !InUse(table, z, i) { assert table[Slot(z, |table|, 1)].key == Empty; }
    forall z: nat, i: nat | z < |table| && i < |table| && table[z].key == Empty && InUse(table, z, i)
      ensures BoundAt(table, k, s.threads, z, i)
    {
      SlotZero(z, |table|);
      NobodyOverEmpty(s, k, z);
    }
  }

  ghost predicate AllRoomy(s: State) { forall k :: 0 <= k < |s.mem.tables| ==> Roomy(s, k) }

  lemma StepRoom(s: State, pick: Pick)
    requires Inv(s) && Legal(s, pick) && AllRoomy(s)
    ensures Enabled(s, pick) && AllRoomy(Step(s, pick))
  {
    StepKeeps(s, pick);
    var s' := Step(s, pick);
    AccessEvolves(s.mem, pick.thread, s.threads[pick.thread], pick);
    hide Inv, Step, Roomy;
    forall k | 0 <= k < |s'.mem.tables| ensures Roomy(s', k) {
      if k >= |s.mem.tables| {
        NewRoom(s', k);
      } else if !HasEmpty(s.mem.tables[k]) {
        FullKeeps(s, pick, k);
      } else if Fills(s.mem.tables[k], k, s.threads[pick.thread]).Some? {
        FillKeeps(s, pick, k);
      } else {
        SkipKeeps(s, pick, k);
      }
    }
  }

  lemma {:induction false} RunRoomy(states: seq<State>, picks: seq<Pick>, i: nat)
    requires Run(states, picks) && i < |states|
    ensures AllRoomy(states[i])
  {
    RunInv(states, picks, i);
    hide Inv, Step, Roomy, Enabled;
    if i == 0 {
      var capacity: nat, hashes: seq<nat> :| capacity > 0 && states[0] == Init(capacity, hashes);
      NewRoom(states[0], 0);
    } else {
      RunRoomy(states, picks, i - 1);
      RunInv(states, picks, i - 1);
      assert Follows(states[i - 1], picks[i - 1], states[i]);
      StepRoom(states[i - 1], picks[i - 1]);
    }
  }

  /** In every run, a table with more slots than there are threads keeps an empty one. */
  lemma MoreSlotsThanThreads(states: seq<State>, picks: seq<Pick>, i: nat, k: nat)
    requires Run(states, picks) && i < |states| && k < |states[i].mem.tables| && |states[i].threads| < |states[i].mem.tables[k]|
    ensures HasEmpty(states[i].mem.tables[k])
  {
    RunRoomy(states, picks, i);
    assert Roomy(states[i], k);
  }

  lemma {:induction false} LaterTables(tables: Tables, k: nat)
    requires 0 < k < |tables| && forall l :: 0 < l < |tables| ==> |tables[l]| >= 2 * |tables[l - 1]|
    ensures |tables[k]| >= 2 * |tables[0]|
  {
    if k > 1 { LaterTables(tables, k - 1); }
  }

  /** With fewer threads than twice the slots of the first table every table keeps an empty slot, in every run: the first
      since nothing is ever taken over to its cost, the others since they have more slots than there are threads. */
  lemma FewThreadsKeepRoom(states: seq<State>, picks: seq<Pick>, i: nat, k: nat)
    requires Run(states, picks) && i < |states| && k < |states[i].mem.tables|
    requires |states[0].mem.tables| > 0 && |states[0].threads| < 2 * |states[0].mem.tables[0]|
    ensures HasEmpty(states[i].mem.tables[k])
  {
    RunDoubling(states, picks, i);
    if k == 0 {
      TableKeepsRoom(states, picks, i, 0);
    } else {
      LaterTables(states[i].mem.tables, k);
      MoreSlotsThanThreads(states, picks, i, k);
    }
  }

  // ---- Slots in use ------------------------------------------------------------------------------------------------

  /** Those of the i slots after z that are in use. */
  ghost function UsedAfter(table: seq<Entry>, z: nat, i: nat): set<nat>
    requires |table| > 0
  {
    if i == 0 then {}
    else if table[Slot(z, |table|, i)].key != Empty then UsedAfter(table, z, i - 1) + {Slot(z, |table|, i)}
    else UsedAfter(table, z, i - 1)
  }

  lemma {:induction false} UsedThere(table: seq<Entry>, z: nat, i: nat, l: nat)
    requires |table| > 0 && 1 <= l <= i && table[Slot(z, |table|, l)].key != Empty
    ensures Slot(z, |table|, l) in UsedAfter(table, z, i)
  {
    if l < i { UsedThere(table, z, i - 1, l); }
  }

  /** The last empty slot up to the i-th after z. */
  lemma {:induction false} LastEmpty(table: seq<Entry>, z: nat, i: nat) returns (m: nat)
    requires z < |table| && table[z].key == Empty
    ensures m <= i && table[Slot(z, |table|, m)].key == Empty
    ensures forall l: nat :: m < l <= i ==> table[Slot(z, |table|, l)].key != Empty
  {
    SlotZero(z, |table|);
    m := i;
    if table[Slot(z, |table|, i)].key != Empty { m := LastEmpty(table, z, i - 1); }
  }

  lemma {:induction false} UsedStretch(table: seq<Entry>, z: nat, m: nat, i: nat)
    requires |table| > 0 && m <= i
    ensures |UsedAfter(table, z, i)| <= |UsedAfter(table, z, m)| + (i - m)
    decreases i
  {
    if m < i {
      UsedStretch(table, z, m, i - 1);
      AddedAtMost(UsedAfter(table, z, i - 1), Slot(z, |table|, i));
    }
  }

  /** In each stretch no more slots are in use than ways begin there. */
  lemma {:induction false} UsedBound(table: seq<Entry>, k: nat, threads: seq<Thread>, z: nat, i: nat)
    requires Parked(table, k, threads) && z < |table| && i < |table| && table[z].key == Empty
    ensures |UsedAfter(table, z, i)| <= Arc(Hashes(threads), |table|, z, i)
    decreases i
  {
    hide *;
    var m := LastEmpty(table, z, i);
    if m > 0 { UsedBound(table, k, threads, z, m - 1); }
    UsedAtEmpty(table, Hashes(threads), z, m);
    UsedStretch(table, z, m, i);
    ArcOn(Hashes(threads), |table|, z, m, i - m);
    StretchBound(table, k, threads, z, m, i);
  }

  lemma UsedAtEmpty(table: seq<Entry>, hashes: seq<nat>, z: nat, m: nat)
    requires |table| > 0 && table[Slot(z, |table|, m)].key == Empty
    requires m > 0 ==> |UsedAfter(table, z, m - 1)| <= Arc(hashes, |table|, z, m - 1)
    ensures |UsedAfter(table, z, m)| <= Arc(hashes, |table|, z, m)
  {
  }

  lemma StretchBound(table: seq<Entry>, k: nat, threads: seq<Thread>, z: nat, m: nat, i: nat)
    requires Parked(table, k, threads) && m <= i < |table| && table[Slot(z, |table|, m)].key == Empty
    requires forall l: nat :: m < l <= i ==> table[Slot(z, |table|, l)].key != Empty
    ensures i - m <= Arc(Hashes(threads), |table|, Slot(z, |table|, m), i - m)
  {
    var y := Slot(z, |table|, m);
    forall l: nat | 1 <= l <= i - m ensures table[Slot(y, |table|, l)].key != Empty { SlotAfter(z, |table|, m, l); }
    assert BoundAt(table, k, threads, y, i - m);
  }

  lemma UsedIsAfter(table: seq<Entry>, z: nat, x: nat)
    requires z < |table| && table[z].key == Empty && x in Used(table)
    ensures x in UsedAfter(table, z, |table| - 1)
  {
    SlotZero(z, |table|);
    var l := SlotOnWay(z, |table|, x);
    UsedThere(table, z, |table| - 1, l);
  }

  /** A table with an empty slot has no more slots in use than there are threads. */
  lemma UsedAtMost(table: seq<Entry>, k: nat, threads: seq<Thread>)
    requires Parked(table, k, threads) && HasEmpty(table)
    ensures |Used(table)| <= |threads|
  {
    var c := |table|;
    var z :| 0 <= z < c && table[z].key == Empty;
    UsedBound(table, k, threads, z, c - 1);
    ArcAtMost(Hashes(threads), c, z);
    hide Parked, Used, UsedAfter, Slot;
    forall x | x in Used(table) ensures x in UsedAfter(table, z, c - 1) { UsedIsAfter(table, z, x); }
    SubsetSize(Used(table), UsedAfter(table, z, c - 1));
    assert Arc(Hashes(threads), c, z, c - 1) <= Arc(Hashes(threads), c, z, c);
  }
}
