/** When a run of module ProducerHash makes a second table, and what that means for the first table as the three-argument
    constructor of external/cameron314/concurrentqueue.h sizes it for the number of producers declared. */
module ProducerHashPrealloc {
  import opened Options
  import opened ProducerHash
  import opened ProducerHashRoom
  import ProducerHashParking
  import opened ProducerHashSteps

  // ---- When a second table is made ----------------------------------------------------------------------------

  /** The threads with a producer whose count is no longer open. */
  function Settled(threads: seq<Thread>): set<nat> { set t: nat | t < |threads| && threads[t].owns.Some? && !Pending(threads[t].pc) }

  /** Without exits every slot taken for good has a thread to it; so numbers stay within the number of threads, and no
      thread with the lock enlarges a table of more than twice as many slots. */
  ghost predicate FewOk(s: State) {
    && |s.mem.units| <= |Settled(s.threads)|
    && (forall t :: 0 <= t < |s.threads| && Pending(s.threads[t].pc) ==> s.threads[t].pc.n <= |s.threads|)
    && (forall t :: 0 <= t < |s.threads| ==> !s.threads[t].pc.Grow? && !s.threads[t].pc.ExitLoad? && !Exiting(s.threads[t].pc))
    && |s.mem.tables| == 1 && |s.threads| < |s.mem.tables[0]| / 2
  }

  lemma ThreeParts(a: set<nat>, b: set<nat>, t: nat, n: nat)
    requires a !! b && t !in a + b && t < n && forall x :: x in a + b ==> x < n
    ensures |a| + |b| + 1 <= n
  {
    SubsetSize(a + b + {t}, Below(n));
    Added(a + b, t);
  }

  lemma OneOutside(threads: seq<Thread>, t: nat)
    requires t < |threads| && threads[t].owns == None && !Pending(threads[t].pc)
    ensures |Settled(threads)| + |AllPending(threads)| + 1 <= |threads|
  {
    ThreeParts(Settled(threads), AllPending(threads), t, |threads|);
  }

  /** The next number. */
  lemma NumberFits(s: State, t: nat)
    requires CountOk(s) && FewOk(s) && t < |s.threads| && s.threads[t].pc.Count? && s.threads[t].owns == None
    ensures s.mem.count + 1 <= |s.threads|
  {
    hide Settled, AllPending;
    OneOutside(s.threads, t);
  }

  lemma SettledAfter(threads: seq<Thread>, t: nat, th: Thread)
    requires t < |threads|
    ensures |Settled(threads[t := th])| == |Settled(threads)|
      + (if th.owns.Some? && !Pending(th.pc) then 1 else 0) - (if threads[t].owns.Some? && !Pending(threads[t].pc) then 1 else 0)
  {
    SizeWithout(Settled(threads[t := th]), Settled(threads), t);
  }

  lemma FewAccess(m: Memory, t: nat, th: Thread, pick: Pick)
    requires Sized(m) && InRange(m.tables, th.pc) && PcOk(m.tables, t, th) && !pick.exit && |m.tables| == 1
    requires !th.pc.Grow? && !th.pc.ExitLoad? && !Exiting(th.pc) && (th.pc.Reload? ==> th.pc.n < |m.tables[0]| / 2)
    ensures var (m', th') := Access(m, t, th, pick);
            && |m'.tables| == 1 && |m'.tables[0]| == |m.tables[0]|
            && !th'.pc.Grow? && !th'.pc.ExitLoad? && !Exiting(th'.pc)
            && (th.owns.Some? && !Pending(th.pc) ==> th'.owns.Some? && !Pending(th'.pc))
            && (Pending(th'.pc) ==> if Pending(th.pc) then th'.pc.n == th.pc.n else th.pc.Count? && th.owns == None && th'.pc.n == m.count + 1)
            && (m'.units == m.units || (|m'.units| == |m.units| + 1 && Pending(th.pc) && th'.owns.Some? && !Pending(th'.pc)))
  {
    hide AbsentFrom, Present, Passed, PassedOver, Slot, Doubled;
  }

  lemma FewKept(s: State, pick: Pick)
    requires RoomInv(s) && FewOk(s) && Enabled(s, pick) && !pick.exit
    ensures FewOk(Step(s, pick))
  {
    var s', t := Step(s, pick), pick.thread;
    var th := s.threads[t];
    assert ThreadOk(s.mem.tables, t, th);
    FewAccess(s.mem, t, th, pick);
    if th.pc.Count? && th.owns == None { NumberFits(s, t); }
    SettledAfter(s.threads, t, s'.threads[t]);
    hide RoomInv, Access, ThreadOk, Settled;
    forall u | 0 <= u < |s'.threads| && Pending(s'.threads[u].pc) ensures s'.threads[u].pc.n <= |s'.threads| {
      assert u != t ==> s'.threads[u] == s.threads[u];
    }
  }

  lemma {:induction false} OneTableStays(c: nat, hashes: seq<nat>, states: seq<State>, picks: seq<Pick>, i: nat)
    requires |hashes| < c / 2 && Run(states, picks) && NobodyExits(picks)
    requires states[0] == Init(c, hashes) && i < |states|
    ensures FewOk(states[i])
  {
    hide FewOk, RoomInv, Step, Enabled, Inv;
    if i == 0 {
      FewAtFirst(c, hashes);
    } else {
      OneTableStays(c, hashes, states, picks, i - 1);
      RunRoom(states, picks, i - 1);
      RunInv(states, picks, i - 1);
      FewKept(states[i - 1], picks[i - 1]);
    }
  }

  lemma FewAtFirst(capacity: nat, hashes: seq<nat>)
    requires capacity > 0 && |hashes| < capacity / 2
    ensures FewOk(Init(capacity, hashes))
  {
  }

  // ---- A run that makes one -------------------------------------------------------------------------------------

  /** An empty first table; the first i threads have taken numbers. */
  ghost predicate Numbered(s: State, capacity: nat, hashes: seq<nat>, i: nat) {
    && |s.threads| == |hashes| && Sized(s.mem) && |s.mem.tables| == 1 && |s.mem.tables[0]| == capacity
    && (forall x :: 0 <= x < capacity ==> s.mem.tables[0][x].key == Empty)
    && s.mem.count == i && !s.mem.locked
    && (forall t :: 0 <= t < |hashes| ==> s.threads[t] == Thread(hashes[t], if t < i then Check(0, t + 1) else Idle(NoCall), None))
  }

  /** One more thread takes a number. */
  lemma OneTakes(t: nat, m: Memory, hash: nat) returns (m': Memory, th': Thread)
    requires Sized(m) && |m.tables| == 1 && forall x :: 0 <= x < |m.tables[0]| ==> m.tables[0][x].key == Empty
    ensures Goes(false, t, m, Thread(hash, Idle(NoCall), None), m', th')
    ensures m' == m.(count := m.count + 1) && th' == Thread(hash, Check(0, m.count + 1), None)
  {
    hide Goes;
    var th := Thread(hash, Idle(NoCall), None);
    Stays(false, t, m, th);
    m', th' := Next(false, t, m, th, m, th, false);
    m', th' := Next(false, t, m, th, m', th', false);
    assert (m', th') == (m, th.(pc := Probe(0, 0, 0)));
    m', th' := Next(false, t, m, th, m', th', false);
    assert (m', th') == (m, th.(pc := Count(0)));
    m', th' := Next(false, t, m, th, m', th', false);
  }

  lemma {:induction false} AllTake(capacity: nat, hashes: seq<nat>, i: nat) returns (s: State)
    requires capacity > 0 && i <= |hashes|
    ensures Reached(Init(capacity, hashes), false, s) && Numbered(s, capacity, hashes, i)
  {
    if i == 0 {
      s := Init(capacity, hashes);
      assert EndsIn(s, false, [s], [], s);
    } else {
      s := AllTake(capacity, hashes, i - 1);
      hide Reached, Goes;
      var t := i - 1;
      var m, th := OneTakes(t, s.mem, hashes[t]);
      GoesReached(Init(capacity, hashes), false, s, t, m, th);
      s := State(m, s.threads[t := th]);
    }
  }

  /** The thread with the last number makes the second table. */
  lemma LastEnlarges(exits: bool, t: nat, m: Memory, hash: nat, n: int) returns (m': Memory, th': Thread)
    requires Sized(m) && |m.tables| == 1 && !m.locked && n >= |m.tables[0]| / 2
    ensures Goes(exits, t, m, Thread(hash, Check(0, n), None), m', th') && |m'.tables| == 2
  {
    hide Goes;
    var th := Thread(hash, Check(0, n), None);
    Stays(exits, t, m, th);
    m', th' := Next(exits, t, m, th, m, th, false);
    assert (m', th') == (m, th.(pc := Lock(0, n)));
    m', th' := Next(exits, t, m, th, m', th', false);
    assert (m', th') == (m.(locked := true), th.(pc := Reload(n)));
    m', th' := Next(exits, t, m, th, m', th', false);
    assert (m', th') == (m.(locked := true), th.(pc := Grow(0, n)));
    m', th' := Next(exits, t, m, th, m', th', false);
  }

  lemma SecondTableMade(c: nat, hashes: seq<nat>) returns (states: seq<State>, picks: seq<Pick>)
    requires c > 0 && |hashes| > 0 && |hashes| >= c / 2
    ensures Run(states, picks) && NobodyExits(picks) && states[0] == Init(c, hashes) && |states[|picks|].mem.tables| == 2
  {
    var first := Init(c, hashes);
    var s := AllTake(c, hashes, |hashes|);
    var t := |hashes| - 1;
    var m, th := LastEnlarges(false, t, s.mem, hashes[t], |hashes|);
    GoesReached(first, false, s, t, m, th);
    var s' := State(m, s.threads[t := th]);
    states, picks :| EndsIn(first, false, states, picks, s');
  }

  /** In this run of threads with those hashes, which begins with a table of c slots, a second table is made. */
  ghost predicate MakesSecond(c: nat, hashes: seq<nat>, states: seq<State>, picks: seq<Pick>, i: nat) {
    && c > 0 && Run(states, picks) && states[0] == Init(c, hashes)
    && i < |states| && |states[i].mem.tables| > 1
  }

  /** And nobody exits. */
  ghost predicate MakesSecondCalmly(c: nat, hashes: seq<nat>, states: seq<State>, picks: seq<Pick>, i: nat) {
    NobodyExits(picks) && MakesSecond(c, hashes, states, picks, i)
  }

  lemma NoThreadsNoSteps(capacity: nat, states: seq<State>, picks: seq<Pick>)
    requires capacity > 0 && Run(states, picks) && states[0] == Init(capacity, [])
    ensures picks == []
  {
    assert |picks| > 0 ==> Follows(states[0], picks[0], states[1]);
  }

  /** While nobody exits, some run makes a second table exactly if there are as many threads as half the slots of the
      first one. */
  lemma CalmSecondExactly(c: nat, hashes: seq<nat>)
    requires c > 0
    ensures (exists states, picks, i :: MakesSecondCalmly(c, hashes, states, picks, i)) <==> |hashes| > 0 && |hashes| >= c / 2
  {
    if |hashes| > 0 && |hashes| >= c / 2 {
      var states, picks := SecondTableMade(c, hashes);
      assert MakesSecondCalmly(c, hashes, states, picks, |picks|);
    } else {
      forall states, picks, i ensures !MakesSecondCalmly(c, hashes, states, picks, i) {
        if MakesSecondCalmly(c, hashes, states, picks, i) {
          if |hashes| == 0 { NoThreadsNoSteps(c, states, picks); } else { OneTableStays(c, hashes, states, picks, i); }
        }
      }
    }
  }

  // ---- And with exits -------------------------------------------------------------------------------------------

  /** One table; each thread is as the number of those registered, gone and back again says; the count. */
  ghost predicate Stage(s: State, capacity: nat, hashes: seq<nat>, count: nat, threads: seq<Thread>) {
    && s.threads == threads && |threads| == |hashes| && OwnNumbers(threads) && Sized(s.mem) && |s.mem.tables| == 1
    && |s.mem.tables[0]| == capacity && s.mem.count == count && !s.mem.locked
  }

  function Fresh(hash: nat): Thread { Thread(hash, Idle(NoCall), None) }

  function Registered(hash: nat, t: nat): Thread { Thread(hash, Idle(Got(t)), Some(t)) }

  /** A thread that is in no table calls and gets its number. */
  lemma CallsAndCounts(exits: bool, t: nat, m: Memory, hash: nat) returns (j: nat, m': Memory, th': Thread)
    requires Sized(m) && |m.tables| == 1 && Absent(m.tables[0], t) && HasEmpty(m.tables[0])
    ensures Goes(exits, t, m, Fresh(hash), m', th') && m' == m.(count := m.count + 1) && th' == Thread(hash, Check(0, m.count + 1), None)
    ensures m.tables[0][Slot(hash, |m.tables[0]|, j)].key == Empty && Passed(m.tables[0], hash, j)
  {
    j := FirstEmpty(m.tables[0], hash);
    hide Goes;
    var th := Fresh(hash);
    Stays(exits, t, m, th);
    m', th' := Next(exits, t, m, th, m, th, false);
    m', th' := Next(exits, t, m, th, m', th', false);
    assert (m', th') == (m, th.(pc := Probe(0, 0, 0)));
    ProbeOver(exits, t, m, th', 0, 0, j);
    GoesOn(exits, t, m, th, m, th', m, th.(pc := Probe(0, 0, j)));
    m', th' := Next(exits, t, m, th, m, th.(pc := Probe(0, 0, j)), false);
    assert (m', th') == (m, th.(pc := Count(0)));
    m', th' := Next(exits, t, m, th, m', th', false);
  }

  /** It registers in the first empty slot on its way. */
  lemma Registers(t: nat, m: Memory, hash: nat) returns (m': Memory, th': Thread)
    requires Sized(m) && |m.tables| == 1 && Absent(m.tables[0], t) && HasEmpty(m.tables[0]) && NoTombs(m.tables)
    requires m.count + 1 < |m.tables[0]| / 2
    ensures Goes(false, t, m, Fresh(hash), m', th') && th' == Registered(hash, t)
    ensures Sized(m') && |m'.tables| == 1 && |m'.tables[0]| == |m.tables[0]| && m'.count == m.count + 1 && m'.locked == m.locked
  {
    var j;
    j, m', th' := CallsAndCounts(false, t, m, hash);
    assert Occupied(m.tables[0], hash, j);
    hide Goes, Occupied, Passed, NoTombs, Absent, HasEmpty;
    var th, n := Fresh(hash), m.count + 1;
    m', th' := Next(false, t, m, th, m', th', false);
    assert (m', th') == (m.(count := n), th.(pc := Room(0, n)));
    m', th' := Next(false, t, m, th, m', th', false);
    assert (m', th') == (m.(count := n), th.(pc := Acquire(0, n)));
    m', th' := Next(false, t, m, th, m', th', false);
    var u := Thread(hash, TakeTomb(0, n, j, t), Some(t));
    assert m' == m.(count := n) && th' == u.(pc := TakeTomb(0, n, 0, t));
    TakeOver(false, t, m', th', 0, n, t, j);
    GoesOn(false, t, m, th, m', th', m', u);
    m', th' := TakesFirstEmpty(t, m, th, m', u, n, j);
  }

  lemma TakesFirstEmpty(t: nat, m0: Memory, th0: Thread, m: Memory, th: Thread, n: int, j: nat) returns (m': Memory, th': Thread)
    requires Goes(false, t, m0, th0, m, th) && Sized(m) && |m.tables| == 1 && th.pc == TakeTomb(0, n, j, t) && th.owns == Some(t)
    requires m.tables[0][Slot(th.hash, |m.tables[0]|, j)].key == Empty
    ensures Goes(false, t, m0, th0, m', th') && th' == Registered(th.hash, t)
    ensures Sized(m') && |m'.tables| == 1 && |m'.tables[0]| == |m.tables[0]| && m'.count == m.count && m'.locked == m.locked
  {
    hide Goes;
    m', th' := Next(false, t, m0, th0, m, th, false);
    assert (m', th') == (m, th.(pc := TakeEmpty(0, n, j, t)));
    m', th' := Next(false, t, m0, th0, m', th', false);
    assert th'.pc.StoreValue? && th'.pc.value == t;
    m', th' := Next(false, t, m0, th0, m', th', false);
  }

  /** It exits: it finds its key before any empty slot. */
  lemma Leaves(t: nat, m: Memory, th: Thread) returns (m': Memory, th': Thread)
    requires Sized(m) && |m.tables| == 1 && ThreadOk(m.tables, t, th) && th.pc.Idle? && th.owns.Some?
    ensures Goes(true, t, m, th, m', th') && th' == Fresh(th.hash)
    ensures Sized(m') && |m'.tables| == 1 && |m'.tables[0]| == |m.tables[0]| && m'.count == m.count && m'.locked == m.locked
  {
    var j := OwnSlot(m.tables, t, th);
    hide Goes, ThreadOk, PassedOver;
    Stays(true, t, m, th);
    m', th' := Next(true, t, m, th, m, th, true);
    m', th' := Next(true, t, m, th, m', th', false);
    assert (m', th') == (m, th.(pc := Clear(0, 0)));
    ClearOver(true, t, m, th', 0, j);
    var u := th.(pc := Clear(0, j));
    GoesOn(true, t, m, th, m, th', m, u);
    m', th' := Next(true, t, m, th, m, u, false);
    assert th' == th.(pc := Release);
    m', th' := Next(true, t, m, th, m', th', false);
  }

  lemma OwnSlot(tables: Tables, t: nat, th: Thread) returns (j: nat)
    requires Shaped(tables) && |tables| == 1 && ThreadOk(tables, t, th) && th.pc.Idle? && th.owns.Some?
    ensures tables[0][Slot(th.hash, |tables[0]|, j)].key == Id(t) && PassedOver(tables[0], th.hash, j, t)
  {
    var table := tables[0];
    assert !Absent(table, t) && Placed(table, t, th.hash);
    var i :| 0 <= i < |table| && table[i].key == Id(t);
    j := SlotOnWay(th.hash, |table|, i);
    forall x: nat | x < j ensures table[Slot(th.hash, |table|, x)].key !in {Empty, Id(t)} {
      SlotOnce(th.hash, |table|, x, j);
      var y := Slot(th.hash, |table|, x);
      assert if y < i then table[y].key != Id(t) else table[y].key != Id(t);
    }
  }

  /** What holds in every state that a run reaches. */
  lemma ReachedOk(c: nat, hashes: seq<nat>, exits: bool, s: State)
    requires c > 0 && |hashes| < 2 * c && Reached(Init(c, hashes), exits, s)
    ensures Inv(s) && (forall k :: 0 <= k < |s.mem.tables| ==> HasEmpty(s.mem.tables[k])) && (!exits ==> NoTombs(s.mem.tables))
  {
    var states, picks :| EndsIn(Init(c, hashes), exits, states, picks, s);
    RunInv(states, picks, |picks|);
    if !exits { RunCalm(states, picks, |picks|); }
    forall k | 0 <= k < |s.mem.tables| ensures HasEmpty(s.mem.tables[k]) {
      ProducerHashParking.FewThreadsKeepRoom(states, picks, |picks|, k);
    }
  }

  lemma NotThere(s: State, t: nat)
    requires Inv(s) && t < |s.threads| && s.threads[t].pc.Idle? && s.threads[t].owns == None && |s.mem.tables| == 1
    ensures Absent(s.mem.tables[0], t)
  {
    assert ThreadOk(s.mem.tables, t, s.threads[t]);
  }

  /** The first i threads have registered. */
  function Registering(hashes: seq<nat>, i: nat): seq<Thread> {
    seq(|hashes|, t requires 0 <= t < |hashes| => if t < i then Registered(hashes[t], t) else Fresh(hashes[t]))
  }

  /** The first i have left again. */
  function Leaving(hashes: seq<nat>, i: nat): seq<Thread> {
    seq(|hashes|, t requires 0 <= t < |hashes| => if t < i then Fresh(hashes[t]) else Registered(hashes[t], t))
  }

  /** The first i have taken numbers after n. */
  function Returning(hashes: seq<nat>, i: nat, n: nat): seq<Thread> {
    seq(|hashes|, t requires 0 <= t < |hashes| => if t < i then Thread(hashes[t], Check(0, n + t + 1), None) else Fresh(hashes[t]))
  }

  lemma {:induction false} AllRegister(c: nat, hashes: seq<nat>, i: nat) returns (s: State)
    requires i <= |hashes| < c / 2
    ensures Reached(Init(c, hashes), false, s) && Stage(s, c, hashes, i, Registering(hashes, i))
  {
    var first := Init(c, hashes);
    if i == 0 {
      s := first;
      assert EndsIn(s, false, [s], [], s);
      assert s.threads == Registering(hashes, 0);
    } else {
      s := AllRegister(c, hashes, i - 1);
      var t := i - 1;
      ReachedOk(c, hashes, false, s);
      NotThere(s, t);
      hide Reached, Goes, Inv;
      var m, th := Registers(t, s.mem, hashes[t]);
      GoesReached(first, false, s, t, m, th);
      s := State(m, s.threads[t := th]);
      assert s.threads == Registering(hashes, i);
    }
  }

  lemma {:induction false} AllLeave(c: nat, hashes: seq<nat>, i: nat) returns (s: State)
    requires i <= |hashes| < c / 2
    ensures Reached(Init(c, hashes), true, s) && Stage(s, c, hashes, |hashes|, Leaving(hashes, i))
  {
    var first := Init(c, hashes);
    if i == 0 {
      s := AllRegister(c, hashes, |hashes|);
      ReachedEither(first, s);
      assert Registering(hashes, |hashes|) == Leaving(hashes, 0);
    } else {
      s := AllLeave(c, hashes, i - 1);
      var t := i - 1;
      ReachedOk(c, hashes, true, s);
      assert ThreadOk(s.mem.tables, t, s.threads[t]);
      hide Reached, Goes, Inv, ThreadOk;
      var m, th := Leaves(t, s.mem, s.threads[t]);
      GoesReached(first, true, s, t, m, th);
      s := State(m, s.threads[t := th]);
      assert s.threads == Leaving(hashes, i);
    }
  }

  lemma {:induction false} AllReturn(c: nat, hashes: seq<nat>, i: nat) returns (s: State)
    requires i <= |hashes| < c / 2
    ensures Reached(Init(c, hashes), true, s)
    ensures Stage(s, c, hashes, |hashes| + i, Returning(hashes, i, |hashes|))
  {
    var first := Init(c, hashes);
    if i == 0 {
      s := AllLeave(c, hashes, |hashes|);
      assert Leaving(hashes, |hashes|) == Returning(hashes, 0, |hashes|);
    } else {
      s := AllReturn(c, hashes, i - 1);
      var t := i - 1;
      ReachedOk(c, hashes, true, s);
      NotThere(s, t);
      hide Reached, Goes, Inv;
      var j, m, th := CallsAndCounts(true, t, s.mem, hashes[t]);
      GoesReached(first, true, s, t, m, th);
      s := State(m, s.threads[t := th]);
      assert s.threads == Returning(hashes, i, |hashes|);
    }
  }

  /** All threads register, all exit, all call again: the last one's number is large enough. */
  lemma SecondTableMadeAnyhow(c: nat, hashes: seq<nat>) returns (states: seq<State>, picks: seq<Pick>)
    requires c > 0 && |hashes| > 0 && 2 * |hashes| >= c / 2
    ensures MakesSecond(c, hashes, states, picks, |picks|)
  {
    if |hashes| >= c / 2 {
      states, picks := SecondTableMade(c, hashes);
    } else {
      var first := Init(c, hashes);
      var s := AllReturn(c, hashes, |hashes|);
      var t := |hashes| - 1;
      var m, th := LastEnlarges(true, t, s.mem, hashes[t], 2 * |hashes|);
      GoesReached(first, true, s, t, m, th);
      var s' := State(m, s.threads[t := th]);
      states, picks :| EndsIn(first, true, states, picks, s');
    }
  }

  /** No more slots are taken for good than there are threads, so numbers stay within twice that, and no thread with the
      lock enlarges a table of more than four times as many slots. */
  ghost predicate TwiceOk(s: State) {
    && |s.mem.tables| == 1 && |s.mem.units| <= |Used(s.mem.tables[0])| && 2 * |s.threads| < |s.mem.tables[0]| / 2
    && (forall t :: 0 <= t < |s.threads| ==> !s.threads[t].pc.Grow?)
    && (forall t :: 0 <= t < |s.threads| && Pending(s.threads[t].pc) ==> s.threads[t].pc.n <= 2 * |s.threads|)
  }

  lemma TwiceFits(s: State, t: nat)
    requires CountOk(s) && TwiceOk(s) && t < |s.threads| && s.threads[t].pc.Count? && ProducerHashParking.Roomy(s, 0)
    ensures s.mem.count + 1 <= 2 * |s.threads|
  {
    ProducerHashParking.UsedAtMost(s.mem.tables[0], 0, s.threads);
    var a := AllPending(s.threads);
    Added(a, t);
    SubsetSize(a + {t}, Below(|s.threads|));
  }

  lemma TwiceAccess(m: Memory, t: nat, th: Thread, pick: Pick)
    requires Sized(m) && InRange(m.tables, th.pc) && |m.tables| == 1
    requires !th.pc.Grow? && (th.pc.Reload? ==> th.pc.n < |m.tables[0]| / 2)
    ensures var (m', th') := Access(m, t, th, pick);
            && !th'.pc.Grow?
            && (Pending(th'.pc) ==> if Pending(th.pc) then th'.pc.n == th.pc.n else th.pc.Count? && th'.pc.n == m.count + 1)
  {
    hide Slot, Doubled, Reused, SetEntry, Limit;
  }

  /** The slot a first insertion takes. */
  function TakenSlot(m: Memory, th: Thread): nat
    requires Sized(m)
  { Slot(th.hash, |m.tables[0]|, if th.pc.TakeEmpty? then th.pc.j else 0) }

  lemma UnitsAreUsed(m: Memory, t: nat, th: Thread, pick: Pick)
    requires Sized(m) && InRange(m.tables, th.pc) && |m.tables| == 1 && !th.pc.Grow?
    ensures var m', table := Access(m, t, th, pick).0, m.tables[0];
            && |m'.tables| == 1 && |m'.tables[0]| == |table|
            && (forall x :: 0 <= x < |table| && table[x].key != Empty ==> m'.tables[0][x].key != Empty)
            && (m'.units != m.units ==> |m'.units| == |m.units| + 1 && table[TakenSlot(m, th)].key == Empty && m'.tables[0][TakenSlot(m, th)].key != Empty)
  {
    hide Slot, Doubled, Reused, Half, Limit;
  }

  lemma UsedMore(table: seq<Entry>, table': seq<Entry>, more: bool, x: nat)
    requires |table'| == |table| && (forall y :: 0 <= y < |table| && table[y].key != Empty ==> table'[y].key != Empty)
    requires more ==> x < |table| && table[x].key == Empty && table'[x].key != Empty
    ensures |Used(table')| >= |Used(table)| + if more then 1 else 0
  {
    if more { Added(Used(table), x); }
    SubsetSize(Used(table) + (if more then {x} else {}), Used(table'));
    assert Used(table) + {} == Used(table);
  }

  lemma TwiceKept(s: State, pick: Pick)
    requires RoomInv(s) && TwiceOk(s) && Enabled(s, pick) && ProducerHashParking.Roomy(s, 0)
    ensures TwiceOk(Step(s, pick))
  {
    var s', t := Step(s, pick), pick.thread;
    var th := s.threads[t];
    TwiceAccess(s.mem, t, th, pick);
    UnitsAreUsed(s.mem, t, th, pick);
    if th.pc.Count? { TwiceFits(s, t); }
    var x := TakenSlot(s.mem, th);
    hide RoomInv, Access, Used, ProducerHashParking.Roomy, Slot;
    UsedMore(s.mem.tables[0], s'.mem.tables[0], s'.mem.units != s.mem.units, x);
    forall u | 0 <= u < |s'.threads| ensures !s'.threads[u].pc.Grow? && (Pending(s'.threads[u].pc) ==> s'.threads[u].pc.n <= 2 * |s'.threads|) {
      assert u != t ==> s'.threads[u] == s.threads[u];
    }
  }

  lemma TwiceAtFirst(c: nat, hashes: seq<nat>)
    requires c > 0 && 2 * |hashes| < c / 2
    ensures TwiceOk(Init(c, hashes))
  {
  }

  lemma {:induction false} OneTableAnyhow(c: nat, hashes: seq<nat>, states: seq<State>, picks: seq<Pick>, i: nat)
    requires 2 * |hashes| < c / 2 && Run(states, picks) && states[0] == Init(c, hashes) && i < |states|
    ensures TwiceOk(states[i])
  {
    hide TwiceOk, RoomInv, Step, Enabled, Inv, ProducerHashParking.Roomy;
    if i == 0 {
      TwiceAtFirst(c, hashes);
    } else {
      OneTableAnyhow(c, hashes, states, picks, i - 1);
      RunRoom(states, picks, i - 1);
      RunInv(states, picks, i - 1);
      ProducerHashParking.RunRoomy(states, picks, i - 1);
      assert |states[i - 1].mem.tables| == 1 by { TwiceOne(states[i - 1]); }
      TwiceKept(states[i - 1], picks[i - 1]);
    }
  }

  lemma TwiceOne(s: State)
    requires TwiceOk(s)
    ensures |s.mem.tables| == 1
  {
  }

  /** When threads may exit and come back, some run makes a second table exactly if there are a quarter as many threads as
      slots of the first one. */
  lemma SecondExactly(c: nat, hashes: seq<nat>)
    requires c > 0
    ensures (exists states, picks, i :: MakesSecond(c, hashes, states, picks, i)) <==> |hashes| > 0 && 2 * |hashes| >= c / 2
  {
    if |hashes| > 0 && 2 * |hashes| >= c / 2 {
      var states, picks := SecondTableMadeAnyhow(c, hashes);
      assert MakesSecond(c, hashes, states, picks, |picks|);
    } else {
      forall states, picks, i ensures !MakesSecond(c, hashes, states, picks, i) {
        if MakesSecond(c, hashes, states, picks, i) {
          if |hashes| == 0 { NoThreadsNoSteps(c, states, picks); } else { OneTableAnyhow(c, hashes, states, picks, i); }
        }
      }
    }
  }

  // ---- The declared number ------------------------------------------------------------------------------------------

  predicate PowerOfTwo(n: nat) { n == 1 || (n > 0 && n % 2 == 0 && PowerOfTwo(n / 2)) }

  /** The slots of the first table, for a declared number of implicit producers and the trait
      INITIAL_IMPLICIT_PRODUCER_HASH_SIZE. */
  function Capacity(initial: nat, producers: nat): (c: nat)
    ensures c >= 2 * producers && c > 0 && c >= initial
  { if 2 * FirstPower(1, producers) < initial then initial else 2 * FirstPower(1, producers) }

  /** The first of p, 2 p, 4 p, ... that is not below n. */
  function FirstPower(p: nat, n: nat): (q: nat)
    requires p > 0
    ensures q >= n && q >= p
    decreases n - p
  { if p < n then FirstPower(2 * p, n) else p }

  method HashCapacity(initial: nat, producers: nat) returns (capacity: nat)
    ensures capacity == Capacity(initial, producers)
  {
    capacity := 1;
    while capacity < producers
      invariant capacity > 0 && FirstPower(1, producers) == FirstPower(capacity, producers)
    {
      capacity := 2 * capacity;
    }
    capacity := 2 * capacity;
    if capacity < initial { capacity := initial; }
  }

  lemma {:induction false} FirstPowerIs(p: nat, n: nat)
    requires PowerOfTwo(p)
    ensures PowerOfTwo(FirstPower(p, n)) && (FirstPower(p, n) == p || FirstPower(p, n) / 2 < n)
    decreases n - p
  {
    if p < n {
      assert 2 * p / 2 == p;
      FirstPowerIs(2 * p, n);
    }
  }

  lemma {:induction false} PowersApart(p: nat, q: nat)
    requires PowerOfTwo(p) && PowerOfTwo(q) && p < q
    ensures 2 * p <= q
    decreases p
  {
    if p > 1 { PowersApart(p / 2, q / 2); }
  }

  /** The first power is the number itself exactly for powers of two. */
  lemma TightExactly(producers: nat)
    ensures FirstPower(1, producers) == producers <==> PowerOfTwo(producers)
  {
    assert PowerOfTwo(1);
    FirstPowerIs(1, producers);
    var p := FirstPower(1, producers);
    if PowerOfTwo(producers) && producers < p { PowersApart(producers, p); }
  }

  lemma {:induction false} FirstPowerSmall(p: nat, n: nat)
    requires 0 < p < 2 * n
    ensures FirstPower(p, n) < 2 * n
    decreases n - p
  {
    if p < n { FirstPowerSmall(2 * p, n); }
  }

  /** With no more threads than declared, every table keeps an empty slot in every run. */
  lemma DeclaredThreadsKeepRoom(initial: nat, producers: nat, hashes: seq<nat>, states: seq<State>, picks: seq<Pick>, i: nat, k: nat)
    requires |hashes| <= producers && Run(states, picks) && states[0] == Init(Capacity(initial, producers), hashes)
    requires i < |states| && k < |states[i].mem.tables|
    ensures HasEmpty(states[i].mem.tables[k])
  {
    ProducerHashParking.FewThreadsKeepRoom(states, picks, i, k);
  }

  /** The source doubles the first table so that no other need be allocated for the declared number of producers.  While
      nobody exits that fails exactly if the number is a power of two and the trait does not ask for more slots. */
  lemma NobodyExitsSecondTableExactly(initial: nat, producers: nat, hashes: seq<nat>)
    requires |hashes| == producers && PowerOfTwo(initial)
    ensures (exists states, picks, i :: MakesSecondCalmly(Capacity(initial, producers), hashes, states, picks, i))
            <==> PowerOfTwo(producers) && 2 * producers >= initial
  {
    hide MakesSecondCalmly;
    TightExactly(producers);
    CalmSecondExactly(Capacity(initial, producers), hashes);
    assert initial == 1 || initial % 2 == 0;
  }

  /** When threads may exit and come back, it fails exactly if there is a producer, and a quarter as many as the trait
      asks for slots. */
  lemma SecondTableExactly(initial: nat, producers: nat, hashes: seq<nat>)
    requires |hashes| == producers && PowerOfTwo(initial)
    ensures (exists states, picks, i :: MakesSecond(Capacity(initial, producers), hashes, states, picks, i))
            <==> producers > 0 && 4 * producers >= initial
  {
    hide MakesSecond;
    if producers > 0 { FirstPowerSmall(1, producers); }
    SecondExactly(Capacity(initial, producers), hashes);
    assert initial == 1 || initial % 2 == 0;
    assert initial > 2 ==> initial / 2 % 2 == 0;
  }
}
