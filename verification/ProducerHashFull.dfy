/** Runs in which a table of module ProducerHash fills up, though no allocation fails: threads that started on the first
    table, one after the other, take over the same cleared slot of it, move on to the second table, exit, and come back to
    settle in the slot they have left behind there.  None of them counts, so that in the end the other threads are let in
    as well. */
module ProducerHashFull {
  import opened Options
  import opened ProducerHash
  import opened ProducerHashRoom
  import ProducerHashParking
  import opened ProducerHashSteps
  import Arithmetic

  // ---- One round ------------------------------------------------------------------------------------------------

  /** The thread that makes the second table, for a first table of c slots. */
  function Maker(c: nat): int { c / 2 - 1 }

  /** The thread of round i, from 1 on. */
  function Passer(c: nat, i: nat): int { c / 2 + i - 1 }

  function PasserCount(c: nat): nat { 2 * c - c / 2 }

  /** Who sits in slot x of the second table in the end. */
  function Seat(c: nat, x: nat): int {
    if x == 0 then Maker(c) else if x <= PasserCount(c) then Passer(c, x) else x - PasserCount(c) - 1
  }

  /** The first table with key a in its first slot and nothing in its second; the second table with the first i slots
      taken, key b in the next and nothing after. */
  ghost predicate Layout(c: nat, m: Memory, i: nat, a: Key, b: Key) {
    && c >= 8 && Sized(m) && |m.tables| == 2 && |m.tables[0]| == c && |m.tables[1]| == 2 * c && 0 < i < 2 * c && m.count == 2
    && m.tables[0][0].key == a && m.tables[0][1].key == Empty
    && (forall x: nat :: x < i ==> Seat(c, x) >= 0 && m.tables[1][x].key == Id(Seat(c, x)))
    && m.tables[1][i].key == b
    && (forall x :: i < x < 2 * c ==> m.tables[1][x].key == Empty)
  }

  lemma SlotIs(j: nat, capacity: nat)
    requires j < capacity
    ensures Slot(0, capacity, j) == j
  {
    Arithmetic.RingSmall(j, capacity);
  }

  lemma SlotsAre(capacity: nat)
    ensures forall j: nat :: j < capacity ==> Slot(0, capacity, j) == j
  {
    forall j: nat | j < capacity ensures Slot(0, capacity, j) == j { SlotIs(j, capacity); }
  }

  /** A thread that is not in the tables takes a number, which is small, and a producer. */
  lemma Numbered(t: nat, m: Memory, th: Thread, main: nat, n: nat) returns (m': Memory, th': Thread)
    requires Sized(m) && main < |m.tables| && n < |m.tables[main]| / 2 && m.count == n - 1 && th.pc == Count(main)
    ensures Goes(true, t, m, th, m', th') && m' == m.(count := n) && th' == Thread(th.hash, TakeTomb(main, n, 0, t), Some(t))
  {
    hide Goes;
    Stays(true, t, m, th);
    m', th' := Next(true, t, m, th, m, th, false);
    assert (m', th') == (m.(count := n), th.(pc := Check(main, n)));
    m', th' := Next(true, t, m, th, m', th', false);
    assert (m', th') == (m.(count := n), th.(pc := Room(main, n)));
    m', th' := Next(true, t, m, th, m', th', false);
    assert (m', th') == (m.(count := n), th.(pc := Acquire(main, n)));
    m', th' := Next(true, t, m, th, m', th', false);
  }

  /** It takes over a cleared slot. */
  lemma TakesOver(t: nat, m: Memory, th: Thread, main: nat, n: int, j: nat) returns (m': Memory, th': Thread)
    requires Sized(m) && main < |m.tables| && j < |m.tables[main]| && m.tables[main][j].key == Tomb
    requires th == Thread(0, TakeTomb(main, n, j, t), Some(t))
    ensures Goes(true, t, m, th, m', th') && m'.count == m.count - 1 && th' == Thread(0, Idle(Got(t)), Some(t)) && Sized(m')
    ensures m'.tables == SetEntry(m.tables, main, j, Entry(Id(t), t)) && m'.locked == m.locked
  {
    hide Goes;
    Stays(true, t, m, th);
    SlotIs(j, |m.tables[main]|);
    m', th' := Next(true, t, m, th, m, th, false);
    assert m'.tables == SetEntry(m.tables, main, j, m.tables[main][j].(key := Id(t))) && m'.count == m.count && m'.locked == m.locked;
    assert th' == th.(pc := Uncount(main, n, j, t));
    m', th' := Next(true, t, m, th, m', th', false);
    assert th' == th.(pc := StoreValue(main, j, t));
    m', th' := Next(true, t, m, th, m', th', false);
    assert m'.tables[main] == m.tables[main][j := Entry(Id(t), t)];
    assert m'.tables == SetEntry(m.tables, main, j, Entry(Id(t), t));
  }

  /** A thread that has looked at the first table takes over its cleared slot. */
  lemma PassTakes(c: nat, t: nat, m: Memory, th: Thread, i: nat) returns (m': Memory, th': Thread)
    requires Layout(c, m, i, Tomb, Empty) && th == Thread(0, Count(0), None)
    ensures Goes(true, t, m, th, m', th') && Layout(c, m', i, Id(t), Empty) && th' == Thread(0, Idle(Got(t)), Some(t))
  {
    hide Goes;
    m', th' := Numbered(t, m, th, 0, 3);
    var m'', th'' := TakesOver(t, m', th', 0, 3, 0);
    GoesOn(true, t, m, th, m', th', m'', th'');
    m', th' := m'', th'';
  }

  /** A call of thread t gets to the first slot of the second table that is not taken, or past it if it is cleared. */
  lemma Calls(t: nat, m: Memory, th: Thread, j: nat) returns (th': Thread)
    requires Sized(m) && |m.tables| == 2 && j <= |m.tables[1]| && th.hash == 0 && th.pc.Idle?
    requires forall x :: 0 <= x < j ==> m.tables[1][x].key != Empty && m.tables[1][x].key != Id(t)
    ensures Goes(true, t, m, th, m, th') && th' == th.(pc := Probe(1, 1, j))
  {
    hide Goes;
    Stays(true, t, m, th);
    var m', u := Next(true, t, m, th, m, th, false);
    m', u := Next(true, t, m, th, m', u, false);
    assert m' == m && u == th.(pc := Probe(1, 1, 0));
    SlotsAre(|m.tables[1]|);
    ProbeOver(true, t, m, u, 1, 1, j);
    th' := th.(pc := Probe(1, 1, j));
    GoesOn(true, t, m, th, m, u, m, th');
  }

  /** The passer calls again: it is found in the first table and added to the second. */
  lemma PassAdds(c: nat, t: nat, m: Memory, th: Thread, i: nat) returns (m': Memory, th': Thread)
    requires Layout(c, m, i, Id(t), Empty) && t == Passer(c, i) && i <= PasserCount(c) && th.hash == 0 && th.pc.Idle?
    ensures Goes(true, t, m, th, m', th') && Layout(c, m', i, Id(t), Id(t)) && th'.hash == 0 && th'.pc.Idle? && th'.owns == th.owns
  {
    hide Goes;
    th' := Calls(t, m, th, i);
    SlotIs(i, 2 * c);
    SlotIs(0, c);
    m', th' := Next(true, t, m, th, m, th', false);
    assert m' == m && th' == th.(pc := Probe(1, 0, 0));
    m', th' := Next(true, t, m, th, m', th', false);
    var v := m.tables[0][0].value;
    assert m' == m && th' == th.(pc := AddEmpty(1, 0, v));
    SlotsAre(2 * c);
    AddOver(true, t, m, th', 1, v, i);
    var u := th.(pc := AddEmpty(1, i, v));
    GoesOn(true, t, m, th, m, th', m, u);
    m', th' := Next(true, t, m, th, m, u, false);
    assert m' == m.(tables := SetEntry(m.tables, 1, i, m.tables[1][i].(key := Id(t)))) && th' == th.(pc := StoreValue(1, i, v));
    m', th' := Next(true, t, m, th, m', th', false);
    assert forall x :: 0 <= x < 2 * c && x != i ==> m'.tables[1][x] == m.tables[1][x];
  }

  /** The passer exits: it clears its slots in both tables. */
  lemma PassLeaves(c: nat, t: nat, m: Memory, th: Thread, i: nat) returns (m': Memory, th': Thread)
    requires Layout(c, m, i, Id(t), Id(t)) && t == Passer(c, i) && i <= PasserCount(c) && th.hash == 0 && th.pc.Idle? && th.owns.Some?
    ensures Goes(true, t, m, th, m', th') && Layout(c, m', i, Tomb, Tomb) && th' == Thread(0, Idle(NoCall), None)
  {
    hide Goes;
    Stays(true, t, m, th);
    SlotIs(i, 2 * c);
    SlotIs(0, c);
    m', th' := Next(true, t, m, th, m, th, true);
    m', th' := Next(true, t, m, th, m', th', false);
    assert m' == m && th' == th.(pc := Clear(1, 0));
    SlotsAre(2 * c);
    ClearOver(true, t, m, th', 1, i);
    var u := th.(pc := Clear(1, i));
    GoesOn(true, t, m, th, m, th', m, u);
    m', th' := Next(true, t, m, th, m, u, false);
    assert m' == m.(tables := SetEntry(m.tables, 1, i, m.tables[1][i].(key := Tomb))) && th' == th.(pc := Clear(0, 0));
    assert Layout(c, m', i, Id(t), Tomb);
    m', th' := PassLeavesFirst(c, t, m, th, m', th', i);
  }

  lemma PassLeavesFirst(c: nat, t: nat, m0: Memory, th0: Thread, m: Memory, th: Thread, i: nat) returns (m': Memory, th': Thread)
    requires Goes(true, t, m0, th0, m, th) && Layout(c, m, i, Id(t), Tomb) && th.hash == 0 && th.pc == Clear(0, 0)
    ensures Goes(true, t, m0, th0, m', th') && Layout(c, m', i, Tomb, Tomb) && th' == Thread(0, Idle(NoCall), None)
  {
    hide Goes;
    SlotIs(0, c);
    m', th' := Next(true, t, m0, th0, m, th, false);
    assert m' == m.(tables := SetEntry(m.tables, 0, 0, m.tables[0][0].(key := Tomb))) && th' == th.(pc := Release);
    m', th' := Next(true, t, m0, th0, m', th', false);
  }

  /** It comes back and takes the slot it has cleared in the second table. */
  lemma PassSettles(c: nat, t: nat, m: Memory, i: nat) returns (m': Memory, th': Thread)
    requires Layout(c, m, i, Tomb, Tomb) && i + 1 < 2 * c && t == Passer(c, i) && i <= PasserCount(c)
    ensures Goes(true, t, m, IDLE, m', th') && Layout(c, m', i + 1, Tomb, Empty) && th' == Thread(0, Idle(Got(t)), Some(t))
  {
    hide Goes;
    var th := IDLE;
    SlotIs(i + 1, 2 * c);
    SlotIs(0, c);
    SlotIs(1, c);
    th' := Calls(t, m, th, i + 1);
    m', th' := Next(true, t, m, th, m, th', false);
    assert m' == m && th' == th.(pc := Probe(1, 0, 0));
    m', th' := Next(true, t, m, th, m', th', false);
    assert m' == m && th' == th.(pc := Probe(1, 0, 1));
    m', th' := Next(true, t, m, th, m', th', false);
    assert m' == m && th' == th.(pc := Count(1));
    m', th' := PassSettlesOn(c, t, m, th, th', i);
  }

  lemma PassSettlesOn(c: nat, t: nat, m: Memory, th: Thread, u: Thread, i: nat) returns (m': Memory, th': Thread)
    requires Layout(c, m, i, Tomb, Tomb) && i + 1 < 2 * c && t == Passer(c, i) && i <= PasserCount(c) && Goes(true, t, m, th, m, u) && u == Thread(0, Count(1), None)
    ensures Goes(true, t, m, th, m', th') && Layout(c, m', i + 1, Tomb, Empty) && th' == Thread(0, Idle(Got(t)), Some(t))
  {
    hide Goes;
    m', th' := Numbered(t, m, u, 1, 3);
    GoesOn(true, t, m, th, m, u, m', th');
    SlotsAre(2 * c);
    TakeOver(true, t, m', th', 1, 3, t, i);
    var w := th'.(pc := TakeTomb(1, 3, i, t));
    GoesOn(true, t, m, th, m', th', m', w);
    var m'', w' := TakesOver(t, m', w, 1, 3, i);
    GoesOn(true, t, m, th, m', w, m'', w');
    m', th' := m'', w';
  }

  // ---- Rounds ---------------------------------------------------------------------------------------------------

  /** A first table of c slots, and threads whose hashes all lead to its first slot. */
  function Beginning(c: nat, n: nat): State
    requires c > 0
  { Init(c, seq(n, _ => 0)) }

  const IDLE := Thread(0, Idle(NoCall), None)

  /** Before round i: the first threads are idle, those whose rounds are to come have looked at the first table. */
  ghost predicate Round(c: nat, s: State, i: nat) {
    && Layout(c, s.mem, i, Tomb, Empty) && |s.threads| >= 2 * c && OwnNumbers(s.threads) && i <= PasserCount(c) + 1
    && (forall x: nat :: x < Maker(c) ==> s.threads[x] == IDLE)
    && (forall x: nat :: i <= x <= PasserCount(c) ==> s.threads[Passer(c, x)] == Thread(0, Count(0), None))
  }

  /** A round, up to the second table. */
  lemma RoundBegins(c: nat, n: nat, s: State, i: nat) returns (s': State)
    requires c > 0 && Reached(Beginning(c, n), true, s) && Round(c, s, i) && i <= PasserCount(c)
    ensures Reached(Beginning(c, n), true, s') && Layout(c, s'.mem, i, Id(Passer(c, i)), Id(Passer(c, i)))
    ensures 0 <= Passer(c, i) < |s'.threads| == |s.threads| && s'.threads == s.threads[Passer(c, i) := s'.threads[Passer(c, i)]] && OwnNumbers(s'.threads)
    ensures var th := s'.threads[Passer(c, i)]; th.hash == 0 && th.pc.Idle? && th.owns == Some(Passer(c, i))
  {
    var t := Passer(c, i);
    assert s.threads[t] == Thread(0, Count(0), None);
    hide Reached, Goes, Layout;
    var m1, th1 := PassTakes(c, t, s.mem, s.threads[t], i);
    var m2, th2 := PassAdds(c, t, m1, th1, i);
    GoesOn(true, t, s.mem, s.threads[t], m1, th1, m2, th2);
    GoesReached(Beginning(c, n), true, s, t, m2, th2);
    s' := State(m2, s.threads[t := th2]);
  }

  lemma RoundEnds(c: nat, n: nat, s: State, i: nat) returns (s': State)
    requires c > 0 && Reached(Beginning(c, n), true, s) && Round(c, s, i) && i <= PasserCount(c)
    ensures Reached(Beginning(c, n), true, s') && Round(c, s', i + 1)
  {
    var t := Passer(c, i);
    var s1 := RoundBegins(c, n, s, i);
    assert c >= 8 && i > 0;
    hide Reached, Goes, Layout;
    var m2, th2 := PassLeaves(c, t, s1.mem, s1.threads[t], i);
    var m3, th3 := PassSettles(c, t, m2, i);
    GoesOn(true, t, s1.mem, s1.threads[t], m2, th2, m3, th3);
    GoesReached(Beginning(c, n), true, s1, t, m3, th3);
    s' := State(m3, s1.threads[t := th3]);
    forall x: nat | x < Maker(c) ensures s'.threads[x] == s.threads[x] {}
    forall x: nat | i + 1 <= x <= PasserCount(c) ensures s'.threads[Passer(c, x)] == s.threads[Passer(c, x)] {}
  }

  lemma {:induction false} Rounds(c: nat, n: nat, s: State, i: nat) returns (s': State)
    requires c > 0 && Reached(Beginning(c, n), true, s) && Round(c, s, i) && i <= PasserCount(c) + 1
    ensures Reached(Beginning(c, n), true, s') && Round(c, s', PasserCount(c) + 1)
    decreases PasserCount(c) + 1 - i
  {
    hide Reached, Round;
    s' := s;
    if i <= PasserCount(c) {
      s' := RoundEnds(c, n, s, i);
      s' := Rounds(c, n, s', i + 1);
    }
  }

  // ---- Up to the first round ------------------------------------------------------------------------------------

  /** One table of c slots, empty but for the first. */
  ghost predicate One(c: nat, m: Memory, a: Key, count: int) {
    && c >= 8 && Sized(m) && |m.tables| == 1 && |m.tables[0]| == c && !m.locked && m.count == count
    && m.tables[0][0].key == a && (forall x :: 0 < x < c ==> m.tables[0][x].key == Empty)
  }

  /** A thread calls and finds itself nowhere. */
  lemma Comes(c: nat, t: nat, m: Memory, a: Key, count: int) returns (th': Thread)
    requires One(c, m, a, count) && a != Id(t)
    ensures Goes(true, t, m, Thread(0, Idle(NoCall), None), m, th') && th' == Thread(0, Count(0), None)
  {
    hide Goes;
    var th := Thread(0, Idle(NoCall), None);
    Stays(true, t, m, th);
    SlotIs(0, c);
    SlotIs(1, c);
    var m', u := Next(true, t, m, th, m, th, false);
    m', u := Next(true, t, m, th, m', u, false);
    assert m' == m && u == th.(pc := Probe(0, 0, 0));
    m', u := Next(true, t, m, th, m', u, false);
    assert m' == m && u == th.(pc := if a == Empty then Count(0) else Probe(0, 0, 1));
    if a != Empty { m', u := Next(true, t, m, th, m', u, false); }
    th' := u;
  }

  /** The first thread registers in the first slot. */
  lemma First(c: nat, t: nat, m: Memory) returns (m': Memory, th': Thread)
    requires One(c, m, Empty, 0)
    ensures Goes(true, t, m, Thread(0, Idle(NoCall), None), m', th') && One(c, m', Id(t), 1) && th' == Thread(0, Idle(Got(t)), Some(t))
  {
    hide Goes;
    var th := Thread(0, Idle(NoCall), None);
    SlotIs(0, c);
    th' := Comes(c, t, m, Empty, 0);
    m', th' := Next(true, t, m, th, m, th', false);
    assert (m', th') == (m.(count := 1), th.(pc := Check(0, 1)));
    m', th' := Next(true, t, m, th, m', th', false);
    assert (m', th') == (m.(count := 1), th.(pc := Room(0, 1)));
    m', th' := Next(true, t, m, th, m', th', false);
    assert (m', th') == (m.(count := 1), th.(pc := Acquire(0, 1)));
    m', th' := Next(true, t, m, th, m', th', false);
    assert (m', th') == (m.(count := 1), Thread(0, TakeTomb(0, 1, 0, t), Some(t)));
    m', th' := FirstTakes(c, t, m, th, m', th');
  }

  lemma FirstTakes(c: nat, t: nat, m0: Memory, th0: Thread, m: Memory, th: Thread) returns (m': Memory, th': Thread)
    requires Goes(true, t, m0, th0, m, th) && One(c, m, Empty, 1) && th == Thread(0, TakeTomb(0, 1, 0, t), Some(t))
    ensures Goes(true, t, m0, th0, m', th') && One(c, m', Id(t), 1) && th' == Thread(0, Idle(Got(t)), Some(t))
  {
    hide Goes;
    SlotIs(0, c);
    m', th' := Next(true, t, m0, th0, m, th, false);
    assert (m', th') == (m, th.(pc := TakeEmpty(0, 1, 0, t)));
    m', th' := Next(true, t, m0, th0, m', th', false);
    assert m'.tables == SetEntry(m.tables, 0, 0, m.tables[0][0].(key := Id(t))) && th' == th.(pc := StoreValue(0, 0, t));
    m', th' := Next(true, t, m0, th0, m', th', false);
  }

  /** A thread takes a number and stops. */
  lemma TakesNumber(c: nat, t: nat, m: Memory, a: Key, n: int) returns (m': Memory, th': Thread)
    requires One(c, m, a, n) && a != Id(t)
    ensures Goes(true, t, m, Thread(0, Idle(NoCall), None), m', th') && One(c, m', a, n + 1) && th' == Thread(0, Check(0, n + 1), None)
  {
    hide Goes;
    var th := Thread(0, Idle(NoCall), None);
    th' := Comes(c, t, m, a, n);
    m', th' := Next(true, t, m, th, m, th', false);
  }

  /** Two tables, both empty but for their first slots, the second one's taken by its maker. */
  ghost predicate Two(c: nat, m: Memory, a: Key, count: int) {
    && c >= 8 && Sized(m) && |m.tables| == 2 && |m.tables[0]| == c && |m.tables[1]| == 2 * c && m.count == count && !m.locked
    && m.tables[0][0].key == a && (forall x :: 0 < x < c ==> m.tables[0][x].key == Empty)
    && m.tables[1][0].key == Id(Maker(c)) && (forall x :: 0 < x < 2 * c ==> m.tables[1][x].key == Empty)
  }

  /** The thread with number c / 2 makes the second table. */
  lemma Enlarges(c: nat, t: nat, m: Memory, a: Key) returns (m': Memory, th': Thread)
    requires One(c, m, a, c / 2)
    ensures Goes(true, t, m, Thread(0, Check(0, c / 2), None), m', th') && th' == Thread(0, Room(1, c / 2), None) && Sized(m')
    ensures |m'.tables| == 2 && m'.tables[0] == m.tables[0] && |m'.tables[1]| == 2 * c && m'.count == m.count && !m'.locked
    ensures forall x :: 0 <= x < 2 * c ==> m'.tables[1][x].key == Empty
  {
    hide Goes;
    var th := Thread(0, Check(0, c / 2), None);
    Stays(true, t, m, th);
    m', th' := Next(true, t, m, th, m, th, false);
    assert (m', th') == (m, th.(pc := Lock(0, c / 2)));
    m', th' := Next(true, t, m, th, m', th', false);
    assert (m', th') == (m.(locked := true), th.(pc := Reload(c / 2)));
    m', th' := Next(true, t, m, th, m', th', false);
    assert (m', th') == (m.(locked := true), th.(pc := Grow(0, c / 2)));
    assert Doubled(2 * c, c / 2) == 2 * c;
    m', th' := Next(true, t, m, th, m', th', false);
    assert th' == th.(pc := Unlock(1, c / 2));
    m', th' := Next(true, t, m, th, m', th', false);
  }

  /** And settles there. */
  lemma MakerSettles(c: nat, t: nat, m: Memory, a: Key) returns (m': Memory, th': Thread)
    requires One(c, m, a, c / 2) && t == Maker(c)
    ensures Goes(true, t, m, Thread(0, Check(0, c / 2), None), m', th') && Two(c, m', a, c / 2) && th' == Thread(0, Idle(Got(t)), Some(t))
  {
    hide Goes;
    var th, n := Thread(0, Check(0, c / 2), None), c / 2;
    SlotIs(0, 2 * c);
    m', th' := Enlarges(c, t, m, a);
    var m1 := m';
    m', th' := Next(true, t, m, th, m', th', false);
    assert (m', th') == (m1, th.(pc := Acquire(1, n)));
    m', th' := Next(true, t, m, th, m', th', false);
    assert (m', th') == (m1, Thread(0, TakeTomb(1, n, 0, t), Some(t)));
    m', th' := Next(true, t, m, th, m', th', false);
    assert (m', th') == (m1, Thread(0, TakeEmpty(1, n, 0, t), Some(t)));
    m', th' := MakerTakes(c, t, m, th, m', th', a);
  }

  lemma MakerTakes(c: nat, t: nat, m0: Memory, th0: Thread, m: Memory, th: Thread, a: Key) returns (m': Memory, th': Thread)
    requires Goes(true, t, m0, th0, m, th) && c >= 8 && t == Maker(c) && th == Thread(0, TakeEmpty(1, c / 2, 0, t), Some(t))
    requires Sized(m) && |m.tables| == 2 && |m.tables[0]| == c && |m.tables[1]| == 2 * c && m.count == c / 2 && !m.locked
    requires m.tables[0][0].key == a && (forall x :: 0 < x < c ==> m.tables[0][x].key == Empty)
    requires forall x :: 0 <= x < 2 * c ==> m.tables[1][x].key == Empty
    ensures Goes(true, t, m0, th0, m', th') && Two(c, m', a, c / 2) && th' == Thread(0, Idle(Got(t)), Some(t))
  {
    hide Goes;
    SlotIs(0, 2 * c);
    m', th' := Next(true, t, m0, th0, m, th, false);
    assert m'.tables == SetEntry(m.tables, 1, 0, m.tables[1][0].(key := Id(t))) && th' == th.(pc := StoreValue(1, 0, t));
    m', th' := Next(true, t, m0, th0, m', th', false);
  }

  /** A thread that has its key in the first table exits. */
  lemma LeavesFirst(c: nat, t: nat, m: Memory, th: Thread, count: int) returns (m': Memory, th': Thread)
    requires Two(c, m, Id(t), count) && t < Maker(c) && th.hash == 0 && th.pc.Idle? && th.owns.Some?
    ensures Goes(true, t, m, th, m', th') && Two(c, m', Tomb, count) && th' == IDLE
  {
    hide Goes;
    Stays(true, t, m, th);
    SlotIs(0, c);
    SlotIs(0, 2 * c);
    SlotIs(1, 2 * c);
    m', th' := Next(true, t, m, th, m, th, true);
    m', th' := Next(true, t, m, th, m', th', false);
    assert (m', th') == (m, th.(pc := Clear(1, 0)));
    m', th' := Next(true, t, m, th, m', th', false);
    assert (m', th') == (m, th.(pc := Clear(1, 1)));
    m', th' := Next(true, t, m, th, m', th', false);
    assert (m', th') == (m, th.(pc := Clear(0, 0)));
    m', th' := Next(true, t, m, th, m', th', false);
    assert m' == m.(tables := SetEntry(m.tables, 0, 0, m.tables[0][0].(key := Tomb))) && th' == th.(pc := Release);
    m', th' := Next(true, t, m, th, m', th', false);
  }

  /** A thread with a smaller number takes over the cleared slot, which gives its number back, and exits. */
  lemma ComesAndGoes(c: nat, t: nat, m: Memory, n: int, count: int) returns (m': Memory, th': Thread)
    requires Two(c, m, Tomb, count) && n < c / 2 && t < Maker(c)
    ensures Goes(true, t, m, Thread(0, Check(0, n), None), m', th') && Two(c, m', Tomb, count - 1) && th' == IDLE
  {
    hide Goes;
    var th := Thread(0, Check(0, n), None);
    Stays(true, t, m, th);
    m', th' := Next(true, t, m, th, m, th, false);
    assert (m', th') == (m, th.(pc := Room(0, n)));
    m', th' := Next(true, t, m, th, m', th', false);
    assert (m', th') == (m, th.(pc := Acquire(0, n)));
    m', th' := Next(true, t, m, th, m', th', false);
    assert (m', th') == (m, Thread(0, TakeTomb(0, n, 0, t), Some(t)));
    var m1, th1 := TakesOver(t, m', th', 0, n, 0);
    GoesOn(true, t, m, th, m', th', m1, th1);
    m', th' := LeavesFirst(c, t, m1, th1, count - 1);
    GoesOn(true, t, m, th, m1, th1, m', th');
  }

  /** The passers, of which the first i have looked at the first table, and whoever else there is. */
  function Passers(c: nat, n: nat, i: nat): seq<Thread>
    requires n >= c / 2
  { seq(n - c / 2, x => if x < i then Thread(0, Count(0), None) else IDLE) }

  /** The first c / 2 threads are as given, then come the passers. */
  ghost predicate Gathered(c: nat, n: nat, s: State, i: nat, first: seq<Thread>) {
    && n >= c / 2 && |first| == c / 2 && s.threads == first + Passers(c, n, i) && OwnNumbers(s.threads)
  }

  function Idles(n: nat): seq<Thread> { seq(n, _ => IDLE) }

  lemma {:induction false} Gather(c: nat, n: nat, i: nat) returns (s: State)
    requires c >= 8 && i <= PasserCount(c) && n >= 2 * c
    ensures Reached(Beginning(c, n), true, s) && Gathered(c, n, s, i, Idles(c / 2)) && One(c, s.mem, Empty, 0)
  {
    if i == 0 {
      s := Beginning(c, n);
      assert EndsIn(s, true, [s], [], s);
      assert s.threads == Idles(c / 2) + Passers(c, n, 0);
    } else {
      s := Gather(c, n, i - 1);
      hide Reached, Goes, One;
      var t := Passer(c, i);
      var th := Comes(c, t, s.mem, Empty, 0);
      GoesReached(Beginning(c, n), true, s, t, s.mem, th);
      s := State(s.mem, s.threads[t := th]);
      assert s.threads == Idles(c / 2) + Passers(c, n, i);
    }
  }

  /** One of the first threads moves. */
  lemma FirstMoves(c: nat, n: nat, s: State, first: seq<Thread>, t: nat, m': Memory, th': Thread) returns (s': State)
    requires c > 0 && Reached(Beginning(c, n), true, s) && Gathered(c, n, s, PasserCount(c), first) && t < c / 2
    requires Goes(true, t, s.mem, first[t], m', th') && th'.owns in {None, Some(t)}
    ensures Reached(Beginning(c, n), true, s') && Gathered(c, n, s', PasserCount(c), first[t := th']) && s'.mem == m'
  {
    hide Reached, Goes;
    assert s.threads[t] == first[t];
    GoesReached(Beginning(c, n), true, s, t, m', th');
    s' := State(m', s.threads[t := th']);
    assert s'.threads == first[t := th'] + Passers(c, n, PasserCount(c));
  }

  /** The first thread has registered, the next ones up to k have numbers. */
  function Waiters(c: nat, k: nat): seq<Thread>
    requires 0 < c / 2
  { [Thread(0, Idle(Got(0)), Some(0))] + seq(c / 2 - 1, x requires 0 <= x => if x + 1 < k then Thread(0, Check(0, x + 2), None) else IDLE) }

  lemma {:induction false} Numbers(c: nat, n: nat, k: nat) returns (s: State)
    requires c >= 8 && n >= 2 * c && 1 <= k <= c / 2
    ensures Reached(Beginning(c, n), true, s) && One(c, s.mem, Id(0), k) && Gathered(c, n, s, PasserCount(c), Waiters(c, k))
  {
    hide Reached, Goes, One, Gathered;
    if k == 1 {
      s := Gather(c, n, PasserCount(c));
      var m, th := First(c, 0, s.mem);
      s := FirstMoves(c, n, s, Idles(c / 2), 0, m, th);
      assert Idles(c / 2)[0 := th] == Waiters(c, 1);
    } else {
      s := Numbers(c, n, k - 1);
      var m, th := TakesNumber(c, k - 1, s.mem, Id(0), k - 1);
      s := FirstMoves(c, n, s, Waiters(c, k - 1), k - 1, m, th);
      assert Waiters(c, k - 1)[k - 1 := th] == Waiters(c, k);
    }
  }

  /** The first thread and those with numbers above k have come and gone, the maker has settled. */
  function Gone(c: nat, k: nat): seq<Thread>
    requires 0 < c / 2
  {
    seq(c / 2, x requires 0 <= x => if x == c / 2 - 1 then Thread(0, Idle(Got(x)), Some(x)) else if 0 < x < k then Thread(0, Check(0, x + 1), None) else IDLE)
  }

  /** The last one makes the second table, the first one exits, and then one after the other comes and goes. */
  lemma {:induction false} Going(c: nat, n: nat, k: nat) returns (s: State)
    requires c >= 8 && n >= 2 * c && 1 <= k <= c / 2 - 1
    ensures Reached(Beginning(c, n), true, s) && Two(c, s.mem, Tomb, k + 1) && Gathered(c, n, s, PasserCount(c), Gone(c, k))
    decreases c - k
  {
    hide Reached, Goes, One, Two, Gathered;
    if k == c / 2 - 1 {
      s := Numbers(c, n, c / 2);
      var m, th := MakerSettles(c, k, s.mem, Id(0));
      s := FirstMoves(c, n, s, Waiters(c, c / 2), k, m, th);
      var first := Waiters(c, c / 2)[k := th];
      m, th := LeavesFirst(c, 0, s.mem, first[0], c / 2);
      s := FirstMoves(c, n, s, first, 0, m, th);
      assert first[0 := th] == Gone(c, k);
    } else {
      s := Going(c, n, k + 1);
      var m, th := ComesAndGoes(c, k, s.mem, k + 1, k + 2);
      s := FirstMoves(c, n, s, Gone(c, k + 1), k, m, th);
      assert Gone(c, k + 1)[k := th] == Gone(c, k);
    }
  }

  lemma SetUp(c: nat, n: nat) returns (s: State)
    requires c >= 8 && n >= 2 * c
    ensures Reached(Beginning(c, n), true, s) && Round(c, s, 1)
  {
    hide Reached, Goes, Two, Gathered, Layout;
    s := Going(c, n, 1);
    RoundOne(c, n, s);
  }

  lemma RoundOne(c: nat, n: nat, s: State)
    requires c >= 8 && n >= 2 * c && Gathered(c, n, s, PasserCount(c), Gone(c, 1)) && Two(c, s.mem, Tomb, 2)
    ensures Round(c, s, 1)
  {
  }

  /** Thread t is in a lookup that never ends: its table has neither an empty slot nor its key. */
  ghost predicate Trapped(s: State, t: nat) {
    && t < |s.threads| && s.threads[t].pc.Probe? && s.threads[t].pc.table < |s.mem.tables|
    && !HasEmpty(s.mem.tables[s.threads[t].pc.table]) && Absent(s.mem.tables[s.threads[t].pc.table], t)
  }

  // ---- The others settle ------------------------------------------------------------------------------------------

  /** The maker, the passers, and then the first h threads have taken their slots in the second table. */
  ghost predicate Seated(c: nat, m: Memory, h: nat) {
    && c >= 8 && Sized(m) && |m.tables| == 2 && |m.tables[0]| == c && |m.tables[1]| == 2 * c && h <= Maker(c) && m.count == h + 2
    && m.tables[0][0].key == Tomb && m.tables[0][1].key == Empty
    && (forall x: nat :: x < SeatOf(c, h) ==> Seat(c, x) >= 0 && m.tables[1][x].key == Id(Seat(c, x)))
    && (forall x: nat :: SeatOf(c, h) <= x < 2 * c ==> m.tables[1][x].key == Empty)
  }

  /** The slot of thread h, one of the first. */
  function SeatOf(c: nat, h: nat): nat { PasserCount(c) + 1 + h }

  /** Thread h has found itself nowhere. */
  lemma SitterCalls(c: nat, h: nat, m: Memory, th: Thread) returns (th': Thread)
    requires Seated(c, m, h) && h < Maker(c) && th == IDLE
    ensures Goes(true, h, m, th, m, th') && th' == Thread(0, Count(1), None)
  {
    hide Goes;
    var j := SeatOf(c, h);
    SlotIs(j, 2 * c);
    SlotIs(0, c);
    SlotIs(1, c);
    th' := Calls(h, m, th, j);
    var m';
    m', th' := Next(true, h, m, th, m, th', false);
    assert m' == m && th' == th.(pc := Probe(1, 0, 0));
    m', th' := Next(true, h, m, th, m', th', false);
    assert m' == m && th' == th.(pc := Probe(1, 0, 1));
    m', th' := Next(true, h, m, th, m', th', false);
  }

  /** It takes the first slot that is empty. */
  lemma SitterTakes(c: nat, h: nat, m0: Memory, th0: Thread, m: Memory, th: Thread, n: int) returns (m': Memory, th': Thread)
    requires Seated(c, m0, h) && h < Maker(c) && Goes(true, h, m0, th0, m, th) && m == m0.(count := h + 3)
    requires th == Thread(0, TakeTomb(1, n, SeatOf(c, h), h), Some(h))
    ensures Goes(true, h, m0, th0, m', th') && Seated(c, m', h + 1) && th' == Thread(0, Idle(Got(h)), Some(h))
  {
    hide Goes;
    var j := SeatOf(c, h);
    SlotIs(j, 2 * c);
    m', th' := Next(true, h, m0, th0, m, th, false);
    assert (m', th') == (m, th.(pc := TakeEmpty(1, n, j, h)));
    m', th' := Next(true, h, m0, th0, m', th', false);
    assert m'.tables == SetEntry(m.tables, 1, j, m.tables[1][j].(key := Id(h))) && th' == th.(pc := StoreValue(1, j, h)) && m'.count == m.count;
    m', th' := Next(true, h, m0, th0, m', th', false);
    assert forall x :: 0 <= x < 2 * c && x != j ==> m'.tables[1][x] == m.tables[1][x];
  }

  lemma SitterSits(c: nat, h: nat, m: Memory, th: Thread) returns (m': Memory, th': Thread)
    requires Seated(c, m, h) && h < Maker(c) && th == IDLE
    ensures Goes(true, h, m, th, m', th') && Seated(c, m', h + 1) && th' == Thread(0, Idle(Got(h)), Some(h))
  {
    hide Goes;
    var j := SeatOf(c, h);
    var u := SitterCalls(c, h, m, th);
    m', th' := Numbered(h, m, u, 1, h + 3);
    GoesOn(true, h, m, th, m, u, m', th');
    SlotsAre(2 * c);
    TakeOver(true, h, m', th', 1, h + 3, h, j);
    var w := th'.(pc := TakeTomb(1, h + 3, j, h));
    GoesOn(true, h, m, th, m', th', m', w);
    m', th' := SitterTakes(c, h, m, th, m', w, h + 3);
  }

  /** Of the first threads, h have settled and the others are idle. */
  ghost predicate Sitting(c: nat, s: State, h: nat) {
    && Seated(c, s.mem, h) && |s.threads| >= 2 * c && OwnNumbers(s.threads)
    && (forall x: nat :: x < h ==> s.threads[x] == Thread(0, Idle(Got(x)), Some(x)))
    && (forall x: nat :: h <= x < Maker(c) ==> s.threads[x] == IDLE)
  }

  lemma {:induction false} Sittings(c: nat, n: nat, s: State, h: nat) returns (s': State)
    requires c > 0 && Reached(Beginning(c, n), true, s) && Sitting(c, s, 0) && h <= Maker(c)
    ensures Reached(Beginning(c, n), true, s') && Sitting(c, s', h)
  {
    s' := s;
    if h > 0 {
      s' := Sittings(c, n, s, h - 1);
      hide Reached, Goes, Seated;
      var m, th := SitterSits(c, h - 1, s'.mem, s'.threads[h - 1]);
      GoesReached(Beginning(c, n), true, s', h - 1, m, th);
      s' := State(m, s'.threads[h - 1 := th]);
    }
  }

  lemma RoundsSeated(c: nat, s: State)
    requires Round(c, s, PasserCount(c) + 1)
    ensures Sitting(c, s, 0)
  {
  }

  // ---- And one comes back -----------------------------------------------------------------------------------------

  /** The second table is full, and the first thread is not in it. */
  ghost predicate Crowded(c: nat, m: Memory) {
    && c >= 8 && Sized(m) && |m.tables| == 2 && |m.tables[1]| == 2 * c
    && (forall x: nat :: x < 2 * c ==> m.tables[1][x].key != Empty && m.tables[1][x].key != Id(0))
  }

  /** The first thread exits when all have settled. */
  lemma FirstExits(c: nat, m: Memory) returns (m': Memory, th': Thread)
    requires c >= 8 && Seated(c, m, Maker(c))
    ensures Goes(true, 0, m, Thread(0, Idle(Got(0)), Some(0)), m', th') && Crowded(c, m') && th' == IDLE
  {
    hide Goes;
    var th, j := Thread(0, Idle(Got(0)), Some(0)), SeatOf(c, 0);
    Stays(true, 0, m, th);
    SlotIs(j, 2 * c);
    m', th' := Next(true, 0, m, th, m, th, true);
    m', th' := Next(true, 0, m, th, m', th', false);
    assert m' == m && th' == th.(pc := Clear(1, 0));
    SlotsAre(2 * c);
    ClearOver(true, 0, m, th', 1, j);
    var u := th.(pc := Clear(1, j));
    GoesOn(true, 0, m, th, m, th', m, u);
    m', th' := Next(true, 0, m, th, m, u, false);
    assert m' == m.(tables := SetEntry(m.tables, 1, j, m.tables[1][j].(key := Tomb))) && th' == th.(pc := Clear(0, 0));
    assert Crowded(c, m') && m'.tables[0] == m.tables[0];
    m', th' := FirstGone(c, m, th, m', th');
  }

  lemma FirstGone(c: nat, m0: Memory, th0: Thread, m: Memory, th: Thread) returns (m': Memory, th': Thread)
    requires Goes(true, 0, m0, th0, m, th) && Crowded(c, m) && th.hash == 0 && th.pc == Clear(0, 0)
    requires |m.tables[0]| == c && m.tables[0][0].key == Tomb && m.tables[0][1].key == Empty
    ensures Goes(true, 0, m0, th0, m', th') && Crowded(c, m') && th' == IDLE
  {
    hide Goes;
    SlotIs(0, c);
    SlotIs(1, c);
    m', th' := Next(true, 0, m0, th0, m, th, false);
    assert (m', th') == (m, th.(pc := Clear(0, 1)));
    m', th' := Next(true, 0, m0, th0, m', th', false);
    assert (m', th') == (m, th.(pc := Release));
    m', th' := Next(true, 0, m0, th0, m', th', false);
  }

  /** And calls again. */
  lemma FirstReturns(c: nat, n: nat, s: State) returns (s': State)
    requires c >= 8 && Reached(Beginning(c, n), true, s) && Sitting(c, s, Maker(c))
    ensures Reached(Beginning(c, n), true, s') && Trapped(s', 0)
  {
    assert s.threads[0] == Thread(0, Idle(Got(0)), Some(0));
    hide Reached, Goes, Seated;
    var m, th := FirstExits(c, s.mem);
    var th' := Calls(0, m, th, 0);
    GoesOn(true, 0, s.mem, s.threads[0], m, th, m, th');
    GoesReached(Beginning(c, n), true, s, 0, m, th');
    s' := State(m, s.threads[0 := th']);
  }

  /** It is not true that every table keeps an empty slot: for every first table of at least eight slots and every number
      of threads of at least twice as many, some run in which no allocation fails ends in a state in which a thread has
      been let into a full table, from where FullTableTraps applies. */
  lemma ATableFills(c: nat, n: nat) returns (states: seq<State>, picks: seq<Pick>)
    requires c >= 8 && n >= 2 * c
    ensures Run(states, picks) && states[0] == Beginning(c, n) && Trapped(states[|picks|], 0)
    ensures forall i :: 0 <= i < |picks| ==> !picks[i].noMemory
  {
    hide Goes, Layout, Reached, Seated;
    var s := SetUp(c, n);
    s := Rounds(c, n, s, 1);
    assert Sitting(c, s, 0) by { RoundsSeated(c, s); }
    s := Sittings(c, n, s, Maker(c));
    s := FirstReturns(c, n, s);
    states, picks := RunOf(Beginning(c, n), s);
  }

  /** In every run of n threads that begins with a table of c slots, whatever their hashes, every table keeps an empty
      slot. */
  ghost predicate AlwaysRoom(c: nat, n: nat)
    requires c > 0
  {
    forall hashes: seq<nat>, states: seq<State>, picks: seq<Pick>, i: nat, k: nat ::
      |hashes| == n && Run(states, picks) && states[0] == Init(c, hashes) && i < |states| && k < |states[i].mem.tables| ==>
        HasEmpty(states[i].mem.tables[k])
  }

  /** That holds exactly for fewer than twice as many threads as the first table has slots. */
  lemma RoomExactly(c: nat, n: nat)
    requires c >= 8
    ensures AlwaysRoom(c, n) <==> n < 2 * c
  {
    hide HasEmpty;
    if n < 2 * c {
      forall hashes: seq<nat>, states: seq<State>, picks: seq<Pick>, i: nat, k: nat
        | |hashes| == n && Run(states, picks) && states[0] == Init(c, hashes) && i < |states| && k < |states[i].mem.tables|
        ensures HasEmpty(states[i].mem.tables[k])
      {
        ProducerHashParking.FewThreadsKeepRoom(states, picks, i, k);
      }
    } else {
      var states, picks := ATableFills(c, n);
      assert states[0] == Init(c, seq(n, _ => 0)) && |seq(n, _ => 0)| == n;
      assert !AlwaysRoom(c, n);
    }
  }

  lemma RunOf(first: State, s: State) returns (states: seq<State>, picks: seq<Pick>)
    requires Reached(first, true, s)
    ensures EndsIn(first, true, states, picks, s)
  {
    states, picks :| EndsIn(first, true, states, picks, s);
  }
}
