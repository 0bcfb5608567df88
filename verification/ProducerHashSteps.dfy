/** Putting runs of module ProducerHash together from what single threads do. */
module ProducerHashSteps {
  import opened Options
  import opened ProducerHash

  // ---- One thread on its own ------------------------------------------------------------------------------------

  /** Thread t goes from th to th' by the accesses chosen, none of which fails to allocate, and takes the memory from m
      to m'. */
  ghost predicate Leads(exits: bool, t: nat, m: Memory, th: Thread, picks: seq<Pick>, m': Memory, th': Thread)
    decreases |picks|
  {
    if picks == [] then m' == m && th' == th
    else
      && picks[0].thread == t && picks[0].producer == t && (picks[0].exit ==> exits) && !picks[0].noMemory && Sized(m) && InRange(m.tables, th.pc)
      && var (n, u) := Access(m, t, th, picks[0]); Leads(exits, t, n, u, picks[1..], m', th')
  }

  ghost predicate Goes(exits: bool, t: nat, m: Memory, th: Thread, m': Memory, th': Thread) { exists picks :: Leads(exits, t, m, th, picks, m', th') }

  lemma {:induction false} LeadsOn(exits: bool, t: nat, a: Memory, x: Thread, p: seq<Pick>, b: Memory, y: Thread, q: seq<Pick>, c: Memory, z: Thread)
    requires Leads(exits, t, a, x, p, b, y) && Leads(exits, t, b, y, q, c, z)
    ensures Leads(exits, t, a, x, p + q, c, z)
    decreases |p|
  {
    if p == [] {
      assert p + q == q;
    } else {
      var (n, u) := Access(a, t, x, p[0]);
      LeadsOn(exits, t, n, u, p[1..], b, y, q, c, z);
      assert (p + q)[1..] == p[1..] + q;
    }
  }

  lemma GoesOn(exits: bool, t: nat, a: Memory, x: Thread, b: Memory, y: Thread, c: Memory, z: Thread)
    requires Goes(exits, t, a, x, b, y) && Goes(exits, t, b, y, c, z)
    ensures Goes(exits, t, a, x, c, z)
  {
    var p :| Leads(exits, t, a, x, p, b, y);
    var q :| Leads(exits, t, b, y, q, c, z);
    LeadsOn(exits, t, a, x, p, b, y, q, c, z);
  }

  lemma Stays(exits: bool, t: nat, m: Memory, th: Thread)
    ensures Goes(exits, t, m, th, m, th)
  {
    assert Leads(exits, t, m, th, [], m, th);
  }

  /** One more access at the end. */
  lemma Next(exits: bool, t: nat, m0: Memory, th0: Thread, m: Memory, th: Thread, exit: bool) returns (m': Memory, th': Thread)
    requires Goes(exits, t, m0, th0, m, th) && Sized(m) && InRange(m.tables, th.pc) && (exit ==> exits)
    ensures Goes(exits, t, m0, th0, m', th') && (m', th') == Access(m, t, th, Pick(t, exit, false, t))
  {
    var pick := Pick(t, exit, false, t);
    var r := Access(m, t, th, pick);
    m', th' := r.0, r.1;
    assert Leads(exits, t, m', th', [], m', th');
    assert Leads(exits, t, m, th, [pick], m', th');
    GoesOn(exits, t, m0, th0, m, th, m', th');
  }

  // ---- Over slots that are taken --------------------------------------------------------------------------------

  lemma {:induction false} ProbeOver(exits: bool, t: nat, m: Memory, th: Thread, main: nat, k: nat, j: nat)
    requires Sized(m) && main < |m.tables| && k < |m.tables| && th.pc == Probe(main, k, 0) && PassedOver(m.tables[k], th.hash, j, t)
    ensures Goes(exits, t, m, th, m, th.(pc := Probe(main, k, j)))
  {
    if j == 0 {
      Stays(exits, t, m, th);
    } else {
      ProbeOver(exits, t, m, th, main, k, j - 1);
      var m', th' := Next(exits, t, m, th, m, th.(pc := Probe(main, k, j - 1)), false);
    }
  }

  /** The first j slots on the way from a hash have threads' keys. */
  ghost predicate Occupied(table: seq<Entry>, hash: nat, j: nat)
    requires |table| > 0
  { forall x: nat :: x < j ==> table[Slot(hash, |table|, x)].key.Id? }

  lemma {:induction false} AddOver(exits: bool, t: nat, m: Memory, th: Thread, main: nat, v: nat, j: nat)
    requires Sized(m) && main < |m.tables| && th.pc == AddEmpty(main, 0, v) && Occupied(m.tables[main], th.hash, j)
    ensures Goes(exits, t, m, th, m, th.(pc := AddEmpty(main, j, v)))
  {
    if j == 0 {
      Stays(exits, t, m, th);
    } else {
      AddOver(exits, t, m, th, main, v, j - 1);
      var m', th' := Next(exits, t, m, th, m, th.(pc := AddEmpty(main, j - 1, v)), false);
      m', th' := Next(exits, t, m, th, m', th', false);
    }
  }

  lemma {:induction false} TakeOver(exits: bool, t: nat, m: Memory, th: Thread, main: nat, n: int, v: nat, j: nat)
    requires Sized(m) && main < |m.tables| && th.pc == TakeTomb(main, n, 0, v) && Occupied(m.tables[main], th.hash, j)
    ensures Goes(exits, t, m, th, m, th.(pc := TakeTomb(main, n, j, v)))
  {
    if j == 0 {
      Stays(exits, t, m, th);
    } else {
      TakeOver(exits, t, m, th, main, n, v, j - 1);
      var m', th' := Next(exits, t, m, th, m, th.(pc := TakeTomb(main, n, j - 1, v)), false);
      m', th' := Next(exits, t, m, th, m', th', false);
    }
  }

  lemma {:induction false} ClearOver(exits: bool, t: nat, m: Memory, th: Thread, k: nat, j: nat)
    requires Sized(m) && k < |m.tables| && th.pc == Clear(k, 0) && PassedOver(m.tables[k], th.hash, j, t)
    ensures Goes(exits, t, m, th, m, th.(pc := Clear(k, j)))
  {
    if j == 0 {
      Stays(exits, t, m, th);
    } else {
      ClearOver(exits, t, m, th, k, j - 1);
      var m', th' := Next(exits, t, m, th, m, th.(pc := Clear(k, j - 1)), false);
    }
  }

  // ---- Runs -----------------------------------------------------------------------------------------------------

  ghost predicate EndsIn(first: State, exits: bool, states: seq<State>, picks: seq<Pick>, s: State) {
    && Run(states, picks) && states[0] == first && states[|picks|] == s
    && forall i :: 0 <= i < |picks| ==> (picks[i].exit ==> exits) && !picks[i].noMemory
  }

  /** Some run from the first state, in which no allocation fails, ends in this one; whether threads may exit in it. */
  ghost predicate Reached(first: State, exits: bool, s: State) { exists states, picks :: EndsIn(first, exits, states, picks, s) }

  lemma ReachedNext(first: State, exits: bool, s: State, pick: Pick)
    requires Reached(first, exits, s) && Legal(s, pick) && Enabled(s, pick) && (pick.exit ==> exits) && !pick.noMemory
    ensures Reached(first, exits, Step(s, pick))
  {
    var states, picks :| EndsIn(first, exits, states, picks, s);
    var s' := Step(s, pick);
    var states', picks' := states + [s'], picks + [pick];
    assert Follows(s, pick, s');
    assert states'[0] == states[0];
    forall i | 0 <= i < |picks'| ensures Follows(states'[i], picks'[i], states'[i + 1]) {
      if i < |picks| { assert Follows(states[i], picks[i], states[i + 1]); }
    }
    assert EndsIn(first, exits, states', picks', s');
  }

  /** No thread owns a producer but the one with its own number. */
  predicate OwnNumbers(threads: seq<Thread>) { forall u :: 0 <= u < |threads| ==> threads[u].owns in {None, Some(u)} }

  lemma {:induction false} LeadsReached(first: State, exits: bool, s: State, t: nat, picks: seq<Pick>, m': Memory, th': Thread)
    requires Reached(first, exits, s) && t < |s.threads| && OwnNumbers(s.threads) && Leads(exits, t, s.mem, s.threads[t], picks, m', th')
    ensures Reached(first, exits, State(m', s.threads[t := th']))
    decreases |picks|
  {
    if picks == [] {
      assert s.threads[t := th'] == s.threads;
    } else {
      var s1 := Step(s, picks[0]);
      hide Reached;
      ReachedNext(first, exits, s, picks[0]);
      assert s1.threads[t].owns in {s.threads[t].owns, None, Some(t)};
      LeadsReached(first, exits, s1, t, picks[1..], m', th');
      assert s1.threads[t := th'] == s.threads[t := th'];
    }
  }

  lemma GoesReached(first: State, exits: bool, s: State, t: nat, m': Memory, th': Thread)
    requires Reached(first, exits, s) && t < |s.threads| && OwnNumbers(s.threads) && Goes(exits, t, s.mem, s.threads[t], m', th')
    ensures Reached(first, exits, State(m', s.threads[t := th']))
  {
    var picks :| Leads(exits, t, s.mem, s.threads[t], picks, m', th');
    LeadsReached(first, exits, s, t, picks, m', th');
  }

  /** A run in which nobody exits is also one in which threads may. */
  lemma ReachedEither(first: State, s: State)
    requires Reached(first, false, s)
    ensures Reached(first, true, s)
  {
    var states, picks :| EndsIn(first, false, states, picks, s);
    assert EndsIn(first, true, states, picks, s);
  }

  /** The way from a hash to the first empty slot. */
  lemma FirstEmpty(table: seq<Entry>, hash: nat) returns (j: nat)
    requires |table| > 0 && exists i :: 0 <= i < |table| && table[i].key == Empty
    ensures table[Slot(hash, |table|, j)].key == Empty && Passed(table, hash, j)
  {
    var i :| 0 <= i < |table| && table[i].key == Empty;
    var last := SlotOnWay(hash, |table|, i);
    j := 0;
    while table[Slot(hash, |table|, j)].key != Empty
      invariant j <= last && Passed(table, hash, j)
      decreases last - j
    {
      j := j + 1;
    }
  }
}
