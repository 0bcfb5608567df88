/** Who has which producer in external/cameron314/concurrentqueue.h (recycle_or_create_producer, add_producer, and
    giving a producer back), as an interleaving machine.  A holder is a thread or a token that asks for a producer and
    gives it back later. */
module ProducerOwners {
  import opened Options

  /** isExplicit and inactive. */
  datatype Producer = Producer(isExplicit: bool, inactive: bool)

  /** All producers there are; the list, oldest first, which only grows; the pre-allocated pool, which holds the
      producers below poolSize until their ticket is drawn; and the next ticket. */
  datatype Memory = Memory(producers: seq<Producer>, list: seq<nat>, poolSize: nat, nextTicket: nat)

  datatype Holder =
    | Without                                       // has no producer
    | Start(isExplicit: bool)                       // about to load the list's tail
    | Look(isExplicit: bool, left: nat)             // about to load inactive of the producer at left - 1
    | Take(isExplicit: bool, left: nat)             // about to exchange its inactive
    | Draw(isExplicit: bool)                        // about to compare the next ticket with the pool size
    | Ticket                                        // about to draw a ticket
    | Activate(producer: nat)                       // about to clear inactive of a producer from the pool
    | Make(isExplicit: bool)                        // about to create a producer
    | Link(isExplicit: bool, producer: nat)         // about to put it on the list
    | With(isExplicit: bool, producer: nat)         // has it

  datatype State = State(mem: Memory, holders: seq<Holder>)

  datatype Pick = Pick(holder: nat, isExplicit: bool, noMemory: bool)

  predicate InRange(m: Memory, h: Holder) {
    && (h.Look? || h.Take? ==> h.left <= |m.list|)
    && (h.Take? ==> h.left > 0 && m.list[h.left - 1] < |m.producers|)
    && (h.Look? && h.left > 0 ==> m.list[h.left - 1] < |m.producers|)
    && (h.Activate? || h.Link? || h.With? ==> h.producer < |m.producers|)
  }

  function SetInactive(m: Memory, p: nat, b: bool): Memory
    requires p < |m.producers|
  { m.(producers := m.producers[p := m.producers[p].(inactive := b)]) }

  /** One access of a holder.  Idle holders ask for a producer of a kind, holders with one give it back. */
  function Access(m: Memory, h: Holder, pick: Pick): (Memory, Holder)
    requires InRange(m, h)
  {
    match h
    case Without => (m, Start(pick.isExplicit))
    case Start(k) => (m, Look(k, |m.list|))
    case Look(k, left) =>
      if left == 0 then (m, Draw(k))
      else
        var p := m.producers[m.list[left - 1]];
        (m, if p.inactive && p.isExplicit == k then Take(k, left) else Look(k, left - 1))
    case Take(k, left) =>
      var p := m.list[left - 1];
      if m.producers[p].inactive then (SetInactive(m, p, false), With(k, p)) else (m, Look(k, left - 1))
    case Draw(k) => (m, if !k && m.nextTicket < m.poolSize then Ticket else Make(k))
    case Ticket =>
      (m.(nextTicket := m.nextTicket + 1),
       if m.nextTicket < m.poolSize then Activate(m.nextTicket) else Make(false))
    case Activate(p) => (SetInactive(m, p, false), Link(false, p))
    case Make(k) =>
      if pick.noMemory then (m, Without)
      else (m.(producers := m.producers + [Producer(k, false)]), Link(k, |m.producers|))
    case Link(k, p) => (m.(list := m.list + [p]), With(k, p))
    case With(_, p) => (SetInactive(m, p, true), Without)
  }

  predicate Enabled(s: State, pick: Pick) { pick.holder < |s.holders| && InRange(s.mem, s.holders[pick.holder]) }

  function Step(s: State, pick: Pick): State
    requires Enabled(s, pick)
  {
    var (m, h) := Access(s.mem, s.holders[pick.holder], pick);
    State(m, s.holders[pick.holder := h])
  }

  /** The three-argument constructor's pool of implicit producers, and nobody with a producer. */
  function Init(poolSize: nat, holders: nat): State {
    State(Memory(seq(poolSize, _ => Producer(false, true)), [], poolSize, 0), seq(holders, _ => Without))
  }

  // ---- The invariant ----------------------------------------------------------------------------------------

  /** Producer p is in the pool still. */
  predicate Pooled(m: Memory, p: nat) { m.nextTicket <= p < m.poolSize }

  /** Producer p waits on the list to be recycled. */
  predicate Waits(m: Memory, p: nat)
    requires p < |m.producers|
  { p in m.list && m.producers[p].inactive }

  /** The producer a holder has, or is about to have alone. */
  function Has(h: Holder): Option<nat> { if h.Activate? || h.Link? || h.With? then Some(h.producer) else None }

  ghost predicate Owned(holders: seq<Holder>, p: nat) { exists t :: 0 <= t < |holders| && Has(holders[t]) == Some(p) }

  ghost predicate HolderOk(m: Memory, h: Holder) {
    && InRange(m, h)
    && (h.Link? || h.With? ==> !m.producers[h.producer].inactive && m.producers[h.producer].isExplicit == h.isExplicit)
    && (h.Link? || h.Activate? ==> h.producer !in m.list)
    && (h.With? ==> h.producer in m.list)
    && (h.Activate? ==> !m.producers[h.producer].isExplicit && h.producer < m.nextTicket)
    && (h.Take? ==> m.producers[m.list[h.left - 1]].isExplicit == h.isExplicit)
  }

  ghost predicate MemoryOk(m: Memory) {
    && m.poolSize <= |m.producers|
    && (forall i :: 0 <= i < |m.list| ==> m.list[i] < |m.producers|)
    && (forall i, j :: 0 <= i < j < |m.list| ==> m.list[i] != m.list[j])
    && (forall p: nat :: Pooled(m, p) ==> m.producers[p].inactive && !m.producers[p].isExplicit && p !in m.list)
    && (forall i :: 0 <= i < |m.list| ==> m.list[i] < m.poolSize ==> m.list[i] < m.nextTicket)
  }

  /** Every producer is in the pool, or has one owner, or is on the list and inactive. */
  ghost predicate AccountedFor(s: State) {
    forall p: nat :: p < |s.mem.producers| ==> Pooled(s.mem, p) || Owned(s.holders, p) || Waits(s.mem, p)
  }

  ghost predicate Exclusive(holders: seq<Holder>) {
    forall t, u :: 0 <= t < |holders| && 0 <= u < |holders| && t != u && Has(holders[t]).Some? ==> Has(holders[t]) != Has(holders[u])
  }

  ghost predicate Inv(s: State) {
    && MemoryOk(s.mem) && AccountedFor(s) && Exclusive(s.holders)
    && (forall t :: 0 <= t < |s.holders| ==> HolderOk(s.mem, s.holders[t]))
  }

  // ---- Steps --------------------------------------------------------------------------------------------------

  /** What the steps leave alone of the memory another holder looks at; only the producer p may change its flag. */
  ghost predicate Extends(m: Memory, m': Memory, p: nat) {
    && |m.producers| <= |m'.producers| && m.list <= m'.list && m'.nextTicket >= m.nextTicket
    && (forall q :: 0 <= q < |m.producers| ==> m'.producers[q].isExplicit == m.producers[q].isExplicit)
    && (forall q :: 0 <= q < |m.producers| && q != p ==> m'.producers[q] == m.producers[q])
    && (forall i :: |m.list| <= i < |m'.list| ==> m'.list[i] == p)
  }

  lemma OtherKeeps(m: Memory, m': Memory, p: nat, h: Holder)
    requires HolderOk(m, h) && Extends(m, m', p) && Has(h) != Some(p)
    ensures HolderOk(m', h)
  {
    if h.Take? || (h.Look? && h.left > 0) { assert m'.list[h.left - 1] == m.list[h.left - 1]; }
    if h.Link? || h.Activate? {
      forall i | 0 <= i < |m'.list| ensures m'.list[i] != h.producer { assert i < |m.list| ==> m'.list[i] == m.list[i]; }
    }
    if h.With? {
      var i :| 0 <= i < |m.list| && m.list[i] == h.producer;
      assert m'.list[i] == h.producer;
    }
  }

  /** A step by which holder t comes to have no producer but p, and nobody else has it. */
  lemma HolderSteps(s: State, t: nat, m': Memory, h': Holder, p: nat)
    requires Inv(s) && t < |s.holders| && Extends(s.mem, m', p) && MemoryOk(m') && HolderOk(m', h')
    requires forall u :: 0 <= u < |s.holders| && u != t ==> Has(s.holders[u]) != Some(p)
    requires Has(h') == None || Has(h') == Some(p)
    requires Has(s.holders[t]) == None || Has(s.holders[t]) == Some(p)
    requires forall q: nat :: q < |m'.producers| && q != p ==>
               q < |s.mem.producers| && (Pooled(m', q) <==> Pooled(s.mem, q))
    requires p < |m'.producers| ==> Pooled(m', p) || Has(h') == Some(p) || Waits(m', p)
    ensures Inv(State(m', s.holders[t := h']))
  {
    var hs' := s.holders[t := h'];
    forall u | 0 <= u < |hs'| ensures HolderOk(m', hs'[u]) {
      if u != t { OtherKeeps(s.mem, m', p, s.holders[u]); }
    }
    forall q: nat | q < |m'.producers|
      ensures Pooled(m', q) || Owned(hs', q) || Waits(m', q)
    {
      assert q != p ==> (Pooled(m', q) <==> Pooled(s.mem, q));
      if q == p {
        if Has(h') == Some(p) { assert Has(hs'[t]) == Some(p); }
      } else if Owned(s.holders, q) {
        var u :| 0 <= u < |s.holders| && Has(s.holders[u]) == Some(q);
        assert Has(hs'[u]) == Some(q);
      } else if Waits(s.mem, q) {
        var i :| 0 <= i < |s.mem.list| && s.mem.list[i] == q;
        assert m'.list[i] == q;
      }
    }
  }

  /** A producer on the list that is inactive has no owner. */
  lemma InactiveIsUnowned(s: State, p: nat, t: nat)
    requires Inv(s) && p < |s.mem.producers| && Waits(s.mem, p) && t < |s.holders|
    ensures Has(s.holders[t]) != Some(p)
  {
    assert HolderOk(s.mem, s.holders[t]);
  }

  lemma PooledIsUnowned(s: State, p: nat, t: nat)
    requires Inv(s) && Pooled(s.mem, p) && t < |s.holders|
    ensures Has(s.holders[t]) != Some(p)
  {
    assert HolderOk(s.mem, s.holders[t]);
  }

  lemma TakeKeeps(s: State, pick: Pick)
    requires Inv(s) && Enabled(s, pick) && s.holders[pick.holder].Take?
    ensures Inv(Step(s, pick))
  {
    var t, m := pick.holder, s.mem;
    var h := s.holders[t];
    var p := m.list[h.left - 1];
    assert HolderOk(m, h);
    var (m', h') := Access(m, h, pick);
    if m.producers[p].inactive {
      forall u | 0 <= u < |s.holders| ensures Has(s.holders[u]) != Some(p) { InactiveIsUnowned(s, p, u); }
      HolderSteps(s, t, m', h', p);
    } else {
      QuietKeeps(s, t, h');
    }
  }

  /** A step that changes nothing but the holder, who has no producer before or after. */
  lemma QuietKeeps(s: State, t: nat, h': Holder)
    requires Inv(s) && t < |s.holders| && Has(s.holders[t]) == None && Has(h') == None && HolderOk(s.mem, h')
    ensures Inv(State(s.mem, s.holders[t := h']))
  {
    HolderSteps(s, t, s.mem, h', |s.mem.producers|);
  }

  lemma TicketKeeps(s: State, pick: Pick)
    requires Inv(s) && Enabled(s, pick) && s.holders[pick.holder].Ticket?
    ensures Inv(Step(s, pick))
  {
    var t, m := pick.holder, s.mem;
    var (m', h') := Access(m, s.holders[t], pick);
    if h'.Activate? {
      forall u | 0 <= u < |s.holders| ensures Has(s.holders[u]) != Some(m.nextTicket) { PooledIsUnowned(s, m.nextTicket, u); }
      HolderSteps(s, t, m', h', m.nextTicket);
    } else {
      HolderSteps(s, t, m', h', |m.producers|);
    }
  }

  lemma OwnKeeps(s: State, pick: Pick)
    requires Inv(s) && Enabled(s, pick)
    requires var h := s.holders[pick.holder]; h.Activate? || h.Link? || h.With?
    ensures Inv(Step(s, pick))
  {
    var t, m := pick.holder, s.mem;
    var h := s.holders[t];
    assert HolderOk(m, h);
    var (m', h') := Access(m, h, pick);
    assert m'.producers[h.producer].isExplicit == m.producers[h.producer].isExplicit;
    if h.Link? { LinkList(m, h.producer); }
    HolderSteps(s, t, m', h', h.producer);
  }

  lemma LinkList(m: Memory, p: nat)
    requires MemoryOk(m) && p < |m.producers| && p !in m.list
    ensures p in m.list + [p] && forall i, j :: 0 <= i < j < |m.list + [p]| ==> (m.list + [p])[i] != (m.list + [p])[j]
    ensures forall q :: q != p ==> (q in m.list + [p] <==> q in m.list)
  {
  }

  lemma MakeKeeps(s: State, pick: Pick)
    requires Inv(s) && Enabled(s, pick) && s.holders[pick.holder].Make?
    ensures Inv(Step(s, pick))
  {
    var t, m := pick.holder, s.mem;
    var (m', h') := Access(m, s.holders[t], pick);
    forall u | 0 <= u < |s.holders| ensures Has(s.holders[u]) != Some(|m.producers|) { assert HolderOk(m, s.holders[u]); }
    HolderSteps(s, t, m', h', |m.producers|);
  }

  /** Every access is in range and keeps the invariant. */
  lemma StepKeeps(s: State, pick: Pick)
    requires Inv(s) && pick.holder < |s.holders|
    ensures Enabled(s, pick) && Inv(Step(s, pick))
  {
    var t, m := pick.holder, s.mem;
    var h := s.holders[t];
    assert HolderOk(m, h);
    match h
    case Take(_, _) => TakeKeeps(s, pick);
    case Ticket => TicketKeeps(s, pick);
    case Make(_) => MakeKeeps(s, pick);
    case Activate(_) => OwnKeeps(s, pick);
    case Link(_, _) => OwnKeeps(s, pick);
    case With(_, _) => OwnKeeps(s, pick);
    case _ => QuietKeeps(s, t, Access(m, h, pick).1);
  }

  // ---- Runs -----------------------------------------------------------------------------------------------------

  ghost predicate Run(states: seq<State>, picks: seq<Pick>) {
    && |states| == |picks| + 1
    && (exists poolSize: nat, holders: nat :: states[0] == Init(poolSize, holders))
    && (forall i :: 0 <= i < |picks| ==> Follows(states[i], picks[i], states[i + 1]))
  }

  predicate Follows(s: State, pick: Pick, s': State) {
    pick.holder < |s.holders| && (Enabled(s, pick) ==> s' == Step(s, pick))
  }

  lemma {:induction false} RunInv(states: seq<State>, picks: seq<Pick>, i: nat)
    requires Run(states, picks) && i < |states|
    ensures Inv(states[i])
  {
    if i == 0 {
      var poolSize: nat, holders: nat :| states[0] == Init(poolSize, holders);
    } else {
      RunInv(states, picks, i - 1);
      assert Follows(states[i - 1], picks[i - 1], states[i]);
      StepKeeps(states[i - 1], picks[i - 1]);
    }
  }

  /** In every state of every run no two holders have the same producer, each has one of the kind it asked for, and
      every producer is in the pool, or has an owner, or waits on the list to be recycled. */
  lemma ProducersAreExclusive(states: seq<State>, picks: seq<Pick>, i: nat)
    requires Run(states, picks) && i < |states|
    ensures var m, hs := states[i].mem, states[i].holders;
      && (forall t, u :: 0 <= t < |hs| && 0 <= u < |hs| && t != u && hs[t].With? && hs[u].With? ==> hs[t].producer != hs[u].producer)
      && (forall t :: 0 <= t < |hs| && hs[t].With? ==> hs[t].producer < |m.producers| && m.producers[hs[t].producer].isExplicit == hs[t].isExplicit)
      && (forall p: nat :: p < |m.producers| ==> Pooled(m, p) || Owned(hs, p) || Waits(m, p))
  {
    RunInv(states, picks, i);
    var m, hs := states[i].mem, states[i].holders;
    assert forall t :: 0 <= t < |hs| ==> HolderOk(m, hs[t]);
    assert forall t, u :: 0 <= t < |hs| && 0 <= u < |hs| && t != u && Has(hs[t]).Some? ==> Has(hs[t]) != Has(hs[u]);
  }
}
