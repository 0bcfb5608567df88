/** What a bulk dequeue of no elements does to an implicit producer's sub-queue (external/cameron314/concurrentqueue.h,
    ImplicitProducer::dequeue_bulk with max 0): it claims nothing, but looks up the block at the head index and counts
    none of its elements off.  If the block is drained in between, it takes itself for the consumer that has drained it. */
module ImplicitEmptyClaims {
  import opened Blocks
  import opened ImplicitIndex
  import opened ImplicitQueue
  import opened Options
  import Arithmetic
  import C = DequeueCounters
  import D = ImplicitDequeues
  import K = ImplicitConsumers
  import R = ImplicitRuns

  // ---- Putting a run together -------------------------------------------------------------------------------------

  /** The access is in range. */
  predicate InRange<V(!new)>(bs: nat, s: D.State<V>, pick: D.Pick<V>) {
    D.Legal(s, pick) && (D.QueuePick(s, pick).Some? ==> Enabled(bs, s.queue, D.QueuePick(s, pick).value))
  }

  /** A run of two consumers, with every access in range. */
  ghost predicate EndsIn<V(!new)>(bs: nat, states: seq<D.State<V>>, picks: seq<D.Pick<V>>, s: D.State<V>) {
    && D.Run(bs, states, picks) && states[|picks|] == s
    && forall i :: 0 <= i < |picks| ==> InRange(bs, states[i], picks[i])
  }

  ghost predicate Reached<V(!new)>(bs: nat, s: D.State<V>) { exists states, picks :: EndsIn(bs, states, picks, s) }

  lemma ReachedNext<V(!new)>(bs: nat, s: D.State<V>, pick: D.Pick<V>, s': D.State<V>)
    requires Reached(bs, s) && InRange(bs, s, pick) && D.Follows(bs, s, pick, s')
    ensures Reached(bs, s')
  {
    var states, picks :| EndsIn(bs, states, picks, s);
    var states', picks' := states + [s'], picks + [pick];
    hide D.Follows, InRange;
    assert states'[0] == states[0];
    forall i | 0 <= i < |picks'| ensures D.Follows(bs, states'[i], picks'[i], states'[i + 1]) && InRange(bs, states'[i], picks'[i]) {
      if i < |picks| { assert D.Follows(bs, states[i], picks[i], states[i + 1]) && InRange(bs, states[i], picks[i]); }
    }
    assert EndsIn(bs, states', picks', s');
  }

  /** The producer's part of a state. */
  function With<V(!new)>(s: D.State<V>, m: Memory<V>, p: Producer<V>): D.State<V> { s.(queue := State(m, p, s.queue.consumers)) }

  /** One access of the producer. */
  lemma Produces<V(!new)>(bs: nat, s: D.State<V>, pick: Pick<V>) returns (s': D.State<V>)
    requires Reached(bs, s) && pick.Produce? && |s.threads| == |s.queue.consumers|
    requires Shape(bs, s.queue.mem) && ProducerInRange(s.queue.mem, s.queue.producer)
    ensures Reached(bs, s')
    ensures var (m, p) := ProducerStep(bs, s.queue.mem, s.queue.producer, pick); s' == With(s, m, p)
  {
    hide Reached, Shape, ProducerStep, ProducerInRange;
    var (m, p) := ProducerStep(bs, s.queue.mem, s.queue.producer, pick);
    s' := With(s, m, p);
    ReachedNext(bs, s, D.Produce(pick), s');
  }

  /** A consumer's part of a state. */
  function Moved<V(!new)>(s: D.State<V>, t: nat, m: Memory<V>, c: Consumer<V>): D.State<V>
    requires t < |s.queue.consumers|
  { s.(queue := State(m, s.queue.producer, s.queue.consumers[t := c])) }

  /** One access of a consumer with a claim. */
  lemma Consumes<V(!new)>(bs: nat, s: D.State<V>, t: nat) returns (s': D.State<V>)
    requires Reached(bs, s) && t < |s.threads| == |s.queue.consumers| && !s.queue.consumers[t].CIdle?
    requires Shape(bs, s.queue.mem) && ConsumerInRange(s.queue.mem, s.queue.consumers[t])
    ensures Reached(bs, s')
    ensures var (m, c) := ConsumerStep(bs, s.queue.mem, s.queue.consumers[t], 1); s' == Moved(s, t, m, c)
  {
    hide Reached, Shape, ConsumerStep, ConsumerInRange;
    var (m, c) := ConsumerStep(bs, s.queue.mem, s.queue.consumers[t], 1);
    s' := Moved(s, t, m, c);
    ReachedNext(bs, s, D.Consume(t, C.Single), s');
  }

  /** One access of a thread to the counters, before its claim. */
  lemma Counts<V(!new)>(bs: nat, s: D.State<V>, t: nat, want: C.Want) returns (s': D.State<V>)
    requires Reached(bs, s) && t < |s.threads| == |s.queue.consumers| && s.queue.consumers[t].CIdle? && !s.threads[t].Take?
    ensures Reached(bs, s')
    ensures var (m, pc) := C.Access(D.Counters(s).mem, s.threads[t], want);
            s' == D.State(s.queue, m.optimisticCount, m.overcommit, s.threads[t := pc])
  {
    hide Reached, C.Access;
    var (m, pc) := C.Access(D.Counters(s).mem, s.threads[t], want);
    s' := D.State(s.queue, m.optimisticCount, m.overcommit, s.threads[t := pc]);
    ReachedNext(bs, s, D.Consume(t, want), s');
  }

  /** The access that makes the claim. */
  lemma Takes<V(!new)>(bs: nat, s: D.State<V>, t: nat, n: nat) returns (s': D.State<V>)
    requires Reached(bs, s) && t < |s.threads| == |s.queue.consumers| && s.queue.consumers[t].CIdle? && s.threads[t] == C.Take(n)
    requires Shape(bs, s.queue.mem) && s.queue.mem.q.headIndex + n <= s.queue.mem.q.tailIndex
    ensures Reached(bs, s')
    ensures var h := s.queue.mem.q.headIndex;
            s' == Moved(s, t, s.queue.mem.(q := s.queue.mem.q.(headIndex := h + n)), CHeader(Job(h, h, h, h + n, 0, 0, 0, [])))
                  .(threads := s.threads[t := C.Idle(h, n)])
  {
    hide Reached, Shape;
    var h := s.queue.mem.q.headIndex;
    s' := Moved(s, t, s.queue.mem.(q := s.queue.mem.q.(headIndex := h + n)), CHeader(Job(h, h, h, h + n, 0, 0, 0, [])))
          .(threads := s.threads[t := C.Idle(h, n)]);
    ReachedNext(bs, s, D.Consume(t, C.Single), s');
  }

  /** A thread alone at the counters claims what it wants of what there is. */
  lemma Claims<V(!new)>(bs: nat, s: D.State<V>, t: nat, n: nat) returns (s': D.State<V>)
    requires Reached(bs, s) && t < |s.threads| == |s.queue.consumers| && s.queue.consumers[t].CIdle? && s.threads[t].Idle?
    requires Shape(bs, s.queue.mem) && s.queue.mem.q.headIndex + n <= s.queue.mem.q.tailIndex && s.queue.mem.q.headIndex < s.queue.mem.q.tailIndex
    requires s.optimisticCount == s.queue.mem.q.headIndex && s.overcommit == 0
    ensures Reached(bs, s')
    ensures var h := s.queue.mem.q.headIndex;
            s' == Moved(s, t, s.queue.mem.(q := s.queue.mem.q.(headIndex := h + n)), CHeader(Job(h, h, h, h + n, 0, 0, 0, [])))
                  .(optimisticCount := h + n, threads := s.threads[t := C.Idle(h, n)])
  {
    hide Reached, Shape;
    var q, want := s.queue.mem.q, C.Bulk(n);
    var h := q.headIndex;
    s' := Counts(bs, s, t, want);
    assert s' == s.(threads := s.threads[t := C.LoadOvercommit(q.tailIndex, want)]);
    s' := Counts(bs, s', t, want);
    assert s' == s.(threads := s.threads[t := C.LoadOptimistic(q.tailIndex, 0, want)]);
    s' := Counts(bs, s', t, want);
    assert s' == s.(threads := s.threads[t := C.Claim(0, n)]);
    s' := Counts(bs, s', t, want);
    assert s' == s.(optimisticCount := h + n, threads := s.threads[t := C.Check(h, 0, n)]);
    s' := Counts(bs, s', t, want);
    assert s' == s.(optimisticCount := h + n, threads := s.threads[t := C.Take(n)]);
    s' := Takes(bs, s', t, n);
    assert s.threads[t := C.Take(n)][t := C.Idle(h, n)] == s.threads[t := C.Idle(h, n)];
  }

  // ---- The index ----------------------------------------------------------------------------------------------------

  /** An index of four entries that has never been full: block k has entry k. */
  function Ix(bs: nat, count: nat, high: nat, values: seq<Option<nat>>): Index
    requires |values| == 4
  {
    Index([Header(4, (count - 1) % 4, [0, 1, 2, 3], 0, count)],
          seq(4, e requires 0 <= e < 4 => Entry(if e < high then Some(e * bs) else None, values[e])), 0, high)
  }

  const NO_VALUES: seq<Option<nat>> := [None, None, None, None]

  lemma IxStart(bs: nat)
    ensures Init(4) == Ix(bs, 0, 0, NO_VALUES)
  {
    assert Init(4).headers[0].index == [0, 1, 2, 3];
    assert Init(4).entries == Ix(bs, 0, 0, NO_VALUES).entries;
  }

  lemma IxHeader(bs: nat, count: nat, high: nat, values: seq<Option<nat>>)
    requires |values| == 4
    ensures HeaderOk(Ix(bs, count, high, values), Current(Ix(bs, count, high, values)))
  {
  }

  lemma IxKey(bs: nat, k: nat, values: seq<Option<nat>>)
    requires |values| == 4 && k < 3
    ensures var ix := Ix(bs, k, k, values);
            && HeaderOk(ix, Current(ix)) && NextEntryId(ix) == k && HasRoom(ix) && StoreKey(bs, ix) == Ix(bs, k, k + 1, values)
  {
    var ix := Ix(bs, k, k, values);
    assert Current(ix).index[k] == k;
    assert StoreKey(bs, ix).entries == Ix(bs, k, k + 1, values).entries;
  }

  lemma IxTail(bs: nat, k: nat, values: seq<Option<nat>>)
    requires |values| == 4 && k < 3
    ensures var ix := Ix(bs, k, k + 1, values); HeaderOk(ix, Current(ix)) && StoreTail(ix) == Ix(bs, k + 1, k + 1, values)
  {
  }

  lemma IxValue(bs: nat, k: nat, values: seq<Option<nat>>, e: nat, v: Option<nat>)
    requires |values| == 4 && e < 4
    ensures StoreValue(Ix(bs, k, k, values), e, v) == Ix(bs, k, k, values[e := v])
  {
    assert StoreValue(Ix(bs, k, k, values), e, v).entries == Ix(bs, k, k, values[e := v]).entries;
  }

  // ---- The producer ----------------------------------------------------------------------------------------------------

  /** A sub-queue with one storage block. */
  function Mem<V>(q: Queue<V>, ix: Index, elements: seq<Option<V>>, dequeued: nat, holder: Option<nat>): Memory<V> {
    Memory(q, ix, Store([Block(elements, dequeued)], [holder]))
  }

  lemma MemShape<V>(bs: nat, q: Queue<V>, count: nat, high: nat, values: seq<Option<nat>>, elements: seq<Option<V>>, dequeued: nat, holder: Option<nat>)
    requires bs > 1 && |values| == 4 && |elements| == bs
    ensures Shape(bs, Mem(q, Ix(bs, count, high, values), elements, dequeued, holder))
  {
    IxHeader(bs, count, high, values);
  }

  function Bare<V>(bs: nat): seq<Option<V>> { seq(bs, _ => None) }

  /** A call that needs one block makes room for it in the index. */
  lemma Enters<V(!new)>(bs: nat, s: D.State<V>, items: seq<V>, k: nat, values: seq<Option<nat>>) returns (s': D.State<V>)
    requires Reached(bs, s) && |s.threads| == |s.queue.consumers| && s.queue.producer.PIdle? && bs > 1 && k < 3 && |values| == 4
    requires s.queue.mem.ix == Ix(bs, k, k, values) && |s.queue.mem.store.holder| == |s.queue.mem.store.blocks|
    requires forall b :: 0 <= b < |s.queue.mem.store.blocks| ==> |s.queue.mem.store.blocks[b].elements| == bs
    requires BlockCount(bs, s.queue.mem.q.tailIndex + |items|) == BlockCount(bs, s.queue.mem.q.tailIndex) + 1
    ensures Reached(bs, s')
    ensures s' == With(s, s.queue.mem.(ix := Ix(bs, k + 1, k + 1, values)), PGet(items, [], k))
  {
    var m, pick := s.queue.mem, Produce(items, false, Nothing);
    IxKey(bs, k, values);
    IxTail(bs, k, values);
    StartShape(bs, m, k, k, values);
    StartShape(bs, m.(ix := Ix(bs, k, k + 1, values)), k, k + 1, values);
    hide Reached, BlockCount, Ix, Shape, StoreKey, StoreTail, HasRoom, NextEntryId;
    s' := Produces(bs, s, pick);
    assert s' == With(s, m, PRoom(items, []));
    s' := Produces(bs, s', pick);
    assert s' == With(s, m, PKey(items, []));
    s' := Produces(bs, s', pick);
    assert s' == With(s, m.(ix := Ix(bs, k, k + 1, values)), PTail(items, [], k));
    s' := Produces(bs, s', pick);
  }

  /** The block is put in the index, and is the only one the call needs. */
  lemma Puts<V(!new)>(bs: nat, s: D.State<V>, items: seq<V>, k: nat, values: seq<Option<nat>>, e: seq<Option<V>>) returns (s': D.State<V>)
    requires Reached(bs, s) && |s.threads| == |s.queue.consumers| && |e| == bs > 1 && k < 3 && |values| == 4 && items != []
    requires s.queue.producer == PValue(items, [], k, 0) && s.queue.mem == Mem(s.queue.mem.q, Ix(bs, k + 1, k + 1, values), e, 0, Some(k))
    requires BlockCount(bs, s.queue.mem.q.tailIndex + |items|) == BlockCount(bs, s.queue.mem.q.tailIndex) + 1
    ensures Reached(bs, s')
    ensures s' == With(s, Mem(s.queue.mem.q, Ix(bs, k + 1, k + 1, values[k := Some(0)]), e, 0, Some(k)), PFill(items, [0], 0))
  {
    MemShape(bs, s.queue.mem.q, k + 1, k + 1, values, e, 0, Some(k));
    IxValue(bs, k + 1, values, k, Some(0));
    hide Reached, BlockCount, Ix, Shape, StoreValue;
    assert [] + [0] == [0];
    s' := Produces(bs, s, Produce(items, false, Nothing));
  }

  /** A call that needs one block gets it, made new, or block 0 from the free list. */
  lemma Begins<V(!new)>(bs: nat, s: D.State<V>, items: seq<V>, k: nat, values: seq<Option<nat>>, e: seq<Option<V>>, n: nat, made: bool)
    returns (s': D.State<V>)
    requires Reached(bs, s) && |s.threads| == |s.queue.consumers| && s.queue.producer.PIdle? && bs > 1 && k < 3 && |values| == 4 && |e| == bs
    requires |s.queue.mem.q.blockOf| == k && s.queue.mem.ix == Ix(bs, k, k, values) && items != []
    requires s.queue.mem.store == if made then Store([], []) else Store([Block(e, n)], [None])
    requires made ==> e == Bare<V>(bs)
    requires BlockCount(bs, s.queue.mem.q.tailIndex + |items|) == BlockCount(bs, s.queue.mem.q.tailIndex) + 1
    ensures Reached(bs, s')
    ensures s' == With(s, Mem(s.queue.mem.q, Ix(bs, k + 1, k + 1, values[k := Some(0)]), e, 0, Some(k)), PFill(items, [0], 0))
  {
    hide Reached, BlockCount, Ix;
    s' := Enters(bs, s, items, k, values);
    s' := GetsBlock(bs, s', items, k, values, e, n, made);
    s' := Puts(bs, s', items, k, values, e);
  }

  lemma StartShape<V>(bs: nat, m: Memory<V>, count: nat, high: nat, values: seq<Option<nat>>)
    requires bs > 1 && |values| == 4 && m.ix == Ix(bs, count, high, values)
    requires |m.store.holder| == |m.store.blocks| && forall b :: 0 <= b < |m.store.blocks| ==> |m.store.blocks[b].elements| == bs
    ensures Shape(bs, m) && |m.ix.entries| == 4
  {
    IxHeader(bs, count, high, values);
  }

  lemma GetsBlock<V(!new)>(bs: nat, s: D.State<V>, items: seq<V>, k: nat, values: seq<Option<nat>>, e: seq<Option<V>>, n: nat, made: bool)
    returns (s': D.State<V>)
    requires Reached(bs, s) && |s.threads| == |s.queue.consumers| && bs > 1 && k < 3 && |values| == 4 && |e| == bs
    requires s.queue.producer == PGet(items, [], k) && |s.queue.mem.q.blockOf| == k && s.queue.mem.ix == Ix(bs, k + 1, k + 1, values)
    requires s.queue.mem.store == if made then Store([], []) else Store([Block(e, n)], [None])
    requires made ==> e == Bare<V>(bs)
    ensures Reached(bs, s')
    ensures s' == With(s, Mem(s.queue.mem.q, s.queue.mem.ix, e, 0, Some(k)), PValue(items, [], k, 0))
  {
    hide Reached, Ix;
    var q, ix, pick := s.queue.mem.q, s.queue.mem.ix, Produce(items, false, if made then NewBlock else FromFreeList(0));
    StartShape(bs, s.queue.mem, k + 1, k + 1, values);
    s' := Produces(bs, s, pick);
    assert s'.queue.mem.store == Store([Block(e, if made then 0 else n)], [Some(k)]);
    assert s' == With(s, Mem(q, ix, e, if made then 0 else n, Some(k)), PReset(items, [], k, 0));
    MemShape(bs, q, k + 1, k + 1, values, e, if made then 0 else n, Some(k));
    s' := Produces(bs, s', pick);
    assert s'.queue.mem.store == Store([Block(e, 0)], [Some(k)]);
  }

  /** The elements after the first d items have been constructed from index tail on. */
  function Filled<V>(bs: nat, e: seq<Option<V>>, tail: nat, items: seq<V>, d: nat): (r: seq<Option<V>>)
    requires |e| == bs > 0 && d <= |items|
    ensures |r| == bs
  { if d == 0 then e else Filled(bs, e, tail, items, d - 1)[(tail + d - 1) % bs := Some(items[d - 1])] }

  /** All blocks the call writes to have the one storage block. */
  lemma {:induction false} Fills<V(!new)>(bs: nat, s: D.State<V>, items: seq<V>, count: nat, values: seq<Option<nat>>, e: seq<Option<V>>, holder: Option<nat>, d: nat)
    returns (s': D.State<V>)
    requires Reached(bs, s) && |s.threads| == |s.queue.consumers| && |e| == bs > 1 && d < |items| && |values| == 4
    requires s.queue.producer == PFill(items, [0], d) && (forall k :: 0 <= k < |s.queue.mem.q.blockOf| ==> s.queue.mem.q.blockOf[k] == 0)
    requires var q := s.queue.mem.q;
             && s.queue.mem == Mem(q, Ix(bs, count, count, values), Filled(bs, e, q.tailIndex, items, d), 0, holder)
             && BlockNo(bs, q.tailIndex + |items| - 1) <= |q.blockOf|
    ensures Reached(bs, s')
    ensures var q := s.queue.mem.q;
            s' == With(s, Mem(q, s.queue.mem.ix, Filled(bs, e, q.tailIndex, items, |items|), 0, holder), PPublish(items, [0]))
    decreases |items| - d
  {
    hide Reached, Ix;
    var q, ix := s.queue.mem.q, s.queue.mem.ix;
    MemShape(bs, q, count, count, values, Filled(bs, e, q.tailIndex, items, d), 0, holder);
    DivMonotone(q.tailIndex + d, q.tailIndex + |items| - 1, bs);
    assert Target(bs, q, [0], q.tailIndex + d) == Some(0);
    s' := Produces(bs, s, Produce(items, false, Nothing));
    assert s'.queue.mem == Mem(q, ix, Filled(bs, e, q.tailIndex, items, d + 1), 0, holder);
    if d + 1 < |items| { s' := Fills(bs, s', items, count, values, e, holder, d + 1); }
  }

  /** What a call that succeeds leaves behind. */
  function Appended<V>(q: Queue<V>, items: seq<V>): Queue<V> {
    q.(tailIndex := q.tailIndex + |items|, log := q.log + items, blockOf := q.blockOf + [0])
  }

  /** A whole call of the producer, for which the storage block has to do. */
  lemma Enqueues<V(!new)>(bs: nat, s: D.State<V>, items: seq<V>, k: nat, values: seq<Option<nat>>, e: seq<Option<V>>, n: nat, made: bool)
    returns (s': D.State<V>)
    requires Reached(bs, s) && |s.threads| == |s.queue.consumers| && s.queue.producer.PIdle? && bs > 1 && k < 3 && |values| == 4 && |e| == bs
    requires |s.queue.mem.q.blockOf| == k && s.queue.mem.ix == Ix(bs, k, k, values) && items != []
    requires s.queue.mem.store == if made then Store([], []) else Store([Block(e, n)], [None])
    requires made ==> e == Bare<V>(bs)
    requires var q := s.queue.mem.q;
             && BlockCount(bs, q.tailIndex + |items|) == BlockCount(bs, q.tailIndex) + 1 && BlockNo(bs, q.tailIndex + |items| - 1) <= k
             && (forall x :: 0 <= x < |q.blockOf| ==> q.blockOf[x] == 0)
    ensures Reached(bs, s')
    ensures var q := s.queue.mem.q;
            s' == With(s, Mem(Appended(q, items), Ix(bs, k + 1, k + 1, values[k := Some(0)]),
                              Filled(bs, e, q.tailIndex, items, |items|), 0, Some(k)), PIdle(true))
  {
    hide Reached, BlockCount, BlockNo, Ix;
    var q, values' := s.queue.mem.q, values[k := Some(0)];
    s' := Begins(bs, s, items, k, values, e, n, made);
    s' := Fills(bs, s', items, k + 1, values', e, Some(k), 0);
    MemShape(bs, q, k + 1, k + 1, values', Filled(bs, e, q.tailIndex, items, |items|), 0, Some(k));
    s' := Produces(bs, s', Produce(items, false, Nothing));
  }

  function AllOf<V>(n: nat, v: V): seq<V> { seq(n, _ => v) }

  lemma {:induction false} FilledAt<V>(bs: nat, e: seq<Option<V>>, tail: nat, items: seq<V>, d: nat, l: nat, v: V)
    requires |e| == bs > 0 && l < d <= |items| && d <= bs && forall x :: 0 <= x < |items| ==> items[x] == v
    ensures Filled(bs, e, tail, items, d)[(tail + l) % bs] == Some(v)
  {
    if l < d - 1 { FilledAt(bs, e, tail, items, d - 1, l, v); }
  }

  /** As many items as the block has room for take all of it. */
  lemma FilledAll<V>(bs: nat, e: seq<Option<V>>, tail: nat, v: V)
    requires |e| == bs > 0
    ensures Filled(bs, e, tail, AllOf(bs, v), bs) == AllOf(bs, Some(v))
  {
    var r := Filled(bs, e, tail, AllOf(bs, v), bs);
    forall x | 0 <= x < bs ensures r[x] == Some(v) {
      var l := (x - tail) % bs;
      Arithmetic.RingShift(x - tail, tail, bs);
      Arithmetic.RingSmall(x, bs);
      FilledAt(bs, e, tail, AllOf(bs, v), bs, l, v);
    }
  }

  // ---- Two consumers ------------------------------------------------------------------------------------------------

  /** A claim on the first n elements. */
  function From0<V>(n: nat): Job<V> { Job(0, 0, 0, n, 0, 0, 0, []) }

  lemma LookupFirst(bs: nat, values: seq<Option<nat>>)
    requires bs > 0 && |values| == 4
    ensures var h := Ix(bs, 1, 1, values).headers[0];
            && h.tail == 0 && h.count == 1 && h.capacity == 4 && h.index == [0, 1, 2, 3] && |Ix(bs, 1, 1, values).entries| == 4
            && Ix(bs, 1, 1, values).entries[0] == Entry(Some(0), values[0]) && LookupSlot(bs, h, 0, 0, BlockNo(bs, 0) * bs) == 0
            && |Ix(bs, 1, 1, values).headers| == 1
  {
    Arithmetic.RingSmall(0, bs);
  }

  /** A consumer with such a claim comes to its block's entry. */
  lemma LooksUp<V(!new)>(bs: nat, s: D.State<V>, t: nat, n: nat, values: seq<Option<nat>>) returns (s': D.State<V>)
    requires Reached(bs, s) && t < |s.threads| == |s.queue.consumers| && s.queue.consumers[t] == CHeader(From0(n))
    requires bs > 1 && |values| == 4 && s.queue.mem.ix == Ix(bs, 1, 1, values) && Shape(bs, s.queue.mem)
    ensures Reached(bs, s') && s' == Moved(s, t, s.queue.mem, CValue(From0(n)))
  {
    var m := s.queue.mem;
    LookupFirst(bs, values);
    hide Reached, Shape, Ix, LookupSlot, BlockNo;
    s' := Consumes(bs, s, t);
    assert s' == Moved(s, t, m, CTail(From0(n)));
    s' := Consumes(bs, s', t);
    assert s' == Moved(s, t, m, CKey(From0(n), 0));
    s' := Consumes(bs, s', t);
  }

  /** The elements from d on are left. */
  function Left<V>(bs: nat, d: nat, v: V): seq<Option<V>> { seq(bs, x => if x < d then None else Some(v)) }

  /** A consumer with the whole block moves the rest of it out. */
  lemma {:induction false} MovesOut<V(!new)>(bs: nat, s: D.State<V>, t: nat, v: V, d: nat, values: seq<Option<nat>>, holder: Option<nat>)
    returns (s': D.State<V>)
    requires Reached(bs, s) && t < |s.threads| == |s.queue.consumers| && bs > 1 && d < bs && |values| == 4
    requires s.queue.consumers[t] == CMove(From0<V>(bs).(cur := d, got := AllOf(d, v)))
    requires s.queue.mem == Mem(s.queue.mem.q, Ix(bs, 1, 1, values), Left(bs, d, v), 0, holder)
    ensures Reached(bs, s')
    ensures var q := s.queue.mem.q;
            s' == Moved(s, t, Mem(q.(moved := q.moved + Range(d, bs)), s.queue.mem.ix, Bare(bs), 0, holder),
                        CEmpty(From0<V>(bs).(cur := bs, got := AllOf(bs, v))))
    decreases bs - d
  {
    LookupFirst(bs, values);
    hide Reached, Ix;
    var q, ix := s.queue.mem.q, s.queue.mem.ix;
    MemShape(bs, q, 1, 1, values, Left(bs, d, v), 0, holder);
    Arithmetic.RingSmall(d, bs);
    s' := Consumes(bs, s, t);
    assert Left(bs, d, v)[d := None] == Left(bs, d + 1, v) && AllOf(d, v) + [v] == AllOf(d + 1, v);
    assert s'.queue.mem == Mem(q.(moved := q.moved + {d}), ix, Left(bs, d + 1, v), 0, holder);
    if d + 1 < bs {
      Arithmetic.RingSmall(d + 1, bs);
      s' := MovesOut(bs, s', t, v, d + 1, values, holder);
      assert q.moved + {d} + Range(d + 1, bs) == q.moved + Range(d, bs);
    } else {
      assert q.moved + {d} == q.moved + Range(d, bs) && Left(bs, bs, v) == Bare(bs);
    }
  }

  // ---- The run ----------------------------------------------------------------------------------------------------------

  /** A state between calls of the producer. */
  function Between<V>(m: Memory<V>, c0: Consumer<V>, c1: Consumer<V>, optimistic: nat, taken: nat): D.State<V> {
    D.State(State(m, PIdle(true), [c0, c1]), optimistic, 0, [C.Idle(0, taken), C.Idle(0, 0)])
  }

  /** A block's worth of elements has been enqueued. */
  function Full<V>(bs: nat, v: V): Memory<V> {
    Mem(Queue(bs, 0, AllOf(bs, v), [0], {}, {}, {}, {}), Ix(bs, 1, 1, NO_VALUES[0 := Some(0)]), AllOf(bs, Some(v)), 0, Some(0))
  }

  /** And dequeued. */
  function Drained<V>(bs: nat, v: V): Memory<V> {
    Mem(Queue(bs, bs, AllOf(bs, v), [0], {0}, {0}, Range(0, bs), Range(0, bs)), Ix(bs, 1, 1, NO_VALUES), Bare(bs), bs, None)
  }

  lemma Counting(bs: nat)
    requires bs > 1
    ensures BlockCount(bs, 0) == 0 && BlockCount(bs, bs) == 1 && BlockCount(bs, bs + 1) == 2 && BlockCount(bs, bs + 1 + bs) == 3
    ensures BlockNo(bs, 0) == 0 && BlockNo(bs, bs - 1) == 0 && BlockNo(bs, bs) == 1 && BlockNo(bs, bs + 1 + bs - 1) == 2 && bs % bs == 0
  {
    Arithmetic.QuotientRemainder(bs - 1, bs, 0, bs - 1);
    Arithmetic.QuotientRemainder(bs + bs - 1, bs, 1, bs - 1);
    Arithmetic.QuotientRemainder(bs + 1 + bs - 1, bs, 2, 0);
    Arithmetic.QuotientRemainder(bs + 1 + bs + bs - 1, bs, 3, 0);
    Arithmetic.QuotientRemainder(0, bs, 0, 0);
    Arithmetic.QuotientRemainder(bs, bs, 1, 0);
  }

  lemma FirstCall<V(!new)>(bs: nat, v: V) returns (s: D.State<V>)
    requires bs > 1
    ensures Reached(bs, s) && s == Between(Full(bs, v), CIdle(0, []), CIdle(0, []), 0, 0)
  {
    s := D.Start(4, 2);
    IxStart(bs);
    Counting(bs);
    FilledAll(bs, Bare<V>(bs), 0, v);
    assert EndsIn(bs, [s], [], s);
    hide Reached, Ix, BlockCount, BlockNo, Filled;
    assert s.queue.consumers == [CIdle(0, []), CIdle(0, [])] && s.threads == [C.Idle(0, 0), C.Idle(0, 0)];
    s := Enqueues(bs, s, AllOf(bs, v), 0, NO_VALUES, Bare(bs), 0, true);
    assert [] + AllOf(bs, v) == AllOf(bs, v) && [] + [0] == [0];
  }

  /** The second consumer asks for no elements, and comes to the entry of the first block. */
  lemma AsksForNone<V(!new)>(bs: nat, v: V) returns (s: D.State<V>)
    requires bs > 1
    ensures Reached(bs, s) && s == Between(Full(bs, v), CIdle(0, []), CValue(From0(0)), 0, 0)
  {
    hide Reached, Ix;
    s := FirstCall(bs, v);
    MemShape(bs, s.queue.mem.q, 1, 1, NO_VALUES[0 := Some(0)], AllOf(bs, Some(v)), 0, Some(0));
    s := Claims(bs, s, 1, 0);
    assert s == Between(Full(bs, v), CIdle(0, []), CHeader(From0(0)), 0, 0);
    s := LooksUp(bs, s, 1, 0, NO_VALUES[0 := Some(0)]);
  }

  /** The first consumer takes the whole block, whatever the second one is doing, and puts it on the free list. */
  lemma Drains<V(!new)>(bs: nat, v: V, s: D.State<V>, c1: Consumer<V>) returns (s': D.State<V>)
    requires bs > 1 && Reached(bs, s) && s == Between(Full(bs, v), CIdle(0, []), c1, 0, 0)
    ensures Reached(bs, s') && s' == Between(Drained(bs, v), CIdle(0, AllOf(bs, v)), c1, bs, bs)
  {
    var values, q := NO_VALUES[0 := Some(0)], s.queue.mem.q;
    var q' := q.(headIndex := bs);
    MemShape(bs, q, 1, 1, values, AllOf(bs, Some(v)), 0, Some(0));
    MemShape(bs, q', 1, 1, values, AllOf(bs, Some(v)), 0, Some(0));
    LookupFirst(bs, values);
    hide Reached, Ix, Shape;
    s' := Claims(bs, s, 0, bs);
    assert s' == Between(Full(bs, v).(q := q'), CHeader(From0(bs)), c1, bs, bs);
    s' := LooksUp(bs, s', 0, bs, values);
    assert s' == Between(Full(bs, v).(q := q'), CValue(From0(bs)), c1, bs, bs);
    s' := Consumes(bs, s', 0);
    assert s' == Between(Full(bs, v).(q := q'), CMove(From0(bs)), c1, bs, bs);
    assert AllOf(bs, Some(v)) == Left(bs, 0, v) && AllOf(0, v) == [];
    s' := MovesOut(bs, s', 0, v, 0, values, Some(0));
    assert {} + Range(0, bs) == Range(0, bs);
    s' := Frees(bs, v, s', c1);
  }

  /** The job of the consumer that has moved everything out. */
  function Done<V>(bs: nat, v: V): Job<V> { Job(0, bs, bs, bs, 0, 0, 0, AllOf(bs, v)) }

  lemma Frees<V(!new)>(bs: nat, v: V, s: D.State<V>, c1: Consumer<V>) returns (s': D.State<V>)
    requires bs > 1 && Reached(bs, s)
    requires s == Between(Mem(Queue(bs, bs, AllOf(bs, v), [0], {}, {}, Range(0, bs), {}), Ix(bs, 1, 1, NO_VALUES[0 := Some(0)]), Bare(bs), 0, Some(0)),
                          CEmpty(Done(bs, v).(from := 0)), c1, bs, bs)
    ensures Reached(bs, s') && s' == Between(Drained(bs, v), CIdle(0, AllOf(bs, v)), c1, bs, bs)
  {
    var values, q := NO_VALUES[0 := Some(0)], s.queue.mem.q;
    var q1 := q.(counted := Range(0, bs));
    var q2 := q1.(cleared := {0});
    MemShape(bs, q, 1, 1, values, Bare<V>(bs), 0, Some(0));
    MemShape(bs, q1, 1, 1, values, Bare<V>(bs), bs, Some(0));
    MemShape(bs, q2, 1, 1, NO_VALUES, Bare<V>(bs), bs, Some(0));
    LookupFirst(bs, values);
    LookupFirst(bs, NO_VALUES);
    IxValue(bs, 1, values, 0, None);
    Counting(bs);
    hide Reached, Ix, Shape, StoreValue, BlockNo;
    assert values[0 := None] == NO_VALUES;
    s' := Consumes(bs, s, 0);
    assert {} + Range(0, bs) == Range(0, bs);
    assert s' == Between(Mem(q1, Ix(bs, 1, 1, values), Bare(bs), bs, Some(0)), CClear(Done(bs, v)), c1, bs, bs);
    s' := Consumes(bs, s', 0);
    assert {} + {0} == {0};
    assert s' == Between(Mem(q2, Ix(bs, 1, 1, NO_VALUES), Bare(bs), bs, Some(0)), CFree(Done(bs, v)), c1, bs, bs);
    s' := Consumes(bs, s', 0);
  }

  /** The second consumer, which loaded the block before, counts none of its elements off and finds it drained. */
  lemma CountsNone<V(!new)>(bs: nat, v: V) returns (s: D.State<V>)
    requires bs > 1
    ensures Reached(bs, s) && s == Between(Drained(bs, v), CIdle(0, AllOf(bs, v)), CClear(From0(0)), bs, bs)
  {
    var values := NO_VALUES[0 := Some(0)];
    s := AsksForNone(bs, v);
    MemShape(bs, s.queue.mem.q, 1, 1, values, AllOf(bs, Some(v)), 0, Some(0));
    LookupFirst(bs, values);
    LookupFirst(bs, NO_VALUES);
    MemShape(bs, Drained(bs, v).q, 1, 1, NO_VALUES, Bare<V>(bs), bs, None);
    hide Reached, Ix, Shape;
    s := Consumes(bs, s, 1);
    assert s == Between(Full(bs, v), CIdle(0, []), CEmpty(From0(0)), 0, 0);
    s := Drains(bs, v, s, CEmpty(From0(0)));
    s := Consumes(bs, s, 1);
    assert Range(0, bs) + Range(0, 0) == Range(0, bs);
  }

  // ---- What goes wrong ------------------------------------------------------------------------------------------------

  datatype Fault =
    | NoBlock      // a consumer has come to an entry without a block, which the source would follow
    | FreedTwice   // a consumer is about to put a block on the free list that was put there before
    | NotHeld      // an element that was not dequeued is in a block on the free list
    | Overwritten  // an element that was not dequeued is no longer in the storage of its block

  predicate AtNoBlock<V>(m: Memory<V>, c: Consumer<V>) {
    && c.CValue? && c.job.header < |m.ix.headers| && c.job.slot < |m.ix.headers[c.job.header].index|
    && var e := m.ix.headers[c.job.header].index[c.job.slot]; e < |m.ix.entries| && m.ix.entries[e].value == None
  }

  /** Element x has not been dequeued, and has storage. */
  predicate Live<V>(bs: nat, m: Memory<V>, x: nat)
    requires bs > 0
  {
    && x < |m.q.log| && x !in m.q.moved && BlockNo(bs, x) < |m.q.blockOf| && |m.store.holder| == |m.store.blocks|
    && m.q.blockOf[BlockNo(bs, x)] < |m.store.blocks| && |m.store.blocks[m.q.blockOf[BlockNo(bs, x)]].elements| == bs
  }

  ghost predicate Has<V>(bs: nat, s: State<V>, fault: Fault)
    requires bs > 0
  {
    match fault
    case NoBlock => exists t :: 0 <= t < |s.consumers| && AtNoBlock(s.mem, s.consumers[t])
    case FreedTwice => exists t :: 0 <= t < |s.consumers| && s.consumers[t].CFree? && CountsIn(bs, s.consumers[t].job) in s.mem.q.freed
    case NotHeld => exists x: nat :: Live(bs, s.mem, x) && s.mem.store.holder[s.mem.q.blockOf[BlockNo(bs, x)]] == None
    case Overwritten =>
      exists x: nat :: Live(bs, s.mem, x) && s.mem.store.blocks[s.mem.q.blockOf[BlockNo(bs, x)]].elements[x % bs] != Some(s.mem.q.log[x])
  }

  /** A load after the first consumer has cleared the entry. */
  lemma ComesTooLate<V(!new)>(bs: nat, v: V) returns (s: D.State<V>)
    requires bs > 1
    ensures Reached(bs, s) && Has(bs, s.queue, NoBlock)
  {
    LookupFirst(bs, NO_VALUES);
    hide Reached, Ix;
    s := AsksForNone(bs, v);
    s := Drains(bs, v, s, CValue(From0(0)));
    assert AtNoBlock(s.queue.mem, s.queue.consumers[1]);
  }

  lemma AboutToFreeAgain<V(!new)>(bs: nat, v: V) returns (s: D.State<V>)
    requires bs > 1
    ensures Reached(bs, s) && Has(bs, s.queue, FreedTwice)
  {
    s := CountsNone(bs, v);
    LookupFirst(bs, NO_VALUES);
    MemShape(bs, Drained(bs, v).q, 1, 1, NO_VALUES, Bare<V>(bs), bs, None);
    Counting(bs);
    hide Reached, Ix, Shape, StoreValue;
    s := Consumes(bs, s, 1);
    assert s.queue.consumers[1] == CFree(From0(0)) && CountsIn(bs, From0<V>(0)) == 0 && s.queue.mem.q.freed == {0};
  }

  /** One more element is enqueued into the block, now the second, before the second consumer goes on and frees it. */
  function Reused<V>(bs: nat, v: V, w: V, holder: Option<nat>): Memory<V>
    requires bs > 0
  {
    Mem(Queue(bs + 1, bs, AllOf(bs, v) + [w], [0, 0], {0}, {0}, Range(0, bs), Range(0, bs)),
        Ix(bs, 2, 2, NO_VALUES[1 := Some(0)]), Bare(bs)[0 := Some(w)], 0, holder)
  }

  lemma EnqueuesMore<V(!new)>(bs: nat, v: V, w: V) returns (s: D.State<V>)
    requires bs > 1
    ensures Reached(bs, s) && s == Between(Reused(bs, v, w, Some(1)), CIdle(0, AllOf(bs, v)), CClear(From0(0)), bs, bs)
  {
    s := CountsNone(bs, v);
    Counting(bs);
    assert Filled(bs, Bare<V>(bs), bs, [w], 1) == Bare(bs)[0 := Some(w)];
    hide Reached, Ix, BlockCount, BlockNo, Filled;
    s := Enqueues(bs, s, [w], 1, NO_VALUES, Bare(bs), bs, false);
    assert [0] + [0] == [0, 0];
  }

  lemma SecondHeader(bs: nat, values: seq<Option<nat>>)
    requires |values| == 4
    ensures var ix := Ix(bs, 2, 2, values); |ix.headers| == 1 && ix.headers[0].index == [0, 1, 2, 3] && ix.headers[0].capacity == 4 && |ix.entries| == 4
  {
  }

  lemma FreesALiveBlock<V(!new)>(bs: nat, v: V, w: V) returns (s: D.State<V>)
    requires bs > 1
    ensures Reached(bs, s) && s == Between(Reused(bs, v, w, None), CIdle(0, AllOf(bs, v)), CIdle(0, []), bs, bs)
  {
    var values := NO_VALUES[1 := Some(0)];
    s := EnqueuesMore(bs, v, w);
    SecondHeader(bs, values);
    MemShape(bs, s.queue.mem.q, 2, 2, values, Bare(bs)[0 := Some(w)], 0, Some(1));
    IxValue(bs, 2, values, 0, None);
    Counting(bs);
    hide Reached, Ix, Shape, StoreValue, BlockNo;
    assert values[0 := None] == values && {0} + {0} == {0};
    s := Consumes(bs, s, 1);
    assert s == Between(Reused(bs, v, w, Some(1)), CIdle(0, AllOf(bs, v)), CFree(From0(0)), bs, bs);
    s := Consumes(bs, s, 1);
  }

  lemma OnTheFreeList<V(!new)>(bs: nat, v: V, w: V) returns (s: D.State<V>)
    requires bs > 1
    ensures Reached(bs, s) && Has(bs, s.queue, NotHeld)
  {
    hide Reached, Ix;
    s := FreesALiveBlock(bs, v, w);
    Counting(bs);
    assert Live(bs, s.queue.mem, bs);
  }

  /** Another block's worth of elements takes the block once more. */
  lemma Overwrites<V(!new)>(bs: nat, v: V, w: V) returns (s: D.State<V>)
    requires bs > 1 && v != w
    ensures Reached(bs, s) && Has(bs, s.queue, Overwritten)
  {
    s := FreesALiveBlock(bs, v, w);
    Counting(bs);
    var e := Bare(bs)[0 := Some(w)];
    FilledAll(bs, e, bs + 1, v);
    hide Reached, Ix, BlockCount, Filled;
    s := Enqueues(bs, s, AllOf(bs, v), 2, NO_VALUES[1 := Some(0)], e, 0, false);
    assert s.queue.mem.q.log[bs] == w && s.queue.mem.q.blockOf == [0, 0] + [0];
    assert Live(bs, s.queue.mem, bs) && s.queue.mem.store.blocks[0].elements[0] == Some(v);
  }

  // ---- And exactly when ---------------------------------------------------------------------------------------------------

  /** In no state of any run in which every dequeue asks for at least so many elements. */
  ghost predicate Never<V(!new)>(bs: nat, least: nat, fault: Fault)
    requires bs > 0
  {
    forall states: seq<D.State<V>>, picks: seq<D.Pick<V>>, i: nat ::
      D.Run(bs, states, picks) && D.AsksFor(picks, least) && i < |states| ==> !Has(bs, states[i].queue, fault)
  }

  lemma NoFault<V>(bs: nat, s: State<V>, fault: Fault)
    requires Inv(bs, s)
    ensures !Has(bs, s, fault)
  {
    match fault
    case NoBlock =>
      forall t | 0 <= t < |s.consumers| ensures !AtNoBlock(s.mem, s.consumers[t]) { HasItsBlock(bs, s, t); }
    case FreedTwice =>
      forall t | 0 <= t < |s.consumers| && s.consumers[t].CFree? ensures CountsIn(bs, s.consumers[t].job) !in s.mem.q.freed {
        K.OneConsumer(bs, s, t);
      }
    case NotHeld =>
      forall x: nat | Live(bs, s.mem, x) ensures s.mem.store.holder[s.mem.q.blockOf[BlockNo(bs, x)]] == Some(BlockNo(bs, x)) {
        Uncounted(bs, s, x);
        K.LiveBlock(bs, s.mem, s.producer, x);
      }
    case Overwritten =>
      forall x: nat | Live(bs, s.mem, x)
        ensures s.mem.store.blocks[s.mem.q.blockOf[BlockNo(bs, x)]].elements[x % bs] == Some(s.mem.q.log[x])
      {
        R.StillStored(bs, s.mem, s.producer, x);
      }
  }

  lemma Uncounted<V>(bs: nat, s: State<V>, x: nat)
    requires Inv(bs, s) && x < |s.mem.q.log| && x !in s.mem.q.moved
    ensures x !in s.mem.q.counted && x < s.mem.q.tailIndex
  {
  }

  lemma HasItsBlock<V>(bs: nat, s: State<V>, t: nat)
    requires Inv(bs, s) && t < |s.consumers|
    ensures !AtNoBlock(s.mem, s.consumers[t])
  {
    hide MemoryOk, ConsumersOk;
    K.OneConsumer(bs, s, t);
    if s.consumers[t].CValue? {
      var j := s.consumers[t].job;
      Uncounted(bs, s, j.cur) by { K.QueueFacts(bs, s.mem, s.producer); }
      K.LiveBlock(bs, s.mem, s.producer, j.cur);
      K.ValueFinds(bs, s.mem.q, s.mem.ix, j, BlockNo(bs, j.cur));
    }
  }

  lemma Witness<V(!new)>(bs: nat, fault: Fault, v: V, w: V) returns (s: D.State<V>)
    requires bs > 1 && v != w
    ensures Reached(bs, s) && Has(bs, s.queue, fault)
  {
    hide Reached, Has;
    match fault
    case NoBlock => s := ComesTooLate(bs, v);
    case FreedTwice => s := AboutToFreeAgain(bs, v);
    case NotHeld => s := OnTheFreeList(bs, v, w);
    case Overwritten => s := Overwrites(bs, v, w);
  }

  /** None of these happens in any run exactly if no dequeue asks for no elements. */
  lemma EmptyClaimsExactly<V(!new)>(bs: nat, least: nat, fault: Fault, v: V, w: V)
    requires bs > 1 && v != w
    ensures Never<V>(bs, least, fault) <==> least > 0
  {
    hide Has;
    if least > 0 {
      forall states: seq<D.State<V>>, picks: seq<D.Pick<V>>, i: nat | D.Run(bs, states, picks) && D.AsksFor(picks, least) && i < |states|
        ensures !Has(bs, states[i].queue, fault)
      {
        D.RunInv(bs, states, picks, i);
        NoFault(bs, states[i].queue, fault);
      }
    } else {
      var s := Witness(bs, fault, v, w);
      var states, picks :| EndsIn(bs, states, picks, s);
      assert D.AsksFor(picks, least) && states[|picks|] == s;
    }
  }
}
