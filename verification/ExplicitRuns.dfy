/** The consumers of an explicit producer's sub-queue, and what every run of it is sure of. */
module ExplicitRuns {
  import opened Blocks
  import opened ExplicitRing
  import opened Options
  import Arithmetic

  // ---- What a consumer's step does to the others ---------------------------------------------------

  ghost predicate Touches<V>(q: Queue<V>, q': Queue<V>, c: Consumer<V>) {
    && q'.log == q.log && q'.blockOf == q.blockOf && q'.tailIndex == q.tailIndex && q.headIndex <= q'.headIndex <= |q.log|
    && q.moved <= q'.moved && q.flagged <= q'.flagged
    && (forall i :: i in q'.moved && i !in q.moved ==> !c.CIdle? && c.job.from <= i < c.job.end)
    && (forall i :: i in q'.flagged && i !in q.flagged ==> !c.CIdle? && c.job.from <= i < c.job.end)
  }

  lemma OtherKeeps<V>(bs: nat, q: Queue<V>, q': Queue<V>, hs: seq<Header>, c: Consumer<V>, d: Consumer<V>)
    requires bs > 0 && ConsumerOk(bs, q, hs, d) && Touches(q, q', c) && Apart(c, d)
    ensures ConsumerOk(bs, q', hs, d)
  {
    if !d.CIdle? { assert JobOk(q', d.job); }
  }

  /** A claim shrinks from the front. */
  ghost predicate Proceeds<V>(c: Consumer<V>, c': Consumer<V>) {
    c'.CIdle? || (!c.CIdle? && c.job.from <= c'.job.from && c'.job.end == c.job.end)
  }

  lemma OthersKeep<V>(bs: nat, q: Queue<V>, q': Queue<V>, hs: seq<Header>, cs: seq<Consumer<V>>, t: nat, c': Consumer<V>)
    requires bs > 0 && ConsumersOk(bs, q, hs, cs) && t < |cs|
    requires Touches(q, q', cs[t]) && ConsumerOk(bs, q', hs, c')
    requires forall u :: 0 <= u < |cs| && u != t ==> Apart(c', cs[u])
    ensures ConsumersOk(bs, q', hs, cs[t := c'])
  {
    forall u | 0 <= u < |cs| && u != t ensures ConsumerOk(bs, q', hs, cs[u]) {
      assert Apart(cs[t], cs[u]);
      OtherKeeps(bs, q, q', hs, cs[t], cs[u]);
    }
  }

  lemma ProceedsApart<V>(bs: nat, q: Queue<V>, hs: seq<Header>, cs: seq<Consumer<V>>, t: nat, c': Consumer<V>)
    requires bs > 0 && ConsumersOk(bs, q, hs, cs) && t < |cs| && Proceeds(cs[t], c')
    ensures forall u :: 0 <= u < |cs| && u != t ==> Apart(c', cs[u])
  {
    forall u | 0 <= u < |cs| && u != t ensures Apart(c', cs[u]) {
      assert Apart(cs[t], cs[u]);
    }
  }

  /** A step that takes the memory to m' within what Touches allows. */
  lemma WriteKeeps<V>(bs: nat, s: State<V>, t: nat, m': Memory<V>, c': Consumer<V>)
    requires Inv(bs, s) && t < |s.consumers| && MemoryOk(bs, m', s.producer) && m'.headers == s.mem.headers
    requires Touches(s.mem.q, m'.q, s.consumers[t]) && ConsumerOk(bs, m'.q, m'.headers, c')
    requires forall u :: 0 <= u < |s.consumers| && u != t ==> Apart(c', s.consumers[u])
    ensures Inv(bs, State(m', s.producer, s.consumers[t := c']))
  {
    assert bs > 0;
    hide MemoryOk;
    OthersKeep(bs, s.mem.q, m'.q, s.mem.headers, s.consumers, t, c');
  }

  lemma ReadKeeps<V>(bs: nat, s: State<V>, t: nat, c': Consumer<V>)
    requires Inv(bs, s) && t < |s.consumers| && ConsumerOk(bs, s.mem.q, s.mem.headers, c') && Proceeds(s.consumers[t], c')
    ensures Inv(bs, State(s.mem, s.producer, s.consumers[t := c']))
  {
    QueueFacts(bs, s.mem, s.producer);
    hide MemoryOk, ConsumersOk;
    ProceedsApart(bs, s.mem.q, s.mem.headers, s.consumers, t, c');
    WriteKeeps(bs, s, t, s.mem, c');
  }

  lemma QueueFacts<V>(bs: nat, m: Memory<V>, p: Producer<V>)
    requires MemoryOk(bs, m, p)
    ensures bs > 1 && QueueOk(bs, m.q) && Shape(bs, m) && 0 <= Low(m.q, m.ring)
  {
  }

  lemma OneConsumer<V>(bs: nat, s: State<V>, t: nat)
    requires Inv(bs, s) && t < |s.consumers|
    ensures bs > 1 && QueueOk(bs, s.mem.q) && ConsumerOk(bs, s.mem.q, s.mem.headers, s.consumers[t])
  {
  }

  // ---- Lookup ----------------------------------------------------------------------------------------

  /** A block with an element not yet flagged is still in the ring, so every header that knows it has its
      entry, and its storage is the one it was given. */
  lemma LiveBlock<V>(bs: nat, m: Memory<V>, p: Producer<V>, i: nat)
    requires MemoryOk(bs, m, p) && i < m.q.tailIndex && i !in m.q.flagged
    ensures var k := BlockNo(bs, i);
            && Low(m.q, m.ring) <= k < |m.q.blockOf| && m.q.blockOf[k] < |m.store|
            && (forall g :: 0 <= g < |m.headers| && k < m.headers[g].count ==> HeaderOk(m.headers[g]) && EntryIs(bs, m.q, m.headers[g], k))
            && |m.store[m.q.blockOf[k]].elements| == bs && m.store[m.q.blockOf[k]].elements[i % bs] == Expected(m.q, p, i)
  {
    BlockNoBelow(bs, i, m.q.tailIndex);
    Started(bs, m.q.tailIndex);
  }

  /** The same for a later block that the header knows. */
  lemma LaterEntry<V>(bs: nat, m: Memory<V>, p: Producer<V>, i: nat, g: nat, k: nat)
    requires MemoryOk(bs, m, p) && i < m.q.tailIndex && i !in m.q.flagged
    requires g < |m.headers| && BlockNo(bs, i) <= k < m.headers[g].count
    ensures HeaderOk(m.headers[g]) && EntryIs(bs, m.q, m.headers[g], k)
  {
  }

  lemma HeaderFinds<V>(bs: nat, m: Memory<V>, p: Producer<V>, j: Job<V>)
    requires MemoryOk(bs, m, p) && ConsumerOk(bs, m.q, m.headers, CHeader(j))
    ensures ConsumerOk(bs, m.q, m.headers, CFront(j.(header := |m.headers| - 1)))
  {
    BlockNoBelow(bs, j.end - 1, m.q.tailIndex);
    Started(bs, m.q.tailIndex);
  }

  lemma FrontFinds<V>(bs: nat, m: Memory<V>, p: Producer<V>, j: Job<V>)
    requires MemoryOk(bs, m, p) && ConsumerOk(bs, m.q, m.headers, CFront(j))
    ensures HeaderOk(m.headers[j.header]) && m.headers[j.header].count > 0
    ensures 0 <= m.headers[j.header].front < m.headers[j.header].size
    ensures ConsumerOk(bs, m.q, m.headers, CBase(j.(slot := m.headers[j.header].front), m.headers[j.header].count - 1))
  {
  }

  /** The signed offset from the published front entry leads to the slot of the claimed element's block. */
  lemma BaseFinds<V>(bs: nat, q: Queue<V>, hs: seq<Header>, j: Job<V>, top: nat)
    requires bs > 0 && ConsumerOk(bs, q, hs, CBase(j, top)) && HeaderOk(hs[j.header]) && EntryIs(bs, q, hs[j.header], top)
    ensures j.slot < |hs[j.header].entries| && hs[j.header].entries[j.slot] == Some(Entry(top * bs, q.blockOf[top]))
    ensures ConsumerOk(bs, q, hs, CBlock(j.(slot := LookupSlot(bs, hs[j.header], j.slot, top * bs, BlockNo(bs, j.cur) * bs))))
  {
    var k, h := BlockNo(bs, j.cur), hs[j.header];
    Arithmetic.Distribute(k, top, bs);
    Arithmetic.QuotientRemainder((k - top) * bs, bs, k - top, 0);
    Arithmetic.RingShift(top + h.off, k - top, h.size);
  }

  lemma BlockFinds<V>(bs: nat, q: Queue<V>, hs: seq<Header>, j: Job<V>)
    requires bs > 0 && ConsumerOk(bs, q, hs, CBlock(j)) && HeaderOk(hs[j.header]) && EntryIs(bs, q, hs[j.header], BlockNo(bs, j.cur))
    ensures j.slot < |hs[j.header].entries|
    ensures hs[j.header].entries[j.slot] == Some(Entry(BlockNo(bs, j.cur) * bs, q.blockOf[BlockNo(bs, j.cur)]))
    ensures ConsumerOk(bs, q, hs, CMove(j.(block := q.blockOf[BlockNo(bs, j.cur)])))
  {
  }

  lemma ClaimReaches<V>(bs: nat, hs: seq<Header>, j: Job<V>, i: nat)
    requires bs > 0 && Reaches(bs, hs, j) && i < j.end
    ensures BlockNo(bs, i) < hs[j.header].count
  {
    DivMonotone(i, j.end - 1, bs);
  }

  // ---- Moving out and flagging -------------------------------------------------------------------------

  lemma ClaimMemory<V>(bs: nat, m: Memory<V>, p: Producer<V>, head: nat)
    requires MemoryOk(bs, m, p) && m.q.headIndex <= head <= m.q.tailIndex
    ensures MemoryOk(bs, m.(q := m.q.(headIndex := head)), p)
  {
    var q' := m.q.(headIndex := head);
    QueueFacts(bs, m, p);
    ClaimIndex(bs, m.q, q', m.ring, m.headers, p);
    SameElements(bs, m.q, q', m.ring, m.store, m.store, p, p);
    SameFlags(bs, m.q, q', m.ring, m.ring, m.store, m.store, p, p);
    hide IndexOk, ElementsOk, FlagsOk;
  }

  lemma ClaimIndex<V>(bs: nat, q: Queue<V>, q': Queue<V>, r: Ring, hs: seq<Header>, p: Producer<V>)
    requires IndexOk(bs, q, r, hs, p) && q'.blockOf == q.blockOf
    ensures IndexOk(bs, q', r, hs, p)
  {
    forall g, k: nat | 0 <= g < |hs| && Low(q, r) <= k < hs[g].count ensures EntryIs(bs, q', hs[g], k) {
      assert EntryIs(bs, q, hs[g], k);
    }
    forall k: nat | Low(q, r) <= k < Entered(q, p) ensures EntryIs(bs, q', Current(hs), k) {
      assert EntryIs(bs, q, Current(hs), k);
    }
  }

  /** Different blocks of the ring have different storage. */
  lemma OwnStorage<V>(bs: nat, q: Queue<V>, r: Ring, n: nat, j: nat, k: nat)
    requires bs > 0 && RingOk(bs, q, r, n) && Low(q, r) <= j < |q.blockOf| && Low(q, r) <= k < |q.blockOf| && j != k
    ensures q.blockOf[j] != q.blockOf[k]
  {
    assert q.blockOf[j] == r.blocks[j - Low(q, r)] && q.blockOf[k] == r.blocks[k - Low(q, r)];
  }

  lemma MoveElements<V>(bs: nat, q: Queue<V>, r: Ring, store: seq<Block<V>>, p: Producer<V>, i: nat)
    requires bs > 0 && QueueOk(bs, q) && RingOk(bs, q, r, |store|) && ElementsOk(bs, q, r, store, p)
    requires i < q.headIndex && Low(q, r) <= BlockNo(bs, i) < |q.blockOf| && q.blockOf[BlockNo(bs, i)] < |store|
    ensures var b := q.blockOf[BlockNo(bs, i)];
            |store[b].elements| == bs && ElementsOk(bs, q.(moved := q.moved + {i}), r, store[b := MoveOut(bs, store[b], i)], p)
  {
    var k := BlockNo(bs, i);
    var b := q.blockOf[k];
    assert b == r.blocks[k - Low(q, r)];
    var q', store' := q.(moved := q.moved + {i}), store[b := MoveOut(bs, store[b], i)];
    forall x: nat | Low(q, r) <= BlockNo(bs, x) < |q.blockOf|
      ensures q.blockOf[BlockNo(bs, x)] < |store'|
      ensures store'[q.blockOf[BlockNo(bs, x)]].elements[x % bs] == Expected(q', p, x)
    {
      if x != i {
        assert Expected(q', p, x) == Expected(q, p, x);
        if BlockNo(bs, x) != k { OwnStorage(bs, q, r, |store|, BlockNo(bs, x), k); }
        else if x % bs == i % bs { Arithmetic.SameParts(x, i, bs); }
      }
    }
  }

  lemma MoveMemory<V>(bs: nat, m: Memory<V>, p: Producer<V>, i: nat)
    requires MemoryOk(bs, m, p) && i < m.q.headIndex
    requires Low(m.q, m.ring) <= BlockNo(bs, i) < |m.q.blockOf| && m.q.blockOf[BlockNo(bs, i)] < |m.store|
    ensures var b := m.q.blockOf[BlockNo(bs, i)];
            && |m.store[b].elements| == bs
            && MemoryOk(bs, m.(q := m.q.(moved := m.q.moved + {i}), store := m.store[b := MoveOut(bs, m.store[b], i)]), p)
  {
    hide IndexOk, ElementsOk, FlagsOk;
    var q := m.q;
    QueueFacts(bs, m, p);
    MoveElements(bs, q, m.ring, m.store, p, i);
    var b := q.blockOf[BlockNo(bs, i)];
    var q', store' := q.(moved := q.moved + {i}), m.store[b := MoveOut(bs, m.store[b], i)];
    ClaimIndex(bs, q, q', m.ring, m.headers, p);
    SameFlags(bs, q, q', m.ring, m.ring, m.store, store', p, p);
  }

  lemma FlagFlags<V>(bs: nat, q: Queue<V>, r: Ring, store: seq<Block<V>>, p: Producer<V>, i: nat)
    requires bs > 0 && RingOk(bs, q, r, |store|) && StoreShape(bs, store) && FlagsOk(bs, q, r, store, p)
    requires Low(q, r) <= BlockNo(bs, i) < |q.blockOf| && q.blockOf[BlockNo(bs, i)] < |store|
    requires p.PReset? ==> BlockNo(bs, i) < |q.blockOf| - 1
    ensures var b := q.blockOf[BlockNo(bs, i)];
            FlagsOk(bs, q.(flagged := q.flagged + {i}), r, store[b := SetFlag(bs, store[b], i)], p)
  {
    var k := BlockNo(bs, i);
    var b := q.blockOf[k];
    assert b == r.blocks[k - Low(q, r)];
    var q', store' := q.(flagged := q.flagged + {i}), store[b := SetFlag(bs, store[b], i)];
    forall x: nat | Low(q, r) <= BlockNo(bs, x) < (if p.PReset? then |q.blockOf| - 1 else |q.blockOf|)
      ensures q.blockOf[BlockNo(bs, x)] < |store'|
      ensures store'[q.blockOf[BlockNo(bs, x)]].flags[bs - 1 - x % bs] <==> x in q'.flagged
    {
      if x != i {
        if BlockNo(bs, x) != k { OwnStorage(bs, q, r, |store|, BlockNo(bs, x), k); }
        else if x % bs == i % bs { Arithmetic.SameParts(x, i, bs); }
      }
    }
    if p.PReset? {
      TailIsLast(bs, q, r, |store|);
      OwnStorage(bs, q, r, |store|, k, |q.blockOf| - 1);
    }
  }

  lemma FlagMemory<V>(bs: nat, m: Memory<V>, p: Producer<V>, i: nat)
    requires MemoryOk(bs, m, p) && i in m.q.moved && i !in m.q.flagged
    ensures var k := BlockNo(bs, i);
            && Low(m.q, m.ring) <= k < |m.q.blockOf| && m.q.blockOf[k] < |m.store| && |m.store[m.q.blockOf[k]].flags| == bs
            && MemoryOk(bs, m.(q := m.q.(flagged := m.q.flagged + {i}),
                               store := m.store[m.q.blockOf[k] := SetFlag(bs, m.store[m.q.blockOf[k]], i)]), p)
  {
    var q := m.q;
    QueueFacts(bs, m, p);
    LiveBlock(bs, m, p, i);
    hide IndexOk, ElementsOk, FlagsOk;
    BlockNoBelow(bs, i, q.tailIndex);
    Started(bs, q.tailIndex);
    FlagFlags(bs, q, m.ring, m.store, p, i);
    var b := q.blockOf[BlockNo(bs, i)];
    var q', store' := q.(flagged := q.flagged + {i}), m.store[b := SetFlag(bs, m.store[b], i)];
    ClaimIndex(bs, q, q', m.ring, m.headers, p);
    SameElements(bs, q, q', m.ring, m.store, store', p, p);
  }

  // ---- Each step of a consumer keeps the invariant ------------------------------------------------------

  lemma BlockInHand<V>(bs: nat, m: Memory<V>, p: Producer<V>, c: Consumer<V>)
    requires MemoryOk(bs, m, p) && ConsumerOk(bs, m.q, m.headers, c)
    ensures c.CMove? || c.CFlag? ==> c.job.block < |m.store|
  {
    if c.CMove? {
      LiveBlock(bs, m, p, c.job.cur);
    } else if c.CFlag? {
      LiveBlock(bs, m, p, c.job.from);
    }
  }

  lemma ConsumerRuns<V>(bs: nat, s: State<V>, t: nat, want: nat)
    requires Inv(bs, s) && t < |s.consumers|
    ensures Enabled(bs, s, Consume(t, want))
  {
    hide MemoryOk, ConsumersOk, QueueOk, JobOk;
    OneConsumer(bs, s, t);
    QueueFacts(bs, s.mem, s.producer);
    BlockInHand(bs, s.mem, s.producer, s.consumers[t]);
    if s.consumers[t].CFront? { FrontFinds(bs, s.mem, s.producer, s.consumers[t].job); }
  }

  /** A claim starts where all earlier claims have ended. */
  lemma ClaimApart<V>(bs: nat, q: Queue<V>, hs: seq<Header>, cs: seq<Consumer<V>>, c': Consumer<V>)
    requires bs > 0 && ConsumersOk(bs, q, hs, cs) && c'.CHeader? && c'.job.from == q.headIndex
    ensures forall u :: 0 <= u < |cs| ==> Apart(c', cs[u])
  {
    forall u | 0 <= u < |cs| ensures Apart(c', cs[u]) {
      assert ConsumerOk(bs, q, hs, cs[u]);
    }
  }

  lemma ClaimStep<V>(bs: nat, s: State<V>, t: nat, want: nat)
    requires Inv(bs, s) && Enabled(bs, s, Consume(t, want)) && s.consumers[t].CIdle?
    ensures Inv(bs, Step(bs, s, Consume(t, want)))
  {
    hide MemoryOk, ConsumersOk;
    var m, h := s.mem, s.mem.q.headIndex;
    if want > 0 && h + want <= m.q.tailIndex {
      var c' := CHeader(Job(h, h, h, h + want, 0, 0, 0, []));
      QueueFacts(bs, m, s.producer);
      ClaimMemory(bs, m, s.producer, h + want);
      ClaimApart(bs, m.q, m.headers, s.consumers, c');
      WriteKeeps(bs, s, t, m.(q := m.q.(headIndex := h + want)), c');
    } else {
      assert s.consumers[t := s.consumers[t]] == s.consumers;
    }
  }

  lemma HeaderStep<V>(bs: nat, s: State<V>, t: nat, want: nat)
    requires Inv(bs, s) && Enabled(bs, s, Consume(t, want)) && (s.consumers[t].CHeader? || s.consumers[t].CFront?)
    ensures Inv(bs, Step(bs, s, Consume(t, want))) && Step(bs, s, Consume(t, want)).consumers[t] != s.consumers[t]
  {
    hide MemoryOk, ConsumersOk, QueueOk, JobOk, Slot;
    var m, p, c := s.mem, s.producer, s.consumers[t];
    OneConsumer(bs, s, t);
    if c.CHeader? {
      HeaderFinds(bs, m, p, c.job);
      ReadKeeps(bs, s, t, CFront(c.job.(header := |m.headers| - 1)));
    } else {
      FrontFinds(bs, m, p, c.job);
      ReadKeeps(bs, s, t, CBase(c.job.(slot := m.headers[c.job.header].front), m.headers[c.job.header].count - 1));
    }
  }

  lemma BaseStep<V>(bs: nat, s: State<V>, t: nat, want: nat, j: Job<V>, top: nat)
    requires Inv(bs, s) && Enabled(bs, s, Consume(t, want)) && s.consumers[t] == CBase(j, top)
    ensures Inv(bs, Step(bs, s, Consume(t, want))) && Step(bs, s, Consume(t, want)).consumers[t] != s.consumers[t]
  {
    hide MemoryOk, ConsumersOk, Slot, LookupSlot;
    var m, p := s.mem, s.producer;
    OneConsumer(bs, s, t);
    DivMonotone(j.cur, j.end - 1, bs);
    LaterEntry(bs, m, p, j.cur, j.header, top);
    BaseFinds(bs, m.q, m.headers, j, top);
    ReadKeeps(bs, s, t, CBlock(j.(slot := LookupSlot(bs, m.headers[j.header], j.slot, top * bs, BlockNo(bs, j.cur) * bs))));
  }

  lemma BlockStep<V>(bs: nat, s: State<V>, t: nat, want: nat, j: Job<V>)
    requires Inv(bs, s) && Enabled(bs, s, Consume(t, want)) && s.consumers[t] == CBlock(j)
    ensures Inv(bs, Step(bs, s, Consume(t, want))) && Step(bs, s, Consume(t, want)).consumers[t] != s.consumers[t]
  {
    hide MemoryOk, ConsumersOk, Slot;
    var m, p := s.mem, s.producer;
    OneConsumer(bs, s, t);
    LiveBlock(bs, m, p, j.cur);
    ClaimReaches(bs, m.headers, j, j.cur);
    BlockFinds(bs, m.q, m.headers, j);
    ReadKeeps(bs, s, t, CMove(j.(block := m.q.blockOf[BlockNo(bs, j.cur)])));
  }

  lemma AfterMoveOk<V>(bs: nat, q: Queue<V>, hs: seq<Header>, j: Job<V>)
    requires bs > 0 && QueueOk(bs, q) && ConsumerOk(bs, q, hs, CMove(j))
    ensures ConsumerOk(bs, q.(moved := q.moved + {j.cur}), hs, AfterMove(bs, j, q.log[j.cur]))
  {
    BlockNoNext(bs, j.cur);
    assert q.log[j.first..j.cur + 1] == q.log[j.first..j.cur] + [q.log[j.cur]];
  }

  lemma MoveStep<V>(bs: nat, s: State<V>, t: nat, want: nat, j: Job<V>)
    requires Inv(bs, s) && Enabled(bs, s, Consume(t, want)) && s.consumers[t] == CMove(j)
    ensures j.cur < |s.mem.q.log| && j.cur !in s.mem.q.moved
    ensures var s' := Step(bs, s, Consume(t, want));
            && Inv(bs, s') && s'.consumers[t] == AfterMove(bs, j, s.mem.q.log[j.cur])
            && s'.mem.q == s.mem.q.(moved := s.mem.q.moved + {j.cur})
  {
    hide MemoryOk, ConsumersOk;
    var m, p := s.mem, s.producer;
    OneConsumer(bs, s, t);
    LiveBlock(bs, m, p, j.cur);
    MoveMemory(bs, m, p, j.cur);
    AfterMoveOk(bs, m.q, m.headers, j);
    var c' := AfterMove(bs, j, m.q.log[j.cur]);
    ProceedsApart(bs, m.q, m.headers, s.consumers, t, c');
    WriteKeeps(bs, s, t, m.(q := m.q.(moved := m.q.moved + {j.cur}), store := m.store[j.block := MoveOut(bs, m.store[j.block], j.cur)]), c');
  }

  lemma AfterFlagOk<V>(bs: nat, q: Queue<V>, hs: seq<Header>, j: Job<V>, to: nat, c': Consumer<V>)
    requires bs > 0 && ConsumerOk(bs, q, hs, CFlag(j, to))
    requires c' == if to - 1 != j.from then CFlag(j, to - 1)
                   else if j.cur == j.end then CIdle(j.first, j.got)
                   else CBlock(j.(from := j.cur, slot := (j.slot + 1) % hs[j.header].size))
    ensures ConsumerOk(bs, q.(flagged := q.flagged + {to - 1}), hs, c') && Proceeds(CFlag(j, to), c')
  {
    if to - 1 == j.from && j.cur < j.end {
      BlockNoNext(bs, j.cur - 1);
      Arithmetic.RingShift(BlockNo(bs, j.from) + hs[j.header].off, 1, hs[j.header].size);
    }
  }

  lemma SameBlock(bs: nat, a: nat, i: nat, b: nat)
    requires bs > 0 && a <= i <= b && BlockNo(bs, a) == BlockNo(bs, b)
    ensures BlockNo(bs, i) == BlockNo(bs, a)
  {
    DivMonotone(a, i, bs);
    DivMonotone(i, b, bs);
  }

  lemma FlagStep<V>(bs: nat, s: State<V>, t: nat, want: nat, j: Job<V>, to: nat)
    requires Inv(bs, s) && Enabled(bs, s, Consume(t, want)) && s.consumers[t] == CFlag(j, to)
    ensures Inv(bs, Step(bs, s, Consume(t, want))) && Step(bs, s, Consume(t, want)).consumers[t] != s.consumers[t]
  {
    hide MemoryOk, ConsumersOk, Slot;
    var m, p := s.mem, s.producer;
    var s' := Step(bs, s, Consume(t, want));
    OneConsumer(bs, s, t);
    SameBlock(bs, j.from, to - 1, j.cur - 1);
    FlagMemory(bs, m, p, to - 1);
    AfterFlagOk(bs, m.q, m.headers, j, to, s'.consumers[t]);
    ProceedsApart(bs, m.q, m.headers, s.consumers, t, s'.consumers[t]);
    WriteKeeps(bs, s, t, s'.mem, s'.consumers[t]);
  }

  /** A consumer with a claim never meets an unwritten entry or a missing element: every step of it gets
      somewhere, and every step of any consumer keeps the invariant. */
  lemma ConsumerKeeps<V>(bs: nat, s: State<V>, t: nat, want: nat)
    requires Inv(bs, s) && t < |s.consumers|
    ensures Enabled(bs, s, Consume(t, want)) && Inv(bs, Step(bs, s, Consume(t, want)))
    ensures !s.consumers[t].CIdle? ==> Step(bs, s, Consume(t, want)).consumers[t] != s.consumers[t]
  {
    ConsumerRuns(bs, s, t, want);
    hide Inv, Step;
    match s.consumers[t]
    case CIdle(_, _) => ClaimStep(bs, s, t, want);
    case CHeader(_) => HeaderStep(bs, s, t, want);
    case CFront(_) => HeaderStep(bs, s, t, want);
    case CBase(j, top) => BaseStep(bs, s, t, want, j, top);
    case CBlock(j) => BlockStep(bs, s, t, want, j);
    case CMove(j) => MoveStep(bs, s, t, want, j);
    case CFlag(j, to) => FlagStep(bs, s, t, want, j, to);
  }

  // ---- Runs -----------------------------------------------------------------------------------------------

  predicate Legal<V>(s: State<V>, pick: Pick<V>) { pick.Consume? ==> pick.thread < |s.consumers| }

  predicate Follows<V(==)>(bs: nat, s: State<V>, pick: Pick<V>, s': State<V>) {
    Legal(s, pick) && (Enabled(bs, s, pick) ==> s' == Step(bs, s, pick))
  }

  /** A run: each state comes from the one before by one access, as long as that access is in range. */
  ghost predicate Run<V>(bs: nat, states: seq<State<V>>, picks: seq<Pick<V>>) {
    && bs > 1 && |states| == |picks| + 1
    && (exists size: nat, n: nat :: size > 0 && states[0] == Start(size, n))
    && (forall i :: 0 <= i < |picks| ==> Follows(bs, states[i], picks[i], states[i + 1]))
  }

  lemma StartOk<V>(bs: nat, size: nat, n: nat)
    requires bs > 1 && size > 0
    ensures Inv<V>(bs, Start(size, n))
  {
    var s: State<V> := Start(size, n);
    StartIndexOk(bs, size, s);
    assert BlockCount(bs, 0) == 0 by { Started(bs, 0); }
    assert QueueOk(bs, s.mem.q) && StartedOk(bs, s.mem.q, s.producer) && RingOk(bs, s.mem.q, s.mem.ring, 0);
  }

  lemma StartIndexOk<V>(bs: nat, size: nat, s: State<V>)
    requires bs > 1 && size > 0 && s.mem.q == Queue(0, 0, [], {}, {}, []) && s.mem.ring == Ring([], 0, 0) && s.producer == PIdle(true)
    requires s.mem.headers == [Header(size, seq(size, _ => None), -1, 0, 0)]
    ensures IndexOk(bs, s.mem.q, s.mem.ring, s.mem.headers, s.producer)
  {
    Arithmetic.RingSmall(0, size);
  }

  /** Every access of every thread is in range and keeps the invariant. */
  lemma StepKeeps<V>(bs: nat, s: State<V>, pick: Pick<V>)
    requires Inv(bs, s) && Legal(s, pick)
    ensures Enabled(bs, s, pick) && Inv(bs, Step(bs, s, pick))
  {
    hide Inv, Step;
    match pick
    case Produce(_, _, _, _) => ProducerKeeps(bs, s, pick);
    case Consume(t, want) => ConsumerKeeps(bs, s, t, want);
  }

  lemma {:induction false} RunInv<V>(bs: nat, states: seq<State<V>>, picks: seq<Pick<V>>, i: nat)
    requires Run(bs, states, picks) && i < |states|
    ensures Inv(bs, states[i])
    ensures i < |picks| ==> Enabled(bs, states[i], picks[i]) && states[i + 1] == Step(bs, states[i], picks[i])
  {
    hide Inv, Step, Enabled;
    if i == 0 {
      var size: nat, n: nat :| size > 0 && states[0] == Start(size, n);
      StartOk<V>(bs, size, n);
    } else {
      RunInv(bs, states, picks, i - 1);
      assert Follows(bs, states[i - 1], picks[i - 1], states[i]);
      StepKeeps(bs, states[i - 1], picks[i - 1]);
    }
    if i < |picks| {
      assert Follows(bs, states[i], picks[i], states[i + 1]);
      StepKeeps(bs, states[i], picks[i]);
    }
  }

  /** In every state of every run, whichever header a consumer with a claim has loaded: once it has worked out
      a slot, the entry there has the base of the block its next element is in, and names the storage in
      which that element sits. */
  lemma LookupFindsTheBlock<V>(bs: nat, states: seq<State<V>>, picks: seq<Pick<V>>, i: nat, t: nat)
    requires Run(bs, states, picks) && i < |states| && t < |states[i].consumers| && states[i].consumers[t].CBlock?
    ensures var m, j := states[i].mem, states[i].consumers[t].job;
      && j.header < |m.headers| && j.slot < |m.headers[j.header].entries| && j.cur < |m.q.log|
      && m.headers[j.header].entries[j.slot].Some?
      && var e := m.headers[j.header].entries[j.slot].value;
      && e.base <= j.cur < e.base + bs
      && e.block < |m.store| && |m.store[e.block].elements| == bs
      && m.store[e.block].elements[j.cur % bs] == Some(m.q.log[j.cur])
  {
    RunInv(bs, states, picks, i);
    var s := states[i];
    var m, p, j := s.mem, s.producer, s.consumers[t].job;
    hide MemoryOk, ConsumersOk, Slot, Run;
    OneConsumer(bs, s, t);
    LiveBlock(bs, m, p, j.cur);
    ClaimReaches(bs, m.headers, j, j.cur);
    BlockFinds(bs, m.q, m.headers, j);
    BlockBounds(bs, j.cur);
  }

  // What the current header's entries are.

  /** The entry in slot p is that of one of the blocks entered so far. */
  ghost predicate EntryOfBlock<V>(bs: nat, q: Queue<V>, h: Header, entered: int, p: nat)
    requires HeaderOk(h) && p < h.size
  { exists k: nat :: k < entered && Slot(h, k) == p && EntryIs(bs, q, h, k) }

  ghost predicate EntriesOk<V>(bs: nat, m: Memory<V>, p: Producer<V>) {
    && |m.headers| > 0 && HeaderOk(Current(m.headers))
    && forall x: nat :: x < Current(m.headers).size && Current(m.headers).entries[x].Some? ==>
         EntryOfBlock(bs, m.q, Current(m.headers), Entered(m.q, p), x)
  }

  /** Blocks are only added, and the current header's entries stay where they are. */
  lemma EntriesFrame<V>(bs: nat, m: Memory<V>, p: Producer<V>, m': Memory<V>, p': Producer<V>)
    requires EntriesOk(bs, m, p) && m.q.blockOf <= m'.q.blockOf && Entered(m.q, p) <= Entered(m'.q, p')
    requires |m'.headers| > 0 && HeaderOk(Current(m'.headers))
    requires var h, h' := Current(m.headers), Current(m'.headers); h'.size == h.size && h'.off == h.off && h'.entries == h.entries
    ensures EntriesOk(bs, m', p')
  {
    var h, h' := Current(m.headers), Current(m'.headers);
    forall x: nat | x < h'.size && h'.entries[x].Some? ensures EntryOfBlock(bs, m'.q, h', Entered(m'.q, p'), x) {
      var k: nat :| k < Entered(m.q, p) && Slot(h, k) == x && EntryIs(bs, m.q, h, k);
      assert Slot(h', k) == x && EntryIs(bs, m'.q, h', k);
    }
  }

  /** The producer writes the entry of the latest block. */
  lemma EntryWritten<V>(bs: nat, m: Memory<V>, p: Producer<V>, m': Memory<V>, p': Producer<V>)
    requires EntriesOk(bs, m, p) && p.PEntry? && p'.PFront? && m'.q == m.q && m'.ring == m.ring && |m.q.blockOf| > 0
    requires IndexOk(bs, m.q, m.ring, m.headers, p) && IndexOk(bs, m'.q, m'.ring, m'.headers, p') && Low(m.q, m.ring) < |m.q.blockOf|
    requires var h, h' := Current(m.headers), Current(m'.headers);
             && h'.size == h.size && h'.off == h.off && |h'.entries| == |h.entries|
             && forall x :: 0 <= x < h.size && x != m.ring.nextSlot ==> h'.entries[x] == h.entries[x]
    ensures EntriesOk(bs, m', p')
  {
    var h, h', n := Current(m.headers), Current(m'.headers), |m.q.blockOf|;
    forall x: nat | x < h'.size && h'.entries[x].Some? ensures EntryOfBlock(bs, m'.q, h', Entered(m'.q, p'), x) {
      if x == m.ring.nextSlot {
        assert Slot(h', n - 1) == x && EntryIs(bs, m'.q, h', n - 1);
      } else {
        var k: nat :| k < Entered(m.q, p) && Slot(h, k) == x && EntryIs(bs, m.q, h, k);
        assert Slot(h', k) == x && EntryIs(bs, m'.q, h', k);
      }
    }
  }

  /** The doubled index has the entries of the ring and nothing else. */
  lemma EntriesDoubled<V>(bs: nat, m: Memory<V>, p: Producer<V>, m': Memory<V>, p': Producer<V>, low: nat)
    requires IndexOk(bs, m'.q, m'.ring, m'.headers, p') && p'.PGet? && m'.q == m.q && low == Low(m'.q, m'.ring)
    requires |m.headers| > 0 && HeaderOk(Current(m.headers)) && m.ring.nextSlot < Current(m.headers).size
    requires m.ring.slotsUsed == |m.q.blockOf| - low && m.ring.slotsUsed <= Current(m.headers).size
    requires Current(m'.headers) == Doubled(Current(m.headers), m.ring, low)
    ensures EntriesOk(bs, m', p')
  {
    var h' := Current(m'.headers);
    forall x: nat | x < h'.size && h'.entries[x].Some? ensures EntryOfBlock(bs, m'.q, h', Entered(m'.q, p'), x) {
      assert x < m.ring.slotsUsed;
      Arithmetic.RingSmall(x, h'.size);
      assert Slot(h', low + x) == x && EntryIs(bs, m'.q, h', low + x);
    }
  }

  /** The headers and the block numbers after a step of a consumer. */
  lemma ConsumerLeaves<V>(bs: nat, m: Memory<V>, c: Consumer<V>, want: nat)
    requires Shape(bs, m) && ConsumerInRange(bs, m, c)
    ensures var m' := ConsumerStep(bs, m, c, want).0; m'.headers == m.headers && m'.q.blockOf == m.q.blockOf
  {
  }

  /** The headers and the block numbers after a step of the producer that writes no entry. */
  lemma ProducerLeaves<V>(bs: nat, m: Memory<V>, p: Producer<V>, pick: Pick<V>)
    requires Shape(bs, m) && ProducerInRange(bs, m, p) && pick.Produce? && !p.PEntry?
    ensures var (m', p') := ProducerStep(bs, m, p, pick);
      && |m'.headers| > 0 && m.q.blockOf <= m'.q.blockOf && Entered(m.q, p) <= Entered(m'.q, p')
      && (if |m'.headers| > |m.headers|
          then p'.PGet? && m'.q == m.q && m'.ring.blocks == m.ring.blocks
               && Current(m'.headers) == Doubled(Current(m.headers), m.ring, |m.q.blockOf| - m.ring.slotsUsed)
          else var h, h' := Current(m.headers), Current(m'.headers); h'.size == h.size && h'.off == h.off && h'.entries == h.entries)
  {
    hide Doubled;
  }

  lemma ProducerEntries<V>(bs: nat, s: State<V>, pick: Pick<V>)
    requires Inv(bs, s) && Enabled(bs, s, pick) && Inv(bs, Step(bs, s, pick)) && EntriesOk(bs, s.mem, s.producer)
    requires pick.Produce? && !s.producer.PEntry?
    ensures EntriesOk(bs, Step(bs, s, pick).mem, Step(bs, s, pick).producer)
  {
    var s', m, p := Step(bs, s, pick), s.mem, s.producer;
    ProducerLeaves(bs, m, p, pick);
    assert s'.mem == ProducerStep(bs, m, p, pick).0 && s'.producer == ProducerStep(bs, m, p, pick).1;
    hide Step, ProducerStep, EntriesOk, ElementsOk, FlagsOk, ConsumersOk, QueueOk, Doubled;
    if |s'.mem.headers| > |m.headers| {
      EntriesDoubled(bs, m, p, s'.mem, s'.producer, Low(m.q, m.ring));
    } else {
      EntriesFrame(bs, m, p, s'.mem, s'.producer);
    }
  }

  lemma WriterEntries<V>(bs: nat, s: State<V>, pick: Pick<V>)
    requires Inv(bs, s) && Enabled(bs, s, pick) && Inv(bs, Step(bs, s, pick)) && EntriesOk(bs, s.mem, s.producer)
    requires pick.Produce? && s.producer.PEntry?
    ensures EntriesOk(bs, Step(bs, s, pick).mem, Step(bs, s, pick).producer)
  {
    var s' := Step(bs, s, pick);
    hide EntriesOk, ElementsOk, FlagsOk, ConsumersOk, QueueOk;
    EntryWritten(bs, s.mem, s.producer, s'.mem, s'.producer);
  }

  lemma EntriesKept<V>(bs: nat, s: State<V>, pick: Pick<V>)
    requires Inv(bs, s) && Enabled(bs, s, pick) && Inv(bs, Step(bs, s, pick)) && EntriesOk(bs, s.mem, s.producer)
    ensures EntriesOk(bs, Step(bs, s, pick).mem, Step(bs, s, pick).producer)
  {
    hide Inv, ConsumerStep, ProducerStep;
    match pick
    case Produce(_, _, _, _) =>
      if s.producer.PEntry? { WriterEntries(bs, s, pick); } else { ProducerEntries(bs, s, pick); }
    case Consume(t, want) =>
      ConsumerLeaves(bs, s.mem, s.consumers[t], want);
      EntriesFrame(bs, s.mem, s.producer, Step(bs, s, pick).mem, s.producer);
  }

  lemma StartEntries<V>(bs: nat, size: nat, n: nat)
    requires size > 0
    ensures EntriesOk<V>(bs, Start(size, n).mem, Start(size, n).producer)
  {
  }

  lemma {:induction false} RunEntries<V>(bs: nat, states: seq<State<V>>, picks: seq<Pick<V>>, i: nat)
    requires Run(bs, states, picks) && i < |states|
    ensures EntriesOk(bs, states[i].mem, states[i].producer)
  {
    hide Inv, Enabled, Step, EntriesOk;
    if i == 0 {
      var size: nat, n: nat :| size > 0 && states[0] == Start(size, n);
      StartEntries<V>(bs, size, n);
    } else {
      RunEntries(bs, states, picks, i - 1);
      RunInv(bs, states, picks, i - 1);
      RunInv(bs, states, picks, i);
      EntriesKept(bs, states[i - 1], picks[i - 1]);
    }
  }

  /** In every state of every run: if the producer is about to overwrite an index entry, the block of that entry is
      drained: each of its elements was moved out, down to the last flag. */
  lemma OverwritesOnlyDrained<V>(bs: nat, states: seq<State<V>>, picks: seq<Pick<V>>, i: nat)
    requires Run(bs, states, picks) && i < |states| && states[i].producer.PEntry?
    ensures var m := states[i].mem;
      && |m.headers| > 0 && m.ring.nextSlot < |Current(m.headers).entries|
      && var before := Current(m.headers).entries[m.ring.nextSlot];
         before.Some? ==> forall x: nat :: before.value.base <= x < before.value.base + bs ==> x in m.q.flagged && x in m.q.moved
  {
    RunInv(bs, states, picks, i);
    RunEntries(bs, states, picks, i);
    var m, p := states[i].mem, states[i].producer;
    var n, h := |m.q.blockOf|, Current(m.headers);
    hide ElementsOk, FlagsOk, ConsumersOk, Run;
    if h.entries[m.ring.nextSlot].Some? {
      var k: nat :| k < n - 1 && Slot(h, k) == m.ring.nextSlot && EntryIs(bs, m.q, h, k);
      if Low(m.q, m.ring) <= k { OtherSlot(h, k, n - 1); }
      forall x: nat | k * bs <= x < k * bs + bs ensures x in m.q.flagged && x in m.q.moved { Parts(bs, k, x - k * bs); }
    }
  }

  /** The storage the producer takes for a new block holds no element. */
  lemma ReusedStorageIsBare<V>(bs: nat, states: seq<State<V>>, picks: seq<Pick<V>>, i: nat, o: nat)
    requires Run(bs, states, picks) && i < |states| && states[i].producer.PReset? && o < bs
    ensures var m := states[i].mem;
      |m.ring.blocks| > 0 && Tail(m.ring) < |m.store| && |m.store[Tail(m.ring)].elements| == bs && m.store[Tail(m.ring)].elements[o] == None
  {
    RunInv(bs, states, picks, i);
    var m, p := states[i].mem, states[i].producer;
    QueueFacts(bs, m, p);
    TailIsLast(bs, m.q, m.ring, |m.store|);
    hide IndexOk, FlagsOk, ConsumersOk, Run;
    Parts(bs, |m.q.blockOf| - 1, o);
    BlockBounds(bs, m.q.tailIndex);
    assert Expected(m.q, p, (|m.q.blockOf| - 1) * bs + o) == None;
  }

  // ---- First in, first out; nothing lost; nothing twice ------------------------------------------------

  /** In every state of every run: what a consumer's latest call returned is a stretch of the elements in
      the order they were enqueued, and every enqueued element that no consumer moved out is still in the
      storage of its block. */
  lemma NothingLost<V>(bs: nat, states: seq<State<V>>, picks: seq<Pick<V>>, i: nat)
    requires Run(bs, states, picks) && i < |states|
    ensures var q, store := states[i].mem.q, states[i].mem.store;
      && (forall t :: 0 <= t < |states[i].consumers| && states[i].consumers[t].CIdle? ==>
            var CIdle(first, got) := states[i].consumers[t];
            first + |got| <= |q.log| && got == q.log[first..first + |got|])
      && (forall x: nat :: x < |q.log| && x !in q.moved ==>
            && BlockNo(bs, x) < |q.blockOf| && q.blockOf[BlockNo(bs, x)] < |store|
            && |store[q.blockOf[BlockNo(bs, x)]].elements| == bs
            && store[q.blockOf[BlockNo(bs, x)]].elements[x % bs] == Some(q.log[x]))
  {
    RunInv(bs, states, picks, i);
    var s := states[i];
    var q, store := s.mem.q, s.mem.store;
    hide MemoryOk, ConsumersOk, Run;
    QueueFacts(bs, s.mem, s.producer);
    forall t | 0 <= t < |s.consumers| && s.consumers[t].CIdle?
      ensures var CIdle(first, got) := s.consumers[t]; first + |got| <= |q.log| && got == q.log[first..first + |got|]
    {
      OneConsumer(bs, s, t);
    }
    forall x: nat | x < |q.log| && x !in q.moved
      ensures BlockNo(bs, x) < |q.blockOf| && q.blockOf[BlockNo(bs, x)] < |store|
      ensures |store[q.blockOf[BlockNo(bs, x)]].elements| == bs
      ensures store[q.blockOf[BlockNo(bs, x)]].elements[x % bs] == Some(q.log[x])
    {
      LiveBlock(bs, s.mem, s.producer, x);
    }
  }

  /** The access moves element x out of its block. */
  predicate Moves<V(==)>(s: State<V>, pick: Pick<V>, x: nat) {
    pick.Consume? && pick.thread < |s.consumers| && s.consumers[pick.thread].CMove? && s.consumers[pick.thread].job.cur == x
  }

  predicate Grows<V(==)>(q: Queue<V>, q': Queue<V>) {
    q.log <= q'.log && q.blockOf <= q'.blockOf && q.headIndex <= q'.headIndex && q.moved <= q'.moved && q.flagged <= q'.flagged
  }

  lemma StepGrows<V>(bs: nat, s: State<V>, pick: Pick<V>)
    requires Enabled(bs, s, pick)
    ensures Grows(s.mem.q, Step(bs, s, pick).mem.q)
  {
  }

  lemma {:induction false} RunGrows<V>(bs: nat, states: seq<State<V>>, picks: seq<Pick<V>>, i: nat, j: nat)
    requires Run(bs, states, picks) && i <= j < |states|
    ensures Grows(states[i].mem.q, states[j].mem.q)
  {
    if i < j {
      assert |states| == |picks| + 1;
      hide *;
      RunGrows(bs, states, picks, i, j - 1);
      RunInv(bs, states, picks, j - 1);
      StepGrows(bs, states[j - 1], picks[j - 1]);
      GrowsOn(states[i].mem.q, states[j - 1].mem.q, states[j].mem.q);
    }
  }

  lemma GrowsOn<V>(q: Queue<V>, q': Queue<V>, q'': Queue<V>)
    requires Grows(q, q') && Grows(q', q'')
    ensures Grows(q, q'')
  {
  }

  lemma NotMovedAgain<V>(bs: nat, states: seq<State<V>>, picks: seq<Pick<V>>, i: nat, j: nat, x: nat)
    requires Run(bs, states, picks) && i < j < |picks| && Moves(states[i], picks[i], x)
    ensures !Moves(states[j], picks[j], x)
  {
    RunInv(bs, states, picks, i);
    RunInv(bs, states, picks, j);
    hide Inv, Enabled, Run, Step;
    var t := picks[i].thread;
    MoveStep(bs, states[i], t, picks[i].want, states[i].consumers[t].job);
    assert states[i + 1] == Step(bs, states[i], Consume(t, picks[i].want));
    RunGrows(bs, states, picks, i + 1, j);
    if Moves(states[j], picks[j], x) {
      MoveStep(bs, states[j], picks[j].thread, picks[j].want, states[j].consumers[picks[j].thread].job);
    }
  }

  /** Whoever moves element x gets the x-th element enqueued, and no later access of the run moves it again. */
  lemma MovedOnce<V>(bs: nat, states: seq<State<V>>, picks: seq<Pick<V>>, i: nat, x: nat)
    requires Run(bs, states, picks) && i < |picks| && Moves(states[i], picks[i], x)
    ensures x < |states[i].mem.q.log| && picks[i].thread < |states[i + 1].consumers|
    ensures var c := states[i + 1].consumers[picks[i].thread];
            !c.CIdle? && c.job.got == states[i].consumers[picks[i].thread].job.got + [states[i].mem.q.log[x]]
    ensures forall j :: i < j < |picks| ==> !Moves(states[j], picks[j], x)
  {
    RunInv(bs, states, picks, i);
    hide Inv, Enabled, Run, Step;
    var t := picks[i].thread;
    MoveStep(bs, states[i], t, picks[i].want, states[i].consumers[t].job);
    assert states[i + 1] == Step(bs, states[i], Consume(t, picks[i].want));
    forall j | i < j < |picks| ensures !Moves(states[j], picks[j], x) { NotMovedAgain(bs, states, picks, i, j, x); }
  }
}
