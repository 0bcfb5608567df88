/** The consumers of an implicit producer's sub-queue: every step they take keeps the invariant of module
    ImplicitQueue. */
module ImplicitConsumers {
  import opened Blocks
  import opened ImplicitIndex
  import opened ImplicitQueue
  import opened Options
  import Arithmetic

  // ---- What a consumer's step does to the others ---------------------------------------------------

  predicate Retiring<V>(c: Consumer<V>) { (c.CClear? || c.CFree?) && c.job.cur > 0 }

  /** What one step of consumer c may change of the queue's records. */
  ghost predicate Touches<V>(bs: nat, q: Queue<V>, q': Queue<V>, c: Consumer<V>)
    requires bs > 0
  {
    && q'.log == q.log && q'.blockOf == q.blockOf && q.headIndex <= q'.headIndex <= |q.log|
    && q.moved <= q'.moved && q.counted <= q'.counted && q.cleared <= q'.cleared && q.freed <= q'.freed
    && (forall i :: i in q'.moved && i !in q.moved ==> !c.CIdle? && c.job.from <= i < c.job.end)
    && (forall i :: i in q'.counted && i !in q.counted ==> !c.CIdle? && c.job.from <= i < c.job.end)
    && (forall k :: k in q'.cleared && k !in q.cleared ==> Retiring(c) && k == BlockNo(bs, c.job.cur - 1))
    && (forall k :: k in q'.freed && k !in q.freed ==> Retiring(c) && k == BlockNo(bs, c.job.cur - 1))
  }

  predicate SameHeaders(ix: Index, ix': Index) { ix'.headers == ix.headers && ix'.high == ix.high }

  lemma OtherKeeps<V>(bs: nat, q: Queue<V>, q': Queue<V>, ix: Index, ix': Index, c: Consumer<V>, d: Consumer<V>)
    requires bs > 0 && ConsumerOk(bs, q, ix, d) && Touches(bs, q, q', c) && Apart(bs, c, d) && SameHeaders(ix, ix')
    ensures ConsumerOk(bs, q', ix', d)
  {
    if !d.CIdle? { assert JobOk(q', d.job); }
  }

  /** The consumer's claim shrinks from the front; if it starts to retire a block, nobody else does. */
  ghost predicate Proceeds<V>(bs: nat, c: Consumer<V>, c': Consumer<V>) {
    c'.CIdle? || (!c.CIdle? && c.job.from <= c'.job.from && c'.job.end == c.job.end
                  && (Retiring(c') ==> Retiring(c) && c'.job.cur == c.job.cur))
  }

  lemma OthersKeep<V>(bs: nat, q: Queue<V>, q': Queue<V>, ix: Index, ix': Index, cs: seq<Consumer<V>>, t: nat,
                      c': Consumer<V>)
    requires bs > 0 && ConsumersOk(bs, q, ix, cs) && t < |cs| && SameHeaders(ix, ix')
    requires Touches(bs, q, q', cs[t]) && ConsumerOk(bs, q', ix', c')
    requires forall u :: 0 <= u < |cs| && u != t ==> Apart(bs, c', cs[u])
    ensures ConsumersOk(bs, q', ix', cs[t := c'])
  {
    forall u | 0 <= u < |cs| && u != t ensures ConsumerOk(bs, q', ix', cs[u]) {
      assert Apart(bs, cs[t], cs[u]);
      OtherKeeps(bs, q, q', ix, ix', cs[t], cs[u]);
    }
  }

  lemma ProceedsApart<V>(bs: nat, q: Queue<V>, ix: Index, cs: seq<Consumer<V>>, t: nat, c': Consumer<V>)
    requires bs > 0 && ConsumersOk(bs, q, ix, cs) && t < |cs| && Proceeds(bs, cs[t], c')
    ensures forall u :: 0 <= u < |cs| && u != t ==> Apart(bs, c', cs[u])
  {
    forall u | 0 <= u < |cs| && u != t ensures Apart(bs, c', cs[u]) {
      assert Apart(bs, cs[t], cs[u]);
    }
  }

  // ---- Steps that only read ------------------------------------------------------------------------

  /** A block with an element not yet counted is in the index and in storage. */
  lemma LiveBlock<V>(bs: nat, m: Memory<V>, p: Producer<V>, i: nat)
    requires MemoryOk(bs, m, p) && i < m.q.tailIndex && i !in m.q.counted
    ensures var k := BlockNo(bs, i);
            && m.ix.low <= k < |m.q.blockOf| && k < m.ix.high && k !in m.q.cleared && k !in m.q.freed
            && EntryOf(m.ix, k).value == Some(m.q.blockOf[k])
            && m.q.blockOf[k] < |m.store.blocks| && m.store.holder[m.q.blockOf[k]] == Some(k)
  {
    BlockNoBelow(bs, i, m.q.tailIndex);
  }

  lemma HeaderKeeps<V>(bs: nat, m: Memory<V>, p: Producer<V>, j: Job<V>)
    requires MemoryOk(bs, m, p) && ConsumerOk(bs, m.q, m.ix, CHeader(j))
    ensures ConsumerOk(bs, m.q, m.ix, CTail(j.(header := |m.ix.headers| - 1)))
  {
    BlockNoBelow(bs, j.end - 1, m.q.tailIndex);
  }

  lemma TailKeeps<V>(bs: nat, m: Memory<V>, p: Producer<V>, j: Job<V>)
    requires MemoryOk(bs, m, p) && ConsumerOk(bs, m.q, m.ix, CTail(j))
    ensures var h := m.ix.headers[j.header]; ConsumerOk(bs, m.q, m.ix, CKey(j.(slot := h.tail), h.count - 1))
  {
    assert HeaderOk(m.ix, m.ix.headers[j.header]);
  }

  /** The key at the tail is never missing, and the arithmetic from it finds the claim's first block. */
  lemma KeyFinds<V>(bs: nat, q: Queue<V>, ix: Index, j: Job<V>, top: int)
    requires bs > 0 && Ok(bs, ix) && ConsumerOk(bs, q, ix, CKey(j, top)) && ix.low <= BlockNo(bs, j.cur)
    ensures HeaderOk(ix, ix.headers[j.header]) && j.slot < |ix.headers[j.header].index| && top >= 0
    ensures ix.entries[ix.headers[j.header].index[j.slot]].key == Some(top * bs)
    ensures var slot := LookupSlot(bs, ix.headers[j.header], j.slot, top * bs, BlockNo(bs, j.cur) * bs);
            ConsumerOk(bs, q, ix, CValue(j.(slot := slot)))
  {
    DivMonotone(j.cur, j.end - 1, bs);
    LookupFinds(bs, ix, j.header, top, BlockNo(bs, j.cur));
  }

  /** The slot in hand names the entry that block k owns, as long as block k has not left the index. */
  lemma SlotEntry<V>(bs: nat, ix: Index, j: Job<V>, k: nat)
    requires bs > 0 && Ok(bs, ix) && j.header < |ix.headers| && SlotIs(ix, j, k)
    requires ix.low <= k < Reach(ix, j.header)
    ensures HeaderOk(ix, ix.headers[j.header]) && j.slot < |ix.headers[j.header].index|
    ensures ix.headers[j.header].index[j.slot] == EntryId(ix, k)
  {
    LookupFinds(bs, ix, j.header, k, k);
  }

  lemma WithinReach<V>(bs: nat, ix: Index, j: Job<V>, i: nat)
    requires bs > 0 && Reaches(bs, ix, j) && i < j.end
    ensures BlockNo(bs, i) < Reach(ix, j.header)
  {
    DivMonotone(i, j.end - 1, bs);
  }

  /** The entry's block is never missing: it is the storage of the block the claim wants. */
  lemma ValueFinds<V>(bs: nat, q: Queue<V>, ix: Index, j: Job<V>, k: nat)
    requires bs > 0 && Ok(bs, ix) && ConsumerOk(bs, q, ix, CValue(j))
    requires k == BlockNo(bs, j.cur) && ix.low <= k < |q.blockOf| && EntryOf(ix, k).value == Some(q.blockOf[k])
    ensures HeaderOk(ix, ix.headers[j.header]) && j.slot < |ix.headers[j.header].index|
    ensures ix.entries[ix.headers[j.header].index[j.slot]].value == Some(q.blockOf[k])
    ensures ConsumerOk(bs, q, ix, CMove(j.(block := q.blockOf[k])))
  {
    WithinReach(bs, ix, j, j.cur);
    SlotEntry(bs, ix, j, k);
  }

  // ---- Claiming and moving elements out -------------------------------------------------------------

  lemma HolderPerBlock<V>(q: Queue<V>, st: Store<V>, p: Producer<V>)
    requires HoldersOk(q, st, p)
    ensures |st.holder| == |st.blocks|
  {
  }

  lemma ClaimMemory<V>(bs: nat, m: Memory<V>, p: Producer<V>, head: nat)
    requires MemoryOk(bs, m, p) && m.q.headIndex <= head <= m.q.tailIndex
    ensures MemoryOk(bs, m.(q := m.q.(headIndex := head)), p)
  {
    var q', st := m.q.(headIndex := head), m.store;
    HolderPerBlock(m.q, st, p);
    hide ElementsOk, ValuesOk, HoldersOk, CountersOk;
    SameValues(bs, m.q, q', m.ix, p);
    SameHolders(m.q, q', st, st, p);
    SameElements(bs, m.q, q', st, st, p);
    MoveCounters(bs, m.q, q', st, st, p);
  }

  /** A step that changes neither the index nor what it should hold. */
  lemma SameValues<V>(bs: nat, q: Queue<V>, q': Queue<V>, ix: Index, p: Producer<V>)
    requires ValuesOk(bs, q, ix, p) && q'.blockOf == q.blockOf && q'.cleared == q.cleared
    ensures ValuesOk(bs, q', ix, p)
  {
    forall k: nat ensures ValueOf(q', p, k) == ValueOf(q, p, k) && Working(q', p, k) == Working(q, p, k) {
      SameValue(q, q', p, k);
    }
  }

  lemma SameValue<V>(q: Queue<V>, q': Queue<V>, p: Producer<V>, k: nat)
    requires q'.blockOf == q.blockOf && q'.cleared == q.cleared
    ensures ValueOf(q', p, k) == ValueOf(q, p, k) && Working(q', p, k) == Working(q, p, k)
  {
  }

  /** A step that changes neither holders nor which blocks are freed. */
  lemma SameHolders<V>(q: Queue<V>, q': Queue<V>, st: Store<V>, st': Store<V>, p: Producer<V>)
    requires HoldersOk(q, st, p) && q'.blockOf == q.blockOf && q'.freed == q.freed
    requires st'.holder == st.holder && |st'.blocks| == |st.blocks|
    ensures HoldersOk(q', st', p)
  {
    assert forall c: nat, k: nat :: Serves(q', p, c, k) == Serves(q, p, c, k);
  }

  /** A step that changes neither elements nor what they should be. */
  lemma SameElements<V>(bs: nat, q: Queue<V>, q': Queue<V>, st: Store<V>, st': Store<V>, p: Producer<V>)
    requires bs > 0 && |q.log| == q.tailIndex && |st.holder| == |st.blocks| && (p.PFill? ==> p.done <= |p.items|)
    requires ElementsOk(bs, q, st, p) && q'.log == q.log && q'.tailIndex == q.tailIndex && q'.moved == q.moved
    requires st'.holder == st.holder && |st'.blocks| == |st.blocks|
    requires forall b :: 0 <= b < |st.blocks| ==> st'.blocks[b].elements == st.blocks[b].elements
    ensures ElementsOk(bs, q', st', p)
  {
    assert forall i: nat :: Expected(q', p, i) == Expected(q, p, i);
  }

  function MoveOut<V>(bs: nat, blk: Block<V>, i: nat): Block<V>
    requires |blk.elements| == bs > 0
  { blk.(elements := blk.elements[i % bs := None]) }

  lemma MoveStorage<V>(bs: nat, q: Queue<V>, st: Store<V>, p: Producer<V>, b: nat, i: nat)
    requires bs > 0 && QueueOk(bs, q) && ProducerOk(bs, q, p) && HoldersOk(q, st, p) && ElementsOk(bs, q, st, p)
    requires b < |st.blocks| && st.holder[b] == Some(BlockNo(bs, i)) && i < q.headIndex
    ensures |st.blocks[b].elements| == bs
    ensures i !in q.moved ==> st.blocks[b].elements[i % bs] == Some(q.log[i])
    ensures ElementsOk(bs, q.(moved := q.moved + {i}), SetBlock(st, b, MoveOut(bs, st.blocks[b], i)), p)
  {
    var q', st' := q.(moved := q.moved + {i}), SetBlock(st, b, MoveOut(bs, st.blocks[b], i));
    forall c, x: nat | 0 <= c < |st'.blocks| && st'.holder[c] == Some(BlockNo(bs, x))
      ensures st'.blocks[c].elements[x % bs] == Expected(q', p, x)
    {
      assert st.blocks[c].elements[x % bs] == Expected(q, p, x);
      if x != i {
        assert Expected(q', p, x) == Expected(q, p, x);
        if c == b && x % bs == i % bs { Arithmetic.SameParts(x, i, bs); }
      } else {
        assert Serves(q, p, c, BlockNo(bs, i)) && Serves(q, p, b, BlockNo(bs, i));
      }
    }
  }

  lemma MoveCounters<V>(bs: nat, q: Queue<V>, q': Queue<V>, st: Store<V>, st': Store<V>, p: Producer<V>)
    requires HoldersOk(q, st, p) && HoldersOk(q', st', p) && q.freed <= q.cleared && CountersOk(bs, q, st, p)
    requires q'.blockOf == q.blockOf && q'.cleared == q.cleared && q'.freed == q.freed && q'.counted == q.counted
    requires |st'.blocks| == |st.blocks| && forall b :: 0 <= b < |st.blocks| ==> st'.blocks[b].dequeued == st.blocks[b].dequeued
    ensures CountersOk(bs, q', st', p)
  {
  }

  lemma MoveMemory<V>(bs: nat, m: Memory<V>, p: Producer<V>, b: nat, i: nat)
    requires MemoryOk(bs, m, p) && i < m.q.headIndex && i !in m.q.moved
    requires b < |m.store.blocks| && m.store.holder[b] == Some(BlockNo(bs, i))
    ensures |m.store.blocks[b].elements| == bs && m.store.blocks[b].elements[i % bs] == Some(m.q.log[i])
    ensures MemoryOk(bs, m.(q := m.q.(moved := m.q.moved + {i}),
                            store := SetBlock(m.store, b, MoveOut(bs, m.store.blocks[b], i))), p)
  {
    var q, st := m.q, m.store;
    HolderPerBlock(q, st, p);
    hide ValuesOk, HoldersOk, CountersOk, ElementsOk;
    MoveStorage(bs, q, st, p, b, i);
    var q', st' := q.(moved := q.moved + {i}), SetBlock(st, b, MoveOut(bs, st.blocks[b], i));
    SameValues(bs, q, q', m.ix, p);
    SameHolders(q, q', st, st', p);
    MoveCounters(bs, q, q', st, st', p);
  }

  // ---- Counting elements as dequeued ----------------------------------------------------------------

  function Overlap(from: nat, to: nat, lo: nat, hi: nat): nat {
    var a, b := (if from < lo then lo else from), (if to < hi then to else hi);
    if a < b then b - a else 0
  }

  /** Counting the elements of a range raises the count of block k by how many of them it holds. */
  lemma {:induction false} CountAdd(bs: nat, counted: set<nat>, from: nat, to: nat, k: nat, n: nat)
    requires forall i :: from <= i < to ==> i !in counted
    ensures Counted(bs, counted + Range(from, to), k, n)
            == Counted(bs, counted, k, n) + Overlap(from, to, k * bs, k * bs + n)
  {
    if n > 0 { CountAdd(bs, counted, from, to, k, n - 1); }
  }

  /** A full count means that every element of the block is counted. */
  lemma {:induction false} CountFull(bs: nat, counted: set<nat>, k: nat, n: nat, o: nat)
    ensures Counted(bs, counted, k, n) <= n
    ensures Counted(bs, counted, k, n) == n && o < n ==> k * bs + o in counted
  {
    if n > 0 { CountFull(bs, counted, k, n - 1, o); }
  }

  lemma OtherBlocks(bs: nat, from: nat, to: nat, k: nat)
    requires bs > 0 && from < to && BlockNo(bs, to - 1) == BlockNo(bs, from)
    ensures Overlap(from, to, k * bs, k * bs + bs) == if k == BlockNo(bs, from) then to - from else 0
  {
    var b := BlockNo(bs, from);
    BlockBounds(bs, from);
    BlockBounds(bs, to - 1);
    if k < b {
      Arithmetic.Scale(k + 1, b, bs);
      Arithmetic.Distribute(k + 1, 1, bs);
    } else if b < k {
      Arithmetic.Scale(b + 1, k, bs);
      Arithmetic.Distribute(b + 1, 1, bs);
    }
  }

  function CountOff<V>(st: Store<V>, b: nat, n: nat): Store<V>
    requires b < |st.blocks|
  { SetBlock(st, b, st.blocks[b].(dequeued := st.blocks[b].dequeued + n)) }

  lemma CountCounters<V>(bs: nat, q: Queue<V>, st: Store<V>, p: Producer<V>, b: nat, from: nat, to: nat)
    requires bs > 0 && HoldersOk(q, st, p) && q.freed <= q.cleared && CountersOk(bs, q, st, p)
    requires from < to && BlockNo(bs, to - 1) == BlockNo(bs, from) < |q.blockOf| && b == q.blockOf[BlockNo(bs, from)]
    requires BlockNo(bs, from) !in q.cleared && forall i :: from <= i < to ==> i !in q.counted
    requires b < |st.blocks| && HoldersOk(q.(counted := q.counted + Range(from, to)), CountOff(st, b, to - from), p)
    ensures CountersOk(bs, q.(counted := q.counted + Range(from, to)), CountOff(st, b, to - from), p)
    ensures st.blocks[b].dequeued + (to - from) == Counted(bs, q.counted + Range(from, to), BlockNo(bs, from), bs)
  {
    var q', st' := q.(counted := q.counted + Range(from, to)), CountOff(st, b, to - from);
    forall k: nat | k < |q'.blockOf| && k !in q'.cleared
      ensures st'.blocks[q'.blockOf[k]].dequeued == Counted(bs, q'.counted, k, bs)
    {
      CountAdd(bs, q.counted, from, to, k, bs);
      OtherBlocks(bs, from, to, k);
    }
  }

  lemma CountQueue<V>(bs: nat, q: Queue<V>, from: nat, to: nat)
    requires bs > 0 && QueueOk(bs, q) && forall i :: from <= i < to ==> i in q.moved && i !in q.counted
    ensures QueueOk(bs, q.(counted := q.counted + Range(from, to)))
    ensures from < to ==> BlockNo(bs, from) !in q.cleared
    ensures q.freed <= q.cleared && |q.log| == q.tailIndex
  {
  }

  lemma CountMemory<V>(bs: nat, m: Memory<V>, p: Producer<V>, b: nat, from: nat, to: nat)
    requires MemoryOk(bs, m, p) && from < to <= m.q.headIndex && BlockNo(bs, to - 1) == BlockNo(bs, from)
    requires BlockNo(bs, from) < |m.q.blockOf| && b == m.q.blockOf[BlockNo(bs, from)] && b < |m.store.blocks|
    requires forall i :: from <= i < to ==> i in m.q.moved && i !in m.q.counted
    ensures MemoryOk(bs, m.(q := m.q.(counted := m.q.counted + Range(from, to)),
                            store := CountOff(m.store, b, to - from)), p)
    ensures m.store.blocks[b].dequeued + (to - from) == Counted(bs, m.q.counted + Range(from, to), BlockNo(bs, from), bs)
  {
    hide QueueOk, ValuesOk, HoldersOk, CountersOk, ElementsOk, BlockNo;
    var q, st := m.q, m.store;
    HolderPerBlock(q, st, p);
    CountQueue(bs, q, from, to);
    var q', st' := q.(counted := q.counted + Range(from, to)), CountOff(st, b, to - from);
    SameValues(bs, q, q', m.ix, p);
    SameHolders(q, q', st, st', p);
    CountCounters(bs, q, st, p, b, from, to);
    SameElements(bs, q, q', st, st', p);
  }

  // ---- Retiring a block -----------------------------------------------------------------------------

  lemma ClearQueue<V>(bs: nat, q: Queue<V>, k: nat)
    requires bs > 0 && QueueOk(bs, q) && k < |q.blockOf| && forall i: nat :: BlockNo(bs, i) == k ==> i in q.counted
    ensures QueueOk(bs, q.(cleared := q.cleared + {k})) && q.freed <= q.cleared && |q.log| == q.tailIndex
  {
  }

  lemma ValuesIndex<V>(bs: nat, q: Queue<V>, ix: Index, p: Producer<V>)
    requires ValuesOk(bs, q, ix, p)
    ensures |ix.headers| > 0 && HeaderOk(ix, Current(ix))
  {
  }

  lemma ClearMemory<V>(bs: nat, m: Memory<V>, p: Producer<V>, k: nat)
    requires MemoryOk(bs, m, p) && m.ix.low <= k < |m.q.blockOf|
    requires forall i: nat :: BlockNo(bs, i) == k ==> i in m.q.counted
    ensures MemoryOk(bs, m.(q := m.q.(cleared := m.q.cleared + {k}), ix := StoreValue(m.ix, EntryId(m.ix, k), None)), p)
  {
    hide QueueOk, ValuesOk, ElementsOk, HoldersOk, CountersOk, BlockNo;
    var q, st := m.q, m.store;
    HolderPerBlock(q, st, p);
    ValuesIndex(bs, q, m.ix, p);
    ClearQueue(bs, q, k);
    var q' := q.(cleared := q.cleared + {k});
    ClearValues(bs, q, m.ix, p, k);
    SameHolders(q, q', st, st, p);
    SameElements(bs, q, q', st, st, p);
    ClearCounters(bs, q, q', st, p);
  }

  lemma ClearCounters<V>(bs: nat, q: Queue<V>, q': Queue<V>, st: Store<V>, p: Producer<V>)
    requires HoldersOk(q, st, p) && HoldersOk(q', st, p) && q.freed <= q.cleared && CountersOk(bs, q, st, p)
    requires q'.blockOf == q.blockOf && q.cleared <= q'.cleared && q'.freed == q.freed && q'.counted == q.counted
    ensures CountersOk(bs, q', st, p)
  {
  }

  lemma ClearValue<V>(bs: nat, q: Queue<V>, ix: Index, p: Producer<V>, k: nat, j: nat)
    requires ValuesOk(bs, q, ix, p) && ix.low <= k < |q.blockOf| && k < ix.high
    requires ix.low <= j < ix.high && !Working(q, p, j)
    ensures var ix' := StoreValue(ix, EntryId(ix, k), None);
            && HeaderOk(ix', Current(ix'))
            && EntryOf(ix', j).value == ValueOf(q.(cleared := q.cleared + {k}), p, j)
  {
    ValueStored(bs, ix, k, None, j);
    assert EntryOf(ix, j).value == ValueOf(q, p, j);
  }

  lemma ClearValues<V>(bs: nat, q: Queue<V>, ix: Index, p: Producer<V>, k: nat)
    requires ValuesOk(bs, q, ix, p) && ix.low <= k < |q.blockOf|
    ensures ValuesOk(bs, q.(cleared := q.cleared + {k}), StoreValue(ix, EntryId(ix, k), None), p)
  {
    var q', ix' := q.(cleared := q.cleared + {k}), StoreValue(ix, EntryId(ix, k), None);
    StoreValueOk(bs, ix, EntryId(ix, k), None);
    forall j | ix'.low <= j < ix'.high && !Working(q', p, j) ensures EntryOf(ix', j).value == ValueOf(q', p, j) {
      ClearValue(bs, q, ix, p, k, j);
    }
  }

  function Release<V>(st: Store<V>, b: nat): Store<V>
    requires b < |st.holder|
  { st.(holder := st.holder[b := None]) }

  lemma FreeHolders<V>(bs: nat, q: Queue<V>, st: Store<V>, p: Producer<V>, k: nat)
    requires HoldersOk(q, st, p) && k < |q.blockOf| && k !in q.freed
    ensures HoldersOk(q.(freed := q.freed + {k}), Release(st, q.blockOf[k]), p)
  {
    var q', b := q.(freed := q.freed + {k}), q.blockOf[k];
    var st' := Release(st, b);
    forall c | 0 <= c < |st'.holder| && st'.holder[c].Some? ensures Serves(q', p, c, st'.holder[c].value) {
      assert Serves(q, p, c, st.holder[c].value);
    }
  }

  lemma FreeElements<V>(bs: nat, q: Queue<V>, st: Store<V>, p: Producer<V>, k: nat)
    requires bs > 0 && QueueOk(bs, q) && ProducerOk(bs, q, p) && HoldersOk(q, st, p) && ElementsOk(bs, q, st, p)
    requires k < |q.blockOf| && k in q.cleared && k !in q.freed
    ensures ElementsOk(bs, q.(freed := q.freed + {k}), Release(st, q.blockOf[k]), p)
  {
    var q', b := q.(freed := q.freed + {k}), q.blockOf[k];
    forall o | 0 <= o < bs ensures st.blocks[b].elements[o] == None {
      Parts(bs, k, o);
      assert st.blocks[b].elements[(k * bs + o) % bs] == Expected(q, p, k * bs + o);
    }
    assert forall i: nat :: Expected(q', p, i) == Expected(q, p, i);
  }

  lemma FreeMemory<V>(bs: nat, m: Memory<V>, p: Producer<V>, k: nat)
    requires MemoryOk(bs, m, p) && k < |m.q.blockOf| && k in m.q.cleared && k !in m.q.freed
    ensures MemoryOk(bs, m.(q := m.q.(freed := m.q.freed + {k}), store := Release(m.store, m.q.blockOf[k])), p)
  {
    hide ValuesOk, ElementsOk;
    var q, st := m.q, m.store;
    SameValues(bs, q, q.(freed := q.freed + {k}), m.ix, p);
    FreeHolders(bs, q, st, p, k);
    FreeElements(bs, q, st, p, k);
  }

  // ---- Each step keeps the invariant -----------------------------------------------------------------

  /** On to the next block: its slot follows. */
  lemma NextBlockOk<V>(bs: nat, m: Memory<V>, j: Job<V>)
    requires bs > 0 && JobOk(m.q, j) && 0 < j.cur == j.from && Reaches(bs, m.ix, j) && (j.cur == j.end || j.cur % bs == 0)
    requires SlotIs(m.ix, j, BlockNo(bs, j.cur - 1))
    ensures ConsumerOk(bs, m.q, m.ix, NextBlock(m, j)) && Proceeds(bs, CFree(j), NextBlock(m, j))
  {
    if j.cur < j.end {
      var h := m.ix.headers[j.header];
      BlockNoNext(bs, j.cur - 1);
      Arithmetic.RingShift(BlockNo(bs, j.cur - 1) + h.off, 1, h.capacity);
    }
  }

  /** A claim starts where all earlier claims have ended. */
  lemma ClaimApart<V>(bs: nat, q: Queue<V>, ix: Index, cs: seq<Consumer<V>>, c': Consumer<V>)
    requires bs > 0 && ConsumersOk(bs, q, ix, cs) && c'.CHeader? && c'.job.from == q.headIndex
    ensures forall u :: 0 <= u < |cs| ==> Apart(bs, c', cs[u])
  {
    forall u | 0 <= u < |cs| ensures Apart(bs, c', cs[u]) {
      assert ConsumerOk(bs, q, ix, cs[u]);
    }
  }

  lemma QueueFacts<V>(bs: nat, m: Memory<V>, p: Producer<V>)
    requires MemoryOk(bs, m, p)
    ensures bs > 1 && |m.q.log| == m.q.tailIndex && m.q.headIndex <= m.q.tailIndex
    ensures forall i :: i in m.q.counted ==> i in m.q.moved
    ensures forall i :: i in m.q.moved ==> i < m.q.headIndex
    ensures |m.store.holder| == |m.store.blocks|
    ensures forall b :: 0 <= b < |m.store.blocks| ==> |m.store.blocks[b].elements| == bs
  {
  }

  lemma ClaimKeeps<V>(bs: nat, s: State<V>, t: nat, want: nat)
    requires Inv(bs, s) && t < |s.consumers| && s.consumers[t].CIdle?
    requires 0 < want && s.mem.q.headIndex + want <= s.mem.q.tailIndex
    ensures var h := s.mem.q.headIndex;
            Inv(bs, State(s.mem.(q := s.mem.q.(headIndex := h + want)), s.producer,
                          s.consumers[t := CHeader(Job(h, h, h, h + want, 0, 0, 0, []))]))
  {
    hide MemoryOk, ConsumersOk;
    var q, h := s.mem.q, s.mem.q.headIndex;
    var q', c' := q.(headIndex := h + want), CHeader(Job(h, h, h, h + want, 0, 0, 0, []));
    QueueFacts(bs, s.mem, s.producer);
    ClaimMemory(bs, s.mem, s.producer, h + want);
    ClaimApart(bs, q, s.mem.ix, s.consumers, c');
    WriteKeeps(bs, s, t, s.mem.(q := q'), c');
  }

  /** A step that only reads. */
  lemma ReadKeeps<V>(bs: nat, s: State<V>, t: nat, c': Consumer<V>)
    requires Inv(bs, s) && t < |s.consumers| && ConsumerOk(bs, s.mem.q, s.mem.ix, c')
    requires !s.consumers[t].CIdle? && Proceeds(bs, s.consumers[t], c')
    ensures Inv(bs, s.(consumers := s.consumers[t := c']))
  {
    var q, ix := s.mem.q, s.mem.ix;
    assert bs > 0 && QueueOk(bs, q);
    hide MemoryOk;
    ProceedsApart(bs, q, ix, s.consumers, t, c');
    OthersKeep(bs, q, q, ix, ix, s.consumers, t, c');
  }

  /** A step that takes the memory to m' within what Touches allows. */
  lemma WriteKeeps<V>(bs: nat, s: State<V>, t: nat, m': Memory<V>, c': Consumer<V>)
    requires Inv(bs, s) && t < |s.consumers| && MemoryOk(bs, m', s.producer)
    requires Touches(bs, s.mem.q, m'.q, s.consumers[t]) && SameHeaders(s.mem.ix, m'.ix)
    requires ConsumerOk(bs, m'.q, m'.ix, c')
    requires forall u :: 0 <= u < |s.consumers| && u != t ==> Apart(bs, c', s.consumers[u])
    ensures Inv(bs, State(m', s.producer, s.consumers[t := c']))
  {
    assert bs > 0;
    hide MemoryOk;
    OthersKeep(bs, s.mem.q, m'.q, s.mem.ix, m'.ix, s.consumers, t, c');
  }

  /** The storage block a consumer has in hand serves the block number it works on. */
  lemma InHand<V>(bs: nat, m: Memory<V>, p: Producer<V>, j: Job<V>, k: nat)
    requires MemoryOk(bs, m, p) && HasBlock(m.q, j, k) && k !in m.q.freed
    ensures j.block < |m.store.blocks| == |m.store.holder| && m.store.holder[j.block] == Some(k)
  {
  }

  lemma NotFreed<V>(bs: nat, m: Memory<V>, p: Producer<V>, i: nat)
    requires MemoryOk(bs, m, p) && i !in m.q.counted
    ensures BlockNo(bs, i) !in m.q.cleared && BlockNo(bs, i) !in m.q.freed
  {
  }

  lemma OneConsumer<V>(bs: nat, s: State<V>, t: nat)
    requires Inv(bs, s) && t < |s.consumers|
    ensures bs > 1 && QueueOk(bs, s.mem.q) && Ok(bs, s.mem.ix) && ConsumerOk(bs, s.mem.q, s.mem.ix, s.consumers[t])
  {
  }

  function AfterMove<V>(bs: nat, j: Job<V>, v: V): Consumer<V>
    requires bs > 0
  {
    var j' := j.(cur := j.cur + 1, got := j.got + [v]);
    if j'.cur == j'.end || j'.cur % bs == 0 then CEmpty(j') else CMove(j')
  }

  lemma AfterMoveOk<V>(bs: nat, q: Queue<V>, ix: Index, j: Job<V>)
    requires bs > 0 && ConsumerOk(bs, q, ix, CMove(j)) && forall i :: i in q.counted ==> i in q.moved
    ensures ConsumerOk(bs, q.(moved := q.moved + {j.cur}), ix, AfterMove(bs, j, q.log[j.cur]))
    ensures Proceeds(bs, CMove(j), AfterMove(bs, j, q.log[j.cur]))
  {
    BlockNoNext(bs, j.cur);
    assert q.log[j.first..j.cur + 1] == q.log[j.first..j.cur] + [q.log[j.cur]];
  }

  lemma MoveKeeps<V>(bs: nat, s: State<V>, t: nat, j: Job<V>)
    requires Inv(bs, s) && t < |s.consumers| && s.consumers[t] == CMove(j)
    ensures j.block < |s.mem.store.blocks| && |s.mem.store.blocks[j.block].elements| == bs > 0
    ensures j.cur < |s.mem.q.log| && s.mem.store.blocks[j.block].elements[j.cur % bs] == Some(s.mem.q.log[j.cur])
    ensures var m := s.mem;
            Inv(bs, State(m.(q := m.q.(moved := m.q.moved + {j.cur}),
                             store := SetBlock(m.store, j.block, MoveOut(bs, m.store.blocks[j.block], j.cur))),
                          s.producer, s.consumers[t := AfterMove(bs, j, m.q.log[j.cur])]))
  {
    hide MemoryOk, ConsumersOk;
    var m, p, q := s.mem, s.producer, s.mem.q;
    OneConsumer(bs, s, t);
    QueueFacts(bs, m, p);
    NotFreed(bs, m, p, j.cur);
    InHand(bs, m, p, j, BlockNo(bs, j.cur));
    MoveMemory(bs, m, p, j.block, j.cur);
    AfterMoveOk(bs, q, m.ix, j);
    var m' := m.(q := q.(moved := q.moved + {j.cur}),
                 store := SetBlock(m.store, j.block, MoveOut(bs, m.store.blocks[j.block], j.cur)));
    ProceedsApart(bs, q, m.ix, s.consumers, t, AfterMove(bs, j, q.log[j.cur]));
    WriteKeeps(bs, s, t, m', AfterMove(bs, j, q.log[j.cur]));
  }

  /** The last consumer to count an element of a block is the one to retire it. */
  lemma LastOut<V>(bs: nat, q: Queue<V>, ix: Index, cs: seq<Consumer<V>>, t: nat, j: Job<V>)
    requires bs > 0 && QueueOk(bs, q) && ConsumersOk(bs, q, ix, cs) && t < |cs| && cs[t] == CEmpty(j)
    ensures forall u :: 0 <= u < |cs| && u != t ==> Apart(bs, CClear(j.(from := j.cur)), cs[u])
  {
    assert ConsumerOk(bs, q, ix, cs[t]);
    forall u | 0 <= u < |cs| && u != t ensures Apart(bs, CClear(j.(from := j.cur)), cs[u]) {
      assert ConsumerOk(bs, q, ix, cs[u]) && Apart(bs, cs[t], cs[u]);
      if Retiring(cs[u]) { assert BlockNo(bs, cs[u].job.cur - 1) != BlockNo(bs, j.from); }
    }
  }

  lemma FullBlock(bs: nat, counted: set<nat>, k: nat)
    requires bs > 0 && Counted(bs, counted, k, bs) == bs
    ensures forall i: nat :: BlockNo(bs, i) == k ==> i in counted
  {
    forall i: nat | BlockNo(bs, i) == k ensures i in counted {
      CountFull(bs, counted, k, bs, i % bs);
      assert i == (i / bs) * bs + i % bs;
    }
  }

  function AfterCount<V>(bs: nat, m: Memory<V>, j: Job<V>, n: nat): Consumer<V>
    requires j.header < |m.ix.headers| && m.ix.headers[j.header].capacity > 0
  { if n == bs then CClear(j) else NextBlock(m, j) }

  lemma AfterCountOk<V>(bs: nat, m: Memory<V>, j: Job<V>, n: nat, q': Queue<V>)
    requires bs > 0 && QueueOk(bs, m.q) && ConsumerOk(bs, m.q, m.ix, CEmpty(j))
    requires q' == m.q.(counted := m.q.counted + Range(j.from, j.cur))
    requires n == Counted(bs, q'.counted, BlockNo(bs, j.from), bs)
    ensures j.header < |m.ix.headers| && m.ix.headers[j.header].capacity > 0
    ensures ConsumerOk(bs, q', m.ix, AfterCount(bs, m, j.(from := j.cur), n))
    ensures n != bs ==> Proceeds(bs, CEmpty(j), AfterCount(bs, m, j.(from := j.cur), n))
  {
    var j' := j.(from := j.cur);
    if n == bs {
      FullBlock(bs, q'.counted, BlockNo(bs, j.from));
    } else {
      NextBlockOk(bs, m.(q := q'), j');
    }
  }

  lemma CountKeeps<V>(bs: nat, s: State<V>, t: nat, j: Job<V>)
    requires Inv(bs, s) && t < |s.consumers| && s.consumers[t] == CEmpty(j)
    ensures j.block < |s.mem.store.blocks| && j.from <= j.cur
    ensures j.header < |s.mem.ix.headers| && s.mem.ix.headers[j.header].capacity > 0
    ensures var m := s.mem;
            var n := m.store.blocks[j.block].dequeued + (j.cur - j.from);
            Inv(bs, State(m.(q := m.q.(counted := m.q.counted + Range(j.from, j.cur)),
                             store := CountOff(m.store, j.block, j.cur - j.from)),
                          s.producer, s.consumers[t := AfterCount(bs, m, j.(from := j.cur), n)]))
  {
    hide MemoryOk, ConsumersOk, QueueOk, BlockNo;
    var m, p, q := s.mem, s.producer, s.mem.q;
    OneConsumer(bs, s, t);
    NotFreed(bs, m, p, j.from);
    InHand(bs, m, p, j, BlockNo(bs, j.from));
    CountMemory(bs, m, p, j.block, j.from, j.cur);
    var n := m.store.blocks[j.block].dequeued + (j.cur - j.from);
    var q' := q.(counted := q.counted + Range(j.from, j.cur));
    AfterCountOk(bs, m, j, n, q');
    var c' := AfterCount(bs, m, j.(from := j.cur), n);
    if n == bs {
      LastOut(bs, q, m.ix, s.consumers, t, j);
    } else {
      ProceedsApart(bs, q, m.ix, s.consumers, t, c');
    }
    QueueFacts(bs, m, p);
    WriteKeeps(bs, s, t, m.(q := q', store := CountOff(m.store, j.block, j.cur - j.from)), c');
  }

  lemma ClearKeeps<V>(bs: nat, s: State<V>, t: nat, j: Job<V>)
    requires Inv(bs, s) && t < |s.consumers| && s.consumers[t] == CClear(j)
    ensures bs > 0 && j.cur > 0 && j.header < |s.mem.ix.headers| && HeaderOk(s.mem.ix, s.mem.ix.headers[j.header])
    ensures j.slot < |s.mem.ix.headers[j.header].index|
    ensures var m := s.mem;
            Inv(bs, State(m.(q := m.q.(cleared := m.q.cleared + {CountsIn(bs, j)}),
                             ix := StoreValue(m.ix, m.ix.headers[j.header].index[j.slot], None)),
                          s.producer, s.consumers[t := CFree(j)]))
  {
    hide MemoryOk, ConsumersOk, BlockNo;
    var m, p, q := s.mem, s.producer, s.mem.q;
    OneConsumer(bs, s, t);
    var k := BlockNo(bs, j.cur - 1);
    assert CountsIn(bs, j) == k;
    QueueFacts(bs, m, p);
    InTheIndex(bs, m, p, k);
    WithinReach(bs, m.ix, j, j.cur - 1);
    SlotEntry(bs, m.ix, j, k);
    ClearMemory(bs, m, p, k);
    ProceedsApart(bs, q, m.ix, s.consumers, t, CFree(j));
    var m' := m.(q := q.(cleared := q.cleared + {k}), ix := StoreValue(m.ix, EntryId(m.ix, k), None));
    WriteKeeps(bs, s, t, m', CFree(j));
  }

  lemma InTheIndex<V>(bs: nat, m: Memory<V>, p: Producer<V>, k: nat)
    requires MemoryOk(bs, m, p) && k < |m.q.blockOf| && k !in m.q.cleared
    ensures m.ix.low <= k < m.ix.high && k !in m.q.freed
  {
  }

  lemma FreeKeeps<V>(bs: nat, s: State<V>, t: nat, j: Job<V>)
    requires Inv(bs, s) && t < |s.consumers| && s.consumers[t] == CFree(j)
    ensures bs > 0 && j.cur > 0 && j.block < |s.mem.store.holder|
    ensures j.header < |s.mem.ix.headers| && s.mem.ix.headers[j.header].capacity > 0
    ensures var m := s.mem;
            Inv(bs, State(m.(q := m.q.(freed := m.q.freed + {CountsIn(bs, j)}), store := Release(m.store, j.block)),
                          s.producer, s.consumers[t := NextBlock(m, j)]))
  {
    hide MemoryOk, ConsumersOk, BlockNo;
    var m, p, q := s.mem, s.producer, s.mem.q;
    OneConsumer(bs, s, t);
    var k := BlockNo(bs, j.cur - 1);
    assert CountsIn(bs, j) == k;
    QueueFacts(bs, m, p);
    InHand(bs, m, p, j, k);
    FreeMemory(bs, m, p, k);
    var m' := m.(q := q.(freed := q.freed + {k}), store := Release(m.store, j.block));
    NextBlockOk(bs, m', j);
    ProceedsApart(bs, q, m.ix, s.consumers, t, NextBlock(m, j));
    WriteKeeps(bs, s, t, m', NextBlock(m, j));
  }

  lemma MemoryShape<V>(bs: nat, m: Memory<V>, p: Producer<V>)
    requires MemoryOk(bs, m, p)
    ensures Shape(bs, m)
  {
  }

  lemma BlockInHand<V>(bs: nat, m: Memory<V>, p: Producer<V>, c: Consumer<V>)
    requires MemoryOk(bs, m, p) && ConsumerOk(bs, m.q, m.ix, c)
    ensures c.CMove? || c.CEmpty? || c.CClear? || c.CFree? ==> c.job.block < |m.store.blocks|
  {
    QueueFacts(bs, m, p);
    hide MemoryOk;
    match c
    case CMove(j) =>
      NotFreed(bs, m, p, j.cur);
      InHand(bs, m, p, j, BlockNo(bs, j.cur));
    case CEmpty(j) =>
      NotFreed(bs, m, p, j.from);
      InHand(bs, m, p, j, BlockNo(bs, j.from));
    case CClear(j) =>
      InTheIndex(bs, m, p, BlockNo(bs, j.cur - 1));
      InHand(bs, m, p, j, BlockNo(bs, j.cur - 1));
    case CFree(j) => InHand(bs, m, p, j, BlockNo(bs, j.cur - 1));
    case _ =>
  }

  /** Every access of every consumer is in range. */
  lemma ConsumerRuns<V>(bs: nat, s: State<V>, t: nat, want: nat)
    requires Inv(bs, s) && t < |s.consumers|
    ensures Enabled(bs, s, Consume(t, want))
  {
    hide MemoryOk, ConsumersOk, QueueOk, JobOk;
    OneConsumer(bs, s, t);
    MemoryShape(bs, s.mem, s.producer);
    BlockInHand(bs, s.mem, s.producer, s.consumers[t]);
  }

  // Each step as the machine takes it; a consumer with a claim always gets somewhere.

  lemma HeaderStep<V>(bs: nat, s: State<V>, t: nat, want: nat)
    requires Inv(bs, s) && Enabled(bs, s, Consume(t, want)) && (s.consumers[t].CHeader? || s.consumers[t].CTail?)
    ensures Inv(bs, Step(bs, s, Consume(t, want))) && Step(bs, s, Consume(t, want)).consumers[t] != s.consumers[t]
  {
    hide MemoryOk, ConsumersOk, QueueOk, Ok, JobOk, Slot;
    var m, p, c := s.mem, s.producer, s.consumers[t];
    OneConsumer(bs, s, t);
    if c.CHeader? {
      HeaderKeeps(bs, m, p, c.job);
      ReadKeeps(bs, s, t, CTail(c.job.(header := |m.ix.headers| - 1)));
    } else {
      TailKeeps(bs, m, p, c.job);
      ReadKeeps(bs, s, t, CKey(c.job.(slot := m.ix.headers[c.job.header].tail), m.ix.headers[c.job.header].count - 1));
    }
  }

  lemma KeyStep<V>(bs: nat, s: State<V>, t: nat, want: nat, j: Job<V>, top: int)
    requires Inv(bs, s) && Enabled(bs, s, Consume(t, want)) && s.consumers[t] == CKey(j, top)
    ensures Inv(bs, Step(bs, s, Consume(t, want))) && Step(bs, s, Consume(t, want)).consumers[t] != s.consumers[t]
  {
    hide MemoryOk, ConsumersOk, Ok, Slot, LookupSlot;
    var m, p := s.mem, s.producer;
    OneConsumer(bs, s, t);
    LiveBlock(bs, m, p, j.cur);
    KeyFinds(bs, m.q, m.ix, j, top);
    var slot := LookupSlot(bs, m.ix.headers[j.header], j.slot, top * bs, BlockNo(bs, j.cur) * bs);
    ReadKeeps(bs, s, t, CValue(j.(slot := slot)));
  }

  lemma ValueStep<V>(bs: nat, s: State<V>, t: nat, want: nat, j: Job<V>)
    requires Inv(bs, s) && Enabled(bs, s, Consume(t, want)) && s.consumers[t] == CValue(j)
    ensures Inv(bs, Step(bs, s, Consume(t, want))) && Step(bs, s, Consume(t, want)).consumers[t] != s.consumers[t]
  {
    hide MemoryOk, ConsumersOk, Ok, Slot;
    var m, p := s.mem, s.producer;
    OneConsumer(bs, s, t);
    LiveBlock(bs, m, p, j.cur);
    ValueFinds(bs, m.q, m.ix, j, BlockNo(bs, j.cur));
    ReadKeeps(bs, s, t, CMove(j.(block := m.q.blockOf[BlockNo(bs, j.cur)])));
  }

  lemma ClaimStep<V>(bs: nat, s: State<V>, t: nat, want: nat)
    requires Inv(bs, s) && Enabled(bs, s, Consume(t, want)) && s.consumers[t].CIdle? && want > 0
    ensures Inv(bs, Step(bs, s, Consume(t, want)))
  {
    hide Inv;
    if s.mem.q.headIndex + want <= s.mem.q.tailIndex {
      ClaimKeeps(bs, s, t, want);
    } else {
      assert s.consumers[t := s.consumers[t]] == s.consumers;
    }
  }

  lemma MoveStep<V>(bs: nat, s: State<V>, t: nat, want: nat, j: Job<V>)
    requires Inv(bs, s) && Enabled(bs, s, Consume(t, want)) && s.consumers[t] == CMove(j)
    ensures Inv(bs, Step(bs, s, Consume(t, want))) && Step(bs, s, Consume(t, want)).consumers[t] != s.consumers[t]
  {
    hide Inv;
    MoveKeeps(bs, s, t, j);
  }

  lemma CountStep<V>(bs: nat, s: State<V>, t: nat, want: nat, j: Job<V>)
    requires Inv(bs, s) && Enabled(bs, s, Consume(t, want)) && s.consumers[t] == CEmpty(j)
    ensures Inv(bs, Step(bs, s, Consume(t, want))) && Step(bs, s, Consume(t, want)).consumers[t] != s.consumers[t]
  {
    hide Inv, Range;
    CountKeeps(bs, s, t, j);
  }

  lemma ClearStep<V>(bs: nat, s: State<V>, t: nat, want: nat, j: Job<V>)
    requires Inv(bs, s) && Enabled(bs, s, Consume(t, want)) && s.consumers[t] == CClear(j)
    ensures Inv(bs, Step(bs, s, Consume(t, want))) && Step(bs, s, Consume(t, want)).consumers[t] != s.consumers[t]
  {
    hide Inv;
    ClearKeeps(bs, s, t, j);
  }

  lemma FreeStep<V>(bs: nat, s: State<V>, t: nat, want: nat, j: Job<V>)
    requires Inv(bs, s) && Enabled(bs, s, Consume(t, want)) && s.consumers[t] == CFree(j)
    ensures Inv(bs, Step(bs, s, Consume(t, want))) && Step(bs, s, Consume(t, want)).consumers[t] != s.consumers[t]
  {
    hide Inv;
    FreeKeeps(bs, s, t, j);
  }

  /** A consumer with a claim never meets a missing key, a missing block or a missing element: every step
      of it gets somewhere, and every step of any consumer keeps the invariant, as long as it asks for something. */
  lemma ConsumerKeeps<V>(bs: nat, s: State<V>, t: nat, want: nat)
    requires Inv(bs, s) && t < |s.consumers| && (s.consumers[t].CIdle? ==> want > 0)
    ensures Enabled(bs, s, Consume(t, want)) && Inv(bs, Step(bs, s, Consume(t, want)))
    ensures !s.consumers[t].CIdle? ==> Step(bs, s, Consume(t, want)).consumers[t] != s.consumers[t]
  {
    ConsumerRuns(bs, s, t, want);
    hide Inv, Step;
    match s.consumers[t]
    case CIdle(_, _) => ClaimStep(bs, s, t, want);
    case CHeader(_) => HeaderStep(bs, s, t, want);
    case CTail(_) => HeaderStep(bs, s, t, want);
    case CKey(j, top) => KeyStep(bs, s, t, want, j, top);
    case CValue(j) => ValueStep(bs, s, t, want, j);
    case CMove(j) => MoveStep(bs, s, t, want, j);
    case CEmpty(j) => CountStep(bs, s, t, want, j);
    case CClear(j) => ClearStep(bs, s, t, want, j);
    case CFree(j) => FreeStep(bs, s, t, want, j);
  }
}
