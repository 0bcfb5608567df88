/** One implicit producer's sub-queue (external/cameron314/concurrentqueue.h, ImplicitProducer) as an
    interleaving machine: its single producer enqueues one item or a batch, any number of consumers dequeue
    one item or a batch, every atomic access being one step.  How consumers come to claim indices below
    tailIndex is module DequeueCounters; how blocks go to and from the free list is module FreeList. */
module ImplicitQueue {
  import opened Blocks
  import opened ImplicitIndex
  import opened Options
  import Arithmetic

  /** Block: element storage and elementsCompletelyDequeued. */
  datatype Block<V> = Block(elements: seq<Option<V>>, dequeued: nat)

  /** tailIndex and headIndex, and the records of the run: the elements enqueued, the storage block of each
      block number with published elements, which of those were taken off the index (cleared) and put on
      the free list (freed), and which elements were moved out and counted as such. */
  datatype Queue<V> = Queue(
    tailIndex: nat,
    headIndex: nat,
    log: seq<V>,
    blockOf: seq<nat>,
    cleared: set<nat>,
    freed: set<nat>,
    moved: set<nat>,
    counted: set<nat>
  )

  /** holder says which block number a storage block serves; None means it is on the free list. */
  datatype Store<V> = Store(blocks: seq<Block<V>>, holder: seq<Option<nat>>)

  datatype Memory<V> = Memory(q: Queue<V>, ix: Index, store: Store<V>)

  /** What requisition_block comes back with. */
  datatype Supply = Nothing | FromFreeList(block: nat) | NewBlock

  /** The producer, in enqueue or enqueue_bulk of items; mine is the chain of blocks this call has put in
      the index so far, entry the index entry it is working on. */
  datatype Producer<V> =
    | PIdle(ok: bool)
    | PRoom(items: seq<V>, mine: seq<nat>)                            // about to look at the next index entry
    | PKey(items: seq<V>, mine: seq<nat>)                             // about to store its key
    | PTail(items: seq<V>, mine: seq<nat>, entry: nat)                // about to store the index tail
    | PGet(items: seq<V>, mine: seq<nat>, entry: nat)                 // about to requisition a block
    | PReset(items: seq<V>, mine: seq<nat>, entry: nat, block: nat)   // about to reset its counter
    | PValue(items: seq<V>, mine: seq<nat>, entry: nat, block: nat)   // about to store the entry's value
    | PBackTail(mine: seq<nat>, entry: nat)                           // no block: about to rewind the tail
    | PBackClear(mine: seq<nat>, entry: nat)                          // and to clear the entry
    | PUndoClear(mine: seq<nat>, done: nat)                           // about to clear the entry of mine[done]
    | PUndoTail(mine: seq<nat>, done: nat)                            // and to rewind the tail
    | PUndoFree(mine: seq<nat>, done: nat)                            // about to free mine[done]
    | PFill(items: seq<V>, mine: seq<nat>, done: nat)                 // about to construct items[done]
    | PPublish(items: seq<V>, mine: seq<nat>)                         // about to store tailIndex

  /** A consumer's claim [first, end): elements before cur are moved out, those before from are counted
      in their block as well. */
  datatype Job<V> = Job(first: nat, from: nat, cur: nat, end: nat, header: nat, slot: nat, block: nat, got: seq<V>)

  datatype Consumer<V> =
    | CIdle(first: nat, got: seq<V>)       // what the latest call dequeued
    | CHeader(job: Job<V>)                 // about to load blockIndex
    | CTail(job: Job<V>)                   // about to load the header's tail
    | CKey(job: Job<V>, top: int)          // about to load the key at that tail, which is block top's
    | CValue(job: Job<V>)                  // about to load the entry's block
    | CMove(job: Job<V>)                   // about to move one element out
    | CEmpty(job: Job<V>)                  // about to count this block's elements as dequeued
    | CClear(job: Job<V>)                  // the block is empty: about to clear the entry
    | CFree(job: Job<V>)                   // and to put the block on the free list

  datatype State<V> = State(mem: Memory<V>, producer: Producer<V>, consumers: seq<Consumer<V>>)

  datatype Pick<V> = Produce(items: seq<V>, grow: bool, supply: Supply) | Consume(thread: nat, want: nat)

  // ---- The producer's steps ------------------------------------------------------------------------

  predicate Shape<V>(bs: nat, m: Memory<V>) {
    && bs > 1
    && |m.ix.headers| > 0
    && (forall g :: 0 <= g < |m.ix.headers| ==> HeaderOk(m.ix, m.ix.headers[g]))
    && |m.store.holder| == |m.store.blocks|
    && (forall b :: 0 <= b < |m.store.blocks| ==> |m.store.blocks[b].elements| == bs)
  }

  /** The block a call constructs the element of index i in. */
  function Target<V>(bs: nat, q: Queue<V>, mine: seq<nat>, i: nat): Option<nat>
    requires bs > 0
  {
    var k := BlockNo(bs, i);
    if k < |q.blockOf| then Some(q.blockOf[k])
    else if k - |q.blockOf| < |mine| then Some(mine[k - |q.blockOf|])
    else None
  }

  /** Where the call goes when it has mine and its entries in place. */
  function Onward<V>(bs: nat, q: Queue<V>, items: seq<V>, mine: seq<nat>): Producer<V>
    requires bs > 0
  {
    if |mine| < BlockCount(bs, q.tailIndex + |items|) - BlockCount(bs, q.tailIndex) then PRoom(items, mine)
    else if items == [] then PPublish(items, mine)
    else PFill(items, mine, 0)
  }

  function Undo<V>(mine: seq<nat>): Producer<V> { if mine == [] then PIdle(false) else PUndoClear(mine, 0) }

  predicate ProducerInRange<V>(m: Memory<V>, p: Producer<V>) {
    && ((p.PTail? || p.PGet? || p.PReset? || p.PValue? || p.PBackTail? || p.PBackClear?) ==> p.entry < |m.ix.entries|)
    && (p.PReset? || p.PValue? ==> p.block < |m.store.blocks|)
    && (p.PUndoClear? || p.PUndoTail? || p.PUndoFree? ==> p.done < |p.mine|)
    && (p.PUndoFree? ==> p.mine[p.done] < |m.store.blocks|)
    && (p.PFill? ==> p.done < |p.items|)
  }

  function SetBlock<V>(st: Store<V>, b: nat, blk: Block<V>): Store<V>
    requires b < |st.blocks|
  { st.(blocks := st.blocks[b := blk]) }

  function ProducerStep<V>(bs: nat, m: Memory<V>, p: Producer<V>, pick: Pick<V>): (Memory<V>, Producer<V>)
    requires Shape(bs, m) && ProducerInRange(m, p) && pick.Produce?
  {
    match p
    case PIdle(_) => (m, Onward(bs, m.q, pick.items, []))
    case PRoom(items, mine) =>
      if HasRoom(m.ix) then (m, PKey(items, mine))
      else if pick.grow then (m.(ix := Grow(m.ix)), PKey(items, mine))
      else (m, Undo(mine))
    case PKey(items, mine) => (m.(ix := StoreKey(bs, m.ix)), PTail(items, mine, NextEntryId(m.ix)))
    case PTail(items, mine, e) => (m.(ix := StoreTail(m.ix)), PGet(items, mine, e))
    case PGet(items, mine, e) => (
      var k := |m.q.blockOf| + |mine|;
      match pick.supply
      case Nothing => (m, PBackTail(mine, e))
      case FromFreeList(b) =>
        if b < |m.store.blocks| && m.store.holder[b] == None then
          (m.(store := m.store.(holder := m.store.holder[b := Some(k)])), PReset(items, mine, e, b))
        else (m, p)
      case NewBlock =>
        (m.(store := Store(m.store.blocks + [Block(seq(bs, _ => None), 0)], m.store.holder + [Some(k)])),
         PReset(items, mine, e, |m.store.blocks|)))
    case PReset(items, mine, e, b) =>
      (m.(store := SetBlock(m.store, b, m.store.blocks[b].(dequeued := 0))), PValue(items, mine, e, b))
    case PValue(items, mine, e, b) =>
      (m.(ix := StoreValue(m.ix, e, Some(b))), Onward(bs, m.q, items, mine + [b]))
    case PBackTail(mine, e) =>
      if Current(m.ix).count == 0 then (m, p) else (m.(ix := Rewind(m.ix)), PBackClear(mine, e))
    case PBackClear(mine, e) => (m.(ix := StoreValue(m.ix, e, None)), Undo(mine))
    case PUndoClear(mine, d) => (
      var h := Current(m.ix);
      match m.ix.entries[h.index[h.tail]].key
      case None => (m, p)
      case Some(tailBase) =>
        var slot := LookupSlot(bs, h, h.tail, tailBase, (|m.q.blockOf| + d) * bs);
        (m.(ix := StoreValue(m.ix, h.index[slot], None)), PUndoTail(mine, d)))
    case PUndoTail(mine, d) =>
      if Current(m.ix).count == 0 then (m, p)
      else (m.(ix := Rewind(m.ix)), if d + 1 == |mine| then PUndoFree(mine, 0) else PUndoClear(mine, d + 1))
    case PUndoFree(mine, d) =>
      (m.(store := m.store.(holder := m.store.holder[mine[d] := None])),
       if d + 1 == |mine| then PIdle(false) else PUndoFree(mine, d + 1))
    case PFill(items, mine, d) => (
      var i := m.q.tailIndex + d;
      match Target(bs, m.q, mine, i)
      case None => (m, p)
      case Some(b) =>
        if b >= |m.store.blocks| then (m, p) else
        var blk := m.store.blocks[b];
        (m.(store := SetBlock(m.store, b, blk.(elements := blk.elements[i % bs := Some(items[d])]))),
         if d + 1 == |items| then PPublish(items, mine) else PFill(items, mine, d + 1)))
    case PPublish(items, mine) =>
      (m.(q := m.q.(tailIndex := m.q.tailIndex + |items|, log := m.q.log + items, blockOf := m.q.blockOf + mine)),
       PIdle(true))
  }

  // ---- A consumer's steps --------------------------------------------------------------------------

  predicate ConsumerInRange<V>(m: Memory<V>, c: Consumer<V>) {
    && (!c.CIdle? && !c.CHeader? ==> c.job.header < |m.ix.headers|)
    && (c.CKey? || c.CValue? || c.CMove? || c.CEmpty? || c.CClear? || c.CFree? ==>
          c.job.slot < |m.ix.headers[c.job.header].index|)
    && (c.CMove? || c.CEmpty? || c.CClear? || c.CFree? ==> c.job.block < |m.store.blocks|)
    && (c.CEmpty? ==> c.job.from <= c.job.cur)
  }

  /** On to the claim's next block, or out. */
  function NextBlock<V>(m: Memory<V>, j: Job<V>): Consumer<V>
    requires j.header < |m.ix.headers| && m.ix.headers[j.header].capacity > 0
  {
    if j.cur == j.end then CIdle(j.first, j.got)
    else CValue(j.(slot := (j.slot + 1) % m.ix.headers[j.header].capacity))
  }

  /** The block number a consumer counts in, and retires: that of its latest element, or of the head index if it has a
      claim on none. */
  function CountsIn<V>(bs: nat, j: Job<V>): nat
    requires bs > 0
  { if j.first == j.end || j.cur == 0 then BlockNo(bs, j.cur) else BlockNo(bs, j.cur - 1) }

  /** A bulk dequeue of no elements makes a claim on none, and still looks up the block and counts there. */
  function ConsumerStep<V>(bs: nat, m: Memory<V>, c: Consumer<V>, want: nat): (Memory<V>, Consumer<V>)
    requires Shape(bs, m) && ConsumerInRange(m, c)
  {
    match c
    case CIdle(_, _) =>
      var h := m.q.headIndex;
      if h + want <= m.q.tailIndex then
        (m.(q := m.q.(headIndex := h + want)), CHeader(Job(h, h, h, h + want, 0, 0, 0, [])))
      else (m, c)
    case CHeader(j) => (m, CTail(j.(header := |m.ix.headers| - 1)))
    case CTail(j) => (m, CKey(j.(slot := m.ix.headers[j.header].tail), m.ix.headers[j.header].count - 1))
    case CKey(j, _) => (
      var h := m.ix.headers[j.header];
      match m.ix.entries[h.index[j.slot]].key
      case None => (m, c)
      case Some(tailBase) => (m, CValue(j.(slot := LookupSlot(bs, h, j.slot, tailBase, BlockNo(bs, j.cur) * bs)))))
    case CValue(j) => (
      match m.ix.entries[m.ix.headers[j.header].index[j.slot]].value
      case None => (m, c)
      case Some(b) =>
        if b >= |m.store.blocks| then (m, c)
        else (m, if j.cur == j.end then CEmpty(j.(block := b)) else CMove(j.(block := b))))
    case CMove(j) => (
      var blk := m.store.blocks[j.block];
      match blk.elements[j.cur % bs]
      case None => (m, c)
      case Some(v) =>
        var j' := j.(cur := j.cur + 1, got := j.got + [v]);
        (m.(store := SetBlock(m.store, j.block, blk.(elements := blk.elements[j.cur % bs := None])),
            q := m.q.(moved := m.q.moved + {j.cur})),
         if j'.cur == j'.end || j'.cur % bs == 0 then CEmpty(j') else CMove(j')))
    case CEmpty(j) =>
      var blk := m.store.blocks[j.block];
      var n := blk.dequeued + (j.cur - j.from);
      var j' := j.(from := j.cur);
      var m' := m.(store := SetBlock(m.store, j.block, blk.(dequeued := n)),
                   q := m.q.(counted := m.q.counted + Range(j.from, j.cur)));
      (m', if n == bs then CClear(j') else NextBlock(m', j'))
    case CClear(j) =>
      (m.(ix := StoreValue(m.ix, m.ix.headers[j.header].index[j.slot], None),
          q := m.q.(cleared := m.q.cleared + {CountsIn(bs, j)})),
       CFree(j))
    case CFree(j) =>
      var m' := m.(store := m.store.(holder := m.store.holder[j.block := None]),
                   q := m.q.(freed := m.q.freed + {CountsIn(bs, j)}));
      (m', NextBlock(m', j))
  }

  predicate Enabled<V>(bs: nat, s: State<V>, pick: Pick<V>) {
    && Shape(bs, s.mem)
    && match pick
       case Produce(_, _, _) => ProducerInRange(s.mem, s.producer)
       case Consume(t, _) => t < |s.consumers| && ConsumerInRange(s.mem, s.consumers[t])
  }

  function Step<V>(bs: nat, s: State<V>, pick: Pick<V>): State<V>
    requires Enabled(bs, s, pick)
  {
    match pick
    case Produce(_, _, _) =>
      var (m, p) := ProducerStep(bs, s.mem, s.producer, pick);
      State(m, p, s.consumers)
    case Consume(t, want) =>
      var (m, c) := ConsumerStep(bs, s.mem, s.consumers[t], want);
      State(m, s.producer, s.consumers[t := c])
  }

  function Start<V>(capacity: nat, consumerCount: nat): State<V>
    requires capacity > 0
  {
    State(Memory(Queue(0, 0, [], [], {}, {}, {}, {}), ImplicitIndex.Init(capacity), Store([], [])),
          PIdle(true), seq(consumerCount, _ => CIdle(0, [])))
  }

  // ---- The invariant -------------------------------------------------------------------------------

  ghost predicate QueueOk<V>(bs: nat, q: Queue<V>)
    requires bs > 0
  {
    && |q.log| == q.tailIndex
    && q.headIndex <= q.tailIndex
    && |q.blockOf| == BlockCount(bs, q.tailIndex)
    && q.freed <= q.cleared
    && (forall k :: k in q.cleared ==> k < |q.blockOf|)
    && (forall i: nat :: BlockNo(bs, i) in q.cleared ==> i in q.counted)
    && q.counted <= q.moved
    && (forall i :: i in q.moved ==> i < q.headIndex)
  }

  /** The chain of blocks the producer's call has in hand. */
  function Mine<V>(p: Producer<V>): seq<nat> { if p.PIdle? then [] else p.mine }

  /** How many entries from the front of the chain the call has already undone. */
  function Undone<V>(p: Producer<V>): nat {
    match p
    case PUndoClear(_, d) => d
    case PUndoTail(_, d) => d + 1
    case PUndoFree(mine, _) => |mine|
    case _ => 0
  }

  /** How many blocks the index tail is past the published ones. */
  function Extra<V>(p: Producer<V>): int {
    match p
    case PGet(_, mine, _) => |mine| + 1
    case PReset(_, mine, _, _) => |mine| + 1
    case PValue(_, mine, _, _) => |mine| + 1
    case PBackTail(mine, _) => |mine| + 1
    case PUndoClear(mine, d) => |mine| - d
    case PUndoTail(mine, d) => |mine| - d
    case PUndoFree(_, _) => 0
    case _ => |Mine(p)|
  }

  predicate AtEntry<V>(p: Producer<V>) {
    p.PTail? || p.PGet? || p.PReset? || p.PValue? || p.PBackTail? || p.PBackClear?
  }

  /** Block k is the one whose entry the call is working on; its value is not set yet. */
  predicate Working<V>(q: Queue<V>, p: Producer<V>, k: nat) { AtEntry(p) && k == |q.blockOf| + |p.mine| }

  /** The value the entry of block k holds. */
  function ValueOf<V>(q: Queue<V>, p: Producer<V>, k: nat): Option<nat> {
    var n := |q.blockOf|;
    if k < n then (if k in q.cleared then None else Some(q.blockOf[k]))
    else if Undone(p) <= k - n < |Mine(p)| then Some(Mine(p)[k - n])
    else None
  }

  ghost predicate ValuesOk<V>(bs: nat, q: Queue<V>, ix: Index, p: Producer<V>) {
    && Ok(bs, ix)
    && ix.low <= |q.blockOf|
    && (forall k: nat :: k < ix.low ==> k in q.cleared)
    && Current(ix).count == |q.blockOf| + Extra(p)
    && |q.blockOf| + |Mine(p)| <= ix.high
    && (forall k :: ix.low <= k < ix.high && !Working(q, p, k) ==> EntryOf(ix, k).value == ValueOf(q, p, k))
    && (AtEntry(p) ==> p.entry == EntryId(ix, |q.blockOf| + |p.mine|))
    && (AtEntry(p) ==> |q.blockOf| + |p.mine| < ix.high)
    && (p.PKey? ==> HasRoom(ix))
  }

  /** How many elements past tailIndex the producer's call has constructed. */
  function Filled<V>(p: Producer<V>): nat {
    match p
    case PFill(_, _, d) => d
    case PPublish(items, _) => |items|
    case _ => 0
  }

  /** What the storage of index i holds. */
  function Expected<V>(q: Queue<V>, p: Producer<V>, i: nat): Option<V>
    requires |q.log| == q.tailIndex && (p.PFill? ==> p.done <= |p.items|)
  {
    if i < q.tailIndex then (if i in q.moved then None else Some(q.log[i]))
    else if i < q.tailIndex + Filled(p) then Some(p.items[i - q.tailIndex])
    else None
  }

  /** How many of the first n elements of block k are counted. */
  function Counted(bs: nat, counted: set<nat>, k: nat, n: nat): nat {
    if n == 0 then 0 else Counted(bs, counted, k, n - 1) + (if k * bs + (n - 1) in counted then 1 else 0)
  }

  /** The part of the chain whose blocks the call still has. */
  function KeptFrom<V>(p: Producer<V>): nat { if p.PUndoFree? then p.done else 0 }

  ghost predicate HoldersOk<V>(q: Queue<V>, st: Store<V>, p: Producer<V>) {
    && |st.holder| == |st.blocks|
    && (forall k: nat :: k < |q.blockOf| && k !in q.freed ==>
          q.blockOf[k] < |st.holder| && st.holder[q.blockOf[k]] == Some(k))
    && (forall j: nat :: KeptFrom(p) <= j < |Mine(p)| ==>
          Mine(p)[j] < |st.holder| && st.holder[Mine(p)[j]] == Some(|q.blockOf| + j))
    && (p.PReset? || p.PValue? ==>
          p.block < |st.holder| && st.holder[p.block] == Some(|q.blockOf| + |p.mine|))
    && (forall b :: 0 <= b < |st.holder| && st.holder[b].Some? ==> Serves(q, p, b, st.holder[b].value))
  }

  /** Storage block b is the one block number k is served by. */
  ghost predicate Serves<V>(q: Queue<V>, p: Producer<V>, b: nat, k: nat) {
    var n := |q.blockOf|;
    if k < n then k !in q.freed && b == q.blockOf[k]
    else if k - n < |Mine(p)| then KeptFrom(p) <= k - n && b == Mine(p)[k - n]
    else (p.PReset? || p.PValue?) && k == n + |p.mine| && b == p.block
  }

  ghost predicate ElementsOk<V>(bs: nat, q: Queue<V>, st: Store<V>, p: Producer<V>)
    requires bs > 0 && |q.log| == q.tailIndex && |st.holder| == |st.blocks| && (p.PFill? ==> p.done <= |p.items|)
  {
    && (forall b :: 0 <= b < |st.blocks| ==> |st.blocks[b].elements| == bs)
    && (forall b, o :: 0 <= b < |st.blocks| && 0 <= o < bs && st.holder[b] == None ==> st.blocks[b].elements[o] == None)
    && (forall b, i: nat :: 0 <= b < |st.blocks| && st.holder[b] == Some(BlockNo(bs, i)) ==>
          st.blocks[b].elements[i % bs] == Expected(q, p, i))
  }

  ghost predicate CountersOk<V>(bs: nat, q: Queue<V>, st: Store<V>, p: Producer<V>)
    requires HoldersOk(q, st, p) && q.freed <= q.cleared
  {
    && (forall k: nat :: k < |q.blockOf| && k !in q.cleared ==>
          st.blocks[q.blockOf[k]].dequeued == Counted(bs, q.counted, k, bs))
    && (forall j: nat :: KeptFrom(p) <= j < |Mine(p)| ==> st.blocks[Mine(p)[j]].dequeued == 0)
    && (p.PValue? ==> st.blocks[p.block].dequeued == 0)
  }

  ghost predicate ProducerOk<V>(bs: nat, q: Queue<V>, p: Producer<V>)
    requires bs > 0
  {
    && (p.PUndoClear? || p.PUndoTail? || p.PUndoFree? ==> p.done < |p.mine|)
    && (p.PFill? ==> p.done < |p.items|)
    && (p.PRoom? || p.PKey? || p.PTail? || p.PGet? || p.PReset? || p.PValue? ==>
          |p.mine| < BlockCount(bs, q.tailIndex + |p.items|) - BlockCount(bs, q.tailIndex))
    && (p.PFill? || p.PPublish? ==>
          |p.mine| == BlockCount(bs, q.tailIndex + |p.items|) - BlockCount(bs, q.tailIndex))
  }

  ghost predicate JobOk<V>(q: Queue<V>, j: Job<V>)
  {
    && j.first <= j.from <= j.cur <= j.end <= q.headIndex <= |q.log| && j.first < j.end
    && j.got == q.log[j.first..j.cur]
    && (forall i :: j.from <= i < j.cur ==> i in q.moved && i !in q.counted)
    && (forall i :: j.cur <= i < j.end ==> i !in q.moved)
  }

  /** The claim's blocks are all within reach of the header it uses. */
  ghost predicate Reaches<V>(bs: nat, ix: Index, j: Job<V>)
    requires bs > 0
  { j.header < |ix.headers| && j.end > 0 && BlockNo(bs, j.end - 1) < Reach(ix, j.header) }

  /** The slot in hand is the one of block k. */
  ghost predicate SlotIs<V>(ix: Index, j: Job<V>, k: nat)
    requires j.header < |ix.headers|
  { ix.headers[j.header].capacity > 0 && j.slot == Slot(ix.headers[j.header], k) }

  ghost predicate ConsumerOk<V>(bs: nat, q: Queue<V>, ix: Index, c: Consumer<V>)
    requires bs > 0
  {
    match c
    case CIdle(first, got) => first + |got| <= |q.log| && got == q.log[first..first + |got|]
    case CHeader(j) => JobOk(q, j) && j.from == j.cur < j.end
    case CTail(j) =>
      && JobOk(q, j) && j.from == j.cur < j.end
      && j.header < |ix.headers| && BlockNo(bs, j.end - 1) < ix.headers[j.header].count
    case CKey(j, top) =>
      && JobOk(q, j) && j.from == j.cur < j.end && Reaches(bs, ix, j)
      && BlockNo(bs, j.end - 1) <= top < Reach(ix, j.header) && SlotIs(ix, j, top)
    case CValue(j) =>
      && JobOk(q, j) && j.from == j.cur < j.end && Reaches(bs, ix, j) && SlotIs(ix, j, BlockNo(bs, j.cur))
    case CMove(j) =>
      && JobOk(q, j) && j.cur < j.end && Reaches(bs, ix, j) && SlotIs(ix, j, BlockNo(bs, j.cur))
      && BlockNo(bs, j.from) == BlockNo(bs, j.cur) && HasBlock(q, j, BlockNo(bs, j.cur))
    case CEmpty(j) =>
      && JobOk(q, j) && j.from < j.cur && Reaches(bs, ix, j) && SlotIs(ix, j, BlockNo(bs, j.from))
      && BlockNo(bs, j.cur - 1) == BlockNo(bs, j.from) && HasBlock(q, j, BlockNo(bs, j.from))
      && (j.cur == j.end || j.cur % bs == 0)
    case CClear(j) =>
      && JobOk(q, j) && 0 < j.cur == j.from && Reaches(bs, ix, j) && SlotIs(ix, j, BlockNo(bs, j.cur - 1))
      && HasBlock(q, j, BlockNo(bs, j.cur - 1)) && BlockNo(bs, j.cur - 1) !in q.cleared
      && (forall i: nat :: BlockNo(bs, i) == BlockNo(bs, j.cur - 1) ==> i in q.counted)
      && (j.cur == j.end || j.cur % bs == 0)
    case CFree(j) =>
      && JobOk(q, j) && 0 < j.cur == j.from && Reaches(bs, ix, j) && SlotIs(ix, j, BlockNo(bs, j.cur - 1))
      && HasBlock(q, j, BlockNo(bs, j.cur - 1))
      && BlockNo(bs, j.cur - 1) in q.cleared && BlockNo(bs, j.cur - 1) !in q.freed
      && (j.cur == j.end || j.cur % bs == 0)
  }

  ghost predicate HasBlock<V>(q: Queue<V>, j: Job<V>, k: nat) { k < |q.blockOf| && j.block == q.blockOf[k] }

  /** Two consumers share neither elements nor the block they are retiring. */
  ghost predicate Apart<V>(bs: nat, c: Consumer<V>, d: Consumer<V>)
    requires bs > 0
  {
    !c.CIdle? && !d.CIdle? ==>
      && (c.job.end <= d.job.from || d.job.end <= c.job.from)
      && ((c.CClear? || c.CFree?) && (d.CClear? || d.CFree?) && c.job.cur > 0 && d.job.cur > 0 ==>
            BlockNo(bs, c.job.cur - 1) != BlockNo(bs, d.job.cur - 1))
  }

  ghost predicate ConsumersOk<V>(bs: nat, q: Queue<V>, ix: Index, cs: seq<Consumer<V>>)
    requires bs > 0
  {
    && (forall t :: 0 <= t < |cs| ==> ConsumerOk(bs, q, ix, cs[t]))
    && (forall t, u :: 0 <= t < |cs| && 0 <= u < |cs| && t != u ==> Apart(bs, cs[t], cs[u]))
  }

  ghost predicate MemoryOk<V>(bs: nat, m: Memory<V>, p: Producer<V>) {
    && bs > 1
    && QueueOk(bs, m.q)
    && ProducerOk(bs, m.q, p)
    && ValuesOk(bs, m.q, m.ix, p)
    && HoldersOk(m.q, m.store, p)
    && ElementsOk(bs, m.q, m.store, p)
    && CountersOk(bs, m.q, m.store, p)
  }

  ghost predicate Inv<V>(bs: nat, s: State<V>) {
    && MemoryOk(bs, s.mem, s.producer)
    && ConsumersOk(bs, s.mem.q, s.mem.ix, s.consumers)
  }

  // ---- Consumers and the producer's steps ----------------------------------------------------------

  /** What the producer's steps leave alone of the queue's records. */
  ghost predicate QueueExtends<V>(q: Queue<V>, q': Queue<V>) {
    && q'.headIndex == q.headIndex
    && q.log <= q'.log
    && q.blockOf <= q'.blockOf
    && q'.cleared == q.cleared && q'.freed == q.freed && q'.moved == q.moved && q'.counted == q.counted
  }

  lemma ConsumerFrame<V>(bs: nat, q: Queue<V>, q': Queue<V>, ix: Index, ix': Index, c: Consumer<V>)
    requires bs > 0 && QueueOk(bs, q) && ConsumerOk(bs, q, ix, c)
    requires QueueExtends(q, q') && Extends(ix, ix', |q.blockOf|)
    ensures ConsumerOk(bs, q', ix', c)
  {
    if c.CTail? { BlockNoBelow(bs, c.job.end - 1, q.tailIndex); }
  }

  lemma ConsumersFrame<V>(bs: nat, q: Queue<V>, q': Queue<V>, ix: Index, ix': Index, cs: seq<Consumer<V>>)
    requires bs > 0 && QueueOk(bs, q) && ConsumersOk(bs, q, ix, cs)
    requires QueueExtends(q, q') && Extends(ix, ix', |q.blockOf|)
    ensures ConsumersOk(bs, q', ix', cs)
  {
    forall t | 0 <= t < |cs| ensures ConsumerOk(bs, q', ix', cs[t]) {
      ConsumerFrame(bs, q, q', ix, ix', cs[t]);
    }
  }

  /** Two program points between which the producer only moves on. */
  predicate SameView<V>(p: Producer<V>, p': Producer<V>) {
    && Mine(p') == Mine(p) && Undone(p') == Undone(p) && Extra(p') == Extra(p)
    && Filled(p') == 0 && Filled(p) == 0 && KeptFrom(p') == KeptFrom(p)
  }

  lemma ProducerMoves<V>(bs: nat, s: State<V>, p': Producer<V>)
    requires Inv(bs, s) && SameView(s.producer, p') && ProducerOk(bs, s.mem.q, p')
    requires p'.PKey? ==> HasRoom(s.mem.ix)
    requires AtEntry(p') == AtEntry(s.producer) && (AtEntry(p') ==> p'.entry == s.producer.entry)
    requires !p'.PReset? && !p'.PValue? && !s.producer.PReset? && !s.producer.PValue?
    ensures Inv(bs, s.(producer := p'))
  {
    var q, p := s.mem.q, s.producer;
    assert forall b: nat, k: nat :: Serves(q, p', b, k) == Serves(q, p, b, k);
    assert forall k: nat :: Working(q, p', k) == Working(q, p, k);
    assert forall k: nat :: ValueOf(q, p', k) == ValueOf(q, p, k);
    assert forall i: nat :: Expected(q, p', i) == Expected(q, p, i);
  }

  /** A step that only changes the index. */
  lemma IndexChanges<V>(bs: nat, s: State<V>, ix': Index, p': Producer<V>)
    requires Inv(bs, s) && ProducerOk(bs, s.mem.q, p')
    requires ValuesOk(bs, s.mem.q, ix', p') && Extends(s.mem.ix, ix', |s.mem.q.blockOf|)
    requires Mine(p') == Mine(s.producer) && KeptFrom(p') == KeptFrom(s.producer)
    requires Filled(p') == 0 && Filled(s.producer) == 0
    requires !p'.PReset? && !p'.PValue? && !s.producer.PReset? && !s.producer.PValue?
    ensures Inv(bs, State(s.mem.(ix := ix'), p', s.consumers))
  {
    hide ValuesOk, ConsumersOk, ElementsOk, CountersOk;
    var q, p := s.mem.q, s.producer;
    HoldersFrame(q, s.mem.store, p, p');
    ElementsFrame(bs, q, s.mem.store, p, p');
    CountersFrame(bs, q, s.mem.store, p, p');
    ConsumersFrame(bs, q, q, s.mem.ix, ix', s.consumers);
  }

  lemma HoldersFrame<V>(q: Queue<V>, st: Store<V>, p: Producer<V>, p': Producer<V>)
    requires HoldersOk(q, st, p) && Mine(p') == Mine(p) && KeptFrom(p') == KeptFrom(p)
    requires !p'.PReset? && !p'.PValue? && !p.PReset? && !p.PValue?
    ensures HoldersOk(q, st, p')
  {
    assert forall b: nat, k: nat :: Serves(q, p', b, k) == Serves(q, p, b, k);
  }

  lemma ElementsFrame<V>(bs: nat, q: Queue<V>, st: Store<V>, p: Producer<V>, p': Producer<V>)
    requires bs > 0 && |q.log| == q.tailIndex && |st.holder| == |st.blocks| && Filled(p) == 0 && Filled(p') == 0
    requires (p.PFill? ==> p.done <= |p.items|) && (p'.PFill? ==> p'.done <= |p'.items|) && ElementsOk(bs, q, st, p)
    ensures ElementsOk(bs, q, st, p')
  {
    assert forall i: nat :: Expected(q, p', i) == Expected(q, p, i);
  }

  lemma CountersFrame<V>(bs: nat, q: Queue<V>, st: Store<V>, p: Producer<V>, p': Producer<V>)
    requires HoldersOk(q, st, p) && HoldersOk(q, st, p') && q.freed <= q.cleared && CountersOk(bs, q, st, p)
    requires Mine(p') == Mine(p) && KeptFrom(p') == KeptFrom(p) && !p'.PValue?
    ensures CountersOk(bs, q, st, p')
  {
  }

  lemma StartKeeps<V>(bs: nat, s: State<V>, pick: Pick<V>)
    requires Inv(bs, s) && pick.Produce? && s.producer.PIdle?
    ensures Enabled(bs, s, pick) && Inv(bs, Step(bs, s, pick))
  {
    var q := s.mem.q;
    BlockCountMonotone(bs, q.tailIndex, |pick.items|);
    ProducerMoves(bs, s, Onward(bs, q, pick.items, []));
  }

  // The index side of the producer's steps: each lemma takes ValuesOk from one program point to the next.

  /** The next entry is in use only when the index is full and its oldest block is alive. */
  lemma NoRoomMeansFull<V>(bs: nat, q: Queue<V>, ix: Index, p: Producer<V>)
    requires ValuesOk(bs, q, ix, p) && p.PRoom? && !HasRoom(ix)
    ensures Current(ix).count == ix.high == ix.low + Current(ix).capacity
  {
    var n := Current(ix).count;
    NextIsCount(ix);
    assert n < ix.high ==> EntryOf(ix, n).value == ValueOf(q, p, n);
    assert ix.high <= n < ix.low + Current(ix).capacity ==> EntryOf(ix, n).key == None;
  }

  lemma GrowValues<V>(bs: nat, q: Queue<V>, ix: Index, p: Producer<V>)
    requires ValuesOk(bs, q, ix, p) && p.PRoom? && !HasRoom(ix)
    ensures ValuesOk(bs, q, Grow(ix), PKey(p.items, p.mine)) && Extends(ix, Grow(ix), |q.blockOf|)
  {
    var ix', p' := Grow(ix), PKey(p.items, p.mine);
    NoRoomMeansFull(bs, q, ix, p);
    GrowOk(bs, ix);
    forall k | ix'.low <= k < ix'.high ensures EntryOf(ix', k).value == ValueOf(q, p', k) {
      assert EntryId(ix', k) == EntryId(ix, k);
      assert EntryOf(ix, k).value == ValueOf(q, p, k);
    }
  }

  /** The entry about to be given to a new block is not in use: if it belonged to a block, that block was
      retired. */
  lemma ReusedIsCleared<V>(bs: nat, q: Queue<V>, ix: Index, p: Producer<V>)
    requires ValuesOk(bs, q, ix, p) && p.PKey?
    requires Current(ix).count == ix.high == ix.low + Current(ix).capacity
    ensures ix.low in q.cleared && ix.low < |q.blockOf|
  {
    NextIsCount(ix);
    SameEntryALapOn(bs, ix, ix.low);
    assert EntryOf(ix, ix.low).key == Some(ix.low * bs);
    assert EntryOf(ix, ix.low).value == ValueOf(q, p, ix.low);
  }

  lemma KeyValues<V>(bs: nat, q: Queue<V>, ix: Index, p: Producer<V>)
    requires ValuesOk(bs, q, ix, p) && p.PKey?
    ensures ValuesOk(bs, q, StoreKey(bs, ix), PTail(p.items, p.mine, NextEntryId(ix)))
    ensures Extends(ix, StoreKey(bs, ix), |q.blockOf|)
  {
    var ix', p' := StoreKey(bs, ix), PTail(p.items, p.mine, NextEntryId(ix));
    NextIsCount(ix);
    StoreKeyOk(bs, ix);
    if Current(ix).count == ix.high == ix.low + Current(ix).capacity { ReusedIsCleared(bs, q, ix, p); }
    forall k | ix'.low <= k < ix'.high && !Working(q, p', k) ensures EntryOf(ix', k).value == ValueOf(q, p', k) {
      assert EntryOf(ix, k).value == ValueOf(q, p, k);
    }
  }

  /** Moving the tail of the current header changes no entry. */
  lemma TailValues<V>(bs: nat, q: Queue<V>, ix: Index, p: Producer<V>)
    requires ValuesOk(bs, q, ix, p) && p.PTail?
    ensures ValuesOk(bs, q, StoreTail(ix), PGet(p.items, p.mine, p.entry))
    ensures Extends(ix, StoreTail(ix), |q.blockOf|)
  {
    var ix', p' := StoreTail(ix), PGet(p.items, p.mine, p.entry);
    StoreTailOk(bs, ix);
    forall k | ix'.low <= k < ix'.high && !Working(q, p', k) ensures EntryOf(ix', k).value == ValueOf(q, p', k) {
      assert EntryOf(ix, k).value == ValueOf(q, p, k);
    }
  }

  lemma BackTailValues<V>(bs: nat, q: Queue<V>, ix: Index, p: Producer<V>)
    requires ValuesOk(bs, q, ix, p) && p.PBackTail?
    ensures Current(ix).count > 0
    ensures ValuesOk(bs, q, Rewind(ix), PBackClear(p.mine, p.entry))
    ensures Extends(ix, Rewind(ix), |q.blockOf|)
  {
    var ix', p': Producer<V> := Rewind(ix), PBackClear(p.mine, p.entry);
    RewindOk(bs, ix);
    forall k | ix'.low <= k < ix'.high && !Working(q, p', k) ensures EntryOf(ix', k).value == ValueOf(q, p', k) {
      assert EntryOf(ix, k).value == ValueOf(q, p, k);
    }
  }

  lemma UndoTailValues<V>(bs: nat, q: Queue<V>, ix: Index, p: Producer<V>, p': Producer<V>)
    requires ValuesOk(bs, q, ix, p) && p.PUndoTail? && p.done < |p.mine|
    requires p' == if p.done + 1 == |p.mine| then PUndoFree(p.mine, 0) else PUndoClear(p.mine, p.done + 1)
    ensures Current(ix).count > 0
    ensures ValuesOk(bs, q, Rewind(ix), p') && Extends(ix, Rewind(ix), |q.blockOf|)
  {
    var ix' := Rewind(ix);
    RewindOk(bs, ix);
    forall k | ix'.low <= k < ix'.high ensures EntryOf(ix', k).value == ValueOf(q, p', k) {
      assert EntryOf(ix, k).value == ValueOf(q, p, k);
    }
  }

  /** Storing a value in the entry of block k touches no other block's entry. */
  lemma ValueStored(bs: nat, ix: Index, k: nat, v: Option<nat>, j: nat)
    requires Ok(bs, ix) && ix.low <= k < ix.high && ix.low <= j < ix.high
    ensures var ix' := StoreValue(ix, EntryId(ix, k), v);
            HeaderOk(ix', Current(ix')) && EntryOf(ix', j).value == if j == k then v else EntryOf(ix, j).value
  {
    StoreValueOk(bs, ix, EntryId(ix, k), v);
    if j < k { EntriesDiffer(bs, ix, j, k); }
    if k < j { EntriesDiffer(bs, ix, k, j); }
  }

  /** A step that stores the value of block k's entry. */
  lemma StoreValues<V>(bs: nat, q: Queue<V>, ix: Index, p: Producer<V>, k: nat, v: Option<nat>, p': Producer<V>)
    requires ValuesOk(bs, q, ix, p) && ix.low <= k < ix.high
    requires forall j: nat :: Working(q, p, j) ==> j == k
    requires forall j: nat :: ValueOf(q, p', j) == if j == k then v else ValueOf(q, p, j)
    requires !AtEntry(p') && !p'.PKey? && Extra(p') == Extra(p) && |q.blockOf| + |Mine(p')| <= ix.high
    ensures ValuesOk(bs, q, StoreValue(ix, EntryId(ix, k), v), p')
    ensures Extends(ix, StoreValue(ix, EntryId(ix, k), v), |q.blockOf|)
  {
    var ix' := StoreValue(ix, EntryId(ix, k), v);
    StoreValueOk(bs, ix, EntryId(ix, k), v);
    forall j | ix'.low <= j < ix'.high ensures EntryOf(ix', j).value == ValueOf(q, p', j) {
      ValueStored(bs, ix, k, v, j);
      assert !Working(q, p, j) ==> EntryOf(ix, j).value == ValueOf(q, p, j);
    }
  }

  /** Undoing finds the entry of each block of the chain, wherever the tail stands by then. */
  lemma UndoFinds<V>(bs: nat, q: Queue<V>, ix: Index, p: Producer<V>)
    requires ValuesOk(bs, q, ix, p) && p.PUndoClear? && p.done < |p.mine| && bs > 0
    ensures var h, k := Current(ix), |q.blockOf| + p.done;
            && ix.entries[h.index[h.tail]].key == Some((h.count - 1) * bs)
            && LookupSlot(bs, h, h.tail, (h.count - 1) * bs, k * bs) == Slot(h, k)
            && ix.low <= k < ix.high && h.index[Slot(h, k)] == EntryId(ix, k)
  {
    var h, k := Current(ix), |q.blockOf| + p.done;
    var top := h.count - 1;
    assert EntryOf(ix, top).key == Some(top * bs);
    Arithmetic.Distribute(k, top, bs);
    Arithmetic.QuotientRemainder((k - top) * bs, bs, k - top, 0);
    Arithmetic.RingShift(top + h.off, k - top, h.capacity);
  }

  // The storage side of the producer's steps.

  /** A block number past the published ones has only elements past tailIndex, none of them constructed
      unless the call is filling them. */
  lemma PastTail<V>(bs: nat, q: Queue<V>, i: nat)
    requires bs > 0 && QueueOk(bs, q) && BlockNo(bs, i) >= |q.blockOf|
    ensures i >= q.tailIndex && i !in q.counted && i !in q.moved
  {
    BlockNoBelow(bs, i, q.tailIndex);
  }

  lemma StoreChanges<V>(bs: nat, s: State<V>, store': Store<V>, p': Producer<V>)
    requires Inv(bs, s) && ProducerOk(bs, s.mem.q, p') && ValuesOk(bs, s.mem.q, s.mem.ix, p')
    requires HoldersOk(s.mem.q, store', p')
    requires ElementsOk(bs, s.mem.q, store', p')
    requires CountersOk(bs, s.mem.q, store', p')
    ensures Inv(bs, State(s.mem.(store := store'), p', s.consumers))
  {
  }

  lemma GetValues<V>(bs: nat, q: Queue<V>, ix: Index, p: Producer<V>, p': Producer<V>)
    requires ValuesOk(bs, q, ix, p)
    requires (p.PGet? && p'.PReset?) || (p.PReset? && p'.PValue?)
    requires p'.items == p.items && p'.mine == p.mine && p'.entry == p.entry
    ensures ValuesOk(bs, q, ix, p')
  {
    assert forall k: nat :: ValueOf(q, p', k) == ValueOf(q, p, k) && Working(q, p', k) == Working(q, p, k);
  }

  /** A bare block is held for the next block number. */
  lemma BareElements<V>(bs: nat, q: Queue<V>, st: Store<V>, st': Store<V>, p: Producer<V>, p': Producer<V>, b: nat)
    requires bs > 0 && QueueOk(bs, q) && p.PGet? && p'.PReset? && |st.blocks| == |st.holder| && ElementsOk(bs, q, st, p)
    requires |st'.blocks| == |st'.holder| && b < |st'.blocks| && st'.holder[b] == Some(|q.blockOf| + |p.mine|)
    requires |st'.blocks[b].elements| == bs && forall o :: 0 <= o < bs ==> st'.blocks[b].elements[o] == None
    requires forall c :: 0 <= c < |st'.blocks| && c != b ==>
               c < |st.blocks| && st'.blocks[c] == st.blocks[c] && st'.holder[c] == st.holder[c]
    ensures ElementsOk(bs, q, st', p')
  {
    forall c, i: nat | 0 <= c < |st'.blocks| && st'.holder[c] == Some(BlockNo(bs, i))
      ensures st'.blocks[c].elements[i % bs] == Expected(q, p', i)
    {
      assert Expected(q, p', i) == Expected(q, p, i);
      if c == b { PastTail(bs, q, i); }
    }
  }

  lemma TakenHolders<V>(bs: nat, q: Queue<V>, st: Store<V>, p: Producer<V>, b: nat)
    requires HoldersOk(q, st, p) && q.freed <= q.cleared && CountersOk(bs, q, st, p) && p.PGet? && b < |st.blocks| && st.holder[b] == None
    ensures var st', p' := st.(holder := st.holder[b := Some(|q.blockOf| + |p.mine|)]), PReset(p.items, p.mine, p.entry, b);
            HoldersOk(q, st', p') && CountersOk(bs, q, st', p')
  {
    hide Counted;
    var st', p' := st.(holder := st.holder[b := Some(|q.blockOf| + |p.mine|)]), PReset(p.items, p.mine, p.entry, b);
    assert Mine(p') == Mine(p) && KeptFrom(p') == KeptFrom(p);
    forall c | 0 <= c < |st'.holder| && st'.holder[c].Some? ensures Serves(q, p', c, st'.holder[c].value) {
      assert c != b ==> Serves(q, p, c, st.holder[c].value);
    }
  }

  lemma TakeFreeKeeps<V>(bs: nat, s: State<V>, b: nat)
    requires Inv(bs, s) && s.producer.PGet? && b < |s.mem.store.blocks| && s.mem.store.holder[b] == None
    ensures var PGet(items, mine, e) := s.producer;
            var st := s.mem.store.(holder := s.mem.store.holder[b := Some(|s.mem.q.blockOf| + |mine|)]);
            Inv(bs, State(s.mem.(store := st), PReset(items, mine, e, b), s.consumers))
  {
    var q, p := s.mem.q, s.producer;
    var k := |q.blockOf| + |p.mine|;
    var p' := PReset(p.items, p.mine, p.entry, b);
    var st' := s.mem.store.(holder := s.mem.store.holder[b := Some(k)]);
    GetValues(bs, q, s.mem.ix, p, p');
    BareElements(bs, q, s.mem.store, st', p, p', b);
    TakenHolders(bs, q, s.mem.store, p, b);
    hide ElementsOk, ValuesOk, ConsumersOk, QueueOk, HoldersOk, CountersOk;
    StoreChanges(bs, s, st', p');
  }

  lemma NewBlockKeeps<V>(bs: nat, s: State<V>)
    requires Inv(bs, s) && s.producer.PGet?
    ensures var PGet(items, mine, e) := s.producer;
            var st := Store(s.mem.store.blocks + [Block(seq(bs, _ => None), 0)],
                            s.mem.store.holder + [Some(|s.mem.q.blockOf| + |mine|)]);
            Inv(bs, State(s.mem.(store := st), PReset(items, mine, e, |s.mem.store.blocks|), s.consumers))
  {
    var q, st, p := s.mem.q, s.mem.store, s.producer;
    var k, b := |q.blockOf| + |p.mine|, |st.blocks|;
    var p' := PReset(p.items, p.mine, p.entry, b);
    var st' := Store(st.blocks + [Block(seq(bs, _ => None), 0)], st.holder + [Some(k)]);
    GetValues(bs, q, s.mem.ix, p, p');
    BareElements(bs, q, s.mem.store, st', p, p', b);
    hide ElementsOk, ValuesOk, ConsumersOk, QueueOk;
    StoreChanges(bs, s, st', p');
  }

  lemma ResetKeeps<V>(bs: nat, s: State<V>)
    requires Inv(bs, s) && s.producer.PReset?
    ensures var PReset(items, mine, e, b) := s.producer;
            var st := SetBlock(s.mem.store, b, s.mem.store.blocks[b].(dequeued := 0));
            Inv(bs, State(s.mem.(store := st), PValue(items, mine, e, b), s.consumers))
  {
    var q, p := s.mem.q, s.producer;
    var p' := PValue(p.items, p.mine, p.entry, p.block);
    var st' := SetBlock(s.mem.store, p.block, s.mem.store.blocks[p.block].(dequeued := 0));
    GetValues(bs, q, s.mem.ix, p, p');
    assert forall i: nat :: Expected(q, p', i) == Expected(q, p, i);
    StoreChanges(bs, s, st', p');
  }

  /** Onward never leaves a program point that works on an entry or a block. */
  lemma OnwardOk<V>(bs: nat, q: Queue<V>, items: seq<V>, mine: seq<nat>)
    requires bs > 0 && |mine| <= BlockCount(bs, q.tailIndex + |items|) - BlockCount(bs, q.tailIndex)
    ensures var p' := Onward(bs, q, items, mine);
            && Mine(p') == mine && Undone(p') == 0 && Extra(p') == |mine| && Filled(p') == 0 && KeptFrom(p') == 0
            && !AtEntry(p') && !p'.PKey? && !p'.PReset? && !p'.PValue? && ProducerOk(bs, q, p')
  {
  }

  lemma ValueValues<V>(bs: nat, q: Queue<V>, ix: Index, p: Producer<V>)
    requires bs > 0 && QueueOk(bs, q) && ProducerOk(bs, q, p) && ValuesOk(bs, q, ix, p) && p.PValue?
    ensures var p' := Onward(bs, q, p.items, p.mine + [p.block]);
            && ValuesOk(bs, q, StoreValue(ix, p.entry, Some(p.block)), p')
            && Extends(ix, StoreValue(ix, p.entry, Some(p.block)), |q.blockOf|)
  {
    var p' := Onward(bs, q, p.items, p.mine + [p.block]);
    var k := |q.blockOf| + |p.mine|;
    OnwardOk(bs, q, p.items, p.mine + [p.block]);
    forall j: nat ensures ValueOf(q, p', j) == if j == k then Some(p.block) else ValueOf(q, p, j) {}
    StoreValues(bs, q, ix, p, k, Some(p.block), p');
  }

  lemma ValueStorage<V>(bs: nat, q: Queue<V>, st: Store<V>, p: Producer<V>)
    requires bs > 0 && QueueOk(bs, q) && ProducerOk(bs, q, p) && p.PValue?
    requires HoldersOk(q, st, p) && ElementsOk(bs, q, st, p) && CountersOk(bs, q, st, p)
    ensures var p' := Onward(bs, q, p.items, p.mine + [p.block]);
            HoldersOk(q, st, p') && ElementsOk(bs, q, st, p') && CountersOk(bs, q, st, p')
  {
    var p' := Onward(bs, q, p.items, p.mine + [p.block]);
    OnwardOk(bs, q, p.items, p.mine + [p.block]);
    forall c | 0 <= c < |st.holder| && st.holder[c].Some? ensures Serves(q, p', c, st.holder[c].value) {
      assert Serves(q, p, c, st.holder[c].value);
    }
    assert forall i: nat :: Expected(q, p', i) == Expected(q, p, i);
  }

  lemma ValueKeeps<V>(bs: nat, s: State<V>)
    requires Inv(bs, s) && s.producer.PValue?
    ensures var PValue(items, mine, e, b) := s.producer;
            Inv(bs, State(s.mem.(ix := StoreValue(s.mem.ix, e, Some(b))), Onward(bs, s.mem.q, items, mine + [b]), s.consumers))
  {
    var q, ix, p := s.mem.q, s.mem.ix, s.producer;
    ValueValues(bs, q, ix, p);
    ValueStorage(bs, q, s.mem.store, p);
    OnwardOk(bs, q, p.items, p.mine + [p.block]);
    ConsumersFrame(bs, q, q, ix, StoreValue(ix, p.entry, Some(p.block)), s.consumers);
  }

  lemma UndoClearValues<V>(bs: nat, q: Queue<V>, ix: Index, p: Producer<V>)
    requires ValuesOk(bs, q, ix, p) && p.PUndoClear? && p.done < |p.mine|
    ensures var k := |q.blockOf| + p.done;
            ValuesOk(bs, q, StoreValue(ix, EntryId(ix, k), None), PUndoTail(p.mine, p.done))
            && Extends(ix, StoreValue(ix, EntryId(ix, k), None), |q.blockOf|)
  {
    var k := |q.blockOf| + p.done;
    var p': Producer<V> := PUndoTail(p.mine, p.done);
    forall j: nat ensures ValueOf(q, p', j) == if j == k then None else ValueOf(q, p, j) {}
    StoreValues(bs, q, ix, p, k, None, p');
  }

  lemma BackClearValues<V>(bs: nat, q: Queue<V>, ix: Index, p: Producer<V>)
    requires ValuesOk(bs, q, ix, p) && p.PBackClear?
    ensures p.entry < |ix.entries|
    ensures ValuesOk(bs, q, StoreValue(ix, p.entry, None), Undo(p.mine))
    ensures Extends(ix, StoreValue(ix, p.entry, None), |q.blockOf|)
  {
    var k := |q.blockOf| + |p.mine|;
    var p': Producer<V> := Undo(p.mine);
    forall j: nat ensures ValueOf(q, p', j) == if j == k then None else ValueOf(q, p, j) {}
    StoreValues(bs, q, ix, p, k, None, p');
  }

  lemma UndoFreeStorage<V>(bs: nat, q: Queue<V>, st: Store<V>, p: Producer<V>, p': Producer<V>)
    requires bs > 0 && QueueOk(bs, q) && ProducerOk(bs, q, p) && p.PUndoFree?
    requires HoldersOk(q, st, p) && ElementsOk(bs, q, st, p) && CountersOk(bs, q, st, p)
    requires p' == if p.done + 1 == |p.mine| then PIdle(false) else PUndoFree(p.mine, p.done + 1)
    ensures var st' := st.(holder := st.holder[Mine(p)[p.done] := None]);
            HoldersOk(q, st', p') && ElementsOk(bs, q, st', p') && CountersOk(bs, q, st', p')
  {
    var b, k := Mine(p)[p.done], |q.blockOf| + p.done;
    var st' := st.(holder := st.holder[b := None]);
    assert forall i: nat :: Expected(q, p', i) == Expected(q, p, i);
    forall o | 0 <= o < bs ensures st.blocks[b].elements[o] == None {
      Parts(bs, k, o);
      PastTail(bs, q, k * bs + o);
      assert st.blocks[b].elements[(k * bs + o) % bs] == Expected(q, p, k * bs + o);
    }
    forall c | 0 <= c < |st'.holder| && st'.holder[c].Some? ensures Serves(q, p', c, st'.holder[c].value) {
      assert Serves(q, p, c, st.holder[c].value);
    }
  }

  lemma UndoFreeKeeps<V>(bs: nat, s: State<V>)
    requires Inv(bs, s) && s.producer.PUndoFree?
    ensures var PUndoFree(mine, d) := s.producer;
            var st := s.mem.store.(holder := s.mem.store.holder[mine[d] := None]);
            Inv(bs, State(s.mem.(store := st), if d + 1 == |mine| then PIdle(false) else PUndoFree(mine, d + 1), s.consumers))
  {
    var q, st, p := s.mem.q, s.mem.store, s.producer;
    var p': Producer<V> := if p.done + 1 == |p.mine| then PIdle(false) else PUndoFree(p.mine, p.done + 1);
    UndoFreeStorage(bs, q, st, p, p');
    assert forall j: nat :: ValueOf(q, p', j) == ValueOf(q, p, j);
    StoreChanges(bs, s, st.(holder := st.holder[p.mine[p.done] := None]), p');
  }

  // Filling and publishing.

  /** Every index a call fills has a block, and that block serves it. */
  lemma TargetServes<V>(bs: nat, q: Queue<V>, st: Store<V>, p: Producer<V>, i: nat)
    requires bs > 0 && QueueOk(bs, q) && ProducerOk(bs, q, p) && HoldersOk(q, st, p) && p.PFill?
    requires q.tailIndex <= i < q.tailIndex + |p.items|
    ensures Target(bs, q, p.mine, i).Some?
    ensures var b := Target(bs, q, p.mine, i).value; b < |st.holder| && st.holder[b] == Some(BlockNo(bs, i))
  {
    var k := BlockNo(bs, i);
    BlockNoBelow(bs, i, q.tailIndex + |p.items|);
    if k < |q.blockOf| {
      assert k !in q.cleared;
    } else {
      assert Mine(p)[k - |q.blockOf|] == p.mine[k - |q.blockOf|];
    }
  }

  lemma FillStorage<V>(bs: nat, q: Queue<V>, st: Store<V>, p: Producer<V>, b: nat)
    requires bs > 0 && QueueOk(bs, q) && ProducerOk(bs, q, p) && p.PFill?
    requires HoldersOk(q, st, p) && ElementsOk(bs, q, st, p)
    requires b < |st.holder| && st.holder[b] == Some(BlockNo(bs, q.tailIndex + p.done))
    ensures b < |st.blocks| && |st.blocks[b].elements| == bs && |st.holder| == |st.blocks|
    ensures var blk := FillBlock(bs, st.blocks[b], q.tailIndex + p.done, p.items[p.done]);
            ElementsOk(bs, q, SetBlock(st, b, blk), PFill(p.items, p.mine, p.done + 1))
  {
    var i := q.tailIndex + p.done;
    var p' := PFill(p.items, p.mine, p.done + 1);
    var st' := SetBlock(st, b, FillBlock(bs, st.blocks[b], i, p.items[p.done]));
    forall c, x: nat | 0 <= c < |st'.blocks| && st'.holder[c] == Some(BlockNo(bs, x))
      ensures st'.blocks[c].elements[x % bs] == Expected(q, p', x)
    {
      assert st.blocks[c].elements[x % bs] == Expected(q, p, x);
      if x != i {
        assert Expected(q, p', x) == Expected(q, p, x);
        if c == b && x % bs == i % bs { Arithmetic.SameParts(x, i, bs); }
      } else {
        assert Serves(q, p, c, BlockNo(bs, i)) && Serves(q, p, b, BlockNo(bs, i));
      }
    }
  }

  /** The block with one more element constructed. */
  function FillBlock<V>(bs: nat, blk: Block<V>, i: nat, v: V): Block<V>
    requires |blk.elements| == bs > 0
  { blk.(elements := blk.elements[i % bs := Some(v)]) }

  lemma FillHolders<V>(bs: nat, q: Queue<V>, st: Store<V>, p: Producer<V>, b: nat, blk: Block<V>, p': Producer<V>)
    requires HoldersOk(q, st, p) && q.freed <= q.cleared && CountersOk(bs, q, st, p)
    requires p.PFill? && (p'.PFill? || p'.PPublish?) && p'.mine == p.mine
    requires b < |st.blocks| && blk.dequeued == st.blocks[b].dequeued
    ensures HoldersOk(q, SetBlock(st, b, blk), p') && CountersOk(bs, q, SetBlock(st, b, blk), p')
  {
    assert Mine(p') == Mine(p) && KeptFrom(p') == KeptFrom(p);
    assert forall c: nat, k: nat :: Serves(q, p', c, k) == Serves(q, p, c, k);
  }

  lemma FillKeeps<V>(bs: nat, s: State<V>, b: nat, p': Producer<V>)
    requires Inv(bs, s) && s.producer.PFill?
    requires Target(bs, s.mem.q, s.producer.mine, s.mem.q.tailIndex + s.producer.done) == Some(b)
    requires var PFill(items, mine, d) := s.producer;
             p' == if d + 1 == |items| then PPublish(items, mine) else PFill(items, mine, d + 1)
    ensures b < |s.mem.store.blocks| && |s.mem.store.blocks[b].elements| == bs
    ensures var PFill(items, mine, d) := s.producer;
            var blk := FillBlock(bs, s.mem.store.blocks[b], s.mem.q.tailIndex + d, items[d]);
            Inv(bs, State(s.mem.(store := SetBlock(s.mem.store, b, blk)), p', s.consumers))
  {
    hide ValuesOk, HoldersOk, CountersOk, ElementsOk, ConsumersOk;
    var q, st, p := s.mem.q, s.mem.store, s.producer;
    var i := q.tailIndex + p.done;
    TargetServes(bs, q, st, p, i);
    FillStorage(bs, q, st, p, b);
    var blk := FillBlock(bs, st.blocks[b], i, p.items[p.done]);
    FillHolders(bs, q, st, p, b, blk, p');
    FillValues(bs, q, s.mem.ix, p, p');
    FillDone(bs, q, SetBlock(st, b, blk), PFill(p.items, p.mine, p.done + 1), p');
    StoreChanges(bs, s, SetBlock(st, b, blk), p');
  }

  lemma FillValues<V>(bs: nat, q: Queue<V>, ix: Index, p: Producer<V>, p': Producer<V>)
    requires ValuesOk(bs, q, ix, p) && p.PFill? && (p'.PFill? || p'.PPublish?) && p'.mine == p.mine
    ensures ValuesOk(bs, q, ix, p')
  {
    assert forall k: nat :: ValueOf(q, p', k) == ValueOf(q, p, k);
  }

  lemma FillDone<V>(bs: nat, q: Queue<V>, st: Store<V>, full: Producer<V>, p': Producer<V>)
    requires bs > 0 && |q.log| == q.tailIndex && |st.holder| == |st.blocks|
    requires full.PFill? && full.done <= |full.items| && ElementsOk(bs, q, st, full)
    requires p' == full || (full.done == |full.items| && p' == PPublish(full.items, full.mine))
    ensures ElementsOk(bs, q, st, p')
  {
    assert forall x: nat :: Expected(q, p', x) == Expected(q, full, x);
  }

  lemma {:induction false} CountedNone(bs: nat, counted: set<nat>, k: nat, n: nat)
    requires n <= bs && forall i: nat :: i in counted && bs > 0 ==> BlockNo(bs, i) != k
    ensures Counted(bs, counted, k, n) == 0
  {
    if n > 0 {
      Parts(bs, k, n - 1);
      CountedNone(bs, counted, k, n - 1);
    }
  }

  function Published<V>(q: Queue<V>, items: seq<V>, mine: seq<nat>): Queue<V> {
    q.(tailIndex := q.tailIndex + |items|, log := q.log + items, blockOf := q.blockOf + mine)
  }

  lemma PublishValues<V>(bs: nat, q: Queue<V>, ix: Index, p: Producer<V>)
    requires bs > 0 && QueueOk(bs, q) && ProducerOk(bs, q, p) && ValuesOk(bs, q, ix, p) && p.PPublish?
    ensures QueueOk(bs, Published(q, p.items, p.mine)) && QueueExtends(q, Published(q, p.items, p.mine))
    ensures ValuesOk(bs, Published(q, p.items, p.mine), ix, PIdle(true))
  {
    var q' := Published(q, p.items, p.mine);
    var p': Producer<V> := PIdle(true);
    forall k: nat ensures ValueOf(q', p', k) == ValueOf(q, p, k) {}
  }

  lemma PublishHolders<V>(bs: nat, q: Queue<V>, st: Store<V>, p: Producer<V>)
    requires bs > 0 && QueueOk(bs, q) && ProducerOk(bs, q, p) && p.PPublish? && HoldersOk(q, st, p)
    ensures HoldersOk(Published(q, p.items, p.mine), st, PIdle(true))
  {
    var q' := Published(q, p.items, p.mine);
    var p': Producer<V> := PIdle(true);
    var n := |q.blockOf|;
    assert forall c: nat, k: nat :: Serves(q', p', c, k) == Serves(q, p, c, k);
    forall k: nat | k < |q'.blockOf| && k !in q'.freed
      ensures q'.blockOf[k] < |st.holder| && st.holder[q'.blockOf[k]] == Some(k)
    {
      if k >= n { assert Mine(p)[k - n] == q'.blockOf[k]; }
    }
  }

  lemma PublishElements<V>(bs: nat, q: Queue<V>, st: Store<V>, p: Producer<V>)
    requires bs > 0 && QueueOk(bs, q) && |st.holder| == |st.blocks| && p.PPublish? && ElementsOk(bs, q, st, p)
    ensures var q' := Published(q, p.items, p.mine); |q'.log| == q'.tailIndex && ElementsOk(bs, q', st, PIdle(true))
  {
    var q' := Published(q, p.items, p.mine);
    var p': Producer<V> := PIdle(true);
    assert forall i: nat :: Expected(q', p', i) == Expected(q, p, i);
  }

  lemma PublishStorage<V>(bs: nat, q: Queue<V>, st: Store<V>, p: Producer<V>)
    requires bs > 0 && QueueOk(bs, q) && ProducerOk(bs, q, p) && p.PPublish?
    requires HoldersOk(q, st, p) && ElementsOk(bs, q, st, p) && CountersOk(bs, q, st, p)
    ensures var q', p' := Published(q, p.items, p.mine), PIdle(true);
            q'.freed <= q'.cleared && |q'.log| == q'.tailIndex
            && HoldersOk(q', st, p') && ElementsOk(bs, q', st, p') && CountersOk(bs, q', st, p')
  {
    assert q.freed <= q.cleared && |q.log| == q.tailIndex;
    hide ElementsOk, CountersOk, QueueOk;
    PublishHolders(bs, q, st, p);
    PublishElements(bs, q, st, p);
    PublishCounters(bs, q, st, p);
  }

  lemma PublishedCounter<V>(bs: nat, q: Queue<V>, st: Store<V>, p: Producer<V>, k: nat)
    requires bs > 0 && QueueOk(bs, q) && p.PPublish? && HoldersOk(q, st, p) && CountersOk(bs, q, st, p)
    requires k < |Published(q, p.items, p.mine).blockOf| && k !in q.cleared
    ensures var b := Published(q, p.items, p.mine).blockOf[k]; b < |st.blocks| && st.blocks[b].dequeued == Counted(bs, q.counted, k, bs)
  {
    var n := |q.blockOf|;
    if k >= n {
      assert Mine(p)[k - n] == Published(q, p.items, p.mine).blockOf[k];
      NewUncounted(bs, q, k);
    }
    hide Counted, Serves, BlockCount;
  }

  lemma PublishCounters<V>(bs: nat, q: Queue<V>, st: Store<V>, p: Producer<V>)
    requires bs > 0 && QueueOk(bs, q) && ProducerOk(bs, q, p) && p.PPublish?
    requires HoldersOk(q, st, p) && CountersOk(bs, q, st, p)
    requires HoldersOk(Published(q, p.items, p.mine), st, PIdle(true))
    ensures CountersOk(bs, Published(q, p.items, p.mine), st, PIdle(true))
  {
    var q' := Published(q, p.items, p.mine);
    assert q'.freed <= q'.cleared;
    hide QueueOk, Counted, HoldersOk, ProducerOk, BlockCount;
    forall k: nat | k < |q'.blockOf| && k !in q'.cleared
      ensures q'.blockOf[k] < |st.blocks| && st.blocks[q'.blockOf[k]].dequeued == Counted(bs, q'.counted, k, bs)
    {
      PublishedCounter(bs, q, st, p, k);
    }
  }

  lemma NewUncounted<V>(bs: nat, q: Queue<V>, k: nat)
    requires bs > 0 && QueueOk(bs, q) && k >= |q.blockOf|
    ensures Counted(bs, q.counted, k, bs) == 0
  {
    forall i: nat | i in q.counted ensures BlockNo(bs, i) != k { BlockNoBelow(bs, i, q.tailIndex); }
    CountedNone(bs, q.counted, k, bs);
  }

  lemma PublishKeeps<V>(bs: nat, s: State<V>)
    requires Inv(bs, s) && s.producer.PPublish?
    ensures Inv(bs, State(s.mem.(q := Published(s.mem.q, s.producer.items, s.producer.mine)), PIdle(true), s.consumers))
  {
    var q, ix, p := s.mem.q, s.mem.ix, s.producer;
    PublishValues(bs, q, ix, p);
    PublishStorage(bs, q, s.mem.store, p);
    ConsumersFrame(bs, q, Published(q, p.items, p.mine), ix, ix, s.consumers);
  }

  lemma ProducerRuns<V>(bs: nat, s: State<V>, pick: Pick<V>)
    requires Inv(bs, s) && pick.Produce?
    ensures Enabled(bs, s, pick)
  {
    var p := s.producer;
    if p.PUndoFree? { assert Mine(p)[p.done] == p.mine[p.done]; }
  }

  // Each step of the producer keeps the invariant.

  lemma RoomKeeps<V>(bs: nat, s: State<V>, pick: Pick<V>)
    requires Inv(bs, s) && pick.Produce? && Enabled(bs, s, pick) && s.producer.PRoom?
    ensures Inv(bs, Step(bs, s, pick))
  {
    var PRoom(items, mine) := s.producer;
    if HasRoom(s.mem.ix) {
      ProducerMoves(bs, s, PKey(items, mine));
    } else if pick.grow {
      GrowValues(bs, s.mem.q, s.mem.ix, s.producer);
      IndexChanges(bs, s, Grow(s.mem.ix), PKey(items, mine));
    } else {
      ProducerMoves(bs, s, Undo(mine));
    }
  }

  lemma KeyKeeps<V>(bs: nat, s: State<V>, pick: Pick<V>)
    requires Inv(bs, s) && pick.Produce? && Enabled(bs, s, pick) && (s.producer.PKey? || s.producer.PTail?)
    ensures Inv(bs, Step(bs, s, pick))
  {
    hide ValuesOk, HoldersOk, ElementsOk, CountersOk, ConsumersOk, Extends;
    var s' := Step(bs, s, pick);
    if s.producer.PKey? {
      KeyValues(bs, s.mem.q, s.mem.ix, s.producer);
    } else {
      TailValues(bs, s.mem.q, s.mem.ix, s.producer);
    }
    IndexChanges(bs, s, s'.mem.ix, s'.producer);
  }

  lemma GetKeeps<V>(bs: nat, s: State<V>, pick: Pick<V>)
    requires Inv(bs, s) && pick.Produce? && Enabled(bs, s, pick) && s.producer.PGet?
    ensures Inv(bs, Step(bs, s, pick))
  {
    hide ValuesOk, HoldersOk, ElementsOk, CountersOk, ConsumersOk, QueueOk;
    match pick.supply
    case Nothing => ProducerMoves(bs, s, PBackTail(s.producer.mine, s.producer.entry));
    case FromFreeList(b) =>
      if b < |s.mem.store.blocks| && s.mem.store.holder[b] == None { TakeFreeKeeps(bs, s, b); }
    case NewBlock => NewBlockKeeps(bs, s);
  }

  lemma BackKeeps<V>(bs: nat, s: State<V>, pick: Pick<V>)
    requires Inv(bs, s) && pick.Produce? && Enabled(bs, s, pick) && (s.producer.PBackTail? || s.producer.PBackClear?)
    ensures Inv(bs, Step(bs, s, pick))
  {
    hide ValuesOk, HoldersOk, ElementsOk, CountersOk, ConsumersOk, Extends;
    var s' := Step(bs, s, pick);
    if s.producer.PBackTail? {
      BackTailValues(bs, s.mem.q, s.mem.ix, s.producer);
    } else {
      BackClearValues(bs, s.mem.q, s.mem.ix, s.producer);
    }
    IndexChanges(bs, s, s'.mem.ix, s'.producer);
  }

  lemma UndoKeeps<V>(bs: nat, s: State<V>, pick: Pick<V>)
    requires Inv(bs, s) && pick.Produce? && Enabled(bs, s, pick) && (s.producer.PUndoClear? || s.producer.PUndoTail?)
    ensures Inv(bs, Step(bs, s, pick))
  {
    hide ValuesOk, HoldersOk, ElementsOk, CountersOk, ConsumersOk, Extends;
    var s' := Step(bs, s, pick);
    if s.producer.PUndoClear? {
      UndoFinds(bs, s.mem.q, s.mem.ix, s.producer);
      UndoClearValues(bs, s.mem.q, s.mem.ix, s.producer);
    } else {
      var PUndoTail(mine, d) := s.producer;
      UndoTailValues(bs, s.mem.q, s.mem.ix, s.producer, if d + 1 == |mine| then PUndoFree(mine, 0) else PUndoClear(mine, d + 1));
    }
    IndexChanges(bs, s, s'.mem.ix, s'.producer);
  }

  lemma BuildKeeps<V>(bs: nat, s: State<V>, pick: Pick<V>)
    requires Inv(bs, s) && pick.Produce? && Enabled(bs, s, pick) && (s.producer.PFill? || s.producer.PPublish?)
    ensures Inv(bs, Step(bs, s, pick))
  {
    hide ValuesOk, HoldersOk, ElementsOk, CountersOk, ConsumersOk;
    var q, p := s.mem.q, s.producer;
    if p.PFill? {
      TargetServes(bs, q, s.mem.store, p, q.tailIndex + p.done);
      var p' := if p.done + 1 == |p.items| then PPublish(p.items, p.mine) else PFill(p.items, p.mine, p.done + 1);
      FillKeeps(bs, s, Target(bs, q, p.mine, q.tailIndex + p.done).value, p');
    } else {
      PublishKeeps(bs, s);
    }
  }

  lemma StorageKeeps<V>(bs: nat, s: State<V>, pick: Pick<V>)
    requires Inv(bs, s) && pick.Produce? && Enabled(bs, s, pick)
    requires s.producer.PReset? || s.producer.PValue? || s.producer.PUndoFree?
    ensures Inv(bs, Step(bs, s, pick))
  {
    hide ValuesOk, ElementsOk, CountersOk, ConsumersOk, QueueOk;
    match s.producer
    case PReset(_, _, _, _) => ResetKeeps(bs, s);
    case PValue(_, _, _, _) => ValueKeeps(bs, s);
    case PUndoFree(_, _) => UndoFreeKeeps(bs, s);
  }

  lemma ProducerKeeps<V>(bs: nat, s: State<V>, pick: Pick<V>)
    requires Inv(bs, s) && pick.Produce?
    ensures Enabled(bs, s, pick) && Inv(bs, Step(bs, s, pick))
  {
    ProducerRuns(bs, s, pick);
    match s.producer
    case PIdle(_) => StartKeeps(bs, s, pick);
    case PRoom(_, _) => RoomKeeps(bs, s, pick);
    case PKey(_, _) => KeyKeeps(bs, s, pick);
    case PTail(_, _, _) => KeyKeeps(bs, s, pick);
    case PGet(_, _, _) => GetKeeps(bs, s, pick);
    case PBackTail(_, _) => BackKeeps(bs, s, pick);
    case PBackClear(_, _) => BackKeeps(bs, s, pick);
    case PUndoClear(_, _) => UndoKeeps(bs, s, pick);
    case PUndoTail(_, _) => UndoKeeps(bs, s, pick);
    case PFill(_, _, _) => BuildKeeps(bs, s, pick);
    case PPublish(_, _) => BuildKeeps(bs, s, pick);
    case _ => StorageKeeps(bs, s, pick);
  }
}
