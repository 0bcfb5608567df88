/** One explicit producer's sub-queue (external/cameron314/concurrentqueue.h, ExplicitProducer) as an
    interleaving machine: its single producer enqueues item by item into a ring of blocks it reuses, any
    number of consumers dequeue one item or a batch.  Every atomic access is one step; the producer's plain
    fields, which no consumer reads, change along with the access they go with.  How consumers come to claim
    indices below tailIndex is module DequeueCounters. */
module ExplicitRing {
  import opened Blocks
  import opened Options
  import Arithmetic

  /** Block: element storage and emptyFlags, which run backwards. */
  datatype Block<V> = Block(elements: seq<Option<V>>, flags: seq<bool>)

  datatype Entry = Entry(base: nat, block: nat)

  /** BlockIndexHeader; entries never written are None.  off and count say what the array holds: block k sits
      at slot (k + off) mod size, and front is the slot of block count - 1. */
  datatype Header = Header(size: nat, entries: seq<Option<Entry>>, front: int, off: int, count: nat)

  /** tailIndex and headIndex, and the records of the run: the elements enqueued, those moved out and those
      flagged as such, and the storage block each block number was given. */
  datatype Queue<V> = Queue(
    tailIndex: nat,
    headIndex: nat,
    log: seq<V>,
    moved: set<nat>,
    flagged: set<nat>,
    blockOf: seq<nat>
  )

  /** The producer's own fields: the circular list of blocks from the one after tailBlock round to tailBlock,
      pr_blockIndexSlotsUsed and pr_blockIndexFront. */
  datatype Ring = Ring(blocks: seq<nat>, slotsUsed: nat, nextSlot: nat)

  datatype Memory<V> = Memory(q: Queue<V>, headers: seq<Header>, ring: Ring, store: seq<Block<V>>)

  /** The producer in enqueue of v. */
  datatype Producer<V> =
    | PIdle(ok: bool)
    | PScan(v: V, i: nat)      // is_empty of the block ahead: about to load flag i
    | PNew(v: V)               // the block ahead is in use: about to check for room
    | PGet(v: V)               // about to requisition a block
    | PReset(v: V, i: nat)     // reset_empty of the new tailBlock: about to clear flag i
    | PEntry(v: V)             // about to write its index entry
    | PFront(v: V)             // about to store front
    | PFill(v: V)              // about to construct the element
    | PPublish(v: V)           // about to store tailIndex

  /** A consumer's claim [first, end): elements before cur are moved out, those before from are flagged too. */
  datatype Job<V> = Job(first: nat, from: nat, cur: nat, end: nat, header: nat, slot: nat, block: nat, got: seq<V>)

  datatype Consumer<V> =
    | CIdle(first: nat, got: seq<V>)       // what the latest call dequeued
    | CHeader(job: Job<V>)                 // about to load blockIndex
    | CFront(job: Job<V>)                  // about to load the header's front
    | CBase(job: Job<V>, top: nat)         // about to read the base at that slot, which is block top's
    | CBlock(job: Job<V>)                  // about to read the entry's block
    | CMove(job: Job<V>)                   // about to move one element out
    | CFlag(job: Job<V>, to: nat)          // about to flag element to - 1, down to from

  datatype State<V> = State(mem: Memory<V>, producer: Producer<V>, consumers: seq<Consumer<V>>)

  /** What requisition_block comes back with. */
  datatype Supply = Nothing | FromFreeList(block: nat) | NewBlock

  datatype Pick<V> = Produce(v: V, limit: bool, grow: bool, supply: Supply) | Consume(thread: nat, want: nat)

  function Slot(h: Header, k: int): (p: nat)
    requires h.size > 0
    ensures p < h.size
  { (k + h.off) % h.size }

  function Current(headers: seq<Header>): Header
    requires |headers| > 0
  { headers[|headers| - 1] }

  function SetCurrent(headers: seq<Header>, h: Header): seq<Header>
    requires |headers| > 0
  { headers[|headers| - 1 := h] }

  predicate HeaderOk(h: Header) { h.size > 0 && |h.entries| == h.size && (h.count > 0 ==> h.front == Slot(h, h.count - 1)) }

  predicate StoreShape<V>(bs: nat, store: seq<Block<V>>) {
    forall b :: 0 <= b < |store| ==> |store[b].elements| == bs && |store[b].flags| == bs
  }

  predicate Shape<V>(bs: nat, m: Memory<V>) {
    && bs > 1
    && |m.headers| > 0
    && (forall g :: 0 <= g < |m.headers| ==> HeaderOk(m.headers[g]))
    && m.ring.nextSlot < Current(m.headers).size
    && StoreShape(bs, m.store)
  }

  // ---- The producer's steps ------------------------------------------------------------------------

  function Tail(r: Ring): nat
    requires |r.blocks| > 0
  { r.blocks[|r.blocks| - 1] }

  /** new_block_index: twice the size, the entries in use copied to the front in order. */
  function Doubled(h: Header, r: Ring, low: int): Header
    requires HeaderOk(h) && r.nextSlot < h.size
  {
    var kept := seq(r.slotsUsed, j requires 0 <= j => h.entries[(r.nextSlot - r.slotsUsed + j) % h.size]);
    Header(2 * h.size, kept + seq(if r.slotsUsed <= 2 * h.size then 2 * h.size - r.slotsUsed else 0, _ => None),
           r.slotsUsed - 1, -low, h.count)
  }

  predicate ProducerInRange<V>(bs: nat, m: Memory<V>, p: Producer<V>) {
    && (p.PScan? ==> p.i < bs && |m.ring.blocks| > 0 && m.ring.blocks[0] < |m.store|)
    && (p.PReset? ==> p.i < bs)
    && (p.PReset? || p.PEntry? || p.PFront? || p.PFill? ==> |m.ring.blocks| > 0 && Tail(m.ring) < |m.store|)
  }

  function ProducerStep<V>(bs: nat, m: Memory<V>, p: Producer<V>, pick: Pick<V>): (Memory<V>, Producer<V>)
    requires Shape(bs, m) && ProducerInRange(bs, m, p) && pick.Produce?
  {
    var cur := Current(m.headers);
    match p
    case PIdle(_) =>
      if m.q.tailIndex % bs != 0 then (m, PFill(pick.v))
      else if m.ring.blocks == [] then (m, PNew(pick.v))
      else (m, PScan(pick.v, 0))
    case PScan(v, i) =>
      if !m.store[m.ring.blocks[0]].flags[i] then (m, PNew(v))
      else if i + 1 < bs then (m, PScan(v, i + 1))
      else
        var b := m.ring.blocks[0];
        (m.(ring := m.ring.(blocks := m.ring.blocks[1..] + [b]), q := m.q.(blockOf := m.q.blockOf + [b])), PReset(v, 0))
    case PNew(v) =>
      if m.q.headIndex >= m.q.tailIndex + bs || pick.limit then (m, PIdle(false))
      else if m.ring.slotsUsed < cur.size then (m, PGet(v))
      else if pick.grow then
        (m.(headers := m.headers + [Doubled(cur, m.ring, |m.q.blockOf| - m.ring.slotsUsed)],
            ring := m.ring.(nextSlot := m.ring.slotsUsed)), PGet(v))
      else (m, PIdle(false))
    case PGet(v) => (
      match pick.supply
      case Nothing => (m, PIdle(false))
      case FromFreeList(b) =>
        if b < |m.store| && b !in m.ring.blocks then (AddBlock(m, b), PReset(v, 0)) else (m, p)
      case NewBlock =>
        (AddBlock(m.(store := m.store + [Block(seq(bs, _ => None), seq(bs, _ => false))]), |m.store|), PReset(v, 0)))
    case PReset(v, i) =>
      var b := Tail(m.ring);
      var blk := m.store[b];
      (m.(store := m.store[b := blk.(flags := blk.flags[i := false])]), if i + 1 < bs then PReset(v, i + 1) else PEntry(v))
    case PEntry(v) =>
      (m.(headers := SetCurrent(m.headers, cur.(entries := cur.entries[m.ring.nextSlot := Some(Entry(m.q.tailIndex, Tail(m.ring)))]))),
       PFront(v))
    case PFront(v) =>
      (m.(headers := SetCurrent(m.headers, cur.(front := m.ring.nextSlot, count := cur.count + 1)),
          ring := m.ring.(nextSlot := (m.ring.nextSlot + 1) % cur.size)),
       PFill(v))
    case PFill(v) =>
      var b := Tail(m.ring);
      var blk := m.store[b];
      (m.(store := m.store[b := blk.(elements := blk.elements[m.q.tailIndex % bs := Some(v)])]), PPublish(v))
    case PPublish(v) => (m.(q := m.q.(tailIndex := m.q.tailIndex + 1, log := m.q.log + [v])), PIdle(true))
  }

  function AddBlock<V>(m: Memory<V>, b: nat): Memory<V> {
    m.(ring := m.ring.(blocks := m.ring.blocks + [b], slotsUsed := m.ring.slotsUsed + 1),
       q := m.q.(blockOf := m.q.blockOf + [b]))
  }

  // ---- A consumer's steps --------------------------------------------------------------------------

  predicate ConsumerInRange<V>(bs: nat, m: Memory<V>, c: Consumer<V>) {
    && (!c.CIdle? && !c.CHeader? ==> c.job.header < |m.headers|)
    && (c.CBase? || c.CBlock? || c.CMove? || c.CFlag? ==> c.job.slot < m.headers[c.job.header].size)
    && (c.CMove? || c.CFlag? ==> c.job.block < |m.store|)
    && (c.CFlag? ==> c.to > 0)
    && (c.CFront? ==> 0 <= m.headers[c.job.header].front < m.headers[c.job.header].size && m.headers[c.job.header].count > 0)
  }

  /** The slot of the block with base b, counted from slot front whose block has base frontBase. */
  function LookupSlot(bs: nat, h: Header, front: nat, frontBase: nat, base: nat): nat
    requires bs > 0 && h.size > 0
  { (front + (base - frontBase) / bs) % h.size }

  function ConsumerStep<V>(bs: nat, m: Memory<V>, c: Consumer<V>, want: nat): (Memory<V>, Consumer<V>)
    requires Shape(bs, m) && ConsumerInRange(bs, m, c)
  {
    match c
    case CIdle(_, _) =>
      var h := m.q.headIndex;
      if want > 0 && h + want <= m.q.tailIndex then
        (m.(q := m.q.(headIndex := h + want)), CHeader(Job(h, h, h, h + want, 0, 0, 0, [])))
      else (m, c)
    case CHeader(j) => (m, CFront(j.(header := |m.headers| - 1)))
    case CFront(j) => (m, CBase(j.(slot := m.headers[j.header].front), m.headers[j.header].count - 1))
    case CBase(j, _) => (
      match m.headers[j.header].entries[j.slot]
      case None => (m, c)
      case Some(e) => (m, CBlock(j.(slot := LookupSlot(bs, m.headers[j.header], j.slot, e.base, BlockNo(bs, j.cur) * bs)))))
    case CBlock(j) => (
      match m.headers[j.header].entries[j.slot]
      case None => (m, c)
      case Some(e) => if e.block < |m.store| then (m, CMove(j.(block := e.block))) else (m, c))
    case CMove(j) => (
      var blk := m.store[j.block];
      match blk.elements[j.cur % bs]
      case None => (m, c)
      case Some(v) => (m.(store := m.store[j.block := MoveOut(bs, blk, j.cur)], q := m.q.(moved := m.q.moved + {j.cur})),
                       AfterMove(bs, j, v)))
    case CFlag(j, to) =>
      var blk := m.store[j.block];
      (m.(store := m.store[j.block := SetFlag(bs, blk, to - 1)], q := m.q.(flagged := m.q.flagged + {to - 1})),
       if to - 1 != j.from then CFlag(j, to - 1)
       else if j.cur == j.end then CIdle(j.first, j.got)
       else CBlock(j.(from := j.cur, slot := (j.slot + 1) % m.headers[j.header].size)))
  }

  function MoveOut<V>(bs: nat, blk: Block<V>, i: nat): Block<V>
    requires |blk.elements| == bs > 0
  { blk.(elements := blk.elements[i % bs := None]) }

  function AfterMove<V>(bs: nat, j: Job<V>, v: V): Consumer<V>
    requires bs > 0
  {
    var j' := j.(cur := j.cur + 1, got := j.got + [v]);
    if j'.cur == j'.end || j'.cur % bs == 0 then CFlag(j', j'.cur) else CMove(j')
  }

  /** set_empty of element i. */
  function SetFlag<V>(bs: nat, blk: Block<V>, i: nat): Block<V>
    requires |blk.flags| == bs > 0
  { blk.(flags := blk.flags[bs - 1 - i % bs := true]) }

  predicate Enabled<V>(bs: nat, s: State<V>, pick: Pick<V>) {
    && Shape(bs, s.mem)
    && match pick
       case Produce(_, _, _, _) => ProducerInRange(bs, s.mem, s.producer)
       case Consume(t, _) => t < |s.consumers| && ConsumerInRange(bs, s.mem, s.consumers[t])
  }

  function Step<V>(bs: nat, s: State<V>, pick: Pick<V>): State<V>
    requires Enabled(bs, s, pick)
  {
    match pick
    case Produce(_, _, _, _) =>
      var (m, p) := ProducerStep(bs, s.mem, s.producer, pick);
      State(m, p, s.consumers)
    case Consume(t, want) =>
      var (m, c) := ConsumerStep(bs, s.mem, s.consumers[t], want);
      State(m, s.producer, s.consumers[t := c])
  }

  function Start<V>(size: nat, consumerCount: nat): State<V>
    requires size > 0
  {
    State(Memory(Queue(0, 0, [], {}, {}, []), [Header(size, seq(size, _ => None), -1, 0, 0)], Ring([], 0, 0), []),
          PIdle(true), seq(consumerCount, _ => CIdle(0, [])))
  }

  // ---- The invariant -------------------------------------------------------------------------------

  ghost predicate QueueOk<V>(bs: nat, q: Queue<V>)
    requires bs > 0
  {
    && |q.log| == q.tailIndex
    && q.headIndex <= q.tailIndex
    && q.flagged <= q.moved
    && (forall i :: i in q.moved ==> i < q.headIndex)
  }

  /** How many blocks have been started, by where the producer is. */
  ghost predicate StartedOk<V>(bs: nat, q: Queue<V>, p: Producer<V>)
    requires bs > 0
  {
    && (p.PIdle? ==> |q.blockOf| == BlockCount(bs, q.tailIndex))
    && (p.PScan? || p.PNew? || p.PGet? ==> q.tailIndex % bs == 0 && |q.blockOf| == BlockNo(bs, q.tailIndex))
    && (p.PReset? || p.PEntry? || p.PFront? ==> q.tailIndex % bs == 0)
    && (p.PReset? || p.PEntry? || p.PFront? || p.PFill? || p.PPublish? ==> |q.blockOf| == BlockNo(bs, q.tailIndex) + 1)
  }

  /** The first block number still in the ring. */
  function Low<V>(q: Queue<V>, r: Ring): int { |q.blockOf| - |r.blocks| }

  /** The ring holds the storage of the latest blocks in order; all earlier blocks are drained. */
  ghost predicate RingOk<V>(bs: nat, q: Queue<V>, r: Ring, storeSize: nat)
    requires bs > 0
  {
    && r.slotsUsed == |r.blocks| <= |q.blockOf|
    && (|q.blockOf| > 0 ==> |r.blocks| > 0)
    && r.blocks == q.blockOf[Low(q, r)..]
    && (forall x, y :: 0 <= x < y < |r.blocks| ==> r.blocks[x] != r.blocks[y])
    && (forall x :: 0 <= x < |r.blocks| ==> r.blocks[x] < storeSize)
    && (forall i: nat :: BlockNo(bs, i) < Low(q, r) ==> i in q.flagged)
  }

  /** How many blocks have their entry in the current index, and how many are behind front. */
  function Entered<V>(q: Queue<V>, p: Producer<V>): int { if p.PReset? || p.PEntry? then |q.blockOf| - 1 else |q.blockOf| }

  function Fronted<V>(q: Queue<V>, p: Producer<V>): int {
    if p.PReset? || p.PEntry? || p.PFront? then |q.blockOf| - 1 else |q.blockOf|
  }

  /** The entry of block k in header h. */
  ghost predicate EntryIs<V>(bs: nat, q: Queue<V>, h: Header, k: nat)
    requires HeaderOk(h)
  { k < |q.blockOf| && h.entries[Slot(h, k)] == Some(Entry(k * bs, q.blockOf[k])) }

  ghost predicate IndexOk<V>(bs: nat, q: Queue<V>, r: Ring, headers: seq<Header>, p: Producer<V>) {
    && |headers| > 0
    && (forall g :: 0 <= g < |headers| ==> HeaderOk(headers[g]))
    && Current(headers).count == Fronted(q, p)
    && (forall g :: 0 <= g < |headers| ==> headers[g].count <= Fronted(q, p))
    && |r.blocks| <= Current(headers).size
    && (p.PGet? ==> |r.blocks| < Current(headers).size)
    && r.nextSlot == Slot(Current(headers), if p.PFront? then Entered(q, p) - 1 else Entered(q, p))
    && (forall g, k: nat :: 0 <= g < |headers| && Low(q, r) <= k < headers[g].count ==> EntryIs(bs, q, headers[g], k))
    && (forall k: nat :: Low(q, r) <= k < Entered(q, p) ==> EntryIs(bs, q, Current(headers), k))
  }

  /** What the storage of index i holds. */
  function Expected<V>(q: Queue<V>, p: Producer<V>, i: nat): Option<V>
    requires |q.log| == q.tailIndex
  {
    if i < q.tailIndex then (if i in q.moved then None else Some(q.log[i]))
    else if i == q.tailIndex && p.PPublish? then Some(p.v)
    else None
  }

  ghost predicate ElementsOk<V>(bs: nat, q: Queue<V>, r: Ring, store: seq<Block<V>>, p: Producer<V>)
    requires bs > 0 && |q.log| == q.tailIndex
  {
    && StoreShape(bs, store)
    && (forall b, o :: 0 <= b < |store| && 0 <= o < bs && b !in r.blocks ==> store[b].elements[o] == None)
    && (forall i: nat :: Low(q, r) <= BlockNo(bs, i) < |q.blockOf| ==>
          && q.blockOf[BlockNo(bs, i)] < |store|
          && store[q.blockOf[BlockNo(bs, i)]].elements[i % bs] == Expected(q, p, i))
  }

  /** The flags of the ring's blocks say which elements are flagged; those of a block being reset are down to i. */
  ghost predicate FlagsOk<V>(bs: nat, q: Queue<V>, r: Ring, store: seq<Block<V>>, p: Producer<V>)
    requires bs > 0 && StoreShape(bs, store)
  {
    && (forall i: nat :: Low(q, r) <= BlockNo(bs, i) < (if p.PReset? then |q.blockOf| - 1 else |q.blockOf|) ==>
          && q.blockOf[BlockNo(bs, i)] < |store|
          && (store[q.blockOf[BlockNo(bs, i)]].flags[bs - 1 - i % bs] <==> i in q.flagged))
    && (p.PScan? ==> |r.blocks| > 0 && r.blocks[0] < |store| && p.i < bs && forall x :: 0 <= x < p.i ==> store[r.blocks[0]].flags[x])
    && (p.PReset? ==> |r.blocks| > 0 && Tail(r) < |store| && p.i < bs && forall x :: 0 <= x < p.i ==> !store[Tail(r)].flags[x])
  }

  ghost predicate JobOk<V>(q: Queue<V>, j: Job<V>) {
    && j.first <= j.from <= j.cur <= j.end <= q.headIndex <= |q.log|
    && j.got == q.log[j.first..j.cur]
    && (forall i :: j.cur <= i < j.end ==> i !in q.moved)
  }

  /** Elements moved out but not flagged. */
  ghost predicate Pending<V>(q: Queue<V>, a: nat, b: nat) { forall i :: a <= i < b ==> i in q.moved && i !in q.flagged }

  ghost predicate ConsumerOk<V>(bs: nat, q: Queue<V>, headers: seq<Header>, c: Consumer<V>)
    requires bs > 0
  {
    match c
    case CIdle(first, got) => first + |got| <= |q.log| && got == q.log[first..first + |got|]
    case CHeader(j) => JobOk(q, j) && j.from == j.cur < j.end
    case CFront(j) => JobOk(q, j) && j.from == j.cur < j.end && Reaches(bs, headers, j)
    case CBase(j, top) =>
      && JobOk(q, j) && j.from == j.cur < j.end && Reaches(bs, headers, j)
      && BlockNo(bs, j.end - 1) <= top < headers[j.header].count && SlotIs(headers, j, top)
    case CBlock(j) => JobOk(q, j) && j.from == j.cur < j.end && Reaches(bs, headers, j) && SlotIs(headers, j, BlockNo(bs, j.cur))
    case CMove(j) =>
      && JobOk(q, j) && j.cur < j.end && Pending(q, j.from, j.cur) && Reaches(bs, headers, j)
      && SlotIs(headers, j, BlockNo(bs, j.cur)) && BlockNo(bs, j.from) == BlockNo(bs, j.cur)
      && HasBlock(q, j, BlockNo(bs, j.cur))
    case CFlag(j, to) =>
      && JobOk(q, j) && j.from < to <= j.cur && Pending(q, j.from, to) && Reaches(bs, headers, j)
      && SlotIs(headers, j, BlockNo(bs, j.from)) && BlockNo(bs, j.cur - 1) == BlockNo(bs, j.from)
      && HasBlock(q, j, BlockNo(bs, j.from)) && (j.cur == j.end || j.cur % bs == 0)
  }

  ghost predicate Reaches<V>(bs: nat, headers: seq<Header>, j: Job<V>)
    requires bs > 0
  { j.header < |headers| && j.end > 0 && BlockNo(bs, j.end - 1) < headers[j.header].count }

  ghost predicate SlotIs<V>(headers: seq<Header>, j: Job<V>, k: nat)
    requires j.header < |headers|
  { headers[j.header].size > 0 && j.slot == Slot(headers[j.header], k) }

  ghost predicate HasBlock<V>(q: Queue<V>, j: Job<V>, k: nat) { k < |q.blockOf| && j.block == q.blockOf[k] }

  ghost predicate Apart<V>(c: Consumer<V>, d: Consumer<V>) {
    !c.CIdle? && !d.CIdle? ==> c.job.end <= d.job.from || d.job.end <= c.job.from
  }

  ghost predicate ConsumersOk<V>(bs: nat, q: Queue<V>, headers: seq<Header>, cs: seq<Consumer<V>>)
    requires bs > 0
  {
    && (forall t :: 0 <= t < |cs| ==> ConsumerOk(bs, q, headers, cs[t]))
    && (forall t, u :: 0 <= t < |cs| && 0 <= u < |cs| && t != u ==> Apart(cs[t], cs[u]))
  }

  ghost predicate MemoryOk<V>(bs: nat, m: Memory<V>, p: Producer<V>) {
    && bs > 1
    && QueueOk(bs, m.q)
    && StartedOk(bs, m.q, p)
    && RingOk(bs, m.q, m.ring, |m.store|)
    && IndexOk(bs, m.q, m.ring, m.headers, p)
    && ElementsOk(bs, m.q, m.ring, m.store, p)
    && FlagsOk(bs, m.q, m.ring, m.store, p)
  }

  ghost predicate Inv<V>(bs: nat, s: State<V>) {
    && MemoryOk(bs, s.mem, s.producer)
    && ConsumersOk(bs, s.mem.q, s.mem.headers, s.consumers)
  }

  // ---- Consumers and the producer's steps ----------------------------------------------------------

  /** What the producer's steps leave alone of the records and the headers. */
  ghost predicate Extends<V>(q: Queue<V>, q': Queue<V>, hs: seq<Header>, hs': seq<Header>) {
    && q'.headIndex == q.headIndex && q.log <= q'.log && q.blockOf <= q'.blockOf
    && q'.moved == q.moved && q'.flagged == q.flagged
    && |hs| <= |hs'|
    && (forall g :: 0 <= g < |hs| ==> hs'[g].size == hs[g].size && hs'[g].off == hs[g].off && hs[g].count <= hs'[g].count)
  }

  lemma ConsumersFrame<V>(bs: nat, q: Queue<V>, q': Queue<V>, hs: seq<Header>, hs': seq<Header>, cs: seq<Consumer<V>>)
    requires bs > 0 && ConsumersOk(bs, q, hs, cs) && Extends(q, q', hs, hs')
    ensures ConsumersOk(bs, q', hs', cs)
  {
    forall t | 0 <= t < |cs| ensures ConsumerOk(bs, q', hs', cs[t]) {
      ConsumerFrame(bs, q, q', hs, hs', cs[t]);
    }
  }

  lemma ConsumerFrame<V>(bs: nat, q: Queue<V>, q': Queue<V>, hs: seq<Header>, hs': seq<Header>, c: Consumer<V>)
    requires bs > 0 && ConsumerOk(bs, q, hs, c) && Extends(q, q', hs, hs')
    ensures ConsumerOk(bs, q', hs', c)
  {
  }

  lemma MemoryChanges<V>(bs: nat, s: State<V>, m': Memory<V>, p': Producer<V>)
    requires Inv(bs, s) && MemoryOk(bs, m', p') && Extends(s.mem.q, m'.q, s.mem.headers, m'.headers)
    ensures Inv(bs, State(m', p', s.consumers))
  {
    assert bs > 0;
    hide MemoryOk, ConsumersOk, Extends;
    ConsumersFrame(bs, s.mem.q, m'.q, s.mem.headers, m'.headers, s.consumers);
  }

  // ---- The producer's steps keep the memory in order -------------------------------------------------

  lemma Started(bs: nat, n: nat)
    requires bs > 0
    ensures BlockCount(bs, n) == BlockNo(bs, n) + (if n % bs == 0 then 0 else 1)
  {
    assert n == (n / bs) * bs + n % bs;
    if n % bs == 0 {
      Arithmetic.QuotientRemainder(n + bs - 1, bs, n / bs, bs - 1);
    } else {
      Arithmetic.Distribute(n / bs + 1, 1, bs);
      Arithmetic.QuotientRemainder(n + bs - 1, bs, n / bs + 1, n % bs - 1);
    }
  }

  /** A step that only moves the producer on, with nothing opened or published. */
  lemma MovesOn<V>(bs: nat, m: Memory<V>, p: Producer<V>, p': Producer<V>)
    requires MemoryOk(bs, m, p) && StartedOk(bs, m.q, p')
    requires Entered(m.q, p') == Entered(m.q, p) && Fronted(m.q, p') == Fronted(m.q, p)
    requires !p.PReset? && !p'.PReset? && !p.PPublish? && !p'.PPublish? && p'.PFront? == p.PFront?
    requires p'.PGet? ==> |m.ring.blocks| < Current(m.headers).size
    requires p'.PScan? ==> |m.ring.blocks| > 0 && p'.i < bs
    requires p'.PScan? ==> m.ring.blocks[0] < |m.store| && forall x :: 0 <= x < p'.i ==> m.store[m.ring.blocks[0]].flags[x]
    ensures MemoryOk(bs, m, p')
  {
    assert forall i: nat :: Expected(m.q, p', i) == Expected(m.q, p, i);
  }

  // Reusing the block ahead.

  lemma AllFlagged<V>(bs: nat, q: Queue<V>, r: Ring, store: seq<Block<V>>, p: Producer<V>, i: nat)
    requires bs > 0 && RingOk(bs, q, r, |store|) && StoreShape(bs, store) && FlagsOk(bs, q, r, store, p)
    requires !p.PReset? && |r.blocks| > 0 && forall x :: 0 <= x < bs ==> store[r.blocks[0]].flags[x]
    requires BlockNo(bs, i) <= Low(q, r)
    ensures i in q.flagged
  {
    if BlockNo(bs, i) == Low(q, r) {
      assert q.blockOf[BlockNo(bs, i)] == r.blocks[0];
      assert store[r.blocks[0]].flags[bs - 1 - i % bs];
    }
  }

  lemma ReuseRing<V>(bs: nat, q: Queue<V>, r: Ring, n: nat)
    requires bs > 0 && RingOk(bs, q, r, n) && |r.blocks| > 0
    requires forall i: nat :: BlockNo(bs, i) <= Low(q, r) ==> i in q.flagged
    ensures RingOk(bs, q.(blockOf := q.blockOf + [r.blocks[0]]), r.(blocks := r.blocks[1..] + [r.blocks[0]]), n)
  {
    var q', r' := q.(blockOf := q.blockOf + [r.blocks[0]]), r.(blocks := r.blocks[1..] + [r.blocks[0]]);
    assert r'.blocks == q'.blockOf[Low(q', r')..];
  }

  lemma ReuseElements<V>(bs: nat, q: Queue<V>, r: Ring, store: seq<Block<V>>, p: Producer<V>, v: V)
    requires bs > 0 && QueueOk(bs, q) && StartedOk(bs, q, p) && p.PScan? && RingOk(bs, q, r, |store|) && |r.blocks| > 0
    requires ElementsOk(bs, q, r, store, p) && forall i: nat :: BlockNo(bs, i) <= Low(q, r) ==> i in q.flagged
    ensures ElementsOk(bs, q.(blockOf := q.blockOf + [r.blocks[0]]), r.(blocks := r.blocks[1..] + [r.blocks[0]]), store, PReset(v, 0))
  {
    var q', r' := q.(blockOf := q.blockOf + [r.blocks[0]]), r.(blocks := r.blocks[1..] + [r.blocks[0]]);
    var n, low := |q.blockOf|, Low(q, r);
    assert forall b :: b in r'.blocks <==> b in r.blocks;
    assert StoreShape(bs, store);
    assert forall b, o :: 0 <= b < |store| && 0 <= o < bs && b !in r'.blocks ==> store[b].elements[o] == None;
    hide RingOk;
    forall i: nat | low + 1 <= BlockNo(bs, i) <= n
      ensures q'.blockOf[BlockNo(bs, i)] < |store|
      ensures store[q'.blockOf[BlockNo(bs, i)]].elements[i % bs] == Expected(q', PReset(v, 0), i)
    {
      ReuseElement(bs, q, r, store, p, v, i);
    }
  }

  lemma ReuseElement<V>(bs: nat, q: Queue<V>, r: Ring, store: seq<Block<V>>, p: Producer<V>, v: V, i: nat)
    requires bs > 0 && QueueOk(bs, q) && StartedOk(bs, q, p) && p.PScan? && RingOk(bs, q, r, |store|) && |r.blocks| > 0
    requires ElementsOk(bs, q, r, store, p) && forall i: nat :: BlockNo(bs, i) <= Low(q, r) ==> i in q.flagged
    requires Low(q, r) < BlockNo(bs, i) <= |q.blockOf|
    ensures var b := (q.blockOf + [r.blocks[0]])[BlockNo(bs, i)];
            b < |store| && store[b].elements[i % bs] == Expected(q.(blockOf := q.blockOf + [r.blocks[0]]), PReset(v, 0), i)
  {
    var q' := q.(blockOf := q.blockOf + [r.blocks[0]]);
    if BlockNo(bs, i) < |q.blockOf| {
      assert Expected(q', PReset(v, 0), i) == Expected(q, p, i);
    } else {
      OldElement(bs, q, r, store, p, i);
      BlockBounds(bs, i);
      BlockBounds(bs, q.tailIndex);
    }
  }

  /** The storage of the block ahead is bare once all its elements are flagged. */
  lemma OldElement<V>(bs: nat, q: Queue<V>, r: Ring, store: seq<Block<V>>, p: Producer<V>, i: nat)
    requires bs > 0 && QueueOk(bs, q) && RingOk(bs, q, r, |store|) && |r.blocks| > 0
    requires ElementsOk(bs, q, r, store, p) && forall i: nat :: BlockNo(bs, i) <= Low(q, r) ==> i in q.flagged
    ensures r.blocks[0] < |store| && store[r.blocks[0]].elements[i % bs] == None
  {
    var low: nat := Low(q, r);
    Parts(bs, low, i % bs);
    var j := low * bs + i % bs;
    assert BlockNo(bs, j) == low && j % bs == i % bs;
    assert q.blockOf[low] == r.blocks[0];
    assert store[q.blockOf[BlockNo(bs, j)]].elements[j % bs] == Expected(q, p, j);
  }

  lemma ReuseFlags<V>(bs: nat, q: Queue<V>, r: Ring, store: seq<Block<V>>, p: Producer<V>, v: V)
    requires bs > 0 && RingOk(bs, q, r, |store|) && |r.blocks| > 0 && p.PScan?
    requires StoreShape(bs, store) && FlagsOk(bs, q, r, store, p)
    ensures FlagsOk(bs, q.(blockOf := q.blockOf + [r.blocks[0]]), r.(blocks := r.blocks[1..] + [r.blocks[0]]), store, PReset(v, 0))
  {
  }

  lemma ReuseIndex<V>(bs: nat, q: Queue<V>, r: Ring, hs: seq<Header>, p: Producer<V>, v: V)
    requires |r.blocks| > 0 && IndexOk(bs, q, r, hs, p) && p.PScan?
    ensures IndexOk(bs, q.(blockOf := q.blockOf + [r.blocks[0]]), r.(blocks := r.blocks[1..] + [r.blocks[0]]), hs, PReset(v, 0))
  {
    var q' := q.(blockOf := q.blockOf + [r.blocks[0]]);
    forall g, k: nat | 0 <= g < |hs| && Low(q, r) + 1 <= k < hs[g].count ensures EntryIs(bs, q', hs[g], k) {
      assert EntryIs(bs, q, hs[g], k);
    }
    forall k: nat | Low(q, r) + 1 <= k < |q.blockOf| ensures EntryIs(bs, q', Current(hs), k) {
      assert EntryIs(bs, q, Current(hs), k);
    }
  }

  lemma ScanFlagged<V>(bs: nat, m: Memory<V>, p: Producer<V>)
    requires MemoryOk(bs, m, p) && Shape(bs, m) && ProducerInRange(bs, m, p) && p.PScan?
    requires p.i + 1 == bs && m.store[m.ring.blocks[0]].flags[p.i]
    ensures forall i: nat :: BlockNo(bs, i) <= Low(m.q, m.ring) ==> i in m.q.flagged
  {
    assert forall x :: 0 <= x < bs ==> m.store[m.ring.blocks[0]].flags[x];
    hide ElementsOk, IndexOk, QueueOk, StartedOk;
    forall i: nat | BlockNo(bs, i) <= Low(m.q, m.ring) ensures i in m.q.flagged {
      AllFlagged(bs, m.q, m.ring, m.store, p, i);
    }
  }

  lemma ReuseMemory<V>(bs: nat, m: Memory<V>, p: Producer<V>)
    requires MemoryOk(bs, m, p) && Shape(bs, m) && ProducerInRange(bs, m, p) && p.PScan?
    requires p.i + 1 == bs && m.store[m.ring.blocks[0]].flags[p.i]
    ensures var b := m.ring.blocks[0];
            MemoryOk(bs, m.(ring := m.ring.(blocks := m.ring.blocks[1..] + [b]), q := m.q.(blockOf := m.q.blockOf + [b])), PReset(p.v, 0))
  {
    hide RingOk, ElementsOk, FlagsOk, IndexOk, StoreShape;
    ScanFlagged(bs, m, p);
    ReuseRing(bs, m.q, m.ring, |m.store|);
    ReuseElements(bs, m.q, m.ring, m.store, p, p.v);
    ReuseFlags(bs, m.q, m.ring, m.store, p, p.v);
    ReuseIndex(bs, m.q, m.ring, m.headers, p, p.v);
  }

  lemma ScanMoves<V>(bs: nat, m: Memory<V>, p: Producer<V>, p': Producer<V>)
    requires MemoryOk(bs, m, p) && Shape(bs, m) && ProducerInRange(bs, m, p) && p.PScan?
    requires p' == PNew(p.v) || (p' == PScan(p.v, p.i + 1) && p.i + 1 < bs && m.store[m.ring.blocks[0]].flags[p.i])
    ensures MemoryOk(bs, m, p')
  {
    MovesOn(bs, m, p, p');
  }

  lemma ScanKeeps<V>(bs: nat, s: State<V>, pick: Pick<V>)
    requires Inv(bs, s) && Enabled(bs, s, pick) && pick.Produce? && s.producer.PScan?
    ensures Inv(bs, Step(bs, s, pick))
  {
    hide ConsumersOk, MemoryOk;
    var m, p, s' := s.mem, s.producer, Step(bs, s, pick);
    if s'.producer.PReset? { ReuseMemory(bs, m, p); } else { ScanMoves(bs, m, p, s'.producer); }
    MemoryChanges(bs, s, s'.mem, s'.producer);
  }

  lemma StartKeeps<V>(bs: nat, s: State<V>, pick: Pick<V>)
    requires Inv(bs, s) && Enabled(bs, s, pick) && pick.Produce? && s.producer.PIdle?
    ensures Inv(bs, Step(bs, s, pick))
  {
    hide ConsumersOk;
    Started(bs, s.mem.q.tailIndex);
    var s' := Step(bs, s, pick);
    MovesOn(bs, s.mem, s.producer, s'.producer);
    MemoryChanges(bs, s, s'.mem, s'.producer);
  }

  // Adding a block, in a doubled index if need be.

  /** The doubled index keeps the entry of every block in the ring. */
  lemma DoubledEntry<V>(bs: nat, q: Queue<V>, r: Ring, h: Header, k: nat)
    requires HeaderOk(h) && r.slotsUsed == |r.blocks| == h.size <= |q.blockOf| && r.nextSlot == Slot(h, |q.blockOf|)
    requires Low(q, r) <= k < |q.blockOf| && EntryIs(bs, q, h, k)
    requires HeaderOk(Doubled(h, r, Low(q, r)))
    ensures EntryIs(bs, q, Doubled(h, r, Low(q, r)), k)
  {
    var h' := Doubled(h, r, Low(q, r));
    Arithmetic.RingSmall(k - Low(q, r), h'.size);
    Arithmetic.RingShift(|q.blockOf| + h.off, k - |q.blockOf|, h.size);
  }

  lemma DoubledShape<V>(q: Queue<V>, r: Ring, h: Header)
    requires HeaderOk(h) && r.slotsUsed == |r.blocks| == h.size <= |q.blockOf| == h.count && r.nextSlot < h.size
    ensures HeaderOk(Doubled(h, r, Low(q, r))) && Slot(Doubled(h, r, Low(q, r)), |q.blockOf|) == r.slotsUsed
  {
    var h' := Doubled(h, r, Low(q, r));
    Arithmetic.RingSmall(r.slotsUsed - 1, h'.size);
    Arithmetic.RingSmall(r.slotsUsed, h'.size);
  }

  lemma DoubledIndex<V>(bs: nat, q: Queue<V>, r: Ring, hs: seq<Header>, p: Producer<V>, v: V)
    requires IndexOk(bs, q, r, hs, p) && p.PNew? && r.slotsUsed == |r.blocks| == Current(hs).size <= |q.blockOf|
    ensures r.nextSlot < Current(hs).size
    ensures IndexOk(bs, q, r.(nextSlot := r.slotsUsed), hs + [Doubled(Current(hs), r, Low(q, r))], PGet(v))
  {
    DoubledShape(q, r, Current(hs));
    var h' := Doubled(Current(hs), r, Low(q, r));
    forall k: nat | Low(q, r) <= k < |q.blockOf| ensures EntryIs(bs, q, h', k) {
      DoubledEntry(bs, q, r, Current(hs), k);
    }
  }

  lemma NewKeeps<V>(bs: nat, s: State<V>, pick: Pick<V>)
    requires Inv(bs, s) && Enabled(bs, s, pick) && pick.Produce? && s.producer.PNew?
    ensures Inv(bs, Step(bs, s, pick))
  {
    hide ConsumersOk;
    var m, p, s' := s.mem, s.producer, Step(bs, s, pick);
    Started(bs, m.q.tailIndex);
    if s'.mem.headers == m.headers {
      MovesOn(bs, m, p, s'.producer);
    } else {
      DoubledIndex(bs, m.q, m.ring, m.headers, p, p.v);
      var r' := m.ring.(nextSlot := m.ring.slotsUsed);
      assert Low(m.q, r') == Low(m.q, m.ring);
      assert forall i: nat :: Expected(m.q, s'.producer, i) == Expected(m.q, p, i);
      hide IndexOk;
      assert MemoryOk(bs, s'.mem, s'.producer);
    }
    MemoryChanges(bs, s, s'.mem, s'.producer);
  }

  lemma GrownStore<V>(bs: nat, m: Memory<V>, p: Producer<V>)
    requires MemoryOk(bs, m, p) && p.PGet?
    ensures MemoryOk(bs, m.(store := m.store + [Block(seq(bs, _ => None), seq(bs, _ => false))]), p)
  {
    var store' := m.store + [Block(seq(bs, _ => None), seq(bs, _ => false))];
    forall b, o | 0 <= b < |store'| && 0 <= o < bs && b !in m.ring.blocks ensures store'[b].elements[o] == None {
      if b < |m.store| { assert m.store[b].elements[o] == None; }
    }
  }

  lemma AddedElements<V>(bs: nat, m: Memory<V>, p: Producer<V>, b: nat, v: V)
    requires bs > 0 && QueueOk(bs, m.q) && StartedOk(bs, m.q, p) && p.PGet? && RingOk(bs, m.q, m.ring, |m.store|)
    requires ElementsOk(bs, m.q, m.ring, m.store, p) && b < |m.store| && b !in m.ring.blocks
    ensures ElementsOk(bs, AddBlock(m, b).q, AddBlock(m, b).ring, m.store, PReset(v, 0))
  {
    var m' := AddBlock(m, b);
    forall i: nat | Low(m'.q, m'.ring) <= BlockNo(bs, i) < |m'.q.blockOf|
      ensures m'.q.blockOf[BlockNo(bs, i)] < |m.store|
      ensures m.store[m'.q.blockOf[BlockNo(bs, i)]].elements[i % bs] == Expected(m'.q, PReset(v, 0), i)
    {
      if BlockNo(bs, i) < |m.q.blockOf| {
        assert m'.q.blockOf[BlockNo(bs, i)] == m.q.blockOf[BlockNo(bs, i)];
        assert Expected(m'.q, PReset(v, 0), i) == Expected(m.q, p, i);
      } else {
        BlockBounds(bs, i);
        BlockBounds(bs, m.q.tailIndex);
      }
    }
  }

  lemma AddedRing<V>(bs: nat, m: Memory<V>, b: nat)
    requires bs > 0 && RingOk(bs, m.q, m.ring, |m.store|) && b < |m.store| && b !in m.ring.blocks
    ensures RingOk(bs, AddBlock(m, b).q, AddBlock(m, b).ring, |m.store|)
  {
    var m' := AddBlock(m, b);
    assert m'.ring.blocks == m'.q.blockOf[Low(m'.q, m'.ring)..];
  }

  lemma AddedIndex<V>(bs: nat, m: Memory<V>, p: Producer<V>, b: nat, v: V)
    requires IndexOk(bs, m.q, m.ring, m.headers, p) && p.PGet?
    ensures IndexOk(bs, AddBlock(m, b).q, AddBlock(m, b).ring, m.headers, PReset(v, 0))
  {
    var q, q', hs := m.q, AddBlock(m, b).q, m.headers;
    forall g, k: nat | 0 <= g < |hs| && Low(q, m.ring) <= k < hs[g].count ensures EntryIs(bs, q', hs[g], k) {
      assert EntryIs(bs, q, hs[g], k);
    }
    forall k: nat | Low(q, m.ring) <= k < |q.blockOf| ensures EntryIs(bs, q', Current(hs), k) {
      assert EntryIs(bs, q, Current(hs), k);
    }
  }

  lemma AddedMemory<V>(bs: nat, m: Memory<V>, p: Producer<V>, b: nat)
    requires MemoryOk(bs, m, p) && p.PGet? && b < |m.store| && b !in m.ring.blocks
    ensures MemoryOk(bs, AddBlock(m, b), PReset(p.v, 0))
  {
    AddedRing(bs, m, b);
    AddedElements(bs, m, p, b, p.v);
    AddedIndex(bs, m, p, b, p.v);
    hide ElementsOk, IndexOk;
  }

  lemma GetKeeps<V>(bs: nat, s: State<V>, pick: Pick<V>)
    requires Inv(bs, s) && Enabled(bs, s, pick) && pick.Produce? && s.producer.PGet?
    ensures Inv(bs, Step(bs, s, pick))
  {
    hide ConsumersOk;
    var m, p, s' := s.mem, s.producer, Step(bs, s, pick);
    match pick.supply
    case Nothing =>
      Started(bs, m.q.tailIndex);
      MovesOn(bs, m, p, s'.producer);
      MemoryChanges(bs, s, s'.mem, s'.producer);
    case FromFreeList(b) =>
      if b < |m.store| && b !in m.ring.blocks {
        AddedMemory(bs, m, p, b);
        MemoryChanges(bs, s, s'.mem, s'.producer);
      }
    case NewBlock =>
      GrownStore(bs, m, p);
      AddedMemory(bs, m.(store := m.store + [Block(seq(bs, _ => None), seq(bs, _ => false))]), p, |m.store|);
      MemoryChanges(bs, s, s'.mem, s'.producer);
  }

  // Resetting, entering and filling it.

  /** The block in the producer's hands is the latest one. */
  lemma TailIsLast<V>(bs: nat, q: Queue<V>, r: Ring, n: nat)
    requires bs > 0 && RingOk(bs, q, r, n) && |q.blockOf| > 0
    ensures |r.blocks| > 0 && Tail(r) == q.blockOf[|q.blockOf| - 1] && Tail(r) < n
    ensures forall k: nat :: Low(q, r) <= k < |q.blockOf| - 1 ==> q.blockOf[k] != Tail(r)
  {
    forall k: nat | Low(q, r) <= k < |q.blockOf| - 1 ensures q.blockOf[k] != Tail(r) {
      assert q.blockOf[k] == r.blocks[k - Low(q, r)];
    }
  }

  /** Clearing the flags of the latest block. */
  lemma ResetFlags<V>(bs: nat, q: Queue<V>, r: Ring, store: seq<Block<V>>, p: Producer<V>, p': Producer<V>)
    requires bs > 0 && QueueOk(bs, q) && StartedOk(bs, q, p) && RingOk(bs, q, r, |store|) && StoreShape(bs, store)
    requires FlagsOk(bs, q, r, store, p) && p.PReset? && |q.blockOf| > 0 && |r.blocks| > 0 && Tail(r) < |store|
    requires p' == if p.i + 1 < bs then PReset(p.v, p.i + 1) else PEntry(p.v)
    ensures var blk := store[Tail(r)]; FlagsOk(bs, q, r, store[Tail(r) := blk.(flags := blk.flags[p.i := false])], p')
  {
    TailIsLast(bs, q, r, |store|);
    var b := Tail(r);
    var store' := store[b := store[b].(flags := store[b].flags[p.i := false])];
    var n := if p'.PReset? then |q.blockOf| - 1 else |q.blockOf|;
    forall i: nat | Low(q, r) <= BlockNo(bs, i) < n
      ensures q.blockOf[BlockNo(bs, i)] < |store'|
      ensures store'[q.blockOf[BlockNo(bs, i)]].flags[bs - 1 - i % bs] <==> i in q.flagged
    {
      if BlockNo(bs, i) < |q.blockOf| - 1 {
        assert q.blockOf[BlockNo(bs, i)] != b;
      } else {
        assert !store'[b].flags[bs - 1 - i % bs];
        BlockBounds(bs, i);
        BlockBounds(bs, q.tailIndex);
      }
    }
  }

  lemma SameElements<V>(bs: nat, q: Queue<V>, q': Queue<V>, r: Ring, store: seq<Block<V>>, store': seq<Block<V>>,
                        p: Producer<V>, p': Producer<V>)
    requires bs > 0 && |q.log| == q.tailIndex && ElementsOk(bs, q, r, store, p)
    requires q'.tailIndex == q.tailIndex && q'.log == q.log && q'.moved == q.moved && q'.blockOf == q.blockOf
    requires |store'| == |store| && StoreShape(bs, store') && forall b :: 0 <= b < |store| ==> store'[b].elements == store[b].elements
    requires p' == p || (!p.PPublish? && !p'.PPublish?)
    ensures ElementsOk(bs, q', r, store', p')
  {
    assert forall i: nat :: Expected(q', p', i) == Expected(q, p, i);
  }

  lemma SameIndex<V>(bs: nat, q: Queue<V>, q': Queue<V>, r: Ring, hs: seq<Header>, p: Producer<V>, p': Producer<V>)
    requires IndexOk(bs, q, r, hs, p) && q'.blockOf == q.blockOf && p'.PFront? == p.PFront? && !p'.PGet?
    requires Entered(q, p') == Entered(q, p) && Fronted(q, p') == Fronted(q, p)
    ensures IndexOk(bs, q', r, hs, p')
  {
    forall g, k: nat | 0 <= g < |hs| && Low(q, r) <= k < hs[g].count ensures EntryIs(bs, q', hs[g], k) {
      assert EntryIs(bs, q, hs[g], k);
    }
    forall k: nat | Low(q, r) <= k < Entered(q, p) ensures EntryIs(bs, q', Current(hs), k) {
      assert EntryIs(bs, q, Current(hs), k);
    }
  }

  lemma ResetKeeps<V>(bs: nat, s: State<V>, pick: Pick<V>)
    requires Inv(bs, s) && Enabled(bs, s, pick) && pick.Produce? && s.producer.PReset?
    ensures Inv(bs, Step(bs, s, pick))
  {
    hide ConsumersOk, ElementsOk, FlagsOk, IndexOk;
    var m, p, s' := s.mem, s.producer, Step(bs, s, pick);
    ResetFlags(bs, m.q, m.ring, m.store, p, s'.producer);
    SameElements(bs, m.q, m.q, m.ring, m.store, s'.mem.store, p, s'.producer);
    SameIndex(bs, m.q, m.q, m.ring, m.headers, p, s'.producer);
    MemoryChanges(bs, s, s'.mem, s'.producer);
  }

  /** Writing the entry of the latest block touches no entry of another block in the ring: whatever was there
      belonged to a block that has left it. */
  lemma EntryIndex<V>(bs: nat, q: Queue<V>, r: Ring, hs: seq<Header>, p: Producer<V>, v: V)
    requires bs > 0 && StartedOk(bs, q, p) && IndexOk(bs, q, r, hs, p) && p.PEntry? && |r.blocks| > 0
    requires Tail(r) == q.blockOf[|q.blockOf| - 1] && r.nextSlot < Current(hs).size
    ensures var h := Current(hs);
            IndexOk(bs, q, r, SetCurrent(hs, h.(entries := h.entries[r.nextSlot := Some(Entry(q.tailIndex, Tail(r)))])), PFront(v))
  {
    var h, n := Current(hs), |q.blockOf|;
    var h' := h.(entries := h.entries[r.nextSlot := Some(Entry(q.tailIndex, Tail(r)))]);
    var hs' := SetCurrent(hs, h');
    forall k: nat | Low(q, r) <= k < n ensures EntryIs(bs, q, h', k) {
      if k < n - 1 {
        assert EntryIs(bs, q, h, k);
        OtherSlot(h, k, n - 1);
      } else {
        BlockBounds(bs, q.tailIndex);
        assert q.tailIndex == (q.tailIndex / bs) * bs + q.tailIndex % bs;
      }
    }
    forall g, k: nat | 0 <= g < |hs'| && Low(q, r) <= k < hs'[g].count ensures EntryIs(bs, q, hs'[g], k) {
      if g < |hs| - 1 { assert EntryIs(bs, q, hs[g], k); }
    }
  }

  lemma OtherSlot(h: Header, j: nat, k: nat)
    requires h.size > 0 && j < k < j + h.size
    ensures Slot(h, j) != Slot(h, k)
  {
    if Slot(h, j) == Slot(h, k) { Arithmetic.RingInjective(j + h.off, k + h.off, h.size); }
  }

  lemma SameFlags<V>(bs: nat, q: Queue<V>, q': Queue<V>, r: Ring, r': Ring, store: seq<Block<V>>, store': seq<Block<V>>,
                     p: Producer<V>, p': Producer<V>)
    requires bs > 0 && StoreShape(bs, store) && FlagsOk(bs, q, r, store, p)
    requires q'.blockOf == q.blockOf && q'.flagged == q.flagged && r'.blocks == r.blocks
    requires |store'| == |store| && StoreShape(bs, store') && forall b :: 0 <= b < |store| ==> store'[b].flags == store[b].flags
    requires p' == p || (!p.PReset? && !p'.PReset? && !p'.PScan?)
    ensures FlagsOk(bs, q', r', store', p')
  {
  }

  lemma EntryKeeps<V>(bs: nat, s: State<V>, pick: Pick<V>)
    requires Inv(bs, s) && Enabled(bs, s, pick) && pick.Produce? && s.producer.PEntry?
    ensures Inv(bs, Step(bs, s, pick))
  {
    assert StoreShape(bs, s.mem.store);
    hide ConsumersOk, ElementsOk, FlagsOk, IndexOk;
    var m, p, s' := s.mem, s.producer, Step(bs, s, pick);
    TailIsLast(bs, m.q, m.ring, |m.store|);
    EntryIndex(bs, m.q, m.ring, m.headers, p, p.v);
    SameElements(bs, m.q, m.q, m.ring, m.store, m.store, p, s'.producer);
    SameFlags(bs, m.q, m.q, m.ring, m.ring, m.store, m.store, p, s'.producer);
    MemoryChanges(bs, s, s'.mem, s'.producer);
  }

  lemma FrontIndex<V>(bs: nat, q: Queue<V>, r: Ring, hs: seq<Header>, p: Producer<V>, v: V)
    requires IndexOk(bs, q, r, hs, p) && p.PFront? && r.nextSlot < Current(hs).size && |q.blockOf| > 0
    ensures var h := Current(hs);
            IndexOk(bs, q, r.(nextSlot := (r.nextSlot + 1) % h.size),
                    SetCurrent(hs, h.(front := r.nextSlot, count := h.count + 1)), PFill(v))
  {
    var h, n := Current(hs), |q.blockOf|;
    var h', r' := h.(front := r.nextSlot, count := h.count + 1), r.(nextSlot := (r.nextSlot + 1) % h.size);
    var hs' := SetCurrent(hs, h');
    Arithmetic.RingShift(n - 1 + h.off, 1, h.size);
    forall k: nat | Low(q, r) <= k < n ensures EntryIs(bs, q, h', k) {
      assert EntryIs(bs, q, h, k);
    }
    forall g, k: nat | 0 <= g < |hs'| && Low(q, r) <= k < hs'[g].count ensures EntryIs(bs, q, hs'[g], k) {
      if g < |hs| - 1 { assert EntryIs(bs, q, hs[g], k); }
    }
  }

  lemma FrontKeeps<V>(bs: nat, s: State<V>, pick: Pick<V>)
    requires Inv(bs, s) && Enabled(bs, s, pick) && pick.Produce? && s.producer.PFront?
    ensures Inv(bs, Step(bs, s, pick))
  {
    assert StoreShape(bs, s.mem.store);
    hide ConsumersOk, FlagsOk, IndexOk, Slot;
    var m, p, s' := s.mem, s.producer, Step(bs, s, pick);
    FrontIndex(bs, m.q, m.ring, m.headers, p, p.v);
    SameElements(bs, m.q, m.q, m.ring, m.store, m.store, p, s'.producer);
    SameFlags(bs, m.q, m.q, m.ring, s'.mem.ring, m.store, m.store, p, s'.producer);
    MemoryChanges(bs, s, s'.mem, s'.producer);
  }

  lemma FillElements<V>(bs: nat, q: Queue<V>, r: Ring, store: seq<Block<V>>, p: Producer<V>)
    requires bs > 0 && QueueOk(bs, q) && StartedOk(bs, q, p) && p.PFill? && RingOk(bs, q, r, |store|)
    requires ElementsOk(bs, q, r, store, p)
    ensures |r.blocks| > 0 && Tail(r) < |store|
    ensures var blk := store[Tail(r)];
            ElementsOk(bs, q, r, store[Tail(r) := blk.(elements := blk.elements[q.tailIndex % bs := Some(p.v)])], PPublish(p.v))
  {
    TailIsLast(bs, q, r, |store|);
    var b, p' := Tail(r), PPublish(p.v);
    var store' := store[b := store[b].(elements := store[b].elements[q.tailIndex % bs := Some(p.v)])];
    forall i: nat | Low(q, r) <= BlockNo(bs, i) < |q.blockOf|
      ensures q.blockOf[BlockNo(bs, i)] < |store'|
      ensures store'[q.blockOf[BlockNo(bs, i)]].elements[i % bs] == Expected(q, p', i)
    {
      if i != q.tailIndex {
        assert Expected(q, p', i) == Expected(q, p, i);
        if BlockNo(bs, i) == |q.blockOf| - 1 && i % bs == q.tailIndex % bs { Arithmetic.SameParts(i, q.tailIndex, bs); }
      }
    }
  }

  lemma FillKeeps<V>(bs: nat, s: State<V>, pick: Pick<V>)
    requires Inv(bs, s) && Enabled(bs, s, pick) && pick.Produce? && s.producer.PFill?
    ensures Inv(bs, Step(bs, s, pick))
  {
    assert StoreShape(bs, s.mem.store);
    hide ConsumersOk, FlagsOk, IndexOk, ElementsOk;
    var m, p, s' := s.mem, s.producer, Step(bs, s, pick);
    FillElements(bs, m.q, m.ring, m.store, p);
    SameIndex(bs, m.q, m.q, m.ring, m.headers, p, s'.producer);
    SameFlags(bs, m.q, m.q, m.ring, m.ring, m.store, s'.mem.store, p, s'.producer);
    MemoryChanges(bs, s, s'.mem, s'.producer);
  }

  lemma PublishKeeps<V>(bs: nat, s: State<V>, pick: Pick<V>)
    requires Inv(bs, s) && Enabled(bs, s, pick) && pick.Produce? && s.producer.PPublish?
    ensures Inv(bs, Step(bs, s, pick))
  {
    hide ConsumersOk, IndexOk;
    var m, p, s' := s.mem, s.producer, Step(bs, s, pick);
    var q' := s'.mem.q;
    Started(bs, q'.tailIndex);
    BlockNoNext(bs, m.q.tailIndex);
    assert forall i: nat :: Expected(q', s'.producer, i) == Expected(m.q, p, i);
    SameIndex(bs, m.q, q', m.ring, m.headers, p, s'.producer);
    SameFlags(bs, m.q, q', m.ring, m.ring, m.store, m.store, p, s'.producer);
    assert MemoryOk(bs, s'.mem, s'.producer);
    MemoryChanges(bs, s, s'.mem, s'.producer);
  }

  lemma ProducerRuns<V>(bs: nat, s: State<V>, pick: Pick<V>)
    requires Inv(bs, s) && pick.Produce?
    ensures Enabled(bs, s, pick)
  {
    var m := s.mem;
    if |m.q.blockOf| > 0 { TailIsLast(bs, m.q, m.ring, |m.store|); }
  }

  /** Every access of the producer is in range and keeps the invariant. */
  lemma ProducerKeeps<V>(bs: nat, s: State<V>, pick: Pick<V>)
    requires Inv(bs, s) && pick.Produce?
    ensures Enabled(bs, s, pick) && Inv(bs, Step(bs, s, pick))
  {
    ProducerRuns(bs, s, pick);
    hide Inv, Step;
    match s.producer
    case PIdle(_) => StartKeeps(bs, s, pick);
    case PScan(_, _) => ScanKeeps(bs, s, pick);
    case PNew(_) => NewKeeps(bs, s, pick);
    case PGet(_) => GetKeeps(bs, s, pick);
    case PReset(_, _) => ResetKeeps(bs, s, pick);
    case PEntry(_) => EntryKeeps(bs, s, pick);
    case PFront(_) => FrontKeeps(bs, s, pick);
    case PFill(_) => FillKeeps(bs, s, pick);
    case PPublish(_) => PublishKeeps(bs, s, pick);
  }
}
