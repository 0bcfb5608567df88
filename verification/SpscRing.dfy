/** The single-producer single-consumer ring of external/rigtorp/SPSCQueue.h as an interleaving machine: one
    producer that calls emplace and try_emplace, one consumer that calls front, and pop only after a front that
    did not return nullptr.  Every atomic access is one step. */
module SpscRing {
  import opened Options
  import Arithmetic

  /** The fields of the queue, and the records of the run: everything enqueued, how much of it was popped, and
      the counts the cached indices stand for. */
  datatype Memory<V> = Memory(
    capacity: nat,
    padding: nat,
    slots: seq<Option<V>>,
    writeIdx: nat,
    readIdxCache: nat,
    readIdx: nat,
    writeIdxCache: nat,
    log: seq<V>,
    taken: nat,
    readCached: nat,
    writeCached: nat
  )

  datatype Producer<V> =
    | PIdle(refused: bool)           // the latest try_emplace returned false
    | PStart(v: V, wait: bool)       // about to load writeIdx_ and compare with the cache
    | PReload(v: V, wait: bool)      // about to load readIdx_ into the cache
    | PBuild(v: V)                   // about to construct the element
    | PStore(v: V)                   // about to store writeIdx_

  datatype Front = Unknown | Null | At(slot: nat)

  datatype Consumer =
    | CIdle(front: Front)            // what the latest front returned, if nothing was popped since
    | CStart                         // about to load readIdx_ and compare with the cache
    | CReload                        // about to load writeIdx_ into the cache
    | CDestroy                       // about to destroy the element
    | CStore                         // about to store readIdx_

  datatype State<V> = State(mem: Memory<V>, producer: Producer<V>, consumer: Consumer)

  datatype Pick<V> = Produce(v: V, wait: bool) | Consume(pop: bool)

  function Next(capacity: nat, i: nat): nat { if i + 1 == capacity then 0 else i + 1 }

  predicate Shape<V>(m: Memory<V>) {
    m.writeIdx < m.capacity && m.readIdx < m.capacity && |m.slots| == m.capacity + 2 * m.padding
  }

  function ProducerStep<V>(m: Memory<V>, p: Producer<V>, pick: Pick<V>): (Memory<V>, Producer<V>)
    requires Shape(m) && pick.Produce?
  {
    match p
    case PIdle(_) => (m, PStart(pick.v, pick.wait))
    case PStart(v, wait) =>
      if Next(m.capacity, m.writeIdx) == m.readIdxCache then (m, PReload(v, wait)) else (m, PBuild(v))
    case PReload(v, wait) =>
      var m' := m.(readIdxCache := m.readIdx, readCached := m.taken);
      if Next(m.capacity, m.writeIdx) != m.readIdx then (m', PBuild(v))
      else if wait then (m', p)
      else (m', PIdle(true))
    case PBuild(v) => (m.(slots := m.slots[m.writeIdx + m.padding := Some(v)]), PStore(v))
    case PStore(v) => (m.(writeIdx := Next(m.capacity, m.writeIdx), log := m.log + [v]), PIdle(false))
  }

  function ConsumerStep<V>(m: Memory<V>, c: Consumer, pop: bool): (Memory<V>, Consumer)
    requires Shape(m)
  {
    match c
    case CIdle(f) => if pop && f.At? then (m, CDestroy) else (m, CStart)
    case CStart => if m.readIdx == m.writeIdxCache then (m, CReload) else (m, CIdle(At(m.readIdx)))
    case CReload =>
      (m.(writeIdxCache := m.writeIdx, writeCached := |m.log|),
       if m.writeIdx == m.readIdx then CIdle(Null) else CIdle(At(m.readIdx)))
    case CDestroy => (m.(slots := m.slots[m.readIdx + m.padding := None]), CStore)
    case CStore => (m.(readIdx := Next(m.capacity, m.readIdx), taken := m.taken + 1), CIdle(Unknown))
  }

  function Step<V>(s: State<V>, pick: Pick<V>): State<V>
    requires Shape(s.mem)
  {
    match pick
    case Produce(_, _) =>
      var (m, p) := ProducerStep(s.mem, s.producer, pick);
      State(m, p, s.consumer)
    case Consume(pop) =>
      var (m, c) := ConsumerStep(s.mem, s.consumer, pop);
      State(m, s.producer, c)
  }

  /** The constructor, for a requested capacity below the overflow guard: at least one element, one slack. */
  function Start<V>(requested: nat, padding: nat): State<V> {
    var capacity := (if requested < 1 then 1 else requested) + 1;
    State(Memory(capacity, padding, seq(capacity + 2 * padding, _ => None), 0, 0, 0, 0, [], 0, 0, 0), PIdle(false), CIdle(Unknown))
  }

  // ---- The bounded FIFO it refines ------------------------------------------------------------------

  /** What the queue holds, oldest first. */
  function Contents<V>(m: Memory<V>): seq<V>
    requires m.taken <= |m.log|
  { m.log[m.taken..] }

  /** capacity(). */
  function Bound<V>(m: Memory<V>): int { m.capacity - 1 }

  // ---- The invariant --------------------------------------------------------------------------------

  ghost predicate CountsOk<V>(m: Memory<V>) {
    && m.capacity > 1 && Shape(m)
    && m.taken <= |m.log| <= m.taken + m.capacity - 1
    && m.writeIdx == |m.log| % m.capacity
    && m.readIdx == m.taken % m.capacity
    && m.readCached <= m.taken && |m.log| <= m.readCached + m.capacity - 1
    && m.readIdxCache == m.readCached % m.capacity
    && m.taken <= m.writeCached <= |m.log|
    && m.writeIdxCache == m.writeCached % m.capacity
  }

  /** What the slot of count k holds, for the counts from taken up to a lap later. */
  function Expected<V>(m: Memory<V>, p: Producer<V>, c: Consumer, k: nat): Option<V> {
    if k < |m.log| then (if k == m.taken && c.CStore? then None else Some(m.log[k]))
    else if k == |m.log| && p.PStore? then Some(p.v)
    else None
  }

  function SlotOf<V>(m: Memory<V>, k: nat): nat
    requires m.capacity > 0
  { k % m.capacity + m.padding }

  ghost predicate SlotsOk<V>(m: Memory<V>, p: Producer<V>, c: Consumer)
    requires m.capacity > 0 && |m.slots| == m.capacity + 2 * m.padding
  {
    forall k: nat :: m.taken <= k < m.taken + m.capacity ==> m.slots[SlotOf(m, k)] == Expected(m, p, c, k)
  }

  ghost predicate ThreadsOk<V>(m: Memory<V>, p: Producer<V>, c: Consumer) {
    && (p.PBuild? || p.PStore? ==> |m.log| + 1 < m.readCached + m.capacity)
    && (c.CDestroy? || c.CStore? ==> m.taken < m.writeCached)
    && (c.CIdle? && c.front.At? ==> m.taken < m.writeCached && c.front.slot == m.readIdx)
    && (c.CReload? ==> m.taken == m.writeCached)
  }

  ghost predicate Inv<V>(s: State<V>) {
    CountsOk(s.mem) && ThreadsOk(s.mem, s.producer, s.consumer) && SlotsOk(s.mem, s.producer, s.consumer)
  }

  // ---- Steps -------------------------------------------------------------------------------------------

  lemma NextCount(capacity: nat, n: nat)
    requires capacity > 1
    ensures Next(capacity, n % capacity) == (n + 1) % capacity
  {
    Arithmetic.RingShift(n, 1, capacity);
    if n % capacity + 1 < capacity { Arithmetic.RingSmall(n % capacity + 1, capacity); }
  }

  /** Counts less than a lap apart share a slot only if they are equal. */
  lemma SameSlot(capacity: nat, a: nat, b: nat)
    requires capacity > 0 && a <= b < a + capacity
    ensures a % capacity == b % capacity <==> a == b
  {
    if a < b && a % capacity == b % capacity { Arithmetic.RingInjective(a, b, capacity); }
  }

  /** The producer finds the next index equal to its cached read index exactly when it is a lap ahead of it. */
  lemma LooksFull(capacity: nat, w: nat, r: nat)
    requires capacity > 1 && r <= w < r + capacity
    ensures Next(capacity, w % capacity) == r % capacity <==> w + 1 == r + capacity
  {
    NextCount(capacity, w);
    Arithmetic.AddMultiple(r, capacity, 1);
    if w + 1 < r + capacity { SameSlot(capacity, r, w + 1); }
  }

  /** A step that leaves what the slots should hold alone. */
  lemma SlotsSame<V>(m: Memory<V>, m': Memory<V>, p: Producer<V>, p': Producer<V>, c: Consumer, c': Consumer)
    requires m.capacity > 0 && |m.slots| == m.capacity + 2 * m.padding && SlotsOk(m, p, c)
    requires m'.capacity == m.capacity && m'.padding == m.padding && m'.slots == m.slots
    requires m'.log == m.log && m'.taken == m.taken
    requires p' == p || (!p.PStore? && !p'.PStore?)
    requires c' == c || (!c.CStore? && !c'.CStore?)
    ensures SlotsOk(m', p', c')
  {
    forall k: nat | m.taken <= k < m.taken + m.capacity ensures m'.slots[SlotOf(m', k)] == Expected(m', p', c', k) {
      assert m.slots[SlotOf(m, k)] == Expected(m, p, c, k);
    }
  }

  /** The producer's caches err on the safe side: only a full queue makes it wait or refuse. */
  lemma ProducerKeeps<V>(s: State<V>, pick: Pick<V>)
    requires Inv(s) && pick.Produce?
    ensures Inv(Step(s, pick))
    ensures s.producer.PBuild? ==> s.mem.slots[s.mem.writeIdx + s.mem.padding] == None
    ensures s.producer.PReload? && !Step(s, pick).producer.PBuild? ==> |Contents(s.mem)| == Bound(s.mem)
  {
    var m, p, s' := s.mem, s.producer, Step(s, pick);
    match p
    case PBuild(_) => BuildKeeps(s, pick);
    case PStore(_) => StoreKeeps(s, pick);
    case _ =>
      LooksFull(m.capacity, |m.log|, m.readCached);
      LooksFull(m.capacity, |m.log|, m.taken);
      SlotsSame(m, s'.mem, p, s'.producer, s.consumer, s.consumer);
      hide SlotsOk;
  }

  lemma BuildKeeps<V>(s: State<V>, pick: Pick<V>)
    requires Inv(s) && pick.Produce? && s.producer.PBuild?
    ensures Inv(Step(s, pick)) && s.mem.slots[s.mem.writeIdx + s.mem.padding] == None
  {
    var m, s' := s.mem, Step(s, pick);
    var w := |m.log|;
    assert m.slots[SlotOf(m, w)] == Expected(m, s.producer, s.consumer, w);
    forall k: nat | m.taken <= k < m.taken + m.capacity
      ensures s'.mem.slots[SlotOf(s'.mem, k)] == Expected(s'.mem, s'.producer, s.consumer, k)
    {
      assert m.slots[SlotOf(m, k)] == Expected(m, s.producer, s.consumer, k);
      if k < w { SameSlot(m.capacity, k, w); } else { SameSlot(m.capacity, w, k); }
    }
  }

  lemma StoreKeeps<V>(s: State<V>, pick: Pick<V>)
    requires Inv(s) && pick.Produce? && s.producer.PStore?
    ensures Inv(Step(s, pick))
  {
    var m, s' := s.mem, Step(s, pick);
    NextCount(m.capacity, |m.log|);
    forall k: nat | m.taken <= k < m.taken + m.capacity
      ensures s'.mem.slots[SlotOf(s'.mem, k)] == Expected(s'.mem, s'.producer, s.consumer, k)
    {
      assert m.slots[SlotOf(m, k)] == Expected(m, s.producer, s.consumer, k);
    }
  }

  lemma ConsumerKeeps<V>(s: State<V>, pop: bool)
    requires Inv(s)
    ensures Inv(Step(s, Consume(pop)))
    ensures s.consumer.CDestroy? ==> |Contents(s.mem)| > 0 && s.mem.slots[s.mem.readIdx + s.mem.padding] == Some(Contents(s.mem)[0])
    ensures s.consumer.CReload? && Step(s, Consume(pop)).consumer.front.Null? ==> Contents(s.mem) == []
  {
    var m, c := s.mem, s.consumer;
    match c
    case CStart => SameSlot(m.capacity, m.taken, m.writeCached);
    case CReload => SameSlot(m.capacity, m.taken, |m.log|);
    case CDestroy => DestroyKeeps(s, pop);
    case CStore => PopKeeps(s, pop);
    case CIdle(_) =>
  }

  lemma DestroyKeeps<V>(s: State<V>, pop: bool)
    requires Inv(s) && s.consumer.CDestroy?
    ensures Inv(Step(s, Consume(pop)))
    ensures |Contents(s.mem)| > 0 && s.mem.slots[s.mem.readIdx + s.mem.padding] == Some(Contents(s.mem)[0])
  {
    var m, s' := s.mem, Step(s, Consume(pop));
    assert m.slots[SlotOf(m, m.taken)] == Expected(m, s.producer, s.consumer, m.taken);
    forall k: nat | m.taken <= k < m.taken + m.capacity
      ensures s'.mem.slots[SlotOf(s'.mem, k)] == Expected(s'.mem, s.producer, s'.consumer, k)
    {
      assert m.slots[SlotOf(m, k)] == Expected(m, s.producer, s.consumer, k);
      SameSlot(m.capacity, m.taken, k);
    }
  }

  lemma PopKeeps<V>(s: State<V>, pop: bool)
    requires Inv(s) && s.consumer.CStore?
    ensures Inv(Step(s, Consume(pop)))
  {
    var m, s' := s.mem, Step(s, Consume(pop));
    NextCount(m.capacity, m.taken);
    forall k: nat | m.taken + 1 <= k < m.taken + 1 + m.capacity
      ensures s'.mem.slots[SlotOf(s'.mem, k)] == Expected(s'.mem, s.producer, s'.consumer, k)
    {
      if k < m.taken + m.capacity {
        assert m.slots[SlotOf(m, k)] == Expected(m, s.producer, s.consumer, k);
      } else {
        Arithmetic.AddMultiple(m.taken, m.capacity, 1);
        assert m.slots[SlotOf(m, m.taken)] == Expected(m, s.producer, s.consumer, m.taken);
      }
    }
  }

  // ---- Runs --------------------------------------------------------------------------------------------

  ghost predicate Run<V>(states: seq<State<V>>, picks: seq<Pick<V>>) {
    && |states| == |picks| + 1
    && (exists requested: nat, padding: nat :: states[0] == Start(requested, padding))
    && (forall i :: 0 <= i < |picks| ==> Follows(states[i], picks[i], states[i + 1]))
  }

  predicate Follows<V(==)>(s: State<V>, pick: Pick<V>, s': State<V>) { Shape(s.mem) ==> s' == Step(s, pick) }

  lemma {:induction false} RunInv<V>(states: seq<State<V>>, picks: seq<Pick<V>>, i: nat)
    requires Run(states, picks) && i < |states|
    ensures Inv(states[i])
    ensures i < |picks| ==> states[i + 1] == Step(states[i], picks[i]) && Inv(states[i + 1])
  {
    if i == 0 {
      var requested: nat, padding: nat :| states[0] == Start(requested, padding);
    } else {
      RunInv(states, picks, i - 1);
    }
    if i < |picks| {
      assert Follows(states[i], picks[i], states[i + 1]);
      match picks[i]
      case Produce(_, _) => ProducerKeeps(states[i], picks[i]);
      case Consume(pop) => ConsumerKeeps(states[i], pop);
    }
  }

  /** Each access leaves the contents alone, appends the producer's element to a queue that has room, or
      takes the oldest element off. */
  ghost predicate FifoStep<V>(s: State<V>, pick: Pick<V>, s': State<V>)
    requires s.mem.taken <= |s.mem.log| && s'.mem.taken <= |s'.mem.log|
  {
    var was, now := Contents(s.mem), Contents(s'.mem);
    if pick.Produce? && s.producer.PStore? then now == was + [s.producer.v] && |was| < Bound(s.mem)
    else if pick.Consume? && s.consumer.CStore? then |was| > 0 && now == was[1..]
    else now == was
  }

  lemma StepIsFifo<V>(s: State<V>, pick: Pick<V>)
    requires Inv(s) && Inv(Step(s, pick))
    ensures FifoStep(s, pick, Step(s, pick)) && |Contents(s.mem)| <= Bound(s.mem)
  {
    hide SlotsOk;
  }

  /** While front's pointer is good, it points at the oldest element. */
  lemma FrontIsOldest<V>(s: State<V>)
    requires Inv(s) && s.consumer.CIdle? && s.consumer.front.At?
    ensures s.consumer.front.slot == s.mem.readIdx && Contents(s.mem) != []
    ensures s.mem.slots[s.mem.readIdx + s.mem.padding] == Some(Contents(s.mem)[0])
  {
    var m := s.mem;
    assert m.slots[SlotOf(m, m.taken)] == Expected(m, s.producer, s.consumer, m.taken);
  }

  /** Every run refines a FIFO bounded by capacity(): nothing overwrites a live slot or destroys an empty one,
      the element front points at is the oldest one, and only a full queue refuses, only an empty one is null. */
  lemma RefinesBoundedFifo<V>(states: seq<State<V>>, picks: seq<Pick<V>>, i: nat)
    requires Run(states, picks) && i < |picks|
    ensures var s, s', m := states[i], states[i + 1], states[i].mem;
      && m.taken <= |m.log| && s'.mem.taken <= |s'.mem.log| && |Contents(m)| <= Bound(m)
      && FifoStep(s, picks[i], s')
      && m.writeIdx + m.padding < |m.slots| && m.readIdx + m.padding < |m.slots|
      && (picks[i].Produce? && s.producer.PBuild? ==> m.slots[m.writeIdx + m.padding] == None)
      && (picks[i].Consume? && s.consumer.CDestroy? ==> Contents(m) != [] && m.slots[m.readIdx + m.padding] == Some(Contents(m)[0]))
      && (s.consumer.CIdle? && s.consumer.front.At? ==>
            Contents(m) != [] && s.consumer.front.slot == m.readIdx && m.slots[m.readIdx + m.padding] == Some(Contents(m)[0]))
      && (picks[i].Produce? && s.producer.PReload? && !s'.producer.PBuild? ==> |Contents(m)| == Bound(m))
      && (picks[i].Consume? && s.consumer.CReload? && s'.consumer == CIdle(Null) ==> Contents(m) == [])
  {
    RunInv(states, picks, i);
    var s := states[i];
    hide SlotsOk, Run;
    StepIsFifo(s, picks[i]);
    if s.consumer.CIdle? && s.consumer.front.At? { FrontIsOldest(s); }
    match picks[i]
    case Produce(_, _) => ProducerKeeps(s, picks[i]);
    case Consume(pop) => ConsumerKeeps(s, pop);
  }

  // ---- size() --------------------------------------------------------------------------------------------

  /** size(), from the values its two loads returned. */
  function Size(capacity: nat, writeIdx: nat, readIdx: nat): int {
    var diff := writeIdx - readIdx;
    if diff < 0 then diff + capacity else diff
  }

  /** From a write index loaded when w elements had been enqueued and a read index loaded when r had been
      popped, size() returns w - r exactly when r <= w < r + capacity_. */
  lemma SizeExactly(capacity: nat, w: nat, r: nat)
    requires capacity > 0
    ensures Size(capacity, w % capacity, r % capacity) == (w - r) % capacity
    ensures Size(capacity, w % capacity, r % capacity) == w - r <==> r <= w < r + capacity
  {
    var a, b, k := w % capacity, r % capacity, w / capacity - r / capacity;
    assert w == (w / capacity) * capacity + a && r == (r / capacity) * capacity + b;
    Arithmetic.Distribute(w / capacity, r / capacity, capacity);
    if a >= b {
      Arithmetic.QuotientRemainder(w - r, capacity, k, a - b);
    } else {
      Arithmetic.Distribute(k, 1, capacity);
      Arithmetic.QuotientRemainder(w - r, capacity, k - 1, a - b + capacity);
    }
    if 0 <= w - r < capacity { Arithmetic.RingSmall(w - r, capacity); }
  }

  predicate Later<V(==)>(m: Memory<V>, m': Memory<V>) {
    m.log <= m'.log && m.taken <= m'.taken && m'.capacity == m.capacity
  }

  lemma {:induction false} RunGrows<V>(states: seq<State<V>>, picks: seq<Pick<V>>, i: nat, j: nat)
    requires Run(states, picks) && i <= j < |states|
    ensures Later(states[i].mem, states[j].mem)
  {
    if i < j {
      RunGrows(states, picks, i, j - 1);
      RunInv(states, picks, j - 1);
      hide SlotsOk, Run;
    }
  }

  /** In any run, with the write index loaded in state i and the read index in state j, size() is the difference of the two
      counts exactly if no more had been popped at j than enqueued at i, and less than a lap more enqueued.  With the
      write index loaded first only the first can fail, with the read index loaded first only the second.  Neither fails
      if the caller is the producer or the consumer, and then size() is the number of elements held at j, or at i. */
  lemma SizeOverRuns<V>(states: seq<State<V>>, picks: seq<Pick<V>>, i: nat, j: nat)
    requires Run(states, picks) && i < |states| && j < |states|
    ensures var m, n := states[i].mem, states[j].mem;
      && m.taken <= |m.log| && n.taken <= |n.log|
      && (Size(m.capacity, m.writeIdx, n.readIdx) == |m.log| - n.taken <==> n.taken <= |m.log| < n.taken + m.capacity)
      && (i <= j ==> |m.log| < n.taken + m.capacity)
      && (j <= i ==> n.taken <= |m.log|)
      && (n.log == m.log ==> Size(m.capacity, m.writeIdx, n.readIdx) == |Contents(n)|)
      && (n.taken == m.taken ==> Size(m.capacity, m.writeIdx, n.readIdx) == |Contents(m)|)
  {
    RunInv(states, picks, i);
    RunInv(states, picks, j);
    if i <= j { RunGrows(states, picks, i, j); } else { RunGrows(states, picks, j, i); }
    hide SlotsOk, Run;
    SizeExactly(states[i].mem.capacity, |states[i].mem.log|, states[j].mem.taken);
  }

  // ---- The destructor ----------------------------------------------------------------------------------------

  /** front() and pop() with nobody else around. */
  method FrontAlone<V>(m: Memory<V>) returns (m': Memory<V>, found: bool)
    requires Inv(State(m, PIdle(false), CIdle(Unknown)))
    ensures m'.log == m.log && m'.taken == m.taken && m'.slots == m.slots && m'.capacity == m.capacity && m'.padding == m.padding
    ensures found <==> Contents(m) != []
    ensures Inv(State(m', PIdle(false), CIdle(if found then At(m'.readIdx) else Null)))
  {
    ghost var s := State(m, PIdle(false), CStart);
    assert Inv(s) by { ConsumerKeeps(State(m, PIdle(false), CIdle(Unknown)), false); }
    ConsumerKeeps(s, false);
    m' := m;
    if m.readIdx == m.writeIdxCache {
      ConsumerKeeps(State(m, PIdle(false), CReload), false);
      m' := m'.(writeIdxCache := m.writeIdx, writeCached := |m.log|);
      found := m'.writeIdxCache != m.readIdx;
    } else {
      found := true;
    }
  }

  method PopAlone<V>(m: Memory<V>) returns (m': Memory<V>, v: V)
    requires Inv(State(m, PIdle(false), CIdle(At(m.readIdx))))
    ensures m'.log == m.log && m'.taken == m.taken + 1 <= |m.log| && m'.capacity == m.capacity && m'.padding == m.padding
    ensures Contents(m) != [] && v == Contents(m)[0]
    ensures Inv(State(m', PIdle(false), CIdle(Unknown)))
  {
    var s: State<V> := State(m, PIdle(false), CIdle(At(m.readIdx)));
    FrontIsOldest(s);
    v := m.slots[m.readIdx + m.padding].value;
    ConsumerKeeps(s, true);
    var destroyed := Step(s, Consume(true));
    ConsumerKeeps(destroyed, true);
    var stored := Step(destroyed, Consume(true));
    ConsumerKeeps(stored, true);
    m' := Step(stored, Consume(true)).mem;
  }

  /** The destructor destroys what the queue still holds, each element once and in order, and leaves no slot
      with a live element. */
  method DestroyQueue<V>(m: Memory<V>) returns (m': Memory<V>, destroyed: seq<V>)
    requires m.taken <= |m.log| && Inv(State(m, PIdle(false), CIdle(Unknown)))
    ensures destroyed == Contents(m)
    ensures Bare(m'.slots, m'.padding, m'.padding + m'.capacity)
    ensures m'.capacity == m.capacity && m'.padding == m.padding
  {
    hide Inv;
    m', destroyed := m, [];
    var found: bool;
    m', found := FrontAlone(m');
    while found
      invariant m'.log == m.log && m.taken <= m'.taken <= |m.log| && m'.capacity == m.capacity && m'.padding == m.padding
      invariant destroyed == m.log[m.taken..m'.taken]
      invariant found <==> Contents(m') != []
      invariant Inv(State(m', PIdle(false), CIdle(if found then At(m'.readIdx) else Null)))
      decreases |m.log| - m'.taken
    {
      var v: V;
      m', v := PopAlone(m');
      destroyed := destroyed + [v];
      m', found := FrontAlone(m');
    }
    AllBare(State(m', PIdle(false), CIdle(Null)));
  }

  predicate Bare<V>(slots: seq<Option<V>>, lo: nat, hi: nat) { hi <= |slots| && forall x :: lo <= x < hi ==> slots[x].None? }

  /** An empty queue with nothing going on has no live slot. */
  lemma AllBare<V>(s: State<V>)
    requires Inv(s) && s.producer.PIdle? && s.consumer.CIdle? && Contents(s.mem) == []
    ensures Bare(s.mem.slots, s.mem.padding, s.mem.padding + s.mem.capacity)
  {
    var m := s.mem;
    forall x | m.padding <= x < m.padding + m.capacity ensures m.slots[x] == None {
      BareSlot(s, x - m.padding);
    }
  }

  lemma BareSlot<V>(s: State<V>, i: nat)
    requires Inv(s) && s.producer.PIdle? && s.consumer.CIdle? && Contents(s.mem) == [] && i < s.mem.capacity
    ensures s.mem.slots[i + s.mem.padding] == None
  {
    var m := s.mem;
    var d := (i - m.taken) % m.capacity;
    Arithmetic.RingShift(i - m.taken, m.taken, m.capacity);
    Arithmetic.RingSmall(i, m.capacity);
    assert m.slots[SlotOf(m, m.taken + d)] == Expected(m, s.producer, s.consumer, m.taken + d);
  }
}
