/** The number of blocks that the three-argument constructor of external/cameron314/concurrentqueue.h sets aside, and
    whether it is enough: operations one at a time, each on one of the declared explicit and implicit producers. */
module PreallocBound {
  import opened Blocks
  import Arithmetic

  /** A producer's headIndex and tailIndex.  An explicit one keeps its blocks in a ring, kept of which may go to the
      free list; an implicit one has its blocks in order, each with whether it may. */
  datatype Explicit = Explicit(head: nat, tail: nat, ring: nat, kept: nat)
  datatype Implicit = Implicit(head: nat, tail: nat, blocks: seq<bool>)

  /** RECYCLE_ALLOCATED_BLOCKS; blocks left in the initial pool, blocks on the free list, and blocks that had to be
      allocated. */
  datatype State = State(recycle: bool, explicits: seq<Explicit>, implicits: seq<Implicit>, pool: nat, free: nat, made: nat)

  datatype Op = EnqueueExplicit(j: nat) | EnqueueImplicit(j: nat) | DequeueExplicit(j: nat) | DequeueImplicit(j: nat)

  /** The constructor's count of blocks. */
  function Reserved(bs: nat, minCapacity: nat, explicits: nat, implicits: nat): int
    requires bs > 0
  { ((minCapacity + bs - 1) / bs - 1) * (explicits + 1) + 2 * (explicits + implicits) }

  /** requisition_block: from the initial pool, else from the free list, else a new one. */
  function Requisition(s: State): State {
    if s.pool > 0 then s.(pool := s.pool - 1)
    else if s.free > 0 then s.(free := s.free - 1)
    else s.(made := s.made + 1)
  }

  /** Whether the block it gives may go to the free list: all those set aside may, an allocated one if the trait says so. */
  predicate Recycled(s: State) { s.pool > 0 || s.free > 0 || s.recycle }

  /** add_block_to_free_list: a block that may not go there is destroyed. */
  function Return(s: State, kept: bool): State { if kept then s.(free := s.free + 1) else s }

  /** The block after an explicit producer's tail block, the oldest in its ring, has been emptied. */
  predicate OldestEmpty(bs: nat, e: Explicit)
    requires bs > 0
  { e.ring > 0 && (BlockNo(bs, e.tail) - e.ring + 1) * bs <= e.head }

  /** The next enqueue on the producer needs a block. */
  predicate NeedsBlock(bs: nat, s: State, op: Op)
    requires bs > 0
  {
    match op
    case EnqueueExplicit(j) => j < |s.explicits| && s.explicits[j].tail % bs == 0 && !OldestEmpty(bs, s.explicits[j])
    case EnqueueImplicit(j) => j < |s.implicits| && s.implicits[j].tail % bs == 0
    case _ => false
  }

  function Step(bs: nat, s: State, op: Op): State
    requires bs > 0
  {
    var s' := if NeedsBlock(bs, s, op) then Requisition(s) else s;
    match op
    case EnqueueExplicit(j) =>
      if j >= |s.explicits| then s else
      var e := s.explicits[j];
      var more := NeedsBlock(bs, s, op);
      s'.(explicits := s.explicits[j := Explicit(e.head, e.tail + 1, if more then e.ring + 1 else e.ring,
                                                 if more && Recycled(s) then e.kept + 1 else e.kept)])
    case EnqueueImplicit(j) =>
      if j >= |s.implicits| then s else
      var i := s.implicits[j];
      s'.(implicits := s.implicits[j := Implicit(i.head, i.tail + 1, if NeedsBlock(bs, s, op) then i.blocks + [Recycled(s)] else i.blocks)])
    case DequeueExplicit(j) =>
      if j >= |s.explicits| || s.explicits[j].head >= s.explicits[j].tail then s else
      s.(explicits := s.explicits[j := s.explicits[j].(head := s.explicits[j].head + 1)])
    case DequeueImplicit(j) =>
      if j >= |s.implicits| || s.implicits[j].head >= s.implicits[j].tail then s else
      var i := s.implicits[j];
      if (i.head + 1) % bs != 0 || i.blocks == [] then s.(implicits := s.implicits[j := i.(head := i.head + 1)])
      else Return(s, i.blocks[0]).(implicits := s.implicits[j := Implicit(i.head + 1, i.tail, i.blocks[1..])])
  }

  function Run(bs: nat, s: State, ops: seq<Op>): State
    requires bs > 0
    decreases |ops|
  { if ops == [] then s else Step(bs, Run(bs, s, ops[..|ops| - 1]), ops[|ops| - 1]) }

  function Start(recycle: bool, bs: nat, minCapacity: nat, explicits: nat, implicits: nat): State
    requires bs > 0
  {
    var blocks := Reserved(bs, minCapacity, explicits, implicits);
    State(recycle, seq(explicits, _ => Explicit(0, 0, 0, 0)), seq(implicits, _ => Implicit(0, 0, [])),
          if blocks >= 0 then blocks else 0, 0, 0)
  }

  // ---- What the producers hold ------------------------------------------------------------------------------

  function ExplicitElements(es: seq<Explicit>): int { if es == [] then 0 else ExplicitElements(es[..|es| - 1]) + es[|es| - 1].tail - es[|es| - 1].head }

  function ImplicitElements(ps: seq<Implicit>): int { if ps == [] then 0 else ImplicitElements(ps[..|ps| - 1]) + ps[|ps| - 1].tail - ps[|ps| - 1].head }

  function Elements(s: State): int { ExplicitElements(s.explicits) + ImplicitElements(s.implicits) }

  function Rings(es: seq<Explicit>): nat { if es == [] then 0 else Rings(es[..|es| - 1]) + es[|es| - 1].ring }

  /** The blocks of an implicit producer that are not yet returned. */
  function LiveBlocks(bs: nat, head: nat, tail: nat): int
    requires bs > 0
  { BlockCount(bs, tail) - BlockNo(bs, head) }

  function Live(bs: nat, ps: seq<Implicit>): int
    requires bs > 0
  { if ps == [] then 0 else Live(bs, ps[..|ps| - 1]) + LiveBlocks(bs, ps[|ps| - 1].head, ps[|ps| - 1].tail) }

  function Held(bs: nat, s: State): int
    requires bs > 0
  { Rings(s.explicits) + Live(bs, s.implicits) }

  /** Of the blocks held, those that may go to the free list: all those set aside, and with the trait the others too. */
  function KeptIn(blocks: seq<bool>): nat { if blocks == [] then 0 else KeptIn(blocks[..|blocks| - 1]) + (if blocks[|blocks| - 1] then 1 else 0) }

  function KeptRings(es: seq<Explicit>): nat { if es == [] then 0 else KeptRings(es[..|es| - 1]) + es[|es| - 1].kept }

  function KeptLive(ps: seq<Implicit>): nat { if ps == [] then 0 else KeptLive(ps[..|ps| - 1]) + KeptIn(ps[|ps| - 1].blocks) }

  function HeldKept(s: State): nat { KeptRings(s.explicits) + KeptLive(s.implicits) }

  // Sums after one producer changed.

  lemma {:induction false} ExplicitUpdate(es: seq<Explicit>, j: nat, e: Explicit)
    requires j < |es|
    ensures ExplicitElements(es[j := e]) == ExplicitElements(es) - (es[j].tail - es[j].head) + (e.tail - e.head)
    ensures Rings(es[j := e]) == Rings(es) - es[j].ring + e.ring
    ensures KeptRings(es[j := e]) == KeptRings(es) - es[j].kept + e.kept
  {
    var n := |es| - 1;
    if j < n {
      ExplicitUpdate(es[..n], j, e);
      assert es[j := e][..n] == es[..n][j := e];
    } else {
      assert es[j := e][..n] == es[..n];
    }
  }

  lemma {:induction false} ImplicitUpdate(bs: nat, ps: seq<Implicit>, j: nat, i: Implicit)
    requires bs > 0 && j < |ps|
    ensures ImplicitElements(ps[j := i]) == ImplicitElements(ps) - (ps[j].tail - ps[j].head) + (i.tail - i.head)
    ensures Live(bs, ps[j := i]) == Live(bs, ps) - LiveBlocks(bs, ps[j].head, ps[j].tail) + LiveBlocks(bs, i.head, i.tail)
    ensures KeptLive(ps[j := i]) == KeptLive(ps) - KeptIn(ps[j].blocks) + KeptIn(i.blocks)
  {
    var n := |ps| - 1;
    if j < n {
      ImplicitUpdate(bs, ps[..n], j, i);
      assert ps[j := i][..n] == ps[..n][j := i];
    } else {
      assert ps[j := i][..n] == ps[..n];
    }
  }

  // ---- The invariant -------------------------------------------------------------------------------------------

  /** How many blocks minCapacity elements fill. */
  function Full(bs: nat, minCapacity: nat): nat
    requires bs > 0
  { BlockCount(bs, minCapacity) }

  ghost predicate Inv(bs: nat, minCapacity: nat, blocks: int, s: State)
    requires bs > 0
  {
    && s.made == 0 && s.pool + s.free + Held(bs, s) == blocks
    && (forall j :: 0 <= j < |s.explicits| ==> s.explicits[j].head <= s.explicits[j].tail && s.explicits[j].ring <= Full(bs, minCapacity) + 1)
    && (forall j :: 0 <= j < |s.implicits| ==> ImplicitOk(bs, s.implicits[j]))
    && (forall j :: 0 <= j < |s.implicits| ==> forall x :: 0 <= x < |s.implicits[j].blocks| ==> s.implicits[j].blocks[x])
  }

  /** The blocks of an implicit producer are those not yet emptied. */
  predicate ImplicitOk(bs: nat, i: Implicit)
    requires bs > 0
  { i.head <= i.tail && |i.blocks| == LiveBlocks(bs, i.head, i.tail) }

  // ---- Bounds on what is held -----------------------------------------------------------------------------------

  lemma DivAdd(a: nat, b: nat, d: nat)
    requires d > 0
    ensures a / d + b / d <= (a + b) / d
  {
    assert a == (a / d) * d + a % d && b == (b / d) * d + b % d;
    Arithmetic.Distribute(a / d + b / d, b / d, d);
    Arithmetic.AddMultiple(a % d + b % d, d, a / d + b / d);
  }

  /** An implicit producer holds at most two blocks besides those its elements fill. */
  lemma LiveBound(bs: nat, i: Implicit)
    requires bs > 1 && i.head <= i.tail
    ensures LiveBlocks(bs, i.head, i.tail) <= 2 + (i.tail - i.head) / bs
    ensures 0 <= LiveBlocks(bs, i.head, i.tail)
    ensures i.tail % bs == 0 ==> LiveBlocks(bs, i.head, i.tail) <= BlockCount(bs, i.tail - i.head)
  {
    var n := i.tail - i.head;
    assert i.head == (i.head / bs) * bs + i.head % bs;
    var r := i.head % bs;
    Arithmetic.AddMultiple(r + n + bs - 1, bs, i.head / bs);
    assert LiveBlocks(bs, i.head, i.tail) == (r + n + bs - 1) / bs;
    LiveArithmetic(bs, r, n);
    if i.tail % bs == 0 { LiveAtBoundary(bs, i.head, r, n, i.tail); }
  }

  lemma LiveArithmetic(bs: nat, r: nat, n: nat)
    requires bs > 1 && r < bs
    ensures (r + n + bs - 1) / bs <= 2 + n / bs
  {
    assert n == (n / bs) * bs + n % bs;
    Arithmetic.AddMultiple(r + n % bs + bs - 1, bs, n / bs);
    DivMonotone(r + n % bs + bs - 1, 3 * bs - 3, bs);
    Arithmetic.QuotientRemainder(3 * bs - 3, bs, if bs > 2 then 2 else 1, if bs > 2 then bs - 3 else 1);
  }

  lemma LiveAtBoundary(bs: nat, head: nat, r: nat, n: nat, tail: nat)
    requires bs > 1 && r == head % bs && tail == head + n && tail % bs == 0
    ensures (r + n + bs - 1) / bs == BlockCount(bs, n)
  {
    Arithmetic.RingShift(head, n, bs);
    assert (r + n) % bs == 0;
    assert r + n == ((r + n) / bs) * bs;
    var q := (r + n) / bs;
    Arithmetic.QuotientRemainder(r + n + bs - 1, bs, q, bs - 1);
    if r == 0 {
    } else {
      Arithmetic.Distribute(q, 1, bs);
      Arithmetic.QuotientRemainder(n + bs - 1, bs, q, bs - 1 - r);
    }
  }

  lemma {:induction false} RingsBound(es: seq<Explicit>, m: nat)
    requires forall j :: 0 <= j < |es| ==> es[j].ring <= m
    ensures Rings(es) <= |es| * m
  {
    if es != [] {
      RingsBound(es[..|es| - 1], m);
      Arithmetic.Distribute(|es|, 1, m);
    }
  }

  lemma {:induction false} RingsBoundBut(es: seq<Explicit>, p: nat, m: nat)
    requires p < |es| && forall j :: 0 <= j < |es| ==> es[j].ring <= m
    ensures Rings(es) <= (|es| - 1) * m + es[p].ring
  {
    var n := |es| - 1;
    if p == n {
      RingsBound(es[..n], m);
    } else {
      RingsBoundBut(es[..n], p, m);
      Arithmetic.Distribute(n, 1, m);
    }
  }

  lemma {:induction false} ElementsAreSome(es: seq<Explicit>)
    requires forall j :: 0 <= j < |es| ==> es[j].head <= es[j].tail
    ensures 0 <= ExplicitElements(es)
    ensures forall j :: 0 <= j < |es| ==> es[j].tail - es[j].head <= ExplicitElements(es)
  {
    if es != [] {
      var n := |es| - 1;
      ElementsAreSome(es[..n]);
      forall j | 0 <= j < |es| ensures es[j].tail - es[j].head <= ExplicitElements(es) {
        if j < n { assert es[j] == es[..n][j]; }
      }
    }
  }

  lemma {:induction false} LiveBoundAll(bs: nat, ps: seq<Implicit>)
    requires bs > 1 && forall j :: 0 <= j < |ps| ==> ps[j].head <= ps[j].tail
    ensures 0 <= ImplicitElements(ps) && 0 <= Live(bs, ps) <= 2 * |ps| + ImplicitElements(ps) / bs
  {
    if ps != [] {
      var n := |ps| - 1;
      LiveBoundAll(bs, ps[..n]);
      LiveBound(bs, ps[n]);
      DivAdd(ImplicitElements(ps[..n]), ps[n].tail - ps[n].head, bs);
    }
  }

  lemma {:induction false} LiveBoundBut(bs: nat, ps: seq<Implicit>, p: nat)
    requires bs > 1 && p < |ps| && forall j :: 0 <= j < |ps| ==> ps[j].head <= ps[j].tail
    ensures 0 <= ImplicitElements(ps) - (ps[p].tail - ps[p].head)
    ensures Live(bs, ps) <= 2 * (|ps| - 1) + (ImplicitElements(ps) - (ps[p].tail - ps[p].head)) / bs + LiveBlocks(bs, ps[p].head, ps[p].tail)
  {
    var n := |ps| - 1;
    if p == n {
      LiveBoundAll(bs, ps[..n]);
    } else {
      LiveBoundBut(bs, ps[..n], p);
      LiveBound(bs, ps[n]);
      DivAdd(ImplicitElements(ps[..n]) - (ps[p].tail - ps[p].head), ps[n].tail - ps[n].head, bs);
    }
  }

  lemma Products(e: int, c: int)
    ensures (e - 1) * (c + 1) == e * c + e - c - 1 && (c - 1) * (e + 1) == e * c + c - e - 1 && e * (c + 1) == e * c + e
  {
  }

  /** An explicit producer that needs a block has elements in all the blocks of its ring. */
  lemma RingIsInUse(bs: nat, e: Explicit)
    requires bs > 0 && e.head <= e.tail && e.tail % bs == 0 && !OldestEmpty(bs, e) && e.ring > 0
    ensures e.tail - e.head > 0 && e.ring - 1 <= (e.tail - e.head - 1) / bs
  {
    var k := e.ring - 1;
    assert e.tail == (e.tail / bs) * bs;
    Arithmetic.Distribute(e.tail / bs, k, bs);
    assert k * bs <= e.tail - e.head - 1;
    Arithmetic.Scale(0, k, bs);
    DivMonotone(k * bs, e.tail - e.head - 1, bs);
    Arithmetic.QuotientRemainder(k * bs, bs, k, 0);
  }

  /** One block more than whole blocks of less than minCapacity elements. */
  lemma WholeBlocks(bs: nat, n: nat, minCapacity: nat)
    requires bs > 0 && n < minCapacity
    ensures n / bs <= Full(bs, minCapacity) && (n > 0 ==> 1 + (n - 1) / bs <= Full(bs, minCapacity)) && 1 <= Full(bs, minCapacity)
  {
    DivMonotone(n, minCapacity + bs - 1, bs);
    DivMonotone(bs, minCapacity + bs - 1, bs);
    Arithmetic.QuotientRemainder(bs, bs, 1, 0);
    if n > 0 {
      Arithmetic.AddMultiple(n - 1, bs, 1);
      DivMonotone(n - 1 + bs, minCapacity + bs - 1, bs);
    }
  }

  lemma ExplicitRequest(bs: nat, minCapacity: nat, s: State, blocks: int, j: nat)
    requires bs > 1 && Inv(bs, minCapacity, blocks, s) && Elements(s) < minCapacity
    requires blocks == Reserved(bs, minCapacity, |s.explicits|, |s.implicits|) && NeedsBlock(bs, s, EnqueueExplicit(j))
    ensures Held(bs, s) < blocks && s.explicits[j].ring <= Full(bs, minCapacity)
  {
    var es, ps, c, e := s.explicits, s.implicits, Full(bs, minCapacity), s.explicits[j];
    var n, imp := e.tail - e.head, ImplicitElements(ps);
    RingsBoundBut(es, j, c + 1);
    LiveBoundAll(bs, ps);
    ElementsAreSome(es);
    Products(|es|, c);
    WholeBlocks(bs, imp, minCapacity);
    if e.ring > 0 {
      RingIsInUse(bs, e);
      DivAdd(n - 1, imp, bs);
      WholeBlocks(bs, n + imp, minCapacity);
      DivMonotone(n - 1, n - 1 + imp, bs);
    }
  }

  /** Rounding down and rounding up. */
  lemma FloorCeil(bs: nat, a: nat, b: nat)
    requires bs > 0
    ensures a / bs + BlockCount(bs, b) <= BlockCount(bs, a + b)
  {
    DivAdd(a, b + bs - 1, bs);
  }

  lemma ImplicitRequest(bs: nat, minCapacity: nat, s: State, blocks: int, j: nat)
    requires bs > 1 && Inv(bs, minCapacity, blocks, s) && Elements(s) < minCapacity
    requires blocks == Reserved(bs, minCapacity, |s.explicits|, |s.implicits|) && NeedsBlock(bs, s, EnqueueImplicit(j))
    ensures Held(bs, s) < blocks
  {
    var es, ps, c, p := s.explicits, s.implicits, Full(bs, minCapacity), s.implicits[j];
    var n, imp := p.tail - p.head, ImplicitElements(ps);
    RingsBound(es, c + 1);
    LiveBoundBut(bs, ps, j);
    LiveBound(bs, p);
    ElementsAreSome(es);
    Products(|es|, c);
    FloorCeil(bs, imp - n, n);
    BlockCountMonotone(bs, imp, minCapacity - imp);
  }

  // ---- Steps ----------------------------------------------------------------------------------------------------

  /** An enqueue takes a block exactly at a block boundary, a dequeue returns one exactly when it empties a block. */
  lemma LiveChanges(bs: nat, i: Implicit)
    requires bs > 1
    ensures LiveBlocks(bs, i.head, i.tail + 1) == LiveBlocks(bs, i.head, i.tail) + (if i.tail % bs == 0 then 1 else 0)
    ensures LiveBlocks(bs, i.head + 1, i.tail) == LiveBlocks(bs, i.head, i.tail) - (if (i.head + 1) % bs == 0 then 1 else 0)
  {
    BlockNoNext(bs, i.head);
    BlockNoNext(bs, i.tail + bs - 1);
    Arithmetic.AddMultiple(i.tail, bs, 1);
  }

  lemma ImplicitChanges(bs: nat, s: State, op: Op)
    requires bs > 1 && (op.EnqueueImplicit? || op.DequeueImplicit?) && op.j < |s.implicits| && ImplicitOk(bs, s.implicits[op.j])
    ensures ImplicitOk(bs, Step(bs, s, op).implicits[op.j])
    ensures op.DequeueImplicit? && s.implicits[op.j].head < s.implicits[op.j].tail ==> s.implicits[op.j].blocks != []
  {
    var i := s.implicits[op.j];
    LiveChanges(bs, i);
    if op.DequeueImplicit? && i.head < i.tail { LiveBound(bs, i.(head := i.head + 1)); SomeLive(bs, i); }
  }

  lemma SomeLive(bs: nat, i: Implicit)
    requires bs > 1 && i.head < i.tail
    ensures LiveBlocks(bs, i.head, i.tail) > 0
  {
    BlockNoBelow(bs, i.head, i.tail);
  }

  /** Enqueues that start with less than minCapacity elements. */
  predicate Allowed(minCapacity: nat, s: State, op: Op) {
    op.EnqueueExplicit? || op.EnqueueImplicit? ==> Elements(s) < minCapacity
  }

  lemma ExplicitStepKeeps(bs: nat, minCapacity: nat, blocks: int, s: State, op: Op)
    requires bs > 1 && Inv(bs, minCapacity, blocks, s) && Allowed(minCapacity, s, op) && (op.EnqueueExplicit? || op.DequeueExplicit?)
    requires blocks == Reserved(bs, minCapacity, |s.explicits|, |s.implicits|)
    ensures Inv(bs, minCapacity, blocks, Step(bs, s, op))
  {
    var s' := Step(bs, s, op);
    if op.j < |s.explicits| {
      if NeedsBlock(bs, s, op) { ExplicitRequest(bs, minCapacity, s, blocks, op.j); }
      ExplicitUpdate(s.explicits, op.j, s'.explicits[op.j]);
    }
  }

  lemma EnqueueKeeps(bs: nat, minCapacity: nat, blocks: int, s: State, op: Op)
    requires bs > 1 && Inv(bs, minCapacity, blocks, s) && Allowed(minCapacity, s, op) && op.EnqueueImplicit?
    requires blocks == Reserved(bs, minCapacity, |s.explicits|, |s.implicits|)
    ensures Inv(bs, minCapacity, blocks, Step(bs, s, op))
  {
    hide LiveBlocks, Live, Reserved, Elements;
    var s' := Step(bs, s, op);
    if op.j < |s.implicits| {
      if NeedsBlock(bs, s, op) { ImplicitRequest(bs, minCapacity, s, blocks, op.j); }
      LiveChanges(bs, s.implicits[op.j]);
      ImplicitUpdate(bs, s.implicits, op.j, s'.implicits[op.j]);
    }
  }

  lemma DequeueKeeps(bs: nat, minCapacity: nat, blocks: int, s: State, op: Op)
    requires bs > 1 && Inv(bs, minCapacity, blocks, s) && op.DequeueImplicit?
    ensures Inv(bs, minCapacity, blocks, Step(bs, s, op))
  {
    hide LiveBlocks, Live;
    var s' := Step(bs, s, op);
    if op.j < |s.implicits| {
      ImplicitChanges(bs, s, op);
      LiveChanges(bs, s.implicits[op.j]);
      ImplicitUpdate(bs, s.implicits, op.j, s'.implicits[op.j]);
    }
  }

  lemma StepKeeps(bs: nat, minCapacity: nat, blocks: int, s: State, op: Op)
    requires bs > 1 && Inv(bs, minCapacity, blocks, s) && Allowed(minCapacity, s, op)
    requires blocks == Reserved(bs, minCapacity, |s.explicits|, |s.implicits|)
    ensures var s' := Step(bs, s, op);
            Inv(bs, minCapacity, blocks, s') && |s'.explicits| == |s.explicits| && |s'.implicits| == |s.implicits|
  {
    hide Inv;
    if op.EnqueueExplicit? || op.DequeueExplicit? {
      ExplicitStepKeeps(bs, minCapacity, blocks, s, op);
    } else {
      if op.EnqueueImplicit? { EnqueueKeeps(bs, minCapacity, blocks, s, op); } else { DequeueKeeps(bs, minCapacity, blocks, s, op); }
    }
  }

  lemma {:induction false} NothingHeld(bs: nat, es: seq<Explicit>, ps: seq<Implicit>)
    requires bs > 1 && (forall j :: 0 <= j < |es| ==> es[j] == Explicit(0, 0, 0, 0)) && (forall j :: 0 <= j < |ps| ==> ps[j] == Implicit(0, 0, []))
    ensures Rings(es) == 0 && Live(bs, ps) == 0 && KeptRings(es) == 0 && KeptLive(ps) == 0
    decreases |es| + |ps|
  {
    assert BlockCount(bs, 0) == 0;
    if es != [] { NothingHeld(bs, es[..|es| - 1], []); }
    if ps != [] { NothingHeld(bs, [], ps[..|ps| - 1]); }
  }

  lemma StartOk(recycle: bool, bs: nat, minCapacity: nat, explicits: nat, implicits: nat)
    requires bs > 1 && minCapacity > 0
    ensures Inv(bs, minCapacity, Reserved(bs, minCapacity, explicits, implicits), Start(recycle, bs, minCapacity, explicits, implicits))
  {
    var s := Start(recycle, bs, minCapacity, explicits, implicits);
    NothingHeld(bs, s.explicits, s.implicits);
    WholeBlocks(bs, 0, minCapacity);
    Arithmetic.Scale(0, Full(bs, minCapacity) - 1, explicits + 1);
  }

  /** Every enqueue in the history starts with less than minCapacity elements in the queue. */
  predicate Within(bs: nat, minCapacity: nat, s: State, ops: seq<Op>)
    requires bs > 0
    decreases |ops|
  {
    ops == [] ||
    (Within(bs, minCapacity, s, ops[..|ops| - 1]) && Allowed(minCapacity, Run(bs, s, ops[..|ops| - 1]), ops[|ops| - 1]))
  }

  /** However many operations there are, as long as no enqueue starts with minCapacity elements or more, no block is
      ever allocated: each enqueue that needs one finds it among those set aside. */
  lemma {:induction false} NothingIsAllocated(recycle: bool, bs: nat, minCapacity: nat, explicits: nat, implicits: nat, ops: seq<Op>)
    requires bs > 1 && minCapacity > 0 && Within(bs, minCapacity, Start(recycle, bs, minCapacity, explicits, implicits), ops)
    ensures var s := Run(bs, Start(recycle, bs, minCapacity, explicits, implicits), ops);
            && s.made == 0 && |s.explicits| == explicits && |s.implicits| == implicits
            && Inv(bs, minCapacity, Reserved(bs, minCapacity, explicits, implicits), s)
    decreases |ops|
  {
    if ops == [] {
      StartOk(recycle, bs, minCapacity, explicits, implicits);
    } else {
      NothingIsAllocated(recycle, bs, minCapacity, explicits, implicits, ops[..|ops| - 1]);
      var s := Run(bs, Start(recycle, bs, minCapacity, explicits, implicits), ops[..|ops| - 1]);
      StepKeeps(bs, minCapacity, Reserved(bs, minCapacity, explicits, implicits), s, ops[|ops| - 1]);
    }
  }

  // ---- And without that restriction --------------------------------------------------------------------------------

  /** The blocks that may go to the free list, and only they, are in the pool, on the free list, or held. */
  ghost predicate Conserved(bs: nat, blocks: int, s: State)
    requires bs > 0
  {
    && s.pool + s.free + HeldKept(s) == blocks + (if s.recycle then s.made else 0)
    && forall j :: 0 <= j < |s.implicits| ==> ImplicitOk(bs, s.implicits[j])
  }

  lemma {:induction false} KeptFirst(blocks: seq<bool>)
    requires blocks != []
    ensures KeptIn(blocks) == KeptIn(blocks[1..]) + (if blocks[0] then 1 else 0)
  {
    var n := |blocks| - 1;
    if n > 0 {
      KeptFirst(blocks[..n]);
      assert blocks[..n][1..] == blocks[1..][..n - 1];
    } else {
      assert blocks[1..] == [] && blocks[..n] == [];
    }
  }

  lemma KeptLast(blocks: seq<bool>, kept: bool)
    ensures KeptIn(blocks + [kept]) == KeptIn(blocks) + (if kept then 1 else 0)
  {
    assert (blocks + [kept])[..|blocks|] == blocks;
  }

  lemma ExplicitConserves(bs: nat, blocks: int, s: State, op: Op)
    requires bs > 1 && Conserved(bs, blocks, s) && (op.EnqueueExplicit? || op.DequeueExplicit?)
    ensures Conserved(bs, blocks, Step(bs, s, op))
  {
    var s' := Step(bs, s, op);
    if op.j < |s.explicits| { ExplicitUpdate(s.explicits, op.j, s'.explicits[op.j]); }
  }

  lemma EnqueueConserves(bs: nat, blocks: int, s: State, op: Op)
    requires bs > 1 && Conserved(bs, blocks, s) && op.EnqueueImplicit?
    ensures Conserved(bs, blocks, Step(bs, s, op))
  {
    hide LiveBlocks, Live, KeptIn;
    var s', j := Step(bs, s, op), op.j;
    if j < |s.implicits| {
      ImplicitChanges(bs, s, op);
      ImplicitUpdate(bs, s.implicits, j, s'.implicits[j]);
      KeptLast(s.implicits[j].blocks, Recycled(s));
    }
  }

  lemma DequeueConserves(bs: nat, blocks: int, s: State, op: Op)
    requires bs > 1 && Conserved(bs, blocks, s) && op.DequeueImplicit?
    ensures Conserved(bs, blocks, Step(bs, s, op))
  {
    hide LiveBlocks, Live, KeptIn;
    var s', j := Step(bs, s, op), op.j;
    if j < |s.implicits| {
      ImplicitChanges(bs, s, op);
      ImplicitUpdate(bs, s.implicits, j, s'.implicits[j]);
      if s.implicits[j].blocks != [] { KeptFirst(s.implicits[j].blocks); }
    }
  }

  lemma StepConserves(bs: nat, blocks: int, s: State, op: Op)
    requires bs > 1 && Conserved(bs, blocks, s)
    ensures Conserved(bs, blocks, Step(bs, s, op)) && Step(bs, s, op).recycle == s.recycle
  {
    hide Conserved;
    match op
    case EnqueueExplicit(_) => ExplicitConserves(bs, blocks, s, op);
    case DequeueExplicit(_) => ExplicitConserves(bs, blocks, s, op);
    case EnqueueImplicit(_) => EnqueueConserves(bs, blocks, s, op);
    case DequeueImplicit(_) => DequeueConserves(bs, blocks, s, op);
  }

  lemma {:induction false} RunConserves(recycle: bool, bs: nat, minCapacity: nat, explicits: nat, implicits: nat, ops: seq<Op>)
    requires bs > 1 && minCapacity > 0
    ensures var s := Run(bs, Start(recycle, bs, minCapacity, explicits, implicits), ops);
            s.recycle == recycle && Conserved(bs, Reserved(bs, minCapacity, explicits, implicits), s)
    decreases |ops|
  {
    var first, blocks := Start(recycle, bs, minCapacity, explicits, implicits), Reserved(bs, minCapacity, explicits, implicits);
    if ops == [] {
      StartConserves(recycle, bs, minCapacity, explicits, implicits);
    } else {
      hide Conserved, Step, Start, Reserved;
      RunConserves(recycle, bs, minCapacity, explicits, implicits, ops[..|ops| - 1]);
      StepConserves(bs, blocks, Run(bs, first, ops[..|ops| - 1]), ops[|ops| - 1]);
    }
  }

  lemma StartConserves(recycle: bool, bs: nat, minCapacity: nat, explicits: nat, implicits: nat)
    requires bs > 1 && minCapacity > 0
    ensures Conserved(bs, Reserved(bs, minCapacity, explicits, implicits), Start(recycle, bs, minCapacity, explicits, implicits))
  {
    var s := Start(recycle, bs, minCapacity, explicits, implicits);
    StartOk(recycle, bs, minCapacity, explicits, implicits);
    NothingHeld(bs, s.explicits, s.implicits);
  }

  /** After any history at all, an enqueue that needs a block has to allocate it exactly if the producers hold every
      block that was set aside; with the trait RECYCLE_ALLOCATED_BLOCKS, which is off unless a user turns it on, exactly if
      they also hold every block allocated since. */
  lemma AllocatesExactly(recycle: bool, bs: nat, minCapacity: nat, explicits: nat, implicits: nat, ops: seq<Op>, op: Op)
    requires bs > 1 && minCapacity > 0
    requires NeedsBlock(bs, Run(bs, Start(recycle, bs, minCapacity, explicits, implicits), ops), op)
    ensures var s := Run(bs, Start(recycle, bs, minCapacity, explicits, implicits), ops);
            && (Step(bs, s, op).made > s.made <==>
                  HeldKept(s) == Reserved(bs, minCapacity, explicits, implicits) + (if recycle then s.made else 0))
  {
    RunConserves(recycle, bs, minCapacity, explicits, implicits, ops);
  }

  function Repeat(op: Op, n: nat): (r: seq<Op>)
    ensures |r| == n && forall i :: 0 <= i < n ==> r[i] == op
  { if n == 0 then [] else Repeat(op, n - 1) + [op] }

  lemma {:induction false} RunAppend(bs: nat, s: State, a: seq<Op>, b: seq<Op>)
    requires bs > 0
    ensures Run(bs, s, a + b) == Run(bs, Run(bs, s, a), b)
    decreases |b|
  {
    if b == [] {
      assert a + b == a;
    } else {
      var n := |b| - 1;
      RunAppend(bs, s, a, b[..n]);
      assert (a + b)[..|a + b| - 1] == a + b[..n];
    }
  }

  lemma RunRepeat(bs: nat, s: State, op: Op, n: nat)
    requires bs > 0 && n > 0
    ensures Run(bs, s, Repeat(op, n)) == Step(bs, Run(bs, s, Repeat(op, n - 1)), op)
  {
    assert Repeat(op, n)[..n - 1] == Repeat(op, n - 1);
  }

  // ---- A peak ---------------------------------------------------------------------------------------------------------

  /** The first of the explicit producers has enqueued n elements and dequeued head of them; the others have done
      nothing. */
  function Peak(first: State, bs: nat, head: nat, n: nat): State
    requires bs > 0 && first.explicits != [] && BlockCount(bs, n) <= first.pool
  {
    var k := BlockCount(bs, n);
    first.(explicits := first.explicits[0 := Explicit(head, n, k, k)], pool := first.pool - k)
  }

  predicate Untouched(s: State) {
    && (forall j :: 0 <= j < |s.explicits| ==> s.explicits[j] == Explicit(0, 0, 0, 0))
    && (forall j :: 0 <= j < |s.implicits| ==> s.implicits[j] == Implicit(0, 0, []))
  }

  lemma PeakStep(first: State, bs: nat, n: nat)
    requires bs > 1 && first.explicits != [] && BlockCount(bs, n + 1) <= first.pool
    ensures BlockCount(bs, n) <= BlockCount(bs, n + 1) && Step(bs, Peak(first, bs, 0, n), EnqueueExplicit(0)) == Peak(first, bs, 0, n + 1)
  {
    BlockCountMonotone(bs, n, 1);
    LiveChanges(bs, Implicit(0, n, []));
    var s := Peak(first, bs, 0, n);
    if n % bs == 0 {
      assert n == (n / bs) * bs;
      Arithmetic.QuotientRemainder(n + bs - 1, bs, n / bs, bs - 1);
      assert (BlockNo(bs, n) - BlockCount(bs, n) + 1) * bs == bs;
    }
    var k := BlockCount(bs, n + 1);
    assert s.explicits[0 := Explicit(0, n + 1, k, k)] == first.explicits[0 := Explicit(0, n + 1, k, k)];
  }

  lemma NoBlocks(bs: nat)
    requires bs > 0
    ensures BlockCount(bs, 0) == 0
  {
    Arithmetic.QuotientRemainder(bs - 1, bs, 0, bs - 1);
  }

  lemma {:induction false} Peaking(first: State, bs: nat, n: nat)
    requires bs > 1 && first.explicits != [] && first.explicits[0] == Explicit(0, 0, 0, 0) && BlockCount(bs, n) <= first.pool
    ensures Run(bs, first, Repeat(EnqueueExplicit(0), n)) == Peak(first, bs, 0, n)
  {
    hide Step, BlockCount, Repeat;
    if n == 0 {
      NoBlocks(bs);
      assert first.explicits[0 := Explicit(0, 0, 0, 0)] == first.explicits && Repeat(EnqueueExplicit(0), 0) == [];
    } else {
      BlockCountMonotone(bs, n - 1, 1);
      Peaking(first, bs, n - 1);
      RunRepeat(bs, first, EnqueueExplicit(0), n);
      PeakStep(first, bs, n - 1);
    }
  }

  lemma DrainStep(first: State, bs: nat, head: nat, n: nat)
    requires bs > 1 && first.explicits != [] && BlockCount(bs, n) <= first.pool && head < n
    ensures Step(bs, Peak(first, bs, head, n), DequeueExplicit(0)) == Peak(first, bs, head + 1, n)
  {
    hide BlockCount;
    var k, s := BlockCount(bs, n), Peak(first, bs, head, n);
    assert s.explicits[0 := Explicit(head + 1, n, k, k)] == first.explicits[0 := Explicit(head + 1, n, k, k)];
  }

  lemma {:induction false} Draining(first: State, bs: nat, head: nat, n: nat)
    requires bs > 1 && first.explicits != [] && BlockCount(bs, n) <= first.pool && head <= n
    ensures Run(bs, Peak(first, bs, 0, n), Repeat(DequeueExplicit(0), head)) == Peak(first, bs, head, n)
  {
    hide Step, Peak, BlockCount;
    if head > 0 {
      Draining(first, bs, head - 1, n);
      RunRepeat(bs, Peak(first, bs, 0, n), DequeueExplicit(0), head);
      DrainStep(first, bs, head - 1, n);
    }
  }

  lemma {:induction false} NoElements(es: seq<Explicit>, ps: seq<Implicit>)
    requires (forall j :: 0 <= j < |es| ==> es[j].head == es[j].tail) && (forall j :: 0 <= j < |ps| ==> ps[j].head == ps[j].tail)
    ensures ExplicitElements(es) == 0 && ImplicitElements(ps) == 0
    decreases |es| + |ps|
  {
    if es != [] { NoElements(es[..|es| - 1], []); }
    if ps != [] { NoElements([], ps[..|ps| - 1]); }
  }

  lemma SomeReserved(bs: nat, minCapacity: nat, explicits: nat, implicits: nat)
    requires bs > 1 && minCapacity > 0
    ensures Reserved(bs, minCapacity, explicits, implicits) >= 2 * (explicits + implicits)
  {
    WholeBlocks(bs, 0, minCapacity);
    Arithmetic.Scale(0, Full(bs, minCapacity) - 1, explicits + 1);
  }

  /** Holding less than minCapacity elements now is not enough, if there is an explicit producer and another one: after
      the explicit producer has had elements in all the blocks set aside at once its ring keeps them all, and the
      other's first enqueue into the empty queue allocates. */
  lemma AnEarlierPeakMakesItAllocate(recycle: bool, bs: nat, minCapacity: nat, explicits: nat, implicits: nat) returns (ops: seq<Op>, op: Op)
    requires bs > 1 && minCapacity > 0 && explicits > 0 && explicits + implicits > 1
    ensures var s := Run(bs, Start(recycle, bs, minCapacity, explicits, implicits), ops);
            Elements(s) == 0 && s.made == 0 && Step(bs, s, op).made == 1
  {
    var first, r := Start(recycle, bs, minCapacity, explicits, implicits), Reserved(bs, minCapacity, explicits, implicits);
    SomeReserved(bs, minCapacity, explicits, implicits);
    var n := r * bs;
    Arithmetic.QuotientRemainder(n + bs - 1, bs, r, bs - 1);
    ops := Repeat(EnqueueExplicit(0), n) + Repeat(DequeueExplicit(0), n);
    op := if explicits > 1 then EnqueueExplicit(1) else EnqueueImplicit(0);
    hide Run, Step, Repeat, Reserved;
    Peaking(first, bs, n);
    Draining(first, bs, n, n);
    RunAppend(bs, first, Repeat(EnqueueExplicit(0), n), Repeat(DequeueExplicit(0), n));
    EmptyAgain(first, bs, n, op);
  }

  lemma EmptyAgain(first: State, bs: nat, n: nat, op: Op)
    requires bs > 1 && first.explicits != [] && Untouched(first) && BlockCount(bs, n) == first.pool && first.free == first.made == 0
    requires op == if |first.explicits| > 1 then EnqueueExplicit(1) else EnqueueImplicit(0)
    requires |first.explicits| + |first.implicits| > 1
    ensures var s := Peak(first, bs, n, n); Elements(s) == 0 && s.made == 0 && Step(bs, s, op).made == 1
  {
    var s := Peak(first, bs, n, n);
    NoElements(s.explicits, s.implicits);
    Arithmetic.QuotientRemainder(0, bs, 0, 0);
  }

  // ---- The promise, in the numbers declared -----------------------------------------------------------------------------

  /** After any history: no more blocks in a ring may go to the free list than are in it. */
  ghost predicate HistoryOk(s: State) {
    forall j :: 0 <= j < |s.explicits| ==> s.explicits[j].head <= s.explicits[j].tail && s.explicits[j].kept <= s.explicits[j].ring
  }

  lemma AtFirst(s: State)
    requires Untouched(s)
    ensures HistoryOk(s)
  {
  }

  lemma StepHistory(bs: nat, s: State, op: Op)
    requires bs > 0 && HistoryOk(s)
    ensures var s' := Step(bs, s, op); HistoryOk(s') && |s'.explicits| == |s.explicits| && |s'.implicits| == |s.implicits|
  {
    hide NeedsBlock;
  }

  lemma {:induction false} RunHistory(bs: nat, first: State, ops: seq<Op>)
    requires bs > 1 && Untouched(first)
    ensures var s := Run(bs, first, ops); HistoryOk(s) && |s.explicits| == |first.explicits| && |s.implicits| == |first.implicits|
    decreases |ops|
  {
    hide Step, HistoryOk, Untouched;
    if ops == [] {
      AtFirst(first);
    } else {
      RunHistory(bs, first, ops[..|ops| - 1]);
      StepHistory(bs, Run(bs, first, ops[..|ops| - 1]), ops[|ops| - 1]);
    }
  }

  lemma {:induction false} KeptAtMost(bs: nat, ps: seq<Implicit>)
    requires bs > 0 && forall j :: 0 <= j < |ps| ==> ImplicitOk(bs, ps[j])
    ensures KeptLive(ps) <= Live(bs, ps)
  {
    if ps != [] {
      KeptAtMost(bs, ps[..|ps| - 1]);
      KeptInAtMost(ps[|ps| - 1].blocks);
    }
  }

  lemma {:induction false} KeptInAtMost(blocks: seq<bool>)
    ensures KeptIn(blocks) <= |blocks|
  {
    if blocks != [] { KeptInAtMost(blocks[..|blocks| - 1]); }
  }

  /** Implicit producers alone, one of which needs a block, do not hold as many as were set aside. */
  lemma LiveRequest(bs: nat, minCapacity: nat, ps: seq<Implicit>, j: nat)
    requires bs > 1 && j < |ps| && (forall x :: 0 <= x < |ps| ==> ImplicitOk(bs, ps[x])) && ps[j].tail % bs == 0 && ImplicitElements(ps) < minCapacity
    ensures Live(bs, ps) < Reserved(bs, minCapacity, 0, |ps|)
  {
    var p := ps[j];
    var n, imp := p.tail - p.head, ImplicitElements(ps);
    LiveBoundBut(bs, ps, j);
    LiveBound(bs, p);
    FloorCeil(bs, imp - n, n);
    BlockCountMonotone(bs, imp, minCapacity - imp);
  }

  /** Nor does an explicit producer alone. */
  lemma RingRequest(bs: nat, minCapacity: nat, e: Explicit)
    requires bs > 1 && minCapacity > 0 && e.head <= e.tail && e.tail - e.head < minCapacity && e.tail % bs == 0 && !OldestEmpty(bs, e)
    ensures e.ring < Reserved(bs, minCapacity, 1, 0)
  {
    WholeBlocks(bs, e.tail - e.head, minCapacity);
    if e.ring > 0 { RingIsInUse(bs, e); }
  }

  /** Without explicit producers. */
  lemma ImplicitAlone(bs: nat, minCapacity: nat, s: State, op: Op)
    requires bs > 1 && s.explicits == [] && Conserved(bs, Reserved(bs, minCapacity, 0, |s.implicits|), s)
    requires Elements(s) < minCapacity && NeedsBlock(bs, s, op)
    ensures s.pool + s.free > 0
  {
    KeptAtMost(bs, s.implicits);
    hide Reserved, Live;
    LiveRequest(bs, minCapacity, s.implicits, op.j);
  }

  /** With one explicit producer and no other. */
  lemma ExplicitAlone(bs: nat, minCapacity: nat, s: State, op: Op)
    requires bs > 1 && minCapacity > 0 && |s.explicits| == 1 && s.implicits == [] && HistoryOk(s) && Conserved(bs, Reserved(bs, minCapacity, 1, 0), s)
    requires Elements(s) < minCapacity && NeedsBlock(bs, s, op)
    ensures s.pool + s.free > 0
  {
    assert s.explicits[..0] == [];
    var e := s.explicits[0];
    assert ExplicitElements(s.explicits) == e.tail - e.head && KeptRings(s.explicits) == e.kept;
    hide Reserved, OldestEmpty;
    RingRequest(bs, minCapacity, e);
  }

  /** With no explicit producer, or with one producer in all, there is always a block. */
  lemma AlwaysABlock(recycle: bool, bs: nat, minCapacity: nat, explicits: nat, implicits: nat, ops: seq<Op>, op: Op)
    requires bs > 1 && minCapacity > 0 && (explicits == 0 || explicits + implicits <= 1)
    requires Elements(Run(bs, Start(recycle, bs, minCapacity, explicits, implicits), ops)) < minCapacity
    ensures var s := Run(bs, Start(recycle, bs, minCapacity, explicits, implicits), ops); Step(bs, s, op).made == s.made
  {
    var s := Run(bs, Start(recycle, bs, minCapacity, explicits, implicits), ops);
    RunConserves(recycle, bs, minCapacity, explicits, implicits, ops);
    RunHistory(bs, Start(recycle, bs, minCapacity, explicits, implicits), ops);
    hide Run, Reserved, Conserved, HistoryOk, Elements, NeedsBlock;
    if NeedsBlock(bs, s, op) {
      if explicits == 0 { ImplicitAlone(bs, minCapacity, s, op); } else { ExplicitAlone(bs, minCapacity, s, op); }
    }
  }

  /** However the queue was used before, no operation allocates a block while it holds less than minCapacity elements. */
  ghost predicate Promise(recycle: bool, bs: nat, minCapacity: nat, explicits: nat, implicits: nat)
    requires bs > 0
  {
    forall ops, op ::
      var s := Run(bs, Start(recycle, bs, minCapacity, explicits, implicits), ops);
      Elements(s) < minCapacity ==> Step(bs, s, op).made == s.made
  }

  /** The constructor's promise holds, after every history, exactly if no explicit producer was declared, or no more than
      one producer in all. */
  lemma PromiseExactly(recycle: bool, bs: nat, minCapacity: nat, explicits: nat, implicits: nat)
    requires bs > 1 && minCapacity > 0
    ensures Promise(recycle, bs, minCapacity, explicits, implicits) <==> explicits == 0 || explicits + implicits <= 1
  {
    hide Run, Step, Elements, Start;
    if explicits == 0 || explicits + implicits <= 1 {
      forall ops, op
        ensures var s := Run(bs, Start(recycle, bs, minCapacity, explicits, implicits), ops); Elements(s) < minCapacity ==> Step(bs, s, op).made == s.made
      {
        if Elements(Run(bs, Start(recycle, bs, minCapacity, explicits, implicits), ops)) < minCapacity {
          AlwaysABlock(recycle, bs, minCapacity, explicits, implicits, ops, op);
        }
      }
    } else {
      var ops, op := AnEarlierPeakMakesItAllocate(recycle, bs, minCapacity, explicits, implicits);
    }
  }
}
