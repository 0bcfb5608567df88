/** What every run of an implicit producer's sub-queue, with any interleaving of its producer and its
    consumers, is sure of. */
module ImplicitRuns {
  import opened Blocks
  import opened ImplicitIndex
  import opened ImplicitQueue
  import opened ImplicitConsumers
  import opened Options

  predicate Legal<V>(s: State<V>, pick: Pick<V>) { pick.Consume? ==> pick.thread < |s.consumers| }

  /** A run: each state comes from the one before by one access, as long as that access is in range. */
  ghost predicate Run<V>(bs: nat, states: seq<State<V>>, picks: seq<Pick<V>>) {
    && bs > 1 && |states| == |picks| + 1
    && (exists capacity: nat, n: nat :: capacity > 0 && states[0] == Start(capacity, n))
    && (forall i :: 0 <= i < |picks| ==> Follows(bs, states[i], picks[i], states[i + 1]))
  }

  /** Every dequeue asks for at least so many elements; a single one asks for one. */
  predicate AsksFor<V>(picks: seq<Pick<V>>, least: nat) {
    forall i :: 0 <= i < |picks| && picks[i].Consume? ==> picks[i].want >= least
  }

  predicate Follows<V(==)>(bs: nat, s: State<V>, pick: Pick<V>, s': State<V>) {
    Legal(s, pick) && (Enabled(bs, s, pick) ==> s' == Step(bs, s, pick))
  }

  lemma StartOk<V>(bs: nat, capacity: nat, n: nat)
    requires bs > 1 && capacity > 0
    ensures Inv<V>(bs, Start(capacity, n))
  {
    InitOk(bs, capacity);
    var s: State<V> := Start(capacity, n);
    assert BlockCount(bs, 0) == 0;
    assert EntryOf(s.mem.ix, 0) == EntryOf(s.mem.ix, 0);
  }

  /** Every access of every thread is in range and keeps the invariant, as long as dequeues ask for something. */
  lemma StepKeeps<V>(bs: nat, s: State<V>, pick: Pick<V>)
    requires Inv(bs, s) && Legal(s, pick) && (pick.Consume? ==> pick.want > 0)
    ensures Enabled(bs, s, pick) && Inv(bs, Step(bs, s, pick))
  {
    hide Inv, Step;
    match pick
    case Produce(_, _, _) => ProducerKeeps(bs, s, pick);
    case Consume(t, want) => ConsumerKeeps(bs, s, t, want);
  }

  lemma {:induction false} RunInv<V>(bs: nat, states: seq<State<V>>, picks: seq<Pick<V>>, i: nat)
    requires Run(bs, states, picks) && AsksFor(picks, 1) && i < |states|
    ensures Inv(bs, states[i])
    ensures i < |picks| ==> Enabled(bs, states[i], picks[i]) && states[i + 1] == Step(bs, states[i], picks[i])
  {
    hide Inv, Step, Enabled;
    if i == 0 {
      var capacity: nat, n: nat :| capacity > 0 && states[0] == Start(capacity, n);
      StartOk<V>(bs, capacity, n);
    } else {
      RunInv(bs, states, picks, i - 1);
      assert Follows(bs, states[i - 1], picks[i - 1], states[i]);
      StepKeeps(bs, states[i - 1], picks[i - 1]);
    }
    if i < |picks| {
      assert Follows(bs, states[i], picks[i], states[i + 1]);
      StepKeeps(bs, states[i], picks[i]);
    }
  }

  // ---- First in, first out; nothing lost; nothing twice ---------------------------------------------

  /** In every state of every run: what a consumer's latest call returned is a stretch of the elements in
      the order they were enqueued, and every enqueued element that no consumer moved out is still in the
      storage of its block. */
  lemma NothingLost<V>(bs: nat, states: seq<State<V>>, picks: seq<Pick<V>>, i: nat)
    requires Run(bs, states, picks) && AsksFor(picks, 1) && i < |states|
    ensures var q, st := states[i].mem.q, states[i].mem.store;
      && (forall t :: 0 <= t < |states[i].consumers| && states[i].consumers[t].CIdle? ==>
            var CIdle(first, got) := states[i].consumers[t];
            first + |got| <= |q.log| && got == q.log[first..first + |got|])
      && (forall x: nat :: x < |q.log| && x !in q.moved ==>
            && BlockNo(bs, x) < |q.blockOf| && q.blockOf[BlockNo(bs, x)] < |st.blocks|
            && |st.blocks[q.blockOf[BlockNo(bs, x)]].elements| == bs
            && st.blocks[q.blockOf[BlockNo(bs, x)]].elements[x % bs] == Some(q.log[x]))
  {
    RunInv(bs, states, picks, i);
    var s := states[i];
    var q, st := s.mem.q, s.mem.store;
    forall t | 0 <= t < |s.consumers| && s.consumers[t].CIdle?
      ensures var CIdle(first, got) := s.consumers[t]; first + |got| <= |q.log| && got == q.log[first..first + |got|]
    {
      OneConsumer(bs, s, t);
    }
    forall x: nat | x < |q.log| && x !in q.moved
      ensures BlockNo(bs, x) < |q.blockOf| && q.blockOf[BlockNo(bs, x)] < |st.blocks|
      ensures |st.blocks[q.blockOf[BlockNo(bs, x)]].elements| == bs
      ensures st.blocks[q.blockOf[BlockNo(bs, x)]].elements[x % bs] == Some(q.log[x])
    {
      StillStored(bs, s.mem, s.producer, x);
    }
  }

  lemma StillStored<V>(bs: nat, m: Memory<V>, p: Producer<V>, x: nat)
    requires MemoryOk(bs, m, p) && x < |m.q.log| && x !in m.q.moved
    ensures BlockNo(bs, x) < |m.q.blockOf| && m.q.blockOf[BlockNo(bs, x)] < |m.store.blocks|
    ensures |m.store.blocks[m.q.blockOf[BlockNo(bs, x)]].elements| == bs
    ensures m.store.blocks[m.q.blockOf[BlockNo(bs, x)]].elements[x % bs] == Some(m.q.log[x])
  {
    QueueFacts(bs, m, p);
    LiveBlock(bs, m, p, x);
  }

  /** What a step can only add to. */
  predicate Grows<V(==)>(q: Queue<V>, q': Queue<V>) {
    && q.log <= q'.log && q.blockOf <= q'.blockOf && q.headIndex <= q'.headIndex
    && q.moved <= q'.moved && q.counted <= q'.counted && q.cleared <= q'.cleared && q.freed <= q'.freed
  }

  lemma StepGrows<V>(bs: nat, s: State<V>, pick: Pick<V>)
    requires Enabled(bs, s, pick)
    ensures Grows(s.mem.q, Step(bs, s, pick).mem.q)
  {
    hide Shape, Grow, StoreKey, StoreTail, Rewind, StoreValue, LookupSlot, Range;
  }

  lemma {:induction false} RunGrows<V>(bs: nat, states: seq<State<V>>, picks: seq<Pick<V>>, i: nat, j: nat)
    requires Run(bs, states, picks) && AsksFor(picks, 1) && i <= j < |states|
    ensures Grows(states[i].mem.q, states[j].mem.q)
  {
    if i < j {
      RunGrows(bs, states, picks, i, j - 1);
      RunInv(bs, states, picks, j - 1);
      StepGrows(bs, states[j - 1], picks[j - 1]);
    }
  }

  /** The access moves element x out of its block. */
  predicate Moves<V(==)>(s: State<V>, pick: Pick<V>, x: nat) {
    pick.Consume? && pick.thread < |s.consumers| && s.consumers[pick.thread].CMove? && s.consumers[pick.thread].job.cur == x
  }

  /** The access puts block number k's storage on the free list. */
  predicate Frees<V(==)>(bs: nat, s: State<V>, pick: Pick<V>, k: nat) {
    && bs > 0 && pick.Consume? && pick.thread < |s.consumers| && s.consumers[pick.thread].CFree?
    && k == CountsIn(bs, s.consumers[pick.thread].job)
  }

  lemma MoveIsFirst<V>(bs: nat, s: State<V>, pick: Pick<V>, x: nat)
    requires Inv(bs, s) && Enabled(bs, s, pick) && Moves(s, pick, x)
    ensures x !in s.mem.q.moved && x in Step(bs, s, pick).mem.q.moved && x < |s.mem.q.log|
    ensures Step(bs, s, pick).consumers[pick.thread].job.got == s.consumers[pick.thread].job.got + [s.mem.q.log[x]]
  {
    hide MemoryOk, ConsumersOk;
    OneConsumer(bs, s, pick.thread);
    MoveKeeps(bs, s, pick.thread, s.consumers[pick.thread].job);
  }

  lemma NotMovedAgain<V>(bs: nat, states: seq<State<V>>, picks: seq<Pick<V>>, i: nat, j: nat, x: nat)
    requires Run(bs, states, picks) && AsksFor(picks, 1) && i < j < |picks| && Moves(states[i], picks[i], x)
    ensures !Moves(states[j], picks[j], x)
  {
    RunInv(bs, states, picks, i);
    RunInv(bs, states, picks, j);
    hide Inv, Enabled;
    MoveIsFirst(bs, states[i], picks[i], x);
    RunGrows(bs, states, picks, i + 1, j);
    if Moves(states[j], picks[j], x) { MoveIsFirst(bs, states[j], picks[j], x); }
  }

  /** Whoever moves element x gets the x-th element enqueued, and no later access of the run moves it again. */
  lemma MovedOnce<V>(bs: nat, states: seq<State<V>>, picks: seq<Pick<V>>, i: nat, x: nat)
    requires Run(bs, states, picks) && AsksFor(picks, 1) && i < |picks| && Moves(states[i], picks[i], x)
    ensures x < |states[i].mem.q.log| && picks[i].thread < |states[i + 1].consumers|
    ensures var c := states[i + 1].consumers[picks[i].thread];
            !c.CIdle? && c.job.got == states[i].consumers[picks[i].thread].job.got + [states[i].mem.q.log[x]]
    ensures forall j :: i < j < |picks| ==> !Moves(states[j], picks[j], x)
  {
    RunInv(bs, states, picks, i);
    hide Inv, Enabled, Run, Moves;
    MoveIsFirst(bs, states[i], picks[i], x);
    forall j | i < j < |picks| ensures !Moves(states[j], picks[j], x) { NotMovedAgain(bs, states, picks, i, j, x); }
  }

  // ---- Storage blocks ---------------------------------------------------------------------------------

  lemma FreeIsFirst<V>(bs: nat, s: State<V>, pick: Pick<V>, k: nat)
    requires Inv(bs, s) && Enabled(bs, s, pick) && Frees(bs, s, pick, k)
    ensures k !in s.mem.q.freed && k in Step(bs, s, pick).mem.q.freed
    ensures forall x: nat :: BlockNo(bs, x) == k ==> x in s.mem.q.moved && x in s.mem.q.counted
    ensures k < |s.mem.q.blockOf| && s.mem.q.blockOf[k] < |Step(bs, s, pick).mem.store.holder|
    ensures Step(bs, s, pick).mem.store.holder[s.mem.q.blockOf[k]] == None
  {
    hide MemoryOk, ConsumersOk, Ok, Slot;
    OneConsumer(bs, s, pick.thread);
    QueueFacts(bs, s.mem, s.producer);
    InHand(bs, s.mem, s.producer, s.consumers[pick.thread].job, k);
  }

  lemma NotFreedAgain<V>(bs: nat, states: seq<State<V>>, picks: seq<Pick<V>>, i: nat, j: nat, k: nat)
    requires Run(bs, states, picks) && AsksFor(picks, 1) && i < j < |picks| && Frees(bs, states[i], picks[i], k)
    ensures !Frees(bs, states[j], picks[j], k)
  {
    RunInv(bs, states, picks, i);
    RunInv(bs, states, picks, j);
    hide Inv, Enabled;
    FreeIsFirst(bs, states[i], picks[i], k);
    RunGrows(bs, states, picks, i + 1, j);
    if Frees(bs, states[j], picks[j], k) { FreeIsFirst(bs, states[j], picks[j], k); }
  }

  /** When a block goes to the free list every one of its elements was moved out, and no later access of the run puts
      it there again. */
  lemma FreedOnceWhenEmpty<V>(bs: nat, states: seq<State<V>>, picks: seq<Pick<V>>, i: nat, k: nat)
    requires Run(bs, states, picks) && AsksFor(picks, 1) && i < |picks| && Frees(bs, states[i], picks[i], k)
    ensures forall x: nat :: BlockNo(bs, x) == k ==> x in states[i].mem.q.moved
    ensures forall j :: i < j < |picks| ==> !Frees(bs, states[j], picks[j], k)
  {
    RunInv(bs, states, picks, i);
    FreeIsFirst(bs, states[i], picks[i], k);
    hide Inv, Enabled, Run, Frees;
    forall j | i < j < |picks| ensures !Frees(bs, states[j], picks[j], k) { NotFreedAgain(bs, states, picks, i, j, k); }
  }

  /** Every block whose elements are all counted is on the free list or about to be put there by the one
      consumer that retires it. */
  ghost predicate NoneStranded<V>(bs: nat, s: State<V>)
    requires bs > 0
  {
    forall k: nat :: k < |s.mem.q.blockOf| && k !in s.mem.q.freed && Drained(bs, s.mem.q, k) ==> Retired(bs, s.consumers, k)
  }

  ghost predicate Drained<V>(bs: nat, q: Queue<V>, k: nat)
    requires bs > 0
  { forall x: nat :: BlockNo(bs, x) == k ==> x in q.counted }

  ghost predicate Retired<V>(bs: nat, cs: seq<Consumer<V>>, k: nat)
    requires bs > 0
  { exists t :: 0 <= t < |cs| && Retires(bs, cs[t], k) }

  predicate Retires<V>(bs: nat, c: Consumer<V>, k: nat)
    requires bs > 0
  { (c.CClear? || c.CFree?) && CountsIn(bs, c.job) == k }

  /** A consumer's step that only lets go of blocks it has freed keeps the others in hand. */
  lemma StillRetired<V>(bs: nat, cs: seq<Consumer<V>>, t: nat, c': Consumer<V>, k: nat)
    requires bs > 0 && t < |cs| && Retired(bs, cs, k) && (Retires(bs, cs[t], k) ==> Retires(bs, c', k))
    ensures Retired(bs, cs[t := c'], k)
  {
    var u :| 0 <= u < |cs| && Retires(bs, cs[u], k);
    assert Retires(bs, cs[t := c'][u], k);
  }

  /** A block none of whose elements is enqueued is not drained. */
  lemma DrainedExists<V>(bs: nat, q: Queue<V>, k: nat)
    requires bs > 0 && QueueOk(bs, q) && Drained(bs, q, k)
    ensures k < |q.blockOf|
  {
    Parts(bs, k, 0);
    assert k * bs + 0 in q.counted;
    BlockNoBelow(bs, k * bs + 0, q.tailIndex);
  }

  lemma ProducerStrands<V>(bs: nat, s: State<V>, pick: Pick<V>)
    requires Inv(bs, s) && Enabled(bs, s, pick) && pick.Produce? && NoneStranded(bs, s)
    ensures NoneStranded(bs, Step(bs, s, pick))
  {
    var s' := Step(bs, s, pick);
    ProducerRecords(bs, s, pick);
    assert QueueOk(bs, s.mem.q);
    hide Step, Inv, Enabled, QueueOk;
    forall k: nat | k < |s'.mem.q.blockOf| && k !in s'.mem.q.freed && Drained(bs, s'.mem.q, k)
      ensures Retired(bs, s'.consumers, k)
    {
      assert Drained(bs, s.mem.q, k);
      DrainedExists(bs, s.mem.q, k);
    }
  }

  lemma ProducerRecords<V>(bs: nat, s: State<V>, pick: Pick<V>)
    requires Enabled(bs, s, pick) && pick.Produce?
    ensures var s' := Step(bs, s, pick);
            && s'.mem.q.counted == s.mem.q.counted && s'.mem.q.freed == s.mem.q.freed
            && s'.consumers == s.consumers && s.mem.q.blockOf <= s'.mem.q.blockOf
  {
    hide Shape, Grow, StoreKey, StoreTail, Rewind, StoreValue, LookupSlot, Range;
  }

  lemma {:induction false} CountWhole(bs: nat, counted: set<nat>, k: nat, n: nat)
    requires 0 < bs && n <= bs && forall x: nat :: BlockNo(bs, x) == k ==> x in counted
    ensures Counted(bs, counted, k, n) == n
  {
    if n > 0 {
      Parts(bs, k, n - 1);
      CountWhole(bs, counted, k, n - 1);
    }
  }

  /** Steps that leave the counts alone. */
  lemma QuietStrands<V>(bs: nat, s: State<V>, t: nat, m': Memory<V>, c': Consumer<V>)
    requires bs > 0 && NoneStranded(bs, s) && t < |s.consumers|
    requires m'.q.counted == s.mem.q.counted && m'.q.blockOf == s.mem.q.blockOf && s.mem.q.freed <= m'.q.freed
    requires forall k: nat :: k !in m'.q.freed && Retires(bs, s.consumers[t], k) ==> Retires(bs, c', k)
    ensures NoneStranded(bs, State(m', s.producer, s.consumers[t := c']))
  {
    forall k: nat | k < |m'.q.blockOf| && k !in m'.q.freed && Drained(bs, m'.q, k)
      ensures Retired(bs, s.consumers[t := c'], k)
    {
      assert Drained(bs, s.mem.q, k);
      StillRetired(bs, s.consumers, t, c', k);
    }
  }

  lemma CountStrands<V>(bs: nat, s: State<V>, t: nat, j: Job<V>, n: nat, q': Queue<V>, m': Memory<V>, c': Consumer<V>)
    requires bs > 0 && NoneStranded(bs, s) && t < |s.consumers| && s.consumers[t] == CEmpty(j)
    requires j.first < j.end && j.from < j.cur && BlockNo(bs, j.cur - 1) == BlockNo(bs, j.from)
    requires m'.q == q' == s.mem.q.(counted := s.mem.q.counted + Range(j.from, j.cur))
    requires n == Counted(bs, q'.counted, BlockNo(bs, j.from), bs) && (n == bs ==> c' == CClear(j.(from := j.cur)))
    ensures NoneStranded(bs, State(m', s.producer, s.consumers[t := c']))
  {
    forall k: nat | k < |q'.blockOf| && k !in q'.freed && Drained(bs, q', k)
      ensures Retired(bs, s.consumers[t := c'], k)
    {
      if Drained(bs, s.mem.q, k) {
        StillRetired(bs, s.consumers, t, c', k);
      } else {
        var x: nat :| BlockNo(bs, x) == k && x !in s.mem.q.counted;
        DivMonotone(j.from, x, bs);
        DivMonotone(x, j.cur - 1, bs);
        hide BlockNo;
        CountWhole(bs, q'.counted, k, bs);
        assert CountsIn(bs, j.(from := j.cur)) == BlockNo(bs, j.cur - 1) == k;
        assert Retires(bs, s.consumers[t := c'][t], k);
      }
    }
  }

  lemma CountStepStrands<V>(bs: nat, s: State<V>, t: nat, want: nat, j: Job<V>)
    requires Inv(bs, s) && Enabled(bs, s, Consume(t, want)) && NoneStranded(bs, s) && s.consumers[t] == CEmpty(j)
    ensures NoneStranded(bs, Step(bs, s, Consume(t, want)))
  {
    hide MemoryOk, ConsumersOk, NoneStranded, Retired, Shape, Ok, QueueOk;
    var s' := Step(bs, s, Consume(t, want));
    OneConsumer(bs, s, t);
    NotFreed(bs, s.mem, s.producer, j.from);
    InHand(bs, s.mem, s.producer, j, BlockNo(bs, j.from));
    CountMemory(bs, s.mem, s.producer, j.block, j.from, j.cur);
    CountStrands(bs, s, t, j, s.mem.store.blocks[j.block].dequeued + (j.cur - j.from), s'.mem.q, s'.mem, s'.consumers[t]);
  }

  lemma QuietStepStrands<V>(bs: nat, s: State<V>, t: nat, want: nat)
    requires Inv(bs, s) && Enabled(bs, s, Consume(t, want)) && NoneStranded(bs, s) && !s.consumers[t].CEmpty?
    ensures NoneStranded(bs, Step(bs, s, Consume(t, want)))
  {
    hide Inv, NoneStranded, Retired, LookupSlot, StoreValue, HeaderOk;
    var s' := Step(bs, s, Consume(t, want));
    QuietStrands(bs, s, t, s'.mem, s'.consumers[t]);
  }

  /** No block is lost to the free list: in every state of every run, a published block that is not free
      holds an element no consumer has counted, or is in the hands of the consumer that retires it. */
  lemma {:induction false} NoBlockStranded<V>(bs: nat, states: seq<State<V>>, picks: seq<Pick<V>>, i: nat)
    requires Run(bs, states, picks) && AsksFor(picks, 1) && i < |states|
    ensures NoneStranded(bs, states[i])
  {
    if i > 0 {
      NoBlockStranded(bs, states, picks, i - 1);
      RunInv(bs, states, picks, i - 1);
      hide Inv, Step, Enabled, NoneStranded;
      assert Follows(bs, states[i - 1], picks[i - 1], states[i]);
      match picks[i - 1]
      case Produce(_, _, _) => ProducerStrands(bs, states[i - 1], picks[i - 1]);
      case Consume(t, want) =>
        if states[i - 1].consumers[t].CEmpty? {
          CountStepStrands(bs, states[i - 1], t, want, states[i - 1].consumers[t].job);
        } else {
          QuietStepStrands(bs, states[i - 1], t, want);
        }
    }
  }

  // ---- Enqueues are all or nothing ---------------------------------------------------------------------

  /** The producer's call that starts at state i with items is still going on in state j. */
  ghost predicate InCall<V>(states: seq<State<V>>, i: nat, j: nat) {
    i < j < |states| && states[i].producer.PIdle? && forall x :: i < x < j ==> !states[x].producer.PIdle?
  }

  /** The items a call still means to enqueue; none once it is undoing. */
  predicate ItemsAre<V(==)>(p: Producer<V>, items: seq<V>) {
    match p
    case PIdle(_) => true
    case PBackTail(_, _) => true
    case PBackClear(_, _) => true
    case PUndoClear(_, _) => true
    case PUndoTail(_, _) => true
    case PUndoFree(_, _) => true
    case _ => p.items == items
  }

  /** What one step of a call does: it publishes everything and reports success, or nothing. */
  lemma CallStep<V>(bs: nat, s: State<V>, pick: Pick<V>, items: seq<V>)
    requires Enabled(bs, s, pick) && pick.Produce?
    requires ItemsAre(s.producer, items) && (s.producer.PIdle? ==> pick.items == items)
    ensures var s' := Step(bs, s, pick);
            && ItemsAre(s'.producer, items)
            && (s'.producer.PIdle? && !s.producer.PIdle? && s'.producer.ok ==> s'.mem.q.log == s.mem.q.log + items)
            && (s.producer.PIdle? || !s'.producer.PIdle? || !s'.producer.ok ==>
                  s'.mem.q.log == s.mem.q.log && s'.mem.q.tailIndex == s.mem.q.tailIndex && s'.mem.q.blockOf == s.mem.q.blockOf)
  {
    hide Shape, Grow, StoreKey, StoreTail, Rewind, StoreValue, LookupSlot;
  }

  predicate SameRecords<V(==)>(q: Queue<V>, q': Queue<V>) {
    q'.log == q.log && q'.tailIndex == q.tailIndex && q'.blockOf == q.blockOf
  }

  lemma ConsumersDontEnqueue<V>(bs: nat, s: State<V>, pick: Pick<V>)
    requires Enabled(bs, s, pick) && pick.Consume?
    ensures var s' := Step(bs, s, pick); s'.producer == s.producer && SameRecords(s.mem.q, s'.mem.q)
  {
    hide Shape, LookupSlot, StoreValue, Range;
  }

  /** A call to enqueue or enqueue_bulk, however it interleaves with the consumers: until it returns, and if
      it fails, nothing of it is enqueued; when it succeeds, all its items are, in order. */
  lemma {:induction false} AllOrNothing<V>(bs: nat, states: seq<State<V>>, picks: seq<Pick<V>>, i: nat, j: nat)
    requires Run(bs, states, picks) && AsksFor(picks, 1) && InCall(states, i, j) && picks[i].Produce?
    ensures ItemsAre(states[j].producer, picks[i].items)
    ensures if states[j].producer.PIdle? && states[j].producer.ok
            then states[j].mem.q.log == states[i].mem.q.log + picks[i].items
            else SameRecords(states[i].mem.q, states[j].mem.q)
  {
    assert |states| == |picks| + 1;
    hide Inv, Enabled, Run, Step, ItemsAre, AsksFor, Start, Follows, SameRecords;
    RunInv(bs, states, picks, j - 1);
    if i + 1 == j {
      CallStarts(bs, states[i], picks[i]);
    } else {
      AllOrNothing(bs, states, picks, i, j - 1);
      CallGoesOn(bs, states[j - 1], picks[j - 1], states[i].mem.q, picks[i].items);
    }
  }

  /** What the call has done to the records by now. */
  predicate Done<V(==)>(q: Queue<V>, s: State<V>, items: seq<V>) {
    && ItemsAre(s.producer, items)
    && if s.producer.PIdle? && s.producer.ok then s.mem.q.log == q.log + items else SameRecords(q, s.mem.q)
  }

  lemma CallStarts<V>(bs: nat, s: State<V>, pick: Pick<V>)
    requires Enabled(bs, s, pick) && pick.Produce? && s.producer.PIdle?
    ensures Done(s.mem.q, Step(bs, s, pick), pick.items)
  {
    StartsBusy(bs, s, pick);
    CallStep(bs, s, pick, pick.items);
    hide Step, Enabled;
  }

  lemma CallGoesOn<V>(bs: nat, s: State<V>, pick: Pick<V>, q: Queue<V>, items: seq<V>)
    requires Enabled(bs, s, pick) && !s.producer.PIdle? && Done(q, s, items)
    ensures Done(q, Step(bs, s, pick), items)
  {
    hide Step, Enabled, ItemsAre;
    if pick.Produce? { CallStep(bs, s, pick, items); } else { ConsumersDontEnqueue(bs, s, pick); }
  }

  lemma StartsBusy<V>(bs: nat, s: State<V>, pick: Pick<V>)
    requires Enabled(bs, s, pick) && pick.Produce? && s.producer.PIdle?
    ensures !Step(bs, s, pick).producer.PIdle?
    ensures ItemsAre(s.producer, pick.items)
  {
  }

  /** Between calls the index and the storage show no trace of failed ones: the index tail stands at the last
      published block, no entry past it names a block, and every storage block is on the free list or
      serves a published block that was not freed. */
  lemma TidyBetweenCalls<V>(bs: nat, states: seq<State<V>>, picks: seq<Pick<V>>, i: nat)
    requires Run(bs, states, picks) && AsksFor(picks, 1) && i < |states| && states[i].producer.PIdle?
    ensures var q, ix, st := states[i].mem.q, states[i].mem.ix, states[i].mem.store;
      && |ix.headers| > 0 && HeaderOk(ix, Current(ix)) && |st.holder| == |st.blocks|
      && Current(ix).count == |q.blockOf| == BlockCount(bs, |q.log|)
      && (forall k :: |q.blockOf| <= k < ix.high ==> EntryOf(ix, k).value == None)
      && (forall b :: 0 <= b < |st.holder| && st.holder[b].Some? ==>
            var k := st.holder[b].value; k < |q.blockOf| && k !in q.freed && b == q.blockOf[k])
  {
    RunInv(bs, states, picks, i);
    hide ElementsOk, CountersOk, ConsumersOk, Run;
  }
}
