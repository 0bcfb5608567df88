/** When a call to enqueue or enqueue_bulk of an implicit producer succeeds, and that it returns
    (external/cameron314/concurrentqueue.h, ImplicitProducer). */
module ImplicitOutcomes {
  import opened Blocks
  import opened ImplicitIndex
  import opened ImplicitQueue
  import opened ImplicitConsumers
  import opened ImplicitRuns
  import opened Options

  /** Memory is refused: a block, or a larger index when the one there has no room. */
  predicate Refuses<V>(bs: nat, s: State<V>, pick: Pick<V>) {
    && pick.Produce? && Shape(bs, s.mem)
    && ((s.producer.PGet? && pick.supply.Nothing?) || (s.producer.PRoom? && !HasRoom(s.mem.ix) && !pick.grow))
  }

  predicate Undoing<V>(p: Producer<V>) { p.PBackTail? || p.PBackClear? || p.PUndoClear? || p.PUndoTail? || p.PUndoFree? }

  lemma StepUndoes<V>(bs: nat, s: State<V>, pick: Pick<V>)
    requires Enabled(bs, s, pick) && pick.Produce?
    ensures var p' := Step(bs, s, pick).producer;
            Undoing(p') || (p'.PIdle? && !p'.ok) ==> Undoing(s.producer) || Refuses(bs, s, pick)
  {
    hide Grow, StoreKey, StoreTail, Rewind, StoreValue, LookupSlot, HasRoom, HeaderOk;
  }

  /** A call that is undoing, or has failed, was refused memory. */
  lemma {:induction false} WasRefused<V>(bs: nat, states: seq<State<V>>, picks: seq<Pick<V>>, i: nat, j: nat) returns (k: nat)
    requires Run(bs, states, picks) && AsksFor(picks, 1) && InCall(states, i, j) && picks[i].Produce?
    requires Undoing(states[j].producer) || (states[j].producer.PIdle? && !states[j].producer.ok)
    ensures i <= k < j && Refuses(bs, states[k], picks[k])
  {
    assert |states| == |picks| + 1;
    hide Inv, Enabled, Run, Step, AsksFor, Undoing, Refuses;
    RunInv(bs, states, picks, j - 1);
    var s, pick := states[j - 1], picks[j - 1];
    if pick.Produce? { StepUndoes(bs, s, pick); } else { ConsumersDontEnqueue(bs, s, pick); }
    if Refuses(bs, s, pick) {
      k := j - 1;
    } else if i + 1 < j {
      k := WasRefused(bs, states, picks, i, j - 1);
    } else {
      NotUndoing(s.producer);
    }
  }

  lemma NotUndoing<V>(p: Producer<V>)
    ensures p.PIdle? ==> !Undoing(p)
  {
  }

  /** Over every run: a call that returns false was refused memory at a step of its own, and has enqueued nothing; so
      one that is never refused memory returns true, with all its items enqueued in order. */
  lemma EnqueueReports<V>(bs: nat, states: seq<State<V>>, picks: seq<Pick<V>>, i: nat, j: nat) returns (k: nat)
    requires Run(bs, states, picks) && AsksFor(picks, 1) && InCall(states, i, j) && picks[i].Produce? && states[j].producer.PIdle?
    ensures i <= k < j
    ensures if states[j].producer.ok then states[j].mem.q.log == states[i].mem.q.log + picks[i].items
            else Refuses(bs, states[k], picks[k]) && states[j].mem.q.log == states[i].mem.q.log
    ensures (forall x :: i <= x < j ==> !Refuses(bs, states[x], picks[x])) ==>
              states[j].producer.ok && states[j].mem.q.log == states[i].mem.q.log + picks[i].items
  {
    assert |states| == |picks| + 1;
    hide Inv, Enabled, Run, Step, AsksFor, Undoing, Refuses;
    AllOrNothing(bs, states, picks, i, j);
    if states[j].producer.ok { k := i; } else { k := WasRefused(bs, states, picks, i, j); }
  }

  // ---- Every call returns -------------------------------------------------------------------------------------------

  /** How many blocks the items need besides those there are. */
  function NewBlocks<V>(bs: nat, q: Queue<V>, items: seq<V>): int
    requires bs > 0
  { BlockCount(bs, q.tailIndex + |items|) - BlockCount(bs, q.tailIndex) }

  function Ahead<V>(bs: nat, q: Queue<V>, items: seq<V>, mine: seq<nat>): int
    requires bs > 0
  { 9 * (NewBlocks(bs, q, items) - |mine|) + |items| + 3 * |mine| + 4 }

  /** At least as many steps as the call has still to take. */
  function Rank<V>(bs: nat, q: Queue<V>, p: Producer<V>): int
    requires bs > 0
  {
    match p
    case PIdle(_) => 0
    case PRoom(items, mine) => Ahead(bs, q, items, mine)
    case PKey(items, mine) => Ahead(bs, q, items, mine) - 1
    case PTail(items, mine, _) => Ahead(bs, q, items, mine) - 2
    case PGet(items, mine, _) => Ahead(bs, q, items, mine) - 3
    case PReset(items, mine, _, _) => Ahead(bs, q, items, mine) - 4
    case PValue(items, mine, _, _) => Ahead(bs, q, items, mine) - 5
    case PBackTail(mine, _) => 3 * |mine| + 2
    case PBackClear(mine, _) => 3 * |mine| + 1
    case PUndoClear(mine, d) => |mine| + 2 * (|mine| - d)
    case PUndoTail(mine, d) => |mine| + 2 * (|mine| - d) - 1
    case PUndoFree(mine, d) => |mine| - d
    case PFill(items, _, d) => |items| - d + 1
    case PPublish(_, _) => 1
  }

  /** A requisition names a block of the free list that is not there. */
  predicate NotFree<V>(s: State<V>, pick: Pick<V>) {
    && s.producer.PGet? && pick.Produce? && pick.supply.FromFreeList?
    && !(pick.supply.block < |s.mem.store.blocks| && pick.supply.block < |s.mem.store.holder| && s.mem.store.holder[pick.supply.block] == None)
  }

  lemma IndexAdvances<V>(bs: nat, s: State<V>, pick: Pick<V>)
    requires Inv(bs, s) && pick.Produce? && Enabled(bs, s, pick)
    requires s.producer.PBackTail? || s.producer.PUndoClear? || s.producer.PUndoTail?
    ensures Rank(bs, s.mem.q, Step(bs, s, pick).producer) < Rank(bs, s.mem.q, s.producer)
  {
    hide HoldersOk, ElementsOk, CountersOk, ConsumersOk, LookupSlot, StoreValue, Rewind, QueueOk, BlockCount;
    if s.producer.PUndoClear? { UndoFinds(bs, s.mem.q, s.mem.ix, s.producer); }
  }

  lemma FillAdvances<V>(bs: nat, s: State<V>, pick: Pick<V>)
    requires Inv(bs, s) && pick.Produce? && Enabled(bs, s, pick) && s.producer.PFill?
    ensures Rank(bs, s.mem.q, Step(bs, s, pick).producer) < Rank(bs, s.mem.q, s.producer)
  {
    hide ValuesOk, ElementsOk, CountersOk, ConsumersOk;
    TargetServes(bs, s.mem.q, s.mem.store, s.producer, s.mem.q.tailIndex + s.producer.done);
  }

  /** Each step of the producer brings its call nearer to its end. */
  lemma ProducerAdvances<V>(bs: nat, s: State<V>, pick: Pick<V>)
    requires Inv(bs, s) && pick.Produce? && Enabled(bs, s, pick) && !s.producer.PIdle? && !NotFree(s, pick)
    ensures var s' := Step(bs, s, pick);
            s'.producer.PIdle? || Rank(bs, s'.mem.q, s'.producer) < Rank(bs, s.mem.q, s.producer)
  {
    hide ValuesOk, HoldersOk, ElementsOk, CountersOk, ConsumersOk, QueueOk;
    hide Grow, StoreKey, StoreTail, Rewind, StoreValue, LookupSlot, HasRoom, HeaderOk, BlockCount;
    if s.producer.PBackTail? || s.producer.PUndoClear? || s.producer.PUndoTail? {
      IndexAdvances(bs, s, pick);
    } else if s.producer.PFill? {
      FillAdvances(bs, s, pick);
    }
  }

  /** How many of the picks from lo to before hi are the producer's. */
  function Produced<V>(picks: seq<Pick<V>>, lo: nat, hi: nat): nat
    requires hi <= |picks|
  { if hi <= lo then 0 else Produced(picks, lo, hi - 1) + if picks[hi - 1].Produce? then 1 else 0 }

  lemma RankPositive<V>(bs: nat, s: State<V>)
    requires Inv(bs, s) && !s.producer.PIdle?
    ensures Rank(bs, s.mem.q, s.producer) > 0
  {
    hide ValuesOk, HoldersOk, ElementsOk, CountersOk, ConsumersOk, QueueOk;
  }

  lemma StartRank<V>(bs: nat, s: State<V>, pick: Pick<V>)
    requires Enabled(bs, s, pick) && pick.Produce? && s.producer.PIdle?
    ensures var s' := Step(bs, s, pick); Rank(bs, s'.mem.q, s'.producer) <= 9 * NewBlocks(bs, s.mem.q, pick.items) + |pick.items| + 4
  {
    BlockCountMonotone(bs, s.mem.q.tailIndex, |pick.items|);
  }

  lemma {:induction false} CallAdvances<V>(bs: nat, states: seq<State<V>>, picks: seq<Pick<V>>, i: nat, j: nat)
    requires Run(bs, states, picks) && AsksFor(picks, 1) && InCall(states, i, j) && picks[i].Produce? && !states[j].producer.PIdle?
    requires forall x :: i < x < j ==> !NotFree(states[x], picks[x])
    ensures Produced(picks, i + 1, j) + Rank(bs, states[j].mem.q, states[j].producer)
              <= 9 * NewBlocks(bs, states[i].mem.q, picks[i].items) + |picks[i].items| + 4
  {
    assert |states| == |picks| + 1;
    hide Inv, Enabled, Run, Step, AsksFor, NotFree, Rank, NewBlocks;
    RunInv(bs, states, picks, j - 1);
    if i + 1 == j {
      StartRank(bs, states[i], picks[i]);
    } else {
      CallAdvances(bs, states, picks, i, j - 1);
      if picks[j - 1].Produce? {
        ProducerAdvances(bs, states[j - 1], picks[j - 1]);
      } else {
        ConsumersDontEnqueue(bs, states[j - 1], picks[j - 1]);
        SameRank(bs, states[j - 1].mem.q, states[j].mem.q, states[j].producer);
      }
    }
  }

  lemma SameRank<V>(bs: nat, q: Queue<V>, q': Queue<V>, p: Producer<V>)
    requires bs > 0 && SameRecords(q, q')
    ensures Rank(bs, q, p) == Rank(bs, q', p)
  {
  }

  /** However it interleaves with the consumers, a call to enqueue that has not returned has taken no more steps than nine
      for each new block, one for each item, and four. */
  lemma EnqueueReturns<V>(bs: nat, states: seq<State<V>>, picks: seq<Pick<V>>, i: nat, j: nat)
    requires Run(bs, states, picks) && AsksFor(picks, 1) && InCall(states, i, j) && picks[i].Produce? && !states[j].producer.PIdle?
    requires forall x :: i < x < j ==> !NotFree(states[x], picks[x])
    ensures Produced(picks, i, j) <= 9 * NewBlocks(bs, states[i].mem.q, picks[i].items) + |picks[i].items| + 4
  {
    hide Inv, Enabled, Step, AsksFor, NotFree, Rank, NewBlocks;
    CallAdvances(bs, states, picks, i, j);
    RunInv(bs, states, picks, j);
    RankPositive(bs, states[j]);
    ProducedFirst(picks, i, j);
  }

  lemma {:induction false} ProducedFirst<V>(picks: seq<Pick<V>>, i: nat, j: nat)
    requires i < j <= |picks| && picks[i].Produce?
    ensures Produced(picks, i, j) == 1 + Produced(picks, i + 1, j)
  {
    if i + 1 < j { ProducedFirst(picks, i, j - 1); }
  }

  // ---- Every dequeue with a claim returns ------------------------------------------------------------------------------

  /** The claim of consumer t that begins with step i is not over in state l. */
  ghost predicate InClaim<V>(states: seq<State<V>>, picks: seq<Pick<V>>, t: nat, i: nat, l: nat) {
    && |states| == |picks| + 1 && i < l <= |picks| && picks[i].Consume? && picks[i].thread == t
    && (forall x :: i <= x <= l ==> t < |states[x].consumers|) && states[i].consumers[t].CIdle?
    && forall x :: i < x <= l ==> !states[x].consumers[t].CIdle?
  }

  /** At least as many steps as the consumer has still to take. */
  function Left<V>(c: Consumer<V>): int {
    match c
    case CIdle(_, _) => 0
    case CHeader(j) => 5 * (j.end - j.cur) + 4
    case CTail(j) => 5 * (j.end - j.cur) + 3
    case CKey(j, _) => 5 * (j.end - j.cur) + 2
    case CValue(j) => 5 * (j.end - j.cur) + 1
    case CMove(j) => 5 * (j.end - j.cur)
    case CEmpty(j) => 5 * (j.end - j.cur) + 4
    case CClear(j) => 5 * (j.end - j.cur) + 3
    case CFree(j) => 5 * (j.end - j.cur) + 2
  }

  /** The claim's marks are in order. */
  predicate InOrder<V>(c: Consumer<V>) {
    match c
    case CIdle(_, _) => true
    case CEmpty(j) => j.cur <= j.end
    case CClear(j) => j.cur <= j.end
    case CFree(j) => j.cur <= j.end
    case _ => c.job.cur < c.job.end
  }

  lemma InvInOrder<V>(bs: nat, s: State<V>, t: nat)
    requires Inv(bs, s) && t < |s.consumers|
    ensures InOrder(s.consumers[t])
  {
    OneConsumer(bs, s, t);
    hide Inv, Reaches, SlotIs, HasBlock, QueueOk;
  }

  lemma StepAdvances<V>(bs: nat, m: Memory<V>, c: Consumer<V>, want: nat)
    requires Shape(bs, m) && ConsumerInRange(m, c) && !c.CIdle? && InOrder(c)
    ensures var c' := ConsumerStep(bs, m, c, want).1; c' == c || c'.CIdle? || Left(c') < Left(c)
    ensures Left(c) > 0
  {
    hide LookupSlot, StoreValue, Range;
  }

  lemma ConsumerAdvances<V>(bs: nat, s: State<V>, t: nat, want: nat)
    requires Inv(bs, s) && t < |s.consumers| && !s.consumers[t].CIdle? && Enabled(bs, s, Consume(t, want))
    ensures var c' := Step(bs, s, Consume(t, want)).consumers[t]; c'.CIdle? || Left(c') < Left(s.consumers[t])
    ensures Left(s.consumers[t]) > 0
  {
    hide Inv, ConsumerStep, Left, InOrder, Shape, ConsumerInRange;
    ConsumerKeeps(bs, s, t, want);
    InvInOrder(bs, s, t);
    StepAdvances(bs, s.mem, s.consumers[t], want);
  }

  lemma OthersLeave<V>(bs: nat, s: State<V>, pick: Pick<V>, t: nat)
    requires Enabled(bs, s, pick) && t < |s.consumers| && (pick.Consume? ==> pick.thread != t)
    ensures Step(bs, s, pick).consumers[t] == s.consumers[t]
  {
  }

  lemma ClaimStarts<V>(bs: nat, s: State<V>, t: nat, want: nat)
    requires t < |s.consumers| && s.consumers[t].CIdle? && Enabled(bs, s, Consume(t, want))
    ensures var c' := Step(bs, s, Consume(t, want)).consumers[t]; c'.CIdle? || Left(c') == 5 * want + 4
  {
  }

  /** How many of the picks from lo to before hi are consumer t's. */
  function Consumed<V>(picks: seq<Pick<V>>, t: nat, lo: nat, hi: nat): nat
    requires hi <= |picks|
  { if hi <= lo then 0 else Consumed(picks, t, lo, hi - 1) + if picks[hi - 1].Consume? && picks[hi - 1].thread == t then 1 else 0 }

  /** However it interleaves with the producer and the other consumers, a dequeue with a claim takes no more than five steps for
      each element of it, and five, before it returns. */
  lemma {:induction false} DequeueReturns<V>(bs: nat, states: seq<State<V>>, picks: seq<Pick<V>>, t: nat, i: nat, l: nat)
    requires Run(bs, states, picks) && AsksFor(picks, 1) && InClaim(states, picks, t, i, l)
    ensures Consumed(picks, t, i, l) + Left(states[l].consumers[t]) <= 5 * picks[i].want + 5
  {
    hide Inv, Enabled, Run, Step, Left, AsksFor;
    RunInv(bs, states, picks, l - 1);
    var s, pick := states[l - 1], picks[l - 1];
    if i + 1 < l {
      DequeueReturns(bs, states, picks, t, i, l - 1);
      if pick.Consume? && pick.thread == t { ConsumerAdvances(bs, s, t, pick.want); } else { OthersLeave(bs, s, pick, t); }
    } else {
      assert Consumed(picks, t, i, i) == 0;
      ClaimStarts(bs, s, t, pick.want);
    }
  }
}
