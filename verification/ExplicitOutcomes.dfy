/** What a call to enqueue of an explicit producer does, when it succeeds, and that it returns
    (external/cameron314/concurrentqueue.h, ExplicitProducer). */
module ExplicitOutcomes {
  import opened Blocks
  import opened ExplicitRing
  import opened ExplicitRuns
  import opened Options

  /** The producer's call that starts with step i is going on in state j, or has just ended there. */
  ghost predicate InCall<V>(states: seq<State<V>>, picks: seq<Pick<V>>, i: nat, j: nat) {
    && |states| == |picks| + 1 && i < j < |states| && picks[i].Produce? && states[i].producer.PIdle?
    && forall x :: i < x < j ==> !states[x].producer.PIdle?
  }

  /** Room is refused: by the limit on the sub-queue's size, or a block's memory, or a full index's. */
  predicate Refuses<V>(s: State<V>, pick: Pick<V>) {
    && pick.Produce? && |s.mem.headers| > 0
    && match s.producer
       case PNew(_) => pick.limit || (s.mem.ring.slotsUsed >= Current(s.mem.headers).size && !pick.grow)
       case PGet(_) => pick.supply.Nothing?
       case _ => false
  }

  /** There is no block ahead in the ring, or an element of it is not flagged as dequeued. */
  predicate FindsNone<V>(s: State<V>, pick: Pick<V>) {
    && pick.Produce?
    && match s.producer
       case PIdle(_) => s.mem.ring.blocks == []
       case PScan(_, i) =>
         var ring := s.mem.ring.blocks;
         ring != [] && ring[0] < |s.mem.store| && i < |s.mem.store[ring[0]].flags| && !s.mem.store[ring[0]].flags[i]
       case _ => false
  }

  predicate AsksForBlock<V>(p: Producer<V>) { p.PNew? || p.PGet? }

  /** The item a call is about. */
  predicate ItemIs<V(==)>(p: Producer<V>, v: V) { p.PIdle? || p.v == v }

  /** What one step of a call does. */
  lemma CallStep<V>(bs: nat, s: State<V>, pick: Pick<V>, v: V)
    requires Inv(bs, s) && Enabled(bs, s, pick) && pick.Produce? && ItemIs(s.producer, v) && (s.producer.PIdle? ==> pick.v == v)
    ensures var s' := Step(bs, s, pick);
            && ItemIs(s'.producer, v)
            && (s.producer.PIdle? ==> !s'.producer.PIdle?)
            && s'.mem.q.log == s.mem.q.log + (if s'.producer.PIdle? && s'.producer.ok then [v] else [])
            && (s'.producer.PIdle? && !s'.producer.ok ==> AsksForBlock(s.producer) && Refuses(s, pick))
            && (AsksForBlock(s'.producer) ==> AsksForBlock(s.producer) || FindsNone(s, pick))
  {
    hide ConsumersOk, StartedOk, RingOk, IndexOk, ElementsOk, FlagsOk;
  }

  lemma ConsumersDontEnqueue<V>(bs: nat, s: State<V>, pick: Pick<V>)
    requires Enabled(bs, s, pick) && pick.Consume?
    ensures var s' := Step(bs, s, pick); s'.producer == s.producer && s'.mem.q.log == s.mem.q.log
  {
  }

  lemma {:induction false} CallGoesOn<V>(bs: nat, states: seq<State<V>>, picks: seq<Pick<V>>, i: nat, j: nat)
    requires Run(bs, states, picks) && InCall(states, picks, i, j)
    ensures ItemIs(states[j].producer, picks[i].v)
    ensures states[j].mem.q.log == states[i].mem.q.log + (if states[j].producer.PIdle? && states[j].producer.ok then [picks[i].v] else [])
  {
    hide Inv, Enabled, Run, Step, ItemIs;
    var s, pick := states[j - 1], picks[j - 1];
    RunInv(bs, states, picks, j - 1);
    if i + 1 < j { CallGoesOn(bs, states, picks, i, j - 1); } else { IdleItem(s.producer, pick.v); }
    if pick.Produce? { CallStep(bs, s, pick, picks[i].v); } else { ConsumersDontEnqueue(bs, s, pick); }
  }

  lemma IdleItem<V>(p: Producer<V>, v: V)
    requires p.PIdle?
    ensures ItemIs(p, v)
  {
  }

  /** A call that asks for a block has found none to reuse. */
  lemma {:induction false} FoundNone<V>(bs: nat, states: seq<State<V>>, picks: seq<Pick<V>>, i: nat, j: nat) returns (k: nat)
    requires Run(bs, states, picks) && InCall(states, picks, i, j) && AsksForBlock(states[j].producer)
    ensures i <= k < j && FindsNone(states[k], picks[k])
  {
    hide Inv, Enabled, Run, Step, ItemIs, FindsNone, Refuses;
    var s, pick := states[j - 1], picks[j - 1];
    RunInv(bs, states, picks, j - 1);
    if i + 1 < j { CallGoesOn(bs, states, picks, i, j - 1); } else { IdleItem(s.producer, pick.v); }
    if pick.Produce? { CallStep(bs, s, pick, picks[i].v); } else { ConsumersDontEnqueue(bs, s, pick); }
    if AsksForBlock(s.producer) { k := FoundNone(bs, states, picks, i, j - 1); } else { k := j - 1; }
  }

  /** Over every run: a call to enqueue that returns true has enqueued its item, after everything there was; one that
      returns false has enqueued nothing, was refused room at a step of its own, and had found no block to reuse. */
  lemma EnqueueReports<V>(bs: nat, states: seq<State<V>>, picks: seq<Pick<V>>, i: nat, j: nat) returns (k: nat, l: nat)
    requires Run(bs, states, picks) && InCall(states, picks, i, j) && states[j].producer.PIdle?
    ensures i <= l <= k < j
    ensures if states[j].producer.ok then states[j].mem.q.log == states[i].mem.q.log + [picks[i].v]
            else states[j].mem.q.log == states[i].mem.q.log && Refuses(states[k], picks[k]) && FindsNone(states[l], picks[l])
  {
    hide Inv, Enabled, Run, Step, FindsNone, Refuses, ItemIs;
    CallGoesOn(bs, states, picks, i, j);
    k, l := j - 1, i;
    if !states[j].producer.ok {
      var s, pick := states[j - 1], picks[j - 1];
      RunInv(bs, states, picks, j - 1);
      if i + 1 < j { CallGoesOn(bs, states, picks, i, j - 1); } else { IdleItem(s.producer, pick.v); }
      if pick.Produce? { CallStep(bs, s, pick, picks[i].v); } else { ConsumersDontEnqueue(bs, s, pick); }
      l := FoundNone(bs, states, picks, i, j - 1);
    }
  }

  // ---- Every call returns -------------------------------------------------------------------------------------------

  /** At least as many steps as the call has still to take. */
  function Rank<V>(bs: nat, p: Producer<V>): int {
    match p
    case PIdle(_) => 0
    case PScan(_, i) => 2 * bs - i + 6
    case PNew(_) => bs + 6
    case PGet(_) => bs + 5
    case PReset(_, i) => bs - i + 4
    case PEntry(_) => 4
    case PFront(_) => 3
    case PFill(_) => 2
    case PPublish(_) => 1
  }

  /** A requisition names a block of the free list that is not there. */
  predicate NotFree<V>(s: State<V>, pick: Pick<V>) {
    && s.producer.PGet? && pick.Produce? && pick.supply.FromFreeList?
    && !(pick.supply.block < |s.mem.store| && pick.supply.block !in s.mem.ring.blocks)
  }

  /** Each step of the producer brings its call nearer to its end. */
  lemma ProducerAdvances<V>(bs: nat, s: State<V>, pick: Pick<V>)
    requires pick.Produce? && Enabled(bs, s, pick) && !NotFree(s, pick)
    ensures var p' := Step(bs, s, pick).producer;
            if s.producer.PIdle? then Rank(bs, p') <= 2 * bs + 6 else Rank(bs, p') < Rank(bs, s.producer)
    ensures Rank(bs, s.producer) >= 0
  {
  }

  /** How many of the picks from lo to before hi are the producer's. */
  function Produced<V>(picks: seq<Pick<V>>, lo: nat, hi: nat): nat
    requires hi <= |picks|
  { if hi <= lo then 0 else Produced(picks, lo, hi - 1) + if picks[hi - 1].Produce? then 1 else 0 }

  /** However it interleaves with the consumers, a call to enqueue takes at most so many steps before it returns. */
  lemma {:induction false} EnqueueReturns<V>(bs: nat, states: seq<State<V>>, picks: seq<Pick<V>>, i: nat, j: nat)
    requires Run(bs, states, picks) && InCall(states, picks, i, j)
    requires forall x :: i < x < j ==> !NotFree(states[x], picks[x])
    ensures Produced(picks, i, j) + Rank(bs, states[j].producer) <= 2 * bs + 7
  {
    hide Inv, Enabled, Run, Step, NotFree, Rank;
    var s, pick := states[j - 1], picks[j - 1];
    RunInv(bs, states, picks, j - 1);
    if i + 1 == j {
      IdleIsFree(s, pick);
      assert Produced(picks, i, i) == 0;
    } else {
      EnqueueReturns(bs, states, picks, i, j - 1);
    }
    if pick.Produce? { ProducerAdvances(bs, s, pick); } else { ConsumersDontEnqueue(bs, s, pick); }
  }

  lemma IdleIsFree<V>(s: State<V>, pick: Pick<V>)
    requires s.producer.PIdle?
    ensures !NotFree(s, pick)
  {
  }

  // ---- Every dequeue with a claim returns ------------------------------------------------------------------------------

  /** The claim of consumer t that begins with step i is not over in state l. */
  ghost predicate InClaim<V>(states: seq<State<V>>, picks: seq<Pick<V>>, t: nat, i: nat, l: nat) {
    && |states| == |picks| + 1 && i < l <= |picks| && picks[i].Consume? && picks[i].thread == t
    && (forall x :: i <= x <= l ==> t < |states[x].consumers|) && states[i].consumers[t].CIdle?
    && forall x :: i < x <= l ==> !states[x].consumers[t].CIdle?
  }

  /** At least as many steps as the consumer has still to take. */
  function Left<V>(c: Consumer<V>): int {
    match c
    case CIdle(_, _) => 0
    case CHeader(j) => 3 * (j.end - j.cur) + 4
    case CFront(j) => 3 * (j.end - j.cur) + 3
    case CBase(j, _) => 3 * (j.end - j.cur) + 2
    case CBlock(j) => 3 * (j.end - j.cur) + 1
    case CMove(j) => 3 * (j.end - j.cur) + (j.cur - j.from)
    case CFlag(j, to) => 3 * (j.end - j.cur) + (to - j.from) + 1
  }

  /** The claim's marks are in order. */
  predicate InOrder<V>(c: Consumer<V>) {
    match c
    case CIdle(_, _) => true
    case CMove(j) => j.from <= j.cur < j.end
    case CFlag(j, to) => j.from < to && j.cur <= j.end
    case _ => c.job.from == c.job.cur < c.job.end
  }

  lemma InvInOrder<V>(bs: nat, s: State<V>, t: nat)
    requires Inv(bs, s) && t < |s.consumers|
    ensures InOrder(s.consumers[t])
  {
    OneConsumer(bs, s, t);
    hide Inv, Reaches, SlotIs, HasBlock, QueueOk;
  }

  lemma StepAdvances<V>(bs: nat, m: Memory<V>, c: Consumer<V>, want: nat)
    requires Shape(bs, m) && ConsumerInRange(bs, m, c) && !c.CIdle? && InOrder(c)
    ensures var c' := ConsumerStep(bs, m, c, want).1; c' == c || c'.CIdle? || Left(c') < Left(c)
    ensures Left(c) > 0
  {
    hide LookupSlot, MoveOut, SetFlag;
  }

  lemma ConsumerAdvances<V>(bs: nat, s: State<V>, t: nat, want: nat)
    requires Inv(bs, s) && t < |s.consumers| && !s.consumers[t].CIdle? && Enabled(bs, s, Consume(t, want))
    ensures var c' := Step(bs, s, Consume(t, want)).consumers[t]; c'.CIdle? || Left(c') < Left(s.consumers[t])
    ensures Left(s.consumers[t]) > 0
  {
    hide Inv, ConsumerStep, Left, InOrder, Shape, ConsumerInRange;
    ConsumerKeeps(bs, s, t, want);
    InvInOrder(bs, s, t);
    StepAdvances(bs, s.mem, s.consumers[t], want);
  }

  lemma OthersLeave<V>(bs: nat, s: State<V>, pick: Pick<V>, t: nat)
    requires Enabled(bs, s, pick) && t < |s.consumers| && (pick.Consume? ==> pick.thread != t)
    ensures Step(bs, s, pick).consumers[t] == s.consumers[t]
  {
  }

  lemma ClaimStarts<V>(bs: nat, s: State<V>, t: nat, want: nat)
    requires t < |s.consumers| && s.consumers[t].CIdle? && Enabled(bs, s, Consume(t, want))
    ensures var c' := Step(bs, s, Consume(t, want)).consumers[t]; c'.CIdle? || Left(c') == 3 * want + 4
  {
  }

  /** How many of the picks from lo to before hi are consumer t's. */
  function Consumed<V>(picks: seq<Pick<V>>, t: nat, lo: nat, hi: nat): nat
    requires hi <= |picks|
  { if hi <= lo then 0 else Consumed(picks, t, lo, hi - 1) + if picks[hi - 1].Consume? && picks[hi - 1].thread == t then 1 else 0 }

  /** However it interleaves with the producer and the other consumers, a dequeue with a claim takes no more than three steps for
      each element of it, and five, before it returns. */
  lemma {:induction false} DequeueReturns<V>(bs: nat, states: seq<State<V>>, picks: seq<Pick<V>>, t: nat, i: nat, l: nat)
    requires Run(bs, states, picks) && InClaim(states, picks, t, i, l)
    ensures Consumed(picks, t, i, l) + Left(states[l].consumers[t]) <= 3 * picks[i].want + 5
  {
    hide Inv, Enabled, Run, Step, Left;
    RunInv(bs, states, picks, l - 1);
    var s, pick := states[l - 1], picks[l - 1];
    if i + 1 < l {
      DequeueReturns(bs, states, picks, t, i, l - 1);
      if pick.Consume? && pick.thread == t { ConsumerAdvances(bs, s, t, pick.want); } else { OthersLeave(bs, s, pick, t); }
    } else {
      assert Consumed(picks, t, i, i) == 0;
      ClaimStarts(bs, s, t, pick.want);
    }
  }
}
