/** The optimistic dequeue protocol shared by ExplicitProducer and ImplicitProducer
    (external/cameron314/concurrentqueue.h): how single and bulk dequeues claim indices of one sub-queue.
    Every atomic access is one step; the producer is a step that moves tailIndex on.  Indices are
    unbounded naturals here; module Circular links them to the 64-bit counters. */
module DequeueCounters {

  datatype Want = Single | Bulk(max: nat)

  datatype Pc =
    | Idle(first: nat, count: nat)                            // the indices the latest call claimed
    | LoadOvercommit(tail: nat, want: Want)
    | LoadOptimistic(tail: nat, overcommit: nat, want: Want)
    | Claim(overcommit: nat, desired: nat)                    // about to add to dequeueOptimisticCount
    | Check(mine: nat, overcommit: nat, desired: nat)         // claimed, about to reload tailIndex
    | GiveBack(extra: nat, actual: nat)                       // about to add extra to dequeueOvercommit
    | Take(actual: nat)                                       // about to add to headIndex

  datatype Pick = Produce(count: nat) | Consume(thread: nat, want: Want)

  datatype Counters = Counters(tailIndex: nat, headIndex: nat, optimisticCount: nat, overcommit: nat)

  datatype State = State(mem: Counters, threads: seq<Pc>)

  function Min(a: int, b: int): int { if a < b then a else b }

  /** What the thread does once it has reloaded tailIndex. */
  function Decide(tail: nat, pc: Pc): (r: Pc)
    requires pc.Check?
  {
    var available: int := tail - (pc.mine - pc.overcommit);
    if available > 0 then
      var actual := Min(pc.desired, available);
      if actual < pc.desired then GiveBack(pc.desired - actual, actual) else Take(actual)
    else
      GiveBack(pc.desired, 0)
  }

  /** One atomic access by a dequeuing thread at pc. */
  function Access(m: Counters, pc: Pc, want: Want): (Counters, Pc) {
    match pc
    case Idle(_, _) => (m, LoadOvercommit(m.tailIndex, want))
    case LoadOvercommit(tail, w) => (m, LoadOptimistic(tail, m.overcommit, w))
    case LoadOptimistic(tail, oc, w) =>
      var seen: int := tail - (m.optimisticCount - oc);
      if seen > 0 then
        (m, Claim(oc, match w case Single => 1 case Bulk(max) => Min(seen, max)))
      else
        (m, Idle(0, 0))
    case Claim(oc, d) =>
      (m.(optimisticCount := m.optimisticCount + d), Check(m.optimisticCount, oc, d))
    case Check(_, _, _) => (m, Decide(m.tailIndex, pc))
    case GiveBack(extra, actual) =>
      (m.(overcommit := m.overcommit + extra), if actual > 0 then Take(actual) else Idle(0, 0))
    case Take(actual) =>
      (m.(headIndex := m.headIndex + actual), Idle(m.headIndex, actual))
  }

  predicate Enabled(s: State, pick: Pick) { pick.Consume? ==> pick.thread < |s.threads| }

  function Step(s: State, pick: Pick): State
    requires Enabled(s, pick)
  {
    match pick
    case Produce(k) => s.(mem := s.mem.(tailIndex := s.mem.tailIndex + k))
    case Consume(t, want) =>
      var (m, pc) := Access(s.mem, s.threads[t], want);
      State(m, s.threads[t := pc])
  }

  function Init(threadCount: nat): State {
    State(Counters(0, 0, 0, 0), seq(threadCount, _ => Idle(0, 0)))
  }

  // ---- Sums over the threads -----------------------------------------------------------------------

  /** Claimed and not yet settled. */
  function Unsettled(pc: Pc): nat {
    match pc
    case Check(_, _, d) => d
    case GiveBack(extra, actual) => extra + actual
    case Take(actual) => actual
    case _ => 0
  }

  /** Promised to the thread and not yet taken from headIndex. */
  function Granted(pc: Pc): nat {
    match pc
    case GiveBack(_, actual) => actual
    case Take(actual) => actual
    case _ => 0
  }

  /** Claimed before the claim at mark, and still undecided. */
  function Undecided(pc: Pc, mark: nat): nat {
    if pc.Check? && pc.mine < mark then pc.desired else 0
  }

  function AllUnsettled(threads: seq<Pc>): nat {
    if threads == [] then 0 else AllUnsettled(threads[..|threads| - 1]) + Unsettled(threads[|threads| - 1])
  }

  function AllGranted(threads: seq<Pc>): nat {
    if threads == [] then 0 else AllGranted(threads[..|threads| - 1]) + Granted(threads[|threads| - 1])
  }

  function AllUndecided(threads: seq<Pc>, mark: nat): nat {
    if threads == [] then 0 else AllUndecided(threads[..|threads| - 1], mark) + Undecided(threads[|threads| - 1], mark)
  }

  lemma {:induction false} SumsUpdate(threads: seq<Pc>, t: nat, pc: Pc, mark: nat)
    requires t < |threads|
    ensures AllUnsettled(threads[t := pc]) + Unsettled(threads[t]) == AllUnsettled(threads) + Unsettled(pc)
    ensures AllGranted(threads[t := pc]) + Granted(threads[t]) == AllGranted(threads) + Granted(pc)
    ensures AllUndecided(threads[t := pc], mark) + Undecided(threads[t], mark)
         == AllUndecided(threads, mark) + Undecided(pc, mark)
  {
    var last := |threads| - 1;
    if t == last {
      assert threads[t := pc][..last] == threads[..last];
    } else {
      assert threads[t := pc][..last] == threads[..last][t := pc];
      SumsUpdate(threads[..last], t, pc, mark);
    }
  }

  lemma {:induction false} UndecidedMonotone(threads: seq<Pc>, mark: nat, later: nat)
    requires mark <= later
    ensures AllUndecided(threads, mark) <= AllUndecided(threads, later)
  {
    if threads != [] { UndecidedMonotone(threads[..|threads| - 1], mark, later); }
  }

  /** Granted and undecided amounts are parts of the unsettled amount. */
  lemma {:induction false} SumsSplit(threads: seq<Pc>, mark: nat)
    ensures AllGranted(threads) + AllUndecided(threads, mark) <= AllUnsettled(threads)
  {
    if threads != [] { SumsSplit(threads[..|threads| - 1], mark); }
  }

  /** An earlier undecided claim is part of what is undecided before a later one. */
  lemma UndecidedIncludes(threads: seq<Pc>, t: nat, later: nat)
    requires t < |threads| && threads[t].Check? && threads[t].mine < later
    ensures AllUndecided(threads, threads[t].mine) + threads[t].desired <= AllUndecided(threads, later)
  {
    var without := threads[t := Idle(0, 0)];
    SumsUpdate(threads, t, Idle(0, 0), later);
    SumsUpdate(threads, t, Idle(0, 0), threads[t].mine);
    UndecidedMonotone(without, threads[t].mine, later);
  }

  // ---- The invariant -------------------------------------------------------------------------------

  /** headIndex plus everything promised. */
  function Promised(s: State): nat { s.mem.headIndex + AllGranted(s.threads) }

  /** An undecided claim is safe: either nothing claimed after it has been promised yet, and it started no
      earlier than what was promised or undecided then; or there is room for it and all before it. */
  ghost predicate ClaimSafe(s: State, pc: Pc)
    requires pc.Check?
  {
    var before := AllUndecided(s.threads, pc.mine);
    || Promised(s) + before <= pc.mine - pc.overcommit
    || Promised(s) + before + pc.desired <= s.mem.tailIndex
  }

  ghost predicate ThreadOk(s: State, pc: Pc) {
    match pc
    case LoadOptimistic(_, oc, _) => oc <= s.mem.overcommit
    case Claim(oc, _) => oc <= s.mem.overcommit
    case Check(mine, oc, d) => oc <= s.mem.overcommit && mine + d <= s.mem.optimisticCount && ClaimSafe(s, pc)
    case GiveBack(extra, _) => true
    case _ => true
  }

  /** Claims of different threads do not overlap. */
  ghost predicate Disjoint(threads: seq<Pc>) {
    forall t, u :: 0 <= t < u < |threads| && threads[t].Check? && threads[u].Check? ==>
      threads[t].mine + threads[t].desired <= threads[u].mine || threads[u].mine + threads[u].desired <= threads[t].mine
  }

  ghost predicate Inv(s: State) {
    && s.mem.optimisticCount == s.mem.headIndex + s.mem.overcommit + AllUnsettled(s.threads)
    && Promised(s) <= s.mem.tailIndex
    && Disjoint(s.threads)
    && (forall t :: 0 <= t < |s.threads| ==> ThreadOk(s, s.threads[t]))
  }

  // ---- Every step keeps the invariant --------------------------------------------------------------

  lemma ProduceKeeps(s: State, k: nat)
    requires Inv(s)
    ensures Inv(Step(s, Produce(k)))
  {
    var s' := Step(s, Produce(k));
    forall t | 0 <= t < |s'.threads| ensures ThreadOk(s', s'.threads[t]) {
      assert ThreadOk(s, s.threads[t]);
    }
  }

  lemma ClaimKeeps(s: State, t: nat, want: Want)
    requires Inv(s) && t < |s.threads| && s.threads[t].Claim?
    ensures Inv(Step(s, Consume(t, want)))
  {
    var s' := Step(s, Consume(t, want));
    var mine, pc' := s.mem.optimisticCount, s'.threads[t];
    assert ThreadOk(s, s.threads[t]);
    SumsUpdate(s.threads, t, pc', mine);
    SumsSplit(s.threads, mine);
    forall u | 0 <= u < |s'.threads| ensures ThreadOk(s', s'.threads[u]) {
      if u != t {
        assert ThreadOk(s, s.threads[u]);
        if s.threads[u].Check? { SumsUpdate(s.threads, t, pc', s.threads[u].mine); }
      }
    }
    assert Disjoint(s'.threads) by {
      assert forall u :: 0 <= u < |s.threads| ==> ThreadOk(s, s.threads[u]);
    }
  }

  /** The decision promises no more than there is, whatever was decided before it. */
  lemma DecisionFits(s: State, t: nat)
    requires Inv(s) && t < |s.threads| && s.threads[t].Check?
    ensures var pc := s.threads[t];
            var a := Granted(Decide(s.mem.tailIndex, pc));
            && a <= pc.desired
            && Unsettled(Decide(s.mem.tailIndex, pc)) == pc.desired
            && (a > 0 ==> Promised(s) + AllUndecided(s.threads, pc.mine) + a <= s.mem.tailIndex)
  {
    assert ThreadOk(s, s.threads[t]);
  }

  lemma DecisionOthers(s: State, t: nat, want: Want, u: nat)
    requires Inv(s) && t < |s.threads| && s.threads[t].Check?
    requires u < |s.threads| && u != t && s.threads[u].Check?
    ensures ClaimSafe(Step(s, Consume(t, want)), s.threads[u])
  {
    var pc, other := s.threads[t], s.threads[u];
    var s' := Step(s, Consume(t, want));
    var pc' := s'.threads[t];
    assert ThreadOk(s, pc) && ThreadOk(s, other);
    DecisionFits(s, t);
    SumsUpdate(s.threads, t, pc', other.mine);
    if other.mine < pc.mine {
      UndecidedIncludes(s.threads, u, pc.mine);
    } else if other.mine == pc.mine {
      assert pc.desired == 0 || other.desired == 0;
    }
  }

  lemma CheckKeeps(s: State, t: nat, want: Want)
    requires Inv(s) && t < |s.threads| && s.threads[t].Check?
    ensures Inv(Step(s, Consume(t, want)))
  {
    var s' := Step(s, Consume(t, want));
    SumsUpdate(s.threads, t, s'.threads[t], 0);
    DecisionFits(s, t);
    forall u | 0 <= u < |s'.threads| ensures ThreadOk(s', s'.threads[u]) {
      if u != t {
        assert ThreadOk(s, s.threads[u]);
        if s.threads[u].Check? { DecisionOthers(s, t, want, u); }
      }
    }
  }

  /** Loads, refunds and takes: no claim is made or decided. */
  lemma OtherKeeps(s: State, t: nat, want: Want)
    requires Inv(s) && t < |s.threads| && !s.threads[t].Claim? && !s.threads[t].Check?
    ensures Inv(Step(s, Consume(t, want)))
  {
    var s' := Step(s, Consume(t, want));
    var pc' := s'.threads[t];
    assert ThreadOk(s, s.threads[t]);
    SumsUpdate(s.threads, t, pc', 0);
    forall u | 0 <= u < |s'.threads| ensures ThreadOk(s', s'.threads[u]) {
      if u != t {
        assert ThreadOk(s, s.threads[u]);
        if s.threads[u].Check? { SumsUpdate(s.threads, t, pc', s.threads[u].mine); }
      }
    }
  }

  lemma StepKeeps(s: State, pick: Pick)
    requires Inv(s) && Enabled(s, pick)
    ensures Inv(Step(s, pick))
  {
    match pick
    case Produce(k) => ProduceKeeps(s, k);
    case Consume(t, want) =>
      if s.threads[t].Claim? {
        ClaimKeeps(s, t, want);
      } else if s.threads[t].Check? {
        CheckKeeps(s, t, want);
      } else {
        OtherKeeps(s, t, want);
      }
  }

  // ---- Runs ----------------------------------------------------------------------------------------

  ghost predicate StepOf(s: State, pick: Pick, s': State) { Enabled(s, pick) && s' == Step(s, pick) }

  ghost predicate Run(threadCount: nat, states: seq<State>, picks: seq<Pick>) {
    && |states| == |picks| + 1
    && states[0] == Init(threadCount)
    && (forall i :: 0 <= i < |picks| ==> StepOf(states[i], picks[i], states[i + 1]))
  }

  lemma RunMore(threadCount: nat, states: seq<State>, picks: seq<Pick>, pick: Pick, s': State)
    requires Run(threadCount, states, picks) && StepOf(states[|states| - 1], pick, s')
    ensures Run(threadCount, states + [s'], picks + [pick])
  {
    hide StepOf;
    var states', picks' := states + [s'], picks + [pick];
    forall i | 0 <= i < |picks'| ensures StepOf(states'[i], picks'[i], states'[i + 1]) {
      if i < |picks| { assert StepOf(states[i], picks[i], states[i + 1]); }
    }
  }

  lemma {:induction false} IdleSums(threads: seq<Pc>)
    requires forall t :: 0 <= t < |threads| ==> threads[t].Idle?
    ensures AllUnsettled(threads) == 0 && AllGranted(threads) == 0
  {
    if threads != [] { IdleSums(threads[..|threads| - 1]); }
  }

  /** In every reachable state headIndex has not passed tailIndex, and dequeueOptimisticCount is
      headIndex plus dequeueOvercommit plus the claims not yet settled. */
  lemma {:induction false} CountersAgree(threadCount: nat, states: seq<State>, picks: seq<Pick>, i: nat)
    requires Run(threadCount, states, picks) && i < |states|
    ensures Inv(states[i])
    ensures states[i].mem.headIndex <= states[i].mem.tailIndex
    ensures states[i].mem.optimisticCount
         == states[i].mem.headIndex + states[i].mem.overcommit + AllUnsettled(states[i].threads)
  {
    if i == 0 {
      IdleSums(states[0].threads);
    } else {
      CountersAgree(threadCount, states, picks, i - 1);
      assert StepOf(states[i - 1], picks[i - 1], states[i]);
      StepKeeps(states[i - 1], picks[i - 1]);
    }
  }

  /** Step i of the run takes the indices [first, first + count) for its thread. */
  ghost predicate Takes(states: seq<State>, picks: seq<Pick>, i: nat, first: nat, count: nat)
    requires i < |picks| && |states| == |picks| + 1
  {
    && picks[i].Consume? && picks[i].thread < |states[i].threads|
    && states[i].threads[picks[i].thread] == Take(count)
    && first == states[i].mem.headIndex
  }

  lemma {:induction false} GrantedCounted(threads: seq<Pc>, t: nat)
    requires t < |threads|
    ensures Granted(threads[t]) <= AllGranted(threads)
  {
    if t < |threads| - 1 { GrantedCounted(threads[..|threads| - 1], t); }
  }

  /** What a thread takes was already enqueued, and is what its call reports. */
  lemma TakenIsEnqueued(threadCount: nat, states: seq<State>, picks: seq<Pick>, i: nat, first: nat, count: nat)
    requires Run(threadCount, states, picks) && i < |picks| && Takes(states, picks, i, first, count)
    ensures first + count <= states[i].mem.tailIndex
    ensures states[i + 1].mem.headIndex == first + count
    ensures picks[i].thread < |states[i + 1].threads| && states[i + 1].threads[picks[i].thread] == Idle(first, count)
  {
    CountersAgree(threadCount, states, picks, i);
    assert StepOf(states[i], picks[i], states[i + 1]);
    GrantedCounted(states[i].threads, picks[i].thread);
  }

  lemma {:induction false} HeadMonotone(threadCount: nat, states: seq<State>, picks: seq<Pick>, i: nat, j: nat)
    requires Run(threadCount, states, picks) && i <= j < |states|
    ensures states[i].mem.headIndex <= states[j].mem.headIndex
    decreases j - i
  {
    if i < j {
      assert StepOf(states[i], picks[i], states[i + 1]);
      HeadMonotone(threadCount, states, picks, i + 1, j);
    }
  }

  /** No index is claimed twice. */
  lemma ClaimsAreUnique(threadCount: nat, states: seq<State>, picks: seq<Pick>,
                        i: nat, first: nat, count: nat, j: nat, first': nat, count': nat)
    requires Run(threadCount, states, picks) && i < j < |picks|
    requires Takes(states, picks, i, first, count) && Takes(states, picks, j, first', count')
    ensures first + count <= first'
  {
    TakenIsEnqueued(threadCount, states, picks, i, first, count);
    HeadMonotone(threadCount, states, picks, i + 1, j);
  }

  /** Seen from outside the counters, a step only enqueues, or claims indices that were enqueued. */
  lemma StepRefinesClaim(s: State, pick: Pick)
    requires Inv(s) && Enabled(s, pick)
    ensures var m, m' := s.mem, Step(s, pick).mem;
            || (m'.headIndex == m.headIndex && m.tailIndex <= m'.tailIndex)
            || (m'.tailIndex == m.tailIndex && m.headIndex <= m'.headIndex <= m.tailIndex)
  {
    if pick.Consume? && s.threads[pick.thread].Take? { GrantedCounted(s.threads, pick.thread); }
  }

  // ---- A dequeue that runs alone -------------------------------------------------------------------

  function Alone(s: State, t: nat, want: Want, steps: nat): State
    requires t < |s.threads|
    ensures |Alone(s, t, want, steps).threads| == |s.threads|
  {
    if steps == 0 then s else Step(Alone(s, t, want, steps - 1), Consume(t, want))
  }

  /** With no other call in flight the overcommit bookkeeping is exact: a dequeue gets as much as it
      wants of what there is, and nothing only if there is nothing (or it wants nothing). */
  lemma AloneGetsWhatThereIs(s: State, t: nat, want: Want)
    requires Inv(s) && t < |s.threads| && forall u :: 0 <= u < |s.threads| ==> s.threads[u].Idle?
    ensures var there := s.mem.tailIndex - s.mem.headIndex;
            var most := match want case Single => 1 case Bulk(max) => max;
            && there >= 0
            && (there == 0 ==> Alone(s, t, want, 3).threads[t] == Idle(0, 0) && Alone(s, t, want, 3).mem == s.mem)
            && (there > 0 ==> Alone(s, t, want, 6).threads[t] == Idle(s.mem.headIndex, Min(there, most))
                              && Alone(s, t, want, 6).mem.headIndex == s.mem.headIndex + Min(there, most))
  {
    IdleSums(s.threads);
    var s1 := Step(s, Consume(t, want));
    var s2 := Step(s1, Consume(t, want));
    var s3 := Step(s2, Consume(t, want));
    assert Alone(s, t, want, 1) == s1 && Alone(s, t, want, 2) == s2 && Alone(s, t, want, 3) == s3;
    if s.mem.headIndex < s.mem.tailIndex {
      var s4 := Step(s3, Consume(t, want));
      var s5 := Step(s4, Consume(t, want));
      var s6 := Step(s5, Consume(t, want));
      assert Alone(s, t, want, 4) == s4 && Alone(s, t, want, 5) == s5 && Alone(s, t, want, 6) == s6;
    }
  }
}
