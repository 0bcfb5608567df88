/** Dequeues from an explicit producer's sub-queue (external/cameron314/concurrentqueue.h, ExplicitProducer).
    Step for step: a dequeue runs the counters' protocol (DequeueCounters) on the sub-queue's own tailIndex and headIndex,
    and the access that adds to headIndex is its claim there. */
module ExplicitDequeues {
  import opened Options
  import C = DequeueCounters
  import Q = ExplicitRing
  import R = ExplicitRuns

  /** The sub-queue, the two counters, and where each dequeuing thread is in the counters' protocol. */
  datatype State<V> = State(queue: Q.State<V>, optimisticCount: nat, overcommit: nat, threads: seq<C.Pc>)

  datatype Pick<V> = Produce(pick: Q.Pick<V>) | Consume(thread: nat, want: C.Want)

  /** The counters as DequeueCounters sees them. */
  function Counters<V>(s: State<V>): C.State {
    C.State(C.Counters(s.queue.mem.q.tailIndex, s.queue.mem.q.headIndex, s.optimisticCount, s.overcommit), s.threads)
  }

  predicate Legal<V>(s: State<V>, pick: Pick<V>) {
    && |s.threads| == |s.queue.consumers|
    && match pick
       case Produce(p) => p.Produce?
       case Consume(t, _) => t < |s.threads|
  }

  /** A thread works at the counters while it has no claim. */
  predicate Counts<V>(s: State<V>, pick: Pick<V>)
    requires Legal(s, pick)
  { pick.Consume? && s.queue.consumers[pick.thread].CIdle? }

  /** The access to the sub-queue, if it is one: a thread that is about to add to headIndex claims what it adds. */
  function QueuePick<V>(s: State<V>, pick: Pick<V>): Option<Q.Pick<V>>
    requires Legal(s, pick)
  {
    match pick
    case Produce(p) => Some(p)
    case Consume(t, _) =>
      if !s.queue.consumers[t].CIdle? then Some(Q.Consume(t, 0))
      else if s.threads[t].Take? then Some(Q.Consume(t, s.threads[t].actual))
      else None
  }

  predicate QueueFollows<V(==)>(bs: nat, q: Q.State<V>, p: Option<Q.Pick<V>>, q': Q.State<V>) {
    if p.Some? then Q.Enabled(bs, q, p.value) ==> q' == Q.Step(bs, q, p.value) else q' == q
  }

  predicate Follows<V(==)>(bs: nat, s: State<V>, pick: Pick<V>, s': State<V>) {
    && Legal(s, pick)
    && QueueFollows(bs, s.queue, QueuePick(s, pick), s'.queue)
    && if Counts(s, pick) then
         var (m, pc) := C.Access(Counters(s).mem, s.threads[pick.thread], pick.want);
         s'.optimisticCount == m.optimisticCount && s'.overcommit == m.overcommit && s'.threads == s.threads[pick.thread := pc]
       else
         s'.optimisticCount == s.optimisticCount && s'.overcommit == s.overcommit && s'.threads == s.threads
  }

  function Start<V>(size: nat, n: nat): State<V>
    requires size > 0
  { State(Q.Start(size, n), 0, 0, seq(n, _ => C.Idle(0, 0))) }

  ghost predicate Run<V>(bs: nat, states: seq<State<V>>, picks: seq<Pick<V>>) {
    && bs > 1 && |states| == |picks| + 1
    && (exists size: nat, n: nat :: size > 0 && states[0] == Start(size, n))
    && (forall i :: 0 <= i < |picks| ==> Follows(bs, states[i], picks[i], states[i + 1]))
  }

  // ---- The coupling --------------------------------------------------------------------------------------------

  /** The claim a consumer works on, or the elements it has got, are what its thread took at the counters. */
  predicate Matches<V>(pc: C.Pc, c: Q.Consumer<V>) {
    && (!c.CIdle? ==> pc.Idle? && c.job.first == pc.first && c.job.end == pc.first + pc.count)
    && (c.CIdle? && pc.Idle? && pc.count > 0 ==> c.first == pc.first && |c.got| == pc.count)
  }

  ghost predicate Matched<V>(s: State<V>) {
    && |s.threads| == |s.queue.consumers|
    && forall t :: 0 <= t < |s.threads| ==> Matches(s.threads[t], s.queue.consumers[t])
  }

  ghost predicate Inv<V>(bs: nat, s: State<V>) { Matched(s) && Q.Inv(bs, s.queue) && C.Inv(Counters(s)) }

  /** How many elements a claim has moved, once it ends, is how many it is for. */
  lemma ClaimEnds<V>(bs: nat, s: Q.State<V>, t: nat, want: nat)
    requires Q.Inv(bs, s) && t < |s.consumers| && !s.consumers[t].CIdle? && Q.Enabled(bs, s, Q.Consume(t, want))
    ensures var c, c', q' := s.consumers[t], Q.Step(bs, s, Q.Consume(t, want)).consumers[t], Q.Step(bs, s, Q.Consume(t, want)).mem.q;
            && q'.tailIndex == s.mem.q.tailIndex && q'.headIndex == s.mem.q.headIndex
            && (c'.CIdle? ==> c'.first == c.job.first && |c'.got| == c.job.end - c.job.first)
            && (!c'.CIdle? ==> c'.job.first == c.job.first && c'.job.end == c.job.end)
  {
    R.OneConsumer(bs, s, t);
    hide Q.Inv, Q.Shape;
    assert Q.JobOk(s.mem.q, s.consumers[t].job);
  }

  /** What a thread adds to headIndex was enqueued, so that its claim in the sub-queue is granted as it is. */
  lemma ClaimIsGranted<V>(bs: nat, s: State<V>, pick: Pick<V>)
    requires Inv(bs, s) && Legal(s, pick) && Counts(s, pick) && s.threads[pick.thread].Take?
    ensures var q, n, p := s.queue.mem.q, s.threads[pick.thread].actual, Q.Consume(pick.thread, s.threads[pick.thread].actual);
            && q.headIndex + n <= q.tailIndex
            && (Q.Enabled(bs, s.queue, p) ==>
                  var s' := Q.Step(bs, s.queue, p);
                  && s'.mem.q.tailIndex == q.tailIndex && s'.mem.q.headIndex == q.headIndex + n
                  && (n > 0 ==> s'.consumers[pick.thread].CHeader?
                                && s'.consumers[pick.thread].job.first == q.headIndex && s'.consumers[pick.thread].job.end == q.headIndex + n)
                  && (n == 0 ==> s'.consumers[pick.thread] == s.queue.consumers[pick.thread]))
  {
    C.StepRefinesClaim(Counters(s), C.Consume(pick.thread, pick.want));
    hide Q.Inv, Q.Shape, C.Inv;
  }

  lemma QueueKeeps<V>(bs: nat, s: State<V>, pick: Pick<V>, s': State<V>)
    requires Inv(bs, s) && Follows(bs, s, pick, s')
    ensures Q.Inv(bs, s'.queue)
    ensures var p := QueuePick(s, pick);
            p.Some? ==> Q.Enabled(bs, s.queue, p.value) && s'.queue == Q.Step(bs, s.queue, p.value) && R.Follows(bs, s.queue, p.value, s'.queue)
  {
    hide Q.Inv, Q.Step, Q.Enabled, C.Inv, C.Access;
    if QueuePick(s, pick).Some? { R.StepKeeps(bs, s.queue, QueuePick(s, pick).value); }
  }

  /** The same step for the counters. */
  function CounterPick<V>(s: State<V>, pick: Pick<V>, s': State<V>): Option<C.Pick>
    requires Legal(s, pick)
  {
    if Counts(s, pick) then Some(C.Consume(pick.thread, pick.want))
    else if pick.Produce? && s'.queue.mem.q.tailIndex >= s.queue.mem.q.tailIndex then
      Some(C.Produce(s'.queue.mem.q.tailIndex - s.queue.mem.q.tailIndex))
    else None
  }

  lemma Enqueues<V>(bs: nat, s: Q.State<V>, pick: Q.Pick<V>)
    requires Q.Inv(bs, s) && Q.Enabled(bs, s, pick) && pick.Produce?
    ensures var s' := Q.Step(bs, s, pick);
            && s'.mem.q.headIndex == s.mem.q.headIndex && s'.mem.q.tailIndex >= s.mem.q.tailIndex && s'.consumers == s.consumers
  {
    hide Q.Inv, Q.Shape;
  }

  lemma CountersKeep<V>(bs: nat, s: State<V>, pick: Pick<V>, s': State<V>)
    requires Inv(bs, s) && Follows(bs, s, pick, s')
    ensures var p := CounterPick(s, pick, s');
            if p.Some? then C.StepOf(Counters(s), p.value, Counters(s')) else Counters(s') == Counters(s)
    ensures C.Inv(Counters(s'))
  {
    hide Q.Step, Q.Inv, Q.Enabled, C.Inv;
    QueueKeeps(bs, s, pick, s');
    if pick.Produce? {
      Enqueues(bs, s.queue, pick.pick);
      C.StepKeeps(Counters(s), CounterPick(s, pick, s').value);
    } else if Counts(s, pick) {
      if s.threads[pick.thread].Take? { ClaimIsGranted(bs, s, pick); }
      C.StepKeeps(Counters(s), CounterPick(s, pick, s').value);
    } else {
      ClaimEnds(bs, s.queue, pick.thread, 0);
    }
  }

  lemma OthersStay<V>(bs: nat, s: Q.State<V>, pick: Q.Pick<V>)
    requires Q.Enabled(bs, s, pick)
    ensures var cs' := Q.Step(bs, s, pick).consumers;
            |cs'| == |s.consumers| && forall t :: 0 <= t < |cs'| && (pick.Consume? ==> t != pick.thread) ==> cs'[t] == s.consumers[t]
  {
    hide Q.ProducerStep, Q.ConsumerStep, Q.Shape;
  }

  /** Every step keeps the sub-queue's invariant, the counters', and the coupling of the two. */
  lemma StepKeeps<V>(bs: nat, s: State<V>, pick: Pick<V>, s': State<V>)
    requires Inv(bs, s) && Follows(bs, s, pick, s')
    ensures Inv(bs, s')
  {
    hide Q.Step, Q.Inv, Q.Enabled, C.Inv, C.Access, Matches;
    QueueKeeps(bs, s, pick, s');
    CountersKeep(bs, s, pick, s');
    if QueuePick(s, pick).Some? { OthersStay(bs, s.queue, QueuePick(s, pick).value); }
    if pick.Consume? { MatchedStep(bs, s, pick, s'); }
    forall t | 0 <= t < |s'.threads| ensures Matches(s'.threads[t], s'.queue.consumers[t]) {
      assert Matches(s.threads[t], s.queue.consumers[t]);
    }
  }

  lemma MatchedStep<V>(bs: nat, s: State<V>, pick: Pick<V>, s': State<V>)
    requires Inv(bs, s) && Follows(bs, s, pick, s') && pick.Consume?
    ensures |s'.threads| == |s.threads| && |s'.queue.consumers| == |s.queue.consumers|
    ensures Matches(s'.threads[pick.thread], s'.queue.consumers[pick.thread])
  {
    hide Q.Step, Q.Inv, Q.Enabled, C.Inv;
    QueueKeeps(bs, s, pick, s');
    if QueuePick(s, pick).Some? { OthersStay(bs, s.queue, QueuePick(s, pick).value); }
    if !Counts(s, pick) {
      ClaimEnds(bs, s.queue, pick.thread, 0);
    } else if s.threads[pick.thread].Take? {
      ClaimIsGranted(bs, s, pick);
    }
    assert Matches(s.threads[pick.thread], s.queue.consumers[pick.thread]);
  }

  // ---- Runs -----------------------------------------------------------------------------------------------------

  lemma StartOk<V>(bs: nat, size: nat, n: nat)
    requires bs > 1 && size > 0
    ensures Inv<V>(bs, Start(size, n)) && Counters<V>(Start(size, n)) == C.Init(n)
  {
    R.StartOk<V>(bs, size, n);
    C.CountersAgree(n, [C.Init(n)], [], 0);
    hide Q.Inv, C.Inv;
  }

  lemma {:induction false} RunInv<V>(bs: nat, states: seq<State<V>>, picks: seq<Pick<V>>, i: nat)
    requires Run(bs, states, picks) && i < |states|
    ensures Inv(bs, states[i])
  {
    hide Inv, Follows;
    if i == 0 {
      var size: nat, n: nat :| size > 0 && states[0] == Start(size, n);
      StartOk<V>(bs, size, n);
    } else {
      RunInv(bs, states, picks, i - 1);
      assert Follows(bs, states[i - 1], picks[i - 1], states[i]);
      StepKeeps(bs, states[i - 1], picks[i - 1], states[i]);
    }
  }

  lemma FollowsLegal<V>(bs: nat, s: State<V>, pick: Pick<V>, s': State<V>)
    requires Follows(bs, s, pick, s')
    ensures Legal(s, pick) && (QueuePick(s, pick) == None ==> s'.queue == s.queue)
  {
    hide Q.Enabled, Q.Step, C.Access;
  }

  lemma MoreQueue<V>(bs: nat, qs: seq<Q.State<V>>, ps: seq<Q.Pick<V>>, p: Q.Pick<V>, q': Q.State<V>)
    requires R.Run(bs, qs, ps) && R.Follows(bs, qs[|qs| - 1], p, q')
    ensures R.Run(bs, qs + [q'], ps + [p])
  {
    hide R.Follows;
    var qs', ps' := qs + [q'], ps + [p];
    assert qs'[0] == qs[0];
    forall i | 0 <= i < |ps'| ensures R.Follows(bs, qs'[i], ps'[i], qs'[i + 1]) {
      if i < |ps| { assert R.Follows(bs, qs[i], ps[i], qs[i + 1]); }
    }
  }

  /** What happens in the sub-queue is a run of ExplicitRing, whose results hold here. */
  lemma {:induction false} QueueRun<V>(bs: nat, states: seq<State<V>>, picks: seq<Pick<V>>, i: nat)
    returns (qs: seq<Q.State<V>>, ps: seq<Q.Pick<V>>)
    requires Run(bs, states, picks) && i < |states|
    ensures R.Run(bs, qs, ps) && qs[0] == states[0].queue && qs[|qs| - 1] == states[i].queue
  {
    hide Inv, Follows, R.Follows, Q.Step, Q.Enabled, Q.Start;
    if i == 0 {
      var size: nat, n: nat :| size > 0 && states[0] == Start(size, n);
      qs, ps := [states[0].queue], [];
      assert qs[0] == Q.Start(size, n);
    } else {
      qs, ps := QueueRun(bs, states, picks, i - 1);
      RunInv(bs, states, picks, i - 1);
      var s, pick := states[i - 1], picks[i - 1];
      assert Follows(bs, s, pick, states[i]);
      FollowsLegal(bs, s, pick, states[i]);
      QueueKeeps(bs, s, pick, states[i]);
      if QueuePick(s, pick).Some? {
        MoreQueue(bs, qs, ps, QueuePick(s, pick).value, states[i].queue);
        qs, ps := qs + [states[i].queue], ps + [QueuePick(s, pick).value];
      }
    }
  }

  /** What happens at the counters is a run of DequeueCounters. */
  lemma {:induction false} CountersRun<V>(bs: nat, states: seq<State<V>>, picks: seq<Pick<V>>, i: nat)
    returns (n: nat, cs: seq<C.State>, ps: seq<C.Pick>)
    requires Run(bs, states, picks) && i < |states|
    ensures C.Run(n, cs, ps) && cs[0] == Counters(states[0]) && cs[|cs| - 1] == Counters(states[i])
  {
    hide Inv, Follows, C.StepOf, Q.Start, Counters;
    if i == 0 {
      var size: nat, m: nat :| size > 0 && states[0] == Start(size, m);
      StartOk<V>(bs, size, m);
      n, cs, ps := m, [Counters(states[0])], [];
    } else {
      n, cs, ps := CountersRun(bs, states, picks, i - 1);
      RunInv(bs, states, picks, i - 1);
      var s, pick := states[i - 1], picks[i - 1];
      assert Follows(bs, s, pick, states[i]);
      FollowsLegal(bs, s, pick, states[i]);
      CountersKeep(bs, s, pick, states[i]);
      if CounterPick(s, pick, states[i]).Some? {
        C.RunMore(n, cs, ps, CounterPick(s, pick, states[i]).value, Counters(states[i]));
        cs, ps := cs + [Counters(states[i])], ps + [CounterPick(s, pick, states[i]).value];
      }
    }
  }

  /** In every state of every run: a thread that is done with a call has got exactly the elements whose indices it took
      at the counters, in the order they were enqueued; one that still works has a claim on exactly those. */
  lemma GetsWhatItTook<V>(bs: nat, states: seq<State<V>>, picks: seq<Pick<V>>, i: nat, t: nat)
    requires Run(bs, states, picks) && i < |states| && t < |states[i].threads|
    ensures var q, pc := states[i].queue.mem.q, states[i].threads[t];
            && t < |states[i].queue.consumers|
            && var c := states[i].queue.consumers[t];
            && (pc.Idle? && c.CIdle? && pc.count > 0 ==>
                  c.first == pc.first && pc.first + pc.count <= |q.log| && c.got == q.log[pc.first..pc.first + pc.count])
            && (!c.CIdle? ==> pc.Idle? && c.job.first == pc.first && c.job.end == pc.first + pc.count && c.job.end <= q.headIndex <= q.tailIndex)
  {
    RunInv(bs, states, picks, i);
    var s := states[i];
    assert Matches(s.threads[t], s.queue.consumers[t]);
    R.OneConsumer(bs, s.queue, t);
    hide Q.Inv, C.Inv;
  }
}
