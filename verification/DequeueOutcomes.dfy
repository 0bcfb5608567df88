/** What a single or bulk dequeue of external/cameron314/concurrentqueue.h comes back with, in terms of the counters it
    met on its way. */
module DequeueOutcomes {
  import opened DequeueCounters

  /** A call of thread t that begins with step i and ends with step j. */
  ghost predicate IsCall(states: seq<State>, picks: seq<Pick>, t: nat, i: nat, j: nat) {
    && |states| == |picks| + 1 && i <= j < |picks| && Own(picks, t, i) && Own(picks, t, j)
    && (forall l :: i <= l <= j + 1 ==> t < |states[l].threads|)
    && states[i].threads[t].Idle? && states[j + 1].threads[t].Idle?
    && forall l :: i < l <= j ==> !states[l].threads[t].Idle?
  }

  /** Step x is thread t's. */
  predicate Own(picks: seq<Pick>, t: nat, x: nat) { x < |picks| && picks[x].Consume? && picks[x].thread == t }

  /** What there is beyond all claims, by a tail, and by counts of claims and of refunds. */
  function Beyond(tail: nat, claims: nat, refunds: nat): int { tail - (claims - refunds) }

  /** What a call that sees so much asks for. */
  function Desired(want: Want, seen: int): int { match want case Single => 1 case Bulk(max) => Min(seen, max) }

  /** The smaller of what is asked for and what there is, if there is any. */
  function Settled(desired: int, available: int): int { if available <= 0 then 0 else Min(desired, available) }

  /** The steps of a call: begin loads the tail, refunds the overcommit, look the optimistic count, claim adds to it, and
      settle reloads the tail. */
  datatype Story = Story(begin: nat, refunds: nat, look: nat, claim: nat, settle: nat)

  function SeenBy(states: seq<State>, y: Story): int
    requires y.begin < |states| && y.refunds < |states| && y.look < |states|
  { Beyond(states[y.begin].mem.tailIndex, states[y.look].mem.optimisticCount, states[y.refunds].mem.overcommit) }

  function AvailableTo(states: seq<State>, y: Story): int
    requires y.settle < |states| && y.refunds < |states| && y.claim < |states|
  { Beyond(states[y.settle].mem.tailIndex, states[y.claim].mem.optimisticCount, states[y.refunds].mem.overcommit) }

  // ---- How a call got where it is -------------------------------------------------------------------------------------

  ghost predicate HasLoaded(picks: seq<Pick>, t: nat, y: Story, l: nat) { y.begin < y.refunds < l && Own(picks, t, y.begin) && Own(picks, t, y.refunds) }

  ghost predicate HasLooked(states: seq<State>, picks: seq<Pick>, t: nat, y: Story, l: nat) {
    && HasLoaded(picks, t, y, y.look) && y.look < l <= |picks| && |states| == |picks| + 1 && Own(picks, t, y.look)
  }

  ghost predicate HasClaimed(states: seq<State>, picks: seq<Pick>, t: nat, y: Story, l: nat) {
    && HasLooked(states, picks, t, y, y.claim) && y.claim < l <= |picks| && Own(picks, t, y.claim) && SeenBy(states, y) > 0
    && states[y.claim + 1].mem.optimisticCount == states[y.claim].mem.optimisticCount + Desired(picks[y.begin].want, SeenBy(states, y))
  }

  ghost predicate HasSettled(states: seq<State>, picks: seq<Pick>, t: nat, y: Story, l: nat) {
    HasClaimed(states, picks, t, y, y.settle) && y.settle < l <= |picks| && Own(picks, t, y.settle)
  }

  /** What the call has read and done says where it is. */
  ghost predicate Tells(states: seq<State>, picks: seq<Pick>, t: nat, y: Story, l: nat)
    requires l <= |picks| && |states| == |picks| + 1 && t < |states[l].threads| && Own(picks, t, y.begin) && y.begin < l
  {
    var want := picks[y.begin].want;
    match states[l].threads[t]
    case Idle(_, _) => true
    case LoadOvercommit(tail, w) => tail == states[y.begin].mem.tailIndex && w == want
    case LoadOptimistic(tail, oc, w) =>
      && HasLoaded(picks, t, y, l)
      && tail == states[y.begin].mem.tailIndex && w == want && oc == states[y.refunds].mem.overcommit
    case Claim(oc, d) =>
      && HasLooked(states, picks, t, y, l) && SeenBy(states, y) > 0
      && oc == states[y.refunds].mem.overcommit && d == Desired(want, SeenBy(states, y))
    case Check(mine, oc, d) =>
      && HasClaimed(states, picks, t, y, l)
      && mine == states[y.claim].mem.optimisticCount && oc == states[y.refunds].mem.overcommit && d == Desired(want, SeenBy(states, y))
    case GiveBack(extra, actual) =>
      && HasSettled(states, picks, t, y, l)
      && actual == Settled(Desired(want, SeenBy(states, y)), AvailableTo(states, y)) && extra + actual == Desired(want, SeenBy(states, y))
    case Take(actual) =>
      && HasSettled(states, picks, t, y, l)
      && AvailableTo(states, y) > 0 && actual == Settled(Desired(want, SeenBy(states, y)), AvailableTo(states, y))
  }

  /** The story with one more step in it. */
  function Longer(y: Story, pc: Pc, x: nat): (z: Story)
    ensures z.begin == y.begin
  {
    match pc
    case LoadOvercommit(_, _) => y.(refunds := x)
    case LoadOptimistic(_, _, _) => y.(look := x)
    case Claim(_, _) => y.(claim := x)
    case Check(_, _, _) => y.(settle := x)
    case _ => y
  }

  lemma OwnStepTells(states: seq<State>, picks: seq<Pick>, t: nat, y: Story, l: nat)
    requires |states| == |picks| + 1 && l < |picks| && t < |states[l].threads| && Own(picks, t, y.begin) && y.begin < l && Own(picks, t, l)
    requires Tells(states, picks, t, y, l) && !states[l].threads[t].Idle? && StepOf(states[l], picks[l], states[l + 1])
    ensures Tells(states, picks, t, Longer(y, states[l].threads[t], l), l + 1)
  {
  }

  lemma OtherStepTells(states: seq<State>, picks: seq<Pick>, t: nat, y: Story, l: nat)
    requires |states| == |picks| + 1 && l < |picks| && t < |states[l].threads| && Own(picks, t, y.begin) && y.begin < l && !Own(picks, t, l)
    requires Tells(states, picks, t, y, l) && StepOf(states[l], picks[l], states[l + 1])
    ensures Tells(states, picks, t, y, l + 1)
  {
  }

  lemma BeginTells(states: seq<State>, picks: seq<Pick>, t: nat, y: Story, i: nat)
    requires |states| == |picks| + 1 && i < |picks| && t < |states[i].threads| && Own(picks, t, i) && y.begin == i
    requires states[i].threads[t].Idle? && StepOf(states[i], picks[i], states[i + 1])
    ensures Tells(states, picks, t, y, i + 1)
  {
  }

  lemma {:induction false} CallTells(threadCount: nat, states: seq<State>, picks: seq<Pick>, t: nat, i: nat, l: nat) returns (y: Story)
    requires Run(threadCount, states, picks) && i < l <= |picks| && Own(picks, t, i)
    requires forall x :: i <= x <= l ==> t < |states[x].threads|
    requires states[i].threads[t].Idle? && forall x :: i < x < l ==> !states[x].threads[t].Idle?
    ensures y.begin == i && Tells(states, picks, t, y, l)
  {
    assert |states| == |picks| + 1 && StepOf(states[l - 1], picks[l - 1], states[l]);
    hide *;
    if i + 1 == l {
      y := Story(i, i, i, i, i);
      BeginTells(states, picks, t, y, i);
    } else {
      y := CallTells(threadCount, states, picks, t, i, l - 1);
      if Own(picks, t, l - 1) {
        OwnStepTells(states, picks, t, y, l - 1);
        y := Longer(y, states[l - 1].threads[t], l - 1);
      } else {
        OtherStepTells(states, picks, t, y, l - 1);
      }
    }
  }

  // ---- What it comes back with ------------------------------------------------------------------------------------------

  /** Over every run: a dequeue sees what the tail, when it began, has beyond the claims less the refunds it read.  If that
      is nothing, it gets nothing.  Otherwise it claims one, or as much of it as it may take, and is granted the smaller
      of its claim and what the tail, reloaded, has beyond the claims before its own: it comes back with exactly that
      many, from headIndex on, which it moves past them. */
  lemma DequeueReports(threadCount: nat, states: seq<State>, picks: seq<Pick>, t: nat, i: nat, j: nat) returns (y: Story)
    requires Run(threadCount, states, picks) && IsCall(states, picks, t, i, j)
    ensures y.begin == i && HasLooked(states, picks, t, y, j + 1)
    ensures var Idle(first, count) := states[j + 1].threads[t];
            var seen := SeenBy(states, y);
            if seen <= 0 then count == 0
            else
              && HasSettled(states, picks, t, y, j + 1)
              && count == Settled(Desired(picks[i].want, seen), AvailableTo(states, y))
              && (count > 0 ==> first == states[j].mem.headIndex)
              && states[j + 1].mem.headIndex == states[j].mem.headIndex + count
  {
    assert StepOf(states[j], picks[j], states[j + 1]);
    if i < j {
      y := CallTells(threadCount, states, picks, t, i, j);
      y := Longer(y, states[j].threads[t], j);
    }
  }

  /** Over every run: a dequeue that wanted something and got nothing had an instant at which all that was enqueued when it
      began was taken, claimed by calls in flight, or claimed and refunded while it was under way. */
  lemma NothingOnlyIfClaimed(threadCount: nat, states: seq<State>, picks: seq<Pick>, t: nat, i: nat, j: nat) returns (m: nat, x: nat)
    requires Run(threadCount, states, picks) && IsCall(states, picks, t, i, j) && picks[i].want != Bulk(0)
    requires states[j + 1].threads[t].count == 0
    ensures i < m < x <= j && states[m].mem.overcommit <= states[x].mem.overcommit
    ensures states[i].mem.tailIndex
              <= states[x].mem.headIndex + AllUnsettled(states[x].threads) + (states[x].mem.overcommit - states[m].mem.overcommit)
  {
    var y := DequeueReports(threadCount, states, picks, t, i, j);
    m, x := y.refunds, if SeenBy(states, y) <= 0 then y.look else y.claim;
    CountersAgree(threadCount, states, picks, x);
    Monotone(threadCount, states, picks, m, x);
    if SeenBy(states, y) > 0 { Monotone(threadCount, states, picks, i, y.settle); }
  }

  lemma {:induction false} Monotone(threadCount: nat, states: seq<State>, picks: seq<Pick>, i: nat, j: nat)
    requires Run(threadCount, states, picks) && i <= j < |states|
    ensures states[i].mem.overcommit <= states[j].mem.overcommit && states[i].mem.tailIndex <= states[j].mem.tailIndex
  {
    if i < j {
      Monotone(threadCount, states, picks, i, j - 1);
      assert StepOf(states[j - 1], picks[j - 1], states[j]);
    }
  }
}
