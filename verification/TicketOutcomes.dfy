/** What a call on the ticket queue of external/rigtorp/MPMCQueue.h reports is what that call did. */
module TicketOutcomes {
  import opened Options
  import opened TicketQueue

  /** A call of thread t that begins with step i and ends with step j. */
  ghost predicate IsCall<V>(states: seq<State<V>>, picks: seq<(nat, Call<V>)>, t: nat, i: nat, j: nat) {
    && |states| == |picks| + 1 && i <= j < |picks| && picks[i].0 == t && picks[j].0 == t
    && (forall l :: i <= l <= j + 1 ==> t < |states[l].threads|)
    && states[i].threads[t].Idle? && states[j + 1].threads[t].Idle?
    && forall l :: i < l <= j ==> !states[l].threads[t].Idle?
  }

  /** Step k of thread t takes push ticket q for the value v. */
  ghost predicate TakesPush<V(!new)>(states: seq<State<V>>, picks: seq<(nat, Call<V>)>, t: nat, k: nat, q: nat, v: V)
    requires k < |picks| && |states| == |picks| + 1
  {
    && picks[k].0 == t && states[k].mem.head == q && states[k + 1].mem.head == q + 1
    && q in states[k + 1].mem.pushed && states[k + 1].mem.pushed[q] == v
  }

  /** Step k of thread t takes pop ticket q. */
  ghost predicate TakesPop<V(!new)>(states: seq<State<V>>, picks: seq<(nat, Call<V>)>, t: nat, k: nat, q: nat)
    requires k < |picks| && |states| == |picks| + 1
  { picks[k].0 == t && states[k].mem.tail == q && states[k + 1].mem.tail == q + 1 }

  predicate Pushes<V>(call: Call<V>) { call.CallPush? || call.CallTryPush? }

  /** Where a call can be. */
  predicate Within<V(==)>(call: Call<V>, pc: Pc<V>) {
    match call
    case CallPush(v) => HoldsPush(pc) && pc.v == v
    case CallTryPush(v) => (pc.TryPushTurn? || pc.TryPushCas? || pc.TryPushReload? || HoldsPush(pc)) && pc.v == v
    case CallPop => HoldsPop(pc)
    case CallTryPop => pc.TryPopTurn? || pc.TryPopCas? || pc.TryPopReload? || HoldsPop(pc)
  }

  /** The first step of a call leads into it, and the others stay there until it ends. */
  lemma StepWithin<V>(m: Memory<V>, pc: Pc<V>, call: Call<V>, other: Call<V>)
    requires WellSized(m)
    ensures pc.Idle? ==> Within(call, Access(m, pc, call).1)
    ensures Within(call, pc) ==> Access(m, pc, other).1.Idle? || Within(call, Access(m, pc, other).1)
  {
  }

  lemma {:induction false} CallWithin<V>(cap: nat, threadCount: nat, states: seq<State<V>>, picks: seq<(nat, Call<V>)>, t: nat, i: nat, l: nat)
    requires Run(cap, threadCount, states, picks) && i < l <= |picks| && picks[i].0 == t && t < |states[i].threads| && states[i].threads[t].Idle?
    requires forall x :: i < x <= l ==> t < |states[x].threads| && !states[x].threads[t].Idle?
    ensures Within(picks[i].1, states[l].threads[t])
  {
    hide Within, Access;
    assert StepOf(states[l - 1], picks[l - 1], states[l]);
    if i + 1 == l {
      StepWithin(states[i].mem, states[i].threads[t], picks[i].1, picks[i].1);
    } else {
      CallWithin(cap, threadCount, states, picks, t, i, l - 1);
      StepWithin(states[l - 1].mem, states[l - 1].threads[t], picks[i].1, picks[l - 1].1);
    }
  }

  /** The step of the call that took the ticket it holds. */
  lemma {:induction false} PushTaken<V(!new)>(cap: nat, threadCount: nat, states: seq<State<V>>, picks: seq<(nat, Call<V>)>, t: nat, i: nat, l: nat)
      returns (k: nat)
    requires Run(cap, threadCount, states, picks) && i < l <= |picks| && picks[i].0 == t && t < |states[i].threads| && states[i].threads[t].Idle?
    requires forall x :: i < x <= l ==> t < |states[x].threads| && !states[x].threads[t].Idle?
    requires HoldsPush(states[l].threads[t])
    ensures i <= k < l && TakesPush(states, picks, t, k, states[l].threads[t].ticket, states[l].threads[t].v)
  {
    assert StepOf(states[l - 1], picks[l - 1], states[l]);
    var pc := states[l - 1].threads[t];
    if picks[l - 1].0 == t && !HoldsPush(pc) {
      k := l - 1;
    } else {
      k := PushTaken(cap, threadCount, states, picks, t, i, l - 1);
    }
  }

  lemma {:induction false} PopTaken<V(!new)>(cap: nat, threadCount: nat, states: seq<State<V>>, picks: seq<(nat, Call<V>)>, t: nat, i: nat, l: nat)
      returns (k: nat)
    requires Run(cap, threadCount, states, picks) && i < l <= |picks| && picks[i].0 == t && t < |states[i].threads| && states[i].threads[t].Idle?
    requires forall x :: i < x <= l ==> t < |states[x].threads| && !states[x].threads[t].Idle?
    requires HoldsPop(states[l].threads[t])
    ensures i <= k < l && TakesPop(states, picks, t, k, states[l].threads[t].ticket)
  {
    assert StepOf(states[l - 1], picks[l - 1], states[l]);
    var pc := states[l - 1].threads[t];
    if picks[l - 1].0 == t && !HoldsPop(pc) {
      k := l - 1;
    } else {
      k := PopTaken(cap, threadCount, states, picks, t, i, l - 1);
    }
  }

  /** What a call may report, and what it, or the queue at step k of it, then did. */
  ghost predicate Reports<V(!new)>(cap: nat, states: seq<State<V>>, picks: seq<(nat, Call<V>)>, t: nat, i: nat, j: nat, k: nat)
    requires IsCall(states, picks, t, i, j) && i <= k <= j
    requires forall l :: i <= l <= j + 1 ==> WellSized(states[l].mem)
  {
    var call, m, m' := picks[i].1, states[j].mem, states[j + 1].mem;
    match states[j + 1].threads[t].last
    case Fresh => false
    case Pushed(q) =>
      && Pushes(call) && TakesPush(states, picks, t, k, q, call.v)
      && !PushDone(m, q) && PushDone(m', q) && SlotStorage(m', q) == Some(call.v)
    case PushRefused(h) =>
      call.CallTryPush? && states[k].mem.head == h >= cap && !PopDone(states[k].mem, h - cap)
    case Popped(q, v) =>
      && !Pushes(call) && TakesPop(states, picks, t, k, q)
      && q !in m.popped && m'.popped == m.popped[q := v] && q in m.pushed && m.pushed[q] == v
    case PopRefused(q) =>
      call.CallTryPop? && states[k].mem.tail == q && !PushDone(states[k].mem, q)
  }

  lemma EndsPush<V(!new)>(cap: nat, threadCount: nat, s: State<V>, pick: (nat, Call<V>), s': State<V>, q: nat)
    requires Good(cap, threadCount, s) && StepOf(s, pick, s') && !s.threads[pick.0].Idle? && s'.threads[pick.0] == Idle(Pushed(q))
    ensures exists v :: s.threads[pick.0] == PushPublish(q, v) && SlotStorage(s'.mem, q) == Some(v)
    ensures WellSized(s'.mem) && !PushDone(s.mem, q) && PushDone(s'.mem, q)
  {
    assert ThreadOk(s.mem, s.threads[pick.0]);
    assert s.threads[pick.0].PushPublish?;
  }

  lemma EndsPop<V(!new)>(cap: nat, threadCount: nat, s: State<V>, pick: (nat, Call<V>), s': State<V>, q: nat, v: V)
    requires Good(cap, threadCount, s) && StepOf(s, pick, s') && !s.threads[pick.0].Idle? && s'.threads[pick.0] == Idle(Popped(q, v))
    ensures s.threads[pick.0] == PopPublish(q, v) && q !in s.mem.popped && s'.mem.popped == s.mem.popped[q := v]
    ensures q in s.mem.pushed && s.mem.pushed[q] == v
  {
    assert ThreadOk(s.mem, s.threads[pick.0]);
  }

  lemma LastIsSome<V>(s: State<V>, pick: (nat, Call<V>), s': State<V>)
    requires StepOf(s, pick, s') && s'.threads[pick.0].Idle?
    ensures !s'.threads[pick.0].last.Fresh? && !s.threads[pick.0].Idle?
  {
  }

  /** Over every run: a call that reports a push took that ticket itself, for its own argument, and completed that push,
      which was not complete before; a call that reports a pop took that ticket itself and delivered the element pushed
      with it, which was not delivered before; only a try_push is refused, when at some instant inside the call the
      queue was full, and only a try_pop, when it was empty. */
  lemma CallsReportWhatTheyDid<V(!new)>(cap: nat, threadCount: nat, states: seq<State<V>>, picks: seq<(nat, Call<V>)>, t: nat, i: nat, j: nat)
      returns (k: nat)
    requires Run(cap, threadCount, states, picks) && IsCall(states, picks, t, i, j)
    ensures i <= k <= j && (forall l :: i <= l <= j + 1 ==> WellSized(states[l].mem)) && Reports(cap, states, picks, t, i, j, k)
  {
    forall l | i <= l <= j + 1 ensures WellSized(states[l].mem) { RunGood(cap, threadCount, states, picks, l); }
    RunGood(cap, threadCount, states, picks, j);
    assert StepOf(states[j], picks[j], states[j + 1]);
    hide Good, StepOf, Within;
    LastIsSome(states[j], picks[j], states[j + 1]);
    CallWithin(cap, threadCount, states, picks, t, i, j);
    match states[j + 1].threads[t].last
    case Pushed(q) =>
      EndsPush(cap, threadCount, states[j], picks[j], states[j + 1], q);
      k := PushTaken(cap, threadCount, states, picks, t, i, j);
      assert Pushes(picks[i].1) && picks[i].1.v == states[j].threads[t].v by { PushWithin(picks[i].1, states[j].threads[t]); }
    case PushRefused(h) =>
      RefusedWithin(picks[i].1, states[j], picks[j], states[j + 1]);
      k := TryPushRefusedOnlyWhenFull(cap, threadCount, states, picks, j);
    case Popped(q, v) =>
      EndsPop(cap, threadCount, states[j], picks[j], states[j + 1], q, v);
      k := PopTaken(cap, threadCount, states, picks, t, i, j);
      PopWithin(picks[i].1, states[j].threads[t]);
    case PopRefused(q) =>
      RefusedWithin(picks[i].1, states[j], picks[j], states[j + 1]);
      k := TryPopRefusedOnlyWhenEmpty(cap, threadCount, states, picks, j);
  }

  lemma PushWithin<V>(call: Call<V>, pc: Pc<V>)
    requires Within(call, pc) && HoldsPush(pc)
    ensures Pushes(call) && call.v == pc.v
  {
  }

  lemma PopWithin<V>(call: Call<V>, pc: Pc<V>)
    requires Within(call, pc) && HoldsPop(pc)
    ensures !Pushes(call)
  {
  }

  lemma RefusedWithin<V>(call: Call<V>, s: State<V>, pick: (nat, Call<V>), s': State<V>)
    requires StepOf(s, pick, s') && Within(call, s.threads[pick.0]) && s'.threads[pick.0].Idle?
    ensures s'.threads[pick.0].last.PushRefused? ==> call.CallTryPush?
    ensures s'.threads[pick.0].last.PopRefused? ==> call.CallTryPop?
  {
  }

  // ---- No ticket is reported twice --------------------------------------------------------------------------------

  /** The ticket a finished call reports, and whether it pushed. */
  predicate ReportsTicket<V>(pc: Pc<V>, push: bool, q: nat) {
    pc.Idle? && if push then pc.last.Pushed? && pc.last.ticket == q else pc.last.Popped? && pc.last.ticket == q
  }

  /** Two different calls never report the same ticket. */
  lemma NoTicketTwice<V(!new)>(cap: nat, threadCount: nat, states: seq<State<V>>, picks: seq<(nat, Call<V>)>, push: bool, q: nat,
                               t: nat, i: nat, j: nat, u: nat, i': nat, j': nat)
    requires Run(cap, threadCount, states, picks) && IsCall(states, picks, t, i, j) && IsCall(states, picks, u, i', j')
    requires ReportsTicket(states[j + 1].threads[t], push, q) && ReportsTicket(states[j' + 1].threads[u], push, q)
    ensures t == u && i == i' && j == j'
  {
    var k := CallsReportWhatTheyDid(cap, threadCount, states, picks, t, i, j);
    var k' := CallsReportWhatTheyDid(cap, threadCount, states, picks, u, i', j');
    if k < k' { RunFrame(cap, threadCount, states, picks, k + 1, k'); }
    if k' < k { RunFrame(cap, threadCount, states, picks, k' + 1, k); }
    assert k == k' && t == u;
    SameCall(states, picks, t, i, j, i', j', k);
  }

  /** Calls of one thread that share a step are the same. */
  lemma SameCall<V>(states: seq<State<V>>, picks: seq<(nat, Call<V>)>, t: nat, i: nat, j: nat, i': nat, j': nat, k: nat)
    requires IsCall(states, picks, t, i, j) && IsCall(states, picks, t, i', j') && i <= k <= j && i' <= k <= j'
    ensures i == i' && j == j'
  {
    assert states[i].threads[t].Idle? && states[i'].threads[t].Idle? && states[j + 1].threads[t].Idle? && states[j' + 1].threads[t].Idle?;
  }
}
