/** What get_or_add_implicit_producer of external/cameron314/concurrentqueue.h returns, call by call: the thread's own
    producer, or nothing only if memory was refused, and that only to a thread without one. */
module ProducerHashOutcomes {
  import opened Options
  import opened ProducerHash

  /** A call, or an exit, of thread t that begins with step i and ends with step j. */
  ghost predicate IsCall(states: seq<State>, picks: seq<Pick>, t: nat, i: nat, j: nat) {
    && |states| == |picks| + 1 && i <= j < |picks| && picks[i].thread == t && picks[j].thread == t
    && (forall l :: i <= l <= j + 1 ==> t < |states[l].threads|)
    && states[i].threads[t].pc.Idle? && states[j + 1].threads[t].pc.Idle?
    && forall l :: i < l <= j ==> !states[l].threads[t].pc.Idle?
  }

  /** The first steps of such a call, up to state l. */
  ghost predicate Begun(states: seq<State>, picks: seq<Pick>, t: nat, i: nat, l: nat) {
    && |states| == |picks| + 1 && i < l <= |picks| && picks[i].thread == t
    && (forall x :: i <= x <= l ==> t < |states[x].threads|) && states[i].threads[t].pc.Idle?
    && forall x :: i < x <= l ==> !states[x].threads[t].pc.Idle?
  }

  predicate OnExit(pc: Pc) { pc.ExitLoad? || pc.Clear? || pc.Release? }

  predicate GivingUp(pc: Pc) { pc.GiveUpLocked? || pc.UnlockFailed? || pc.GiveUp? }

  predicate HasAcquired(pc: Pc) { pc.TakeTomb? || pc.TakeEmpty? || pc.Uncount? || pc.StoreValue? }

  /** Memory is refused: the next table's, or the producer's. */
  predicate Refused(pc: Pc, pick: Pick) { (pc.Grow? || pc.Acquire?) && pick.noMemory }

  // ---- One step ---------------------------------------------------------------------------------------------------

  lemma StepExits(m: Memory, t: nat, th: Thread, pick: Pick)
    requires Sized(m) && InRange(m.tables, th.pc)
    ensures var th' := Access(m, t, th, pick).1;
            th'.pc.Idle? || (OnExit(th'.pc) <==> if th.pc.Idle? then pick.exit else OnExit(th.pc))
  {
  }

  lemma StepGivesUp(m: Memory, t: nat, th: Thread, pick: Pick)
    requires Sized(m) && InRange(m.tables, th.pc) && GivingUp(Access(m, t, th, pick).1.pc)
    ensures GivingUp(th.pc) || Refused(th.pc, pick)
  {
  }

  lemma StepOwns(m: Memory, t: nat, th: Thread, pick: Pick)
    requires Sized(m) && InRange(m.tables, th.pc)
    ensures var th' := Access(m, t, th, pick).1;
            || (th'.owns == th.owns && !th.pc.Release?)
            || (th.pc.Acquire? && !pick.noMemory && th'.owns == Some(pick.producer) && !th'.pc.Idle?)
            || (th.pc.Release? && th'.owns == None && th'.pc == Idle(NoCall))
  {
  }

  lemma StepEnds(m: Memory, t: nat, th: Thread, pick: Pick)
    requires Sized(m) && InRange(m.tables, th.pc) && Access(m, t, th, pick).1.pc.Idle?
    requires th.pc.Idle? && pick.exit ==> th.owns.Some?
    ensures !th.pc.Idle?
    ensures match Access(m, t, th, pick).1.pc.last
            case NoCall => th.pc.Release?
            case Failed => GivingUp(th.pc)
            case Got(_) => !OnExit(th.pc) && !GivingUp(th.pc) && !th.pc.Acquire?
  {
  }

  // ---- Up to a state of the call --------------------------------------------------------------------------------------

  lemma {:induction false} CallExits(states: seq<State>, picks: seq<Pick>, t: nat, i: nat, l: nat)
    requires Run(states, picks) && Begun(states, picks, t, i, l)
    ensures OnExit(states[l].threads[t].pc) <==> picks[i].exit
  {
    hide Inv, Access, OnExit, Run;
    RunInv(states, picks, l - 1);
    if i + 1 < l { CallExits(states, picks, t, i, l - 1); }
    if picks[l - 1].thread == t { StepExits(states[l - 1].mem, t, states[l - 1].threads[t], picks[l - 1]); }
  }

  /** A call that is giving up has been refused memory. */
  lemma {:induction false} WasRefused(states: seq<State>, picks: seq<Pick>, t: nat, i: nat, l: nat) returns (k: nat)
    requires Run(states, picks) && Begun(states, picks, t, i, l) && GivingUp(states[l].threads[t].pc)
    ensures i < k < l && picks[k].thread == t && Refused(states[k].threads[t].pc, picks[k])
  {
    hide Inv, Access, Run;
    RunInv(states, picks, l - 1);
    if picks[l - 1].thread == t { StepGivesUp(states[l - 1].mem, t, states[l - 1].threads[t], picks[l - 1]); }
    if GivingUp(states[l - 1].threads[t].pc) {
      k := WasRefused(states, picks, t, i, l - 1);
    } else {
      k := l - 1;
    }
  }

  /** Step k of thread t gets it the producer p. */
  predicate Acquires(s: State, pick: Pick, t: nat, p: nat) {
    t < |s.threads| && pick.thread == t && s.threads[t].pc.Acquire? && !pick.noMemory && pick.producer == p
  }

  /** A call owns what its thread did when it began, or what a step of its own has got a thread without a producer. */
  lemma {:induction false} OwnsThrough(states: seq<State>, picks: seq<Pick>, t: nat, i: nat, l: nat) returns (k: nat)
    requires Run(states, picks) && Begun(states, picks, t, i, l) && !picks[i].exit
    ensures i <= k < l
    ensures var before, now := states[i].threads[t].owns, states[l].threads[t].owns;
            now == before || (before == None && now.Some? && Acquires(states[k], picks[k], t, now.value))
  {
    hide Access, Run, LockOk, Exclusive, Present, AbsentFrom, Passed, PassedOver, ValuesOk, AllPlaced;
    RunInv(states, picks, l - 1);
    var s := states[l - 1];
    k := i;
    if i + 1 < l { k := OwnsThrough(states, picks, t, i, l - 1); CallExits(states, picks, t, i, l - 1); }
    if picks[l - 1].thread == t {
      assert ThreadOk(s.mem.tables, t, s.threads[t]);
      StepOwns(s.mem, t, s.threads[t], picks[l - 1]);
      if s.threads[t].pc.Acquire? && !picks[l - 1].noMemory { k := l - 1; }
    }
  }

  // ---- The call ---------------------------------------------------------------------------------------------------------

  /** Over every run: a lookup that fails has been refused memory at a step of its own, for the next table or for the
      producer, and its thread had no producer; one that returns p belongs to a thread that had p already, or to one
      without a producer that got p at a step of its own.  So a thread that has a producer is always given that one. */
  lemma LookupReports(states: seq<State>, picks: seq<Pick>, t: nat, i: nat, j: nat) returns (k: nat)
    requires Run(states, picks) && IsCall(states, picks, t, i, j) && !picks[i].exit
    ensures i <= k <= j
    ensures var before, now := states[i].threads[t].owns, states[j + 1].threads[t].owns;
            match states[j + 1].threads[t].pc.last
            case NoCall => false
            case Failed => before == now == None && picks[k].thread == t && Refused(states[k].threads[t].pc, picks[k])
            case Got(p) => now == Some(p) && (before == Some(p) || (before == None && Acquires(states[k], picks[k], t, p)))
    ensures states[i].threads[t].owns.Some? ==> states[j + 1].threads[t].pc.last == Got(states[i].threads[t].owns.value)
  {
    hide Access, Run, LockOk, Exclusive, Present, AbsentFrom, Passed, PassedOver, ValuesOk, AllPlaced;
    var s, s' := states[j], states[j + 1];
    RunInv(states, picks, j);
    RunInv(states, picks, j + 1);
    StepEnds(s.mem, t, s.threads[t], picks[j]);
    StepOwns(s.mem, t, s.threads[t], picks[j]);
    assert ThreadOk(s.mem.tables, t, s.threads[t]) && ThreadOk(s'.mem.tables, t, s'.threads[t]);
    k := i;
    if i < j {
      CallExits(states, picks, t, i, j);
      k := OwnsThrough(states, picks, t, i, j);
      if GivingUp(s.threads[t].pc) { k := WasRefused(states, picks, t, i, j); }
    }
  }

  /** Over every run: an exit of a thread with a producer gives it back and leaves no entry of the thread in any table. */
  lemma ExitReports(states: seq<State>, picks: seq<Pick>, t: nat, i: nat, j: nat)
    requires Run(states, picks) && IsCall(states, picks, t, i, j) && picks[i].exit && states[i].threads[t].owns.Some?
    ensures states[j + 1].threads[t].owns == None
    ensures var tables := states[j + 1].mem.tables; forall k :: 0 <= k < |tables| ==> Absent(tables[k], t)
  {
    hide Access, Run, Inv;
    RunInv(states, picks, j);
    StepEnds(states[j].mem, t, states[j].threads[t], picks[j]);
    StepOwns(states[j].mem, t, states[j].threads[t], picks[j]);
    if i < j { CallExits(states, picks, t, i, j); }
    LookupReturnsOwn(states, picks, j + 1, t);
  }
}
