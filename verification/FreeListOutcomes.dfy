/** What a call on the free list of external/cameron314/concurrentqueue.h reports is what that call did. */
module FreeListOutcomes {
  import opened Options
  import opened FreeList

  /** A call of thread t that begins with step i and ends with step j. */
  ghost predicate IsCall(states: seq<State>, picks: seq<(nat, Call)>, t: nat, i: nat, j: nat) {
    && |states| == |picks| + 1 && i <= j < |picks| && picks[i].0 == t && picks[j].0 == t
    && (forall l :: i <= l <= j + 1 ==> t < |states[l].threads|)
    && states[i].threads[t].Idle? && states[j + 1].threads[t].Idle?
    && forall l :: i < l <= j ==> !states[l].threads[t].Idle?
  }

  /** Where a call can be. */
  predicate Within(call: Call, pc: Pc) {
    match call
    case CallTryGet =>
      pc.TgRefs? || pc.TgInc? || pc.TgReload? || pc.TgNext? || pc.TgCas? || pc.TgDrop2? || pc.TgDrop? || (IsAdding(pc) && pc.cont.Loop?)
    case CallAdd(n) => IsAdding(pc) && pc.cont.Return? && pc.node == n
  }

  lemma StepWithin(m: Memory, t: nat, pc: Pc, call: Call, other: Call)
    requires Sized(m) && InRange(m, pc)
    ensures pc.Idle? ==> Access(m, t, pc, call).1.Idle? || Within(call, Access(m, t, pc, call).1)
    ensures Within(call, pc) ==> Access(m, t, pc, other).1.Idle? || Within(call, Access(m, t, pc, other).1)
  {
  }

  lemma {:induction false} CallWithin(nodes: nat, threadCount: nat, states: seq<State>, picks: seq<(nat, Call)>, t: nat, i: nat, l: nat)
    requires Run(nodes, threadCount, states, picks) && i < l <= |picks| && picks[i].0 == t && t < |states[i].threads| && states[i].threads[t].Idle?
    requires forall x :: i < x <= l ==> t < |states[x].threads| && !states[x].threads[t].Idle?
    ensures Within(picks[i].1, states[l].threads[t])
  {
    hide Within, Access;
    assert StepOf(states[l - 1], picks[l - 1], states[l]);
    if i + 1 == l {
      StepWithin(states[i].mem, t, states[i].threads[t], picks[i].1, picks[i].1);
    } else {
      CallWithin(nodes, threadCount, states, picks, t, i, l - 1);
      if picks[l - 1].0 == t { StepWithin(states[l - 1].mem, t, states[l - 1].threads[t], picks[i].1, picks[l - 1].1); }
    }
  }

  // ---- try_get ------------------------------------------------------------------------------------------------------

  /** The head a thread goes on with, that its failed exchange read. */
  function Carries(pc: Pc): Option<Option<nat>> {
    if pc.TgDrop? then Some(pc.head) else if IsAdding(pc) && pc.cont.Loop? then Some(pc.cont.head) else None
  }

  lemma CarriesFrom(m: Memory, t: nat, pc: Pc, call: Call)
    requires Sized(m) && InRange(m, pc) && Carries(Access(m, t, pc, call).1).Some?
    ensures Carries(pc) == Carries(Access(m, t, pc, call).1) || (pc.TgCas? && Carries(Access(m, t, pc, call).1) == Some(m.head))
  {
  }

  /** The head it carries was the head at some instant inside the call. */
  lemma {:induction false} Carried(nodes: nat, threadCount: nat, states: seq<State>, picks: seq<(nat, Call)>, t: nat, i: nat, l: nat)
      returns (k: nat)
    requires Run(nodes, threadCount, states, picks) && i < l <= |picks| && picks[i].0 == t && t < |states[i].threads| && states[i].threads[t].Idle?
    requires forall x :: i < x <= l ==> t < |states[x].threads| && !states[x].threads[t].Idle?
    requires Carries(states[l].threads[t]).Some?
    ensures i < k < l && states[k].mem.head == Carries(states[l].threads[t]).value
  {
    assert StepOf(states[l - 1], picks[l - 1], states[l]);
    hide Access;
    var pc := states[l - 1].threads[t];
    if picks[l - 1].0 == t { CarriesFrom(states[l - 1].mem, t, pc, picks[l - 1].1); }
    if Carries(pc) == Carries(states[l].threads[t]) {
      k := Carried(nodes, threadCount, states, picks, t, i, l - 1);
    } else {
      k := l - 1;
    }
  }

  lemma EndsEmpty(m: Memory, t: nat, pc: Pc, call: Call)
    requires Sized(m) && InRange(m, pc) && Access(m, t, pc, call).1 == Idle(None)
    requires (pc.Idle? && call.CallTryGet?) || Within(CallTryGet, pc)
    ensures m.head == None || Carries(pc) == Some(None)
  {
  }

  lemma TakenFrom(m: Memory, t: nat, pc: Pc, call: Call, n: nat)
    requires Sized(m) && InRange(m, pc) && Access(m, t, pc, call).1 == TgDrop2(n)
    ensures pc == TgDrop2(n) || (pc.TgCas? && pc.node == n && m.head == Some(n) && Access(m, t, pc, call).0.list == if m.list == [] then [] else m.list[1..])
  {
  }

  /** The step of the call that unlinked the node it has taken. */
  lemma {:induction false} Unlinked(nodes: nat, threadCount: nat, states: seq<State>, picks: seq<(nat, Call)>, t: nat, i: nat, l: nat, n: nat)
      returns (k: nat)
    requires Run(nodes, threadCount, states, picks) && i < l <= |picks| && picks[i].0 == t && t < |states[i].threads| && states[i].threads[t].Idle?
    requires forall x :: i < x <= l ==> t < |states[x].threads| && !states[x].threads[t].Idle?
    requires states[l].threads[t] == TgDrop2(n)
    ensures i < k < l && picks[k].0 == t && Unlinks(states[k], states[k + 1], n)
  {
    hide Access;
    assert StepOf(states[l - 1], picks[l - 1], states[l]);
    var pc := states[l - 1].threads[t];
    if picks[l - 1].0 == t { TakenFrom(states[l - 1].mem, t, pc, picks[l - 1].1, n); }
    if picks[l - 1].0 == t && pc.TgCas? {
      k := l - 1;
      hide NodeOk, ThreadOk, ListOk;
      RunInv(nodes, threadCount, states, picks, k);
      UnlinkExact(states[k], t);
    } else {
      k := Unlinked(nodes, threadCount, states, picks, t, i, l - 1, n);
    }
  }

  /** The first node of the list, n, is taken off it. */
  predicate Unlinks(s: State, s': State, n: nat) { s.mem.list == [n] + s'.mem.list }

  lemma EndsWith(m: Memory, t: nat, pc: Pc, call: Call, n: nat)
    requires Sized(m) && InRange(m, pc) && Access(m, t, pc, call).1 == Idle(Some(n))
    requires (pc.Idle? && call.CallTryGet?) || Within(CallTryGet, pc)
    ensures pc == TgDrop2(n)
  {
  }

  /** Over every run: a try_get that returns no node found the list empty at some instant inside the call; one that
      returns a node took it off the front of the list itself, and the node is the caller's from then on, and was not
      before. */
  lemma TryGetReports(nodes: nat, threadCount: nat, states: seq<State>, picks: seq<(nat, Call)>, t: nat, i: nat, j: nat)
      returns (k: nat)
    requires Run(nodes, threadCount, states, picks) && IsCall(states, picks, t, i, j) && picks[i].1 == CallTryGet
    ensures i <= k <= j
    ensures match states[j + 1].threads[t].got
            case None => states[k].mem.head == None && states[k].mem.list == []
            case Some(n) =>
              && picks[k].0 == t && Unlinks(states[k], states[k + 1], n)
              && n < |states[j].mem.status| == |states[j + 1].mem.status| && states[j].mem.status[n] != Owned == states[j + 1].mem.status[n]
  {
    var s, pc := states[j], states[j].threads[t];
    assert StepOf(s, picks[j], states[j + 1]);
    if i < j { CallWithin(nodes, threadCount, states, picks, t, i, j); }
    match states[j + 1].threads[t].got
    case None =>
      EndsEmpty(s.mem, t, pc, picks[j].1);
      if s.mem.head == None { k := j; } else { k := Carried(nodes, threadCount, states, picks, t, i, j); }
      RunInv(nodes, threadCount, states, picks, k);
    case Some(n) =>
      EndsWith(s.mem, t, pc, picks[j].1, n);
      k := Unlinked(nodes, threadCount, states, picks, t, i, j, n);
      HandOutOwns(nodes, threadCount, states, picks, j, n);
  }

  // ---- add ------------------------------------------------------------------------------------------------------------

  lemma EndsAdd(m: Memory, t: nat, pc: Pc, call: Call, n: nat)
    requires Sized(m) && InRange(m, pc) && n < |m.refs| && Access(m, t, pc, call).1.Idle?
    requires (pc.Idle? && call == CallAdd(n) && m.status[n] == Owned) || (Within(CallAdd(n), pc) && m.status[n] == Adding(t))
    ensures var (m', pc') := Access(m, t, pc, call);
            pc' == Idle(None) && n < |m'.status| && (m'.status[n] == Deferred || (m'.status[n] == Linked && m'.list == [n] + m.list))
  {
  }

  /** Over every run: when an add of a node by its owner ends, it has just put the node at the front of the list, or left
      that to whoever drops the last reference to it. */
  lemma AddReports(nodes: nat, threadCount: nat, states: seq<State>, picks: seq<(nat, Call)>, t: nat, i: nat, j: nat, n: nat)
    requires Run(nodes, threadCount, states, picks) && IsCall(states, picks, t, i, j) && picks[i].1 == CallAdd(n)
    requires n < |states[i].mem.status| && states[i].mem.status[n] == Owned
    ensures n < |states[j + 1].mem.status|
    ensures || states[j + 1].mem.status[n] == Deferred
            || (states[j + 1].mem.status[n] == Linked && states[j + 1].mem.list == [n] + states[j].mem.list)
  {
    RunInv(nodes, threadCount, states, picks, i);
    RunInv(nodes, threadCount, states, picks, j);
    assert StepOf(states[j], picks[j], states[j + 1]);
    if i < j {
      CallWithin(nodes, threadCount, states, picks, t, i, j);
      assert ThreadOk(states[j].mem, t, states[j].threads[t]);
    }
    EndsAdd(states[j].mem, t, states[j].threads[t], picks[j].1, n);
  }

  // ---- A call that runs alone ------------------------------------------------------------------------------------------

  /** Thread t takes so many steps, and nobody else any. */
  function Alone(s: State, t: nat, call: Call, steps: nat): Option<State>
    requires t < |s.threads|
    ensures Alone(s, t, call, steps).Some? ==> |Alone(s, t, call, steps).value.threads| == |s.threads|
  {
    if steps == 0 then Some(s)
    else
      match Alone(s, t, call, steps - 1)
      case None => None
      case Some(r) => if Sized(r.mem) && InRange(r.mem, r.threads[t]) then Some(Step(r, t, call)) else None
  }

  lemma Next(s: State, t: nat, call: Call, steps: nat, r: State)
    requires t < |s.threads| && Alone(s, t, call, steps) == Some(r) && Sized(r.mem) && InRange(r.mem, r.threads[t])
    ensures Alone(s, t, call, steps + 1) == Some(Step(r, t, call))
  {
  }

  lemma IdleRefs(s: State, n: nat)
    requires Inv(s) && n < |s.mem.refs| && forall u :: 0 <= u < |s.threads| ==> s.threads[u].Idle?
    ensures s.mem.status[n] == Linked ==> s.mem.refs[n] == Refs(false, 1)
    ensures s.mem.status[n] == Owned ==> s.mem.refs[n] == Refs(false, 0)
  {
    NoHolders(s.threads, n);
    assert NodeOk(s, n);
  }

  /** With no other call in flight, a try_get returns the first node of the list, and none only if there is none. */
  lemma TryGetAlone(s: State, t: nat)
    requires Inv(s) && t < |s.threads| && forall u :: 0 <= u < |s.threads| ==> s.threads[u].Idle?
    ensures s.mem.list == [] ==> Alone(s, t, CallTryGet, 1) == Some(s.(threads := s.threads[t := Idle(None)]))
    ensures s.mem.list != [] ==>
              var n := s.mem.list[0];
              && n < |s.mem.status| && Alone(s, t, CallTryGet, 6).Some?
              && var s' := Alone(s, t, CallTryGet, 6).value;
              && s'.threads == s.threads[t := Idle(Some(n))] && s'.mem.list == s.mem.list[1..] && s'.mem.status == s.mem.status[n := Owned]
  {
    Next(s, t, CallTryGet, 0, s);
    if s.mem.list != [] {
      var n := s.mem.list[0];
      IdleRefs(s, n);
      var s4 := ReachesExchange(s, t, n);
      var s6 := ExchangesAlone(s4, t, n, s.mem.next[n]);
      Next(s, t, CallTryGet, 4, s4);
      Next(s, t, CallTryGet, 5, Step(s4, t, CallTryGet));
      assert s6.threads == s.threads[t := Idle(Some(n))] && s6.mem.status == s.mem.status[n := Owned];
    }
  }

  /** Up to the exchange: the node is counted in, and what follows it is read. */
  lemma ReachesExchange(s: State, t: nat, n: nat) returns (s4: State)
    requires Sized(s.mem) && t < |s.threads| && s.threads[t].Idle? && n < |s.mem.refs| && s.mem.head == Some(n) && s.mem.refs[n] == Refs(false, 1)
    ensures Alone(s, t, CallTryGet, 4) == Some(s4)
    ensures s4.threads == s.threads[t := TgCas(n, s.mem.next[n])] && s4.mem == SetRefs(s.mem, n, Refs(false, 2))
  {
    assert Alone(s, t, CallTryGet, 0) == Some(s);
    hide Alone;
    Next(s, t, CallTryGet, 0, s);
    var s1 := Step(s, t, CallTryGet);
    assert s1 == s.(threads := s.threads[t := TgRefs(n)]);
    Next(s, t, CallTryGet, 1, s1);
    var s2 := Step(s1, t, CallTryGet);
    assert s2 == s.(threads := s.threads[t := TgInc(n, Refs(false, 1))]);
    Next(s, t, CallTryGet, 2, s2);
    var s3 := Step(s2, t, CallTryGet);
    assert s3.threads == s.threads[t := TgNext(n)];
    Next(s, t, CallTryGet, 3, s3);
    s4 := Step(s3, t, CallTryGet);
    assert s4.threads == s.threads[t := TgCas(n, s.mem.next[n])];
  }

  lemma ExchangesAlone(s: State, t: nat, n: nat, next: Option<nat>) returns (s6: State)
    requires Sized(s.mem) && t < |s.threads| && s.threads[t] == TgCas(n, next) && InRange(s.mem, s.threads[t])
    requires s.mem.head == Some(n) && s.mem.list != [] && s.mem.refs[n] == Refs(false, 2)
    ensures Sized(Step(s, t, CallTryGet).mem) && Step(s, t, CallTryGet).threads[t] == TgDrop2(n)
    ensures s6 == Step(Step(s, t, CallTryGet), t, CallTryGet)
    ensures s6.threads == s.threads[t := Idle(Some(n))] && s6.mem.list == s.mem.list[1..] && s6.mem.status == s.mem.status[n := Owned]
  {
    var s5 := Step(s, t, CallTryGet);
    s6 := Step(s5, t, CallTryGet);
    assert s6.mem.status == s.mem.status[n := Owned];
  }

  /** With no other call in flight, an add of an owned node puts it at the front of the list. */
  lemma AddAlone(s: State, t: nat, n: nat)
    requires Inv(s) && t < |s.threads| && forall u :: 0 <= u < |s.threads| ==> s.threads[u].Idle?
    requires n < |s.mem.status| && s.mem.status[n] == Owned
    ensures Alone(s, t, CallAdd(n), 5).Some?
    ensures var s' := Alone(s, t, CallAdd(n), 5).value;
            s'.threads == s.threads[t := Idle(None)] && s'.mem.list == [n] + s.mem.list && s'.mem.status == s.mem.status[n := Linked]
  {
    var call := CallAdd(n);
    IdleRefs(s, n);
    assert Alone(s, t, call, 0) == Some(s);
    var s1 := Step(s, t, call);
    assert Alone(s, t, call, 1) == Some(s1) && s1.threads == s.threads[t := AkLoad(n, Return)];
    var s2 := Step(s1, t, call);
    assert Alone(s, t, call, 2) == Some(s2) && s2.threads == s.threads[t := AkNext(n, s.mem.head, Return)];
    var s3 := Step(s2, t, call);
    assert Alone(s, t, call, 3) == Some(s3) && s3.threads == s.threads[t := AkRefs(n, s.mem.head, Return)];
    var s4 := Step(s3, t, call);
    assert Alone(s, t, call, 4) == Some(s4) && s4.threads == s.threads[t := AkCas(n, s.mem.head, Return)];
    var s5 := Step(s4, t, call);
    assert Alone(s, t, call, 5) == Some(s5);
    assert s5.mem.status == s.mem.status[n := Linked];
  }
}
