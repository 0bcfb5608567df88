/** The reference-counted free list of external/cameron314/concurrentqueue.h (struct FreeList) as an
    interleaving machine.  Every atomic access is one step.  Nodes are numbers below |refs|; a node is
    added only by whoever owns it. */
module FreeList {
  import opened Options

  /** freeListRefs: the should-be-on-freelist bit and the 31 bits of reference count. */
  datatype Refs = Refs(flag: bool, count: nat)

  /** Where add_knowing_refcount_is_zero returns to: out of add, or into try_get's loop, which goes on
      with the head its failed exchange read. */
  datatype Cont = Return | Loop(head: Option<nat>)

  datatype Pc =
    | Idle(got: Option<nat>)                                   // what the latest try_get returned
      // add_knowing_refcount_is_zero
    | AkLoad(node: nat, cont: Cont)                            // about to load freeListHead
    | AkNext(node: nat, head: Option<nat>, cont: Cont)         // about to store freeListNext
    | AkRefs(node: nat, head: Option<nat>, cont: Cont)         // about to store 1 in freeListRefs
    | AkCas(node: nat, head: Option<nat>, cont: Cont)          // about to exchange freeListHead
    | AkFail(node: nat, head: Option<nat>, cont: Cont)         // exchange failed, about to give the list's reference back
      // try_get
    | TgRefs(node: nat)                                        // about to load freeListRefs of the head it saw
    | TgInc(node: nat, seen: Refs)                             // about to exchange the count
    | TgReload
    | TgNext(node: nat)                                        // reference held, about to load freeListNext
    | TgCas(node: nat, next: Option<nat>)                      // about to exchange freeListHead
    | TgDrop2(node: nat)                                       // node taken, about to drop two references
    | TgDrop(node: nat, head: Option<nat>)                     // exchange failed, about to drop one reference

  datatype Call = CallAdd(node: nat) | CallTryGet

  /** Which of its five lives a node is in; kept beside the source's fields. */
  datatype Status =
    | Owned                 // outside the list, in a client's hands
    | Linked                // on the list
    | Taken(thread: nat)    // unlinked by a try_get that has not returned yet
    | Adding(thread: nat)   // in add_knowing_refcount_is_zero
    | Deferred              // should be on the list; whoever drops the last reference adds it

  datatype Memory = Memory(head: Option<nat>, refs: seq<Refs>, next: seq<Option<nat>>, list: seq<nat>, status: seq<Status>)

  datatype State = State(mem: Memory, threads: seq<Pc>)

  predicate Sized(m: Memory) { |m.refs| == |m.next| == |m.status| }

  function NodeOf(pc: Pc): Option<nat> {
    if pc.Idle? || pc.TgReload? then None else Some(pc.node)
  }

  /** The program counters of a thread only mention nodes and heads that exist. */
  predicate InRange(m: Memory, pc: Pc) {
    && (NodeOf(pc).Some? ==> NodeOf(pc).value < |m.refs|)
    && (pc.TgDrop? && pc.head.Some? ==> pc.head.value < |m.refs|)
    && (IsAdding(pc) && pc.cont.Loop? && pc.cont.head.Some? ==> pc.cont.head.value < |m.refs|)
  }

  predicate IsAdding(pc: Pc) { pc.AkLoad? || pc.AkNext? || pc.AkRefs? || pc.AkCas? || pc.AkFail? }

  /** The thread has counted itself in the node's references. */
  predicate Holds(pc: Pc, n: nat) { (pc.TgNext? || pc.TgCas? || pc.TgDrop2? || pc.TgDrop?) && pc.node == n }

  function AtHead(head: Option<nat>): Pc {
    match head
    case None => Idle(None)
    case Some(n) => TgRefs(n)
  }

  function Continue(cont: Cont): Pc {
    match cont
    case Return => Idle(None)
    case Loop(head) => AtHead(head)
  }

  function SetRefs(m: Memory, n: nat, r: Refs): Memory
    requires n < |m.refs|
  { m.(refs := m.refs[n := r]) }

  function SetStatus(m: Memory, n: nat, s: Status): Memory
    requires n < |m.status|
  { m.(status := m.status[n := s]) }

  /** One atomic access by thread t at pc. */
  function Access(m: Memory, t: nat, pc: Pc, call: Call): (Memory, Pc)
    requires Sized(m) && InRange(m, pc)
  {
    match pc
    case Idle(_) => (
      match call
      case CallTryGet => (m, AtHead(m.head))
      case CallAdd(n) =>
        if n >= |m.refs| || m.status[n] != Owned then (m, pc)  // only the owner adds a node
        else
          var before := m.refs[n];
          var m' := SetRefs(m, n, Refs(true, before.count));  // fetch_add of a bit known to be clear
          if before == Refs(false, 0) then (SetStatus(m', n, Adding(t)), AkLoad(n, Return))
          else (SetStatus(m', n, Deferred), Idle(None)))
    case AkLoad(n, cont) => (m, AkNext(n, m.head, cont))
    case AkNext(n, h, cont) => (m.(next := m.next[n := h]), AkRefs(n, h, cont))
    case AkRefs(n, h, cont) => (SetRefs(m, n, Refs(false, 1)), AkCas(n, h, cont))
    case AkCas(n, h, cont) =>
      if m.head == h then
        (SetStatus(m.(head := Some(n), list := [n] + m.list), n, Linked), Continue(cont))
      else
        (m, AkFail(n, m.head, cont))
    case AkFail(n, h, cont) =>
      var before := m.refs[n];
      if before.count == 0 then (m, pc)  // the count includes the reference given back here
      else
        var m' := SetRefs(m, n, Refs(true, before.count - 1));
        if before == Refs(false, 1) then (m', AkNext(n, h, cont))
        else (SetStatus(m', n, Deferred), Continue(cont))
    case TgRefs(n) =>
      if m.refs[n].count == 0 then (m, TgReload) else (m, TgInc(n, m.refs[n]))
    case TgInc(n, seen) =>
      if m.refs[n] == seen then (SetRefs(m, n, Refs(seen.flag, seen.count + 1)), TgNext(n)) else (m, TgReload)
    case TgReload => (m, AtHead(m.head))
    case TgNext(n) => (m, TgCas(n, m.next[n]))
    case TgCas(n, nx) =>
      if m.head == Some(n) then
        (SetStatus(m.(head := nx, list := if m.list == [] then [] else m.list[1..]), n, Taken(t)), TgDrop2(n))
      else
        (m, TgDrop(n, m.head))
    case TgDrop2(n) =>
      var before := m.refs[n];
      if before.count < 2 then (m, pc)  // the count includes both references
      else (SetStatus(SetRefs(m, n, Refs(before.flag, before.count - 2)), n, Owned), Idle(Some(n)))
    case TgDrop(n, h) =>
      var before := m.refs[n];
      if before.count == 0 then (m, pc)  // the count includes the reference dropped here
      else
        var m' := SetRefs(m, n, Refs(before.flag, before.count - 1));
        if before == Refs(true, 1) then (SetStatus(m', n, Adding(t)), AkLoad(n, Loop(h)))
        else (m', AtHead(h))
  }

  function Step(s: State, t: nat, call: Call): State
    requires Sized(s.mem) && t < |s.threads| && InRange(s.mem, s.threads[t])
  {
    var (m, pc) := Access(s.mem, t, s.threads[t], call);
    State(m, s.threads[t := pc])
  }

  function Init(nodes: nat, threadCount: nat): State {
    State(Memory(None, seq(nodes, _ => Refs(false, 0)), seq(nodes, _ => None), [], seq(nodes, _ => Owned)),
          seq(threadCount, _ => Idle(None)))
  }

  // ---- Counting references -------------------------------------------------------------------------

  /** How many threads hold a reference to node n. */
  function Holders(threads: seq<Pc>, n: nat): nat {
    if threads == [] then 0
    else Holders(threads[..|threads| - 1], n) + (if Holds(threads[|threads| - 1], n) then 1 else 0)
  }

  lemma {:induction false} HoldersUpdate(threads: seq<Pc>, t: nat, pc: Pc, n: nat)
    requires t < |threads|
    ensures Holders(threads[t := pc], n) + (if Holds(threads[t], n) then 1 else 0)
         == Holders(threads, n) + (if Holds(pc, n) then 1 else 0)
  {
    var last := |threads| - 1;
    if t == last {
      assert threads[t := pc][..last] == threads[..last];
    } else {
      assert threads[t := pc][..last] == threads[..last][t := pc];
      HoldersUpdate(threads[..last], t, pc, n);
    }
  }

  lemma {:induction false} HolderCounted(threads: seq<Pc>, t: nat, n: nat)
    requires t < |threads| && Holds(threads[t], n)
    ensures Holders(threads, n) > 0
  {
    if t < |threads| - 1 { HolderCounted(threads[..|threads| - 1], t, n); }
  }

  lemma {:induction false} NoHolders(threads: seq<Pc>, n: nat)
    requires forall t :: 0 <= t < |threads| ==> !Holds(threads[t], n)
    ensures Holders(threads, n) == 0
  {
    if threads != [] { NoHolders(threads[..|threads| - 1], n); }
  }

  // ---- The invariant -------------------------------------------------------------------------------

  function ListNext(list: seq<nat>, i: nat): Option<nat> {
    if i + 1 < |list| then Some(list[i + 1]) else None
  }

  /** list is the chain from freeListHead, without repetition. */
  ghost predicate ListOk(m: Memory)
    requires Sized(m)
  {
    && m.head == (if m.list == [] then None else Some(m.list[0]))
    && (forall i :: 0 <= i < |m.list| ==> m.list[i] < |m.refs|)
    && (forall i :: 0 <= i < |m.list| ==> m.next[m.list[i]] == ListNext(m.list, i))
    && (forall i, j :: 0 <= i < j < |m.list| ==> m.list[i] != m.list[j])
    && (forall n :: 0 <= n < |m.status| ==> (m.status[n] == Linked <==> n in m.list))
  }

  /** The list's own reference to node n, present while the node is linked, is being unlinked, or is
      offered by a thread about to exchange the head. */
  function ListRef(threads: seq<Pc>, st: Status): nat {
    match st
    case Owned => 0
    case Deferred => 0
    case Linked => 1
    case Taken(_) => 1
    case Adding(t) => if t < |threads| && (threads[t].AkCas? || threads[t].AkFail?) then 1 else 0
  }

  function ShouldFlag(threads: seq<Pc>, st: Status): bool {
    match st
    case Deferred => true
    case Adding(t) => t < |threads| && !threads[t].AkCas? && !threads[t].AkFail?
    case _ => false
  }

  ghost predicate NodeOk(s: State, n: nat)
    requires Sized(s.mem) && n < |s.mem.refs|
  {
    var st := s.mem.status[n];
    && s.mem.refs[n].count == Holders(s.threads, n) + ListRef(s.threads, st)
    && s.mem.refs[n].flag == ShouldFlag(s.threads, st)
    && (st == Deferred ==> s.mem.refs[n].count > 0)
    && (st.Adding? && s.mem.refs[n].flag ==> s.mem.refs[n].count == 0)
    && (st.Adding? ==> st.thread < |s.threads| && IsAdding(s.threads[st.thread]) && s.threads[st.thread].node == n)
    && (st.Taken? ==> st.thread < |s.threads| && s.threads[st.thread] == TgDrop2(n))
  }

  ghost predicate ThreadOk(m: Memory, t: nat, pc: Pc)
    requires Sized(m)
  {
    && InRange(m, pc)
    && (IsAdding(pc) ==> m.status[pc.node] == Adding(t))
    && (pc.AkRefs? || pc.AkCas? ==> m.next[pc.node] == pc.head)
    && (pc.TgInc? ==> pc.seen.count > 0)
    && (pc.TgCas? ==> m.next[pc.node] == pc.next)
    && (pc.TgDrop2? ==> m.status[pc.node] == Taken(t))
  }

  ghost predicate Inv(s: State) {
    && Sized(s.mem)
    && ListOk(s.mem)
    && (forall n :: 0 <= n < |s.mem.refs| ==> NodeOk(s, n))
    && (forall t :: 0 <= t < |s.threads| ==> ThreadOk(s.mem, t, s.threads[t]))
  }

  // ---- Every step keeps the invariant --------------------------------------------------------------

  /** The old status of a node whose status a step of thread t may change. */
  predicate MayChange(st: Status, t: nat) {
    st.Owned? || st.Linked? || st.Deferred? || st == Adding(t) || st == Taken(t)
  }

  /** A step of thread t that touches at most node k, in memory and in what it holds. */
  ghost predicate Touches(s: State, t: nat, m': Memory, pc': Pc, k: nat)
    requires Inv(s) && t < |s.threads|
  {
    var m, pc := s.mem, s.threads[t];
    && k < |m.refs| && Sized(m') && |m'.refs| == |m.refs|
    && (forall n :: 0 <= n < |m.refs| && n != k ==>
          m'.refs[n] == m.refs[n] && m'.status[n] == m.status[n] && m'.next[n] == m.next[n])
    && (m'.status[k] == m.status[k] || MayChange(m.status[k], t))
    && (m'.next[k] == m.next[k] || (Holders(s.threads, k) == 0 && m.status[k] == Adding(t)))
    && (forall n :: n != k ==> Holds(pc, n) == Holds(pc', n))
    && (IsAdding(pc) || pc.TgDrop2? ==> pc.node == k)
  }

  lemma OtherNodes(s: State, t: nat, m': Memory, pc': Pc, k: nat, n: nat)
    requires Inv(s) && t < |s.threads| && Touches(s, t, m', pc', k)
    requires n < |s.mem.refs| && n != k
    ensures NodeOk(State(m', s.threads[t := pc']), n)
  {
    assert NodeOk(s, n);
    HoldersUpdate(s.threads, t, pc', n);
  }

  lemma OtherThreads(s: State, t: nat, m': Memory, pc': Pc, k: nat, u: nat)
    requires Inv(s) && t < |s.threads| && Touches(s, t, m', pc', k)
    requires u < |s.threads| && u != t
    ensures ThreadOk(m', u, s.threads[u])
  {
    assert ThreadOk(s.mem, u, s.threads[u]);
    if s.threads[u].TgCas? && s.threads[u].node == k { HolderCounted(s.threads, u, k); }
  }

  lemma TouchKeeps(s: State, t: nat, m': Memory, pc': Pc, k: nat)
    requires Inv(s) && t < |s.threads| && Touches(s, t, m', pc', k)
    requires ListOk(m')
    requires NodeOk(State(m', s.threads[t := pc']), k)
    requires ThreadOk(m', t, pc')
    ensures Inv(State(m', s.threads[t := pc']))
  {
    var s' := State(m', s.threads[t := pc']);
    forall n | 0 <= n < |s'.mem.refs| ensures NodeOk(s', n) {
      if n != k { OtherNodes(s, t, m', pc', k, n); }
    }
    forall u | 0 <= u < |s'.threads| ensures ThreadOk(s'.mem, u, s'.threads[u]) {
      if u != t { OtherThreads(s, t, m', pc', k, u); }
    }
  }

  /** A step that changes no memory and no reference held. */
  lemma MoveKeeps(s: State, t: nat, pc': Pc)
    requires Inv(s) && t < |s.threads| && ThreadOk(s.mem, t, pc')
    requires forall n :: Holds(s.threads[t], n) == Holds(pc', n)
    requires IsAdding(s.threads[t]) == IsAdding(pc')
    requires IsAdding(pc') ==> pc'.node == s.threads[t].node
    requires (s.threads[t].AkCas? || s.threads[t].AkFail?) == (pc'.AkCas? || pc'.AkFail?)
    requires !s.threads[t].TgDrop2?
    ensures Inv(State(s.mem, s.threads[t := pc']))
  {
    var s' := State(s.mem, s.threads[t := pc']);
    forall n | 0 <= n < |s'.mem.refs| ensures NodeOk(s', n) {
      assert NodeOk(s, n);
      HoldersUpdate(s.threads, t, pc', n);
    }
  }

  /** A thread going back to the top of the loop, or out of it, holds nothing. */
  lemma ContinueOk(m: Memory, t: nat, cont: Cont)
    requires Sized(m) && (cont.Loop? && cont.head.Some? ==> cont.head.value < |m.refs|)
    ensures ThreadOk(m, t, Continue(cont)) && !IsAdding(Continue(cont))
    ensures forall n :: !Holds(Continue(cont), n)
  {
  }

  /** The list is untouched by changes to a node that is not on it. */
  lemma ListFrame(m: Memory, m': Memory, n: nat)
    requires Sized(m) && Sized(m') && ListOk(m) && |m'.refs| == |m.refs| && n < |m.refs|
    requires m'.head == m.head && m'.list == m.list
    requires forall k :: 0 <= k < |m.refs| && k != n ==> m'.next[k] == m.next[k] && m'.status[k] == m.status[k]
    requires m'.status[n] == m.status[n] || (m.status[n] != Linked && m'.status[n] != Linked)
    requires m'.next[n] == m.next[n] || m.status[n] != Linked
    ensures ListOk(m')
  {
  }

  lemma AddCallKeeps(s: State, t: nat, n: nat)
    requires Inv(s) && t < |s.threads| && s.threads[t].Idle?
    requires n < |s.mem.refs| && s.mem.status[n] == Owned
    ensures Inv(Step(s, t, CallAdd(n)))
  {
    var (m', pc') := Access(s.mem, t, s.threads[t], CallAdd(n));
    assert NodeOk(s, n);
    HoldersUpdate(s.threads, t, pc', n);
    ListFrame(s.mem, m', n);
    TouchKeeps(s, t, m', pc', n);
  }

  /** Nobody else can reach a node with no references: its next pointer and count are the adder's. */
  lemma NextKeeps(s: State, t: nat, call: Call)
    requires Inv(s) && t < |s.threads| && (s.threads[t].AkNext? || s.threads[t].AkRefs?)
    ensures Inv(Step(s, t, call))
  {
    var pc := s.threads[t];
    var n := pc.node;
    var (m', pc') := Access(s.mem, t, pc, call);
    assert ThreadOk(s.mem, t, pc) && NodeOk(s, n);
    HoldersUpdate(s.threads, t, pc', n);
    ListFrame(s.mem, m', n);
    TouchKeeps(s, t, m', pc', n);
  }

  lemma LinkKeeps(s: State, t: nat, call: Call)
    requires Inv(s) && t < |s.threads| && s.threads[t].AkCas? && s.mem.head == s.threads[t].head
    ensures Inv(Step(s, t, call))
  {
    var AkCas(n, h, cont) := s.threads[t];
    assert ThreadOk(s.mem, t, s.threads[t]) && NodeOk(s, n);
    var m' := SetStatus(s.mem.(head := Some(n), list := [n] + s.mem.list), n, Linked);
    var pc' := Continue(cont);
    ContinueOk(m', t, cont);
    HoldersUpdate(s.threads, t, pc', n);
    LinkList(s.mem, n, h);
    TouchKeeps(s, t, m', pc', n);
  }

  lemma LinkList(m: Memory, n: nat, h: Option<nat>)
    requires Sized(m) && ListOk(m) && n < |m.refs| && m.status[n] != Linked && m.head == h && m.next[n] == h
    ensures ListOk(SetStatus(m.(head := Some(n), list := [n] + m.list), n, Linked))
  {
    var list := [n] + m.list;
    assert n !in m.list;
    assert forall i :: 0 < i < |list| ==> list[i] == m.list[i - 1];
  }

  /** The exchange failed and nobody took a reference meanwhile: the adder tries again. */
  lemma RetryKeeps(s: State, t: nat, call: Call)
    requires Inv(s) && t < |s.threads| && s.threads[t].AkFail? && s.mem.refs[s.threads[t].node] == Refs(false, 1)
    ensures Inv(Step(s, t, call))
  {
    hide ListOk;
    var AkFail(n, h, cont) := s.threads[t];
    assert ThreadOk(s.mem, t, s.threads[t]) && NodeOk(s, n);
    var m' := SetRefs(s.mem, n, Refs(true, 0));
    HoldersUpdate(s.threads, t, AkNext(n, h, cont), n);
    ListFrame(s.mem, m', n);
    TouchKeeps(s, t, m', AkNext(n, h, cont), n);
  }

  /** The exchange failed and others hold references: the add is left to the last of them. */
  lemma DeferKeeps(s: State, t: nat, call: Call)
    requires Inv(s) && t < |s.threads| && s.threads[t].AkFail? && s.mem.refs[s.threads[t].node] != Refs(false, 1)
    ensures Inv(Step(s, t, call))
  {
    hide ListOk;
    var AkFail(n, h, cont) := s.threads[t];
    assert ThreadOk(s.mem, t, s.threads[t]) && NodeOk(s, n);
    var m' := SetStatus(SetRefs(s.mem, n, Refs(true, s.mem.refs[n].count - 1)), n, Deferred);
    ContinueOk(m', t, cont);
    HoldersUpdate(s.threads, t, Continue(cont), n);
    ListFrame(s.mem, m', n);
    TouchKeeps(s, t, m', Continue(cont), n);
  }

  lemma IncKeeps(s: State, t: nat, call: Call)
    requires Inv(s) && t < |s.threads| && s.threads[t].TgInc? && s.mem.refs[s.threads[t].node] == s.threads[t].seen
    ensures Inv(Step(s, t, call))
  {
    var pc := s.threads[t];
    var n := pc.node;
    var (m', pc') := Access(s.mem, t, pc, call);
    assert ThreadOk(s.mem, t, pc) && NodeOk(s, n);
    HoldersUpdate(s.threads, t, pc', n);
    ListFrame(s.mem, m', n);
    TouchKeeps(s, t, m', pc', n);
  }

  /** A successful unlinking exchange is immune to reuse of the head: the next pointer read under the
      reference is the one the node has now, and the list loses exactly its first node. */
  lemma UnlinkExact(s: State, t: nat)
    requires Inv(s) && t < |s.threads| && s.threads[t].TgCas? && s.mem.head == Some(s.threads[t].node)
    ensures var TgCas(n, nx) := s.threads[t];
            && s.mem.next[n] == nx
            && |s.mem.list| > 0 && s.mem.list[0] == n && nx == ListNext(s.mem.list, 0)
            && s.mem.status[n] == Linked && !s.mem.refs[n].flag
  {
    assert ThreadOk(s.mem, t, s.threads[t]);
    assert NodeOk(s, s.threads[t].node);
    assert s.mem.next[s.mem.list[0]] == ListNext(s.mem.list, 0);
  }

  lemma UnlinkList(m: Memory, n: nat, t: nat)
    requires Sized(m) && ListOk(m) && n < |m.refs| && |m.list| > 0 && m.list[0] == n
    ensures ListOk(SetStatus(m.(head := ListNext(m.list, 0), list := m.list[1..]), n, Taken(t)))
  {
    var list := m.list[1..];
    assert forall i :: 0 <= i < |list| ==> list[i] == m.list[i + 1];
    assert forall x :: x in m.list <==> x == n || x in list;
  }

  lemma UnlinkKeeps(s: State, t: nat, call: Call)
    requires Inv(s) && t < |s.threads| && s.threads[t].TgCas? && s.mem.head == Some(s.threads[t].node)
    ensures Inv(Step(s, t, call))
  {
    var pc := s.threads[t];
    var n := pc.node;
    var (m', pc') := Access(s.mem, t, pc, call);
    UnlinkExact(s, t);
    assert ThreadOk(s.mem, t, pc) && NodeOk(s, n);
    HoldersUpdate(s.threads, t, pc', n);
    UnlinkList(s.mem, n, t);
    TouchKeeps(s, t, m', pc', n);
  }

  lemma Drop2Keeps(s: State, t: nat, call: Call)
    requires Inv(s) && t < |s.threads| && s.threads[t].TgDrop2?
    ensures Inv(Step(s, t, call))
  {
    var n := s.threads[t].node;
    var (m', pc') := Access(s.mem, t, s.threads[t], call);
    assert ThreadOk(s.mem, t, s.threads[t]) && NodeOk(s, n);
    HolderCounted(s.threads, t, n);
    HoldersUpdate(s.threads, t, pc', n);
    ListFrame(s.mem, m', n);
    TouchKeeps(s, t, m', pc', n);
  }

  /** After a reference that is not the last of a deferred node is dropped, the node is still accounted for. */
  lemma DropAlive(s: State, t: nat)
    requires Inv(s) && t < |s.threads| && s.threads[t].TgDrop?
    requires s.mem.refs[s.threads[t].node] != Refs(true, 1) && s.mem.refs[s.threads[t].node].count > 0
    ensures var TgDrop(n, h) := s.threads[t];
            var before := s.mem.refs[n];
            NodeOk(State(SetRefs(s.mem, n, Refs(before.flag, before.count - 1)), s.threads[t := AtHead(h)]), n)
  {
    var TgDrop(n, h) := s.threads[t];
    assert NodeOk(s, n);
    HoldersUpdate(s.threads, t, AtHead(h), n);
  }

  /** The last reference to a deferred node is dropped: the dropper becomes its adder. */
  lemma LastDropKeeps(s: State, t: nat, call: Call)
    requires Inv(s) && t < |s.threads| && s.threads[t].TgDrop? && s.mem.refs[s.threads[t].node] == Refs(true, 1)
    ensures Inv(Step(s, t, call))
  {
    var TgDrop(n, h) := s.threads[t];
    assert ThreadOk(s.mem, t, s.threads[t]) && NodeOk(s, n);
    HolderCounted(s.threads, t, n);
    var m' := SetStatus(SetRefs(s.mem, n, Refs(true, 0)), n, Adding(t));
    HoldersUpdate(s.threads, t, AkLoad(n, Loop(h)), n);
    ListFrame(s.mem, m', n);
    TouchKeeps(s, t, m', AkLoad(n, Loop(h)), n);
  }

  lemma DropTouches(s: State, t: nat)
    requires Inv(s) && t < |s.threads| && s.threads[t].TgDrop?
    requires s.threads[t].node < |s.mem.refs| && s.mem.refs[s.threads[t].node].count > 0
    ensures var TgDrop(n, h) := s.threads[t];
            var before := s.mem.refs[n];
            Touches(s, t, SetRefs(s.mem, n, Refs(before.flag, before.count - 1)), AtHead(h), n)
  {
  }

  lemma DropKeeps(s: State, t: nat, call: Call)
    requires Inv(s) && t < |s.threads| && s.threads[t].TgDrop? && s.mem.refs[s.threads[t].node] != Refs(true, 1)
    ensures Inv(Step(s, t, call))
  {
    var TgDrop(n, h) := s.threads[t];
    assert ThreadOk(s.mem, t, s.threads[t]);
    assert s.mem.refs[n].count > 0 by { HolderCounted(s.threads, t, n); assert NodeOk(s, n); }
    var m' := SetRefs(s.mem, n, Refs(s.mem.refs[n].flag, s.mem.refs[n].count - 1));
    ContinueOk(m', t, Loop(h));
    ListFrame(s.mem, m', n);
    DropTouches(s, t);
    DropAlive(s, t);
    assert Step(s, t, call) == State(m', s.threads[t := AtHead(h)]);
    hide *;
    TouchKeeps(s, t, m', AtHead(h), n);
  }

  /** Every atomic access of every thread keeps the invariant. */
  lemma StepKeeps(s: State, t: nat, call: Call)
    requires Inv(s) && t < |s.threads|
    ensures InRange(s.mem, s.threads[t])
    ensures Inv(Step(s, t, call))
  {
    var pc := s.threads[t];
    assert ThreadOk(s.mem, t, pc);
    var (m', pc') := Access(s.mem, t, pc, call);
    if pc.Idle? && call.CallAdd? && call.node < |s.mem.refs| && s.mem.status[call.node] == Owned {
      AddCallKeeps(s, t, call.node);
    } else if pc.AkNext? || pc.AkRefs? {
      NextKeeps(s, t, call);
    } else if pc.AkCas? && s.mem.head == pc.head {
      LinkKeeps(s, t, call);
    } else if pc.AkFail? && s.mem.refs[pc.node] == Refs(false, 1) {
      RetryKeeps(s, t, call);
    } else if pc.AkFail? {
      DeferKeeps(s, t, call);
    } else if pc.TgInc? && s.mem.refs[pc.node] == pc.seen {
      IncKeeps(s, t, call);
    } else if pc.TgCas? && s.mem.head == Some(pc.node) {
      UnlinkKeeps(s, t, call);
    } else if pc.TgDrop2? {
      Drop2Keeps(s, t, call);
    } else if pc.TgDrop? && s.mem.refs[pc.node] == Refs(true, 1) {
      LastDropKeeps(s, t, call);
    } else if pc.TgDrop? {
      DropKeeps(s, t, call);
    } else {
      MoveKeeps(s, t, pc');
    }
  }

  // ---- Runs ----------------------------------------------------------------------------------------

  ghost predicate StepOf(s: State, pick: (nat, Call), s': State) {
    && Sized(s.mem)
    && pick.0 < |s.threads|
    && InRange(s.mem, s.threads[pick.0])
    && s' == Step(s, pick.0, pick.1)
  }

  /** states is a run of threadCount threads over nodes nodes, pick by pick. */
  ghost predicate Run(nodes: nat, threadCount: nat, states: seq<State>, picks: seq<(nat, Call)>) {
    && |states| == |picks| + 1
    && states[0] == Init(nodes, threadCount)
    && (forall i :: 0 <= i < |picks| ==> StepOf(states[i], picks[i], states[i + 1]))
  }

  lemma {:induction false} InitInv(nodes: nat, threadCount: nat)
    ensures Inv(Init(nodes, threadCount))
  {
    var s := Init(nodes, threadCount);
    forall n | 0 <= n < nodes ensures NodeOk(s, n) { NoHolders(s.threads, n); }
  }

  lemma {:induction false} RunInv(nodes: nat, threadCount: nat, states: seq<State>, picks: seq<(nat, Call)>, i: nat)
    requires Run(nodes, threadCount, states, picks) && i < |states|
    ensures Inv(states[i]) && |states[i].mem.refs| == nodes && |states[i].threads| == threadCount
  {
    if i == 0 {
      InitInv(nodes, threadCount);
    } else {
      RunInv(nodes, threadCount, states, picks, i - 1);
      assert StepOf(states[i - 1], picks[i - 1], states[i]);
      StepKeeps(states[i - 1], picks[i - 1].0, picks[i - 1].1);
      StepSizes(states[i - 1], picks[i - 1], states[i]);
    }
  }

  lemma StepSizes(s: State, pick: (nat, Call), s': State)
    requires StepOf(s, pick, s')
    ensures |s'.mem.refs| == |s.mem.refs| && |s'.threads| == |s.threads|
  {
  }

  /** In step k an idle thread begins to add node n, which its owner had until then. */
  ghost predicate BeginsAdd(states: seq<State>, picks: seq<(nat, Call)>, k: nat, n: nat)
    requires k < |picks| && |states| == |picks| + 1
  {
    && picks[k].1 == CallAdd(n) && picks[k].0 < |states[k].threads| && states[k].threads[picks[k].0].Idle?
    && n < |states[k].mem.status| == |states[k + 1].mem.status|
    && states[k].mem.status[n] == Owned && states[k + 1].mem.status[n] != Owned
  }

  /** Only an add takes a node from its owner. */
  lemma OwnerKeeps(s: State, pick: (nat, Call), s': State, n: nat)
    requires Inv(s) && Inv(s') && StepOf(s, pick, s') && n < |s.mem.refs| == |s'.mem.refs|
    requires s.mem.status[n] == Owned && s'.mem.status[n] != Owned
    ensures pick.1 == CallAdd(n) && s.threads[pick.0].Idle?
  {
    assert NodeOk(s, n);
    if Holds(s.threads[pick.0], n) { HolderCounted(s.threads, pick.0, n); }
    assert ThreadOk(s.mem, pick.0, s.threads[pick.0]);
    OwnedAccess(s.mem, pick.0, s.threads[pick.0], pick.1, n);
  }

  lemma OwnedAccess(m: Memory, t: nat, pc: Pc, call: Call, n: nat)
    requires Sized(m) && ThreadOk(m, t, pc) && ListOk(m) && n < |m.refs| && m.status[n] == Owned && InRange(m, pc)
    requires Holds(pc, n) ==> !m.refs[n].flag && m.refs[n].count > 0
    requires Access(m, t, pc, call).0.status[n] != Owned
    ensures call == CallAdd(n) && pc.Idle?
  {
  }

  /** In every state of every run each node leads exactly one life, and which one can be read off the
      source's own fields and program counters. */
  lemma EveryNodeLeadsOneLife(nodes: nat, threadCount: nat, states: seq<State>, picks: seq<(nat, Call)>, i: nat, n: nat)
    requires Run(nodes, threadCount, states, picks) && i < |states| && n < nodes
    ensures var s := states[i];
            && Sized(s.mem) && n < |s.mem.refs|
            // exactly one of: on the chain from freeListHead (once), one adder, one taker, deferred, owned
            && (s.mem.status[n] == Linked <==> n in s.mem.list)
            && (forall t :: 0 <= t < |s.threads| ==>
                  (s.mem.status[n] == Adding(t) <==> IsAdding(s.threads[t]) && s.threads[t].node == n))
            && (forall t :: 0 <= t < |s.threads| ==> (s.mem.status[n] == Taken(t) <==> s.threads[t] == TgDrop2(n)))
            && (s.mem.status[n] == Deferred ==> s.mem.refs[n].flag && Holders(s.threads, n) == s.mem.refs[n].count > 0)
            && (s.mem.status[n] in {Owned, Linked} || s.mem.status[n].Taken? ==> !s.mem.refs[n].flag)
            // the chain is acyclic and ends
            && (forall j, k :: 0 <= j < k < |s.mem.list| ==> s.mem.list[j] != s.mem.list[k])
            && s.mem.head == (if s.mem.list == [] then None else Some(s.mem.list[0]))
            && (forall j :: 0 <= j < |s.mem.list| ==>
                  s.mem.list[j] < |s.mem.next| && s.mem.next[s.mem.list[j]] == ListNext(s.mem.list, j))
  {
    RunInv(nodes, threadCount, states, picks, i);
    var s := states[i];
    assert NodeOk(s, n);
    forall t | 0 <= t < |s.threads|
      ensures s.mem.status[n] == Adding(t) <==> IsAdding(s.threads[t]) && s.threads[t].node == n
      ensures s.mem.status[n] == Taken(t) <==> s.threads[t] == TgDrop2(n)
    {
      assert ThreadOk(s.mem, t, s.threads[t]);
    }
  }

  /** try_get hands node n to a client in step i. */
  ghost predicate HandsOut(states: seq<State>, picks: seq<(nat, Call)>, i: nat, n: nat)
    requires i < |picks| && |states| == |picks| + 1
  {
    && picks[i].0 < |states[i].threads| && states[i].threads[picks[i].0] == TgDrop2(n)
    && picks[i].0 < |states[i + 1].threads| && states[i + 1].threads[picks[i].0] == Idle(Some(n))
  }

  lemma HandOutOwns(nodes: nat, threadCount: nat, states: seq<State>, picks: seq<(nat, Call)>, i: nat, n: nat)
    requires Run(nodes, threadCount, states, picks) && i < |picks| && HandsOut(states, picks, i, n)
    ensures n < nodes && |states[i].mem.status| == |states[i + 1].mem.status| == nodes
    ensures states[i].mem.status[n] == Taken(picks[i].0) && states[i + 1].mem.status[n] == Owned
  {
    RunInv(nodes, threadCount, states, picks, i);
    RunInv(nodes, threadCount, states, picks, i + 1);
    assert StepOf(states[i], picks[i], states[i + 1]);
    assert ThreadOk(states[i].mem, picks[i].0, states[i].threads[picks[i].0]);
  }

  /** No two try_get calls hand out the same node unless its owner adds it again in between. */
  lemma {:induction false} HandOutsAlternate(nodes: nat, threadCount: nat, states: seq<State>, picks: seq<(nat, Call)>, i: nat, j: nat, n: nat)
      returns (k: nat)
    requires Run(nodes, threadCount, states, picks) && i < j < |picks|
    requires HandsOut(states, picks, i, n) && HandsOut(states, picks, j, n)
    ensures i < k < j && BeginsAdd(states, picks, k, n)
  {
    HandOutOwns(nodes, threadCount, states, picks, i, n);
    HandOutOwns(nodes, threadCount, states, picks, j, n);
    k := LeavesOwner(nodes, threadCount, states, picks, i + 1, j, n);
  }

  lemma {:induction false} LeavesOwner(nodes: nat, threadCount: nat, states: seq<State>, picks: seq<(nat, Call)>, i: nat, j: nat, n: nat)
      returns (k: nat)
    requires Run(nodes, threadCount, states, picks) && i <= j < |states| && n < nodes
    requires |states[i].mem.status| == |states[j].mem.status| == nodes
    requires states[i].mem.status[n] == Owned && states[j].mem.status[n] != Owned
    ensures i <= k < j && BeginsAdd(states, picks, k, n)
    decreases j - i
  {
    RunInv(nodes, threadCount, states, picks, i);
    RunInv(nodes, threadCount, states, picks, i + 1);
    if states[i + 1].mem.status[n] == Owned {
      k := LeavesOwner(nodes, threadCount, states, picks, i + 1, j, n);
    } else {
      OwnerKeeps(states[i], picks[i], states[i + 1], n);
      k := i;
    }
  }

  /** Between calls no node is lost: each is owned or on the list, with no stray reference. */
  lemma NoNodeIsLost(nodes: nat, threadCount: nat, states: seq<State>, picks: seq<(nat, Call)>, i: nat, n: nat)
    requires Run(nodes, threadCount, states, picks) && i < |states| && n < nodes
    requires forall t :: 0 <= t < |states[i].threads| ==> states[i].threads[t].Idle?
    ensures Sized(states[i].mem) && n < |states[i].mem.refs|
    ensures (states[i].mem.status[n] == Owned && n !in states[i].mem.list && states[i].mem.refs[n] == Refs(false, 0))
         || (states[i].mem.status[n] == Linked && n in states[i].mem.list && states[i].mem.refs[n] == Refs(false, 1))
  {
    RunInv(nodes, threadCount, states, picks, i);
    assert NodeOk(states[i], n);
    NoHolders(states[i].threads, n);
  }

  // ---- The 32-bit encoding -------------------------------------------------------------------------

  const SHOULD_BE_ON_FREELIST: nat := 0x8000_0000

  /** freeListRefs as the source stores it. */
  function Encode(r: Refs): nat { r.count + if r.flag then SHOULD_BE_ON_FREELIST else 0 }

  /** Unsigned 32-bit addition, as fetch_add computes it. */
  function Add32(a: nat, b: nat): nat { (a + b) % 0x1_0000_0000 }

  /** With fewer than 2^31 - 1 references, and with the bit clear wherever the source adds it, the
      arithmetic on the packed word is the arithmetic on the bit and the count. */
  lemma PackedArithmetic(r: Refs)
    requires r.count < 0x7fff_ffff
    ensures Encode(r) < 0x1_0000_0000
    ensures Encode(r) % SHOULD_BE_ON_FREELIST == r.count
    ensures !r.flag ==> Add32(Encode(r), SHOULD_BE_ON_FREELIST) == Encode(Refs(true, r.count))
    ensures !r.flag && r.count > 0 ==> Add32(Encode(r), SHOULD_BE_ON_FREELIST - 1) == Encode(Refs(true, r.count - 1))
    ensures Add32(Encode(r), 1) == Encode(Refs(r.flag, r.count + 1))
    ensures r.count > 0 ==> Add32(Encode(r), 0xffff_ffff) == Encode(Refs(r.flag, r.count - 1))
    ensures r.count > 1 ==> Add32(Encode(r), 0xffff_fffe) == Encode(Refs(r.flag, r.count - 2))
    ensures Encode(r) == 0 <==> r == Refs(false, 0)
    ensures Encode(r) == 1 <==> r == Refs(false, 1)
    ensures Encode(r) == SHOULD_BE_ON_FREELIST + 1 <==> r == Refs(true, 1)
  {
  }

  /** The bit is clear whenever the source is about to add it. */
  lemma BitClearWhenAdded(s: State, t: nat, call: Call)
    requires Inv(s) && t < |s.threads|
    ensures s.threads[t].Idle? && call.CallAdd? && call.node < |s.mem.refs| && s.mem.status[call.node] == Owned ==>
              !s.mem.refs[call.node].flag
    ensures s.threads[t].AkFail? ==> s.threads[t].node < |s.mem.refs| && !s.mem.refs[s.threads[t].node].flag
                                     && s.mem.refs[s.threads[t].node].count > 0
  {
    assert ThreadOk(s.mem, t, s.threads[t]);
    if s.threads[t].AkFail? { assert NodeOk(s, s.threads[t].node); }
    if call.CallAdd? && call.node < |s.mem.refs| { assert NodeOk(s, call.node); }
  }
}
