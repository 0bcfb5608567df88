/** The bounded multi-producer multi-consumer queue of external/rigtorp/MPMCQueue.h as an interleaving
    machine.  Every atomic access of the source is one step: a thread's program counter says which
    access comes next, and a schedule picks the thread (and, for an idle thread, the call it makes).
    Indices are unbounded naturals. */
module TicketQueue {
  import opened Options
  import Arithmetic

  /** How a thread's latest call ended. */
  datatype Outcome<V> =
    | Fresh
    | Pushed(ticket: nat)
    | PushRefused(head: nat)
    | Popped(ticket: nat, got: V)
    | PopRefused(tail: nat)

  datatype Pc<V> =
    | Idle(last: Outcome<V>)
      // emplace
    | PushWait(ticket: nat, v: V)       // ticket taken, spinning on the slot's turn
    | PushConstruct(ticket: nat, v: V)  // the turn matched
    | PushPublish(ticket: nat, v: V)    // element constructed, turn not yet stored
      // try_emplace
    | TryPushTurn(head: nat, v: V)      // head_ loaded, about to load the slot's turn
    | TryPushCas(head: nat, v: V)       // the turn matched, about to exchange head_
    | TryPushReload(head: nat, v: V)    // the turn differed, about to load head_ again
      // pop
    | PopWait(ticket: nat)
    | PopMove(ticket: nat)
    | PopDestroy(ticket: nat, got: V)
    | PopPublish(ticket: nat, got: V)
      // try_pop
    | TryPopTurn(tail: nat)
    | TryPopCas(tail: nat)
    | TryPopReload(tail: nat)

  /** What an idle thread does when it is scheduled. */
  datatype Call<V> = CallPush(v: V) | CallTryPush(v: V) | CallPop | CallTryPop

  /** head, tail, turns and storage are the source's fields.  pushed, popped, built and destroyed record
      the run: the value each push ticket carries, the value each pop ticket delivered, and how often
      the element of each ticket was constructed and destroyed. */
  datatype Memory<V> = Memory(
    head: nat,
    tail: nat,
    turns: seq<nat>,
    storage: seq<Option<V>>,
    pushed: map<nat, V>,
    popped: map<nat, V>,
    built: multiset<nat>,
    destroyed: multiset<nat>
  )

  datatype State<V> = State(mem: Memory<V>, threads: seq<Pc<V>>)

  function Cap<V>(m: Memory<V>): nat { |m.turns| }

  function Idx(cap: nat, i: nat): (r: nat)
    requires cap > 0
    ensures r < cap
  { i % cap }

  function Turn(cap: nat, i: nat): nat
    requires cap > 0
  { i / cap }

  predicate WellSized<V>(m: Memory<V>) {
    && |m.turns| > 0
    && |m.storage| == |m.turns|
  }

  function SlotTurn<V>(m: Memory<V>, ticket: nat): nat
    requires WellSized(m)
  { m.turns[Idx(Cap(m), ticket)] }

  function SlotStorage<V>(m: Memory<V>, ticket: nat): Option<V>
    requires WellSized(m)
  { m.storage[Idx(Cap(m), ticket)] }

  function Init<V>(cap: nat, threadCount: nat): State<V>
    requires cap > 0
  {
    State(Memory(0, 0, seq(cap, _ => 0), seq(cap, _ => None), map[], map[], multiset{}, multiset{}),
          seq(threadCount, _ => Idle(Fresh)))
  }

  /** One atomic access by a thread at pc: the memory it leaves and the thread's next program point. */
  function Access<V>(m: Memory<V>, pc: Pc<V>, call: Call<V>): (Memory<V>, Pc<V>)
    requires WellSized(m)
  {
    var cap := Cap(m);
    match pc
    case Idle(_) => (
      match call
      case CallPush(v) => (m.(head := m.head + 1, pushed := m.pushed[m.head := v]), PushWait(m.head, v))
      case CallTryPush(v) => (m, TryPushTurn(m.head, v))
      case CallPop => (m.(tail := m.tail + 1), PopWait(m.tail))
      case CallTryPop => (m, TryPopTurn(m.tail)))
    case PushWait(q, v) =>
      if Turn(cap, q) * 2 != SlotTurn(m, q) then (m, pc) else (m, PushConstruct(q, v))
    case PushConstruct(q, v) =>
      (m.(storage := m.storage[Idx(cap, q) := Some(v)], built := m.built + multiset{q}), PushPublish(q, v))
    case PushPublish(q, v) =>
      (m.(turns := m.turns[Idx(cap, q) := Turn(cap, q) * 2 + 1]), Idle(Pushed(q)))
    case TryPushTurn(h, v) =>
      if Turn(cap, h) * 2 == SlotTurn(m, h) then (m, TryPushCas(h, v)) else (m, TryPushReload(h, v))
    case TryPushCas(h, v) =>
      if m.head == h then (m.(head := h + 1, pushed := m.pushed[h := v]), PushConstruct(h, v))
      else (m, TryPushTurn(m.head, v))
    case TryPushReload(h, v) =>
      if m.head == h then (m, Idle(PushRefused(h))) else (m, TryPushTurn(m.head, v))
    case PopWait(q) =>
      if Turn(cap, q) * 2 + 1 != SlotTurn(m, q) then (m, pc) else (m, PopMove(q))
    case PopMove(q) => (
      match SlotStorage(m, q)
      case Some(v) => (m, PopDestroy(q, v))
      case None => (m, pc))  // moving out of dead storage, which ThreadOk rules out
    case PopDestroy(q, got) =>
      (m.(storage := m.storage[Idx(cap, q) := None], destroyed := m.destroyed + multiset{q}), PopPublish(q, got))
    case PopPublish(q, got) =>
      (m.(turns := m.turns[Idx(cap, q) := Turn(cap, q) * 2 + 2], popped := m.popped[q := got]), Idle(Popped(q, got)))
    case TryPopTurn(k) =>
      if Turn(cap, k) * 2 + 1 == SlotTurn(m, k) then (m, TryPopCas(k)) else (m, TryPopReload(k))
    case TryPopCas(k) =>
      if m.tail == k then (m.(tail := k + 1), PopMove(k)) else (m, TryPopTurn(m.tail))
    case TryPopReload(k) =>
      if m.tail == k then (m, Idle(PopRefused(k))) else (m, TryPopTurn(m.tail))
  }

  function Step<V>(s: State<V>, t: nat, call: Call<V>): State<V>
    requires WellSized(s.mem) && t < |s.threads|
  {
    var (m, pc) := Access(s.mem, s.threads[t], call);
    State(m, s.threads[t := pc])
  }

  // ---- What a program counter holds ----------------------------------------------------------------

  predicate HoldsPush<V>(pc: Pc<V>) { pc.PushWait? || pc.PushConstruct? || pc.PushPublish? }

  predicate HoldsPop<V>(pc: Pc<V>) { pc.PopWait? || pc.PopMove? || pc.PopDestroy? || pc.PopPublish? }

  /** The thread has passed its turn check and not yet published. */
  predicate InSlot<V>(pc: Pc<V>) {
    pc.PushConstruct? || pc.PushPublish? || pc.PopMove? || pc.PopDestroy? || pc.PopPublish?
  }

  predicate PushDone<V>(m: Memory<V>, q: nat)
    requires WellSized(m)
  { 2 * Turn(Cap(m), q) < SlotTurn(m, q) }

  predicate PopDone<V>(m: Memory<V>, q: nat)
    requires WellSized(m)
  { 2 * Turn(Cap(m), q) + 1 < SlotTurn(m, q) }

  ghost predicate PushHeld<V>(threads: seq<Pc<V>>, q: nat) {
    exists t :: 0 <= t < |threads| && HoldsPush(threads[t]) && threads[t].ticket == q
  }

  ghost predicate PopHeld<V>(threads: seq<Pc<V>>, q: nat) {
    exists t :: 0 <= t < |threads| && HoldsPop(threads[t]) && threads[t].ticket == q
  }

  // ---- The invariant -------------------------------------------------------------------------------

  /** Completed operations have tickets that were handed out, and a completed pop delivered what was pushed
      with its ticket. */
  ghost predicate HandedOut<V>(m: Memory<V>)
    requires WellSized(m)
  {
    && (forall q: nat :: q in m.pushed <==> q < m.head)
    && (forall q: nat :: PushDone(m, q) ==> q < m.head)
    && (forall q: nat :: PopDone(m, q) ==> q < m.tail)
    && (forall q: nat :: PopDone(m, q) <==> q in m.popped)
    && (forall q: nat :: q in m.popped ==> q in m.pushed && m.popped[q] == m.pushed[q])
  }

  /** Every ticket handed out is completed or held. */
  ghost predicate Accounted<V>(s: State<V>)
    requires WellSized(s.mem)
  {
    && (forall q: nat :: q < s.mem.head && !PushDone(s.mem, q) ==> PushHeld(s.threads, q))
    && (forall q: nat :: q < s.mem.tail && !PopDone(s.mem, q) ==> PopHeld(s.threads, q))
  }

  ghost predicate Distinct<V>(threads: seq<Pc<V>>) {
    && (forall t, u :: 0 <= t < u < |threads| && HoldsPush(threads[t]) && HoldsPush(threads[u]) ==>
          threads[t].ticket != threads[u].ticket)
    && (forall t, u :: 0 <= t < u < |threads| && HoldsPop(threads[t]) && HoldsPop(threads[u]) ==>
          threads[t].ticket != threads[u].ticket)
  }

  /** What a thread knows at each program point. */
  ghost predicate ThreadOk<V>(m: Memory<V>, pc: Pc<V>)
    requires WellSized(m)
  {
    var cap := Cap(m);
    match pc
    case Idle(Popped(q, got)) => q in m.popped && m.popped[q] == got
    case Idle(_) => true
    case PushWait(q, v) => q < m.head && !PushDone(m, q) && q in m.pushed && m.pushed[q] == v
    case PushConstruct(q, v) =>
      && q < m.head && SlotTurn(m, q) == 2 * Turn(cap, q) && SlotStorage(m, q) == None
      && q in m.pushed && m.pushed[q] == v
    case PushPublish(q, v) =>
      && q < m.head && SlotTurn(m, q) == 2 * Turn(cap, q) && SlotStorage(m, q) == Some(v)
      && q in m.pushed && m.pushed[q] == v
    case TryPushTurn(h, _) => h <= m.head
    case TryPushCas(h, _) => h <= m.head && (m.head == h ==> SlotTurn(m, h) == 2 * Turn(cap, h))
    case TryPushReload(h, _) => h <= m.head
    case PopWait(q) => q < m.tail && !PopDone(m, q)
    case PopMove(q) =>
      && q < m.tail && SlotTurn(m, q) == 2 * Turn(cap, q) + 1
      && q in m.pushed && SlotStorage(m, q) == Some(m.pushed[q])
    case PopDestroy(q, got) =>
      && q < m.tail && SlotTurn(m, q) == 2 * Turn(cap, q) + 1
      && q in m.pushed && SlotStorage(m, q) == Some(got) && got == m.pushed[q]
    case PopPublish(q, got) =>
      && q < m.tail && SlotTurn(m, q) == 2 * Turn(cap, q) + 1
      && q in m.pushed && SlotStorage(m, q) == None && got == m.pushed[q]
    case TryPopTurn(k) => k <= m.tail
    case TryPopCas(k) => k <= m.tail && (m.tail == k ==> SlotTurn(m, k) == 2 * Turn(cap, k) + 1)
    case TryPopReload(k) => k <= m.tail
  }

  predicate Publishes<V>(pc: Pc<V>) { pc.PushPublish? || pc.PopPublish? }

  ghost predicate Publishing<V>(cap: nat, threads: seq<Pc<V>>, i: nat)
    requires cap > 0
  {
    exists t :: 0 <= t < |threads| && Publishes(threads[t]) && Idx(cap, threads[t].ticket) == i
  }

  /** Storage is live exactly when the slot's turn is odd, and then holds the element pushed with the
      ticket the turn stands for. */
  ghost predicate SlotOk<V>(m: Memory<V>, i: nat)
    requires WellSized(m) && i < Cap(m)
  {
    if m.turns[i] % 2 == 0 then m.storage[i] == None
    else
      var q := m.turns[i] / 2 * Cap(m) + i;
      q in m.pushed && m.storage[i] == Some(m.pushed[q])
  }

  ghost predicate SlotsOk<V>(s: State<V>)
    requires WellSized(s.mem)
  {
    forall i :: 0 <= i < Cap(s.mem) && !Publishing(Cap(s.mem), s.threads, i) ==> SlotOk(s.mem, i)
  }

  ghost predicate ThreadsOk<V>(s: State<V>)
    requires WellSized(s.mem)
  {
    forall t :: 0 <= t < |s.threads| ==> ThreadOk(s.mem, s.threads[t])
  }

  ghost predicate Inv<V>(s: State<V>) {
    && WellSized(s.mem)
    && HandedOut(s.mem)
    && Accounted(s)
    && Distinct(s.threads)
    && ThreadsOk(s)
    && SlotsOk(s)
  }

  // ---- Tickets and slots ---------------------------------------------------------------------------

  lemma SameTicket(cap: nat, p: nat, q: nat)
    requires cap > 0 && Idx(cap, p) == Idx(cap, q) && Turn(cap, p) == Turn(cap, q)
    ensures p == q
  {
    Arithmetic.SameParts(p, q, cap);
  }

  /** An odd turn names the ticket of the element the slot holds. */
  lemma TicketOfTurn(cap: nat, q: nat, turn: nat)
    requires cap > 0 && turn == 2 * Turn(cap, q) + 1
    ensures turn / 2 * cap + Idx(cap, q) == q
  {
    assert turn / 2 == q / cap;
    assert q == (q / cap) * cap + q % cap;
  }

  /** Two threads between their turn check and their publication are never in the same slot. */
  lemma Exclusive<V>(s: State<V>, t: nat, u: nat)
    requires Inv(s) && t < |s.threads| && u < |s.threads| && t != u
    requires InSlot(s.threads[t]) && InSlot(s.threads[u])
    ensures Idx(Cap(s.mem), s.threads[t].ticket) != Idx(Cap(s.mem), s.threads[u].ticket)
  {
    var p, q := s.threads[t].ticket, s.threads[u].ticket;
    assert ThreadOk(s.mem, s.threads[t]) && ThreadOk(s.mem, s.threads[u]);
    if Idx(Cap(s.mem), p) == Idx(Cap(s.mem), q) {
      SameTicket(Cap(s.mem), p, q);
    }
  }

  // ---- Every step keeps the invariant --------------------------------------------------------------

  predicate SameHolding<V>(a: Pc<V>, b: Pc<V>) {
    && HoldsPush(a) == HoldsPush(b)
    && HoldsPop(a) == HoldsPop(b)
    && (HoldsPush(a) || HoldsPop(a) ==> a.ticket == b.ticket)
  }

  /** The tickets held stay held by distinct threads. */
  lemma HeldKept<V>(threads: seq<Pc<V>>, t: nat, pc: Pc<V>)
    requires t < |threads| && SameHolding(threads[t], pc)
    ensures forall q: nat :: PushHeld(threads, q) ==> PushHeld(threads[t := pc], q)
    ensures forall q: nat :: PopHeld(threads, q) ==> PopHeld(threads[t := pc], q)
    ensures Distinct(threads) ==> Distinct(threads[t := pc])
  {
    var after := threads[t := pc];
    forall q: nat | PushHeld(threads, q) ensures PushHeld(after, q) {
      var u :| 0 <= u < |threads| && HoldsPush(threads[u]) && threads[u].ticket == q;
      assert HoldsPush(after[u]) && after[u].ticket == q;
    }
    forall q: nat | PopHeld(threads, q) ensures PopHeld(after, q) {
      var u :| 0 <= u < |threads| && HoldsPop(threads[u]) && threads[u].ticket == q;
      assert HoldsPop(after[u]) && after[u].ticket == q;
    }
  }

  lemma PublishingKept<V>(cap: nat, threads: seq<Pc<V>>, t: nat, pc: Pc<V>)
    requires cap > 0 && t < |threads| && !Publishes(threads[t])
    ensures forall i: nat :: Publishing(cap, threads, i) ==> Publishing(cap, threads[t := pc], i)
  {
    var after := threads[t := pc];
    forall i: nat | Publishing(cap, threads, i) ensures Publishing(cap, after, i) {
      var u :| 0 <= u < |threads| && Publishes(threads[u]) && Idx(cap, threads[u].ticket) == i;
      assert after[u] == threads[u];
    }
  }

  /** A step that only moves a program counter, keeping the tickets held. */
  lemma MoveKeeps<V>(s: State<V>, t: nat, pc: Pc<V>)
    requires Inv(s) && t < |s.threads|
    requires SameHolding(s.threads[t], pc) && !Publishes(s.threads[t])
    requires ThreadOk(s.mem, pc)
    ensures Inv(State(s.mem, s.threads[t := pc]))
  {
    HeldKept(s.threads, t, pc);
    PublishingKept(Cap(s.mem), s.threads, t, pc);
  }

  /** A thread that held no ticket may take one that nobody holds. */
  lemma HeldGrown<V>(threads: seq<Pc<V>>, t: nat, pc: Pc<V>)
    requires t < |threads| && !HoldsPush(threads[t]) && !HoldsPop(threads[t])
    requires Distinct(threads)
    requires HoldsPush(pc) ==> !PushHeld(threads, pc.ticket)
    requires HoldsPop(pc) ==> !PopHeld(threads, pc.ticket)
    ensures forall q: nat :: PushHeld(threads[t := pc], q) <==> PushHeld(threads, q) || (HoldsPush(pc) && pc.ticket == q)
    ensures forall q: nat :: PopHeld(threads[t := pc], q) <==> PopHeld(threads, q) || (HoldsPop(pc) && pc.ticket == q)
    ensures Distinct(threads[t := pc])
  {
    var after := threads[t := pc];
    assert forall u :: 0 <= u < |threads| && u != t ==> after[u] == threads[u];
    forall q: nat
      ensures PushHeld(after, q) <==> PushHeld(threads, q) || (HoldsPush(pc) && pc.ticket == q)
    {
      if PushHeld(threads, q) {
        var u :| 0 <= u < |threads| && HoldsPush(threads[u]) && threads[u].ticket == q;
        assert HoldsPush(after[u]) && after[u].ticket == q;
      }
      if HoldsPush(pc) && pc.ticket == q {
        assert HoldsPush(after[t]) && after[t].ticket == q;
      }
    }
    forall q: nat
      ensures PopHeld(after, q) <==> PopHeld(threads, q) || (HoldsPop(pc) && pc.ticket == q)
    {
      if PopHeld(threads, q) {
        var u :| 0 <= u < |threads| && HoldsPop(threads[u]) && threads[u].ticket == q;
        assert HoldsPop(after[u]) && after[u].ticket == q;
      }
      if HoldsPop(pc) && pc.ticket == q {
        assert HoldsPop(after[t]) && after[t].ticket == q;
      }
    }
    DistinctGrown(threads, t, pc);
  }

  lemma DistinctGrown<V>(threads: seq<Pc<V>>, t: nat, pc: Pc<V>)
    requires t < |threads| && Distinct(threads)
    requires HoldsPush(pc) ==> !PushHeld(threads, pc.ticket)
    requires HoldsPop(pc) ==> !PopHeld(threads, pc.ticket)
    ensures Distinct(threads[t := pc])
  {
    var after := threads[t := pc];
    forall u, w | 0 <= u < w < |after| && HoldsPush(after[u]) && HoldsPush(after[w])
      ensures after[u].ticket != after[w].ticket
    {
      var other := if u == t then w else u;
      if u == t || w == t { assert HoldsPush(threads[other]); }
    }
    forall u, w | 0 <= u < w < |after| && HoldsPop(after[u]) && HoldsPop(after[w])
      ensures after[u].ticket != after[w].ticket
    {
      var other := if u == t then w else u;
      if u == t || w == t { assert HoldsPop(threads[other]); }
    }
  }

  function ClaimPush<V>(m: Memory<V>, v: V): Memory<V> { m.(head := m.head + 1, pushed := m.pushed[m.head := v]) }

  lemma ClaimPushMemory<V>(m: Memory<V>, v: V)
    requires WellSized(m) && HandedOut(m)
    ensures HandedOut(ClaimPush(m, v))
    ensures forall pc :: ThreadOk(m, pc) ==> ThreadOk(ClaimPush(m, v), pc)
    ensures forall i :: 0 <= i < Cap(m) && SlotOk(m, i) ==> SlotOk(ClaimPush(m, v), i)
  {
    var m' := ClaimPush(m, v);
    assert forall q: nat :: PushDone(m', q) == PushDone(m, q) && PopDone(m', q) == PopDone(m, q);
  }

  /** A ticket is taken at head_, either to wait for the slot or, after a successful exchange, to fill it. */
  lemma ClaimPushKeeps<V>(s: State<V>, t: nat, v: V, pc: Pc<V>)
    requires Inv(s) && t < |s.threads|
    requires !HoldsPush(s.threads[t]) && !HoldsPop(s.threads[t])
    requires HoldsPush(pc) && !pc.PushPublish? && pc.ticket == s.mem.head
    requires ThreadOk(ClaimPush(s.mem, v), pc)
    ensures Inv(State(ClaimPush(s.mem, v), s.threads[t := pc]))
  {
    var s' := State(ClaimPush(s.mem, v), s.threads[t := pc]);
    assert !PushHeld(s.threads, s.mem.head) by {
      assert forall u :: 0 <= u < |s.threads| && HoldsPush(s.threads[u]) ==> ThreadOk(s.mem, s.threads[u]);
    }
    ClaimPushMemory(s.mem, v);
    HeldGrown(s.threads, t, pc);
    PublishingKept(Cap(s.mem), s.threads, t, pc);
    forall q: nat | q < s'.mem.head && !PushDone(s'.mem, q) ensures PushHeld(s'.threads, q) {
      assert PushDone(s'.mem, q) == PushDone(s.mem, q);
    }
    forall q: nat | q < s'.mem.tail && !PopDone(s'.mem, q) ensures PopHeld(s'.threads, q) {
      assert PopDone(s'.mem, q) == PopDone(s.mem, q);
    }
  }

  function ClaimPop<V>(m: Memory<V>): Memory<V> { m.(tail := m.tail + 1) }

  lemma ClaimPopMemory<V>(m: Memory<V>)
    requires WellSized(m) && HandedOut(m)
    ensures HandedOut(ClaimPop(m))
    ensures forall pc :: ThreadOk(m, pc) ==> ThreadOk(ClaimPop(m), pc)
    ensures forall i :: 0 <= i < Cap(m) && SlotOk(m, i) ==> SlotOk(ClaimPop(m), i)
  {
    var m' := ClaimPop(m);
    assert forall q: nat :: PushDone(m', q) == PushDone(m, q) && PopDone(m', q) == PopDone(m, q);
  }

  lemma ClaimPopKeeps<V>(s: State<V>, t: nat, pc: Pc<V>)
    requires Inv(s) && t < |s.threads|
    requires !HoldsPush(s.threads[t]) && !HoldsPop(s.threads[t])
    requires HoldsPop(pc) && !pc.PopPublish? && pc.ticket == s.mem.tail
    requires ThreadOk(ClaimPop(s.mem), pc)
    ensures Inv(State(ClaimPop(s.mem), s.threads[t := pc]))
  {
    var s' := State(ClaimPop(s.mem), s.threads[t := pc]);
    assert !PopHeld(s.threads, s.mem.tail) by {
      assert forall u :: 0 <= u < |s.threads| && HoldsPop(s.threads[u]) ==> ThreadOk(s.mem, s.threads[u]);
    }
    ClaimPopMemory(s.mem);
    HeldGrown(s.threads, t, pc);
    PublishingKept(Cap(s.mem), s.threads, t, pc);
    forall q: nat | q < s'.mem.head && !PushDone(s'.mem, q) ensures PushHeld(s'.threads, q) {
      assert PushDone(s'.mem, q) == PushDone(s.mem, q);
    }
    forall q: nat | q < s'.mem.tail && !PopDone(s'.mem, q) ensures PopHeld(s'.threads, q) {
      assert PopDone(s'.mem, q) == PopDone(s.mem, q);
    }
  }

  /** Writing the storage of a slot, as construct and destroy do. */
  function Write<V>(m: Memory<V>, i: nat, x: Option<V>, built: multiset<nat>, destroyed: multiset<nat>): Memory<V>
    requires i < |m.storage|
  { m.(storage := m.storage[i := x], built := built, destroyed := destroyed) }

  lemma WriteMemory<V>(m: Memory<V>, i: nat, x: Option<V>, built: multiset<nat>, destroyed: multiset<nat>)
    requires WellSized(m) && HandedOut(m) && i < Cap(m)
    ensures HandedOut(Write(m, i, x, built, destroyed))
    ensures forall pc :: ThreadOk(m, pc) && (InSlot(pc) ==> Idx(Cap(m), pc.ticket) != i) ==>
                           ThreadOk(Write(m, i, x, built, destroyed), pc)
    ensures forall j :: 0 <= j < Cap(m) && j != i && SlotOk(m, j) ==> SlotOk(Write(m, i, x, built, destroyed), j)
  {
    var m' := Write(m, i, x, built, destroyed);
    assert forall q: nat :: PushDone(m', q) == PushDone(m, q) && PopDone(m', q) == PopDone(m, q);
  }

  lemma WriteKeeps<V>(s: State<V>, t: nat, pc: Pc<V>, x: Option<V>, built: multiset<nat>, destroyed: multiset<nat>)
    requires Inv(s) && t < |s.threads|
    requires InSlot(s.threads[t]) && !Publishes(s.threads[t]) && Publishes(pc) && SameHolding(s.threads[t], pc)
    requires ThreadOk(Write(s.mem, Idx(Cap(s.mem), pc.ticket), x, built, destroyed), pc)
    ensures Inv(State(Write(s.mem, Idx(Cap(s.mem), pc.ticket), x, built, destroyed), s.threads[t := pc]))
  {
    var i := Idx(Cap(s.mem), pc.ticket);
    var s' := State(Write(s.mem, i, x, built, destroyed), s.threads[t := pc]);
    WriteMemory(s.mem, i, x, built, destroyed);
    HeldKept(s.threads, t, pc);
    PublishingKept(Cap(s.mem), s.threads, t, pc);
    forall u | 0 <= u < |s'.threads| ensures ThreadOk(s'.mem, s'.threads[u]) {
      if u != t {
        assert ThreadOk(s.mem, s.threads[u]);
        if InSlot(s.threads[u]) { Exclusive(s, t, u); }
      }
    }
    forall j | 0 <= j < Cap(s'.mem) && !Publishing(Cap(s'.mem), s'.threads, j) ensures SlotOk(s'.mem, j) {
      assert Publishes(s'.threads[t]);
      assert j != i;
    }
    forall q: nat | q < s'.mem.head && !PushDone(s'.mem, q) ensures PushHeld(s'.threads, q) {
      assert PushDone(s'.mem, q) == PushDone(s.mem, q);
    }
    forall q: nat | q < s'.mem.tail && !PopDone(s'.mem, q) ensures PopHeld(s'.threads, q) {
      assert PopDone(s'.mem, q) == PopDone(s.mem, q);
    }
  }

  /** Publication moves the slot's turn on by one. */
  function Publish<V>(m: Memory<V>, i: nat, popped: map<nat, V>): Memory<V>
    requires i < |m.turns|
  { m.(turns := m.turns[i := m.turns[i] + 1], popped := popped) }

  /** Publishing with ticket q completes exactly the operation of ticket q. */
  lemma PublishDone<V>(m: Memory<V>, q: nat, popped: map<nat, V>, p: nat)
    requires WellSized(m)
    requires SlotTurn(m, q) == 2 * Turn(Cap(m), q) || SlotTurn(m, q) == 2 * Turn(Cap(m), q) + 1
    ensures var m' := Publish(m, Idx(Cap(m), q), popped);
            && PushDone(m', p) == (PushDone(m, p) || (p == q && SlotTurn(m, q) == 2 * Turn(Cap(m), q)))
            && PopDone(m', p) == (PopDone(m, p) || (p == q && SlotTurn(m, q) == 2 * Turn(Cap(m), q) + 1))
  {
    if Idx(Cap(m), p) == Idx(Cap(m), q) && Turn(Cap(m), p) == Turn(Cap(m), q) {
      SameTicket(Cap(m), p, q);
    }
  }

  /** The ticket whose slot a program point looks at, if any. */
  function Looks<V>(pc: Pc<V>): Option<nat> {
    match pc
    case TryPushCas(h, _) => Some(h)
    case TryPopCas(k) => Some(k)
    case _ => if HoldsPush(pc) || HoldsPop(pc) then Some(pc.ticket) else None
  }

  lemma PublishElsewhere<V>(m: Memory<V>, i: nat, popped: map<nat, V>, pc: Pc<V>)
    requires WellSized(m) && i < Cap(m) && ThreadOk(m, pc)
    requires forall k :: k in m.popped ==> k in popped && popped[k] == m.popped[k]
    requires Looks(pc).Some? ==> Idx(Cap(m), Looks(pc).value) != i
    ensures ThreadOk(Publish(m, i, popped), pc)
  {
  }

  lemma PublishWait<V>(m: Memory<V>, q: nat, popped: map<nat, V>, pc: Pc<V>)
    requires WellSized(m) && ThreadOk(m, pc)
    requires (pc.PushWait? && (pc.ticket == q ==> SlotTurn(m, q) != 2 * Turn(Cap(m), q)))
          || (pc.PopWait? && (pc.ticket == q ==> SlotTurn(m, q) != 2 * Turn(Cap(m), q) + 1))
    requires SlotTurn(m, q) == 2 * Turn(Cap(m), q) || SlotTurn(m, q) == 2 * Turn(Cap(m), q) + 1
    ensures ThreadOk(Publish(m, Idx(Cap(m), q), popped), pc)
  {
    PublishDone(m, q, popped, pc.ticket);
  }

  lemma PublishCas<V>(m: Memory<V>, q: nat, popped: map<nat, V>, pc: Pc<V>)
    requires WellSized(m) && ThreadOk(m, pc)
    requires (pc.TryPushCas? && (SlotTurn(m, q) == 2 * Turn(Cap(m), q) ==> q < m.head))
          || (pc.TryPopCas? && (SlotTurn(m, q) == 2 * Turn(Cap(m), q) + 1 ==> q < m.tail))
    requires SlotTurn(m, q) == 2 * Turn(Cap(m), q) || SlotTurn(m, q) == 2 * Turn(Cap(m), q) + 1
    requires Idx(Cap(m), Looks(pc).value) == Idx(Cap(m), q)
    ensures ThreadOk(Publish(m, Idx(Cap(m), q), popped), pc)
  {
    var h := Looks(pc).value;
    if Turn(Cap(m), h) == Turn(Cap(m), q) { SameTicket(Cap(m), h, q); }
  }

  lemma PublishThread<V>(s: State<V>, t: nat, popped: map<nat, V>, u: nat)
    requires Inv(s) && t < |s.threads| && Publishes(s.threads[t])
    requires forall k :: k in s.mem.popped ==> k in popped && popped[k] == s.mem.popped[k]
    requires u < |s.threads| && u != t
    ensures ThreadOk(Publish(s.mem, Idx(Cap(s.mem), s.threads[t].ticket), popped), s.threads[u])
  {
    var q, pc := s.threads[t].ticket, s.threads[u];
    assert ThreadOk(s.mem, s.threads[t]) && ThreadOk(s.mem, pc);
    if InSlot(pc) { Exclusive(s, t, u); }
    if Looks(pc).None? || Idx(Cap(s.mem), Looks(pc).value) != Idx(Cap(s.mem), q) {
      PublishElsewhere(s.mem, Idx(Cap(s.mem), q), popped, pc);
    } else if pc.PushWait? || pc.PopWait? {
      PublishWait(s.mem, q, popped, pc);
    } else {
      PublishCas(s.mem, q, popped, pc);
    }
  }

  lemma PublishingElsewhere<V>(cap: nat, threads: seq<Pc<V>>, t: nat, pc: Pc<V>, j: nat)
    requires cap > 0 && t < |threads| && Publishing(cap, threads, j)
    requires Publishes(threads[t]) ==> Idx(cap, threads[t].ticket) != j
    ensures Publishing(cap, threads[t := pc], j)
  {
    var u :| 0 <= u < |threads| && Publishes(threads[u]) && Idx(cap, threads[u].ticket) == j;
    assert threads[t := pc][u] == threads[u];
  }

  lemma PublishSlots<V>(s: State<V>, t: nat, popped: map<nat, V>, pc: Pc<V>, j: nat)
    requires Inv(s) && t < |s.threads| && Publishes(s.threads[t])
    requires j < Cap(s.mem) && !Publishing(Cap(s.mem), s.threads[t := pc], j)
    ensures SlotOk(Publish(s.mem, Idx(Cap(s.mem), s.threads[t].ticket), popped), j)
  {
    var q := s.threads[t].ticket;
    var i := Idx(Cap(s.mem), q);
    assert ThreadOk(s.mem, s.threads[t]);
    if j == i {
      if s.threads[t].PushPublish? { TicketOfTurn(Cap(s.mem), q, s.mem.turns[i] + 1); }
    } else {
      if Publishing(Cap(s.mem), s.threads, j) { PublishingElsewhere(Cap(s.mem), s.threads, t, pc, j); }
      assert SlotOk(s.mem, j);
    }
  }

  /** The deliveries on record after the publication of a thread at pc. */
  function Delivered<V>(m: Memory<V>, pc: Pc<V>): map<nat, V>
    requires Publishes(pc)
  { if pc.PopPublish? then m.popped[pc.ticket := pc.got] else m.popped }

  lemma PublishHeld<V>(s: State<V>, t: nat, popped: map<nat, V>, pc: Pc<V>)
    requires Inv(s) && t < |s.threads| && Publishes(s.threads[t])
    requires popped == Delivered(s.mem, s.threads[t])
    requires !HoldsPush(pc) && !HoldsPop(pc)
    ensures Accounted(State(Publish(s.mem, Idx(Cap(s.mem), s.threads[t].ticket), popped), s.threads[t := pc]))
    ensures HandedOut(Publish(s.mem, Idx(Cap(s.mem), s.threads[t].ticket), popped))
  {
    var q := s.threads[t].ticket;
    var s' := State(Publish(s.mem, Idx(Cap(s.mem), q), popped), s.threads[t := pc]);
    assert ThreadOk(s.mem, s.threads[t]);
    forall p: nat
      ensures PushDone(s'.mem, p) ==> p < s.mem.head
      ensures PopDone(s'.mem, p) ==> p < s.mem.tail
      ensures PopDone(s'.mem, p) <==> p in popped
    {
      PublishDone(s.mem, q, popped, p);
    }
    forall p: nat | p < s'.mem.head && !PushDone(s'.mem, p) ensures PushHeld(s'.threads, p) {
      PublishDone(s.mem, q, popped, p);
      var u :| 0 <= u < |s.threads| && HoldsPush(s.threads[u]) && s.threads[u].ticket == p;
      assert s'.threads[u] == s.threads[u];
    }
    forall p: nat | p < s'.mem.tail && !PopDone(s'.mem, p) ensures PopHeld(s'.threads, p) {
      PublishDone(s.mem, q, popped, p);
      var u :| 0 <= u < |s.threads| && HoldsPop(s.threads[u]) && s.threads[u].ticket == p;
      assert s'.threads[u] == s.threads[u];
    }
  }

  lemma PublishKeeps<V>(s: State<V>, t: nat, popped: map<nat, V>, pc: Pc<V>)
    requires Inv(s) && t < |s.threads| && Publishes(s.threads[t])
    requires popped == Delivered(s.mem, s.threads[t])
    requires pc.Idle? && ThreadOk(Publish(s.mem, Idx(Cap(s.mem), s.threads[t].ticket), popped), pc)
    ensures Inv(State(Publish(s.mem, Idx(Cap(s.mem), s.threads[t].ticket), popped), s.threads[t := pc]))
  {
    var s' := State(Publish(s.mem, Idx(Cap(s.mem), s.threads[t].ticket), popped), s.threads[t := pc]);
    PublishHeld(s, t, popped, pc);
    assert ThreadOk(s.mem, s.threads[t]);
    forall u | 0 <= u < |s'.threads| ensures ThreadOk(s'.mem, s'.threads[u]) {
      if u != t { PublishThread(s, t, popped, u); }
    }
    forall j | 0 <= j < Cap(s'.mem) && !Publishing(Cap(s'.mem), s'.threads, j) ensures SlotOk(s'.mem, j) {
      PublishSlots(s, t, popped, pc, j);
    }
    DistinctGrown(s.threads, t, pc);
  }

  /** A slot whose turn is the one ticket q waits for, seen by the holder of q before it enters or by
      whoever takes q next, has no publication in progress. */
  lemma NoPublisher<V>(s: State<V>, q: nat, push: bool)
    requires Inv(s)
    requires SlotTurn(s.mem, q) == 2 * Turn(Cap(s.mem), q) + (if push then 0 else 1)
    requires forall u :: 0 <= u < |s.threads| && Publishes(s.threads[u]) && s.threads[u].ticket == q ==>
                           s.threads[u].PushPublish? != push
    ensures !Publishing(Cap(s.mem), s.threads, Idx(Cap(s.mem), q))
  {
    forall u | 0 <= u < |s.threads| && Publishes(s.threads[u])
      ensures Idx(Cap(s.mem), s.threads[u].ticket) != Idx(Cap(s.mem), q)
    {
      var p := s.threads[u].ticket;
      assert ThreadOk(s.mem, s.threads[u]);
      if Idx(Cap(s.mem), p) == Idx(Cap(s.mem), q) && Turn(Cap(s.mem), p) == Turn(Cap(s.mem), q) {
        SameTicket(Cap(s.mem), p, q);
      }
    }
  }

  lemma SlotReady<V>(s: State<V>, q: nat, push: bool)
    requires Inv(s)
    requires SlotTurn(s.mem, q) == 2 * Turn(Cap(s.mem), q) + (if push then 0 else 1)
    requires forall u :: 0 <= u < |s.threads| && Publishes(s.threads[u]) && s.threads[u].ticket == q ==>
                           s.threads[u].PushPublish? != push
    ensures push ==> SlotStorage(s.mem, q) == None
    ensures !push ==> q in s.mem.pushed && SlotStorage(s.mem, q) == Some(s.mem.pushed[q])
  {
    NoPublisher(s, q, push);
    assert SlotOk(s.mem, Idx(Cap(s.mem), q));
    if !push { TicketOfTurn(Cap(s.mem), q, SlotTurn(s.mem, q)); }
  }

  lemma EnterKeeps<V>(s: State<V>, t: nat, call: Call<V>)
    requires Inv(s) && t < |s.threads| && (s.threads[t].PushWait? || s.threads[t].PopWait?)
    ensures Inv(Step(s, t, call))
  {
    var m, pc := s.mem, s.threads[t];
    var (_, pc') := Access(m, pc, call);
    assert ThreadOk(m, pc);
    if pc' != pc {
      SlotReady(s, pc.ticket, pc.PushWait?);
    }
    MoveKeeps(s, t, pc');
  }

  lemma PublicationKeeps<V>(s: State<V>, t: nat, call: Call<V>)
    requires Inv(s) && t < |s.threads| && Publishes(s.threads[t])
    ensures Inv(Step(s, t, call))
  {
    var m, pc := s.mem, s.threads[t];
    var (m', pc') := Access(m, pc, call);
    assert ThreadOk(m, pc);
    assert m' == Publish(m, Idx(Cap(m), pc.ticket), Delivered(m, pc));
    PublishKeeps(s, t, Delivered(m, pc), pc');
  }

  lemma StorageKeeps<V>(s: State<V>, t: nat, call: Call<V>)
    requires Inv(s) && t < |s.threads| && (s.threads[t].PushConstruct? || s.threads[t].PopDestroy?)
    ensures Inv(Step(s, t, call))
  {
    var m, pc := s.mem, s.threads[t];
    var (m', pc') := Access(m, pc, call);
    assert ThreadOk(m, pc);
    if pc.PushConstruct? {
      WriteKeeps(s, t, pc', Some(pc.v), m.built + multiset{pc.ticket}, m.destroyed);
    } else {
      WriteKeeps(s, t, pc', None, m.built, m.destroyed + multiset{pc.ticket});
    }
  }

  lemma TryPushReady<V>(s: State<V>, t: nat)
    requires Inv(s) && t < |s.threads| && s.threads[t].TryPushCas? && s.mem.head == s.threads[t].head
    ensures SlotTurn(s.mem, s.mem.head) == 2 * Turn(Cap(s.mem), s.mem.head)
    ensures SlotStorage(s.mem, s.mem.head) == None
  {
    assert ThreadOk(s.mem, s.threads[t]);
    forall u | 0 <= u < |s.threads| && s.threads[u].PushPublish? ensures s.threads[u].ticket != s.mem.head {
      assert ThreadOk(s.mem, s.threads[u]);
    }
    SlotReady(s, s.mem.head, true);
  }

  /** A successful exchange on head_: the turn read before it is still current, so the slot is free. */
  lemma ExchangePushKeeps<V>(s: State<V>, t: nat, call: Call<V>)
    requires Inv(s) && t < |s.threads| && s.threads[t].TryPushCas? && s.mem.head == s.threads[t].head
    ensures SlotTurn(s.mem, s.mem.head) == 2 * Turn(Cap(s.mem), s.mem.head)
    ensures Inv(Step(s, t, call))
  {
    hide Accounted, Distinct, SlotsOk, HandedOut, ThreadsOk, Turn, Idx;
    TryPushReady(s, t);
    ClaimPushKeeps(s, t, s.threads[t].v, Access(s.mem, s.threads[t], call).1);
  }

  lemma TryPopReady<V>(s: State<V>, t: nat)
    requires Inv(s) && t < |s.threads| && s.threads[t].TryPopCas? && s.mem.tail == s.threads[t].tail
    ensures SlotTurn(s.mem, s.mem.tail) == 2 * Turn(Cap(s.mem), s.mem.tail) + 1
    ensures s.mem.tail in s.mem.pushed && SlotStorage(s.mem, s.mem.tail) == Some(s.mem.pushed[s.mem.tail])
  {
    assert ThreadOk(s.mem, s.threads[t]);
    forall u | 0 <= u < |s.threads| && s.threads[u].PopPublish? ensures s.threads[u].ticket != s.mem.tail {
      assert ThreadOk(s.mem, s.threads[u]);
    }
    SlotReady(s, s.mem.tail, false);
  }

  /** A successful exchange on tail_: the turn read before it is still current, so the slot is full. */
  lemma ExchangePopKeeps<V>(s: State<V>, t: nat, call: Call<V>)
    requires Inv(s) && t < |s.threads| && s.threads[t].TryPopCas? && s.mem.tail == s.threads[t].tail
    ensures SlotTurn(s.mem, s.mem.tail) == 2 * Turn(Cap(s.mem), s.mem.tail) + 1
    ensures Inv(Step(s, t, call))
  {
    hide Accounted, Distinct, SlotsOk, HandedOut, ThreadsOk, Turn, Idx;
    TryPopReady(s, t);
    ClaimPopKeeps(s, t, Access(s.mem, s.threads[t], call).1);
  }

  lemma CallKeeps<V>(s: State<V>, t: nat, call: Call<V>)
    requires Inv(s) && t < |s.threads| && s.threads[t].Idle?
    ensures Inv(Step(s, t, call))
  {
    var (m', pc') := Access(s.mem, s.threads[t], call);
    assert PushDone(m', s.mem.head) == PushDone(s.mem, s.mem.head);
    assert PopDone(m', s.mem.tail) == PopDone(s.mem, s.mem.tail);
    match call
    case CallPush(v) => ClaimPushKeeps(s, t, v, pc');
    case CallPop => ClaimPopKeeps(s, t, pc');
    case CallTryPush(_) => MoveKeeps(s, t, pc');
    case CallTryPop => MoveKeeps(s, t, pc');
  }

  /** Every atomic access of every thread keeps the invariant. */
  lemma StepKeeps<V>(s: State<V>, t: nat, call: Call<V>)
    requires Inv(s) && t < |s.threads|
    ensures Inv(Step(s, t, call))
  {
    var m, pc := s.mem, s.threads[t];
    var (m', pc') := Access(m, pc, call);
    assert ThreadOk(m, pc);
    if pc.Idle? {
      CallKeeps(s, t, call);
    } else if pc.PushWait? || pc.PopWait? {
      EnterKeeps(s, t, call);
    } else if pc.PushConstruct? || pc.PopDestroy? {
      StorageKeeps(s, t, call);
    } else if Publishes(pc) {
      PublicationKeeps(s, t, call);
    } else if pc.TryPushCas? && m.head == pc.head {
      ExchangePushKeeps(s, t, call);
    } else if pc.TryPopCas? && m.tail == pc.tail {
      ExchangePopKeeps(s, t, call);
    } else {
      MoveKeeps(s, t, pc');
    }
  }

  // ---- Construction and destruction ----------------------------------------------------------------

  ghost predicate Constructing<V>(threads: seq<Pc<V>>, q: nat) {
    exists t :: 0 <= t < |threads| && threads[t].PushPublish? && threads[t].ticket == q
  }

  ghost predicate Destroying<V>(threads: seq<Pc<V>>, q: nat) {
    exists t :: 0 <= t < |threads| && threads[t].PopPublish? && threads[t].ticket == q
  }

  ghost predicate Constructed<V>(s: State<V>, q: nat)
    requires WellSized(s.mem)
  { PushDone(s.mem, q) || Constructing(s.threads, q) }

  ghost predicate Destroyed<V>(s: State<V>, q: nat)
    requires WellSized(s.mem)
  { PopDone(s.mem, q) || Destroying(s.threads, q) }

  /** Each element was constructed at most once and destroyed at most once, and the records say which. */
  ghost predicate Lifetimes<V>(s: State<V>)
    requires WellSized(s.mem)
  {
    && (forall q: nat :: s.mem.built[q] == if Constructed(s, q) then 1 else 0)
    && (forall q: nat :: s.mem.destroyed[q] == if Destroyed(s, q) then 1 else 0)
  }

  lemma ConstructingAfter<V>(threads: seq<Pc<V>>, t: nat, pc: Pc<V>, q: nat)
    requires t < |threads| && Distinct(threads)
    ensures Constructing(threads[t := pc], q) <==>
              (pc.PushPublish? && pc.ticket == q)
              || (Constructing(threads, q) && !(threads[t].PushPublish? && threads[t].ticket == q))
    ensures Destroying(threads[t := pc], q) <==>
              (pc.PopPublish? && pc.ticket == q)
              || (Destroying(threads, q) && !(threads[t].PopPublish? && threads[t].ticket == q))
  {
    var after := threads[t := pc];
    assert after[t] == pc;
    if Constructing(after, q) && !(pc.PushPublish? && pc.ticket == q) {
      var u :| 0 <= u < |after| && after[u].PushPublish? && after[u].ticket == q;
      assert threads[u] == after[u];
    }
    if Constructing(threads, q) && !(threads[t].PushPublish? && threads[t].ticket == q) {
      var u :| 0 <= u < |threads| && threads[u].PushPublish? && threads[u].ticket == q;
      assert threads[u] == after[u];
    }
    if Destroying(after, q) && !(pc.PopPublish? && pc.ticket == q) {
      var u :| 0 <= u < |after| && after[u].PopPublish? && after[u].ticket == q;
      assert threads[u] == after[u];
    }
    if Destroying(threads, q) && !(threads[t].PopPublish? && threads[t].ticket == q) {
      var u :| 0 <= u < |threads| && threads[u].PopPublish? && threads[u].ticket == q;
      assert threads[u] == after[u];
    }
  }

  /** A thread about to construct holds a ticket nobody constructed; likewise for destroying. */
  lemma NotYet<V>(s: State<V>, t: nat)
    requires Inv(s) && t < |s.threads|
    ensures s.threads[t].PushConstruct? ==> !Constructed(s, s.threads[t].ticket)
    ensures s.threads[t].PopDestroy? ==> !Destroyed(s, s.threads[t].ticket)
  {
    var pc := s.threads[t];
    assert ThreadOk(s.mem, pc);
    forall u | 0 <= u < |s.threads| && s.threads[u].PushPublish?
      ensures pc.PushConstruct? ==> s.threads[u].ticket != pc.ticket
    {
      assert HoldsPush(s.threads[u]);
    }
    forall u | 0 <= u < |s.threads| && s.threads[u].PopPublish?
      ensures pc.PopDestroy? ==> s.threads[u].ticket != pc.ticket
    {
      assert HoldsPop(s.threads[u]);
    }
  }

  ghost predicate LifetimeOf<V>(s: State<V>, q: nat)
    requires WellSized(s.mem)
  {
    && s.mem.built[q] == (if Constructed(s, q) then 1 else 0)
    && s.mem.destroyed[q] == (if Destroyed(s, q) then 1 else 0)
  }

  lemma LifetimePublication<V>(s: State<V>, t: nat, call: Call<V>, q: nat)
    requires Inv(s) && LifetimeOf(s, q) && t < |s.threads| && Publishes(s.threads[t])
    ensures LifetimeOf(Step(s, t, call), q)
  {
    var m, pc := s.mem, s.threads[t];
    var (m', pc') := Access(m, pc, call);
    assert ThreadOk(m, pc);
    assert m' == Publish(m, Idx(Cap(m), pc.ticket), Delivered(m, pc));
    ConstructingAfter(s.threads, t, pc', q);
    PublishDone(m, pc.ticket, Delivered(m, pc), q);
    assert pc.PushPublish? ==> Constructing(s.threads, pc.ticket);
    assert pc.PopPublish? ==> Destroying(s.threads, pc.ticket);
  }

  /** What an access other than a publication does to the records. */
  lemma RecordsAfter<V>(m: Memory<V>, pc: Pc<V>, call: Call<V>)
    requires WellSized(m) && !Publishes(pc)
    ensures var (m', pc') := Access(m, pc, call);
            && m'.turns == m.turns
            && m'.built == (if pc.PushConstruct? then m.built + multiset{pc.ticket} else m.built)
            && m'.destroyed == (if pc.PopDestroy? then m.destroyed + multiset{pc.ticket} else m.destroyed)
            && (pc'.PushPublish? <==> pc.PushConstruct?) && (pc.PushConstruct? ==> pc'.ticket == pc.ticket)
            && (pc'.PopPublish? <==> pc.PopDestroy?) && (pc.PopDestroy? ==> pc'.ticket == pc.ticket)
            && WellSized(m')
  {
  }

  lemma LifetimeOther<V>(s: State<V>, t: nat, call: Call<V>, q: nat)
    requires Inv(s) && LifetimeOf(s, q) && t < |s.threads| && !Publishes(s.threads[t])
    ensures LifetimeOf(Step(s, t, call), q)
  {
    var m, pc := s.mem, s.threads[t];
    var (m', pc') := Access(m, pc, call);
    RecordsAfter(m, pc, call);
    assert PushDone(m', q) == PushDone(m, q) && PopDone(m', q) == PopDone(m, q);
    ConstructingAfter(s.threads, t, pc', q);
    NotYet(s, t);
  }

  lemma LifetimesKept<V>(s: State<V>, t: nat, call: Call<V>)
    requires Inv(s) && Lifetimes(s) && t < |s.threads|
    ensures Lifetimes(Step(s, t, call))
  {
    var s' := Step(s, t, call);
    forall q: nat
      ensures s'.mem.built[q] == if Constructed(s', q) then 1 else 0
      ensures s'.mem.destroyed[q] == if Destroyed(s', q) then 1 else 0
    {
      assert LifetimeOf(s, q);
      if Publishes(s.threads[t]) {
        LifetimePublication(s, t, call, q);
      } else {
        LifetimeOther(s, t, call, q);
      }
      assert LifetimeOf(s', q);
    }
  }

  // ---- Runs ----------------------------------------------------------------------------------------

  /** states is a run of threadCount threads over a queue of capacity cap, pick by pick. */
  ghost predicate Run<V>(cap: nat, threadCount: nat, states: seq<State<V>>, picks: seq<(nat, Call<V>)>) {
    && cap > 0
    && |states| == |picks| + 1
    && states[0] == Init(cap, threadCount)
    && (forall i :: 0 <= i < |picks| ==> StepOf(states[i], picks[i], states[i + 1]))
  }

  ghost predicate StepOf<V>(s: State<V>, pick: (nat, Call<V>), s': State<V>) {
    && WellSized(s.mem)
    && pick.0 < |s.threads|
    && s' == Step(s, pick.0, pick.1)
  }

  ghost predicate Good<V>(cap: nat, threadCount: nat, s: State<V>) {
    && Inv(s)
    && Lifetimes(s)
    && Cap(s.mem) == cap
    && |s.threads| == threadCount
  }

  lemma InitGood<V>(cap: nat, threadCount: nat)
    requires cap > 0
    ensures Good(cap, threadCount, Init<V>(cap, threadCount))
  {
  }

  lemma StepGood<V>(cap: nat, threadCount: nat, s: State<V>, pick: (nat, Call<V>), s': State<V>)
    requires Good(cap, threadCount, s) && StepOf(s, pick, s')
    ensures Good(cap, threadCount, s')
  {
    hide Inv, Lifetimes;
    StepKeeps(s, pick.0, pick.1);
    LifetimesKept(s, pick.0, pick.1);
  }

  /** The invariant holds in every state of every run. */
  lemma {:induction false} RunGood<V>(cap: nat, threadCount: nat, states: seq<State<V>>, picks: seq<(nat, Call<V>)>, i: nat)
    requires Run(cap, threadCount, states, picks) && i < |states|
    ensures Good(cap, threadCount, states[i])
  {
    if i == 0 {
      InitGood<V>(cap, threadCount);
    } else {
      RunGood(cap, threadCount, states, picks, i - 1);
      StepGood(cap, threadCount, states[i - 1], picks[i - 1], states[i]);
    }
  }

  /** In every state of every run: at most one thread is in a slot, storage is live exactly when the turn
      is odd (outside a publication), a pop with ticket q delivers the value pushed with ticket q, and
      no element is constructed or destroyed twice. */
  lemma EveryRunSafe<V>(cap: nat, threadCount: nat, states: seq<State<V>>, picks: seq<(nat, Call<V>)>, i: nat)
    requires Run(cap, threadCount, states, picks) && i < |states|
    ensures var s := states[i];
            && |s.mem.storage| == |s.mem.turns| == cap
            && (forall t, u :: 0 <= t < u < |s.threads| && InSlot(s.threads[t]) && InSlot(s.threads[u]) ==>
                  Idx(cap, s.threads[t].ticket) != Idx(cap, s.threads[u].ticket))
            && (forall j :: 0 <= j < cap && !Publishing(cap, s.threads, j) ==>
                  (s.mem.storage[j].Some? <==> s.mem.turns[j] % 2 == 1))
            && (forall t :: 0 <= t < |s.threads| && s.threads[t].Idle? && s.threads[t].last.Popped? ==>
                  var Popped(q, got) := s.threads[t].last; q in s.mem.pushed && s.mem.pushed[q] == got)
            && (forall q: nat :: s.mem.destroyed[q] <= s.mem.built[q] <= 1)
  {
    RunGood(cap, threadCount, states, picks, i);
    var s := states[i];
    forall t, u | 0 <= t < u < |s.threads| && InSlot(s.threads[t]) && InSlot(s.threads[u])
      ensures Idx(cap, s.threads[t].ticket) != Idx(cap, s.threads[u].ticket)
    {
      Exclusive(s, t, u);
    }
    forall t | 0 <= t < |s.threads| && s.threads[t].Idle? && s.threads[t].last.Popped?
      ensures var Popped(q, got) := s.threads[t].last; q in s.mem.pushed && s.mem.pushed[q] == got
    {
      assert ThreadOk(s.mem, s.threads[t]);
    }
    forall q: nat ensures s.mem.destroyed[q] <= s.mem.built[q] <= 1 {
      DestroyedAfterBuilt(s, q);
    }
    assert forall j :: 0 <= j < cap && !Publishing(cap, s.threads, j) ==> SlotOk(s.mem, j);
  }

  lemma DestroyedAfterBuilt<V>(s: State<V>, q: nat)
    requires Inv(s)
    ensures Destroyed(s, q) ==> PushDone(s.mem, q)
  {
    if Destroying(s.threads, q) {
      var t :| 0 <= t < |s.threads| && s.threads[t].PopPublish? && s.threads[t].ticket == q;
      assert ThreadOk(s.mem, s.threads[t]);
    }
  }

  // ---- A refused try operation ---------------------------------------------------------------------

  lemma StepFrame<V>(s: State<V>, pick: (nat, Call<V>), s': State<V>)
    requires StepOf(s, pick, s')
    ensures s.mem.head <= s'.mem.head && s.mem.tail <= s'.mem.tail
    ensures |s'.threads| == |s.threads|
    ensures forall t :: 0 <= t < |s.threads| && t != pick.0 ==> s'.threads[t] == s.threads[t]
  {
  }

  lemma {:induction false} RunFrame<V>(cap: nat, threadCount: nat, states: seq<State<V>>, picks: seq<(nat, Call<V>)>, j: nat, i: nat)
    requires Run(cap, threadCount, states, picks) && j <= i < |states|
    ensures states[j].mem.head <= states[i].mem.head
    ensures states[j].mem.tail <= states[i].mem.tail
    ensures |states[i].threads| == |states[j].threads|
    decreases i - j
  {
    if j < i {
      StepFrame(states[j], picks[j], states[j + 1]);
      RunFrame(cap, threadCount, states, picks, j + 1, i);
    }
  }

  predicate Reloads<V>(pc: Pc<V>) { pc.TryPushReload? || pc.TryPopReload? }

  /** The program point before pc, for a thread about to reload. */
  function BeforeReload<V>(pc: Pc<V>): Pc<V>
    requires Reloads(pc)
  {
    match pc
    case TryPushReload(h, v) => TryPushTurn(h, v)
    case TryPopReload(k) => TryPopTurn(k)
  }

  lemma StepToReload<V>(s: State<V>, pick: (nat, Call<V>), s': State<V>)
    requires StepOf(s, pick, s') && Reloads(s'.threads[pick.0])
    ensures s.threads[pick.0] == BeforeReload(s'.threads[pick.0])
    ensures match s'.threads[pick.0]
            case TryPushReload(h, _) => SlotTurn(s.mem, h) != 2 * Turn(Cap(s.mem), h)
            case TryPopReload(k) => SlotTurn(s.mem, k) != 2 * Turn(Cap(s.mem), k) + 1
  {
  }

  /** The latest step at which thread t, now about to reload, found its slot's turn wrong. */
  lemma {:induction false} TurnLoad<V>(cap: nat, threadCount: nat, states: seq<State<V>>, picks: seq<(nat, Call<V>)>, i: nat, t: nat)
      returns (j: nat)
    requires Run(cap, threadCount, states, picks) && i < |states| && t < |states[i].threads|
    requires Reloads(states[i].threads[t])
    ensures j < i && picks[j].0 == t
    ensures forall l :: j <= l <= i ==> |states[l].threads| == |states[i].threads|
    ensures forall l :: j <= l <= i ==> !states[l].threads[t].Idle?
    ensures states[j + 1].threads[t] == states[i].threads[t]
  {
    assert i > 0;
    StepFrame(states[i - 1], picks[i - 1], states[i]);
    if picks[i - 1].0 == t {
      j := i - 1;
      StepToReload(states[i - 1], picks[i - 1], states[i]);
    } else {
      j := TurnLoad(cap, threadCount, states, picks, i - 1, t);
    }
  }

  /** The pop that frees the slot of push ticket h is the one of ticket h - cap. */
  lemma PreviousLap<V>(m: Memory<V>, h: nat)
    requires WellSized(m) && HandedOut(m) && h == m.head && SlotTurn(m, h) != 2 * Turn(Cap(m), h)
    ensures h >= Cap(m) && !PopDone(m, h - Cap(m))
  {
    assert !PushDone(m, h);
    assert SlotTurn(m, h) < 2 * Turn(Cap(m), h);
    if h < Cap(m) { Arithmetic.QuotientRemainder(h, Cap(m), 0, h); }
    Arithmetic.AddMultiple(h, Cap(m), -1);
  }

  /** try_emplace returns false only if, at some instant inside the call, head_ was the value it read and
      the pop of ticket head_ - capacity had not completed. */
  lemma TryPushRefusedOnlyWhenFull<V>(cap: nat, threadCount: nat, states: seq<State<V>>, picks: seq<(nat, Call<V>)>, i: nat)
      returns (j: nat)
    requires Run(cap, threadCount, states, picks) && i < |picks|
    requires var t := picks[i].0;
             t < |states[i].threads| && !states[i].threads[t].Idle?
             && t < |states[i + 1].threads| && states[i + 1].threads[t].Idle? && states[i + 1].threads[t].last.PushRefused?
    ensures j <= i && Cap(states[j].mem) == cap && WellSized(states[j].mem)
    ensures forall l :: j <= l <= i ==> picks[i].0 < |states[l].threads| && !states[l].threads[picks[i].0].Idle?
    ensures states[j].mem.head == states[i + 1].threads[picks[i].0].last.head >= cap
    ensures !PopDone(states[j].mem, states[j].mem.head - cap)
  {
    var t, h := picks[i].0, states[i + 1].threads[picks[i].0].last.head;
    assert StepOf(states[i], picks[i], states[i + 1]);
    assert states[i].threads[t].TryPushReload? && states[i].mem.head == h == states[i].threads[t].head;
    j := TurnLoad(cap, threadCount, states, picks, i, t);
    StepToReload(states[j], picks[j], states[j + 1]);
    RunFrame(cap, threadCount, states, picks, j, i);
    RunGood(cap, threadCount, states, picks, j);
    assert ThreadOk(states[j].mem, states[j].threads[t]);
    PreviousLap(states[j].mem, h);
  }

  /** try_pop returns false only if, at some instant inside the call, tail_ was the value it read and the
      push of that ticket had not completed. */
  lemma TryPopRefusedOnlyWhenEmpty<V>(cap: nat, threadCount: nat, states: seq<State<V>>, picks: seq<(nat, Call<V>)>, i: nat)
      returns (j: nat)
    requires Run(cap, threadCount, states, picks) && i < |picks|
    requires var t := picks[i].0;
             t < |states[i].threads| && !states[i].threads[t].Idle?
             && t < |states[i + 1].threads| && states[i + 1].threads[t].Idle? && states[i + 1].threads[t].last.PopRefused?
    ensures j <= i && Cap(states[j].mem) == cap && WellSized(states[j].mem)
    ensures forall l :: j <= l <= i ==> picks[i].0 < |states[l].threads| && !states[l].threads[picks[i].0].Idle?
    ensures states[j].mem.tail == states[i + 1].threads[picks[i].0].last.tail
    ensures !PushDone(states[j].mem, states[j].mem.tail)
  {
    var t, k := picks[i].0, states[i + 1].threads[picks[i].0].last.tail;
    assert StepOf(states[i], picks[i], states[i + 1]);
    assert states[i].threads[t].TryPopReload? && states[i].mem.tail == k == states[i].threads[t].tail;
    j := TurnLoad(cap, threadCount, states, picks, i, t);
    StepToReload(states[j], picks[j], states[j + 1]);
    RunFrame(cap, threadCount, states, picks, j, i);
    RunGood(cap, threadCount, states, picks, j);
    assert ThreadOk(states[j].mem, states[j].threads[t]);
    assert !PopDone(states[j].mem, k);
  }

  // ---- No deadlock ---------------------------------------------------------------------------------

  /** A spinning thread whose turn check fails. */
  predicate Blocked<V>(m: Memory<V>, pc: Pc<V>)
    requires WellSized(m)
  {
    || (pc.PushWait? && SlotTurn(m, pc.ticket) != 2 * Turn(Cap(m), pc.ticket))
    || (pc.PopWait? && SlotTurn(m, pc.ticket) != 2 * Turn(Cap(m), pc.ticket) + 1)
  }

  /** No call in flight can advance. */
  ghost predicate Stuck<V>(s: State<V>)
    requires WellSized(s.mem)
  { forall t :: 0 <= t < |s.threads| ==> s.threads[t].Idle? || Blocked(s.mem, s.threads[t]) }

  lemma BlockedPush<V>(s: State<V>, t: nat)
    requires Inv(s) && t < |s.threads| && s.threads[t].PushWait? && Blocked(s.mem, s.threads[t])
    ensures s.threads[t].ticket >= Cap(s.mem) && !PopDone(s.mem, s.threads[t].ticket - Cap(s.mem))
  {
    var m, q := s.mem, s.threads[t].ticket;
    assert ThreadOk(m, s.threads[t]);
    assert SlotTurn(m, q) < 2 * Turn(Cap(m), q);
    if q < Cap(m) { Arithmetic.QuotientRemainder(q, Cap(m), 0, q); }
    Arithmetic.AddMultiple(q, Cap(m), -1);
  }

  lemma BlockedPop<V>(s: State<V>, t: nat)
    requires Inv(s) && t < |s.threads| && s.threads[t].PopWait? && Blocked(s.mem, s.threads[t])
    ensures !PushDone(s.mem, s.threads[t].ticket)
  {
    assert ThreadOk(s.mem, s.threads[t]);
  }

  /** The thread, among those at push (or pop) waits, with the least ticket. */
  lemma {:induction false} Least<V>(threads: seq<Pc<V>>, push: bool, n: nat) returns (t: nat)
    requires n <= |threads| && exists u :: 0 <= u < n && (if push then HoldsPush(threads[u]) else HoldsPop(threads[u]))
    ensures t < n && (if push then HoldsPush(threads[t]) else HoldsPop(threads[t]))
    ensures forall u :: 0 <= u < n && (if push then HoldsPush(threads[u]) else HoldsPop(threads[u])) ==>
                          threads[t].ticket <= threads[u].ticket
  {
    if exists u :: 0 <= u < n - 1 && (if push then HoldsPush(threads[u]) else HoldsPop(threads[u])) {
      t := Least(threads, push, n - 1);
      if (if push then HoldsPush(threads[n - 1]) else HoldsPop(threads[n - 1])) && threads[n - 1].ticket < threads[t].ticket {
        t := n - 1;
      }
    } else {
      t := n - 1;
    }
  }

  /** With a push and a pop in flight, one of the calls in flight can advance. */
  lemma SomeCallAdvances<V>(s: State<V>, t: nat, u: nat) returns (w: nat)
    requires Inv(s) && t < |s.threads| && u < |s.threads|
    requires HoldsPush(s.threads[t]) && HoldsPop(s.threads[u])
    ensures w < |s.threads| && (HoldsPush(s.threads[w]) || HoldsPop(s.threads[w])) && !Blocked(s.mem, s.threads[w])
  {
    var t0 := Least(s.threads, true, |s.threads|);
    var u0 := Least(s.threads, false, |s.threads|);
    w := if Blocked(s.mem, s.threads[t0]) then u0 else t0;
    var q, r := s.threads[t0].ticket, s.threads[u0].ticket;
    assert ThreadOk(s.mem, s.threads[t0]) && ThreadOk(s.mem, s.threads[u0]);
    if Blocked(s.mem, s.threads[t0]) {
      BlockedPush(s, t0);
      var previous: nat := q - Cap(s.mem);
      assert previous < s.mem.tail ==> PopHeld(s.threads, previous);
      assert r <= previous;
      assert PushDone(s.mem, r) || PushHeld(s.threads, r);
      assert PushDone(s.mem, r);
    }
  }

  /** If no call in flight can advance, the calls in flight are all pushes that find the queue full, or all
      pops that find it empty. */
  lemma StuckOnlyWhenFullOrEmpty<V>(cap: nat, threadCount: nat, states: seq<State<V>>, picks: seq<(nat, Call<V>)>, i: nat)
    requires Run(cap, threadCount, states, picks) && i < |states|
    requires WellSized(states[i].mem) && Stuck(states[i])
    ensures var s := states[i];
            || (forall t :: 0 <= t < |s.threads| && !s.threads[t].Idle? ==>
                  s.threads[t].PushWait? && s.threads[t].ticket >= s.mem.tail + cap)
            || (forall t :: 0 <= t < |s.threads| && !s.threads[t].Idle? ==>
                  s.threads[t].PopWait? && s.threads[t].ticket >= s.mem.head)
  {
    RunGood(cap, threadCount, states, picks, i);
    var s := states[i];
    if u :| 0 <= u < |s.threads| && HoldsPop(s.threads[u]) {
      forall t | 0 <= t < |s.threads| ensures !HoldsPush(s.threads[t]) {
        if HoldsPush(s.threads[t]) {
          var w := SomeCallAdvances(s, t, u);
          assert false;
        }
      }
      forall t | 0 <= t < |s.threads| && !s.threads[t].Idle?
        ensures s.threads[t].PopWait? && s.threads[t].ticket >= s.mem.head
      {
        assert Blocked(s.mem, s.threads[t]);
        assert !HoldsPush(s.threads[t]);
        BlockedPop(s, t);
        assert !PushHeld(s.threads, s.threads[t].ticket);
      }
    } else {
      forall t | 0 <= t < |s.threads| && !s.threads[t].Idle?
        ensures s.threads[t].PushWait? && s.threads[t].ticket >= s.mem.tail + cap
      {
        assert Blocked(s.mem, s.threads[t]);
        BlockedPush(s, t);
        assert !PopHeld(s.threads, s.threads[t].ticket - cap);
      }
    }
  }

  // ---- The destructor ------------------------------------------------------------------------------

  /** ~Queue, run when no call is in flight: every element that was constructed has then been destroyed
      exactly once. */
  method DestroyQueue<V>(s: State<V>) returns (m: Memory<V>)
    requires Inv(s) && Lifetimes(s)
    requires forall t :: 0 <= t < |s.threads| ==> s.threads[t].Idle?
    ensures m.built == s.mem.built
    ensures forall q: nat :: m.destroyed[q] == m.built[q] <= 1
    ensures |m.storage| == |s.mem.storage| && forall j :: 0 <= j < |m.storage| ==> m.storage[j] == None
  {
    m := s.mem;
    assert |m.turns| == |m.storage| == Cap(m) > 0;
    hide Inv, Lifetimes;
    var i := 0;
    while i < Cap(s.mem)
      invariant 0 <= i <= Cap(s.mem) && m.turns == s.mem.turns && SlotsDestroyed(s.mem, m, i)
    {
      ghost var before := m;
      if m.turns[i] % 2 == 1 {
        m := m.(storage := m.storage[i := None], destroyed := m.destroyed + multiset{TicketAt(m, i)});
      }
      DestroyOne(s, before, i);
      i := i + 1;
    }
    forall q: nat ensures m.destroyed[q] == m.built[q] <= 1 { OneLife(s, q); }
  }

  /** The ticket whose element slot i holds when its turn is odd. */
  function TicketAt<V>(m: Memory<V>, i: nat): nat
    requires i < |m.turns|
  { m.turns[i] / 2 * Cap(m) + i }

  /** The first i slots of m are destroyed, and the elements they held. */
  ghost predicate SlotsDestroyed<V>(m: Memory<V>, m': Memory<V>, i: nat)
    requires Cap(m) > 0
  {
    && m'.built == m.built && |m'.storage| == |m.storage|
    && (forall j :: 0 <= j < i && j < |m.storage| ==> m'.storage[j] == None)
    && (forall j :: i <= j < |m.storage| ==> m'.storage[j] == m.storage[j])
    && (forall q: nat :: m'.destroyed[q] == if Idx(Cap(m), q) < i then m.built[q] else m.destroyed[q])
  }

  lemma DestroyOne<V>(s: State<V>, m: Memory<V>, i: nat)
    requires Inv(s) && Lifetimes(s) && (forall t :: 0 <= t < |s.threads| ==> s.threads[t].Idle?)
    requires i < Cap(s.mem) && m.turns == s.mem.turns && SlotsDestroyed(s.mem, m, i)
    ensures m.turns[i] % 2 == 1 ==>
              SlotsDestroyed(s.mem, m.(storage := m.storage[i := None], destroyed := m.destroyed + multiset{TicketAt(m, i)}), i + 1)
    ensures m.turns[i] % 2 == 0 ==> SlotsDestroyed(s.mem, m, i + 1)
  {
    assert SlotOk(s.mem, i);
    var odd := m.turns[i] % 2 == 1;
    var destroyed := if odd then m.destroyed + multiset{TicketAt(m, i)} else m.destroyed;
    forall q: nat ensures destroyed[q] == if Idx(Cap(s.mem), q) < i + 1 then s.mem.built[q] else s.mem.destroyed[q] {
      AliveInSlot(s, i, q);
      assert odd ==> destroyed[q] == m.destroyed[q] + (if q == TicketAt(m, i) then 1 else 0);
    }
  }

  lemma OneLife<V>(s: State<V>, q: nat)
    requires Inv(s) && Lifetimes(s)
    ensures s.mem.destroyed[q] <= s.mem.built[q] <= 1 && Idx(Cap(s.mem), q) < Cap(s.mem)
  {
    DestroyedAfterBuilt(s, q);
  }

  /** With no call in flight, the elements alive are those of the slots whose turn is odd. */
  lemma AliveInSlot<V>(s: State<V>, i: nat, q: nat)
    requires Inv(s) && Lifetimes(s) && i < Cap(s.mem)
    requires forall t :: 0 <= t < |s.threads| ==> s.threads[t].Idle?
    ensures s.mem.turns[i] % 2 == 1 && q == TicketAt(s.mem, i) ==>
              Idx(Cap(s.mem), q) == i && s.mem.built[q] == s.mem.destroyed[q] + 1
    ensures Idx(Cap(s.mem), q) == i && !(s.mem.turns[i] % 2 == 1 && q == TicketAt(s.mem, i)) ==>
              s.mem.built[q] == s.mem.destroyed[q]
  {
    DestroyedAfterBuilt(s, q);
    assert !Constructing(s.threads, q) && !Destroying(s.threads, q);
    var turn := s.mem.turns[i];
    if turn % 2 == 1 && q == turn / 2 * Cap(s.mem) + i {
      Arithmetic.QuotientRemainder(q, Cap(s.mem), turn / 2, i);
    } else if Idx(Cap(s.mem), q) == i && turn == 2 * Turn(Cap(s.mem), q) + 1 {
      TicketOfTurn(Cap(s.mem), q, turn);
    }
  }
}
