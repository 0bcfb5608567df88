/** Threads that look themselves up in the table of implicit producers (ProducerHash) while they and the producer tokens
    take producers from one list and give them back (ProducerOwners): the two machines as one.  Holder t of a producer
    is thread t of the table; the holders after the threads are the tokens. */
module ProducerThreads {
  import opened Options
  import H = ProducerHash
  import O = ProducerOwners

  datatype State = State(hash: H.State, owners: O.State)

  /** A step of a thread, or of a token. */
  datatype Pick = Thread(pick: H.Pick) | Token(ask: O.Pick)

  /** The thread asks for an implicit producer; its access to the table waits until it has one or gets none. */
  predicate Asks(s: State, t: nat)
    requires t < |s.hash.threads| <= |s.owners.holders|
  { s.hash.threads[t].pc.Acquire? && !s.owners.holders[t].With? }

  /** The access to the table, if thread t makes one: with the producer that it got. */
  function HashPick(s: State, p: H.Pick): (r: Option<H.Pick>)
    requires p.thread < |s.hash.threads| <= |s.owners.holders|
    ensures r.Some? ==> r.value.thread == p.thread
  {
    var h := s.owners.holders[p.thread];
    if !s.hash.threads[p.thread].pc.Acquire? then Some(p)
    else if h.With? then Some(p.(producer := h.producer, noMemory := false))
    else if h.Make? && p.noMemory then Some(p)
    else None
  }

  /** The access to the producers, if thread t makes one. */
  function OwnersPick(s: State, p: H.Pick): (r: Option<O.Pick>)
    requires p.thread < |s.hash.threads| <= |s.owners.holders|
    ensures r.Some? ==> r.value.holder == p.thread
  {
    if Asks(s, p.thread) || s.hash.threads[p.thread].pc.Release? then Some(O.Pick(p.thread, false, p.noMemory)) else None
  }

  predicate Legal(s: State, pick: Pick) {
    && |s.hash.threads| <= |s.owners.holders|
    && (pick.Thread? ==> pick.pick.thread < |s.hash.threads|)
    && (pick.Token? ==> |s.hash.threads| <= pick.ask.holder < |s.owners.holders|)
  }

  predicate HashFollows(s: H.State, p: Option<H.Pick>, s': H.State) {
    if p.Some? then H.Enabled(s, p.value) ==> s' == H.Step(s, p.value) else s' == s
  }

  predicate OwnersFollow(s: O.State, p: Option<O.Pick>, s': O.State) {
    if p.Some? then O.Enabled(s, p.value) ==> s' == O.Step(s, p.value) else s' == s
  }

  function HashPart(s: State, pick: Pick): Option<H.Pick>
    requires Legal(s, pick)
  { if pick.Thread? then HashPick(s, pick.pick) else None }

  function OwnersPart(s: State, pick: Pick): Option<O.Pick>
    requires Legal(s, pick)
  { if pick.Thread? then OwnersPick(s, pick.pick) else Some(pick.ask) }

  predicate Follows(s: State, pick: Pick, s': State) {
    && Legal(s, pick)
    && HashFollows(s.hash, HashPart(s, pick), s'.hash)
    && OwnersFollow(s.owners, OwnersPart(s, pick), s'.owners)
  }

  /** The first table, the pool of producers, and nobody with a producer. */
  function Init(capacity: nat, hashes: seq<nat>, poolSize: nat, tokens: nat): State
    requires capacity > 0
  { State(H.Init(capacity, hashes), O.Init(poolSize, |hashes| + tokens)) }

  ghost predicate Run(states: seq<State>, picks: seq<Pick>) {
    && |states| == |picks| + 1
    && (exists capacity: nat, hashes: seq<nat>, poolSize: nat, tokens: nat ::
          capacity > 0 && states[0] == Init(capacity, hashes, poolSize, tokens))
    && (forall i :: 0 <= i < |picks| ==> Follows(states[i], picks[i], states[i + 1]))
  }

  // ---- The coupling --------------------------------------------------------------------------------------------

  /** What a thread asks for, and has, is an implicit producer. */
  predicate Implicit(h: O.Holder) { (h.Start? || h.Look? || h.Take? || h.Draw? || h.Make? || h.Link? || h.With?) ==> !h.isExplicit }

  /** Outside recycle_or_create_producer a thread owns exactly what its holder has. */
  predicate ThreadCoupled(th: H.Thread, h: O.Holder) {
    && Implicit(h)
    && (!th.pc.Acquire? ==> h == if th.owns.Some? then O.With(false, th.owns.value) else O.Without)
    && (th.pc.Acquire? ==> th.owns == None)
    && (th.pc.ExitLoad? || th.pc.Clear? || th.pc.Release? ==> th.owns.Some?)
  }

  ghost predicate Coupled(s: State) {
    && |s.hash.threads| <= |s.owners.holders|
    && (forall t :: 0 <= t < |s.hash.threads| ==> ThreadCoupled(s.hash.threads[t], s.owners.holders[t]))
  }

  ghost predicate Inv(s: State) { Coupled(s) && H.Inv(s.hash) && O.Inv(s.owners) }

  /** What ProducerHash takes for granted: the producer a thread gets is nobody else's. */
  lemma LegalHash(s: State, pick: Pick)
    requires Inv(s) && Legal(s, pick) && HashPart(s, pick).Some?
    ensures H.Legal(s.hash, HashPart(s, pick).value)
  {
    hide H.Inv, O.HolderOk, O.MemoryOk, O.AccountedFor;
    var p := HashPart(s, pick).value;
    var t := p.thread;
    if s.hash.threads[t].pc.Acquire? && !p.noMemory {
      forall u | 0 <= u < |s.hash.threads| && u != t ensures s.hash.threads[u].owns != Some(p.producer) {
        assert ThreadCoupled(s.hash.threads[u], s.owners.holders[u]);
      }
    }
  }

  lemma HashKeeps(s: State, pick: Pick, s': State)
    requires Inv(s) && Follows(s, pick, s')
    ensures H.Inv(s'.hash)
    ensures var p := HashPart(s, pick); if p.Some? then H.Follows(s.hash, p.value, s'.hash) else s'.hash == s.hash
    ensures var p := HashPart(s, pick); p.Some? ==> H.Enabled(s.hash, p.value) && s'.hash == H.Step(s.hash, p.value)
  {
    hide H.Inv, O.Inv, H.Step, H.Enabled, H.Legal;
    if HashPart(s, pick).Some? {
      LegalHash(s, pick);
      H.StepKeeps(s.hash, HashPart(s, pick).value);
    }
  }

  lemma OwnersKeep(s: State, pick: Pick, s': State)
    requires Inv(s) && Follows(s, pick, s')
    ensures O.Inv(s'.owners)
    ensures var p := OwnersPart(s, pick); p.Some? ==> O.Enabled(s.owners, p.value) && s'.owners == O.Step(s.owners, p.value)
  {
    hide H.Inv, O.Inv, O.Step, O.Enabled;
    if OwnersPart(s, pick).Some? { O.StepKeeps(s.owners, OwnersPart(s, pick).value); }
  }

  /** Only thread t changes on the table's side, and only the holder who moves on the producers' side. */
  lemma OthersStay(s: State, pick: Pick, s': State, u: nat)
    requires Inv(s) && Follows(s, pick, s') && u < |s.hash.threads| && (pick.Thread? ==> u != pick.pick.thread)
    ensures |s'.hash.threads| == |s.hash.threads| && |s'.owners.holders| == |s.owners.holders|
    ensures s'.hash.threads[u] == s.hash.threads[u] && s'.owners.holders[u] == s.owners.holders[u]
  {
    hide H.Inv, O.Inv, H.Access, O.Access;
    HashKeeps(s, pick, s');
    OwnersKeep(s, pick, s');
  }

  lemma InsertingOwnsNone(s: H.State, t: nat)
    requires H.Inv(s) && t < |s.threads| && H.Inserting(s.threads[t].pc)
    ensures s.threads[t].owns == None
  {
    assert H.ThreadOk(s.mem.tables, t, s.threads[t]);
  }

  lemma OwnStep(s: State, pick: H.Pick, s': State)
    requires Inv(s) && Follows(s, Thread(pick), s')
    ensures |s'.hash.threads| == |s.hash.threads| && |s'.owners.holders| == |s.owners.holders|
    ensures ThreadCoupled(s'.hash.threads[pick.thread], s'.owners.holders[pick.thread])
  {
    hide H.Inv, O.Inv;
    HashKeeps(s, Thread(pick), s');
    OwnersKeep(s, Thread(pick), s');
    if H.Inserting(s.hash.threads[pick.thread].pc) { InsertingOwnsNone(s.hash, pick.thread); }
    assert ThreadCoupled(s.hash.threads[pick.thread], s.owners.holders[pick.thread]);
  }

  lemma StepKeeps(s: State, pick: Pick, s': State)
    requires Inv(s) && Follows(s, pick, s')
    ensures Inv(s')
  {
    hide H.Inv, O.Inv, Follows, ThreadCoupled;
    HashKeeps(s, pick, s');
    OwnersKeep(s, pick, s');
    if pick.Thread? { OwnStep(s, pick.pick, s'); }
    forall t | 0 <= t < |s.hash.threads| && (pick.Thread? ==> t != pick.pick.thread)
      ensures s'.hash.threads[t] == s.hash.threads[t] && s'.owners.holders[t] == s.owners.holders[t]
    {
      OthersStay(s, pick, s', t);
    }
  }

  // ---- Runs -----------------------------------------------------------------------------------------------------

  lemma InitOk(capacity: nat, hashes: seq<nat>, poolSize: nat, tokens: nat)
    requires capacity > 0
    ensures Inv(Init(capacity, hashes, poolSize, tokens))
  {
    H.InitOk(capacity, hashes);
  }

  lemma {:induction false} RunInv(states: seq<State>, picks: seq<Pick>, i: nat)
    requires Run(states, picks) && i < |states|
    ensures Inv(states[i])
  {
    hide Inv, Follows, Init;
    if i == 0 {
      var capacity: nat, hashes: seq<nat>, poolSize: nat, tokens: nat :|
        capacity > 0 && states[0] == Init(capacity, hashes, poolSize, tokens);
      InitOk(capacity, hashes, poolSize, tokens);
    } else {
      RunInv(states, picks, i - 1);
      assert Follows(states[i - 1], picks[i - 1], states[i]);
      StepKeeps(states[i - 1], picks[i - 1], states[i]);
    }
  }

  /** What the threads do to the table in a run of both machines is a run of ProducerHash, so that everything shown
      of its runs holds here, with nothing taken for granted about the producers. */
  lemma {:induction false} TableRun(states: seq<State>, picks: seq<Pick>, i: nat) returns (hs: seq<H.State>, ps: seq<H.Pick>)
    requires Run(states, picks) && i < |states|
    ensures H.Run(hs, ps) && hs[|hs| - 1] == states[i].hash && hs[0] == states[0].hash
  {
    hide Inv, Follows, H.Follows;
    if i == 0 {
      var capacity: nat, hashes: seq<nat>, poolSize: nat, tokens: nat :|
        capacity > 0 && states[0] == Init(capacity, hashes, poolSize, tokens);
      hs, ps := [states[0].hash], [];
    } else {
      hs, ps := TableRun(states, picks, i - 1);
      RunInv(states, picks, i - 1);
      var s, pick := states[i - 1], picks[i - 1];
      assert Follows(s, pick, states[i]);
      assert Legal(s, pick) by { FollowsLegal(s, pick, states[i]); }
      HashKeeps(s, pick, states[i]);
      if HashPart(s, pick).Some? { hs, ps := MoreTable(hs, ps, HashPart(s, pick).value, states[i].hash); }
    }
  }

  lemma FollowsLegal(s: State, pick: Pick, s': State)
    requires Follows(s, pick, s')
    ensures Legal(s, pick)
  {
  }

  lemma MoreTable(hs: seq<H.State>, ps: seq<H.Pick>, p: H.Pick, s': H.State) returns (hs': seq<H.State>, ps': seq<H.Pick>)
    requires H.Run(hs, ps) && H.Follows(hs[|hs| - 1], p, s')
    ensures hs' == hs + [s'] && ps' == ps + [p] && H.Run(hs', ps')
  {
    hide H.Follows;
    hs', ps' := hs + [s'], ps + [p];
    forall i | 0 <= i < |ps'| ensures H.Follows(hs'[i], ps'[i], hs'[i + 1]) {
      if i < |ps| { assert H.Follows(hs[i], ps[i], hs[i + 1]); }
    }
  }

  /** In every state of every run of both machines: what a call returned is the producer its thread has taken, which is
      an active implicit producer on the list; no other thread and no token has it; and every entry of the tables with
      the thread's key, but one it is storing now, holds that producer. */
  lemma ThreadsHaveTheirOwn(states: seq<State>, picks: seq<Pick>, i: nat, t: nat)
    requires Run(states, picks) && i < |states| && t < |states[i].hash.threads|
    ensures var th, tables, m, hs := states[i].hash.threads[t], states[i].hash.mem.tables, states[i].owners.mem, states[i].owners.holders;
            && (th.pc.Idle? && th.pc.last.Got? ==> th.owns == Some(th.pc.last.producer))
            && (th.owns.Some? ==>
                  var p := th.owns.value;
                  && p in m.list && p < |m.producers| && !m.producers[p].inactive && !m.producers[p].isExplicit
                  && (forall u :: 0 <= u < |hs| && u != t ==> O.Has(hs[u]) != Some(p)))
            && (forall k, a :: 0 <= k < |tables| && 0 <= a < |tables[k]| && tables[k][a].key == H.Id(t) ==>
                  H.Storing(th.pc) == Some((k, a)) || th.owns == Some(tables[k][a].value))
  {
    RunInv(states, picks, i);
    var hs, ps := TableRun(states, picks, i);
    H.LookupReturnsOwn(hs, ps, |hs| - 1, t);
    hide H.Inv, H.Run, Run;
    var s := states[i];
    assert ThreadCoupled(s.hash.threads[t], s.owners.holders[t]);
    assert O.HolderOk(s.owners.mem, s.owners.holders[t]);
  }
}
