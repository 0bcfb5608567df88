/** What recycle_or_create_producer of external/cameron314/concurrentqueue.h comes back with: a producer of the kind asked
    for, made anew only if there was none to recycle, and none only if memory was refused. */
module ProducerOutcomes {
  import opened ProducerOwners

  /** Holder t asks for a producer with step i; in state l it still does, or has just come back. */
  ghost predicate InAsk(states: seq<State>, picks: seq<Pick>, t: nat, i: nat, l: nat) {
    && |states| == |picks| + 1 && i < l <= |picks| && picks[i].holder == t
    && (forall x :: i <= x <= l ==> t < |states[x].holders|) && states[i].holders[t] == Without
    && forall x :: i < x < l ==> !Between(states[x].holders[t])
  }

  predicate Between(h: Holder) { h.Without? || h.With? }

  /** The producer is active, or of the other kind. */
  predicate Unfit(s: State, p: nat, isExplicit: bool) {
    p < |s.mem.producers| && (!s.mem.producers[p].inactive || s.mem.producers[p].isExplicit != isExplicit)
  }

  ghost predicate WasUnfit(states: seq<State>, i: nat, l: nat, p: nat, isExplicit: bool) {
    l <= |states| && exists x :: i <= x < l && Unfit(states[x], p, isExplicit)
  }

  /** Each producer from place from on of the list, as it was when the search loaded its tail in state b, was unfit at some
      instant since. */
  ghost predicate Searched(states: seq<State>, i: nat, l: nat, b: nat, from: nat, isExplicit: bool) {
    && i < b < l <= |states|
    && forall x :: from <= x < |states[b].mem.list| ==> WasUnfit(states, b, l, states[b].mem.list[x], isExplicit)
  }

  predicate PoolIsEmpty(s: State) { s.mem.nextTicket >= s.mem.poolSize }

  /** How far a search that loaded the list's tail in state b has got; m is when it found the pool empty. */
  ghost predicate Tells(states: seq<State>, i: nat, l: nat, b: nat, m: nat, h: Holder, k: bool) {
    match h
    case Without => true
    case Start(k') => k' == k
    case Look(k', left) => k' == k && Searched(states, i, l, b, left, k) && left <= |states[b].mem.list|
    case Take(k', left) => k' == k && Searched(states, i, l, b, left, k) && left <= |states[b].mem.list|
    case Draw(k') => k' == k && Searched(states, i, l, b, 0, k)
    case Ticket => !k && Searched(states, i, l, b, 0, k)
    case Activate(_) => !k
    case Make(k') => k' == k && Searched(states, i, l, b, 0, k) && (!k ==> i < m < l <= |states| && PoolIsEmpty(states[m]))
    case Link(k', _) => k' == k
    case With(k', _) => k' == k
  }

  // ---- One step ---------------------------------------------------------------------------------------------------------

  lemma StepLeaves(s: State, pick: Pick)
    requires Enabled(s, pick)
    ensures var s' := Step(s, pick); s.mem.list <= s'.mem.list && |s'.holders| == |s.holders|
  {
  }

  lemma {:induction false} ListGrows(states: seq<State>, picks: seq<Pick>, b: nat, l: nat)
    requires Run(states, picks) && b <= l < |states|
    ensures states[b].mem.list <= states[l].mem.list
  {
    if b < l {
      ListGrows(states, picks, b, l - 1);
      RunInv(states, picks, l - 1);
      assert Follows(states[l - 1], picks[l - 1], states[l]);
      assert HolderOk(states[l - 1].mem, states[l - 1].holders[picks[l - 1].holder]);
      StepLeaves(states[l - 1], picks[l - 1]);
    }
  }

  lemma SearchedOn(states: seq<State>, i: nat, l: nat, b: nat, from: nat, k: bool)
    requires Searched(states, i, l, b, from, k) && l < |states|
    ensures Searched(states, i, l + 1, b, from, k)
  {
    forall x | from <= x < |states[b].mem.list| ensures WasUnfit(states, b, l + 1, states[b].mem.list[x], k) {
      assert WasUnfit(states, b, l, states[b].mem.list[x], k);
    }
  }

  lemma SearchedOne(states: seq<State>, i: nat, l: nat, b: nat, from: nat, k: bool)
    requires Searched(states, i, l, b, from, k) && l < |states| && 0 < from <= |states[b].mem.list|
    requires Unfit(states[l], states[b].mem.list[from - 1], k)
    ensures Searched(states, i, l + 1, b, from - 1, k)
  {
    SearchedOn(states, i, l, b, from, k);
  }

  /** A step of the search's own. */
  lemma OwnStepTells(states: seq<State>, i: nat, l: nat, b: nat, m: nat, h: Holder, pick: Pick, k: bool) returns (b': nat, m': nat)
    requires i < l && l + 1 < |states| && InRange(states[l].mem, h) && !Between(h) && Tells(states, i, l, b, m, h, k)
    requires b < l && !h.Start? ==> states[b].mem.list <= states[l].mem.list
    ensures Tells(states, i, l + 1, b', m', Access(states[l].mem, h, pick).1, k)
    ensures Access(states[l].mem, h, pick).1.Without? ==> h == Make(k) && pick.noMemory
  {
    b', m' := b, m;
    match h
    case Start(_) => b' := l;
    case Look(_, left) =>
      SearchedOn(states, i, l, b, left, k);
      if left > 0 && Unfit(states[l], states[b].mem.list[left - 1], k) { SearchedOne(states, i, l, b, left, k); }
    case Take(_, left) =>
      SearchedOn(states, i, l, b, left, k);
      if Unfit(states[l], states[b].mem.list[left - 1], k) { SearchedOne(states, i, l, b, left, k); }
    case Draw(_) =>
      SearchedOn(states, i, l, b, 0, k);
      m' := l;
    case Ticket =>
      SearchedOn(states, i, l, b, 0, k);
      m' := l;
    case _ =>
  }

  lemma OtherStepTells(states: seq<State>, i: nat, l: nat, b: nat, m: nat, h: Holder, k: bool)
    requires l < |states| && Tells(states, i, l, b, m, h, k)
    ensures Tells(states, i, l + 1, b, m, h, k)
  {
    match h
    case Look(_, left) => SearchedOn(states, i, l, b, left, k);
    case Take(_, left) => SearchedOn(states, i, l, b, left, k);
    case Draw(_) => SearchedOn(states, i, l, b, 0, k);
    case Ticket => SearchedOn(states, i, l, b, 0, k);
    case Make(_) => SearchedOn(states, i, l, b, 0, k);
    case _ =>
  }

  // ---- A whole ask --------------------------------------------------------------------------------------------------------

  lemma {:induction false} AskTells(states: seq<State>, picks: seq<Pick>, t: nat, i: nat, l: nat) returns (b: nat, m: nat)
    requires Run(states, picks) && InAsk(states, picks, t, i, l)
    ensures Tells(states, i, l, b, m, states[l].holders[t], picks[i].isExplicit)
    ensures states[l].holders[t].Without? ==>
              picks[l - 1].holder == t && states[l - 1].holders[t] == Make(picks[i].isExplicit) && picks[l - 1].noMemory
  {
    var s, pick, h := states[l - 1], picks[l - 1], states[l - 1].holders[t];
    RunInv(states, picks, l - 1);
    assert Follows(s, pick, states[l]) && HolderOk(s.mem, s.holders[pick.holder]) && states[l] == Step(s, pick);
    b, m := i, i;
    if i + 1 < l {
      b, m := AskTells(states, picks, t, i, l - 1);
      hide Run, Inv, Tells, Searched;
      if b < l - 1 { ListGrows(states, picks, b, l - 1); }
      if pick.holder == t {
        b, m := OwnStepTells(states, i, l - 1, b, m, h, pick, picks[i].isExplicit);
      } else {
        OtherStepTells(states, i, l - 1, b, m, h, picks[i].isExplicit);
      }
    }
  }

  /** Over every run: an ask comes back with an active producer of the kind asked for that is on the list, or without one
      because memory for a new one was refused at its last step. */
  lemma AskReports(states: seq<State>, picks: seq<Pick>, t: nat, i: nat, l: nat)
    requires Run(states, picks) && InAsk(states, picks, t, i, l) && Between(states[l].holders[t])
    ensures match states[l].holders[t]
            case With(k, p) =>
              && k == picks[i].isExplicit && p in states[l].mem.list && p < |states[l].mem.producers|
              && states[l].mem.producers[p] == Producer(k, false)
            case _ => picks[l - 1].holder == t && states[l - 1].holders[t] == Make(picks[i].isExplicit) && picks[l - 1].noMemory
  {
    var _, _ := AskTells(states, picks, t, i, l);
    RunInv(states, picks, l);
    assert HolderOk(states[l].mem, states[l].holders[t]);
  }

  /** Over every run: an ask is about to make a new producer only if each producer that was on the list at an instant inside
      the ask was unfit at some instant after, and, for an implicit one, the pool was empty at some instant. */
  lemma MakesOnlyIfNoneToRecycle(states: seq<State>, picks: seq<Pick>, t: nat, i: nat, l: nat) returns (b: nat, m: nat)
    requires Run(states, picks) && InAsk(states, picks, t, i, l) && states[l].holders[t].Make?
    ensures i < b < l
    ensures forall x :: 0 <= x < |states[b].mem.list| ==> WasUnfit(states, b, l, states[b].mem.list[x], picks[i].isExplicit)
    ensures !picks[i].isExplicit ==> i < m < l && PoolIsEmpty(states[m])
  {
    b, m := AskTells(states, picks, t, i, l);
  }
}
