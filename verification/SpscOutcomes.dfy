/** What the calls on the ring of external/rigtorp/SPSCQueue.h report is what they did, and they return. */
module SpscOutcomes {
  import opened Options
  import opened SpscRing

  // ---- emplace and try_emplace ----------------------------------------------------------------------------------------

  /** The producer's call that begins with step i is going on in state l, or has just ended there. */
  ghost predicate InPush<V>(states: seq<State<V>>, picks: seq<Pick<V>>, i: nat, l: nat) {
    && |states| == |picks| + 1 && i < l <= |picks| && picks[i].Produce? && states[i].producer.PIdle?
    && forall x :: i < x < l ==> !states[x].producer.PIdle?
  }

  /** The call is about v, and waits or not. */
  predicate Carries<V(==)>(p: Producer<V>, v: V, wait: bool) {
    match p
    case PIdle(_) => true
    case PStart(v', wait') => v' == v && wait' == wait
    case PReload(v', wait') => v' == v && wait' == wait
    case PBuild(v') => v' == v
    case PStore(v') => v' == v
  }

  /** The producer reloads the read index and finds as many elements as capacity(). */
  ghost predicate FindsFull<V>(s: State<V>, pick: Pick<V>) {
    pick.Produce? && s.producer.PReload? && s.mem.taken <= |s.mem.log| && |Contents(s.mem)| == Bound(s.mem)
  }

  /** At least as many steps as the call has still to take, besides those that find the queue full. */
  function PushRank<V>(p: Producer<V>): nat {
    match p
    case PIdle(_) => 0
    case PStart(_, _) => 4
    case PReload(_, _) => 3
    case PBuild(_) => 2
    case PStore(_) => 1
  }

  lemma PushStep<V>(s: State<V>, pick: Pick<V>, v: V, wait: bool)
    requires Inv(s) && pick.Produce?
    requires if s.producer.PIdle? then pick == Produce(v, wait) else Carries(s.producer, v, wait)
    ensures var s' := Step(s, pick);
            && Carries(s'.producer, v, wait) && (s.producer.PIdle? ==> s'.producer == PStart(v, wait))
            && s'.mem.log == s.mem.log + (if s'.producer == PIdle(false) then [v] else [])
            && (s'.producer == PIdle(true) ==> !wait && FindsFull(s, pick))
            && (s.producer.PIdle? || PushRank(s'.producer) < PushRank(s.producer) || (wait && FindsFull(s, pick) && s'.producer == s.producer))
  {
    ProducerKeeps(s, pick);
    hide SlotsOk;
  }

  lemma OtherSide<V>(s: State<V>, pick: Pick<V>)
    requires Shape(s.mem)
    ensures pick.Consume? ==> Step(s, pick).producer == s.producer && Step(s, pick).mem.log == s.mem.log
    ensures pick.Produce? ==> Step(s, pick).consumer == s.consumer && Step(s, pick).mem.taken == s.mem.taken
  {
  }

  lemma InvShape<V>(s: State<V>)
    requires Inv(s)
    ensures Shape(s.mem)
  {
  }

  /** How many of the picks from lo to before hi are the producer's and do not find the queue full. */
  ghost function Pushing<V>(states: seq<State<V>>, picks: seq<Pick<V>>, lo: nat, hi: nat): nat
    requires |states| == |picks| + 1 && hi <= |picks|
  {
    if hi <= lo then 0
    else Pushing(states, picks, lo, hi - 1) + if picks[hi - 1].Produce? && !FindsFull(states[hi - 1], picks[hi - 1]) then 1 else 0
  }

  lemma {:induction false} PushGoesOn<V>(states: seq<State<V>>, picks: seq<Pick<V>>, i: nat, l: nat)
    requires Run(states, picks) && InPush(states, picks, i, l)
    ensures Carries(states[l].producer, picks[i].v, picks[i].wait)
    ensures states[l].mem.log == states[i].mem.log + (if states[l].producer == PIdle(false) then [picks[i].v] else [])
    ensures Pushing(states, picks, i, l) + PushRank(states[l].producer) <= 5
    ensures states[l].producer == PIdle(true) ==> !picks[i].wait && FindsFull(states[l - 1], picks[l - 1])
  {
    RunInv(states, picks, l - 1);
    hide Inv, Step, Run, Carries, FindsFull;
    var s, pick := states[l - 1], picks[l - 1];
    InvShape(s);
    if i + 1 < l { PushGoesOn(states, picks, i, l - 1); } else { assert Pushing(states, picks, i, i) == 0; }
    if pick.Produce? { PushStep(s, pick, picks[i].v, picks[i].wait); } else { OtherSide(s, pick); }
  }

  /** Over every run: emplace, and try_emplace that returns true, have enqueued their element and nothing else; try_emplace
      returns false only when it has just found the queue full, and enqueues nothing.  Each takes at most five steps
      besides those at which it finds the queue full. */
  lemma PushReports<V>(states: seq<State<V>>, picks: seq<Pick<V>>, i: nat, l: nat)
    requires Run(states, picks) && InPush(states, picks, i, l)
    ensures Pushing(states, picks, i, l) <= 5
    ensures match states[l].producer
            case PIdle(refused) =>
              if refused then !picks[i].wait && FindsFull(states[l - 1], picks[l - 1]) && states[l].mem.log == states[i].mem.log
              else states[l].mem.log == states[i].mem.log + [picks[i].v]
            case _ => states[l].mem.log == states[i].mem.log
  {
    PushGoesOn(states, picks, i, l);
  }

  // ---- front and pop ----------------------------------------------------------------------------------------------------

  ghost predicate InPop<V>(states: seq<State<V>>, picks: seq<Pick<V>>, i: nat, l: nat) {
    && |states| == |picks| + 1 && i < l <= |picks| && picks[i].Consume? && states[i].consumer.CIdle?
    && forall x :: i < x < l ==> !states[x].consumer.CIdle?
  }

  /** The consumer's call is a pop: it asks for one, after a front that returned an element. */
  predicate IsPop<V>(s: State<V>, pick: Pick<V>) { pick.Consume? && pick.pop && s.consumer.CIdle? && s.consumer.front.At? }

  /** Where such a call, or a front, can be. */
  predicate Within(c: Consumer, pop: bool) {
    match c
    case CIdle(f) => if pop then f.Unknown? else !f.Unknown?
    case CStart => !pop
    case CReload => !pop
    case CDestroy => pop
    case CStore => pop
  }

  function PopRank(c: Consumer): nat {
    match c
    case CIdle(_) => 0
    case CStart => 2
    case CReload => 1
    case CDestroy => 2
    case CStore => 1
  }

  lemma PopStep<V>(s: State<V>, pick: Pick<V>, pop: bool)
    requires Inv(s) && pick.Consume? && if s.consumer.CIdle? then pop == IsPop(s, pick) else Within(s.consumer, pop)
    ensures var s' := Step(s, pick);
            && Within(s'.consumer, pop) && (s.consumer.CIdle? ==> !s'.consumer.CIdle?)
            && s'.mem.taken == s.mem.taken + (if pop && s'.consumer.CIdle? then 1 else 0)
            && (s'.consumer == CIdle(Null) ==> s.mem.taken <= |s.mem.log| && Contents(s.mem) == [])
            && (s.consumer.CIdle? || PopRank(s'.consumer) < PopRank(s.consumer))
  {
    ConsumerKeeps(s, pick.pop);
    hide SlotsOk;
  }

  ghost function Popping<V>(picks: seq<Pick<V>>, lo: nat, hi: nat): nat
    requires hi <= |picks|
  { if hi <= lo then 0 else Popping(picks, lo, hi - 1) + if picks[hi - 1].Consume? then 1 else 0 }

  lemma {:induction false} PopGoesOn<V>(states: seq<State<V>>, picks: seq<Pick<V>>, i: nat, l: nat)
    requires Run(states, picks) && InPop(states, picks, i, l)
    ensures Within(states[l].consumer, IsPop(states[i], picks[i]))
    ensures states[l].mem.taken == states[i].mem.taken + (if IsPop(states[i], picks[i]) && states[l].consumer.CIdle? then 1 else 0)
    ensures Popping(picks, i, l) + PopRank(states[l].consumer) <= 3
    ensures states[l].consumer == CIdle(Null) ==> states[l - 1].mem.taken <= |states[l - 1].mem.log| && Contents(states[l - 1].mem) == []
  {
    RunInv(states, picks, l - 1);
    hide Inv, Step, Run, Within, IsPop;
    var s, pick := states[l - 1], picks[l - 1];
    InvShape(s);
    if i + 1 < l { PopGoesOn(states, picks, i, l - 1); } else { assert Popping(picks, i, i) == 0; }
    if pick.Consume? { PopStep(s, pick, IsPop(states[i], picks[i])); } else { OtherSide(s, pick); }
  }

  /** Over every run: front returns null only when it has just found the queue empty, and otherwise where the oldest element
      is; pop takes exactly that element off.  Each takes at most three steps. */
  lemma PopReports<V>(states: seq<State<V>>, picks: seq<Pick<V>>, i: nat, l: nat)
    requires Run(states, picks) && InPop(states, picks, i, l)
    ensures Popping(picks, i, l) <= 3
    ensures states[l].mem.taken <= |states[l].mem.log|
    ensures states[l].consumer.CIdle? ==>
              if IsPop(states[i], picks[i]) then states[l].mem.taken == states[i].mem.taken + 1
              else
                && states[l].mem.taken == states[i].mem.taken
                && match states[l].consumer.front
                   case Unknown => false
                   case Null => states[l - 1].mem.taken == |states[l - 1].mem.log|
                   case At(slot) =>
                     && Contents(states[l].mem) != [] && slot + states[l].mem.padding < |states[l].mem.slots|
                     && states[l].mem.slots[slot + states[l].mem.padding] == Some(Contents(states[l].mem)[0])
  {
    PopGoesOn(states, picks, i, l);
    RunInv(states, picks, l);
    if states[l].consumer.CIdle? && states[l].consumer.front.At? { FrontIsOldest(states[l]); }
    hide SlotsOk, Run;
  }
}
