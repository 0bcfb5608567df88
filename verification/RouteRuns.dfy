/** Any sequence of registrations and removals on the router of external/uWebSockets/HttpRouter.h, against the plain list
    of registrations that are in force. */
module RouteRuns {
  import opened Options
  import opened RouteTree
  import opened RouteTable

  datatype Op<H> = Register(g: Registration<H>) | Unregister(verb: string, pattern: string, priority: nat)

  function Perform<H>(r: Routes<H>, op: Op<H>): Routes<H>
    requires op.Register? ==> op.g.methods != []
  {
    match op
    case Register(g) => Add(r, g)
    case Unregister(verb, pattern, priority) => Remove(r, verb, pattern, priority)
  }

  // ---- The list of registrations ----------------------------------------------------------------------------------

  predicate Serves<H>(g: Registration<H>, verb: string, path: seq<Label>, priority: nat) {
    verb in g.methods && path == PathOf(g.pattern, g.priority) && priority == g.priority
  }

  function FirstTrue(bs: seq<bool>): (i: Option<nat>)
    ensures i.Some? ==> i.value < |bs| && bs[i.value] && forall j :: 0 <= j < i.value ==> !bs[j]
    ensures i.None? ==> forall j :: 0 <= j < |bs| ==> !bs[j]
  {
    if bs == [] then None
    else
      match FirstTrue(bs[..|bs| - 1])
      case Some(i) => Some(i)
      case None => if bs[|bs| - 1] then Some(|bs| - 1) else None
  }

  function Serving<H>(regs: seq<Registration<H>>, verb: string, path: seq<Label>, priority: nat): seq<bool> {
    seq(|regs|, i requires 0 <= i < |regs| => Serves(regs[i], verb, path, priority))
  }

  /** The first registration that serves a method, path and priority. */
  function FirstServing<H>(regs: seq<Registration<H>>, verb: string, path: seq<Label>, priority: nat): Option<nat> {
    FirstTrue(Serving(regs, verb, path, priority))
  }

  lemma FirstServingIs<H>(regs: seq<Registration<H>>, verb: string, path: seq<Label>, priority: nat)
    ensures match FirstServing(regs, verb, path, priority)
            case Some(i) => i < |regs| && Serves(regs[i], verb, path, priority)
                            && forall j :: 0 <= j < i ==> !Serves(regs[j], verb, path, priority)
            case None => forall j :: 0 <= j < |regs| ==> !Serves(regs[j], verb, path, priority)
  {
    hide Serves, FirstTrue;
    var bs := Serving(regs, verb, path, priority);
    assert |bs| == |regs| && forall j :: 0 <= j < |regs| ==> bs[j] == Serves(regs[j], verb, path, priority);
  }

  /** Removing takes out the first registration that serves the pattern as it is spelled, with all its methods. */
  function Drop<H>(regs: seq<Registration<H>>, verb: string, pattern: string, priority: nat): seq<Registration<H>> {
    match FirstServing(regs, verb, RawPath(pattern, priority), priority)
    case Some(i) => if i < |regs| then Removed(regs, i) else regs
    case None => regs
  }

  /** Registering replaces what the first of the methods finds. */
  function Apply<H>(regs: seq<Registration<H>>, op: Op<H>): seq<Registration<H>>
    requires op.Register? ==> op.g.methods != []
  {
    match op
    case Register(g) => Drop(regs, g.methods[0], g.pattern, g.priority) + [g]
    case Unregister(verb, pattern, priority) => Drop(regs, verb, pattern, priority)
  }

  predicate PlainOps<H>(ops: seq<Op<H>>) { forall i :: 0 <= i < |ops| ==> (ops[i].Register? ==> Plain(ops[i].g)) }

  function Registrations<H>(ops: seq<Op<H>>): seq<Registration<H>>
    requires PlainOps(ops)
    decreases |ops|
  { if ops == [] then [] else Apply(Registrations(ops[..|ops| - 1]), ops[|ops| - 1]) }

  function Router<H>(ops: seq<Op<H>>): Routes<H>
    requires PlainOps(ops)
    decreases |ops|
  { if ops == [] then Empty() else Perform(Router(ops[..|ops| - 1]), ops[|ops| - 1]) }

  /** There are never too many handlers for their ids. */
  predicate Fits<H>(ops: seq<Op<H>>)
    requires PlainOps(ops)
    decreases |ops|
  { ops == [] || (Fits(ops[..|ops| - 1]) && |Registrations(ops[..|ops| - 1])| < MAX_HANDLERS) }

  function Prios<H>(regs: seq<Registration<H>>): (r: seq<nat>)
    ensures |r| == |regs| && forall i :: 0 <= i < |r| ==> r[i] == regs[i].priority
  { seq(|regs|, i requires 0 <= i < |regs| => regs[i].priority) }

  function Handlers<H>(regs: seq<Registration<H>>): (r: seq<H>)
    ensures |r| == |regs| && forall i :: 0 <= i < |r| ==> r[i] == regs[i].handler
  { seq(|regs|, i requires 0 <= i < |regs| => regs[i].handler) }

  /** Id x at (verb, path) is that of the registration at its index. */
  predicate Stands<H>(regs: seq<Registration<H>>, verb: string, path: seq<Label>, x: nat) {
    var i := Index(x);
    i < |regs| && x == regs[i].priority + i && verb in regs[i].methods && path == PathOf(regs[i].pattern, regs[i].priority)
  }

  /** The tree and the handler list are those of the registrations in force: the i-th has id i. */
  ghost predicate Holds<H>(r: Routes<H>, regs: seq<Registration<H>>) {
    && Valid(r, Prios(regs)) && r.handlers == Handlers(regs)
    && (forall i :: 0 <= i < |regs| ==> Plain(regs[i]))
    && (forall v, q, x :: HasRoute(r.methods, v, q, x) <==> Stands(regs, v, q, x))
  }

  lemma IdOf<H>(regs: seq<Registration<H>>, i: nat)
    requires i < |regs| <= MAX_HANDLERS && IsPriority(regs[i].priority)
    ensures var x := regs[i].priority + i; Index(x) == i && Priority(x) == regs[i].priority
  {
  }

  // ---- Removing -----------------------------------------------------------------------------------------------------

  /** findHandler finds the smallest id. */
  lemma {:induction false} FirstOfPriority(ids: seq<nat>, priority: nat, x: nat)
    requires Increasing(ids) && x in ids && Priority(x) == priority
    ensures WithPriority(ids, priority).Some? && WithPriority(ids, priority).value <= x
  {
    if Priority(ids[0]) != priority {
      assert forall i, j :: 0 <= i < j < |ids[1..]| ==> ids[1..][i] < ids[1..][j];
      assert x in ids[1..];
      FirstOfPriority(ids[1..], priority, x);
    }
  }

  lemma {:induction false} WalkWf(node: Node, path: seq<Label>)
    requires Wf(node) && Walk(node, path).Some?
    ensures Wf(Walk(node, path).value)
    decreases |path|
  {
    if path != [] { WalkWf(node.children[Find(node.children, path[0]).value], path[1..]); }
  }

  lemma FindsSmallest(methods: seq<Node>, prios: seq<nat>, verb: string, pattern: string, priority: nat, x: nat)
    requires MethodsOk(methods, prios) && HasRoute(methods, verb, RawPath(pattern, priority), x) && Priority(x) == priority
    ensures var id := FindHandler(methods, verb, pattern, priority); id.Some? && id.value <= x
  {
    var path := RawPath(pattern, priority);
    RouteIsInNode(methods, prios, verb, path, x);
    var node := methods[Find(methods, MethodLabel(verb)).value];
    WalkFinds(node, path, x);
    WalkWf(node, path);
    FirstOfPriority(Walk(node, path).value.handlers, priority, x);
  }

  /** What findHandler finds is the first registration that serves the key. */
  lemma FindsFirst<H>(r: Routes<H>, regs: seq<Registration<H>>, verb: string, pattern: string, priority: nat)
    requires Holds(r, regs)
    ensures match FirstServing(regs, verb, RawPath(pattern, priority), priority)
            case Some(i) => FindHandler(r.methods, verb, pattern, priority) == Some(priority + i) && Index(priority + i) == i
            case None => FindHandler(r.methods, verb, pattern, priority) == None
  {
    hide *;
    var path := RawPath(pattern, priority);
    FirstServingIs(regs, verb, path, priority);
    match FirstServing(regs, verb, path, priority)
    case Some(i) => FindsServing(r, regs, verb, pattern, priority, i);
    case None => FindsNone(r, regs, verb, pattern, priority);
  }

  lemma FindsServing<H>(r: Routes<H>, regs: seq<Registration<H>>, verb: string, pattern: string, priority: nat, i: nat)
    requires Holds(r, regs) && i < |regs| && Serves(regs[i], verb, RawPath(pattern, priority), priority)
    requires forall j :: 0 <= j < i ==> !Serves(regs[j], verb, RawPath(pattern, priority), priority)
    ensures FindHandler(r.methods, verb, pattern, priority) == Some(priority + i) && Index(priority + i) == i
  {
    hide RawPath, PathOf, FindHandler, HasRoute, Valid, MethodsOk, Plain, Serves, Holds;
    var path := RawPath(pattern, priority);
    HoldsFacts(r, regs);
    ServesStands(regs, verb, path, priority, i);
    HoldsRoute(r, regs, verb, path, priority + i);
    FindsSmallest(r.methods, Prios(regs), verb, pattern, priority, priority + i);
    FindHandlerExactly(r.methods, verb, pattern, priority, Prios(regs));
    var id := FindHandler(r.methods, verb, pattern, priority).value;
    HoldsRoute(r, regs, verb, path, id);
    StandsServes(regs, verb, path, id, priority);
  }

  lemma HoldsFacts<H>(r: Routes<H>, regs: seq<Registration<H>>)
    requires Holds(r, regs)
    ensures |regs| <= MAX_HANDLERS && MethodsOk(r.methods, Prios(regs)) && r.handlers == Handlers(regs)
    ensures forall i :: 0 <= i < |regs| ==> IsPriority(regs[i].priority)
  {
    assert forall i :: 0 <= i < |regs| ==> Plain(regs[i]);
  }

  lemma HoldsRoute<H>(r: Routes<H>, regs: seq<Registration<H>>, v: string, q: seq<Label>, x: nat)
    requires Holds(r, regs)
    ensures HasRoute(r.methods, v, q, x) <==> Stands(regs, v, q, x)
  {
    hide HasRoute, Stands, Valid, Plain;
  }

  lemma ServesStands<H>(regs: seq<Registration<H>>, verb: string, path: seq<Label>, priority: nat, i: nat)
    requires i < |regs| <= MAX_HANDLERS && IsPriority(regs[i].priority) && Serves(regs[i], verb, path, priority)
    ensures Stands(regs, verb, path, priority + i) && Index(priority + i) == i && Priority(priority + i) == priority
  {
    hide PathOf;
    IdOf(regs, i);
  }

  lemma StandsServes<H>(regs: seq<Registration<H>>, verb: string, path: seq<Label>, x: nat, priority: nat)
    requires Stands(regs, verb, path, x) && Priority(x) == priority && |regs| <= MAX_HANDLERS && IsPriority(regs[Index(x)].priority)
    ensures Serves(regs[Index(x)], verb, path, priority)
  {
    hide PathOf;
    IdOf(regs, Index(x));
  }

  lemma FindsNone<H>(r: Routes<H>, regs: seq<Registration<H>>, verb: string, pattern: string, priority: nat)
    requires Holds(r, regs) && forall j :: 0 <= j < |regs| ==> !Serves(regs[j], verb, RawPath(pattern, priority), priority)
    ensures FindHandler(r.methods, verb, pattern, priority) == None
  {
    hide RawPath, PathOf, FindHandler, HasRoute, Valid, MethodsOk, Plain, Serves, Holds;
    var path := RawPath(pattern, priority);
    HoldsFacts(r, regs);
    FindHandlerExactly(r.methods, verb, pattern, priority, Prios(regs));
    if id :| FindHandler(r.methods, verb, pattern, priority) == Some(id) {
      HoldsRoute(r, regs, verb, path, id);
      StandsServes(regs, verb, path, id, priority);
    }
  }

  /** What a registration's id becomes, and what it was. */
  lemma LoweredStands<H>(regs: seq<Registration<H>>, i: nat, v: string, q: seq<Label>, x: nat)
    requires i < |regs| <= MAX_HANDLERS && (forall j :: 0 <= j < |regs| ==> IsPriority(regs[j].priority))
    requires Stands(regs, v, q, x) && x != regs[i].priority + i
    ensures Stands(Removed(regs, i), v, q, Lowered(x, regs[i].priority + i))
  {
    hide PathOf;
    var j, id := Index(x), regs[i].priority + i;
    IdOf(regs, i);
    IdOf(regs, j);
    assert j != i;
    if j > i { IdOf(Removed(regs, i), j - 1); assert Removed(regs, i)[j - 1] == regs[j]; }
  }

  lemma RaisedStands<H>(regs: seq<Registration<H>>, i: nat, v: string, q: seq<Label>, y: nat) returns (x: nat)
    requires i < |regs| <= MAX_HANDLERS && (forall j :: 0 <= j < |regs| ==> IsPriority(regs[j].priority))
    requires Stands(Removed(regs, i), v, q, y)
    ensures Stands(regs, v, q, x) && x != regs[i].priority + i && Lowered(x, regs[i].priority + i) == y
  {
    hide PathOf;
    var j := Index(y);
    IdOf(regs, i);
    x := if j < i then y else y + 1;
    IdOf(regs, if j < i then j else j + 1);
    assert Removed(regs, i)[j] == regs[if j < i then j else j + 1];
  }

  lemma CulledStands<H>(r: Routes<H>, regs: seq<Registration<H>>, i: nat, v: string, q: seq<Label>, y: nat)
    requires Holds(r, regs) && i < |regs|
    ensures var id := regs[i].priority + i; HasRoute(CullBelow(Root(r.methods), 0, id), v, q, y) <==> Stands(Removed(regs, i), v, q, y)
  {
    hide Holds, HasRoute, Stands, CullBelow, Lowered;
    var id := regs[i].priority + i;
    HoldsFacts(r, regs);
    CullRoutes(r.methods, id, v, q, y);
    if HasRoute(CullBelow(Root(r.methods), 0, id), v, q, y) {
      var x :| HasRoute(r.methods, v, q, x) && x != id && Lowered(x, id) == y;
      HoldsRoute(r, regs, v, q, x);
      LoweredStands(regs, i, v, q, x);
    }
    if Stands(Removed(regs, i), v, q, y) {
      var x := RaisedStands(regs, i, v, q, y);
      HoldsRoute(r, regs, v, q, x);
      CullRoutes(r.methods, id, v, q, x);
    }
  }

  /** Removing from the tree is dropping from the list. */
  lemma RemoveHolds<H>(r: Routes<H>, regs: seq<Registration<H>>, verb: string, pattern: string, priority: nat)
    requires Holds(r, regs)
    ensures Holds(Remove(r, verb, pattern, priority), Drop(regs, verb, pattern, priority))
  {
    hide RawPath, HasRoute, Stands, Valid, FindHandler, FirstServing, Serves, CullBelow, MethodsOk, Plain;
    var path := RawPath(pattern, priority);
    RemoveValid(r, Prios(regs), verb, pattern, priority);
    FindsFirst(r, regs, verb, pattern, priority);
    FirstServingIs(regs, verb, path, priority);
    ServedPriority(regs, verb, path, priority);
    HoldsFacts(r, regs);
    if i :| FirstServing(regs, verb, path, priority) == Some(i) {
      var id, regs' := priority + i, Removed(regs, i);
      var r' := Remove(r, verb, pattern, priority);
      assert r' == Routes(CullBelow(Root(r.methods), 0, id), Removed(r.handlers, i));
      assert Prios(regs') == Removed(Prios(regs), i) && Handlers(regs') == Removed(r.handlers, i);
      forall v, q, y ensures HasRoute(r'.methods, v, q, y) <==> Stands(regs', v, q, y) { CulledStands(r, regs, i, v, q, y); }
    }
  }

  lemma ServedPriority<H>(regs: seq<Registration<H>>, verb: string, path: seq<Label>, priority: nat)
    ensures forall i :: 0 <= i < |regs| && Serves(regs[i], verb, path, priority) ==> regs[i].priority == priority
  {
    hide PathOf;
  }

  /** Adding to the tree is appending to the list. */
  lemma AddHolds<H>(r: Routes<H>, regs: seq<Registration<H>>, g: Registration<H>)
    requires Holds(r, regs) && Plain(g) && |regs| < MAX_HANDLERS
    ensures Holds(Add(r, g), Apply(regs, Register(g)))
  {
    var r1, regs1 := Remove(r, g.methods[0], g.pattern, g.priority), Drop(regs, g.methods[0], g.pattern, g.priority);
    RemoveHolds(r, regs, g.methods[0], g.pattern, g.priority);
    DropShorter(regs, g.methods[0], g.pattern, g.priority);
    AddedHolds(r1, regs1, g);
  }

  lemma DropShorter<H>(regs: seq<Registration<H>>, verb: string, pattern: string, priority: nat)
    ensures |Drop(regs, verb, pattern, priority)| <= |regs|
  {
    hide FirstServing, RawPath;
  }

  /** The router with one more registration. */
  function Appended<H>(r: Routes<H>, g: Registration<H>): Routes<H> {
    var id := g.priority + |r.handlers|;
    Routes(SortMethods(InsertMethods(r.methods, g.methods, PathOf(g.pattern, g.priority), id)), r.handlers + [g.handler])
  }

  lemma AppendedRoute<H>(r: Routes<H>, regs: seq<Registration<H>>, g: Registration<H>, v: string, q: seq<Label>, x: nat)
    requires Holds(r, regs) && Plain(g) && |regs| < MAX_HANDLERS
    ensures HasRoute(Appended(r, g).methods, v, q, x) <==> Stands(regs + [g], v, q, x)
  {
    assert IsPriority(g.priority) && Valid(r, Prios(regs)) && |r.handlers| == |regs|;
    hide HasRoute, Stands, Valid, SortMethods, InsertMethods, PathOf, MethodsOk, Plain, Index, Priority, Holds;
    AddedRoutes(r, Prios(regs), g);
    HoldsRoute(r, regs, v, q, x);
    AppendedStands(regs, g, v, q, x);
  }

  lemma AppendedValid<H>(r: Routes<H>, regs: seq<Registration<H>>, g: Registration<H>)
    requires Holds(r, regs) && Plain(g) && |regs| < MAX_HANDLERS
    ensures Valid(Appended(r, g), Prios(regs + [g])) && Appended(r, g).handlers == Handlers(regs + [g])
  {
    hide HasRoute, Stands, Valid, SortMethods, InsertMethods, PathOf, MethodsOk, Plain, Index, Priority;
    AddedRoutes(r, Prios(regs), g);
    assert Prios(regs + [g]) == Prios(regs) + [g.priority] && Handlers(regs + [g]) == Handlers(regs) + [g.handler];
  }

  lemma AddedHolds<H>(r: Routes<H>, regs: seq<Registration<H>>, g: Registration<H>)
    requires Holds(r, regs) && Plain(g) && |regs| < MAX_HANDLERS
    ensures Holds(Appended(r, g), regs + [g])
  {
    hide HasRoute, Stands, Valid, Appended, Plain;
    AppendedValid(r, regs, g);
    forall v, q, x ensures HasRoute(Appended(r, g).methods, v, q, x) <==> Stands(regs + [g], v, q, x) {
      AppendedRoute(r, regs, g, v, q, x);
    }
  }

  lemma AppendedStands<H>(regs: seq<Registration<H>>, g: Registration<H>, v: string, q: seq<Label>, x: nat)
    requires |regs| < MAX_HANDLERS && IsPriority(g.priority)
    ensures Stands(regs + [g], v, q, x) <==>
            Stands(regs, v, q, x) || (v in g.methods && q == PathOf(g.pattern, g.priority) && x == g.priority + |regs|)
  {
    hide PathOf;
    IdOf(regs + [g], |regs|);
  }

  /** After any sequence of registrations and removals the router is that of the registrations in force: all stored ids are
      in range and sorted, there is a route for each method of each of them and no other, under its own handler. */
  lemma {:induction false} RouterIsItsRegistrations<H>(ops: seq<Op<H>>)
    requires PlainOps(ops) && Fits(ops)
    ensures Holds(Router(ops), Registrations(ops))
    decreases |ops|
  {
    if ops == [] {
      EmptyHolds<H>();
    } else {
      var first, op := ops[..|ops| - 1], ops[|ops| - 1];
      RouterIsItsRegistrations(first);
      hide Holds, Add, Remove, Drop, Plain;
      match op
      case Register(g) => AddHolds(Router(first), Registrations(first), g);
      case Unregister(verb, pattern, priority) => RemoveHolds(Router(first), Registrations(first), verb, pattern, priority);
    }
  }

  lemma EmptyHolds<H>()
    ensures Holds(Empty<H>(), [])
  {
    var any := Node(MethodLabel(ANY), [], []);
    EmptyIdsOk(MethodLabel(ANY), []);
    forall v, q, x ensures !HasRoute([any], v, q, x) {
      EmptyHas(MethodLabel(ANY), q, x);
      var full := [MethodLabel(v)] + q;
      assert full[1..] == q;
    }
  }

  /** So a request visits exactly the matching registrations in force, each under its id, in the order of the tree. */
  lemma RequestVisits<H>(ops: seq<Op<H>>, verb: string, url: string, path: seq<Label>, id: nat)
    requires PlainOps(ops) && Fits(ops)
    ensures var visits := MethodVisits(Router(ops).methods, verb, url);
            && InOrder(visits)
            && (Visited(visits, path, id) <==> Stands(Registrations(ops), verb, path, id) && Matches(path, Segments(url)))
  {
    var r, regs := Router(ops), Registrations(ops);
    RouterIsItsRegistrations(ops);
    VisitsOfRoute(r, Prios(regs), verb, url, path, id);
    HoldsRoute(r, regs, verb, path, id);
    hide Router, Registrations, Stands, HasRoute;
    if k :| Find(r.methods, MethodLabel(verb)) == Some(k) { VisitsInOrder(r.methods[k], Segments(url), []); }
  }

  /** How urgent a priority is, whatever number stands for it. */
  function Urgency(priority: nat): nat { if priority == HIGH_PRIORITY then 2 else if priority == MEDIUM_PRIORITY then 1 else 0 }

  lemma UrgentIsSmaller(p: nat, a: nat, q: nat, b: nat)
    requires IsPriority(p) && IsPriority(q) && a < INDEX_SIZE && b < INDEX_SIZE
    ensures Index(p + a) == a
    ensures Urgency(p) > Urgency(q) ==> p + a < q + b
  {
  }

  lemma {:induction false} MatchesEitherWay(segments: seq<string>, rest: seq<string>, high: bool)
    requires Matches(Labels(segments, high), rest)
    ensures Matches(Labels(segments, !high), rest)
    decreases |segments|
  {
    if segments != [] && rest != [] && Matches(Labels(segments[1..], high), rest[1..]) {
      MatchesEitherWay(segments[1..], rest[1..], high);
    }
  }

  lemma UrgentBefore(a: Visit, b: Visit, segments: seq<string>, p: nat, q: nat)
    requires a.path == Labels(segments, p == HIGH_PRIORITY) && b.path == Labels(segments, q == HIGH_PRIORITY)
    requires Urgency(p) > Urgency(q) && a.id < b.id
    ensures !VisitBefore(b, a)
  {
    if a.path != b.path { assert segments != []; }
  }

  /** After any such sequence, of two registrations in force of one method for the same pattern, a matching request tries one
      of high priority before one of medium or low, and one of medium before one of low. */
  lemma UrgentFirst<H>(ops: seq<Op<H>>, verb: string, url: string, a: nat, b: nat) returns (x: nat, y: nat)
    requires PlainOps(ops) && Fits(ops)
    requires var regs := Registrations(ops);
             && a < |regs| && b < |regs| && verb in regs[a].methods && verb in regs[b].methods
             && StrippedAll(Segments(regs[a].pattern)) == StrippedAll(Segments(regs[b].pattern))
             && Urgency(regs[a].priority) > Urgency(regs[b].priority)
             && Matches(PathOf(regs[a].pattern, regs[a].priority), Segments(url))
    ensures var regs, visits := Registrations(ops), MethodVisits(Router(ops).methods, verb, url);
            x < y < |visits| && visits[x].id == regs[a].priority + a && visits[y].id == regs[b].priority + b
  {
    hide Router, Registrations, Fits, Split, Slash, StrippedAll, Matches, InOrder, Visits, MethodVisits;
    var regs, visits := Registrations(ops), MethodVisits(Router(ops).methods, verb, url);
    var g, h := regs[a], regs[b];
    var segments := StrippedAll(Segments(g.pattern));
    x := VisitOf(ops, verb, url, a);
    if (g.priority == HIGH_PRIORITY) != (h.priority == HIGH_PRIORITY) {
      MatchesEitherWay(segments, Segments(url), g.priority == HIGH_PRIORITY);
    }
    y := VisitOf(ops, verb, url, b);
    UrgentIsSmaller(g.priority, a, h.priority, b);
    UrgentBefore(visits[x], visits[y], segments, g.priority, h.priority);
    InOrderAt(visits, y, x);
  }

  lemma InOrderAt(visits: seq<Visit>, a: nat, b: nat)
    requires InOrder(visits) && a < |visits| && b < |visits|
    ensures a < b ==> VisitBefore(visits[a], visits[b])
  {
  }

  lemma HoldsPlain<H>(r: Routes<H>, regs: seq<Registration<H>>, i: nat)
    requires Holds(r, regs) && i < |regs|
    ensures IsPriority(regs[i].priority) && |regs| <= MAX_HANDLERS
  {
  }

  /** The visit of the i-th registration in force. */
  lemma VisitOf<H>(ops: seq<Op<H>>, verb: string, url: string, i: nat) returns (x: nat)
    requires PlainOps(ops) && Fits(ops)
    requires var regs := Registrations(ops);
             i < |regs| && verb in regs[i].methods && Matches(PathOf(regs[i].pattern, regs[i].priority), Segments(url))
    ensures var g, visits := Registrations(ops)[i], MethodVisits(Router(ops).methods, verb, url);
            && IsPriority(g.priority) && i < INDEX_SIZE && InOrder(visits)
            && x < |visits| && visits[x].path == PathOf(g.pattern, g.priority) && visits[x].id == g.priority + i
  {
    hide Router, Registrations, Fits, Split, Slash, StrippedAll, Matches, InOrder, Visits, MethodVisits, Holds, Plain;
    RouterIsItsRegistrations(ops);
    var regs, visits := Registrations(ops), MethodVisits(Router(ops).methods, verb, url);
    HoldsPlain(Router(ops), regs, i);
    var path, id := PathOf(regs[i].pattern, regs[i].priority), regs[i].priority + i;
    UrgentIsSmaller(regs[i].priority, i, regs[i].priority, i);
    RequestVisits(ops, verb, url, path, id);
    x :| 0 <= x < |visits| && visits[x].path == path && visits[x].id == id;
  }

  // ---- Where ANY is ---------------------------------------------------------------------------------------------------

  ghost predicate HasAny(methods: seq<Node>) { HasTag(methods, MethodLabel(ANY)) }

  /** If there is an ANY node it is the last. */
  ghost predicate AnyOk(methods: seq<Node>) { HasAny(methods) ==> AnyIsLast(methods) }

  /** Some registration in force is for ANY. */
  ghost predicate ServesAny<H>(regs: seq<Registration<H>>) { exists i :: 0 <= i < |regs| && ANY in regs[i].methods }

  /** Some removal, or registration in place of another, has found something to remove. */
  predicate Culled<H>(ops: seq<Op<H>>)
    requires PlainOps(ops)
    decreases |ops|
  { ops != [] && (Culled(ops[..|ops| - 1]) || Finds(Registrations(ops[..|ops| - 1]), ops[|ops| - 1])) }

  predicate Finds<H>(regs: seq<Registration<H>>, op: Op<H>)
    requires op.Register? ==> op.g.methods != []
  {
    match op
    case Register(g) => FirstServing(regs, g.methods[0], RawPath(g.pattern, g.priority), g.priority).Some?
    case Unregister(verb, pattern, priority) => FirstServing(regs, verb, RawPath(pattern, priority), priority).Some?
  }

  lemma AnyRoute<H>(r: Routes<H>, regs: seq<Registration<H>>)
    requires Holds(r, regs)
    ensures ServesAny(regs) <==> exists q, x :: HasRoute(r.methods, ANY, q, x)
    ensures ServesAny(regs) ==> HasAny(r.methods)
  {
    HoldsFacts(r, regs);
    if ServesAny(regs) {
      var i :| 0 <= i < |regs| && ANY in regs[i].methods;
      var q, x := PathOf(regs[i].pattern, regs[i].priority), regs[i].priority + i;
      IdOf(regs, i);
      assert Stands(regs, ANY, q, x);
      HoldsRoute(r, regs, ANY, q, x);
      RouteIsInNode(r.methods, Prios(regs), ANY, q, x);
      FoundTag(r.methods, MethodLabel(ANY));
    }
    if exists q, x :: HasRoute(r.methods, ANY, q, x) {
      var q, x :| HasRoute(r.methods, ANY, q, x);
      HoldsRoute(r, regs, ANY, q, x);
    }
  }

  lemma FoundTag(methods: seq<Node>, tag: Label)
    requires Find(methods, tag).Some?
    ensures exists i :: 0 <= i < |methods| && methods[i].tag == tag
  {
  }

  /** A removal that finds something leaves ANY exactly if a registration for ANY is left. */
  lemma RemoveAny<H>(r: Routes<H>, regs: seq<Registration<H>>, verb: string, pattern: string, priority: nat)
    requires Holds(r, regs) && AnyOk(r.methods)
    requires FirstServing(regs, verb, RawPath(pattern, priority), priority).Some?
    ensures var r', regs' := Remove(r, verb, pattern, priority), Drop(regs, verb, pattern, priority);
            AnyOk(r'.methods) && (HasAny(r'.methods) <==> ServesAny(regs'))
  {
    var r', regs' := Remove(r, verb, pattern, priority), Drop(regs, verb, pattern, priority);
    RemoveHolds(r, regs, verb, pattern, priority);
    FindsFirst(r, regs, verb, pattern, priority);
    FirstServingIs(regs, verb, RawPath(pattern, priority), priority);
    HoldsFacts(r, regs);
    AnyRoute(r', regs');
    var id := FindHandler(r.methods, verb, pattern, priority).value;
    assert r'.methods == CullBelow(Root(r.methods), 0, id);
    hide Holds, FindHandler, HasRoute, Remove, Drop, FirstServing, RawPath, ServesAny;
    if HasAny(r.methods) {
      AnyCulledOut(r.methods, Prios(regs), id);
      AnyStaysLastExactly(r.methods, Prios(regs), id);
      OthersLeft(r.methods, id, r'.methods);
    } else {
      NoAnyCulled(r.methods, id);
    }
  }

  lemma NoAnyCulled(methods: seq<Node>, id: nat)
    requires !HasAny(methods)
    ensures !HasAny(CullBelow(Root(methods), 0, id))
  {
    var culled := CullBelow(Root(methods), 0, id);
    forall k | 0 <= k < |culled| ensures culled[k].tag != MethodLabel(ANY) { var j := CullBelowFrom(Root(methods), 0, id, k); }
  }

  lemma AnyCulledOut(methods: seq<Node>, prios: seq<nat>, id: nat)
    requires MethodsOk(methods, prios) && AnyIsLast(methods)
    ensures HasAny(CullBelow(Root(methods), 0, id)) <==> AnyIsLast(CullBelow(Root(methods), 0, id))
  {
    var culled := CullBelow(Root(methods), 0, id);
    AnyCulled(methods, id);
    if AnyIsLast(culled) {
      assert culled[|culled| - 1].tag == MethodLabel(ANY);
    } else {
      NotCulledThere(methods, id, MethodLabel(ANY), |methods| - 1);
      forall i | 0 <= i < |culled| ensures culled[i].tag != MethodLabel(ANY) { NotFound(culled, MethodLabel(ANY), i); }
    }
  }

  lemma NotFound(methods: seq<Node>, tag: Label, i: nat)
    requires Find(methods, tag) == None && i < |methods|
    ensures methods[i].tag != tag
  {
  }

  /** After the cull ANY has a route exactly if it had one with another handler. */
  lemma OthersLeft(methods: seq<Node>, id: nat, culled: seq<Node>)
    requires culled == CullBelow(Root(methods), 0, id)
    ensures (exists q, x :: HasRoute(methods, ANY, q, x) && x != id) <==> exists q, x :: HasRoute(culled, ANY, q, x)
  {
    if exists q, x :: HasRoute(methods, ANY, q, x) && x != id {
      var q, x :| HasRoute(methods, ANY, q, x) && x != id;
      CullRoutes(methods, id, ANY, q, x);
      assert HasRoute(culled, ANY, q, Lowered(x, id));
    }
    if exists q, x :: HasRoute(culled, ANY, q, x) {
      var q, x :| HasRoute(culled, ANY, q, x);
      CullRoutes(methods, id, ANY, q, x);
      var y :| HasRoute(methods, ANY, q, y) && y != id && Lowered(y, id) == x;
    }
  }

  /** Registering leaves ANY where it is, or makes it. */
  lemma AppendAny<H>(r: Routes<H>, regs: seq<Registration<H>>, g: Registration<H>)
    requires Holds(r, regs) && AnyOk(r.methods) && Plain(g) && |regs| < MAX_HANDLERS
    ensures var r' := Appended(r, g);
            AnyOk(r'.methods) && (HasAny(r'.methods) <==> HasAny(r.methods) || ANY in g.methods)
  {
    var id, path := g.priority + |r.handlers|, PathOf(g.pattern, g.priority);
    var inserted := InsertMethods(r.methods, g.methods, path, id);
    AppendedOk(r, regs, g, inserted);
    InsertedTags(r.methods, g.methods, path, id, MethodLabel(ANY));
    AnySorted(inserted);
  }

  lemma AppendedOk<H>(r: Routes<H>, regs: seq<Registration<H>>, g: Registration<H>, inserted: seq<Node>)
    requires Holds(r, regs) && Plain(g) && |regs| < MAX_HANDLERS
    requires inserted == InsertMethods(r.methods, g.methods, PathOf(g.pattern, g.priority), g.priority + |r.handlers|)
    ensures forall j :: 0 <= j < |inserted| ==> !inserted[j].tag.high
    ensures forall i, j :: 0 <= i < j < |inserted| ==> inserted[i].tag != inserted[j].tag
  {
    hide HasRoute, Valid, PathOf, IdsOk, Wf, Stands;
    AddedRoutes(r, Prios(regs), g);
    hide MethodsOk;
    InsertedOk(inserted, Prios(regs) + [g.priority]);
  }

  lemma AnySorted(methods: seq<Node>)
    requires forall j :: 0 <= j < |methods| ==> !methods[j].tag.high
    requires forall i, j :: 0 <= i < j < |methods| ==> methods[i].tag != methods[j].tag
    ensures AnyOk(SortMethods(methods)) && (HasAny(SortMethods(methods)) <==> HasAny(methods))
  {
    SortedTags(methods, MethodLabel(ANY));
    if HasAny(methods) {
      var i :| 0 <= i < |methods| && methods[i].tag == MethodLabel(ANY);
      SortAnyLast(methods, i);
    }
  }

  lemma InsertedOk(methods: seq<Node>, prios: seq<nat>)
    requires MethodsOk(methods, prios)
    ensures forall j :: 0 <= j < |methods| ==> !methods[j].tag.high
    ensures forall i, j :: 0 <= i < j < |methods| ==> methods[i].tag != methods[j].tag
  {
  }

  ghost predicate HasTag(methods: seq<Node>, tag: Label) { exists i :: 0 <= i < |methods| && methods[i].tag == tag }

  lemma {:induction false} InsertedTags(methods: seq<Node>, names: seq<string>, path: seq<Label>, id: nat, tag: Label)
    ensures HasTag(InsertMethods(methods, names, path, id), tag) <==> HasTag(methods, tag) || (tag.name in names && !tag.high)
    decreases |names|
  {
    if names != [] {
      var ms := InsertMethod(methods, names[0], path, id);
      InsertedTag(methods, names[0], path, id, tag);
      InsertedTags(ms, names[1..], path, id, tag);
      assert names == [names[0]] + names[1..];
    }
  }

  lemma InsertedTag(methods: seq<Node>, name: string, path: seq<Label>, id: nat, tag: Label)
    ensures HasTag(InsertMethod(methods, name, path, id), tag) <==> HasTag(methods, tag) || tag == MethodLabel(name)
  {
    var ms := InsertMethod(methods, name, path, id);
    match Find(methods, MethodLabel(name))
    case Some(k) =>
      InsertTag(methods[k], path, id);
      assert forall i :: 0 <= i < |methods| ==> ms[i].tag == methods[i].tag;
    case None =>
      InsertTag(Node(MethodLabel(name), [], []), path, id);
      assert ms[|methods|].tag == MethodLabel(name);
      assert forall i :: 0 <= i < |methods| ==> ms[i] == methods[i];
  }

  lemma SortedTags(methods: seq<Node>, tag: Label)
    ensures HasTag(SortMethods(methods), tag) <==> HasTag(methods, tag)
  {
    var sorted := SortMethods(methods);
    hide SortMethods;
    if HasTag(sorted, tag) {
      var i :| 0 <= i < |sorted| && sorted[i].tag == tag;
      SortMembers(methods, sorted[i]);
    }
    if HasTag(methods, tag) {
      var i :| 0 <= i < |methods| && methods[i].tag == tag;
      SortMembers(methods, methods[i]);
    }
  }

  /** After any sequence of operations ANY is last, where requests fall back on it, exactly if a registration for it is in
      force or nothing has ever been removed or replaced.  Otherwise there is no ANY node. */
  lemma {:induction false} AnyIsLastExactly<H>(ops: seq<Op<H>>)
    requires PlainOps(ops) && Fits(ops)
    ensures AnyIsLast(Router(ops).methods) <==> ServesAny(Registrations(ops)) || !Culled(ops)
    ensures AnyIsLast(Router(ops).methods) <==> HasAny(Router(ops).methods)
    decreases |ops|
  {
    if ops == [] {
      assert HasAny(Router(ops).methods) by { assert Router(ops).methods[0].tag == MethodLabel(ANY); }
    } else {
      var first, op := ops[..|ops| - 1], ops[|ops| - 1];
      AnyIsLastExactly(first);
      RouterIsItsRegistrations(first);
      AnyRoute(Router(first), Registrations(first));
      AnyStep(Router(first), Registrations(first), op, Culled(first));
    }
  }

  lemma AnyStep<H>(r: Routes<H>, regs: seq<Registration<H>>, op: Op<H>, culled: bool)
    requires Holds(r, regs) && |regs| < MAX_HANDLERS && (op.Register? ==> Plain(op.g))
    requires (AnyIsLast(r.methods) <==> HasAny(r.methods)) && (HasAny(r.methods) <==> ServesAny(regs) || !culled)
    ensures var r', regs' := Perform(r, op), Apply(regs, op);
            && (AnyIsLast(r'.methods) <==> HasAny(r'.methods))
            && (HasAny(r'.methods) <==> ServesAny(regs') || !(culled || Finds(regs, op)))
  {
    match op
    case Register(g) =>
      var r1, regs1 := Remove(r, g.methods[0], g.pattern, g.priority), Drop(regs, g.methods[0], g.pattern, g.priority);
      RemoveStep(r, regs, g.methods[0], g.pattern, g.priority, culled);
      RemoveHolds(r, regs, g.methods[0], g.pattern, g.priority);
      DropShorter(regs, g.methods[0], g.pattern, g.priority);
      AppendAny(r1, regs1, g);
      ServesAnyMore(regs1, g);
      LastIsAny(Appended(r1, g).methods);
    case Unregister(verb, pattern, priority) => RemoveStep(r, regs, verb, pattern, priority, culled);
  }

  lemma LastIsAny(methods: seq<Node>)
    ensures AnyIsLast(methods) ==> HasAny(methods)
  {
    if AnyIsLast(methods) { assert methods[|methods| - 1].tag == MethodLabel(ANY); }
  }

  lemma ServesAnyMore<H>(regs: seq<Registration<H>>, g: Registration<H>)
    ensures ServesAny(regs + [g]) <==> ServesAny(regs) || ANY in g.methods
  {
    if ServesAny(regs) {
      var i :| 0 <= i < |regs| && ANY in regs[i].methods;
      assert (regs + [g])[i] == regs[i];
    }
    if ANY in g.methods { assert (regs + [g])[|regs|] == g; }
  }

  lemma RemoveStep<H>(r: Routes<H>, regs: seq<Registration<H>>, verb: string, pattern: string, priority: nat, culled: bool)
    requires Holds(r, regs)
    requires (AnyIsLast(r.methods) <==> HasAny(r.methods)) && (HasAny(r.methods) <==> ServesAny(regs) || !culled)
    ensures var r', regs' := Remove(r, verb, pattern, priority), Drop(regs, verb, pattern, priority);
            && (AnyIsLast(r'.methods) <==> HasAny(r'.methods))
            && (HasAny(r'.methods) <==>
                  ServesAny(regs') || !(culled || FirstServing(regs, verb, RawPath(pattern, priority), priority).Some?))
  {
    var r' := Remove(r, verb, pattern, priority);
    LastIsAny(r'.methods);
    FindsFirst(r, regs, verb, pattern, priority);
    if FirstServing(regs, verb, RawPath(pattern, priority), priority).Some? {
      RemoveAny(r, regs, verb, pattern, priority);
    }
  }

  // ---- When no method is left -----------------------------------------------------------------------------------------

  /** A registration in force keeps a method node. */
  lemma RegistrationsKeepMethods<H>(r: Routes<H>, regs: seq<Registration<H>>)
    requires Holds(r, regs) && regs != []
    ensures r.methods != []
  {
    HoldsFacts(r, regs);
    var v, q, x := FirstStands(r, regs);
    HoldsRoute(r, regs, v, q, x);
    hide Holds, Stands;
  }

  lemma FirstStands<H>(r: Routes<H>, regs: seq<Registration<H>>) returns (v: string, q: seq<Label>, x: nat)
    requires Holds(r, regs) && regs != []
    ensures Stands(regs, v, q, x)
  {
    var g := regs[0];
    assert Plain(g) && |regs| <= MAX_HANDLERS;
    hide Holds, PathOf, PlainWildcards, Distinct;
    IdOf(regs, 0);
    v, q, x := g.methods[0], PathOf(g.pattern, g.priority), g.priority;
  }

  /** Every node that a cull leaves has a route. */
  lemma CulledHasRoute(methods: seq<Node>, prios: seq<nat>, id: nat, culled: seq<Node>) returns (verb: string, q: seq<Label>, x: nat)
    requires MethodsOk(methods, prios) && culled == CullBelow(Root(methods), 0, id) && culled != []
    ensures HasRoute(culled, verb, q, x)
  {
    var j := CullBelowFrom(Root(methods), 0, id, 0);
    assert Root(methods).children[j] == methods[j] && !methods[j].tag.high;
    CullSomeExactly(methods[j], id);
    var y;
    q, y :| Has(methods[j], q, y) && y != id;
    CullKeeps(methods[j], id, q, y);
    verb, x := methods[j].tag.name, Lowered(y, id);
    var path := [MethodLabel(verb)] + q;
    assert path[1..] == q && culled[0].tag == path[0] && Has(culled[0], path[1..], x);
  }

  /** A removal that finds something leaves no method node exactly if it leaves no registration. */
  lemma RemoveEmpties<H>(r: Routes<H>, regs: seq<Registration<H>>, verb: string, pattern: string, priority: nat)
    requires Holds(r, regs) && FirstServing(regs, verb, RawPath(pattern, priority), priority).Some?
    ensures Remove(r, verb, pattern, priority).methods == [] <==> Drop(regs, verb, pattern, priority) == []
  {
    var r', regs' := Remove(r, verb, pattern, priority), Drop(regs, verb, pattern, priority);
    RemoveHolds(r, regs, verb, pattern, priority);
    FindsFirst(r, regs, verb, pattern, priority);
    HoldsFacts(r, regs);
    var id := FindHandler(r.methods, verb, pattern, priority).value;
    assert r'.methods == CullBelow(Root(r.methods), 0, id);
    hide Holds, FindHandler, HasRoute, Remove, Drop, FirstServing, RawPath, MethodsOk;
    if regs' != [] { RegistrationsKeepMethods(r', regs'); }
    if r'.methods != [] {
      var v, q, x := CulledHasRoute(r.methods, Prios(regs), id, r'.methods);
      HoldsRoute(r', regs', v, q, x);
    }
  }

  /** After any sequence of operations no method node is left, and a request finds none to fall back on, exactly if no
      registration is in force and something has been removed. */
  lemma {:induction false} NoMethodsExactly<H>(ops: seq<Op<H>>)
    requires PlainOps(ops) && Fits(ops)
    ensures Router(ops).methods == [] <==> Registrations(ops) == [] && Culled(ops)
    decreases |ops|
  {
    if ops != [] {
      var first, op := ops[..|ops| - 1], ops[|ops| - 1];
      NoMethodsExactly(first);
      RouterIsItsRegistrations(first);
      RouterIsItsRegistrations(ops);
      match op
      case Register(g) => RegistrationsKeepMethods(Router(ops), Registrations(ops));
      case Unregister(verb, pattern, priority) =>
        FindsFirst(Router(first), Registrations(first), verb, pattern, priority);
        if Finds(Registrations(first), op) { RemoveEmpties(Router(first), Registrations(first), verb, pattern, priority); }
    }
  }

  lemma ServesItself()
    ensures Serves(GetA().g, "GET", RawPath("/a", MEDIUM_PRIORITY), MEDIUM_PRIORITY)
  {
    OneSegment("/a", "a");
    assert StrippedAll(["a"]) == ["a"];
  }

  /** The only registration in force is removed. */
  lemma DropsOnly<H>(g: Registration<H>, verb: string, pattern: string, priority: nat)
    requires Serves(g, verb, RawPath(pattern, priority), priority)
    ensures FirstServing([g], verb, RawPath(pattern, priority), priority).Some? && Drop([g], verb, pattern, priority) == []
  {
    hide Serves, RawPath;
    FirstServingIs([g], verb, RawPath(pattern, priority), priority);
    assert Removed([g], 0) == [];
  }

  /** Registering a first route and removing it again leaves none. */
  lemma OneAndNone<H>(g: Registration<H>, verb: string, pattern: string, priority: nat)
    requires Plain(g) && Serves(g, verb, RawPath(pattern, priority), priority)
    ensures var ops := [Register(g), Unregister(verb, pattern, priority)]; PlainOps(ops) && Router(ops).methods == []
  {
    hide Plain, Serves, RawPath, Drop, FirstServing, Router;
    var ops := [Register(g), Unregister(verb, pattern, priority)];
    assert ops[..1] == [Register(g)] && [Register(g)][..0] == [];
    DropsNone<H>(g.methods[0], g.pattern, g.priority) by { PlainHasMethod(g); }
    assert Registrations([Register(g)]) == [g] by { PlainHasMethod(g); assert [] + [g] == [g]; }
    DropsOnly(g, verb, pattern, priority);
    NoMethodsExactly(ops);
  }

  lemma PlainHasMethod<H>(g: Registration<H>)
    requires Plain(g)
    ensures g.methods != []
  {
  }

  lemma DropsNone<H>(verb: string, pattern: string, priority: nat)
    ensures Drop<H>([], verb, pattern, priority) == []
  {
  }

  lemma NoMethodsLeft()
    ensures var ops := [GetA(), Unregister("GET", "/a", MEDIUM_PRIORITY)]; PlainOps(ops) && Router(ops).methods == []
  {
    BothPlain();
    ServesItself();
    hide Plain, Serves, RawPath, Router;
    OneAndNone(GetA().g, "GET", "/a", MEDIUM_PRIORITY);
  }

  // ---- A run that loses ANY -------------------------------------------------------------------------------------------

  /** A method node with one route of one static segment. */
  function OneRoute(verb: string, segment: string, id: nat): Node { Node(MethodLabel(verb), [Node(Label(segment, false), [], [id])], []) }

  lemma InsertsOne(verb: string, segment: string, id: nat)
    ensures Insert(Node(MethodLabel(verb), [], []), [Label(segment, false)], id) == OneRoute(verb, segment, id)
  {
    var path := [Label(segment, false)];
    assert path[1..] == [];
    var leaf := Insert(Node(path[0], [], []), [], id);
    assert leaf.handlers == [id];
    assert InsertAt([], 0, leaf) == [leaf];
  }

  /** A first route for a method, where the router has none for it. */
  lemma AddsOne<H>(r: Routes<H>, verb: string, url: string, segment: string, handler: H)
    requires url == ['/'] + segment && segment != "" && '/' !in segment && segment[0] != ':' && Find(r.methods, MethodLabel(verb)) == None
    ensures var id := MEDIUM_PRIORITY + |r.handlers|;
            Add(r, Registration([verb], url, handler, MEDIUM_PRIORITY))
            == Routes(SortMethods(r.methods + [OneRoute(verb, segment, id)]), r.handlers + [handler])
  {
    var id, names := MEDIUM_PRIORITY + |r.handlers|, [verb];
    OneSegment(url, segment);
    assert StrippedAll([segment]) == [segment];
    assert PathOf(url, MEDIUM_PRIORITY) == [Label(segment, false)];
    InsertsOne(verb, segment, id);
    assert names[1..] == [];
    var ms := InsertMethod(r.methods, verb, [Label(segment, false)], id);
    assert InsertMethods(r.methods, names, [Label(segment, false)], id) == InsertMethods(ms, [], [Label(segment, false)], id) == ms;
  }

  const ANY_NODE := Node(MethodLabel(ANY), [], [])

  lemma SortsTwo(get: Node)
    requires get.tag == MethodLabel("GET")
    ensures SortMethods([ANY_NODE, get]) == [get, ANY_NODE]
  {
    assert [ANY_NODE, get][..1] == [ANY_NODE] && [ANY_NODE][..0] == [];
    assert SortMethods([ANY_NODE]) == InsertAt([], 0, ANY_NODE) == [ANY_NODE];
  }

  lemma SortsThree(get: Node, post: Node)
    requires get.tag == MethodLabel("GET") && post.tag == MethodLabel("POST")
    ensures SortMethods([get, ANY_NODE, post]) == [get, post, ANY_NODE]
  {
    assert [get, ANY_NODE, post][..2] == [get, ANY_NODE] && [get, ANY_NODE][..1] == [get] && [get][..0] == [];
    assert SortMethods([get]) == InsertAt([], 0, get) == [get];
    assert MethodPosition([get], ANY) == 1 by { assert [get][1..] == []; }
    assert InsertAt([get], 1, ANY_NODE) == [get, ANY_NODE] && SortMethods([get, ANY_NODE]) == [get, ANY_NODE];
    assert MethodPosition([get, ANY_NODE], "POST") == 1 by { assert [get, ANY_NODE][1..] == [ANY_NODE]; }
    assert InsertAt([get, ANY_NODE], 1, post) == [get, post, ANY_NODE];
  }

  lemma RouterMore<H>(ops: seq<Op<H>>, op: Op<H>)
    requires PlainOps(ops) && (op.Register? ==> Plain(op.g))
    ensures PlainOps(ops + [op]) && Router(ops + [op]) == Perform(Router(ops), op)
  {
    hide Plain, Perform;
    assert (ops + [op])[..|ops|] == ops;
  }

  function GetA(): Op<int> { Register(Registration(["GET"], "/a", 10, MEDIUM_PRIORITY)) }

  function PostB(): Op<int> { Register(Registration(["POST"], "/b", 20, MEDIUM_PRIORITY)) }

  lemma BothPlain()
    ensures Plain(GetA().g) && Plain(PostB().g)
  {
    OneSegment("/a", "a");
    OneSegment("/b", "b");
  }

  lemma AddsGet(get: Node)
    requires get == OneRoute("GET", "a", MEDIUM_PRIORITY)
    ensures Add(Empty<int>(), GetA().g) == Routes([get, ANY_NODE], [10])
  {
    hide Add;
    var r := Empty<int>();
    AddsOne(r, "GET", "/a", "a", 10);
    SortsTwo(get);
    assert r.methods + [get] == [ANY_NODE, get] && r.handlers + [10] == [10];
  }

  lemma NoPost(get: Node)
    requires get.tag == MethodLabel("GET")
    ensures Find([get, ANY_NODE], MethodLabel("POST")) == None
  {
    assert [get, ANY_NODE][1..] == [ANY_NODE];
  }

  lemma AddsPost(r: Routes<int>, get: Node, post: Node)
    requires get.tag == MethodLabel("GET") && r == Routes([get, ANY_NODE], [10])
    requires post == OneRoute("POST", "b", MEDIUM_PRIORITY + 1)
    ensures Add(r, PostB().g) == Routes([get, post, ANY_NODE], [10, 20])
  {
    hide Add;
    NoPost(get);
    AddsOne(r, "POST", "/b", "b", 20);
    SortsThree(get, post);
    assert r.methods + [post] == [get, ANY_NODE, post] && r.handlers + [20] == [10, 20];
  }

  lemma WithBoth(get: Node, post: Node)
    requires get == OneRoute("GET", "a", MEDIUM_PRIORITY) && post == OneRoute("POST", "b", MEDIUM_PRIORITY + 1)
    ensures PlainOps([GetA(), PostB()]) && Router([GetA(), PostB()]) == Routes([get, post, ANY_NODE], [10, 20])
  {
    hide Plain, Add;
    BothPlain();
    RouterMore([], GetA());
    assert [] + [GetA()] == [GetA()];
    AddsGet(get);
    RouterMore([GetA()], PostB());
    assert [GetA()] + [PostB()] == [GetA(), PostB()];
    AddsPost(Routes([get, ANY_NODE], [10]), get, post);
  }

  /** A GET and a POST route are registered and the GET route is removed: a GET request is tried against the POST route. */
  lemma WithoutAnyRoutesAnyIsLost()
    ensures var ops := [GetA(), PostB(), Unregister("GET", "/a", MEDIUM_PRIORITY)];
            PlainOps(ops) && var r := Router(ops);
            && r.methods != [] && !AnyIsLast(r.methods) && r.handlers == [20]
            && RouteVisits(r.methods, "GET", "/b") == [Visit([Label("b", false)], MEDIUM_PRIORITY, [])]
  {
    var get, post := OneRoute("GET", "a", MEDIUM_PRIORITY), OneRoute("POST", "b", MEDIUM_PRIORITY + 1);
    WithBoth(get, post);
    var op: Op<int> := Unregister("GET", "/a", MEDIUM_PRIORITY);
    hide Router, GetA, PostB, Remove, RouteVisits, Plain;
    RouterMore([GetA(), PostB()], op);
    assert [GetA(), PostB()] + [op] == [GetA(), PostB(), op];
    RemovingAnyToo();
  }
}
