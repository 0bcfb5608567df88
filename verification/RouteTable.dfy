/** The routes of external/uWebSockets/HttpRouter.h as values: what registering and removing do to them, and
    which handlers a request tries. */
module RouteTable {
  import opened Options
  import opened RouteTree

  const MAX_URL_SEGMENTS: nat := 100
  const ANY: string := "*"

  // ---- URLs ----------------------------------------------------------------------------------------------

  /** Where the next slash is, or the end. */
  function Slash(s: string): (n: nat)
    ensures n <= |s| && (n < |s| ==> s[n] == '/') && forall i :: 0 <= i < n ==> s[i] != '/'
  { if s == "" || s[0] == '/' then 0 else 1 + Slash(s[1..]) }

  /** The segments of a URL that starts with a slash, up to limit of them. */
  function Split(url: string, limit: nat): seq<string>
    decreases limit
  { if url == "" || limit == 0 then [] else [url[1..][..Slash(url[1..])]] + Split(url[1..][Slash(url[1..])..], limit - 1) }

  function Segments(url: string): seq<string> { Split(url, MAX_URL_SEGMENTS) }

  /** Parameters lose their name. */
  function Stripped(segment: string): string { if IsParameter(segment) then ":" else segment }

  function Labels(segments: seq<string>, high: bool): (r: seq<Label>)
    ensures |r| == |segments| && forall i :: 0 <= i < |r| ==> r[i] == Label(segments[i], high)
  { if segments == [] then [] else [Label(segments[0], high)] + Labels(segments[1..], high) }

  function StrippedAll(segments: seq<string>): (r: seq<string>)
    ensures |r| == |segments| && forall i :: 0 <= i < |r| ==> r[i] == Stripped(segments[i])
  { if segments == [] then [] else [Stripped(segments[0])] + StrippedAll(segments[1..]) }

  /** The path a pattern is registered under, and the one findHandler looks for. */
  function PathOf(pattern: string, priority: nat): seq<Label> { Labels(StrippedAll(Segments(pattern)), priority == HIGH_PRIORITY) }

  function RawPath(pattern: string, priority: nat): seq<Label> { Labels(Segments(pattern), priority == HIGH_PRIORITY) }

  /** Wildcards are spelled with the star alone. */
  predicate PlainWildcards(pattern: string) {
    forall i :: 0 <= i < |Segments(pattern)| ==> IsWildcard(Segments(pattern)[i]) ==> Segments(pattern)[i] == "*"
  }

  lemma PathIsCanonical(pattern: string, priority: nat, i: nat)
    requires PlainWildcards(pattern) && i < |PathOf(pattern, priority)|
    ensures Canonical(PathOf(pattern, priority)[i])
  {
  }

  // ---- Routes ----------------------------------------------------------------------------------------------

  /** root.children and the handler list. */
  datatype Routes<H> = Routes(methods: seq<Node>, handlers: seq<H>)

  function MethodLabel(verb: string): Label { Label(verb, false) }

  function Root(methods: seq<Node>): Node { Node(Label("rootNode", false), methods, []) }

  function Empty<H>(): Routes<H> { Routes([Node(MethodLabel(ANY), [], [])], []) }

  /** The handlers tried below one method. */
  function MethodVisits(methods: seq<Node>, verb: string, url: string): seq<Visit> {
    match Find(methods, MethodLabel(verb))
    case Some(i) => Visits(methods[i], Segments(url), [])
    case None => []
  }

  /** route: those of the request's method, then those of the last method. */
  function RouteVisits(methods: seq<Node>, verb: string, url: string): seq<Visit>
    requires methods != []
  { MethodVisits(methods, verb, url) + Visits(methods[|methods| - 1], Segments(url), []) }

  predicate AnyIsLast(methods: seq<Node>) { methods != [] && methods[|methods| - 1].tag == MethodLabel(ANY) }

  // findHandler.

  function Walk(node: Node, path: seq<Label>): Option<Node>
    decreases |path|
  {
    if path == [] then Some(node)
    else match Find(node.children, path[0])
      case None => None
      case Some(i) => Walk(node.children[i], path[1..])
  }

  function WithPriority(ids: seq<nat>, priority: nat): (r: Option<nat>)
    ensures r.Some? ==> r.value in ids && Priority(r.value) == priority
    ensures r.None? ==> forall x :: x in ids ==> Priority(x) != priority
  { if ids == [] then None else if Priority(ids[0]) == priority then Some(ids[0]) else WithPriority(ids[1..], priority) }

  function FindHandler(methods: seq<Node>, verb: string, pattern: string, priority: nat): Option<nat> {
    match Find(methods, MethodLabel(verb))
    case None => None
    case Some(i) =>
      match Walk(methods[i], RawPath(pattern, priority))
      case None => None
      case Some(n) => WithPriority(n.handlers, priority)
  }

  // remove and add.

  function Remove<H>(r: Routes<H>, verb: string, pattern: string, priority: nat): Routes<H> {
    match FindHandler(r.methods, verb, pattern, priority)
    case None => r
    case Some(id) =>
      if Index(id) < |r.handlers| then Routes(CullBelow(Root(r.methods), 0, id), Removed(r.handlers, Index(id))) else r
  }

  function InsertMethod(methods: seq<Node>, verb: string, path: seq<Label>, id: nat): seq<Node> {
    match Find(methods, MethodLabel(verb))
    case Some(i) => methods[i := Insert(methods[i], path, id)]
    case None => methods + [Insert(Node(MethodLabel(verb), [], []), path, id)]
  }

  function InsertMethods(methods: seq<Node>, names: seq<string>, path: seq<Label>, id: nat): seq<Node>
    decreases |names|
  {
    if names == [] then methods
    else InsertMethods(InsertMethod(methods, names[0], path, id), names[1..], path, id)
  }

  /** operator< on strings. */
  predicate Less(a: string, b: string)
    decreases |a|
  { b != "" && (a == "" || a[0] < b[0] || (a[0] == b[0] && Less(a[1..], b[1..]))) }

  /** GET first, ANY last, the others by name. */
  predicate MethodBefore(a: string, b: string) {
    if a == "GET" && b != "GET" then true
    else if b == "GET" && a != "GET" then false
    else if a == ANY && b != ANY then false
    else if b == ANY && a != ANY then true
    else Less(a, b)
  }

  function MethodPosition(methods: seq<Node>, name: string): (i: nat)
    ensures i <= |methods|
    ensures forall j :: 0 <= j < i ==> !MethodBefore(name, methods[j].tag.name)
    ensures i < |methods| ==> MethodBefore(name, methods[i].tag.name)
  { if methods == [] || MethodBefore(name, methods[0].tag.name) then 0 else 1 + MethodPosition(methods[1..], name) }

  /** The methods sorted; the order is total on distinct names, so how they are sorted does not matter. */
  function SortMethods(methods: seq<Node>): seq<Node> {
    if methods == [] then []
    else
      var m := methods[|methods| - 1];
      var sorted := SortMethods(methods[..|methods| - 1]);
      InsertAt(sorted, MethodPosition(sorted, m.tag.name), m)
  }

  /** A call to add. */
  datatype Registration<H> = Registration(methods: seq<string>, pattern: string, handler: H, priority: nat)

  function Add<H>(r: Routes<H>, g: Registration<H>): Routes<H>
    requires g.methods != []
  {
    var r' := Remove(r, g.methods[0], g.pattern, g.priority);
    Routes(SortMethods(InsertMethods(r'.methods, g.methods, PathOf(g.pattern, g.priority), g.priority + |r'.handlers|)),
           r'.handlers + [g.handler])
  }

  // ---- What the operations keep -------------------------------------------------------------------------------

  /** (verb, path) has handler id. */
  ghost predicate HasRoute(methods: seq<Node>, verb: string, path: seq<Label>, id: nat) {
    HasBelow(methods, [MethodLabel(verb)] + path, id)
  }

  ghost predicate MethodsOk(methods: seq<Node>, prios: seq<nat>) {
    && (forall i, j :: 0 <= i < j < |methods| ==> methods[i].tag != methods[j].tag)
    && (forall i :: 0 <= i < |methods| ==> !methods[i].tag.high && Wf(methods[i]) && IdsOk(methods[i], prios))
  }

  /** Stored ids are in range, sorted, and carry their handler's priority. */
  ghost predicate Valid<H>(r: Routes<H>, prios: seq<nat>) {
    MethodsOk(r.methods, prios) && |r.handlers| == |prios| <= MAX_HANDLERS
  }

  lemma FoundIs(methods: seq<Node>, i: nat)
    requires i < |methods| && forall i, j :: 0 <= i < j < |methods| ==> methods[i].tag != methods[j].tag
    ensures Find(methods, methods[i].tag) == Some(i)
  {
  }

  /** The node of a method has what the routes have for it. */
  lemma RouteIsInNode(methods: seq<Node>, prios: seq<nat>, verb: string, path: seq<Label>, id: nat)
    requires MethodsOk(methods, prios)
    ensures HasRoute(methods, verb, path, id) <==>
            Find(methods, MethodLabel(verb)).Some? && Has(methods[Find(methods, MethodLabel(verb)).value], path, id)
  {
    var q := [MethodLabel(verb)] + path;
    assert q[0] == MethodLabel(verb) && q[1..] == path;
    if HasRoute(methods, verb, path, id) {
      var i :| 0 <= i < |methods| && methods[i].tag == q[0] && Has(methods[i], q[1..], id);
      FoundIs(methods, i);
    }
  }

  lemma RouteIsGood(methods: seq<Node>, prios: seq<nat>, verb: string, path: seq<Label>, id: nat)
    requires MethodsOk(methods, prios) && HasRoute(methods, verb, path, id)
    ensures GoodId(id, prios)
  {
    RouteIsInNode(methods, prios, verb, path, id);
  }

  /** No id of a route is the one that stands for not found. */
  lemma RouteIsNotMissing<H>(r: Routes<H>, prios: seq<nat>, verb: string, path: seq<Label>, id: nat)
    requires Valid(r, prios) && HasRoute(r.methods, verb, path, id)
    ensures id < 0xffff_ffff
  {
    RouteIsGood(r.methods, prios, verb, path, id);
  }

  // Inserting.

  lemma InsertMethodHas(methods: seq<Node>, verb: string, path: seq<Label>, id: nat, v: string, q: seq<Label>, x: nat)
    ensures HasRoute(InsertMethod(methods, verb, path, id), v, q, x) <==> HasRoute(methods, v, q, x) || (v == verb && q == path && x == id)
  {
    var tag, full := MethodLabel(verb), [MethodLabel(v)] + q;
    assert full[0] == MethodLabel(v) && full[1..] == q;
    match Find(methods, tag)
    case Some(i) =>
      InsertTag(methods[i], path, id);
      InsertHas(methods[i], path, id, q, x);
      UpdatedHas(methods, i, Insert(methods[i], path, id), full, x, v == verb && q == path && x == id);
    case None =>
      var empty := Node(tag, [], []);
      InsertTag(empty, path, id);
      InsertHas(empty, path, id, q, x);
      EmptyHas(tag, q, x);
      AddedHas(methods, |methods|, Insert(empty, path, id), full, x);
      assert InsertAt(methods, |methods|, Insert(empty, path, id)) == methods + [Insert(empty, path, id)];
  }

  /** An id none of the methods has. */
  ghost predicate Unused(methods: seq<Node>, verb: string, id: nat) { forall q :: !HasRoute(methods, verb, q, id) }

  lemma InsertedIdsOk(node: Node, path: seq<Label>, id: nat, prios: seq<nat>)
    requires IdsOk(node, prios) && GoodId(id, prios)
    ensures IdsOk(Insert(node, path, id), prios)
  {
    forall q, x | Has(Insert(node, path, id), q, x) ensures GoodId(x, prios) {
      InsertHas(node, path, id, q, x);
    }
  }

  lemma InsertMethodOk(methods: seq<Node>, verb: string, path: seq<Label>, id: nat, prios: seq<nat>)
    requires MethodsOk(methods, prios) && GoodId(id, prios) && Unused(methods, verb, id)
    requires forall i :: 0 <= i < |path| ==> Canonical(path[i])
    ensures MethodsOk(InsertMethod(methods, verb, path, id), prios)
  {
    RouteIsInNode(methods, prios, verb, path, id);
    match Find(methods, MethodLabel(verb))
    case Some(i) =>
      InsertTag(methods[i], path, id);
      InsertWf(methods[i], path, id);
      InsertedIdsOk(methods[i], path, id, prios);
    case None =>
      var empty := Node(MethodLabel(verb), [], []);
      EmptyHas(empty.tag, path, id);
      EmptyIdsOk(empty.tag, prios);
      InsertTag(empty, path, id);
      InsertWf(empty, path, id);
      InsertedIdsOk(empty, path, id, prios);
  }

  lemma EmptyIdsOk(tag: Label, prios: seq<nat>)
    ensures IdsOk(Node(tag, [], []), prios)
  {
    forall q, x ensures !Has(Node(tag, [], []), q, x) {
      EmptyHas(tag, q, x);
    }
  }

  predicate Distinct(names: seq<string>) { forall i, j :: 0 <= i < j < |names| ==> names[i] != names[j] }

  lemma {:induction false} InsertMethodsOk(methods: seq<Node>, names: seq<string>, path: seq<Label>, id: nat, prios: seq<nat>)
    requires MethodsOk(methods, prios) && GoodId(id, prios) && Distinct(names)
    requires forall i :: 0 <= i < |names| ==> Unused(methods, names[i], id)
    requires forall i :: 0 <= i < |path| ==> Canonical(path[i])
    ensures MethodsOk(InsertMethods(methods, names, path, id), prios)
    ensures forall v, q, x :: HasRoute(InsertMethods(methods, names, path, id), v, q, x)
                              <==> HasRoute(methods, v, q, x) || (v in names && q == path && x == id)
    decreases |names|
  {
    if names != [] {
      var ms := InsertMethod(methods, names[0], path, id);
      InsertMethodOk(methods, names[0], path, id, prios);
      forall v, q, x ensures HasRoute(ms, v, q, x) <==> HasRoute(methods, v, q, x) || (v == names[0] && q == path && x == id) {
        InsertMethodHas(methods, names[0], path, id, v, q, x);
      }
      forall i | 0 <= i < |names[1..]| ensures Unused(ms, names[1..][i], id) {
        assert names[1..][i] == names[i + 1];
      }
      InsertMethodsOk(ms, names[1..], path, id, prios);
      assert forall v :: v in names <==> v == names[0] || v in names[1..];
    }
  }

  // Sorting the methods.

  lemma {:induction false} SortHas(methods: seq<Node>, q: seq<Label>, x: nat)
    requires q != []
    ensures HasBelow(SortMethods(methods), q, x) <==> HasBelow(methods, q, x)
  {
    if methods != [] {
      var m, first := methods[|methods| - 1], methods[..|methods| - 1];
      SortHas(first, q, x);
      var sorted := SortMethods(first);
      AddedHas(sorted, MethodPosition(sorted, m.tag.name), m, q, x);
      AddedHas(first, |first|, m, q, x);
      assert InsertAt(first, |first|, m) == methods;
    }
  }

  lemma {:induction false} SortMembers(methods: seq<Node>, m: Node)
    ensures m in SortMethods(methods) <==> m in methods
    ensures |SortMethods(methods)| == |methods|
  {
    if methods != [] {
      var last, first := methods[|methods| - 1], methods[..|methods| - 1];
      SortMembers(first, m);
      var sorted := SortMethods(first);
      InsertAtMembers(sorted, MethodPosition(sorted, last.tag.name), last, m);
      assert methods == first + [last];
    }
  }

  lemma {:induction false} SortOk(methods: seq<Node>, prios: seq<nat>)
    requires MethodsOk(methods, prios)
    ensures MethodsOk(SortMethods(methods), prios)
  {
    if methods != [] {
      var m, first := methods[|methods| - 1], methods[..|methods| - 1];
      SortOk(first, prios);
      var sorted := SortMethods(first);
      forall i | 0 <= i < |sorted| ensures sorted[i].tag != m.tag {
        SortMembers(first, sorted[i]);
      }
      var p := MethodPosition(sorted, m.tag.name);
      var r := InsertAt(sorted, p, m);
      forall i | 0 <= i < |r| ensures !r[i].tag.high && Wf(r[i]) && IdsOk(r[i], prios) {
        if i != p { assert r[i] == sorted[if i < p then i else i - 1]; }
      }
    }
  }

  /** ANY ends up last, if it is there. */
  lemma {:induction false} SortAnyLast(methods: seq<Node>, i: nat)
    requires i < |methods| && methods[i].tag == MethodLabel(ANY) && (forall j :: 0 <= j < |methods| ==> !methods[j].tag.high)
    requires forall i, j :: 0 <= i < j < |methods| ==> methods[i].tag != methods[j].tag
    ensures AnyIsLast(SortMethods(methods))
  {
    var m, first := methods[|methods| - 1], methods[..|methods| - 1];
    var sorted := SortMethods(first);
    var p := MethodPosition(sorted, m.tag.name);
    if i < |methods| - 1 {
      SortAnyLast(first, i);
      SortMembers(first, m);
      assert m.tag != methods[i].tag;
      assert MethodBefore(m.tag.name, ANY);
    }
  }

  // ---- Removing ------------------------------------------------------------------------------------------------

  /** What findHandler finds is a handler of that method, path and priority; if it finds none there is none. */
  lemma {:induction false} WalkFinds(node: Node, path: seq<Label>, id: nat)
    requires Wf(node)
    ensures Has(node, path, id) <==> Walk(node, path).Some? && id in Walk(node, path).value.handlers
    decreases |path|
  {
    if path != [] {
      match Find(node.children, path[0])
      case None =>
      case Some(i) =>
        WalkFinds(node.children[i], path[1..], id);
        assert forall j :: 0 <= j < |node.children| && node.children[j].tag == path[0] ==> j == i;
    }
  }

  lemma FindHandlerExactly(methods: seq<Node>, verb: string, pattern: string, priority: nat, prios: seq<nat>)
    requires MethodsOk(methods, prios)
    ensures match FindHandler(methods, verb, pattern, priority)
            case Some(id) => HasRoute(methods, verb, RawPath(pattern, priority), id) && Priority(id) == priority
            case None => forall x :: HasRoute(methods, verb, RawPath(pattern, priority), x) ==> Priority(x) != priority
  {
    var path := RawPath(pattern, priority);
    forall x ensures HasRoute(methods, verb, path, x) <==>
                     Find(methods, MethodLabel(verb)).Some? &&
                     var n := Walk(methods[Find(methods, MethodLabel(verb)).value], path); n.Some? && x in n.value.handlers
    {
      RouteIsInNode(methods, prios, verb, path, x);
      match Find(methods, MethodLabel(verb))
      case None =>
      case Some(i) => WalkFinds(methods[i], path, x);
    }
  }

  lemma RootHas(methods: seq<Node>, q: seq<Label>, x: nat)
    requires q != []
    ensures Has(Root(methods), q, x) <==> HasBelow(methods, q, x)
  {
  }

  /** After the cull of handler id, the routes are those that had another handler, renumbered. */
  lemma CullRoutes(methods: seq<Node>, id: nat, v: string, q: seq<Label>, x: nat)
    ensures HasRoute(methods, v, q, x) && x != id ==> HasRoute(CullBelow(Root(methods), 0, id), v, q, Lowered(x, id))
    ensures HasRoute(CullBelow(Root(methods), 0, id), v, q, x) ==> exists y :: HasRoute(methods, v, q, y) && y != id && Lowered(y, id) == x
  {
    var root, full := Root(methods), [MethodLabel(v)] + q;
    RootHas(methods, full, x);
    if HasRoute(methods, v, q, x) && x != id {
      CullKeeps(root, id, full, x);
      assert Cull(root, id).value.children == CullBelow(root, 0, id);
    }
    if HasRoute(CullBelow(root, 0, id), v, q, x) {
      assert Cull(root, id).Some? && Has(Cull(root, id).value, full, x);
      var y := CullOnly(root, id, full, x);
      RootHas(methods, full, y);
    }
  }

  lemma {:induction false} CullMethodsOk(methods: seq<Node>, i: nat, id: nat, prios: seq<nat>)
    requires MethodsOk(methods, prios) && GoodId(id, prios) && |prios| <= INDEX_SIZE && i <= |methods|
    ensures MethodsOk(CullBelow(Root(methods), i, id), Removed(prios, Index(id)))
    decreases |methods| - i
  {
    if i < |methods| {
      CullMethodsOk(methods, i + 1, id, prios);
      if Cull(methods[i], id).Some? {
        var later := CullBelow(Root(methods), i + 1, id);
        CullWf(methods[i], id, prios);
        CulledIdsOk(methods[i], id, prios);
        forall k | 0 <= k < |later| ensures later[k].tag != methods[i].tag {
          var j := CullBelowFrom(Root(methods), i + 1, id, k);
        }
        assert CullBelow(Root(methods), i, id) == [Cull(methods[i], id).value] + later;
      } else {
        assert CullBelow(Root(methods), i, id) == CullBelow(Root(methods), i + 1, id);
      }
    }
  }

  lemma CulledIdsOk(node: Node, id: nat, prios: seq<nat>)
    requires IdsOk(node, prios) && GoodId(id, prios) && |prios| <= INDEX_SIZE && Cull(node, id).Some?
    ensures IdsOk(Cull(node, id).value, Removed(prios, Index(id)))
  {
    forall q, y | Has(Cull(node, id).value, q, y) ensures GoodId(y, Removed(prios, Index(id))) {
      var x := CullOnly(node, id, q, y);
      LoweredIsGood(x, id, prios, prios);
    }
  }

  /** The priorities after a removal. */
  function PriosAfter<H>(r: Routes<H>, prios: seq<nat>, verb: string, pattern: string, priority: nat): seq<nat> {
    match FindHandler(r.methods, verb, pattern, priority)
    case Some(id) => if Index(id) < |prios| then Removed(prios, Index(id)) else prios
    case None => prios
  }

  /** Removal keeps ids in range and sorted. */
  lemma RemoveValid<H>(r: Routes<H>, prios: seq<nat>, verb: string, pattern: string, priority: nat)
    requires Valid(r, prios)
    ensures Valid(Remove(r, verb, pattern, priority), PriosAfter(r, prios, verb, pattern, priority))
  {
    FindHandlerExactly(r.methods, verb, pattern, priority, prios);
    match FindHandler(r.methods, verb, pattern, priority)
    case None =>
    case Some(id) =>
      RouteIsGood(r.methods, prios, verb, RawPath(pattern, priority), id);
      CullMethodsOk(r.methods, 0, id, prios);
  }

  // ---- Which handlers a request tries ------------------------------------------------------------------------

  datatype Try<H> = Try(handler: H, params: seq<string>)

  predicate InRange<H>(visits: seq<Visit>, handlers: seq<H>) { forall i :: 0 <= i < |visits| ==> Index(visits[i].id) < |handlers| }

  function Tries<H>(visits: seq<Visit>, handlers: seq<H>): seq<Try<H>>
    requires InRange(visits, handlers)
  { if visits == [] then [] else [Try(handlers[Index(visits[0].id)], visits[0].params)] + Tries(visits[1..], handlers) }

  lemma VisitsInRange<H>(r: Routes<H>, prios: seq<nat>, verb: string, url: string)
    requires Valid(r, prios)
    ensures forall v :: v in MethodVisits(r.methods, verb, url) ==> GoodId(v.id, prios)
    ensures InRange(MethodVisits(r.methods, verb, url), r.handlers)
  {
    var visits := MethodVisits(r.methods, verb, url);
    forall v | v in visits ensures GoodId(v.id, prios) {
      var i := Find(r.methods, MethodLabel(verb)).value;
      VisitsExactly(r.methods[i], Segments(url), [], v.path, v.id);
    }
  }

  function MethodTries<H>(r: Routes<H>, verb: string, url: string): seq<Try<H>>
    requires InRange(MethodVisits(r.methods, verb, url), r.handlers)
  { Tries(MethodVisits(r.methods, verb, url), r.handlers) }

  /** The visits that are not to handler id. */
  function Others(visits: seq<Visit>, id: nat): seq<Visit> {
    if visits == [] then [] else (if visits[0].id == id then [] else [visits[0]]) + Others(visits[1..], id)
  }

  lemma {:induction false} OthersTried<H>(visits: seq<Visit>, id: nat, prios: seq<nat>, handlers: seq<H>)
    requires GoodId(id, prios) && |handlers| == |prios| <= INDEX_SIZE && forall v :: v in visits ==> GoodId(v.id, prios)
    ensures InRange(Others(visits, id), handlers) && InRange(Without(visits, id), Removed(handlers, Index(id)))
    ensures Tries(Without(visits, id), Removed(handlers, Index(id))) == Tries(Others(visits, id), handlers)
  {
    if visits != [] {
      OthersTried(visits[1..], id, prios, handlers);
      if visits[0].id != id {
        LoweredIsGood(visits[0].id, id, prios, handlers);
        var w, o := Without(visits, id), Others(visits, id);
        assert w[0] == visits[0].(id := Lowered(visits[0].id, id)) && w[1..] == Without(visits[1..], id);
        assert o[0] == visits[0] && o[1..] == Others(visits[1..], id);
      } else {
        assert Others(visits, id) == Others(visits[1..], id);
      }
    }
  }

  lemma CulledMethod(methods: seq<Node>, prios: seq<nat>, id: nat, verb: string, url: string)
    requires Index(id) < |prios| && MethodsOk(methods, prios) && MethodsOk(CullBelow(Root(methods), 0, id), Removed(prios, Index(id)))
    ensures MethodVisits(CullBelow(Root(methods), 0, id), verb, url) == Without(MethodVisits(methods, verb, url), id)
  {
    var tag, culled := MethodLabel(verb), CullBelow(Root(methods), 0, id);
    match Find(methods, tag)
    case Some(i) =>
      CullVisits(methods[i], id, Segments(url), []);
      if Cull(methods[i], id).Some? {
        CullBelowKeeps(Root(methods), 0, i, id);
        var k :| 0 <= k < |culled| && culled[k] == Cull(methods[i], id).value;
        FoundIs(culled, k);
      } else {
        NotCulledThere(methods, id, tag, i);
      }
    case None => NoSuchMethod(methods, id, tag);
  }

  lemma NotCulledThere(methods: seq<Node>, id: nat, tag: Label, i: nat)
    requires i < |methods| && methods[i].tag == tag && Cull(methods[i], id).None?
    requires forall i, j :: 0 <= i < j < |methods| ==> methods[i].tag != methods[j].tag
    ensures Find(CullBelow(Root(methods), 0, id), tag) == None
  {
    var culled := CullBelow(Root(methods), 0, id);
    forall k | 0 <= k < |culled| ensures culled[k].tag != tag {
      var j := CullBelowFrom(Root(methods), 0, id, k);
    }
  }

  lemma NoSuchMethod(methods: seq<Node>, id: nat, tag: Label)
    requires Find(methods, tag) == None
    ensures Find(CullBelow(Root(methods), 0, id), tag) == None
  {
    var culled := CullBelow(Root(methods), 0, id);
    forall k | 0 <= k < |culled| ensures culled[k].tag != tag {
      var j := CullBelowFrom(Root(methods), 0, id, k);
    }
  }

  /** Removing deletes exactly the found handler: for every method and URL, a request tries the handlers it tried
      before, the same functions with the same parameters in the same order, except the removed one. */
  lemma RemoveExactly<H>(r: Routes<H>, prios: seq<nat>, verb: string, pattern: string, priority: nat, id: nat, v: string, url: string)
    requires Valid(r, prios) && FindHandler(r.methods, verb, pattern, priority) == Some(id)
    ensures var r' := Remove(r, verb, pattern, priority);
      && InRange(MethodVisits(r'.methods, v, url), r'.handlers)
      && InRange(Others(MethodVisits(r.methods, v, url), id), r.handlers)
      && MethodTries(r', v, url) == Tries(Others(MethodVisits(r.methods, v, url), id), r.handlers)
  {
    FindHandlerExactly(r.methods, verb, pattern, priority, prios);
    RouteIsGood(r.methods, prios, verb, RawPath(pattern, priority), id);
    CullMethodsOk(r.methods, 0, id, prios);
    CulledMethod(r.methods, prios, id, v, url);
    VisitsInRange(r, prios, v, url);
    OthersTried(MethodVisits(r.methods, v, url), id, prios, r.handlers);
  }

  // ---- ANY stays last as long as it has a route ---------------------------------------------------------------

  /** A node all of whose handlers are id is culled. */
  lemma {:induction false} CullNone(node: Node, id: nat)
    requires forall q, x :: Has(node, q, x) ==> x == id
    ensures Cull(node, id) == None
    decreases node, 1, 0
  {
    if CulledIds(node.handlers, id) != [] {
      var x := CulledIds(node.handlers, id)[0];
      CulledIdsHas(node.handlers, id, x);
      var y :| y in node.handlers && y != id && Lowered(y, id) == x;
      assert Has(node, [], y) ==> y == id;
    }
    CullBelowNone(node, 0, id);
  }

  lemma {:induction false} CullBelowNone(node: Node, i: nat, id: nat)
    requires i <= |node.children| && forall q, x :: Has(node, q, x) ==> x == id
    ensures CullBelow(node, i, id) == []
    decreases node, 0, |node.children| - i
  {
    if i < |node.children| {
      CullBelowNone(node, i + 1, id);
      forall q, x ensures Has(node.children[i], q, x) ==> x == id {
        var q' := [node.children[i].tag] + q;
        assert q'[1..] == q;
        assert Has(node.children[i], q, x) ==> Has(node, q', x);
      }
      CullNone(node.children[i], id);
    }
  }

  lemma {:induction false} CullBelowLast(node: Node, i: nat, id: nat)
    requires i < |node.children|
    ensures Cull(node.children[|node.children| - 1], id).Some? ==>
              var r := CullBelow(node, i, id); r != [] && r[|r| - 1] == Cull(node.children[|node.children| - 1], id).value
    decreases |node.children| - i
  {
    if i + 1 < |node.children| {
      CullBelowLast(node, i + 1, id);
      var later := CullBelow(node, i + 1, id);
      if Cull(node.children[i], id).Some? && later != [] {
        assert CullBelow(node, i, id)[|later|] == later[|later| - 1];
      }
    }
  }

  /** Some handler below node is not id. */
  ghost predicate HasAnother(node: Node, id: nat) { exists q, x :: Has(node, q, x) && x != id }

  lemma CullSomeExactly(node: Node, id: nat)
    ensures Cull(node, id).Some? <==> HasAnother(node, id)
  {
    if HasAnother(node, id) {
      var q, x :| Has(node, q, x) && x != id;
      CullKeeps(node, id, q, x);
    } else {
      CullNone(node, id);
    }
  }

  lemma AnyCulled(methods: seq<Node>, id: nat)
    requires AnyIsLast(methods) && forall i, j :: 0 <= i < j < |methods| ==> methods[i].tag != methods[j].tag
    ensures AnyIsLast(CullBelow(Root(methods), 0, id)) <==> Cull(methods[|methods| - 1], id).Some?
  {
    hide Cull;
    CullBelowLast(Root(methods), 0, id);
    if Cull(methods[|methods| - 1], id).None? { NotCulledThere(methods, id, MethodLabel(ANY), |methods| - 1); }
    else { CulledTag(methods[|methods| - 1], id); }
  }

  lemma CulledTag(node: Node, id: nat)
    ensures Cull(node, id).Some? ==> Cull(node, id).value.tag == node.tag
  {
  }

  /** Removal leaves ANY last exactly if ANY has a route with another handler.  Without one the ANY node is culled,
      and requests fall back to the routes of whatever method is last. */
  lemma AnyStaysLastExactly(methods: seq<Node>, prios: seq<nat>, id: nat)
    requires MethodsOk(methods, prios) && AnyIsLast(methods)
    ensures AnyIsLast(CullBelow(Root(methods), 0, id)) <==> exists q, x :: HasRoute(methods, ANY, q, x) && x != id
  {
    var n := |methods| - 1;
    AnyCulled(methods, id);
    CullSomeExactly(methods[n], id);
    FoundIs(methods, n);
    forall q, x ensures HasRoute(methods, ANY, q, x) <==> Has(methods[n], q, x) {
      RouteIsInNode(methods, prios, ANY, q, x);
    }
    hide MethodsOk, HasRoute, Has, Cull, CullBelow, AnyIsLast;
    if HasAnother(methods[n], id) {
      var q, x :| Has(methods[n], q, x) && x != id;
      assert HasRoute(methods, ANY, q, x);
    }
    if exists q, x :: HasRoute(methods, ANY, q, x) && x != id {
      var q, x :| HasRoute(methods, ANY, q, x) && x != id;
      assert Has(methods[n], q, x);
    }
  }

  // ---- Registering ---------------------------------------------------------------------------------------------

  /** A call the properties are stated for: distinct methods, one of the three priorities, plain wildcards. */
  predicate Plain<H>(g: Registration<H>) {
    g.methods != [] && Distinct(g.methods) && IsPriority(g.priority) && PlainWildcards(g.pattern)
  }

  lemma MorePriorities(methods: seq<Node>, prios: seq<nat>, p: nat)
    requires MethodsOk(methods, prios)
    ensures MethodsOk(methods, prios + [p])
  {
    forall i | 0 <= i < |methods| ensures IdsOk(methods[i], prios + [p]) {
      forall q, x | Has(methods[i], q, x) ensures GoodId(x, prios + [p]) {
        assert GoodId(x, prios);
      }
    }
  }

  lemma NewIdUnused(methods: seq<Node>, prios: seq<nat>, verb: string, id: nat)
    requires MethodsOk(methods, prios) && Index(id) >= |prios|
    ensures Unused(methods, verb, id)
  {
    forall q ensures !HasRoute(methods, verb, q, id) {
      if HasRoute(methods, verb, q, id) { RouteIsGood(methods, prios, verb, q, id); }
    }
  }

  lemma NewId(n: nat, priority: nat, prios: seq<nat>)
    requires IsPriority(priority) && n == |prios| < MAX_HANDLERS
    ensures Index(priority + n) == n && Priority(priority + n) == priority && GoodId(priority + n, prios + [priority])
  {
  }

  lemma SortRoutes(methods: seq<Node>, v: string, q: seq<Label>, x: nat)
    ensures HasRoute(SortMethods(methods), v, q, x) <==> HasRoute(methods, v, q, x)
  {
    SortHas(methods, [MethodLabel(v)] + q, x);
  }

  /** What add does once the old handler is gone: one entry for each method, under the next free index. */
  lemma AddedRoutes<H>(r: Routes<H>, prios: seq<nat>, g: Registration<H>)
    requires Valid(r, prios) && Plain(g) && |prios| < MAX_HANDLERS
    ensures var id := g.priority + |r.handlers|;
            var path := PathOf(g.pattern, g.priority);
            var methods := SortMethods(InsertMethods(r.methods, g.methods, path, id));
            && Index(id) == |prios| && Priority(id) == g.priority
            && MethodsOk(InsertMethods(r.methods, g.methods, path, id), prios + [g.priority])
            && Valid(Routes(methods, r.handlers + [g.handler]), prios + [g.priority])
            && (forall v, q, x :: HasRoute(methods, v, q, x) <==> HasRoute(r.methods, v, q, x) || (v in g.methods && q == path && x == id))
  {
    var id, path := g.priority + |r.handlers|, PathOf(g.pattern, g.priority);
    hide MethodsOk, HasRoute, SortMethods, InsertMethods, Index, Priority, GoodId, Unused, PathOf, Canonical;
    NewId(|r.handlers|, g.priority, prios);
    MorePriorities(r.methods, prios, g.priority);
    forall i | 0 <= i < |g.methods| ensures Unused(r.methods, g.methods[i], id) {
      NewIdUnused(r.methods, prios, g.methods[i], id);
    }
    forall i | 0 <= i < |path| ensures Canonical(path[i]) {
      PathIsCanonical(g.pattern, g.priority, i);
    }
    InsertMethodsOk(r.methods, g.methods, path, id, prios + [g.priority]);
    var inserted := InsertMethods(r.methods, g.methods, path, id);
    SortOk(inserted, prios + [g.priority]);
    forall v, q, x ensures HasRoute(SortMethods(inserted), v, q, x) <==> HasRoute(inserted, v, q, x) {
      SortRoutes(inserted, v, q, x);
    }
  }

  /** Registering keeps ids in range and sorted. */
  lemma AddValid<H>(r: Routes<H>, prios: seq<nat>, g: Registration<H>)
    requires Valid(r, prios) && Plain(g) && |prios| < MAX_HANDLERS
    ensures Valid(Add(r, g), PriosAfter(r, prios, g.methods[0], g.pattern, g.priority) + [g.priority])
  {
    hide Valid, FindHandler, HasRoute;
    RemoveValid(r, prios, g.methods[0], g.pattern, g.priority);
    PriosShrink(r, prios, g.methods[0], g.pattern, g.priority);
    AddedRoutes(Remove(r, g.methods[0], g.pattern, g.priority), PriosAfter(r, prios, g.methods[0], g.pattern, g.priority), g);
  }

  lemma PriosShrink<H>(r: Routes<H>, prios: seq<nat>, verb: string, pattern: string, priority: nat)
    ensures |PriosAfter(r, prios, verb, pattern, priority)| <= |prios|
  {
  }

  lemma {:induction false} InsertMethodsKeepsTag(methods: seq<Node>, names: seq<string>, path: seq<Label>, id: nat, i: nat)
    requires i < |methods|
    ensures |methods| <= |InsertMethods(methods, names, path, id)| && InsertMethods(methods, names, path, id)[i].tag == methods[i].tag
    decreases |names|
  {
    if names != [] {
      var ms := InsertMethod(methods, names[0], path, id);
      if k :| Find(methods, MethodLabel(names[0])) == Some(k) { InsertTag(methods[k], path, id); }
      InsertMethodsKeepsTag(ms, names[1..], path, id, i);
    }
  }

  // ---- Registration order does not matter -----------------------------------------------------------------------

  datatype Key = Key(verb: string, path: seq<Label>, priority: nat)

  /** The routes are those of a table from (method, path, priority) to handlers. */
  ghost predicate Represents<H>(r: Routes<H>, t: map<Key, H>) {
    && (forall v, q, x :: HasRoute(r.methods, v, q, x) ==>
          Key(v, q, Priority(x)) in t && Index(x) < |r.handlers| && r.handlers[Index(x)] == t[Key(v, q, Priority(x))])
    && (forall k :: k in t ==> exists x :: HasRoute(r.methods, k.verb, k.path, x) && Priority(x) == k.priority)
    && (forall v, q, x, y :: HasRoute(r.methods, v, q, x) && HasRoute(r.methods, v, q, y) && Priority(x) == Priority(y) ==> x == y)
  }

  /** The entries one registration makes. */
  function Entries<H>(g: Registration<H>): map<Key, H> {
    map v | v in g.methods :: Key(v, PathOf(g.pattern, g.priority), g.priority) := g.handler
  }

  lemma {:induction false} HasCanonical(node: Node, q: seq<Label>, x: nat)
    requires Wf(node) && Has(node, q, x)
    ensures forall i :: 0 <= i < |q| ==> Canonical(q[i])
    decreases |q|
  {
    if q != [] {
      var i :| 0 <= i < |node.children| && node.children[i].tag == q[0] && Has(node.children[i], q[1..], x);
      HasCanonical(node.children[i], q[1..], x);
      forall k | 0 <= k < |q| ensures Canonical(q[k]) {
        if k > 0 { assert q[k] == q[1..][k - 1]; }
      }
    }
  }

  lemma NoSuchEntry<H>(r: Routes<H>, prios: seq<nat>, t: map<Key, H>, g: Registration<H>, id: nat)
    requires Valid(r, prios) && Represents(r, t) && Plain(g) && Entries(g).Keys !! t.Keys
    requires HasRoute(r.methods, g.methods[0], RawPath(g.pattern, g.priority), id)
    ensures Priority(id) != g.priority
  {
    var verb, raw := g.methods[0], RawPath(g.pattern, g.priority);
    RouteIsInNode(r.methods, prios, verb, raw, id);
    HasCanonical(r.methods[Find(r.methods, MethodLabel(verb)).value], raw, id);
    forall i | 0 <= i < |raw| ensures raw[i] == PathOf(g.pattern, g.priority)[i] {
      assert Canonical(raw[i]);
    }
    assert raw == PathOf(g.pattern, g.priority);
    assert Key(verb, raw, g.priority) in Entries(g).Keys && Key(verb, raw, Priority(id)) in t.Keys;
  }

  /** findHandler finds nothing for a new key. */
  lemma NewKeyNotFound<H>(r: Routes<H>, prios: seq<nat>, t: map<Key, H>, g: Registration<H>)
    requires Valid(r, prios) && Represents(r, t) && Plain(g) && Entries(g).Keys !! t.Keys
    ensures FindHandler(r.methods, g.methods[0], g.pattern, g.priority) == None
  {
    FindHandlerExactly(r.methods, g.methods[0], g.pattern, g.priority, prios);
    if id :| FindHandler(r.methods, g.methods[0], g.pattern, g.priority) == Some(id) {
      NoSuchEntry(r, prios, t, g, id);
    }
  }

  /** The entries of a registration on top of those there are. */
  ghost predicate Grown<H>(r: Routes<H>, r': Routes<H>, g: Registration<H>, id: nat) {
    && r'.handlers == r.handlers + [g.handler] && Index(id) == |r.handlers| && Priority(id) == g.priority
    && (forall v, q, x :: HasRoute(r'.methods, v, q, x) <==>
          HasRoute(r.methods, v, q, x) || (v in g.methods && q == PathOf(g.pattern, g.priority) && x == id))
  }

  lemma EntryOf<H>(g: Registration<H>, k: Key)
    ensures k in Entries(g) <==> k.verb in g.methods && k.path == PathOf(g.pattern, g.priority) && k.priority == g.priority
    ensures k in Entries(g) ==> Entries(g)[k] == g.handler
  {
    if k.verb in g.methods && k.path == PathOf(g.pattern, g.priority) && k.priority == g.priority {
      assert k == Key(k.verb, PathOf(g.pattern, g.priority), g.priority);
    }
  }

  lemma GrownHandlers<H>(r: Routes<H>, t: map<Key, H>, r': Routes<H>, g: Registration<H>, id: nat, v: string, q: seq<Label>, x: nat)
    requires Represents(r, t) && Grown(r, r', g, id) && Entries(g).Keys !! t.Keys && HasRoute(r'.methods, v, q, x)
    ensures var t', k := t + Entries(g), Key(v, q, Priority(x));
            k in t' && Index(x) < |r'.handlers| && r'.handlers[Index(x)] == t'[k]
  {
    hide HasRoute;
    var k := Key(v, q, Priority(x));
    EntryOf(g, k);
    if HasRoute(r.methods, v, q, x) { assert k in t.Keys && k !in Entries(g).Keys; }
  }

  lemma GrownUnique<H>(r: Routes<H>, t: map<Key, H>, r': Routes<H>, g: Registration<H>, id: nat, v: string, q: seq<Label>, x: nat, y: nat)
    requires Represents(r, t) && Grown(r, r', g, id) && Entries(g).Keys !! t.Keys
    requires HasRoute(r'.methods, v, q, x) && HasRoute(r'.methods, v, q, y) && Priority(x) == Priority(y)
    ensures x == y
  {
    hide HasRoute;
    var k := Key(v, q, Priority(x));
    EntryOf(g, k);
    assert HasRoute(r.methods, v, q, x) ==> k in t.Keys;
    assert HasRoute(r.methods, v, q, y) ==> k in t.Keys;
    assert k in t.Keys ==> k !in Entries(g).Keys;
  }

  lemma GrownCovers<H>(r: Routes<H>, t: map<Key, H>, r': Routes<H>, g: Registration<H>, id: nat, k: Key)
    requires Represents(r, t) && Grown(r, r', g, id) && k in t + Entries(g)
    ensures exists x :: HasRoute(r'.methods, k.verb, k.path, x) && Priority(x) == k.priority
  {
    hide HasRoute;
    EntryOf(g, k);
    if k in t {
      var x :| HasRoute(r.methods, k.verb, k.path, x) && Priority(x) == k.priority;
      assert HasRoute(r'.methods, k.verb, k.path, x);
    } else {
      assert HasRoute(r'.methods, k.verb, k.path, id);
    }
  }

  lemma GrownRepresents<H>(r: Routes<H>, t: map<Key, H>, r': Routes<H>, g: Registration<H>, id: nat)
    requires Represents(r, t) && Grown(r, r', g, id) && Entries(g).Keys !! t.Keys
    ensures Represents(r', t + Entries(g))
  {
    hide Grown, HasRoute, Entries;
    var t' := t + Entries(g);
    forall v, q, x | HasRoute(r'.methods, v, q, x)
      ensures Key(v, q, Priority(x)) in t' && Index(x) < |r'.handlers| && r'.handlers[Index(x)] == t'[Key(v, q, Priority(x))]
    {
      GrownHandlers(r, t, r', g, id, v, q, x);
    }
    forall k | k in t' ensures exists x :: HasRoute(r'.methods, k.verb, k.path, x) && Priority(x) == k.priority {
      GrownCovers(r, t, r', g, id, k);
    }
    forall v, q, x, y | HasRoute(r'.methods, v, q, x) && HasRoute(r'.methods, v, q, y) && Priority(x) == Priority(y) ensures x == y {
      GrownUnique(r, t, r', g, id, v, q, x, y);
    }
  }

  lemma AddKeepsAny(methods: seq<Node>, names: seq<string>, path: seq<Label>, id: nat, prios: seq<nat>)
    requires AnyIsLast(methods) && MethodsOk(InsertMethods(methods, names, path, id), prios)
    ensures AnyIsLast(SortMethods(InsertMethods(methods, names, path, id)))
  {
    InsertMethodsKeepsTag(methods, names, path, id, |methods| - 1);
    SortAnyLast(InsertMethods(methods, names, path, id), |methods| - 1);
  }

  lemma AddGrows<H>(r: Routes<H>, prios: seq<nat>, g: Registration<H>)
    requires Valid(r, prios) && Plain(g) && |prios| < MAX_HANDLERS && FindHandler(r.methods, g.methods[0], g.pattern, g.priority) == None
    ensures Valid(Add(r, g), prios + [g.priority]) && Grown(r, Add(r, g), g, g.priority + |r.handlers|)
    ensures AnyIsLast(r.methods) ==> AnyIsLast(Add(r, g).methods)
  {
    var id, path := g.priority + |r.handlers|, PathOf(g.pattern, g.priority);
    var methods := SortMethods(InsertMethods(r.methods, g.methods, path, id));
    assert |r.handlers| == |prios| && Add(r, g) == Routes(methods, r.handlers + [g.handler]);
    hide HasRoute, MethodsOk, SortMethods, InsertMethods, Valid, FindHandler, Add, Index, Priority;
    AddedRoutes(r, prios, g);
    if AnyIsLast(r.methods) { AddKeepsAny(r.methods, g.methods, path, id, prios + [g.priority]); }
  }

  /** Registering new keys adds exactly them to the table. */
  lemma AddRepresents<H>(r: Routes<H>, prios: seq<nat>, t: map<Key, H>, g: Registration<H>)
    requires Valid(r, prios) && Represents(r, t) && Plain(g) && Entries(g).Keys !! t.Keys && |prios| < MAX_HANDLERS
    ensures Valid(Add(r, g), prios + [g.priority]) && Represents(Add(r, g), t + Entries(g))
    ensures AnyIsLast(r.methods) ==> AnyIsLast(Add(r, g).methods)
  {
    NewKeyNotFound(r, prios, t, g);
    hide HasRoute, Represents, Valid, Grown, Add, FindHandler;
    AddGrows(r, prios, g);
    GrownRepresents(r, t, Add(r, g), g, g.priority + |r.handlers|);
  }

  // ---- The order in which a table's routes are tried ------------------------------------------------------------

  /** A visit, as far as the table knows it. */
  datatype Stop = Stop(path: seq<Label>, priority: nat)

  predicate StopBefore(a: Stop, b: Stop) { if a.path == b.path then a.priority < b.priority else PathBefore(a.path, b.path) }

  function Stops(visits: seq<Visit>): (r: seq<Stop>)
    ensures |r| == |visits| && forall i :: 0 <= i < |r| ==> r[i] == Stop(visits[i].path, Priority(visits[i].id))
  { if visits == [] then [] else [Stop(visits[0].path, Priority(visits[0].id))] + Stops(visits[1..]) }

  predicate StopsInOrder(s: seq<Stop>) { forall a, b :: 0 <= a < b < |s| ==> StopBefore(s[a], s[b]) }

  lemma {:induction false} PathBeforeAsymmetric(p: seq<Label>, q: seq<Label>)
    ensures !(PathBefore(p, q) && PathBefore(q, p))
    decreases |p|
  {
    if p != [] && q != [] && p[0] == q[0] { PathBeforeAsymmetric(p[1..], q[1..]); }
  }

  /** There is one way to put stops in order. */
  lemma {:induction false} OneOrder(s: seq<Stop>, t: seq<Stop>)
    requires StopsInOrder(s) && StopsInOrder(t) && forall x :: x in s <==> x in t
    ensures s == t
    decreases |s|
  {
    if s == [] {
      assert forall i :: 0 <= i < |t| ==> t[i] in s;
    } else {
      assert s[0] in t;
      var k :| 0 <= k < |t| && t[k] == s[0];
      assert t[0] in s;
      var m :| 0 <= m < |s| && s[m] == t[0];
      if k > 0 && m > 0 { PathBeforeAsymmetric(s[0].path, t[0].path); }
      assert s[0] == t[0];
      RestSame(s, t);
      OneOrder(s[1..], t[1..]);
    }
  }

  lemma RestSame(s: seq<Stop>, t: seq<Stop>)
    requires StopsInOrder(s) && StopsInOrder(t) && s != [] && t != [] && s[0] == t[0] && forall x :: x in s <==> x in t
    ensures StopsInOrder(s[1..]) && StopsInOrder(t[1..]) && forall x :: x in s[1..] <==> x in t[1..]
  {
    forall x ensures x in s[1..] <==> x in t[1..] {
      InRest(s, x);
      InRest(t, x);
    }
  }

  lemma InRest(s: seq<Stop>, x: Stop)
    requires StopsInOrder(s) && s != []
    ensures x in s[1..] <==> x in s && x != s[0]
  {
    NotAgain(s);
    assert s == [s[0]] + s[1..];
  }

  lemma NotAgain(s: seq<Stop>)
    requires StopsInOrder(s) && s != []
    ensures s[0] !in s[1..]
  {
    forall k | 0 <= k < |s[1..]| ensures s[1..][k] != s[0] {
      assert StopBefore(s[0], s[k + 1]);
    }
  }

  /** What the parameters on the stack are, from the path alone. */
  function Captured(path: seq<Label>, rest: seq<string>): seq<string>
    decreases |path|
  {
    if path == [] || rest == [] || IsWildcard(path[0].name) then []
    else (if IsParameter(path[0].name) && rest[0] != "" then [rest[0]] else []) + Captured(path[1..], rest[1..])
  }

  predicate Captures(visits: seq<Visit>, params: seq<string>, rest: seq<string>) {
    forall i :: 0 <= i < |visits| ==> visits[i].params == params + Captured(visits[i].path, rest)
  }

  lemma {:induction false} VisitsCapture(node: Node, rest: seq<string>, params: seq<string>)
    ensures Captures(Visits(node, rest, params), params, rest)
    decreases |rest|, 1, 0
  {
    if rest == [] { AtIs(node.handlers, params); } else { BelowCapture(node.children, rest, params); }
  }

  lemma {:induction false} BelowCapture(children: seq<Node>, rest: seq<string>, params: seq<string>)
    requires rest != []
    ensures Captures(VisitsBelow(children, rest, params), params, rest)
    decreases |rest|, 0, |children|
  {
    if children != [] {
      ChildCapture(children[0], rest, params);
      BelowCapture(children[1..], rest, params);
    }
  }

  /** The parameter a label takes off a segment. */
  function Taken(tag: Label, segment: string): seq<string> {
    if !IsWildcard(tag.name) && IsParameter(tag.name) && segment != "" then [segment] else []
  }

  lemma UnderCapture(tag: Label, inner: seq<Visit>, rest: seq<string>, params: seq<string>)
    requires rest != [] && !IsWildcard(tag.name) && Captures(inner, params + Taken(tag, rest[0]), rest[1..])
    ensures Captures(Under(tag, inner), params, rest)
  {
    UnderIs(tag, inner);
    forall i | 0 <= i < |inner| ensures Under(tag, inner)[i].params == params + Captured(Under(tag, inner)[i].path, rest) {
      assert ([tag] + inner[i].path)[1..] == inner[i].path;
      assert Captured([tag] + inner[i].path, rest) == Taken(tag, rest[0]) + Captured(inner[i].path, rest[1..]);
    }
  }

  lemma {:induction false} ChildCapture(p: Node, rest: seq<string>, params: seq<string>)
    requires rest != []
    ensures Captures(VisitsChild(p, rest, params), params, rest)
    decreases |rest|, 0, 0
  {
    var name := p.tag.name;
    if IsWildcard(name) {
      AtIs(p.handlers, params);
      UnderIs(p.tag, At(p.handlers, params));
    } else if IsParameter(name) && rest[0] != "" {
      VisitsCapture(p, rest[1..], params + [rest[0]]);
      UnderCapture(p.tag, Visits(p, rest[1..], params + [rest[0]]), rest, params);
    } else if name == rest[0] {
      VisitsCapture(p, rest[1..], params);
      assert params + Taken(p.tag, rest[0]) == params;
      UnderCapture(p.tag, Visits(p, rest[1..], params), rest, params);
    }
  }

  // ---- Registration order does not matter, the theorem -----------------------------------------------------------

  lemma VisitsOfRoute<H>(r: Routes<H>, prios: seq<nat>, verb: string, url: string, path: seq<Label>, id: nat)
    requires Valid(r, prios)
    ensures Visited(MethodVisits(r.methods, verb, url), path, id) <==> HasRoute(r.methods, verb, path, id) && Matches(path, Segments(url))
  {
    RouteIsInNode(r.methods, prios, verb, path, id);
    match Find(r.methods, MethodLabel(verb))
    case Some(i) => VisitsExactly(r.methods[i], Segments(url), [], path, id);
    case None =>
  }

  /** The stops are the table's matching keys. */
  lemma StopsOfTable<H>(r: Routes<H>, prios: seq<nat>, t: map<Key, H>, verb: string, url: string, x: Stop)
    requires Valid(r, prios) && Represents(r, t)
    ensures x in Stops(MethodVisits(r.methods, verb, url)) <==> Key(verb, x.path, x.priority) in t && Matches(x.path, Segments(url))
  {
    var visits := MethodVisits(r.methods, verb, url);
    if x in Stops(visits) {
      var i :| 0 <= i < |visits| && Stops(visits)[i] == x;
      assert Visited(visits, visits[i].path, visits[i].id);
      VisitsOfRoute(r, prios, verb, url, visits[i].path, visits[i].id);
    }
    if Key(verb, x.path, x.priority) in t && Matches(x.path, Segments(url)) {
      var k := Key(verb, x.path, x.priority);
      var id :| HasRoute(r.methods, k.verb, k.path, id) && Priority(id) == k.priority;
      VisitsOfRoute(r, prios, verb, url, x.path, id);
      var i :| 0 <= i < |visits| && visits[i].path == x.path && visits[i].id == id;
      assert Stops(visits)[i] == x;
    }
  }

  lemma StopsAreInOrder<H>(r: Routes<H>, prios: seq<nat>, t: map<Key, H>, verb: string, url: string)
    requires Valid(r, prios) && Represents(r, t)
    ensures StopsInOrder(Stops(MethodVisits(r.methods, verb, url)))
  {
    var visits := MethodVisits(r.methods, verb, url);
    match Find(r.methods, MethodLabel(verb))
    case None =>
    case Some(k) =>
      VisitsInOrder(r.methods[k], Segments(url), []);
      VisitsInRange(r, prios, verb, url);
      var stops := Stops(visits);
      forall a, b | 0 <= a < b < |stops| ensures StopBefore(stops[a], stops[b]) {
        var x, y := visits[a], visits[b];
        assert VisitBefore(x, y) && x in visits && y in visits;
        if x.path == y.path { PrioritiesIncrease(r, prios, t, verb, url, x, y); }
      }
  }

  lemma PrioritiesIncrease<H>(r: Routes<H>, prios: seq<nat>, t: map<Key, H>, verb: string, url: string, x: Visit, y: Visit)
    requires Valid(r, prios) && Represents(r, t) && x.path == y.path && x.id < y.id
    requires x in MethodVisits(r.methods, verb, url) && y in MethodVisits(r.methods, verb, url)
    ensures Priority(x.id) < Priority(y.id)
  {
    VisitsOfRoute(r, prios, verb, url, x.path, x.id);
    VisitsOfRoute(r, prios, verb, url, y.path, y.id);
    assert Visited(MethodVisits(r.methods, verb, url), x.path, x.id) && Visited(MethodVisits(r.methods, verb, url), y.path, y.id);
    assert Priority(x.id) != Priority(y.id);
  }

  /** The tries that the stops of a method stand for. */
  function TriesOf<H>(stops: seq<Stop>, t: map<Key, H>, verb: string, segments: seq<string>): seq<Try<H>>
    requires forall i :: 0 <= i < |stops| ==> Key(verb, stops[i].path, stops[i].priority) in t
  {
    if stops == [] then []
    else [Try(t[Key(verb, stops[0].path, stops[0].priority)], Captured(stops[0].path, segments))] + TriesOf(stops[1..], t, verb, segments)
  }

  lemma {:induction false} TriesAreOf<H>(visits: seq<Visit>, handlers: seq<H>, t: map<Key, H>, verb: string, segments: seq<string>)
    requires InRange(visits, handlers)
    requires forall i :: 0 <= i < |visits| ==>
               var k := Key(verb, visits[i].path, Priority(visits[i].id));
               k in t && handlers[Index(visits[i].id)] == t[k] && visits[i].params == Captured(visits[i].path, segments)
    ensures Tries(visits, handlers) == TriesOf(Stops(visits), t, verb, segments)
  {
    if visits != [] {
      TriesAreOf(visits[1..], handlers, t, verb, segments);
      assert Stops(visits)[1..] == Stops(visits[1..]);
    }
  }

  /** What a method's routes try is determined by the table. */
  lemma TriesFromTable<H>(r: Routes<H>, prios: seq<nat>, t: map<Key, H>, verb: string, url: string)
    requires Valid(r, prios) && Represents(r, t)
    ensures var stops := Stops(MethodVisits(r.methods, verb, url));
      && (forall i :: 0 <= i < |stops| ==> Key(verb, stops[i].path, stops[i].priority) in t)
      && InRange(MethodVisits(r.methods, verb, url), r.handlers)
      && MethodTries(r, verb, url) == TriesOf(stops, t, verb, Segments(url))
  {
    var visits := MethodVisits(r.methods, verb, url);
    VisitsInRange(r, prios, verb, url);
    forall i | 0 <= i < |visits|
      ensures var k := Key(verb, visits[i].path, Priority(visits[i].id));
              k in t && r.handlers[Index(visits[i].id)] == t[k] && visits[i].params == Captured(visits[i].path, Segments(url))
    {
      assert Visited(visits, visits[i].path, visits[i].id);
      VisitsOfRoute(r, prios, verb, url, visits[i].path, visits[i].id);
      VisitsCapture(r.methods[Find(r.methods, MethodLabel(verb)).value], Segments(url), []);
    }
    TriesAreOf(visits, r.handlers, t, verb, Segments(url));
  }

  /** Routers with the same table try the same handlers, with the same parameters, in the same order. */
  lemma SameTableSameOrder<H>(r: Routes<H>, prios: seq<nat>, s: Routes<H>, prios': seq<nat>, t: map<Key, H>, verb: string, url: string)
    requires Valid(r, prios) && Valid(s, prios') && Represents(r, t) && Represents(s, t)
    ensures InRange(MethodVisits(r.methods, verb, url), r.handlers) && InRange(MethodVisits(s.methods, verb, url), s.handlers)
    ensures MethodTries(r, verb, url) == MethodTries(s, verb, url)
  {
    TriesFromTable(r, prios, t, verb, url);
    TriesFromTable(s, prios', t, verb, url);
    StopsAreInOrder(r, prios, t, verb, url);
    StopsAreInOrder(s, prios', t, verb, url);
    var a, b := Stops(MethodVisits(r.methods, verb, url)), Stops(MethodVisits(s.methods, verb, url));
    forall x ensures x in a <==> x in b {
      StopsOfTable(r, prios, t, verb, url, x);
      StopsOfTable(s, prios', t, verb, url, x);
    }
    OneOrder(a, b);
  }

  /** A list of calls to add on a new router. */
  function AddAll<H>(gs: seq<Registration<H>>): Routes<H>
    requires forall i :: 0 <= i < |gs| ==> gs[i].methods != []
    decreases |gs|
  { if gs == [] then Empty() else Add(AddAll(gs[..|gs| - 1]), gs[|gs| - 1]) }

  function TableOf<H>(gs: seq<Registration<H>>): map<Key, H>
    decreases |gs|
  { if gs == [] then map[] else TableOf(gs[..|gs| - 1]) + Entries(gs[|gs| - 1]) }

  function PriosOf<H>(gs: seq<Registration<H>>): (r: seq<nat>)
    ensures |r| == |gs|
    decreases |gs|
  { if gs == [] then [] else PriosOf(gs[..|gs| - 1]) + [gs[|gs| - 1].priority] }

  /** Routes with pairwise distinct method, stripped pattern and priority. */
  ghost predicate AllNew<H>(gs: seq<Registration<H>>) {
    && |gs| < MAX_HANDLERS
    && (forall i :: 0 <= i < |gs| ==> Plain(gs[i]))
    && (forall i, j :: 0 <= i < j < |gs| ==> Entries(gs[i]).Keys !! Entries(gs[j]).Keys)
  }

  lemma EmptyOk<H>()
    ensures Valid<H>(Empty(), []) && Represents<H>(Empty(), map[]) && AnyIsLast(Empty<H>().methods)
  {
    var methods := Empty<H>().methods;
    EmptyIdsOk(MethodLabel(ANY), []);
    forall v, q, x ensures !HasRoute(methods, v, q, x) {
      EmptyHas(MethodLabel(ANY), q, x);
      assert ([MethodLabel(v)] + q)[1..] == q;
    }
  }

  ghost predicate InSome<H>(gs: seq<Registration<H>>, k: Key) { exists i :: 0 <= i < |gs| && k in Entries(gs[i]) }

  lemma InSomeNext<H>(gs: seq<Registration<H>>, k: Key)
    requires gs != []
    ensures InSome(gs, k) <==> InSome(gs[..|gs| - 1], k) || k in Entries(gs[|gs| - 1])
  {
    hide Entries;
    var first := gs[..|gs| - 1];
    if InSome(first, k) {
      var i :| 0 <= i < |first| && k in Entries(first[i]);
      assert k in Entries(gs[i]);
    }
    if InSome(gs, k) {
      var i :| 0 <= i < |gs| && k in Entries(gs[i]);
      if i < |first| { assert k in Entries(first[i]); }
    }
  }

  lemma {:induction false} TableHas<H>(gs: seq<Registration<H>>, k: Key)
    ensures k in TableOf(gs) <==> InSome(gs, k)
    decreases |gs|
  {
    hide Entries;
    if gs != [] {
      TableHas(gs[..|gs| - 1], k);
      InSomeNext(gs, k);
    }
  }

  lemma {:induction false} TableGives<H>(gs: seq<Registration<H>>, k: Key, i: nat)
    requires AllNew(gs) && i < |gs| && k in Entries(gs[i])
    ensures k in TableOf(gs) && TableOf(gs)[k] == gs[i].handler
    decreases |gs|
  {
    var last := |gs| - 1;
    EntryOf(gs[i], k);
    if i < last {
      TableGives(gs[..last], k, i);
      assert k in Entries(gs[i]).Keys && k !in Entries(gs[last]).Keys;
    }
  }

  lemma {:induction false} AddAllOk<H>(gs: seq<Registration<H>>)
    requires AllNew(gs)
    ensures Valid(AddAll(gs), PriosOf(gs)) && Represents(AddAll(gs), TableOf(gs)) && AnyIsLast(AddAll(gs).methods)
    decreases |gs|
  {
    if gs == [] {
      EmptyOk<H>();
    } else {
      var first, g := gs[..|gs| - 1], gs[|gs| - 1];
      AddAllOk(first);
      forall k | k in TableOf(first).Keys ensures k !in Entries(g).Keys {
        TableHas(first, k);
        var i :| 0 <= i < |first| && k in Entries(first[i]);
        assert Entries(gs[i]).Keys !! Entries(gs[|gs| - 1]).Keys;
        assert k in Entries(gs[i]).Keys;
      }
      AddRepresents(AddAll(first), PriosOf(first), TableOf(first), g);
    }
  }

  lemma SameTable<H>(gs: seq<Registration<H>>, hs: seq<Registration<H>>)
    requires AllNew(gs) && AllNew(hs) && multiset(gs) == multiset(hs)
    ensures TableOf(gs) == TableOf(hs)
  {
    forall k ensures k in TableOf(gs) ==> k in TableOf(hs) && TableOf(hs)[k] == TableOf(gs)[k] { SameEntry(gs, hs, k); }
    forall k ensures k in TableOf(hs) ==> k in TableOf(gs) { SameEntry(hs, gs, k); }
  }

  lemma SameEntry<H>(gs: seq<Registration<H>>, hs: seq<Registration<H>>, k: Key)
    requires AllNew(gs) && AllNew(hs) && multiset(gs) == multiset(hs)
    ensures k in TableOf(gs) ==> k in TableOf(hs) && TableOf(hs)[k] == TableOf(gs)[k]
  {
    TableHas(gs, k);
    if k in TableOf(gs) {
      var i :| 0 <= i < |gs| && k in Entries(gs[i]);
      TableGives(gs, k, i);
      assert gs[i] in multiset(hs);
      var j :| 0 <= j < |hs| && hs[j] == gs[i];
      TableGives(hs, k, j);
    }
  }

  /** route, with ANY last: the handlers of the request's method, then those of ANY. */
  function RouteTries<H>(r: Routes<H>, verb: string, url: string): seq<Try<H>>
    requires r.methods != [] && InRange(RouteVisits(r.methods, verb, url), r.handlers)
  { Tries(RouteVisits(r.methods, verb, url), r.handlers) }

  lemma {:induction false} TriesBoth<H>(a: seq<Visit>, b: seq<Visit>, handlers: seq<H>)
    requires InRange(a, handlers) && InRange(b, handlers)
    ensures InRange(a + b, handlers) && Tries(a + b, handlers) == Tries(a, handlers) + Tries(b, handlers)
  {
    if a == [] {
      assert a + b == b;
    } else {
      assert InRange(a[1..], handlers) && InRange(a + b, handlers);
      assert (a + b)[0] == a[0] && (a + b)[1..] == a[1..] + b;
      var x := Try(handlers[Index(a[0].id)], a[0].params);
      hide InRange;
      TriesBoth(a[1..], b, handlers);
      assert [x] + (Tries(a[1..], handlers) + Tries(b, handlers)) == ([x] + Tries(a[1..], handlers)) + Tries(b, handlers);
    }
  }

  lemma RouteIsMethodThenAny<H>(r: Routes<H>, prios: seq<nat>, verb: string, url: string)
    requires Valid(r, prios) && AnyIsLast(r.methods)
    ensures InRange(RouteVisits(r.methods, verb, url), r.handlers)
    ensures InRange(MethodVisits(r.methods, verb, url), r.handlers) && InRange(MethodVisits(r.methods, ANY, url), r.handlers)
    ensures RouteTries(r, verb, url) == MethodTries(r, verb, url) + MethodTries(r, ANY, url)
  {
    VisitsInRange(r, prios, verb, url);
    VisitsInRange(r, prios, ANY, url);
    FoundIs(r.methods, |r.methods| - 1);
    TriesBoth(MethodVisits(r.methods, verb, url), MethodVisits(r.methods, ANY, url), r.handlers);
  }

  /** Any two orders of registering the same routes, pairwise distinct in method, stripped pattern and priority, give
      routers that try the same handlers with the same parameters in the same order, for every request: those of
      the request's method, then those of ANY, each in the order of module RouteTree's PathBefore, then by priority. */
  lemma RegistrationOrderDoesNotMatter<H>(gs: seq<Registration<H>>, hs: seq<Registration<H>>, verb: string, url: string)
    requires AllNew(gs) && AllNew(hs) && multiset(gs) == multiset(hs)
    ensures AnyIsLast(AddAll(gs).methods) && AnyIsLast(AddAll(hs).methods)
    ensures InRange(RouteVisits(AddAll(gs).methods, verb, url), AddAll(gs).handlers)
    ensures InRange(RouteVisits(AddAll(hs).methods, verb, url), AddAll(hs).handlers)
    ensures RouteTries(AddAll(gs), verb, url) == RouteTries(AddAll(hs), verb, url)
  {
    AddAllOk(gs);
    AddAllOk(hs);
    SameTable(gs, hs);
    hide Valid, Represents, AddAll, TableOf, AllNew;
    RouteIsMethodThenAny(AddAll(gs), PriosOf(gs), verb, url);
    RouteIsMethodThenAny(AddAll(hs), PriosOf(hs), verb, url);
    SameTableSameOrder(AddAll(gs), PriosOf(gs), AddAll(hs), PriosOf(hs), TableOf(gs), verb, url);
    SameTableSameOrder(AddAll(gs), PriosOf(gs), AddAll(hs), PriosOf(hs), TableOf(gs), ANY, url);
  }

  // ---- Losing ANY ---------------------------------------------------------------------------------------------------

  /** A GET and a POST route and no ANY route: once the GET route is removed, the ANY node is gone, and a GET request
      is tried against the POST route. */
  lemma RemovingAnyToo()
    ensures var get := Node(MethodLabel("GET"), [Node(Label("a", false), [], [MEDIUM_PRIORITY])], []);
            var post := Node(MethodLabel("POST"), [Node(Label("b", false), [], [MEDIUM_PRIORITY + 1])], []);
            var r: Routes<int> := Routes([get, post, Node(MethodLabel(ANY), [], [])], [10, 20]);
            var r' := Remove(r, "GET", "/a", MEDIUM_PRIORITY);
            && AnyIsLast(r.methods) && r'.methods != [] && !AnyIsLast(r'.methods) && r'.handlers == [20]
            && RouteVisits(r'.methods, "GET", "/b") == [Visit([Label("b", false)], MEDIUM_PRIORITY, [])]
  {
    var a := Node(Label("a", false), [], [MEDIUM_PRIORITY]);
    var b := Node(Label("b", false), [], [MEDIUM_PRIORITY + 1]);
    var get, post, any := Node(MethodLabel("GET"), [a], []), Node(MethodLabel("POST"), [b], []), Node(MethodLabel(ANY), [], []);
    var r: Routes<int> := Routes([get, post, any], [10, 20]);
    FindsA(a, get, post, any);
    LosingA(a, b, get, post, any);
    var b' := Node(Label("b", false), [], [MEDIUM_PRIORITY]);
    var post' := Node(MethodLabel("POST"), [b'], []);
    hide CullBelow, FindHandler, RouteVisits;
    assert [10, 20][..0] + [10, 20][1..] == [20];
    PostVisited(b', post');
  }

  lemma FindsA(a: Node, get: Node, post: Node, any: Node)
    requires a == Node(Label("a", false), [], [MEDIUM_PRIORITY]) && get == Node(MethodLabel("GET"), [a], [])
    ensures FindHandler([get, post, any], "GET", "/a", MEDIUM_PRIORITY) == Some(MEDIUM_PRIORITY)
  {
    OneSegment("/a", "a");
    FoundFirst([get, post, any]);
    FoundFirst([a]);
    var path := [Label("a", false)];
    assert path[1..] == [];
    assert Walk(a, []) == Some(a) && Walk(get, path) == Some(a);
    assert Priority(MEDIUM_PRIORITY) == MEDIUM_PRIORITY;
    assert WithPriority([MEDIUM_PRIORITY], MEDIUM_PRIORITY) == Some(MEDIUM_PRIORITY);
  }

  lemma PostVisited(b: Node, post: Node)
    requires b == Node(Label("b", false), [], [MEDIUM_PRIORITY]) && post == Node(MethodLabel("POST"), [b], [])
    ensures RouteVisits([post], "GET", "/b") == [Visit([Label("b", false)], MEDIUM_PRIORITY, [])]
  {
    OneSegment("/b", "b");
    assert Find([post], MethodLabel("GET")) == None by { assert [post][1..] == []; }
    assert At([MEDIUM_PRIORITY], []) == [Visit([], MEDIUM_PRIORITY, [])] by { assert [MEDIUM_PRIORITY][1..] == []; }
    var v := Visit([], MEDIUM_PRIORITY, []);
    assert Under(b.tag, [v]) == [v.(path := [b.tag])] by { assert [v][1..] == [] && [b.tag] + [] == [b.tag]; }
    assert ["b"][1..] == [] && [b][1..] == [];
    assert VisitsChild(b, ["b"], []) == Under(b.tag, Visits(b, [], []));
    assert VisitsBelow([b], ["b"], []) == VisitsChild(b, ["b"], []) + VisitsBelow([], ["b"], []);
  }

  lemma OneSegment(url: string, segment: string)
    requires url == ['/'] + segment && segment != "" && '/' !in segment
    ensures Segments(url) == [segment] && RawPath(url, MEDIUM_PRIORITY) == [Label(segment, false)]
  {
    assert url[1..] == segment;
    assert Slash(segment) == |segment|;
    assert segment[..|segment|] == segment && segment[|segment|..] == "";
    assert Split("", 99) == [];
  }

  lemma FoundFirst(nodes: seq<Node>)
    requires nodes != []
    ensures Find(nodes, nodes[0].tag) == Some(0)
  {
  }

  lemma LosingA(a: Node, b: Node, get: Node, post: Node, any: Node)
    requires a == Node(Label("a", false), [], [MEDIUM_PRIORITY]) && b == Node(Label("b", false), [], [MEDIUM_PRIORITY + 1])
    requires get == Node(MethodLabel("GET"), [a], []) && post == Node(MethodLabel("POST"), [b], []) && any == Node(MethodLabel(ANY), [], [])
    ensures CullBelow(Root([get, post, any]), 0, MEDIUM_PRIORITY) == [Node(MethodLabel("POST"), [Node(Label("b", false), [], [MEDIUM_PRIORITY])], [])]
  {
    var id, root := MEDIUM_PRIORITY, Root([get, post, any]);
    assert CulledIds([id], id) == [] && CulledIds([id + 1], id) == [id];
    assert Cull(a, id) == None && Cull(b, id) == Some(Node(Label("b", false), [], [id]));
    assert CullBelow(get, 1, id) == [] && CullBelow(get, 0, id) == [] && Cull(get, id) == None;
    assert CullBelow(post, 1, id) == [] && CullBelow(post, 0, id) == [Cull(b, id).value];
    assert CullBelow(any, 0, id) == [] && Cull(any, id) == None;
    assert CullBelow(root, 3, id) == [] && CullBelow(root, 2, id) == [];
    assert CullBelow(root, 1, id) == [Cull(post, id).value];
  }
}
