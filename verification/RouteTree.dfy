/** The matching tree of external/uWebSockets/HttpRouter.h: its nodes, what a request visits in which order, and
    what inserting and culling do to it. */
module RouteTree {
  import opened Options

  /** A node's name and isHighPriority. */
  datatype Label = Label(name: string, high: bool)

  /** Node; a handler id is a priority with the handler's index in its low 28 bits. */
  datatype Node = Node(tag: Label, children: seq<Node>, handlers: seq<nat>)

  const INDEX_SIZE: nat := 0x1000_0000

  /** One fewer than the low 28 bits allow: the id with all bits set stands for a handler that was not found. */
  const MAX_HANDLERS: nat := INDEX_SIZE - 1

  const HIGH_PRIORITY: nat := 0xd000_0000
  const MEDIUM_PRIORITY: nat := 0xe000_0000
  const LOW_PRIORITY: nat := 0xf000_0000

  predicate IsPriority(p: nat) { p == HIGH_PRIORITY || p == MEDIUM_PRIORITY || p == LOW_PRIORITY }

  /** id & HANDLER_MASK, and id & ~HANDLER_MASK. */
  function Index(id: nat): nat { id % INDEX_SIZE }

  function Priority(id: nat): nat { id - id % INDEX_SIZE }

  predicate IsWildcard(name: string) { name != "" && name[0] == '*' }

  predicate IsParameter(name: string) { name != "" && name[0] == ':' }

  function LexicalOrder(name: string): nat {
    if name == "" then 2 else if name[0] == ':' then 1 else if name[0] == '*' then 0 else 2
  }

  // ---- What a request visits -----------------------------------------------------------------------------

  /** One handler tried: the labels from the tree's top to its node, its id, and the parameters on the stack. */
  datatype Visit = Visit(path: seq<Label>, id: nat, params: seq<string>)

  function At(handlers: seq<nat>, params: seq<string>): seq<Visit> {
    if handlers == [] then [] else [Visit([], handlers[0], params)] + At(handlers[1..], params)
  }

  function Under(tag: Label, visits: seq<Visit>): seq<Visit> {
    if visits == [] then [] else [visits[0].(path := [tag] + visits[0].path)] + Under(tag, visits[1..])
  }

  /** executeHandlers from a node, with the rest of the URL's segments, if no handler ends it. */
  function Visits(node: Node, rest: seq<string>, params: seq<string>): seq<Visit>
    decreases |rest|, 1, 0
  { if rest == [] then At(node.handlers, params) else VisitsBelow(node.children, rest, params) }

  function VisitsBelow(children: seq<Node>, rest: seq<string>, params: seq<string>): seq<Visit>
    requires rest != []
    decreases |rest|, 0, |children|
  { if children == [] then [] else VisitsChild(children[0], rest, params) + VisitsBelow(children[1..], rest, params) }

  function VisitsChild(p: Node, rest: seq<string>, params: seq<string>): seq<Visit>
    requires rest != []
    decreases |rest|, 0, 0
  {
    Under(p.tag,
          if IsWildcard(p.tag.name) then At(p.handlers, params)
          else if IsParameter(p.tag.name) && rest[0] != "" then Visits(p, rest[1..], params + [rest[0]])
          else if p.tag.name == rest[0] then Visits(p, rest[1..], params)
          else [])
  }

  // ---- What it should visit, and in which order -----------------------------------------------------------

  /** The node at the end of path holds id. */
  ghost predicate Has(node: Node, path: seq<Label>, id: nat)
    decreases |path|
  {
    if path == [] then id in node.handlers
    else exists i :: 0 <= i < |node.children| && node.children[i].tag == path[0] && Has(node.children[i], path[1..], id)
  }

  /** A registered path matches the segments of a URL. */
  predicate Matches(path: seq<Label>, rest: seq<string>)
    decreases |path|
  {
    if path == [] then rest == []
    else if rest == [] then false
    else if IsWildcard(path[0].name) then |path| == 1
    else if IsParameter(path[0].name) then rest[0] != "" && Matches(path[1..], rest[1..])
    else path[0].name == rest[0] && Matches(path[1..], rest[1..])
  }

  /** High priority first, then static over parameter over wildcard. */
  function Rank(l: Label): nat { (if l.high then 3 else 0) + LexicalOrder(l.name) }

  /** The first label in which two paths differ decides. */
  predicate PathBefore(p: seq<Label>, q: seq<Label>)
    decreases |p|
  {
    p != [] && q != [] && (if p[0] == q[0] then PathBefore(p[1..], q[1..]) else Rank(p[0]) > Rank(q[0]))
  }

  predicate VisitBefore(a: Visit, b: Visit) { if a.path == b.path then a.id < b.id else PathBefore(a.path, b.path) }

  predicate InOrder(visits: seq<Visit>) { forall a, b :: 0 <= a < b < |visits| ==> VisitBefore(visits[a], visits[b]) }

  // ---- Well-formed trees ------------------------------------------------------------------------------------

  predicate Increasing(ids: seq<nat>) { forall i, j :: 0 <= i < j < |ids| ==> ids[i] < ids[j] }

  /** Parameters are registered without their name, wildcards are spelled with the star alone. */
  predicate Canonical(l: Label) { (IsParameter(l.name) ==> l.name == ":") && (IsWildcard(l.name) ==> l.name == "*") }

  /** Handlers are sorted; siblings are distinct and sorted by rank. */
  ghost predicate Wf(node: Node)
    decreases node
  {
    && Increasing(node.handlers)
    && (forall i, j :: 0 <= i < j < |node.children| ==>
          node.children[i].tag != node.children[j].tag && Rank(node.children[i].tag) >= Rank(node.children[j].tag))
    && (forall i :: 0 <= i < |node.children| ==> Canonical(node.children[i].tag) && Wf(node.children[i]))
  }

  // ---- Visits are exactly the matching routes, in order ------------------------------------------------------

  lemma {:induction false} AtIs(handlers: seq<nat>, params: seq<string>)
    ensures |At(handlers, params)| == |handlers|
    ensures forall i :: 0 <= i < |handlers| ==> At(handlers, params)[i] == Visit([], handlers[i], params)
  {
    if handlers != [] { AtIs(handlers[1..], params); }
  }

  lemma {:induction false} UnderIs(tag: Label, visits: seq<Visit>)
    ensures |Under(tag, visits)| == |visits|
    ensures forall i :: 0 <= i < |visits| ==> Under(tag, visits)[i] == visits[i].(path := [tag] + visits[i].path)
  {
    if visits != [] { UnderIs(tag, visits[1..]); }
  }

  /** Some visit is to (path, id). */
  ghost predicate Visited(visits: seq<Visit>, path: seq<Label>, id: nat) {
    exists i :: 0 <= i < |visits| && visits[i].path == path && visits[i].id == id
  }

  lemma UnderVisited(tag: Label, visits: seq<Visit>, path: seq<Label>, id: nat)
    ensures Visited(Under(tag, visits), path, id) <==> path != [] && path[0] == tag && Visited(visits, path[1..], id)
  {
    UnderIs(tag, visits);
    var us := Under(tag, visits);
    if Visited(us, path, id) {
      var i :| 0 <= i < |us| && us[i].path == path && us[i].id == id;
      assert us[i].path == [tag] + visits[i].path;
      assert path[1..] == visits[i].path;
    }
    if path != [] && path[0] == tag && Visited(visits, path[1..], id) {
      var i :| 0 <= i < |visits| && visits[i].path == path[1..] && visits[i].id == id;
      assert us[i].path == [tag] + path[1..] == path;
    }
  }

  lemma BothVisited(a: seq<Visit>, b: seq<Visit>, path: seq<Label>, id: nat)
    ensures Visited(a + b, path, id) <==> Visited(a, path, id) || Visited(b, path, id)
  {
    if Visited(a, path, id) {
      var i :| 0 <= i < |a| && a[i].path == path && a[i].id == id;
      assert (a + b)[i] == a[i];
    }
    if Visited(b, path, id) {
      var i :| 0 <= i < |b| && b[i].path == path && b[i].id == id;
      assert (a + b)[|a| + i] == b[i];
    }
  }

  /** A request visits exactly the handlers whose paths match its URL. */
  lemma {:induction false} VisitsExactly(node: Node, rest: seq<string>, params: seq<string>, path: seq<Label>, id: nat)
    ensures Visited(Visits(node, rest, params), path, id) <==> Has(node, path, id) && Matches(path, rest)
    decreases |rest|, 1, 0
  {
    if rest == [] {
      AtVisited(node.handlers, params, path, id);
    } else {
      BelowExactly(node.children, rest, params, path, id);
    }
  }

  lemma AtVisited(handlers: seq<nat>, params: seq<string>, path: seq<Label>, id: nat)
    ensures Visited(At(handlers, params), path, id) <==> path == [] && id in handlers
  {
    AtIs(handlers, params);
    if path == [] && id in handlers {
      var i :| 0 <= i < |handlers| && handlers[i] == id;
      assert At(handlers, params)[i] == Visit([], id, params);
    }
  }

  ghost predicate HasBelow(children: seq<Node>, path: seq<Label>, id: nat) {
    path != [] && exists i :: 0 <= i < |children| && children[i].tag == path[0] && Has(children[i], path[1..], id)
  }

  lemma {:induction false} BelowExactly(children: seq<Node>, rest: seq<string>, params: seq<string>, path: seq<Label>, id: nat)
    requires rest != []
    ensures Visited(VisitsBelow(children, rest, params), path, id) <==> HasBelow(children, path, id) && Matches(path, rest)
    decreases |rest|, 0, |children|
  {
    if children != [] {
      ChildExactly(children[0], rest, params, path, id);
      BelowExactly(children[1..], rest, params, path, id);
      BothVisited(VisitsChild(children[0], rest, params), VisitsBelow(children[1..], rest, params), path, id);
      BelowSplits(children, path, id);
    }
  }

  lemma BelowSplits(children: seq<Node>, path: seq<Label>, id: nat)
    requires children != []
    ensures HasBelow(children, path, id) <==>
            (path != [] && children[0].tag == path[0] && Has(children[0], path[1..], id)) || HasBelow(children[1..], path, id)
  {
    if HasBelow(children[1..], path, id) {
      var i :| 0 <= i < |children[1..]| && children[1..][i].tag == path[0] && Has(children[1..][i], path[1..], id);
      assert children[i + 1] == children[1..][i];
    }
    if HasBelow(children, path, id) {
      var i :| 0 <= i < |children| && children[i].tag == path[0] && Has(children[i], path[1..], id);
      if i > 0 { assert children[1..][i - 1] == children[i]; }
    }
  }

  lemma {:induction false} ChildExactly(p: Node, rest: seq<string>, params: seq<string>, path: seq<Label>, id: nat)
    requires rest != []
    ensures Visited(VisitsChild(p, rest, params), path, id) <==>
            path != [] && path[0] == p.tag && Has(p, path[1..], id) && Matches(path, rest)
    decreases |rest|, 0, 0
  {
    var name := p.tag.name;
    var inner := if IsWildcard(name) then At(p.handlers, params)
                 else if IsParameter(name) && rest[0] != "" then Visits(p, rest[1..], params + [rest[0]])
                 else if name == rest[0] then Visits(p, rest[1..], params)
                 else [];
    UnderVisited(p.tag, inner, path, id);
    if path != [] && path[0] == p.tag {
      if IsWildcard(name) {
        AtVisited(p.handlers, params, path[1..], id);
      } else if IsParameter(name) && rest[0] != "" {
        VisitsExactly(p, rest[1..], params + [rest[0]], path[1..], id);
      } else if name == rest[0] {
        VisitsExactly(p, rest[1..], params, path[1..], id);
      }
    }
  }

  /** Two different labels that match the same segment have different ranks. */
  lemma RanksDiffer(p: seq<Label>, q: seq<Label>, rest: seq<string>)
    requires Matches(p, rest) && Matches(q, rest) && p != [] && q != []
    requires Canonical(p[0]) && Canonical(q[0]) && p[0] != q[0] && Rank(p[0]) >= Rank(q[0])
    ensures Rank(p[0]) > Rank(q[0])
  {
  }

  lemma AtInOrder(handlers: seq<nat>, params: seq<string>)
    requires Increasing(handlers)
    ensures InOrder(At(handlers, params))
  {
    AtIs(handlers, params);
  }

  lemma UnderInOrder(tag: Label, visits: seq<Visit>)
    requires InOrder(visits)
    ensures InOrder(Under(tag, visits))
  {
    UnderIs(tag, visits);
    var us := Under(tag, visits);
    forall a, b | 0 <= a < b < |us| ensures VisitBefore(us[a], us[b]) {
      assert VisitBefore(visits[a], visits[b]);
      assert us[a].path[1..] == visits[a].path && us[b].path[1..] == visits[b].path;
    }
  }

  ghost predicate WfBelow(children: seq<Node>) {
    && (forall i, j :: 0 <= i < j < |children| ==>
          children[i].tag != children[j].tag && Rank(children[i].tag) >= Rank(children[j].tag))
    && (forall i :: 0 <= i < |children| ==> Canonical(children[i].tag) && Wf(children[i]))
  }

  /** Handlers are tried high priority first, then static over parameter over wildcard at each segment, then by id. */
  lemma {:induction false} VisitsInOrder(node: Node, rest: seq<string>, params: seq<string>)
    requires Wf(node)
    ensures InOrder(Visits(node, rest, params))
    decreases |rest|, 1, 0
  {
    if rest == [] { AtInOrder(node.handlers, params); } else { BelowInOrder(node.children, rest, params); }
  }

  lemma {:induction false} BelowInOrder(children: seq<Node>, rest: seq<string>, params: seq<string>)
    requires WfBelow(children) && rest != []
    ensures InOrder(VisitsBelow(children, rest, params))
    decreases |rest|, 0, |children|
  {
    if children != [] {
      var here, later := VisitsChild(children[0], rest, params), VisitsBelow(children[1..], rest, params);
      ChildInOrder(children[0], rest, params);
      BelowInOrder(children[1..], rest, params);
      forall a, b | 0 <= a < |here| && 0 <= b < |later| ensures VisitBefore(here[a], later[b]) {
        EarlierChild(children, rest, params, here[a], later[b]);
      }
    }
  }

  lemma EarlierChild(children: seq<Node>, rest: seq<string>, params: seq<string>, a: Visit, b: Visit)
    requires WfBelow(children) && rest != [] && children != []
    requires a in VisitsChild(children[0], rest, params) && b in VisitsBelow(children[1..], rest, params)
    ensures VisitBefore(a, b)
  {
    ChildExactly(children[0], rest, params, a.path, a.id);
    BelowExactly(children[1..], rest, params, b.path, b.id);
    var k :| 0 <= k < |children[1..]| && children[1..][k].tag == b.path[0] && Has(children[1..][k], b.path[1..], b.id);
    assert children[k + 1] == children[1..][k];
    RanksDiffer(a.path, b.path, rest);
  }

  lemma {:induction false} ChildInOrder(p: Node, rest: seq<string>, params: seq<string>)
    requires Wf(p) && rest != []
    ensures InOrder(VisitsChild(p, rest, params))
    decreases |rest|, 0, 0
  {
    var name := p.tag.name;
    var inner := if IsWildcard(name) then At(p.handlers, params)
                 else if IsParameter(name) && rest[0] != "" then Visits(p, rest[1..], params + [rest[0]])
                 else if name == rest[0] then Visits(p, rest[1..], params)
                 else [];
    assert InOrder(inner) by {
      if IsWildcard(name) {
        AtInOrder(p.handlers, params);
      } else if IsParameter(name) && rest[0] != "" {
        VisitsInOrder(p, rest[1..], params + [rest[0]]);
      } else if name == rest[0] {
        VisitsInOrder(p, rest[1..], params);
      }
    }
    UnderInOrder(p.tag, inner);
  }

  // ---- Inserting a route --------------------------------------------------------------------------------------

  /** getNode's order of siblings below the root. */
  predicate ComesBefore(a: Label, b: Label) {
    if a.high != b.high then a.high else b.name != "" && LexicalOrder(b.name) < LexicalOrder(a.name)
  }

  lemma ComesBeforeIsRank(a: Label, b: Label)
    ensures ComesBefore(a, b) <==> Rank(b) < Rank(a)
  {
  }

  /** The child with a label. */
  function Find(children: seq<Node>, tag: Label): (r: Option<nat>)
    ensures r.Some? ==> r.value < |children| && children[r.value].tag == tag
    ensures r.None? ==> forall i :: 0 <= i < |children| ==> children[i].tag != tag
  {
    if children == [] then None
    else if children[0].tag == tag then Some(0)
    else match Find(children[1..], tag) case None => None case Some(i) => Some(i + 1)
  }

  /** std::upper_bound: the first sibling that a new one comes before. */
  function Position(children: seq<Node>, tag: Label): (i: nat)
    ensures i <= |children|
    ensures forall j :: 0 <= j < i ==> !ComesBefore(tag, children[j].tag)
    ensures i < |children| ==> ComesBefore(tag, children[i].tag)
  { if children == [] || ComesBefore(tag, children[0].tag) then 0 else 1 + Position(children[1..], tag) }

  /** Where an id goes among sorted ids. */
  function IdPosition(ids: seq<nat>, id: nat): (i: nat)
    ensures i <= |ids|
    ensures forall j :: 0 <= j < i ==> ids[j] <= id
    ensures i < |ids| ==> id < ids[i]
  { if ids == [] || id < ids[0] then 0 else 1 + IdPosition(ids[1..], id) }

  function InsertAt<T>(s: seq<T>, i: nat, x: T): (r: seq<T>)
    requires i <= |s|
    ensures |r| == |s| + 1 && r[i] == x
    ensures forall j :: 0 <= j < i ==> r[j] == s[j]
    ensures forall j :: i < j < |r| ==> r[j] == s[j - 1]
  { s[..i] + [x] + s[i..] }

  /** The tree with id at the end of path, adding nodes as needed. */
  function Insert(node: Node, path: seq<Label>, id: nat): Node
    decreases |path|
  {
    if path == [] then node.(handlers := InsertAt(node.handlers, IdPosition(node.handlers, id), id))
    else match Find(node.children, path[0])
      case Some(i) => node.(children := node.children[i := Insert(node.children[i], path[1..], id)])
      case None =>
        node.(children := InsertAt(node.children, Position(node.children, path[0]), Insert(Node(path[0], [], []), path[1..], id)))
  }

  lemma {:induction false} InsertTag(node: Node, path: seq<Label>, id: nat)
    ensures Insert(node, path, id).tag == node.tag
  {
  }

  /** Inserting adds exactly the one entry. */
  lemma {:induction false} InsertHas(node: Node, path: seq<Label>, id: nat, q: seq<Label>, x: nat)
    ensures Has(Insert(node, path, id), q, x) <==> Has(node, q, x) || (q == path && x == id)
    decreases |path|
  {
    var node' := Insert(node, path, id);
    if path == [] {
      InsertAtMembers(node.handlers, IdPosition(node.handlers, id), id, x);
      if q != [] { assert node'.children == node.children; }
    } else if q == [] {
      assert node'.handlers == node.handlers;
    } else {
      match Find(node.children, path[0])
      case Some(i) =>
        var c' := Insert(node.children[i], path[1..], id);
        InsertTag(node.children[i], path[1..], id);
        InsertHas(node.children[i], path[1..], id, q[1..], x);
        UpdatedHas(node.children, i, c', q, x, q[0] == path[0] && q[1..] == path[1..] && x == id);
        assert q == path <==> q[0] == path[0] && q[1..] == path[1..];
      case None =>
        var empty := Node(path[0], [], []);
        var c' := Insert(empty, path[1..], id);
        InsertTag(empty, path[1..], id);
        InsertHas(empty, path[1..], id, q[1..], x);
        EmptyHas(path[0], q[1..], x);
        AddedHas(node.children, Position(node.children, path[0]), c', q, x);
        assert q == path <==> q[0] == path[0] && q[1..] == path[1..];
    }
  }

  lemma InsertAtMembers<T>(s: seq<T>, i: nat, x: T, y: T)
    requires i <= |s|
    ensures y in InsertAt(s, i, x) <==> y in s || y == x
  {
    var r := InsertAt(s, i, x);
    if y in s {
      var j :| 0 <= j < |s| && s[j] == y;
      assert r[if j < i then j else j + 1] == y;
    }
    if y == x { assert r[i] == y; }
  }

  lemma EmptyHas(tag: Label, q: seq<Label>, x: nat)
    ensures !Has(Node(tag, [], []), q, x)
  {
  }

  /** Replacing a child by one with the same label. */
  lemma UpdatedHas(children: seq<Node>, i: nat, c': Node, q: seq<Label>, x: nat, added: bool)
    requires i < |children| && c'.tag == children[i].tag && q != []
    requires q[0] == c'.tag ==> (Has(c', q[1..], x) <==> Has(children[i], q[1..], x) || added)
    requires added ==> q[0] == c'.tag
    ensures HasBelow(children[i := c'], q, x) <==> HasBelow(children, q, x) || added
  {
    var cs' := children[i := c'];
    if HasBelow(children, q, x) {
      var j :| 0 <= j < |children| && children[j].tag == q[0] && Has(children[j], q[1..], x);
      assert cs'[j].tag == q[0] && Has(cs'[j], q[1..], x);
    }
    if added { assert cs'[i].tag == q[0] && Has(cs'[i], q[1..], x); }
    if HasBelow(cs', q, x) {
      var j :| 0 <= j < |cs'| && cs'[j].tag == q[0] && Has(cs'[j], q[1..], x);
      if !added { assert children[j].tag == q[0] && Has(children[j], q[1..], x); }
    }
  }

  lemma AddedHas(children: seq<Node>, i: nat, c: Node, q: seq<Label>, x: nat)
    requires i <= |children| && q != []
    ensures HasBelow(InsertAt(children, i, c), q, x) <==> HasBelow(children, q, x) || (q[0] == c.tag && Has(c, q[1..], x))
  {
    var cs' := InsertAt(children, i, c);
    if HasBelow(children, q, x) {
      var j :| 0 <= j < |children| && children[j].tag == q[0] && Has(children[j], q[1..], x);
      assert cs'[if j < i then j else j + 1] == children[j];
    }
    if q[0] == c.tag && Has(c, q[1..], x) { assert cs'[i] == c; }
    if HasBelow(cs', q, x) {
      var j :| 0 <= j < |cs'| && cs'[j].tag == q[0] && Has(cs'[j], q[1..], x);
      if j != i { assert children[if j < i then j else j - 1] == cs'[j]; }
    }
  }

  /** Inserting a new id keeps the tree in order. */
  lemma {:induction false} InsertWf(node: Node, path: seq<Label>, id: nat)
    requires Wf(node) && !Has(node, path, id) && forall i :: 0 <= i < |path| ==> Canonical(path[i])
    ensures Wf(Insert(node, path, id))
    decreases |path|
  {
    if path == [] {
      IncreasingInsert(node.handlers, id);
    } else {
      match Find(node.children, path[0])
      case Some(i) =>
        assert Has(node.children[i], path[1..], id) ==> Has(node, path, id);
        InsertWf(node.children[i], path[1..], id);
        InsertTag(node.children[i], path[1..], id);
      case None =>
        var empty := Node(path[0], [], []);
        EmptyHas(path[0], path[1..], id);
        InsertWf(empty, path[1..], id);
        InsertTag(empty, path[1..], id);
        SiblingsInsert(node.children, Insert(empty, path[1..], id));
    }
  }

  lemma IncreasingInsert(ids: seq<nat>, id: nat)
    requires Increasing(ids) && id !in ids
    ensures Increasing(InsertAt(ids, IdPosition(ids, id), id))
  {
    var p := IdPosition(ids, id);
    var r := InsertAt(ids, p, id);
    forall i, j | 0 <= i < j < |r| ensures r[i] < r[j] {
      if i == p && p < |ids| { assert ids[p] <= ids[j - 1]; }
    }
  }

  lemma SiblingsInsert(children: seq<Node>, c: Node)
    requires WfBelow(children) && Wf(c) && Canonical(c.tag) && Find(children, c.tag).None?
    ensures WfBelow(InsertAt(children, Position(children, c.tag), c))
  {
    var p := Position(children, c.tag);
    var r := InsertAt(children, p, c);
    forall i, j | 0 <= i < j < |r| ensures r[i].tag != r[j].tag && Rank(r[i].tag) >= Rank(r[j].tag) {
      if j == p {
        ComesBeforeIsRank(c.tag, r[i].tag);
      } else if i == p {
        ComesBeforeIsRank(c.tag, children[p].tag);
        assert Rank(children[p].tag) >= Rank(children[j - 1].tag);
      }
    }
    forall i | 0 <= i < |r| ensures Canonical(r[i].tag) && Wf(r[i]) {
      if i != p { assert r[i] == children[if i < p then i else i - 1]; }
    }
  }

  // ---- Culling a handler -----------------------------------------------------------------------------------

  /** The id of a handler once handler id's place in the handler list is gone. */
  function Lowered(x: nat, id: nat): nat { if Index(x) > Index(id) then x - 1 else x }

  function CulledIds(ids: seq<nat>, id: nat): seq<nat> {
    if ids == [] then []
    else if Index(ids[0]) > Index(id) then [ids[0] - 1] + CulledIds(ids[1..], id)
    else if ids[0] == id then CulledIds(ids[1..], id)
    else [ids[0]] + CulledIds(ids[1..], id)
  }

  /** cullNode below the root: the node without handler id, or nothing if no handler and no child is left. */
  function Cull(node: Node, id: nat): (r: Option<Node>)
    ensures r.Some? ==> r.value.tag == node.tag
    decreases node, 1, 0
  {
    var node' := Node(node.tag, CullBelow(node, 0, id), CulledIds(node.handlers, id));
    if node'.handlers == [] && node'.children == [] then None else Some(node')
  }

  function CullBelow(node: Node, i: nat, id: nat): seq<Node>
    requires i <= |node.children|
    decreases node, 0, |node.children| - i
  {
    if i == |node.children| then []
    else
      var later := CullBelow(node, i + 1, id);
      match Cull(node.children[i], id)
      case None => later
      case Some(c) => [c] + later
  }

  /** The visits without those of handler id, the rest renumbered. */
  function Without(visits: seq<Visit>, id: nat): seq<Visit> {
    if visits == [] then []
    else if visits[0].id == id then Without(visits[1..], id)
    else [visits[0].(id := Lowered(visits[0].id, id))] + Without(visits[1..], id)
  }

  lemma {:induction false} WithoutBoth(a: seq<Visit>, b: seq<Visit>, id: nat)
    ensures Without(a + b, id) == Without(a, id) + Without(b, id)
  {
    hide Lowered;
    if a == [] {
      assert a + b == b;
    } else {
      WithoutBoth(a[1..], b, id);
      assert (a + b)[0] == a[0] && (a + b)[1..] == a[1..] + b;
      if a[0].id != id {
        var x := a[0].(id := Lowered(a[0].id, id));
        assert [x] + (Without(a[1..], id) + Without(b, id)) == ([x] + Without(a[1..], id)) + Without(b, id);
      }
    }
  }

  lemma {:induction false} WithoutUnder(tag: Label, visits: seq<Visit>, id: nat)
    ensures Without(Under(tag, visits), id) == Under(tag, Without(visits, id))
  {
    if visits != [] { WithoutUnder(tag, visits[1..], id); }
  }

  lemma {:induction false} CulledAt(ids: seq<nat>, params: seq<string>, id: nat)
    ensures At(CulledIds(ids, id), params) == Without(At(ids, params), id)
  {
    if ids != [] { CulledAt(ids[1..], params, id); }
  }

  /** A request visits after the cull what it visited before, without the culled handler and renumbered. */
  lemma {:induction false} CullVisits(node: Node, id: nat, rest: seq<string>, params: seq<string>)
    ensures match Cull(node, id)
            case Some(n) => Visits(n, rest, params) == Without(Visits(node, rest, params), id)
            case None => Without(Visits(node, rest, params), id) == []
    decreases |rest|, 1, 0
  {
    if rest == [] {
      CulledAt(node.handlers, params, id);
    } else {
      CullBelowVisits(node, 0, id, rest, params);
      assert node.children[0..] == node.children;
    }
  }

  lemma {:induction false} CullBelowVisits(node: Node, i: nat, id: nat, rest: seq<string>, params: seq<string>)
    requires i <= |node.children| && rest != []
    ensures VisitsBelow(CullBelow(node, i, id), rest, params) == Without(VisitsBelow(node.children[i..], rest, params), id)
    decreases |rest|, 0, |node.children| - i
  {
    if i < |node.children| {
      var c := node.children[i];
      CullBelowVisits(node, i + 1, id, rest, params);
      CullChildVisits(c, id, rest, params);
      assert node.children[i..][0] == c && node.children[i..][1..] == node.children[i + 1..];
      WithoutBoth(VisitsChild(c, rest, params), VisitsBelow(node.children[i + 1..], rest, params), id);
      if Cull(c, id).Some? { CulledFirst(node, i, id); }
    }
  }

  lemma CulledFirst(node: Node, i: nat, id: nat)
    requires i < |node.children| && Cull(node.children[i], id).Some?
    ensures CullBelow(node, i, id)[0] == Cull(node.children[i], id).value && CullBelow(node, i, id)[1..] == CullBelow(node, i + 1, id)
  {
  }

  lemma {:induction false} CullChildVisits(p: Node, id: nat, rest: seq<string>, params: seq<string>)
    requires rest != []
    ensures match Cull(p, id)
            case Some(c) => VisitsChild(c, rest, params) == Without(VisitsChild(p, rest, params), id)
            case None => Without(VisitsChild(p, rest, params), id) == []
    decreases |rest|, 0, 0
  {
    var name := p.tag.name;
    var inner := if IsWildcard(name) then At(p.handlers, params)
                 else if IsParameter(name) && rest[0] != "" then Visits(p, rest[1..], params + [rest[0]])
                 else if name == rest[0] then Visits(p, rest[1..], params)
                 else [];
    WithoutUnder(p.tag, inner, id);
    if IsWildcard(name) {
      CulledAt(p.handlers, params, id);
    } else if IsParameter(name) && rest[0] != "" {
      CullVisits(p, id, rest[1..], params + [rest[0]]);
    } else if name == rest[0] {
      CullVisits(p, id, rest[1..], params);
    }
  }

  // Which entries the cull leaves.

  lemma {:induction false} CulledIdsHas(ids: seq<nat>, id: nat, x: nat)
    ensures x in ids && x != id ==> Lowered(x, id) in CulledIds(ids, id)
    ensures x in CulledIds(ids, id) ==> exists y :: y in ids && y != id && Lowered(y, id) == x
  {
    if ids != [] {
      CulledIdsHas(ids[1..], id, x);
      if x in CulledIds(ids, id) {
        if x in CulledIds(ids[1..], id) {
          var y :| y in ids[1..] && y != id && Lowered(y, id) == x;
          assert y in ids;
        } else {
          assert ids[0] in ids && ids[0] != id && Lowered(ids[0], id) == x;
        }
      }
    }
  }

  lemma {:induction false} CullKeeps(node: Node, id: nat, q: seq<Label>, x: nat)
    requires Has(node, q, x) && x != id
    ensures Cull(node, id).Some? && Has(Cull(node, id).value, q, Lowered(x, id))
    decreases |q|
  {
    if q == [] {
      CulledIdsHas(node.handlers, id, x);
    } else {
      var i :| 0 <= i < |node.children| && node.children[i].tag == q[0] && Has(node.children[i], q[1..], x);
      CullKeeps(node.children[i], id, q[1..], x);
      CullBelowKeeps(node, 0, i, id);
    }
  }

  lemma {:induction false} CullBelowKeeps(node: Node, i: nat, j: nat, id: nat)
    requires i <= j < |node.children| && Cull(node.children[j], id).Some?
    ensures exists k :: 0 <= k < |CullBelow(node, i, id)| && CullBelow(node, i, id)[k] == Cull(node.children[j], id).value
    decreases j - i
  {
    if i < j {
      CullBelowKeeps(node, i + 1, j, id);
      var later := CullBelow(node, i + 1, id);
      var k :| 0 <= k < |later| && later[k] == Cull(node.children[j], id).value;
      if Cull(node.children[i], id).Some? {
        assert CullBelow(node, i, id)[k + 1] == later[k];
      } else {
        assert CullBelow(node, i, id)[k] == later[k];
      }
    } else {
      assert CullBelow(node, i, id)[0] == Cull(node.children[j], id).value;
    }
  }

  /** Every culled child was a child. */
  lemma {:induction false} CullBelowFrom(node: Node, i: nat, id: nat, k: nat) returns (j: nat)
    requires i <= |node.children| && k < |CullBelow(node, i, id)|
    ensures i <= j < |node.children| && Cull(node.children[j], id) == Some(CullBelow(node, i, id)[k])
    decreases |node.children| - i
  {
    if Cull(node.children[i], id).None? {
      j := CullBelowFrom(node, i + 1, id, k);
    } else if k == 0 {
      j := i;
    } else {
      j := CullBelowFrom(node, i + 1, id, k - 1);
    }
  }

  lemma {:induction false} CullOnly(node: Node, id: nat, q: seq<Label>, y: nat) returns (x: nat)
    requires Cull(node, id).Some? && Has(Cull(node, id).value, q, y)
    ensures Has(node, q, x) && x != id && Lowered(x, id) == y
    decreases |q|
  {
    if q == [] {
      CulledIdsHas(node.handlers, id, y);
      x :| x in node.handlers && x != id && Lowered(x, id) == y;
    } else {
      var below := CullBelow(node, 0, id);
      var k :| 0 <= k < |below| && below[k].tag == q[0] && Has(below[k], q[1..], y);
      var j := CullBelowFrom(node, 0, id, k);
      x := CullOnly(node.children[j], id, q[1..], y);
    }
  }

  // ---- Ids and the handler list ---------------------------------------------------------------------------------

  /** Handler i was registered with priority prios[i]; an id names a registered handler and its priority. */
  predicate GoodId(x: nat, prios: seq<nat>) {
    Index(x) < |prios| && IsPriority(prios[Index(x)]) && x == prios[Index(x)] + Index(x)
  }

  ghost predicate IdsOk(node: Node, prios: seq<nat>) { forall q, x :: Has(node, q, x) ==> GoodId(x, prios) }

  function Removed<T>(s: seq<T>, i: nat): (r: seq<T>)
    requires i < |s|
    ensures |r| == |s| - 1
    ensures forall j :: 0 <= j < i ==> r[j] == s[j]
    ensures forall j :: i <= j < |r| ==> r[j] == s[j + 1]
  { s[..i] + s[i + 1..] }

  /** Every id but the removed one goes on naming the same handler. */
  lemma LoweredIsGood<H>(x: nat, id: nat, prios: seq<nat>, handlers: seq<H>)
    requires GoodId(x, prios) && GoodId(id, prios) && x != id && |handlers| == |prios| <= INDEX_SIZE
    ensures GoodId(Lowered(x, id), Removed(prios, Index(id)))
    ensures Removed(handlers, Index(id))[Index(Lowered(x, id))] == handlers[Index(x)]
    ensures Priority(Lowered(x, id)) == Priority(x)
  {
    assert Index(x) != Index(id);
  }

  lemma LoweredIncreases(x: nat, y: nat, id: nat, prios: seq<nat>)
    requires GoodId(x, prios) && GoodId(y, prios) && GoodId(id, prios) && x != id && y != id && x < y && |prios| <= INDEX_SIZE
    ensures Lowered(x, id) < Lowered(y, id)
  {
    assert Index(x) != Index(id) && Index(y) != Index(id);
  }

  lemma {:induction false} CulledIncreasing(ids: seq<nat>, id: nat, prios: seq<nat>)
    requires Increasing(ids) && GoodId(id, prios) && |prios| <= INDEX_SIZE && forall i :: 0 <= i < |ids| ==> GoodId(ids[i], prios)
    ensures Increasing(CulledIds(ids, id))
  {
    if ids != [] {
      var later := CulledIds(ids[1..], id);
      CulledIncreasing(ids[1..], id, prios);
      if ids[0] != id {
        forall j | 0 <= j < |later| ensures Lowered(ids[0], id) < later[j] {
          CulledIdsHas(ids[1..], id, later[j]);
          var y :| y in ids[1..] && y != id && Lowered(y, id) == later[j];
          LoweredIncreases(ids[0], y, id, prios);
        }
        assert CulledIds(ids, id) == [Lowered(ids[0], id)] + later;
      }
    }
  }

  lemma ChildIdsOk(node: Node, i: nat, prios: seq<nat>)
    requires IdsOk(node, prios) && i < |node.children|
    ensures IdsOk(node.children[i], prios)
  {
    forall q, x | Has(node.children[i], q, x) ensures GoodId(x, prios) {
      var q' := [node.children[i].tag] + q;
      assert q'[1..] == q;
      assert Has(node, q', x);
    }
  }

  /** Culling keeps the tree in order. */
  lemma {:induction false} CullWf(node: Node, id: nat, prios: seq<nat>)
    requires Wf(node) && IdsOk(node, prios) && GoodId(id, prios) && |prios| <= INDEX_SIZE
    ensures Cull(node, id).Some? ==> Wf(Cull(node, id).value)
    decreases node, 1, 0
  {
    forall i | 0 <= i < |node.handlers| ensures GoodId(node.handlers[i], prios) {
      assert Has(node, [], node.handlers[i]);
    }
    CulledIncreasing(node.handlers, id, prios);
    CullBelowWf(node, 0, id, prios);
  }

  lemma {:induction false} CullBelowWf(node: Node, i: nat, id: nat, prios: seq<nat>)
    requires Wf(node) && IdsOk(node, prios) && GoodId(id, prios) && |prios| <= INDEX_SIZE && i <= |node.children|
    ensures WfBelow(CullBelow(node, i, id))
    decreases node, 0, |node.children| - i
  {
    if i < |node.children| {
      CullBelowWf(node, i + 1, id, prios);
      ChildIdsOk(node, i, prios);
      CullWf(node.children[i], id, prios);
      if Cull(node.children[i], id).Some? {
        var later := CullBelow(node, i + 1, id);
        forall k | 0 <= k < |later|
          ensures later[k].tag != node.children[i].tag && Rank(node.children[i].tag) >= Rank(later[k].tag)
        {
          var j := CullBelowFrom(node, i + 1, id, k);
        }
      }
    }
  }
}
