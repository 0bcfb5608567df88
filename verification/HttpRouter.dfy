/** The router of external/uWebSockets/HttpRouter.h itself: its fields, its lazily parsed URL, its parameter stack,
    and its operations, proved against the values of module RouteTable. */
module HttpRouters {
  import opened Options
  import opened RouteTree
  import opened RouteTable

  // ---- Reading a URL segment by segment -----------------------------------------------------------------

  /** What is left of a URL after k segments. */
  function Rest(url: string, k: nat): string
    decreases k
  { if k == 0 || url == "" then url else Rest(url[1..][Slash(url[1..])..], k - 1) }

  /** A URL without its first segment. */
  function Later(url: string): string
    requires url != ""
  { url[1..][Slash(url[1..])..] }

  lemma SplitNext(url: string, limit: nat)
    requires url != "" && limit > 0
    ensures Split(url, limit) == [url[1..][..Slash(url[1..])]] + Split(Later(url), limit - 1)
  {
  }

  lemma RestLater(url: string, k: nat)
    requires url != "" && k > 0
    ensures Rest(url, k) == Rest(Later(url), k - 1)
  {
  }

  lemma SplitEnds(url: string, limit: nat)
    ensures Split(url, limit) != [] ==> url != "" && limit > 0
  {
  }

  /** What is left after k segments has the other segments. */
  lemma {:induction false} SplitRest(url: string, limit: nat, k: nat)
    requires k <= |Split(url, limit)|
    ensures k <= limit && |Split(Rest(url, k), limit - k)| == |Split(url, limit)| - k
    ensures k < |Split(url, limit)| ==> Split(url, limit)[k] == Split(Rest(url, k), limit - k)[0]
    decreases k
  {
    hide Slash, Split, Rest, Later;
    if k > 0 {
      SplitEnds(url, limit);
      SplitNext(url, limit);
      RestLater(url, k);
      SplitRest(Later(url), limit - 1, k - 1);
    } else {
      RestWhole(url);
    }
  }

  lemma RestWhole(url: string)
    ensures Rest(url, 0) == url
  {
  }

  lemma {:induction false} RestNext(url: string, k: nat)
    requires Rest(url, k) != ""
    ensures Rest(url, k + 1) == Rest(url, k)[1..][Slash(Rest(url, k)[1..])..]
    decreases k
  {
    if k > 0 && url != "" { RestNext(url[1..][Slash(url[1..])..], k - 1); }
  }

  /** Segment i, if there is one, is the next piece of what is left of the URL. */
  lemma SegmentAt(url: string, i: nat)
    requires i <= |Segments(url)|
    ensures i == |Segments(url)| <==> Rest(url, i) == "" || i >= MAX_URL_SEGMENTS
    ensures i < |Segments(url)| ==>
              var u := Rest(url, i)[1..]; Segments(url)[i] == u[..Slash(u)] && Rest(url, i + 1) == u[Slash(u)..]
  {
    SplitRest(url, MAX_URL_SEGMENTS, i);
    if i < |Segments(url)| { SplitNext(Rest(url, i), MAX_URL_SEGMENTS - i); }
    if Rest(url, i) != "" { RestNext(url, i); }
  }

  // ---- Trying handlers until one accepts -----------------------------------------------------------------

  predicate Accepted<H>(tries: seq<Try<H>>, accept: (H, seq<string>) -> bool) {
    tries != [] && (accept(tries[0].handler, tries[0].params) || Accepted(tries[1..], accept))
  }

  /** The tries up to the first that is accepted. */
  function UpTo<H>(tries: seq<Try<H>>, accept: (H, seq<string>) -> bool): seq<Try<H>> {
    if tries == [] then []
    else if accept(tries[0].handler, tries[0].params) then [tries[0]]
    else [tries[0]] + UpTo(tries[1..], accept)
  }

  lemma {:induction false} AcceptedBoth<H>(a: seq<Try<H>>, b: seq<Try<H>>, accept: (H, seq<string>) -> bool)
    ensures Accepted(a + b, accept) <==> Accepted(a, accept) || Accepted(b, accept)
  {
    if a == [] {
      assert a + b == b;
    } else {
      AcceptedBoth(a[1..], b, accept);
      assert (a + b)[1..] == a[1..] + b;
    }
  }

  lemma {:induction false} UpToBoth<H>(a: seq<Try<H>>, b: seq<Try<H>>, accept: (H, seq<string>) -> bool)
    ensures UpTo(a + b, accept) == if Accepted(a, accept) then UpTo(a, accept) else a + UpTo(b, accept)
  {
    if a == [] {
      assert a + b == b;
      assert [] + UpTo(b, accept) == UpTo(b, accept);
    } else if !accept(a[0].handler, a[0].params) {
      UpToBoth(a[1..], b, accept);
      assert (a + b)[1..] == a[1..] + b;
      var later := UpTo(a[1..] + b, accept);
      if !Accepted(a[1..], accept) { assert [a[0]] + (a[1..] + UpTo(b, accept)) == a + UpTo(b, accept); }
    }
  }

  /** What trying the handlers of some visits comes to. */
  ghost predicate Outcome<H>(visits: seq<Visit>, handlers: seq<H>, accept: (H, seq<string>) -> bool, accepted: bool, tried: seq<Try<H>>)
    requires InRange(visits, handlers)
  { accepted == Accepted(Tries(visits, handlers), accept) && tried == UpTo(Tries(visits, handlers), accept) }

  lemma {:induction false} UpToAll<H>(tries: seq<Try<H>>, accept: (H, seq<string>) -> bool)
    requires !Accepted(tries, accept)
    ensures UpTo(tries, accept) == tries
  {
    if tries != [] { UpToAll(tries[1..], accept); }
  }

  /** Nothing accepted so far, then some more. */
  lemma OutcomeOn<H>(a: seq<Visit>, b: seq<Visit>, handlers: seq<H>, accept: (H, seq<string>) -> bool,
                     tried: seq<Try<H>>, accepted: bool, more: seq<Try<H>>)
    requires InRange(a, handlers) && InRange(b, handlers)
    requires Outcome(a, handlers, accept, false, tried) && Outcome(b, handlers, accept, accepted, more)
    ensures InRange(a + b, handlers) && Outcome(a + b, handlers, accept, accepted, tried + more)
  {
    TriesBoth(a, b, handlers);
    AcceptedBoth(Tries(a, handlers), Tries(b, handlers), accept);
    UpToBoth(Tries(a, handlers), Tries(b, handlers), accept);
    UpToAll(Tries(a, handlers), accept);
  }

  /** Once a handler has accepted, the later visits are not made. */
  lemma OutcomeDone<H>(a: seq<Visit>, b: seq<Visit>, handlers: seq<H>, accept: (H, seq<string>) -> bool, tried: seq<Try<H>>)
    requires InRange(a, handlers) && InRange(b, handlers) && Outcome(a, handlers, accept, true, tried)
    ensures InRange(a + b, handlers) && Outcome(a + b, handlers, accept, true, tried)
  {
    TriesBoth(a, b, handlers);
    AcceptedBoth(Tries(a, handlers), Tries(b, handlers), accept);
    UpToBoth(Tries(a, handlers), Tries(b, handlers), accept);
  }

  lemma {:induction false} TriesUnder<H>(tag: Label, visits: seq<Visit>, handlers: seq<H>)
    requires InRange(Under(tag, visits), handlers)
    ensures InRange(visits, handlers) && Tries(Under(tag, visits), handlers) == Tries(visits, handlers)
  {
    UnderIs(tag, visits);
    if visits != [] {
      assert forall i :: 0 <= i < |visits| ==> Under(tag, visits)[i].id == visits[i].id;
      assert Under(tag, visits)[1..] == Under(tag, visits[1..]);
      TriesUnder(tag, visits[1..], handlers);
    }
  }

  // ---- The router --------------------------------------------------------------------------------------------

  class HttpRouter<H> {
    /** root.children. */
    var methods: seq<Node>
    var handlers: seq<H>
    var currentUrl: string
    const urlSegmentVector: array<string>
    var urlSegmentTop: int
    const params: array<string>
    var paramsTop: int
    /** The priority each handler was registered with; the URL set last, and its segments. */
    ghost var prios: seq<nat>
    ghost var url: string
    ghost var segments: seq<string>

    ghost function Value(): Routes<H>
      reads this
    { Routes(methods, handlers) }

    ghost predicate Shape() {
      urlSegmentVector.Length == MAX_URL_SEGMENTS && params.Length == MAX_URL_SEGMENTS && params != urlSegmentVector
    }

    /** Ids are in range and sorted, siblings in order; the URL cache holds the first segments of the URL. */
    ghost predicate Valid()
      reads this, urlSegmentVector
    { Shape() && RouteTable.Valid(Value(), prios) && UrlOk() }

    ghost predicate UrlOk()
      requires Shape()
      reads this`url, this`segments, this`currentUrl, this`urlSegmentTop, urlSegmentVector
    { -1 <= urlSegmentTop < |segments| <= MAX_URL_SEGMENTS && Cached() }

    /** The segments parsed so far are in the vector, the rest of the URL is still to be parsed. */
    ghost predicate Cached()
      requires Shape() && -1 <= urlSegmentTop < |segments| <= MAX_URL_SEGMENTS
      reads this`url, this`segments, this`currentUrl, this`urlSegmentTop, urlSegmentVector
    {
      && segments == Segments(url) && currentUrl == Rest(url, urlSegmentTop + 1)
      && (forall i :: 0 <= i <= urlSegmentTop ==> urlSegmentVector[i] == segments[i])
    }

    /** The parameters on the stack. */
    ghost function Stack(): seq<string>
      requires Shape() && -1 <= paramsTop < MAX_URL_SEGMENTS
      reads this, params
    { params[..paramsTop + 1] }

    constructor ()
      ensures Valid() && Value() == Empty() && fresh(urlSegmentVector) && fresh(params)
    {
      methods := [Node(MethodLabel(ANY), [], [])];
      handlers := [];
      currentUrl, urlSegmentTop, paramsTop := "", -1, -1;
      urlSegmentVector := new string[MAX_URL_SEGMENTS](_ => "");
      params := new string[MAX_URL_SEGMENTS](_ => "");
      prios, url, segments := [], "", [];
      new;
      EmptyOk<H>();
    }

    method SetUrl(u: string)
      requires Shape()
      modifies this`currentUrl, this`urlSegmentTop, this`url, this`segments
      ensures UrlOk() && url == u && segments == Segments(u) && urlSegmentTop == -1
    {
      currentUrl := u;
      urlSegmentTop := -1;
      url, segments := u, Segments(u);
      SplitLimit(u, MAX_URL_SEGMENTS);
    }

    /** Segment i of the URL, parsed when first asked for. */
    method GetUrlSegment(i: nat) returns (segment: string, stop: bool)
      requires Shape() && UrlOk() && i <= urlSegmentTop + 1
      modifies this`currentUrl, this`urlSegmentTop, urlSegmentVector
      ensures UrlOk() && stop == (i >= |segments|)
      ensures !stop ==> segment == segments[i] && urlSegmentTop >= i
      ensures urlSegmentTop >= old(urlSegmentTop)
    {
      hide Segments, Rest, Slash;
      if i > urlSegmentTop {
        SegmentAt(url, i);
        if currentUrl == "" || i > MAX_URL_SEGMENTS - 1 {
          return "", true;
        }
        currentUrl := currentUrl[1..];
        var n := FindSlash(currentUrl);
        urlSegmentVector[i] := currentUrl[..n];
        urlSegmentTop := urlSegmentTop + 1;
        currentUrl := currentUrl[n..];
      }
      return urlSegmentVector[i], false;
    }

    /** The handlers of one node, until one accepts. */
    method RunHandlers(ids: seq<nat>, accept: (H, seq<string>) -> bool) returns (accepted: bool, tried: seq<Try<H>>)
      requires Shape() && -1 <= paramsTop < MAX_URL_SEGMENTS && InRange(At(ids, Stack()), handlers)
      ensures Outcome(At(ids, Stack()), handlers, accept, accepted, tried)
    {
      tried := [];
      for k := 0 to |ids|
        invariant InRange(At(ids[..k], Stack()), handlers) && Outcome(At(ids[..k], Stack()), handlers, accept, false, tried)
      {
        AtNext(ids, k, Stack(), handlers);
        var try := Try(handlers[Index(ids[k])], params[..paramsTop + 1]);
        accepted := accept(try.handler, try.params);
        OneMore(ids, k, Stack(), handlers, accept, tried, accepted);
        tried := tried + [try];
        if accepted {
          return;
        }
      }
      assert ids[..|ids|] == ids;
      accepted := false;
    }

    /** Everything below parent from segment i on, until a handler accepts; the parameter stack is as before if none
        does. */
    method ExecuteHandlers(parent: Node, i: nat, accept: (H, seq<string>) -> bool) returns (accepted: bool, tried: seq<Try<H>>)
      requires Shape() && UrlOk() && i <= urlSegmentTop + 1 && -1 <= paramsTop < i
      requires InRange(Visits(parent, segments[i..], Stack()), handlers)
      modifies this`currentUrl, this`urlSegmentTop, urlSegmentVector, this`paramsTop, params
      ensures UrlOk() && urlSegmentTop >= old(urlSegmentTop) && -1 <= paramsTop < MAX_URL_SEGMENTS
      ensures Outcome(Visits(parent, segments[i..], old(Stack())), handlers, accept, accepted, tried)
      ensures !accepted ==> paramsTop == old(paramsTop) && Stack() == old(Stack())
      decreases |segments| - i, 2
    {
      hide Visits, At, Cached, InRange, Outcome;
      var segment, stop := GetUrlSegment(i);
      if stop {
        VisitsEnd(parent, segments[i..], Stack());
        accepted, tried := RunHandlers(parent.handlers, accept);
        return;
      }
      accepted, tried := ExecuteBelow(parent, i, segment, accept);
    }

    /** The children of parent, each from segment i on, until a handler accepts. */
    method ExecuteBelow(parent: Node, i: nat, segment: string, accept: (H, seq<string>) -> bool) returns (accepted: bool, tried: seq<Try<H>>)
      requires Shape() && UrlOk() && i <= urlSegmentTop && i < |segments| && segment == segments[i] && -1 <= paramsTop < i
      requires InRange(Visits(parent, segments[i..], Stack()), handlers)
      modifies this`currentUrl, this`urlSegmentTop, urlSegmentVector, this`paramsTop, params
      ensures UrlOk() && urlSegmentTop >= old(urlSegmentTop) && -1 <= paramsTop < MAX_URL_SEGMENTS
      ensures Outcome(Visits(parent, segments[i..], old(Stack())), handlers, accept, accepted, tried)
      ensures !accepted ==> paramsTop == old(paramsTop) && Stack() == old(Stack())
      decreases |segments| - i, 1
    {
      hide Visits, VisitsBelow, VisitsChild, Outcome, Cached, InRange;
      ghost var rest, stack := segments[i..], Stack();
      tried := [];
      NothingBelow(rest, stack, handlers, accept);
      ghost var children := parent.children;
      for k := 0 to |parent.children|
        invariant UrlOk() && i <= urlSegmentTop && urlSegmentTop >= old(urlSegmentTop) && paramsTop == old(paramsTop) && Stack() == stack
        invariant InRange(VisitsBelow(children[..k], rest, stack), handlers)
        invariant Outcome(VisitsBelow(children[..k], rest, stack), handlers, accept, false, tried)
      {
        BelowInRange(parent, k, rest, stack, handlers);
        var more;
        accepted, more := ExecuteChild(parent.children[k], i, segment, accept);
        BelowOn(parent, k, rest, stack, handlers, accept, tried, accepted, more);
        tried := tried + more;
        if accepted {
          return;
        }
      }
      AllBelow(parent, rest, stack);
      accepted := false;
    }

    method ExecuteChild(p: Node, i: nat, segment: string, accept: (H, seq<string>) -> bool) returns (accepted: bool, tried: seq<Try<H>>)
      requires Shape() && UrlOk() && i <= urlSegmentTop && i < |segments| && segment == segments[i] && -1 <= paramsTop < i
      requires InRange(VisitsChild(p, segments[i..], Stack()), handlers)
      modifies this`currentUrl, this`urlSegmentTop, urlSegmentVector, this`paramsTop, params
      ensures UrlOk() && urlSegmentTop >= old(urlSegmentTop) && -1 <= paramsTop < MAX_URL_SEGMENTS
      ensures Outcome(VisitsChild(p, segments[i..], old(Stack())), handlers, accept, accepted, tried)
      ensures !accepted ==> paramsTop == old(paramsTop) && Stack() == old(Stack())
      decreases |segments| - i, 0
    {
      hide Visits, VisitsChild, At, Cached, InRange, Outcome, Inner;
      ghost var rest, stack := segments[i..], Stack();
      var name := p.tag.name;
      ChildInRange(p, rest, stack, handlers);
      InnerIs(p, segments, i, stack);
      if IsWildcard(name) {
        accepted, tried := RunHandlers(p.handlers, accept);
        ChildOutcome(p, rest, stack, handlers, accept, accepted, tried);
        return;
      }
      if IsParameter(name) && segment != "" {
        accepted, tried := ExecuteParameter(p, i, segment, accept);
        ChildOutcome(p, rest, stack, handlers, accept, accepted, tried);
        return;
      }
      if name == segment {
        accepted, tried := ExecuteHandlers(p, i + 1, accept);
        ChildOutcome(p, rest, stack, handlers, accept, accepted, tried);
        return;
      }
      NothingTried(handlers, accept);
      ChildOutcome(p, rest, stack, handlers, accept, false, []);
      return false, [];
    }

    /** The node of a parameter, with the segment on the parameter stack. */
    method ExecuteParameter(p: Node, i: nat, segment: string, accept: (H, seq<string>) -> bool)
      returns (accepted: bool, tried: seq<Try<H>>)
      requires Shape() && UrlOk() && i <= urlSegmentTop && i < |segments| && -1 <= paramsTop < i
      requires InRange(Visits(p, segments[i + 1..], Stack() + [segment]), handlers)
      modifies this`currentUrl, this`urlSegmentTop, urlSegmentVector, this`paramsTop, params
      ensures UrlOk() && urlSegmentTop >= old(urlSegmentTop) && -1 <= paramsTop < MAX_URL_SEGMENTS
      ensures Outcome(Visits(p, segments[i + 1..], old(Stack()) + [segment]), handlers, accept, accepted, tried)
      ensures !accepted ==> paramsTop == old(paramsTop) && Stack() == old(Stack())
      decreases |segments| - i - 1, 3
    {
      hide Visits, Outcome, Cached, InRange;
      paramsTop := paramsTop + 1;
      params[paramsTop] := segment;
      assert Stack() == old(Stack()) + [segment];
      accepted, tried := ExecuteHandlers(p, i + 1, accept);
      if !accepted {
        assert params[..paramsTop] == Stack()[..paramsTop];
        paramsTop := paramsTop - 1;
      }
    }

    /** The method's node, if there is one. */
    method FindMethod(verb: string) returns (found: Option<nat>)
      requires forall i :: 0 <= i < |methods| ==> !methods[i].tag.high
      ensures found == Find(methods, MethodLabel(verb))
    {
      found := FindChild(methods, MethodLabel(verb));
    }

    /** The handlers of one method that match the URL. */
    method RouteMethod(verb: string, accept: (H, seq<string>) -> bool) returns (accepted: bool, tried: seq<Try<H>>)
      requires Shape() && UrlOk() && paramsTop == -1 && forall i :: 0 <= i < |methods| ==> !methods[i].tag.high
      requires InRange(MethodVisits(methods, verb, url), handlers)
      modifies this`currentUrl, this`urlSegmentTop, urlSegmentVector, this`paramsTop, params
      ensures UrlOk() && (!accepted ==> paramsTop == -1)
      ensures Outcome(MethodVisits(methods, verb, url), handlers, accept, accepted, tried)
    {
      assert segments[0..] == segments && Stack() == [];
      hide Outcome, Visits, Segments, Cached, InRange;
      var found := FindMethod(verb);
      accepted, tried := false, [];
      if found.Some? {
        accepted, tried := ExecuteHandlers(methods[found.value], 0, accept);
      }
      MethodOutcome(methods, verb, url, handlers, accept, accepted, tried);
    }

    /** The handlers of the last method that match the URL. */
    method RouteLast(accept: (H, seq<string>) -> bool) returns (accepted: bool, tried: seq<Try<H>>)
      requires Shape() && UrlOk() && paramsTop == -1 && methods != []
      requires InRange(Visits(methods[|methods| - 1], segments, []), handlers)
      modifies this`currentUrl, this`urlSegmentTop, urlSegmentVector, this`paramsTop, params
      ensures UrlOk() && Outcome(Visits(methods[|methods| - 1], segments, []), handlers, accept, accepted, tried)
    {
      assert segments[0..] == segments && Stack() == [];
      hide Outcome, Visits, Segments, Cached, InRange;
      accepted, tried := ExecuteHandlers(methods[|methods| - 1], 0, accept);
    }

    /** Tries the handlers of the request's method that match the URL, then those of the last method. */
    method Route(verb: string, u: string, accept: (H, seq<string>) -> bool) returns (accepted: bool, tried: seq<Try<H>>)
      requires Valid() && methods != []
      modifies this`currentUrl, this`urlSegmentTop, this`url, this`segments, urlSegmentVector, this`paramsTop, params
      ensures Valid() && InRange(RouteVisits(methods, verb, u), handlers)
      ensures Outcome(RouteVisits(methods, verb, u), handlers, accept, accepted, tried)
    {
      hide Outcome, Visits, Segments, RouteTable.Valid, MethodVisits, RouteVisits, Cached, InRange;
      RouteInRange(Value(), prios, verb, u);
      SetUrl(u);
      paramsTop := -1;
      accepted, tried := RouteBoth(verb, accept);
    }

    method RouteBoth(verb: string, accept: (H, seq<string>) -> bool) returns (accepted: bool, tried: seq<Try<H>>)
      requires Shape() && UrlOk() && paramsTop == -1 && methods != [] && segments == Segments(url)
      requires forall i :: 0 <= i < |methods| ==> !methods[i].tag.high
      requires InRange(MethodVisits(methods, verb, url), handlers) && InRange(Visits(methods[|methods| - 1], segments, []), handlers)
      modifies this`currentUrl, this`urlSegmentTop, urlSegmentVector, this`paramsTop, params
      ensures UrlOk() && InRange(RouteVisits(methods, verb, url), handlers)
      ensures Outcome(RouteVisits(methods, verb, url), handlers, accept, accepted, tried)
    {
      ghost var visits, last := MethodVisits(methods, verb, url), Visits(methods[|methods| - 1], segments, []);
      assert RouteVisits(methods, verb, url) == visits + last;
      hide Outcome, Visits, Segments, RouteTable.Valid, MethodVisits, RouteVisits, Cached, InRange;
      accepted, tried := RouteMethod(verb, accept);
      if accepted {
        OutcomeDone(visits, last, handlers, accept, tried);
      } else {
        var more;
        accepted, more := RouteLast(accept);
        OutcomeOn(visits, last, handlers, accept, tried, accepted, more);
        tried := tried + more;
      }
    }

    /** The node a pattern leads to. */
    method WalkTo(start: Node, pattern: string, priority: nat) returns (n: Option<Node>)
      requires Shape()
      modifies this`currentUrl, this`urlSegmentTop, this`url, this`segments, urlSegmentVector
      ensures UrlOk() && n == Walk(start, RawPath(pattern, priority))
    {
      SetUrl(pattern);
      ghost var path := RawPath(pattern, priority);
      assert path[0..] == path;
      hide Segments, Rest, RawPath;
      var node, i := start, 0;
      var segment, stop := GetUrlSegment(0);
      while !stop
        invariant Shape() && UrlOk() && url == pattern && i <= urlSegmentTop + 1 && i <= |path|
        invariant stop == (i >= |path|) && (!stop ==> path[i] == Label(segment, priority == HIGH_PRIORITY) && i <= urlSegmentTop)
        invariant Walk(start, path) == Walk(node, path[i..])
        decreases |path| - i
      {
        assert path[i..][1..] == path[i + 1..];
        var child := FindChild(node.children, Label(segment, priority == HIGH_PRIORITY));
        if child == None {
          return None;
        }
        node := node.children[child.value];
        i := i + 1;
        segment, stop := GetUrlSegment(i);
      }
      return Some(node);
    }

    /** The id of the handler registered for a method, pattern and priority. */
    method FindHandler(verb: string, pattern: string, priority: nat) returns (id: Option<nat>)
      requires Valid()
      modifies this`currentUrl, this`urlSegmentTop, this`url, this`segments, urlSegmentVector
      ensures Valid() && id == RouteTable.FindHandler(methods, verb, pattern, priority)
    {
      var found := FindMethod(verb);
      if found == None {
        return None;
      }
      var n := WalkTo(methods[found.value], pattern, priority);
      if n == None {
        return None;
      }
      id := FirstWithPriority(n.value.handlers, priority);
    }

    /** Removes every route that has the handler found for a method, pattern and priority. */
    method Remove(verb: string, pattern: string, priority: nat)
      requires Valid()
      modifies this, urlSegmentVector
      ensures Valid() && Value() == RouteTable.Remove(old(Value()), verb, pattern, priority)
      ensures prios == PriosAfter(old(Value()), old(prios), verb, pattern, priority)
    {
      var id := FindHandler(verb, pattern, priority);
      RemoveValid(Value(), prios, verb, pattern, priority);
      FoundInRange(Value(), prios, verb, pattern, priority);
      if id.Some? {
        methods := CullBelow(Root(methods), 0, id.value);
        handlers := Removed(handlers, Index(id.value));
        prios := Removed(prios, Index(id.value));
      }
    }

    /** Parses a pattern to its end; all its segments are in the cache then. */
    method AllSegments(pattern: string) returns (all: seq<string>)
      requires Shape()
      modifies this`currentUrl, this`urlSegmentTop, this`url, this`segments, urlSegmentVector
      ensures UrlOk() && all == Segments(pattern)
    {
      SetUrl(pattern);
      hide Segments, Rest, Slash;
      var n := 0;
      var segment, stop := GetUrlSegment(0);
      while !stop
        invariant UrlOk() && segments == Segments(pattern) && n <= |segments| && stop == (n == |segments|)
        invariant n <= urlSegmentTop + 1 && (!stop ==> n <= urlSegmentTop)
        decreases |segments| - n
      {
        n := n + 1;
        segment, stop := GetUrlSegment(n);
      }
      all := urlSegmentVector[..n];
    }

    /** Enters the next handler id under each method.  The pattern is parsed once; parsing it again for each method
        comes to the same. */
    method Enter(verbs: seq<string>, pattern: string, priority: nat)
      requires Shape()
      modifies this`methods, this`currentUrl, this`urlSegmentTop, this`url, this`segments, urlSegmentVector
      ensures UrlOk() && methods == InsertMethods(old(methods), verbs, PathOf(pattern, priority), priority + |handlers|)
    {
      hide InsertMethods, Cached, Segments, Labels, StrippedAll;
      var all := AllSegments(pattern);
      var path := StrippedPath(all, priority == HIGH_PRIORITY);
      methods := InsertUnder(methods, verbs, path, priority + |handlers|);
    }

    method Finish(handler: H, priority: nat)
      requires Shape() && UrlOk()
      modifies this`methods, this`handlers, this`prios
      ensures UrlOk() && Value() == Routes(SortMethods(old(methods)), old(handlers) + [handler]) && prios == old(prios) + [priority]
    {
      hide Cached, SortMethods;
      methods := SortMethods(methods);
      handlers := handlers + [handler];
      prios := prios + [priority];
    }

    /** Registers a handler for a pattern and priority under some methods. */
    method Add(verbs: seq<string>, pattern: string, handler: H, priority: nat)
      requires Valid() && |handlers| < MAX_HANDLERS && Plain(Registration(verbs, pattern, handler, priority))
      modifies this, urlSegmentVector
      ensures Valid() && Value() == RouteTable.Add(old(Value()), Registration(verbs, pattern, handler, priority))
    {
      var g := Registration(verbs, pattern, handler, priority);
      AddValid(Value(), prios, g);
      Register(g);
    }

    method Register(g: Registration<H>)
      requires Valid() && g.methods != []
      modifies this, urlSegmentVector
      ensures Shape() && UrlOk() && Value() == RouteTable.Add(old(Value()), g)
      ensures prios == PriosAfter(old(Value()), old(prios), g.methods[0], g.pattern, g.priority) + [g.priority]
    {
      Remove(g.methods[0], g.pattern, g.priority);
      hide RouteTable.Valid, RouteTable.Remove, InsertMethods, SortMethods, PathOf, PriosAfter, Cached;
      Enter(g.methods, g.pattern, g.priority);
      Finish(g.handler, g.priority);
    }
  }

  /** The path of a pattern, its parameters without their names. */
  method StrippedPath(segments: seq<string>, high: bool) returns (path: seq<Label>)
    ensures path == Labels(StrippedAll(segments), high)
  {
    path := [];
    for i := 0 to |segments|
      invariant |path| == i && forall k :: 0 <= k < i ==> path[k] == Label(Stripped(segments[k]), high)
    {
      path := path + [Label(if IsParameter(segments[i]) then ":" else segments[i], high)];
    }
  }

  method InsertUnder(methods: seq<Node>, verbs: seq<string>, path: seq<Label>, id: nat) returns (inserted: seq<Node>)
    ensures inserted == InsertMethods(methods, verbs, path, id)
  {
    InsertNone(methods, verbs, path, id);
    hide InsertMethods;
    inserted := methods;
    for k := 0 to |verbs|
      invariant InsertMethods(methods, verbs, path, id) == InsertMethods(inserted, verbs[k..], path, id)
    {
      InsertNext(inserted, verbs, k, path, id);
      inserted := InsertMethod(inserted, verbs[k], path, id);
    }
    InsertOver(inserted, verbs, path, id);
  }

  lemma FoundInRange<H>(r: Routes<H>, prios: seq<nat>, verb: string, pattern: string, priority: nat)
    requires RouteTable.Valid(r, prios)
    ensures var id := RouteTable.FindHandler(r.methods, verb, pattern, priority); id.Some? ==> Index(id.value) < |r.handlers|
  {
    FindHandlerExactly(r.methods, verb, pattern, priority, prios);
    if id :| RouteTable.FindHandler(r.methods, verb, pattern, priority) == Some(id) {
      RouteIsGood(r.methods, prios, verb, RawPath(pattern, priority), id);
    }
  }

  lemma InsertNone(methods: seq<Node>, verbs: seq<string>, path: seq<Label>, id: nat)
    ensures InsertMethods(methods, verbs[0..], path, id) == InsertMethods(methods, verbs, path, id)
  {
    assert verbs[0..] == verbs;
  }

  lemma InsertNext(methods: seq<Node>, verbs: seq<string>, k: nat, path: seq<Label>, id: nat)
    requires k < |verbs|
    ensures InsertMethods(methods, verbs[k..], path, id) == InsertMethods(InsertMethod(methods, verbs[k], path, id), verbs[k + 1..], path, id)
  {
    assert verbs[k..][1..] == verbs[k + 1..];
  }

  lemma InsertOver(methods: seq<Node>, verbs: seq<string>, path: seq<Label>, id: nat)
    ensures InsertMethods(methods, verbs[|verbs|..], path, id) == methods
  {
  }

  lemma RouteInRange<H>(r: Routes<H>, prios: seq<nat>, verb: string, u: string)
    requires RouteTable.Valid(r, prios) && r.methods != []
    ensures InRange(MethodVisits(r.methods, verb, u), r.handlers) && InRange(Visits(r.methods[|r.methods| - 1], Segments(u), []), r.handlers)
    ensures InRange(RouteVisits(r.methods, verb, u), r.handlers)
    ensures forall i :: 0 <= i < |r.methods| ==> !r.methods[i].tag.high
  {
    VisitsInRange(r, prios, verb, u);
    LastInRange(r, prios, u);
    hide InRange, Visits;
    BothInRange(MethodVisits(r.methods, verb, u), Visits(r.methods[|r.methods| - 1], Segments(u), []), r.handlers);
  }

  lemma BothInRange<H>(a: seq<Visit>, b: seq<Visit>, handlers: seq<H>)
    requires InRange(a, handlers) && InRange(b, handlers)
    ensures InRange(a + b, handlers)
  {
  }

  lemma LastInRange<H>(r: Routes<H>, prios: seq<nat>, u: string)
    requires RouteTable.Valid(r, prios) && r.methods != []
    ensures InRange(Visits(r.methods[|r.methods| - 1], Segments(u), []), r.handlers)
  {
    var last := r.methods[|r.methods| - 1];
    VisitsInRange(r, prios, last.tag.name, u);
    FoundIs(r.methods, |r.methods| - 1);
    assert last.tag == MethodLabel(last.tag.name);
    hide Visits, InRange;
  }

  lemma MethodOutcome<H>(methods: seq<Node>, verb: string, u: string, handlers: seq<H>, accept: (H, seq<string>) -> bool,
                         accepted: bool, tried: seq<Try<H>>)
    requires InRange(MethodVisits(methods, verb, u), handlers)
    requires match Find(methods, MethodLabel(verb))
             case Some(i) => Outcome(Visits(methods[i], Segments(u), []), handlers, accept, accepted, tried)
             case None => !accepted && tried == []
    ensures Outcome(MethodVisits(methods, verb, u), handlers, accept, accepted, tried)
  {
  }

  method FindChild(children: seq<Node>, tag: Label) returns (found: Option<nat>)
    ensures found == Find(children, tag)
  {
    var i := 0;
    assert children[0..] == children;
    while i < |children|
      invariant i <= |children| && (forall j :: 0 <= j < i ==> children[j].tag != tag)
      invariant Find(children, tag) == match Find(children[i..], tag) case None => None case Some(k) => Some(k + i)
    {
      assert children[i..][1..] == children[i + 1..];
      if children[i].tag == tag {
        return Some(i);
      }
      i := i + 1;
    }
    found := None;
  }

  method FirstWithPriority(ids: seq<nat>, priority: nat) returns (id: Option<nat>)
    ensures id == WithPriority(ids, priority)
  {
    assert ids[0..] == ids;
    for i := 0 to |ids|
      invariant WithPriority(ids, priority) == WithPriority(ids[i..], priority)
    {
      assert ids[i..][1..] == ids[i + 1..];
      if Priority(ids[i]) == priority {
        return Some(ids[i]);
      }
    }
    id := None;
  }

  lemma AtNext<H>(ids: seq<nat>, k: nat, stack: seq<string>, handlers: seq<H>)
    requires k < |ids| && InRange(At(ids, stack), handlers)
    ensures Index(ids[k]) < |handlers|
  {
    AtIs(ids, stack);
    assert At(ids, stack)[k].id == ids[k];
  }

  lemma {:induction false} AtAppend(ids: seq<nat>, id: nat, stack: seq<string>)
    ensures At(ids + [id], stack) == At(ids, stack) + [Visit([], id, stack)]
  {
    if ids == [] {
      assert ids + [id] == [id];
      assert At([id], stack) == [Visit([], id, stack)] + At([], stack);
    } else {
      AtAppend(ids[1..], id, stack);
      assert (ids + [id])[1..] == ids[1..] + [id];
    }
  }

  lemma OneTry<H>(t: Try<H>, accept: (H, seq<string>) -> bool)
    ensures Accepted([t], accept) == accept(t.handler, t.params) && UpTo([t], accept) == [t]
  {
    var ts := [t];
    assert ts[0] == t && ts[1..] == [];
    assert !Accepted(ts[1..], accept) && UpTo(ts[1..], accept) == [];
  }

  lemma OneMore<H>(ids: seq<nat>, k: nat, stack: seq<string>, handlers: seq<H>, accept: (H, seq<string>) -> bool,
                   tried: seq<Try<H>>, accepted: bool)
    requires k < |ids| && InRange(At(ids, stack), handlers) && Index(ids[k]) < |handlers|
    requires InRange(At(ids[..k], stack), handlers) && Outcome(At(ids[..k], stack), handlers, accept, false, tried)
    requires accepted == accept(handlers[Index(ids[k])], stack)
    ensures InRange(At(ids[..k + 1], stack), handlers)
    ensures Outcome(At(ids[..k + 1], stack), handlers, accept, accepted, tried + [Try(handlers[Index(ids[k])], stack)])
    ensures accepted ==> Outcome(At(ids, stack), handlers, accept, true, tried + [Try(handlers[Index(ids[k])], stack)])
  {
    var one, try := [Visit([], ids[k], stack)], Try(handlers[Index(ids[k])], stack);
    assert ids[..k + 1] == ids[..k] + [ids[k]];
    AtAppend(ids[..k], ids[k], stack);
    assert Tries(one, handlers) == [try] by { assert one[1..] == []; }
    OneTry(try, accept);
    OutcomeOn(At(ids[..k], stack), one, handlers, accept, tried, accepted, [try]);
    if accepted {
      assert ids == ids[..k + 1] + ids[k + 1..];
      AtBoth(ids[..k + 1], ids[k + 1..], stack);
      RestInRange(At(ids[..k + 1], stack), At(ids[k + 1..], stack), handlers);
      OutcomeDone(At(ids[..k + 1], stack), At(ids[k + 1..], stack), handlers, accept, tried + [try]);
    }
  }

  lemma {:induction false} AtBoth(a: seq<nat>, b: seq<nat>, stack: seq<string>)
    ensures At(a + b, stack) == At(a, stack) + At(b, stack)
  {
    if a == [] {
      assert a + b == b;
    } else {
      AtBoth(a[1..], b, stack);
      assert (a + b)[1..] == a[1..] + b;
    }
  }

  lemma RestInRange<H>(a: seq<Visit>, b: seq<Visit>, handlers: seq<H>)
    requires InRange(a + b, handlers)
    ensures InRange(a, handlers) && InRange(b, handlers)
  {
    assert forall i :: 0 <= i < |a| ==> (a + b)[i] == a[i];
    assert forall i :: 0 <= i < |b| ==> (a + b)[|a| + i] == b[i];
  }

  lemma {:induction false} BelowBoth(a: seq<Node>, b: seq<Node>, rest: seq<string>, stack: seq<string>)
    requires rest != []
    ensures VisitsBelow(a + b, rest, stack) == VisitsBelow(a, rest, stack) + VisitsBelow(b, rest, stack)
  {
    hide VisitsChild;
    if a == [] {
      assert a + b == b;
    } else {
      BelowBoth(a[1..], b, rest, stack);
      assert (a + b)[1..] == a[1..] + b && (a + b)[0] == a[0];
    }
  }

  /** The visits of a node's children, split around child k. */
  lemma BelowAround(parent: Node, k: nat, rest: seq<string>, stack: seq<string>)
    requires k < |parent.children| && rest != []
    ensures var cs := parent.children;
      && VisitsBelow(cs[..k + 1], rest, stack) == VisitsBelow(cs[..k], rest, stack) + VisitsChild(cs[k], rest, stack)
      && Visits(parent, rest, stack) == VisitsBelow(cs[..k + 1], rest, stack) + VisitsBelow(cs[k + 1..], rest, stack)
  {
    var cs := parent.children;
    assert cs[..k + 1] == cs[..k] + [cs[k]] && cs == cs[..k + 1] + cs[k + 1..];
    BelowBoth(cs[..k], [cs[k]], rest, stack);
    BelowBoth(cs[..k + 1], cs[k + 1..], rest, stack);
    assert VisitsBelow([cs[k]], rest, stack) == VisitsChild(cs[k], rest, stack) + VisitsBelow([], rest, stack);
  }

  lemma BelowInRange<H>(parent: Node, k: nat, rest: seq<string>, stack: seq<string>, handlers: seq<H>)
    requires k < |parent.children| && rest != [] && InRange(Visits(parent, rest, stack), handlers)
    ensures InRange(VisitsChild(parent.children[k], rest, stack), handlers)
    ensures InRange(VisitsBelow(parent.children[..k], rest, stack), handlers)
    ensures InRange(VisitsBelow(parent.children[..k + 1], rest, stack), handlers)
    ensures InRange(VisitsBelow(parent.children[k + 1..], rest, stack), handlers)
  {
    var cs := parent.children;
    BelowAround(parent, k, rest, stack);
    RestInRange(VisitsBelow(cs[..k + 1], rest, stack), VisitsBelow(cs[k + 1..], rest, stack), handlers);
    RestInRange(VisitsBelow(cs[..k], rest, stack), VisitsChild(cs[k], rest, stack), handlers);
  }

  lemma NothingBelow<H>(rest: seq<string>, stack: seq<string>, handlers: seq<H>, accept: (H, seq<string>) -> bool)
    requires rest != []
    ensures InRange(VisitsBelow([], rest, stack), handlers) && Outcome(VisitsBelow([], rest, stack), handlers, accept, false, [])
  {
  }

  lemma BelowOn<H>(parent: Node, k: nat, rest: seq<string>, stack: seq<string>, handlers: seq<H>, accept: (H, seq<string>) -> bool,
                   tried: seq<Try<H>>, accepted: bool, more: seq<Try<H>>)
    requires k < |parent.children| && rest != [] && InRange(Visits(parent, rest, stack), handlers)
    requires InRange(VisitsBelow(parent.children[..k], rest, stack), handlers)
    requires InRange(VisitsChild(parent.children[k], rest, stack), handlers)
    requires Outcome(VisitsBelow(parent.children[..k], rest, stack), handlers, accept, false, tried)
    requires Outcome(VisitsChild(parent.children[k], rest, stack), handlers, accept, accepted, more)
    ensures InRange(VisitsBelow(parent.children[..k + 1], rest, stack), handlers)
    ensures Outcome(VisitsBelow(parent.children[..k + 1], rest, stack), handlers, accept, accepted, tried + more)
    ensures accepted ==> Outcome(Visits(parent, rest, stack), handlers, accept, true, tried + more)
  {
    hide Outcome;
    var cs := parent.children;
    BelowAround(parent, k, rest, stack);
    BelowInRange(parent, k, rest, stack, handlers);
    OutcomeOn(VisitsBelow(cs[..k], rest, stack), VisitsChild(cs[k], rest, stack), handlers, accept, tried, accepted, more);
    if accepted {
      OutcomeDone(VisitsBelow(cs[..k + 1], rest, stack), VisitsBelow(cs[k + 1..], rest, stack), handlers, accept, tried + more);
    }
  }

  lemma AllBelow(parent: Node, rest: seq<string>, stack: seq<string>)
    requires rest != []
    ensures Visits(parent, rest, stack) == VisitsBelow(parent.children[..|parent.children|], rest, stack)
  {
    assert parent.children[..|parent.children|] == parent.children;
  }

  /** What a child visits, before its label goes in front. */
  function Inner(p: Node, rest: seq<string>, stack: seq<string>): seq<Visit>
    requires rest != []
  {
    if IsWildcard(p.tag.name) then At(p.handlers, stack)
    else if IsParameter(p.tag.name) && rest[0] != "" then Visits(p, rest[1..], stack + [rest[0]])
    else if p.tag.name == rest[0] then Visits(p, rest[1..], stack)
    else []
  }

  lemma InnerIs(p: Node, segments: seq<string>, i: nat, stack: seq<string>)
    requires i < |segments|
    ensures Inner(p, segments[i..], stack) ==
            if IsWildcard(p.tag.name) then At(p.handlers, stack)
            else if IsParameter(p.tag.name) && segments[i] != "" then Visits(p, segments[i + 1..], stack + [segments[i]])
            else if p.tag.name == segments[i] then Visits(p, segments[i + 1..], stack)
            else []
  {
    hide Visits, At;
    assert segments[i..][1..] == segments[i + 1..];
  }

  lemma NothingTried<H>(handlers: seq<H>, accept: (H, seq<string>) -> bool)
    ensures InRange([], handlers) && Outcome([], handlers, accept, false, [])
  {
  }

  lemma VisitsEnd(p: Node, rest: seq<string>, stack: seq<string>)
    requires rest == []
    ensures Visits(p, rest, stack) == At(p.handlers, stack)
  {
  }

  lemma ChildInRange<H>(p: Node, rest: seq<string>, stack: seq<string>, handlers: seq<H>)
    requires rest != [] && InRange(VisitsChild(p, rest, stack), handlers)
    ensures InRange(Inner(p, rest, stack), handlers)
  {
    TriesUnder(p.tag, Inner(p, rest, stack), handlers);
  }

  lemma ChildOutcome<H>(p: Node, rest: seq<string>, stack: seq<string>, handlers: seq<H>, accept: (H, seq<string>) -> bool,
                        accepted: bool, tried: seq<Try<H>>)
    requires rest != [] && InRange(VisitsChild(p, rest, stack), handlers) && InRange(Inner(p, rest, stack), handlers)
    requires Outcome(Inner(p, rest, stack), handlers, accept, accepted, tried)
    ensures Outcome(VisitsChild(p, rest, stack), handlers, accept, accepted, tried)
  {
    TriesUnder(p.tag, Inner(p, rest, stack), handlers);
  }

  lemma {:induction false} SplitLimit(url: string, limit: nat)
    ensures |Split(url, limit)| <= limit
    decreases limit
  {
    if url != "" && limit > 0 { SplitLimit(url[1..][Slash(url[1..])..], limit - 1); }
  }

  /** std::string_view::find('/'), with the length for npos. */
  method FindSlash(s: string) returns (n: nat)
    ensures n == Slash(s)
  {
    n := 0;
    while n < |s| && s[n] != '/'
      invariant n <= |s| && Slash(s) == n + Slash(s[n..])
    {
      assert s[n..][1..] == s[n + 1..];
      n := n + 1;
    }
  }
}
