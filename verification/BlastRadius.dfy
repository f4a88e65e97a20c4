/**
  Blast radius (domains/topology/topology.go:139-188): a depth-first search with an
  explicit stack over the reversed call graph, proved to compute reachability.
 */
module BlastRadius {
  import opened Text
  import opened Topology

  datatype Node = Node(service: string)

  // ---------------------------------------------------------------- reachability

  /** A chain of calls: each service calls the next. */
  ghost predicate Chain(edges: seq<Edge>, p: seq<string>) {
    |p| >= 2 && forall i :: 0 <= i < |p| - 1 ==> Edge(p[i], p[i + 1]) in edges
  }

  /** `s` calls `f` directly or through others. */
  ghost predicate Reaches(edges: seq<Edge>, s: string, f: string) {
    exists p :: Chain(edges, p) && p[0] == s && p[|p| - 1] == f
  }

  lemma CallerReaches(edges: seq<Edge>, up: string, v: string, f: string)
    requires Edge(up, v) in edges && (v == f || Reaches(edges, v, f))
    ensures Reaches(edges, up, f)
  {
    if v == f {
      var p := [up, v];
      assert Chain(edges, p) && p[0] == up && p[|p| - 1] == f;
    } else {
      var q :| Chain(edges, q) && q[0] == v && q[|q| - 1] == f;
      var p := [up] + q;
      forall i | 0 <= i < |p| - 1 ensures Edge(p[i], p[i + 1]) in edges {
        if i > 0 { assert Edge(q[i - 1], q[i]) in edges; }
      }
      assert Chain(edges, p) && p[0] == up && p[|p| - 1] == f;
    }
  }

  /** A set that with the focus is closed under callers holds everything that reaches it. */
  ghost predicate ClosedUp(edges: seq<Edge>, seen: set<string>, f: string) {
    forall e :: e in edges && (e.callee == f || e.callee in seen) ==> e.caller == f || e.caller in seen
  }

  lemma {:induction false} ChainStaysIn(edges: seq<Edge>, seen: set<string>, f: string, p: seq<string>)
    requires ClosedUp(edges, seen, f) && Chain(edges, p) && p[|p| - 1] == f
    ensures p[0] == f || p[0] in seen
    decreases |p|
  {
    if |p| > 2 {
      var q := p[1..];
      assert Chain(edges, q) by {
        forall i | 0 <= i < |q| - 1 ensures Edge(q[i], q[i + 1]) in edges {
          assert Edge(p[i + 1], p[i + 2]) in edges;
        }
      }
      ChainStaysIn(edges, seen, f, q);
    }
    assert Edge(p[0], p[1]) in edges;
  }

  // ---------------------------------------------------------------- the callers index

  function CallersOf(edges: seq<Edge>, v: string): seq<string> {
    if edges == [] then []
    else
      var e := edges[|edges| - 1];
      CallersOf(edges[..|edges| - 1], v) + if e.callee == v then [e.caller] else []
  }

  lemma {:induction false} CallersOfIs(edges: seq<Edge>, v: string, u: string)
    ensures u in CallersOf(edges, v) <==> Edge(u, v) in edges
  {
    if edges != [] {
      var init, e := edges[..|edges| - 1], edges[|edges| - 1];
      assert edges == init + [e];
      CallersOfIs(init, v, u);
    }
  }

  function Index(m: map<string, seq<string>>, v: string): seq<string> { if v in m then m[v] else [] }

  method BuildCallers(edges: seq<Edge>) returns (callers: map<string, seq<string>>)
    ensures forall v :: Index(callers, v) == CallersOf(edges, v)
  {
    callers := map[];
    for i := 0 to |edges|
      invariant forall v :: Index(callers, v) == CallersOf(edges[..i], v)
    {
      var e := edges[i];
      assert edges[..i + 1][..i] == edges[..i];
      ghost var before := callers;
      callers := callers[e.callee := Index(callers, e.callee) + [e.caller]];
      forall v ensures Index(callers, v) == CallersOf(edges[..i + 1], v) {
        assert Index(before, v) == CallersOf(edges[..i], v);
        assert CallersOf(edges[..i], v) + [] == CallersOf(edges[..i], v);
      }
    }
    assert edges[..|edges|] == edges;
  }

  // ---------------------------------------------------------------- the search

  ghost function AllCallers(edges: seq<Edge>): set<string> { set e | e in edges :: e.caller }

  /** Everything marked reaches the focus and is not the focus. */
  ghost predicate SeenReaches(edges: seq<Edge>, seen: set<string>, f: string) {
    forall s :: s in seen ==> s != f && Reaches(edges, s, f)
  }

  /** Callers of every visited service that is not waiting on the stack are marked. */
  ghost predicate Expanded(edges: seq<Edge>, seen: set<string>, f: string, stack: seq<string>) {
    forall e :: e in edges && (e.callee == f || e.callee in seen) && e.callee !in stack
      ==> e.caller == f || e.caller in seen
  }

  /** The callers of one popped service: each is pushed the first time it is met. */
  method Visit(edges: seq<Edge>, ups: seq<string>, seen0: set<string>, stack0: seq<string>, f: string, cur: string)
    returns (seen: set<string>, stack: seq<string>)
    requires ups == CallersOf(edges, cur) && (cur == f || cur in seen0)
    requires SeenReaches(edges, seen0, f) && seen0 <= AllCallers(edges)
    requires forall s :: s in stack0 ==> s == f || s in seen0
    requires Expanded(edges, seen0, f, stack0 + [cur])
    ensures SeenReaches(edges, seen, f) && seen0 <= seen <= AllCallers(edges)
    ensures forall s :: s in stack ==> s == f || s in seen
    ensures Expanded(edges, seen, f, stack)
    ensures seen == seen0 ==> stack == stack0
  {
    seen, stack := seen0, stack0;
    for i := 0 to |ups|
      invariant SeenReaches(edges, seen, f) && seen0 <= seen <= AllCallers(edges)
      invariant forall s :: s in stack ==> s == f || s in seen
      invariant forall s :: s in stack0 ==> s in stack
      invariant forall s :: s in seen && s !in seen0 ==> s in stack
      invariant forall k :: 0 <= k < i ==> ups[k] == f || ups[k] in seen
      invariant seen == seen0 ==> stack == stack0
    {
      var up := ups[i];
      if up !in seen && up != f {
        assert up in ups;
        CallersOfIs(edges, cur, up);
        CallerReaches(edges, up, cur, f);
        seen := seen + {up};
        stack := stack + [up];
      }
    }
    forall e | e in edges && (e.callee == f || e.callee in seen) && e.callee !in stack
      ensures e.caller == f || e.caller in seen
    {
      if e.callee == cur {
        CallersOfIs(edges, cur, e.caller);
        assert e == Edge(e.caller, cur);
      } else {
        assert e.callee !in stack0 + [cur];
      }
    }
  }

  /** The stack loop: each service is pushed at most once, so it ends. */
  method Search(edges: seq<Edge>, f: string) returns (seen: set<string>)
    ensures forall s :: s in seen <==> s != f && Reaches(edges, s, f)
  {
    var callers := BuildCallers(edges);
    seen := {};
    var stack := [f];
    while |stack| > 0
      invariant SeenReaches(edges, seen, f) && seen <= AllCallers(edges)
      invariant forall s :: s in stack ==> s == f || s in seen
      invariant Expanded(edges, seen, f, stack)
      decreases AllCallers(edges) - seen, |stack|
    {
      var cur := stack[|stack| - 1];
      var rest := stack[..|stack| - 1];
      assert stack == rest + [cur];
      ghost var before := seen;
      seen, stack := Visit(edges, Index(callers, cur), seen, rest, f, cur);
      if before != seen {
        assert AllCallers(edges) - seen < AllCallers(edges) - before by {
          var x :| x in seen && x !in before;
          assert x in AllCallers(edges) - before;
        }
      }
    }
    assert ClosedUp(edges, seen, f);
    forall s | s != f && Reaches(edges, s, f) ensures s in seen {
      var p :| Chain(edges, p) && p[0] == s && p[|p| - 1] == f;
      ChainStaysIn(edges, seen, f, p);
    }
  }

  // ---------------------------------------------------------------- sorting

  ghost predicate Ascending(s: seq<string>) {
    forall i, j :: 0 <= i < j < |s| ==> Order(s[i], s[j]) < 0
  }

  method InsertInto(s: seq<string>, x: string) returns (r: seq<string>)
    requires Ascending(s) && x !in s
    ensures Ascending(r) && forall y :: y in r <==> y == x || y in s
  {
    var k := 0;
    while k < |s| && Order(s[k], x) < 0
      invariant 0 <= k <= |s|
      invariant forall i :: 0 <= i < k ==> Order(s[i], x) < 0
    {
      k := k + 1;
    }
    r := s[..k] + [x] + s[k..];
    forall i | k <= i < |s| ensures Order(x, s[i]) < 0 {
      OrderFlips(s[k], x);
      assert s[k] in s;
      if i > k { OrderTransitive(x, s[k], s[i]); }
    }
    assert s == s[..k] + s[k..];
    forall i, j | 0 <= i < j < |r| ensures Order(r[i], r[j]) < 0 {
      AscendingInsert(s, x, k, i, j);
    }
  }

  lemma AscendingInsert(s: seq<string>, x: string, k: nat, i: nat, j: nat)
    requires Ascending(s) && k <= |s| && i < j <= |s|
    requires forall n :: 0 <= n < k ==> Order(s[n], x) < 0
    requires forall n :: k <= n < |s| ==> Order(x, s[n]) < 0
    ensures var r := s[..k] + [x] + s[k..]; Order(r[i], r[j]) < 0
  {
    var r := s[..k] + [x] + s[k..];
    assert r[i] == if i < k then s[i] else if i == k then x else s[i - 1];
    assert r[j] == if j < k then s[j] else if j == k then x else s[j - 1];
  }

  method SortedElements(elems: set<string>) returns (r: seq<string>)
    ensures Ascending(r) && forall y :: y in r <==> y in elems
  {
    r := [];
    var rest := elems;
    while rest != {}
      invariant rest <= elems && Ascending(r)
      invariant forall y :: y in r <==> y in elems && y !in rest
      decreases rest
    {
      var x :| x in rest;
      r := InsertInto(r, x);
      rest := rest - {x};
    }
  }

  // ---------------------------------------------------------------- the graph object

  predicate Touches(e: Edge, f: string) { e.caller == f || e.callee == f }

  function TouchingEdges(edges: seq<Edge>, f: string): seq<Edge> {
    if edges == [] then []
    else
      var e := edges[|edges| - 1];
      TouchingEdges(edges[..|edges| - 1], f) + if Touches(e, f) then [e] else []
  }

  function KeptNodes(nodes: seq<Node>, keep: set<string>): seq<Node> {
    if nodes == [] then []
    else
      var n := nodes[|nodes| - 1];
      KeptNodes(nodes[..|nodes| - 1], keep) + if n.service in keep then [n] else []
  }

  function Hood(edges: seq<Edge>, f: string): set<string> {
    {f} + NeighborSet(edges, f)
  }

  lemma {:induction false} TouchingEdgesIs(edges: seq<Edge>, f: string, e: Edge)
    ensures e in TouchingEdges(edges, f) <==> e in edges && Touches(e, f)
  {
    if edges != [] {
      var init, last := edges[..|edges| - 1], edges[|edges| - 1];
      assert edges == init + [last];
      TouchingEdgesIs(init, f, e);
    }
  }

  lemma {:induction false} KeptNodesIs(nodes: seq<Node>, keep: set<string>, n: Node)
    ensures n in KeptNodes(nodes, keep) <==> n in nodes && n.service in keep
  {
    if nodes != [] {
      var init, last := nodes[..|nodes| - 1], nodes[|nodes| - 1];
      assert nodes == init + [last];
      KeptNodesIs(init, keep, n);
    }
  }

  /** The kept edges of two stretches are those of the one and then those of the other: order and
      repetitions stay. */
  lemma {:induction false} EdgesKeptInOrder(a: seq<Edge>, b: seq<Edge>, f: string)
    ensures TouchingEdges(a + b, f) == TouchingEdges(a, f) + TouchingEdges(b, f)
    ensures |b| == 1 ==> TouchingEdges(b, f) == if b[0].caller == f || b[0].callee == f then b else []
    decreases |b|
  {
    if b == [] {
      assert a + b == a;
    } else {
      var k := |b| - 1;
      EdgesKeptInOrder(a, b[..k], f);
      assert (a + b)[..|a + b| - 1] == a + b[..k];
    }
  }

  /** And so for the nodes. */
  lemma {:induction false} NodesKeptInOrder(a: seq<Node>, b: seq<Node>, keep: set<string>)
    ensures KeptNodes(a + b, keep) == KeptNodes(a, keep) + KeptNodes(b, keep)
    ensures |b| == 1 ==> KeptNodes(b, keep) == if b[0].service in keep then b else []
    decreases |b|
  {
    if b == [] {
      assert a + b == a;
    } else {
      var k := |b| - 1;
      NodesKeptInOrder(a, b[..k], keep);
      assert (a + b)[..|a + b| - 1] == a + b[..k];
    }
  }

  method TrimEdges(edges: seq<Edge>, f: string) returns (kept: seq<Edge>, keep: set<string>)
    ensures kept == TouchingEdges(edges, f) && keep == Hood(edges, f)
  {
    keep := {f};
    kept := [];
    for i := 0 to |edges|
      invariant keep == Hood(edges[..i], f) && kept == TouchingEdges(edges[..i], f)
    {
      var e := edges[i];
      assert edges[..i + 1][..i] == edges[..i];
      if e.caller == f || e.callee == f {
        keep := keep + {e.caller} + {e.callee};
        kept := kept + [e];
      }
    }
    assert edges[..|edges|] == edges;
  }

  method TrimNodes(nodes: seq<Node>, keep: set<string>) returns (kept: seq<Node>)
    ensures kept == KeptNodes(nodes, keep)
  {
    kept := [];
    for i := 0 to |nodes|
      invariant kept == KeptNodes(nodes[..i], keep)
    {
      assert nodes[..i + 1][..i] == nodes[..i];
      if nodes[i].service in keep {
        kept := kept + [nodes[i]];
      }
    }
    assert nodes[..|nodes|] == nodes;
  }

  class Graph {
    var nodes: seq<Node>
    var edges: seq<Edge>
    var focus: string
    var blastRadius: seq<string>

    constructor (nodes: seq<Node>, edges: seq<Edge>)
      ensures this.nodes == nodes && this.edges == edges
    {
      this.nodes, this.edges := nodes, edges;
      focus, blastRadius := "", [];
    }

    /** The blast radius is exactly the set of services other than the focus that reach it by
        a non-empty chain of calls, ascending without duplicates, for cyclic graphs too; the
        trimmed graph keeps exactly the edges that touch the focus, in order. */
    method FocusBlastRadius(service: string)
      modifies this
      ensures focus == service
      ensures Ascending(blastRadius)
      ensures forall s :: s in blastRadius <==> s != service && Reaches(old(edges), s, service)
      ensures edges == TouchingEdges(old(edges), service)
      ensures nodes == KeptNodes(old(nodes), Hood(old(edges), service))
    {
      focus := service;
      var seen := Search(edges, service);
      blastRadius := SortedElements(seen);
      var kept, keep := TrimEdges(edges, service);
      edges := kept;
      nodes := TrimNodes(nodes, keep);
    }
  }
}
