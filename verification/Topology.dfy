/** The service dependency graph and direct neighbours in it (domains/topology/topology.go). */
module Topology {

  datatype Edge = Edge(caller: string, callee: string)

  // ---------------------------------------------------------------- neighbours

  /** Services joined to `s` by an edge in either direction. */
  ghost predicate Adjacent(edges: seq<Edge>, s: string, t: string) {
    Edge(s, t) in edges || Edge(t, s) in edges
  }

  function NeighborSet(edges: seq<Edge>, s: string): set<string> {
    if edges == [] then {}
    else
      var e := edges[|edges| - 1];
      var rest := NeighborSet(edges[..|edges| - 1], s);
      if e.caller == s then rest + {e.callee}
      else if e.callee == s then rest + {e.caller}
      else rest
  }

  lemma {:induction false} NeighborSetIs(edges: seq<Edge>, s: string, t: string)
    ensures t in NeighborSet(edges, s) <==> Adjacent(edges, s, t)
  {
    if edges != [] {
      var init := edges[..|edges| - 1];
      var e := edges[|edges| - 1];
      assert edges == init + [e];
      NeighborSetIs(init, s, t);
    }
  }

  /** Neighbourhood is symmetric, self-edges included. */
  lemma NeighborsSymmetric(edges: seq<Edge>, s: string, t: string)
    ensures t in NeighborSet(edges, s) <==> s in NeighborSet(edges, t)
  {
    NeighborSetIs(edges, s, t);
    NeighborSetIs(edges, t, s);
  }

  /** The loop of `Neighbors`. */
  method Neighbors(edges: seq<Edge>, s: string) returns (seen: set<string>)
    ensures seen == NeighborSet(edges, s)
  {
    seen := {};
    for i := 0 to |edges|
      invariant seen == NeighborSet(edges[..i], s)
    {
      var e := edges[i];
      assert edges[..i + 1][..i] == edges[..i];
      if e.caller == s {
        seen := seen + {e.callee};
      } else if e.callee == s {
        seen := seen + {e.caller};
      }
    }
    assert edges[..|edges|] == edges;
  }
}
