/** Greedy operator chaining over the topological order (jobmanager/job_graph.py:160-215). */
module Chaining {
  import opened Common
  import opened JobGraphs

  /** The edge at index i is FORWARD, and no other edge leaves its source or enters its target. */
  ghost predicate FusableAt(edges: seq<JobEdge>, u: string, v: string, i: nat) {
    && i < |edges|
    && edges[i] == JobEdge(u, v, Forward)
    && forall j :: 0 <= j < |edges| && j != i ==> edges[j].source != u && edges[j].target != v
  }

  ghost predicate Fusable(edges: seq<JobEdge>, u: string, v: string) {
    exists i :: 0 <= i < |edges| && FusableAt(edges, u, v, i)
  }

  function FirstEdge(edges: seq<JobEdge>, u: string, v: string): (r: Option<JobEdge>)
    ensures r.Some? ==> r.value in edges && r.value.source == u && r.value.target == v
    ensures r.None? ==> !HasEdge(edges, u, v)
  {
    if edges == [] then None
    else if edges[0].source == u && edges[0].target == v then Some(edges[0])
    else
      var rest := FirstEdge(edges[1..], u, v);
      assert HasEdge(edges, u, v) ==> HasEdge(edges[1..], u, v) by {
        if HasEdge(edges, u, v) {
          var i :| 0 <= i < |edges| && edges[i].source == u && edges[i].target == v;
          assert edges[1..][i - 1] == edges[i];
        }
      }
      rest
  }

  // What the length tests of the loop mean in terms of edge indices.

  ghost predicate OnlyOutEdge(edges: seq<JobEdge>, u: string, i: nat) {
    i < |edges| && forall j :: 0 <= j < |edges| ==> (edges[j].source == u <==> j == i)
  }

  ghost predicate OnlyInEdge(edges: seq<JobEdge>, v: string, i: nat) {
    i < |edges| && forall j :: 0 <= j < |edges| ==> (edges[j].target == v <==> j == i)
  }

  lemma {:induction false} NoOutEdge(edges: seq<JobEdge>, u: string)
    ensures Downstream(edges, u) == [] <==> forall j :: 0 <= j < |edges| ==> edges[j].source != u
  {
    if edges == [] {
    } else {
      NoOutEdge(edges[1..], u);
      assert forall j :: 0 < j < |edges| ==> edges[j] == edges[1..][j - 1];
      assert forall j :: 0 <= j < |edges[1..]| ==> edges[1..][j] == edges[j + 1];
    }
  }

  lemma {:induction false} NoInEdge(edges: seq<JobEdge>, v: string)
    ensures Upstream(edges, v) == [] <==> forall j :: 0 <= j < |edges| ==> edges[j].target != v
  {
    if edges == [] {
    } else {
      NoInEdge(edges[1..], v);
      assert forall j :: 0 < j < |edges| ==> edges[j] == edges[1..][j - 1];
      assert forall j :: 0 <= j < |edges[1..]| ==> edges[1..][j] == edges[j + 1];
    }
  }

  lemma {:induction false} FindOnlyOutEdge(edges: seq<JobEdge>, u: string) returns (i: nat)
    requires |Downstream(edges, u)| == 1
    ensures OnlyOutEdge(edges, u, i) && Downstream(edges, u) == [edges[i].target]
  {
    if edges[0].source == u {
      NoOutEdge(edges[1..], u);
      assert forall j :: 0 < j < |edges| ==> edges[j] == edges[1..][j - 1];
      i := 0;
    } else {
      var k := FindOnlyOutEdge(edges[1..], u);
      assert forall j :: 0 < j < |edges| ==> edges[j] == edges[1..][j - 1];
      i := k + 1;
    }
  }

  lemma {:induction false} FindOnlyInEdge(edges: seq<JobEdge>, v: string) returns (i: nat)
    requires |Upstream(edges, v)| == 1
    ensures OnlyInEdge(edges, v, i)
  {
    if edges[0].target == v {
      NoInEdge(edges[1..], v);
      assert forall j :: 0 < j < |edges| ==> edges[j] == edges[1..][j - 1];
      i := 0;
    } else {
      var k := FindOnlyInEdge(edges[1..], v);
      assert forall j :: 0 < j < |edges| ==> edges[j] == edges[1..][j - 1];
      i := k + 1;
    }
  }

  lemma {:induction false} OnlyOutEdgeIsCounted(edges: seq<JobEdge>, u: string, i: nat)
    requires OnlyOutEdge(edges, u, i)
    ensures Downstream(edges, u) == [edges[i].target]
  {
    assert forall j :: 0 < j < |edges| ==> edges[j] == edges[1..][j - 1];
    assert forall j :: 0 <= j < |edges[1..]| ==> edges[1..][j] == edges[j + 1];
    if i == 0 {
      NoOutEdge(edges[1..], u);
    } else {
      OnlyOutEdgeIsCounted(edges[1..], u, i - 1);
    }
  }

  lemma {:induction false} OnlyInEdgeIsCounted(edges: seq<JobEdge>, v: string, i: nat)
    requires OnlyInEdge(edges, v, i)
    ensures |Upstream(edges, v)| == 1
  {
    assert forall j :: 0 < j < |edges| ==> edges[j] == edges[1..][j - 1];
    assert forall j :: 0 <= j < |edges[1..]| ==> edges[1..][j] == edges[j + 1];
    if i == 0 {
      NoInEdge(edges[1..], v);
    } else {
      OnlyInEdgeIsCounted(edges[1..], v, i - 1);
    }
  }

  /** The vertex the extension loop would add after current, by the three tests of the code. */
  function NextInChain(edges: seq<JobEdge>, current: string): Option<string> {
    var downstream := Downstream(edges, current);
    if |downstream| != 1 then None
    else
      var next := downstream[0];
      var edge := FirstEdge(edges, current, next);
      if edge.None? || edge.value.kind != Forward then None
      else if |Upstream(edges, next)| != 1 then None
      else Some(next)
  }

  /** The code's tests accept next exactly when one FORWARD edge is all that joins the two. */
  lemma ExtensionTestIsFusable(edges: seq<JobEdge>, u: string, v: string)
    ensures NextInChain(edges, u) == Some(v) <==> Fusable(edges, u, v)
  {
    if NextInChain(edges, u) == Some(v) {
      var i := FindOnlyOutEdge(edges, u);
      var k := FindOnlyInEdge(edges, v);
      var edge := FirstEdge(edges, u, v).value;
      var m :| 0 <= m < |edges| && edges[m] == edge;
      assert m == i && m == k;
      assert FusableAt(edges, u, v, i);
    }
    if Fusable(edges, u, v) {
      var i :| 0 <= i < |edges| && FusableAt(edges, u, v, i);
      OnlyOutEdgeIsCounted(edges, u, i);
      OnlyInEdgeIsCounted(edges, v, i);
      assert HasEdge(edges, u, v);
      var edge := FirstEdge(edges, u, v).value;
      var m :| 0 <= m < |edges| && edges[m] == edge;
      assert m == i;
    }
  }

  // What a correct list of chains is.

  ghost predicate At(chains: seq<seq<string>>, i: int, a: int, v: string) {
    0 <= i < |chains| && 0 <= a < |chains[i]| && chains[i][a] == v
  }

  ghost predicate InSome(chains: seq<seq<string>>, v: string) {
    exists i, a :: At(chains, i, a, v)
  }

  /** No chain is empty and no vertex is listed twice, in one chain or in two. */
  ghost predicate Disjoint(chains: seq<seq<string>>) {
    && (forall i :: 0 <= i < |chains| ==> chains[i] != [])
    && forall i, a, j, b, v :: At(chains, i, a, v) && At(chains, j, b, v) ==> i == j && a == b
  }

  ghost predicate Linked(edges: seq<JobEdge>, chain: seq<string>) {
    forall a :: 0 <= a < |chain| - 1 ==> Fusable(edges, chain[a], chain[a + 1])
  }

  function Last(chain: seq<string>): string
    requires chain != []
  {
    chain[|chain| - 1]
  }

  /** Nothing can be put in front of the chain or behind it. */
  ghost predicate Maximal(edges: seq<JobEdge>, chain: seq<string>)
    requires chain != []
  {
    && (forall u :: !Fusable(edges, u, chain[0]))
    && (forall v :: !Fusable(edges, Last(chain), v))
  }

  ghost predicate ChainsCorrect(edges: seq<JobEdge>, chains: seq<seq<string>>) {
    && Disjoint(chains)
    && forall i :: 0 <= i < |chains| ==> Linked(edges, chains[i]) && Maximal(edges, chains[i])
  }

  ghost predicate InsideChain(chains: seq<seq<string>>, u: string, v: string) {
    exists i, a, b :: b == a + 1 && At(chains, i, a, u) && At(chains, i, b, v)
  }

  /** Edge u -> v leaves the end of one chain and enters the head of a chain listed later. */
  ghost predicate CrossesForward(chains: seq<seq<string>>, u: string, v: string) {
    exists i, j :: 0 <= i < j < |chains| && EndToHead(chains, i, j, u, v)
  }

  ghost predicate EndToHead(chains: seq<seq<string>>, i: int, j: int, u: string, v: string) {
    && 0 <= i < |chains| && 0 <= j < |chains|
    && chains[i] != [] && chains[j] != []
    && Last(chains[i]) == u && chains[j][0] == v
  }

  ghost predicate HeadsAndLinks(edges: seq<JobEdge>, chains: seq<seq<string>>) {
    forall i :: 0 <= i < |chains| ==>
      chains[i] != [] && Linked(edges, chains[i]) && forall u :: !Fusable(edges, u, chains[i][0])
  }

  lemma PredecessorIsPreviousInChain(edges: seq<JobEdge>, chains: seq<seq<string>>, i: int, a: int, u: string,
                                     v: string)
    requires HeadsAndLinks(edges, chains)
    requires At(chains, i, a, v) && Fusable(edges, u, v)
    ensures At(chains, i, a - 1, u)
  {
    assert a > 0;
    assert Fusable(edges, chains[i][a - 1], chains[i][a - 1 + 1]);
    FusableIsInjective(edges, chains[i][a - 1], v, u, v);
  }

  lemma SuccessorIsNextInChain(edges: seq<JobEdge>, chains: seq<seq<string>>, i: int, a: int, u: string, v: string)
    requires ChainsCorrect(edges, chains)
    requires At(chains, i, a, u) && Fusable(edges, u, v)
    ensures At(chains, i, a + 1, v)
  {
    assert u == Last(chains[i]) || a < |chains[i]| - 1;
    assert a < |chains[i]| - 1;
    FusableIsInjective(edges, u, chains[i][a + 1], u, v);
  }

  /** A vertex reached first by the outer loop has no fusable predecessor: its predecessor would
      come earlier in the order, and its chain would have gone on to this vertex. */
  lemma HeadHasNoPredecessor(edges: seq<JobEdge>, order: seq<string>, chains: seq<seq<string>>, k: nat, u: string)
    requires ChainsCorrect(edges, chains)
    requires k < |order| && EdgesPointForward(order, edges)
    requires forall v :: v in order[..k] ==> InSome(chains, v)
    requires !InSome(chains, order[k])
    ensures !Fusable(edges, u, order[k])
  {
    if Fusable(edges, u, order[k]) {
      var e :| 0 <= e < |edges| && FusableAt(edges, u, order[k], e);
      assert edges[e].source in order[..k];
      var i, a :| At(chains, i, a, u);
      SuccessorIsNextInChain(edges, chains, i, a, u, order[k]);
      assert false;
    }
  }

  lemma FusableIsInjective(edges: seq<JobEdge>, u: string, v: string, u': string, v': string)
    requires Fusable(edges, u, v) && Fusable(edges, u', v')
    ensures u == u' <==> v == v'
  {
    var i :| 0 <= i < |edges| && FusableAt(edges, u, v, i);
    var j :| 0 <= j < |edges| && FusableAt(edges, u', v', j);
  }

  /** The extension loop never meets a visited vertex, although it does not test for one. */
  lemma NextIsNew(edges: seq<JobEdge>, chains: seq<seq<string>>, chain: seq<string>, next: string)
    requires ChainsCorrect(edges, chains) && chain != [] && Linked(edges, chain) && Distinct(chain)
    requires forall u :: !Fusable(edges, u, chain[0])
    requires forall v :: v in chain ==> !InSome(chains, v)
    requires Fusable(edges, Last(chain), next)
    ensures next !in chain && !InSome(chains, next)
  {
    assert Last(chain) in chain;
    if next in chain {
      var a :| 0 <= a < |chain| && chain[a] == next;
      PredecessorIsPreviousInChain(edges, [chain], 0, a, Last(chain), next);
      assert false;
    }
    if InSome(chains, next) {
      var i, a :| At(chains, i, a, next);
      PredecessorIsPreviousInChain(edges, chains, i, a, Last(chain), next);
      assert false;
    }
  }

  lemma AddChain(edges: seq<JobEdge>, chains: seq<seq<string>>, chain: seq<string>)
    requires ChainsCorrect(edges, chains) && chain != [] && Linked(edges, chain) && Distinct(chain)
             && Maximal(edges, chain)
    requires forall v :: v in chain ==> !InSome(chains, v)
    ensures ChainsCorrect(edges, chains + [chain])
    ensures forall v :: InSome(chains + [chain], v) <==> InSome(chains, v) || v in chain
  {
    var more := chains + [chain];
    forall i, a, v | At(more, i, a, v)
      ensures i < |chains| ==> At(chains, i, a, v)
      ensures i == |chains| ==> v in chain
    {
    }
    forall v ensures InSome(more, v) <==> InSome(chains, v) || v in chain {
      if InSome(chains, v) {
        var i, a :| At(chains, i, a, v);
        assert At(more, i, a, v);
      }
      if v in chain {
        var a :| 0 <= a < |chain| && chain[a] == v;
        assert At(more, |chains|, a, v);
      }
    }
  }

  /** The chains do not depend on the order in which they were found: two correct lists over the
      same vertices have the same chains. */
  lemma ChainsAreUnique(edges: seq<JobEdge>, chains: seq<seq<string>>, others: seq<seq<string>>, i: nat)
    returns (j: nat)
    requires ChainsCorrect(edges, chains) && ChainsCorrect(edges, others)
    requires forall v :: InSome(chains, v) <==> InSome(others, v)
    requires i < |chains|
    ensures j < |others| && others[j] == chains[i]
  {
    var head := chains[i][0];
    assert At(chains, i, 0, head);
    assert InSome(chains, head);
    var k, b :| At(others, k, b, head);
    if b > 0 {
      OnlyHeadsLackPredecessors(edges, others[k], b);
      assert false;
    }
    j := k;
    CommonPrefix(edges, chains[i], others[j], |chains[i]|);
    CommonPrefix(edges, others[j], chains[i], |others[j]|);
  }

  lemma OnlyHeadsLackPredecessors(edges: seq<JobEdge>, chain: seq<string>, b: int)
    requires Linked(edges, chain) && 0 < b < |chain|
    ensures Fusable(edges, chain[b - 1], chain[b])
  {
    assert Fusable(edges, chain[b - 1], chain[b - 1 + 1]);
  }

  lemma {:induction false} CommonPrefix(edges: seq<JobEdge>, chain: seq<string>, other: seq<string>, n: nat)
    requires Linked(edges, chain) && Linked(edges, other) && other != [] && Maximal(edges, other)
    requires n <= |chain| && chain != [] && chain[0] == other[0]
    ensures n <= |other| && chain[..n] == other[..n]
    decreases n
  {
    if n > 1 {
      CommonPrefix(edges, chain, other, n - 1);
      assert chain[n - 2] == chain[..n - 1][n - 2] == other[n - 2];
      assert Fusable(edges, chain[n - 2], chain[n - 2 + 1]);
      assert !Fusable(edges, Last(other), chain[n - 1]);
      assert n - 2 < |other| - 1;
      assert Fusable(edges, other[n - 2], other[n - 2 + 1]);
      FusableIsInjective(edges, chain[n - 2], chain[n - 1], other[n - 2], other[n - 1]);
      assert chain[..n] == chain[..n - 1] + [chain[n - 1]];
      assert other[..n] == other[..n - 1] + [other[n - 1]];
    }
  }

  /** Positions in a forward order grow along a chain. */
  lemma {:induction false} ChainGoesForward(edges: seq<JobEdge>, order: seq<string>, chain: seq<string>, a: nat,
                                            pos: nat) returns (h: nat)
    requires EdgesPointForward(order, edges) && Linked(edges, chain)
    requires a < |chain| && pos < |order| && order[pos] == chain[a]
    ensures h <= pos && order[h] == chain[0]
    decreases a
  {
    if a == 0 {
      h := pos;
    } else {
      assert Fusable(edges, chain[a - 1], chain[a - 1 + 1]);
      var e :| 0 <= e < |edges| && FusableAt(edges, chain[a - 1], chain[a], e);
      assert edges[e].source in order[..pos];
      var before :| 0 <= before < pos && order[before] == chain[a - 1];
      h := ChainGoesForward(edges, order, chain, a - 1, before);
    }
  }

  /** Chains are listed by the position of their head in the order. */
  ghost predicate HeadsInOrder(order: seq<string>, chains: seq<seq<string>>, heads: seq<nat>) {
    && |heads| == |chains|
    && (forall i :: 0 <= i < |chains| ==> chains[i] != [] && heads[i] < |order| && order[heads[i]] == chains[i][0])
    && (forall i, j :: 0 <= i < j < |heads| ==> heads[i] < heads[j])
  }

  lemma EdgeFromInside(edges: seq<JobEdge>, chains: seq<seq<string>>, e: nat, i: int, a: int)
    requires ChainsCorrect(edges, chains) && e < |edges|
    requires At(chains, i, a, edges[e].source) && a < |chains[i]| - 1
    ensures At(chains, i, a + 1, edges[e].target) && InsideChain(chains, edges[e].source, edges[e].target)
  {
    assert Fusable(edges, chains[i][a], chains[i][a + 1]);
    var f :| 0 <= f < |edges| && FusableAt(edges, chains[i][a], chains[i][a + 1], f);
    assert e == f;
    assert At(chains, i, a + 1, edges[e].target);
  }

  lemma EdgeToInside(edges: seq<JobEdge>, chains: seq<seq<string>>, e: nat, j: int, b: int)
    requires ChainsCorrect(edges, chains) && e < |edges|
    requires At(chains, j, b, edges[e].target) && b > 0
    ensures At(chains, j, b - 1, edges[e].source) && InsideChain(chains, edges[e].source, edges[e].target)
  {
    assert Fusable(edges, chains[j][b - 1], chains[j][b - 1 + 1]);
    var f :| 0 <= f < |edges| && FusableAt(edges, chains[j][b - 1], chains[j][b], f);
    assert e == f;
    assert At(chains, j, b - 1, edges[e].source);
  }

  lemma EdgeCrossesForward(edges: seq<JobEdge>, order: seq<string>, chains: seq<seq<string>>, heads: seq<nat>, e: nat)
    requires ChainsCorrect(edges, chains) && HeadsInOrder(order, chains, heads)
    requires EdgesPointForward(order, edges) && Distinct(order)
    requires forall v :: v in order <==> InSome(chains, v)
    requires e < |edges| && edges[e].source in order && edges[e].target in order
    requires !InsideChain(chains, edges[e].source, edges[e].target)
    ensures CrossesForward(chains, edges[e].source, edges[e].target)
  {
    var u, v := edges[e].source, edges[e].target;
    var i, a :| At(chains, i, a, u);
    var j, b :| At(chains, j, b, v);
    if a < |chains[i]| - 1 {
      EdgeFromInside(edges, chains, e, i, a);
      assert false;
    }
    if b > 0 {
      EdgeToInside(edges, chains, e, j, b);
      assert false;
    }
    assert EndToHead(chains, i, j, u, v);
    assert order[heads[j]] == v;
    assert u in order[..heads[j]];
    var pos :| 0 <= pos < heads[j] && order[pos] == u;
    var h := ChainGoesForward(edges, order, chains[i], a, pos);
    assert h == heads[i];
    assert heads[i] < heads[j];
  }

  lemma FusableEnds(graph: JobGraph, u: string, v: string)
    requires graph.Valid() && Fusable(graph.edges, u, v)
    ensures u in graph.vertices && v in graph.vertices
  {
  }

  lemma Append(edges: seq<JobEdge>, chain: seq<string>, next: string)
    requires chain != [] && Linked(edges, chain) && Distinct(chain)
    requires next !in chain && Fusable(edges, Last(chain), next)
    ensures Linked(edges, chain + [next]) && Distinct(chain + [next])
    ensures SetOf(chain + [next]) == SetOf(chain) + {next}
  {
    var more := chain + [next];
    forall a | 0 <= a < |more| - 1 ensures Fusable(edges, more[a], more[a + 1]) {
      if a < |chain| - 1 {
        assert Fusable(edges, chain[a], chain[a + 1]);
      }
    }
  }

  /** The extension loop, started at order[k]. It tests neither visited nor the position. */
  method ExtendChain(graph: JobGraph, vertexId: string, visited0: set<string>,
                     ghost chains: seq<seq<string>>, ghost order: seq<string>, ghost k: nat)
    returns (chain: seq<string>, visited: set<string>)
    requires graph.Valid() && IsTopologicalOrder(order, graph.vertexIds, graph.edges)
    requires k < |order| && order[k] == vertexId
    requires ChainsCorrect(graph.edges, chains)
    requires forall v :: v in visited0 <==> InSome(chains, v)
    requires forall v :: v in order[..k] ==> v in visited0
    requires visited0 <= graph.vertices.Keys && vertexId !in visited0
    ensures chain != [] && chain[0] == vertexId
    ensures Linked(graph.edges, chain) && Distinct(chain) && Maximal(graph.edges, chain)
    ensures forall v :: v in chain ==> !InSome(chains, v)
    ensures visited == visited0 + SetOf(chain) && visited <= graph.vertices.Keys
  {
    var edges := graph.edges;
    forall u ensures !Fusable(edges, u, vertexId) {
      HeadHasNoPredecessor(edges, order, chains, k, u);
    }
    assert vertexId in SetOf(order);
    chain, visited := [vertexId], visited0 + {vertexId};
    var current := vertexId;
    while true
      invariant chain != [] && chain[0] == vertexId && Last(chain) == current
      invariant Linked(edges, chain) && Distinct(chain)
      invariant forall v :: v in chain ==> !InSome(chains, v)
      invariant visited == visited0 + SetOf(chain) && visited <= graph.vertices.Keys
      decreases graph.vertices.Keys - visited
    {
      forall v ensures NextInChain(edges, current) == Some(v) <==> Fusable(edges, current, v) {
        ExtensionTestIsFusable(edges, current, v);
      }
      var downstream := Downstream(edges, current);
      if |downstream| != 1 {
        break;
      }
      var next := downstream[0];
      var edge := FirstEdge(edges, current, next);
      if edge.None? || edge.value.kind != Forward {
        break;
      }
      var upstream := Upstream(edges, next);
      if |upstream| != 1 {
        break;
      }
      assert NextInChain(edges, current) == Some(next);
      NextIsNew(edges, chains, chain, next);
      FusableEnds(graph, current, next);
      Append(edges, chain, next);
      chain, visited := chain + [next], visited + {next};
      current := next;
    }
    assert NextInChain(edges, current) == None;
  }

  /** On an acyclic graph: chains that partition the vertices, are valid and maximal, and are
      joined by every remaining edge end-to-head and forward. It fails exactly on cyclic graphs. */
  method IdentifyChainableOperators(graph: JobGraph) returns (r: Result<seq<seq<string>>>)
    requires graph.Valid()
    ensures r.Err? <==> Cyclic(graph.edges)
    ensures r.Ok? ==> ChainsCorrect(graph.edges, r.value)
    ensures r.Ok? ==> forall v :: v in graph.vertices <==> InSome(r.value, v)
    ensures r.Ok? ==> forall e :: 0 <= e < |graph.edges| ==>
                        var u, v := graph.edges[e].source, graph.edges[e].target;
                        InsideChain(r.value, u, v) || CrossesForward(r.value, u, v)
  {
    var edges := graph.edges;
    var sorted := graph.TopologicalSort();
    if sorted.Err? {
      return Err;
    }
    var order := sorted.value;
    assert forall v :: v in order <==> v in SetOf(order);
    assert forall v :: v in graph.vertexIds <==> v in SetOf(graph.vertexIds);
    var chains: seq<seq<string>>, visited: set<string> := [], {};
    ghost var heads: seq<nat> := [];
    for k := 0 to |order|
      invariant ChainsCorrect(edges, chains) && HeadsInOrder(order, chains, heads)
      invariant forall i :: 0 <= i < |heads| ==> heads[i] < k
      invariant forall v :: v in visited <==> InSome(chains, v)
      invariant forall v :: v in order[..k] ==> v in visited
      invariant visited <= graph.vertices.Keys
    {
      assert order[..k + 1] == order[..k] + [order[k]];
      if order[k] !in visited {
        var chain;
        chain, visited := ExtendChain(graph, order[k], visited, chains, order, k);
        AddChain(edges, chains, chain);
        chains, heads := chains + [chain], heads + [k];
      }
    }
    assert order[..|order|] == order;
    forall e | 0 <= e < |edges| && !InsideChain(chains, edges[e].source, edges[e].target)
      ensures CrossesForward(chains, edges[e].source, edges[e].target)
    {
      EdgeCrossesForward(edges, order, chains, heads, e);
    }
    r := Ok(chains);
  }
}
