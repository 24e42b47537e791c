/** The logical job graph: construction, topological order and cycle detection
    (jobmanager/job_graph.py). */
module JobGraphs {
  import opened Common

  datatype EdgeType = Forward | Rebalance | Shuffle | Broadcast

  datatype JobEdge = JobEdge(source: string, target: string, kind: EdgeType)

  datatype JobVertex = JobVertex(id: string, parallelism: int)

  function Upstream(edges: seq<JobEdge>, v: string): seq<string> {
    if edges == [] then []
    else (if edges[0].target == v then [edges[0].source] else []) + Upstream(edges[1..], v)
  }

  function Downstream(edges: seq<JobEdge>, v: string): seq<string> {
    if edges == [] then []
    else (if edges[0].source == v then [edges[0].target] else []) + Downstream(edges[1..], v)
  }

  predicate HasEdge(edges: seq<JobEdge>, u: string, v: string) {
    exists i :: 0 <= i < |edges| && edges[i].source == u && edges[i].target == v
  }

  /** Every vertex occurs once, and after the source of each of its in-edges. */
  predicate IsTopologicalOrder(order: seq<string>, vertices: seq<string>, edges: seq<JobEdge>) {
    && Distinct(order)
    && SetOf(order) == SetOf(vertices)
    && EdgesPointForward(order, edges)
  }

  predicate EdgesPointForward(order: seq<string>, edges: seq<JobEdge>) {
    forall i, j :: 0 <= i < |edges| && 0 <= j < |order| && edges[i].target == order[j] ==> edges[i].source in order[..j]
  }

  ghost predicate IsWalk(edges: seq<JobEdge>, p: seq<string>) {
    forall i :: 0 <= i < |p| - 1 ==> HasEdge(edges, p[i], p[i + 1])
  }

  /** Some walk of at least one edge returns to its start; a self-loop counts. */
  ghost predicate Cyclic(edges: seq<JobEdge>) {
    exists p :: IsCycle(edges, p)
  }

  ghost predicate IsCycle(edges: seq<JobEdge>, p: seq<string>) {
    |p| >= 2 && p[0] == p[|p| - 1] && IsWalk(edges, p)
  }

  /** Number of edges into v whose source is not yet in done. */
  function OpenInEdges(edges: seq<JobEdge>, v: string, done: set<string>): nat {
    if edges == [] then 0
    else (if edges[0].target == v && edges[0].source !in done then 1 else 0) + OpenInEdges(edges[1..], v, done)
  }

  function Count(s: seq<string>, v: string): nat {
    if s == [] then 0 else (if s[0] == v then 1 else 0) + Count(s[1..], v)
  }

  lemma {:induction false} OpenInEdgesSnoc(edges: seq<JobEdge>, e: JobEdge, v: string, done: set<string>)
    ensures OpenInEdges(edges + [e], v, done)
            == OpenInEdges(edges, v, done) + (if e.target == v && e.source !in done then 1 else 0)
  {
    if edges == [] {
      assert edges + [e] == [e];
    } else {
      assert (edges + [e])[1..] == edges[1..] + [e];
      OpenInEdgesSnoc(edges[1..], e, v, done);
    }
  }

  lemma {:induction false} OpenInEdgesFinish(edges: seq<JobEdge>, v: string, done: set<string>, u: string)
    requires u !in done
    ensures OpenInEdges(edges, v, done) == OpenInEdges(edges, v, done + {u}) + Count(Downstream(edges, u), v)
  {
    if edges == [] {
    } else {
      OpenInEdgesFinish(edges[1..], v, done, u);
      var e := edges[0];
      assert Downstream(edges, u) == (if e.source == u then [e.target] else []) + Downstream(edges[1..], u);
      if e.source == u {
        assert Downstream(edges, u)[1..] == Downstream(edges[1..], u);
      } else {
        assert Downstream(edges, u) == Downstream(edges[1..], u);
      }
    }
  }

  lemma {:induction false} OpenInEdgesZero(edges: seq<JobEdge>, v: string, done: set<string>)
    ensures OpenInEdges(edges, v, done) == 0
            <==> forall i :: 0 <= i < |edges| && edges[i].target == v ==> edges[i].source in done
  {
    if edges == [] {
    } else {
      OpenInEdgesZero(edges[1..], v, done);
      assert forall i :: 0 < i < |edges| ==> edges[i] == edges[1..][i - 1];
      assert forall i :: 0 <= i < |edges[1..]| ==> edges[1..][i] == edges[i + 1];
    }
  }

  lemma {:induction false} CountZero(s: seq<string>, v: string)
    ensures Count(s, v) == 0 <==> v !in s
  {
    if s == [] {
    } else {
      CountZero(s[1..], v);
      assert v in s <==> v == s[0] || v in s[1..];
    }
  }

  lemma {:induction false} DownstreamTargets(edges: seq<JobEdge>, u: string)
    ensures forall v :: v in Downstream(edges, u) <==> HasEdge(edges, u, v)
  {
    if edges == [] {
    } else {
      DownstreamTargets(edges[1..], u);
      forall v ensures v in Downstream(edges, u) <==> HasEdge(edges, u, v) {
        if HasEdge(edges, u, v) {
          var i :| 0 <= i < |edges| && edges[i].source == u && edges[i].target == v;
          assert i > 0 ==> edges[1..][i - 1] == edges[i];
        }
        if HasEdge(edges[1..], u, v) {
          var i :| 0 <= i < |edges[1..]| && edges[1..][i].source == u && edges[1..][i].target == v;
          assert edges[i + 1] == edges[1..][i];
        }
      }
    }
  }

  lemma {:induction false} UpstreamSources(edges: seq<JobEdge>, v: string)
    ensures forall u :: u in Upstream(edges, v) <==> HasEdge(edges, u, v)
  {
    if edges == [] {
    } else {
      UpstreamSources(edges[1..], v);
      forall u ensures u in Upstream(edges, v) <==> HasEdge(edges, u, v) {
        if HasEdge(edges, u, v) {
          var i :| 0 <= i < |edges| && edges[i].source == u && edges[i].target == v;
          assert i > 0 ==> edges[1..][i - 1] == edges[i];
        }
        if HasEdge(edges[1..], u, v) {
          var i :| 0 <= i < |edges[1..]| && edges[1..][i].source == u && edges[1..][i].target == v;
          assert edges[i + 1] == edges[1..][i];
        }
      }
    }
  }

  /** A forward order excludes cycles: positions grow along every walk. */
  lemma {:induction false} WalkGoesForward(edges: seq<JobEdge>, order: seq<string>, p: seq<string>, j: nat)
    returns (i: nat)
    requires EdgesPointForward(order, edges) && IsWalk(edges, p) && |p| >= 2
    requires j < |order| && order[j] == p[|p| - 1]
    ensures i < j && order[i] == p[0]
    decreases |p|
  {
    assert HasEdge(edges, p[|p| - 2], p[|p| - 2 + 1]);
    var k :| 0 <= k < |edges| && edges[k].source == p[|p| - 2] && edges[k].target == p[|p| - 1];
    assert edges[k].source in order[..j];
    i :| 0 <= i < j && order[i] == p[|p| - 2];
    if |p| > 2 {
      var q := p[..|p| - 1];
      assert IsWalk(edges, q) by {
        forall m | 0 <= m < |q| - 1 ensures HasEdge(edges, q[m], q[m + 1]) {
          assert HasEdge(edges, p[m], p[m + 1]);
        }
      }
      i := WalkGoesForward(edges, order, q, i);
    }
  }

  lemma TopologicalOrderIsAcyclic(vertices: seq<string>, edges: seq<JobEdge>, order: seq<string>)
    requires IsTopologicalOrder(order, vertices, edges)
    requires forall i :: 0 <= i < |edges| ==> edges[i].target in vertices
    ensures !Cyclic(edges)
  {
    if Cyclic(edges) {
      var p :| IsCycle(edges, p);
      assert HasEdge(edges, p[|p| - 2], p[|p| - 2 + 1]);
      var k :| 0 <= k < |edges| && edges[k].source == p[|p| - 2] && edges[k].target == p[|p| - 1];
      assert p[|p| - 1] in SetOf(vertices);
      assert p[|p| - 1] in order;
      var j :| 0 <= j < |order| && order[j] == p[|p| - 1];
      var i := WalkGoesForward(edges, order, p, j);
      assert false;
    }
  }

  ghost predicate HasPredecessorIn(edges: seq<JobEdge>, pool: set<string>, v: string) {
    exists u :: u in pool && HasEdge(edges, u, v)
  }

  ghost predicate IsStuck(edges: seq<JobEdge>, pool: set<string>) {
    pool != {} && forall v {:trigger HasPredecessorIn(edges, pool, v)} :: v in pool ==> HasPredecessorIn(edges, pool, v)
  }

  /** Walk n edges backwards without leaving a set in which everybody has a predecessor. */
  lemma {:induction false} WalkBackwards(edges: seq<JobEdge>, stuck: set<string>, n: nat) returns (p: seq<string>)
    requires IsStuck(edges, stuck)
    ensures |p| == n + 1 && IsWalk(edges, p)
    ensures forall v :: v in p ==> v in stuck
  {
    if n == 0 {
      var v :| v in stuck;
      p := [v];
    } else {
      var q := WalkBackwards(edges, stuck, n - 1);
      assert q[0] in q;
      assert HasPredecessorIn(edges, stuck, q[0]);
      var u :| u in stuck && HasEdge(edges, u, q[0]);
      p := [u] + q;
      forall i | 0 <= i < |p| - 1 ensures HasEdge(edges, p[i], p[i + 1]) {
        if i > 0 {
          assert HasEdge(edges, q[i - 1], q[i - 1 + 1]);
        }
      }
    }
  }

  lemma StuckSetIsCyclic(edges: seq<JobEdge>, stuck: set<string>)
    requires IsStuck(edges, stuck)
    ensures Cyclic(edges)
  {
    var p := WalkBackwards(edges, stuck, |stuck|);
    var i, j := Pigeonhole(p, stuck);
    var c := p[i..j + 1];
    forall k | 0 <= k < |c| - 1 ensures HasEdge(edges, c[k], c[k + 1]) {
      assert HasEdge(edges, p[i + k], p[i + k + 1]);
    }
    assert IsCycle(edges, c);
  }

  class JobGraph {
    var vertices: map<string, JobVertex>
    var vertexIds: seq<string>          // keys of vertices in insertion order
    var edges: seq<JobEdge>

    ghost predicate Valid() reads this {
      && Distinct(vertexIds)
      && SetOf(vertexIds) == vertices.Keys
      && (forall i :: 0 <= i < |edges| ==> edges[i].source in vertices && edges[i].target in vertices)
    }

    constructor ()
      ensures Valid() && vertexIds == [] && edges == []
    {
      vertices, vertexIds, edges := map[], [], [];
    }

    /** A second vertex with a known id replaces the first and keeps its place. */
    method AddVertex(vertex: JobVertex)
      requires Valid()
      modifies this
      ensures Valid() && edges == old(edges)
      ensures vertices == old(vertices)[vertex.id := vertex]
      ensures vertexIds == if vertex.id in old(vertices) then old(vertexIds) else old(vertexIds) + [vertex.id]
    {
      if vertex.id !in vertices {
        assert vertex.id !in SetOf(vertexIds);
        vertexIds := vertexIds + [vertex.id];
      }
      vertices := vertices[vertex.id := vertex];
    }

    method AddEdge(edge: JobEdge) returns (r: Result<()>)
      requires Valid()
      modifies this`edges
      ensures Valid()
      ensures r.Ok? <==> edge.source in vertices && edge.target in vertices
      ensures edges == if r.Ok? then old(edges) + [edge] else old(edges)
    {
      if edge.source !in vertices {
        return Err;
      }
      if edge.target !in vertices {
        return Err;
      }
      edges := edges + [edge];
      r := Ok(());
    }

    /** Kahn's algorithm. It fails exactly on graphs with a directed cycle. */
    method TopologicalSort() returns (r: Result<seq<string>>)
      requires Valid()
      ensures r.Ok? ==> IsTopologicalOrder(r.value, vertexIds, edges)
      ensures r.Err? <==> Cyclic(edges)
    {
      var inDegree := CountInDegrees();
      var queue := ReadyVertices(inDegree);
      var result: seq<string> := [];
      NothingSorted(inDegree, queue);
      while queue != []
        invariant KahnInvariant(inDegree, result, queue, SetOf(result), [])
        invariant EdgesPointForward(result, edges)
        decreases vertices.Keys - SetOf(result)
      {
        inDegree, result, queue := SortNext(inDegree, result, queue);
      }
      Exhausted(inDegree, result);
      if |result| != |vertices| {
        return Err;
      }
      TopologicalOrderIsAcyclic(vertexIds, edges, result);
      r := Ok(result);
    }

    /** One round of the outer loop: the head of the queue is sorted, and its edges are relaxed. */
    method SortNext(inDegree0: map<string, int>, result0: seq<string>, queue0: seq<string>)
      returns (inDegree: map<string, int>, result: seq<string>, queue: seq<string>)
      requires KahnInvariant(inDegree0, result0, queue0, SetOf(result0), []) && queue0 != []
      requires EdgesPointForward(result0, edges)
      ensures KahnInvariant(inDegree, result, queue, SetOf(result), [])
      ensures EdgesPointForward(result, edges)
      ensures result == result0 + [queue0[0]]
      ensures vertices.Keys - SetOf(result) < vertices.Keys - SetOf(result0)
    {
      var vertexId := queue0[0];
      EnqueuedIsReady(inDegree0, result0, queue0);
      StartRelaxing(inDegree0, result0, queue0);
      result, queue := result0 + [vertexId], queue0[1..];
      SetOfSnoc(result0, vertexId);
      inDegree, queue := RelaxDownstream(inDegree0, queue, vertexId, result);
    }

    method ReadyVertices(inDegree: map<string, int>) returns (queue: seq<string>)
      requires Valid() && inDegree.Keys == vertices.Keys
      ensures Distinct(queue)
      ensures forall v :: v in queue <==> v in vertices && inDegree[v] == 0
    {
      queue := [];
      for i := 0 to |vertexIds|
        invariant Distinct(queue)
        invariant forall v :: v in queue <==> v in vertexIds[..i] && inDegree[v] == 0
      {
        assert vertexIds[..i + 1] == vertexIds[..i] + [vertexIds[i]];
        if inDegree[vertexIds[i]] == 0 {
          queue := queue + [vertexIds[i]];
        }
      }
      assert vertexIds[..|vertexIds|] == vertexIds;
      assert forall v :: v in SetOf(vertexIds) <==> v in vertexIds;
    }

    /** The inner loop: one decrement per edge leaving vertexId, parallel edges included. */
    method RelaxDownstream(inDegree0: map<string, int>, queue0: seq<string>, vertexId: string,
                           ghost result: seq<string>)
      returns (inDegree: map<string, int>, queue: seq<string>)
      requires KahnInvariant(inDegree0, result, queue0, SetOf(result), Downstream(edges, vertexId))
      ensures KahnInvariant(inDegree, result, queue, SetOf(result), [])
    {
      inDegree, queue := inDegree0, queue0;
      var downstream := Downstream(edges, vertexId);
      assert downstream[0..] == downstream;
      for k := 0 to |downstream|
        invariant KahnInvariant(inDegree, result, queue, SetOf(result), downstream[k..])
      {
        var d := downstream[k];
        RelaxStep(inDegree, result, queue, SetOf(result), downstream[k..]);
        inDegree := inDegree[d := inDegree[d] - 1];
        if inDegree[d] == 0 {
          queue := queue + [d];
        }
        assert downstream[k..][1..] == downstream[k + 1..];
      }
      assert downstream[|downstream|..] == [];
    }

    method CountInDegrees() returns (inDegree: map<string, int>)
      requires Valid()
      ensures inDegree.Keys == vertices.Keys
      ensures forall v :: v in inDegree ==> inDegree[v] == OpenInEdges(edges, v, {})
    {
      inDegree := map v | v in vertices :: 0;
      for i := 0 to |edges|
        invariant inDegree.Keys == vertices.Keys
        invariant forall v :: v in inDegree ==> inDegree[v] == OpenInEdges(edges[..i], v, {})
      {
        var t := edges[i].target;
        forall v | v in inDegree
          ensures OpenInEdges(edges[..i + 1], v, {}) == OpenInEdges(edges[..i], v, {}) + (if v == t then 1 else 0)
        {
          assert edges[..i + 1] == edges[..i] + [edges[i]];
          OpenInEdgesSnoc(edges[..i], edges[i], v, {});
        }
        inDegree := inDegree[t := inDegree[t] + 1];
      }
      assert edges[..|edges|] == edges;
    }

    /** What the two loops of TopologicalSort keep: an in-degree counts the open in-edges plus
        the decrements still due, and is zero exactly for the vertices already enqueued. */
    ghost predicate KahnInvariant(inDegree: map<string, int>, result: seq<string>, queue: seq<string>,
                                  done: set<string>, due: seq<string>)
      reads this
    {
      && Valid()
      && inDegree.Keys == vertices.Keys
      && done == SetOf(result)
      && Distinct(result + queue)
      && (forall v :: v in result + queue ==> v in vertices)
      && (forall v :: v in due ==> v in vertices)
      && (forall v :: v in inDegree ==> inDegree[v] == OpenInEdges(edges, v, done) + Count(due, v))
      && (forall v :: v in inDegree ==> (v in result + queue <==> inDegree[v] == 0))
    }

    lemma NothingSorted(inDegree: map<string, int>, queue: seq<string>)
      requires Valid() && inDegree.Keys == vertices.Keys && Distinct(queue)
      requires forall v :: v in inDegree ==> inDegree[v] == OpenInEdges(edges, v, {})
      requires forall v :: v in queue <==> v in vertices && inDegree[v] == 0
      ensures KahnInvariant(inDegree, [], queue, SetOf([]), [])
    {
      assert [] + queue == queue;
      assert SetOf<string>([]) == {};
    }

    lemma EnqueuedIsReady(inDegree: map<string, int>, result: seq<string>, queue: seq<string>)
      requires KahnInvariant(inDegree, result, queue, SetOf(result), []) && queue != []
      requires EdgesPointForward(result, edges)
      ensures EdgesPointForward(result + [queue[0]], edges)
      ensures queue[0] in vertices && queue[0] !in result
    {
      var u := queue[0];
      assert (result + queue)[|result|] == u;
      assert u in result + queue;
      OpenInEdgesZero(edges, u, SetOf(result));
      var longer := result + [u];
      forall i, j | 0 <= i < |edges| && 0 <= j < |longer| && edges[i].target == longer[j]
        ensures edges[i].source in longer[..j]
      {
        if j < |result| {
          assert longer[..j] == result[..j];
        } else {
          assert longer[..j] == result;
        }
      }
      forall k | 0 <= k < |result| ensures result[k] != u {
        assert (result + queue)[k] == result[k];
      }
    }

    lemma StartRelaxing(inDegree: map<string, int>, result: seq<string>, queue: seq<string>)
      requires queue != []
      requires KahnInvariant(inDegree, result, queue, SetOf(result), [])
      ensures KahnInvariant(inDegree, result + [queue[0]], queue[1..], SetOf(result + [queue[0]]),
                            Downstream(edges, queue[0]))
    {
      var u, n := queue[0], |result|;
      var longer := result + [u];
      assert longer + queue[1..] == result + queue;
      assert SetOf(longer) == SetOf(result) + {u};
      assert u !in result by {
        forall k | 0 <= k < n ensures result[k] != u {
          assert (result + queue)[k] != (result + queue)[n];
        }
      }
      DownstreamTargets(edges, u);
      forall v | v in inDegree
        ensures inDegree[v] == OpenInEdges(edges, v, SetOf(longer)) + Count(Downstream(edges, u), v)
      {
        OpenInEdgesFinish(edges, v, SetOf(result), u);
      }
    }

    lemma RelaxStep(inDegree: map<string, int>, result: seq<string>, queue: seq<string>, done: set<string>,
                    due: seq<string>)
      requires KahnInvariant(inDegree, result, queue, done, due) && due != []
      ensures inDegree[due[0]] > 0
      ensures var lower := inDegree[due[0] := inDegree[due[0]] - 1];
              KahnInvariant(lower, result, if lower[due[0]] == 0 then queue + [due[0]] else queue, done, due[1..])
    {
      var d := due[0];
      assert d in due;
      CountZero(due, d);
      assert d !in result + queue;
      var lower := inDegree[d := inDegree[d] - 1];
      var longer := if lower[d] == 0 then queue + [d] else queue;
      assert result + (queue + [d]) == (result + queue) + [d];
    }

    lemma Exhausted(inDegree: map<string, int>, result: seq<string>)
      requires KahnInvariant(inDegree, result, [], SetOf(result), [])
      ensures |result| == |vertices| ==> SetOf(result) == vertices.Keys && Distinct(result)
      ensures |result| != |vertices| ==> Cyclic(edges)
    {
      assert result + [] == result;
      DistinctCard(result);
      SubsetCard(SetOf(result), vertices.Keys);
      if |result| != |vertices| {
        var stuck := vertices.Keys - SetOf(result);
        assert |vertices| == |vertices.Keys|;
        assert SetOf(result) != vertices.Keys;
        var missing :| missing in vertices.Keys && missing !in SetOf(result);
        assert missing in stuck;
        forall v | v in stuck ensures HasPredecessorIn(edges, stuck, v) {
          OpenInEdgesZero(edges, v, SetOf(result));
          var i :| 0 <= i < |edges| && edges[i].target == v && edges[i].source !in SetOf(result);
          assert edges[i].source in stuck && HasEdge(edges, edges[i].source, v);
        }
        StuckSetIsCyclic(edges, stuck);
      }
    }
  }
}
