/** Physical tasks of a chained job graph (jobmanager/scheduler.py:76-143). */
module PhysicalTasks {
  import opened Common
  import opened JobGraphs
  import opened Chaining

  datatype PhysicalTask = PhysicalTask(
    id: string, operators: seq<string>,
    upstreamVertices: seq<string>, downstreamVertices: seq<string>,
    parallelismIndex: nat, parallelism: int)

  // Task names.

  function Digit(d: nat): char
    requires d < 10
  {
    "0123456789"[d]
  }

  function Decimal(n: nat): (s: string)
    ensures s != []
  {
    if n < 10 then [Digit(n)] else Decimal(n / 10) + [Digit(n % 10)]
  }

  function TaskId(jobId: string, chainId: nat, index: nat): string {
    jobId + "_chain" + Decimal(chainId) + "_parallel" + Decimal(index)
  }

  lemma {:induction false} DecimalIsDigits(n: nat)
    ensures forall i :: 0 <= i < |Decimal(n)| ==> '0' <= Decimal(n)[i] <= '9'
  {
    if n >= 10 {
      DecimalIsDigits(n / 10);
    }
  }

  lemma {:induction false} DecimalIsInjective(m: nat, n: nat)
    requires Decimal(m) == Decimal(n)
    ensures m == n
  {
    var s, t := Decimal(m), Decimal(n);
    assert m < 10 <==> |s| == 1;
    assert n < 10 <==> |t| == 1;
    if m >= 10 {
      assert s[..|s| - 1] == Decimal(m / 10) && t[..|t| - 1] == Decimal(n / 10);
      DecimalIsInjective(m / 10, n / 10);
      assert s[|s| - 1] == Digit(m % 10) && t[|t| - 1] == Digit(n % 10);
    }
  }

  /** A run of digits before a non-digit ends in only one place. */
  lemma DigitsEndAtOnePlace(a: string, rest: string, b: string, rest': string)
    requires a + rest == b + rest'
    requires forall i :: 0 <= i < |a| ==> '0' <= a[i] <= '9'
    requires forall i :: 0 <= i < |b| ==> '0' <= b[i] <= '9'
    requires rest != [] && rest' != [] && rest[0] == rest'[0] == '_'
    ensures a == b && rest == rest'
  {
    var s := a + rest;
    assert s[|a|] == '_' == s[|b|];
    assert forall k :: 0 <= k < |a| ==> s[k] == a[k];
    assert forall k :: 0 <= k < |b| ==> s[k] == b[k];
    assert |a| == |b|;
    assert a == s[..|a|] == b && rest == s[|a|..] == rest';
  }

  /** The chain number ends at the first non-digit, so the two numbers can be read back. */
  lemma TaskIdIsInjective(jobId: string, c: nat, i: nat, c': nat, i': nat)
    requires TaskId(jobId, c, i) == TaskId(jobId, c', i')
    ensures c == c' && i == i'
  {
    var prefix, infix := jobId + "_chain", "_parallel";
    var rest, rest' := infix + Decimal(i), infix + Decimal(i');
    assert TaskId(jobId, c, i) == prefix + (Decimal(c) + rest);
    assert TaskId(jobId, c', i') == prefix + (Decimal(c') + rest');
    AppendIsInjective(prefix, Decimal(c) + rest, Decimal(c') + rest');
    DecimalIsDigits(c);
    DecimalIsDigits(c');
    DigitsEndAtOnePlace(Decimal(c), rest, Decimal(c'), rest');
    DecimalIsInjective(c, c');
    AppendIsInjective(infix, Decimal(i), Decimal(i'));
    DecimalIsInjective(i, i');
  }

  lemma AppendIsInjective(prefix: string, s: string, t: string)
    requires prefix + s == prefix + t
    ensures s == t
  {
    assert s == (prefix + s)[|prefix|..] == t;
  }

  // The tasks.

  function MaxParallelism(vertices: map<string, JobVertex>, chain: seq<string>): int
    requires chain != [] && forall v :: v in chain ==> v in vertices
  {
    var n := |chain| - 1;
    if n == 0 then vertices[chain[0]].parallelism
    else Max(MaxParallelism(vertices, chain[..n]), vertices[chain[n]].parallelism)
  }

  lemma {:induction false} MaxParallelismIsMaximum(vertices: map<string, JobVertex>, chain: seq<string>)
    returns (k: nat)
    requires chain != [] && forall v :: v in chain ==> v in vertices
    ensures k < |chain| && vertices[chain[k]].parallelism == MaxParallelism(vertices, chain)
    ensures forall i :: 0 <= i < |chain| ==> vertices[chain[i]].parallelism <= MaxParallelism(vertices, chain)
  {
    var n := |chain| - 1;
    if n == 0 {
      k := 0;
    } else {
      k := MaxParallelismIsMaximum(vertices, chain[..n]);
      assert forall i :: 0 <= i < n ==> chain[i] == chain[..n][i];
      if vertices[chain[k]].parallelism < vertices[chain[n]].parallelism {
        k := n;
      }
    }
  }

  function NotIn(chain: seq<string>): string -> bool {
    v => v !in chain
  }

  function UpstreamVertices(edges: seq<JobEdge>, chain: seq<string>): seq<string>
    requires chain != []
  {
    Filter(NotIn(chain), Upstream(edges, chain[0]))
  }

  function DownstreamVertices(edges: seq<JobEdge>, chain: seq<string>): seq<string>
    requires chain != []
  {
    Filter(NotIn(chain), Downstream(edges, Last(chain)))
  }

  predicate UsableChains(vertices: map<string, JobVertex>, chains: seq<seq<string>>) {
    forall i :: 0 <= i < |chains| ==> chains[i] != [] && forall v :: v in chains[i] ==> v in vertices
  }

  function TaskOfChain(jobId: string, vertices: map<string, JobVertex>, edges: seq<JobEdge>, chain: seq<string>,
                       chainId: nat, i: nat): PhysicalTask
    requires chain != [] && forall v :: v in chain ==> v in vertices
  {
    PhysicalTask(TaskId(jobId, chainId, i), chain, UpstreamVertices(edges, chain), DownstreamVertices(edges, chain),
                 i, MaxParallelism(vertices, chain))
  }

  function TasksOfChain(jobId: string, vertices: map<string, JobVertex>, edges: seq<JobEdge>, chain: seq<string>,
                        chainId: nat, n: nat): seq<PhysicalTask>
    requires chain != [] && forall v :: v in chain ==> v in vertices
  {
    seq(n, i requires 0 <= i < n => TaskOfChain(jobId, vertices, edges, chain, chainId, i))
  }

  function AllTasks(jobId: string, vertices: map<string, JobVertex>, edges: seq<JobEdge>,
                    chains: seq<seq<string>>): seq<PhysicalTask>
    requires UsableChains(vertices, chains)
  {
    var n := |chains|;
    if n == 0 then []
    else AllTasks(jobId, vertices, edges, chains[..n - 1])
         + TasksOfChain(jobId, vertices, edges, chains[n - 1], n, Max(0, MaxParallelism(vertices, chains[n - 1])))
  }

  method CreatePhysicalTasks(jobId: string, graph: JobGraph, chains: seq<seq<string>>)
    returns (tasks: seq<PhysicalTask>)
    requires graph.Valid() && UsableChains(graph.vertices, chains)
    ensures tasks == AllTasks(jobId, graph.vertices, graph.edges, chains)
  {
    tasks := [];
    var chainId := 0;
    for c := 0 to |chains|
      invariant chainId == c
      invariant tasks == AllTasks(jobId, graph.vertices, graph.edges, chains[..c])
    {
      assert chains[..c + 1][..c] == chains[..c];
      chainId := chainId + 1;
      var parallelism := LargestParallelism(graph, chains[c]);
      var instances := CreateInstances(jobId, graph, chains[c], chainId, parallelism);
      tasks := tasks + instances;
    }
    assert chains[..|chains|] == chains;
  }

  method LargestParallelism(graph: JobGraph, chain: seq<string>) returns (parallelism: int)
    requires chain != [] && forall v :: v in chain ==> v in graph.vertices
    ensures parallelism == MaxParallelism(graph.vertices, chain)
  {
    parallelism := graph.vertices[chain[0]].parallelism;
    assert chain[..1] == [chain[0]];
    for k := 1 to |chain|
      invariant parallelism == MaxParallelism(graph.vertices, chain[..k])
    {
      assert chain[..k + 1][..k] == chain[..k];
      parallelism := Max(parallelism, graph.vertices[chain[k]].parallelism);
    }
    assert chain[..|chain|] == chain;
  }

  /** The inner loop: the parallel instances of one chain. */
  method CreateInstances(jobId: string, graph: JobGraph, chain: seq<string>, chainId: nat, parallelism: int)
    returns (tasks: seq<PhysicalTask>)
    requires chain != [] && forall v :: v in chain ==> v in graph.vertices
    requires parallelism == MaxParallelism(graph.vertices, chain)
    ensures tasks == TasksOfChain(jobId, graph.vertices, graph.edges, chain, chainId, Max(0, parallelism))
  {
    var upstream := Filter(NotIn(chain), Upstream(graph.edges, chain[0]));
    var downstream := Filter(NotIn(chain), Downstream(graph.edges, Last(chain)));
    tasks := [];
    for i := 0 to Max(0, parallelism)
      invariant tasks == TasksOfChain(jobId, graph.vertices, graph.edges, chain, chainId, i)
    {
      tasks := tasks + [PhysicalTask(TaskId(jobId, chainId, i), chain, upstream, downstream, i, parallelism)];
    }
  }

  /** One task per chain and parallel instance, counted over all chains. */
  function TaskCount(vertices: map<string, JobVertex>, chains: seq<seq<string>>): nat
    requires UsableChains(vertices, chains)
  {
    if chains == [] then 0 else Max(0, MaxParallelism(vertices, chains[0])) + TaskCount(vertices, chains[1..])
  }

  lemma {:induction false} TaskCountSnoc(vertices: map<string, JobVertex>, chains: seq<seq<string>>)
    requires UsableChains(vertices, chains) && chains != []
    ensures TaskCount(vertices, chains)
            == TaskCount(vertices, chains[..|chains| - 1]) + Max(0, MaxParallelism(vertices, chains[|chains| - 1]))
  {
    var n := |chains|;
    if n > 1 {
      TaskCountSnoc(vertices, chains[1..]);
      assert chains[1..][..n - 2] == chains[..n - 1][1..];
    }
  }

  lemma {:induction false} TasksAreCounted(jobId: string, vertices: map<string, JobVertex>, edges: seq<JobEdge>,
                                           chains: seq<seq<string>>)
    requires UsableChains(vertices, chains)
    ensures |AllTasks(jobId, vertices, edges, chains)| == TaskCount(vertices, chains)
    decreases |chains|
  {
    if chains == [] {
    } else {
      TasksAreCounted(jobId, vertices, edges, chains[..|chains| - 1]);
      TaskCountSnoc(vertices, chains);
    }
  }

  /** Every task carries the number of its chain, counted from one, and that chain's data. */
  lemma {:induction false} TaskBelongsToChain(jobId: string, vertices: map<string, JobVertex>, edges: seq<JobEdge>,
                                              chains: seq<seq<string>>, k: nat)
    returns (c: nat, i: nat)
    requires UsableChains(vertices, chains) && k < |AllTasks(jobId, vertices, edges, chains)|
    ensures c < |chains| && i < MaxParallelism(vertices, chains[c])
    ensures AllTasks(jobId, vertices, edges, chains)[k] == TaskOfChain(jobId, vertices, edges, chains[c], c + 1, i)
    ensures k == TaskCount(vertices, chains[..c]) + i
    decreases |chains|
  {
    var n := |chains|;
    var earlier := AllTasks(jobId, vertices, edges, chains[..n - 1]);
    TasksAreCounted(jobId, vertices, edges, chains[..n - 1]);
    if k < |earlier| {
      c, i := TaskBelongsToChain(jobId, vertices, edges, chains[..n - 1], k);
      assert chains[..n - 1][..c] == chains[..c];
    } else {
      c, i := n - 1, k - |earlier|;
    }
  }

  lemma {:induction false} TaskIdsAreDistinct(jobId: string, vertices: map<string, JobVertex>, edges: seq<JobEdge>,
                                              chains: seq<seq<string>>, k: nat, l: nat)
    requires UsableChains(vertices, chains)
    requires k < l < |AllTasks(jobId, vertices, edges, chains)|
    ensures AllTasks(jobId, vertices, edges, chains)[k].id != AllTasks(jobId, vertices, edges, chains)[l].id
    decreases |chains|
  {
    var n := |chains|;
    var all, earlier := AllTasks(jobId, vertices, edges, chains), AllTasks(jobId, vertices, edges, chains[..n - 1]);
    if l < |earlier| {
      TaskIdsAreDistinct(jobId, vertices, edges, chains[..n - 1], k, l);
    } else if all[k].id == all[l].id {
      if k < |earlier| {
        var c, i := TaskBelongsToChain(jobId, vertices, edges, chains[..n - 1], k);
        TaskIdIsInjective(jobId, c + 1, i, n, l - |earlier|);
      } else {
        TaskIdIsInjective(jobId, n, k - |earlier|, n, l - |earlier|);
      }
    }
  }

  /** Reading only the first vertex of a chain finds every vertex outside that feeds any vertex
      of the chain, and nothing else. */
  lemma FirstVertexSeesAllInputs(edges: seq<JobEdge>, chains: seq<seq<string>>, i: nat, u: string)
    requires ChainsCorrect(edges, chains) && i < |chains|
    ensures u in UpstreamVertices(edges, chains[i])
            <==> u !in chains[i] && exists v :: v in chains[i] && HasEdge(edges, u, v)
  {
    var chain := chains[i];
    UpstreamSources(edges, chain[0]);
    FilterMembers(NotIn(chain), Upstream(edges, chain[0]));
    if u !in chain && exists v :: v in chain && HasEdge(edges, u, v) {
      var v :| v in chain && HasEdge(edges, u, v);
      var b :| 0 <= b < |chain| && chain[b] == v;
      var e: nat :| e < |edges| && edges[e].source == u && edges[e].target == v;
      assert At(chains, i, b, v);
      if b > 0 {
        EdgeToInside(edges, chains, e, i, b);
        assert false;
      }
    }
  }

  /** The same for the last vertex and the vertices a chain feeds. */
  lemma LastVertexSeesAllOutputs(edges: seq<JobEdge>, chains: seq<seq<string>>, i: nat, v: string)
    requires ChainsCorrect(edges, chains) && i < |chains|
    ensures v in DownstreamVertices(edges, chains[i])
            <==> v !in chains[i] && exists u :: u in chains[i] && HasEdge(edges, u, v)
  {
    var chain := chains[i];
    DownstreamTargets(edges, Last(chain));
    FilterMembers(NotIn(chain), Downstream(edges, Last(chain)));
    if v !in chain && exists u :: u in chain && HasEdge(edges, u, v) {
      var u :| u in chain && HasEdge(edges, u, v);
      var a :| 0 <= a < |chain| && chain[a] == u;
      var e: nat :| e < |edges| && edges[e].source == u && edges[e].target == v;
      assert At(chains, i, a, u);
      if a < |chain| - 1 {
        EdgeFromInside(edges, chains, e, i, a);
        assert false;
      }
    }
  }

  /** What a task carries, field by field: it is one instance of one chain, in its place among the tasks,
      with the chain's operators and parallelism, and its neighbours are exactly the vertices outside
      the chain that feed it or are fed by it. */
  lemma TaskCarriesItsChain(jobId: string, vertices: map<string, JobVertex>, edges: seq<JobEdge>,
                            chains: seq<seq<string>>, k: nat) returns (c: nat, i: nat)
    requires UsableChains(vertices, chains) && ChainsCorrect(edges, chains)
    requires k < |AllTasks(jobId, vertices, edges, chains)|
    ensures c < |chains| && k == TaskCount(vertices, chains[..c]) + i
    ensures var task := AllTasks(jobId, vertices, edges, chains)[k];
            && task.id == jobId + "_chain" + Decimal(c + 1) + "_parallel" + Decimal(i)
            && task.operators == chains[c] && task.parallelismIndex == i < task.parallelism
            && (forall v :: v in chains[c] ==> vertices[v].parallelism <= task.parallelism)
            && (exists v :: v in chains[c] && vertices[v].parallelism == task.parallelism)
            && (forall u :: u in task.upstreamVertices
                            <==> u !in chains[c] && exists v :: v in chains[c] && HasEdge(edges, u, v))
            && (forall v :: v in task.downstreamVertices
                            <==> v !in chains[c] && exists u :: u in chains[c] && HasEdge(edges, u, v))
  {
    c, i := TaskBelongsToChain(jobId, vertices, edges, chains, k);
    var m := MaxParallelismIsMaximum(vertices, chains[c]);
    assert chains[c][m] in chains[c];
    forall u
      ensures u in UpstreamVertices(edges, chains[c])
              <==> u !in chains[c] && exists v :: v in chains[c] && HasEdge(edges, u, v)
    {
      FirstVertexSeesAllInputs(edges, chains, c, u);
    }
    forall v
      ensures v in DownstreamVertices(edges, chains[c])
              <==> v !in chains[c] && exists u :: u in chains[c] && HasEdge(edges, u, v)
    {
      LastVertexSeesAllOutputs(edges, chains, c, v);
    }
  }

  function DigitValue(c: char): int {
    c as int - '0' as int
  }

  function DecimalValue(s: string): int {
    if s == [] then 0 else 10 * DecimalValue(s[..|s| - 1]) + DigitValue(s[|s| - 1])
  }

  /** Reading a numeral as a decimal number gives the number back. */
  lemma {:induction false} DecimalIsDecimal(n: nat)
    ensures DecimalValue(Decimal(n)) == n
  {
    if n < 10 {
      assert [Digit(n)][..0] == [];
    } else {
      DecimalIsDecimal(n / 10);
      assert Decimal(n)[..|Decimal(n)| - 1] == Decimal(n / 10);
    }
  }
}
