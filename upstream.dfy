/** The ancestor walk of src/App.jsx (`getUpstream`) as functions over the graph
    state: which labels it emits, in which order, and which ids it marks visited. */
module Upstream {
  import opened Wrappers
  import opened Wire
  import opened Belief

  function Ids(nodes: seq<Node>): set<string> {
    set n | n in nodes :: n.id
  }

  function Labels(nodes: seq<Node>): set<Entry> {
    set n | n in nodes :: n.data.belief
  }

  /** `edges.filter(e => e.target === id).map(e => e.source)`. */
  function Sources(edges: seq<Edge>, id: string): (r: seq<string>)
    ensures |r| <= |edges|
  {
    if |edges| == 0 then []
    else (if edges[0].target == id then [edges[0].source] else []) + Sources(edges[1..], id)
  }

  /** The sources are exactly the source ends of the edges into the node. */
  lemma {:induction false} SourcesMembers(edges: seq<Edge>, id: string)
    ensures forall s :: s in Sources(edges, id) <==> exists e :: e in edges && e.target == id && e.source == s
  {
    if |edges| > 0 {
      SourcesMembers(edges[1..], id);
      assert forall e :: e in edges <==> e == edges[0] || e in edges[1..];
    }
  }

  /** One edge contributes its source exactly when it points at the node. */
  lemma SourcesOne(e: Edge, id: string)
    ensures Sources([e], id) == if e.target == id then [e.source] else []
  {
    assert [e][1..] == [];
  }

  /** The sources of a concatenation of edge lists are the sources of each, in order. */
  lemma {:induction false} SourcesAppend(a: seq<Edge>, b: seq<Edge>, id: string)
    ensures Sources(a + b, id) == Sources(a, id) + Sources(b, id)
  {
    if |a| > 0 {
      assert (a + b)[0] == a[0];
      assert (a + b)[1..] == a[1..] + b;
      SourcesAppend(a[1..], b, id);
    } else {
      assert a + b == b;
    }
  }

  /** `nodes.find(n => n.id === id)`: the first node with that id. */
  function Find(nodes: seq<Node>, id: string): (r: Option<Node>)
    ensures r.Some? <==> id in Ids(nodes)
    ensures r.Some? ==> r.value in nodes && r.value.id == id
  {
    if |nodes| == 0 then None
    else if nodes[0].id == id then Some(nodes[0])
    else
      var r := Find(nodes[1..], id);
      assert Ids(nodes) == {nodes[0].id} + Ids(nodes[1..]) by {
        assert forall n :: n in nodes <==> n == nodes[0] || n in nodes[1..];
      }
      r
  }

  /** `find` returns the first node with the id: one earlier in the list never has it. */
  lemma {:induction false} FindFirst(nodes: seq<Node>, id: string, k: int)
    requires 0 <= k < |nodes| && nodes[k].id == id
    requires forall j :: 0 <= j < k ==> nodes[j].id != id
    ensures Find(nodes, id) == Some(nodes[k])
  {
    if k > 0 {
      assert nodes[0].id != id;
      FindFirst(nodes[1..], id, k - 1);
    }
  }

  /** `ids.map(id => nodes.find(...)).filter(Boolean)`: the sources that are nodes. */
  function Resolve(nodes: seq<Node>, ids: seq<string>): (r: seq<Node>)
    ensures |r| <= |ids|
    ensures forall i :: 0 <= i < |r| ==> r[i] in nodes
  {
    if |ids| == 0 then []
    else
      match Find(nodes, ids[0])
      case Some(n) => [n] + Resolve(nodes, ids[1..])
      case None => Resolve(nodes, ids[1..])
  }

  /** Every resolved node has one of the ids, and every id that names a node is resolved
      to the first node with it. */
  lemma {:induction false} ResolveMembers(nodes: seq<Node>, ids: seq<string>)
    ensures forall n :: n in Resolve(nodes, ids) ==> n.id in ids
    ensures forall x :: x in ids && x in Ids(nodes) ==> Find(nodes, x).value in Resolve(nodes, ids)
  {
    if |ids| > 0 {
      ResolveMembers(nodes, ids[1..]);
      assert forall x :: x in ids <==> x == ids[0] || x in ids[1..];
    }
  }

  /** Resolving a concatenation of ids resolves each part, in order. */
  lemma {:induction false} ResolveAppend(nodes: seq<Node>, a: seq<string>, b: seq<string>)
    ensures Resolve(nodes, a + b) == Resolve(nodes, a) + Resolve(nodes, b)
  {
    if |a| > 0 {
      assert (a + b)[0] == a[0];
      assert (a + b)[1..] == a[1..] + b;
      ResolveAppend(nodes, a[1..], b);
    } else {
      assert a + b == b;
    }
  }

  /** The nodes at the source end of the edges into `id`, in edge order. */
  function Parents(nodes: seq<Node>, edges: seq<Edge>, id: string): (r: seq<Node>)
    ensures |r| <= |Sources(edges, id)|
    ensures forall i :: 0 <= i < |r| ==> r[i] in nodes
  {
    Resolve(nodes, Sources(edges, id))
  }

  /** Each parent is the source end of an edge into the node, and the source end of every
      such edge that is a node is a parent (the first node with that id). */
  lemma ParentsMembers(nodes: seq<Node>, edges: seq<Edge>, id: string)
    ensures forall n :: n in Parents(nodes, edges, id) ==>
      exists e :: e in edges && e.target == id && e.source == n.id
    ensures forall e :: e in edges && e.target == id && e.source in Ids(nodes) ==>
      Find(nodes, e.source).value in Parents(nodes, edges, id)
  {
    var ss := Sources(edges, id);
    SourcesMembers(edges, id);
    ResolveMembers(nodes, ss);
    assert forall e :: e in edges && e.target == id ==> e.source in ss;
  }

  /** The parents found along a concatenation of edge lists are those of each part, in order. */
  lemma ParentsAppend(nodes: seq<Node>, a: seq<Edge>, b: seq<Edge>, id: string)
    ensures Parents(nodes, a + b, id) == Parents(nodes, a, id) + Parents(nodes, b, id)
  {
    SourcesAppend(a, b, id);
    ResolveAppend(nodes, Sources(a, id), Sources(b, id));
  }

  /** What a call returns, together with the visited set as the call leaves it. */
  datatype Walked = Walked(labels: seq<Entry>, visited: set<string>)

  lemma CardStep(ids: set<string>, visited: set<string>, id: string)
    requires id !in visited
    ensures |ids - (visited + {id})| < |(ids + {id}) - visited|
  {
    assert (ids + {id}) - visited == (ids - (visited + {id})) + {id};
  }

  lemma CardMonotone(ids: set<string>, v: set<string>, w: set<string>)
    requires v <= w
    ensures |ids - w| <= |ids - v|
  {
    assert ids - w <= ids - v;
    assert (ids - v) == (ids - w) + ((ids - v) - (ids - w));
  }

  /** `getUpstream(id, visited)`: nothing for an id already visited; otherwise mark it
      visited and, for each parent in edge order, emit the parent's label followed by
      the parent's own upstream. */
  function Walk(nodes: seq<Node>, edges: seq<Edge>, id: string, visited: set<string>): (r: Walked)
    ensures visited <= r.visited
    ensures forall i :: 0 <= i < |r.labels| ==> r.labels[i] in Labels(nodes)
    decreases |(Ids(nodes) + {id}) - visited|, 0
  {
    if id in visited then Walked([], visited)
    else
      CardStep(Ids(nodes), visited, id);
      var r := WalkEach(nodes, edges, Parents(nodes, edges, id), visited + {id});
      r
  }

  /** The `flatMap` over the parents, threading the visited set from one to the next. */
  function WalkEach(nodes: seq<Node>, edges: seq<Edge>, parents: seq<Node>, visited: set<string>): (r: Walked)
    requires forall i :: 0 <= i < |parents| ==> parents[i] in nodes
    ensures visited <= r.visited
    ensures forall i :: 0 <= i < |r.labels| ==> r.labels[i] in Labels(nodes)
    decreases |Ids(nodes) - visited|, |parents|
  {
    if |parents| == 0 then Walked([], visited)
    else
      var p := parents[0];
      assert p.id in Ids(nodes);
      assert Ids(nodes) + {p.id} == Ids(nodes);
      var first := Walk(nodes, edges, p.id, visited);
      CardMonotone(Ids(nodes), visited, first.visited);
      var rest := WalkEach(nodes, edges, parents[1..], first.visited);
      assert p.data.belief in Labels(nodes);
      Walked([p.data.belief] + first.labels + rest.labels, rest.visited)
  }

  /** `getUpstream(id)` with its default, empty, visited set. */
  function UpstreamOf(nodes: seq<Node>, edges: seq<Edge>, id: string): (r: seq<Entry>)
    ensures forall i :: 0 <= i < |r| ==> r[i] in Labels(nodes)
  {
    Walk(nodes, edges, id, {}).labels
  }

  // ---------------------------------------------------------------------
  // Properties of the walk
  // ---------------------------------------------------------------------

  /** An id already visited contributes nothing and changes nothing. */
  lemma WalkVisited(nodes: seq<Node>, edges: seq<Edge>, id: string, visited: set<string>)
    requires id in visited
    ensures Walk(nodes, edges, id, visited) == Walked([], visited)
  {
  }

  lemma {:induction false} SourcesNone(edges: seq<Edge>, id: string)
    requires forall i :: 0 <= i < |edges| ==> edges[i].target != id
    ensures Sources(edges, id) == []
  {
    if |edges| > 0 {
      SourcesNone(edges[1..], id);
    }
  }

  /** A node no edge points to has no upstream. */
  lemma NoIncomingNoUpstream(nodes: seq<Node>, edges: seq<Edge>, id: string, visited: set<string>)
    requires forall i :: 0 <= i < |edges| ==> edges[i].target != id
    ensures Walk(nodes, edges, id, visited).labels == []
  {
    SourcesNone(edges, id);
  }

  /** Every parent's label is emitted, even a parent already visited: the label is
      written before the visited check of the recursive call. */
  lemma {:induction false} WalkEachListsParents(nodes: seq<Node>, edges: seq<Edge>, parents: seq<Node>, visited: set<string>)
    requires forall i :: 0 <= i < |parents| ==> parents[i] in nodes
    ensures forall i :: 0 <= i < |parents| ==> parents[i].data.belief in WalkEach(nodes, edges, parents, visited).labels
    decreases |parents|
  {
    if |parents| > 0 {
      var first := Walk(nodes, edges, parents[0].id, visited);
      WalkEachListsParents(nodes, edges, parents[1..], first.visited);
      var rest := WalkEach(nodes, edges, parents[1..], first.visited);
      assert WalkEach(nodes, edges, parents, visited).labels == [parents[0].data.belief] + first.labels + rest.labels;
      forall i | 1 <= i < |parents|
        ensures parents[i].data.belief in WalkEach(nodes, edges, parents, visited).labels
      {
        assert parents[1..][i - 1] == parents[i];
      }
    }
  }

  /** The labels of all parents of an unvisited node appear in its upstream. */
  lemma WalkListsParents(nodes: seq<Node>, edges: seq<Edge>, id: string, visited: set<string>)
    requires id !in visited
    ensures forall p :: p in Parents(nodes, edges, id) ==> p.data.belief in Walk(nodes, edges, id, visited).labels
  {
    WalkEachListsParents(nodes, edges, Parents(nodes, edges, id), visited + {id});
  }

  /** Number of edges whose target is in `targets`. */
  function CountInto(edges: seq<Edge>, targets: set<string>): (r: nat)
    ensures r <= |edges|
  {
    if |edges| == 0 then 0
    else (if edges[0].target in targets then 1 else 0) + CountInto(edges[1..], targets)
  }

  lemma {:induction false} CountIntoAdd(edges: seq<Edge>, targets: set<string>, id: string)
    requires id !in targets
    ensures CountInto(edges, targets + {id}) == CountInto(edges, targets) + |Sources(edges, id)|
  {
    if |edges| > 0 {
      CountIntoAdd(edges[1..], targets, id);
    }
  }

  /** Each call that expands a node emits at most one label per edge into that node,
      and a node is expanded at most once, so the labels never outnumber the edges
      into the nodes the call visited. */
  lemma {:induction false} WalkBound(nodes: seq<Node>, edges: seq<Edge>, id: string, visited: set<string>)
    ensures var r := Walk(nodes, edges, id, visited);
      |r.labels| + CountInto(edges, visited) <= CountInto(edges, r.visited)
    decreases |(Ids(nodes) + {id}) - visited|, 0
  {
    if id !in visited {
      CardStep(Ids(nodes), visited, id);
      var ps := Parents(nodes, edges, id);
      WalkEachBound(nodes, edges, ps, visited + {id});
      CountIntoAdd(edges, visited, id);
    }
  }

  lemma {:induction false} WalkEachBound(nodes: seq<Node>, edges: seq<Edge>, parents: seq<Node>, visited: set<string>)
    requires forall i :: 0 <= i < |parents| ==> parents[i] in nodes
    ensures var r := WalkEach(nodes, edges, parents, visited);
      |r.labels| + CountInto(edges, visited) <= CountInto(edges, r.visited) + |parents|
    decreases |Ids(nodes) - visited|, |parents|
  {
    if |parents| > 0 {
      var p := parents[0];
      assert p.id in Ids(nodes);
      assert Ids(nodes) + {p.id} == Ids(nodes);
      var first := Walk(nodes, edges, p.id, visited);
      WalkBound(nodes, edges, p.id, visited);
      CardMonotone(Ids(nodes), visited, first.visited);
      WalkEachBound(nodes, edges, parents[1..], first.visited);
    }
  }

  /** A whole `getUpstream` call emits no more labels than there are edges: the walk
      expands each node at most once and so terminates, cycles included. */
  lemma UpstreamBounded(nodes: seq<Node>, edges: seq<Edge>, id: string)
    ensures |UpstreamOf(nodes, edges, id)| <= |edges|
  {
    WalkBound(nodes, edges, id, {});
  }
  function Plain(id: string, belief: string): Node {
    Node(id, Centre, NodeData(Some(belief), None, NaN, false, Unset, None, None))
  }

  /** `a` reaches `x` through both `b` and `c`. */
  predicate IsDiamond(nodes: seq<Node>, edges: seq<Edge>) {
    && nodes == [Plain("x", "X"), Plain("b", "B"), Plain("c", "C"), Plain("a", "A")]
    && edges == [Edge("bx", "b", "x", Gray), Edge("cx", "c", "x", Gray),
                 Edge("ab", "a", "b", Gray), Edge("ac", "a", "c", Gray)]
  }

  lemma DiamondSources(nodes: seq<Node>, edges: seq<Edge>, id: string)
    requires IsDiamond(nodes, edges) && id in {"x", "b", "c", "a"}
    ensures Sources(edges, id) ==
      (if id == "x" then ["b", "c"] else if id == "b" || id == "c" then ["a"] else [])
  {
    assert edges[1..][1..] == edges[2..] && edges[2..][1..] == edges[3..] && edges[3..][1..] == [];
    assert Sources(edges[3..], id) == (if id == "c" then ["a"] else []);
    assert Sources(edges[2..], id) == (if id == "b" || id == "c" then ["a"] else []);
    assert Sources(edges[1..], id) ==
      (if id == "x" then ["c"] else if id == "b" || id == "c" then ["a"] else []);
  }

  lemma DiamondFind(nodes: seq<Node>, edges: seq<Edge>, k: nat)
    requires IsDiamond(nodes, edges) && 1 <= k < 4
    ensures Find(nodes, nodes[k].id) == Some(nodes[k])
  {
    assert nodes[1..][1..] == nodes[2..] && nodes[2..][1..] == nodes[3..];
  }

  lemma DiamondParentsOfX(nodes: seq<Node>, edges: seq<Edge>)
    requires IsDiamond(nodes, edges)
    ensures Parents(nodes, edges, "x") == [nodes[1], nodes[2]]
  {
    DiamondSources(nodes, edges, "x");
    DiamondResolveMiddle(nodes, edges);
  }

  lemma DiamondResolveMiddle(nodes: seq<Node>, edges: seq<Edge>)
    requires IsDiamond(nodes, edges)
    ensures Resolve(nodes, ["b", "c"]) == [nodes[1], nodes[2]]
  {
    DiamondFind(nodes, edges, 1);
    DiamondFind(nodes, edges, 2);
    assert nodes[1].id == "b" && nodes[2].id == "c";
    ResolveTwo(nodes, "b", "c", nodes[1], nodes[2]);
  }

  /** Two ids that both name nodes resolve to those nodes, in order. */
  lemma ResolveTwo(nodes: seq<Node>, x: string, y: string, nx: Node, ny: Node)
    requires Find(nodes, x) == Some(nx) && Find(nodes, y) == Some(ny)
    ensures Resolve(nodes, [x, y]) == [nx, ny]
  {
    assert [x, y][1..] == [y] && [y][1..] == [];
    assert Resolve(nodes, [y]) == [ny];
  }

  lemma DiamondParentsOfMiddle(nodes: seq<Node>, edges: seq<Edge>, id: string)
    requires IsDiamond(nodes, edges) && (id == "b" || id == "c")
    ensures Parents(nodes, edges, id) == [nodes[3]]
  {
    DiamondSources(nodes, edges, id);
    DiamondFind(nodes, edges, 3);
  }

  lemma DiamondParentsOfTop(nodes: seq<Node>, edges: seq<Edge>)
    requires IsDiamond(nodes, edges)
    ensures Parents(nodes, edges, "a") == []
  {
    DiamondSources(nodes, edges, "a");
  }

  lemma DiamondWalkTop(nodes: seq<Node>, edges: seq<Edge>, visited: set<string>)
    requires IsDiamond(nodes, edges)
    ensures Walk(nodes, edges, "a", visited).labels == []
    ensures Walk(nodes, edges, "a", visited).visited == visited + {"a"}
  {
    DiamondParentsOfTop(nodes, edges);
    if "a" !in visited {
      assert Walk(nodes, edges, "a", visited) == WalkEach(nodes, edges, [], visited + {"a"});
    }
  }

  lemma DiamondWalkMiddle(nodes: seq<Node>, edges: seq<Edge>, id: string, visited: set<string>)
    requires IsDiamond(nodes, edges) && (id == "b" || id == "c") && id !in visited
    ensures Walk(nodes, edges, id, visited).labels == [Some("A")]
    ensures Walk(nodes, edges, id, visited).visited == visited + {id, "a"}
  {
    DiamondParentsOfMiddle(nodes, edges, id);
    DiamondWalkTop(nodes, edges, visited + {id});
    var top := nodes[3];
    assert top.id == "a" && top.data.belief == Some("A");
    assert [top][1..] == [];
    var w := WalkEach(nodes, edges, [top], visited + {id});
    var first := Walk(nodes, edges, top.id, visited + {id});
    assert first.labels == [];
    var rest := WalkEach(nodes, edges, [top][1..], first.visited);
    assert rest == Walked([], first.visited);
    assert w == Walked([top.data.belief] + first.labels + rest.labels, rest.visited);
    assert w.labels == [Some("A")];
    assert Walk(nodes, edges, id, visited) == w;
  }

  /** One step of the `flatMap`: the first parent's label, its upstream, then the rest. */
  lemma WalkEachStep(nodes: seq<Node>, edges: seq<Edge>, parents: seq<Node>, visited: set<string>)
    requires forall i :: 0 <= i < |parents| ==> parents[i] in nodes
    requires |parents| > 0
    ensures var first := Walk(nodes, edges, parents[0].id, visited);
      var rest := WalkEach(nodes, edges, parents[1..], first.visited);
      WalkEach(nodes, edges, parents, visited) ==
        Walked([parents[0].data.belief] + first.labels + rest.labels, rest.visited)
  {
  }

  /** The second branch of the diamond: `c`'s label, then `a`'s once more. */
  lemma DiamondSecondBranch(nodes: seq<Node>, edges: seq<Edge>, visited: set<string>)
    requires IsDiamond(nodes, edges) && "c" !in visited
    ensures WalkEach(nodes, edges, [nodes[2]], visited).labels == [Some("C"), Some("A")]
  {
    var c := nodes[2];
    DiamondWalkMiddle(nodes, edges, "c", visited);
    WalkEachStep(nodes, edges, [c], visited);
    assert [c][1..] == [];
  }

  lemma DiamondStart(nodes: seq<Node>, edges: seq<Edge>)
    requires IsDiamond(nodes, edges)
    ensures UpstreamOf(nodes, edges, "x") == WalkEach(nodes, edges, [nodes[1], nodes[2]], {"x"}).labels
  {
    DiamondParentsOfX(nodes, edges);
    var none: set<string> := {};
    assert none + {"x"} == {"x"};
  }

  lemma DiamondFirstBranch(nodes: seq<Node>, edges: seq<Edge>)
    requires IsDiamond(nodes, edges)
    ensures var w := WalkEach(nodes, edges, [nodes[1], nodes[2]], {"x"});
      w.labels == [Some("B"), Some("A")] + WalkEach(nodes, edges, [nodes[2]], {"x", "b", "a"}).labels
  {
    var b, c := nodes[1], nodes[2];
    DiamondWalkMiddle(nodes, edges, "b", {"x"});
    WalkEachStep(nodes, edges, [b, c], {"x"});
    assert [b, c][1..] == [c];
    assert {"x"} + {"b", "a"} == {"x", "b", "a"};
  }

  /** On a diamond the shared ancestor's label is emitted twice, once from each path;
      only its second expansion is suppressed. */
  lemma DiamondRepeatsLabel(nodes: seq<Node>, edges: seq<Edge>)
    requires IsDiamond(nodes, edges)
    ensures UpstreamOf(nodes, edges, "x") == [Some("B"), Some("A"), Some("C"), Some("A")]
  {
    DiamondStart(nodes, edges);
    DiamondFirstBranch(nodes, edges);
    DiamondSecondBranch(nodes, edges, {"x", "b", "a"});
  }
}
