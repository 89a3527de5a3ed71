/** Facts about node lookup, edge lists and reachability used by the proofs
    about editing commands and documents. */
module GraphFacts {
  import opened Prelude
  import opened GraphModel
  import opened Commands

  // ----- Node lookup -----

  lemma {:induction false} FindUnique(nodes: seq<Node>, n: Node)
    requires UniqueIds(nodes) && n in nodes
    ensures FindNode(nodes, n.id) == Some(n)
  {
    if nodes[0].id != n.id {
      FindUnique(nodes[1..], n);
    } else {
      var i :| 0 <= i < |nodes| && nodes[i] == n;
      assert i == 0;
    }
  }

  lemma {:induction false} FindAppended(nodes: seq<Node>, n: Node, id: NodeId)
    ensures FindNode(nodes + [n], id)
         == if FindNode(nodes, id).Some? then FindNode(nodes, id) else if n.id == id then Some(n) else None
  {
    if nodes != [] {
      assert (nodes + [n])[1..] == nodes[1..] + [n];
      FindAppended(nodes[1..], n, id);
    }
  }

  lemma {:induction false} FindUpdated(nodes: seq<Node>, i: nat, n: Node, id: NodeId)
    requires i == NodeIndex(nodes, n.id) && i < |nodes|
    ensures FindNode(nodes[i := n], id) == if id == n.id then Some(n) else FindNode(nodes, id)
    ensures NodeIndex(nodes[i := n], n.id) == i
  {
    if i > 0 {
      assert nodes[i := n][1..] == nodes[1..][i - 1 := n];
      FindUpdated(nodes[1..], i - 1, n, id);
    }
  }

  lemma {:induction false} FindRemoved(nodes: seq<Node>, i: nat, id: NodeId)
    requires UniqueIds(nodes) && i < |nodes|
    ensures FindNode(RemoveAt(nodes, i), id) == if id == nodes[i].id then None else FindNode(nodes, id)
  {
    if i > 0 {
      assert RemoveAt(nodes, i)[1..] == RemoveAt(nodes[1..], i - 1);
      FindRemoved(nodes[1..], i - 1, id);
    } else {
      assert RemoveAt(nodes, 0) == nodes[1..];
    }
  }

  // ----- Edge lists -----

  predicate SamePort(e: Edge, f: Edge) {
    e.to == f.to && e.toPort == f.toPort
  }

  lemma IncomingByMembership(edges: seq<Edge>, to: NodeId, port: nat)
    ensures EdgeIndex(edges, to, port) < |edges| <==> exists e :: e in edges && e.to == to && e.toPort == port
  {
    if e :| e in edges && e.to == to && e.toPort == port {
      var j :| 0 <= j < |edges| && edges[j] == e;
    }
  }

  lemma OccupantIsUnique(edges: seq<Edge>, e: Edge)
    requires SingleOccupancy(edges) && e in edges
    ensures var i := EdgeIndex(edges, e.to, e.toPort);
            && i < |edges| && edges[i] == e
            && forall f :: f in edges && SamePort(f, e) ==> f == e
  {
    IncomingByMembership(edges, e.to, e.toPort);
  }

  lemma RemovedMembers(edges: seq<Edge>, i: nat)
    requires SingleOccupancy(edges) && i < |edges|
    ensures forall e :: e in RemoveAt(edges, i) <==> e in edges && e != edges[i]
    ensures SingleOccupancy(RemoveAt(edges, i))
  {
    var r := RemoveAt(edges, i);
    forall e | e in edges && e != edges[i]
      ensures e in r
    {
      var j :| 0 <= j < |edges| && edges[j] == e;
      assert r[if j < i then j else j - 1] == e;
    }
  }

  lemma InsertedMembers(edges: seq<Edge>, i: nat, x: Edge)
    requires i <= |edges|
    ensures forall e :: e in InsertAt(edges, i, x) <==> e in edges || e == x
  {
    var r := InsertAt(edges, i, x);
    assert r[i] == x;
    forall e | e in edges
      ensures e in r
    {
      var j :| 0 <= j < |edges| && edges[j] == e;
      assert r[if j < i then j else j + 1] == e;
    }
  }

  lemma InsertedOccupancy(edges: seq<Edge>, at: nat, x: Edge)
    requires at <= |edges| && SingleOccupancy(edges)
    requires forall e :: e in edges ==> !SamePort(e, x)
    ensures SingleOccupancy(InsertAt(edges, at, x))
  {
    var r := InsertAt(edges, at, x);
    forall i, j | 0 <= i < j < |r|
      ensures !SamePort(r[i], r[j])
    {
      var i' := if i < at then i else i - 1;
      var j' := if j < at then j else j - 1;
      if i == at {
        assert r[j] == edges[j'] && edges[j'] in edges;
      } else if j == at {
        assert r[i] == edges[i'] && edges[i'] in edges;
      } else {
        assert r[i] == edges[i'] && r[j] == edges[j'];
      }
    }
  }

  lemma {:induction false} KeptOccupancy(edges: seq<Edge>, drop: Edge -> bool)
    requires SingleOccupancy(edges)
    ensures SingleOccupancy(Kept(edges, drop))
  {
    if edges != [] {
      var n := |edges| - 1;
      KeptOccupancy(edges[..n], drop);
      var r := Kept(edges[..n], drop);
      forall i | 0 <= i < |r|
        ensures !SamePort(r[i], edges[n])
      {
        assert r[i] in edges[..n];
        var j :| 0 <= j < n && edges[j] == r[i];
      }
    }
  }

  lemma {:induction false} KeptAll(edges: seq<Edge>, drop: Edge -> bool)
    requires forall e :: e in edges ==> !drop(e)
    ensures Kept(edges, drop) == edges
  {
    if edges != [] {
      var n := |edges| - 1;
      KeptAll(edges[..n], drop);
      assert edges == edges[..n] + [edges[n]];
      assert !drop(edges[n]);
    }
  }

  lemma MappedMembers(edges: seq<Edge>, f: Edge -> Edge)
    ensures forall e :: e in edges ==> f(e) in Mapped(edges, f)
    ensures forall x :: x in Mapped(edges, f) ==> exists e :: e in edges && x == f(e)
  {
    var r := Mapped(edges, f);
    forall e | e in edges
      ensures f(e) in r
    {
      var i :| 0 <= i < |edges| && edges[i] == e;
      assert r[i] == f(e);
    }
    forall x | x in r
      ensures exists e :: e in edges && x == f(e)
    {
      var i :| 0 <= i < |r| && r[i] == x;
      assert edges[i] in edges && x == f(edges[i]);
    }
  }

  lemma MappedOccupancy(edges: seq<Edge>, f: Edge -> Edge)
    requires SingleOccupancy(edges)
    requires forall d, e :: d in edges && e in edges && SamePort(f(d), f(e)) ==> SamePort(d, e)
    ensures SingleOccupancy(Mapped(edges, f))
  {
    var r := Mapped(edges, f);
    forall i, j | 0 <= i < j < |r|
      ensures !SamePort(r[i], r[j])
    {
      assert edges[i] in edges && edges[j] in edges;
    }
  }

  // ----- Places -----

  function EdgesOf(entries: seq<(nat, Edge)>): (r: set<Edge>)
    ensures forall k :: 0 <= k < |entries| ==> entries[k].1 in r
  {
    if entries == [] then {}
    else EdgesOf(entries[..|entries| - 1]) + {entries[|entries| - 1].1}
  }

  lemma EdgesOfAppended(entries: seq<(nat, Edge)>, x: (nat, Edge))
    ensures EdgesOf(entries + [x]) == EdgesOf(entries) + {x.1}
  {
    assert (entries + [x])[..|entries|] == entries;
  }

  lemma Split(edges: seq<Edge>, x: Edge, drop: Edge -> bool)
    ensures Taken(edges + [x], drop)
         == if drop(x) then Taken(edges, drop) + [(|edges|, x)] else Taken(edges, drop)
    ensures Kept(edges + [x], drop)
         == if drop(x) then Kept(edges, drop) else Kept(edges, drop) + [x]
  {
    assert (edges + [x])[..|edges|] == edges;
  }

  lemma TakenEdgesStep(before: seq<Edge>, x: Edge, drop: Edge -> bool)
    requires forall e :: e in EdgesOf(Taken(before, drop)) <==> e in before && drop(e)
    ensures forall e :: e in EdgesOf(Taken(before + [x], drop)) <==> e in before + [x] && drop(e)
  {
    Split(before, x, drop);
    EdgesOfAppended(Taken(before, drop), (|before|, x));
  }

  lemma {:induction false} TakenEdges(edges: seq<Edge>, drop: Edge -> bool)
    ensures forall e :: e in EdgesOf(Taken(edges, drop)) <==> e in edges && drop(e)
  {
    if edges != [] {
      var before, x := edges[..|edges| - 1], edges[|edges| - 1];
      assert edges == before + [x];
      TakenEdges(before, drop);
      TakenEdgesStep(before, x, drop);
    }
  }

  lemma {:induction false} TakenByPlace(edges: seq<Edge>, drop: Edge -> bool)
    ensures ByPlace(Taken(edges, drop))
  {
    if edges != [] {
      TakenByPlace(edges[..|edges| - 1], drop);
    }
  }

  lemma {:induction false} TakenFit(edges: seq<Edge>, drop: Edge -> bool, k: nat)
    requires k < |Taken(edges, drop)|
    ensures Taken(edges, drop)[k].0 <= |Kept(edges, drop)| + k
  {
    var n := |edges| - 1;
    if k < |Taken(edges[..n], drop)| {
      TakenFit(edges[..n], drop, k);
    }
  }

  lemma {:induction false} InsertedBeforeLast(edges: seq<Edge>, entries: seq<(nat, Edge)>, x: Edge)
    requires forall k :: 0 <= k < |entries| ==> entries[k].0 <= |edges| + k
    ensures InsertedAll(edges + [x], entries) == InsertedAll(edges, entries) + [x]
  {
    if entries != [] {
      var n := |entries| - 1;
      InsertedBeforeLast(edges, entries[..n], x);
      var before, i := InsertedAll(edges, entries[..n]), entries[n].0;
      assert InsertAt(before + [x], i, entries[n].1) == InsertAt(before, i, entries[n].1) + [x];
    }
  }

  function Restored(edges: seq<Edge>, drop: Edge -> bool): seq<Edge> {
    InsertedAll(Kept(edges, drop), Taken(edges, drop))
  }

  lemma TakenThenInsertedStep(before: seq<Edge>, x: Edge, drop: Edge -> bool)
    requires Restored(before, drop) == before
    ensures Restored(before + [x], drop) == before + [x]
  {
    var kept, taken := Kept(before, drop), Taken(before, drop);
    Split(before, x, drop);
    if drop(x) {
      LastInserted(kept, taken, (|before|, x));
    } else {
      forall k | 0 <= k < |taken|
        ensures taken[k].0 <= |kept| + k
      {
        TakenFit(before, drop, k);
      }
      InsertedBeforeLast(kept, taken, x);
    }
  }

  /** Putting the taken edges back at their places restores the list. */
  lemma {:induction false} TakenThenInserted(edges: seq<Edge>, drop: Edge -> bool)
    ensures Restored(edges, drop) == edges
  {
    if edges == [] {
      assert Taken(edges, drop) == [];
    } else {
      var before, x := edges[..|edges| - 1], edges[|edges| - 1];
      TakenThenInserted(before, drop);
      TakenThenInsertedStep(before, x, drop);
      assert edges == before + [x];
    }
  }

  lemma LastInserted(edges: seq<Edge>, entries: seq<(nat, Edge)>, x: (nat, Edge))
    requires x.0 == |InsertedAll(edges, entries)|
    ensures InsertedAll(edges, entries + [x]) == InsertedAll(edges, entries) + [x.1]
  {
    assert (entries + [x])[..|entries|] == entries;
  }

  /** Entries whose ports are distinct from each other's and from `edges`'. */
  ghost predicate Separate(edges: seq<Edge>, entries: seq<(nat, Edge)>) {
    entries != [] ==>
      var n := |entries| - 1;
      && Separate(edges, entries[..n])
      && (forall e :: e in edges ==> !SamePort(e, entries[n].1))
      && (forall e :: e in EdgesOf(entries[..n]) ==> !SamePort(e, entries[n].1))
  }

  lemma {:induction false} InsertedAllMembers(edges: seq<Edge>, entries: seq<(nat, Edge)>)
    ensures forall e :: e in InsertedAll(edges, entries) <==> e in edges || e in EdgesOf(entries)
  {
    if entries != [] {
      var n := |entries| - 1;
      InsertedAllMembers(edges, entries[..n]);
      var before := InsertedAll(edges, entries[..n]);
      InsertedMembers(before, Least(entries[n].0, |before|), entries[n].1);
    }
  }

  lemma {:induction false} InsertedAllOccupancy(edges: seq<Edge>, entries: seq<(nat, Edge)>)
    requires SingleOccupancy(edges) && Separate(edges, entries)
    ensures SingleOccupancy(InsertedAll(edges, entries))
  {
    if entries != [] {
      var n := |entries| - 1;
      InsertedAllOccupancy(edges, entries[..n]);
      InsertedAllMembers(edges, entries[..n]);
      var before := InsertedAll(edges, entries[..n]);
      InsertedOccupancy(before, Least(entries[n].0, |before|), entries[n].1);
    }
  }

  // ----- Reachability -----

  lemma ReachByPairs(es: seq<Edge>, fs: seq<Edge>, a: NodeId, b: NodeId)
    requires forall e :: e in es ==> HasEdge(fs, e.from, e.to)
    requires Reach(es, a, b)
    ensures Reach(fs, a, b)
  {
    var p :| IsPath(es, p) && p[0] == a && p[|p| - 1] == b;
    forall i | 0 <= i < |p| - 1
      ensures HasEdge(fs, p[i], p[i + 1])
    {
      assert HasEdge(es, p[i], p[i + 1]);
    }
    assert IsPath(fs, p);
  }

  lemma RankedByPairs(es: seq<Edge>, fs: seq<Edge>)
    requires Ranked(es)
    requires forall f :: f in fs ==> HasEdge(es, f.from, f.to)
    ensures Ranked(fs)
  {
    var rank :| IsRank(rank, es);
    assert IsRank(rank, fs);
  }

  lemma RankedPart(es: seq<Edge>, fs: seq<Edge>)
    requires Ranked(es) && forall f :: f in fs ==> f in es
    ensures Ranked(fs)
  {
    RankedByPairs(es, fs);
  }

  lemma NoWayBack(edges: seq<Edge>, e: Edge)
    requires Ranked(edges) && e in edges
    ensures e.from != e.to && !Reach(edges, e.to, e.from)
  {
    var rank :| IsRank(rank, edges);
    if Reach(edges, e.to, e.from) {
      var p :| IsPath(edges, p) && p[0] == e.to && p[|p| - 1] == e.from;
      RankGrowsAlongPath(edges, rank, p);
    }
  }

  // ----- Adding several edges -----

  lemma AcceptedEdge(g: GraphState, e: Edge)
    requires Sound(g) && ConnectVerdict(g, e).Ok?
    ensures Sound(g.(edges := g.edges + [e])) && WellTyped(g.nodes, e)
    ensures forall f :: f in g.edges ==> !SamePort(f, e)
  {
    VerdictIsExact(g, e);
    IncomingByMembership(g.edges, e.to, e.toPort);
  }

  lemma EdgeIsAccepted(g: GraphState, e: Edge)
    requires Sound(g) && WellTyped(g.nodes, e) && Ranked(g.edges + [e])
    requires forall f :: f in g.edges ==> !SamePort(f, e)
    ensures ConnectVerdict(g, e).Ok?
  {
    IncomingByMembership(g.edges, e.to, e.toPort);
    AppendedOccupancy(g.edges, e);
    VerdictIsExact(g, e);
  }

  lemma {:induction false} ConnectedAllSound(g: GraphState, entries: seq<(nat, Edge)>)
    requires Sound(g) && ConnectedAll(g, entries).Ok?
    ensures var h := ConnectedAll(g, entries).value;
            && Sound(h) && h.nodes == g.nodes && h.nextId == g.nextId
            && (forall e :: e in h.edges <==> e in g.edges || e in EdgesOf(entries))
    ensures Separate(g.edges, entries)
    ensures forall e :: e in EdgesOf(entries) ==> WellTyped(g.nodes, e)
  {
    if entries != [] {
      var n := |entries| - 1;
      var x := entries[n].1;
      ConnectedAllSound(g, entries[..n]);
      var before := ConnectedAll(g, entries[..n]).value;
      AcceptedEdge(before, x);
      assert forall e :: e in before.edges + [x] <==> e in before.edges || e == x;
    }
  }

  /** Well-typed edges of one legal edge set can be added one by one. */
  lemma {:induction false} ConnectedAllSucceeds(g: GraphState, all: seq<Edge>, entries: seq<(nat, Edge)>)
    requires Sound(g) && Ranked(all) && Separate(g.edges, entries)
    requires forall e :: e in g.edges ==> e in all
    requires forall e :: e in EdgesOf(entries) ==> e in all && WellTyped(g.nodes, e)
    ensures ConnectedAll(g, entries).Ok?
  {
    if entries != [] {
      var n := |entries| - 1;
      var x := entries[n].1;
      ConnectedAllSucceeds(g, all, entries[..n]);
      ConnectedAllSound(g, entries[..n]);
      var before := ConnectedAll(g, entries[..n]).value;
      RankedPart(all, before.edges + [x]);
      EdgeIsAccepted(before, x);
    }
  }
}
