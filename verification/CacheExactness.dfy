/** When a cache, whatever is in it, gives the report that an empty one would. */
module CacheExactness {
  import opened Prelude
  import opened GraphModel
  import opened Evaluator
  import opened CacheAgreement

  // ----- What a report says of one node -----

  function IssuesOf(issues: seq<(NodeId, Issue)>, id: NodeId): seq<Issue> {
    if issues == [] then []
    else
      var n := |issues| - 1;
      var before := IssuesOf(issues[..n], id);
      if issues[n].0 == id then before + [issues[n].1] else before
  }

  lemma {:induction false} IssuesOfBoth(a: seq<(NodeId, Issue)>, b: seq<(NodeId, Issue)>, id: NodeId)
    ensures IssuesOf(a + b, id) == IssuesOf(a, id) + IssuesOf(b, id)
  {
    if b == [] {
      assert a + b == a;
    } else {
      var n := |b| - 1;
      IssuesOfBoth(a, b[..n], id);
      assert (a + b)[..|a| + n] == a + b[..n];
    }
  }

  lemma {:induction false} IssuesOfAt(id: NodeId, issues: seq<Issue>, other: NodeId)
    ensures IssuesOf(At(id, issues), other) == if other == id then issues else []
  {
    if issues != [] {
      var n := |issues| - 1;
      IssuesOfAt(id, issues[..n], other);
      assert At(id, issues)[..n] == At(id, issues[..n]);
    }
  }

  /** What the report says of `id`. */
  function Said(st: State, id: NodeId): (Option<seq<Value>>, seq<Issue>) {
    (if id in st.report.values then Some(st.report.values[id]) else None, IssuesOf(st.report.issues, id))
  }

  /** Another node's step leaves it as it is. */
  lemma OthersUnsaid(env: Env, g: GraphState, id: NodeId, st: State, other: NodeId)
    requires other != id
    ensures Said(Step(env, g, id, st), other) == Said(st, other)
    ensures other in Step(env, g, id, st).cache <==> other in st.cache
    ensures other in st.cache ==> Step(env, g, id, st).cache[other] == st.cache[other]
  {
    hide PlanNode, Compute;
    var after := Step(env, g, id, st);
    var p := PlanOf(env, g, id, st);
    var issues :=
      if FindNode(g.nodes, id).None? then []
      else if p.Skip? then p.issues
      else if id in st.cache && st.cache[id].fp == p.fp then st.cache[id].issues
      else match Compute(env, p.task) { case Err(issue) => [issue] case Ok((_, found)) => found };
    assert At(id, []) == [];
    assert st.report.issues + [] == st.report.issues;
    assert after.report.issues == st.report.issues + At(id, issues);
    IssuesOfBoth(st.report.issues, At(id, issues), other);
    IssuesOfAt(id, issues, other);
    assert IssuesOf(st.report.issues, other) + [] == IssuesOf(st.report.issues, other);
  }

  lemma {:induction false} OthersUnsaidLater(env: Env, g: GraphState, order: seq<NodeId>, n: nat, cache: Cache,
                                             id: NodeId)
    requires n <= |order| && forall k :: n <= k < |order| ==> order[k] != id
    ensures Said(Steps(env, g, order, cache), id) == Said(Steps(env, g, order[..n], cache), id)
  {
    hide Step;
    if n == |order| {
      assert order[..n] == order;
    } else {
      var last := |order| - 1;
      OthersUnsaidLater(env, g, order[..last], n, cache, id);
      assert order[..last][..n] == order[..n];
      OthersUnsaid(env, g, order[last], Steps(env, g, order[..last], cache), id);
    }
  }

  lemma {:induction false} UnseenSaysNothing(env: Env, g: GraphState, order: seq<NodeId>, cache: Cache, id: NodeId)
    requires id !in order
    ensures var st := Steps(env, g, order, cache);
            && Said(st, id) == (None, [])
            && (id in st.cache <==> id in cache) && (id in cache ==> st.cache[id] == cache[id])
  {
    hide Step;
    if order != [] {
      var n := |order| - 1;
      UnseenSaysNothing(env, g, order[..n], cache, id);
      assert order[n] != id && id !in order[..n];
      OthersUnsaid(env, g, order[n], Steps(env, g, order[..n], cache), id);
    }
  }

  // ----- One step -----

  /** If the cache has an entry for the node as planned, it holds what computing
      the node gives. */
  predicate RightEntry(env: Env, g: GraphState, id: NodeId, st: State, cache: Cache) {
    var p := PlanOf(env, g, id, st);
    p.Go? && id in cache && cache[id].fp == p.fp ==> Compute(env, p.task) == Ok((cache[id].value, cache[id].issues))
  }

  /** With the same report so far, a step reports the same exactly when the
      entry is right; and if not, they differ about this very node. */
  lemma StepIsRight(env: Env, g: GraphState, id: NodeId, a: State, b: State, cache: Cache)
    requires Agree(a, b) && Said(b, id) == (None, []) && id !in b.cache
    requires (id in a.cache <==> id in cache) && (id in cache ==> a.cache[id] == cache[id])
    ensures RightEntry(env, g, id, b, cache) ==> Agree(Step(env, g, id, a), Step(env, g, id, b))
    ensures !RightEntry(env, g, id, b, cache) ==> Said(Step(env, g, id, a), id) != Said(Step(env, g, id, b), id)
  {
    hide PlanNode, Compute, At;
    if !RightEntry(env, g, id, b, cache) {
      var p := PlanOf(env, g, id, b);
      var e := cache[id];
      SaidWithValue(a, id, p.fp, e.value, e.issues);
      match Compute(env, p.task)
      case Err(_) => assert Step(env, g, id, b).report.values == b.report.values;
      case Ok((value, issues)) => SaidWithValue(b, id, p.fp, value, issues);
    }
  }

  lemma SaidWithValue(st: State, id: NodeId, fp: Fingerprint, value: seq<Value>, issues: seq<Issue>)
    requires IssuesOf(st.report.issues, id) == []
    ensures Said(WithValue(st, id, fp, value, issues), id) == (Some(value), issues)
  {
    IssuesOfBoth(st.report.issues, At(id, issues), id);
    IssuesOfAt(id, issues, id);
    assert [] + issues == issues;
  }

  // ----- Whole evaluations -----

  /** Every entry that the evaluation would restore is right. */
  predicate RightEntries(r: Request, cache: Cache, n: nat)
    requires n <= |Visits(r)|
  {
    forall k :: 0 <= k < n ==>
      RightEntry(r.env, r.graph, Visits(r)[k], Steps(r.env, r.graph, Visits(r)[..k], map[]), cache)
  }

  lemma {:induction false} AgreeUpTo(r: Request, cache: Cache, n: nat)
    requires n <= |Visits(r)| && RightEntries(r, cache, n)
    ensures Agree(Steps(r.env, r.graph, Visits(r)[..n], cache), Steps(r.env, r.graph, Visits(r)[..n], map[]))
  {
    hide Step, Visits, RightEntry;
    if n > 0 {
      var visits, id := Visits(r), Visits(r)[n - 1];
      AgreeUpTo(r, cache, n - 1);
      NotYetVisited(r, n - 1);
      assert visits[..n][..n - 1] == visits[..n - 1];
      UnseenSaysNothing(r.env, r.graph, visits[..n - 1], cache, id);
      UnseenSaysNothing(r.env, r.graph, visits[..n - 1], map[], id);
      StepIsRight(r.env, r.graph, id, Steps(r.env, r.graph, visits[..n - 1], cache),
                  Steps(r.env, r.graph, visits[..n - 1], map[]), cache);
    } else {
      assert Visits(r)[..0] == [];
    }
  }

  lemma WrongEntryShows(r: Request, cache: Cache, k: nat)
    requires k < |Visits(r)| && RightEntries(r, cache, k) && !RightEntries(r, cache, k + 1)
    ensures var visits := Visits(r);
            Said(Steps(r.env, r.graph, visits, cache), visits[k])
            != Said(Steps(r.env, r.graph, visits, map[]), visits[k])
  {
    hide Step, Visits, RightEntry;
    var visits, id := Visits(r), Visits(r)[k];
    AgreeUpTo(r, cache, k);
    NotYetVisited(r, k);
    UnseenSaysNothing(r.env, r.graph, visits[..k], cache, id);
    UnseenSaysNothing(r.env, r.graph, visits[..k], map[], id);
    StepIsRight(r.env, r.graph, id, Steps(r.env, r.graph, visits[..k], cache),
                Steps(r.env, r.graph, visits[..k], map[]), cache);
    assert visits[..k + 1][..k] == visits[..k];
    forall l | k + 1 <= l < |visits|
      ensures visits[l] != id
    {
      VisitedOnce(r, k, l);
    }
    OthersUnsaidLater(r.env, r.graph, visits, k + 1, cache, id);
    OthersUnsaidLater(r.env, r.graph, visits, k + 1, map[], id);
  }

  lemma {:induction false} FirstWrongEntry(r: Request, cache: Cache, n: nat) returns (k: nat)
    requires n <= |Visits(r)| && !RightEntries(r, cache, n)
    ensures k < n && RightEntries(r, cache, k) && !RightEntries(r, cache, k + 1)
  {
    hide Visits, RightEntry;
    if RightEntries(r, cache, n - 1) {
      k := n - 1;
    } else {
      k := FirstWrongEntry(r, cache, n - 1);
    }
  }

  /** An evaluation reports with a cache what it would with an empty one exactly
      when every entry that it restores is what computing the node gives. */
  lemma ReportIsRight(r: Request, cache: Cache)
    ensures Evaluate(r.env, r.graph, r.targets, r.cancelAfter, cache).0
         == Evaluate(r.env, r.graph, r.targets, r.cancelAfter, map[]).0
         <==> RightEntries(r, cache, |Visits(r)|)
  {
    hide Step, RightEntry;
    var visits := Visits(r);
    assert visits[..|visits|] == visits;
    if RightEntries(r, cache, |visits|) {
      AgreeUpTo(r, cache, |visits|);
    } else {
      var k := FirstWrongEntry(r, cache, |visits|);
      WrongEntryShows(r, cache, k);
    }
  }

  // ----- Runs -----

  lemma {:induction false} EachReport(requests: seq<Request>, i: nat)
    requires i < |requests|
    ensures |Run(requests, map[]).0| == |requests|
    ensures var r := requests[i];
            Run(requests, map[]).0[i]
            == Evaluate(r.env, r.graph, r.targets, r.cancelAfter, Run(requests[..i], map[]).1).0
  {
    hide Evaluate;
    var n := |requests| - 1;
    if n > 0 {
      EachReport(requests[..n], if i < n then i else 0);
    }
    if i < n {
      assert requests[..n][..i] == requests[..i];
    }
  }

  /** Report `i` of a run that shares a cache is the one of an empty cache. */
  predicate ReportedRight(requests: seq<Request>, i: nat)
    requires i < |requests|
  {
    var r := requests[i];
    && i < |Run(requests, map[]).0|
    && Run(requests, map[]).0[i] == Evaluate(r.env, r.graph, r.targets, r.cancelAfter, map[]).0
  }

  /** Every entry that evaluation `i` of the run restores is what computing the
      node gives. */
  predicate RestoredRight(requests: seq<Request>, i: nat)
    requires i < |requests|
  {
    RightEntries(requests[i], Run(requests[..i], map[]).1, |Visits(requests[i])|)
  }

  /** Over any run of evaluations that share a cache, with no condition on it,
      the reports are those of empty caches exactly where every restored entry
      is right. */
  lemma RunIsRight(requests: seq<Request>)
    ensures forall i :: 0 <= i < |requests| ==> (ReportedRight(requests, i) <==> RestoredRight(requests, i))
  {
    hide Evaluate, RightEntries, Visits, Run;
    forall i | 0 <= i < |requests|
      ensures ReportedRight(requests, i) <==> RestoredRight(requests, i)
    {
      EachReport(requests, i);
      ReportIsRight(requests[i], Run(requests[..i], map[]).1);
    }
  }
}
