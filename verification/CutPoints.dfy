/**
  Where a flow may always crash. Whether a resumed attempt is sure to find everything it reads is decided by the
  graph and the node the run row names: nothing at or behind that node may refer to a node before it, or to a node
  that an earlier fan-out walks in its body.
*/
module CutPoints {
  import opened Base
  import opened Ir
  import opened JsonValues
  import opened IterationKeys
  import opened Machine
  import opened SafeWalk
  import opened Rows
  import opened Following
  import opened Resume
  import opened LostReads

  // ---------------------------------------------------------------- reachability

  type Nodes = map<string, IRNode>

  predicate HasEdge(nodes: Nodes, a: string, b: string) {
    a in nodes && exists l :: l in nodes[a].edges && nodes[a].edges[l] == b
  }

  /** A path of edges. */
  predicate IsPath(nodes: Nodes, path: seq<string>) {
    && path != [] && (forall i | 0 <= i < |path| :: path[i] in nodes)
    && forall i | 0 <= i < |path| - 1 :: HasEdge(nodes, path[i], path[i + 1])
  }

  ghost predicate Leads(nodes: Nodes, a: string, b: string) {
    exists path: seq<string> :: IsPath(nodes, path) && path[0] == a && path[|path| - 1] == b
  }

  /** The nodes at or behind `a`. */
  ghost function Reach(nodes: Nodes, a: string): set<string> {
    set b | b in nodes.Keys && Leads(nodes, a, b)
  }

  lemma {:induction false} ReachesItself(nodes: Nodes, a: string)
    requires a in nodes
    ensures a in Reach(nodes, a)
  {
    assert IsPath(nodes, [a]);
  }

  lemma {:induction false} ReachGoesOn(nodes: Nodes, a: string, b: string, l: string)
    requires ClosedGraph(nodes) && b in Reach(nodes, a) && l in nodes[b].edges
    ensures nodes[b].edges[l] in Reach(nodes, a)
  {
    var path: seq<string> :| IsPath(nodes, path) && path[0] == a && path[|path| - 1] == b;
    assert TargetsIn(nodes.Keys, nodes[b]);
    var longer := path + [nodes[b].edges[l]];
    assert HasEdge(nodes, b, nodes[b].edges[l]);
    assert IsPath(nodes, longer);
  }

  lemma {:induction false} ReachIsTransitive(nodes: Nodes, a: string, b: string)
    requires b in Reach(nodes, a)
    ensures Reach(nodes, b) <= Reach(nodes, a)
  {
    var p: seq<string> :| IsPath(nodes, p) && p[0] == a && p[|p| - 1] == b;
    forall c | c in Reach(nodes, b)
      ensures c in Reach(nodes, a)
    {
      var q: seq<string> :| IsPath(nodes, q) && q[0] == b && q[|q| - 1] == c;
      var path := p + q[1..];
      assert forall i | |p| <= i < |path| :: path[i] == q[i - |p| + 1];
      forall i | 0 <= i < |path| - 1
        ensures HasEdge(nodes, path[i], path[i + 1])
      {
        if i >= |p| - 1 { assert HasEdge(nodes, q[i - |p| + 1], q[(i - |p| + 1) + 1]); }
      }
    }
  }

  lemma {:induction false} ReachGoesDown(nodes: Nodes, rank: Rank, path: seq<string>)
    requires Ranked(nodes, rank) && IsPath(nodes, path)
    ensures RankOf(rank, path[|path| - 1]) <= RankOf(rank, path[0])
    ensures |path| > 1 ==> RankOf(rank, path[|path| - 1]) < RankOf(rank, path[0])
  {
    if |path| > 1 {
      assert HasEdge(nodes, path[0], path[0 + 1]);
      var l :| l in nodes[path[0]].edges && nodes[path[0]].edges[l] == path[1];
      assert IsPath(nodes, path[1..]) by {
        forall i | 0 <= i < |path[1..]| - 1
          ensures HasEdge(nodes, path[1..][i], path[1..][i + 1])
        {
          assert HasEdge(nodes, path[i + 1], path[(i + 1) + 1]);
        }
      }
      ReachGoesDown(nodes, rank, path[1..]);
    }
  }

  /** What lies at or behind a target of `n` is not `n`. */
  lemma {:induction false} NoWayBack(nodes: Nodes, rank: Rank, id: string, l: string)
    requires Ranked(nodes, rank) && id in nodes && l in nodes[id].edges
    ensures id !in Reach(nodes, nodes[id].edges[l])
  {
    var t := nodes[id].edges[l];
    if id in Reach(nodes, t) {
      var path: seq<string> :| IsPath(nodes, path) && path[0] == t && path[|path| - 1] == id;
      ReachGoesDown(nodes, rank, path);
    }
  }

  lemma {:induction false} ReachIsClosed(nodes: Nodes, rank: Rank, a: string)
    requires ClosedGraph(nodes) && Ranked(nodes, rank)
    ensures ClosedPart(nodes, Reach(nodes, a))
  {
    forall b | b in Reach(nodes, a)
      ensures TargetsIn(Reach(nodes, a), nodes[b])
    {
      forall l | l in nodes[b].edges
        ensures nodes[b].edges[l] in Reach(nodes, a)
      {
        ReachGoesOn(nodes, a, b, l);
      }
    }
  }

  // ---------------------------------------------------------------- what can be read off the graph

  /** `k` may have a result when a top-level chain stands before `r`: it lies before `r` or in the body of a fan-out
      before `r`. */
  ghost predicate Left(nodes: Nodes, k: string, r: string) {
    k !in Reach(nodes, r) || InEarlierBody(nodes, k, r)
  }

  ghost predicate InEarlierBody(nodes: Nodes, k: string, r: string) {
    exists n :: n in nodes && n !in Reach(nodes, r) && "body" in nodes[n].edges
        && k in Reach(nodes, nodes[n].edges["body"])
  }

  /** `r` is a point to resume from: at and behind it everything refers to flow variables and to nodes that have no
      result yet. */
  ghost predicate CutPoint(nodes: Nodes, r: string) {
    forall id, port | id in Reach(nodes, r) && port in nodes[id].inputs && nodes[id].inputs[port].PortRef? ::
      nodes[id].inputs[port].nodeId == VARS_NODE_ID || !Left(nodes, nodes[id].inputs[port].nodeId, r)
  }

  ghost predicate AllLeft(nodes: Nodes, ks: set<string>, r: string) {
    forall k | k in ks :: Left(nodes, k, r)
  }

  lemma {:induction false} LeftFurtherDown(nodes: Nodes, ks: set<string>, r: string, t: string)
    requires AllLeft(nodes, ks, r) && t in Reach(nodes, r)
    ensures AllLeft(nodes, ks, t)
  {
    ReachIsTransitive(nodes, r, t);
    hide Reach;
  }

  /** Behind a cut point nothing refers to what has a result. */
  lemma {:induction false} CutPointIsResumable(w: World, rank: Rank, r: string, ks: set<string>)
    requires ClosedGraph(w.nodes) && Ranked(w.nodes, rank) && r in w.nodes
    requires CutPoint(w.nodes, r) && AllLeft(w.nodes, ks, r)
    ensures Resumable(w, r, ks)
  {
    var ids := Reach(w.nodes, r);
    ReachIsClosed(w.nodes, rank, r);
    ReachesItself(w.nodes, r);
    hide Left, Reach;
    assert ReadsAhead(w, r, ks, ids);
  }

  // ---------------------------------------------------------------- along a run

  ghost predicate AllLeftBelow(nodes: Nodes, ks: set<string>, n: IRNode) {
    forall l | l in n.edges :: AllLeft(nodes, ks, n.edges[l])
  }

  /** Everything behind the edges of `n`. */
  ghost function Below(nodes: Nodes, n: IRNode): set<string> {
    set l, b | l in n.edges && b in Reach(nodes, n.edges[l]) :: b
  }

  /** The nodes `ks` are all left behind by the top-level chain in `c`, or belong to the fan-out it is in. */
  ghost predicate Trail(w: World, ks: set<string>, c: Control) {
    match c
    case Head(_, None) => true
    case Head(_, Some(id)) => id in w.nodes && AllLeft(w.nodes, ks, id)
    case Claiming(_, n) => IsNode(w, n) && AllLeft(w.nodes, ks, n.id)
    case Executing(_, n) => IsNode(w, n) && AllLeft(w.nodes, ks, n.id)
    case Fanout(_, n, _, _, body) =>
      && IsNode(w, n) && AllLeftBelow(w.nodes, ks, n)
      && "body" in n.edges && OnGraph(w, Reach(w.nodes, n.edges["body"]), body)
    case Fork(_, n, branches) =>
      && IsNode(w, n) && AllLeftBelow(w.nodes, ks, n)
      && forall l | l in branches :: OnGraph(w, Below(w.nodes, n), branches[l].ctl)
    case _ => true
  }

  /** A chain adds results only of the nodes it walks. */
  lemma {:induction false} KeysWithin(w: World, ids: set<string>, ex: Exec, t: Thread, v: View, p: seq<string>)
    requires ClosedPart(w.nodes, ids) && OnGraph(w, ids, t.ctl) && Act(w, ex, t, v, p).Some?
    ensures Act(w, ex, t, v, p).value.thread.results.Keys <= t.results.Keys + ids
    decreases t.ctl
  {
    hide Route, Evaluate, NextItem, Join, AtHead;
    match t.ctl
    case Head(f, current) => HeadKeepsResults(w, t.results, f, current, v);
    case Fanout(f, n, output, items, body) =>
      if Finished(body) {
        NextItemTo(w, t.results, f, n, output, items, body, v);
      } else {
        KeysWithin(w, ids, ex, Thread(t.results, body), v, p);
      }
    case Fork(f, n, branches) =>
      if p == [] { var joinId := JoinTo(w, ids, t.results, f, n, branches); }
    case _ =>
  }

  lemma {:induction false} HeadKeepsResults(w: World, results: Results, f: Frame, current: Option<string>, v: View)
    ensures AtHead(w, results, f, current, v).thread.results == results
  {
  }

  /** Where the fan-out loop goes on, and whose result it writes. */
  lemma {:induction false} NextItemTo(w: World, results: Results, f: Frame, n: IRNode, output: Output, items: seq<Json>,
                                      body: Control, v: View)
    requires Finished(body)
    ensures var t := NextItem(w, results, f, n, output, items, body, v).thread;
      || (t.ctl.Raised? && t.results.Keys <= results.Keys + {n.id})
      || t == Thread(results, Head(f, Lookup(n.edges, "after")))
      || (&& "body" in n.edges && t.ctl.Fanout? && t.ctl.frame == f && t.ctl.node == n && t.ctl.output == output
          && t.ctl.body.Head? && t.ctl.body.current == Some(n.edges["body"])
          && t.results.Keys == results.Keys + {n.id})
  {
    hide FanoutPort, Compose;
  }

  /** Where a join goes on, and whose result it writes: a node that a branch stopped before. */
  lemma {:induction false} JoinTo(w: World, ids: set<string>, results: Results, f: Frame, n: IRNode,
                                  branches: map<string, Thread>)
    returns (joinId: string)
    requires AllAtRest(branches) && forall l | l in branches :: OnGraph(w, ids, branches[l].ctl)
    ensures var t := Join(w, results, f, n, branches).thread;
      || (t.ctl.Raised? && t.results == results)
      || (&& joinId in ids && joinId in w.nodes && t.results.Keys == results.Keys + {joinId}
          && t.ctl == Head(f, Lookup(w.nodes[joinId].edges, "next")))
  {
    joinId := "";
    if AnyAborted(branches) {
      AbortedJoin(w, results, f, n, branches);
    } else {
      JoinComplains(w, results, f, n, branches);
      if Complaint(w, n, branches).None? {
        hide Join;
        joinId := TheElement(JoinIds(branches));
        var l :| l in branches && branches[l].ctl.stoppedAt == Some(joinId);
        assert OnGraph(w, ids, branches[l].ctl);
      }
    }
    hide Join, Complaint;
  }

  /** Behind an edge of `n`, `n` itself and the body of its fan-out are left behind. */
  lemma {:induction false} LeftBehindNode(w: World, rank: Rank, ks: set<string>, n: IRNode)
    requires ClosedGraph(w.nodes) && Ranked(w.nodes, rank) && IsNode(w, n) && AllLeftBelow(w.nodes, ks, n)
    ensures AllLeftBelow(w.nodes, ks + {n.id}, n)
    ensures "body" in n.edges ==> AllLeftBelow(w.nodes, ks + {n.id} + Reach(w.nodes, n.edges["body"]), n)
  {
    hide Reach, Ranked, ClosedGraph;
    forall l | l in n.edges
      ensures n.id !in Reach(w.nodes, n.edges[l])
    {
      NoWayBack(w.nodes, rank, n.id, l);
    }
  }

  lemma {:induction false} LeftAtNode(w: World, rank: Rank, ks: set<string>, n: IRNode)
    requires ClosedGraph(w.nodes) && Ranked(w.nodes, rank) && IsNode(w, n) && AllLeft(w.nodes, ks, n.id)
    ensures AllLeftBelow(w.nodes, ks, n)
  {
    hide Reach, Ranked, AllLeft;
    forall l | l in n.edges
      ensures AllLeft(w.nodes, ks, n.edges[l])
    {
      ReachesItself(w.nodes, n.id);
      ReachGoesOn(w.nodes, n.id, n.id, l);
      LeftFurtherDown(w.nodes, ks, n.id, n.edges[l]);
    }
  }

  lemma {:induction false} BelowIsClosed(w: World, rank: Rank, n: IRNode)
    requires ClosedGraph(w.nodes) && Ranked(w.nodes, rank) && IsNode(w, n)
    ensures ClosedPart(w.nodes, Below(w.nodes, n))
    ensures forall l | l in n.edges :: n.edges[l] in w.nodes && n.edges[l] in Below(w.nodes, n)
  {
    hide Reach;
    var ids := Below(w.nodes, n);
    assert TargetsIn(w.nodes.Keys, n);
    forall b | b in ids
      ensures b in w.nodes && w.nodes[b].id == b && TargetsIn(ids, w.nodes[b])
    {
      var l :| l in n.edges && b in Reach(w.nodes, n.edges[l]);
      ReachIsClosed(w.nodes, rank, n.edges[l]);
      assert TargetsIn(Reach(w.nodes, n.edges[l]), w.nodes[b]);
    }
    forall l | l in n.edges
      ensures n.edges[l] in ids
    {
      ReachesItself(w.nodes, n.edges[l]);
    }
  }

  lemma {:induction false} HeadTrail(w: World, ks: set<string>, f: Frame, n: IRNode, l: string)
    requires ClosedGraph(w.nodes) && IsNode(w, n) && AllLeftBelow(w.nodes, ks, n)
    ensures Trail(w, ks, Head(f, Lookup(n.edges, l)))
  {
    hide AllLeft;
    assert TargetsIn(w.nodes.Keys, n);
  }

  lemma {:induction false} BranchesStart(w: World, f: Frame, n: IRNode, results: Results, ids: set<string>)
    requires forall l | l in n.edges :: n.edges[l] in ids
    ensures forall l | l in Branches(f, n, results) :: OnGraph(w, ids, Branches(f, n, results)[l].ctl)
  {
    hide BranchFrame;
  }

  lemma {:induction false} ForkTrail(w: World, rank: Rank, ks: set<string>, f: Frame, n: IRNode, results: Results)
    requires ClosedGraph(w.nodes) && Ranked(w.nodes, rank) && IsNode(w, n) && AllLeftBelow(w.nodes, ks, n)
    ensures Trail(w, ks, Fork(f, n, Branches(f, n, results)))
  {
    hide Ranked, ClosedGraph, ClosedPart, Reach, Below, AllLeft, AllLeftBelow, Branches, OnGraph;
    BelowIsClosed(w, rank, n);
    BranchesStart(w, f, n, results, Below(w.nodes, n));
  }

  lemma {:induction false} FanoutTrail(w: World, ks: set<string>, f: Frame, n: IRNode, output: Output,
                                       items: seq<Json>, body: Control)
    requires IsNode(w, n) && AllLeftBelow(w.nodes, ks, n) && "body" in n.edges
    requires body == Done(None, None) || (body.Head? && body.current == Some(n.edges["body"])
                                          && n.edges["body"] in w.nodes)
    ensures Trail(w, ks, Fanout(f, n, output, items, body))
  {
    hide AllLeftBelow, Reach;
    if body.Head? { ReachesItself(w.nodes, n.edges["body"]); }
  }

  lemma {:induction false} RouteTrail(w: World, rank: Rank, ks: set<string>, f: Frame, n: IRNode, results: Results,
                                      output: Output)
    requires ClosedGraph(w.nodes) && Ranked(w.nodes, rank) && IsNode(w, n) && AllLeftBelow(w.nodes, ks, n)
    ensures Trail(w, ks, Route(w, f, n, results, output))
  {
    NoGoto(w, rank, n, output);
    HeadTrail(w, ks, f, n, EdgeLabel(output));
    ForkTrail(w, rank, ks, f, n, results);
    hide FanoutItems, EdgeLabel, CheckStopCondition, Truthy, Ranked, ClosedGraph, AllLeftBelow, Branches, Trail;
    var c := Route(w, f, n, results, output);
    match c
    case Fanout(_, _, _, items, _) => FanoutTrail(w, ks, f, n, output, items, Done(None, None));
    case Raised(e) => RaisedTrail(w, ks, e);
    case _ =>
  }

  lemma {:induction false} RaisedTrail(w: World, ks: set<string>, e: Exn)
    ensures Trail(w, ks, Raised(e))
  {
  }

  lemma {:induction false} CommitTrail(w: World, rank: Rank, ks: set<string>, results: Results, f: Frame, n: IRNode,
                                       output: Output, write: Option<Row>)
    requires ClosedGraph(w.nodes) && Ranked(w.nodes, rank) && IsNode(w, n) && AllLeft(w.nodes, ks, n.id)
    requires results.Keys <= ks
    ensures var t := Commit(w, results, f, n, output, write).thread; Trail(w, ks + t.results.Keys, t.ctl)
  {
    hide Ranked, ClosedGraph, Reach, AllLeft, AllLeftBelow, Route, Trail;
    LeftAtNode(w, rank, ks, n);
    LeftBehindNode(w, rank, ks, n);
    var results' := results[n.id := output];
    assert ks + results'.Keys == ks + {n.id};
    RouteTrail(w, rank, ks + {n.id}, f.(last := Some(output)), n, results', output);
  }

  lemma {:induction false} NextItemTrail(w: World, rank: Rank, ks: set<string>, results: Results, f: Frame, n: IRNode,
                                         output: Output, items: seq<Json>, body: Control, v: View)
    requires ClosedGraph(w.nodes) && Ranked(w.nodes, rank) && results.Keys <= ks && Finished(body)
    requires Trail(w, ks, Fanout(f, n, output, items, body))
    ensures var t := NextItem(w, results, f, n, output, items, body, v).thread; Trail(w, ks + t.results.Keys, t.ctl)
  {
    LeftBehindNode(w, rank, ks, n);
    assert n.edges["body"] in w.nodes by { assert TargetsIn(w.nodes.Keys, n); }
    HeadTrail(w, ks, f, n, "after");
    NextItemTo(w, results, f, n, output, items, body, v);
    var t := NextItem(w, results, f, n, output, items, body, v).thread;
    hide Ranked, ClosedGraph, AllLeftBelow, NextItem, Trail;
    match t.ctl
    case Fanout(_, _, _, rest, next) =>
      FanoutTrail(w, ks + {n.id}, f, n, output, rest, next);
      assert ks + t.results.Keys == ks + {n.id};
    case Raised(e) => RaisedTrail(w, ks + t.results.Keys, e);
    case Head(_, _) => assert ks + t.results.Keys == ks;
    case _ =>
  }

  lemma {:induction false} TrailOfFanout(w: World, ks: set<string>, keys: set<string>, f: Frame, n: IRNode,
                                         output: Output, items: seq<Json>, body: Control)
    requires IsNode(w, n) && "body" in n.edges && OnGraph(w, Reach(w.nodes, n.edges["body"]), body)
    requires AllLeftBelow(w.nodes, ks + {n.id} + Reach(w.nodes, n.edges["body"]), n)
    requires keys <= ks + Reach(w.nodes, n.edges["body"])
    ensures Trail(w, ks + keys, Fanout(f, n, output, items, body))
  {
    hide Left, Reach, OnGraph;
  }

  lemma {:induction false} TrailInBody(w: World, ks: set<string>, c: Control)
    requires c.Fanout? && Trail(w, ks, c)
    ensures IsNode(w, c.node) && AllLeftBelow(w.nodes, ks, c.node)
    ensures "body" in c.node.edges && OnGraph(w, Reach(w.nodes, c.node.edges["body"]), c.body)
  {
  }

  lemma {:induction false} BodyTrail(w: World, rank: Rank, ks: set<string>, ex: Exec, t: Thread, v: View,
                                     p: seq<string>)
    requires ClosedGraph(w.nodes) && Ranked(w.nodes, rank) && t.results.Keys <= ks
    requires t.ctl.Fanout? && !Finished(t.ctl.body) && Trail(w, ks, t.ctl) && Act(w, ex, t, v, p).Some?
    ensures var t' := Act(w, ex, t, v, p).value.thread; Trail(w, ks + t'.results.Keys, t'.ctl)
  {
    var n := t.ctl.node;
    TrailInBody(w, ks, t.ctl);
    hide Trail, Ranked, ClosedGraph, Reach, AtHead, AtClaim, AtExecute, NextItem, Join, OnGraph, ClosedPart, AllLeft,
      AllLeftBelow;
    assert n.edges["body"] in w.nodes by { BelowIsClosed(w, rank, n); }
    ReachIsClosed(w.nodes, rank, n.edges["body"]);
    LeftBehindNode(w, rank, ks, n);
    var ids := Reach(w.nodes, n.edges["body"]);
    var b := Thread(t.results, t.ctl.body);
    KeysWithin(w, ids, ex, b, v, p);
    ActOnGraph(w, ids, ex, b, v, p);
    var t' := Act(w, ex, t, v, p).value.thread;
    TrailOfFanout(w, ks, t'.results.Keys, t.ctl.frame, n, t.ctl.output, t.ctl.items, t'.ctl.body);
  }

  lemma {:induction false} JoinTrail(w: World, rank: Rank, ks: set<string>, results: Results, f: Frame, n: IRNode,
                                     branches: map<string, Thread>)
    requires ClosedGraph(w.nodes) && Ranked(w.nodes, rank) && results.Keys <= ks && AllAtRest(branches)
    requires Trail(w, ks, Fork(f, n, branches))
    ensures var t := Join(w, results, f, n, branches).thread; Trail(w, ks + t.results.Keys, t.ctl)
  {
    var joinId := JoinTo(w, Below(w.nodes, n), results, f, n, branches);
    var t := Join(w, results, f, n, branches).thread;
    hide Join, Ranked, ClosedGraph, Reach, AllLeft, AllLeftBelow, Below;
    if !t.ctl.Raised? {
      PastJoin(w, rank, ks, n, joinId);
      assert ks + t.results.Keys == ks + {joinId};
    }
  }

  lemma {:induction false} PastJoin(w: World, rank: Rank, ks: set<string>, n: IRNode, joinId: string)
    requires ClosedGraph(w.nodes) && Ranked(w.nodes, rank) && IsNode(w, n) && AllLeftBelow(w.nodes, ks, n)
    requires joinId in Below(w.nodes, n)
    ensures joinId in w.nodes
    ensures "next" in w.nodes[joinId].edges ==>
      w.nodes[joinId].edges["next"] in w.nodes && AllLeft(w.nodes, ks + {joinId}, w.nodes[joinId].edges["next"])
  {
    var l :| l in n.edges && joinId in Reach(w.nodes, n.edges[l]);
    assert joinId in w.nodes;
    if "next" in w.nodes[joinId].edges {
      var next := w.nodes[joinId].edges["next"];
      ReachGoesOn(w.nodes, n.edges[l], joinId, "next");
      LeftFurtherDown(w.nodes, ks, n.edges[l], next);
      NoWayBack(w.nodes, rank, joinId, "next");
    }
  }

  lemma {:induction false} BranchTrail(w: World, rank: Rank, ks: set<string>, ex: Exec, t: Thread, v: View,
                                       p: seq<string>)
    requires ClosedGraph(w.nodes) && Ranked(w.nodes, rank) && t.results.Keys <= ks && p != []
    requires t.ctl.Fork? && Trail(w, ks, t.ctl) && Act(w, ex, t, v, p).Some?
    ensures var t' := Act(w, ex, t, v, p).value.thread; Trail(w, ks + t'.results.Keys, t'.ctl)
  {
    BelowIsClosed(w, rank, t.ctl.node);
    hide Ranked, ClosedGraph, Reach, Below, AllLeft, AllLeftBelow, AtHead, AtClaim, AtExecute, NextItem, Join, OnGraph;
    assert ks + t.results.Keys == ks;
    if !t.ctl.branches[p[0]].ctl.Raised? {
      ActOnGraph(w, Below(w.nodes, t.ctl.node), ex, t.ctl.branches[p[0]], v, p[1..]);
    }
  }

  lemma {:induction false} ActTrail(w: World, rank: Rank, ks: set<string>, ex: Exec, t: Thread, v: View, p: seq<string>)
    requires ClosedGraph(w.nodes) && Ranked(w.nodes, rank) && t.results.Keys <= ks
    requires Trail(w, ks, t.ctl) && Act(w, ex, t, v, p).Some?
    ensures var t' := Act(w, ex, t, v, p).value.thread; Trail(w, ks + t'.results.Keys, t'.ctl)
  {
    hide Evaluate, Commit, NextItem, Join, Reach, AllLeft, AllLeftBelow, Ranked, OnGraph;
    assert ks + t.results.Keys == ks;
    match t.ctl
    case Claiming(f, n) =>
      if v.row.Some? && v.row.value.Completed? { CommitTrail(w, rank, ks, t.results, f, n, v.row.value.output, None); }
    case Executing(f, n) =>
      var r := Evaluate(w, ex, t.results, n, f.account, LoopCount(f, n));
      if r.Produced? { CommitTrail(w, rank, ks, t.results, f, n, r.output, Some(Completed(r.output))); }
    case Fanout(f, n, output, items, body) =>
      if Finished(body) {
        NextItemTrail(w, rank, ks, t.results, f, n, output, items, body, v);
      } else {
        BodyTrail(w, rank, ks, ex, t, v, p);
      }
    case Fork(f, n, branches) =>
      if p == [] { JoinTrail(w, rank, ks, t.results, f, n, branches); } else { BranchTrail(w, rank, ks, ex, t, v, p); }
    case _ =>
  }

  // ---------------------------------------------------------------- over all lives

  /** What every life keeps: nothing that has a result lies ahead, but for the body of the fan-out it is in. */
  ghost predicate LeftBehind(w: World, entry: string, x: Life) {
    var r := ResumeNode(x.config.shared.current, entry);
    && RootOk(x.config.thread.ctl)
    && Trail(w, x.before + x.config.thread.results.Keys, x.config.thread.ctl)
    && r in w.nodes && AllLeft(w.nodes, x.mark, r)
  }

  lemma {:induction false} GoLeavesBehind(w: World, rank: Rank, ex: Exec, entry: string, budget: int, x: Life,
                                          p: seq<string>)
    requires ClosedGraph(w.nodes) && Ranked(w.nodes, rank) && "" !in w.nodes && LeftBehind(w, entry, x)
    requires Live(w, ex, entry, budget, x, Go(p)).Some?
    ensures LeftBehind(w, entry, Live(w, ex, entry, budget, x, Go(p)).value)
  {
    hide Act, KeyAt, RootOk, Ranked, ClosedGraph, AllLeft;
    var c, c' := x.config, Live(w, ex, entry, budget, x, Go(p)).value.config;
    var v, ks := Look(c.shared, KeyAt(c.thread.ctl, p)), x.before + c.thread.results.Keys;
    ActTrail(w, rank, ks, ex, c.thread, v, p);
    ActRootOk(w, ex, c.thread, v, p);
    TouchedAt(w, ex, c, p);
    TrailOfFewer(w, ks + c'.thread.results.Keys, x.before + c'.thread.results.Keys, c'.thread.ctl);
  }

  lemma {:induction false} TrailOfFewer(w: World, ks: set<string>, fewer: set<string>, c: Control)
    requires Trail(w, ks, c) && fewer <= ks
    ensures Trail(w, fewer, c)
  {
    hide Left, Reach, OnGraph;
  }

  /** Every crash happens while the run row names a cut point. */
  ghost predicate CrashesAtCutPoints(w: World, ex: Exec, entry: string, budget: int, x: Life, events: seq<Event>)
    decreases |events|
  {
    events == [] ||
    (&& (events[0].Crash? ==> CutPoint(w.nodes, ResumeNode(x.config.shared.current, entry)))
     && (Live(w, ex, entry, budget, x, events[0]).Some? ==>
           CrashesAtCutPoints(w, ex, entry, budget, Live(w, ex, entry, budget, x, events[0]).value, events[1..])))
  }

  lemma {:induction false} CutPointsSuffice(w: World, rank: Rank, ex: Exec, entry: string, budget: int, x: Life,
                                            events: seq<Event>)
    requires ClosedGraph(w.nodes) && Ranked(w.nodes, rank) && "" !in w.nodes && LeftBehind(w, entry, x)
    requires CrashesAtCutPoints(w, ex, entry, budget, x, events)
    ensures NoRefReachesBack(w, ex, entry, budget, x, events)
    decreases |events|
  {
    hide CutPoint, Resumable, Ranked, ClosedGraph, AllLeft, Step, RootOk;
    if events != [] && Live(w, ex, entry, budget, x, events[0]).Some? {
      var x' := Live(w, ex, entry, budget, x, events[0]).value;
      match events[0] {
        case Crash =>
          CutPointIsResumable(w, rank, ResumeNode(x.config.shared.current, entry), x.mark);
          RootIsOk(ResumeNode(x.config.shared.current, entry));
          assert x'.before + x'.config.thread.results.Keys == x.mark;
        case Go(p) => GoLeavesBehind(w, rank, ex, entry, budget, x, p);
      }
      CutPointsSuffice(w, rank, ex, entry, budget, x', events[1..]);
    }
  }

  lemma {:induction false} RootIsOk(node: string)
    ensures RootOk(Root(node).ctl)
  {
  }

  /**
    Crash and resume, with a condition that can be read off the graph and the run row: if the row names a cut point
    whenever an executor dies, every attempt that ends, ends as the crash-free run does and in its step table.
  */
  lemma {:induction false} CrashesAtCutPointsLeaveNoTrace(w: World, rank: Rank, top: int, ex: Exec, entry: string,
      budget: int, s: seq<seq<string>>, goal: Goal, events: seq<Event>, x: Life)
    requires Acyclic(w, rank, top) && entry in w.nodes
    requires Run(w, ex, Born(entry, budget).config, s) == Some(goal.last) && Ends(w, ex, goal)
    requires LiveAll(w, ex, entry, budget, Born(entry, budget), events) == Some(x)
    requires CrashesAtCutPoints(w, ex, entry, budget, Born(entry, budget), events)
    ensures Grows(x.config.shared.table, goal.end.shared.table)
    ensures Finished(x.config.thread.ctl) ==>
              SameEnd(x.config.thread.ctl, goal) && x.config.shared.table == goal.end.shared.table
  {
    hide Run, LiveAll, CrashesAtCutPoints, NoRefReachesBack, NoReadIsLost, Ends, Grows;
    RootIsOk(entry);
    CutPointsSuffice(w, rank, ex, entry, budget, Born(entry, budget), events);
    NoRefBackLosesNone(w, ex, entry, budget, events);
    CrashesLeaveNoTrace(w, rank, top, ex, entry, budget, s, goal, events, x);
  }
}
