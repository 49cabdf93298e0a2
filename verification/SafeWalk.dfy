/**
  Walking a compiled graph. If all edge and goto targets exist, no chain ever stands before a node that does
  not; if in addition edges go down a rank and nothing jumps, no chain enters a node twice.
*/
module SafeWalk {
  import opened Base
  import opened JsonValues
  import opened Ir
  import opened IterationKeys
  import opened Machine
  import opened Budget

  // ---------------------------------------------------------------- lookups succeed

  predicate TargetsIn(ids: set<string>, n: IRNode) {
    && (forall l | l in n.edges :: n.edges[l] in ids)
    && (n.stopCondition.Some? && n.stopCondition.value.action.Goto? && n.stopCondition.value.gotoNodeId.Some? ==>
          n.stopCondition.value.gotoNodeId.value in ids)
  }

  /** A part of the graph that no edge and no goto leaves. */
  ghost predicate ClosedPart(nodes: map<string, IRNode>, ids: set<string>) {
    ids <= nodes.Keys && forall id | id in ids :: nodes[id].id == id && TargetsIn(ids, nodes[id])
  }

  ghost predicate ClosedGraph(nodes: map<string, IRNode>) {
    ClosedPart(nodes, nodes.Keys)
  }

  predicate IsNode(w: World, n: IRNode) {
    n.id in w.nodes && w.nodes[n.id] == n
  }

  predicate Known(ids: set<string>, id: Option<string>) {
    id.Some? ==> id.value in ids
  }

  /** Every node that a chain in `c` stands at, stands before or stopped before is one of `ids`. */
  ghost predicate OnGraph(w: World, ids: set<string>, c: Control)
    decreases c
  {
    match c
    case Head(_, current) => Known(ids, current)
    case Claiming(_, n) => IsNode(w, n) && n.id in ids
    case Executing(_, n) => IsNode(w, n) && n.id in ids
    case Fanout(_, n, _, _, body) => IsNode(w, n) && n.id in ids && OnGraph(w, ids, body)
    case Fork(_, n, branches) =>
      IsNode(w, n) && n.id in ids && forall l | l in branches :: OnGraph(w, ids, branches[l].ctl)
    case Done(_, stoppedAt) => Known(ids, stoppedAt)
    case Raised(_) => true
  }

  lemma {:induction false} RouteOnGraph(w: World, ids: set<string>, f: Frame, n: IRNode, results: Results,
                                        output: Output)
    requires ClosedPart(w.nodes, ids) && IsNode(w, n) && n.id in ids
    ensures OnGraph(w, ids, Route(w, f, n, results, output))
  {
    hide FanoutItems, BranchFrame, PyEquals, Truthy;
    assert TargetsIn(ids, n);
  }

  lemma {:induction false} ActOnGraph(w: World, ids: set<string>, ex: Exec, t: Thread, v: View, p: seq<string>)
    requires ClosedPart(w.nodes, ids) && OnGraph(w, ids, t.ctl) && Act(w, ex, t, v, p).Some?
    ensures OnGraph(w, ids, Act(w, ex, t, v, p).value.thread.ctl)
    decreases t.ctl
  {
    hide Route, Evaluate, Join, NextItem;
    match t.ctl
    case Claiming(f, n) =>
      if v.row.Some? && v.row.value.Completed? {
        var output := v.row.value.output;
        RouteOnGraph(w, ids, f.(last := Some(output)), n, t.results[n.id := output], output);
      }
    case Executing(f, n) =>
      var r := Evaluate(w, ex, t.results, n, f.account, LoopCount(f, n));
      if r.Produced? {
        RouteOnGraph(w, ids, f.(last := Some(r.output)), n, t.results[n.id := r.output], r.output);
      }
    case Fanout(f, n, output, items, body) =>
      if Finished(body) {
        NextItemOnGraph(w, ids, t.results, f, n, output, items, body, v);
      } else {
        ActOnGraph(w, ids, ex, Thread(t.results, body), v, p);
      }
    case Fork(f, n, branches) =>
      if p == [] {
        JoinOnGraph(w, ids, t.results, f, n, branches);
      } else if !branches[p[0]].ctl.Raised? {
        ActOnGraph(w, ids, ex, branches[p[0]], v, p[1..]);
      }
    case _ =>
  }

  lemma {:induction false} NextItemOnGraph(w: World, ids: set<string>, results: Results, f: Frame, n: IRNode,
                                           output: Output, items: seq<Json>, body: Control, v: View)
    requires ClosedPart(w.nodes, ids) && IsNode(w, n) && n.id in ids && Finished(body)
    ensures OnGraph(w, ids, NextItem(w, results, f, n, output, items, body, v).thread.ctl)
  {
    hide FanoutPort, Compose;
    assert TargetsIn(ids, n);
  }

  lemma {:induction false} JoinOnGraph(w: World, ids: set<string>, results: Results, f: Frame, n: IRNode,
                                       branches: map<string, Thread>)
    requires ClosedPart(w.nodes, ids) && AllAtRest(branches)
    requires forall l | l in branches :: OnGraph(w, ids, branches[l].ctl)
    ensures OnGraph(w, ids, Join(w, results, f, n, branches).thread.ctl)
  {
    hide JoinOutput;
    if !AnyAborted(branches) && |JoinIds(branches)| == 1 {
      var joinId := TheElement(JoinIds(branches));
      var l :| l in branches && branches[l].ctl.stoppedAt == Some(joinId);
      assert TargetsIn(ids, w.nodes[joinId]);
    }
  }

  // ---------------------------------------------------------------- no node twice

  /** A height for every node. */
  type Rank = map<string, int>

  function RankOf(rank: Rank, id: string): int {
    if id in rank then rank[id] else 0
  }

  /** Edges go down, self-loops included, and no node jumps with a goto. */
  ghost predicate Ranked(nodes: map<string, IRNode>, rank: Rank) {
    && (forall id, l | id in nodes && l in nodes[id].edges :: RankOf(rank, nodes[id].edges[l]) < RankOf(rank, id))
    && (forall id | id in nodes :: nodes[id].stopCondition.Some? ==> !nodes[id].stopCondition.value.action.Goto?)
  }

  /** The chain has entered each node at most once, and all of them lie above `floor`. */
  ghost predicate OnceAbove(f: Frame, rank: Rank, floor: int) {
    forall v | v in f.visits :: f.visits[v] == 1 && RankOf(rank, v) > floor
  }

  ghost predicate At(w: World, rank: Rank, f: Frame, n: IRNode, bound: int) {
    && IsNode(w, n) && RankOf(rank, n.id) < bound
    && n.id in f.visits && f.visits[n.id] == 1
    && forall v | v in f.visits && v != n.id :: f.visits[v] == 1 && RankOf(rank, v) > RankOf(rank, n.id)
  }

  /** No chain in `c` has entered a node twice; everything ahead of it lies below `bound`. */
  ghost predicate NoRepeat(w: World, rank: Rank, c: Control, bound: int)
    decreases c
  {
    match c
    case Head(f, None) => true
    case Head(f, Some(id)) => id in w.nodes && RankOf(rank, id) < bound && OnceAbove(f, rank, RankOf(rank, id))
    case Claiming(f, n) => At(w, rank, f, n, bound)
    case Executing(f, n) => At(w, rank, f, n, bound)
    case Fanout(f, n, _, _, body) => At(w, rank, f, n, bound) && NoRepeat(w, rank, body, RankOf(rank, n.id))
    case Fork(f, n, branches) =>
      At(w, rank, f, n, bound) && forall l | l in branches :: NoRepeat(w, rank, branches[l].ctl, RankOf(rank, n.id))
    case Done(_, None) => true
    case Done(_, Some(id)) => id in w.nodes && RankOf(rank, id) < bound
    case Raised(_) => true
  }

  lemma {:induction false} GoDown(w: World, rank: Rank, f: Frame, n: IRNode, l: string, bound: int)
    requires ClosedGraph(w.nodes) && Ranked(w.nodes, rank) && At(w, rank, f, n, bound)
    ensures NoRepeat(w, rank, Head(f, Lookup(n.edges, l)), bound)
  {
    assert TargetsIn(w.nodes.Keys, n);
  }

  lemma {:induction false} NoGoto(w: World, rank: Rank, n: IRNode, output: Output)
    requires Ranked(w.nodes, rank) && IsNode(w, n)
    ensures !CheckStopCondition(n, output).JumpTo?
  {
    hide PyEquals;
  }

  /** A chain that starts at the target of an edge has entered nothing, and everything ahead lies below `n`. */
  lemma {:induction false} FreshBelow(w: World, rank: Rank, f: Frame, n: IRNode, l: string)
    requires ClosedGraph(w.nodes) && Ranked(w.nodes, rank) && IsNode(w, n) && l in n.edges && f.visits == map[]
    ensures NoRepeat(w, rank, Head(f, Some(n.edges[l])), RankOf(rank, n.id))
  {
    assert TargetsIn(w.nodes.Keys, n);
  }

  lemma {:induction false} BranchesNoRepeat(w: World, rank: Rank, f: Frame, n: IRNode, results: Results)
    requires ClosedGraph(w.nodes) && Ranked(w.nodes, rank) && IsNode(w, n)
    ensures forall l | l in Branches(f, n, results) :: NoRepeat(w, rank, Branches(f, n, results)[l].ctl,
                                                                RankOf(rank, n.id))
  {
    hide NoRepeat, ForkKey;
    forall l | l in Branches(f, n, results)
      ensures NoRepeat(w, rank, Branches(f, n, results)[l].ctl, RankOf(rank, n.id))
    {
      FreshBelow(w, rank, BranchFrame(f, l), n, l);
    }
  }

  lemma {:induction false} RouteNoRepeat(w: World, rank: Rank, f: Frame, n: IRNode, results: Results, output: Output,
                                         bound: int)
    requires ClosedGraph(w.nodes) && Ranked(w.nodes, rank) && At(w, rank, f, n, bound)
    ensures NoRepeat(w, rank, Route(w, f, n, results, output), bound)
  {
    NoGoto(w, rank, n, output);
    BranchesNoRepeat(w, rank, f, n, results);
    GoDown(w, rank, f, n, EdgeLabel(output), bound);
    hide FanoutItems, EdgeLabel, CheckStopCondition, Branches, Truthy, Ranked, ClosedGraph, At;
  }

  lemma {:induction false} HeadNoRepeat(w: World, rank: Rank, results: Results, f: Frame, current: Option<string>,
                                        v: View, bound: int)
    requires ClosedGraph(w.nodes) && NoRepeat(w, rank, Head(f, current), bound)
    ensures NoRepeat(w, rank, AtHead(w, results, f, current, v).thread.ctl, bound)
  {
  }

  lemma {:induction false} ActNoRepeat(w: World, rank: Rank, ex: Exec, t: Thread, v: View, p: seq<string>, bound: int)
    requires ClosedGraph(w.nodes) && Ranked(w.nodes, rank)
    requires NoRepeat(w, rank, t.ctl, bound) && Act(w, ex, t, v, p).Some?
    ensures NoRepeat(w, rank, Act(w, ex, t, v, p).value.thread.ctl, bound)
    decreases t.ctl
  {
    hide AtHead, Route, Evaluate, Join, NextItem, Ranked, ClosedGraph;
    match t.ctl
    case Head(f, current) => HeadNoRepeat(w, rank, t.results, f, current, v, bound);
    case Claiming(f, n) =>
      if v.row.Some? && v.row.value.Completed? {
        var output := v.row.value.output;
        RouteNoRepeat(w, rank, f.(last := Some(output)), n, t.results[n.id := output], output, bound);
      }
    case Executing(f, n) =>
      var r := Evaluate(w, ex, t.results, n, f.account, LoopCount(f, n));
      if r.Produced? {
        RouteNoRepeat(w, rank, f.(last := Some(r.output)), n, t.results[n.id := r.output], r.output, bound);
      }
    case Fanout(f, n, output, items, body) =>
      if Finished(body) {
        NextItemNoRepeat(w, rank, t.results, f, n, output, items, body, v, bound);
      } else {
        ActNoRepeat(w, rank, ex, Thread(t.results, body), v, p, RankOf(rank, n.id));
      }
    case Fork(f, n, branches) =>
      if p == [] {
        JoinNoRepeat(w, rank, t.results, f, n, branches, bound);
      } else if !branches[p[0]].ctl.Raised? {
        ActNoRepeat(w, rank, ex, branches[p[0]], v, p[1..], RankOf(rank, n.id));
      }
    case Done(_, _) =>
    case Raised(_) =>
  }

  lemma {:induction false} NextItemNoRepeat(w: World, rank: Rank, results: Results, f: Frame, n: IRNode, output: Output,
                                            items: seq<Json>, body: Control, v: View, bound: int)
    requires ClosedGraph(w.nodes) && Ranked(w.nodes, rank) && At(w, rank, f, n, bound) && Finished(body)
    ensures NoRepeat(w, rank, NextItem(w, results, f, n, output, items, body, v).thread.ctl, bound)
  {
    GoDown(w, rank, f, n, "after", bound);
    if "body" in n.edges {
      forall key, account
        ensures NoRepeat(w, rank, Head(BodyFrame(f, key, account), Some(n.edges["body"])), RankOf(rank, n.id))
      {
        FreshBelow(w, rank, BodyFrame(f, key, account), n, "body");
      }
    }
    hide Compose, FanoutPort, Ranked, ClosedGraph, At;
  }

  lemma {:induction false} RaisedIsSafe(w: World, rank: Rank, bound: int)
    ensures forall e :: NoRepeat(w, rank, Raised(e), bound)
  {
  }

  /** The join lies below the fork, and what follows it below the join. */
  lemma {:induction false} PastTheJoin(w: World, rank: Rank, f: Frame, n: IRNode, branch: Control, joinId: string,
                                       bound: int)
    requires ClosedGraph(w.nodes) && Ranked(w.nodes, rank) && At(w, rank, f, n, bound)
    requires branch.Done? && branch.stoppedAt == Some(joinId) && NoRepeat(w, rank, branch, RankOf(rank, n.id))
    ensures joinId in w.nodes
    ensures NoRepeat(w, rank, Head(f, Lookup(w.nodes[joinId].edges, "next")), bound)
  {
    assert TargetsIn(w.nodes.Keys, w.nodes[joinId]);
  }

  lemma {:induction false} JoinNoRepeat(w: World, rank: Rank, results: Results, f: Frame, n: IRNode,
                                        branches: map<string, Thread>, bound: int)
    requires ClosedGraph(w.nodes) && Ranked(w.nodes, rank) && At(w, rank, f, n, bound) && AllAtRest(branches)
    requires forall l | l in branches :: NoRepeat(w, rank, branches[l].ctl, RankOf(rank, n.id))
    ensures NoRepeat(w, rank, Join(w, results, f, n, branches).thread.ctl, bound)
  {
    hide JoinOutput, Ranked, ClosedGraph, NoRepeat;
    if !AnyAborted(branches) && |JoinIds(branches)| == 1 {
      var joinId := TheElement(JoinIds(branches));
      var l :| l in branches && branches[l].ctl.stoppedAt == Some(joinId);
      PastTheJoin(w, rank, f, n, branches[l].ctl, joinId, bound);
    }
    RaisedIsSafe(w, rank, bound);
  }

  // ---------------------------------------------------------------- over whole runs

  /** Every chain of every run from an existing entry only ever stands before nodes of the graph. */
  lemma {:induction false} LookupsNeverFail(w: World, c: Config, s: seq<Choice>)
    requires ClosedGraph(w.nodes) && OnGraph(w, w.nodes.Keys, c.thread.ctl) && RunAny(w, c, s).Some?
    ensures OnGraph(w, w.nodes.Keys, RunAny(w, c, s).value.thread.ctl)
    decreases |s|
  {
    hide Act, KeyAt, OnGraph;
    if s != [] {
      ActOnGraph(w, w.nodes.Keys, s[0].ex, c.thread, Look(c.shared, KeyAt(c.thread.ctl, s[0].path)), s[0].path);
      LookupsNeverFail(w, Move1(w, c, s[0]).value, s[1..]);
    }
  }

  /** On a ranked graph no chain of any run enters a node twice, across fan-outs, forks and their joins. */
  lemma {:induction false} NoNodeTwice(w: World, rank: Rank, c: Config, s: seq<Choice>, bound: int)
    requires ClosedGraph(w.nodes) && Ranked(w.nodes, rank)
    requires NoRepeat(w, rank, c.thread.ctl, bound) && RunAny(w, c, s).Some?
    ensures NoRepeat(w, rank, RunAny(w, c, s).value.thread.ctl, bound)
    decreases |s|
  {
    hide Act, KeyAt, NoRepeat;
    if s != [] {
      ActNoRepeat(w, rank, s[0].ex, c.thread, Look(c.shared, KeyAt(c.thread.ctl, s[0].path)), s[0].path, bound);
      NoNodeTwice(w, rank, Move1(w, c, s[0]).value, s[1..], bound);
    }
  }

  lemma {:induction false} RootIsSafe(w: World, rank: Rank, entry: string)
    requires entry in w.nodes
    ensures OnGraph(w, w.nodes.Keys, Root(entry).ctl)
    ensures NoRepeat(w, rank, Root(entry).ctl, RankOf(rank, entry) + 1)
  {
  }
}
