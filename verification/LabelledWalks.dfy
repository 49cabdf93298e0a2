/**
  Runs follow the edges their outputs name. Where no node stops, forks or fans out, the nodes that a run visits are
  those of the walk along the edges named by the outputs, in the flat graph and hence in the nested calls.
*/
module LabelledWalks {
  import opened Base
  import opened Ir
  import opened Blocks
  import opened Machine
  import opened Budget
  import opened Mirror
  import opened Moves
  import opened Routes
  import opened Compiler
  import CompiledFlows
  import Inlining

  /** A node that the top-level chain has visited, and what it committed. */
  datatype Visit = Visit(id: string, output: Output)

  /** The visit that a move of the top-level chain completes, if it leads on to a loop head. */
  function Completed(c: Config, d: Config): seq<Visit> {
    if (c.thread.ctl.Claiming? || c.thread.ctl.Executing?) && d.thread.ctl.Head?
       && c.thread.ctl.node.id in d.thread.results
    then [Visit(c.thread.ctl.node.id, d.thread.results[c.thread.ctl.node.id])]
    else []
  }

  /** The visits completed along a run. */
  function Trace(w: World, c: Config, s: seq<Choice>): seq<Visit>
    decreases |s|
  {
    if s == [] || Move1(w, c, s[0]).None? then []
    else Completed(c, Move1(w, c, s[0]).value) + Trace(w, Move1(w, c, s[0]).value, s[1..])
  }

  /** The top-level chain is the only one throughout the run, and it does not fail. */
  predicate OneChain(w: World, c: Config, s: seq<Choice>)
    decreases |s|
  {
    && !c.thread.ctl.Fork? && !c.thread.ctl.Fanout? && !c.thread.ctl.Raised?
    && (s != [] && Move1(w, c, s[0]).Some? ==> OneChain(w, Move1(w, c, s[0]).value, s[1..]))
  }

  /** The outputs name these edges, and none of them meets a stop condition. */
  predicate Named(w: World, trace: seq<Visit>, labels: seq<string>) {
    && |labels| == |trace|
    && forall i | 0 <= i < |trace| ::
         && trace[i].id in w.nodes && !Stops(w.nodes[trace[i].id], trace[i].output)
         && Says(trace[i].output, labels[i])
  }

  function Ids(trace: seq<Visit>): seq<string> {
    seq(|trace|, i requires 0 <= i < |trace| => trace[i].id)
  }

  /** The node that a single chain is at or stands before. */
  function Standing(c: Control): seq<string> {
    match c
    case Head(_, Some(id)) => [id]
    case Claiming(_, n) => [n.id]
    case Executing(_, n) => [n.id]
    case Done(_, Some(id)) => [id]
    case _ => []
  }

  /** The run walks the edges of these nodes. */
  ghost predicate WalksEdgesOf(w: World, nodes: seq<NodeSpec>) {
    && IdsMatch(w)
    && (forall id: string :: id in w.nodes <==> NodeIndex(nodes, id) < |nodes|)
    && forall id: string | id in w.nodes :: w.nodes[id].edges == nodes[NodeIndex(nodes, id)].edges
  }

  /** A chain at a node is at a node of the graph. */
  predicate AtNode(w: World, c: Control) {
    c.Claiming? || c.Executing? ==> c.node.id in w.nodes && w.nodes[c.node.id] == c.node
  }

  /** One move: either it leaves the chain where it stands, or it completes the visit of that node and the chain
      stands at the end of the edge that the output names. */
  lemma {:induction false} OneMove(w: World, c: Config, m: Choice, l: string)
    requires IdsMatch(w) && Move1(w, c, m).Some? && AtNode(w, c.thread.ctl)
    requires OneChain(w, c, [m])
    requires var trace := Completed(c, Move1(w, c, m).value);
      trace != [] ==> Named(w, trace, [l])
    ensures var d, trace := Move1(w, c, m).value, Completed(c, Move1(w, c, m).value);
      && AtNode(w, d.thread.ctl)
      && (trace == [] ==> Standing(c.thread.ctl) == Standing(d.thread.ctl))
      && (trace != [] ==>
            && |trace| == 1 && Standing(c.thread.ctl) == [trace[0].id] && trace[0].id in w.nodes
            && Standing(d.thread.ctl)
            == if l in w.nodes[trace[0].id].edges then [w.nodes[trace[0].id].edges[l]] else [])
  {
    OnlyRoot(w, c, m);
    RootMover(c.thread);
    hide Step, Put, ThreadAt, Stops, Says, GoesOn, Act, KeyAt;
    match c.thread.ctl
    case Head(f, current) =>
      var y := HeadMoves(w, m.ex, c, []);
      PutAtRoot(c.thread, y);
    case Claiming(f, n) =>
      var y := StepsAreClaimed(w, m.ex, c, []);
      PutAtRoot(c.thread, y);
      if !y.ctl.Executing? { CommitStands(w, c.thread, y, f, n, y.results[n.id], l); }
    case Executing(f, n) =>
      var output, y := OutputsAreFollowed(w, m.ex, c, []);
      PutAtRoot(c.thread, y);
      CommitStands(w, c.thread, y, f, n, output.value, l);
    case Done(_, _) => FinishedStays(w, c, m);
  }

  lemma {:induction false} OnlyRoot(w: World, c: Config, m: Choice)
    requires Move1(w, c, m).Some? && !c.thread.ctl.Fork? && !c.thread.ctl.Fanout?
    ensures m.path == []
  {
  }

  lemma {:induction false} FinishedStays(w: World, c: Config, m: Choice)
    requires Finished(c.thread.ctl)
    ensures Move1(w, c, m).None?
  {
  }

  lemma {:induction false} RootMover(t: Thread)
    requires !t.ctl.Fork? && !t.ctl.Fanout?
    ensures ThreadAt(t, []) == t
  {
  }

  lemma {:induction false} PutAtRoot(t: Thread, y: Thread)
    requires !t.ctl.Fork? && !t.ctl.Fanout?
    ensures Put(t, [], y) == y
  {
  }

  /** A commit that neither splits nor raises leads to a loop head: before the end of the named edge. */
  lemma {:induction false} CommitStands(w: World, x: Thread, y: Thread, f: Frame, n: IRNode, output: Output, l: string)
    requires CommitsAt(w, x, y, f, n, output) && !y.ctl.Fork? && !y.ctl.Fanout? && !y.ctl.Raised?
    ensures y.ctl.Head? && n.id in y.results && y.results[n.id] == output
    ensures !Stops(n, output) && Says(output, l) ==> y.ctl.current == Target(n, l)
  {
    hide Stops, Says, AreItems;
    SomethingSaid(output);
  }

  lemma {:induction false} SomethingSaid(output: Output)
    ensures exists l: string :: Says(output, l)
  {
    if "__edge__" in output && output["__edge__"].JStr? {
      assert Says(output, output["__edge__"].s);
    } else {
      assert Says(output, "next");
    }
  }

  lemma {:induction false} OneChainGoesOn(w: World, c: Config, s: seq<Choice>)
    requires OneChain(w, c, s) && s != [] && Move1(w, c, s[0]).Some?
    ensures OneChain(w, c, [s[0]]) && OneChain(w, Move1(w, c, s[0]).value, s[1..])
  {
    hide Move1;
    var d := Move1(w, c, s[0]).value;
    var rest: seq<Choice> := [s[0]][1..];
    assert OneChain(w, d, s[1..]) && OneChain(w, d, rest);
  }

  /** From where the chain stands, the run visits the nodes of the walk along the edges it names. */
  lemma {:induction false} TraceIsWalk(w: World, nodes: seq<NodeSpec>, c: Config, s: seq<Choice>, id: string,
                                       labels: seq<string>)
    requires WalksEdgesOf(w, nodes) && AtNode(w, c.thread.ctl) && Standing(c.thread.ctl) == [id]
    requires RunAny(w, c, s).Some? && OneChain(w, c, s) && Named(w, Trace(w, c, s), labels)
    ensures FlatWalk(nodes, id, labels) == Ids(Trace(w, c, s)) + Standing(RunAny(w, c, s).value.thread.ctl)
    decreases |s|
  {
    if s == [] {
      assert Ids([]) + [id] == [id];
    } else {
      var d := Move1(w, c, s[0]).value;
      var now, rest, end := Completed(c, d), Trace(w, d, s[1..]), Standing(RunAny(w, c, s).value.thread.ctl);
      OneChainGoesOn(w, c, s);
      NamedParts(w, now, rest, labels);
      OneMove(w, c, s[0], if now == [] then "" else labels[0]);
      OneMoreMove(w, c, s);
      hide Move1, Completed, Standing, AtNode, OneChain, Named, Trace, RunAny, FlatWalk, WalksEdgesOf, IdsMatch;
      if now == [] {
        assert now + rest == rest;
        TraceIsWalk(w, nodes, d, s[1..], id, labels);
      } else {
        WalkGoesOn(w, nodes, id, labels);
        IdsAfter(now[0], rest, end);
        if labels[0] in w.nodes[id].edges {
          TraceIsWalk(w, nodes, d, s[1..], w.nodes[id].edges[labels[0]], labels[1..]);
        } else {
          NothingMore(w, d, s[1..]);
        }
      }
    }
  }

  lemma {:induction false} OneMoreMove(w: World, c: Config, s: seq<Choice>)
    requires s != [] && RunAny(w, c, s).Some?
    ensures Move1(w, c, s[0]).Some? && RunAny(w, c, s) == RunAny(w, Move1(w, c, s[0]).value, s[1..])
    ensures Trace(w, c, s) == Completed(c, Move1(w, c, s[0]).value) + Trace(w, Move1(w, c, s[0]).value, s[1..])
  {
  }

  lemma {:induction false} IdsAfter(v: Visit, rest: seq<Visit>, end: seq<string>)
    ensures Ids([v] + rest) + end == [v.id] + (Ids(rest) + end)
  {
    assert Ids([v] + rest) == [v.id] + Ids(rest);
  }

  lemma {:induction false} WalkGoesOn(w: World, nodes: seq<NodeSpec>, id: string, labels: seq<string>)
    requires WalksEdgesOf(w, nodes) && id in w.nodes && labels != []
    ensures FlatWalk(nodes, id, labels)
         == if labels[0] in w.nodes[id].edges then [id] + FlatWalk(nodes, w.nodes[id].edges[labels[0]], labels[1..])
            else [id]
  {
  }

  lemma {:induction false} NamedParts(w: World, now: seq<Visit>, rest: seq<Visit>, labels: seq<string>)
    requires Named(w, now + rest, labels) && |now| <= 1
    ensures now == [] ==> Named(w, rest, labels)
    ensures now != [] ==> labels != [] && Named(w, now, [labels[0]]) && Named(w, rest, labels[1..])
  {
    hide Stops, Says;
    if now == [] {
      assert now + rest == rest;
    } else {
      var all := now + rest;
      assert all[0] == now[0];
      forall i | 0 <= i < |rest|
        ensures rest[i] == all[i + 1] && labels[1..][i] == labels[i + 1]
      {
      }
    }
  }

  /** A chain that stands nowhere is over. */
  lemma {:induction false} NothingMore(w: World, c: Config, s: seq<Choice>)
    requires Standing(c.thread.ctl) == [] && OneChain(w, c, s) && RunAny(w, c, s).Some?
    ensures Trace(w, c, s) == [] && Standing(RunAny(w, c, s).value.thread.ctl) == []
    decreases |s|
  {
    if s != [] {
      OneChainGoesOn(w, c, s);
      if Finished(c.thread.ctl) { FinishedStays(w, c, s[0]); }
      var d := Move1(w, c, s[0]).value;
      OnlyRoot(w, c, s[0]);
      NothingMore(w, d, s[1..]);
    }
  }

  /** In every run from the entry that does not split, stop or fail, the nodes visited are, one after the other, those
      at the ends of the edges that their outputs name. */
  lemma {:induction false} RunsFollowTheirLabels(w: World, nodes: seq<NodeSpec>, entry: string, sh: Shared,
                                                 s: seq<Choice>, labels: seq<string>)
    requires WalksEdgesOf(w, nodes)
    requires var c := Config(Root(entry), sh);
      RunAny(w, c, s).Some? && OneChain(w, c, s) && Named(w, Trace(w, c, s), labels)
    ensures var c := Config(Root(entry), sh);
      FlatWalk(nodes, entry, labels) == Ids(Trace(w, c, s)) + Standing(RunAny(w, c, s).value.thread.ctl)
  {
    TraceIsWalk(w, nodes, Config(Root(entry), sh), s, entry, labels);
  }

  lemma {:induction false} CompiledWalksEdges(w: World, setup: Setup, flat: Flat)
    requires CompiledFlows.RunsCompiled(w, setup, flat)
    ensures WalksEdgesOf(w, flat.nodes)
  {
    CompiledKeys(w, setup, flat);
    hide CompiledFlows.RunsCompiled, IdsOf;
    forall id: string
      ensures id in w.nodes <==> NodeIndex(flat.nodes, id) < |flat.nodes|
      ensures id in w.nodes ==> w.nodes[id].edges == flat.nodes[NodeIndex(flat.nodes, id)].edges
    {
      Indexed(flat.nodes, id);
      if id in w.nodes { CompiledNodeAt(w, setup, flat, NodeIndex(flat.nodes, id)); }
    }
  }

  lemma {:induction false} Indexed(nodes: seq<NodeSpec>, id: string)
    ensures id in IdsOf(nodes) <==> NodeIndex(nodes, id) < |nodes|
  {
  }

  lemma {:induction false} CompiledKeys(w: World, setup: Setup, flat: Flat)
    requires CompiledFlows.RunsCompiled(w, setup, flat)
    ensures IdsMatch(w) && w.nodes.Keys == IdsOf(flat.nodes)
  {
    CompiledIds(flat, setup);
    CompiledGraphIsClosed(flat, setup);
    hide NodesById, CompiledNodes, Compilable, IdsOf;
  }

  lemma {:induction false} CompiledNodeAt(w: World, setup: Setup, flat: Flat, i: nat)
    requires CompiledFlows.RunsCompiled(w, setup, flat) && i < |flat.nodes|
    ensures flat.nodes[i].id in w.nodes && w.nodes[flat.nodes[i].id].edges == flat.nodes[i].edges
  {
    var ids := IdsOf(flat.nodes);
    var irs := CompiledNodes(flat.nodes, ids, setup.alphabet);
    CompiledIds(flat, setup);
    assert irs[i] == CompileNode(flat.nodes[i], ids, setup.alphabet);
    hide NodesById, AllCompile, GraphOf, CompileNode, IdsOf;
    ById(irs, i);
  }

  /** In a compiled flow they are the nodes of the nested calls, walked along the same edges. */
  lemma {:induction false} CompiledFlowsFollowTheirLabels(w: World, setup: Setup, lib: Library, nodes: seq<NodeSpec>,
                                                          entry: string, b: Block, sh: Shared, s: seq<Choice>,
                                                          labels: seq<string>)
    requires Resolve(lib, nodes, entry, [], 0) == Ok(b) && Flatten(b).Ok?
    requires Inlining.RawIds(b) && Inlining.DistinctIds(b) && CompiledFlows.RunsCompiled(w, setup, Flatten(b).value)
    requires var c := Config(Root(Flatten(b).value.entry), sh);
      RunAny(w, c, s).Some? && OneChain(w, c, s) && Named(w, Trace(w, c, s), labels)
    ensures Arrive(b, b.entry).Some?
    ensures var c := Config(Root(Flatten(b).value.entry), sh);
      Inlining.Names(NestedWalk(b, Arrive(b, b.entry).value, labels))
      == Ids(Trace(w, c, s)) + Standing(RunAny(w, c, s).value.thread.ctl)
  {
    hide Resolve, Flatten, Inlining.RawIds, Inlining.DistinctIds, Compilable, Trace, OneChain, Named, WalksEdgesOf;
    var flat := Flatten(b).value;
    CompiledWalksEdges(w, setup, flat);
    RunsFollowTheirLabels(w, flat.nodes, flat.entry, sh, s, labels);
    CompilingPreservesWalks(lib, nodes, entry, setup, b, labels);
  }
}
