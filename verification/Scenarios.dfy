/**
  Concrete flows that show where the conditions of the theorems bite: a stop that fails a run instead of
  completing it, and failures whose order only the schedule decides.
*/
module Scenarios {
  import opened Base
  import opened JsonValues
  import opened Ir
  import opened IterationKeys
  import opened Machine
  import opened Confluence
  import opened Lifting
  import opened Schedules
  import opened AbortDrain
  import opened Interpreter

  function Node(id: string, nodeType: string, edges: map<string, string>): IRNode {
    IRNode(id, nodeType, map[], None, edges, None, None, None, NoChildren)
  }

  function Start(entry: string, budget: int): Config {
    Config(Root(entry), Shared(map[], budget, false, None))
  }

  /** The frame of a chain that has just entered `id`. */
  function Entering(f: Frame, id: string): Frame {
    f.(visits := f.visits[id := Visits(f, id) + 1])
  }

  predicate CanEnter(w: World, f: Frame, id: string, sh: Shared) {
    && id in w.nodes && w.nodes[id].id == id
    && !sh.abort && sh.budget > 0 && !(f.stopAtJoin && w.nodes[id].nodeType == JOIN_NODE_TYPE)
  }

  /** Entering a node, claiming its step and running it, in one. */
  lemma {:induction false} Visit(w: World, ex: Exec, results: Results, f: Frame, id: string,
                                 sh: Shared) returns (d: Config)
    requires CanEnter(w, f, id, sh)
    ensures var n := w.nodes[id];
      var (r, table) := NodeRow(w, ex, results, Entering(f, id), n, sh.table);
      d == AfterNode(w, results, Entering(f, id), n, r,
                     Shared(table, sh.budget - 1, false, if f.top then Some(id) else sh.current))
    ensures Reaches(w, ex, Config(Thread(results, Head(f, Some(id))), sh), d)
  {
    hide NodeRow, AfterNode, Step, Run;
    var n, f1 := w.nodes[id], Entering(f, id);
    var c := Config(Thread(results, Head(f, Some(id))), sh);
    var sh1 := Shared(sh.table, sh.budget - 1, false, if f.top then Some(id) else sh.current);
    HeadStep(w, ex, results, f, Some(id), sh);
    ReachesSelf(w, ex, c);
    ReachesNext(w, ex, c, c, [], Config(Thread(results, Claiming(f1, n)), sh1));
    NodeSteps(w, ex, results, f1, n, sh1);
    var (r, table) := NodeRow(w, ex, results, f1, n, sh.table);
    d := AfterNode(w, results, f1, n, r, sh1.(table := table));
    ReachesBoth(w, ex, c, Config(Thread(results, Claiming(f1, n)), sh1), d);
  }

  /** The row that entering `id` claims. */
  function RowOf(f: Frame, id: string): StepKey {
    (id, RowKey(f.key, Visits(f, id) + 1))
  }

  /** A type without declared ports computes whatever it computes. */
  lemma {:induction false} FreshNode(w: World, ex: Exec, results: Results, f: Frame, n: IRNode,
                                     table: map<StepKey, Row>, output: Output)
    requires n.nodeType in w.registry && w.registry[n.nodeType] == []
    requires (n.id, RowKey(f.key, Visits(f, n.id))) !in table
    requires forall wired: map<string, Resolution> :: ex(n, wired, f.account, LoopCount(f, n)) == Produced(output)
    ensures NodeRow(w, ex, results, f, n, table)
         == (Produced(output), table[(n.id, RowKey(f.key, Visits(f, n.id))) := Completed(output)])
  {
    hide RowKey, Wired;
  }

  /** Visiting a node whose type has no ports and whose step is new: it commits `output`, and the chain is routed. */
  lemma {:induction false} VisitFresh(w: World, ex: Exec, results: Results, f: Frame, id: string, sh: Shared,
                                      output: Output)
    returns (d: Config)
    requires CanEnter(w, f, id, sh) && w.nodes[id].nodeType in w.registry && w.registry[w.nodes[id].nodeType] == []
    requires RowOf(f, id) !in sh.table
    requires forall wired: map<string, Resolution>, loop :: ex(w.nodes[id], wired, f.account, loop) == Produced(output)
    ensures Reaches(w, ex, Config(Thread(results, Head(f, Some(id))), sh), d)
    ensures var f1 := Entering(f, id).(last := Some(output));
      && d.thread == Thread(results[id := output], Route(w, f1, w.nodes[id], results[id := output], output))
      && d.shared.table == sh.table[RowOf(f, id) := Completed(output)] && d.shared.budget == sh.budget - 1
      && d.shared.abort == (d.thread.ctl == Raised(Abort))
      && d.shared.current == if f.top then Some(id) else sh.current
  {
    hide NodeRow, Route, RowKey;
    FreshNode(w, ex, results, Entering(f, id), w.nodes[id], sh.table, output);
    d := Visit(w, ex, results, f, id, sh);
  }

  // ---------------------------------------------------------------- a stop inside nested forks

  const FORKS: Output := map["__fork__" := JBool(true)]
  const STOPS: Output := map["stop" := JBool(true)]

  /** An outer fork with a branch that forks again and a branch that stops the run. */
  const NESTED: map<string, IRNode> := map[
    "outer" := Node("outer", "fork", map["x" := "inner", "y" := "stop"]),
    "inner" := Node("inner", "fork", map["a" := "p", "b" := "q"]),
    "stop" := Node("stop", "step", map["next" := "join"])
                .(stopCondition := Some(StopCondition("stop", JBool(true), AbortRun, None))),
    "p" := Node("p", "step", map["next" := "innerJoin"]),
    "q" := Node("q", "step", map["next" := "innerJoin"]),
    "innerJoin" := Node("innerJoin", JOIN_NODE_TYPE, map["next" := "join"]),
    "join" := Node("join", JOIN_NODE_TYPE, map[])]

  /** Every node does what it is there for. */
  function NestedExec(n: IRNode, wired: map<string, Resolution>, account: Option<AccountId>, loop: nat): NodeResult {
    Produced(if n.nodeType == "fork" then FORKS else STOPS)
  }

  predicate RunsNested(w: World) {
    w.nodes == NESTED && w.registry == map["fork" := [], "step" := [], JOIN_NODE_TYPE := []]
  }

  lemma {:induction false} ForkOpens(w: World, f: Frame, n: IRNode, results: Results)
    requires n.stopCondition.None?
    ensures Route(w, f, n, results, FORKS) == Fork(f, n, Branches(f, n, results))
  {
    assert Truthy(Port(FORKS, "__fork__"));
  }

  lemma {:induction false} StopStops(w: World, f: Frame, results: Results)
    ensures Route(w, f, NESTED["stop"], results, STOPS) == Raised(Abort)
  {
    assert PyEquals(Port(STOPS, "stop"), JBool(true));
  }

  /** The chains of the two forks once they have opened. */
  function OuterFrame(): Frame {
    Entering(Root("outer").ctl.frame, "outer").(last := Some(FORKS))
  }

  function InnerFrame(): Frame {
    Entering(BranchFrame(OuterFrame(), "x"), "inner").(last := Some(FORKS))
  }

  const AT_OUTER: Results := map["outer" := FORKS]

  lemma {:induction false} OuterOpens(w: World) returns (c: Config)
    requires RunsNested(w)
    ensures Reaches(w, NestedExec, Start("outer", 3), c)
    ensures c.thread == Thread(AT_OUTER, Fork(OuterFrame(), NESTED["outer"],
                                              Branches(OuterFrame(), NESTED["outer"], AT_OUTER)))
    ensures c.shared.budget == 2 && !c.shared.abort && c.shared.table.Keys == {("outer", "")}
  {
    hide Reaches, Route, Run;
    c := VisitFresh(w, NestedExec, map[], Root("outer").ctl.frame, "outer", Start("outer", 3).shared, FORKS);
    ForkOpens(w, OuterFrame(), NESTED["outer"], c.thread.results);
  }

  lemma {:induction false} InnerOpens(w: World, sh: Shared) returns (c: Config)
    requires RunsNested(w) && sh.budget > 0 && !sh.abort && sh.table.Keys == {("outer", "")}
    ensures Reaches(w, NestedExec, Config(Thread(AT_OUTER, Head(BranchFrame(OuterFrame(), "x"), Some("inner"))), sh), c)
    ensures c.thread == Thread(AT_OUTER["inner" := FORKS],
                               Fork(InnerFrame(), NESTED["inner"],
                                    Branches(InnerFrame(), NESTED["inner"], AT_OUTER["inner" := FORKS])))
    ensures c.shared.budget == sh.budget - 1 && !c.shared.abort
    ensures c.shared.table.Keys == {("outer", ""), RowOf(BranchFrame(OuterFrame(), "x"), "inner")}
  {
    hide Reaches, Route, Run, RowKey, ForkKey;
    c := VisitFresh(w, NestedExec, AT_OUTER, BranchFrame(OuterFrame(), "x"), "inner", sh, FORKS);
    ForkOpens(w, InnerFrame(), NESTED["inner"], c.thread.results);
  }

  lemma {:induction false} StopRaises(w: World, sh: Shared) returns (c: Config)
    requires RunsNested(w) && sh.budget > 0 && !sh.abort
    requires sh.table.Keys == {("outer", ""), RowOf(BranchFrame(OuterFrame(), "x"), "inner")}
    ensures Reaches(w, NestedExec, Config(Thread(AT_OUTER, Head(BranchFrame(OuterFrame(), "y"), Some("stop"))), sh), c)
    ensures c.thread.ctl == Raised(Abort) && c.shared.abort
  {
    hide Reaches, Route, Run, RowKey, ForkKey;
    c := VisitFresh(w, NestedExec, AT_OUTER, BranchFrame(OuterFrame(), "y"), "stop", sh, STOPS);
    StopStops(w, Entering(BranchFrame(OuterFrame(), "y"), "stop").(last := Some(STOPS)), c.thread.results);
  }

  lemma {:induction false} Caught(c1: Config, inX: Config, inY: Config)
    requires c1.thread.ctl == Fork(OuterFrame(), NESTED["outer"], Branches(OuterFrame(), NESTED["outer"], AT_OUTER))
    requires inX.thread.ctl ==
      Fork(InnerFrame(), NESTED["inner"], Branches(InnerFrame(), NESTED["inner"], AT_OUTER["inner" := FORKS]))
    requires inY.shared.abort
    ensures var c := WithBranch(WithBranch(c1, "x", inX), "y", inY);
      CaughtInnerFork(c, "x", "a", "b") && c.thread.ctl.branches["x"].ctl.node.id == "inner"
  {
    hide OuterFrame, InnerFrame, BranchFrame;
  }

  lemma {:induction false} BranchesOfOuter(c: Config)
    requires c.thread == Thread(AT_OUTER, Fork(OuterFrame(), NESTED["outer"],
                                               Branches(OuterFrame(), NESTED["outer"], AT_OUTER)))
    ensures c.thread.ctl.branches.Keys == {"x", "y"}
    ensures c.thread.ctl.branches["x"] == Thread(AT_OUTER, Head(BranchFrame(OuterFrame(), "x"), Some("inner")))
    ensures c.thread.ctl.branches["y"] == Thread(AT_OUTER, Head(BranchFrame(OuterFrame(), "y"), Some("stop")))
  {
    hide BranchFrame, OuterFrame;
  }

  /** The outer fork opens, the inner fork opens in its first branch, and the second branch stops the run. */
  lemma {:induction false} InnerForkIsCaught(w: World) returns (c: Config)
    requires RunsNested(w)
    ensures Reaches(w, NestedExec, Start("outer", 3), c) && CaughtInnerFork(c, "x", "a", "b")
    ensures c.thread.ctl.branches["x"].ctl.node.id == "inner"
  {
    hide Reaches, Run, RowKey, ForkKey, OuterFrame, InnerFrame, CaughtInnerFork;
    var c1 := OuterOpens(w);
    BranchesOfOuter(c1);
    hide Branches, BranchFrame;
    var inX := InnerOpens(w, c1.shared);
    ReachesInBranch(w, NestedExec, c1, "x", inX);
    var c2 := WithBranch(c1, "x", inX);
    ReachesBoth(w, NestedExec, Start("outer", 3), c1, c2);
    var inY := StopRaises(w, c2.shared);
    ReachesInBranch(w, NestedExec, c2, "y", inY);
    c := WithBranch(c2, "y", inY);
    ReachesBoth(w, NestedExec, Start("outer", 3), c2, c);
    Caught(c1, inX, inY);
  }

  /**
    A stop that fails the run. From the entry of this flow, with three visits of budget, some interleaving of the
    branches raises the flag while the inner fork's branches stand before different nodes, and then the run can end
    as FAILED, although no node failed and a node asked for the run to stop.
  */
  lemma {:induction false} StopFailsTheRun(w: World) returns (c: Config, end: Config)
    requires RunsNested(w)
    ensures Reaches(w, NestedExec, Start("outer", 3), c) && CaughtInnerFork(c, "x", "a", "b")
    ensures Reaches(w, NestedExec, c, end)
    ensures end.thread.ctl == Raised(Failed("inner", "fork branches must converge on exactly one join node"))
  {
    hide Reaches, Run, CaughtInnerFork;
    c := InnerForkIsCaught(w);
    NestedForkFailsTheRun(w, NestedExec, c, "x", "a", "b");
    end := Run(w, NestedExec, c, [["x", "a"], ["x", "b"], ["x"], ["x"]]).value;
    RunReaches(w, NestedExec, c, [["x", "a"], ["x", "b"], ["x"], ["x"]], end);
  }

  lemma {:induction false} RunReaches(w: World, ex: Exec, c: Config, s: seq<seq<string>>, d: Config)
    requires Run(w, ex, c, s) == Some(d)
    ensures Reaches(w, ex, c, d)
  {
    hide Run;
  }

  // ---------------------------------------------------------------- failures in two branches

  const RACING: map<string, IRNode> := map[
    "fork" := Node("fork", "fork", map["x" := "p", "y" := "q"]),
    "p" := Node("p", "step", map[]),
    "q" := Node("q", "step", map[])]

  function RacingExec(n: IRNode, wired: map<string, Resolution>, account: Option<AccountId>, loop: nat): NodeResult {
    if n.nodeType == "fork" then Produced(FORKS) else Failing("broken")
  }

  function ForkFrame(): Frame {
    Entering(Root("fork").ctl.frame, "fork").(last := Some(FORKS))
  }

  lemma {:induction false} RacingOpens(w: World) returns (c: Config)
    requires w.nodes == RACING && w.registry == map["fork" := [], "step" := []]
    ensures Reaches(w, RacingExec, Start("fork", 2), c)
    ensures c.thread.ctl == Fork(ForkFrame(), RACING["fork"], Branches(ForkFrame(), RACING["fork"], c.thread.results))
    ensures c.shared.budget == 1 && !c.shared.abort && c.shared.table.Keys == {("fork", "")}
  {
    hide Reaches, Route, Run;
    c := VisitFresh(w, RacingExec, map[], Root("fork").ctl.frame, "fork", Start("fork", 2).shared, FORKS);
    ForkOpens(w, ForkFrame(), RACING["fork"], c.thread.results);
  }

  lemma {:induction false} BranchFails(w: World, c: Config, l: string) returns (end: Config)
    requires w.nodes == RACING && w.registry == map["fork" := [], "step" := []] && l in {"x", "y"}
    requires c.thread.ctl == Fork(ForkFrame(), RACING["fork"], Branches(ForkFrame(), RACING["fork"], c.thread.results))
    requires c.shared.budget == 1 && !c.shared.abort && c.shared.table.Keys == {("fork", "")}
    ensures Reaches(w, RacingExec, c, end)
    ensures end.thread.ctl == Raised(Failed(RACING["fork"].edges[l], "broken"))
  {
    hide Reaches, Run, RowKey, ForkKey, Step;
    var id, f := RACING["fork"].edges[l], BranchFrame(ForkFrame(), l);
    assert Branch(c, l) == Config(Thread(c.thread.results, Head(f, Some(id))), c.shared);
    var b := Visit(w, RacingExec, c.thread.results, f, id, c.shared);
    FailingNode(w, c.thread.results, Entering(f, id), RACING[id], c.shared.table);
    ReachesInBranch(w, RacingExec, c, l, b);
    var c' := WithBranch(c, l, b);
    FailStep(w, RacingExec, c', l);
    end := Config(Thread(c.thread.results, b.thread.ctl), b.shared);
    ReachesNext(w, RacingExec, c, c', [l], end);
  }

  lemma {:induction false} FailingNode(w: World, results: Results, f: Frame, n: IRNode, table: map<StepKey, Row>)
    requires w.registry == map["fork" := [], "step" := []] && n.nodeType == "step"
    requires (n.id, RowKey(f.key, Visits(f, n.id))) !in table
    ensures NodeRow(w, RacingExec, results, f, n, table).0 == Failing("broken")
  {
    hide RowKey, Wired;
  }

  /** Without any crash, the schedule alone decides how a run ends that fails while branches are on their way: with
      one step as its failing step, or with another. There is no one end for a resumed attempt to agree with. */
  lemma {:induction false} ScheduleDecidesTheFailure(w: World) returns (one: Config, other: Config)
    requires w.nodes == RACING && w.registry == map["fork" := [], "step" := []]
    ensures Reaches(w, RacingExec, Start("fork", 2), one) && one.thread.ctl == Raised(Failed("p", "broken"))
    ensures Reaches(w, RacingExec, Start("fork", 2), other) && other.thread.ctl == Raised(Failed("q", "broken"))
  {
    hide Reaches, Run;
    var c := RacingOpens(w);
    one := BranchFails(w, c, "x");
    other := BranchFails(w, c, "y");
    ReachesBoth(w, RacingExec, Start("fork", 2), c, one);
    ReachesBoth(w, RacingExec, Start("fork", 2), c, other);
  }
}
