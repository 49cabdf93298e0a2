/**
  Reads across a crash. A resumed attempt starts with an empty result map, so a node may execute without a result
  that the walk before the crash had. That fails the run; a condition on the graph is enough to rule it out.
*/
module LostReads {
  import opened Base
  import opened Ir
  import opened IterationKeys
  import opened Machine
  import opened Budget
  import opened SafeWalk
  import opened Mirror
  import opened AbortDrain
  import opened Following
  import opened Resume

  // ---------------------------------------------------------------- a missing result fails the run

  lemma {:induction false} MissingPortIsBad(wired: map<string, Resolution>, ports: seq<string>, port: string)
    requires port in ports && port in wired && wired[port].Missing?
    ensures FirstBadPort(wired, ports).Some? && !FirstBadPort(wired, ports).value.Value?
  {
    if !(ports[0] in wired && !wired[ports[0]].Value?) {
      MissingPortIsBad(wired, ports[1..], port);
    }
  }

  /**
    An attempt that resumes at a node with a declared port wired to any other node's output, and finds that node's
    step not completed, fails in three steps whatever the nodes compute, because its result map starts empty.
  */
  lemma {:induction false} BackRefFailsTheResume(w: World, ex: Exec, sh: Shared, node: string, port: string)
    requires node in w.nodes && sh.budget > 0 && !sh.abort
    requires var n := w.nodes[node];
      && n.nodeType in w.registry && port in w.registry[n.nodeType]
      && port in n.inputs && n.inputs[port].PortRef? && n.inputs[port].nodeId != VARS_NODE_ID
      && !Committed(sh.table, (n.id, RowKey("", Visits(Frame("", None, map[node := 1], None, true, false), n.id))))
    ensures var end := Run(w, ex, Config(Root(node), sh), [[], [], []]);
      end.Some? && end.value.thread.ctl.Raised? && end.value.thread.ctl.exn != Abort
  {
    hide Evaluate, RowKey;
    var n := w.nodes[node];
    var c0 := Config(Root(node), sh);
    var f := Frame("", None, map[node := 1], None, true, false);
    var c1 := Step(w, ex, c0, []).value;
    assert c1.thread == Thread(map[], Claiming(f, n)) && c1.shared.table == sh.table;
    var c2 := Step(w, ex, c1, []).value;
    assert c2.thread == Thread(map[], Executing(f, n));
    NothingToRead(w, ex, map[], n, port, f.account, LoopCount(f, n));
    var c3 := Step(w, ex, c2, []).value;
    RunTail(w, ex, c0, c1, c2, c3);
  }

  lemma {:induction false} RunTail(w: World, ex: Exec, c0: Config, c1: Config, c2: Config, c3: Config)
    requires Step(w, ex, c0, []) == Some(c1) && Step(w, ex, c1, []) == Some(c2) && Step(w, ex, c2, []) == Some(c3)
    ensures Run(w, ex, c0, [[], [], []]) == Some(c3)
  {
    hide Step;
    var s3: seq<seq<string>>, s2: seq<seq<string>>, s1: seq<seq<string>> := [[], [], []], [[], []], [[]];
    assert s3[1..] == s2 && s2[1..] == s1 && s1[1..] == [];
    assert Run(w, ex, c3, []) == Some(c3);
  }

  lemma {:induction false} NothingToRead(w: World, ex: Exec, results: Results, n: IRNode, port: string,
                                         account: Option<AccountId>, loop: nat)
    requires ReadsMissing(w, results, n, port)
    ensures !Evaluate(w, ex, results, n, account, loop).Produced?
  {
    MissingPortIsBad(Wired(w, results, n), w.registry[n.nodeType], port);
  }

  /** A declared port of `n` is wired to a node that has no result yet. */
  predicate ReadsMissing(w: World, results: Results, n: IRNode, port: string) {
    && n.nodeType in w.registry && port in w.registry[n.nodeType]
    && port in n.inputs && n.inputs[port].PortRef?
    && n.inputs[port].nodeId != VARS_NODE_ID && n.inputs[port].nodeId !in results
  }

  lemma {:induction false} MissingResultRaises(w: World, ex: Exec, t: Thread, v: View, p: seq<string>, port: string)
    requires Act(w, ex, t, v, p).Some? && ThreadAt(t, p).ctl.Executing?
    requires ReadsMissing(w, ThreadAt(t, p).results, ThreadAt(t, p).ctl.node, port)
    ensures !FailureFree(Act(w, ex, t, v, p).value.thread.ctl)
    decreases t.ctl
  {
    hide AtHead, AtClaim, Evaluate, NextItem, Join, ReadsMissing, Commit;
    match t.ctl
    case Executing(f, n) => NothingToRead(w, ex, t.results, n, port, f.account, LoopCount(f, n));
    case Fanout(f, n, output, items, body) =>
      if !Finished(body) { MissingResultRaises(w, ex, Thread(t.results, body), v, p, port); }
    case Fork(f, n, branches) =>
      if p != [] && !branches[p[0]].ctl.Raised? {
        MissingResultRaises(w, ex, branches[p[0]], v, p[1..], port);
        var m := Act(w, ex, branches[p[0]], v, p[1..]).value;
        assert branches[p[0] := m.thread][p[0]] == m.thread;
      }
    case _ =>
  }

  /**
    In any attempt, resumed or not, at any depth of forks and fan-outs and under any schedule: a node that executes
    while a declared port of it is wired to a node without a result fails the run. It neither finishes nor counts
    as stopped on purpose.
  */
  lemma {:induction false} MissingResultFailsTheRun(w: World, c: Config, reader: Choice, s: seq<Choice>, port: string)
    requires Move1(w, c, reader).Some? && ThreadAt(c.thread, reader.path).ctl.Executing?
    requires ReadsMissing(w, ThreadAt(c.thread, reader.path).results, ThreadAt(c.thread, reader.path).ctl.node, port)
    requires RunAny(w, Move1(w, c, reader).value, s).Some?
    ensures var end := RunAny(w, Move1(w, c, reader).value, s).value.thread.ctl;
      !FailureFree(end) && (Finished(end) ==> end.Raised? && end.exn != Abort)
  {
    hide Act, KeyAt, ThreadAt, ReadsMissing;
    MissingResultRaises(w, reader.ex, c.thread, Look(c.shared, KeyAt(c.thread.ctl, reader.path)), reader.path, port);
    if FailureFree(RunAny(w, Move1(w, c, reader).value, s).value.thread.ctl) {
      FailureFreeAtStart(w, Move1(w, c, reader).value, s);
    }
  }

  // ---------------------------------------------------------------- where a history is

  lemma {:induction false} StepOnGraph(w: World, ids: set<string>, ex: Exec, c: Config, p: seq<string>)
    requires ClosedPart(w.nodes, ids) && OnGraph(w, ids, c.thread.ctl) && Step(w, ex, c, p).Some?
    ensures OnGraph(w, ids, Step(w, ex, c, p).value.thread.ctl)
  {
    hide Act, KeyAt, OnGraph;
    ActOnGraph(w, ids, ex, c.thread, Look(c.shared, KeyAt(c.thread.ctl, p)), p);
  }

  lemma {:induction false} ThreadOnGraph(w: World, ids: set<string>, t: Thread, p: seq<string>)
    requires OnGraph(w, ids, t.ctl)
    ensures OnGraph(w, ids, ThreadAt(t, p).ctl)
    decreases t.ctl
  {
    match t.ctl
    case Fanout(_, _, _, _, body) => if !Finished(body) { ThreadOnGraph(w, ids, Thread(t.results, body), p); }
    case Fork(_, _, branches) => if p != [] && p[0] in branches { ThreadOnGraph(w, ids, branches[p[0]], p[1..]); }
    case _ =>
  }

  /** The attempt is on the graph, and the next one will be. */
  ghost predicate Placed(w: World, entry: string, x: Life) {
    && OnGraph(w, w.nodes.Keys, x.config.thread.ctl) && RootOk(x.config.thread.ctl)
    && ResumeNode(x.config.shared.current, entry) in w.nodes
  }

  lemma {:induction false} StaysPlaced(w: World, ex: Exec, entry: string, budget: int, x: Life, e: Event)
    requires ClosedGraph(w.nodes) && entry in w.nodes && Placed(w, entry, x)
    requires Live(w, ex, entry, budget, x, e).Some?
    ensures Placed(w, entry, Live(w, ex, entry, budget, x, e).value)
  {
    if e.Go? {
      hide Act, KeyAt, OnGraph, RootOk, Step, ClosedGraph;
      var c, p := x.config, e.path;
      WholeGraphIsClosed(w);
      StepOnGraph(w, w.nodes.Keys, ex, c, p);
      StepRootOk(w, ex, c, p);
      TouchedAt(w, ex, c, p);
      if Touches(c, Step(w, ex, c, p).value) { EntersKnown(w, ex, c, p); }
    }
  }

  lemma {:induction false} WholeGraphIsClosed(w: World)
    requires ClosedGraph(w.nodes)
    ensures ClosedPart(w.nodes, w.nodes.Keys)
  {
  }

  lemma {:induction false} StepRootOk(w: World, ex: Exec, c: Config, p: seq<string>)
    requires RootOk(c.thread.ctl) && Step(w, ex, c, p).Some?
    ensures RootOk(Step(w, ex, c, p).value.thread.ctl)
  {
    hide Act, KeyAt, RootOk;
    ActRootOk(w, ex, c.thread, Look(c.shared, KeyAt(c.thread.ctl, p)), p);
  }

  lemma {:induction false} LifeIsPlaced(w: World, ex: Exec, entry: string, budget: int, x: Life, events: seq<Event>)
    requires ClosedGraph(w.nodes) && entry in w.nodes && Placed(w, entry, x)
    requires LiveAll(w, ex, entry, budget, x, events).Some?
    ensures Placed(w, entry, LiveAll(w, ex, entry, budget, x, events).value)
    decreases |events|
  {
    hide Live, Placed, ClosedGraph;
    if events != [] {
      StaysPlaced(w, ex, entry, budget, x, events[0]);
      LifeIsPlaced(w, ex, entry, budget, Live(w, ex, entry, budget, x, events[0]).value, events[1..]);
    }
  }

  // ---------------------------------------------------------------- a lost read

  /** Whatever refers to a node's result is a port that the reader's type declares, hence read before it executes. */
  predicate ReadsDeclared(w: World) {
    forall id, port | id in w.nodes && port in w.nodes[id].inputs && w.nodes[id].inputs[port].PortRef?
                      && w.nodes[id].inputs[port].nodeId != VARS_NODE_ID ::
      w.nodes[id].nodeType in w.registry && port in w.registry[w.nodes[id].nodeType]
  }

  /** No crash in these events. */
  predicate OneAttempt(events: seq<Event>) {
    forall i | 0 <= i < |events| :: events[i].Go?
  }

  /** The port whose result is lost. */
  lemma {:induction false} LostPort(w: World, entry: string, x: Life, p: seq<string>) returns (port: string)
    requires ReadsDeclared(w) && Placed(w, entry, x) && LosesRead(x, Go(p))
    ensures ThreadAt(x.config.thread, p).ctl.Executing?
    ensures ReadsMissing(w, ThreadAt(x.config.thread, p).results, ThreadAt(x.config.thread, p).ctl.node, port)
  {
    hide ThreadAt, RootOk;
    var chain := ThreadAt(x.config.thread, p);
    ThreadOnGraph(w, w.nodes.Keys, x.config.thread, p);
    port :| port in chain.ctl.node.inputs && chain.ctl.node.inputs[port].PortRef?
      && chain.ctl.node.inputs[port].nodeId != VARS_NODE_ID && chain.ctl.node.inputs[port].nodeId in x.before
      && chain.ctl.node.inputs[port].nodeId !in chain.results;
    assert chain.ctl.node.id in w.nodes && w.nodes[chain.ctl.node.id] == chain.ctl.node;
  }

  lemma {:induction false} LostReadFails(w: World, ex: Exec, entry: string, budget: int, x: Life, p: seq<string>)
    requires ReadsDeclared(w) && Placed(w, entry, x) && Live(w, ex, entry, budget, x, Go(p)).Some?
    requires LosesRead(x, Go(p))
    ensures !FailureFree(Live(w, ex, entry, budget, x, Go(p)).value.config.thread.ctl)
  {
    var port := LostPort(w, entry, x, p);
    hide Act, KeyAt, ThreadAt, Placed, ReadsMissing;
    MissingResultRaises(w, ex, x.config.thread, Look(x.config.shared, KeyAt(x.config.thread.ctl, p)), p, port);
  }

  lemma {:induction false} StaysFailed(w: World, ex: Exec, entry: string, budget: int, x: Life, p: seq<string>)
    requires !FailureFree(x.config.thread.ctl) && Live(w, ex, entry, budget, x, Go(p)).Some?
    ensures !FailureFree(Live(w, ex, entry, budget, x, Go(p)).value.config.thread.ctl)
  {
    hide Act, KeyAt, FailureFree;
    var c := x.config;
    if FailureFree(Live(w, ex, entry, budget, x, Go(p)).value.config.thread.ctl) {
      FailuresStay(w, ex, c.thread, Look(c.shared, KeyAt(c.thread.ctl, p)), p);
    }
  }

  lemma {:induction false} AttemptStaysFailed(w: World, ex: Exec, entry: string, budget: int, x: Life,
                                              events: seq<Event>)
    requires !FailureFree(x.config.thread.ctl) && OneAttempt(events)
    requires LiveAll(w, ex, entry, budget, x, events).Some?
    ensures !FailureFree(LiveAll(w, ex, entry, budget, x, events).value.config.thread.ctl)
    decreases |events|
  {
    hide Live, FailureFree;
    if events != [] {
      StaysFailed(w, ex, entry, budget, x, events[0].path);
      AttemptStaysFailed(w, ex, entry, budget, Live(w, ex, entry, budget, x, events[0]).value, events[1..]);
    }
  }

  lemma {:induction false} LostReadIsNotSurvived(w: World, ex: Exec, entry: string, budget: int, x: Life,
                                                 events: seq<Event>)
    requires ClosedGraph(w.nodes) && entry in w.nodes && ReadsDeclared(w) && Placed(w, entry, x)
    requires OneAttempt(events) && LiveAll(w, ex, entry, budget, x, events).Some?
    requires !NoReadIsLost(w, ex, entry, budget, x, events)
    ensures !FailureFree(LiveAll(w, ex, entry, budget, x, events).value.config.thread.ctl)
    decreases |events|
  {
    hide Live, FailureFree, Placed, ReadsDeclared, ClosedGraph, LosesRead;
    var x' := Live(w, ex, entry, budget, x, events[0]).value;
    if LosesRead(x, events[0]) {
      LostReadFails(w, ex, entry, budget, x, events[0].path);
      AttemptStaysFailed(w, ex, entry, budget, x', events[1..]);
    } else {
      StaysPlaced(w, ex, entry, budget, x, events[0]);
      LostReadIsNotSurvived(w, ex, entry, budget, x', events[1..]);
    }
  }

  // ---------------------------------------------------------------- a condition on the graph that is enough

  /** No input of `n` refers to a node of `hidden`. */
  predicate ReadsNone(hidden: set<string>, n: IRNode) {
    forall port | port in n.inputs ::
      n.inputs[port].PortRef? ==> n.inputs[port].nodeId == VARS_NODE_ID || n.inputs[port].nodeId !in hidden
  }

  /** No node at or behind `node` refers to a result of one of `hidden`. */
  ghost predicate Resumable(w: World, node: string, hidden: set<string>) {
    exists ids: set<string> :: ReadsAhead(w, node, hidden, ids)
  }

  ghost predicate ReadsAhead(w: World, node: string, hidden: set<string>, ids: set<string>) {
    node in ids && ClosedPart(w.nodes, ids) && forall id | id in ids :: ReadsNone(hidden, w.nodes[id])
  }

  /** At every crash of the history, no ref reaches back before the node the next attempt starts at. */
  ghost predicate NoRefReachesBack(w: World, ex: Exec, entry: string, budget: int, x: Life, events: seq<Event>)
    decreases |events|
  {
    events == [] ||
    (&& (events[0].Crash? ==> Resumable(w, ResumeNode(x.config.shared.current, entry), x.mark))
     && (Live(w, ex, entry, budget, x, events[0]).Some? ==>
           NoRefReachesBack(w, ex, entry, budget, Live(w, ex, entry, budget, x, events[0]).value, events[1..])))
  }

  /** The attempt walks nodes that refer to nothing an earlier attempt had. */
  ghost predicate ReadsItsOwn(w: World, x: Life, ids: set<string>) {
    && ClosedPart(w.nodes, ids) && OnGraph(w, ids, x.config.thread.ctl)
    && forall id | id in ids :: ReadsNone(x.before, w.nodes[id])
  }

  lemma {:induction false} OwnReads(w: World, x: Life, ids: set<string>, e: Event)
    requires ReadsItsOwn(w, x, ids)
    ensures !LosesRead(x, e)
  {
    if e.Go? { ThreadOnGraph(w, ids, x.config.thread, e.path); }
  }

  /** If no ref reaches back before the node an attempt starts at, no read is lost. */
  lemma {:induction false} StaticSuffices(w: World, ex: Exec, entry: string, budget: int, x: Life, ids: set<string>,
                                          events: seq<Event>)
    requires ReadsItsOwn(w, x, ids) && NoRefReachesBack(w, ex, entry, budget, x, events)
    ensures NoReadIsLost(w, ex, entry, budget, x, events)
    decreases |events|
  {
    hide LosesRead, Step, ClosedPart, ReadsNone;
    if events != [] {
      OwnReads(w, x, ids, events[0]);
      if Live(w, ex, entry, budget, x, events[0]).Some? {
        var x' := Live(w, ex, entry, budget, x, events[0]).value;
        match events[0] {
          case Crash =>
            var ids' :| ReadsAhead(w, ResumeNode(x.config.shared.current, entry), x.mark, ids');
            StaticSuffices(w, ex, entry, budget, x', ids', events[1..]);
          case Go(p) =>
            StepOnGraph(w, ids, ex, x.config, p);
            StaticSuffices(w, ex, entry, budget, x', ids, events[1..]);
        }
      }
    }
  }

  /** The same from the start of a run. */
  lemma {:induction false} NoRefBackLosesNone(w: World, ex: Exec, entry: string, budget: int, events: seq<Event>)
    requires ClosedGraph(w.nodes) && entry in w.nodes
    requires NoRefReachesBack(w, ex, entry, budget, Born(entry, budget), events)
    ensures NoReadIsLost(w, ex, entry, budget, Born(entry, budget), events)
  {
    hide NoRefReachesBack, NoReadIsLost;
    WholeGraphIsClosed(w);
    StaticSuffices(w, ex, entry, budget, Born(entry, budget), w.nodes.Keys, events);
  }
}
