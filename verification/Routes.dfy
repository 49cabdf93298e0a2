/**
  Where a committed output sends its chain. Everything is said about the output as JSON: whether it meets the node's
  stop condition, asks for a fork or lists items, and which edge it names.
*/
module Routes {
  import opened Base
  import opened JsonValues
  import opened Ir
  import opened IterationKeys
  import opened Machine
  import opened Mirror
  import opened Moves

  // ---------------------------------------------------------------- what an output says

  /** The value under `key`, null if there is none. */
  predicate Holds(output: Output, key: string, v: Json) {
    if key in output then output[key] == v else v == JNull
  }

  /** The values that count as false in Python. */
  predicate Falsy(j: Json) {
    j in [JNull, JBool(false), JInt(0), JFloat(0.0), JStr(""), JArr([]), JObj(map[])]
  }

  /** Python's `==` on JSON values of which one is a scalar: booleans are the numbers 0 and 1. */
  predicate Equal(a: Json, b: Json) {
    match (a, b)
    case (JBool(x), JInt(i)) => i == if x then 1 else 0
    case (JInt(i), JBool(x)) => i == if x then 1 else 0
    case (JBool(x), JFloat(r)) => r == if x then 1.0 else 0.0
    case (JFloat(r), JBool(x)) => r == if x then 1.0 else 0.0
    case (JInt(i), JFloat(r)) => r == i as real
    case (JFloat(r), JInt(i)) => r == i as real
    case _ => a == b
  }

  /** The output names the edge `l`: by the text under "__edge__", or "next" where there is no text. */
  predicate Says(output: Output, l: string) {
    if "__edge__" in output && output["__edge__"].JStr? then output["__edge__"] == JStr(l) else l == "next"
  }

  /** The output meets the node's stop condition. */
  predicate Stops(n: IRNode, output: Output) {
    && n.stopCondition.Some?
    && var sc := n.stopCondition.value;
       Equal(if sc.outputKey in output then output[sc.outputKey] else JNull, sc.equals)
       && (sc.action.AbortRun? || sc.gotoNodeId.Some?)
  }

  predicate AsksForFork(output: Output) {
    "__fork__" in output && !Falsy(output["__fork__"])
  }

  predicate ListsItems(output: Output) {
    "__fanout_items__" in output && output["__fanout_items__"] != JNull
  }

  /** The items listed, as a JSON text of an array. */
  predicate AreItems(c: Codec, output: Output, items: seq<Json>) {
    && "__fanout_items__" in output && output["__fanout_items__"].JStr?
    && c.loads(output["__fanout_items__"].s) == Some(JArr(items))
  }

  function Target(n: IRNode, l: string): Option<string> {
    if l in n.edges then Some(n.edges[l]) else None
  }

  /** A branch starts before its target, with what the fork has, the account of its chain and nothing visited. */
  predicate Starts(b: Thread, results: Results, f: Frame, target: string) {
    && b.results == results && b.ctl.Head? && b.ctl.current == Some(target)
    && b.ctl.frame.account == f.account && b.ctl.frame.visits == map[] && b.ctl.frame.last == None
    && !b.ctl.frame.top && b.ctl.frame.stopAtJoin
  }

  /** Where a chain goes on that has committed `output` at `n`: a stop condition first, then a fork, then the items,
      then the edge that the output names. */
  ghost predicate GoesOn(w: World, f: Frame, n: IRNode, results: Results, output: Output, ctl: Control) {
    if Stops(n, output) then
      if n.stopCondition.value.action.AbortRun? then ctl == Raised(Abort)
      else ctl == Head(f, n.stopCondition.value.gotoNodeId)
    else if AsksForFork(output) then
      && ctl.Fork? && ctl.frame == f && ctl.node == n && ctl.branches.Keys == n.edges.Keys
      && forall l | l in n.edges :: Starts(ctl.branches[l], results, f, n.edges[l])
    else if !ListsItems(output) then forall l: string | Says(output, l) :: ctl == Head(f, Target(n, l))
    else if forall items: seq<Json> :: !AreItems(w.codec, output, items) then
      ctl == Raised(Failed(n.id, "malformed __fanout_items__"))
    else if "body" !in n.edges then ctl == Raised(Failed(n.id, "fan-out node missing 'body' edge"))
    else
      forall items: seq<Json> | AreItems(w.codec, output, items) ::
        ctl.Fanout? && ctl == Fanout(f, n, output, items, Done(None, None))
  }

  lemma {:induction false} EqualIsPython(a: Json, b: Json)
    ensures PyEquals(a, b) == Equal(a, b)
  {
  }

  lemma {:induction false} FalsyIsPython(j: Json)
    ensures Truthy(j) == !Falsy(j)
  {
    var all := [JNull, JBool(false), JInt(0), JFloat(0.0), JStr(""), JArr([]), JObj(map[])];
    assert all[0] == JNull && all[1] == JBool(false) && all[2] == JInt(0) && all[3] == JFloat(0.0);
    assert all[4] == JStr("") && all[5] == JArr([]) && all[6] == JObj(map[]);
  }

  lemma {:induction false} BranchesStartSo(f: Frame, n: IRNode, results: Results)
    ensures Branches(f, n, results).Keys == n.edges.Keys
    ensures forall l | l in n.edges :: Starts(Branches(f, n, results)[l], results, f, n.edges[l])
  {
    hide ForkKey;
  }

  lemma {:induction false} ItemsAreMeant(c: Codec, output: Output)
    ensures match FanoutItems(c, output)
            case NotFanout => !ListsItems(output)
            case Malformed => ListsItems(output) && forall items: seq<Json> :: !AreItems(c, output, items)
            case Items(items) =>
              && ListsItems(output) && AreItems(c, output, items)
              && forall other: seq<Json> :: AreItems(c, output, other) ==> other == items
  {
  }

  lemma {:induction false} StopIsMeant(n: IRNode, output: Output)
    ensures match CheckStopCondition(n, output)
            case Continue => !Stops(n, output)
            case StopRun => Stops(n, output) && n.stopCondition.value.action.AbortRun?
            case JumpTo(t) => Stops(n, output) && n.stopCondition.value.action.Goto?
                              && n.stopCondition.value.gotoNodeId == Some(t)
  {
    if n.stopCondition.Some? {
      EqualIsPython(Port(output, n.stopCondition.value.outputKey), n.stopCondition.value.equals);
    }
    hide PyEquals, Equal;
  }

  lemma {:induction false} ForkIsMeant(output: Output)
    ensures Truthy(Port(output, "__fork__")) == AsksForFork(output)
  {
    FalsyIsPython(Port(output, "__fork__"));
    hide Falsy;
  }

  lemma {:induction false} LabelIsMeant(output: Output)
    ensures forall l: string :: Says(output, l) <==> l == EdgeLabel(output)
  {
  }

  lemma {:induction false} RouteIsMeant(w: World, f: Frame, n: IRNode, results: Results, output: Output)
    ensures GoesOn(w, f, n, results, output, Route(w, f, n, results, output))
  {
    StopIsMeant(n, output);
    ForkIsMeant(output);
    BranchesStartSo(f, n, results);
    ItemsAreMeant(w.codec, output);
    LabelIsMeant(output);
    hide CheckStopCondition, Truthy, Branches, Starts, FanoutItems, AreItems, EdgeLabel, Stops, Says, AsksForFork,
      ListsItems;
  }

  // ---------------------------------------------------------------- commits in a run

  /** The claim of a step: an unknown type fails; a completed row is the step's output; otherwise the row is there and
      the node executes. */
  ghost predicate Claims(w: World, x: Thread, y: Thread, sh: Shared, after: Shared)
    requires x.ctl.Claiming?
  {
    var Claiming(f, n) := x.ctl;
    var key := (n.id, RowKey(f.key, Visits(f, n.id)));
    if n.nodeType !in w.registry then
      y == Thread(x.results, Raised(Failed(n.id, "unknown node type"))) && after == sh
    else if key in sh.table && sh.table[key].Completed? then
      CommitsAt(w, x, y, f, n, sh.table[key].output) && after == sh.(abort := sh.abort || y.ctl == Raised(Abort))
    else
      y == Thread(x.results, Executing(f, n)) && after == sh.(table := sh.table[key := Running])
  }

  /** The output becomes the node's result and the last one of its chain, and the chain goes on from there. */
  ghost predicate CommitsAt(w: World, x: Thread, y: Thread, f: Frame, n: IRNode, output: Output) {
    y.results == x.results[n.id := output]
    && GoesOn(w, f.(last := Some(output)), n, y.results, output, y.ctl)
  }

  /** In every state of every run, at any depth, a chain that claims a step does that. */
  lemma {:induction false} StepsAreClaimed(w: World, ex: Exec, c: Config, p: seq<string>) returns (y: Thread)
    requires Step(w, ex, c, p).Some? && ThreadAt(c.thread, p).ctl.Claiming?
    ensures var x, d := ThreadAt(c.thread, p), Step(w, ex, c, p).value;
      d.thread == Put(c.thread, p, y) && Claims(w, x, y, c.shared, d.shared)
  {
    hide ThreadAt, Put;
    y := MoveIsLocal(w, ex, c, p);
    hide Route, GoesOn;
    var x := ThreadAt(c.thread, p);
    var Claiming(f, n) := x.ctl;
    var key := (n.id, RowKey(f.key, Visits(f, n.id)));
    if key in c.shared.table && c.shared.table[key].Completed? {
      var output := c.shared.table[key].output;
      RouteIsMeant(w, f.(last := Some(output)), n, x.results[n.id := output], output);
    }
  }

  /** In every state of every run, at any depth, a node that executes and produces something commits it, and its
      chain goes on from there; the flag goes up exactly if that is an abort. */
  lemma {:induction false} OutputsAreFollowed(w: World, ex: Exec, c: Config, p: seq<string>)
    returns (output: Option<Output>, y: Thread)
    requires Step(w, ex, c, p).Some? && ThreadAt(c.thread, p).ctl.Executing?
    ensures var x, d := ThreadAt(c.thread, p), Step(w, ex, c, p).value;
      var Executing(f, n) := x.ctl;
      && d.thread == Put(c.thread, p, y)
      && (output.None? ==> y.ctl.Raised? && y.ctl != Raised(Abort) && y.results == x.results && d.shared == c.shared)
      && (output.Some? ==>
            && CommitsAt(w, x, y, f, n, output.value)
            && d.shared.abort == (c.shared.abort || y.ctl == Raised(Abort)))
  {
    hide ThreadAt, Put, Evaluate;
    y := MoveIsLocal(w, ex, c, p);
    hide Route, GoesOn;
    var x := ThreadAt(c.thread, p);
    var Executing(f, n) := x.ctl;
    var r := Evaluate(w, ex, x.results, n, f.account, LoopCount(f, n));
    output := if r.Produced? then Some(r.output) else None;
    if r.Produced? { RouteIsMeant(w, f.(last := output), n, x.results[n.id := r.output], r.output); }
  }
}
