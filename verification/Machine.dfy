/**
  The interpreter as a step machine. A thread is one walk with its own result map; its control state is
  the activation of `_run_chain` it is in, what that activation waits for, and, below a fork, one thread a
  branch. One step is the code between two store operations, so any interleaving of concurrent branches is
  a sequence of steps, each naming the thread that moves by its path of fork labels.
*/
module Machine {
  import opened Base
  import opened JsonValues
  import opened Ir
  import opened IterationKeys
  import Paths

  type Output = map<string, Json>
  type Results = map<string, Output>

  /** (node id, iteration key): what the step table is unique on for one run. */
  type StepKey = (string, string)

  datatype Row = Running | Completed(output: Output)

  /** What a node learns about one wired port. */
  datatype Resolution = Value(v: Json) | Missing | BadPath

  datatype NodeResult = Produced(output: Output) | Failing(cause: string) | Escaping

  /** A node's own `execute`: arbitrary in its wired ports, pinned account and loop count. */
  type Exec = (IRNode, map<string, Resolution>, Option<AccountId>, nat) -> NodeResult

  /** What does not change during a run: the graph, the registry with each type's declared ports, the
      flow variables, the host environment and the serialisers. */
  datatype World = World(
    nodes: map<string, IRNode>,
    registry: map<string, seq<string>>,
    vars: map<string, Json>,
    env: string -> Option<Json>,
    codec: Codec,
    account: string -> Option<AccountId>)

  /** `Failed` is RunFailed, `Abort` is _AbortRun, `Other` is any exception the engine does not model. */
  datatype Exn = Failed(step: string, cause: string) | Abort | Other

  /** The locals of one `_run_chain` activation. */
  datatype Frame = Frame(
    key: string,
    account: Option<AccountId>,
    visits: map<string, nat>,
    last: Option<Output>,
    top: bool,
    stopAtJoin: bool)

  datatype Control =
    | Head(frame: Frame, current: Option<string>)
    | Claiming(frame: Frame, node: IRNode)
    | Executing(frame: Frame, node: IRNode)
    | Fanout(frame: Frame, node: IRNode, output: Output, items: seq<Json>, body: Control)
    | Fork(frame: Frame, node: IRNode, branches: map<string, Thread>)
    | Done(last: Option<Output>, stoppedAt: Option<string>)
    | Raised(exn: Exn)

  datatype Thread = Thread(results: Results, ctl: Control)

  /** What all threads of a run share. */
  datatype Shared = Shared(
    table: map<StepKey, Row>,
    budget: int,
    abort: bool,
    current: Option<string>)

  datatype Config = Config(thread: Thread, shared: Shared)

  // ---------------------------------------------------------------- inputs and routing of one node

  function Port(output: Output, key: string): Json {
    if key in output then output[key] else JNull
  }

  function Walked(w: World, raw: Json, path: seq<Segment>): Resolution {
    match Paths.Resolve(w.codec, raw, path)
    case None => BadPath
    case Some(v) => Value(v)
  }

  function ResolveInput(w: World, results: Results, input: Input): Resolution {
    match input
    case Literal(v) => Value(v)
    case EnvRef(name) =>
      (match w.env(name) case None => Missing case Some(v) => Value(v))
    case PortRef(id, port, path) =>
      if id == VARS_NODE_ID then
        if port in w.vars then Walked(w, w.vars[port], path) else Missing
      else if id in results then Walked(w, Port(results[id], port), path)
      else Missing
  }

  function Wired(w: World, results: Results, n: IRNode): map<string, Resolution> {
    map port | port in n.inputs :: ResolveInput(w, results, n.inputs[port])
  }

  /** The declared ports are read first, in order; a wired one that cannot be read ends the step. */
  function FirstBadPort(wired: map<string, Resolution>, ports: seq<string>): Option<Resolution> {
    if ports == [] then None
    else if ports[0] in wired && !wired[ports[0]].Value? then Some(wired[ports[0]])
    else FirstBadPort(wired, ports[1..])
  }

  function Evaluate(w: World, ex: Exec, results: Results, n: IRNode, account: Option<AccountId>,
                    loop: nat): NodeResult {
    var wired := Wired(w, results, n);
    match FirstBadPort(wired, if n.nodeType in w.registry then w.registry[n.nodeType] else [])
    case Some(BadPath) => Escaping
    case Some(_) => Failing("input not available")
    case None => ex(n, wired, account, loop)
  }

  function EdgeLabel(output: Output): string {
    match Port(output, "__edge__")
    case JStr(lbl) => lbl
    case _ => "next"
  }

  function FanoutPort(output: Output): string {
    match Port(output, "__fanout_port__")
    case JStr(port) => port
    case _ => "item"
  }

  datatype Fan = NotFanout | Malformed | Items(items: seq<Json>)

  function FanoutItems(c: Codec, output: Output): Fan {
    match Port(output, "__fanout_items__")
    case JNull => NotFanout
    case JStr(raw) =>
      (match c.loads(raw)
       case Some(JArr(elements)) => Items(elements)
       case _ => Malformed)
    case _ => Malformed
  }

  datatype Stop = Continue | StopRun | JumpTo(target: string)

  function CheckStopCondition(n: IRNode, output: Output): Stop {
    if n.stopCondition.None? then Continue
    else
      var sc := n.stopCondition.value;
      if !PyEquals(Port(output, sc.outputKey), sc.equals) then Continue
      else if sc.action.AbortRun? then StopRun
      else if sc.gotoNodeId.Some? then JumpTo(sc.gotoNodeId.value)
      else Continue
  }

  function BranchFrame(f: Frame, lbl: string): Frame {
    Frame(ForkKey(f.key, lbl), f.account, map[], None, false, true)
  }

  function Branches(f: Frame, n: IRNode, results: Results): map<string, Thread> {
    map lbl | lbl in n.edges :: Thread(results, Head(BranchFrame(f, lbl), Some(n.edges[lbl])))
  }

  /** Where a chain goes once the step of `n` has committed `output`. */
  function Route(w: World, f: Frame, n: IRNode, results: Results, output: Output): Control {
    match CheckStopCondition(n, output)
    case StopRun => Raised(Abort)
    case JumpTo(target) => Head(f, Some(target))
    case Continue =>
      if Truthy(Port(output, "__fork__")) then Fork(f, n, Branches(f, n, results))
      else
        match FanoutItems(w.codec, output)
        case NotFanout => Head(f, Lookup(n.edges, EdgeLabel(output)))
        case Malformed => Raised(Failed(n.id, "malformed __fanout_items__"))
        case Items(items) =>
          if "body" in n.edges then Fanout(f, n, output, items, Done(None, None))
          else Raised(Failed(n.id, "fan-out node missing 'body' edge"))
  }

  // ---------------------------------------------------------------- steps

  /** All that a step may see of the shared state: one row, whether the budget allows a visit, the flag. */
  datatype View = View(row: Option<Row>, left: bool, abort: bool)

  /** All that a step may do to the shared state; a write goes to the row it saw. */
  datatype Effect = Effect(write: Option<Row>, cost: bool, abort: bool, touch: Option<string>)

  datatype Move = Move(thread: Thread, effect: Effect)

  const SILENT := Effect(None, false, false, None)

  function Quiet(results: Results, ctl: Control): Move {
    Move(Thread(results, ctl), SILENT)
  }

  function Visits(f: Frame, id: string): nat {
    if id in f.visits then f.visits[id] else 0
  }

  /** The loop head of `_run_chain`, up to and including the run-row touch of a top-level chain. */
  function AtHead(w: World, results: Results, f: Frame, current: Option<string>, v: View): Move {
    match current
    case None => Quiet(results, Done(f.last, None))
    case Some(c) =>
      if v.abort then Quiet(results, Done(f.last, current))
      else if c !in w.nodes then Quiet(results, Raised(Failed(c, "absent from FlowIR")))
      else if f.stopAtJoin && w.nodes[c].nodeType == JOIN_NODE_TYPE then Quiet(results, Done(f.last, current))
      else if !v.left then
        Move(Thread(results, Raised(Failed(c, "max_steps_per_run exceeded"))), Effect(None, true, false, None))
      else
        Move(Thread(results, Claiming(f.(visits := f.visits[c := Visits(f, c) + 1]), w.nodes[c])),
             Effect(None, true, false, if f.top then Some(c) else None))
  }

  function Commit(w: World, results: Results, f: Frame, n: IRNode, output: Output, write: Option<Row>): Move {
    var results' := results[n.id := output];
    var ctl := Route(w, f.(last := Some(output)), n, results', output);
    Move(Thread(results', ctl), Effect(write, false, ctl == Raised(Abort), None))
  }

  /** `claim_step`, and the reading of the row when it already existed. */
  function AtClaim(w: World, results: Results, f: Frame, n: IRNode, v: View): Move {
    if n.nodeType !in w.registry then Quiet(results, Raised(Failed(n.id, "unknown node type")))
    else
      match v.row
      case None => Move(Thread(results, Executing(f, n)), Effect(Some(Running), false, false, None))
      case Some(Running) => Quiet(results, Executing(f, n))
      case Some(Completed(output)) => Commit(w, results, f, n, output, None)
  }

  function LoopCount(f: Frame, n: IRNode): nat {
    if Visits(f, n.id) == 0 then 0 else Visits(f, n.id) - 1
  }

  /** `execute` and `complete_step`. */
  function AtExecute(w: World, ex: Exec, results: Results, f: Frame, n: IRNode): Move {
    match Evaluate(w, ex, results, n, f.account, LoopCount(f, n))
    case Produced(output) => Commit(w, results, f, n, output, Some(Completed(output)))
    case Failing(cause) => Quiet(results, Raised(Failed(n.id, cause)))
    case Escaping => Quiet(results, Raised(Other))
  }

  function BodyFrame(f: Frame, key: string, account: Option<AccountId>): Frame {
    Frame(key, account, map[], None, false, false)
  }

  /** The fan-out loop between two iterations, and after the last one. */
  function NextItem(w: World, results: Results, f: Frame, n: IRNode, output: Output, items: seq<Json>,
                    body: Control, v: View): Move
  {
    var after := Quiet(results, Head(f, Lookup(n.edges, "after")));
    if body.Raised? then Quiet(results, body)
    else if items == [] || v.abort then after
    else if "body" !in n.edges then Quiet(results, Raised(Failed(n.id, "fan-out node missing 'body' edge")))
    else
      var port := FanoutPort(output);
      var token := w.codec.show(items[0]);
      var results' := results[n.id := output[port := items[0]]];
      if port == "account_id" && w.account(token).None? then
        Quiet(results', Raised(Failed(n.id, "fan-out account item is not a valid id")))
      else
        var account := if port == "account_id" then w.account(token) else f.account;
        Quiet(results', Fanout(f, n, output, items[1..],
                               Head(BodyFrame(f, Compose(f.key, token), account), Some(n.edges["body"]))))
  }

  predicate Finished(c: Control) {
    c.Done? || c.Raised?
  }

  predicate AtRest(c: Control) {
    c.Done? || c == Raised(Abort)
  }

  predicate AllAtRest(branches: map<string, Thread>) {
    forall lbl | lbl in branches :: AtRest(branches[lbl].ctl)
  }

  predicate AnyAborted(branches: map<string, Thread>) {
    exists lbl | lbl in branches :: branches[lbl].ctl.Raised?
  }

  function JoinIds(branches: map<string, Thread>): set<string>
    requires AllAtRest(branches) && !AnyAborted(branches)
  {
    set lbl | lbl in branches && branches[lbl].ctl.stoppedAt.Some? :: branches[lbl].ctl.stoppedAt.value
  }

  /** The join's output: the last output of every branch, as one JSON object under "branches". */
  function JoinOutput(c: Codec, branches: map<string, Thread>): Output
    requires forall lbl | lbl in branches :: branches[lbl].ctl.Done? && branches[lbl].ctl.last.Some?
  {
    map["branches" := JStr(c.dumps(JObj(map lbl | lbl in branches :: JObj(branches[lbl].ctl.last.value))))]
  }

  /** What `_run_fork` does when its task group has come to rest without a failure. */
  function Join(w: World, results: Results, f: Frame, n: IRNode, branches: map<string, Thread>): Move
    requires AllAtRest(branches)
  {
    if AnyAborted(branches) then Quiet(results, Raised(Abort))
    else if |JoinIds(branches)| != 1 then
      Quiet(results, Raised(Failed(n.id, "fork branches must converge on exactly one join node")))
    else if exists lbl | lbl in branches :: branches[lbl].ctl.last.None? then
      Quiet(results, Raised(Failed(n.id, "fork branch produced no result")))
    else
      var joinId := TheElement(JoinIds(branches));
      if joinId !in w.nodes then Quiet(results, Raised(Other))
      else
        Quiet(results[joinId := JoinOutput(w.codec, branches)], Head(f, Lookup(w.nodes[joinId].edges, "next")))
  }

  lemma NextItemIsSilent(w: World, results: Results, f: Frame, n: IRNode, output: Output, items: seq<Json>,
                         body: Control, v: View)
    ensures NextItem(w, results, f, n, output, items, body, v).effect == SILENT
  {
  }

  lemma SingletonElement(s: set<string>)
    requires |s| == 1
    ensures exists x :: s == {x}
  {
    var x :| x in s;
    assert |s - {x}| == 0;
    assert s == {x};
  }

  /** `join_ids.pop()` on a set of one. */
  function TheElement(s: set<string>): (x: string)
    requires |s| == 1
    ensures s == {x}
  {
    SingletonElement(s);
    var x :| s == {x};
    x
  }

  lemma JoinIsSilent(w: World, results: Results, f: Frame, n: IRNode, branches: map<string, Thread>)
    requires AllAtRest(branches)
    ensures Join(w, results, f, n, branches).effect == SILENT
  {
  }

  lemma {:induction false} JoinShape(w: World, results: Results, f: Frame, n: IRNode, branches: map<string, Thread>)
    requires AllAtRest(branches)
    ensures var c := Join(w, results, f, n, branches).thread.ctl; (c.Head? && c.frame == f) || c.Raised?
  {
    hide JoinOutput, JoinIds;
  }

  /** What a join that no branch has aborted finds wrong with the ends of its branches, if anything. */
  function Complaint(w: World, n: IRNode, branches: map<string, Thread>): Option<Exn>
    requires AllAtRest(branches) && !AnyAborted(branches)
  {
    if |JoinIds(branches)| != 1 then Some(Failed(n.id, "fork branches must converge on exactly one join node"))
    else if exists l | l in branches :: branches[l].ctl.last.None?
        then Some(Failed(n.id, "fork branch produced no result"))
    else if TheElement(JoinIds(branches)) !in w.nodes then Some(Other)
    else None
  }

  lemma {:induction false} JoinComplains(w: World, results: Results, f: Frame, n: IRNode, branches: map<string, Thread>)
    requires AllAtRest(branches) && !AnyAborted(branches)
    ensures var t := Join(w, results, f, n, branches).thread;
      match Complaint(w, n, branches)
      case Some(exn) => t == Thread(results, Raised(exn))
      case None =>
        var joinId := TheElement(JoinIds(branches));
        && t.ctl == Head(f, Lookup(w.nodes[joinId].edges, "next"))
        && t.results.Keys == results.Keys + {joinId}
  {
    hide JoinOutput, JoinIds;
  }

  lemma {:induction false} AbortedJoin(w: World, results: Results, f: Frame, n: IRNode, branches: map<string, Thread>)
    requires AllAtRest(branches) && AnyAborted(branches)
    ensures Join(w, results, f, n, branches).thread == Thread(results, Raised(Abort))
  {
    hide JoinOutput, JoinIds;
  }

  lemma HeadWritesNothing(w: World, results: Results, f: Frame, current: Option<string>, v: View)
    ensures AtHead(w, results, f, current, v).effect.write.None?
  {
  }

  /** The move of the thread at path `p`, or None when nothing can move there. */
  function Act(w: World, ex: Exec, t: Thread, v: View, p: seq<string>): Option<Move>
    decreases t.ctl
  {
    match t.ctl
    case Head(f, current) => if p == [] then Some(AtHead(w, t.results, f, current, v)) else None
    case Claiming(f, n) => if p == [] then Some(AtClaim(w, t.results, f, n, v)) else None
    case Executing(f, n) => if p == [] then Some(AtExecute(w, ex, t.results, f, n)) else None
    case Fanout(f, n, output, items, body) =>
      if Finished(body) then
        if p == [] then Some(NextItem(w, t.results, f, n, output, items, body, v)) else None
      else
        (match Act(w, ex, Thread(t.results, body), v, p)
         case None => None
         case Some(m) => Some(InFanout(f, n, output, items, m)))
    case Fork(f, n, branches) =>
      if p == [] then
        if AllAtRest(branches) then Some(Join(w, t.results, f, n, branches)) else None
      else if p[0] !in branches then None
      else
        var b := branches[p[0]];
        if b.ctl.Raised? then
          if |p| == 1 && b.ctl.exn != Abort then Some(Quiet(t.results, b.ctl)) else None
        else
          (match Act(w, ex, b, v, p[1..])
           case None => None
           case Some(m) => Some(InFork(t.results, f, n, branches, p[0], m)))
    case _ => None
  }

  function InFanout(f: Frame, n: IRNode, output: Output, items: seq<Json>, m: Move): Move {
    Move(Thread(m.thread.results, Fanout(f, n, output, items, m.thread.ctl)), m.effect)
  }

  function InFork(results: Results, f: Frame, n: IRNode, branches: map<string, Thread>, lbl: string, m: Move): Move {
    Move(Thread(results, Fork(f, n, branches[lbl := m.thread])), m.effect)
  }

  /** The step row that the move at path `p` reads or writes, if it touches the step table at all. */
  function KeyAt(c: Control, p: seq<string>): Option<StepKey>
    decreases c
  {
    match c
    case Claiming(f, n) => if p == [] then Some((n.id, RowKey(f.key, Visits(f, n.id)))) else None
    case Executing(f, n) => if p == [] then Some((n.id, RowKey(f.key, Visits(f, n.id)))) else None
    case Fanout(f, n, output, items, body) => KeyAt(body, p)
    case Fork(f, n, branches) =>
      if p != [] && p[0] in branches then KeyAt(branches[p[0]].ctl, p[1..]) else None
    case _ => None
  }

  function Look(sh: Shared, k: Option<StepKey>): View {
    View(if k.Some? then Lookup(sh.table, k.value) else None, sh.budget > 0, sh.abort)
  }

  function Apply(sh: Shared, k: Option<StepKey>, e: Effect): Shared {
    Shared(
      if k.Some? && e.write.Some? then sh.table[k.value := e.write.value] else sh.table,
      if e.cost then sh.budget - 1 else sh.budget,
      sh.abort || e.abort,
      if e.touch.Some? then e.touch else sh.current)
  }

  function Step(w: World, ex: Exec, c: Config, p: seq<string>): Option<Config> {
    var k := KeyAt(c.thread.ctl, p);
    match Act(w, ex, c.thread, Look(c.shared, k), p)
    case None => None
    case Some(m) => Some(Config(m.thread, Apply(c.shared, k, m.effect)))
  }

  /** A run under a schedule: the order in which threads get to move. */
  function Run(w: World, ex: Exec, c: Config, s: seq<seq<string>>): Option<Config>
    decreases |s|
  {
    if s == [] then Some(c)
    else
      match Step(w, ex, c, s[0])
      case None => None
      case Some(c') => Run(w, ex, c', s[1..])
  }

  /** The state in which an attempt starts: `execute_run` after its claim. */
  function Root(entry: string): Thread {
    Thread(map[], Head(Frame("", None, map[], None, true, false), Some(entry)))
  }
}
