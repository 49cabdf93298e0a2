/**
  Fan-outs. The items of a fan-out are taken in order; each time the body is entered, the fan-out's result is its
  output with the item of the round at the port, and on a graph without loops every node of the round reads that.
*/
module Items {
  import opened Base
  import opened JsonValues
  import opened Ir
  import opened IterationKeys
  import opened Machine
  import opened Budget
  import opened Lifting
  import opened SafeWalk
  import opened Mirror
  import opened Moves
  import opened Inputs
  import opened Routes
  import opened StepRows

  // ---------------------------------------------------------------- one round

  /** The port at which the body finds its item. */
  predicate IsItemPort(output: Output, port: string) {
    if "__fanout_port__" in output && output["__fanout_port__"].JStr? then output["__fanout_port__"] == JStr(port)
    else port == "item"
  }

  /** The account that the nodes of a round act for: the item itself, if items are accounts. */
  function RoundAccount(w: World, f: Frame, port: string, item: Json): Option<AccountId> {
    if port == "account_id" then w.account(w.codec.show(item)) else f.account
  }

  /** The fan-out `x` enters its body for `item`, as `y`. */
  predicate EntersBody(w: World, x: Thread, y: Thread, port: string, item: Json, rest: seq<Json>)
    requires x.ctl.Fanout?
  {
    var Fanout(f, n, output, _, _) := x.ctl;
    && y.results == x.results[n.id := output[port := item]]
    && if port == "account_id" && w.account(w.codec.show(item)).None? then
         y.ctl == Raised(Failed(n.id, "fan-out account item is not a valid id"))
       else
         && y.ctl.Fanout? && y.ctl.frame == f && y.ctl.node == n && y.ctl.output == output && y.ctl.items == rest
         && y.ctl.body.Head? && "body" in n.edges && y.ctl.body.current == Some(n.edges["body"])
         && var g := y.ctl.body.frame;
            g.account == RoundAccount(w, f, port, item) && g.visits == map[] && g.last == None
            && !g.top && !g.stopAtJoin
  }

  /** What a fan-out does between two rounds: an exception of the body goes on up; without items, or with the flag up,
      the chain goes on behind the fan-out; otherwise the next of all its items is taken. */
  ghost predicate TakesNext(w: World, x: Thread, y: Thread, abort: bool)
    requires x.ctl.Fanout?
  {
    var Fanout(f, n, output, items, body) := x.ctl;
    if body.Raised? then y == Thread(x.results, body)
    else if items == [] || abort then y == Thread(x.results, Head(f, Target(n, "after")))
    else if "body" !in n.edges then y == Thread(x.results, Raised(Failed(n.id, "fan-out node missing 'body' edge")))
    else
      exists all: seq<Json>, k: nat, port: string ::
        && AreItems(w.codec, output, all) && IsItemPort(output, port)
        && k < |all| && items == all[k..] && EntersBody(w, x, y, port, all[k], all[k + 1..])
  }

  lemma {:induction false} PortIsMeant(output: Output)
    ensures IsItemPort(output, FanoutPort(output))
    ensures forall port | IsItemPort(output, port) :: port == FanoutPort(output)
  {
  }

  lemma {:induction false} ItemsOfAll(w: World, output: Output, items: seq<Json>) returns (all: seq<Json>, k: nat)
    requires ItemsLeft(w, output, items) && items != []
    ensures AreItems(w.codec, output, all) && all == AllItems(w, output)
    ensures k < |all| && items == all[k..] && items[1..] == all[k + 1..] && items[0] == all[k]
  {
    ItemsAreMeant(w.codec, output);
    all := AllItems(w, output);
    k := |all| - |items|;
  }

  lemma {:induction false} NextIsTaken(w: World, x: Thread, v: View)
    requires x.ctl.Fanout? && Finished(x.ctl.body) && ItemsLeft(w, x.ctl.output, x.ctl.items)
    ensures TakesNext(w, x, NextItem(w, x.results, x.ctl.frame, x.ctl.node, x.ctl.output, x.ctl.items, x.ctl.body,
                                     v).thread, v.abort)
  {
    hide Compose, FanoutPort, AreItems, AllItems, ItemsLeft;
    var Fanout(f, n, output, items, body) := x.ctl;
    if !body.Raised? && items != [] {
      var all, k := ItemsOfAll(w, output, items);
      PortIsMeant(output);
    }
  }

  lemma {:induction false} KeyedAt(w: World, t: Thread, p: seq<string>, path: seq<Level>)
    requires Keyed(w, t.ctl, path) && ThreadAt(t, p).ctl.Fanout?
    ensures ItemsLeft(w, ThreadAt(t, p).ctl.output, ThreadAt(t, p).ctl.items)
    decreases t.ctl
  {
    hide KeyOf, AllItems, ItemsLeft;
    match t.ctl
    case Fanout(_, _, output, items, body) =>
      if !Finished(body) { KeyedAt(w, Thread(t.results, body), p, path + [ItemLevel(w, output, items)]); }
    case Fork(_, _, branches) =>
      if p != [] && p[0] in branches { KeyedAt(w, branches[p[0]], p[1..], path + [ForkBranch(p[0])]); }
    case _ =>
  }

  /** In every run, at any depth, a fan-out does that, and writes nothing. */
  lemma {:induction false} RoundsTakeTheItems(w: World, c0: Config, s: seq<Choice>, m: Choice) returns (y: Thread)
    requires IdsMatch(w) && Keyed(w, c0.thread.ctl, []) && RunAny(w, c0, s).Some?
    requires Move1(w, RunAny(w, c0, s).value, m).Some?
    requires ThreadAt(RunAny(w, c0, s).value.thread, m.path).ctl.Fanout?
    ensures var c, d := RunAny(w, c0, s).value, Move1(w, RunAny(w, c0, s).value, m).value;
      && d.thread == Put(c.thread, m.path, y) && d.shared == c.shared
      && TakesNext(w, ThreadAt(c.thread, m.path), y, c.shared.abort)
  {
    hide ThreadAt, Put, RunAny, Keyed, ItemsLeft, NextItem, TakesNext;
    var c := RunAny(w, c0, s).value;
    var x := ThreadAt(c.thread, m.path);
    EveryChainIsKeyed(w, c0, s);
    KeyedAt(w, c.thread, m.path, []);
    y := MoveIsLocal(w, m.ex, c, m.path);
    FanoutIsBetween(c.thread, m.path);
    NextIsTaken(w, x, Look(c.shared, None));
    FanoutStep(w, m.ex, Mover(c, m.path));
    hide Step;
  }

  lemma {:induction false} FanoutIsBetween(t: Thread, p: seq<string>)
    requires ThreadAt(t, p).ctl.Fanout?
    ensures Finished(ThreadAt(t, p).ctl.body)
    decreases t.ctl
  {
    match t.ctl
    case Fanout(_, _, _, _, body) => if !Finished(body) { FanoutIsBetween(Thread(t.results, body), p); }
    case Fork(_, _, branches) => if p != [] && p[0] in branches { FanoutIsBetween(branches[p[0]], p[1..]); }
    case _ =>
  }

  // ---------------------------------------------------------------- every node of a round

  /** The result of a fan-out during the round that leaves `left` for later. */
  function RoundOutput(w: World, output: Output, left: seq<Json>): Output {
    var all := AllItems(w, output);
    if |left| < |all| then output[FanoutPort(output) := all[|all| - |left| - 1]] else output
  }

  predicate Kept(held: map<string, Output>, results: Results) {
    forall id | id in held :: id in results && results[id] == held[id]
  }

  /** Every chain of the tree has the results `held`, and inside a round that of the fan-out around it. */
  ghost predicate Holding(w: World, t: Thread, held: map<string, Output>)
    decreases t.ctl
  {
    && Kept(held, t.results)
    && match t.ctl
       case Fanout(_, n, output, items, body) =>
         !Finished(body) ==> Holding(w, Thread(t.results, body), held[n.id := RoundOutput(w, output, items)])
       case Fork(_, _, branches) => forall l | l in branches :: Holding(w, branches[l], held)
       case _ => true
  }

  /** What is held comes from above: from nodes of rank `bound` or more. */
  predicate HeldAbove(rank: Rank, held: map<string, Output>, bound: int) {
    forall id | id in held :: RankOf(rank, id) >= bound
  }

  lemma {:induction false} CommitHolds(w: World, f: Frame, n: IRNode, results: Results, output: Output,
                                       held: map<string, Output>)
    requires Kept(held, results) && n.id !in held
    ensures var results' := results[n.id := output];
      Holding(w, Thread(results', Route(w, f, n, results', output)), held)
  {
    hide FanoutItems, CheckStopCondition, Truthy, EdgeLabel, BranchFrame;
  }

  lemma {:induction false} NextItemHolds(w: World, t: Thread, v: View, held: map<string, Output>)
    requires t.ctl.Fanout? && Finished(t.ctl.body) && Kept(held, t.results) && t.ctl.node.id !in held
    requires ItemsLeft(w, t.ctl.output, t.ctl.items)
    ensures Holding(w, NextItem(w, t.results, t.ctl.frame, t.ctl.node, t.ctl.output, t.ctl.items, t.ctl.body, v).thread,
                    held)
  {
    hide Compose, FanoutPort, AllItems;
    var Fanout(f, n, output, items, body) := t.ctl;
    if items != [] {
      var all, k := ItemsOfAll(w, output, items);
      assert |all| - |items[1..]| - 1 == k;
    }
  }

  /** A join writes at most one result, under a node that a branch has stopped before. */
  lemma {:induction false} JoinWrites(w: World, t: Thread) returns (l: string)
    requires t.ctl.Fork? && AllAtRest(t.ctl.branches)
    ensures var y := Join(w, t.results, t.ctl.frame, t.ctl.node, t.ctl.branches).thread;
      && (y.ctl.Head? || y.ctl.Raised?)
      && (y.results == t.results
          || (&& l in t.ctl.branches && t.ctl.branches[l].ctl.Done? && t.ctl.branches[l].ctl.stoppedAt.Some?
              && var id := t.ctl.branches[l].ctl.stoppedAt.value;
                 id in y.results && y.results == t.results[id := y.results[id]]))
  {
    hide JoinOutput;
    var branches := t.ctl.branches;
    l := "";
    if !AnyAborted(branches) && |JoinIds(branches)| == 1 {
      var joinId := TheElement(JoinIds(branches));
      assert joinId in JoinIds(branches);
      l :| l in branches && branches[l].ctl.stoppedAt == Some(joinId);
    }
    hide JoinIds;
  }

  lemma {:induction false} JoinHolds(w: World, rank: Rank, t: Thread, held: map<string, Output>, bound: int)
    requires t.ctl.Fork? && AllAtRest(t.ctl.branches) && NoRepeat(w, rank, t.ctl, bound)
    requires Kept(held, t.results) && HeldAbove(rank, held, bound)
    ensures Holding(w, Join(w, t.results, t.ctl.frame, t.ctl.node, t.ctl.branches).thread, held)
  {
    var l := JoinWrites(w, t);
    hide Join;
    if l in t.ctl.branches && t.ctl.branches[l].ctl.Done? && t.ctl.branches[l].ctl.stoppedAt.Some? {
      assert NoRepeat(w, rank, t.ctl.branches[l].ctl, RankOf(rank, t.ctl.node.id));
      assert t.ctl.branches[l].ctl.stoppedAt.value !in held;
    }
    hide NoRepeat;
  }

  lemma {:induction false} ActHolds(w: World, rank: Rank, ex: Exec, t: Thread, v: View, p: seq<string>,
                                    path: seq<Level>, bound: int, held: map<string, Output>)
    requires NoRepeat(w, rank, t.ctl, bound) && HeldAbove(rank, held, bound)
    requires Keyed(w, t.ctl, path) && Holding(w, t, held) && Act(w, ex, t, v, p).Some?
    ensures Holding(w, Act(w, ex, t, v, p).value.thread, held)
    decreases t.ctl
  {
    hide KeyOf, Evaluate, Route, NextItem, Join, AllItems, AtHead, ItemsLeft, RoundOutput;
    match t.ctl
    case Head(f, current) => HeadHolds(w, t.results, f, current, v, held);
    case Claiming(f, n) =>
      if v.row.Some? && v.row.value.Completed? {
        var output := v.row.value.output;
        CommitHolds(w, f.(last := Some(output)), n, t.results, output, held);
      }
    case Executing(f, n) =>
      var r := Evaluate(w, ex, t.results, n, f.account, LoopCount(f, n));
      if r.Produced? { CommitHolds(w, f.(last := Some(r.output)), n, t.results, r.output, held); }
    case Fanout(f, n, output, items, body) =>
      if Finished(body) {
        NextItemHolds(w, t, v, held);
      } else {
        ActHolds(w, rank, ex, Thread(t.results, body), v, p, path + [ItemLevel(w, output, items)],
                 RankOf(rank, n.id), held[n.id := RoundOutput(w, output, items)]);
        var body' := Act(w, ex, Thread(t.results, body), v, p).value.thread;
        HeldWithin(w, body', held, n.id, RoundOutput(w, output, items));
      }
    case Fork(f, n, branches) =>
      if p == [] {
        JoinHolds(w, rank, t, held, bound);
      } else if !branches[p[0]].ctl.Raised? {
        ActHolds(w, rank, ex, branches[p[0]], v, p[1..], path + [ForkBranch(p[0])], RankOf(rank, n.id), held);
      }
    case _ =>
  }

  lemma {:induction false} HeldWithin(w: World, t: Thread, held: map<string, Output>, id: string, output: Output)
    requires Holding(w, t, held[id := output]) && id !in held
    ensures Kept(held, t.results)
  {
    assert forall x | x in held :: x in held[id := output] && held[id := output][x] == held[x];
  }

  lemma {:induction false} HeadHolds(w: World, results: Results, f: Frame, current: Option<string>, v: View,
                                     held: map<string, Output>)
    requires Kept(held, results)
    ensures Holding(w, AtHead(w, results, f, current, v).thread, held)
  {
  }

  lemma {:induction false} RunHolds(w: World, rank: Rank, c: Config, s: seq<Choice>, bound: int)
    requires ClosedGraph(w.nodes) && Ranked(w.nodes, rank) && IdsMatch(w)
    requires NoRepeat(w, rank, c.thread.ctl, bound) && Keyed(w, c.thread.ctl, []) && Holding(w, c.thread, map[])
    requires RunAny(w, c, s).Some?
    ensures var d := RunAny(w, c, s).value.thread;
      NoRepeat(w, rank, d.ctl, bound) && Keyed(w, d.ctl, []) && Holding(w, d, map[])
    decreases |s|
  {
    hide Act, KeyAt, NoRepeat, Keyed, Holding, ClosedGraph, Ranked, IdsMatch;
    if s != [] {
      var v := Look(c.shared, KeyAt(c.thread.ctl, s[0].path));
      ActNoRepeat(w, rank, s[0].ex, c.thread, v, s[0].path, bound);
      ActKeyed(w, s[0].ex, c.thread, v, s[0].path, []);
      ActHolds(w, rank, s[0].ex, c.thread, v, s[0].path, [], bound, map[]);
      RunHolds(w, rank, Move1(w, c, s[0]).value, s[1..], bound);
    }
  }

  /** The chain that moves at `p` is in a round of the fan-out of `n` over `output` that leaves `left` for later. */
  ghost predicate InRound(c: Control, p: seq<string>, n: IRNode, output: Output, left: seq<Json>)
    decreases c
  {
    match c
    case Fanout(_, m, o, items, body) =>
      !Finished(body) && ((m == n && o == output && items == left) || InRound(body, p, n, output, left))
    case Fork(_, _, branches) => p != [] && p[0] in branches && InRound(branches[p[0]].ctl, p[1..], n, output, left)
    case _ => false
  }

  lemma {:induction false} KeptInside(w: World, rank: Rank, t: Thread, p: seq<string>, path: seq<Level>, bound: int,
                                      held: map<string, Output>)
    requires NoRepeat(w, rank, t.ctl, bound) && HeldAbove(rank, held, bound) && Keyed(w, t.ctl, path)
    requires Holding(w, t, held)
    ensures Kept(held, ThreadAt(t, p).results)
    decreases t.ctl
  {
    hide KeyOf, AllItems, RoundOutput, ItemsLeft;
    match t.ctl
    case Fanout(_, n, output, items, body) =>
      if !Finished(body) {
        var inner := held[n.id := RoundOutput(w, output, items)];
        KeptInside(w, rank, Thread(t.results, body), p, path + [ItemLevel(w, output, items)], RankOf(rank, n.id),
                   inner);
        assert n.id !in held;
        assert forall x | x in held :: x in inner && inner[x] == held[x];
      }
    case Fork(_, n, branches) =>
      if p != [] && p[0] in branches {
        KeptInside(w, rank, branches[p[0]], p[1..], path + [ForkBranch(p[0])], RankOf(rank, n.id), held);
      }
    case _ =>
  }

  lemma {:induction false} RoundIsSeen(w: World, rank: Rank, t: Thread, p: seq<string>, path: seq<Level>, bound: int,
                                       held: map<string, Output>, n: IRNode, output: Output, left: seq<Json>)
    requires NoRepeat(w, rank, t.ctl, bound) && HeldAbove(rank, held, bound) && Keyed(w, t.ctl, path)
    requires Holding(w, t, held) && InRound(t.ctl, p, n, output, left)
    ensures n.id in ThreadAt(t, p).results && ThreadAt(t, p).results[n.id] == RoundOutput(w, output, left)
    ensures ItemsLeft(w, output, left) && |left| < |AllItems(w, output)|
    decreases t.ctl
  {
    hide KeyOf, AllItems, RoundOutput, ItemsLeft;
    match t.ctl
    case Fanout(_, m, o, items, body) =>
      var inner := held[m.id := RoundOutput(w, o, items)];
      var deeper := path + [ItemLevel(w, o, items)];
      if m == n && o == output && items == left {
        KeptInside(w, rank, Thread(t.results, body), p, deeper, RankOf(rank, m.id), inner);
        assert m.id in inner;
      } else {
        RoundIsSeen(w, rank, Thread(t.results, body), p, deeper, RankOf(rank, m.id), inner, n, output, left);
      }
    case Fork(_, m, branches) =>
      RoundIsSeen(w, rank, branches[p[0]], p[1..], path + [ForkBranch(p[0])], RankOf(rank, m.id), held, n, output,
                  left);
    case _ =>
  }

  /**
    Every node of a round gets its item. On a graph whose edges go down, in every run from the entry, however branches
    interleave: a node that executes inside a round of a fan-out, at any depth of fan-outs and forks inside it, and
    that is wired to the fan-out's item port, executes on the item of that round, or on what its path finds in it.
  */
  lemma {:induction false} RoundsNodesGetTheItem(w: World, rank: Rank, entry: string, sh: Shared, s: seq<Choice>,
                                                 m: Choice, n: IRNode, output: Output, left: seq<Json>, port: string,
                                                 q: string, at: seq<Segment>)
    returns (all: seq<Json>, k: nat, wired: map<string, Resolution>, r: NodeResult, y: Thread)
    requires ClosedGraph(w.nodes) && Ranked(w.nodes, rank) && entry in w.nodes
    requires RunAny(w, Config(Root(entry), sh), s).Some?
    requires var c := RunAny(w, Config(Root(entry), sh), s).value;
      && Move1(w, c, m).Some? && ThreadAt(c.thread, m.path).ctl.Executing?
      && InRound(c.thread.ctl, m.path, n, output, left)
      && q in ThreadAt(c.thread, m.path).ctl.node.inputs
      && ThreadAt(c.thread, m.path).ctl.node.inputs[q] == PortRef(n.id, port, at)
    requires n.id != "vars" && IsItemPort(output, port)
    ensures AreItems(w.codec, output, all) && k < |all| && left == all[k + 1..]
    ensures q in wired && ReadAt(w.codec, all[k], at, wired[q]) && (at == [] ==> wired[q] == Value(all[k]))
    ensures var c := RunAny(w, Config(Root(entry), sh), s).value;
      var Executing(f, node) := ThreadAt(c.thread, m.path).ctl;
      && Outcome(w, m.ex, node, wired, f.account, if Visits(f, node.id) > 0 then Visits(f, node.id) - 1 else 0, r)
      && Move1(w, c, m).value.thread == Put(c.thread, m.path, y)
      && Leaves(ThreadAt(c.thread, m.path), y, c.shared, Move1(w, c, m).value.shared, r)
  {
    hide RunAny, ThreadAt, NoRepeat, Keyed, Holding, InRound, Outcome, Leaves, Put, AreItems, ClosedGraph, Ranked;
    var c0 := Config(Root(entry), sh);
    var c := RunAny(w, c0, s).value;
    RootHolds(w, rank, entry);
    RunHolds(w, rank, c0, s, RankOf(rank, entry) + 1);
    RoundIsSeen(w, rank, c.thread, m.path, [], RankOf(rank, entry) + 1, map[], n, output, left);
    wired, r, y := ExecutesOnWhatIsGiven(w, m.ex, c, m.path);
    all, k := ItemOfRound(w, output, left, port);
    assert Given(w, ThreadAt(c.thread, m.path).results, PortRef(n.id, port, at), wired[q]);
  }

  lemma {:induction false} ItemOfRound(w: World, output: Output, left: seq<Json>, port: string)
    returns (all: seq<Json>, k: nat)
    requires ItemsLeft(w, output, left) && |left| < |AllItems(w, output)| && IsItemPort(output, port)
    ensures AreItems(w.codec, output, all) && k < |all| && left == all[k + 1..]
    ensures port in RoundOutput(w, output, left) && RoundOutput(w, output, left)[port] == all[k]
  {
    ItemsAreMeant(w.codec, output);
    PortIsMeant(output);
    all := AllItems(w, output);
    k := |all| - |left| - 1;
  }

  lemma {:induction false} RootHolds(w: World, rank: Rank, entry: string)
    requires ClosedGraph(w.nodes) && entry in w.nodes
    ensures IdsMatch(w) && NoRepeat(w, rank, Root(entry).ctl, RankOf(rank, entry) + 1)
    ensures Keyed(w, Root(entry).ctl, []) && Holding(w, Root(entry), map[])
  {
  }
}
