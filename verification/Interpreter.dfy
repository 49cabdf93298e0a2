/**
  The interpreter as it is written: loops over mutable boxes, one result map shared along a chain and copied
  for each fork branch. It runs the branches of a fork one after the other, which is one of the schedules of
  the step machine; every method is proved to take the machine from its state at the call to its state at the
  return.
*/
module Interpreter {
  import opened Base
  import opened JsonValues
  import opened Ir
  import opened IterationKeys
  import opened Machine
  import opened Lifting
  import opened Stores
  import opened Confluence
  import opened Schedules
  import Mirror
  import Ownership
  import opened Resume

  /** The machine can go from `c` to `d`. */
  ghost predicate Reaches(w: World, ex: Exec, c: Config, d: Config) {
    exists s: seq<seq<string>> :: Run(w, ex, c, s) == Some(d)
  }

  lemma {:induction false} ReachesSelf(w: World, ex: Exec, c: Config)
    ensures Reaches(w, ex, c, c)
  {
    assert Run(w, ex, c, []) == Some(c);
  }

  lemma {:induction false} ReachesBoth(w: World, ex: Exec, c: Config, d: Config, e: Config)
    requires Reaches(w, ex, c, d) && Reaches(w, ex, d, e)
    ensures Reaches(w, ex, c, e)
  {
    hide Run;
    var s :| Run(w, ex, c, s) == Some(d);
    var s' :| Run(w, ex, d, s') == Some(e);
    RunSplits(w, ex, c, s, s');
    assert Run(w, ex, c, s + s') == Some(e);
  }

  lemma {:induction false} ReachesNext(w: World, ex: Exec, c: Config, d: Config, p: seq<string>, e: Config)
    requires Reaches(w, ex, c, d) && Step(w, ex, d, p) == Some(e)
    ensures Reaches(w, ex, c, e)
  {
    hide Step, Run;
    RunOfOne(w, ex, d, p);
    assert Reaches(w, ex, d, e);
    ReachesBoth(w, ex, c, d, e);
  }

  lemma {:induction false} ReachesInBranch(w: World, ex: Exec, c: Config, l: string, b: Config)
    requires c.thread.ctl.Fork? && l in c.thread.ctl.branches && Reaches(w, ex, Branch(c, l), b)
    ensures Reaches(w, ex, c, WithBranch(c, l, b))
  {
    hide Run;
    var s :| Run(w, ex, Branch(c, l), s) == Some(b);
    RunInBranch(w, ex, c, l, s);
  }

  lemma {:induction false} ReachesInBody(w: World, ex: Exec, c: Config, b: Config)
    requires c.thread.ctl.Fanout? && Reaches(w, ex, Body(c), b)
    ensures Reaches(w, ex, c, WithBody(c, b))
  {
    hide Run;
    var s :| Run(w, ex, Body(c), s) == Some(b);
    RunInBody(w, ex, c, s);
  }

  // ---------------------------------------------------------------- moves of one chain, as configurations

  lemma {:induction false} HeadStep(w: World, ex: Exec, results: Results, f: Frame, current: Option<string>, sh: Shared)
    ensures var m := AtHead(w, results, f, current, Look(sh, None));
            Step(w, ex, Config(Thread(results, Head(f, current)), sh), [])
                == Some(Config(m.thread, Apply(sh, None, m.effect)))
  {
    hide AtHead;
  }

  lemma {:induction false} EndStep(w: World, ex: Exec, results: Results, f: Frame, sh: Shared)
    ensures Step(w, ex, Config(Thread(results, Head(f, None)), sh), []) ==
              Some(Config(Thread(results, Done(f.last, None)), sh))
  {
  }

  /** What claiming, executing and completing a node does to the step table. */
  function NodeRow(w: World, ex: Exec, results: Results, f: Frame, n: IRNode, table: map<StepKey, Row>)
    : (NodeResult, map<StepKey, Row>)
  {
    var key := (n.id, RowKey(f.key, Visits(f, n.id)));
    if n.nodeType !in w.registry then (Failing("unknown node type"), table)
    else if key in table && table[key].Completed? then (Produced(table[key].output), table)
    else
      match Evaluate(w, ex, results, n, f.account, LoopCount(f, n))
      case Produced(output) => (Produced(output), table[key := Completed(output)])
      case other => (other, table[key := Running])
  }

  /** The state after a node's step. */
  function AfterNode(w: World, results: Results, f: Frame, n: IRNode, r: NodeResult, sh: Shared): Config {
    match r
    case Produced(output) =>
      var results' := results[n.id := output];
      var ctl := Route(w, f.(last := Some(output)), n, results', output);
      Config(Thread(results', ctl), sh.(abort := sh.abort || ctl == Raised(Abort)))
    case Failing(cause) => Config(Thread(results, Raised(Failed(n.id, cause))), sh)
    case Escaping => Config(Thread(results, Raised(Other)), sh)
  }

  lemma {:induction false} NodeSteps(w: World, ex: Exec, results: Results, f: Frame, n: IRNode, sh: Shared)
    ensures var (r, table) := NodeRow(w, ex, results, f, n, sh.table);
            Reaches(w, ex, Config(Thread(results, Claiming(f, n)), sh),
                    AfterNode(w, results, f, n, r, sh.(table := table)))
  {
    hide Evaluate, Route, RowKey;
    var c := Config(Thread(results, Claiming(f, n)), sh);
    var key := (n.id, RowKey(f.key, Visits(f, n.id)));
    var c1 := Step(w, ex, c, []).value;
    ReachesSelf(w, ex, c);
    ReachesNext(w, ex, c, c, [], c1);
    if n.nodeType !in w.registry {
      assert c1 == AfterNode(w, results, f, n, Failing("unknown node type"), sh);
    } else if c1.thread.ctl == Executing(f, n) && !(key in sh.table && sh.table[key].Completed?) {
      assert c1.shared.table == sh.table[key := Running];
      var c2 := Step(w, ex, c1, []).value;
      ReachesNext(w, ex, c, c1, [], c2);
      var r := Evaluate(w, ex, results, n, f.account, LoopCount(f, n));
      if r.Produced? {
        assert sh.table[key := Running][key := Completed(r.output)] == sh.table[key := Completed(r.output)];
      }
      assert c2 == AfterNode(w, results, f, n, r, sh.(table := NodeRow(w, ex, results, f, n, sh.table).1));
    }
  }

  // ---------------------------------------------------------------- the engine

  /** How an activation of `_run_chain` ends: it returns, or an exception leaves it. */
  datatype Outcome = Ended(last: Option<Output>, stoppedAt: Option<string>) | Threw(exn: Exn)

  function ControlOf(out: Outcome): Control {
    match out
    case Ended(last, stoppedAt) => Done(last, stoppedAt)
    case Threw(exn) => Raised(exn)
  }

  /** The chain goes on before `next`, unless an exception ends it. */
  function Onward(f: Frame, next: Option<string>, exn: Option<Exn>): Control {
    if exn.Some? then Raised(exn.value) else Head(f, next)
  }

  lemma {:induction false} JoinStep(w: World, ex: Exec, c: Config)
    requires c.thread.ctl.Fork? && AllAtRest(c.thread.ctl.branches)
    ensures var Fork(f, n, branches) := c.thread.ctl;
            Step(w, ex, c, []) == Some(Config(Join(w, c.thread.results, f, n, branches).thread, c.shared))
  {
    hide Join;
    var Fork(f, n, branches) := c.thread.ctl;
    JoinIsSilent(w, c.thread.results, f, n, branches);
  }

  /** A `results` dict: shared by a chain and its fan-out bodies, copied for a fork branch. */
  class ResultMap {
    var m: Results

    constructor (m: Results)
      ensures this.m == m
    {
      this.m := m;
    }
  }

  /** Operations of one executor that does not die. */
  predicate OfExecutor(ops: seq<Ownership.Op>) {
    forall op | op in ops :: op.p == 0 && !op.Die? && !op.LoadForClosing? && !op.Close?
  }

  /** The operations `ops` of one executor, made on the row `first`, lead to `row`, and it owns that under `version`. */
  ghost predicate Owns(first: RunRow, ops: seq<Ownership.Op>, row: RunRow, version: int) {
    && OfExecutor(ops) && Ownership.Exec(Ownership.Initial(first), ops).Some?
    && var s := Ownership.Exec(Ownership.Initial(first), ops).value;
       s.row == row && Ownership.PhaseOf(s, 0) == Ownership.Owner(version)
  }

  lemma {:induction false} OwnsAfterClaim(row: RunRow, worker: string)
    requires row.status != COMPLETED
    ensures ClaimRow(row, row.version, worker).Some?
    ensures Owns(row, [Ownership.LoadForRun(0), Ownership.Claim(0, worker)],
                 ClaimRow(row, row.version, worker).value, row.version + 1)
  {
    var ops := [Ownership.LoadForRun(0), Ownership.Claim(0, worker)];
    var s1 := Ownership.Next(Ownership.Initial(row), ops[0]).value;
    assert ops[1..][1..] == [];
    assert Ownership.Exec(s1, ops[1..]) == Ownership.Next(s1, ops[1]);
  }

  lemma {:induction false} OneMoreOp(s: Ownership.State, ops: seq<Ownership.Op>, op: Ownership.Op)
    requires Ownership.Exec(s, ops).Some?
    ensures Ownership.Exec(s, ops + [op]) == Ownership.Next(Ownership.Exec(s, ops).value, op)
    decreases |ops|
  {
    hide Ownership.Next;
    if ops == [] {
      assert ops + [op] == [op] && [op][1..] == [];
    } else {
      assert (ops + [op])[1..] == ops[1..] + [op];
      OneMoreOp(Ownership.Next(s, ops[0]).value, ops[1..], op);
    }
  }

  lemma {:induction false} OwnsAfterAdvance(first: RunRow, ops: seq<Ownership.Op>, row: RunRow, node: string)
    requires Owns(first, ops, row, row.version)
    ensures Owns(first, ops + [Ownership.Advance(0, node)],
                 TouchRow(row, row.version, Some(node), RUNNING, None).value, row.version + 1)
  {
    OneMoreOp(Ownership.Initial(first), ops, Ownership.Advance(0, node));
    hide Ownership.Exec;
  }

  /** The row `after` is what the operations of one executor on `before` lead to. */
  ghost predicate ByOneExecutor(before: RunRow, after: RunRow) {
    exists ops: seq<Ownership.Op> ::
      && OfExecutor(ops) && Ownership.Exec(Ownership.Initial(before), ops).Some?
      && Ownership.Exec(Ownership.Initial(before), ops).value.row == after
  }

  lemma {:induction false} NothingDone(row: RunRow)
    ensures ByOneExecutor(row, row)
  {
    assert OfExecutor([]) && Ownership.Exec(Ownership.Initial(row), []) == Some(Ownership.Initial(row));
  }

  lemma {:induction false} AttemptEnds(first: RunRow, ops: seq<Ownership.Op>, row: RunRow, last: Ownership.Op)
    requires Owns(first, ops, row, row.version) && (last.Finish? || last.Fail?) && last.p == 0
    ensures ByOneExecutor(first, row)
    ensures match last
            case Finish(_) => ByOneExecutor(first, TouchRow(row, row.version, None, COMPLETED, None).value)
            case Fail(_, step, cause) =>
              ByOneExecutor(first, TouchRow(row, row.version, Some(step), FAILED, Some(cause)).value)
  {
    OneMoreOp(Ownership.Initial(first), ops, last);
    hide Ownership.Exec;
    assert OfExecutor(ops + [last]);
  }

  /** One attempt: the stores, and the boxes that every chain of the attempt shares. */
  class Engine {
    const w: World
    const ex: Exec
    const runs: RunStore
    const steps: StepStore
    var version: int
    var budget: int
    var abort: bool
    ghost const first: RunRow
    ghost var ops: seq<Ownership.Op>

    constructor (w: World, ex: Exec, runs: RunStore, steps: StepStore, version: int, budget: int,
                 ghost first: RunRow, ghost ops: seq<Ownership.Op>)
      ensures this.w == w && this.ex == ex && this.runs == runs && this.steps == steps
      ensures this.version == version && this.budget == budget && !this.abort
      ensures this.first == first && this.ops == ops
    {
      this.first, this.ops := first, ops;
      this.w, this.ex, this.runs, this.steps := w, ex, runs, steps;
      this.version, this.budget, this.abort := version, budget, false;
    }

    /** This executor owns the row, by the operations it has made so far, and the graph is indexed by node id. */
    ghost predicate Valid()
      reads this, runs
    {
      && runs.row.version == version && runs.row.status == RUNNING && Mirror.IdsMatch(w)
      && Owns(first, ops, runs.row, version)
    }

    ghost function Sh(): Shared
      reads this, runs, steps
    {
      Shared(steps.table, budget, abort, runs.row.current)
    }

    /** The machine's view of the shared state after `out`: an abort in flight counts as raised. */
    ghost function ShAfter(out: Outcome): Shared
      reads this, runs, steps
    {
      Sh().(abort := abort || out == Threw(Abort))
    }

    /** The checks at the loop head, the budget, and the touch of a top-level chain. */
    method EnterNode(current: string, top: bool, stopAtJoin: bool, last: Option<Output>, ghost f: Frame,
                     ghost results: Results)
      returns (stop: Option<Outcome>)
      requires Valid() && f.top == top && f.stopAtJoin == stopAtJoin && f.last == last
      modifies this, runs
      ensures Valid()
      ensures var m := AtHead(w, results, f, Some(current), Look(old(Sh()), None));
              && Sh() == Apply(old(Sh()), None, m.effect)
              && (if stop.Some? then m.thread == Thread(results, ControlOf(stop.value)) && stop.value != Threw(Abort)
                  else && current in w.nodes
                       && var visits := f.visits[current := Visits(f, current) + 1];
                       m.thread == Thread(results, Claiming(f.(visits := visits), w.nodes[current])))
      ensures budget <= old(budget) && abort == old(abort) && old(version) <= version
      ensures stop.None? ==> 0 <= budget < old(budget)
    {
      if abort {
        return Some(Ended(last, Some(current)));
      }
      if current !in w.nodes {
        return Some(Threw(Failed(current, "absent from FlowIR")));
      }
      if stopAtJoin && w.nodes[current].nodeType == JOIN_NODE_TYPE {
        return Some(Ended(last, Some(current)));
      }
      budget := budget - 1;
      if budget < 0 {
        return Some(Threw(Failed(current, "max_steps_per_run exceeded")));
      }
      if top {
        OwnsAfterAdvance(first, ops, runs.row, current);
        ops := ops + [Ownership.Advance(0, current)];
        var won := runs.Touch(version, Some(current), RUNNING, None);
        version := won.value;
      }
      stop := None;
    }

    /** `_run_node`: claim the step, replay a committed result, otherwise execute and commit. */
    method RunNode(node: IRNode, results: ResultMap, activeKey: string, account: Option<AccountId>, loop: nat,
                   ghost f: Frame)
      returns (r: NodeResult)
      requires activeKey == RowKey(f.key, Visits(f, node.id)) && account == f.account && loop == LoopCount(f, node)
      modifies steps
      ensures (r, steps.table) == NodeRow(w, ex, results.m, f, node, old(steps.table))
    {
      if node.nodeType !in w.registry {
        return Failing("unknown node type");
      }
      var key := (node.id, activeKey);
      var claimed := steps.ClaimStep(key);
      if !claimed {
        var existing := steps.GetStep(key);
        if existing.Some? && existing.value.Completed? {
          return Produced(existing.value.output);
        }
        assert old(steps.table)[key := Running] == old(steps.table);
      }
      r := Evaluate(w, ex, results.m, node, account, loop);
      if r.Produced? {
        steps.CompleteStep(key, r.output);
        assert old(steps.table)[key := Running][key := Completed(r.output)]
               == old(steps.table)[key := Completed(r.output)];
      }
    }

    /** The machine's view of the shared state when a construct of a chain has ended. */
    ghost function Arrived(exn: Option<Exn>): Shared
      reads this, runs, steps
    {
      if exn.Some? then ShAfter(Threw(exn.value)) else Sh()
    }

    /** `_run_chain`. */
    method RunChain(start: Option<string>, key: string, account: Option<AccountId>, results: ResultMap, top: bool,
                    stopAtJoin: bool)
      returns (out: Outcome)
      requires Valid()
      modifies this, runs, steps, results
      ensures Valid() && budget <= old(budget) && (old(abort) ==> abort) && old(version) <= version
      ensures Reaches(w, ex, Config(Thread(old(results.m), Head(Frame(key, account, map[], None, top, stopAtJoin),
              start)), old(Sh())), Config(Thread(results.m, ControlOf(out)), ShAfter(out)))
      decreases if budget > 0 then budget else 0, 0
    {
      hide AtHead, Route, NodeRow, Step, Run, RowKey, Apply, Look, BranchFrame, Branches, Owns,
        Mirror.IdsMatch, Reaches;
      var current, visits, last: Option<Output> := start, map[], None;
      ghost var c0 := Config(Thread(results.m, Head(Frame(key, account, map[], None, top, stopAtJoin), start)), Sh());
      ReachesSelf(w, ex, c0);
      while current.Some?
        invariant Valid() && budget <= old(budget) && (old(abort) ==> abort) && old(version) <= version
        invariant Reaches(w, ex, c0, Config(Thread(results.m,
                  Head(Frame(key, account, visits, last, top, stopAtJoin), current)), Sh()))
        decreases if budget > 0 then budget else 0
      {
        ghost var f := Frame(key, account, visits, last, top, stopAtJoin);
        ghost var atHead := Config(Thread(results.m, Head(f, current)), Sh());
        HeadStep(w, ex, results.m, f, current, Sh());
        var stop := EnterNode(current.value, top, stopAtJoin, last, f, results.m);
        if stop.Some? {
          ReachesNext(w, ex, c0, atHead, [], Config(Thread(results.m, ControlOf(stop.value)), Sh()));
          return stop.value;
        }
        var node := w.nodes[current.value];
        var count := (if current.value in visits then visits[current.value] else 0) + 1;
        visits := visits[current.value := count];
        f := f.(visits := visits);
        ReachesNext(w, ex, c0, atHead, [], Config(Thread(results.m, Claiming(f, node)), Sh()));
        ghost var claiming := Config(Thread(results.m, Claiming(f, node)), Sh());
        IdOfNode(w, current.value);
        var next, output, exn := VisitNode(node, count, key, account, results, f);
        ReachesBoth(w, ex, c0, claiming, Config(Thread(results.m, Onward(f.(last := Some(output)), next, exn)),
                                                Arrived(exn)));
        last := Some(output);
        if exn.Some? { return Threw(exn.value); }
        current := next;
      }
      ghost var f := Frame(key, account, visits, last, top, stopAtJoin);
      EndStep(w, ex, results.m, f, Sh());
      ReachesNext(w, ex, c0, Config(Thread(results.m, Head(f, None)), Sh()), [],
                  Config(Thread(results.m, Done(last, None)), Sh()));
      out := Ended(last, None);
    }

    /** One iteration of `_run_chain` from the claim of the node to the choice of the next one. */
    method VisitNode(node: IRNode, count: nat, key: string, account: Option<AccountId>, results: ResultMap,
                     ghost f: Frame)
      returns (next: Option<string>, output: Output, exn: Option<Exn>)
      requires Valid() && f.key == key && f.account == account && count > 0 && Visits(f, node.id) == count
      modifies this, runs, steps, results
      ensures Valid() && budget <= old(budget) && (old(abort) ==> abort) && old(version) <= version
      ensures Reaches(w, ex, Config(Thread(old(results.m), Claiming(f, node)), old(Sh())),
                      Config(Thread(results.m, Onward(f.(last := Some(output)), next, exn)), Arrived(exn)))
      decreases if budget > 0 then budget else 0, 4
    {
      hide Route, NodeRow, Step, Run, RowKey, Apply, Look, BranchFrame, Branches, Owns;
      ghost var claiming := Config(Thread(results.m, Claiming(f, node)), Sh());
      NodeSteps(w, ex, results.m, f, node, Sh());
      var r := RunNode(node, results, RowKey(key, count), account, count - 1, f);
      next, output := None, map[];
      if r.Failing? { return next, output, Some(Failed(node.id, r.cause)); }
      if r.Escaping? { return next, output, Some(Other); }
      output := r.output;
      ghost var routed := AfterNode(w, results.m, f, node, r, Sh());
      results.m := results.m[node.id := output];
      next, exn := FollowRoute(node, output, key, account, results, f.(last := Some(output)));
      ReachesBoth(w, ex, claiming, routed, Config(Thread(results.m, Onward(f.(last := Some(output)), next, exn)),
                                                  Arrived(exn)));
    }

    /** What `_run_chain` does once a node's result is in. */
    method FollowRoute(node: IRNode, output: Output, key: string, account: Option<AccountId>, results: ResultMap,
                       ghost f: Frame)
      returns (next: Option<string>, exn: Option<Exn>)
      requires Valid() && f.key == key && f.account == account
      modifies this, runs, steps, results
      ensures Valid() && budget <= old(budget) && (old(abort) ==> abort) && old(version) <= version
      ensures var routed := Route(w, f, node, old(results.m), output);
              Reaches(w, ex, Config(Thread(old(results.m), routed), old(Sh()).(abort := old(abort)
                  || routed == Raised(Abort))), Config(Thread(results.m, Onward(f, next, exn)), Arrived(exn)))
      decreases if budget > 0 then budget else 0, 3
    {
      next, exn := None, None;
      ghost var routed := Route(w, f, node, results.m, output);
      ReachesSelf(w, ex, Config(Thread(results.m, routed), Sh().(abort := abort || routed == Raised(Abort))));
      match CheckStopCondition(node, output) {
        case StopRun => exn := Some(Abort);
        case JumpTo(target) => next := Some(target);
        case Continue =>
          if Truthy(Port(output, "__fork__")) {
            next, exn := RunFork(node, key, account, results, f);
          } else {
            match FanoutItems(w.codec, output) {
              case Malformed => exn := Some(Failed(node.id, "malformed __fanout_items__"));
              case NotFanout => next := Lookup(node.edges, EdgeLabel(output));
              case Items(items) =>
                exn := RunFanoutBody(node, items, output, key, account, results, f);
                next := Lookup(node.edges, "after");
            }
          }
      }
    }

    /** `_run_fanout_body`. */
    method RunFanoutBody(node: IRNode, items: seq<Json>, output: Output, key: string, account: Option<AccountId>,
                         results: ResultMap, ghost f: Frame)
      returns (exn: Option<Exn>)
      requires Valid() && f.key == key && f.account == account
      modifies this, runs, steps, results
      ensures Valid() && budget <= old(budget) && (old(abort) ==> abort) && old(version) <= version
      ensures var fan := if "body" in node.edges then Fanout(f, node, output, items, Done(None, None))
                         else Raised(Failed(node.id, "fan-out node missing 'body' edge"));
              Reaches(w, ex, Config(Thread(old(results.m), fan), old(Sh())),
                      Config(Thread(results.m, Onward(f, Lookup(node.edges, "after"), exn)), Arrived(exn)))
      decreases if budget > 0 then budget else 0, 1
    {
      hide Step, Run, FanoutPort, Compose, Owns;
      if "body" !in node.edges {
        exn := Some(Failed(node.id, "fan-out node missing 'body' edge"));
        ReachesSelf(w, ex, Config(Thread(results.m, Raised(exn.value)), Sh()));
        return;
      }
      var port := FanoutPort(output);
      ghost var body := Done(None, None);
      ghost var c0 := Config(Thread(results.m, Fanout(f, node, output, items, body)), Sh());
      ReachesSelf(w, ex, c0);
      var i := 0;
      while i < |items| && !abort
        invariant 0 <= i <= |items| && Valid() && budget <= old(budget) && (old(abort) ==> abort)
                  && old(version) <= version && body.Done?
        invariant Reaches(w, ex, c0, Config(Thread(results.m, Fanout(f, node, output, items[i..], body)), Sh()))
      {
        ghost var fan := Config(Thread(results.m, Fanout(f, node, output, items[i..], body)), Sh());
        FanoutStep(w, ex, fan);
        var token := w.codec.show(items[i]);
        results.m := results.m[node.id := output[port := items[i]]];
        var childAccount := account;
        if port == "account_id" {
          childAccount := w.account(token);
          if childAccount.None? {
            exn := Some(Failed(node.id, "fan-out account item is not a valid id"));
            ReachesNext(w, ex, c0, fan, [], Config(Thread(results.m, Raised(exn.value)), Sh()));
            return;
          }
        }
        var childKey := Compose(key, token);
        ghost var inBody := Config(Thread(results.m, Fanout(f, node, output, items[i + 1..],
                                     Head(BodyFrame(f, childKey, childAccount), Some(node.edges["body"])))), Sh());
        assert items[i..][1..] == items[i + 1..];
        ReachesNext(w, ex, c0, fan, [], inBody);
        var out := RunChain(Some(node.edges["body"]), childKey, childAccount, results, false, false);
        BodyEnds(w, ex, c0, inBody, Config(Thread(results.m, ControlOf(out)), ShAfter(out)));
        if out.Threw? {
          return Some(out.exn);
        }
        body := ControlOf(out);
        i := i + 1;
      }
      ghost var last := Config(Thread(results.m, Fanout(f, node, output, items[i..], body)), Sh());
      FanoutStep(w, ex, last);
      ReachesNext(w, ex, c0, last, [], Config(Thread(results.m, Head(f, Lookup(node.edges, "after"))), Sh()));
      exn := None;
    }

    /** `_run_one`: one branch on its own copy of the results; an abort raises the shared flag and stops here. */
    method RunOne(l: string, target: string, key: string, account: Option<AccountId>, results: ResultMap,
                  ghost f: Frame)
      returns (out: Outcome, ghost end: Thread)
      requires Valid() && f.key == key && f.account == account
      modifies this, runs, steps
      ensures Valid() && budget <= old(budget) && (old(abort) ==> abort) && old(version) <= version
              && end.ctl == ControlOf(out)
      ensures out == Threw(Abort) ==> abort
      ensures Reaches(w, ex, Config(Thread(results.m, Head(BranchFrame(f, l), Some(target))), old(Sh())),
                      Config(end, Sh()))
      decreases if budget > 0 then budget else 0, 1
    {
      var copy := new ResultMap(results.m);
      out := RunChain(Some(target), ForkKey(key, l), account, copy, false, true);
      if out == Threw(Abort) {
        abort := true;
      }
      end := Thread(copy.m, ControlOf(out));
    }

    /** `_run_fork`, with the branches taking their turns one after the other. */
    method RunFork(node: IRNode, key: string, account: Option<AccountId>, results: ResultMap, ghost f: Frame)
      returns (next: Option<string>, exn: Option<Exn>)
      requires Valid() && f.key == key && f.account == account
      modifies this, runs, steps, results
      ensures Valid() && budget <= old(budget) && (old(abort) ==> abort) && old(version) <= version
      ensures Reaches(w, ex, Config(Thread(old(results.m), Fork(f, node, Branches(f, node, old(results.m)))),
                                    old(Sh())), Config(Thread(results.m, Onward(f, next, exn)), Arrived(exn)))
      decreases if budget > 0 then budget else 0, 2
    {
      hide Join, Step, Run, BranchFrame, SomeEnded, Owns;
      next, exn := None, None;
      var ends: map<string, Outcome> := map[];
      ghost var bs := Branches(f, node, results.m);
      ghost var c0 := Config(Thread(results.m, Fork(f, node, bs)), Sh());
      ReachesSelf(w, ex, c0);
      NoneEnded(f, node, results.m);
      var todo := node.edges.Keys;
      while todo != {}
        invariant Valid() && budget <= old(budget) && (old(abort) ==> abort) && old(version) <= version
                  && results.m == old(results.m)
        invariant SomeEnded(f, node, results.m, todo, ends, bs, abort)
        invariant Reaches(w, ex, c0, Config(Thread(results.m, Fork(f, node, bs)), Sh()))
        decreases |todo|
      {
        var l :| l in todo;
        NotStarted(f, node, results.m, todo, ends, bs, abort, l);
        ghost var before := abort;
        ghost var fork := Config(Thread(results.m, Fork(f, node, bs)), Sh());
        var out, end := RunOne(l, node.edges[l], key, account, results, f);
        BranchEnds(w, ex, c0, fork, l, Config(end, Sh()));
        if out.Threw? && out.exn != Abort {
          return None, Some(out.exn);
        }
        OneMoreEnded(f, node, results.m, todo, ends, bs, before, l, out, end, abort);
        bs, ends, todo := bs[l := end], ends[l := out], todo - {l};
      }
      ghost var fork := Config(Thread(results.m, Fork(f, node, bs)), Sh());
      AllEnded(f, node, results.m, ends, bs, abort);
      JoinStep(w, ex, fork);
      next, exn := MergeBranches(node, ends, results, f, bs);
      ReachesNext(w, ex, c0, fork, [], Config(Thread(results.m, Onward(f, next, exn)), Sh()));
    }

    /** The end of `_run_fork`: the join entry, or the reason why there is none. */
    method MergeBranches(node: IRNode, ends: map<string, Outcome>, results: ResultMap, ghost f: Frame,
                         ghost bs: map<string, Thread>)
      returns (next: Option<string>, exn: Option<Exn>)
      requires ends.Keys == bs.Keys && forall l | l in ends :: bs[l].ctl == ControlOf(ends[l]) && AtRest(bs[l].ctl)
      modifies results
      ensures Thread(results.m, Onward(f, next, exn)) == Join(w, old(results.m), f, node, bs).thread
      ensures exn == Some(Abort) ==> exists l :: l in ends && ends[l] == Threw(Abort)
    {
      next, exn := None, None;
      if exists l | l in ends :: ends[l].Threw? {
        return None, Some(Abort);
      }
      var joinIds := set l | l in ends && ends[l].stoppedAt.Some? :: ends[l].stoppedAt.value;
      assert joinIds == JoinIds(bs);
      if |joinIds| != 1 {
        return None, Some(Failed(node.id, "fork branches must converge on exactly one join node"));
      }
      if l :| l in ends && ends[l].last.None? {
        assert bs[l].ctl.last.None?;
        return None, Some(Failed(node.id, "fork branch produced no result"));
      }
      var joinId := TheElement(joinIds);
      if joinId !in w.nodes {
        return None, Some(Other);
      }
      var branches := map l | l in ends :: JObj(ends[l].last.value);
      assert branches == (map l | l in bs :: JObj(bs[l].ctl.last.value));
      results.m := results.m[joinId := map["branches" := JStr(w.codec.dumps(JObj(branches)))]];
      next := Lookup(w.nodes[joinId].edges, "next");
    }
  }

  lemma {:induction false} IdOfNode(w: World, id: string)
    requires Mirror.IdsMatch(w) && id in w.nodes
    ensures w.nodes[id].id == id
  {
  }

  /** A body chain that has ended ends its iteration, or takes the fan-out down with it. */
  lemma {:induction false} BodyEnds(w: World, ex: Exec, c0: Config, c: Config, b: Config)
    requires c.thread.ctl.Fanout? && Reaches(w, ex, c0, c) && Reaches(w, ex, Body(c), b) && Finished(b.thread.ctl)
    ensures Reaches(w, ex, c0, WithBody(c, b))
    ensures b.thread.ctl.Raised? ==> Reaches(w, ex, c0, b)
  {
    hide Run, Step;
    ReachesInBody(w, ex, c, b);
    ReachesBoth(w, ex, c0, c, WithBody(c, b));
    if b.thread.ctl.Raised? {
      FanoutStep(w, ex, WithBody(c, b));
      ReachesNext(w, ex, c0, WithBody(c, b), [], b);
    }
  }

  /** Between two branches of a fork: those in `todo` have not started, the others are at rest. */
  ghost predicate SomeEnded(f: Frame, n: IRNode, results: Results, todo: set<string>, ends: map<string, Outcome>,
                            bs: map<string, Thread>, abort: bool)
  {
    && todo <= n.edges.Keys && ends.Keys == n.edges.Keys - todo && bs.Keys == n.edges.Keys
    && (forall l | l in todo :: bs[l] == Thread(results, Head(BranchFrame(f, l), Some(n.edges[l]))))
    && (forall l | l in ends :: bs[l].ctl == ControlOf(ends[l]) && AtRest(bs[l].ctl))
    && ((exists l :: l in ends && ends[l] == Threw(Abort)) ==> abort)
  }

  lemma {:induction false} NoneEnded(f: Frame, n: IRNode, results: Results)
    ensures SomeEnded(f, n, results, n.edges.Keys, map[], Branches(f, n, results), false)
    ensures SomeEnded(f, n, results, n.edges.Keys, map[], Branches(f, n, results), true)
  {
  }

  lemma {:induction false} NotStarted(f: Frame, n: IRNode, results: Results, todo: set<string>,
                                      ends: map<string, Outcome>, bs: map<string, Thread>, abort: bool, l: string)
    requires SomeEnded(f, n, results, todo, ends, bs, abort) && l in todo
    ensures l in n.edges && l in bs && bs[l] == Thread(results, Head(BranchFrame(f, l), Some(n.edges[l])))
  {
  }

  lemma {:induction false} OneMoreEnded(f: Frame, n: IRNode, results: Results, todo: set<string>,
                                        ends: map<string, Outcome>, bs: map<string, Thread>, before: bool, l: string,
                                        out: Outcome, end: Thread, abort: bool)
    requires SomeEnded(f, n, results, todo, ends, bs, before) && l in todo
    requires end.ctl == ControlOf(out) && AtRest(end.ctl) && (before || out == Threw(Abort) ==> abort)
    ensures SomeEnded(f, n, results, todo - {l}, ends[l := out], bs[l := end], abort)
  {
    hide BranchFrame;
  }

  lemma {:induction false} AllEnded(f: Frame, n: IRNode, results: Results, ends: map<string, Outcome>,
                                    bs: map<string, Thread>, abort: bool)
    requires SomeEnded(f, n, results, {}, ends, bs, abort)
    ensures ends.Keys == bs.Keys && AllAtRest(bs)
    ensures forall l | l in ends :: bs[l].ctl == ControlOf(ends[l]) && AtRest(bs[l].ctl)
    ensures (exists l :: l in ends && ends[l] == Threw(Abort)) ==> abort
  {
  }

  /** A branch that has ended is at rest in its fork, or takes the fork down with it. */
  lemma {:induction false} BranchEnds(w: World, ex: Exec, c0: Config, c: Config, l: string, b: Config)
    requires c.thread.ctl.Fork? && l in c.thread.ctl.branches && Reaches(w, ex, c0, c)
    requires Reaches(w, ex, Branch(c, l), b) && Finished(b.thread.ctl)
    ensures var Fork(f, n, branches) := c.thread.ctl;
            Reaches(w, ex, c0, Config(Thread(c.thread.results, Fork(f, n, branches[l := b.thread])), b.shared))
    ensures b.thread.ctl.Raised? && b.thread.ctl.exn != Abort ==>
              Reaches(w, ex, c0, Config(Thread(c.thread.results, b.thread.ctl), b.shared))
  {
    hide Run, Step;
    ReachesInBranch(w, ex, c, l, b);
    ReachesBoth(w, ex, c0, c, WithBranch(c, l, b));
    if b.thread.ctl.Raised? && b.thread.ctl.exn != Abort {
      FailStep(w, ex, WithBranch(c, l, b), l);
      ReachesNext(w, ex, c0, WithBranch(c, l, b), [l], Config(Thread(c.thread.results, b.thread.ctl), b.shared));
    }
  }

  // ---------------------------------------------------------------- one attempt

  datatype Verdict = Finishes | Fails(step: string, cause: string) | Escapes

  /** How an attempt that has come to its end leaves the run: an abort is a completed run. */
  function VerdictOf(c: Control): Verdict
    requires Machine.Finished(c)
  {
    match c
    case Done(_, _) => Finishes
    case Raised(Abort) => Finishes
    case Raised(Failed(step, cause)) => Fails(step, cause)
    case Raised(Other) => Escapes
  }

  /** The verdict and the run row tell how the attempt has ended: completed by itself or by an abort, failed with the
      step and the cause, or left by another exception, which changes nothing in the row. */
  ghost predicate Recorded(row: RunRow, v: Verdict, end: Config) {
    match end.thread.ctl
    case Done(_, _) => v == Finishes && row.status == COMPLETED && row.current == None && row.error == None
    case Raised(Abort) => v == Finishes && row.status == COMPLETED && row.current == None && row.error == None
    case Raised(Failed(step, cause)) =>
      v == Fails(step, cause) && row.status == FAILED && row.current == Some(step) && IsStored(row.error, Some(cause))
    case Raised(Other) => v == Escapes && row.status == RUNNING && row.current == end.shared.current
    case _ => false
  }

  /** The state in which an attempt on this row and these steps starts: at the node that the row names, or else at
      the entry, without results, account, iteration or visits. */
  ghost function AttemptStart(row: RunRow, table: map<StepKey, Row>, entry: string, maxSteps: int): Config {
    var start := if row.current in {None, Some("")} then entry else row.current.value;
    Config(Thread(map[], Head(Frame("", None, map[], None, true, false), Some(start))),
           Shared(table, maxSteps, false, row.current))
  }

  /**
    `execute_run`, by an executor that nobody races. A completed run is left alone; otherwise the attempt is a
    run of the machine from the resume node on the rows it finds, and the row records how it ended.
  */
  method ExecuteRun(w: World, ex: Exec, runs: RunStore, steps: StepStore, entry: string, worker: string, maxSteps: int)
    returns (verdict: Verdict)
    requires Mirror.IdsMatch(w)
    modifies runs, steps
    ensures old(runs.row.status) == COMPLETED ==>
              verdict == Finishes && runs.row == old(runs.row) && steps.table == old(steps.table)
    ensures old(runs.row.status) != COMPLETED ==> runs.row.version > old(runs.row.version)
    ensures ByOneExecutor(old(runs.row), runs.row)
    ensures old(runs.row.status) != COMPLETED ==>
              exists end: Config ::
                && Machine.Finished(end.thread.ctl)
                && Reaches(w, ex, AttemptStart(old(runs.row), old(steps.table), entry, maxSteps), end)
                && steps.table == end.shared.table
                && Recorded(runs.row, verdict, end)
  {
    hide Owns, ByOneExecutor, Run, Step;
    if runs.row.status == COMPLETED {
      NothingDone(runs.row);
      return Finishes;
    }
    ghost var first, ops := runs.row, [Ownership.LoadForRun(0), Ownership.Claim(0, worker)];
    OwnsAfterClaim(first, worker);
    var claimed := runs.Claim(runs.row.version, worker);
    var engine := new Engine(w, ex, runs, steps, claimed.value, maxSteps, first, ops);
    var results := new ResultMap(map[]);
    var start := ResumeNode(runs.row.current, entry);
    ghost var c0 := Config(Root(start), engine.Sh());
    var out := engine.RunChain(Some(start), "", None, results, true, false);
    ghost var end := Config(Thread(results.m, ControlOf(out)), engine.ShAfter(out));
    assert Reaches(w, ex, c0, end);
    verdict := VerdictOf(ControlOf(out));
    match verdict {
      case Finishes =>
        AttemptEnds(first, engine.ops, runs.row, Ownership.Finish(0));
        var _ := runs.Touch(engine.version, None, COMPLETED, None);
      case Fails(step, cause) =>
        AttemptEnds(first, engine.ops, runs.row, Ownership.Fail(0, step, cause));
        var _ := runs.Touch(engine.version, Some(step), FAILED, Some(cause));
      case Escapes =>
        AttemptEnds(first, engine.ops, runs.row, Ownership.Finish(0));
    }
  }

  /** What this order of branches leads to is what every interleaving of them leads to. */
  lemma {:induction false} EveryInterleavingEndsAlike(w: World, ex: Exec, c: Config, end: Config, s: seq<seq<string>>)
    requires PlainWorld(w) && Separate(c.thread.ctl)
    requires Reaches(w, ex, c, end) && Clean(end) && end.thread.ctl.Done?
    requires Run(w, ex, c, s).Some?
    ensures Clean(Run(w, ex, c, s).value)
    ensures Machine.Finished(Run(w, ex, c, s).value.thread.ctl) ==> Run(w, ex, c, s).value == end
  {
    hide Step, Separate;
    var s0: seq<seq<string>> :| Run(w, ex, c, s0) == Some(end);
    if |s| <= |s0| {
      var rest := EveryScheduleConverges(w, ex, c, s0, s);
      CleanAtStart(w, ex, Run(w, ex, c, s).value, rest);
      if Machine.Finished(Run(w, ex, c, s).value.thread.ctl) {
        NothingAfterDone(w, ex, Run(w, ex, c, s).value, rest);
      }
    } else {
      RunPrefix(w, ex, c, s, |s0|);
      var rest := EveryScheduleConverges(w, ex, c, s0, s[..|s0|]);
      NothingAfterDone(w, ex, end, s[|s0|..]);
    }
  }
}
