/**
  The shared step budget. For any graph, whatever nodes return and however branches interleave, one attempt
  visits at most as many nodes as it has budget, and it always comes to an end.
*/
module Budget {
  import opened Base
  import opened JsonValues
  import opened Ir
  import opened Machine
  import Confluence

  /** One move: which thread, and what `execute` returns if a node runs in it. */
  datatype Choice = Choice(path: seq<string>, ex: Exec)

  function Move1(w: World, c: Config, choice: Choice): Option<Config> {
    Step(w, choice.ex, c, choice.path)
  }

  // ---------------------------------------------------------------- sums over the branches of a fork

  ghost function Sum(m: map<string, nat>): nat {
    if m == map[] then 0
    else
      var k :| k in m;
      m[k] + Sum(m - {k})
  }

  lemma {:induction false} SumWithout(m: map<string, nat>, k: string)
    requires k in m
    ensures Sum(m) == m[k] + Sum(m - {k})
    decreases |m|
  {
    var j :| j in m && Sum(m) == m[j] + Sum(m - {j});
    if j != k {
      SumWithout(m - {j}, k);
      SumWithout(m - {k}, j);
      assert m - {j} - {k} == m - {k} - {j};
    }
  }

  lemma {:induction false} SumUpdate(m: map<string, nat>, k: string, n: nat)
    requires k in m
    ensures Sum(m[k := n]) + m[k] == Sum(m) + n
  {
    SumWithout(m, k);
    SumWithout(m[k := n], k);
    assert m[k := n] - {k} == m - {k};
  }

  // ---------------------------------------------------------------- the measure

  /** Store operations that visits already paid for still have to make. */
  ghost function Pending(c: Control): nat
    decreases c
  {
    match c
    case Claiming(_, _) => 2
    case Executing(_, _) => 1
    case Fanout(_, _, _, _, body) => Pending(body)
    case Fork(_, _, branches) => Sum(map l | l in branches :: Pending(branches[l].ctl))
    case _ => 0
  }

  /** Bookkeeping left to do without a visit: items, joins, chains about to end. */
  ghost function Remaining(c: Control): nat
    decreases c
  {
    match c
    case Fanout(_, _, _, items, body) => 2 + 2 * |items| + Remaining(body)
    case Fork(_, _, branches) => 2 + Sum(map l | l in branches :: Remaining(branches[l].ctl))
    case Head(_, _) => 1
    case _ => 0
  }

  ghost predicate Less(c': Control, c: Control) {
    Pending(c') < Pending(c) || (Pending(c') == Pending(c) && Remaining(c') < Remaining(c))
  }

  lemma {:induction false} ReplaceBranch(f: Frame, n: IRNode, branches: map<string, Thread>, l: string, b: Thread)
    requires l in branches
    ensures Pending(Fork(f, n, branches[l := b])) + Pending(branches[l].ctl)
         == Pending(Fork(f, n, branches)) + Pending(b.ctl)
    ensures Remaining(Fork(f, n, branches[l := b])) + Remaining(branches[l].ctl)
         == Remaining(Fork(f, n, branches)) + Remaining(b.ctl)
  {
    var ps := map l | l in branches :: Pending(branches[l].ctl);
    var rs := map l | l in branches :: Remaining(branches[l].ctl);
    var branches' := branches[l := b];
    assert (map l | l in branches' :: Pending(branches'[l].ctl)) == ps[l := Pending(b.ctl)];
    assert (map l | l in branches' :: Remaining(branches'[l].ctl)) == rs[l := Remaining(b.ctl)];
    SumUpdate(ps, l, Pending(b.ctl));
    SumUpdate(rs, l, Remaining(b.ctl));
  }

  lemma {:induction false} SumOfZeros(m: map<string, nat>)
    requires forall k | k in m :: m[k] == 0
    ensures Sum(m) == 0
    decreases |m|
  {
    if m != map[] {
      var k :| k in m && Sum(m) == m[k] + Sum(m - {k});
      SumOfZeros(m - {k});
    }
  }

  lemma {:induction false} RoutePending(w: World, f: Frame, n: IRNode, results: Results, output: Output)
    ensures Pending(Route(w, f, n, results, output)) == 0
  {
    hide CheckStopCondition, FanoutItems, BranchFrame;
    var branches := Branches(f, n, results);
    SumOfZeros(map l | l in branches :: Pending(branches[l].ctl));
  }

  lemma {:induction false} LeafProgress(w: World, ex: Exec, t: Thread, v: View)
    requires t.ctl.Claiming? || t.ctl.Executing?
    ensures Pending(Act(w, ex, t, v, []).value.thread.ctl) < Pending(t.ctl)
    ensures !Act(w, ex, t, v, []).value.effect.cost
  {
    hide Evaluate, Route;
    var f, n := t.ctl.frame, t.ctl.node;
    if t.ctl.Claiming? {
      if v.row.Some? && v.row.value.Completed? {
        var output := v.row.value.output;
        RoutePending(w, f.(last := Some(output)), n, t.results[n.id := output], output);
      }
    } else {
      var r := Evaluate(w, ex, t.results, n, f.account, LoopCount(f, n));
      if r.Produced? {
        RoutePending(w, f.(last := Some(r.output)), n, t.results[n.id := r.output], r.output);
      }
    }
  }

  lemma {:induction false} NextItemProgress(w: World, results: Results, f: Frame, n: IRNode, output: Output,
                                            items: seq<Json>, body: Control, v: View)
    requires Finished(body)
    ensures var m := NextItem(w, results, f, n, output, items, body, v);
            !m.effect.cost && Less(m.thread.ctl, Fanout(f, n, output, items, body))
  {
    var before := Fanout(f, n, output, items, body);
    assert Pending(before) == 0 && Remaining(before) == 2 + 2 * |items|;
    var m := NextItem(w, results, f, n, output, items, body, v);
    if m.thread.ctl.Fanout? {
      assert Remaining(m.thread.ctl) == 2 + 2 * |items[1..]| + 1;
    }
  }

  /** A move either pays for one visit, or leaves strictly less to do. */
  lemma {:induction false} MoveProgress(w: World, ex: Exec, t: Thread, v: View, p: seq<string>)
    requires Act(w, ex, t, v, p).Some?
    ensures var m := Act(w, ex, t, v, p).value;
            if m.effect.cost && v.left then Pending(m.thread.ctl) <= Pending(t.ctl) + 2
            else Less(m.thread.ctl, t.ctl)
    decreases t.ctl
  {
    hide AtClaim, AtExecute, NextItem, Join;
    match t.ctl
    case Head(f, current) =>
    case Claiming(f, n) => LeafProgress(w, ex, t, v);
    case Executing(f, n) => LeafProgress(w, ex, t, v);
    case Fanout(f, n, output, items, body) =>
      if !Finished(body) {
        MoveProgress(w, ex, Thread(t.results, body), v, p);
      } else {
        NextItemProgress(w, t.results, f, n, output, items, body, v);
      }
    case Fork(f, n, branches) => MoveProgressInFork(w, ex, t, v, p);
    case Done(_, _) =>
    case Raised(_) =>
  }

  lemma {:induction false} JoinProgress(w: World, results: Results, f: Frame, n: IRNode, branches: map<string, Thread>)
    requires AllAtRest(branches)
    ensures Less(Join(w, results, f, n, branches).thread.ctl, Fork(f, n, branches))
    ensures Join(w, results, f, n, branches).effect == SILENT
  {
    JoinShape(w, results, f, n, branches);
    JoinIsSilent(w, results, f, n, branches);
    hide Join;
  }

  lemma {:induction false} MoveProgressInFork(w: World, ex: Exec, t: Thread, v: View, p: seq<string>)
    requires t.ctl.Fork? && Act(w, ex, t, v, p).Some?
    ensures var m := Act(w, ex, t, v, p).value;
            if m.effect.cost && v.left then Pending(m.thread.ctl) <= Pending(t.ctl) + 2
            else Less(m.thread.ctl, t.ctl)
    decreases t.ctl, 0
  {
    hide AtHead, AtClaim, AtExecute, NextItem, Join;
    var Fork(f, n, branches) := t.ctl;
    if p == [] {
      JoinProgress(w, t.results, f, n, branches);
    } else if !branches[p[0]].ctl.Raised? {
      MoveProgress(w, ex, branches[p[0]], v, p[1..]);
      ReplaceBranch(f, n, branches, p[0], Act(w, ex, branches[p[0]], v, p[1..]).value.thread);
    }
  }

  // ---------------------------------------------------------------- node visits

  /** The chain that moves when the thread at path `p` gets its turn. */
  function ChainAt(c: Control, p: seq<string>): Control
    decreases c
  {
    match c
    case Fanout(_, _, _, _, body) => if Finished(body) then c else ChainAt(body, p)
    case Fork(_, _, branches) => if p != [] && p[0] in branches then ChainAt(branches[p[0]].ctl, p[1..]) else c
    case _ => c
  }

  /** The move takes a chain from its loop head into a node. */
  predicate IsVisit(c: Config, p: seq<string>, c': Config) {
    ChainAt(c.thread.ctl, p).Head? && ChainAt(c'.thread.ctl, p).Claiming?
  }

  function RunAny(w: World, c: Config, s: seq<Choice>): Option<Config>
    decreases |s|
  {
    if s == [] then Some(c)
    else
      match Move1(w, c, s[0])
      case None => None
      case Some(c') => RunAny(w, c', s[1..])
  }

  function VisitCount(w: World, c: Config, s: seq<Choice>): nat
    requires RunAny(w, c, s).Some?
    decreases |s|
  {
    if s == [] then 0
    else
      var c' := Move1(w, c, s[0]).value;
      (if IsVisit(c, s[0].path, c') then 1 else 0) + VisitCount(w, c', s[1..])
  }

  lemma {:induction false} VisitIsPaid(w: World, ex: Exec, t: Thread, v: View, p: seq<string>)
    requires Act(w, ex, t, v, p).Some?
    requires ChainAt(t.ctl, p).Head? && ChainAt(Act(w, ex, t, v, p).value.thread.ctl, p).Claiming?
    ensures v.left && Act(w, ex, t, v, p).value.effect.cost
    decreases t.ctl
  {
    hide AtClaim, AtExecute, NextItem, Join;
    match t.ctl
    case Fanout(f, n, output, items, body) =>
      VisitIsPaid(w, ex, Thread(t.results, body), v, p);
    case Fork(f, n, branches) =>
      if p != [] && !branches[p[0]].ctl.Raised? {
        VisitIsPaid(w, ex, branches[p[0]], v, p[1..]);
      }
    case _ =>
  }

  /** No more node visits than budget, in any run of any graph with any nodes. */
  lemma {:induction false} VisitsWithinBudget(w: World, c: Config, s: seq<Choice>)
    requires RunAny(w, c, s).Some?
    ensures VisitCount(w, c, s) <= if c.shared.budget > 0 then c.shared.budget else 0
    decreases |s|
  {
    hide Act, KeyAt;
    if s != [] {
      var c' := Move1(w, c, s[0]).value;
      VisitsWithinBudget(w, c', s[1..]);
      if IsVisit(c, s[0].path, c') {
        VisitIsPaid(w, s[0].ex, c.thread, Look(c.shared, KeyAt(c.thread.ctl, s[0].path)), s[0].path);
      }
    }
  }

  // ---------------------------------------------------------------- termination

  /** What an attempt can still do: store operations it may pay for, then bookkeeping. */
  ghost function Fuel(c: Config): nat {
    Pending(c.thread.ctl) + if c.shared.budget > 0 then 3 * c.shared.budget else 0
  }

  lemma {:induction false} MoveDecreases(w: World, c: Config, choice: Choice)
    requires Move1(w, c, choice).Some?
    ensures var c' := Move1(w, c, choice).value;
            Fuel(c') < Fuel(c) || (Fuel(c') == Fuel(c) && Remaining(c'.thread.ctl) < Remaining(c.thread.ctl))
  {
    hide Act, KeyAt, Pending, Remaining;
    var v := Look(c.shared, KeyAt(c.thread.ctl, choice.path));
    MoveProgress(w, choice.ex, c.thread, v, choice.path);
  }

  /** An attempt that has not come to an end has a thread that can move. */
  lemma {:induction false} SomeoneCanMove(w: World, ex: Exec, t: Thread, v: View) returns (p: seq<string>)
    requires !Finished(t.ctl)
    ensures Act(w, ex, t, v, p).Some?
    decreases t.ctl
  {
    hide AtHead, AtClaim, AtExecute, NextItem, Join;
    p := [];
    match t.ctl
    case Fanout(f, n, output, items, body) =>
      if !Finished(body) {
        p := SomeoneCanMove(w, ex, Thread(t.results, body), v);
      }
    case Fork(f, n, branches) =>
      if !AllAtRest(branches) {
        var l :| l in branches && !AtRest(branches[l].ctl);
        if branches[l].ctl.Raised? {
          p := [l];
        } else {
          var tail := SomeoneCanMove(w, ex, branches[l], v);
          p := [l] + tail;
          assert p[1..] == tail;
        }
      }
    case _ =>
  }

  /** A scheduler that runs forever: at every moment it names the thread to move and what its node returns. */
  type Scheduler = nat -> Choice

  function RunFor(w: World, c: Config, scheduler: Scheduler, n: nat): Option<Config>
    decreases n
  {
    if n == 0 then Some(c)
    else
      match Move1(w, c, scheduler(0))
      case None => None
      case Some(c') => RunFor(w, c', (i: nat) => scheduler(i + 1), n - 1)
  }

  /** Every attempt stops: no scheduler keeps it moving, and the only way to be stuck is to have ended. */
  lemma {:induction false} EveryAttemptStops(w: World, c: Config, scheduler: Scheduler) returns (n: nat)
    ensures RunFor(w, c, scheduler, n).Some? && RunFor(w, c, scheduler, n + 1).None?
    ensures var end := RunFor(w, c, scheduler, n).value;
            Finished(end.thread.ctl) || exists p, ex :: Step(w, ex, end, p).Some?
    decreases Fuel(c), Remaining(c.thread.ctl)
  {
    hide Act, KeyAt, Fuel, Remaining;
    if Move1(w, c, scheduler(0)).None? {
      n := 0;
      if !Finished(c.thread.ctl) {
        var ex := scheduler(0).ex;
        var p := SomeoneCanMove(w, ex, c.thread, Look(c.shared, None));
        Confluence.EnabledForAnyView(w, ex, c.thread, Look(c.shared, None), Look(c.shared, KeyAt(c.thread.ctl, p)), p);
        assert Step(w, ex, c, p).Some?;
      }
    } else {
      MoveDecreases(w, c, scheduler(0));
      var c' := Move1(w, c, scheduler(0)).value;
      var m := EveryAttemptStops(w, c', (i: nat) => scheduler(i + 1));
      n := m + 1;
    }
  }
}
