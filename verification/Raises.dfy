/**
  Runs that do not end by themselves but by an exception: a stop, a failing step, an exhausted path. Two walks
  that are alike raise the same exception at the same point, and nothing happens to the stores on its way up.
*/
module Raises {
  import opened Base
  import opened JsonValues
  import opened Ir
  import opened IterationKeys
  import opened Machine
  import opened Schedules
  import opened Mirror

  /** `exn` is on its way up through the fan-outs around the chain that raised it. */
  predicate Unwinding(c: Control, exn: Exn)
    decreases c
  {
    match c
    case Raised(e) => e == exn
    case Fanout(_, _, _, _, body) => Unwinding(body, exn)
    case _ => false
  }

  /** An unwinding thread only unwinds further, silently. */
  lemma {:induction false} StillUnwinding(w: World, ex: Exec, t: Thread, v: View, p: seq<string>, exn: Exn)
    requires Unwinding(t.ctl, exn) && Act(w, ex, t, v, p).Some?
    ensures Unwinding(Act(w, ex, t, v, p).value.thread.ctl, exn) && Act(w, ex, t, v, p).value.effect == SILENT
    decreases t.ctl
  {
    if t.ctl.Fanout? && !Finished(t.ctl.body) {
      StillUnwinding(w, ex, Thread(t.results, t.ctl.body), v, p, exn);
    }
  }

  // ---------------------------------------------------------------- the same exception

  /** The move raises `exn`, and this is what it writes. */
  predicate RaisesWith(m: Move, exn: Exn, write: Option<Row>) {
    Unwinding(m.thread.ctl, exn) && m.effect.write == write && m.effect.touch.None?
  }

  lemma {:induction false} RouteRaises(w: World, f: Frame, g: Frame, n: IRNode, a: Results, b: Results, output: Output,
                                       exn: Exn)
    requires Unwinding(Route(w, g, n, b, output), exn)
    ensures Route(w, f, n, a, output) == Raised(exn)
  {
    hide FanoutItems, CheckStopCondition, Truthy, Branches, EdgeLabel;
  }

  lemma {:induction false} CommitRaises(w: World, a: Results, b: Results, f: Frame, g: Frame, n: IRNode, output: Output,
                                        write: Option<Row>, exn: Exn)
    requires Unwinding(Commit(w, b, g, n, output, write).thread.ctl, exn)
    ensures RaisesWith(Commit(w, a, f, n, output, write), exn, write)
    ensures RaisesWith(Commit(w, b, g, n, output, write), exn, write)
  {
    hide Route;
    RouteRaises(w, f.(last := Some(output)), g.(last := Some(output)), n, a[n.id := output], b[n.id := output], output,
                exn);
    RouteRaises(w, g.(last := Some(output)), g.(last := Some(output)), n, b[n.id := output], b[n.id := output], output,
                exn);
  }

  lemma {:induction false} HeadRaises(w: World, hidden: set<string>, a: Thread, b: Thread, va: View, vb: View,
                                      top: bool, exn: Exn)
    requires Twins(hidden, a, b, top) && a.ctl.Head? && SameSight(va, vb) && vb.left
    requires Unwinding(AtHead(w, b.results, b.ctl.frame, b.ctl.current, vb).thread.ctl, exn)
    ensures RaisesWith(AtHead(w, a.results, a.ctl.frame, a.ctl.current, va), exn, None)
    ensures RaisesWith(AtHead(w, b.results, b.ctl.frame, b.ctl.current, vb), exn, None)
  {
    hide SameBut;
  }

  lemma {:induction false} ClaimRaises(w: World, hidden: set<string>, a: Thread, b: Thread, va: View, vb: View,
                                       top: bool, exn: Exn)
    requires Twins(hidden, a, b, top) && a.ctl.Claiming? && SameSight(va, vb)
    requires Unwinding(AtClaim(w, b.results, b.ctl.frame, b.ctl.node, vb).thread.ctl, exn)
    ensures RaisesWith(AtClaim(w, a.results, a.ctl.frame, a.ctl.node, va), exn, None)
    ensures RaisesWith(AtClaim(w, b.results, b.ctl.frame, b.ctl.node, vb), exn, None)
  {
    hide Commit, SameBut;
    if b.ctl.node.nodeType in w.registry {
      var output := vb.row.value.output;
      CommitRaises(w, a.results, b.results, a.ctl.frame, b.ctl.frame, a.ctl.node, output, None, exn);
    }
  }

  lemma {:induction false} ExecuteRaises(w: World, ex: Exec, hidden: set<string>, a: Thread, b: Thread, top: bool,
                                         exn: Exn)
    returns (write: Option<Row>)
    requires Twins(hidden, a, b, top) && a.ctl.Executing? && Finds(hidden, a.results, a.ctl.node)
    requires Unwinding(AtExecute(w, ex, b.results, b.ctl.frame, b.ctl.node).thread.ctl, exn)
    ensures RaisesWith(AtExecute(w, ex, a.results, a.ctl.frame, a.ctl.node), exn, write)
    ensures RaisesWith(AtExecute(w, ex, b.results, b.ctl.frame, b.ctl.node), exn, write)
  {
    hide Commit, Evaluate;
    var f, n := a.ctl.frame, a.ctl.node;
    SameInputs(w, ex, hidden, a.results, b.results, n, f.account, LoopCount(f, n));
    hide SameBut, Finds;
    var r := Evaluate(w, ex, a.results, n, f.account, LoopCount(f, n));
    write := None;
    if r.Produced? {
      write := Some(Completed(r.output));
      CommitRaises(w, a.results, b.results, f, b.ctl.frame, n, r.output, write, exn);
    }
  }

  lemma {:induction false} NextItemRaises(w: World, hidden: set<string>, a: Thread, b: Thread, va: View, vb: View,
                                          top: bool, exn: Exn)
    requires Twins(hidden, a, b, top) && a.ctl.Fanout? && Finished(a.ctl.body) && SameSight(va, vb)
    requires Unwinding(NextItem(w, b.results, b.ctl.frame, b.ctl.node, b.ctl.output, b.ctl.items, b.ctl.body,
                                vb).thread.ctl, exn)
    ensures RaisesWith(NextItem(w, a.results, a.ctl.frame, a.ctl.node, a.ctl.output, a.ctl.items, a.ctl.body, va), exn,
                       None)
    ensures RaisesWith(NextItem(w, b.results, b.ctl.frame, b.ctl.node, b.ctl.output, b.ctl.items, b.ctl.body, vb), exn,
                       None)
  {
    FanoutTwins(hidden, a, b, top);
    hide FanoutPort, Compose, SameBut, Alike;
  }

  lemma {:induction false} NoneRaised(hidden: set<string>, x: map<string, Thread>, y: map<string, Thread>)
    requires x.Keys == y.Keys && forall l | l in x :: Alike(hidden, x[l].ctl, y[l].ctl, false)
    ensures !AnyAborted(y)
  {
    forall l | l in y
      ensures !y[l].ctl.Raised?
    {
      assert Alike(hidden, x[l].ctl, y[l].ctl, false);
    }
  }

  lemma {:induction false} SameComplaint(w: World, n: IRNode, x: map<string, Thread>, y: map<string, Thread>)
    requires x.Keys == y.Keys && (forall l | l in y :: y[l].ctl.Done? && x[l].ctl == y[l].ctl)
    requires AllAtRest(x) && AllAtRest(y) && !AnyAborted(x) && !AnyAborted(y) && JoinIds(x) == JoinIds(y)
    ensures Complaint(w, n, x) == Complaint(w, n, y)
  {
    hide JoinIds;
    assert forall l :: l in x && x[l].ctl.last.None? <==> l in y && y[l].ctl.last.None?;
  }

  lemma {:induction false} JoinRaises(w: World, hidden: set<string>, a: Thread, b: Thread, top: bool, exn: Exn)
    requires Twins(hidden, a, b, top) && a.ctl.Fork? && b.ctl.Fork? && AllAtRest(b.ctl.branches)
    requires Unwinding(Join(w, b.results, b.ctl.frame, b.ctl.node, b.ctl.branches).thread.ctl, exn)
    ensures AllAtRest(a.ctl.branches)
    ensures RaisesWith(Join(w, a.results, a.ctl.frame, a.ctl.node, a.ctl.branches), exn, None)
    ensures RaisesWith(Join(w, b.results, b.ctl.frame, b.ctl.node, b.ctl.branches), exn, None)
  {
    ForkTwins(hidden, a, b, top);
    var x, y := a.ctl.branches, b.ctl.branches;
    NoneRaised(hidden, x, y);
    BranchesAtRest(hidden, x, y);
    SameComplaint(w, a.ctl.node, x, y);
    JoinComplains(w, a.results, a.ctl.frame, a.ctl.node, x);
    JoinComplains(w, b.results, b.ctl.frame, b.ctl.node, y);
    JoinIsSilent(w, a.results, a.ctl.frame, a.ctl.node, x);
    JoinIsSilent(w, b.results, b.ctl.frame, b.ctl.node, y);
    hide Join, Alike, SameBut, JoinIds, Complaint;
  }

  /** The point at which a walk raises is the point at which the walk beside it raises the same. */
  lemma {:induction false} RaiseAlike(w: World, ex: Exec, hidden: set<string>, a: Thread, b: Thread, va: View,
                                      vb: View, top: bool, exn: Exn)
    returns (write: Option<Row>)
    requires Twins(hidden, a, b, top) && FindsAt(hidden, a, []) && SameSight(va, vb) && vb.left
    requires Single(b.ctl) && Act(w, ex, b, vb, []).Some? && Unwinding(Act(w, ex, b, vb, []).value.thread.ctl, exn)
    ensures Act(w, ex, a, va, []).Some?
    ensures RaisesWith(Act(w, ex, a, va, []).value, exn, write) && RaisesWith(Act(w, ex, b, vb, []).value, exn, write)
    decreases a.ctl
  {
    hide AtHead, AtClaim, AtExecute, NextItem, Join, SameSight, SameBut;
    write := None;
    match a.ctl
    case Head(f, current) => HeadRaises(w, hidden, a, b, va, vb, top, exn);
    case Claiming(f, n) => ClaimRaises(w, hidden, a, b, va, vb, top, exn);
    case Executing(f, n) => write := ExecuteRaises(w, ex, hidden, a, b, top, exn);
    case Fanout(f, n, output, items, body) =>
      assert Alike(hidden, body, b.ctl.body, false);
      if Finished(body) {
        NextItemRaises(w, hidden, a, b, va, vb, top, exn);
      } else {
        write := RaiseAlike(w, ex, hidden, Thread(a.results, body), Thread(b.results, b.ctl.body), va, vb, false, exn);
      }
    case Fork(f, n, branches) => JoinRaises(w, hidden, a, b, top, exn);
    case Done(_, _) =>
  }
}
