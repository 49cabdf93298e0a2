/** Step rows over a run of one executor: a row, once completed, never changes again. */
module Rows {
  import opened Base
  import opened JsonValues
  import opened Ir
  import opened IterationKeys
  import opened Machine
  import opened Budget
  import opened Confluence
  import opened Schedules

  /** The thread at path `p` is between `claim_step` and `complete_step`. */
  predicate ExecutesAt(c: Control, p: seq<string>) {
    ChainAt(c, p).Executing? && KeyAt(c, p).Some?
  }

  /** Every node being executed has its row, and the row is RUNNING. */
  ghost predicate Owned(c: Config) {
    forall p | ExecutesAt(c.thread.ctl, p) :: Lookup(c.shared.table, KeyAt(c.thread.ctl, p).value) == Some(Running)
  }

  lemma {:induction false} NothingExecutes(c: Control, p: seq<string>)
    requires c.Head? || c.Done? || c.Raised? || c.Claiming?
          || (c.Fanout? && (c.body.Head? || c.body.Done?))
          || (c.Fork? && forall l | l in c.branches :: c.branches[l].ctl.Head?)
    ensures !ExecutesAt(c, p)
  {
    if c.Fork? && p != [] && p[0] in c.branches {
      assert ChainAt(c.branches[p[0]].ctl, p[1..]).Head?;
    } else if c.Fanout? {
      assert ChainAt(c.body, p) == c.body;
    }
  }

  /** Where a node is executed after a move: where it was before, or where the move has just claimed it. */
  lemma {:induction false} ExecutionOrigin(w: World, ex: Exec, t: Thread, v: View, q: seq<string>, p: seq<string>)
    requires Act(w, ex, t, v, q).Some? && ExecutesAt(Act(w, ex, t, v, q).value.thread.ctl, p)
    ensures KeyAt(t.ctl, p) == KeyAt(Act(w, ex, t, v, q).value.thread.ctl, p)
    ensures p != q ==> ExecutesAt(t.ctl, p)
    ensures p == q ==> var write := Act(w, ex, t, v, q).value.effect.write;
                       write == Some(Running) || (write.None? && v.row == Some(Running))
    decreases t.ctl
  {
    hide AtHead, Evaluate, Route, NextItem, Join;
    var m := Act(w, ex, t, v, q).value;
    match t.ctl
    case Head(f, current) => HeadShape(w, t.results, f, current, v); NothingExecutes(m.thread.ctl, p);
    case Claiming(f, n) =>
      if v.row.Some? && v.row.value.Completed? {
        var output := v.row.value.output;
        RouteShape(w, f.(last := Some(output)), n, t.results[n.id := output], output);
        NothingExecutes(m.thread.ctl, p);
      }
    case Executing(f, n) =>
      var r := Evaluate(w, ex, t.results, n, f.account, LoopCount(f, n));
      if r.Produced? {
        RouteShape(w, f.(last := Some(r.output)), n, t.results[n.id := r.output], r.output);
        NothingExecutes(m.thread.ctl, p);
      }
    case Fanout(f, n, output, items, body) =>
      if Finished(body) {
        NextItemShape(w, t.results, f, n, output, items, body, v);
        NothingExecutes(m.thread.ctl, p);
      } else {
        var mb := Act(w, ex, Thread(t.results, body), v, q).value;
        if Finished(mb.thread.ctl) { NothingExecutes(mb.thread.ctl, p); }
        ExecutionOrigin(w, ex, Thread(t.results, body), v, q, p);
      }
    case Fork(f, n, branches) =>
      if q == [] {
        JoinShape(w, t.results, f, n, branches);
        NothingExecutes(m.thread.ctl, p);
      } else if !branches[q[0]].ctl.Raised? && p[0] == q[0] {
        ExecutionOrigin(w, ex, branches[q[0]], v, q[1..], p[1..]);
      }
    case _ =>
  }

  lemma {:induction false} HeadShape(w: World, results: Results, f: Frame, current: Option<string>, v: View)
    ensures var c := AtHead(w, results, f, current, v).thread.ctl; c.Done? || c.Raised? || c.Claiming?
  {
  }

  lemma {:induction false} RouteShape(w: World, f: Frame, n: IRNode, results: Results, output: Output)
    ensures var c := Route(w, f, n, results, output);
            c.Head? || c.Raised? || (c.Fanout? && c.body.Done?)
            || (c.Fork? && forall l | l in c.branches :: c.branches[l].ctl.Head?)
  {
  }

  lemma {:induction false} NextItemShape(w: World, results: Results, f: Frame, n: IRNode, output: Output,
                                         items: seq<Json>, body: Control, v: View)
    requires Finished(body)
    ensures var c := NextItem(w, results, f, n, output, items, body, v).thread.ctl;
            (c.Head? && c.frame == f) || c.Raised? || (c.Fanout? && c.frame == f && c.body.Head? && !c.body.frame.top)
  {
    hide Compose, FanoutPort;
  }

  /** Only an insert writes RUNNING, and only the thread executing a node writes its result. */
  lemma {:induction false} WriteKinds(w: World, ex: Exec, t: Thread, v: View, p: seq<string>)
    requires Act(w, ex, t, v, p).Some? && Act(w, ex, t, v, p).value.effect.write.Some?
    ensures KeyAt(t.ctl, p).Some?
    ensures Act(w, ex, t, v, p).value.effect.write.value.Running? ==> v.row.None?
    ensures Act(w, ex, t, v, p).value.effect.write.value.Completed? ==> ExecutesAt(t.ctl, p)
    decreases t.ctl
  {
    hide AtHead, Evaluate, Route, NextItem, Join;
    match t.ctl
    case Head(f, current) => HeadWritesNothing(w, t.results, f, current, v);
    case Fanout(f, n, output, items, body) =>
      if Finished(body) {
        NextItemIsSilent(w, t.results, f, n, output, items, body, v);
      } else {
        WriteKinds(w, ex, Thread(t.results, body), v, p);
      }
    case Fork(f, n, branches) =>
      if p == [] {
        JoinIsSilent(w, t.results, f, n, branches);
      } else if !branches[p[0]].ctl.Raised? {
        WriteKinds(w, ex, branches[p[0]], v, p[1..]);
      }
    case _ =>
  }

  /** `later` has every row of `earlier`, with the same result where it was completed. */
  ghost predicate Grows(earlier: map<StepKey, Row>, later: map<StepKey, Row>) {
    forall k | k in earlier :: k in later && (earlier[k].Completed? ==> later[k] == earlier[k])
  }

  lemma {:induction false} StepOwned(w: World, ex: Exec, c: Config, q: seq<string>)
    requires Separate(c.thread.ctl) && Owned(c) && Step(w, ex, c, q).Some?
    ensures Owned(Step(w, ex, c, q).value)
    ensures Grows(c.shared.table, Step(w, ex, c, q).value.shared.table)
  {
    hide Act, KeyAt, Separate, ChainAt;
    var k := KeyAt(c.thread.ctl, q);
    var v := Look(c.shared, k);
    var m := Act(w, ex, c.thread, v, q).value;
    var c' := Step(w, ex, c, q).value;
    if m.effect.write.Some? { WriteKinds(w, ex, c.thread, v, q); }
    forall p | ExecutesAt(c'.thread.ctl, p)
      ensures Lookup(c'.shared.table, KeyAt(c'.thread.ctl, p).value) == Some(Running)
    {
      ExecutionOrigin(w, ex, c.thread, v, q, p);
      if p != q && k.Some? { KeysDiffer(c.thread.ctl, p, q); }
    }
  }

  lemma {:induction false} RunGrows(w: World, ex: Exec, c: Config, s: seq<seq<string>>)
    requires PlainWorld(w) && Separate(c.thread.ctl) && Owned(c) && Run(w, ex, c, s).Some?
    ensures Grows(c.shared.table, Run(w, ex, c, s).value.shared.table)
    decreases |s|
  {
    hide Step, Owned, Separate;
    if s != [] {
      StepOwned(w, ex, c, s[0]);
      StepSeparate(w, ex, c, s[0]);
      RunGrows(w, ex, Step(w, ex, c, s[0]).value, s[1..]);
    }
  }

  /** Claiming a fresh row and executing the node leads where finding the row completed leads. */
  lemma {:induction false} ClaimThenExecute(w: World, ex: Exec, t: Thread, v: View, v': View, p: seq<string>)
    requires ChainAt(t.ctl, p).Claiming? && KeyAt(t.ctl, p).Some? && v.row in {None, Some(Running)}
    requires Act(w, ex, t, v, p).Some? && Sound(Act(w, ex, t, v, p).value.thread.ctl)
    ensures var m := Act(w, ex, t, v, p).value;
            && ExecutesAt(m.thread.ctl, p) && KeyAt(m.thread.ctl, p) == KeyAt(t.ctl, p)
            && Act(w, ex, m.thread, v', p).Some? && !m.effect.cost
            && (Sound(Act(w, ex, m.thread, v', p).value.thread.ctl) ==>
                Act(w, ex, m.thread, v', p).value.effect.write.Some?)
            && (Act(w, ex, m.thread, v', p).value.effect.write.Some? ==>
                  var m' := Act(w, ex, m.thread, v', p).value;
                  && m'.effect.write.value.Completed? && !m'.effect.cost
                  && var hit := Act(w, ex, t, v.(row := m'.effect.write), p);
                     hit.Some? && hit.value.thread == m'.thread && !hit.value.effect.cost
                         && hit.value.effect.write.None?
                     && hit.value.effect.touch.None? && hit.value.effect.abort == m'.effect.abort)
    decreases t.ctl
  {
    hide AtHead, Evaluate, Route, NextItem, Join;
    match t.ctl
    case Fanout(f, n, output, items, body) =>
      ClaimThenExecute(w, ex, Thread(t.results, body), v, v', p);
    case Fork(f, n, branches) =>
      SoundBefore(w, ex, t, v, p);
      InBranch(w, ex, t, v, p);
      var m := Act(w, ex, branches[p[0]], v, p[1..]).value;
      assert branches[p[0] := m.thread][p[0]] == m.thread;
      ClaimThenExecute(w, ex, branches[p[0]], v, v', p[1..]);
      var m' := Act(w, ex, m.thread, v', p[1..]).value;
      assert branches[p[0] := m.thread][p[0] := m'.thread] == branches[p[0] := m'.thread];
      assert branches[p[0] := m'.thread][p[0]] == m'.thread;
    case _ =>
  }
}
