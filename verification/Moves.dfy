/**
  One move of the machine, seen from outside. It changes the chain that moves and nothing else in the tree, and
  it does to that chain what a chain on its own would do.
*/
module Moves {
  import opened Base
  import opened JsonValues
  import opened Machine
  import opened Mirror

  /** The tree `t` with `y` in the place of the chain that moves at `p`; a body shares its results with the fan-out. */
  function Put(t: Thread, p: seq<string>, y: Thread): Thread
    decreases t.ctl
  {
    match t.ctl
    case Fanout(f, n, output, items, body) =>
      if Finished(body) then y
      else
        var inner := Put(Thread(t.results, body), p, y);
        Thread(inner.results, Fanout(f, n, output, items, inner.ctl))
    case Fork(f, n, branches) =>
      if p != [] && p[0] in branches then
        Thread(t.results, Fork(f, n, branches[p[0] := Put(branches[p[0]], p[1..], y)]))
      else y
    case _ => y
  }

  lemma {:induction false} ActIsLocal(w: World, ex: Exec, t: Thread, v: View, p: seq<string>)
    requires Act(w, ex, t, v, p).Some? && !ThreadAt(t, p).ctl.Raised?
    ensures KeyAt(t.ctl, p) == KeyAt(ThreadAt(t, p).ctl, [])
    ensures var m := Act(w, ex, ThreadAt(t, p), v, []);
      m.Some? && Act(w, ex, t, v, p).value == Move(Put(t, p, m.value.thread), m.value.effect)
    decreases t.ctl
  {
    hide AtHead, AtClaim, AtExecute, NextItem, Join;
    match t.ctl
    case Fanout(f, n, output, items, body) =>
      if !Finished(body) { ActIsLocal(w, ex, Thread(t.results, body), v, p); }
    case Fork(f, n, branches) =>
      if p != [] { ActIsLocal(w, ex, branches[p[0]], v, p[1..]); }
    case _ =>
  }

  /** The chain that moves at `p`, with the shared state around it. */
  function Mover(c: Config, p: seq<string>): Config {
    Config(ThreadAt(c.thread, p), c.shared)
  }

  /** A move at any depth is the move of a chain on its own, put back in its place; all other chains stay. */
  lemma {:induction false} MoveIsLocal(w: World, ex: Exec, c: Config, p: seq<string>) returns (y: Thread)
    requires Step(w, ex, c, p).Some? && !ThreadAt(c.thread, p).ctl.Raised?
    ensures Step(w, ex, Mover(c, p), []) == Some(Config(y, Step(w, ex, c, p).value.shared))
    ensures Step(w, ex, c, p).value.thread == Put(c.thread, p, y)
  {
    hide Act, KeyAt, ThreadAt, Put;
    var v := Look(c.shared, KeyAt(c.thread.ctl, p));
    ActIsLocal(w, ex, c.thread, v, p);
    y := Act(w, ex, ThreadAt(c.thread, p), v, []).value.thread;
  }

  /** Where the move of a branch that has raised something else than an abort goes: the exception takes the place of
      the fork around it, and nothing is written. */
  lemma {:induction false} RaisedBranchMoves(w: World, ex: Exec, t: Thread, v: View, p: seq<string>)
    requires Act(w, ex, t, v, p).Some? && ThreadAt(t, p).ctl.Raised?
    ensures p != [] && ThreadAt(t, p).ctl != Raised(Abort)
    ensures var fork := ThreadAt(t, p[..|p| - 1]);
      && fork.ctl.Fork? && p[|p| - 1] in fork.ctl.branches && fork.ctl.branches[p[|p| - 1]] == ThreadAt(t, p)
      && Act(w, ex, t, v, p).value
      == Move(Put(t, p[..|p| - 1], Thread(fork.results, ThreadAt(t, p).ctl)), SILENT)
    decreases t.ctl
  {
    hide AtHead, AtClaim, AtExecute, NextItem, Join;
    match t.ctl
    case Fanout(f, n, output, items, body) =>
      if !Finished(body) { RaisedBranchMoves(w, ex, Thread(t.results, body), v, p); }
    case Fork(f, n, branches) =>
      if branches[p[0]].ctl.Raised? {
        assert p[..|p| - 1] == [];
      } else {
        RaisedBranchMoves(w, ex, branches[p[0]], v, p[1..]);
        assert p[1..][..|p[1..]| - 1] == p[..|p| - 1][1..];
      }
    case _ =>
  }

  // ---------------------------------------------------------------- the loop head

  /** What a chain does that stands before `current`: it is over at its end, stops for a raised flag before anything
      else, fails at an unknown node, stops before a join if it is a branch, and otherwise pays for the visit; a visit
      counts, and a top-level chain writes the node into the run row. */
  ghost predicate Enters(w: World, f: Frame, current: Option<string>, sh: Shared, ctl: Control, after: Shared) {
    if current.None? then ctl == Done(f.last, None) && after == sh
    else if sh.abort then ctl == Done(f.last, current) && after == sh
    else if current.value !in w.nodes then ctl == Raised(Failed(current.value, "absent from FlowIR")) && after == sh
    else if f.stopAtJoin && w.nodes[current.value].nodeType == "logic.join" then
      ctl == Done(f.last, current) && after == sh
    else if sh.budget <= 0 then
      ctl == Raised(Failed(current.value, "max_steps_per_run exceeded")) && after == sh.(budget := sh.budget - 1)
    else
      && ctl.Claiming? && ctl.node == w.nodes[current.value]
      && Visits(ctl.frame, current.value) == Visits(f, current.value) + 1
      && (forall id: string | id != current.value :: Visits(ctl.frame, id) == Visits(f, id))
      && ctl.frame == f.(visits := ctl.frame.visits)
      && after == sh.(budget := sh.budget - 1, current := if f.top then current else sh.current)
  }

  /** In every state of every run, at any depth, a chain at its loop head does that and keeps its results. */
  lemma {:induction false} HeadMoves(w: World, ex: Exec, c: Config, p: seq<string>) returns (y: Thread)
    requires Step(w, ex, c, p).Some? && ThreadAt(c.thread, p).ctl.Head?
    ensures var x, d := ThreadAt(c.thread, p), Step(w, ex, c, p).value;
      d.thread == Put(c.thread, p, y) && y.results == x.results
      && Enters(w, x.ctl.frame, x.ctl.current, c.shared, y.ctl, d.shared)
  {
    hide ThreadAt, Put;
    y := MoveIsLocal(w, ex, c, p);
  }

  // ---------------------------------------------------------------- the join

  /** What is merged: the last output of each branch under its label, as one JSON text under "branches". */
  ghost predicate MergedOutput(c: Codec, branches: map<string, Thread>, output: Output) {
    exists parts: map<string, Json> ::
      && parts.Keys == branches.Keys && output == map["branches" := JStr(c.dumps(JObj(parts)))]
      && forall l | l in parts ::
           branches[l].ctl.Done? && branches[l].ctl.last.Some? && parts[l] == JObj(branches[l].ctl.last.value)
  }

  /** Some branch has stopped before `id`. */
  ghost predicate StoppedBefore(branches: map<string, Thread>, id: string) {
    exists l :: l in branches && branches[l].ctl.Done? && branches[l].ctl.stoppedAt == Some(id)
  }

  /** What a fork does whose branches are all at rest: an abort in one of them goes on up. Otherwise they must have
      stopped before one node, each with a result; that node must exist and gets the merged output as its result, and
      the chain goes on along its "next" edge. The results of the branches themselves are gone. */
  ghost predicate Joins(w: World, x: Thread, y: Thread)
    requires x.ctl.Fork?
  {
    var Fork(f, n, branches) := x.ctl;
    if exists l :: l in branches && branches[l].ctl == Raised(Abort) then y == Thread(x.results, Raised(Abort))
    else if (forall id: string :: !StoppedBefore(branches, id))
            || (exists a: string, b: string :: a != b && StoppedBefore(branches, a) && StoppedBefore(branches, b)) then
      y == Thread(x.results, Raised(Failed(n.id, "fork branches must converge on exactly one join node")))
    else if exists l :: l in branches && branches[l].ctl.Done? && branches[l].ctl.last.None? then
      y == Thread(x.results, Raised(Failed(n.id, "fork branch produced no result")))
    else
      exists id: string :: StoppedBefore(branches, id) &&
        if id !in w.nodes then y == Thread(x.results, Raised(Other))
        else
          && id in y.results && MergedOutput(w.codec, branches, y.results[id])
          && y.results == x.results[id := y.results[id]]
          && y.ctl == Head(f, if "next" in w.nodes[id].edges then Some(w.nodes[id].edges["next"]) else None)
  }

  lemma {:induction false} OneJoinId(branches: map<string, Thread>)
    requires AllAtRest(branches) && !AnyAborted(branches)
    ensures forall id: string :: id in JoinIds(branches) <==> StoppedBefore(branches, id)
    ensures |JoinIds(branches)| == 1 <==>
      !((forall id: string :: !StoppedBefore(branches, id))
        || (exists a: string, b: string :: a != b && StoppedBefore(branches, a) && StoppedBefore(branches, b)))
  {
    var ids := JoinIds(branches);
    if |ids| == 1 {
      var x := TheElement(ids);
      assert x in ids;
    } else if |ids| > 1 {
      var a :| a in ids;
      assert |ids - {a}| > 0;
      var b :| b in ids - {a};
      assert StoppedBefore(branches, a) && StoppedBefore(branches, b);
    }
  }

  lemma {:induction false} JoinMerges(c: Codec, branches: map<string, Thread>)
    requires forall l | l in branches :: branches[l].ctl.Done? && branches[l].ctl.last.Some?
    ensures MergedOutput(c, branches, JoinOutput(c, branches))
  {
    var parts := map l | l in branches :: JObj(branches[l].ctl.last.value);
    assert JoinOutput(c, branches) == map["branches" := JStr(c.dumps(JObj(parts)))];
  }

  /** In every state of every run, at any depth, a fork that joins does that, and writes nothing. */
  lemma {:induction false} ForkJoins(w: World, ex: Exec, c: Config, p: seq<string>) returns (y: Thread)
    requires Step(w, ex, c, p).Some? && ThreadAt(c.thread, p).ctl.Fork?
    ensures var x, d := ThreadAt(c.thread, p), Step(w, ex, c, p).value;
      d.thread == Put(c.thread, p, y) && Joins(w, x, y) && d.shared == c.shared
  {
    hide ThreadAt, Put;
    y := MoveIsLocal(w, ex, c, p);
    var x := ThreadAt(c.thread, p);
    var Fork(f, n, branches) := x.ctl;
    hide JoinIds, JoinOutput, Joins, MergedOutput, StoppedBefore;
    JoinIsSilent(w, x.results, f, n, branches);
    JoinIsMeant(w, x);
  }

  lemma {:induction false} JoinIsMeant(w: World, x: Thread)
    requires x.ctl.Fork? && AllAtRest(x.ctl.branches)
    ensures Joins(w, x, Join(w, x.results, x.ctl.frame, x.ctl.node, x.ctl.branches).thread)
  {
    hide JoinIds, JoinOutput, MergedOutput, StoppedBefore;
    var Fork(f, n, branches) := x.ctl;
    if AnyAborted(branches) {
      AbortedJoin(w, x.results, f, n, branches);
      hide Join;
    } else {
      OneJoinId(branches);
      if |JoinIds(branches)| == 1 {
        var id := TheElement(JoinIds(branches));
        assert StoppedBefore(branches, id);
        if forall l | l in branches :: branches[l].ctl.last.Some? { JoinMerges(w.codec, branches); }
      }
    }
  }
}
