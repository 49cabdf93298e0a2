/**
  A stop condition that aborts inside a fork. The flag it raises lets no branch at any depth enter another
  node, takes nothing away from the nodes already entered, and, where forks do not nest, ends the run as a
  completed one.
*/
module AbortDrain {
  import opened Base
  import opened Ir
  import opened IterationKeys
  import opened Machine
  import opened Budget
  import Lifting

  // ---------------------------------------------------------------- nothing new is entered

  lemma {:induction false} NoVisitUnderFlag(w: World, ex: Exec, t: Thread, v: View, p: seq<string>)
    requires Act(w, ex, t, v, p).Some? && v.abort && ChainAt(t.ctl, p).Head?
    ensures !ChainAt(Act(w, ex, t, v, p).value.thread.ctl, p).Claiming?
    decreases t.ctl
  {
    hide AtClaim, AtExecute, NextItem, Join;
    match t.ctl
    case Fanout(f, n, output, items, body) =>
      NoVisitUnderFlag(w, ex, Thread(t.results, body), v, p);
    case Fork(f, n, branches) =>
      if p != [] && !branches[p[0]].ctl.Raised? {
        NoVisitUnderFlag(w, ex, branches[p[0]], v, p[1..]);
      }
    case _ =>
  }

  /** Once the flag is up, the rest of the run visits no node at all, in any branch at any depth. */
  lemma {:induction false} AbortAdmitsNothing(w: World, c: Config, s: seq<Choice>)
    requires c.shared.abort && RunAny(w, c, s).Some?
    ensures VisitCount(w, c, s) == 0 && RunAny(w, c, s).value.shared.abort
    decreases |s|
  {
    hide Act, KeyAt;
    if s != [] {
      var c' := Move1(w, c, s[0]).value;
      if ChainAt(c.thread.ctl, s[0].path).Head? {
        NoVisitUnderFlag(w, s[0].ex, c.thread, Look(c.shared, KeyAt(c.thread.ctl, s[0].path)), s[0].path);
      }
      AbortAdmitsNothing(w, c', s[1..]);
    }
  }

  // ---------------------------------------------------------------- what was entered commits

  /** The step rows of the nodes that have been entered and have not committed yet. */
  ghost function Entered(c: Control): set<StepKey>
    decreases c
  {
    match c
    case Claiming(f, n) => {(n.id, RowKey(f.key, Visits(f, n.id)))}
    case Executing(f, n) => {(n.id, RowKey(f.key, Visits(f, n.id)))}
    case Fanout(_, _, _, _, body) => Entered(body)
    case Fork(_, _, branches) => set l, k | l in branches && k in Entered(branches[l].ctl) :: k
    case _ => {}
  }

  /** No RunFailed, and no exception from outside the engine, anywhere in the tree. */
  ghost predicate FailureFree(c: Control)
    decreases c
  {
    match c
    case Raised(exn) => exn == Abort
    case Fanout(_, _, _, _, body) => FailureFree(body)
    case Fork(_, _, branches) => forall l | l in branches :: FailureFree(branches[l].ctl)
    case _ => true
  }

  predicate Committed(table: map<StepKey, Row>, k: StepKey) {
    k in table && table[k].Completed?
  }

  /** The move leaves entered nodes entered, except that it may commit the one it is at. */
  ghost predicate Keeps(c: Control, k: Option<StepKey>, v: View, m: Move) {
    forall e | e in Entered(c) ::
      e in Entered(m.thread.ctl)
      || (k == Some(e) && if m.effect.write.Some? then m.effect.write.value.Completed?
                          else v.row.Some? && v.row.value.Completed?)
  }

  lemma {:induction false} KeepsFromBranch(results: Results, f: Frame, n: IRNode, branches: map<string, Thread>,
                                           l: string, k: Option<StepKey>, v: View, m: Move)
    requires l in branches && Keeps(branches[l].ctl, k, v, m)
    ensures Keeps(Fork(f, n, branches), k, v, InFork(results, f, n, branches, l, m))
  {
    var branches' := branches[l := m.thread];
    forall e | e in Entered(Fork(f, n, branches)) && e !in Entered(Fork(f, n, branches'))
      ensures e in Entered(branches[l].ctl) && e !in Entered(m.thread.ctl)
    {
      var x :| x in branches && e in Entered(branches[x].ctl);
      assert x in branches' && e !in Entered(branches'[x].ctl);
      assert branches'[l] == m.thread;
    }
  }

  lemma {:induction false} MoveKeepsEntered(w: World, ex: Exec, t: Thread, v: View, p: seq<string>)
    requires Act(w, ex, t, v, p).Some? && FailureFree(Act(w, ex, t, v, p).value.thread.ctl)
    ensures Keeps(t.ctl, KeyAt(t.ctl, p), v, Act(w, ex, t, v, p).value)
    decreases t.ctl
  {
    hide AtHead, Evaluate, Route, NextItem, Join;
    match t.ctl
    case Fanout(f, n, output, items, body) =>
      if !Finished(body) {
        MoveKeepsEntered(w, ex, Thread(t.results, body), v, p);
      } else {
        assert Entered(body) == {};
      }
    case Fork(f, n, branches) =>
      if p == [] {
        assert forall l | l in branches :: Entered(branches[l].ctl) == {};
      } else if !branches[p[0]].ctl.Raised? {
        var m := Act(w, ex, branches[p[0]], v, p[1..]).value;
        var branches' := branches[p[0] := m.thread];
        assert FailureFree(branches'[p[0]].ctl);
        MoveKeepsEntered(w, ex, branches[p[0]], v, p[1..]);
        KeepsFromBranch(t.results, f, n, branches, p[0], KeyAt(t.ctl, p), v, m);
      }
    case _ =>
  }

  lemma {:induction false} WritesKeepCommits(w: World, ex: Exec, t: Thread, v: View, p: seq<string>)
    requires Act(w, ex, t, v, p).Some?
    ensures var write := Act(w, ex, t, v, p).value.effect.write;
            write == Some(Running) ==> v.row.None?
    decreases t.ctl
  {
    hide AtHead, Evaluate, Route, NextItem, Join;
    match t.ctl
    case Head(f, current) => HeadWritesNothing(w, t.results, f, current, v);
    case Fanout(f, n, output, items, body) =>
      if !Finished(body) {
        WritesKeepCommits(w, ex, Thread(t.results, body), v, p);
      } else {
        NextItemIsSilent(w, t.results, f, n, output, items, body, v);
      }
    case Fork(f, n, branches) =>
      if p == [] {
        JoinIsSilent(w, t.results, f, n, branches);
      } else if !branches[p[0]].ctl.Raised? {
        WritesKeepCommits(w, ex, branches[p[0]], v, p[1..]);
      }
    case _ =>
  }

  lemma {:induction false} StepKeepsEntered(w: World, c: Config, choice: Choice, k: StepKey)
    requires Move1(w, c, choice).Some? && FailureFree(Move1(w, c, choice).value.thread.ctl)
    requires k in Entered(c.thread.ctl) || Committed(c.shared.table, k)
    ensures var c' := Move1(w, c, choice).value;
            k in Entered(c'.thread.ctl) || Committed(c'.shared.table, k)
  {
    hide Act, KeyAt, Entered;
    var key := KeyAt(c.thread.ctl, choice.path);
    MoveKeepsEntered(w, choice.ex, c.thread, Look(c.shared, key), choice.path);
    WritesKeepCommits(w, choice.ex, c.thread, Look(c.shared, key), choice.path);
    MoveTouchesItsKey(w, choice.ex, c.thread, Look(c.shared, key), choice.path);
  }

  lemma {:induction false} MoveTouchesItsKey(w: World, ex: Exec, t: Thread, v: View, p: seq<string>)
    requires Act(w, ex, t, v, p).Some?
    ensures Act(w, ex, t, v, p).value.effect.write.Some? ==> KeyAt(t.ctl, p).Some?
    decreases t.ctl
  {
    hide AtHead, Evaluate, Route, NextItem, Join;
    match t.ctl
    case Head(f, current) => HeadWritesNothing(w, t.results, f, current, v);
    case Fanout(f, n, output, items, body) =>
      if !Finished(body) {
        MoveTouchesItsKey(w, ex, Thread(t.results, body), v, p);
      } else {
        NextItemIsSilent(w, t.results, f, n, output, items, body, v);
      }
    case Fork(f, n, branches) =>
      if p == [] {
        JoinIsSilent(w, t.results, f, n, branches);
      } else if !branches[p[0]].ctl.Raised? {
        MoveTouchesItsKey(w, ex, branches[p[0]], v, p[1..]);
      }
    case _ =>
  }

  lemma {:induction false} FailuresStay(w: World, ex: Exec, t: Thread, v: View, p: seq<string>)
    requires Act(w, ex, t, v, p).Some? && FailureFree(Act(w, ex, t, v, p).value.thread.ctl)
    ensures FailureFree(t.ctl)
    decreases t.ctl
  {
    hide AtHead, AtClaim, AtExecute, JoinOutput;
    match t.ctl
    case Fanout(f, n, output, items, body) =>
      if !Finished(body) {
        FailuresStay(w, ex, Thread(t.results, body), v, p);
      }
    case Fork(f, n, branches) =>
      if p != [] && !branches[p[0]].ctl.Raised? {
        var m := Act(w, ex, branches[p[0]], v, p[1..]).value;
        var branches' := branches[p[0] := m.thread];
        assert FailureFree(branches'[p[0]].ctl);
        FailuresStay(w, ex, branches[p[0]], v, p[1..]);
        assert forall l | l in branches && l != p[0] :: branches'[l] == branches[l];
      }
    case _ =>
  }

  lemma {:induction false} FailureFreeAtStart(w: World, c: Config, s: seq<Choice>)
    requires RunAny(w, c, s).Some? && FailureFree(RunAny(w, c, s).value.thread.ctl)
    ensures FailureFree(c.thread.ctl)
    decreases |s|
  {
    hide Act, KeyAt;
    if s != [] {
      FailureFreeAtStart(w, Move1(w, c, s[0]).value, s[1..]);
      FailuresStay(w, s[0].ex, c.thread, Look(c.shared, KeyAt(c.thread.ctl, s[0].path)), s[0].path);
    }
  }

  /** Every node entered at any moment of a run commits its step by the end, unless the run fails. */
  lemma {:induction false} EnteredNodesCommit(w: World, c: Config, s: seq<Choice>, k: StepKey)
    requires RunAny(w, c, s).Some?
    requires FailureFree(RunAny(w, c, s).value.thread.ctl) && Finished(RunAny(w, c, s).value.thread.ctl)
    requires k in Entered(c.thread.ctl) || Committed(c.shared.table, k)
    ensures Committed(RunAny(w, c, s).value.shared.table, k)
    decreases |s|
  {
    hide Act, KeyAt;
    if s != [] {
      var c' := Move1(w, c, s[0]).value;
      FailureFreeAtStart(w, c', s[1..]);
      StepKeepsEntered(w, c, s[0], k);
      EnteredNodesCommit(w, c', s[1..], k);
    }
  }

  // ---------------------------------------------------------------- the run ends as a completed one

  /** An _AbortRun is on its way up from somewhere in the tree. */
  ghost predicate Aborting(c: Control)
    decreases c
  {
    match c
    case Raised(exn) => exn == Abort
    case Fanout(_, _, _, _, body) => Aborting(body)
    case Fork(_, _, branches) => exists l :: l in branches && Aborting(branches[l].ctl)
    case _ => false
  }

  predicate ForkFree(c: Control)
    decreases c
  {
    match c
    case Fanout(_, _, _, _, body) => ForkFree(body)
    case Fork(_, _, _) => false
    case _ => true
  }

  /** No fork runs inside another. */
  predicate Flat(c: Control)
    decreases c
  {
    match c
    case Fanout(_, _, _, _, body) => Flat(body)
    case Fork(_, _, branches) => forall l | l in branches :: ForkFree(branches[l].ctl)
    case _ => true
  }

  /** The move fails only if it is the join of a fork that has come to rest. */
  ghost predicate OnlyJoinsFail(c: Control, p: seq<string>, c': Control) {
    FailureFree(c') || (ChainAt(c, p).Fork? && AllAtRest(ChainAt(c, p).branches))
  }

  lemma {:induction false} NoForkToJoin(c: Control, p: seq<string>)
    requires ForkFree(c)
    ensures !ChainAt(c, p).Fork? && Flat(c)
    decreases c
  {
    match c
    case Fanout(_, _, _, _, body) => NoForkToJoin(body, p);
    case _ =>
  }

  /** Under the flag an abort keeps travelling up, and a join above it cannot fail. */
  lemma {:induction false} AbortTravelsUp(w: World, ex: Exec, t: Thread, v: View, p: seq<string>)
    requires Act(w, ex, t, v, p).Some? && FailureFree(t.ctl) && Flat(t.ctl) && Aborting(t.ctl)
    requires OnlyJoinsFail(t.ctl, p, Act(w, ex, t, v, p).value.thread.ctl)
    ensures FailureFree(Act(w, ex, t, v, p).value.thread.ctl) && Aborting(Act(w, ex, t, v, p).value.thread.ctl)
    decreases t.ctl
  {
    hide AtHead, AtClaim, AtExecute, JoinOutput, JoinIds;
    match t.ctl
    case Fanout(f, n, output, items, body) =>
      if !Finished(body) {
        AbortTravelsUp(w, ex, Thread(t.results, body), v, p);
      }
    case Fork(f, n, branches) =>
      if p != [] {
        AbortInFork(w, ex, t, v, p);
      } else {
        var l :| l in branches && Aborting(branches[l].ctl);
        assert branches[l].ctl.Raised?;
      }
    case _ =>
  }

  lemma {:induction false} AbortInFork(w: World, ex: Exec, t: Thread, v: View, p: seq<string>)
    requires t.ctl.Fork? && p != [] && Act(w, ex, t, v, p).Some?
    requires FailureFree(t.ctl) && Flat(t.ctl) && Aborting(t.ctl)
    requires OnlyJoinsFail(t.ctl, p, Act(w, ex, t, v, p).value.thread.ctl)
    ensures FailureFree(Act(w, ex, t, v, p).value.thread.ctl) && Aborting(Act(w, ex, t, v, p).value.thread.ctl)
    decreases t.ctl, 0
  {
    hide AtHead, AtClaim, AtExecute, NextItem, Join;
    var branches := t.ctl.branches;
    var b := branches[p[0]];
    NoForkToJoin(b.ctl, p[1..]);
    assert FailureFree(b.ctl);
    var m := Act(w, ex, b, v, p[1..]).value;
    var branches' := branches[p[0] := m.thread];
    assert FailureFree(branches'[p[0]].ctl);
    var l :| l in branches && Aborting(branches[l].ctl);
    if l == p[0] {
      AbortTravelsUp(w, ex, b, v, p[1..]);
    }
    assert Aborting(branches'[l].ctl);
  }

  /** The move that raises the flag leaves an abort travelling up. */
  lemma {:induction false} FlagComesWithAbort(w: World, ex: Exec, t: Thread, v: View, p: seq<string>)
    requires Act(w, ex, t, v, p).Some? && Act(w, ex, t, v, p).value.effect.abort
    ensures Aborting(Act(w, ex, t, v, p).value.thread.ctl)
    decreases t.ctl
  {
    hide Evaluate, Route, NextItem, Join;
    match t.ctl
    case Fanout(f, n, output, items, body) =>
      if !Finished(body) {
        FlagComesWithAbort(w, ex, Thread(t.results, body), v, p);
      } else {
        NextItemIsSilent(w, t.results, f, n, output, items, body, v);
      }
    case Fork(f, n, branches) =>
      if p == [] {
        JoinIsSilent(w, t.results, f, n, branches);
      } else if !branches[p[0]].ctl.Raised? {
        FlagComesWithAbort(w, ex, branches[p[0]], v, p[1..]);
        assert Aborting(branches[p[0] := Act(w, ex, branches[p[0]], v, p[1..]).value.thread][p[0]].ctl);
      }
    case _ =>
  }

  /** A run without nested forks in which nothing but joins may fail. */
  ghost predicate Undisturbed(w: World, c: Config, s: seq<Choice>)
    decreases |s|
  {
    && Flat(c.thread.ctl)
    && (s == [] ||
        (&& Move1(w, c, s[0]).Some?
         && OnlyJoinsFail(c.thread.ctl, s[0].path, Move1(w, c, s[0]).value.thread.ctl)
         && Undisturbed(w, Move1(w, c, s[0]).value, s[1..])))
  }

  /** After an abort, and absent a failing node, the run can only end by the abort itself. */
  lemma {:induction false} AbortedRunEndsInAbort(w: World, c: Config, s: seq<Choice>)
    requires FailureFree(c.thread.ctl) && Aborting(c.thread.ctl) && Undisturbed(w, c, s)
    ensures RunAny(w, c, s).Some?
    ensures var end := RunAny(w, c, s).value.thread.ctl;
            FailureFree(end) && Aborting(end) && (Finished(end) ==> end == Raised(Abort))
    decreases |s|
  {
    hide Act, KeyAt, Flat;
    if s != [] {
      AbortTravelsUp(w, s[0].ex, c.thread, Look(c.shared, KeyAt(c.thread.ctl, s[0].path)), s[0].path);
      AbortedRunEndsInAbort(w, Move1(w, c, s[0]).value, s[1..]);
    }
  }

  /**
    A stop inside a fork drains it. From the move that raises the flag on, in any interleaving in which no node
    fails and no fork nests: no branch at any depth enters a node, every node already entered commits its step,
    and the run can only end by the abort, which marks it completed.
  */
  lemma {:induction false} AbortDrainsTheRun(w: World, c: Config, stop: Choice, s: seq<Choice>)
    requires Move1(w, c, stop).Some? && FailureFree(Move1(w, c, stop).value.thread.ctl)
    requires var k := KeyAt(c.thread.ctl, stop.path);
             Act(w, stop.ex, c.thread, Look(c.shared, k), stop.path).value.effect.abort
    requires Undisturbed(w, Move1(w, c, stop).value, s)
    ensures RunAny(w, Move1(w, c, stop).value, s).Some?
    ensures var c' := Move1(w, c, stop).value;
            var end := RunAny(w, c', s).value;
            && VisitCount(w, c', s) == 0
            && (Finished(end.thread.ctl) ==>
                 && end.thread.ctl == Raised(Abort)
                 && forall k | k in Entered(c.thread.ctl) :: Committed(end.shared.table, k))
  {
    hide Act, KeyAt, Undisturbed, Entered;
    var c' := Move1(w, c, stop).value;
    FlagComesWithAbort(w, stop.ex, c.thread, Look(c.shared, KeyAt(c.thread.ctl, stop.path)), stop.path);
    AbortedRunEndsInAbort(w, c', s);
    AbortAdmitsNothing(w, c', s);
    var end := RunAny(w, c', s).value;
    if Finished(end.thread.ctl) {
      forall k | k in Entered(c.thread.ctl)
        ensures Committed(end.shared.table, k)
      {
        StepKeepsEntered(w, c, stop, k);
        EnteredNodesCommit(w, c', s, k);
      }
    }
  }

  /** A move that fails nothing lets no abort disappear, however forks nest. */
  lemma {:induction false} AbortPersists(w: World, ex: Exec, t: Thread, v: View, p: seq<string>)
    requires Act(w, ex, t, v, p).Some? && Aborting(t.ctl) && FailureFree(Act(w, ex, t, v, p).value.thread.ctl)
    ensures Aborting(Act(w, ex, t, v, p).value.thread.ctl)
    decreases t.ctl
  {
    hide AtHead, AtClaim, AtExecute, JoinOutput, JoinIds;
    match t.ctl
    case Fanout(f, n, output, items, body) =>
      if !Finished(body) {
        AbortPersists(w, ex, Thread(t.results, body), v, p);
      }
    case Fork(f, n, branches) =>
      var l :| l in branches && Aborting(branches[l].ctl);
      if p == [] {
        assert branches[l].ctl.Raised?;
      } else if !branches[p[0]].ctl.Raised? {
        var m := Act(w, ex, branches[p[0]], v, p[1..]).value;
        assert FailureFree(branches[p[0] := m.thread][p[0]].ctl);
        if l == p[0] { AbortPersists(w, ex, branches[l], v, p[1..]); }
        assert Aborting(branches[p[0] := m.thread][l].ctl);
      }
    case _ =>
  }

  /** An aborted run that ends, ends by the abort if and only if nothing failed on the way, however forks nest. */
  lemma {:induction false} AbortOrFailure(w: World, c: Config, s: seq<Choice>)
    requires Aborting(c.thread.ctl) && RunAny(w, c, s).Some? && Finished(RunAny(w, c, s).value.thread.ctl)
    ensures var end := RunAny(w, c, s).value.thread.ctl;
            end == Raised(Abort) <==> FailureFree(end)
    decreases |s|
  {
    hide Act, KeyAt;
    if s != [] && FailureFree(RunAny(w, c, s).value.thread.ctl) {
      var c' := Move1(w, c, s[0]).value;
      FailureFreeAtStart(w, c', s[1..]);
      AbortPersists(w, s[0].ex, c.thread, Look(c.shared, KeyAt(c.thread.ctl, s[0].path)), s[0].path);
      AbortOrFailure(w, c', s[1..]);
    }
  }

  // ---------------------------------------------------------------- when an aborted run completes

  /** The move at path `p` joins a fork that has come to rest without an abort of its own, and whose branches did
      not all produce something and stop before one common join that exists. */
  ghost predicate BadJoin(w: World, c: Control, p: seq<string>) {
    var chain := ChainAt(c, p);
    chain.Fork? && AllAtRest(chain.branches) && !AnyAborted(chain.branches)
        && Complaint(w, chain.node, chain.branches).Some?
  }

  lemma {:induction false} BadJoinFails(w: World, ex: Exec, t: Thread, v: View, p: seq<string>)
    requires Act(w, ex, t, v, p).Some? && BadJoin(w, t.ctl, p)
    ensures !FailureFree(Act(w, ex, t, v, p).value.thread.ctl)
    decreases t.ctl
  {
    hide AtHead, AtClaim, AtExecute, NextItem, Join, Complaint;
    match t.ctl
    case Fanout(f, n, output, items, body) =>
      if !Finished(body) { BadJoinFails(w, ex, Thread(t.results, body), v, p); }
    case Fork(f, n, branches) =>
      if p == [] {
        JoinComplains(w, t.results, f, n, branches);
        ComplaintIsNoAbort(w, n, branches);
      } else if !branches[p[0]].ctl.Raised? {
        BadJoinFails(w, ex, branches[p[0]], v, p[1..]);
        var m := Act(w, ex, branches[p[0]], v, p[1..]).value;
        assert branches[p[0] := m.thread][p[0]] == m.thread;
      }
    case _ =>
  }

  lemma {:induction false} ComplaintIsNoAbort(w: World, n: IRNode, branches: map<string, Thread>)
    requires AllAtRest(branches) && !AnyAborted(branches)
    ensures Complaint(w, n, branches) != Some(Abort)
  {
    hide JoinIds;
  }

  lemma {:induction false} GoodJoin(w: World, ex: Exec, t: Thread, v: View, p: seq<string>)
    requires Act(w, ex, t, v, p).Some? && FailureFree(t.ctl)
    requires ChainAt(t.ctl, p).Fork? && AllAtRest(ChainAt(t.ctl, p).branches) && !BadJoin(w, t.ctl, p)
    ensures FailureFree(Act(w, ex, t, v, p).value.thread.ctl)
    decreases t.ctl
  {
    hide AtHead, AtClaim, AtExecute, NextItem, Join, Complaint;
    match t.ctl
    case Fanout(f, n, output, items, body) =>
      if !Finished(body) { GoodJoin(w, ex, Thread(t.results, body), v, p); }
    case Fork(f, n, branches) =>
      if p == [] {
        if AnyAborted(branches) {
          AbortedJoin(w, t.results, f, n, branches);
        } else {
          JoinComplains(w, t.results, f, n, branches);
        }
      } else if !branches[p[0]].ctl.Raised? {
        assert FailureFree(branches[p[0]].ctl);
        GoodJoin(w, ex, branches[p[0]], v, p[1..]);
      }
    case _ =>
  }

  /** No node fails: as long as nothing has failed, nothing but a join may. */
  ghost predicate NoNodeFails(w: World, c: Config, s: seq<Choice>)
    decreases |s|
  {
    s == [] ||
    (&& Move1(w, c, s[0]).Some?
     && (FailureFree(c.thread.ctl) ==> OnlyJoinsFail(c.thread.ctl, s[0].path, Move1(w, c, s[0]).value.thread.ctl))
     && NoNodeFails(w, Move1(w, c, s[0]).value, s[1..]))
  }

  /** Some move of the run is a bad join. */
  ghost predicate JoinsBadly(w: World, c: Config, s: seq<Choice>)
    decreases |s|
  {
    s != [] && Move1(w, c, s[0]).Some? &&
    (BadJoin(w, c.thread.ctl, s[0].path) || JoinsBadly(w, Move1(w, c, s[0]).value, s[1..]))
  }

  /**
    When an aborted run completes, however forks nest: if no node fails, it ends by the abort exactly if it never
    joins a fork that has come to rest without an abort of its own and whose branches do not converge, lead to a
    join that does not exist, or include one without a result.
  */
  lemma {:induction false} AbortCompletesUnlessBadJoin(w: World, c: Config, s: seq<Choice>)
    requires FailureFree(c.thread.ctl) && Aborting(c.thread.ctl) && NoNodeFails(w, c, s)
    requires RunAny(w, c, s).Some? && Finished(RunAny(w, c, s).value.thread.ctl)
    ensures RunAny(w, c, s).value.thread.ctl == Raised(Abort) <==> !JoinsBadly(w, c, s)
  {
    AbortOrFailure(w, c, s);
    FailsExactlyIfBadJoin(w, c, s);
  }

  lemma {:induction false} FailsExactlyIfBadJoin(w: World, c: Config, s: seq<Choice>)
    requires FailureFree(c.thread.ctl) && NoNodeFails(w, c, s) && RunAny(w, c, s).Some?
    ensures FailureFree(RunAny(w, c, s).value.thread.ctl) <==> !JoinsBadly(w, c, s)
    decreases |s|
  {
    hide Act, KeyAt, BadJoin, FailureFree;
    if s != [] {
      var c', v := Move1(w, c, s[0]).value, Look(c.shared, KeyAt(c.thread.ctl, s[0].path));
      if BadJoin(w, c.thread.ctl, s[0].path) {
        BadJoinFails(w, s[0].ex, c.thread, v, s[0].path);
        if FailureFree(RunAny(w, c', s[1..]).value.thread.ctl) { FailureFreeAtStart(w, c', s[1..]); }
      } else {
        if !FailureFree(c'.thread.ctl) { GoodJoin(w, s[0].ex, c.thread, v, s[0].path); }
        FailsExactlyIfBadJoin(w, c', s[1..]);
      }
    }
  }

  // ---------------------------------------------------------------- why forks must not nest

  /** An inner fork whose branches stand before different nodes when an outer sibling aborts. */
  ghost predicate CaughtInnerFork(c: Config, l: string, a: string, b: string) {
    && c.shared.abort && c.thread.ctl.Fork? && l in c.thread.ctl.branches
    && c.thread.ctl.branches[l].ctl.Fork?
    && var inner := c.thread.ctl.branches[l].ctl.branches;
       && inner.Keys == {a, b}
       && inner[a].ctl.Head? && inner[a].ctl.current.Some?
       && inner[b].ctl.Head? && inner[b].ctl.current.Some?
       && inner[a].ctl.current != inner[b].ctl.current
  }

  /** A chain at its loop head ends there once the flag is up. */
  lemma {:induction false} HaltsUnderFlag(w: World, ex: Exec, c: Config, l: string, a: string)
    requires c.shared.abort && c.thread.ctl.Fork? && l in c.thread.ctl.branches
    requires c.thread.ctl.branches[l].ctl.Fork? && a in c.thread.ctl.branches[l].ctl.branches
    requires c.thread.ctl.branches[l].ctl.branches[a].ctl.Head?
    requires c.thread.ctl.branches[l].ctl.branches[a].ctl.current.Some?
    ensures var outer := c.thread.ctl;
            var inner := outer.branches[l].ctl;
            var chain := inner.branches[a];
            Step(w, ex, c, [l, a]) == Some(Config(
              Thread(c.thread.results, outer.(branches := outer.branches[l := Thread(
                outer.branches[l].results, inner.(branches := inner.branches[a := Thread(
                  chain.results, Done(chain.ctl.frame.last, chain.ctl.current))]))])),
              c.shared))
  {
    hide AtClaim, AtExecute, NextItem, Join;
    var outer := Lifting.Branch(c, l);
    Lifting.StepInBranch(w, ex, outer, a, []);
    Lifting.StepInBranch(w, ex, c, l, [a]);
    assert [a] + [] == [a] && [l] + [a] == [l, a];
  }

  lemma {:induction false} InnerJoinFails(w: World, ex: Exec, c: Config, l: string)
    requires c.thread.ctl.Fork? && l in c.thread.ctl.branches && c.thread.ctl.branches[l].ctl.Fork?
    requires var inner := c.thread.ctl.branches[l].ctl.branches;
             AllAtRest(inner) && !AnyAborted(inner) && |JoinIds(inner)| != 1
    ensures Run(w, ex, c, [[l], [l]]).Some?
    ensures Run(w, ex, c, [[l], [l]]).value.thread.ctl ==
              Raised(Failed(c.thread.ctl.branches[l].ctl.node.id,
                            "fork branches must converge on exactly one join node"))
  {
    hide AtHead, AtClaim, AtExecute, NextItem, JoinOutput, JoinIds;
    Lifting.StepInBranch(w, ex, c, l, []);
    assert [l] + [] == [l];
    var c1 := Step(w, ex, c, [l]).value;
    assert c1.thread.ctl.branches[l].ctl.Raised?;
    Lifting.RunOfOne(w, ex, c1, [l]);
    assert [[l], [l]][1..] == [[l]];
  }

  /** Such an inner fork reports non-convergence, and with it the whole run fails instead of completing. */
  lemma {:induction false} NestedForkFailsTheRun(w: World, ex: Exec, c: Config, l: string, a: string, b: string)
    requires CaughtInnerFork(c, l, a, b)
    ensures Run(w, ex, c, [[l, a], [l, b], [l], [l]]).Some?
    ensures Run(w, ex, c, [[l, a], [l, b], [l], [l]]).value.thread.ctl ==
              Raised(Failed(c.thread.ctl.branches[l].ctl.node.id,
                            "fork branches must converge on exactly one join node"))
  {
    hide Act, KeyAt, JoinIds, Step;
    assert a in c.thread.ctl.branches[l].ctl.branches && b in c.thread.ctl.branches[l].ctl.branches;
    HaltsUnderFlag(w, ex, c, l, a);
    var c1 := Step(w, ex, c, [l, a]).value;
    assert c1.thread.ctl.branches[l].ctl.branches[b] == c.thread.ctl.branches[l].ctl.branches[b];
    HaltsUnderFlag(w, ex, c1, l, b);
    var c2 := Step(w, ex, c1, [l, b]).value;
    var inner := c2.thread.ctl.branches[l].ctl.branches;
    assert inner.Keys == {a, b};
    TwoStops(inner, a, b);
    InnerJoinFails(w, ex, c2, l);
    var s := [[l, a], [l, b], [l], [l]];
    assert s[1..] == [[l, b], [l], [l]];
    assert s[1..][1..] == [[l], [l]];
  }

  lemma {:induction false} TwoStops(inner: map<string, Thread>, a: string, b: string)
    requires AllAtRest(inner) && !AnyAborted(inner) && a in inner && b in inner
    requires inner[a].ctl.stoppedAt.Some? && inner[b].ctl.stoppedAt.Some?
    requires inner[a].ctl.stoppedAt != inner[b].ctl.stoppedAt
    ensures |JoinIds(inner)| != 1
  {
    var ids := JoinIds(inner);
    assert inner[a].ctl.stoppedAt.value in ids && inner[b].ctl.stoppedAt.value in ids;
    if |ids| == 1 {
      SingletonElement(ids);
    }
  }
}
