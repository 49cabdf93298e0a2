/**
  Which failures a fork can record. Branches that fail stop their siblings wherever those are, so the schedule may
  decide which of several failures is recorded; but what is recorded is always what one branch does alone.
*/
module ForkFailures {
  import opened Base
  import opened IterationKeys
  import opened Machine
  import opened Confluence
  import opened Lifting
  import opened Schedules

  /** The flag only rises, and the budget only falls. */
  lemma {:induction false} FlagAndBudget(w: World, ex: Exec, c: Config, s: seq<seq<string>>)
    requires Run(w, ex, c, s).Some?
    ensures c.shared.abort ==> Run(w, ex, c, s).value.shared.abort
    ensures Run(w, ex, c, s).value.shared.budget <= c.shared.budget
    decreases |s|
  {
    hide Act, KeyAt;
    if s != [] { FlagAndBudget(w, ex, Step(w, ex, c, s[0]).value, s[1..]); }
  }

  /** A move that costs nothing, or that the budget allows, is the move under any larger budget. */
  lemma {:induction false} BudgetUnseen(w: World, ex: Exec, t: Thread, v: View, p: seq<string>)
    requires Act(w, ex, t, v, p).Some? && (Act(w, ex, t, v, p).value.effect.cost ==> v.left)
    ensures Act(w, ex, t, v.(left := true), p) == Act(w, ex, t, v, p)
    decreases t.ctl
  {
    hide Route, Evaluate, CheckStopCondition, JoinOutput, JoinIds;
    match t.ctl
    case Fanout(f, n, output, items, body) =>
      if !Finished(body) { BudgetUnseen(w, ex, Thread(t.results, body), v, p); }
    case Fork(f, n, branches) =>
      if p != [] && !branches[p[0]].ctl.Raised? { BudgetUnseen(w, ex, branches[p[0]], v, p[1..]); }
    case _ =>
  }

  /** What a move of a branch that has not raised looks like from the fork. */
  lemma {:induction false} InUnraised(w: World, ex: Exec, t: Thread, v: View, p: seq<string>)
    requires t.ctl.Fork? && p != [] && Act(w, ex, t, v, p).Some? && !t.ctl.branches[p[0]].ctl.Raised?
    ensures p[0] in t.ctl.branches && Act(w, ex, t.ctl.branches[p[0]], v, p[1..]).Some?
    ensures Act(w, ex, t, v, p).value == InFork(t.results, t.ctl.frame, t.ctl.node, t.ctl.branches, p[0],
                                                Act(w, ex, t.ctl.branches[p[0]], v, p[1..]).value)
  {
    hide AtHead, AtClaim, AtExecute, NextItem, Join;
  }

  /** A fork whose branches are still on their way: no stop so far, and the budget not overdrawn. */
  predicate OnItsWay(c: Config) {
    c.thread.ctl.Fork? && !c.shared.abort && c.shared.budget >= 0
  }

  lemma {:induction false} BranchMovesAlone(w: World, ex: Exec, solo: Config, c: Config, l: string, p: seq<string>)
    requires Alone(solo, c, l) && Separate(c.thread.ctl) && p != [] && p[0] == l
    requires Step(w, ex, c, p).Some? && OnItsWay(c) && OnItsWay(Step(w, ex, c, p).value)
    requires !c.thread.ctl.branches[l].ctl.Raised?
    ensures Step(w, ex, solo, p[1..]).Some? && Alone(Step(w, ex, solo, p[1..]).value, Step(w, ex, c, p).value, l)
  {
    hide AtHead, AtClaim, AtExecute, NextItem, Join;
    var b, base := c.thread.ctl.branches[l], ForkKey(c.thread.ctl.frame.key, l);
    var k := KeyAt(c.thread.ctl, p);
    if k.Some? { KeyAtWithin(b.ctl, base, p[1..]); }
    InUnraised(w, ex, c.thread, Look(c.shared, k), p);
    BudgetUnseen(w, ex, b, Look(c.shared, k), p[1..]);
    var v := Look(solo.shared, k);
    assert v == Look(c.shared, k) || v == Look(c.shared, k).(left := true);
  }

  lemma {:induction false} SiblingMoves(w: World, ex: Exec, solo: Config, c: Config, l: string, p: seq<string>)
    requires Alone(solo, c, l) && Separate(c.thread.ctl) && p != [] && p[0] != l
    requires Step(w, ex, c, p).Some? && OnItsWay(Step(w, ex, c, p).value)
    requires p[0] in c.thread.ctl.branches && !c.thread.ctl.branches[p[0]].ctl.Raised?
    ensures Alone(solo, Step(w, ex, c, p).value, l)
  {
    hide AtHead, AtClaim, AtExecute, NextItem, Join;
    var f, branches := c.thread.ctl.frame, c.thread.ctl.branches;
    var k := KeyAt(c.thread.ctl, p);
    InUnraised(w, ex, c.thread, Look(c.shared, k), p);
    if k.Some? {
      KeyAtWithin(branches[p[0]].ctl, ForkKey(f.key, p[0]), p[1..]);
      LabelOfKey(f.key, p[0], k.value.1);
      if Below(ForkKey(f.key, l), k.value.1) { LabelOfKey(f.key, l, k.value.1); }
    }
  }

  /** The move of a raised branch raises the fork, and no other move of a branch does. */
  lemma {:induction false} RaisedBranchRaisesFork(w: World, ex: Exec, c: Config, p: seq<string>)
    requires c.thread.ctl.Fork? && p != [] && Step(w, ex, c, p).Some?
    ensures p[0] in c.thread.ctl.branches
    ensures var d, b := Step(w, ex, c, p).value, c.thread.ctl.branches[p[0]].ctl;
      if b.Raised? then d.thread.ctl == b && d.shared == c.shared && b.exn != Abort else d.thread.ctl.Fork?
  {
    hide AtHead, AtClaim, AtExecute, NextItem, Join;
  }

  lemma {:induction false} NothingAfterRaised(w: World, ex: Exec, c: Config, s: seq<seq<string>>)
    requires c.thread.ctl.Raised? && Run(w, ex, c, s).Some?
    ensures s == [] && Run(w, ex, c, s) == Some(c)
  {
    if s != [] { FinishedCannotMove(w, ex, c, s[0]); }
  }

  /** As long as the fork is on its way, each branch has done what it does alone, whatever became of the others. */
  lemma {:induction false} BranchOnItsWay(w: World, ex: Exec, solo: Config, c: Config, s: seq<seq<string>>, l: string)
    requires PlainWorld(w) && Separate(c.thread.ctl) && Alone(solo, c, l) && BranchMoves(s)
    requires Run(w, ex, c, s).Some? && OnItsWay(Run(w, ex, c, s).value)
    ensures Run(w, ex, solo, Project(s, l)).Some?
    ensures Alone(Run(w, ex, solo, Project(s, l)).value, Run(w, ex, c, s).value, l)
    decreases |s|
  {
    hide Act, KeyAt, Separate, Alone, Step;
    if s != [] {
      var c' := Step(w, ex, c, s[0]).value;
      assert c.thread.ctl.Fork? by { AloneInFork(solo, c, l); }
      RaisedBranchRaisesFork(w, ex, c, s[0]);
      if c'.thread.ctl.Raised? { NothingAfterRaised(w, ex, c', s[1..]); }
      FlagAndBudget(w, ex, c', s[1..]);
      FlagAndBudgetOnce(w, ex, c, s[0]);
      StepSeparate(w, ex, c, s[0]);
      var tail := Project(s[1..], l);
      if s[0][0] == l {
        BranchMovesAlone(w, ex, solo, c, l, s[0]);
        BranchOnItsWay(w, ex, Step(w, ex, solo, s[0][1..]).value, c', s[1..], l);
        assert ([s[0][1..]] + tail)[1..] == tail;
      } else {
        SiblingMoves(w, ex, solo, c, l, s[0]);
        BranchOnItsWay(w, ex, solo, c', s[1..], l);
      }
    }
  }

  lemma {:induction false} AloneInFork(solo: Config, c: Config, l: string)
    requires Alone(solo, c, l)
    ensures c.thread.ctl.Fork? && l in c.thread.ctl.branches
  {
  }

  lemma {:induction false} FlagAndBudgetOnce(w: World, ex: Exec, c: Config, p: seq<string>)
    requires Step(w, ex, c, p).Some?
    ensures c.shared.abort ==> Step(w, ex, c, p).value.shared.abort
    ensures Step(w, ex, c, p).value.shared.budget <= c.shared.budget
  {
    hide Act, KeyAt;
  }

  /** A fork that moves of its branches have raised was raised by one branch that had raised before. */
  lemma {:induction false} RaisedByABranch(w: World, ex: Exec, c: Config, s: seq<seq<string>>)
    returns (front: seq<seq<string>>, l: string)
    requires c.thread.ctl.Fork? && BranchMoves(s)
    requires Run(w, ex, c, s).Some? && Run(w, ex, c, s).value.thread.ctl.Raised?
    ensures BranchMoves(front) && Run(w, ex, c, front).Some?
    ensures var d, end := Run(w, ex, c, front).value, Run(w, ex, c, s).value;
      && d.thread.ctl.Fork? && l in d.thread.ctl.branches && d.thread.ctl.branches[l].ctl == end.thread.ctl
      && d.shared == end.shared && end.thread.ctl.exn != Abort
    decreases |s|
  {
    hide Step;
    RaisedBranchRaisesFork(w, ex, c, s[0]);
    var c' := Step(w, ex, c, s[0]).value;
    if c'.thread.ctl.Raised? {
      NothingAfterRaised(w, ex, c', s[1..]);
      front, l := [], s[0][0];
    } else {
      var rest;
      rest, l := RaisedByABranch(w, ex, c', s[1..]);
      front := [s[0]] + rest;
      assert front[1..] == rest;
    }
  }

  /** Alone, from here on, the thread can end in `exn`, without a stop and within the budget. */
  ghost predicate CanRaise(w: World, ex: Exec, c: Config, exn: Exn) {
    exists s: seq<seq<string>> :: RaisesBy(w, ex, c, s, exn)
  }

  ghost predicate RaisesBy(w: World, ex: Exec, c: Config, s: seq<seq<string>>, exn: Exn) {
    && Run(w, ex, c, s).Some?
    && var end := Run(w, ex, c, s).value;
       end.thread.ctl == Raised(exn) && !end.shared.abort && end.shared.budget >= 0
  }

  /** The same for moves of the branches of a fork. */
  ghost predicate BranchesCanRaise(w: World, ex: Exec, c: Config, exn: Exn) {
    exists s: seq<seq<string>> :: BranchMoves(s) && RaisesBy(w, ex, c, s, exn)
  }

  /**
    Which failures a fork can record: exactly those with which one of its branches can end alone, without a stop and
    within the budget. With one failing branch the schedule decides nothing; with several, any of them may win.
  */
  lemma {:induction false} ForkFailsAsItsBranches(w: World, ex: Exec, c: Config, exn: Exn)
    requires PlainWorld(w) && Separate(c.thread.ctl) && c.thread.ctl.Fork? && exn != Abort
    ensures BranchesCanRaise(w, ex, c, exn)
       <==> exists l :: l in c.thread.ctl.branches && CanRaise(w, ex, SoloStart(c, l), exn)
  {
    hide Run, Separate;
    forall s | BranchMoves(s) && RaisesBy(w, ex, c, s, exn)
      ensures exists l :: l in c.thread.ctl.branches && CanRaise(w, ex, SoloStart(c, l), exn)
    {
      var l := RecordedFailureIsABranchs(w, ex, c, s, exn);
    }
    forall l | l in c.thread.ctl.branches && CanRaise(w, ex, SoloStart(c, l), exn)
      ensures BranchesCanRaise(w, ex, c, exn)
    {
      var sl :| RaisesBy(w, ex, SoloStart(c, l), sl, exn);
      AnyBranchMayWin(w, ex, c, l, sl, exn);
    }
  }

  lemma {:induction false} RecordedFailureIsABranchs(w: World, ex: Exec, c: Config, s: seq<seq<string>>, exn: Exn)
    returns (l: string)
    requires PlainWorld(w) && Separate(c.thread.ctl) && c.thread.ctl.Fork?
    requires BranchMoves(s) && RaisesBy(w, ex, c, s, exn)
    ensures l in c.thread.ctl.branches && CanRaise(w, ex, SoloStart(c, l), exn)
  {
    hide Run, Separate;
    var front;
    front, l := RaisedByABranch(w, ex, c, s);
    var d := Run(w, ex, c, front).value;
    FlagAndBudget(w, ex, c, front);
    SameBranches(w, ex, c, front);
    BranchOnItsWay(w, ex, SoloStart(c, l), c, front, l);
    AloneAfter(w, ex, c, front, l);
    assert RaisesBy(w, ex, SoloStart(c, l), Project(front, l), exn);
  }

  lemma {:induction false} SameBranches(w: World, ex: Exec, c: Config, s: seq<seq<string>>)
    requires c.thread.ctl.Fork? && BranchMoves(s)
    requires Run(w, ex, c, s).Some? && Run(w, ex, c, s).value.thread.ctl.Fork?
    ensures Run(w, ex, c, s).value.thread.ctl.branches.Keys == c.thread.ctl.branches.Keys
    decreases |s|
  {
    hide Act, KeyAt;
    if s != [] {
      var c' := Step(w, ex, c, s[0]).value;
      RaisedBranchRaisesFork(w, ex, c, s[0]);
      if c'.thread.ctl.Raised? {
        NothingAfterRaised(w, ex, c', s[1..]);
      } else {
        InUnraised(w, ex, c.thread, Look(c.shared, KeyAt(c.thread.ctl, s[0])), s[0]);
        SameBranches(w, ex, c', s[1..]);
      }
    }
  }

  /** The lone branch that raises is the branch of the fork, flag and budget included. */
  lemma {:induction false} AloneAfter(w: World, ex: Exec, c: Config, front: seq<seq<string>>, l: string)
    requires Run(w, ex, c, front).Some? && c.thread.ctl.Fork? && l in c.thread.ctl.branches
    requires Run(w, ex, SoloStart(c, l), Project(front, l)).Some?
    requires Alone(Run(w, ex, SoloStart(c, l), Project(front, l)).value, Run(w, ex, c, front).value, l)
    ensures var solo, d := Run(w, ex, SoloStart(c, l), Project(front, l)).value, Run(w, ex, c, front).value;
      && d.thread.ctl.Fork? && l in d.thread.ctl.branches && solo.thread == d.thread.ctl.branches[l]
      && !solo.shared.abort && solo.shared.budget >= d.shared.budget
  {
    hide Run;
  }

  lemma {:induction false} AnyBranchMayWin(w: World, ex: Exec, c: Config, l: string, sl: seq<seq<string>>, exn: Exn)
    requires c.thread.ctl.Fork? && l in c.thread.ctl.branches && exn != Abort
    requires RaisesBy(w, ex, SoloStart(c, l), sl, exn)
    ensures BranchesCanRaise(w, ex, c, exn)
  {
    hide Run, Step;
    RunInBranch(w, ex, c, l, sl);
    var d := WithBranch(c, l, Run(w, ex, SoloStart(c, l), sl).value);
    FailStep(w, ex, d, l);
    var s := Prefixed(l, sl) + [[l]];
    RunSplits(w, ex, c, Prefixed(l, sl), [[l]]);
    RunOfOne(w, ex, d, [l]);
    assert BranchMoves(s) && RaisesBy(w, ex, c, s, exn);
  }
}
