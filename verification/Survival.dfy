/**
  Exactly which crashes a run survives. A read that is lost takes down the chains around it and nothing else: beside
  every history there is one in which those chains just stop before the read, with the same rows. So whatever went
  wrong in earlier attempts, an attempt completes as soon as it loses no read itself.
*/
module Survival {
  import opened Base
  import opened Machine
  import opened SafeWalk
  import opened Mirror
  import opened Rows
  import opened Following
  import opened Resume
  import opened LostReads

  // ---------------------------------------------------------------- chains that have failed

  /** A failure is on its way up from this chain or from its fan-out body. */
  predicate Dead(c: Control)
    decreases c
  {
    match c
    case Raised(exn) => exn != Abort
    case Fanout(_, _, _, _, body) => Dead(body)
    case _ => false
  }

  /** `a` is `b`, except that some of its chains may be dead. */
  ghost predicate Shadows(a: Thread, b: Thread)
    decreases a.ctl
  {
    || Dead(a.ctl)
    || (&& a.results == b.results
        && match a.ctl
           case Fanout(f, n, output, items, body) =>
             && b.ctl.Fanout? && f == b.ctl.frame && n == b.ctl.node && output == b.ctl.output && items == b.ctl.items
             && Shadows(Thread(a.results, body), Thread(b.results, b.ctl.body))
           case Fork(f, n, branches) =>
             && b.ctl.Fork? && f == b.ctl.frame && n == b.ctl.node && branches.Keys == b.ctl.branches.Keys
             && forall l | l in branches :: Shadows(branches[l], b.ctl.branches[l])
           case _ => a.ctl == b.ctl)
  }

  /** The chain that moves at `p` is not dead, and none around it is. */
  predicate AliveAt(c: Control, p: seq<string>)
    decreases c
  {
    match c
    case Fanout(_, _, _, _, body) => !Dead(c) && (Finished(body) || AliveAt(body, p))
    case Fork(_, _, branches) =>
      p != [] && p[0] in branches ==> !Dead(branches[p[0]].ctl) && AliveAt(branches[p[0]].ctl, p[1..])
    case _ => !Dead(c)
  }

  lemma {:induction false} DeadMoves(w: World, ex: Exec, t: Thread, v: View, p: seq<string>)
    requires Dead(t.ctl) && Act(w, ex, t, v, p).Some?
    ensures Dead(Act(w, ex, t, v, p).value.thread.ctl) && Act(w, ex, t, v, p).value.effect == SILENT
    decreases t.ctl
  {
    if t.ctl.Fanout? && !Finished(t.ctl.body) { DeadMoves(w, ex, Thread(t.results, t.ctl.body), v, p); }
  }

  /** A dead chain moves on its own; its shadow waits. */
  lemma {:induction false} DeadChainMoves(w: World, ex: Exec, a: Thread, b: Thread, v: View, p: seq<string>)
    requires Shadows(a, b) && !AliveAt(a.ctl, p) && Act(w, ex, a, v, p).Some?
    ensures Shadows(Act(w, ex, a, v, p).value.thread, b) && Act(w, ex, a, v, p).value.effect == SILENT
    decreases a.ctl
  {
    hide AtHead, AtClaim, AtExecute, NextItem, Join;
    if Dead(a.ctl) {
      DeadMoves(w, ex, a, v, p);
    } else {
      match a.ctl
      case Fanout(f, n, output, items, body) =>
        DeadChainMoves(w, ex, Thread(a.results, body), Thread(b.results, b.ctl.body), v, p);
      case Fork(f, n, branches) =>
        if !branches[p[0]].ctl.Raised? {
          DeadChainMoves(w, ex, branches[p[0]], b.ctl.branches[p[0]], v, p[1..]);
          BranchShadows(a, b, p[0], Act(w, ex, branches[p[0]], v, p[1..]).value, b.ctl.branches[p[0]]);
          assert b.ctl.branches[p[0] := b.ctl.branches[p[0]]] == b.ctl.branches;
        }
      case _ =>
    }
  }

  /** A fork still shadows when one branch of it does. */
  lemma {:induction false} BranchShadows(a: Thread, b: Thread, l: string, m: Move, branch: Thread)
    requires a.ctl.Fork? && Shadows(a, b) && l in a.ctl.branches && Shadows(m.thread, branch)
    ensures b.ctl.Fork?
    ensures Shadows(InFork(a.results, a.ctl.frame, a.ctl.node, a.ctl.branches, l, m).thread,
                    Thread(b.results, b.ctl.(branches := b.ctl.branches[l := branch])))
  {
  }

  lemma {:induction false} RestingBranchesAgree(x: map<string, Thread>, y: map<string, Thread>)
    requires x.Keys == y.Keys && AllAtRest(x) && forall l | l in x :: Shadows(x[l], y[l])
    ensures x == y
  {
    forall l | l in x
      ensures x[l] == y[l]
    {
      assert AtRest(x[l].ctl);
    }
  }

  /** A living chain makes the move of its shadow. */
  lemma {:induction false} LivingChainMoves(w: World, ex: Exec, a: Thread, b: Thread, v: View, p: seq<string>)
    requires Shadows(a, b) && AliveAt(a.ctl, p) && Act(w, ex, a, v, p).Some?
    ensures Act(w, ex, b, v, p).Some?
    ensures Shadows(Act(w, ex, a, v, p).value.thread, Act(w, ex, b, v, p).value.thread)
    ensures Act(w, ex, a, v, p).value.effect == Act(w, ex, b, v, p).value.effect
    decreases a.ctl
  {
    hide AtHead, AtClaim, AtExecute, NextItem, Join;
    match a.ctl
    case Fanout(f, n, output, items, body) =>
      if Finished(body) {
        SelfShadows(Act(w, ex, a, v, p).value.thread);
      } else {
        LivingChainMoves(w, ex, Thread(a.results, body), Thread(b.results, b.ctl.body), v, p);
      }
    case Fork(f, n, branches) =>
      if p == [] {
        RestingBranchesAgree(branches, b.ctl.branches);
        SelfShadows(Act(w, ex, a, v, p).value.thread);
      } else {
        LivingChainMoves(w, ex, branches[p[0]], b.ctl.branches[p[0]], v, p[1..]);
        BranchShadows(a, b, p[0], Act(w, ex, branches[p[0]], v, p[1..]).value,
                      Act(w, ex, b.ctl.branches[p[0]], v, p[1..]).value.thread);
      }
    case Head(_, _) => SelfShadows(Act(w, ex, a, v, p).value.thread);
    case Claiming(_, _) => SelfShadows(Act(w, ex, a, v, p).value.thread);
    case Executing(_, _) => SelfShadows(Act(w, ex, a, v, p).value.thread);
    case _ =>
  }

  /** It looks at the row its shadow looks at, and executes where that does. */
  lemma {:induction false} LivingChainAt(w: World, ex: Exec, a: Thread, b: Thread, v: View, p: seq<string>)
    requires Shadows(a, b) && AliveAt(a.ctl, p) && Act(w, ex, a, v, p).Some?
    ensures KeyAt(a.ctl, p) == KeyAt(b.ctl, p)
    ensures ThreadAt(b, p).ctl.Executing? ==> ThreadAt(a, p) == ThreadAt(b, p)
    decreases a.ctl
  {
    hide AtHead, AtClaim, AtExecute, NextItem, Join;
    match a.ctl
    case Fanout(f, n, output, items, body) =>
      if !Finished(body) {
        LivingChainAt(w, ex, Thread(a.results, body), Thread(b.results, b.ctl.body), v, p);
      }
    case Fork(f, n, branches) =>
      if p != [] { LivingChainAt(w, ex, branches[p[0]], b.ctl.branches[p[0]], v, p[1..]); }
    case _ =>
  }

  lemma {:induction false} SelfShadows(t: Thread)
    ensures Shadows(t, t)
    decreases t.ctl
  {
    match t.ctl
    case Fanout(_, _, _, _, body) => SelfShadows(Thread(t.results, body));
    case Fork(_, _, branches) =>
      forall l | l in branches
        ensures Shadows(branches[l], branches[l])
      {
        SelfShadows(branches[l]);
      }
    case _ =>
  }

  /** A chain that executes without a result it is wired to dies, and its shadow stops before that. */
  lemma {:induction false} ReaderDies(w: World, ex: Exec, a: Thread, b: Thread, v: View, p: seq<string>, port: string)
    requires Shadows(a, b) && AliveAt(a.ctl, p) && Act(w, ex, a, v, p).Some? && ThreadAt(a, p).ctl.Executing?
    requires ReadsMissing(w, ThreadAt(a, p).results, ThreadAt(a, p).ctl.node, port)
    ensures Shadows(Act(w, ex, a, v, p).value.thread, b) && Act(w, ex, a, v, p).value.effect == SILENT
    decreases a.ctl
  {
    hide AtHead, AtClaim, Evaluate, NextItem, Join, ReadsMissing, Commit;
    match a.ctl
    case Executing(f, n) => NothingToRead(w, ex, a.results, n, port, f.account, LoopCount(f, n));
    case Fanout(f, n, output, items, body) =>
      if !Finished(body) {
        ReaderDies(w, ex, Thread(a.results, body), Thread(b.results, b.ctl.body), v, p, port);
      }
    case Fork(f, n, branches) =>
      if p != [] {
        ReaderDies(w, ex, branches[p[0]], b.ctl.branches[p[0]], v, p[1..], port);
        BranchShadows(a, b, p[0], Act(w, ex, branches[p[0]], v, p[1..]).value, b.ctl.branches[p[0]]);
        assert b.ctl.branches[p[0] := b.ctl.branches[p[0]]] == b.ctl.branches;
      }
    case _ =>
  }

  // ---------------------------------------------------------------- a history without lost reads beside any other

  /** The two lives have the same rows and the same past, and `x` is `y` except for dead chains. */
  ghost predicate LivesBeside(x: Life, y: Life) {
    && x.before == y.before && x.mark == y.mark && x.config.shared == y.config.shared
    && Shadows(x.config.thread, y.config.thread)
  }

  lemma {:induction false} BirthLivesBeside(entry: string, budget: int)
    ensures LivesBeside(Born(entry, budget), Born(entry, budget))
  {
  }

  lemma {:induction false} MoveOfDead(w: World, ex: Exec, entry: string, budget: int, x: Life, y: Life, p: seq<string>)
    requires LivesBeside(x, y) && Live(w, ex, entry, budget, x, Go(p)).Some? && !AliveAt(x.config.thread.ctl, p)
    ensures LivesBeside(Live(w, ex, entry, budget, x, Go(p)).value, y)
  {
    hide Act, KeyAt, Shadows;
    var c := x.config;
    DeadChainMoves(w, ex, c.thread, y.config.thread, Look(c.shared, KeyAt(c.thread.ctl, p)), p);
  }

  lemma {:induction false} MoveOfLostReader(w: World, ex: Exec, entry: string, budget: int, x: Life, y: Life,
                                            p: seq<string>)
    requires ReadsDeclared(w) && Placed(w, entry, x) && LivesBeside(x, y)
    requires Live(w, ex, entry, budget, x, Go(p)).Some? && AliveAt(x.config.thread.ctl, p) && LosesRead(x, Go(p))
    ensures LivesBeside(Live(w, ex, entry, budget, x, Go(p)).value, y)
  {
    var port := LostPort(w, entry, x, p);
    var c := x.config;
    ExecutesBelowHead(c.thread, p);
    hide Act, KeyAt, ThreadAt, Shadows, ReadsMissing, Placed, AliveAt;
    ReaderDies(w, ex, c.thread, y.config.thread, Look(c.shared, KeyAt(c.thread.ctl, p)), p, port);
  }

  lemma {:induction false} ExecutesBelowHead(t: Thread, p: seq<string>)
    requires ThreadAt(t, p).ctl.Executing?
    ensures !t.ctl.Head?
  {
  }

  lemma {:induction false} MoveOfBoth(w: World, ex: Exec, entry: string, budget: int, x: Life, y: Life, p: seq<string>)
    requires LivesBeside(x, y) && Live(w, ex, entry, budget, x, Go(p)).Some?
    requires AliveAt(x.config.thread.ctl, p) && !LosesRead(x, Go(p))
    ensures !LosesRead(y, Go(p)) && Live(w, ex, entry, budget, y, Go(p)).Some?
    ensures LivesBeside(Live(w, ex, entry, budget, x, Go(p)).value, Live(w, ex, entry, budget, y, Go(p)).value)
  {
    var c, d := x.config, y.config;
    var v := Look(c.shared, KeyAt(c.thread.ctl, p));
    LivingChainMoves(w, ex, c.thread, d.thread, v, p);
    LivingChainAt(w, ex, c.thread, d.thread, v, p);
    TouchTogether(w, ex, c.thread, d.thread, v, p);
    hide Act, KeyAt, ThreadAt, Shadows, AliveAt, Finds;
  }

  /** The run row is touched by both or by neither, with the same results before. */
  lemma {:induction false} TouchTogether(w: World, ex: Exec, a: Thread, b: Thread, v: View, p: seq<string>)
    requires Shadows(a, b) && AliveAt(a.ctl, p) && Act(w, ex, a, v, p).Some? && Act(w, ex, b, v, p).Some?
    ensures a.ctl.Head? == b.ctl.Head?
    ensures a.ctl.Head? ==> a == b
  {
  }

  /** Beside every history there is one that loses no read and writes the same rows. */
  lemma {:induction false} LifeBeside(w: World, ex: Exec, entry: string, budget: int, x: Life, y: Life,
                                      events: seq<Event>, x1: Life)
    returns (clean: seq<Event>, y1: Life)
    requires ReadsDeclared(w) && ClosedGraph(w.nodes) && entry in w.nodes && Placed(w, entry, x)
    requires LivesBeside(x, y) && LiveAll(w, ex, entry, budget, x, events) == Some(x1)
    ensures LiveAll(w, ex, entry, budget, y, clean) == Some(y1) && NoReadIsLost(w, ex, entry, budget, y, clean)
    ensures LivesBeside(x1, y1)
    decreases |events|
  {
    hide Live, LosesRead, LivesBeside, Placed, ReadsDeclared, ClosedGraph, AliveAt;
    if events == [] { return [], y; }
    var e := events[0];
    var x' := Live(w, ex, entry, budget, x, e).value;
    StaysPlaced(w, ex, entry, budget, x, e);
    if e.Go? && (LosesRead(x, e) || !AliveAt(x.config.thread.ctl, e.path)) {
      if AliveAt(x.config.thread.ctl, e.path) {
        MoveOfLostReader(w, ex, entry, budget, x, y, e.path);
      } else {
        MoveOfDead(w, ex, entry, budget, x, y, e.path);
      }
      clean, y1 := LifeBeside(w, ex, entry, budget, x', y, events[1..], x1);
    } else {
      match e {
        case Crash => CrashOfBoth(w, ex, entry, budget, x, y);
        case Go(p) => MoveOfBoth(w, ex, entry, budget, x, y, p);
      }
      var rest;
      rest, y1 := LifeBeside(w, ex, entry, budget, x', Live(w, ex, entry, budget, y, e).value, events[1..], x1);
      clean := [e] + rest;
      assert clean[1..] == rest;
    }
  }

  lemma {:induction false} CrashOfBoth(w: World, ex: Exec, entry: string, budget: int, x: Life, y: Life)
    requires LivesBeside(x, y)
    ensures Live(w, ex, entry, budget, x, Crash).Some? && !LosesRead(y, Crash)
    ensures Live(w, ex, entry, budget, x, Crash) == Live(w, ex, entry, budget, y, Crash)
    ensures var x' := Live(w, ex, entry, budget, x, Crash).value; LivesBeside(x', x')
  {
    SelfShadows(Live(w, ex, entry, budget, x, Crash).value.config.thread);
  }

  /** After a crash nothing is dead, so the two histories have come together. */
  lemma {:induction false} AttemptsStartAlike(w: World, ex: Exec, entry: string, budget: int, past: seq<Event>, x: Life,
                                              y: Life)
    requires LiveAll(w, ex, entry, budget, Born(entry, budget), past) == Some(x) && LivesBeside(x, y)
    requires past == [] || past[|past| - 1].Crash?
    ensures x == y
  {
    if past != [] { EndsAtCrash(w, ex, entry, budget, Born(entry, budget), past); }
  }

  lemma {:induction false} EndsAtCrash(w: World, ex: Exec, entry: string, budget: int, x: Life, past: seq<Event>)
    requires LiveAll(w, ex, entry, budget, x, past).Some? && past != [] && past[|past| - 1].Crash?
    ensures LiveAll(w, ex, entry, budget, x, past).value.config.thread.ctl.Head?
    decreases |past|
  {
    if |past| == 1 {
      assert past[1..] == [];
    } else {
      hide Live;
      EndsAtCrash(w, ex, entry, budget, Live(w, ex, entry, budget, x, past[0]).value, past[1..]);
    }
  }

  // ---------------------------------------------------------------- exactly which crashes a run survives

  lemma {:induction false} NoneIsLostInBoth(w: World, ex: Exec, entry: string, budget: int, x: Life, a: seq<Event>,
                                            b: seq<Event>)
    requires LiveAll(w, ex, entry, budget, x, a).Some?
    ensures LiveAll(w, ex, entry, budget, x, a + b)
         == LiveAll(w, ex, entry, budget, LiveAll(w, ex, entry, budget, x, a).value, b)
    ensures NoReadIsLost(w, ex, entry, budget, x, a + b)
       <==> NoReadIsLost(w, ex, entry, budget, x, a)
            && NoReadIsLost(w, ex, entry, budget, LiveAll(w, ex, entry, budget, x, a).value, b)
    decreases |a|
  {
    hide Live, LosesRead;
    if a == [] {
      assert a + b == b;
    } else {
      assert (a + b)[1..] == a[1..] + b;
      NoneIsLostInBoth(w, ex, entry, budget, Live(w, ex, entry, budget, x, a[0]).value, a[1..], b);
    }
  }

  /**
    Exactly which crashes a run survives. Take any crash-free run that ends by itself, or by a stop or a failure
    while no branch is on its way, any history up to a crash, whatever reads were lost in it, and any attempt after
    it, up to its end. The attempt completes, by itself or by a stop, if and only if the crash-free run does and no
    node executes in the attempt while one of its ports is wired to a result that an earlier attempt had and its
    walk lacks. If none does, it ends as the crash-free run and in its step table.
  */
  lemma {:induction false} SurvivesExactly(w: World, rank: Rank, top: int, ex: Exec, entry: string, budget: int,
                                           s: seq<seq<string>>, goal: Goal, past: seq<Event>, x: Life,
                                           attempt: seq<Event>, end: Life)
    requires Acyclic(w, rank, top) && entry in w.nodes && ReadsDeclared(w)
    requires Run(w, ex, Born(entry, budget).config, s) == Some(goal.last) && Ends(w, ex, goal)
    requires LiveAll(w, ex, entry, budget, Born(entry, budget), past) == Some(x)
    requires past == [] || past[|past| - 1].Crash?
    requires OneAttempt(attempt) && LiveAll(w, ex, entry, budget, x, attempt) == Some(end)
    requires Finished(end.config.thread.ctl)
    ensures AtRest(end.config.thread.ctl)
       <==> goal.exn in {None, Some(Abort)} && NoReadIsLost(w, ex, entry, budget, x, attempt)
    ensures NoReadIsLost(w, ex, entry, budget, x, attempt) ==>
              SameEnd(end.config.thread.ctl, goal) && end.config.shared.table == goal.end.shared.table
  {
    hide Run, LiveAll, Live, NoReadIsLost, Acyclic, Ends, ReadsDeclared, Placed, LivesBeside;
    BirthIsPlaced(w, rank, top, entry, budget);
    if NoReadIsLost(w, ex, entry, budget, x, attempt) {
      BirthLivesBeside(entry, budget);
      var clean, y := LifeBeside(w, ex, entry, budget, Born(entry, budget), Born(entry, budget), past, x);
      AttemptsStartAlike(w, ex, entry, budget, past, x, y);
      NoneIsLostInBoth(w, ex, entry, budget, Born(entry, budget), clean, attempt);
      CrashesLeaveNoTrace(w, rank, top, ex, entry, budget, s, goal, clean + attempt, end);
    } else {
      LifeIsPlaced(w, ex, entry, budget, Born(entry, budget), past);
      LostReadIsNotSurvived(w, ex, entry, budget, x, attempt);
    }
  }

  lemma {:induction false} BirthIsPlaced(w: World, rank: Rank, top: int, entry: string, budget: int)
    requires Acyclic(w, rank, top) && entry in w.nodes
    ensures ClosedGraph(w.nodes) && Placed(w, entry, Born(entry, budget))
  {
  }

  /** Whatever crashes and whatever reads are lost, at every moment the rows are a part of the crash-free table. */
  lemma {:induction false} RowsAreAlwaysPart(w: World, rank: Rank, top: int, ex: Exec, entry: string, budget: int,
                                             s: seq<seq<string>>, goal: Goal, events: seq<Event>, x: Life)
    requires Acyclic(w, rank, top) && entry in w.nodes && ReadsDeclared(w)
    requires Run(w, ex, Born(entry, budget).config, s) == Some(goal.last) && Ends(w, ex, goal)
    requires LiveAll(w, ex, entry, budget, Born(entry, budget), events) == Some(x)
    ensures Grows(x.config.shared.table, goal.end.shared.table)
  {
    hide Run, LiveAll, Live, NoReadIsLost, Acyclic, Ends, ReadsDeclared, Placed, Shadows;
    BirthIsPlaced(w, rank, top, entry, budget);
    BirthLivesBeside(entry, budget);
    var clean, y := LifeBeside(w, ex, entry, budget, Born(entry, budget), Born(entry, budget), events, x);
    CrashesLeaveNoTrace(w, rank, top, ex, entry, budget, s, goal, clean, y);
  }
}
