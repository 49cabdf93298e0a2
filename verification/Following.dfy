/**
  Following a crash-free run. A walk that started later, on step rows it partly found completed, is matched move
  by move by a walk that never crashed, until both end or raise the same exception.
*/
module Following {
  import opened Base
  import opened JsonValues
  import opened Ir
  import opened IterationKeys
  import opened Machine
  import opened Budget
  import opened Confluence
  import opened Lifting
  import opened Schedules
  import opened SafeWalk
  import opened Mirror
  import opened Rows
  import opened AbortDrain
  import opened Raises

  // ---------------------------------------------------------------- following a crash-free run

  ghost predicate RankedBelow(nodes: map<string, IRNode>, rank: Rank, top: int) {
    forall id: string | id in nodes.Keys :: RankOf(rank, id) < top
  }

  /** The graph: existing targets, edges going down a rank below `top`, no gotos, colon-free labels. */
  ghost predicate Acyclic(w: World, rank: Rank, top: int) {
    && ClosedGraph(w.nodes) && Ranked(w.nodes, rank) && PlainWorld(w)
    && "" !in w.nodes && RankedBelow(w.nodes, rank, top)
  }

  predicate RootFrame(f: Frame) {
    f.key == "" && f.account == None && f.top && !f.stopAtJoin
  }

  ghost predicate NoTop(c: Control)
    decreases c
  {
    match c
    case Head(f, _) => !f.top
    case Claiming(f, _) => !f.top
    case Executing(f, _) => !f.top
    case Fanout(f, _, _, _, body) => !f.top && NoTop(body)
    case Fork(f, _, branches) => !f.top && forall l | l in branches :: NoTop(branches[l].ctl)
    case _ => true
  }

  /** The chain at the root is the top-level one, and no other is. */
  ghost predicate RootOk(c: Control) {
    match c
    case Head(f, _) => RootFrame(f)
    case Claiming(f, _) => RootFrame(f)
    case Executing(f, _) => RootFrame(f)
    case Fanout(f, _, _, _, body) => RootFrame(f) && NoTop(body)
    case Fork(f, _, branches) => RootFrame(f) && forall l | l in branches :: NoTop(branches[l].ctl)
    case _ => true
  }

  lemma {:induction false} CommitFrames(w: World, results: Results, f: Frame, n: IRNode, output: Output,
                                        write: Option<Row>)
    ensures var m := Commit(w, results, f, n, output, write);
            && (!f.top ==> NoTop(m.thread.ctl)) && (RootFrame(f) ==> RootOk(m.thread.ctl))
            && m.effect.touch.None? && !m.thread.ctl.Claiming?
  {
    hide CheckStopCondition, FanoutItems, ForkKey;
  }

  lemma {:induction false} NextItemFrames(w: World, results: Results, f: Frame, n: IRNode, output: Output,
                                          items: seq<Json>, body: Control, v: View)
    requires Finished(body)
    ensures var m := NextItem(w, results, f, n, output, items, body, v);
            (!f.top ==> NoTop(m.thread.ctl)) && (RootFrame(f) ==> RootOk(m.thread.ctl)) && m.effect.touch.None?
  {
    NextItemShape(w, results, f, n, output, items, body, v);
    NextItemIsSilent(w, results, f, n, output, items, body, v);
    hide NextItem;
  }

  lemma {:induction false} ActNoTop(w: World, ex: Exec, t: Thread, v: View, p: seq<string>)
    requires NoTop(t.ctl) && Act(w, ex, t, v, p).Some?
    ensures NoTop(Act(w, ex, t, v, p).value.thread.ctl) && Act(w, ex, t, v, p).value.effect.touch.None?
    decreases t.ctl
  {
    hide Evaluate, Commit, NextItem, Join;
    match t.ctl
    case Claiming(f, n) =>
      if v.row.Some? && v.row.value.Completed? { CommitFrames(w, t.results, f, n, v.row.value.output, None); }
    case Executing(f, n) =>
      var r := Evaluate(w, ex, t.results, n, f.account, LoopCount(f, n));
      if r.Produced? { CommitFrames(w, t.results, f, n, r.output, Some(Completed(r.output))); }
    case Fanout(f, n, output, items, body) =>
      if Finished(body) {
        NextItemFrames(w, t.results, f, n, output, items, body, v);
      } else {
        ActNoTop(w, ex, Thread(t.results, body), v, p);
      }
    case Fork(f, n, branches) =>
      if p == [] {
        JoinShape(w, t.results, f, n, branches);
        JoinIsSilent(w, t.results, f, n, branches);
      } else if !branches[p[0]].ctl.Raised? {
        ActNoTop(w, ex, branches[p[0]], v, p[1..]);
      }
    case _ =>
  }

  /** The run row's current node changes exactly when the top-level chain admits a node. */
  lemma {:induction false} ActRootOk(w: World, ex: Exec, t: Thread, v: View, p: seq<string>)
    requires RootOk(t.ctl) && Act(w, ex, t, v, p).Some?
    ensures var m := Act(w, ex, t, v, p).value;
            && RootOk(m.thread.ctl)
            && (m.effect.touch.Some? ==> t.ctl.Head? && m.thread.ctl.Claiming? && m.effect.touch == t.ctl.current)
            && (t.ctl.Head? && m.thread.ctl.Claiming? ==> m.effect.touch.Some?)
  {
    hide Evaluate, Commit, NextItem, Join;
    match t.ctl
    case Claiming(f, n) =>
      if v.row.Some? && v.row.value.Completed? { CommitFrames(w, t.results, f, n, v.row.value.output, None); }
    case Executing(f, n) =>
      var r := Evaluate(w, ex, t.results, n, f.account, LoopCount(f, n));
      if r.Produced? { CommitFrames(w, t.results, f, n, r.output, Some(Completed(r.output))); }
    case Fanout(f, n, output, items, body) =>
      if Finished(body) {
        NextItemFrames(w, t.results, f, n, output, items, body, v);
      } else {
        ActNoTop(w, ex, Thread(t.results, body), v, p);
      }
    case Fork(f, n, branches) =>
      if p == [] {
        JoinShape(w, t.results, f, n, branches);
        JoinIsSilent(w, t.results, f, n, branches);
      } else if !branches[p[0]].ctl.Raised? {
        ActNoTop(w, ex, branches[p[0]], v, p[1..]);
      }
    case _ =>
  }

  /** What every state of one attempt keeps. */
  ghost predicate Sane(w: World, rank: Rank, top: int, c: Config) {
    Separate(c.thread.ctl) && Owned(c) && RootOk(c.thread.ctl) && NoRepeat(w, rank, c.thread.ctl, top)
  }

  lemma {:induction false} StepSane(w: World, rank: Rank, top: int, ex: Exec, c: Config, p: seq<string>)
    requires Acyclic(w, rank, top) && Sane(w, rank, top, c) && Step(w, ex, c, p).Some?
    ensures Sane(w, rank, top, Step(w, ex, c, p).value)
    ensures Grows(c.shared.table, Step(w, ex, c, p).value.shared.table)
  {
    hide Act, KeyAt, Separate, Owned, RootOk, NoRepeat;
    var v := Look(c.shared, KeyAt(c.thread.ctl, p));
    StepSeparate(w, ex, c, p);
    StepOwned(w, ex, c, p);
    ActRootOk(w, ex, c.thread, v, p);
    ActNoRepeat(w, rank, ex, c.thread, v, p, top);
  }

  /**
    How a crash-free run ends. Without `exn` it ends by itself, at `last`; with one, the move after `last` raises
    it, no branch being on its way, and `end` is what that move leaves.
  */
  datatype Goal = Goal(last: Config, exn: Option<Exn>, end: Config)

  ghost predicate Ends(w: World, ex: Exec, goal: Goal) {
    && Clean(goal.last)
    && match goal.exn
       case None => goal.end == goal.last && goal.last.thread.ctl.Done?
       case Some(exn) =>
         && Single(goal.last.thread.ctl) && goal.last.shared.budget > 0
         && Step(w, ex, goal.last, []) == Some(goal.end) && Unwinding(goal.end.thread.ctl, exn)
  }

  /** `b` is a state of a crash-free run that goes on to `goal`. */
  ghost predicate OnTrack(w: World, rank: Rank, top: int, ex: Exec, b: Config, rest: seq<seq<string>>, goal: Goal) {
    && Acyclic(w, rank, top) && Sane(w, rank, top, b)
    && Run(w, ex, b, rest) == Some(goal.last) && Ends(w, ex, goal)
    && Grows(goal.last.shared.table, goal.end.shared.table)
  }

  /** The next move of this state raises the exception. */
  predicate AtTheEnd(rest: seq<seq<string>>, goal: Goal) {
    rest == [] && goal.exn.Some?
  }

  lemma {:induction false} TrackContinues(w: World, rank: Rank, top: int, ex: Exec, b: Config, rest: seq<seq<string>>,
                                          goal: Goal, p: seq<string>)
    returns (rest': seq<seq<string>>)
    requires OnTrack(w, rank, top, ex, b, rest, goal) && Step(w, ex, b, p).Some? && !AtTheEnd(rest, goal)
    ensures OnTrack(w, rank, top, ex, Step(w, ex, b, p).value, rest', goal)
    ensures Clean(b) && Clean(Step(w, ex, b, p).value)
    ensures Grows(b.shared.table, goal.end.shared.table)
    ensures Grows(Step(w, ex, b, p).value.shared.table, goal.end.shared.table)
  {
    hide Act, KeyAt, Separate, Owned, Sound, NoRepeat, RootOk;
    if rest == [] { FinishedCannotMove(w, ex, b, p); }
    rest' := MoveFirst(w, ex, b, rest, p);
    StepSane(w, rank, top, ex, b, p);
    CleanAtStart(w, ex, b, rest);
    CleanAtStart(w, ex, Step(w, ex, b, p).value, rest');
    RunGrows(w, ex, b, rest);
    RunGrows(w, ex, Step(w, ex, b, p).value, rest');
  }

  lemma {:induction false} FreshFromRank(w: World, rank: Rank, top: int, c: Config)
    requires Sane(w, rank, top, c)
    ensures FreshAtTop(c.thread.ctl)
  {
  }

  /** The resumed walk `a` and the crash-free walk `b` are alike, and `a`'s step rows lie between `b`'s and the
      crash-free run's last ones. */
  ghost predicate Follows(hidden: set<string>, a: Config, b: Config, end: Config) {
    && Twins(hidden, a.thread, b.thread, true)
    && Grows(b.shared.table, a.shared.table) && Grows(a.shared.table, end.shared.table)
    && a.shared.budget >= b.shared.budget && !a.shared.abort
  }

  lemma {:induction false} SameKey(hidden: set<string>, a: Control, b: Control, p: seq<string>, top: bool)
    requires Alike(hidden, a, b, top)
    ensures KeyAt(a, p) == KeyAt(b, p)
    ensures ChainAt(a, p).Claiming? == ChainAt(b, p).Claiming?
    decreases a
  {
    match a
    case Fanout(f, n, output, items, body) =>
      assert Alike(hidden, body, b.body, false);
      SameKey(hidden, body, b.body, p, false);
    case Fork(f, n, branches) =>
      if p != [] && p[0] in branches {
        SameKey(hidden, branches[p[0]].ctl, b.branches[p[0]].ctl, p[1..], false);
      }
    case _ =>
  }

  lemma {:induction false} AlikeCanMove(w: World, ex: Exec, hidden: set<string>, a: Thread, b: Thread, va: View,
                                        vb: View, p: seq<string>, top: bool)
    requires Alike(hidden, a.ctl, b.ctl, top) && Act(w, ex, a, va, p).Some?
    ensures Act(w, ex, b, vb, p).Some?
    decreases a.ctl
  {
    hide AtHead, AtClaim, AtExecute, NextItem, Join;
    match a.ctl
    case Fanout(f, n, output, items, body) =>
      assert Alike(hidden, body, b.ctl.body, false);
      if !Finished(body) {
        AlikeCanMove(w, ex, hidden, Thread(a.results, body), Thread(b.results, b.ctl.body), va, vb, p, false);
      }
    case Fork(f, n, branches) =>
      if p != [] {
        AlikeCanMove(w, ex, hidden, branches[p[0]], b.ctl.branches[p[0]], va, vb, p[1..], false);
      } else {
        AlikeAtRest(hidden, branches, b.ctl.branches);
      }
    case _ =>
  }

  lemma {:induction false} AlikeAtRest(hidden: set<string>, a: map<string, Thread>, b: map<string, Thread>)
    requires a.Keys == b.Keys && AllAtRest(a)
    requires forall l | l in a :: Alike(hidden, a[l].ctl, b[l].ctl, false)
    ensures AllAtRest(b)
  {
    forall l | l in b
      ensures AtRest(b[l].ctl)
    {
      assert AtRest(a[l].ctl);
    }
  }

  lemma {:induction false} AlikeIsSound(hidden: set<string>, a: Control, b: Control, top: bool)
    requires Alike(hidden, a, b, top)
    ensures Sound(a)
    decreases a
  {
    match a
    case Fanout(_, _, _, _, body) => AlikeIsSound(hidden, body, b.body, false);
    case Fork(_, _, branches) =>
      forall l | l in branches
        ensures Sound(branches[l].ctl)
      {
        AlikeIsSound(hidden, branches[l].ctl, b.branches[l].ctl, false);
      }
    case _ =>
  }

  /** The leaf that looks at a row is claiming it or executing its node. */
  lemma {:induction false} KeyMeansLeaf(c: Control, p: seq<string>)
    requires KeyAt(c, p).Some?
    ensures ChainAt(c, p).Claiming? || ChainAt(c, p).Executing?
    decreases c
  {
    match c
    case Fanout(_, _, _, _, body) => KeyMeansLeaf(body, p);
    case Fork(_, _, branches) => KeyMeansLeaf(branches[p[0]].ctl, p[1..]);
    case _ =>
  }

  /** The attempt has raised the exception of the crash-free run, and leaves its step rows. */
  ghost predicate Over(goal: Goal, c: Config) {
    goal.exn.Some? && Unwinding(c.thread.ctl, goal.exn.value) && c.shared.table == goal.end.shared.table
  }

  /** The walk `a` finds a row completed that `b` has still to fill. */
  predicate IsHit(a: Config, b: Config, p: seq<string>) {
    var k := KeyAt(a.thread.ctl, p);
    ChainAt(a.thread.ctl, p).Claiming? && k.Some? && Committed(a.shared.table, k.value)
        && !Committed(b.shared.table, k.value)
  }

  /** Where only one move is possible it is made at the root. */
  lemma {:induction false} OnlyRootMoves(w: World, ex: Exec, c: Config, p: seq<string>)
    requires Single(c.thread.ctl) && Step(w, ex, c, p).Some?
    ensures p == []
  {
    hide Act, KeyAt;
    SettledStaysPut(w, ex, c.thread, Look(c.shared, KeyAt(c.thread.ctl, p)), p);
  }

  lemma {:induction false} ClaimingIsSingle(c: Control)
    requires ChainAt(c, []).Claiming? || ChainAt(c, []).Executing?
    ensures Single(c)
    decreases c
  {
    if c.Fanout? && !Finished(c.body) { ClaimingIsSingle(c.body); }
  }

  /** Claiming a row completes none. */
  lemma {:induction false} ClaimCommitsNothing(w: World, ex: Exec, c: Config, p: seq<string>)
    requires Step(w, ex, c, p).Some? && ChainAt(c.thread.ctl, p).Claiming? && KeyAt(c.thread.ctl, p).Some?
    requires !Committed(c.shared.table, KeyAt(c.thread.ctl, p).value)
    ensures !Committed(Step(w, ex, c, p).value.shared.table, KeyAt(c.thread.ctl, p).value)
  {
    hide Act, KeyAt, ChainAt;
    var v := Look(c.shared, KeyAt(c.thread.ctl, p));
    if Act(w, ex, c.thread, v, p).value.effect.write.Some? { WriteKinds(w, ex, c.thread, v, p); }
  }

  /** The row `a` found was completed by the crash-free run, which therefore has moves to make. */
  lemma {:induction false} HitIsNotTheEnd(w: World, rank: Rank, top: int, ex: Exec, hidden: set<string>, a: Config,
                                          b: Config, rest: seq<seq<string>>, goal: Goal, p: seq<string>)
    requires OnTrack(w, rank, top, ex, b, rest, goal) && Follows(hidden, a, b, goal.end)
    requires IsHit(a, b, p) && Step(w, ex, a, p).Some?
    ensures !AtTheEnd(rest, goal)
  {
    hide Act, KeyAt, ChainAt, Sane, Acyclic, Alike, SameBut, Single, Sound;
    if AtTheEnd(rest, goal) {
      EmptyRun(w, ex, b);
      SameKey(hidden, a.thread.ctl, b.thread.ctl, p, true);
      AlikeCanMove(w, ex, hidden, a.thread, b.thread, Look(a.shared, KeyAt(a.thread.ctl, p)),
                   Look(b.shared, KeyAt(b.thread.ctl, p)), p, true);
      OnlyRootMoves(w, ex, b, p);
      ClaimCommitsNothing(w, ex, b, p);
    }
  }

  /** When `a` finds a row completed that `b` has still to fill: `b` claims the row and executes the node. */
  lemma {:induction false} FollowHit(w: World, rank: Rank, top: int, ex: Exec, hidden: set<string>, a: Config,
                                     b: Config, rest: seq<seq<string>>, goal: Goal, p: seq<string>)
    returns (over: bool, b': Config, rest': seq<seq<string>>)
    requires OnTrack(w, rank, top, ex, b, rest, goal) && Follows(hidden, a, b, goal.end)
    requires FindsAt(hidden, a.thread, p) && FreshAtTop(a.thread.ctl)
    requires Step(w, ex, a, p).Some? && IsHit(a, b, p)
    ensures over ==> Over(goal, Step(w, ex, a, p).value)
    ensures !over ==>
              OnTrack(w, rank, top, ex, b', rest', goal) && Follows(hidden, Step(w, ex, a, p).value, b', goal.end)
  {
    hide Act, KeyAt, ChainAt, Separate, Owned, Sound, Alike, SameBut, FindsAt, Run, NoRepeat, RootOk, Ranked, Ends,
        Unwinding;
    HitIsNotTheEnd(w, rank, top, ex, hidden, a, b, rest, goal, p);
    FreshFromRank(w, rank, top, b);
    var k := KeyAt(a.thread.ctl, p);
    var va, vb := Look(a.shared, k), Look(b.shared, k);
    SameKey(hidden, a.thread.ctl, b.thread.ctl, p, true);
    AlikeCanMove(w, ex, hidden, a.thread, b.thread, va, vb, p, true);
    var rest1 := TrackContinues(w, rank, top, ex, b, rest, goal, p);
    var b1 := Step(w, ex, b, p).value;
    var v1 := Look(b1.shared, k);
    ClaimThenExecute(w, ex, b.thread, vb, v1, p);
    over := AtTheEnd(rest1, goal);
    b', rest' := b, rest;
    if over {
      HitRaises(w, rank, top, ex, hidden, a, b, b1, goal, p);
    } else {
      rest' := TrackContinues(w, rank, top, ex, b1, rest1, goal, p);
      b' := Step(w, ex, b1, p).value;
      var m' := Act(w, ex, b1.thread, v1, p).value;
      assert m'.effect.write.value == goal.end.shared.table[k.value] == a.shared.table[k.value];
      AlikeMoves(w, ex, hidden, a.thread, b.thread, va, vb.(row := m'.effect.write), p, true);
      var ma := Act(w, ex, a.thread, va, p).value;
      if ma.effect.write.Some? { WriteKinds(w, ex, a.thread, va, p); }
    }
  }

  /** The step that `a` finds completed is the one that raises. */
  lemma {:induction false} HitRaises(w: World, rank: Rank, top: int, ex: Exec, hidden: set<string>, a: Config,
                                     b: Config, b1: Config, goal: Goal, p: seq<string>)
    requires OnTrack(w, rank, top, ex, b1, [], goal) && goal.exn.Some? && Follows(hidden, a, b, goal.end) && Clean(b)
    requires FindsAt(hidden, a.thread, p) && Step(w, ex, a, p).Some? && IsHit(a, b, p)
    requires Step(w, ex, b, p) == Some(b1)
    ensures Over(goal, Step(w, ex, a, p).value)
  {
    hide Act, KeyAt, ChainAt, Sane, Acyclic, Sound, Alike, SameBut, FindsAt, Single, Unwinding;
    EmptyRun(w, ex, b1);
    var k := KeyAt(a.thread.ctl, p);
    var va, vb, v1 := Look(a.shared, k), Look(b.shared, k), Look(b1.shared, k);
    SameKey(hidden, a.thread.ctl, b.thread.ctl, p, true);
    ClaimThenExecute(w, ex, b.thread, vb, v1, p);
    OnlyRootMoves(w, ex, b1, p);
    ClaimingIsSingle(b.thread.ctl);
    var m' := Act(w, ex, b1.thread, v1, p).value;
    ClaimCommitsNothing(w, ex, b, p);
    assert m'.effect.write.Some? && m'.effect.write.value == goal.end.shared.table[k.value] == a.shared.table[k.value];
    var write := RaiseAlike(w, ex, hidden, a.thread, b.thread, va, vb.(row := m'.effect.write), true, goal.exn.value);
    var end, a' := goal.end.shared.table, Step(w, ex, a, p).value;
    assert a'.shared.table == a.shared.table;
    StepGrowsOnlyAt(w, ex, b, p);
    StepGrowsOnlyAt(w, ex, b1, p);
    SameTable(a.shared.table, end);
  }

  /** A step changes at most the row at its key. */
  lemma {:induction false} StepGrowsOnlyAt(w: World, ex: Exec, c: Config, p: seq<string>)
    requires Step(w, ex, c, p).Some?
    ensures forall k: StepKey | Some(k) != KeyAt(c.thread.ctl, p) ::
              Lookup(Step(w, ex, c, p).value.shared.table, k) == Lookup(c.shared.table, k)
  {
    hide Act, KeyAt;
  }

  /** Every other move is the same move of both walks. */
  lemma {:induction false} FollowSame(w: World, rank: Rank, top: int, ex: Exec, hidden: set<string>, a: Config,
                                      b: Config, rest: seq<seq<string>>, goal: Goal, p: seq<string>)
    returns (b': Config, rest': seq<seq<string>>)
    requires OnTrack(w, rank, top, ex, b, rest, goal) && Follows(hidden, a, b, goal.end) && Owned(a)
    requires FindsAt(hidden, a.thread, p) && FreshAtTop(a.thread.ctl)
    requires Step(w, ex, a, p).Some? && !IsHit(a, b, p) && !AtTheEnd(rest, goal)
    ensures OnTrack(w, rank, top, ex, b', rest', goal) && Follows(hidden, Step(w, ex, a, p).value, b', goal.end)
  {
    hide Act, KeyAt, ChainAt, Separate, Sound, Alike, SameBut, FindsAt, Run, NoRepeat, RootOk, Ranked;
    FreshFromRank(w, rank, top, b);
    var k := KeyAt(a.thread.ctl, p);
    var va, vb := Look(a.shared, k), Look(b.shared, k);
    SameKey(hidden, a.thread.ctl, b.thread.ctl, p, true);
    AlikeCanMove(w, ex, hidden, a.thread, b.thread, va, vb, p, true);
    rest' := TrackContinues(w, rank, top, ex, b, rest, goal, p);
    b' := Step(w, ex, b, p).value;
    if k.Some? { KeyMeansLeaf(a.thread.ctl, p); }
    assert SameSight(va, vb);
    AlikeMoves(w, ex, hidden, a.thread, b.thread, va, vb, p, true);
    var mb := Act(w, ex, b.thread, vb, p).value;
    if mb.effect.write.Some? { WriteKinds(w, ex, b.thread, vb, p); }
    var ma := Act(w, ex, a.thread, va, p).value;
    if ma.effect.write.Some? { WriteKinds(w, ex, a.thread, va, p); }
    if k.Some? && ma.effect.write == Some(Running) { ClaimInserts(w, ex, b.thread, vb, p); }
    if k.Some? && mb.effect.write == Some(Running) {
      KeyMeansLeaf(b.thread.ctl, p);
      assert !ExecutesAt(b.thread.ctl, p);
      AlikeIsSound(hidden, ma.thread.ctl, mb.thread.ctl, true);
      ClaimInserts(w, ex, a.thread, va, p);
    }
  }

  /** The last move before the exception is the move of both walks. */
  lemma {:induction false} RaiseTogether(w: World, rank: Rank, top: int, ex: Exec, hidden: set<string>, a: Config,
                                         b: Config, goal: Goal, p: seq<string>)
    requires OnTrack(w, rank, top, ex, b, [], goal) && goal.exn.Some? && Follows(hidden, a, b, goal.end) && Owned(a)
    requires FindsAt(hidden, a.thread, p) && Step(w, ex, a, p).Some? && !IsHit(a, b, p)
    ensures Over(goal, Step(w, ex, a, p).value)
  {
    hide Act, KeyAt, ChainAt, Sane, Acyclic, Sound, Alike, SameBut, FindsAt, Single, Unwinding;
    EmptyRun(w, ex, b);
    var k := KeyAt(a.thread.ctl, p);
    var va, vb := Look(a.shared, k), Look(b.shared, k);
    SameKey(hidden, a.thread.ctl, b.thread.ctl, p, true);
    AlikeCanMove(w, ex, hidden, a.thread, b.thread, va, vb, p, true);
    OnlyRootMoves(w, ex, b, p);
    if k.Some? { KeyMeansLeaf(a.thread.ctl, p); }
    assert SameSight(va, vb);
    var write := RaiseAlike(w, ex, hidden, a.thread, b.thread, va, vb, true, goal.exn.value);
    var end, a' := goal.end.shared.table, Step(w, ex, a, p).value;
    StepGrowsOnlyAt(w, ex, a, p);
    StepGrowsOnlyAt(w, ex, b, p);
    assert Grows(a'.shared.table, end) && Grows(end, a'.shared.table);
    SameTable(a'.shared.table, end);
  }

  /** After a claim that did not find a completed row, the row is there. */
  lemma {:induction false} ClaimInserts(w: World, ex: Exec, t: Thread, v: View, p: seq<string>)
    requires ChainAt(t.ctl, p).Claiming? && KeyAt(t.ctl, p).Some? && v.row in {None, Some(Running)}
    requires Act(w, ex, t, v, p).Some? && Sound(Act(w, ex, t, v, p).value.thread.ctl)
    ensures v.row.None? ==> Act(w, ex, t, v, p).value.effect.write == Some(Running)
    decreases t.ctl
  {
    hide AtHead, Evaluate, Route, NextItem, Join;
    match t.ctl
    case Fanout(f, n, output, items, body) =>
      ClaimInserts(w, ex, Thread(t.results, body), v, p);
    case Fork(f, n, branches) =>
      SoundBefore(w, ex, t, v, p);
      InBranch(w, ex, t, v, p);
      var m := Act(w, ex, branches[p[0]], v, p[1..]).value;
      assert branches[p[0] := m.thread][p[0]] == m.thread;
      ClaimInserts(w, ex, branches[p[0]], v, p[1..]);
    case _ =>
  }

  lemma {:induction false} EmptyRun(w: World, ex: Exec, c: Config)
    ensures Run(w, ex, c, []) == Some(c)
  {
  }

  lemma {:induction false} SameTable(a: map<StepKey, Row>, b: map<StepKey, Row>)
    requires Grows(a, b) && Grows(b, a)
    ensures a == b
  {
    assert a.Keys == b.Keys;
    forall k | k in a
      ensures a[k] == b[k]
    {
    }
  }
}
