/**
  Concurrent fork branches do not interfere. Two moves of different threads commute, because their step
  rows carry different iteration keys; so if one schedule brings a run to a clean end, every schedule does,
  in the same number of steps and in the same state.
*/
module Confluence {
  import opened Base
  import opened Ir
  import opened JsonValues
  import opened IterationKeys
  import opened Machine

  // ---------------------------------------------------------------- key spaces

  /** Row keys of the subtree with key `base`. */
  predicate Below(base: string, key: string) {
    key == base || base + ":" <= key
  }

  /** Every chain in `c` is nested, and its rows lie below `base`. */
  ghost predicate Within(c: Control, base: string)
    decreases c
  {
    match c
    case Head(f, _) => !f.top && Below(base, f.key)
    case Claiming(f, _) => !f.top && Below(base, f.key)
    case Executing(f, _) => !f.top && Below(base, f.key)
    case Fanout(f, _, _, _, body) => !f.top && Below(base, f.key) && Within(body, base)
    case Fork(f, _, branches) =>
      !f.top && Below(base, f.key) && forall l | l in branches :: Within(branches[l].ctl, base)
    case _ => true
  }

  ghost predicate PlainLabels(n: IRNode) {
    forall l | l in n.edges :: ColonFree(l)
  }

  ghost predicate PlainWorld(w: World) {
    forall id | id in w.nodes :: PlainLabels(w.nodes[id])
  }

  /** The branches of every fork in `c` write to disjoint key spaces. */
  ghost predicate Separate(c: Control)
    decreases c
  {
    match c
    case Claiming(_, n) => PlainLabels(n)
    case Executing(_, n) => PlainLabels(n)
    case Fanout(_, n, _, _, body) => Separate(body)
    case Fork(f, n, branches) =>
      forall l | l in branches ::
        ColonFree(l) && Within(branches[l].ctl, ForkKey(f.key, l)) && Separate(branches[l].ctl)
    case _ => true
  }

  lemma {:induction false} ComposeBelow(base: string, key: string, token: string)
    requires base != "" && Below(base, key)
    ensures Below(base, Compose(key, token))
  {
    if key == base {
      assert Compose(key, token) == (base + ":") + token;
    } else {
      assert Compose(key, token)[..|base| + 1] == base + ":";
    }
  }

  /** The text before the first colon. */
  function Leading(s: string): string {
    if s == "" || s[0] == ':' then "" else [s[0]] + Leading(s[1..])
  }

  lemma {:induction false} LeadingOf(l: string, rest: string)
    requires ColonFree(l) && (rest == "" || rest[0] == ':')
    ensures Leading(l + rest) == l
  {
    if l == "" {
      assert l + rest == rest;
    } else {
      assert (l + rest)[1..] == l[1..] + rest;
      LeadingOf(l[1..], rest);
    }
  }

  function ForkPrefix(key: string): string {
    if key == "" then "fork:" else key + ":fork:"
  }

  /** The label of a fork branch can be read back from any key of that branch. */
  lemma {:induction false} LabelOfKey(key: string, l: string, k: string)
    requires ColonFree(l) && Below(ForkKey(key, l), k)
    ensures |ForkPrefix(key)| <= |k| && Leading(k[|ForkPrefix(key)|..]) == l
  {
    var prefix := ForkPrefix(key);
    assert ForkKey(key, l) == prefix + l;
    var rest := k[|prefix + l|..];
    assert k[|prefix|..] == l + rest;
    LeadingOf(l, rest);
  }

  lemma {:induction false} RowKeyBelow(base: string, f: Frame, n: nat)
    requires base != "" && Below(base, f.key)
    ensures Below(base, RowKey(f.key, n))
  {
    ComposeBelow(base, f.key, VisitToken(n));
  }

  lemma {:induction false} KeyAtWithin(c: Control, base: string, p: seq<string>)
    requires base != "" && Within(c, base) && KeyAt(c, p).Some?
    ensures Below(base, KeyAt(c, p).value.1)
    decreases c
  {
    match c
    case Fanout(f, n, output, items, body) => KeyAtWithin(body, base, p);
    case Fork(f, n, branches) => KeyAtWithin(branches[p[0]].ctl, base, p[1..]);
    case Head(_, _) =>
    case Done(_, _) =>
    case Raised(_) =>
    case Claiming(f, n) => RowKeyBelow(base, f, Visits(f, n.id));
    case Executing(f, n) => RowKeyBelow(base, f, Visits(f, n.id));
  }

  /** Two different threads that can move never look at the same step row. */
  lemma {:induction false} KeysDiffer(c: Control, p: seq<string>, q: seq<string>)
    requires Separate(c) && p != q
    requires KeyAt(c, p).Some? && KeyAt(c, q).Some?
    ensures KeyAt(c, p) != KeyAt(c, q)
    decreases c
  {
    match c
    case Fanout(f, n, output, items, body) => KeysDiffer(body, p, q);
    case Fork(f, n, branches) =>
      if p[0] == q[0] {
        KeysDiffer(branches[p[0]].ctl, p[1..], q[1..]);
      } else {
        KeyAtWithin(branches[p[0]].ctl, ForkKey(f.key, p[0]), p[1..]);
        KeyAtWithin(branches[q[0]].ctl, ForkKey(f.key, q[0]), q[1..]);
        LabelOfKey(f.key, p[0], KeyAt(c, p).value.1);
        LabelOfKey(f.key, q[0], KeyAt(c, q).value.1);
      }
    case _ =>
  }

  // ---------------------------------------------------------------- key spaces are kept

  lemma {:induction false} BranchesWithin(f: Frame, n: IRNode, results: Results, base: string)
    requires base != "" && Below(base, f.key)
    ensures forall l | l in Branches(f, n, results) :: Within(Branches(f, n, results)[l].ctl, base)
  {
    forall l | l in n.edges
      ensures Below(base, ForkKey(f.key, l))
    {
      ComposeBelow(base, f.key, "fork:" + l);
    }
  }

  lemma {:induction false} CommitWithin(w: World, results: Results, f: Frame, n: IRNode, output: Output,
                                        write: Option<Row>, base: string)
    requires base != "" && Below(base, f.key) && !f.top
    ensures Within(Commit(w, results, f, n, output, write).thread.ctl, base)
    ensures Commit(w, results, f, n, output, write).effect.touch.None?
  {
    BranchesWithin(f.(last := Some(output)), n, results[n.id := output], base);
  }

  lemma {:induction false} NextItemWithin(w: World, results: Results, f: Frame, n: IRNode, output: Output,
                                          items: seq<Json>, body: Control, v: View, base: string)
    requires base != "" && Below(base, f.key) && !f.top && Finished(body)
    ensures Within(NextItem(w, results, f, n, output, items, body, v).thread.ctl, base)
    ensures NextItem(w, results, f, n, output, items, body, v).effect.touch.None?
  {
    if items != [] {
      ComposeBelow(base, f.key, w.codec.show(items[0]));
    }
  }

  lemma {:induction false} ReplaceWithin(branches: map<string, Thread>, l: string, b: Thread, base: string)
    requires forall m | m in branches :: Within(branches[m].ctl, base)
    requires Within(b.ctl, base)
    ensures var branches' := branches[l := b]; forall m | m in branches' :: Within(branches'[m].ctl, base)
  {
  }

  lemma {:induction false} ActWithin(w: World, ex: Exec, t: Thread, v: View, p: seq<string>, base: string)
    requires base != "" && Within(t.ctl, base) && Act(w, ex, t, v, p).Some?
    ensures Within(Act(w, ex, t, v, p).value.thread.ctl, base)
    ensures Act(w, ex, t, v, p).value.effect.touch.None?
    decreases t.ctl
  {
    hide Commit, NextItem, Evaluate, JoinOutput;
    match t.ctl
    case Head(f, current) =>
    case Claiming(f, n) =>
      if v.row.Some? && v.row.value.Completed? {
        CommitWithin(w, t.results, f, n, v.row.value.output, None, base);
      }
    case Executing(f, n) =>
      var r := Evaluate(w, ex, t.results, n, f.account, LoopCount(f, n));
      if r.Produced? {
        CommitWithin(w, t.results, f, n, r.output, Some(Completed(r.output)), base);
      }
    case Fanout(f, n, output, items, body) =>
      if !Finished(body) {
        ActWithin(w, ex, Thread(t.results, body), v, p, base);
      } else {
        NextItemWithin(w, t.results, f, n, output, items, body, v, base);
      }
    case Fork(f, n, branches) =>
      if p != [] && !branches[p[0]].ctl.Raised? {
        ActWithin(w, ex, branches[p[0]], v, p[1..], base);
        ReplaceWithin(branches, p[0], Act(w, ex, branches[p[0]], v, p[1..]).value.thread, base);
      }
    case Done(_, _) =>
    case Raised(_) =>
  }

  lemma {:induction false} CommitSeparate(w: World, results: Results, f: Frame, n: IRNode, output: Output,
                                          write: Option<Row>)
    requires PlainLabels(n)
    ensures Separate(Commit(w, results, f, n, output, write).thread.ctl)
  {
    hide FanoutItems, Compose;
  }

  lemma {:induction false} ForkSeparate(f: Frame, n: IRNode, branches: map<string, Thread>, l: string, b: Thread)
    requires Separate(Fork(f, n, branches)) && l in branches
    requires Within(b.ctl, ForkKey(f.key, l)) && Separate(b.ctl)
    ensures Separate(Fork(f, n, branches[l := b]))
  {
  }

  lemma {:induction false} ActSeparate(w: World, ex: Exec, t: Thread, v: View, p: seq<string>)
    requires PlainWorld(w) && Separate(t.ctl) && Act(w, ex, t, v, p).Some?
    ensures Separate(Act(w, ex, t, v, p).value.thread.ctl)
    decreases t.ctl
  {
    hide Commit, Evaluate, JoinOutput;
    match t.ctl
    case Head(f, current) =>
    case Claiming(f, n) =>
      if v.row.Some? && v.row.value.Completed? {
        CommitSeparate(w, t.results, f, n, v.row.value.output, None);
      }
    case Executing(f, n) =>
      var r := Evaluate(w, ex, t.results, n, f.account, LoopCount(f, n));
      if r.Produced? {
        CommitSeparate(w, t.results, f, n, r.output, Some(Completed(r.output)));
      }
    case Fanout(f, n, output, items, body) =>
      if !Finished(body) {
        ActSeparate(w, ex, Thread(t.results, body), v, p);
      }
    case Fork(f, n, branches) =>
      ActSeparateInFork(w, ex, t, v, p);
    case Done(_, _) =>
    case Raised(_) =>
  }

  lemma {:induction false} ActSeparateInFork(w: World, ex: Exec, t: Thread, v: View, p: seq<string>)
    requires PlainWorld(w) && Separate(t.ctl) && Act(w, ex, t, v, p).Some? && t.ctl.Fork?
    ensures Separate(Act(w, ex, t, v, p).value.thread.ctl)
    decreases t.ctl, 0
  {
    hide AtHead, AtClaim, AtExecute, NextItem, JoinOutput;
    var Fork(f, n, branches) := t.ctl;
    if p != [] && !branches[p[0]].ctl.Raised? {
      ActSeparate(w, ex, branches[p[0]], v, p[1..]);
      ActWithin(w, ex, branches[p[0]], v, p[1..], ForkKey(f.key, p[0]));
      ForkSeparate(f, n, branches, p[0], Act(w, ex, branches[p[0]], v, p[1..]).value.thread);
    }
  }

  // ---------------------------------------------------------------- clean states

  /** No exception anywhere in the tree. */
  ghost predicate Sound(c: Control)
    decreases c
  {
    match c
    case Raised(_) => false
    case Fanout(_, _, _, _, body) => Sound(body)
    case Fork(_, _, branches) => forall l | l in branches :: Sound(branches[l].ctl)
    case _ => true
  }

  /** An exception never goes away: a sound state has only sound predecessors. */
  lemma {:induction false} SoundBefore(w: World, ex: Exec, t: Thread, v: View, p: seq<string>)
    requires Act(w, ex, t, v, p).Some? && Sound(Act(w, ex, t, v, p).value.thread.ctl)
    ensures Sound(t.ctl)
    decreases t.ctl
  {
    hide AtHead, AtClaim, AtExecute, JoinOutput;
    match t.ctl
    case Fanout(f, n, output, items, body) =>
      if !Finished(body) {
        SoundBefore(w, ex, Thread(t.results, body), v, p);
      }
    case Fork(f, n, branches) =>
      if p != [] && !branches[p[0]].ctl.Raised? {
        var m := Act(w, ex, branches[p[0]], v, p[1..]).value;
        var branches' := branches[p[0] := m.thread];
        assert Sound(branches'[p[0]].ctl);
        SoundBefore(w, ex, branches[p[0]], v, p[1..]);
        assert forall l | l in branches :: l != p[0] ==> branches'[l] == branches[l];
      } else if p == [] {
        assert forall l | l in branches :: branches[l].ctl.Done? || AnyAborted(branches);
      }
    case _ =>
  }

  /** A clean move does not depend on how much budget is left beyond what it spends itself. */
  lemma {:induction false} BudgetLeft(w: World, ex: Exec, t: Thread, v: View, p: seq<string>)
    requires Act(w, ex, t, v, p).Some? && Sound(Act(w, ex, t, v, p).value.thread.ctl)
    ensures Act(w, ex, t, v, p).value.effect.cost ==> v.left
    ensures Act(w, ex, t, v.(left := true), p) == Act(w, ex, t, v, p)
    ensures !Act(w, ex, t, v, p).value.effect.cost ==> Act(w, ex, t, v.(left := false), p) == Act(w, ex, t, v, p)
    decreases t.ctl
  {
    hide Route, Evaluate, CheckStopCondition, JoinOutput, JoinIds;
    match t.ctl
    case Fanout(f, n, output, items, body) =>
      if !Finished(body) {
        BudgetLeft(w, ex, Thread(t.results, body), v, p);
      }
    case Fork(f, n, branches) =>
      if p != [] && !branches[p[0]].ctl.Raised? {
        var m := Act(w, ex, branches[p[0]], v, p[1..]).value;
        assert Sound(branches[p[0] := m.thread][p[0]].ctl);
        BudgetLeft(w, ex, branches[p[0]], v, p[1..]);
      }
    case _ =>
  }

  /** What a move inside a branch of a sound fork looks like from the fork. */
  lemma {:induction false} InBranch(w: World, ex: Exec, t: Thread, v: View, p: seq<string>)
    requires t.ctl.Fork? && Sound(t.ctl) && p != [] && Act(w, ex, t, v, p).Some?
    ensures p[0] in t.ctl.branches && !t.ctl.branches[p[0]].ctl.Raised? && Sound(t.ctl.branches[p[0]].ctl)
    ensures var m := Act(w, ex, t.ctl.branches[p[0]], v, p[1..]);
            && m.Some?
            && Act(w, ex, t, v, p).value == InFork(t.results, t.ctl.frame, t.ctl.node, t.ctl.branches, p[0], m.value)
  {
    hide AtHead, AtClaim, AtExecute, NextItem, Join;
    assert Sound(t.ctl.branches[p[0]].ctl);
  }

  ghost predicate Commute(w: World, ex: Exec, t: Thread, vp: View, vq: View, p: seq<string>, q: seq<string>, mp: Move,
                          mq: Move) {
    && KeyAt(mp.thread.ctl, q) == KeyAt(t.ctl, q)
    && KeyAt(mq.thread.ctl, p) == KeyAt(t.ctl, p)
    && Act(w, ex, mp.thread, vq, q).Some?
    && Act(w, ex, mq.thread, vp, p).Some?
    && Act(w, ex, mp.thread, vq, q).value.thread == Act(w, ex, mq.thread, vp, p).value.thread
    && Act(w, ex, mp.thread, vq, q).value.effect == mq.effect
    && Act(w, ex, mq.thread, vp, p).value.effect == mp.effect
  }

  lemma {:induction false} CommuteInSameBranch(w: World, ex: Exec, t: Thread, vp: View, vq: View,
                                               p: seq<string>, q: seq<string>, mp: Move, mq: Move)
    requires t.ctl.Fork? && p != [] && q != [] && p[0] == q[0] && p[0] in t.ctl.branches
    requires Commute(w, ex, t.ctl.branches[p[0]], vp, vq, p[1..], q[1..], mp, mq)
    ensures Commute(w, ex, t, vp, vq, p, q,
                    InFork(t.results, t.ctl.frame, t.ctl.node, t.ctl.branches, p[0], mp),
                    InFork(t.results, t.ctl.frame, t.ctl.node, t.ctl.branches, p[0], mq))
  {
    hide AtHead, AtClaim, AtExecute, NextItem, Join;
    var bs := t.ctl.branches;
    var mpq := Act(w, ex, mp.thread, vq, q[1..]).value;
    var mqp := Act(w, ex, mq.thread, vp, p[1..]).value;
    assert !mp.thread.ctl.Raised? && !mq.thread.ctl.Raised?;
    assert bs[p[0] := mp.thread][p[0]] == mp.thread && bs[p[0] := mq.thread][p[0]] == mq.thread;
    assert bs[p[0] := mp.thread][p[0] := mpq.thread] == bs[p[0] := mq.thread][p[0] := mqp.thread];
  }

  lemma {:induction false} CommuteAcrossBranches(w: World, ex: Exec, t: Thread, vp: View, vq: View,
                                                 p: seq<string>, q: seq<string>, mp: Move, mq: Move)
    requires t.ctl.Fork? && p != [] && q != [] && p[0] != q[0] && p[0] in t.ctl.branches && q[0] in t.ctl.branches
    requires !t.ctl.branches[p[0]].ctl.Raised? && Act(w, ex, t.ctl.branches[p[0]], vp, p[1..]) == Some(mp)
    requires !t.ctl.branches[q[0]].ctl.Raised? && Act(w, ex, t.ctl.branches[q[0]], vq, q[1..]) == Some(mq)
    ensures Commute(w, ex, t, vp, vq, p, q,
                    InFork(t.results, t.ctl.frame, t.ctl.node, t.ctl.branches, p[0], mp),
                    InFork(t.results, t.ctl.frame, t.ctl.node, t.ctl.branches, q[0], mq))
  {
    hide AtHead, AtClaim, AtExecute, NextItem, Join;
    var bs := t.ctl.branches;
    assert bs[p[0] := mp.thread][q[0]] == bs[q[0]] && bs[q[0] := mq.thread][p[0]] == bs[p[0]];
    assert bs[p[0] := mp.thread][q[0] := mq.thread] == bs[q[0] := mq.thread][p[0] := mp.thread];
  }

  /** Moves of two different threads of one tree commute, each leaving the other's view alone. */
  lemma {:induction false} MovesCommute(w: World, ex: Exec, t: Thread, vp: View, vq: View, p: seq<string>,
                                        q: seq<string>)
    requires Sound(t.ctl) && p != q
    requires Act(w, ex, t, vp, p).Some? && Act(w, ex, t, vq, q).Some?
    ensures Commute(w, ex, t, vp, vq, p, q, Act(w, ex, t, vp, p).value, Act(w, ex, t, vq, q).value)
    decreases t.ctl
  {
    hide AtHead, AtClaim, AtExecute, NextItem, Join;
    match t.ctl
    case Fanout(f, n, output, items, body) =>
      MovesCommute(w, ex, Thread(t.results, body), vp, vq, p, q);
    case Fork(f, n, branches) =>
      TwoMovesInFork(w, ex, t, vp, vq, p, q);
      InBranch(w, ex, t, vp, p);
      InBranch(w, ex, t, vq, q);
      var mp := Act(w, ex, branches[p[0]], vp, p[1..]).value;
      var mq := Act(w, ex, branches[q[0]], vq, q[1..]).value;
      if p[0] == q[0] {
        MovesCommute(w, ex, branches[p[0]], vp, vq, p[1..], q[1..]);
        CommuteInSameBranch(w, ex, t, vp, vq, p, q, mp, mq);
      } else {
        CommuteAcrossBranches(w, ex, t, vp, vq, p, q, mp, mq);
      }
    case _ =>
  }

  lemma {:induction false} TwoMovesInFork(w: World, ex: Exec, t: Thread, vp: View, vq: View, p: seq<string>,
                                          q: seq<string>)
    requires t.ctl.Fork? && Sound(t.ctl) && p != q
    requires Act(w, ex, t, vp, p).Some? && Act(w, ex, t, vq, q).Some?
    ensures p != [] && q != []
  {
    hide AtHead, AtClaim, AtExecute, NextItem, Join;
  }

  // ---------------------------------------------------------------- the diamond

  ghost predicate Clean(c: Config) {
    Sound(c.thread.ctl) && !c.shared.abort
  }

  lemma {:induction false} CleanBefore(w: World, ex: Exec, c: Config, p: seq<string>)
    requires Step(w, ex, c, p).Some? && Clean(Step(w, ex, c, p).value)
    ensures Clean(c)
  {
    hide Act;
    SoundBefore(w, ex, c.thread, Look(c.shared, KeyAt(c.thread.ctl, p)), p);
  }

  lemma {:induction false} CleanAtStart(w: World, ex: Exec, c: Config, s: seq<seq<string>>)
    requires Run(w, ex, c, s).Some? && Clean(Run(w, ex, c, s).value)
    ensures Clean(c)
    decreases |s|
  {
    hide Step;
    if s != [] {
      CleanAtStart(w, ex, Step(w, ex, c, s[0]).value, s[1..]);
      CleanBefore(w, ex, c, s[0]);
    }
  }

  /** Threads below a fork never touch the run row. */
  lemma {:induction false} NoTouchInFork(w: World, ex: Exec, t: Thread, v: View, p: seq<string>)
    requires Separate(t.ctl) && p != [] && Act(w, ex, t, v, p).Some?
    ensures Act(w, ex, t, v, p).value.effect.touch.None?
    decreases t.ctl
  {
    hide AtHead, AtClaim, AtExecute, NextItem, Join;
    match t.ctl
    case Fanout(f, n, output, items, body) =>
      NoTouchInFork(w, ex, Thread(t.results, body), v, p);
    case Fork(f, n, branches) =>
      if !branches[p[0]].ctl.Raised? {
        ActWithin(w, ex, branches[p[0]], v, p[1..], ForkKey(f.key, p[0]));
      }
    case _ =>
  }

  /** While the thread at the root of a tree can move, no other can. */
  lemma {:induction false} RootMovesAlone(w: World, ex: Exec, t: Thread, v: View, v': View, q: seq<string>)
    requires Sound(t.ctl) && q != [] && Act(w, ex, t, v, []).Some?
    ensures Act(w, ex, t, v', q).None?
    decreases t.ctl
  {
    hide AtHead, AtClaim, AtExecute, NextItem, Join;
    match t.ctl
    case Fanout(f, n, output, items, body) =>
      if !Finished(body) {
        RootMovesAlone(w, ex, Thread(t.results, body), v, v', q);
      }
    case _ =>
  }

  lemma {:induction false} EffectsCommute(sh: Shared, kp: Option<StepKey>, kq: Option<StepKey>, ep: Effect, eq: Effect)
    requires kp.Some? && kq.Some? ==> kp != kq
    requires ep.touch.None? && eq.touch.None?
    ensures Apply(Apply(sh, kp, ep), kq, eq) == Apply(Apply(sh, kq, eq), kp, ep)
  {
    if kp.Some? && kq.Some? && ep.write.Some? && eq.write.Some? {
      assert sh.table[kp.value := ep.write.value][kq.value := eq.write.value]
          == sh.table[kq.value := eq.write.value][kp.value := ep.write.value];
    }
  }

  /** Seen from thread q after a move of p: the same row, the same flag, at most one visit less. */
  lemma {:induction false} ViewAfter(sh: Shared, kp: Option<StepKey>, kq: Option<StepKey>, e: Effect)
    requires kp.Some? && kq.Some? ==> kp != kq
    ensures Look(Apply(sh, kp, e), kq).row == Look(sh, kq).row
  {
  }

  /** The diamond: two moves in either order lead to the same state, if that state is clean. */
  lemma {:induction false} Diamond(w: World, ex: Exec, c: Config, p: seq<string>, q: seq<string>)
    requires PlainWorld(w) && Separate(c.thread.ctl) && p != q
    requires Step(w, ex, c, p).Some? && Step(w, ex, c, q).Some?
    requires Step(w, ex, Step(w, ex, c, p).value, q).Some? ==> Clean(Step(w, ex, Step(w, ex, c, p).value, q).value)
    requires Clean(Step(w, ex, c, p).value)
    ensures Step(w, ex, Step(w, ex, c, p).value, q).Some?
    ensures Step(w, ex, Step(w, ex, c, q).value, p) == Step(w, ex, Step(w, ex, c, p).value, q)
  {
    hide Act, KeyAt, Separate;
    CleanBefore(w, ex, c, p);
    var t, kp, kq := c.thread, KeyAt(c.thread.ctl, p), KeyAt(c.thread.ctl, q);
    var vp, vq := Look(c.shared, kp), Look(c.shared, kq);
    var mp, mq := Act(w, ex, t, vp, p).value, Act(w, ex, t, vq, q).value;
    var c1, c2 := Step(w, ex, c, p).value, Step(w, ex, c, q).value;
    MovesCommute(w, ex, t, vp, vq, p, q);
    if kp.Some? && kq.Some? { KeysDiffer(t.ctl, p, q); }
    if p == [] { RootMovesAlone(w, ex, t, vp, vq, q); }
    if q == [] { RootMovesAlone(w, ex, t, vq, vp, p); }
    NoTouchInFork(w, ex, t, vp, p);
    NoTouchInFork(w, ex, t, vq, q);
    ViewAfter(c.shared, kp, kq, mp.effect);
    ViewAfter(c.shared, kq, kp, mq.effect);
    EffectsCommute(c.shared, kp, kq, mp.effect, mq.effect);
    DiamondViews(w, ex, c, mp, mq, kp, kq, p, q);
  }

  /** The budget part of the diamond: what either thread has spent does not change the other's move. */
  lemma {:induction false} DiamondViews(w: World, ex: Exec, c: Config, mp: Move, mq: Move,
                                        kp: Option<StepKey>, kq: Option<StepKey>, p: seq<string>, q: seq<string>)
    requires !c.shared.abort && !mp.effect.abort
    requires Look(Apply(c.shared, kp, mp.effect), kq).row == Look(c.shared, kq).row
    requires Look(Apply(c.shared, kq, mq.effect), kp).row == Look(c.shared, kp).row
    requires Act(w, ex, c.thread, Look(c.shared, kp), p) == Some(mp) && Sound(mp.thread.ctl)
    requires Commute(w, ex, c.thread, Look(c.shared, kp), Look(c.shared, kq), p, q, mp, mq)
    requires var v := Look(Apply(c.shared, kp, mp.effect), kq);
             Act(w, ex, mp.thread, v, q).Some? ==>
               Sound(Act(w, ex, mp.thread, v, q).value.thread.ctl) && !Act(w, ex, mp.thread, v, q).value.effect.abort
    ensures Act(w, ex, mp.thread, Look(Apply(c.shared, kp, mp.effect), kq), q)
         == Act(w, ex, mp.thread, Look(c.shared, kq), q)
    ensures Act(w, ex, mq.thread, Look(Apply(c.shared, kq, mq.effect), kp), p)
         == Act(w, ex, mq.thread, Look(c.shared, kp), p)
  {
    hide Act, KeyAt;
    var vp, vq := Look(c.shared, kp), Look(c.shared, kq);
    var vq1, vp2 := Look(Apply(c.shared, kp, mp.effect), kq), Look(Apply(c.shared, kq, mq.effect), kp);
    EnabledForAnyView(w, ex, mp.thread, vq, vq1, q);
    BudgetLeft(w, ex, c.thread, vp, p);
    BudgetLeft(w, ex, mp.thread, vq1, q);
    assert vq == vq1 || vq == vq1.(left := true);
    BudgetLeft(w, ex, mq.thread, vp, p);
    assert vp2.row == vp.row;
    assert !mq.effect.abort;
    assert vp2 == vp || vp2 == vp.(left := false);
  }

  /** Whether a thread can move does not depend on what it sees. */
  lemma {:induction false} EnabledForAnyView(w: World, ex: Exec, t: Thread, v: View, v': View, p: seq<string>)
    requires Act(w, ex, t, v, p).Some?
    ensures Act(w, ex, t, v', p).Some?
    decreases t.ctl
  {
    hide AtHead, AtClaim, AtExecute, NextItem, Join;
    match t.ctl
    case Fanout(f, n, output, items, body) =>
      if !Finished(body) {
        EnabledForAnyView(w, ex, Thread(t.results, body), v, v', p);
      }
    case Fork(f, n, branches) =>
      if p != [] && !branches[p[0]].ctl.Raised? {
        EnabledForAnyView(w, ex, branches[p[0]], v, v', p[1..]);
      }
    case _ =>
  }
}
