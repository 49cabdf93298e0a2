/**
  Whole runs under any schedule. A clean end that one schedule reaches is reached by every schedule, and the
  entry a fork leaves behind gives each label what its branch produces when it runs alone.
*/
module Schedules {
  import opened Base
  import opened JsonValues
  import opened IterationKeys
  import opened Machine
  import opened Confluence

  /** No branch of a fork is on its way. */
  predicate Single(c: Control)
    decreases c
  {
    match c
    case Fanout(_, _, _, _, body) => Finished(body) || Single(body)
    case Fork(_, _, branches) => AllAtRest(branches)
    case _ => true
  }

  /** A state in which at most one move, that of the chain at the root, is possible. */
  predicate Settled(c: Config) {
    Single(c.thread.ctl)
  }

  lemma {:induction false} StepSeparate(w: World, ex: Exec, c: Config, p: seq<string>)
    requires PlainWorld(w) && Separate(c.thread.ctl) && Step(w, ex, c, p).Some?
    ensures Separate(Step(w, ex, c, p).value.thread.ctl)
  {
    hide Act, Separate;
    ActSeparate(w, ex, c.thread, Look(c.shared, KeyAt(c.thread.ctl, p)), p);
  }

  /** A move that is possible now can be made first, on the way to the same clean end. */
  lemma {:induction false} MoveFirst(w: World, ex: Exec, c: Config, s: seq<seq<string>>, q: seq<string>)
    returns (rest: seq<seq<string>>)
    requires PlainWorld(w) && Separate(c.thread.ctl)
    requires Run(w, ex, c, s).Some? && Clean(Run(w, ex, c, s).value) && Settled(Run(w, ex, c, s).value)
    requires Step(w, ex, c, q).Some? && (s != [] || q != [])
    ensures s != [] && |rest| == |s| - 1
    ensures Run(w, ex, Step(w, ex, c, q).value, rest) == Run(w, ex, c, s)
    decreases |s|
  {
    hide Act, KeyAt, Separate;
    CleanAtStart(w, ex, c, s);
    var t, vq := c.thread, Look(c.shared, KeyAt(c.thread.ctl, q));
    assert s != [] by { SettledStaysPut(w, ex, t, vq, q); }
    var p := s[0];
    if p == q { return s[1..]; }
    var vp := Look(c.shared, KeyAt(c.thread.ctl, p));
    if q == [] { RootMovesAlone(w, ex, t, vq, vp, p); }
    if p == [] { RootMovesAlone(w, ex, t, vp, vq, q); }
    var c1 := Step(w, ex, c, p).value;
    MovesCommute(w, ex, t, vp, vq, p, q);
    EnabledForAnyView(w, ex, c1.thread, vq, Look(c1.shared, KeyAt(c1.thread.ctl, q)), q);
    StepSeparate(w, ex, c, p);
    var tail := MoveFirst(w, ex, c1, s[1..], q);
    CleanAtStart(w, ex, c1, s[1..]);
    CleanAtStart(w, ex, Step(w, ex, c1, q).value, tail);
    Diamond(w, ex, c, p, q);
    rest := [p] + tail;
    assert rest[1..] == tail;
  }

  lemma {:induction false} SettledStaysPut(w: World, ex: Exec, t: Thread, v: View, q: seq<string>)
    ensures Single(t.ctl) && q != [] ==> Act(w, ex, t, v, q).None?
    decreases t.ctl
  {
    hide AtHead, AtClaim, AtExecute, NextItem, Join;
    if t.ctl.Fanout? && !Finished(t.ctl.body) {
      SettledStaysPut(w, ex, Thread(t.results, t.ctl.body), v, q);
    }
  }

  /** Schedule independence of whole runs: any other schedule is on its way to the same state. */
  lemma {:induction false} EveryScheduleConverges(w: World, ex: Exec, c: Config, s: seq<seq<string>>,
                                                  s': seq<seq<string>>)
    returns (rest: seq<seq<string>>)
    requires PlainWorld(w) && Separate(c.thread.ctl)
    requires Run(w, ex, c, s).Some? && Clean(Run(w, ex, c, s).value) && Settled(Run(w, ex, c, s).value)
    requires Run(w, ex, c, s').Some? && |s'| <= |s|
    ensures |rest| == |s| - |s'|
    ensures Run(w, ex, Run(w, ex, c, s').value, rest) == Run(w, ex, c, s)
    decreases |s'|
  {
    hide Step, Separate;
    if s' == [] { return s; }
    var first := MoveFirst(w, ex, c, s, s'[0]);
    StepSeparate(w, ex, c, s'[0]);
    rest := EveryScheduleConverges(w, ex, Step(w, ex, c, s'[0]).value, first, s'[1..]);
  }

  /** Two complete clean runs of one thread end in the same state. */
  lemma {:induction false} CompleteRunsAgree(w: World, ex: Exec, c: Config, s: seq<seq<string>>, s': seq<seq<string>>)
    requires PlainWorld(w) && Separate(c.thread.ctl)
    requires Run(w, ex, c, s).Some? && Clean(Run(w, ex, c, s).value) && Run(w, ex, c, s).value.thread.ctl.Done?
    requires Run(w, ex, c, s').Some? && Clean(Run(w, ex, c, s').value) && Run(w, ex, c, s').value.thread.ctl.Done?
    ensures |s| == |s'| && Run(w, ex, c, s) == Run(w, ex, c, s')
  {
    hide Act, KeyAt, Separate;
    if |s'| <= |s| {
      var rest := EveryScheduleConverges(w, ex, c, s, s');
      NothingAfterDone(w, ex, Run(w, ex, c, s').value, rest);
    } else {
      var rest := EveryScheduleConverges(w, ex, c, s', s);
      NothingAfterDone(w, ex, Run(w, ex, c, s).value, rest);
    }
  }

  lemma {:induction false} NothingAfterDone(w: World, ex: Exec, c: Config, s: seq<seq<string>>)
    requires c.thread.ctl.Done? && Run(w, ex, c, s).Some?
    ensures s == []
  {
  }

  // ---------------------------------------------------------------- one branch of a fork on its own

  /** The two step tables agree on the rows of one branch. */
  ghost predicate AgreeBelow(a: map<StepKey, Row>, b: map<StepKey, Row>, base: string) {
    forall k: StepKey | Below(base, k.1) :: Lookup(a, k) == Lookup(b, k)
  }

  /** `solo` is the branch `l` of the fork `c`, alone with at least the budget the fork has. */
  ghost predicate Alone(solo: Config, c: Config, l: string) {
    && c.thread.ctl.Fork? && l in c.thread.ctl.branches
    && solo.thread == c.thread.ctl.branches[l]
    && AgreeBelow(solo.shared.table, c.shared.table, ForkKey(c.thread.ctl.frame.key, l))
    && solo.shared.budget >= c.shared.budget
    && !solo.shared.abort
  }

  /** The part of a schedule that moves branch `l`. */
  function Project(s: seq<seq<string>>, l: string): seq<seq<string>> {
    if s == [] then []
    else if s[0] != [] && s[0][0] == l then [s[0][1..]] + Project(s[1..], l)
    else Project(s[1..], l)
  }

  lemma {:induction false} AloneMoves(w: World, ex: Exec, solo: Config, c: Config, l: string, p: seq<string>)
    requires Alone(solo, c, l) && Separate(c.thread.ctl) && Clean(c) && p != [] && p[0] == l
    requires Step(w, ex, c, p).Some? && Clean(Step(w, ex, c, p).value)
    ensures Step(w, ex, solo, p[1..]).Some? && Alone(Step(w, ex, solo, p[1..]).value, Step(w, ex, c, p).value, l)
  {
    hide AtHead, AtClaim, AtExecute, NextItem, Join;
    var b, base := c.thread.ctl.branches[l], ForkKey(c.thread.ctl.frame.key, l);
    var k := KeyAt(c.thread.ctl, p);
    if k.Some? { KeyAtWithin(b.ctl, base, p[1..]); }
    InBranch(w, ex, c.thread, Look(c.shared, k), p);
    assert Sound(Step(w, ex, c, p).value.thread.ctl.branches[l].ctl);
    BudgetLeft(w, ex, b, Look(c.shared, k), p[1..]);
    var v := Look(solo.shared, k);
    assert v == Look(c.shared, k) || v == Look(c.shared, k).(left := true);
  }

  lemma {:induction false} OthersLeaveItAlone(w: World, ex: Exec, solo: Config, c: Config, l: string, p: seq<string>)
    requires Alone(solo, c, l) && Separate(c.thread.ctl) && Clean(c) && p != [] && p[0] != l
    requires Step(w, ex, c, p).Some?
    ensures Alone(solo, Step(w, ex, c, p).value, l)
  {
    hide AtHead, AtClaim, AtExecute, NextItem, Join;
    var f, branches := c.thread.ctl.frame, c.thread.ctl.branches;
    var k := KeyAt(c.thread.ctl, p);
    InBranch(w, ex, c.thread, Look(c.shared, k), p);
    if k.Some? {
      KeyAtWithin(branches[p[0]].ctl, ForkKey(f.key, p[0]), p[1..]);
      LabelOfKey(f.key, p[0], k.value.1);
      if Below(ForkKey(f.key, l), k.value.1) { LabelOfKey(f.key, l, k.value.1); }
    }
  }

  /** Among its siblings a branch does exactly what it does alone. */
  lemma {:induction false} BranchProjection(w: World, ex: Exec, solo: Config, c: Config, s: seq<seq<string>>, l: string)
    requires PlainWorld(w) && Separate(c.thread.ctl) && Alone(solo, c, l)
    requires forall i | 0 <= i < |s| :: s[i] != []
    requires Run(w, ex, c, s).Some? && Clean(Run(w, ex, c, s).value)
    ensures Run(w, ex, solo, Project(s, l)).Some?
    ensures Alone(Run(w, ex, solo, Project(s, l)).value, Run(w, ex, c, s).value, l)
    decreases |s|
  {
    hide Act, KeyAt, Separate, Alone;
    if s != [] {
      CleanAtStart(w, ex, c, s);
      var c' := Step(w, ex, c, s[0]).value;
      CleanAtStart(w, ex, c', s[1..]);
      StepSeparate(w, ex, c, s[0]);
      var tail := Project(s[1..], l);
      if s[0][0] == l {
        AloneMoves(w, ex, solo, c, l, s[0]);
        BranchProjection(w, ex, Step(w, ex, solo, s[0][1..]).value, c', s[1..], l);
        assert ([s[0][1..]] + tail)[1..] == tail;
      } else {
        OthersLeaveItAlone(w, ex, solo, c, l, s[0]);
        BranchProjection(w, ex, solo, c', s[1..], l);
      }
    }
  }

  // ---------------------------------------------------------------- the fork theorem

  /** The branch `l` of the fork `c` as a run of its own, from the state before any branch has moved. */
  function SoloStart(c: Config, l: string): Config
    requires c.thread.ctl.Fork? && l in c.thread.ctl.branches
  {
    Config(c.thread.ctl.branches[l], c.shared)
  }

  /** Each branch has a schedule `solo` under which it runs, alone, to its end in `ends`. */
  ghost predicate SoloRuns(w: World, ex: Exec, c: Config, solo: map<string, seq<seq<string>>>,
                           ends: map<string, Config>)
    requires c.thread.ctl.Fork?
  {
    && solo.Keys == ends.Keys == c.thread.ctl.branches.Keys
    && forall l | l in ends :: Run(w, ex, SoloStart(c, l), solo[l]) == Some(ends[l])
  }

  /** Every branch ends without failure, at the end of its walk, with a last output. */
  ghost predicate EndWell(ends: map<string, Config>) {
    forall l | l in ends :: Clean(ends[l]) && ends[l].thread.ctl.Done? && ends[l].thread.ctl.last.Some?
  }

  /** The schedule moves branches only. */
  predicate BranchMoves(s: seq<seq<string>>) {
    forall i | 0 <= i < |s| :: s[i] != []
  }

  /** While no join has happened, a clean fork stays the same fork of the same chain. */
  lemma {:induction false} StaysFork(w: World, ex: Exec, c: Config, s: seq<seq<string>>)
    requires c.thread.ctl.Fork? && forall i | 0 <= i < |s| :: s[i] != []
    requires Run(w, ex, c, s).Some? && Clean(Run(w, ex, c, s).value)
    ensures var d := Run(w, ex, c, s).value.thread;
            && d.ctl.Fork? && d.results == c.thread.results && d.ctl.frame == c.thread.ctl.frame
            && d.ctl.node == c.thread.ctl.node && d.ctl.branches.Keys == c.thread.ctl.branches.Keys
    decreases |s|
  {
    hide AtHead, AtClaim, AtExecute, NextItem, Join;
    if s != [] {
      CleanAtStart(w, ex, c, s);
      InBranch(w, ex, c.thread, Look(c.shared, KeyAt(c.thread.ctl, s[0])), s[0]);
      StaysFork(w, ex, Step(w, ex, c, s[0]).value, s[1..]);
    }
  }

  /** The output of a join whose branches produced `outputs`. */
  function Merged(codec: Codec, outputs: map<string, Output>): Output {
    map["branches" := JStr(codec.dumps(JObj(map l | l in outputs :: JObj(outputs[l]))))]
  }

  function SoloOutputs(ends: map<string, Config>): map<string, Output>
    requires forall l | l in ends :: ends[l].thread.ctl.Done? && ends[l].thread.ctl.last.Some?
  {
    map l | l in ends :: ends[l].thread.ctl.last.value
  }

  /** The whole fork: whatever the interleaving, the result map gains exactly the join entry, that entry gives
      each label the last output its own branch produces alone, and the chain goes on behind the join. */
  lemma {:induction false} ForkIsScheduleIndependent(w: World, ex: Exec, c: Config, moves: seq<seq<string>>,
                                                    d: Config, end: Config, solo: map<string, seq<seq<string>>>,
                                                    ends: map<string, Config>)
    returns (joinId: string)
    requires PlainWorld(w) && c.thread.ctl.Fork? && Separate(c.thread.ctl)
    requires BranchMoves(moves) && Run(w, ex, c, moves) == Some(d) && Step(w, ex, d, []) == Some(end) && Clean(end)
    requires SoloRuns(w, ex, c, solo, ends) && EndWell(ends)
    ensures joinId in w.nodes
    ensures forall l | l in ends :: ends[l].thread.ctl.stoppedAt in {None, Some(joinId)}
    ensures end.thread ==
              Thread(c.thread.results[joinId := Merged(w.codec, SoloOutputs(ends))],
                     Head(c.thread.ctl.frame, Lookup(w.nodes[joinId].edges, "next")))
  {
    hide Run, Step, Separate, Sound, Merged;
    CleanBefore(w, ex, d, []);
    StaysFork(w, ex, c, moves);
    var branches := d.thread.ctl.branches;
    joinId := JoinedState(w, ex, d);
    forall l | l in ends
      ensures branches[l].ctl == ends[l].thread.ctl
    {
      BranchAtRest(w, ex, c, moves, solo[l], l);
    }
    assert LastOutputs(branches) == SoloOutputs(ends);
  }

  function LastOutputs(branches: map<string, Thread>): map<string, Output>
    requires forall l | l in branches :: branches[l].ctl.Done? && branches[l].ctl.last.Some?
  {
    map l | l in branches :: branches[l].ctl.last.value
  }

  lemma {:induction false} BranchAtRest(w: World, ex: Exec, c: Config, s: seq<seq<string>>, sl: seq<seq<string>>,
                                        l: string)
    requires PlainWorld(w) && c.thread.ctl.Fork? && Separate(c.thread.ctl) && l in c.thread.ctl.branches
    requires forall i | 0 <= i < |s| :: s[i] != []
    requires Run(w, ex, c, s).Some? && Clean(Run(w, ex, c, s).value)
    requires Run(w, ex, SoloStart(c, l), sl).Some? && Clean(Run(w, ex, SoloStart(c, l), sl).value)
    requires Run(w, ex, SoloStart(c, l), sl).value.thread.ctl.Done?
    requires Run(w, ex, c, s).value.thread.ctl.Fork? ==> AllAtRest(Run(w, ex, c, s).value.thread.ctl.branches)
    ensures Run(w, ex, c, s).value.thread.ctl.Fork? && l in Run(w, ex, c, s).value.thread.ctl.branches
    ensures Run(w, ex, c, s).value.thread.ctl.branches[l].ctl == Run(w, ex, SoloStart(c, l), sl).value.thread.ctl
  {
    hide Act, KeyAt;
    CleanAtStart(w, ex, c, s);
    StaysFork(w, ex, c, s);
    BranchProjection(w, ex, SoloStart(c, l), c, s, l);
    var r := Run(w, ex, SoloStart(c, l), Project(s, l)).value;
    assert Sound(Run(w, ex, c, s).value.thread.ctl.branches[l].ctl);
    CompleteRunsAgree(w, ex, SoloStart(c, l), sl, Project(s, l));
  }

  lemma {:induction false} CleanJoin(w: World, ex: Exec, d: Config)
    requires d.thread.ctl.Fork? && Clean(d)
    requires Step(w, ex, d, []).Some? && Clean(Step(w, ex, d, []).value)
    ensures var branches := d.thread.ctl.branches;
            && AllAtRest(branches) && !AnyAborted(branches)
            && Step(w, ex, d, []).value.thread == Join(w, d.thread.results, d.thread.ctl.frame, d.thread.ctl.node,
                                                       branches).thread
            && Sound(Step(w, ex, d, []).value.thread.ctl)
  {
    hide Join;
    var branches := d.thread.ctl.branches;
    forall l | l in branches
      ensures !branches[l].ctl.Raised?
    {
      assert Sound(branches[l].ctl);
    }
  }

  lemma {:induction false} SameOutput(c: Codec, branches: map<string, Thread>)
    requires forall l | l in branches :: branches[l].ctl.Done? && branches[l].ctl.last.Some?
    ensures Merged(c, LastOutputs(branches)) == JoinOutput(c, branches)
  {
    var outputs := LastOutputs(branches);
    assert (map l | l in outputs :: JObj(outputs[l])) == (map l | l in branches :: JObj(branches[l].ctl.last.value));
  }

  /** The state right after a clean join. */
  lemma {:induction false} JoinedState(w: World, ex: Exec, d: Config) returns (joinId: string)
    requires d.thread.ctl.Fork? && Clean(d)
    requires Step(w, ex, d, []).Some? && Clean(Step(w, ex, d, []).value)
    ensures var branches := d.thread.ctl.branches;
            && (forall l | l in branches ::
                 branches[l].ctl.Done? && branches[l].ctl.last.Some?
                     && branches[l].ctl.stoppedAt in {None, Some(joinId)})
            && joinId in w.nodes
            && Step(w, ex, d, []).value.thread ==
                 Thread(d.thread.results[joinId := Merged(w.codec, LastOutputs(branches))],
                        Head(d.thread.ctl.frame, Lookup(w.nodes[joinId].edges, "next")))
  {
    CleanJoin(w, ex, d);
    hide Step, Merged, LastOutputs, JoinOutput;
    var branches := d.thread.ctl.branches;
    var ids := JoinIds(branches);
    assert |ids| == 1;
    joinId := TheElement(ids);
    forall l | l in branches
      ensures branches[l].ctl.stoppedAt in {None, Some(joinId)}
    {
      if branches[l].ctl.stoppedAt.Some? { assert branches[l].ctl.stoppedAt.value in ids; }
    }
    SameOutput(w.codec, branches);
  }
}
