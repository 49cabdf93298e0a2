/**
  Compiled flows in the interpreter: what the compiler's checks buy every run of the graph it returns, whatever
  its nodes compute, however its branches interleave and wherever its executors die.
*/
module CompiledFlows {
  import opened Base
  import opened Blocks
  import opened Machine
  import opened Budget
  import opened Compiler
  import CycleCheck
  import Confluence
  import SafeWalk
  import Following
  import LostReads
  import Resume
  import Survival

  /** The run walks the compiled form of an expanded flow. */
  ghost predicate RunsCompiled(w: World, setup: Setup, flat: Flat) {
    Compilable(flat, setup) && w.nodes == NodesById(CompiledNodes(flat.nodes, IdsOf(flat.nodes), setup.alphabet))
  }

  /** What the cycle check of a successful compilation leaves behind. */
  ghost predicate HeightsOf(flat: Flat, setup: Setup, height: map<string, int>)
    requires Compilable(flat, setup)
  {
    var g := GraphOf(CompiledNodes(flat.nodes, IdsOf(flat.nodes), setup.alphabet));
    g.Keys <= height.Keys && CycleCheck.GoesDown(g, height, height.Keys)
  }

  /** Every chain of every run of a compiled flow only ever looks up existing nodes, and on a flow without gotos
      and self-loops it enters none of them twice, across fan-outs, forks, joins and `after` edges. */
  lemma {:induction false} CompiledFlowIsSafeToWalk(w: World, setup: Setup, flat: Flat, height: map<string, int>,
                                                    sh: Shared, s: seq<Choice>)
    requires RunsCompiled(w, setup, flat) && HeightsOf(flat, setup, height)
    requires RunAny(w, Config(Root(flat.entry), sh), s).Some?
    ensures var end := RunAny(w, Config(Root(flat.entry), sh), s).value.thread.ctl;
            && SafeWalk.OnGraph(w, w.nodes.Keys, end)
            && (NoGotoNoSelfLoopNoVars(w.nodes) ==>
                  SafeWalk.NoRepeat(w, height, end, SafeWalk.RankOf(height, flat.entry) + 1))
  {
    hide Compilable, NodesById, CompiledNodes, NoGotoNoSelfLoopNoVars, SafeWalk.NoRepeat, SafeWalk.OnGraph;
    CompiledGraphIsClosed(flat, setup);
    SafeWalk.RootIsSafe(w, height, flat.entry);
    var c := Config(Root(flat.entry), sh);
    SafeWalk.LookupsNeverFail(w, c, s);
    if NoGotoNoSelfLoopNoVars(w.nodes) {
      CompiledGraphIsRanked(flat, setup, height);
      SafeWalk.NoNodeTwice(w, height, c, s, SafeWalk.RankOf(height, flat.entry) + 1);
    }
  }

  /** A height above all others. */
  lemma {:induction false} SomeTop(height: map<string, int>) returns (top: int)
    ensures top > 0 && forall id | id in height :: height[id] < top
    decreases |height|
  {
    if height == map[] {
      top := 1;
    } else {
      var id :| id in height;
      var rest := height - {id};
      assert rest.Keys == height.Keys - {id};
      top := SomeTop(rest);
      top := if height[id] < top then top else height[id] + 1;
      forall x | x in height
        ensures height[x] < top
      {
        if x != id { assert x in rest; }
      }
    }
  }

  /** The compiler's heights and closed graph are what the crash theorems ask for. */
  lemma {:induction false} CompiledIsAcyclic(w: World, setup: Setup, flat: Flat, height: map<string, int>)
    returns (top: int)
    requires RunsCompiled(w, setup, flat) && HeightsOf(flat, setup, height)
    requires NoGotoNoSelfLoopNoVars(w.nodes) && Confluence.PlainWorld(w) && "" !in w.nodes
    ensures Following.Acyclic(w, height, top) && flat.entry in w.nodes
  {
    hide Compilable, NodesById, CompiledNodes, NoGotoNoSelfLoopNoVars;
    CompiledGraphIsClosed(flat, setup);
    CompiledGraphIsRanked(flat, setup, height);
    top := SomeTop(height);
    assert Following.RankedBelow(w.nodes, height, top);
  }

  /** A compiled flow without gotos, self-loops and colons in labels survives every history of crashes in which no
      read is lost. */
  lemma {:induction false} CompiledFlowResumes(w: World, setup: Setup, flat: Flat, height: map<string, int>, ex: Exec,
                                               budget: int, s: seq<seq<string>>, goal: Following.Goal,
                                               events: seq<Resume.Event>, x: Resume.Life)
    requires RunsCompiled(w, setup, flat) && HeightsOf(flat, setup, height)
    requires NoGotoNoSelfLoopNoVars(w.nodes) && Confluence.PlainWorld(w) && "" !in w.nodes
    requires Run(w, ex, Resume.Born(flat.entry, budget).config, s) == Some(goal.last) && Following.Ends(w, ex, goal)
    requires Resume.LiveAll(w, ex, flat.entry, budget, Resume.Born(flat.entry, budget), events) == Some(x)
    requires Resume.NoReadIsLost(w, ex, flat.entry, budget, Resume.Born(flat.entry, budget), events)
    ensures Finished(x.config.thread.ctl) ==>
              Resume.SameEnd(x.config.thread.ctl, goal) && x.config.shared.table == goal.end.shared.table
  {
    hide RunsCompiled, HeightsOf, NoGotoNoSelfLoopNoVars, Run, Resume.LiveAll, Resume.NoReadIsLost, Following.Ends;
    var top := CompiledIsAcyclic(w, setup, flat, height);
    Resume.CrashesLeaveNoTrace(w, height, top, ex, flat.entry, budget, s, goal, events, x);
  }

  /** Its attempts complete exactly if the crash-free run does and the attempt loses no read. */
  lemma {:induction false} CompiledFlowSurvivesExactly(w: World, setup: Setup, flat: Flat, height: map<string, int>,
                                                       ex: Exec, budget: int, s: seq<seq<string>>,
                                                       goal: Following.Goal, past: seq<Resume.Event>, x: Resume.Life,
                                                       attempt: seq<Resume.Event>, end: Resume.Life)
    requires RunsCompiled(w, setup, flat) && HeightsOf(flat, setup, height)
    requires NoGotoNoSelfLoopNoVars(w.nodes) && Confluence.PlainWorld(w) && "" !in w.nodes
    requires LostReads.ReadsDeclared(w)
    requires Run(w, ex, Resume.Born(flat.entry, budget).config, s) == Some(goal.last) && Following.Ends(w, ex, goal)
    requires Resume.LiveAll(w, ex, flat.entry, budget, Resume.Born(flat.entry, budget), past) == Some(x)
    requires past == [] || past[|past| - 1].Crash?
    requires LostReads.OneAttempt(attempt)
    requires Resume.LiveAll(w, ex, flat.entry, budget, x, attempt) == Some(end) && Finished(end.config.thread.ctl)
    ensures AtRest(end.config.thread.ctl)
       <==> goal.exn in {None, Some(Abort)} && Resume.NoReadIsLost(w, ex, flat.entry, budget, x, attempt)
    ensures Resume.NoReadIsLost(w, ex, flat.entry, budget, x, attempt) ==>
              Resume.SameEnd(end.config.thread.ctl, goal) && end.config.shared.table == goal.end.shared.table
  {
    hide RunsCompiled, HeightsOf, NoGotoNoSelfLoopNoVars, Run, Resume.LiveAll, Resume.NoReadIsLost, Following.Ends;
    var top := CompiledIsAcyclic(w, setup, flat, height);
    Survival.SurvivesExactly(w, height, top, ex, flat.entry, budget, s, goal, past, x, attempt, end);
  }
}
