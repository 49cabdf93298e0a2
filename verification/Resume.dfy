/**
  Crash and resume. An executor may die between any two store operations, any number of times; the next one
  starts at the node the run row names, with an empty result map and a full budget, on the step rows it finds.
  As long as no node executes that is wired to a result which only an earlier attempt had, the run still ends as,
  and in the step table of, the run that never crashed. The proof runs the crash-free executor alongside and keeps
  the two walks alike.
*/
module Resume {
  import opened Base
  import opened Machine
  import opened Budget
  import opened Confluence
  import opened Lifting
  import opened Schedules
  import opened SafeWalk
  import opened Mirror
  import opened Rows
  import opened Raises
  import opened Following

  // ---------------------------------------------------------------- lives of a run

  /**
    A run over several attempts. `before` holds the nodes that had produced a result before the point at which
    the present attempt started, `mark` those that had when the run row's current node was written.
  */
  datatype Life = Life(config: Config, before: set<string>, mark: set<string>)

  datatype Event = Go(path: seq<string>) | Crash

  /** `run.current_node_id or ir.entry_node_id`. */
  function ResumeNode(current: Option<string>, entry: string): string {
    if current.Some? && current.value != "" then current.value else entry
  }

  function Born(entry: string, budget: int): Life {
    Life(Config(Root(entry), Shared(map[], budget, false, None)), {}, {})
  }

  /** The run row's current node is written by the move that admits a top-level node. */
  predicate Touches(c: Config, c': Config) {
    c.thread.ctl.Head? && c'.thread.ctl.Claiming?
  }

  function Live(w: World, ex: Exec, entry: string, budget: int, x: Life, e: Event): Option<Life> {
    var c := x.config;
    match e
    case Crash =>
      Some(Life(Config(Root(ResumeNode(c.shared.current, entry)),
                       Shared(c.shared.table, budget, false, c.shared.current)),
                x.mark, x.mark))
    case Go(p) =>
      match Step(w, ex, c, p)
      case None => None
      case Some(c') => Some(Life(c', x.before, if Touches(c, c') then x.before + c.thread.results.Keys else x.mark))
  }

  function LiveAll(w: World, ex: Exec, entry: string, budget: int, x: Life, events: seq<Event>): Option<Life>
    decreases |events|
  {
    if events == [] then Some(x)
    else
      match Live(w, ex, entry, budget, x, events[0])
      case None => None
      case Some(x') => LiveAll(w, ex, entry, budget, x', events[1..])
  }

  /** The node that executes in this move is wired to a result that an earlier attempt had and its own walk lacks. */
  predicate LosesRead(x: Life, e: Event) {
    e.Go? && !FindsAt(x.before, x.config.thread, e.path)
  }

  /** In no move of the history does a node execute so. */
  ghost predicate NoReadIsLost(w: World, ex: Exec, entry: string, budget: int, x: Life, events: seq<Event>)
    decreases |events|
  {
    events == [] ||
    (&& !LosesRead(x, events[0])
     && (Live(w, ex, entry, budget, x, events[0]).Some? ==>
           NoReadIsLost(w, ex, entry, budget, Live(w, ex, entry, budget, x, events[0]).value, events[1..])))
  }

  // ---------------------------------------------------------------- the invariant over all lives

  /** The crash-free run beside the present attempt: where it is, and where it was at the last touch. */
  datatype Guide = Guide(now: Config, rest: seq<seq<string>>, touched: Config, restTouched: seq<seq<string>>)

  /** The state of the crash-free run from which the next attempt would be followed. */
  ghost predicate CanResume(entry: string, budget: int, x: Life, m: Config) {
    && m.thread.ctl.Head? && m.thread.ctl.current == Some(ResumeNode(x.config.shared.current, entry))
    && m.thread.results.Keys <= x.mark
    && Grows(m.shared.table, x.config.shared.table) && m.shared.budget <= budget
  }

  /** The present attempt is beside the crash-free run, or has raised its exception. */
  ghost predicate Beside(w: World, rank: Rank, top: int, ex: Exec, goal: Goal, x: Life, g: Guide) {
    || Over(goal, x.config)
    || (OnTrack(w, rank, top, ex, g.now, g.rest, goal) && Follows(x.before, x.config, g.now, goal.end))
  }

  ghost predicate Guided(w: World, rank: Rank, top: int, ex: Exec, entry: string, budget: int, goal: Goal, x: Life,
                         g: Guide) {
    && Sane(w, rank, top, x.config) && x.config.shared.budget <= budget
    && Beside(w, rank, top, ex, goal, x, g)
    && OnTrack(w, rank, top, ex, g.touched, g.restTouched, goal) && CanResume(entry, budget, x, g.touched)
  }

  lemma {:induction false} GrowsTransitive(a: map<StepKey, Row>, b: map<StepKey, Row>, c: map<StepKey, Row>)
    requires Grows(a, b) && Grows(b, c)
    ensures Grows(a, c)
  {
  }

  lemma {:induction false} Follow(w: World, rank: Rank, top: int, ex: Exec, hidden: set<string>, a: Config, b: Config,
                                  rest: seq<seq<string>>, goal: Goal, p: seq<string>)
    returns (over: bool, b': Config, rest': seq<seq<string>>)
    requires OnTrack(w, rank, top, ex, b, rest, goal) && Follows(hidden, a, b, goal.end) && Sane(w, rank, top, a)
    requires FindsAt(hidden, a.thread, p) && Step(w, ex, a, p).Some?
    ensures over ==> Over(goal, Step(w, ex, a, p).value)
    ensures !over ==>
              OnTrack(w, rank, top, ex, b', rest', goal) && Follows(hidden, Step(w, ex, a, p).value, b', goal.end)
  {
    hide KeyAt, ChainAt, Step, OnTrack, Follows, NoRepeat, RootOk, Separate, IsHit, Over;
    FreshFromRank(w, rank, top, a);
    if IsHit(a, b, p) {
      over, b', rest' := FollowHit(w, rank, top, ex, hidden, a, b, rest, goal, p);
    } else if AtTheEnd(rest, goal) {
      RaiseTogether(w, rank, top, ex, hidden, a, b, goal, p);
      over, b', rest' := true, b, rest;
    } else {
      b', rest' := FollowSame(w, rank, top, ex, hidden, a, b, rest, goal, p);
      over := false;
    }
  }

  lemma {:induction false} TouchedAt(w: World, ex: Exec, c: Config, p: seq<string>)
    requires RootOk(c.thread.ctl) && Step(w, ex, c, p).Some?
    ensures var c' := Step(w, ex, c, p).value;
            && (Touches(c, c') ==> c.thread.ctl.current.Some? && c'.shared.current == c.thread.ctl.current)
            && (!Touches(c, c') ==> c'.shared.current == c.shared.current)
            && c'.shared.budget <= c.shared.budget
  {
    hide Act, KeyAt, RootOk;
    var v := Look(c.shared, KeyAt(c.thread.ctl, p));
    ActRootOk(w, ex, c.thread, v, p);
  }

  /** One more move of the present attempt. */
  lemma {:induction false} GoIsGuided(w: World, rank: Rank, top: int, ex: Exec, entry: string, budget: int, goal: Goal,
                                      x: Life, g: Guide, p: seq<string>)
    returns (g': Guide)
    requires Guided(w, rank, top, ex, entry, budget, goal, x, g) && Live(w, ex, entry, budget, x, Go(p)).Some?
    requires !LosesRead(x, Go(p))
    ensures Guided(w, rank, top, ex, entry, budget, goal, Live(w, ex, entry, budget, x, Go(p)).value, g')
  {
    hide Act, KeyAt, Step, OnTrack, NoRepeat, RootOk, Separate, Owned, Alike, FindsAt, Over, Unwinding;
    TrackIsAcyclic(w, rank, top, ex, g.touched, g.restTouched, goal);
    StepSane(w, rank, top, ex, x.config, p);
    TouchedAt(w, ex, x.config, p);
    if Over(goal, x.config) {
      g' := g;
      StaysOver(w, ex, goal, x.config, p);
    } else {
      g' := GoBeside(w, rank, top, ex, entry, budget, goal, x, g, p);
    }
  }

  /** Once the exception is on its way up, it travels further and the stores stay as they are. */
  lemma {:induction false} StaysOver(w: World, ex: Exec, goal: Goal, c: Config, p: seq<string>)
    requires Over(goal, c) && Step(w, ex, c, p).Some?
    ensures Over(goal, Step(w, ex, c, p).value) && !Touches(c, Step(w, ex, c, p).value)
    ensures Grows(c.shared.table, Step(w, ex, c, p).value.shared.table)
  {
    hide Act, KeyAt;
    StillUnwinding(w, ex, c.thread, Look(c.shared, KeyAt(c.thread.ctl, p)), p, goal.exn.value);
  }

  lemma {:induction false} OverIsNoVisit(goal: Goal, c: Config, c': Config)
    requires Over(goal, c')
    ensures !Touches(c, c')
  {
  }

  lemma {:induction false} GoBeside(w: World, rank: Rank, top: int, ex: Exec, entry: string, budget: int, goal: Goal,
                                    x: Life, g: Guide, p: seq<string>)
    returns (g': Guide)
    requires Guided(w, rank, top, ex, entry, budget, goal, x, g) && Live(w, ex, entry, budget, x, Go(p)).Some?
    requires !Over(goal, x.config) && !LosesRead(x, Go(p))
    ensures Guided(w, rank, top, ex, entry, budget, goal, Live(w, ex, entry, budget, x, Go(p)).value, g')
  {
    hide Act, KeyAt, Step, OnTrack, NoRepeat, RootOk, Separate, Owned, Alike, FindsAt, Over;
    var c := x.config;
    var x' := Live(w, ex, entry, budget, x, Go(p)).value;
    var c' := x'.config;
    TrackIsAcyclic(w, rank, top, ex, g.now, g.rest, goal);
    var over, b', rest' := Follow(w, rank, top, ex, x.before, c, g.now, g.rest, goal, p);
    StepSane(w, rank, top, ex, c, p);
    TouchedAt(w, ex, c, p);
    if over { OverIsNoVisit(goal, c, c'); }
    if Touches(c, c') {
      g' := Guide(b', rest', g.now, g.rest);
      HeadsAlike(x.before, c.thread.ctl, g.now.thread.ctl);
      EntersKnown(w, ex, c, p);
      GrowsTransitive(g.now.shared.table, c.shared.table, c'.shared.table);
    } else {
      g' := Guide(b', rest', g.touched, g.restTouched);
      GrowsTransitive(g.touched.shared.table, c.shared.table, c'.shared.table);
    }
  }

  lemma {:induction false} TrackIsAcyclic(w: World, rank: Rank, top: int, ex: Exec, b: Config, rest: seq<seq<string>>,
                                          goal: Goal)
    requires OnTrack(w, rank, top, ex, b, rest, goal)
    ensures Acyclic(w, rank, top) && Sane(w, rank, top, b)
  {
  }

  lemma {:induction false} HeadsAlike(hidden: set<string>, a: Control, b: Control)
    requires Alike(hidden, a, b, true) && a.Head?
    ensures b.Head? && b.current == a.current
  {
  }

  lemma {:induction false} EntersKnown(w: World, ex: Exec, c: Config, p: seq<string>)
    requires Step(w, ex, c, p).Some? && Touches(c, Step(w, ex, c, p).value)
    ensures c.thread.ctl.current.Some? && c.thread.ctl.current.value in w.nodes
  {
  }

  /** A crash, and the next attempt. */
  lemma {:induction false} CrashIsGuided(w: World, rank: Rank, top: int, ex: Exec, entry: string, budget: int,
                                         goal: Goal, x: Life, g: Guide)
    returns (g': Guide)
    requires Guided(w, rank, top, ex, entry, budget, goal, x, g)
    ensures Guided(w, rank, top, ex, entry, budget, goal, Live(w, ex, entry, budget, x, Crash).value, g')
  {
    hide Run, Step;
    g' := Guide(g.touched, g.restTouched, g.touched, g.restTouched);
    var x' := Live(w, ex, entry, budget, x, Crash).value;
    assert Owned(x'.config) by {
      forall p { NothingExecutes(x'.config.thread.ctl, p); }
    }
  }

  lemma {:induction false} LifeIsGuided(w: World, rank: Rank, top: int, ex: Exec, entry: string, budget: int,
                                        goal: Goal, x: Life, g: Guide, events: seq<Event>)
    returns (g': Guide)
    requires Guided(w, rank, top, ex, entry, budget, goal, x, g)
    requires LiveAll(w, ex, entry, budget, x, events).Some? && NoReadIsLost(w, ex, entry, budget, x, events)
    ensures Guided(w, rank, top, ex, entry, budget, goal, LiveAll(w, ex, entry, budget, x, events).value, g')
    decreases |events|
  {
    hide Guided, Live, LosesRead;
    if events == [] { return g; }
    var x' := Live(w, ex, entry, budget, x, events[0]).value;
    var g1: Guide;
    match events[0] {
      case Crash => g1 := CrashIsGuided(w, rank, top, ex, entry, budget, goal, x, g);
      case Go(p) => g1 := GoIsGuided(w, rank, top, ex, entry, budget, goal, x, g, p);
    }
    g' := LifeIsGuided(w, rank, top, ex, entry, budget, goal, x', g1, events[1..]);
  }

  lemma {:induction false} BirthIsGuided(w: World, rank: Rank, top: int, ex: Exec, entry: string, budget: int,
                                         goal: Goal, s: seq<seq<string>>)
    returns (g: Guide)
    requires Acyclic(w, rank, top) && entry in w.nodes
    requires Run(w, ex, Born(entry, budget).config, s) == Some(goal.last) && Ends(w, ex, goal)
    ensures Guided(w, rank, top, ex, entry, budget, goal, Born(entry, budget), g)
  {
    hide Run, Unwinding;
    var c := Born(entry, budget).config;
    forall p { NothingExecutes(c.thread.ctl, p); }
    LastGrows(w, rank, top, ex, c, s, goal);
    g := Guide(c, s, c, s);
  }

  lemma {:induction false} LastGrows(w: World, rank: Rank, top: int, ex: Exec, c: Config, s: seq<seq<string>>,
                                     goal: Goal)
    requires Acyclic(w, rank, top) && Sane(w, rank, top, c) && Run(w, ex, c, s) == Some(goal.last) && Ends(w, ex, goal)
    ensures Grows(goal.last.shared.table, goal.end.shared.table)
    decreases |s|
  {
    hide Act, KeyAt, Sane, Acyclic, Unwinding;
    if s == [] {
      if goal.exn.Some? { StepSane(w, rank, top, ex, c, []); }
    } else {
      StepSane(w, rank, top, ex, c, s[0]);
      LastGrows(w, rank, top, ex, Step(w, ex, c, s[0]).value, s[1..], goal);
    }
  }

  /** How the crash-free run ends is how this control state ends: by itself, or by the same exception. */
  predicate SameEnd(c: Control, goal: Goal) {
    match goal.exn
    case None => c.Done?
    case Some(exn) => c == Raised(exn)
  }

  /**
    Crash and resume. Take any crash-free run that ends by itself, or that a stop condition, a failing step or a
    join without convergence ends while no branch is on its way. Whatever the interleaving of branches and wherever
    the executors die, an attempt that ends, ends as that run does, hence with its status, step and cause, and
    leaves exactly its step table; and at every moment before that, the rows are a part of that table.
  */
  lemma {:induction false} CrashesLeaveNoTrace(w: World, rank: Rank, top: int, ex: Exec, entry: string, budget: int,
                                               s: seq<seq<string>>, goal: Goal, events: seq<Event>, x: Life)
    requires Acyclic(w, rank, top) && entry in w.nodes
    requires Run(w, ex, Born(entry, budget).config, s) == Some(goal.last) && Ends(w, ex, goal)
    requires LiveAll(w, ex, entry, budget, Born(entry, budget), events) == Some(x)
    requires NoReadIsLost(w, ex, entry, budget, Born(entry, budget), events)
    ensures Grows(x.config.shared.table, goal.end.shared.table)
    ensures Finished(x.config.thread.ctl) ==>
              SameEnd(x.config.thread.ctl, goal) && x.config.shared.table == goal.end.shared.table
    ensures goal.exn.None? ==> Clean(x.config)
  {
    hide Run, LiveAll, NoReadIsLost, Sane, Acyclic, Ends;
    var g := BirthIsGuided(w, rank, top, ex, entry, budget, goal, s);
    g := LifeIsGuided(w, rank, top, ex, entry, budget, goal, Born(entry, budget), g, events);
    if !Over(goal, x.config) {
      AlikeIsSound(x.before, x.config.thread.ctl, g.now.thread.ctl, true);
      if Finished(x.config.thread.ctl) {
        EndsTogether(w, rank, top, ex, g.now, g.rest, goal, x.before, x.config);
      }
    }
  }

  /** Beside a run that is still to raise no attempt has ended; beside one that ends by itself, with its rows. */
  lemma {:induction false} EndsTogether(w: World, rank: Rank, top: int, ex: Exec, b: Config, rest: seq<seq<string>>,
                                        goal: Goal, hidden: set<string>, a: Config)
    requires OnTrack(w, rank, top, ex, b, rest, goal) && Follows(hidden, a, b, goal.end) && Finished(a.thread.ctl)
    ensures goal.exn.None? && a.thread.ctl.Done? && a.shared.table == goal.end.shared.table
  {
    hide Sane, Acyclic, Grows, SameBut, Unwinding;
    assert b.thread.ctl.Done?;
    NothingAfterDone(w, ex, b, rest);
    EmptyRun(w, ex, b);
    if goal.exn.Some? { FinishedCannotMove(w, ex, b, []); }
    SameTable(a.shared.table, goal.end.shared.table);
  }
}
