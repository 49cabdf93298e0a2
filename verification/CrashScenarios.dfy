/**
  Concrete flows that complete without a crash and fail after one: what a lost read does, that references back are
  harmless once their reader has committed, and why fan-out bodies count.
*/
module CrashScenarios {
  import opened Base
  import opened JsonValues
  import opened Ir
  import opened IterationKeys
  import opened Machine
  import opened Confluence
  import opened Lifting
  import opened SafeWalk
  import opened Following
  import opened Resume
  import opened LostReads
  import opened Interpreter
  import opened CutPoints
  import opened Scenarios

  // ---------------------------------------------------------------- one crash

  /** A history without crashes, and its run. */
  function Goes(s: seq<seq<string>>): seq<Event> {
    seq(|s|, i requires 0 <= i < |s| => Go(s[i]))
  }

  lemma {:induction false} GoesAsItRuns(w: World, ex: Exec, entry: string, budget: int, x: Life, s: seq<seq<string>>,
                                        d: Config)
    requires Run(w, ex, x.config, s) == Some(d)
    ensures LiveAll(w, ex, entry, budget, x, Goes(s)).Some?
    ensures LiveAll(w, ex, entry, budget, x, Goes(s)).value.config == d
    decreases |s|
  {
    hide Step;
    if s != [] {
      var x' := Live(w, ex, entry, budget, x, Go(s[0])).value;
      GoesAsItRuns(w, ex, entry, budget, x', s[1..], d);
      assert Goes(s)[1..] == Goes(s[1..]);
    }
  }

  lemma {:induction false} LivesOn(w: World, ex: Exec, entry: string, budget: int, x: Life, a: seq<Event>,
                                   b: seq<Event>)
    requires LiveAll(w, ex, entry, budget, x, a).Some?
    ensures LiveAll(w, ex, entry, budget, x, a + b)
         == LiveAll(w, ex, entry, budget, LiveAll(w, ex, entry, budget, x, a).value, b)
    decreases |a|
  {
    hide Live;
    if a == [] {
      assert a + b == b;
    } else {
      assert (a + b)[1..] == a[1..] + b;
      LivesOn(w, ex, entry, budget, Live(w, ex, entry, budget, x, a[0]).value, a[1..], b);
    }
  }

  /** Where the next attempt starts after a crash in `d`, whose run row names `node`. */
  function Resumed(d: Config, node: string, budget: int): Config {
    Config(Root(node), Shared(d.shared.table, budget, false, Some(node)))
  }

  /** The step of the top-level chain that enters `id` and writes it into the run row. */
  lemma {:induction false} Touching(w: World, ex: Exec, c0: Config, c: Config, f: Frame, id: string) returns (d: Config)
    requires Reaches(w, ex, c0, c) && c.thread.ctl == Head(f, Some(id)) && f.top && CanEnter(w, f, id, c.shared)
    ensures Reaches(w, ex, c0, d) && d.shared.current == Some(id) && d.shared.table == c.shared.table
  {
    hide Reaches, Step;
    HeadStep(w, ex, c.thread.results, f, Some(id), c.shared);
    d := Step(w, ex, c, []).value;
    ReachesNext(w, ex, c0, c, [], d);
  }

  /** The history of an attempt that crashes in `d` and is resumed up to `end`. */
  lemma {:induction false} CrashAndResume(w: World, ex: Exec, entry: string, budget: int, d: Config, node: string,
                                          end: Config)
    returns (events: seq<Event>, x: Life)
    requires Reaches(w, ex, Born(entry, budget).config, d) && d.shared.current == Some(node) && node != ""
    requires Reaches(w, ex, Resumed(d, node, budget), end)
    ensures LiveAll(w, ex, entry, budget, Born(entry, budget), events) == Some(x) && x.config == end
  {
    var s: seq<seq<string>> :| Run(w, ex, Born(entry, budget).config, s) == Some(d);
    var s': seq<seq<string>> :| Run(w, ex, Resumed(d, node, budget), s') == Some(end);
    hide Run, Live, LiveAll;
    GoesAsItRuns(w, ex, entry, budget, Born(entry, budget), s, d);
    var x1 := LiveAll(w, ex, entry, budget, Born(entry, budget), Goes(s)).value;
    LivesOn(w, ex, entry, budget, Born(entry, budget), Goes(s), [Crash]);
    var x2 := CrashAt(w, ex, entry, budget, x1, node);
    GoesAsItRuns(w, ex, entry, budget, x2, s', end);
    LivesOn(w, ex, entry, budget, Born(entry, budget), Goes(s) + [Crash], Goes(s'));
    events := Goes(s) + [Crash] + Goes(s');
    x := LiveAll(w, ex, entry, budget, Born(entry, budget), events).value;
  }

  lemma {:induction false} CrashAt(w: World, ex: Exec, entry: string, budget: int, x: Life,
                                   node: string) returns (x': Life)
    requires x.config.shared.current == Some(node) && node != ""
    ensures LiveAll(w, ex, entry, budget, x, [Crash]) == Some(x') && x'.config == Resumed(x.config, node, budget)
  {
    x' := Live(w, ex, entry, budget, x, Crash).value;
    var rest: seq<Event> := [Crash][1..];
    assert LiveAll(w, ex, entry, budget, x', rest) == Some(x');
  }

  // ---------------------------------------------------------------- a reference back before a crash

  const BACK: map<string, IRNode> := map[
    "a" := Node("a", "give", map["next" := "b"]),
    "b" := Node("b", "take", map[]).(inputs := map["in" := PortRef("a", "out", [])])]

  const GIVEN: Output := map["out" := JInt(1)]

  function BackExec(n: IRNode, wired: map<string, Resolution>, account: Option<AccountId>, loop: nat): NodeResult {
    Produced(GIVEN)
  }

  predicate RunsBack(w: World) {
    w.nodes == BACK && w.registry == map["give" := [], "take" := ["in"]]
  }

  lemma {:induction false} BackIsAcyclic(w: World)
    requires RunsBack(w)
    ensures Acyclic(w, map["a" := 1, "b" := 0], 2)
  {
    assert w.nodes.Keys == {"a", "b"};
    assert TargetsIn({"a", "b"}, w.nodes["a"]) && TargetsIn({"a", "b"}, w.nodes["b"]);
    assert PlainLabels(w.nodes["a"]) && PlainLabels(w.nodes["b"]);
  }

  lemma {:induction false} SecondIsNoCutPoint(w: World)
    requires RunsBack(w)
    ensures !CutPoint(w.nodes, "b")
  {
    var ids := Reach(w.nodes, "b");
    ReachesItself(w.nodes, "b");
    NothingBehindSecond(w);
    hide Reach, InEarlierBody;
    assert w.nodes["b"].inputs["in"] == PortRef("a", "out", []);
    assert "b" in ids && "in" in w.nodes["b"].inputs;
  }

  lemma {:induction false} NothingBehindSecond(w: World)
    requires RunsBack(w)
    ensures "a" !in Reach(w.nodes, "b")
  {
    forall path: seq<string> | IsPath(w.nodes, path) && path[0] == "b"
      ensures path[|path| - 1] == "b"
    {
      assert |path| > 1 ==> HasEdge(w.nodes, path[0], path[0 + 1]);
    }
  }

  /** The state after `a`, before `b`. */
  lemma {:induction false} GivesFirst(w: World, budget: int) returns (c: Config, f: Frame)
    requires RunsBack(w) && budget >= 2
    ensures Reaches(w, BackExec, Born("a", budget).config, c)
    ensures c.thread == Thread(map["a" := GIVEN], Head(f, Some("b")))
    ensures f.key == "" && f.top && !f.stopAtJoin && f.visits == map["a" := 1] && f.account == None
    ensures c.shared.budget == budget - 1 && !c.shared.abort && c.shared.table == map[("a", "") := Completed(GIVEN)]
  {
    hide Reaches, Run;
    f := Entering(Root("a").ctl.frame, "a").(last := Some(GIVEN));
    c := VisitFresh(w, BackExec, map[], Root("a").ctl.frame, "a", Born("a", budget).config.shared, GIVEN);
    assert Port(GIVEN, "__fork__") == JNull;
  }

  lemma {:induction false} TakesWhatWasGiven(w: World, f: Frame, table: map<StepKey, Row>)
    requires RunsBack(w) && (BACK["b"].id, RowKey(f.key, Visits(f, "b"))) !in table
    ensures NodeRow(w, BackExec, map["a" := GIVEN], f, BACK["b"], table).0 == Produced(GIVEN)
  {
    hide RowKey;
    ReadsTheResult(w, f.account, LoopCount(f, BACK["b"]));
    hide Evaluate;
  }

  lemma {:induction false} ReadsTheResult(w: World, account: Option<AccountId>, loop: nat)
    requires RunsBack(w)
    ensures Evaluate(w, BackExec, map["a" := GIVEN], BACK["b"], account, loop) == Produced(GIVEN)
  {
    var n, results: Results := BACK["b"], map["a" := GIVEN];
    assert ResolveInput(w, results, n.inputs["in"]) == Value(JInt(1)) by {
      assert Walked(w, JInt(1), []) == Value(JInt(1));
      assert Port(GIVEN, "out") == JInt(1);
    }
    var wired := Wired(w, results, n);
    assert wired["in"] == Value(JInt(1));
    var ports := ["in"];
    assert ports[1..] == [];
    assert FirstBadPort(wired, ports[1..]) == None;
    assert FirstBadPort(wired, ports) == None;
  }

  /** The state after the commit of `b`. */
  lemma {:induction false} TakesSecond(w: World) returns (d: Config, f: Frame)
    requires RunsBack(w)
    ensures Reaches(w, BackExec, Born("a", 2).config, d) && d.thread.ctl == Head(f, None) && !d.shared.abort
    ensures d.shared.current == Some("b")
    ensures d.shared.table == map[("a", "") := Completed(GIVEN), ("b", "") := Completed(GIVEN)]
  {
    hide Reaches, Run;
    var c, f0 := GivesFirst(w, 2);
    f := Entering(f0, "b");
    TakesWhatWasGiven(w, f, c.shared.table);
    d := Visit(w, BackExec, c.thread.results, f0, "b", c.shared);
    f := f.(last := Some(GIVEN));
    assert Port(GIVEN, "__fork__") == JNull;
    ReachesBoth(w, BackExec, Born("a", 2).config, c, d);
  }

  lemma {:induction false} WalkEnds(w: World, ex: Exec, c0: Config, d: Config, f: Frame) returns (end: Config)
    requires Reaches(w, ex, c0, d) && d.thread.ctl == Head(f, None) && !d.shared.abort
    ensures Reaches(w, ex, c0, end) && end.thread.ctl.Done? && Clean(end) && end.shared == d.shared
  {
    hide Reaches, Run;
    EndStep(w, ex, d.thread.results, f, d.shared);
    end := Config(Thread(d.thread.results, Done(f.last, None)), d.shared);
    ReachesNext(w, ex, c0, d, [], end);
  }

  /** Without a crash the flow completes. */
  lemma {:induction false} BackCompletes(w: World) returns (end: Config)
    requires RunsBack(w)
    ensures Reaches(w, BackExec, Born("a", 2).config, end) && end.thread.ctl.Done? && Clean(end)
    ensures end.shared.table == map[("a", "") := Completed(GIVEN), ("b", "") := Completed(GIVEN)]
  {
    hide Reaches, Run, Clean;
    var d, f := TakesSecond(w);
    end := WalkEnds(w, BackExec, Born("a", 2).config, d, f);
  }

  /** A committed step is replayed, whatever its node is wired to. */
  lemma {:induction false} SecondIsReplayed(w: World, d: Config) returns (end: Config)
    requires RunsBack(w) && !d.shared.abort
    requires d.shared.table == map[("a", "") := Completed(GIVEN), ("b", "") := Completed(GIVEN)]
    ensures Reaches(w, BackExec, Resumed(d, "b", 2), end) && end.thread.ctl.Done?
    ensures end.shared.table == d.shared.table
  {
    hide Reaches, Run, Evaluate;
    var r, f := Resumed(d, "b", 2), Entering(Root("b").ctl.frame, "b");
    assert RowKey(f.key, Visits(f, "b")) == "";
    assert NodeRow(w, BackExec, map[], f, BACK["b"], r.shared.table) == (Produced(GIVEN), r.shared.table);
    var c := Visit(w, BackExec, map[], Root("b").ctl.frame, "b", r.shared);
    assert Port(GIVEN, "__fork__") == JNull;
    end := WalkEnds(w, BackExec, r, c, f.(last := Some(GIVEN)));
  }

  /**
    A crash that the same flow does survive: the executor dies after the commit of `b`, whose reference to `a` still
    reaches back before the node the run row names. Nothing executes again, so nothing is read.
  */
  lemma {:induction false} CommittedReadIsSurvived(w: World)
    returns (end: Config, d: Config, events: seq<Event>, x: Life)
    requires RunsBack(w)
    ensures Reaches(w, BackExec, Born("a", 2).config, end) && end.thread.ctl.Done? && Clean(end)
    ensures Reaches(w, BackExec, Born("a", 2).config, d) && d.shared.current == Some("b") && !CutPoint(w.nodes, "b")
    ensures Reaches(w, BackExec, Resumed(d, "b", 2), x.config)
    ensures LiveAll(w, BackExec, "a", 2, Born("a", 2), events) == Some(x)
    ensures x.config.thread.ctl.Done? && x.config.shared.table == end.shared.table
  {
    hide Run, LiveAll, Clean, CutPoint, Reaches;
    SecondIsNoCutPoint(w);
    end := BackCompletes(w);
    var f;
    d, f := TakesSecond(w);
    var c := SecondIsReplayed(w, d);
    events, x := CrashAndResume(w, BackExec, "a", 2, d, "b", c);
  }

  /**
    A crash that a flow does not survive. Its second node reads the result of its first; without a crash it
    completes, and a crash right after the run row has moved on to the second node makes the next attempt fail.
  */
  lemma {:induction false} CrashFailsTheRun(w: World) returns (end: Config, events: seq<Event>, x: Life)
    requires RunsBack(w)
    ensures Acyclic(w, map["a" := 1, "b" := 0], 2) && !CutPoint(w.nodes, "b")
    ensures Reaches(w, BackExec, Born("a", 2).config, end) && end.thread.ctl.Done? && Clean(end)
    ensures LiveAll(w, BackExec, "a", 2, Born("a", 2), events) == Some(x)
    ensures x.config.thread.ctl.Raised? && x.config.thread.ctl.exn != Abort
  {
    hide Run, LiveAll, Acyclic, Clean, CutPoint, Reaches;
    BackIsAcyclic(w);
    SecondIsNoCutPoint(w);
    end := BackCompletes(w);
    var c, f := GivesFirst(w, 2);
    var d := Touching(w, BackExec, Born("a", 2).config, c, f, "b");
    BackRefFailsTheResume(w, BackExec, Resumed(d, "b", 2).shared, "b", "in");
    var last: seq<seq<string>> := [[], [], []];
    var failed := Run(w, BackExec, Resumed(d, "b", 2), last).value;
    RunReaches(w, BackExec, Resumed(d, "b", 2), last, failed);
    events, x := CrashAndResume(w, BackExec, "a", 2, d, "b", failed);
  }

  // ---------------------------------------------------------------- a fan-out body behind a cut

  /** The body of the fan-out is walked once for the item, and again behind `cut` and its reader. */
  const BODY: map<string, IRNode> := map[
    "fan" := Node("fan", "fan", map["body" := "b", "after" := "cut"]),
    "cut" := Node("cut", "give", map["next" := "c"]),
    "c" := Node("c", "take", map["next" := "b"]).(inputs := map["in" := PortRef("b", "out", [])]),
    "b" := Node("b", "give", map[])]

  const FANS: Output := map["__fanout_items__" := JStr("[1]")]

  function BodyExec(n: IRNode, wired: map<string, Resolution>, account: Option<AccountId>, loop: nat): NodeResult {
    Produced(if n.nodeType == "fan" then FANS else GIVEN)
  }

  predicate RunsBody(w: World) {
    && w.nodes == BODY && w.registry == map["fan" := [], "give" := [], "take" := ["in"]]
    && w.codec.loads("[1]") == Some(JArr([JInt(1)])) && w.codec.show(JInt(1)) == "1"
  }

  function FanFrame(): Frame {
    Entering(Root("fan").ctl.frame, "fan").(last := Some(FANS))
  }

  lemma {:induction false} FanOpens(w: World) returns (c: Config)
    requires RunsBody(w)
    ensures Reaches(w, BodyExec, Born("fan", 5).config, c)
    ensures c.thread == Thread(map["fan" := FANS], Fanout(FanFrame(), BODY["fan"], FANS, [JInt(1)], Done(None, None)))
    ensures c.shared.budget == 4 && !c.shared.abort && c.shared.table.Keys == {("fan", "")}
  {
    hide Reaches, Run;
    c := VisitFresh(w, BodyExec, map[], Root("fan").ctl.frame, "fan", Born("fan", 5).config.shared, FANS);
    assert Port(FANS, "__fork__") == JNull;
  }

  /** A chain that stands before `b` visits it and ends. */
  lemma {:induction false} GiveAndEnd(w: World, c: Config, f: Frame) returns (end: Config)
    requires RunsBody(w) && c.thread.ctl == Head(f, Some("b")) && CanEnter(w, f, "b", c.shared) && "b" !in f.visits
    requires (f.key == "" || f.key == "1") && ("b", f.key) !in c.shared.table
    ensures Reaches(w, BodyExec, c, end) && end.thread.ctl.Done?
    ensures end.thread.results == c.thread.results["b" := GIVEN]
    ensures end.shared.budget == c.shared.budget - 1 && !end.shared.abort
    ensures end.shared.table == c.shared.table[("b", f.key) := Completed(GIVEN)]
  {
    hide Reaches, Run;
    var f' := Entering(f, "b").(last := Some(GIVEN));
    var d := VisitFresh(w, BodyExec, c.thread.results, f, "b", c.shared, GIVEN);
    assert Port(GIVEN, "__fork__") == JNull;
    EndStep(w, BodyExec, d.thread.results, f', d.shared);
    end := Config(Thread(d.thread.results, Done(f'.last, None)), d.shared);
    ReachesNext(w, BodyExec, c, d, [], end);
  }

  /** The one iteration of the fan-out, and the step behind it. */
  lemma {:induction false} BodyWalked(w: World) returns (c: Config)
    requires RunsBody(w)
    ensures Reaches(w, BodyExec, Born("fan", 5).config, c)
    ensures c.thread.ctl == Head(FanFrame(), Some("cut"))
    ensures c.thread.results.Keys == {"fan", "b"} && c.thread.results["b"] == GIVEN
    ensures c.shared.budget == 3 && !c.shared.abort && c.shared.table.Keys == {("fan", ""), ("b", "1")}
  {
    assert FanFrame().account == None && FanFrame().key == "";
    hide Reaches, Run, Step, FanFrame;
    var c1 := FanOpens(w);
    var c2 := FirstItem(w, c1);
    ReachesNext(w, BodyExec, Born("fan", 5).config, c1, [], c2);
    var b' := GiveAndEnd(w, Body(c2), BodyFrame(FanFrame(), "1", None));
    ReachesInBody(w, BodyExec, c2, b');
    var c3 := WithBody(c2, b');
    ReachesBoth(w, BodyExec, Born("fan", 5).config, c2, c3);
    c := NoMoreItems(w, c3);
    ReachesNext(w, BodyExec, Born("fan", 5).config, c3, [], c);
  }

  lemma {:induction false} FirstItem(w: World, c: Config) returns (c': Config)
    requires RunsBody(w) && FanFrame().account == None && FanFrame().key == "" && !c.shared.abort
    requires c.thread == Thread(map["fan" := FANS], Fanout(FanFrame(), BODY["fan"], FANS, [JInt(1)], Done(None, None)))
    ensures Step(w, BodyExec, c, []) == Some(c') && c'.shared == c.shared && c'.thread.results.Keys == {"fan"}
    ensures c'.thread.ctl ==
      Fanout(FanFrame(), BODY["fan"], FANS, [], Head(BodyFrame(FanFrame(), "1", None), Some("b")))
  {
    hide FanFrame;
    assert FanoutPort(FANS) == "item";
    c' := Step(w, BodyExec, c, []).value;
  }

  lemma {:induction false} NoMoreItems(w: World, c: Config) returns (c': Config)
    requires RunsBody(w) && c.thread.ctl.Fanout? && c.thread.ctl.body.Done? && c.thread.ctl.items == []
    requires c.thread.ctl.node == BODY["fan"]
    ensures Step(w, BodyExec, c, []) == Some(c') && c'.shared == c.shared
    ensures c'.thread == Thread(c.thread.results, Head(c.thread.ctl.frame, Some("cut")))
  {
    c' := Step(w, BodyExec, c, []).value;
  }

  lemma {:induction false} BodyReads(w: World, results: Results, account: Option<AccountId>, loop: nat)
    requires RunsBody(w) && "b" in results && results["b"] == GIVEN
    ensures Evaluate(w, BodyExec, results, BODY["c"], account, loop) == Produced(GIVEN)
  {
    var n := BODY["c"];
    assert ResolveInput(w, results, n.inputs["in"]) == Value(JInt(1)) by {
      assert Walked(w, JInt(1), []) == Value(JInt(1));
      assert Port(GIVEN, "out") == JInt(1);
    }
    var wired := Wired(w, results, n);
    var ports := ["in"];
    assert wired["in"] == Value(JInt(1)) && ports[1..] == [];
    assert FirstBadPort(wired, ports[1..]) == None && FirstBadPort(wired, ports) == None;
  }

  lemma {:induction false} CutGives(w: World, results: Results, f: Frame, sh: Shared) returns (c: Config, f': Frame)
    requires RunsBody(w) && CanEnter(w, f, "cut", sh) && RowOf(f, "cut") !in sh.table && f.visits.Keys !! {"c", "b"}
    ensures Reaches(w, BodyExec, Config(Thread(results, Head(f, Some("cut"))), sh), c)
    ensures c.thread == Thread(results["cut" := GIVEN], Head(f', Some("c")))
    ensures f'.key == f.key && f'.visits.Keys !! {"c", "b"} && f'.top == f.top && f'.stopAtJoin == f.stopAtJoin
    ensures c.shared.budget == sh.budget - 1 && !c.shared.abort
    ensures c.shared.table == sh.table[RowOf(f, "cut") := Completed(GIVEN)]
  {
    hide Reaches, Run, RowKey;
    f' := Entering(f, "cut").(last := Some(GIVEN));
    c := VisitFresh(w, BodyExec, results, f, "cut", sh, GIVEN);
    assert Port(GIVEN, "__fork__") == JNull;
  }

  /** Without a crash the reader meets the result of the body. */
  lemma {:induction false} ReaderIsReached(w: World) returns (c: Config, f: Frame)
    requires RunsBody(w)
    ensures Reaches(w, BodyExec, Born("fan", 5).config, c) && c.thread.ctl == Head(f, Some("c"))
    ensures f.key == "" && f.visits.Keys !! {"c", "b"} && !f.stopAtJoin
    ensures "b" in c.thread.results && c.thread.results["b"] == GIVEN
    ensures c.shared.budget == 2 && !c.shared.abort && c.shared.table.Keys == {("fan", ""), ("b", "1"), ("cut", "")}
  {
    assert FanFrame().key == "" && FanFrame().visits == map["fan" := 1] && FanFrame().top && !FanFrame().stopAtJoin;
    hide Reaches, Run, FanFrame;
    var c1 := BodyWalked(w);
    c, f := CutGives(w, c1.thread.results, FanFrame(), c1.shared);
    ReachesBoth(w, BodyExec, Born("fan", 5).config, c1, c);
  }

  /** Without a crash the flow completes. */
  lemma {:induction false} BodyCompletes(w: World) returns (end: Config)
    requires RunsBody(w)
    ensures Reaches(w, BodyExec, Born("fan", 5).config, end) && end.thread.ctl.Done? && Clean(end)
  {
    hide Reaches, Run;
    var c2, f2 := ReaderIsReached(w);
    var c3, f3 := ReaderFinds(w, c2, f2);
    ReachesBoth(w, BodyExec, Born("fan", 5).config, c2, c3);
    end := GiveAndEnd(w, c3, f3);
    ReachesBoth(w, BodyExec, Born("fan", 5).config, c3, end);
  }

  lemma {:induction false} ReaderFinds(w: World, c: Config, f: Frame) returns (d: Config, f': Frame)
    requires RunsBody(w) && c.thread.ctl == Head(f, Some("c")) && CanEnter(w, f, "c", c.shared) && f.key == ""
    requires f.visits.Keys !! {"c", "b"} && "b" in c.thread.results && c.thread.results["b"] == GIVEN && !f.stopAtJoin
    requires c.shared.table.Keys == {("fan", ""), ("b", "1"), ("cut", "")} && c.shared.budget == 2
    ensures Reaches(w, BodyExec, c, d) && d.thread.ctl == Head(f', Some("b"))
    ensures f'.key == "" && f'.visits.Keys !! {"b"} && !f'.stopAtJoin
    ensures d.shared.budget == 1 && !d.shared.abort && ("b", "") !in d.shared.table
  {
    hide Reaches, Run;
    var f1 := Entering(f, "c");
    BodyReads(w, c.thread.results, f1.account, LoopCount(f1, BODY["c"]));
    assert Port(GIVEN, "__fork__") == JNull;
    hide Evaluate;
    d := Visit(w, BodyExec, c.thread.results, f, "c", c.shared);
    f' := f1.(last := Some(GIVEN));
  }

  lemma {:induction false} ReaderMisses(w: World, c: Config, f: Frame) returns (d: Config)
    requires RunsBody(w) && c.thread.ctl == Head(f, Some("c")) && CanEnter(w, f, "c", c.shared) && f.key == ""
    requires f.visits.Keys !! {"c", "b"} && "b" !in c.thread.results && ("c", "") !in c.shared.table
    ensures Reaches(w, BodyExec, c, d) && d.thread.ctl.Raised? && d.thread.ctl.exn != Abort
  {
    hide Reaches, Run;
    var f1 := Entering(f, "c");
    NothingToRead(w, BodyExec, c.thread.results, BODY["c"], "in", f1.account, LoopCount(f1, BODY["c"]));
    hide Evaluate;
    d := Visit(w, BodyExec, c.thread.results, f, "c", c.shared);
  }

  /** The nodes of `ids` refer only to nodes of `ids`, and to flow variables. */
  ghost predicate RefsStay(nodes: Nodes, ids: set<string>) {
    forall id, port | id in ids && id in nodes && port in nodes[id].inputs && nodes[id].inputs[port].PortRef? ::
      nodes[id].inputs[port].nodeId == VARS_NODE_ID || nodes[id].inputs[port].nodeId in ids
  }

  /**
    Why cut points look at fan-out bodies too. At and behind `cut` every reference names a node at or behind `cut`;
    still the flow completes without a crash and fails when it crashes there, because its reader meets the result
    that the fan-out body has left.
  */
  lemma {:induction false} BodyResultIsLost(w: World) returns (end: Config, events: seq<Event>, x: Life)
    requires RunsBody(w)
    ensures Acyclic(w, HEIGHTS, 4) && RefsStay(w.nodes, Reach(w.nodes, "cut"))
    ensures Reaches(w, BodyExec, Born("fan", 5).config, end) && end.thread.ctl.Done? && Clean(end)
    ensures LiveAll(w, BodyExec, "fan", 5, Born("fan", 5), events) == Some(x)
    ensures x.config.thread.ctl.Raised? && x.config.thread.ctl.exn != Abort
  {
    hide Run, LiveAll, Clean, Reaches, RefsStay, Acyclic;
    BodyIsAcyclic(w);
    BodyRefsStay(w);
    end := BodyCompletes(w);
    assert FanFrame().visits == map["fan" := 1] && FanFrame().top && !FanFrame().stopAtJoin;
    var c := BodyWalked(w);
    var d := Touching(w, BodyExec, Born("fan", 5).config, c, FanFrame(), "cut");
    var failed := ResumeMisses(w, d);
    events, x := CrashAndResume(w, BodyExec, "fan", 5, d, "cut", failed);
  }

  lemma {:induction false} ResumeMisses(w: World, d: Config) returns (failed: Config)
    requires RunsBody(w) && d.shared.table.Keys == {("fan", ""), ("b", "1")}
    ensures Reaches(w, BodyExec, Resumed(d, "cut", 5), failed) && failed.thread.ctl.Raised?
            && failed.thread.ctl.exn != Abort
  {
    hide Run, Reaches;
    var r := Resumed(d, "cut", 5);
    var c, f := CutGives(w, map[], Root("cut").ctl.frame, r.shared);
    failed := ReaderMisses(w, c, f);
    ReachesBoth(w, BodyExec, r, c, failed);
  }

  const HEIGHTS: Rank := map["fan" := 3, "cut" := 2, "c" := 1, "b" := 0]

  lemma {:induction false} BodyIsClosed(w: World)
    requires RunsBody(w)
    ensures ClosedGraph(w.nodes)
  {
    var ids := {"fan", "cut", "c", "b"};
    assert w.nodes.Keys == ids;
    assert TargetsIn(ids, w.nodes["fan"]) && TargetsIn(ids, w.nodes["cut"]) && TargetsIn(ids, w.nodes["c"]);
    assert TargetsIn(ids, w.nodes["b"]);
  }

  lemma {:induction false} BodyIsRanked(w: World)
    requires RunsBody(w)
    ensures Ranked(w.nodes, HEIGHTS) && RankedBelow(w.nodes, HEIGHTS, 4)
  {
  }

  lemma {:induction false} BodyIsPlain(w: World)
    requires RunsBody(w)
    ensures PlainWorld(w) && "" !in w.nodes
  {
    assert PlainLabels(w.nodes["fan"]) && PlainLabels(w.nodes["cut"]) && PlainLabels(w.nodes["c"])
           && PlainLabels(w.nodes["b"]);
  }

  lemma {:induction false} BodyIsAcyclic(w: World)
    requires RunsBody(w)
    ensures Acyclic(w, HEIGHTS, 4)
  {
    hide ClosedGraph, Ranked, RankedBelow, PlainWorld;
    BodyIsClosed(w);
    BodyIsRanked(w);
    BodyIsPlain(w);
  }

  lemma {:induction false} BodyRefsStay(w: World)
    requires RunsBody(w)
    ensures RefsStay(w.nodes, Reach(w.nodes, "cut"))
  {
    var path := ["cut", "c", "b"];
    assert BODY["cut"].edges["next"] == "c" && BODY["c"].edges["next"] == "b";
    assert HasEdge(w.nodes, "cut", "c") && HasEdge(w.nodes, "c", "b");
    assert IsPath(w.nodes, path);
    assert "b" in Reach(w.nodes, "cut");
  }
}
