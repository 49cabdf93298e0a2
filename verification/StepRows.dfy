/**
  Which visit a step row belongs to. In every run the key of every chain is the key of the items and fork labels
  that lead to it, so with plain items and labels a step row names one node, one such path and one visit count.
*/
module StepRows {
  import opened Base
  import opened JsonValues
  import opened Ir
  import opened IterationKeys
  import opened Machine
  import opened Budget
  import opened Mirror

  /** All the items of a fan-out. */
  function AllItems(w: World, output: Output): seq<Json> {
    match FanoutItems(w.codec, output)
    case Items(items) => items
    case _ => []
  }

  /** The level of the item that is being worked on when `left` are still to come. */
  function ItemLevel(w: World, output: Output, left: seq<Json>): Level
    requires |left| < |AllItems(w, output)|
  {
    var all := AllItems(w, output);
    Iteration(w.codec.show(all[|all| - |left| - 1]))
  }

  /** The items and labels that lead from the root to the chain that moves at `p`. */
  function LevelsAt(w: World, c: Control, p: seq<string>): seq<Level>
    decreases c
  {
    match c
    case Fanout(_, _, output, items, body) =>
      if Finished(body) || |items| >= |AllItems(w, output)| then []
      else [ItemLevel(w, output, items)] + LevelsAt(w, body, p)
    case Fork(_, _, branches) =>
      if p != [] && p[0] in branches then [ForkBranch(p[0])] + LevelsAt(w, branches[p[0]].ctl, p[1..]) else []
    case _ => []
  }

  /** Every chain at or below `c` has the key of its path, if `c` has the key of `path`. */
  ghost predicate Keyed(w: World, c: Control, path: seq<Level>)
    decreases c
  {
    match c
    case Head(f, _) => f.key == KeyOf(path)
    case Claiming(f, n) => f.key == KeyOf(path) && Visits(f, n.id) > 0
    case Executing(f, n) => f.key == KeyOf(path) && Visits(f, n.id) > 0
    case Fanout(f, n, output, items, body) =>
      && f.key == KeyOf(path) && ItemsLeft(w, output, items)
      && (!Finished(body) ==>
            |items| < |AllItems(w, output)| && Keyed(w, body, path + [ItemLevel(w, output, items)]))
    case Fork(f, _, branches) =>
      f.key == KeyOf(path) && forall l | l in branches :: Keyed(w, branches[l].ctl, path + [ForkBranch(l)])
    case _ => true
  }

  /** `items` are the last ones of the fan-out. */
  predicate ItemsLeft(w: World, output: Output, items: seq<Json>) {
    var all := AllItems(w, output);
    |items| <= |all| && items == all[|all| - |items|..]
  }

  lemma {:induction false} BranchesKeyed(w: World, f: Frame, n: IRNode, results: Results, path: seq<Level>)
    requires f.key == KeyOf(path)
    ensures Keyed(w, Fork(f, n, Branches(f, n, results)), path)
  {
    hide KeyOf, ForkKey;
    forall l | l in n.edges
      ensures ForkKey(f.key, l) == KeyOf(path + [ForkBranch(l)])
    {
      ComposedKeys(path, "", l, 0);
    }
  }

  lemma {:induction false} RouteKeyed(w: World, f: Frame, n: IRNode, results: Results, output: Output,
                                      path: seq<Level>)
    requires f.key == KeyOf(path)
    ensures Keyed(w, Route(w, f, n, results, output), path)
  {
    hide KeyOf, CheckStopCondition, Truthy, Branches, EdgeLabel;
    BranchesKeyed(w, f, n, results, path);
  }

  lemma {:induction false} ItemTaken(w: World, f: Frame, output: Output, items: seq<Json>, path: seq<Level>)
    requires f.key == KeyOf(path) && ItemsLeft(w, output, items) && items != []
    ensures ItemsLeft(w, output, items[1..]) && |items[1..]| < |AllItems(w, output)|
    ensures Compose(f.key, w.codec.show(items[0])) == KeyOf(path + [ItemLevel(w, output, items[1..])])
  {
    hide KeyOf, Compose, AllItems;
    var all := AllItems(w, output);
    assert items[1..] == all[|all| - |items[1..]|..] && items[0] == all[|all| - |items[1..]| - 1];
    ComposedKeys(path, w.codec.show(items[0]), "", 0);
  }

  lemma {:induction false} NextItemKeyed(w: World, results: Results, f: Frame, n: IRNode, output: Output,
                                         items: seq<Json>, body: Control, v: View, path: seq<Level>)
    requires Keyed(w, Fanout(f, n, output, items, body), path) && Finished(body)
    ensures Keyed(w, NextItem(w, results, f, n, output, items, body, v).thread.ctl, path)
  {
    if items != [] { ItemTaken(w, f, output, items, path); }
    hide KeyOf, Compose, FanoutPort, AllItems, ItemsLeft, ItemLevel;
  }

  lemma {:induction false} ActKeyed(w: World, ex: Exec, t: Thread, v: View, p: seq<string>, path: seq<Level>)
    requires IdsMatch(w) && Keyed(w, t.ctl, path) && Act(w, ex, t, v, p).Some?
    ensures Keyed(w, Act(w, ex, t, v, p).value.thread.ctl, path)
    decreases t.ctl
  {
    hide KeyOf, Evaluate, Route, NextItem, Join, AllItems;
    match t.ctl
    case Claiming(f, n) =>
      if v.row.Some? && v.row.value.Completed? {
        var output := v.row.value.output;
        RouteKeyed(w, f.(last := Some(output)), n, t.results[n.id := output], output, path);
      }
    case Executing(f, n) =>
      var r := Evaluate(w, ex, t.results, n, f.account, LoopCount(f, n));
      if r.Produced? {
        RouteKeyed(w, f.(last := Some(r.output)), n, t.results[n.id := r.output], r.output, path);
      }
    case Fanout(f, n, output, items, body) =>
      if Finished(body) {
        NextItemKeyed(w, t.results, f, n, output, items, body, v, path);
      } else {
        ActKeyed(w, ex, Thread(t.results, body), v, p, path + [ItemLevel(w, output, items)]);
      }
    case Fork(f, n, branches) =>
      if p == [] {
        JoinShape(w, t.results, f, n, branches);
      } else if !branches[p[0]].ctl.Raised? {
        ActKeyed(w, ex, branches[p[0]], v, p[1..], path + [ForkBranch(p[0])]);
      }
    case _ =>
  }

  /** In every run, whatever the nodes do and however branches interleave, each chain's key is that of its path. */
  lemma {:induction false} EveryChainIsKeyed(w: World, c: Config, s: seq<Choice>)
    requires IdsMatch(w) && Keyed(w, c.thread.ctl, []) && RunAny(w, c, s).Some?
    ensures Keyed(w, RunAny(w, c, s).value.thread.ctl, [])
    decreases |s|
  {
    hide Act, KeyAt, Keyed;
    if s != [] {
      ActKeyed(w, s[0].ex, c.thread, Look(c.shared, KeyAt(c.thread.ctl, s[0].path)), s[0].path, []);
      EveryChainIsKeyed(w, Move1(w, c, s[0]).value, s[1..]);
    }
  }

  /** The row that a chain looks at is that of its node under the key of its path and visit. */
  lemma {:induction false} RowOfPath(w: World, c: Control, p: seq<string>, path: seq<Level>)
    requires Keyed(w, c, path) && KeyAt(c, p).Some?
    ensures var chain := ChainAt(c, p);
      && (chain.Claiming? || chain.Executing?) && Visits(chain.frame, chain.node.id) > 0
      && KeyAt(c, p).value
      == (chain.node.id, RowKey(KeyOf(path + LevelsAt(w, c, p)), Visits(chain.frame, chain.node.id)))
    decreases c
  {
    hide KeyOf, RowKey, AllItems;
    match c
    case Fanout(_, _, output, items, body) =>
      var level := ItemLevel(w, output, items);
      RowOfPath(w, body, p, path + [level]);
      assert (path + [level]) + LevelsAt(w, body, p) == path + ([level] + LevelsAt(w, body, p));
    case Fork(_, _, branches) =>
      RowOfPath(w, branches[p[0]].ctl, p[1..], path + [ForkBranch(p[0])]);
      var rest := LevelsAt(w, branches[p[0]].ctl, p[1..]);
      assert (path + [ForkBranch(p[0])]) + rest == path + ([ForkBranch(p[0])] + rest);
    case Claiming(_, _) => assert path + [] == path;
    case Executing(_, _) => assert path + [] == path;
  }

  lemma {:induction false} NoRevisitOnTheWay(w: World, c: Control, p: seq<string>)
    ensures forall i | 0 <= i < |LevelsAt(w, c, p)| :: !LevelsAt(w, c, p)[i].Revisit?
    decreases c
  {
    hide AllItems;
    match c
    case Fanout(_, _, _, _, body) => NoRevisitOnTheWay(w, body, p);
    case Fork(_, _, branches) =>
      if p != [] && p[0] in branches { NoRevisitOnTheWay(w, branches[p[0]].ctl, p[1..]); }
    case _ =>
  }

  /** A path, and the visit of the node at its end. */
  function WithVisit(path: seq<Level>, visits: nat): seq<Level> {
    if visits > 1 then path + [Revisit(visits)] else path
  }

  lemma {:induction false} SameVisit(p: seq<Level>, q: seq<Level>, m: nat, n: nat)
    requires m > 0 && n > 0 && WithVisit(p, m) == WithVisit(q, n)
    requires forall i | 0 <= i < |p| :: !p[i].Revisit?
    requires forall i | 0 <= i < |q| :: !q[i].Revisit?
    ensures p == q && m == n
    decreases n
  {
    var a, b := WithVisit(p, m), WithVisit(q, n);
    if m > 1 {
      assert a[|a| - 1].Revisit?;
      assert b[|b| - 1] == Revisit(n) && a[..|a| - 1] == p && b[..|b| - 1] == q;
    } else if n > 1 {
      SameVisit(q, p, n, m);
    }
  }

  /**
    A step row belongs to one visit. Take any two moments of any two runs, in which chains look at one step row, with
    plain items and labels on the way to both. Then they are at the same node, behind the same items and labels, in
    the same visit.
  */
  lemma {:induction false} RowBelongsToOneVisit(w: World, c: Config, s: seq<Choice>, p: seq<string>, d: Config,
                                                s': seq<Choice>, q: seq<string>)
    requires IdsMatch(w) && Keyed(w, c.thread.ctl, []) && Keyed(w, d.thread.ctl, [])
    requires RunAny(w, c, s).Some? && RunAny(w, d, s').Some?
    requires var a, b := RunAny(w, c, s).value.thread.ctl, RunAny(w, d, s').value.thread.ctl;
      && KeyAt(a, p).Some? && KeyAt(a, p) == KeyAt(b, q)
      && PlainPath(LevelsAt(w, a, p)) && PlainPath(LevelsAt(w, b, q))
    ensures var a, b := RunAny(w, c, s).value.thread.ctl, RunAny(w, d, s').value.thread.ctl;
      var x, y := ChainAt(a, p), ChainAt(b, q);
      && (x.Claiming? || x.Executing?) && (y.Claiming? || y.Executing?)
      && x.node.id == y.node.id && LevelsAt(w, a, p) == LevelsAt(w, b, q)
      && Visits(x.frame, x.node.id) == Visits(y.frame, y.node.id)
  {
    hide KeyAt, ChainAt, LevelsAt, Keyed, KeyOf, RunAny, PlainPath, WithVisit;
    var a, b := RunAny(w, c, s).value.thread.ctl, RunAny(w, d, s').value.thread.ctl;
    EveryChainIsKeyed(w, c, s);
    EveryChainIsKeyed(w, d, s');
    RowOfPath(w, a, p, []);
    RowOfPath(w, b, q, []);
    NoRevisitOnTheWay(w, a, p);
    NoRevisitOnTheWay(w, b, q);
    var x, y := ChainAt(a, p), ChainAt(b, q);
    OneRow(LevelsAt(w, a, p), LevelsAt(w, b, q), Visits(x.frame, x.node.id), Visits(y.frame, y.node.id));
  }

  lemma {:induction false} OneRow(p: seq<Level>, q: seq<Level>, m: nat, n: nat)
    requires m > 0 && n > 0 && PlainPath(p) && PlainPath(q)
    requires RowKey(KeyOf([] + p), m) == RowKey(KeyOf([] + q), n)
    requires forall i | 0 <= i < |p| :: !p[i].Revisit?
    requires forall i | 0 <= i < |q| :: !q[i].Revisit?
    ensures p == q && m == n
  {
    hide KeyOf, RowKey;
    assert [] + p == p && [] + q == q;
    ComposedKeys(p, "", "", m);
    ComposedKeys(q, "", "", n);
    KeysAreInjective(WithVisit(p, m), WithVisit(q, n));
    SameVisit(p, q, m, n);
  }

  /** Every attempt starts so. */
  lemma {:induction false} RootIsKeyed(w: World, entry: string)
    ensures Keyed(w, Root(entry).ctl, [])
  {
  }
}
