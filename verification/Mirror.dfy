/**
  Two walks of one graph that differ only in what happened before a resume point. The resumed walk has a
  smaller result map and fresh visit counts; as long as no node that executes reads one of the missing results, each
  of its moves is matched by the same move of the other walk.
*/
module Mirror {
  import opened Base
  import opened JsonValues
  import opened Ir
  import opened IterationKeys
  import opened Machine
  import opened Confluence

  // ---------------------------------------------------------------- the relation

  /** `a` has every result of `b` except, possibly, those of `hidden` nodes. */
  ghost predicate SameBut(hidden: set<string>, a: Results, b: Results) {
    && (forall id | id in a :: id in b && b[id] == a[id])
    && (forall id | id in b :: id in a || id in hidden)
  }

  /** Nested chains agree in every local; the top-level one may differ in its visit counts and last result. */
  predicate SameFrame(a: Frame, b: Frame, top: bool) {
    if top then a.(visits := b.visits, last := b.last) == b else a == b
  }

  ghost predicate Alike(hidden: set<string>, a: Control, b: Control, top: bool)
    decreases a
  {
    match a
    case Head(f, current) => b.Head? && SameFrame(f, b.frame, top) && current == b.current
    case Claiming(f, n) =>
      b.Claiming? && SameFrame(f, b.frame, top) && n == b.node && Visits(f, n.id) == Visits(b.frame, n.id)
    case Executing(f, n) =>
      b.Executing? && SameFrame(f, b.frame, top) && n == b.node && Visits(f, n.id) == Visits(b.frame, n.id)
    case Fanout(f, n, output, items, body) =>
      && b.Fanout? && SameFrame(f, b.frame, top) && n == b.node && output == b.output && items == b.items
      && Alike(hidden, body, b.body, false)
    case Fork(f, n, branches) =>
      && b.Fork? && SameFrame(f, b.frame, top) && n == b.node && branches.Keys == b.branches.Keys
      && forall l | l in branches ::
           && SameBut(hidden, branches[l].results, b.branches[l].results)
           && Alike(hidden, branches[l].ctl, b.branches[l].ctl, false)
    case Done(last, stoppedAt) => b.Done? && stoppedAt == b.stoppedAt && (top || last == b.last)
    case Raised(_) => false
  }

  ghost predicate Twins(hidden: set<string>, a: Thread, b: Thread, top: bool) {
    SameBut(hidden, a.results, b.results) && Alike(hidden, a.ctl, b.ctl, top)
  }

  /** Every hidden result that `n` is wired to is in `results`. */
  predicate Finds(hidden: set<string>, results: Results, n: IRNode) {
    forall port | port in n.inputs && n.inputs[port].PortRef? ::
      n.inputs[port].nodeId == VARS_NODE_ID || n.inputs[port].nodeId !in hidden || n.inputs[port].nodeId in results
  }

  /** The chain that moves at path `p`, with the result map it sees. */
  function ThreadAt(t: Thread, p: seq<string>): Thread
    decreases t.ctl
  {
    match t.ctl
    case Fanout(_, _, _, _, body) => if Finished(body) then t else ThreadAt(Thread(t.results, body), p)
    case Fork(_, _, branches) => if p != [] && p[0] in branches then ThreadAt(branches[p[0]], p[1..]) else t
    case _ => t
  }

  /** A node that executes at path `p` finds every hidden result it is wired to in the result map of its chain. */
  predicate FindsAt(hidden: set<string>, t: Thread, p: seq<string>) {
    var chain := ThreadAt(t, p);
    chain.ctl.Executing? ==> Finds(hidden, chain.results, chain.ctl.node)
  }

  /** A top-level chain at its loop head has not entered the node it stands before. */
  predicate FreshAtTop(c: Control) {
    c.Head? && c.current.Some? ==> c.current.value !in c.frame.visits
  }

  /** The two moves do the same to the shared state, except that only one may insert a RUNNING row. */
  predicate SameEffect(a: Effect, b: Effect) {
    && a.cost == b.cost && a.touch == b.touch && !a.abort && !b.abort
    && (a.write == b.write || (a.write in {None, Some(Running)} && b.write in {None, Some(Running)}))
  }

  /** What the two threads see: the same committed output, or none; and no less budget on the left. */
  predicate SameSight(a: View, b: View) {
    && !a.abort && !b.abort && (b.left ==> a.left)
    && (a.row == b.row || (a.row in {None, Some(Running)} && b.row in {None, Some(Running)}))
  }

  ghost predicate Mirrored(hidden: set<string>, a: Move, b: Move, top: bool) {
    Twins(hidden, a.thread, b.thread, top) && SameEffect(a.effect, b.effect)
  }

  // ---------------------------------------------------------------- one chain

  lemma {:induction false} SameInputs(w: World, ex: Exec, hidden: set<string>, a: Results, b: Results, n: IRNode,
                                      account: Option<AccountId>, loop: nat)
    requires SameBut(hidden, a, b) && Finds(hidden, a, n)
    ensures Evaluate(w, ex, a, n, account, loop) == Evaluate(w, ex, b, n, account, loop)
  {
    hide Paths.Resolve;
    forall port | port in n.inputs
      ensures ResolveInput(w, a, n.inputs[port]) == ResolveInput(w, b, n.inputs[port])
    {
    }
    assert Wired(w, a, n) == Wired(w, b, n);
  }

  ghost predicate IdsMatch(w: World) {
    forall id | id in w.nodes :: w.nodes[id].id == id
  }

  lemma {:induction false} HeadMirrored(w: World, hidden: set<string>, a: Thread, b: Thread, va: View, vb: View,
                                        top: bool)
    requires IdsMatch(w)
    requires Twins(hidden, a, b, top) && a.ctl.Head? && SameSight(va, vb)
    requires top ==> FreshAtTop(a.ctl) && FreshAtTop(b.ctl)
    requires Sound(AtHead(w, b.results, b.ctl.frame, b.ctl.current, vb).thread.ctl)
    ensures Mirrored(hidden, AtHead(w, a.results, a.ctl.frame, a.ctl.current, va),
                     AtHead(w, b.results, b.ctl.frame, b.ctl.current, vb), top)
  {
    hide SameBut;
    if b.ctl.current.Some? && b.ctl.current.value in w.nodes {
      assert w.nodes[b.ctl.current.value].id == b.ctl.current.value;
    }
  }

  lemma {:induction false} HeadAlike(hidden: set<string>, f: Frame, g: Frame, current: Option<string>, top: bool)
    requires SameFrame(f, g, top)
    ensures Alike(hidden, Head(f, current), Head(g, current), top)
  {
  }

  lemma {:induction false} BranchesAlike(hidden: set<string>, a: Results, b: Results, f: Frame, g: Frame, n: IRNode,
                                         top: bool)
    requires SameBut(hidden, a, b) && SameFrame(f, g, top)
    ensures Alike(hidden, Fork(f, n, Branches(f, n, a)), Fork(g, n, Branches(g, n, b)), top)
  {
    hide SameBut;
    var x, y := Branches(f, n, a), Branches(g, n, b);
    assert x.Keys == y.Keys;
    forall l | l in x
      ensures SameBut(hidden, x[l].results, y[l].results) && Alike(hidden, x[l].ctl, y[l].ctl, false)
    {
      HeadAlike(hidden, BranchFrame(f, l), BranchFrame(g, l), Some(n.edges[l]), false);
    }
  }

  lemma {:induction false} NewFanoutAlike(hidden: set<string>, f: Frame, g: Frame, n: IRNode, output: Output,
                                          items: seq<Json>, body: Control, top: bool)
    requires SameFrame(f, g, top) && (body.Done? || body.Head?)
    ensures Alike(hidden, Fanout(f, n, output, items, body), Fanout(g, n, output, items, body), top)
  {
    assert Alike(hidden, body, body, false);
  }

  lemma {:induction false} RouteAlike(w: World, hidden: set<string>, a: Results, b: Results, f: Frame, g: Frame,
                                      n: IRNode, output: Output, top: bool)
    requires SameBut(hidden, a, b) && SameFrame(f, g, top)
    requires Sound(Route(w, g, n, b, output))
    ensures Alike(hidden, Route(w, f, n, a, output), Route(w, g, n, b, output), top)
  {
    hide FanoutItems, CheckStopCondition, Truthy, SameBut, Branches, EdgeLabel, Alike, SameFrame;
    var y := Route(w, g, n, b, output);
    match y
    case Head(_, current) => HeadAlike(hidden, f, g, current, top);
    case Fork(_, _, _) => BranchesAlike(hidden, a, b, f, g, n, top);
    case Fanout(_, _, _, items, body) => NewFanoutAlike(hidden, f, g, n, output, items, body, top);
    case _ =>
  }

  lemma {:induction false} CommitMirrored(w: World, hidden: set<string>, a: Results, b: Results, f: Frame, g: Frame,
                                          n: IRNode, output: Output, write: Option<Row>, top: bool)
    requires SameBut(hidden, a, b) && SameFrame(f, g, top)
    requires Sound(Commit(w, b, g, n, output, write).thread.ctl)
    ensures Mirrored(hidden, Commit(w, a, f, n, output, write), Commit(w, b, g, n, output, write), top)
  {
    hide Route;
    RouteAlike(w, hidden, a[n.id := output], b[n.id := output], f.(last := Some(output)), g.(last := Some(output)),
               n, output, top);
  }

  lemma {:induction false} ClaimMirrored(w: World, hidden: set<string>, a: Thread, b: Thread, va: View, vb: View,
                                         top: bool)
    requires Twins(hidden, a, b, top) && a.ctl.Claiming? && SameSight(va, vb)
    requires Sound(AtClaim(w, b.results, b.ctl.frame, b.ctl.node, vb).thread.ctl)
    ensures Mirrored(hidden, AtClaim(w, a.results, a.ctl.frame, a.ctl.node, va),
                     AtClaim(w, b.results, b.ctl.frame, b.ctl.node, vb), top)
  {
    hide Commit;
    if va.row.Some? && va.row.value.Completed? {
      CommitMirrored(w, hidden, a.results, b.results, a.ctl.frame, b.ctl.frame, a.ctl.node, va.row.value.output, None,
                     top);
    }
  }

  lemma {:induction false} ExecuteMirrored(w: World, ex: Exec, hidden: set<string>, a: Thread, b: Thread, top: bool)
    requires Twins(hidden, a, b, top) && a.ctl.Executing? && Finds(hidden, a.results, a.ctl.node)
    requires Sound(AtExecute(w, ex, b.results, b.ctl.frame, b.ctl.node).thread.ctl)
    ensures Mirrored(hidden, AtExecute(w, ex, a.results, a.ctl.frame, a.ctl.node),
                     AtExecute(w, ex, b.results, b.ctl.frame, b.ctl.node), top)
  {
    hide Commit, Evaluate;
    var f, n := a.ctl.frame, a.ctl.node;
    SameInputs(w, ex, hidden, a.results, b.results, n, f.account, LoopCount(f, n));
    var r := Evaluate(w, ex, a.results, n, f.account, LoopCount(f, n));
    if r.Produced? {
      CommitMirrored(w, hidden, a.results, b.results, f, b.ctl.frame, n, r.output, Some(Completed(r.output)), top);
    }
  }

  lemma {:induction false} FanoutTwins(hidden: set<string>, a: Thread, b: Thread, top: bool)
    requires Twins(hidden, a, b, top) && a.ctl.Fanout? && Finished(a.ctl.body)
    ensures b.ctl.Fanout? && SameBut(hidden, a.results, b.results) && SameFrame(a.ctl.frame, b.ctl.frame, top)
    ensures a.ctl.node == b.ctl.node && a.ctl.output == b.ctl.output && a.ctl.items == b.ctl.items
    ensures a.ctl.body.Done? && b.ctl.body.Done?
  {
    assert Alike(hidden, a.ctl.body, b.ctl.body, false);
  }

  lemma {:induction false} NextItemMirrored(w: World, hidden: set<string>, a: Thread, b: Thread, va: View, vb: View,
                                            top: bool)
    requires Twins(hidden, a, b, top) && a.ctl.Fanout? && Finished(a.ctl.body) && SameSight(va, vb)
    requires Sound(NextItem(w, b.results, b.ctl.frame, b.ctl.node, b.ctl.output, b.ctl.items, b.ctl.body,
                            vb).thread.ctl)
    ensures Mirrored(hidden,
                     NextItem(w, a.results, a.ctl.frame, a.ctl.node, a.ctl.output, a.ctl.items, a.ctl.body, va),
                     NextItem(w, b.results, b.ctl.frame, b.ctl.node, b.ctl.output, b.ctl.items, b.ctl.body, vb), top)
  {
    FanoutTwins(hidden, a, b, top);
    hide FanoutPort, Compose, SameBut, Alike;
    var y := NextItem(w, b.results, b.ctl.frame, b.ctl.node, b.ctl.output, b.ctl.items, b.ctl.body, vb).thread;
    if y.ctl.Fanout? {
      NewFanoutAlike(hidden, a.ctl.frame, b.ctl.frame, a.ctl.node, a.ctl.output, y.ctl.items, y.ctl.body, top);
      SameButUpdate(hidden, a.results, b.results, a.ctl.node.id, y.results[a.ctl.node.id]);
    } else {
      HeadAlike(hidden, a.ctl.frame, b.ctl.frame, y.ctl.current, top);
    }
  }

  lemma {:induction false} SameButUpdate(hidden: set<string>, a: Results, b: Results, id: string, output: Output)
    requires SameBut(hidden, a, b)
    ensures SameBut(hidden, a[id := output], b[id := output])
  {
  }

  lemma {:induction false} JoinMirrored(w: World, hidden: set<string>, a: Thread, b: Thread, top: bool)
    requires Twins(hidden, a, b, top) && a.ctl.Fork? && b.ctl.Fork? && AllAtRest(b.ctl.branches)
    requires Sound(Join(w, b.results, b.ctl.frame, b.ctl.node, b.ctl.branches).thread.ctl)
    ensures AllAtRest(a.ctl.branches)
    ensures Mirrored(hidden, Join(w, a.results, a.ctl.frame, a.ctl.node, a.ctl.branches),
                     Join(w, b.results, b.ctl.frame, b.ctl.node, b.ctl.branches), top)
  {
    hide SameBut, JoinOutput, JoinIds, Alike;
    ForkTwins(hidden, a, b, top);
    var x, y := a.ctl.branches, b.ctl.branches;
    assert !AnyAborted(y);
    BranchesAtRest(hidden, x, y);
    if |JoinIds(y)| == 1 && forall l | l in y :: y[l].ctl.last.Some? {
      SameJoinOutput(w.codec, x, y);
      var joinId, output := TheElement(JoinIds(y)), JoinOutput(w.codec, y);
      SameButUpdate(hidden, a.results, b.results, joinId, output);
      HeadTwins(hidden, a.results[joinId := output], b.results[joinId := output], a.ctl.frame, b.ctl.frame,
                if joinId in w.nodes then Lookup(w.nodes[joinId].edges, "next") else None, top);
    }
  }

  lemma {:induction false} ForkTwins(hidden: set<string>, a: Thread, b: Thread, top: bool)
    requires Twins(hidden, a, b, top) && a.ctl.Fork? && b.ctl.Fork?
    ensures SameFrame(a.ctl.frame, b.ctl.frame, top) && a.ctl.node == b.ctl.node
    ensures a.ctl.branches.Keys == b.ctl.branches.Keys
    ensures forall l | l in a.ctl.branches :: Alike(hidden, a.ctl.branches[l].ctl, b.ctl.branches[l].ctl, false)
  {
  }

  lemma {:induction false} HeadTwins(hidden: set<string>, a: Results, b: Results, f: Frame, g: Frame,
                                     current: Option<string>, top: bool)
    requires SameBut(hidden, a, b) && SameFrame(f, g, top)
    ensures Mirrored(hidden, Quiet(a, Head(f, current)), Quiet(b, Head(g, current)), top)
  {
  }

  lemma {:induction false} BranchesAtRest(hidden: set<string>, x: map<string, Thread>, y: map<string, Thread>)
    requires x.Keys == y.Keys && forall l | l in x :: Alike(hidden, x[l].ctl, y[l].ctl, false)
    requires AllAtRest(y) && !AnyAborted(y)
    ensures forall l | l in y :: y[l].ctl.Done? && x[l].ctl == y[l].ctl
    ensures AllAtRest(x) && !AnyAborted(x) && JoinIds(x) == JoinIds(y)
  {
    forall l | l in y
      ensures y[l].ctl.Done? && x[l].ctl == y[l].ctl
    {
      assert !y[l].ctl.Raised?;
    }
  }

  lemma {:induction false} SameJoinOutput(codec: Codec, x: map<string, Thread>, y: map<string, Thread>)
    requires x.Keys == y.Keys && forall l | l in y :: y[l].ctl.Done? && x[l].ctl == y[l].ctl && y[l].ctl.last.Some?
    ensures JoinOutput(codec, x) == JoinOutput(codec, y)
  {
    assert (map l | l in x :: JObj(x[l].ctl.last.value)) == (map l | l in y :: JObj(y[l].ctl.last.value));
  }

  // ---------------------------------------------------------------- the whole tree

  lemma {:induction false} AlikeMoves(w: World, ex: Exec, hidden: set<string>, a: Thread, b: Thread, va: View, vb: View,
                                      p: seq<string>, top: bool)
    requires IdsMatch(w)
    requires Twins(hidden, a, b, top) && FindsAt(hidden, a, p) && SameSight(va, vb)
    requires top ==> FreshAtTop(a.ctl) && FreshAtTop(b.ctl)
    requires Act(w, ex, b, vb, p).Some? && Sound(Act(w, ex, b, vb, p).value.thread.ctl)
    ensures Act(w, ex, a, va, p).Some?
    ensures Mirrored(hidden, Act(w, ex, a, va, p).value, Act(w, ex, b, vb, p).value, top)
    decreases a.ctl
  {
    hide AtHead, AtClaim, AtExecute, NextItem, Join, SameSight, SameBut;
    match a.ctl
    case Head(f, current) => HeadMirrored(w, hidden, a, b, va, vb, top);
    case Claiming(f, n) => ClaimMirrored(w, hidden, a, b, va, vb, top);
    case Executing(f, n) => ExecuteMirrored(w, ex, hidden, a, b, top);
    case Fanout(f, n, output, items, body) =>
      assert Alike(hidden, body, b.ctl.body, false);
      if Finished(body) {
        NextItemMirrored(w, hidden, a, b, va, vb, top);
      } else {
        AlikeMoves(w, ex, hidden, Thread(a.results, body), Thread(b.results, b.ctl.body), va, vb, p, false);
      }
    case Fork(f, n, branches) => AlikeMovesInFork(w, ex, hidden, a, b, va, vb, p, top);
    case Done(_, _) =>
  }

  /** Twin forks stay twins when one branch of each moves alike. */
  lemma {:induction false} BranchMirrored(hidden: set<string>, a: Thread, b: Thread, l: string, ma: Move, mb: Move,
                                          top: bool)
    requires a.ctl.Fork? && Twins(hidden, a, b, top) && l in a.ctl.branches && Mirrored(hidden, ma, mb, false)
    ensures b.ctl.Fork?
    ensures Mirrored(hidden, InFork(a.results, a.ctl.frame, a.ctl.node, a.ctl.branches, l, ma),
                     InFork(b.results, b.ctl.frame, b.ctl.node, b.ctl.branches, l, mb), top)
  {
    hide SameBut;
    var x, y := a.ctl.branches[l := ma.thread], b.ctl.branches[l := mb.thread];
    assert x.Keys == y.Keys;
    forall k | k in x
      ensures SameBut(hidden, x[k].results, y[k].results) && Alike(hidden, x[k].ctl, y[k].ctl, false)
    {
      if k != l { assert k in a.ctl.branches; }
    }
  }

  /** A move inside a branch, from the fork it belongs to. */
  lemma {:induction false} FromTheFork(w: World, ex: Exec, t: Thread, v: View, p: seq<string>)
    requires t.ctl.Fork? && p != [] && p[0] in t.ctl.branches && !t.ctl.branches[p[0]].ctl.Raised?
    requires Act(w, ex, t.ctl.branches[p[0]], v, p[1..]).Some?
    ensures Act(w, ex, t, v, p) == Some(InFork(t.results, t.ctl.frame, t.ctl.node, t.ctl.branches, p[0],
                                               Act(w, ex, t.ctl.branches[p[0]], v, p[1..]).value))
  {
    hide AtHead, AtClaim, AtExecute, NextItem, Join;
  }

  lemma {:induction false} BranchTwins(hidden: set<string>, a: Thread, b: Thread, l: string, top: bool)
    requires a.ctl.Fork? && Twins(hidden, a, b, top) && b.ctl.Fork? && l in b.ctl.branches
    ensures l in a.ctl.branches && Twins(hidden, a.ctl.branches[l], b.ctl.branches[l], false)
    ensures !a.ctl.branches[l].ctl.Raised?
  {
    hide SameBut;
  }

  lemma {:induction false} AlikeMovesInFork(w: World, ex: Exec, hidden: set<string>, a: Thread, b: Thread, va: View,
                                            vb: View, p: seq<string>, top: bool)
    requires IdsMatch(w)
    requires a.ctl.Fork? && Twins(hidden, a, b, top) && FindsAt(hidden, a, p) && SameSight(va, vb)
    requires Act(w, ex, b, vb, p).Some? && Sound(Act(w, ex, b, vb, p).value.thread.ctl)
    ensures Act(w, ex, a, va, p).Some?
    ensures Mirrored(hidden, Act(w, ex, a, va, p).value, Act(w, ex, b, vb, p).value, top)
    decreases a.ctl, 0
  {
    assert b.ctl.Fork?;
    if p == [] {
      hide AtHead, AtClaim, AtExecute, NextItem, Join, SameSight, SameBut, Alike;
      JoinMirrored(w, hidden, a, b, top);
    } else {
      SoundBefore(w, ex, b, vb, p);
      InBranch(w, ex, b, vb, p);
      BranchTwins(hidden, a, b, p[0], top);
      var x, y := a.ctl.branches[p[0]], b.ctl.branches[p[0]];
      var m := Act(w, ex, y, vb, p[1..]).value;
      assert b.ctl.branches[p[0] := m.thread][p[0]] == m.thread;
      hide Act, Alike, SameSight, SameBut, Finds;
      AlikeMoves(w, ex, hidden, x, y, va, vb, p[1..], false);
      FromTheFork(w, ex, a, va, p);
      BranchMirrored(hidden, a, b, p[0], Act(w, ex, x, va, p[1..]).value, m, top);
    }
  }
}
