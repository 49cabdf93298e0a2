/**
  The compiler's cycle check: a depth-first search with three colours. It succeeds exactly on graphs without a
  cycle, and a success leaves a height for every node that all its edges go down from.
*/
module CycleCheck {
  import opened Ir

  /** The links that count as control flow: edges and the error edge, without self-loops and `vars`. */
  function Targets(n: IRNode): set<string> {
    (n.edges.Values + if n.onError.Some? && n.onError.value != "" then {n.onError.value} else {}) - {VARS_NODE_ID, n.id}
  }

  type Graph = map<string, set<string>>

  function Links(g: Graph, id: string): set<string> {
    if id in g then g[id] else {}
  }

  ghost predicate Loopless(g: Graph) {
    forall id | id in g :: id !in g[id]
  }

  /** Two or more nodes, each linked to the next, the last one the first again. */
  ghost predicate IsCycle(g: Graph, path: seq<string>) {
    |path| >= 2 && path[0] == path[|path| - 1] && Follows(g, path)
  }

  ghost predicate Follows(g: Graph, path: seq<string>) {
    forall i | 0 <= i < |path| - 1 :: path[i + 1] in Links(g, path[i])
  }

  ghost predicate HasCycle(g: Graph) {
    exists path: seq<string> :: IsCycle(g, path)
  }

  /** `height` covers `ids`, and links go strictly down. */
  ghost predicate GoesDown(g: Graph, height: map<string, int>, ids: set<string>) {
    ids <= height.Keys && forall id, t | id in ids && t in Links(g, id) :: t in ids && height[t] < height[id]
  }

  lemma {:induction false} HeightsFall(g: Graph, height: map<string, int>, ids: set<string>, path: seq<string>)
    requires GoesDown(g, height, ids) && |path| >= 2 && Follows(g, path) && path[0] in ids
    ensures path[|path| - 1] in ids && height[path[|path| - 1]] < height[path[0]]
  {
    assert path[1] in Links(g, path[0]);
    if |path| > 2 {
      var tail := path[1..];
      forall i | 0 <= i < |tail| - 1
        ensures tail[i + 1] in Links(g, tail[i])
      {
        assert path[(i + 1) + 1] in Links(g, path[i + 1]);
      }
      HeightsFall(g, height, ids, tail);
    }
  }

  /** Heights leave no room for a cycle. */
  lemma {:induction false} NoCycleFromHeights(g: Graph, height: map<string, int>, ids: set<string>)
    requires GoesDown(g, height, ids) && g.Keys <= ids
    ensures !HasCycle(g)
  {
    forall path: seq<string> | IsCycle(g, path)
      ensures false
    {
      assert path[1] in Links(g, path[0]);
      HeightsFall(g, height, ids, path);
    }
  }

  ghost function Elements(s: seq<string>): set<string> {
    set x | x in s
  }

  ghost predicate HeightsBelow(height: map<string, int>, bound: int) {
    forall id | id in height :: height[id] < bound
  }

  lemma {:induction false} OneMoreHeight(g: Graph, done: set<string>, height: map<string, int>, bound: int, id: string)
    requires height.Keys == done && GoesDown(g, height, done) && HeightsBelow(height, bound)
    requires id !in done && Links(g, id) <= done
    ensures GoesDown(g, height[id := bound], done + {id}) && HeightsBelow(height[id := bound], bound + 1)
  {
    var height' := height[id := bound];
    forall x, t | x in done + {id} && t in Links(g, x)
      ensures t in done && height'[t] < height'[x]
    {
    }
  }

  /** The state of the search: `stack` is the path being visited, `done` is closed under links. */
  ghost predicate Coherent(g: Graph, universe: set<string>, visiting: set<string>, done: set<string>,
                           stack: seq<string>, height: map<string, int>, bound: int)
  {
    && visiting <= universe && done <= universe && visiting !! done
    && (forall id | id in universe :: Links(g, id) <= universe)
    && visiting == Elements(stack)
    && Follows(g, stack)
    && height.Keys == done && GoesDown(g, height, done)
    && HeightsBelow(height, bound)
  }

  lemma {:induction false} Push(g: Graph, universe: set<string>, visiting: set<string>, done: set<string>,
                                stack: seq<string>, height: map<string, int>, bound: int, id: string)
    requires Coherent(g, universe, visiting, done, stack, height, bound)
    requires id in universe && id !in visiting && id !in done
    requires stack != [] ==> id in Links(g, stack[|stack| - 1])
    ensures Coherent(g, universe, visiting + {id}, done, stack + [id], height, bound)
  {
    var stack' := stack + [id];
    forall i | 0 <= i < |stack'| - 1
      ensures stack'[i + 1] in Links(g, stack'[i])
    {
      if i < |stack| - 1 { assert stack[i + 1] in Links(g, stack[i]); }
    }
  }

  lemma {:induction false} Pop(g: Graph, universe: set<string>, visiting: set<string>, done: set<string>,
                               stack: seq<string>, height: map<string, int>, bound: int, id: string)
    requires Coherent(g, universe, visiting + {id}, done, stack + [id], height, bound)
    requires id !in visiting && id !in done && Links(g, id) <= done && id !in Links(g, id)
    requires visiting == Elements(stack)
    ensures Coherent(g, universe, visiting, done + {id}, stack, height[id := bound], bound + 1)
  {
    var stack' := stack + [id];
    forall i | 0 <= i < |stack| - 1
      ensures stack[i + 1] in Links(g, stack[i])
    {
      assert stack'[i + 1] in Links(g, stack'[i]);
    }
    OneMoreHeight(g, done, height, bound, id);
    hide GoesDown;
  }

  lemma {:induction false} BackEdge(g: Graph, universe: set<string>, visiting: set<string>, done: set<string>,
                                    stack: seq<string>, height: map<string, int>, bound: int, id: string)
    requires Coherent(g, universe, visiting, done, stack, height, bound) && id in visiting
    requires id in Links(g, stack[|stack| - 1])
    ensures HasCycle(g)
  {
    var i :| 0 <= i < |stack| && stack[i] == id;
    var path := stack[i..] + [id];
    forall j | 0 <= j < |path| - 1
      ensures path[j + 1] in Links(g, path[j])
    {
      if j < |path| - 2 { assert stack[i + j + 1] in Links(g, stack[i + j]); }
    }
    assert IsCycle(g, path);
  }

  lemma {:induction false} Shape(g: Graph, universe: set<string>, visiting: set<string>, done: set<string>,
                                 stack: seq<string>, height: map<string, int>, bound: int)
    requires Coherent(g, universe, visiting, done, stack, height, bound)
    ensures visiting <= universe && done <= universe && visiting !! done && visiting == Elements(stack)
    ensures stack == [] ==> visiting == {}
    ensures stack != [] ==> Links(g, stack[|stack| - 1]) <= universe
    ensures GoesDown(g, height, done) && height.Keys == done
  {
    if stack != [] { assert stack[|stack| - 1] in Elements(stack); }
  }

  /** The nodes the search has not entered. */
  ghost function White(universe: set<string>, visiting: set<string>, done: set<string>): set<string> {
    universe - (visiting + done)
  }

  lemma {:induction false} FewerWhite(universe: set<string>, visiting: set<string>, done: set<string>, id: string)
    requires id in universe && id !in visiting && id !in done
    ensures White(universe, visiting + {id}, done) < White(universe, visiting, done)
  {
    assert id in White(universe, visiting, done) && id !in White(universe, visiting + {id}, done);
  }

  lemma {:induction false} NoMoreWhite(universe: set<string>, visiting: set<string>, done: set<string>,
                                       done': set<string>)
    requires done <= done'
    ensures White(universe, visiting, done') <= White(universe, visiting, done)
  {
  }

  class Search {
    const graph: Graph
    var visiting: set<string>
    var done: set<string>
    /** The nodes being visited, outermost first. */
    ghost var stack: seq<string>
    ghost var height: map<string, int>
    ghost var bound: int
    ghost const universe: set<string>

    constructor (graph: Graph)
      requires Loopless(graph)
      ensures this.graph == graph && Valid() && stack == [] && done == {}
      ensures universe == graph.Keys + set id, t | id in graph && t in graph[id] :: t
    {
      this.graph := graph;
      visiting, done, stack, height, bound := {}, {}, [], map[], 0;
      universe := graph.Keys + set id, t | id in graph && t in graph[id] :: t;
    }

    ghost predicate Valid()
      reads this
    {
      && Coherent(graph, universe, visiting, done, stack, height, bound)
      && Loopless(graph)
    }

    /** `visit`; false is the CompileError. */
    method Visit(id: string) returns (ok: bool)
      requires Valid() && id in universe
      requires stack != [] ==> id in Links(graph, stack[|stack| - 1])
      modifies this
      ensures ok ==> Valid() && visiting == old(visiting) && stack == old(stack) && old(done) <= done && id in done
      ensures !ok ==> HasCycle(graph)
      decreases White(universe, visiting, done), 0
    {
      assert id !in Links(graph, id);
      hide HasCycle, Coherent, Elements, Loopless, Links, GoesDown, White;
      Shape(graph, universe, visiting, done, stack, height, bound);
      if id in done {
        return true;
      }
      if id in visiting {
        BackEdge(graph, universe, visiting, done, stack, height, bound, id);
        return false;
      }
      Push(graph, universe, visiting, done, stack, height, bound, id);
      visiting, stack := visiting + {id}, stack + [id];
      FewerWhite(universe, old(visiting), done, id);
      ok := VisitAll(Links(graph, id));
      if !ok {
        return;
      }
      Shape(graph, universe, visiting, done, stack, height, bound);
      Finish(id, old(visiting), old(stack));
    }

    /** The loop over the targets of the node on top of the stack. */
    method VisitAll(targets: set<string>) returns (ok: bool)
      requires Valid() && stack != [] && targets <= Links(graph, stack[|stack| - 1])
      modifies this
      ensures ok ==> Valid() && visiting == old(visiting) && stack == old(stack) && old(done) <= done && targets <= done
      ensures !ok ==> HasCycle(graph)
      decreases White(universe, visiting, done), 1
    {
      Shape(graph, universe, visiting, done, stack, height, bound);
      hide HasCycle, Coherent, Elements, Loopless, Links, GoesDown, White;
      var todo := targets;
      while todo != {}
        invariant Valid() && todo <= targets
        invariant visiting == old(visiting) && stack == old(stack) && old(done) <= done
        invariant forall t | t in targets :: t in todo || t in done
        decreases |todo|
      {
        var target :| target in todo;
        NoMoreWhite(universe, visiting, old(done), done);
        ok := Visit(target);
        if !ok {
          return;
        }
        todo := todo - {target};
      }
      ok := true;
    }

    /** The node turns from grey to black. */
    method Finish(id: string, ghost outerVisiting: set<string>, ghost outer: seq<string>)
      requires Valid() && id !in outerVisiting && outerVisiting == Elements(outer)
      requires visiting == outerVisiting + {id} && stack == outer + [id]
      requires id !in done && Links(graph, id) <= done && id !in Links(graph, id)
      modifies this
      ensures Valid() && visiting == outerVisiting && stack == outer && done == old(done) + {id}
    {
      hide Coherent, Elements, Links, Loopless;
      Pop(graph, universe, outerVisiting, done, outer, height, bound, id);
      visiting, stack := visiting - {id}, outer;
      height, done, bound := height[id := bound], done + {id}, bound + 1;
    }

    /** `_assert_acyclic`: the search from every node. */
    method Acyclic(order: seq<string>) returns (ok: bool)
      requires Valid() && stack == [] && done == {} && graph.Keys <= universe
      requires forall id :: id in graph <==> id in order
      modifies this
      ensures ok <==> !HasCycle(graph)
      ensures ok ==> Valid() && graph.Keys <= done
    {
      hide HasCycle, Coherent;
      for k := 0 to |order|
        invariant Valid() && stack == [] && forall i | 0 <= i < k :: order[i] in done
      {
        var fine := Visit(order[k]);
        if !fine {
          return false;
        }
      }
      forall id | id in graph
        ensures id in done
      {
        assert id in order;
      }
      Shape(graph, universe, visiting, done, stack, height, bound);
      NoCycleFromHeights(graph, height, done);
      ok := true;
    }

    /** The heights a completed search has given. */
    lemma Heights()
      requires Valid()
      ensures height.Keys == done && GoesDown(graph, height, done)
    {
      Shape(graph, universe, visiting, done, stack, height, bound);
    }
  }
}
