/**
  What a node is given. Each wired port is a value fixed in the graph, an environment variable, a flow variable or
  what another node has produced; a path leads on into the JSON text it holds. A step whose declared ports can all
  be read executes on exactly that, and its outcome is committed under the step's row.
*/
module Inputs {
  import opened Base
  import opened JsonValues
  import opened Ir
  import opened IterationKeys
  import opened Machine
  import opened Mirror
  import opened Moves
  import Paths

  // ---------------------------------------------------------------- following a path

  /** `v` is what `segment` finds in `j`: a member of an object, or an element counted from either end. */
  predicate Inside(j: Json, segment: Segment, v: Json) {
    match segment
    case Field(name) => j.JObj? && name in j.fields && j.fields[name] == v
    case Index(i) =>
      j.JArr? && ((0 <= i < |j.elements| && j.elements[i] == v)
                  || (-|j.elements| <= i < 0 && j.elements[|j.elements| + i] == v))
  }

  /** `vals` are the values met on the way from `j` along `path`. */
  predicate Along(j: Json, path: seq<Segment>, vals: seq<Json>) {
    && |vals| == |path| + 1 && vals[0] == j
    && forall i | 0 <= i < |path| :: Inside(vals[i], path[i], vals[i + 1])
  }

  /** The same from a JSON text. */
  predicate AlongText(c: Codec, raw: Json, path: seq<Segment>, vals: seq<Json>) {
    raw.JStr? && c.loads(raw.s).Some? && Along(c.loads(raw.s).value, path, vals)
  }

  /** `r` is what a reader of `raw` gets at `path`: without a path `raw` itself; with one, the value that the path
      leads to in the text, an object or array as JSON text again; and nothing, if the path leads nowhere. */
  ghost predicate ReadAt(c: Codec, raw: Json, path: seq<Segment>, r: Resolution) {
    if path == [] then r == Value(raw)
    else if exists vals: seq<Json> :: AlongText(c, raw, path, vals) then
      exists vals: seq<Json> :: AlongText(c, raw, path, vals) &&
        var leaf := vals[|path|];
        r == Value(if leaf.JObj? || leaf.JArr? then JStr(c.dumps(leaf)) else leaf)
    else r == BadPath
  }

  /** `r` is what a node with these results gets for `input`. */
  ghost predicate Given(w: World, results: Results, input: Input, r: Resolution) {
    match input
    case Literal(v) => r == Value(v)
    case EnvRef(name) => r == (if w.env(name).Some? then Value(w.env(name).value) else Missing)
    case PortRef("vars", name, path) => if name in w.vars then ReadAt(w.codec, w.vars[name], path, r) else r == Missing
    case PortRef(id, port, path) =>
      if id !in results then r == Missing
      else ReadAt(w.codec, if port in results[id] then results[id][port] else JNull, path, r)
  }

  /** `wired` holds what each wired port of `n` is given, and nothing else. */
  ghost predicate GivenAll(w: World, results: Results, n: IRNode, wired: map<string, Resolution>) {
    wired.Keys == n.inputs.Keys && forall port | port in wired :: Given(w, results, n.inputs[port], wired[port])
  }

  lemma {:induction false} WalkIsAlong(j: Json, path: seq<Segment>, vals: seq<Json>)
    requires Along(j, path, vals)
    ensures Paths.Walk(j, path) == Some(vals[|path|])
    decreases |path|
  {
    if path != [] {
      var rest := vals[1..];
      assert Inside(vals[0], path[0], vals[0 + 1]);
      assert Paths.Enter(j, path[0]) == Some(vals[1]);
      forall i | 0 <= i < |path[1..]|
        ensures Inside(rest[i], path[1..][i], rest[i + 1])
      {
        assert Inside(vals[i + 1], path[i + 1], vals[(i + 1) + 1]);
      }
      WalkIsAlong(vals[1], path[1..], rest);
    }
  }

  lemma {:induction false} AlongWalk(j: Json, path: seq<Segment>) returns (vals: seq<Json>)
    requires Paths.Walk(j, path).Some?
    ensures Along(j, path, vals)
    decreases |path|
  {
    vals := [j];
    if path != [] {
      var next := Paths.Enter(j, path[0]).value;
      assert Inside(j, path[0], next);
      var rest := AlongWalk(next, path[1..]);
      vals := [j] + rest;
      forall i | 0 <= i < |path|
        ensures Inside(vals[i], path[i], vals[i + 1])
      {
        if i > 0 { assert Inside(rest[i - 1], path[1..][i - 1], rest[(i - 1) + 1]); }
      }
    }
  }

  /** Resolving a path finds what a reader is owed. */
  lemma {:induction false} ResolvesAsRead(c: Codec, raw: Json, path: seq<Segment>)
    ensures ReadAt(c, raw, path, match Paths.Resolve(c, raw, path) case None => BadPath case Some(v) => Value(v))
  {
    hide Along, Paths.Walk;
    if path != [] && raw.JStr? && c.loads(raw.s).Some? {
      var j := c.loads(raw.s).value;
      if Paths.Walk(j, path).Some? {
        var vals := AlongWalk(j, path);
        WalkIsAlong(j, path, vals);
        AlongLength(j, path, vals);
        assert AlongText(c, raw, path, vals);
      } else {
        forall vals: seq<Json> | AlongText(c, raw, path, vals)
          ensures false
        {
          WalkIsAlong(j, path, vals);
        }
      }
    }
  }

  lemma {:induction false} AlongLength(j: Json, path: seq<Segment>, vals: seq<Json>)
    requires Along(j, path, vals)
    ensures |vals| == |path| + 1
  {
  }

  lemma {:induction false} WiredAsGiven(w: World, results: Results, n: IRNode)
    ensures GivenAll(w, results, n, Wired(w, results, n))
  {
    hide Paths.Resolve, ReadAt;
    forall port | port in n.inputs
      ensures Given(w, results, n.inputs[port], ResolveInput(w, results, n.inputs[port]))
    {
      match n.inputs[port]
      case PortRef(id, q, path) =>
        if id == "vars" {
          if q in w.vars { ResolvesAsRead(w.codec, w.vars[q], path); }
        } else if id in results {
          ResolvesAsRead(w.codec, if q in results[id] then results[id][q] else JNull, path);
        }
      case _ =>
    }
  }

  // ---------------------------------------------------------------- executing

  /** `port` is the first declared port that is wired and cannot be read. */
  predicate FirstUnread(ports: seq<string>, wired: map<string, Resolution>, port: string) {
    exists i :: 0 <= i < |ports| && ports[i] == port && Unread(wired, port)
                && forall j | 0 <= j < i :: !Unread(wired, ports[j])
  }

  predicate Unread(wired: map<string, Resolution>, port: string) {
    port in wired && !wired[port].Value?
  }

  lemma {:induction false} FirstBadIsUnread(wired: map<string, Resolution>, ports: seq<string>) returns (port: string)
    ensures FirstBadPort(wired, ports).None? ==> forall i | 0 <= i < |ports| :: !Unread(wired, ports[i])
    ensures FirstBadPort(wired, ports).Some? ==>
              && FirstUnread(ports, wired, port) && Unread(wired, port)
              && FirstBadPort(wired, ports).value == wired[port]
              && exists i :: 0 <= i < |ports| && Unread(wired, ports[i])
  {
    port := "";
    if ports != [] {
      if Unread(wired, ports[0]) {
        port := ports[0];
        assert FirstUnread(ports, wired, port);
      } else {
        port := FirstBadIsUnread(wired, ports[1..]);
        if FirstBadPort(wired, ports[1..]).Some? {
          hide FirstBadPort;
          FirstOfMore(ports, wired, port);
        }
      }
    }
  }

  lemma {:induction false} FirstOfMore(ports: seq<string>, wired: map<string, Resolution>, port: string)
    requires ports != [] && !Unread(wired, ports[0]) && FirstUnread(ports[1..], wired, port)
    ensures FirstUnread(ports, wired, port) && exists i :: 0 <= i < |ports| && Unread(wired, ports[i])
  {
    hide Unread;
    var rest := ports[1..];
    var i :| 0 <= i < |rest| && rest[i] == port && Unread(wired, port)
             && forall j | 0 <= j < i :: !Unread(wired, rest[j]);
    assert ports[i + 1] == port;
    forall j | 0 <= j < i + 1
      ensures !Unread(wired, ports[j])
    {
      if j > 0 { assert ports[j] == rest[j - 1]; }
    }
  }

  function Declared(w: World, n: IRNode): seq<string> {
    if n.nodeType in w.registry then w.registry[n.nodeType] else []
  }

  /** A bad path ends the step by an exception of its own. */
  function Refusal(wired: map<string, Resolution>, port: string): NodeResult {
    if port in wired && wired[port].BadPath? then Escaping else Failing("input not available")
  }

  /** The outcome of a step whose wired ports are given `wired`: the first declared port that cannot be read ends it;
      otherwise it is what `execute` makes of them. */
  ghost predicate Outcome(w: World, ex: Exec, n: IRNode, wired: map<string, Resolution>, account: Option<AccountId>,
                          loop: nat, r: NodeResult) {
    var ports := Declared(w, n);
    if exists i :: 0 <= i < |ports| && Unread(wired, ports[i]) then
      exists port :: FirstUnread(ports, wired, port) && r == Refusal(wired, port)
    else r == ex(n, wired, account, loop)
  }

  /** What a step leaves: its output in the results and in its row, or an exception and no trace. */
  ghost predicate Leaves(x: Thread, y: Thread, sh: Shared, after: Shared, r: NodeResult)
    requires x.ctl.Executing?
  {
    var Executing(f, n) := x.ctl;
    match r
    case Produced(output) =>
      && y.results == x.results[n.id := output]
      && after.table == sh.table[(n.id, RowKey(f.key, Visits(f, n.id))) := Completed(output)]
      && after.budget == sh.budget && after.current == sh.current
    case Failing(cause) => y == Thread(x.results, Raised(Failed(n.id, cause))) && after == sh
    case Escaping => y == Thread(x.results, Raised(Other)) && after == sh
  }

  /** In every state of every run, at any depth: a node that executes is given what its inputs name in the results of
      its own chain, the account of the chain and the number of its earlier visits, and its outcome is committed. */
  lemma {:induction false} ExecutesOnWhatIsGiven(w: World, ex: Exec, c: Config, p: seq<string>)
    returns (wired: map<string, Resolution>, r: NodeResult, y: Thread)
    requires Step(w, ex, c, p).Some? && ThreadAt(c.thread, p).ctl.Executing?
    ensures var x, d := ThreadAt(c.thread, p), Step(w, ex, c, p).value;
      var Executing(f, n) := x.ctl;
      && d.thread == Put(c.thread, p, y)
      && GivenAll(w, x.results, n, wired)
      && Outcome(w, ex, n, wired, f.account, if Visits(f, n.id) > 0 then Visits(f, n.id) - 1 else 0, r)
      && Leaves(x, y, c.shared, d.shared, r)
  {
    hide ThreadAt, Put;
    y := MoveIsLocal(w, ex, c, p);
    hide Route, GivenAll, Outcome;
    var x := ThreadAt(c.thread, p);
    var Executing(f, n) := x.ctl;
    wired := Wired(w, x.results, n);
    r := Evaluate(w, ex, x.results, n, f.account, LoopCount(f, n));
    WiredAsGiven(w, x.results, n);
    EvaluatesSo(w, ex, x.results, n, f.account, LoopCount(f, n));
    hide Evaluate, Wired;
  }

  lemma {:induction false} EvaluatesSo(w: World, ex: Exec, results: Results, n: IRNode, account: Option<AccountId>,
                                       loop: nat)
    ensures Outcome(w, ex, n, Wired(w, results, n), account, loop, Evaluate(w, ex, results, n, account, loop))
  {
    hide Wired, FirstUnread, FirstBadPort;
    var wired, r, ports := Wired(w, results, n), Evaluate(w, ex, results, n, account, loop), Declared(w, n);
    var port := FirstBadIsUnread(wired, ports);
    if FirstBadPort(wired, ports).Some? {
      assert r == Refusal(wired, port);
    }
  }
}
