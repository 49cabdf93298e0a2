/**
  Template parameters. A flow expands exactly if every parameter that a template's nodes read is wired by the call,
  where a call inside a template may pass on a parameter of its own.
*/
module Parameters {
  import opened Base
  import opened Blocks
  import opened Inlining

  predicate IsParam(input: InputSpec, name: string) {
    input.ParamTemplate? && input.name == name
  }

  /** One of these inputs is the parameter `name`. */
  predicate Asks(inputs: map<string, InputSpec>, name: string) {
    exists port :: port in inputs && IsParam(inputs[port], name)
  }

  /** Some node of `b`, or of a call in it that passes the parameter on, reads the parameter `name` of `b`. */
  ghost predicate LeavesOpen(b: Block, name: string)
    decreases b
  {
    exists i :: 0 <= i < |b.items| &&
      match b.items[i]
      case Plain(n) => Asks(n.inputs, name)
      case Call(n, _, body) =>
        exists inner :: inner in n.inputs && IsParam(n.inputs[inner], name) && LeavesOpen(body, inner)
  }

  /** Every call wires all that its template leaves open. */
  ghost predicate AllWired(b: Block)
    decreases b, 0
  {
    forall i | 0 <= i < |b.items| && b.items[i].Call? :: CallIsWired(b.items[i].node, b.items[i].body)
  }

  ghost predicate CallIsWired(caller: NodeSpec, body: Block)
    decreases body, 1
  {
    AllWired(body) && forall name: string | LeavesOpen(body, name) :: name in caller.inputs
  }

  lemma {:induction false} WiredNode(x: NodeSpec, caller: NodeSpec)
    ensures ParamsWired(x, caller) <==> forall name: string | Asks(x.inputs, name) :: name in caller.inputs
  {
    if forall name: string | Asks(x.inputs, name) :: name in caller.inputs {
      forall port | port in x.inputs
        ensures RewriteInput(x.inputs[port], caller).Some?
      {
        if x.inputs[port].ParamTemplate? { assert Asks(x.inputs, x.inputs[port].name); }
      }
    }
  }

  /** What a spliced node asks for is what its call passes on. */
  lemma {:induction false} InlinedAsks(x: NodeSpec, caller: NodeSpec, name: string)
    requires ParamsWired(x, caller)
    ensures Asks(Inline(x, caller).inputs, name)
       <==> exists inner :: inner in caller.inputs && IsParam(caller.inputs[inner], name) && Asks(x.inputs, inner)
  {
    var n := Inline(x, caller);
    if Asks(n.inputs, name) {
      var port :| port in n.inputs && IsParam(n.inputs[port], name);
      assert Asks(x.inputs, x.inputs[port].name);
    }
    if inner :| inner in caller.inputs && IsParam(caller.inputs[inner], name) && Asks(x.inputs, inner) {
      var port :| port in x.inputs && IsParam(x.inputs[port], inner);
      assert IsParam(n.inputs[port], name);
    }
  }

  lemma {:induction false} RedirectedAsks(n: NodeSpec, parts: Parts, name: string)
    ensures Asks(RedirectNode(n, parts).inputs, name) <==> Asks(n.inputs, name)
  {
    var m := RedirectNode(n, parts);
    assert m.inputs.Keys == n.inputs.Keys;
    forall port | port in n.inputs
      ensures IsParam(m.inputs[port], name) <==> IsParam(n.inputs[port], name)
    {
    }
  }

  ghost predicate ItemOpen(item: Item, name: string) {
    match item
    case Plain(n) => Asks(n.inputs, name)
    case Call(n, _, body) => Passes(n, body, name)
  }

  /** The call hands on the parameter `name` to one that its template leaves open. */
  ghost predicate Passes(caller: NodeSpec, body: Block, name: string) {
    exists inner :: inner in caller.inputs && IsParam(caller.inputs[inner], name) && LeavesOpen(body, inner)
  }

  lemma {:induction false} OpenByItem(b: Block, name: string)
    ensures LeavesOpen(b, name) <==> exists i :: 0 <= i < |b.items| && ItemOpen(b.items[i], name)
  {
    hide Asks, IsParam;
    if LeavesOpen(b, name) {
      var i :| 0 <= i < |b.items| &&
        match b.items[i]
        case Plain(n) => Asks(n.inputs, name)
        case Call(n, _, body) =>
          exists inner :: inner in n.inputs && IsParam(n.inputs[inner], name) && LeavesOpen(body, inner);
      assert ItemOpen(b.items[i], name);
    }
  }

  lemma {:induction false} FlatIsOpen(b: Block, n: NodeSpec, name: string)
    requires Flatten(b).Ok? && n in FlatNodes(b) && Asks(n.inputs, name)
    ensures LeavesOpen(b, name)
    decreases b, 0
  {
    hide Flatten, Asks, Inline, RedirectNode, ParamsWired, LeavesOpen, IsParam;
    OpenByItem(b, name);
    var i := OriginOf(b, n);
    match b.items[i]
    case Plain(m) =>
      RedirectedAsks(m, AllParts(b), name);
      assert ItemOpen(b.items[i], name);
    case Call(caller, _, body) =>
      var x :| x in FlatNodes(body) && ParamsWired(x, caller) && n == Inline(x, caller);
      InlinedAsks(x, caller, name);
      var inner :| inner in caller.inputs && IsParam(caller.inputs[inner], name) && Asks(x.inputs, inner);
      FlatIsOpen(body, x, inner);
      assert ItemOpen(b.items[i], name);
  }

  lemma {:induction false} OpenIsFlat(b: Block, name: string) returns (n: NodeSpec)
    requires Flatten(b).Ok? && LeavesOpen(b, name)
    ensures n in FlatNodes(b) && Asks(n.inputs, name)
    decreases b, 0
  {
    hide Flatten, Asks, Inline, RedirectNode, ParamsWired, LeavesOpen, IsParam, Collected;
    FlatShape(b);
    PlainOfItems(b, |b.items|);
    CallsOfItems(b, |b.items|);
    OpenByItem(b, name);
    var parts := AllParts(b);
    var i :| 0 <= i < |b.items| && ItemOpen(b.items[i], name);
    match b.items[i]
    case Plain(m) =>
      var j :| 0 <= j < |parts.plain| && parts.plain[j] == m;
      n := RedirectNode(m, parts);
      RedirectedAsks(m, parts, name);
      assert FlatNodes(b)[j] == n;
    case Call(caller, _, body) =>
      var inner :| inner in caller.inputs && IsParam(caller.inputs[inner], name) && LeavesOpen(body, inner);
      assert InlinedCall(b, i);
      var x := OpenIsFlat(body, inner);
      assert x in Inner(b, i).nodes;
      n := Inline(x, caller);
      InlinedAsks(x, caller, name);
      assert n in parts.inlined;
  }

  // ---------------------------------------------------------------- exactly what expands

  lemma {:induction false} CallExpands(caller: NodeSpec, body: Block)
    requires Flatten(body).Ok?
    ensures InlineAll(FlatNodes(body), caller).Ok?
       <==> forall name: string | LeavesOpen(body, name) :: name in caller.inputs
  {
    hide Flatten, Asks, Inline, ParamsWired, LeavesOpen;
    var nodes := FlatNodes(body);
    forall i | 0 <= i < |nodes|
      ensures ParamsWired(nodes[i], caller)
         <==> forall name: string | Asks(nodes[i].inputs, name) :: name in caller.inputs
    {
      WiredNode(nodes[i], caller);
    }
    if InlineAll(nodes, caller).Ok? {
      forall name: string | LeavesOpen(body, name)
        ensures name in caller.inputs
      {
        var n := OpenIsFlat(body, name);
      }
    } else {
      var i :| 0 <= i < |nodes| && !ParamsWired(nodes[i], caller);
      var name: string :| Asks(nodes[i].inputs, name) && name !in caller.inputs;
      FlatIsOpen(body, nodes[i], name);
    }
  }

  lemma {:induction false} ItemsExpand(b: Block, k: nat)
    requires k <= |b.items|
    ensures Collected(b, k).Ok?
       <==> forall i | 0 <= i < k && b.items[i].Call? :: CallIsWired(b.items[i].node, b.items[i].body)
    decreases b, 0, k
  {
    hide Flatten, LeavesOpen, InlineAll, CallIsWired, AddOutputs;
    if k > 0 {
      ItemsExpand(b, k - 1);
      if b.items[k - 1].Call? { CallIsExact(b.items[k - 1].node, b.items[k - 1].body); }
    }
  }

  lemma {:induction false} CallIsExact(caller: NodeSpec, body: Block)
    ensures CallIsWired(caller, body) <==> Flatten(body).Ok? && InlineAll(FlatNodes(body), caller).Ok?
    decreases body, 2
  {
    hide Flatten, LeavesOpen, InlineAll, AllWired;
    ExpandsExactly(body);
    if Flatten(body).Ok? { CallExpands(caller, body); }
  }

  /** A flow with nested calls expands exactly if every call wires what its template leaves open. */
  lemma {:induction false} ExpandsExactly(b: Block)
    ensures Flatten(b).Ok? <==> AllWired(b)
    decreases b, 1
  {
    ItemsExpand(b, |b.items|);
    hide Collected, CallIsWired, Assemble;
  }
}
