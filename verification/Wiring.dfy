/**
  Inlining preserves what inputs read. In nested calls an input reads a sibling, a declared output of a sibling
  call, or, through a parameter, whatever the caller wired; on a flat graph that passes the compiler's check of
  references, every node's inputs name exactly those nodes and ports.
*/
module Wiring {
  import opened Base
  import opened Ir
  import opened IterationKeys
  import opened Blocks
  import opened Inlining

  // ---------------------------------------------------------------- what an input reads

  /** Something fixed where it was written, a port of the node at a place, or nothing. */
  datatype Source = Fixed(input: InputSpec) | From(place: Place, port: string, path: string) | Dangling

  /** The inner port behind a declared output; the last declaration that has one counts. */
  function SourceOf(params: seq<OutputParam>, name: string): Option<(string, string)> {
    if params == [] then None
    else
      var param := params[|params| - 1];
      if param.name == name && param.source.Some? then param.source else SourceOf(params[..|params| - 1], name)
  }

  /** A source inside a call, seen from the caller. */
  function InCall(id: string, s: Source): Source {
    match s
    case From(place, port, path) => From([id] + place, port, path)
    case _ => s
  }

  /** What an input written among the items of `b` reads. */
  function Denotes(b: Block, input: InputSpec): Source
    decreases b
  {
    if !input.Ref? then Fixed(input)
    else
      var i := IndexOf(b, input.nodeId);
      if i == |b.items| then Dangling
      else
        match b.items[i]
        case Plain(n) => From([n.id], input.port, input.path)
        case Call(n, params, body) =>
          match SourceOf(params, input.port)
          case None => Dangling
          case Some((y, q)) => InCall(n.id, Denotes(body, Ref(y, q, input.path)))
  }

  /** What a port of the node at `place` reads: a parameter is what the caller wired, in the caller's scope. */
  function Reads(b: Block, place: Place, port: string): Source
    requires ValidPlace(b, place)
    decreases b
  {
    match b.items[IndexOf(b, place[0])]
    case Plain(n) => if port in n.inputs then Denotes(b, n.inputs[port]) else Dangling
    case Call(n, _, body) =>
      match Reads(body, place[1..], port)
      case Fixed(ParamTemplate(name, _)) => if name in n.inputs then Denotes(b, n.inputs[name]) else Dangling
      case s => InCall(n.id, s)
  }

  predicate RawInputs(n: NodeSpec) {
    forall port | port in n.inputs :: n.inputs[port].Ref? ==> ColonFree(n.inputs[port].nodeId)
  }

  /** References as users write them contain no colon, and no node is called `vars`. */
  predicate RawWiring(b: Block)
    decreases b
  {
    forall i | 0 <= i < |b.items| ::
      && b.items[i].node.id != VARS_NODE_ID && RawInputs(b.items[i].node)
      && (b.items[i].Call? ==>
           && RawWiring(b.items[i].body)
           && forall p | p in b.items[i].outputs :: p.source.Some? ==> ColonFree(p.source.value.0))
  }

  /** The flat input says what the source says, and the place it comes from is one of the nested flow. */
  ghost predicate Means(b: Block, input: InputSpec, s: Source) {
    match s
    case Fixed(i) => input == i && !i.Ref?
    case From(place, port, path) => ValidPlace(b, place) && input == Ref(Name(place), port, path)
    case Dangling => false
  }

  /** The check the compiler makes of a reference. */
  ghost predicate RefExists(nodes: seq<NodeSpec>, input: InputSpec) {
    input.Ref? ==> Has(nodes, input.nodeId)
  }

  // ---------------------------------------------------------------- the collected outputs

  function Renamed(id: string, source: Option<(string, string)>): Option<(string, string)> {
    if source.None? then None else Some((Namespaced(id, source.value.0), source.value.1))
  }

  lemma {:induction false} AddedOutput(outputs: map<(string, string), (string, string)>, id: string,
                                       params: seq<OutputParam>, x: string, q: string)
    ensures Lookup(AddOutputs(outputs, id, params), (x, q)) ==
              if x == id && SourceOf(params, q).Some? then Renamed(id, SourceOf(params, q)) else Lookup(outputs, (x, q))
  {
    if params != [] {
      AddedOutput(outputs, id, params[..|params| - 1], x, q);
    }
  }

  /** A call's outputs are collected under its own id. */
  lemma {:induction false} OutputOfCall(b: Block, k: nat, j: nat, q: string)
    requires k <= |b.items| && Collected(b, k).Ok? && DistinctIds(b) && j < |b.items| && b.items[j].Call?
    ensures Lookup(Collected(b, k).value.outputs, (b.items[j].node.id, q)) ==
              if j < k then Renamed(b.items[j].node.id, SourceOf(b.items[j].outputs, q)) else None
    decreases k
  {
    hide Flatten, InlineAll, DistinctIds;
    if k > 0 {
      OutputOfCall(b, k - 1, j, q);
      ItemIsDistinct(b, j, k - 1);
      if b.items[k - 1].Call? {
        AddedOutput(Collected(b, k - 1).value.outputs, b.items[k - 1].node.id, b.items[k - 1].outputs,
                    b.items[j].node.id, q);
      }
    }
  }

  lemma {:induction false} NoOutputOfPlain(b: Block, k: nat, j: nat, q: string)
    requires k <= |b.items| && Collected(b, k).Ok? && DistinctIds(b) && j < |b.items| && b.items[j].Plain?
    ensures (b.items[j].node.id, q) !in Collected(b, k).value.outputs
    decreases k
  {
    hide Flatten, InlineAll, DistinctIds;
    if k > 0 {
      NoOutputOfPlain(b, k - 1, j, q);
      ItemIsDistinct(b, j, k - 1);
      if b.items[k - 1].Call? {
        AddedOutput(Collected(b, k - 1).value.outputs, b.items[k - 1].node.id, b.items[k - 1].outputs,
                    b.items[j].node.id, q);
      }
    }
  }

  // ---------------------------------------------------------------- one reference

  lemma {:induction false} WiringIsRaw(b: Block, j: nat)
    requires RawWiring(b) && j < |b.items|
    ensures b.items[j].node.id != VARS_NODE_ID && RawInputs(b.items[j].node)
    ensures b.items[j].Call? ==> RawWiring(b.items[j].body)
  {
  }

  lemma {:induction false} SourceIsRaw(b: Block, j: nat, q: string)
    requires RawWiring(b) && j < |b.items| && b.items[j].Call? && SourceOf(b.items[j].outputs, q).Some?
    ensures ColonFree(SourceOf(b.items[j].outputs, q).value.0)
  {
    hide RawWiring, ColonFree;
    SourceIsDeclared(b.items[j].outputs, q);
    assert forall p | p in b.items[j].outputs :: p.source.Some? ==> ColonFree(p.source.value.0)
    by { OutputsAreRaw(b, j); }
  }

  lemma {:induction false} OutputsAreRaw(b: Block, j: nat)
    requires RawWiring(b) && j < |b.items| && b.items[j].Call?
    ensures forall p | p in b.items[j].outputs :: p.source.Some? ==> ColonFree(p.source.value.0)
  {
  }

  lemma {:induction false} SourceIsDeclared(params: seq<OutputParam>, q: string)
    requires SourceOf(params, q).Some?
    ensures exists p :: p in params && p.source == SourceOf(params, q)
  {
    var param := params[|params| - 1];
    if !(param.name == q && param.source.Some?) {
      SourceIsDeclared(params[..|params| - 1], q);
    } else {
      assert param in params;
    }
  }

  /** A reference that exists in the flat graph as it was written reads a plain sibling. */
  lemma {:induction false} SiblingRef(b: Block, input: InputSpec)
    requires WellFormed(b) && input.Ref? && ColonFree(input.nodeId) && Has(FlatNodes(b), input.nodeId)
    ensures Means(b, input, Denotes(b, input))
  {
    hide Flatten, RawIds, DistinctIds, Collected;
    RawTarget(b, input.nodeId);
    var i := IndexOf(b, input.nodeId);
    assert ValidPlace(b, [b.items[i].node.id]);
  }

  /** What is read inside a call, read from the caller. */
  lemma {:induction false} FromInside(b: Block, i: nat, input: InputSpec, s: Source)
    requires WellFormed(b) && i < |b.items| && b.items[i].Call? && input.Ref? && Means(b.items[i].body, input, s)
    ensures Means(b, Ref(Namespaced(b.items[i].node.id, input.nodeId), input.port, input.path),
                  InCall(b.items[i].node.id, s))
  {
    hide Flatten, RawIds, Collected, Name;
    var Call(n, _, body) := b.items[i];
    if s.From? {
      PlaceIsNonEmpty(body, s.place);
      ItemIsDistinct(b, i, IndexOf(b, n.id));
      assert ([n.id] + s.place)[1..] == s.place;
      NameOfInner(n.id, s.place);
    }
  }

  /** A declared output, once redirected, reads the inner node behind it. */
  lemma {:induction false} OutputRef(b: Block, i: nat, q: string, path: string)
    requires WellFormed(b) && RawWiring(b) && i < |b.items| && b.items[i].Call?
    requires SourceOf(b.items[i].outputs, q).Some?
    requires var (y, s) := SourceOf(b.items[i].outputs, q).value; Has(FlatNodes(b), Namespaced(b.items[i].node.id, y))
    ensures var (y, s) := SourceOf(b.items[i].outputs, q).value;
            Means(b, Ref(Namespaced(b.items[i].node.id, y), s, path), Denotes(b, Ref(b.items[i].node.id, q, path)))
  {
    hide Flatten, RawIds, DistinctIds, Collected, RawWiring;
    var Call(n, params, body) := b.items[i];
    var (y, s) := SourceOf(params, q).value;
    InnerTarget(b, i, y);
    SourceIsRaw(b, i, q);
    CallIsFlattened(b, i);
    SiblingRef(body, Ref(y, s, path));
    ItemIsDistinct(b, i, IndexOf(b, n.id));
    FromInside(b, i, Ref(y, s, path), Denotes(body, Ref(y, s, path)));
  }

  lemma {:induction false} PlainInput(b: Block, i: nat, port: string)
    requires WellFormed(b) && RawWiring(b) && i < |b.items| && b.items[i].Plain? && port in b.items[i].node.inputs
    requires RefExists(FlatNodes(b), RedirectInput(b.items[i].node.inputs[port], AllParts(b).outputs))
    ensures Means(b, RedirectInput(b.items[i].node.inputs[port], AllParts(b).outputs),
                  Denotes(b, b.items[i].node.inputs[port]))
  {
    hide Flatten, RawIds, DistinctIds, Collected, RawWiring, Means, SourceOf;
    var input, outputs := b.items[i].node.inputs[port], AllParts(b).outputs;
    WiringIsRaw(b, i);
    FlatShape(b);
    if !input.Ref? {
      FixedMeans(b, input);
    } else if (input.nodeId, input.port) !in outputs {
      SiblingRef(b, input);
    } else {
      var j := IndexOf(b, input.nodeId);
      OutputsOnlyOfItems(b, |b.items|, input.nodeId, input.port);
      if b.items[j].Plain? {
        NoOutputOfPlain(b, |b.items|, j, input.port);
      } else {
        OutputOfCall(b, |b.items|, j, input.port);
        OutputRef(b, j, input.port, input.path);
      }
    }
  }

  lemma {:induction false} FixedMeans(b: Block, input: InputSpec)
    requires !input.Ref?
    ensures Means(b, input, Denotes(b, input))
  {
  }

  lemma {:induction false} OutputsOnlyOfItems(b: Block, k: nat, x: string, q: string)
    requires k <= |b.items| && Collected(b, k).Ok? && (x, q) in Collected(b, k).value.outputs
    ensures IndexOf(b, x) < |b.items|
    decreases k
  {
    hide Flatten, InlineAll;
    if k > 0 {
      if b.items[k - 1].Call? {
        AddedOutput(Collected(b, k - 1).value.outputs, b.items[k - 1].node.id, b.items[k - 1].outputs, x, q);
        if (x, q) in Collected(b, k - 1).value.outputs { OutputsOnlyOfItems(b, k - 1, x, q); }
      } else {
        OutputsOnlyOfItems(b, k - 1, x, q);
      }
    }
  }

  // ---------------------------------------------------------------- every node

  /** An input of a template's node, read one level further out. */
  lemma {:induction false} InlinedInput(b: Block, i: nat, x: NodeSpec, port: string, s: Source)
    requires WellFormed(b) && RawWiring(b) && i < |b.items| && b.items[i].Call? && InlinedCall(b, i)
    requires ParamsWired(x, b.items[i].node) && port in x.inputs
    requires RefExists(FlatNodes(b), Inline(x, b.items[i].node).inputs[port])
    requires RefExists(Inner(b, i).nodes, x.inputs[port]) ==> Means(b.items[i].body, x.inputs[port], s)
    ensures Means(b, Inline(x, b.items[i].node).inputs[port],
                  match s
                  case Fixed(ParamTemplate(name, _)) =>
                    if name in b.items[i].node.inputs then Denotes(b, b.items[i].node.inputs[name]) else Dangling
                  case _ => InCall(b.items[i].node.id, s))
  {
    hide Flatten, RawIds, DistinctIds, Collected, RawWiring, Denotes;
    var Call(n, _, body) := b.items[i];
    var input := x.inputs[port];
    WiringIsRaw(b, i);
    if input.Ref? {
      if input.nodeId == VARS_NODE_ID {
        NoVarsNode(b);
      } else {
        InnerTarget(b, i, input.nodeId);
        assert Means(body, input, s);
        FromInside(b, i, input, s);
      }
    } else {
      assert s == Fixed(input);
      if input.ParamTemplate? {
        var wired := n.inputs[input.name];
        if wired.Ref? { SiblingRef(b, wired); } else { FixedMeans(b, wired); }
      }
    }
  }

  lemma {:induction false} NoVarsNode(b: Block)
    requires WellFormed(b) && RawWiring(b)
    ensures !Has(FlatNodes(b), VARS_NODE_ID)
  {
    hide Flatten, RawIds, DistinctIds, Collected, RawWiring;
    if Has(FlatNodes(b), VARS_NODE_ID) {
      RawTarget(b, VARS_NODE_ID);
      WiringIsRaw(b, IndexOf(b, VARS_NODE_ID));
    }
  }

  /**
    Inlining preserves what inputs read: the flat node of any place has the ports of the nested node, and each of
    its inputs that passes the compiler's check names exactly what the nested input reads.
  */
  lemma {:induction false} InliningPreservesWiring(b: Block, place: Place, port: string) returns (n: NodeSpec)
    requires WellFormed(b) && RawWiring(b) && ValidPlace(b, place)
    ensures n in FlatNodes(b) && n.id == Name(place)
    ensures port in n.inputs && RefExists(FlatNodes(b), n.inputs[port]) ==>
            Means(b, n.inputs[port], Reads(b, place, port))
    ensures port !in n.inputs ==> Reads(b, place, port).Dangling?
    decreases b
  {
    hide Flatten, RawIds, DistinctIds, Collected, RawWiring, Means, RefExists, Denotes;
    var i := IndexOf(b, place[0]);
    match b.items[i]
    case Plain(m) =>
      PlainIsThere(b, i);
      n := RedirectNode(m, AllParts(b));
      if port in n.inputs && RefExists(FlatNodes(b), n.inputs[port]) { PlainInput(b, i, port); }
    case Call(caller, _, body) =>
      CallIsFlattened(b, i);
      WiringIsRaw(b, i);
      var x := InliningPreservesWiring(body, place[1..], port);
      InlinedIsThere(b, i, x);
      n := Inline(x, caller);
      PlaceIsNonEmpty(body, place[1..]);
      NameOfInner(caller.id, place[1..]);
      assert place == [caller.id] + place[1..];
      if port in n.inputs && RefExists(FlatNodes(b), n.inputs[port]) {
        InlinedInput(b, i, x, port, Reads(body, place[1..], port));
      }
  }

  /** Outputs are redirected for plain siblings only: a call that wires a parameter to another call's output gives
      the template's node a reference to the call itself, and the reference check rejects the graph. */
  lemma {:induction false} CallOutputAsParamIsRejected(b: Block, i: nat, x: NodeSpec, port: string)
    requires WellFormed(b) && RawWiring(b) && i < |b.items| && b.items[i].Call? && InlinedCall(b, i)
    requires x in Inner(b, i).nodes && port in x.inputs && x.inputs[port].ParamTemplate?
    requires var name := x.inputs[port].name;
      && name in b.items[i].node.inputs && b.items[i].node.inputs[name].Ref?
      && var j := IndexOf(b, b.items[i].node.inputs[name].nodeId); j < |b.items| && b.items[j].Call?
    ensures ParamsWired(x, b.items[i].node) && Inline(x, b.items[i].node) in FlatNodes(b)
    ensures !RefExists(FlatNodes(b), Inline(x, b.items[i].node).inputs[port])
  {
    hide Flatten, RawIds, DistinctIds, Collected, RawWiring;
    InlinedIsThere(b, i, x);
    WiringIsRaw(b, i);
    var target := b.items[i].node.inputs[x.inputs[port].name].nodeId;
    if Has(FlatNodes(b), target) { RawTarget(b, target); }
  }
}
