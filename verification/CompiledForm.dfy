/**
  What the compiled graph holds. For every place of the nested calls there is one compiled node; it has the type and
  account that the node was written with, its inputs carry what the nested inputs read, and its edges and its error
  edge lead where those of the nested walk lead.
*/
module CompiledForm {
  import opened Base
  import opened JsonValues
  import opened Ir
  import opened IterationKeys
  import opened Blocks
  import opened Inlining
  import opened Wiring
  import opened Compiler
  import Paths

  // ---------------------------------------------------------------- the nested flow

  /** The node at a place, as it was written. */
  function NodeAt(b: Block, place: Place): NodeSpec
    requires ValidPlace(b, place)
    decreases b
  {
    match b.items[IndexOf(b, place[0])]
    case Plain(n) => n
    case Call(_, _, body) => NodeAt(body, place[1..])
  }

  function GoTo(b: Block, id: string): Move {
    match Arrive(b, id)
    case None => Lost
    case Some(place) => Go(place)
  }

  /** Where the error edge at a place leads. An exit of a template without one has that of the call; `Exit` is an
      exit without any so far, `Halt` a node without one. */
  function ErrorNext(b: Block, place: Place): Move
    requires ValidPlace(b, place)
    decreases b
  {
    match b.items[IndexOf(b, place[0])]
    case Plain(n) =>
      if n.onError.Some? && n.onError.value != "" then GoTo(b, n.onError.value)
      else if n.edges == map[] then Exit else Halt
    case Call(n, _, body) =>
      match ErrorNext(body, place[1..])
      case Go(inner) => Go([n.id] + inner)
      case Exit =>
        if n.onError.Some? then GoTo(b, n.onError.value) else if n.edges == map[] then Exit else Halt
      case other => other
  }

  /** Targets of error edges as users write them contain no colon. */
  predicate RawErrors(b: Block)
    decreases b
  {
    forall i | 0 <= i < |b.items| ::
      && (b.items[i].node.onError.Some? ==> ColonFree(b.items[i].node.onError.value))
      && (b.items[i].Call? ==> RawErrors(b.items[i].body))
  }

  // ---------------------------------------------------------------- what flattening keeps

  /** The flat node `n` is the node `m` of a place: its type and account always, and at the top level also its
      timeout, stop condition and children; inside a call those three are gone. */
  predicate KeepsFields(n: NodeSpec, m: NodeSpec, top: bool) {
    && n.nodeType == m.nodeType && n.accountRef == m.accountRef
    && n.timeoutS == (if top then m.timeoutS else None)
    && n.stopCondition == (if top then m.stopCondition else None)
    && n.children == if top then m.children else None
  }

  ghost predicate ErrorMatches(nodes: seq<NodeSpec>, n: NodeSpec, move: Move) {
    match move
    case Exit => n.onError.None? && n.edges == map[]
    case Halt => n.onError.None? && n.edges != map[]
    case Go(place) => n.onError.Some? && (Has(nodes, n.onError.value) ==> n.onError.value == Name(place))
    case Lost => n.onError.Some? && !Has(nodes, n.onError.value)
  }

  lemma {:induction false} ErrorIsRaw(b: Block, i: nat)
    requires RawErrors(b) && i < |b.items|
    ensures b.items[i].node.onError.Some? ==> ColonFree(b.items[i].node.onError.value)
    ensures b.items[i].Call? ==> RawErrors(b.items[i].body)
  {
  }

  lemma {:induction false} PlainError(b: Block, i: nat)
    requires WellFormed(b) && RawErrors(b) && i < |b.items| && b.items[i].Plain?
    ensures var n := b.items[i].node;
      ErrorMatches(FlatNodes(b), RedirectNode(n, AllParts(b)),
                   if n.onError.Some? && n.onError.value != "" then GoTo(b, n.onError.value)
                   else if n.edges == map[] then Exit else Halt)
  {
    hide Flatten, RawIds, DistinctIds, Collected, Name, RawErrors;
    var n := b.items[i].node;
    ErrorIsRaw(b, i);
    if n.onError.Some? && n.onError.value != "" {
      ArrivalIsRedirect(b, n.onError.value);
    } else {
      RedirectKeepsLabels(n, AllParts(b));
    }
  }

  lemma {:induction false} RedirectKeepsLabels(n: NodeSpec, parts: Parts)
    ensures RedirectNode(n, parts).edges == map[] <==> n.edges == map[]
  {
    var e := RedirectNode(n, parts).edges;
    assert e.Keys == n.edges.Keys;
    if n.edges != map[] {
      var l :| l in n.edges;
      assert l in e;
    }
    if e != map[] {
      var l :| l in e;
      assert l in n.edges;
    }
  }

  lemma {:induction false} InlineKeepsLabels(x: NodeSpec, caller: NodeSpec)
    requires ParamsWired(x, caller)
    ensures Inline(x, caller).edges == map[] <==> x.edges == map[] && caller.edges == map[]
  {
    var e := Inline(x, caller).edges;
    if x.edges != map[] {
      var l :| l in x.edges;
      assert l in e;
    }
  }

  /** The error edge of a template's node, seen from the caller. */
  lemma {:induction false} CallError(b: Block, i: nat, x: NodeSpec, move: Move)
    requires WellFormed(b) && RawErrors(b) && i < |b.items| && b.items[i].Call? && InlinedCall(b, i)
    requires ParamsWired(x, b.items[i].node) && ErrorMatches(Inner(b, i).nodes, x, move)
    requires move.Go? ==> move.place != []
    ensures var n := b.items[i].node;
      ErrorMatches(FlatNodes(b), Inline(x, n),
                   match move
                   case Go(inner) => Go([n.id] + inner)
                   case Exit => if n.onError.Some? then GoTo(b, n.onError.value)
                                else if n.edges == map[] then Exit else Halt
                   case other => other)
  {
    hide Flatten, RawIds, DistinctIds, Collected, Name, RawErrors, ParamsWired;
    var n := b.items[i].node;
    ErrorIsRaw(b, i);
    InlineKeepsLabels(x, n);
    match move
    case Go(inner) =>
      NameOfInner(n.id, inner);
      if Has(FlatNodes(b), Namespaced(n.id, x.onError.value)) { InnerTarget(b, i, x.onError.value); }
    case Lost =>
      if Has(FlatNodes(b), Namespaced(n.id, x.onError.value)) { InnerTarget(b, i, x.onError.value); }
    case Exit => if n.onError.Some? { WrittenError(b, n.onError.value); }
    case Halt =>
  }

  /** An error target of a call is kept as it was written: it exists only as a plain node. */
  lemma {:induction false} WrittenError(b: Block, t: string)
    requires WellFormed(b) && ColonFree(t)
    ensures match GoTo(b, t)
            case Go(place) => Has(FlatNodes(b), t) ==> t == Name(place)
            case _ => !Has(FlatNodes(b), t)
  {
    hide Flatten, RawIds, DistinctIds, Collected;
    if Has(FlatNodes(b), t) {
      RawTarget(b, t);
      assert Arrive(b, t) == Some([t]);
    }
  }

  lemma {:induction false} ErrorStepIsValid(b: Block, place: Place)
    requires ValidPlace(b, place) && ErrorNext(b, place).Go?
    ensures ErrorNext(b, place).place != []
    decreases b
  {
    match b.items[IndexOf(b, place[0])]
    case Plain(n) => ArrivalIsValid(b, n.onError.value);
    case Call(n, _, body) =>
      if ErrorNext(body, place[1..]).Exit? { ArrivalIsValid(b, n.onError.value); }
  }

  /** Every place has its flat node with these fields and this error edge. */
  lemma {:induction false} FlatFields(b: Block, place: Place) returns (n: NodeSpec)
    requires WellFormed(b) && RawErrors(b) && ValidPlace(b, place)
    ensures n in FlatNodes(b) && n.id == Name(place)
    ensures KeepsFields(n, NodeAt(b, place), |place| == 1)
    ensures ErrorMatches(FlatNodes(b), n, ErrorNext(b, place))
    decreases b
  {
    hide Flatten, RawIds, DistinctIds, Collected, ErrorMatches, Inline, RedirectNode, ParamsWired, RawErrors;
    var i := IndexOf(b, place[0]);
    match b.items[i]
    case Plain(m) =>
      n := RedirectNode(m, AllParts(b));
      PlainIsThere(b, i);
      PlainError(b, i);
      RedirectKeepsFields(m, AllParts(b));
    case Call(caller, _, body) =>
      CallIsFlattened(b, i);
      ErrorIsRaw(b, i);
      var x := FlatFields(body, place[1..]);
      InlinedIsThere(b, i, x);
      n := Inline(x, caller);
      InlineNamesId(x, caller);
      InlineKeepsFields(x, caller);
      PlaceIsNonEmpty(body, place[1..]);
      NameOfInner(place[0], place[1..]);
      assert place == [place[0]] + place[1..];
      if ErrorNext(body, place[1..]).Go? { ErrorStepIsValid(body, place[1..]); }
      CallError(b, i, x, ErrorNext(body, place[1..]));
  }

  lemma {:induction false} RedirectKeepsFields(m: NodeSpec, parts: Parts)
    ensures KeepsFields(RedirectNode(m, parts), m, true) && RedirectNode(m, parts).id == m.id
  {
  }

  lemma {:induction false} InlineKeepsFields(x: NodeSpec, caller: NodeSpec)
    requires ParamsWired(x, caller)
    ensures Inline(x, caller).nodeType == x.nodeType && Inline(x, caller).accountRef == x.accountRef
    ensures KeepsFields(Inline(x, caller), x, false)
  {
  }

  // ---------------------------------------------------------------- what compiling makes of an input

  /** The compiled input carries what was written. */
  ghost predicate Carries(ab: Paths.Alphabet, spec: InputSpec, input: Input) {
    match spec
    case Literal(v) => input == Input.Literal(v)
    case ParamTemplate(_, text) => input == Input.Literal(JStr(text))
    case VarsTemplate(name) => input == PortRef("vars", name, [])
    case EnvName(name) => input == EnvRef(name)
    case Ref(id, port, path) => IsRef(ab, input, id, port, path)
    case MalformedRef(_) => false
  }

  /** A reference to that port of that node, at the segments that the text of the path spells. */
  ghost predicate IsRef(ab: Paths.Alphabet, input: Input, id: string, port: string, path: string) {
    && input.PortRef? && input.nodeId == id && input.port == port
    && exists texts: seq<string> :: Paths.Spells(ab, path, input.path, texts)
  }

  lemma {:induction false} CompiledCarries(spec: InputSpec, ids: set<string>, ab: Paths.Alphabet)
    requires Paths.Regular(ab) && CompileInput(spec, ids, ab).Some?
    ensures Carries(ab, spec, CompileInput(spec, ids, ab).value)
    ensures spec.Ref? ==> spec.nodeId in ids
  {
    if spec.Ref? { Paths.GrammarIsExact(ab, spec.path, Paths.Parse(ab, spec.path).value); }
  }

  ghost predicate CarriesAll(ab: Paths.Alphabet, specs: map<string, InputSpec>, inputs: map<string, Input>) {
    specs.Keys == inputs.Keys && forall port | port in specs :: Carries(ab, specs[port], inputs[port])
  }

  lemma {:induction false} PortsCarry(specs: map<string, InputSpec>, ids: set<string>, ab: Paths.Alphabet)
    requires Paths.Regular(ab) && PortsCompile(specs, ids, ab)
    ensures CarriesAll(ab, specs, CompiledPorts(specs, ids, ab))
  {
    hide Carries, Paths.Regular;
    forall port | port in specs
      ensures Carries(ab, specs[port], CompileInput(specs[port], ids, ab).value)
    {
      CompiledCarries(specs[port], ids, ab);
    }
  }

  /** A batch leaf is compiled under the name of its container, without edges of its own. */
  ghost predicate IsLeaf(ab: Paths.Alphabet, parent: string, spec: ChildSpec, ir: IRNode) {
    && ir.id == parent + "::" + spec.id && ir.nodeType == spec.nodeType && ir.accountRef == spec.accountRef
    && CarriesAll(ab, spec.inputs, ir.inputs)
    && ir.edges == map[] && ir.onError.None? && ir.timeoutS.None? && ir.stopCondition.None? && ir.children.NoChildren?
  }

  ghost predicate AreLeaves(ab: Paths.Alphabet, parent: string, specs: Option<seq<ChildSpec>>, children: Children) {
    if specs.None? then children.NoChildren?
    else
      && children.Batch? && |children.nodes| == |specs.value|
      && forall i | 0 <= i < |children.nodes| :: IsLeaf(ab, parent, specs.value[i], children.nodes[i])
  }

  /** `ir` is the compiled form of the flat node `n`. */
  ghost predicate IsCompiled(ab: Paths.Alphabet, n: NodeSpec, ir: IRNode) {
    && ir.id == n.id && ir.nodeType == n.nodeType && ir.accountRef == n.accountRef
    && ir.edges == n.edges && ir.onError == n.onError && ir.timeoutS == n.timeoutS
    && ir.stopCondition == n.stopCondition
    && CarriesAll(ab, n.inputs, ir.inputs) && AreLeaves(ab, n.id, n.children, ir.children)
  }

  lemma {:induction false} LeavesCompile(n: NodeSpec, ids: set<string>, ab: Paths.Alphabet)
    requires Paths.Regular(ab) && ChildPortsCompile(n, ids, ab)
    ensures AreLeaves(ab, n.id, n.children, CompiledChildren(n, ids, ab))
  {
    hide Paths.Regular, CarriesAll, CompiledPorts, PortsCompile;
    if n.children.Some? {
      var specs, nodes := n.children.value, CompiledChildren(n, ids, ab).nodes;
      forall i | 0 <= i < |specs|
        ensures IsLeaf(ab, n.id, specs[i], nodes[i])
      {
        PortsCarry(specs[i].inputs, ids, ab);
      }
    }
  }

  /** Every node of a compiled graph is the compiled form of its flat node, one for one. */
  lemma {:induction false} NodesAreCompiled(flat: Flat, setup: Setup, i: nat)
    requires Paths.Regular(setup.alphabet) && Compilable(flat, setup) && i < |flat.nodes|
    ensures var irs := CompiledNodes(flat.nodes, IdsOf(flat.nodes), setup.alphabet);
      |irs| == |flat.nodes| && IsCompiled(setup.alphabet, flat.nodes[i], irs[i])
  {
    var ids, n := IdsOf(flat.nodes), flat.nodes[i];
    assert NodeCompiles(n, ids, setup);
    PortsCarry(n.inputs, ids, setup.alphabet);
    LeavesCompile(n, ids, setup.alphabet);
    hide AllCompile, Paths.Regular, CarriesAll, CompiledPorts, AreLeaves, CompiledChildren, IdsOf, GraphOf;
  }

  // ---------------------------------------------------------------- every place of the nested flow

  /** The compiled input delivers what the nested input reads: what was written, or the port of the node that was
      compiled for the place it comes from, at the path that was written. */
  ghost predicate Delivers(ab: Paths.Alphabet, s: Source, input: Input) {
    match s
    case Fixed(spec) => !spec.Ref? && Carries(ab, spec, input)
    case From(place, port, path) => IsRef(ab, input, Name(place), port, path)
    case Dangling => false
  }

  /** Where a compiled edge leads is where the nested walk goes. */
  predicate LeadsTo(target: Option<string>, move: Move) {
    match move
    case Go(place) => target == Some(Name(place))
    case Lost => false
    case _ => target == None
  }

  /** `ir` is the compiled form of the place. */
  ghost predicate CompiledFor(b: Block, ab: Paths.Alphabet, place: Place, ir: IRNode)
    requires ValidPlace(b, place)
  {
    var m, top := NodeAt(b, place), |place| == 1;
    && ir.id == Name(place) && ir.nodeType == m.nodeType && ir.accountRef == m.accountRef
    && ir.timeoutS == (if top then m.timeoutS else None)
    && ir.stopCondition == (if top then m.stopCondition else None)
    && AreLeaves(ab, ir.id, if top then m.children else None, ir.children)
    && (forall l: string :: LeadsTo(Lookup(ir.edges, l), Next(b, place, l)))
    && LeadsTo(ir.onError, ErrorNext(b, place))
    && (forall port: string | port in ir.inputs :: Delivers(ab, Reads(b, place, port), ir.inputs[port]))
    && forall port: string | port !in ir.inputs :: Reads(b, place, port).Dangling?
  }

  lemma {:induction false} SameFlatNode(b: Block, n: NodeSpec, m: NodeSpec)
    requires Flatten(b).Ok? && UniqueIds(FlatNodes(b)) && n in FlatNodes(b) && m in FlatNodes(b) && n.id == m.id
    ensures n == m
  {
    hide Flatten;
    NodeByIndex(FlatNodes(b), n);
    NodeByIndex(FlatNodes(b), m);
  }

  /**
    The compiled graph of a flow with nested calls: for every place there is a compiled node that has the type and
    account written there, keeps stop condition, timeout and children at the top level, whose edges and error edge
    lead where the nested walk goes, and whose inputs deliver what the nested inputs read.
  */
  lemma {:induction false} EveryPlaceIsCompiled(b: Block, setup: Setup, place: Place) returns (ir: IRNode)
    requires Paths.Regular(setup.alphabet) && Flatten(b).Ok? && Compilable(Flatten(b).value, setup)
    requires RawIds(b) && DistinctIds(b) && RawWiring(b) && RawErrors(b) && ValidPlace(b, place)
    ensures ir in CompiledNodes(Flatten(b).value.nodes, IdsOf(Flatten(b).value.nodes), setup.alphabet)
    ensures CompiledFor(b, setup.alphabet, place, ir)
  {
    hide Flatten, RawIds, DistinctIds, RawWiring, RawErrors, ValidPlace, Paths.Regular, Reads, Next, ErrorNext, NodeAt,
      Name, CarriesAll, AreLeaves, Delivers, Means;
    var flat := Flatten(b).value;
    var n := FlatFields(b, place);
    var i :| 0 <= i < |flat.nodes| && flat.nodes[i] == n;
    ir := CompiledNodes(flat.nodes, IdsOf(flat.nodes), setup.alphabet)[i];
    NodesAreCompiled(flat, setup, i);
    hide CompiledNodes;
    TargetsExist(flat, setup, i);
    EdgesLead(b, setup, place, n);
    ErrorLeads(b, place, n);
    forall port: string
      ensures if port in ir.inputs then Delivers(setup.alphabet, Reads(b, place, port), ir.inputs[port])
              else Reads(b, place, port).Dangling?
    {
      InputDelivers(b, setup, place, n, ir, port);
    }
    hide Compilable, IsCompiled;
    assert IsCompiled(setup.alphabet, n, ir);
    FieldsOf(b, setup.alphabet, place, n, ir);
  }

  /** No flat node is there for nothing: each is that of a place. */
  lemma {:induction false} PlaceOfFlat(b: Block, n: NodeSpec) returns (place: Place)
    requires Flatten(b).Ok? && DistinctIds(b) && n in FlatNodes(b)
    ensures ValidPlace(b, place) && n.id == Name(place)
    decreases b
  {
    hide Flatten, Inline, RedirectNode, ParamsWired, DistinctIds, Name;
    var j := OriginOf(b, n);
    IndexIsThere(b, j);
    match b.items[j]
    case Plain(m) =>
      RedirectKeepsFields(m, AllParts(b));
      place := [m.id];
      NameOfOne(m.id);
    case Call(caller, _, body) =>
      var x :| x in FlatNodes(body) && ParamsWired(x, caller) && n == Inline(x, caller);
      InlineNamesId(x, caller);
      BodyIsDistinct(b, j);
      var inner := PlaceOfFlat(body, x);
      place := [caller.id] + inner;
      assert place[1..] == inner;
      PlaceIsNonEmpty(body, inner);
      NameOfInner(caller.id, inner);
  }

  lemma {:induction false} NameOfOne(id: string)
    ensures Name([id]) == id
  {
  }

  lemma {:induction false} IndexIsThere(b: Block, j: nat)
    requires DistinctIds(b) && j < |b.items|
    ensures IndexOf(b, b.items[j].node.id) == j
  {
    assert IndexOf(b, b.items[j].node.id) <= j;
  }

  lemma {:induction false} BodyIsDistinct(b: Block, j: nat)
    requires DistinctIds(b) && j < |b.items| && b.items[j].Call?
    ensures DistinctIds(b.items[j].body)
  {
  }

  lemma {:induction false} CompiledInOrder(flat: Flat, setup: Setup)
    requires Compilable(flat, setup)
    ensures var irs := CompiledNodes(flat.nodes, IdsOf(flat.nodes), setup.alphabet);
      |irs| == |flat.nodes| && forall i | 0 <= i < |irs| :: irs[i].id == flat.nodes[i].id
  {
    hide GraphOf, IdsOf;
  }

  /** A compiled node is determined by its id. */
  lemma {:induction false} FlatOf(flat: Flat, setup: Setup, ir: IRNode) returns (n: NodeSpec)
    requires Compilable(flat, setup)
    requires ir in CompiledNodes(flat.nodes, IdsOf(flat.nodes), setup.alphabet)
    ensures n in flat.nodes && n.id == ir.id
    ensures forall x | x in CompiledNodes(flat.nodes, IdsOf(flat.nodes), setup.alphabet) :: x.id == ir.id ==> x == ir
  {
    CompiledIds(flat, setup);
    CompiledInOrder(flat, setup);
    hide CompiledNodes, Compilable, NodesById, IdsOf;
    var irs := CompiledNodes(flat.nodes, IdsOf(flat.nodes), setup.alphabet);
    var i :| 0 <= i < |irs| && irs[i] == ir;
    n := flat.nodes[i];
  }

  lemma {:induction false} FormIsNamed(b: Block, ab: Paths.Alphabet, place: Place, ir: IRNode)
    requires ValidPlace(b, place) && CompiledFor(b, ab, place, ir)
    ensures ir.id == Name(place)
  {
    hide AreLeaves, Reads, Delivers, Next, ErrorNext, ValidPlace, NodeAt, Name;
  }

  /** And the other way round: every compiled node is that of a place. */
  lemma {:induction false} EveryNodeIsOfAPlace(b: Block, setup: Setup, ir: IRNode) returns (place: Place)
    requires Paths.Regular(setup.alphabet) && Flatten(b).Ok? && Compilable(Flatten(b).value, setup)
    requires RawIds(b) && DistinctIds(b) && RawWiring(b) && RawErrors(b)
    requires ir in CompiledNodes(Flatten(b).value.nodes, IdsOf(Flatten(b).value.nodes), setup.alphabet)
    ensures ValidPlace(b, place) && CompiledFor(b, setup.alphabet, place, ir)
  {
    hide Flatten, RawIds, DistinctIds, RawWiring, RawErrors, ValidPlace, Paths.Regular, CompiledNodes, Compilable,
      CompiledFor, IdsOf, Name;
    var flat := Flatten(b).value;
    var n := FlatOf(flat, setup, ir);
    place := PlaceOfFlat(b, n);
    var other := EveryPlaceIsCompiled(b, setup, place);
    FormIsNamed(b, setup.alphabet, place, other);
  }

  lemma {:induction false} FieldsOf(b: Block, ab: Paths.Alphabet, place: Place, n: NodeSpec, ir: IRNode)
    requires ValidPlace(b, place) && IsCompiled(ab, n, ir) && KeepsFields(n, NodeAt(b, place), |place| == 1)
    ensures var m, top := NodeAt(b, place), |place| == 1;
      && ir.nodeType == m.nodeType && ir.accountRef == m.accountRef
      && ir.timeoutS == (if top then m.timeoutS else None)
      && ir.stopCondition == (if top then m.stopCondition else None)
      && AreLeaves(ab, ir.id, if top then m.children else None, ir.children)
    ensures ir.id == n.id && ir.edges == n.edges && ir.onError == n.onError
  {
    hide AreLeaves, CarriesAll;
  }

  /** All targets of a compilable node exist. */
  lemma {:induction false} TargetsExist(flat: Flat, setup: Setup, i: nat)
    requires Compilable(flat, setup) && i < |flat.nodes|
    ensures UniqueIds(flat.nodes)
    ensures forall l | l in flat.nodes[i].edges :: Has(flat.nodes, flat.nodes[i].edges[l])
    ensures flat.nodes[i].onError.Some? ==> Has(flat.nodes, flat.nodes[i].onError.value)
  {
    var n, ids := flat.nodes[i], IdsOf(flat.nodes);
    assert NodeCompiles(n, ids, setup);
    forall l | l in n.edges
      ensures Has(flat.nodes, n.edges[l])
    {
      assert n.edges[l] in n.edges.Values;
    }
  }

  lemma {:induction false} EdgesLead(b: Block, setup: Setup, place: Place, n: NodeSpec)
    requires WellFormed(b) && ValidPlace(b, place)
    requires UniqueIds(FlatNodes(b)) && n in FlatNodes(b) && n.id == Name(place)
    requires forall l | l in n.edges :: Has(FlatNodes(b), n.edges[l])
    ensures forall l: string :: LeadsTo(Lookup(n.edges, l), Next(b, place, l))
  {
    hide Flatten, RawIds, DistinctIds, ValidPlace, Next, Name;
    var m := FlatNodeOf(b, place);
    SameFlatNode(b, n, m);
    forall l: string
      ensures LeadsTo(Lookup(n.edges, l), Next(b, place, l))
    {
      assert Matches(FlatNodes(b), n, l, Next(b, place, l));
    }
  }

  lemma {:induction false} ErrorLeads(b: Block, place: Place, n: NodeSpec)
    requires Flatten(b).Ok? && ValidPlace(b, place) && ErrorMatches(FlatNodes(b), n, ErrorNext(b, place))
    requires n.onError.Some? ==> Has(FlatNodes(b), n.onError.value)
    ensures LeadsTo(n.onError, ErrorNext(b, place))
  {
  }

  lemma {:induction false} InputDelivers(b: Block, setup: Setup, place: Place, n: NodeSpec, ir: IRNode, port: string)
    requires Flatten(b).Ok? && Compilable(Flatten(b).value, setup)
    requires RawIds(b) && DistinctIds(b) && RawWiring(b) && ValidPlace(b, place)
    requires n in FlatNodes(b) && n.id == Name(place) && IsCompiled(setup.alphabet, n, ir)
    ensures if port in ir.inputs then Delivers(setup.alphabet, Reads(b, place, port), ir.inputs[port])
            else Reads(b, place, port).Dangling?
  {
    hide Flatten, RawIds, DistinctIds, RawWiring, ValidPlace, Reads, AreLeaves, Name;
    var m := CompilingPreservesWiring(b, setup, place, port);
    SameFlatNode(b, n, m);
    if port in n.inputs { assert Carries(setup.alphabet, n.inputs[port], ir.inputs[port]); }
  }
}
