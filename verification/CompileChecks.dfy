/**
  What the compiler accepts. A flow compiles exactly if its templates can be resolved and the flat graph meets a list
  of conditions on ids, types, inputs, targets and loops, each said here about the flow as it was written.
*/
module CompileChecks {
  import opened Base
  import opened Ir
  import opened Blocks
  import opened Compiler
  import opened CompiledForm
  import CycleCheck
  import Inlining
  import Paths

  // ---------------------------------------------------------------- templates

  /** `b` is the nested program that the node list stands for: a node whose type starts with "custom." is a call of
      the template with that id, which must exist and not be open already; there are at most ten levels of calls. */
  ghost predicate StandsFor(lib: Library, nodes: seq<NodeSpec>, entry: string, open: seq<string>, b: Block)
    decreases b
  {
    && |open| <= 10 && b.entry == entry && |b.items| == |nodes|
    && forall i | 0 <= i < |nodes| ::
         && b.items[i].node == nodes[i]
         && match b.items[i]
            case Plain(n) => !("custom." <= n.nodeType)
            case Call(n, outputs, body) =>
              && "custom." <= n.nodeType
              && lib.parseId(n.nodeType[7..]).Some? && lib.lookup.Some?
              && var id := lib.parseId(n.nodeType[7..]).value;
                 && id !in open && lib.lookup.value(id).Some?
                 && var t := lib.lookup.value(id).value;
                    outputs == t.outputs && StandsFor(lib, t.nodes, t.entry, open + [id], body)
  }

  lemma {:induction false} ItemsStand(lib: Library, nodes: seq<NodeSpec>, k: nat, open: seq<string>, depth: nat)
    requires k <= |nodes| && depth <= MAX_COMPOSITE_DEPTH && ResolveItems(lib, nodes, k, open, depth).Ok?
    ensures var items := ResolveItems(lib, nodes, k, open, depth).value;
      forall i | 0 <= i < k :: ResolveItem(lib, nodes[i], open, depth) == Ok(items[i])
    decreases k
  {
    hide ResolveItem;
    if k > 0 { ItemsStand(lib, nodes, k - 1, open, depth); }
  }

  lemma {:induction false} ItemsResolve(lib: Library, nodes: seq<NodeSpec>, k: nat, open: seq<string>, depth: nat,
                                        items: seq<Item>)
    requires k <= |nodes| && |items| == |nodes| && depth <= MAX_COMPOSITE_DEPTH
    requires forall i | 0 <= i < k :: ResolveItem(lib, nodes[i], open, depth) == Ok(items[i])
    ensures ResolveItems(lib, nodes, k, open, depth) == Ok(items[..k])
    decreases k
  {
    hide ResolveItem;
    if k > 0 {
      ItemsResolve(lib, nodes, k - 1, open, depth, items);
      assert items[..k] == items[..k - 1] + [items[k - 1]];
    }
  }

  /** Resolution finds the nested program, if there is one. */
  lemma {:induction false} ResolvedStands(lib: Library, nodes: seq<NodeSpec>, entry: string, open: seq<string>,
                                          depth: nat, b: Block)
    requires depth == |open|
    ensures Resolve(lib, nodes, entry, open, depth) == Ok(b) <==> StandsFor(lib, nodes, entry, open, b)
    decreases b
  {
    if depth <= MAX_COMPOSITE_DEPTH && |b.items| == |nodes| {
      forall i | 0 <= i < |nodes|
        ensures ResolveItem(lib, nodes[i], open, depth) == Ok(b.items[i])
           <==> ItemStands(lib, nodes[i], open, b.items[i])
      {
        if b.items[i].Call? { CallStands(lib, nodes[i], open, depth, b, i); }
      }
      StandsByItem(lib, nodes, entry, open, b);
      hide ResolveItem, StandsFor, ItemStands;
      if Resolve(lib, nodes, entry, open, depth) == Ok(b) { ItemsStand(lib, nodes, |nodes|, open, depth); }
      if forall i | 0 <= i < |nodes| :: ResolveItem(lib, nodes[i], open, depth) == Ok(b.items[i]) {
        ItemsResolve(lib, nodes, |nodes|, open, depth, b.items);
        assert b.items[..|nodes|] == b.items;
      }
    }
  }

  ghost predicate ItemStands(lib: Library, n: NodeSpec, open: seq<string>, item: Item) {
    && item.node == n
    && match item
       case Plain(_) => !("custom." <= n.nodeType)
       case Call(_, outputs, body) =>
         && "custom." <= n.nodeType
         && lib.parseId(n.nodeType[7..]).Some? && lib.lookup.Some?
         && var id := lib.parseId(n.nodeType[7..]).value;
            && id !in open && lib.lookup.value(id).Some?
            && var t := lib.lookup.value(id).value;
               outputs == t.outputs && StandsFor(lib, t.nodes, t.entry, open + [id], body)
  }

  lemma {:induction false} StandsByItem(lib: Library, nodes: seq<NodeSpec>, entry: string, open: seq<string>, b: Block)
    requires |b.items| == |nodes| && |open| <= 10
    ensures StandsFor(lib, nodes, entry, open, b)
       <==> b.entry == entry && forall i | 0 <= i < |nodes| :: ItemStands(lib, nodes[i], open, b.items[i])
  {
  }

  lemma {:induction false} CallStands(lib: Library, n: NodeSpec, open: seq<string>, depth: nat, b: Block, i: nat)
    requires depth == |open| && depth <= MAX_COMPOSITE_DEPTH && i < |b.items| && b.items[i].Call?
    ensures ResolveItem(lib, n, open, depth) == Ok(b.items[i]) <==> ItemStands(lib, n, open, b.items[i])
    decreases b, 0
  {
    var Call(m, outputs, body) := b.items[i];
    if IsCompositeCall(n) && TemplateOf(lib, n, open).Ok? {
      var (id, t) := TemplateOf(lib, n, open).value;
      ResolvedStands(lib, t.nodes, t.entry, open + [id], depth + 1, body);
    }
    hide Resolve, StandsFor;
  }

  // ---------------------------------------------------------------- the flat graph

  predicate HasNode(nodes: seq<NodeSpec>, id: string) {
    exists i :: 0 <= i < |nodes| && nodes[i].id == id
  }

  /** A reference must have a known shape, an existing node and a path that can be read; the rest always fits. */
  ghost predicate InputFits(ab: Paths.Alphabet, nodes: seq<NodeSpec>, spec: InputSpec) {
    match spec
    case MalformedRef(_) => false
    case Ref(id, _, path) =>
      HasNode(nodes, id) && exists segs: seq<Segment>, texts: seq<string> :: Paths.Spells(ab, path, segs, texts)
    case _ => true
  }

  /** The type is known, its required inputs are wired, and it accepts what the inputs carry. */
  ghost predicate TypeFits(setup: Setup, nodes: seq<NodeSpec>, id: string, nodeType: string,
                           inputs: map<string, InputSpec>) {
    && nodeType in setup.registry
    && (forall port | port in inputs :: InputFits(setup.alphabet, nodes, inputs[port]))
    && (forall port | port in setup.registry[nodeType].required :: port in inputs)
    && exists ports: map<string, Input> ::
         CarriesAll(setup.alphabet, inputs, ports) && setup.registry[nodeType].accepts(id, ports)
  }

  ghost predicate LeafFits(setup: Setup, nodes: seq<NodeSpec>, leaf: ChildSpec) {
    && leaf.edges == map[] && leaf.onError.None?
    && TypeFits(setup, nodes, leaf.id, leaf.nodeType, leaf.inputs)
    && leaf.nodeType in setup.registry && setup.registry[leaf.nodeType].batchable
  }

  ghost predicate NodeFits(setup: Setup, nodes: seq<NodeSpec>, n: NodeSpec) {
    && TypeFits(setup, nodes, n.id, n.nodeType, n.inputs)
    && (forall l | l in n.edges :: HasNode(nodes, n.edges[l]))
    && (n.onError.Some? ==> HasNode(nodes, n.onError.value))
    && (n.stopCondition.Some? && n.stopCondition.value.action.Goto? ==>
          n.stopCondition.value.gotoNodeId.Some? && HasNode(nodes, n.stopCondition.value.gotoNodeId.value))
    && (n.children.Some? ==>
          && |n.children.value| <= setup.batchMax
          && (forall i, j | 0 <= i < j < |n.children.value| :: n.children.value[i].id != n.children.value[j].id)
          && forall i | 0 <= i < |n.children.value| :: LeafFits(setup, nodes, n.children.value[i]))
  }

  /** The node `id` has an edge or an error edge to `t`; links to itself and to `vars` do not count. */
  predicate Linked(nodes: seq<NodeSpec>, id: string, t: string) {
    && t != id && t != "vars"
    && exists i :: 0 <= i < |nodes| && nodes[i].id == id
                   && ((exists l :: l in nodes[i].edges && nodes[i].edges[l] == t)
                       || (nodes[i].onError == Some(t) && t != ""))
  }

  /** A way along links that comes back to where it started. */
  ghost predicate IsLoop(nodes: seq<NodeSpec>, way: seq<string>) {
    && |way| >= 2 && way[0] == way[|way| - 1]
    && forall i | 0 <= i < |way| - 1 :: Linked(nodes, way[i], way[i + 1])
  }

  /** All that the compiler asks of a flat graph. */
  ghost predicate Fits(flat: Flat, setup: Setup) {
    && (forall i, j | 0 <= i < j < |flat.nodes| :: flat.nodes[i].id != flat.nodes[j].id)
    && HasNode(flat.nodes, flat.entry)
    && (forall i | 0 <= i < |flat.nodes| :: NodeFits(setup, flat.nodes, flat.nodes[i]))
    && forall way: seq<string> :: !IsLoop(flat.nodes, way)
  }

  // ---------------------------------------------------------------- inputs and types

  lemma {:induction false} IdIsNode(nodes: seq<NodeSpec>, id: string)
    ensures id in IdsOf(nodes) <==> HasNode(nodes, id)
  {
  }

  lemma {:induction false} FitsExactly(setup: Setup, nodes: seq<NodeSpec>, spec: InputSpec)
    requires Paths.Regular(setup.alphabet)
    ensures CompileInput(spec, IdsOf(nodes), setup.alphabet).Some? <==> InputFits(setup.alphabet, nodes, spec)
  {
    if spec.Ref? {
      IdIsNode(nodes, spec.nodeId);
      if Paths.Parse(setup.alphabet, spec.path).Some? {
        var texts := Paths.ParsedIsSpelled(setup.alphabet, spec.path);
      }
      forall segs: seq<Segment>, texts: seq<string> | Paths.Spells(setup.alphabet, spec.path, segs, texts)
        ensures Paths.Parse(setup.alphabet, spec.path).Some?
      {
        Paths.SpelledIsParsed(setup.alphabet, spec.path, segs, texts);
      }
    }
  }

  lemma {:induction false} PortsFitExactly(setup: Setup, nodes: seq<NodeSpec>, inputs: map<string, InputSpec>)
    requires Paths.Regular(setup.alphabet)
    ensures PortsCompile(inputs, IdsOf(nodes), setup.alphabet)
       <==> forall port | port in inputs :: InputFits(setup.alphabet, nodes, inputs[port])
  {
    hide Paths.Regular, CompileInput, InputFits;
    forall port | port in inputs
      ensures CompileInput(inputs[port], IdsOf(nodes), setup.alphabet).Some?
         <==> InputFits(setup.alphabet, nodes, inputs[port])
    {
      FitsExactly(setup, nodes, inputs[port]);
    }
  }

  /** What is carried is determined by what was written. */
  lemma {:induction false} CarriedOnce(ab: Paths.Alphabet, spec: InputSpec, x: Input, y: Input)
    requires Paths.Regular(ab) && Carries(ab, spec, x) && Carries(ab, spec, y)
    ensures x == y
  {
    if spec.Ref? {
      Paths.GrammarIsExact(ab, spec.path, x.path);
      Paths.GrammarIsExact(ab, spec.path, y.path);
    }
  }

  lemma {:induction false} AllCarriedOnce(ab: Paths.Alphabet, specs: map<string, InputSpec>, x: map<string, Input>,
                                          y: map<string, Input>)
    requires Paths.Regular(ab) && CarriesAll(ab, specs, x) && CarriesAll(ab, specs, y)
    ensures x == y
  {
    hide Carries, Paths.Regular;
    forall port | port in specs
      ensures x[port] == y[port]
    {
      CarriedOnce(ab, specs[port], x[port], y[port]);
    }
  }

  lemma {:induction false} TypeFitsExactly(setup: Setup, nodes: seq<NodeSpec>, id: string, nodeType: string,
                                           inputs: map<string, InputSpec>)
    requires Paths.Regular(setup.alphabet)
    ensures TypeAccepts(id, nodeType, inputs, IdsOf(nodes), setup) <==> TypeFits(setup, nodes, id, nodeType, inputs)
  {
    hide Paths.Regular, PortsCompile, CompiledPorts, CarriesAll, InputFits, IdsOf;
    PortsFitExactly(setup, nodes, inputs);
    if PortsCompile(inputs, IdsOf(nodes), setup.alphabet) {
      var ports := CompiledPorts(inputs, IdsOf(nodes), setup.alphabet);
      PortsCarry(inputs, IdsOf(nodes), setup.alphabet);
      forall other: map<string, Input> | CarriesAll(setup.alphabet, inputs, other)
        ensures other == ports
      {
        AllCarriedOnce(setup.alphabet, inputs, other, ports);
      }
    }
  }

  lemma {:induction false} LeafFitsExactly(setup: Setup, nodes: seq<NodeSpec>, leaf: ChildSpec)
    requires Paths.Regular(setup.alphabet)
    ensures ChildCompiles(leaf, IdsOf(nodes), setup) <==> LeafFits(setup, nodes, leaf)
  {
    TypeFitsExactly(setup, nodes, leaf.id, leaf.nodeType, leaf.inputs);
    hide TypeFits, PortsCompile, CompiledPorts, Paths.Regular, IdsOf;
  }

  lemma {:induction false} NodeFitsExactly(setup: Setup, nodes: seq<NodeSpec>, n: NodeSpec)
    requires Paths.Regular(setup.alphabet)
    ensures NodeCompiles(n, IdsOf(nodes), setup) <==> NodeFits(setup, nodes, n)
  {
    var ids := IdsOf(nodes);
    TypeFitsExactly(setup, nodes, n.id, n.nodeType, n.inputs);
    ChildrenFitExactly(setup, nodes, n);
    forall id: string
      ensures id in ids <==> HasNode(nodes, id)
    {
      IdIsNode(nodes, id);
    }
    TargetsFit(n, ids);
    if ChildrenCompile(n, ids, setup) { ChildrenHavePorts(n, ids, setup); }
    if TypeAccepts(n.id, n.nodeType, n.inputs, ids, setup) { AcceptedHasPorts(n.id, n.nodeType, n.inputs, ids, setup); }
    hide TypeFits, TypeAccepts, IdsOf, HasNode, ChildrenCompile, ChildPortsCompile, PortsCompile, LeafFits;
  }

  lemma {:induction false} TargetsFit(n: NodeSpec, ids: set<string>)
    ensures n.edges.Values <= ids <==> forall l | l in n.edges :: n.edges[l] in ids
  {
    if n.edges.Values <= ids {
      forall l | l in n.edges
        ensures n.edges[l] in ids
      {
        assert n.edges[l] in n.edges.Values;
      }
    }
  }

  lemma {:induction false} ChildrenHavePorts(n: NodeSpec, ids: set<string>, setup: Setup)
    requires ChildrenCompile(n, ids, setup)
    ensures ChildPortsCompile(n, ids, setup.alphabet)
  {
    hide PortsCompile, TypeAccepts;
    if n.children.Some? {
      forall i | 0 <= i < |n.children.value|
        ensures PortsCompile(n.children.value[i].inputs, ids, setup.alphabet)
      {
        var leaf := n.children.value[i];
        assert ChildCompiles(leaf, ids, setup);
        AcceptedHasPorts(leaf.id, leaf.nodeType, leaf.inputs, ids, setup);
      }
    }
  }

  lemma {:induction false} ChildrenFitExactly(setup: Setup, nodes: seq<NodeSpec>, n: NodeSpec)
    requires Paths.Regular(setup.alphabet)
    ensures ChildrenCompile(n, IdsOf(nodes), setup)
       <==> (n.children.Some? ==>
               && |n.children.value| <= setup.batchMax
               && (forall i, j | 0 <= i < j < |n.children.value| :: n.children.value[i].id != n.children.value[j].id)
               && forall i | 0 <= i < |n.children.value| :: LeafFits(setup, nodes, n.children.value[i]))
  {
    hide ChildCompiles, LeafFits, Paths.Regular, IdsOf;
    if n.children.Some? {
      forall i | 0 <= i < |n.children.value|
        ensures ChildCompiles(n.children.value[i], IdsOf(nodes), setup) <==> LeafFits(setup, nodes, n.children.value[i])
      {
        LeafFitsExactly(setup, nodes, n.children.value[i]);
      }
    }
  }

  // ---------------------------------------------------------------- loops

  lemma {:induction false} LinksAreWritten(flat: Flat, setup: Setup, id: string, t: string)
    requires Inlining.UniqueIds(flat.nodes) && HaveInputs(flat.nodes, IdsOf(flat.nodes), setup.alphabet)
    ensures var g := GraphOf(CompiledNodes(flat.nodes, IdsOf(flat.nodes), setup.alphabet));
      t in CycleCheck.Links(g, id) <==> Linked(flat.nodes, id, t)
  {
    var ids := IdsOf(flat.nodes);
    var irs := CompiledNodes(flat.nodes, ids, setup.alphabet);
    var g := GraphOf(irs);
    UniqueCompiled(flat, setup);
    GraphKeys(irs);
    hide GraphOf, HaveInputs;
    if i: nat :| i < |flat.nodes| && flat.nodes[i].id == id {
      ById(irs, i);
      assert irs[i] == CompileNode(flat.nodes[i], ids, setup.alphabet);
      LinkOfNode(flat.nodes, i, t);
      assert g[id] == CycleCheck.Targets(irs[i]) == TargetsOf(flat.nodes[i]);
    } else {
      if id in Order(irs) { OnlyNodesLinked(flat.nodes, irs, id); }
    }
  }

  lemma {:induction false} OnlyNodesLinked(nodes: seq<NodeSpec>, irs: seq<IRNode>, id: string)
    requires |irs| == |nodes| && forall j | 0 <= j < |irs| :: irs[j].id == nodes[j].id
    requires id in Order(irs)
    ensures exists i: nat :: i < |nodes| && nodes[i].id == id
  {
    var k :| 0 <= k < |irs| && Order(irs)[k] == id;
    assert nodes[k].id == id;
  }

  lemma {:induction false} UniqueCompiled(flat: Flat, setup: Setup)
    requires Inlining.UniqueIds(flat.nodes) && HaveInputs(flat.nodes, IdsOf(flat.nodes), setup.alphabet)
    ensures var irs := CompiledNodes(flat.nodes, IdsOf(flat.nodes), setup.alphabet);
      |irs| == |flat.nodes| && (forall j | 0 <= j < |irs| :: irs[j].id == flat.nodes[j].id)
      && forall j, k | 0 <= j < k < |irs| :: irs[j].id != irs[k].id
  {
    var irs := CompiledNodes(flat.nodes, IdsOf(flat.nodes), setup.alphabet);
    assert forall j | 0 <= j < |irs| :: irs[j].id == flat.nodes[j].id;
  }

  function TargetsOf(n: NodeSpec): set<string> {
    (n.edges.Values + if n.onError.Some? && n.onError.value != "" then {n.onError.value} else {}) - {VARS_NODE_ID, n.id}
  }

  lemma {:induction false} LinkOfNode(nodes: seq<NodeSpec>, i: nat, t: string)
    requires Inlining.UniqueIds(nodes) && i < |nodes|
    ensures t in TargetsOf(nodes[i]) <==> Linked(nodes, nodes[i].id, t)
  {
    var n := nodes[i];
    if t in n.edges.Values {
      var l :| l in n.edges && n.edges[l] == t;
    }
    if l :| l in n.edges && n.edges[l] == t {
      assert n.edges[l] in n.edges.Values;
    }
  }

  lemma {:induction false} CyclesAreLoops(flat: Flat, setup: Setup)
    requires Inlining.UniqueIds(flat.nodes) && HaveInputs(flat.nodes, IdsOf(flat.nodes), setup.alphabet)
    ensures CycleCheck.HasCycle(GraphOf(CompiledNodes(flat.nodes, IdsOf(flat.nodes), setup.alphabet)))
       <==> exists way: seq<string> :: IsLoop(flat.nodes, way)
  {
    var g := GraphOf(CompiledNodes(flat.nodes, IdsOf(flat.nodes), setup.alphabet));
    hide GraphOf, CycleCheck.Links, Linked, Inlining.UniqueIds, HaveInputs;
    forall way: seq<string>
      ensures CycleCheck.IsCycle(g, way) <==> IsLoop(flat.nodes, way)
    {
      forall i | 0 <= i < |way| - 1
        ensures way[i + 1] in CycleCheck.Links(g, way[i]) <==> Linked(flat.nodes, way[i], way[i + 1])
      {
        LinksAreWritten(flat, setup, way[i], way[i + 1]);
      }
    }
  }

  // ---------------------------------------------------------------- exactly what compiles

  /** A flat graph compiles exactly if it fits. */
  lemma {:induction false} CompilesExactly(flat: Flat, setup: Setup)
    requires Paths.Regular(setup.alphabet)
    ensures Compilable(flat, setup) <==> Fits(flat, setup)
  {
    var ids := IdsOf(flat.nodes);
    IdIsNode(flat.nodes, flat.entry);
    forall i | 0 <= i < |flat.nodes|
      ensures NodeCompiles(flat.nodes[i], ids, setup) <==> NodeFits(setup, flat.nodes, flat.nodes[i])
    {
      NodeFitsExactly(setup, flat.nodes, flat.nodes[i]);
    }
    hide NodeFits, IsLoop, IdsOf, GraphOf, CompiledNodes, CycleCheck.HasCycle, HasNode, Paths.Regular, InputsCompile,
      NodeItselfCompiles, ChildrenCompile;
    if Inlining.UniqueIds(flat.nodes) && AllCompile(flat.nodes, ids, setup) {
      assert HaveInputs(flat.nodes, ids, setup.alphabet);
      CyclesAreLoops(flat, setup);
    }
  }
}
