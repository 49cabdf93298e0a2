/**
  The compiler: expansion of composite calls, the checks on the flat graph, and the compiled form. It is
  written as the loops of `expand_composites` and `compile_flow`; each is proved to compute, or to reject, what
  the flattening of blocks and the list of conditions say.
*/
module Compiler {
  import opened Base
  import opened JsonValues
  import opened Ir
  import opened Blocks
  import Paths
  import CycleCheck
  import Inlining
  import SafeWalk
  import Wiring

  const CUSTOM_PREFIX := "custom."
  const MAX_COMPOSITE_DEPTH := 10

  datatype Template = Template(nodes: seq<NodeSpec>, entry: string, outputs: seq<OutputParam>)

  /** UUID parsing and the template lookup, which may be absent. */
  datatype Library = Library(parseId: string -> Option<string>, lookup: Option<string -> Option<Template>>)

  predicate IsCompositeCall(n: NodeSpec) {
    CUSTOM_PREFIX <= n.nodeType
  }

  /** The template a call names, or why there is none: a bad id, a cycle of templates, an unknown template. */
  function TemplateOf(lib: Library, n: NodeSpec, visited: seq<string>): Result<(string, Template)>
    requires IsCompositeCall(n)
  {
    match lib.parseId(n.nodeType[|CUSTOM_PREFIX|..])
    case None => Err("malformed composite type")
    case Some(id) =>
      if id in visited then Err("composite cycle")
      else if lib.lookup.None? then Err("unknown template")
      else
        match lib.lookup.value(id)
        case None => Err("unknown template")
        case Some(template) => Ok((id, template))
  }

  function Levels(depth: nat): nat {
    if depth > MAX_COMPOSITE_DEPTH then 0 else MAX_COMPOSITE_DEPTH + 1 - depth
  }

  // ---------------------------------------------------------------- the nested program a node list stands for

  function ResolveItem(lib: Library, n: NodeSpec, visited: seq<string>, depth: nat): Result<Item>
    requires depth <= MAX_COMPOSITE_DEPTH
    decreases Levels(depth), 0, 0
  {
    if !IsCompositeCall(n) then Ok(Plain(n))
    else
      match TemplateOf(lib, n, visited)
      case Err(e) => Err(e)
      case Ok((id, template)) =>
        match Resolve(lib, template.nodes, template.entry, visited + [id], depth + 1)
        case Err(e) => Err(e)
        case Ok(body) => Ok(Call(n, template.outputs, body))
  }

  function ResolveItems(lib: Library, nodes: seq<NodeSpec>, k: nat, visited: seq<string>,
                        depth: nat): (r: Result<seq<Item>>)
    requires k <= |nodes| && depth <= MAX_COMPOSITE_DEPTH
    ensures r.Ok? ==> |r.value| == k
    decreases Levels(depth), 1, k
  {
    if k == 0 then Ok([])
    else
      match ResolveItems(lib, nodes, k - 1, visited, depth)
      case Err(e) => Err(e)
      case Ok(items) =>
        match ResolveItem(lib, nodes[k - 1], visited, depth)
        case Err(e) => Err(e)
        case Ok(item) => Ok(items + [item])
  }

  /** The block of a node list, with the block of its template in every call. */
  function Resolve(lib: Library, nodes: seq<NodeSpec>, entry: string, visited: seq<string>, depth: nat): Result<Block>
    decreases Levels(depth), 2, 0
  {
    if depth > MAX_COMPOSITE_DEPTH then Err("composite depth exceeded")
    else
      match ResolveItems(lib, nodes, |nodes|, visited, depth)
      case Err(e) => Err(e)
      case Ok(items) => Ok(Block(items, entry))
  }

  /** What expansion returns. */
  function Expanded(lib: Library, nodes: seq<NodeSpec>, entry: string, visited: seq<string>, depth: nat): Result<Flat> {
    match Resolve(lib, nodes, entry, visited, depth)
    case Err(e) => Err(e)
    case Ok(b) => Flatten(b)
  }

  // ---------------------------------------------------------------- expand_composites

  lemma {:induction false} CollectedFromPrefix(b: Block, c: Block, k: nat)
    requires k <= |b.items| && k <= |c.items| && forall i | 0 <= i < k :: b.items[i] == c.items[i]
    ensures Collected(b, k) == Collected(c, k)
    decreases k
  {
    hide Flatten, AddCall;
    if k > 0 { CollectedFromPrefix(b, c, k - 1); }
  }

  /** The loop over a call's template: every inner node is spliced in, unless a parameter is missing. */
  method InlineNodes(nodes: seq<NodeSpec>, caller: NodeSpec) returns (r: Result<seq<NodeSpec>>)
    ensures r == InlineAll(nodes, caller)
  {
    var inlined: seq<NodeSpec> := [];
    for i := 0 to |nodes|
      invariant |inlined| == i
      invariant forall j | 0 <= j < i :: ParamsWired(nodes[j], caller) && inlined[j] == Inline(nodes[j], caller)
    {
      if !ParamsWired(nodes[i], caller) {
        return Err("composite param not wired by caller");
      }
      inlined := inlined + [Inline(nodes[i], caller)];
    }
    assert inlined == seq(|nodes|, i requires 0 <= i < |nodes| => Inline(nodes[i], caller));
    r := Ok(inlined);
  }

  method ExpandComposites(lib: Library, nodes: seq<NodeSpec>, entry: string, visited: seq<string>, depth: nat)
    returns (r: Result<Flat>)
    ensures r.Ok? <==> Expanded(lib, nodes, entry, visited, depth).Ok?
    ensures r.Ok? ==> r == Expanded(lib, nodes, entry, visited, depth)
    decreases Levels(depth)
  {
    hide Flatten, Assemble, InlineAll, AddOutputs;
    if depth > MAX_COMPOSITE_DEPTH {
      return Err("composite depth exceeded");
    }
    var parts := Parts([], [], map[], map[]);
    ghost var items: seq<Item> := [];
    var i := 0;
    while i < |nodes|
      invariant 0 <= i <= |nodes| && |items| == i
      invariant ResolveItems(lib, nodes, i, visited, depth) == Ok(items)
      invariant Collected(Block(items, entry), i) == Ok(parts)
    {
      var n := nodes[i];
      if !IsCompositeCall(n) {
        StepCollected(items, Plain(n), entry);
        parts := parts.(plain := parts.plain + [n]);
        items := items + [Plain(n)];
      } else {
        var template := TemplateOf(lib, n, visited);
        if template.Err? {
          FailsHere(lib, nodes, entry, visited, depth, items);
          return Err(template.error);
        }
        var (id, t) := template.value;
        var inner := ExpandComposites(lib, t.nodes, t.entry, visited + [id], depth + 1);
        if inner.Err? {
          UnflattenedCall(lib, n, items, entry, visited, depth);
          FailsHere(lib, nodes, entry, visited, depth, items);
          return Err(inner.error);
        }
        ghost var item := ResolveItem(lib, n, visited, depth).value;
        StepCollected(items, item, entry);
        var inlined := InlineNodes(inner.value.nodes, n);
        if inlined.Err? {
          FailsHere(lib, nodes, entry, visited, depth, items);
          return Err(inlined.error);
        }
        parts := Parts(parts.plain, parts.inlined + inlined.value,
                       parts.entries[n.id := Namespaced(n.id, inner.value.entry)],
                       AddOutputs(parts.outputs, n.id, t.outputs));
        items := items + [item];
      }
      i := i + 1;
    }
    FlattenedFrom(Block(items, entry));
    r := Ok(Assemble(parts, entry));
  }

  lemma {:induction false} ResolvedPrefix(lib: Library, nodes: seq<NodeSpec>, k: nat, m: nat, visited: seq<string>,
                                          depth: nat)
    requires k <= m <= |nodes| && depth <= MAX_COMPOSITE_DEPTH && ResolveItems(lib, nodes, m, visited, depth).Ok?
    ensures ResolveItems(lib, nodes, k, visited, depth).Ok?
    ensures ResolveItems(lib, nodes, m, visited, depth).value[..k] == ResolveItems(lib, nodes, k, visited, depth).value
    decreases m
  {
    hide ResolveItem;
    if k < m { ResolvedPrefix(lib, nodes, k, m - 1, visited, depth); }
  }

  lemma {:induction false} CollectedBefore(b: Block, k: nat, m: nat)
    requires k <= m <= |b.items| && Collected(b, m).Ok?
    ensures Collected(b, k).Ok?
    decreases m
  {
    hide Flatten, AddCall;
    if k < m { CollectedBefore(b, k, m - 1); }
  }

  /** A node that cannot be resolved, flattened or wired makes the whole expansion fail. */
  lemma {:induction false} FailsHere(lib: Library, nodes: seq<NodeSpec>, entry: string, visited: seq<string>,
                                     depth: nat, items: seq<Item>)
    requires depth <= MAX_COMPOSITE_DEPTH && |items| < |nodes|
    requires ResolveItems(lib, nodes, |items|, visited, depth) == Ok(items)
    requires var item := ResolveItem(lib, nodes[|items|], visited, depth);
             item.Ok? ==> Collected(Block(items + [item.value], entry), |items| + 1).Err?
    ensures Expanded(lib, nodes, entry, visited, depth).Err?
  {
    hide ResolveItem, Flatten, AddCall;
    var i := |items|;
    if ResolveItems(lib, nodes, |nodes|, visited, depth).Ok? {
      ResolvedPrefix(lib, nodes, i + 1, |nodes|, visited, depth);
      var all := ResolveItems(lib, nodes, |nodes|, visited, depth).value;
      var item := ResolveItem(lib, nodes[i], visited, depth).value;
      assert all[..i + 1] == items + [item];
      assert forall j | 0 <= j < i + 1 :: all[j] == all[..i + 1][j];
      CollectedFromPrefix(Block(items + [item], entry), Block(all, entry), i + 1);
      FlattenedFrom(Block(all, entry));
      if Collected(Block(all, entry), |all|).Ok? { CollectedBefore(Block(all, entry), i + 1, |all|); }
    }
  }

  lemma {:induction false} FlattenedFrom(b: Block)
    ensures Flatten(b)
         == match Collected(b, |b.items|) case Err(e) => Err(e) case Ok(parts) => Ok(Assemble(parts, b.entry))
  {
  }

  lemma {:induction false} UnflattenedCall(lib: Library, n: NodeSpec, items: seq<Item>, entry: string,
                                           visited: seq<string>, depth: nat)
    requires depth <= MAX_COMPOSITE_DEPTH && IsCompositeCall(n) && TemplateOf(lib, n, visited).Ok?
    requires Collected(Block(items, entry), |items|).Ok?
    requires var (id, t) := TemplateOf(lib, n, visited).value;
             Expanded(lib, t.nodes, t.entry, visited + [id], depth + 1).Err?
    ensures var item := ResolveItem(lib, n, visited, depth);
            item.Ok? ==> Collected(Block(items + [item.value], entry), |items| + 1).Err?
  {
    hide Flatten, AddCall;
    var item := ResolveItem(lib, n, visited, depth);
    if item.Ok? { StepCollected(items, item.value, entry); }
  }

  /** Collecting one more item on top of those collected so far. */
  lemma {:induction false} StepCollected(items: seq<Item>, item: Item, entry: string)
    requires Collected(Block(items, entry), |items|).Ok?
    ensures Collected(Block(items + [item], entry), |items| + 1) ==
              var parts := Collected(Block(items, entry), |items|).value;
              match item
              case Plain(n) => Ok(parts.(plain := parts.plain + [n]))
              case Call(n, params, body) =>
                match Flatten(body) case Err(e) => Err(e) case Ok(inner) => AddCall(parts, n, params, inner)
  {
    hide Flatten, AddCall;
    CollectedFromPrefix(Block(items, entry), Block(items + [item], entry), |items|);
  }

  // ---------------------------------------------------------------- compile_flow

  /** What the compiler asks of a node type. */
  datatype NodeClass = NodeClass(required: seq<string>, accepts: (string, map<string, Input>) -> bool, batchable: bool)

  type Registry = map<string, NodeClass>

  /** What a compilation is configured with: the node types, the cap on batches, the character classes of paths. */
  datatype Setup = Setup(registry: Registry, batchMax: int, alphabet: Paths.Alphabet)

  /** `_resolve_input`; None is a CompileError. */
  function CompileInput(input: InputSpec, ids: set<string>, ab: Paths.Alphabet): Option<Input> {
    match input
    case EnvName(name) => Some(EnvRef(name))
    case MalformedRef(_) => None
    case Ref(nodeId, port, path) =>
      if nodeId !in ids then None
      else
        (match Paths.Parse(ab, path)
         case None => None
         case Some(segments) => Some(PortRef(nodeId, port, segments)))
    case VarsTemplate(name) => Some(PortRef(VARS_NODE_ID, name, []))
    case ParamTemplate(_, text) => Some(Input.Literal(JStr(text)))
    case Literal(value) => Some(Input.Literal(value))
  }

  predicate PortsCompile(inputs: map<string, InputSpec>, ids: set<string>, ab: Paths.Alphabet) {
    forall port | port in inputs :: CompileInput(inputs[port], ids, ab).Some?
  }

  function CompiledPorts(inputs: map<string, InputSpec>, ids: set<string>, ab: Paths.Alphabet): map<string, Input>
    requires PortsCompile(inputs, ids, ab)
  {
    map port | port in inputs :: CompileInput(inputs[port], ids, ab).value
  }

  /** What every node and every batch leaf must meet: a known type that finds its required inputs and accepts them. */
  predicate TypeAccepts(id: string, nodeType: string, inputs: map<string, InputSpec>, ids: set<string>, setup: Setup) {
    && nodeType in setup.registry
    && PortsCompile(inputs, ids, setup.alphabet)
    && (forall port | port in setup.registry[nodeType].required :: port in inputs)
    && setup.registry[nodeType].accepts(id, CompiledPorts(inputs, ids, setup.alphabet))
  }

  lemma {:induction false} AcceptedHasPorts(id: string, nodeType: string, inputs: map<string, InputSpec>,
                                            ids: set<string>, setup: Setup)
    requires TypeAccepts(id, nodeType, inputs, ids, setup)
    ensures PortsCompile(inputs, ids, setup.alphabet) && nodeType in setup.registry
  {
  }

  // ---------------------------------------------------------------- batch containers

  predicate ChildCompiles(child: ChildSpec, ids: set<string>, setup: Setup) {
    && child.edges == map[] && child.onError.None?
    && TypeAccepts(child.id, child.nodeType, child.inputs, ids, setup)
    && setup.registry[child.nodeType].batchable
  }

  function CompileChild(parent: string, child: ChildSpec, ids: set<string>, ab: Paths.Alphabet): IRNode
    requires PortsCompile(child.inputs, ids, ab)
  {
    IRNode(Namespaced(parent, child.id), child.nodeType, CompiledPorts(child.inputs, ids, ab), child.accountRef, map[],
           None, None, None, NoChildren)
  }

  predicate ChildPortsCompile(n: NodeSpec, ids: set<string>, ab: Paths.Alphabet) {
    n.children.Some? ==> forall i | 0 <= i < |n.children.value| :: PortsCompile(n.children.value[i].inputs, ids, ab)
  }

  /** A batch fits the cap, its leaves have distinct ids, and each of them compiles. */
  predicate ChildrenCompile(n: NodeSpec, ids: set<string>, setup: Setup) {
    n.children.Some? ==>
      var children := n.children.value;
      && |children| <= setup.batchMax
      && (forall i, j | 0 <= i < j < |children| :: children[i].id != children[j].id)
      && forall i | 0 <= i < |children| :: ChildCompiles(children[i], ids, setup)
  }

  function CompiledChildren(n: NodeSpec, ids: set<string>, ab: Paths.Alphabet): Children
    requires ChildPortsCompile(n, ids, ab)
  {
    if n.children.None? then NoChildren
    else
      var children := n.children.value;
      Batch(seq(|children|, i requires 0 <= i < |children| => CompileChild(n.id, children[i], ids, ab)))
  }

  /** `_compile_batch_children`: the loop over the leaves; None is a CompileError. */
  method CompileBatch(n: NodeSpec, ids: set<string>, setup: Setup) returns (r: Option<Children>)
    ensures r.Some? <==> ChildrenCompile(n, ids, setup)
    ensures r.Some? ==> ChildPortsCompile(n, ids, setup.alphabet) && r.value == CompiledChildren(n, ids, setup.alphabet)
  {
    hide CompileChild, TypeAccepts, PortsCompile;
    if n.children.None? {
      return Some(NoChildren);
    }
    var children := n.children.value;
    if |children| > setup.batchMax {
      return None;
    }
    var compiled: seq<IRNode> := [];
    var seen: set<string> := {};
    for k := 0 to |children|
      invariant |compiled| == k && seen == set i | 0 <= i < k :: children[i].id
      invariant forall i, j | 0 <= i < j < k :: children[i].id != children[j].id
      invariant forall i | 0 <= i < k ::
                  ChildCompiles(children[i], ids, setup) && PortsCompile(children[i].inputs, ids, setup.alphabet)
      invariant forall i | 0 <= i < k :: compiled[i] == CompileChild(n.id, children[i], ids, setup.alphabet)
    {
      if children[k].id in seen || !ChildCompiles(children[k], ids, setup) {
        return None;
      }
      seen := seen + {children[k].id};
      AcceptedHasPorts(children[k].id, children[k].nodeType, children[k].inputs, ids, setup);
      compiled := compiled + [CompileChild(n.id, children[k], ids, setup.alphabet)];
    }
    assert compiled
        == seq(|children|, i requires 0 <= i < |children| => CompileChild(n.id, children[i], ids, setup.alphabet));
    r := Some(Batch(compiled));
  }

  // ---------------------------------------------------------------- nodes

  predicate GotoExists(n: NodeSpec, ids: set<string>) {
    n.stopCondition.Some? && n.stopCondition.value.action.Goto? ==>
      n.stopCondition.value.gotoNodeId.Some? && n.stopCondition.value.gotoNodeId.value in ids
  }

  predicate InputsCompile(n: NodeSpec, ids: set<string>, ab: Paths.Alphabet) {
    PortsCompile(n.inputs, ids, ab) && ChildPortsCompile(n, ids, ab)
  }

  /** The checks on the node itself. */
  predicate NodeItselfCompiles(n: NodeSpec, ids: set<string>, setup: Setup) {
    && TypeAccepts(n.id, n.nodeType, n.inputs, ids, setup)
    && n.edges.Values <= ids
    && (n.onError.Some? ==> n.onError.value in ids)
    && GotoExists(n, ids)
  }

  predicate NodeCompiles(n: NodeSpec, ids: set<string>, setup: Setup) {
    NodeItselfCompiles(n, ids, setup) && ChildrenCompile(n, ids, setup) && InputsCompile(n, ids, setup.alphabet)
  }

  function CompileNode(n: NodeSpec, ids: set<string>, ab: Paths.Alphabet): IRNode
    requires InputsCompile(n, ids, ab)
  {
    IRNode(n.id, n.nodeType, CompiledPorts(n.inputs, ids, ab), n.accountRef, n.edges, n.onError, n.timeoutS,
           n.stopCondition, CompiledChildren(n, ids, ab))
  }

  function IdsOf(nodes: seq<NodeSpec>): set<string> {
    set i | 0 <= i < |nodes| :: nodes[i].id
  }

  predicate AllCompile(nodes: seq<NodeSpec>, ids: set<string>, setup: Setup) {
    forall i | 0 <= i < |nodes| :: NodeCompiles(nodes[i], ids, setup)
  }

  predicate HaveInputs(nodes: seq<NodeSpec>, ids: set<string>, ab: Paths.Alphabet) {
    forall i | 0 <= i < |nodes| :: InputsCompile(nodes[i], ids, ab)
  }

  function CompiledNodes(nodes: seq<NodeSpec>, ids: set<string>, ab: Paths.Alphabet): seq<IRNode>
    requires HaveInputs(nodes, ids, ab)
  {
    seq(|nodes|, i requires 0 <= i < |nodes| => CompileNode(nodes[i], ids, ab))
  }

  /** The graph the cycle check searches. */
  function GraphOf(nodes: seq<IRNode>): CycleCheck.Graph {
    if nodes == [] then map[]
    else
      var last := nodes[|nodes| - 1];
      GraphOf(nodes[..|nodes| - 1])[last.id := CycleCheck.Targets(last)]
  }

  function NodesById(nodes: seq<IRNode>): map<string, IRNode> {
    if nodes == [] then map[] else NodesById(nodes[..|nodes| - 1])[nodes[|nodes| - 1].id := nodes[|nodes| - 1]]
  }

  /** Everything a flat graph must satisfy to compile. */
  ghost predicate Compilable(flat: Flat, setup: Setup) {
    var ids := IdsOf(flat.nodes);
    && Inlining.UniqueIds(flat.nodes)
    && flat.entry in ids
    && AllCompile(flat.nodes, ids, setup)
    && !CycleCheck.HasCycle(GraphOf(CompiledNodes(flat.nodes, ids, setup.alphabet)))
  }

  /** Duplicate ids, found by filling `by_id`. */
  method CollectIds(nodes: seq<NodeSpec>) returns (r: Result<set<string>>)
    ensures r.Ok? <==> Inlining.UniqueIds(nodes)
    ensures r.Ok? ==> r.value == IdsOf(nodes)
  {
    var ids: set<string> := {};
    for k := 0 to |nodes|
      invariant ids == set i | 0 <= i < k :: nodes[i].id
      invariant forall i, j | 0 <= i < j < k :: nodes[i].id != nodes[j].id
    {
      if nodes[k].id in ids {
        return Err("duplicate node id");
      }
      ids := ids + {nodes[k].id};
    }
    r := Ok(ids);
  }

  lemma {:induction false} GraphOfOneMore(nodes: seq<IRNode>, n: IRNode)
    ensures GraphOf(nodes + [n]) == GraphOf(nodes)[n.id := CycleCheck.Targets(n)]
  {
    assert (nodes + [n])[..|nodes|] == nodes;
  }

  /** The loop over the nodes stops at the first one that does not compile. */
  method CompileNodes(nodes: seq<NodeSpec>, ids: set<string>, setup: Setup)
    returns (r: Result<seq<IRNode>>, graph: CycleCheck.Graph, failing: nat)
    ensures r.Ok? <==> AllCompile(nodes, ids, setup)
    ensures r.Ok? ==> HaveInputs(nodes, ids, setup.alphabet)
    ensures r.Ok? ==> r.value == CompiledNodes(nodes, ids, setup.alphabet) && graph == GraphOf(r.value)
    ensures r.Err? ==> failing < |nodes| && !NodeCompiles(nodes[failing], ids, setup)
    ensures r.Err? ==> forall i | 0 <= i < failing :: NodeCompiles(nodes[i], ids, setup)
  {
    hide TypeAccepts, ChildrenCompile, GotoExists, ChildPortsCompile, CompiledPorts, CompiledChildren, PortsCompile;
    var compiled: seq<IRNode> := [];
    graph, failing := map[], 0;
    assert graph == GraphOf(compiled);
    hide GraphOf, CycleCheck.Targets;
    for k := 0 to |nodes|
      invariant |compiled| == k && graph == GraphOf(compiled)
      invariant forall i | 0 <= i < k ::
                  NodeCompiles(nodes[i], ids, setup) && InputsCompile(nodes[i], ids, setup.alphabet)
      invariant forall i | 0 <= i < k :: compiled[i] == CompileNode(nodes[i], ids, setup.alphabet)
    {
      var spec := nodes[k];
      if !NodeItselfCompiles(spec, ids, setup) {
        return Err("node does not compile"), graph, k;
      }
      AcceptedHasPorts(spec.id, spec.nodeType, spec.inputs, ids, setup);
      var children := CompileBatch(spec, ids, setup);
      if children.None? {
        return Err("batch does not compile"), graph, k;
      }
      var n := IRNode(spec.id, spec.nodeType, CompiledPorts(spec.inputs, ids, setup.alphabet), spec.accountRef,
                      spec.edges, spec.onError, spec.timeoutS, spec.stopCondition, children.value);
      GraphOfOneMore(compiled, n);
      compiled := compiled + [n];
      graph := graph[n.id := CycleCheck.Targets(n)];
    }
    assert compiled == CompiledNodes(nodes, ids, setup.alphabet);
    r := Ok(compiled);
  }

  /** The ids of the compiled graph, in the order of its nodes. */
  function Order(nodes: seq<IRNode>): seq<string> {
    seq(|nodes|, i requires 0 <= i < |nodes| => nodes[i].id)
  }

  lemma {:induction false} GraphKeys(nodes: seq<IRNode>)
    ensures forall id :: id in GraphOf(nodes) <==> id in Order(nodes)
    ensures forall id | id in GraphOf(nodes) :: id !in GraphOf(nodes)[id]
  {
    if nodes != [] {
      var front := nodes[..|nodes| - 1];
      GraphKeys(front);
      assert Order(nodes) == Order(front) + [nodes[|nodes| - 1].id];
    }
  }

  /** `compile_flow`: it succeeds exactly on flows that expand to a compilable graph, and a success comes with a
      height for every node that all its control-flow links go down from. */
  method CompileFlow(nodes: seq<NodeSpec>, entry: string, testnet: bool, setup: Setup, lib: Library)
    returns (r: Result<FlowIR>, ghost height: map<string, int>)
    ensures var flat := Expanded(lib, nodes, entry, [], 0);
            && (r.Ok? <==> flat.Ok? && Compilable(flat.value, setup))
            && (r.Ok? ==> r.value == FlowIR(CompiledNodes(flat.value.nodes, IdsOf(flat.value.nodes), setup.alphabet),
                                            flat.value.entry, testnet))
    ensures r.Ok? ==>
              var g := GraphOf(r.value.nodes); g.Keys <= height.Keys && CycleCheck.GoesDown(g, height, height.Keys)
  {
    hide Expanded, CycleCheck.GoesDown, CycleCheck.HasCycle, NodeCompiles;
    height := map[];
    var flat := ExpandComposites(lib, nodes, entry, [], 0);
    if flat.Err? {
      return Err(flat.error), height;
    }
    var ids := CollectIds(flat.value.nodes);
    if ids.Err? {
      return Err(ids.error), height;
    }
    if flat.value.entry !in ids.value {
      return Err("entry node not found"), height;
    }
    var compiled, graph, _ := CompileNodes(flat.value.nodes, ids.value, setup);
    if compiled.Err? {
      return Err(compiled.error), height;
    }
    GraphKeys(compiled.value);
    var search := new CycleCheck.Search(graph);
    var ok := search.Acyclic(Order(compiled.value));
    if !ok {
      return Err("cycle detected"), height;
    }
    search.Heights();
    height := search.height;
    r := Ok(FlowIR(compiled.value, flat.value.entry, testnet));
  }

  // ---------------------------------------------------------------- what the interpreter gets

  lemma {:induction false} ById(nodes: seq<IRNode>, i: nat)
    requires i < |nodes| && forall j, k | 0 <= j < k < |nodes| :: nodes[j].id != nodes[k].id
    ensures nodes[i].id in NodesById(nodes) && NodesById(nodes)[nodes[i].id] == nodes[i]
    ensures nodes[i].id in GraphOf(nodes) && GraphOf(nodes)[nodes[i].id] == CycleCheck.Targets(nodes[i])
  {
    var front := nodes[..|nodes| - 1];
    if i < |nodes| - 1 { ById(front, i); assert front[i] == nodes[i]; }
  }

  lemma {:induction false} OnlyListed(nodes: seq<IRNode>, id: string) returns (i: nat)
    requires id in NodesById(nodes)
    ensures i < |nodes| && nodes[i].id == id && NodesById(nodes)[id] == nodes[i]
  {
    var front := nodes[..|nodes| - 1];
    if nodes[|nodes| - 1].id == id {
      i := |nodes| - 1;
    } else {
      i := OnlyListed(front, id);
    }
  }

  /** Compiled ids are distinct, and every id of the flat graph is found. */
  lemma {:induction false} CompiledIds(flat: Flat, setup: Setup)
    requires Compilable(flat, setup)
    ensures var irs := CompiledNodes(flat.nodes, IdsOf(flat.nodes), setup.alphabet);
            && (forall j, k | 0 <= j < k < |irs| :: irs[j].id != irs[k].id)
            && NodesById(irs).Keys == IdsOf(flat.nodes)
  {
    var ids := IdsOf(flat.nodes);
    var irs := CompiledNodes(flat.nodes, ids, setup.alphabet);
    assert forall j | 0 <= j < |irs| :: irs[j].id == flat.nodes[j].id;
    forall id | id in ids
      ensures id in NodesById(irs)
    {
      var i :| 0 <= i < |flat.nodes| && flat.nodes[i].id == id;
      ById(irs, i);
    }
    forall id | id in NodesById(irs)
      ensures id in ids
    {
      var i := OnlyListed(irs, id);
      assert flat.nodes[i].id == id;
    }
  }

  /** A compiled graph is closed: the interpreter finds the entry, and the target of every edge and goto. */
  lemma {:induction false} CompiledGraphIsClosed(flat: Flat, setup: Setup)
    requires Compilable(flat, setup)
    ensures var nodes := NodesById(CompiledNodes(flat.nodes, IdsOf(flat.nodes), setup.alphabet));
            SafeWalk.ClosedGraph(nodes) && flat.entry in nodes
  {
    var ids := IdsOf(flat.nodes);
    var irs := CompiledNodes(flat.nodes, ids, setup.alphabet);
    CompiledIds(flat, setup);
    forall id | id in NodesById(irs)
      ensures NodesById(irs)[id].id == id && SafeWalk.TargetsIn(ids, NodesById(irs)[id])
    {
      var i := OnlyListed(irs, id);
      assert NodeCompiles(flat.nodes[i], ids, setup);
      assert irs[i] == CompileNode(flat.nodes[i], ids, setup.alphabet);
    }
  }

  predicate NoGotoNoSelfLoopNoVars(nodes: map<string, IRNode>) {
    && VARS_NODE_ID !in nodes
    && forall id | id in nodes ::
         && (nodes[id].stopCondition.Some? ==> !nodes[id].stopCondition.value.action.Goto?)
         && id !in nodes[id].edges.Values
  }

  /** Without gotos, self-loops and a node called `vars`, the heights of the cycle check rank the graph. */
  lemma {:induction false} CompiledGraphIsRanked(flat: Flat, setup: Setup, height: map<string, int>)
    requires Compilable(flat, setup)
    requires var g := GraphOf(CompiledNodes(flat.nodes, IdsOf(flat.nodes), setup.alphabet));
             g.Keys <= height.Keys && CycleCheck.GoesDown(g, height, height.Keys)
    requires NoGotoNoSelfLoopNoVars(NodesById(CompiledNodes(flat.nodes, IdsOf(flat.nodes), setup.alphabet)))
    ensures SafeWalk.Ranked(NodesById(CompiledNodes(flat.nodes, IdsOf(flat.nodes), setup.alphabet)), height)
  {
    hide NodesById, GraphOf, CycleCheck.GoesDown;
    var irs := CompiledNodes(flat.nodes, IdsOf(flat.nodes), setup.alphabet);
    var nodes := NodesById(irs);
    CompiledIds(flat, setup);
    CompiledGraphIsClosed(flat, setup);
    forall id, l | id in nodes && l in nodes[id].edges
      ensures SafeWalk.RankOf(height, nodes[id].edges[l]) < SafeWalk.RankOf(height, id)
    {
      EdgeGoesDown(irs, height, id, l);
    }
  }

  lemma {:induction false} EdgeGoesDown(irs: seq<IRNode>, height: map<string, int>, id: string, l: string)
    requires forall j, k | 0 <= j < k < |irs| :: irs[j].id != irs[k].id
    requires GraphOf(irs).Keys <= height.Keys && CycleCheck.GoesDown(GraphOf(irs), height, height.Keys)
    requires NoGotoNoSelfLoopNoVars(NodesById(irs)) && SafeWalk.ClosedGraph(NodesById(irs))
    requires id in NodesById(irs) && l in NodesById(irs)[id].edges
    ensures SafeWalk.RankOf(height, NodesById(irs)[id].edges[l]) < SafeWalk.RankOf(height, id)
  {
    hide NodesById, GraphOf;
    var nodes := NodesById(irs);
    var i := OnlyListed(irs, id);
    ById(irs, i);
    var t := nodes[id].edges[l];
    assert SafeWalk.TargetsIn(nodes.Keys, nodes[id]);
    assert t in nodes[id].edges.Values;
    assert t in CycleCheck.Targets(irs[i]);
    assert t in CycleCheck.Links(GraphOf(irs), id);
  }

  /** Compiling a flow with composites keeps its walks: they are those of the nested calls. */
  lemma {:induction false} CompilingPreservesWalks(lib: Library, nodes: seq<NodeSpec>, entry: string, setup: Setup,
                                                   b: Block, labels: seq<string>)
    requires Resolve(lib, nodes, entry, [], 0) == Ok(b) && Flatten(b).Ok? && Compilable(Flatten(b).value, setup)
    requires Inlining.RawIds(b) && Inlining.DistinctIds(b)
    ensures Expanded(lib, nodes, entry, [], 0) == Flatten(b) && Arrive(b, b.entry).Some?
    ensures var flat := Flatten(b).value;
            FlatWalk(flat.nodes, flat.entry, labels) == Inlining.Names(NestedWalk(b, Arrive(b, b.entry).value, labels))
  {
    hide Flatten, Inlining.RawIds, Inlining.DistinctIds;
    var flat := Flatten(b).value;
    var ids := IdsOf(flat.nodes);
    forall i, l | 0 <= i < |flat.nodes| && l in flat.nodes[i].edges
      ensures Inlining.Has(flat.nodes, flat.nodes[i].edges[l])
    {
      assert NodeCompiles(flat.nodes[i], ids, setup);
      assert flat.nodes[i].edges[l] in ids;
    }
    Inlining.InliningPreservesWalks(b, labels);
  }

  /** Compiling a flow with composites keeps what every node reads: the node compiled for a place of the nested
      calls has the same ports, each naming the node and port that the nested input reads. */
  lemma {:induction false} CompilingPreservesWiring(b: Block, setup: Setup, place: Place, port: string)
    returns (n: NodeSpec)
    requires Flatten(b).Ok? && Compilable(Flatten(b).value, setup)
    requires Inlining.RawIds(b) && Inlining.DistinctIds(b) && Wiring.RawWiring(b) && Inlining.ValidPlace(b, place)
    ensures n in Flatten(b).value.nodes && n.id == Name(place)
    ensures if port in n.inputs then Wiring.Means(b, n.inputs[port], Wiring.Reads(b, place, port))
            else Wiring.Reads(b, place, port).Dangling?
  {
    hide Flatten, Inlining.RawIds, Inlining.DistinctIds, Wiring.RawWiring, Wiring.Means, Wiring.Reads,
        Inlining.ValidPlace;
    n := Wiring.InliningPreservesWiring(b, place, port);
    var flat := Flatten(b).value;
    var ids := IdsOf(flat.nodes);
    var i :| 0 <= i < |flat.nodes| && flat.nodes[i] == n;
    assert NodeCompiles(flat.nodes[i], ids, setup);
    if port in n.inputs {
      assert CompileInput(n.inputs[port], ids, setup.alphabet).Some?;
      assert n.inputs[port].Ref? ==> n.inputs[port].nodeId in ids;
    }
  }
}
