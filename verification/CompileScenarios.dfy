/** A concrete flow in which a plain node and a call have the same id: it compiles, and the plain node is lost. */
module CompileScenarios {
  import opened Base
  import opened Ir
  import opened Blocks
  import opened Compiler
  import CycleCheck
  import Inlining
  import Paths

  function Spec(id: string, nodeType: string, edges: map<string, string>): NodeSpec {
    NodeSpec(id, nodeType, map[], None, edges, None, None, None, None)
  }

  const FIRST: NodeSpec := Spec("e", "step", map["next" := "x"])
  const PLAIN: NodeSpec := Spec("x", "step", map[])
  const CALL: NodeSpec := Spec("x", "custom.t", map[])
  const INNER: NodeSpec := Spec("y", "step", map[])

  const TEMPLATE := Template([INNER], "y", [])
  const LIBRARY := Library(id => Some(id), Some(id => Some(TEMPLATE)))
  const SETUP := Setup(map["step" := NodeClass([], (id, inputs) => true, false)], 50, Paths.ASCII)

  const BODY := Block([Plain(INNER)], "y")
  const FLOW := Block([Plain(FIRST), Plain(PLAIN), Call(CALL, [], BODY)], "e")

  /** The flow as it comes out of the expansion. */
  const FLAT := Flat([Spec("e", "step", map["next" := "x::y"]), PLAIN, Spec("x::y", "step", map[])], "e")

  lemma {:induction false} OneMoreItem(nodes: seq<NodeSpec>, k: nat, visited: seq<string>, depth: nat,
                                       items: seq<Item>, item: Item)
    requires k < |nodes| && depth <= MAX_COMPOSITE_DEPTH
    requires ResolveItems(LIBRARY, nodes, k, visited, depth) == Ok(items)
    requires ResolveItem(LIBRARY, nodes[k], visited, depth) == Ok(item)
    ensures ResolveItems(LIBRARY, nodes, k + 1, visited, depth) == Ok(items + [item])
  {
    hide ResolveItem;
  }

  lemma {:induction false} BodyResolves()
    ensures Resolve(LIBRARY, [INNER], "y", ["t"], 1) == Ok(BODY)
  {
    assert !IsCompositeCall(INNER);
    OneMoreItem([INNER], 0, ["t"], 1, [], Plain(INNER));
    assert [] + [Plain(INNER)] == BODY.items;
  }

  lemma {:induction false} CallResolves()
    ensures ResolveItem(LIBRARY, CALL, [], 0) == Ok(Call(CALL, [], BODY))
  {
    BodyResolves();
    assert CALL.nodeType[|CUSTOM_PREFIX|..] == "t" && CUSTOM_PREFIX <= CALL.nodeType;
    assert [] + ["t"] == ["t"];
    hide Resolve;
  }

  lemma {:induction false} FlowResolves()
    ensures Resolve(LIBRARY, [FIRST, PLAIN, CALL], "e", [], 0) == Ok(FLOW)
  {
    CallResolves();
    var nodes := [FIRST, PLAIN, CALL];
    assert !IsCompositeCall(FIRST) && !IsCompositeCall(PLAIN);
    assert ResolveItem(LIBRARY, FIRST, [], 0) == Ok(Plain(FIRST))
           && ResolveItem(LIBRARY, PLAIN, [], 0) == Ok(Plain(PLAIN));
    hide ResolveItem;
    OneMoreItem(nodes, 0, [], 0, [], Plain(FIRST));
    OneMoreItem(nodes, 1, [], 0, [] + [Plain(FIRST)], Plain(PLAIN));
    OneMoreItem(nodes, 2, [], 0, [] + [Plain(FIRST)] + [Plain(PLAIN)], Call(CALL, [], BODY));
    assert [] + [Plain(FIRST)] + [Plain(PLAIN)] + [Call(CALL, [], BODY)] == FLOW.items;
  }

  lemma {:induction false} BodyFlattens()
    ensures Flatten(BODY) == Ok(Flat([INNER], "y"))
  {
    StepCollected([], Plain(INNER), "y");
    assert [] + [Plain(INNER)] == BODY.items && [] + [INNER] == [INNER];
    var parts := Parts([INNER], [], map[], map[]);
    assert RedirectNode(INNER, parts) == INNER;
    assert Assemble(parts, "y").nodes == [INNER];
    FlattenedFrom(BODY);
  }

  lemma {:induction false} CallIsInlined()
    ensures InlineAll([INNER], CALL) == Ok([Spec("x::y", "step", map[])])
  {
    assert ParamsWired(INNER, CALL);
    assert "x" + "::" + "y" == "x::y";
    assert Inline(INNER, CALL) == Spec("x::y", "step", map[]);
    assert InlineAll([INNER], CALL).value == [Inline(INNER, CALL)];
  }

  const PARTS := Parts([FIRST, PLAIN], [Spec("x::y", "step", map[])], map["x" := "x::y"], map[])

  lemma {:induction false} FlowIsCollected()
    ensures Collected(FLOW, 3) == Ok(PARTS)
  {
    BodyFlattens();
    CallIsInlined();
    assert "x" + "::" + "y" == "x::y";
    hide Flatten, InlineAll;
    StepCollected([], Plain(FIRST), "e");
    StepCollected([] + [Plain(FIRST)], Plain(PLAIN), "e");
    StepCollected([] + [Plain(FIRST)] + [Plain(PLAIN)], Call(CALL, [], BODY), "e");
    assert [] + [Plain(FIRST)] + [Plain(PLAIN)] + [Call(CALL, [], BODY)] == FLOW.items;
    assert [] + [FIRST] + [PLAIN] == PARTS.plain && [] + PARTS.inlined == PARTS.inlined;
  }

  lemma {:induction false} FlowFlattens()
    ensures Flatten(FLOW) == Ok(FLAT)
  {
    FlowIsCollected();
    assert RedirectNode(FIRST, PARTS) == FLAT.nodes[0] && RedirectNode(PLAIN, PARTS) == PLAIN;
    assert Assemble(PARTS, "e").nodes == FLAT.nodes;
    FlattenedFrom(FLOW);
    hide Flatten, Collected;
  }

  /** No link leads back: the first node lies above the two others. */
  lemma {:induction false} FlatHasNoCycle()
    ensures HaveInputs(FLAT.nodes, IdsOf(FLAT.nodes), SETUP.alphabet)
    ensures !CycleCheck.HasCycle(GraphOf(CompiledNodes(FLAT.nodes, IdsOf(FLAT.nodes), SETUP.alphabet)))
  {
    var ids := IdsOf(FLAT.nodes);
    var irs := CompiledNodes(FLAT.nodes, ids, SETUP.alphabet);
    var height := map["e" := 1, "x" := 0, "x::y" := 0];
    assert irs[0].edges == map["next" := "x::y"] && irs[1].edges == map[] && irs[2].edges == map[];
    assert CycleCheck.Targets(irs[1]) == {} && CycleCheck.Targets(irs[2]) == {};
    assert irs[..3] == irs && irs[..3][..2] == irs[..2] && irs[..2][..1] == irs[..1] && irs[..1][..0] == [];
    var g := GraphOf(irs);
    assert GraphOf(irs[..0]) == map[];
    assert GraphOf(irs[..1]) == map["e" := CycleCheck.Targets(irs[0])];
    assert GraphOf(irs[..2]) == GraphOf(irs[..1])["x" := {}];
    assert g == GraphOf(irs[..2])["x::y" := {}];
    assert CycleCheck.GoesDown(g, height, height.Keys);
    CycleCheck.NoCycleFromHeights(g, height, height.Keys);
  }

  lemma {:induction false} FlatNodesCompile()
    ensures IdsOf(FLAT.nodes) == {"e", "x", "x::y"} && AllCompile(FLAT.nodes, IdsOf(FLAT.nodes), SETUP)
    ensures Inlining.UniqueIds(FLAT.nodes)
  {
    assert FLAT.nodes[0].id == "e" && FLAT.nodes[1].id == "x" && FLAT.nodes[2].id == "x::y";
    assert forall i | 0 <= i < |FLAT.nodes| :: forall v | v in FLAT.nodes[i].edges.Values :: v == "x::y";
  }

  /** The shared id goes unnoticed: the flow expands and compiles, the plain node is part of it, and the edge that
      was to lead to it leads into the call. */
  lemma {:induction false} SharedIdCompiles()
    ensures Expanded(LIBRARY, [FIRST, PLAIN, CALL], "e", [], 0) == Ok(FLAT) && Compilable(FLAT, SETUP)
    ensures FIRST.edges["next"] == PLAIN.id == CALL.id
    ensures PLAIN in FLAT.nodes && FLAT.nodes[0].id == FIRST.id && FLAT.nodes[0].edges["next"] == "x::y"
  {
    FlowResolves();
    FlowFlattens();
    FlatNodesCompile();
    FlatHasNoCycle();
    hide Resolve, Flatten, AllCompile, GraphOf, CompiledNodes, CycleCheck.HasCycle, IdsOf;
    assert FLAT.nodes[1] == PLAIN;
  }
}
