/**
  Flows with composite calls. A block is a node list in which every call carries the block of its template;
  flattening it is what the compiler does, and walking it as nested calls is what a caller means by it.
*/
module Blocks {
  import opened Base
  import opened JsonValues
  import opened Ir

  /** An input as written: the two template literals and the parts of a reference are told apart by their text. */
  datatype InputSpec =
    | Literal(value: Json)
    | ParamTemplate(name: string, text: string)
    | VarsTemplate(name: string)
    | Ref(nodeId: string, port: string, path: string)
    | MalformedRef(text: string)
    | EnvName(name: string)

  datatype NodeSpec = NodeSpec(
    id: string,
    nodeType: string,
    inputs: map<string, InputSpec>,
    accountRef: Option<AccountId>,
    edges: map<string, string>,
    onError: Option<string>,
    timeoutS: Option<int>,
    stopCondition: Option<StopCondition>,
    children: Option<seq<ChildSpec>>)

  /** A leaf of a batch container; what the compiler ignores of it is left out. */
  datatype ChildSpec = ChildSpec(
    id: string,
    nodeType: string,
    inputs: map<string, InputSpec>,
    accountRef: Option<AccountId>,
    edges: map<string, string>,
    onError: Option<string>)

  /** A declared output of a template, and the inner port it stands for, if any. */
  datatype OutputParam = OutputParam(name: string, source: Option<(string, string)>)

  datatype Item =
    | Plain(node: NodeSpec)
    | Call(node: NodeSpec, outputs: seq<OutputParam>, body: Block)

  datatype Block = Block(items: seq<Item>, entry: string)

  // ---------------------------------------------------------------- flattening

  function Namespaced(prefix: string, id: string): string {
    prefix + "::" + id
  }

  /** `_rewrite_param_ref`; None when the caller does not wire the parameter. */
  function RewriteInput(input: InputSpec, caller: NodeSpec): Option<InputSpec> {
    match input
    case Ref(nodeId, port, path) =>
      Some(if nodeId == VARS_NODE_ID then input else Ref(Namespaced(caller.id, nodeId), port, path))
    case ParamTemplate(name, _) => Lookup(caller.inputs, name)
    case _ => Some(input)
  }

  predicate ParamsWired(n: NodeSpec, caller: NodeSpec) {
    forall port | port in n.inputs :: RewriteInput(n.inputs[port], caller).Some?
  }

  /** One inner node spliced into the caller's graph. */
  function Inline(n: NodeSpec, caller: NodeSpec): NodeSpec
    requires ParamsWired(n, caller)
  {
    var leaf := n.edges == map[];
    NodeSpec(
      Namespaced(caller.id, n.id),
      n.nodeType,
      map port | port in n.inputs :: RewriteInput(n.inputs[port], caller).value,
      n.accountRef,
      if leaf then caller.edges else map l | l in n.edges :: Namespaced(caller.id, n.edges[l]),
      if n.onError.Some? then Some(Namespaced(caller.id, n.onError.value)) else if leaf then caller.onError else None,
      None,
      None,
      None)
  }

  function InlineAll(nodes: seq<NodeSpec>, caller: NodeSpec): Result<seq<NodeSpec>> {
    if forall i | 0 <= i < |nodes| :: ParamsWired(nodes[i], caller) then
      Ok(seq(|nodes|, i requires 0 <= i < |nodes| => Inline(nodes[i], caller)))
    else Err("composite param not wired by caller")
  }

  /** The redirections that a node list collects: call id to inlined entry, call output to inner port. */
  datatype Parts = Parts(
    plain: seq<NodeSpec>,
    inlined: seq<NodeSpec>,
    entries: map<string, string>,
    outputs: map<(string, string), (string, string)>)

  datatype Flat = Flat(nodes: seq<NodeSpec>, entry: string)

  function Redirected(entries: map<string, string>, id: string): string {
    if id in entries then entries[id] else id
  }

  function RedirectInput(input: InputSpec, outputs: map<(string, string), (string, string)>): InputSpec {
    if input.Ref? && (input.nodeId, input.port) in outputs then
      var (nodeId, port) := outputs[(input.nodeId, input.port)];
      Ref(nodeId, port, input.path)
    else input
  }

  /** `_redirect_node`. */
  function RedirectNode(n: NodeSpec, parts: Parts): NodeSpec {
    n.(inputs := map port | port in n.inputs :: RedirectInput(n.inputs[port], parts.outputs),
       edges := map l | l in n.edges :: Redirected(parts.entries, n.edges[l]),
       onError := if n.onError.Some? && n.onError.value != "" then Some(Redirected(parts.entries, n.onError.value))
           else None)
  }

  function AddOutputs(outputs: map<(string, string), (string, string)>, callId: string, params: seq<OutputParam>)
    : map<(string, string), (string, string)>
  {
    if params == [] then outputs
    else
      var rest := AddOutputs(outputs, callId, params[..|params| - 1]);
      var param := params[|params| - 1];
      if param.source.None? then rest
      else rest[(callId, param.name) := (Namespaced(callId, param.source.value.0), param.source.value.1)]
  }

  /** One round of the compiler's loop over the nodes, for a call whose body has been flattened. */
  function AddCall(parts: Parts, caller: NodeSpec, params: seq<OutputParam>, inner: Flat): Result<Parts> {
    match InlineAll(inner.nodes, caller)
    case Err(e) => Err(e)
    case Ok(nodes) =>
      Ok(Parts(parts.plain, parts.inlined + nodes,
               parts.entries[caller.id := Namespaced(caller.id, inner.entry)],
               AddOutputs(parts.outputs, caller.id, params)))
  }

  /** What the loop has collected after the first `k` items. */
  function Collected(b: Block, k: nat): Result<Parts>
    requires k <= |b.items|
    decreases b, 0, k
  {
    if k == 0 then Ok(Parts([], [], map[], map[]))
    else
      match Collected(b, k - 1)
      case Err(e) => Err(e)
      case Ok(parts) =>
        match b.items[k - 1]
        case Plain(n) => Ok(parts.(plain := parts.plain + [n]))
        case Call(n, params, body) =>
          match Flatten(body)
          case Err(e) => Err(e)
          case Ok(inner) => AddCall(parts, n, params, inner)
  }

  function Assemble(parts: Parts, entry: string): Flat {
    Flat(seq(|parts.plain|, i requires 0 <= i < |parts.plain| => RedirectNode(parts.plain[i], parts)) + parts.inlined,
         Redirected(parts.entries, entry))
  }

  /** The flat graph of a block. */
  function Flatten(b: Block): Result<Flat>
    decreases b, 1
  {
    match Collected(b, |b.items|)
    case Err(e) => Err(e)
    case Ok(parts) => Ok(Assemble(parts, b.entry))
  }

  // ---------------------------------------------------------------- the nested walk

  /** A place in nested calls: the ids of the calls that are open, outermost first, then a plain node. */
  type Place = seq<string>

  function IndexOf(b: Block, id: string): (i: nat)
    ensures i <= |b.items|
    ensures i < |b.items| ==> b.items[i].node.id == id
    ensures forall j | 0 <= j < i :: b.items[j].node.id != id
  {
    IndexFrom(b, id, 0)
  }

  function IndexFrom(b: Block, id: string, k: nat): (i: nat)
    requires k <= |b.items|
    ensures k <= i <= |b.items|
    ensures i < |b.items| ==> b.items[i].node.id == id
    ensures forall j | k <= j < i :: b.items[j].node.id != id
    decreases |b.items| - k
  {
    if k == |b.items| || b.items[k].node.id == id then k else IndexFrom(b, id, k + 1)
  }

  /** Where control arrives when it is sent to `id`: calls are entered at the entry of their template. */
  function Arrive(b: Block, id: string): Option<Place>
    decreases b
  {
    var i := IndexOf(b, id);
    if i == |b.items| then None
    else
      match b.items[i]
      case Plain(_) => Some([id])
      case Call(_, _, body) =>
        match Arrive(body, body.entry)
        case None => None
        case Some(inner) => Some([id] + inner)
  }

  /** A step: to another place, nowhere for want of such an edge, out of the block, or to a node that is missing. */
  datatype Move = Go(place: Place) | Halt | Exit | Lost

  /** Following the own edges of a node or of a call that has been left. */
  function Leave(b: Block, n: NodeSpec, l: string): Move {
    if n.edges == map[] then Exit
    else if l !in n.edges then Halt
    else
      match Arrive(b, n.edges[l])
      case None => Lost
      case Some(place) => Go(place)
  }

  /** A node without edges is an exit of its template: from there the caller's edges decide. */
  function Next(b: Block, place: Place, l: string): Move
    decreases b
  {
    if place == [] then Lost
    else
      var i := IndexOf(b, place[0]);
      if i == |b.items| then Lost
      else
        match b.items[i]
        case Plain(n) => if |place| == 1 then Leave(b, n, l) else Lost
        case Call(n, _, body) =>
          match Next(body, place[1..], l)
          case Go(inner) => Go([n.id] + inner)
          case Halt => Halt
          case Lost => Lost
          case Exit => Leave(b, n, l)
  }

  /** The places visited when nodes choose the edges `labels` in turn. */
  function NestedWalk(b: Block, place: Place, labels: seq<string>): seq<Place>
    decreases |labels|
  {
    if labels == [] then [place]
    else
      match Next(b, place, labels[0])
      case Go(next) => [place] + NestedWalk(b, next, labels[1..])
      case _ => [place]
  }

  // ---------------------------------------------------------------- the flat walk

  function NodeIndex(nodes: seq<NodeSpec>, id: string): (i: nat)
    ensures i <= |nodes|
    ensures i < |nodes| ==> nodes[i].id == id
    ensures i == |nodes| ==> forall j | 0 <= j < |nodes| :: nodes[j].id != id
  {
    if nodes == [] then 0
    else if nodes[0].id == id then 0
    else
      assert forall j | 1 <= j < |nodes| :: nodes[j] == nodes[1..][j - 1];
      1 + NodeIndex(nodes[1..], id)
  }

  function FlatWalk(nodes: seq<NodeSpec>, id: string, labels: seq<string>): seq<string>
    decreases |labels|
  {
    var i := NodeIndex(nodes, id);
    if labels == [] || i == |nodes| || labels[0] !in nodes[i].edges then [id]
    else [id] + FlatWalk(nodes, nodes[i].edges[labels[0]], labels[1..])
  }

  /** The flat id of a place. */
  function Name(place: Place): string {
    if place == [] then ""
    else if |place| == 1 then place[0]
    else Namespaced(place[0], Name(place[1..]))
  }
}
