/** The stored JSON form of a compiled graph: encoding, decoding, and rows written before later fields existed. */
module IrCodec {
  import opened Base
  import opened JsonValues
  import opened Ir

  function OptionalString(s: Option<string>): Json {
    match s
    case None => JNull
    case Some(text) => JStr(text)
  }

  function SegmentToJson(segment: Segment): Json {
    match segment
    case Field(name) => JObj(map["kind" := JStr("field"), "name" := JStr(name)])
    case Index(i) => JObj(map["kind" := JStr("index"), "index" := JInt(i)])
  }

  function InputToJson(input: Input): Json {
    match input
    case PortRef(nodeId, port, path) =>
      JObj(map["kind" := JStr("ref"), "node_id" := JStr(nodeId), "port" := JStr(port),
               "path" := JArr(seq(|path|, i requires 0 <= i < |path| => SegmentToJson(path[i])))])
    case EnvRef(name) => JObj(map["kind" := JStr("env"), "name" := JStr(name)])
    case Literal(value) => JObj(map["kind" := JStr("literal"), "value" := value])
  }

  function StopConditionToJson(sc: Option<StopCondition>): Json {
    match sc
    case None => JNull
    case Some(StopCondition(outputKey, equals, action, goto)) =>
      JObj(map["output_key" := JStr(outputKey), "equals" := equals,
               "action" := JStr(if action.AbortRun? then "abort" else "goto"), "goto_node_id" := OptionalString(goto)])
  }

  /** The fields of a stored node. */
  function Row(n: IRNode): map<string, Json>
    decreases n, 1
  {
    map["id" := JStr(n.id),
        "type" := JStr(n.nodeType),
        "inputs" := JObj(map port | port in n.inputs :: InputToJson(n.inputs[port])),
        "account_ref" := OptionalString(n.accountRef),
        "edges" := JObj(map l | l in n.edges :: JStr(n.edges[l])),
        "on_error" := OptionalString(n.onError),
        "timeout_s" := if n.timeoutS.Some? then JInt(n.timeoutS.value) else JNull,
        "stop_condition" := StopConditionToJson(n.stopCondition),
        "children" := ChildrenToJson(n)]
  }

  function ChildrenToJson(n: IRNode): Json
    decreases n, 0
  {
    if n.children.NoChildren? then JNull
    else
      var children := n.children.nodes;
      JArr(seq(|children|, i requires 0 <= i < |children| => ToJson(children[i])))
  }

  /** `_ir_node_to_json`. */
  function ToJson(n: IRNode): Json
    decreases n, 2
  {
    JObj(Row(n))
  }

  // ---------------------------------------------------------------- decoding

  /** `data.get(key)`: an absent key reads as null. */
  function Get(fields: map<string, Json>, key: string): Json {
    if key in fields then fields[key] else JNull
  }

  function Text(fields: map<string, Json>, key: string): Option<string> {
    if key in fields && fields[key].JStr? then Some(fields[key].s) else None
  }

  /** A nullable string field; None when it holds anything else. */
  function OptionalText(j: Json): Option<Option<string>> {
    match j
    case JNull => Some(None)
    case JStr(s) => Some(Some(s))
    case _ => None
  }

  function SegmentFromJson(j: Json): Option<Segment> {
    if !j.JObj? then None
    else if Text(j.fields, "kind") == Some("field") then
      (match Text(j.fields, "name") case None => None case Some(name) => Some(Field(name)))
    else if "index" in j.fields && j.fields["index"].JInt? then Some(Index(j.fields["index"].i))
    else None
  }

  function SegmentsFromJson(elements: seq<Json>): Option<seq<Segment>> {
    if elements == [] then Some([])
    else
      match (SegmentFromJson(elements[0]), SegmentsFromJson(elements[1..]))
      case (Some(first), Some(rest)) => Some([first] + rest)
      case _ => None
  }

  /** Rows older than paths have no "path" key; an absent path is an empty one. */
  function PathFromJson(fields: map<string, Json>): Option<seq<Segment>> {
    if "path" !in fields then Some([])
    else if fields["path"].JArr? then SegmentsFromJson(fields["path"].elements)
    else None
  }

  function InputFromJson(j: Json): Option<Input> {
    if !j.JObj? then None
    else if Text(j.fields, "kind") == Some("ref") then
      (match (Text(j.fields, "node_id"), Text(j.fields, "port"), PathFromJson(j.fields))
       case (Some(nodeId), Some(port), Some(path)) => Some(PortRef(nodeId, port, path))
       case _ => None)
    else if Text(j.fields, "kind") == Some("env") then
      (match Text(j.fields, "name") case None => None case Some(name) => Some(EnvRef(name)))
    else if "value" in j.fields then Some(Literal(j.fields["value"]))
    else None
  }

  function StopConditionFromJson(j: Json): Option<Option<StopCondition>> {
    if j.JNull? then Some(None)
    else if !j.JObj? || "equals" !in j.fields then None
    else
      match (Text(j.fields, "output_key"), Text(j.fields, "action"), OptionalText(Get(j.fields, "goto_node_id")))
      case (Some(outputKey), Some(action), Some(goto)) =>
        if action == "abort" then Some(Some(StopCondition(outputKey, j.fields["equals"], AbortRun, goto)))
        else if action == "goto" then Some(Some(StopCondition(outputKey, j.fields["equals"], Goto, goto)))
        else None
      case _ => None
  }

  function InputsFromJson(j: Json): Option<map<string, Input>> {
    if j.JObj? && forall port | port in j.fields :: InputFromJson(j.fields[port]).Some? then
      Some(map port | port in j.fields :: InputFromJson(j.fields[port]).value)
    else None
  }

  function EdgesFromJson(j: Json): Option<map<string, string>> {
    if j.JObj? && forall l | l in j.fields :: j.fields[l].JStr? then
      Some(map l | l in j.fields :: j.fields[l].s)
    else None
  }

  function TimeoutFromJson(j: Json): Option<Option<int>> {
    match j
    case JNull => Some(None)
    case JInt(i) => Some(Some(i))
    case _ => None
  }

  /** `AccountId(UUID(ref)) if ref else None`. */
  function AccountFromJson(j: Json): Option<Option<AccountId>> {
    match j
    case JNull => Some(None)
    case JStr(s) => if s == "" then Some(None) else Some(Some(s))
    case _ => None
  }

  /** `_ir_node_from_json`; None is a row that cannot be read. */
  function FromJson(j: Json): Option<IRNode>
    decreases j, 1
  {
    if !j.JObj? || !({"inputs", "account_ref", "edges", "on_error"} <= j.fields.Keys) then None
    else
      var children := ChildrenFromJson(j);
      match (Text(j.fields, "id"), Text(j.fields, "type"), InputsFromJson(j.fields["inputs"]),
             AccountFromJson(j.fields["account_ref"]), EdgesFromJson(j.fields["edges"]))
      case (Some(id), Some(nodeType), Some(inputs), Some(account), Some(edges)) =>
        (match (OptionalText(j.fields["on_error"]), TimeoutFromJson(Get(j.fields, "timeout_s")),
                StopConditionFromJson(Get(j.fields, "stop_condition")), children)
         case (Some(onError), Some(timeout), Some(stop), Some(kids)) =>
           Some(IRNode(id, nodeType, inputs, account, edges, onError, timeout, stop, kids))
         case _ => None)
      case _ => None
  }

  function ChildrenFromJson(j: Json): Option<Children>
    requires j.JObj?
    decreases j, 0
  {
    if "children" !in j.fields || j.fields["children"].JNull? then Some(NoChildren)
    else if !j.fields["children"].JArr? then None
    else
      var elements := j.fields["children"].elements;
      if forall i | 0 <= i < |elements| :: FromJson(elements[i]).Some? then
        Some(Batch(seq(|elements|, i requires 0 <= i < |elements| => FromJson(elements[i]).value)))
      else None
  }

  // ---------------------------------------------------------------- round trips

  lemma {:induction false} SegmentsRoundTrip(path: seq<Segment>)
    ensures SegmentsFromJson(seq(|path|, i requires 0 <= i < |path| => SegmentToJson(path[i]))) == Some(path)
  {
    if path != [] {
      var elements := seq(|path|, i requires 0 <= i < |path| => SegmentToJson(path[i]));
      assert elements[1..] == seq(|path[1..]|, i requires 0 <= i < |path[1..]| => SegmentToJson(path[1..][i]));
      SegmentsRoundTrip(path[1..]);
      assert path == [path[0]] + path[1..];
    }
  }

  lemma {:induction false} InputRoundTrips(input: Input)
    ensures InputFromJson(InputToJson(input)) == Some(input)
  {
    if input.PortRef? { SegmentsRoundTrip(input.path); }
  }

  lemma {:induction false} StopConditionRoundTrips(sc: Option<StopCondition>)
    ensures StopConditionFromJson(StopConditionToJson(sc)) == Some(sc)
  {
  }

  lemma {:induction false} EdgesRoundTrip(edges: map<string, string>)
    ensures EdgesFromJson(JObj(map l | l in edges :: JStr(edges[l]))) == Some(edges)
  {
    var fields := map l | l in edges :: JStr(edges[l]);
    assert (map l | l in fields :: fields[l].s) == edges;
  }

  const LATER_KEYS := {"timeout_s", "stop_condition", "children"}

  /** The node as it reads when the keys in `gone` were not written yet. */
  function Without(n: IRNode, gone: set<string>): IRNode {
    n.(timeoutS := if "timeout_s" in gone then None else n.timeoutS,
       stopCondition := if "stop_condition" in gone then None else n.stopCondition,
       children := if "children" in gone then NoChildren else n.children)
  }

  lemma {:induction false} ChildrenRoundTrip(n: IRNode, gone: set<string>)
    requires gone <= LATER_KEYS
    ensures ChildrenFromJson(JObj(Row(n) - gone)) == Some(Without(n, gone).children)
    decreases n, 0
  {
    hide InputsFromJson, EdgesFromJson, StopConditionFromJson, InputToJson, StopConditionToJson;
    if "children" !in gone && n.children.Batch? {
      var children := n.children.nodes;
      var elements := seq(|children|, i requires 0 <= i < |children| => ToJson(children[i]));
      assert (Row(n) - gone)["children"] == JArr(elements);
      forall i | 0 <= i < |children|
        ensures FromJson(elements[i]) == Some(children[i])
      {
        RoundTrip(children[i]);
      }
      assert seq(|elements|, i requires 0 <= i < |elements| => FromJson(elements[i]).value) == children;
    }
  }

  /** The fields of a row, read one by one. */
  lemma {:induction false} RowFields(n: IRNode, gone: set<string>)
    requires gone <= LATER_KEYS
    ensures var fields := Row(n) - gone;
            && {"inputs", "account_ref", "edges", "on_error"} <= fields.Keys
            && Text(fields, "id") == Some(n.id) && Text(fields, "type") == Some(n.nodeType)
            && AccountFromJson(fields["account_ref"]) == Some(n.accountRef)
            && OptionalText(fields["on_error"]) == Some(n.onError)
            && TimeoutFromJson(Get(fields, "timeout_s")) == Some(Without(n, gone).timeoutS)
            && fields["inputs"] == JObj(map port | port in n.inputs :: InputToJson(n.inputs[port]))
            && fields["edges"] == JObj(map l | l in n.edges :: JStr(n.edges[l]))
            && Get(fields, "stop_condition") == (if "stop_condition" in gone then JNull
                                                 else StopConditionToJson(n.stopCondition))
  {
    hide InputToJson, StopConditionToJson, ChildrenToJson;
  }

  /** A stored input as it was written before references had paths. */
  function PathlessInput(input: Input): Json {
    JObj(InputToJson(input).fields - {"path"})
  }

  /** The stored inputs of a node, those at the ports in `pathless` in their earlier form. */
  function InputsRow(n: IRNode, pathless: set<string>): Json {
    JObj(map port | port in n.inputs :: if port in pathless then PathlessInput(n.inputs[port])
         else InputToJson(n.inputs[port]))
  }

  function WholePort(input: Input): Input {
    if input.PortRef? then input.(path := []) else input
  }

  /** The inputs as they read when the ports in `pathless` were written without paths. */
  function WithoutPaths(inputs: map<string, Input>, pathless: set<string>): map<string, Input> {
    map port | port in inputs :: if port in pathless then WholePort(inputs[port]) else inputs[port]
  }

  lemma {:induction false} OldInputsRead(n: IRNode, pathless: set<string>)
    ensures InputsFromJson(InputsRow(n, pathless)) == Some(WithoutPaths(n.inputs, pathless))
  {
    var fields := InputsRow(n, pathless).fields;
    forall port | port in n.inputs
      ensures InputFromJson(fields[port]) == Some(WithoutPaths(n.inputs, pathless)[port])
    {
      InputRoundTrips(n.inputs[port]);
      if port in pathless { OldInputReads(n.inputs[port]); }
    }
    hide InputFromJson, InputToJson, PathlessInput, WholePort;
    assert (map port | port in fields :: InputFromJson(fields[port]).value) == WithoutPaths(n.inputs, pathless);
  }

  /** A stored input that lacks its "path" reads as a reference to the whole port; other inputs have none to lack. */
  lemma {:induction false} OldInputReads(input: Input)
    ensures InputFromJson(PathlessInput(input)) == Some(WholePort(input))
  {
  }

  /** A row written at any earlier stage: any of the later keys missing, any of the references without a path. It
      reads with the old defaults in exactly those places, and nothing else changes. */
  lemma {:induction false} OldRowReads(n: IRNode, gone: set<string>, pathless: set<string>)
    requires gone <= LATER_KEYS
    ensures FromJson(JObj((Row(n) - gone)["inputs" := InputsRow(n, pathless)]))
         == Some(Without(n, gone).(inputs := WithoutPaths(n.inputs, pathless)))
    decreases n, 1
  {
    hide Row, Get, Text, OptionalText, TimeoutFromJson, AccountFromJson, InputsFromJson, EdgesFromJson,
        ChildrenFromJson, StopConditionFromJson, InputToJson, StopConditionToJson, InputsRow, WithoutPaths;
    RowFields(n, gone);
    OldInputsRead(n, pathless);
    EdgesRoundTrip(n.edges);
    StopConditionRoundTrips(n.stopCondition);
    NoStopCondition();
    ChildrenRoundTrip(n, gone);
    OtherFieldsStay(Row(n) - gone, InputsRow(n, pathless));
  }

  /** Only the inputs of a row are read from its "inputs". */
  lemma {:induction false} OtherFieldsStay(fields: map<string, Json>, inputs: Json)
    ensures var changed := fields["inputs" := inputs];
            && Text(changed, "id") == Text(fields, "id") && Text(changed, "type") == Text(fields, "type")
            && Get(changed, "timeout_s") == Get(fields, "timeout_s")
            && Get(changed, "stop_condition") == Get(fields, "stop_condition")
            && ChildrenFromJson(JObj(changed)) == ChildrenFromJson(JObj(fields))
  {
    hide FromJson;
  }

  lemma {:induction false} NoStopCondition()
    ensures StopConditionFromJson(JNull) == Some(None)
  {
  }

  lemma {:induction false} NothingMissing(n: IRNode)
    ensures WithoutPaths(n.inputs, {}) == n.inputs && (Row(n) - {})["inputs" := InputsRow(n, {})] == Row(n)
  {
    hide ChildrenToJson, InputToJson, StopConditionToJson, WholePort, PathlessInput;
    assert InputsRow(n, {}) == Row(n)["inputs"];
  }

  /** Decoding the stored form of any node, with children to any depth, gives the node back. */
  lemma {:induction false} RoundTrip(n: IRNode)
    ensures FromJson(ToJson(n)) == Some(n)
    decreases n, 2
  {
    OldRowReads(n, {}, {});
    NothingMissing(n);
  }
}
