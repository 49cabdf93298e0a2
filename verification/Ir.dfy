/** The compiled form of a flow: the one graph type that the compiler produces and the interpreter walks. */
module Ir {
  import opened Base
  import opened JsonValues

  const VARS_NODE_ID := "vars"
  const JOIN_NODE_TYPE := "logic.join"

  datatype Segment = Field(name: string) | Index(index: int)

  datatype Input =
    | PortRef(nodeId: string, port: string, path: seq<Segment>)
    | Literal(value: Json)
    | EnvRef(name: string)

  datatype Action = AbortRun | Goto

  datatype StopCondition =
    StopCondition(outputKey: string, equals: Json, action: Action, gotoNodeId: Option<string>)

  datatype IRNode = IRNode(
    id: string,
    nodeType: string,
    inputs: map<string, Input>,
    accountRef: Option<AccountId>,
    edges: map<string, string>,
    onError: Option<string>,
    timeoutS: Option<int>,
    stopCondition: Option<StopCondition>,
    children: Children)

  /** The leaves of a batch container; any other node has none. */
  datatype Children = NoChildren | Batch(nodes: seq<IRNode>)

  datatype FlowIR = FlowIR(nodes: seq<IRNode>, entryNodeId: string, testnet: bool)
}
