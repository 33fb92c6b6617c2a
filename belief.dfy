/** The records the app keeps in its graph state: the `data` of a belief node,
    the node itself and the edge from the core belief to it. */
module Belief {
  import opened Wrappers
  import opened Wire

  /** The reserved id of the core belief. */
  const CoreId := "core"

  datatype Mode = Sandbox | Professional

  /** `data.status`: the sentinel 'core', a status the classifier returned, or
      undefined (the classifier call answered with an error body). */
  datatype NodeStatus = CoreMark | Rated(status: Status) | Unset

  /** Where the node is drawn: the centre (the core belief) or a point on the ring
      around it, at the given angle in degrees. */
  datatype Position = Centre | OnRing(angle: int)

  /** `node.data`. `aiSummary` is the whole classifier response body; the core has none. */
  datatype NodeData = NodeData(
    belief: Entry,   // `label` in the source (a reserved word here)
    notes: Entry,
    confidence: Confidence,
    core: bool,
    status: NodeStatus,
    aiSummary: Option<Body>,
    mode: Option<Mode>)

  datatype Node = Node(id: string, position: Position, data: NodeData)

  /** The colours both the edge stroke and the node border are drawn in. */
  datatype Colour = Green | Yellow | Red | Brown | Gray

  datatype Edge = Edge(id: string, source: string, target: string, stroke: Colour)
}
