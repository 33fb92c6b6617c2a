/** The node component (src/BeliefNode.jsx): the border colour chosen from the
    status, and the click-to-expand flag that reveals the classifier's summary. */
module BeliefNodeView {
  import opened Wrappers
  import opened Wire
  import opened Belief

  /** `borderColor`: coherent green, contradictory yellow, harmful red, incoherent
      brown, and gray for everything else. */
  function BorderColour(status: NodeStatus): (c: Colour)
    ensures c == Gray <==> status == CoreMark || status == Unset || status == Rated(Pending)
    ensures status == Rated(Coherent) <==> c == Green
    ensures status == Rated(Contradictory) <==> c == Yellow
    ensures status == Rated(Harmful) <==> c == Red
    ensures status == Rated(Incoherent) <==> c == Brown
  {
    match status
    case Rated(Coherent) => Green
    case Rated(Contradictory) => Yellow
    case Rated(Harmful) => Red
    case Rated(Incoherent) => Brown
    case _ => Gray
  }

  /** The expanded block: the TL;DR and the details, each absent when the body has none. */
  datatype Panel = Panel(summary: Option<string>, details: Option<string>)

  /** `expanded && data.aiSummary && (...)`. */
  function DetailsPanel(expanded: bool, aiSummary: Option<Body>): (r: Option<Panel>)
    ensures r.Some? <==> expanded && aiSummary.Some?
    ensures r.Some? && aiSummary.value.Analysis? ==>
      r.value == Panel(Some(aiSummary.value.summary), Some(aiSummary.value.details))
    ensures r.Some? && !aiSummary.value.Analysis? ==> r.value == Panel(None, None)
  {
    if !expanded then None
    else
      match aiSummary
      case None => None
      case Some(Analysis(summary, details, _)) => Some(Panel(Some(summary), Some(details)))
      case Some(_) => Some(Panel(None, None))
  }

  /** One rendered node with its `expanded` state. */
  class NodeView {
    const data: NodeData
    var expanded: bool

    /** `useState(false)`. */
    constructor (data: NodeData)
      ensures this.data == data && !expanded
    {
      this.data := data;
      expanded := false;
    }

    /** `handleToggle`. */
    method Toggle()
      modifies this
      ensures expanded == !old(expanded)
    {
      expanded := !expanded;
    }

    function Shown(): Option<Panel>
      reads this
    {
      DetailsPanel(expanded, data.aiSummary)
    }

    function Border(): Colour {
      BorderColour(data.status)
    }
  }

  /** Two clicks restore the node to how it was shown before. */
  method ClickTwice(v: NodeView)
    modifies v
    ensures v.expanded == old(v.expanded) && v.Shown() == old(v.Shown())
  {
    v.Toggle();
    v.Toggle();
  }

  /** A freshly mounted node shows no details, whatever its data. */
  method Mount(data: NodeData) returns (v: NodeView)
    ensures fresh(v) && v.data == data && v.Shown() == None
  {
    v := new NodeView(data);
  }
}
