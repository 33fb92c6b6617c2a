/** The app component (src/App.jsx): the mode prompt, the core belief, the graph of
    beliefs the classifier has rated, the ancestor walk over it, and the suggestion
    panel. The graph state is a class whose methods are the component's handlers. */
module App {
  import opened Wrappers
  import opened Text
  import opened Wire
  import opened Belief
  import opened Upstream
  import BeliefNodeView
  import Analyze
  import Suggest

  // ---------------------------------------------------------------------
  // Mode selection (the first effect)
  // ---------------------------------------------------------------------

  function ModeName(m: Mode): string {
    match m
    case Sandbox => "sandbox"
    case Professional => "professional"
  }

  /** How the mode prompt loop ends: a mode, a cancel (the mode stays unset), or
      still prompting once the given answers run out. */
  datatype ModeOutcome = ModeChosen(mode: Mode) | ModeCancelled | ModeAwaiting

  /** An answer that ends the loop: a cancel, or a mode name in any letter case. */
  predicate Decisive(e: Entry) {
    e.None? || ToLower(e.value) == "sandbox" || ToLower(e.value) == "professional"
  }

  /** The outcome a decisive answer leads to. */
  function Decided(e: Entry): ModeOutcome
    requires Decisive(e)
  {
    match e
    case None => ModeCancelled
    case Some(s) => if ToLower(s) == "sandbox" then ModeChosen(Sandbox) else ModeChosen(Professional)
  }

  /** `i` is the first answer that ends the loop. */
  predicate FirstDecisive(answers: seq<Entry>, i: int) {
    && 0 <= i < |answers|
    && Decisive(answers[i])
    && forall j :: 0 <= j < i ==> !Decisive(answers[j])
  }

  /** The prompt loop over a sequence of answers: an answer that is neither a cancel
      nor a mode name (the empty string included) is asked again. */
  function ModeFrom(answers: seq<Entry>): (r: ModeOutcome)
    ensures r.ModeAwaiting? <==> forall i :: 0 <= i < |answers| ==> !Decisive(answers[i])
  {
    if |answers| == 0 then ModeAwaiting
    else if Decisive(answers[0]) then Decided(answers[0])
    else
      var r := ModeFrom(answers[1..]);
      assert forall i :: 1 <= i < |answers| ==> answers[i] == answers[1..][i - 1];
      r
  }

  /** The loop ends at its first decisive answer, and that answer alone decides it. */
  lemma {:induction false} ModeFromFirstDecisive(answers: seq<Entry>, i: int)
    requires FirstDecisive(answers, i)
    ensures ModeFrom(answers) == Decided(answers[i])
    decreases i
  {
    if i > 0 {
      assert !Decisive(answers[0]);
      var rest := answers[1..];
      assert rest[i - 1] == answers[i];
      forall j | 0 <= j < i - 1 ensures !Decisive(rest[j]) {
        assert rest[j] == answers[j + 1];
      }
      ModeFromFirstDecisive(rest, i - 1);
    }
  }

  /** A chosen mode is one of the answers, lower-cased: the loop never invents one. */
  lemma ModeChosenWasAnswered(answers: seq<Entry>)
    requires ModeFrom(answers).ModeChosen?
    ensures exists i ::
      0 <= i < |answers| && answers[i].Some? && ToLower(answers[i].value) == ModeName(ModeFrom(answers).mode)
  {
    var i := FirstDecisiveExists(answers);
    ModeFromFirstDecisive(answers, i);
  }

  /** A cancel is one of the answers. */
  lemma ModeCancelledWasAnswered(answers: seq<Entry>)
    requires ModeFrom(answers).ModeCancelled?
    ensures None in answers
  {
    var i := FirstDecisiveExists(answers);
    ModeFromFirstDecisive(answers, i);
  }

  lemma {:induction false} FirstDecisiveExists(answers: seq<Entry>) returns (i: int)
    requires exists k :: 0 <= k < |answers| && Decisive(answers[k])
    ensures FirstDecisive(answers, i)
  {
    var k :| 0 <= k < |answers| && Decisive(answers[k]);
    i := 0;
    while !Decisive(answers[i])
      invariant 0 <= i <= k
      invariant forall j :: 0 <= j < i ==> !Decisive(answers[j])
      decreases k - i
    {
      i := i + 1;
    }
  }

  /** The `while` loop of the mode effect: prompt, stop on cancel, lower-case the
      answer, and ask again until it names a mode. */
  method ChooseMode(answers: seq<Entry>) returns (r: ModeOutcome)
    ensures r == ModeFrom(answers)
  {
    var selected: Entry := None;
    var i := 0;
    while selected.None? || (selected.value != "sandbox" && selected.value != "professional")
      invariant 0 <= i <= |answers|
      invariant selected.None? ==> i == 0
      invariant selected.Some? ==> i > 0 && answers[i - 1].Some? && selected.value == ToLower(answers[i - 1].value)
      invariant selected.None? || (selected.value != "sandbox" && selected.value != "professional") ==>
        ModeFrom(answers) == ModeFrom(answers[i..])
      invariant selected.Some? && (selected.value == "sandbox" || selected.value == "professional") ==>
        ModeFrom(answers) == Decided(answers[i - 1])
      decreases |answers| - i
    {
      if i == |answers| {
        return ModeAwaiting;
      }
      var answer := answers[i];
      assert answers[i..][0] == answer && answers[i..][1..] == answers[i + 1..];
      i := i + 1;
      if answer.None? {
        return ModeCancelled;
      }
      selected := Some(ToLower(answer.value));
    }
    r := ModeChosen(if selected.value == "sandbox" then Sandbox else Professional);
  }

  /** The mode the loop leaves set, if any. */
  function ChosenMode(o: ModeOutcome): Option<Mode> {
    match o
    case ModeChosen(m) => Some(m)
    case _ => None
  }

  // ---------------------------------------------------------------------
  // The core belief
  // ---------------------------------------------------------------------

  /** How the core-belief prompt loop ends. */
  datatype LabelOutcome = LabelGiven(text: string) | LabelCancelled | LabelAwaiting

  /** The loop asks again while the answer is the empty string and stops on cancel;
      any other answer, blank ones included, is the core label. */
  function CoreLabelFrom(answers: seq<Entry>): (r: LabelOutcome)
    ensures r.LabelGiven? ==> r.text != "" && Some(r.text) in answers
    ensures r.LabelCancelled? ==> None in answers
    ensures r.LabelAwaiting? <==> forall i :: 0 <= i < |answers| ==> answers[i] == Some("")
  {
    if |answers| == 0 then LabelAwaiting
    else
      match answers[0]
      case None => LabelCancelled
      case Some(s) =>
        if s != "" then LabelGiven(s)
        else
          var r := CoreLabelFrom(answers[1..]);
          assert forall i :: 1 <= i < |answers| ==> answers[i] == answers[1..][i - 1];
          r
  }

  /** The first answer that is not the empty string decides the loop. */
  lemma {:induction false} CoreLabelFirstAnswer(answers: seq<Entry>, i: int)
    requires 0 <= i < |answers| && answers[i] != Some("")
    requires forall j :: 0 <= j < i ==> answers[j] == Some("")
    ensures CoreLabelFrom(answers) == (if answers[i].None? then LabelCancelled else LabelGiven(answers[i].value))
    decreases i
  {
    if i > 0 {
      var rest := answers[1..];
      assert answers[0] == Some("");
      assert rest[i - 1] == answers[i];
      forall j | 0 <= j < i - 1 ensures rest[j] == Some("") {
        assert rest[j] == answers[j + 1];
      }
      CoreLabelFirstAnswer(rest, i - 1);
    }
  }

  /** The `while (!belief)` loop of `handleAddCoreBelief`. */
  method CollectCoreLabel(answers: seq<Entry>) returns (r: LabelOutcome)
    ensures r == CoreLabelFrom(answers)
  {
    var belief: Entry := None;
    var i := 0;
    while belief.None? || belief.value == ""
      invariant 0 <= i <= |answers|
      invariant belief.None? ==> i == 0
      invariant belief.Some? ==> i > 0 && answers[i - 1] == belief
      invariant belief.None? || belief.value == "" ==> CoreLabelFrom(answers) == CoreLabelFrom(answers[i..])
      invariant belief.Some? && belief.value != "" ==> CoreLabelFrom(answers) == LabelGiven(belief.value)
      decreases |answers| - i
    {
      if i == |answers| {
        return LabelAwaiting;
      }
      belief := answers[i];
      assert answers[i..][1..] == answers[i + 1..];
      i := i + 1;
      if belief.None? {
        return LabelCancelled;
      }
    }
    r := LabelGiven(belief.value);
  }

  /** The core node: id 'core', drawn at the centre, full confidence, status 'core'. */
  function CoreNode(text: string, notes: Entry, mode: Option<Mode>): (n: Node)
    ensures n.id == CoreId && n.position == Centre && n.data.core
    ensures n.data.belief == Some(text) && n.data.notes == notes && n.data.mode == mode
    ensures n.data.confidence == Num(100) && n.data.status == CoreMark && n.data.aiSummary == None
  {
    Node(CoreId, Centre, NodeData(Some(text), notes, Num(100), true, CoreMark, None, mode))
  }

  // ---------------------------------------------------------------------
  // Pure pieces of `addBelief` and `handleSuggest`
  // ---------------------------------------------------------------------

  /** `360 / 20`: the angle between consecutive beliefs on the ring. */
  const AngleIncrement := 18

  /** `parseInt(prompt(...), 10)`: a cancelled prompt is parsed as the text "null". */
  function ParseConfidence(answer: Entry): (c: Confidence)
    ensures c.Num? <==> ParseInt(Interpolated(answer)).Some?
    ensures c.Num? ==> ParseInt(Interpolated(answer)) == Some(c.n)
  {
    match ParseInt(Interpolated(answer))
    case Some(n) => Num(n)
    case None => NaN
  }

  /** A confidence typed as an integer is read back exactly. */
  lemma ParseConfidenceOfInt(i: int)
    ensures ParseConfidence(Some(IntToString(i))) == Num(i)
  {
    ParseIntOfIntToString(i);
  }

  /** Cancelling the confidence prompt gives NaN. */
  lemma ParseConfidenceCancelled()
    ensures ParseConfidence(None) == NaN
  {
    var s := Interpolated(None);
    assert s[0] == 'n' && !IsSpace(s[0]);
    assert TrimStart(s) == s;
    assert LeadingDigits(s) == "";
  }

  /** `coreBelief?.data?.label || ''`. */
  function CoreLabelText(core: Option<Node>): (r: string)
    ensures core.Some? && core.value.data.belief.Some? ==> r == core.value.data.belief.value
    ensures core.None? || core.value.data.belief.None? ==> r == ""
  {
    match core
    case Some(Node(_, _, NodeData(Some(text), _, _, _, _, _, _))) => text
    case _ => ""
  }

  /** `result.status` as stored in the node: the classifier's status, or undefined
      for any other body (an error body included). */
  function StatusOf(result: Body): (s: NodeStatus)
    ensures s.Rated? <==> result.Analysis?
    ensures s.Rated? ==> s.status == result.status
    ensures s != CoreMark
  {
    match result
    case Analysis(_, _, status) => Rated(status)
    case _ => Unset
  }

  /** The stroke chosen at the edge: the same colour the node's border is drawn in. */
  function EdgeStroke(status: NodeStatus): (c: Colour)
    ensures c == BeliefNodeView.BorderColour(status)
  {
    if status == Rated(Coherent) then Green
    else if status == Rated(Contradictory) then Yellow
    else if status == Rated(Harmful) then Red
    else if status == Rated(Incoherent) then Brown
    else Gray
  }

  /** `${source}->${target}`. */
  function EdgeId(source: string, target: string): string {
    source + "->" + target
  }

  /** Edges out of the same source with the same id have the same target. */
  lemma EdgeIdInjective(source: string, a: string, b: string)
    requires EdgeId(source, a) == EdgeId(source, b)
    ensures a == b
  {
    var n := |source| + 2;
    assert a == EdgeId(source, a)[n..];
    assert b == EdgeId(source, b)[n..];
  }

  /** The edge `addBelief` draws from the core belief to a new node. */
  function EdgeFor(n: Node): (e: Edge)
    ensures e.source == CoreId && e.target == n.id && e.id == EdgeId(CoreId, n.id)
    ensures e.stroke == BeliefNodeView.BorderColour(n.data.status)
  {
    Edge(EdgeId(CoreId, n.id), CoreId, n.id, EdgeStroke(n.data.status))
  }

  /** The node `addBelief` appends: the answers as typed, never a core node, the
      classifier's status and whole response body, and its place on the ring. */
  function BeliefNode(id: string, angle: int, belief: Entry, notes: Entry, confidence: Confidence,
                      result: Body, mode: Option<Mode>): (n: Node)
    ensures n.id == id && n.position == OnRing(angle)
    ensures n.data.belief == belief && n.data.notes == notes && n.data.confidence == confidence
    ensures !n.data.core && n.data.status == StatusOf(result) && n.data.aiSummary == Some(result)
    ensures n.data.mode == mode
  {
    Node(id, OnRing(angle), NodeData(belief, notes, confidence, false, StatusOf(result), Some(result), mode))
  }

  /** `nodes.map(n => n.data.label)`. */
  function BeliefList(nodes: seq<Node>): (r: seq<Entry>)
    ensures |r| == |nodes|
    ensures forall i :: 0 <= i < |nodes| ==> r[i] == nodes[i].data.belief
  {
    if |nodes| == 0 then [] else [nodes[0].data.belief] + BeliefList(nodes[1..])
  }

  /** `result.suggestion`: set from a suggestion body, undefined from any other. */
  function SuggestionOf(result: Body): (r: Option<string>)
    ensures r.Some? <==> result.Suggestion?
    ensures r.Some? ==> r.value == result.suggestion
  {
    match result
    case Suggestion(s) => Some(s)
    case _ => None
  }

  // ---------------------------------------------------------------------
  // The committed graph
  // ---------------------------------------------------------------------

  /** The graph the handlers build: nothing before the core belief; afterwards the
      core node first, then the added beliefs in order, each on its step of the ring
      with distinct non-core ids, and one edge from the core to each, in the same order. */
  predicate Committed(core: Option<Node>, nodes: seq<Node>, edges: seq<Edge>) {
    match core
    case None => nodes == [] && edges == []
    case Some(c) =>
      && |nodes| >= 1 && nodes[0] == c
      && c.id == CoreId && c.data.core && c.position == Centre
      && |edges| == |nodes| - 1
      && (forall k :: 1 <= k < |nodes| ==> !nodes[k].data.core)
      && (forall k :: 1 <= k < |nodes| ==> nodes[k].position == OnRing((k - 1) * AngleIncrement))
      && (forall j, k :: 0 <= j < k < |nodes| ==> nodes[j].id != nodes[k].id)
      && (forall k :: 0 <= k < |edges| ==> edges[k] == EdgeFor(nodes[k + 1]))
  }

  /** Appending a fresh non-core node on the next step of the ring, with its edge from
      the core, keeps the graph committed. */
  lemma CommitAppend(core: Node, nodes: seq<Node>, edges: seq<Edge>, n: Node)
    requires Committed(Some(core), nodes, edges)
    requires n.id !in Ids(nodes) && !n.data.core && n.position == OnRing((|nodes| - 1) * AngleIncrement)
    ensures Committed(Some(core), nodes + [n], edges + [EdgeFor(n)])
  {
    var nodes', edges' := nodes + [n], edges + [EdgeFor(n)];
    forall j | 0 <= j < |nodes| ensures nodes'[j].id != n.id {
      assert nodes'[j] == nodes[j];
      assert nodes[j] in nodes;
    }
    forall k | 0 <= k < |edges'| ensures edges'[k] == EdgeFor(nodes'[k + 1]) {
      if k < |edges| {
        assert edges'[k] == edges[k] && nodes'[k + 1] == nodes[k + 1];
      }
    }
  }

  /** No edge points at the core, so the upstream `addBelief` sends is always empty. */
  lemma CoreHasNoUpstream(core: Option<Node>, nodes: seq<Node>, edges: seq<Edge>, visited: set<string>)
    requires Committed(core, nodes, edges)
    ensures Walk(nodes, edges, CoreId, visited).labels == []
  {
    if core.Some? {
      forall i | 0 <= i < |edges| ensures edges[i].target != CoreId {
        assert edges[i] == EdgeFor(nodes[i + 1]);
        assert nodes[0].id != nodes[i + 1].id;
      }
    }
    NoIncomingNoUpstream(nodes, edges, CoreId, visited);
  }

  lemma {:induction false} SourcesSingle(edges: seq<Edge>, id: string, j: int)
    requires 0 <= j < |edges| && edges[j].target == id
    requires forall k :: 0 <= k < |edges| && k != j ==> edges[k].target != id
    ensures Sources(edges, id) == [edges[j].source]
  {
    var rest := edges[1..];
    if j == 0 {
      SourcesNone(rest, id);
    } else {
      assert edges[0].target != id;
      assert rest[j - 1] == edges[j];
      forall k | 0 <= k < |rest| && k != j - 1 ensures rest[k].target != id {
        assert rest[k] == edges[k + 1];
      }
      SourcesSingle(rest, id, j - 1);
    }
  }

  /** The measure of a parent's walk is below the measure of the walk that reaches it. */
  lemma CardParent(nodes: seq<Node>, p: Node, start: set<string>, now: set<string>)
    requires p in nodes && start <= now
    ensures |(Ids(nodes) + {p.id}) - now| <= |Ids(nodes) - start|
  {
    assert Ids(nodes) + {p.id} == Ids(nodes);
    CardMonotone(Ids(nodes), start, now);
  }

  /** The remaining parents after one more has been walked. */
  lemma WalkEachAt(nodes: seq<Node>, edges: seq<Edge>, ps: seq<Node>, i: int, v: set<string>)
    requires forall k :: 0 <= k < |ps| ==> ps[k] in nodes
    requires 0 <= i < |ps|
    ensures var first := Walk(nodes, edges, ps[i].id, v);
      var rest := WalkEach(nodes, edges, ps[i + 1..], first.visited);
      WalkEach(nodes, edges, ps[i..], v) == Walked([ps[i].data.belief] + first.labels + rest.labels, rest.visited)
  {
    WalkEachStep(nodes, edges, ps[i..], v);
    assert ps[i..][1..] == ps[i + 1..];
  }

  /** One turn of the loop over the parents in `getUpstream`. */
  lemma WalkEachAdvance(nodes: seq<Node>, edges: seq<Edge>, ps: seq<Node>, i: int, v: set<string>,
                        labels: seq<Entry>, whole: Walked)
    requires forall k :: 0 <= k < |ps| ==> ps[k] in nodes
    requires 0 <= i < |ps|
    requires whole.labels == labels + WalkEach(nodes, edges, ps[i..], v).labels
    requires whole.visited == WalkEach(nodes, edges, ps[i..], v).visited
    ensures var first := Walk(nodes, edges, ps[i].id, v);
      && whole.labels == labels + [ps[i].data.belief] + first.labels + WalkEach(nodes, edges, ps[i + 1..], first.visited).labels
      && whole.visited == WalkEach(nodes, edges, ps[i + 1..], first.visited).visited
  {
    var first := Walk(nodes, edges, ps[i].id, v);
    WalkEachAt(nodes, edges, ps, i, v);
    Regroup(labels, [ps[i].data.belief], first.labels, WalkEach(nodes, edges, ps[i + 1..], first.visited).labels);
  }

  lemma Regroup(a: seq<Entry>, b: seq<Entry>, c: seq<Entry>, d: seq<Entry>)
    ensures a + (b + c + d) == (a + b + c) + d
  {
  }

  /** Every added belief has exactly the core belief upstream of it. */
  lemma UpstreamOfBelief(core: Node, nodes: seq<Node>, edges: seq<Edge>, i: int)
    requires Committed(Some(core), nodes, edges) && 1 <= i < |nodes|
    ensures UpstreamOf(nodes, edges, nodes[i].id) == [core.data.belief]
  {
    var id := nodes[i].id;
    assert edges[i - 1] == EdgeFor(nodes[i]);
    forall k | 0 <= k < |edges| && k != i - 1 ensures edges[k].target != id {
      assert edges[k] == EdgeFor(nodes[k + 1]);
    }
    SourcesSingle(edges, id, i - 1);
    assert Find(nodes, CoreId) == Some(core);
    var coreOnly: seq<string> := [CoreId];
    assert coreOnly[1..] == [];
    assert Parents(nodes, edges, id) == [core];
    var none: set<string> := {};
    assert none + {id} == {id};
    assert Walk(nodes, edges, id, none) == WalkEach(nodes, edges, [core], {id});
    WalkEachStep(nodes, edges, [core], {id});
    CoreHasNoUpstream(Some(core), nodes, edges, {id});
    assert [core][1..] == [];
  }

  /** The edges of a committed graph have distinct ids. */
  lemma EdgeIdsDistinct(core: Option<Node>, nodes: seq<Node>, edges: seq<Edge>)
    requires Committed(core, nodes, edges)
    ensures forall j, k :: 0 <= j < k < |edges| ==> edges[j].id != edges[k].id
  {
    forall j, k | 0 <= j < k < |edges| ensures edges[j].id != edges[k].id {
      assert edges[j] == EdgeFor(nodes[j + 1]) && edges[k] == EdgeFor(nodes[k + 1]);
      if edges[j].id == edges[k].id {
        EdgeIdInjective(CoreId, nodes[j + 1].id, nodes[k + 1].id);
        assert false;
      }
    }
  }

  /** A committed belief node renders with a border of the same colour as the stroke of
      the edge into it. */
  lemma NodeBorderMatchesEdge(core: Option<Node>, nodes: seq<Node>, edges: seq<Edge>, k: int, v: BeliefNodeView.NodeView)
    requires Committed(core, nodes, edges) && 1 <= k < |nodes|
    requires v.data == nodes[k].data
    ensures edges[k - 1].target == nodes[k].id && v.Border() == edges[k - 1].stroke
  {
    assert edges[k - 1] == EdgeFor(nodes[k]);
  }

  /** `addBelief` ignores `response.ok`: whatever the classifier handler answers with
      a 500 is committed with an undefined status and drawn gray. */
  lemma FailedAnalysisDrawnGray(hasKey: bool, req: AnalyzeRequest, service: ServiceReply)
    ensures var r := Analyze.Handle(hasKey, req, service).response;
      r.statusCode == 500 ==> StatusOf(r.body) == Unset && EdgeStroke(StatusOf(r.body)) == Gray
    ensures var r := Analyze.Handle(hasKey, req, service).response;
      r.statusCode == 200 ==> StatusOf(r.body).Rated?
  {
  }

  /** The suggestion prompt built from the node labels lists each node under its place. */
  lemma SuggestPromptListsNodes(nodes: seq<Node>, i: nat)
    requires i < |nodes|
    ensures Contains(Suggest.Prompt(BeliefList(nodes)), NatToString(i + 1) + ". " + Interpolated(nodes[i].data.belief))
  {
    Suggest.PromptListsBeliefs(BeliefList(nodes), i);
  }

  /** A successful suggestion reply always opens the panel with a non-empty text. */
  lemma SuggestionShownOnSuccess(hasKey: bool, beliefs: seq<Entry>, service: ServiceReply)
    ensures var r := Suggest.Handle(hasKey, beliefs, service).response;
      r.statusCode == 200 ==> SuggestionOf(r.body).Some? && SuggestionOf(r.body).value != ""
    ensures var r := Suggest.Handle(hasKey, beliefs, service).response;
      r.statusCode != 200 ==> SuggestionOf(r.body) == None
  {
  }

  // ---------------------------------------------------------------------
  // The component state
  // ---------------------------------------------------------------------

  /** The `visited` set `getUpstream` threads through its recursive calls. */
  class IdSet {
    var elems: set<string>

    /** `new Set()`. */
    constructor ()
      ensures elems == {}
    {
      elems := {};
    }

    /** `visited.add(id)`. */
    method Add(id: string)
      modifies this
      ensures elems == old(elems) + {id}
    {
      elems := elems + {id};
    }
  }

  /** The component's state hooks and the handlers that update them. */
  class BeliefApp {
    var mode: Option<Mode>
    var coreBelief: Option<Node>
    var nodes: seq<Node>
    var edges: seq<Edge>
    var suggestedBelief: Option<string>

    predicate Valid()
      reads this
    {
      Committed(coreBelief, nodes, edges)
    }

    /** The initial state: every hook starts at null or empty. */
    constructor ()
      ensures Valid()
      ensures mode == None && coreBelief == None && nodes == [] && edges == [] && suggestedBelief == None
    {
      mode := None;
      coreBelief := None;
      nodes := [];
      edges := [];
      suggestedBelief := None;
    }

    /** The mode effect: runs the prompt loop while no mode is set. */
    method SelectMode(answers: seq<Entry>)
      modifies this
      ensures old(mode).Some? ==> mode == old(mode)
      ensures old(mode).None? ==> mode == ChosenMode(ModeFrom(answers))
      ensures coreBelief == old(coreBelief) && nodes == old(nodes) && edges == old(edges)
      ensures suggestedBelief == old(suggestedBelief)
    {
      if mode.None? {
        var outcome := ChooseMode(answers);
        if outcome.ModeChosen? {
          mode := Some(outcome.mode);
        }
      }
    }

    /** The core-belief effect and `handleAddCoreBelief`: once a mode is set and while
        there is no core belief, prompt for the label and the notes and seed the graph
        with the core node alone. */
    method AddCoreBelief(labelAnswers: seq<Entry>, notes: Entry)
      requires Valid()
      modifies this
      ensures Valid()
      ensures old(mode).Some? && old(coreBelief).None? && CoreLabelFrom(labelAnswers).LabelGiven? ==>
        && coreBelief == Some(CoreNode(CoreLabelFrom(labelAnswers).text, notes, old(mode)))
        && nodes == [coreBelief.value]
      ensures !(old(mode).Some? && old(coreBelief).None? && CoreLabelFrom(labelAnswers).LabelGiven?) ==>
        coreBelief == old(coreBelief) && nodes == old(nodes)
      ensures mode == old(mode) && edges == old(edges) && suggestedBelief == old(suggestedBelief)
    {
      if mode.Some? && coreBelief.None? {
        var outcome := CollectCoreLabel(labelAnswers);
        if outcome.LabelGiven? {
          var coreNode := CoreNode(outcome.text, notes, mode);
          coreBelief := Some(coreNode);
          nodes := [coreNode];
        }
      }
    }

    /** `getUpstream(nodeId, visited)`: skip a visited id; otherwise add it to the set
        and emit, for each parent in edge order, its label and then its own upstream. */
    method GetUpstream(nodeId: string, visited: IdSet) returns (labels: seq<Entry>)
      modifies visited
      ensures labels == Walk(nodes, edges, nodeId, old(visited.elems)).labels
      ensures visited.elems == Walk(nodes, edges, nodeId, old(visited.elems)).visited
      decreases |(Ids(nodes) + {nodeId}) - visited.elems|
    {
      if nodeId in visited.elems {
        return [];
      }
      CardStep(Ids(nodes), visited.elems, nodeId);
      visited.Add(nodeId);
      var start := visited.elems;
      var upstreamNodes := Parents(nodes, edges, nodeId);
      labels := [];
      var i := 0;
      ghost var whole := WalkEach(nodes, edges, upstreamNodes, start);
      while i < |upstreamNodes|
        invariant 0 <= i <= |upstreamNodes|
        invariant start <= visited.elems
        invariant whole.labels == labels + WalkEach(nodes, edges, upstreamNodes[i..], visited.elems).labels
        invariant whole.visited == WalkEach(nodes, edges, upstreamNodes[i..], visited.elems).visited
      {
        var n := upstreamNodes[i];
        ghost var before := visited.elems;
        CardParent(nodes, n, start, before);
        WalkEachAdvance(nodes, edges, upstreamNodes, i, before, labels, whole);
        var sub := GetUpstream(n.id, visited);
        labels := labels + [n.data.belief] + sub;
        i := i + 1;
      }
      assert upstreamNodes[i..] == [];
      assert Walk(nodes, edges, nodeId, old(visited.elems)) == whole;
    }

    /** `addBelief`: prompt for the label, notes and confidence, post them with the
        core label and the core's (always empty) upstream, and on any answer commit
        the new node and its edge from the core. `reply` is the parsed response body,
        or `None` when the request or its JSON decoding threw. */
    method AddBelief(belief: Entry, notes: Entry, confidenceAnswer: Entry, freshId: string,
                     reply: Option<Body>) returns (request: AnalyzeRequest)
      requires Valid() && coreBelief.Some? && freshId !in Ids(nodes)
      modifies this
      ensures Valid()
      ensures request == AnalyzeRequest([Some(CoreLabelText(coreBelief))], [], belief,
                                        ParseConfidence(confidenceAnswer), notes)
      ensures reply.None? ==> nodes == old(nodes) && edges == old(edges)
      ensures reply.Some? ==>
        var n := BeliefNode(freshId, (|old(nodes)| - 1) * AngleIncrement, belief, notes,
                            ParseConfidence(confidenceAnswer), reply.value, mode);
        nodes == old(nodes) + [n] && edges == old(edges) + [EdgeFor(n)]
      ensures mode == old(mode) && coreBelief == old(coreBelief) && suggestedBelief == old(suggestedBelief)
    {
      var confidence := ParseConfidence(confidenceAnswer);
      var seen := new IdSet();
      var upstream := GetUpstream(CoreId, seen);
      CoreHasNoUpstream(coreBelief, nodes, edges, {});
      var coreLabel := CoreLabelText(coreBelief);
      request := AnalyzeRequest([Some(coreLabel)], upstream, belief, confidence, notes);
      if reply.Some? {
        var result := reply.value;
        var angle := (|nodes| - 1) * AngleIncrement;
        var newNode := BeliefNode(freshId, angle, belief, notes, confidence, result, mode);
        Commit(newNode);
      }
    }

    /** `setNodes` and `setEdges` at the end of `addBelief`: append the node, then the
        edge from the core to it, coloured by the node's status. */
    method Commit(newNode: Node)
      requires Valid() && coreBelief.Some?
      requires newNode.id !in Ids(nodes) && !newNode.data.core
      requires newNode.position == OnRing((|nodes| - 1) * AngleIncrement)
      modifies this
      ensures Valid()
      ensures nodes == old(nodes) + [newNode] && edges == old(edges) + [EdgeFor(newNode)]
      ensures mode == old(mode) && coreBelief == old(coreBelief) && suggestedBelief == old(suggestedBelief)
    {
      var core := coreBelief.value;
      var edge := Edge(EdgeId(core.id, newNode.id), core.id, newNode.id, EdgeStroke(newNode.data.status));
      CommitAppend(core, nodes, edges, newNode);
      nodes := nodes + [newNode];
      edges := edges + [edge];
    }

    /** `handleSuggest`: post the node labels in order and show what comes back.
        `reply` is the parsed response body, or `None` when the request threw. */
    method HandleSuggest(reply: Option<Body>) returns (existingBeliefs: seq<Entry>)
      modifies this
      ensures existingBeliefs == BeliefList(nodes)
      ensures reply.None? ==> suggestedBelief == old(suggestedBelief)
      ensures reply.Some? ==> suggestedBelief == SuggestionOf(reply.value)
      ensures mode == old(mode) && coreBelief == old(coreBelief) && nodes == old(nodes) && edges == old(edges)
    {
      existingBeliefs := BeliefList(nodes);
      if reply.Some? {
        suggestedBelief := SuggestionOf(reply.value);
      }
    }

    /** `handleAcceptSuggestion`: clear the panel and run `addBelief`, which prompts
        for its own label; the suggestion itself is not used. */
    method AcceptSuggestion(belief: Entry, notes: Entry, confidenceAnswer: Entry, freshId: string,
                            reply: Option<Body>) returns (request: AnalyzeRequest)
      requires Valid() && coreBelief.Some? && freshId !in Ids(nodes)
      modifies this
      ensures Valid()
      ensures suggestedBelief == None
      ensures request.newBelief == belief
      ensures request == AnalyzeRequest([Some(CoreLabelText(coreBelief))], [], belief,
                                        ParseConfidence(confidenceAnswer), notes)
      ensures reply.None? ==> nodes == old(nodes) && edges == old(edges)
      ensures reply.Some? ==>
        var n := BeliefNode(freshId, (|old(nodes)| - 1) * AngleIncrement, belief, notes,
                            ParseConfidence(confidenceAnswer), reply.value, mode);
        nodes == old(nodes) + [n] && edges == old(edges) + [EdgeFor(n)]
      ensures mode == old(mode) && coreBelief == old(coreBelief)
    {
      suggestedBelief := None;
      assert nodes == old(nodes) && edges == old(edges);
      request := AddBelief(belief, notes, confidenceAnswer, freshId, reply);
    }

    /** The Dismiss button: clear the panel and nothing else. */
    method DismissSuggestion()
      modifies this
      ensures suggestedBelief == None
      ensures mode == old(mode) && coreBelief == old(coreBelief) && nodes == old(nodes) && edges == old(edges)
    {
      suggestedBelief := None;
    }
  }
}
