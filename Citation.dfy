/**
 * Citation support of agent/src/rag/citation.py: the node post-processor that
 * numbers retrieved nodes and labels their text, the synthesiser's template
 * choice, and enable_citation, which installs both on a query engine tool.
 */
module Citation {
  import opened Wrappers
  import opened PyText
  import opened LlamaIndex

  const CitationIdKey := "citation_id"
  const FileNameKey := "file_name"
  const UnknownSource := "Unknown Source"
  const CitationDescriptionSuffix :=
    "\nThe output will include citations with the format [id] for each chunk of information in the knowledge base."

  /** metadata.get("file_name", "Unknown Source"). */
  function FileNameOf(metadata: map<string, string>): (r: string)
    ensures FileNameKey in metadata ==> r == metadata[FileNameKey]
    ensures FileNameKey !in metadata ==> r == UnknownSource
  {
    if FileNameKey in metadata then metadata[FileNameKey] else UnknownSource
  }

  /** The label put in front of the text of the node at 1-based position `i`. */
  function SourceLabel(i: nat, fileName: string): string {
    "Source " + NatToString(i) + " (" + fileName + "):\n"
  }

  /** The new text of the node at 1-based position `i`: label, original text, newline. */
  function CitedText(i: nat, fileName: string, original: string): string {
    SourceLabel(i, fileName) + original + "\n"
  }

  /** The labelled text still holds the original text, between the label and the final newline. */
  lemma CitedTextKeepsOriginal(i: nat, fileName: string, original: string)
    ensures var c, n := CitedText(i, fileName, original), |SourceLabel(i, fileName)|;
      && |c| == n + |original| + 1
      && c[..n] == SourceLabel(i, fileName)
      && c[n..|c| - 1] == original
      && c[|c| - 1] == '\n'
  {
  }

  /** Labels of different positions differ whatever the file names, so a label names one position. */
  lemma SourceLabelNamesOnePosition(i: nat, j: nat, f: string, g: string)
    requires i != j
    ensures SourceLabel(i, f) != SourceLabel(j, g)
  {
    var di, dj := NatToString(i), NatToString(j);
    var li, lj := SourceLabel(i, f), SourceLabel(j, g);
    var k := |"Source "|;
    assert li[k..k + |di|] == di;
    assert lj[k..k + |dj|] == dj;
    if |di| == |dj| {
      NatToStringInjective(i, j);
      assert li[k..k + |di|] != lj[k..k + |dj|];
    } else if |di| < |dj| {
      assert li[k + |di|] == ' ';
      assert lj[k + |di|] == dj[|di|];
      assert IsDigit(dj[|di|]);
    } else {
      assert lj[k + |dj|] == ' ';
      assert li[k + |dj|] == di[|dj|];
      assert IsDigit(di[|dj|]);
    }
  }

  /** The loop body of _postprocess_nodes for one node at 1-based position `idx`. */
  method LabelNode(node: Node, idx: nat)
    modifies node
    ensures node.metadata == old(node.metadata)[CitationIdKey := NatToString(idx)]
    ensures node.text == CitedText(idx, FileNameOf(old(node.metadata)), old(node.text))
  {
    node.metadata := node.metadata[CitationIdKey := NatToString(idx)];
    var originalText := node.text;
    var fileName := FileNameOf(node.metadata);
    assert fileName == FileNameOf(old(node.metadata));
    node.text := CitedText(idx, fileName, originalText);
  }

  /**
   * NodeCitationProcessor._postprocess_nodes: the node at 1-based position i gets
   * citation_id str(i) and its text labelled with i and its file name; the same
   * list comes back. Numbering depends only on the position, so it restarts at 1
   * on every call.
   */
  method PostprocessNodes(nodes: seq<Node>) returns (r: seq<Node>)
    requires forall i, j :: 0 <= i < j < |nodes| ==> nodes[i] != nodes[j]
    modifies nodes
    ensures r == nodes
    ensures forall i :: 0 <= i < |nodes| ==>
      nodes[i].metadata == old(nodes[i].metadata)[CitationIdKey := NatToString(i + 1)]
    ensures forall i :: 0 <= i < |nodes| ==>
      nodes[i].text == CitedText(i + 1, FileNameOf(old(nodes[i].metadata)), old(nodes[i].text))
  {
    var k := 0;
    while k < |nodes|
      invariant 0 <= k <= |nodes|
      invariant forall i :: 0 <= i < k ==>
        nodes[i].metadata == old(nodes[i].metadata)[CitationIdKey := NatToString(i + 1)]
      invariant forall i :: 0 <= i < k ==>
        nodes[i].text == CitedText(i + 1, FileNameOf(old(nodes[i].metadata)), old(nodes[i].text))
      invariant forall i :: k <= i < |nodes| ==>
        nodes[i].metadata == old(nodes[i].metadata) && nodes[i].text == old(nodes[i].text)
    {
      LabelNode(nodes[k], k + 1);
      k := k + 1;
    }
    return nodes;
  }

  /** CitationSynthesizer(**kwargs): the citation prompt unless a text_qa_template was passed. */
  function NewCitationSynthesizer(textQaTemplate: Option<PromptTemplate>): (s: ResponseSynthesizer)
    ensures textQaTemplate.None? ==> s == CitationSynthesizer(CitationPrompt)
    ensures textQaTemplate.Some? ==> s == CitationSynthesizer(textQaTemplate.value)
  {
    match textQaTemplate
    case None => CitationSynthesizer(CitationPrompt)
    case Some(t) => CitationSynthesizer(t)
  }

  /** The part of a tool's state that enable_citation reads or writes. */
  datatype ToolView = ToolView(
    name: string,
    description: string,
    engineClass: EngineClass,
    synthesizer: ResponseSynthesizer,
    postprocessors: seq<NodePostprocessor>)

  function View(tool: QueryEngineTool): ToolView
    reads tool, tool.queryEngine
  {
    ToolView(tool.name, tool.description, tool.queryEngine.engineClass,
      tool.queryEngine.responseSynthesizer, tool.queryEngine.nodePostprocessors)
  }

  /** The ValueError raised for an engine that is not a RetrieverQueryEngine. */
  datatype CitationError = NotRetrieverQueryEngine(engineClass: EngineClass)

  /**
   * The effect of enable_citation on a tool's state. It fails exactly for an engine that is not
   * a RetrieverQueryEngine. Otherwise it installs the citation synthesiser, keeps the existing
   * post-processors in order and adds one NodeCitationProcessor after them, and appends the
   * citation suffix to the description.
   */
  function CitationEnabled(v: ToolView): (r: Result<ToolView, CitationError>)
    ensures r.Failure? <==> v.engineClass != RetrieverQueryEngine
    ensures r.Success? ==>
      var w := r.value;
      && w.name == v.name && w.engineClass == v.engineClass
      && w.synthesizer == CitationSynthesizer(CitationPrompt)
      && |w.postprocessors| == |v.postprocessors| + 1
      && w.postprocessors[..|v.postprocessors|] == v.postprocessors
      && w.postprocessors[|v.postprocessors|] == NodeCitationProcessor
      && |w.description| == |v.description| + |CitationDescriptionSuffix|
      && w.description[..|v.description|] == v.description
      && w.description[|v.description|..] == CitationDescriptionSuffix
  {
    if v.engineClass != RetrieverQueryEngine then Failure(NotRetrieverQueryEngine(v.engineClass))
    else Success(v.(
      synthesizer := NewCitationSynthesizer(None),
      postprocessors := v.postprocessors + [NodeCitationProcessor],
      description := v.description + CitationDescriptionSuffix))
  }

  function Repeat<T>(x: T, n: nat): seq<T> {
    if n == 0 then [] else Repeat(x, n - 1) + [x]
  }

  function RepeatText(s: string, n: nat): string {
    if n == 0 then [] else RepeatText(s, n - 1) + s
  }

  /** enable_citation called `n` times in a row. */
  function CitationEnabledTimes(v: ToolView, n: nat): Result<ToolView, CitationError> {
    if n == 0 then Success(v)
    else match CitationEnabledTimes(v, n - 1)
      case Failure(e) => Failure(e)
      case Success(w) => CitationEnabled(w)
  }

  /** Appending one more copy to a prefix followed by n - 1 copies gives the prefix followed by n copies. */
  lemma RepeatSnoc<T>(a: seq<T>, x: T, n: nat)
    requires n > 0
    ensures (a + Repeat(x, n - 1)) + [x] == a + Repeat(x, n)
  {
  }

  lemma RepeatTextSnoc(a: string, s: string, n: nat)
    requires n > 0
    ensures (a + RepeatText(s, n - 1)) + s == a + RepeatText(s, n)
  {
  }

  /** One more call on a state whose engine is a RetrieverQueryEngine. */
  lemma CitationEnabledStep(v: ToolView, n: nat)
    requires n > 0
    requires CitationEnabledTimes(v, n - 1).Success?
    requires CitationEnabledTimes(v, n - 1).value.engineClass == RetrieverQueryEngine
    ensures var w, u := CitationEnabledTimes(v, n - 1).value, CitationEnabledTimes(v, n);
      && u.Success?
      && u.value.postprocessors == w.postprocessors + [NodeCitationProcessor]
      && u.value.description == w.description + CitationDescriptionSuffix
      && u.value.name == w.name && u.value.engineClass == w.engineClass
  {
  }

  /** Repeated calls are not idempotent: each adds one more post-processor and one more suffix. */
  lemma {:induction false} CitationEnabledRepeatedly(v: ToolView, n: nat)
    requires v.engineClass == RetrieverQueryEngine
    ensures CitationEnabledTimes(v, n).Success?
    ensures var w := CitationEnabledTimes(v, n).value;
      && w.postprocessors == v.postprocessors + Repeat(NodeCitationProcessor, n)
      && w.description == v.description + RepeatText(CitationDescriptionSuffix, n)
      && w.name == v.name && w.engineClass == v.engineClass
  {
    if n > 0 {
      CitationEnabledRepeatedly(v, n - 1);
      CitationEnabledStep(v, n);
      RepeatSnoc(v.postprocessors, NodeCitationProcessor, n);
      RepeatTextSnoc(v.description, CitationDescriptionSuffix, n);
    }
  }

  /**
   * enable_citation: on a tool whose engine is a RetrieverQueryEngine the tool's state becomes
   * CitationEnabled of the old state and the same tool is returned; otherwise the ValueError
   * comes back and nothing changes.
   */
  method EnableCitation(tool: QueryEngineTool) returns (r: Result<QueryEngineTool, CitationError>)
    modifies tool, tool.queryEngine
    ensures tool.queryEngine == old(tool.queryEngine)
    ensures CitationEnabled(old(View(tool))).Failure? ==>
      r == Failure(CitationEnabled(old(View(tool))).error) && View(tool) == old(View(tool))
    ensures CitationEnabled(old(View(tool))).Success? ==>
      r == Success(tool) && View(tool) == CitationEnabled(old(View(tool))).value
  {
    var queryEngine := tool.queryEngine;
    if queryEngine.engineClass != RetrieverQueryEngine {
      return Failure(NotRetrieverQueryEngine(queryEngine.engineClass));
    }
    queryEngine.responseSynthesizer := NewCitationSynthesizer(None);
    queryEngine.nodePostprocessors := queryEngine.nodePostprocessors + [NodeCitationProcessor];
    tool.queryEngine := queryEngine;
    tool.description := tool.description + CitationDescriptionSuffix;
    return Success(tool);
  }
}
