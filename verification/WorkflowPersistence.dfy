/** Compiling, saving and reloading an editor's graph. */
module WorkflowPersistence {
  import opened Foundations
  import opened GraphSearch
  import opened SimpleWorkflow
  import opened Sorting
  import opened WorkflowEditor
  import opened WorkflowEditorProblems
  import Identifiers

  // ---------- texts ----------

  /** The characters `String.prototype.trim` removes. */
  predicate IsJsBlank(c: char) {
    var n := c as int;
    9 <= n <= 13 || n in {32, 160, 0x1680, 0x2028, 0x2029, 0x202F, 0x205F, 0x3000, 0xFEFF} || 0x2000 <= n <= 0x200A
  }

  const FORBIDDEN_TOKENS: seq<string> := [
    "account", "api_key", "broker_host", "credential", "eval", "ibkr", "import", "javascript", "live_mode",
    "live trading", "password", "route", "script", "secret", "submit", "token", "transmit"]

  function Plain(s: string): (r: string)
    ensures |r| == |s|
  {
    seq(|s|, i requires 0 <= i < |s| => if s[i] == '-' then '_' else Identifiers.LowerChar(s[i]))
  }

  predicate HasForbiddenToken(s: string) {
    exists k :: 0 <= k < |FORBIDDEN_TOKENS| && Identifiers.Contains(Plain(s), FORBIDDEN_TOKENS[k])
  }

  predicate IsText(s: string) {
    (exists i :: 0 <= i < |s| && !IsJsBlank(s[i])) && !HasForbiddenToken(s)
  }

  predicate IsTrimmedText(s: string) {
    IsText(s) && !IsJsBlank(s[0]) && !IsJsBlank(s[|s| - 1])
  }

  // ---------- documents ----------

  datatype Header = Header(
    schemaVersion: int, workflowId: string, mode: string, runtime: string, broker: string,
    riskCheckRequired: bool, approvalRequired: bool, auditSinkRequired: bool,
    brokerTransportAllowed: bool, liveTradingEnabled: bool, arbitraryCodeAllowed: bool)

  const SAFE_HEADER := Header(
    1, "visual-simulation-workflow", "simulation", "preview_only", "fake_broker_only", true, true, true, false, false, false)

  datatype DslNode = DslNode(id: string, kind: NodeType, required: bool)

  datatype DslEdge = DslEdge(source: string, target: string, id: Option<string>)

  datatype Document = Document(header: Header, nodes: seq<DslNode>, edges: seq<DslEdge>)

  function DslNodes(nodes: seq<EditorNode>): (r: seq<DslNode>)
    ensures |r| == |nodes| && forall i :: 0 <= i < |r| ==> r[i] == DslNode(nodes[i].id, nodes[i].kind, nodes[i].required)
  {
    seq(|nodes|, i requires 0 <= i < |nodes| => DslNode(nodes[i].id, nodes[i].kind, nodes[i].required))
  }

  function DslEdges(edges: seq<EditorEdge>): (r: seq<DslEdge>)
    ensures |r| == |edges| && forall i :: 0 <= i < |r| ==> r[i] == DslEdge(edges[i].source, edges[i].target, None)
  {
    seq(|edges|, i requires 0 <= i < |edges| => DslEdge(edges[i].source, edges[i].target, None))
  }

  function DocumentOf(s: EditorState): Document {
    Document(SAFE_HEADER, DslNodes(s.nodes), DslEdges(s.edges))
  }

  ghost predicate Compiles(s: EditorState) {
    Valid(GraphNodes(s.nodes), GraphEdges(s.edges))
  }

  /** A document, exactly when the validator finds nothing wrong. */
  method Compile(s: EditorState) returns (r: Option<Document>)
    ensures r == if Compiles(s) then Some(DocumentOf(s)) else None
  {
    var errors := Validate(GraphNodes(s.nodes), GraphEdges(s.edges));
    return if errors == [] then Some(DocumentOf(s)) else None;
  }

  // ---------- checking a document ----------

  function DocumentNodes(d: Document): (r: seq<Node>)
    ensures |r| == |d.nodes| && forall i :: 0 <= i < |r| ==> r[i] == Node(d.nodes[i].id, d.nodes[i].kind)
  {
    seq(|d.nodes|, i requires 0 <= i < |d.nodes| => Node(d.nodes[i].id, d.nodes[i].kind))
  }

  function DocumentEdges(d: Document): (r: seq<WorkflowEdge>)
    ensures |r| == |d.edges| && forall i :: 0 <= i < |r| ==> r[i] == WorkflowEdge(d.edges[i].source, d.edges[i].target, None)
  {
    seq(|d.edges|, i requires 0 <= i < |d.edges| => WorkflowEdge(d.edges[i].source, d.edges[i].target, None))
  }

  predicate DslNodeFits(n: DslNode) {
    Supported(n.kind) && n.required && IsText(n.id)
  }

  predicate DslEdgeFits(e: DslEdge) {
    IsText(e.source) && IsText(e.target) && (e.id.Some? ==> IsText(e.id.value))
  }

  /** The edge ids a document spells out, in order. */
  function EdgeIds(edges: seq<DslEdge>): seq<string> {
    if edges == [] then [] else
    EdgeIds(edges[..|edges| - 1]) + if edges[|edges| - 1].id.Some? then [edges[|edges| - 1].id.value] else []
  }

  ghost predicate DocumentFits(d: Document) {
    && d.header == SAFE_HEADER
    && (forall i :: 0 <= i < |d.nodes| ==> DslNodeFits(d.nodes[i]))
    && (forall i :: 0 <= i < |d.edges| ==> DslEdgeFits(d.edges[i]))
    && Distinct(EdgeIds(d.edges))
    && Valid(DocumentNodes(d), DocumentEdges(d))
  }

  /** The document as validation returns it: edge ids are dropped. */
  function Stripped(d: Document): Document {
    Document(d.header, d.nodes, seq(|d.edges|, i requires 0 <= i < |d.edges| => d.edges[i].(id := None)))
  }

  method ValidateDocument(d: Document) returns (r: Option<Document>)
    ensures r == if DocumentFits(d) then Some(Stripped(d)) else None
  {
    hide DslNodeFits, DslEdgeFits, Valid, Distinct, Elements;
    if d.header != SAFE_HEADER {
      return None;
    }
    for i := 0 to |d.nodes|
      invariant forall k :: 0 <= k < i ==> DslNodeFits(d.nodes[k])
    {
      if !DslNodeFits(d.nodes[i]) {
        return None;
      }
    }
    var edgeIds: seq<string> := [];
    for i := 0 to |d.edges|
      invariant forall k :: 0 <= k < i ==> DslEdgeFits(d.edges[k])
      invariant edgeIds == EdgeIds(d.edges[..i])
    {
      if !DslEdgeFits(d.edges[i]) {
        return None;
      }
      assert d.edges[..i + 1][..i] == d.edges[..i];
      if d.edges[i].id.Some? {
        edgeIds := edgeIds + [d.edges[i].id.value];
      }
    }
    assert d.edges[..|d.edges|] == d.edges;
    DistinctBySize(edgeIds);
    if |set x | x in edgeIds| != |edgeIds| {
      return None;
    }
    var errors := Validate(DocumentNodes(d), DocumentEdges(d));
    if errors != [] {
      return None;
    }
    return Some(Stripped(d));
  }

  lemma DistinctBySize(s: seq<string>)
    ensures |set x | x in s| == |s| <==> Distinct(s)
  {
    DistinctIffFullSize(s);
    assert (set x | x in s) == Elements(s);
  }

  // ---------- saving and loading ----------

  datatype Metadata = Metadata(workflowId: string, displayName: string, description: string)
  {
    predicate Valid() {
      IsTrimmedText(workflowId) && IsText(displayName) && IsText(description)
    }
  }

  datatype SaveRequest = SaveRequest(metadata: Metadata, requestedAt: Timestamp, document: Document)

  /** A stored definition, as the service returns it. */
  datatype StoredDefinition = StoredDefinition(
    metadata: Metadata, version: int, createdAt: Timestamp, updatedAt: Timestamp, document: Document)

  /** A request, when the draft compiled and every part of it passes its check. */
  method BuildRequest(metadata: Metadata, compiled: Option<Document>, requestedAt: Option<Timestamp>)
    returns (r: Option<SaveRequest>)
    ensures r.Some? <==> compiled.Some? && metadata.Valid() && requestedAt.Some? && DocumentFits(compiled.value)
    ensures r.Some? ==> r.value == SaveRequest(metadata, requestedAt.value, Stripped(compiled.value))
  {
    hide IsText, IsTrimmedText, DocumentFits;
    if compiled.None? || !metadata.Valid() || requestedAt.None? {
      return None;
    }
    var document := ValidateDocument(compiled.value);
    return if document.None? then None else Some(SaveRequest(metadata, requestedAt.value, document.value));
  }

  ghost predicate DefinitionFits(r: StoredDefinition) {
    r.metadata.Valid() && r.version >= 1 && Milliseconds(r.updatedAt) >= Milliseconds(r.createdAt) && DocumentFits(r.document)
  }

  function LoadedNodes(nodes: seq<DslNode>): (r: seq<EditorNode>)
    ensures |r| == |nodes|
    ensures forall i :: 0 <= i < |r| ==>
                          r[i] == EditorNode(nodes[i].id, nodes[i].kind, nodes[i].required, TemplatePosition(nodes[i].kind))
  {
    seq(|nodes|, i requires 0 <= i < |nodes| =>
      EditorNode(nodes[i].id, nodes[i].kind, nodes[i].required, TemplatePosition(nodes[i].kind)))
  }

  function LoadedEdges(edges: seq<DslEdge>): (r: seq<EditorEdge>)
    ensures |r| == |edges| && forall i :: 0 <= i < |r| ==> r[i] == NewEdge(edges[i].source, edges[i].target)
  {
    seq(|edges|, i requires 0 <= i < |edges| => NewEdge(edges[i].source, edges[i].target))
  }

  /** The editor state a document opens as. */
  function Opened(d: Document): EditorState {
    EditorState(SortBy(LoadedNodes(d.nodes), EarlierInCatalogue), LoadedEdges(d.edges), None)
  }

  method ToEditorState(record: StoredDefinition) returns (r: Option<EditorState>)
    ensures r == if DefinitionFits(record) then Some(Opened(record.document)) else None
  {
    hide IsText, IsTrimmedText, DocumentFits;
    if !record.metadata.Valid() || record.version < 1 || Milliseconds(record.updatedAt) < Milliseconds(record.createdAt) {
      return None;
    }
    var document := ValidateDocument(record.document);
    if document.None? {
      return None;
    }
    assert LoadedEdges(document.value.edges) == LoadedEdges(record.document.edges);
    return Some(Opened(document.value));
  }

  // ---------- fingerprints ----------

  type NodeRow = (string, NodeType, bool)

  type EdgeRow = (string, string, string)

  datatype Fingerprint = Fingerprint(metadata: Metadata, nodes: seq<NodeRow>, edges: seq<EdgeRow>)

  function NodeRows(nodes: seq<EditorNode>): (r: seq<NodeRow>)
    ensures |r| == |nodes| && forall i :: 0 <= i < |r| ==> r[i] == (nodes[i].id, nodes[i].kind, nodes[i].required)
  {
    seq(|nodes|, i requires 0 <= i < |nodes| => (nodes[i].id, nodes[i].kind, nodes[i].required))
  }

  function EdgeRows(edges: seq<EditorEdge>): (r: seq<EdgeRow>)
    ensures |r| == |edges| && forall i :: 0 <= i < |r| ==> r[i] == (edges[i].source, edges[i].target, edges[i].edgeType)
  {
    seq(|edges|, i requires 0 <= i < |edges| => (edges[i].source, edges[i].target, edges[i].edgeType))
  }

  function RowsBefore(before: (string, string) -> bool): (NodeRow, NodeRow) -> bool {
    (a: NodeRow, b: NodeRow) => before(a.0, b.0)
  }

  function EdgeRowsBefore(before: (string, string) -> bool): (EdgeRow, EdgeRow) -> bool {
    (a: EdgeRow, b: EdgeRow) => before(Key(a.0, a.1), Key(b.0, b.1))
  }

  /** What a draft is recognised by; `before` is the locale's order of texts. */
  function DraftFingerprint(metadata: Metadata, s: EditorState, before: (string, string) -> bool): Fingerprint {
    Fingerprint(metadata, SortBy(NodeRows(s.nodes), RowsBefore(before)), SortBy(EdgeRows(s.edges), EdgeRowsBefore(before)))
  }
}
