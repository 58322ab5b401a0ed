/** Saving a compiled draft and opening it again brings back the same draft. */
module WorkflowRoundTrip {
  import opened Foundations
  import opened GraphSearch
  import opened SimpleWorkflow
  import opened Sorting
  import opened WorkflowEditor
  import opened WorkflowEditorProblems
  import opened WorkflowPersistence
  import opened SimpleWorkflowReordering
  import SimpleWorkflowShape

  /** A strict total order on texts. */
  ghost predicate IsTextOrder(before: (string, string) -> bool) {
    && (forall x :: !before(x, x))
    && (forall x, y, z :: before(x, y) && before(y, z) ==> before(x, z))
    && (forall x, y :: x != y ==> before(x, y) || before(y, x))
  }

  // ---------- the nodes ----------

  ghost predicate Reorders<T(!new)>(a: seq<T>, b: seq<T>) {
    |a| == |b| && forall x :: x in a <==> x in b
  }

  lemma RowsFollow(a: seq<EditorNode>, b: seq<EditorNode>)
    requires Reorders(a, b)
    ensures Reorders(NodeRows(a), NodeRows(b)) && Reorders(DslNodes(a), DslNodes(b)) && SameNodes(GraphNodes(a), GraphNodes(b))
  {
    RowsWithin(a, b);
    RowsWithin(b, a);
  }

  lemma RowsWithin(a: seq<EditorNode>, b: seq<EditorNode>)
    requires forall n :: n in a ==> n in b
    ensures forall x :: x in NodeRows(a) ==> x in NodeRows(b)
    ensures forall x :: x in DslNodes(a) ==> x in DslNodes(b)
    ensures forall x :: x in GraphNodes(a) ==> x in GraphNodes(b)
  {
    forall i | 0 <= i < |a|
      ensures NodeRows(a)[i] in NodeRows(b) && DslNodes(a)[i] in DslNodes(b) && GraphNodes(a)[i] in GraphNodes(b)
    {
      assert a[i] in b;
      var j :| 0 <= j < |b| && b[j] == a[i];
      assert NodeRows(b)[j] == NodeRows(a)[i] && DslNodes(b)[j] == DslNodes(a)[i] && GraphNodes(b)[j] == GraphNodes(a)[i];
    }
  }

  /** What opening a draft's own document restores before sorting: everything but the positions. */
  lemma LoadedMatches(nodes: seq<EditorNode>)
    ensures NodeRows(LoadedNodes(DslNodes(nodes))) == NodeRows(nodes)
    ensures DslNodes(LoadedNodes(DslNodes(nodes))) == DslNodes(nodes)
    ensures GraphNodes(LoadedNodes(DslNodes(nodes))) == GraphNodes(nodes)
  {
  }

  lemma DistinctIds(nodes: seq<EditorNode>, edges: seq<WorkflowEdge>)
    requires Valid(GraphNodes(nodes), edges)
    ensures forall i, j :: 0 <= i < j < |nodes| ==> nodes[i].id != nodes[j].id && nodes[i].kind != nodes[j].kind
  {
    SimpleWorkflowShape.ValidHasNineNodes(GraphNodes(nodes), edges);
    forall i, j | 0 <= i < j < |nodes| ensures nodes[i].id != nodes[j].id && nodes[i].kind != nodes[j].kind {
      assert Ids(GraphNodes(nodes))[i] != Ids(GraphNodes(nodes))[j];
      var kinds := Kinds(GraphNodes(nodes));
      assert !IsProblem(GraphNodes(nodes), edges, DuplicateNodeType(kinds[i]));
      assert kinds[i] == nodes[i].kind && kinds[j] == nodes[j].kind;
    }
  }

  /** Sorted by id, rows that differ in id do not depend on the order they came in. */
  lemma SortedRowsAgree(a: seq<NodeRow>, b: seq<NodeRow>, before: (string, string) -> bool)
    requires IsTextOrder(before) && Reorders(a, b)
    requires forall i, j :: 0 <= i < j < |a| ==> a[i].0 != a[j].0
    ensures SortBy(a, RowsBefore(before)) == SortBy(b, RowsBefore(before))
  {
    var less := RowsBefore(before);
    var among := iset x | x in a;
    forall x, y, z ensures !less(x, x) && (less(x, y) && less(y, z) ==> less(x, z)) {
      assert less(x, x) == before(x.0, x.0) && less(x, y) == before(x.0, y.0);
      assert less(y, z) == before(y.0, z.0) && less(x, z) == before(x.0, z.0);
    }
    forall x, y | x in among && y in among && x != y ensures less(x, y) || less(y, x) {
      var i :| 0 <= i < |a| && a[i] == x;
      var j :| 0 <= j < |a| && a[j] == y;
      assert less(x, y) == before(x.0, y.0) && less(y, x) == before(y.0, x.0);
      assert i < j || j < i;
    }
    ReorderedDistinct(a, b);
    SortForgetsOrder(a, b, RowsBefore(before), among);
  }

  lemma ReorderedDistinct(a: seq<NodeRow>, b: seq<NodeRow>)
    requires Reorders(a, b) && forall i, j :: 0 <= i < j < |a| ==> a[i].0 != a[j].0
    ensures Distinct(a) && Distinct(b)
  {
    DistinctIffFullSize(a);
    DistinctIffFullSize(b);
    assert Elements(a) == Elements(b);
  }

  // ---------- the edges ----------

  lemma LoadedEdgesMatch(edges: seq<EditorEdge>)
    requires forall e :: e in GraphEdges(edges) ==> e.IsWorkflow()
    ensures var loaded := LoadedEdges(DslEdges(edges));
            EdgeRows(loaded) == EdgeRows(edges) && DslEdges(loaded) == DslEdges(edges) && SameEdges(GraphEdges(edges), GraphEdges(loaded))
  {
    var loaded := LoadedEdges(DslEdges(edges));
    forall i | 0 <= i < |edges| ensures edges[i].edgeType == "workflow" {
      assert GraphEdges(edges)[i] in GraphEdges(edges);
    }
    assert Pairs(GraphEdges(edges)) == Pairs(GraphEdges(loaded));
  }

  lemma StrippedIsSame(edges: seq<EditorEdge>)
    ensures Stripped(Document(SAFE_HEADER, [], DslEdges(edges))).edges == DslEdges(edges)
  {
  }

  lemma CompiledEdgesAreWorkflow(s: EditorState)
    requires Compiles(s)
    ensures forall e :: e in GraphEdges(s.edges) ==> e.IsWorkflow()
  {
    forall e | e in GraphEdges(s.edges) ensures e.IsWorkflow() {
      assert !IsProblem(GraphNodes(s.nodes), GraphEdges(s.edges), UnsupportedEdgeType(e));
    }
  }

  // ---------- the round trip ----------

  /** Opening a compiled draft's document: the same fingerprint, and a document equal up to the order of its nodes. */
  lemma OpeningRestores(metadata: Metadata, s: EditorState, before: (string, string) -> bool)
    requires Compiles(s) && IsTextOrder(before)
    ensures var back := Opened(DocumentOf(s));
            && DraftFingerprint(metadata, back, before) == DraftFingerprint(metadata, s, before)
            && Compiles(back)
            && Reorders(DocumentOf(back).nodes, DocumentOf(s).nodes)
            && DocumentOf(back).edges == DocumentOf(s).edges
  {
    hide Valid, StrictlyOrders, IsTextOrder, SameNodes, SameEdges, SortBy, TemplatePosition;
    var loaded := LoadedNodes(DslNodes(s.nodes));
    var back := Opened(DocumentOf(s));
    LoadedMatches(s.nodes);
    assert Reorders(back.nodes, loaded);
    RowsFollow(loaded, back.nodes);
    CompiledEdgesAreWorkflow(s);
    LoadedEdgesMatch(s.edges);
    DistinctIds(s.nodes, GraphEdges(s.edges));
    SortedRowsAgree(NodeRows(loaded), NodeRows(back.nodes), before);
    ReorderedStaysValid(GraphNodes(s.nodes), GraphNodes(back.nodes), GraphEdges(s.edges), GraphEdges(back.edges));
  }

  /** When the draft lists its nodes in catalogue order, the document comes back exactly. */
  lemma OpeningKeepsCatalogueOrder(s: EditorState)
    requires InCatalogueOrder(s.nodes)
    ensures DocumentOf(Opened(DocumentOf(s))) == DocumentOf(s)
  {
    hide TemplatePosition;
    var loaded := LoadedNodes(DslNodes(s.nodes));
    forall i, j | 0 <= i < j < |loaded| ensures EarlierInCatalogue(loaded[i], loaded[j]) {
      assert EarlierInCatalogue(s.nodes[i], s.nodes[j]);
    }
    RisingIsOrdered(loaded);
    SortingOrdered(loaded, EarlierInCatalogue);
    LoadedMatches(s.nodes);
    assert DslEdges(LoadedEdges(DslEdges(s.edges))) == DslEdges(s.edges);
  }

  /**
    Save and load: any draft that compiles and builds a request, stored under the request's own
    metadata and document, opens with the fingerprint it was saved with and compiles to the same
    document, up to the order of the nodes, which is kept too exactly when it is the catalogue's.
   */
  lemma SaveLoadRoundTrip(metadata: Metadata, s: EditorState, record: StoredDefinition, before: (string, string) -> bool)
    requires IsTextOrder(before)
    requires Compiles(s) && metadata.Valid() && DocumentFits(DocumentOf(s))
    requires record.metadata == metadata && record.document == Stripped(DocumentOf(s))
    requires record.version >= 1 && Milliseconds(record.updatedAt) >= Milliseconds(record.createdAt)
    ensures DefinitionFits(record)
    ensures var back := Opened(record.document);
            && DraftFingerprint(record.metadata, back, before) == DraftFingerprint(metadata, s, before)
            && Compiles(back)
            && Reorders(DocumentOf(back).nodes, DocumentOf(s).nodes)
            && DocumentOf(back).edges == DocumentOf(s).edges
            && (DocumentOf(back) == DocumentOf(s) <==> InCatalogueOrder(s.nodes))
  {
    hide IsText, IsTrimmedText, Compiles, Opened, DraftFingerprint, Reorders, DocumentFits, InCatalogueOrder, IsTextOrder;
    StrippedIsSame(s.edges);
    assert Stripped(DocumentOf(s)) == DocumentOf(s);
    OpeningRestores(metadata, s, before);
    if InCatalogueOrder(s.nodes) {
      OpeningKeepsCatalogueOrder(s);
    }
    if DocumentOf(Opened(record.document)) == DocumentOf(s) {
      OpenedIsInOrder(record.document);
      OrderIsOfKinds(Opened(record.document).nodes, s.nodes);
    }
  }

  lemma OpenedIsInOrder(d: Document)
    requires DocumentFits(d)
    ensures InCatalogueOrder(Opened(d).nodes)
  {
    hide DocumentFits, Opened;
    OpenedNodesAreTidy(d);
  }

  lemma OrderIsOfKinds(a: seq<EditorNode>, b: seq<EditorNode>)
    requires DslNodes(a) == DslNodes(b) && InCatalogueOrder(a)
    ensures InCatalogueOrder(b)
  {
    forall i, j | 0 <= i < j < |b| ensures EarlierInCatalogue(b[i], b[j]) {
      assert DslNodes(a)[i] == DslNodes(b)[i] && DslNodes(a)[j] == DslNodes(b)[j];
      assert EarlierInCatalogue(a[i], a[j]);
    }
  }

  // ---------- what opens is tidy ----------

  lemma LoadedNodesDiffer(d: Document)
    requires DocumentFits(d)
    ensures forall i, j :: 0 <= i < j < |d.nodes| ==> d.nodes[i].id != d.nodes[j].id && d.nodes[i].kind != d.nodes[j].kind
  {
    var nodes, edges := DocumentNodes(d), DocumentEdges(d);
    SimpleWorkflowShape.ValidHasNineNodes(nodes, edges);
    forall i, j | 0 <= i < j < |nodes| ensures d.nodes[i].id != d.nodes[j].id && d.nodes[i].kind != d.nodes[j].kind {
      assert Ids(nodes)[i] != Ids(nodes)[j];
      assert !IsProblem(nodes, edges, DuplicateNodeType(Kinds(nodes)[i]));
      assert Kinds(nodes)[i] == d.nodes[i].kind && Kinds(nodes)[j] == d.nodes[j].kind;
    }
  }

  lemma LoadedAreSafe(d: Document)
    requires DocumentFits(d)
    ensures forall n :: n in LoadedNodes(d.nodes) ==> SafeNode(n)
  {
    hide TemplatePosition, Valid, Distinct;
    var loaded := LoadedNodes(d.nodes);
    forall n | n in loaded ensures SafeNode(n) {
      var i :| 0 <= i < |loaded| && loaded[i] == n;
      assert d.nodes[i] in d.nodes && DslNodeFits(d.nodes[i]);
    }
  }

  lemma LoadedDiffer(d: Document)
    requires forall i, j :: 0 <= i < j < |d.nodes| ==> d.nodes[i].id != d.nodes[j].id && d.nodes[i].kind != d.nodes[j].kind
    ensures forall m, n :: m in LoadedNodes(d.nodes) && n in LoadedNodes(d.nodes) && m != n ==> m.id != n.id && m.kind != n.kind
  {
    hide TemplatePosition;
    var loaded := LoadedNodes(d.nodes);
    forall m, n | m in loaded && n in loaded && m != n ensures m.id != n.id && m.kind != n.kind {
      var i :| 0 <= i < |loaded| && loaded[i] == m;
      var j :| 0 <= j < |loaded| && loaded[j] == n;
      assert i < j || j < i;
    }
  }

  lemma OpenedNodesAreTidy(d: Document)
    requires DocumentFits(d)
    ensures TidyNodes(Opened(d).nodes)
  {
    hide DocumentFits, LoadedNodes, TemplatePosition, Distinct;
    var loaded := LoadedNodes(d.nodes);
    var among := iset n | n in loaded;
    LoadedNodesDiffer(d);
    LoadedAreSafe(d);
    LoadedDiffer(d);
    forall m, n | m in among && n in among && m != n ensures EarlierInCatalogue(m, n) || EarlierInCatalogue(n, m) {
      if CatalogueIndex(m.kind) == CatalogueIndex(n.kind) {
        assert SafeNode(m) && SafeNode(n);
        StagesDiffer(m.kind, n.kind);
      }
    }
    LoadedAreDistinct(d);
    SortRises(loaded, EarlierInCatalogue, among);
  }

  lemma LoadedAreDistinct(d: Document)
    requires forall i, j :: 0 <= i < j < |d.nodes| ==> d.nodes[i].id != d.nodes[j].id && d.nodes[i].kind != d.nodes[j].kind
    ensures Distinct(LoadedNodes(d.nodes))
  {
    hide TemplatePosition;
    var loaded := LoadedNodes(d.nodes);
    forall i, j | 0 <= i < j < |loaded| ensures loaded[i] != loaded[j] {
      assert d.nodes[i].id != d.nodes[j].id;
    }
  }

  lemma LoopIsCycle(nodes: seq<string>, edges: seq<Edge>, id: string)
    requires id in nodes && (id, id) in edges
    ensures HasDirectedCycle(nodes, edges)
  {
    assert Joins(nodes, edges, [id, id][0], [id, id][1]);
    assert IsCycle(nodes, edges, [id, id]);
  }

  lemma OpenedEdgeFits(d: Document, i: nat)
    requires DocumentFits(d) && i < |d.edges|
    ensures EdgeFits(Opened(d).nodes, LoadedEdges(d.edges)[i])
  {
    var nodes, edges := DocumentNodes(d), DocumentEdges(d);
    var e := LoadedEdges(d.edges)[i];
    assert edges[i] in edges && !IsProblem(nodes, edges, UnknownEdgeEndpoint(edges[i])) && !IsProblem(nodes, edges, CycleDetected);
    hide DocumentFits, HasDirectedCycle, Valid, TemplatePosition, SortBy;
    assert e.source in Ids(nodes) && e.target in Ids(nodes);
    assert Pairs(edges)[i] == (e.source, e.target);
    if e.source == e.target {
      LoopIsCycle(Ids(nodes), Pairs(edges), e.source);
    }
    OpenedNames(d, e.source);
    OpenedNames(d, e.target);
  }

  lemma OpenedNames(d: Document, id: string)
    requires id in Ids(DocumentNodes(d))
    ensures NamesNode(Opened(d).nodes, id)
  {
    hide SortBy, TemplatePosition;
    var i :| 0 <= i < |d.nodes| && Ids(DocumentNodes(d))[i] == id;
    assert LoadedNodes(d.nodes)[i] in Opened(d).nodes;
  }

  /** A stored document opens as a tidy state, from which every sequence of edits stays tidy. */
  lemma OpenedIsTidy(d: Document, edits: seq<Edit>)
    requires DocumentFits(d)
    ensures Tidy(Edited(Opened(d), edits))
  {
    hide TidyNodes, EdgeFits;
    var edges := LoadedEdges(d.edges);
    OpenedNodesAreTidy(d);
    forall e | e in edges ensures EdgeFits(Opened(d).nodes, e) {
      var i :| 0 <= i < |edges| && edges[i] == e;
      OpenedEdgeFits(d, i);
    }
    forall i, j | 0 <= i < j < |edges| ensures !SamePair(edges[i], edges[j]) {
      var keys := Keys(DocumentEdges(d));
      assert !IsProblem(DocumentNodes(d), DocumentEdges(d), DuplicateEdge(keys[i]));
      assert keys[i] != keys[j];
    }
    EditsKeepTidy(Opened(d), edits);
  }
}
