/** Edges are removed by id: what a removal takes away, and when an id names one edge only. */
module WorkflowEdgeIds {
  import opened Foundations
  import opened SimpleWorkflow
  import opened SimpleWorkflowShape
  import opened Sorting
  import opened WorkflowEditor
  import opened WorkflowEditorProblems
  import opened WorkflowPersistence
  import Identifiers
  import WorkflowRoundTrip

  // ---------- what removing by id takes away ----------

  predicate Touches(e: EditorEdge, id: string) {
    e.source == id || e.target == id
  }

  /** The edges that do not touch the node, in order. */
  function Untouched(edges: seq<EditorEdge>, id: string): seq<EditorEdge> {
    if edges == [] then [] else
    Untouched(edges[..|edges| - 1], id) + if Touches(edges[|edges| - 1], id) then [] else [edges[|edges| - 1]]
  }

  lemma {:induction false} UntouchedHolds(edges: seq<EditorEdge>, id: string)
    ensures forall e :: e in Untouched(edges, id) <==> e in edges && !Touches(e, id)
  {
    if edges != [] {
      UntouchedHolds(edges[..|edges| - 1], id);
      assert edges == edges[..|edges| - 1] + [edges[|edges| - 1]];
    }
  }

  lemma WithoutEdgesStep(edges: seq<EditorEdge>, e: EditorEdge, ids: set<string>)
    ensures WithoutEdges(edges + [e], ids) == WithoutEdges(edges, ids) + if e.id in ids then [] else [e]
  {
    assert (edges + [e])[..|edges|] == edges;
  }

  lemma NoneFiltered(ids: set<string>)
    ensures WithoutEdges([], ids) == []
  {
  }

  lemma {:induction false} NothingFiltered(edges: seq<EditorEdge>, ids: set<string>)
    requires forall k :: 0 <= k < |edges| ==> edges[k].id !in ids
    ensures WithoutEdges(edges, ids) == edges
  {
    hide WithoutEdges;
    if edges == [] {
      NoneFiltered(ids);
    } else {
      var front, last := edges[..|edges| - 1], edges[|edges| - 1];
      NothingFiltered(front, ids);
      WithoutEdgesStep(front, last, ids);
      assert edges == front + [last];
    }
  }

  lemma CutBeforeLast<T>(s: seq<T>, i: nat)
    requires i < |s| - 1
    ensures var front := s[..|s| - 1];
            s[..i] + s[i + 1..] == front[..i] + front[i + 1..] + [s[|s| - 1]]
  {
    var front := s[..|s| - 1];
    assert s[i + 1..] == front[i + 1..] + [s[|s| - 1]];
  }

  lemma {:induction false} CutOne(edges: seq<EditorEdge>, i: nat)
    requires i < |edges| && forall j :: 0 <= j < |edges| && j != i ==> edges[j].id != edges[i].id
    ensures WithoutEdges(edges, {edges[i].id}) == edges[..i] + edges[i + 1..]
  {
    hide WithoutEdges;
    var front, last, ids := edges[..|edges| - 1], edges[|edges| - 1], {edges[i].id};
    assert edges == front + [last];
    WithoutEdgesStep(front, last, ids);
    if i == |front| {
      NothingFiltered(front, ids);
    } else {
      CutOne(front, i);
      CutBeforeLast(edges, i);
    }
  }

  lemma NotCut(edges: seq<EditorEdge>, i: nat, j: nat)
    requires i < |edges| && j < |edges| && j != i
    ensures edges[j] in edges[..i] + edges[i + 1..]
  {
    var rest := edges[..i] + edges[i + 1..];
    assert edges[j] == if j < i then rest[j] else rest[j - 1];
  }

  /** Removing an edge by its id removes that edge alone exactly when no other edge has the id. */
  lemma RemoveEdgeExactlyWhen(s: EditorState, i: nat)
    requires i < |s.edges|
    ensures RemoveEdge(s, s.edges[i].id).state.edges == s.edges[..i] + s.edges[i + 1..] <==>
            forall j :: 0 <= j < |s.edges| && j != i ==> s.edges[j].id != s.edges[i].id
  {
    var edges := s.edges;
    assert HasEdge(s, edges[i].id);
    if RemoveEdge(s, edges[i].id).state.edges == edges[..i] + edges[i + 1..] {
      forall j | 0 <= j < |edges| && j != i ensures edges[j].id != edges[i].id {
        NotCut(edges, i, j);
        assert edges[j] in WithoutEdges(edges, {edges[i].id});
      }
    } else {
      if forall j :: 0 <= j < |edges| && j != i ==> edges[j].id != edges[i].id {
        CutOne(edges, i);
      }
    }
  }

  /** Some edge that touches the node shares its id with one that does not. */
  ghost predicate SharesIdAway(edges: seq<EditorEdge>, id: string) {
    exists e, f :: e in edges && f in edges && Touches(e, id) && !Touches(f, id) && e.id == f.id
  }

  function TouchingIds(edges: seq<EditorEdge>, id: string): set<string> {
    set e | e in edges && (e.source == id || e.target == id) :: e.id
  }

  lemma {:induction false} FiltersAgree(edges: seq<EditorEdge>, ids: set<string>, id: string)
    requires forall e :: e in edges ==> (e.id in ids <==> Touches(e, id))
    ensures WithoutEdges(edges, ids) == Untouched(edges, id)
  {
    if edges != [] {
      var front := edges[..|edges| - 1];
      assert edges[|edges| - 1] in edges && forall e :: e in front ==> e in edges;
      FiltersAgree(front, ids, id);
    }
  }

  /** Removing a node removes the edges that touch it and no other exactly when no id is shared between the two kinds. */
  lemma RemoveNodeExactlyWhen(s: EditorState, id: string)
    requires HasNode(s, id)
    ensures RemoveNode(s, id).state.edges == Untouched(s.edges, id) <==> !SharesIdAway(s.edges, id)
  {
    hide Touches, HasNode;
    var ids := TouchingIds(s.edges, id);
    assert RemoveNode(s, id).state.edges == WithoutEdges(s.edges, ids);
    forall x ensures x in ids <==> exists e :: e in s.edges && Touches(e, id) && e.id == x {
      TouchingIdsHold(s.edges, id, x);
    }
    hide RemoveNode, TouchingIds;
    UntouchedHolds(s.edges, id);
    if SharesIdAway(s.edges, id) {
      var e, f :| e in s.edges && f in s.edges && Touches(e, id) && !Touches(f, id) && e.id == f.id;
      assert f in Untouched(s.edges, id) && f !in WithoutEdges(s.edges, ids);
    } else {
      forall f | f in s.edges ensures f.id in ids <==> Touches(f, id) {
        if f.id in ids {
          var e :| e in s.edges && Touches(e, id) && e.id == f.id;
          assert Touches(f, id);
        }
      }
      FiltersAgree(s.edges, ids, id);
    }
  }

  lemma TouchingIdsHold(edges: seq<EditorEdge>, id: string, x: string)
    ensures x in TouchingIds(edges, id) <==> exists e :: e in edges && Touches(e, id) && e.id == x
  {
  }

  /** Removing a node also removes whatever shares its id with an edge that touches it. */
  lemma TouchedIsRemoved(s: EditorState, e: EditorEdge, f: EditorEdge, id: string)
    requires HasNode(s, id) && e in s.edges && Touches(e, id) && e.id == f.id
    ensures f !in RemoveNode(s, id).state.edges
  {
    hide HasNode;
  }

  // ---------- edits of the initial graph ----------

  /** Every node still has the id its type has in the catalogue. */
  ghost predicate CatalogueNames(nodes: seq<EditorNode>) {
    forall n :: n in nodes ==> Supported(n.kind) && n.id == TemplateId(n.kind)
  }

  lemma ApplyKeepsCatalogueNames(s: EditorState, edit: Edit)
    requires CatalogueNames(s.nodes)
    ensures CatalogueNames(Apply(s, edit).nodes)
  {
    hide TemplateId, TemplatePosition, INITIAL, HasNode, HasEdge;
    match edit
    case ResetEdit => InitialHasCatalogueNames();
    case MoveEdit(id, position) =>
      forall n | n in MovedNodes(s.nodes, id, position) ensures Supported(n.kind) && n.id == TemplateId(n.kind) {
        var i :| 0 <= i < |s.nodes| && MovedNodes(s.nodes, id, position)[i] == n;
        assert s.nodes[i] in s.nodes;
      }
    case _ =>
  }

  lemma InitialHasCatalogueNames()
    ensures CatalogueNames(INITIAL.nodes)
  {
    hide INITIAL, TemplateId, TemplatePosition, STAGES;
    forall n | n in INITIAL.nodes ensures Supported(n.kind) && n.id == TemplateId(n.kind) {
      var k :| 0 <= k < |INITIAL.nodes| && INITIAL.nodes[k] == n;
      InitialNode(k);
    }
  }

  lemma {:induction false} EditsKeepCatalogueNames(edits: seq<Edit>)
    ensures CatalogueNames(Edited(INITIAL, edits).nodes)
  {
    hide CatalogueNames, Apply, INITIAL;
    if edits == [] {
      InitialHasCatalogueNames();
    } else {
      EditsKeepCatalogueNames(edits[..|edits| - 1]);
      ApplyKeepsCatalogueNames(Edited(INITIAL, edits[..|edits| - 1]), edits[|edits| - 1]);
    }
  }

  /** The beginning of the joint "-to-" stands somewhere in the text. */
  predicate HasJoint(s: string) {
    exists i :: 0 <= i < |s| - 2 && s[i] == '-' && s[i + 1] == 't' && s[i + 2] == 'o'
  }

  /** The one place of a catalogue id that holds a hyphen, if there is one. */
  function HyphenOf(kind: NodeType): nat {
    match kind
    case ReplaySource => 6
    case BarBuilder => 3
    case StrategyTrigger => 8
    case RiskCheck => 4
    case ApprovalTicket => 8
    case FakeBroker => 4
    case PositionUpdate => 8
    case _ => 5
  }

  lemma OnlyHyphen(kind: NodeType)
    requires Supported(kind)
    ensures forall i :: 0 <= i < |TemplateId(kind)| && i != HyphenOf(kind) ==> TemplateId(kind)[i] != '-'
  {
  }

  lemma NoJointAtHyphen(kind: NodeType)
    requires Supported(kind) && HyphenOf(kind) + 2 < |TemplateId(kind)| && TemplateId(kind)[HyphenOf(kind) + 1] == 't'
    ensures TemplateId(kind)[HyphenOf(kind) + 2] != 'o'
  {
  }

  lemma CatalogueIdsHaveNoJoint(kind: NodeType)
    requires Supported(kind)
    ensures !HasJoint(TemplateId(kind))
  {
    hide TemplateId, HyphenOf;
    OnlyHyphen(kind);
    if HyphenOf(kind) + 2 < |TemplateId(kind)| && TemplateId(kind)[HyphenOf(kind) + 1] == 't' {
      NoJointAtHyphen(kind);
    }
  }

  /** Without the joint in its source, the id of an edge tells both its ends. */
  lemma EdgeIdTellsEnds(a: string, b: string, c: string, d: string)
    requires !HasJoint(a) && !HasJoint(c) && NewEdge(a, b).id == NewEdge(c, d).id
    ensures a == c && b == d
  {
    if |a| < |c| {
      JointIsWithin(a, b, c, d);
    } else if |c| < |a| {
      JointIsWithin(c, d, a, b);
    } else {
      var id := NewEdge(a, b).id;
      assert id[..|a|] == a && id[..|a|] == c;
      assert id[|a| + 4..] == b && id[|a| + 4..] == d;
    }
  }

  /** The joint after the shorter source would lie within the longer one. */
  lemma JointIsWithin(a: string, b: string, c: string, d: string)
    requires |a| < |c| && NewEdge(a, b).id == NewEdge(c, d).id
    ensures HasJoint(c)
  {
    var n, id := |a|, NewEdge(a, b).id;
    assert id == NewEdge(c, d).id;
    assert id[n] == '-' && id[n + 1] == 't' && id[n + 2] == 'o';
    assert id[|c|] == '-' && id[|c| + 1] == 't';
    assert |c| != n + 1 && |c| != n + 2;
    assert c[n] == id[n] && c[n + 1] == id[n + 1] && c[n + 2] == id[n + 2];
  }

  ghost predicate EdgeIdsDiffer(edges: seq<EditorEdge>) {
    forall i, j :: 0 <= i < j < |edges| ==> edges[i].id != edges[j].id
  }

  lemma SourceHasNoJoint(s: EditorState, i: nat)
    requires Tidy(s) && CatalogueNames(s.nodes) && i < |s.edges|
    ensures s.edges[i] == NewEdge(s.edges[i].source, s.edges[i].target) && !HasJoint(s.edges[i].source)
  {
    hide TidyNodes, HasJoint, NewEdge, TemplateId, Selectable;
    assert s.edges[i] in s.edges && EdgeFits(s.nodes, s.edges[i]);
    var n :| n in s.nodes && n.id == s.edges[i].source;
    CatalogueIdsHaveNoJoint(n.kind);
  }

  /** After any edits of the initial graph no two edges share an id. */
  lemma EditedEdgeIdsDiffer(edits: seq<Edit>)
    ensures EdgeIdsDiffer(Edited(INITIAL, edits).edges)
  {
    hide INITIAL, Edited, CatalogueNames, HasJoint, TidyNodes, EdgeFits, NewEdge;
    InitialIsTidy();
    EditsKeepTidy(INITIAL, edits);
    EditsKeepCatalogueNames(edits);
    var s := Edited(INITIAL, edits);
    forall i, j | 0 <= i < j < |s.edges| ensures s.edges[i].id != s.edges[j].id {
      SourceHasNoJoint(s, i);
      SourceHasNoJoint(s, j);
      assert !SamePair(s.edges[i], s.edges[j]);
      if s.edges[i].id == s.edges[j].id {
        EdgeIdTellsEnds(s.edges[i].source, s.edges[i].target, s.edges[j].source, s.edges[j].target);
      }
    }
  }

  /** So there removing an edge removes that edge alone, and removing a node exactly the edges that touch it. */
  lemma EditedRemovalsAreExact(edits: seq<Edit>)
    ensures var s := Edited(INITIAL, edits);
            && (forall i :: 0 <= i < |s.edges| ==> RemoveEdge(s, s.edges[i].id).state.edges == s.edges[..i] + s.edges[i + 1..])
            && (forall id :: HasNode(s, id) ==> RemoveNode(s, id).state.edges == Untouched(s.edges, id))
  {
    hide INITIAL, Edited, Tidy, RemoveEdge, RemoveNode, HasNode, Touches;
    var s := Edited(INITIAL, edits);
    EditedEdgeIdsDiffer(edits);
    forall i | 0 <= i < |s.edges| ensures RemoveEdge(s, s.edges[i].id).state.edges == s.edges[..i] + s.edges[i + 1..] {
      forall j | 0 <= j < |s.edges| && j != i ensures s.edges[j].id != s.edges[i].id {
        assert i < j || j < i;
      }
      RemoveEdgeExactlyWhen(s, i);
    }
    forall e, f | e in s.edges && f in s.edges && e.id == f.id ensures e == f {
      var k :| 0 <= k < |s.edges| && s.edges[k] == e;
      var l :| 0 <= l < |s.edges| && s.edges[l] == f;
    }
    forall id | HasNode(s, id) ensures RemoveNode(s, id).state.edges == Untouched(s.edges, id) {
      RemoveNodeExactlyWhen(s, id);
    }
  }

  // ---------- an opened document whose edges share an id ----------

  const JOINT_ORDER: seq<string> := ["a", "b-to-c", "n2", "n3", "n4", "n5", "n6", "a-to-b", "c"]

  /** A document with one node of each stage under these ids, in one line. */
  function LineDocument(order: seq<string>): Document
    requires |order| == |STAGES|
  {
    Document(
      SAFE_HEADER,
      seq(|order|, k requires 0 <= k < |order| => DslNode(order[k], STAGES[k], true)),
      LineEdges(order))
  }

  function LineEdges(order: seq<string>): (r: seq<DslEdge>)
    requires order != []
    ensures |r| == |order| - 1 && forall k :: 0 <= k < |r| ==> r[k] == DslEdge(order[k], order[k + 1], None)
  {
    seq(|order| - 1, k requires 0 <= k < |order| - 1 => DslEdge(order[k], order[k + 1], None))
  }

  /** Letters of which every forbidden token has one. */
  predicate IsLoud(c: char) {
    c == 'i' || c == 'e' || c == 'r' || c == 'u'
  }

  /** A position of such a letter in each forbidden token. */
  const LOUD: seq<nat> := [4, 2, 1, 1, 0, 0, 0, 6, 1, 1, 6, 0, 3, 1, 4, 3, 6]

  lemma LoudLetters(k: nat)
    requires k < |FORBIDDEN_TOKENS|
    ensures |LOUD| == |FORBIDDEN_TOKENS| && LOUD[k] < |FORBIDDEN_TOKENS[k]|
    ensures IsLoud(FORBIDDEN_TOKENS[k][LOUD[k]])
  {
  }

  predicate Quiet(c: char) {
    c in "abcnto-23456"
  }

  lemma QuietCharacter(c: char)
    requires Quiet(c)
    ensures !IsLoud(if c == '-' then '_' else Identifiers.LowerChar(c)) && !IsJsBlank(c) && c != '>'
  {
  }

  lemma QuietIsText(s: string)
    requires s != "" && forall i :: 0 <= i < |s| ==> Quiet(s[i])
    ensures IsText(s) && !HasArrow(s)
  {
    hide FORBIDDEN_TOKENS, LOUD, Identifiers.Contains, IsLoud, Quiet, IsJsBlank;
    forall i | 0 <= i < |s| ensures !IsLoud(Plain(s)[i]) && !IsJsBlank(s[i]) && s[i] != '>' {
      QuietCharacter(s[i]);
    }
    assert !IsJsBlank(s[0]);
    forall k | 0 <= k < |FORBIDDEN_TOKENS| ensures !Identifiers.Contains(Plain(s), FORBIDDEN_TOKENS[k]) {
      LoudLetters(k);
      Identifiers.MissingCharacter(Plain(s), FORBIDDEN_TOKENS[k], LOUD[k]);
    }
  }

  lemma JointIdsAreQuiet(k: nat)
    requires k < |JOINT_ORDER|
    ensures |JOINT_ORDER| == 9 && JOINT_ORDER[k] != "" && forall i :: 0 <= i < |JOINT_ORDER[k]| ==> Quiet(JOINT_ORDER[k][i])
  {
  }

  lemma JointIdsAreDistinct()
    ensures |JOINT_ORDER| == |STAGES| == 9 && Distinct(JOINT_ORDER)
  {
    assert forall k :: 2 <= k < 7 ==> JOINT_ORDER[k][0] == 'n' && JOINT_ORDER[k][1] as int == '0' as int + k;
    assert |JOINT_ORDER[0]| == 1 && |JOINT_ORDER[1]| == 6 && |JOINT_ORDER[7]| == 6 && |JOINT_ORDER[8]| == 1;
    assert JOINT_ORDER[0][0] == 'a' && JOINT_ORDER[8][0] == 'c';
    assert JOINT_ORDER[1][0] == 'b' && JOINT_ORDER[7][0] == 'a';
  }

  lemma LineDocumentIsChain(order: seq<string>)
    requires |order| == |STAGES|
    ensures DocumentNodes(LineDocument(order)) == LineupNodes(order)
    ensures DocumentEdges(LineDocument(order)) == Chain(order, 1)
    ensures EdgeIds(LineDocument(order).edges) == []
  {
    var edges := LineEdges(order);
    hide STAGES;
    NoSpeltIds(edges);
  }

  lemma {:induction false} NoSpeltIds(edges: seq<DslEdge>)
    requires forall e :: e in edges ==> e.id.None?
    ensures EdgeIds(edges) == []
  {
    if edges != [] {
      NoSpeltIds(edges[..|edges| - 1]);
    }
  }

  lemma LineDocumentFits(order: seq<string>)
    requires |order| == |STAGES| && Distinct(order)
    requires forall k :: 0 <= k < |order| ==> order[k] != "" && forall i :: 0 <= i < |order[k]| ==> Quiet(order[k][i])
    ensures DocumentFits(LineDocument(order))
  {
    hide Quiet, IsText, HasArrow, STAGES, Valid, IsLineup, EdgesFollow, Distinct;
    var d := LineDocument(order);
    forall k | 0 <= k < |order| ensures IsText(order[k]) && !HasArrow(order[k]) && Supported(STAGES[k]) {
      QuietIsText(order[k]);
      StagesAreSupported(k);
    }
    LineDocumentIsChain(order);
    NodesLineUp(order);
    ChainFollows(order);
    assert ArrowFree(LineupNodes(order));
    ValidExactlyWhenLinear(LineupNodes(order), Chain(order, 1));
    assert Distinct<string>([]) by { NothingRepeats(); }
  }

  lemma StagesAreSupported(k: nat)
    requires k < |STAGES|
    ensures Supported(STAGES[k])
  {
  }

  lemma NothingRepeats()
    ensures Distinct<string>([])
  {
  }

  lemma JointIdsClash()
    ensures |JOINT_ORDER| == 9
    ensures NewEdge(JOINT_ORDER[0], JOINT_ORDER[1]).id == NewEdge(JOINT_ORDER[7], JOINT_ORDER[8]).id
    ensures JOINT_ORDER[7] != JOINT_ORDER[0] && JOINT_ORDER[8] != JOINT_ORDER[0]
  {
    assert "a" + "-to-" + "b-to-c" == "a-to-b" + "-to-" + "c";
  }

  lemma FirstNodeIsThere(d: Document)
    requires d.nodes != []
    ensures HasNode(Opened(d), d.nodes[0].id)
  {
    hide SortBy, TemplatePosition;
    assert Ids(DocumentNodes(d))[0] == d.nodes[0].id;
    WorkflowRoundTrip.OpenedNames(d, d.nodes[0].id);
    HasNodeNames(Opened(d), d.nodes[0].id);
  }

  /**
    A document that passes every check and opens with two edges under one id: the edges from "a" to
    "b-to-c" and from "a-to-b" to "c". Removing either removes both, and removing "a" removes the second.
   */
  lemma OpenedEdgesMayShareId()
    ensures |JOINT_ORDER| == |STAGES| && DocumentFits(LineDocument(JOINT_ORDER))
    ensures var s := Opened(LineDocument(JOINT_ORDER));
            && |s.edges| == 8 && s.edges[0].id == s.edges[7].id && !Touches(s.edges[7], "a")
            && s.edges[7] !in RemoveEdge(s, s.edges[0].id).state.edges
            && s.edges[7] !in RemoveNode(s, "a").state.edges
  {
    hide DocumentFits, Quiet, STAGES, SortBy, TemplatePosition, RemoveNode;
    JointIdsAreDistinct();
    var d := LineDocument(JOINT_ORDER);
    JointIdsClash();
    forall k | 0 <= k < |JOINT_ORDER|
      ensures JOINT_ORDER[k] != "" && forall i :: 0 <= i < |JOINT_ORDER[k]| ==> Quiet(JOINT_ORDER[k][i])
    {
      JointIdsAreQuiet(k);
    }
    LineDocumentFits(JOINT_ORDER);
    assert JOINT_ORDER[0] == "a";
    hide JOINT_ORDER, NewEdge;
    var s := Opened(d);
    assert s.edges[0] == NewEdge(JOINT_ORDER[0], JOINT_ORDER[1]) && s.edges[7] == NewEdge(JOINT_ORDER[7], JOINT_ORDER[8]);
    assert HasEdge(s, s.edges[0].id);
    FirstNodeIsThere(d);
    assert s.edges[0] in s.edges;
    TouchedIsRemoved(s, s.edges[0], s.edges[7], "a");
  }
}
