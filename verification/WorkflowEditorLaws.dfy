/** What each edit does when it does anything, exactly when it does, and which edits undo one another. */
module WorkflowEditorLaws {
  import opened Foundations
  import opened SimpleWorkflow
  import opened Sorting
  import opened WorkflowEditor
  import WorkflowEdgeIds

  ghost predicate EdgeBetween(s: EditorState, source: string, target: string) {
    exists e :: e in s.edges && e.source == source && e.target == target
  }

  lemma PlacesAreMembers(s: EditorState)
    ensures forall id :: HasNode(s, id) <==> NamesNode(s.nodes, id)
    ensures forall source, target :: Connects(s, source, target) <==> EdgeBetween(s, source, target)
  {
    forall id ensures HasNode(s, id) <==> NamesNode(s.nodes, id) {
      HasNodeNames(s, id);
    }
    forall source, target ensures Connects(s, source, target) <==> EdgeBetween(s, source, target) {
      if Connects(s, source, target) {
        var i :| 0 <= i < |s.edges| && s.edges[i].source == source && s.edges[i].target == target;
        assert s.edges[i] in s.edges;
      }
    }
  }

  /** Two different nodes are connected exactly when they are there and not connected yet; otherwise nothing moves. */
  lemma ConnectExactly(s: EditorState, source: string, target: string)
    ensures var r := Connect(s, source, target, "workflow");
            && (r.changed <==> NamesNode(s.nodes, source) && NamesNode(s.nodes, target) && source != target && !EdgeBetween(s, source, target))
            && (!r.changed ==> r.state == s && r.reason.Some?)
            && (r.changed ==>
                  && r.state.nodes == s.nodes && |r.state.edges| == |s.edges| + 1 && r.state.edges[..|s.edges|] == s.edges
                  && r.state.edges[|s.edges|] == EditorEdge(source + "-to-" + target, source, target, "workflow")
                  && r.state.selection == Some(EdgeSelected(source + "-to-" + target)))
  {
    PlacesAreMembers(s);
    hide HasNode, Connects;
  }

  /** A supported type is added exactly when neither it nor its id is there; then it is the catalogue's node and selected. */
  lemma AddExactly(s: EditorState, kind: NodeType)
    ensures var r := AddNode(s, kind);
            && (r.changed <==> Supported(kind) && !NamesNode(s.nodes, TemplateId(kind)) && !exists n :: n in s.nodes && n.kind == kind)
            && (!r.changed ==> r.state == s && r.reason.Some?)
            && (r.changed ==>
                  && r.state.edges == s.edges && |r.state.nodes| == |s.nodes| + 1
                  && (forall n :: n in r.state.nodes <==> n in s.nodes || n == Template(kind))
                  && r.state.selection == Some(NodeSelected(TemplateId(kind))))
  {
    PlacesAreMembers(s);
    hide HasNode, SortBy, TemplateId, TemplatePosition;
    if i :| 0 <= i < |s.nodes| && s.nodes[i].kind == kind {
      assert s.nodes[i] in s.nodes;
    }
  }

  /** A move to finite coordinates gives a known node its place, and touches nothing else. */
  lemma MoveExactly(s: EditorState, id: string, position: Position)
    requires UniqueIds(s.nodes)
    ensures var r := MoveNode(s, id, position);
            && r.state.edges == s.edges && r.state.selection == s.selection && |r.state.nodes| == |s.nodes|
            && (position.x.Finite? && position.y.Finite? && NamesNode(s.nodes, id) ==> r.reason == None)
            && (position.x.NotFinite? || position.y.NotFinite? || !NamesNode(s.nodes, id) ==> r.state == s && r.reason.Some?)
            && (r.reason == None ==>
                  forall i :: 0 <= i < |s.nodes| ==>
                                r.state.nodes[i] == if s.nodes[i].id == id then s.nodes[i].(position := position) else s.nodes[i])
            && (r.changed <==> r.state != s)
  {
    FirstIsThere(s, id);
    hide FirstNode;
    var node := FirstNode(s.nodes, id);
    if node.Some? && node.value.position == position {
      forall i | 0 <= i < |s.nodes| && s.nodes[i].id == id ensures s.nodes[i].(position := position) == s.nodes[i] {
        assert s.nodes[i] in s.nodes && s.nodes[i] == node.value;
      }
    }
    if node.Some? && node.value.position != position {
      var i :| 0 <= i < |s.nodes| && s.nodes[i] == node.value;
      assert MovedNodes(s.nodes, id, position)[i] != s.nodes[i];
    }
  }

  lemma FirstIsThere(s: EditorState, id: string)
    ensures FirstNode(s.nodes, id).Some? <==> NamesNode(s.nodes, id)
    ensures FirstNode(s.nodes, id).Some? ==> FirstNode(s.nodes, id).value in s.nodes && FirstNode(s.nodes, id).value.id == id
  {
    FirstIsIn(s.nodes, id);
  }

  lemma {:induction false} FirstIsIn(nodes: seq<EditorNode>, id: string)
    ensures FirstNode(nodes, id).Some? <==> exists n :: n in nodes && n.id == id
    ensures FirstNode(nodes, id).Some? ==> FirstNode(nodes, id).value in nodes && FirstNode(nodes, id).value.id == id
  {
    if nodes != [] {
      FirstIsIn(nodes[1..], id);
      assert nodes == [nodes[0]] + nodes[1..];
    }
  }

  /** Removing a connection just made restores the edges, unless an older edge has its id. */
  lemma ConnectThenRemove(s: EditorState, source: string, target: string)
    requires Connect(s, source, target, "workflow").changed
    ensures var next := Connect(s, source, target, "workflow").state;
            RemoveEdge(next, source + "-to-" + target).state.edges == s.edges <==>
            forall e :: e in s.edges ==> e.id != source + "-to-" + target
  {
    ConnectExactly(s, source, target);
    var next := Connect(s, source, target, "workflow").state;
    hide Connect;
    var n, id := |s.edges|, source + "-to-" + target;
    assert next.edges[n].id == id;
    WorkflowEdgeIds.RemoveEdgeExactlyWhen(next, n);
    assert next.edges[..n] + next.edges[n + 1..] == s.edges;
    forall j | 0 <= j < n ensures next.edges[j] == s.edges[j] && s.edges[j] in s.edges {
      assert next.edges[j] == next.edges[..n][j];
    }
  }

  /** Removing a node just added restores nodes and edges of a tidy graph. */
  lemma AddThenRemove(s: EditorState, kind: NodeType)
    requires Tidy(s) && AddNode(s, kind).changed
    ensures RemoveNode(AddNode(s, kind).state, TemplateId(kind)).state.nodes == s.nodes
    ensures RemoveNode(AddNode(s, kind).state, TemplateId(kind)).state.edges == s.edges
  {
    hide AddNode, RemoveNode, SortBy, TemplateId, TemplatePosition, HasNode, Tidy;
    AddExactly(s, kind);
    AddKeepsTidy(s, kind);
    var t, next := Template(kind), AddNode(s, kind).state;
    HasNodeNames(next, t.id);
    assert t in next.nodes;
    RemoveNodeKeepsTidy(next, t.id);
    NewNodeIsFree(s, t.id);
    RemovesOnlyNode(next, t.id);
    var after := RemoveNode(next, t.id).state;
    forall n ensures n in after.nodes <==> n in s.nodes {
      if n in s.nodes {
        assert NamesNode(s.nodes, n.id);
      }
    }
    TidyHasTidyNodes(after);
    TidyHasTidyNodes(s);
    SameOrderIsSame(after.nodes, s.nodes);
  }

  lemma TidyHasTidyNodes(s: EditorState)
    requires Tidy(s)
    ensures TidyNodes(s.nodes)
  {
  }

  /** Removing a node no edge touches removes the nodes under its id and nothing else. */
  lemma RemovesOnlyNode(s: EditorState, id: string)
    requires HasNode(s, id) && forall e :: e in s.edges ==> e.source != id && e.target != id
    ensures RemoveNode(s, id).state.edges == s.edges
    ensures forall n :: n in RemoveNode(s, id).state.nodes <==> n in s.nodes && n.id != id
  {
    hide HasNode;
    assert (set e | e in s.edges && (e.source == id || e.target == id) :: e.id) == {};
    WorkflowEdgeIds.NothingFiltered(s.edges, {});
  }

  /** No edge of a tidy graph touches an id that names no node. */
  lemma NewNodeIsFree(s: EditorState, id: string)
    requires Tidy(s) && !NamesNode(s.nodes, id)
    ensures forall e :: e in s.edges ==> e.source != id && e.target != id
  {
    forall e | e in s.edges ensures e.source != id && e.target != id {
      assert EdgeFits(s.nodes, e);
    }
  }

  lemma SameOrderIsSame(a: seq<EditorNode>, b: seq<EditorNode>)
    requires TidyNodes(a) && TidyNodes(b) && forall n :: n in a <==> n in b
    ensures a == b
  {
    var among := iset n | n in b;
    forall x, y | x in among && y in among && x != y ensures EarlierInCatalogue(x, y) || EarlierInCatalogue(y, x) {
      var i :| 0 <= i < |b| && b[i] == x;
      var j :| 0 <= j < |b| && b[j] == y;
      assert i < j ==> EarlierInCatalogue(b[i], b[j]);
      assert j < i ==> EarlierInCatalogue(b[j], b[i]);
    }
    DistinctIffFullSize(a);
    DistinctIffFullSize(b);
    assert Elements(a) == Elements(b);
    RisingIsUnique(a, b, EarlierInCatalogue, among);
  }
}
