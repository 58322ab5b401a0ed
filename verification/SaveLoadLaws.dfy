/** What a draft must be to be saved or opened, and what its fingerprint tells, in plain fields and texts. */
module SaveLoadLaws {
  import opened Foundations
  import opened SimpleWorkflow
  import opened Sorting
  import opened WorkflowEditor
  import opened WorkflowPersistence
  import Identifiers

  // ---------- texts ----------

  /** The word spells the token, in whatever case and with hyphens for underscores at will. */
  predicate Spells(word: string, token: string) {
    && |word| == |token|
    && forall i :: 0 <= i < |word| ==> token[i] == if word[i] == '-' then '_' else Identifiers.LowerChar(word[i])
  }

  /** A forbidden token cannot be hidden: it is found exactly when some part of the text spells one. */
  lemma TokensAreFoundExactly(s: string)
    ensures HasForbiddenToken(s) <==>
            exists i, j, k :: 0 <= i <= j <= |s| && 0 <= k < |FORBIDDEN_TOKENS| && Spells(s[i..j], FORBIDDEN_TOKENS[k])
  {
    hide FORBIDDEN_TOKENS, Identifiers.LowerChar;
    if HasForbiddenToken(s) {
      var k :| 0 <= k < |FORBIDDEN_TOKENS| && Identifiers.Contains(Plain(s), FORBIDDEN_TOKENS[k]);
      var i :| 0 <= i <= |Plain(s)| && Identifiers.ContainsAt(Plain(s), FORBIDDEN_TOKENS[k], i);
      var j := i + |FORBIDDEN_TOKENS[k]|;
      PartIsSpelt(s, i, j, FORBIDDEN_TOKENS[k]);
      assert Spells(s[i..j], FORBIDDEN_TOKENS[k]);
    }
    if i, j, k :| 0 <= i <= j <= |s| && 0 <= k < |FORBIDDEN_TOKENS| && Spells(s[i..j], FORBIDDEN_TOKENS[k]) {
      PartIsSpelt(s, i, j, FORBIDDEN_TOKENS[k]);
      assert Identifiers.ContainsAt(Plain(s), FORBIDDEN_TOKENS[k], i);
      assert Identifiers.Contains(Plain(s), FORBIDDEN_TOKENS[k]);
    }
  }

  lemma PartIsSpelt(s: string, i: nat, j: nat, token: string)
    requires i <= j <= |s|
    ensures Plain(s)[i..j] == token <==> Spells(s[i..j], token)
  {
    hide Identifiers.LowerChar;
    var part := s[i..j];
    assert forall n :: 0 <= n < |part| ==> Plain(s)[i..j][n] == (if part[n] == '-' then '_' else Identifiers.LowerChar(part[n]));
  }

  /** The tokens, and so every text that spells one: among others live mode, the broker's name, and submit. */
  lemma TokensAreThese()
    ensures forall token :: token in FORBIDDEN_TOKENS <==>
                              token in {"account", "api_key", "broker_host", "credential", "eval", "ibkr", "import", "javascript",
                                        "live_mode", "live trading", "password", "route", "script", "secret", "submit", "token", "transmit"}
  {
  }

  /** A text that names something and forbids nothing, with no blank at either end. */
  ghost predicate CleanName(s: string) {
    && s != "" && !IsJsBlank(s[0]) && !IsJsBlank(s[|s| - 1])
    && !exists i, j, k :: 0 <= i <= j <= |s| && 0 <= k < |FORBIDDEN_TOKENS| && Spells(s[i..j], FORBIDDEN_TOKENS[k])
  }

  /** A text that is not all blank and forbids nothing. */
  ghost predicate CleanText(s: string) {
    && (exists i :: 0 <= i < |s| && !IsJsBlank(s[i]))
    && !exists i, j, k :: 0 <= i <= j <= |s| && 0 <= k < |FORBIDDEN_TOKENS| && Spells(s[i..j], FORBIDDEN_TOKENS[k])
  }

  lemma TextsExactly(s: string)
    ensures IsText(s) <==> CleanText(s)
    ensures IsTrimmedText(s) <==> CleanName(s)
  {
    hide IsJsBlank, FORBIDDEN_TOKENS, Spells;
    TokensAreFoundExactly(s);
    hide HasForbiddenToken;
  }

  // ---------- documents ----------

  /** The workflow only simulates, on the fake broker, behind the risk check, the approval and the audit. */
  predicate OnlySimulates(h: Header) {
    && h.schemaVersion == 1 && h.workflowId == "visual-simulation-workflow"
    && h.mode == "simulation" && h.runtime == "preview_only" && h.broker == "fake_broker_only"
    && h.riskCheckRequired && h.approvalRequired && h.auditSinkRequired
    && !h.brokerTransportAllowed && !h.liveTradingEnabled && !h.arbitraryCodeAllowed
  }

  /** A document passes exactly when it only simulates, its texts are clean, its edge ids differ and its graph is valid. */
  lemma DocumentExactly(d: Document)
    ensures DocumentFits(d) <==>
              && OnlySimulates(d.header)
              && (forall n :: n in d.nodes ==> Supported(n.kind) && n.required && CleanText(n.id))
              && (forall e :: e in d.edges ==> CleanText(e.source) && CleanText(e.target) && (e.id.Some? ==> CleanText(e.id.value)))
              && (forall i, j :: 0 <= i < j < |d.edges| && d.edges[i].id.Some? ==> d.edges[i].id != d.edges[j].id)
              && Valid(DocumentNodes(d), DocumentEdges(d))
  {
    hide IsText, CleanText, Valid, EdgeIds, Supported;
    forall s ensures IsText(s) <==> CleanText(s) {
      TextsExactly(s);
    }
    HeaderExactly(d.header);
    hide SAFE_HEADER, OnlySimulates;
    EdgeIdsExactly(d.edges);
    assert (forall i :: 0 <= i < |d.nodes| ==> DslNodeFits(d.nodes[i])) <==> (forall n :: n in d.nodes ==> DslNodeFits(n)) by {
      forall i | 0 <= i < |d.nodes| ensures d.nodes[i] in d.nodes {}
    }
    assert (forall i :: 0 <= i < |d.edges| ==> DslEdgeFits(d.edges[i])) <==> (forall e :: e in d.edges ==> DslEdgeFits(e)) by {
      forall i | 0 <= i < |d.edges| ensures d.edges[i] in d.edges {}
    }
  }

  lemma HeaderExactly(h: Header)
    ensures h == SAFE_HEADER <==> OnlySimulates(h)
  {
  }

  ghost predicate SpeltIdsDiffer(edges: seq<DslEdge>) {
    forall i, j :: 0 <= i < j < |edges| && edges[i].id.Some? ==> edges[i].id != edges[j].id
  }

  lemma {:induction false} EdgeIdsHold(edges: seq<DslEdge>)
    ensures forall x :: x in EdgeIds(edges) <==> exists i :: 0 <= i < |edges| && edges[i].id == Some(x)
  {
    if edges != [] {
      var front, last := edges[..|edges| - 1], edges[|edges| - 1];
      EdgeIdsHold(front);
      assert forall i :: 0 <= i < |front| ==> edges[i] == front[i];
      if last.id.Some? {
        assert edges[|edges| - 1].id == Some(last.id.value);
      }
    }
  }

  lemma DistinctSnoc(s: seq<string>, x: string)
    ensures Distinct(s + [x]) <==> Distinct(s) && x !in s
  {
    var t := s + [x];
    assert t[|s|] == x && forall i :: 0 <= i < |s| ==> t[i] == s[i];
    if Distinct(t) {
      forall i, j | 0 <= i < j < |s| ensures s[i] != s[j] {
        assert t[i] != t[j];
      }
    }
  }

  lemma {:induction false} EdgeIdsExactly(edges: seq<DslEdge>)
    ensures Distinct(EdgeIds(edges)) <==> SpeltIdsDiffer(edges)
  {
    if edges != [] {
      var front, last := edges[..|edges| - 1], edges[|edges| - 1];
      EdgeIdsExactly(front);
      EdgeIdsHold(front);
      hide Distinct;
      assert EdgeIds(edges) == EdgeIds(front) + if last.id.Some? then [last.id.value] else [];
      if last.id.Some? {
        DistinctSnoc(EdgeIds(front), last.id.value);
      }
      SpeltIdsSnoc(front, last);
      assert edges == front + [last];
    }
  }

  lemma SpeltIdsSnoc(front: seq<DslEdge>, last: DslEdge)
    ensures SpeltIdsDiffer(front + [last]) <==>
            SpeltIdsDiffer(front) && (last.id.Some? ==> !exists i :: 0 <= i < |front| && front[i].id == Some(last.id.value))
  {
    var edges := front + [last];
    assert edges[|front|] == last && forall i :: 0 <= i < |front| ==> edges[i] == front[i];
    if SpeltIdsDiffer(edges) {
      forall i, j | 0 <= i < j < |front| && front[i].id.Some? ensures front[i].id != front[j].id {
        assert edges[i].id != edges[j].id;
      }
      forall i | 0 <= i < |front| && last.id.Some? ensures front[i].id != last.id {
        if front[i].id.Some? {
          assert edges[i].id != edges[|front|].id;
        }
      }
    }
  }

  /** A stored definition opens exactly when its metadata is clean, its times are in order and its document passes. */
  lemma DefinitionExactly(r: StoredDefinition)
    ensures DefinitionFits(r) <==>
              && CleanName(r.metadata.workflowId) && CleanText(r.metadata.displayName) && CleanText(r.metadata.description)
              && r.version >= 1 && r.createdAt.instant / 1000 <= r.updatedAt.instant / 1000
              && DocumentFits(r.document)
  {
    hide IsText, IsTrimmedText, CleanName, CleanText, DocumentFits;
    TextsExactly(r.metadata.workflowId);
    TextsExactly(r.metadata.displayName);
    TextsExactly(r.metadata.description);
  }

  /** What opens has the document's nodes, at their catalogue places, and its edges in order, with nothing selected. */
  lemma OpenedTellsDocument(d: Document)
    ensures var s := Opened(d);
            && s.selection == None && |s.nodes| == |d.nodes| && |s.edges| == |d.edges|
            && (forall n :: n in s.nodes <==>
                  exists i :: 0 <= i < |d.nodes| && n.id == d.nodes[i].id && n.kind == d.nodes[i].kind
                              && n.required == d.nodes[i].required && n.position == TemplatePosition(n.kind))
            && (forall i :: 0 <= i < |s.edges| ==>
                  && s.edges[i].source == d.edges[i].source && s.edges[i].target == d.edges[i].target
                  && s.edges[i].id == d.edges[i].source + "-to-" + d.edges[i].target && s.edges[i].edgeType == "workflow")
  {
    hide SortBy, TemplatePosition;
    var loaded, s := LoadedNodes(d.nodes), Opened(d);
    forall n ensures n in s.nodes <==>
      exists i :: 0 <= i < |d.nodes| && n.id == d.nodes[i].id && n.kind == d.nodes[i].kind
                  && n.required == d.nodes[i].required && n.position == TemplatePosition(n.kind)
    {
      if n in s.nodes {
        var i :| 0 <= i < |loaded| && loaded[i] == n;
        assert n.id == d.nodes[i].id;
      }
      if i :| 0 <= i < |d.nodes| && n.id == d.nodes[i].id && n.kind == d.nodes[i].kind
              && n.required == d.nodes[i].required && n.position == TemplatePosition(n.kind) {
        assert loaded[i] == n;
      }
    }
  }

  // ---------- fingerprints ----------

  /** The same nodes but for their positions and order. */
  ghost predicate SameNodesApart(a: seq<EditorNode>, b: seq<EditorNode>) {
    forall n :: n in a ==> exists m :: m in b && m.id == n.id && m.kind == n.kind && m.required == n.required
  }

  ghost predicate SameEdgesApart(a: seq<EditorEdge>, b: seq<EditorEdge>) {
    forall e :: e in a ==> exists f :: f in b && f.source == e.source && f.target == e.target && f.edgeType == e.edgeType
  }

  /** Drafts with one fingerprint have the same metadata, and the same nodes and edges in some order. */
  lemma FingerprintTellsDraft(m: Metadata, s: EditorState, n: Metadata, t: EditorState, before: (string, string) -> bool)
    requires DraftFingerprint(m, s, before) == DraftFingerprint(n, t, before)
    ensures m == n && |s.nodes| == |t.nodes| && |s.edges| == |t.edges|
    ensures SameNodesApart(s.nodes, t.nodes) && SameNodesApart(t.nodes, s.nodes)
    ensures SameEdgesApart(s.edges, t.edges) && SameEdgesApart(t.edges, s.edges)
  {
    hide SortBy;
    RowsTellNodes(s.nodes, t.nodes);
    RowsTellNodes(t.nodes, s.nodes);
    RowsTellEdges(s.edges, t.edges);
    RowsTellEdges(t.edges, s.edges);
  }

  lemma RowsTellNodes(a: seq<EditorNode>, b: seq<EditorNode>)
    requires forall row :: row in NodeRows(a) ==> row in NodeRows(b)
    ensures SameNodesApart(a, b)
  {
    forall n | n in a ensures exists m :: m in b && m.id == n.id && m.kind == n.kind && m.required == n.required {
      var i :| 0 <= i < |a| && a[i] == n;
      assert NodeRows(a)[i] in NodeRows(b);
      var j :| 0 <= j < |b| && NodeRows(b)[j] == NodeRows(a)[i];
      assert b[j] in b;
    }
  }

  lemma RowsTellEdges(a: seq<EditorEdge>, b: seq<EditorEdge>)
    requires forall row :: row in EdgeRows(a) ==> row in EdgeRows(b)
    ensures SameEdgesApart(a, b)
  {
    forall e | e in a ensures exists f :: f in b && f.source == e.source && f.target == e.target && f.edgeType == e.edgeType {
      var i :| 0 <= i < |a| && a[i] == e;
      assert EdgeRows(a)[i] in EdgeRows(b);
      var j :| 0 <= j < |b| && EdgeRows(b)[j] == EdgeRows(a)[i];
      assert b[j] in b;
    }
  }
}
