/**
 * What the knowledge-graph service returns when the engine is the reference
 * engine over a finite graph: edges never cross a batch boundary, a
 * relationship inside one batch comes back once per orientation, keyword
 * search respects its limit, and neighbour edges depend on the property dicts
 * that stand in for `startNode(r)` and `endNode(r)`.
 */
module GraphScenarios {
  import opened Wrappers
  import opened PyValues
  import opened Seqs
  import opened GraphEngine
  import opened KnowledgeGraph

  // ---------------------------------------------------------------------------
  // Relationship queries

  lemma {:induction false} RelRecordsInsideBatch(rels: seq<EngineRel>, batch: seq<Value>)
    ensures forall rec :: rec in RelRecordsAmong(rels, batch) ==>
              Get(rec, "from_node") in batch && Get(rec, "to_node") in batch
    decreases |rels|
  {
    if rels != [] {
      RelRecordsInsideBatch(rels[1..], batch);
    }
  }

  lemma {:induction false} RelRecordsBothOrientations(rels: seq<EngineRel>, batch: seq<Value>, r: EngineRel)
    requires r in rels && Str(r.start) in batch && Str(r.end) in batch
    ensures OrientedRecord(r, r.start, r.end) in RelRecordsAmong(rels, batch)
    ensures OrientedRecord(r, r.end, r.start) in RelRecordsAmong(rels, batch)
    decreases |rels|
  {
    if rels[0] != r {
      RelRecordsBothOrientations(rels[1..], batch, r);
    }
  }

  /** The edges of every batch's records are among the resolved edges. */
  lemma {:induction false} BatchEdgesIncluded(exec: Engine, bs: seq<seq<Value>>, es: seq<GraphEdge>, k: int)
    requires EdgesOfBatches(exec, bs) == Success(es)
    requires 0 <= k < |bs|
    ensures exec(RelsAmong(bs[k])).Success?
    ensures forall e :: e in EdgesOf(exec(RelsAmong(bs[k])).value) ==> e in es
    decreases |bs|
  {
    var init := bs[..|bs| - 1];
    var prev := EdgesOfBatches(exec, init).value;
    if k < |init| {
      assert init[k] == bs[k];
      BatchEdgesIncluded(exec, init, prev, k);
    }
  }

  /**
   * Every resolved edge has both endpoints inside one single batch, so a
   * relationship whose ends fall in different batches is never returned.
   */
  lemma {:induction false} EdgesStayInsideOneBatch(g: Graph, bs: seq<seq<Value>>, es: seq<GraphEdge>)
    requires EdgesOfBatches(EngineOf(g), bs) == Success(es)
    ensures forall e :: e in es ==> exists k :: 0 <= k < |bs| && e.fromNode in bs[k] && e.toNode in bs[k]
    decreases |bs|
  {
    if bs != [] {
      var exec := EngineOf(g);
      var init, b := bs[..|bs| - 1], bs[|bs| - 1];
      var prev := EdgesOfBatches(exec, init).value;
      var records := RelRecordsAmong(g.rels, b);
      assert exec(RelsAmong(b)) == Success(records);
      assert es == prev + EdgesOf(records);
      EdgesStayInsideOneBatch(g, init, prev);
      RelRecordsInsideBatch(g.rels, b);
      forall e | e in es
        ensures exists k :: 0 <= k < |bs| && e.fromNode in bs[k] && e.toNode in bs[k]
      {
        if e in prev {
          var k :| 0 <= k < |init| && e.fromNode in init[k] && e.toNode in init[k];
          assert bs[k] == init[k];
        } else {
          FilterMapMember(records, EdgeOfRecord, e);
          var i :| 0 <= i < |records| && EdgeOfRecord(records[i]) == Some(e);
          assert records[i] in records;
          assert e.fromNode in bs[|bs| - 1];
        }
      }
    }
  }

  /** The ids a full scan feeds to the edge queries. */
  function ScanIdList(g: Graph, limit: nat): seq<Value> {
    IdsOf(NodesOf(NodeRecords(Take(g.nodes, limit))))
  }

  /** The nodes read back from the first `limit` stored nodes carry their element ids, in order. */
  lemma TakenNodes(ns: seq<EngineNode>, limit: nat)
    ensures var nodes := NodesOf(NodeRecords(Take(ns, limit)));
            && |nodes| == Min(limit, |ns|)
            && forall m :: 0 <= m < |nodes| ==> nodes[m].id == Str(ns[m].id)
  {
    FilterMapAllAccepted(NodeRecords(Take(ns, limit)), NormalizeNode);
  }

  /** They are the first `limit` element ids of the graph, in order. */
  lemma ScanIds(g: Graph, limit: nat)
    ensures var ids := ScanIdList(g, limit);
            && |ids| <= |g.nodes| && |ids| == Min(limit, |g.nodes|)
            && forall m :: 0 <= m < |ids| ==> ids[m] == Str(g.nodes[m].id)
  {
    TakenNodes(g.nodes, limit);
  }

  /** A full scan that succeeds has resolved its edges from the batches of the scanned ids. */
  lemma ScanSnapshot(g: Graph, limit: int, s: Snapshot)
    requires SnapshotOf(EngineOf(g), AllNodes(limit)) == Success(s)
    ensures limit >= 0 && EdgesOfBatches(EngineOf(g), Batches(ScanIdList(g, limit))) == Success(s.edges)
  {
    var records := NodeRecords(Take(g.nodes, limit));
    assert EngineOf(g)(AllNodes(limit)) == Success(records);
  }

  /** Distinct element ids make the scanned ids distinct. */
  lemma ScanIdsDistinct(g: Graph, limit: nat)
    requires forall a, b :: 0 <= a < b < |g.nodes| ==> g.nodes[a].id != g.nodes[b].id
    ensures var ids := ScanIdList(g, limit); forall a, b :: 0 <= a < b < |ids| ==> ids[a] != ids[b]
  {
    ScanIds(g, limit);
  }

  /** With distinct ids, no edge kept inside one batch joins ids whose positions lie in different batches. */
  lemma NoEdgeAcrossBatches(ids: seq<Value>, es: seq<GraphEdge>, a: int, b: int)
    requires forall x, y :: 0 <= x < y < |ids| ==> ids[x] != ids[y]
    requires forall e :: e in es ==> exists k :: 0 <= k < |Batches(ids)| && e.fromNode in Batches(ids)[k] && e.toNode in Batches(ids)[k]
    requires 0 <= a < |ids| && 0 <= b < |ids| && a / BatchSize != b / BatchSize
    ensures forall e :: e in es ==> !(e.fromNode == ids[a] && e.toNode == ids[b])
  {
    forall e | e in es
      ensures !(e.fromNode == ids[a] && e.toNode == ids[b])
    {
      if e.fromNode == ids[a] && e.toNode == ids[b] {
        var k :| 0 <= k < |Batches(ids)| && e.fromNode in Batches(ids)[k] && e.toNode in Batches(ids)[k];
        var ma := InBatchAt(ids, e.fromNode, k);
        var mb := InBatchAt(ids, e.toNode, k);
        assert false;
      }
    }
  }

  /**
   * Full scan: when node ids are distinct, nodes at positions i and j of the
   * graph whose positions fall in different 100-id batches are never joined by
   * a returned edge, whatever relationships the graph holds between them.
   */
  lemma CrossBatchEdgeIsLost(g: Graph, limit: int, s: Snapshot, i: int, j: int)
    requires SnapshotOf(EngineOf(g), AllNodes(limit)) == Success(s)
    requires forall a, b :: 0 <= a < b < |g.nodes| ==> g.nodes[a].id != g.nodes[b].id
    requires 0 <= i < |g.nodes| && 0 <= j < |g.nodes| && i / BatchSize != j / BatchSize
    requires i < limit && j < limit
    ensures forall e :: e in s.edges ==> !(e.fromNode == Str(g.nodes[i].id) && e.toNode == Str(g.nodes[j].id))
  {
    ScanSnapshot(g, limit, s);
    var ids := ScanIdList(g, limit);
    ScanIds(g, limit);
    ScanIdsDistinct(g, limit);
    EdgesStayInsideOneBatch(g, Batches(ids), s.edges);
    assert ids[i] == Str(g.nodes[i].id) && ids[j] == Str(g.nodes[j].id);
    NoEdgeAcrossBatches(ids, s.edges, i, j);
  }

  /** A relationship record with non-empty ends becomes an edge carrying the relationship's id and type. */
  lemma OrientedEdge(r: EngineRel, from: string, to: string)
    requires from != "" && to != ""
    ensures EdgeOfRecord(OrientedRecord(r, from, to)) == Some(GraphEdge(Str(r.id), Str(from), Str(to), Str(r.relType)))
  {
  }

  /** The edge a record of the batch's query gives for one orientation of `r` is resolved. */
  lemma OrientationResolved(g: Graph, bs: seq<seq<Value>>, es: seq<GraphEdge>, k: int, r: EngineRel, from: string, to: string)
    requires EdgesOfBatches(EngineOf(g), bs) == Success(es)
    requires 0 <= k < |bs| && OrientedRecord(r, from, to) in RelRecordsAmong(g.rels, bs[k])
    requires from != "" && to != ""
    ensures GraphEdge(Str(r.id), Str(from), Str(to), Str(r.relType)) in es
  {
    RelsQueryAnswer(g, bs[k]);
    BatchEdgesIncluded(EngineOf(g), bs, es, k);
    RecordEdgeIncluded(RelRecordsAmong(g.rels, bs[k]), r, from, to);
  }

  lemma RecordEdgeIncluded(records: seq<Record>, r: EngineRel, from: string, to: string)
    requires OrientedRecord(r, from, to) in records && from != "" && to != ""
    ensures GraphEdge(Str(r.id), Str(from), Str(to), Str(r.relType)) in EdgesOf(records)
  {
    var i :| 0 <= i < |records| && records[i] == OrientedRecord(r, from, to);
    OrientedEdge(r, from, to);
    FilterMapMember(records, EdgeOfRecord, GraphEdge(Str(r.id), Str(from), Str(to), Str(r.relType)));
  }

  /**
   * A relationship between two distinct nodes of one batch comes back twice,
   * once per orientation and both times with its own id: the edge list can hold
   * the same edge id twice.
   */
  lemma RelationshipSeenTwice(g: Graph, bs: seq<seq<Value>>, es: seq<GraphEdge>, k: int, r: EngineRel)
    requires EdgesOfBatches(EngineOf(g), bs) == Success(es)
    requires 0 <= k < |bs| && r in g.rels && Str(r.start) in bs[k] && Str(r.end) in bs[k]
    requires r.start != "" && r.end != "" && r.start != r.end
    ensures GraphEdge(Str(r.id), Str(r.start), Str(r.end), Str(r.relType)) in es
    ensures GraphEdge(Str(r.id), Str(r.end), Str(r.start), Str(r.relType)) in es
    ensures exists a, b :: 0 <= a < b < |es| && es[a].id == Str(r.id) && es[b].id == Str(r.id)
  {
    RelRecordsBothOrientations(g.rels, bs[k], r);
    OrientationResolved(g, bs, es, k, r, r.start, r.end);
    OrientationResolved(g, bs, es, k, r, r.end, r.start);
    var forward := GraphEdge(Str(r.id), Str(r.start), Str(r.end), Str(r.relType));
    var backward := GraphEdge(Str(r.id), Str(r.end), Str(r.start), Str(r.relType));
    var a :| 0 <= a < |es| && es[a] == forward;
    var b :| 0 <= b < |es| && es[b] == backward;
    assert a != b;
    if a < b {
      assert es[a].id == Str(r.id) && es[b].id == Str(r.id);
    } else {
      assert es[b].id == Str(r.id) && es[a].id == Str(r.id);
    }
  }

  // ---------------------------------------------------------------------------
  // Keyword search

  /** A keyword search that succeeds holds the nodes of the first `limit` hits. */
  lemma KeywordSnapshot(g: Graph, keyword: string, limit: int, s: Snapshot)
    requires SnapshotOf(EngineOf(g), KeywordNodes(keyword, limit)) == Success(s)
    ensures limit >= 0 && s.nodes == NodesOf(NodeRecords(Take(KeywordHits(g.nodes, keyword), limit)))
  {
    var records := NodeRecords(Take(KeywordHits(g.nodes, keyword), limit));
    assert EngineOf(g)(KeywordNodes(keyword, limit)) == Success(records);
  }

  /**
   * Keyword search returns at most `limit` nodes, each a stored node whose
   * title contains the keyword: the first `limit` matches in store order.
   */
  lemma KeywordSearchHits(g: Graph, keyword: string, limit: int, s: Snapshot)
    requires SnapshotOf(EngineOf(g), KeywordNodes(keyword, limit)) == Success(s)
    ensures |s.nodes| <= limit
    ensures forall n :: n in s.nodes ==> exists en :: en in g.nodes && TitleMatches(en, keyword) && n.id == Str(en.id)
    ensures |s.nodes| == Min(limit, |KeywordHits(g.nodes, keyword)|)
    ensures forall m :: 0 <= m < |s.nodes| ==> s.nodes[m].id == Str(KeywordHits(g.nodes, keyword)[m].id)
  {
    KeywordSnapshot(g, keyword, limit, s);
    var hits := KeywordHits(g.nodes, keyword);
    TakenNodes(hits, limit);
    forall n | n in s.nodes
      ensures exists en :: en in g.nodes && TitleMatches(en, keyword) && n.id == Str(en.id)
    {
      var m :| 0 <= m < |s.nodes| && s.nodes[m] == n;
      assert hits[m] in hits;
    }
  }

  // ---------------------------------------------------------------------------
  // Neighbour expansion

  /** The row the neighbour query yields for relationship `r`. */
  ghost predicate RowOf(g: Graph, nodeId: Value, r: EngineRel, row: Record) {
    && Touches(r, nodeId)
    && FindNode(g.nodes, r.start).Some?
    && FindNode(g.nodes, r.end).Some?
    && Get(row, "id") == Str(OtherEnd(r, nodeId))
    && Get(row, "rel_id") == Str(r.id)
    && Get(row, "rel_type") == Str(r.relType)
    && Get(row, "start_node") == Dict(FindNode(g.nodes, r.start).value.properties)
    && Get(row, "end_node") == Dict(FindNode(g.nodes, r.end).value.properties)
  }

  lemma RowOfNeighborRow(g: Graph, nodeId: Value, r: EngineRel)
    ensures forall row :: row in NeighborRow(g, nodeId, r) ==> RowOf(g, nodeId, r, row)
  {
  }

  /** An edge read from the row of `r` carries the id of `r`, and both endpoint dicts are non-empty. */
  lemma EdgeOfRow(g: Graph, nodeId: Value, r: EngineRel, row: Record, e: GraphEdge)
    requires RowOf(g, nodeId, r, row) && NeighborEdge(nodeId, row) == Some(e)
    ensures e.id == Str(r.id)
    ensures FindNode(g.nodes, r.start).value.properties != map[]
    ensures FindNode(g.nodes, r.end).value.properties != map[]
  {
  }

  lemma {:induction false} RowsComeFromRels(g: Graph, rels: seq<EngineRel>, nodeId: Value)
    ensures forall row :: row in NeighborRows(g, rels, nodeId) ==> exists r :: r in rels && RowOf(g, nodeId, r, row)
    decreases |rels|
  {
    if rels != [] {
      RowsComeFromRels(g, rels[1..], nodeId);
      forall row | row in NeighborRows(g, rels, nodeId)
        ensures exists r :: r in rels && RowOf(g, nodeId, r, row)
      {
        assert NeighborRows(g, rels, nodeId) == NeighborRow(g, nodeId, rels[0]) + NeighborRows(g, rels[1..], nodeId);
        if row in NeighborRow(g, nodeId, rels[0]) {
          RowOfNeighborRow(g, nodeId, rels[0]);
        } else {
          var r :| r in rels[1..] && RowOf(g, nodeId, r, row);
          assert r in rels;
        }
      }
    }
  }

  lemma {:induction false} NoTouchNoRows(g: Graph, rels: seq<EngineRel>, nodeId: Value)
    requires forall r :: r in rels ==> !Touches(r, nodeId)
    ensures NeighborRows(g, rels, nodeId) == []
    decreases |rels|
  {
    if rels != [] {
      NoTouchNoRows(g, rels[1..], nodeId);
    }
  }

  /** An id no relationship touches (an unknown node id, say) gives an empty payload, not an error. */
  lemma UnknownNodeHasNoNeighbors(g: Graph, nodeId: Value)
    requires forall r :: r in g.rels ==> !Touches(r, nodeId)
    ensures NeighborsOfNode(EngineOf(g), nodeId) == Success(Snapshot([], []))
  {
    NoTouchNoRows(g, g.rels, nodeId);
    assert EngineOf(g)(NeighborsOf(nodeId)) == Success([]);
  }

  /**
   * When no stored node has a truthy `identity` or `id` property, extraction
   * always fails and every neighbour edge falls back to `(node_id, neighbor_id)`:
   * it starts at the queried node and ends at the other end of a relationship
   * touching it, whose id it carries.
   */
  lemma EndpointsFallBackToQueriedNode(g: Graph, nodeId: Value, s: Snapshot)
    requires NeighborsOfNode(EngineOf(g), nodeId) == Success(s)
    requires forall n :: n in g.nodes ==> !Truthy(Get(n.properties, "identity")) && !Truthy(Get(n.properties, "id"))
    ensures forall e :: e in s.edges ==>
              && e.fromNode == nodeId
              && exists r :: r in g.rels && Touches(r, nodeId) && e.id == Str(r.id) && e.toNode == Str(OtherEnd(r, nodeId))
  {
    var rows := NeighborRows(g, g.rels, nodeId);
    assert EngineOf(g)(NeighborsOf(nodeId)) == Success(rows);
    RowsComeFromRels(g, g.rels, nodeId);
    forall e | e in s.edges
      ensures && e.fromNode == nodeId
              && exists r :: r in g.rels && Touches(r, nodeId) && e.id == Str(r.id) && e.toNode == Str(OtherEnd(r, nodeId))
    {
      FilterMapMember(rows, NeighborEdgeOf(nodeId), e);
      var i :| 0 <= i < |rows| && NeighborEdgeOf(nodeId)(rows[i]) == Some(e);
      assert rows[i] in rows;
      var r :| r in g.rels && RowOf(g, nodeId, r, rows[i]);
      var sn := FindNode(g.nodes, r.start).value;
      assert !Truthy(EndpointId(Dict(sn.properties)));
    }
  }

  /**
   * Since a node reaches the service as the dict of its properties, a
   * relationship whose start or end node has no properties at all arrives with
   * a falsy endpoint and gives no neighbour edge (relationship ids distinct).
   */
  lemma PropertylessEndpointDropsEdge(g: Graph, nodeId: Value, s: Snapshot, r: EngineRel)
    requires NeighborsOfNode(EngineOf(g), nodeId) == Success(s)
    requires forall a, b :: a in g.rels && b in g.rels && a.id == b.id ==> a == b
    requires r in g.rels
    requires || (FindNode(g.nodes, r.start).Some? && FindNode(g.nodes, r.start).value.properties == map[])
             || (FindNode(g.nodes, r.end).Some? && FindNode(g.nodes, r.end).value.properties == map[])
    ensures forall e :: e in s.edges ==> e.id != Str(r.id)
  {
    var rows := NeighborRows(g, g.rels, nodeId);
    assert EngineOf(g)(NeighborsOf(nodeId)) == Success(rows);
    RowsComeFromRels(g, g.rels, nodeId);
    forall e | e in s.edges
      ensures e.id != Str(r.id)
    {
      FilterMapMember(rows, NeighborEdgeOf(nodeId), e);
      var i :| 0 <= i < |rows| && NeighborEdgeOf(nodeId)(rows[i]) == Some(e);
      assert rows[i] in rows;
      var r' :| r' in g.rels && RowOf(g, nodeId, r', rows[i]);
      EdgeOfRow(g, nodeId, r', rows[i], e);
    }
  }

  // ---------------------------------------------------------------------------
  // Statistics

  /**
   * Against a reachable graph every statistics query succeeds with one row, so
   * `get_graph_statistics` issues all four, reports no error, is connected, and
   * its counts are the numbers of stored nodes and relationships.
   */
  lemma StatisticsOfGraph(g: Graph)
    ensures forall k :: 0 <= k < |StatisticsQueries| ==>
              EngineOf(g)(StatisticsQueries[k]).Success? && |EngineOf(g)(StatisticsQueries[k]).value| == 1
    ensures FirstField(EngineOf(g)(CountNodes), "count", Null) == Int(|g.nodes|)
    ensures FirstField(EngineOf(g)(CountRels), "count", Null) == Int(|g.rels|)
    ensures FirstField(EngineOf(g)(LabelsInUse), "labels", List([])) == List(Strs(Distinct(AllLabels(g.nodes))))
    ensures FirstField(EngineOf(g)(RelTypesInUse), "types", List([])) == List(Strs(Distinct(AllRelTypes(g.rels))))
  {
    StatisticsAnswers(g);
  }

  /**
   * Against a reachable graph, `get_graph_statistics` runs all four queries and
   * reports the node and relationship counts and the distinct labels and
   * relationship types, connected and without error.
   */
  method StatisticsReport(g: Graph) returns (stats: GraphStatistics, issued: seq<Query>)
    ensures issued == StatisticsQueries
    ensures stats == GraphStatistics(Int(|g.nodes|), Int(|g.rels|),
                                     List(Strs(Distinct(AllLabels(g.nodes)))),
                                     List(Strs(Distinct(AllRelTypes(g.rels)))),
                                     true, None)
  {
    stats, issued := GetGraphStatistics(EngineOf(g));
    StatisticsOfGraph(g);
    assert issued[|issued| - 1] == StatisticsQueries[|issued| - 1];
  }
}
