/**
 * KnowledgeGraphService: turns engine records into the `{nodes, edges}`
 * payload the visualisation consumes, and collects graph statistics.
 *
 * Each public operation is a method whose loops follow the service's own
 * loops, proved against a specification function of the records the engine
 * returns; the properties of those functions are the lemmas below them.
 * `issued` lists the queries a call sends to the engine, in order.
 */
module KnowledgeGraph {
  import opened Wrappers
  import opened PyValues
  import opened Seqs
  import opened GraphEngine

  /** `{"id", "labels", "properties"}` */
  datatype GraphNode = GraphNode(id: Value, labels: seq<Value>, properties: map<string, Value>)

  /** `{"id", "from_node", "to_node", "type"}` */
  datatype GraphEdge = GraphEdge(id: Value, fromNode: Value, toNode: Value, relType: Value)

  /** `{"nodes": [...], "edges": [...]}` */
  datatype Snapshot = Snapshot(nodes: seq<GraphNode>, edges: seq<GraphEdge>)

  /** Node ids per relationship query. */
  const BatchSize: nat := 100

  // ---------------------------------------------------------------------------
  // Node records

  /** The node a record describes: labels other than a list become [], properties other than a dict become {}. */
  function NodeFrom(r: Record): GraphNode {
    GraphNode(Get(r, "id"), ListOrEmpty(GetOr(r, "labels", List([]))), DictOrEmpty(GetOr(r, "properties", Dict(map[]))))
  }

  /** Keyword search and full scan keep a record exactly when its id is not None. */
  function NormalizeNode(r: Record): Option<GraphNode> {
    if Get(r, "id") != Null then Some(NodeFrom(r)) else None
  }

  function NodesOf(records: seq<Record>): seq<GraphNode> {
    FilterMap(records, NormalizeNode)
  }

  function IdsOf(nodes: seq<GraphNode>): seq<Value> {
    seq(|nodes|, k requires 0 <= k < |nodes| => nodes[k].id)
  }

  /** The node loop of `search_all_nodes` and `get_graph_data`: `nodes` and `node_ids` grow together. */
  method CollectNodes(records: seq<Record>) returns (nodes: seq<GraphNode>, nodeIds: seq<Value>)
    ensures nodes == NodesOf(records)
    ensures |nodeIds| == |nodes| && forall k :: 0 <= k < |nodes| ==> nodeIds[k] == nodes[k].id
  {
    nodes, nodeIds := [], [];
    var j := 0;
    while j < |records|
      invariant 0 <= j <= |records|
      invariant nodes == NodesOf(records[..j])
      invariant nodeIds == IdsOf(nodes)
    {
      var record := records[j];
      var nodeId := Get(record, "id");
      var nodeLabels := GetOr(record, "labels", List([]));
      var nodeProperties := GetOr(record, "properties", Dict(map[]));
      if nodeId != Null {
        nodeIds := nodeIds + [nodeId];
        nodes := nodes + [GraphNode(nodeId, ListOrEmpty(nodeLabels), DictOrEmpty(nodeProperties))];
      }
      assert records[..j + 1][..j] == records[..j];
      j := j + 1;
    }
    assert records[..j] == records;
  }

  /**
   * A record becomes a node iff its id is not None, and the nodes keep record
   * order: the nodes of `before + [r] + after` are those of `before`, then r's
   * (if any), then those of `after`.
   */
  lemma NodesInRecordOrder(before: seq<Record>, r: Record, after: seq<Record>)
    ensures NodesOf(before + [r] + after)
         == NodesOf(before) + (if Get(r, "id") != Null then [NodeFrom(r)] else []) + NodesOf(after)
  {
    FilterMapAppend(before + [r], after, NormalizeNode);
    FilterMapAppend(before, [r], NormalizeNode);
    assert [r][..0] == [];
  }

  /** Every node comes from a record with a non-None id, and every such record gives one. */
  lemma NodesComeFromRecords(records: seq<Record>, n: GraphNode)
    ensures n in NodesOf(records)
        <==> exists i :: 0 <= i < |records| && Get(records[i], "id") != Null && n == NodeFrom(records[i])
  {
    FilterMapMember(records, NormalizeNode, n);
  }

  // ---------------------------------------------------------------------------
  // Relationship records

  /** A relationship record gives an edge iff `from_node` and `to_node` are truthy and `rel_id` is not None. */
  function EdgeOfRecord(r: Record): Option<GraphEdge> {
    var fromId := Get(r, "from_node");
    var toId := Get(r, "to_node");
    var relId := Get(r, "rel_id");
    if Truthy(fromId) && Truthy(toId) && relId != Null then
      Some(GraphEdge(relId, fromId, toId, GetOr(r, "type", Str(""))))
    else None
  }

  function EdgesOf(records: seq<Record>): seq<GraphEdge> {
    FilterMap(records, EdgeOfRecord)
  }

  /** Edges keep record order; a record contributes its fields unchanged, with `type` defaulting to "". */
  lemma EdgesInRecordOrder(before: seq<Record>, r: Record, after: seq<Record>)
    ensures EdgesOf(before + [r] + after)
         == EdgesOf(before)
          + (if Truthy(Get(r, "from_node")) && Truthy(Get(r, "to_node")) && Get(r, "rel_id") != Null
             then [GraphEdge(Get(r, "rel_id"), Get(r, "from_node"), Get(r, "to_node"), GetOr(r, "type", Str("")))]
             else [])
          + EdgesOf(after)
  {
    FilterMapAppend(before + [r], after, EdgeOfRecord);
    FilterMapAppend(before, [r], EdgeOfRecord);
    assert [r][..0] == [];
  }

  // ---------------------------------------------------------------------------
  // Batches of node ids

  /** `node_ids[i:i + 100]` for `i in range(0, len(node_ids), 100)` */
  function Batches(ids: seq<Value>): seq<seq<Value>>
    decreases |ids|
  {
    if ids == [] then []
    else if |ids| <= BatchSize then [ids]
    else [ids[..BatchSize]] + Batches(ids[BatchSize..])
  }

  /** A slice of the ids after the first `d` is the slice of the ids shifted by `d`. */
  lemma SliceOfSuffix(s: seq<Value>, d: int, lo: int, hi: int)
    requires 0 <= d <= |s| && 0 <= lo <= hi <= |s| - d
    ensures s[d..][lo..hi] == s[d + lo .. d + hi]
  {
  }

  /**
   * K ids make ceil(K/100) batches; batch k is the slice [100k, min(100k+100, K)),
   * so every batch holds 1 to 100 ids and, concatenated, the batches give back
   * the ids in order.  No ids, no batch.
   */
  lemma BatchesPartition(ids: seq<Value>)
    ensures |Batches(ids)| == (|ids| + BatchSize - 1) / BatchSize
    ensures forall k :: 0 <= k < |Batches(ids)| ==>
              Batches(ids)[k] == ids[k * BatchSize .. Min(k * BatchSize + BatchSize, |ids|)]
    ensures forall k :: 0 <= k < |Batches(ids)| ==> 0 < |Batches(ids)[k]| <= BatchSize
    ensures Flatten(Batches(ids)) == ids
  {
    BatchSlices(ids);
    BatchSizes(ids);
    BatchesFlatten(ids);
  }

  /** K ids make ceil(K/100) batches. */
  lemma {:induction false} BatchCount(ids: seq<Value>)
    ensures |Batches(ids)| == (|ids| + BatchSize - 1) / BatchSize
    decreases |ids|
  {
    if |ids| > BatchSize {
      BatchCount(ids[BatchSize..]);
    }
  }

  /** Batch k is the slice [100k, min(100k+100, K)) of the K ids. */
  lemma {:induction false} BatchSlices(ids: seq<Value>)
    ensures |Batches(ids)| == (|ids| + BatchSize - 1) / BatchSize
    ensures forall k :: 0 <= k < |Batches(ids)| ==>
              Batches(ids)[k] == ids[k * BatchSize .. Min(k * BatchSize + BatchSize, |ids|)]
    decreases |ids|
  {
    BatchCount(ids);
    if |ids| > BatchSize {
      var rest := ids[BatchSize..];
      BatchSlices(rest);
      var bs := Batches(ids);
      assert bs == [ids[..BatchSize]] + Batches(rest);
      forall k | 0 < k < |bs|
        ensures bs[k] == ids[k * BatchSize .. Min(k * BatchSize + BatchSize, |ids|)]
      {
        assert bs[k] == Batches(rest)[k - 1];
        BatchStartInside(k - 1, |rest|);
        ShiftedBatch(ids, k);
      }
    }
  }

  /** Batch k of n ids starts inside the ids. */
  lemma BatchStartInside(k: int, n: int)
    requires 0 <= k < (n + BatchSize - 1) / BatchSize
    ensures k * BatchSize < n
  {
  }

  /** Slice k - 1 of the ids after the first batch is slice k of the ids. */
  lemma ShiftedBatch(ids: seq<Value>, k: int)
    requires BatchSize < |ids| && 0 < k && (k - 1) * BatchSize < |ids| - BatchSize
    ensures ids[BatchSize..][(k - 1) * BatchSize .. Min((k - 1) * BatchSize + BatchSize, |ids| - BatchSize)]
         == ids[k * BatchSize .. Min(k * BatchSize + BatchSize, |ids|)]
  {
    var lo := (k - 1) * BatchSize;
    assert lo + BatchSize == k * BatchSize;
    SliceOfSuffix(ids, BatchSize, lo, Min(lo + BatchSize, |ids| - BatchSize));
  }

  /** Every batch holds 1 to 100 ids. */
  lemma {:induction false} BatchSizes(ids: seq<Value>)
    ensures forall k :: 0 <= k < |Batches(ids)| ==> 0 < |Batches(ids)[k]| <= BatchSize
    decreases |ids|
  {
    if |ids| > BatchSize {
      BatchSizes(ids[BatchSize..]);
      assert Batches(ids) == [ids[..BatchSize]] + Batches(ids[BatchSize..]);
    }
  }

  /** The batches, concatenated, give back the ids in order. */
  lemma {:induction false} BatchesFlatten(ids: seq<Value>)
    ensures Flatten(Batches(ids)) == ids
    decreases |ids|
  {
    if |ids| > BatchSize {
      var rest := ids[BatchSize..];
      BatchesFlatten(rest);
      var bs := Batches(ids);
      assert Flatten(bs) == ids[..BatchSize] + Flatten(bs[1..]);
      assert bs[1..] == Batches(rest);
    }
  }

  /** Positions 100k to 100k+99 make up batch k. */
  lemma PositionInBatch(m: int, k: int)
    requires 0 <= m && 0 <= k
    ensures m / BatchSize == k <==> k * BatchSize <= m < k * BatchSize + BatchSize
  {
  }

  /** A value in a batch is one of the ids, at a position whose batch is that one. */
  lemma InBatchAt(ids: seq<Value>, x: Value, k: int) returns (m: int)
    requires 0 <= k < |Batches(ids)| && x in Batches(ids)[k]
    ensures 0 <= m < |ids| && ids[m] == x && m / BatchSize == k
  {
    BatchesPartition(ids);
    var lo, hi := k * BatchSize, Min(k * BatchSize + BatchSize, |ids|);
    var b := Batches(ids)[k];
    assert b == ids[lo..hi];
    var t :| 0 <= t < |b| && b[t] == x;
    m := lo + t;
    assert ids[m] == x;
    PositionInBatch(m, k);
  }

  /** The element at a position inside a slice is in the slice. */
  lemma SliceMember(s: seq<Value>, lo: int, hi: int, i: int)
    requires 0 <= lo <= i < hi <= |s|
    ensures s[i] in s[lo..hi]
  {
    assert s[lo..hi][i - lo] == s[i];
  }

  /**
   * With distinct ids, the id at position i lies in batch k exactly when
   * k == i / 100; so the ids at positions i and j share a batch only when
   * i / 100 == j / 100.
   */
  lemma BatchOfPosition(ids: seq<Value>, i: int, k: int)
    requires forall a, b :: 0 <= a < b < |ids| ==> ids[a] != ids[b]
    requires 0 <= i < |ids| && 0 <= k < |Batches(ids)|
    ensures ids[i] in Batches(ids)[k] <==> i / BatchSize == k
  {
    if ids[i] in Batches(ids)[k] {
      var m := InBatchAt(ids, ids[i], k);
    }
    if i / BatchSize == k {
      BatchesPartition(ids);
      PositionInBatch(i, k);
      SliceMember(ids, k * BatchSize, Min(k * BatchSize + BatchSize, |ids|), i);
    }
  }

  // ---------------------------------------------------------------------------
  // Edge resolution

  /** One relationship query per batch, in batch order. */
  function RelQueries(bs: seq<seq<Value>>): seq<Query> {
    seq(|bs|, k requires 0 <= k < |bs| => RelsAmong(bs[k]))
  }

  lemma RelQueriesAt(bs: seq<seq<Value>>)
    ensures |RelQueries(bs)| == |bs| && forall k :: 0 <= k < |bs| ==> RelQueries(bs)[k] == RelsAmong(bs[k])
  {
  }

  /** The queries of two runs of batches are those of the first run followed by those of the second. */
  lemma RelQueriesAppend(xs: seq<seq<Value>>, ys: seq<seq<Value>>)
    ensures RelQueries(xs + ys) == RelQueries(xs) + RelQueries(ys)
  {
    var lhs, rhs := RelQueries(xs + ys), RelQueries(xs) + RelQueries(ys);
    assert |lhs| == |rhs|;
    forall k | 0 <= k < |lhs|
      ensures lhs[k] == rhs[k]
    {
      if k >= |xs| {
        assert (xs + ys)[k] == ys[k - |xs|];
      }
    }
  }

  /**
   * One relationship query per batch, in batch order; the edges of each batch's
   * records are appended in record order; the first query that raises ends the
   * resolution with its error and nothing collected so far is returned.
   */
  function EdgesOfBatches(exec: Engine, bs: seq<seq<Value>>): Result<seq<GraphEdge>> {
    if bs == [] then Success([])
    else
      match EdgesOfBatches(exec, bs[..|bs| - 1])
      case Failure(e) => Failure(e)
      case Success(edges) =>
        match exec(RelsAmong(bs[|bs| - 1]))
        case Failure(e) => Failure(e)
        case Success(records) => Success(edges + EdgesOf(records))
  }

  /** When the resolution succeeds, the query of every batch succeeded. */
  lemma {:induction false} SucceededBatchesRan(exec: Engine, bs: seq<seq<Value>>)
    requires EdgesOfBatches(exec, bs).Success?
    ensures forall k :: 0 <= k < |bs| ==> exec(RelsAmong(bs[k])).Success?
    decreases |bs|
  {
    if bs != [] {
      var init := bs[..|bs| - 1];
      SucceededBatchesRan(exec, init);
      assert forall k :: 0 <= k < |init| ==> init[k] == bs[k];
    }
  }

  /** Once a batch fails, later batches cannot bring the resolution back. */
  lemma {:induction false} FailureIsFinal(exec: Engine, done: seq<seq<Value>>, rest: seq<seq<Value>>)
    requires EdgesOfBatches(exec, done).Failure?
    ensures EdgesOfBatches(exec, done + rest) == EdgesOfBatches(exec, done)
    decreases |rest|
  {
    if rest == [] {
      assert done + rest == done;
    } else {
      var init := rest[..|rest| - 1];
      FailureIsFinal(exec, done, init);
      assert (done + rest)[..|done + rest| - 1] == done + init;
    }
  }

  /** The record loop of one batch: an edge per record with both ends and an id, in record order. */
  method CollectEdges(records: seq<Record>) returns (edges: seq<GraphEdge>)
    ensures edges == EdgesOf(records)
  {
    edges := [];
    var j := 0;
    while j < |records|
      invariant 0 <= j <= |records|
      invariant edges == EdgesOf(records[..j])
    {
      var relRecord := records[j];
      var fromId := Get(relRecord, "from_node");
      var toId := Get(relRecord, "to_node");
      var relId := Get(relRecord, "rel_id");
      var relType := GetOr(relRecord, "type", Str(""));
      if Truthy(fromId) && Truthy(toId) && relId != Null {
        edges := edges + [GraphEdge(relId, fromId, toId, relType)];
      }
      assert records[..j + 1][..j] == records[..j];
      j := j + 1;
    }
    assert records[..j] == records;
  }

  /** The ids from position `i` on are one batch of up to 100 ids followed by the batches of the rest. */
  lemma BatchesStep(ids: seq<Value>, i: nat, hi: nat)
    requires i < |ids| && hi == Min(i + BatchSize, |ids|)
    ensures Batches(ids[i..]) == [ids[i..hi]] + Batches(ids[hi..])
  {
    var tail := ids[i..];
    if |tail| <= BatchSize {
      assert ids[i..hi] == tail && ids[hi..] == [];
    } else {
      assert tail[..BatchSize] == ids[i..hi] && tail[BatchSize..] == ids[hi..];
    }
  }

  /** The resolution over one more batch, in terms of the resolution over the batches before it. */
  lemma EdgesOfNextBatch(exec: Engine, done: seq<seq<Value>>, batch: seq<Value>)
    ensures EdgesOfBatches(exec, done + [batch])
         == match EdgesOfBatches(exec, done)
            case Failure(e) => Failure(e)
            case Success(edges) =>
              match exec(RelsAmong(batch))
              case Failure(e) => Failure(e)
              case Success(records) => Success(edges + EdgesOf(records))
  {
    assert (done + [batch])[..|done + [batch]| - 1] == done;
  }

  /** One round of the batch loop: the batch `ids[i..hi]` joins the batches done. */
  lemma NextBatch(ids: seq<Value>, done: seq<seq<Value>>, i: nat, hi: nat)
    requires i < |ids| && hi == Min(i + BatchSize, |ids|)
    requires done + Batches(ids[i..]) == Batches(ids)
    ensures (done + [ids[i..hi]]) + Batches(ids[hi..]) == Batches(ids)
  {
    BatchesStep(ids, i, hi);
    assert (done + [ids[i..hi]]) + Batches(ids[hi..]) == done + Batches(ids[i..]);
  }

  /** One more batch adds its query at the end of the queries issued. */
  lemma NextQuery(done: seq<seq<Value>>, batch: seq<Value>)
    ensures RelQueries(done + [batch]) == RelQueries(done) + [RelsAmong(batch)]
  {
    RelQueriesAppend(done, [batch]);
    assert RelQueries([batch]) == [RelsAmong(batch)];
  }

  /**
   * The outcome of one more batch: when its query raises, the whole
   * resolution fails with that error and the queries so far come first in the
   * full list; otherwise the edges of its records are appended.
   */
  lemma BatchOutcome(exec: Engine, done: seq<seq<Value>>, batch: seq<Value>, rest: seq<seq<Value>>, all: seq<seq<Value>>)
    requires (done + [batch]) + rest == all && EdgesOfBatches(exec, done).Success?
    ensures exec(RelsAmong(batch)).Failure? ==>
              && EdgesOfBatches(exec, all) == Failure(exec(RelsAmong(batch)).error)
              && RelQueries(done + [batch]) <= RelQueries(all)
    ensures exec(RelsAmong(batch)).Success? ==>
              EdgesOfBatches(exec, done + [batch])
                == Success(EdgesOfBatches(exec, done).value + EdgesOf(exec(RelsAmong(batch)).value))
  {
    EdgesOfNextBatch(exec, done, batch);
    if exec(RelsAmong(batch)).Failure? {
      FailureIsFinal(exec, done + [batch], rest);
      RelQueriesAppend(done + [batch], rest);
    }
  }

  /** Once the loop has passed every id, the batches done are all the batches. */
  lemma BatchesDone(ids: seq<Value>, done: seq<seq<Value>>, i: nat)
    requires i == |ids| && done + Batches(ids[i..]) == Batches(ids)
    ensures done == Batches(ids)
  {
    assert ids[i..] == [];
  }

  /** The batched relationship loop of `search_all_nodes` and `get_graph_data`. */
  method ResolveEdges(exec: Engine, nodeIds: seq<Value>) returns (res: Result<seq<GraphEdge>>, issued: seq<Query>)
    ensures res == EdgesOfBatches(exec, Batches(nodeIds))
    ensures issued <= RelQueries(Batches(nodeIds))
    ensures res.Success? ==> issued == RelQueries(Batches(nodeIds))
    ensures res.Failure? ==> issued != [] && exec(issued[|issued| - 1]) == Failure(res.error)
    ensures forall k :: 0 <= k < |issued| - 1 ==> exec(issued[k]).Success?
    ensures res.Success? ==> forall k :: 0 <= k < |issued| ==> exec(issued[k]).Success?
  {
    var edges: seq<GraphEdge> := [];
    issued := [];
    ghost var done: seq<seq<Value>> := [];
    var i := 0;
    while i < |nodeIds|
      invariant 0 <= i <= |nodeIds|
      invariant done + Batches(nodeIds[i..]) == Batches(nodeIds)
      invariant EdgesOfBatches(exec, done) == Success(edges)
      invariant issued == RelQueries(done)
      decreases |nodeIds| - i
    {
      var hi := if i + BatchSize <= |nodeIds| then i + BatchSize else |nodeIds|;
      var batch := nodeIds[i..hi];
      NextBatch(nodeIds, done, i, hi);
      NextQuery(done, batch);
      BatchOutcome(exec, done, batch, Batches(nodeIds[hi..]), Batches(nodeIds));
      issued := issued + [RelsAmong(batch)];
      var relResults := exec(RelsAmong(batch));
      if relResults.Failure? {
        SucceededBatchesRan(exec, done);
        RelQueriesAt(done);
        res := Failure(relResults.error);
        return;
      }
      var batchEdges := CollectEdges(relResults.value);
      edges := edges + batchEdges;
      done := done + [batch];
      i := hi;
    }
    BatchesDone(nodeIds, done, i);
    SucceededBatchesRan(exec, done);
    RelQueriesAt(done);
    res := Success(edges);
  }

  // ---------------------------------------------------------------------------
  // Keyword search and full scan

  /** The payload for a node query: its nodes, then the edges among them, batch by batch. */
  function SnapshotOf(exec: Engine, nodeQuery: Query): Result<Snapshot> {
    match exec(nodeQuery)
    case Failure(e) => Failure(e)
    case Success(records) =>
      var nodes := NodesOf(records);
      match EdgesOfBatches(exec, Batches(IdsOf(nodes)))
      case Failure(e) => Failure(e)
      case Success(edges) => Success(Snapshot(nodes, edges))
  }

  /** The node query, then (when it found nodes) one relationship query per batch of their ids. */
  function QueriesOf(exec: Engine, nodeQuery: Query): seq<Query> {
    match exec(nodeQuery)
    case Failure(_) => [nodeQuery]
    case Success(records) => [nodeQuery] + RelQueries(Batches(IdsOf(NodesOf(records))))
  }

  /** The shared body of `search_all_nodes` and `get_graph_data`. */
  method AssembleSnapshot(exec: Engine, nodeQuery: Query) returns (res: Result<Snapshot>, issued: seq<Query>)
    ensures res == SnapshotOf(exec, nodeQuery)
    ensures issued != [] && issued[0] == nodeQuery && issued <= QueriesOf(exec, nodeQuery)
    ensures res.Success? ==> issued == QueriesOf(exec, nodeQuery)
    ensures res.Failure? ==> exec(issued[|issued| - 1]) == Failure(res.error)
    ensures forall k :: 0 <= k < |issued| - 1 ==> exec(issued[k]).Success?
  {
    issued := [nodeQuery];
    var results := exec(nodeQuery);
    if results.Failure? {
      res := Failure(results.error);
      return;
    }
    var nodes, nodeIds := CollectNodes(results.value);
    assert nodeIds == IdsOf(nodes);
    var edges: seq<GraphEdge> := [];
    if nodeIds != [] {
      var resolved, relQueries := ResolveEdges(exec, nodeIds);
      issued := issued + relQueries;
      if resolved.Failure? {
        res := Failure(resolved.error);
        return;
      }
      edges := resolved.value;
    }
    res := Success(Snapshot(nodes, edges));
  }

  /** `search_all_nodes(keyword, limit)` */
  method SearchAllNodes(exec: Engine, keyword: string, limit: int) returns (res: Result<Snapshot>, issued: seq<Query>)
    ensures res == SnapshotOf(exec, KeywordNodes(keyword, limit))
    ensures issued != [] && issued[0] == KeywordNodes(keyword, limit) && issued <= QueriesOf(exec, KeywordNodes(keyword, limit))
    ensures res.Success? ==> issued == QueriesOf(exec, KeywordNodes(keyword, limit))
    ensures res.Failure? ==> exec(issued[|issued| - 1]) == Failure(res.error)
    ensures forall k :: 0 <= k < |issued| - 1 ==> exec(issued[k]).Success?
  {
    res, issued := AssembleSnapshot(exec, KeywordNodes(keyword, limit));
  }

  /** `get_graph_data(limit)` */
  method GetGraphData(exec: Engine, limit: int) returns (res: Result<Snapshot>, issued: seq<Query>)
    ensures res == SnapshotOf(exec, AllNodes(limit))
    ensures issued != [] && issued[0] == AllNodes(limit) && issued <= QueriesOf(exec, AllNodes(limit))
    ensures res.Success? ==> issued == QueriesOf(exec, AllNodes(limit))
    ensures res.Failure? ==> exec(issued[|issued| - 1]) == Failure(res.error)
    ensures forall k :: 0 <= k < |issued| - 1 ==> exec(issued[k]).Success?
  {
    res, issued := AssembleSnapshot(exec, AllNodes(limit));
  }

  /**
   * When the node query finds no node with an id, the only query is the node
   * query; otherwise exactly ceil(K/100) relationship queries follow it, one per
   * consecutive slice of at most 100 of the K node ids.
   */
  lemma QueryCount(exec: Engine, nodeQuery: Query)
    requires exec(nodeQuery).Success?
    ensures var ids := IdsOf(NodesOf(exec(nodeQuery).value));
            && |QueriesOf(exec, nodeQuery)| == 1 + (|ids| + BatchSize - 1) / BatchSize
            && (ids == [] ==> QueriesOf(exec, nodeQuery) == [nodeQuery])
            && forall k :: 1 <= k < |QueriesOf(exec, nodeQuery)| ==>
                 QueriesOf(exec, nodeQuery)[k] == RelsAmong(Batches(ids)[k - 1])
                 && 0 < |Batches(ids)[k - 1]| <= BatchSize
  {
    var ids := IdsOf(NodesOf(exec(nodeQuery).value));
    var qs, bs := QueriesOf(exec, nodeQuery), Batches(ids);
    assert qs == [nodeQuery] + RelQueries(bs);
    BatchCount(ids);
    BatchSizes(ids);
    RelQueriesAt(bs);
    forall k | 1 <= k < |qs|
      ensures qs[k] == RelsAmong(bs[k - 1])
    {
      assert qs[k] == RelQueries(bs)[k - 1];
    }
  }

  // ---------------------------------------------------------------------------
  // Neighbour expansion

  function RecordId(r: Record): Value {
    Get(r, "id")
  }

  /**
   * The neighbour dict after the records, as a list in insertion order: a record
   * adds its node when its id is truthy and not yet a key.
   */
  function DedupNeighbors(records: seq<Record>): seq<GraphNode> {
    if records == [] then []
    else
      var seen := DedupNeighbors(records[..|records| - 1]);
      var r := records[|records| - 1];
      if Truthy(RecordId(r)) && RecordId(r) !in IdsOf(seen) then seen + [NodeFrom(r)] else seen
  }

  /** `start_node.get("identity") or start_node.get("id")` for a dict, `getattr(start_node, "id", None)` otherwise. */
  function EndpointId(v: Value): Value {
    if v.Dict? then Or(Get(v.entries, "identity"), Get(v.entries, "id")) else GetAttr(v, "id")
  }

  /**
   * The edge a neighbour record gives: none unless `rel_id` is not None and both
   * endpoint values are truthy; the extracted endpoint ids when both are truthy,
   * `(node_id, neighbor_id)` otherwise.
   */
  function NeighborEdge(nodeId: Value, r: Record): Option<GraphEdge> {
    var relId := Get(r, "rel_id");
    var relType := GetOr(r, "rel_type", Str(""));
    var startNode := Get(r, "start_node");
    var endNode := Get(r, "end_node");
    if relId == Null || !(Truthy(startNode) && Truthy(endNode)) then None
    else
      var fromId := EndpointId(startNode);
      var toId := EndpointId(endNode);
      if !Truthy(fromId) || !Truthy(toId) then Some(GraphEdge(relId, nodeId, RecordId(r), relType))
      else Some(GraphEdge(relId, fromId, toId, relType))
  }

  function NeighborEdgeOf(nodeId: Value): Record -> Option<GraphEdge> {
    r => NeighborEdge(nodeId, r)
  }

  function NeighborEdges(nodeId: Value, records: seq<Record>): seq<GraphEdge> {
    FilterMap(records, NeighborEdgeOf(nodeId))
  }

  /** The payload of `get_node_neighbors`; note there is no depth. */
  function NeighborsOfNode(exec: Engine, nodeId: Value): Result<Snapshot> {
    match exec(NeighborsOf(nodeId))
    case Failure(e) => Failure(e)
    case Success(records) => Success(Snapshot(DedupNeighbors(records), NeighborEdges(nodeId, records)))
  }

  /**
   * The neighbour dict of the loop, seen as its keys in insertion order and
   * its values: the keys are the ids of `seen`, and each key maps to the node
   * at its position.
   */
  ghost predicate NeighborTable(nodes: map<Value, GraphNode>, order: seq<Value>, seen: seq<GraphNode>) {
    && order == IdsOf(seen)
    && (forall v :: v in nodes <==> v in order)
    && (forall k :: 0 <= k < |order| ==> order[k] in nodes && nodes[order[k]] == seen[k])
  }

  /** Inserting a node under a new id keeps the dict in step with the neighbour list. */
  lemma TableAdd(nodes: map<Value, GraphNode>, order: seq<Value>, seen: seq<GraphNode>, n: GraphNode)
    requires NeighborTable(nodes, order, seen) && n.id !in nodes
    ensures NeighborTable(nodes[n.id := n], order + [n.id], seen + [n])
  {
    var order', seen' := order + [n.id], seen + [n];
    assert IdsOf(seen') == order';
    forall k | 0 <= k < |order'|
      ensures order'[k] in nodes[n.id := n] && nodes[n.id := n][order'[k]] == seen'[k]
    {
      if k < |order| {
        assert order[k] in nodes;
        assert order[k] != n.id;
      }
    }
  }

  /** The dict after one more record: the record's node is inserted when its id is truthy and new. */
  lemma TableStep(nodes: map<Value, GraphNode>, order: seq<Value>, records: seq<Record>, j: int)
    requires 0 <= j < |records| && NeighborTable(nodes, order, DedupNeighbors(records[..j]))
    ensures var id := RecordId(records[j]);
            Truthy(id) && id !in nodes ==>
              NeighborTable(nodes[id := NodeFrom(records[j])], order + [id], DedupNeighbors(records[..j + 1]))
    ensures var id := RecordId(records[j]);
            !(Truthy(id) && id !in nodes) ==> NeighborTable(nodes, order, DedupNeighbors(records[..j + 1]))
  {
    DedupStep(records, j);
    var id := RecordId(records[j]);
    if Truthy(id) && id !in nodes {
      TableAdd(nodes, order, DedupNeighbors(records[..j]), NodeFrom(records[j]));
    }
  }

  /** One record of the neighbour loop adds its node to the neighbours when its id is truthy and new. */
  lemma DedupStep(records: seq<Record>, j: int)
    requires 0 <= j < |records|
    ensures var seen := DedupNeighbors(records[..j]);
            var id := RecordId(records[j]);
            DedupNeighbors(records[..j + 1])
              == if Truthy(id) && id !in IdsOf(seen) then seen + [NodeFrom(records[j])] else seen
  {
    assert records[..j + 1][..j] == records[..j];
  }

  /** One record of the neighbour loop adds its edge, if it gives one, to the edges. */
  lemma EdgeStep(nodeId: Value, records: seq<Record>, j: int)
    requires 0 <= j < |records|
    ensures NeighborEdges(nodeId, records[..j + 1])
              == NeighborEdges(nodeId, records[..j])
               + (match NeighborEdge(nodeId, records[j]) case Some(e) => [e] case None => [])
  {
    assert records[..j + 1][..j] == records[..j];
  }

  /**
   * `get_node_neighbors(node_id, depth)`: one one-hop query whatever `depth` is,
   * neighbours collected in a dict keyed by id, edges in record order.
   */
  method GetNodeNeighbors(exec: Engine, nodeId: Value, depth: int) returns (res: Result<Snapshot>, issued: seq<Query>)
    ensures issued == [NeighborsOf(nodeId)]
    ensures res == NeighborsOfNode(exec, nodeId)
  {
    issued := [NeighborsOf(nodeId)];
    var results := exec(NeighborsOf(nodeId));
    if results.Failure? {
      res := Failure(results.error);
      return;
    }
    var records := results.value;
    var nodes, order, edges := CollectNeighbors(nodeId, records);
    ghost var neighbors := DedupNeighbors(records);
    // list(nodes.values())
    var list: seq<GraphNode> := [];
    var k := 0;
    while k < |order|
      invariant 0 <= k <= |order| == |neighbors|
      invariant list == neighbors[..k]
    {
      list := list + [nodes[order[k]]];
      assert neighbors[..k + 1] == neighbors[..k] + [neighbors[k]];
      k := k + 1;
    }
    assert list == neighbors;
    res := Success(Snapshot(list, edges));
  }

  /**
   * The record loop of `get_node_neighbors`: the neighbour dict, seen as its
   * keys in insertion order and its values, and the edges.
   */
  method CollectNeighbors(nodeId: Value, records: seq<Record>)
    returns (nodes: map<Value, GraphNode>, order: seq<Value>, edges: seq<GraphEdge>)
    ensures NeighborTable(nodes, order, DedupNeighbors(records))
    ensures edges == NeighborEdges(nodeId, records)
  {
    nodes, order, edges := map[], [], [];
    var j := 0;
    while j < |records|
      invariant 0 <= j <= |records|
      invariant NeighborTable(nodes, order, DedupNeighbors(records[..j]))
      invariant edges == NeighborEdges(nodeId, records[..j])
    {
      var record := records[j];
      EdgeStep(nodeId, records, j);
      var neighborId := Get(record, "id");
      var neighborLabels := GetOr(record, "labels", List([]));
      var neighborProperties := GetOr(record, "properties", Dict(map[]));
      TableStep(nodes, order, records, j);
      if Truthy(neighborId) && neighborId !in nodes {
        assert GraphNode(neighborId, ListOrEmpty(neighborLabels), DictOrEmpty(neighborProperties)) == NodeFrom(record);
        nodes := nodes[neighborId := GraphNode(neighborId, ListOrEmpty(neighborLabels), DictOrEmpty(neighborProperties))];
        order := order + [neighborId];
      }
      assert NeighborTable(nodes, order, DedupNeighbors(records[..j + 1]));
      var relId := Get(record, "rel_id");
      var relType := GetOr(record, "rel_type", Str(""));
      if relId != Null {
        var startNode := Get(record, "start_node");
        var endNode := Get(record, "end_node");
        if Truthy(startNode) && Truthy(endNode) {
          var fromId := EndpointId(startNode);
          var toId := EndpointId(endNode);
          if !Truthy(fromId) || !Truthy(toId) {
            fromId := nodeId;
            toId := neighborId;
          }
          edges := edges + [GraphEdge(relId, fromId, toId, relType)];
        }
      }
      j := j + 1;
    }
    assert records[..j] == records;
  }

  /** A record at position i is the first with its id when that id is truthy and no earlier record has it. */
  ghost predicate FirstWithId(records: seq<Record>, i: int) {
    && 0 <= i < |records|
    && Truthy(RecordId(records[i]))
    && forall j :: 0 <= j < i ==> RecordId(records[j]) != RecordId(records[i])
  }

  /** The positions of the records that are first with their id, ascending. */
  ghost function FirstPositions(records: seq<Record>): (ps: seq<int>)
    ensures forall k :: 0 <= k < |ps| ==> 0 <= ps[k] < |records|
  {
    if records == [] then []
    else FirstPositions(records[..|records| - 1]) + (if FirstWithId(records, |records| - 1) then [|records| - 1] else [])
  }

  lemma {:induction false} FirstPositionsSpec(records: seq<Record>)
    ensures forall a, b :: 0 <= a < b < |FirstPositions(records)| ==> FirstPositions(records)[a] < FirstPositions(records)[b]
    ensures forall i :: i in FirstPositions(records) <==> FirstWithId(records, i)
    decreases |records|
  {
    if records != [] {
      var init := records[..|records| - 1];
      FirstPositionsSpec(init);
      forall i | 0 <= i < |init|
        ensures FirstWithId(records, i) <==> FirstWithId(init, i)
      {
        assert forall j :: 0 <= j <= i ==> records[j] == init[j];
      }
      var ps := FirstPositions(records);
      assert ps[..|FirstPositions(init)|] == FirstPositions(init);
      forall a, b | 0 <= a < b < |ps| ensures ps[a] < ps[b] {
        if b >= |FirstPositions(init)| {
          assert ps[b] == |records| - 1;
          assert ps[a] == FirstPositions(init)[a] < |init|;
        }
      }
    }
  }

  /**
   * Neighbour nodes are exactly the first record of each truthy id, normalised,
   * in record order: later records with the same id and records whose id is
   * falsy add nothing.
   */
  lemma {:induction false} NeighborsAreFirstOccurrences(records: seq<Record>)
    ensures |DedupNeighbors(records)| == |FirstPositions(records)|
    ensures forall k :: 0 <= k < |DedupNeighbors(records)| ==>
              DedupNeighbors(records)[k] == NodeFrom(records[FirstPositions(records)[k]])
    ensures forall v :: v in IdsOf(DedupNeighbors(records)) <==>
              exists i :: 0 <= i < |records| && Truthy(RecordId(records[i])) && RecordId(records[i]) == v
    decreases |records|
  {
    NeighborIdsAreRecordIds(records);
    if records != [] {
      var init := records[..|records| - 1];
      NeighborsAreFirstOccurrences(init);
      LastIsFirstWithId(records);
      var seen := DedupNeighbors(init);
      var ps := FirstPositions(records);
      assert ps[..|FirstPositions(init)|] == FirstPositions(init);
      forall k | 0 <= k < |DedupNeighbors(records)|
        ensures DedupNeighbors(records)[k] == NodeFrom(records[ps[k]])
      {
        if k < |seen| {
          assert DedupNeighbors(records)[k] == seen[k];
          assert ps[k] == FirstPositions(init)[k];
          assert records[ps[k]] == init[ps[k]];
        }
      }
    }
  }

  /** The ids of the neighbour nodes are exactly the truthy record ids. */
  lemma {:induction false} NeighborIdsAreRecordIds(records: seq<Record>)
    ensures forall v :: v in IdsOf(DedupNeighbors(records)) <==>
              exists i :: 0 <= i < |records| && Truthy(RecordId(records[i])) && RecordId(records[i]) == v
    decreases |records|
  {
    if records != [] {
      var init := records[..|records| - 1];
      var r := records[|records| - 1];
      NeighborIdsAreRecordIds(init);
      var seen := DedupNeighbors(init);
      var added := Truthy(RecordId(r)) && RecordId(r) !in IdsOf(seen);
      assert IdsOf(DedupNeighbors(records)) == IdsOf(seen) + (if added then [RecordId(r)] else []);
      forall v
        ensures v in IdsOf(DedupNeighbors(records)) <==>
                exists i :: 0 <= i < |records| && Truthy(RecordId(records[i])) && RecordId(records[i]) == v
      {
        if exists i :: 0 <= i < |records| && Truthy(RecordId(records[i])) && RecordId(records[i]) == v {
          var i :| 0 <= i < |records| && Truthy(RecordId(records[i])) && RecordId(records[i]) == v;
          if i < |init| {
            assert init[i] == records[i];
            assert v in IdsOf(seen);
          } else {
            assert v == RecordId(r);
          }
        }
        if v in IdsOf(seen) {
          var i :| 0 <= i < |init| && Truthy(RecordId(init[i])) && RecordId(init[i]) == v;
          assert records[i] == init[i];
        }
      }
    }
  }

  /** The last record adds a node exactly when it is the first with its id. */
  lemma LastIsFirstWithId(records: seq<Record>)
    requires records != []
    ensures FirstWithId(records, |records| - 1) <==>
              && Truthy(RecordId(records[|records| - 1]))
              && RecordId(records[|records| - 1]) !in IdsOf(DedupNeighbors(records[..|records| - 1]))
  {
    var init := records[..|records| - 1];
    var r := records[|records| - 1];
    NeighborIdsAreRecordIds(init);
    if Truthy(RecordId(r)) && RecordId(r) in IdsOf(DedupNeighbors(init)) {
      var i :| 0 <= i < |init| && Truthy(RecordId(init[i])) && RecordId(init[i]) == RecordId(r);
      assert records[i] == init[i];
    }
    if FirstWithId(records, |records| - 1) {
      forall i | 0 <= i < |init| ensures RecordId(init[i]) != RecordId(r) {
        assert records[i] == init[i];
      }
    }
  }

  /** No two neighbour nodes share an id. */
  lemma NeighborIdsUnique(records: seq<Record>)
    ensures forall a, b :: 0 <= a < b < |DedupNeighbors(records)| ==>
              DedupNeighbors(records)[a].id != DedupNeighbors(records)[b].id
  {
    NeighborsAreFirstOccurrences(records);
    FirstPositionsSpec(records);
    var ns, ps := DedupNeighbors(records), FirstPositions(records);
    forall a, b | 0 <= a < b < |ns| ensures ns[a].id != ns[b].id {
      assert ps[a] in ps && ps[b] in ps;
      assert FirstWithId(records, ps[b]);
      assert ns[a].id == RecordId(records[ps[a]]);
    }
  }

  /**
   * Every neighbour edge comes from one record with a non-None `rel_id` and two
   * truthy endpoint values, keeps that `rel_id`, and falls back to
   * `(node_id, neighbor_id)` unless both extracted endpoint ids are truthy.
   */
  lemma NeighborEdgesFromRecords(nodeId: Value, records: seq<Record>, e: GraphEdge)
    requires e in NeighborEdges(nodeId, records)
    ensures exists i :: 0 <= i < |records| && NeighborEdge(nodeId, records[i]) == Some(e)
    ensures e.id != Null
    ensures e.fromNode == nodeId || Truthy(e.fromNode)
  {
    FilterMapMember(records, NeighborEdgeOf(nodeId), e);
    var i :| 0 <= i < |records| && NeighborEdgeOf(nodeId)(records[i]) == Some(e);
  }

  /**
   * A neighbour record gives an edge exactly when its `rel_id` is not None and
   * both endpoint values are truthy.  The edge carries the record's
   * relationship id and type (default ""), and runs between the endpoint ids
   * when both are truthy, and from the queried node to the record's `id`
   * otherwise.
   */
  lemma NeighborEdgeCases(nodeId: Value, r: Record)
    ensures NeighborEdge(nodeId, r).Some?
        <==> Get(r, "rel_id") != Null && Truthy(Get(r, "start_node")) && Truthy(Get(r, "end_node"))
    ensures NeighborEdge(nodeId, r).Some? ==>
              && NeighborEdge(nodeId, r).value.id == Get(r, "rel_id")
              && NeighborEdge(nodeId, r).value.relType == GetOr(r, "rel_type", Str(""))
    ensures NeighborEdge(nodeId, r).Some?
              && Truthy(EndpointId(Get(r, "start_node"))) && Truthy(EndpointId(Get(r, "end_node"))) ==>
              && NeighborEdge(nodeId, r).value.fromNode == EndpointId(Get(r, "start_node"))
              && NeighborEdge(nodeId, r).value.toNode == EndpointId(Get(r, "end_node"))
    ensures NeighborEdge(nodeId, r).Some?
              && !(Truthy(EndpointId(Get(r, "start_node"))) && Truthy(EndpointId(Get(r, "end_node")))) ==>
              && NeighborEdge(nodeId, r).value.fromNode == nodeId
              && NeighborEdge(nodeId, r).value.toNode == Get(r, "id")
  {
  }

  /** Conversely, the edge of every record that gives one is among the neighbour edges. */
  lemma NeighborEdgeKept(nodeId: Value, records: seq<Record>, i: int)
    requires 0 <= i < |records| && NeighborEdge(nodeId, records[i]).Some?
    ensures NeighborEdge(nodeId, records[i]).value in NeighborEdges(nodeId, records)
  {
    FilterMapMember(records, NeighborEdgeOf(nodeId), NeighborEdge(nodeId, records[i]).value);
  }

  /** Neighbour edges keep record order: each record adds its own edge, if any, between those of the records around it. */
  lemma NeighborEdgesInRecordOrder(nodeId: Value, before: seq<Record>, r: Record, after: seq<Record>)
    ensures NeighborEdges(nodeId, before + [r] + after)
         == NeighborEdges(nodeId, before)
          + (match NeighborEdge(nodeId, r) case Some(e) => [e] case None => [])
          + NeighborEdges(nodeId, after)
  {
    FilterMapAppend(before + [r], after, NeighborEdgeOf(nodeId));
    FilterMapAppend(before, [r], NeighborEdgeOf(nodeId));
    assert [r][..0] == [];
  }

  // ---------------------------------------------------------------------------
  // Statistics

  /** `{node_count, relationship_count, labels, relationship_types, connected, error?}` */
  datatype GraphStatistics = GraphStatistics(
    nodeCount: Value,
    relationshipCount: Value,
    labels: Value,
    relationshipTypes: Value,
    connected: bool,
    error: Option<string>)

  const DefaultStatistics := GraphStatistics(Null, Null, List([]), List([]), false, None)

  /** `results[0].get(key, default)` when the query returned rows; `default` when it returned none or raised. */
  function FirstField(results: Result<seq<Record>>, key: string, default: Value): Value {
    if results.Success? && results.value != [] then GetOr(results.value[0], key, default) else default
  }

  const StatisticsQueries := [CountNodes, CountRels, LabelsInUse, RelTypesInUse]

  /**
   * `get_graph_statistics()`: four queries in turn, each filling its field when
   * it returns rows; the first that raises stops the rest, sets `connected` to
   * false and records the error, keeping the fields already filled.
   */
  method GetGraphStatistics(exec: Engine) returns (stats: GraphStatistics, issued: seq<Query>)
    ensures issued != [] && issued <= StatisticsQueries
    ensures forall k :: 0 <= k < |issued| - 1 ==> exec(issued[k]).Success?
    ensures stats.error.Some? <==> exec(issued[|issued| - 1]).Failure?
    ensures stats.error.None? ==> issued == StatisticsQueries
    ensures stats.error.Some? ==> stats.error.value == exec(issued[|issued| - 1]).error
    ensures stats.connected <==> stats.error.None? && exec(CountNodes).Success? && exec(CountNodes).value != []
    ensures stats.nodeCount == FirstField(exec(CountNodes), "count", Null)
    ensures stats.relationshipCount == (if |issued| >= 2 then FirstField(exec(CountRels), "count", Null) else Null)
    ensures stats.labels == (if |issued| >= 3 then FirstField(exec(LabelsInUse), "labels", List([])) else List([]))
    ensures stats.relationshipTypes == (if |issued| == 4 then FirstField(exec(RelTypesInUse), "types", List([])) else List([]))
  {
    stats := DefaultStatistics;
    issued := [CountNodes];
    var results := exec(CountNodes);
    if results.Failure? {
      stats := stats.(connected := false, error := Some(results.error));
      return;
    }
    if results.value != [] {
      stats := stats.(nodeCount := Get(results.value[0], "count"), connected := true);
    }
    issued := issued + [CountRels];
    results := exec(CountRels);
    if results.Failure? {
      stats := stats.(connected := false, error := Some(results.error));
      return;
    }
    if results.value != [] {
      stats := stats.(relationshipCount := Get(results.value[0], "count"));
    }
    issued := issued + [LabelsInUse];
    results := exec(LabelsInUse);
    if results.Failure? {
      stats := stats.(connected := false, error := Some(results.error));
      return;
    }
    if results.value != [] {
      stats := stats.(labels := GetOr(results.value[0], "labels", List([])));
    }
    issued := issued + [RelTypesInUse];
    results := exec(RelTypesInUse);
    if results.Failure? {
      stats := stats.(connected := false, error := Some(results.error));
      return;
    }
    if results.value != [] {
      stats := stats.(relationshipTypes := GetOr(results.value[0], "types", List([])));
    }
  }
}
