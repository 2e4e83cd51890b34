/**
 * The graph engine behind the knowledge-graph service, reduced to what the
 * service sees of it: a query goes in, a list of records (or a raised error)
 * comes out.  `Engine` is any such function; `Run` is the reference engine over
 * a finite graph, giving each Cypher query the service issues its meaning.
 *
 * Records are what `record.data()` produces: a graph-element value such as
 * `startNode(r)` arrives as the dict of that node's properties.
 */
module GraphEngine {
  import opened Wrappers
  import opened PyValues
  import opened PyText

  /** A stored node: its element id, its labels and its properties. */
  datatype EngineNode = EngineNode(id: string, labels: seq<string>, properties: map<string, Value>)

  /** A stored relationship, directed from `start` to `end`. */
  datatype EngineRel = EngineRel(id: string, start: string, end: string, relType: string)

  datatype Graph = Graph(nodes: seq<EngineNode>, rels: seq<EngineRel>)

  /** The queries the service issues. */
  datatype Query =
    | KeywordNodes(keyword: string, limit: int)  // title contains keyword, LIMIT $limit
    | AllNodes(limit: int)                       // every node, LIMIT $limit
    | RelsAmong(nodeIds: seq<Value>)             // (a)-[r]-(b), both ends IN $node_ids
    | NeighborsOf(nodeId: Value)                 // (n)-[r]-(neighbor) for one node
    | CountNodes
    | CountRels
    | LabelsInUse
    | RelTypesInUse

  /** Whatever executes a query: its records, or the error it raised. */
  type Engine = Query -> Result<seq<Record>>

  function Strs(xs: seq<string>): seq<Value> {
    seq(|xs|, i requires 0 <= i < |xs| => Str(xs[i]))
  }

  /** `RETURN elementId(n) as id, labels(n) as labels, properties(n) as properties` */
  function NodeRecord(n: EngineNode): Record {
    map["id" := Str(n.id), "labels" := List(Strs(n.labels)), "properties" := Dict(n.properties)]
  }

  function NodeRecords(ns: seq<EngineNode>): seq<Record> {
    seq(|ns|, i requires 0 <= i < |ns| => NodeRecord(ns[i]))
  }

  /** `toString(n.title)` for a string property `title`; absent otherwise. */
  function Title(n: EngineNode): (t: Option<string>)
    ensures t.Some? <==> "title" in n.properties && n.properties["title"].Str?
    ensures t.Some? ==> n.properties["title"] == Str(t.value)
  {
    match Get(n.properties, "title")
    case Str(s) => Some(s)
    case _ => None
  }

  /** `toLower(toString(n.title)) CONTAINS toLower($keyword)`; a node without a title never matches. */
  predicate TitleMatches(n: EngineNode, keyword: string) {
    Title(n).Some? && Contains(Lower(Title(n).value), Lower(keyword))
  }

  /** The matching nodes, in the order the store holds them. */
  function KeywordHits(ns: seq<EngineNode>, keyword: string): (hits: seq<EngineNode>)
    ensures |hits| <= |ns|
    ensures forall n :: n in hits <==> n in ns && TitleMatches(n, keyword)
  {
    if ns == [] then []
    else (if TitleMatches(ns[0], keyword) then [ns[0]] else []) + KeywordHits(ns[1..], keyword)
  }

  /**
   * The hits of two runs of nodes are the hits of the first run followed by
   * those of the second: the scan keeps store order.
   */
  lemma {:induction false} KeywordHitsAppend(a: seq<EngineNode>, b: seq<EngineNode>, keyword: string)
    ensures KeywordHits(a + b, keyword) == KeywordHits(a, keyword) + KeywordHits(b, keyword)
    decreases |a|
  {
    if a == [] {
      assert a + b == b;
    } else {
      assert (a + b)[0] == a[0] && (a + b)[1..] == a[1..] + b;
      KeywordHitsAppend(a[1..], b, keyword);
    }
  }

  /** `LIMIT n`: the first `n` rows. */
  function Take<T>(xs: seq<T>, n: nat): seq<T> {
    if |xs| <= n then xs else xs[..n]
  }

  /** One row of `RETURN elementId(a) as from_node, elementId(b) as to_node, type(r) as type, elementId(r) as rel_id`. */
  function OrientedRecord(r: EngineRel, from: string, to: string): Record {
    map["from_node" := Str(from), "to_node" := Str(to), "type" := Str(r.relType), "rel_id" := Str(r.id)]
  }

  /**
   * `MATCH (a)-[r]-(b) WHERE elementId(a) IN $node_ids AND elementId(b) IN $node_ids`:
   * the undirected pattern binds each relationship with both ends in the list
   * once per orientation (a self-loop once).
   */
  function RelRecordsAmong(rels: seq<EngineRel>, batch: seq<Value>): seq<Record> {
    if rels == [] then []
    else
      var r := rels[0];
      var here :=
        if Str(r.start) in batch && Str(r.end) in batch then
          if r.start == r.end then [OrientedRecord(r, r.start, r.end)]
          else [OrientedRecord(r, r.start, r.end), OrientedRecord(r, r.end, r.start)]
        else [];
      here + RelRecordsAmong(rels[1..], batch)
  }

  /** The first stored node with the given element id. */
  function FindNode(ns: seq<EngineNode>, id: string): (found: Option<EngineNode>)
    ensures found.Some? ==> found.value in ns && found.value.id == id
    ensures found.None? ==> forall n :: n in ns ==> n.id != id
  {
    if ns == [] then None
    else if ns[0].id == id then Some(ns[0])
    else FindNode(ns[1..], id)
  }

  /** True when `r` has `nodeId` at one of its ends. */
  predicate Touches(r: EngineRel, nodeId: Value) {
    Str(r.start) == nodeId || Str(r.end) == nodeId
  }

  /** The end of `r` that is not `nodeId` (for a self-loop, the node itself). */
  function OtherEnd(r: EngineRel, nodeId: Value): string {
    if Str(r.start) == nodeId then r.end else r.start
  }

  /**
   * The row `MATCH (n)-[r]-(neighbor) WHERE elementId(n) = $node_id` yields for `r`:
   * the other end as the neighbour, and `startNode(r)`, `endNode(r)` as their
   * property dicts.  A relationship with a missing end yields nothing.
   */
  function NeighborRow(g: Graph, nodeId: Value, r: EngineRel): seq<Record> {
    if !Touches(r, nodeId) then []
    else
      match (FindNode(g.nodes, r.start), FindNode(g.nodes, r.end))
      case (Some(s), Some(e)) =>
        var other := if Str(r.start) == nodeId then e else s;
        [map[
          "center_id" := nodeId,
          "id" := Str(OtherEnd(r, nodeId)),
          "labels" := List(Strs(other.labels)),
          "properties" := Dict(other.properties),
          "rel_id" := Str(r.id),
          "rel_type" := Str(r.relType),
          "start_node" := Dict(s.properties),
          "end_node" := Dict(e.properties)
        ]]
      case _ => []
  }

  function NeighborRows(g: Graph, rels: seq<EngineRel>, nodeId: Value): seq<Record> {
    if rels == [] then [] else NeighborRow(g, nodeId, rels[0]) + NeighborRows(g, rels[1..], nodeId)
  }

  /** The strings of `xs` without repetitions, in first-seen order. */
  function Distinct(xs: seq<string>): seq<string> {
    if xs == [] then []
    else
      var init := Distinct(xs[..|xs| - 1]);
      if xs[|xs| - 1] in init then init else init + [xs[|xs| - 1]]
  }

  function AllLabels(ns: seq<EngineNode>): seq<string> {
    if ns == [] then [] else ns[0].labels + AllLabels(ns[1..])
  }

  function AllRelTypes(rels: seq<EngineRel>): seq<string> {
    if rels == [] then [] else [rels[0].relType] + AllRelTypes(rels[1..])
  }

  /** The reference engine: every query over `g` succeeds except a negative LIMIT. */
  function Run(g: Graph, q: Query): Result<seq<Record>> {
    match q
    case KeywordNodes(keyword, limit) =>
      if limit < 0 then Failure("LIMIT must be a non-negative integer")
      else Success(NodeRecords(Take(KeywordHits(g.nodes, keyword), limit)))
    case AllNodes(limit) =>
      if limit < 0 then Failure("LIMIT must be a non-negative integer")
      else Success(NodeRecords(Take(g.nodes, limit)))
    case RelsAmong(batch) => Success(RelRecordsAmong(g.rels, batch))
    case NeighborsOf(nodeId) => Success(NeighborRows(g, g.rels, nodeId))
    case CountNodes => Success([map["count" := Int(|g.nodes|)]])
    case CountRels => Success([map["count" := Int(|g.rels|)]])
    case LabelsInUse => Success([map["labels" := List(Strs(Distinct(AllLabels(g.nodes))))]])
    case RelTypesInUse => Success([map["types" := List(Strs(Distinct(AllRelTypes(g.rels))))]])
  }

  /** The reference engine as an `Engine`. */
  function EngineOf(g: Graph): Engine {
    q => Run(g, q)
  }

  /** The statistics queries each yield one row: the two counts, and the distinct labels and types in use. */
  lemma StatisticsAnswers(g: Graph)
    ensures EngineOf(g)(CountNodes) == Success([map["count" := Int(|g.nodes|)]])
    ensures EngineOf(g)(CountRels) == Success([map["count" := Int(|g.rels|)]])
    ensures EngineOf(g)(LabelsInUse) == Success([map["labels" := List(Strs(Distinct(AllLabels(g.nodes))))]])
    ensures EngineOf(g)(RelTypesInUse) == Success([map["types" := List(Strs(Distinct(AllRelTypes(g.rels))))]])
  {
  }

  /** The relationship query of one batch yields the records of the relationships among its ids. */
  lemma RelsQueryAnswer(g: Graph, batch: seq<Value>)
    ensures EngineOf(g)(RelsAmong(batch)) == Success(RelRecordsAmong(g.rels, batch))
  {
  }
}
