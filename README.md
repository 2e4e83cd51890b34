# Workshop fault-diagnosis backend: graph, chat memory and operation-log helper

This project models three parts of a backend. The backend serves a knowledge
graph of workshop faults, a question-answering chat, and an operation log.

- **KnowledgeGraphService** (`knowledge_graph.dfy`) turns the rows a graph
  engine returns into the `{nodes, edges}` payload that the front end draws.
  - Keyword search and the full scan first collect nodes. They then resolve
    the relationships among those nodes in batches of 100 ids.
  - Neighbour expansion deduplicates nodes by id.
  - Statistics run four queries and degrade when one of them fails.

  The engine is a parameter, `Engine = Query -> Result<seq<Record>>`. So every
  method is proved for any engine, including ones that raise errors.
  `GraphEngine.Run` gives the queries their meaning over a finite graph. The
  lemmas in `graph_scenarios.dfy` use it to show what the payload is for a
  concrete graph. A row reaches the service as `record.data()` makes it, so a
  node value such as `startNode(r)` arrives as the dict of that node's
  properties (backend/app/core/neo4j_client.py:67).
- **ChatService** (`chat_service.dfy`) keeps one message list per session.
  - Before each turn the list is cut to its last `memory_limit * 2 = 6`
    messages.
  - The question and the answer are appended only when the model gave a
    non-blank answer.
  - `clear_history` deletes one session.

  What the model returned for a turn is a parameter.
- **log_operation** (`logger_helper.dfy`) reads the client IP and the user
  agent off the request. It then asks the log store to add the row, and it
  swallows any error the store raises.

Python values are modelled by `PyValues.Value`. It has explicit truthiness,
`or`, `dict.get` and `getattr`. String operations (`strip`, `split(",")[0]`,
lower-casing, `in`) are in `PyText`.

Where the code and its documentation disagree, the model follows the code:

- **Statistics.** A failing statistics query keeps the fields that earlier
  queries already filled. Only `connected` and `error` change. The remaining
  fields are not reset to their defaults.
- **Edge ids.** They are not unique. The undirected relationship pattern
  matches each relationship once per orientation, and the code does not
  deduplicate. `GraphScenarios.RelationshipSeenTwice` shows this.
- **depth.** `get_node_neighbors` ignores `depth` and always expands one hop.
- **Chat history length.** The trim runs before the new pair is appended. So
  after five successful rounds the history holds 8 messages. The expectation
  of 6 in backend/tests/test_chat.py:164 does not hold for this code.
  `ChatMemory.FiveRoundsKeepEight` shows this.

## Model

| member | source | states |
|---|---|---|
| KnowledgeGraph.CollectNodes | backend/app/services/knowledge_graph_service.py:42-56 | the node loop yields exactly the nodes of the records whose id is not None, in order, and `node_ids` lists their ids position by position |
| KnowledgeGraph.NodesInRecordOrder | backend/app/services/knowledge_graph_service.py:45-56 | a record contributes one node iff its id is not None, and nodes keep record order |
| KnowledgeGraph.NodesComeFromRecords | backend/app/services/knowledge_graph_service.py:211-222 | a node is in the payload iff some record with a non-None id normalises to it (labels not a list become `[]`, properties not a dict become `{}`) |
| KnowledgeGraph.EdgesInRecordOrder | backend/app/services/knowledge_graph_service.py:71-83 | a relationship record yields an edge iff `from_node` and `to_node` are truthy and `rel_id` is not None; its fields are copied unchanged, with `type` defaulting to `""`; edges keep record order |
| KnowledgeGraph.BatchesPartition | backend/app/services/knowledge_graph_service.py:60-63 | K ids give ceil(K/100) batches; batch k is the slice [100k, min(100k+100, K)) and holds 1 to 100 ids; the batches concatenated give back the ids in order |
| KnowledgeGraph.BatchOfPosition | backend/app/services/knowledge_graph_service.py:225-228 | with distinct ids, the id at position i is in batch k exactly when i / 100 == k |
| KnowledgeGraph.InBatchAt | backend/app/services/knowledge_graph_service.py:228 | a value in batch k is the id at some position m with m / 100 == k |
| KnowledgeGraph.SucceededBatchesRan | backend/app/services/knowledge_graph_service.py:62-70 | when the resolution succeeds, the query of every batch succeeded |
| KnowledgeGraph.FailureIsFinal | backend/app/services/knowledge_graph_service.py:91-93 | once a relationship query raises, later batches cannot change the outcome: the call fails with that error |
| KnowledgeGraph.CollectEdges | backend/app/services/knowledge_graph_service.py:71-83 | the record loop of one batch yields exactly the edges of its records, in record order |
| KnowledgeGraph.ResolveEdges | backend/app/services/knowledge_graph_service.py:59-83 | the batched loop returns exactly the edges of every batch's records in order, or the first error; it issues a prefix of the per-batch queries, all of them on success; every query before the last one issued succeeded, and on failure the last one is the one that raised, so nothing runs after the first failure |
| KnowledgeGraph.AssembleSnapshot | backend/app/services/knowledge_graph_service.py:35-93 | the node query runs first; the payload is the normalised nodes plus the batched edges; a raised error propagates; no relationship query runs when no node has an id; every query before the last one issued succeeded, and on failure the last one raised the error returned |
| KnowledgeGraph.SearchAllNodes | backend/app/services/knowledge_graph_service.py:16-93 | `search_all_nodes` is the snapshot of the keyword query; it issues the keyword query first, then a prefix of the batch queries (all of them on success); every query before the last succeeded, and on failure the last one raised the error returned |
| KnowledgeGraph.GetGraphData | backend/app/services/knowledge_graph_service.py:186-258 | `get_graph_data` is the snapshot of the full scan; it issues the scan first, then a prefix of the batch queries (all of them on success); every query before the last succeeded, and on failure the last one raised the error returned |
| KnowledgeGraph.QueryCount | backend/app/services/knowledge_graph_service.py:225-235 | a successful node query is followed by exactly ceil(K/100) relationship queries, one per slice of 1 to 100 of the K ids; none when K = 0 |
| KnowledgeGraph.GetNodeNeighbors | backend/app/services/knowledge_graph_service.py:96-183 | exactly one one-hop query whatever `depth` is; the payload is the deduplicated neighbours and the neighbour edges of its records, or the error it raised |
| KnowledgeGraph.FirstPositions | backend/app/services/knowledge_graph_service.py:130-140 | the positions of the records that are the first with their truthy id all lie inside the records |
| KnowledgeGraph.FirstPositionsSpec | backend/app/services/knowledge_graph_service.py:135 | those positions ascend, and a position is listed iff its record is the first with its truthy id |
| KnowledgeGraph.NeighborsAreFirstOccurrences | backend/app/services/knowledge_graph_service.py:127-140 | the neighbour list is the normalised first record of each truthy id, in record order; its ids are exactly the truthy record ids |
| KnowledgeGraph.NeighborIdsAreRecordIds | backend/app/services/knowledge_graph_service.py:130-140 | the neighbour ids are exactly the truthy record ids |
| KnowledgeGraph.CollectNeighbors | backend/app/services/knowledge_graph_service.py:127-173 | the record loop leaves the dict holding each first-seen truthy id's normalised node, keys in insertion order, and the edge list equal to the neighbour edges of the records |
| KnowledgeGraph.NeighborIdsUnique | backend/app/services/knowledge_graph_service.py:135-136 | no two neighbour nodes share an id |
| KnowledgeGraph.NeighborEdgesFromRecords | backend/app/services/knowledge_graph_service.py:143-173 | every neighbour edge comes from one record with a non-None `rel_id` and truthy endpoints; its source is an extracted truthy id or the queried `node_id` |
| KnowledgeGraph.NeighborEdgeKept | backend/app/services/knowledge_graph_service.py:143-173 | conversely, every record that gives an edge has that edge among the neighbour edges |
| KnowledgeGraph.NeighborEdgeCases | backend/app/services/knowledge_graph_service.py:143-173 | a neighbour record gives an edge iff `rel_id` is not None and both endpoint values are truthy; the edge has the record's `rel_id` and `rel_type` (default `""`); it runs between the extracted endpoint ids when both are truthy, and from `node_id` to the record's `id` otherwise |
| KnowledgeGraph.NeighborEdgesInRecordOrder | backend/app/services/knowledge_graph_service.py:143-173 | neighbour edges keep record order: each record's edge, if any, sits between those of the records before and after it |
| KnowledgeGraph.GetGraphStatistics | backend/app/services/knowledge_graph_service.py:268-300 | the four queries run in order until one raises; `error` is set iff one raised and then holds its message; `connected` holds iff none raised and the node count returned rows; each field is the first row's value for the queries that ran and its default otherwise |
| GraphEngine.KeywordHits | backend/app/services/knowledge_graph_service.py:28-33 | a node is a keyword hit iff it is stored and its title contains the keyword, case-folded; there are no more hits than nodes |
| GraphEngine.KeywordHitsAppend | backend/app/services/knowledge_graph_service.py:28-33 | the hits keep store order: the hits of two runs of nodes are the first run's hits followed by the second's |
| GraphEngine.FindNode | backend/app/services/knowledge_graph_service.py:110-119 | a found node is stored under that element id; none is found only when no stored node has it |
| GraphScenarios.RelRecordsInsideBatch | backend/app/services/knowledge_graph_service.py:64-67 | every row of the relationship query has both ends inside the queried batch |
| GraphScenarios.RelRecordsBothOrientations | backend/app/services/knowledge_graph_service.py:65 | a relationship with both ends in the batch is returned in both orientations |
| GraphScenarios.BatchEdgesIncluded | backend/app/services/knowledge_graph_service.py:62-83 | when resolution succeeds, every batch's query succeeded and all of its edges are in the result |
| GraphScenarios.EdgesStayInsideOneBatch | backend/app/services/knowledge_graph_service.py:66 | every resolved edge has both endpoints inside one single batch |
| GraphScenarios.ScanIds | backend/app/services/knowledge_graph_service.py:197-222 | the full scan's ids are the element ids of the first `limit` stored nodes, in order |
| GraphScenarios.ScanSnapshot | backend/app/services/knowledge_graph_service.py:205-235 | a successful scan has a non-negative limit and resolved its edges from the batches of the scanned ids |
| GraphScenarios.ScanIdsDistinct | backend/app/services/knowledge_graph_service.py:216-217 | distinct element ids give distinct scanned ids |
| GraphScenarios.NoEdgeAcrossBatches | backend/app/services/knowledge_graph_service.py:225-248 | with distinct ids, no edge joins two ids whose positions lie in different batches |
| GraphScenarios.CrossBatchEdgeIsLost | backend/app/services/knowledge_graph_service.py:225-248 | in a full scan, nodes whose positions fall in different batches of 100 are never joined by a returned edge, whatever relationships the graph holds |
| GraphScenarios.OrientedEdge | backend/app/services/knowledge_graph_service.py:236-248 | a relationship row with non-empty ends becomes the edge with that relationship's id and type |
| GraphScenarios.OrientationResolved | backend/app/services/knowledge_graph_service.py:235-248 | each orientation a batch's query returns is among the resolved edges |
| GraphScenarios.RelationshipSeenTwice | backend/app/services/knowledge_graph_service.py:64-83 | a relationship between two distinct nodes of one batch appears twice, once per orientation, both with its id, so edge ids repeat |
| GraphScenarios.KeywordSearchHits | backend/app/services/knowledge_graph_service.py:28-56 | keyword search returns at most `limit` nodes, each a stored node whose title contains the keyword; they are the first `limit` hits in store order, with their element ids |
| GraphScenarios.RowsComeFromRels | backend/app/services/knowledge_graph_service.py:109-120 | every neighbour row comes from a relationship touching the node, and carries its id, its type and the property dicts of both ends |
| GraphScenarios.NoTouchNoRows | backend/app/services/knowledge_graph_service.py:110-111 | no relationship touching the node means no neighbour row |
| GraphScenarios.UnknownNodeHasNoNeighbors | backend/app/services/knowledge_graph_service.py:122-179 | an id that no relationship touches yields an empty payload, not an error |
| GraphScenarios.EndpointsFallBackToQueriedNode | backend/app/services/knowledge_graph_service.py:152-166 | when no stored node has a truthy `identity` or `id` property, every neighbour edge runs from the queried node to the other end of a touching relationship whose id it carries |
| GraphScenarios.PropertylessEndpointDropsEdge | backend/app/services/knowledge_graph_service.py:148-152 | with distinct relationship ids, a relationship whose start or end node has no properties gives no neighbour edge, because that endpoint arrives as `{}` |
| GraphScenarios.StatisticsReport | backend/app/services/knowledge_graph_service.py:268-300 | against a reachable graph, `get_graph_statistics` issues all four queries and reports the node and relationship counts and the distinct labels and types, connected and without error |
| GraphScenarios.StatisticsOfGraph | backend/app/services/knowledge_graph_service.py:278-293 | against a reachable graph, each statistics query returns one row; the counts are the numbers of nodes and relationships, and the labels and types are the distinct ones in use |
| ChatMemory.Trim | backend/app/services/chat_service.py:122-130 | the kept history is the last min(n, 6) messages of the history, in order |
| ChatMemory.BlankAnswer | backend/app/services/chat_service.py:95 | the service's test `not s or s.strip() == ""` holds exactly for strings made only of whitespace |
| ChatMemory.ChatService.constructor | backend/app/services/chat_service.py:52-56 | the service starts with no sessions |
| ChatMemory.ChatService.GetHistory | backend/app/services/chat_service.py:58-62 | an empty history is created only for an absent session; the stored one is returned otherwise; no other session changes |
| ChatMemory.ChatService.LimitHistory | backend/app/services/chat_service.py:115-130 | the session's history becomes its trim: unchanged up to 6 messages, else its last 6 in order; no other session changes |
| ChatMemory.ChatService.Chat | backend/app/services/chat_service.py:64-113 | the session is created if needed and trimmed, then extended by question and answer only on success; the reply is the non-blank answer, or else the apology followed by the model's error or, for a blank answer, by "AI响应为空"; it carries the caller's session id |
| ChatMemory.ChatService.PrepareHistory | backend/app/services/chat_service.py:76-80 | the turn starts with the session's history created if absent and then trimmed; no other session changes |
| ChatMemory.ChatService.AddTurn | backend/app/services/chat_service.py:99-100 | the question then the answer are appended to the session's history |
| ChatMemory.ChatService.ClearHistory | backend/app/services/chat_service.py:132-143 | `None` means `"default"`; that session is removed if present; nothing else changes |
| ChatMemory.TrimIdempotent | backend/app/services/chat_service.py:125-130 | limiting a limited history changes nothing |
| ChatMemory.TrimKeepsLatest | backend/app/services/chat_service.py:125-130 | a history of at most 6 messages is kept whole; a longer one keeps exactly its last 6, position by position |
| ChatMemory.TurnBound | backend/app/services/chat_service.py:80-100 | after any turn the history holds at most 6 + 2 messages |
| ChatMemory.TurnAppendsOnSuccess | backend/app/services/chat_service.py:94-100 | a failed or blank answer leaves only the trimmed history; a good one appends exactly the question and the answer |
| ChatMemory.MemoryIsLatestTranscript | backend/app/services/chat_service.py:77-100 | from no history, the memory after any turns is the latest part of the conversation's successful questions and answers, never more than 8 messages |
| ChatMemory.SuccessfulTurnsLength | backend/app/services/chat_service.py:80-100 | n successful turns leave min(2n, window + 2) messages |
| ChatMemory.FiveRoundsKeepEight | backend/tests/test_chat.py:150-164 | five successful rounds leave 8 messages, not the 6 the test expects |
| LoggerHelper.HeaderIndex | backend/app/core/logger_helper.py:67-69 | the index found is the first header with that name, or the end of the list |
| LoggerHelper.HeaderGet | backend/app/core/logger_helper.py:67-69 | a header value is found iff some header has the lower-cased name, and it is the value of the first such header |
| LoggerHelper.FirstSegment | backend/app/core/logger_helper.py:75-76 | the result holds no comma, and a value without a comma is kept as it is |
| LoggerHelper.FirstHop | backend/app/core/logger_helper.py:75-76 | a non-empty string becomes its first segment; anything else is unchanged; a string result holds no comma |
| LoggerHelper.ClientIp | backend/app/core/logger_helper.py:61-76 | no request gives no address; an address never holds a comma |
| LoggerHelper.UserAgentName | backend/app/core/logger_helper.py:79 | `User-Agent` is looked up under the stored name `user-agent` |
| LoggerHelper.UserAgent | backend/app/core/logger_helper.py:62-79 | no request gives no user agent; otherwise it is the `User-Agent` header as stored in the request |
| LoggerHelper.IpPrecedence | backend/app/core/logger_helper.py:66-76 | the address comes from the first present, non-empty header among X-Forwarded-For, X-Real-IP and CF-Connecting-IP, otherwise from the peer's host, otherwise none; an empty header falls through |
| LoggerHelper.BeforeFirstOfJoin | backend/app/core/logger_helper.py:76 | the part before the first comma of `a + "," + rest` is `a` when `a` has no comma |
| LoggerHelper.FirstSegmentOfChain | backend/app/core/logger_helper.py:74-76 | a forwarded chain `client, proxy1, ...` yields the client, stripped |
| LoggerHelper.FirstSegmentIdempotent | backend/app/core/logger_helper.py:75-76 | reducing an extracted address again changes nothing |
| LoggerHelper.HeaderKeyCaseInsensitive | backend/app/core/logger_helper.py:67-69 | header lookup ignores the case of the name asked for |
| LoggerHelper.LogStore.constructor | backend/app/services/operation_log_service.py:38-79 | a store starts empty, with the given fault for its inserts |
| LoggerHelper.LogStore.CreateLog | backend/app/services/operation_log_service.py:66-79 | the row is stored unless the commit fails; an error is raised iff the commit or the refresh after it fails, so a failed refresh leaves the row stored and still raises |
| LoggerHelper.LogOperation | backend/app/core/logger_helper.py:60-97 | the entry carries the arguments plus the extracted address and user agent; it is stored unless the commit fails; an error from the store never leaves the call |
| PyText.StripLeft | backend/app/core/logger_helper.py:76 | `lstrip` removes exactly the leading whitespace |
| PyText.StripRight | backend/app/core/logger_helper.py:76 | `rstrip` removes exactly the trailing whitespace |
| PyText.Strip | backend/app/services/chat_service.py:95 | the stripped text has no whitespace at either end, draws its characters from the input, and is empty iff the input is all whitespace |
| PyText.StripIsTrimmedSlice | backend/app/core/logger_helper.py:76 | the stripped text is a slice `s[a..b]` of the input with only whitespace before `a` and from `b` on |
| PyText.BeforeFirst | backend/app/core/logger_helper.py:76 | `split(sep)[0]` is a prefix without `sep`, and `sep` follows it when it is shorter than the input |
| PyText.Lower | backend/app/services/knowledge_graph_service.py:30 | lower-casing keeps the length, leaves no capital A-Z, changes exactly the capitals, and turns each into its own small letter |
| PyText.LowerFoldsCase | backend/app/services/knowledge_graph_service.py:30 | two strings that differ only in the case of letters A-Z lower-case to the same string, so the keyword match ignores case |
| PyText.LowerIdempotent | backend/app/services/knowledge_graph_service.py:30 | lower-casing twice is lower-casing once |

## Left out

- The language model (`ChatOpenAI`, the prompt template and `ainvoke`) is not modelled. What it returned for a turn is the `Reply` parameter of `Chat`.
- Async scheduling, logging calls, and the driver session are not modelled. An error the engine raises is a `Failure` returned by the `Engine` function.
- The configuration, the HTTP endpoints, the user, auth and operation-log services other than `create_log`, and the setup scripts are not part of this model.
- ChatMemory.ChatService.Chat: `InMemoryChatMessageHistory` objects are not modelled. A session's history is a value in the `histories` map, so the aliasing of a history object held by a caller is not captured.
- ChatMemory.ChatService.Chat: `session_id` has no default here. The caller always passes one.
- `hasattr(response, "content")` / `str(response)` are not modelled. An answer is its text.
- PyText.Lower: only A-Z are lower-cased. Python's and Cypher's `lower()` cover all of Unicode.
- GraphEngine.KeywordHits: `toString(n.title)` of a non-string title is not modelled. A node's title is its `title` property when that is a string; any other title never matches.
- Graph element ids are strings. The engine's id format is not modelled. Ids are hashable: a list or dict id, for which `neighbor_id not in nodes` would raise `TypeError`, is compared as a value instead.
- LoggerHelper.HeaderGet: the server keeps header names lower-cased and compares them with the lower-cased key. Latin-1 decoding of header bytes is not modelled.
- LoggerHelper.LogStore.CreateLog: a failed commit's effect on the database session, such as the rollback it needs, is not modelled. The store just keeps its rows. Which step fails is fixed for the store's lifetime rather than chosen per insert.
- LoggerHelper.LogOperation: the `db` session argument is the `LogStore`. The `status = 1` and `remark = None` defaults are left to the caller.
- GraphEngine.Run: a negative `LIMIT` is the only engine error modelled for the reference engine. Connection failures are modelled only through an arbitrary `Engine`.
