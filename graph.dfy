/**
 * GET /api/graph: the approved entities as nodes, each with the number of
 * approved relationship endpoints that name it, and the approved
 * relationships as edges.
 */
module Graph {
  import opened Wrappers
  import opened Domain
  import opened Store
  import opened Rows

  /** Endpoint hits of `id` in `rels`, accumulated in list order as the route's loop does. */
  function Degree(rels: seq<Relationship>, id: Id): (n: nat)
    ensures n <= 2 * |rels|
  {
    if rels == [] then 0
    else
      var last := rels[|rels| - 1];
      Degree(rels[..|rels| - 1], id)
        + (if last.sourceEntityId == id then 1 else 0)
        + (if last.targetEntityId == id then 1 else 0)
  }

  /** `connectionCounts[id] || 0`. */
  function CountOf(counts: map<Id, nat>, id: Id): nat {
    if id in counts then counts[id] else 0
  }

  function IsSource(id: Id): Relationship -> bool {
    (r: Relationship) => r.sourceEntityId == id
  }

  function IsTarget(id: Id): Relationship -> bool {
    (r: Relationship) => r.targetEntityId == id
  }

  function EdgeOf(r: Relationship): (e: GraphEdge)
    ensures e.source == r.sourceEntityId && e.target == r.targetEntityId
    ensures e.relType == r.relType && e.description == r.description
  {
    GraphEdge(r.sourceEntityId, r.targetEntityId, r.relType, r.description)
  }

  /** The per-entity endpoint tally over the relationship list. */
  method ConnectionCounts(rels: seq<Relationship>) returns (counts: map<Id, nat>)
    ensures forall id :: CountOf(counts, id) == Degree(rels, id)
  {
    counts := map[];
    for i := 0 to |rels|
      invariant forall id :: CountOf(counts, id) == Degree(rels[..i], id)
    {
      assert rels[..i + 1][..i] == rels[..i];
      var r := rels[i];
      counts := counts[r.sourceEntityId := CountOf(counts, r.sourceEntityId) + 1];
      counts := counts[r.targetEntityId := CountOf(counts, r.targetEntityId) + 1];
    }
    assert rels[..|rels|] == rels;
  }

  /** The nodes and edges built from an entity list and a relationship list. */
  method Build(ents: seq<Entity>, rels: seq<Relationship>) returns (nodes: seq<GraphNode>, edges: seq<GraphEdge>)
    requires forall i, j :: 0 <= i < j < |ents| ==> ents[i].id != ents[j].id
    ensures |nodes| == |ents|
    ensures forall i :: 0 <= i < |nodes| ==>
      nodes[i] == GraphNode(ents[i].id, ents[i].name, ents[i].entityType, Degree(rels, ents[i].id))
    ensures |edges| == |rels| && forall i :: 0 <= i < |edges| ==> edges[i] == EdgeOf(rels[i])
    ensures SumCounts(nodes) <= 2 * |edges|
  {
    var counts := ConnectionCounts(rels);
    nodes := seq(|ents|, i requires 0 <= i < |ents| =>
      GraphNode(ents[i].id, ents[i].name, ents[i].entityType, CountOf(counts, ents[i].id)));
    edges := seq(|rels|, i requires 0 <= i < |rels| => EdgeOf(rels[i]));
    DistinctNodes(nodes, ents);
    SumCountsBound(nodes, rels);
  }

  /** The handler: approved entities (by name) and approved relationships. */
  method Get(kb: KnowledgeBase) returns (nodes: seq<GraphNode>, edges: seq<GraphEdge>)
    requires kb.Valid()
    ensures var ents := kb.GetAllEntities(Some(Approved));
      && |nodes| == |ents|
      && forall i :: 0 <= i < |nodes| ==>
           nodes[i] == GraphNode(ents[i].id, ents[i].name, ents[i].entityType,
                                 Degree(kb.GetAllRelationships(Some(Approved)), ents[i].id))
    ensures var rels := kb.GetAllRelationships(Some(Approved));
      |edges| == |rels| && forall i :: 0 <= i < |edges| ==> edges[i] == EdgeOf(rels[i])
    ensures SumCounts(nodes) <= 2 * |edges|
    ensures forall i, j :: 0 <= i < j < |nodes| ==> nodes[i].id != nodes[j].id
    ensures forall k :: k in kb.entities && kb.entities[k].status == Approved ==>
      exists i :: 0 <= i < |nodes| && nodes[i].id == k
    ensures forall k :: k in kb.relationships && kb.relationships[k].status == Approved ==>
      exists i :: 0 <= i < |edges| && edges[i] == EdgeOf(kb.relationships[k])
  {
    var ents := kb.GetAllEntities(Some(Approved));
    var rels := kb.GetAllRelationships(Some(Approved));
    nodes, edges := Build(ents, rels);
    forall k | k in kb.entities && kb.entities[k].status == Approved
      ensures exists i :: 0 <= i < |nodes| && nodes[i].id == k
    {
      assert kb.entities[k] in ents;
      var i :| 0 <= i < |ents| && ents[i] == kb.entities[k];
      assert nodes[i].id == k;
    }
    forall k | k in kb.relationships && kb.relationships[k].status == Approved
      ensures exists i :: 0 <= i < |edges| && edges[i] == EdgeOf(kb.relationships[k])
    {
      assert kb.relationships[k] in rels;
      var i :| 0 <= i < |rels| && rels[i] == kb.relationships[k];
      assert edges[i] == EdgeOf(rels[i]);
    }
  }

  /** The tally agrees with counting sources and targets separately: a self-loop counts twice. */
  lemma {:induction false} DegreeCounts(rels: seq<Relationship>, id: Id)
    ensures Degree(rels, id) == Count(rels, IsSource(id)) + Count(rels, IsTarget(id))
  {
    if rels != [] {
      DegreeCounts(rels[..|rels| - 1], id);
    }
  }

  /** An entity gets 0 exactly when no relationship names it at either end. */
  lemma {:induction false} DegreeZero(rels: seq<Relationship>, id: Id)
    ensures Degree(rels, id) == 0 <==>
      forall i :: 0 <= i < |rels| ==> rels[i].sourceEntityId != id && rels[i].targetEntityId != id
  {
    if rels != [] {
      var init := rels[..|rels| - 1];
      DegreeZero(init, id);
      assert forall i :: 0 <= i < |init| ==> init[i] == rels[i];
    }
  }

  /** Sum of the nodes' connection counts. */
  function SumCounts(nodes: seq<GraphNode>): nat {
    if nodes == [] then 0 else SumCounts(nodes[..|nodes| - 1]) + nodes[|nodes| - 1].connectionCount
  }

  /** Sum over the nodes of their degree in `rels`. */
  function TotalDegree(rels: seq<Relationship>, nodes: seq<GraphNode>): nat {
    if nodes == [] then 0
    else TotalDegree(rels, nodes[..|nodes| - 1]) + Degree(rels, nodes[|nodes| - 1].id)
  }

  /** How many nodes carry id `v`. */
  function Hits(nodes: seq<GraphNode>, v: Id): nat {
    if nodes == [] then 0
    else Hits(nodes[..|nodes| - 1], v) + (if nodes[|nodes| - 1].id == v then 1 else 0)
  }

  ghost predicate DistinctIds(nodes: seq<GraphNode>) {
    forall i, j :: 0 <= i < j < |nodes| ==> nodes[i].id != nodes[j].id
  }

  lemma DistinctNodes(nodes: seq<GraphNode>, ents: seq<Entity>)
    requires |nodes| == |ents|
    requires forall i :: 0 <= i < |nodes| ==> nodes[i].id == ents[i].id
    requires forall i, j :: 0 <= i < j < |ents| ==> ents[i].id != ents[j].id
    ensures DistinctIds(nodes)
  {
  }

  /** With distinct ids, no id is carried by more than one node. */
  lemma {:induction false} HitsAtMostOne(nodes: seq<GraphNode>, v: Id)
    requires DistinctIds(nodes)
    ensures Hits(nodes, v) <= 1
  {
    if nodes != [] {
      var init := nodes[..|nodes| - 1];
      HitsAtMostOne(init, v);
      if nodes[|nodes| - 1].id == v {
        HitsNone(init, v);
      }
    }
  }

  lemma {:induction false} HitsNone(nodes: seq<GraphNode>, v: Id)
    requires forall i :: 0 <= i < |nodes| ==> nodes[i].id != v
    ensures Hits(nodes, v) == 0
  {
    if nodes != [] {
      HitsNone(nodes[..|nodes| - 1], v);
    }
  }

  /** One more relationship adds one to the total for each endpoint a node carries. */
  lemma {:induction false} TotalDegreeSnoc(rels: seq<Relationship>, r: Relationship, nodes: seq<GraphNode>)
    ensures TotalDegree(rels + [r], nodes) ==
      TotalDegree(rels, nodes) + Hits(nodes, r.sourceEntityId) + Hits(nodes, r.targetEntityId)
  {
    assert (rels + [r])[..|rels|] == rels;
    if nodes != [] {
      TotalDegreeSnoc(rels, r, nodes[..|nodes| - 1]);
    }
  }

  /** Over nodes with distinct ids, the degrees add up to at most two per relationship. */
  lemma {:induction false} TotalDegreeBound(rels: seq<Relationship>, nodes: seq<GraphNode>)
    requires DistinctIds(nodes)
    ensures TotalDegree(rels, nodes) <= 2 * |rels|
  {
    if rels == [] {
      TotalDegreeEmpty(nodes);
    } else {
      var init := rels[..|rels| - 1];
      var r := rels[|rels| - 1];
      assert rels == init + [r];
      TotalDegreeBound(init, nodes);
      TotalDegreeSnoc(init, r, nodes);
      HitsAtMostOne(nodes, r.sourceEntityId);
      HitsAtMostOne(nodes, r.targetEntityId);
    }
  }

  lemma {:induction false} TotalDegreeEmpty(nodes: seq<GraphNode>)
    ensures TotalDegree([], nodes) == 0
  {
    if nodes != [] {
      TotalDegreeEmpty(nodes[..|nodes| - 1]);
    }
  }

  /**
   * When each node carries its degree, the counts add up to at most twice
   * the number of relationships (edges are not filtered to node endpoints,
   * so the bound need not be reached).
   */
  lemma {:induction false} SumCountsBound(nodes: seq<GraphNode>, rels: seq<Relationship>)
    requires DistinctIds(nodes)
    requires forall i :: 0 <= i < |nodes| ==> nodes[i].connectionCount == Degree(rels, nodes[i].id)
    ensures SumCounts(nodes) <= 2 * |rels|
  {
    SumCountsTotal(nodes, rels);
    TotalDegreeBound(rels, nodes);
  }

  lemma {:induction false} SumCountsTotal(nodes: seq<GraphNode>, rels: seq<Relationship>)
    requires forall i :: 0 <= i < |nodes| ==> nodes[i].connectionCount == Degree(rels, nodes[i].id)
    ensures SumCounts(nodes) == TotalDegree(rels, nodes)
  {
    if nodes != [] {
      SumCountsTotal(nodes[..|nodes| - 1], rels);
    }
  }
}
