/**
 * Processing one ingestion queue item: claim the oldest queued item, create
 * a session, chunk the text, ask the extraction port about each chunk and
 * turn the name-based answers into id-based store rows.
 *
 * The extraction port is a function parameter (chunk text and known names to
 * a result, or None when the call throws).  The name-to-id map is rebuilt for
 * every chunk, so relationships, timeline events and contradictions resolve
 * only against entities created from the same chunk.
 */
module Processor {
  import opened Wrappers
  import opened Domain
  import opened Store
  import Chunker
  import Rows
  import Json

  // --- Rows created for one chunk ---

  /** The rows `mk(xs[i], base + i)`, keyed by their ids `base + i`. */
  function RowsFrom<X, R>(xs: seq<X>, base: Id, mk: (X, Id) -> R): map<Id, R>
  {
    if xs == [] then map[]
    else RowsFrom(xs[..|xs| - 1], base, mk)[base + |xs| - 1 := mk(xs[|xs| - 1], base + |xs| - 1)]
  }

  lemma {:induction false} RowsFromKeys<X, R>(xs: seq<X>, base: Id, mk: (X, Id) -> R)
    ensures forall k :: k in RowsFrom(xs, base, mk) <==> base <= k < base + |xs|
    ensures forall k :: base <= k < base + |xs| ==> RowsFrom(xs, base, mk)[k] == mk(xs[k - base], k)
  {
    if xs != [] {
      var init := xs[..|xs| - 1];
      RowsFromKeys(init, base, mk);
    }
  }

  /** The row stored under one key: which element it was made from. */
  lemma RowsFromAt<X, R>(xs: seq<X>, base: Id, mk: (X, Id) -> R, k: Id)
    requires k in RowsFrom(xs, base, mk)
    ensures base <= k < base + |xs| && RowsFrom(xs, base, mk)[k] == mk(xs[k - base], k)
  {
    RowsFromKeys(xs, base, mk);
  }

  lemma RowsFromSnoc<X, R>(xs: seq<X>, x: X, base: Id, mk: (X, Id) -> R)
    ensures RowsFrom(xs + [x], base, mk) == RowsFrom(xs, base, mk)[base + |xs| := mk(x, base + |xs|)]
  {
    assert (xs + [x])[..|xs|] == xs;
  }

  lemma UnionUpdate<K, V>(a: map<K, V>, b: map<K, V>, k: K, v: V)
    ensures a + b[k := v] == (a + b)[k := v]
  {
  }

  /** Writing the row for one more item extends the union of a table with the rows made so far. */
  lemma AppendRow<X, R>(m: map<Id, R>, xs: seq<X>, x: X, base: Id, mk: (X, Id) -> R, v: R)
    requires v == mk(x, base + |xs|)
    ensures (m + RowsFrom(xs, base, mk))[base + |xs| := v] == m + RowsFrom(xs + [x], base, mk)
  {
    RowsFromSnoc(xs, x, base, mk);
    UnionUpdate(m, RowsFrom(xs, base, mk), base + |xs|, v);
  }

  function EntityRow(x: ExtractedEntity, id: Id, sessionId: Id): Entity
  {
    Entity(id, x.name, x.entityType, x.description, KnowledgeBase.PropertiesOr(x.properties), Proposed,
           Some(sessionId), id, id)
  }

  function EntityMaker(sessionId: Id): (ExtractedEntity, Id) -> Entity
  {
    (x: ExtractedEntity, id: Id) => EntityRow(x, id, sessionId)
  }

  /** A relationship whose two names resolved: source id, target id, extracted record. */
  type ResolvedRel = (Id, Id, ExtractedRelationship)

  function RelationshipMaker(sessionId: Id): (ResolvedRel, Id) -> Relationship
  {
    (r: ResolvedRel, id: Id) =>
      Relationship(id, r.0, r.1, r.2.relType, Some(r.2.description), r.2.confidence,
                   Proposed, Some(sessionId), id)
  }

  /** Timeline events get no session number. */
  function EventMaker(): ((Id, ExtractedTimelineEvent), Id) -> TimelineEvent
  {
    (e: (Id, ExtractedTimelineEvent), id: Id) =>
      TimelineEvent(id, e.0, e.1.dateDescription, e.1.sortOrder, None)
  }

  /** Contradictions record the new session only; the old session stays null. */
  function ContradictionMaker(sessionId: Id): ((Id, ExtractedContradiction), Id) -> Contradiction
  {
    (c: (Id, ExtractedContradiction), id: Id) =>
      Contradiction(id, c.0, c.1.field, c.1.oldValue, c.1.newValue, None, Some(sessionId), None, None, id)
  }

  // --- Names ---

  /**
   * The chunk's name-to-id map after its entities were created with ids
   * `base`, `base + 1`, ...: each name maps to the id created for it, a
   * later entity with the same name overwriting an earlier one.
   */
  function NameToId(ents: seq<ExtractedEntity>, base: Id): map<string, Id>
  {
    if ents == [] then map[]
    else NameToId(ents[..|ents| - 1], base)[ents[|ents| - 1].name := base + |ents| - 1]
  }

  /** A name maps to the id of the LAST entity of the chunk carrying it. */
  lemma {:induction false} NameToIdLastWins(ents: seq<ExtractedEntity>, base: Id)
    ensures forall n :: n in NameToId(ents, base) ==>
      var i := NameToId(ents, base)[n] - base;
      0 <= i < |ents| && ents[i].name == n && forall j :: i < j < |ents| ==> ents[j].name != n
  {
    if ents != [] {
      var init := ents[..|ents| - 1];
      var last := |ents| - 1;
      NameToIdLastWins(init, base);
      var m := NameToId(ents, base);
      forall n | n in m
        ensures var i := m[n] - base;
          0 <= i < |ents| && ents[i].name == n && forall j :: i < j < |ents| ==> ents[j].name != n
      {
        if n != ents[last].name {
          var i := NameToId(init, base)[n] - base;
          assert m[n] == NameToId(init, base)[n];
          assert ents[i] == init[i];
          forall j | i < j < |ents|
            ensures ents[j].name != n
          {
            if j < last {
              assert ents[j] == init[j];
            }
          }
        }
      }
    }
  }

  /** Every name of the chunk is in its map. */
  lemma {:induction false} NameToIdCovers(ents: seq<ExtractedEntity>, base: Id)
    ensures forall i :: 0 <= i < |ents| ==> ents[i].name in NameToId(ents, base)
  {
    if ents != [] {
      var init := ents[..|ents| - 1];
      NameToIdCovers(init, base);
      forall i | 0 <= i < |init|
        ensures ents[i].name in NameToId(ents, base)
      {
        assert init[i] == ents[i];
      }
    }
  }

  /**
   * The known-names list after a chunk: each extracted name appended, in
   * order, unless already present.
   */
  function AddNames(known: seq<string>, ents: seq<ExtractedEntity>): (r: seq<string>)
    ensures |known| <= |r| && r[..|known|] == known
  {
    if ents == [] then known
    else
      var k := AddNames(known, ents[..|ents| - 1]);
      var n := ents[|ents| - 1].name;
      if n in k then k else k + [n]
  }

  /** The list only grows, gains every extracted name, and gains each name at most once. */
  lemma {:induction false} AddNamesFacts(known: seq<string>, ents: seq<ExtractedEntity>)
    ensures forall i :: 0 <= i < |ents| ==> ents[i].name in AddNames(known, ents)
    ensures forall n :: n in AddNames(known, ents) ==> n in known || exists i :: 0 <= i < |ents| && ents[i].name == n
    ensures forall i, j :: |known| <= i < j < |AddNames(known, ents)| ==>
      AddNames(known, ents)[i] != AddNames(known, ents)[j]
    ensures forall i :: |known| <= i < |AddNames(known, ents)| ==> AddNames(known, ents)[i] !in known
  {
    if ents != [] {
      var init := ents[..|ents| - 1];
      AddNamesFacts(known, init);
      forall i | 0 <= i < |init|
        ensures ents[i].name in AddNames(known, ents)
      {
        assert init[i] == ents[i];
      }
      var k := AddNames(known, init);
      var n := ents[|ents| - 1].name;
      var r := AddNames(known, ents);
      if n !in k {
        assert r == k + [n];
        assert k[..|known|] == known;
        forall i | |known| <= i < |k|
          ensures r[i] != n
        {
          assert r[i] == k[i];
        }
        forall i, j | |known| <= i < j < |r|
          ensures r[i] != r[j]
        {
          if j < |k| {
            assert r[i] == k[i] && r[j] == k[j];
          }
        }
      }
      forall n | n in AddNames(known, ents) && n !in known
        ensures exists i :: 0 <= i < |ents| && ents[i].name == n
      {
        if n in AddNames(known, init) {
          var i :| 0 <= i < |init| && init[i].name == n;
          assert ents[i].name == n;
        } else {
          assert ents[|ents| - 1].name == n;
        }
      }
    }
  }

  // --- Resolution against the chunk's map ---

  /** The relationships whose two names both resolve, with their ids, in order. */
  function ResolvedRelationships(rels: seq<ExtractedRelationship>, m: map<string, Id>): seq<ResolvedRel>
  {
    if rels == [] then []
    else
      var r := rels[|rels| - 1];
      ResolvedRelationships(rels[..|rels| - 1], m)
      + (if r.sourceEntityName in m && r.targetEntityName in m
         then [(m[r.sourceEntityName], m[r.targetEntityName], r)] else [])
  }

  /** Handling one more relationship appends its resolved form, or nothing when a name is unknown. */
  lemma ResolvedRelationshipsPrefix(rels: seq<ExtractedRelationship>, j: nat, m: map<string, Id>)
    requires j < |rels|
    ensures var r := rels[j];
      if r.sourceEntityName in m && r.targetEntityName in m
      then ResolvedRelationships(rels[..j + 1], m)
        == ResolvedRelationships(rels[..j], m) + [(m[r.sourceEntityName], m[r.targetEntityName], r)]
      else ResolvedRelationships(rels[..j + 1], m) == ResolvedRelationships(rels[..j], m)
  {
    assert rels[..j + 1][..j] == rels[..j];
  }

  /** Exactly the relationships with both names in the map are kept, with the mapped ids. */
  lemma {:induction false} ResolvedRelationshipsFacts(rels: seq<ExtractedRelationship>, m: map<string, Id>)
    ensures forall x :: x in ResolvedRelationships(rels, m) ==>
      x.2 in rels && x.2.sourceEntityName in m && x.2.targetEntityName in m
      && x.0 == m[x.2.sourceEntityName] && x.1 == m[x.2.targetEntityName]
    ensures forall i :: 0 <= i < |rels| && rels[i].sourceEntityName in m && rels[i].targetEntityName in m ==>
      (m[rels[i].sourceEntityName], m[rels[i].targetEntityName], rels[i]) in ResolvedRelationships(rels, m)
  {
    if rels != [] {
      var init := rels[..|rels| - 1];
      ResolvedRelationshipsFacts(init, m);
      forall i | 0 <= i < |init|
        ensures init[i] == rels[i]
      {
      }
    }
  }

  /** The timeline events whose entity name resolves, paired with its id. */
  function ResolvedEvents(evs: seq<ExtractedTimelineEvent>, m: map<string, Id>): seq<(Id, ExtractedTimelineEvent)>
  {
    if evs == [] then []
    else
      var e := evs[|evs| - 1];
      ResolvedEvents(evs[..|evs| - 1], m) + (if e.entityName in m then [(m[e.entityName], e)] else [])
  }

  /** Handling one more event appends its resolved form, or nothing when its name is unknown. */
  lemma ResolvedEventsPrefix(evs: seq<ExtractedTimelineEvent>, j: nat, m: map<string, Id>)
    requires j < |evs|
    ensures if evs[j].entityName in m
      then ResolvedEvents(evs[..j + 1], m) == ResolvedEvents(evs[..j], m) + [(m[evs[j].entityName], evs[j])]
      else ResolvedEvents(evs[..j + 1], m) == ResolvedEvents(evs[..j], m)
  {
    assert evs[..j + 1][..j] == evs[..j];
  }

  lemma {:induction false} ResolvedEventsFacts(evs: seq<ExtractedTimelineEvent>, m: map<string, Id>)
    ensures forall x :: x in ResolvedEvents(evs, m) ==> x.1 in evs && x.1.entityName in m && x.0 == m[x.1.entityName]
    ensures forall i :: 0 <= i < |evs| && evs[i].entityName in m ==> (m[evs[i].entityName], evs[i]) in ResolvedEvents(evs, m)
  {
    if evs != [] {
      var init := evs[..|evs| - 1];
      ResolvedEventsFacts(init, m);
      forall i | 0 <= i < |init|
        ensures init[i] == evs[i]
      {
      }
    }
  }

  /** The contradictions whose entity name resolves, paired with its id. */
  function ResolvedContradictions(cs: seq<ExtractedContradiction>, m: map<string, Id>): seq<(Id, ExtractedContradiction)>
  {
    if cs == [] then []
    else
      var c := cs[|cs| - 1];
      ResolvedContradictions(cs[..|cs| - 1], m) + (if c.entityName in m then [(m[c.entityName], c)] else [])
  }

  /** Handling one more contradiction appends its resolved form, or nothing when its name is unknown. */
  lemma ResolvedContradictionsPrefix(cs: seq<ExtractedContradiction>, j: nat, m: map<string, Id>)
    requires j < |cs|
    ensures if cs[j].entityName in m
      then ResolvedContradictions(cs[..j + 1], m) == ResolvedContradictions(cs[..j], m) + [(m[cs[j].entityName], cs[j])]
      else ResolvedContradictions(cs[..j + 1], m) == ResolvedContradictions(cs[..j], m)
  {
    assert cs[..j + 1][..j] == cs[..j];
  }

  lemma {:induction false} ResolvedContradictionsFacts(cs: seq<ExtractedContradiction>, m: map<string, Id>)
    ensures forall x :: x in ResolvedContradictions(cs, m) ==> x.1 in cs && x.1.entityName in m && x.0 == m[x.1.entityName]
    ensures forall i :: 0 <= i < |cs| && cs[i].entityName in m ==> (m[cs[i].entityName], cs[i]) in ResolvedContradictions(cs, m)
  {
    if cs != [] {
      var init := cs[..|cs| - 1];
      ResolvedContradictionsFacts(init, m);
      forall i | 0 <= i < |init|
        ensures init[i] == cs[i]
      {
      }
    }
  }

  // --- One chunk ---

  /**
   * The tables after one chunk's result was reconciled, starting from
   * `before` with the counter at `base`: every extracted entity added as a
   * new row, then every relationship, timeline event and contradiction whose
   * names resolve in the chunk's own name map, each with the next id.
   */
  function ChunkRows(before: Tables, base: Id, result: ExtractionResult, sessionId: Id): (Tables, Id)
  {
    var m := NameToId(result.entities, base);
    var p1 := WithEntities(before, base, result.entities, sessionId);
    var p2 := WithRelationships(p1.0, p1.1, ResolvedRelationships(result.relationships, m), sessionId);
    var p3 := WithEvents(p2.0, p2.1, ResolvedEvents(result.timelineEvents, m));
    WithContradictions(p3.0, p3.1, ResolvedContradictions(result.contradictions, m), sessionId)
  }

  /** The entity rows of a chunk, added with ids from `c` on. */
  function WithEntities(t: Tables, c: Id, ents: seq<ExtractedEntity>, sessionId: Id): (Tables, Id)
  {
    (t.(entities := t.entities + RowsFrom(ents, c, EntityMaker(sessionId))), c + |ents|)
  }

  function WithRelationships(t: Tables, c: Id, rels: seq<ResolvedRel>, sessionId: Id): (Tables, Id)
  {
    (t.(relationships := t.relationships + RowsFrom(rels, c, RelationshipMaker(sessionId))), c + |rels|)
  }

  function WithEvents(t: Tables, c: Id, evs: seq<(Id, ExtractedTimelineEvent)>): (Tables, Id)
  {
    (t.(timelineEvents := t.timelineEvents + RowsFrom(evs, c, EventMaker())), c + |evs|)
  }

  function WithContradictions(t: Tables, c: Id, cons: seq<(Id, ExtractedContradiction)>, sessionId: Id): (Tables, Id)
  {
    (t.(contradictions := t.contradictions + RowsFrom(cons, c, ContradictionMaker(sessionId))), c + |cons|)
  }


  // Each step lemma adds one more created row to the rows already added to
  // `before`; they keep the store's frame out of the table arithmetic.

  lemma EntityStep(before: Tables, mid: Tables, after: Tables, done: seq<ExtractedEntity>,
                   x: ExtractedEntity, base: Id, sessionId: Id, e: Entity)
    requires mid == before.(entities := before.entities + RowsFrom(done, base, EntityMaker(sessionId)))
    requires e == EntityRow(x, base + |done|, sessionId)
    requires after == mid.(entities := mid.entities[base + |done| := e])
    ensures after == before.(entities := before.entities + RowsFrom(done + [x], base, EntityMaker(sessionId)))
  {
    AppendRow(before.entities, done, x, base, EntityMaker(sessionId), e);
  }

  lemma RelationshipStep(before: Tables, mid: Tables, after: Tables, done: seq<ResolvedRel>,
                         x: ResolvedRel, base: Id, sessionId: Id, r: Relationship)
    requires mid == before.(relationships := before.relationships
      + RowsFrom(done, base, RelationshipMaker(sessionId)))
    requires r == RelationshipMaker(sessionId)(x, base + |done|)
    requires after == mid.(relationships := mid.relationships[base + |done| := r])
    ensures after == before.(relationships := before.relationships
      + RowsFrom(done + [x], base, RelationshipMaker(sessionId)))
  {
    AppendRow(before.relationships, done, x, base, RelationshipMaker(sessionId), r);
  }

  lemma EventStep(before: Tables, mid: Tables, after: Tables, done: seq<(Id, ExtractedTimelineEvent)>,
                  x: (Id, ExtractedTimelineEvent), base: Id, t: TimelineEvent)
    requires mid == before.(timelineEvents := before.timelineEvents + RowsFrom(done, base, EventMaker()))
    requires t == EventMaker()(x, base + |done|)
    requires after == mid.(timelineEvents := mid.timelineEvents[base + |done| := t])
    ensures after == before.(timelineEvents := before.timelineEvents + RowsFrom(done + [x], base, EventMaker()))
  {
    AppendRow(before.timelineEvents, done, x, base, EventMaker(), t);
  }

  lemma ContradictionStep(before: Tables, mid: Tables, after: Tables, done: seq<(Id, ExtractedContradiction)>,
                          x: (Id, ExtractedContradiction), base: Id, sessionId: Id, c: Contradiction)
    requires mid == before.(contradictions := before.contradictions
      + RowsFrom(done, base, ContradictionMaker(sessionId)))
    requires c == ContradictionMaker(sessionId)(x, base + |done|)
    requires after == mid.(contradictions := mid.contradictions[base + |done| := c])
    ensures after == before.(contradictions := before.contradictions
      + RowsFrom(done + [x], base, ContradictionMaker(sessionId)))
  {
    AppendRow(before.contradictions, done, x, base, ContradictionMaker(sessionId), c);
  }

  /** Extending the prefix of created entities by one extends the name map and the known list by it. */
  lemma EntityPrefixStep(known: seq<string>, ents: seq<ExtractedEntity>, i: nat, base: Id)
    requires i < |ents|
    ensures ents[..i + 1] == ents[..i] + [ents[i]]
    ensures NameToId(ents[..i + 1], base) == NameToId(ents[..i], base)[ents[i].name := base + i]
    ensures AddNames(known, ents[..i + 1]) ==
      if ents[i].name in AddNames(known, ents[..i]) then AddNames(known, ents[..i])
      else AddNames(known, ents[..i]) + [ents[i].name]
  {
    assert ents[..i + 1][..i] == ents[..i];
  }

  /** One extracted entity written as a proposed row of the session, with the next id. */
  method CreateOne(kb: KnowledgeBase, x: ExtractedEntity, sessionId: Id,
                   ghost before: Tables, ghost done: seq<ExtractedEntity>, ghost base: Id)
    returns (e: Entity)
    requires kb.Valid() && kb.clock == base + |done|
    requires kb.State() == before.(entities := before.entities
      + RowsFrom(done, base, EntityMaker(sessionId)))
    modifies kb
    ensures kb.Valid() && kb.clock == old(kb.clock) + 1 && e.id == base + |done|
    ensures kb.State() == before.(entities := before.entities
      + RowsFrom(done + [x], base, EntityMaker(sessionId)))
  {
    ghost var mid := kb.State();
    e := kb.CreateEntity(x.name, x.entityType, x.description, x.properties,
                         Some(Proposed), Some(sessionId));
    EntityStep(before, mid, kb.State(), done, x, base, sessionId, e);
  }

  /** The entity loop: a new proposed row per extracted entity, filling the name map and known list. */
  method CreateEntities(kb: KnowledgeBase, ents: seq<ExtractedEntity>, sessionId: Id, known: seq<string>)
    returns (nameToId: map<string, Id>, grown: seq<string>)
    requires kb.Valid()
    modifies kb
    ensures kb.Valid()
    ensures nameToId == NameToId(ents, old(kb.clock))
    ensures grown == AddNames(known, ents)
    ensures (kb.State(), kb.clock) == WithEntities(old(kb.State()), old(kb.clock), ents, sessionId)
  {
    ghost var base := kb.clock;
    ghost var before := kb.State();
    nameToId := map[];
    grown := known;
    for i := 0 to |ents|
      invariant kb.Valid()
      invariant kb.clock == base + i
      invariant nameToId == NameToId(ents[..i], base)
      invariant grown == AddNames(known, ents[..i])
      invariant kb.State() == before.(entities := before.entities + RowsFrom(ents[..i], base, EntityMaker(sessionId)))
    {
      nameToId, grown := EntityIteration(kb, ents, i, sessionId, known, before, base, nameToId, grown);
    }
    assert ents[..|ents|] == ents;
  }

  /** One turn of the entity loop: the row, the name map entry and the known list grow by the i-th entity. */
  method EntityIteration(kb: KnowledgeBase, ents: seq<ExtractedEntity>, i: nat, sessionId: Id, known: seq<string>,
                         ghost before: Tables, ghost base: Id, nameToId: map<string, Id>, grown: seq<string>)
    returns (nameToId': map<string, Id>, grown': seq<string>)
    requires i < |ents| && kb.Valid() && kb.clock == base + i
    requires nameToId == NameToId(ents[..i], base) && grown == AddNames(known, ents[..i])
    requires kb.State() == before.(entities := before.entities
      + RowsFrom(ents[..i], base, EntityMaker(sessionId)))
    modifies kb
    ensures kb.Valid() && kb.clock == base + i + 1
    ensures nameToId' == NameToId(ents[..i + 1], base) && grown' == AddNames(known, ents[..i + 1])
    ensures kb.State() == before.(entities := before.entities
      + RowsFrom(ents[..i + 1], base, EntityMaker(sessionId)))
  {
    var x := ents[i];
    EntityPrefixStep(known, ents, i, base);
    var e := CreateOne(kb, x, sessionId, before, ents[..i], base);
    nameToId' := nameToId[x.name := e.id];
    grown' := if x.name in grown then grown else grown + [x.name];
  }

  /** The relationship loop: a row for each relationship whose two names resolve. */
  method CreateRelationships(kb: KnowledgeBase, rels: seq<ExtractedRelationship>, nameToId: map<string, Id>,
                             sessionId: Id)
    requires kb.Valid()
    modifies kb
    ensures kb.Valid()
    ensures (kb.State(), kb.clock)
      == WithRelationships(old(kb.State()), old(kb.clock), ResolvedRelationships(rels, nameToId), sessionId)
  {
    ghost var base := kb.clock;
    ghost var before := kb.State();
    for j := 0 to |rels|
      invariant kb.Valid()
      invariant kb.clock == base + |ResolvedRelationships(rels[..j], nameToId)|
      invariant kb.State() == before.(relationships := before.relationships
        + RowsFrom(ResolvedRelationships(rels[..j], nameToId), base, RelationshipMaker(sessionId)))
    {
      RelationshipIteration(kb, rels, j, nameToId, sessionId, before, base);
    }
    assert rels[..|rels|] == rels;
    ghost var all := ResolvedRelationships(rels, nameToId);
    assert kb.State()
      == before.(relationships := before.relationships + RowsFrom(all, base, RelationshipMaker(sessionId)));
  }

  /** One turn of the relationship loop: the j-th item, when it resolves, becomes the next row. */
  method RelationshipIteration(kb: KnowledgeBase, rels: seq<ExtractedRelationship>, j: nat,
                               nameToId: map<string, Id>, sessionId: Id, ghost before: Tables, ghost base: Id)
    requires j < |rels| && kb.Valid() && kb.clock == base + |ResolvedRelationships(rels[..j], nameToId)|
    requires kb.State() == before.(relationships := before.relationships
      + RowsFrom(ResolvedRelationships(rels[..j], nameToId), base, RelationshipMaker(sessionId)))
    modifies kb
    ensures kb.Valid() && kb.clock == base + |ResolvedRelationships(rels[..j + 1], nameToId)|
    ensures kb.State() == before.(relationships := before.relationships
      + RowsFrom(ResolvedRelationships(rels[..j + 1], nameToId), base, RelationshipMaker(sessionId)))
  {
    var r := rels[j];
    ResolvedRelationshipsPrefix(rels, j, nameToId);
    ghost var done := ResolvedRelationships(rels[..j], nameToId);
    if r.sourceEntityName in nameToId && r.targetEntityName in nameToId {
      var sourceId := nameToId[r.sourceEntityName];
      var targetId := nameToId[r.targetEntityName];
      ghost var mid := kb.State();
      var created := kb.CreateRelationship(sourceId, targetId, r.relType, Some(r.description),
                                           Some(r.confidence), Some(Proposed), Some(sessionId));
      RelationshipStep(before, mid, kb.State(), done, (sourceId, targetId, r), base, sessionId, created);
    }
  }

  /** The timeline loop: a row for each event whose entity name resolves, with no session number. */
  method CreateEvents(kb: KnowledgeBase, evs: seq<ExtractedTimelineEvent>, nameToId: map<string, Id>)
    requires kb.Valid()
    modifies kb
    ensures kb.Valid()
    ensures (kb.State(), kb.clock) == WithEvents(old(kb.State()), old(kb.clock), ResolvedEvents(evs, nameToId))
  {
    ghost var base := kb.clock;
    ghost var before := kb.State();
    for j := 0 to |evs|
      invariant kb.Valid()
      invariant kb.clock == base + |ResolvedEvents(evs[..j], nameToId)|
      invariant kb.State() == before.(timelineEvents := before.timelineEvents
        + RowsFrom(ResolvedEvents(evs[..j], nameToId), base, EventMaker()))
    {
      EventIteration(kb, evs, j, nameToId, before, base);
    }
    assert evs[..|evs|] == evs;
  }

  /** One turn of the timeline loop: the j-th item, when it resolves, becomes the next row. */
  method EventIteration(kb: KnowledgeBase, evs: seq<ExtractedTimelineEvent>, j: nat,
                        nameToId: map<string, Id>, ghost before: Tables, ghost base: Id)
    requires j < |evs| && kb.Valid() && kb.clock == base + |ResolvedEvents(evs[..j], nameToId)|
    requires kb.State() == before.(timelineEvents := before.timelineEvents
      + RowsFrom(ResolvedEvents(evs[..j], nameToId), base, EventMaker()))
    modifies kb
    ensures kb.Valid() && kb.clock == base + |ResolvedEvents(evs[..j + 1], nameToId)|
    ensures kb.State() == before.(timelineEvents := before.timelineEvents
      + RowsFrom(ResolvedEvents(evs[..j + 1], nameToId), base, EventMaker()))
  {
    var ev := evs[j];
    ResolvedEventsPrefix(evs, j, nameToId);
    ghost var done := ResolvedEvents(evs[..j], nameToId);
    if ev.entityName in nameToId {
      var entityId := nameToId[ev.entityName];
      ghost var mid := kb.State();
      var created := kb.CreateTimelineEvent(entityId, ev.dateDescription, ev.sortOrder, None);
      EventStep(before, mid, kb.State(), done, (entityId, ev), base, created);
    }
  }

  /** The contradiction loop: a row for each contradiction whose entity name resolves. */
  method CreateContradictions(kb: KnowledgeBase, cs: seq<ExtractedContradiction>, nameToId: map<string, Id>,
                              sessionId: Id)
    requires kb.Valid()
    modifies kb
    ensures kb.Valid()
    ensures (kb.State(), kb.clock)
      == WithContradictions(old(kb.State()), old(kb.clock), ResolvedContradictions(cs, nameToId), sessionId)
  {
    ghost var base := kb.clock;
    ghost var before := kb.State();
    for j := 0 to |cs|
      invariant kb.Valid()
      invariant kb.clock == base + |ResolvedContradictions(cs[..j], nameToId)|
      invariant kb.State() == before.(contradictions := before.contradictions
        + RowsFrom(ResolvedContradictions(cs[..j], nameToId), base, ContradictionMaker(sessionId)))
    {
      ContradictionIteration(kb, cs, j, nameToId, sessionId, before, base);
    }
    assert cs[..|cs|] == cs;
  }

  /** One turn of the contradiction loop: the j-th item, when it resolves, becomes the next row. */
  method ContradictionIteration(kb: KnowledgeBase, cs: seq<ExtractedContradiction>, j: nat,
                                nameToId: map<string, Id>, sessionId: Id, ghost before: Tables, ghost base: Id)
    requires j < |cs| && kb.Valid() && kb.clock == base + |ResolvedContradictions(cs[..j], nameToId)|
    requires kb.State() == before.(contradictions := before.contradictions
      + RowsFrom(ResolvedContradictions(cs[..j], nameToId), base, ContradictionMaker(sessionId)))
    modifies kb
    ensures kb.Valid() && kb.clock == base + |ResolvedContradictions(cs[..j + 1], nameToId)|
    ensures kb.State() == before.(contradictions := before.contradictions
      + RowsFrom(ResolvedContradictions(cs[..j + 1], nameToId), base, ContradictionMaker(sessionId)))
  {
    var c := cs[j];
    ResolvedContradictionsPrefix(cs, j, nameToId);
    ghost var done := ResolvedContradictions(cs[..j], nameToId);
    if c.entityName in nameToId {
      var entityId := nameToId[c.entityName];
      ghost var mid := kb.State();
      var created := kb.CreateContradiction(entityId, c.field, c.oldValue, c.newValue, None, Some(sessionId));
      ContradictionStep(before, mid, kb.State(), done, (entityId, c), base, sessionId, created);
    }
  }


  /**
   * Reconciles one chunk's extraction result into the store and returns the
   * grown known-names list.
   */
  method ReconcileChunk(kb: KnowledgeBase, result: ExtractionResult, sessionId: Id, known: seq<string>)
    returns (grown: seq<string>)
    requires kb.Valid()
    modifies kb
    ensures kb.Valid()
    ensures grown == AddNames(known, result.entities)
    ensures (kb.State(), kb.clock) == ChunkRows(old(kb.State()), old(kb.clock), result, sessionId)
  {
    var nameToId;
    nameToId, grown := CreateEntities(kb, result.entities, sessionId, known);
    CreateRelationships(kb, result.relationships, nameToId, sessionId);
    CreateEvents(kb, result.timelineEvents, nameToId);
    CreateContradictions(kb, result.contradictions, nameToId, sessionId);
  }

  // --- Shape of the rows a session adds ---

  /** Every row of the four tables a chunk writes sits under a key below `c`. */
  ghost predicate Below(t: Tables, c: Id)
  {
    && (forall k :: k in t.entities ==> k < c)
    && (forall k :: k in t.relationships ==> k < c)
    && (forall k :: k in t.timelineEvents ==> k < c)
    && (forall k :: k in t.contradictions ==> k < c)
  }

  /** `u` only adds rows to `t`'s entities, relationships, events and contradictions. */
  ghost predicate Extends(t: Tables, u: Tables)
  {
    && u.sessions == t.sessions && u.tags == t.tags && u.queue == t.queue
    && (forall k :: k in t.entities ==> k in u.entities && u.entities[k] == t.entities[k])
    && (forall k :: k in t.relationships ==> k in u.relationships && u.relationships[k] == t.relationships[k])
    && (forall k :: k in t.timelineEvents ==> k in u.timelineEvents && u.timelineEvents[k] == t.timelineEvents[k])
    && (forall k :: k in t.contradictions ==> k in u.contradictions && u.contradictions[k] == t.contradictions[k])
  }

  /** An entity row that `u` has and `t` has not. */
  ghost predicate NewEntity(t: Tables, u: Tables, id: Id)
  {
    id in u.entities && id !in t.entities
  }

  /**
   * Every row `u` adds to `t` belongs to session `sessionId`: entities and
   * relationships are proposed and name the session, contradictions name it
   * as their new source only, events carry no session number, and every
   * reference points at an entity added alongside.
   */
  ghost predicate SessionRows(t: Tables, u: Tables, sessionId: Id)
  {
    && NewEntitiesOwned(t, u, sessionId)
    && NewRelationshipsOwned(t, u, sessionId)
    && NewEventsOwned(t, u)
    && NewContradictionsOwned(t, u, sessionId)
  }

  ghost predicate NewEntitiesOwned(t: Tables, u: Tables, sessionId: Id)
  {
    forall k :: k in u.entities && k !in t.entities ==>
      u.entities[k].status == Proposed && u.entities[k].sourceSessionId == Some(sessionId)
  }

  ghost predicate NewRelationshipsOwned(t: Tables, u: Tables, sessionId: Id)
  {
    forall k :: k in u.relationships && k !in t.relationships ==>
      && u.relationships[k].status == Proposed
      && u.relationships[k].sourceSessionId == Some(sessionId)
      && NewEntity(t, u, u.relationships[k].sourceEntityId)
      && NewEntity(t, u, u.relationships[k].targetEntityId)
  }

  ghost predicate NewEventsOwned(t: Tables, u: Tables)
  {
    forall k :: k in u.timelineEvents && k !in t.timelineEvents ==>
      u.timelineEvents[k].sessionNumber.None? && NewEntity(t, u, u.timelineEvents[k].entityId)
  }

  ghost predicate NewContradictionsOwned(t: Tables, u: Tables, sessionId: Id)
  {
    forall k :: k in u.contradictions && k !in t.contradictions ==>
      && u.contradictions[k].oldSourceSessionId.None?
      && u.contradictions[k].newSourceSessionId == Some(sessionId)
      && u.contradictions[k].resolution.None? && u.contradictions[k].notes.None?
      && NewEntity(t, u, u.contradictions[k].entityId)
  }

  /** Ids in a chunk's name map are ids of that chunk's entities. */
  lemma NameToIdRange(ents: seq<ExtractedEntity>, base: Id)
    ensures forall n :: n in NameToId(ents, base) ==> base <= NameToId(ents, base)[n] < base + |ents|
  {
    NameToIdLastWins(ents, base);
  }

  /** One chunk only adds rows, all belonging to the session, under fresh keys. */
  lemma ChunkRowsShape(t: Tables, base: Id, result: ExtractionResult, sessionId: Id)
    requires Below(t, base)
    ensures base <= ChunkRows(t, base, result, sessionId).1
    ensures Below(ChunkRows(t, base, result, sessionId).0, ChunkRows(t, base, result, sessionId).1)
    ensures Extends(t, ChunkRows(t, base, result, sessionId).0)
    ensures SessionRows(t, ChunkRows(t, base, result, sessionId).0, sessionId)
  {
    ChunkRowsGrow(t, base, result, sessionId);
    ChunkEntitiesOwned(t, base, result, sessionId);
    ChunkRelationshipsOwned(t, base, result, sessionId);
    ChunkEventsOwned(t, base, result, sessionId);
    ChunkContradictionsOwned(t, base, result, sessionId);
  }

  lemma ChunkRowsGrow(t: Tables, base: Id, result: ExtractionResult, sessionId: Id)
    requires Below(t, base)
    ensures base <= ChunkRows(t, base, result, sessionId).1
    ensures Below(ChunkRows(t, base, result, sessionId).0, ChunkRows(t, base, result, sessionId).1)
    ensures Extends(t, ChunkRows(t, base, result, sessionId).0)
  {
    var m := NameToId(result.entities, base);
    var p1 := WithEntities(t, base, result.entities, sessionId);
    var p2 := WithRelationships(p1.0, p1.1, ResolvedRelationships(result.relationships, m), sessionId);
    var p3 := WithEvents(p2.0, p2.1, ResolvedEvents(result.timelineEvents, m));
    var p4 := WithContradictions(p3.0, p3.1, ResolvedContradictions(result.contradictions, m), sessionId);
    EntitiesStage(t, base, result.entities, sessionId);
    RelationshipsStage(p1.0, p1.1, ResolvedRelationships(result.relationships, m), sessionId);
    EventsStage(p2.0, p2.1, ResolvedEvents(result.timelineEvents, m));
    ContradictionsStage(p3.0, p3.1, ResolvedContradictions(result.contradictions, m), sessionId);
    assert ChunkRows(t, base, result, sessionId) == p4;
    ExtendsChain(t, p1.0, p2.0);
    ExtendsChain(t, p2.0, p3.0);
    ExtendsChain(t, p3.0, p4.0);
  }

  lemma EntitiesStage(t: Tables, c: Id, ents: seq<ExtractedEntity>, sessionId: Id)
    requires Below(t, c)
    ensures var p := WithEntities(t, c, ents, sessionId); c <= p.1 && Below(p.0, p.1) && Extends(t, p.0)
  {
    RowsAdded(t.entities, c, ents, EntityMaker(sessionId));
  }

  lemma RelationshipsStage(t: Tables, c: Id, rels: seq<ResolvedRel>, sessionId: Id)
    requires Below(t, c)
    ensures var p := WithRelationships(t, c, rels, sessionId); c <= p.1 && Below(p.0, p.1) && Extends(t, p.0)
  {
    RowsAdded(t.relationships, c, rels, RelationshipMaker(sessionId));
  }

  lemma EventsStage(t: Tables, c: Id, evs: seq<(Id, ExtractedTimelineEvent)>)
    requires Below(t, c)
    ensures var p := WithEvents(t, c, evs); c <= p.1 && Below(p.0, p.1) && Extends(t, p.0)
  {
    RowsAdded(t.timelineEvents, c, evs, EventMaker());
  }

  lemma ContradictionsStage(t: Tables, c: Id, cons: seq<(Id, ExtractedContradiction)>, sessionId: Id)
    requires Below(t, c)
    ensures var p := WithContradictions(t, c, cons, sessionId); c <= p.1 && Below(p.0, p.1) && Extends(t, p.0)
  {
    RowsAdded(t.contradictions, c, cons, ContradictionMaker(sessionId));
  }

  /** Rows added under keys from `c` on leave the rows below `c` alone. */
  lemma RowsAdded<X, R>(table: map<Id, R>, c: Id, xs: seq<X>, mk: (X, Id) -> R)
    requires forall k :: k in table ==> k < c
    ensures forall k :: k in table + RowsFrom(xs, c, mk) ==> k < c + |xs|
    ensures forall k :: k in table ==> k in table + RowsFrom(xs, c, mk) && (table + RowsFrom(xs, c, mk))[k] == table[k]
  {
    RowsFromKeys(xs, c, mk);
  }

  lemma ExtendsChain(t: Tables, u: Tables, v: Tables)
    requires Extends(t, u) && Extends(u, v)
    ensures Extends(t, v)
  {
  }

  lemma ChunkEntitiesOwned(t: Tables, base: Id, result: ExtractionResult, sessionId: Id)
    ensures NewEntitiesOwned(t, ChunkRows(t, base, result, sessionId).0, sessionId)
  {
    RowsFromKeys(result.entities, base, EntityMaker(sessionId));
  }

  lemma ChunkRelationshipsOwned(t: Tables, base: Id, result: ExtractionResult, sessionId: Id)
    requires Below(t, base)
    ensures NewRelationshipsOwned(t, ChunkRows(t, base, result, sessionId).0, sessionId)
  {
    ChunkRowsEntities(t, base, result, sessionId);
    ChunkRowsRelationships(t, base, result, sessionId);
    var u := ChunkRows(t, base, result, sessionId).0;
    forall k | k in u.relationships && k !in t.relationships
      ensures && u.relationships[k].status == Proposed
              && u.relationships[k].sourceSessionId == Some(sessionId)
              && NewEntity(t, u, u.relationships[k].sourceEntityId)
              && NewEntity(t, u, u.relationships[k].targetEntityId)
    {
      RelationshipRowOwned(t, u, result, base, sessionId, k);
    }
  }

  lemma RelationshipRowOwned(t: Tables, u: Tables, result: ExtractionResult, base: Id, sessionId: Id, k: Id)
    requires Below(t, base)
    requires u.entities == t.entities + RowsFrom(result.entities, base, EntityMaker(sessionId))
    requires u.relationships == t.relationships
      + RowsFrom(ResolvedRelationships(result.relationships, NameToId(result.entities, base)),
                 base + |result.entities|, RelationshipMaker(sessionId))
    requires k in u.relationships && k !in t.relationships
    ensures && u.relationships[k].status == Proposed
            && u.relationships[k].sourceSessionId == Some(sessionId)
            && NewEntity(t, u, u.relationships[k].sourceEntityId)
            && NewEntity(t, u, u.relationships[k].targetEntityId)
  {
    var m := NameToId(result.entities, base);
    var rels := ResolvedRelationships(result.relationships, m);
    var b1 := base + |result.entities|;
    var rows := RowsFrom(rels, b1, RelationshipMaker(sessionId));
    assert k in rows;
    RowsFromAt(rels, b1, RelationshipMaker(sessionId), k);
    var y := rels[k - b1];
    assert u.relationships[k] == rows[k];
    ResolvedRelationshipMember(result.relationships, m, y);
    NameIdIsNew(t, u, result.entities, base, sessionId, y.2.sourceEntityName);
    NameIdIsNew(t, u, result.entities, base, sessionId, y.2.targetEntityName);
  }

  lemma ChunkEventsOwned(t: Tables, base: Id, result: ExtractionResult, sessionId: Id)
    requires Below(t, base)
    ensures NewEventsOwned(t, ChunkRows(t, base, result, sessionId).0)
  {
    ChunkRowsEntities(t, base, result, sessionId);
    ChunkRowsEvents(t, base, result, sessionId);
    var u := ChunkRows(t, base, result, sessionId).0;
    forall k | k in u.timelineEvents && k !in t.timelineEvents
      ensures u.timelineEvents[k].sessionNumber.None? && NewEntity(t, u, u.timelineEvents[k].entityId)
    {
      EventRowOwned(t, u, result, base, sessionId, k);
    }
  }

  lemma EventRowOwned(t: Tables, u: Tables, result: ExtractionResult, base: Id, sessionId: Id, k: Id)
    requires Below(t, base)
    requires u.entities == t.entities + RowsFrom(result.entities, base, EntityMaker(sessionId))
    requires var m := NameToId(result.entities, base);
      var b2 := base + |result.entities| + |ResolvedRelationships(result.relationships, m)|;
      u.timelineEvents == t.timelineEvents + RowsFrom(ResolvedEvents(result.timelineEvents, m), b2, EventMaker())
    requires k in u.timelineEvents && k !in t.timelineEvents
    ensures u.timelineEvents[k].sessionNumber.None? && NewEntity(t, u, u.timelineEvents[k].entityId)
  {
    var m := NameToId(result.entities, base);
    var evs := ResolvedEvents(result.timelineEvents, m);
    var b2 := base + |result.entities| + |ResolvedRelationships(result.relationships, m)|;
    var rows := RowsFrom(evs, b2, EventMaker());
    assert k in rows;
    RowsFromAt(evs, b2, EventMaker(), k);
    var y := evs[k - b2];
    assert u.timelineEvents[k] == rows[k];
    ResolvedEventMember(result.timelineEvents, m, y);
    NameIdIsNew(t, u, result.entities, base, sessionId, y.1.entityName);
  }

  lemma ChunkContradictionsOwned(t: Tables, base: Id, result: ExtractionResult, sessionId: Id)
    requires Below(t, base)
    ensures NewContradictionsOwned(t, ChunkRows(t, base, result, sessionId).0, sessionId)
  {
    ChunkRowsEntities(t, base, result, sessionId);
    ChunkRowsContradictions(t, base, result, sessionId);
    var u := ChunkRows(t, base, result, sessionId).0;
    forall k | k in u.contradictions && k !in t.contradictions
      ensures && u.contradictions[k].oldSourceSessionId.None?
              && u.contradictions[k].newSourceSessionId == Some(sessionId)
              && u.contradictions[k].resolution.None? && u.contradictions[k].notes.None?
              && NewEntity(t, u, u.contradictions[k].entityId)
    {
      ContradictionRowOwned(t, u, result, base, sessionId, k);
    }
  }

  lemma ContradictionRowOwned(t: Tables, u: Tables, result: ExtractionResult, base: Id, sessionId: Id, k: Id)
    requires Below(t, base)
    requires u.entities == t.entities + RowsFrom(result.entities, base, EntityMaker(sessionId))
    requires var m := NameToId(result.entities, base);
      var b3 := base + |result.entities| + |ResolvedRelationships(result.relationships, m)|
                + |ResolvedEvents(result.timelineEvents, m)|;
      u.contradictions == t.contradictions
        + RowsFrom(ResolvedContradictions(result.contradictions, m), b3, ContradictionMaker(sessionId))
    requires k in u.contradictions && k !in t.contradictions
    ensures && u.contradictions[k].oldSourceSessionId.None?
            && u.contradictions[k].newSourceSessionId == Some(sessionId)
            && u.contradictions[k].resolution.None? && u.contradictions[k].notes.None?
            && NewEntity(t, u, u.contradictions[k].entityId)
  {
    var m := NameToId(result.entities, base);
    var cons := ResolvedContradictions(result.contradictions, m);
    var b3 := base + |result.entities| + |ResolvedRelationships(result.relationships, m)|
              + |ResolvedEvents(result.timelineEvents, m)|;
    var rows := RowsFrom(cons, b3, ContradictionMaker(sessionId));
    assert k in rows;
    RowsFromAt(cons, b3, ContradictionMaker(sessionId), k);
    var y := cons[k - b3];
    assert u.contradictions[k] == rows[k];
    ResolvedContradictionMember(result.contradictions, m, y);
    NameIdIsNew(t, u, result.entities, base, sessionId, y.1.entityName);
  }

  /** A name the chunk resolves points at one of the entities that chunk added. */
  lemma NameIdIsNew(t: Tables, u: Tables, ents: seq<ExtractedEntity>, base: Id, sessionId: Id, name: string)
    requires Below(t, base)
    requires u.entities == t.entities + RowsFrom(ents, base, EntityMaker(sessionId))
    requires name in NameToId(ents, base)
    ensures NewEntity(t, u, NameToId(ents, base)[name])
  {
    NameToIdRange(ents, base);
    RowsFromKeys(ents, base, EntityMaker(sessionId));
  }

  /** After one chunk, the entities are the ones it had plus the rows the chunk added. */
  lemma ChunkRowsEntities(t: Tables, base: Id, result: ExtractionResult, sessionId: Id)
    ensures ChunkRows(t, base, result, sessionId).0.entities
      == t.entities + RowsFrom(result.entities, base, EntityMaker(sessionId))
  {
    var m := NameToId(result.entities, base);
    var p1 := WithEntities(t, base, result.entities, sessionId);
    var p2 := WithRelationships(p1.0, p1.1, ResolvedRelationships(result.relationships, m), sessionId);
    var p3 := WithEvents(p2.0, p2.1, ResolvedEvents(result.timelineEvents, m));
    var p4 := WithContradictions(p3.0, p3.1, ResolvedContradictions(result.contradictions, m), sessionId);
    assert ChunkRows(t, base, result, sessionId).0.entities == p4.0.entities;
    assert p4.0.entities == p1.0.entities;
  }

  /** After one chunk, the relationships are the ones it had plus the rows the chunk added. */
  lemma ChunkRowsRelationships(t: Tables, base: Id, result: ExtractionResult, sessionId: Id)
    ensures ChunkRows(t, base, result, sessionId).0.relationships == t.relationships
      + RowsFrom(ResolvedRelationships(result.relationships, NameToId(result.entities, base)),
                 base + |result.entities|, RelationshipMaker(sessionId))
  {
    var m := NameToId(result.entities, base);
    var p1 := WithEntities(t, base, result.entities, sessionId);
    var p2 := WithRelationships(p1.0, p1.1, ResolvedRelationships(result.relationships, m), sessionId);
    var p3 := WithEvents(p2.0, p2.1, ResolvedEvents(result.timelineEvents, m));
    var p4 := WithContradictions(p3.0, p3.1, ResolvedContradictions(result.contradictions, m), sessionId);
    assert ChunkRows(t, base, result, sessionId).0.relationships == p4.0.relationships;
    assert p4.0.relationships == p3.0.relationships == p2.0.relationships;
    assert p1.0.relationships == t.relationships && p1.1 == base + |result.entities|;
  }

  /** After one chunk, the timeline events are the ones it had plus the rows the chunk added. */
  lemma ChunkRowsEvents(t: Tables, base: Id, result: ExtractionResult, sessionId: Id)
    ensures var m := NameToId(result.entities, base);
      var b2 := base + |result.entities| + |ResolvedRelationships(result.relationships, m)|;
      ChunkRows(t, base, result, sessionId).0.timelineEvents == t.timelineEvents
        + RowsFrom(ResolvedEvents(result.timelineEvents, m), b2, EventMaker())
  {
    var m := NameToId(result.entities, base);
    var p1 := WithEntities(t, base, result.entities, sessionId);
    var p2 := WithRelationships(p1.0, p1.1, ResolvedRelationships(result.relationships, m), sessionId);
    var p3 := WithEvents(p2.0, p2.1, ResolvedEvents(result.timelineEvents, m));
    var p4 := WithContradictions(p3.0, p3.1, ResolvedContradictions(result.contradictions, m), sessionId);
    assert ChunkRows(t, base, result, sessionId).0.timelineEvents == p4.0.timelineEvents;
    assert p4.0.timelineEvents == p3.0.timelineEvents;
    assert p2.0.timelineEvents == t.timelineEvents;
    assert p2.1 == base + |result.entities| + |ResolvedRelationships(result.relationships, m)|;
  }

  /** After one chunk, the contradictions are the ones it had plus the rows the chunk added. */
  lemma ChunkRowsContradictions(t: Tables, base: Id, result: ExtractionResult, sessionId: Id)
    ensures var m := NameToId(result.entities, base);
      var b3 := base + |result.entities| + |ResolvedRelationships(result.relationships, m)|
                + |ResolvedEvents(result.timelineEvents, m)|;
      ChunkRows(t, base, result, sessionId).0.contradictions == t.contradictions
        + RowsFrom(ResolvedContradictions(result.contradictions, m), b3, ContradictionMaker(sessionId))
  {
    var m := NameToId(result.entities, base);
    var p1 := WithEntities(t, base, result.entities, sessionId);
    var p2 := WithRelationships(p1.0, p1.1, ResolvedRelationships(result.relationships, m), sessionId);
    var p3 := WithEvents(p2.0, p2.1, ResolvedEvents(result.timelineEvents, m));
    var p4 := WithContradictions(p3.0, p3.1, ResolvedContradictions(result.contradictions, m), sessionId);
    assert ChunkRows(t, base, result, sessionId).0.contradictions == p4.0.contradictions;
    assert p3.0.contradictions == t.contradictions;
    assert p3.1 == base + |result.entities| + |ResolvedRelationships(result.relationships, m)|
                   + |ResolvedEvents(result.timelineEvents, m)|;
  }

  /**
   * A relationship added for a chunk joins the LAST entities of that same
   * chunk carrying the extracted source and target names, and copies the
   * extracted type, description and confidence.
   */
  lemma ChunkRelationshipsResolve(t: Tables, base: Id, result: ExtractionResult, sessionId: Id)
    ensures forall k :: k in ChunkRows(t, base, result, sessionId).0.relationships && k !in t.relationships ==>
      exists x :: x in result.relationships
        && LastNamed(result.entities, base, x.sourceEntityName,
                     ChunkRows(t, base, result, sessionId).0.relationships[k].sourceEntityId)
        && LastNamed(result.entities, base, x.targetEntityName,
                     ChunkRows(t, base, result, sessionId).0.relationships[k].targetEntityId)
        && ChunkRows(t, base, result, sessionId).0.relationships[k].relType == x.relType
        && ChunkRows(t, base, result, sessionId).0.relationships[k].description == Some(x.description)
        && ChunkRows(t, base, result, sessionId).0.relationships[k].confidence == x.confidence
  {
    ChunkRowsRelationships(t, base, result, sessionId);
    var u := ChunkRows(t, base, result, sessionId).0;
    forall k | k in u.relationships && k !in t.relationships
      ensures exists x :: x in result.relationships
                && LastNamed(result.entities, base, x.sourceEntityName, u.relationships[k].sourceEntityId)
                && LastNamed(result.entities, base, x.targetEntityName, u.relationships[k].targetEntityId)
                && u.relationships[k].relType == x.relType
                && u.relationships[k].description == Some(x.description)
                && u.relationships[k].confidence == x.confidence
    {
      var x := RelationshipRowSource(t.relationships, u.relationships, result, base, sessionId, k);
    }
  }

  /** The extracted relationship a row added under key `k` was made from. */
  lemma RelationshipRowSource(table: map<Id, Relationship>, merged: map<Id, Relationship>, result: ExtractionResult,
                              base: Id, sessionId: Id, k: Id) returns (x: ExtractedRelationship)
    requires merged == table + RowsFrom(ResolvedRelationships(result.relationships, NameToId(result.entities, base)),
                                        base + |result.entities|, RelationshipMaker(sessionId))
    requires k in merged && k !in table
    ensures var row := merged[k];
      && x in result.relationships
      && LastNamed(result.entities, base, x.sourceEntityName, row.sourceEntityId)
      && LastNamed(result.entities, base, x.targetEntityName, row.targetEntityId)
      && row.relType == x.relType && row.description == Some(x.description) && row.confidence == x.confidence
  {
    var ents := result.entities;
    var m := NameToId(ents, base);
    var rels := ResolvedRelationships(result.relationships, m);
    var b1 := base + |ents|;
    var rows := RowsFrom(rels, b1, RelationshipMaker(sessionId));
    assert k in rows;
    RowsFromAt(rels, b1, RelationshipMaker(sessionId), k);
    var y := rels[k - b1];
    assert merged[k] == rows[k];
    ResolvedRelationshipMember(result.relationships, m, y);
    x := y.2;
    NameToIdLastNamed(ents, base, y.2.sourceEntityName);
    NameToIdLastNamed(ents, base, y.2.targetEntityName);
  }

  lemma ResolvedRelationshipMember(rels: seq<ExtractedRelationship>, m: map<string, Id>, y: ResolvedRel)
    requires y in ResolvedRelationships(rels, m)
    ensures y.2 in rels && y.2.sourceEntityName in m && y.2.targetEntityName in m
    ensures y.0 == m[y.2.sourceEntityName] && y.1 == m[y.2.targetEntityName]
  {
    ResolvedRelationshipsFacts(rels, m);
  }

  lemma NameToIdLastNamed(ents: seq<ExtractedEntity>, base: Id, name: string)
    requires name in NameToId(ents, base)
    ensures LastNamed(ents, base, name, NameToId(ents, base)[name])
  {
    NameToIdLastWins(ents, base);
  }

  /** `id` is the id given to the last of `ents` named `name`, ids counting from `base`. */
  ghost predicate LastNamed(ents: seq<ExtractedEntity>, base: Id, name: string, id: Id)
  {
    && base <= id < base + |ents|
    && ents[id - base].name == name
    && forall j :: id - base < j < |ents| ==> ents[j].name != name
  }

  /** Timeline events of a chunk attach to the last same-chunk entity of their name. */
  lemma ChunkEventsResolve(t: Tables, base: Id, result: ExtractionResult, sessionId: Id)
    ensures forall k :: k in ChunkRows(t, base, result, sessionId).0.timelineEvents && k !in t.timelineEvents ==>
      exists x :: x in result.timelineEvents
        && LastNamed(result.entities, base, x.entityName,
                     ChunkRows(t, base, result, sessionId).0.timelineEvents[k].entityId)
        && ChunkRows(t, base, result, sessionId).0.timelineEvents[k].dateDescription == x.dateDescription
        && ChunkRows(t, base, result, sessionId).0.timelineEvents[k].sortOrder == x.sortOrder
  {
    ChunkRowsEvents(t, base, result, sessionId);
    var u := ChunkRows(t, base, result, sessionId).0;
    forall k | k in u.timelineEvents && k !in t.timelineEvents
      ensures exists x :: x in result.timelineEvents
                && LastNamed(result.entities, base, x.entityName, u.timelineEvents[k].entityId)
                && u.timelineEvents[k].dateDescription == x.dateDescription
                && u.timelineEvents[k].sortOrder == x.sortOrder
    {
      var x := EventRowSource(t.timelineEvents, u.timelineEvents, result, base, k);
    }
  }

  /** The extracted timeline event a row added under key `k` was made from. */
  lemma EventRowSource(table: map<Id, TimelineEvent>, merged: map<Id, TimelineEvent>,
                       result: ExtractionResult, base: Id, k: Id) returns (x: ExtractedTimelineEvent)
    requires var m := NameToId(result.entities, base);
      var b2 := base + |result.entities| + |ResolvedRelationships(result.relationships, m)|;
      merged == table + RowsFrom(ResolvedEvents(result.timelineEvents, m), b2, EventMaker())
    requires k in merged && k !in table
    ensures var row := merged[k];
      && x in result.timelineEvents
      && LastNamed(result.entities, base, x.entityName, row.entityId)
      && row.dateDescription == x.dateDescription && row.sortOrder == x.sortOrder
  {
    var ents := result.entities;
    var m := NameToId(ents, base);
    var evs := ResolvedEvents(result.timelineEvents, m);
    var b2 := base + |ents| + |ResolvedRelationships(result.relationships, m)|;
    var rows := RowsFrom(evs, b2, EventMaker());
    assert k in rows;
    RowsFromAt(evs, b2, EventMaker(), k);
    var y := evs[k - b2];
    assert merged[k] == rows[k];
    ResolvedEventMember(result.timelineEvents, m, y);
    x := y.1;
    NameToIdLastNamed(ents, base, y.1.entityName);
  }

  lemma ResolvedEventMember(evs: seq<ExtractedTimelineEvent>, m: map<string, Id>, y: (Id, ExtractedTimelineEvent))
    requires y in ResolvedEvents(evs, m)
    ensures y.1 in evs && y.1.entityName in m && y.0 == m[y.1.entityName]
  {
    ResolvedEventsFacts(evs, m);
  }

  /** Contradictions of a chunk attach to the last same-chunk entity of their name. */
  lemma ChunkContradictionsResolve(t: Tables, base: Id, result: ExtractionResult, sessionId: Id)
    ensures forall k :: k in ChunkRows(t, base, result, sessionId).0.contradictions && k !in t.contradictions ==>
      exists x :: x in result.contradictions
        && LastNamed(result.entities, base, x.entityName,
                     ChunkRows(t, base, result, sessionId).0.contradictions[k].entityId)
        && ChunkRows(t, base, result, sessionId).0.contradictions[k].field == x.field
        && ChunkRows(t, base, result, sessionId).0.contradictions[k].oldValue == x.oldValue
        && ChunkRows(t, base, result, sessionId).0.contradictions[k].newValue == x.newValue
  {
    ChunkRowsContradictions(t, base, result, sessionId);
    var u := ChunkRows(t, base, result, sessionId).0;
    forall k | k in u.contradictions && k !in t.contradictions
      ensures exists x :: x in result.contradictions
                && LastNamed(result.entities, base, x.entityName, u.contradictions[k].entityId)
                && u.contradictions[k].field == x.field
                && u.contradictions[k].oldValue == x.oldValue
                && u.contradictions[k].newValue == x.newValue
    {
      var x := ContradictionRowSource(t.contradictions, u.contradictions, result, base, sessionId, k);
    }
  }

  /** The extracted contradiction a row added under key `k` was made from. */
  lemma ContradictionRowSource(table: map<Id, Contradiction>, merged: map<Id, Contradiction>,
                               result: ExtractionResult, base: Id, sessionId: Id, k: Id) returns (x: ExtractedContradiction)
    requires var m := NameToId(result.entities, base);
      var b3 := base + |result.entities| + |ResolvedRelationships(result.relationships, m)|
                + |ResolvedEvents(result.timelineEvents, m)|;
      merged == table + RowsFrom(ResolvedContradictions(result.contradictions, m), b3, ContradictionMaker(sessionId))
    requires k in merged && k !in table
    ensures var row := merged[k];
      && x in result.contradictions
      && LastNamed(result.entities, base, x.entityName, row.entityId)
      && row.field == x.field && row.oldValue == x.oldValue && row.newValue == x.newValue
  {
    var ents := result.entities;
    var m := NameToId(ents, base);
    var cons := ResolvedContradictions(result.contradictions, m);
    var b3 := base + |ents| + |ResolvedRelationships(result.relationships, m)|
              + |ResolvedEvents(result.timelineEvents, m)|;
    var rows := RowsFrom(cons, b3, ContradictionMaker(sessionId));
    assert k in rows;
    RowsFromAt(cons, b3, ContradictionMaker(sessionId), k);
    var y := cons[k - b3];
    assert merged[k] == rows[k];
    ResolvedContradictionMember(result.contradictions, m, y);
    x := y.1;
    NameToIdLastNamed(ents, base, y.1.entityName);
  }

  lemma ResolvedContradictionMember(cs: seq<ExtractedContradiction>, m: map<string, Id>, y: (Id, ExtractedContradiction))
    requires y in ResolvedContradictions(cs, m)
    ensures y.1 in cs && y.1.entityName in m && y.0 == m[y.1.entityName]
  {
    ResolvedContradictionsFacts(cs, m);
  }

  // --- The whole session ---

  /** The extraction port: chunk text and known names to a result, or None when the call throws. */
  type Extractor = (string, seq<string>) -> Option<ExtractionResult>

  /** The error extractFromChunk throws when no API key is configured. */
  const MissingKeyMessage := "Anthropic API key is required. Configure it in Settings."

  /**
   * extractFromChunk: the configured `ai` section decides. Without a truthy
   * `apiKey` every call throws before any request, whatever the engine;
   * otherwise the call goes to the API extractor.
   */
  function Dispatch(ai: Json.Members, api: Extractor): (e: Extractor)
    ensures !Json.TruthyOpt(Json.Lookup(ai, "apiKey")) ==> forall text, names :: e(text, names).None?
    ensures Json.TruthyOpt(Json.Lookup(ai, "apiKey")) ==> forall text, names :: e(text, names) == api(text, names)
  {
    if Json.TruthyOpt(Json.Lookup(ai, "apiKey")) then api
    else (text: string, names: seq<string>) => None
  }

  /** When every extraction throws, the chunk loop writes nothing and issues no id. */
  lemma {:induction false} NothingExtracted(t: Tables, c: Id, chunks: seq<Chunker.Chunk>, extract: Extractor,
                                            approved: seq<string>, sessionId: Id)
    requires forall text, names :: extract(text, names).None?
    ensures RunChunks(t, c, chunks, extract, approved, sessionId) == (t, c)
  {
    if chunks != [] {
      NothingExtracted(t, c, chunks[..|chunks| - 1], extract, approved, sessionId);
      assert extract(chunks[|chunks| - 1].text, KnownAfter(chunks[..|chunks| - 1], extract, approved)).None?;
    }
  }

  /**
   * The known-names list after the given chunks: it starts as the approved
   * names and each chunk whose extraction succeeded appends its new names.
   */
  function KnownAfter(chunks: seq<Chunker.Chunk>, extract: Extractor, approved: seq<string>): (r: seq<string>)
    ensures |approved| <= |r| && r[..|approved|] == approved
  {
    if chunks == [] then approved
    else
      var k := KnownAfter(chunks[..|chunks| - 1], extract, approved);
      match extract(chunks[|chunks| - 1].text, k)
      case None => k
      case Some(result) =>
        assert AddNames(k, result.entities)[..|k|][..|approved|] == k[..|approved|];
        AddNames(k, result.entities)
  }

  /**
   * The tables and counter after the chunks, in order: a chunk whose
   * extraction throws adds nothing; any other adds its ChunkRows, having
   * been shown the names known after the earlier chunks.
   */
  function RunChunks(t: Tables, c: Id, chunks: seq<Chunker.Chunk>, extract: Extractor,
                     approved: seq<string>, sessionId: Id): (Tables, Id)
  {
    if chunks == [] then (t, c)
    else
      var init := chunks[..|chunks| - 1];
      var prev := RunChunks(t, c, init, extract, approved, sessionId);
      match extract(chunks[|chunks| - 1].text, KnownAfter(init, extract, approved))
      case None => prev
      case Some(result) => ChunkRows(prev.0, prev.1, result, sessionId)
  }

  lemma ExtendsTransitive(t: Tables, u: Tables, v: Tables, sessionId: Id)
    requires Extends(t, u) && Extends(u, v)
    requires SessionRows(t, u, sessionId) && SessionRows(u, v, sessionId)
    ensures Extends(t, v) && SessionRows(t, v, sessionId)
  {
    ExtendsChain(t, u, v);
    NewEntitiesTransitive(t, u, v, sessionId);
    NewRelationshipsTransitive(t, u, v, sessionId);
    NewEventsTransitive(t, u, v);
    NewContradictionsTransitive(t, u, v, sessionId);
  }

  lemma NewEntitiesTransitive(t: Tables, u: Tables, v: Tables, sessionId: Id)
    requires Extends(t, u) && Extends(u, v)
    requires NewEntitiesOwned(t, u, sessionId) && NewEntitiesOwned(u, v, sessionId)
    ensures NewEntitiesOwned(t, v, sessionId)
  {
    forall k | k in v.entities && k !in t.entities
      ensures v.entities[k].status == Proposed && v.entities[k].sourceSessionId == Some(sessionId)
    {
      if k in u.entities {
        assert v.entities[k] == u.entities[k];
      }
    }
  }

  lemma NewRelationshipsTransitive(t: Tables, u: Tables, v: Tables, sessionId: Id)
    requires Extends(t, u) && Extends(u, v)
    requires NewRelationshipsOwned(t, u, sessionId) && NewRelationshipsOwned(u, v, sessionId)
    ensures NewRelationshipsOwned(t, v, sessionId)
  {
    NewEntityTransitive(t, u, v);
    forall k | k in v.relationships && k !in t.relationships
      ensures v.relationships[k].status == Proposed && v.relationships[k].sourceSessionId == Some(sessionId)
      ensures NewEntity(t, v, v.relationships[k].sourceEntityId)
      ensures NewEntity(t, v, v.relationships[k].targetEntityId)
    {
      if k in u.relationships {
        assert v.relationships[k] == u.relationships[k];
      }
    }
  }

  lemma NewEventsTransitive(t: Tables, u: Tables, v: Tables)
    requires Extends(t, u) && Extends(u, v)
    requires NewEventsOwned(t, u) && NewEventsOwned(u, v)
    ensures NewEventsOwned(t, v)
  {
    NewEntityTransitive(t, u, v);
    forall k | k in v.timelineEvents && k !in t.timelineEvents
      ensures v.timelineEvents[k].sessionNumber.None? && NewEntity(t, v, v.timelineEvents[k].entityId)
    {
      if k in u.timelineEvents {
        assert v.timelineEvents[k] == u.timelineEvents[k];
      }
    }
  }

  lemma NewContradictionsTransitive(t: Tables, u: Tables, v: Tables, sessionId: Id)
    requires Extends(t, u) && Extends(u, v)
    requires NewContradictionsOwned(t, u, sessionId) && NewContradictionsOwned(u, v, sessionId)
    ensures NewContradictionsOwned(t, v, sessionId)
  {
    NewEntityTransitive(t, u, v);
    forall k | k in v.contradictions && k !in t.contradictions
      ensures v.contradictions[k].oldSourceSessionId.None?
      ensures v.contradictions[k].newSourceSessionId == Some(sessionId)
      ensures v.contradictions[k].resolution.None? && v.contradictions[k].notes.None?
      ensures NewEntity(t, v, v.contradictions[k].entityId)
    {
      if k in u.contradictions {
        assert v.contradictions[k] == u.contradictions[k];
      }
    }
  }

  /** An entity new in either step is new over both. */
  lemma NewEntityTransitive(t: Tables, u: Tables, v: Tables)
    requires Extends(t, u) && Extends(u, v)
    ensures forall id :: NewEntity(t, u, id) || NewEntity(u, v, id) ==> NewEntity(t, v, id)
  {
  }

  /** A whole run only adds rows, all belonging to the session, under fresh keys. */
  lemma {:induction false} RunChunksShape(t: Tables, c: Id, chunks: seq<Chunker.Chunk>, extract: Extractor,
                                          approved: seq<string>, sessionId: Id)
    requires Below(t, c)
    ensures c <= RunChunks(t, c, chunks, extract, approved, sessionId).1
    ensures Below(RunChunks(t, c, chunks, extract, approved, sessionId).0,
                  RunChunks(t, c, chunks, extract, approved, sessionId).1)
    ensures Extends(t, RunChunks(t, c, chunks, extract, approved, sessionId).0)
    ensures SessionRows(t, RunChunks(t, c, chunks, extract, approved, sessionId).0, sessionId)
  {
    if chunks != [] {
      var init := chunks[..|chunks| - 1];
      RunChunksShape(t, c, init, extract, approved, sessionId);
      var prev := RunChunks(t, c, init, extract, approved, sessionId);
      match extract(chunks[|chunks| - 1].text, KnownAfter(init, extract, approved))
      case None =>
      case Some(result) =>
        ChunkRowsShape(prev.0, prev.1, result, sessionId);
        ExtendsTransitive(t, prev.0, ChunkRows(prev.0, prev.1, result, sessionId).0, sessionId);
    }
  }

  /** The chunk loop leaves the sessions and the queue as they were. */
  lemma {:induction false} RunChunksKeeps(t: Tables, c: Id, chunks: seq<Chunker.Chunk>, extract: Extractor,
                                          approved: seq<string>, sessionId: Id)
    ensures RunChunks(t, c, chunks, extract, approved, sessionId).0.sessions == t.sessions
    ensures RunChunks(t, c, chunks, extract, approved, sessionId).0.queue == t.queue
  {
    if chunks != [] {
      var init := chunks[..|chunks| - 1];
      RunChunksKeeps(t, c, init, extract, approved, sessionId);
      var prev := RunChunks(t, c, init, extract, approved, sessionId);
      match extract(chunks[|chunks| - 1].text, KnownAfter(init, extract, approved))
      case None =>
      case Some(result) =>
        ChunkRowsKeeps(prev.0, prev.1, result, sessionId);
    }
  }

  /** One chunk leaves the sessions and the queue as they were. */
  lemma ChunkRowsKeeps(t: Tables, base: Id, result: ExtractionResult, sessionId: Id)
    ensures ChunkRows(t, base, result, sessionId).0.sessions == t.sessions
    ensures ChunkRows(t, base, result, sessionId).0.queue == t.queue
  {
    var m := NameToId(result.entities, base);
    var p1 := WithEntities(t, base, result.entities, sessionId);
    var p2 := WithRelationships(p1.0, p1.1, ResolvedRelationships(result.relationships, m), sessionId);
    var p3 := WithEvents(p2.0, p2.1, ResolvedEvents(result.timelineEvents, m));
    var p4 := WithContradictions(p3.0, p3.1, ResolvedContradictions(result.contradictions, m), sessionId);
    assert ChunkRows(t, base, result, sessionId).0 == p4.0;
  }

  /**
   * The list shown to a chunk is a prefix of the list shown to any later
   * chunk: the approved names come first and the list never shrinks.
   */
  lemma {:induction false} KnownGrows(chunks: seq<Chunker.Chunk>, extract: Extractor, approved: seq<string>, i: nat)
    requires i <= |chunks|
    ensures var before := KnownAfter(chunks[..i], extract, approved);
      |before| <= |KnownAfter(chunks, extract, approved)|
      && KnownAfter(chunks, extract, approved)[..|before|] == before
  {
    if i < |chunks| {
      var init := chunks[..|chunks| - 1];
      assert init[..i] == chunks[..i];
      KnownGrows(init, extract, approved, i);
    } else {
      assert chunks[..i] == chunks;
    }
  }

  /**
   * Names after the approved ones are distinct and not approved: a name is
   * appended only when it is not yet on the list.
   */
  lemma {:induction false} KnownDistinct(chunks: seq<Chunker.Chunk>, extract: Extractor, approved: seq<string>)
    ensures forall i, j :: |approved| <= i < j < |KnownAfter(chunks, extract, approved)| ==>
      KnownAfter(chunks, extract, approved)[i] != KnownAfter(chunks, extract, approved)[j]
    ensures forall i :: |approved| <= i < |KnownAfter(chunks, extract, approved)| ==>
      KnownAfter(chunks, extract, approved)[i] !in approved
  {
    if chunks != [] {
      var init := chunks[..|chunks| - 1];
      KnownDistinct(init, extract, approved);
      var k := KnownAfter(init, extract, approved);
      match extract(chunks[|chunks| - 1].text, k)
      case None =>
      case Some(result) =>
        AddNamesFacts(k, result.entities);
        var r := AddNames(k, result.entities);
        forall i | |approved| <= i < |r|
          ensures r[i] !in approved
        {
          if i < |k| {
            assert r[i] == r[..|k|][i];
          } else {
            assert r[i] !in k;
            assert k[..|approved|] == approved;
          }
        }
        forall i, j | |approved| <= i < j < |r|
          ensures r[i] != r[j]
        {
          if j < |k| {
            assert r[i] == r[..|k|][i] && r[j] == r[..|k|][j];
          } else if i < |k| {
            assert r[i] == r[..|k|][i];
            assert r[i] in k;
          }
        }
    }
  }

  /** Every entity name extracted from a chunk is on the final list. */
  lemma {:induction false} KnownCovers(chunks: seq<Chunker.Chunk>, extract: Extractor, approved: seq<string>,
                                       k: nat, result: ExtractionResult)
    requires k < |chunks|
    requires extract(chunks[k].text, KnownAfter(chunks[..k], extract, approved)) == Some(result)
    ensures forall e :: e in result.entities ==> e.name in KnownAfter(chunks, extract, approved)
  {
    var after := KnownAfter(chunks[..k + 1], extract, approved);
    assert chunks[..k + 1][..k] == chunks[..k];
    AddNamesFacts(KnownAfter(chunks[..k], extract, approved), result.entities);
    assert after == AddNames(KnownAfter(chunks[..k], extract, approved), result.entities);
    KnownGrows(chunks, extract, approved, k + 1);
    forall e | e in result.entities
      ensures e.name in KnownAfter(chunks, extract, approved)
    {
      var i :| 0 <= i < |result.entities| && result.entities[i] == e;
      var a :| 0 <= a < |after| && after[a] == e.name;
      assert KnownAfter(chunks, extract, approved)[..|after|][a] == e.name;
    }
  }

  // --- processNextQueueItem ---

  /**
   * Where the store throws outside the per-chunk try: when creating the
   * session, or when listing the approved entities (after the session was
   * created).  The message is what the result reports.
   */
  datatype SetupFault = NoFault | SessionFails(message: string) | ListingFails(message: string)

  datatype ProcessResult = ProcessResult(success: bool, sessionId: Option<Id>, error: Option<string>)

  const NoItemsMessage := "No items in queue"

  /** JavaScript's `filename || fallback`: an absent or empty filename is falsy. */
  function FilenameOr(filename: Option<string>, fallback: string): (r: string)
    ensures filename.Some? && filename.value != "" ==> r == filename.value
    ensures filename.None? || filename == Some("") ==> r == fallback
  {
    if filename.Some? && filename.value != "" then filename.value else fallback
  }

  /** `filename || undefined`: the source file column stays null for a falsy filename. */
  function SourceFileOf(filename: Option<string>): (r: Option<string>)
    ensures r.Some? <==> filename.Some? && filename.value != ""
    ensures r.Some? ==> r == filename
  {
    if filename.Some? && filename.value != "" then filename else None
  }

  function Names(rows: seq<Entity>): seq<string>
  {
    seq(|rows|, i requires 0 <= i < |rows| => rows[i].name)
  }

  /** The pending session created for `item` on day `today` under id `sessionId`. */
  function OpenedSession(item: QueueItem, today: string, sessionId: Id): Session
  {
    Session(sessionId, FilenameOr(item.filename, "Ingested " + today), today, item.content,
            None, SourceFileOf(item.filename), Pending, sessionId)
  }

  /** The tables once the item is claimed and its session opened. */
  function Claimed(t: Tables, item: QueueItem, today: string, sessionId: Id): Tables
  {
    t.(sessions := t.sessions[sessionId := OpenedSession(item, today, sessionId)],
       queue := t.queue[item.id := item.(status := Processing)])
  }

  /**
   * The tables and counter after a run without setup fault: the session is
   * opened under the next id, every chunk is run, then the
   * session is marked processed and the item completed.
   */
  function SessionRun(t: Tables, c: Id, item: QueueItem, today: string, chunks: seq<Chunker.Chunk>,
                      extract: Extractor, approved: seq<string>): (Tables, Id)
  {
    var run := RunChunks(Claimed(t, item, today, c), c + 1, chunks, extract, approved, c);
    (run.0.(sessions := t.sessions[c := OpenedSession(item, today, c).(status := Processed)],
            queue := t.queue[item.id := item.(status := Completed)]),
     run.1)
  }

  /**
   * Without an API key a run still succeeds: the session is opened and marked
   * processed and the item completed, but no entity, relationship, event or
   * contradiction is written.
   */
  lemma KeylessRun(t: Tables, c: Id, item: QueueItem, today: string, chunks: seq<Chunker.Chunk>,
                   ai: Json.Members, api: Extractor, approved: seq<string>)
    requires !Json.TruthyOpt(Json.Lookup(ai, "apiKey"))
    ensures SessionRun(t, c, item, today, chunks, Dispatch(ai, api), approved) ==
      (t.(sessions := t.sessions[c := OpenedSession(item, today, c).(status := Processed)],
          queue := t.queue[item.id := item.(status := Completed)]),
       c + 1)
  {
    NothingExtracted(Claimed(t, item, today, c), c + 1, chunks, Dispatch(ai, api), approved, c);
  }

  /**
   * Claims the oldest queued item and processes it.  Chunk extractions that
   * throw are skipped; a setup fault marks the item failed; an empty queue
   * changes nothing.
   */
  method ProcessNextQueueItem(kb: KnowledgeBase, extract: Extractor, today: string, fault: SetupFault)
    returns (res: ProcessResult)
    requires kb.Valid()
    modifies kb
    ensures kb.Valid()
    ensures old(kb.GetNextQueueItem()).None? ==>
      && res == ProcessResult(false, None, Some(NoItemsMessage))
      && kb.State() == old(kb.State()) && kb.clock == old(kb.clock)
    ensures old(kb.GetNextQueueItem()).Some? ==>
      ProcessOutcome(old(kb.State()), old(kb.clock), old(kb.GetNextQueueItem()).value, today, extract,
                     Names(Store.EntityListing(old(kb.entities), old(kb.clock), Some(Approved))),
                     fault, res, kb.State(), kb.clock)
  {
    var next := kb.GetNextQueueItem();
    if next.None? {
      return ProcessResult(false, None, Some(NoItemsMessage));
    }
    res := ProcessItem(kb, next.value, extract, today, fault);
  }

  /**
   * What processing `item` leaves behind, by setup fault: with none, the
   * result names the new session and the tables are SessionRun's; a failed
   * session insert leaves only the item, marked failed; a failed listing
   * leaves the item failed and the new session pending.
   */
  ghost predicate ProcessOutcome(t: Tables, c: Id, item: QueueItem, today: string, extract: Extractor,
                            approved: seq<string>, fault: SetupFault, res: ProcessResult, u: Tables, c': Id)
  {
    match fault
    case NoFault =>
      && res == ProcessResult(true, Some(c), None)
      && (u, c') == SessionRun(t, c, item, today, Chunker.ChunkSpec(Chunker.Paragraphs(item.content)),
                               extract, approved)
    case SessionFails(message) =>
      && res == ProcessResult(false, None, Some(message))
      && u == t.(queue := t.queue[item.id := item.(status := Failed)]) && c' == c
    case ListingFails(message) =>
      && res == ProcessResult(false, None, Some(message))
      && u == t.(sessions := t.sessions[c := OpenedSession(item, today, c)],
                 queue := t.queue[item.id := item.(status := Failed)])
      && c' == c + 1
  }

  /** Everything after the queue read: claim, open the session, run the chunks, close. */
  method ProcessItem(kb: KnowledgeBase, item: QueueItem, extract: Extractor, today: string, fault: SetupFault)
    returns (res: ProcessResult)
    requires kb.Valid()
    requires item.id in kb.queue && kb.queue[item.id] == item
    modifies kb
    ensures kb.Valid()
    ensures ProcessOutcome(old(kb.State()), old(kb.clock), item, today, extract,
                           Names(Store.EntityListing(old(kb.entities), old(kb.clock), Some(Approved))),
                           fault, res, kb.State(), kb.clock)
  {
    ghost var t, c := kb.State(), kb.clock;
    kb.UpdateIngestionStatus(item.id, Processing);
    if fault.SessionFails? {
      FailClaimed(kb, item, t);
      return ProcessResult(false, None, Some(fault.message));
    }
    var session := OpenSession(kb, item, today, t, c);
    var chunks := Chunker.ChunkText(item.content);
    if fault.ListingFails? {
      FailOpened(kb, item, today, t, c);
      return ProcessResult(false, None, Some(fault.message));
    }
    RunOpened(kb, item, today, chunks, extract, session.id, t, c);
    return ProcessResult(true, Some(session.id), None);
  }

  /** Marks the claimed item failed: only its status differs from before the claim. */
  method FailClaimed(kb: KnowledgeBase, item: QueueItem, ghost t: Tables)
    requires kb.Valid() && item.id in t.queue && t.queue[item.id] == item
    requires kb.State() == t.(queue := t.queue[item.id := t.queue[item.id].(status := Processing)])
    modifies kb
    ensures kb.Valid() && kb.clock == old(kb.clock)
    ensures kb.State() == t.(queue := t.queue[item.id := item.(status := Failed)])
  {
    ghost var claimed := kb.State();
    kb.UpdateIngestionStatus(item.id, Failed);
    ClaimedThenFailed(t, claimed, kb.State(), item);
  }

  /** Opens the session of a claimed item under the next id. */
  method OpenSession(kb: KnowledgeBase, item: QueueItem, today: string, ghost t: Tables, ghost c: Id)
    returns (session: Session)
    requires kb.Valid() && item.id in t.queue && t.queue[item.id] == item
    requires kb.State() == t.(queue := t.queue[item.id := t.queue[item.id].(status := Processing)])
    requires kb.clock == c
    modifies kb
    ensures kb.Valid() && Below(t, c) && session.id == c
    ensures kb.State() == Claimed(t, item, today, c) && kb.clock == c + 1
  {
    ghost var claimed := kb.State();
    assert Below(t, c);
    session := kb.CreateSession(FilenameOr(item.filename, "Ingested " + today), today, item.content,
                                None, SourceFileOf(item.filename));
    ClaimedIs(t, claimed, kb.State(), item, today, c);
  }

  /** Marks the item failed once its session is open: the pending session stays. */
  method FailOpened(kb: KnowledgeBase, item: QueueItem, today: string, ghost t: Tables, ghost c: Id)
    requires kb.Valid() && kb.State() == Claimed(t, item, today, c)
    modifies kb
    ensures kb.Valid() && kb.clock == old(kb.clock)
    ensures kb.State() == t.(sessions := t.sessions[c := OpenedSession(item, today, c)],
                             queue := t.queue[item.id := item.(status := Failed)])
  {
    ghost var started := kb.State();
    kb.UpdateIngestionStatus(item.id, Failed);
    OpenedThenFailed(t, started, kb.State(), item, today, c);
  }

  /**
   * The run once the session is open: list the approved names, run the
   * chunks, mark the session processed and the item completed.
   */
  method RunOpened(kb: KnowledgeBase, item: QueueItem, today: string, chunks: seq<Chunker.Chunk>,
                   extract: Extractor, sessionId: Id, ghost t: Tables, ghost c: Id)
    requires kb.Valid() && Below(t, c) && sessionId == c
    requires kb.State() == Claimed(t, item, today, c) && kb.clock == c + 1
    modifies kb
    ensures kb.Valid()
    ensures (kb.State(), kb.clock)
      == SessionRun(t, c, item, today, chunks, extract, Names(Store.EntityListing(t.entities, c, Some(Approved))))
  {
    var approved := Names(kb.GetAllEntities(Some(Approved)));
    assert kb.entities == t.entities;
    Store.ListingSkip(t.entities, c, Some(Approved));
    ghost var t0 := kb.State();
    var known := ProcessChunks(kb, chunks, extract, approved, sessionId);
    ghost var t1, c1 := kb.State(), kb.clock;
    assert t1 == RunChunks(t0, c + 1, chunks, extract, approved, c).0;
    assert c1 == RunChunks(t0, c + 1, chunks, extract, approved, c).1;
    kb.UpdateSessionStatus(sessionId, Processed);
    ghost var t2 := kb.State();
    kb.UpdateIngestionStatus(item.id, Completed);
    FinishRun(t, c, item, today, chunks, extract, approved, t0, t1, t2, kb.State(), c1);
  }

  /** Claiming the item and marking it failed leaves it failed. */
  lemma ClaimedThenFailed(t: Tables, claimed: Tables, failed: Tables, item: QueueItem)
    requires item.id in t.queue && t.queue[item.id] == item
    requires claimed == t.(queue := t.queue[item.id := t.queue[item.id].(status := Processing)])
    requires failed == claimed.(queue := if item.id in claimed.queue
                                        then claimed.queue[item.id := claimed.queue[item.id].(status := Failed)]
                                        else claimed.queue)
    ensures failed == t.(queue := t.queue[item.id := item.(status := Failed)])
  {
    assert failed.queue == t.queue[item.id := item.(status := Failed)];
  }

  /** Opening the session and then marking the item failed keeps the pending session. */
  lemma OpenedThenFailed(t: Tables, started: Tables, failed: Tables, item: QueueItem, today: string, c: Id)
    requires started == Claimed(t, item, today, c)
    requires failed == started.(queue := if item.id in started.queue
                                        then started.queue[item.id := started.queue[item.id].(status := Failed)]
                                        else started.queue)
    ensures failed == t.(sessions := t.sessions[c := OpenedSession(item, today, c)],
                         queue := t.queue[item.id := item.(status := Failed)])
  {
    assert failed.queue == t.queue[item.id := item.(status := Failed)];
  }

  /** Claiming the item and then opening its session gives Claimed. */
  lemma ClaimedIs(t: Tables, claimed: Tables, started: Tables, item: QueueItem, today: string, c: Id)
    requires item.id in t.queue && t.queue[item.id] == item
    requires claimed == t.(queue := t.queue[item.id := t.queue[item.id].(status := Processing)])
    requires started == claimed.(sessions := claimed.sessions[c := OpenedSession(item, today, c)])
    ensures started == Claimed(t, item, today, c)
  {
  }

  /** The chunk loop of ProcessNextQueueItem, returning the final known-names list. */
  method ProcessChunks(kb: KnowledgeBase, chunks: seq<Chunker.Chunk>, extract: Extractor,
                       approved: seq<string>, sessionId: Id)
    returns (known: seq<string>)
    requires kb.Valid()
    modifies kb
    ensures kb.Valid()
    ensures known == KnownAfter(chunks, extract, approved)
    ensures (kb.State(), kb.clock) == RunChunks(old(kb.State()), old(kb.clock), chunks, extract, approved, sessionId)
  {
    ghost var t0, c0 := kb.State(), kb.clock;
    known := approved;
    for i := 0 to |chunks|
      invariant kb.Valid()
      invariant known == KnownAfter(chunks[..i], extract, approved)
      invariant (kb.State(), kb.clock) == RunChunks(t0, c0, chunks[..i], extract, approved, sessionId)
    {
      assert chunks[..i + 1][..i] == chunks[..i];
      var r := extract(chunks[i].text, known);
      if r.Some? {
        known := ReconcileChunk(kb, r.value, sessionId, known);
      }
    }
    assert chunks[..|chunks|] == chunks;
  }

  /** Closing the session and the item after the chunk loop gives SessionRun. */
  lemma FinishRun(t: Tables, c: Id, item: QueueItem, today: string, chunks: seq<Chunker.Chunk>,
                  extract: Extractor, approved: seq<string>, t0: Tables, t1: Tables, t2: Tables, t3: Tables, c1: Id)
    requires Below(t, c)
    requires t0 == Claimed(t, item, today, c)
    requires (t1, c1) == RunChunks(t0, c + 1, chunks, extract, approved, c)
    requires t2 == t1.(sessions := if c in t1.sessions then t1.sessions[c := t1.sessions[c].(status := Processed)]
                                   else t1.sessions)
    requires t3 == t2.(queue := if item.id in t2.queue then t2.queue[item.id := t2.queue[item.id].(status := Completed)]
                                else t2.queue)
    ensures (t3, c1) == SessionRun(t, c, item, today, chunks, extract, approved)
  {
    RunChunksKeeps(t0, c + 1, chunks, extract, approved, c);
    var session := OpenedSession(item, today, c);
    assert t1.sessions == t.sessions[c := session];
    assert t1.queue == t.queue[item.id := item.(status := Processing)];
    Restamp(t1.sessions, t.sessions, c, session, session.(status := Processed));
    Restamp(t2.queue, t.queue, item.id, item.(status := Processing), item.(status := Completed));
  }

  /** Overwriting a key that was just written forgets the first write. */
  lemma Restamp<V>(m: map<Id, V>, base: map<Id, V>, k: Id, v: V, w: V)
    requires m == base[k := v]
    ensures k in m && m[k := w] == base[k := w]
  {
  }
}
