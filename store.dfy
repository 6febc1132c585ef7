/**
 * The knowledge-base store: seven tables and the queries over them.
 *
 * Each table is a map from id to row.  A single counter `clock` issues both
 * fresh ids and the `created_at`/`updated_at` readings, so a row's id is its
 * creation time and "ORDER BY created_at" lists rows by id.
 */
module Store {
  import opened Wrappers
  import opened Json
  import opened Text
  import opened Domain
  import opened Rows
  import opened Ordering

  /** A snapshot of all seven tables, used to say what a write leaves alone. */
  datatype Tables = Tables(
    sessions: map<Id, Session>,
    entities: map<Id, Entity>,
    relationships: map<Id, Relationship>,
    timelineEvents: map<Id, TimelineEvent>,
    contradictions: map<Id, Contradiction>,
    tags: map<Id, Tag>,
    queue: map<Id, QueueItem>)

  /** The fields `updateEntity` may be given; `None` means "not supplied". */
  datatype EntityPatch = EntityPatch(
    name: Option<string>,
    description: Option<string>,
    properties: Option<Json>,
    entityType: Option<EntityType>)

  /** One `column = ?` item of the UPDATE that `updateEntity` assembles. */
  datatype ColumnSet =
    | SetName(name: string)
    | SetDescription(description: string)
    | SetProperties(properties: Json)
    | SetType(entityType: EntityType)

  function ApplySet(e: Entity, c: ColumnSet): Entity
  {
    match c
    case SetName(n) => e.(name := n)
    case SetDescription(d) => e.(description := d)
    case SetProperties(p) => e.(properties := p)
    case SetType(t) => e.(entityType := t)
  }

  function ApplySets(e: Entity, sets: seq<ColumnSet>): Entity
    decreases |sets|
  {
    if sets == [] then e else ApplySets(ApplySet(e, sets[0]), sets[1..])
  }

  predicate NothingSupplied(p: EntityPatch)
  {
    p.name.None? && p.description.None? && p.properties.None? && p.entityType.None?
  }

  /**
   * The row after a partial update stamped at time `now`: each supplied field
   * replaced, every other field kept.
   */
  function Patched(e: Entity, p: EntityPatch, now: nat): (r: Entity)
    ensures r.id == e.id && r.status == e.status && r.sourceSessionId == e.sourceSessionId
    ensures r.createdAt == e.createdAt && r.updatedAt == now
    ensures r.name == (if p.name.Some? then p.name.value else e.name)
    ensures r.description == (if p.description.Some? then p.description.value else e.description)
    ensures r.properties == (if p.properties.Some? then p.properties.value else e.properties)
    ensures r.entityType == (if p.entityType.Some? then p.entityType.value else e.entityType)
  {
    e.(name := p.name.GetOr(e.name),
       description := p.description.GetOr(e.description),
       properties := p.properties.GetOr(e.properties),
       entityType := p.entityType.GetOr(e.entityType),
       updatedAt := now)
  }

  /**
   * The column assignments of a partial update, one per supplied field in
   * column order; applied and stamped they give the patched row.
   */
  method ColumnSets(patch: EntityPatch) returns (sets: seq<ColumnSet>)
    ensures |sets| == 0 <==> NothingSupplied(patch)
    ensures forall e: Entity, now: nat :: ApplySets(e, sets).(updatedAt := now) == Patched(e, patch, now)
  {
    sets := [];
    if patch.name.Some? {
      sets := sets + [SetName(patch.name.value)];
    }
    if patch.description.Some? {
      sets := sets + [SetDescription(patch.description.value)];
    }
    if patch.properties.Some? {
      sets := sets + [SetProperties(patch.properties.value)];
    }
    if patch.entityType.Some? {
      sets := sets + [SetType(patch.entityType.value)];
    }
    forall e: Entity, now: nat
      ensures ApplySets(e, sets).(updatedAt := now) == Patched(e, patch, now)
    {
      SetsMatchPatch(e, patch, sets, now);
    }
  }

  /** The entity rows with ids below `clock` that match the filter, sorted by name. */
  function EntityListing(entities: map<Id, Entity>, clock: nat, status: Option<EntityStatus>): seq<Entity>
  {
    Sort(Filter(Ascending(entities, clock), (e: Entity) => StatusMatches(e.status, status)), ByName)
  }

  /** Issuing an id that names no entity leaves every entity listing as it was. */
  lemma ListingSkip(entities: map<Id, Entity>, clock: nat, status: Option<EntityStatus>)
    requires clock !in entities
    ensures EntityListing(entities, clock + 1, status) == EntityListing(entities, clock, status)
  {
    AscendingSkip(entities, clock);
  }

  /**
   * The first queued row in key order exists exactly when some row is
   * queued, and no queued row was created before it.
   */
  lemma FirstQueued(queue: map<Id, QueueItem>, clock: nat)
    requires forall k :: k in queue ==> k < clock && queue[k].id == k && queue[k].createdAt == k
    ensures var waiting := Filter(Ascending(queue, clock), (q: QueueItem) => q.status == Queued);
      && (waiting == [] <==> forall k :: k in queue ==> queue[k].status != Queued)
      && (waiting != [] ==>
            waiting[0].id in queue && queue[waiting[0].id] == waiting[0] && waiting[0].status == Queued
            && forall k :: k in queue && queue[k].status == Queued ==> waiting[0].createdAt <= queue[k].createdAt)
  {
    var all := Ascending(queue, clock);
    var p := (q: QueueItem) => q.status == Queued;
    var waiting := Filter(all, p);
    AscendingRows(queue, clock, (q: QueueItem) => q.id);
    forall k | k in queue && queue[k].status == Queued
      ensures waiting != [] && waiting[0].createdAt <= queue[k].createdAt
    {
      QueuedNotBefore(queue, clock, k);
    }
    if waiting != [] {
      assert waiting[0] in all;
    }
  }

  /** A queued row is in the waiting list, and the list's head was created no later. */
  lemma QueuedNotBefore(queue: map<Id, QueueItem>, clock: nat, k: Id)
    requires forall k :: k in queue ==> k < clock && queue[k].id == k && queue[k].createdAt == k
    requires k in queue && queue[k].status == Queued
    ensures var waiting := Filter(Ascending(queue, clock), (q: QueueItem) => q.status == Queued);
      waiting != [] && waiting[0].createdAt <= queue[k].createdAt
  {
    var all := Ascending(queue, clock);
    var p := (q: QueueItem) => q.status == Queued;
    var waiting := Filter(all, p);
    AscendingRows(queue, clock, (q: QueueItem) => q.id);
    FilterIncreasing(all, p, (q: QueueItem) => q.id);
    assert queue[k] in all;
    var i :| 0 <= i < |all| && all[i] == queue[k];
    assert queue[k] in waiting;
    var j :| 0 <= j < |waiting| && waiting[j] == queue[k];
    assert waiting[0] in all;
    var h :| 0 <= h < |all| && all[h] == waiting[0];
    assert waiting[0].createdAt == waiting[0].id;
  }

  /** Every row sits under its own id, issued before the clock reading `clock`. */
  ghost predicate WellKeyed(t: Tables, clock: Id)
  {
    && (forall k :: k in t.sessions ==> k < clock && t.sessions[k].id == k && t.sessions[k].createdAt == k)
    && (forall k :: k in t.entities ==>
          k < clock && t.entities[k].id == k && t.entities[k].createdAt == k
          && k <= t.entities[k].updatedAt < clock)
    && (forall k :: k in t.relationships ==>
          k < clock && t.relationships[k].id == k && t.relationships[k].createdAt == k)
    && (forall k :: k in t.timelineEvents ==> k < clock && t.timelineEvents[k].id == k)
    && (forall k :: k in t.contradictions ==>
          k < clock && t.contradictions[k].id == k && t.contradictions[k].createdAt == k)
    && (forall k :: k in t.tags ==> k < clock && t.tags[k].id == k)
    && (forall k :: k in t.queue ==> k < clock && t.queue[k].id == k && t.queue[k].createdAt == k)
  }

  /** Deleting an entity keeps every remaining row under its own, earlier id. */
  lemma WithoutEntityWellKeyed(t: Tables, clock: Id, id: Id)
    requires WellKeyed(t, clock)
    ensures WellKeyed(WithoutEntity(t, id), clock)
  {
  }

  /** Keeps the rows for which `keep` holds. */
  function Keep<T>(m: map<Id, T>, keep: T -> bool): (r: map<Id, T>)
    ensures forall k :: k in r <==> k in m && keep(m[k])
    ensures forall k :: k in r ==> r[k] == m[k]
  {
    map k | k in m && keep(m[k]) :: m[k]
  }

  /**
   * Sorting a listing that is strictly increasing by id, whose rows are the
   * table's own, lists no id twice.
   */
  lemma SortedIdsDistinct<T>(s: seq<T>, le: (T, T) -> bool, m: map<Id, T>, key: T -> nat)
    requires forall i, j :: 0 <= i < j < |s| ==> key(s[i]) < key(s[j])
    requires forall i :: 0 <= i < |s| ==> key(s[i]) in m && m[key(s[i])] == s[i]
    ensures forall i, j :: 0 <= i < j < |Sort(s, le)| ==> key(Sort(s, le)[i]) != key(Sort(s, le)[j])
  {
    var r := Sort(s, le);
    IncreasingOnce(s, key);
    assert forall x :: multiset(r)[x] <= 1;
    OnceDistinct(r);
    forall i, j | 0 <= i < j < |r|
      ensures key(r[i]) != key(r[j])
    {
      SortSameElements(s, le, r[i]);
      SortSameElements(s, le, r[j]);
      var a :| 0 <= a < |s| && s[a] == r[i];
      var b :| 0 <= b < |s| && s[b] == r[j];
    }
  }

  /**
   * The tables after deleting an entity: `deleteEntity` issues its own
   * DELETEs, in this order, for the entity's tags, its timeline events,
   * every relationship it is either end of and its contradictions, and then
   * deletes the entity row itself.
   */
  function WithoutEntity(t: Tables, id: Id): (r: Tables)
    ensures r.entities == t.entities - {id}
    ensures forall k :: k in r.tags <==> k in t.tags && t.tags[k].entityId != id
    ensures forall k :: k in r.timelineEvents <==> k in t.timelineEvents && t.timelineEvents[k].entityId != id
    ensures forall k :: k in r.relationships <==>
      k in t.relationships && t.relationships[k].sourceEntityId != id && t.relationships[k].targetEntityId != id
    ensures forall k :: k in r.contradictions <==> k in t.contradictions && t.contradictions[k].entityId != id
    ensures forall k :: k in r.tags ==> r.tags[k] == t.tags[k]
    ensures forall k :: k in r.timelineEvents ==> r.timelineEvents[k] == t.timelineEvents[k]
    ensures forall k :: k in r.relationships ==> r.relationships[k] == t.relationships[k]
    ensures forall k :: k in r.contradictions ==> r.contradictions[k] == t.contradictions[k]
    ensures r.sessions == t.sessions && r.queue == t.queue
  {
    Tables(t.sessions, t.entities - {id},
      Keep(t.relationships, (r: Relationship) => r.sourceEntityId != id && r.targetEntityId != id),
      Keep(t.timelineEvents, (e: TimelineEvent) => e.entityId != id),
      Keep(t.contradictions, (c: Contradiction) => c.entityId != id),
      Keep(t.tags, (g: Tag) => g.entityId != id),
      t.queue)
  }

  /** After the five deletes no remaining row refers to the deleted entity. */
  lemma {:induction false} WithoutEntityLeavesNoReference(t: Tables, id: Id)
    ensures var r := WithoutEntity(t, id);
      id !in r.entities
      && (forall k :: k in r.tags ==> r.tags[k].entityId != id)
      && (forall k :: k in r.timelineEvents ==> r.timelineEvents[k].entityId != id)
      && (forall k :: k in r.contradictions ==> r.contradictions[k].entityId != id)
      && (forall k :: k in r.relationships ==>
            r.relationships[k].sourceEntityId != id && r.relationships[k].targetEntityId != id)
  {
  }

  /** ORDER BY name, under the BINARY collation. */
  predicate ByName(a: Entity, b: Entity)
  {
    LexLe(a.name, b.name)
  }

  /** ORDER BY sort_order. */
  predicate BySortOrder(a: TimelineEvent, b: TimelineEvent)
  {
    a.sortOrder <= b.sortOrder
  }

  lemma ByNameIsOrder()
    ensures Total(ByName) && Transitive(ByName)
  {
    forall a: Entity, b: Entity
      ensures ByName(a, b) || ByName(b, a)
    {
      LexLeTotal(a.name, b.name);
    }
    forall a: Entity, b: Entity, c: Entity | ByName(a, b) && ByName(b, c)
      ensures ByName(a, c)
    {
      LexLeTransitive(a.name, b.name, c.name);
    }
  }

  lemma BySortOrderIsOrder()
    ensures Total(BySortOrder) && Transitive(BySortOrder)
  {
  }

  /** `status?` filters of the listing queries: no status means every row. */
  predicate StatusMatches(s: EntityStatus, wanted: Option<EntityStatus>)
  {
    wanted.None? || s == wanted.value
  }

  class KnowledgeBase {
    var sessions: map<Id, Session>
    var entities: map<Id, Entity>
    var relationships: map<Id, Relationship>
    var timelineEvents: map<Id, TimelineEvent>
    var contradictions: map<Id, Contradiction>
    var tags: map<Id, Tag>
    var queue: map<Id, QueueItem>
    var clock: nat

    ghost function State(): Tables
      reads this
    {
      Tables(sessions, entities, relationships, timelineEvents, contradictions, tags, queue)
    }

    /** Every row sits under its own id, issued before the current clock reading. */
    ghost predicate Valid()
      reads this
    {
      WellKeyed(State(), clock)
    }

    constructor ()
      ensures Valid()
      ensures State() == Tables(map[], map[], map[], map[], map[], map[], map[])
    {
      sessions, entities, relationships := map[], map[], map[];
      timelineEvents, contradictions, tags, queue := map[], map[], map[], map[];
      clock := 0;
    }

    // --- Sessions ---

    method CreateSession(title: string, date: string, rawText: string,
                         summary: Option<string>, sourceFile: Option<string>)
      returns (s: Session)
      requires Valid()
      modifies this
      ensures Valid()
      ensures s == Session(old(clock), title, date, rawText, summary, sourceFile, Pending, old(clock))
      ensures s.id !in old(sessions)
      ensures State() == old(State()).(sessions := old(sessions)[s.id := s])
      ensures clock == old(clock) + 1
    {
      s := Session(clock, title, date, rawText, summary, sourceFile, Pending, clock);
      sessions := sessions[clock := s];
      clock := clock + 1;
    }

    function GetSessionById(id: Id): (r: Option<Session>)
      reads this
      requires Valid()
      ensures r.Some? <==> id in sessions
      ensures r.Some? ==> r.value.id == id && r.value == sessions[id]
    {
      if id in sessions then Some(sessions[id]) else None
    }

    /** Every session, newest first. */
    function GetAllSessions(): (r: seq<Session>)
      reads this
      requires Valid()
      ensures forall k :: k in sessions ==> sessions[k] in r
      ensures forall i :: 0 <= i < |r| ==> r[i].id in sessions && sessions[r[i].id] == r[i]
      ensures forall i, j :: 0 <= i < j < |r| ==> r[i].createdAt > r[j].createdAt
    {
      DescendingRows(sessions, clock, (x: Session) => x.id);
      Descending(sessions, clock)
    }

    method UpdateSessionStatus(id: Id, status: SessionStatus)
      requires Valid()
      modifies this
      ensures Valid() && clock == old(clock)
      ensures State() == old(State()).(sessions :=
        if id in old(sessions) then old(sessions)[id := old(sessions)[id].(status := status)]
        else old(sessions))
    {
      if id in sessions {
        sessions := sessions[id := sessions[id].(status := status)];
      }
    }

    // --- Entities ---

    /** Inserts an entity; status defaults to proposed and properties to `{}`. */
    /** `properties ?? {}`: a missing or null value is stored as an empty object. */
    static function PropertiesOr(properties: Option<Json>): (r: Json)
      ensures properties.None? || properties == Some(JNull) ==> r == JObject([])
      ensures properties.Some? && properties.value != JNull ==> r == properties.value
    {
      if properties.None? || properties == Some(JNull) then JObject([]) else properties.value
    }

    method CreateEntity(name: string, entityType: EntityType, description: string,
                        properties: Option<Json>, status: Option<EntityStatus>,
                        sourceSessionId: Option<Id>)
      returns (e: Entity)
      requires Valid()
      modifies this
      ensures Valid()
      ensures e == Entity(old(clock), name, entityType, description,
                          PropertiesOr(properties), status.GetOr(Proposed),
                          sourceSessionId, old(clock), old(clock))
      ensures e.id !in old(entities)
      ensures State() == old(State()).(entities := old(entities)[e.id := e])
      ensures clock == old(clock) + 1
    {
      e := Entity(clock, name, entityType, description, PropertiesOr(properties),
                  status.GetOr(Proposed), sourceSessionId, clock, clock);
      entities := entities[clock := e];
      clock := clock + 1;
    }

    function GetEntityById(id: Id): (r: Option<Entity>)
      reads this
      requires Valid()
      ensures r.Some? <==> id in entities
      ensures r.Some? ==> r.value.id == id && r.value == entities[id]
    {
      if id in entities then Some(entities[id]) else None
    }

    /** Entities (optionally of one status), sorted by name. */
    function GetAllEntities(status: Option<EntityStatus>): (r: seq<Entity>)
      reads this
      requires Valid()
      ensures SortedBy(r, ByName)
      ensures forall i, j :: 0 <= i < j < |r| ==> r[i].id != r[j].id
      ensures forall e :: e in r <==> e.id in entities && entities[e.id] == e && StatusMatches(e.status, status)
      ensures r == EntityListing(entities, clock, status)
    {
      var keep := (e: Entity) => StatusMatches(e.status, status);
      var rows := Filter(Ascending(entities, clock), keep);
      ListedEntities(keep);
      ListedEntitiesDistinct(keep);
      ByNameIsOrder();
      SortSorted(rows, ByName);
      Sort(rows, ByName)
    }

    /** Entities of one type (optionally of one status), sorted by name. */
    function GetEntitiesByType(entityType: EntityType, status: Option<EntityStatus>): (r: seq<Entity>)
      reads this
      requires Valid()
      ensures SortedBy(r, ByName)
      ensures forall i, j :: 0 <= i < j < |r| ==> r[i].id != r[j].id
      ensures forall e :: e in r <==>
        e.id in entities && entities[e.id] == e && e.entityType == entityType
        && StatusMatches(e.status, status)
    {
      var keep := (e: Entity) => e.entityType == entityType && StatusMatches(e.status, status);
      var rows := Filter(Ascending(entities, clock), keep);
      ListedEntities(keep);
      ListedEntitiesDistinct(keep);
      ByNameIsOrder();
      SortSorted(rows, ByName);
      Sort(rows, ByName)
    }

    /** The approved entities whose name or description contains `query`, sorted by name. */
    function SearchEntities(query: string): (r: seq<Entity>)
      reads this
      requires Valid()
      ensures SortedBy(r, ByName)
      ensures forall i, j :: 0 <= i < j < |r| ==> r[i].id != r[j].id
      ensures forall e :: e in r <==>
        e.id in entities && entities[e.id] == e && e.status == Approved
        && (Contains(e.name, query) || Contains(e.description, query))
    {
      var keep := (e: Entity) => (Contains(e.name, query) || Contains(e.description, query)) && e.status == Approved;
      var rows := Filter(Ascending(entities, clock), keep);
      ListedEntities(keep);
      ListedEntitiesDistinct(keep);
      ByNameIsOrder();
      SortSorted(rows, ByName);
      Sort(rows, ByName)
    }

    /** Filtering then sorting the entity table lists exactly the kept rows. */
    lemma ListedEntities(keep: Entity -> bool)
      requires Valid()
      ensures forall e :: e in Sort(Filter(Ascending(entities, clock), keep), ByName) <==>
        e.id in entities && entities[e.id] == e && keep(e)
    {
      var all := Ascending(entities, clock);
      var rows := Filter(all, keep);
      AscendingRows(entities, clock, (e: Entity) => e.id);
      forall e
        ensures e in Sort(rows, ByName) <==> e.id in entities && entities[e.id] == e && keep(e)
      {
        SortSameElements(rows, ByName, e);
        if e.id in entities && entities[e.id] == e && keep(e) {
          assert e in all;
          var i :| 0 <= i < |all| && all[i] == e;
          assert e in rows;
        }
        if e in rows {
          var i :| 0 <= i < |rows| && rows[i] == e;
          assert e in all;
          var j :| 0 <= j < |all| && all[j] == e;
        }
      }
    }

    /** No entity is listed twice: the listed ids are pairwise distinct. */
    lemma ListedEntitiesDistinct(keep: Entity -> bool)
      requires Valid()
      ensures forall i, j :: 0 <= i < j < |Sort(Filter(Ascending(entities, clock), keep), ByName)| ==>
        Sort(Filter(Ascending(entities, clock), keep), ByName)[i].id
          != Sort(Filter(Ascending(entities, clock), keep), ByName)[j].id
    {
      var rows := Filter(Ascending(entities, clock), keep);
      var r := Sort(rows, ByName);
      AscendingRows(entities, clock, (e: Entity) => e.id);
      FilterIncreasing(Ascending(entities, clock), keep, (e: Entity) => e.id);
      IncreasingOnce(rows, (e: Entity) => e.id);
      assert forall x :: multiset(r)[x] <= 1;
      OnceDistinct(r);
      ListedEntities(keep);
      forall i, j | 0 <= i < j < |r|
        ensures r[i].id != r[j].id
      {
        assert r[i] in r && r[j] in r;
        assert entities[r[i].id] == r[i] && entities[r[j].id] == r[j];
      }
    }

    /**
     * Replaces only the supplied fields and stamps `updated_at`; with nothing
     * supplied the row is not touched at all.
     */
    method UpdateEntity(id: Id, patch: EntityPatch)
      requires Valid()
      modifies this
      ensures Valid()
      ensures NothingSupplied(patch) || id !in old(entities) ==>
        State() == old(State()) && clock == old(clock)
      ensures !NothingSupplied(patch) && id in old(entities) ==>
        && State() == old(State()).(entities := old(entities)[id := Patched(old(entities)[id], patch, old(clock))])
        && clock == old(clock) + 1
    {
      var sets := ColumnSets(patch);
      if |sets| == 0 {
        return;
      }
      if id in entities {
        entities := entities[id := ApplySets(entities[id], sets).(updatedAt := clock)];
        clock := clock + 1;
      }
    }

    /** Sets a status unconditionally, whatever the current one is. */
    method UpdateEntityStatus(id: Id, status: EntityStatus)
      requires Valid()
      modifies this
      ensures Valid()
      ensures id !in old(entities) ==> State() == old(State()) && clock == old(clock)
      ensures id in old(entities) ==>
        && State() == old(State()).(entities :=
             old(entities)[id := old(entities)[id].(status := status, updatedAt := old(clock))])
        && clock == old(clock) + 1
    {
      if id in entities {
        entities := entities[id := entities[id].(status := status, updatedAt := clock)];
        clock := clock + 1;
      }
    }

    /**
     * Removes an entity together with its tags, timeline events and
     * contradictions and every relationship it is an endpoint of.
     */
    method DeleteEntity(id: Id)
      requires Valid()
      modifies this
      ensures Valid() && clock == old(clock)
      ensures State() == WithoutEntity(old(State()), id)
    {
      WithoutEntityWellKeyed(State(), clock, id);
      var r := WithoutEntity(Tables(sessions, entities, relationships, timelineEvents,
                                    contradictions, tags, queue), id);
      SetTables(r);
    }

    /** Replaces every table at once, leaving the clock alone. */
    method SetTables(t: Tables)
      modifies this
      ensures State() == t && clock == old(clock)
    {
      sessions, entities, relationships, timelineEvents := t.sessions, t.entities, t.relationships, t.timelineEvents;
      contradictions, tags, queue := t.contradictions, t.tags, t.queue;
    }

    // --- Relationships ---

    /** Inserts a relationship; confidence defaults to 1.0 and status to proposed. */
    method CreateRelationship(sourceEntityId: Id, targetEntityId: Id, relType: RelationshipType,
                              description: Option<string>, confidence: Option<real>,
                              status: Option<EntityStatus>, sourceSessionId: Option<Id>)
      returns (r: Relationship)
      requires Valid()
      modifies this
      ensures Valid()
      ensures r == Relationship(old(clock), sourceEntityId, targetEntityId, relType, description,
                                confidence.GetOr(1.0), status.GetOr(Proposed), sourceSessionId,
                                old(clock))
      ensures r.id !in old(relationships)
      ensures State() == old(State()).(relationships := old(relationships)[r.id := r])
      ensures clock == old(clock) + 1
    {
      r := Relationship(clock, sourceEntityId, targetEntityId, relType, description,
                        confidence.GetOr(1.0), status.GetOr(Proposed), sourceSessionId, clock);
      relationships := relationships[clock := r];
      clock := clock + 1;
    }

    /** The approved relationships touching an entity, in insertion order. */
    function GetRelationshipsByEntityId(entityId: Id): (r: seq<Relationship>)
      reads this
      requires Valid()
      ensures forall i, j :: 0 <= i < j < |r| ==> r[i].id != r[j].id
      ensures forall x :: x in r <==>
        x.id in relationships && relationships[x.id] == x && x.status == Approved
        && (x.sourceEntityId == entityId || x.targetEntityId == entityId)
    {
      var keep := (x: Relationship) =>
        (x.sourceEntityId == entityId || x.targetEntityId == entityId) && x.status == Approved;
      ListedRelationships(keep);
      Filter(Ascending(relationships, clock), keep)
    }

    /** Relationships (optionally of one status), in insertion order. */
    function GetAllRelationships(status: Option<EntityStatus>): (r: seq<Relationship>)
      reads this
      requires Valid()
      ensures forall i, j :: 0 <= i < j < |r| ==> r[i].id != r[j].id
      ensures forall x :: x in r <==>
        x.id in relationships && relationships[x.id] == x && StatusMatches(x.status, status)
    {
      var keep := (x: Relationship) => StatusMatches(x.status, status);
      ListedRelationships(keep);
      Filter(Ascending(relationships, clock), keep)
    }

    lemma ListedRelationships(keep: Relationship -> bool)
      requires Valid()
      ensures forall x :: x in Filter(Ascending(relationships, clock), keep) <==>
        x.id in relationships && relationships[x.id] == x && keep(x)
      ensures forall i, j :: 0 <= i < j < |Filter(Ascending(relationships, clock), keep)| ==>
        Filter(Ascending(relationships, clock), keep)[i].id < Filter(Ascending(relationships, clock), keep)[j].id
    {
      var all := Ascending(relationships, clock);
      var rows := Filter(all, keep);
      AscendingRows(relationships, clock, (x: Relationship) => x.id);
      FilterIncreasing(all, keep, (x: Relationship) => x.id);
      forall x
        ensures x in rows <==> x.id in relationships && relationships[x.id] == x && keep(x)
      {
        if x.id in relationships && relationships[x.id] == x && keep(x) {
          assert x in all;
          var i :| 0 <= i < |all| && all[i] == x;
        }
        if x in rows {
          assert x in all;
          var j :| 0 <= j < |all| && all[j] == x;
        }
      }
    }

    /** Sets a status unconditionally; `updated_at` does not exist on this table. */
    method UpdateRelationshipStatus(id: Id, status: EntityStatus)
      requires Valid()
      modifies this
      ensures Valid() && clock == old(clock)
      ensures State() == old(State()).(relationships :=
        if id in old(relationships) then old(relationships)[id := old(relationships)[id].(status := status)]
        else old(relationships))
    {
      if id in relationships {
        relationships := relationships[id := relationships[id].(status := status)];
      }
    }

    // --- Timeline events ---

    method CreateTimelineEvent(entityId: Id, dateDescription: string, sortOrder: int,
                               sessionNumber: Option<int>)
      returns (t: TimelineEvent)
      requires Valid()
      modifies this
      ensures Valid()
      ensures t == TimelineEvent(old(clock), entityId, dateDescription, sortOrder, sessionNumber)
      ensures t.id !in old(timelineEvents)
      ensures State() == old(State()).(timelineEvents := old(timelineEvents)[t.id := t])
      ensures clock == old(clock) + 1
    {
      t := TimelineEvent(clock, entityId, dateDescription, sortOrder, sessionNumber);
      timelineEvents := timelineEvents[clock := t];
      clock := clock + 1;
    }

    /** Every timeline event, ordered by sort_order. */
    function GetAllTimelineEvents(): (r: seq<TimelineEvent>)
      reads this
      requires Valid()
      ensures SortedBy(r, BySortOrder)
      ensures forall i, j :: 0 <= i < j < |r| ==> r[i].id != r[j].id
      ensures forall t :: t in r <==> t.id in timelineEvents && timelineEvents[t.id] == t
      ensures forall k :: k in timelineEvents ==> multiset(r)[timelineEvents[k]] == 1
    {
      var keep := (t: TimelineEvent) => true;
      ListedEvents(keep);
      EventIdsDistinct(keep);
      EventsOnce(keep);
      BySortOrderIsOrder();
      SortSorted(Filter(Ascending(timelineEvents, clock), keep), BySortOrder);
      Sort(Filter(Ascending(timelineEvents, clock), keep), BySortOrder)
    }

    /** One entity's timeline events, ordered by sort_order. */
    function GetTimelineEventsByEntityId(entityId: Id): (r: seq<TimelineEvent>)
      reads this
      requires Valid()
      ensures SortedBy(r, BySortOrder)
      ensures forall i, j :: 0 <= i < j < |r| ==> r[i].id != r[j].id
      ensures forall t :: t in r <==>
        t.id in timelineEvents && timelineEvents[t.id] == t && t.entityId == entityId
    {
      var keep := (t: TimelineEvent) => t.entityId == entityId;
      ListedEvents(keep);
      EventIdsDistinct(keep);
      BySortOrderIsOrder();
      SortSorted(Filter(Ascending(timelineEvents, clock), keep), BySortOrder);
      Sort(Filter(Ascending(timelineEvents, clock), keep), BySortOrder)
    }

    lemma ListedEvents(keep: TimelineEvent -> bool)
      requires Valid()
      ensures forall t :: t in Sort(Filter(Ascending(timelineEvents, clock), keep), BySortOrder) <==>
        t.id in timelineEvents && timelineEvents[t.id] == t && keep(t)
    {
      var all := Ascending(timelineEvents, clock);
      var rows := Filter(all, keep);
      AscendingRows(timelineEvents, clock, (t: TimelineEvent) => t.id);
      forall t
        ensures t in Sort(rows, BySortOrder) <==> t.id in timelineEvents && timelineEvents[t.id] == t && keep(t)
      {
        SortSameElements(rows, BySortOrder, t);
        if t.id in timelineEvents && timelineEvents[t.id] == t && keep(t) {
          assert t in all;
          var i :| 0 <= i < |all| && all[i] == t;
        }
        if t in rows {
          assert t in all;
          var j :| 0 <= j < |all| && all[j] == t;
        }
      }
    }

    /** The kept events in key order are the table's own rows, strictly increasing by id. */
    lemma EventRowsIncreasing(keep: TimelineEvent -> bool)
      requires Valid()
      ensures forall i, j :: 0 <= i < j < |Filter(Ascending(timelineEvents, clock), keep)| ==>
        Filter(Ascending(timelineEvents, clock), keep)[i].id < Filter(Ascending(timelineEvents, clock), keep)[j].id
      ensures forall i :: 0 <= i < |Filter(Ascending(timelineEvents, clock), keep)| ==>
        var t := Filter(Ascending(timelineEvents, clock), keep)[i]; t.id in timelineEvents && timelineEvents[t.id] == t
    {
      var all := Ascending(timelineEvents, clock);
      var rows := Filter(all, keep);
      AscendingRows(timelineEvents, clock, (t: TimelineEvent) => t.id);
      FilterIncreasing(all, keep, (t: TimelineEvent) => t.id);
      forall i | 0 <= i < |rows|
        ensures rows[i].id in timelineEvents && timelineEvents[rows[i].id] == rows[i]
      {
        var a :| 0 <= a < |all| && all[a] == rows[i];
      }
    }

    /** No event is listed twice: the sorted listing's ids are distinct. */
    lemma EventIdsDistinct(keep: TimelineEvent -> bool)
      requires Valid()
      ensures forall i, j :: 0 <= i < j < |Sort(Filter(Ascending(timelineEvents, clock), keep), BySortOrder)| ==>
        Sort(Filter(Ascending(timelineEvents, clock), keep), BySortOrder)[i].id
          != Sort(Filter(Ascending(timelineEvents, clock), keep), BySortOrder)[j].id
    {
      EventRowsIncreasing(keep);
      SortedIdsDistinct(Filter(Ascending(timelineEvents, clock), keep), BySortOrder, timelineEvents,
                        (t: TimelineEvent) => t.id);
    }

    /** Each kept event occurs in the sorted listing exactly once. */
    lemma EventsOnce(keep: TimelineEvent -> bool)
      requires Valid()
      ensures forall k :: k in timelineEvents && keep(timelineEvents[k]) ==>
        multiset(Sort(Filter(Ascending(timelineEvents, clock), keep), BySortOrder))[timelineEvents[k]] == 1
    {
      var rows := Filter(Ascending(timelineEvents, clock), keep);
      var r := Sort(rows, BySortOrder);
      EventRowsIncreasing(keep);
      IncreasingOnce(rows, (t: TimelineEvent) => t.id);
      ListedEvents(keep);
      forall k | k in timelineEvents && keep(timelineEvents[k])
        ensures multiset(r)[timelineEvents[k]] == 1
      {
        assert timelineEvents[k] in r;
      }
    }

    // --- Contradictions ---

    method CreateContradiction(entityId: Id, field: string, oldValue: string, newValue: string,
                               oldSourceSessionId: Option<Id>, newSourceSessionId: Option<Id>)
      returns (c: Contradiction)
      requires Valid()
      modifies this
      ensures Valid()
      ensures c == Contradiction(old(clock), entityId, field, oldValue, newValue,
                                 oldSourceSessionId, newSourceSessionId, None, None, old(clock))
      ensures c.id !in old(contradictions)
      ensures State() == old(State()).(contradictions := old(contradictions)[c.id := c])
      ensures clock == old(clock) + 1
    {
      c := Contradiction(clock, entityId, field, oldValue, newValue,
                         oldSourceSessionId, newSourceSessionId, None, None, clock);
      contradictions := contradictions[clock := c];
      clock := clock + 1;
    }

    /** Every contradiction, newest first. */
    function GetAllContradictions(): (r: seq<Contradiction>)
      reads this
      requires Valid()
      ensures forall k :: k in contradictions ==> contradictions[k] in r
      ensures forall i :: 0 <= i < |r| ==> r[i].id in contradictions && contradictions[r[i].id] == r[i]
      ensures forall i, j :: 0 <= i < j < |r| ==> r[i].createdAt > r[j].createdAt
    {
      DescendingRows(contradictions, clock, (c: Contradiction) => c.id);
      Descending(contradictions, clock)
    }

    /** The contradictions without a resolution, newest first. */
    function GetUnresolvedContradictions(): (r: seq<Contradiction>)
      reads this
      requires Valid()
      ensures forall i, j :: 0 <= i < j < |r| ==> r[i].id > r[j].id && r[i].createdAt > r[j].createdAt
      ensures forall c :: c in r <==>
        c.id in contradictions && contradictions[c.id] == c && c.resolution.None?
    {
      var all := Descending(contradictions, clock);
      var keep := (c: Contradiction) => c.resolution.None?;
      UnresolvedListed(keep);
      DescendingRows(contradictions, clock, (c: Contradiction) => c.id);
      FilterDecreasing(all, keep, (c: Contradiction) => c.id);
      Filter(all, keep)
    }

    lemma UnresolvedListed(keep: Contradiction -> bool)
      requires Valid()
      ensures forall c :: c in Filter(Descending(contradictions, clock), keep) <==>
        c.id in contradictions && contradictions[c.id] == c && keep(c)
    {
      var all := Descending(contradictions, clock);
      DescendingRows(contradictions, clock, (c: Contradiction) => c.id);
      forall c
        ensures c in Filter(all, keep) <==> c.id in contradictions && contradictions[c.id] == c && keep(c)
      {
        if c.id in contradictions && contradictions[c.id] == c && keep(c) {
          var i :| 0 <= i < |all| && all[i] == c;
        }
        if c in Filter(all, keep) {
          assert c in all;
          var j :| 0 <= j < |all| && all[j] == c;
        }
      }
    }

    /** Overwrites resolution and notes whatever they were; omitted notes become null. */
    method ResolveContradiction(id: Id, resolution: ContradictionResolution, notes: Option<string>)
      requires Valid()
      modifies this
      ensures Valid() && clock == old(clock)
      ensures State() == old(State()).(contradictions :=
        if id in old(contradictions)
        then old(contradictions)[id := old(contradictions)[id].(resolution := Some(resolution), notes := notes)]
        else old(contradictions))
    {
      if id in contradictions {
        contradictions := contradictions[id := contradictions[id].(resolution := Some(resolution), notes := notes)];
      }
    }

    // --- Tags ---

    method CreateTag(entityId: Id, tag: string) returns (t: Tag)
      requires Valid()
      modifies this
      ensures Valid()
      ensures t == Tag(old(clock), entityId, tag) && t.id !in old(tags)
      ensures State() == old(State()).(tags := old(tags)[t.id := t])
      ensures clock == old(clock) + 1
    {
      t := Tag(clock, entityId, tag);
      tags := tags[clock := t];
      clock := clock + 1;
    }

    function GetTagsByEntityId(entityId: Id): (r: seq<Tag>)
      reads this
      requires Valid()
      ensures forall i :: 0 <= i < |r| ==>
        r[i].entityId == entityId && r[i].id in tags && tags[r[i].id] == r[i]
      ensures forall k :: k in tags && tags[k].entityId == entityId ==> tags[k] in r
      ensures forall i, j :: 0 <= i < j < |r| ==> r[i].id != r[j].id
    {
      var keep := (t: Tag) => t.entityId == entityId;
      ListedTags(keep);
      Filter(Ascending(tags, clock), keep)
    }

    lemma ListedTags(keep: Tag -> bool)
      requires Valid()
      ensures forall i :: 0 <= i < |Filter(Ascending(tags, clock), keep)| ==>
        var t := Filter(Ascending(tags, clock), keep)[i]; keep(t) && t.id in tags && tags[t.id] == t
      ensures forall k :: k in tags && keep(tags[k]) ==> tags[k] in Filter(Ascending(tags, clock), keep)
      ensures forall i, j :: 0 <= i < j < |Filter(Ascending(tags, clock), keep)| ==>
        Filter(Ascending(tags, clock), keep)[i].id < Filter(Ascending(tags, clock), keep)[j].id
    {
      var all := Ascending(tags, clock);
      var rows := Filter(all, keep);
      AscendingRows(tags, clock, (t: Tag) => t.id);
      FilterIncreasing(all, keep, (t: Tag) => t.id);
      forall i | 0 <= i < |rows|
        ensures rows[i].id in tags && tags[rows[i].id] == rows[i]
      {
        var a :| 0 <= a < |all| && all[a] == rows[i];
      }
    }

    method DeleteTag(id: Id)
      requires Valid()
      modifies this
      ensures Valid() && clock == old(clock)
      ensures State() == old(State()).(tags := old(tags) - {id})
    {
      tags := tags - {id};
    }

    // --- Ingestion queue ---

    method CreateIngestionQueueItem(filename: Option<string>, content: string, inputMethod: IngestionMethod)
      returns (q: QueueItem)
      requires Valid()
      modifies this
      ensures Valid()
      ensures q == QueueItem(old(clock), filename, content, inputMethod, Queued, old(clock))
      ensures q.id !in old(queue)
      ensures State() == old(State()).(queue := old(queue)[q.id := q])
      ensures clock == old(clock) + 1
    {
      q := QueueItem(clock, filename, content, inputMethod, Queued, clock);
      queue := queue[clock := q];
      clock := clock + 1;
    }

    /** The queued item created first, or none when nothing is queued. */
    function GetNextQueueItem(): (r: Option<QueueItem>)
      reads this
      requires Valid()
      ensures r.None? <==> forall k :: k in queue ==> queue[k].status != Queued
      ensures r.Some? ==> r.value.id in queue && queue[r.value.id] == r.value && r.value.status == Queued
      ensures r.Some? ==> forall k :: k in queue && queue[k].status == Queued ==>
        r.value.createdAt <= queue[k].createdAt
    {
      var all := Ascending(queue, clock);
      var waiting := Filter(all, (q: QueueItem) => q.status == Queued);
      FirstQueued(queue, clock);
      if waiting == [] then None else Some(waiting[0])
    }

    method UpdateIngestionStatus(id: Id, status: IngestionStatus)
      requires Valid()
      modifies this
      ensures Valid() && clock == old(clock)
      ensures State() == old(State()).(queue :=
        if id in old(queue) then old(queue)[id := old(queue)[id].(status := status)] else old(queue))
    {
      if id in queue {
        queue := queue[id := queue[id].(status := status)];
      }
    }

    /** Every queue item, newest first. */
    function GetAllIngestionItems(): (r: seq<QueueItem>)
      reads this
      requires Valid()
      ensures forall k :: k in queue ==> queue[k] in r
      ensures forall i :: 0 <= i < |r| ==> r[i].id in queue && queue[r[i].id] == r[i]
      ensures forall i, j :: 0 <= i < j < |r| ==> r[i].createdAt > r[j].createdAt
    {
      DescendingRows(queue, clock, (q: QueueItem) => q.id);
      Descending(queue, clock)
    }

    // --- Dashboard ---

    /** The GROUP BY type query: one (type, count) row per type with approved entities. */
    function TypeRows(): (rows: seq<(EntityType, nat)>)
      reads this
      ensures forall i :: 0 <= i < |rows| ==> rows[i].1 == ApprovedOfType(Ascending(entities, clock), rows[i].0)
      ensures forall t :: ApprovedOfType(Ascending(entities, clock), t) > 0 ==>
        exists i :: 0 <= i < |rows| && rows[i].0 == t
    {
      AllEntityTypesComplete();
      GroupByTypeFacts(Ascending(entities, clock), AllEntityTypes);
      GroupByType(Ascending(entities, clock), AllEntityTypes)
    }

    /**
     * The dashboard counters.  `entitiesByType` is first filled with 0 for all
     * nine types and then overwritten from the GROUP BY rows.
     */
    method GetDashboardStats() returns (stats: DashboardStats)
      requires Valid()
      ensures var ents := Ascending(entities, clock);
        var rels := Ascending(relationships, clock);
        && stats.totalEntities == Count(ents, (e: Entity) => e.status == Approved)
        && stats.totalRelationships == Count(rels, (r: Relationship) => r.status == Approved)
        && stats.totalSessions == |Ascending(sessions, clock)|
        && stats.pendingReview == Count(ents, (e: Entity) => e.status == Proposed)
                                  + Count(rels, (r: Relationship) => r.status == Proposed)
        && stats.unresolvedContradictions
           == Count(Ascending(contradictions, clock), (c: Contradiction) => c.resolution.None?)
      ensures forall t :: t in stats.entitiesByType
      ensures forall t :: stats.entitiesByType[t] == ApprovedOfType(Ascending(entities, clock), t)
      ensures SumByType(stats.entitiesByType, AllEntityTypes) == stats.totalEntities
    {
      var ents := Ascending(entities, clock);
      var rels := Ascending(relationships, clock);
      var totalEntities := Count(ents, (e: Entity) => e.status == Approved);
      var totalRelationships := Count(rels, (r: Relationship) => r.status == Approved);
      var totalSessions := |Ascending(sessions, clock)|;
      var pendingReview := Count(ents, (e: Entity) => e.status == Proposed)
                           + Count(rels, (r: Relationship) => r.status == Proposed);
      var unresolved := Count(Ascending(contradictions, clock), (c: Contradiction) => c.resolution.None?);
      var typeRows := TypeRows();
      var entitiesByType := FillByType(typeRows, ents);
      stats := DashboardStats(totalEntities, totalRelationships, totalSessions,
                              pendingReview, unresolved, entitiesByType);
      SumByTypeMatches(entitiesByType, ents, AllEntityTypes);
      ByTypeAddsUp(ents);
    }
  }

  /** The approved entities of one type among `rows`. */
  function ApprovedOfType(rows: seq<Entity>, t: EntityType): nat
  {
    Count(rows, (e: Entity) => e.status == Approved && e.entityType == t)
  }

  /** The per-type entries of a dashboard map, summed over `types` (a missing entry reads as 0). */
  function SumByType(byType: map<EntityType, nat>, types: seq<EntityType>): nat
  {
    if types == [] then 0
    else (if types[0] in byType then byType[types[0]] else 0) + SumByType(byType, types[1..])
  }

  /** A map holding every type's approved count sums like the counts themselves. */
  lemma {:induction false} SumByTypeMatches(byType: map<EntityType, nat>, rows: seq<Entity>, types: seq<EntityType>)
    requires forall t :: t in byType && byType[t] == ApprovedOfType(rows, t)
    ensures SumByType(byType, types) == SumOverTypes(rows, types)
  {
    if types != [] {
      SumByTypeMatches(byType, rows, types[1..]);
    }
  }

  function SumOverTypes(rows: seq<Entity>, types: seq<EntityType>): nat
  {
    if types == [] then 0 else ApprovedOfType(rows, types[0]) + SumOverTypes(rows, types[1..])
  }

  lemma {:induction false} SumOverTypesSnoc(init: seq<Entity>, e: Entity, types: seq<EntityType>)
    requires forall i, j :: 0 <= i < j < |types| ==> types[i] != types[j]
    ensures SumOverTypes(init + [e], types)
      == SumOverTypes(init, types) + (if e.status == Approved && e.entityType in types then 1 else 0)
  {
    if types != [] {
      SumOverTypesSnoc(init, e, types[1..]);
      assert (init + [e])[..|init + [e]| - 1] == init;
      if e.entityType == types[0] {
        assert e.entityType !in types[1..];
      }
    }
  }

  /** The per-type counts of the dashboard add up to its approved-entity total. */
  lemma {:induction false} ByTypeAddsUp(rows: seq<Entity>)
    ensures SumOverTypes(rows, AllEntityTypes) == Count(rows, (e: Entity) => e.status == Approved)
  {
    if rows == [] {
      assert forall ts: seq<EntityType> :: SumOverTypes([], ts) == 0 by {
        forall ts: seq<EntityType> ensures SumOverTypes([], ts) == 0 {
          SumOverTypesEmpty(ts);
        }
      }
    } else {
      var init := rows[..|rows| - 1];
      var e := rows[|rows| - 1];
      ByTypeAddsUp(init);
      assert rows == init + [e];
      AllEntityTypesComplete();
      AllEntityTypesDistinct();
      SumOverTypesSnoc(init, e, AllEntityTypes);
    }
  }

  lemma {:induction false} SumOverTypesEmpty(types: seq<EntityType>)
    ensures SumOverTypes([], types) == 0
  {
    if types != [] {
      SumOverTypesEmpty(types[1..]);
    }
  }

  function GroupByType(rows: seq<Entity>, types: seq<EntityType>): seq<(EntityType, nat)>
  {
    if types == [] then []
    else
      var rest := GroupByType(rows, types[1..]);
      var n := ApprovedOfType(rows, types[0]);
      if n > 0 then [(types[0], n)] + rest else rest
  }

  /** Each GROUP BY row carries its type's count, and every type that occurs has a row. */
  lemma {:induction false} GroupByTypeFacts(rows: seq<Entity>, types: seq<EntityType>)
    ensures forall i :: 0 <= i < |GroupByType(rows, types)| ==>
      GroupByType(rows, types)[i].1 == ApprovedOfType(rows, GroupByType(rows, types)[i].0)
    ensures forall t :: t in types && ApprovedOfType(rows, t) > 0 ==>
      exists i :: 0 <= i < |GroupByType(rows, types)| && GroupByType(rows, types)[i].0 == t
  {
    if types != [] {
      GroupByTypeFacts(rows, types[1..]);
      var rest := GroupByType(rows, types[1..]);
      var g := GroupByType(rows, types);
      var h := if ApprovedOfType(rows, types[0]) > 0 then [(types[0], ApprovedOfType(rows, types[0]))] else [];
      assert g == h + rest;
      forall t | t in types && ApprovedOfType(rows, t) > 0
        ensures exists i :: 0 <= i < |g| && g[i].0 == t
      {
        if t == types[0] {
          assert g[0].0 == t;
        } else {
          assert t in types[1..];
          var i :| 0 <= i < |rest| && rest[i].0 == t;
          assert g[|h| + i].0 == t;
        }
      }
    }
  }

  /**
   * The two loops that build `entitiesByType`: every type set to 0, then each
   * GROUP BY row written over its type.
   */
  method FillByType(typeRows: seq<(EntityType, nat)>, ents: seq<Entity>)
    returns (entitiesByType: map<EntityType, nat>)
    requires forall i :: 0 <= i < |typeRows| ==> typeRows[i].1 == ApprovedOfType(ents, typeRows[i].0)
    requires forall t :: ApprovedOfType(ents, t) > 0 ==> exists i :: 0 <= i < |typeRows| && typeRows[i].0 == t
    ensures forall t :: t in entitiesByType && entitiesByType[t] == ApprovedOfType(ents, t)
  {
    entitiesByType := map[];
    for i := 0 to |AllEntityTypes|
      invariant forall t :: t in AllEntityTypes[..i] ==> t in entitiesByType
      invariant forall t :: t in entitiesByType ==> entitiesByType[t] == 0
    {
      entitiesByType := entitiesByType[AllEntityTypes[i] := 0];
    }
    AllEntityTypesComplete();
    assert AllEntityTypes[..|AllEntityTypes|] == AllEntityTypes;
    for i := 0 to |typeRows|
      invariant forall t :: t in entitiesByType
      invariant forall t :: entitiesByType[t] == 0 || entitiesByType[t] == ApprovedOfType(ents, t)
      invariant forall j :: 0 <= j < i ==> entitiesByType[typeRows[j].0] == typeRows[j].1
    {
      entitiesByType := entitiesByType[typeRows[i].0 := typeRows[i].1];
    }
    forall t
      ensures entitiesByType[t] == ApprovedOfType(ents, t)
    {
      if ApprovedOfType(ents, t) > 0 {
        var i :| 0 <= i < |typeRows| && typeRows[i].0 == t;
      }
    }
  }

  lemma {:induction false} ApplySetsAppend(e: Entity, a: seq<ColumnSet>, b: seq<ColumnSet>)
    ensures ApplySets(e, a + b) == ApplySets(ApplySets(e, a), b)
    decreases |a|
  {
    if a != [] {
      assert (a + b)[1..] == a[1..] + b;
      ApplySetsAppend(ApplySet(e, a[0]), a[1..], b);
    } else {
      assert a + b == b;
    }
  }

  /** Applying the name assignment, present exactly when a name is supplied. */
  lemma ApplyName(e: Entity, p: EntityPatch, sets: seq<ColumnSet>)
    requires sets == if p.name.Some? then [SetName(p.name.value)] else []
    ensures ApplySets(e, sets) == e.(name := p.name.GetOr(e.name))
  {
    if p.name.Some? {
      assert sets[1..] == [];
    }
  }

  lemma ApplyDescription(e: Entity, p: EntityPatch, sets: seq<ColumnSet>)
    requires sets == if p.description.Some? then [SetDescription(p.description.value)] else []
    ensures ApplySets(e, sets) == e.(description := p.description.GetOr(e.description))
  {
    if p.description.Some? {
      assert sets[1..] == [];
    }
  }

  lemma ApplyProperties(e: Entity, p: EntityPatch, sets: seq<ColumnSet>)
    requires sets == if p.properties.Some? then [SetProperties(p.properties.value)] else []
    ensures ApplySets(e, sets) == e.(properties := p.properties.GetOr(e.properties))
  {
    if p.properties.Some? {
      assert sets[1..] == [];
    }
  }

  lemma ApplyType(e: Entity, p: EntityPatch, sets: seq<ColumnSet>)
    requires sets == if p.entityType.Some? then [SetType(p.entityType.value)] else []
    ensures ApplySets(e, sets) == e.(entityType := p.entityType.GetOr(e.entityType))
  {
    if p.entityType.Some? {
      assert sets[1..] == [];
    }
  }

  /** The column list built from a patch is empty exactly when nothing is supplied, and applying it gives Patched. */
  lemma SetsMatchPatch(e: Entity, p: EntityPatch, sets: seq<ColumnSet>, now: nat)
    requires sets ==
      (if p.name.Some? then [SetName(p.name.value)] else [])
      + (if p.description.Some? then [SetDescription(p.description.value)] else [])
      + (if p.properties.Some? then [SetProperties(p.properties.value)] else [])
      + (if p.entityType.Some? then [SetType(p.entityType.value)] else [])
    ensures |sets| == 0 <==> NothingSupplied(p)
    ensures ApplySets(e, sets).(updatedAt := now) == Patched(e, p, now)
  {
    var s1 := if p.name.Some? then [SetName(p.name.value)] else [];
    var s2 := if p.description.Some? then [SetDescription(p.description.value)] else [];
    var s3 := if p.properties.Some? then [SetProperties(p.properties.value)] else [];
    var s4 := if p.entityType.Some? then [SetType(p.entityType.value)] else [];
    ApplySetsAppend(e, s1 + s2 + s3, s4);
    ApplySetsAppend(e, s1 + s2, s3);
    ApplySetsAppend(e, s1, s2);
    var e1 := ApplySets(e, s1);
    var e2 := ApplySets(e1, s2);
    var e3 := ApplySets(e2, s3);
    var e4 := ApplySets(e3, s4);
    ApplyName(e, p, s1);
    ApplyDescription(e1, p, s2);
    ApplyProperties(e2, p, s3);
    ApplyType(e3, p, s4);
    assert sets == s1 + s2 + s3 + s4;
  }

}
