/**
 * POST /api/review/batch: applies one review decision to a list of ids, each
 * of which may name an entity or a relationship, and reports how many of
 * them were found.
 */
module ReviewBatch {
  import opened Wrappers
  import opened Json
  import opened Domain
  import opened Store
  import opened Rows

  /**
   * The request body.  `ids` is None when the field is missing or is not an
   * array; `action` is the raw JSON value of the field, None when missing.
   */
  datatype BatchRequest = BatchRequest(ids: Option<seq<Id>>, action: Option<Json>)

  datatype BatchResponse =
    | BadRequest(error: string)
    | Counts(updated: nat, total: nat)

  const MissingFieldsMessage := "ids (array) and action are required"

  /** The request is rejected when ids is not an array or action is falsy. */
  predicate Malformed(req: BatchRequest) {
    req.ids.None? || !TruthyOpt(req.action)
  }

  /** Only the exact string "reject" rejects; every other action approves. */
  function StatusFor(action: Json): (s: EntityStatus)
    ensures s == Rejected <==> action == JString("reject")
    ensures s == Approved <==> action != JString("reject")
  {
    if action == JString("reject") then Rejected else Approved
  }

  /** One id of the loop: an entity wins over a relationship; an unknown id is skipped. */
  function Step(p: (Tables, nat, nat), id: Id, status: EntityStatus): (Tables, nat, nat) {
    var (t, c, n) := p;
    if id in t.entities then
      (t.(entities := t.entities[id := t.entities[id].(status := status, updatedAt := c)]), c + 1, n + 1)
    else if id in t.relationships then
      (t.(relationships := t.relationships[id := t.relationships[id].(status := status)]), c, n + 1)
    else (t, c, n)
  }

  /** The tables, clock and `updated` count after the loop has handled `ids`. */
  function Applied(t: Tables, c: nat, ids: seq<Id>, status: EntityStatus): (Tables, nat, nat)
    decreases |ids|
  {
    if ids == [] then (t, c, 0)
    else Step(Applied(t, c, ids[..|ids| - 1], status), ids[|ids| - 1], status)
  }

  /** The ids the loop finds, in either table. */
  function Found(t: Tables): Id -> bool {
    (id: Id) => id in t.entities || id in t.relationships
  }

  /** The ids the loop finds as entities. */
  function FoundEntity(t: Tables): Id -> bool {
    (id: Id) => id in t.entities
  }

  /** The handler. */
  method Post(kb: KnowledgeBase, req: BatchRequest) returns (resp: BatchResponse)
    requires kb.Valid()
    modifies kb
    ensures kb.Valid()
    ensures Malformed(req) ==>
      resp == BadRequest(MissingFieldsMessage) && kb.State() == old(kb.State()) && kb.clock == old(kb.clock)
    ensures !Malformed(req) ==>
      var r := Applied(old(kb.State()), old(kb.clock), req.ids.value, StatusFor(req.action.value));
      kb.State() == r.0 && kb.clock == r.1 && resp == Counts(r.2, |req.ids.value|)
  {
    if req.ids.None? || !TruthyOpt(req.action) {
      return BadRequest(MissingFieldsMessage);
    }
    var ids := req.ids.value;
    var status := StatusFor(req.action.value);
    var updated := 0;
    for i := 0 to |ids|
      invariant kb.Valid()
      invariant (kb.State(), kb.clock, updated) == Applied(old(kb.State()), old(kb.clock), ids[..i], status)
    {
      assert ids[..i + 1][..i] == ids[..i];
      updated := ApplyOne(kb, ids[i], status, updated);
    }
    assert ids[..|ids|] == ids;
    resp := Counts(updated, |ids|);
  }

  /** One turn of the loop: an entity id is restamped, else a relationship id is updated, else skipped. */
  method ApplyOne(kb: KnowledgeBase, id: Id, status: EntityStatus, updated: nat) returns (updated': nat)
    requires kb.Valid()
    modifies kb
    ensures kb.Valid()
    ensures (kb.State(), kb.clock, updated') == Step((old(kb.State()), old(kb.clock), updated), id, status)
  {
    var entity := kb.GetEntityById(id);
    if entity.Some? {
      kb.UpdateEntityStatus(id, status);
      return updated + 1;
    }
    updated' := updated;
    if id in kb.relationships {
      kb.UpdateRelationshipStatus(id, status);
      updated' := updated + 1;
    }
  }

  /** Only the entity and relationship tables change, and no row is added or removed. */
  lemma {:induction false} AppliedFrame(t: Tables, c: nat, ids: seq<Id>, status: EntityStatus)
    ensures var u := Applied(t, c, ids, status).0;
      && u.entities.Keys == t.entities.Keys && u.relationships.Keys == t.relationships.Keys
      && u.sessions == t.sessions && u.timelineEvents == t.timelineEvents
      && u.contradictions == t.contradictions && u.tags == t.tags && u.queue == t.queue
    decreases |ids|
  {
    if ids != [] {
      var init := ids[..|ids| - 1];
      AppliedFrame(t, c, init, status);
      var p := Applied(t, c, init, status);
      assert Applied(t, c, ids, status) == Step(p, ids[|ids| - 1], status);
      StepFrame(p, ids[|ids| - 1], status);
    }
  }

  /** One step changes only the entity and relationship tables, and keeps their keys. */
  lemma StepFrame(p: (Tables, nat, nat), id: Id, status: EntityStatus)
    ensures var u := Step(p, id, status).0;
      && u.entities.Keys == p.0.entities.Keys && u.relationships.Keys == p.0.relationships.Keys
      && u.sessions == p.0.sessions && u.timelineEvents == p.0.timelineEvents
      && u.contradictions == p.0.contradictions && u.tags == p.0.tags && u.queue == p.0.queue
  {
    var t := p.0;
    if id in t.entities {
      KeysKept(t.entities, id, t.entities[id].(status := status, updatedAt := p.1));
    } else if id in t.relationships {
      KeysKept(t.relationships, id, t.relationships[id].(status := status));
    }
  }

  lemma KeysKept<V>(m: map<Id, V>, k: Id, v: V)
    requires k in m
    ensures m[k := v].Keys == m.Keys
  {
  }

  /**
   * `updated` counts the ids found in either table, duplicates each time, so
   * it never exceeds `total`; the clock advances once per entity hit.
   */
  lemma {:induction false} AppliedCounts(t: Tables, c: nat, ids: seq<Id>, status: EntityStatus)
    ensures Applied(t, c, ids, status).2 == Count(ids, Found(t)) <= |ids|
    ensures Applied(t, c, ids, status).1 == c + Count(ids, FoundEntity(t))
    decreases |ids|
  {
    if ids != [] {
      var init := ids[..|ids| - 1];
      AppliedCounts(t, c, init, status);
      AppliedFrame(t, c, init, status);
    }
  }

  /**
   * Every entity named in `ids` gets the status, whatever it was, and a fresh
   * `updated_at`; no other entity changes.
   */
  lemma {:induction false} AppliedEntities(t: Tables, c: nat, ids: seq<Id>, status: EntityStatus)
    ensures var r := Applied(t, c, ids, status);
      forall k :: k in t.entities ==>
        && k in r.0.entities
        && (k !in ids ==> r.0.entities[k] == t.entities[k])
        && (k in ids ==>
              r.0.entities[k] == t.entities[k].(status := status, updatedAt := r.0.entities[k].updatedAt)
              && c <= r.0.entities[k].updatedAt < r.1)
  {
    forall k | k in t.entities
      ensures var r := Applied(t, c, ids, status);
        && k in r.0.entities
        && (k !in ids ==> r.0.entities[k] == t.entities[k])
        && (k in ids ==>
              r.0.entities[k] == t.entities[k].(status := status, updatedAt := r.0.entities[k].updatedAt)
              && c <= r.0.entities[k].updatedAt < r.1)
    {
      AppliedEntity(t, c, ids, status, k);
    }
  }

  /** AppliedEntities for one entity row, by induction on `ids`. */
  lemma {:induction false} AppliedEntity(t: Tables, c: nat, ids: seq<Id>, status: EntityStatus, k: Id)
    requires k in t.entities
    ensures var r := Applied(t, c, ids, status);
      && k in r.0.entities
      && (k !in ids ==> r.0.entities[k] == t.entities[k])
      && (k in ids ==>
            r.0.entities[k] == t.entities[k].(status := status, updatedAt := r.0.entities[k].updatedAt)
            && c <= r.0.entities[k].updatedAt < r.1)
    decreases |ids|
  {
    if ids != [] {
      var init := ids[..|ids| - 1];
      var last := ids[|ids| - 1];
      AppliedEntity(t, c, init, status, k);
      AppliedCounts(t, c, init, status);
      var p := Applied(t, c, init, status);
      var q := Applied(t, c, ids, status);
      assert q == Step(p, last, status);
      assert k in ids <==> k in init || k == last;
      if k == last {
        assert q.0.entities[k] == p.0.entities[k].(status := status, updatedAt := p.1) && q.1 == p.1 + 1;
      } else {
        assert q.0.entities[k] == p.0.entities[k] && p.1 <= q.1;
      }
    }
  }

  /**
   * A relationship changes exactly when its id is in `ids` and is not an
   * entity id: an id found as an entity is never applied to a relationship.
   */
  lemma AppliedRelationships(t: Tables, c: nat, ids: seq<Id>, status: EntityStatus)
    ensures var u := Applied(t, c, ids, status).0;
      forall k :: k in t.relationships ==>
        && k in u.relationships
        && u.relationships[k] ==
             if k in ids && k !in t.entities then t.relationships[k].(status := status)
             else t.relationships[k]
  {
    forall k | k in t.relationships
      ensures var u := Applied(t, c, ids, status).0;
        && k in u.relationships
        && u.relationships[k] ==
             if k in ids && k !in t.entities then t.relationships[k].(status := status)
             else t.relationships[k]
    {
      AppliedRelationship(t, c, ids, status, k);
    }
  }

  /** AppliedRelationships for one relationship row, by induction on `ids`. */
  lemma {:induction false} AppliedRelationship(t: Tables, c: nat, ids: seq<Id>, status: EntityStatus, k: Id)
    requires k in t.relationships
    ensures var u := Applied(t, c, ids, status).0;
      && k in u.relationships
      && u.relationships[k] ==
           if k in ids && k !in t.entities then t.relationships[k].(status := status)
           else t.relationships[k]
    decreases |ids|
  {
    if ids != [] {
      var init := ids[..|ids| - 1];
      var last := ids[|ids| - 1];
      AppliedRelationship(t, c, init, status, k);
      AppliedFrame(t, c, init, status);
      var p := Applied(t, c, init, status);
      assert Applied(t, c, ids, status) == Step(p, last, status);
      assert k in ids <==> k in init || k == last;
      StepRelationship(p, last, status, k);
    }
  }

  /** One step of the loop changes relationship k only when k is the id and no entity has it. */
  lemma StepRelationship(p: (Tables, nat, nat), id: Id, status: EntityStatus, k: Id)
    requires k in p.0.relationships
    ensures var u := Step(p, id, status).0;
      && k in u.relationships
      && u.relationships[k] ==
           if k == id && id !in p.0.entities then p.0.relationships[k].(status := status)
           else p.0.relationships[k]
  {
    var rels := p.0.relationships;
    if id !in p.0.entities && id in rels {
      assert Step(p, id, status).0.relationships == rels[id := rels[id].(status := status)];
    } else {
      assert Step(p, id, status).0.relationships == rels;
    }
  }
}
