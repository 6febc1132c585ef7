/**
 * GET /api/timeline: every timeline event, in sort_order, with the name and
 * type of the entity it belongs to, or "Unknown"/"unknown" when that entity
 * is gone.
 */
module Timeline {
  import opened Wrappers
  import opened Domain
  import opened Store

  /** An event with its entity's name and type text attached. */
  datatype EnrichedEvent = EnrichedEvent(event: TimelineEvent, entityName: string, entityType: string)

  const UnknownName := "Unknown"
  const UnknownType := "unknown"

  /** Attaches the looked-up entity, or the two defaults when the lookup found nothing. */
  function Enrich(ev: TimelineEvent, entity: Option<Entity>): (r: EnrichedEvent)
    ensures r.event == ev
    ensures entity.Some? ==> r.entityName == entity.value.name && r.entityType == EntityTypeName(entity.value.entityType)
    ensures entity.None? <==> r.entityType == UnknownType
    ensures entity.None? ==> r.entityName == UnknownName
  {
    match entity
    case Some(e) => EnrichedEvent(ev, e.name, EntityTypeName(e.entityType))
    case None => EnrichedEvent(ev, UnknownName, UnknownType)
  }

  /** The handler. */
  method Get(kb: KnowledgeBase) returns (enriched: seq<EnrichedEvent>)
    requires kb.Valid()
    ensures var events := kb.GetAllTimelineEvents();
      && |enriched| == |events|
      && forall i :: 0 <= i < |enriched| ==>
           enriched[i] == Enrich(events[i], kb.GetEntityById(events[i].entityId))
    ensures forall i, j :: 0 <= i < j < |enriched| ==> enriched[i].event.id != enriched[j].event.id
    ensures forall k :: k in kb.timelineEvents ==>
      exists i :: 0 <= i < |enriched| && enriched[i].event == kb.timelineEvents[k]
  {
    var events := kb.GetAllTimelineEvents();
    enriched := seq(|events|, i requires 0 <= i < |events| && kb.Valid() reads kb =>
      Enrich(events[i], kb.GetEntityById(events[i].entityId)));
    forall k | k in kb.timelineEvents
      ensures exists i :: 0 <= i < |enriched| && enriched[i].event == kb.timelineEvents[k]
    {
      assert kb.timelineEvents[k] in events;
      var i :| 0 <= i < |events| && events[i] == kb.timelineEvents[k];
      assert enriched[i].event == events[i];
    }
  }
}
