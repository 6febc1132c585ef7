/**
 * The record types and enumerations of the knowledge base.
 *
 * String identifiers (UUIDs in the application) are modelled as natural
 * numbers handed out by the store's counter, and every SQL `datetime('now')`
 * timestamp as a reading of that same counter, so "ordered by created_at" is
 * "ordered by id".  Entity `properties` are kept as a parsed JSON value.
 */
module Domain {
  import opened Wrappers
  import opened Json

  type Id = nat

  datatype EntityType =
    | Character | Faction | Location | Race | Event | Item | Lore | Quest | Creature

  /** The nine entity types in the order the dashboard lists them. */
  const AllEntityTypes: seq<EntityType> :=
    [Character, Faction, Location, Race, Event, Item, Lore, Quest, Creature]

  /** The type column's text, as the database stores it. */
  function EntityTypeName(t: EntityType): (s: string)
    ensures s != "unknown" && s != ""
  {
    match t
    case Character => "character"
    case Faction => "faction"
    case Location => "location"
    case Race => "race"
    case Event => "event"
    case Item => "item"
    case Lore => "lore"
    case Quest => "quest"
    case Creature => "creature"
  }

  /** Different types are stored as different text. */
  lemma EntityTypeNameInjective(a: EntityType, b: EntityType)
    ensures EntityTypeName(a) == EntityTypeName(b) ==> a == b
  {
  }

  lemma AllEntityTypesComplete()
    ensures forall t: EntityType :: t in AllEntityTypes
  {
    forall t: EntityType
      ensures t in AllEntityTypes
    {
      match t
      case Character => assert AllEntityTypes[0] == t;
      case Faction => assert AllEntityTypes[1] == t;
      case Location => assert AllEntityTypes[2] == t;
      case Race => assert AllEntityTypes[3] == t;
      case Event => assert AllEntityTypes[4] == t;
      case Item => assert AllEntityTypes[5] == t;
      case Lore => assert AllEntityTypes[6] == t;
      case Quest => assert AllEntityTypes[7] == t;
      case Creature => assert AllEntityTypes[8] == t;
    }
  }

  /** The position of a type in AllEntityTypes. */
  function TypeIndex(t: EntityType): nat
  {
    match t
    case Character => 0
    case Faction => 1
    case Location => 2
    case Race => 3
    case Event => 4
    case Item => 5
    case Lore => 6
    case Quest => 7
    case Creature => 8
  }

  lemma AllEntityTypesDistinct()
    ensures forall i, j :: 0 <= i < j < |AllEntityTypes| ==> AllEntityTypes[i] != AllEntityTypes[j]
  {
    forall i | 0 <= i < |AllEntityTypes|
      ensures TypeIndex(AllEntityTypes[i]) == i
    {
    }
  }

  datatype EntityStatus = Proposed | Approved | Rejected

  datatype RelationshipType =
    | AlliedWith | EnemyOf | Betrayed | Serves | ParentOf | ChildOf
    | MemberOf | LocatedIn | InvolvedIn | Owns | Created | Knows
    | Employs | Worships | Rules | Guards | Hunts | TradesWith

  datatype ContradictionResolution = KeptOld | KeptNew | Merged

  datatype IngestionMethod = File | Upload | Paste

  datatype IngestionStatus = Queued | Processing | Completed | Failed

  datatype SessionStatus = Pending | Processed

  datatype Session = Session(
    id: Id,
    title: string,
    date: string,
    rawText: string,
    summary: Option<string>,
    sourceFile: Option<string>,
    status: SessionStatus,
    createdAt: nat)

  datatype Entity = Entity(
    id: Id,
    name: string,
    entityType: EntityType,
    description: string,
    properties: Json,
    status: EntityStatus,
    sourceSessionId: Option<Id>,
    createdAt: nat,
    updatedAt: nat)

  datatype Relationship = Relationship(
    id: Id,
    sourceEntityId: Id,
    targetEntityId: Id,
    relType: RelationshipType,
    description: Option<string>,
    confidence: real,
    status: EntityStatus,
    sourceSessionId: Option<Id>,
    createdAt: nat)

  datatype TimelineEvent = TimelineEvent(
    id: Id,
    entityId: Id,
    dateDescription: string,
    sortOrder: int,
    sessionNumber: Option<int>)

  datatype Contradiction = Contradiction(
    id: Id,
    entityId: Id,
    field: string,
    oldValue: string,
    newValue: string,
    oldSourceSessionId: Option<Id>,
    newSourceSessionId: Option<Id>,
    resolution: Option<ContradictionResolution>,
    notes: Option<string>,
    createdAt: nat)

  datatype Tag = Tag(id: Id, entityId: Id, tag: string)

  datatype QueueItem = QueueItem(
    id: Id,
    filename: Option<string>,
    content: string,
    inputMethod: IngestionMethod,
    status: IngestionStatus,
    createdAt: nat)

  /** What the extraction model returns for one chunk, already typed. */
  datatype ExtractedEntity = ExtractedEntity(
    name: string,
    entityType: EntityType,
    description: string,
    properties: Option<Json>,
    confidence: real,
    isExisting: bool,
    existingEntityId: Option<string>)

  datatype ExtractedRelationship = ExtractedRelationship(
    sourceEntityName: string,
    targetEntityName: string,
    relType: RelationshipType,
    description: string,
    confidence: real)

  datatype ExtractedTimelineEvent = ExtractedTimelineEvent(
    entityName: string,
    dateDescription: string,
    sortOrder: int)

  datatype ExtractedContradiction = ExtractedContradiction(
    entityName: string,
    field: string,
    oldValue: string,
    newValue: string,
    explanation: string)

  datatype ExtractionResult = ExtractionResult(
    entities: seq<ExtractedEntity>,
    relationships: seq<ExtractedRelationship>,
    timelineEvents: seq<ExtractedTimelineEvent>,
    contradictions: seq<ExtractedContradiction>)

  datatype GraphNode = GraphNode(id: Id, name: string, entityType: EntityType, connectionCount: nat)

  datatype GraphEdge = GraphEdge(source: Id, target: Id, relType: RelationshipType, description: Option<string>)

  datatype DashboardStats = DashboardStats(
    totalEntities: nat,
    totalRelationships: nat,
    totalSessions: nat,
    pendingReview: nat,
    unresolvedContradictions: nat,
    entitiesByType: map<EntityType, nat>)
}
