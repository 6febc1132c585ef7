# Loreweaver ingestion back end, in Dafny

Loreweaver turns tabletop-campaign session transcripts into a reviewable
knowledge base. A transcript is queued and cut into overlapping chunks of
paragraphs. Each chunk is sent to a language model, which proposes entities,
relationships, timeline events and contradictions. These are stored as
*proposed* rows that a game master approves or rejects, one at a time or in
batches. Approved entities and relationships form the campaign graph and
timeline.

This project models the back end of that pipeline:

- the chunker;
- the queue processor that writes proposals into the store;
- the store's queries, as a class over maps keyed by row id;
- the batch review route;
- the graph and timeline read routes;
- the route that drains the queue;
- the parser for the model's output (`src/lib/ai/anthropic-api.ts` and `src/lib/ai/claude-code.ts` carry identical copies, so one function models both);
- the file parsers;
- the prompts;
- the configuration and settings;
- the stored OAuth credentials.

Code that works step by step is modelled as methods with loop invariants. Each
method is proved against a functional specification, and lemmas state what that
specification guarantees.

The store is a class whose tables are `map<Id, Row>` fields. One counter,
`clock`, hands out both fresh ids and creation times. So "ORDER BY created_at"
is ascending key order, and the creation time of every row equals its id.

Three things become parameters:

- calls into the language model become a function `(chunk text, known names) -> Option<ExtractionResult>`;
- `JSON.parse` becomes a parameter;
- the current time becomes a parameter.

## Model

| member | source | states |
|---|---|---|
| Chunker.CountFromConcat | src/lib/ingestion/chunker.ts:60-61 | the word count of a concatenation is the count of the first part plus the count of the second, where the second part's first word counts only when the first part ends in whitespace |
| Chunker.CountWords | src/lib/ingestion/chunker.ts:60-62 | the word count is 0 exactly when the text is all whitespace, and never exceeds the text's length |
| Chunker.CountFromBounds | src/lib/ingestion/chunker.ts:60-62 | each character starts at most one word, blank text has none, and a non-space character after a space starts one |
| Chunker.SumWordsAppend | src/lib/ingestion/chunker.ts:42-43 | the running word total of a paragraph list is additive over appends |
| Chunker.CountWordsJoin | src/lib/ingestion/chunker.ts:39-40 | countWords of the paragraphs joined by a blank line equals the sum of their separate counts, so the recount after seeding equals the running total |
| Chunker.SplitFrom | src/lib/ingestion/chunker.ts:11-12 | splitting whitespace-only text on blank lines yields only whitespace-only pieces |
| Chunker.NonBlank | src/lib/ingestion/chunker.ts:13-14 | every piece kept after trim-and-filter is non-empty and already trimmed |
| Chunker.NonBlankOfBlank | src/lib/ingestion/chunker.ts:13-14 | trim-and-filter keeps nothing from a list of whitespace-only pieces |
| Chunker.BlankTextHasNoParagraphs | src/lib/ingestion/chunker.ts:11-18 | empty or whitespace-only text has no paragraph, which is the early return of an empty chunk list |
| Chunker.OverlapStartFacts | src/lib/ingestion/chunker.ts:68-75 | the backward scan stops at a start whose suffix is within the word target (or a single paragraph), and where taking one more paragraph would pass the target |
| Chunker.OverlapFacts | src/lib/ingestion/chunker.ts:64-78 | the overlap is a suffix of the paragraphs, is non-empty for non-empty input, is within the target unless it is one paragraph, and is maximal |
| Chunker.OverlapGrows | src/lib/ingestion/chunker.ts:69-74 | one turn of the loop that takes paragraph i adds it in front and adds its count to the running total |
| Chunker.OverlapParagraphs | src/lib/ingestion/chunker.ts:64-78 | the loop returns exactly the overlap function's suffix: non-empty for non-empty input, within the target or a single paragraph |
| Chunker.StepSplits | src/lib/ingestion/chunker.ts:28-40 | a split step (the paragraph does not fit and the current chunk is non-empty) keeps the loop invariant of chunkText |
| Chunker.StepAppends | src/lib/ingestion/chunker.ts:41-44 | an append step keeps the loop invariant of chunkText |
| Chunker.AppendedBodies | src/lib/ingestion/chunker.ts:42 | appending a paragraph to the current chunk appends it to the concatenation of all bodies |
| Chunker.AppendedPacked | src/lib/ingestion/chunker.ts:41-44 | appending a paragraph that fits keeps every chunk within the target (apart from its opening paragraph) |
| Chunker.PackInvariant | src/lib/ingestion/chunker.ts:25-45 | after any prefix of paragraphs the finished chunks and the current one are well packed, and their bodies are exactly that prefix |
| Chunker.GroupsWellPacked | src/lib/ingestion/chunker.ts:25-55 | every chunk has a non-empty body; each chunk after the first is seeded by the previous one's overlap; the bodies, concatenated, are exactly the paragraphs; there are no chunks exactly when there are no paragraphs |
| Chunker.NoParagraphsNoChunks | src/lib/ingestion/chunker.ts:16-18 | no paragraphs means no chunks, and at least one paragraph means at least one chunk |
| Chunker.ChunksOfShape | src/lib/ingestion/chunker.ts:31-35 | chunk k carries index k and is built from the k-th paragraph group |
| Chunker.ChunkShape | src/lib/ingestion/chunker.ts:30-54 | chunk k has index k and text equal to its paragraphs joined by a blank line; its word count is countWords of that text and also the sum of its paragraphs' counts |
| Chunker.OverlapBetweenChunks | src/lib/ingestion/chunker.ts:37-39 | each chunk after the first opens with a non-empty suffix of the previous chunk's paragraphs (within OVERLAP_WORDS unless a single paragraph), followed by the paragraph that did not fit there |
| Chunker.ChunkSizeBound | src/lib/ingestion/chunker.ts:28-44 | a chunk's words stay within TARGET_WORDS, unless it is its overlap seed plus the one paragraph that opened it |
| Chunker.SplitStep | src/lib/ingestion/chunker.ts:28-40 | a split emits the current chunk with the next index, its joined text and its running count, and restarts from the overlap plus the paragraph |
| Chunker.AppendStep | src/lib/ingestion/chunker.ts:41-44 | an append emits nothing, adds the paragraph and adds its count |
| Chunker.FinalChunks | src/lib/ingestion/chunker.ts:47-55 | the result is the emitted chunks plus the last, still-open chunk when it has any paragraph |
| Chunker.Absorb | src/lib/ingestion/chunker.ts:25-45 | one turn of the paragraph loop moves the loop variables (chunks, current paragraphs, count, index) exactly as one step of the specification function PackAll does |
| Chunker.PackParagraphs | src/lib/ingestion/chunker.ts:16-57 | the loop returns exactly the chunks that ChunkSpec specifies |
| Chunker.ChunkText | src/lib/ingestion/chunker.ts:10-58 | chunkText returns the specified chunks of the text's paragraphs; chunk k has index k and a word count equal to countWords of its text |
| Processor.RowsFromKeys | src/lib/ingestion/processor.ts:52-59 | the rows written for a list of items sit exactly under the consecutive fresh ids base, base+1, ..., and row base+i is made from item i |
| Processor.NameToIdLastWins | src/lib/ingestion/processor.ts:60 | in a chunk's name-to-id record, a name maps to the id of the last entity of that chunk carrying the name |
| Processor.NameToIdCovers | src/lib/ingestion/processor.ts:60 | every entity name of the chunk is in its name-to-id record |
| Processor.NameToIdRange | src/lib/ingestion/processor.ts:52-60 | the ids in a chunk's record are ids of the entities that chunk created |
| Processor.AddNames | src/lib/ingestion/processor.ts:63-65 | the known-names list only grows: the old list is a prefix of the new one |
| Processor.AddNamesFacts | src/lib/ingestion/processor.ts:62-65 | every extracted name ends up on the list; every name on it was known or extracted; each appended name is new and appears once |
| Processor.EntityPrefixStep | src/lib/ingestion/processor.ts:51-65 | handling one more entity sets its name to the new id and appends the name only when it is not yet known |
| Processor.ResolvedRelationshipsPrefix | src/lib/ingestion/processor.ts:69-84 | one more relationship is kept, with its two ids, exactly when both names resolve, and is dropped otherwise |
| Processor.ResolvedRelationshipsFacts | src/lib/ingestion/processor.ts:69-84 | the relationships kept are exactly those whose two names both resolve, with the ids the record gives them |
| Processor.ResolvedEventsPrefix | src/lib/ingestion/processor.ts:87-96 | one more event is kept exactly when its entity name resolves |
| Processor.ResolvedEventsFacts | src/lib/ingestion/processor.ts:87-96 | the events kept are exactly those whose entity name resolves, with the resolved id |
| Processor.ResolvedContradictionsPrefix | src/lib/ingestion/processor.ts:99-110 | one more contradiction is kept exactly when its entity name resolves |
| Processor.ResolvedContradictionsFacts | src/lib/ingestion/processor.ts:99-110 | the contradictions kept are exactly those whose entity name resolves, with the resolved id |
| Processor.CreateOne | src/lib/ingestion/processor.ts:52-59 | createEntity writes one proposed entity of the session under the next id, with missing or null properties stored as {}, and advances the counter by one |
| Processor.EntityIteration | src/lib/ingestion/processor.ts:51-66 | one turn of the entity loop adds the row and grows the name record and the known list by that entity |
| Processor.CreateEntities | src/lib/ingestion/processor.ts:51-66 | the entity loop adds one proposed row per extracted entity, and returns the name record and the grown known list |
| Processor.RelationshipIteration | src/lib/ingestion/processor.ts:69-84 | one turn of the relationship loop adds a row exactly when both names resolve |
| Processor.CreateRelationships | src/lib/ingestion/processor.ts:69-84 | the relationship loop adds one proposed row of the session for each relationship whose two names resolve, in order |
| Processor.EventIteration | src/lib/ingestion/processor.ts:87-96 | one turn of the timeline loop adds a row exactly when the name resolves |
| Processor.CreateEvents | src/lib/ingestion/processor.ts:87-96 | the timeline loop adds a row, with no session number, for each event whose name resolves |
| Processor.ContradictionIteration | src/lib/ingestion/processor.ts:99-110 | one turn of the contradiction loop adds a row exactly when the name resolves |
| Processor.CreateContradictions | src/lib/ingestion/processor.ts:99-110 | the contradiction loop adds a row, naming the session as its new source, for each contradiction whose name resolves |
| Processor.ReconcileChunk | src/lib/ingestion/processor.ts:45-110 | one chunk's result is written as the four loops in order, and the known list grows by the chunk's new names |
| Processor.ChunkRowsEntities | src/lib/ingestion/processor.ts:51-66 | after a chunk, the entities are the previous ones plus one row per extracted entity |
| Processor.ChunkRowsRelationships | src/lib/ingestion/processor.ts:69-84 | after a chunk, the relationships are the previous ones plus the resolved relationships, under the ids that follow the entities |
| Processor.ChunkRowsEvents | src/lib/ingestion/processor.ts:87-96 | after a chunk, the timeline events are the previous ones plus the resolved events |
| Processor.ChunkRowsContradictions | src/lib/ingestion/processor.ts:99-110 | after a chunk, the contradictions are the previous ones plus the resolved contradictions |
| Processor.ChunkRowsShape | src/lib/ingestion/processor.ts:43-110 | a chunk only adds rows, under fresh keys, and every added row belongs to the session |
| Processor.ChunkRowsGrow | src/lib/ingestion/processor.ts:43-110 | a chunk keeps every existing row and puts its new rows below the new counter |
| Processor.EntitiesStage | src/lib/ingestion/processor.ts:51-66 | the entity stage only adds rows, under keys below the new counter |
| Processor.RelationshipsStage | src/lib/ingestion/processor.ts:69-84 | the relationship stage only adds rows, under keys below the new counter |
| Processor.EventsStage | src/lib/ingestion/processor.ts:87-96 | the timeline stage only adds rows, under keys below the new counter |
| Processor.ContradictionsStage | src/lib/ingestion/processor.ts:99-110 | the contradiction stage only adds rows, under keys below the new counter |
| Processor.RowsAdded | src/lib/ingestion/processor.ts:52-59 | rows written from a fresh id on leave every older row as it was |
| Processor.ChunkEntitiesOwned | src/lib/ingestion/processor.ts:52-59 | each entity a chunk adds is proposed and names the session as its source |
| Processor.ChunkRelationshipsOwned | src/lib/ingestion/processor.ts:73-83 | each relationship a chunk adds is proposed, names the session, and joins two entities that the same chunk added |
| Processor.RelationshipRowOwned | src/lib/ingestion/processor.ts:73-83 | one added relationship row is proposed, names the session, and references two entities new in the chunk |
| Processor.ChunkEventsOwned | src/lib/ingestion/processor.ts:89-95 | each timeline event a chunk adds has no session number and references an entity that the same chunk added |
| Processor.EventRowOwned | src/lib/ingestion/processor.ts:89-95 | one added event row has no session number and references an entity new in the chunk |
| Processor.ChunkContradictionsOwned | src/lib/ingestion/processor.ts:101-109 | each contradiction a chunk adds names the session as its new source only, has no resolution and no notes, and references an entity that the same chunk added |
| Processor.ContradictionRowOwned | src/lib/ingestion/processor.ts:101-109 | one added contradiction row has no old source, no resolution and no notes, and references an entity new in the chunk |
| Processor.NameIdIsNew | src/lib/ingestion/processor.ts:70-71 | a name that the chunk resolves points at an entity that chunk added, never at an older entity |
| Processor.ChunkRelationshipsResolve | src/lib/ingestion/processor.ts:69-84 | an added relationship joins the last entities of the chunk carrying its source and target names, and copies the type, description and confidence |
| Processor.RelationshipRowSource | src/lib/ingestion/processor.ts:70-82 | an added relationship row comes from an extracted relationship whose names resolve to its two ends |
| Processor.NameToIdLastNamed | src/lib/ingestion/processor.ts:60 | the id recorded for a name is the last entity of the chunk with that name |
| Processor.ChunkEventsResolve | src/lib/ingestion/processor.ts:87-96 | an added timeline event references the last entity of the chunk with its name, and copies the date description and sort order |
| Processor.EventRowSource | src/lib/ingestion/processor.ts:88-94 | an added event row comes from an extracted event whose name resolves to its entity |
| Processor.ChunkContradictionsResolve | src/lib/ingestion/processor.ts:99-110 | an added contradiction references the last entity of the chunk with its name, and copies the field and the old and new values |
| Processor.ContradictionRowSource | src/lib/ingestion/processor.ts:100-108 | an added contradiction row comes from an extracted contradiction whose name resolves to its entity |
| Processor.KnownAfter | src/lib/ingestion/processor.ts:40-65 | the list shown to the model starts with the approved names and only grows across chunks |
| Processor.ExtendsTransitive | src/lib/ingestion/processor.ts:43-115 | adding session rows twice is adding session rows once |
| Processor.NewEntityTransitive | src/lib/ingestion/processor.ts:43-115 | an entity new in either of two runs is new over both |
| Processor.RunChunksShape | src/lib/ingestion/processor.ts:43-115 | the chunk loop only adds rows, under fresh keys, and every row it adds belongs to the session |
| Processor.RunChunksKeeps | src/lib/ingestion/processor.ts:43-115 | the chunk loop changes neither the sessions nor the queue |
| Processor.ChunkRowsKeeps | src/lib/ingestion/processor.ts:45-110 | one chunk changes neither the sessions nor the queue |
| Processor.KnownGrows | src/lib/ingestion/processor.ts:62-65 | the names shown to an earlier chunk are a prefix of those shown to any later one |
| Processor.KnownDistinct | src/lib/ingestion/processor.ts:62-65 | the names after the approved ones are distinct and none of them is approved |
| Processor.KnownCovers | src/lib/ingestion/processor.ts:62-65 | every entity name extracted from a chunk is on the final list |
| Processor.FilenameOr | src/lib/ingestion/processor.ts:30 | the session title is the filename when it is present and non-empty, and the fallback otherwise |
| Processor.SourceFileOf | src/lib/ingestion/processor.ts:33 | the source file is set exactly when the filename is present and non-empty |
| Processor.ProcessChunks | src/lib/ingestion/processor.ts:43-115 | the chunk loop skips chunks whose extraction throws and writes every other chunk's rows, and returns the final known list |
| Processor.OpenSession | src/lib/ingestion/processor.ts:29-34 | the session is created as pending under the next id, titled by the filename or "Ingested <date>" |
| Processor.FailClaimed | src/lib/ingestion/processor.ts:121-122 | a failure before the session exists leaves only the item's status changed, to failed |
| Processor.FailOpened | src/lib/ingestion/processor.ts:121-122 | a failure after the session exists marks the item failed and keeps the pending session |
| Processor.RunOpened | src/lib/ingestion/processor.ts:37-118 | once the session is open, the chunks are run; then the session is marked processed and the item completed |
| Processor.ClaimedThenFailed | src/lib/ingestion/processor.ts:25 | claiming an item and then failing it leaves it failed and otherwise unchanged |
| Processor.OpenedThenFailed | src/lib/ingestion/processor.ts:25-34 | opening the session and then failing the item keeps the pending session |
| Processor.ClaimedIs | src/lib/ingestion/processor.ts:25-34 | claiming the item and then opening its session gives the claimed state |
| Processor.FinishRun | src/lib/ingestion/processor.ts:117-120 | closing the session and the item after the loop gives the specified end state |
| Processor.ProcessItem | src/lib/ingestion/processor.ts:25-125 | processing a dequeued item: with no setup fault, the session is opened, every chunk is run, and success names the session; if the session insert fails, only the item is marked failed; if the listing fails, the item is failed and the session stays pending |
| Processor.ProcessNextQueueItem | src/lib/ingestion/processor.ts:15-126 | an empty queue returns "No items in queue" and changes nothing; otherwise the oldest queued item is processed as ProcessItem states |
| Processor.Dispatch | src/lib/ai/index.ts:5-21 | without a truthy ai.apiKey every extraction throws before any request; with one, the call goes to the API extractor |
| Processor.NothingExtracted | src/lib/ingestion/processor.ts:43-115 | when every extraction throws, the chunk loop writes no row and issues no id |
| Processor.KeylessRun | src/lib/ai/index.ts:11-13 | without an API key a run opens the session, writes no extracted row, marks the session processed and completes the item |
| Store.Patched | src/lib/db/queries.ts:120-150 | a partial update replaces exactly the supplied fields among name, description, properties and type, and stamps updated_at; id, status, source session and created_at are kept |
| Store.ColumnSets | src/lib/db/queries.ts:125-143 | the SET list is empty exactly when no field is supplied, and applying it and stamping the time gives the patched row |
| Store.SetsMatchPatch | src/lib/db/queries.ts:125-147 | the four conditional column assignments, in column order, amount to the patched row |
| Store.ApplySetsAppend | src/lib/db/queries.ts:147-150 | applying two lists of column assignments one after the other is applying their concatenation |
| Store.ApplyName | src/lib/db/queries.ts:128-131 | the name assignment is present exactly when a name is supplied, and sets only the name |
| Store.ApplyDescription | src/lib/db/queries.ts:132-135 | the description assignment sets only the description, and only when one is supplied |
| Store.ApplyProperties | src/lib/db/queries.ts:136-139 | the properties assignment sets only the properties, and only when they are supplied |
| Store.ApplyType | src/lib/db/queries.ts:140-143 | the type assignment sets only the type, and only when one is supplied |
| Store.ListingSkip | src/lib/db/queries.ts:56-79 | handing out an id that names no entity leaves every entity listing unchanged |
| Store.FirstQueued | src/lib/db/queries.ts:363-369 | the first queued row in key order exists exactly when something is queued, and no queued row was created before it |
| Store.QueuedNotBefore | src/lib/db/queries.ts:363-369 | every queued row was created no earlier than the head of the waiting list |
| Store.Keep | src/lib/db/queries.ts:161-170 | a conditional delete keeps exactly the rows that do not match, unchanged |
| Store.WithoutEntity | src/lib/db/queries.ts:161-171 | deleting an entity removes it, its tags, its timeline events, its contradictions and every relationship it is either end of, and leaves every other row as it was |
| Store.WithoutEntityLeavesNoReference | src/lib/db/queries.ts:161-171 | after the delete no remaining tag, event, contradiction or relationship refers to the deleted entity |
| Store.WithoutEntityWellKeyed | src/lib/db/queries.ts:161-171 | the delete keeps every remaining row under its own id, below the counter |
| Store.ByNameIsOrder | src/lib/db/queries.ts:90-101 | ORDER BY name is a total, transitive order |
| Store.BySortOrderIsOrder | src/lib/db/queries.ts:260-264 | ORDER BY sort_order is a total, transitive order |
| Store.KnowledgeBase.constructor | src/lib/db/queries.ts:22-36 | a new store has empty tables |
| Store.KnowledgeBase.CreateSession | src/lib/db/queries.ts:22-36 | the new session is pending, has a fresh id, and is the only change |
| Store.KnowledgeBase.GetSessionById | src/lib/db/queries.ts:38-42 | the session stored under the id, or none exactly when there is no such row |
| Store.KnowledgeBase.GetAllSessions | src/lib/db/queries.ts:44-47 | every session, each once, newest first |
| Store.KnowledgeBase.UpdateSessionStatus | src/lib/db/queries.ts:49-52 | only that session's status changes, and nothing changes for an unknown id |
| Store.KnowledgeBase.CreateEntity | src/lib/db/queries.ts:56-79 | the new entity has a fresh id, status proposed unless given, and properties {} when missing or null (`?? {}`), and is the only change |
| Store.KnowledgeBase.PropertiesOr | src/lib/db/queries.ts:74 | `?? {}`: missing and null properties become the empty object, and any other value is kept |
| Store.KnowledgeBase.GetEntityById | src/lib/db/queries.ts:81-88 | the entity stored under the id, or none exactly when there is no such row |
| Store.KnowledgeBase.GetAllEntities | src/lib/db/queries.ts:90-102 | exactly the entities of the given status (all of them without one), each once, sorted by name |
| Store.KnowledgeBase.GetEntitiesByType | src/lib/db/queries.ts:104-118 | exactly the entities of the given type (and status, when given), each once, sorted by name |
| Store.KnowledgeBase.SearchEntities | src/lib/db/queries.ts:173-187 | exactly the approved entities whose name or description contains the query, each once, sorted by name |
| Store.KnowledgeBase.ListedEntities | src/lib/db/queries.ts:90-118 | filtering and then sorting the entity table lists exactly the rows kept |
| Store.KnowledgeBase.ListedEntitiesDistinct | src/lib/db/queries.ts:90-102 | no entity is listed twice |
| Store.SortedIdsDistinct | src/lib/db/queries.ts:90-118 | sorting a listing of table rows that is strictly increasing by id lists no id twice |
| Store.KnowledgeBase.UpdateEntity | src/lib/db/queries.ts:120-151 | with nothing supplied, or an unknown id, nothing changes; otherwise only that row changes, to the patched row stamped with the current time |
| Store.KnowledgeBase.UpdateEntityStatus | src/lib/db/queries.ts:153-159 | the status is set whatever it was, and updated_at is stamped; an unknown id changes nothing |
| Store.KnowledgeBase.DeleteEntity | src/lib/db/queries.ts:161-171 | the tables become WithoutEntity of the old tables |
| Store.KnowledgeBase.CreateRelationship | src/lib/db/queries.ts:191-216 | the new relationship has a fresh id, confidence 1.0 unless given, and status proposed unless given |
| Store.KnowledgeBase.GetRelationshipsByEntityId | src/lib/db/queries.ts:218-226 | exactly the approved relationships with the entity at either end, each once |
| Store.KnowledgeBase.GetAllRelationships | src/lib/db/queries.ts:228-236 | exactly the relationships of the given status, or all of them without one, each once |
| Store.KnowledgeBase.ListedRelationships | src/lib/db/queries.ts:218-236 | filtering the relationship table in key order lists exactly the rows kept, strictly increasing by id |
| Store.KnowledgeBase.UpdateRelationshipStatus | src/lib/db/queries.ts:238-241 | only that relationship's status changes, and nothing changes for an unknown id |
| Store.KnowledgeBase.CreateTimelineEvent | src/lib/db/queries.ts:245-258 | the new event has a fresh id and is the only change |
| Store.KnowledgeBase.GetAllTimelineEvents | src/lib/db/queries.ts:260-265 | every timeline event exactly once and nothing else, so a permutation of the table, sorted by sort_order |
| Store.KnowledgeBase.GetTimelineEventsByEntityId | src/lib/db/queries.ts:267-272 | exactly the entity's events, each once, sorted by sort_order |
| Store.KnowledgeBase.ListedEvents | src/lib/db/queries.ts:260-272 | filtering and sorting the event table lists exactly the rows kept |
| Store.KnowledgeBase.EventIdsDistinct | src/lib/db/queries.ts:260-272 | the sorted event listing has distinct ids |
| Store.KnowledgeBase.EventsOnce | src/lib/db/queries.ts:260-265 | each kept event occurs in the sorted listing exactly once |
| Store.KnowledgeBase.EventRowsIncreasing | src/lib/db/queries.ts:260-272 | the kept events in key order are the table's own rows, strictly increasing by id |
| Store.KnowledgeBase.CreateContradiction | src/lib/db/queries.ts:276-299 | the new contradiction has a fresh id, no resolution and no notes |
| Store.KnowledgeBase.GetAllContradictions | src/lib/db/queries.ts:301-306 | every contradiction, each once, newest first |
| Store.KnowledgeBase.GetUnresolvedContradictions | src/lib/db/queries.ts:308-313 | exactly the contradictions without a resolution, each once, newest first |
| Store.KnowledgeBase.UnresolvedListed | src/lib/db/queries.ts:308-313 | filtering the contradiction table newest first lists exactly the rows kept |
| Store.KnowledgeBase.ResolveContradiction | src/lib/db/queries.ts:315-326 | the resolution and notes are overwritten whatever they were, and omitted notes become null |
| Store.KnowledgeBase.CreateTag | src/lib/db/queries.ts:330-335 | the new tag has a fresh id and is the only change |
| Store.KnowledgeBase.GetTagsByEntityId | src/lib/db/queries.ts:337-340 | exactly the entity's tags, each once |
| Store.KnowledgeBase.ListedTags | src/lib/db/queries.ts:337-340 | filtering the tag table in key order lists exactly the rows kept, strictly increasing by id |
| Store.KnowledgeBase.DeleteTag | src/lib/db/queries.ts:342-345 | only that tag is removed |
| Store.KnowledgeBase.CreateIngestionQueueItem | src/lib/db/queries.ts:349-361 | the new item is queued under a fresh id and is the only change |
| Store.KnowledgeBase.GetNextQueueItem | src/lib/db/queries.ts:363-369 | none exactly when nothing is queued; otherwise a queued row that no other queued row predates |
| Store.KnowledgeBase.UpdateIngestionStatus | src/lib/db/queries.ts:371-374 | only that item's status changes, and nothing changes for an unknown id |
| Store.KnowledgeBase.GetAllIngestionItems | src/lib/db/queries.ts:376-381 | every queue item, each once, newest first |
| Store.KnowledgeBase.TypeRows | src/lib/db/queries.ts:422-426 | each GROUP BY row carries its type's count of approved entities, and every type with one has a row |
| Store.KnowledgeBase.GetDashboardStats | src/lib/db/queries.ts:385-455 | the five counters are the counts of their WHERE clauses, every one of the nine types maps to its approved count (0 when absent), and the nine entries add up to the approved-entity total |
| Store.SumOverTypesSnoc | src/lib/db/queries.ts:422-445 | adding one entity raises the per-type total by one exactly when it is approved and of a listed type |
| Store.ByTypeAddsUp | src/lib/db/queries.ts:388-445 | the per-type counts add up to the approved-entity total |
| Store.SumByTypeMatches | src/lib/db/queries.ts:428-445 | a map holding each type's approved count sums over any type list exactly as the counts do |
| Store.GroupByTypeFacts | src/lib/db/queries.ts:422-426 | GROUP BY yields each type's count, and a row for every type that occurs |
| Store.FillByType | src/lib/db/queries.ts:428-445 | the two loops map every type to its approved count: 0 from the first loop unless a GROUP BY row overwrites it |
| Rows.Ascending | src/lib/db/queries.ts:366 | the oldest-first listing holds at most one row per key below the counter |
| Rows.AscendingRows | src/lib/db/queries.ts:363-369 | ORDER BY created_at lists every row once, only stored rows, strictly increasing by key |
| Rows.AscendingSkip | src/lib/db/queries.ts:56-79 | an id under which nothing is stored adds nothing to the listing |
| Rows.Descending | src/lib/db/queries.ts:44-47 | the newest-first listing holds at most one row per key below the counter |
| Rows.DescendingRows | src/lib/db/queries.ts:44-47 | ORDER BY created_at DESC lists every row once, only stored rows, strictly decreasing by key |
| Rows.DescendingReversed | src/lib/db/queries.ts:301-306 | the newest-first listing is the oldest-first listing reversed |
| Rows.Filter | src/lib/db/queries.ts:308-313 | WHERE keeps exactly the rows that satisfy the condition, in their order |
| Rows.FilterOfFilter | src/lib/db/queries.ts:104-113 | two WHERE conditions one after the other are their conjunction |
| Rows.FilterAppend | src/lib/db/queries.ts:308-313 | WHERE distributes over the concatenation of two listings |
| Rows.FilterIncreasing | src/lib/db/queries.ts:308-313 | filtering an increasing listing keeps it increasing |
| Rows.FilterDecreasing | src/lib/db/queries.ts:308-313 | filtering a newest-first listing keeps it strictly decreasing by key |
| Rows.IncreasingOnce | src/lib/db/queries.ts:90-102 | a listing strictly increasing by key holds each row at most once |
| Rows.Count | src/lib/db/queries.ts:388-420 | COUNT(*) never exceeds the number of rows |
| Rows.CountDisjoint | src/lib/db/queries.ts:404-414 | counts of two exclusive conditions add up to at most the number of rows |
| Ordering.LexLeTotal | src/lib/db/queries.ts:94 | the order of names is total |
| Ordering.LexLeTransitive | src/lib/db/queries.ts:94 | the order of names is transitive |
| Ordering.LexLeAntisymmetric | src/lib/db/queries.ts:94 | two names that sort at or before each other are equal |
| Ordering.Sort | src/lib/db/queries.ts:94 | ORDER BY returns a permutation of its input |
| Ordering.Insert | src/lib/db/queries.ts:94 | inserting one row adds exactly that row |
| Ordering.InsertSorted | src/lib/db/queries.ts:94 | inserting into a sorted listing keeps it sorted |
| Ordering.SortSorted | src/lib/db/queries.ts:94 | ORDER BY under a total, transitive order gives a sorted listing |
| Ordering.SortSameElements | src/lib/db/queries.ts:94 | sorting keeps every row and adds none |
| Domain.EntityTypeName | src/types/index.ts:2-11 | each type is stored as its own non-empty name, never "unknown" |
| Domain.EntityTypeNameInjective | src/types/index.ts:2-11 | different types are stored as different text |
| Domain.AllEntityTypesComplete | src/lib/db/queries.ts:429-439 | the dashboard's type list names every entity type |
| Domain.AllEntityTypesDistinct | src/lib/db/queries.ts:429-439 | the dashboard's type list names each type once |
| Text.Contains | src/lib/db/queries.ts:175-179 | the query is contained exactly when it occurs at some position of the text |
| Text.TrimStart | src/lib/ingestion/chunker.ts:13 | drops exactly the leading whitespace: the result is a suffix, everything dropped is whitespace, and the result does not start with whitespace |
| Text.TrimEnd | src/lib/ingestion/chunker.ts:13 | drops exactly the trailing whitespace: the result is a prefix, everything dropped is whitespace, and the result does not end with whitespace |
| Text.Trim | src/lib/ingestion/chunker.ts:13-14 | the trimmed text neither starts nor ends with whitespace, and is empty exactly when the text is all whitespace |
| Text.TrimIdempotent | src/lib/ingestion/chunker.ts:13 | trimming twice is trimming once |
| Text.IndexOfFrom | src/lib/ai/anthropic-api.ts:36 | indexOf finds the first occurrence at or after the start, or reports that there is none |
| Text.IndexOfChar | src/lib/ai/anthropic-api.ts:41 | indexOf('{') is the first position of the character, and -1 (None) exactly when it is absent |
| Text.LastIndexOfChar | src/lib/ai/anthropic-api.ts:42 | lastIndexOf('}') is the last position of the character, and -1 (None) exactly when it is absent |
| Text.Slice | src/lib/ai/anthropic-api.ts:44 | slice(a, b) is the text from a up to b, and empty when b is not after a |
| Text.JoinEmpty | src/lib/ingestion/chunker.ts:30 | joining non-empty parts is empty only when there are no parts |
| ExtractionJson.SkipSpace | src/lib/ai/anthropic-api.ts:36 | the pattern's \s* consumes exactly the whitespace run |
| ExtractionJson.FindFence | src/lib/ai/anthropic-api.ts:36-37 | the first match of the fence pattern: the leftmost opening fence, an optional "json" and whitespace, and the nearest closing fence; no match exactly when no two non-overlapping fences occur |
| ExtractionJson.BodyStart | src/lib/ai/anthropic-api.ts:36 | after an opening fence the match skips an optional "json" and then all whitespace |
| ExtractionJson.NoClosingFence | src/lib/ai/anthropic-api.ts:36-37 | with no closing fence after the opening one, the pattern does not match at all |
| ExtractionJson.Unfenced | src/lib/ai/anthropic-api.ts:36-39 | with a fence match the text becomes its trimmed body, and without one it is kept |
| ExtractionJson.Candidate | src/lib/ai/anthropic-api.ts:34-45 | trimmed text without a fence or a brace pair is handed to JSON.parse whole, and a candidate holding both braces starts with a '{' and ends with a '}' |
| ExtractionJson.Cut | src/lib/ai/anthropic-api.ts:41-45 | with both braces present the text is cut from the first '{' to the last '}' (empty when they are out of order), and is otherwise kept |
| ExtractionJson.NoPairWhenCrossed | src/lib/ai/anthropic-api.ts:41-44 | the cut is empty exactly when no '{' is followed by a '}' |
| ExtractionJson.CutIdempotent | src/lib/ai/anthropic-api.ts:41-45 | cutting an already cut text changes nothing |
| ExtractionJson.ListOr | src/lib/ai/anthropic-api.ts:50-53 | Array.isArray(v) ? v : [] keeps an array's items and gives [] for anything else |
| ExtractionJson.ParseExtractionJson | src/lib/ai/anthropic-api.ts:33-55 | a JSON.parse failure is passed on; a parsed null throws on reading 'entities'; any other value yields the four lists, each [] when not an array |
| ExtractionJson.TrimFirst | src/lib/ai/anthropic-api.ts:34 | surrounding whitespace in the reply never changes the result |
| ExtractionJson.CandidateTrim | src/lib/ai/anthropic-api.ts:34 | the text handed to JSON.parse ignores surrounding whitespace |
| ExtractionJson.PlainObjectUntouched | src/lib/ai/anthropic-api.ts:34-47 | a reply that is exactly one JSON object, with no fence, reaches JSON.parse unchanged |
| ExtractionJson.FirstText | src/lib/ai/anthropic-api.ts:25 | content.find picks the first text block, and finds none exactly when there is no text block |
| ExtractionJson.AnthropicReply | src/lib/ai/anthropic-api.ts:25-30 | no text block is the error "No text content in Anthropic API response"; otherwise the first text block is parsed |
| Text.ToLower | src/lib/ingestion/parsers.ts:8 | lower-casing keeps the length |
| Text.ToUpper | src/lib/ingestion/parsers.ts:8 | upper-casing keeps the length |
| Text.LowerOfUpper | src/lib/ingestion/parsers.ts:8 | lower-casing forgets every case distinction that upper-casing introduced |
| Text.LowerIdempotent | src/lib/ingestion/parsers.ts:8 | lower-casing twice is lower-casing once |
| Parsers.IsSupportedExtension | src/lib/ingestion/parsers.ts:5-9 | an extension is supported exactly when its lower-cased form is one of the seven listed extensions |
| Parsers.UnsupportedMessage | src/lib/ingestion/parsers.ts:37 | the rejection message is the fixed prefix followed by the extension as given |
| Parsers.SupportedIgnoresCase | src/lib/ingestion/parsers.ts:7-9 | the check gives the same answer for an extension and its upper- or lower-cased forms |
| Parsers.ListedSupported | src/lib/ingestion/parsers.ts:5-9 | every listed extension, in lower or upper case, is supported |
| Parsers.GetSupportedExtensions | src/lib/ingestion/parsers.ts:11-13 | a fresh array holding the seven extensions in order |
| Parsers.Flatten | src/lib/ingestion/parsers.ts:75-78 | flatMap over clean lists gives a clean list |
| Parsers.TrimmedOrNothing | src/lib/ingestion/parsers.ts:70-73 | a string gives itself trimmed, or nothing when it is blank |
| Parsers.ExtractStrings | src/lib/ingestion/parsers.ts:69-81 | every extracted string is non-empty and trimmed; a string gives itself trimmed or nothing; null, booleans and numbers give nothing |
| Parsers.ExtractArraySnoc | src/lib/ingestion/parsers.ts:74-76 | an array's strings are its elements' strings, in order |
| Parsers.ExtractObjectAsArray | src/lib/ingestion/parsers.ts:77-79 | an object's strings are those of its property values, in order |
| Parsers.ParseJson | src/lib/ingestion/parsers.ts:62-67 | a JSON.parse failure is passed on; otherwise the result is the extracted strings joined by blank lines, empty exactly when there are none |
| Parsers.ParseFile | src/lib/ingestion/parsers.ts:15-39 | the lower-cased extension picks the decoder: .txt/.md as UTF-8, .pdf, .docx, .html/.htm through the HTML converter, .json through ParseJson; anything else fails with "Unsupported file type: <ext>" |
| Prompts.Bullets | src/lib/ai/prompts.ts:7 | one "- name" bullet per known name, in order |
| Prompts.KnownList | src/lib/ai/prompts.ts:5-8 | no names gives the "No existing entities" line; otherwise the header followed by one bullet line per name |
| Prompts.JoinedBullets | src/lib/ai/prompts.ts:7 | the bullets joined by line breaks, followed by one more, are the bullet lines |
| Prompts.ChunkVerbatim | src/lib/ai/prompts.ts:63-66 | the chunk text appears verbatim between everything before it and the closing "---" line |
| Prompts.NamesAfterIntro | src/lib/ai/prompts.ts:10-12 | the prompt opens with the introduction followed by the name list |
| Prompts.InstructionsFixed | src/lib/ai/prompts.ts:12-62 | the instructions sit unchanged right after the name list, whatever the names and the chunk are |
| Prompts.BuildExtractionPrompt | src/lib/ai/prompts.ts:1-67 | the prompt is the introduction, the known-name list, the fixed instructions, the chunk and the closing "---" line, in that order |
| Json.Lookup | src/lib/config.ts:22 | a property is found exactly when the object has a property of that name |
| Json.Replace | src/lib/config.ts:35 | replacing a property keeps the order and names, and changes only the values of that name |
| Json.LookupReplace | src/lib/config.ts:35 | after a replace the property reads as the new value, and every other property is unchanged |
| Json.LookupAssign | src/lib/config.ts:32-36 | after obj[k] = v, k reads as v and every other property is unchanged |
| Json.AssignLookups | src/lib/config.ts:32-36 | the same, for every property at once |
| Json.LookupSpread | src/lib/config.ts:22 | after {...target, ...src}, a property of src wins and every other property comes from target |
| Json.SpreadLookups | src/lib/config.ts:22 | the same, for every property at once |
| Json.LookupTail | src/lib/config.ts:22 | a property that occurs again later is read from the later occurrence |
| Json.LookupFirstOnly | src/lib/config.ts:22 | a property that occurs only first is read from there |
| Json.LookupRemove | src/lib/config.ts:44 | after dropping a property it reads as missing, and every other property is unchanged |
| Config.MergeAi | src/lib/config.ts:35 | the merged ai section reads each key from the update's ai when supplied, and from the current ai otherwise |
| Config.MergeTop | src/lib/config.ts:32-34 | outside ai, the merge reads each key from the update when supplied, and from the current settings otherwise |
| Config.Merge | src/lib/config.ts:31-36 | the merged settings always hold an ai object |
| Config.ConfigStore.constructor | src/lib/config.ts:5 | the store starts with the given file contents |
| Config.ConfigStore.GetConfig | src/lib/config.ts:18-28 | no readable file gives the defaults; otherwise each top-level key comes from the file when present, else from the defaults |
| Config.ConfigStore.SaveConfig | src/lib/config.ts:30-46 | a null update throws while reading its ai and writes nothing; any other update has its merge with the current settings written to the file and returned |
| Config.ReadBack | src/lib/config.ts:30-46 | reading back a saved merge gives the merged value for every key |
| Text.TakeLast | src/app/api/settings/route.ts:11 | slice(-4) gives the last four characters, or the whole key when it is shorter |
| Settings.MaskKey | src/app/api/settings/route.ts:11 | a falsy key is dropped; a non-empty string key becomes "****" followed by its last four characters (the whole key when it is shorter); a truthy non-string key makes slice throw an error naming the expression it was called on |
| Settings.MaskShowsLastFour | src/app/api/settings/route.ts:11 | two keys that end in the same four characters mask identically, so nothing else of the key shows |
| Settings.WithKey | src/app/api/settings/route.ts:9-12 | the ai section with apiKey set, or dropped when undefined; every other property is unchanged |
| Settings.Masked | src/app/api/settings/route.ts:7-13 | a missing ai section throws the undefined-read error and a null one the null-read error; otherwise only ai.apiKey differs from the settings and it is masked, or the slice error is raised |
| Settings.GetSettings | src/app/api/settings/route.ts:4-15 | GET answers with the stored settings, masked; it can fail only on a stored null ai section or a non-string key |
| Settings.PutSettings | src/app/api/settings/route.ts:17-27 | a null body fails in the save and changes nothing; otherwise PUT saves the merge of the body into the settings and answers with the saved settings, masked, failing only on a non-string key |
| Credentials.NonNull | src/lib/ai/claude-credentials.ts:48 | ?? null: a missing or null token reads as no token, and any other value is kept |
| Credentials.ExpiresSoon | src/lib/ai/claude-credentials.ts:55 | only a non-zero number can expire the token, and such a number does exactly when it is below now + 300000 ms |
| Credentials.CredentialStore.constructor | src/lib/ai/claude-credentials.ts:18-26 | the store starts with the given parsed file, or none when it is missing or unreadable |
| Credentials.CredentialStore.SaveCredentials | src/lib/ai/claude-credentials.ts:28-44 | success exactly when the text parses to a non-null value with a truthy claudeAiOauth.accessToken, and only then is the file written; a parse error passes on its message, a parsed null gives the TypeError message, and a missing token gives "Missing claudeAiOauth.accessToken" |
| Credentials.CredentialStore.GetAccessToken | src/lib/ai/claude-credentials.ts:46-49 | the stored token when present and not null, otherwise none |
| Credentials.CredentialStore.IsAuthenticated | src/lib/ai/claude-credentials.ts:51-59 | authenticated exactly when the token is truthy and the expiry time is not a non-zero number below now + 300000 ms; an authenticated store has a truthy token |
| Credentials.CredentialStore.NoExpiryAlwaysValid | src/lib/ai/claude-credentials.ts:53-58 | a truthy token with no expiry time, or an expiry time of 0, is valid at every time |
| Credentials.CredentialStore.AuthenticatedEarlier | src/lib/ai/claude-credentials.ts:55-57 | a token valid at some time was valid at every earlier time |
| Credentials.CredentialStore.SavedTokenReadBack | src/lib/ai/claude-credentials.ts:31-48 | after a successful save, the saved token is read back and it is truthy |
| ReviewBatch.StatusFor | src/app/api/review/batch/route.ts:14 | the status is rejected exactly when the action is the string "reject", and approved for every other action |
| ReviewBatch.Post | src/app/api/review/batch/route.ts:6-33 | a request without an ids array or without a truthy action gets 400 and changes nothing; otherwise the ids are applied in order and the answer counts the hits and the ids |
| ReviewBatch.ApplyOne | src/app/api/review/batch/route.ts:18-30 | one turn of the loop: an entity id gets the status and a fresh updated_at; otherwise a relationship id gets the status; otherwise the id is skipped; the count rises on every hit |
| ReviewBatch.AppliedFrame | src/app/api/review/batch/route.ts:18-30 | the loop changes only the entity and relationship tables, and adds or removes no row |
| ReviewBatch.StepFrame | src/app/api/review/batch/route.ts:19-29 | one turn changes only the entity and relationship tables, and keeps their keys |
| ReviewBatch.AppliedCounts | src/app/api/review/batch/route.ts:16-32 | updated counts the ids found in either table, duplicates each time, so it never exceeds total; the counter advances once per entity hit |
| ReviewBatch.AppliedEntities | src/app/api/review/batch/route.ts:19-24 | every entity named in the ids gets the status, whatever it was, with a fresh updated_at; no other entity changes |
| ReviewBatch.AppliedEntity | src/app/api/review/batch/route.ts:19-24 | the same, for one entity row |
| ReviewBatch.AppliedRelationships | src/app/api/review/batch/route.ts:19-29 | a relationship changes exactly when its id is in the list and is not an entity id, so an id found as an entity never reaches the relationships |
| ReviewBatch.AppliedRelationship | src/app/api/review/batch/route.ts:19-29 | the same, for one relationship row |
| ReviewBatch.StepRelationship | src/app/api/review/batch/route.ts:25-29 | one turn changes relationship k only when k is the id and no entity has that id |
| Graph.Degree | src/app/api/graph/route.ts:8-12 | an entity's tally is at most two per relationship |
| Graph.EdgeOf | src/app/api/graph/route.ts:21-26 | an edge copies the relationship's source, target, type and description |
| Graph.ConnectionCounts | src/app/api/graph/route.ts:8-12 | the loop's tally, with a missing entry read as 0, is each id's number of relationship ends |
| Graph.Build | src/app/api/graph/route.ts:14-26 | one node per entity, in order, carrying its tally; one edge per relationship, in order; the tallies add up to at most twice the edges |
| Graph.Get | src/app/api/graph/route.ts:4-29 | the nodes are the approved entities sorted by name, each once and every one present, each with its number of approved relationship ends; the edges are the approved relationships, one per relationship and every one present |
| Graph.DegreeCounts | src/app/api/graph/route.ts:8-12 | the tally is the number of relationships with the entity as source plus the number with it as target, so a self-loop counts twice |
| Graph.DegreeZero | src/app/api/graph/route.ts:18 | an entity gets 0 exactly when no relationship names it at either end |
| Graph.DistinctNodes | src/app/api/graph/route.ts:14-19 | nodes built from entities with distinct ids have distinct ids |
| Graph.HitsAtMostOne | src/app/api/graph/route.ts:14-19 | with distinct ids, no id is carried by more than one node |
| Graph.TotalDegreeSnoc | src/app/api/graph/route.ts:8-12 | one more relationship adds one for each of its ends that a node carries |
| Graph.TotalDegreeBound | src/app/api/graph/route.ts:8-19 | over nodes with distinct ids, the tallies add up to at most two per relationship |
| Graph.SumCountsBound | src/app/api/graph/route.ts:14-26 | the nodes' connection counts add up to at most twice the number of edges |
| Graph.SumCountsTotal | src/app/api/graph/route.ts:18 | the nodes' counts add up to the total tally of their ids |
| Timeline.Enrich | src/app/api/timeline/route.ts:9-18 | an event keeps all its fields and gains its entity's name and type, or "Unknown"/"unknown" exactly when the lookup finds no entity |
| Timeline.Get | src/app/api/timeline/route.ts:4-21 | one enriched record per stored event, each event once and every event present, in sort_order, each enriched by the lookup of its entity id |
| ProcessRoute.Respond | src/app/api/ingest/process/route.ts:3-18 | success answers 200 with the session id and "Processing complete"; a failure passes on its error, with 404 exactly for "No items in queue" and 500 otherwise |
| ProcessRoute.Post | src/app/api/ingest/process/route.ts:3-18 | an empty queue answers 404 and changes nothing; a run without setup fault answers 200 with the new session's id; a setup fault answers with its message |

## Left out

- SQLite, the file system, the network and Next.js request handling are not modelled. The store is a class over maps. The configuration and credential files are fields holding the parsed JSON value, or None. Route handlers receive their request already decoded.
- Row ids are UUIDs in the source. Here they are natural numbers handed out by one counter. Every `datetime('now')` stamp is a reading of that same counter. Two stamps therefore never tie, whereas SQLite's one-second resolution can make them tie. "ORDER BY created_at" becomes key order.
- Processor.ProcessItem: one `today` is used for both the session title and the session date. The source reads the clock twice.
- The Anthropic API call behind `extractFromChunk` is a parameter. It maps the chunk text and the known-names list to an extraction result, or to None when the call throws. The key check in `src/lib/ai/index.ts` is modelled by `Processor.Dispatch`, but the processor's methods take the resulting extractor as a parameter rather than reading the settings. The Anthropic SDK request and the Claude Code CLI process (spawn, stdin, stdout, and the "Failed to parse Claude Code CLI output" wrapper) are not modelled.
- Processor.ProcessChunks: a database error part-way through a chunk is not modelled. In the source it would keep the rows already written and skip the rest of that chunk. Only extraction failures skip a chunk, and they skip all of it.
- Processor.ProcessItem: the two setup failures modelled are the session insert and the approved-entity listing. Failures of the queue read, of the `processing` status update (which sits outside the try and rejects the call rather than returning a failure result), and of the final status updates are not modelled.
- Processor.NameToIdLastWins: the name map is a `map<string, Id>`. In JavaScript, a plain-object record also "contains" names such as `constructor` through its prototype. Here such a name resolves only when the chunk created it.
- ExtractionJson.ParseExtractionJson: the four lists stay raw JSON items. The source casts them to typed records without checking them. The processor's extraction parameter yields typed records directly. `is_existing`, `existing_entity_id` and the entity confidence are ignored, as in the source.
- `JSON.parse` is a parameter (string to Json, or an error message). Member order and duplicate keys are kept as parsed, and lookups read the last duplicate.
- Parsers.ExtractStrings: object members are visited in document order. JavaScript's `Object.values` lists integer-like keys first, and lists a duplicated key only once.
- Parsers.ParseFile: the PDF, DOCX and HTML converters and the UTF-8 decoder are parameters.
- Text.ToLower: only ASCII letters change case. For the supported-extension check this gives the same answer as full Unicode lower-casing. Only the lower-cased extension inside the "Unsupported file type" message can differ.
- Store.KnowledgeBase.SearchEntities: SQL `LIKE '%q%'` is modelled as case-sensitive substring containment. SQLite's LIKE ignores ASCII case and treats `%` and `_` in the query as wildcards.
- Store.KnowledgeBase.GetAllEntities: names are compared by code point, which is the order of SQLite's binary collation on UTF-8. The order of rows with equal names is left open by the source; the model fixes one.
- Store: foreign-key and NOT NULL constraint failures are not modelled, so inserts and updates always succeed. Entity properties are stored as a JSON value rather than as the text that `JSON.stringify` writes.
- Config.ConfigStore.SaveConfig: an update body that is a string or an array spreads nothing here. JavaScript would spread its indices into the saved settings.
- Config.Merge: a string or array `ai` section, in the update or in the current settings, spreads nothing here. JavaScript's `{...current.ai, ...(config.ai ?? {})}` would spread its indices.
- Settings.Masked: a string or array `ai` section is masked to an object without its indices. JavaScript's `{...config.ai}` would spread them.
- Text.TakeLast: counts code points, while `slice(-4)` counts UTF-16 code units, so a key ending in a character outside the Basic Multilingual Plane shows a different tail.
- Config.ConfigStore.GetConfig: a stored file that is a string or an array spreads nothing here. JavaScript would spread its indices. A missing file and an unparsable file are both None.
- Settings.MaskKey: a truthy apiKey that is not a string is treated as an error. In JavaScript, a number or boolean has no `slice` and throws, but an array does have `slice`.
- Credentials.ExpiresSoon: only a JSON number is compared with the expiry deadline. JavaScript's `<` would also coerce `true`, a numeric string or a numeric array to a number; here such values never expire the token, and IsAuthenticated inherits this.
- Credentials.CredentialStore.SaveCredentials: the JSON.stringify formatting of the written file, and failures to create the directory or write the file, are not modelled.
- Prompts.ChunkVerbatim: the layout lemmas hold for any instruction text. `BuildExtractionPrompt` fills in the fixed instructions.
