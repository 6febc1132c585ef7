/**
 * The extraction prompt: a fixed introduction, the list of names already in
 * the knowledge base, fixed instructions with the JSON schema, and the chunk
 * between two "---" lines.
 */
module Prompts {
  import opened Text

  const Intro := "You are an expert D&D lore analyst. Analyze the following session transcript chunk and extract structured data.\n\n"

  const NoKnownNames := "\nNo existing entities in the knowledge base yet.\n"

  const KnownHeader := "\nKnown entities in the knowledge base:\n"

  /** From the line break after the name list to the opening "---" line of the chunk. */
  const Instructions :=
    "\n\n"
    + "INSTRUCTIONS:\n"
    + "1. Extract all named entities: characters, factions, locations, races, events, items, lore, quests, creatures\n"
    + "2. For each entity provide: name, type, description, relevant properties (as key-value pairs), and a confidence score (0-1)\n"
    + "3. If an entity name matches or closely matches one from the known entities list, mark is_existing=true and provide the matching name\n"
    + "4. Identify relationships between entities with typed connections\n"
    + "5. Extract timeline events with date descriptions and relative ordering\n"
    + "6. Flag contradictions if new information conflicts with what would be expected from existing entities\n"
    + "\n"
    + "Return ONLY valid JSON matching this exact schema (no markdown, no explanation):\n"
    + "\n"
    + "{\n"
    + "  \"entities\": [\n"
    + "    {\n"
    + "      \"name\": \"Entity Name\",\n"
    + "      \"type\": \"character|faction|location|race|event|item|lore|quest|creature\",\n"
    + "      \"description\": \"Brief description\",\n"
    + "      \"properties\": { \"key\": \"value\" },\n"
    + "      \"confidence\": 0.95,\n"
    + "      \"is_existing\": false,\n"
    + "      \"existing_entity_id\": null\n"
    + "    }\n"
    + "  ],\n"
    + "  \"relationships\": [\n"
    + "    {\n"
    + "      \"source_entity_name\": \"Entity A\",\n"
    + "      \"target_entity_name\": \"Entity B\",\n"
    + "      \"type\": \"allied_with|enemy_of|betrayed|serves|parent_of|child_of|member_of|located_in|involved_in|owns|created|knows|employs|worships|rules|guards|hunts|trades_with\",\n"
    + "      \"description\": \"Description of relationship\",\n"
    + "      \"confidence\": 0.9\n"
    + "    }\n"
    + "  ],\n"
    + "  \"timeline_events\": [\n"
    + "    {\n"
    + "      \"entity_name\": \"Entity Name\",\n"
    + "      \"date_description\": \"During the siege of Neverwinter\",\n"
    + "      \"sort_order\": 1\n"
    + "    }\n"
    + "  ],\n"
    + "  \"contradictions\": [\n"
    + "    {\n"
    + "      \"entity_name\": \"Entity Name\",\n"
    + "      \"field\": \"description\",\n"
    + "      \"old_value\": \"What was previously known\",\n"
    + "      \"new_value\": \"What the new text says\",\n"
    + "      \"explanation\": \"Why this is contradictory\"\n"
    + "    }\n"
    + "  ]\n"
    + "}\n"
    + "\n"
    + "SESSION TRANSCRIPT CHUNK:\n"
    + "---\n"

  const Closing := "\n---"

  /** One "- name" bullet per name, in order. */
  function Bullets(names: seq<string>): (r: seq<string>)
    ensures |r| == |names|
    ensures forall i :: 0 <= i < |r| ==> r[i] == "- " + names[i]
  {
    seq(|names|, i requires 0 <= i < |names| => "- " + names[i])
  }

  /** The bullets as lines, each ending in a line break. */
  function BulletLines(names: seq<string>): string {
    if names == [] then "" else "- " + names[0] + "\n" + BulletLines(names[1..])
  }

  /** The name-list section. */
  function KnownList(names: seq<string>): (r: string)
    ensures names == [] ==> r == NoKnownNames
    ensures names != [] ==> r == KnownHeader + BulletLines(names)
  {
    if names == [] then NoKnownNames
    else
      JoinedBullets(names);
      KnownHeader + Join(Bullets(names), "\n") + "\n"
  }

  /** Joining the bullets with line breaks and ending with one gives one line per name. */
  lemma {:induction false} JoinedBullets(names: seq<string>)
    requires names != []
    ensures Join(Bullets(names), "\n") + "\n" == BulletLines(names)
  {
    if |names| > 1 {
      JoinedBullets(names[1..]);
      assert Bullets(names)[1..] == Bullets(names[1..]);
      assert BulletLines(names[1..][1..]) == BulletLines(names[2..]);
    } else {
      assert names[1..] == [];
    }
  }

  /** Everything before the chunk text, for a given instruction text. */
  function Preamble(instructions: string, names: seq<string>): string {
    Intro + KnownList(names) + instructions
  }

  /**
   * The prompt's layout around an instruction text: the introduction, the
   * name list, the instructions, the chunk and the closing "---" line.
   */
  function Assemble(instructions: string, chunkText: string, names: seq<string>): string {
    Preamble(instructions, names) + chunkText + Closing
  }

  /**
   * buildExtractionPrompt: the layout filled with the fixed instructions: the
   * introduction, the name list, the instructions, the chunk and the closing
   * "---" line, in that order (ChunkVerbatim and NamesAfterIntro locate the
   * parts by position).
   */
  function BuildExtractionPrompt(chunkText: string, names: seq<string>): (r: string)
    ensures r == Intro + KnownList(names) + Instructions + chunkText + Closing
    ensures |Intro| + |KnownList(names)| + |Instructions| + |Closing| <= |r|
  {
    Assemble(Instructions, chunkText, names)
  }

  /** The chunk text sits verbatim between the preamble and the closing "---" line. */
  lemma ChunkVerbatim(instructions: string, chunkText: string, names: seq<string>)
    ensures var r := Assemble(instructions, chunkText, names);
      var pre := Preamble(instructions, names);
      |pre| + |Closing| <= |r| && r[|pre|..|r| - |Closing|] == chunkText
  {
    Framed(Preamble(instructions, names), chunkText, Closing);
  }

  /** The middle of a three-part concatenation is recovered by position. */
  lemma Framed(a: string, b: string, c: string)
    ensures (a + b + c)[|a|..|a + b + c| - |c|] == b
  {
  }

  /** The prompt opens with the introduction followed by the name list. */
  lemma NamesAfterIntro(instructions: string, chunkText: string, names: seq<string>)
    ensures var r := Assemble(instructions, chunkText, names);
      |Intro| + |KnownList(names)| <= |r|
      && r[..|Intro|] == Intro
      && r[|Intro|..|Intro| + |KnownList(names)|] == KnownList(names)
  {
    Leading(Intro, KnownList(names), instructions, chunkText + Closing);
  }

  /** The first two parts of a four-part concatenation are recovered by position. */
  lemma Leading(a: string, b: string, c: string, d: string)
    ensures |a| + |b| <= |a + b + c + d|
    ensures (a + b + c + d)[..|a|] == a
    ensures (a + b + c + d)[|a|..|a| + |b|] == b
  {
  }

  /** Only the name list and the chunk vary: the instructions sit at the same place after the list. */
  lemma InstructionsFixed(instructions: string, chunkText: string, names: seq<string>)
    ensures var r := Assemble(instructions, chunkText, names);
      var at := |Intro| + |KnownList(names)|;
      at + |instructions| <= |r| && r[at..at + |instructions|] == instructions
  {
    Framed(Intro + KnownList(names), instructions, chunkText + Closing);
    assert Assemble(instructions, chunkText, names) == Intro + KnownList(names) + instructions + (chunkText + Closing);
  }
}
