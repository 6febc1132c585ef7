/**
 * Turning a model's text reply into the raw extraction lists: trim it, keep
 * the body of the first ``` fence if there is one, cut from the first '{'
 * to the last '}', parse, and default every missing or non-array list to
 * []. The Anthropic API and the Claude Code CLI engines carry identical
 * copies of this function, and both are modelled by this one definition.
 */
module ExtractionJson {
  import opened Wrappers
  import opened Text
  import opened Json

  /** The four lists as parsed, with their items passed through unvalidated. */
  datatype RawExtraction = RawExtraction(
    entities: seq<Json>,
    relationships: seq<Json>,
    timelineEvents: seq<Json>,
    contradictions: seq<Json>)

  const Fence := "```"
  const NullMessage := "Cannot read properties of null (reading 'entities')"
  const NoTextMessage := "No text content in Anthropic API response"

  /** Where the fence regex matched: the opening fence, the body's first character and the closing fence. */
  datatype FenceMatch = FenceMatch(open: nat, bodyStart: nat, close: nat)

  /** The text between an opening fence and the body: an optional "json" and then whitespace. */
  predicate FencePrefix(t: string) {
    AllSpace(t) || (|t| >= 4 && t[..4] == "json" && AllSpace(t[4..]))
  }

  /** The first index at or after `i` that is not whitespace (or the end). */
  function SkipSpace(s: string, i: nat): (j: nat)
    requires i <= |s|
    ensures i <= j <= |s|
    ensures forall x :: i <= x < j ==> IsSpace(s[x])
    ensures j == |s| || !IsSpace(s[j])
    decreases |s| - i
  {
    if i == |s| || !IsSpace(s[i]) then i else SkipSpace(s, i + 1)
  }

  /**
   * The first match of /```(?:json)?\s*([\s\S]*?)```/: the leftmost opening
   * fence, the greedy optional "json" and whitespace, and the nearest closing
   * fence after them.
   */
  function FindFence(s: string): (m: Option<FenceMatch>)
    ensures m.Some? ==>
      && OccursAt(s, Fence, m.value.open)
      && (forall x :: 0 <= x < m.value.open ==> !OccursAt(s, Fence, x))
      && m.value.open + 3 <= m.value.bodyStart <= m.value.close
      && OccursAt(s, Fence, m.value.close)
      && FencePrefix(s[m.value.open + 3..m.value.bodyStart])
      && (m.value.bodyStart < |s| ==> !IsSpace(s[m.value.bodyStart]))
      && (forall x :: m.value.bodyStart <= x < m.value.close ==> !OccursAt(s, Fence, x))
    ensures m.None? <==> forall p: nat, q: nat :: OccursAt(s, Fence, p) && OccursAt(s, Fence, q) ==> q < p + 3
  {
    match IndexOfFrom(s, Fence, 0)
    case None => None
    case Some(p) =>
      var e := BodyStart(s, p);
      match IndexOfFrom(s, Fence, e)
      case None =>
        NoClosingFence(s, p, e);
        None
      case Some(q) => Some(FenceMatch(p, e, q))
  }

  /** Past the opening fence at `p`: skip a "json" tag if present, then whitespace. */
  function BodyStart(s: string, p: nat): (e: nat)
    requires OccursAt(s, Fence, p)
    ensures p + 3 <= e <= |s|
    ensures FencePrefix(s[p + 3..e])
    ensures e < |s| ==> !IsSpace(s[e])
    ensures forall x :: p + 3 <= x < e ==> s[x] != '`'
  {
    var b := if OccursAt(s, "json", p + 3) then p + 7 else p + 3;
    var e := SkipSpace(s, b);
    assert forall x :: p + 3 <= x < b ==> s[x] == s[p + 3..p + 7][x - p - 3];
    assert FencePrefix(s[p + 3..e]) by {
      var t := s[p + 3..e];
      if b == p + 7 {
        assert t[..4] == s[p + 3..p + 7];
        assert forall x :: 4 <= x < |t| ==> t[x] == s[p + 3 + x];
      } else {
        assert forall x :: 0 <= x < |t| ==> t[x] == s[p + 3 + x];
      }
    }
    e
  }

  /** With no fence at or after `e`, and none starting between `p + 3` and `e`, no pair of fences exists. */
  lemma NoClosingFence(s: string, p: nat, e: nat)
    requires forall x :: 0 <= x < p ==> !OccursAt(s, Fence, x)
    requires p + 3 <= e
    requires forall x :: p + 3 <= x < e && x < |s| ==> s[x] != '`'
    requires forall x :: e <= x ==> !OccursAt(s, Fence, x)
    ensures forall p': nat, q: nat :: OccursAt(s, Fence, p') && OccursAt(s, Fence, q) ==> q < p' + 3
  {
    forall p': nat, q: nat | OccursAt(s, Fence, p') && OccursAt(s, Fence, q)
      ensures q < p' + 3
    {
      assert s[q] == s[q..q + 3][0];
    }
  }

  /** The trimmed body of the first fence, or the text itself when there is none. */
  function Unfenced(t: string): (r: string)
    ensures FindFence(t).None? ==> r == t
    ensures FindFence(t).Some? ==> r == Trim(t[FindFence(t).value.bodyStart..FindFence(t).value.close])
  {
    match FindFence(t)
    case None => t
    case Some(m) => Trim(t[m.bodyStart..m.close])
  }

  /** From the first '{' to the last '}' when both occur (empty if they are out of order). */
  function Cut(s: string): (r: string)
    ensures '{' !in s || '}' !in s ==> r == s
    ensures '{' in s && '}' in s ==>
      (r == "" <==> forall x, y :: 0 <= x <= y < |s| && s[x] == '{' ==> s[y] != '}')
    ensures '{' in s && '}' in s && r != "" ==>
      var i, j := IndexOfChar(s, '{').value, LastIndexOfChar(s, '}').value;
      i <= j && r == s[i..j + 1] && r[0] == '{' && r[|r| - 1] == '}'
  {
    match (IndexOfChar(s, '{'), LastIndexOfChar(s, '}'))
    case (Some(i), Some(j)) =>
      NoPairWhenCrossed(s, i, j);
      Slice(s, i, j + 1)
    case _ => s
  }

  /**
   * With the first '{' at i and the last '}' at j, no '{' is followed by a '}'
   * exactly when j comes before i.
   */
  lemma NoPairWhenCrossed(s: string, i: nat, j: nat)
    requires i < |s| && s[i] == '{' && '{' !in s[..i]
    requires j < |s| && s[j] == '}' && '}' !in s[j + 1..]
    ensures j < i <==> forall x, y :: 0 <= x <= y < |s| && s[x] == '{' ==> s[y] != '}'
  {
    if j < i {
      forall x, y | 0 <= x <= y < |s| && s[x] == '{'
        ensures s[y] != '}'
      {
        assert s[j + 1..][y - j - 1] == s[y];
      }
    }
  }

  /** Cutting an already cut text changes nothing. */
  lemma CutIdempotent(s: string)
    ensures Cut(Cut(s)) == Cut(s)
  {
    var r := Cut(s);
    if '{' in s && '}' in s && r != "" {
      var i := IndexOfChar(s, '{').value;
      var j := LastIndexOfChar(s, '}').value;
      assert r[0] == '{' && r[|r| - 1] == '}';
      assert IndexOfChar(r, '{') == Some(0);
      assert r[|r|..] == [];
      assert LastIndexOfChar(r, '}') == Some(|r| - 1);
      assert r[0..|r|] == r;
    }
  }

  /**
   * The text handed to JSON.parse: trimmed text without a fence or a brace
   * pair goes whole, and a candidate that holds both braces runs from a '{'
   * to a '}'.
   */
  function Candidate(output: string): (c: string)
    ensures FindFence(Trim(output)).None? && ('{' !in Trim(output) || '}' !in Trim(output)) ==> c == Trim(output)
    ensures '{' in c && '}' in c ==> c[0] == '{' && c[|c| - 1] == '}'
  {
    Cut(Unfenced(Trim(output)))
  }

  /** `Array.isArray(v) ? v : []`. */
  function ListOr(v: Option<Json>): (r: seq<Json>)
    ensures v.Some? && v.value.JArray? ==> r == v.value.items
    ensures !(v.Some? && v.value.JArray?) ==> r == []
  {
    match v
    case Some(JArray(items)) => items
    case _ => []
  }

  /**
   * parseExtractionJson, with JSON.parse as the given `parse` (Failure
   * carries its SyntaxError message).  Reading a property of a parsed null
   * throws; any other non-object value has no such property and yields four
   * empty lists.
   */
  function ParseExtractionJson(output: string, parse: string -> Result<Json, string>): (r: Result<RawExtraction, string>)
    ensures parse(Candidate(output)).Failure? ==> r == Failure(parse(Candidate(output)).error)
    ensures parse(Candidate(output)) == Success(JNull) ==> r == Failure(NullMessage)
    ensures parse(Candidate(output)).Success? && parse(Candidate(output)).value != JNull ==>
      var parsed := parse(Candidate(output)).value;
      && r.Success?
      && r.value.entities == ListOr(Get(parsed, "entities"))
      && r.value.relationships == ListOr(Get(parsed, "relationships"))
      && r.value.timelineEvents == ListOr(Get(parsed, "timeline_events"))
      && r.value.contradictions == ListOr(Get(parsed, "contradictions"))
  {
    Lists(parse(Candidate(output)))
  }

  /** The four lists read off the parse result. */
  function Lists(parsed: Result<Json, string>): Result<RawExtraction, string> {
    match parsed
    case Failure(e) => Failure(e)
    case Success(JNull) => Failure(NullMessage)
    case Success(v) =>
      Success(RawExtraction(
        ListOr(Get(v, "entities")),
        ListOr(Get(v, "relationships")),
        ListOr(Get(v, "timeline_events")),
        ListOr(Get(v, "contradictions"))))
  }

  /** The input is trimmed first, so surrounding whitespace never matters. */
  lemma TrimFirst(output: string, parse: string -> Result<Json, string>)
    ensures ParseExtractionJson(Trim(output), parse) == ParseExtractionJson(output, parse)
  {
    CandidateTrim(output);
  }

  lemma CandidateTrim(output: string)
    ensures Candidate(Trim(output)) == Candidate(output)
  {
    TrimIdempotent(output);
  }

  /** A reply that is exactly one JSON object, with no fence, reaches JSON.parse unchanged. */
  lemma PlainObjectUntouched(s: string)
    requires Trim(s) == s && s != [] && s[0] == '{' && s[|s| - 1] == '}'
    requires forall x :: !OccursAt(s, Fence, x)
    ensures Candidate(s) == s
  {
    assert FindFence(s).None?;
    assert IndexOfChar(s, '{') == Some(0);
    assert s[|s|..] == [];
    assert LastIndexOfChar(s, '}') == Some(|s| - 1);
    assert s[0..|s|] == s;
  }

  /** A block of an API message: text, or any other kind. */
  datatype ContentBlock = TextBlock(text: string) | OtherBlock(kind: string)

  /** The first text block, as `content.find` picks it. */
  function FirstText(blocks: seq<ContentBlock>): (r: Option<string>)
    ensures r.None? <==> forall i :: 0 <= i < |blocks| ==> !blocks[i].TextBlock?
    ensures r.Some? ==>
      exists i :: 0 <= i < |blocks| && blocks[i] == TextBlock(r.value)
                  && forall k :: 0 <= k < i ==> !blocks[k].TextBlock?
  {
    if blocks == [] then None
    else if blocks[0].TextBlock? then
      assert blocks[0] == TextBlock(blocks[0].text);
      Some(blocks[0].text)
    else
      var r := FirstText(blocks[1..]);
      assert forall i :: 1 <= i < |blocks| ==> blocks[i] == blocks[1..][i - 1];
      if r.Some? then
        var i :| 0 <= i < |blocks[1..]| && blocks[1..][i] == TextBlock(r.value)
          && forall k :: 0 <= k < i ==> !blocks[1..][k].TextBlock?;
        assert blocks[i + 1] == TextBlock(r.value);
        r
      else r
  }

  /** The Anthropic engine after the request: no text block is an error, else the first one is parsed. */
  function AnthropicReply(blocks: seq<ContentBlock>, parse: string -> Result<Json, string>): (r: Result<RawExtraction, string>)
    ensures FirstText(blocks).None? ==> r == Failure(NoTextMessage)
    ensures FirstText(blocks).Some? ==> r == ParseExtractionJson(FirstText(blocks).value, parse)
  {
    match FirstText(blocks)
    case None => Failure(NoTextMessage)
    case Some(text) => ParseExtractionJson(text, parse)
  }
}
