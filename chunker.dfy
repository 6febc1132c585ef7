/**
 * Transcript chunking (src/lib/ingestion/chunker.ts).
 *
 * The text is split on blank lines into trimmed, non-empty paragraphs, which are
 * packed greedily into chunks of about TargetWords words. Each new chunk is seeded
 * with whole paragraphs, about OverlapWords words, from the end of the previous one.
 *
 * The methods follow the source's loops; the functions PackAll, Groups and Overlap
 * are the specification they are proved against, and the lemmas state what the
 * packing guarantees.
 */
module Chunker {
  import opened Wrappers
  import opened Text

  const TargetWords: nat := 1500
  const OverlapWords: nat := 200
  const Separator: string := "\n\n"

  datatype Chunk = Chunk(index: nat, text: string, wordCount: nat)

  // ---------------------------------------------------------------- words

  /** Word starts in s: a non-space character that begins s (when afterSpace) or follows a space. */
  function CountFrom(s: string, afterSpace: bool): nat {
    if s == [] then 0
    else (if afterSpace && !IsSpace(s[0]) then 1 else 0) + CountFrom(s[1..], IsSpace(s[0]))
  }

  /**
   * countWords: the number of maximal runs of non-whitespace characters. It
   * is 0 exactly for blank text, and never more than the text's length.
   */
  function CountWords(s: string): (n: nat)
    ensures n <= |s|
    ensures n == 0 <==> forall i :: 0 <= i < |s| ==> IsSpace(s[i])
  {
    CountFromBounds(s, true);
    CountFrom(s, true)
  }

  /** Each character starts at most one word; a blank text starts none, and a word start is found after a space. */
  lemma {:induction false} CountFromBounds(s: string, afterSpace: bool)
    ensures CountFrom(s, afterSpace) <= |s|
    ensures (forall i :: 0 <= i < |s| ==> IsSpace(s[i])) ==> CountFrom(s, afterSpace) == 0
    ensures afterSpace && (exists i :: 0 <= i < |s| && !IsSpace(s[i])) ==> CountFrom(s, afterSpace) >= 1
  {
    if s != [] {
      CountFromBounds(s[1..], IsSpace(s[0]));
      if afterSpace && IsSpace(s[0]) && exists i :: 0 <= i < |s| && !IsSpace(s[i]) {
        var i :| 0 <= i < |s| && !IsSpace(s[i]);
        assert s[1..][i - 1] == s[i];
      }
    }
  }

  predicate EndsInSpace(s: string, afterSpace: bool) {
    if s == [] then afterSpace else IsSpace(s[|s| - 1])
  }

  lemma {:induction false} CountFromConcat(a: string, b: string, p: bool)
    ensures CountFrom(a + b, p) == CountFrom(a, p) + CountFrom(b, EndsInSpace(a, p))
  {
    if a != [] {
      assert (a + b)[1..] == a[1..] + b;
      CountFromConcat(a[1..], b, IsSpace(a[0]));
    } else {
      assert a + b == b;
    }
  }

  /** The total word count of a list of paragraphs. */
  function SumWords(ps: seq<string>): nat {
    if ps == [] then 0 else CountWords(ps[0]) + SumWords(ps[1..])
  }

  lemma {:induction false} SumWordsAppend(a: seq<string>, b: seq<string>)
    ensures SumWords(a + b) == SumWords(a) + SumWords(b)
  {
    if a != [] {
      assert (a + b)[1..] == a[1..] + b;
      SumWordsAppend(a[1..], b);
    } else {
      assert a + b == b;
    }
  }

  /** Joining paragraphs with a blank line neither merges nor splits words. */
  lemma {:induction false} CountWordsJoin(ps: seq<string>)
    ensures CountWords(Join(ps, Separator)) == SumWords(ps)
  {
    if |ps| == 1 {
      assert ps[1..] == [];
    } else if |ps| > 1 {
      var rest := Join(ps[1..], Separator);
      CountWordsJoin(ps[1..]);
      assert ps[0] + Separator + rest == ps[0] + (Separator + rest);
      CountFromConcat(ps[0], Separator + rest, true);
      CountFromConcat(Separator, rest, EndsInSpace(ps[0], true));
    }
  }

  // ---------------------------------------------------------------- paragraphs

  /** The first index at or after i that is not whitespace (or |s|). */
  function RunEnd(s: string, i: nat): (r: nat)
    requires i <= |s|
    ensures i <= r <= |s| && AllSpace(s[i..r])
    ensures forall x :: i <= x < r ==> IsSpace(s[x])
    decreases |s| - i
  {
    if i == |s| || !IsSpace(s[i]) then i else RunEnd(s, i + 1)
  }

  /** The last '\n' in s[a..b], if any. */
  function LastNewline(s: string, a: nat, b: nat): (r: Option<nat>)
    requires a <= b <= |s|
    ensures r.Some? ==> a <= r.value < b && s[r.value] == '\n'
    decreases b - a
  {
    if b == a then None
    else if s[b - 1] == '\n' then Some(b - 1)
    else LastNewline(s, a, b - 1)
  }

  /** The end of a match of /\n\s*\n/ starting at q: greedy \s* backs off to the last newline of the run. */
  function BlankLineEnd(s: string, q: nat): (r: Option<nat>)
    requires q < |s|
    ensures r.Some? ==> q + 2 <= r.value <= |s| && AllSpace(s[q..r.value])
  {
    if s[q] != '\n' then None
    else
      var run := RunEnd(s, q + 1);
      match LastNewline(s, q + 1, run)
      case None => None
      case Some(j) =>
        assert forall y :: q <= y <= j ==> s[q..j + 1][y - q] == s[y];
        Some(j + 1)
  }

  /** String.prototype.split(/\n\s*\n/) from piece start p, scanning at q. */
  function SplitFrom(s: string, p: nat, q: nat): (r: seq<string>)
    requires p <= q <= |s|
    ensures AllSpace(s) ==> forall i :: 0 <= i < |r| ==> AllSpace(r[i])
    decreases |s| - q
  {
    if q == |s| then [s[p..]]
    else match BlankLineEnd(s, q)
      case Some(e) => [s[p..q]] + SplitFrom(s, e, e)
      case None => SplitFrom(s, p, q + 1)
  }

  function SplitBlankLines(s: string): seq<string> {
    SplitFrom(s, 0, 0)
  }

  /** A non-empty string that trimming leaves unchanged. */
  predicate IsTrimmed(s: string) {
    s != "" && Trim(s) == s
  }

  /** .map(p => p.trim()).filter(p => p.length > 0) */
  function NonBlank(pieces: seq<string>): (r: seq<string>)
    ensures forall i :: 0 <= i < |r| ==> IsTrimmed(r[i])
  {
    if pieces == [] then []
    else
      var t := Trim(pieces[0]);
      var rest := NonBlank(pieces[1..]);
      if t == "" then rest
      else
        TrimIdempotent(pieces[0]);
        ConsTrimmed(t, rest);
        [t] + rest
  }

  lemma ConsTrimmed(t: string, rest: seq<string>)
    requires IsTrimmed(t)
    requires forall i :: 0 <= i < |rest| ==> IsTrimmed(rest[i])
    ensures forall i :: 0 <= i < |[t] + rest| ==> IsTrimmed(([t] + rest)[i])
  {
    forall i | 0 <= i < |[t] + rest|
      ensures IsTrimmed(([t] + rest)[i])
    {
      if i > 0 {
        assert ([t] + rest)[i] == rest[i - 1];
      }
    }
  }

  /** The paragraphs chunkText packs. */
  function Paragraphs(rawText: string): seq<string> {
    NonBlank(SplitBlankLines(rawText))
  }

  lemma {:induction false} NonBlankOfBlank(pieces: seq<string>)
    requires forall i :: 0 <= i < |pieces| ==> AllSpace(pieces[i])
    ensures NonBlank(pieces) == []
  {
    if pieces != [] {
      NonBlankOfBlank(pieces[1..]);
    }
  }

  /** Empty or whitespace-only text has no paragraph. */
  lemma BlankTextHasNoParagraphs(rawText: string)
    requires AllSpace(rawText)
    ensures Paragraphs(rawText) == []
  {
    NonBlankOfBlank(SplitBlankLines(rawText));
  }

  // ---------------------------------------------------------------- overlap

  /**
   * Where the overlap taken from ps begins, scanning backwards from k with acc words
   * already collected: a paragraph is added unless it would pass target and something
   * has been collected already.
   */
  function OverlapStart(ps: seq<string>, target: nat, k: nat, acc: nat): (s: nat)
    requires k <= |ps|
    ensures s <= k
    decreases k
  {
    if k == 0 then 0
    else if acc + CountWords(ps[k - 1]) > target && k < |ps| then k
    else OverlapStart(ps, target, k - 1, acc + CountWords(ps[k - 1]))
  }

  /** The specification of getOverlapParagraphs. */
  function Overlap(ps: seq<string>, target: nat): seq<string> {
    ps[OverlapStart(ps, target, |ps|, 0)..]
  }

  /**
   * What a start `s` found by scanning back from `k` satisfies: the suffix from
   * `s` fits the target (or is at most one paragraph), it is non-empty when the
   * scan began at the end, and one more paragraph would not have fitted.
   */
  ghost predicate StartFacts(ps: seq<string>, target: nat, k: nat, s: nat)
  {
    && s <= k <= |ps|
    && (SumWords(ps[s..]) <= target || |ps| - s <= 1)
    && (k == |ps| && |ps| > 0 ==> s < |ps|)
    && (s > 0 ==> SumWords(ps[s..]) + CountWords(ps[s - 1]) > target)
  }

  lemma {:induction false} OverlapStartFacts(ps: seq<string>, target: nat, k: nat, acc: nat)
    requires k <= |ps| && acc == SumWords(ps[k..])
    requires acc <= target || |ps| - k <= 1
    ensures StartFacts(ps, target, k, OverlapStart(ps, target, k, acc))
    decreases k
  {
    if k > 0 {
      var c := CountWords(ps[k - 1]);
      SumWordsFrom(ps, k - 1);
      if acc + c > target && k < |ps| {
        assert OverlapStart(ps, target, k, acc) == k;
      } else {
        OverlapStartFacts(ps, target, k - 1, acc + c);
        var s := OverlapStart(ps, target, k - 1, acc + c);
        assert OverlapStart(ps, target, k, acc) == s;
        StartFactsWiden(ps, target, k, s);
      }
    }
  }

  lemma SumWordsFrom(ps: seq<string>, i: nat)
    requires i < |ps|
    ensures SumWords(ps[i..]) == CountWords(ps[i]) + SumWords(ps[i + 1..])
  {
    assert ps[i..][1..] == ps[i + 1..];
  }

  lemma StartFactsWiden(ps: seq<string>, target: nat, k: nat, s: nat)
    requires 0 < k <= |ps| && StartFacts(ps, target, k - 1, s)
    ensures StartFacts(ps, target, k, s)
  {
  }

  /**
   * The overlap of a non-empty list is a non-empty suffix of it; its words stay
   * within target unless it is a single paragraph; and it is maximal: the paragraph
   * before it would have passed target.
   */
  lemma OverlapFacts(ps: seq<string>, target: nat)
    ensures var o := Overlap(ps, target);
      && |o| <= |ps| && o == ps[|ps| - |o|..]
      && (ps != [] ==> o != [])
      && (SumWords(o) <= target || |o| <= 1)
      && (|o| < |ps| ==> SumWords(o) + CountWords(ps[|ps| - |o| - 1]) > target)
  {
    assert ps[|ps|..] == [];
    OverlapStartFacts(ps, target, |ps|, 0);
  }

  /** Taking paragraph i when it fits (or nothing is taken yet) is a step of OverlapStart. */
  lemma OverlapGrows(ps: seq<string>, target: nat, i: nat, acc: nat)
    requires i < |ps| && acc == SumWords(ps[i + 1..])
    requires !(acc + CountWords(ps[i]) > target && i + 1 < |ps|)
    ensures ps[i..] == [ps[i]] + ps[i + 1..]
    ensures SumWords(ps[i..]) == acc + CountWords(ps[i])
    ensures OverlapStart(ps, target, i + 1, acc) == OverlapStart(ps, target, i, acc + CountWords(ps[i]))
  {
    assert ps[i..] == [ps[i]] + ps[i + 1..];
    assert ps[i..][1..] == ps[i + 1..];
  }

  /** getOverlapParagraphs: a backward loop that unshifts whole paragraphs. */
  method OverlapParagraphs(paragraphs: seq<string>, targetWords: nat) returns (result: seq<string>)
    ensures result == Overlap(paragraphs, targetWords)
    ensures paragraphs != [] ==> result != [] && result == paragraphs[|paragraphs| - |result|..]
    ensures SumWords(result) <= targetWords || |result| <= 1
  {
    result := [];
    var wordCount := 0;
    var i := |paragraphs| - 1;
    while i >= 0
      invariant -1 <= i < |paragraphs|
      invariant result == paragraphs[i + 1..]
      invariant wordCount == SumWords(result)
      invariant OverlapStart(paragraphs, targetWords, |paragraphs|, 0)
                == OverlapStart(paragraphs, targetWords, i + 1, wordCount)
    {
      var paraWords := CountWords(paragraphs[i]);
      if wordCount + paraWords > targetWords && |result| > 0 {
        break;
      }
      OverlapGrows(paragraphs, targetWords, i, wordCount);
      result := [paragraphs[i]] + result;
      wordCount := wordCount + paraWords;
      i := i - 1;
    }
    OverlapFacts(paragraphs, targetWords);
  }

  // ---------------------------------------------------------------- packing

  /** One chunk's paragraphs: the overlap seed copied from the previous chunk, then its own body. */
  datatype Group = Group(seed: seq<string>, body: seq<string>) {
    function Paragraphs(): seq<string> { seed + body }
  }

  /** The loop state of chunkText: the emitted groups and the one being filled. */
  datatype PackState = PackState(done: seq<Group>, cur: Group)

  const Initial := PackState([], Group([], []))

  /** One iteration of the paragraph loop. */
  function Step(st: PackState, para: string): PackState {
    var current := st.cur.Paragraphs();
    if SumWords(current) + CountWords(para) > TargetWords && |current| > 0 then
      PackState(st.done + [st.cur], Group(Overlap(current, OverlapWords), [para]))
    else
      PackState(st.done, Group(st.cur.seed, st.cur.body + [para]))
  }

  function PackAll(ps: seq<string>): PackState {
    if ps == [] then Initial else Step(PackAll(ps[..|ps| - 1]), ps[|ps| - 1])
  }

  /** The groups chunkText emits: the final group only when it is non-empty. */
  function Groups(ps: seq<string>): seq<Group> {
    var st := PackAll(ps);
    if |st.cur.Paragraphs()| > 0 then st.done + [st.cur] else st.done
  }

  function MakeChunk(index: nat, g: Group): Chunk {
    var text := Join(g.Paragraphs(), Separator);
    Chunk(index, text, CountWords(text))
  }

  function ChunksOf(gs: seq<Group>): seq<Chunk> {
    if gs == [] then [] else ChunksOf(gs[..|gs| - 1]) + [MakeChunk(|gs| - 1, gs[|gs| - 1])]
  }

  /** The chunks of a paragraph list. */
  function ChunkSpec(ps: seq<string>): seq<Chunk> {
    ChunksOf(Groups(ps))
  }

  /** The paragraphs that are new in each group, in order. */
  function Bodies(gs: seq<Group>): seq<string> {
    if gs == [] then [] else Bodies(gs[..|gs| - 1]) + gs[|gs| - 1].body
  }

  /** next starts with the overlap of prev, followed by the paragraph that did not fit in prev. */
  ghost predicate SeededFrom(prev: Group, next: Group) {
    && next.seed == Overlap(prev.Paragraphs(), OverlapWords)
    && next.body != []
    && SumWords(prev.Paragraphs()) + CountWords(next.body[0]) > TargetWords
  }

  /** A group passes the target only when its body is the single paragraph that opened it. */
  ghost predicate WithinTarget(g: Group) {
    SumWords(g.Paragraphs()) <= TargetWords || |g.body| == 1
  }

  ghost predicate WellPacked(gs: seq<Group>) {
    && (|gs| > 0 ==> gs[0].seed == [])
    && (forall k :: 0 < k < |gs| ==> SeededFrom(gs[k - 1], gs[k]))
    && (forall k :: 0 <= k < |gs| ==> WithinTarget(gs[k]))
    && (forall k :: 0 <= k < |gs| - 1 ==> gs[k].body != [])
  }

  /** The invariant of the paragraph loop over the state reached after ps. */
  ghost predicate PackInv(ps: seq<string>, st: PackState) {
    && WellPacked(st.done + [st.cur])
    && Bodies(st.done + [st.cur]) == ps
    && (st.cur.body == [] <==> ps == [])
    && (ps == [] ==> st == Initial)
  }

  lemma StepSplits(ps: seq<string>, st: PackState, p: string)
    requires PackInv(ps, st)
    requires SumWords(st.cur.Paragraphs()) + CountWords(p) > TargetWords && |st.cur.Paragraphs()| > 0
    ensures PackInv(ps + [p], Step(st, p))
  {
    var L := st.done + [st.cur];
    var g := Group(Overlap(st.cur.Paragraphs(), OverlapWords), [p]);
    var L' := L + [g];
    assert Step(st, p) == PackState(L, g);
    assert L'[..|L'| - 1] == L;
    assert Bodies(L') == Bodies(L) + [p];
    assert SeededFrom(L'[|L'| - 2], L'[|L'| - 1]);
    assert WellPacked(L');
  }

  lemma StepAppends(ps: seq<string>, st: PackState, p: string)
    requires PackInv(ps, st)
    requires !(SumWords(st.cur.Paragraphs()) + CountWords(p) > TargetWords && |st.cur.Paragraphs()| > 0)
    ensures PackInv(ps + [p], Step(st, p))
  {
    var c := Group(st.cur.seed, st.cur.body + [p]);
    assert Step(st, p) == PackState(st.done, c);
    AppendedBodies(st, p);
    AppendedPacked(st, p);
  }

  lemma AppendedBodies(st: PackState, p: string)
    ensures Bodies(st.done + [Group(st.cur.seed, st.cur.body + [p])]) == Bodies(st.done + [st.cur]) + [p]
  {
    var c := Group(st.cur.seed, st.cur.body + [p]);
    var L := st.done + [st.cur];
    var L' := st.done + [c];
    assert L'[..|L'| - 1] == st.done == L[..|L| - 1];
    assert Bodies(L') == Bodies(st.done) + (st.cur.body + [p]);
    assert Bodies(L) == Bodies(st.done) + st.cur.body;
  }

  lemma AppendedPacked(st: PackState, p: string)
    requires WellPacked(st.done + [st.cur])
    requires st.cur.body == [] ==> st == Initial
    requires !(SumWords(st.cur.Paragraphs()) + CountWords(p) > TargetWords && |st.cur.Paragraphs()| > 0)
    ensures WellPacked(st.done + [Group(st.cur.seed, st.cur.body + [p])])
  {
    var current := st.cur.Paragraphs();
    var c := Group(st.cur.seed, st.cur.body + [p]);
    var L := st.done + [st.cur];
    var L' := st.done + [c];
    SumWordsAppend(current, [p]);
    assert c.Paragraphs() == current + [p];
    assert [p][1..] == [];
    if st.cur.body == [] {
      assert L' == [c];
    } else {
      assert c.body[0] == st.cur.body[0];
      assert WithinTarget(c);
      forall k | 0 < k < |L'| ensures SeededFrom(L'[k - 1], L'[k]) {
        if k == |L'| - 1 {
          assert SeededFrom(L[k - 1], L[k]);
        } else {
          assert L'[k - 1] == L[k - 1] && L'[k] == L[k];
        }
      }
      forall k | 0 <= k < |L'| ensures WithinTarget(L'[k]) {
        if k < |L'| - 1 { assert L'[k] == L[k]; }
      }
      forall k | 0 <= k < |L'| - 1 ensures L'[k].body != [] {
        assert L'[k] == L[k];
      }
    }
  }

  lemma {:induction false} PackInvariant(ps: seq<string>)
    ensures PackInv(ps, PackAll(ps))
  {
    if ps != [] {
      var prefix := ps[..|ps| - 1];
      var p := ps[|ps| - 1];
      PackInvariant(prefix);
      assert prefix + [p] == ps;
      var st := PackAll(prefix);
      if SumWords(st.cur.Paragraphs()) + CountWords(p) > TargetWords && |st.cur.Paragraphs()| > 0 {
        StepSplits(prefix, st, p);
      } else {
        StepAppends(prefix, st, p);
      }
    }
  }

  /**
   * What packing guarantees: every chunk has a body; the first has no seed and
   * every later one is seeded from its predecessor with the paragraph that did not
   * fit (see SeededFrom); a chunk passes the target only through its opening
   * paragraph; and the bodies, concatenated, are exactly the paragraphs in order.
   */
  lemma GroupsWellPacked(ps: seq<string>)
    ensures var gs := Groups(ps);
      && WellPacked(gs)
      && (forall k :: 0 <= k < |gs| ==> gs[k].body != [])
      && Bodies(gs) == ps
      && (gs == [] <==> ps == [])
  {
    PackInvariant(ps);
  }

  /** No paragraph, no chunk; otherwise at least one. */
  lemma NoParagraphsNoChunks(ps: seq<string>)
    ensures ChunkSpec(ps) == [] <==> ps == []
  {
    GroupsWellPacked(ps);
    ChunksOfShape(Groups(ps));
  }

  lemma {:induction false} ChunksOfShape(gs: seq<Group>)
    ensures |ChunksOf(gs)| == |gs|
    ensures forall k :: 0 <= k < |gs| ==> ChunksOf(gs)[k] == MakeChunk(k, gs[k])
  {
    if gs != [] {
      ChunksOfShape(gs[..|gs| - 1]);
    }
  }

  /**
   * Chunk k has index k, its text is the blank-line join of group k's whole
   * paragraphs, and its word count is both countWords of that text and the sum of
   * its paragraphs' word counts.
   */
  lemma ChunkShape(ps: seq<string>)
    ensures var gs := Groups(ps);
      && |ChunkSpec(ps)| == |gs|
      && forall k :: 0 <= k < |gs| ==>
           && ChunkSpec(ps)[k].index == k
           && ChunkSpec(ps)[k].text == Join(gs[k].Paragraphs(), Separator)
           && ChunkSpec(ps)[k].wordCount == CountWords(ChunkSpec(ps)[k].text)
           && ChunkSpec(ps)[k].wordCount == SumWords(gs[k].Paragraphs())
  {
    var gs := Groups(ps);
    ChunksOfShape(gs);
    forall k | 0 <= k < |gs| ensures ChunkSpec(ps)[k].wordCount == SumWords(gs[k].Paragraphs()) {
      CountWordsJoin(gs[k].Paragraphs());
    }
  }

  /**
   * Every chunk after the first begins with a non-empty suffix of the previous
   * chunk's paragraphs (at most OverlapWords words unless it is one paragraph),
   * followed by the paragraph that caused the split.
   */
  lemma OverlapBetweenChunks(ps: seq<string>, k: nat)
    requires 0 < k < |Groups(ps)|
    ensures var gs := Groups(ps);
      var prev := gs[k - 1].Paragraphs();
      var seed := gs[k].seed;
      && gs[k].body != []
      && seed != [] && |seed| <= |prev| && seed == prev[|prev| - |seed|..]
      && (SumWords(seed) <= OverlapWords || |seed| == 1)
      && gs[k].Paragraphs()[|seed|] == gs[k].body[0]
      && SumWords(prev) + CountWords(gs[k].body[0]) > TargetWords
  {
    var gs := Groups(ps);
    GroupsWellPacked(ps);
    SeededAt(gs, k);
    var prev := gs[k - 1].Paragraphs();
    var seed := gs[k].seed;
    assert seed == Overlap(prev, OverlapWords);
    assert prev != [] by { FirstOfBody(gs[k - 1]); }
    OverlapFacts(prev, OverlapWords);
    FirstOfBody(gs[k]);
  }

  lemma FirstOfBody(g: Group)
    requires g.body != []
    ensures g.Paragraphs()[|g.seed|] == g.body[0]
  {
  }

  lemma SeededAt(gs: seq<Group>, k: nat)
    requires WellPacked(gs) && 0 < k < |gs|
    ensures SeededFrom(gs[k - 1], gs[k]) && gs[k - 1].body != []
  {
  }

  /** Only the opening paragraph of a chunk's body can take it past TargetWords. */
  lemma ChunkSizeBound(ps: seq<string>, k: nat)
    requires k < |Groups(ps)|
    ensures var g := Groups(ps)[k];
      && g.body != []
      && (SumWords(g.Paragraphs()) <= TargetWords || g.Paragraphs() == g.seed + [g.body[0]])
  {
    GroupsWellPacked(ps);
    var g := Groups(ps)[k];
    assert WithinTarget(g);
    if |g.body| == 1 {
      assert g.body == [g.body[0]];
    }
  }

  // ---------------------------------------------------------------- chunkText

  lemma SplitStep(st: PackState, para: string)
    requires SumWords(st.cur.Paragraphs()) + CountWords(para) > TargetWords && |st.cur.Paragraphs()| > 0
    ensures var cur := st.cur.Paragraphs();
      && ChunksOf(Step(st, para).done)
         == ChunksOf(st.done) + [Chunk(|st.done|, Join(cur, Separator), SumWords(cur))]
      && Step(st, para).cur.Paragraphs() == Overlap(cur, OverlapWords) + [para]
      && |Step(st, para).done| == |st.done| + 1
  {
    var L := st.done + [st.cur];
    assert L[..|L| - 1] == st.done;
    CountWordsJoin(st.cur.Paragraphs());
  }

  lemma AppendStep(st: PackState, para: string)
    requires !(SumWords(st.cur.Paragraphs()) + CountWords(para) > TargetWords && |st.cur.Paragraphs()| > 0)
    ensures Step(st, para).done == st.done
    ensures Step(st, para).cur.Paragraphs() == st.cur.Paragraphs() + [para]
    ensures SumWords(Step(st, para).cur.Paragraphs()) == SumWords(st.cur.Paragraphs()) + CountWords(para)
  {
    SumWordsAppend(st.cur.Paragraphs(), [para]);
  }

  lemma FinalChunks(ps: seq<string>)
    ensures var st := PackAll(ps);
      ChunkSpec(ps) == if |st.cur.Paragraphs()| > 0 then
        ChunksOf(st.done) + [MakeChunk(|st.done|, st.cur)]
      else ChunksOf(st.done)
  {
    var st := PackAll(ps);
    var L := st.done + [st.cur];
    assert L[..|L| - 1] == st.done;
  }

  /** One turn of chunkText's loop: close the current chunk if the paragraph does not fit, then take it. */
  method Absorb(ghost st: PackState, chunks: seq<Chunk>, current: seq<string>, count: nat, index: nat, para: string)
    returns (chunks': seq<Chunk>, current': seq<string>, count': nat, index': nat)
    requires chunks == ChunksOf(st.done) && current == st.cur.Paragraphs()
    requires count == SumWords(current) && index == |st.done|
    ensures chunks' == ChunksOf(Step(st, para).done) && current' == Step(st, para).cur.Paragraphs()
    ensures count' == SumWords(current') && index' == |Step(st, para).done|
  {
    var paraWords := CountWords(para);
    if count + paraWords > TargetWords && |current| > 0 {
      SplitStep(st, para);
      var text := Join(current, Separator);
      chunks' := chunks + [Chunk(index, text, count)];
      index' := index + 1;

      var overlapParagraphs := OverlapParagraphs(current, OverlapWords);
      current' := overlapParagraphs + [para];
      CountWordsJoin(current');
      count' := CountWords(Join(current', Separator));
    } else {
      AppendStep(st, para);
      chunks', index' := chunks, index;
      current' := current + [para];
      count' := count + paraWords;
    }
  }

  /** chunkText: split into paragraphs, then pack them. */
  method ChunkText(rawText: string) returns (chunks: seq<Chunk>)
    ensures chunks == ChunkSpec(Paragraphs(rawText))
    ensures forall k :: 0 <= k < |chunks| ==>
      chunks[k].index == k && chunks[k].wordCount == CountWords(chunks[k].text)
  {
    var paragraphs := Paragraphs(rawText);
    chunks := PackParagraphs(paragraphs);
    ChunkShape(paragraphs);
  }

  /** chunkText's paragraph loop with its running word count. */
  method PackParagraphs(paragraphs: seq<string>) returns (chunks: seq<Chunk>)
    ensures chunks == ChunkSpec(paragraphs)
  {
    if |paragraphs| == 0 {
      NoParagraphsNoChunks(paragraphs);
      return [];
    }

    chunks := [];
    var currentParagraphs: seq<string> := [];
    var currentWordCount: nat := 0;
    var chunkIndex: nat := 0;

    for i := 0 to |paragraphs|
      invariant chunks == ChunksOf(PackAll(paragraphs[..i]).done)
      invariant currentParagraphs == PackAll(paragraphs[..i]).cur.Paragraphs()
      invariant currentWordCount == SumWords(currentParagraphs)
      invariant chunkIndex == |PackAll(paragraphs[..i]).done|
    {
      PrefixGrows(paragraphs, i);
      chunks, currentParagraphs, currentWordCount, chunkIndex :=
        Absorb(PackAll(paragraphs[..i]), chunks, currentParagraphs, currentWordCount, chunkIndex, paragraphs[i]);
    }

    assert paragraphs[..|paragraphs|] == paragraphs;
    FinalChunks(paragraphs);
    if |currentParagraphs| > 0 {
      var text := Join(currentParagraphs, Separator);
      chunks := chunks + [Chunk(chunkIndex, text, CountWords(text))];
    }
  }

  lemma PrefixGrows(ps: seq<string>, i: nat)
    requires i < |ps|
    ensures ps[..i + 1][..i] == ps[..i] && ps[..i + 1] == ps[..i] + [ps[i]]
  {
  }
}
