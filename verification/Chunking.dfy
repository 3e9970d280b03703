/** extract.ChunkBody: cutting an episode body into overlapping extraction windows. One character is one byte. */
module Chunking {
  import opened Text

  const BROAD_CHUNK_CHARS: nat := 10000
  const CHUNK_OVERLAP_CHARS: nat := 800
  const MIN_TAIL_CHARS: nat := 1200
  const MAX_CHUNKS: nat := 12

  datatype Chunk = Chunk(index: nat, start: nat, end: nat, text: string)

  const SENTENCE_ENDS: seq<string> := [". ", ".\n", "? ", "! ", "\n"]

  /** Offset just after the last occurrence, past minAccept, of the first term that has one. */
  function CutAfter(window: string, terms: seq<string>, minAccept: nat): (r: Option<nat>)
    requires forall i :: 0 <= i < |terms| ==> terms[i] != ""
    ensures r.Some? ==> minAccept + 2 <= r.value <= |window|
  {
    if terms == [] then None
    else
      var i := LastIndex(window, terms[0]);
      if i.Some? && i.value > minAccept then Some(i.value + |terms[0]|)
      else CutAfter(window, terms[1..], minAccept)
  }

  /** Paragraph break, else sentence end, else space, else the hard limit. */
  function BoundaryBefore(s: string, start: nat, limit: nat): (end: nat)
    requires start <= limit <= |s|
    ensures end == limit || start + (limit - start) / 2 + 2 <= end <= limit
  {
    var window := s[start..limit];
    var cut := CutAfter(window, ["\n\n"] + SENTENCE_ENDS + [" "], |window| / 2);
    if cut.Some? then start + cut.value else limit
  }

  /** No occurrence of term in window starts past the middle. */
  ghost predicate NonePast(window: string, term: string, minAccept: nat) {
    forall i :: minAccept < i ==> !OccursAt(window, term, i)
  }

  /** The cut falls right after the last occurrence of the most preferred terminator that occurs past the middle. */
  lemma {:induction false} CutIsPreferred(window: string, terms: seq<string>, minAccept: nat) returns (k: nat)
    requires forall i :: 0 <= i < |terms| ==> terms[i] != ""
    ensures k <= |terms| && forall j :: 0 <= j < k ==> NonePast(window, terms[j], minAccept)
    ensures var cut := CutAfter(window, terms, minAccept);
            if k == |terms| then cut.None?
            else cut.Some? && minAccept + |terms[k]| < cut.value &&
                 OccursAt(window, terms[k], cut.value - |terms[k]|) &&
                 NonePast(window, terms[k], cut.value - |terms[k]|)
  {
    if terms == [] {
      k := 0;
    } else {
      LastIndexLast(window, terms[0]);
      var i := LastIndex(window, terms[0]);
      if i.Some? && i.value > minAccept {
        k := 0;
      } else {
        var k' := CutIsPreferred(window, terms[1..], minAccept);
        k := k' + 1;
        forall j | 0 <= j < k ensures NonePast(window, terms[j], minAccept) {
          if j > 0 { assert terms[j] == terms[1..][j - 1]; }
        }
      }
    }
  }

  /** The cut after position start: right behind the last paragraph break that lies past the middle of s[start..limit];
      without one, behind the last such full stop and space, full stop and line break, question mark and space,
      exclamation mark and space, line break or space, the earlier in this list before the later; else the limit. */
  ghost predicate CutsAt(s: string, start: nat, limit: nat, end: nat)
    requires start <= limit <= |s|
  {
    exists k: nat :: CutsBehind(s, start, limit, k, end)
  }

  ghost predicate CutsBehind(s: string, start: nat, limit: nat, k: nat, end: nat)
    requires start <= limit <= |s|
  {
    var window, mid, terms := s[start..limit], (limit - start) / 2, ["\n\n", ". ", ".\n", "? ", "! ", "\n", " "];
    && k <= 7 && (forall j :: 0 <= j < k ==> NonePast(window, terms[j], mid))
    && if k == 7 then end == limit
       else
         var at := end - start - |terms[k]|;
         mid < at && OccursAt(window, terms[k], at) && NonePast(window, terms[k], at)
  }

  lemma CutInFull(s: string, start: nat, limit: nat)
    requires start <= limit <= |s|
    ensures CutsAt(s, start, limit, BoundaryBefore(s, start, limit))
  {
    hide CutAfter, OccursAt;
    var window, terms := s[start..limit], ["\n\n"] + SENTENCE_ENDS + [" "];
    assert terms == ["\n\n", ". ", ".\n", "? ", "! ", "\n", " "];
    var k := CutIsPreferred(window, terms, |window| / 2);
    assert CutsBehind(s, start, limit, k, BoundaryBefore(s, start, limit));
  }

  /** Where the chunk that begins at start ends. */
  function ChunkEnd(body: string, start: nat): (end: nat)
    requires start < |body|
    ensures start < end <= |body|
  {
    var hard := start + BROAD_CHUNK_CHARS;
    var end := if hard >= |body| then |body| else BoundaryBefore(body, start, hard);
    if |body| - end < MIN_TAIL_CHARS then |body| else end
  }

  /** The loop of ChunkBody from position start on. */
  function ChunksFrom(body: string, start: nat, index: nat): seq<Chunk>
    requires start < |body|
    decreases |body| - start
  {
    var end := ChunkEnd(body, start);
    var chunk := Chunk(index, start, end, TrimSpace(body[start..end]));
    if end >= |body| then [chunk]
    else
      var next := if end <= start + CHUNK_OVERLAP_CHARS then end else end - CHUNK_OVERLAP_CHARS;
      [chunk] + ChunksFrom(body, next, index + 1)
  }

  function ChunksOf(raw: string): seq<Chunk> {
    var body := TrimSpace(raw);
    if body == "" then []
    else if |body| <= BROAD_CHUNK_CHARS then [Chunk(0, 0, |body|, body)]
    else ChunksFrom(body, 0, 0)
  }

  method ChunkBody(raw: string) returns (chunks: seq<Chunk>)
    ensures chunks == ChunksOf(raw)
  {
    var body := TrimSpace(raw);
    if body == "" {
      return [];
    }
    if |body| <= BROAD_CHUNK_CHARS {
      return [Chunk(0, 0, |body|, body)];
    }
    chunks := CutWindows(body);
  }

  /** The loop of ChunkBody. */
  method CutWindows(body: string) returns (chunks: seq<Chunk>)
    requires body != ""
    ensures chunks == ChunksFrom(body, 0, 0)
  {
    hide ChunksFrom, TrimSpace, ChunkEnd;
    chunks := [];
    var start := 0;
    ghost var whole := ChunksFrom(body, 0, 0);
    assert [] + whole == whole;
    while start < |body|
      invariant start < |body|
      invariant chunks + ChunksFrom(body, start, |chunks|) == whole
      decreases |body| - start
    {
      CutOnce(body, start, |chunks|);
      var end := start + BROAD_CHUNK_CHARS;
      if end >= |body| {
        end := |body|;
      } else {
        end := BoundaryBefore(body, start, end);
      }
      // A short remainder is folded into this chunk.
      if |body| - end < MIN_TAIL_CHARS {
        end := |body|;
      }
      assert end == ChunkEnd(body, start) by {
        EndSteps(body, start);
      }
      var chunk := Chunk(|chunks|, start, end, TrimSpace(body[start..end]));
      var next := end - CHUNK_OVERLAP_CHARS;
      if next <= start {
        next := end;
      }
      AppendOne(chunks, chunk, if end >= |body| then [] else ChunksFrom(body, next, |chunks| + 1));
      chunks := chunks + [chunk];
      if end >= |body| {
        break;
      }
      start := next;
    }
  }

  lemma CutOnce(body: string, start: nat, index: nat)
    requires start < |body|
    ensures var end := ChunkEnd(body, start);
            var chunk := Chunk(index, start, end, TrimSpace(body[start..end]));
            var next := if end - CHUNK_OVERLAP_CHARS <= start then end else end - CHUNK_OVERLAP_CHARS;
            ChunksFrom(body, start, index) ==
            [chunk] + (if end >= |body| then [] else ChunksFrom(body, next, index + 1))
  {
    hide TrimSpace, ChunkEnd;
  }

  lemma EndSteps(body: string, start: nat)
    requires start < |body|
    ensures var hard := start + BROAD_CHUNK_CHARS;
            var cut := if hard >= |body| then |body| else BoundaryBefore(body, start, hard);
            ChunkEnd(body, start) == if |body| - cut < MIN_TAIL_CHARS then |body| else cut
  {
  }

  // ---- what the windows guarantee ----

  /** The chunks cs tile [start, n): they begin at start, end at n, and each hands exactly 800 bytes to the next. */
  ghost predicate Tiles(cs: seq<Chunk>, start: nat, n: nat) {
    && cs != []
    && cs[0].start == start && cs[|cs| - 1].end == n
    && (forall i :: 0 <= i < |cs| - 1 ==> cs[i + 1].start == cs[i].end - 800)
    && (forall i :: 0 <= i < |cs| - 1 ==> 5002 <= cs[i].end - cs[i].start <= 10000)
    && 2000 <= cs[|cs| - 1].end - cs[|cs| - 1].start <= 11199
  }

  /** A window cut from position start of a body with at least 2,000 bytes left. */
  lemma ChunkEndBounds(body: string, start: nat)
    requires start + 2000 <= |body|
    ensures var end := ChunkEnd(body, start);
            if end < |body| then
              5002 <= end - start <= BROAD_CHUNK_CHARS && end + MIN_TAIL_CHARS <= |body| &&
              start + BROAD_CHUNK_CHARS < |body|
            else 2000 <= end - start <= 11199
  {
  }

  /** c ends at the cut before 10,000 bytes are full, or with the body when that, or what the cut would leave, is
      less than the window or than 1,200 bytes. */
  ghost predicate EndsRight(c: Chunk, body: string) {
    && c.start <= c.end <= |body|
    && if c.start + 10000 >= |body| then c.end == |body| else EndsAtCut(body, c.start, c.start + 10000, c.end)
  }

  ghost predicate EndsAtCut(body: string, start: nat, limit: nat, end: nat)
    requires start <= limit <= |body|
  {
    exists cut: nat :: CutsAt(body, start, limit, cut) && end == if cut + 1200 > |body| then |body| else cut
  }

  lemma EndIsRight(body: string, start: nat, index: nat, text: string)
    requires start < |body|
    ensures EndsRight(Chunk(index, start, ChunkEnd(body, start), text), body)
  {
    hide CutsAt;
    if start + 10000 < |body| {
      CutInFull(body, start, start + 10000);
    }
  }

  /** What ChunksFrom gives: a tiling whose chunks are numbered in order, end where they should and hold the trimmed
      text of their span. */
  ghost predicate Windows(cs: seq<Chunk>, body: string, start: nat, index: nat) {
    && Tiles(cs, start, |body|)
    && (forall i :: 0 <= i < |cs| - 1 ==> cs[i].start + BROAD_CHUNK_CHARS < |body|)
    && (forall i :: 0 <= i < |cs| ==> IsWindow(cs[i], body, index + i))
  }

  ghost predicate IsWindow(c: Chunk, body: string, index: nat) {
    c.index == index && c.start <= c.end <= |body| && c.text == TrimSpace(body[c.start..c.end]) && EndsRight(c, body)
  }

  lemma WindowsCons(c: Chunk, rest: seq<Chunk>, body: string)
    requires c.end < |body| && IsWindow(c, body, c.index)
    requires 5002 <= c.end - c.start <= BROAD_CHUNK_CHARS && c.start + BROAD_CHUNK_CHARS < |body|
    requires Windows(rest, body, c.end - CHUNK_OVERLAP_CHARS, c.index + 1)
    ensures Windows([c] + rest, body, c.start, c.index)
  {
    var cs := [c] + rest;
    TilesCons(c, rest, |body|);
    forall i | 0 <= i < |cs| ensures IsWindow(cs[i], body, c.index + i) {
      if i > 0 {
        assert cs[i] == rest[i - 1] && IsWindow(rest[i - 1], body, c.index + 1 + (i - 1));
      }
    }
    forall i | 0 <= i < |cs| - 1 ensures cs[i].start + BROAD_CHUNK_CHARS < |body| {
      if i > 0 {
        assert cs[i] == rest[i - 1];
      }
    }
  }

  lemma TilesCons(c: Chunk, rest: seq<Chunk>, n: nat)
    requires CHUNK_OVERLAP_CHARS <= c.end && 5002 <= c.end - c.start <= BROAD_CHUNK_CHARS
    requires Tiles(rest, c.end - CHUNK_OVERLAP_CHARS, n)
    ensures Tiles([c] + rest, c.start, n)
  {
    var cs := [c] + rest;
    forall i | 0 <= i < |cs| - 1
      ensures cs[i + 1].start == cs[i].end - CHUNK_OVERLAP_CHARS
      ensures 5002 <= cs[i].end - cs[i].start <= BROAD_CHUNK_CHARS
    {
      assert cs[i + 1] == rest[i];
      if i > 0 {
        assert cs[i] == rest[i - 1] && rest[i - 1 + 1] == rest[i];
      }
    }
  }

  lemma WindowsLast(c: Chunk, body: string)
    requires c.end == |body| && IsWindow(c, body, c.index) && 2000 <= c.end - c.start <= 11199
    ensures Windows([c], body, c.start, c.index)
  {
  }

  lemma {:induction false} ChunksFromTile(body: string, start: nat, index: nat)
    requires start + 2000 <= |body|
    ensures Windows(ChunksFrom(body, start, index), body, start, index)
    decreases |body| - start
  {
    hide Windows, ChunkEnd, TrimSpace, EndsRight;
    var end := ChunkEnd(body, start);
    var c := Chunk(index, start, end, TrimSpace(body[start..end]));
    ChunkEndBounds(body, start);
    EndIsRight(body, start, index, TrimSpace(body[start..end]));
    if end < |body| {
      var rest := ChunksFrom(body, end - CHUNK_OVERLAP_CHARS, index + 1);
      assert ChunksFrom(body, start, index) == [c] + rest;
      ChunksFromTile(body, end - CHUNK_OVERLAP_CHARS, index + 1);
      WindowsCons(c, rest, body);
    } else {
      assert ChunksFrom(body, start, index) == [c];
      WindowsLast(c, body);
    }
  }

  /** A long body is covered end to end, in windows of bounded size that overlap by exactly 800 bytes. */
  lemma LongBodyTiled(raw: string)
    requires |TrimSpace(raw)| > 10000
    ensures Windows(ChunksOf(raw), TrimSpace(raw), 0, 0)
  {
    ChunksFromTile(TrimSpace(raw), 0, 0);
  }

  lemma {:induction false} EndsIncrease(cs: seq<Chunk>, start: nat, n: nat, i: nat, j: nat)
    requires Tiles(cs, start, n) && i <= j < |cs|
    ensures cs[i].end <= cs[j].end && cs[i].start <= cs[j].start
    ensures i < j ==> cs[i].end < cs[j].end && cs[i].start < cs[j].start
    decreases j - i
  {
    if i < j {
      EndsIncrease(cs, start, n, i, j - 1);
    }
  }

  predicate Holds(c: Chunk, from: int, to: int) {
    c.start <= from && to <= c.end
  }

  /** Nothing of up to 801 bytes is ever cut in half: some single window holds all of it. */
  lemma SpanInOneChunk(raw: string, from: nat, to: nat) returns (k: nat)
    requires from < to <= |TrimSpace(raw)| && to - from <= 801
    ensures k < |ChunksOf(raw)| && Holds(ChunksOf(raw)[k], from, to)
  {
    var n := |TrimSpace(raw)|;
    if n <= BROAD_CHUNK_CHARS {
      k := 0;
    } else {
      LongBodyTiled(raw);
      k := FindHolder(ChunksOf(raw), 0, n, from, to);
    }
  }

  lemma {:induction false} FindHolder(cs: seq<Chunk>, start: nat, n: nat, from: nat, to: nat) returns (k: nat)
    requires Tiles(cs, start, n) && start <= from < to <= n && to - from <= CHUNK_OVERLAP_CHARS + 1
    ensures k < |cs| && Holds(cs[k], from, to)
    decreases |cs|
  {
    if to <= cs[0].end {
      k := 0;
    } else {
      assert |cs| > 1;
      assert Tiles(cs[1..], cs[1].start, n);
      var k' := FindHolder(cs[1..], cs[1].start, n, from, to);
      k := k' + 1;
    }
  }

  /** 801 is exact: around the end of every window but the last sits a span of 802 bytes that no window holds. */
  lemma LongerSpanIsCut(raw: string, i: nat)
    requires |TrimSpace(raw)| > 10000 && i + 1 < |ChunksOf(raw)|
    ensures var e := ChunksOf(raw)[i].end;
            && 801 <= e < |TrimSpace(raw)|
            && forall k :: 0 <= k < |ChunksOf(raw)| ==> !Holds(ChunksOf(raw)[k], e - 801, e + 1)
  {
    var cs, n := ChunksOf(raw), |TrimSpace(raw)|;
    LongBodyTiled(raw);
    EndsIncrease(cs, 0, n, i, |cs| - 1);
    forall k | 0 <= k < |cs| ensures !Holds(cs[k], cs[i].end - 801, cs[i].end + 1) {
      if k <= i {
        EndsIncrease(cs, 0, n, k, i);
      } else {
        EndsIncrease(cs, 0, n, i + 1, k);
      }
    }
  }

  lemma {:induction false} StartsAdvance(cs: seq<Chunk>, n: nat, i: nat)
    requires Tiles(cs, 0, n) && i < |cs|
    ensures cs[i].start >= 4202 * i
  {
    if i > 0 {
      StartsAdvance(cs, n, i - 1);
    }
  }

  /** k windows are enough for 10,000 + 4,202 (k - 1) bytes: each further window advances by at least 4,202. */
  lemma ChunkCount(raw: string, k: nat)
    requires 1 <= k && |TrimSpace(raw)| <= 4202 * (k - 1) + 10000
    ensures |ChunksOf(raw)| <= k
  {
    var cs := ChunksOf(raw);
    if |TrimSpace(raw)| > BROAD_CHUNK_CHARS && |cs| > k {
      LongBodyTiled(raw);
      StartsAdvance(cs, |TrimSpace(raw)|, k - 1);
      assert false;
    }
  }

  /** The windows Extract sends to the model. */
  function Capped(raw: string): (sent: seq<Chunk>)
    ensures sent <= ChunksOf(raw) && |sent| <= 12 && (|sent| < 12 ==> sent == ChunksOf(raw))
  {
    var cs := ChunksOf(raw);
    if |cs| > MAX_CHUNKS then cs[..MAX_CHUNKS] else cs
  }

  /** The cap of 12 windows drops nothing from a body of up to 56,222 bytes; every short span of such a body reaches
      the model whole. */
  lemma CapDropsNothing(raw: string, from: nat, to: nat) returns (k: nat)
    requires |TrimSpace(raw)| <= 56222
    requires from < to <= |TrimSpace(raw)| && to - from <= 801
    ensures Capped(raw) == ChunksOf(raw)
    ensures k < |Capped(raw)| && Holds(Capped(raw)[k], from, to)
  {
    ChunkCount(raw, MAX_CHUNKS);
    k := SpanInOneChunk(raw, from, to);
  }
}
