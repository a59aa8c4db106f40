/** `services/evidence/chunking.py`: splitting text into overlapping windows, and packing
    paragraphs or sentences. */
module Chunking {
  import opened Common

  // ----- Python's string operations -----

  function Clip(i: int, n: nat): (r: nat)
    ensures r <= n && (0 <= i <= n ==> r == i)
  {
    var j := if i < 0 then i + n else i;
    if j < 0 then 0 else if j > n then n else j
  }

  /** `text[a:b]`, negative positions counting from the end. */
  function Slice(text: string, a: int, b: int): string {
    if Clip(a, |text|) <= Clip(b, |text|) then text[Clip(a, |text|)..Clip(b, |text|)] else []
  }

  /** `s.rfind(' ')` */
  function LastSpace(s: string): (k: int)
    ensures -1 <= k < |s| && (k >= 0 ==> s[k] == ' ')
    ensures forall i | k < i < |s| :: s[i] != ' '
  {
    if s == [] then -1 else if s[|s| - 1] == ' ' then |s| - 1 else LastSpace(s[..|s| - 1])
  }

  // ----- windows -----

  /** The end of the window at `start`: behind `size` characters, or at the last space in them if
      text remains and that space lies past the middle. */
  function End(text: string, start: int, size: nat): int {
    if start + size < |text| then
      var space := LastSpace(Slice(text, start, start + size));
      if space > size / 2 then start + space else start + size
    else start + size
  }

  /** A window's recorded span; its end may lie behind the text. */
  datatype Window = Window(start: int, end: int)

  /** Windows that start at the beginning, each `overlap` before the end of the one before it, as
      long as there is text, none longer than `size`. */
  ghost predicate Windows(ws: seq<Window>, text: string, size: nat, overlap: nat) {
    && (ws != [] ==> ws[0].start == 0)
    && (forall k | 0 < k < |ws| :: ws[k].start == ws[k - 1].end - overlap)
    && forall k | 0 <= k < |ws| :: 0 <= ws[k].start < |text| && Fits(ws[k], text, size)
  }

  /** At most `size` long, and shorter only if text remains: then cut at a space past the middle.
      No later space would have done. */
  ghost predicate Fits(w: Window, text: string, size: nat) {
    && 0 <= w.start < w.end <= w.start + size
    && (w.end < w.start + size ==>
          w.start + size < |text| && text[w.end] == ' ' && w.end - w.start > size / 2)
    && (w.start + size < |text| ==>
          forall i | Tried(w, size) < i < w.start + size :: text[i] != ' ')
  }

  /** Behind this position every character was ruled out as a cut. */
  function Tried(w: Window, size: nat): int { if w.end < w.start + size then w.end else w.start + size / 2 }

  /** Each step moves forward. */
  predicate Advances(size: nat, overlap: nat) { overlap <= size / 2 && overlap < size }

  lemma EndFits(text: string, start: nat, size: nat)
    requires start < |text| && size >= 1
    ensures Fits(Window(start, End(text, start, size)), text, size)
  {
    if start + size < |text| {
      var content := Slice(text, start, start + size);
      var space := LastSpace(content);
      forall i | start + space < i < start + size ensures text[i] != ' ' { assert content[i - start] == text[i]; }
      if space > size / 2 { assert content[space] == text[start + space]; }
    }
  }

  datatype Chunk = Chunk(id: nat, content: string, start: int, end: int)

  function Span(c: Chunk): Window { Window(c.start, c.end) }

  function Spans(chunks: seq<Chunk>): (ws: seq<Window>)
    ensures |ws| == |chunks| && forall k | 0 <= k < |ws| :: ws[k] == Span(chunks[k])
  {
    seq(|chunks|, k requires 0 <= k < |chunks| => Span(chunks[k]))
  }

  /** Where the next window starts. */
  function Resume(ws: seq<Window>, overlap: nat): int { if ws == [] then 0 else ws[|ws| - 1].end - overlap }

  lemma OneMoreWindow(ws: seq<Window>, w: Window, text: string, size: nat, overlap: nat)
    requires Windows(ws, text, size, overlap)
    requires w.start == Resume(ws, overlap) && 0 <= w.start < |text| && Fits(w, text, size)
    ensures Windows(ws + [w], text, size, overlap)
  {
  }

  /** The chunks are numbered, and each holds the stripped text of its window. */
  ghost predicate Holds(chunks: seq<Chunk>, text: string, strip: string -> string) {
    forall k | 0 <= k < |chunks| ::
      chunks[k].id == k && chunks[k].content == strip(Slice(text, chunks[k].start, chunks[k].end))
  }

  /** One turn of the loop. */
  method NextChunk(text: string, size: nat, start: nat, id: nat, strip: string -> string) returns (chunk: Chunk)
    ensures chunk.id == id && chunk.start == start && chunk.end == End(text, start, size)
    ensures chunk.content == strip(Slice(text, chunk.start, chunk.end))
  {
    var end := start + size;
    var chunkText := Slice(text, start, end);
    if end < |text| {
      var lastSpace := LastSpace(chunkText);
      if lastSpace > size / 2 {
        end := start + lastSpace;
        chunkText := Slice(text, start, end);
      }
    }
    chunk := Chunk(id, strip(chunkText), start, end);
  }

  /** `strip` is Python's. The loop ends because every step moves forward. */
  method SlidingWindowChunk(text: string, size: nat, overlap: nat, strip: string -> string) returns (chunks: seq<Chunk>)
    requires Advances(size, overlap)
    ensures Windows(Spans(chunks), text, size, overlap) && Resume(Spans(chunks), overlap) >= |text|
    ensures Holds(chunks, text, strip)
  {
    chunks := [];
    var start := 0;
    while start < |text|
      invariant 0 <= start == Resume(Spans(chunks), overlap)
      invariant Windows(Spans(chunks), text, size, overlap) && Holds(chunks, text, strip)
      decreases |text| - start
    {
      var chunk := NextChunk(text, size, start, |chunks|, strip);
      EndFits(text, start, size);
      OneMoreWindow(Spans(chunks), Span(chunk), text, size, overlap);
      assert Spans(chunks + [chunk]) == Spans(chunks) + [Span(chunk)];
      chunks := chunks + [chunk];
      start := chunk.end - overlap;
    }
  }

  // ----- nothing is lost -----

  /** The text of a window. */
  function Raw(text: string, w: Window): string
    requires 0 <= w.start
  {
    Slice(text, w.start, w.end)
  }

  function Dropped(s: string, n: nat): string { if n <= |s| then s[n..] else [] }

  /** The windows put together again, each without the characters it shares with the one before. */
  ghost function Rebuilt(text: string, ws: seq<Window>, overlap: nat): string
    requires forall k | 0 <= k < |ws| :: 0 <= ws[k].start
  {
    if ws == [] then []
    else if |ws| == 1 then Raw(text, ws[0])
    else Rebuilt(text, ws[..|ws| - 1], overlap) + Dropped(Raw(text, ws[|ws| - 1]), overlap)
  }

  function UpTo(i: int, n: nat): nat { if i < 0 then 0 else if i > n then n else i }

  lemma LastJoins(text: string, ws: seq<Window>, size: nat, overlap: nat)
    requires Windows(ws, text, size, overlap) && Advances(size, overlap) && |ws| > 1
    ensures var last := ws[|ws| - 1];
      text[..UpTo(ws[|ws| - 2].end, |text|)] + Dropped(Raw(text, last), overlap) == text[..UpTo(last.end, |text|)]
  {
    JoinAt(text, ws[|ws| - 2].end, ws[|ws| - 1].end, overlap);
  }

  lemma {:induction false} RebuiltSoFar(text: string, ws: seq<Window>, size: nat, overlap: nat)
    requires Windows(ws, text, size, overlap) && Advances(size, overlap) && ws != []
    ensures Rebuilt(text, ws, overlap) == text[..UpTo(ws[|ws| - 1].end, |text|)]
  {
    if |ws| > 1 {
      var n := |ws| - 1;
      RebuiltSoFar(text, ws[..n], size, overlap);
      LastJoins(text, ws, size, overlap);
    }
  }

  /** Dropping from every window what it shares with the one before it rebuilds the whole text. */
  lemma WindowsRebuildTheText(text: string, ws: seq<Window>, size: nat, overlap: nat)
    requires Windows(ws, text, size, overlap) && Advances(size, overlap) && Resume(ws, overlap) >= |text|
    ensures Rebuilt(text, ws, overlap) == text
  {
    if ws != [] { RebuiltSoFar(text, ws, size, overlap); }
  }

  lemma JoinAt(text: string, first: int, second: int, overlap: nat)
    requires 0 <= first - overlap < |text| && first - overlap < second
    ensures text[..UpTo(first, |text|)] + Dropped(Slice(text, first - overlap, second), overlap) ==
      text[..if first <= second then UpTo(second, |text|) else UpTo(first, |text|)]
  {
  }

  // ----- exactly when a window is superfluous -----

  /** Window `k` holds nothing that the one before it does not hold. */
  ghost predicate AddsNothing(text: string, ws: seq<Window>, overlap: nat, k: nat)
    requires 0 < k < |ws| && 0 <= ws[k].start
  {
    Dropped(Raw(text, ws[k]), overlap) == []
  }

  ghost predicate EndsCloseBehind(text: string, w: Window, overlap: nat) { |text| <= w.end < |text| + overlap }

  lemma WindowMovesOn(text: string, ws: seq<Window>, size: nat, overlap: nat, k: nat)
    requires Windows(ws, text, size, overlap) && Advances(size, overlap) && 0 < k < |ws|
    ensures ws[k - 1].end < ws[k].end && ws[k - 1].end < |text| + overlap
    ensures ws[k - 1].end >= |text| ==> k == |ws| - 1
    ensures AddsNothing(text, ws, overlap, k) <==> ws[k - 1].end >= |text|
  {
    if k + 1 < |ws| { assert ws[k + 1].start == ws[k].end - overlap; }
  }

  /** Only the last window can be superfluous, and it is exactly if some window's end lies behind the
      text, but by less than the overlap. */
  lemma SuperfluousIfEndIsClose(text: string, ws: seq<Window>, size: nat, overlap: nat)
    requires Windows(ws, text, size, overlap) && Advances(size, overlap) && Resume(ws, overlap) >= |text|
    ensures forall k | 0 < k < |ws| - 1 :: !AddsNothing(text, ws, overlap, k)
    ensures |ws| >= 2 && AddsNothing(text, ws, overlap, |ws| - 1) <==>
      exists k | 0 <= k < |ws| :: EndsCloseBehind(text, ws[k], overlap)
  {
    forall k | 0 < k < |ws|
      ensures AddsNothing(text, ws, overlap, k) <==> EndsCloseBehind(text, ws[k - 1], overlap)
      ensures AddsNothing(text, ws, overlap, k) ==> k == |ws| - 1
    {
      WindowMovesOn(text, ws, size, overlap, k);
    }
    if k :| 0 <= k < |ws| && EndsCloseBehind(text, ws[k], overlap) {
      assert k + 1 < |ws| && AddsNothing(text, ws, overlap, k + 1);
    }
  }

  /** So it is for every text that one chunk would hold, if it is longer than the chunk size less the
      overlap: it becomes two chunks, the second inside the first. */
  lemma ShortTextIsChunkedTwice(text: string, ws: seq<Window>, size: nat, overlap: nat)
    requires Windows(ws, text, size, overlap) && Advances(size, overlap) && Resume(ws, overlap) >= |text|
    requires size - overlap < |text| <= size
    ensures |ws| == 2 && Raw(text, ws[0]) == text && AddsNothing(text, ws, overlap, 1)
  {
    assert ws[0].end == size && |ws| > 1;
    WindowMovesOn(text, ws, size, overlap, 1);
  }

  // ----- exactly when the loop ends -----

  function Iterate(step: int -> int, n: nat): int { if n == 0 then 0 else step(Iterate(step, n - 1)) }

  function Turn(text: string, size: nat, overlap: nat): int -> int { (start: int) => End(text, start, size) - overlap }

  /** Where the loop stands after `n` turns, whether or not it has ended. */
  function StartAfter(text: string, size: nat, overlap: nat, n: nat): int { Iterate(Turn(text, size, overlap), n) }

  ghost predicate Ends(text: string, size: nat, overlap: nat) {
    exists n: nat :: StartAfter(text, size, overlap, n) >= |text|
  }

  lemma {:induction false} ClimbsTo(step: int -> int, bound: nat, n: nat)
    requires forall s | 0 <= s < bound :: step(s) > s
    requires forall k: nat | k < n :: Iterate(step, k) < bound
    ensures Iterate(step, n) >= n
  {
    if n > 0 { ClimbsTo(step, bound, n - 1); }
  }

  lemma {:induction false} StaysDown(step: int -> int, n: nat)
    requires forall s | s <= 0 :: step(s) <= 0
    ensures Iterate(step, n) <= 0
  {
    if n > 0 { StaysDown(step, n - 1); }
  }

  lemma {:induction false} StaysPut(step: int -> int, n: nat)
    requires step(0) == 0
    ensures Iterate(step, n) == 0
  {
    if n > 0 { StaysPut(step, n - 1); }
  }

  lemma Climbs(step: int -> int, bound: nat) returns (n: nat)
    requires forall s | 0 <= s < bound :: step(s) > s
    ensures Iterate(step, n) >= bound
  {
    if k: nat :| k < bound && Iterate(step, k) >= bound {
      n := k;
    } else {
      ClimbsTo(step, bound, bound);
      n := bound;
    }
  }

  lemma AdvancingEnds(text: string, size: nat, overlap: nat)
    requires Advances(size, overlap)
    ensures Ends(text, size, overlap)
  {
    assert forall start: int | 0 <= start < |text| :: Turn(text, size, overlap)(start) > start;
    var n := Climbs(Turn(text, size, overlap), |text|);
    assert StartAfter(text, size, overlap, n) >= |text|;
  }

  function Repeat(c: char, n: nat): (s: string)
    ensures |s| == n && forall k | 0 <= k < n :: s[k] == c
  {
    seq(n, k => c)
  }

  lemma LastSpaceIs(s: string, k: nat)
    requires k < |s| && s[k] == ' ' && forall i | k < i < |s| :: s[i] != ' '
    ensures LastSpace(s) == k
  {
  }

  function Trap(size: nat, overlap: nat): (text: string)
    ensures |text| == overlap + 1 + size
    ensures forall i | 0 <= i < |text| :: text[i] == if i == overlap then ' ' else 'x'
  {
    Repeat('x', overlap) + [' '] + Repeat('x', size)
  }

  lemma TrapCloses(size: nat, overlap: nat)
    requires size / 2 < overlap < size
    ensures End(Trap(size, overlap), 0, size) == overlap
  {
    var text := Trap(size, overlap);
    assert Slice(text, 0, size) == text[..size];
    LastSpaceIs(text[..size], overlap);
  }

  /** A space `overlap` characters in, past the middle of the window: the loop returns to where it was. */
  lemma StuckAtTheSpace(size: nat, overlap: nat)
    requires size / 2 < overlap < size
    ensures !Ends(Trap(size, overlap), size, overlap)
  {
    var text := Trap(size, overlap);
    TrapCloses(size, overlap);
    forall n: nat ensures StartAfter(text, size, overlap, n) < |text| { StaysPut(Turn(text, size, overlap), n); }
  }

  /** A text without a space: no window is shortened, and none starts behind its first character. */
  lemma NeverForward(size: nat, overlap: nat)
    requires overlap >= size
    ensures !Ends("x", size, overlap)
  {
    forall n: nat ensures StartAfter("x", size, overlap, n) < |"x"| { StaysDown(Turn("x", size, overlap), n); }
  }

  /** The loop ends on every text exactly if the overlap is at most half the chunk size, and below it. */
  lemma EndsOnEveryText(size: nat, overlap: nat)
    ensures (forall text :: Ends(text, size, overlap)) <==> Advances(size, overlap)
  {
    if Advances(size, overlap) {
      forall text ensures Ends(text, size, overlap) { AdvancingEnds(text, size, overlap); }
    } else if overlap >= size {
      NeverForward(size, overlap);
    } else {
      StuckAtTheSpace(size, overlap);
    }
  }

  // ----- defaults -----

  /** `value or default` */
  function OrDefault(value: Option<nat>, default: nat): nat {
    if value.Some? && value.value != 0 then value.value else default
  }

  /** The sizes a caller of `chunk_text` ends up with. */
  function ResolvedSize(size: Option<nat>): nat { OrDefault(size, 512) }

  function ResolvedOverlap(overlap: Option<nat>): nat { OrDefault(overlap, 50) }

  /** What a caller may ask for so that chunking ends on every text. An overlap of zero cannot be
      asked for: it is taken for a missing one, and then chunk sizes below 100 are out of range. */
  lemma RequestedEndsOnEveryText(size: Option<nat>, overlap: Option<nat>)
    ensures (forall text :: Ends(text, ResolvedSize(size), ResolvedOverlap(overlap))) <==>
      if overlap.None? || overlap.value == 0 then ResolvedSize(size) >= 100
      else overlap.value <= ResolvedSize(size) / 2 && overlap.value < ResolvedSize(size)
  {
    EndsOnEveryText(ResolvedSize(size), ResolvedOverlap(overlap));
  }

  // ----- packing -----

  /** The pieces joined with the separator between them. */
  function Join(pieces: seq<string>, separator: string): string {
    if pieces == [] then []
    else if |pieces| == 1 then pieces[0]
    else Join(pieces[..|pieces| - 1], separator) + separator + pieces[|pieces| - 1]
  }

  function NonEmpty(pieces: seq<string>): seq<string> {
    if pieces == [] then []
    else NonEmpty(pieces[..|pieces| - 1]) + if pieces[|pieces| - 1] == [] then [] else [pieces[|pieces| - 1]]
  }

  function Flatten(groups: seq<seq<string>>): seq<string> {
    if groups == [] then [] else Flatten(groups[..|groups| - 1]) + groups[|groups| - 1]
  }

  /** Groups of pieces that fit: one piece each, or joined no longer than `limit`; and greedy, in
      that no group could have taken the first piece of the next one as well. */
  ghost predicate Packed(groups: seq<seq<string>>, separator: string, limit: int) {
    && (forall k | 0 <= k < |groups| :: groups[k] != [] && (|groups[k]| == 1 || |Join(groups[k], separator)| <= limit))
    && (forall k | 0 <= k < |groups| - 1 :: |Join(groups[k], separator)| + |groups[k + 1][0]| + |separator| > limit)
  }

  ghost predicate AreJoins(chunks: seq<string>, groups: seq<seq<string>>, separator: string) {
    |chunks| == |groups| && forall k | 0 <= k < |chunks| :: chunks[k] == Join(groups[k], separator)
  }

  /** The finished groups and the one being filled. */
  function Closed(groups: seq<seq<string>>, open: seq<string>): seq<seq<string>> {
    if open == [] then groups else groups + [open]
  }

  /** What holds after the pieces seen so far. */
  ghost predicate Filling(chunks: seq<string>, groups: seq<seq<string>>, current: string, open: seq<string>,
                          seen: seq<string>, separator: string, limit: int) {
    && current == Join(open, separator) && (current == [] <==> open == [])
    && AreJoins(chunks, groups, separator)
    && Packed(Closed(groups, open), separator, limit) && (open == [] ==> groups == [])
    && Flatten(Closed(groups, open)) == NonEmpty(seen)
  }

  /** The piece joins the current chunk. */
  lemma Joins(chunks: seq<string>, groups: seq<seq<string>>, current: string, open: seq<string>,
              seen: seq<string>, separator: string, limit: int, piece: string)
    requires Filling(chunks, groups, current, open, seen, separator, limit)
    requires piece != [] && |current| + |piece| + |separator| <= limit && open != []
    ensures Filling(chunks, groups, current + separator + piece, open + [piece], seen + [piece], separator, limit)
  {
    PackedWithLonger(groups, open, piece, separator, limit);
    assert Flatten(groups) + (open + [piece]) == Flatten(groups) + open + [piece];
  }

  /** The first piece of all. */
  lemma Begins(chunks: seq<string>, groups: seq<seq<string>>, current: string, open: seq<string>,
               seen: seq<string>, separator: string, limit: int, piece: string)
    requires Filling(chunks, groups, current, open, seen, separator, limit) && piece != [] && open == []
    ensures Filling(chunks, groups, piece, [piece], seen + [piece], separator, limit)
  {
    PackedWithNext(groups, piece, separator, limit);
  }

  lemma TakenIn(chunks: seq<string>, groups: seq<seq<string>>, current: string, open: seq<string>,
                seen: seq<string>, separator: string, limit: int, piece: string)
    requires Filling(chunks, groups, current, open, seen, separator, limit)
    requires piece != [] && |current| + |piece| + |separator| <= limit
    ensures Filling(chunks, groups, current + (if current != "" then separator else "") + piece, open + [piece],
                    seen + [piece], separator, limit)
  {
    if open == [] {
      Begins(chunks, groups, current, open, seen, separator, limit, piece);
      assert current + "" + piece == piece && open + [piece] == [piece];
    } else {
      Joins(chunks, groups, current, open, seen, separator, limit, piece);
    }
  }

  lemma PackedWithLonger(groups: seq<seq<string>>, open: seq<string>, piece: string, separator: string, limit: int)
    requires Packed(groups + [open], separator, limit) && open != []
    requires |Join(open + [piece], separator)| <= limit
    ensures Packed(groups + [open + [piece]], separator, limit)
  {
    var before, after := groups + [open], groups + [open + [piece]];
    forall k | 0 <= k < |after| ensures after[k] != [] && (|after[k]| == 1 || |Join(after[k], separator)| <= limit) {
      if k < |groups| { assert after[k] == before[k]; }
    }
    forall k | 0 <= k < |after| - 1 ensures |Join(after[k], separator)| + |after[k + 1][0]| + |separator| > limit {
      assert after[k] == before[k] && before[k + 1] != [] && after[k + 1][0] == before[k + 1][0];
    }
  }

  /** The piece starts the next chunk. */
  lemma Starts(chunks: seq<string>, groups: seq<seq<string>>, current: string, open: seq<string>,
               seen: seq<string>, separator: string, limit: int, piece: string)
    requires Filling(chunks, groups, current, open, seen, separator, limit)
    requires piece != [] && |current| + |piece| + |separator| > limit
    ensures Filling(if current != "" then chunks + [current] else chunks, Closed(groups, open), piece, [piece],
                    seen + [piece], separator, limit)
  {
    PackedWithNext(Closed(groups, open), piece, separator, limit);
  }

  lemma PackedWithNext(groups: seq<seq<string>>, piece: string, separator: string, limit: int)
    requires Packed(groups, separator, limit)
    requires groups != [] ==> |Join(groups[|groups| - 1], separator)| + |piece| + |separator| > limit
    ensures Packed(groups + [[piece]], separator, limit)
  {
    var after := groups + [[piece]];
    forall k | 0 <= k < |after| ensures after[k] != [] && (|after[k]| == 1 || |Join(after[k], separator)| <= limit) {
      if k < |groups| { assert after[k] == groups[k]; }
    }
    forall k | 0 <= k < |after| - 1 ensures |Join(after[k], separator)| + |after[k + 1][0]| + |separator| > limit {
      assert after[k] == groups[k];
      if k + 1 < |groups| { assert after[k + 1] == groups[k + 1]; }
    }
  }

  /** Paragraph and sentence chunking, for stripped pieces: a piece joins the current chunk if it
      still fits with a separator, and else starts the next one. */
  method Pack(pieces: seq<string>, separator: string, limit: int)
    returns (chunks: seq<string>, ghost groups: seq<seq<string>>)
    ensures AreJoins(chunks, groups, separator) && Packed(groups, separator, limit)
    ensures Flatten(groups) == NonEmpty(pieces)
  {
    chunks, groups := [], [];
    var current := "";
    ghost var open: seq<string> := [];
    for k := 0 to |pieces|
      invariant Filling(chunks, groups, current, open, pieces[..k], separator, limit)
    {
      var piece := pieces[k];
      assert pieces[..k + 1] == pieces[..k] + [piece];
      if piece == [] {
      } else if |current| + |piece| + |separator| <= limit {
        TakenIn(chunks, groups, current, open, pieces[..k], separator, limit, piece);
        current, open := current + (if current != "" then separator else "") + piece, open + [piece];
      } else {
        Starts(chunks, groups, current, open, pieces[..k], separator, limit, piece);
        if current != [] {
          chunks := chunks + [current];
        }
        current, groups, open := piece, Closed(groups, open), [piece];
      }
    }
    assert pieces[..|pieces|] == pieces;
    if current != [] {
      chunks := chunks + [current];
    }
    groups := Closed(groups, open);
  }
}
