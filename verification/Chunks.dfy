/** Cutting a file into chunks, and finding the chunk of a call site again. */
module Chunks {
  import opened Options

  type Byte = b: nat | b < 256

  const LIMIT := 12_000
  const LINE_BREAK: Byte := 10

  /** The second and later bytes of an encoded character. */
  predicate Continues(b: Byte) {
    0x80 <= b <= 0xBF
  }

  /** What section 3 of RFC 3629 makes sure of: a continuation byte follows a byte of a longer encoding,
      and there are at most three of them in a row. */
  predicate Encoded(text: seq<Byte>) {
    && (forall i :: 0 <= i < |text| && Continues(text[i]) ==> i > 0 && text[i - 1] >= 0x80)
    && forall i :: 3 <= i < |text| ==>
      !(Continues(text[i - 3]) && Continues(text[i - 2]) && Continues(text[i - 1]) && Continues(text[i]))
  }

  predicate Boundary(text: seq<Byte>, i: nat) {
    i == 0 || i == |text| || (i < |text| && !Continues(text[i]))
  }

  /** Line breaks before position `i`. */
  function Breaks(text: seq<Byte>, i: nat): nat
    requires i <= |text|
  {
    if i == 0 then 0 else Breaks(text, i - 1) + if text[i - 1] == LINE_BREAK then 1 else 0
  }

  /** The 1-based line of the byte at `i`. */
  function LineOf(text: seq<Byte>, i: nat): nat
    requires i <= |text|
  {
    1 + Breaks(text, i)
  }

  lemma {:induction false} BreaksGrow(text: seq<Byte>, i: nat, j: nat)
    requires i <= j <= |text|
    ensures Breaks(text, i) <= Breaks(text, j)
  {
    if i < j { BreaksGrow(text, i, j - 1); }
  }

  lemma {:induction false} BreaksOfSlice(text: seq<Byte>, i: nat, j: nat)
    requires i <= j <= |text|
    ensures Breaks(text[i..j], j - i) == Breaks(text, j) - Breaks(text, i)
  {
    if i < j {
      BreaksOfSlice(text, i, j - 1);
      BreaksOfPrefix(text[i..j], text[i..j - 1], j - 1 - i);
    }
  }

  lemma {:induction false} BreaksOfPrefix(a: seq<Byte>, b: seq<Byte>, n: nat)
    requires n <= |a| && n <= |b| && forall k :: 0 <= k < n ==> a[k] == b[k]
    ensures Breaks(a, n) == Breaks(b, n)
  {
    if n > 0 { BreaksOfPrefix(a, b, n - 1); }
  }

  datatype Name = Name(at: nat, name: string)
  datatype Chunk = Chunk(start: nat, end: nat, symbols: seq<string>, content: seq<Byte>)

  /** The names declared in the bytes from `from` up to `to`, in the order given. */
  function NamesIn(names: seq<Name>, from: nat, to: nat): seq<string> {
    if names == [] then []
    else (if from <= names[0].at < to then [names[0].name] else []) + NamesIn(names[1..], from, to)
  }

  /** Wherever it stands among the others, a name is listed in its place exactly if it is declared there. */
  lemma {:induction false} NamesInOrder(before: seq<Name>, n: Name, behind: seq<Name>, from: nat, to: nat)
    ensures NamesIn(before + [n] + behind, from, to)
         == NamesIn(before, from, to) + (if from <= n.at < to then [n.name] else []) + NamesIn(behind, from, to)
  {
    var all := before + [n] + behind;
    if before == [] {
      assert all[0] == n && all[1..] == behind;
    } else {
      assert all[0] == before[0] && all[1..] == before[1..] + [n] + behind;
      NamesInOrder(before[1..], n, behind, from, to);
    }
  }

  /** The chunk of the bytes from `from` up to `to`. */
  predicate Holds(c: Chunk, text: seq<Byte>, names: seq<Name>, from: nat, to: nat) {
    && from < to <= |text| && c.content == text[from..to] && c.symbols == NamesIn(names, from, to)
    && c.start == LineOf(text, from) && c.end == LineOf(text, to - 1)
  }

  /** The last boundary at or before `i`. */
  function Floor(text: seq<Byte>, i: nat): (j: nat)
    requires i <= |text|
    ensures j <= i && Boundary(text, j)
  {
    if Boundary(text, i) then i else Floor(text, i - 1)
  }

  lemma {:induction false} FloorAtLeast(text: seq<Byte>, i: nat, j: nat)
    requires j <= i <= |text| && Boundary(text, j)
    ensures Floor(text, i) >= j
  {
    if !Boundary(text, i) { FloorAtLeast(text, i - 1, j); }
  }

  lemma FloorIsNear(text: seq<Byte>, i: nat)
    requires Encoded(text) && i <= |text|
    ensures i - Floor(text, i) <= 3
  {
    if i <= 3 {
      FloorAtLeast(text, i, 0);
    } else {
      assert Boundary(text, i) || Boundary(text, i - 1) || Boundary(text, i - 2) || Boundary(text, i - 3);
      var j :| i - 3 <= j <= i && Boundary(text, j);
      FloorAtLeast(text, i, j);
    }
  }

  method BackToBoundary(text: seq<Byte>, i: nat) returns (j: nat)
    requires i <= |text|
    ensures j == Floor(text, i)
  {
    j := i;
    while !Boundary(text, j)
      invariant j <= i && Floor(text, j) == Floor(text, i)
      decreases j
    {
      j := j - 1;
    }
  }

  /** The last preferred boundary above `low` and at most `high`. */
  function LastBoundary(boundaries: seq<nat>, low: nat, high: nat): (r: Option<nat>)
    ensures r.Some? ==> r.value in boundaries && low < r.value <= high
    ensures forall b :: b in boundaries && low < b <= high ==> r.Some? && b <= r.value
  {
    if boundaries == [] then None
    else
      assert boundaries == [boundaries[0]] + boundaries[1..];
      var rest := LastBoundary(boundaries[1..], low, high);
      var b := boundaries[0];
      if low < b <= high && (rest.None? || rest.value <= b) then Some(b) else rest
  }

  /** The place behind the last line break between `from` and `to`. */
  function AfterBreak(text: seq<Byte>, from: nat, to: nat): (r: Option<nat>)
    requires from <= to <= |text|
    ensures r.Some? ==> from < r.value <= to && text[r.value - 1] == LINE_BREAK
    ensures r.Some? ==> forall i :: r.value <= i < to ==> text[i] != LINE_BREAK
    ensures r.None? ==> forall i :: from <= i < to ==> text[i] != LINE_BREAK
  {
    if from == to then None
    else if text[to - 1] == LINE_BREAK then Some(to)
    else AfterBreak(text, from, to - 1)
  }

  /** Where the chunk that starts at `start` ends: at the end of the text if that is near enough, else at
      the last preferred boundary that leaves more than 4000 bytes, else behind the last line break, else
      as far as the limit allows. */
  function CutAfter(text: seq<Byte>, boundaries: seq<nat>, start: nat): (end: nat)
    requires start < |text|
    ensures end <= |text| && Boundary(text, end)
  {
    var maxEnd := Floor(text, if start + LIMIT <= |text| then start + LIMIT else |text|);
    if maxEnd == |text| then maxEnd
    else
      var preferred := LastBoundary(boundaries, start + 4000, maxEnd);
      if preferred.Some? then Floor(text, preferred.value)
      else if start <= maxEnd
        && AfterBreak(text, start, maxEnd).Some? then Floor(text, AfterBreak(text, start, maxEnd).value)
      else maxEnd
  }

  /** Every chunk makes progress and stays within the limit; a break between lines is never moved. */
  lemma CutProgresses(text: seq<Byte>, boundaries: seq<nat>, start: nat)
    requires Encoded(text) && start < |text|
    ensures start < CutAfter(text, boundaries, start) <= start + 12_000
    ensures |text| - start <= 12_000 ==> CutAfter(text, boundaries, start) == |text|
  {
    var reach := if start + LIMIT <= |text| then start + LIMIT else |text|;
    FloorIsNear(text, reach);
    var maxEnd := Floor(text, reach);
    if maxEnd < |text| {
      var preferred := LastBoundary(boundaries, start + 4000, maxEnd);
      if preferred.Some? {
        FloorIsNear(text, preferred.value);
      } else if AfterBreak(text, start, maxEnd).Some? {
        assert Boundary(text, AfterBreak(text, start, maxEnd).value);
      }
    }
  }

  /** `m` is the last boundary between characters that a chunk from `start` on may reach. */
  predicate Reach(text: seq<Byte>, start: nat, m: nat) {
    && start + 12_000 < |text| && m <= start + 12_000 && Boundary(text, m)
    && forall j: nat :: m < j <= start + 12_000 ==> !Boundary(text, j)
  }

  /** A preferred cut: it leaves more than 4000 bytes and no longer piece than a chunk may be. */
  predicate Preferred(boundaries: seq<nat>, start: nat, m: nat, b: nat) {
    b in boundaries && start + 4_000 < b <= m
  }

  lemma {:induction false} FloorIsLast(text: seq<Byte>, i: nat)
    requires i <= |text|
    ensures forall j: nat :: Floor(text, i) < j <= i ==> !Boundary(text, j)
  {
    if !Boundary(text, i) { FloorIsLast(text, i - 1); }
  }

  lemma CutOf(text: seq<Byte>, boundaries: seq<nat>, start: nat, m: nat)
    requires Reach(text, start, m)
    ensures Floor(text, start + 12_000) == m
  {
    FloorAtLeast(text, start + 12_000, m);
  }

  /** A cut that does not reach the end of the text lies at the last preferred boundary, or before the character that
      this one would split. */
  lemma PreferredIsTaken(text: seq<Byte>, boundaries: seq<nat>, start: nat, m: nat, b: nat)
    requires Reach(text, start, m) && Preferred(boundaries, start, m, b)
    requires forall c: nat :: Preferred(boundaries, start, m, c) ==> c <= b
    ensures var end := CutAfter(text, boundaries, start);
      end <= b && Boundary(text, end) && forall j: nat :: end < j <= b ==> !Boundary(text, j)
  {
    CutOf(text, boundaries, start, m);
    var last := LastBoundary(boundaries, start + 4_000, m);
    assert last.Some? && last.value == b by {
      assert last.Some? && b <= last.value;
      assert Preferred(boundaries, start, m, last.value);
    }
    FloorIsLast(text, b);
  }

  lemma CutElse(text: seq<Byte>, boundaries: seq<nat>, start: nat, m: nat)
    requires Reach(text, start, m) && start <= m && forall b: nat :: !Preferred(boundaries, start, m, b)
    ensures var after := AfterBreak(text, start, m);
      CutAfter(text, boundaries, start) == if after.Some? then Floor(text, after.value) else m
  {
    CutOf(text, boundaries, start, m);
    var last := LastBoundary(boundaries, start + 4_000, m);
    assert last.Some? ==> Preferred(boundaries, start, m, last.value);
  }

  /** `end` lies behind the last line break before `m`, or at `m` if there is none. */
  ghost predicate BehindLastBreak(text: seq<Byte>, start: nat, m: nat, end: nat) {
    start <= m <= |text| &&
    if exists i :: start <= i < m && text[i] == 10 then
      start < end <= m && text[end - 1] == 10 && forall i :: end <= i < m ==> text[i] != 10
    else end == m
  }

  lemma AfterBreakIsBehind(text: seq<Byte>, start: nat, m: nat)
    requires start <= m <= |text|
    ensures var after := AfterBreak(text, start, m);
      BehindLastBreak(text, start, m, if after.Some? then after.value else m)
  {
    var after := AfterBreak(text, start, m);
    if after.Some? { assert text[after.value - 1] == 10; }
  }

  lemma AfterBreakIsBoundary(text: seq<Byte>, start: nat, m: nat)
    requires Encoded(text) && start <= m <= |text|
    ensures var after := AfterBreak(text, start, m); after.Some? ==> Boundary(text, after.value)
  {}

  /** Without a preferred boundary the cut lies behind the last line break, and without that as far as a chunk may
      reach. */
  lemma ElseAfterALine(text: seq<Byte>, boundaries: seq<nat>, start: nat, m: nat)
    requires Encoded(text) && Reach(text, start, m) && forall b: nat :: !Preferred(boundaries, start, m, b)
    ensures BehindLastBreak(text, start, m, CutAfter(text, boundaries, start))
  {
    FloorIsNear(text, start + 12_000);
    CutOf(text, boundaries, start, m);
    CutElse(text, boundaries, start, m);
    AfterBreakIsBoundary(text, start, m);
    AfterBreakIsBehind(text, start, m);
  }

  method NextCut(text: seq<Byte>, boundaries: seq<nat>, start: nat) returns (end: nat)
    requires Encoded(text) && start < |text|
    ensures end == CutAfter(text, boundaries, start)
  {
    var maxEnd := if start + LIMIT <= |text| then start + LIMIT else |text|;
    FloorIsNear(text, maxEnd);
    maxEnd := BackToBoundary(text, maxEnd);
    end := maxEnd;
    if end < |text| {
      var preferred := LastBoundary(boundaries, start + 4000, maxEnd);
      if preferred.Some? {
        end := preferred.value;
      } else {
        var line := AfterBreak(text, start, maxEnd);
        if line.Some? { end := line.value; }
      }
      end := BackToBoundary(text, end);
    }
  }

  /** A chunk from `from` up to `to`, where the rule for its end says, and within the limit. */
  predicate Fits(c: Chunk, text: seq<Byte>, boundaries: seq<nat>, names: seq<Name>, from: nat, to: nat) {
    Holds(c, text, names, from, to) && to == CutAfter(text, boundaries, from) && to - from <= LIMIT
      && Boundary(text, to)
  }

  /** The chunks follow each other without gap or overlap. */
  ghost predicate Cover(text: seq<Byte>, boundaries: seq<nat>, names: seq<Name>, chunks: seq<Chunk>, cuts: seq<nat>) {
    && |cuts| == |chunks| + 1 && cuts[0] == 0
    && forall k :: 0 <= k < |chunks| ==> Fits(chunks[k], text, boundaries, names, cuts[k], cuts[k + 1])
  }

  lemma CoverMore(
      text: seq<Byte>, boundaries: seq<nat>, names: seq<Name>, chunks: seq<Chunk>, cuts: seq<nat>, c: Chunk, end: nat)
    requires Cover(text, boundaries, names, chunks, cuts) && Fits(c, text, boundaries, names, cuts[|chunks|], end)
    ensures Cover(text, boundaries, names, chunks + [c], cuts + [end])
  {
    var more, next := chunks + [c], cuts + [end];
    forall k | 0 <= k < |more| ensures Fits(more[k], text, boundaries, names, next[k], next[k + 1]) {
      if k < |chunks| { assert Fits(chunks[k], text, boundaries, names, cuts[k], cuts[k + 1]); }
    }
  }

  function Concat(chunks: seq<Chunk>): seq<Byte> {
    if chunks == [] then [] else Concat(chunks[..|chunks| - 1]) + chunks[|chunks| - 1].content
  }

  /** The chunks put together again are the text. */
  lemma {:induction false} Lossless(
      text: seq<Byte>, boundaries: seq<nat>, names: seq<Name>, chunks: seq<Chunk>, cuts: seq<nat>)
    requires Cover(text, boundaries, names, chunks, cuts)
    ensures cuts[|chunks|] <= |text| && Concat(chunks) == text[..cuts[|chunks|]]
  {
    if chunks != [] {
      var n := |chunks| - 1;
      Lossless(text, boundaries, names, chunks[..n], cuts[..n + 1]);
      assert Fits(chunks[n], text, boundaries, names, cuts[n], cuts[n + 1]);
      assert text[..cuts[n + 1]] == text[..cuts[n]] + text[cuts[n]..cuts[n + 1]];
    }
  }

  /** `chunk_text`: nothing is lost. The early exit of the loop is never taken. */
  method ChunkText(text: seq<Byte>, boundaries: seq<nat>, names: seq<Name>)
      returns (chunks: seq<Chunk>, ghost cuts: seq<nat>)
    requires Encoded(text)
    ensures Cover(text, boundaries, names, chunks, cuts) && cuts[|chunks|] == |text|
    ensures Concat(chunks) == text
  {
    chunks, cuts := [], [0];
    var start, line := 0, 1;
    while start < |text|
      invariant start <= |text| && line == LineOf(text, start)
      invariant Cover(text, boundaries, names, chunks, cuts) && start == cuts[|chunks|]
      decreases |text| - start
    {
      var end := NextCut(text, boundaries, start);
      CutProgresses(text, boundaries, start);
      if end <= start { break; }
      var chunk, newlines := MakeChunk(text, names, start, end, line);
      CoverMore(text, boundaries, names, chunks, cuts, chunk, end);
      chunks := chunks + [chunk];
      cuts := cuts + [end];
      line := line + newlines;
      start := end;
    }
    Lossless(text, boundaries, names, chunks, cuts);
    assert text[..|text|] == text;
  }

  /** One chunk, and the line breaks in it. */
  method MakeChunk(text: seq<Byte>, names: seq<Name>, start: nat, end: nat, line: nat)
      returns (chunk: Chunk, newlines: nat)
    requires start < end <= |text| && line == LineOf(text, start)
    ensures Holds(chunk, text, names, start, end) && line + newlines == LineOf(text, end)
  {
    var slice := text[start..end];
    newlines := CountBreaks(slice);
    BreaksOfSlice(text, start, end);
    BreaksGrow(text, start, end - 1);
    var endLine := line + newlines - if slice[|slice| - 1] == LINE_BREAK then 1 else 0;
    chunk := Chunk(line, if endLine >= line then endLine else line, NamesIn(names, start, end), slice);
  }

  method CountBreaks(slice: seq<Byte>) returns (n: nat)
    ensures n == Breaks(slice, |slice|)
  {
    n := 0;
    for i := 0 to |slice|
      invariant n == Breaks(slice, i)
    {
      if slice[i] == LINE_BREAK { n := n + 1; }
    }
  }

  // ----- the chunk of a call site -----

  datatype Lines = Lines(start: nat, end: nat) {
    predicate Overlaps(from: nat, to: nat) {
      start <= to && from <= end
    }
  }

  /** The chunks of one file arrive in line order. */
  predicate InLineOrder(file: seq<Lines>) {
    forall i, j :: 0 <= i < j < |file| ==> file[i].start <= file[j].start && file[i].end <= file[j].end
  }

  /** No cut splits a character. */
  lemma CutsSplitNothing(
      text: seq<Byte>, boundaries: seq<nat>, names: seq<Name>, chunks: seq<Chunk>, cuts: seq<nat>, k: nat)
    requires Cover(text, boundaries, names, chunks, cuts) && k <= |chunks|
    ensures cuts[k] == 0 || cuts[k] == |text| || (cuts[k] < |text| && !(0x80 <= text[cuts[k]] <= 0xBF))
  {
    if k > 0 { assert Fits(chunks[k - 1], text, boundaries, names, cuts[k - 1], cuts[k]); }
  }

  /** Chunks that cover a text come in line order. */
  lemma CoverIsInLineOrder(
      text: seq<Byte>, boundaries: seq<nat>, names: seq<Name>, chunks: seq<Chunk>, cuts: seq<nat>, i: nat, j: nat)
    requires Cover(text, boundaries, names, chunks, cuts) && i < j < |chunks|
    ensures chunks[i].start <= chunks[i].end <= chunks[j].start + 1 && chunks[i].start <= chunks[j].start
      && chunks[i].end <= chunks[j].end
  {
    CutsGrow(text, boundaries, names, chunks, cuts, i + 1, j);
    assert Fits(chunks[i], text, boundaries, names, cuts[i], cuts[i + 1])
      && Fits(chunks[j], text, boundaries, names, cuts[j], cuts[j + 1]);
    BreaksGrow(text, cuts[i], cuts[i + 1] - 1);
    BreaksGrow(text, cuts[i + 1] - 1, cuts[j]);
    BreaksGrow(text, cuts[j], cuts[j + 1] - 1);
  }

  lemma {:induction false} CutsGrow(
      text: seq<Byte>, boundaries: seq<nat>, names: seq<Name>, chunks: seq<Chunk>, cuts: seq<nat>, i: nat, j: nat)
    requires Cover(text, boundaries, names, chunks, cuts) && i <= j <= |chunks|
    ensures cuts[i] <= cuts[j]
  {
    if i < j {
      CutsGrow(text, boundaries, names, chunks, cuts, i, j - 1);
      assert Fits(chunks[j - 1], text, boundaries, names, cuts[j - 1], cuts[j]);
    }
  }

  /** The first chunk that overlaps the lines, looking at one after the other. */
  function FirstOverlap(file: seq<Lines>, from: nat, to: nat, i: nat): (r: Option<nat>)
    requires i <= |file|
    ensures r.Some? ==> i <= r.value < |file| && file[r.value].Overlaps(from, to)
    ensures r.Some? ==> forall k :: i <= k < r.value ==> !file[k].Overlaps(from, to)
    ensures r.None? ==> forall k :: i <= k < |file| ==> !file[k].Overlaps(from, to)
    decreases |file| - i
  {
    if i == |file| then None
    else if file[i].Overlaps(from, to) then Some(i)
    else FirstOverlap(file, from, to, i + 1)
  }

  /** `partition_point`: how many chunks end before the line. */
  method EndBefore(file: seq<Lines>, line: nat) returns (at: nat)
    requires InLineOrder(file)
    ensures at <= |file| && (forall i :: 0 <= i < at ==> file[i].end < line) && forall i :: at <= i < |file| ==>
      file[i].end >= line
  {
    var low, high := 0, |file|;
    while low < high
      invariant 0 <= low <= high <= |file|
      invariant forall i :: 0 <= i < low ==> file[i].end < line
      invariant forall i :: high <= i < |file| ==> file[i].end >= line
    {
      var mid := low + (high - low) / 2;
      if file[mid].end < line { low := mid + 1; } else { high := mid; }
    }
    at := low;
  }

  /** `chunk_at`: the binary search finds what a linear scan would. */
  method ChunkAt(file: seq<Lines>, from: nat, to: nat) returns (found: Option<nat>)
    requires InLineOrder(file)
    ensures found == FirstOverlap(file, from, to, 0)
    ensures found.Some? ==>
      && found.value < |file| && file[found.value].start <= to && from <= file[found.value].end
      && forall k :: 0 <= k < found.value ==> !(file[k].start <= to && from <= file[k].end)
    ensures found.None? ==> forall k :: 0 <= k < |file| ==> !(file[k].start <= to && from <= file[k].end)
  {
    var at := EndBefore(file, from);
    if at < |file| && file[at].Overlaps(from, to) { found := Some(at); } else { found := None; }
  }

  function LinesOf(chunks: seq<Chunk>): (file: seq<Lines>)
    ensures |file| == |chunks| && forall k :: 0 <= k < |file| ==> file[k] == Lines(chunks[k].start, chunks[k].end)
  {
    seq(|chunks|, k requires 0 <= k < |chunks| => Lines(chunks[k].start, chunks[k].end))
  }

  /** Cutting a file and looking up a call site in its chunks: the binary search finds the first chunk that
      overlaps the lines of the call. */
  method ChunkOfCall(text: seq<Byte>, boundaries: seq<nat>, names: seq<Name>, from: nat, to: nat)
      returns (chunks: seq<Chunk>, found: Option<nat>)
    requires Encoded(text)
    ensures Concat(chunks) == text && found == FirstOverlap(LinesOf(chunks), from, to, 0)
  {
    ghost var cuts;
    chunks, cuts := ChunkText(text, boundaries, names);
    var file := LinesOf(chunks);
    forall i, j | 0 <= i < j < |file| ensures file[i].start <= file[j].start && file[i].end <= file[j].end {
      CoverIsInLineOrder(text, boundaries, names, chunks, cuts, i, j);
    }
    found := ChunkAt(file, from, to);
  }
}
