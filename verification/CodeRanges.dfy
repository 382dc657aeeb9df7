/** The two scanning loops that compute code ranges, against the position-wise definition in CodeMask. */
module CodeRanges {
  import opened Options
  import opened CodeMask

  datatype Range = Range(start: nat, end: nat) {
    predicate Has(p: int) {
      start <= p < end
    }
  }

  ghost predicate Covered(ranges: seq<Range>, p: int) {
    exists r :: r in ranges && r.Has(p)
  }

  /** The first range that holds `p`. */
  function Holder(ranges: seq<Range>, p: nat): (r: Option<Range>)
    ensures r.Some? <==> Covered(ranges, p)
    ensures r.Some? ==> r.value in ranges && r.value.Has(p)
  {
    if ranges == [] then None
    else if ranges[0].Has(p) then Some(ranges[0])
    else
      assert ranges == [ranges[0]] + ranges[1..];
      Holder(ranges[1..], p)
  }

  predicate InBounds(ranges: seq<Range>, n: nat) {
    forall r :: r in ranges ==> r.start < r.end <= n
  }

  predicate Apart(r: Range, s: Range) {
    r.end <= s.start || s.end <= r.start
  }

  predicate Disjoint(ranges: seq<Range>) {
    forall i, j :: 0 <= i < j < |ranges| ==> Apart(ranges[i], ranges[j])
  }

  lemma CoveredMore(ranges: seq<Range>, r: Range, p: int)
    ensures Covered(ranges + [r], p) <==> Covered(ranges, p) || r.Has(p)
  {
    assert forall s :: s in ranges + [r] <==> s in ranges || s == r;
  }

  lemma DisjointMore(ranges: seq<Range>, r: Range)
    requires Disjoint(ranges) && forall s :: s in ranges ==> Apart(s, r)
    ensures Disjoint(ranges + [r])
  {
    forall i, j | 0 <= i < j < |ranges + [r]| ensures Apart((ranges + [r])[i], (ranges + [r])[j]) {
      if j == |ranges| { assert ranges[i] in ranges; }
    }
  }

  // ----- blocks -----

  /** The ranges found in the first `offset` characters, a fence being open since `open`. */
  ghost predicate Scanned(b: seq<bool>, offset: nat, ranges: seq<Range>, open: Option<nat>) {
    && offset <= |b| && InBounds(ranges, if open.Some? then open.value else offset) && Disjoint(ranges)
    && (open.Some? ==> open.value < offset)
    && forall p :: 0 <= p < offset ==> (b[p] <==> Covered(ranges, p) || (open.Some? && open.value <= p))
  }

  lemma ScanOn(b: seq<bool>, offset: nat, ranges: seq<Range>, open: Option<nat>, next: nat)
    requires Scanned(b, offset, ranges, open) && offset <= next <= |b|
    requires forall p :: offset <= p < next ==> b[p] == open.Some?
    ensures Scanned(b, next, ranges, open)
  {
    forall p | offset <= p < next && open.None? ensures !Covered(ranges, p) {}
  }

  lemma ScanOpen(b: seq<bool>, offset: nat, ranges: seq<Range>, next: nat)
    requires Scanned(b, offset, ranges, None) && offset < next <= |b|
    requires forall p :: offset <= p < next ==> b[p]
    ensures Scanned(b, next, ranges, Some(offset))
  {}

  lemma ScanClose(b: seq<bool>, offset: nat, ranges: seq<Range>, open: nat)
    requires Scanned(b, offset, ranges, Some(open))
    ensures Scanned(b, offset, ranges + [Range(open, offset)], None)
  {
    DisjointMore(ranges, Range(open, offset));
    forall p | 0 <= p < offset ensures Covered(ranges + [Range(open, offset)], p) <==> Covered(ranges, p) || open <= p {
      CoveredMore(ranges, Range(open, offset), p);
    }
  }

  function Since(fence: Option<Marks>, start: nat): Option<nat> {
    if fence.Some? then Some(start) else None
  }

  /** The flags and the last mode are those of a scan that stands at `offset` in `mode`. */
  ghost predicate Ahead(t: string, b: seq<bool>, offset: nat, mode: Mode) {
    && offset <= |t| == |b| && ModeAt(t, 0, START, |t|) == ModeAt(t, offset, mode, |t|)
    && forall p :: offset <= p < |t| ==> b[p] == Flag(t, offset, mode, p)
  }

  lemma ReadLine(t: string, b: seq<bool>, offset: nat, mode: Mode)
    requires offset < |t| && Ahead(t, b, offset, mode)
    ensures Ahead(t, b, LineEnd(t, offset), Next(mode, t, offset))
    ensures forall p :: offset <= p < LineEnd(t, offset) ==> b[p] == IsCode(mode, t, offset, LineEnd(t, offset))
  {}

  /** `block_code_ranges`: the block ranges, and whether a fence is left open. */
  method BlockCodeRanges(t: string) returns (ranges: seq<Range>, unclosed: bool)
    ensures InBounds(ranges, |t|) && Disjoint(ranges)
    ensures forall p :: 0 <= p < |t| ==> (Covered(ranges, p) <==> Blocks(t)[p])
    ensures unclosed <==> ModeAt(t, 0, START, |t|).fence.Some?
  {
    ranges := [];
    var fence: Option<Marks>, start: nat := None, 0;
    var offset := 0;
    var paragraph, inList := false, false;
    ghost var b, mode := Blocks(t), START;
    while offset < |t|
      invariant Scanned(b, offset, ranges, Since(fence, start)) && offset <= |t|
      invariant mode == Mode(fence, paragraph, inList) && Ahead(t, b, offset, mode)
    {
      var end, at := LineEnd(t, offset), Text(t, offset);
      RunInLine(t, offset, ' ');
      ReadLine(t, b, offset, mode);
      var insideFence := fence.Some?;
      var indentedCode := false;
      if insideFence {
        ScanOn(b, offset, ranges, Some(start), end);
        if Closes(t, offset, end, fence.value) {
          ScanClose(b, end, ranges, start);
          ranges := ranges + [Range(start, end)];
          fence := None;
        }
      } else if Opens(t, offset, end) {
        ScanOpen(b, offset, ranges, end);
        fence, start := Some(Marks(t[at], RunEnd(t, at, t[at]) - at)), offset;
      } else if Indented(t, offset, Mode(fence, paragraph, inList)) {
        ScanOpen(b, offset, ranges, end);
        ScanClose(b, end, ranges, offset);
        ranges := ranges + [Range(offset, end)];
        indentedCode := true;
      } else {
        ScanOn(b, offset, ranges, None, end);
      }
      paragraph := !Blank(t, offset, end) && !indentedCode && !insideFence && fence.None?;
      if !insideFence && fence.None? && !indentedCode {
        if ListMarker(t, at, end) {
          inList := true;
        } else if !Blank(t, offset, end) && at == offset {
          inList := false;
        }
      }
      mode, offset := Next(mode, t, offset), end;
    }
    unclosed := fence.Some?;
    if unclosed {
      ScanClose(b, |t|, ranges, start);
      ranges := ranges + [Range(start, |t|)];
    }
  }

  // ----- spans -----

  /** Blocks consist of whole lines. */
  predicate WholeLines(t: string, b: seq<bool>) {
    |t| == |b| && forall i :: 0 <= i < |t| - 1 && t[i] != '\n' ==> b[i] == b[i + 1]
  }

  lemma {:induction false} FlagIsWhole(t: string, i: nat, mode: Mode, p: nat)
    requires i <= p < |t| - 1 && t[p] != '\n'
    ensures Flag(t, i, mode, p) == Flag(t, i, mode, p + 1)
    decreases |t| - i
  {
    var e := LineEnd(t, i);
    if p >= e { FlagIsWhole(t, e, Next(mode, t, i), p); } else { BreakEnds(t, i); }
  }

  lemma {:induction false} BreakEnds(t: string, i: nat)
    requires i < |t|
    ensures LineEnd(t, i) == |t| || t[LineEnd(t, i) - 1] == '\n'
    decreases |t| - i
  {
    if t[i] != '\n' && i + 1 < |t| { BreakEnds(t, i + 1); }
  }

  lemma BlocksAreWhole(t: string)
    ensures WholeLines(t, Blocks(t))
  {
    forall i | 0 <= i < |t| - 1 && t[i] != '\n'
      ensures Blocks(t)[i] == Blocks(t)[i + 1]
    {
      FlagIsWhole(t, 0, START, i);
    }
  }

  /** A run of backticks lies in one line. */
  lemma {:induction false} RunIsWhole(t: string, b: seq<bool>, i: nat)
    requires WholeLines(t, b) && i < |t| && t[i] == '`' && !b[i]
    ensures forall p :: i <= p < Hop(t, i) ==> !b[p] && t[p] == '`'
    decreases |t| - i
  {
    if i + 1 < |t| && t[i + 1] == '`' { RunIsWhole(t, b, i + 1); }
  }

  /** Inside a block the scan only moves on. */
  lemma {:induction false} CodedBlock(t: string, b: seq<bool>, i: nat, j: nat, p: nat)
    requires |t| == |b| && i <= j <= |t| && i <= p < |t| && forall m :: i <= m < j ==> b[m]
    ensures if p < j then Coded(t, b, i, p) else Coded(t, b, i, p) == Coded(t, b, j, p)
    decreases j - i
  {
    if i < j {
      assert Turn(t, b, i) == i + 1;
      if p > i { CodedBlock(t, b, i + 1, j, p); }
    }
  }

  /** The loop that counts a run of backticks. */
  method CountRun(t: string, i: nat) returns (j: nat)
    requires i < |t| && t[i] == '`'
    ensures j == Hop(t, i)
  {
    j := i + 1;
    while j < |t| && t[j] == '`'
      invariant i < j <= |t| && RunEnd(t, j, '`') == Hop(t, i)
    {
      j := j + 1;
    }
  }

  /** The look-ahead after a line break. */
  method LooksBlank(t: string, i: nat) returns (blank: bool)
    requires i <= |t|
    ensures blank == BlankFrom(t, i)
  {
    var peek := i;
    while peek < |t| && (t[peek] == ' ' || t[peek] == '\t' || t[peek] == '\r')
      invariant peek <= |t| && BlankFrom(t, peek) == BlankFrom(t, i)
    {
      peek := peek + 1;
    }
    blank := peek >= |t| || t[peek] == '\n';
  }

  /** The search for the closing run of a span of width `w`. */
  method FindClose(t: string, ghost b: seq<bool>, blocks: seq<Range>, i: nat, w: nat) returns (e: Option<nat>)
    requires WholeLines(t, b) && i <= |t|
    requires forall p :: 0 <= p < |t| ==> (Covered(blocks, p) <==> b[p])
    ensures e == Close(t, b, i, w)
    ensures e.Some? ==> forall p :: i <= p < e.value ==> !b[p]
  {
    var end := i;
    while end < |t| && Holder(blocks, end).None?
      invariant i <= end <= |t| && Close(t, b, end, w) == Close(t, b, i, w)
      invariant forall p :: i <= p < end ==> !b[p]
      decreases |t| - end
    {
      if t[end] == '\n' {
        var blank := LooksBlank(t, end + 1);
        if blank { return None; }
      }
      if t[end] != '`' {
        end := end + 1;
        continue;
      }
      RunIsWhole(t, b, end);
      var close := end;
      end := CountRun(t, close);
      if end - close == w { return Some(end); }
    }
    e := None;
  }

  /** The scan has come to `i`: before it all code is covered, from it on only the blocks are. */
  ghost predicate Walked(t: string, b: seq<bool>, ranges: seq<Range>, i: nat) {
    && |b| == |t| && InBounds(ranges, |t|) && Disjoint(ranges)
    && (forall p :: 0 <= p < i && p < |t| ==> (Covered(ranges, p) <==> Coded(t, b, 0, p)))
    && (forall p :: i <= p < |t| ==> (Covered(ranges, p) <==> b[p]) && Coded(t, b, 0, p) == Coded(t, b, i, p))
  }

  lemma WalkBlock(t: string, b: seq<bool>, ranges: seq<Range>, i: nat, end: nat)
    requires Walked(t, b, ranges, i) && i <= end <= |t| && forall m :: i <= m < end ==> b[m]
    ensures Walked(t, b, ranges, end)
  {
    forall p | i <= p < |t|
      ensures if p < end then Coded(t, b, i, p) else Coded(t, b, i, p) == Coded(t, b, end, p)
    {
      CodedBlock(t, b, i, end, p);
    }
  }

  /** A turn of the scan that finds no span. */
  lemma WalkOn(t: string, b: seq<bool>, ranges: seq<Range>, i: nat, j: nat)
    requires Walked(t, b, ranges, i) && i < |t| && SpanAt(t, b, i).None? && j >= Turn(t, b, i)
    requires j == Turn(t, b, i) || Turn(t, b, i) == |t|
    ensures Walked(t, b, ranges, j)
  {
    forall p | i <= p < |t|
      ensures if p < Turn(t, b, i) then Coded(t, b, i, p) == b[p]
        else Coded(t, b, i, p) == Coded(t, b, Turn(t, b, i), p)
    {}
  }

  /** A turn that finds one. */
  lemma WalkSpan(t: string, b: seq<bool>, ranges: seq<Range>, i: nat, end: nat)
    requires Walked(t, b, ranges, i) && i < |t| && SpanAt(t, b, i) == Some(end)
    requires forall p :: i <= p < end ==> !b[p]
    ensures Walked(t, b, ranges + [Range(i, end)], end)
  {
    forall p | i <= p < end ensures !Covered(ranges, p) && Coded(t, b, 0, p) {
      assert Coded(t, b, i, p);
    }
    AddSpan(ranges, Range(i, end), b);
    forall p | end <= p < |t| ensures Coded(t, b, 0, p) == Coded(t, b, end, p) {
      assert Coded(t, b, i, p) == Coded(t, b, end, p);
    }
    WalkFar(t, b, ranges, ranges + [Range(i, end)], i, end);
  }

  lemma WalkFar(t: string, b: seq<bool>, ranges: seq<Range>, more: seq<Range>, i: nat, end: nat)
    requires |b| == |t| && i < end <= |t| && InBounds(more, |t|) && Disjoint(more)
    requires forall p :: 0 <= p < |t| ==> (Covered(more, p) <==> Covered(ranges, p) || i <= p < end)
    requires forall p :: 0 <= p < i ==> (Covered(ranges, p) <==> Coded(t, b, 0, p))
    requires forall p :: i <= p < end ==> Coded(t, b, 0, p)
    requires forall p :: end <= p < |t| ==> (Covered(ranges, p) <==> b[p]) && Coded(t, b, 0, p) == Coded(t, b, end, p)
    ensures Walked(t, b, more, end)
  {}

  lemma WalkHolder(t: string, b: seq<bool>, blocks: seq<Range>, ranges: seq<Range>, i: nat, r: Range)
    requires Walked(t, b, ranges, i) && r in blocks && r.Has(i) && InBounds(blocks, |t|)
    requires forall p :: 0 <= p < |t| ==> (Covered(blocks, p) <==> b[p])
    ensures i < r.end <= |t| && Walked(t, b, ranges, r.end)
  {
    forall m | i <= m < r.end ensures b[m] { assert r.Has(m); }
    WalkBlock(t, b, ranges, i, r.end);
  }

  /** A backtick outside the blocks: it starts a span, or its run is passed over. */
  method TryRun(t: string, ghost b: seq<bool>, blocks: seq<Range>, ranges: seq<Range>, start: nat)
      returns (more: seq<Range>, next: nat)
    requires WholeLines(t, b) && start < |t| && t[start] == '`' && !b[start] && Walked(t, b, ranges, start)
    requires forall p :: 0 <= p < |t| ==> (Covered(blocks, p) <==> b[p])
    ensures start < next <= |t| && Walked(t, b, more, next)
  {
    RunIsWhole(t, b, start);
    var i := CountRun(t, start);
    var close := FindClose(t, b, blocks, i, i - start);
    if close.Some? {
      WalkSpan(t, b, ranges, start, close.value);
      return ranges + [Range(start, close.value)], close.value;
    }
    WalkOn(t, b, ranges, start, i);
    return ranges, i;
  }

  /** `code_ranges`: pairwise disjoint ranges within the text that hold exactly its code. */
  method CodeRanges(t: string) returns (ranges: seq<Range>)
    ensures InBounds(ranges, |t|) && Disjoint(ranges)
    ensures forall p :: 0 <= p < |t| ==> (Covered(ranges, p) <==> Code(t, p))
  {
    var blocks, _ := BlockCodeRanges(t);
    ranges := blocks;
    ghost var b := Blocks(t);
    BlocksAreWhole(t);
    var i := 0;
    while i < |t|
      invariant i <= |t| + 1 && Walked(t, b, ranges, i)
      decreases |t| + 1 - i
    {
      var holder := Holder(blocks, i);
      if holder.Some? {
        WalkHolder(t, b, blocks, ranges, i, holder.value);
        i := holder.value.end;
      } else if t[i] == '\\' {
        WalkOn(t, b, ranges, i, i + 2);
        i := i + 2;
      } else if t[i] != '`' {
        WalkOn(t, b, ranges, i, i + 1);
        i := i + 1;
      } else {
        ranges, i := TryRun(t, b, blocks, ranges, i);
      }
    }
  }

  /** A span outside the blocks is disjoint from every range found so far. */
  lemma AddSpan(ranges: seq<Range>, r: Range, b: seq<bool>)
    requires Disjoint(ranges) && InBounds(ranges, |b|) && r.start < r.end <= |b|
    requires forall p :: r.start <= p < r.end ==> !Covered(ranges, p)
    ensures Disjoint(ranges + [r]) && InBounds(ranges + [r], |b|)
    ensures forall p :: 0 <= p < |b| ==> (Covered(ranges + [r], p) <==> Covered(ranges, p) || r.Has(p))
  {
    forall s | s in ranges ensures Apart(s, r) {
      var p := if s.start <= r.start then r.start else s.start;
      assert s.Has(p) ==> Covered(ranges, p);
      assert r.Has(p) ==> !Covered(ranges, p);
    }
    DisjointMore(ranges, r);
    forall p | 0 <= p < |b| ensures Covered(ranges + [r], p) <==> Covered(ranges, p) || r.Has(p) {
      CoveredMore(ranges, r, p);
    }
  }
}
