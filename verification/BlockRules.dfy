/** The block rules over the lines of a text, told without a scan: when a line opens or closes a fence, when it is
    indented code, and when a paragraph or a list is open. The scan of CodeMask marks exactly these lines. */
module BlockRules {
  import opened Characters
  import opened Options
  import opened CodeMask

  // ----- single lines: the stretch from `i` to `e` -----

  predicate Spaces(t: string, i: nat, j: nat) {
    i <= j <= |t| && forall k :: i <= k < j ==> t[k] == ' '
  }

  /** The characters from `i` to `j` are `c`, and the next one is not. */
  predicate WholeRun(t: string, i: nat, j: nat, c: char) {
    i <= j <= |t| && (forall k :: i <= k < j ==> t[k] == c) && (j < |t| ==> t[j] != c)
  }

  predicate FenceText(t: string, i: nat, e: nat, at: nat, c: char, w: nat) {
    && Spaces(t, i, at) && at <= i + 3 && at + w <= e <= |t| && WholeRun(t, at, at + w, c)
    && (c == '`' ==> forall k :: at + w <= k < e ==> t[k] != '`')
  }

  /** At most three spaces, then at least three backticks or tildes; no backtick behind backticks. */
  ghost predicate FenceLine(t: string, i: nat, e: nat, c: char, w: nat) {
    (c == '`' || c == '~') && w >= 3 && exists at: nat :: FenceText(t, i, e, at, c, w)
  }

  predicate ClosingText(t: string, i: nat, e: nat, at: nat, v: nat, c: char) {
    Spaces(t, i, at) && at <= i + 3 && at + v <= e <= |t| && WholeRun(t, at, at + v, c) && Blank(t, at + v, e)
  }

  /** At most three spaces, then at least `w` of the marker, then nothing but blanks. */
  ghost predicate ClosingLine(t: string, i: nat, e: nat, c: char, w: nat) {
    exists at: nat, v: nat :: v >= w && ClosingText(t, i, e, at, v, c)
  }

  /** Four spaces or a tab. */
  predicate DeepLine(t: string, i: nat)
    requires i < |t|
  {
    Spaces(t, i, i + 4) || t[i] == '\t'
  }

  predicate Bullet(t: string, at: nat, e: nat) {
    at + 1 < e <= |t| && (t[at] == '-' || t[at] == '*' || t[at] == '+') && (t[at + 1] == ' ' || t[at + 1] == '\t')
  }

  predicate Ordinal(t: string, at: nat, d: nat, e: nat) {
    && 1 <= d <= 9 && at + d + 1 < e <= |t| && (forall k :: at <= k < at + d ==> '0' <= t[k] <= '9')
    && (t[at + d] == '.' || t[at + d] == ')') && (t[at + d + 1] == ' ' || t[at + d + 1] == '\t')
  }

  /** At any indentation a bullet, or up to nine digits and a dot or bracket; then a blank. */
  ghost predicate ItemLine(t: string, i: nat, e: nat) {
    exists at: nat :: Spaces(t, i, at) && (Bullet(t, at, e) || exists d: nat :: Ordinal(t, at, d, e))
  }

  /** A line that ends the list it stands in: not indented, not blank, and no item. */
  ghost predicate EndsList(t: string, i: nat, e: nat)
    requires i < |t| && e <= |t|
  {
    !Blank(t, i, e) && t[i] != ' ' && !ItemLine(t, i, e)
  }

  // ----- the lines of a text -----

  predicate LineStart(t: string, i: nat) {
    i < |t| && (i == 0 || t[i - 1] == '\n')
  }

  /** The line at `m` opens a fence: it has the form, and no fence is open. */
  ghost predicate StartsFence(t: string, m: nat)
    decreases m, 1
  {
    && LineStart(t, m) && (exists c, w :: FenceLine(t, m, LineEnd(t, m), c, w))
    && forall q: nat :: q < m ==> !FenceOpen(t, q, m)
  }

  /** The fence that the line at `q` opens is still open before `n`: no line between closes it. */
  ghost predicate FenceOpen(t: string, q: nat, n: nat)
    requires q < n
    decreases n, 0
  {
    && StartsFence(t, q)
    && forall j: nat, c, w :: q < j < n && LineStart(t, j) && FenceLine(t, q, LineEnd(t, q), c, w) ==>
         !ClosingLine(t, j, LineEnd(t, j), c, w)
  }

  /** The line before `n` is part of a paragraph. */
  ghost predicate ParagraphOpen(t: string, n: nat)
    requires n <= |t|
    decreases n, 2
  {
    exists m: nat :: m < n && LineStart(t, m) && LineEnd(t, m) == n && !Blank(t, m, n) && !CodeLine(t, m)
  }

  /** Some line before `n` starts an item, and no line since ends the list; code does neither. */
  ghost predicate ListOpen(t: string, n: nat)
    requires n <= |t|
    decreases n, 2
  {
    exists m: nat :: m < n && Lists(t, m, n)
  }

  ghost predicate Lists(t: string, m: nat, n: nat)
    requires m < n <= |t|
    decreases n, 1
  {
    && LineStart(t, m) && !CodeLine(t, m) && ItemLine(t, m, LineEnd(t, m))
    && forall j: nat :: m < j < n && LineStart(t, j) && EndsList(t, j, LineEnd(t, j)) ==> CodeLine(t, j)
  }

  /** The line is code: a fence is open, the line opens one, or it is indented where neither a paragraph nor a list is
      open. */
  ghost predicate CodeLine(t: string, n: nat)
    requires n < |t|
    decreases n, 3
  {
    || (exists q: nat :: q < n && FenceOpen(t, q, n))
    || StartsFence(t, n)
    || (DeepLine(t, n) && !ParagraphOpen(t, n) && !ListOpen(t, n))
  }

  // ----- what the scan's tests mean -----

  lemma {:induction false} RunEndIs(t: string, i: nat, c: char)
    requires i <= |t|
    ensures WholeRun(t, i, RunEnd(t, i, c), c)
    decreases |t| - i
  {
    if i < |t| && t[i] == c { RunEndIs(t, i + 1, c); }
  }

  lemma OneRun(t: string, i: nat, j: nat, c: char)
    requires WholeRun(t, i, j, c)
    ensures RunEnd(t, i, c) == j
  {
    RunEndIs(t, i, c);
  }

  /** Spaces up to a character that is none reach to the text of the line. */
  lemma SpacesReach(t: string, i: nat, at: nat)
    requires Spaces(t, i, at) && at < |t| && t[at] != ' '
    ensures Text(t, i) == at
  {
    OneRun(t, i, at, ' ');
  }

  lemma {:induction false} LineIs(t: string, i: nat)
    requires i < |t|
    ensures var e := LineEnd(t, i);
      (forall k :: i <= k < e - 1 ==> t[k] != '\n') && (e == |t| || t[e - 1] == '\n')
    decreases |t| - i
  {
    if t[i] != '\n' && i + 1 < |t| { LineIs(t, i + 1); }
  }

  lemma OpensMeans(t: string, i: nat, c: char, w: nat)
    requires i < |t|
    ensures var e, at := LineEnd(t, i), Text(t, i);
      FenceLine(t, i, e, c, w) <==> Opens(t, i, e) && t[at] == c && RunEnd(t, at, c) - at == w
  {
    var e, at := LineEnd(t, i), Text(t, i);
    RunInLine(t, i, ' ');
    RunEndIs(t, i, ' ');
    if FenceLine(t, i, e, c, w) {
      var x: nat :| FenceText(t, i, e, x, c, w);
      SpacesReach(t, i, x);
      OneRun(t, x, x + w, c);
    }
    if Opens(t, i, e) && t[at] == c && RunEnd(t, at, c) - at == w {
      RunEndIs(t, at, c);
      RunInside(t, i, at, c);
      assert FenceText(t, i, e, at, c, w);
    }
  }

  /** A run in a line ends in it. */
  lemma RunInside(t: string, i: nat, at: nat, c: char)
    requires i < |t| && i <= at < LineEnd(t, i) && c != '\n'
    ensures RunEnd(t, at, c) <= LineEnd(t, i)
  {
    LineIs(t, i);
    RunEndIs(t, at, c);
    var e, r := LineEnd(t, i), RunEnd(t, at, c);
    assert forall k :: at <= k < r ==> t[k] == c;
    assert e < |t| ==> t[e - 1] == '\n';
  }

  lemma ClosesMeans(t: string, i: nat, f: Marks)
    requires i < |t| && (f.kind == '`' || f.kind == '~') && f.size >= 1
    ensures Closes(t, i, LineEnd(t, i), f) <==> ClosingLine(t, i, LineEnd(t, i), f.kind, f.size)
  {
    var e, at := LineEnd(t, i), Text(t, i);
    RunInLine(t, i, ' ');
    RunEndIs(t, i, ' ');
    if Closes(t, i, e, f) {
      RunEndIs(t, at, f.kind);
      RunInside(t, i, at, f.kind);
      assert ClosingText(t, i, e, at, RunEnd(t, at, f.kind) - at, f.kind);
    }
    if ClosingLine(t, i, e, f.kind, f.size) {
      var x: nat, v: nat :| v >= f.size && ClosingText(t, i, e, x, v, f.kind);
      SpacesReach(t, i, x);
      OneRun(t, x, x + v, f.kind);
    }
  }

  lemma DeepMeans(t: string, i: nat)
    requires i < |t|
    ensures DeepLine(t, i) <==> Text(t, i) - i >= 4 || t[i] == '\t'
    ensures Text(t, i) > i <==> t[i] == ' '
  {
    RunEndIs(t, i, ' ');
    var at := Text(t, i);
    assert at < |t| ==> t[at] != ' ';
  }

  lemma {:induction false} DigitsEndIs(t: string, i: nat)
    requires i <= |t|
    ensures forall k :: i <= k < DigitsEnd(t, i) ==> '0' <= t[k] <= '9'
    ensures DigitsEnd(t, i) < |t| ==> !('0' <= t[DigitsEnd(t, i)] <= '9')
    decreases |t| - i
  {
    if i < |t| && '0' <= t[i] <= '9' { DigitsEndIs(t, i + 1); }
  }

  lemma MarkerMeans(t: string, at: nat, e: nat)
    requires at <= e <= |t|
    ensures ListMarker(t, at, e) <==> Bullet(t, at, e) || exists d: nat :: Ordinal(t, at, d, e)
  {
    DigitsEndIs(t, at);
    if ListMarker(t, at, e) && '0' <= t[at] <= '9' { assert Ordinal(t, at, DigitsEnd(t, at) - at, e); }
    if d: nat :| Ordinal(t, at, d, e) { assert DigitsEnd(t, at) == at + d; }
  }

  lemma ItemMeans(t: string, i: nat)
    requires i < |t|
    ensures Text(t, i) <= LineEnd(t, i)
    ensures ItemLine(t, i, LineEnd(t, i)) <==> ListMarker(t, Text(t, i), LineEnd(t, i))
  {
    var e, at := LineEnd(t, i), Text(t, i);
    RunInLine(t, i, ' ');
    RunEndIs(t, i, ' ');
    MarkerMeans(t, at, e);
    if ItemLine(t, i, e) {
      var x: nat :| Spaces(t, i, x) && (Bullet(t, x, e) || exists d: nat :: Ordinal(t, x, d, e));
      if !Bullet(t, x, e) { var d: nat :| Ordinal(t, x, d, e); }
      SpacesReach(t, i, x);
    }
    if ListMarker(t, at, e) { assert Spaces(t, i, at); }
  }

  // ----- the scan agrees with the rules -----

  lemma NoStartWithin(t: string, i: nat, j: nat)
    requires i < |t| && i < j < LineEnd(t, i)
    ensures !LineStart(t, j)
  {
    LineIs(t, i);
  }

  lemma StartAfter(t: string, i: nat)
    requires i < |t| && LineEnd(t, i) < |t|
    ensures LineStart(t, LineEnd(t, i))
  {
    LineIs(t, i);
  }

  /** The mode of the scan says which fence, paragraph or list is open before `n`. */
  ghost predicate Agrees(t: string, n: nat, mode: Mode)
    requires n <= |t|
  {
    && (mode.fence.None? ==> forall q: nat :: q < n ==> !FenceOpen(t, q, n))
    && (mode.fence.Some? ==> exists q: nat :: q < n && Opened(t, q, n, mode.fence.value))
    && (mode.paragraph <==> ParagraphOpen(t, n))
    && (mode.inList <==> ListOpen(t, n))
  }

  ghost predicate Opened(t: string, q: nat, n: nat, f: Marks)
    requires q < n
  {
    FenceOpen(t, q, n) && q < |t| && FenceLine(t, q, LineEnd(t, q), f.kind, f.size)
  }

  lemma OneFenceLine(t: string, i: nat, c: char, w: nat, c': char, w': nat)
    requires i < |t| && FenceLine(t, i, LineEnd(t, i), c, w) && FenceLine(t, i, LineEnd(t, i), c', w')
    ensures c == c' && w == w'
  {
    OpensMeans(t, i, c, w);
    OpensMeans(t, i, c', w');
  }

  lemma StillOpenBefore(t: string, q: nat, m: nat, n: nat)
    requires q < m <= n && FenceOpen(t, q, n)
    ensures FenceOpen(t, q, m)
  {}

  /** At most one fence is open. */
  lemma OneOpen(t: string, p: nat, q: nat, n: nat)
    requires p < n && q < n && FenceOpen(t, p, n) && FenceOpen(t, q, n)
    ensures p == q
  {
    if p < q { StillOpenBefore(t, p, q, n); }
    if q < p { StillOpenBefore(t, q, p, n); }
  }

  lemma HasFenceForm(t: string, i: nat)
    requires i < |t|
    ensures Opens(t, i, LineEnd(t, i)) <==> exists c, w :: FenceLine(t, i, LineEnd(t, i), c, w)
  {
    var e, at := LineEnd(t, i), Text(t, i);
    if Opens(t, i, e) { OpensMeans(t, i, t[at], RunEnd(t, at, t[at]) - at); }
    if c, w :| FenceLine(t, i, e, c, w) { OpensMeans(t, i, c, w); }
  }

  /** A line is code for the scan exactly if it is by the rules. */
  lemma CodeAgrees(t: string, i: nat, mode: Mode)
    requires LineStart(t, i) && Agrees(t, i, mode)
    ensures IsCode(mode, t, i, LineEnd(t, i)) <==> CodeLine(t, i)
    ensures mode.fence.None? ==> (StartsFence(t, i) <==> Opens(t, i, LineEnd(t, i)))
  {
    if mode.fence.Some? {
      var q: nat :| q < i && Opened(t, q, i, mode.fence.value);
      assert FenceOpen(t, q, i);
    } else {
      DeepMeans(t, i);
      HasFenceForm(t, i);
      assert StartsFence(t, i) <==> Opens(t, i, LineEnd(t, i));
      assert CodeLine(t, i) <==> StartsFence(t, i) || (DeepLine(t, i) && !ParagraphOpen(t, i) && !ListOpen(t, i));
    }
  }

  /** A fence that was open stays open behind a line that does not close it. */
  lemma FenceGoesOn(t: string, i: nat, q: nat, f: Marks)
    requires LineStart(t, i) && q < i && Opened(t, q, i, f)
    requires !ClosingLine(t, i, LineEnd(t, i), f.kind, f.size)
    ensures Opened(t, q, LineEnd(t, i), f)
  {
    var e := LineEnd(t, i);
    forall j: nat, c, w | q < j < e && LineStart(t, j) && FenceLine(t, q, LineEnd(t, q), c, w)
      ensures !ClosingLine(t, j, LineEnd(t, j), c, w)
    {
      OneFenceLine(t, q, c, w, f.kind, f.size);
      if j > i { NoStartWithin(t, i, j); }
    }
  }

  /** Behind a closing line no fence is open. */
  lemma FenceCloses(t: string, i: nat, q: nat, f: Marks, p: nat)
    requires LineStart(t, i) && q < i && Opened(t, q, i, f) && ClosingLine(t, i, LineEnd(t, i), f.kind, f.size)
    requires p < LineEnd(t, i)
    ensures !FenceOpen(t, p, LineEnd(t, i))
  {
    if FenceOpen(t, p, LineEnd(t, i)) {
      if p > i { NoStartWithin(t, i, p); }
      if p < i {
        StillOpenBefore(t, p, i, LineEnd(t, i));
        OneOpen(t, p, q, i);
      }
    }
  }

  lemma NoFenceStays(t: string, i: nat, p: nat)
    requires LineStart(t, i) && !StartsFence(t, i) && p < LineEnd(t, i)
    requires forall q: nat :: q < i ==> !FenceOpen(t, q, i)
    ensures !FenceOpen(t, p, LineEnd(t, i))
  {
    if FenceOpen(t, p, LineEnd(t, i)) {
      if p > i { NoStartWithin(t, i, p); }
      if p < i { StillOpenBefore(t, p, i, LineEnd(t, i)); }
    }
  }

  lemma FenceStarts(t: string, i: nat, f: Marks)
    requires LineStart(t, i) && StartsFence(t, i) && FenceLine(t, i, LineEnd(t, i), f.kind, f.size)
    ensures Opened(t, i, LineEnd(t, i), f)
  {
    forall j: nat | i < j < LineEnd(t, i) ensures !LineStart(t, j) { NoStartWithin(t, i, j); }
  }

  lemma ParagraphAfter(t: string, i: nat)
    requires LineStart(t, i)
    ensures ParagraphOpen(t, LineEnd(t, i)) <==> !Blank(t, i, LineEnd(t, i)) && !CodeLine(t, i)
  {
    var e := LineEnd(t, i);
    if m: nat :| m < e && LineStart(t, m) && LineEnd(t, m) == e && !Blank(t, m, e) && !CodeLine(t, m) {
      if m < i { NoStartWithin(t, m, i); }
      if m > i { NoStartWithin(t, i, m); }
    }
  }

  lemma ListAfter(t: string, i: nat)
    requires LineStart(t, i)
    ensures ListOpen(t, LineEnd(t, i))
            <==> if CodeLine(t, i) then ListOpen(t, i)
                 else ItemLine(t, i, LineEnd(t, i)) || (ListOpen(t, i) && !EndsList(t, i, LineEnd(t, i)))
  {
    var e := LineEnd(t, i);
    if m: nat :| m < e && Lists(t, m, e) {
      if m > i { NoStartWithin(t, i, m); }
      if m < i { assert Lists(t, m, i); }
    }
    if m: nat :| m < i && Lists(t, m, i) {
      if CodeLine(t, i) || !EndsList(t, i, e) {
        forall j: nat | m < j < e && LineStart(t, j) && EndsList(t, j, LineEnd(t, j)) ensures CodeLine(t, j) {
          if j > i { NoStartWithin(t, i, j); }
        }
        assert Lists(t, m, e);
      }
    }
    if !CodeLine(t, i) && ItemLine(t, i, e) {
      forall j: nat | i < j < e ensures !LineStart(t, j) { NoStartWithin(t, i, j); }
      assert Lists(t, i, e);
    }
  }

  lemma FenceAgrees(t: string, i: nat, mode: Mode)
    requires LineStart(t, i) && Agrees(t, i, mode) && Sound(mode)
    ensures var e, next := LineEnd(t, i), CodeMask.Next(mode, t, i);
      && (next.fence.None? ==> forall q: nat :: q < e ==> !FenceOpen(t, q, e))
      && (next.fence.Some? ==> exists q: nat :: q < e && Opened(t, q, e, next.fence.value))
      && Sound(next)
  {
    var e, at := LineEnd(t, i), Text(t, i);
    CodeAgrees(t, i, mode);
    if mode.fence.Some? {
      var f := mode.fence.value;
      var q: nat :| q < i && Opened(t, q, i, f);
      ClosesMeans(t, i, f);
      if Closes(t, i, e, f) {
        forall p: nat | p < e ensures !FenceOpen(t, p, e) { FenceCloses(t, i, q, f, p); }
      } else {
        FenceGoesOn(t, i, q, f);
      }
    } else if Opens(t, i, e) {
      var f := Marks(t[at], RunEnd(t, at, t[at]) - at);
      OpensMeans(t, i, f.kind, f.size);
      FenceStarts(t, i, f);
    } else {
      forall p: nat | p < e ensures !FenceOpen(t, p, e) { NoFenceStays(t, i, p); }
    }
  }

  predicate Sound(mode: Mode) {
    mode.fence.Some? ==> (mode.fence.value.kind == '`' || mode.fence.value.kind == '~') && mode.fence.value.size >= 1
  }

  lemma RestAgrees(t: string, i: nat, mode: Mode)
    requires LineStart(t, i) && Agrees(t, i, mode)
    ensures var e, next := LineEnd(t, i), CodeMask.Next(mode, t, i);
      (next.paragraph <==> ParagraphOpen(t, e)) && (next.inList <==> ListOpen(t, e))
  {
    CodeAgrees(t, i, mode);
    DeepMeans(t, i);
    ItemMeans(t, i);
    ParagraphAfter(t, i);
    ListAfter(t, i);
  }

  lemma {:induction false} FlagAgrees(t: string, i: nat, mode: Mode, p: nat, n: nat)
    requires LineStart(t, i) && Agrees(t, i, mode) && Sound(mode) && i <= p < |t|
    requires LineStart(t, n) && n <= p < LineEnd(t, n)
    ensures Flag(t, i, mode, p) <==> CodeLine(t, n)
    decreases |t| - i
  {
    var e := LineEnd(t, i);
    if p < e {
      if n < i { NoStartWithin(t, n, i); }
      if n > i { NoStartWithin(t, i, n); }
      CodeAgrees(t, i, mode);
    } else {
      StartAfter(t, i);
      FenceAgrees(t, i, mode);
      RestAgrees(t, i, mode);
      FlagAgrees(t, e, CodeMask.Next(mode, t, i), p, n);
    }
  }

  /** The scan marks exactly the lines that are code by the rules, each as a whole. */
  lemma BlocksFollowTheRules(t: string, n: nat, p: nat)
    requires LineStart(t, n) && n <= p < LineEnd(t, n)
    ensures Blocks(t)[p] <==> CodeLine(t, n)
  {
    assert Agrees(t, 0, START);
    FlagAgrees(t, 0, START, p, n);
  }
}
