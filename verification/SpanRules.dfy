/** Where a code span ends, told without a search: at the first run of as many backticks as it began with, if neither a
    block nor a blank line comes before that. */
module SpanRules {
  import opened Characters
  import opened Options
  import opened CodeMask
  import opened CodeRanges

  /** The characters from `x` up to `y` are backticks, and the one at `y` is not. */
  predicate Ticks(t: string, x: nat, y: nat) {
    x < y <= |t| && (forall p :: x <= p < y ==> t[p] == '`') && (y < |t| ==> t[y] != '`')
  }

  /** They are a whole run: no backtick stands before them either. */
  predicate Run(t: string, x: nat, y: nat) {
    Ticks(t, x, y) && (x > 0 ==> t[x - 1] != '`')
  }

  /** From `i` on there is a line of nothing but blanks, or the text ends in blanks. */
  ghost predicate BlankLine(t: string, i: nat) {
    exists q: nat :: BlankUntil(t, i, q)
  }

  predicate BlankUntil(t: string, i: nat, q: nat) {
    i <= q && (q < |t| ==> t[q] == '\n')
    && forall p :: i <= p < q && p < |t| ==> t[p] == ' ' || t[p] == '\t' || t[p] == '\r'
  }

  /** No span goes on at `p`: a block stands there, or a blank line follows. */
  ghost predicate Barrier(t: string, b: seq<bool>, p: nat)
    requires p < |t| == |b|
  {
    b[p] || (t[p] == '\n' && BlankLine(t, p + 1))
  }

  /** No barrier stands from `i` to `x`, and no whole run of `w` backticks ends in between. */
  ghost predicate Through(t: string, b: seq<bool>, i: nat, x: nat, w: nat)
    requires |b| == |t|
  {
    && x < |t| && (forall p :: i <= p <= x ==> !Barrier(t, b, p))
    && forall u: nat, v: nat :: i <= u && v <= x && Run(t, u, v) ==> v - u != w
  }

  /** The first whole run of `w` backticks from `i` on ends at `e`, and nothing bars the way to it. */
  ghost predicate FirstRun(t: string, b: seq<bool>, i: nat, w: nat, e: nat)
    requires |b| == |t|
  {
    w <= e && i <= e - w && Run(t, e - w, e) && Through(t, b, i, e - w, w)
  }

  lemma {:induction false} BlankMeans(t: string, i: nat)
    ensures BlankFrom(t, i) <==> BlankLine(t, i)
    decreases |t| - i
  {
    if i >= |t| || t[i] == '\n' {
      assert BlankUntil(t, i, i);
    } else if t[i] == ' ' || t[i] == '\t' || t[i] == '\r' {
      var next := i + 1;
      BlankMeans(t, next);
      if q: nat :| BlankUntil(t, i, q) { assert BlankUntil(t, next, q); }
      if q: nat :| BlankUntil(t, next, q) { assert BlankUntil(t, i, q); }
    }
  }

  lemma {:induction false} RunEndMeans(t: string, i: nat)
    requires i <= |t|
    ensures var j := RunEnd(t, i, '`'); (forall p :: i <= p < j ==> t[p] == '`') && (j < |t| ==> t[j] != '`')
    decreases |t| - i
  {
    if i < |t| && t[i] == '`' { RunEndMeans(t, i + 1); }
  }

  lemma HopMeans(t: string, i: nat)
    requires i < |t| && t[i] == '`'
    ensures Ticks(t, i, Hop(t, i))
  {
    RunEndMeans(t, i + 1);
  }

  lemma OneEnd(t: string, x: nat, y: nat, y': nat)
    requires Ticks(t, x, y) && Ticks(t, x, y')
    ensures y == y'
  {}

  /** A run that starts at `i` or later is a whole one. */
  predicate Fresh(t: string, i: nat) {
    0 < i < |t| && t[i] == '`' ==> t[i - 1] != '`'
  }

  lemma HopIsFresh(t: string, i: nat)
    requires i < |t|
    ensures Fresh(t, Hop(t, i))
  {
    if t[i] == '`' { HopMeans(t, i); }
  }

  /** The way from `i` on, one hop further. */
  lemma OneHop(t: string, b: seq<bool>, i: nat, w: nat, x: nat)
    requires WholeLines(t, b) && i < |t| && Fresh(t, i) && !Barrier(t, b, i) && Hop(t, i) <= x
    requires t[i] == '`' ==> Hop(t, i) - i != w
    ensures Through(t, b, i, x, w) <==> Through(t, b, Hop(t, i), x, w)
  {
    if Through(t, b, Hop(t, i), x, w) {
      if t[i] == '`' {
        HopMeans(t, i);
        RunIsWhole(t, b, i);
      }
      forall u: nat, v: nat | i <= u && v <= x && Run(t, u, v) ensures v - u != w {
        if u == i { OneEnd(t, i, v, Hop(t, i)); }
      }
    }
  }

  lemma RunIsBehind(t: string, i: nat, x: nat, e: nat)
    requires i < x && Run(t, x, e)
    ensures Hop(t, i) <= x
  {
    if t[i] == '`' { HopMeans(t, i); }
  }

  lemma {:induction false} CloseFindsFirst(t: string, b: seq<bool>, i: nat, w: nat, e: nat)
    requires WholeLines(t, b) && i <= |t| && Fresh(t, i) && w > 0
    ensures Close(t, b, i, w) == Some(e) <==> FirstRun(t, b, i, w, e)
    decreases |t| - i
  {
    if i < |t| {
      BlankMeans(t, i + 1);
      HopIsFresh(t, i);
      if t[i] == '`' { HopMeans(t, i); }
      if !Barrier(t, b, i) {
        CloseFindsFirst(t, b, Hop(t, i), w, e);
        StepFindsFirst(t, b, i, w, e);
      }
    }
  }

  lemma StepFindsFirst(t: string, b: seq<bool>, i: nat, w: nat, e: nat)
    requires WholeLines(t, b) && i < |t| && Fresh(t, i) && w > 0 && !Barrier(t, b, i)
    ensures FirstRun(t, b, i, w, e)
            <==> if t[i] == '`' && Hop(t, i) - i == w then e == Hop(t, i) else FirstRun(t, b, Hop(t, i), w, e)
  {
    if t[i] == '`' { HopMeans(t, i); }
    if t[i] == '`' && Hop(t, i) - i == w {
      assert Run(t, i, Hop(t, i));
      if w <= e && i < e - w && Run(t, e - w, e) { RunIsBehind(t, i, e - w, e); }
      if w <= e && i == e - w && Run(t, e - w, e) { OneEnd(t, i, e, Hop(t, i)); }
    } else if w <= e && i <= e - w && Run(t, e - w, e) {
      if e - w == i { OneEnd(t, i, e, Hop(t, i)); }
      if e - w > i {
        RunIsBehind(t, i, e - w, e);
        OneHop(t, b, i, w, e - w);
      }
    }
  }

  /** A backtick run outside the blocks that the scan comes to starts a span exactly if a run of the same width
      follows before any block or blank line; the span ends with the first such run. */
  lemma SpanFollowsTheRules(t: string, i: nat, o: nat, e: nat)
    requires i < |t| && !Blocks(t)[i] && Ticks(t, i, o)
    ensures SpanAt(t, Blocks(t), i) == Some(e) <==> FirstRun(t, Blocks(t), o, o - i, e)
  {
    BlocksAreWhole(t);
    HopMeans(t, i);
    OneEnd(t, i, o, Hop(t, i));
    CloseFindsFirst(t, Blocks(t), o, o - i, e);
  }
}
