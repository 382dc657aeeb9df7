/** Paged evidence retrieval: rows arrive in pages of any size; after every page the kept list is
    sorted, capped per path and truncated. Keeping only that list loses nothing. */
module Retrieval {
  /** A scored passage. */
  datatype Row = Row(score: int, id: string, path: string, content: string)

  const PER_PATH: nat := 8
  const KEPT: nat := 64

  /** String order, as `String::cmp` gives it. */
  predicate Below(a: string, b: string)
    decreases |a|
  {
    if b == "" then false
    else if a == "" then true
    else a[0] < b[0] || (a[0] == b[0] && Below(a[1..], b[1..]))
  }

  /** `a` comes strictly before `b`: higher score first, then the lower id. */
  predicate Before(a: Row, b: Row) {
    a.score > b.score || (a.score == b.score && Below(a.id, b.id))
  }

  lemma BelowTransitive(a: string, b: string, c: string)
    requires !Below(b, a) && Below(b, c)
    ensures Below(a, c)
    decreases |a|
  {
    if a != "" && b[0] == c[0] && a[0] == b[0] { BelowTransitive(a[1..], b[1..], c[1..]); }
  }

  lemma BelowNegTransitive(a: string, b: string, c: string)
    requires Below(a, b) && !Below(c, b)
    ensures Below(a, c)
    decreases |a|
  {
    if a != "" && c != "" && b[0] == c[0] && a[0] == b[0] { BelowNegTransitive(a[1..], b[1..], c[1..]); }
  }

  lemma BelowAsymmetric(a: string, b: string)
    requires Below(a, b)
    ensures !Below(b, a)
    decreases |a|
  {
    if a != "" && a[0] == b[0] { BelowAsymmetric(a[1..], b[1..]); }
  }

  /** `x` strictly before `y`, `z` not before `y`: then `x` strictly before `z`. */
  lemma BeforeThen(x: Row, y: Row, z: Row)
    requires Before(x, y) && !Before(z, y)
    ensures Before(x, z)
  {
    if x.score == y.score == z.score { BelowNegTransitive(x.id, y.id, z.id); }
  }

  lemma BeforeAsymmetric(x: Row, y: Row)
    requires Before(x, y)
    ensures !Before(y, x)
  {
    if x.score == y.score { BelowAsymmetric(x.id, y.id); }
  }

  ghost predicate Sorted(s: seq<Row>) {
    forall i, j :: 0 <= i < j < |s| ==> !Before(s[j], s[i])
  }

  /** Stable insertion: after every row that does not come after `x`. */
  function Insert(x: Row, s: seq<Row>): seq<Row> {
    if s == [] || Before(x, s[0]) then [x] + s else [s[0]] + Insert(x, s[1..])
  }

  /** The stable sort of `s + more` when `s` is sorted already. */
  function InsertAll(s: seq<Row>, more: seq<Row>): seq<Row>
    decreases |more|
  {
    if more == [] then s else InsertAll(Insert(more[0], s), more[1..])
  }

  function Sort(s: seq<Row>): seq<Row> {
    InsertAll([], s)
  }

  /** The cap per path, then the cut to `KEPT`, as one walk: `taken` counts the paths kept so far. */
  function Keep(s: seq<Row>, taken: multiset<string>): seq<Row> {
    if s == [] || |taken| >= KEPT then []
    else if taken[s[0].path] < PER_PATH then [s[0]] + Keep(s[1..], taken + multiset{s[0].path})
    else Keep(s[1..], taken)
  }

  /** What retrieval keeps of a list of rows. */
  function Kept(rows: seq<Row>): seq<Row> {
    Keep(Sort(rows), multiset{})
  }

  // ----- the sort -----

  lemma {:induction false} InsertSorted(x: Row, s: seq<Row>)
    requires Sorted(s)
    ensures Sorted(Insert(x, s)) && multiset(Insert(x, s)) == multiset(s) + multiset{x}
  {
    if s == [] {
    } else if Before(x, s[0]) {
      forall j | 0 <= j < |s| ensures !Before(s[j], x) {
        if j > 0 { BeforeThen(x, s[0], s[j]); }
        BeforeAsymmetric(x, s[j]);
      }
    } else {
      InsertSorted(x, s[1..]);
      var rest := Insert(x, s[1..]);
      assert s == [s[0]] + s[1..];
      forall j | 0 <= j < |rest| ensures !Before(rest[j], s[0]) {
        assert rest[j] in multiset(rest);
      }
    }
  }

  lemma {:induction false} InsertAllSorted(s: seq<Row>, more: seq<Row>)
    requires Sorted(s)
    ensures Sorted(InsertAll(s, more)) && multiset(InsertAll(s, more)) == multiset(s) + multiset(more)
    decreases |more|
  {
    if more != [] {
      InsertSorted(more[0], s);
      InsertAllSorted(Insert(more[0], s), more[1..]);
      assert more == [more[0]] + more[1..];
    }
  }

  lemma SortSorts(s: seq<Row>)
    ensures Sorted(Sort(s)) && multiset(Sort(s)) == multiset(s)
  {
    InsertAllSorted([], s);
  }

  lemma {:induction false} InsertAllTwice(s: seq<Row>, a: seq<Row>, b: seq<Row>)
    ensures InsertAll(s, a + b) == InsertAll(InsertAll(s, a), b)
    decreases |a|
  {
    if a == [] {
      assert a + b == b;
    } else {
      assert (a + b)[1..] == a[1..] + b;
      InsertAllTwice(Insert(a[0], s), a[1..], b);
    }
  }

  lemma {:induction false} InsertLast(x: Row, s: seq<Row>)
    requires forall i :: 0 <= i < |s| ==> !Before(x, s[i])
    ensures Insert(x, s) == s + [x]
  {
    if s != [] { InsertLast(x, s[1..]); }
  }

  /** Sorting a sorted list leaves it alone. */
  lemma {:induction false} SortedStays(done: seq<Row>, s: seq<Row>)
    requires Sorted(done + s)
    ensures InsertAll(done, s) == done + s
    decreases |s|
  {
    if s == [] {
      assert done + s == done;
    } else {
      assert forall i :: 0 <= i < |done| ==> done[i] == (done + s)[i];
      assert s[0] == (done + s)[|done|];
      InsertLast(s[0], done);
      assert done + [s[0]] + s[1..] == done + s;
      SortedStays(done + [s[0]], s[1..]);
    }
  }

  // ----- the walk -----

  lemma CardinalityOrder(m: multiset<string>, n: multiset<string>)
    requires m <= n
    ensures |m| <= |n|
  {
    assert n == m + (n - m);
  }

  /** Walking with more paths already taken sees no difference if a walk with fewer went first. */
  lemma {:induction false} Absorb(s: seq<Row>, few: multiset<string>, many: multiset<string>)
    requires few <= many
    ensures Keep(s, many) == Keep(Keep(s, few), many)
    decreases |s|
  {
    CardinalityOrder(few, many);
    if s != [] && |many| < KEPT {
      var p := s[0].path;
      if few[p] < PER_PATH {
        var rest := Keep(s[1..], few + multiset{p});
        assert Keep(s, few) == [s[0]] + rest;
        assert ([s[0]] + rest)[1..] == rest;
        Absorb(s[1..], few + multiset{p}, if many[p] < PER_PATH then many + multiset{p} else many);
      } else {
        Absorb(s[1..], few, many);
      }
    }
  }

  lemma {:induction false} KeepIn(s: seq<Row>, taken: multiset<string>)
    ensures forall e :: e in Keep(s, taken) ==> e in s
    decreases |s|
  {
    if s != [] && |taken| < KEPT {
      KeepIn(s[1..], if taken[s[0].path] < PER_PATH then taken + multiset{s[0].path} else taken);
    }
  }

  lemma {:induction false} KeepSorted(s: seq<Row>, taken: multiset<string>)
    requires Sorted(s)
    ensures Sorted(Keep(s, taken))
    decreases |s|
  {
    if s != [] && |taken| < KEPT {
      var next := if taken[s[0].path] < PER_PATH then taken + multiset{s[0].path} else taken;
      KeepSorted(s[1..], next);
      KeepIn(s[1..], next);
      var rest := Keep(s[1..], next);
      forall j | 0 <= j < |rest| ensures !Before(rest[j], s[0]) { assert rest[j] in rest; }
    }
  }

  lemma InsertKeepFirst(x: Row, s: seq<Row>, taken: multiset<string>)
    requires Sorted(s) && s != [] && Before(x, s[0]) && |taken| < KEPT
    ensures Keep(Insert(x, s), taken) == Keep(Insert(x, Keep(s, taken)), taken)
  {
    var kept := Keep(s, taken);
    KeepIn(s, taken);
    if kept != [] {
      assert kept[0] in kept;
      var j :| 0 <= j < |s| && s[j] == kept[0];
      if j > 0 { BeforeThen(x, s[0], s[j]); }
    }
    assert Insert(x, kept) == [x] + kept;
    assert ([x] + s)[1..] == s && ([x] + kept)[1..] == kept;
    Absorb(s, taken, if taken[x.path] < PER_PATH then taken + multiset{x.path} else taken);
  }

  /** Dropping what the walk drops, before one more row is inserted, changes nothing. */
  lemma {:induction false} InsertKeep(x: Row, s: seq<Row>, taken: multiset<string>)
    requires Sorted(s)
    ensures Keep(Insert(x, s), taken) == Keep(Insert(x, Keep(s, taken)), taken)
    decreases |s|
  {
    if s == [] || |taken| >= KEPT {
    } else if Before(x, s[0]) {
      InsertKeepFirst(x, s, taken);
    } else {
      var h, rest := s[0], s[1..];
      assert ([h] + Insert(x, rest))[1..] == Insert(x, rest);
      if taken[h.path] < PER_PATH {
        var next := taken + multiset{h.path};
        var kept := Keep(rest, next);
        InsertKeep(x, rest, next);
        assert ([h] + kept)[1..] == kept;
        assert ([h] + Insert(x, kept))[1..] == Insert(x, kept);
        assert Keep([h] + Insert(x, kept), taken) == [h] + Keep(Insert(x, kept), next);
      } else {
        InsertKeep(x, rest, taken);
      }
    }
  }

  lemma {:induction false} InsertAllKeep(s: seq<Row>, more: seq<Row>)
    requires Sorted(s)
    ensures Keep(InsertAll(s, more), multiset{}) == Keep(InsertAll(Keep(s, multiset{}), more), multiset{})
    decreases |more|
  {
    if more == [] {
      Absorb(s, multiset{}, multiset{});
    } else {
      var kept := Keep(s, multiset{});
      KeepSorted(s, multiset{});
      InsertSorted(more[0], s);
      InsertSorted(more[0], kept);
      InsertKeep(more[0], s, multiset{});
      InsertAllKeep(Insert(more[0], s), more[1..]);
      InsertAllKeep(Insert(more[0], kept), more[1..]);
    }
  }

  /** Keeping only what was kept so far, before more rows arrive, loses nothing. */
  lemma PagingIsExact(seen: seq<Row>, page: seq<Row>)
    ensures Kept(Kept(seen) + page) == Kept(seen + page)
  {
    SortSorts(seen);
    KeepSorted(Sort(seen), multiset{});
    InsertAllTwice([], seen, page);
    InsertAllTwice([], Kept(seen), page);
    assert [] + Kept(seen) == Kept(seen);
    SortedStays([], Kept(seen));
    InsertAllKeep(Sort(seen), page);
  }

  // ----- retain and truncate, as written -----

  /** `retain`: every row counts towards its path, kept or not. */
  function Cap(s: seq<Row>, seen: multiset<string>): seq<Row> {
    if s == [] then []
    else (if seen[s[0].path] < PER_PATH then [s[0]] else []) + Cap(s[1..], seen + multiset{s[0].path})
  }

  function Truncate(s: seq<Row>, n: nat): seq<Row> {
    if |s| <= n then s else s[..n]
  }

  /** The one walk is `retain` followed by `truncate`. */
  lemma {:induction false} CapThenTruncate(s: seq<Row>, seen: multiset<string>, taken: multiset<string>)
    requires |taken| <= KEPT
    requires forall p :: taken[p] == if seen[p] < PER_PATH then seen[p] else PER_PATH
    ensures Keep(s, taken) == Truncate(Cap(s, seen), KEPT - |taken|)
    decreases |s|
  {
    if s != [] && |taken| < KEPT {
      var p := s[0].path;
      if seen[p] < PER_PATH {
        CapThenTruncate(s[1..], seen + multiset{p}, taken + multiset{p});
        var rest := Cap(s[1..], seen + multiset{p});
        assert Truncate([s[0]] + rest, KEPT - |taken|) == [s[0]] + Truncate(rest, KEPT - |taken| - 1);
      } else {
        CapThenTruncate(s[1..], seen + multiset{p}, taken);
      }
    }
  }

  function Count(counts: map<string, nat>, p: string): nat {
    if p in counts then counts[p] else 0
  }

  /** The per-page tail of the loop: `retain` with a table of counts, then `truncate`. */
  method CapAndTruncate(best: seq<Row>) returns (kept: seq<Row>)
    ensures kept == Keep(best, multiset{})
  {
    var perPath: map<string, nat> := map[];
    ghost var seen: multiset<string> := multiset{};
    kept := [];
    var i := 0;
    while i < |best|
      invariant 0 <= i <= |best|
      invariant forall p :: Count(perPath, p) == seen[p]
      invariant kept + Cap(best[i..], seen) == Cap(best, multiset{})
    {
      var p := best[i].path;
      var count := Count(perPath, p) + 1;
      perPath := perPath[p := count];
      assert best[i..][1..] == best[i + 1..];
      if count <= PER_PATH { kept := kept + [best[i]]; }
      seen := seen + multiset{p};
      i := i + 1;
    }
    assert best[i..] == [];
    CapThenTruncate(best, multiset{}, multiset{});
    kept := Truncate(kept, KEPT);
  }

  function Flatten(pages: seq<seq<Row>>): seq<Row> {
    if pages == [] then [] else Flatten(pages[..|pages| - 1]) + pages[|pages| - 1]
  }

  /** The page loop of `retrieve`: after every page the list is what sorting, capping and truncating
      everything seen so far would give, whatever the page sizes. */
  method Retrieve(pages: seq<seq<Row>>) returns (best: seq<Row>)
    ensures best == Truncate(Cap(Sort(Flatten(pages)), multiset{}), KEPT)
  {
    best := [];
    var n := 0;
    while n < |pages|
      invariant 0 <= n <= |pages|
      invariant best == Kept(Flatten(pages[..n]))
    {
      PagingIsExact(Flatten(pages[..n]), pages[n]);
      assert pages[..n + 1][..n] == pages[..n];
      best := CapAndTruncate(Sort(best + pages[n]));
      n := n + 1;
    }
    assert pages[..n] == pages;
    CapThenTruncate(Sort(Flatten(pages)), multiset{}, multiset{});
  }

  // ----- what is kept -----

  function OfPath(s: seq<Row>, p: string): nat {
    if s == [] then 0 else (if s[0].path == p then 1 else 0) + OfPath(s[1..], p)
  }

  lemma {:induction false} KeepBounds(s: seq<Row>, taken: multiset<string>, p: string)
    requires |taken| <= KEPT
    ensures |taken| + |Keep(s, taken)| <= KEPT
    ensures OfPath(Keep(s, taken), p) == 0 || taken[p] + OfPath(Keep(s, taken), p) <= PER_PATH
    decreases |s|
  {
    if s != [] && |taken| < KEPT {
      KeepBounds(s[1..], if taken[s[0].path] < PER_PATH then taken + multiset{s[0].path} else taken, p);
    }
  }

  /** Row `r` is crowded out of `kept`: by 8 rows of its own path or by 64 rows, none after it. */
  ghost predicate CrowdedOut(r: Row, kept: seq<Row>, taken: multiset<string>) {
    || (taken[r.path] + OfPath(kept, r.path) >= PER_PATH && forall e :: e in kept && e.path == r.path ==> !Before(r, e))
    || (|taken| + |kept| >= KEPT && forall e :: e in kept ==> !Before(r, e))
  }

  lemma {:induction false} DroppedIsCrowdedOut(s: seq<Row>, taken: multiset<string>, r: Row)
    requires Sorted(s) && r in s && r !in Keep(s, taken) && |taken| <= KEPT
    ensures CrowdedOut(r, Keep(s, taken), taken)
    decreases |s|
  {
    if |taken| < KEPT {
      var p := s[0].path;
      var next := if taken[p] < PER_PATH then taken + multiset{p} else taken;
      if r == s[0] {
        KeepBounds(s[1..], taken, p);
        NoneOfPath(Keep(s[1..], taken), p);
      } else {
        var j :| 0 <= j < |s| && s[j] == r;
        assert s[1..][j - 1] == r;
        DroppedIsCrowdedOut(s[1..], next, r);
        assert !Before(r, s[0]);
        if taken[p] < PER_PATH {
          assert Keep(s, taken) == [s[0]] + Keep(s[1..], next);
          assert Keep(s, taken)[1..] == Keep(s[1..], next);
        }
      }
    }
  }

  lemma {:induction false} NoneOfPath(s: seq<Row>, p: string)
    requires OfPath(s, p) == 0
    ensures forall e :: e in s ==> e.path != p
  {
    if s != [] { NoneOfPath(s[1..], p); }
  }

  // ----- the order, told without the comparison of the sort -----

  /** The strings agree up to a place where `a` ends or has the lower character. */
  ghost predicate Lower(a: string, b: string) {
    exists k: nat :: LowerAt(a, b, k)
  }

  predicate LowerAt(a: string, b: string, k: nat) {
    k <= |a| && k < |b| && (forall i :: 0 <= i < k ==> a[i] == b[i]) && (k == |a| || a[k] < b[k])
  }

  ghost predicate Better(a: Row, b: Row) {
    a.score > b.score || (a.score == b.score && Lower(a.id, b.id))
  }

  lemma {:induction false} BelowIsLower(a: string, b: string)
    ensures Below(a, b) <==> Lower(a, b)
    decreases |a|
  {
    if a != "" && b != "" {
      BelowIsLower(a[1..], b[1..]);
      if k: nat :| LowerAt(a, b, k) {
        if k > 0 { assert LowerAt(a[1..], b[1..], k - 1); }
      }
      if a[0] < b[0] {
        assert LowerAt(a, b, 0);
      } else if a[0] == b[0] {
        if k: nat :| LowerAt(a[1..], b[1..], k) { LowerLater(a, b, k); }
      }
    } else {
      assert b != "" ==> LowerAt(a, b, 0);
    }
  }

  lemma LowerLater(a: string, b: string, k: nat)
    requires a != "" && b != "" && a[0] == b[0] && LowerAt(a[1..], b[1..], k)
    ensures LowerAt(a, b, k + 1)
  {
    forall i | 0 < i < k + 1 ensures a[i] == b[i] { assert a[1..][i - 1] == b[1..][i - 1]; }
  }

  lemma BeforeIsBetter(a: Row, b: Row)
    ensures Before(a, b) <==> Better(a, b)
  {
    BelowIsLower(a.id, b.id);
  }

  lemma {:induction false} KeepIsPart(s: seq<Row>, taken: multiset<string>)
    ensures multiset(Keep(s, taken)) <= multiset(s)
    decreases |s|
  {
    if s != [] && |taken| < KEPT {
      assert s == [s[0]] + s[1..];
      KeepIsPart(s[1..], if taken[s[0].path] < PER_PATH then taken + multiset{s[0].path} else taken);
    }
  }

  /** Retrieval keeps at most 64 of the rows and 8 of a path, best first; a row it drops is crowded out by 64 rows or
      by 8 rows of its own path, and it is better than none of them. */
  lemma KeptAreTheBest(rows: seq<Row>, r: Row)
    requires r in rows
    ensures |Kept(rows)| <= 64 && OfPath(Kept(rows), r.path) <= 8 && multiset(Kept(rows)) <= multiset(rows)
    ensures forall i, j :: 0 <= i < j < |Kept(rows)| ==> !Better(Kept(rows)[j], Kept(rows)[i])
    ensures r !in Kept(rows) ==>
      || (|Kept(rows)| == 64 && forall e :: e in Kept(rows) ==> !Better(r, e))
      || (OfPath(Kept(rows), r.path) == 8 && forall e :: e in Kept(rows) && e.path == r.path ==> !Better(r, e))
  {
    SortSorts(rows);
    assert r in multiset(Sort(rows));
    KeepBounds(Sort(rows), multiset{}, r.path);
    KeepIsPart(Sort(rows), multiset{});
    KeepSorted(Sort(rows), multiset{});
    forall a: Row, b: Row ensures Before(a, b) <==> Better(a, b) { BeforeIsBetter(a, b); }
    if r !in Kept(rows) { DroppedIsCrowdedOut(Sort(rows), multiset{}, r); }
  }
}
