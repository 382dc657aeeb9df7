/** What a citation names, told part by part without the loops that take it apart: which id a part stands for, and
    what becomes of a list of parts. */
module CitationRules {
  import opened Basics
  import opened Characters
  import opened Options
  import opened Citations
  import opened CitationViews

  // ----- the pattern -----

  /** The first closing bracket of the text stands at `n`. */
  predicate FirstBracket(t: string, n: nat) {
    n < |t| && t[n] == ']' && forall i :: 0 <= i < n ==> t[i] != ']'
  }

  lemma {:induction false} ToBracketMeans(u: seq<Cell>, n: nat)
    ensures FirstBracket(Chars(u), n) <==> ToBracket(u) == n < |u|
  {
    if u != [] && u[0].c != ']' {
      assert Chars(u)[1..] == Chars(u[1..]);
      if n > 0 {
        ToBracketMeans(u[1..], n - 1);
        assert forall i :: 0 < i < |u| ==> Chars(u)[i] == Chars(u[1..])[i - 1];
      }
    }
  }

  /** A citation is an opener, one to 400 characters that are no closing bracket, and a closing bracket. */
  lemma MatchMeans(u: seq<Cell>, n: nat)
    ensures MatchLen(u) == Some(n)
            <==> 5 <= n <= 404 && n <= |u| && Chars(u)[..3] == "[E:" && FirstBracket(Chars(u)[3..], n - 4)
  {
    if |u| >= 3 {
      var t := Chars(u);
      assert t[..3] == "[E:" <==> t[0] == '[' && t[1] == 'E' && t[2] == ':';
      assert t[3..] == Chars(u[3..]);
      if n >= 4 { ToBracketMeans(u[3..], n - 4); }
    }
  }

  // ----- the spelling in a part -----

  predicate Blanks(s: string, i: nat, j: nat) {
    i <= j <= |s| && forall k :: i <= k < j ==> White(s[k])
  }

  /** Without the white space around it the part goes from `i` to `j`. */
  predicate Trimmed(part: string, i: nat, j: nat) {
    Blanks(part, 0, i) && i <= j && Blanks(part, j, |part|) && (i < j ==> !White(part[i]) && !White(part[j - 1]))
  }

  /** A marker that the part repeats is not part of the spelling, nor is the white space behind it. */
  predicate SpelledAt(part: string, i: nat, j: nat, k: nat) {
    && Trimmed(part, i, j)
    && if i + 2 <= j && part[i] == 'E' && part[i + 1] == ':' then
         Blanks(part, i + 2, k) && k <= j && (k < j ==> !White(part[k]))
       else k == i
  }

  ghost predicate Spelling(part: string, x: string) {
    exists i: nat, j: nat, k: nat :: SpelledAt(part, i, j, k) && x == part[k..j]
  }

  lemma {:induction false} StartIsTrimmed(s: string) returns (i: nat)
    ensures Blanks(s, 0, i) && TrimStart(s) == s[i..] && (i < |s| ==> !White(s[i]))
  {
    if s != "" && White(s[0]) {
      var n := StartIsTrimmed(s[1..]);
      i := n + 1;
      assert s[1..][n..] == s[i..];
      forall k | 0 <= k < i ensures White(s[k]) { if k > 0 { assert s[k] == s[1..][k - 1]; } }
      assert i < |s| ==> s[i] == s[1..][n];
    } else {
      i := 0;
      assert s[0..] == s;
    }
  }

  lemma {:induction false} EndIsTrimmed(s: string) returns (j: nat)
    ensures Blanks(s, j, |s|) && TrimEnd(s) == s[..j] && (j > 0 ==> !White(s[j - 1]))
  {
    if s != "" && White(s[|s| - 1]) {
      j := EndIsTrimmed(s[..|s| - 1]);
      assert s[..|s| - 1][..j] == s[..j];
    } else {
      j := |s|;
      assert s[..j] == s;
    }
  }

  lemma BareIsSpelling(part: string)
    ensures Spelling(part, Bare(part))
  {
    var i := StartIsTrimmed(part);
    var m := EndIsTrimmed(part[i..]);
    var t, j := part[i..][..m], i + m;
    assert TrimEnd(TrimStart(part)) == t == part[i..j];
    assert Blanks(part, j, |part|) by {
      forall k | j <= k < |part| ensures White(part[k]) { assert part[k] == part[i..][k - i]; }
    }
    assert i < j ==> part[j - 1] == part[i..][m - 1];
    assert Trimmed(part, i, j);
    MarkerIsSkipped(part, i, j);
  }

  lemma MarkerIsSkipped(part: string, i: nat, j: nat)
    requires Trimmed(part, i, j)
    ensures var t := part[i..j]; Spelling(part, TrimStart(if "E:" <= t then t[2..] else t))
  {
    var t := part[i..j];
    assert "E:" <= t <==> i + 2 <= j && part[i] == 'E' && part[i + 1] == ':' by {
      assert |t| >= 2 ==> t[0] == part[i] && t[1] == part[i + 1];
    }
    if "E:" <= t {
      var n := StartIsTrimmed(t[2..]);
      var k := i + 2 + n;
      assert t[2..][n..] == part[k..j];
      forall p | i + 2 <= p < k ensures White(part[p]) { assert part[p] == t[2..][p - i - 2]; }
      assert k < j ==> part[k] == t[2..][n];
      assert SpelledAt(part, i, j, k);
    } else {
      assert t != "" ==> t[0] == part[i];
      assert TrimStart(t) == t;
      assert SpelledAt(part, i, j, i);
    }
  }

  lemma OneTrim(part: string, i: nat, j: nat, i': nat, j': nat)
    requires Trimmed(part, i, j) && Trimmed(part, i', j')
    ensures (i == i' && j == j') || (i == j && i' == j')
  {
    if i == j { AllBlank(part, i); }
    if i' == j' { AllBlank(part, i'); }
  }

  lemma AllBlank(part: string, i: nat)
    requires Trimmed(part, i, i)
    ensures forall k :: 0 <= k < |part| ==> White(part[k])
  {}

  /** A part has one spelling. */
  lemma OneSpelling(part: string, x: string, y: string)
    requires Spelling(part, x) && Spelling(part, y)
    ensures x == y
  {
    var i: nat, j: nat, k: nat :| SpelledAt(part, i, j, k) && x == part[k..j];
    var i': nat, j': nat, k': nat :| SpelledAt(part, i', j', k') && y == part[k'..j'];
    OneTrim(part, i, j, i', j');
    if i == i' && j == j' && i < j { OneSkip(part, i, j, k, k'); }
  }

  lemma OneSkip(part: string, i: nat, j: nat, k: nat, k': nat)
    requires SpelledAt(part, i, j, k) && SpelledAt(part, i, j, k')
    ensures k == k'
  {}

  // ----- the id that a part names -----

  /** The spelling has at least eight characters, and this id alone starts with it. */
  ghost predicate Only(ids: seq<string>, p: string, id: string) {
    |p| >= 8 && id in ids && p <= id && forall other :: other in ids && p <= other ==> other == id
  }

  /** The first `n` characters are hexadecimal digits, and the next one is not. */
  predicate HexFront(x: string, n: nat) {
    n < |x| && (forall i :: 0 <= i < n ==> HexDigit(x[i])) && !HexDigit(x[n])
  }

  ghost predicate LabelledBy(ids: seq<string>, x: string, id: string) {
    exists n: nat :: HexFront(x, n) && Only(ids, x[..n], id)
  }

  /** The part stands for the id: its spelling names it, or names none and does so without the label behind its
      hexadecimal digits. */
  ghost predicate Names(ids: seq<string>, part: string, id: string) {
    exists x :: Spelling(part, x) && (Only(ids, x, id) || ((forall o :: !Only(ids, x, o)) && LabelledBy(ids, x, id)))
  }

  lemma ResolveExactly(ids: seq<string>, p: string, id: string)
    ensures Resolve(ids, p) == Some(id) <==> Only(ids, p, id)
  {}

  lemma {:induction false} HexRunMeans(s: string)
    ensures var n := HexRun(s); (forall i :: 0 <= i < n ==> HexDigit(s[i])) && (n < |s| ==> !HexDigit(s[n]))
  {
    if s != "" && HexDigit(s[0]) {
      HexRunMeans(s[1..]);
      var n := HexRun(s);
      forall i | 0 <= i < n ensures HexDigit(s[i]) { if i > 0 { assert s[i] == s[1..][i - 1]; } }
      assert n < |s| ==> s[n] == s[1..][n - 1];
    }
  }

  lemma LabelledExactly(ids: seq<string>, x: string, id: string)
    ensures Labelled(ids, x) == Some(id) <==> LabelledBy(ids, x, id)
  {
    HexRunMeans(x);
    var n := HexRun(x);
    ResolveExactly(ids, x[..n], id);
    assert n < |x| ==> HexFront(x, n);
    if m: nat :| HexFront(x, m) && Only(ids, x[..m], id) { assert m == n; }
  }

  /** A part of a citation is taken for an id exactly if it names it. */
  lemma NamedExactly(ids: seq<string>, part: string, id: string)
    ensures NamedBy(ids, part) == Some(id) <==> Names(ids, part, id)
  {
    var x := Bare(part);
    BareIsSpelling(part);
    forall y | Spelling(part, y) ensures y == x { OneSpelling(part, x, y); }
    forall o ensures Resolve(ids, x) == Some(o) <==> Only(ids, x, o) { ResolveExactly(ids, x, o); }
    LabelledExactly(ids, x, id);
  }

  // ----- lists -----

  /** `r` holds what `named` mentions, each once, in the order of the first mentions. */
  ghost predicate FirstMentions(named: seq<string>, r: seq<string>) {
    && Distinct(r) && (forall id :: id in r <==> id in named)
    && forall i, j :: 0 <= i < j < |r| ==> MentionedFirst(named, r[i], r[j])
  }

  ghost predicate MentionedFirst(named: seq<string>, a: string, b: string) {
    exists p :: 0 <= p < |named| && named[p] == a && b !in named[..p]
  }

  lemma OneMoreMention(named: seq<string>, r: seq<string>, id: string)
    requires FirstMentions(named, r)
    ensures FirstMentions(named + [id], Added(r, id))
  {
    var more, all := named + [id], Added(r, id);
    forall i, j | 0 <= i < j < |all| ensures MentionedFirst(more, all[i], all[j]) {
      if j < |r| {
        var p :| 0 <= p < |named| && named[p] == r[i] && r[j] !in named[..p];
        assert more[p] == r[i] && more[..p] == named[..p];
      } else {
        assert r[i] in named;
        var p :| 0 <= p < |named| && named[p] == r[i];
        assert more[p] == r[i] && more[..p] == named[..p];
        assert forall q :: q in named[..p] ==> q in named;
      }
    }
  }

  lemma HeadIsCollected(parts: seq<string>, id: string, ids: seq<string>, found: seq<string>)
    requires parts != [] && Plainly(parts[0]) && NamedBy(ids, parts[0]) == Some(id)
    ensures Collected(Commas(parts), ids, found)
         == if |parts| == 1 then Some(Added(found, id)) else Collected(Commas(parts[1..]), ids, Added(found, id))
  {
    FirstPart(parts);
  }

  function Once(named: seq<string>): seq<string> {
    if named == [] then [] else Added(Once(named[..|named| - 1]), named[|named| - 1])
  }

  lemma OneMore(named: seq<string>, id: string)
    ensures Once(named + [id]) == Added(Once(named), id)
  {
    assert (named + [id])[..|named|] == named;
  }

  lemma {:induction false} OnceMentions(named: seq<string>)
    ensures FirstMentions(named, Once(named))
  {
    if named != [] {
      var front, id := named[..|named| - 1], named[|named| - 1];
      OnceMentions(front);
      OneMoreMention(front, Once(front), id);
      assert named == front + [id];
    }
  }

  /** The parts are taken for these ids, one each. */
  ghost predicate PartsAre(parts: seq<string>, named: seq<string>, ids: seq<string>) {
    && |parts| == |named| > 0
    && forall i :: 0 <= i < |parts| ==> Plainly(parts[i]) && NamedBy(ids, parts[i]) == Some(named[i])
  }

  lemma RestAre(parts: seq<string>, named: seq<string>, ids: seq<string>)
    requires PartsAre(parts, named, ids) && |parts| > 1
    ensures PartsAre(parts[1..], named[1..], ids)
  {}

  function Folded(found: seq<string>, named: seq<string>): seq<string>
    decreases |named|
  {
    if named == [] then found else Folded(Added(found, named[0]), named[1..])
  }

  lemma {:induction false} FoldedIsOnce(before: seq<string>, named: seq<string>)
    ensures Folded(Once(before), named) == Once(before + named)
    decreases |named|
  {
    if named == [] {
      assert before + named == before;
    } else {
      OneMore(before, named[0]);
      FoldedIsOnce(before + [named[0]], named[1..]);
      assert before + [named[0]] + named[1..] == before + named;
    }
  }

  lemma {:induction false} ListIsCollected(parts: seq<string>, named: seq<string>, ids: seq<string>, found: seq<string>)
    requires PartsAre(parts, named, ids)
    ensures Collected(Commas(parts), ids, found) == Some(Folded(found, named))
    decreases |parts|
  {
    HeadIsCollected(parts, named[0], ids, found);
    if |parts| == 1 {
      assert named[1..] == [];
    } else {
      RestAre(parts, named, ids);
      ListIsCollected(parts[1..], named[1..], ids, Added(found, named[0]));
    }
  }

  /** A citation whose parts all name something becomes one citation for each id, in the order of the first mentions. */
  lemma ListIsRewritten(parts: seq<string>, named: seq<string>, ids: seq<string>) returns (r: seq<string>)
    requires |parts| == |named| > 0
    requires forall i :: 0 <= i < |parts| ==> Plainly(parts[i]) && Names(ids, parts[i], named[i])
    ensures FirstMentions(named, r) && Rewritten(Commas(parts), ids) == Tokens(r)
  {
    r := Once(named);
    forall i | 0 <= i < |parts|
      ensures NamedBy(ids, parts[i]) == Some(named[i]) { NamedExactly(ids, parts[i], named[i]); }
    ListIsCollected(parts, named, ids, []);
    FoldedIsOnce([], named);
    OnceMentions(named);
    assert [] + named == named;
  }

  /** A part that names nothing leaves the whole citation as it is. */
  lemma OnePartSpoils(parts: seq<string>, k: nat, ids: seq<string>)
    requires k < |parts| && forall i :: 0 <= i < |parts| ==> Plainly(parts[i])
    requires forall id :: !Names(ids, parts[k], id)
    ensures Rewritten(Commas(parts), ids) == Token(Commas(parts))
  {
    if NamedBy(ids, parts[k]).Some? { NamedExactly(ids, parts[k], NamedBy(ids, parts[k]).value); }
    PartSpoils(parts, k, ids, []);
  }

  /** Every citation is such a list of parts. */
  lemma {:induction false} IsList(s: string) returns (parts: seq<string>)
    ensures parts != [] && s == Commas(parts) && forall i :: 0 <= i < |parts| ==> Plainly(parts[i])
    decreases |s|
  {
    var n := Comma(s);
    CommaIsFirst(s);
    if n == |s| {
      parts := [s];
    } else {
      var rest := IsList(s[n + 1..]);
      parts := [s[..n]] + rest;
      assert parts[1..] == rest;
      assert s == s[..n] + "," + s[n + 1..];
    }
  }

  lemma {:induction false} CommaIsFirst(s: string)
    ensures Plainly(s[..Comma(s)]) && (Comma(s) < |s| ==> s[Comma(s)] == ',')
  {
    if s != "" && s[0] != ',' {
      CommaIsFirst(s[1..]);
      var n := Comma(s);
      forall i | 0 <= i < n ensures s[..n][i] != ',' { if i > 0 { assert s[i] == s[1..][..n - 1][i - 1]; } }
      assert n < |s| ==> s[n] == s[1..][n - 1];
    }
  }
}
