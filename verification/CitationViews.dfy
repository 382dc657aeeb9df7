/** Whole texts with short citations: sending them with aliases, and normalising what comes back. */
module CitationViews {
  import opened Basics
  import opened Characters
  import opened Options
  import opened CodeMask
  import opened CodeRanges
  import opened Citations
  import Aliases

  /** A citation holds at most this many characters. */
  const LONGEST := 400

  // ----- the citation pattern -----

  /** How many characters come before the next closing bracket, or before the end. */
  function ToBracket(u: seq<Cell>): (n: nat)
    ensures n <= |u| && (n < |u| ==> u[n].c == ']')
  {
    if u == [] || u[0].c == ']' then 0 else 1 + ToBracket(u[1..])
  }

  predicate Opener(u: seq<Cell>) {
    |u| >= 3 && u[0].c == '[' && u[1].c == 'E' && u[2].c == ':'
  }

  /** The length of the match of the pattern at the front. */
  function MatchLen(u: seq<Cell>): (r: Option<nat>)
    ensures r.Some? ==> 5 <= r.value <= |u| && u[0].c == '['
  {
    if !Opener(u) then None
    else
      var n := ToBracket(u[3..]);
      if n < |u| - 3 && 1 <= n <= LONGEST then Some(n + 4) else None
  }

  /** What a match names. */
  function Inside(u: seq<Cell>, n: nat): string
    requires 5 <= n <= |u|
  {
    Chars(u[3..n - 1])
  }

  /** The only citations of the text are full ids outside code. */
  predicate Proper(u: seq<Cell>, ids: seq<string>)
    decreases |u|
  {
    if u == [] then true
    else
      match MatchLen(u)
      case Some(n) => !u[0].code && Inside(u, n) in ids && Proper(u[n..], ids)
      case None => Proper(u[1..], ids)
  }

  // ----- compacting -----

  /** The spelling a full id is sent with, where it has one already. */
  type Views = map<string, string>

  function View(views: Views, id: string): string {
    if id in views then views[id] else id
  }

  predicate ViewsOk(views: Views, ids: seq<string>) {
    forall id :: id in views ==> id in ids && |views[id]| >= Aliases.SHORTEST && views[id] <= id
  }

  /** The text with every citation respelled. */
  function Short(u: seq<Cell>, views: Views): seq<Cell>
    decreases |u|
  {
    if u == [] then []
    else
      match MatchLen(u)
      case Some(n) => Cells(Token(View(views, Inside(u, n)))) + Short(u[n..], views)
      case None => [u[0]] + Short(u[1..], views)
  }

  lemma HexIsPlain(c: char)
    requires HexDigit(c)
    ensures c != '[' && c != ']' && c != ',' && !Special(c) && !White(c)
  {}

  lemma SpelledIsTidy(id: string)
    requires Aliases.Spelled(id)
    ensures Tidy(Token(id)) && Token(id)[1] == 'E' && Token(id)[2] == ':' && Token(id)[|id| + 3] == ']'
    ensures forall i :: 0 <= i < |id| ==> Token(id)[i + 3] == id[i]
    ensures forall i :: 0 <= i < |id| ==> id[i] != ']' && id[i] != '['
  {
    forall i | 0 <= i < |id| ensures id[i] != '[' && id[i] != ']' && !Special(id[i]) { HexIsPlain(id[i]); }
  }

  lemma ViewIsSpelled(views: Views, ids: seq<string>, id: string)
    requires Aliases.Digests(ids) && ViewsOk(views, ids) && id in ids
    ensures Aliases.Spelled(View(views, id)) && View(views, id) <= id && Aliases.Spelled(id) && |id| == Aliases.LONGEST
  {
    assert forall k :: 0 <= k < |View(views, id)| ==> View(views, id)[k] == id[k];
  }

  /** Respelling citations outside code leaves every mark right. */
  lemma {:induction false} ShortIsHonest(v: seq<Cell>, u: seq<Cell>, ids: seq<string>, views: Views)
    requires Honest(v + u) && Proper(u, ids) && Aliases.Digests(ids) && ViewsOk(views, ids)
    ensures Honest(v + Short(u, views))
    decreases |u|
  {
    if u != [] {
      match MatchLen(u) {
        case Some(n) =>
          var id := Inside(u, n);
          TokenInFront(u, n);
          ViewIsSpelled(views, ids, id);
          SpelledIsTidy(id);
          SpelledIsTidy(View(views, id));
          var note := Token(View(views, id));
          assert v + u == v + u[..n] + u[n..];
          Exchange(v, u[..n], note, u[n..]);
          ShortIsHonest(v + Cells(note), u[n..], ids, views);
          Assoc(v, Cells(note), Short(u[n..], views));
        case None =>
          assert v + u == (v + [u[0]]) + u[1..];
          ShortIsHonest(v + [u[0]], u[1..], ids, views);
          Assoc(v, [u[0]], Short(u[1..], views));
      }
    }
  }

  lemma TokenInFront(u: seq<Cell>, n: nat)
    requires MatchLen(u) == Some(n)
    ensures Chars(u[..n]) == Token(Inside(u, n)) && |Inside(u, n)| == n - 4
  {
    var t := Chars(u[..n]);
    assert t == t[..3] + t[3..n - 1] + t[n - 1..];
    assert t[..3] == "[E:" && t[n - 1..] == "]";
    assert t[3..n - 1] == Inside(u, n);
  }

  // ----- replacing id by id -----

  /** `str::replace`. */
  function Blind(s: string, token: string, note: string): string
    requires token != ""
    decreases |s|
  {
    if s == "" then ""
    else if token <= s then note + Blind(s[|token|..], token, note)
    else [s[0]] + Blind(s[1..], token, note)
  }

  lemma {:induction false} BlindPasses(x: string, w: string, token: string, note: string)
    requires token != "" && token[0] == '[' && forall i :: 0 <= i < |x| ==> x[i] != '['
    ensures Blind(x + w, token, note) == x + Blind(w, token, note)
    decreases |x|
  {
    if x == "" {
      assert x + w == w;
    } else {
      assert !(token <= x + w) by { assert (x + w)[0] == x[0]; }
      assert (x + w)[1..] == x[1..] + w && x == [x[0]] + x[1..];
      BlindPasses(x[1..], w, token, note);
      Assoc([x[0]], x[1..], Blind(w, token, note));
    }
  }

  lemma BlindSkips(x: string, w: string, token: string, note: string)
    requires token != "" && token[0] == '[' && Tidy(x) && !(token <= x + w)
    ensures Blind(x + w, token, note) == x + Blind(w, token, note)
  {
    assert (x + w)[1..] == x[1..] + w && x == [x[0]] + x[1..];
    BlindPasses(x[1..], w, token, note);
    Assoc([x[0]], x[1..], Blind(w, token, note));
  }

  lemma BlindHits(w: string, token: string, note: string)
    requires token != ""
    ensures Blind(token + w, token, note) == note + Blind(w, token, note)
  {
    assert (token + w)[|token|..] == w;
  }

  lemma AtIsPrefix(u: seq<Cell>, q: string)
    ensures At(u, q) <==> q <= Chars(u)
  {}

  lemma MatchKeepsBracket(u: seq<Cell>, views: Views)
    requires MatchLen(u).Some?
    ensures Short(u, views) != [] && Short(u, views)[0].c == '['
  {
    var n := MatchLen(u).value;
    assert Short(u, views) == Cells(Token(View(views, Inside(u, n)))) + Short(u[n..], views);
  }

  /** Text without an opening bracket at the front of the respelled text was there before. */
  lemma {:induction false} ShortMakesNone(u: seq<Cell>, views: Views, q: string)
    requires At(Short(u, views), q) && forall i :: 0 <= i < |q| ==> q[i] != '['
    ensures At(u, q)
    decreases |q|
  {
    if q != "" {
      if MatchLen(u).Some? { MatchKeepsBracket(u, views); }
      assert Short(u, views) == [u[0]] + Short(u[1..], views);
      ShortMakesNone(u[1..], views, q[1..]);
      forall i | 0 < i < |q| ensures u[i].c == q[i] { assert q[1..][i - 1] == q[i]; }
    }
  }

  /** A full id in brackets at the front is a match of the pattern. */
  lemma FrontIsMatch(u: seq<Cell>, id: string)
    requires Aliases.Spelled(id) && |id| <= LONGEST && At(u, Token(id))
    ensures MatchLen(u) == Some(|id| + 4) && Inside(u, |id| + 4) == id
  {
    SpelledIsTidy(id);
    assert forall i :: 0 <= i < |id| + 4 ==> u[i].c == Token(id)[i];
    BracketAt(u[3..], |id|);
    assert forall i :: 0 <= i < |id| ==> u[3..|id| + 3][i].c == id[i];
  }

  lemma {:induction false} BracketAt(u: seq<Cell>, n: nat)
    requires n < |u| && u[n].c == ']' && forall i :: 0 <= i < n ==> u[i].c != ']'
    ensures ToBracket(u) == n
  {
    if n > 0 { BracketAt(u[1..], n - 1); }
  }

  /** Replacing one more id in the half-compacted text respells its citations and nothing else. */
  lemma {:induction false} BlindShort(u: seq<Cell>, ids: seq<string>, views: Views, id: string, alias: string)
    requires Aliases.Digests(ids) && ViewsOk(views, ids) && Proper(u, ids) && id in ids && id !in views
    ensures Blind(Chars(Short(u, views)), Token(id), Token(alias)) == Chars(Short(u, views[id := alias]))
    decreases |u|
  {
    if u != [] {
      match MatchLen(u) {
        case Some(n) =>
          var x := Inside(u, n);
          ViewIsSpelled(views, ids, x);
          BlindShort(u[n..], ids, views, id, alias);
          CharsSplit(Cells(Token(View(views, x))), Short(u[n..], views));
          CharsSplit(Cells(Token(View(views[id := alias], x))), Short(u[n..], views[id := alias]));
          CharsOfCells(Token(View(views, x)));
          CharsOfCells(Token(View(views[id := alias], x)));
          if x == id {
            BlindHits(Chars(Short(u[n..], views)), Token(id), Token(alias));
          } else {
            OtherToken(ids, views, x, id, Chars(Short(u[n..], views)));
            SpelledIsTidy(View(views, x));
            BlindSkips(Token(View(views, x)), Chars(Short(u[n..], views)), Token(id), Token(alias));
          }
        case None =>
          BlindShort(u[1..], ids, views, id, alias);
          NotInFront(u, ids, views, id);
          CharsSplit([u[0]], Short(u[1..], views));
          CharsSplit([u[0]], Short(u[1..], views[id := alias]));
          assert Chars([u[0]]) == [u[0].c];
          assert Chars(Short(u, views))[1..] == Chars(Short(u[1..], views));
      }
    }
  }

  lemma CharsOfCells(s: string)
    ensures Chars(Cells(s)) == s
  {}

  lemma TokensDiffer(y: string, id: string, w: string)
    requires Aliases.Spelled(y) && Aliases.Spelled(id) && y != id && |y| <= |id|
    ensures !(Token(id) <= Token(y) + w)
  {
    SpelledIsTidy(y);
    SpelledIsTidy(id);
    var k := |y|;
    if |y| == |id| { k :| 0 <= k < |id| && id[k] != y[k]; }
    assert Token(id)[k + 3] != Token(y)[k + 3];
    assert (Token(y) + w)[k + 3] == Token(y)[k + 3];
  }

  lemma OtherToken(ids: seq<string>, views: Views, x: string, id: string, w: string)
    requires Aliases.Digests(ids) && ViewsOk(views, ids) && x in ids && id in ids && x != id
    ensures !(Token(id) <= Token(View(views, x)) + w)
  {
    var y := View(views, x);
    ViewIsSpelled(views, ids, x);
    ViewIsSpelled(views, ids, id);
    assert |y| == |x| ==> y == x[..|x|] == x;
    TokensDiffer(y, id, w);
  }

  /** An opening bracket with text behind it that holds none. */
  lemma HeadMakesNone(u: seq<Cell>, views: Views, q: string)
    requires u != [] && MatchLen(u).None? && At(Short(u, views), q)
    requires q != "" && forall i :: 0 < i < |q| ==> q[i] != '['
    ensures At(u, q)
  {
    var s := Short(u, views);
    assert s == [u[0]] + Short(u[1..], views);
    forall i | 0 <= i < |q| - 1 ensures Short(u[1..], views)[i].c == q[1..][i] { assert s[i + 1].c == q[i + 1]; }
    ShortMakesNone(u[1..], views, q[1..]);
    forall i | 0 < i < |q| ensures u[i].c == q[i] { assert q[1..][i - 1] == q[i]; }
  }

  lemma NotInFront(u: seq<Cell>, ids: seq<string>, views: Views, id: string)
    requires Aliases.Digests(ids) && id in ids && u != [] && MatchLen(u).None?
    ensures !(Token(id) <= Chars(Short(u, views)))
  {
    AtIsPrefix(Short(u, views), Token(id));
    SpelledIsTidy(id);
    if At(Short(u, views), Token(id)) {
      HeadMakesNone(u, views, Token(id));
      FrontIsMatch(u, id);
    }
  }

  // ----- compacting a text -----

  /** One turn of the loop over the ids. */
  function Turn(t: string, id: string, alias: string): string {
    if t == id then alias else Blind(t, Token(id), Token(alias))
  }

  /** The text after the first `k` ids. */
  function Turned(t: string, ids: seq<string>, aliases: seq<string>, k: nat): string
    requires k <= |ids| == |aliases|
  {
    if k == 0 then t else Turn(Turned(t, ids, aliases, k - 1), ids[k - 1], aliases[k - 1])
  }

  /** `rewrite` on one string. */
  method CompactText(t: string, ids: seq<string>, aliases: seq<string>) returns (sent: string)
    requires |ids| == |aliases|
    ensures sent == Turned(t, ids, aliases, |ids|)
  {
    sent := t;
    for k := 0 to |ids|
      invariant sent == Turned(t, ids, aliases, k)
    {
      if sent == ids[k] {
        sent := aliases[k];
      } else {
        sent := Blind(sent, Token(ids[k]), Token(aliases[k]));
      }
    }
  }

  /** The aliases of the first `k` ids. */
  function ViewsOf(ids: seq<string>, aliases: seq<string>, k: nat): Views
    requires k <= |ids| == |aliases|
  {
    if k == 0 then map[] else ViewsOf(ids, aliases, k - 1)[ids[k - 1] := aliases[k - 1]]
  }

  /** The aliases the program computes. */
  ghost predicate Right(ids: seq<string>, aliases: seq<string>) {
    && Aliases.Digests(ids) && |aliases| == |ids|
    && forall i :: 0 <= i < |ids| ==> aliases[i] <= ids[i] && Aliases.AliasLength(ids, ids[i], |aliases[i]|)
  }

  lemma OneRight(ids: seq<string>, aliases: seq<string>, i: nat)
    requires Right(ids, aliases) && i < |ids|
    ensures Aliases.SHORTEST <= |aliases[i]| && aliases[i] <= ids[i] && ids[i] in ids
    ensures forall j :: 0 <= j < i ==> ids[j] != ids[i]
  {}

  lemma {:induction false} NotYet(ids: seq<string>, aliases: seq<string>, k: nat, id: string)
    requires k <= |ids| == |aliases| && forall i :: 0 <= i < k ==> ids[i] != id
    ensures id !in ViewsOf(ids, aliases, k)
  {
    if k > 0 { NotYet(ids, aliases, k - 1, id); }
  }

  lemma OneMoreView(views: Views, ids: seq<string>, id: string, alias: string)
    requires ViewsOk(views, ids) && id in ids && Aliases.SHORTEST <= |alias| && alias <= id
    ensures ViewsOk(views[id := alias], ids)
  {}

  lemma {:induction false} ViewsAreOk(ids: seq<string>, aliases: seq<string>, k: nat)
    requires Right(ids, aliases) && k <= |ids|
    ensures ViewsOk(ViewsOf(ids, aliases, k), ids)
  {
    if k > 0 {
      ViewsAreOk(ids, aliases, k - 1);
      OneRight(ids, aliases, k - 1);
      OneMoreView(ViewsOf(ids, aliases, k - 1), ids, ids[k - 1], aliases[k - 1]);
    }
  }

  lemma {:induction false} ViewsAreAliases(ids: seq<string>, aliases: seq<string>, k: nat, i: nat)
    requires Distinct(ids) && i < k <= |ids| == |aliases|
    ensures ids[i] in ViewsOf(ids, aliases, k) && ViewsOf(ids, aliases, k)[ids[i]] == aliases[i]
  {
    if i < k - 1 {
      assert ids[i] != ids[k - 1];
      ViewsAreAliases(ids, aliases, k - 1, i);
    }
  }

  lemma NothingShortMatch(u: seq<Cell>, n: nat)
    requires MatchLen(u) == Some(n) && Chars(Short(u[n..], map[])) == Chars(u[n..])
    ensures Chars(Short(u, map[])) == Chars(u)
  {
    TokenInFront(u, n);
    CharsSplit(Cells(Token(Inside(u, n))), Short(u[n..], map[]));
    CharsOfCells(Token(Inside(u, n)));
    CharsSplit(u[..n], u[n..]);
    assert u == u[..n] + u[n..];
  }

  lemma {:induction false} NothingShort(u: seq<Cell>)
    ensures Chars(Short(u, map[])) == Chars(u)
    decreases |u|
  {
    if u != [] {
      match MatchLen(u) {
        case Some(n) =>
          NothingShort(u[n..]);
          NothingShortMatch(u, n);
        case None =>
          NothingShort(u[1..]);
          CharsSplit([u[0]], Short(u[1..], map[]));
          CharsSplit([u[0]], u[1..]);
          assert u == [u[0]] + u[1..];
      }
    }
  }

  /** A text that is no id keeps being none. */
  lemma NoIdInShort(u: seq<Cell>, ids: seq<string>, views: Views, id: string)
    requires Aliases.Spelled(id) && Proper(u, ids) && Chars(u) != id
    ensures Chars(Short(u, views)) != id
  {
    SpelledIsTidy(id);
    if Chars(Short(u, views)) == id {
      ShortMakesNone(u, views, id);
      NoMatchBefore(u, views, |id|);
    }
  }

  /** Where the respelled text has no bracket it is the text. */
  lemma {:induction false} NoMatchBefore(u: seq<Cell>, views: Views, n: nat)
    requires |Short(u, views)| == n && forall i :: 0 <= i < n ==> Short(u, views)[i].c != '['
    ensures |u| == n
    decreases |u|
  {
    if u != [] {
      if MatchLen(u).Some? { MatchKeepsBracket(u, views); }
      assert Short(u, views) == [u[0]] + Short(u[1..], views);
      forall i | 0 <= i < n - 1 ensures Short(u[1..], views)[i].c != '[' { assert Short(u, views)[i + 1].c != '['; }
      NoMatchBefore(u[1..], views, n - 1);
    }
  }

  /** A text that is none of the ids, with full ids as its only citations. */
  predicate Prose(u: seq<Cell>, ids: seq<string>) {
    Proper(u, ids) && Chars(u) !in ids
  }

  /** The next id to be shortened. */
  ghost predicate Pending(ids: seq<string>, views: Views, id: string) {
    Aliases.Digests(ids) && ViewsOk(views, ids) && id in ids && id !in views
  }

  lemma NextView(ids: seq<string>, aliases: seq<string>, k: nat)
    requires Right(ids, aliases) && k < |ids|
    ensures Pending(ids, ViewsOf(ids, aliases, k), ids[k])
  {
    ViewsAreOk(ids, aliases, k);
    OneRight(ids, aliases, k);
    NotYet(ids, aliases, k, ids[k]);
  }

  /** What the text is sent as when the ids with a view have had their turn. */
  predicate SentAs(sent: string, u: seq<Cell>, views: Views) {
    sent == Chars(Short(u, views))
  }

  lemma TurnShortens(u: seq<Cell>, ids: seq<string>, views: Views, id: string, alias: string, sent: string)
    requires Prose(u, ids) && Pending(ids, views, id) && SentAs(sent, u, views)
    ensures SentAs(Turn(sent, id, alias), u, views[id := alias])
  {
    NoIdInShort(u, ids, views, id);
    BlindShort(u, ids, views, id, alias);
  }

  /** After the first `k` ids, the citations of these ids are shortened and nothing else has changed. */
  ghost predicate SentAfter(t: string, u: seq<Cell>, ids: seq<string>, aliases: seq<string>, k: nat)
    requires k <= |ids| == |aliases|
  {
    SentAs(Turned(t, ids, aliases, k), u, ViewsOf(ids, aliases, k))
  }

  lemma OneMoreTurn(t: string, u: seq<Cell>, ids: seq<string>, aliases: seq<string>, k: nat)
    requires Right(ids, aliases) && k < |ids| && Prose(u, ids) && SentAfter(t, u, ids, aliases, k)
    ensures SentAfter(t, u, ids, aliases, k + 1)
  {
    NextView(ids, aliases, k);
    TurnShortens(u, ids, ViewsOf(ids, aliases, k), ids[k], aliases[k], Turned(t, ids, aliases, k));
  }

  /** The loop over the ids shortens every citation of the text, whatever the order of the ids. */
  lemma {:induction false} TurnedIsShort(t: string, u: seq<Cell>, ids: seq<string>, aliases: seq<string>, k: nat)
    requires Right(ids, aliases) && k <= |ids| && Prose(u, ids) && SentAfter(t, u, ids, aliases, 0)
    ensures SentAfter(t, u, ids, aliases, k)
  {
    if k > 0 {
      TurnedIsShort(t, u, ids, aliases, k - 1);
      OneMoreTurn(t, u, ids, aliases, k - 1);
    }
  }

  lemma SentIsShort(u: seq<Cell>, ids: seq<string>, aliases: seq<string>)
    requires Right(ids, aliases) && Prose(u, ids)
    ensures Turned(Chars(u), ids, aliases, |ids|) == Chars(Short(u, ViewsOf(ids, aliases, |ids|)))
  {
    NothingShort(u);
    TurnedIsShort(Chars(u), u, ids, aliases, |ids|);
  }

  // ----- openers that come within reach of a bracket -----

  /** How many characters come before the next closing bracket once the text is compacted. */
  function Reach(u: seq<Cell>, views: Views): nat
    decreases |u|
  {
    if u == [] || u[0].c == ']' then 0
    else
      match MatchLen(u)
      case Some(n) => |View(views, Inside(u, n))| + 3
      case None => 1 + Reach(u[1..], views)
  }

  /** An opener too far from the next closing bracket to be a citation, which compacting brings within reach. */
  predicate Shadow(u: seq<Cell>, views: Views) {
    Opener(u) && 400 < ToBracket(u[3..]) < |u| - 3 && Reach(u[3..], views) <= 400
  }

  predicate Shadowed(u: seq<Cell>, views: Views)
    decreases |u|
  {
    if u == [] then false
    else
      match MatchLen(u)
      case Some(n) => Shadowed(u[n..], views)
      case None => Shadow(u, views) || Shadowed(u[1..], views)
  }

  lemma TokenReach(u: seq<Cell>, x: string)
    requires Aliases.Spelled(x) && At(u, Token(x))
    ensures ToBracket(u) == |x| + 3
  {
    SpelledIsTidy(x);
    forall i | 0 <= i < |x| + 3 ensures u[i].c != ']' { assert u[i].c == Token(x)[i]; }
    BracketAt(u, |x| + 3);
  }

  lemma MatchReach(u: seq<Cell>, n: nat, ids: seq<string>, views: Views)
    requires Aliases.Digests(ids) && ViewsOk(views, ids) && MatchLen(u) == Some(n) && Inside(u, n) in ids
    ensures var y := View(views, Inside(u, n));
      |y| + 3 <= ToBracket(u) < |u| && ToBracket(Short(u, views)) == |y| + 3 < |Short(u, views)|
  {
    var x := Inside(u, n);
    ViewIsSpelled(views, ids, x);
    TokenInFront(u, n);
    assert forall i :: 0 <= i < n ==> u[i].c == Chars(u[..n])[i];
    TokenReach(u, x);
    TokenReach(Short(u, views), View(views, x));
  }

  lemma {:induction false} ReachIsReal(u: seq<Cell>, ids: seq<string>, views: Views)
    requires Aliases.Digests(ids) && ViewsOk(views, ids) && Proper(u, ids)
    ensures ToBracket(Short(u, views)) == Reach(u, views)
    ensures ToBracket(u) < |u| <==> Reach(u, views) < |Short(u, views)|
    ensures Reach(u, views) <= ToBracket(u) && (ToBracket(u) > 0 ==> Reach(u, views) > 0)
    decreases |u|
  {
    if u != [] {
      match MatchLen(u) {
        case Some(n) => MatchReach(u, n, ids, views);
        case None =>
          assert Short(u, views) == [u[0]] + Short(u[1..], views);
          assert Short(u, views)[1..] == Short(u[1..], views);
          if u[0].c != ']' { ReachIsReal(u[1..], ids, views); }
      }
    }
  }

  lemma NewOpener(u: seq<Cell>, views: Views)
    requires u != [] && MatchLen(u).None? && Opener(Short(u, views))
    ensures Opener(u)
  {
    HeadMakesNone(u, views, "[E:");
  }

  lemma OpenerReaches(u: seq<Cell>, ids: seq<string>, views: Views)
    requires Aliases.Digests(ids) && ViewsOk(views, ids) && Opener(u) && MatchLen(u).None? && Proper(u, ids)
    ensures MatchLen(Short(u, views)).Some? <==> Shadow(u, views)
  {
    ShortOfOpener(u, ids, views);
    ReachIsReal(u[3..], ids, views);
  }

  /** Compacting makes a citation out of something else exactly where an opener is shadowed. */
  lemma NewMatch(u: seq<Cell>, ids: seq<string>, views: Views)
    requires Aliases.Digests(ids) && ViewsOk(views, ids) && u != [] && MatchLen(u).None? && Proper(u, ids)
    ensures MatchLen(Short(u, views)).Some? <==> Shadow(u, views)
  {
    if Opener(u) {
      OpenerReaches(u, ids, views);
    } else if Opener(Short(u, views)) {
      NewOpener(u, views);
    }
  }

  lemma ShortOfOpener(u: seq<Cell>, ids: seq<string>, views: Views)
    requires Opener(u) && MatchLen(u).None? && Proper(u, ids)
    ensures Short(u, views) == u[..3] + Short(u[3..], views) && Short(u, views)[3..] == Short(u[3..], views)
    ensures Proper(u[3..], ids)
  {
    assert u[1..][1..] == u[2..] && u[2..][1..] == u[3..];
    assert Proper(u[1..], ids) && Proper(u[2..], ids);
    assert Short(u[1..], views) == [u[1]] + Short(u[2..], views);
    assert Short(u[2..], views) == [u[2]] + Short(u[3..], views);
    assert Short(u, views) == [u[0]] + ([u[1]] + ([u[2]] + Short(u[3..], views)));
  }

  // ----- normalising -----

  function TrimStart(s: string): (r: string)
    ensures |r| <= |s|
  {
    if s != "" && White(s[0]) then TrimStart(s[1..]) else s
  }

  function TrimEnd(s: string): (r: string)
    ensures |r| <= |s|
  {
    if s != "" && White(s[|s| - 1]) then TrimEnd(s[..|s| - 1]) else s
  }

  /** A part of a citation without the marker it may repeat. */
  function Bare(part: string): string {
    var t := TrimEnd(TrimStart(part));
    TrimStart(if "E:" <= t then t[2..] else t)
  }

  /** The first id that starts with the prefix. */
  function FirstWith(ids: seq<string>, prefix: string): (r: Option<string>)
    ensures r.None? <==> forall id :: id in ids ==> !(prefix <= id)
    ensures r.Some? ==> r.value in ids && prefix <= r.value
  {
    if ids == [] then None
    else
      assert ids == [ids[0]] + ids[1..] && ids[0] in ids;
      assert forall id :: id in ids <==> id == ids[0] || id in ids[1..];
      if prefix <= ids[0] then Some(ids[0]) else FirstWith(ids[1..], prefix)
  }

  /** The one id that starts with the candidate. Unlike `resolve_ids` this counts distinct ids, not passages. */
  function Resolve(ids: seq<string>, candidate: string): (r: Option<string>)
    ensures r.Some? ==> r.value in ids && candidate <= r.value
  {
    var first := FirstWith(ids, candidate);
    if |candidate| >= Aliases.SHORTEST && first.Some?
       && (forall id | id in ids :: candidate <= id ==> id == first.value)
    then first
    else None
  }

  function HexRun(s: string): (n: nat)
    ensures n <= |s|
  {
    if s != "" && HexDigit(s[0]) then 1 + HexRun(s[1..]) else 0
  }

  /** An id with a label behind it. */
  function Labelled(ids: seq<string>, part: string): (r: Option<string>)
    ensures r.Some? ==> r.value in ids
  {
    if HexRun(part) < |part| then Resolve(ids, part[..HexRun(part)]) else None
  }

  function NamedBy(ids: seq<string>, part: string): (r: Option<string>)
    ensures r.Some? ==> r.value in ids
  {
    var bare := Bare(part);
    if Resolve(ids, bare).Some? then Resolve(ids, bare) else Labelled(ids, bare)
  }

  function Comma(s: string): (n: nat)
    ensures n <= |s|
  {
    if s == "" || s[0] == ',' then 0 else 1 + Comma(s[1..])
  }

  function Added(found: seq<string>, id: string): seq<string> {
    if id in found then found else found + [id]
  }

  /** The ids a citation names, behind those found so far; none if a part names nothing. */
  function Collected(s: string, ids: seq<string>, found: seq<string>): (r: Option<seq<string>>)
    ensures r.Some? ==> r.value != [] && found <= r.value && forall id :: id in r.value ==> id in found || id in ids
    decreases |s|
  {
    var n := Comma(s);
    var id := NamedBy(ids, s[..n]);
    if id.None? then None
    else if n == |s| then Some(Added(found, id.value))
    else Collected(s[n + 1..], ids, Added(found, id.value))
  }

  function Tokens(ids: seq<string>): string {
    if ids == [] then "" else Token(ids[0]) + Tokens(ids[1..])
  }

  /** What a citation outside code becomes. */
  function Rewritten(inside: string, ids: seq<string>): string {
    var found := Collected(inside, ids, []);
    if found.Some? then Tokens(found.value) else Token(inside)
  }

  /** `normalize_citations` on a text marked as code or not. */
  function Normal(u: seq<Cell>, ids: seq<string>): string
    decreases |u|
  {
    if u == [] then ""
    else
      match MatchLen(u)
      case Some(n) => (if u[0].code then Chars(u[..n]) else Rewritten(Inside(u, n), ids)) + Normal(u[n..], ids)
      case None => [u[0].c] + Normal(u[1..], ids)
  }

  // ----- what normalising restores -----

  lemma ResolveOnly(ids: seq<string>, prefix: string, id: string)
    requires id in ids && prefix <= id && |prefix| >= Aliases.SHORTEST
    requires forall other :: other in ids && prefix <= other ==> other == id
    ensures Resolve(ids, prefix) == Some(id)
  {}

  lemma {:induction false} NoComma(s: string)
    requires forall i :: 0 <= i < |s| ==> s[i] != ','
    ensures Comma(s) == |s|
  {
    if s != "" { NoComma(s[1..]); }
  }

  lemma SpelledIsBare(x: string)
    requires Aliases.Spelled(x)
    ensures Bare(x) == x && Comma(x) == |x|
  {
    forall i | 0 <= i < |x| ensures !White(x[i]) && x[i] != ',' && x[i] != ':' { HexIsPlain(x[i]); }
    NoComma(x);
    assert x[1] != "E:"[1];
  }

  /** A citation by one unique prefix becomes one by the full id. */
  lemma AliasIsRewritten(ids: seq<string>, id: string, alias: string)
    requires Aliases.Spelled(alias) && Resolve(ids, alias) == Some(id)
    ensures Rewritten(alias, ids) == Token(id)
  {
    SpelledIsBare(alias);
    assert alias[..|alias|] == alias;
    assert NamedBy(ids, alias) == Some(id);
    assert Added([], id) == [id];
    assert Collected(alias, ids, []) == Some([id]);
    assert Tokens([id]) == Token(id) + Tokens([]);
  }

  // ----- citations of several ids -----

  predicate Plainly(part: string) {
    forall i :: 0 <= i < |part| ==> part[i] != ','
  }

  function Commas(parts: seq<string>): string
    requires parts != []
  {
    if |parts| == 1 then parts[0] else parts[0] + "," + Commas(parts[1..])
  }

  lemma {:induction false} CommaAt(s: string, n: nat)
    requires n < |s| && s[n] == ',' && Plainly(s[..n])
    ensures Comma(s) == n
  {
    if n > 0 {
      assert s[0] == s[..n][0] && s[1..][..n - 1] == s[..n][1..];
      CommaAt(s[1..], n - 1);
    }
  }

  lemma FirstPart(parts: seq<string>)
    requires parts != [] && Plainly(parts[0])
    ensures var s, n := Commas(parts), |parts[0]|;
      Comma(s) == n <= |s| && s[..n] == parts[0] && (n == |s| <==> |parts| == 1)
      && (|parts| > 1 ==> s[n + 1..] == Commas(parts[1..]))
  {
    var s, n := Commas(parts), |parts[0]|;
    if |parts| == 1 {
      NoComma(s);
    } else {
      assert s == parts[0] + "," + Commas(parts[1..]);
      CommaAt(s, n);
    }
  }

  /** A part that names nothing spoils the whole citation. */
  lemma {:induction false} PartSpoils(parts: seq<string>, k: nat, ids: seq<string>, found: seq<string>)
    requires k < |parts| && forall i :: 0 <= i < |parts| ==> Plainly(parts[i])
    requires NamedBy(ids, parts[k]).None?
    ensures Collected(Commas(parts), ids, found).None?
    decreases |parts|
  {
    FirstPart(parts);
    if k > 0 && NamedBy(ids, parts[0]).Some? {
      PartSpoils(parts[1..], k - 1, ids, Added(found, NamedBy(ids, parts[0]).value));
    }
  }

  // ----- what compacting and normalising restores -----

  lemma {:induction false} BeforeBracket(u: seq<Cell>, i: nat)
    requires i < ToBracket(u)
    ensures u[i].c != ']'
  {
    if i > 0 { BeforeBracket(u[1..], i - 1); }
  }

  /** Whatever becomes of a citation has its first closing bracket early. */
  lemma RewrittenIsShort(u: seq<Cell>, n: nat, ids: seq<string>)
    requires Aliases.Digests(ids) && MatchLen(u) == Some(n)
    ensures var x := if u[0].code then Chars(u[..n]) else Rewritten(Inside(u, n), ids);
      exists j :: 3 < j < |x| && j < LONGEST + 4 && x[j] == ']'
  {
    var x := if u[0].code then Chars(u[..n]) else Rewritten(Inside(u, n), ids);
    TokenInFront(u, n);
    var found := Collected(Inside(u, n), ids, []);
    if u[0].code || found.None? {
      assert x[n - 1] == ']';
    } else {
      var id := found.value[0];
      assert id in found.value;
      assert x == Token(id) + Tokens(found.value[1..]);
      assert x[|id| + 3] == ']';
    }
  }

  /** Each id has an alias that names it. */
  ghost predicate Named(views: Views, ids: seq<string>) {
    ViewsOk(views, ids) && forall id :: id in ids ==> id in views && Resolve(ids, views[id]) == Some(id)
  }

  lemma ShadowIsLost(u: seq<Cell>, ids: seq<string>, views: Views)
    requires Aliases.Digests(ids) && Named(views, ids) && Proper(u, ids) && Shadow(u, views)
    ensures Normal(Short(u, views), ids) != Chars(u)
  {
    NewMatch(u, ids, views);
    var s := Short(u, views);
    var n := MatchLen(s).value;
    RewrittenIsShort(s, n, ids);
    var x := if s[0].code then Chars(s[..n]) else Rewritten(Inside(s, n), ids);
    var j :| 3 < j < |x| && j < LONGEST + 4 && x[j] == ']';
    assert Normal(s, ids)[j] == ']';
    BeforeBracket(u[3..], j - 3);
    assert Chars(u)[j] == u[3..][j - 3].c;
  }

  lemma Cancel(x: string, a: string, b: string)
    ensures x + a == x + b <==> a == b
  {
    if x + a == x + b {
      assert a == (x + a)[|x|..] && b == (x + b)[|x|..];
    }
  }

  lemma CitationIsRestored(u: seq<Cell>, n: nat, ids: seq<string>, views: Views)
    requires Aliases.Digests(ids) && Named(views, ids) && MatchLen(u) == Some(n) && Inside(u, n) in ids
    ensures Normal(Short(u, views), ids) == Token(Inside(u, n)) + Normal(Short(u[n..], views), ids)
    ensures Chars(u) == Token(Inside(u, n)) + Chars(u[n..])
  {
    var x := Inside(u, n);
    ViewIsSpelled(views, ids, x);
    TokenInFront(u, n);
    var y, w := View(views, x), Short(u[n..], views);
    var s := Cells(Token(y)) + w;
    FrontIsMatch(s, y);
    AliasIsRewritten(ids, x, y);
    assert s[|y| + 4..] == w;
    assert u == u[..n] + u[n..];
    CharsSplit(u[..n], u[n..]);
  }

  /** Compacting and normalising gives the text back if and only if no opener is shadowed. */
  lemma {:induction false} NormalRestores(u: seq<Cell>, ids: seq<string>, views: Views)
    requires Aliases.Digests(ids) && Named(views, ids) && Proper(u, ids)
    ensures Normal(Short(u, views), ids) == Chars(u) <==> !Shadowed(u, views)
    decreases |u|
  {
    if u != [] {
      match MatchLen(u) {
        case Some(n) =>
          NormalRestores(u[n..], ids, views);
          CitationIsRestored(u, n, ids, views);
          Cancel(Token(Inside(u, n)), Normal(Short(u[n..], views), ids), Chars(u[n..]));
        case None =>
          NewMatch(u, ids, views);
          if Shadow(u, views) {
            ShadowIsLost(u, ids, views);
          } else {
            NormalRestores(u[1..], ids, views);
            var w := Short(u[1..], views);
            assert Short(u, views) == [u[0]] + w && Short(u, views)[1..] == w;
            assert Chars(u) == [u[0].c] + Chars(u[1..]);
            Cancel([u[0].c], Normal(w, ids), Chars(u[1..]));
          }
      }
    }
  }

  lemma UnambiguousResolves(ids: seq<string>, id: string, alias: string)
    requires Aliases.Digests(ids) && id in ids && alias <= id && Aliases.AliasLength(ids, id, |alias|)
    ensures Resolve(ids, alias) == Some(id)
  {
    assert alias == id[..|alias|];
    forall other | other in ids && alias <= other ensures other == id {
      var i :| 0 <= i < |ids| && ids[i] == other;
      assert !Aliases.Ambiguous(ids, id, |alias|);
    }
    ResolveOnly(ids, alias, id);
  }

  lemma AliasesName(ids: seq<string>, aliases: seq<string>)
    requires Right(ids, aliases)
    ensures Named(ViewsOf(ids, aliases, |ids|), ids)
  {
    var views := ViewsOf(ids, aliases, |ids|);
    ViewsAreOk(ids, aliases, |ids|);
    forall id | id in ids ensures id in views && Resolve(ids, views[id]) == Some(id) {
      var i :| 0 <= i < |ids| && ids[i] == id;
      ViewsAreAliases(ids, aliases, |ids|, i);
      UnambiguousResolves(ids, id, aliases[i]);
    }
  }

  // ----- a text that is an id -----

  lemma {:induction false} BlindKeeps(s: string, token: string, note: string)
    requires token != "" && token[0] == '[' && forall i :: 0 <= i < |s| ==> s[i] != '['
    ensures Blind(s, token, note) == s
  {
    BlindPasses(s, "", token, note);
    assert s + "" == s;
  }

  lemma IdTurn(ids: seq<string>, aliases: seq<string>, i: nat, k: nat, s: string)
    requires Right(ids, aliases) && i < |ids| && k < |ids| && s == if i < k then aliases[i] else ids[i]
    ensures Turn(s, ids[k], aliases[k]) == if i <= k then aliases[i] else ids[i]
  {
    OneRight(ids, aliases, i);
    SpelledIsTidy(ids[i]);
    assert forall j :: 0 <= j < |s| ==> s[j] == ids[i][j];
    if i != k {
      assert s != ids[k] by { IdsDiffer(ids, i, k); }
      BlindKeeps(s, Token(ids[k]), Token(aliases[k]));
    }
  }

  lemma IdsDiffer(ids: seq<string>, i: nat, k: nat)
    requires Aliases.Digests(ids) && i < |ids| && k < |ids| && i != k
    ensures !(ids[k] <= ids[i])
  {
    assert ids[k] != ids[i] && |ids[k]| == |ids[i]|;
    assert ids[i][..|ids[k]|] == ids[i];
  }

  /** A text that is an id stands for itself until its turn comes, and for its alias from then on. */
  ghost predicate IdAfter(ids: seq<string>, aliases: seq<string>, i: nat, k: nat)
    requires i < |ids| == |aliases| && k <= |ids|
  {
    Turned(ids[i], ids, aliases, k) == if i < k then aliases[i] else ids[i]
  }

  lemma OneMoreIdTurn(ids: seq<string>, aliases: seq<string>, i: nat, k: nat)
    requires Right(ids, aliases) && i < |ids| && k < |ids| && IdAfter(ids, aliases, i, k)
    ensures IdAfter(ids, aliases, i, k + 1)
  {
    IdTurn(ids, aliases, i, k, Turned(ids[i], ids, aliases, k));
  }

  lemma {:induction false} IdIsTurned(ids: seq<string>, aliases: seq<string>, i: nat, k: nat)
    requires Right(ids, aliases) && i < |ids| && k <= |ids|
    ensures IdAfter(ids, aliases, i, k)
  {
    if k > 0 {
      IdIsTurned(ids, aliases, i, k - 1);
      OneMoreIdTurn(ids, aliases, i, k - 1);
    }
  }

  lemma {:induction false} NoOpenerNormal(u: seq<Cell>, ids: seq<string>)
    requires forall i :: 0 <= i < |u| ==> u[i].c != '['
    ensures Normal(u, ids) == Chars(u)
  {
    if u != [] {
      NoOpenerNormal(u[1..], ids);
      assert Chars(u) == [u[0].c] + Chars(u[1..]);
    }
  }

  lemma {:induction false} NoOpenerNoShadow(u: seq<Cell>, views: Views)
    requires forall i :: 0 <= i < |u| ==> u[i].c != '['
    ensures !Shadowed(u, views)
  {
    if u != [] { NoOpenerNoShadow(u[1..], views); }
  }

  lemma ItsOwnAlias(ids: seq<string>, aliases: seq<string>, i: nat)
    requires Right(ids, aliases) && i < |ids|
    ensures aliases[i] == ids[i] <==> ids[i] in aliases
  {
    if ids[i] in aliases {
      var j :| 0 <= j < |aliases| && aliases[j] == ids[i];
      OneRight(ids, aliases, j);
      if i != j { IdsDiffer(ids, j, i); }
    }
  }

  // ----- the round trip of a text -----

  lemma IdRoundTrip(ids: seq<string>, aliases: seq<string>, i: nat)
    requires Right(ids, aliases) && i < |ids|
    ensures var back := Normal(Marked(Turned(ids[i], ids, aliases, |ids|)), ids);
      back == ids[i] <==> ids[i] in aliases
    ensures forall views :: !Shadowed(Marked(ids[i]), views)
  {
    IdIsTurned(ids, aliases, i, |ids|);
    OneRight(ids, aliases, i);
    ItsOwnAlias(ids, aliases, i);
    SpelledIsTidy(ids[i]);
    var x := aliases[i];
    assert forall k :: 0 <= k < |x| ==> x[k] == ids[i][k];
    NoOpenerNormal(Marked(x), ids);
    MarkedIsHonest(x);
    forall views: Views ensures !Shadowed(Marked(ids[i]), views) { NoOpenerNoShadow(Marked(ids[i]), views); }
  }

  lemma NothingInFront(u: seq<Cell>)
    ensures [] + u == u
  {}

  lemma SentIsMarked(u: seq<Cell>, ids: seq<string>, views: Views)
    requires Honest(u) && Proper(u, ids) && Aliases.Digests(ids) && ViewsOk(views, ids)
    ensures Marked(Chars(Short(u, views))) == Short(u, views)
  {
    NothingInFront(u);
    NothingInFront(Short(u, views));
    ShortIsHonest([], u, ids, views);
    HonestIsMarked(Short(u, views));
  }

  /** A text whose only citations are full ids outside code is sent with aliases, and what comes back is
      normalised: this restores the text if and only if no opener is shadowed and the text is not just an
      id with a shorter alias. */
  lemma TextRoundTrip(t: string, ids: seq<string>, aliases: seq<string>)
    requires Right(ids, aliases) && Proper(Marked(t), ids)
    ensures var back := Normal(Marked(Turned(t, ids, aliases, |ids|)), ids);
      back == t <==> (t in ids ==> t in aliases) && !Shadowed(Marked(t), ViewsOf(ids, aliases, |ids|))
  {
    if t in ids {
      var i :| 0 <= i < |ids| && ids[i] == t;
      IdRoundTrip(ids, aliases, i);
    } else {
      MarkedIsHonest(t);
      SentIsShort(Marked(t), ids, aliases);
      AliasesName(ids, aliases);
      SentIsMarked(Marked(t), ids, ViewsOf(ids, aliases, |ids|));
      NormalRestores(Marked(t), ids, ViewsOf(ids, aliases, |ids|));
    }
  }

  // ----- a text that is not restored -----

  /** One line that starts with a bracket and has no backticks has no code. */
  lemma PlainLineHasNoCode(t: string, p: nat)
    requires p < |t| && t[0] == '[' && forall i :: 0 <= i < |t| ==> !Special(t[i])
    ensures !Code(t, p)
  {
    LineEndPass(t, 0, |t|);
    assert !IsCode(START, t, 0, |t|);
    forall q | 0 <= q < |t| ensures !Blocks(t)[q] { assert !Flag(t, 0, START, q); }
    NoTickNoSpan(t, Blocks(t), 0, p);
  }

  lemma {:induction false} NoTickNoSpan(t: string, b: seq<bool>, i: nat, p: nat)
    requires |b| == |t| && i <= p < |t| && forall q :: 0 <= q < |t| ==> !b[q] && !Special(t[q])
    ensures !Coded(t, b, i, p)
    decreases |t| - i
  {
    if i < p { NoTickNoSpan(t, b, i + 1, p); }
  }

  /** Nothing starts at characters that are no bracket. */
  lemma {:induction false} Passed(v: seq<Cell>, w: seq<Cell>, ids: seq<string>, views: Views)
    requires forall i :: 0 <= i < |v| ==> v[i].c != '[' && v[i].c != ']'
    ensures Proper(v + w, ids) == Proper(w, ids)
    ensures Reach(v + w, views) == |v| + Reach(w, views) && ToBracket(v + w) == |v| + ToBracket(w)
    decreases |v|
  {
    if v == [] {
      assert v + w == w;
    } else {
      Passed(v[1..], w, ids, views);
      assert (v + w)[1..] == v[1..] + w && (v + w)[0] == v[0];
    }
  }

  /** So much text between an opener and the citation behind it that only a full id keeps them apart. */
  const FILLING := LONGEST - Aliases.LONGEST - 2

  function Filling(n: nat): (s: string)
    ensures |s| == n && forall i :: 0 <= i < n ==> s[i] == 'x'
  {
    seq(n, i requires 0 <= i < n => 'x')
  }

  lemma OneCitation(id: string, ids: seq<string>, views: Views)
    requires Aliases.Digests(ids) && id in ids
    ensures Proper(Cells(Token(id)), ids)
    ensures Reach(Cells(Token(id)), views) == |View(views, id)| + 3 && ToBracket(Cells(Token(id))) == |id| + 3
  {
    var u := Cells(Token(id));
    FrontIsMatch(u, id);
    TokenReach(u, id);
    assert u[|id| + 4..] == [];
  }

  function Crowded(id: string): (t: string)
    ensures |t| == FILLING + |id| + 7 && t[0] == '['
  {
    "[E:" + Filling(FILLING) + Token(id)
  }

  /** What stands behind the opener of a crowded text. */
  function Behind(id: string): seq<Cell> {
    Cells(Filling(FILLING)) + Cells(Token(id))
  }

  lemma BehindReaches(id: string, ids: seq<string>, views: Views)
    requires Aliases.Digests(ids) && id in ids
    ensures Proper(Behind(id), ids) && |Behind(id)| == FILLING + |id| + 4
    ensures Reach(Behind(id), views) == FILLING + |View(views, id)| + 3 && ToBracket(Behind(id)) == FILLING + |id| + 3
  {
    OneCitation(id, ids, views);
    Passed(Cells(Filling(FILLING)), Cells(Token(id)), ids, views);
  }

  lemma CrowdedSplit(id: string)
    ensures Cells(Crowded(id))[3..] == Behind(id) && Cells(Crowded(id))[1..] == Cells("E:") + Behind(id)
  {}

  lemma CrowdedIsShadow(id: string, ids: seq<string>, views: Views)
    requires Aliases.Digests(ids) && id in ids && |View(views, id)| < |id|
    ensures MatchLen(Cells(Crowded(id))).None? && Shadow(Cells(Crowded(id)), views)
  {
    BehindReaches(id, ids, views);
    CrowdedSplit(id);
  }

  lemma CrowdedIsProper(id: string, ids: seq<string>, views: Views)
    requires Aliases.Digests(ids) && id in ids && MatchLen(Cells(Crowded(id))).None?
    ensures Proper(Cells(Crowded(id)), ids)
  {
    BehindReaches(id, ids, views);
    CrowdedSplit(id);
    Passed(Cells("E:"), Behind(id), ids, views);
  }

  lemma CrowdedIsPlain(id: string)
    requires Aliases.Spelled(id)
    ensures Marked(Crowded(id)) == Cells(Crowded(id))
  {
    var t := Crowded(id);
    SpelledIsTidy(id);
    forall k | 0 <= k < |t|
      ensures !Special(t[k]) { if k >= FILLING + 3
    {
      assert t[k] == Token(id)[k - FILLING - 3]; }
    }
    forall k | 0 <= k < |t| ensures !Code(t, k) { PlainLineHasNoCode(t, k); }
  }

  /** Every id with a shorter alias has a text that does not come back. */
  lemma ShadowsExist(ids: seq<string>, aliases: seq<string>, i: nat)
    requires Right(ids, aliases) && i < |ids| && aliases[i] != ids[i]
    ensures var t := Crowded(ids[i]);
      t !in ids && Proper(Marked(t), ids) && Normal(Marked(Turned(t, ids, aliases, |ids|)), ids) != t
  {
    var id, t := ids[i], Crowded(ids[i]);
    OneRight(ids, aliases, i);
    ViewsAreAliases(ids, aliases, |ids|, i);
    assert aliases[i] == id[..|aliases[i]|] && id == id[..|id|];
    CrowdedIsPlain(id);
    CrowdedIsShadow(id, ids, ViewsOf(ids, aliases, |ids|));
    CrowdedIsProper(id, ids, ViewsOf(ids, aliases, |ids|));
    TextRoundTrip(t, ids, aliases);
  }

  // ----- the loops -----

  lemma Single(s: set<string>, x: string)
    requires |s| == 1 && x in s
    ensures s == {x}
  {
    assert |s - {x}| == 0;
  }

  lemma ResolveBySet(ids: seq<string>, candidate: string, matches: set<string>)
    requires |candidate| >= Aliases.SHORTEST && forall x :: x in matches <==> x in ids && candidate <= x
    ensures Resolve(ids, candidate).Some? <==> |matches| == 1
  {
    var r := Resolve(ids, candidate);
    if r.Some? { assert matches == {r.value}; }
    if |matches| == 1 {
      var x :| x in matches;
      Single(matches, x);
    }
  }

  /** Collecting the ids that start with the candidate. */
  method ResolveOne(ids: seq<string>, candidate: string) returns (r: Option<string>)
    ensures r == Resolve(ids, candidate)
  {
    if |candidate| < Aliases.SHORTEST { return None; }
    var matches: set<string> := {};
    for k := 0 to |ids|
      invariant forall x :: x in matches <==> x in ids[..k] && candidate <= x
    {
      assert ids[..k + 1] == ids[..k] + [ids[k]];
      if candidate <= ids[k] { matches := matches + {ids[k]}; }
    }
    assert ids[..|ids|] == ids;
    ResolveBySet(ids, candidate, matches);
    if |matches| != 1 { return None; }
    var x :| x in matches;
    Single(matches, x);
    return Some(x);
  }

  /** The parts of one citation. */
  method Collect(inside: string, ids: seq<string>) returns (r: Option<seq<string>>)
    ensures r == Collected(inside, ids, [])
  {
    var rest, found := inside, [];
    while true
      invariant Collected(inside, ids, []) == Collected(rest, ids, found)
      decreases |rest|
    {
      var n := Comma(rest);
      var bare := Bare(rest[..n]);
      var id := ResolveOne(ids, bare);
      if id.None? && HexRun(bare) < |bare| {
        id := ResolveOne(ids, bare[..HexRun(bare)]);
      }
      if id.None? { return None; }
      if id.value !in found { found := found + [id.value]; }
      if n == |rest| { return Some(found); }
      rest := rest[n + 1..];
    }
  }

  method Rewrite(inside: string, ids: seq<string>) returns (text: string)
    ensures text == Rewritten(inside, ids)
  {
    var found := Collect(inside, ids);
    if found.None? { return Token(inside); }
    text := "";
    assert found.value[0..] == found.value;
    for k := 0 to |found.value|
      invariant Tokens(found.value) == text + Tokens(found.value[k..])
    {
      assert found.value[k..][1..] == found.value[k + 1..];
      Assoc(text, Token(found.value[k]), Tokens(found.value[k + 1..]));
      text := text + Token(found.value[k]);
    }
  }

  lemma {:induction false} SameBracket(u: seq<Cell>, w: seq<Cell>)
    requires Chars(u) == Chars(w)
    ensures ToBracket(u) == ToBracket(w)
  {
    if u != [] {
      assert u[0].c == Chars(u)[0] == Chars(w)[0] == w[0].c;
      assert Chars(u[1..]) == Chars(u)[1..] == Chars(w)[1..] == Chars(w[1..]);
      SameBracket(u[1..], w[1..]);
    }
  }

  lemma SameMatch(u: seq<Cell>, w: seq<Cell>)
    requires Chars(u) == Chars(w)
    ensures MatchLen(u) == MatchLen(w)
  {
    assert forall i :: 0 <= i < |u| ==> u[i].c == Chars(u)[i] == Chars(w)[i] == w[i].c;
    if |u| >= 3 {
      assert Chars(u[3..]) == Chars(u)[3..] == Chars(w)[3..] == Chars(w[3..]);
      SameBracket(u[3..], w[3..]);
    }
  }

  lemma NormalStep(u: seq<Cell>, at: nat, ids: seq<string>, out: string, n: nat, piece: string)
    requires at < |u| && 0 < n <= |u| - at
    requires Normal(u[at..], ids) == piece + Normal(u[at..][n..], ids)
    ensures out + Normal(u[at..], ids) == out + piece + Normal(u[at + n..], ids)
  {
    assert u[at..][n..] == u[at + n..];
    Assoc(out, piece, Normal(u[at + n..], ids));
  }

  /** One turn: a citation outside code is rewritten, anything else is copied. */
  method NormalTurn(t: string, ghost u: seq<Cell>, ranges: seq<Range>, ids: seq<string>, at: nat)
      returns (n: nat, piece: string)
    requires u == Marked(t) && at < |t|
    requires forall p :: 0 <= p < |t| ==> (Covered(ranges, p) <==> u[p].code)
    ensures 0 < n <= |t| - at && Normal(u[at..], ids) == piece + Normal(u[at..][n..], ids)
  {
    assert Chars(u[at..]) == t[at..] == Chars(Cells(t[at..]));
    SameMatch(u[at..], Cells(t[at..]));
    var m := MatchLen(Cells(t[at..]));
    if m.None? { return 1, [t[at]]; }
    n := m.value;
    assert Chars(u[at..][..n]) == t[at..at + n];
    TokenInFront(u[at..], n);
    var literal := AnyHas(ranges, at);
    if literal { return n, t[at..at + n]; }
    assert Inside(u[at..], n) == t[at + 3..at + n - 1];
    piece := Rewrite(t[at + 3..at + n - 1], ids);
  }

  /** `normalize_citations`. */
  method NormalizeCitations(markdown: string, ids: seq<string>) returns (out: string)
    ensures out == Normal(Marked(markdown), ids)
  {
    var ranges := CodeRanges.CodeRanges(markdown);
    ghost var u := Marked(markdown);
    out := "";
    var at := 0;
    assert u[0..] == u;
    while at < |markdown|
      invariant at <= |markdown| && Normal(u, ids) == out + Normal(u[at..], ids)
    {
      var n, piece := NormalTurn(markdown, u, ranges, ids, at);
      NormalStep(u, at, ids, out, n, piece);
      out := out + piece;
      at := at + n;
    }
  }
}
