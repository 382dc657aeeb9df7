/** Turning evidence citations into numbered footnotes without touching code. */
module Citations {
  import opened Basics
  import opened Characters
  import opened Options
  import opened CodeMask
  import opened CodeRanges

  // ----- citations and footnote labels -----

  /** Evidence ids are hexadecimal digests. */
  predicate Hex(id: string) {
    forall i :: 0 <= i < |id| ==> HexDigit(id[i])
  }

  function Token(id: string): (s: string)
    ensures |s| == |id| + 4
  {
    "[E:" + id + "]"
  }

  function Decimal(n: nat): (s: string)
    ensures |s| > 0 && forall i :: 0 <= i < |s| ==> '0' <= s[i] <= '9'
  {
    var last := [('0' as int + n % 10) as char];
    if n < 10 then last else Decimal(n / 10) + last
  }

  function Label(n: nat): string {
    "[^s" + Decimal(n) + "]"
  }

  /** The number that decimal digits stand for. */
  function Value(s: string): int {
    if s == "" then 0 else 10 * Value(s[..|s| - 1]) + (s[|s| - 1] as int - '0' as int)
  }

  lemma {:induction false} DecimalIsRead(n: nat)
    ensures Value(Decimal(n)) == n
  {
    if n >= 10 {
      DecimalIsRead(n / 10);
      assert Decimal(n)[..|Decimal(n)| - 1] == Decimal(n / 10);
    } else {
      assert Decimal(n)[..0] == "";
    }
  }

  /** No two footnotes share a label. */
  lemma LabelsDiffer(m: nat, n: nat)
    requires m != n
    ensures Label(m) != Label(n)
  {
    DecimalIsRead(m);
    DecimalIsRead(n);
    assert Label(m)[3..|Label(m)| - 1] == Decimal(m) && Label(n)[3..|Label(n)| - 1] == Decimal(n);
  }

  /** A bracket first and nowhere else, and nothing that could open, close or hide code. */
  predicate Tidy(s: string) {
    |s| > 1 && s[0] == '[' && forall i :: 0 < i < |s| ==> s[i] != '[' && !Special(s[i])
  }

  lemma TokenIsTidy(id: string)
    requires Hex(id)
    ensures Tidy(Token(id)) && Token(id)[1] == 'E' && Token(id)[|id| + 3] == ']'
    ensures forall i :: 0 <= i < |id| ==> Token(id)[i + 3] == id[i]
  {}

  lemma LabelIsTidy(n: nat)
    ensures Tidy(Label(n)) && Label(n)[1] == '^'
  {}

  // ----- texts whose characters are marked as code or not -----

  datatype Cell = Cell(c: char, code: bool)

  function Marked(t: string): (u: seq<Cell>)
    ensures |u| == |t| && forall p :: 0 <= p < |t| ==> u[p] == Cell(t[p], Code(t, p))
  {
    seq(|t|, p requires 0 <= p < |t| => Cell(t[p], Code(t, p)))
  }

  function Chars(u: seq<Cell>): (t: string)
    ensures |t| == |u| && forall p :: 0 <= p < |u| ==> t[p] == u[p].c
  {
    seq(|u|, p requires 0 <= p < |u| => u[p].c)
  }

  /** Text outside code. */
  function Cells(s: string): (u: seq<Cell>)
    ensures |u| == |s| && forall p :: 0 <= p < |s| ==> u[p] == Cell(s[p], false)
  {
    seq(|s|, p requires 0 <= p < |s| => Cell(s[p], false))
  }

  /** The marks are those of the text. */
  predicate Honest(u: seq<Cell>) {
    forall p :: 0 <= p < |u| ==> u[p].code == Code(Chars(u), p)
  }

  predicate At(u: seq<Cell>, token: string) {
    |token| <= |u| && forall i :: 0 <= i < |token| ==> u[i].c == token[i]
  }

  /** What stands at a match afterwards: the note, or inside code the citation itself. */
  function Piece(u: seq<Cell>, n: nat, note: string): seq<Cell>
    requires 0 < n <= |u|
  {
    if u[0].code then u[..n] else Cells(note)
  }

  /** The text with every match outside code replaced. */
  function Swap(u: seq<Cell>, token: string, note: string): seq<Cell>
    requires token != []
    decreases |u|
  {
    if u == [] then []
    else if At(u, token) then Piece(u, |token|, note) + Swap(u[|token|..], token, note)
    else [u[0]] + Swap(u[1..], token, note)
  }

  function Replaced(t: string, id: string, note: string): string {
    Chars(Swap(Marked(t), Token(id), note))
  }

  // ----- replacing keeps the marks honest and the code as it is -----

  /** The characters in code. */
  function Literals(u: seq<Cell>): string {
    if u == [] then [] else (if u[0].code then [u[0].c] else []) + Literals(u[1..])
  }

  lemma {:induction false} LiteralsSplit(u: seq<Cell>, w: seq<Cell>)
    ensures Literals(u + w) == Literals(u) + Literals(w)
  {
    if u == [] {
      assert u + w == w;
    } else {
      assert (u + w)[1..] == u[1..] + w;
      LiteralsSplit(u[1..], w);
      Assoc(if u[0].code then [u[0].c] else [], Literals(u[1..]), Literals(w));
    }
  }

  lemma {:induction false} NoLiterals(u: seq<Cell>)
    requires forall p :: 0 <= p < |u| ==> !u[p].code
    ensures Literals(u) == []
  {
    if u != [] { NoLiterals(u[1..]); }
  }

  /** The two texts around one exchange. */
  lemma ExchangePair(v: seq<Cell>, x: seq<Cell>, y: seq<Cell>, w: seq<Cell>)
    requires Tidy(Chars(x)) && Tidy(Chars(y))
    ensures Pair(Chars(v + x + w), Chars(v + y + w), |v|, |x|, |y|)
  {
    var t, t', k, n, n' := Chars(v + x + w), Chars(v + y + w), |v|, |x|, |y|;
    assert forall i :: k <= i < k + n ==> t[i] == Chars(x)[i - k];
    assert forall i :: k <= i < k + n' ==> t'[i] == Chars(y)[i - k];
    forall i | k + n <= i < |t| ensures t'[i - n + n'] == t[i] {
      assert (v + x + w)[i] == w[i - k - n] && (v + y + w)[i - n + n'] == w[i - k - n];
    }
  }

  /** Exchanging a citation outside code for a note leaves every other mark right. */
  lemma Exchange(v: seq<Cell>, x: seq<Cell>, note: string, w: seq<Cell>)
    requires Honest(v + x + w) && Tidy(Chars(x)) && Tidy(note) && !x[0].code
    ensures Honest(v + Cells(note) + w) && forall i :: 0 <= i < |x| ==> !x[i].code
  {
    var y := Cells(note);
    var u, u', k, n, n' := v + x + w, v + y + w, |v|, |x|, |y|;
    assert Chars(y) == note;
    assert u[k] == x[0];
    ExchangePair(v, x, y, w);
    ExchangePair(v, x, x, w);
    forall p | 0 <= p < |u'| ensures u'[p].code == Code(Chars(u'), p) {
      CodeStays(Chars(u), Chars(u'), k, n, n', p);
      if p >= k + n' { assert u'[p] == w[p - k - n'] == u[p - n' + n]; }
    }
    forall i | 0 <= i < n ensures !x[i].code {
      CodeStays(Chars(u), Chars(u), k, n, n, k + i);
      assert u[k + i] == x[i];
    }
  }

  /** One match in place of its piece. */
  lemma PieceIsHonest(v: seq<Cell>, x: seq<Cell>, note: string, w: seq<Cell>)
    requires Honest(v + x + w) && Tidy(Chars(x)) && Tidy(note)
    ensures Honest(v + Piece(x, |x|, note) + w) && Literals(Piece(x, |x|, note)) == Literals(x)
  {
    if x[0].code {
      assert x[..|x|] == x;
    } else {
      NoteIsHonest(v, x, note, w);
    }
  }

  lemma NoteIsHonest(v: seq<Cell>, x: seq<Cell>, note: string, w: seq<Cell>)
    requires Honest(v + x + w) && Tidy(Chars(x)) && Tidy(note) && !x[0].code
    ensures Honest(v + Cells(note) + w) && Literals(Cells(note)) == Literals(x)
  {
    Exchange(v, x, note, w);
    NoLiterals(x);
    NoLiterals(Cells(note));
  }

  lemma {:induction false} SwapStaysHonest(v: seq<Cell>, u: seq<Cell>, token: string, note: string)
    requires Honest(v + u) && Tidy(token) && Tidy(note)
    ensures Honest(v + Swap(u, token, note)) && Literals(Swap(u, token, note)) == Literals(u)
    decreases |u|
  {
    if u != [] {
      var n := if At(u, token) then |token| else 1;
      var x, w := u[..n], u[n..];
      assert u == x + w && v + u == v + x + w;
      var piece := x;
      if At(u, token) {
        assert Chars(x) == token;
        PieceIsHonest(v, x, note, w);
        piece := Piece(x, n, note);
        assert piece == Piece(u, n, note);
      }
      SwapStaysHonest(v + piece, w, token, note);
      Assoc(v, piece, Swap(w, token, note));
      LiteralsJoin(x, w, piece, Swap(w, token, note));
      assert Swap(u, token, note) == piece + Swap(w, token, note);
    }
  }

  lemma LiteralsJoin(x: seq<Cell>, w: seq<Cell>, piece: seq<Cell>, rest: seq<Cell>)
    requires Literals(piece) == Literals(x) && Literals(rest) == Literals(w)
    ensures Literals(piece + rest) == Literals(x + w)
  {
    LiteralsSplit(x, w);
    LiteralsSplit(piece, rest);
  }

  lemma MarkedIsHonest(t: string)
    ensures Honest(Marked(t)) && Chars(Marked(t)) == t
  {
    assert Chars(Marked(t)) == t;
  }

  lemma HonestIsMarked(u: seq<Cell>)
    requires Honest(u)
    ensures Marked(Chars(u)) == u
  {
    assert forall p :: 0 <= p < |u| ==> Marked(Chars(u))[p] == u[p];
  }

  /** The code of the new text is where the old code was moved to, character for character. */
  lemma ReplacedKeepsCode(t: string, id: string, note: string)
    requires Hex(id) && Tidy(note)
    ensures Marked(Replaced(t, id, note)) == Swap(Marked(t), Token(id), note)
    ensures Literals(Marked(Replaced(t, id, note))) == Literals(Marked(t))
  {
    MarkedIsHonest(t);
    TokenIsTidy(id);
    assert [] + Marked(t) == Marked(t);
    SwapStaysHonest([], Marked(t), Token(id), note);
    assert [] + Swap(Marked(t), Token(id), note) == Swap(Marked(t), Token(id), note);
    HonestIsMarked(Swap(Marked(t), Token(id), note));
  }

  // ----- all ids at once -----

  type Numbers = map<string, nat>

  ghost predicate Known(live: set<string>, numbers: Numbers) {
    forall id :: id in live ==> Hex(id) && id in numbers
  }

  /** The text with every match of a live id outside code replaced, in one pass. */
  ghost function AtOnce(u: seq<Cell>, live: set<string>, numbers: Numbers): seq<Cell>
    requires Known(live, numbers)
    decreases |u|
  {
    if u == [] then []
    else if exists id :: id in live && At(u, Token(id)) then
      var id :| id in live && At(u, Token(id));
      Piece(u, |Token(id)|, Label(numbers[id])) + AtOnce(u[|Token(id)|..], live, numbers)
    else [u[0]] + AtOnce(u[1..], live, numbers)
  }

  lemma NoLongerId(u: seq<Cell>, a: string, b: string)
    requires Hex(b) && At(u, Token(a)) && |a| < |b|
    ensures !At(u, Token(b))
  {
    assert Token(a)[|a| + 3] == ']';
    assert Token(b)[|a| + 3] == b[|a|] && HexDigit(b[|a|]);
  }

  lemma OneIdAt(u: seq<Cell>, a: string, b: string)
    requires Hex(a) && Hex(b) && At(u, Token(a)) && At(u, Token(b))
    ensures a == b
  {
    if |a| < |b| { NoLongerId(u, a, b); }
    if |b| < |a| { NoLongerId(u, b, a); }
    TokenIsTidy(a);
    TokenIsTidy(b);
    assert forall i :: 0 <= i < |a| ==> a[i] == Token(a)[i + 3] == Token(b)[i + 3] == b[i];
  }

  /** No match can start at a character other than a bracket. */
  lemma {:induction false} SwapPasses(x: seq<Cell>, w: seq<Cell>, id: string, note: string)
    requires forall i :: 0 <= i < |x| ==> x[i].c != '['
    ensures Swap(x + w, Token(id), note) == x + Swap(w, Token(id), note)
    decreases |x|
  {
    if x == [] {
      assert x + w == w;
    } else {
      assert !At(x + w, Token(id)) by { assert Token(id)[0] == '['; }
      assert (x + w)[1..] == x[1..] + w && x == [x[0]] + x[1..];
      SwapPasses(x[1..], w, id, note);
      Assoc([x[0]], x[1..], Swap(w, Token(id), note));
    }
  }

  lemma AtOnceStep(u: seq<Cell>, live: set<string>, numbers: Numbers)
    requires Known(live, numbers) && u != [] && forall id :: id in live ==> !At(u, Token(id))
    ensures AtOnce(u, live, numbers) == [u[0]] + AtOnce(u[1..], live, numbers)
  {}

  lemma NoBracketNoMatch(u: seq<Cell>, live: set<string>)
    requires u != [] && u[0].c != '['
    ensures forall id :: id in live ==> !At(u, Token(id))
  {
    forall id | id in live ensures !At(u, Token(id)) { assert Token(id)[0] == '['; }
  }

  lemma {:induction false} AtOncePasses(x: seq<Cell>, w: seq<Cell>, live: set<string>, numbers: Numbers)
    requires Known(live, numbers) && forall i :: 0 <= i < |x| ==> x[i].c != '['
    ensures AtOnce(x + w, live, numbers) == x + AtOnce(w, live, numbers)
    decreases |x|
  {
    if x == [] {
      assert x + w == w;
    } else {
      NoBracketNoMatch(x + w, live);
      AtOnceStep(x + w, live, numbers);
      assert (x + w)[1..] == x[1..] + w && x == [x[0]] + x[1..];
      AtOncePasses(x[1..], w, live, numbers);
      Assoc([x[0]], x[1..], AtOnce(w, live, numbers));
    }
  }

  /** A stretch that is no match of a live id and has no further bracket is passed over. */
  lemma AtOnceSkips(x: seq<Cell>, w: seq<Cell>, live: set<string>, numbers: Numbers)
    requires Known(live, numbers) && Tidy(Chars(x)) && forall id :: id in live ==> !At(x + w, Token(id))
    ensures AtOnce(x + w, live, numbers) == x + AtOnce(w, live, numbers)
  {
    AtOnceStep(x + w, live, numbers);
    assert (x + w)[1..] == x[1..] + w && x == [x[0]] + x[1..];
    assert forall i :: 0 < i < |x| ==> x[i].c == Chars(x)[i];
    AtOncePasses(x[1..], w, live, numbers);
    Assoc([x[0]], x[1..], AtOnce(w, live, numbers));
  }

  lemma MatchKeepsBracket(u: seq<Cell>, id: string, note: string)
    requires Tidy(note) && At(u, Token(id))
    ensures Swap(u, Token(id), note) != [] && Swap(u, Token(id), note)[0].c == '['
  {
    assert Token(id)[0] == '[';
    assert Swap(u, Token(id), note)[0] == Piece(u, |Token(id)|, note)[0];
  }

  /** Text without a bracket is passed over by a replacement, so a match of another id is old text. */
  lemma {:induction false} SwapMakesNone(u: seq<Cell>, id: string, note: string, q: string)
    requires Tidy(note) && At(Swap(u, Token(id), note), q) && forall i :: 0 <= i < |q| ==> q[i] != '['
    ensures At(u, q)
    decreases |q|
  {
    if q != [] {
      var s := Swap(u, Token(id), note);
      assert s[0].c == q[0];
      if At(u, Token(id)) { MatchKeepsBracket(u, id, note); }
      assert !At(u, Token(id));
      assert s == [u[0]] + Swap(u[1..], Token(id), note);
      assert At(s[1..], q[1..]);
      SwapMakesNone(u[1..], id, note, q[1..]);
      assert forall i :: 0 < i < |q| ==> u[i].c == u[1..][i - 1].c == q[1..][i - 1];
    }
  }

  lemma SwapMakesNoMatch(u: seq<Cell>, id: string, note: string, x: string)
    requires Hex(x) && Tidy(note) && u != [] && !At(u, Token(id)) && At(Swap(u, Token(id), note), Token(x))
    ensures At(u, Token(x))
  {
    TokenIsTidy(x);
    var s := Swap(u, Token(id), note);
    assert s == [u[0]] + Swap(u[1..], Token(id), note);
    assert At(s[1..], Token(x)[1..]);
    SwapMakesNone(u[1..], id, note, Token(x)[1..]);
    assert forall i :: 0 < i < |Token(x)| ==> u[i].c == u[1..][i - 1].c == Token(x)[1..][i - 1];
  }

  /** Replacing one id first changes nothing for the rest. */
  lemma {:induction false} Merge(u: seq<Cell>, id: string, live: set<string>, numbers: Numbers)
    requires Known(live + {id}, numbers)
    ensures AtOnce(Swap(u, Token(id), Label(numbers[id])), live, numbers) == AtOnce(u, live + {id}, numbers)
    decreases |u|
  {
    if u != [] {
      if At(u, Token(id)) {
        MergeMatch(u, id, live, numbers);
        Merge(u[|Token(id)|..], id, live, numbers);
      } else if x :| x in live && At(u, Token(x)) {
        MergeOther(u, id, x, live, numbers);
        Merge(u[|Token(x)|..], id, live, numbers);
      } else {
        MergeNone(u, id, live, numbers);
        Merge(u[1..], id, live, numbers);
      }
    }
  }

  lemma AtOnceMatch(u: seq<Cell>, id: string, live: set<string>, numbers: Numbers)
    requires Known(live, numbers) && id in live && At(u, Token(id))
    ensures AtOnce(u, live, numbers)
      == Piece(u, |Token(id)|, Label(numbers[id])) + AtOnce(u[|Token(id)|..], live, numbers)
  {
    forall other | other in live && At(u, Token(other)) ensures other == id { OneIdAt(u, other, id); }
  }

  lemma MergeMatch(u: seq<Cell>, id: string, live: set<string>, numbers: Numbers)
    requires Known(live + {id}, numbers) && At(u, Token(id))
    ensures var n, note := |Token(id)|, Label(numbers[id]);
      && AtOnce(u, live + {id}, numbers) == Piece(u, n, note) + AtOnce(u[n..], live + {id}, numbers)
      && AtOnce(Swap(u, Token(id), note), live, numbers)
        == Piece(u, n, note) + AtOnce(Swap(u[n..], Token(id), note), live, numbers)
  {
    var n, note := |Token(id)|, Label(numbers[id]);
    AtOnceMatch(u, id, live + {id}, numbers);
    if u[0].code {
      CodePieceStays(u[..n], Swap(u[n..], Token(id), note), id, live, numbers);
    } else {
      LabelStays(numbers[id], Swap(u[n..], Token(id), note), live, numbers);
    }
  }

  lemma NoOtherAt(x: seq<Cell>, rest: seq<Cell>, id: string, live: set<string>)
    requires Hex(id) && At(x, Token(id)) && id !in live && forall other :: other in live ==> Hex(other)
    ensures forall other :: other in live ==> !At(x + rest, Token(other))
  {
    assert At(x + rest, Token(id));
    forall other | other in live ensures !At(x + rest, Token(other)) {
      if At(x + rest, Token(other)) { OneIdAt(x + rest, other, id); }
    }
  }

  /** A citation in code is kept whether or not its id is live. */
  lemma CodePieceStays(x: seq<Cell>, rest: seq<Cell>, id: string, live: set<string>, numbers: Numbers)
    requires Known(live + {id}, numbers) && |x| == |Token(id)| && At(x, Token(id)) && x[0].code
    ensures AtOnce(x + rest, live, numbers) == x + AtOnce(rest, live, numbers)
  {
    if id in live {
      MatchStays(x + rest, x, rest, id, live, numbers);
      assert Piece(x, |x|, Label(numbers[id])) == x;
    } else {
      NoOtherAt(x, rest, id, live);
      TokenIsTidy(id);
      assert Chars(x) == Token(id);
      AtOnceSkips(x, rest, live, numbers);
    }
  }

  /** A label is no citation. */
  lemma LabelStays(number: nat, rest: seq<Cell>, live: set<string>, numbers: Numbers)
    requires Known(live, numbers)
    ensures AtOnce(Cells(Label(number)) + rest, live, numbers) == Cells(Label(number)) + AtOnce(rest, live, numbers)
  {
    var x := Cells(Label(number));
    LabelIsTidy(number);
    forall other | other in live ensures !At(x + rest, Token(other)) {
      assert (x + rest)[1].c == '^' && Token(other)[1] == 'E';
    }
    assert Chars(x) == Label(number);
    AtOnceSkips(x, rest, live, numbers);
  }

  /** The match of another id is passed over. */
  lemma SwapOther(u: seq<Cell>, x: seq<Cell>, w: seq<Cell>, id: string, note: string)
    requires u == x + w && Tidy(Chars(x)) && !At(u, Token(id))
    ensures Swap(u, Token(id), note) == x + Swap(w, Token(id), note)
  {
    assert u[1..] == x[1..] + w && x == [x[0]] + x[1..];
    assert forall i :: 0 < i < |x| ==> x[i].c == Chars(x)[i];
    SwapPasses(x[1..], w, id, note);
    Assoc([x[0]], x[1..], Swap(w, Token(id), note));
  }

  lemma MergeOther(u: seq<Cell>, id: string, other: string, live: set<string>, numbers: Numbers)
    requires Known(live + {id}, numbers) && other in live && At(u, Token(other)) && !At(u, Token(id))
    ensures var n, note := |Token(other)|, Label(numbers[id]);
      && AtOnce(u, live + {id}, numbers) == Piece(u, n, Label(numbers[other])) + AtOnce(u[n..], live + {id}, numbers)
      && AtOnce(Swap(u, Token(id), note), live, numbers)
        == Piece(u, n, Label(numbers[other])) + AtOnce(Swap(u[n..], Token(id), note), live, numbers)
  {
    var n, note := |Token(other)|, Label(numbers[id]);
    AtOnceMatch(u, other, live + {id}, numbers);
    var x, w := u[..n], u[n..];
    PrefixIsToken(u, other);
    SwapOther(u, x, w, id, note);
    MatchStays(Swap(u, Token(id), note), x, Swap(w, Token(id), note), other, live, numbers);
    assert Piece(x, n, Label(numbers[other])) == Piece(u, n, Label(numbers[other]));
  }

  lemma PrefixIsToken(u: seq<Cell>, id: string)
    requires Hex(id) && At(u, Token(id))
    ensures var x := u[..|Token(id)|];
      Chars(x) == Token(id) && At(x, Token(id)) && Tidy(Chars(x)) && u == x + u[|Token(id)|..]
  {
    TokenIsTidy(id);
  }

  lemma MatchStays(u: seq<Cell>, x: seq<Cell>, rest: seq<Cell>, id: string, live: set<string>, numbers: Numbers)
    requires u == x + rest && Known(live, numbers) && id in live && |x| == |Token(id)| && At(x, Token(id))
    ensures AtOnce(u, live, numbers) == Piece(x, |x|, Label(numbers[id])) + AtOnce(rest, live, numbers)
  {
    assert At(u, Token(id));
    AtOnceMatch(u, id, live, numbers);
    assert u[|x|..] == rest && u[..|x|] == x == x[..|x|];
  }

  lemma MergeNone(u: seq<Cell>, id: string, live: set<string>, numbers: Numbers)
    requires Known(live + {id}, numbers) && u != [] && forall x :: x in live + {id} ==> !At(u, Token(x))
    ensures AtOnce(u, live + {id}, numbers) == [u[0]] + AtOnce(u[1..], live + {id}, numbers)
    ensures var note := Label(numbers[id]);
      AtOnce(Swap(u, Token(id), note), live, numbers) == [u[0]] + AtOnce(Swap(u[1..], Token(id), note), live, numbers)
  {
    var note := Label(numbers[id]);
    LabelIsTidy(numbers[id]);
    var s := Swap(u, Token(id), note);
    forall x | x in live ensures !At(s, Token(x)) {
      if At(s, Token(x)) { SwapMakesNoMatch(u, id, note, x); }
    }
    assert s == [u[0]] + Swap(u[1..], Token(id), note);
    assert s[1..] == Swap(u[1..], Token(id), note);
  }

  lemma {:induction false} NothingLive(u: seq<Cell>, numbers: Numbers)
    ensures AtOnce(u, {}, numbers) == u
  {
    if u != [] { NothingLive(u[1..], numbers); }
  }

  // ----- the loops -----

  predicate Matches(t: string, at: nat, needle: string) {
    at + |needle| <= |t| && t[at..at + |needle|] == needle
  }

  lemma AtIsSlice(u: seq<Cell>, t: string, at: nat, needle: string)
    requires at <= |t| && Chars(u) == t
    ensures At(u[at..], needle) <==> Matches(t, at, needle)
  {
    assert forall i :: 0 <= i < |t| - at ==> u[at..][i].c == t[at + i];
    if Matches(t, at, needle) {
      assert forall i :: 0 <= i < |needle| ==> needle[i] == t[at..at + |needle|][i];
    }
  }

  lemma CharsSplit(u: seq<Cell>, w: seq<Cell>)
    ensures Chars(u + w) == Chars(u) + Chars(w)
  {}

  /** What is written, then what is still to be read, of the text with the replacements made. */
  ghost predicate Written(total: string, written: string, u: seq<Cell>, at: nat, needle: string, note: string)
    requires at <= |u| && needle != []
  {
    total == written + Chars(Swap(u[at..], needle, note))
  }

  lemma WriteMatch(total: string, written: string, u: seq<Cell>, t: string, at: nat, needle: string, note: string)
    requires needle != [] && Chars(u) == t && Matches(t, at, needle)
    requires Written(total, written, u, at, needle, note)
    ensures Written(total, written + if u[at].code then needle else note, u, at + |needle|, needle, note)
  {
    var v, n := u[at..], |needle|;
    AtIsSlice(u, t, at, needle);
    assert v[n..] == u[at + n..];
    CharsSplit(Piece(v, n, note), Swap(v[n..], needle, note));
    assert Chars(Piece(v, n, note)) == if u[at].code then needle else note;
    Assoc(written, Chars(Piece(v, n, note)), Chars(Swap(v[n..], needle, note)));
  }

  lemma WriteMiss(total: string, written: string, u: seq<Cell>, t: string, at: nat, needle: string, note: string)
    requires needle != [] && Chars(u) == t && at < |t| && !Matches(t, at, needle)
    requires Written(total, written, u, at, needle, note)
    ensures Written(total, written + [t[at]], u, at + 1, needle, note)
  {
    var v := u[at..];
    AtIsSlice(u, t, at, needle);
    assert v[1..] == u[at + 1..];
    CharsSplit([v[0]], Swap(v[1..], needle, note));
    Assoc(written, [t[at]], Chars(Swap(v[1..], needle, note)));
  }

  lemma SliceMore(out: string, t: string, from: nat, at: nat, next: nat)
    requires from <= at <= next <= |t|
    ensures out + t[from..at] + t[at..next] == out + t[from..next]
  {
    assert t[from..at] + t[at..next] == t[from..next];
    Assoc(out, t[from..at], t[at..next]);
  }

  /** A match in code waits to be copied with the text around it. */
  lemma TurnKept(
      total: string, out: string, cursor: nat, u: seq<Cell>, t: string, at: nat, needle: string, note: string)
    requires needle != [] && Chars(u) == t && cursor <= at && Matches(t, at, needle)
    requires Written(total, out + t[cursor..at], u, at, needle, note) && u[at].code
    ensures Written(total, out + t[cursor..at + |needle|], u, at + |needle|, needle, note)
  {
    WriteMatch(total, out + t[cursor..at], u, t, at, needle, note);
    KeptSlice(out, t, cursor, at, needle);
  }

  lemma KeptSlice(out: string, t: string, cursor: nat, at: nat, needle: string)
    requires cursor <= at && Matches(t, at, needle)
    ensures out + t[cursor..at] + needle == out + t[cursor..at + |needle|]
  {
    SliceMore(out, t, cursor, at, at + |needle|);
  }

  lemma TurnSwapped(
      total: string, out: string, cursor: nat, u: seq<Cell>, t: string, at: nat, needle: string, note: string)
    requires needle != [] && Chars(u) == t && cursor <= at && Matches(t, at, needle)
    requires Written(total, out + t[cursor..at], u, at, needle, note) && !u[at].code
    ensures Written(total, out + t[cursor..at] + note + t[at + |needle|..at + |needle|], u, at + |needle|, needle, note)
  {
    WriteMatch(total, out + t[cursor..at], u, t, at, needle, note);
    assert out + t[cursor..at] + note + t[at + |needle|..at + |needle|] == out + t[cursor..at] + note;
  }

  lemma TurnMissed(
      total: string, out: string, cursor: nat, u: seq<Cell>, t: string, at: nat, needle: string, note: string)
    requires needle != [] && Chars(u) == t && cursor <= at < |t| && !Matches(t, at, needle)
    requires Written(total, out + t[cursor..at], u, at, needle, note)
    ensures Written(total, out + t[cursor..at + 1], u, at + 1, needle, note)
  {
    WriteMiss(total, out + t[cursor..at], u, t, at, needle, note);
    SliceMore(out, t, cursor, at, at + 1);
    assert [t[at]] == t[at..at + 1];
  }

  lemma WriteStarts(u: seq<Cell>, needle: string, note: string)
    requires needle != []
    ensures Written(Chars(Swap(u, needle, note)), "", u, 0, needle, note)
  {
    assert u[0..] == u;
    assert "" + Chars(Swap(u, needle, note)) == Chars(Swap(u, needle, note));
  }

  lemma WriteEnds(total: string, written: string, u: seq<Cell>, needle: string, note: string)
    requires needle != [] && Written(total, written, u, |u|, needle, note)
    ensures total == written
  {
    assert u[|u|..] == [];
  }

  method AnyHas(ranges: seq<Range>, p: nat) returns (has: bool)
    ensures has <==> Covered(ranges, p)
  {
    has := Holder(ranges, p).Some?;
  }

  /** One turn of the loop: a match outside code is replaced, anything else waits to be copied. */
  method Turn(t: string, ghost u: seq<Cell>, ranges: seq<Range>, needle: string, replacement: string,
              ghost total: string, out: string, cursor: nat, at: nat) returns (out': string, cursor': nat, at': nat)
    requires Chars(u) == t && needle != [] && cursor <= at < |t|
    requires forall p :: 0 <= p < |t| ==> (Covered(ranges, p) <==> u[p].code)
    requires Written(total, out + t[cursor..at], u, at, needle, replacement)
    ensures cursor' <= at' <= |t| && at < at' && Written(total, out' + t[cursor'..at'], u, at', needle, replacement)
  {
    if !Matches(t, at, needle) {
      TurnMissed(total, out, cursor, u, t, at, needle, replacement);
      return out, cursor, at + 1;
    }
    var literal := AnyHas(ranges, at);
    if literal {
      TurnKept(total, out, cursor, u, t, at, needle, replacement);
      return out, cursor, at + |needle|;
    }
    TurnSwapped(total, out, cursor, u, t, at, needle, replacement);
    return out + t[cursor..at] + replacement, at + |needle|, at + |needle|;
  }

  /** The loop over the matches, given the code ranges. */
  method ReplaceMatches(t: string, ghost u: seq<Cell>, ranges: seq<Range>, needle: string, replacement: string)
      returns (out: string)
    requires Chars(u) == t && needle != []
    requires forall p :: 0 <= p < |t| ==> (Covered(ranges, p) <==> u[p].code)
    ensures out == Chars(Swap(u, needle, replacement))
  {
    out := [];
    var cursor, at := 0, 0;
    ghost var total := Chars(Swap(u, needle, replacement));
    WriteStarts(u, needle, replacement);
    assert out + t[cursor..at] == "";
    while at < |t|
      invariant 0 <= cursor <= at <= |t|
      invariant Written(total, out + t[cursor..at], u, at, needle, replacement)
      decreases |t| - at
    {
      out, cursor, at := Turn(t, u, ranges, needle, replacement, total, out, cursor, at);
    }
    assert t[cursor..] == t[cursor..at];
    WriteEnds(total, out + t[cursor..], u, needle, replacement);
    out := out + t[cursor..];
  }

  /** `replace_citation`. */
  method ReplaceCitation(markdown: string, id: string, replacement: string) returns (out: string)
    ensures out == Replaced(markdown, id, replacement)
  {
    var ranges := CodeRanges.CodeRanges(markdown);
    assert Chars(Marked(markdown)) == markdown;
    out := ReplaceMatches(markdown, Marked(markdown), ranges, Token(id), replacement);
  }

  function Set(ids: seq<string>): set<string> {
    set id | id in ids
  }

  /** The citations of one section, replaced id by id in the order in which the map yields them. The
      result depends on the set of ids only, and the code of the section is kept as it is. */
  method RenderSection(markdown: string, ids: seq<string>, numbers: Numbers) returns (rendered: string)
    requires Known(Set(ids), numbers)
    ensures rendered == Chars(AtOnce(Marked(markdown), Set(ids), numbers))
    ensures Literals(Marked(rendered)) == Literals(Marked(markdown))
  {
    rendered := markdown;
    assert ids[0..] == ids;
    for k := 0 to |ids|
      invariant AtOnce(Marked(rendered), Set(ids[k..]), numbers) == AtOnce(Marked(markdown), Set(ids), numbers)
      invariant Literals(Marked(rendered)) == Literals(Marked(markdown))
    {
      var id := ids[k];
      assert id in Set(ids);
      LabelIsTidy(numbers[id]);
      ReplacedKeepsCode(rendered, id, Label(numbers[id]));
      assert Set(ids[k..]) == Set(ids[k + 1..]) + {id};
      Merge(Marked(rendered), id, Set(ids[k + 1..]), numbers);
      rendered := ReplaceCitation(rendered, id, Label(numbers[id]));
    }
    assert Set(ids[|ids|..]) == {};
    NothingLive(Marked(rendered), numbers);
    MarkedIsHonest(rendered);
  }
}
