/** JSON texts as the grammar of sections 2 to 7 of RFC 8259 generates them, white space included, and
    which of them the string repair leaves alone. */
module JsonText {
  import opened Characters
  import opened Options
  import opened JsonRepair

  /** An exponent: the letter, an optional sign and the digits. */
  datatype Exponent = Exponent(letter: char, sign: string, digits: string)

  datatype Scalar =
    | True
    | False
    | Null
    | Number(minus: bool, whole: string, frac: Option<string>, exp: Option<Exponent>)

  /** One character of a string as it is written. */
  datatype Piece = Raw(c: char) | Short(c: char) | Code(a: char, b: char, c': char, d: char)

  datatype Value =
    | Plain(scalar: Scalar)
    | Str(body: seq<Piece>)
    | Array(elements: Items)
    | Object(members: Items)

  /** The inside of an array or object; `Blank` is an empty one. */
  datatype Items = Blank(space: string) | Last(item: Item) | More(item: Item, rest: Items)

  /** An element, or a member with its name; white space may stand around every token. */
  datatype Item = Item(before: string, name: Option<Name>, value: Value, after: string)

  datatype Name = Name(body: seq<Piece>, after: string, gap: string)

  // ----- well-formedness -----

  predicate IsBlank(s: string) {
    forall i :: 0 <= i < |s| ==> s[i] in {' ', '\t', '\n', '\r'}
  }

  predicate Digits(s: string) {
    s != "" && forall i :: 0 <= i < |s| ==> Digit(s[i])
  }

  predicate ValidScalar(v: Scalar) {
    v.Number? ==>
      && Digits(v.whole) && (|v.whole| > 1 ==> v.whole[0] != '0')
      && (v.frac.Some? ==> Digits(v.frac.value))
      && (v.exp.Some? ==> v.exp.value.letter in {'e', 'E'} && v.exp.value.sign in {"", "+", "-"})
      && (v.exp.Some? ==> Digits(v.exp.value.digits))
  }

  predicate ValidPiece(p: Piece) {
    match p
    case Raw(c) => c as int >= 0x20 && c != '"' && c != '\\'
    case Short(c) => StartsEscape(c) && c != 'u'
    case Code(a, b, c, d) => HexDigit(a) && HexDigit(b) && HexDigit(c) && HexDigit(d)
  }

  predicate ValidBody(b: seq<Piece>) {
    forall i :: 0 <= i < |b| ==> ValidPiece(b[i])
  }

  predicate Valid(v: Value) {
    match v
    case Plain(s) => ValidScalar(s)
    case Str(b) => ValidBody(b)
    case Array(e) => ValidItems(e, false)
    case Object(m) => ValidItems(m, true)
  }

  predicate ValidItems(i: Items, named: bool) {
    match i
    case Blank(space) => IsBlank(space)
    case Last(item) => ValidItem(item, named)
    case More(item, rest) => ValidItem(item, named) && !rest.Blank? && ValidItems(rest, named)
  }

  predicate ValidItem(i: Item, named: bool) {
    && IsBlank(i.before) && IsBlank(i.after) && Valid(i.value)
    && i.name.Some? == named
    && (i.name.Some? ==> ValidBody(i.name.value.body) && IsBlank(i.name.value.after) && IsBlank(i.name.value.gap))
  }

  // ----- writing -----

  function WriteScalar(v: Scalar): string {
    match v
    case True => "true"
    case False => "false"
    case Null => "null"
    case Number(minus, whole, frac, exp) =>
      (if minus then "-" else "") + whole
      + (if frac.Some? then "." + frac.value else "")
      + (if exp.Some? then [exp.value.letter] + exp.value.sign + exp.value.digits else "")
  }

  function WritePiece(p: Piece): string {
    match p
    case Raw(c) => [c]
    case Short(c) => ['\\', c]
    case Code(a, b, c, d) => ['\\', 'u', a, b, c, d]
  }

  function WriteBody(b: seq<Piece>): string {
    if b == [] then "" else WritePiece(b[0]) + WriteBody(b[1..])
  }

  /** A value followed by `k`. */
  function Write(v: Value, k: string): string
    decreases v
  {
    match v
    case Plain(s) => WriteScalar(s) + k
    case Str(b) => "\"" + (WriteBody(b) + ("\"" + k))
    case Array(e) => "[" + WriteItems(e, "]" + k)
    case Object(m) => "{" + WriteItems(m, "}" + k)
  }

  function WriteItems(i: Items, k: string): string
    decreases i
  {
    match i
    case Blank(space) => space + k
    case Last(item) => WriteItem(item, k)
    case More(item, rest) => WriteItem(item, "," + WriteItems(rest, k))
  }

  function WriteItem(i: Item, k: string): string
    decreases i
  {
    var tail := Write(i.value, i.after + k);
    if i.name.None? then i.before + tail
    else
      var n := i.name.value;
      i.before + ("\"" + (WriteBody(n.body) + ("\"" + (n.after + (":" + (n.gap + tail))))))
  }

  // ----- which texts the repair leaves alone -----

  /** No array has a string directly followed by a number, `true`, `false` or `null`. */
  predicate Fine(v: Value) {
    match v
    case Plain(_) => true
    case Str(_) => true
    case Array(e) => FineItems(e)
    case Object(m) => FineItems(m)
  }

  predicate FineItems(i: Items) {
    match i
    case Blank(_) => true
    case Last(item) => Fine(item.value)
    case More(item, rest) =>
      Fine(item.value) && FineItems(rest)
      && !(item.value.Str? && !rest.Blank? && rest.item.name.None? && rest.item.value.Plain?)
  }

  /** After the closing brackets that start `k`, if any, comes a comma or nothing. */
  predicate Ends(k: string) {
    AfterClosers(k) == None || AfterClosers(k) == Some(',')
  }

  lemma {:induction false} BlankFirst(b: string, k: string)
    requires IsBlank(b)
    ensures First(b + k) == First(k)
    ensures First(k).Some? ==> Rest(b + k) == Rest(k)
  {
    if b == "" {
      assert b + k == k;
    } else {
      assert (b + k)[1..] == b[1..] + k;
      BlankFirst(b[1..], k);
    }
  }

  lemma BlankEnds(b: string, k: string)
    requires IsBlank(b)
    ensures AfterClosers(b + k) == AfterClosers(k)
  {
    BlankFirst(b, k);
  }

  /** Text without a quote is copied outside strings. */
  lemma {:induction false} QuietClean(q: string, k: string)
    requires '"' !in q
    ensures Clean(q + k, false) <==> Clean(k, false)
  {
    if q == "" {
      assert q + k == k;
    } else {
      assert (q + k)[1..] == q[1..] + k && (q + k)[..1] == [q[0]];
      assert q[0] in q;
      QuietClean(q[1..], k);
    }
  }

  lemma PlainClean(c: char, k: string)
    requires c != '\\' && c != '"' && c as int >= 0x20
    ensures Clean([c] + k, true) <==> Clean(k, true)
  {
    assert ([c] + k)[1..] == k && ([c] + k)[..1] == [c];
  }

  lemma PieceClean(p: Piece, k: string)
    requires ValidPiece(p)
    ensures Clean(WritePiece(p) + k, true) <==> Clean(k, true)
  {
    var t := WritePiece(p) + k;
    match p {
      case Raw(c) => PlainClean(c, k);
      case Short(c) => assert t[1..][0] == c && t[2..] == k && t[..2] == ['\\', c];
      case Code(a, b, c, d) =>
        assert t[1..] == ['u', a, b, c, d] + k && t[2..] == [a] + ([b] + ([c] + ([d] + k))) && t[..2] == ['\\', 'u'];
        PlainClean(a, [b] + ([c] + ([d] + k)));
        PlainClean(b, [c] + ([d] + k));
        PlainClean(c, [d] + k);
        PlainClean(d, k);
    }
  }

  lemma {:induction false} BodyClean(b: seq<Piece>, k: string)
    requires ValidBody(b)
    ensures Clean(WriteBody(b) + ("\"" + k), true) <==> ClosesString(k) && Clean(k, false)
  {
    if b == [] {
      var t := "\"" + k;
      assert WriteBody(b) + t == t && t[1..] == k && t[..1] == "\"";
    } else {
      BodyClean(b[1..], k);
      PieceClean(b[0], WriteBody(b[1..]) + ("\"" + k));
      assert WriteBody(b) + ("\"" + k) == WritePiece(b[0]) + (WriteBody(b[1..]) + ("\"" + k));
    }
  }

  lemma StringClean(b: seq<Piece>, k: string)
    requires ValidBody(b)
    ensures Clean("\"" + (WriteBody(b) + ("\"" + k)), false) <==> ClosesString(k) && Clean(k, false)
  {
    var inner := WriteBody(b) + ("\"" + k);
    assert ("\"" + inner)[1..] == inner && ("\"" + inner)[..1] == "\"";
    BodyClean(b, k);
  }

  lemma DigitsQuiet(s: string)
    requires Digits(s)
    ensures '"' !in s
  {}

  lemma ScalarText(v: Scalar)
    requires ValidScalar(v)
    ensures '"' !in WriteScalar(v) && WriteScalar(v) != ""
    ensures var c := WriteScalar(v)[0]; !White(c) && c !in {'"', '{', '['} && StartsValue(Some(c))
  {
    if v.Number? {
      DigitsQuiet(v.whole);
      if v.frac.Some? { DigitsQuiet(v.frac.value); }
      if v.exp.Some? { DigitsQuiet(v.exp.value.digits); }
      assert Digit(v.whole[0]);
      assert WriteScalar(v)[0] == if v.minus then '-' else v.whole[0];
    }
  }

  /** How a written value begins. */
  lemma ValueFirst(v: Value, k: string)
    requires Valid(v)
    ensures StartsValue(First(Write(v, k)))
    ensures First(Write(v, k)).value in {'"', '{', '['} <==> !v.Plain?
  {
    if v.Plain? { ScalarText(v.scalar); }
  }

  lemma ItemFirst(i: Item, named: bool, k: string)
    requires ValidItem(i, named)
    ensures First(WriteItem(i, k)).Some?
    ensures First(WriteItem(i, k)).value in {'"', '{', '['} <==> !(i.name.None? && i.value.Plain?)
  {
    var tail := Write(i.value, i.after + k);
    ValueFirst(i.value, i.after + k);
    if i.name.None? {
      BlankFirst(i.before, tail);
    } else {
      var n := i.name.value;
      BlankFirst(i.before, "\"" + (WriteBody(n.body) + ("\"" + (n.after + (":" + (n.gap + tail))))));
    }
  }

  lemma ItemsFirst(i: Items, named: bool, k: string)
    requires ValidItems(i, named) && !i.Blank?
    ensures First(WriteItems(i, k)).Some?
    ensures First(WriteItems(i, k)).value in {'"', '{', '['} <==> !(i.item.name.None? && i.item.value.Plain?)
  {
    match i {
      case Last(item) => ItemFirst(item, named, k);
      case More(item, rest) => ItemFirst(item, named, "," + WriteItems(rest, k));
    }
  }

  /** A name is always closed: a colon and the start of a value follow. */
  lemma NameCloses(n: Name, v: Value, k: string)
    requires IsBlank(n.after) && IsBlank(n.gap) && Valid(v)
    ensures ClosesString(n.after + (":" + (n.gap + Write(v, k))))
  {
    var after := n.gap + Write(v, k);
    BlankFirst(n.after, ":" + after);
    assert (":" + after)[1..] == after;
    BlankFirst(n.gap, Write(v, k));
    ValueFirst(v, k);
  }

  // ----- the theorem -----

  lemma {:induction false} ValueClean(v: Value, k: string)
    requires Valid(v) && Ends(k)
    ensures Clean(Write(v, k), false) <==> Fine(v) && Clean(k, false) && (v.Str? ==> ClosesString(k))
    decreases v
  {
    match v {
      case Plain(s) =>
        ScalarText(s);
        QuietClean(WriteScalar(s), k);
      case Str(b) => StringClean(b, k);
      case Array(e) =>
        QuietClean("[", WriteItems(e, "]" + k));
        ItemsClean(e, false, "]" + k, k);
      case Object(m) =>
        QuietClean("{", WriteItems(m, "}" + k));
        ItemsClean(m, true, "}" + k, k);
    }
  }

  /** A string before a closing bracket is closed. */
  lemma BracketCloses(after: string, close: string, k: string)
    requires IsBlank(after) && Ends(k) && (close == "]" + k || close == "}" + k)
    ensures ClosesString(after + close) && Ends(close)
    ensures Clean(close, false) <==> Clean(k, false)
  {
    assert close[1..] == k && close[..1] == [close[0]];
    BlankFirst(after, close);
  }

  /** A string before a comma is closed when a quote or an opening bracket follows. */
  lemma CommaCloses(after: string, next: string)
    requires IsBlank(after)
    ensures Ends("," + next)
    ensures Clean("," + next, false) <==> Clean(next, false)
    ensures ClosesString(after + ("," + next)) <==> First(next).Some? && First(next).value in {'"', '{', '['}
  {
    var k := "," + next;
    assert k[1..] == next && k[..1] == ",";
    BlankFirst(after, k);
  }

  /** `close` is the closing bracket and what follows it. */
  lemma {:induction false} ItemsClean(i: Items, named: bool, close: string, k: string)
    requires ValidItems(i, named) && Ends(k) && (close == "]" + k || close == "}" + k)
    ensures Clean(WriteItems(i, close), false) <==> FineItems(i) && Clean(k, false)
    decreases i
  {
    match i {
      case Blank(space) =>
        assert '"' !in space;
        BracketCloses(space, close, k);
        QuietClean(space, close);
      case Last(item) =>
        BracketCloses(item.after, close, k);
        ItemClean(item, named, close);
      case More(item, rest) =>
        CommaCloses(item.after, WriteItems(rest, close));
        ItemsFirst(rest, named, close);
        ItemsClean(rest, named, close, k);
        ItemClean(item, named, "," + WriteItems(rest, close));
    }
  }

  lemma {:induction false} ItemClean(i: Item, named: bool, k: string)
    requires ValidItem(i, named) && Ends(k)
    ensures Clean(WriteItem(i, k), false)
      <==> Fine(i.value) && Clean(k, false) && (i.value.Str? ==> ClosesString(i.after + k))
    decreases i
  {
    var rest := i.after + k;
    BlankEnds(i.after, k);
    ValueClean(i.value, rest);
    assert '"' !in i.after && '"' !in i.before;
    QuietClean(i.after, k);
    var tail := Write(i.value, rest);
    if i.name.None? {
      QuietClean(i.before, tail);
    } else {
      var n := i.name.value;
      var colon := n.after + (":" + (n.gap + tail));
      assert '"' !in n.after && '"' !in n.gap;
      QuietClean(n.gap, tail);
      QuietClean(":", n.gap + tail);
      QuietClean(n.after, ":" + (n.gap + tail));
      NameCloses(n, i.value, rest);
      StringClean(n.body, colon);
      QuietClean(i.before, "\"" + (WriteBody(n.body) + ("\"" + colon)));
    }
  }

  /** A whole text: a value with white space around it. */
  function Text(before: string, v: Value, after: string): string {
    before + Write(v, after)
  }

  /** Repair reports no change for a valid JSON text exactly when no array in it has a string directly
      followed by a number, `true`, `false` or `null`. */
  lemma RepairLeavesJsonAlone(before: string, v: Value, after: string)
    requires Valid(v) && IsBlank(before) && IsBlank(after)
    ensures Clean(Text(before, v, after), false) <==> Fine(v)
  {
    BlankFirst(after, "");
    assert after + "" == after && '"' !in after && '"' !in before;
    QuietClean(after, "");
    ValueClean(v, after);
    QuietClean(before, Write(v, after));
  }

  /** The smallest text it breaks: `["",0]` becomes `["\",0]`, whose string never ends. */
  lemma StringBeforeNumberBreaks()
    ensures var zero := Item("", None, Plain(Number(false, "0", None, None)), "");
      var v := Array(More(Item("", None, Str([]), ""), Last(zero)));
      Valid(v) && !Clean(Text("", v, ""), false)
  {
    var v := Array(More(Item("", None, Str([]), ""), Last(Item("", None, Plain(Number(false, "0", None, None)), ""))));
    RepairLeavesJsonAlone("", v, "");
  }
}
