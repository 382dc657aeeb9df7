/** What the strings of a text say, and that repairing the text does not change it. The decoder follows section 7 of
    RFC 8259 and knows nothing of repairs. */
module JsonMeaning {
  import opened Characters
  import opened Options
  import opened JsonRepair

  /** A piece of a text: a character outside strings, a quote around one, or what stands in one. */
  datatype Unit = Outside(c: char) | Quote | Says(code: nat)

  /** The value of a hexadecimal digit. */
  function HexValue(c: char): (v: nat)
    requires HexDigit(c)
    ensures v < 16
  {
    if c <= '9' then c as int - '0' as int
    else if c >= 'a' then c as int - 'a' as int + 10
    else c as int - 'A' as int + 10
  }

  /** The code unit that four hexadecimal digits spell. */
  function CodeOf(a: char, b: char, c: char, d: char): nat
    requires HexDigit(a) && HexDigit(b) && HexDigit(c) && HexDigit(d)
  {
    0x1000 * HexValue(a) + 0x100 * HexValue(b) + 0x10 * HexValue(c) + HexValue(d)
  }

  /** What the two-character escapes stand for. */
  function ShortEscape(c: char): Option<nat> {
    if c == '"' then Some(0x22)
    else if c == '\\' then Some(0x5C)
    else if c == '/' then Some(0x2F)
    else if c == 'b' then Some(0x08)
    else if c == 'f' then Some(0x0C)
    else if c == 'n' then Some(0x0A)
    else if c == 'r' then Some(0x0D)
    else if c == 't' then Some(0x09)
    else None
  }

  /** The escape at the start of `s`: what it stands for, and how long it is. */
  function EscapeAt(s: string): (r: Option<(nat, nat)>)
    ensures r.Some? ==> 2 <= r.value.1 <= |s|
  {
    if |s| < 2 || s[0] != '\\' then None
    else if s[1] == 'u' then
      if |s| >= 6 && HexDigit(s[2]) && HexDigit(s[3]) && HexDigit(s[4]) && HexDigit(s[5])
      then Some((CodeOf(s[2], s[3], s[4], s[5]), 6)) else None
    else if ShortEscape(s[1]).Some? then Some((ShortEscape(s[1]).value, 2))
    else None
  }

  // ----- the decoder -----

  function Ahead(u: Unit, rest: Option<seq<Unit>>): Option<seq<Unit>> {
    if rest.Some? then Some([u] + rest.value) else None
  }

  /** A text read as JSON readers do: the next quote closes a string, every backslash starts an escape, and control
      characters do not stand in strings. */
  function Decode(s: string, quoted: bool): Option<seq<Unit>>
    decreases |s|
  {
    if s == "" then Some([])
    else if s[0] == '"' then Ahead(Quote, Decode(s[1..], !quoted))
    else if !quoted then Ahead(Outside(s[0]), Decode(s[1..], false))
    else if s[0] == '\\' then
      if EscapeAt(s).Some? then Ahead(Says(EscapeAt(s).value.0), Decode(s[EscapeAt(s).value.1..], true)) else None
    else if s[0] as int < 0x20 then None
    else Ahead(Says(s[0] as int), Decode(s[1..], true))
  }

  /** What a text that may need repair is meant to say: a quote that closes nothing is text, a backslash that starts no
      escape is one, and a raw control character stands for itself. */
  function Meant(s: string, quoted: bool): seq<Unit>
    decreases |s|
  {
    if s == "" then []
    else if !quoted then
      [if s[0] == '"' then Quote else Outside(s[0])] + Meant(s[1..], s[0] == '"')
    else if s[0] == '"' && ClosesString(s[1..]) then [Quote] + Meant(s[1..], false)
    else if EscapeAt(s).Some? then [Says(EscapeAt(s).value.0)] + Meant(s[EscapeAt(s).value.1..], true)
    else [Says(s[0] as int)] + Meant(s[1..], true)
  }

  // ----- the repair keeps the meaning -----

  lemma EscapeIsValid(s: string)
    requires s != "" && s[0] == '\\'
    ensures EscapeAt(s).Some? <==> ValidEscape(s)
  {
    if |s| >= 2 {
      assert forall i :: 0 <= i < |s| - 1 ==> s[1..][i] == s[i + 1];
    }
  }

  lemma DigitStays(s: string)
    requires s != "" && HexDigit(s[0])
    ensures Fix(s, true) == [s[0]] + Fix(s[1..], true)
  {}

  lemma OneInFront(s: string, n: nat, tail: string)
    requires 0 < n <= |s|
    ensures [s[0]] + (s[1..][..n - 1] + tail) == s[..n] + tail && s[1..][n - 1..] == s[n..]
  {}

  lemma {:induction false} HexesStay(s: string, n: nat)
    requires n <= |s| && forall i :: 0 <= i < n ==> HexDigit(s[i])
    ensures Fix(s, true) == s[..n] + Fix(s[n..], true)
    decreases n
  {
    if n == 0 {
      assert s[0..] == s && s[..0] == "";
    } else {
      HexesStay(s[1..], n - 1);
      DigitStays(s);
      OneInFront(s, n, Fix(s[n..], true));
    }
  }

  /** An escape that is valid in the broken text stays as it is. */
  lemma EscapeStays(s: string)
    requires s != "" && s[0] == '\\' && EscapeAt(s).Some?
    ensures var n := EscapeAt(s).value.1; Fix(s, true) == s[..n] + Fix(s[n..], true)
  {
    EscapeIsValid(s);
    assert Fix(s, true) == s[..2] + Fix(s[2..], true);
    if s[1] == 'u' {
      HexesStay(s[2..], 4);
      assert s[2..][4..] == s[6..] && s[..6] == s[..2] + s[2..][..4];
    }
  }

  /** An escape at the front does not depend on what follows it. */
  lemma EscapeAlone(e: string, n: nat, tail: string, rest: string)
    requires EscapeAt(e + tail).Some? && EscapeAt(e + tail).value.1 == n == |e|
    ensures EscapeAt(e + rest) == EscapeAt(e + tail) && (e + rest)[n..] == rest
  {
    assert forall i :: 0 <= i < n ==> (e + rest)[i] == e[i] == (e + tail)[i];
  }

  lemma DecodeEscape(s: string, rest: string)
    requires s != "" && s[0] == '\\' && EscapeAt(s).Some?
    ensures var n := EscapeAt(s).value.1;
      Decode(s[..n] + rest, true) == Ahead(Says(EscapeAt(s).value.0), Decode(rest, true))
  {
    var n := EscapeAt(s).value.1;
    assert s == s[..n] + s[n..];
    EscapeAlone(s[..n], n, s[n..], rest);
    assert (s[..n] + rest)[0] == '\\';
  }

  lemma DecodePlain(c: char, rest: string)
    requires c != '"' && c != '\\' && c as int >= 0x20
    ensures Decode([c] + rest, true) == Ahead(Says(c as int), Decode(rest, true))
  {
    assert ([c] + rest)[1..] == rest;
  }

  lemma DecodeShort(e: char, rest: string)
    requires ShortEscape(e).Some?
    ensures Decode(['\\', e] + rest, true) == Ahead(Says(ShortEscape(e).value), Decode(rest, true))
  {
    var s := ['\\', e] + rest;
    assert s[2..] == rest && s[1] == e;
  }

  lemma DecodeCode(a: char, b: char, c: char, d: char, rest: string)
    requires HexDigit(a) && HexDigit(b) && HexDigit(c) && HexDigit(d)
    ensures Decode(['\\', 'u', a, b, c, d] + rest, true) == Ahead(Says(CodeOf(a, b, c, d)), Decode(rest, true))
  {
    var s := ['\\', 'u', a, b, c, d] + rest;
    assert s[6..] == rest && s[1] == 'u' && s[2] == a && s[3] == b && s[4] == c && s[5] == d;
  }

  /** Whatever a raw control character becomes, it says that character. */
  lemma ControlSays(c: char, rest: string)
    requires c as int < 0x20
    ensures Decode(Escaped(c) + rest, true) == Ahead(Says(c as int), Decode(rest, true))
  {
    if c == '\n' {
      DecodeShort('n', rest);
    } else if c == '\r' {
      DecodeShort('r', rest);
    } else if c == '\t' {
      DecodeShort('t', rest);
    } else {
      var h, l := HexChar(c as int / 16), HexChar(c as int % 16);
      DecodeCode('0', '0', h, l, rest);
    }
  }

  lemma QuoteSays(rest: string)
    ensures Decode("\"" + rest, true) == Ahead(Quote, Decode(rest, false))
  {
    assert ("\"" + rest)[1..] == rest;
  }

  lemma OutsideSays(c: char, rest: string)
    ensures Decode([c] + rest, false) == Ahead(if c == '"' then Quote else Outside(c), Decode(rest, c == '"'))
  {
    assert ([c] + rest)[1..] == rest;
  }

  /** Reading the repaired text gives what the broken one was meant to say. */
  lemma {:induction false} RepairKeepsMeaning(s: string, quoted: bool)
    ensures Decode(Fix(s, quoted), quoted) == Some(Meant(s, quoted))
    decreases |s|
  {
    if s == "" {
    } else if !quoted {
      RepairKeepsMeaning(s[1..], s[0] == '"');
      OutsideSays(s[0], Fix(s[1..], s[0] == '"'));
    } else if s[0] == '\\' {
      BackslashKeepsMeaning(s);
    } else {
      RepairKeepsMeaning(s[1..], Inside(s, true));
      var rest := Fix(s[1..], Inside(s, true));
      if s[0] == '"' {
        if ClosesString(s[1..]) { QuoteSays(rest); } else { DecodeShort('"', rest); }
      } else if s[0] as int < 0x20 {
        ControlSays(s[0], rest);
      } else {
        DecodePlain(s[0], rest);
      }
    }
  }

  lemma BackslashKeepsMeaning(s: string)
    requires s != "" && s[0] == '\\'
    ensures Decode(Fix(s, true), true) == Some(Meant(s, true))
    decreases |s|, 0
  {
    EscapeIsValid(s);
    if EscapeAt(s).Some? {
      var n := EscapeAt(s).value.1;
      RepairKeepsMeaning(s[n..], true);
      EscapeStays(s);
      DecodeEscape(s, Fix(s[n..], true));
    } else {
      RepairKeepsMeaning(s[1..], true);
      DecodeShort('\\', Fix(s[1..], true));
    }
  }

  /** A text that reads as it stands says what it was meant to say, so that repair changes nothing of it. */
  method RepairAndRead(text: string) returns (repaired: Option<string>, units: seq<Unit>)
    ensures units == Meant(text, false)
    ensures Decode(if repaired.Some? then repaired.value else text, false) == Some(units)
  {
    repaired := Repair(text);
    RepairKeepsMeaning(text, false);
    if repaired.None? { CleanStays(text, false); }
    units := Meant(text, false);
  }

  // ----- which quotes close a string -----

  predicate Blank(s: string, i: nat, j: nat) {
    i <= j <= |s| && forall k :: i <= k < j ==> White(s[k])
  }

  /** `c` stands at `j`, and only white space between `i` and it. */
  predicate Next(s: string, i: nat, j: nat) {
    Blank(s, i, j) && j < |s| && !White(s[j])
  }

  predicate IsCloser(c: char) {
    c == '}' || c == ']'
  }

  /** Only white space and closing brackets between `i` and `j`. */
  predicate Closers(s: string, i: nat, j: nat) {
    i <= j <= |s| && forall k :: i <= k < j ==> White(s[k]) || IsCloser(s[k])
  }

  /** The first two visible characters stand at `i` and `j`. */
  predicate Two(s: string, i: nat, j: nat) {
    Next(s, 0, i) && Next(s, i + 1, j)
  }

  predicate ColonAndValue(s: string, i: nat, j: nat) {
    && Two(s, i, j) && s[i] == ':'
    && (s[j] == '"' || s[j] == '{' || s[j] == '[' || s[j] == '-' || s[j] == 't' || s[j] == 'f' || s[j] == 'n'
        || '0' <= s[j] <= '9')
  }

  predicate CommaAndBracket(s: string, i: nat, j: nat) {
    Two(s, i, j) && s[i] == ',' && (s[j] == '"' || s[j] == '{' || s[j] == '[')
  }

  predicate ClosersAndComma(s: string, i: nat, j: nat) {
    Next(s, 0, i) && IsCloser(s[i]) && Closers(s, i, j) && (j == |s| || s[j] == ',')
  }

  /** After the quote comes nothing but white space; or a colon and the start of a value; or a comma and the start of a
      string, object or array; or closing brackets, and then nothing or a comma. */
  ghost predicate Closing(s: string) {
    || Blank(s, 0, |s|)
    || (exists i: nat, j: nat :: ColonAndValue(s, i, j))
    || (exists i: nat, j: nat :: CommaAndBracket(s, i, j))
    || (exists i: nat, j: nat :: ClosersAndComma(s, i, j))
  }

  lemma {:induction false} FirstIs(s: string, i: nat)
    requires Next(s, 0, i)
    ensures First(s) == Some(s[i]) && Rest(s) == s[i + 1..]
  {
    if i > 0 {
      assert s[1..][i - 1] == s[i] && s[1..][i..] == s[i + 1..];
      assert forall k :: 0 <= k < i - 1 ==> s[1..][k] == s[k + 1];
      FirstIs(s[1..], i - 1);
    }
  }

  lemma {:induction false} FirstIsNone(s: string)
    requires Blank(s, 0, |s|)
    ensures First(s) == None
  {
    if s != "" {
      assert forall k :: 0 <= k < |s| - 1 ==> s[1..][k] == s[k + 1];
      FirstIsNone(s[1..]);
    }
  }

  /** Where the first character that is not white space stands. */
  lemma {:induction false} FindFirst(s: string) returns (i: nat)
    ensures i <= |s| && Blank(s, 0, i) && (i < |s| ==> Next(s, 0, i))
  {
    i := 0;
    while i < |s| && White(s[i])
      invariant i <= |s| && Blank(s, 0, i)
    {
      i := i + 1;
    }
  }

  lemma Shifted(s: string, i: nat, j: nat)
    requires i + j <= |s|
    ensures Blank(s[i..], 0, j) <==> Blank(s, i, i + j)
    ensures Closers(s[i..], 0, j) <==> Closers(s, i, i + j)
    ensures i + j < |s| ==> s[i..][j] == s[i + j]
  {
    assert forall k :: 0 <= k < |s| - i ==> s[i..][k] == s[i + k];
    assert forall k :: i <= k < |s| ==> s[k] == s[i..][k - i];
  }

  lemma {:induction false} AfterClosersAt(r: string, j: nat)
    requires Closers(r, 0, j) && (j < |r| ==> !White(r[j]) && !IsCloser(r[j]))
    ensures AfterClosers(r) == if j == |r| then None else Some(r[j])
    decreases |r|
  {
    var i := FindFirst(r);
    if i == |r| {
      FirstIsNone(r);
    } else {
      FirstIs(r, i);
      if i < j {
        var rest := r[i + 1..];
        assert Closers(r, i + 1, j);
        Shifted(r, i + 1, j - i - 1);
        AfterClosersAt(rest, j - i - 1);
      }
    }
  }

  /** How far white space and closing brackets reach. */
  lemma FindClosers(r: string) returns (j: nat)
    ensures Closers(r, 0, j) && (j < |r| ==> !White(r[j]) && !IsCloser(r[j]))
  {
    j := 0;
    while j < |r| && (White(r[j]) || IsCloser(r[j]))
      invariant Closers(r, 0, j)
    {
      j := j + 1;
    }
  }

  lemma SecondIs(s: string, i: nat) returns (j: nat)
    requires Next(s, 0, i)
    ensures j <= |s| - i - 1
    ensures if i + 1 + j < |s| then Two(s, i, i + 1 + j) && First(Rest(s)) == Some(s[i + 1 + j])
      else First(Rest(s)) == None
    ensures i + 1 + j == |s| ==> forall k: nat :: !Two(s, i, k)
  {
    FirstIs(s, i);
    var rest := s[i + 1..];
    j := FindFirst(rest);
    Shifted(s, i + 1, j);
    if j < |rest| { FirstIs(rest, j); } else { FirstIsNone(rest); }
  }

  lemma PairClosesExactly(s: string, i: nat)
    requires Next(s, 0, i) && (s[i] == ':' || s[i] == ',')
    ensures ClosesString(s) <==> Closing(s)
  {
    FirstIs(s, i);
    var j := SecondIs(s, i);
    var k := i + 1 + j;
    if ClosesString(s) { assert ColonAndValue(s, i, k) || CommaAndBracket(s, i, k); }
  }

  lemma ClosersEnd(s: string, i: nat) returns (j: nat)
    requires Next(s, 0, i) && IsCloser(s[i])
    ensures Closers(s, i, j) && i < j && (j < |s| ==> !White(s[j]) && !IsCloser(s[j]))
    ensures AfterClosers(s[i + 1..]) == if j == |s| then None else Some(s[j])
  {
    var k := FindClosers(s[i + 1..]);
    AfterClosersAt(s[i + 1..], k);
    Shifted(s, i + 1, k);
    j := i + 1 + k;
  }

  lemma ClosersCloseExactly(s: string, i: nat)
    requires Next(s, 0, i) && IsCloser(s[i])
    ensures ClosesString(s) <==> Closing(s)
  {
    FirstIs(s, i);
    var j := ClosersEnd(s, i);
    if ClosesString(s) { assert ClosersAndComma(s, i, j); }
  }

  /** A quote closes a string exactly if what follows it may follow a string, one step further than the next
      character. */
  lemma ClosesExactly(s: string)
    ensures ClosesString(s) <==> Closing(s)
  {
    var i := FindFirst(s);
    if i == |s| {
      FirstIsNone(s);
    } else if s[i] == ':' || s[i] == ',' {
      PairClosesExactly(s, i);
    } else if IsCloser(s[i]) {
      ClosersCloseExactly(s, i);
    } else {
      FirstIs(s, i);
    }
  }
}
