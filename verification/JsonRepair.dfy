/** Repair of what models break inside JSON strings: quotes that close nothing, raw control
    characters, and backslashes that start no escape. */
module JsonRepair {
  import opened Characters
  import opened Options

  /** The first character that is not white space. */
  function First(s: string): Option<char> {
    if s == "" then None else if White(s[0]) then First(s[1..]) else Some(s[0])
  }

  /** What follows that character. */
  function Rest(s: string): (r: string)
    ensures s != "" ==> |r| < |s|
  {
    if s == "" then "" else if White(s[0]) then Rest(s[1..]) else s[1..]
  }

  predicate Closer(c: Option<char>) {
    c == Some('}') || c == Some(']')
  }

  /** The first character that is neither white space nor a closing bracket. */
  function AfterClosers(s: string): Option<char>
    decreases |s|
  {
    if Closer(First(s)) then AfterClosers(Rest(s)) else First(s)
  }

  predicate StartsValue(c: Option<char>) {
    c.Some? && (c.value in {'"', '{', '[', '-', 't', 'f', 'n'} || Digit(c.value))
  }

  /** Whether a double quote followed by `rest` ends a string. */
  predicate ClosesString(rest: string) {
    match First(rest)
    case None => true
    case Some(c) =>
      if c == ':' then StartsValue(First(Rest(rest)))
      else if c == ',' then First(Rest(rest)).Some? && First(Rest(rest)).value in {'"', '{', '['}
      else if c == '}' || c == ']' then AfterClosers(Rest(rest)) == None || AfterClosers(Rest(rest)) == Some(',')
      else false
  }

  /** From the `u` of an escape on: a `u` and four hexadecimal digits. */
  predicate HexEscape(s: string) {
    |s| >= 5 && s[0] == 'u' && HexDigit(s[1]) && HexDigit(s[2]) && HexDigit(s[3]) && HexDigit(s[4])
  }

  predicate StartsEscape(c: char) {
    c in {'"', '\\', '/', 'b', 'f', 'n', 'r', 't', 'u'}
  }

  /** `s`, from a backslash on, starts a valid escape. */
  predicate ValidEscape(s: string) {
    |s| >= 2 && StartsEscape(s[1]) && (s[1] == 'u' ==> HexEscape(s[1..]))
  }

  function HexChar(n: nat): char
    requires n < 16
  {
    if n < 10 then '0' + n as char else 'a' + (n - 10) as char
  }

  /** What a raw control character becomes. */
  function Escaped(c: char): string
    requires c as int < 0x20
  {
    if c == '\n' then "\\n" else if c == '\r' then "\\r" else if c == '\t' then "\\t"
    else ['\\', 'u', '0', '0', HexChar(c as int / 16), HexChar(c as int % 16)]
  }

  /** How many characters the scanner consumes at once. */
  function Step(s: string, quoted: bool): (n: nat)
    requires s != ""
    ensures 1 <= n <= |s|
  {
    if quoted && s[0] == '\\' && ValidEscape(s) then 2 else 1
  }

  /** What it writes for them. */
  function Emit(s: string, quoted: bool): string
    requires s != ""
  {
    if !quoted then [s[0]]
    else if s[0] == '\\' then (if ValidEscape(s) then s[..2] else "\\\\")
    else if s[0] == '"' then (if ClosesString(s[1..]) then "\"" else "\\\"")
    else if s[0] as int < 0x20 then Escaped(s[0])
    else [s[0]]
  }

  /** Whether it is inside a string afterwards. */
  predicate Inside(s: string, quoted: bool)
    requires s != ""
  {
    if !quoted then s[0] == '"' else s[0] != '"' || !ClosesString(s[1..])
  }

  function Fix(s: string, quoted: bool): string
    decreases |s|
  {
    if s == "" then "" else Emit(s, quoted) + Fix(s[Step(s, quoted)..], Inside(s, quoted))
  }

  /** Nothing in `s` needs repair. */
  predicate Clean(s: string, quoted: bool)
    decreases |s|
  {
    s == "" || (Emit(s, quoted) == s[..Step(s, quoted)] && Clean(s[Step(s, quoted)..], Inside(s, quoted)))
  }

  lemma {:induction false} CleanStays(s: string, quoted: bool)
    requires Clean(s, quoted)
    ensures Fix(s, quoted) == s
    decreases |s|
  {
    if s != "" {
      CleanStays(s[Step(s, quoted)..], Inside(s, quoted));
      assert s == s[..Step(s, quoted)] + s[Step(s, quoted)..];
    }
  }

  /** One turn of the scanner. */
  lemma FixStep(out: string, s: string, quoted: bool)
    requires s != ""
    ensures out + Fix(s, quoted) == out + Emit(s, quoted) + Fix(s[Step(s, quoted)..], Inside(s, quoted))
  {}

  /** The scanner: repaired text, or nothing when no repair was needed. */
  method Repair(text: string) returns (repaired: Option<string>)
    ensures repaired == if Clean(text, false) then None else Some(Fix(text, false))
  {
    var out, changed, quoted, i := "", false, false, 0;
    while i < |text|
      invariant 0 <= i <= |text|
      invariant out + Fix(text[i..], quoted) == Fix(text, false)
      invariant (!changed && Clean(text[i..], quoted)) <==> Clean(text, false)
    {
      FixStep(out, text[i..], quoted);
      var piece, broken, step, inside := Turn(text, i, quoted);
      out, changed, quoted := out + piece, changed || broken, inside;
      assert text[i..][step..] == text[i + step..];
      i := i + step;
    }
    assert text[i..] == "" && out + "" == out;
    repaired := if changed then Some(out) else None;
  }

  /** The body of the scanner's loop: what it writes, whether that is a repair, how far it moves and
      whether it is inside a string afterwards. */
  method Turn(text: string, i: nat, quoted: bool) returns (piece: string, broken: bool, step: nat, inside: bool)
    requires i < |text|
    ensures piece == Emit(text[i..], quoted) && step == Step(text[i..], quoted) && inside == Inside(text[i..], quoted)
    ensures broken <==> piece != text[i..][..step]
  {
    var ch := text[i];
    ghost var s := text[i..];
    assert s[1..] == text[i + 1..] && s[..1] == [ch];
    piece, broken, step, inside := [ch], false, 1, quoted;
    if !quoted {
      inside := ch == '"';
    } else if ch == '\\' {
      if i + 1 < |text| && text[i + 1] == 'u' && !HexEscape(text[i + 1..]) {
        piece, broken := "\\\\", true;
      } else if i + 1 < |text| && StartsEscape(text[i + 1]) {
        assert s[1] == text[i + 1] && s[..2] == [ch, text[i + 1]];
        piece, step := [ch, text[i + 1]], 2;
      } else {
        piece, broken := "\\\\", true;
      }
    } else if ch == '"' {
      if ClosesString(text[i + 1..]) {
        inside := false;
      } else {
        piece, broken := "\\\"", true;
      }
    } else if ch as int < 0x20 {
      piece, broken := Escaped(ch), true;
      assert |piece| >= 2;
    }
  }

  // ----- repairing twice -----

  /** Outside strings the text is copied up to and including the next quote. */
  lemma {:induction false} FirstFix(s: string)
    ensures First(Fix(s, false)) == First(s)
    ensures First(s).Some? && First(s) != Some('"') ==> Rest(Fix(s, false)) == Fix(Rest(s), false)
    decreases |s|
  {
    if s != "" {
      var f := Fix(s[1..], s[0] == '"');
      assert Fix(s, false) == [s[0]] + f && ([s[0]] + f)[1..] == f;
      if White(s[0]) { FirstFix(s[1..]); }
    }
  }

  lemma {:induction false} ClosersFix(s: string)
    ensures AfterClosers(Fix(s, false)) == AfterClosers(s)
    decreases |s|
  {
    FirstFix(s);
    if Closer(First(s)) { ClosersFix(Rest(s)); }
  }

  lemma ClosesFix(s: string)
    ensures ClosesString(Fix(s, false)) == ClosesString(s)
  {
    FirstFix(s);
    if First(s).Some? && First(s) != Some('"') {
      FirstFix(Rest(s));
      ClosersFix(Rest(s));
    }
  }

  lemma {:induction false} HexFix(s: string, n: nat)
    requires n <= |s| && forall i :: 0 <= i < n ==> HexDigit(s[i])
    ensures |Fix(s, true)| >= n && Fix(s, true)[..n] == s[..n]
    decreases n
  {
    if n > 0 {
      HexFix(s[1..], n - 1);
      var f := Fix(s[1..], true);
      assert Fix(s, true) == [s[0]] + f;
      assert ([s[0]] + f)[..n] == [s[0]] + f[..n - 1];
      assert s[..n] == [s[0]] + s[1..][..n - 1];
    }
  }

  lemma CleanEscape(e: char, tail: string)
    requires StartsEscape(e) && e != 'u' && Clean(tail, true)
    ensures Clean(['\\', e] + tail, true)
  {
    var t := ['\\', e] + tail;
    assert t[1..][0] == e && t[2..] == tail && t[..2] == ['\\', e];
  }

  lemma CleanCode(a: char, b: char, c: char, d: char, tail: string)
    requires HexDigit(a) && HexDigit(b) && HexDigit(c) && HexDigit(d) && Clean([a, b, c, d] + tail, true)
    ensures Clean(['\\', 'u', a, b, c, d] + tail, true)
  {
    var t := ['\\', 'u', a, b, c, d] + tail;
    assert t[1..] == ['u', a, b, c, d] + tail && t[2..] == [a, b, c, d] + tail && t[..2] == ['\\', 'u'];
  }

  lemma CleanPlain(c: char, tail: string)
    requires c != '\\' && c != '"' && c as int >= 0x20 && Clean(tail, true)
    ensures Clean([c] + tail, true)
  {
    assert ([c] + tail)[1..] == tail && ([c] + tail)[..1] == [c];
  }

  lemma {:induction false} CleanRun(w: string, tail: string)
    requires Clean(tail, true) && forall i :: 0 <= i < |w| ==> HexDigit(w[i])
    ensures Clean(w + tail, true)
  {
    if w == "" {
      assert w + tail == tail;
    } else {
      CleanRun(w[1..], tail);
      CleanPlain(w[0], w[1..] + tail);
      assert [w[0]] + (w[1..] + tail) == w + tail;
    }
  }

  lemma CleanControl(c: char, tail: string)
    requires c as int < 0x20 && Clean(tail, true)
    ensures Clean(Escaped(c) + tail, true)
  {
    if c == '\n' || c == '\r' || c == '\t' {
      CleanEscape(Escaped(c)[1], tail);
    } else {
      var h, l := HexChar(c as int / 16), HexChar(c as int % 16);
      CleanRun(['0', '0', h, l], tail);
      CleanCode('0', '0', h, l, tail);
    }
  }

  /** A backslash and what belongs to it. */
  lemma EscapeIsClean(s: string, tail: string)
    requires s != "" && s[0] == '\\' && tail == Fix(s[Step(s, true)..], Inside(s, true))
    requires Clean(tail, Inside(s, true))
    ensures Clean(Fix(s, true), true)
  {
    if !ValidEscape(s) {
      CleanEscape('\\', tail);
      assert Fix(s, true) == ['\\', '\\'] + tail;
    } else if s[1] == 'u' {
      HexFix(s[2..], 4);
      assert tail[..4] == s[2..][..4] == [s[2], s[3], s[4], s[5]];
      assert tail == [s[2], s[3], s[4], s[5]] + tail[4..];
      CleanCode(s[2], s[3], s[4], s[5], tail[4..]);
      assert Fix(s, true) == ['\\', 'u'] + tail == ['\\', 'u', s[2], s[3], s[4], s[5]] + tail[4..];
    } else {
      CleanEscape(s[1], tail);
      assert Fix(s, true) == ['\\', s[1]] + tail;
    }
  }

  /** A quote, which closes the string or is escaped. */
  lemma QuoteIsClean(s: string, tail: string)
    requires s != "" && s[0] == '"' && tail == Fix(s[1..], Inside(s, true)) && Step(s, true) == 1
    requires Clean(tail, Inside(s, true))
    ensures Clean(Fix(s, true), true)
  {
    if ClosesString(s[1..]) {
      ClosesFix(s[1..]);
      assert (['"'] + tail)[1..] == tail && (['"'] + tail)[..1] == ['"'];
    } else {
      CleanEscape('"', tail);
      assert Fix(s, true) == ['\\', '"'] + tail;
    }
  }

  /** A repaired text needs no repair. */
  lemma {:induction false} FixedIsClean(s: string, quoted: bool)
    ensures Clean(Fix(s, quoted), quoted)
    decreases |s|
  {
    if s != "" {
      var step := Step(s, quoted);
      var tail := Fix(s[step..], Inside(s, quoted));
      FixedIsClean(s[step..], Inside(s, quoted));
      if !quoted {
        assert ([s[0]] + tail)[1..] == tail && ([s[0]] + tail)[..1] == [s[0]];
      } else if s[0] == '\\' {
        EscapeIsClean(s, tail);
      } else if s[0] == '"' {
        QuoteIsClean(s, tail);
      } else if s[0] as int < 0x20 {
        CleanControl(s[0], tail);
      } else {
        CleanPlain(s[0], tail);
      }
    }
  }

  /** Repairing a repaired text reports no change. */
  method RepairTwice(text: string) returns (once: Option<string>, twice: Option<string>)
    ensures once == if Clean(text, false) then None else Some(Fix(text, false))
    ensures twice == None
  {
    once := Repair(text);
    twice := None;
    if once.Some? {
      FixedIsClean(text, false);
      twice := Repair(once.value);
    }
  }
}
