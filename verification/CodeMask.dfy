/** Which characters of a Markdown text are code: block rules line by line, then backtick spans. */
module CodeMask {
  import opened Characters
  import opened Options

  // ----- lines: the stretch from `i` to `e` of a text -----

  predicate Blank(t: string, i: nat, e: nat)
    requires e <= |t|
  {
    forall j :: i <= j < e ==> White(t[j])
  }

  /** Where the run of `k` that starts at `i` ends. */
  function RunEnd(t: string, i: nat, k: char): (j: nat)
    requires i <= |t|
    ensures i <= j <= |t|
    decreases |t| - i
  {
    if i < |t| && t[i] == k then RunEnd(t, i + 1, k) else i
  }

  function DigitsEnd(t: string, i: nat): (j: nat)
    requires i <= |t|
    ensures i <= j <= |t|
    decreases |t| - i
  {
    if i < |t| && '0' <= t[i] <= '9' then DigitsEnd(t, i + 1) else i
  }

  predicate Gap(t: string, i: nat, e: nat)
    requires e <= |t|
  {
    i < e && (t[i] == ' ' || t[i] == '\t')
  }

  /** A bullet or ordered list marker at `i`. */
  predicate ListMarker(t: string, i: nat, e: nat)
    requires i <= e <= |t|
  {
    if i == e then false
    else if t[i] == '-' || t[i] == '*' || t[i] == '+' then Gap(t, i + 1, e)
    else if '0' <= t[i] <= '9' then
      var j := DigitsEnd(t, i);
      j - i <= 9 && j < e && (t[j] == '.' || t[j] == ')') && Gap(t, j + 1, e)
    else false
  }

  /** Where the line that holds `i` ends, its line break included. */
  function LineEnd(t: string, i: nat): (e: nat)
    requires i < |t|
    ensures i < e <= |t|
    decreases |t| - i
  {
    if t[i] == '\n' || i + 1 == |t| then i + 1 else LineEnd(t, i + 1)
  }

  // ----- blocks -----

  datatype Marks = Marks(kind: char, size: nat)
  datatype Mode = Mode(fence: Option<Marks>, paragraph: bool, inList: bool)

  const START := Mode(None, false, false)

  /** The first character of the line that is no space. */
  function Text(t: string, i: nat): nat
    requires i <= |t|
  {
    RunEnd(t, i, ' ')
  }

  predicate Closes(t: string, i: nat, e: nat, f: Marks)
    requires i <= e <= |t|
  {
    var at := Text(t, i);
    at - i <= 3 && at < e && t[at] == f.kind && RunEnd(t, at, f.kind) - at >= f.size
      && Blank(t, RunEnd(t, at, f.kind), e)
  }

  predicate FenceAt(t: string, at: nat, e: nat)
    requires at <= |t| && e <= |t|
  {
    at < e && (t[at] == '`' || t[at] == '~') && RunEnd(t, at, t[at]) - at >= 3
    && (t[at] == '`' ==> forall j :: RunEnd(t, at, '`') <= j < e ==> t[j] != '`')
  }

  predicate Opens(t: string, i: nat, e: nat)
    requires i <= e <= |t|
  {
    Text(t, i) - i <= 3 && FenceAt(t, Text(t, i), e)
  }

  predicate Indented(t: string, i: nat, mode: Mode)
    requires i < |t|
  {
    (Text(t, i) - i >= 4 || t[i] == '\t') && !mode.paragraph && !mode.inList
  }

  predicate IsCode(mode: Mode, t: string, i: nat, e: nat)
    requires i < e <= |t|
  {
    mode.fence.Some? || Opens(t, i, e) || Indented(t, i, mode)
  }

  function After(mode: Mode, t: string, i: nat, e: nat): Mode
    requires i < e <= |t| && Text(t, i) <= e
  {
    var at := Text(t, i);
    if mode.fence.Some? then
      Mode(if Closes(t, i, e, mode.fence.value) then None else mode.fence, false, mode.inList)
    else if Opens(t, i, e) then
      Mode(Some(Marks(t[at], RunEnd(t, at, t[at]) - at)), false, mode.inList)
    else if Indented(t, i, mode) then mode
    else
      var inList := ListMarker(t, at, e) || (mode.inList && (Blank(t, i, e) || at > i));
      Mode(None, !Blank(t, i, e), inList)
  }

  lemma {:induction false} RunInLine(t: string, i: nat, k: char)
    requires i < |t| && k != '\n'
    ensures RunEnd(t, i, k) <= LineEnd(t, i)
    decreases |t| - i
  {
    if t[i] == k && i + 1 < |t| { RunInLine(t, i + 1, k); }
  }

  /** The mode in which the line behind the one at `i` is read. */
  function Next(mode: Mode, t: string, i: nat): Mode
    requires i < |t|
  {
    RunInLine(t, i, ' ');
    After(mode, t, i, LineEnd(t, i))
  }

  /** Reading from the line at `i` on: does `p` lie on a line of a code block? */
  predicate Flag(t: string, i: nat, mode: Mode, p: nat)
    requires i <= p < |t|
    decreases |t| - i
  {
    if p < LineEnd(t, i) then IsCode(mode, t, i, LineEnd(t, i)) else Flag(t, LineEnd(t, i), Next(mode, t, i), p)
  }

  /** The mode in which the line that holds `p` is read; at the end of the text, the last mode. */
  function ModeAt(t: string, i: nat, mode: Mode, p: nat): Mode
    requires i <= p <= |t|
    decreases |t| - i
  {
    if i == |t| || p < LineEnd(t, i) then mode else ModeAt(t, LineEnd(t, i), Next(mode, t, i), p)
  }

  /** One flag per character: does it lie on a line of a code block? */
  function Blocks(t: string): (b: seq<bool>)
    ensures |b| == |t| && forall p :: 0 <= p < |t| ==> b[p] == Flag(t, 0, START, p)
  {
    seq(|t|, p requires 0 <= p < |t| => Flag(t, 0, START, p))
  }

  // ----- spans -----

  /** Only blanks from `i` up to the next line break or the end of the text. */
  predicate BlankFrom(t: string, i: nat)
    decreases |t| - i
  {
    i >= |t| || t[i] == '\n' || ((t[i] == ' ' || t[i] == '\t' || t[i] == '\r') && BlankFrom(t, i + 1))
  }

  /** The search for the end of a span takes a run of backticks whole. */
  function Hop(t: string, i: nat): (j: nat)
    requires i < |t|
    ensures i < j <= |t|
  {
    if t[i] == '`' then RunEnd(t, i + 1, '`') else i + 1
  }

  /** Where the first backtick run of width `w` from `i` on ends, unless a block or a blank line comes first. */
  function Close(t: string, b: seq<bool>, i: nat, w: nat): (e: Option<nat>)
    requires |t| == |b| && i <= |t|
    ensures e.Some? ==> i < e.value <= |t|
    decreases |t| - i
  {
    if i == |t| || b[i] || (t[i] == '\n' && BlankFrom(t, i + 1)) then None
    else if t[i] == '`' && Hop(t, i) - i == w then Some(Hop(t, i))
    else Close(t, b, Hop(t, i), w)
  }

  /** The span that starts with the backtick run at `i`: where it ends. */
  function SpanAt(t: string, b: seq<bool>, i: nat): (e: Option<nat>)
    requires |t| == |b| && i < |t|
    ensures e.Some? ==> i < e.value <= |t|
  {
    if b[i] || t[i] != '`' then None else Close(t, b, Hop(t, i), Hop(t, i) - i)
  }

  /** Where one turn of the scan at `i` ends. */
  function Turn(t: string, b: seq<bool>, i: nat): (j: nat)
    requires |t| == |b| && i < |t|
    ensures i < j <= |t|
  {
    if SpanAt(t, b, i).Some? then SpanAt(t, b, i).value
    else if b[i] then i + 1
    else if t[i] == '\\' && i + 1 < |t| then i + 2
    else Hop(t, i)
  }

  /** The scan from `i` on finds position `p` to be code. */
  predicate Coded(t: string, b: seq<bool>, i: nat, p: nat)
    requires |t| == |b| && i <= p < |t|
    decreases |t| - i
  {
    if p < Turn(t, b, i) then b[p] || SpanAt(t, b, i).Some? else Coded(t, b, Turn(t, b, i), p)
  }

  /** Position `p` of the text lies in code. */
  predicate Code(t: string, p: nat)
    requires p < |t|
  {
    Coded(t, Blocks(t), 0, p)
  }

  // ----- two texts that differ in one citation -----

  /** The characters that may open, close or hide code anywhere on a line. */
  predicate Special(c: char) {
    c == '`' || c == '\\' || c == '\n'
  }

  /** A stretch of `n` characters at `k` without meaning to either scan. */
  predicate Plain(t: string, k: nat, n: nat) {
    n > 0 && k + n <= |t| && t[k] == '[' && forall i :: k <= i < k + n ==> !Special(t[i])
  }

  /** `t` and `t'` differ only in a citation at `k`. */
  predicate Pair(t: string, t': string, k: nat, n: nat, n': nat) {
    && Plain(t, k, n) && Plain(t', k, n') && |t'| == |t| - n + n'
    && (forall i :: 0 <= i < k ==> t'[i] == t[i])
    && (forall i :: k + n <= i < |t| ==> t'[i - n + n'] == t[i])
  }

  /** Positions of `t` outside the citation: up to its start, or from its end on. */
  predicate Outside(i: nat, k: nat, n: nat) {
    i <= k || i >= k + n
  }

  function Sigma(i: nat, k: nat, n: nat, n': nat): nat
    requires Outside(i, k, n)
  {
    if i <= k then i else i - n + n'
  }

  /** `i` lies outside, and `i'` is where it is in the other text. */
  predicate Maps(i: nat, i': nat, k: nat, n: nat, n': nat) {
    Outside(i, k, n) && i' == Sigma(i, k, n, n')
  }

  lemma {:induction false} RunEndPair(t: string, t': string, k: nat, n: nat, n': nat, i: nat, c: char)
    requires Pair(t, t', k, n, n') && Outside(i, k, n) && i <= |t| && c != '['
    ensures Maps(RunEnd(t, i, c), RunEnd(t', Sigma(i, k, n, n'), c), k, n, n') && (i <= k ==> RunEnd(t, i, c) <= k)
    decreases |t| - i
  {
    if i < |t| && t[i] == c { RunEndPair(t, t', k, n, n', i + 1, c); }
  }

  lemma {:induction false} DigitsEndPair(t: string, t': string, k: nat, n: nat, n': nat, i: nat)
    requires Pair(t, t', k, n, n') && Outside(i, k, n) && i <= |t|
    ensures Maps(DigitsEnd(t, i), DigitsEnd(t', Sigma(i, k, n, n')), k, n, n') && (i <= k ==> DigitsEnd(t, i) <= k)
    decreases |t| - i
  {
    if i < |t| && '0' <= t[i] <= '9' { DigitsEndPair(t, t', k, n, n', i + 1); }
  }

  lemma {:induction false} LineEndPass(t: string, i: nat, j: nat)
    requires i < j <= |t| && forall m :: i <= m < j ==> t[m] != '\n'
    ensures LineEnd(t, i) == if j == |t| then j else LineEnd(t, j)
    decreases j - i
  {
    if i + 1 < j { LineEndPass(t, i + 1, j); }
  }

  lemma {:induction false} LineEndPair(t: string, t': string, k: nat, n: nat, n': nat, i: nat)
    requires Pair(t, t', k, n, n') && Outside(i, k, n) && i < |t|
    ensures Maps(LineEnd(t, i), LineEnd(t', Sigma(i, k, n, n')), k, n, n')
    decreases |t| - i
  {
    if i == k {
      LineEndPass(t, k, k + n);
      LineEndPass(t', k, k + n');
      if k + n < |t| { LineEndPair(t, t', k, n, n', k + n); }
    } else if i + 1 < |t| && t[i] != '\n' {
      LineEndPair(t, t', k, n, n', i + 1);
    }
  }

  lemma BlankPair(t: string, t': string, k: nat, n: nat, n': nat, i: nat, e: nat)
    requires Pair(t, t', k, n, n') && Outside(i, k, n) && Outside(e, k, n) && i <= e <= |t|
    ensures Blank(t, i, e) == Blank(t', Sigma(i, k, n, n'), Sigma(e, k, n, n'))
  {
    if i <= k < e {
      assert !White(t[k]) && !White(t'[k]);
    } else if e > k {
      forall j | Sigma(i, k, n, n') <= j < Sigma(e, k, n, n') && Blank(t, i, e) ensures White(t'[j]) {
        assert t'[j] == t[j - n' + n];
      }
    }
  }

  lemma TicksPair(t: string, t': string, k: nat, n: nat, n': nat, i: nat, e: nat)
    requires Pair(t, t', k, n, n') && Outside(i, k, n) && Outside(e, k, n) && i <= |t| && e <= |t|
    requires forall j :: i <= j < e ==> t[j] != '`'
    ensures forall j :: Sigma(i, k, n, n') <= j < Sigma(e, k, n, n') ==> t'[j] != '`'
  {
    forall j | Sigma(i, k, n, n') <= j < Sigma(e, k, n, n') ensures t'[j] != '`' {
      if j >= k + n' { assert t'[j] == t[j - n' + n]; }
    }
  }

  lemma PairBack(t: string, t': string, k: nat, n: nat, n': nat)
    requires Pair(t, t', k, n, n')
    ensures Pair(t', t, k, n', n)
  {
    forall i | k + n' <= i < |t'| ensures t[i - n' + n] == t'[i] {
      assert t'[(i - n' + n) - n + n'] == t[i - n' + n];
    }
  }

  lemma FencePair(t: string, t': string, k: nat, n: nat, n': nat, at: nat, e: nat)
    requires Pair(t, t', k, n, n') && Outside(at, k, n) && Outside(e, k, n) && at <= |t| && e <= |t|
    ensures FenceAt(t, at, e) == FenceAt(t', Sigma(at, k, n, n'), Sigma(e, k, n, n'))
  {
    if at < e && (t[at] == '`' || t[at] == '~') {
      RunEndPair(t, t', k, n, n', at, t[at]);
      var r := RunEnd(t, at, t[at]);
      if forall j :: r <= j < e ==> t[j] != '`' { TicksPair(t, t', k, n, n', r, e); }
      if forall j :: Sigma(r, k, n, n') <= j < Sigma(e, k, n, n') ==> t'[j] != '`' {
        PairBack(t, t', k, n, n');
        TicksPair(t', t, k, n', n, Sigma(r, k, n, n'), Sigma(e, k, n, n'));
      }
    }
  }

  lemma ListPair(t: string, t': string, k: nat, n: nat, n': nat, at: nat, e: nat)
    requires Pair(t, t', k, n, n') && Outside(at, k, n) && Outside(e, k, n) && at <= e <= |t|
    ensures ListMarker(t, at, e) == ListMarker(t', Sigma(at, k, n, n'), Sigma(e, k, n, n'))
  {
    DigitsEndPair(t, t', k, n, n', at);
  }

  /** A fence is made of backticks or tildes. */
  predicate Sane(mode: Mode) {
    mode.fence.Some? ==> mode.fence.value.kind == '`' || mode.fence.value.kind == '~'
  }

  lemma ClosesPair(t: string, t': string, k: nat, n: nat, n': nat, f: Marks, i: nat, e: nat)
    requires Pair(t, t', k, n, n') && Outside(i, k, n) && Outside(e, k, n) && i <= e <= |t| && (e <= k || i > k)
    requires f.kind == '`' || f.kind == '~'
    ensures Closes(t, i, e, f) == Closes(t', Sigma(i, k, n, n'), Sigma(e, k, n, n'), f)
  {
    RunEndPair(t, t', k, n, n', i, ' ');
    var at := Text(t, i);
    if at < e && t[at] == f.kind {
      RunEndPair(t, t', k, n, n', at, f.kind);
      var r := RunEnd(t, at, f.kind);
      if r <= e { BlankPair(t, t', k, n, n', r, e); }
    }
  }

  lemma ModePair(t: string, t': string, k: nat, n: nat, n': nat, mode: Mode, i: nat, e: nat)
    requires Pair(t, t', k, n, n') && Outside(i, k, n) && i < e <= |t| && Outside(e, k, n) && Sane(mode)
    requires Text(t, i) <= e && Text(t', Sigma(i, k, n, n')) <= Sigma(e, k, n, n')
    requires i <= k < e ==> !IsCode(mode, t, i, e)
    ensures IsCode(mode, t', Sigma(i, k, n, n'), Sigma(e, k, n, n')) == IsCode(mode, t, i, e)
    ensures After(mode, t', Sigma(i, k, n, n'), Sigma(e, k, n, n')) == After(mode, t, i, e)
    ensures Sane(After(mode, t, i, e))
  {
    RunEndPair(t, t', k, n, n', i, ' ');
    FencePair(t, t', k, n, n', Text(t, i), e);
    if mode.fence.Some? {
      ClosesPair(t, t', k, n, n', mode.fence.value, i, e);
    } else if Opens(t, i, e) {
      RunEndPair(t, t', k, n, n', Text(t, i), t[Text(t, i)]);
    } else {
      BlankPair(t, t', k, n, n', i, e);
      ListPair(t, t', k, n, n', Text(t, i), e);
    }
  }

  /** A line is code in both texts or in neither, and leaves both scans in the same mode, unless the
      citation stands on a line of code. */
  lemma LinePair(t: string, t': string, k: nat, n: nat, n': nat, mode: Mode, i: nat)
    requires Pair(t, t', k, n, n') && Outside(i, k, n) && i < |t| && Sane(mode)
    requires i <= k < LineEnd(t, i) ==> !IsCode(mode, t, i, LineEnd(t, i))
    ensures Maps(LineEnd(t, i), LineEnd(t', Sigma(i, k, n, n')), k, n, n')
    ensures IsCode(mode, t', Sigma(i, k, n, n'), LineEnd(t', Sigma(i, k, n, n'))) == IsCode(mode, t, i, LineEnd(t, i))
    ensures Next(mode, t', Sigma(i, k, n, n')) == Next(mode, t, i) && Sane(Next(mode, t, i))
  {
    LineEndPair(t, t', k, n, n', i);
    RunInLine(t, i, ' ');
    RunInLine(t', Sigma(i, k, n, n'), ' ');
    ModePair(t, t', k, n, n', mode, i, LineEnd(t, i));
  }

  /** Positions outside the citation keep their block flag. */
  lemma {:induction false} FlagPair(t: string, t': string, k: nat, n: nat, n': nat, i: nat, mode: Mode, p: nat)
    requires Pair(t, t', k, n, n') && Outside(i, k, n) && i <= p < |t| && p != k && Outside(p, k, n) && Sane(mode)
    requires i <= k ==> !Flag(t, i, mode, k)
    ensures Flag(t', Sigma(i, k, n, n'), mode, Sigma(p, k, n, n')) == Flag(t, i, mode, p)
    decreases |t| - i
  {
    LinePair(t, t', k, n, n', mode, i);
    var e := LineEnd(t, i);
    if p >= e { FlagPair(t, t', k, n, n', e, Next(mode, t, i), p); }
  }

  /** No position of the citation gets one. */
  lemma {:induction false} FlagInside(t: string, t': string, k: nat, n: nat, n': nat, i: nat, mode: Mode, p: nat)
    requires Pair(t, t', k, n, n') && i <= k <= p < k + n' && !Flag(t, i, mode, k) && Sane(mode)
    ensures !Flag(t', i, mode, p)
    decreases |t| - i
  {
    LinePair(t, t', k, n, n', mode, i);
    var e := LineEnd(t, i);
    if e <= k { FlagInside(t, t', k, n, n', e, Next(mode, t, i), p); }
  }

  /** Flags `b` and `b'` that agree outside the citation, which lies outside any block. */
  predicate Twin(t: string, b: seq<bool>, t': string, b': seq<bool>, k: nat, n: nat, n': nat) {
    && Pair(t, t', k, n, n') && Quiet(t, b, k, n) && Quiet(t', b', k, n')
    && (forall i :: 0 <= i < k ==> b'[i] == b[i])
    && (forall i :: k + n <= i < |t| ==> b'[i - n + n'] == b[i])
  }

  /** A stretch of `n` plain characters at `k` outside any block. */
  predicate Quiet(t: string, b: seq<bool>, k: nat, n: nat) {
    |t| == |b| && k + n <= |t| && forall i :: k <= i < k + n ==> !Special(t[i]) && !b[i]
  }

  lemma BlocksTwin(t: string, t': string, k: nat, n: nat, n': nat)
    requires Pair(t, t', k, n, n') && !Blocks(t)[k]
    ensures Twin(t, Blocks(t), t', Blocks(t'), k, n, n')
  {
    PairBack(t, t', k, n, n');
    FlagInside(t, t', k, n, n', 0, START, k);
    forall i | k <= i < k + n ensures !Blocks(t)[i] { FlagInside(t', t, k, n', n, 0, START, i); }
    forall i | k <= i < k + n' ensures !Blocks(t')[i] { FlagInside(t, t', k, n, n', 0, START, i); }
    forall i | 0 <= i < k ensures Blocks(t')[i] == Blocks(t)[i] { FlagPair(t, t', k, n, n', 0, START, i); }
    forall i | k + n <= i < |t|
      ensures Blocks(t')[i - n + n'] == Blocks(t)[i]
    {
      FlagPair(t, t', k, n, n', 0, START, i);
    }
  }

  lemma {:induction false} BlankTwin(
      t: string, b: seq<bool>, t': string, b': seq<bool>, k: nat, n: nat, n': nat, i: nat)
    requires Twin(t, b, t', b', k, n, n') && Outside(i, k, n) && i <= |t|
    ensures BlankFrom(t, i) == BlankFrom(t', Sigma(i, k, n, n'))
    decreases |t| - i
  {
    if i < |t| && i != k { BlankTwin(t, b, t', b', k, n, n', i + 1); }
  }

  lemma {:induction false} ClosePass(t: string, b: seq<bool>, i: nat, j: nat, w: nat)
    requires |t| == |b| && i <= j <= |t| && forall m :: i <= m < j ==> !Special(t[m]) && !b[m]
    ensures Close(t, b, i, w) == Close(t, b, j, w)
    decreases j - i
  {
    if i < j { ClosePass(t, b, i + 1, j, w); }
  }

  lemma CloseCross(t: string, b: seq<bool>, k: nat, n: nat, w: nat)
    requires Quiet(t, b, k, n)
    ensures Close(t, b, k, w) == Close(t, b, k + n, w)
  {
    ClosePass(t, b, k, k + n, w);
  }

  /** A closing run found before the citation stays; one found behind it moves along. */
  predicate CloseMoved(e: Option<nat>, e': Option<nat>, k: nat, n: nat, n': nat) {
    match e
    case None => e' == None
    case Some(at) => Outside(at, k, n) && e' == Some(Sigma(at, k, n, n'))
  }

  lemma {:induction false} CloseTwin(
      t: string, b: seq<bool>, t': string, b': seq<bool>, k: nat, n: nat, n': nat, i: nat, w: nat)
    requires Twin(t, b, t', b', k, n, n') && Outside(i, k, n) && i <= |t|
    ensures CloseMoved(Close(t, b, i, w), Close(t', b', Sigma(i, k, n, n'), w), k, n, n')
    decreases |t| - i
  {
    if i == k {
      CloseCross(t, b, k, n, w);
      CloseCross(t', b', k, n', w);
      CloseTwin(t, b, t', b', k, n, n', k + n, w);
    } else if i < |t| {
      HopTwin(t, b, t', b', k, n, n', i);
      CloseTwin(t, b, t', b', k, n, n', Hop(t, i), w);
      CloseStep(t, b, t', b', k, n, n', i, w);
    }
  }

  lemma HopTwin(t: string, b: seq<bool>, t': string, b': seq<bool>, k: nat, n: nat, n': nat, i: nat)
    requires Twin(t, b, t', b', k, n, n') && Outside(i, k, n) && i < |t| && i != k
    ensures Outside(Hop(t, i), k, n) && (i < k ==> Hop(t, i) <= k)
      && Hop(t', Sigma(i, k, n, n')) == Sigma(Hop(t, i), k, n, n')
    ensures Hop(t', Sigma(i, k, n, n')) - Sigma(i, k, n, n') == Hop(t, i) - i
  {
    RunEndPair(t, t', k, n, n', i + 1, '`');
  }

  lemma CloseStep(t: string, b: seq<bool>, t': string, b': seq<bool>, k: nat, n: nat, n': nat, i: nat, w: nat)
    requires Twin(t, b, t', b', k, n, n') && Outside(i, k, n) && i < |t| && i != k
    requires Outside(Hop(t, i), k, n) && Hop(t', Sigma(i, k, n, n')) == Sigma(Hop(t, i), k, n, n')
    requires CloseMoved(Close(t, b, Hop(t, i), w), Close(t', b', Sigma(Hop(t, i), k, n, n'), w), k, n, n')
    requires Hop(t', Sigma(i, k, n, n')) - Sigma(i, k, n, n') == Hop(t, i) - i
    ensures CloseMoved(Close(t, b, i, w), Close(t', b', Sigma(i, k, n, n'), w), k, n, n')
  {
    BlankTwin(t, b, t', b', k, n, n', i + 1);
  }

  lemma TurnTwin(t: string, b: seq<bool>, t': string, b': seq<bool>, k: nat, n: nat, n': nat, i: nat)
    requires Twin(t, b, t', b', k, n, n') && Outside(i, k, n) && i < |t| && i != k
    ensures CloseMoved(SpanAt(t, b, i), SpanAt(t', b', Sigma(i, k, n, n')), k, n, n')
    ensures var j, j' := Turn(t, b, i), Turn(t', b', Sigma(i, k, n, n'));
      if SpanAt(t, b, i).None? && i + 1 == k && t[i] == '\\' && !b[i] then j == k + 1 && j' == k + 1
      else Outside(j, k, n) && j' == Sigma(j, k, n, n')
  {
    HopTwin(t, b, t', b', k, n, n', i);
    if t[i] == '`' && !b[i] { CloseTwin(t, b, t', b', k, n, n', Hop(t, i), Hop(t, i) - i); }
  }

  /** The scan goes through the citation without finding code, from wherever it enters it. */
  lemma {:induction false} CodedNone(t: string, b: seq<bool>, i: nat, j: nat, p: nat)
    requires |t| == |b| && i <= p < j <= |t| && forall m :: i <= m < j ==> !Special(t[m]) && !b[m]
    ensures !Coded(t, b, i, p)
    decreases j - i
  {
    assert Turn(t, b, i) == i + 1;
    if p > i { CodedNone(t, b, i + 1, j, p); }
  }

  lemma {:induction false} CodedPass(t: string, b: seq<bool>, i: nat, j: nat, p: nat)
    requires |t| == |b| && i <= j <= p < |t| && forall m :: i <= m < j ==> !Special(t[m]) && !b[m]
    ensures Coded(t, b, i, p) == Coded(t, b, j, p)
    decreases j - i
  {
    if i < j {
      assert Turn(t, b, i) == i + 1;
      CodedPass(t, b, i + 1, j, p);
    }
  }

  /** One turn of both scans. */
  lemma CodedStep(t: string, b: seq<bool>, t': string, b': seq<bool>, k: nat, n: nat, n': nat, i: nat, p: nat)
    requires Twin(t, b, t', b', k, n, n') && Outside(i, k, n) && i <= p < |t| && i != k && p != k && Outside(p, k, n)
    requires i <= k ==> !Coded(t, b, i, k)
    requires var j, j' := Turn(t, b, i), Turn(t', b', Sigma(i, k, n, n'));
      p >= j ==> j' <= Sigma(p, k, n, n') && Coded(t, b, j, p) == Coded(t', b', j', Sigma(p, k, n, n'))
    ensures Coded(t, b, i, p) == Coded(t', b', Sigma(i, k, n, n'), Sigma(p, k, n, n'))
  {
    TurnTwin(t, b, t', b', k, n, n', i);
  }

  /** Behind the citation both scans go on alike. */
  lemma {:induction false} CodedBehind(
      t: string, b: seq<bool>, t': string, b': seq<bool>, k: nat, n: nat, n': nat, i: nat, p: nat)
    requires Twin(t, b, t', b', k, n, n') && k + n <= i <= p < |t|
    ensures Coded(t, b, i, p) == Coded(t', b', i - n + n', p - n + n')
    decreases |t| - i
  {
    TurnTwin(t, b, t', b', k, n, n', i);
    var j := Turn(t, b, i);
    if p >= j { CodedBehind(t, b, t', b', k, n, n', j, p); }
    CodedStep(t, b, t', b', k, n, n', i, p);
  }

  /** Wherever the scans enter the citation, they agree behind it. */
  lemma CodedThrough(
      t: string, b: seq<bool>, t': string, b': seq<bool>, k: nat, n: nat, n': nat, j: nat, j': nat, p: nat)
    requires Twin(t, b, t', b', k, n, n') && k + n <= p < |t| && k <= j <= k + n && k <= j' <= k + n'
    ensures Coded(t, b, j, p) == Coded(t', b', j', p - n + n')
  {
    CodedBehind(t, b, t', b', k, n, n', k + n, p);
    CodedCross(t, b, k, n, j, p);
    CodedCross(t', b', k, n', j', p - n + n');
  }

  lemma CodedCross(t: string, b: seq<bool>, k: nat, n: nat, j: nat, p: nat)
    requires Quiet(t, b, k, n) && k <= j <= k + n <= p < |t|
    ensures Coded(t, b, j, p) == Coded(t, b, k + n, p)
  {
    CodedPass(t, b, j, k + n, p);
  }

  /** Positions outside the citation keep their flag. */
  lemma {:induction false} CodedTwin(
      t: string, b: seq<bool>, t': string, b': seq<bool>, k: nat, n: nat, n': nat, i: nat, p: nat)
    requires Twin(t, b, t', b', k, n, n') && i <= k && i <= p < |t| && p != k && Outside(p, k, n) && !Coded(t, b, i, k)
    ensures Coded(t, b, i, p) == Coded(t', b', i, Sigma(p, k, n, n'))
    decreases |t| - i
  {
    if i == k {
      CodedThrough(t, b, t', b', k, n, n', k, k, p);
    } else {
      TurnTwin(t, b, t', b', k, n, n', i);
      var j := TurnStops(t, b, k, n, i);
      if p >= j {
        if j <= k {
          CodedTwin(t, b, t', b', k, n, n', j, p);
        } else {
          CodedThrough(t, b, t', b', k, n, n', j, Turn(t', b', i), p);
        }
      }
      CodedStep(t, b, t', b', k, n, n', i, p);
    }
  }

  /** No turn before the citation runs past its bracket. */
  lemma TurnStops(t: string, b: seq<bool>, k: nat, n: nat, i: nat) returns (j: nat)
    requires |t| == |b| && i < k < k + n <= |t| && t[k] == '[' && !Coded(t, b, i, k)
    requires Outside(Turn(t, b, i), k, n) || Turn(t, b, i) == k + 1
    ensures j == Turn(t, b, i) && (j <= k || j == k + 1)
    ensures j <= k ==> !Coded(t, b, j, k)
  {
    j := Turn(t, b, i);
    if j > k { HopStops(t, i, k); }
  }

  lemma {:induction false} RunStops(t: string, i: nat, k: nat)
    requires i <= k < |t| && t[k] == '['
    ensures RunEnd(t, i, '`') <= k
    decreases k - i
  {
    if i < k && t[i] == '`' { RunStops(t, i + 1, k); }
  }

  lemma HopStops(t: string, i: nat, k: nat)
    requires i < k < |t| && t[k] == '['
    ensures Hop(t, i) <= k
  {
    RunStops(t, i + 1, k);
  }

  /** No position of the other citation is code. */
  lemma {:induction false} CitationTwin(
      t: string, b: seq<bool>, t': string, b': seq<bool>, k: nat, n: nat, n': nat, i: nat, p: nat)
    requires Twin(t, b, t', b', k, n, n') && i <= k <= p < k + n' && !Coded(t, b, i, k)
    ensures !Coded(t', b', i, p)
    decreases k - i
  {
    if i == k {
      CodedNone(t', b', k, k + n', p);
    } else {
      TurnTwin(t, b, t', b', k, n, n', i);
      var j := TurnStops(t, b, k, n, i);
      if j <= k {
        CitationTwin(t, b, t', b', k, n, n', j, p);
      } else if j <= p {
        CodedNone(t', b', j, k + n', p);
      }
    }
  }

  /** A block is code whatever the spans are. */
  lemma {:induction false} BlocksAreCoded(t: string, b: seq<bool>, i: nat, p: nat)
    requires |t| == |b| && i <= p < |t| && b[p]
    ensures Coded(t, b, i, p)
    decreases |t| - i
  {
    if p >= Turn(t, b, i) { BlocksAreCoded(t, b, Turn(t, b, i), p); }
  }

  // ----- exchanging one citation -----

  lemma CodedStays(t: string, b: seq<bool>, t': string, b': seq<bool>, k: nat, n: nat, n': nat, p: nat)
    requires Twin(t, b, t', b', k, n, n') && !Coded(t, b, 0, k) && p < |t'|
    ensures Coded(t', b', 0, p) ==
      if p < k then Coded(t, b, 0, p) else if p < k + n' then false else Coded(t, b, 0, p - n' + n)
  {
    if p < k {
      CodedTwin(t, b, t', b', k, n, n', 0, p);
    } else if p < k + n' {
      CitationTwin(t, b, t', b', k, n, n', 0, p);
    } else {
      CodedTwin(t, b, t', b', k, n, n', 0, p - n' + n);
    }
  }

  /** Exchanging one citation outside code: all code before and behind it stays code, and nothing else
      becomes code. */
  lemma CodeStays(t: string, t': string, k: nat, n: nat, n': nat, p: nat)
    requires Pair(t, t', k, n, n') && !Code(t, k) && p < |t'|
    ensures Code(t', p) ==
      if p < k then Code(t, p) else if p < k + n' then false else Code(t, p - n' + n)
  {
    if Blocks(t)[k] { BlocksAreCoded(t, Blocks(t), 0, k); }
    BlocksTwin(t, t', k, n, n');
    CodedStays(t, Blocks(t), t', Blocks(t'), k, n, n', p);
  }
}
