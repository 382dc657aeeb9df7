/** Assembling one section from bounded responses. */
module SectionParts {
  import opened Basics
  import opened Characters
  import opened Options
  import opened CodeMask

  const MORE := "<!-- DOCCRAFT_SECTION_MORE -->"
  const MAX_PARTS := 24
  const MIN_OVERLAP := 32
  const MAX_OVERLAP := 8000

  // ----- text -----

  /** Length of the text without the white space at its end. */
  function TrimLen(s: string): (n: nat)
    ensures n <= |s| && (n > 0 ==> !White(s[n - 1])) && forall i :: n <= i < |s| ==> White(s[i])
  {
    if s == [] || !White(s[|s| - 1]) then |s| else TrimLen(s[..|s| - 1])
  }

  predicate Empty(s: string) {
    TrimLen(s) == 0
  }

  predicate StandsAt(s: string, i: nat, needle: string) {
    i + |needle| <= |s| && s[i..i + |needle|] == needle
  }

  /** The last place at or before `i` where `needle` stands. */
  function LastAt(s: string, needle: string, i: nat): (r: Option<nat>)
    ensures r.Some? ==> r.value <= i && StandsAt(s, r.value, needle)
    ensures r.Some? ==> forall j :: r.value < j <= i ==> !StandsAt(s, j, needle)
    ensures r.None? ==> forall j :: 0 <= j <= i ==> !StandsAt(s, j, needle)
  {
    if StandsAt(s, i, needle) then Some(i) else if i == 0 then None else LastAt(s, needle, i - 1)
  }

  datatype Cut = Cut(length: nat, more: bool)

  /** `strip_more`: the length of the text before a control marker that ends it. */
  function Strip(output: string): (c: Cut)
    ensures c.length <= |output| && (!c.more ==> c.length == |output|)
  {
    var trimmed := TrimLen(output);
    var found := LastAt(output[..trimmed], MORE, trimmed);
    if && found.Some? && found.value + |MORE| == trimmed
       && (found.value == 0 || output[found.value - 1] == '\n') && !Code(output, found.value)
    then Cut(found.value, true)
    else Cut(|output|, false)
  }

  /** `text` followed by the marker on a line of its own, outside code, and nothing but white space. */
  predicate Marker(output: string, text: nat) {
    var marker := "<!-- DOCCRAFT_SECTION_MORE -->";
    && StandsAt(output, text, marker) && (text == 0 || output[text - 1] == '\n') && !Code(output, text)
    && Empty(output[text + |marker|..])
  }

  lemma TrimAtEnd(s: string, n: nat)
    requires n <= |s| && (n > 0 ==> !White(s[n - 1])) && Empty(s[n..])
    ensures TrimLen(s) == n
  {
    forall i | n <= i < |s| ensures White(s[i]) { assert s[i] == s[n..][i - n]; }
  }

  lemma MarkerIsStripped(output: string, text: nat)
    requires Marker(output, text)
    ensures Strip(output) == Cut(text, true)
  {
    var body := output[..TrimLen(output)];
    assert output[text..text + |MORE|][|MORE| - 1] == '>';
    TrimAtEnd(output, text + |MORE|);
    assert StandsAt(body, text, MORE) by { assert body[text..text + |MORE|] == output[text..text + |MORE|]; }
  }

  lemma StrippedIsMarker(output: string, text: nat)
    requires Strip(output) == Cut(text, true)
    ensures Marker(output, text)
  {
    var body := output[..TrimLen(output)];
    assert body[text..text + |MORE|] == output[text..text + |MORE|];
    var rest := output[text + |MORE|..];
    assert forall i :: 0 <= i < |rest| ==> rest[i] == output[text + |MORE| + i];
  }

  /** The marker is recognised exactly where it ends the text. */
  lemma StripFindsMarker(output: string, text: nat)
    ensures Strip(output) == Cut(text, true) <==> Marker(output, text)
  {
    if Marker(output, text) { MarkerIsStripped(output, text); }
    if Strip(output) == Cut(text, true) { StrippedIsMarker(output, text); }
  }

  // ----- joining -----

  predicate EndsWith(s: string, t: string) {
    |t| <= |s| && s[|s| - |t|..] == t
  }

  /** The longest beginning of `output`, of at least 32 and at most `n` characters, that ends `markdown`. */
  function Overlap(markdown: string, output: string, n: nat): (r: nat)
    requires n <= |output|
    ensures r <= n && EndsWith(markdown, output[..r])
  {
    if n < MIN_OVERLAP then 0
    else if EndsWith(markdown, output[..n]) then n
    else Overlap(markdown, output, n - 1)
  }

  datatype Draft = Draft(markdown: string, parts: nat, resumeExactly: bool)

  /** How much of a response only echoes the text so far. */
  function Echo(d: Draft, output: string): (n: nat)
    ensures n <= |output| && EndsWith(d.markdown, output[..n])
  {
    if d.parts > 0 && !d.resumeExactly then
      Overlap(d.markdown, output, Min(Min(|d.markdown|, |output|), MAX_OVERLAP))
    else 0
  }

  function Combined(d: Draft, output: string): string {
    var echo := Echo(d, output);
    d.markdown + (if d.parts > 0 && !d.resumeExactly && echo == 0 then "\n\n" else "") + output[echo..]
  }

  datatype Refused = NoText | OnlyRepeats | NoContent

  /** The text so far with the response joined to it, unless that has nothing new. */
  function Joined(d: Draft, output: string): Result<string, Refused> {
    if Empty(output) then Err(NoText)
    else if Empty(output[Echo(d, output)..]) then Err(OnlyRepeats)
    else Ok(Combined(d, output))
  }

  /** `append`, on values. */
  function Appended(d: Draft, output: string, truncated: bool): Result<Draft, Refused> {
    match Joined(d, output)
    case Err(refused) => Err(refused)
    case Ok(combined) =>
      var cut := Strip(combined);
      if TrimLen(combined[..cut.length]) <= TrimLen(d.markdown) then Err(NoContent)
      else Ok(Draft(combined[..cut.length], d.parts + 1, truncated && !cut.more))
  }

  predicate OnlyWhite(s: string) {
    forall i :: 0 <= i < |s| ==> White(s[i])
  }

  /** A part is accepted exactly if it has text, and new text, and more text is visible than before. */
  lemma AcceptedExactly(d: Draft, output: string, truncated: bool)
    ensures var all := Combined(d, output);
      Appended(d, output, truncated).Ok?
      <==> !OnlyWhite(output) && !OnlyWhite(output[Echo(d, output)..])
           && TrimLen(all[..Strip(all).length]) > TrimLen(d.markdown)
  {
    assert Empty(output) <==> OnlyWhite(output);
    assert Empty(output[Echo(d, output)..]) <==> OnlyWhite(output[Echo(d, output)..]);
  }

  /** The joined text starts with the old text and ends with the whole response. */
  lemma CombinedHoldsBoth(d: Draft, output: string)
    ensures d.markdown <= Combined(d, output) && EndsWith(Combined(d, output), output)
  {
    var echo, all := Echo(d, output), Combined(d, output);
    var sep := if d.parts > 0 && !d.resumeExactly && echo == 0 then "\n\n" else "";
    var front := d.markdown[..|d.markdown| - echo];
    assert d.markdown == front + output[..echo];
    if echo == 0 {
      assert output[0..] == output;
    } else {
      assert all == front + (output[..echo] + output[echo..]);
    }
    assert output[..echo] + output[echo..] == output;
  }

  /** A part that is accepted only adds: the old text is a prefix of the new one, and there is more
      text than before. A marker inside the old text cannot end the new one. */
  lemma AppendGrows(d: Draft, output: string, truncated: bool)
    requires Appended(d, output, truncated).Ok?
    ensures var next := Appended(d, output, truncated).value;
      && d.markdown <= next.markdown && TrimLen(next.markdown) > TrimLen(d.markdown)
      && next.markdown <= Combined(d, output)
  {
    CombinedHoldsBoth(d, output);
    CutGrows(d.markdown, Combined(d, output));
  }

  lemma CutGrows(front: string, all: string)
    requires front <= all && TrimLen(all[..Strip(all).length]) > TrimLen(front)
    ensures Strip(all).length >= |front| && front <= all[..Strip(all).length]
  {
    var cut := Strip(all);
    if cut.more {
      StripFindsMarker(all, cut.length);
      MarkerIsBehind(front, all, cut.length);
    }
  }

  /** A marker behind all the visible text of a beginning lies behind that whole beginning. */
  lemma MarkerIsBehind(front: string, all: string, at: nat)
    requires front <= all && StandsAt(all, at, MORE) && at >= TrimLen(front)
    ensures at >= |front|
  {
    assert all[at] == all[at..at + |MORE|][0] == '<';
    assert forall i :: TrimLen(front) <= i < |front| ==> White(all[i]);
    assert !White(all[at]);
  }

  /** A response that was cut off is continued byte for byte, apart from a marker that ends the text. */
  lemma CutOffIsContinued(d: Draft, output: string, truncated: bool)
    requires Appended(d, output, truncated).Ok? && (d.resumeExactly || d.parts == 0)
    ensures var all, next := d.markdown + output, Appended(d, output, truncated).value.markdown;
      if exists text: nat :: Marker(all, text) then Marker(all, |next|) && next == all[..|next|] else next == all
  {
    var all := d.markdown + output;
    assert Combined(d, output) == all by { assert output[0..] == output && d.markdown + "" == d.markdown; }
    var cut := Strip(all);
    StripFindsMarker(all, cut.length);
    if text: nat :| Marker(all, text) { StripFindsMarker(all, text); }
    assert all[..|all|] == all;
  }

  // ----- the loops -----

  /** The search for the longest echo, from the longest possible one down. */
  method FindOverlap(markdown: string, output: string) returns (overlap: nat)
    ensures overlap == Overlap(markdown, output, Min(Min(|markdown|, |output|), MAX_OVERLAP))
  {
    var n: nat := Min(Min(|markdown|, |output|), MAX_OVERLAP);
    while n >= MIN_OVERLAP && !EndsWith(markdown, output[..n])
      invariant n <= |output|
        && Overlap(markdown, output, n) == Overlap(markdown, output, Min(Min(|markdown|, |output|), MAX_OVERLAP))
    {
      n := n - 1;
    }
    overlap := if n >= MIN_OVERLAP then n else 0;
  }

  /** The first half of `append`: dropping an echo, and joining. */
  method Join(d: Draft, output: string) returns (combined: Result<string, Refused>)
    ensures combined == Joined(d, output)
  {
    if Empty(output) { return Err(NoText); }
    var overlap := 0;
    if d.parts > 0 && !d.resumeExactly { overlap := FindOverlap(d.markdown, output); }
    assert overlap == Echo(d, output);
    var newText := output[overlap..];
    if Empty(newText) { return Err(OnlyRepeats); }
    var text := d.markdown;
    if d.parts > 0 && !d.resumeExactly && overlap == 0 { text := text + "\n\n"; } else { assert text == text + ""; }
    combined := Ok(text + newText);
  }

  /** The progress of one section, as it is kept in its checkpoint. */
  class Progress {
    var markdown: string
    var parts: nat
    var resumeExactly: bool

    function Value(): Draft
      reads this
    {
      Draft(markdown, parts, resumeExactly)
    }

    constructor (d: Draft)
      ensures Value() == d
    {
      markdown, parts, resumeExactly := d.markdown, d.parts, d.resumeExactly;
    }

    /** `append`: a refused part leaves the progress as it is. */
    method Append(output: string, truncated: bool) returns (complete: Result<bool, Refused>)
      modifies this
      ensures var r := Appended(old(Value()), output, truncated);
        if r.Ok? then Value() == r.value && complete == Ok(!truncated && !Strip(Combined(old(Value()), output)).more)
        else Value() == old(Value()) && complete == Err(r.error)
    {
      var joined := Join(Value(), output);
      if joined.Err? { return Err(joined.error); }
      var combined := joined.value;
      var cut := Strip(combined);
      if TrimLen(combined[..cut.length]) <= TrimLen(markdown) { return Err(NoContent); }
      markdown := combined[..cut.length];
      parts := parts + 1;
      resumeExactly := truncated && !cut.more;
      complete := Ok(!truncated && !cut.more);
    }
  }

  /** What one request for a part comes back with. */
  datatype Reply = Whole(output: string) | Truncated(content: string) | Failed
  datatype Failure = RequestFailed | Unusable(reason: Refused)

  /** The reply has text: a response, or what there is of one that was cut off. */
  predicate Usable(r: Reply) {
    r.Whole? || (r.Truncated? && !Empty(r.content))
  }

  function TextOf(r: Reply): string
    requires Usable(r)
  {
    if r.Whole? then r.output else r.content
  }

  /** The draft with one more reply, or why there is none. */
  function Part(d: Draft, r: Reply): Result<Draft, Failure> {
    if !Usable(r) then Err(RequestFailed)
    else
      match Appended(d, TextOf(r), r.Truncated?)
      case Ok(next) => Ok(next)
      case Err(refused) => Err(Unusable(refused))
  }

  /** The draft after the first `n` replies, each taken by `take`. */
  function Fold(
      take: (Draft, Reply) -> Result<Draft, Failure>, d: Draft, replies: seq<Reply>, n: nat): Result<Draft, Failure>
    requires n <= |replies|
  {
    if n == 0 then Ok(d)
    else
      match Fold(take, d, replies, n - 1)
      case Ok(before) => take(before, replies[n - 1])
      case Err(failure) => Err(failure)
  }

  function After(d: Draft, replies: seq<Reply>, n: nat): Result<Draft, Failure>
    requires n <= |replies|
  {
    Fold(Part, d, replies, n)
  }

  /** The reply finishes the section: it came whole, and no marker outside code ends the text. */
  ghost predicate Finishes(d: Draft, r: Reply) {
    r.Whole? && forall text: nat :: !Marker(Combined(d, r.output), text)
  }

  /** The first `n` replies were taken, and none of them finished the section. */
  ghost predicate Unfinished(d: Draft, replies: seq<Reply>, n: nat)
    requires n <= |replies|
  {
    && After(d, replies, n).Ok?
    && (n > 0 ==> Unfinished(d, replies, n - 1) && !Finishes(After(d, replies, n - 1).value, replies[n - 1]))
  }

  lemma NoMarkerMeansFinished(d: Draft, output: string)
    ensures Strip(Combined(d, output)).more <==> exists text: nat :: Marker(Combined(d, output), text)
  {
    var all := Combined(d, output);
    StripFindsMarker(all, Strip(all).length);
    if text: nat :| Marker(all, text) { StripFindsMarker(all, text); }
  }

  /** One turn of the part loop: the progress takes the reply, or stays as it is if there is nothing to take. */
  method TakePart(progress: Progress, reply: Reply) returns (complete: Result<bool, Failure>)
    modifies progress
    ensures var r := Part(old(progress.Value()), reply);
      if r.Ok? then progress.Value() == r.value && complete == Ok(Finishes(old(progress.Value()), reply))
      else progress.Value() == old(progress.Value()) && complete == Err(r.error)
  {
    var output, truncated := "", false;
    match reply {
      case Whole(text) => output := text;
      case Truncated(content) =>
        if Empty(content) { return Err(RequestFailed); }
        output, truncated := content, true;
      case Failed => return Err(RequestFailed);
    }
    NoMarkerMeansFinished(progress.Value(), output);
    var done := progress.Append(output, truncated);
    complete := if done.Ok? then Ok(done.value) else Err(Unusable(done.error));
  }

  /** `n` parts were added, each with visible text. */
  predicate Grown(d: Draft, next: Draft, n: nat) {
    d.markdown <= next.markdown && next.parts == d.parts + n && TrimLen(next.markdown) >= TrimLen(d.markdown) + n
  }

  lemma PartGrows(d: Draft, r: Reply)
    requires Part(d, r).Ok?
    ensures Grown(d, Part(d, r).value, 1)
  {
    AppendGrows(d, TextOf(r), r.Truncated?);
  }

  lemma GrownOn(d: Draft, e: Draft, f: Draft, n: nat)
    requires Grown(d, e, n) && Grown(e, f, 1)
    ensures Grown(d, f, n + 1)
  {}

  lemma AfterMore(d: Draft, replies: seq<Reply>, n: nat)
    requires n < |replies| && After(d, replies, n).Ok?
    ensures After(d, replies, n + 1) == Part(After(d, replies, n).value, replies[n])
  {}

  /** The loop has come to reply `n`. */
  ghost predicate Reached(d: Draft, replies: seq<Reply>, n: nat, now: Draft) {
    && n < |replies| && Unfinished(d, replies, n) && After(d, replies, n).value == now && now.parts < 24
    && Grown(d, now, n)
  }

  /** The loop ended with reply `n - 1`: the section is what the replies add up to, because that reply finished it or
      the limit is reached, or the reply could not be taken. */
  ghost predicate Ended(d: Draft, replies: seq<Reply>, n: nat, now: Draft, section: Result<string, Failure>) {
    && 0 < n <= |replies| && Unfinished(d, replies, n - 1)
    && match After(d, replies, n)
       case Ok(next) =>
         && now == next && section == Ok(next.markdown) && Grown(d, next, n)
         && (Finishes(After(d, replies, n - 1).value, replies[n - 1]) || next.parts == 24)
       case Err(failure) => section == Err(failure) && now == After(d, replies, n - 1).value
  }

  /** One turn of the loop. */
  method Turn(progress: Progress, ghost d: Draft, replies: seq<Reply>, n: nat)
      returns (section: Option<Result<string, Failure>>)
    requires Reached(d, replies, n, progress.Value())
    modifies progress
    ensures section.Some? ==> Ended(d, replies, n + 1, progress.Value(), section.value)
    ensures section.None? ==> progress.parts < 24
    ensures section.None? && n + 1 < |replies| ==> Reached(d, replies, n + 1, progress.Value())
    ensures progress.parts <= old(progress.parts) + 1
    ensures section.None? ==> progress.parts == old(progress.parts) + 1
  {
    AfterMore(d, replies, n);
    ghost var before := progress.Value();
    var complete := TakePart(progress, replies[n]);
    if complete.Err? { return Some(Err(complete.error)); }
    PartGrows(before, replies[n]);
    GrownOn(d, before, progress.Value(), n);
    if complete.value || progress.parts >= MAX_PARTS { return Some(Ok(progress.markdown)); }
    section := None;
  }

  /** The part loop of `write`, over the replies the requests would get. It goes on until a reply finishes the
      section, the limit of 24 parts is reached, or a reply cannot be taken, and not longer; the result is what the
      replies taken so far add up to. Each of them adds visible text to what the checkpoint held. */
  method Write(progress: Progress, replies: seq<Reply>) returns (section: Result<string, Failure>, asked: nat)
    requires progress.parts < 24 && |replies| >= 24 - progress.parts
    modifies progress
    ensures 0 < asked <= 24 - old(progress.parts)
    ensures Ended(old(progress.Value()), replies, asked, progress.Value(), section)
  {
    asked := 0;
    ghost var d := progress.Value();
    while true
      invariant progress.parts == d.parts + asked < 24 && Reached(d, replies, asked, progress.Value())
      decreases 24 - progress.parts
    {
      var done := Turn(progress, d, replies, asked);
      asked := asked + 1;
      if done.Some? { return done.value, asked; }
    }
  }

  // ----- what counts as an echo -----

  /** At a subsection boundary the longest beginning of the response, of 32 to 8000 characters, that the text so far
      ends with is dropped as an echo; a shorter one, a cut-off and a first part keep everything. */
  lemma {:induction false} OverlapIsLongest(markdown: string, output: string, n: nat)
    requires n <= |output|
    ensures var r := Overlap(markdown, output, n);
      && (r == 0 || (32 <= r <= n && EndsWith(markdown, output[..r])))
      && forall m :: r < m <= n && m >= 32 ==> !EndsWith(markdown, output[..m])
  {
    if n >= 32 && !EndsWith(markdown, output[..n]) { OverlapIsLongest(markdown, output, n - 1); }
  }

  lemma EchoIsLongest(d: Draft, output: string)
    ensures var r := Echo(d, output);
      if d.parts == 0 || d.resumeExactly then r == 0
      else
        && (r == 0 || (32 <= r <= 8000 && EndsWith(d.markdown, output[..r])))
        && forall m :: r < m <= |output| && 32 <= m <= 8000 ==> !EndsWith(d.markdown, output[..m])
  {
    if d.parts > 0 && !d.resumeExactly {
      OverlapIsLongest(d.markdown, output, Min(Min(|d.markdown|, |output|), MAX_OVERLAP));
    }
  }

  /** A part that continues neither a cut-off nor an echo is set off by a blank line; otherwise nothing comes
      between. */
  lemma JoinedAsWritten(d: Draft, output: string)
    ensures var echo := Echo(d, output);
      if d.parts > 0 && !d.resumeExactly && echo == 0 then Combined(d, output) == d.markdown + "\n\n" + output
      else Combined(d, output) == d.markdown + output[echo..]
  {
    assert output[0..] == output;
    assert d.markdown + "" == d.markdown;
  }
}
