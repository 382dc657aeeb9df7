/** Folding call sites into links between files, and spending a budget on the links of a request. */
module CallLinks {
  import opened Options

  // ----- call sites -----

  datatype Symbol = Symbol(name: string, qualified: string, isFile: bool)
  datatype Call = Call(owner: string, target: string)
  /** A file's symbols and its edges of kind `calls`. */
  datatype File = File(symbols: seq<Symbol>, calls: seq<Call>)

  /** The name behind the last `:` or `.` of a target. */
  function Tail(target: string): (t: string)
    ensures |t| <= |target| && target[|target| - |t|..] == t && forall i :: 0 <= i < |t| ==> t[i] != ':' && t[i] != '.'
    ensures |t| < |target| ==> target[|target| - |t| - 1] == ':' || target[|target| - |t| - 1] == '.'
  {
    if target == [] || target[|target| - 1] == ':' || target[|target| - 1] == '.' then []
    else
      var t := Tail(target[..|target| - 1]);
      t + [target[|target| - 1]]
  }

  predicate Names(s: Symbol, name: string) {
    !s.isFile && s.name == name
  }

  predicate Declares(f: File, name: string) {
    exists i :: 0 <= i < |f.symbols| && Names(f.symbols[i], name)
  }

  /** The first symbol of a file that has the name. */
  function Pick(symbols: seq<Symbol>, name: string): (s: Symbol)
    requires exists i :: 0 <= i < |symbols| && Names(symbols[i], name)
    ensures s in symbols && Names(s, name)
  {
    if Names(symbols[0], name) then symbols[0]
    else
      assert exists i :: 0 <= i < |symbols[1..]| && Names(symbols[1..][i], name) by {
        var i :| 0 <= i < |symbols| && Names(symbols[i], name);
        assert symbols[1..][i - 1] == symbols[i];
      }
      assert symbols == [symbols[0]] + symbols[1..];
      Pick(symbols[1..], name)
  }

  /** The files below `n`, other than `from`, that declare the name, in order. */
  function Others(files: seq<File>, name: string, from: nat, n: nat): seq<nat>
    requires n <= |files|
  {
    if n == 0 then []
    else
      var rest := Others(files, name, from, n - 1);
      if n - 1 != from && Declares(files[n - 1], name) then rest + [n - 1] else rest
  }

  lemma {:induction false} OthersAre(files: seq<File>, name: string, from: nat, n: nat)
    requires n <= |files|
    ensures forall i :: i in Others(files, name, from, n) <==> 0 <= i < n && i != from && Declares(files[i], name)
  {
    if n > 0 { OthersAre(files, name, from, n - 1); }
  }

  lemma OtherIs(files: seq<File>, name: string, from: nat, k: nat)
    requires k < |Others(files, name, from, |files|)|
    ensures var i := Others(files, name, from, |files|)[k];
      i in Others(files, name, from, |files|) && i < |files| && i != from && Declares(files[i], name)
  {
    OthersAre(files, name, from, |files|);
  }

  predicate Ascending(s: seq<nat>, n: nat) {
    (forall i, j :: 0 <= i < j < |s| ==> s[i] < s[j]) && forall i :: 0 <= i < |s| ==> s[i] < n
  }

  lemma AscendingMore(s: seq<nat>, n: nat)
    requires Ascending(s, n)
    ensures Ascending(s, n + 1) && Ascending(s + [n], n + 1)
  {}

  lemma {:induction false} OthersAscend(files: seq<File>, name: string, from: nat, n: nat)
    requires n <= |files|
    ensures Ascending(Others(files, name, from, n), n)
  {
    if n > 0 {
      OthersAscend(files, name, from, n - 1);
      AscendingMore(Others(files, name, from, n - 1), n - 1);
    }
  }

  /** What becomes of a call site: it is folded into a link to the one other file that declares the name,
      or into an ambiguous link, or counted as a call within its file or to an undeclared name. */
  datatype Fate =
    | Resolved(from: nat, owner: string, file: nat, to: string)
    | Ambiguous(from: nat, owner: string, to: string)
    | Internal(from: nat)
    | Undeclared(from: nat)

  function FateOf(files: seq<File>, from: nat, c: Call): (fate: Fate)
    requires from < |files|
    ensures fate.from == from
  {
    var name := Tail(c.target);
    var others := Others(files, name, from, |files|);
    if others == [] then
      if Declares(files[from], name) then Internal(from) else Undeclared(from)
    else if |others| == 1 then
      OtherIs(files, name, from, 0);
      Resolved(from, c.owner, others[0], Pick(files[others[0]].symbols, name).qualified)
    else Ambiguous(from, c.owner, name)
  }

  /** File `i` is the only one besides `from` that declares the name. */
  predicate OnlyOther(files: seq<File>, name: string, from: nat, i: nat) {
    && i < |files| && i != from && Declares(files[i], name)
    && forall j :: 0 <= j < |files| && j != from && Declares(files[j], name) ==> j == i
  }

  ghost predicate OneOther(files: seq<File>, name: string, from: nat) {
    exists i :: OnlyOther(files, name, from, i)
  }

  lemma OthersMeansOne(files: seq<File>, name: string, from: nat)
    requires from < |files|
    ensures var others := Others(files, name, from, |files|);
      if |others| == 1 then OnlyOther(files, name, from, others[0]) else !OneOther(files, name, from)
  {
    var others := Others(files, name, from, |files|);
    OthersAre(files, name, from, |files|);
    OthersAscend(files, name, from, |files|);
    if |others| == 1 {
      OtherIs(files, name, from, 0);
      assert forall j :: j in others ==> j == others[0];
    } else if |others| > 1 {
      OtherIs(files, name, from, 0);
      OtherIs(files, name, from, 1);
    }
  }

  /** A link has a resolved file exactly when one other file declares the name. */
  lemma ResolvedMeansOne(files: seq<File>, from: nat, c: Call)
    requires from < |files|
    ensures var fate, name := FateOf(files, from, c), Tail(c.target);
      if fate.Resolved? then OnlyOther(files, name, from, fate.file) else !OneOther(files, name, from)
  {
    OthersMeansOne(files, Tail(c.target), from);
  }

  /** The fates of the calls of one file. */
  function RowOf(files: seq<File>, from: nat): seq<Fate>
    requires from < |files|
  {
    seq(|files[from].calls|, k requires 0 <= k < |files[from].calls| => FateOf(files, from, files[from].calls[k]))
  }

  ghost function Rows(files: seq<File>): seq<seq<Fate>> {
    seq(|files|, f requires 0 <= f < |files| => RowOf(files, f))
  }

  ghost function Flat(rows: seq<seq<Fate>>): seq<Fate> {
    if rows == [] then [] else Flat(rows[..|rows| - 1]) + rows[|rows| - 1]
  }

  ghost function Fates(files: seq<File>): seq<Fate> {
    Flat(Rows(files))
  }

  function Calls(files: seq<File>): nat {
    if files == [] then 0 else Calls(files[..|files| - 1]) + |files[|files| - 1].calls|
  }

  /** Every call site has one fate. */
  lemma {:induction false} OneFateEach(files: seq<File>, rows: seq<seq<Fate>>)
    requires |rows| == |files| && forall f :: 0 <= f < |files| ==> |rows[f]| == |files[f].calls|
    ensures |Flat(rows)| == Calls(files)
  {
    if files != [] { OneFateEach(files[..|files| - 1], rows[..|rows| - 1]); }
  }

  /** A tally that counts every fate as often as it occurs. */
  ghost predicate Tallies(tally: map<Fate, nat>, fates: seq<Fate>) {
    forall f :: (f in tally <==> f in multiset(fates)) && (f in tally ==> tally[f] == multiset(fates)[f])
  }

  function Bump(tally: map<Fate, nat>, f: Fate): map<Fate, nat> {
    tally[f := (if f in tally then tally[f] else 0) + 1]
  }

  function TallyOf(fates: seq<Fate>): map<Fate, nat> {
    if fates == [] then map[] else Bump(TallyOf(fates[..|fates| - 1]), fates[|fates| - 1])
  }

  lemma {:induction false} TallyCounts(fates: seq<Fate>)
    ensures Tallies(TallyOf(fates), fates)
  {
    if fates != [] {
      var front, f := fates[..|fates| - 1], fates[|fates| - 1];
      TallyCounts(front);
      assert fates == front + [f];
      assert multiset(fates) == multiset(front) + multiset{f};
    }
  }

  // ----- where a name is declared -----

  /** What the program keeps for one name: the files that declare it and the first symbol of each. */
  datatype Entry = Entry(files: seq<nat>, picks: map<nat, Symbol>)

  /** All files that declare the name, in order. */
  function Declarers(files: seq<File>, name: string): seq<nat> {
    Others(files, name, |files|, |files|)
  }

  ghost predicate EntryFits(e: Option<Entry>, files: seq<File>, name: string) {
    match e
    case None => Declarers(files, name) == []
    case Some(e) =>
      && e.files == Declarers(files, name) != []
      && (forall i :: i in e.picks <==> i in e.files)
      && (forall i :: i in e.picks ==> i < |files| && PickIs(files[i], name, e.picks[i]))
  }

  predicate PickIs(f: File, name: string, s: Symbol) {
    Declares(f, name) && s == Pick(f.symbols, name)
  }

  function Find<K, V>(m: map<K, V>, k: K): Option<V> {
    if k in m then Some(m[k]) else None
  }

  ghost predicate Indexed(index: map<string, Entry>, files: seq<File>) {
    forall name :: EntryFits(Find(index, name), files, name)
  }

  lemma {:induction false} OthersAgree(files: seq<File>, more: seq<File>, name: string, from: nat, to: nat, n: nat)
    requires n <= |files| && n <= |more| && (from == to || (from >= n && to >= n))
    requires forall i :: 0 <= i < n ==> Declares(files[i], name) == Declares(more[i], name)
    ensures Others(files, name, from, n) == Others(more, name, to, n)
  {
    if n > 0 { OthersAgree(files, more, name, from, to, n - 1); }
  }

  /** A file without symbols declares nothing. */
  lemma AddFile(index: map<string, Entry>, files: seq<File>, f: File)
    requires Indexed(index, files) && f.symbols == []
    ensures Indexed(index, files + [f])
  {
    forall name ensures EntryFits(Find(index, name), files + [f], name) {
      assert EntryFits(Find(index, name), files, name);
      OthersAgree(files, files + [f], name, |files|, |files| + 1, |files|);
      assert !Declares((files + [f])[|files|], name);
    }
  }

  /** The file with one more symbol. */
  function Longer(f: File, s: Symbol): File {
    f.(symbols := f.symbols + [s])
  }

  lemma LongerDeclares(f: File, s: Symbol, name: string)
    ensures Declares(Longer(f, s), name) <==> Declares(f, name) || Names(s, name)
  {
    var g := Longer(f, s);
    if Declares(f, name) {
      var i :| 0 <= i < |f.symbols| && Names(f.symbols[i], name);
      assert Names(g.symbols[i], name);
    }
    if Names(s, name) { assert Names(g.symbols[|f.symbols|], name); }
  }

  lemma {:induction false} PickStays(symbols: seq<Symbol>, s: Symbol, name: string)
    requires exists i :: 0 <= i < |symbols| && Names(symbols[i], name)
    ensures exists i :: 0 <= i < |symbols + [s]| && Names((symbols + [s])[i], name)
    ensures Pick(symbols + [s], name) == Pick(symbols, name)
  {
    var i :| 0 <= i < |symbols| && Names(symbols[i], name);
    assert Names((symbols + [s])[i], name);
    if !Names(symbols[0], name) {
      assert Names(symbols[1..][i - 1], name);
      assert (symbols + [s])[1..] == symbols[1..] + [s];
      PickStays(symbols[1..], s, name);
    }
  }

  lemma {:induction false} PickIsNew(symbols: seq<Symbol>, s: Symbol, name: string)
    requires Names(s, name) && forall i :: 0 <= i < |symbols| ==> !Names(symbols[i], name)
    ensures Names((symbols + [s])[|symbols|], name) && Pick(symbols + [s], name) == s
  {
    assert Names((symbols + [s])[|symbols|], name);
    if symbols != [] {
      assert !Names((symbols + [s])[0], name) && (symbols + [s])[1..] == symbols[1..] + [s];
      PickIsNew(symbols[1..], s, name);
    }
  }

  /** One more symbol of the last file. */
  function Entered(index: map<string, Entry>, at: nat, s: Symbol): map<string, Entry> {
    var e := if s.name in index then index[s.name] else Entry([], map[]);
    index[s.name := Entry(
      if e.files != [] && e.files[|e.files| - 1] == at then e.files else e.files + [at],
      if at in e.picks then e.picks else e.picks[at := s])]
  }

  /** The files with one more symbol in the last one. */
  function Extended(files: seq<File>, s: Symbol): (more: seq<File>)
    requires files != []
    ensures |more| == |files|
  {
    files[|files| - 1 := Longer(files[|files| - 1], s)]
  }

  lemma OtherDeclarers(files: seq<File>, s: Symbol, name: string)
    requires files != [] && !Names(s, name)
    ensures Declarers(Extended(files, s), name) == Declarers(files, name)
  {
    LongerDeclares(files[|files| - 1], s, name);
    OthersAgree(files, Extended(files, s), name, |files|, |files|, |files|);
  }

  lemma PickLasts(files: seq<File>, s: Symbol, name: string, i: nat, pick: Symbol)
    requires i < |files| && PickIs(files[i], name, pick)
    ensures PickIs(Extended(files, s)[i], name, pick)
  {
    if i == |files| - 1 {
      LongerDeclares(files[i], s, name);
      PickStays(files[i].symbols, s, name);
    }
  }

  lemma OtherName(files: seq<File>, s: Symbol, name: string, e: Option<Entry>)
    requires files != [] && EntryFits(e, files, name) && !Names(s, name)
    ensures EntryFits(e, Extended(files, s), name)
  {
    OtherDeclarers(files, s, name);
    if e.Some? {
      forall i | i in e.value.picks ensures i < |files| && PickIs(Extended(files, s)[i], name, e.value.picks[i]) {
        PickLasts(files, s, name, i, e.value.picks[i]);
      }
    }
  }

  /** Naming `s`, the last file becomes the last declarer, if it was none yet. */
  lemma OwnDeclarers(files: seq<File>, s: Symbol)
    requires files != [] && !s.isFile
    ensures var at, before, after := |files| - 1, Declarers(files, s.name), Declarers(Extended(files, s), s.name);
      && after == (if Declares(files[at], s.name) then before else before + [at])
      && (Declares(files[at], s.name) <==> before != [] && before[|before| - 1] == at)
      && (Declares(files[at], s.name) <==> at in before)
  {
    var at, name := |files| - 1, s.name;
    LongerDeclares(files[at], s, name);
    OthersAgree(files, Extended(files, s), name, |files|, |files|, at);
    OthersAscend(files, name, |files|, at);
    var rest := Others(files, name, |files|, at);
    assert (rest + [at])[|rest|] == at;
  }

  lemma OwnPick(files: seq<File>, s: Symbol)
    requires files != [] && !s.isFile && !Declares(files[|files| - 1], s.name)
    ensures PickIs(Extended(files, s)[|files| - 1], s.name, s)
  {
    var f := files[|files| - 1];
    LongerDeclares(f, s, s.name);
    PickIsNew(f.symbols, s, s.name);
  }

  lemma OwnName(files: seq<File>, s: Symbol, index: map<string, Entry>)
    requires files != [] && EntryFits(Find(index, s.name), files, s.name) && !s.isFile
    ensures EntryFits(Find(Entered(index, |files| - 1, s), s.name), Extended(files, s), s.name)
  {
    var at := |files| - 1;
    var e := Entered(index, at, s)[s.name];
    OwnDeclarers(files, s);
    forall i | i in e.picks ensures i < |files| && PickIs(Extended(files, s)[i], s.name, e.picks[i]) {
      if s.name in index && i in index[s.name].picks {
        PickLasts(files, s, s.name, i, e.picks[i]);
      } else {
        OwnPick(files, s);
      }
    }
  }

  lemma AddSymbol(index: map<string, Entry>, files: seq<File>, s: Symbol)
    requires files != [] && Indexed(index, files)
    ensures Indexed(if s.isFile then index else Entered(index, |files| - 1, s), Extended(files, s))
  {
    var more := if s.isFile then index else Entered(index, |files| - 1, s);
    forall name ensures EntryFits(Find(more, name), Extended(files, s), name) {
      assert EntryFits(Find(index, name), files, name);
      if Names(s, name) {
        OwnName(files, s, index);
      } else {
        OtherName(files, s, name, Find(index, name));
        assert Find(more, name) == Find(index, name);
      }
    }
  }

  /** The symbols of one file, entered under their names. */
  method IndexFile(index: map<string, Entry>, ghost before: seq<File>, at: nat, f: File)
      returns (more: map<string, Entry>)
    requires Indexed(index, before) && at == |before|
    ensures Indexed(more, before + [f])
  {
    more := index;
    AddFile(index, before, f.(symbols := []));
    for j := 0 to |f.symbols|
      invariant Indexed(more, before + [f.(symbols := f.symbols[..j])])
    {
      ghost var files := before + [f.(symbols := f.symbols[..j])];
      AddSymbol(more, files, f.symbols[j]);
      assert f.symbols[..j + 1] == f.symbols[..j] + [f.symbols[j]];
      assert Extended(files, f.symbols[j]) == before + [f.(symbols := f.symbols[..j + 1])];
      if !f.symbols[j].isFile { more := Entered(more, at, f.symbols[j]); }
    }
    assert f.(symbols := f.symbols[..|f.symbols|]) == f;
  }

  method BuildIndex(files: seq<File>) returns (index: map<string, Entry>)
    ensures Indexed(index, files)
  {
    index := map[];
    for at := 0 to |files|
      invariant Indexed(index, files[..at])
    {
      index := IndexFile(index, files[..at], at, files[at]);
      assert files[..at + 1] == files[..at] + [files[at]];
    }
    assert files[..|files|] == files;
  }

  // ----- folding -----

  function Without(s: seq<nat>, x: nat): seq<nat> {
    if s == [] then []
    else
      var rest := Without(s[..|s| - 1], x);
      if s[|s| - 1] == x then rest else rest + [s[|s| - 1]]
  }

  lemma WithoutMore(s: seq<nat>, x: nat, y: nat)
    ensures Without(s + [y], x) == if y == x then Without(s, x) else Without(s, x) + [y]
  {
    assert (s + [y])[..|s|] == s;
  }

  lemma {:induction false} WithoutIsOthers(files: seq<File>, name: string, from: nat, n: nat)
    requires from < |files| && n <= |files|
    ensures Without(Others(files, name, |files|, n), from) == Others(files, name, from, n)
  {
    if n > 0 {
      WithoutIsOthers(files, name, from, n - 1);
      WithoutMore(Others(files, name, |files|, n - 1), from, n - 1);
    }
  }

  lemma {:induction false} WithoutIsPrefix(s: seq<nat>, x: nat, k: nat)
    requires k <= |s|
    ensures Without(s[..k], x) <= Without(s, x)
    decreases |s|
  {
    if k < |s| {
      assert s[..|s| - 1][..k] == s[..k];
      WithoutIsPrefix(s[..|s| - 1], x, k);
    } else {
      assert s[..k] == s;
    }
  }

  /** The first `n` files of an entry besides `from`. */
  method Take(files: seq<nat>, from: nat, n: nat) returns (taken: seq<nat>)
    ensures var all := Without(files, from); taken == all[..if |all| <= n then |all| else n]
  {
    taken := [];
    var k := 0;
    while k < |files| && |taken| < n
      invariant k <= |files| && taken == Without(files[..k], from) && |taken| <= n
    {
      assert files[..k + 1][..k] == files[..k];
      if files[k] != from { taken := taken + [files[k]]; }
      k := k + 1;
    }
    WithoutIsPrefix(files, from, k);
    if k == |files| { assert files[..k] == files; }
  }

  lemma DeclaredHere(files: seq<File>, name: string, from: nat)
    requires from < |files| && Declarers(files, name) != [] && Others(files, name, from, |files|) == []
    ensures Declares(files[from], name)
  {
    OtherIs(files, name, |files|, 0);
    OthersAre(files, name, from, |files|);
  }

  lemma NotIndexed(files: seq<File>, from: nat, c: Call)
    requires from < |files| && Declarers(files, Tail(c.target)) == []
    ensures FateOf(files, from, c) == Undeclared(from)
  {
    var name := Tail(c.target);
    OthersAre(files, name, |files|, |files|);
    OthersAre(files, name, from, |files|);
    var others := Others(files, name, from, |files|);
    if others != [] { OtherIs(files, name, from, 0); }
  }

  lemma InOneOther(files: seq<File>, from: nat, c: Call, e: Entry)
    requires from < |files| && EntryFits(Some(e), files, Tail(c.target))
    requires |Others(files, Tail(c.target), from, |files|)| == 1
    ensures var i := Others(files, Tail(c.target), from, |files|)[0];
      i in e.picks && FateOf(files, from, c) == Resolved(from, c.owner, i, e.picks[i].qualified)
  {
    OtherIs(files, Tail(c.target), from, 0);
    OthersAre(files, Tail(c.target), |files|, |files|);
  }

  /** One call site: declared nowhere else, in one other file, or in several. */
  method Fold(files: seq<File>, index: map<string, Entry>, from: nat, c: Call) returns (fate: Fate)
    requires Indexed(index, files) && from < |files|
    ensures fate == FateOf(files, from, c)
  {
    var name := Tail(c.target);
    assert EntryFits(Find(index, name), files, name);
    if name !in index {
      NotIndexed(files, from, c);
      return Undeclared(from);
    }
    WithoutIsOthers(files, name, from, |files|);
    var two := Take(index[name].files, from, 2);
    if |two| == 0 {
      DeclaredHere(files, name, from);
      return Internal(from);
    } else if |two| == 1 {
      InOneOther(files, from, c, index[name]);
      return Resolved(from, c.owner, two[0], index[name].picks[two[0]].qualified);
    }
    return Ambiguous(from, c.owner, name);
  }

  method FoldAt(files: seq<File>, index: map<string, Entry>, from: nat, k: nat) returns (fate: Fate)
    requires Indexed(index, files) && from < |files| && k < |files[from].calls|
    ensures k < |RowOf(files, from)| && fate == RowOf(files, from)[k]
  {
    fate := Fold(files, index, from, files[from].calls[k]);
  }

  lemma TallyMore(before: seq<Fate>, row: seq<Fate>, k: nat)
    requires k < |row|
    ensures TallyOf(before + row[..k + 1]) == Bump(TallyOf(before + row[..k]), row[k])
  {
    var next := before + row[..k + 1];
    assert next[..|next| - 1] == before + row[..k];
  }

  /** The calls of one file. */
  method CountFile(
      files: seq<File>, index: map<string, Entry>, from: nat, tally: map<Fate, nat>, ghost before: seq<Fate>)
      returns (more: map<Fate, nat>)
    requires Indexed(index, files) && from < |files| && tally == TallyOf(before)
    ensures more == TallyOf(before + RowOf(files, from))
  {
    more := tally;
    ghost var row := RowOf(files, from);
    assert before + row[..0] == before;
    for k := 0 to |files[from].calls|
      invariant more == TallyOf(before + row[..k])
    {
      var fate := FoldAt(files, index, from, k);
      TallyMore(before, row, k);
      more := Bump(more, fate);
    }
    assert row[..|row|] == row;
  }

  lemma FlatMore(rows: seq<seq<Fate>>, n: nat)
    requires n < |rows|
    ensures Flat(rows[..n + 1]) == Flat(rows[..n]) + rows[n]
  {
    assert rows[..n + 1][..n] == rows[..n];
  }

  /** The counting loops of `resolve_links`: one entry for each fate, counting its call sites. */
  method CountCalls(files: seq<File>, index: map<string, Entry>) returns (tally: map<Fate, nat>)
    requires Indexed(index, files)
    ensures tally == TallyOf(Fates(files))
  {
    tally := map[];
    ghost var rows := Rows(files);
    for from := 0 to |files|
      invariant tally == TallyOf(Flat(rows[..from]))
    {
      tally := CountFile(files, index, from, tally, Flat(rows[..from]));
      FlatMore(rows, from);
    }
    assert rows[..|files|] == rows;
  }

  // ----- links -----

  /** An ambiguous link names at most this many of the files that declare the name. */
  const CANDIDATES: nat := 4

  /** A link; an ambiguous one has no file and several candidates. */
  datatype Link = Link(from: nat, owner: string, file: Option<nat>, to: string, candidates: seq<nat>, calls: nat)

  predicate Folded(f: Fate) {
    f.Resolved? || f.Ambiguous?
  }

  function FirstFew(s: seq<nat>): seq<nat> {
    s[..if |s| <= 4 then |s| else 4]
  }

  function LinkOf(files: seq<File>, f: Fate, calls: nat): Link
    requires Folded(f)
  {
    if f.Resolved? then Link(f.from, f.owner, Some(f.file), f.to, [], calls)
    else Link(f.from, f.owner, None, f.to, FirstFew(Others(files, f.to, f.from, |files|)), calls)
  }

  /** `keys` lists the folded fates of the tally, each once. */
  ghost predicate Lists(keys: seq<Fate>, tally: map<Fate, nat>) {
    && (forall i, j :: 0 <= i < j < |keys| ==> keys[i] != keys[j])
    && (forall f :: f in keys <==> f in tally && Folded(f))
  }

  ghost function LinksOf(files: seq<File>, tally: map<Fate, nat>, keys: seq<Fate>): (links: seq<Link>)
    requires forall f :: f in keys ==> f in tally && Folded(f)
    ensures |links| == |keys|
  {
    seq(|keys|, i requires 0 <= i < |keys| => assert keys[i] in keys; LinkOf(files, keys[i], tally[keys[i]]))
  }

  method MakeLink(files: seq<File>, index: map<string, Entry>, f: Fate, calls: nat) returns (l: Link)
    requires Indexed(index, files) && Folded(f) && f.from < |files|
    ensures l == LinkOf(files, f, calls)
  {
    if f.Resolved? { return Link(f.from, f.owner, Some(f.file), f.to, [], calls); }
    assert EntryFits(Find(index, f.to), files, f.to);
    WithoutIsOthers(files, f.to, f.from, |files|);
    var few: seq<nat> := [];
    if f.to in index { few := Take(index[f.to].files, f.from, CANDIDATES); }
    l := Link(f.from, f.owner, None, f.to, few, calls);
  }

  /** One link for each entry of the table, in whatever order the table yields them. */
  method BuildLinks(files: seq<File>, index: map<string, Entry>, tally: map<Fate, nat>)
      returns (links: seq<Link>, keys: seq<Fate>)
    requires Indexed(index, files) && forall f :: f in tally ==> f.from < |files|
    ensures Lists(keys, tally) && links == LinksOf(files, tally, keys)
  {
    links, keys := [], [];
    var rest := set f | f in tally && Folded(f);
    while rest != {}
      invariant forall f :: f in tally && Folded(f) <==> f in rest || f in keys
      invariant forall f :: f in rest ==> f !in keys
      invariant forall i, j :: 0 <= i < j < |keys| ==> keys[i] != keys[j]
      invariant links == LinksOf(files, tally, keys)
      decreases |rest|
    {
      var f :| f in rest;
      var l := MakeLink(files, index, f, tally[f]);
      links, keys, rest := links + [l], keys + [f], rest - {f};
    }
  }
}
