/** Where each call of the supplied files goes, told without links and tallies, and that a request is told exactly how
    many calls go where. */
module CallAccounts {
  import opened Options
  import opened CallLinks
  import opened Projection

  /** A call is shown as leading to a supplied file, leaves the request, stays in its file, or names nothing. */
  datatype Way = Shown | Leaves | Stays | Lost

  /** The other files before `d` that declare the name. */
  ghost function Earlier(files: seq<File>, name: string, from: nat, d: nat): set<nat>
    requires d <= |files|
  {
    set i: nat | i < d && i != from && Declares(files[i], name)
  }

  /** A supplied file that a call to the name is shown to lead to: one of the first four others that declare it. */
  ghost predicate LeadsTo(files: seq<File>, scope: set<nat>, from: nat, name: string, d: nat) {
    d < |files| && d != from && d in scope && Declares(files[d], name) && |Earlier(files, name, from, d)| < 4
  }

  /** Some file other than `from` declares the name. */
  ghost predicate Elsewhere(files: seq<File>, from: nat, name: string) {
    exists d: nat :: d < |files| && d != from && Declares(files[d], name)
  }

  ghost predicate Goes(files: seq<File>, scope: set<nat>, from: nat, name: string, way: Way)
    requires from < |files|
  {
    match way
    case Shown => exists d: nat :: LeadsTo(files, scope, from, name, d)
    case Leaves => Elsewhere(files, from, name) && forall d: nat :: !LeadsTo(files, scope, from, name, d)
    case Stays => !Elsewhere(files, from, name) && Declares(files[from], name)
    case Lost => !Elsewhere(files, from, name) && !Declares(files[from], name)
  }

  /** Of the first `n` calls of a file, how many go that way. */
  ghost function CallsGoing(files: seq<File>, scope: set<nat>, from: nat, n: nat, way: Way): nat
    requires from < |files| && n <= |files[from].calls|
  {
    if n == 0 then 0
    else
      CallsGoing(files, scope, from, n - 1, way)
      + if Goes(files, scope, from, Tail(files[from].calls[n - 1].target), way) then 1 else 0
  }

  /** How many calls of the supplied files below `n` go that way. */
  ghost function Going(files: seq<File>, scope: set<nat>, n: nat, way: Way): nat
    requires n <= |files|
  {
    if n == 0 then 0
    else
      Going(files, scope, n - 1, way)
      + if n - 1 in scope then CallsGoing(files, scope, n - 1, |files[n - 1].calls|, way) else 0
  }

  // ----- fates and ways -----

  lemma {:induction false} RankCounts(files: seq<File>, name: string, from: nat, d: nat)
    requires d <= |files|
    ensures |Earlier(files, name, from, d)| == |Others(files, name, from, d)|
  {
    if d > 0 {
      RankCounts(files, name, from, d - 1);
      OneMoreEarlier(files, name, from, d - 1);
    }
  }

  lemma OneMoreEarlier(files: seq<File>, name: string, from: nat, d: nat)
    requires d < |files|
    ensures Earlier(files, name, from, d + 1)
         == Earlier(files, name, from, d) + if d != from && Declares(files[d], name) then {d} else {}
  {}

  lemma ElsewhereMeans(files: seq<File>, from: nat, name: string)
    ensures Elsewhere(files, from, name) <==> Others(files, name, from, |files|) != []
  {
    var others := Others(files, name, from, |files|);
    OthersAre(files, name, from, |files|);
    if others != [] { assert others[0] in others; }
  }

  lemma NoOther(files: seq<File>, from: nat, c: Call)
    requires from < |files| && Others(files, Tail(c.target), from, |files|) == []
    ensures FateOf(files, from, c) == if Declares(files[from], Tail(c.target)) then Internal(from) else Undeclared(from)
  {}

  lemma SomeOther(files: seq<File>, from: nat, c: Call)
    requires from < |files| && Others(files, Tail(c.target), from, |files|) != []
    ensures Folded(FateOf(files, from, c))
  {}

  /** The first other file that declares the name has none before it. */
  lemma OnlyOneBefore(files: seq<File>, name: string, from: nat, i: nat)
    requires OnlyOther(files, name, from, i)
    ensures Earlier(files, name, from, i) == {}
  {}

  lemma OnlyOtherGoes(files: seq<File>, scope: set<nat>, from: nat, name: string, i: nat)
    requires from < |files| && OnlyOther(files, name, from, i)
    ensures i in scope <==> Goes(files, scope, from, name, Shown)
  {
    OnlyOneBefore(files, name, from, i);
    if i in scope { assert LeadsTo(files, scope, from, name, i); }
  }

  lemma ResolvedGoes(files: seq<File>, scope: set<nat>, from: nat, c: Call, fate: Fate)
    requires from < |files| && fate == FateOf(files, from, c) && fate.Resolved?
    ensures LeadsInside(files, fate, scope) <==> Goes(files, scope, from, Tail(c.target), Shown)
  {
    ResolvedMeansOne(files, from, c);
    LinkLeads(files, fate, scope);
    OnlyOtherGoes(files, scope, from, Tail(c.target), fate.file);
  }

  lemma AmbiguousGoes(files: seq<File>, scope: set<nat>, from: nat, name: string, f: Fate)
    requires from < |files| && f.Ambiguous? && f.from == from && f.to == name
    ensures LeadsInside(files, f, scope) <==> Goes(files, scope, from, name, Shown)
  {
    AmbiguousLeads(files, f, scope);
    forall d: nat | d < |files| ensures |Earlier(files, name, from, d)| == Rank(files, name, from, d) {
      RankCounts(files, name, from, d);
    }
    if d: nat :| LeadsTo(files, scope, from, name, d) { assert Declarer(files, name, from, scope, d); }
    if d :| Declarer(files, name, from, scope, d) && Rank(files, name, from, d) < 4 {
      assert LeadsTo(files, scope, from, name, d);
    }
  }

  lemma AmbiguousKeeps(files: seq<File>, from: nat, c: Call, fate: Fate)
    requires from < |files| && fate == FateOf(files, from, c) && fate.Ambiguous?
    ensures fate.from == from && fate.to == Tail(c.target)
  {}

  lemma FoldedGoes(files: seq<File>, scope: set<nat>, from: nat, c: Call, fate: Fate)
    requires from < |files| && fate == FateOf(files, from, c) && Folded(fate)
    ensures LeadsInside(files, fate, scope) <==> Goes(files, scope, from, Tail(c.target), Shown)
  {
    if fate.Resolved? {
      ResolvedGoes(files, scope, from, c, fate);
    } else {
      AmbiguousKeeps(files, from, c, fate);
      AmbiguousGoes(files, scope, from, fate.to, fate);
    }
  }

  /** What a fate says about the way of a call: `inside` if its link leads inside. */
  predicate Says(fate: Fate, from: nat, inside: bool, way: Way) {
    match way
    case Shown => Folded(fate) && inside
    case Leaves => Folded(fate) && !inside
    case Stays => fate == Internal(from)
    case Lost => fate == Undeclared(from)
  }

  lemma UnfoldedSays(files: seq<File>, scope: set<nat>, from: nat, name: string, fate: Fate, way: Way)
    requires from < |files| && !Elsewhere(files, from, name)
    requires fate == if Declares(files[from], name) then Internal(from) else Undeclared(from)
    ensures Says(fate, from, false, way) <==> Goes(files, scope, from, name, way)
  {}

  lemma FoldedSays(files: seq<File>, scope: set<nat>, from: nat, name: string, fate: Fate, inside: bool, way: Way)
    requires from < |files| && Elsewhere(files, from, name) && Folded(fate)
    requires inside <==> Goes(files, scope, from, name, Shown)
    ensures Says(fate, from, inside, way) <==> Goes(files, scope, from, name, way)
  {}

  /** The fate of a call says which way it goes. */
  lemma FateSays(files: seq<File>, scope: set<nat>, from: nat, c: Call, fate: Fate, way: Way)
    requires from < |files| && fate == FateOf(files, from, c)
    ensures Says(fate, from, LeadsInside(files, fate, scope), way) <==> Goes(files, scope, from, Tail(c.target), way)
  {
    ElsewhereMeans(files, from, Tail(c.target));
    if Others(files, Tail(c.target), from, |files|) == [] {
      NoOther(files, from, c);
      UnfoldedSays(files, scope, from, Tail(c.target), fate, way);
    } else {
      SomeOther(files, from, c);
      FoldedGoes(files, scope, from, c, fate);
      FoldedSays(files, scope, from, Tail(c.target), fate, LeadsInside(files, fate, scope), way);
    }
  }

  // ----- counting -----

  /** Of the fates of one file exactly those of calls that go this way are chosen, if the file is supplied. */
  ghost predicate Picks(files: seq<File>, scope: set<nat>, from: nat, row: seq<Fate>, chosen: set<Fate>, way: Way)
    requires from < |files|
  {
    && |row| == |files[from].calls|
    && forall k :: 0 <= k < |row| ==>
      (row[k] in chosen <==> from in scope && Goes(files, scope, from, Tail(files[from].calls[k].target), way))
  }

  lemma {:induction false} RowGoing(
      files: seq<File>, scope: set<nat>, from: nat, row: seq<Fate>, chosen: set<Fate>, way: Way, n: nat)
    requires from < |files| && Picks(files, scope, from, row, chosen, way) && n <= |row|
    ensures Hits(row[..n], chosen) == if from in scope then CallsGoing(files, scope, from, n, way) else 0
  {
    if n > 0 {
      RowGoing(files, scope, from, row, chosen, way, n - 1);
      assert row[..n][..n - 1] == row[..n - 1];
    }
  }

  lemma {:induction false} HitsAreGoing(
      files: seq<File>, scope: set<nat>, rows: seq<seq<Fate>>, chosen: set<Fate>, way: Way, n: nat)
    requires |rows| == |files| && n <= |rows|
    requires forall f :: 0 <= f < |files| ==> Picks(files, scope, f, rows[f], chosen, way)
    ensures Hits(Flat(rows[..n]), chosen) == Going(files, scope, n, way)
  {
    if n == 0 {
      assert rows[..0] == [];
    } else {
      HitsAreGoing(files, scope, rows, chosen, way, n - 1);
      RowGoing(files, scope, n - 1, rows[n - 1], chosen, way, |rows[n - 1]|);
      assert rows[n - 1][..|rows[n - 1]|] == rows[n - 1];
      assert rows[..n][..n - 1] == rows[..n - 1];
      HitsJoin(Flat(rows[..n - 1]), rows[n - 1], chosen);
    }
  }

  /** The fates that are chosen for a way. */
  ghost function ChosenFor(files: seq<File>, keys: seq<Fate>, scope: set<nat>, way: Way): set<Fate> {
    match way
    case Shown => Chosen(files, keys, scope, true)
    case Leaves => Chosen(files, keys, scope, false)
    case Stays => UnlinkedSet(scope, |files|, true)
    case Lost => UnlinkedSet(scope, |files|, false)
  }

  lemma ListedFates(files: seq<File>, keys: seq<Fate>, from: nat, k: nat, fate: Fate)
    requires Lists(keys, TallyOf(Fates(files))) && from < |files| && k < |files[from].calls|
    requires fate == Rows(files)[from][k]
    ensures fate in keys <==> Folded(fate)
  {
    RowsAreHomed(files);
    FlatHas(Rows(files), from, k);
    TallyHas(Fates(files), fate);
  }

  /** A fate is chosen for the way it says, if its file is supplied. */
  lemma ChosenSays(files: seq<File>, keys: seq<Fate>, scope: set<nat>, fate: Fate, way: Way)
    requires fate.from < |files| && (fate in keys <==> Folded(fate))
    ensures fate in ChosenFor(files, keys, scope, way)
            <==> fate.from in scope && Says(fate, fate.from, LeadsInside(files, fate, scope), way)
  {
    match way {
      case Shown => ChosenAre(files, keys, scope, true, fate);
      case Leaves => ChosenAre(files, keys, scope, false, fate);
      case Stays =>
      case Lost =>
    }
  }

  lemma CallIsPicked(files: seq<File>, keys: seq<Fate>, scope: set<nat>, from: nat, k: nat, fate: Fate, way: Way)
    requires Lists(keys, TallyOf(Fates(files))) && from < |files| && k < |files[from].calls|
    requires fate == Rows(files)[from][k]
    ensures fate in ChosenFor(files, keys, scope, way)
            <==> from in scope && Goes(files, scope, from, Tail(files[from].calls[k].target), way)
  {
    FateFrom(files, from, files[from].calls[k]);
    ListedFates(files, keys, from, k, fate);
    ChosenSays(files, keys, scope, fate, way);
    FateSays(files, scope, from, files[from].calls[k], fate, way);
  }

  lemma WayIsCounted(files: seq<File>, keys: seq<Fate>, scope: set<nat>, way: Way)
    requires Lists(keys, TallyOf(Fates(files)))
    ensures Hits(Fates(files), ChosenFor(files, keys, scope, way)) == Going(files, scope, |files|, way)
  {
    var rows, chosen := Rows(files), ChosenFor(files, keys, scope, way);
    RowsAreHomed(files);
    forall f | 0 <= f < |files| ensures Picks(files, scope, f, rows[f], chosen, way) {
      forall k | 0 <= k < |rows[f]|
        ensures rows[f][k] in chosen <==> f in scope && Goes(files, scope, f, Tail(files[f].calls[k].target), way)
      {
        CallIsPicked(files, keys, scope, f, k, rows[f][k], way);
      }
    }
    HitsAreGoing(files, scope, rows, chosen, way, |files|);
    assert rows[..|files|] == rows;
  }

  /** The calls that make links, and those that make none, by the way they go. */
  lemma WaysAreCounted(files: seq<File>, keys: seq<Fate>, scope: set<nat>)
    requires Lists(keys, TallyOf(Fates(files)))
    ensures var links := LinksOf(files, TallyOf(Fates(files)), keys);
      && CallsWhere(links, scope, true) == Going(files, scope, |files|, Shown)
      && CallsWhere(links, scope, false) == Going(files, scope, |files|, Leaves)
    ensures var tally := TallyOf(Fates(files));
      && UnlinkedCalls(tally, scope, |files|, true) == Going(files, scope, |files|, Stays)
      && UnlinkedCalls(tally, scope, |files|, false) == Going(files, scope, |files|, Lost)
  {
    var fates := Fates(files);
    LinksCount(files, fates, keys, scope, true);
    LinksCount(files, fates, keys, scope, false);
    UnlinkedCount(fates, scope, |files|, true);
    UnlinkedCount(fates, scope, |files|, false);
    WayIsCounted(files, keys, scope, Shown);
    WayIsCounted(files, keys, scope, Leaves);
    WayIsCounted(files, keys, scope, Stays);
    WayIsCounted(files, keys, scope, Lost);
  }

  /** `resolve_links` and `project`: a request with the supplied files is shown their links that lead to supplied
      files, and is told how many calls go each other way. */
  method Describe(files: seq<File>, scope: set<nat>)
      returns (byFile: map<nat, seq<Link>>, leaving: nat, sameFile: nat, undeclared: nat, ghost keys: seq<Fate>)
    ensures Lists(keys, TallyOf(Fates(files)))
    ensures forall f :: f in byFile <==> ShownOf(LinksOf(files, TallyOf(Fates(files)), keys), scope, f) != []
    ensures forall f :: f in byFile ==> byFile[f] == ShownOf(LinksOf(files, TallyOf(Fates(files)), keys), scope, f)
    ensures Listed(byFile, |files|) == Going(files, scope, |files|, Shown)
    ensures leaving == Going(files, scope, |files|, Leaves)
    ensures sameFile == Going(files, scope, |files|, Stays)
    ensures undeclared == Going(files, scope, |files|, Lost)
    ensures Listed(byFile, |files|) + leaving + sameFile + undeclared == CallsOf(files, scope)
  {
    var index := BuildIndex(files);
    var tally := CountCalls(files, index);
    TalliedAreOf(files, Fates(files));
    var links, order := BuildLinks(files, index, tally);
    keys := order;
    byFile, leaving := Project(links, scope);
    sameFile := SumUnlinked(tally, scope, |files|, true);
    undeclared := SumUnlinked(tally, scope, |files|, false);
    ListedIsShown(byFile, links, scope, |files|);
    LinksAreOf(files, keys, tally);
    ShownIsInside(links, scope, |files|);
    WaysAreCounted(files, keys, scope);
    EveryCallAccounted(files, keys, scope);
  }
}
