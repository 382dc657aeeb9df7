/** The links between the files of one request, and what the request is told about all other calls. */
module Projection {
  import opened Options
  import opened CallLinks

  // ----- the projection loop -----

  /** The link leads to a supplied file, or one of its candidates is supplied. */
  predicate Inside(l: Link, scope: set<nat>) {
    match l.file
    case Some(file) => file in scope
    case None => exists i :: 0 <= i < |l.candidates| && l.candidates[i] in scope
  }

  /** The calls of the supplied files whose links lead inside, or those whose links do not. */
  function CallsWhere(links: seq<Link>, scope: set<nat>, inside: bool): nat {
    if links == [] then 0
    else
      var l := links[|links| - 1];
      CallsWhere(links[..|links| - 1], scope, inside) + if l.from in scope && Inside(l, scope) == inside then l.calls
        else 0
  }

  /** The links of a file that lead to another supplied file, in order. */
  function ShownOf(links: seq<Link>, scope: set<nat>, file: nat): seq<Link> {
    if links == [] then []
    else
      var l := links[|links| - 1];
      ShownOf(links[..|links| - 1], scope, file) + if l.from == file && l.from in scope && Inside(l, scope) then [l]
        else []
  }

  /** The loop of `project`: links of supplied files are either listed under their file or counted as leaving,
      and others are skipped. */
  method Project(links: seq<Link>, scope: set<nat>) returns (byFile: map<nat, seq<Link>>, leaving: nat)
    ensures leaving == CallsWhere(links, scope, false)
    ensures forall f :: f in byFile <==> ShownOf(links, scope, f) != []
    ensures forall f :: f in byFile ==> byFile[f] == ShownOf(links, scope, f)
  {
    byFile, leaving := map[], 0;
    for k := 0 to |links|
      invariant leaving == CallsWhere(links[..k], scope, false)
      invariant forall f :: f in byFile <==> ShownOf(links[..k], scope, f) != []
      invariant forall f :: f in byFile ==> byFile[f] == ShownOf(links[..k], scope, f)
    {
      var l := links[k];
      assert links[..k + 1][..k] == links[..k];
      if l.from in scope {
        if Inside(l, scope) {
          byFile := byFile[l.from := (if l.from in byFile then byFile[l.from] else []) + [l]];
        } else {
          leaving := leaving + l.calls;
        }
      }
    }
    assert links[..|links|] == links;
  }

  // ----- how many call sites have one of several fates -----

  function Hits(fates: seq<Fate>, chosen: set<Fate>): nat {
    if fates == [] then 0
    else Hits(fates[..|fates| - 1], chosen) + if fates[|fates| - 1] in chosen then 1 else 0
  }

  lemma {:induction false} HitsApart(fates: seq<Fate>, a: set<Fate>, b: set<Fate>)
    requires a !! b
    ensures Hits(fates, a + b) == Hits(fates, a) + Hits(fates, b)
  {
    if fates != [] { HitsApart(fates[..|fates| - 1], a, b); }
  }

  lemma {:induction false} HitsNone(fates: seq<Fate>)
    ensures Hits(fates, {}) == 0
  {
    if fates != [] { HitsNone(fates[..|fates| - 1]); }
  }

  function CountOf(tally: map<Fate, nat>, f: Fate): nat {
    if f in tally then tally[f] else 0
  }

  lemma {:induction false} HitsOne(fates: seq<Fate>, f: Fate)
    ensures Hits(fates, {f}) == CountOf(TallyOf(fates), f)
  {
    if fates != [] { HitsOne(fates[..|fates| - 1], f); }
  }

  lemma {:induction false} HitsJoin(a: seq<Fate>, b: seq<Fate>, chosen: set<Fate>)
    ensures Hits(a + b, chosen) == Hits(a, chosen) + Hits(b, chosen)
  {
    if b == [] {
      assert a + b == a;
    } else {
      assert (a + b)[..|a + b| - 1] == a + b[..|b| - 1];
      HitsJoin(a, b[..|b| - 1], chosen);
    }
  }

  // ----- links -----

  predicate LeadsInside(files: seq<File>, f: Fate, scope: set<nat>) {
    Folded(f) && Inside(LinkOf(files, f, 0), scope)
  }

  /** Of the listed fates those of supplied files whose link leads inside, or those whose link does not. */
  function Chosen(files: seq<File>, keys: seq<Fate>, scope: set<nat>, inside: bool): set<Fate> {
    if keys == [] then {}
    else
      var f := keys[|keys| - 1];
      Chosen(files, keys[..|keys| - 1], scope, inside)
      + if f.from in scope && LeadsInside(files, f, scope) == inside then {f} else {}
  }

  lemma {:induction false} ChosenAre(files: seq<File>, keys: seq<Fate>, scope: set<nat>, inside: bool, f: Fate)
    ensures f in Chosen(files, keys, scope, inside)
            <==> f in keys && f.from in scope && LeadsInside(files, f, scope) == inside
  {
    if keys != [] {
      assert keys == keys[..|keys| - 1] + [keys[|keys| - 1]];
      ChosenAre(files, keys[..|keys| - 1], scope, inside, f);
    }
  }

  /** Some of the folded fates of the tally, none twice. */
  ghost predicate PartLists(keys: seq<Fate>, tally: map<Fate, nat>) {
    && (forall i, j :: 0 <= i < j < |keys| ==> keys[i] != keys[j])
    && (forall f :: f in keys ==> f in tally && Folded(f))
  }

  lemma SomeFewer(keys: seq<Fate>, tally: map<Fate, nat>)
    requires keys != [] && PartLists(keys, tally)
    ensures var front, f := keys[..|keys| - 1], keys[|keys| - 1];
      PartLists(front, tally) && f !in front && f in tally && Folded(f)
  {
    assert keys[|keys| - 1] in keys;
  }

  lemma LinksFewer(files: seq<File>, keys: seq<Fate>, tally: map<Fate, nat>)
    requires keys != [] && PartLists(keys, tally) && PartLists(keys[..|keys| - 1], tally) && keys[|keys| - 1] in keys
    ensures var n, links := |keys| - 1, LinksOf(files, tally, keys);
      links[..n] == LinksOf(files, tally, keys[..n]) && links[n] == LinkOf(files, keys[n], tally[keys[n]])
  {}

  /** The links that lead inside carry exactly the call sites whose fate leads inside; and so for the others. */
  lemma {:induction false} LinksCount(
      files: seq<File>, fates: seq<Fate>, keys: seq<Fate>, scope: set<nat>, inside: bool)
    requires PartLists(keys, TallyOf(fates))
    ensures CallsWhere(LinksOf(files, TallyOf(fates), keys), scope, inside)
      == Hits(fates, Chosen(files, keys, scope, inside))
  {
    if keys == [] {
      HitsNone(fates);
    } else {
      var front, f := keys[..|keys| - 1], keys[|keys| - 1];
      SomeFewer(keys, TallyOf(fates));
      LinksFewer(files, keys, TallyOf(fates));
      LinksCount(files, fates, front, scope, inside);
      if f.from in scope && LeadsInside(files, f, scope) == inside {
        ChosenAre(files, front, scope, inside, f);
        HitsApart(fates, Chosen(files, front, scope, inside), {f});
        HitsOne(fates, f);
      } else {
        assert Chosen(files, keys, scope, inside) == Chosen(files, front, scope, inside);
      }
    }
  }

  // ----- calls that make no link -----

  /** The calls of a file that stay in it, or those to undeclared names. */
  function Unlinked(file: nat, same: bool): Fate {
    if same then Internal(file) else Undeclared(file)
  }

  /** The counts of the supplied files below `n`. */
  function UnlinkedCalls(tally: map<Fate, nat>, scope: set<nat>, n: nat, same: bool): nat {
    if n == 0 then 0
    else
      UnlinkedCalls(tally, scope, n - 1, same)
      + if n - 1 in scope then CountOf(tally, Unlinked(n - 1, same)) else 0
  }

  method SumUnlinked(tally: map<Fate, nat>, scope: set<nat>, n: nat, same: bool) returns (calls: nat)
    ensures calls == UnlinkedCalls(tally, scope, n, same)
  {
    calls := 0;
    for f := 0 to n
      invariant calls == UnlinkedCalls(tally, scope, f, same)
    {
      if f in scope { calls := calls + CountOf(tally, Unlinked(f, same)); }
    }
  }

  function UnlinkedSet(scope: set<nat>, n: nat, same: bool): (s: set<Fate>)
    ensures forall f :: f in s <==> f.from < n && f.from in scope && f == Unlinked(f.from, same)
  {
    if n == 0 then {}
    else UnlinkedSet(scope, n - 1, same) + if n - 1 in scope then {Unlinked(n - 1, same)} else {}
  }

  lemma {:induction false} UnlinkedCount(fates: seq<Fate>, scope: set<nat>, n: nat, same: bool)
    ensures UnlinkedCalls(TallyOf(fates), scope, n, same) == Hits(fates, UnlinkedSet(scope, n, same))
  {
    if n == 0 {
      HitsNone(fates);
    } else {
      UnlinkedCount(fates, scope, n - 1, same);
      if n - 1 in scope {
        HitsApart(fates, UnlinkedSet(scope, n - 1, same), {Unlinked(n - 1, same)});
        HitsOne(fates, Unlinked(n - 1, same));
      } else {
        assert UnlinkedSet(scope, n, same) == UnlinkedSet(scope, n - 1, same);
      }
    }
  }

  // ----- all call sites of the supplied files -----

  function CallsOf(files: seq<File>, scope: set<nat>): nat {
    if files == [] then 0
    else
      var n := |files| - 1;
      CallsOf(files[..n], scope) + if n in scope then |files[n].calls| else 0
  }

  /** `chosen` has exactly those of the fates that belong to supplied files. */
  ghost predicate Supplied(fates: seq<Fate>, scope: set<nat>, chosen: set<Fate>) {
    forall k :: 0 <= k < |fates| ==> (fates[k] in chosen <==> fates[k].from in scope)
  }

  lemma {:induction false} RowHits(row: seq<Fate>, from: nat, scope: set<nat>, chosen: set<Fate>)
    requires (forall k :: 0 <= k < |row| ==> row[k].from == from) && Supplied(row, scope, chosen)
    ensures Hits(row, chosen) == if from in scope then |row| else 0
  {
    if row != [] { RowHits(row[..|row| - 1], from, scope, chosen); }
  }

  lemma {:induction false} AllHits(files: seq<File>, rows: seq<seq<Fate>>, scope: set<nat>, chosen: set<Fate>)
    requires |rows| == |files| && forall f :: 0 <= f < |files| ==> |rows[f]| == |files[f].calls|
    requires Homed(rows) && forall f :: 0 <= f < |rows| ==> Supplied(rows[f], scope, chosen)
    ensures Hits(Flat(rows), chosen) == CallsOf(files, scope)
  {
    if files != [] {
      var n := |files| - 1;
      AllHits(files[..n], rows[..n], scope, chosen);
      RowHits(rows[n], n, scope, chosen);
      HitsJoin(Flat(rows[..n]), rows[n], chosen);
    }
  }

  lemma {:induction false} FlatHas(rows: seq<seq<Fate>>, f: nat, k: nat)
    requires f < |rows| && k < |rows[f]|
    ensures rows[f][k] in Flat(rows)
  {
    var n := |rows| - 1;
    if f < n { FlatHas(rows[..n], f, k); }
  }

  lemma TallyHas(fates: seq<Fate>, f: Fate)
    requires f in fates
    ensures f in TallyOf(fates)
  {
    TallyCounts(fates);
    assert f in multiset(fates);
  }

  /** The four kinds of call sites of the supplied files. */
  ghost function Kinds(files: seq<File>, keys: seq<Fate>, scope: set<nat>): set<Fate> {
    Chosen(files, keys, scope, true) + Chosen(files, keys, scope, false)
    + UnlinkedSet(scope, |files|, true) + UnlinkedSet(scope, |files|, false)
  }

  lemma KindsAre(files: seq<File>, keys: seq<Fate>, scope: set<nat>, f: Fate)
    requires Lists(keys, TallyOf(Fates(files))) && f in TallyOf(Fates(files)) && f.from < |files|
    ensures f in Kinds(files, keys, scope) <==> f.from in scope
  {
    ChosenAre(files, keys, scope, true, f);
    ChosenAre(files, keys, scope, false, f);
  }

  lemma KindsAreApart(files: seq<File>, keys: seq<Fate>, scope: set<nat>)
    requires forall f :: f in keys ==> Folded(f)
    ensures Chosen(files, keys, scope, true) !! Chosen(files, keys, scope, false)
    ensures Chosen(files, keys, scope, true) + Chosen(files, keys, scope, false) !! UnlinkedSet(scope, |files|, true)
    ensures Chosen(files, keys, scope, true) + Chosen(files, keys, scope, false) + UnlinkedSet(scope, |files|, true)
            !! UnlinkedSet(scope, |files|, false)
  {
    forall f | f in Chosen(files, keys, scope, true) || f in Chosen(files, keys, scope, false)
      ensures f in keys && (f in Chosen(files, keys, scope, true) <==> f !in Chosen(files, keys, scope, false))
    {
      ChosenAre(files, keys, scope, true, f);
      ChosenAre(files, keys, scope, false, f);
    }
  }

  lemma FateFrom(files: seq<File>, from: nat, c: Call)
    requires from < |files|
    ensures FateOf(files, from, c).from == from
  {}

  /** Each row holds the fates of its own file. */
  ghost predicate Homed(rows: seq<seq<Fate>>) {
    forall f, k :: 0 <= f < |rows| && 0 <= k < |rows[f]| ==> rows[f][k].from == f
  }

  lemma RowsAreHomed(files: seq<File>)
    ensures Homed(Rows(files)) && |Rows(files)| == |files|
    ensures forall f :: 0 <= f < |files| ==> |Rows(files)[f]| == |files[f].calls|
  {
    var rows: seq<seq<Fate>> := Rows(files);
    forall f: nat, k: nat | f < |rows| && k < |rows[f]| ensures rows[f][k].from == f {
      FateFrom(files, f, files[f].calls[k]);
    }
  }

  lemma FateIsSupplied(files: seq<File>, keys: seq<Fate>, scope: set<nat>, fate: Fate)
    requires Lists(keys, TallyOf(Fates(files))) && fate in Fates(files) && fate.from < |files|
    ensures fate in Kinds(files, keys, scope) <==> fate.from in scope
  {
    TallyHas(Fates(files), fate);
    KindsAre(files, keys, scope, fate);
  }

  /** The call sites of the supplied files, by their fates. */
  lemma SuppliedHits(files: seq<File>, keys: seq<Fate>, scope: set<nat>)
    requires Lists(keys, TallyOf(Fates(files)))
    ensures Hits(Fates(files), Kinds(files, keys, scope)) == CallsOf(files, scope)
  {
    var rows, kinds := Rows(files), Kinds(files, keys, scope);
    RowsAreHomed(files);
    forall f | 0 <= f < |rows| ensures Supplied(rows[f], scope, kinds) {
      forall k | 0 <= k < |rows[f]| ensures rows[f][k] in kinds <==> rows[f][k].from in scope {
        FlatHas(rows, f, k);
        FateIsSupplied(files, keys, scope, rows[f][k]);
      }
    }
    AllHits(files, rows, scope, kinds);
  }

  /** Every call site of the supplied files is accounted for once: its link is shown or counted as leaving, or it
      is counted as staying in its file or as naming something undeclared. */
  lemma EveryCallAccounted(files: seq<File>, keys: seq<Fate>, scope: set<nat>)
    requires Lists(keys, TallyOf(Fates(files)))
    ensures var tally := TallyOf(Fates(files));
      var links := LinksOf(files, tally, keys);
      CallsWhere(links, scope, true) + CallsWhere(links, scope, false)
      + UnlinkedCalls(tally, scope, |files|, true) + UnlinkedCalls(tally, scope, |files|, false)
      == CallsOf(files, scope)
  {
    var fates := Fates(files);
    LinksCount(files, fates, keys, scope, true);
    LinksCount(files, fates, keys, scope, false);
    UnlinkedCount(fates, scope, |files|, true);
    UnlinkedCount(fates, scope, |files|, false);
    KindsAreApart(files, keys, scope);
    var shown, leaving := Chosen(files, keys, scope, true), Chosen(files, keys, scope, false);
    HitsApart(fates, shown, leaving);
    HitsApart(fates, shown + leaving, UnlinkedSet(scope, |files|, true));
    HitsApart(fates, shown + leaving + UnlinkedSet(scope, |files|, true), UnlinkedSet(scope, |files|, false));
    SuppliedHits(files, keys, scope);
  }

  // ----- what the request is told -----

  function CallsIn(links: seq<Link>): nat {
    if links == [] then 0 else CallsIn(links[..|links| - 1]) + links[|links| - 1].calls
  }

  /** The calls listed under the files below `n`. */
  function Listed(byFile: map<nat, seq<Link>>, n: nat): nat {
    if n == 0 then 0 else Listed(byFile, n - 1) + if n - 1 in byFile then CallsIn(byFile[n - 1]) else 0
  }

  function ShownCalls(links: seq<Link>, scope: set<nat>, n: nat): nat {
    if n == 0 then 0 else ShownCalls(links, scope, n - 1) + CallsIn(ShownOf(links, scope, n - 1))
  }

  lemma {:induction false} ListedIsShown(byFile: map<nat, seq<Link>>, links: seq<Link>, scope: set<nat>, n: nat)
    requires forall f :: f in byFile <==> ShownOf(links, scope, f) != []
    requires forall f :: f in byFile ==> byFile[f] == ShownOf(links, scope, f)
    ensures Listed(byFile, n) == ShownCalls(links, scope, n)
  {
    if n > 0 { ListedIsShown(byFile, links, scope, n - 1); }
  }

  lemma {:induction false} ShownNothing(scope: set<nat>, n: nat)
    ensures ShownCalls([], scope, n) == 0
  {
    if n > 0 { ShownNothing(scope, n - 1); }
  }

  lemma CallsInMore(links: seq<Link>, l: Link)
    ensures CallsIn(links + [l]) == CallsIn(links) + l.calls
  {
    assert (links + [l])[..|links|] == links;
  }

  lemma {:induction false} ShownMore(links: seq<Link>, scope: set<nat>, n: nat)
    requires links != []
    ensures var l := links[|links| - 1];
      ShownCalls(links, scope, n)
      == ShownCalls(links[..|links| - 1], scope, n)
         + if l.from in scope && Inside(l, scope) && l.from < n then l.calls else 0
  {
    if n > 0 {
      ShownMore(links, scope, n - 1);
      CallsInMore(ShownOf(links[..|links| - 1], scope, n - 1), links[|links| - 1]);
      assert ShownOf(links[..|links| - 1], scope, n - 1) + [] == ShownOf(links[..|links| - 1], scope, n - 1);
    }
  }

  lemma {:induction false} ShownIsInside(links: seq<Link>, scope: set<nat>, n: nat)
    requires forall l :: l in links ==> l.from < n
    ensures ShownCalls(links, scope, n) == CallsWhere(links, scope, true)
  {
    if links == [] {
      ShownNothing(scope, n);
    } else {
      assert links[|links| - 1] in links;
      ShownIsInside(links[..|links| - 1], scope, n);
      ShownMore(links, scope, n);
    }
  }

  lemma {:induction false} FateIsOf(rows: seq<seq<Fate>>, f: Fate)
    requires Homed(rows) && f in Flat(rows)
    ensures f.from < |rows|
  {
    var n := |rows| - 1;
    if f in rows[n] {
      var k :| 0 <= k < |rows[n]| && rows[n][k] == f;
    } else {
      FateIsOf(rows[..n], f);
    }
  }

  lemma TalliedAreOf(files: seq<File>, fates: seq<Fate>)
    requires fates == Fates(files)
    ensures forall f :: f in TallyOf(fates) ==> f.from < |files|
  {
    TallyCounts(fates);
    RowsAreHomed(files);
    forall f | f in TallyOf(fates) ensures f.from < |files| {
      assert f in multiset(fates);
      FateIsOf(Rows(files), f);
    }
  }

  lemma LinksAreOf(files: seq<File>, keys: seq<Fate>, tally: map<Fate, nat>)
    requires Lists(keys, tally) && forall f :: f in tally ==> f.from < |files|
    ensures forall l :: l in LinksOf(files, tally, keys) ==> l.from < |files|
  {
    var links := LinksOf(files, tally, keys);
    forall l | l in links ensures l.from < |files| {
      var i :| 0 <= i < |links| && links[i] == l;
      assert keys[i] in keys;
    }
  }

  // ----- when a call counts as leaving although a supplied file declares its name -----

  /** Another supplied file declares the name. */
  predicate Declarer(files: seq<File>, name: string, from: nat, scope: set<nat>, d: nat) {
    d < |files| && d != from && d in scope && Declares(files[d], name)
  }

  /** How many other files before `d` declare the name. */
  function Rank(files: seq<File>, name: string, from: nat, d: nat): nat
    requires d <= |files|
  {
    |Others(files, name, from, d)|
  }

  lemma {:induction false} RankIsPlace(files: seq<File>, name: string, from: nat, d: nat, n: nat)
    requires d < n <= |files| && d != from && Declares(files[d], name)
    ensures var r := Rank(files, name, from, d);
      r < |Others(files, name, from, n)| && Others(files, name, from, n)[r] == d
  {
    if d < n - 1 { RankIsPlace(files, name, from, d, n - 1); }
  }

  /** An ambiguous call is shown exactly if a supplied file is among the first four that declare its name; so it
      counts as leaving although supplied files declare it exactly if all of these come later. */
  lemma AmbiguousLeads(files: seq<File>, f: Fate, scope: set<nat>)
    requires f.Ambiguous?
    ensures LeadsInside(files, f, scope)
            <==> exists d :: Declarer(files, f.to, f.from, scope, d) && Rank(files, f.to, f.from, d) < 4
  {
    var all := Others(files, f.to, f.from, |files|);
    var few := LinkOf(files, f, 0).candidates;
    if i :| 0 <= i < |few| && few[i] in scope {
      OtherIs(files, f.to, f.from, i);
      RankIsPlace(files, f.to, f.from, all[i], |files|);
      OthersAscend(files, f.to, f.from, |files|);
      assert Declarer(files, f.to, f.from, scope, all[i]);
    }
    if d :| Declarer(files, f.to, f.from, scope, d) && Rank(files, f.to, f.from, d) < 4 {
      RankIsPlace(files, f.to, f.from, d, |files|);
      assert few[Rank(files, f.to, f.from, d)] == d;
    }
  }

  lemma OnlyOtherSupplied(files: seq<File>, name: string, from: nat, i: nat, scope: set<nat>)
    requires OnlyOther(files, name, from, i)
    ensures i in scope <==> exists d :: Declarer(files, name, from, scope, d)
  {
    if i in scope { assert Declarer(files, name, from, scope, i); }
  }

  lemma LinkLeads(files: seq<File>, f: Fate, scope: set<nat>)
    requires f.Resolved?
    ensures LeadsInside(files, f, scope) <==> f.file in scope
  {}

  /** A resolved call is shown exactly if a supplied file declares its name. */
  lemma ResolvedLeads(files: seq<File>, from: nat, c: Call, fate: Fate, scope: set<nat>)
    requires from < |files| && fate == FateOf(files, from, c) && fate.Resolved?
    ensures LeadsInside(files, fate, scope) <==> exists d :: Declarer(files, Tail(c.target), from, scope, d)
  {
    ResolvedMeansOne(files, from, c);
    LinkLeads(files, fate, scope);
    OnlyOtherSupplied(files, Tail(c.target), from, fate.file, scope);
  }

  /** The first of six files calls what the five others declare. */
  function Crowd(): (files: seq<File>)
    ensures |files| == 6
  {
    seq(6, i => if i == 0 then File([], [Call("a", "f")]) else File([Symbol("f", "f", false)], []))
  }

  lemma {:induction false} CrowdDeclares(n: nat)
    requires 1 <= n <= 6
    ensures |Others(Crowd(), "f", 0, n)| == n - 1
  {
    if n == 1 {
      assert Others(Crowd(), "f", 0, 0) == [];
    } else {
      CrowdDeclares(n - 1);
      assert Names(Crowd()[n - 1].symbols[0], "f");
    }
  }

  lemma SeveralOthers(files: seq<File>, from: nat, c: Call)
    requires from < |files| && |Others(files, Tail(c.target), from, |files|)| > 1
    ensures FateOf(files, from, c) == Ambiguous(from, c.owner, Tail(c.target))
  {}

  lemma TailOfOne()
    ensures Tail("f") == "f"
  {
    assert "f"[..0] == "" && Tail("") == "";
    assert Tail("f") == "" + ['f'];
  }

  lemma CrowdFate(c: Call)
    requires c.target == "f"
    ensures FateOf(Crowd(), 0, c) == Ambiguous(0, c.owner, "f")
  {
    CrowdDeclares(6);
    TailOfOne();
    SeveralOthers(Crowd(), 0, c);
  }

  lemma CrowdMissed(files: seq<File>, scope: set<nat>)
    requires |files| == 6 && scope == {0, 5} && Rank(files, "f", 0, 5) == 4
    ensures !LeadsInside(files, Ambiguous(0, "a", "f"), scope)
  {
    AmbiguousLeads(files, Ambiguous(0, "a", "f"), scope);
    forall d: nat | Declarer(files, "f", 0, scope, d) ensures d == 5 {}
  }

  /** A call that counts as leaving the request although a supplied file, the fifth that does, declares its name. */
  lemma FifthDeclarerIsMissed()
    ensures FateOf(Crowd(), 0, Call("a", "f")) == Ambiguous(0, "a", "f")
    ensures Declarer(Crowd(), "f", 0, {0, 5}, 5) && !LeadsInside(Crowd(), Ambiguous(0, "a", "f"), {0, 5})
  {
    CrowdFate(Call("a", "f"));
    CrowdDeclares(5);
    CrowdMissed(Crowd(), {0, 5});
    assert Names(Crowd()[5].symbols[0], "f");
  }
}
