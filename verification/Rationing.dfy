/** Spending a budget on the records of several files, one record of each file a round. */
module Rationing {
  /** The `index`-th record of a file. */
  datatype Item = Item(file: nat, index: nat)

  /** `a` was taken before `b`: in an earlier round, or in the same round from an earlier file. */
  predicate Earlier(a: Item, b: Item) {
    a.index < b.index || (a.index == b.index && a.file < b.file)
  }

  predicate Exists(sizes: seq<seq<nat>>, i: Item) {
    i.file < |sizes| && i.index < |sizes[i.file]|
  }

  function Used(sizes: seq<seq<nat>>, items: seq<Item>): nat
    requires forall k :: 0 <= k < |items| ==> Exists(sizes, items[k])
  {
    if items == [] then 0
    else
      var i := items[|items| - 1];
      assert Exists(sizes, i);
      Used(sizes, items[..|items| - 1]) + sizes[i.file][i.index]
  }

  /** What has been taken so far: a prefix of every file's records, within the budget. */
  ghost predicate Taken(sizes: seq<seq<nat>>, max: nat, items: seq<Item>, taken: seq<nat>, used: nat) {
    && |taken| == |sizes| && (forall f :: 0 <= f < |sizes| ==> taken[f] <= |sizes[f]|)
    && (forall k :: 0 <= k < |items| ==> Exists(sizes, items[k]) && items[k].index < taken[items[k].file])
    && (forall f, r :: 0 <= f < |sizes| && 0 <= r < taken[f] ==> Item(f, r) in items)
    && (forall k, l :: 0 <= k < l < |items| ==> Earlier(items[k], items[l]))
    && used == Used(sizes, items) <= max
  }

  /** File `f` has no record left, or its next one does not fit. */
  predicate Stopped(sizes: seq<seq<nat>>, max: nat, taken: seq<nat>, used: nat, f: nat)
    requires f < |sizes| && f < |taken|
  {
    taken[f] >= |sizes[f]| || used + sizes[f][taken[f]] > max
  }

  /** The first `n` items were taken before the turn of `i` and the others after it, and it did not fit then. */
  ghost predicate RefusedAt(sizes: seq<seq<nat>>, max: nat, items: seq<Item>, i: Item, n: nat)
    requires forall k :: 0 <= k < |items| ==> Exists(sizes, items[k])
  {
    && n <= |items| && Exists(sizes, i)
    && (forall k :: 0 <= k < n ==> Earlier(items[k], i)) && (forall k :: n <= k < |items| ==> Earlier(i, items[k]))
    && Used(sizes, items[..n]) + sizes[i.file][i.index] > max
  }

  /** File `f` has no record left, or its next one did not fit when it was its turn. */
  ghost predicate Ended(sizes: seq<seq<nat>>, max: nat, items: seq<Item>, taken: seq<nat>, f: nat)
    requires f < |sizes| && f < |taken| && forall k :: 0 <= k < |items| ==> Exists(sizes, items[k])
  {
    taken[f] >= |sizes[f]| || exists n: nat :: RefusedAt(sizes, max, items, Item(f, taken[f]), n)
  }

  lemma {:induction false} UsedGrows(sizes: seq<seq<nat>>, items: seq<Item>, n: nat)
    requires n <= |items| && forall k :: 0 <= k < |items| ==> Exists(sizes, items[k])
    ensures Used(sizes, items[..n]) <= Used(sizes, items)
  {
    if n == |items| {
      assert items[..n] == items;
    } else {
      var front := items[..|items| - 1];
      assert front[..n] == items[..n] && Exists(sizes, items[|items| - 1]);
      UsedGrows(sizes, front, n);
    }
  }

  /** What did not fit once does not fit later. */
  lemma EndedIsStopped(sizes: seq<seq<nat>>, max: nat, items: seq<Item>, taken: seq<nat>, used: nat, f: nat)
    requires Taken(sizes, max, items, taken, used) && f < |sizes| && Ended(sizes, max, items, taken, f)
    ensures Stopped(sizes, max, taken, used, f)
  {
    if n: nat :| RefusedAt(sizes, max, items, Item(f, taken[f]), n) { UsedGrows(sizes, items, n); }
  }

  lemma StaysEnded(sizes: seq<seq<nat>>, max: nat, items: seq<Item>, taken: seq<nat>, f: nat, i: Item, more: seq<nat>)
    requires f < |sizes| && f < |taken| && f < |more| && forall k :: 0 <= k < |items| ==> Exists(sizes, items[k])
    requires Ended(sizes, max, items, taken, f) && Exists(sizes, i) && more[f] == taken[f]
    requires Earlier(Item(f, taken[f]), i)
    ensures Ended(sizes, max, items + [i], more, f)
  {
    if n: nat :| RefusedAt(sizes, max, items, Item(f, taken[f]), n) {
      assert (items + [i])[..n] == items[..n];
      assert RefusedAt(sizes, max, items + [i], Item(f, taken[f]), n);
    }
  }

  lemma TakeOne(sizes: seq<seq<nat>>, max: nat, items: seq<Item>, taken: seq<nat>, used: nat, f: nat)
    requires Taken(sizes, max, items, taken, used) && f < |sizes| && taken[f] < |sizes[f]|
    requires used + sizes[f][taken[f]] <= max
    requires forall k :: 0 <= k < |items| ==> Earlier(items[k], Item(f, taken[f]))
    ensures Taken(sizes, max, items + [Item(f, taken[f])], taken[f := taken[f] + 1], used + sizes[f][taken[f]])
  {
    var more := items + [Item(f, taken[f])];
    assert more[..|more| - 1] == items;
    forall g, r | 0 <= g < |sizes| && 0 <= r < taken[f := taken[f] + 1][g] ensures Item(g, r) in more {
      if g != f || r < taken[f] { assert Item(g, r) in items; } else { assert more[|items|] == Item(g, r); }
    }
  }

  /** Where the round stands: files before `f` have had their turn in it. */
  ghost predicate InRound(
      sizes: seq<seq<nat>>, max: nat, items: seq<Item>, taken: seq<nat>, used: nat, round: nat, f: nat)
  {
    && Taken(sizes, max, items, taken, used) && f <= |sizes|
    && (forall k :: 0 <= k < |items| ==> items[k].index < round || (items[k].index == round && items[k].file < f))
    && (forall g :: 0 <= g < f ==>
         taken[g] == round + 1 || (taken[g] <= round && Ended(sizes, max, items, taken, g)))
    && (forall g :: f <= g < |sizes| ==> taken[g] == round || (taken[g] < round && Ended(sizes, max, items, taken, g)))
  }

  /** A record that does not fit when it is its turn ends its file. */
  lemma TurnRefused(sizes: seq<seq<nat>>, max: nat, items: seq<Item>, taken: seq<nat>, used: nat, round: nat, f: nat)
    requires InRound(sizes, max, items, taken, used, round, f) && f < |sizes| && Stopped(sizes, max, taken, used, f)
    ensures InRound(sizes, max, items, taken, used, round, f + 1)
  {
    if taken[f] == round && taken[f] < |sizes[f]| {
      assert items[..|items|] == items;
      assert RefusedAt(sizes, max, items, Item(f, taken[f]), |items|);
    }
  }

  lemma TurnTaken(sizes: seq<seq<nat>>, max: nat, items: seq<Item>, taken: seq<nat>, used: nat, round: nat, f: nat)
    requires InRound(sizes, max, items, taken, used, round, f) && f < |sizes| && !Stopped(sizes, max, taken, used, f)
    ensures taken[f] == round
    ensures InRound(sizes, max, items + [Item(f, taken[f])], taken[f := taken[f] + 1],
                    used + sizes[f][taken[f]], round, f + 1)
  {
    if taken[f] < round { EndedIsStopped(sizes, max, items, taken, used, f); }
    var i, more := Item(f, taken[f]), taken[f := taken[f] + 1];
    TakeOne(sizes, max, items, taken, used, f);
    forall g | 0 <= g < |sizes| && g != f && taken[g] <= round && (g > f ==> taken[g] < round)
      && Ended(sizes, max, items, taken, g)
      ensures Ended(sizes, max, items + [i], more, g)
    {
      StaysEnded(sizes, max, items, taken, g, i, more);
    }
  }

  /** One file's turn: it takes its next record if that fits. */
  method Turn(sizes: seq<seq<nat>>, max: nat, items: seq<Item>, taken: seq<nat>, used: nat, ghost round: nat, f: nat)
      returns (items': seq<Item>, taken': seq<nat>, used': nat, fits: bool)
    requires InRound(sizes, max, items, taken, used, round, f) && f < |sizes|
    ensures InRound(sizes, max, items', taken', used', round, f + 1) && |taken'| == |sizes|
    ensures if fits then Left(sizes, taken') < Left(sizes, taken) else taken' == taken
  {
    if Stopped(sizes, max, taken, used, f) {
      TurnRefused(sizes, max, items, taken, used, round, f);
      return items, taken, used, false;
    }
    TurnTaken(sizes, max, items, taken, used, round, f);
    LeftLess(sizes, taken, f);
    return items + [Item(f, taken[f])], taken[f := taken[f] + 1], used + sizes[f][taken[f]], true;
  }

  /** One round: each file in turn. */
  method Round(sizes: seq<seq<nat>>, max: nat, items: seq<Item>, taken: seq<nat>, used: nat, ghost round: nat)
      returns (items': seq<Item>, taken': seq<nat>, used': nat, progress: bool)
    requires InRound(sizes, max, items, taken, used, round, 0)
    ensures InRound(sizes, max, items', taken', used', round + 1, 0)
    ensures if progress then Left(sizes, taken') < Left(sizes, taken)
            else taken' == taken && forall f :: 0 <= f < |sizes| ==> Ended(sizes, max, items', taken', f)
  {
    items', taken', used', progress := items, taken, used, false;
    for f := 0 to |sizes|
      invariant InRound(sizes, max, items', taken', used', round, f) && |taken'| == |sizes|
      invariant if progress then Left(sizes, taken') < Left(sizes, taken) else taken' == taken
    {
      var fits;
      items', taken', used', fits := Turn(sizes, max, items', taken', used', round, f);
      progress := progress || fits;
    }
    if !progress { NothingTaken(sizes, max, items, taken, used, items', used', round); }
    NextRound(sizes, max, items', taken', used', round);
  }

  /** A round in which no file takes a record ends all of them. */
  lemma NothingTaken(sizes: seq<seq<nat>>, max: nat, items: seq<Item>, taken: seq<nat>, used: nat,
                     items': seq<Item>, used': nat, round: nat)
    requires InRound(sizes, max, items, taken, used, round, 0)
    requires InRound(sizes, max, items', taken, used', round, |sizes|)
    ensures forall f :: 0 <= f < |sizes| ==> Ended(sizes, max, items', taken, f)
  {}

  /** `ration`: round by round one record a file, as long as any fits. */
  method Ration(sizes: seq<seq<nat>>, max: nat) returns (items: seq<Item>, taken: seq<nat>, used: nat)
    ensures Taken(sizes, max, items, taken, used)
    ensures forall f :: 0 <= f < |sizes| ==> Ended(sizes, max, items, taken, f)
  {
    items, taken, used := [], seq(|sizes|, _ => 0), 0;
    NothingYet(sizes, max, taken);
    var progress := true;
    ghost var round := 0;
    while progress
      invariant InRound(sizes, max, items, taken, used, round, 0)
      invariant !progress ==> forall f :: 0 <= f < |sizes| ==> Ended(sizes, max, items, taken, f)
      decreases Left(sizes, taken), progress
    {
      items, taken, used, progress := Round(sizes, max, items, taken, used, round);
      round := round + 1;
    }
  }

  lemma NothingYet(sizes: seq<seq<nat>>, max: nat, taken: seq<nat>)
    requires |taken| == |sizes| && forall f :: 0 <= f < |taken| ==> taken[f] == 0
    ensures InRound(sizes, max, [], taken, 0, 0, 0)
  {}

  lemma NextRound(sizes: seq<seq<nat>>, max: nat, items: seq<Item>, taken: seq<nat>, used: nat, round: nat)
    requires InRound(sizes, max, items, taken, used, round, |sizes|)
    ensures InRound(sizes, max, items, taken, used, round + 1, 0)
  {}

  // ----- what is taken is determined -----

  /** Both lists agree in their first `n` items, and then the first goes on with one that comes before all that the
      second goes on with. */
  ghost predicate Ahead(sizes: seq<seq<nat>>, max: nat, items: seq<Item>, taken: seq<nat>, used: nat,
                        others: seq<Item>, left: seq<nat>, spent: nat, n: nat) {
    && Taken(sizes, max, items, taken, used) && Taken(sizes, max, others, left, spent)
    && n < |items| && n <= |others| && items[..n] == others[..n]
    && forall k :: n <= k < |others| ==> Earlier(items[n], others[k])
  }

  lemma TakenInFront(sizes: seq<seq<nat>>, max: nat, items: seq<Item>, taken: seq<nat>, used: nat,
                     others: seq<Item>, left: seq<nat>, spent: nat, n: nat)
    requires Ahead(sizes, max, items, taken, used, others, left, spent, n)
    ensures Exists(sizes, items[n]) && left[items[n].file] == items[n].index
  {
    var x := items[n];
    var f, r := x.file, x.index;
    assert Exists(sizes, x) && r < taken[f] && x == Item(f, r);
    forall k | 0 <= k < |others| ensures others[k] != x {
      if k < n { assert others[k] == others[..n][k] == items[..n][k] == items[k]; }
    }
    assert left[f] > r ==> Item(f, r) in others;
    if r > 0 {
      assert Item(f, r - 1) in items;
      var k :| 0 <= k < |items| && items[k] == Item(f, r - 1);
      assert !Earlier(items[n], items[k]) && k < n;
      assert others[k] == others[..n][k] == items[..n][k] == items[k];
    }
  }

  lemma PlaceIs(sizes: seq<seq<nat>>, max: nat, others: seq<Item>, x: Item, n: nat, m: nat)
    requires forall k :: 0 <= k < |others| ==> Exists(sizes, others[k])
    requires RefusedAt(sizes, max, others, x, m) && n <= |others|
    requires forall k :: 0 <= k < n ==> Earlier(others[k], x)
    requires forall k :: n <= k < |others| ==> Earlier(x, others[k])
    ensures m == n
  {
    assert m < |others| ==> Earlier(x, others[m]);
    assert n < |others| ==> Earlier(x, others[n]);
  }

  /** It would have fitted when it was its turn. */
  lemma WouldFit(sizes: seq<seq<nat>>, max: nat, items: seq<Item>, taken: seq<nat>, used: nat,
                 others: seq<Item>, left: seq<nat>, spent: nat, n: nat)
    requires Ahead(sizes, max, items, taken, used, others, left, spent, n)
    ensures Exists(sizes, items[n]) && !Ended(sizes, max, others, left, items[n].file)
  {
    var x := items[n];
    TakenInFront(sizes, max, items, taken, used, others, left, spent, n);
    assert x == Item(x.file, left[x.file]);
    UsedGrows(sizes, items, n + 1);
    assert items[..n + 1][..n] == items[..n];
    forall k | 0 <= k < n ensures Earlier(others[k], x) {
      assert others[k] == others[..n][k] == items[..n][k] == items[k];
    }
    forall m: nat | RefusedAt(sizes, max, others, x, m) ensures m == n { PlaceIs(sizes, max, others, x, n, m); }
  }

  lemma NotPassedOver(sizes: seq<seq<nat>>, max: nat, items: seq<Item>, taken: seq<nat>, used: nat,
                      others: seq<Item>, left: seq<nat>, spent: nat, n: nat)
    requires Taken(sizes, max, items, taken, used) && Taken(sizes, max, others, left, spent)
    requires forall f :: 0 <= f < |sizes| ==> Ended(sizes, max, others, left, f)
    requires n < |items| && n <= |others| && items[..n] == others[..n]
    ensures n < |others| && (others[n] == items[n] || Earlier(others[n], items[n]))
  {
    var x := items[n];
    assert n < |others| ==> forall k :: n < k < |others| ==> Earlier(others[n], others[k]);
    if Ahead(sizes, max, items, taken, used, others, left, spent, n) {
      WouldFit(sizes, max, items, taken, used, others, left, spent, n);
    }
  }

  lemma {:induction false} SameInFront(sizes: seq<seq<nat>>, max: nat, items: seq<Item>, taken: seq<nat>, used: nat,
                                       others: seq<Item>, left: seq<nat>, spent: nat, n: nat)
    requires Taken(sizes, max, items, taken, used) && Taken(sizes, max, others, left, spent)
    requires forall f :: 0 <= f < |sizes| ==> Ended(sizes, max, items, taken, f) && Ended(sizes, max, others, left, f)
    requires n <= |items|
    ensures n <= |others| && items[..n] == others[..n]
  {
    if n > 0 {
      SameInFront(sizes, max, items, taken, used, others, left, spent, n - 1);
      NotPassedOver(sizes, max, items, taken, used, others, left, spent, n - 1);
      NotPassedOver(sizes, max, others, left, spent, items, taken, used, n - 1);
      assert items[..n] == items[..n - 1] + [items[n - 1]] && others[..n] == others[..n - 1] + [others[n - 1]];
    }
  }

  /** The sizes and the budget determine what is taken, and in what order. */
  lemma RationIsUnique(sizes: seq<seq<nat>>, max: nat, items: seq<Item>, taken: seq<nat>, used: nat,
                       others: seq<Item>, left: seq<nat>, spent: nat)
    requires Taken(sizes, max, items, taken, used) && Taken(sizes, max, others, left, spent)
    requires forall f :: 0 <= f < |sizes| ==> Ended(sizes, max, items, taken, f) && Ended(sizes, max, others, left, f)
    ensures items == others
  {
    SameInFront(sizes, max, items, taken, used, others, left, spent, |items|);
    SameInFront(sizes, max, others, left, spent, items, taken, used, |others|);
    assert items[..|items|] == items && others[..|others|] == others;
  }

  /** The records not taken. */
  function Left(sizes: seq<seq<nat>>, taken: seq<nat>): nat {
    if sizes == [] || |taken| != |sizes| then 0
    else
      var k := |sizes| - 1;
      Left(sizes[..k], taken[..k]) + if taken[k] <= |sizes[k]| then |sizes[k]| - taken[k] else 0
  }

  lemma {:induction false} LeftLess(sizes: seq<seq<nat>>, taken: seq<nat>, f: nat)
    requires |taken| == |sizes| && f < |sizes| && taken[f] < |sizes[f]|
    ensures Left(sizes, taken[f := taken[f] + 1]) == Left(sizes, taken) - 1
  {
    var k := |sizes| - 1;
    if f == k {
      assert taken[f := taken[f] + 1][..k] == taken[..k];
    } else {
      assert taken[f := taken[f] + 1][..k] == taken[..k][f := taken[f] + 1];
      LeftLess(sizes[..k], taken[..k], f);
    }
  }
}
