/** Which section explains a leaf that several sections reach. Sections and leaves are numbered. */
module Ownership {
  import opened Basics

  type Leaf = nat
  /** How many of a section's terms occur in a leaf's text. */
  type Score = (nat, Leaf) -> nat

  /** What `leaves_under` promises: the sections reach leaves of the tree, none twice. */
  predicate Reach(leaves: seq<Leaf>, reached: seq<seq<Leaf>>) {
    && Distinct(leaves)
    && forall s :: 0 <= s < |reached| ==> Distinct(reached[s]) && forall l :: l in reached[s] ==> l in leaves
  }

  /** The sections below `n` that reach the leaf, in order. */
  function Claims(reached: seq<seq<Leaf>>, leaf: Leaf, n: nat): (c: seq<nat>)
    requires n <= |reached|
    ensures forall s :: s in c <==> 0 <= s < n && leaf in reached[s]
    ensures forall i, j :: 0 <= i < j < |c| ==> c[i] < c[j]
  {
    if n == 0 then []
    else
      var rest := Claims(reached, leaf, n - 1);
      assert forall i :: 0 <= i < |rest| ==> rest[i] in rest;
      if leaf in reached[n - 1] then rest + [n - 1] else rest
  }

  function Candidates(reached: seq<seq<Leaf>>, leaf: Leaf): seq<nat> {
    Claims(reached, leaf, |reached|)
  }

  predicate Shared(reached: seq<seq<Leaf>>, leaf: Leaf) {
    |Candidates(reached, leaf)| >= 2
  }

  /** How many of the first `k` leaves section `s` has won. */
  function Won(leaves: seq<Leaf>, owner: map<Leaf, nat>, k: nat, s: nat): nat
    requires k <= |leaves|
  {
    if k == 0 then 0
    else Won(leaves, owner, k - 1, s) + if leaves[k - 1] in owner && owner[leaves[k - 1]] == s then 1 else 0
  }

  /** Section `s` comes before section `c` for a leaf: it matches it better, or as well and has won less,
      or as much and stands first. */
  predicate Precedes(won: seq<nat>, score: Score, leaf: Leaf, s: nat, c: nat)
    requires s < |won| && c < |won|
  {
    score(s, leaf) > score(c, leaf)
    || (score(s, leaf) == score(c, leaf) && (won[s] < won[c] || (won[s] == won[c] && s <= c)))
  }

  predicate Chosen(won: seq<nat>, score: Score, leaf: Leaf, candidates: seq<nat>, s: nat)
    requires forall c :: c in candidates ==> c < |won|
  {
    s in candidates && forall c :: c in candidates ==> Precedes(won, score, leaf, s, c)
  }

  lemma OneIsChosen(won: seq<nat>, score: Score, leaf: Leaf, candidates: seq<nat>, s: nat, t: nat)
    requires forall c :: c in candidates ==> c < |won|
    requires Chosen(won, score, leaf, candidates, s) && Chosen(won, score, leaf, candidates, t)
    ensures s == t
  {
    assert Precedes(won, score, leaf, s, t) && Precedes(won, score, leaf, t, s);
  }

  ghost function Counts(leaves: seq<Leaf>, owner: map<Leaf, nat>, k: nat, n: nat): (won: seq<nat>)
    requires k <= |leaves|
    ensures |won| == n && forall s :: 0 <= s < n ==> won[s] == Won(leaves, owner, k, s)
  {
    seq(n, s requires 0 <= s < n => Won(leaves, owner, k, s))
  }

  /** The owners of the shared leaves among the first `k`. */
  ghost predicate Owned(leaves: seq<Leaf>, reached: seq<seq<Leaf>>, score: Score, owner: map<Leaf, nat>, k: nat)
    requires k <= |leaves|
  {
    && (forall l :: l in owner ==> l in leaves[..k])
    && forall i :: 0 <= i < k ==>
         (leaves[i] in owner <==> Shared(reached, leaves[i]))
         && (leaves[i] in owner ==>
               Chosen(Counts(leaves, owner, i, |reached|), score, leaves[i], Candidates(reached, leaves[i]),
                 owner[leaves[i]]))
  }

  /** The best score, the first of the sections that have it and have won least. */
  method Choose(won: seq<nat>, score: Score, leaf: Leaf, candidates: seq<nat>) returns (chosen: nat)
    requires candidates != [] && forall i :: 0 <= i < |candidates| ==> candidates[i] < |won|
    requires forall i, j :: 0 <= i < j < |candidates| ==> candidates[i] < candidates[j]
    ensures Chosen(won, score, leaf, candidates, chosen)
  {
    var best := 0;
    for i := 0 to |candidates|
      invariant forall k :: 0 <= k < i ==> score(candidates[k], leaf) <= best
      invariant i > 0 ==> exists k :: 0 <= k < i && score(candidates[k], leaf) == best
    {
      if i == 0 || score(candidates[i], leaf) > best { best := score(candidates[i], leaf); }
    }
    var found := false;
    chosen := candidates[0];
    for i := 0 to |candidates|
      invariant !found ==> forall k :: 0 <= k < i ==> score(candidates[k], leaf) != best
      invariant found ==> chosen in candidates[..i] && score(chosen, leaf) == best
      invariant found ==> forall k :: 0 <= k < i && score(candidates[k], leaf) == best ==>
          won[chosen] < won[candidates[k]] || (won[chosen] == won[candidates[k]] && chosen <= candidates[k])
    {
      var c := candidates[i];
      if score(c, leaf) == best && (!found || won[c] < won[chosen]) { found, chosen := true, c; }
    }
  }

  lemma {:induction false} WonSame(leaves: seq<Leaf>, owner: map<Leaf, nat>, leaf: Leaf, o: nat, k: nat, s: nat)
    requires k <= |leaves| && leaf !in leaves[..k]
    ensures Won(leaves, owner[leaf := o], k, s) == Won(leaves, owner, k, s)
  {
    if k > 0 {
      assert leaves[k - 1] in leaves[..k] && forall l :: l in leaves[..k - 1] ==> l in leaves[..k];
      WonSame(leaves, owner, leaf, o, k - 1, s);
    }
  }

  /** Deciding one more leaf changes no earlier count. */
  lemma CountsSame(leaves: seq<Leaf>, owner: map<Leaf, nat>, leaf: Leaf, o: nat, k: nat, n: nat)
    requires k <= |leaves| && leaf !in leaves[..k]
    ensures Counts(leaves, owner[leaf := o], k, n) == Counts(leaves, owner, k, n)
  {
    forall s | 0 <= s < n ensures Won(leaves, owner[leaf := o], k, s) == Won(leaves, owner, k, s) {
      WonSame(leaves, owner, leaf, o, k, s);
    }
  }

  lemma OneMoreOwner(leaves: seq<Leaf>, reached: seq<seq<Leaf>>, score: Score, owner: map<Leaf, nat>, k: nat, o: nat)
    requires Distinct(leaves) && k < |leaves| && Owned(leaves, reached, score, owner, k) && Shared(reached, leaves[k])
    requires Chosen(Counts(leaves, owner, k, |reached|), score, leaves[k], Candidates(reached, leaves[k]), o)
    ensures Owned(leaves, reached, score, owner[leaves[k] := o], k + 1)
  {
    var next := owner[leaves[k] := o];
    forall i | 0 <= i < k + 1
      ensures (leaves[i] in next <==> Shared(reached, leaves[i]))
        && (leaves[i] in next ==>
              Chosen(Counts(leaves, next, i, |reached|), score, leaves[i], Candidates(reached, leaves[i]),
                next[leaves[i]]))
    {
      assert leaves[k] !in leaves[..i];
      CountsSame(leaves, owner, leaves[k], o, i, |reached|);
    }
    assert forall l :: l in leaves[..k] ==> l in leaves[..k + 1];
    assert leaves[..k + 1][k] == leaves[k];
  }

  /** `ownership`: every shared leaf goes to exactly one section. */
  method Own(leaves: seq<Leaf>, reached: seq<seq<Leaf>>, score: Score) returns (owner: map<Leaf, nat>)
    requires Reach(leaves, reached)
    ensures Owned(leaves, reached, score, owner, |leaves|)
  {
    owner := map[];
    var won := seq(|reached|, _ => 0);
    for k := 0 to |leaves|
      invariant Owned(leaves, reached, score, owner, k) && won == Counts(leaves, owner, k, |reached|)
    {
      var leaf := leaves[k];
      var candidates := Candidates(reached, leaf);
      assert leaf !in leaves[..k];
      if |candidates| >= 2 {
        assert forall i :: 0 <= i < |candidates| ==> candidates[i] in candidates;
        var chosen := Choose(won, score, leaf, candidates);
        OneMoreOwner(leaves, reached, score, owner, k, chosen);
        CountsSame(leaves, owner, leaf, chosen, k, |reached|);
        won := won[chosen := won[chosen] + 1];
        owner := owner[leaf := chosen];
      } else {
        NotShared(leaves, reached, score, owner, k);
      }
    }
  }

  lemma NotShared(leaves: seq<Leaf>, reached: seq<seq<Leaf>>, score: Score, owner: map<Leaf, nat>, k: nat)
    requires k < |leaves| && leaves[k] !in leaves[..k] && Owned(leaves, reached, score, owner, k)
      && !Shared(reached, leaves[k])
    ensures Owned(leaves, reached, score, owner, k + 1)
    ensures Counts(leaves, owner, k + 1, |reached|) == Counts(leaves, owner, k, |reached|)
  {
    assert forall l :: l in leaves[..k] ==> l in leaves[..k + 1];
  }

  // ----- every section computes the same owners -----

  predicate Agree(a: map<Leaf, nat>, b: map<Leaf, nat>, leaf: Leaf) {
    (leaf in a <==> leaf in b) && (leaf in a && leaf in b ==> a[leaf] == b[leaf])
  }

  lemma {:induction false} WonAgrees(leaves: seq<Leaf>, a: map<Leaf, nat>, b: map<Leaf, nat>, k: nat, s: nat)
    requires k <= |leaves| && forall i :: 0 <= i < k ==> Agree(a, b, leaves[i])
    ensures Won(leaves, a, k, s) == Won(leaves, b, k, s)
  {
    if k > 0 {
      WonAgrees(leaves, a, b, k - 1, s);
      assert Agree(a, b, leaves[k - 1]);
    }
  }

  lemma {:induction false} LeafAgrees(
      leaves: seq<Leaf>, reached: seq<seq<Leaf>>, score: Score, a: map<Leaf, nat>, b: map<Leaf, nat>, i: nat)
    requires i < |leaves|
    requires Owned(leaves, reached, score, a, |leaves|) && Owned(leaves, reached, score, b, |leaves|)
    ensures Agree(a, b, leaves[i])
  {
    forall k | 0 <= k < i ensures Agree(a, b, leaves[k]) { LeafAgrees(leaves, reached, score, a, b, k); }
    var n := |reached|;
    forall s | 0 <= s < n ensures Won(leaves, a, i, s) == Won(leaves, b, i, s) { WonAgrees(leaves, a, b, i, s); }
    assert Counts(leaves, a, i, n) == Counts(leaves, b, i, n);
    if leaves[i] in a && leaves[i] in b {
      OneIsChosen(Counts(leaves, a, i, n), score, leaves[i], Candidates(reached, leaves[i]), a[leaves[i]],
        b[leaves[i]]);
    }
  }

  /** The owners are determined: whichever section asks gets the same ones. */
  lemma OwnersAreUnique(leaves: seq<Leaf>, reached: seq<seq<Leaf>>, score: Score, a: map<Leaf, nat>, b: map<Leaf, nat>)
    requires Owned(leaves, reached, score, a, |leaves|) && Owned(leaves, reached, score, b, |leaves|)
    ensures a == b
  {
    assert leaves[..|leaves|] == leaves;
    forall l | l in leaves ensures Agree(a, b, l) {
      var i :| 0 <= i < |leaves| && leaves[i] == l;
      LeafAgrees(leaves, reached, score, a, b, i);
    }
    assert forall l :: l in a || l in b ==> l in leaves && Agree(a, b, l);
  }

  // ----- ties are spread evenly -----

  /** The winner of a leaf that all match equally well had won no more than any other, and stood first if as many. */
  lemma TieGoesToTheLeast(won: seq<nat>, score: Score, leaf: Leaf, same: seq<nat>, o: nat, s: nat, t: nat)
    requires (forall c :: c in same ==> c < |won|) && Chosen(won, score, leaf, same, o) && s in same && t in same
      && s <= t
    requires forall c, d :: c in same && d in same ==> score(c, leaf) == score(d, leaf)
    ensures o == s ==> won[s] <= won[t]
    ensures o == t && s < t ==> won[t] < won[s]
  {
    assert Precedes(won, score, leaf, o, s) && Precedes(won, score, leaf, o, t);
  }

  /** When all shared leaves are reached by the same sections and match them equally well, no section ends
      up with more than one leaf more than another. */
  lemma {:induction false} TiesAreSpread(
      leaves: seq<Leaf>, reached: seq<seq<Leaf>>, score: Score, owner: map<Leaf, nat>, same: seq<nat>,
      k: nat, s: nat, t: nat)
    requires k <= |leaves| && Owned(leaves, reached, score, owner, |leaves|) && s in same && t in same
      && s <= t < |reached|
    requires forall i :: 0 <= i < |leaves| && Shared(reached, leaves[i]) ==> Candidates(reached, leaves[i]) == same
    requires forall i, c, d :: 0 <= i < |leaves| && c in same && d in same ==>
      score(c, leaves[i]) == score(d, leaves[i])
    ensures Won(leaves, owner, k, t) <= Won(leaves, owner, k, s) <= Won(leaves, owner, k, t) + 1
  {
    if k > 0 {
      TiesAreSpread(leaves, reached, score, owner, same, k - 1, s, t);
      var leaf := leaves[k - 1];
      if leaf in owner {
        TieGoesToTheLeast(Counts(leaves, owner, k - 1, |reached|), score, leaf, same, owner[leaf], s, t);
      }
    }
  }

  // ----- what a section keeps -----

  predicate Keeps(owner: map<Leaf, nat>, index: nat, leaf: Leaf) {
    leaf in owner ==> owner[leaf] == index
  }

  /** The leaves of `mine` that the section keeps, in reading order. */
  function Mine(owner: map<Leaf, nat>, index: nat, mine: seq<Leaf>): (r: seq<Leaf>)
    ensures forall l :: l in r <==> l in mine && Keeps(owner, index, l)
  {
    if mine == [] then []
    else
      assert mine == [mine[0]] + mine[1..];
      (if Keeps(owner, index, mine[0]) then [mine[0]] else []) + Mine(owner, index, mine[1..])
  }

  /** Every leaf that some section reaches is kept by exactly one of those that reach it. */
  lemma ExactlyOneKeeps(
      leaves: seq<Leaf>, reached: seq<seq<Leaf>>, score: Score, owner: map<Leaf, nat>, leaf: Leaf, s: nat)
      returns (keeper: nat)
    requires Reach(leaves, reached) && Owned(leaves, reached, score, owner, |leaves|)
    requires s < |reached| && leaf in reached[s]
    ensures keeper < |reached|
    ensures forall t :: 0 <= t < |reached| ==> (leaf in Mine(owner, t, reached[t]) <==> t == keeper)
  {
    var candidates := Candidates(reached, leaf);
    assert s in candidates;
    var k :| 0 <= k < |leaves| && leaves[k] == leaf;
    if leaf in owner {
      keeper := owner[leaf];
    } else {
      keeper := s;
      assert |candidates| == 1;
      forall t | 0 <= t < |reached| && leaf in reached[t] ensures t == s { assert t in candidates; }
    }
  }

  /** `i` is placed before `j`, both being places in `mine`: the better match first, reading order among equals. */
  predicate Ahead(score: Score, index: nat, mine: seq<Leaf>, i: nat, j: nat)
    requires i < |mine| && j < |mine|
  {
    score(index, mine[i]) > score(index, mine[j]) || (score(index, mine[i]) == score(index, mine[j]) && i < j)
  }

  /** The places of `mine` below `n` that are kept, in the order they are listed in. */
  ghost predicate Listed(owner: map<Leaf, nat>, score: Score, index: nat, mine: seq<Leaf>, n: nat, places: seq<nat>)
    requires n <= |mine|
  {
    && (forall i :: 0 <= i < n && Keeps(owner, index, mine[i]) ==> i in places)
    && (forall k :: 0 <= k < |places| ==> places[k] < n && Keeps(owner, index, mine[places[k]]))
    && forall k, l :: 0 <= k < l < |places| ==> Ahead(score, index, mine, places[k], places[l])
  }

  /** One more leaf goes behind those that match at least as well. */
  method Insert(owner: map<Leaf, nat>, score: Score, index: nat, mine: seq<Leaf>, n: nat, places: seq<nat>)
      returns (more: seq<nat>)
    requires n < |mine| && Listed(owner, score, index, mine, n, places) && Keeps(owner, index, mine[n])
    ensures Listed(owner, score, index, mine, n + 1, more) && |more| == |places| + 1
  {
    var at := 0;
    while at < |places| && score(index, mine[places[at]]) >= score(index, mine[n])
      invariant at <= |places| && forall k :: 0 <= k < at ==> score(index, mine[places[k]]) >= score(index, mine[n])
    {
      at := at + 1;
    }
    more := With(places, at, n);
    Inserted(owner, score, index, mine, n, places, at);
  }

  function With(places: seq<nat>, at: nat, n: nat): (more: seq<nat>)
    requires at <= |places|
    ensures |more| == |places| + 1
    ensures forall k :: 0 <= k < |more| ==> more[k] == if k < at then places[k] else if k == at then n
      else places[k - 1]
  {
    places[..at] + [n] + places[at..]
  }

  /** The places of `places` are in order, and place `n` fits at `at`. */
  lemma InsertedInOrder(score: Score, index: nat, mine: seq<Leaf>, places: seq<nat>, n: nat, at: nat, k: nat, l: nat)
    requires n < |mine| && at <= |places| && (forall i :: 0 <= i < |places| ==> places[i] < n)
    requires forall i, j :: 0 <= i < j < |places| ==> Ahead(score, index, mine, places[i], places[j])
    requires forall i :: 0 <= i < at ==> score(index, mine[places[i]]) >= score(index, mine[n])
    requires forall i :: at <= i < |places| ==> score(index, mine[places[i]]) < score(index, mine[n])
    requires k < l <= |places|
    ensures var more := With(places, at, n); more[k] <= n && more[l] <= n && Ahead(score, index, mine, more[k], more[l])
  {
    var more := With(places, at, n);
    if k != at && l != at {
      assert Ahead(score, index, mine, places[if k < at then k else k - 1], places[if l < at then l else l - 1]);
    }
  }

  lemma Inserted(owner: map<Leaf, nat>, score: Score, index: nat, mine: seq<Leaf>, n: nat, places: seq<nat>, at: nat)
    requires n < |mine| && Listed(owner, score, index, mine, n, places) && Keeps(owner, index, mine[n])
      && at <= |places|
    requires forall k :: 0 <= k < at ==> score(index, mine[places[k]]) >= score(index, mine[n])
    requires at < |places| ==> score(index, mine[places[at]]) < score(index, mine[n])
    ensures Listed(owner, score, index, mine, n + 1, With(places, at, n))
  {
    var more := With(places, at, n);
    forall k | at <= k < |places| ensures score(index, mine[places[k]]) < score(index, mine[n]) {
      assert k == at || Ahead(score, index, mine, places[at], places[k]);
    }
    forall k, l | 0 <= k < l < |more|
      ensures more[k] <= n && more[l] <= n && Ahead(score, index, mine, more[k], more[l])
    {
      InsertedInOrder(score, index, mine, places, n, at, k, l);
    }
    forall i | 0 <= i < n + 1 && Keeps(owner, index, mine[i]) ensures i in more { Found(places, n, at, i); }
  }

  lemma Found(places: seq<nat>, n: nat, at: nat, i: nat)
    requires at <= |places| && (i in places || i == n)
    ensures i in With(places, at, n)
  {
    assert places == places[..at] + places[at..];
  }

  /** `kept`: the section's own leaves, best match first, and how many it leaves to other sections. */
  method Kept(owner: map<Leaf, nat>, score: Score, index: nat, mine: seq<Leaf>)
      returns (kept: seq<Leaf>, elsewhere: nat, ghost places: seq<nat>)
    ensures Listed(owner, score, index, mine, |mine|, places)
    ensures |kept| == |places| && forall k :: 0 <= k < |kept| ==> places[k] < |mine| && kept[k] == mine[places[k]]
    ensures |kept| + elsewhere == |mine|
  {
    kept, elsewhere := [], 0;
    var order: seq<nat> := [];
    for i := 0 to |mine|
      invariant Listed(owner, score, index, mine, i, order) && |order| + elsewhere == i
    {
      if mine[i] in owner && owner[mine[i]] != index {
        elsewhere := elsewhere + 1;
      } else {
        order := Insert(owner, score, index, mine, i, order);
      }
    }
    places := order;
    for k := 0 to |order|
      invariant |kept| == k && forall m :: 0 <= m < k ==> order[m] < |mine| && kept[m] == mine[order[m]]
    {
      kept := kept + [mine[order[k]]];
    }
  }

  lemma ListedIsMine(
      owner: map<Leaf, nat>, score: Score, index: nat, mine: seq<Leaf>, places: seq<nat>, kept: seq<Leaf>)
    requires Listed(owner, score, index, mine, |mine|, places) && |kept| == |places|
    requires forall k :: 0 <= k < |kept| ==> places[k] < |mine| && kept[k] == mine[places[k]]
    ensures forall l :: l in kept <==> l in Mine(owner, index, mine)
  {
    forall l | l in Mine(owner, index, mine) ensures l in kept {
      var i :| 0 <= i < |mine| && mine[i] == l;
      var k :| 0 <= k < |places| && places[k] == i;
      assert kept[k] == l;
    }
  }

  datatype Part = Part(kept: seq<Leaf>, elsewhere: nat)

  predicate Placed(kept: seq<Leaf>, mine: seq<Leaf>, places: seq<nat>) {
    |kept| == |places| && forall k :: 0 <= k < |kept| ==> places[k] < |mine| && kept[k] == mine[places[k]]
  }

  /** What section `s` gets of `mine` under these owners: its own leaves, best match first and in reading order
      among equals, and how many it leaves to other sections. */
  ghost predicate IsPart(part: Part, owner: map<Leaf, nat>, score: Score, s: nat, mine: seq<Leaf>) {
    && |part.kept| + part.elsewhere == |mine|
    && exists places :: Listed(owner, score, s, mine, |mine|, places) && Placed(part.kept, mine, places)
  }

  lemma NoneTwice(owner: map<Leaf, nat>, score: Score, s: nat, mine: seq<Leaf>, p: seq<nat>, i: nat, j: nat)
    requires Listed(owner, score, s, mine, |mine|, p) && i < j < |p|
    ensures p[i] != p[j]
  {
    assert Ahead(score, s, mine, p[i], p[j]);
  }

  lemma NotCrossed(
      owner: map<Leaf, nat>, score: Score, s: nat, mine: seq<Leaf>, p: seq<nat>, q: seq<nat>, k: nat, i: nat, j: nat)
    requires Listed(owner, score, s, mine, |mine|, p) && Listed(owner, score, s, mine, |mine|, q)
    requires k < i < |p| && k < j < |q|
    ensures !(p[i] == q[k] && q[j] == p[k])
  {
    assert Ahead(score, s, mine, p[k], p[i]) && Ahead(score, s, mine, q[k], q[j]);
  }

  /** Listings that agree so far agree on the next place. */
  lemma ListedAlike(owner: map<Leaf, nat>, score: Score, s: nat, mine: seq<Leaf>, p: seq<nat>, q: seq<nat>, k: nat)
    requires Listed(owner, score, s, mine, |mine|, p) && Listed(owner, score, s, mine, |mine|, q)
    requires k < |p| && k <= |q| && p[..k] == q[..k]
    ensures k < |q| && q[k] == p[k]
  {
    assert p[k] in q;
    var j :| 0 <= j < |q| && q[j] == p[k];
    if j < k {
      assert p[..k][j] == q[..k][j];
      NoneTwice(owner, score, s, mine, p, j, k);
    }
    assert q[k] in p;
    var i :| 0 <= i < |p| && p[i] == q[k];
    if i < k {
      assert p[..k][i] == q[..k][i];
      NoneTwice(owner, score, s, mine, q, i, k);
    }
    if i > k && j > k { NotCrossed(owner, score, s, mine, p, q, k, i, j); }
  }

  lemma {:induction false} ListedTo(
      owner: map<Leaf, nat>, score: Score, s: nat, mine: seq<Leaf>, p: seq<nat>, q: seq<nat>, k: nat)
    requires Listed(owner, score, s, mine, |mine|, p) && Listed(owner, score, s, mine, |mine|, q) && k <= |p|
    ensures k <= |q| && p[..k] == q[..k]
  {
    if k > 0 {
      ListedTo(owner, score, s, mine, p, q, k - 1);
      ListedAlike(owner, score, s, mine, p, q, k - 1);
      assert p[..k] == p[..k - 1] + [p[k - 1]] && q[..k] == q[..k - 1] + [q[k - 1]];
    }
  }

  /** The order is determined. */
  lemma ListedIsUnique(owner: map<Leaf, nat>, score: Score, s: nat, mine: seq<Leaf>, p: seq<nat>, q: seq<nat>)
    requires Listed(owner, score, s, mine, |mine|, p) && Listed(owner, score, s, mine, |mine|, q)
    ensures p == q
  {
    ListedTo(owner, score, s, mine, p, q, |p|);
    ListedTo(owner, score, s, mine, q, p, |q|);
  }

  lemma PartIsUnique(owner: map<Leaf, nat>, score: Score, s: nat, mine: seq<Leaf>, a: Part, b: Part)
    requires IsPart(a, owner, score, s, mine) && IsPart(b, owner, score, s, mine)
    ensures a == b
  {
    var p :| Listed(owner, score, s, mine, |mine|, p) && Placed(a.kept, mine, p);
    var q :| Listed(owner, score, s, mine, |mine|, q) && Placed(b.kept, mine, q);
    ListedIsUnique(owner, score, s, mine, p, q);
  }

  /** `assign_leaves`: what one section gets when it asks alone. */
  method AssignLeaves(leaves: seq<Leaf>, reached: seq<seq<Leaf>>, score: Score, s: nat, mine: seq<Leaf>)
      returns (part: Part)
    requires Reach(leaves, reached)
    ensures forall owner :: Owned(leaves, reached, score, owner, |leaves|) ==> IsPart(part, owner, score, s, mine)
  {
    var own := Own(leaves, reached, score);
    var kept, elsewhere, places := Kept(own, score, s, mine);
    part := Part(kept, elsewhere);
    assert Placed(kept, mine, places);
    forall owner | Owned(leaves, reached, score, owner, |leaves|) ensures IsPart(part, owner, score, s, mine) {
      OwnersAreUnique(leaves, reached, score, own, owner);
    }
  }

  /** `assign_all`: every section's part in one pass, each the one determined by the owners; and each leaf that
      some section reaches is kept by exactly one. */
  method AssignAll(leaves: seq<Leaf>, reached: seq<seq<Leaf>>, score: Score) returns (parts: seq<Part>)
    requires Reach(leaves, reached)
    ensures |parts| == |reached|
    ensures forall owner, s :: Owned(leaves, reached, score, owner, |leaves|) && 0 <= s < |parts| ==>
              IsPart(parts[s], owner, score, s, reached[s])
    ensures forall s, l :: 0 <= s < |reached| && l in reached[s] ==> KeptOnce(parts, l)
  {
    var own := Own(leaves, reached, score);
    parts := [];
    for s := 0 to |reached|
      invariant |parts| == s
      invariant forall t :: 0 <= t < s ==> IsPart(parts[t], own, score, t, reached[t])
    {
      var kept, elsewhere, places := Kept(own, score, s, reached[s]);
      assert Placed(kept, reached[s], places);
      parts := parts + [Part(kept, elsewhere)];
    }
    forall owner, s | Owned(leaves, reached, score, owner, |leaves|) && 0 <= s < |parts|
      ensures IsPart(parts[s], owner, score, s, reached[s])
    {
      OwnersAreUnique(leaves, reached, score, own, owner);
    }
    forall s, l | 0 <= s < |reached| && l in reached[s] ensures KeptOnce(parts, l) {
      PartsKeepOnce(leaves, reached, score, own, parts, l, s);
    }
  }

  /** Asking for all sections at once gives each what it would get alone. */
  method AssignBothWays(leaves: seq<Leaf>, reached: seq<seq<Leaf>>, score: Score, s: nat)
      returns (parts: seq<Part>, part: Part)
    requires Reach(leaves, reached) && s < |reached|
    ensures |parts| == |reached| && part == parts[s]
    ensures forall owner, t :: Owned(leaves, reached, score, owner, |leaves|) && 0 <= t < |parts| ==>
              IsPart(parts[t], owner, score, t, reached[t])
  {
    parts := AssignAll(leaves, reached, score);
    part := AssignLeaves(leaves, reached, score, s, reached[s]);
    var own := Own(leaves, reached, score);
    PartIsUnique(own, score, s, reached[s], part, parts[s]);
  }

  ghost predicate KeptOnce(parts: seq<Part>, l: Leaf) {
    exists t :: 0 <= t < |parts| && l in parts[t].kept && forall u :: 0 <= u < |parts| && u != t ==> l !in parts[u].kept
  }

  lemma PartKeepsMine(part: Part, owner: map<Leaf, nat>, score: Score, s: nat, mine: seq<Leaf>, l: Leaf)
    requires IsPart(part, owner, score, s, mine)
    ensures l in part.kept <==> l in Mine(owner, s, mine)
  {
    var places :| Listed(owner, score, s, mine, |mine|, places) && Placed(part.kept, mine, places);
    ListedIsMine(owner, score, s, mine, places, part.kept);
  }

  lemma PartsKeepOnce(
      leaves: seq<Leaf>, reached: seq<seq<Leaf>>, score: Score, owner: map<Leaf, nat>, parts: seq<Part>,
      l: Leaf, s: nat)
    requires Reach(leaves, reached) && Owned(leaves, reached, score, owner, |leaves|)
    requires s < |reached| == |parts| && l in reached[s]
    requires forall t :: 0 <= t < |parts| ==> IsPart(parts[t], owner, score, t, reached[t])
    ensures KeptOnce(parts, l)
  {
    var t := ExactlyOneKeeps(leaves, reached, score, owner, l, s);
    forall u | 0 <= u < |parts| ensures l in parts[u].kept <==> u == t {
      PartKeepsMine(parts[u], owner, score, u, reached[u], l);
    }
  }
}
