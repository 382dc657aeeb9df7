/** Ordering whole-source chunks so that connected ones are read together. */
module GraphOrder {
  import opened Basics

  /** Weighted neighbours of every chunk. */
  type Adjacency = seq<map<nat, nat>>

  predicate InRange(adj: Adjacency) {
    forall u, v :: 0 <= u < |adj| && v in adj[u] ==> v < |adj|
  }

  predicate Symmetric(adj: Adjacency) {
    InRange(adj) && forall u, v :: 0 <= u < |adj| && v in adj[u] ==> u in adj[v] && adj[v][u] == adj[u][v]
  }

  function Weight(m: map<nat, nat>, v: nat): nat {
    if v in m then m[v] else 0
  }

  function Heavier(m: map<nat, nat>, v: nat, weight: nat): map<nat, nat> {
    var w: nat := Weight(m, v) + weight;
    m[v := w]
  }

  /** `link`: adds weight both ways; a chunk is never linked to itself. */
  function Link(adj: Adjacency, left: nat, right: nat, weight: nat): Adjacency
    requires left < |adj| && right < |adj|
  {
    if left == right then adj
    else
      var one := adj[left := Heavier(adj[left], right, weight)];
      one[right := Heavier(one[right], left, weight)]
  }

  lemma LinkKeepsSymmetric(adj: Adjacency, left: nat, right: nat, weight: nat)
    requires Symmetric(adj) && left < |adj| && right < |adj|
    ensures Symmetric(Link(adj, left, right, weight)) && |Link(adj, left, right, weight)| == |adj|
    ensures left != right ==> right in Link(adj, left, right, weight)[left]
    ensures left != right ==>
      Link(adj, left, right, weight)[left][right] == (if right in adj[left] then adj[left][right] else 0) + weight
    ensures forall u, v :: 0 <= u < |adj| && {u, v} != {left, right} ==>
              (v in Link(adj, left, right, weight)[u] <==> v in adj[u])
              && (v in adj[u] ==> Link(adj, left, right, weight)[u][v] == adj[u][v])
  {
    assert forall u, v: nat :: {u, v} == {left, right} <==> (u == left && v == right) || (u == right && v == left);
    if left != right {
      assert Weight(adj[right], left) == Weight(adj[left], right);
    }
  }

  // ----- neighbours, strongest first -----

  /** `u` is visited before `v` among the neighbours `m`: heavier, or as heavy with a lower index. */
  predicate Prefers(m: map<nat, nat>, u: nat, v: nat)
    requires u in m && v in m
  {
    m[u] > m[v] || (m[u] == m[v] && u <= v)
  }

  ghost predicate Strongest(m: map<nat, nat>, s: set<nat>, u: nat) {
    u in s && u in m && forall v :: v in s && v in m ==> Prefers(m, u, v)
  }

  lemma StrongestExists(m: map<nat, nat>, s: set<nat>) returns (u: nat)
    requires s != {} && s <= m.Keys
    ensures Strongest(m, s, u)
  {
    u :| u in s;
    if s != {u} {
      assert s == {u} + (s - {u});
      var v := StrongestExists(m, s - {u});
      if !Prefers(m, u, v) { u := v; }
    }
  }

  /** `r` lists the neighbours, strongest first. */
  ghost predicate Ranks(m: map<nat, nat>, r: seq<nat>) {
    && (forall v :: v in r <==> v in m)
    && (forall i, j :: 0 <= i < j < |r| ==> r[i] in m && r[j] in m && r[i] != r[j] && Prefers(m, r[i], r[j]))
  }

  /** The neighbours in the order they are to be visited. */
  method Ranked(m: map<nat, nat>) returns (r: seq<nat>)
    ensures Ranks(m, r)
    ensures forall i, j :: 0 <= i < j < |r| ==>
      r[i] in m && r[j] in m && (m[r[i]] > m[r[j]] || (m[r[i]] == m[r[j]] && r[i] < r[j]))
  {
    r := [];
    var left := m.Keys;
    while left != {}
      invariant left <= m.Keys
      invariant forall v :: v in m <==> v in r || v in left
      invariant forall v :: v in r ==> v !in left
      invariant forall i, v :: 0 <= i < |r| && v in left ==> Prefers(m, r[i], v)
      invariant forall i, j :: 0 <= i < j < |r| ==> r[i] != r[j] && Prefers(m, r[i], r[j])
      decreases left
    {
      ghost var best := StrongestExists(m, left);
      var u :| u in left && forall v :: v in left ==> Prefers(m, u, v);
      r := r + [u];
      left := left - {u};
    }
  }

  // ----- what the order promises -----

  ghost predicate EarlierNeighbour(adj: Adjacency, order: seq<nat>, k: nat)
    requires k < |order|
  {
    exists i :: 0 <= i < k && order[i] < |adj| && order[k] in adj[order[i]]
  }

  /** No edge leaves the first `k` chunks listed. */
  ghost predicate Closed(adj: Adjacency, order: seq<nat>, k: nat)
    requires k <= |order|
  {
    forall i, v :: 0 <= i < k && order[i] < |adj| && v in adj[order[i]] ==> v in order[..k]
  }

  /** A chunk without an earlier neighbour starts a new block: everything before it is closed, and it
      is the first chunk not yet listed. */
  ghost predicate Placed(adj: Adjacency, order: seq<nat>, k: nat)
    requires k < |order|
  {
    EarlierNeighbour(adj, order, k) || (Closed(adj, order, k) && forall v :: 0 <= v < order[k] ==> v in order[..k])
  }

  /** The neighbours of the `k`-th chunk that no earlier chunk reaches. */
  ghost function Fresh(adj: Adjacency, order: seq<nat>, k: nat): set<nat>
    requires k < |order| && order[k] < |adj|
  {
    set v | v in adj[order[k]] && v !in order[..k + 1] && forall i :: 0 <= i < k && order[i] < |adj| ==>
      v !in adj[order[i]]
  }

  /** The strongest neighbour newly reached by a chunk is listed right after it. */
  ghost predicate Follows(adj: Adjacency, order: seq<nat>, k: nat)
    requires k + 1 < |order| && order[k] < |adj|
  {
    Fresh(adj, order, k) == {} || Strongest(adj[order[k]], Fresh(adj, order, k), order[k + 1])
  }

  ghost predicate Good(adj: Adjacency, order: seq<nat>) {
    && Distinct(order) && (forall i :: 0 <= i < |order| ==> order[i] < |adj|)
    && (forall k :: 0 <= k < |order| ==> Placed(adj, order, k))
    && (forall k :: 0 <= k < |order| - 1 ==> Follows(adj, order, k))
  }

  function UpTo(n: nat): set<nat> {
    if n == 0 then {} else UpTo(n - 1) + {n - 1}
  }

  lemma {:induction false} UpToHas(n: nat)
    ensures |UpTo(n)| == n && forall v: nat :: v in UpTo(n) <==> v < n
  {
    if n > 0 { UpToHas(n - 1); }
  }

  function Elements(s: seq<nat>): set<nat> {
    if s == [] then {} else Elements(s[1..]) + {s[0]}
  }

  lemma {:induction false} ElementsHas(s: seq<nat>)
    ensures forall v :: v in Elements(s) <==> v in s
  {
    if s != [] {
      ElementsHas(s[1..]);
      assert s == [s[0]] + s[1..];
    }
  }

  lemma {:induction false} DistinctCard(s: seq<nat>)
    requires Distinct(s)
    ensures |Elements(s)| == |s|
  {
    if s != [] {
      DistinctCard(s[1..]);
      ElementsHas(s[1..]);
      assert s[0] !in s[1..];
    }
  }

  lemma DistinctBound(s: seq<nat>, n: nat)
    requires Distinct(s) && forall i :: 0 <= i < |s| ==> s[i] < n
    ensures |s| <= n
  {
    UpToHas(n);
    ElementsHas(s);
    DistinctCard(s);
    SubsetCard(Elements(s), UpTo(n));
  }

  /** The state of the traversal: `listed` is the order so far, `pending` the stack, and the block
      being listed starts at `base`. */
  ghost predicate Walking(adj: Adjacency, seen: seq<bool>, order: seq<nat>, pending: seq<nat>, base: nat, seed: nat) {
    && |seen| == |adj| && base <= |order| && seed < |adj|
    && Distinct(order + pending) && (forall i :: 0 <= i < |order + pending| ==> (order + pending)[i] < |adj|)
    && (forall v :: 0 <= v < |adj| ==> (seen[v] <==> v in order + pending))
    && Good(adj, order) && Closed(adj, order, base)
    && (forall v :: 0 <= v < seed ==> v in order[..base])
    && (forall i, v :: 0 <= i < |order| && v in adj[order[i]] ==> v in order + pending)
    && (if |order| == base then pending == [seed]
        else forall v :: v in pending ==> exists i :: 0 <= i < |order| && v in adj[order[i]])
  }

  /** The top of the stack is what `Follows` asks for. */
  ghost predicate Expecting(adj: Adjacency, order: seq<nat>, pending: seq<nat>)
    requires forall i :: 0 <= i < |order| ==> order[i] < |adj|
  {
    order != [] && Fresh(adj, order, |order| - 1) != {} ==>
      pending != [] && Strongest(adj[order[|order| - 1]], Fresh(adj, order, |order| - 1), pending[|pending| - 1])
  }

  function Unseen(nb: seq<nat>, seen: seq<bool>): seq<nat>
    requires forall i :: 0 <= i < |nb| ==> nb[i] < |seen|
  {
    if nb == [] then [] else (if seen[nb[0]] then [] else [nb[0]]) + Unseen(nb[1..], seen)
  }

  function Reversed(s: seq<nat>): seq<nat> {
    if s == [] then [] else Reversed(s[1..]) + [s[0]]
  }

  lemma {:induction false} ReversedHas(s: seq<nat>)
    ensures |Reversed(s)| == |s| && (forall v :: v in Reversed(s) <==> v in s)
    ensures s != [] ==> Reversed(s)[|s| - 1] == s[0]
  {
    if s != [] {
      ReversedHas(s[1..]);
      assert s == [s[0]] + s[1..];
    }
  }

  lemma {:induction false} ReversedDistinct(s: seq<nat>)
    requires Distinct(s)
    ensures Distinct(Reversed(s))
  {
    if s != [] {
      ReversedDistinct(s[1..]);
      ReversedHas(s[1..]);
      forall i | 0 <= i < |s| - 1 ensures Reversed(s[1..])[i] != s[0] {
        assert Reversed(s[1..])[i] in Reversed(s[1..]);
      }
    }
  }

  lemma {:induction false} UnseenHas(nb: seq<nat>, seen: seq<bool>)
    requires forall i :: 0 <= i < |nb| ==> nb[i] < |seen|
    ensures forall v :: v in Unseen(nb, seen) <==> v in nb && !seen[v]
  {
    if nb != [] {
      UnseenHas(nb[1..], seen);
      assert nb == [nb[0]] + nb[1..];
    }
  }

  lemma {:induction false} UnseenDistinct(nb: seq<nat>, seen: seq<bool>)
    requires Distinct(nb) && forall i :: 0 <= i < |nb| ==> nb[i] < |seen|
    ensures Distinct(Unseen(nb, seen))
  {
    if nb != [] {
      UnseenDistinct(nb[1..], seen);
      UnseenHas(nb[1..], seen);
      var u := Unseen(nb[1..], seen);
      forall i | 0 <= i < |u| ensures u[i] != nb[0] { assert u[i] in u; }
    }
  }

  /** The first unseen neighbour in rank order is preferred to every other unseen one. */
  lemma {:induction false} UnseenFirst(m: map<nat, nat>, nb: seq<nat>, seen: seq<bool>)
    requires forall i :: 0 <= i < |nb| ==> nb[i] in m && nb[i] < |seen|
    requires forall i, j :: 0 <= i < j < |nb| ==> Prefers(m, nb[i], nb[j])
    requires Unseen(nb, seen) != []
    ensures Unseen(nb, seen)[0] in nb && !seen[Unseen(nb, seen)[0]]
    ensures forall v :: v in nb && !seen[v] ==> Prefers(m, Unseen(nb, seen)[0], v)
  {
    assert nb == [nb[0]] + nb[1..];
    if seen[nb[0]] { UnseenFirst(m, nb[1..], seen); }
  }

  /** The loop over the ranked neighbours, last to first: the strongest ends up on top. */
  method Push(nb: seq<nat>, seen: array<bool>, rest: seq<nat>) returns (pending: seq<nat>)
    requires forall i :: 0 <= i < |nb| ==> nb[i] < seen.Length
    requires Distinct(nb)
    modifies seen
    ensures pending == rest + Reversed(Unseen(nb, old(seen[..])))
    ensures forall v :: 0 <= v < seen.Length ==> (seen[v] <==> old(seen[v]) || v in nb)
  {
    pending := rest;
    ghost var before := seen[..];
    var i := |nb|;
    while i > 0
      invariant 0 <= i <= |nb|
      invariant pending == rest + Reversed(Unseen(nb[i..], before))
      invariant forall v :: 0 <= v < seen.Length ==> (seen[v] <==> before[v] || v in nb[i..])
    {
      i := i - 1;
      assert nb[i..] == [nb[i]] + nb[i + 1..] && nb[i..][1..] == nb[i + 1..];
      assert nb[i] !in nb[i + 1..];
      ghost var done := Reversed(Unseen(nb[i + 1..], before));
      if !seen[nb[i]] {
        seen[nb[i]] := true;
        pending := pending + [nb[i]];
        assert Unseen(nb[i..], before)[1..] == Unseen(nb[i + 1..], before);
        assert rest + done + [nb[i]] == rest + (done + [nb[i]]);
      } else {
        assert Unseen(nb[i..], before) == Unseen(nb[i + 1..], before);
      }
    }
    assert nb[0..] == nb;
  }

  lemma PrefixSame(order: seq<nat>, cur: nat, k: nat)
    requires k <= |order|
    ensures (order + [cur])[..k] == order[..k]
  {}

  lemma PlacedSame(adj: Adjacency, order: seq<nat>, cur: nat, k: nat)
    requires k < |order|
    ensures Placed(adj, order + [cur], k) <==> Placed(adj, order, k)
  {
    PrefixSame(order, cur, k);
    var longer := order + [cur];
    assert forall i :: 0 <= i <= k ==> longer[i] == order[i];
    assert EarlierNeighbour(adj, longer, k) <==> EarlierNeighbour(adj, order, k);
    assert Closed(adj, longer, k) <==> Closed(adj, order, k);
  }

  lemma FreshSame(adj: Adjacency, order: seq<nat>, cur: nat, k: nat)
    requires k < |order| && order[k] < |adj|
    ensures Fresh(adj, order + [cur], k) == Fresh(adj, order, k)
  {
    PrefixSame(order, cur, k + 1);
    var longer := order + [cur];
    assert forall i :: 0 <= i <= k ==> longer[i] == order[i];
  }

  lemma GoodExtends(adj: Adjacency, order: seq<nat>, cur: nat)
    requires Good(adj, order) && cur !in order && cur < |adj|
    requires Placed(adj, order + [cur], |order|)
    requires order != [] ==> Follows(adj, order + [cur], |order| - 1)
    ensures Good(adj, order + [cur])
  {
    var longer := order + [cur];
    forall k | 0 <= k < |longer| ensures Placed(adj, longer, k) {
      if k < |order| { PlacedSame(adj, order, cur, k); }
    }
    forall k | 0 <= k < |longer| - 1 ensures Follows(adj, longer, k) {
      if k < |order| - 1 {
        FreshSame(adj, order, cur, k);
        assert Follows(adj, order, k);
      }
    }
  }

  lemma NotInFront(a: seq<nat>, b: seq<nat>, j: nat)
    requires Distinct(a + b) && j < |b|
    ensures b[j] !in a
  {
    forall i | 0 <= i < |a| ensures a[i] != b[j] {
      assert (a + b)[i] == a[i] && (a + b)[|a| + j] == b[j];
    }
  }

  lemma PopIsPlaced(adj: Adjacency, order: seq<nat>, cur: nat, base: nat)
    requires (forall i :: 0 <= i < |order| ==> order[i] < |adj|) && base <= |order|
    requires if |order| == base then Closed(adj, order, base) && forall v :: 0 <= v < cur ==> v in order
             else exists i :: 0 <= i < |order| && cur in adj[order[i]]
    ensures Placed(adj, order + [cur], |order|)
  {
    var longer := order + [cur];
    assert longer[..|order|] == order[..|order|] == order;
    assert forall i :: 0 <= i < |order| ==> longer[i] == order[i];
    if |order| == base {
      assert Closed(adj, longer, |order|);
    } else {
      var i :| 0 <= i < |order| && cur in adj[order[i]];
      assert longer[i] == order[i];
      assert EarlierNeighbour(adj, longer, |order|);
    }
  }

  lemma PopFollows(adj: Adjacency, order: seq<nat>, pending: seq<nat>)
    requires forall i :: 0 <= i < |order| ==> order[i] < |adj|
    requires order != [] && pending != [] && Expecting(adj, order, pending)
    ensures Follows(adj, order + [pending[|pending| - 1]], |order| - 1)
  {
    FreshSame(adj, order, pending[|pending| - 1], |order| - 1);
  }

  /** Popping the top of the stack lists it in a proper place. */
  lemma PopKeepsGood(adj: Adjacency, seen: seq<bool>, order: seq<nat>, pending: seq<nat>, base: nat, seed: nat)
    requires Symmetric(adj) && Walking(adj, seen, order, pending, base, seed) && pending != []
    requires Expecting(adj, order, pending)
    ensures Good(adj, order + [pending[|pending| - 1]])
  {
    var cur := pending[|pending| - 1];
    assert (order + pending)[|order| + |pending| - 1] == cur;
    NotInFront(order, pending, |pending| - 1);
    if |order| == base {
      assert order[..base] == order;
    } else {
      assert cur in pending;
    }
    PopIsPlaced(adj, order, cur, base);
    if order != [] { PopFollows(adj, order, pending); }
    GoodExtends(adj, order, cur);
  }

  lemma DistinctParts(a: seq<nat>, b: seq<nat>)
    requires Distinct(a) && Distinct(b) && forall v :: v in a ==> v !in b
    ensures Distinct(a + b)
  {
    forall i, j | 0 <= i < j < |a + b| ensures (a + b)[i] != (a + b)[j] {
      if i < |a| <= j { assert a[i] in a && b[j - |a|] in b; }
    }
  }

  /** One turn of the inner loop, on values. */
  lemma VisitKeeps(adj: Adjacency, seen: seq<bool>, order: seq<nat>, pending: seq<nat>, base: nat, seed: nat,
                   nb: seq<nat>, seen': seq<bool>)
    requires Symmetric(adj) && Walking(adj, seen, order, pending, base, seed) && pending != []
    requires Expecting(adj, order, pending)
    requires pending[|pending| - 1] < |adj| && Ranks(adj[pending[|pending| - 1]], nb)
    requires forall i :: 0 <= i < |nb| ==> nb[i] < |seen|
    requires |seen'| == |seen| && forall v :: 0 <= v < |seen| ==> (seen'[v] <==> seen[v] || v in nb)
    ensures Walking(adj, seen', order + [pending[|pending| - 1]], pending[..|pending| - 1]
      + Reversed(Unseen(nb, seen)), base, seed)
  {
    PopKeepsGood(adj, seen, order, pending, base, seed);
    StackKeeps(adj, seen, order, pending, nb, seen');
    WalkKeeps(adj, seen, order, pending, base, seed, nb);
  }

  /** After the push the strongest of the unseen neighbours is on top. */
  lemma StrongestOnTop(m: map<nat, nat>, found: set<nat>, nb: seq<nat>, seen: seq<bool>, rest: seq<nat>)
    requires Ranks(m, nb) && forall i :: 0 <= i < |nb| ==> nb[i] < |seen|
    requires forall v :: v in found <==> v in nb && !seen[v]
    requires found != {}
    ensures var stack := rest + Reversed(Unseen(nb, seen)); stack != [] && Strongest(m, found, stack[|stack| - 1])
  {
    ReversedHas(Unseen(nb, seen));
    UnseenHas(nb, seen);
    var v :| v in found;
    assert v in Unseen(nb, seen);
    assert forall i :: 0 <= i < |nb| ==> nb[i] in nb;
    UnseenFirst(m, nb, seen);
    var stack := rest + Reversed(Unseen(nb, seen));
    assert stack[|stack| - 1] == Unseen(nb, seen)[0];
  }

  lemma TopIsExpected(
      adj: Adjacency, seen: seq<bool>, order: seq<nat>, pending: seq<nat>, base: nat, seed: nat, nb: seq<nat>)
    requires Walking(adj, seen, order, pending, base, seed) && pending != []
    requires pending[|pending| - 1] < |adj| && Ranks(adj[pending[|pending| - 1]], nb)
    requires forall i :: 0 <= i < |nb| ==> nb[i] < |seen|
    ensures Expecting(adj, order + [pending[|pending| - 1]], pending[..|pending| - 1] + Reversed(Unseen(nb, seen)))
  {
    var cur := pending[|pending| - 1];
    FreshIsUnseen(adj, seen, order, pending, base, seed, nb);
    var longer := order + [cur];
    assert longer[|order|] == cur;
    if Fresh(adj, longer, |order|) != {} {
      StrongestOnTop(adj[cur], Fresh(adj, longer, |order|), nb, seen, pending[..|pending| - 1]);
    }
  }

  /** Moving the last entry forward repeats nothing and loses nothing. */
  lemma MoveUp(a: seq<nat>, b: seq<nat>, c: nat)
    requires Distinct(a + b + [c])
    ensures Distinct(a + [c] + b)
    ensures forall v :: v in a + [c] + b <==> v in a + b + [c]
  {
    var was, now := a + b + [c], a + [c] + b;
    assert forall i :: 0 <= i < |a| ==> now[i] == was[i];
    assert forall i :: |a| < i < |now| ==> now[i] == was[i - 1];
    assert now[|a|] == was[|a| + |b|];
  }

  /** `seen` still marks exactly what is listed or pending, without repetition. */
  lemma StackKeeps(adj: Adjacency, seen: seq<bool>, order: seq<nat>, pending: seq<nat>, nb: seq<nat>, seen': seq<bool>)
    requires pending != [] && Distinct(order + pending) && |seen| == |adj|
    requires forall i :: 0 <= i < |order + pending| ==> (order + pending)[i] < |adj|
    requires forall v :: 0 <= v < |adj| ==> (seen[v] <==> v in order + pending)
    requires Distinct(nb) && forall i :: 0 <= i < |nb| ==> nb[i] < |seen|
    requires |seen'| == |seen| && forall v :: 0 <= v < |seen| ==> (seen'[v] <==> seen[v] || v in nb)
    ensures var all := order + [pending[|pending| - 1]] + (pending[..|pending| - 1] + Reversed(Unseen(nb, seen)));
      Distinct(all) && (forall i :: 0 <= i < |all| ==> all[i] < |adj|)
      && (forall v :: 0 <= v < |adj| ==> (seen'[v] <==> v in all))
  {
    var cur, rest, added := pending[|pending| - 1], pending[..|pending| - 1], Reversed(Unseen(nb, seen));
    UnseenHas(nb, seen);
    UnseenDistinct(nb, seen);
    ReversedHas(Unseen(nb, seen));
    ReversedDistinct(Unseen(nb, seen));
    var stack := order + [cur] + rest;
    assert pending == rest + [cur];
    assert order + pending == order + rest + [cur];
    MoveUp(order, rest, cur);
    DistinctParts(stack, added);
    assert order + [cur] + (rest + added) == stack + added;
    forall i | 0 <= i < |stack + added| ensures (stack + added)[i] < |adj| {
      if i < |stack| { assert stack[i] in stack; } else { assert added[i - |stack|] in added; }
    }
  }

  /** Every neighbour of a listed chunk is listed or pending, and every pending chunk is one. */
  lemma WalkKeeps(
      adj: Adjacency, seen: seq<bool>, order: seq<nat>, pending: seq<nat>, base: nat, seed: nat, nb: seq<nat>)
    requires Walking(adj, seen, order, pending, base, seed) && pending != []
    requires var cur := pending[|pending| - 1]; cur < |adj| && forall v :: v in nb <==> v in adj[cur]
    requires forall i :: 0 <= i < |nb| ==> nb[i] < |seen|
    ensures var longer, next := order + [pending[|pending| - 1]], pending[..|pending| - 1] + Reversed(Unseen(nb, seen));
      && (forall i, v :: 0 <= i < |longer| && longer[i] < |adj| && v in adj[longer[i]] ==> v in longer + next)
      && (forall v :: v in next ==> exists i :: 0 <= i < |longer| && longer[i] < |adj| && v in adj[longer[i]])
      && Closed(adj, longer, base) && longer[..base] == order[..base]
  {
    var cur, rest, added := pending[|pending| - 1], pending[..|pending| - 1], Reversed(Unseen(nb, seen));
    var longer, next := order + [cur], rest + added;
    assert pending == rest + [cur];
    UnseenHas(nb, seen);
    ReversedHas(Unseen(nb, seen));
    assert longer[..base] == order[..base];
    forall i, v | 0 <= i < |longer| && longer[i] < |adj| && v in adj[longer[i]] ensures v in longer + next {
      if i < |order| {
        assert v in order + pending;
      } else if v < |seen| && seen[v] {
        assert v in order + pending;
      } else {
        assert v in nb;
        assert v in added;
      }
    }
    forall v | v in next ensures exists i :: 0 <= i < |longer| && longer[i] < |adj| && v in adj[longer[i]] {
      if v in added {
        assert v in adj[longer[|order|]];
      } else {
        assert v in pending && |order| != base;
        var i :| 0 <= i < |order| && v in adj[order[i]];
        assert longer[i] == order[i];
      }
    }
  }

  /** The unseen neighbours are the newly reached ones. */
  lemma FreshIsUnseen(
      adj: Adjacency, seen: seq<bool>, order: seq<nat>, pending: seq<nat>, base: nat, seed: nat, nb: seq<nat>)
    requires Walking(adj, seen, order, pending, base, seed) && pending != []
    requires var cur := pending[|pending| - 1]; cur < |adj| && forall v :: v in nb <==> v in adj[cur]
    requires forall i :: 0 <= i < |nb| ==> nb[i] < |seen|
    ensures var longer := order + [pending[|pending| - 1]];
      forall v :: v in Fresh(adj, longer, |order|) <==> v in nb && !seen[v]
  {
    var cur, rest := pending[|pending| - 1], pending[..|pending| - 1];
    var longer := order + [cur];
    assert pending == rest + [cur] && longer[..|order| + 1] == longer;
    assert forall i :: 0 <= i < |order| ==> longer[i] == order[i];
    forall v | v in nb
      ensures v in Fresh(adj, longer, |order|) <==> !seen[v]
    {
      if seen[v] {
        assert v in order + pending;
        if v !in longer {
          assert v in rest && |order| != base;
          var i :| 0 <= i < |order| && v in adj[order[i]];
          assert v in adj[longer[i]];
        }
      } else {
        assert v !in order + pending;
      }
    }
  }

  // ----- which of the pending chunks comes next -----

  /** The `i`-th chunk listed is the first that reaches `v`. */
  predicate ReachedBy(adj: Adjacency, order: seq<nat>, v: nat, i: nat) {
    && i < |order| && order[i] < |adj| && v in adj[order[i]]
    && forall j :: 0 <= j < i && order[j] < |adj| ==> v !in adj[order[j]]
  }

  /** `v`, reached by the `i`-th, comes before `w`, reached by the `j`-th: it was reached later, or by the same chunk
      and more strongly. */
  predicate Sooner(adj: Adjacency, order: seq<nat>, v: nat, i: nat, w: nat, j: nat)
    requires i < |order| && order[i] < |adj|
  {
    j < i || (j == i && v in adj[order[i]] && w in adj[order[i]] && Prefers(adj[order[i]], v, w))
  }

  /** Of the chunks that those before it reach and that are not listed yet, the `k`-th is the one to come first. */
  ghost predicate Deepest(adj: Adjacency, order: seq<nat>, k: nat)
    requires k < |order|
  {
    forall i, w, j :: ReachedBy(adj, order[..k], order[k], i) && ReachedBy(adj, order[..k], w, j) ==>
      w in order[..k + 1] || Sooner(adj, order[..k], order[k], i, w, j)
  }

  ghost predicate Deep(adj: Adjacency, order: seq<nat>) {
    forall k :: 0 <= k < |order| ==> Deepest(adj, order, k)
  }

  /** The entries of the stack, from the bottom up, come ever sooner. */
  ghost predicate Stacked(adj: Adjacency, order: seq<nat>, pending: seq<nat>) {
    forall a, b :: 0 <= a < b < |pending| ==> Above(adj, order, pending[a], pending[b])
  }

  ghost predicate Above(adj: Adjacency, order: seq<nat>, w: nat, v: nat) {
    forall i, j :: ReachedBy(adj, order, v, i) && ReachedBy(adj, order, w, j) ==> Sooner(adj, order, v, i, w, j)
  }

  lemma {:induction false} UnseenRanked(m: map<nat, nat>, nb: seq<nat>, seen: seq<bool>)
    requires forall i :: 0 <= i < |nb| ==> nb[i] in m && nb[i] < |seen|
    requires forall i, j :: 0 <= i < j < |nb| ==> Prefers(m, nb[i], nb[j])
    ensures forall i :: 0 <= i < |Unseen(nb, seen)| ==> Unseen(nb, seen)[i] in m
    ensures forall i, j :: 0 <= i < j < |Unseen(nb, seen)| ==> Prefers(m, Unseen(nb, seen)[i], Unseen(nb, seen)[j])
  {
    if nb != [] {
      UnseenRanked(m, nb[1..], seen);
      UnseenHas(nb[1..], seen);
      var u := Unseen(nb[1..], seen);
      forall i | 0 <= i < |u| ensures Prefers(m, nb[0], u[i]) {
        assert u[i] in u;
        var k :| 0 <= k < |nb| - 1 && nb[1..][k] == u[i];
        assert Prefers(m, nb[0], nb[k + 1]);
      }
    }
  }

  lemma {:induction false} ReversedAt(s: seq<nat>, k: nat)
    requires k < |s|
    ensures |Reversed(s)| == |s| && Reversed(s)[k] == s[|s| - 1 - k]
  {
    ReversedHas(s[1..]);
    if k < |s| - 1 { ReversedAt(s[1..], k); }
  }

  /** The pushed neighbours lie on the stack the strongest on top. */
  lemma PushedRanked(m: map<nat, nat>, nb: seq<nat>, seen: seq<bool>, a: nat, b: nat)
    requires Ranks(m, nb) && forall i :: 0 <= i < |nb| ==> nb[i] < |seen|
    requires a < b < |Reversed(Unseen(nb, seen))|
    ensures var r := Reversed(Unseen(nb, seen)); r[a] in m && r[b] in m && Prefers(m, r[b], r[a])
  {
    assert forall i :: 0 <= i < |nb| ==> nb[i] in nb;
    UnseenRanked(m, nb, seen);
    ReversedHas(Unseen(nb, seen));
    ReversedAt(Unseen(nb, seen), a);
    ReversedAt(Unseen(nb, seen), b);
  }

  lemma ReachedSame(adj: Adjacency, order: seq<nat>, cur: nat, v: nat, i: nat)
    ensures ReachedBy(adj, order + [cur], v, i) && i < |order| ==> ReachedBy(adj, order, v, i)
    ensures ReachedBy(adj, order, v, i) ==> ReachedBy(adj, order + [cur], v, i)
  {
    var longer := order + [cur];
    assert forall j :: 0 <= j < |order| ==> longer[j] == order[j];
  }

  lemma ReachedOnce(adj: Adjacency, order: seq<nat>, v: nat, i: nat, j: nat)
    requires ReachedBy(adj, order, v, i) && ReachedBy(adj, order, v, j)
    ensures i == j
  {}

  /** What is left of the stack was reached before. */
  lemma RestStacked(adj: Adjacency, order: seq<nat>, cur: nat, w: nat, v: nat)
    requires Above(adj, order, w, v)
    requires exists i :: ReachedBy(adj, order, v, i)
    requires exists j :: ReachedBy(adj, order, w, j)
    ensures Above(adj, order + [cur], w, v)
  {
    var i0 :| ReachedBy(adj, order, v, i0);
    var j0 :| ReachedBy(adj, order, w, j0);
    ReachedSame(adj, order, cur, v, i0);
    ReachedSame(adj, order, cur, w, j0);
    forall i, j | ReachedBy(adj, order + [cur], v, i) && ReachedBy(adj, order + [cur], w, j)
      ensures Sooner(adj, order + [cur], v, i, w, j)
    {
      ReachedOnce(adj, order + [cur], v, i, i0);
      ReachedOnce(adj, order + [cur], w, j, j0);
    }
  }

  /** A chunk that only the last one listed reaches comes sooner than those reached before, and than weaker ones. */
  lemma NewAbove(adj: Adjacency, order: seq<nat>, cur: nat, w: nat, v: nat)
    requires cur < |adj| && v in adj[cur] && forall j :: 0 <= j < |order| && order[j] < |adj| ==> v !in adj[order[j]]
    requires (exists j :: ReachedBy(adj, order, w, j)) || (w in adj[cur] && Prefers(adj[cur], v, w))
    ensures Above(adj, order + [cur], w, v)
  {
    var longer := order + [cur];
    assert forall j :: 0 <= j < |order| ==> longer[j] == order[j];
    if j0 :| ReachedBy(adj, order, w, j0) { ReachedSame(adj, order, cur, w, j0); }
    forall i, j | ReachedBy(adj, longer, v, i) && ReachedBy(adj, longer, w, j) ensures Sooner(adj, longer, v, i, w, j) {
      assert i == |order|;
    }
  }

  lemma {:induction false} Reached(adj: Adjacency, order: seq<nat>, v: nat, i: nat) returns (j: nat)
    requires i < |order| && order[i] < |adj| && v in adj[order[i]]
    ensures ReachedBy(adj, order, v, j)
  {
    if k: nat :| k < i && order[k] < |adj| && v in adj[order[k]] {
      j := Reached(adj, order, v, k);
    } else {
      j := i;
    }
  }

  /** Every entry of the stack but the seed was reached. */
  lemma PendingReached(
      adj: Adjacency, seen: seq<bool>, order: seq<nat>, pending: seq<nat>, base: nat, seed: nat, a: nat)
    requires Walking(adj, seen, order, pending, base, seed) && a < |pending| && |pending| > 1
    ensures exists j :: ReachedBy(adj, order, pending[a], j)
  {
    assert pending[a] in pending;
    var i :| 0 <= i < |order| && pending[a] in adj[order[i]];
    assert (order + pending)[i] == order[i];
    var j := Reached(adj, order, pending[a], i);
  }

  /** An unseen neighbour of the top is reached by nothing listed. */
  lemma UnseenIsNew(
      adj: Adjacency, seen: seq<bool>, order: seq<nat>, pending: seq<nat>, base: nat, seed: nat, v: nat, j: nat)
    requires Walking(adj, seen, order, pending, base, seed) && v < |seen| && !seen[v]
    requires j < |order| && order[j] < |adj|
    ensures v !in adj[order[j]]
  {
    assert v in adj[order[j]] ==> v in order + pending;
  }

  lemma AddedAbove(adj: Adjacency, seen: seq<bool>, order: seq<nat>, pending: seq<nat>, base: nat, seed: nat,
                   nb: seq<nat>, w: nat, b: nat)
    requires Walking(adj, seen, order, pending, base, seed) && pending != []
    requires pending[|pending| - 1] < |adj| && Ranks(adj[pending[|pending| - 1]], nb)
    requires forall i :: 0 <= i < |nb| ==> nb[i] < |seen|
    requires b < |Reversed(Unseen(nb, seen))|
    requires var m, v := adj[pending[|pending| - 1]], Reversed(Unseen(nb, seen))[b];
      (exists j :: ReachedBy(adj, order, w, j)) || (w in m && v in m && Prefers(m, v, w))
    ensures Above(adj, order + [pending[|pending| - 1]], w, Reversed(Unseen(nb, seen))[b])
  {
    var v := Reversed(Unseen(nb, seen))[b];
    ReversedHas(Unseen(nb, seen));
    UnseenHas(nb, seen);
    assert v in Reversed(Unseen(nb, seen));
    assert v in nb && !seen[v];
    forall j | 0 <= j < |order| && order[j] < |adj| ensures v !in adj[order[j]] {
      UnseenIsNew(adj, seen, order, pending, base, seed, v, j);
    }
    NewAbove(adj, order, pending[|pending| - 1], w, v);
  }

  lemma RestAbove(
      adj: Adjacency, seen: seq<bool>, order: seq<nat>, pending: seq<nat>, base: nat, seed: nat, a: nat, b: nat)
    requires Walking(adj, seen, order, pending, base, seed) && a < b < |pending|
      && Above(adj, order, pending[a], pending[b])
    ensures Above(adj, order + [pending[|pending| - 1]], pending[a], pending[b])
  {
    PendingReached(adj, seen, order, pending, base, seed, a);
    PendingReached(adj, seen, order, pending, base, seed, b);
    RestStacked(adj, order, pending[|pending| - 1], pending[a], pending[b]);
  }

  lemma BothAdded(adj: Adjacency, seen: seq<bool>, order: seq<nat>, pending: seq<nat>, base: nat, seed: nat,
                  nb: seq<nat>, a: nat, b: nat)
    requires Walking(adj, seen, order, pending, base, seed) && pending != []
    requires pending[|pending| - 1] < |adj| && Ranks(adj[pending[|pending| - 1]], nb)
    requires forall i :: 0 <= i < |nb| ==> nb[i] < |seen|
    requires a < b < |Reversed(Unseen(nb, seen))|
    ensures var r := Reversed(Unseen(nb, seen)); Above(adj, order + [pending[|pending| - 1]], r[a], r[b])
  {
    PushedRanked(adj[pending[|pending| - 1]], nb, seen, a, b);
    AddedAbove(adj, seen, order, pending, base, seed, nb, Reversed(Unseen(nb, seen))[a], b);
  }

  lemma RestBelowAdded(adj: Adjacency, seen: seq<bool>, order: seq<nat>, pending: seq<nat>, base: nat, seed: nat,
                       nb: seq<nat>, a: nat, b: nat)
    requires Walking(adj, seen, order, pending, base, seed) && a < |pending| - 1
    requires pending[|pending| - 1] < |adj| && Ranks(adj[pending[|pending| - 1]], nb)
    requires forall i :: 0 <= i < |nb| ==> nb[i] < |seen|
    requires b < |Reversed(Unseen(nb, seen))|
    ensures Above(adj, order + [pending[|pending| - 1]], pending[a], Reversed(Unseen(nb, seen))[b])
  {
    PendingReached(adj, seen, order, pending, base, seed, a);
    AddedAbove(adj, seen, order, pending, base, seed, nb, pending[a], b);
  }

  lemma JoinStacks(adj: Adjacency, order: seq<nat>, rest: seq<nat>, added: seq<nat>)
    requires Stacked(adj, order, rest) && Stacked(adj, order, added)
    requires forall a, b :: 0 <= a < |rest| && 0 <= b < |added| ==> Above(adj, order, rest[a], added[b])
    ensures Stacked(adj, order, rest + added)
  {}

  /** One turn of the inner loop keeps the order of the stack. */
  lemma VisitStacks(
      adj: Adjacency, seen: seq<bool>, order: seq<nat>, pending: seq<nat>, base: nat, seed: nat, nb: seq<nat>)
    requires Walking(adj, seen, order, pending, base, seed) && pending != [] && Stacked(adj, order, pending)
    requires pending[|pending| - 1] < |adj| && Ranks(adj[pending[|pending| - 1]], nb)
    requires forall i :: 0 <= i < |nb| ==> nb[i] < |seen|
    ensures Stacked(adj, order + [pending[|pending| - 1]], pending[..|pending| - 1] + Reversed(Unseen(nb, seen)))
  {
    var rest, added := pending[..|pending| - 1], Reversed(Unseen(nb, seen));
    var longer := order + [pending[|pending| - 1]];
    forall a, b | 0 <= a < b < |rest| ensures Above(adj, longer, rest[a], rest[b]) {
      RestAbove(adj, seen, order, pending, base, seed, a, b);
    }
    forall a, b | 0 <= a < b < |added| ensures Above(adj, longer, added[a], added[b]) {
      BothAdded(adj, seen, order, pending, base, seed, nb, a, b);
    }
    forall a, b | 0 <= a < |rest| && 0 <= b < |added| ensures Above(adj, longer, rest[a], added[b]) {
      RestBelowAdded(adj, seen, order, pending, base, seed, nb, a, b);
    }
    JoinStacks(adj, longer, rest, added);
  }

  /** The top of the stack comes first among all that are reached and not listed. */
  lemma PopIsDeepest(adj: Adjacency, seen: seq<bool>, order: seq<nat>, pending: seq<nat>, base: nat, seed: nat)
    requires Walking(adj, seen, order, pending, base, seed) && pending != [] && Stacked(adj, order, pending)
    ensures Deepest(adj, order + [pending[|pending| - 1]], |order|)
  {
    var top := |pending| - 1;
    var longer := order + [pending[top]];
    assert longer[..|order|] == order && longer[..|order| + 1] == longer;
    forall i, w, j | ReachedBy(adj, order, pending[top], i) && ReachedBy(adj, order, w, j)
      ensures w in longer || Sooner(adj, order, pending[top], i, w, j)
    {
      assert w in order + pending;
      if w !in longer {
        var a :| 0 <= a < |pending| && pending[a] == w;
        assert Above(adj, order, pending[a], pending[top]);
      }
    }
  }

  lemma DeepExtends(adj: Adjacency, order: seq<nat>, cur: nat)
    requires Deep(adj, order) && Deepest(adj, order + [cur], |order|)
    ensures Deep(adj, order + [cur])
  {
    var longer := order + [cur];
    forall k | 0 <= k < |longer| ensures Deepest(adj, longer, k) {
      if k < |order| {
        assert longer[..k] == order[..k] && longer[..k + 1] == order[..k + 1];
        assert Deepest(adj, order, k);
      }
    }
  }

  /** All of one component, from its first unlisted chunk on. */
  method Block(adj: Adjacency, seen: array<bool>, before: seq<nat>, seed: nat) returns (order: seq<nat>)
    requires Symmetric(adj) && seen.Length == |adj| && seed < |adj| && !seen[seed]
    requires Good(adj, before) && Closed(adj, before, |before|)
    requires forall v :: 0 <= v < |adj| ==> (seen[v] <==> v in before)
    requires forall v :: 0 <= v < seed ==> v in before
    requires Deep(adj, before)
    modifies seen
    ensures Good(adj, order) && Closed(adj, order, |order|) && before <= order && seed in order
    ensures Deep(adj, order)
    ensures forall v :: 0 <= v < |adj| ==> (seen[v] <==> v in order)
  {
    var pending := [seed];
    order := before;
    seen[seed] := true;
    BlockStarts(adj, seen[..], before, seed);
    while pending != []
      invariant Walking(adj, seen[..], order, pending, |before|, seed)
      invariant Expecting(adj, order, pending)
      invariant Deep(adj, order) && Stacked(adj, order, pending)
      invariant before <= order && (seed in order || |order| == |before|)
      decreases |adj| - |order|
    {
      var current := pending[|pending| - 1];
      assert (order + pending)[|order| + |pending| - 1] == current;
      var neighbours := Ranked(adj[current]);
      assert forall i :: 0 <= i < |neighbours| ==> neighbours[i] in neighbours;
      ghost var was := seen[..];
      var next := Push(neighbours, seen, pending[..|pending| - 1]);
      VisitKeeps(adj, was, order, pending, |before|, seed, neighbours, seen[..]);
      TopIsExpected(adj, was, order, pending, |before|, seed, neighbours);
      VisitStacks(adj, was, order, pending, |before|, seed, neighbours);
      PopIsDeepest(adj, was, order, pending, |before|, seed);
      DeepExtends(adj, order, current);
      order := order + [current];
      pending := next;
      DistinctBound(order + pending, |adj|);
    }
    assert order + [] == order && order[..|order|] == order;
  }

  lemma BlockStarts(adj: Adjacency, seen: seq<bool>, before: seq<nat>, seed: nat)
    requires |seen| == |adj| && seed < |adj| && seed !in before
    requires Good(adj, before) && Closed(adj, before, |before|)
    requires forall v :: 0 <= v < |adj| ==> (seen[v] <==> v in before || v == seed)
    requires forall v :: 0 <= v < seed ==> v in before
    ensures Walking(adj, seen, before, [seed], |before|, seed) && Expecting(adj, before, [seed])
  {
    assert before[..|before|] == before;
    DistinctParts(before, [seed]);
    forall i | 0 <= i < |before + [seed]| ensures (before + [seed])[i] < |adj| {}
    forall i, v | 0 <= i < |before| && v in adj[before[i]] ensures v in before + [seed] {
      assert v in before[..|before|];
    }
    if before != [] { NothingFresh(adj, before); }
  }

  lemma NothingFresh(adj: Adjacency, order: seq<nat>)
    requires order != [] && order[|order| - 1] < |adj| && Closed(adj, order, |order|)
    ensures Fresh(adj, order, |order| - 1) == {}
  {
    var k := |order| - 1;
    assert order[..k + 1] == order[..|order|];
    assert forall v :: v in adj[order[k]] ==> v in order[..k + 1];
  }

  /** `graph_order`: every chunk exactly once; a chunk has an already listed neighbour or starts a
      block, all before it being closed and it being the first unlisted; and the strongest neighbour
      newly reached by a chunk comes right after it. */
  method Order(adj: Adjacency) returns (order: seq<nat>)
    requires Symmetric(adj)
    ensures Good(adj, order) && Deep(adj, order)
    ensures |order| == |adj| && forall v :: 0 <= v < |adj| ==> v in order
  {
    var seen := new bool[|adj|](_ => false);
    order := [];
    var seed := 0;
    while seed < |adj|
      invariant 0 <= seed <= |adj|
      invariant Good(adj, order) && Deep(adj, order) && Closed(adj, order, |order|)
      invariant forall v :: 0 <= v < |adj| ==> (seen[v] <==> v in order)
      invariant forall v :: 0 <= v < seed ==> v in order
    {
      ghost var before := order;
      if !seen[seed] { order := Block(adj, seen, order, seed); }
      assert forall v :: v in before ==> v in order;
      seed := seed + 1;
    }
    AllListed(order, |adj|);
  }

  lemma AllListed(order: seq<nat>, n: nat)
    requires Distinct(order) && (forall i :: 0 <= i < |order| ==> order[i] < n) && forall v :: 0 <= v < n ==> v in order
    ensures |order| == n
  {
    UpToHas(n);
    ElementsHas(order);
    DistinctCard(order);
    assert Elements(order) == UpTo(n);
  }

  // ----- the order is determined -----

  /** A chunk follows that has an earlier neighbour unless everything so far is closed. */
  lemma SameKind(adj: Adjacency, a: seq<nat>, b: seq<nat>, k: nat)
    requires Symmetric(adj) && Good(adj, a) && Good(adj, b) && k < |a| && k < |b| && a[..k] == b[..k]
    requires EarlierNeighbour(adj, a, k)
    ensures EarlierNeighbour(adj, b, k)
  {
    var i :| 0 <= i < k && a[i] < |adj| && a[k] in adj[a[i]];
    assert a[i] == a[..k][i] == b[..k][i] == b[i];
    assert a[k] !in a[..k];
    assert Placed(adj, b, k);
  }

  lemma ReachedInFront(adj: Adjacency, order: seq<nat>, k: nat) returns (i: nat)
    requires k < |order| && EarlierNeighbour(adj, order, k)
    ensures ReachedBy(adj, order[..k], order[k], i)
  {
    var n :| 0 <= n < k && order[n] < |adj| && order[k] in adj[order[n]];
    assert order[..k][n] == order[n];
    i := Reached(adj, order[..k], order[k], n);
  }

  lemma SameReached(adj: Adjacency, a: seq<nat>, b: seq<nat>, k: nat)
    requires Good(adj, a) && Good(adj, b) && Deep(adj, a) && Deep(adj, b)
    requires k < |a| && k < |b| && a[..k] == b[..k] && EarlierNeighbour(adj, a, k) && EarlierNeighbour(adj, b, k)
    ensures a[k] == b[k]
  {
    var i := ReachedInFront(adj, a, k);
    var j := ReachedInFront(adj, b, k);
    assert Deepest(adj, a, k) && Deepest(adj, b, k);
    if a[k] != b[k] {
      NotYetListed(adj, a, b, k);
      NotYetListed(adj, b, a, k);
    }
  }

  lemma NotYetListed(adj: Adjacency, a: seq<nat>, b: seq<nat>, k: nat)
    requires Good(adj, b) && k < |a| && k < |b| && a[..k] == b[..k] && a[k] != b[k]
    ensures b[k] !in a[..k + 1]
  {
    assert a[..k + 1] == b[..k] + [a[k]];
  }

  lemma SameSeed(adj: Adjacency, a: seq<nat>, b: seq<nat>, k: nat)
    requires Good(adj, a) && Good(adj, b) && k < |a| && k < |b| && a[..k] == b[..k]
    requires !EarlierNeighbour(adj, a, k) && !EarlierNeighbour(adj, b, k)
    ensures a[k] == b[k]
  {
    assert Placed(adj, a, k) && Placed(adj, b, k);
    assert a[k] !in a[..k] && b[k] !in b[..k];
  }

  lemma {:induction false} PrefixesAgree(adj: Adjacency, a: seq<nat>, b: seq<nat>, k: nat)
    requires Symmetric(adj) && Good(adj, a) && Good(adj, b) && Deep(adj, a) && Deep(adj, b)
    requires k <= |a| == |b|
    ensures a[..k] == b[..k]
  {
    if k > 0 {
      PrefixesAgree(adj, a, b, k - 1);
      if EarlierNeighbour(adj, a, k - 1) {
        SameKind(adj, a, b, k - 1);
        SameReached(adj, a, b, k - 1);
      } else {
        if EarlierNeighbour(adj, b, k - 1) { SameKind(adj, b, a, k - 1); }
        SameSeed(adj, a, b, k - 1);
      }
      assert a[..k] == a[..k - 1] + [a[k - 1]] && b[..k] == b[..k - 1] + [b[k - 1]];
    }
  }

  /** These rules leave one order only. */
  lemma OrderIsUnique(adj: Adjacency, a: seq<nat>, b: seq<nat>)
    requires Symmetric(adj) && Good(adj, a) && Good(adj, b) && Deep(adj, a) && Deep(adj, b) && |a| == |b|
    ensures a == b
  {
    PrefixesAgree(adj, a, b, |a|);
    assert a[..|a|] == a && b[..|b|] == b;
  }

  // ----- components are contiguous -----

  ghost predicate Path(adj: Adjacency, p: seq<nat>) {
    p != [] && (forall i :: 0 <= i < |p| ==> p[i] < |adj|) && forall i :: 0 <= i < |p| - 1 ==> p[i + 1] in adj[p[i]]
  }

  ghost predicate Connected(adj: Adjacency, u: nat, v: nat) {
    exists p :: Path(adj, p) && p[0] == u && p[|p| - 1] == v
  }

  lemma ConnectedStep(adj: Adjacency, u: nat, v: nat, w: nat)
    requires Symmetric(adj) && Connected(adj, u, v) && v < |adj| && w in adj[v]
    ensures Connected(adj, u, w)
  {
    var p :| Path(adj, p) && p[0] == u && p[|p| - 1] == v;
    var q := p + [w];
    assert Path(adj, q) && q[0] == u && q[|q| - 1] == w;
  }

  lemma {:induction false} ConnectedAlong(adj: Adjacency, u: nat, p: seq<nat>)
    requires Symmetric(adj) && Path(adj, p) && Connected(adj, u, p[0])
    ensures Connected(adj, u, p[|p| - 1])
  {
    if |p| > 1 {
      ConnectedStep(adj, u, p[0], p[1]);
      assert Path(adj, p[1..]);
      ConnectedAlong(adj, u, p[1..]);
    }
  }

  lemma ConnectedBack(adj: Adjacency, u: nat, v: nat)
    requires Symmetric(adj) && Connected(adj, u, v)
    ensures Connected(adj, v, u)
  {
    var p :| Path(adj, p) && p[0] == u && p[|p| - 1] == v;
    BackAlong(adj, p);
  }

  lemma {:induction false} BackAlong(adj: Adjacency, p: seq<nat>)
    requires Symmetric(adj) && Path(adj, p)
    ensures Connected(adj, p[|p| - 1], p[0])
  {
    if |p| == 1 {
      assert Path(adj, p) && p[0] == p[|p| - 1];
    } else {
      assert Path(adj, p[1..]);
      BackAlong(adj, p[1..]);
      ConnectedStep(adj, p[|p| - 1], p[1], p[0]);
    }
  }

  lemma ConnectedThrough(adj: Adjacency, u: nat, v: nat, w: nat)
    requires Symmetric(adj) && Connected(adj, u, v) && Connected(adj, v, w)
    ensures Connected(adj, u, w)
  {
    var p :| Path(adj, p) && p[0] == v && p[|p| - 1] == w;
    ConnectedAlong(adj, u, p);
  }

  /** Nothing connected to a closed prefix lies outside it. */
  lemma {:induction false} ClosedHolds(adj: Adjacency, order: seq<nat>, k: nat, p: seq<nat>)
    requires k <= |order| && (forall i :: 0 <= i < |order| ==> order[i] < |adj|)
    requires Closed(adj, order, k) && Path(adj, p) && p[0] in order[..k]
    ensures p[|p| - 1] in order[..k]
  {
    if |p| > 1 {
      var i :| 0 <= i < k && order[i] == p[0];
      assert p[1] in adj[order[i]];
      assert Path(adj, p[1..]);
      ClosedHolds(adj, order, k, p[1..]);
    }
  }

  /** Position `b` starts the block that holds position `k`. */
  ghost predicate Starts(adj: Adjacency, order: seq<nat>, b: nat, k: nat)
    requires k < |order|
  {
    b <= k && Closed(adj, order, b) && forall m :: b <= m <= k ==> Connected(adj, order[b], order[m])
  }

  lemma {:induction false} BlockOf(adj: Adjacency, order: seq<nat>, k: nat) returns (b: nat)
    requires Symmetric(adj) && Good(adj, order) && k < |order|
    ensures Starts(adj, order, b, k)
  {
    if EarlierNeighbour(adj, order, k) {
      var i :| 0 <= i < k && order[k] in adj[order[i]];
      b := BlockOf(adj, order, k - 1);
      assert b <= i by { assert order[k] !in order[..b]; }
      ConnectedStep(adj, order[b], order[i], order[k]);
    } else {
      b := k;
      assert Placed(adj, order, k);
      assert Path(adj, [order[k]]);
      assert Connected(adj, order[k], order[k]);
    }
  }

  /** Between two chunks of one component only chunks of that component are listed. */
  lemma ComponentsAreContiguous(adj: Adjacency, order: seq<nat>, i: nat, j: nat, k: nat)
    requires Symmetric(adj) && Good(adj, order) && i <= j <= k < |order|
    requires Connected(adj, order[i], order[k])
    ensures Connected(adj, order[i], order[j])
  {
    var b := BlockOf(adj, order, j);
    var p :| Path(adj, p) && p[0] == order[i] && p[|p| - 1] == order[k];
    assert order[k] !in order[..b];
    assert b <= i by {
      if order[i] in order[..b] { ClosedHolds(adj, order, b, p); }
      assert order[i] !in order[..b];
    }
    ConnectedBack(adj, order[b], order[i]);
    ConnectedThrough(adj, order[i], order[b], order[j]);
  }
}
