/** Dividing section and diagram limits across the parts of a plan by their branch counts. */
module Shares {
  import opened Basics

  function Sum(s: seq<nat>): nat {
    if s == [] then 0 else Sum(s[..|s| - 1]) + s[|s| - 1]
  }

  lemma {:induction false} SumUpdate(s: seq<nat>, i: nat, v: nat)
    requires i < |s|
    ensures Sum(s[i := v]) == Sum(s) - s[i] + v
  {
    var k := |s| - 1;
    if i == k {
      assert s[i := v][..k] == s[..k];
    } else {
      assert s[i := v][..k] == s[..k][i := v];
      SumUpdate(s[..k], i, v);
    }
  }

  lemma {:induction false} SumAtLeast(s: seq<nat>, i: nat)
    requires i < |s|
    ensures s[i] <= Sum(s)
  {
    if i < |s| - 1 { SumAtLeast(s[..|s| - 1], i); }
  }

  lemma {:induction false} SumOfOnes(s: seq<nat>)
    requires forall i :: 0 <= i < |s| ==> s[i] == 1
    ensures Sum(s) == |s|
  {
    if s != [] { SumOfOnes(s[..|s| - 1]); }
  }

  /** The whole part of the share of `total` that weight `w` has in `sum`. */
  function Quota(total: nat, w: nat, sum: nat): (q: nat)
    requires sum > 0
    ensures sum * q <= total * w < sum * q + sum
  {
    total * w / sum
  }

  lemma QuotaMono(total: nat, v: nat, w: nat, sum: nat)
    requires sum > 0 && v <= w
    ensures Quota(total, v, sum) <= Quota(total, w, sum)
  {
    assert total * v <= total * w;
    DivMono(total * v, total * w, sum);
  }

  lemma DivMono(a: nat, b: nat, d: nat)
    requires d > 0 && a <= b
    ensures a / d <= b / d
  {
    assert a == d * (a / d) + a % d && b == d * (b / d) + b % d;
    if a / d > b / d { MulGap(d, b / d, a / d); }
  }

  lemma MulGap(n: nat, a: nat, b: nat)
    requires a < b
    ensures n * a + n <= n * b
  {
    assert n * b == n * (b - a - 1) + n * a + n;
  }

  method Total(s: seq<nat>) returns (sum: nat)
    ensures sum == Sum(s)
  {
    sum := 0;
    for i := 0 to |s|
      invariant sum == Sum(s[..i])
    {
      assert s[..i + 1][..i] == s[..i];
      sum := sum + s[i];
    }
    assert s[..|s|] == s;
  }

  /** The quotas, each raised to at least `least`. */
  method Quotas(total: nat, weights: seq<nat>, sum: nat, least: nat) returns (shares: seq<nat>)
    requires sum > 0
    ensures |shares| == |weights| && forall i :: 0 <= i < |weights| ==>
      shares[i] == Max(Quota(total, weights[i], sum), least)
  {
    shares := [];
    for i := 0 to |weights|
      invariant |shares| == i && forall k :: 0 <= k < i ==> shares[k] == Max(Quota(total, weights[k], sum), least)
    {
      shares := shares + [Max(Quota(total, weights[i], sum), least)];
    }
  }

  // ----- sections -----

  /** The last of the largest shares that can still give one up. */
  method Largest(shares: seq<nat>) returns (found: bool, at: nat)
    ensures found ==> at < |shares| && shares[at] > 1 && forall i :: 0 <= i < |shares| ==> shares[i] <= shares[at]
    ensures found ==> forall i :: at < i < |shares| ==> shares[i] < shares[at]
    ensures !found ==> forall i :: 0 <= i < |shares| ==> shares[i] <= 1
  {
    found, at := false, 0;
    for i := 0 to |shares|
      invariant found ==> at < i && shares[at] > 1 && forall k :: 0 <= k < i ==> shares[k] <= shares[at]
      invariant found ==> forall k :: at < k < i ==> shares[k] < shares[at]
      invariant !found ==> forall k :: 0 <= k < i ==> shares[k] <= 1
    {
      if shares[i] > 1 && (!found || shares[i] >= shares[at]) { found, at := true, i; }
    }
  }

  /** No part ends more than one below a part that is no heavier. */
  predicate Fair(shares: seq<nat>, weights: seq<nat>) {
    |shares| == |weights| && forall i, j :: 0 <= i < |weights| && 0 <= j < |weights| && weights[i] >= weights[j] ==>
      shares[i] + 1 >= shares[j]
  }

  /** The share of a part by its weight, but at least one. */
  function Raised(total: nat, weights: seq<nat>): (quotas: seq<nat>)
    ensures |quotas| == |weights|
    ensures forall i :: 0 <= i < |weights| ==> quotas[i] == Max(Quota(total, weights[i], Max(Sum(weights), 1)), 1)
  {
    seq(|weights|, i requires 0 <= i < |weights| => Max(Quota(total, weights[i], Max(Sum(weights), 1)), 1))
  }

  /** Some shares are lowered from their quotas, the largest first and the last of these: a lowered one is at most one
      below any other, and below an earlier one only. */
  predicate Lowered(shares: seq<nat>, quotas: seq<nat>) {
    && |shares| == |quotas| && (forall i :: 0 <= i < |shares| ==> 1 <= shares[i] <= quotas[i])
    && forall i, j :: 0 <= i < |shares| && 0 <= j < |shares| && shares[i] < quotas[i] ==>
      shares[i] + 1 >= shares[j] && (shares[i] + 1 == shares[j] ==> j < i)
  }

  lemma {:induction false} SumMono(s: seq<nat>, t: seq<nat>)
    requires |s| == |t| && forall i :: 0 <= i < |s| ==> s[i] <= t[i]
    ensures Sum(s) <= Sum(t)
  {
    if s != [] { SumMono(s[..|s| - 1], t[..|t| - 1]); }
  }

  lemma {:induction false} SumsDiffer(s: seq<nat>, t: seq<nat>)
    requires |s| == |t| && forall i :: 0 <= i < |s| ==> s[i] <= t[i]
    ensures Sum(s) == Sum(t) ==> s == t
  {
    if s != [] {
      var k := |s| - 1;
      SumMono(s[..k], t[..k]);
      SumsDiffer(s[..k], t[..k]);
      assert s == s[..k] + [s[k]] && t == t[..k] + [t[k]];
    }
  }

  /** Lists of the same sum that differ are ordered both ways somewhere. */
  lemma Crossing(s: seq<nat>, t: seq<nat>) returns (i: nat, j: nat)
    requires |s| == |t| && Sum(s) == Sum(t) && s != t
    ensures i < |s| && j < |s| && s[i] < t[i] && s[j] > t[j]
  {
    if forall k :: 0 <= k < |s| ==> s[k] <= t[k] { SumsDiffer(s, t); }
    if forall k :: 0 <= k < |s| ==> t[k] <= s[k] { SumsDiffer(t, s); }
    i :| 0 <= i < |s| && s[i] < t[i];
    j :| 0 <= j < |s| && s[j] > t[j];
  }

  lemma {:induction false} SumOfPositive(s: seq<nat>)
    requires forall i :: 0 <= i < |s| ==> s[i] >= 1
    ensures Sum(s) >= |s|
  {
    if s != [] { SumOfPositive(s[..|s| - 1]); }
  }

  /** Lowering keeps a part from ending more than one below a part that is no heavier. */
  lemma LoweredIsFair(total: nat, weights: seq<nat>, shares: seq<nat>)
    requires Lowered(shares, Raised(total, weights))
    ensures Fair(shares, weights)
  {
    forall i, j | 0 <= i < |weights| && 0 <= j < |weights| && weights[i] >= weights[j]
      ensures shares[i] + 1 >= shares[j]
    {
      QuotaMono(total, weights[j], weights[i], Max(Sum(weights), 1));
    }
  }

  lemma LowerOne(shares: seq<nat>, quotas: seq<nat>, at: nat)
    requires Lowered(shares, quotas) && at < |shares| && shares[at] > 1
    requires forall i :: 0 <= i < |shares| ==> shares[i] <= shares[at] && (i > at ==> shares[i] < shares[at])
    ensures Lowered(shares[at := shares[at] - 1], quotas)
    ensures Sum(shares[at := shares[at] - 1]) == Sum(shares) - 1
  {
    SumUpdate(shares, at, shares[at] - 1);
  }

  /** `chapter_shares`: every part starts with its quota, but at least one, and while the sum is too large the
      largest share gives one up, unless all are one. */
  method ChapterShares(total: nat, weights: seq<nat>) returns (shares: seq<nat>)
    ensures Lowered(shares, Raised(total, weights)) && Fair(shares, weights)
    ensures Sum(shares) == Min(Sum(Raised(total, weights)), Max(total, |weights|))
  {
    var sum := Total(weights);
    sum := Max(sum, 1);
    shares := Quotas(total, weights, sum, 1);
    ghost var quotas := Raised(total, weights);
    assert shares == quotas;
    SumOfPositive(quotas);
    var used := Total(shares);
    while used > total
      invariant used == Sum(shares) && Lowered(shares, quotas)
      invariant used == Sum(quotas) || total <= used < Sum(quotas)
      decreases used
    {
      var found, at := Largest(shares);
      if !found {
        SumOfOnes(shares);
        break;
      }
      LowerOne(shares, quotas, at);
      shares := shares[at := shares[at] - 1];
      used := Total(shares);
    }
    SumOfPositive(shares);
    LoweredIsFair(total, weights, shares);
  }

  /** The quotas and how much is handed out determine the shares. */
  lemma LoweredIsUnique(shares: seq<nat>, others: seq<nat>, quotas: seq<nat>)
    requires Lowered(shares, quotas) && Lowered(others, quotas) && Sum(shares) == Sum(others)
    ensures shares == others
  {
    if shares != others {
      var i, j := Crossing(shares, others);
      assert false;
    }
  }

  // ----- diagrams -----

  /** `i` comes before `j` when left-over diagrams are handed out: heavier, or as heavy and earlier. */
  predicate Before(weights: seq<nat>, i: nat, j: nat)
    requires i < |weights| && j < |weights|
  {
    weights[i] > weights[j] || (weights[i] == weights[j] && i <= j)
  }

  /** All parts, heaviest first. */
  ghost predicate IsOrder(weights: seq<nat>, order: seq<nat>) {
    && |order| == |weights| && (forall k :: 0 <= k < |order| ==> order[k] < |weights|)
    && (forall k, l :: 0 <= k < l < |order| ==> order[k] != order[l] && Before(weights, order[k], order[l]))
    && forall i :: 0 <= i < |weights| ==> i in order
  }

  method SortByWeight(weights: seq<nat>) returns (order: seq<nat>)
    ensures IsOrder(weights, order)
  {
    order := [];
    for i := 0 to |weights|
      invariant |order| == i && (forall k :: 0 <= k < i ==> order[k] < i)
      invariant forall k, l :: 0 <= k < l < i ==> order[k] != order[l] && Before(weights, order[k], order[l])
      invariant forall k :: 0 <= k < i ==> k in order
    {
      var at := 0;
      while at < i && Before(weights, order[at], i)
        invariant at <= i && forall k :: 0 <= k < at ==> Before(weights, order[k], i)
      {
        at := at + 1;
      }
      var next := order[..at] + [i] + order[at..];
      forall k | 0 <= k < i + 1 ensures k in next {
        if k < i { assert k in order && order == order[..at] + order[at..]; }
      }
      order := next;
    }
  }

  /** What the first `steps` turns of the cycle hand to the `k`-th in the order. */
  function Handed(steps: nat, n: nat, k: nat): nat
    requires k < n
  {
    steps / n + if k < steps % n then 1 else 0
  }

  lemma OneMoreTurn(steps: nat, n: nat, k: nat)
    requires k < n
    ensures Handed(steps + 1, n, k) == Handed(steps, n, k) + if k == steps % n then 1 else 0
  {
    var q, r := steps / n, steps % n;
    assert steps == n * q + r;
    if r + 1 < n {
      DivIs(steps + 1, n, q, r + 1);
    } else {
      assert steps + 1 == n * (q + 1) + 0 by { assert n * (q + 1) == n * q + n; }
      DivIs(steps + 1, n, q + 1, 0);
    }
  }

  lemma DivIs(a: nat, n: nat, q: nat, r: nat)
    requires n > 0 && a == n * q + r && r < n
    ensures a / n == q && a % n == r
  {
    var p := a / n;
    assert a == n * p + a % n;
    if p < q { MulGap(n, p, q); }
    if p > q { MulGap(n, q, p); }
  }

  /** One more part: its quota misses its exact share by less than one. */
  lemma QuotaStep(total: nat, w: nat, sum: nat, s: nat, before: nat, weight: nat, n: nat)
    requires sum > 0 && s == Quota(total, w, sum)
    requires before * sum <= total * weight <= before * sum + n * (sum - 1)
    ensures (before + s) * sum <= total * (weight + w) <= (before + s) * sum + (n + 1) * (sum - 1)
  {
    assert total * w == sum * s + total * w % sum;
    assert (before + s) * sum == before * sum + sum * s;
    assert total * (weight + w) == total * weight + total * w;
    assert (n + 1) * (sum - 1) == n * (sum - 1) + (sum - 1);
  }

  /** The quotas add up to at most the total, and miss it by less than one a part. */
  lemma {:induction false} QuotasFit(total: nat, weights: seq<nat>, shares: seq<nat>, sum: nat)
    requires sum > 0 && |shares| == |weights| && forall i :: 0 <= i < |weights| ==>
      shares[i] == Quota(total, weights[i], sum)
    ensures Sum(shares) * sum <= total * Sum(weights) <= Sum(shares) * sum + |weights| * (sum - 1)
  {
    if weights != [] {
      var k := |weights| - 1;
      QuotasFit(total, weights[..k], shares[..k], sum);
      QuotaStep(total, weights[k], sum, shares[k], Sum(shares[..k]), Sum(weights[..k]), k);
    }
  }

  lemma Between(s: nat, total: nat, sum: nat, n: nat)
    requires sum > 0 && s * sum <= total * sum <= s * sum + n * (sum - 1)
    ensures s <= total && (n > 0 ==> total - s < n)
  {
    if s > total { MulGap(sum, total, s); }
    assert n * (sum - 1) == n * sum - n;
    if total >= s + n { MulLe(s + n, total, sum); }
    assert (s + n) * sum == s * sum + n * sum;
  }

  /** What is left to hand out is less than one a part, unless all weights are zero. */
  lemma LeftOver(total: nat, weights: seq<nat>, shares: seq<nat>, sum: nat)
    requires sum == Max(Sum(weights), 1) && |shares| == |weights|
    requires forall i :: 0 <= i < |weights| ==> shares[i] == Quota(total, weights[i], sum)
    ensures Sum(shares) <= total
    ensures Sum(weights) > 0 ==> total - Sum(shares) < |weights|
  {
    QuotasFit(total, weights, shares, sum);
    if Sum(weights) > 0 { Between(Sum(shares), total, sum, |weights|); }
  }

  lemma MulLe(a: nat, b: nat, n: nat)
    requires a <= b
    ensures a * n <= b * n
  {}

  /** The shares after so many turns of the cycle. */
  ghost predicate Dealt(shares: seq<nat>, quotas: seq<nat>, order: seq<nat>, steps: nat) {
    && |shares| == |quotas| == |order| && (forall k :: 0 <= k < |order| ==> order[k] < |shares|)
    && forall k :: 0 <= k < |order| ==> shares[order[k]] == quotas[order[k]] + Handed(steps, |order|, k)
  }

  lemma DealOne(shares: seq<nat>, quotas: seq<nat>, order: seq<nat>, steps: nat)
    requires Dealt(shares, quotas, order, steps) && order != []
    requires forall k, l :: 0 <= k < l < |order| ==> order[k] != order[l]
    ensures var at := order[steps % |order|]; Dealt(shares[at := shares[at] + 1], quotas, order, steps + 1)
  {
    var n := |order|;
    forall k | 0 <= k < n ensures Handed(steps + 1, n, k) == Handed(steps, n, k) + if k == steps % n then 1 else 0 {
      OneMoreTurn(steps, n, k);
    }
  }

  /** What a part gets beyond its quota. */
  function Extra(shares: seq<nat>, total: nat, weights: seq<nat>, i: nat): int
    requires i < |weights| == |shares|
  {
    shares[i] - Quota(total, weights[i], Max(Sum(weights), 1))
  }

  /** The quotas are topped up in order, each by as much as the others or one more for an earlier part. */
  predicate ToppedUp(shares: seq<nat>, total: nat, weights: seq<nat>) {
    && |shares| == |weights|
    && forall i, j :: 0 <= i < |weights| && 0 <= j < |weights| && Before(weights, i, j) ==>
      Extra(shares, total, weights, j) <= Extra(shares, total, weights, i) <= Extra(shares, total, weights, j) + 1
  }

  /** The weights and how much is handed out determine the shares. */
  lemma ToppedUpIsUnique(shares: seq<nat>, others: seq<nat>, total: nat, weights: seq<nat>)
    requires ToppedUp(shares, total, weights) && ToppedUp(others, total, weights) && Sum(shares) == Sum(others)
    ensures shares == others
  {
    if shares != others {
      var i, j := Crossing(shares, others);
      OneBefore(weights, i, j);
      assert false;
    }
  }

  lemma OneBefore(weights: seq<nat>, i: nat, j: nat)
    requires i < |weights| && j < |weights|
    ensures Before(weights, i, j) || Before(weights, j, i)
  {}

  /** `diagram_shares`: the whole total is handed out, an earlier or heavier part never gets less than a
      later one that is no heavier, nor less on top of its quota, and unless all weights are zero every share is its
      quota or one more. */
  method DiagramShares(total: nat, weights: seq<nat>) returns (shares: seq<nat>)
    ensures |shares| == |weights| && (weights != [] ==> Sum(shares) == total)
    ensures forall i, j :: 0 <= i < |weights| && 0 <= j < |weights| && Before(weights, i, j) ==> shares[i] >= shares[j]
    ensures Sum(weights) > 0 ==>
      forall i :: 0 <= i < |weights| ==>
        Quota(total, weights[i], Sum(weights)) <= shares[i] <= Quota(total, weights[i], Sum(weights)) + 1
    ensures ToppedUp(shares, total, weights)
  {
    var sum := Total(weights);
    sum := Max(sum, 1);
    shares := Quotas(total, weights, sum, 0);
    ghost var quotas := shares;
    var order := SortByWeight(weights);
    var used := Total(shares);
    LeftOver(total, weights, shares, sum);
    var remaining: nat := total - used;
    ghost var left := remaining;
    var turn := 0;
    var turns := |weights| * total;
    if weights != [] { MulLe(1, |weights|, total); }
    while turn < turns && remaining > 0
      invariant turn + remaining == left && Sum(shares) + remaining == total
      invariant Dealt(shares, quotas, order, turn)
    {
      var at := order[turn % |weights|];
      DealOne(shares, quotas, order, turn);
      SumUpdate(shares, at, shares[at] + 1);
      shares := shares[at := shares[at] + 1];
      remaining := remaining - 1;
      turn := turn + 1;
    }
    DealtFairly(total, weights, sum, shares, quotas, order, turn);
  }

  lemma DealtFairly(
      total: nat, weights: seq<nat>, sum: nat, shares: seq<nat>, quotas: seq<nat>, order: seq<nat>, turn: nat)
    requires sum == Max(Sum(weights), 1) && IsOrder(weights, order) && Dealt(shares, quotas, order, turn)
    requires |quotas| == |weights| && forall i :: 0 <= i < |weights| ==> quotas[i] == Quota(total, weights[i], sum)
    ensures forall i, j :: 0 <= i < |weights| && 0 <= j < |weights| && Before(weights, i, j) ==> shares[i] >= shares[j]
    ensures ToppedUp(shares, total, weights)
    ensures turn < |weights| ==> forall i :: 0 <= i < |weights| ==> quotas[i] <= shares[i] <= quotas[i] + 1
  {
    forall i, j | 0 <= i < |weights| && 0 <= j < |weights| && Before(weights, i, j)
      ensures shares[i] >= shares[j]
      ensures Extra(shares, total, weights, j) <= Extra(shares, total, weights, i)
      ensures Extra(shares, total, weights, i) <= Extra(shares, total, weights, j) + 1
    {
      QuotaMono(total, weights[j], weights[i], sum);
      assert i in order && j in order;
      var k :| 0 <= k < |order| && order[k] == i;
      var l :| 0 <= l < |order| && order[l] == j;
      assert k <= l;
    }
    if turn < |weights| {
      DivIs(turn, |weights|, 0, turn);
      forall i | 0 <= i < |weights| ensures quotas[i] <= shares[i] <= quotas[i] + 1 {
        assert i in order;
        var k :| 0 <= k < |order| && order[k] == i;
      }
    }
  }
}
