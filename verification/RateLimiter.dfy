/** The sliding-window limit on requests and tokens sent to the model. Times are in ticks of any length. */
module RateLimiter {
  import opened Options

  datatype Entry = Entry(time: nat, tokens: nat)

  /** Requests and tokens a minute, and how many ticks a second has. */
  datatype Limits = Limits(rpm: nat, tpm: nat, second: nat) {
    function Window(): nat {
      60 * second
    }
  }

  /** The tokens of the entries from the `i`-th up to the `j`-th. */
  function Sum(h: seq<Entry>, i: nat, j: nat): nat
    requires j <= |h|
  {
    if i >= j then 0 else Sum(h, i, j - 1) + h[j - 1].tokens
  }

  lemma {:induction false} SumSame(h: seq<Entry>, g: seq<Entry>, i: nat, j: nat, d: nat)
    requires i <= j && j + d <= |h| && j <= |g| && forall k :: i <= k < j ==> g[k] == h[k + d]
    ensures Sum(g, i, j) == Sum(h, i + d, j + d)
  {
    if i < j { SumSame(h, g, i, j - 1, d); }
  }

  lemma {:induction false} SumTail(h: seq<Entry>, i: nat, k: nat, j: nat)
    requires i <= k <= j <= |h|
    ensures Sum(h, k, j) <= Sum(h, i, j)
  {
    if k < j { SumTail(h, i, k, j - 1); }
  }

  /** The admissions from the `i`-th up to the `j`-th, if they span less than the window, are within limits. */
  predicate RunOk(h: seq<Entry>, i: nat, j: nat, limits: Limits)
    requires i < j <= |h|
  {
    h[j - 1].time - h[i].time < 60 * limits.second ==> j - i <= limits.rpm && Sum(h, i, j) <= limits.tpm
  }

  /** Every run of admissions that spans less than the window is within both limits. */
  predicate WithinLimits(h: seq<Entry>, limits: Limits) {
    forall i, j :: 0 <= i < j <= |h| ==> RunOk(h, i, j, limits)
  }

  /** All admissions so far, of which those from the `base`-th on are still queued. */
  datatype Log = Log(all: seq<Entry>, base: nat, clock: nat)

  ghost predicate LogOk(l: Log, limits: Limits) {
    && l.base <= |l.all| && WithinLimits(l.all, limits)
    && (forall k :: 0 <= k < |l.all| ==> l.all[k].time <= l.clock)
    && (forall k :: 0 <= k < l.base ==> l.clock - l.all[k].time >= limits.Window())
  }

  /** The limits admit a request beside the queued ones. */
  predicate Admits(q: seq<Entry>, tokens: nat, limits: Limits) {
    |q| < limits.rpm && Sum(q, 0, |q|) + tokens <= limits.tpm
  }

  lemma LastRunOk(l: Log, e: Entry, limits: Limits, i: nat)
    requires LogOk(l, limits) && e.time >= l.clock && i <= |l.all|
    requires |l.all| - l.base < limits.rpm && Sum(l.all, l.base, |l.all|) + e.tokens <= limits.tpm
    ensures RunOk(l.all + [e], i, |l.all| + 1, limits)
  {
    var n := l.all + [e];
    if i >= l.base {
      SumSame(l.all, n, i, |l.all|, 0);
      SumTail(l.all, l.base, i, |l.all|);
      assert Sum(n, i, |n|) == Sum(n, i, |l.all|) + e.tokens;
    } else {
      assert n[i] == l.all[i] && n[|l.all|] == e;
    }
  }

  lemma AdmitKeepsLimits(l: Log, e: Entry, limits: Limits)
    requires LogOk(l, limits) && e.time >= l.clock
    requires |l.all| - l.base < limits.rpm && Sum(l.all, l.base, |l.all|) + e.tokens <= limits.tpm
    ensures WithinLimits(l.all + [e], limits)
  {
    var n := l.all + [e];
    forall i, j | 0 <= i < j <= |n| ensures RunOk(n, i, j, limits) {
      if j <= |l.all| {
        assert RunOk(l.all, i, j, limits);
        SumSame(l.all, n, i, j, 0);
      } else {
        LastRunOk(l, e, limits, i);
      }
    }
  }

  /** A request is refused exactly if its admission would break a limit within the last window. */
  lemma RefusedIfItBreaksALimit(l: Log, q: seq<Entry>, tokens: nat, limits: Limits)
    requires LogOk(l, limits) && limits.second > 0 && q == l.all[l.base..]
    requires q != [] ==> l.clock - q[0].time < limits.Window()
    ensures Admits(q, tokens, limits) <==> WithinLimits(l.all + [Entry(l.clock, tokens)], limits)
  {
    var e := Entry(l.clock, tokens);
    var n := l.all + [e];
    SumSame(l.all, q, 0, |q|, l.base);
    if Admits(q, tokens, limits) { AdmitKeepsLimits(l, e, limits); }
    if WithinLimits(n, limits) {
      assert RunOk(n, l.base, |n|, limits);
      SumSame(l.all, n, l.base, |l.all|, 0);
    }
  }

  /** A request that is refused would break a limit at every moment before the oldest queued entry leaves the window. */
  lemma TooEarly(l: Log, q: seq<Entry>, tokens: nat, limits: Limits, time: nat)
    requires LogOk(l, limits) && limits.second > 0 && q == l.all[l.base..] && !Admits(q, tokens, limits)
    requires q != [] && l.clock <= time < q[0].time + limits.Window()
    ensures !WithinLimits(l.all + [Entry(time, tokens)], limits)
  {
    RefusedIfItBreaksALimit(l.(clock := time), q, tokens, limits);
  }

  /** At every moment from `from` up to `to` the request would break a limit. */
  ghost predicate Blocked(all: seq<Entry>, from: nat, to: nat, tokens: nat, limits: Limits) {
    forall time: nat :: from <= time < to ==> !WithinLimits(all + [Entry(time, tokens)], limits)
  }

  lemma StillBlocked(l: Log, q: seq<Entry>, tokens: nat, limits: Limits, from: nat)
    requires LogOk(l, limits) && limits.second > 0 && q == l.all[l.base..] && !Admits(q, tokens, limits) && q != []
    requires Blocked(l.all, from, l.clock, tokens, limits)
    ensures Blocked(l.all, from, q[0].time + limits.Window(), tokens, limits)
  {
    forall time: nat | from <= time < q[0].time + limits.Window()
      ensures !WithinLimits(l.all + [Entry(time, tokens)], limits)
    {
      if time >= l.clock { TooEarly(l, q, tokens, limits, time); }
    }
  }

  lemma Admitted(l: Log, q: seq<Entry>, tokens: nat, limits: Limits) returns (next: Log)
    requires LogOk(l, limits) && q == l.all[l.base..] && Admits(q, tokens, limits)
    ensures next == Log(l.all + [Entry(l.clock, tokens)], l.base, l.clock)
    ensures LogOk(next, limits) && next.all[next.base..] == q + [Entry(l.clock, tokens)]
  {
    next := Log(l.all + [Entry(l.clock, tokens)], l.base, l.clock);
    SumSame(l.all, q, 0, |q|, l.base);
    AdmitKeepsLimits(l, Entry(l.clock, tokens), limits);
  }

  /** What is left of the queue once the entries that have left the window are dropped. */
  function Recent(q: seq<Entry>, now: nat, window: nat): (r: seq<Entry>)
    ensures |r| <= |q| && (r != [] ==> now - r[0].time < window)
    ensures |r| == |q| ==> r == q
  {
    if q != [] && now - q[0].time >= window then Recent(q[1..], now, window) else q
  }

  /** The limiter shared by all requests, under fixed limits. */
  class Limiter {
    const limits: Limits
    var queue: seq<Entry>
    ghost var log: Log

    ghost predicate Valid()
      reads this
    {
      LogOk(log, limits) && queue == log.all[log.base..]
    }

    constructor (limits: Limits)
      ensures Valid() && this.limits == limits && queue == [] && log == Log([], 0, 0)
    {
      this.limits, queue, log := limits, [], Log([], 0, 0);
    }

    /** Dropping the entries that have left the window. */
    method Purge(now: nat)
      requires Valid() && now >= log.clock
      modifies this
      ensures Valid() && log.all == old(log.all) && log.clock == now
        && queue == Recent(old(queue), now, limits.Window())
    {
      log := log.(clock := now);
      while queue != [] && now - queue[0].time >= limits.Window()
        invariant Valid() && log.all == old(log.all) && log.clock == now
        invariant Recent(queue, now, limits.Window()) == Recent(old(queue), now, limits.Window())
        decreases |queue|
      {
        assert queue[1..] == log.all[log.base + 1..];
        queue := queue[1..];
        log := log.(base := log.base + 1);
      }
    }

    /** One turn of the loop: the request is admitted if the limits allow it beside the requests of the
        last minute, and is otherwise told to wait until the oldest of them leaves the window. */
    method Try(now: nat, tokens: nat) returns (wait: Option<nat>)
      requires Valid() && now >= log.clock
      modifies this
      ensures Valid() && log.clock == now
      ensures wait.None? <==> Admits(Recent(old(queue), now, limits.Window()), tokens, limits)
      ensures limits.second > 0 ==>
        (wait.None? <==> WithinLimits(old(log.all) + [Entry(now, tokens)], limits))
      ensures queue == Recent(old(queue), now, limits.Window()) + if wait.None? then [Entry(now, tokens)] else []
      ensures log.all == old(log.all) + if wait.None? then [Entry(now, tokens)] else []
      ensures wait.Some? ==> !Admits(queue, tokens, limits)
      ensures wait.Some? ==> wait.value == if queue == [] then limits.second else queue[0].time + limits.Window() - now
    {
      Purge(now);
      if limits.second > 0 { RefusedIfItBreaksALimit(log, queue, tokens, limits); }
      var sum := Total(queue);
      if |queue| < limits.rpm && sum + tokens <= limits.tpm {
        ghost var next := Admitted(log, queue, tokens, limits);
        queue := queue + [Entry(now, tokens)];
        log := next;
        wait := None;
      } else if queue == [] {
        wait := Some(limits.second);
      } else {
        assert queue[0] == log.all[log.base];
        wait := Some(limits.Window() - (now - queue[0].time));
      }
    }

    /** `rate_limit` for a request that nothing else competes with: `late[k]` is how much longer than
        asked the `k`-th wait takes. It is admitted after at most as many waits as the queue had
        entries, and if no wait takes longer than asked, as soon as it breaks no limit. */
    method Acquire(now: nat, tokens: nat, late: seq<nat>) returns (waits: nat)
      requires Valid() && now >= log.clock && limits.rpm > 0 && tokens <= limits.tpm && |late| >= |queue|
      modifies this
      ensures Valid() && waits <= old(|queue|)
      ensures log.clock >= now && log.all == old(log.all) + [Entry(log.clock, tokens)]
      ensures limits.second > 0 && (forall k :: 0 <= k < |late| ==> late[k] == 0) ==>
        Blocked(old(log.all), now, log.clock, tokens, limits)
    {
      waits := 0;
      var time: nat := now;
      ghost var prompt := limits.second > 0 && forall k :: 0 <= k < |late| ==> late[k] == 0;
      ghost var all := log.all;
      var wait := Try(time, tokens);
      while wait.Some?
        invariant prompt ==> Blocked(all, now, time, tokens, limits)
        invariant wait.Some? ==> !Admits(queue, tokens, limits)
        invariant Valid() && log.clock == time >= now
        invariant wait.None? ==> log.all == old(log.all) + [Entry(time, tokens)] && waits <= old(|queue|)
        invariant wait.Some? ==> log.all == old(log.all) && waits + |queue| <= old(|queue|)
        invariant wait.Some? ==> queue != [] && time + wait.value - queue[0].time == limits.Window()
        decreases if wait.Some? then 1 + |queue| else 0
      {
        if prompt { StillBlocked(log, queue, tokens, limits, now); }
        time := time + wait.value + late[waits];
        waits := waits + 1;
        wait := Try(time, tokens);
      }
    }
  }

  method Total(q: seq<Entry>) returns (sum: nat)
    ensures sum == Sum(q, 0, |q|)
  {
    sum := 0;
    for i := 0 to |q|
      invariant sum == Sum(q, 0, i)
    {
      sum := sum + q[i].tokens;
    }
  }

  /** A request that the limits never admit: no queue, however old, lets it through. */
  lemma NeverAdmitted(tokens: nat, limits: Limits)
    ensures (exists q :: Admits(q, tokens, limits)) <==> limits.rpm > 0 && tokens <= limits.tpm
  {
    if limits.rpm > 0 && tokens <= limits.tpm { assert Admits([], tokens, limits); }
  }
}
