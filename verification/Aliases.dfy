/** Short aliases for evidence ids, and resolving them again. */
module Aliases {
  import opened Characters
  import opened Options

  const SHORTEST := 8
  const LONGEST := 64

  predicate Spelled(id: string) {
    SHORTEST <= |id| <= LONGEST && forall i :: 0 <= i < |id| ==> HexDigit(id[i])
  }

  /** An id is spelled with eight to 64 hexadecimal digits of either case. */
  lemma SpelledMeans(id: string)
    ensures Spelled(id) <==> 8 <= |id| <= 64 && forall i :: 0 <= i < |id| ==> id[i] in "0123456789abcdefABCDEF"
  {
    forall c: char ensures HexDigit(c) <==> c in "0123456789abcdefABCDEF" { HexDigitsAre(c); }
  }

  lemma HexDigitsAre(c: char)
    ensures HexDigit(c) <==> c in "0123456789abcdefABCDEF"
  {
    var all := "0123456789abcdefABCDEF";
    if HexDigit(c) {
      var n := c as int;
      assert all[if n <= 57 then n - 48 else if n <= 70 then n - 49 else n - 87] == c;
    }
  }

  /** The evidence of a request: distinct full digests. */
  predicate Digests(ids: seq<string>) {
    && (forall i :: 0 <= i < |ids| ==> |ids[i]| == 64 && Spelled(ids[i]))
    && forall i, j :: 0 <= i < j < |ids| ==> ids[i] != ids[j]
  }

  // ----- aliases -----

  /** Another id starts with the first `n` characters of `id`. */
  predicate Ambiguous(ids: seq<string>, id: string, n: nat)
    requires n <= |id|
  {
    exists i :: 0 <= i < |ids| && ids[i] != id && id[..n] <= ids[i]
  }

  /** `n` is the alias length of `id`: the least from eight on at which no other id shares the prefix. */
  ghost predicate AliasLength(ids: seq<string>, id: string, n: nat) {
    && 8 <= n <= |id| && !Ambiguous(ids, id, n)
    && forall m :: 8 <= m < n ==> Ambiguous(ids, id, m)
  }

  lemma NoOtherHasAll(ids: seq<string>, id: string)
    requires Digests(ids) && |id| == LONGEST
    ensures !Ambiguous(ids, id, LONGEST)
  {
    forall i | 0 <= i < |ids| && id[..LONGEST] <= ids[i] ensures ids[i] == id {
      assert ids[i][..LONGEST] == ids[i] && id[..LONGEST] == id;
    }
  }

  /** The loop that lengthens an alias until it names one id only. */
  method Alias(ids: seq<string>, id: string) returns (alias: string)
    requires Digests(ids) && id in ids
    ensures alias <= id && AliasLength(ids, id, |alias|)
  {
    var length := SHORTEST;
    while length < |id| && Ambiguous(ids, id, length)
      invariant SHORTEST <= length <= |id| && forall m :: SHORTEST <= m < length ==> Ambiguous(ids, id, m)
    {
      length := length + 1;
    }
    NoOtherHasAll(ids, id);
    alias := id[..length];
  }

  /** The aliases of a list of ids, as the request carries them. */
  method Compact(ids: seq<string>, cited: seq<string>) returns (aliases: seq<string>)
    requires Digests(ids) && forall i :: 0 <= i < |cited| ==> cited[i] in ids
    ensures |aliases| == |cited|
    ensures forall i :: 0 <= i < |cited| ==> aliases[i] <= cited[i] && AliasLength(ids, cited[i], |aliases[i]|)
  {
    aliases := [];
    for k := 0 to |cited|
      invariant |aliases| == k
      invariant forall i :: 0 <= i < k ==> aliases[i] <= cited[i] && AliasLength(ids, cited[i], |aliases[i]|)
    {
      var alias := Alias(ids, cited[k]);
      aliases := aliases + [alias];
    }
  }

  // ----- resolving -----

  /** How many ids of the evidence start with the prefix. */
  function Count(evidence: seq<string>, prefix: string): (n: nat)
    ensures n == 0 <==> forall i :: 0 <= i < |evidence| ==> !(prefix <= evidence[i])
  {
    if evidence == [] then 0
    else
      var k := |evidence| - 1;
      Count(evidence[..k], prefix) + if prefix <= evidence[k] then 1 else 0
  }

  lemma {:induction false} CountOne(evidence: seq<string>, prefix: string, i: nat)
    requires i < |evidence| && prefix <= evidence[i]
    requires forall j :: 0 <= j < |evidence| && j != i ==> !(prefix <= evidence[j])
    ensures Count(evidence, prefix) == 1
  {
    var k := |evidence| - 1;
    if i < k { CountOne(evidence[..k], prefix, i); }
  }

  lemma {:induction false} CountMany(evidence: seq<string>, prefix: string, i: nat, j: nat)
    requires i < j < |evidence| && prefix <= evidence[i] && prefix <= evidence[j]
    ensures Count(evidence, prefix) >= 2
  {
    var k := |evidence| - 1;
    if j < k {
      CountMany(evidence[..k], prefix, i, j);
    } else {
      assert prefix <= evidence[..k][i];
    }
  }

  /** The one id that starts with the prefix. */
  predicate Resolves(evidence: seq<string>, prefix: string, id: string) {
    id in evidence && prefix <= id && Count(evidence, prefix) == 1
  }

  lemma ResolvesToOne(evidence: seq<string>, prefix: string, a: string, b: string)
    requires Resolves(evidence, prefix, a) && Resolves(evidence, prefix, b)
    ensures a == b
  {
    var i :| 0 <= i < |evidence| && evidence[i] == a;
    var j :| 0 <= j < |evidence| && evidence[j] == b;
    if i < j { CountMany(evidence, prefix, i, j); }
    if j < i { CountMany(evidence, prefix, j, i); }
  }

  /** The filter over the evidence: how many ids match, and one of them. */
  method Match(evidence: seq<string>, prefix: string) returns (n: nat, id: string)
    ensures n == Count(evidence, prefix)
    ensures n == 1 ==> Resolves(evidence, prefix, id)
  {
    n, id := 0, "";
    for k := 0 to |evidence|
      invariant n == Count(evidence[..k], prefix)
      invariant n > 0 ==> id in evidence && prefix <= id
    {
      assert evidence[..k + 1][..k] == evidence[..k];
      if prefix <= evidence[k] {
        if n == 0 { id := evidence[k]; }
        n := n + 1;
      }
    }
    assert evidence[..|evidence|] == evidence;
  }

  /** The first `n` spellings name one id of the evidence each, all different. */
  ghost predicate Named(spelled: seq<string>, evidence: seq<string>, n: nat)
    requires n <= |spelled|
  {
    && (forall i :: 0 <= i < n ==> Spelled(spelled[i]) && Count(evidence, spelled[i]) == 1)
    && forall i, j, id :: 0 <= i < j < n && Resolves(evidence, spelled[i], id) ==> !Resolves(evidence, spelled[j], id)
  }

  /** `resolve_ids`, in place: succeeds exactly when every spelling is well formed and names one id of the
      evidence, none twice, and then holds the full ids. */
  method ResolveIds(ids: array<string>, evidence: seq<string>, accepted: nat) returns (ok: bool)
    modifies ids
    ensures ok <==> 1 <= ids.Length <= accepted && Named(old(ids[..]), evidence, ids.Length)
    ensures ok ==> forall i :: 0 <= i < ids.Length ==> Resolves(evidence, old(ids[i]), ids[i])
  {
    if ids.Length == 0 || ids.Length > accepted { return false; }
    ghost var spelled := ids[..];
    var seen: set<string> := {};
    for k := 0 to ids.Length
      invariant Named(spelled, evidence, k)
      invariant forall i :: 0 <= i < k ==> Resolves(evidence, spelled[i], ids[i])
      invariant forall i :: k <= i < ids.Length ==> ids[i] == spelled[i]
      invariant forall id :: id in seen <==> exists i :: 0 <= i < k && ids[i] == id
    {
      if !Spelled(ids[k]) { return false; }
      var n, full := Match(evidence, ids[k]);
      if n != 1 { return false; }
      OneMoreNamed(spelled, evidence, ids[..k], k, full);
      ids[k] := full;
      if full in seen {
        return false;
      }
      seen := seen + {full};
    }
    ok := true;
  }

  /** One more spelling that resolves keeps the list as it should be exactly if its id is new. */
  lemma OneMoreNamed(spelled: seq<string>, evidence: seq<string>, resolved: seq<string>, k: nat, id: string)
    requires k < |spelled| && |resolved| == k && Named(spelled, evidence, k)
    requires forall i :: 0 <= i < k ==> Resolves(evidence, spelled[i], resolved[i])
    requires Spelled(spelled[k]) && Resolves(evidence, spelled[k], id)
    ensures Named(spelled, evidence, k + 1) <==> id !in resolved
    ensures id in resolved ==> !Named(spelled, evidence, |spelled|)
  {
    if id in resolved {
      var i :| 0 <= i < k && resolved[i] == id;
      assert Resolves(evidence, spelled[i], id);
    }
    forall i, other | 0 <= i < k && Resolves(evidence, spelled[i], other) && Resolves(evidence, spelled[k], other)
      ensures other == id && other == resolved[i]
    {
      ResolvesToOne(evidence, spelled[k], other, id);
      ResolvesToOne(evidence, spelled[i], other, resolved[i]);
    }
  }

  // ----- round trip -----

  /** An alias names its id and no other. */
  lemma AliasResolves(ids: seq<string>, id: string, alias: string)
    requires Digests(ids) && id in ids && alias <= id && AliasLength(ids, id, |alias|)
    ensures Spelled(alias) && Resolves(ids, alias, id)
  {
    assert alias == id[..|alias|];
    var i :| 0 <= i < |ids| && ids[i] == id;
    forall j | 0 <= j < |ids| && j != i ensures !(alias <= ids[j]) {
      assert ids[j] != id;
    }
    CountOne(ids, alias, i);
    assert forall k :: 0 <= k < |alias| ==> alias[k] == id[k];
  }

  /** Compacting distinct ids and resolving the aliases gives the ids back. */
  lemma AliasesResolve(ids: seq<string>, cited: seq<string>, aliases: seq<string>)
    requires Digests(ids) && |aliases| == |cited|
    requires forall i :: 0 <= i < |cited| ==>
      cited[i] in ids && aliases[i] <= cited[i] && AliasLength(ids, cited[i], |aliases[i]|)
    requires forall i, j :: 0 <= i < j < |cited| ==> cited[i] != cited[j]
    ensures Named(aliases, ids, |aliases|)
    ensures forall i :: 0 <= i < |cited| ==> Resolves(ids, aliases[i], cited[i])
  {
    forall i | 0 <= i < |cited| ensures Spelled(aliases[i]) && Resolves(ids, aliases[i], cited[i]) {
      AliasResolves(ids, cited[i], aliases[i]);
    }
    forall i, j, id | 0 <= i < j < |aliases| && Resolves(ids, aliases[i], id) ensures !Resolves(ids, aliases[j], id) {
      ResolvesToOne(ids, aliases[i], id, cited[i]);
      if Resolves(ids, aliases[j], id) { ResolvesToOne(ids, aliases[j], id, cited[j]); }
    }
  }

  /** Sending citations as aliases and resolving the answer's citations loses nothing. */
  method RoundTrip(ids: seq<string>, cited: seq<string>, accepted: nat) returns (resolved: seq<string>, ok: bool)
    requires Digests(ids) && 1 <= |cited| <= accepted && forall i :: 0 <= i < |cited| ==> cited[i] in ids
    requires forall i, j :: 0 <= i < j < |cited| ==> cited[i] != cited[j]
    ensures ok && resolved == cited
  {
    var aliases := Compact(ids, cited);
    AliasesResolve(ids, cited, aliases);
    var sent := new string[|aliases|](i requires 0 <= i < |aliases| => aliases[i]);
    assert sent[..] == aliases;
    ok := ResolveIds(sent, ids, accepted);
    resolved := sent[..];
    forall i | 0 <= i < |cited| ensures resolved[i] == cited[i] {
      ResolvesToOne(ids, aliases[i], resolved[i], cited[i]);
    }
  }
}
