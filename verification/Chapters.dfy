/** Dividing a large source into chapters, cutting these into requests, and joining their plans. */
module Chapters {
  import opened Options

  const MAX_CHAPTERS := 16
  const CHAPTER_BRANCHES := 16

  /** The branches are numbered in reading order; labels name branches and groups of them. */
  datatype View = View(count: nat, branchIndex: map<string, nat>, groupIndex: map<string, nat>, groups: seq<seq<nat>>)

  ghost predicate ViewOk(v: View) {
    && (forall l :: l in v.branchIndex ==> v.branchIndex[l] < v.count)
    && (forall l :: l in v.groupIndex ==> v.groupIndex[l] < |v.groups|)
    && (forall g, b :: 0 <= g < |v.groups| && b in v.groups[g] ==> b < v.count)
    && forall g, h, b :: 0 <= g < |v.groups| && 0 <= h < |v.groups| && b in v.groups[g] && b in v.groups[h] ==> g == h
  }

  /** A chapter as the model answered it; `sound` stands for its bounded title and summary. */
  datatype DraftChapter = DraftChapter(title: string, sound: bool, groups: seq<string>, branches: seq<string>)
  datatype DraftExclusion = DraftExclusion(name: string, sound: bool)
  datatype Draft = Draft(chapters: seq<DraftChapter>, exclusions: seq<DraftExclusion>, sound: bool)

  // ----- claims: which chapter takes what -----

  function Groups(d: Draft): (lists: seq<seq<string>>)
    ensures |lists| == |d.chapters| && forall c :: 0 <= c < |lists| ==> lists[c] == d.chapters[c].groups
  {
    seq(|d.chapters|, c requires 0 <= c < |d.chapters| => d.chapters[c].groups)
  }

  function Branches(d: Draft): (lists: seq<seq<string>>)
    ensures |lists| == |d.chapters| && forall c :: 0 <= c < |lists| ==> lists[c] == d.chapters[c].branches
  {
    seq(|d.chapters|, c requires 0 <= c < |d.chapters| => d.chapters[c].branches)
  }

  /** The `c`-th list names `x`. */
  ghost predicate Lists(lists: seq<seq<string>>, known: map<string, nat>, c: nat, x: nat) {
    c < |lists| && exists l :: l in lists[c] && l in known && known[l] == x
  }

  /** The first `n` lists hold known labels only, and no two of them name the same thing. */
  ghost predicate Consistent(lists: seq<seq<string>>, known: map<string, nat>, n: nat)
    requires n <= |lists|
  {
    && (forall c, l :: 0 <= c < n && l in lists[c] ==> l in known)
    && forall c, d, x :: 0 <= c < n && 0 <= d < n && Lists(lists, known, c, x) && Lists(lists, known, d, x) ==> c == d
  }

  /** `claims` says of everything named by the first `n` lists which of them names it. */
  ghost predicate Claimed(claims: map<nat, nat>, lists: seq<seq<string>>, known: map<string, nat>, n: nat)
    requires n <= |lists|
  {
    && (forall x :: x in claims ==> claims[x] < n && Lists(lists, known, claims[x], x))
    && forall c, x :: 0 <= c < n && Lists(lists, known, c, x) ==> x in claims && claims[x] == c
  }

  /** The loop over the labels of one list. */
  method ClaimAll(labels: seq<string>, known: map<string, nat>, c: nat, claims: map<nat, nat>)
      returns (r: Option<map<nat, nat>>)
    ensures r.Some? <==> forall l :: l in labels ==> l in known && (known[l] in claims ==> claims[known[l]] == c)
    ensures r.Some? ==> forall x :: x in r.value <==>
      x in claims || exists l :: l in labels && l in known && known[l] == x
    ensures r.Some? ==> forall x :: x in r.value ==> r.value[x] == if x in claims then claims[x] else c
  {
    var m := claims;
    for k := 0 to |labels|
      invariant forall l :: l in labels[..k] ==> l in known && (known[l] in claims ==> claims[known[l]] == c)
      invariant forall x :: x in m <==> x in claims || exists l :: l in labels[..k] && l in known && known[l] == x
      invariant forall x :: x in m ==> m[x] == if x in claims then claims[x] else c
    {
      var l := labels[k];
      assert l in labels;
      assert forall o :: o in labels[..k + 1] <==> o in labels[..k] || o == l;
      if l !in known { return None; }
      if known[l] in m && m[known[l]] != c { return None; }
      m := m[known[l] := c];
    }
    assert labels[..|labels|] == labels;
    r := Some(m);
  }

  /** One more list: it can be claimed if and only if the lists stay consistent. */
  lemma ClaimsGrow(
      lists: seq<seq<string>>, known: map<string, nat>, n: nat, claims: map<nat, nat>, r: Option<map<nat, nat>>)
    requires n < |lists| && Consistent(lists, known, n) && Claimed(claims, lists, known, n)
    requires r.Some? <==> forall l :: l in lists[n] ==> l in known && (known[l] in claims ==> claims[known[l]] == n)
    requires r.Some? ==> forall x :: x in r.value <==>
      x in claims || exists l :: l in lists[n] && l in known && known[l] == x
    requires r.Some? ==> forall x :: x in r.value ==> r.value[x] == if x in claims then claims[x] else n
    ensures r.Some? <==> Consistent(lists, known, n + 1)
    ensures r.Some? ==> Claimed(r.value, lists, known, n + 1)
  {
    if r.Some? {
      forall x | Lists(lists, known, n, x) ensures x in r.value && r.value[x] == n {
        var l :| l in lists[n] && l in known && known[l] == x;
      }
      forall x | x in r.value ensures r.value[x] < n + 1 && Lists(lists, known, r.value[x], x) {
        if x !in claims {
          var l :| l in lists[n] && l in known && known[l] == x;
        }
      }
    } else {
      var l :| l in lists[n] && !(l in known && (known[l] in claims ==> claims[known[l]] == n));
      if l in known {
        assert Lists(lists, known, n, known[l]) && Lists(lists, known, claims[known[l]], known[l]);
      }
    }
  }

  method ClaimList(lists: seq<seq<string>>, known: map<string, nat>, n: nat, claims: map<nat, nat>)
      returns (r: Option<map<nat, nat>>)
    requires n < |lists| && Consistent(lists, known, n) && Claimed(claims, lists, known, n)
    ensures r.Some? <==> Consistent(lists, known, n + 1)
    ensures r.Some? ==> Claimed(r.value, lists, known, n + 1)
  {
    r := ClaimAll(lists[n], known, n, claims);
    ClaimsGrow(lists, known, n, claims, r);
  }

  // ----- what is accepted, and what becomes of a branch -----

  ghost predicate Named(d: Draft, v: View, c: nat, b: nat) {
    Lists(Branches(d), v.branchIndex, c, b)
  }

  ghost predicate TakenWithGroup(d: Draft, v: View, c: nat, b: nat) {
    exists g :: 0 <= g < |v.groups| && b in v.groups[g] && Lists(Groups(d), v.groupIndex, c, g)
  }

  ghost predicate NamedAtAll(d: Draft, v: View, b: nat) {
    exists c :: 0 <= c < |d.chapters| && Named(d, v, c, b)
  }

  ghost predicate GroupTaken(d: Draft, v: View, g: nat) {
    exists c :: 0 <= c < |d.chapters| && Lists(Groups(d), v.groupIndex, c, g)
  }

  /** An exclusion names a branch or, if its label is no branch label, all branches of a group. */
  predicate Covers(e: DraftExclusion, v: View, b: nat) {
    if e.name in v.branchIndex then v.branchIndex[e.name] == b
    else e.name in v.groupIndex && v.groupIndex[e.name] < |v.groups| && b in v.groups[v.groupIndex[e.name]]
  }

  ghost predicate Excluded(d: Draft, v: View, b: nat, n: nat)
    requires n <= |d.exclusions|
  {
    exists k :: 0 <= k < n && Covers(d.exclusions[k], v, b)
  }

  ghost predicate ExclusionOk(d: Draft, v: View, e: DraftExclusion) {
    && e.sound && (e.name in v.branchIndex || e.name in v.groupIndex)
    && (e.name in v.branchIndex ==> !NamedAtAll(d, v, v.branchIndex[e.name]))
    && (e.name !in v.branchIndex && e.name in v.groupIndex ==> !GroupTaken(d, v, v.groupIndex[e.name]))
  }

  /** The chapter a branch belongs to: naming it beats excluding it, which beats taking its group. */
  ghost predicate Belongs(d: Draft, v: View, c: nat, b: nat) {
    if NamedAtAll(d, v, b) then Named(d, v, c, b)
    else !Excluded(d, v, b, |d.exclusions|) && TakenWithGroup(d, v, c, b)
  }

  ghost predicate Dropped(d: Draft, v: View, b: nat) {
    !NamedAtAll(d, v, b) && Excluded(d, v, b, |d.exclusions|)
  }

  ghost predicate TitlesOk(d: Draft, n: nat)
    requires n <= |d.chapters|
  {
    && (forall c :: 0 <= c < n ==> d.chapters[c].sound)
    && forall c, e :: 0 <= c < e < n ==> d.chapters[c].title != d.chapters[e].title
  }

  ghost predicate Accounted(d: Draft, v: View, b: nat) {
    Dropped(d, v, b) || exists c :: 0 <= c < |d.chapters| && Belongs(d, v, c, b)
  }

  ghost predicate HasBranch(d: Draft, v: View, c: nat) {
    exists b :: 0 <= b < v.count && Belongs(d, v, c, b)
  }

  /** Exactly the divisions that are accepted. */
  ghost predicate Acceptable(d: Draft, v: View) {
    && 1 <= |d.chapters| <= 16 && d.sound && TitlesOk(d, |d.chapters|)
    && Consistent(Branches(d), v.branchIndex, |d.chapters|) && Consistent(Groups(d), v.groupIndex, |d.chapters|)
    && (forall k :: 0 <= k < |d.exclusions| ==> ExclusionOk(d, v, d.exclusions[k]))
    && (forall b :: 0 <= b < v.count ==> Accounted(d, v, b))
    && forall c :: 0 <= c < |d.chapters| ==> HasBranch(d, v, c)
  }

  // ----- the loops -----

  datatype Claims = Claims(explicit: map<nat, nat>, byGroup: map<nat, nat>)

  ghost predicate ClaimsOk(d: Draft, v: View, m: Claims, n: nat)
    requires n <= |d.chapters|
  {
    Claimed(m.explicit, Branches(d), v.branchIndex, n) && Claimed(m.byGroup, Groups(d), v.groupIndex, n)
  }

  ghost predicate ChaptersOk(d: Draft, v: View, n: nat)
    requires n <= |d.chapters|
  {
    TitlesOk(d, n) && Consistent(Branches(d), v.branchIndex, n) && Consistent(Groups(d), v.groupIndex, n)
  }

  lemma ConsistentMono(lists: seq<seq<string>>, known: map<string, nat>, n: nat, m: nat)
    requires n <= m <= |lists| && Consistent(lists, known, m)
    ensures Consistent(lists, known, n)
  {}

  ghost predicate TitlesAre(titles: set<string>, d: Draft, n: nat)
    requires n <= |d.chapters|
  {
    forall t :: t in titles <==> exists c :: 0 <= c < n && d.chapters[c].title == t
  }

  /** One more title. */
  method AddTitle(d: Draft, n: nat, titles: set<string>) returns (ok: bool, more: set<string>)
    requires n < |d.chapters| && TitlesOk(d, n) && TitlesAre(titles, d, n)
    ensures ok <==> TitlesOk(d, n + 1)
    ensures TitlesAre(more, d, n + 1)
  {
    var chapter := d.chapters[n];
    ok := chapter.sound && chapter.title !in titles;
    more := titles + {chapter.title};
  }

  /** The loop over the chapters: titles, and what they name and take. */
  method ReadChapters(d: Draft, v: View) returns (r: Option<Claims>)
    ensures r.Some? <==> ChaptersOk(d, v, |d.chapters|)
    ensures r.Some? ==> ClaimsOk(d, v, r.value, |d.chapters|)
  {
    var titles: set<string> := {};
    var explicit, byGroup := map[], map[];
    for n := 0 to |d.chapters|
      invariant ChaptersOk(d, v, n) && ClaimsOk(d, v, Claims(explicit, byGroup), n) && TitlesAre(titles, d, n)
    {
      if ChaptersOk(d, v, |d.chapters|) {
        ConsistentMono(Branches(d), v.branchIndex, n + 1, |d.chapters|);
        ConsistentMono(Groups(d), v.groupIndex, n + 1, |d.chapters|);
      }
      var isNew, more := AddTitle(d, n, titles);
      if !isNew { return None; }
      var named := ClaimList(Branches(d), v.branchIndex, n, explicit);
      if named.None? { return None; }
      var taken := ClaimList(Groups(d), v.groupIndex, n, byGroup);
      if taken.None? { return None; }
      titles, explicit, byGroup := more, named.value, taken.value;
    }
    r := Some(Claims(explicit, byGroup));
  }

  lemma ClaimsMean(d: Draft, v: View, m: Claims)
    requires ClaimsOk(d, v, m, |d.chapters|)
    ensures forall b :: b in m.explicit <==> NamedAtAll(d, v, b)
    ensures forall b, c :: b in m.explicit ==> (Named(d, v, c, b) <==> m.explicit[b] == c)
    ensures forall g :: g in m.byGroup <==> GroupTaken(d, v, g)
    ensures forall g, c :: g in m.byGroup ==> (Lists(Groups(d), v.groupIndex, c, g) <==> m.byGroup[g] == c)
  {
    forall b | b in m.explicit ensures NamedAtAll(d, v, b) { assert Named(d, v, m.explicit[b], b); }
    forall g | g in m.byGroup ensures GroupTaken(d, v, g) { assert Lists(Groups(d), v.groupIndex, m.byGroup[g], g); }
  }

  /** The loop over the exclusions. */
  method ReadExclusions(d: Draft, v: View, m: Claims) returns (r: Option<set<nat>>)
    requires ViewOk(v) && ClaimsOk(d, v, m, |d.chapters|)
    ensures r.Some? <==> forall k :: 0 <= k < |d.exclusions| ==> ExclusionOk(d, v, d.exclusions[k])
    ensures r.Some? ==> forall b :: b in r.value <==> Excluded(d, v, b, |d.exclusions|)
  {
    ClaimsMean(d, v, m);
    var excluded: set<nat> := {};
    for n := 0 to |d.exclusions|
      invariant forall k :: 0 <= k < n ==> ExclusionOk(d, v, d.exclusions[k])
      invariant forall b :: b in excluded <==> Excluded(d, v, b, n)
    {
      var e := d.exclusions[n];
      if !e.sound { return None; }
      var members: seq<nat> := [];
      if e.name in v.branchIndex {
        if v.branchIndex[e.name] in m.explicit { return None; }
        members := [v.branchIndex[e.name]];
      } else if e.name in v.groupIndex {
        if v.groupIndex[e.name] in m.byGroup { return None; }
        members := v.groups[v.groupIndex[e.name]];
      } else {
        return None;
      }
      assert forall b :: b in members <==> Covers(e, v, b);
      excluded := excluded + Elements(members);
    }
    r := Some(excluded);
  }

  function Elements(s: seq<nat>): (r: set<nat>)
    ensures forall x :: x in r <==> x in s
  {
    set x | x in s
  }

  ghost predicate Owners(owner: seq<Option<nat>>, d: Draft, v: View) {
    && |owner| == v.count
    && forall b :: 0 <= b < v.count ==>
         (owner[b].Some? ==> owner[b].value < |d.chapters| && Belongs(d, v, owner[b].value, b))
         && (forall c :: 0 <= c < |d.chapters| && Belongs(d, v, c, b) ==> owner[b] == Some(c))
  }

  /** The loops that fill in the owner of every branch: groups first, then exclusions, then names. */
  method FindOwners(d: Draft, v: View, m: Claims, excluded: set<nat>) returns (owner: seq<Option<nat>>)
    requires ViewOk(v) && ClaimsOk(d, v, m, |d.chapters|)
    requires forall b :: b in excluded <==> Excluded(d, v, b, |d.exclusions|)
    ensures Owners(owner, d, v)
  {
    var byGroup := GroupOwners(v, m.byGroup);
    owner := [];
    for b := 0 to v.count
      invariant |owner| == b
      invariant forall x :: 0 <= x < b ==>
        owner[x] == if x in m.explicit then Some(m.explicit[x]) else if x in excluded then None else byGroup[x]
    {
      var o := byGroup[b];
      if b in excluded && b !in m.explicit { o := None; }
      if b in m.explicit { o := Some(m.explicit[b]); }
      owner := owner + [o];
    }
    OwnersMean(d, v, m, excluded, byGroup, owner);
  }

  ghost predicate GroupOwned(v: View, byGroup: map<nat, nat>, owner: seq<Option<nat>>, n: nat)
    requires n <= |v.groups|
  {
    && |owner| == v.count
    && forall b :: 0 <= b < v.count ==>
         (owner[b].Some? ==> exists g :: 0 <= g < n && b in v.groups[g] && g in byGroup && byGroup[g] == owner[b].value)
         && (forall g :: 0 <= g < n && b in v.groups[g] && g in byGroup ==> owner[b] == Some(byGroup[g]))
  }

  method GroupOwners(v: View, byGroup: map<nat, nat>) returns (owner: seq<Option<nat>>)
    requires ViewOk(v)
    ensures GroupOwned(v, byGroup, owner, |v.groups|)
  {
    owner := seq(v.count, _ => None);
    for n := 0 to |v.groups|
      invariant GroupOwned(v, byGroup, owner, n)
    {
      if n in byGroup {
        ghost var before := owner;
        for k := 0 to |v.groups[n]|
          invariant |owner| == v.count
          invariant forall b :: 0 <= b < v.count ==> owner[b] == if b in v.groups[n][..k] then Some(byGroup[n])
            else before[b]
        {
          assert v.groups[n][k] in v.groups[n];
          owner := owner[v.groups[n][k] := Some(byGroup[n])];
        }
        assert v.groups[n][..|v.groups[n]|] == v.groups[n];
      }
    }
  }

  lemma OwnersMean(d: Draft, v: View, m: Claims, excluded: set<nat>, byGroup: seq<Option<nat>>, owner: seq<Option<nat>>)
    requires ViewOk(v) && ClaimsOk(d, v, m, |d.chapters|) && GroupOwned(v, m.byGroup, byGroup, |v.groups|)
    requires forall b :: b in excluded <==> Excluded(d, v, b, |d.exclusions|)
    requires |owner| == v.count && forall x :: 0 <= x < v.count ==>
      owner[x] == if x in m.explicit then Some(m.explicit[x]) else if x in excluded then None else byGroup[x]
    ensures Owners(owner, d, v)
  {
    ClaimsMean(d, v, m);
    forall b | 0 <= b < v.count && b !in m.explicit
      ensures byGroup[b].Some? ==> byGroup[b].value < |d.chapters| && TakenWithGroup(d, v, byGroup[b].value, b)
      ensures forall c :: 0 <= c < |d.chapters| && TakenWithGroup(d, v, c, b) ==> byGroup[b] == Some(c)
    {
      if byGroup[b].Some? {
        var g :| 0 <= g < |v.groups| && b in v.groups[g] && g in m.byGroup && m.byGroup[g] == byGroup[b].value;
      }
      forall c | 0 <= c < |d.chapters| && TakenWithGroup(d, v, c, b) ensures byGroup[b] == Some(c) {
        var g :| 0 <= g < |v.groups| && b in v.groups[g] && Lists(Groups(d), v.groupIndex, c, g);
        assert GroupTaken(d, v, g);
      }
    }
  }

  predicate Ascending(s: seq<nat>) {
    forall i, j :: 0 <= i < j < |s| ==> s[i] < s[j]
  }

  datatype Division = Division(chapters: seq<seq<nat>>, excluded: seq<nat>)
  /** The message to the model names the first problem; it is not part of this model. */
  datatype Refusal = Refused

  /** The branches whose owner is `o`, in reading order. */
  method Collect(owner: seq<Option<nat>>, o: Option<nat>) returns (branches: seq<nat>)
    ensures Ascending(branches) && forall b :: b in branches <==> 0 <= b < |owner| && owner[b] == o
  {
    branches := [];
    for b := 0 to |owner|
      invariant Ascending(branches) && forall x :: x in branches <==> 0 <= x < b && owner[x] == o
    {
      if owner[b] == o {
        assert forall i :: 0 <= i < |branches| ==> branches[i] in branches;
        branches := branches + [b];
      }
    }
  }

  /** Every branch is in the one chapter it belongs to, or dropped, in reading order. */
  ghost predicate Divided(r: Division, d: Draft, v: View) {
    && Filled(r.chapters, d, v, |d.chapters|) && Ascending(r.excluded)
    && forall b :: b in r.excluded <==> 0 <= b < v.count && Dropped(d, v, b)
  }

  /** The first `n` chapters hold the branches that belong to them, at least one each. */
  ghost predicate Filled(chapters: seq<seq<nat>>, d: Draft, v: View, n: nat) {
    && |chapters| == n && (forall c :: 0 <= c < n ==> chapters[c] != [] && Ascending(chapters[c]))
    && forall c, b :: 0 <= c < n ==> (b in chapters[c] <==> 0 <= b < v.count && Belongs(d, v, c, b))
  }

  lemma AccountedMeans(d: Draft, v: View, excluded: set<nat>, owner: seq<Option<nat>>, b: nat)
    requires Owners(owner, d, v) && b < v.count && forall x :: x in excluded <==> Excluded(d, v, x, |d.exclusions|)
    ensures Accounted(d, v, b) <==> owner[b].Some? || b in excluded
    ensures owner[b].Some? ==> !Dropped(d, v, b)
    ensures owner[b].None? && b in excluded ==> Dropped(d, v, b)
  {
    if owner[b].Some? { assert Belongs(d, v, owner[b].value, b); }
    if NamedAtAll(d, v, b) {
      var c :| 0 <= c < |d.chapters| && Named(d, v, c, b);
      assert Belongs(d, v, c, b);
    }
  }

  /** The check that no branch is left out. */
  method NoneMissing(d: Draft, v: View, excluded: set<nat>, owner: seq<Option<nat>>) returns (ok: bool)
    requires Owners(owner, d, v) && forall x :: x in excluded <==> Excluded(d, v, x, |d.exclusions|)
    ensures ok <==> forall b :: 0 <= b < v.count ==> Accounted(d, v, b)
    ensures ok ==> forall b :: 0 <= b < v.count ==> (owner[b].None? <==> Dropped(d, v, b))
  {
    for b := 0 to v.count
      invariant forall x :: 0 <= x < b ==> Accounted(d, v, x) && (owner[x].None? <==> Dropped(d, v, x))
    {
      AccountedMeans(d, v, excluded, owner, b);
      if owner[b].None? && b !in excluded { return false; }
    }
    ok := true;
  }

  /** The branches of every chapter; fails if one gets none. */
  method FillChapters(d: Draft, v: View, owner: seq<Option<nat>>) returns (r: Option<seq<seq<nat>>>)
    requires Owners(owner, d, v)
    ensures r.Some? <==> forall c :: 0 <= c < |d.chapters| ==> HasBranch(d, v, c)
    ensures r.Some? ==> Filled(r.value, d, v, |d.chapters|)
  {
    var chapters: seq<seq<nat>> := [];
    for c := 0 to |d.chapters|
      invariant Filled(chapters, d, v, c)
    {
      var branches := Collect(owner, Some(c));
      forall b ensures b in branches <==> 0 <= b < v.count && Belongs(d, v, c, b) {}
      if branches == [] {
        assert !HasBranch(d, v, c);
        return None;
      }
      chapters := chapters + [branches];
    }
    forall c | 0 <= c < |d.chapters| ensures HasBranch(d, v, c) { assert chapters[c][0] in chapters[c]; }
    r := Some(chapters);
  }

  /** `decode_chapters`: accepts exactly the acceptable divisions, and gives every chapter its branches
      in reading order. */
  method DecodeChapters(d: Draft, v: View) returns (r: Result<Division, Refusal>)
    requires ViewOk(v)
    ensures r.Ok? <==> Acceptable(d, v)
    ensures r.Ok? ==> Divided(r.value, d, v)
  {
    if !(1 <= |d.chapters| <= MAX_CHAPTERS) || !d.sound { return Err(Refused); }
    var claims := ReadChapters(d, v);
    if claims.None? { return Err(Refused); }
    var excluded := ReadExclusions(d, v, claims.value);
    if excluded.None? { return Err(Refused); }
    var owner := FindOwners(d, v, claims.value, excluded.value);
    var complete := NoneMissing(d, v, excluded.value, owner);
    if !complete { return Err(Refused); }
    var chapters := FillChapters(d, v, owner);
    if chapters.None? { return Err(Refused); }
    var dropped := Collect(owner, None);
    r := Ok(Division(chapters.value, dropped));
  }

  // ----- every branch exactly once -----

  /** In an accepted division every branch is in exactly one chapter or is dropped, never both. */
  lemma EveryBranchOnce(r: Division, d: Draft, v: View, b: nat)
    requires ViewOk(v) && Acceptable(d, v) && Divided(r, d, v) && b < v.count
    ensures b in r.excluded <==> forall c :: 0 <= c < |r.chapters| ==> b !in r.chapters[c]
    ensures forall c, e ::
      0 <= c < |r.chapters| && 0 <= e < |r.chapters| && b in r.chapters[c] && b in r.chapters[e] ==> c == e
  {
    assert Accounted(d, v, b);
    if !Dropped(d, v, b) {
      var c :| 0 <= c < |d.chapters| && Belongs(d, v, c, b);
      assert b in r.chapters[c];
    }
    forall c, e | 0 <= c < |r.chapters| && 0 <= e < |r.chapters| && b in r.chapters[c] && b in r.chapters[e]
      ensures c == e
    {
      assert Belongs(d, v, c, b) && Belongs(d, v, e, b);
      BelongsToOne(d, v, c, e, b);
    }
  }

  lemma BelongsToOne(d: Draft, v: View, c: nat, e: nat, b: nat)
    requires ViewOk(v) && Acceptable(d, v) && c < |d.chapters| && e < |d.chapters| && Belongs(d, v, c, b)
      && Belongs(d, v, e, b)
    ensures c == e
  {
    if !NamedAtAll(d, v, b) {
      var g :| 0 <= g < |v.groups| && b in v.groups[g] && Lists(Groups(d), v.groupIndex, c, g);
      var h :| 0 <= h < |v.groups| && b in v.groups[h] && Lists(Groups(d), v.groupIndex, e, h);
    }
  }

  // ----- requests -----

  datatype Batch = Batch(chapter: nat, part: nat, parts: nat, branches: seq<nat>)

  /** Runs of at most `n` branches, all but the last full. */
  function Runs(branches: seq<nat>, n: nat): (runs: seq<seq<nat>>)
    requires n > 0
    ensures forall k :: 0 <= k < |runs| ==> 0 < |runs[k]| <= n && (k < |runs| - 1 ==> |runs[k]| == n)
    ensures branches != [] ==> runs != []
  {
    if branches == [] then []
    else if |branches| <= n then [branches]
    else [branches[..n]] + Runs(branches[n..], n)
  }

  function Flatten(runs: seq<seq<nat>>): seq<nat> {
    if runs == [] then [] else runs[0] + Flatten(runs[1..])
  }

  lemma {:induction false} RunsJoin(branches: seq<nat>, n: nat)
    requires n > 0
    ensures Flatten(Runs(branches, n)) == branches
  {
    if branches == [] {
    } else if |branches| <= n {
      assert Flatten([branches]) == branches + Flatten([]);
    } else {
      RunsJoin(branches[n..], n);
      assert branches == branches[..n] + branches[n..];
      assert Runs(branches, n)[1..] == Runs(branches[n..], n);
    }
  }

  /** Branches in reading order; `strict` if none may repeat. */
  predicate Before(x: nat, y: nat, strict: bool) {
    x < y || (x == y && !strict)
  }

  predicate Rising(s: seq<nat>, strict: bool) {
    forall i, j :: 0 <= i < j < |s| ==> Before(s[i], s[j], strict)
  }

  /** Every branch of an earlier run comes before every branch of a later one. */
  ghost predicate Spread(runs: seq<seq<nat>>, strict: bool) {
    forall p, q, x, y :: 0 <= p < q < |runs| && x in runs[p] && y in runs[q] ==> Before(x, y, strict)
  }

  lemma {:induction false} RunsSpread(branches: seq<nat>, n: nat, strict: bool)
    requires n > 0 && Rising(branches, strict)
    ensures Spread(Runs(branches, n), strict)
    ensures forall p, x :: 0 <= p < |Runs(branches, n)| && x in Runs(branches, n)[p] ==> x in branches
  {
    if |branches| > n {
      RunsSpread(branches[n..], n, strict);
      OneMoreRun(branches, n, Runs(branches[n..], n), strict);
    }
  }

  lemma OneMoreRun(branches: seq<nat>, n: nat, rest: seq<seq<nat>>, strict: bool)
    requires n < |branches| && Rising(branches, strict) && Spread(rest, strict)
    requires forall p, x :: 0 <= p < |rest| && x in rest[p] ==> x in branches[n..]
    ensures Spread([branches[..n]] + rest, strict)
    ensures forall p, x :: 0 <= p < |rest| + 1 && x in ([branches[..n]] + rest)[p] ==> x in branches
  {
    forall x, y | x in branches[..n] && y in branches[n..] ensures Before(x, y, strict) {
      var i :| 0 <= i < n && branches[i] == x;
      var j :| 0 <= j < |branches| - n && branches[n..][j] == y;
      assert branches[n + j] == y;
    }
    var all := [branches[..n]] + rest;
    assert all[0] == branches[..n] && forall p :: 0 < p < |all| ==> all[p] == rest[p - 1];
    assert branches == branches[..n] + branches[n..];
    forall p, x | 0 <= p < |all| && x in all[p]
      ensures x in branches && (if p == 0 then x in branches[..n] else x in branches[n..])
    {
      if p > 0 { assert x in rest[p - 1]; } else { assert x in branches[..n]; }
    }
    forall p, q, x, y | 0 <= p < q < |all| && x in all[p] && y in all[q] ensures Before(x, y, strict) {
      assert y in rest[q - 1] && y in branches[n..];
      if p > 0 { assert x in rest[p - 1]; } else { assert x in branches[..n]; }
    }
  }

  // ----- the sort by reading order -----

  function Put(s: seq<nat>, x: nat): seq<nat> {
    if s == [] || s[|s| - 1] <= x then s + [x] else Put(s[..|s| - 1], x) + [s[|s| - 1]]
  }

  /** `sort_by_key` with the reading order as key. */
  function Sorted(s: seq<nat>): seq<nat> {
    if s == [] then [] else Put(Sorted(s[..|s| - 1]), s[|s| - 1])
  }

  lemma {:induction false} PutHas(s: seq<nat>, x: nat)
    ensures multiset(Put(s, x)) == multiset(s) + multiset{x} && forall y :: y in Put(s, x) <==> y in s || y == x
  {
    if s != [] {
      assert s == s[..|s| - 1] + [s[|s| - 1]];
      if s[|s| - 1] > x { PutHas(s[..|s| - 1], x); }
    }
  }

  lemma RisingMore(s: seq<nat>, z: nat, strict: bool)
    requires Rising(s, strict) && forall y :: y in s ==> Before(y, z, strict)
    ensures Rising(s + [z], strict)
  {}

  lemma RisingEnds(s: seq<nat>, x: nat, strict: bool)
    requires s != [] && Rising(s, strict) && x in s
    ensures x == s[|s| - 1] || (x in s[..|s| - 1] && Before(x, s[|s| - 1], strict))
  {}

  lemma {:induction false} PutRises(s: seq<nat>, x: nat, strict: bool)
    requires Rising(s, strict) && (strict ==> x !in s)
    ensures Rising(Put(s, x), strict)
  {
    if s != [] {
      var front, last := s[..|s| - 1], s[|s| - 1];
      assert s == front + [last];
      forall y | y in s ensures y == last || (y in front && Before(y, last, strict)) { RisingEnds(s, y, strict); }
      if last > x {
        PutHas(front, x);
        PutRises(front, x, strict);
        forall y | y in Put(front, x) ensures Before(y, last, strict) {
          if y != x { assert y in front && exists i :: 0 <= i < |front| && s[i] == front[i] == y; }
        }
        RisingMore(Put(front, x), last, strict);
      } else {
        RisingMore(s, x, strict);
      }
    }
  }

  predicate NoRepeat(s: seq<nat>) {
    forall i, j :: 0 <= i < j < |s| ==> s[i] != s[j]
  }

  lemma {:induction false} SortedRises(s: seq<nat>, strict: bool)
    requires strict ==> NoRepeat(s)
    ensures Rising(Sorted(s), strict) && multiset(Sorted(s)) == multiset(s)
    ensures forall y :: y in Sorted(s) <==> y in s
  {
    if s != [] {
      var front, last := s[..|s| - 1], s[|s| - 1];
      assert s == front + [last];
      SortedRises(front, strict);
      assert last !in front || !strict;
      PutHas(Sorted(front), last);
      PutRises(Sorted(front), last, strict);
    }
  }

  /** The branches of a chapter in reading order, each as often as before. */
  lemma SortedIs(s: seq<nat>, strict: bool)
    requires strict ==> NoRepeat(s)
    ensures Rising(Sorted(s), strict) && multiset(Sorted(s)) == multiset(s)
    ensures forall y :: y in Sorted(s) <==> y in s
    ensures forall i, j :: 0 <= i < j < |Sorted(s)| ==> Sorted(s)[i] <= Sorted(s)[j]
  {
    SortedRises(s, strict);
    assert forall i, j :: 0 <= i < j < |Sorted(s)| ==> Before(Sorted(s)[i], Sorted(s)[j], strict);
  }

  /** What decoding yields is sorted already. */
  lemma {:induction false} SortedStays(s: seq<nat>)
    requires Ascending(s)
    ensures Sorted(s) == s
  {
    if s != [] {
      var front := s[..|s| - 1];
      SortedStays(front);
      assert s == front + [s[|s| - 1]];
    }
  }

  /** The runs of the batches of one chapter, in order. */
  function RunsOf(batches: seq<Batch>, chapter: nat): seq<seq<nat>> {
    if batches == [] then []
    else
      var last := batches[|batches| - 1];
      RunsOf(batches[..|batches| - 1], chapter) + if last.chapter == chapter then [last.branches] else []
  }

  /** The batches so far: of the first `n` chapters, in order, none empty or too large. */
  ghost predicate Batched(batches: seq<Batch>, n: nat, strict: bool) {
    && (forall k :: 0 <= k < |batches| ==> batches[k].chapter < n && 0 < |batches[k].branches| <= 16)
    && forall k, l :: 0 <= k < l < |batches| ==> After(batches[k], batches[l], strict)
  }

  /** `b` belongs to a later chapter than `a`, or to the same one and to later branches of it. */
  ghost predicate After(a: Batch, b: Batch, strict: bool) {
    a.chapter < b.chapter
    || (a.chapter == b.chapter && forall x, y :: x in a.branches && y in b.branches ==> Before(x, y, strict))
  }

  /** The batches of the current chapter are its first `p` runs. */
  ghost predicate Holding(batches: seq<Batch>, c: nat, runs: seq<seq<nat>>, p: nat)
    requires p <= |runs|
  {
    forall k :: 0 <= k < |batches| && batches[k].chapter == c
      ==> exists q :: 0 <= q < p && batches[k].branches == runs[q]
  }

  lemma OneMoreBatch(batches: seq<Batch>, c: nat, runs: seq<seq<nat>>, p: nat, strict: bool)
    requires p < |runs| && Batched(batches, c + 1, strict) && Holding(batches, c, runs, p) && Spread(runs, strict)
    requires 0 < |runs[p]| <= CHAPTER_BRANCHES
    ensures Batched(batches + [Batch(c, p, |runs|, runs[p])], c + 1, strict)
  {
    var last := Batch(c, p, |runs|, runs[p]);
    forall k | 0 <= k < |batches| ensures After(batches[k], last, strict) {
      if batches[k].chapter == c {
        var q :| 0 <= q < p && batches[k].branches == runs[q];
      }
    }
  }

  lemma HoldingMore(batches: seq<Batch>, c: nat, runs: seq<seq<nat>>, p: nat)
    requires p < |runs| && Holding(batches, c, runs, p)
    ensures Holding(batches + [Batch(c, p, |runs|, runs[p])], c, runs, p + 1)
  {
    var more := batches + [Batch(c, p, |runs|, runs[p])];
    forall k | 0 <= k < |more| && more[k].chapter == c
      ensures exists q :: 0 <= q < p + 1 && more[k].branches == runs[q]
    {
      if k < |batches| { assert exists q :: 0 <= q < p && batches[k].branches == runs[q]; }
    }
  }

  lemma RunsOfMore(batches: seq<Batch>, last: Batch, x: nat)
    ensures RunsOf(batches + [last], x)
         == if last.chapter == x then RunsOf(batches, x) + [last.branches] else RunsOf(batches, x)
  {
    assert (batches + [last])[..|batches|] == batches;
  }

  /** The first `p` runs of chapter `c` are added to the batches of the chapters before it. */
  ghost predicate Adding(batches: seq<Batch>, more: seq<Batch>, c: nat, runs: seq<seq<nat>>, p: nat, strict: bool)
    requires p <= |runs|
  {
    && Batched(more, c + 1, strict) && Holding(more, c, runs, p) && RunsOf(more, c) == runs[..p]
    && forall x :: x != c ==> RunsOf(more, x) == RunsOf(batches, x)
  }

  lemma AddingStarts(batches: seq<Batch>, c: nat, runs: seq<seq<nat>>, strict: bool)
    requires Batched(batches, c, strict)
    ensures Adding(batches, batches, c, runs, 0, strict)
  {
    NoRuns(batches, c);
  }

  lemma AddingMore(batches: seq<Batch>, more: seq<Batch>, c: nat, runs: seq<seq<nat>>, p: nat, strict: bool)
    requires p < |runs| && Adding(batches, more, c, runs, p, strict) && Spread(runs, strict)
    requires 0 < |runs[p]| <= CHAPTER_BRANCHES
    ensures Adding(batches, more + [Batch(c, p, |runs|, runs[p])], c, runs, p + 1, strict)
  {
    var last := Batch(c, p, |runs|, runs[p]);
    OneMoreBatch(more, c, runs, p, strict);
    HoldingMore(more, c, runs, p);
    forall x ensures RunsOf(more + [last], x) == if c == x then RunsOf(more, x) + [runs[p]] else RunsOf(more, x) {
      RunsOfMore(more, last, x);
    }
    assert runs[..p + 1] == runs[..p] + [runs[p]];
  }

  /** Every batch says how many of its chapter came before it, and how many there are: `total` in chapter `c`. */
  ghost predicate Numbered(batches: seq<Batch>, c: nat, total: nat) {
    forall k :: 0 <= k < |batches| ==>
      && batches[k].part == |RunsOf(batches[..k], batches[k].chapter)|
      && batches[k].parts == if batches[k].chapter == c then total else |RunsOf(batches, batches[k].chapter)|
  }

  lemma OneMoreNumber(batches: seq<Batch>, last: Batch, c: nat, total: nat)
    requires Numbered(batches, c, total) && last.chapter == c && last.part == |RunsOf(batches, c)|
      && last.parts == total
    ensures Numbered(batches + [last], c, total)
  {
    var more := batches + [last];
    forall k | 0 <= k < |more|
      ensures more[k].part == |RunsOf(more[..k], more[k].chapter)|
      ensures more[k].parts == if more[k].chapter == c then total else |RunsOf(more, more[k].chapter)|
    {
      RunsOfMore(batches, last, more[k].chapter);
      assert more[..k] == batches[..k];
      assert k == |batches| ==> batches[..k] == batches;
    }
  }

  lemma OtherTotal(batches: seq<Batch>, c: nat, strict: bool, total: nat)
    requires Batched(batches, c, strict) && Numbered(batches, c, 0)
    ensures Numbered(batches, c, total)
  {}

  lemma NextTotal(batches: seq<Batch>, c: nat, strict: bool)
    requires Batched(batches, c + 1, strict) && Numbered(batches, c, |RunsOf(batches, c)|)
    ensures Numbered(batches, c + 1, 0)
  {}

  /** The batches of one more chapter. */
  method AddRuns(batches: seq<Batch>, c: nat, runs: seq<seq<nat>>, ghost strict: bool) returns (more: seq<Batch>)
    requires Batched(batches, c, strict) && Spread(runs, strict)
    requires Numbered(batches, c, |runs|)
    requires forall k :: 0 <= k < |runs| ==> 0 < |runs[k]| <= CHAPTER_BRANCHES
    ensures Batched(more, c + 1, strict) && RunsOf(more, c) == runs && Numbered(more, c, |runs|)
    ensures forall x :: x != c ==> RunsOf(more, x) == RunsOf(batches, x)
  {
    more := batches;
    AddingStarts(batches, c, runs, strict);
    for p := 0 to |runs|
      invariant Adding(batches, more, c, runs, p, strict) && Numbered(more, c, |runs|)
    {
      AddingMore(batches, more, c, runs, p, strict);
      OneMoreNumber(more, Batch(c, p, |runs|, runs[p]), c, |runs|);
      more := more + [Batch(c, p, |runs|, runs[p])];
    }
    assert runs[..|runs|] == runs;
  }

  /** No chapter names a branch twice. */
  predicate NoRepeats(chapters: seq<seq<nat>>) {
    forall c :: 0 <= c < |chapters| ==> NoRepeat(chapters[c])
  }

  /** All batches of a chapter but the last are full. */
  predicate Packed(runs: seq<seq<nat>>) {
    forall k :: 0 <= k < |runs| ==> 0 < |runs[k]| <= 16 && (k < |runs| - 1 ==> |runs[k]| == 16)
  }

  /** `chapter_batches`. */
  method ChapterBatches(chapters: seq<seq<nat>>) returns (batches: seq<Batch>)
    ensures Batched(batches, |chapters|, NoRepeats(chapters))
    ensures forall c :: 0 <= c < |chapters| ==> Packed(RunsOf(batches, c))
    ensures forall k :: 0 <= k < |batches| ==>
      && batches[k].part == |RunsOf(batches[..k], batches[k].chapter)|
      && batches[k].parts == |RunsOf(batches, batches[k].chapter)|
    ensures forall c :: 0 <= c < |chapters| ==> Flatten(RunsOf(batches, c)) == Sorted(chapters[c])
  {
    batches := [];
    ghost var strict := NoRepeats(chapters);
    for c := 0 to |chapters|
      invariant Batched(batches, c, strict)
      invariant forall x :: 0 <= x < c ==> Packed(RunsOf(batches, x))
      invariant forall x :: 0 <= x < c ==> Flatten(RunsOf(batches, x)) == Sorted(chapters[x])
      invariant Numbered(batches, c, 0)
    {
      var branches := Sorted(chapters[c]);
      SortedIs(chapters[c], strict);
      RunsJoin(branches, CHAPTER_BRANCHES);
      RunsSpread(branches, CHAPTER_BRANCHES, strict);
      OtherTotal(batches, c, strict, |Runs(branches, CHAPTER_BRANCHES)|);
      batches := AddRuns(batches, c, Runs(branches, CHAPTER_BRANCHES), strict);
      NextTotal(batches, c, strict);
    }
  }

  lemma {:induction false} NoRuns(batches: seq<Batch>, chapter: nat)
    requires forall k :: 0 <= k < |batches| ==> batches[k].chapter != chapter
    ensures RunsOf(batches, chapter) == []
  {
    if batches != [] { NoRuns(batches[..|batches| - 1], chapter); }
  }

  // ----- joining the plans -----

  ghost predicate Apart(batches: seq<seq<nat>>, dropped: seq<nat>) {
    && (forall c, e, b :: 0 <= c < e < |batches| && b in batches[c] ==> b !in batches[e])
    && forall c, b :: 0 <= c < |batches| && b in batches[c] ==> b !in dropped
  }

  function BranchLists(batches: seq<Batch>): (lists: seq<seq<nat>>)
    ensures |lists| == |batches| && forall k :: 0 <= k < |lists| ==> lists[k] == batches[k].branches
  {
    seq(|batches|, k requires 0 <= k < |batches| => batches[k].branches)
  }

  lemma {:induction false} InFlatten(batches: seq<Batch>, k: nat, b: nat)
    requires k < |batches| && b in batches[k].branches
    ensures b in Flatten(RunsOf(batches, batches[k].chapter))
  {
    var last, c := |batches| - 1, batches[k].chapter;
    var front := RunsOf(batches[..last], c);
    if k < last {
      InFlatten(batches[..last], k, b);
      if batches[last].chapter == c { FlattenMore(front, batches[last].branches); } else { assert front + [] == front; }
    } else {
      FlattenMore(front, batches[last].branches);
    }
  }

  lemma {:induction false} FlattenMore(runs: seq<seq<nat>>, run: seq<nat>)
    ensures Flatten(runs + [run]) == Flatten(runs) + run
  {
    if runs == [] {
      assert Flatten([run]) == run + Flatten([]);
    } else {
      assert (runs + [run])[1..] == runs[1..] + [run];
      FlattenMore(runs[1..], run);
    }
  }

  lemma InItsChapter(r: Division, d: Draft, v: View, batches: seq<Batch>, k: nat, b: nat)
    requires ViewOk(v) && Acceptable(d, v) && Divided(r, d, v) && Batched(batches, |r.chapters|, true)
    requires forall c :: 0 <= c < |r.chapters| ==> Flatten(RunsOf(batches, c)) == r.chapters[c]
    requires k < |batches| && b in batches[k].branches
    ensures batches[k].chapter < |r.chapters| && b in r.chapters[batches[k].chapter] && b < v.count && b !in r.excluded
    ensures forall c :: 0 <= c < |r.chapters| && b in r.chapters[c] ==> c == batches[k].chapter
  {
    InFlatten(batches, k, b);
    assert b in r.chapters[batches[k].chapter];
    EveryBranchOnce(r, d, v, b);
  }

  lemma RunsAreApart(r: Division, d: Draft, v: View, batches: seq<Batch>)
    requires ViewOk(v) && Acceptable(d, v) && Divided(r, d, v) && Batched(batches, |r.chapters|, true)
    requires forall c :: 0 <= c < |r.chapters| ==> Flatten(RunsOf(batches, c)) == r.chapters[c]
    ensures Apart(BranchLists(batches), r.excluded)
  {
    forall k, b | 0 <= k < |batches| && b in batches[k].branches ensures b !in r.excluded {
      InItsChapter(r, d, v, batches, k, b);
    }
    forall k, l, b | 0 <= k < l < |batches| && b in batches[k].branches ensures b !in batches[l].branches {
      InItsChapter(r, d, v, batches, k, b);
      if b in batches[l].branches { InItsChapter(r, d, v, batches, l, b); }
      assert After(batches[k], batches[l], true);
    }
  }

  /** The requests of an accepted division share no branch, and none has a dropped one. */
  lemma BatchesAreApart(r: Division, d: Draft, v: View, batches: seq<Batch>)
    requires ViewOk(v) && Acceptable(d, v) && Divided(r, d, v)
    requires Batched(batches, |r.chapters|, NoRepeats(r.chapters))
    requires forall c :: 0 <= c < |r.chapters| ==> Flatten(RunsOf(batches, c)) == Sorted(r.chapters[c])
    ensures Apart(BranchLists(batches), r.excluded)
  {
    forall c | 0 <= c < |r.chapters| ensures Ascending(r.chapters[c]) && Sorted(r.chapters[c]) == r.chapters[c] {
      SortedStays(r.chapters[c]);
    }
    RunsAreApart(r, d, v, batches);
  }

  /** What a plan names: a branch, or one of its parts. */
  datatype Key = Key(branch: nat, part: Option<nat>)
  datatype Section = Section(dependsOn: seq<nat>, branches: seq<Key>)
  datatype Plan = Plan(sections: seq<Section>, excluded: seq<Key>)

  ghost predicate Explains(p: Plan, k: Key) {
    exists i :: 0 <= i < |p.sections| && k in p.sections[i].branches
  }

  /** Every section depends on earlier ones only. */
  ghost predicate Ordered(p: Plan) {
    forall i, k :: 0 <= i < |p.sections| && k in p.sections[i].dependsOn ==> k < i
  }

  /** `reject_covered_exclusions`: nothing is both explained and excluded. */
  ghost predicate OneWayOnly(p: Plan) {
    forall k :: k in p.excluded ==> !Explains(p, k)
  }

  /** The plan speaks of the given branches only. */
  ghost predicate Within(p: Plan, branches: seq<nat>) {
    && (forall k :: Explains(p, k) ==> k.branch in branches)
    && forall k :: k in p.excluded ==> k.branch in branches
  }

  /** What is checked of the plan of one batch. */
  ghost predicate PartOk(p: Plan, branches: seq<nat>) {
    Ordered(p) && OneWayOnly(p) && Within(p, branches)
  }

  function Shift(dependsOn: seq<nat>, offset: nat): (r: seq<nat>)
    ensures |r| == |dependsOn| && forall i :: 0 <= i < |r| ==> r[i] == dependsOn[i] + offset
  {
    seq(|dependsOn|, i requires 0 <= i < |dependsOn| => dependsOn[i] + offset)
  }

  /** Section `i` of the joined plan is section `j` of a part whose sections start at `offset`: it explains
      the same branches and depends on the same sections. */
  predicate Moved(whole: seq<Section>, offset: nat, part: Plan, j: nat)
    requires j < |part.sections|
  {
    && offset + j < |whole|
    && whole[offset + j] == Section(Shift(part.sections[j].dependsOn, offset), part.sections[j].branches)
  }

  /** The joined plan speaks of the dropped branches and of those of the first `n` batches only. */
  ghost predicate Joined(whole: Plan, batches: seq<seq<nat>>, dropped: seq<nat>, n: nat)
    requires n <= |batches|
  {
    && Ordered(whole) && OneWayOnly(whole)
    && (forall k :: Explains(whole, k) ==> exists c :: 0 <= c < n && k.branch in batches[c])
    && forall k :: k in whole.excluded ==> k.branch in dropped || exists c :: 0 <= c < n && k.branch in batches[c]
  }

  /** The loop over the sections of one part. */
  method AppendSections(whole: Plan, part: Plan) returns (more: Plan)
    ensures |more.sections| == |whole.sections| + |part.sections| && more.sections[..|whole.sections|] == whole.sections
    ensures more.excluded == whole.excluded
    ensures forall j :: 0 <= j < |part.sections| ==> Moved(more.sections, |whole.sections|, part, j)
  {
    var offset := |whole.sections|;
    var sections := whole.sections;
    for j := 0 to |part.sections|
      invariant |sections| == offset + j && sections[..offset] == whole.sections
      invariant forall i :: 0 <= i < j ==> Moved(sections, offset, part, i)
    {
      ghost var was := sections;
      sections := sections + [Section(Shift(part.sections[j].dependsOn, offset), part.sections[j].branches)];
      forall i | 0 <= i < j + 1 ensures Moved(sections, offset, part, i) {
        if i < j { assert Moved(was, offset, part, i); }
      }
      assert sections[..offset] == was[..offset];
    }
    more := Plan(sections, whole.excluded);
  }

  lemma ExplainsJoined(whole: Plan, part: Plan, more: Plan, k: Key)
    requires |more.sections| == |whole.sections| + |part.sections|
      && more.sections[..|whole.sections|] == whole.sections
    requires forall j :: 0 <= j < |part.sections| ==> Moved(more.sections, |whole.sections|, part, j)
    ensures Explains(more, k) <==> Explains(whole, k) || Explains(part, k)
  {
    var n := |whole.sections|;
    assert forall i :: 0 <= i < n ==> more.sections[i] == more.sections[..n][i];
    if Explains(part, k) {
      var j :| 0 <= j < |part.sections| && k in part.sections[j].branches;
      assert Moved(more.sections, n, part, j) && k in more.sections[n + j].branches;
    }
    if Explains(more, k) {
      var i :| 0 <= i < |more.sections| && k in more.sections[i].branches;
      if i >= n { assert Moved(more.sections, n, part, i - n); }
    }
  }

  lemma OrderedJoined(whole: Plan, part: Plan, more: Plan)
    requires Ordered(whole) && Ordered(part)
    requires |more.sections| == |whole.sections| + |part.sections|
      && more.sections[..|whole.sections|] == whole.sections
    requires forall j :: 0 <= j < |part.sections| ==> Moved(more.sections, |whole.sections|, part, j)
    ensures Ordered(more)
  {
    var n := |whole.sections|;
    forall i, k | 0 <= i < |more.sections| && k in more.sections[i].dependsOn ensures k < i {
      if i < n {
        assert more.sections[i] == more.sections[..n][i];
      } else {
        assert Moved(more.sections, n, part, i - n);
        var shifted := Shift(part.sections[i - n].dependsOn, n);
        var m :| 0 <= m < |shifted| && shifted[m] == k;
        assert part.sections[i - n].dependsOn[m] in part.sections[i - n].dependsOn;
      }
    }
  }

  lemma OneWayJoined(whole: Plan, part: Plan, more: Plan, batches: seq<seq<nat>>, dropped: seq<nat>, n: nat)
    requires n < |batches| && Apart(batches, dropped) && Joined(whole, batches, dropped, n) && PartOk(part, batches[n])
    requires |more.sections| == |whole.sections| + |part.sections|
      && more.sections[..|whole.sections|] == whole.sections
    requires forall j :: 0 <= j < |part.sections| ==> Moved(more.sections, |whole.sections|, part, j)
    requires more.excluded == whole.excluded + part.excluded
    ensures Joined(more, batches, dropped, n + 1)
  {
    OrderedJoined(whole, part, more);
    forall k ensures Explains(more, k) <==> Explains(whole, k) || Explains(part, k) {
      ExplainsJoined(whole, part, more, k);
    }
    forall k | Explains(part, k) ensures k !in whole.excluded {
      assert k.branch in batches[n];
    }
    forall k | k in part.excluded ensures !Explains(whole, k) {
      assert k.branch in batches[n];
    }
  }

  /** Where the sections of the `n`-th part start. */
  function Offset(parts: seq<Plan>, n: nat): nat
    requires n <= |parts|
  {
    if n == 0 then 0 else Offset(parts, n - 1) + |parts[n - 1].sections|
  }

  /** The sections of the first `n` parts stand one after the other, each depending on the same sections
      as in its part. */
  ghost predicate InPlace(sections: seq<Section>, parts: seq<Plan>, n: nat)
    requires n <= |parts|
  {
    && |sections| == Offset(parts, n)
    && forall m, j :: 0 <= m < n && 0 <= j < |parts[m].sections| ==> Moved(sections, Offset(parts, m), parts[m], j)
  }

  lemma {:induction false} OffsetsGrow(parts: seq<Plan>, m: nat, n: nat)
    requires m < n <= |parts|
    ensures Offset(parts, m) + |parts[m].sections| <= Offset(parts, n)
  {
    if m < n - 1 { OffsetsGrow(parts, m, n - 1); }
  }

  lemma InPlaceGrows(sections: seq<Section>, more: seq<Section>, parts: seq<Plan>, n: nat)
    requires n < |parts| && InPlace(sections, parts, n)
    requires |more| == |sections| + |parts[n].sections| && more[..|sections|] == sections
    requires forall j :: 0 <= j < |parts[n].sections| ==> Moved(more, |sections|, parts[n], j)
    ensures InPlace(more, parts, n + 1)
  {
    forall m, j | 0 <= m < n && 0 <= j < |parts[m].sections| ensures Moved(more, Offset(parts, m), parts[m], j) {
      OffsetsGrow(parts, m, n);
      assert Moved(sections, Offset(parts, m), parts[m], j);
      assert more[..|sections|][Offset(parts, m) + j] == more[Offset(parts, m) + j];
    }
  }

  /** The joining loop of `plan_in_chapters`: the parts' plans one after the other. */
  method JoinPlans(parts: seq<Plan>, batches: seq<seq<nat>>, dropped: seq<nat>) returns (whole: Plan)
    requires |parts| == |batches| && Apart(batches, dropped)
    requires forall n :: 0 <= n < |parts| ==> PartOk(parts[n], batches[n])
    ensures InPlace(whole.sections, parts, |parts|)
    ensures Ordered(whole) && OneWayOnly(whole)
    ensures forall k :: Explains(whole, k) <==> exists n :: 0 <= n < |parts| && Explains(parts[n], k)
    ensures forall k :: k in whole.excluded <==>
      k in Drops(dropped) || exists n :: 0 <= n < |parts| && k in parts[n].excluded
  {
    whole := Plan([], Drops(dropped));
    for n := 0 to |parts|
      invariant Joined(whole, batches, dropped, n) && InPlace(whole.sections, parts, n)
      invariant forall k :: Explains(whole, k) <==> exists m :: 0 <= m < n && Explains(parts[m], k)
      invariant forall k :: k in whole.excluded <==>
        k in Drops(dropped) || exists m :: 0 <= m < n && k in parts[m].excluded
    {
      var more := AppendSections(whole, parts[n]);
      var next := Plan(more.sections, more.excluded + parts[n].excluded);
      assert forall k :: k in next.excluded <==> k in whole.excluded || k in parts[n].excluded;
      OneWayJoined(whole, parts[n], next, batches, dropped, n);
      InPlaceGrows(whole.sections, more.sections, parts, n);
      forall k ensures Explains(next, k) <==> Explains(whole, k) || Explains(parts[n], k) {
        ExplainsJoined(whole, parts[n], next, k);
      }
      whole := next;
    }
  }

  function Drops(dropped: seq<nat>): (keys: seq<Key>)
    ensures forall k :: k in keys ==> k.branch in dropped && k.part == None
    ensures |keys| == |dropped|
  {
    if dropped == [] then []
    else
      assert dropped == [dropped[0]] + dropped[1..];
      [Key(dropped[0], None)] + Drops(dropped[1..])
  }
}
