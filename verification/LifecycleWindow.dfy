/** What a publication replaces: the comparison in the commit gate and the replacement are two steps, and
    other programs, or another attempt, may write the file between them. */
module LifecycleWindow {
  import opened Options
  import opened Lifecycle
  import opened LifecycleInvariant
  import opened LifecycleTheorems

  /** At the target itself, an undisturbed attempt replaces exactly what its snapshot recorded; when
      the target had changed before, it writes a conflict copy instead. */
  lemma ReplacesTheOriginal(s: State, k: nat)
    requires Reachable(s) && Next(s, Replace(k)).Some? && !s.attempts[k].disturbed
    ensures var a := s.attempts[k];
      && (a.phase.p.path == a.target ==> Lookup(s.files, a.target) == a.original)
      && (a.phase.seen != a.original ==> a.phase.p.path == ConflictPath(a.target, a.run) != a.target)
  {
    ReachableWindow(s, k);
  }

  lemma ReachableWindow(s: State, k: nat)
    requires Reachable(s) && k < |s.attempts|
    ensures AttemptOk(s.attempts[k], k) && WindowOk(s.attempts[k], s.files)
  {
    ReachableInv(s);
  }

  // ----- writes in the window -----

  /** A write to `path` by someone other than attempt `k`. */
  predicate Writes(s: State, a: Action, k: nat, path: string) {
    || (a.Edit? && a.path == path)
    || (a.Replace? && a.k != k && a.k < |s.attempts| && s.attempts[a.k].phase.Cleared?
        && s.attempts[a.k].phase.p.path == path)
  }

  /** A write disturbs exactly the attempts that are between comparison and replacement of the same path. */
  lemma WriteDisturbsExactly(s: State, a: Action, k: nat, path: string, t: State)
    requires Writes(s, a, k, path) && k < |s.attempts| && Next(s, a) == Some(t)
    ensures |t.attempts| == |s.attempts|
    ensures var at := s.attempts[k];
      t.attempts[k].disturbed
      <==> at.disturbed || ((at.phase.Compared? || at.phase.Cleared?) && at.phase.p.path == path)
  {}

  /** What such a write leaves at the path. */
  function Written(s: State, a: Action, k: nat, path: string): Option<string>
    requires Writes(s, a, k, path)
  {
    if a.Edit? then a.content else Some(s.attempts[a.k].phase.p.content)
  }

  /** `b` is the same window, of the same attempt, as `a`. */
  predicate SameWindow(a: Attempt, b: Attempt)
    requires Windowed(b)
  {
    Windowed(a) && a.phase.p == b.phase.p && a.target == b.target && a.original == b.original
  }

  /** An attempt that is in its window after a step was in it before, unless it has just compared. */
  ghost predicate Enters(s: State, a: Action, t: State) {
    forall k :: 0 <= k < |t.attempts| && Windowed(t.attempts[k]) ==> EntersAt(s, a, k, t.attempts[k])
  }

  predicate EntersAt(s: State, a: Action, k: nat, b: Attempt)
    requires Windowed(b)
  {
    (a == Compare(k) && !b.disturbed) || (k < |s.attempts| && SameWindow(s.attempts[k], b))
  }

  lemma CompareEnters(s: State, k: nat)
    requires DoGate(s, Compare(k)).Some?
    ensures Enters(s, Compare(k), DoGate(s, Compare(k)).value)
  {}

  lemma ClearEnters(s: State, k: nat)
    requires DoGate(s, Clear(k)).Some?
    ensures Enters(s, Clear(k), DoGate(s, Clear(k)).value)
  {}

  lemma ReplaceEnters(s: State, k: nat)
    requires DoGate(s, Replace(k)).Some?
    ensures Enters(s, Replace(k), DoGate(s, Replace(k)).value)
  {}

  lemma WorldEnters(s: State, a: Action)
    requires DoWorld(s, a).Some?
    ensures Enters(s, a, DoWorld(s, a).value)
  {}

  lemma EnqueueEnters(s: State, a: Action)
    requires a.Enqueue? && Next(s, a).Some?
    ensures Enters(s, a, Next(s, a).value)
  {}

  lemma WorkerEnters(s: State, a: Action, t: State, k: nat)
    requires WorkerStep(s, t, k) && !Windowed(t.attempts[k])
    ensures Enters(s, a, t) && Quietly(s, a, t)
  {}

  lemma AskEnters(s: State, a: Action, t: State, c: nat, k: nat)
    requires AskStep(s, t, c, k)
    ensures Enters(s, a, t)
  {}

  lemma SweepEnters(s: State, a: Action, t: State)
    requires Sweeps(s, t)
    ensures Enters(s, a, t)
  {}

  lemma DepartEnters(s: State, a: Action)
    requires (a.RowFailed? || a.Deregister? || a.Request?) && Next(s, a).Some?
    ensures Enters(s, a, Next(s, a).value)
  {}

  /** A step that is neither an edit nor a replacement leaves the files alone. */
  ghost predicate Quietly(s: State, a: Action, t: State) {
    t.files == s.files || a.Edit? || a.Replace?
  }

  ghost predicate Passes(s: State, a: Action, t: State) {
    Enters(s, a, t) && Quietly(s, a, t)
  }

  lemma GateEnters(s: State, a: Action)
    requires (a.Compare? || a.Clear?) && Next(s, a).Some?
    ensures Passes(s, a, Next(s, a).value)
  {
    if a.Compare? { CompareEnters(s, a.k); } else { ClearEnters(s, a.k); }
  }

  lemma OwnEnters(s: State, a: Action)
    requires Inv(s) && Own(a) && !a.Compare? && !a.Clear? && Next(s, a).Some?
    ensures Passes(s, a, Next(s, a).value)
  {
    OwnLive(s, a);
    Here(s, a.k);
    OwnMoves(s, a);
    WorkerEnters(s, a, Next(s, a).value, a.k);
  }

  lemma AskingEnters(s: State, a: Action)
    requires Inv(s) && Asking(a) && Next(s, a).Some?
    ensures Passes(s, a, Next(s, a).value)
  {
    AskPresent(s, a);
    AskHere(s, a.c);
    AskMoves(s, a);
    AskEnters(s, a, Next(s, a).value, a.c, s.requests[a.c].k);
  }

  lemma SweepingEnters(s: State, a: Action)
    requires Inv(s) && SweepAction(a) && Next(s, a).Some?
    ensures Passes(s, a, Next(s, a).value)
  {
    SweepMoves(s, a);
    SweepEnters(s, a, Next(s, a).value);
  }

  lemma OtherEnters(s: State, a: Action)
    requires !Own(a) && !Asking(a) && !SweepAction(a) && Next(s, a).Some?
    ensures Passes(s, a, Next(s, a).value)
  {
    if a.Replace? {
      ReplaceEnters(s, a.k);
    } else if a.Enqueue? {
      EnqueueEnters(s, a);
    } else if a.RowFailed? || a.Deregister? || a.Request? {
      DepartEnters(s, a);
    } else {
      WorldEnters(s, a);
    }
  }

  lemma StepEnters(s: State, a: Action)
    requires Inv(s) && Next(s, a).Some?
    ensures Passes(s, a, Next(s, a).value)
  {
    if a.Compare? || a.Clear? {
      GateEnters(s, a);
    } else if Own(a) {
      OwnEnters(s, a);
    } else if Asking(a) {
      AskingEnters(s, a);
    } else if SweepAction(a) {
      SweepingEnters(s, a);
    } else {
      OtherEnters(s, a);
    }
  }

  lemma RunEnters(states: seq<State>, actions: seq<Action>, i: nat)
    requires IsRun(states, actions) && i < |actions|
    ensures Enters(states[i], actions[i], states[i + 1]) && Quietly(states[i], actions[i], states[i + 1])
    ensures Next(states[i], actions[i]) == Some(states[i + 1])
  {
    RunKeeps(states, actions, i);
    RunNext(states, actions, i);
    StepEnters(states[i], actions[i]);
  }

  /** What stands at the path after a step that is not attempt `k`'s own. */
  function HeldAfter(s: State, a: Action, k: nat, path: string): Option<string> {
    if Writes(s, a, k, path) then Written(s, a, k, path) else Lookup(s.files, path)
  }

  /** Attempt `k` stays in its window on `path`, and the file changes only by what others write to it. */
  predicate Carries(s: State, a: Action, t: State, k: nat, path: string) {
    && k < |t.attempts| && Windowed(t.attempts[k]) && t.attempts[k].phase.p.path == path
    && k < |s.attempts| && SameWindow(s.attempts[k], t.attempts[k])
    && Lookup(t.files, path) == HeldAfter(s, a, k, path)
  }

  /** Attempt `k` is in its window on `path`. */
  predicate Aims(s: State, k: nat, path: string) {
    k < |s.attempts| && Windowed(s.attempts[k]) && s.attempts[k].phase.p.path == path
  }

  lemma EditCarries(s: State, a: Action, k: nat, path: string)
    requires a.Edit?
    ensures Lookup(DoWorld(s, a).value.files, path) == HeldAfter(s, a, k, path)
  {}

  lemma ReplaceCarries(s: State, a: Action, k: nat, path: string)
    requires a.Replace? && DoGate(s, a).Some? && a.k != k
    ensures Lookup(DoGate(s, a).value.files, path) == HeldAfter(s, a, k, path)
  {}

  lemma StepCarries(s: State, a: Action, t: State, k: nat, path: string)
    requires Next(s, a) == Some(t) && Passes(s, a, t) && Aims(t, k, path) && a != Compare(k)
    ensures Carries(s, a, t, k, path)
  {
    assert EntersAt(s, a, k, t.attempts[k]);
    if a.Edit? {
      EditCarries(s, a, k, path);
    } else if a.Replace? {
      OwnReplaceEnds(s, a, t, k);
      ReplaceCarries(s, a, k, path);
    }
  }

  lemma OwnReplaceEnds(s: State, a: Action, t: State, k: nat)
    requires a.Replace? && Next(s, a) == Some(t) && k < |t.attempts| && Windowed(t.attempts[k])
    ensures a.k != k
  {}

  lemma NoCompareWithin(s: State, a: Action, k: nat)
    requires k < |s.attempts| && Windowed(s.attempts[k]) && Next(s, a).Some?
    ensures a != Compare(k)
  {}

  /** From the `m`-th state to the `n`-th, attempt `k` is between one comparison and its replacement. */
  ghost predicate Within(states: seq<State>, m: nat, n: nat, k: nat) {
    m <= n < |states| && forall j :: m <= j <= n ==> k < |states[j].attempts| && Windowed(states[j].attempts[k])
  }

  /** The `m`-th step wrote the path after the comparison of the window that the `n`-th state is in. */
  ghost predicate WroteAt(states: seq<State>, actions: seq<Action>, m: nat, n: nat, k: nat, path: string) {
    m < n && m < |actions| && Within(states, m, n, k) && Writes(states[m], actions[m], k, path)
  }

  /** ... and it was the last to do so. */
  ghost predicate WroteLast(states: seq<State>, actions: seq<Action>, m: nat, n: nat, k: nat, path: string) {
    WroteAt(states, actions, m, n, k, path) && forall j :: m < j < n ==> !WroteAt(states, actions, j, n, k, path)
  }

  lemma OneBack(states: seq<State>, actions: seq<Action>, n: nat, k: nat, path: string)
    requires IsRun(states, actions) && 0 < n <= |actions| && Aims(states[n], k, path) && actions[n - 1] != Compare(k)
    ensures Carries(states[n - 1], actions[n - 1], states[n], k, path)
  {
    RunEnters(states, actions, n - 1);
    StepCarries(states[n - 1], actions[n - 1], states[n], k, path);
  }

  lemma BackWithin(states: seq<State>, actions: seq<Action>, m: nat, n: nat, k: nat, path: string)
    requires IsRun(states, actions) && m < n <= |actions| && Aims(states[n], k, path) && Within(states, m, n, k)
    ensures Carries(states[n - 1], actions[n - 1], states[n], k, path) && Aims(states[n - 1], k, path)
  {
    RunNext(states, actions, n - 1);
    NoCompareWithin(states[n - 1], actions[n - 1], k);
    OneBack(states, actions, n, k, path);
  }

  lemma WroteLastBack(states: seq<State>, actions: seq<Action>, m: nat, n: nat, k: nat, path: string)
    requires WroteLast(states, actions, m, n, k, path) && m < n - 1
    ensures WroteLast(states, actions, m, n - 1, k, path)
  {
    var e := n - 1;
    forall j | m < j < e ensures !WroteAt(states, actions, j, e, k, path) {
      assert !WroteAt(states, actions, j, n, k, path);
    }
  }

  lemma NotLater(states: seq<State>, actions: seq<Action>, m: nat, n: nat, k: nat, path: string)
    requires WroteLast(states, actions, m, n, k, path) && m < n - 1 < |actions|
    ensures !Writes(states[n - 1], actions[n - 1], k, path)
  {
    assert !WroteAt(states, actions, n - 1, n, k, path);
  }

  /** The file holds what was written to it last. */
  lemma {:induction false} HoldsLastWrite(
      states: seq<State>, actions: seq<Action>, m: nat, n: nat, k: nat, path: string)
    requires IsRun(states, actions) && n <= |actions| && Aims(states[n], k, path)
    requires WroteLast(states, actions, m, n, k, path)
    ensures Lookup(states[n].files, path) == HeldAfter(states[m], actions[m], k, path)
  {
    BackWithin(states, actions, m, n, k, path);
    if m < n - 1 {
      NotLater(states, actions, m, n, k, path);
      WroteLastBack(states, actions, m, n, k, path);
      HoldsLastWrite(states, actions, m, n - 1, k, path);
    }
  }

  /** Nobody wrote the path in the window that the `n`-th state is in. */
  ghost predicate Unwritten(states: seq<State>, actions: seq<Action>, n: nat, k: nat, path: string) {
    forall m :: 0 <= m < n ==> !WroteAt(states, actions, m, n, k, path)
  }

  lemma NoneEarlier(states: seq<State>, actions: seq<Action>, n: nat, k: nat, target: string)
    requires 0 < n <= |actions| < |states| && Within(states, n - 1, n, k)
    requires Unwritten(states, actions, n, k, target)
    ensures !Writes(states[n - 1], actions[n - 1], k, target) && Unwritten(states, actions, n - 1, k, target)
  {
    assert !WroteAt(states, actions, n - 1, n, k, target);
    var e := n - 1;
    forall m | 0 <= m < e ensures !WroteAt(states, actions, m, e, k, target) {
      assert !WroteAt(states, actions, m, n, k, target);
    }
  }

  /** A window in which nobody wrote the target still shows what the snapshot recorded. */
  lemma {:induction false} UntouchedHoldsOriginal(
      states: seq<State>, actions: seq<Action>, n: nat, k: nat, target: string)
    requires IsRun(states, actions) && n <= |actions| && Aims(states[n], k, target)
    requires states[n].attempts[k].target == target
    requires Unwritten(states, actions, n, k, target)
    ensures Lookup(states[n].files, target) == states[n].attempts[k].original
  {
    if n > 0 && actions[n - 1] != Compare(k) {
      OneBack(states, actions, n, k, target);
      NoneEarlier(states, actions, n, k, target);
      UntouchedHoldsOriginal(states, actions, n - 1, k, target);
    } else {
      FreshWindow(states, actions, n, k);
    }
  }

  lemma FreshWindow(states: seq<State>, actions: seq<Action>, n: nat, k: nat)
    requires IsRun(states, actions) && n <= |actions| && k < |states[n].attempts| && Windowed(states[n].attempts[k])
    requires states[n].attempts[k].phase.p.path == states[n].attempts[k].target
    requires n > 0 ==> actions[n - 1] == Compare(k)
    ensures Lookup(states[n].files, states[n].attempts[k].target) == states[n].attempts[k].original
  {
    if n > 0 {
      RunNext(states, actions, n - 1);
      ComparedFresh(states[n - 1], k);
      RunWindow(states, actions, n, k);
    }
  }

  lemma ComparedFresh(s: State, k: nat)
    requires Next(s, Compare(k)).Some?
    ensures k < |Next(s, Compare(k)).value.attempts| && !Next(s, Compare(k)).value.attempts[k].disturbed
  {}

  lemma RunWindow(states: seq<State>, actions: seq<Action>, n: nat, k: nat)
    requires IsRun(states, actions) && n <= |actions| && k < |states[n].attempts|
    ensures WindowOk(states[n].attempts[k], states[n].files)
  {
    RunKeeps(states, actions, n);
  }

  lemma {:induction false} SomeLast(states: seq<State>, actions: seq<Action>, m: nat, n: nat, k: nat, path: string)
      returns (l: nat)
    requires WroteAt(states, actions, m, n, k, path)
    ensures WroteLast(states, actions, l, n, k, path)
    decreases n - m
  {
    if j :| m < j < n && WroteAt(states, actions, j, n, k, path) {
      l := SomeLast(states, actions, j, n, k, path);
    } else {
      l := m;
    }
  }

  lemma ClearedNow(s: State, k: nat)
    requires Next(s, Replace(k)).Some?
    ensures k < |s.attempts| && Windowed(s.attempts[k])
  {}

  /** In any run, what an attempt replaces at its target is what others wrote there last after its comparison,
      and what the snapshot recorded if nobody did. So it is the recorded content if and only if the last such
      write, if there is one, wrote exactly that. */
  lemma ReplacesOriginalExactly(states: seq<State>, actions: seq<Action>, n: nat, k: nat)
    requires IsRun(states, actions) && n < |actions| && actions[n] == Replace(k)
    ensures k < |states[n].attempts| && Windowed(states[n].attempts[k])
    ensures var a := states[n].attempts[k];
      a.phase.p.path == a.target ==>
        (Lookup(states[n].files, a.target) == a.original
         <==> forall m :: 0 <= m < n && WroteLast(states, actions, m, n, k, a.target) ==>
                Written(states[m], actions[m], k, a.target) == a.original)
  {
    RunNext(states, actions, n);
    ClearedNow(states[n], k);
    var a := states[n].attempts[k];
    if a.phase.p.path == a.target {
      var target := a.target;
      if m :| 0 <= m < n && WroteAt(states, actions, m, n, k, target) {
        var l := SomeLast(states, actions, m, n, k, target);
        HoldsLastWrite(states, actions, l, n, k, target);
        forall j | 0 <= j < n && WroteLast(states, actions, j, n, k, target) ensures j == l {
          assert WroteAt(states, actions, j, n, k, target) && WroteAt(states, actions, l, n, k, target);
        }
      } else {
        UntouchedHoldsOriginal(states, actions, n, k, target);
      }
    }
  }

  // ----- an edit that is lost -----

  lemma StepStays(states: seq<State>, actions: seq<Action>, a: Action, t: State, i: nat)
    requires i < |actions| < |states| && StepIn(states, actions, i)
    ensures StepIn(states + [t], actions + [a], i)
  {}

  lemma RunMore(states: seq<State>, actions: seq<Action>, a: Action, t: State)
    requires IsRun(states, actions) && Next(states[|actions|], a) == Some(t)
    ensures IsRun(states + [t], actions + [a])
  {
    forall i | 0 <= i < |actions| ensures StepIn(states + [t], actions + [a], i) {
      StepStays(states, actions, a, t, i);
    }
    assert StepIn(states + [t], actions + [a], |actions|);
  }

  lemma ReachableNext(s: State, a: Action, t: State)
    requires Reachable(s) && Next(s, a) == Some(t)
    ensures Reachable(t)
  {
    var states: seq<State>, actions: seq<Action> :| IsRun(states, actions) && states[|actions|] == s;
    RunMore(states, actions, a, t);
    assert (states + [t])[|actions + [a]|] == t;
  }

  /** `ReachableNext`, with the next state given field by field. */
  lemma ReachableSame(s: State, a: Action, t: State)
    requires Reachable(s) && Next(s, a).Some?
    requires var n := Next(s, a).value;
      && n.attempts == t.attempts && n.controls == t.controls && n.publications == t.publications && n.files == t.files
      && n.rows == t.rows && n.latest == t.latest && n.terminal == t.terminal && n.requests == t.requests
      && n.registry == t.registry && n.artifacts == t.artifacts && n.sweep == t.sweep && n.shutdown == t.shutdown
      && n.acked == t.acked && n.sighted == t.sighted
    ensures Reachable(t)
  {
    ReachableNext(s, a, t);
  }

  /** The first attempt of run "r", on a target "t" that does not exist. */
  function First(phase: Phase, gate: Holder, publications: map<string, Publication>, rows: map<string, Status>): State {
    Initial(map[]).(
      attempts := [Attempt("r", "t", None, false, false, gate, phase, None, None, false)],
      controls := map["r" := 0], latest := map["r" := 0], publications := publications, rows := rows)
  }

  lemma FirstExecutes()
    ensures Reachable(First(Executing, Free, map[], map["r" := Running]))
  {
    var s0 := Initial(map[]);
    var none: seq<Action> := [];
    assert IsRun([s0], none) && [s0][|none|] == s0;
    ReachableSame(s0, Enqueue("r", "t", None), First(Registering, Free, map[], map[]));
    ReachableSame(First(Registering, Free, map[], map[]), RowQueued(0),
      First(Queued, Free, map[], map["r" := Waiting]));
    ReachableSame(First(Queued, Free, map[], map["r" := Waiting]), Start(0),
      First(Executing, Free, map[], map["r" := Running]));
  }

  lemma FirstJournals(draft: string)
    ensures var p := Publication("r", 0, "t", draft);
      Reachable(First(Journalled(p, None), Free, map["r" := p], map["r" := Running]))
  {
    var p, rows := Publication("r", 0, "t", draft), map["r" := Running];
    FirstExecutes();
    ReachableSame(First(Executing, Free, map[], rows), ReadTarget(0, draft), First(Saving(p, None), Free, map[], rows));
    ReachableSame(First(Saving(p, None), Free, map[], rows), WriteJournal(0),
      First(Journalled(p, None), Free, map["r" := p], rows));
  }

  lemma FirstCompared(draft: string)
    ensures var p := Publication("r", 0, "t", draft);
      Reachable(First(Compared(p, None), Worker, map["r" := p], map["r" := Running]))
  {
    var p := Publication("r", 0, "t", draft);
    var held, rows := map["r" := p], map["r" := Running];
    FirstJournals(draft);
    ReachableSame(First(Journalled(p, None), Free, held, rows), TakeGate(0),
      First(InGate(p, None), Worker, held, rows));
    ReachableSame(First(InGate(p, None), Worker, held, rows), Compare(0), First(Compared(p, None), Worker, held, rows));
  }

  lemma FirstCleared(draft: string)
    ensures var p := Publication("r", 0, "t", draft);
      Reachable(First(Cleared(p, None), Worker, map["r" := p], map["r" := Running]))
  {
    var p := Publication("r", 0, "t", draft);
    var held, rows := map["r" := p], map["r" := Running];
    FirstCompared(draft);
    ReachableSame(First(Compared(p, None), Worker, held, rows), Clear(0), First(Cleared(p, None), Worker, held, rows));
  }

  /** The limit of that guarantee: the comparison and the replacement are two steps, and an edit by
      another program between them is overwritten unseen. */
  lemma EditInTheWindowIsLost(draft: string, edit: string) returns (s: State)
    requires draft != edit
    ensures Reachable(s) && |s.attempts| == 1
    ensures var a := s.attempts[0];
      a.output.Some? && a.output.value.path == a.target && a.replaced == Some(edit) && a.original == None
  {
    FirstCleared(draft);
    var p := Publication("r", 0, "t", draft);
    var before := First(Cleared(p, None), Worker, map["r" := p], map["r" := Running]);
    var edited := Next(before, Edit("t", Some(edit))).value;
    ReachableNext(before, Edit("t", Some(edit)), edited);
    s := Next(edited, Replace(0)).value;
    ReachableNext(edited, Replace(0), s);
  }
}
