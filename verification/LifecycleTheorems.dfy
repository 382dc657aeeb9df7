/** What the lifecycle guarantees over whole runs: every interleaving of requests, workers,
    registrations, sweeps, edits by other programs, shutdowns and crashes. */
module LifecycleTheorems {
  import opened Options
  import opened Lifecycle
  import opened LifecycleInvariant

  ghost predicate StepIn(states: seq<State>, actions: seq<Action>, i: nat)
    requires i < |actions| < |states|
  {
    Next(states[i], actions[i]) == Some(states[i + 1])
  }

  /** A run of the system: it starts with nothing registered, and every step is one of `Next`. */
  ghost predicate IsRun(states: seq<State>, actions: seq<Action>) {
    && |states| == |actions| + 1
    && states[0] == Initial(states[0].files)
    && (forall i :: 0 <= i < |actions| ==> StepIn(states, actions, i))
  }

  ghost predicate Reachable(s: State) {
    exists states: seq<State>, actions: seq<Action> :: IsRun(states, actions) && states[|actions|] == s
  }

  lemma RunNext(states: seq<State>, actions: seq<Action>, i: nat)
    requires IsRun(states, actions) && i < |actions|
    ensures Next(states[i], actions[i]) == Some(states[i + 1])
  {
    assert StepIn(states, actions, i);
  }

  lemma RunStarts(states: seq<State>, actions: seq<Action>)
    requires IsRun(states, actions)
    ensures Inv(states[0])
  {
    InitialOk(states[0].files);
  }

  lemma StepInKeeps(s: State, a: Action, t: State)
    requires Inv(s) && Next(s, a) == Some(t)
    ensures Inv(t)
  {
    StepKeeps(s, a);
  }

  /** The invariant holds up to the `n`-th state. */
  ghost predicate Sound(states: seq<State>, n: nat)
    requires n < |states|
  {
    Inv(states[n]) && (n > 0 ==> Sound(states, n - 1))
  }

  lemma RunStepKeeps(states: seq<State>, actions: seq<Action>, i: nat)
    requires IsRun(states, actions) && i < |actions| && Sound(states, i)
    ensures Sound(states, i + 1)
  {
    RunNext(states, actions, i);
    StepInKeeps(states[i], actions[i], states[i + 1]);
  }

  lemma {:induction false} RunIsSound(states: seq<State>, actions: seq<Action>, n: nat)
    requires IsRun(states, actions) && n <= |actions|
    ensures Sound(states, n)
  {
    if n == 0 {
      RunStarts(states, actions);
    } else {
      RunIsSound(states, actions, n - 1);
      RunStepKeeps(states, actions, n - 1);
    }
  }

  lemma RunKeeps(states: seq<State>, actions: seq<Action>, n: nat)
    requires IsRun(states, actions) && n <= |actions|
    ensures Inv(states[n])
  {
    RunIsSound(states, actions, n);
  }

  lemma ReachableInv(s: State)
    requires Reachable(s)
    ensures Inv(s)
  {
    var states: seq<State>, actions: seq<Action> :| IsRun(states, actions) && states[|actions|] == s;
    RunKeeps(states, actions, |actions|);
  }

  // ----- what never goes away -----

  /** Acknowledgements, outputs and sightings are never taken back. */
  ghost predicate Grows(s: State, t: State) {
    && s.acked <= t.acked && s.sighted <= t.sighted && |s.attempts| <= |t.attempts|
    && (forall k :: 0 <= k < |s.attempts| && s.attempts[k].output.Some? ==>
      t.attempts[k].output == s.attempts[k].output)
  }

  lemma WorkerGrows(s: State, t: State, k: nat)
    requires WorkerStep(s, t, k)
    ensures Grows(s, t)
  {}

  lemma AskGrows(s: State, t: State, c: nat, k: nat)
    requires AskStep(s, t, c, k)
    ensures Grows(s, t)
  {}

  lemma EnqueueGrows(s: State, a: Action)
    requires Next(s, a).Some? && a.Enqueue?
    ensures Grows(s, Next(s, a).value)
  {}

  lemma ReplaceGrows(s: State, k: nat)
    requires AttemptsOk(s) && DoGate(s, Replace(k)).Some?
    ensures Grows(s, DoGate(s, Replace(k)).value)
  {
    assert AttemptOk(s.attempts[k], k);
  }

  lemma OtherGrows(s: State, a: Action)
    requires Next(s, a).Some? && (a.Request? || a.RowFailed? || a.Deregister?)
    ensures Grows(s, Next(s, a).value)
  {}

  lemma WorldGrows(s: State, a: Action)
    requires DoWorld(s, a).Some?
    ensures Grows(s, DoWorld(s, a).value)
  {}

  lemma OwnGrows(s: State, a: Action)
    requires Inv(s) && Own(a) && Next(s, a).Some?
    ensures Grows(s, Next(s, a).value)
  {
    OwnLive(s, a);
    Here(s, a.k);
    OwnMoves(s, a);
    WorkerGrows(s, Next(s, a).value, a.k);
  }

  lemma AskingGrows(s: State, a: Action)
    requires Inv(s) && Asking(a) && Next(s, a).Some?
    ensures Grows(s, Next(s, a).value)
  {
    AskPresent(s, a);
    AskHere(s, a.c);
    AskMoves(s, a);
    AskGrows(s, Next(s, a).value, a.c, s.requests[a.c].k);
  }

  lemma SweepGrows(s: State, a: Action)
    requires Inv(s) && SweepAction(a) && Next(s, a).Some?
    ensures Grows(s, Next(s, a).value)
  {
    SweepMoves(s, a);
  }

  lemma StepGrows(s: State, a: Action)
    requires Inv(s) && Next(s, a).Some?
    ensures Grows(s, Next(s, a).value)
  {
    if Own(a) {
      OwnGrows(s, a);
    } else if Asking(a) {
      AskingGrows(s, a);
    } else if SweepAction(a) {
      SweepGrows(s, a);
    } else if a.Edit? || a.Shutdown? || a.StopAll? || a.Crash? {
      WorldGrows(s, a);
    } else if a.Enqueue? {
      EnqueueGrows(s, a);
    } else if a.Replace? {
      ReplaceGrows(s, a.k);
    } else {
      OtherGrows(s, a);
    }
  }

  lemma GrowsOn(r: State, s: State, t: State)
    requires Grows(r, s) && Grows(s, t)
    ensures Grows(r, t)
  {}

  lemma StepAt(states: seq<State>, actions: seq<Action>, i: nat)
    requires IsRun(states, actions) && i < |actions|
    ensures Next(states[i], actions[i]) == Some(states[i + 1])
    ensures Grows(states[i], states[i + 1])
  {
    RunNext(states, actions, i);
    RunKeeps(states, actions, i);
    StepGrows(states[i], actions[i]);
  }

  lemma {:induction false} RunGrows(states: seq<State>, actions: seq<Action>, m: nat, n: nat)
    requires IsRun(states, actions) && m <= n <= |actions|
    ensures Grows(states[m], states[n])
  {
    if m < n {
      RunGrows(states, actions, m, n - 1);
      StepAt(states, actions, n - 1);
      GrowsOn(states[m], states[n - 1], states[n]);
    }
  }

  // What single clauses of the invariant say about a run.

  lemma RunAcked(states: seq<State>, actions: seq<Action>, n: nat)
    requires IsRun(states, actions) && n <= |actions|
    ensures AckedOk(states[n])
  {
    RunKeeps(states, actions, n);
  }

  lemma ReachableAsk(s: State, c: nat)
    requires Reachable(s) && c in s.requests
    ensures AskLocal(s, c)
  {
    ReachableInv(s);
    AskHere(s, c);
  }

  lemma ReachableDurable(s: State, k: nat)
    requires Reachable(s) && k < |s.attempts|
    ensures DurableAt(s, k) && AttemptOk(s.attempts[k], k)
  {
    ReachableInv(s);
  }

  lemma ReachableJournals(s: State)
    requires Reachable(s)
    ensures forall r :: r in s.publications ==> s.publications[r].run == r
  {
    ReachableInv(s);
  }

  // ----- cancellation excludes replacement -----

  /** The step at which a cancellation of attempt `k` is acknowledged. */
  ghost predicate Accepts(s: State, a: Action, k: nat) {
    (a.RequestRepeated? || a.RequestSignal?) && a.c in s.requests && s.requests[a.c].k == k
  }

  /** In no run is a cancellation of an attempt acknowledged and the output file replaced by that
      same attempt, in whichever order. */
  lemma CancelExcludesReplacement(states: seq<State>, actions: seq<Action>, i: nat, j: nat, k: nat)
    requires IsRun(states, actions) && i < |actions| && j < |actions|
    requires Accepts(states[i], actions[i], k)
    ensures actions[j] != Replace(k)
  {
    if actions[j] == Replace(k) {
      var n := if i < j then j + 1 else i + 1;
      AcceptedBy(states, actions, i, n, k);
      ReplacedBy(states, actions, j, n, k);
      RunAcked(states, actions, n);
    }
  }

  lemma AcceptedBy(states: seq<State>, actions: seq<Action>, i: nat, n: nat, k: nat)
    requires IsRun(states, actions) && i < n <= |actions| && Accepts(states[i], actions[i], k)
    ensures k in states[n].acked
  {
    RunNext(states, actions, i);
    AcceptMarks(states[i], actions[i], k);
    RunGrows(states, actions, i + 1, n);
  }

  lemma ReplacedBy(states: seq<State>, actions: seq<Action>, j: nat, n: nat, k: nat)
    requires IsRun(states, actions) && j < n <= |actions| && actions[j] == Replace(k)
    ensures k < |states[n].attempts| && states[n].attempts[k].output.Some?
  {
    RunNext(states, actions, j);
    ReplaceMarks(states[j], k);
    RunGrows(states, actions, j + 1, n);
  }

  lemma AcceptMarks(s: State, a: Action, k: nat)
    requires Accepts(s, a, k) && Next(s, a).Some?
    ensures k in Next(s, a).value.acked
  {}

  lemma ReplaceMarks(s: State, k: nat)
    requires Next(s, Replace(k)).Some?
    ensures k < |Next(s, Replace(k)).value.attempts| && Next(s, Replace(k)).value.attempts[k].output.Some?
  {}

  /** Once the flag is set, no request about that attempt is acknowledged any more. */
  lemma PublishedRefuses(s: State, k: nat, a: Action)
    requires Reachable(s) && k < |s.attempts| && s.attempts[k].published
    requires Accepts(s, a, k)
    ensures Next(s, a) == None
  {
    ReachableAsk(s, a.c);
  }

  /** A request that captured attempt `k` writes its journal and sets the token only while the
      registry still names `k`; it touches the token of no other attempt and the journal of no
      other run. So it never reaches a later attempt of the same run. */
  lemma CancelReachesOnlyItsAttempt(s: State, a: Action)
    requires Reachable(s) && Asking(a) && Next(s, a).Some?
    ensures a.c in s.requests && s.requests[a.c].k < |s.attempts| == |Next(s, a).value.attempts|
    ensures Reaches(s, Next(s, a).value, s.requests[a.c].k)
  {
    AskPresent(s, a);
    ReachableAsk(s, a.c);
    AskMoves(s, a);
    OwnSignal(s, a);
    AskReaches(s, Next(s, a).value, a.c, s.requests[a.c].k);
  }

  ghost predicate Reaches(s: State, t: State, k: nat)
    requires k < |s.attempts| == |t.attempts|
  {
    && (forall i :: 0 <= i < |s.attempts| && i != k ==> t.attempts[i].signalled == s.attempts[i].signalled)
    && (forall r :: r != s.attempts[k].run ==> Lookup(t.terminal, r) == Lookup(s.terminal, r))
    && (t.terminal == s.terminal || Lookup(s.controls, s.attempts[k].run) == Some(k))
    && (t.attempts[k].signalled == s.attempts[k].signalled || Lookup(s.controls, s.attempts[k].run) == Some(k))
  }

  lemma AskReaches(s: State, t: State, c: nat, k: nat)
    requires AskStep(s, t, c, k)
    requires t.attempts[k].signalled == s.attempts[k].signalled || Lookup(s.controls, s.attempts[k].run) == Some(k)
    ensures Reaches(s, t, k)
  {}

  lemma OwnSignal(s: State, a: Action)
    requires Asking(a) && DoRequest(s, a).Some? && AskLocal(s, a.c)
    ensures var k, t := s.requests[a.c].k, DoRequest(s, a).value;
      k < |t.attempts|
        && (t.attempts[k].signalled == s.attempts[k].signalled || Lookup(s.controls, s.attempts[k].run) == Some(k))
  {}

  /** Attempt `k` is not signalled, its worker is not finishing, and no request holds the registry. */
  predicate Quiet(s: State, k: nat) {
    s.registry.None? && k < |s.attempts| && !s.attempts[k].signalled && !Ending(s.attempts[k].phase)
  }

  /** The registry's standing guarantees. */
  lemma ActiveRuns(s: State)
    requires Reachable(s)
    ensures RegistryOk(s) && OutputsDistinct(s) && TerminalsOk(s)
    ensures forall r :: r in s.controls && Quiet(s, s.controls[r]) ==> r !in s.terminal
  {
    ReachableInv(s);
    forall r | r in s.controls && Quiet(s, s.controls[r]) ensures r !in s.terminal {
      QuietHasNone(s, r);
    }
  }

  lemma QuietHasNone(s: State, r: string)
    requires RegistryOk(s) && TerminalsOk(s) && r in s.controls && Quiet(s, s.controls[r])
    ensures r !in s.terminal
  {}

  // ----- publication and recovery -----

  /** Whatever the crash point: if the latest attempt of a run put `p` in place and the database
      does not say so, the journal with `p` is on disk. */
  lemma UnrecordedOutputIsJournalled(s: State, k: nat)
    requires Reachable(s) && k < |s.attempts|
    requires s.attempts[k].output.Some? && Lookup(s.latest, s.attempts[k].run) == Some(k)
    requires !Stored(s, s.attempts[k].output.value)
    ensures OnDisk(s, s.attempts[k].output.value)
  {
    ReachableDurable(s, k);
  }

  /** ... and, with no run active, the sweep commits it as long as the file still holds it. */
  lemma SweepCompletesOutput(s: State, k: nat) returns (read: State, done: State)
    requires Reachable(s) && k < |s.attempts| && s.controls == map[] && s.sweep == Resting
    requires s.attempts[k].output.Some? && Lookup(s.latest, s.attempts[k].run) == Some(k)
    requires !Stored(s, s.attempts[k].output.value) && InPlace(s, s.attempts[k].output.value)
    ensures Next(s, SweepRead(s.attempts[k].run)) == Some(read)
    ensures Next(read, SweepCommit) == Some(done)
    ensures Stored(done, s.attempts[k].output.value)
  {
    UnrecordedOutputIsJournalled(s, k);
    ReachableDurable(s, k);
    read := Next(s, SweepRead(s.attempts[k].run)).value;
    done := Next(read, SweepCommit).value;
  }

  /** What a step newly takes as put in place or seen in place is in place. */
  ghost predicate Shows(s: State, t: State) {
    && (forall p :: p in t.sighted ==> p in s.sighted || InPlace(s, p))
    && (forall k :: 0 <= k < |t.attempts| && t.attempts[k].output.Some? ==>
         ((k < |s.attempts| && t.attempts[k].output == s.attempts[k].output) || InPlace(t, t.attempts[k].output.value)))
  }

  /** Completed runs stay completed. */
  ghost predicate Upholds(s: State, t: State) {
    forall r :: r in s.rows && s.rows[r].Completed? ==> r in t.rows && t.rows[r].Completed?
  }

  lemma BeginShows(s: State, a: Action)
    requires DoBegin(s, a).Some?
    ensures Shows(s, DoBegin(s, a).value)
  {}

  lemma SaveShows(s: State, a: Action)
    requires DoSave(s, a).Some?
    ensures Shows(s, DoSave(s, a).value) && Upholds(s, DoSave(s, a).value)
  {}

  lemma GateShows(s: State, a: Action)
    requires DoGate(s, a).Some?
    ensures Shows(s, DoGate(s, a).value) && Upholds(s, DoGate(s, a).value)
  {}

  lemma FinishShows(s: State, a: Action)
    requires DoFinish(s, a).Some?
    ensures Shows(s, DoFinish(s, a).value) && Upholds(s, DoFinish(s, a).value)
  {}

  lemma RecoverMatchShows(s: State, k: nat)
    requires DoRecoverRun(s, RecoverRead(k)).Some?
    requires s.attempts[k].run in s.publications && InPlace(s, s.publications[s.attempts[k].run])
    ensures Shows(s, DoRecoverRun(s, RecoverRead(k)).value)
  {}

  lemma RecoverMissShows(s: State, k: nat)
    requires DoRecoverRun(s, RecoverRead(k)).Some?
    requires s.attempts[k].run in s.publications ==> !InPlace(s, s.publications[s.attempts[k].run])
    ensures Shows(s, DoRecoverRun(s, RecoverRead(k)).value)
  {}

  lemma RecoverReadShows(s: State, k: nat)
    requires DoRecoverRun(s, RecoverRead(k)).Some?
    ensures Shows(s, DoRecoverRun(s, RecoverRead(k)).value)
  {
    if s.attempts[k].run in s.publications && InPlace(s, s.publications[s.attempts[k].run]) {
      RecoverMatchShows(s, k);
    } else {
      RecoverMissShows(s, k);
    }
  }

  lemma RecoverReadUpholds(s: State, k: nat)
    requires DoRecoverRun(s, RecoverRead(k)).Some?
    ensures Upholds(s, DoRecoverRun(s, RecoverRead(k)).value)
  {}

  lemma RecoverShows(s: State, a: Action)
    requires DoRecoverRun(s, a).Some?
    ensures Shows(s, DoRecoverRun(s, a).value) && Upholds(s, DoRecoverRun(s, a).value)
  {
    if a.RecoverRead? {
      RecoverReadShows(s, a.k);
      RecoverReadUpholds(s, a.k);
    } else {
      RecoverRestShows(s, a);
    }
  }

  lemma RecoverRestShows(s: State, a: Action)
    requires DoRecoverRun(s, a).Some? && !a.RecoverRead?
    ensures Shows(s, DoRecoverRun(s, a).value) && Upholds(s, DoRecoverRun(s, a).value)
  {}

  lemma WriteTerminalShows(s: State, k: nat, error: Kind, written: bool)
    requires DoEnd(s, WriteTerminal(k, error, written)).Some?
    ensures Shows(s, DoEnd(s, WriteTerminal(k, error, written)).value)
      && Upholds(s, DoEnd(s, WriteTerminal(k, error, written)).value)
  {}

  lemma EndShows(s: State, a: Action)
    requires DoEnd(s, a).Some?
    ensures Shows(s, DoEnd(s, a).value) && Upholds(s, DoEnd(s, a).value)
  {
    if a.WriteTerminal? { WriteTerminalShows(s, a.k, a.error, a.written); } else { EndRestShows(s, a); }
  }

  lemma EndRestShows(s: State, a: Action)
    requires DoEnd(s, a).Some? && !a.WriteTerminal?
    ensures Shows(s, DoEnd(s, a).value) && Upholds(s, DoEnd(s, a).value)
  {
    if a.StoreTerminal? { StoreTerminalShows(s, a.k, a.stored); }
    else if a.RemoveTerminal? { RemoveTerminalShows(s, a.k); }
    else { DeregisterShows(s, a.k); }
  }

  lemma StoreTerminalShows(s: State, k: nat, stored: bool)
    requires DoEnd(s, StoreTerminal(k, stored)).Some?
    ensures Shows(s, DoEnd(s, StoreTerminal(k, stored)).value) && Upholds(s, DoEnd(s, StoreTerminal(k, stored)).value)
  {}

  lemma RemoveTerminalShows(s: State, k: nat)
    requires DoEnd(s, RemoveTerminal(k)).Some?
    ensures Shows(s, DoEnd(s, RemoveTerminal(k)).value) && Upholds(s, DoEnd(s, RemoveTerminal(k)).value)
  {}

  lemma DeregisterShows(s: State, k: nat)
    requires DoEnd(s, Deregister(k)).Some?
    ensures Shows(s, DoEnd(s, Deregister(k)).value) && Upholds(s, DoEnd(s, Deregister(k)).value)
  {}

  lemma AnswerShows(s: State, a: Action)
    requires (a.RequestRefused? || a.RequestRepeated? || a.RequestSignal?) && DoRequest(s, a).Some?
    ensures Shows(s, DoRequest(s, a).value) && Upholds(s, DoRequest(s, a).value)
  {}

  lemma AskingShows(s: State, a: Action)
    requires (a.Request? || a.RequestGate? || a.RequestRegistry? || a.RequestJournal?) && DoRequest(s, a).Some?
    ensures Shows(s, DoRequest(s, a).value) && Upholds(s, DoRequest(s, a).value)
  {}

  lemma DroppedShows(s: State, c: nat)
    requires DoRequest(s, RequestDropped(c)).Some?
    ensures Shows(s, DoRequest(s, RequestDropped(c)).value) && Upholds(s, DoRequest(s, RequestDropped(c)).value)
  {
    if s.requests[c].Captured? { CapturedDropped(s, c); } else { GateDropped(s, c); }
  }

  lemma CapturedDropped(s: State, c: nat)
    requires DoRequest(s, RequestDropped(c)).Some? && s.requests[c].Captured?
    ensures Shows(s, DoRequest(s, RequestDropped(c)).value) && Upholds(s, DoRequest(s, RequestDropped(c)).value)
  {}

  lemma GateDropped(s: State, c: nat)
    requires DoRequest(s, RequestDropped(c)).Some? && s.requests[c].HasGate?
    ensures Shows(s, DoRequest(s, RequestDropped(c)).value) && Upholds(s, DoRequest(s, RequestDropped(c)).value)
  {}

  lemma RequestShows(s: State, a: Action)
    requires DoRequest(s, a).Some?
    ensures Shows(s, DoRequest(s, a).value) && Upholds(s, DoRequest(s, a).value)
  {
    if a.RequestRefused? || a.RequestRepeated? || a.RequestSignal? { AnswerShows(s, a); }
    else if a.RequestDropped? { DroppedShows(s, a.c); }
    else { AskingShows(s, a); }
  }

  lemma SweepShows(s: State, a: Action)
    requires DoSweep(s, a).Some?
    ensures Shows(s, DoSweep(s, a).value) && Upholds(s, DoSweep(s, a).value)
  {}

  lemma WorldShows(s: State, a: Action)
    requires DoWorld(s, a).Some?
    ensures Shows(s, DoWorld(s, a).value) && Upholds(s, DoWorld(s, a).value)
  {}

  lemma EnqueueShows(s: State, a: Action)
    requires a.Enqueue? && Next(s, a).Some?
    ensures Shows(s, Next(s, a).value) && Upholds(s, Next(s, a).value)
  {}

  lemma StepShows(s: State, a: Action)
    requires Next(s, a).Some?
    ensures Shows(s, Next(s, a).value)
    ensures a.RowQueued? || a.Start? || Upholds(s, Next(s, a).value)
  {
    if a.Enqueue? { EnqueueShows(s, a); }
    else if a.RowQueued? || a.Start? || a.RowFailed? { BeginShows(s, a); }
    else if a.ReadTarget? || a.WriteJournal? || a.TakeGate? { SaveShows(s, a); }
    else if a.Compare? || a.Clear? || a.Publish? || a.LeaveGate? || a.Replace? { GateShows(s, a); }
    else if a.RecoverRead? || a.RecoverCommit? || a.RecoverRemove? { RecoverShows(s, a); }
    else if a.WriteTerminal? || a.StoreTerminal? || a.RemoveTerminal? || a.Deregister? { EndShows(s, a); }
    else if a.Request? || Asking(a) { RequestShows(s, a); }
    else if SweepAction(a) { SweepShows(s, a); }
    else if a.Edit? || a.Shutdown? || a.StopAll? || a.Crash? { WorldShows(s, a); }
    else { FinishShows(s, a); }
  }

  /** No replay, recovery or end-of-attempt update takes a completed run back; only registering a
      new attempt of that very run does. */
  lemma NoDowngrade(s: State, a: Action, run: string)
    requires Next(s, a).Some? && run in s.rows && s.rows[run].Completed?
    requires a.RowQueued? || a.Start? ==> s.attempts[a.k].run != run
    ensures run in Next(s, a).value.rows && Next(s, a).value.rows[run].Completed?
  {
    StepShows(s, a);
  }

  lemma {:induction false} RunShows(states: seq<State>, actions: seq<Action>, n: nat, p: Publication)
    requires IsRun(states, actions) && n <= |actions| && Witnessed(states[n], p)
    ensures exists m :: 0 <= m <= n && InPlace(states[m], p)
  {
    if InPlace(states[n], p) {
    } else if n > 0 {
      RunNext(states, actions, n - 1);
      StepShows(states[n - 1], actions[n - 1]);
      if !InPlace(states[n - 1], p) { RunShows(states, actions, n - 1, p); }
    }
  }

  /** A run is recorded as completed with a publication only if at some moment its output file
      held exactly that publication. */
  lemma CompletedWasInPlace(states: seq<State>, actions: seq<Action>, n: nat, run: string)
    requires IsRun(states, actions) && n <= |actions| && run in states[n].rows && states[n].rows[run].Completed?
    ensures states[n].rows[run].p.run == run
    ensures exists m :: 0 <= m <= n && InPlace(states[m], states[n].rows[run].p)
  {
    RunCompleted(states, actions, n, run);
    RunShows(states, actions, n, states[n].rows[run].p);
  }

  lemma RunCompleted(states: seq<State>, actions: seq<Action>, n: nat, run: string)
    requires IsRun(states, actions) && n <= |actions| && run in states[n].rows && states[n].rows[run].Completed?
    ensures states[n].rows[run].p.run == run && Witnessed(states[n], states[n].rows[run].p)
  {
    RunKeeps(states, actions, n);
    assert RowOk(states[n], run);
  }
}
