/** What every step of the lifecycle keeps. */
module LifecycleInvariant {
  import opened Options
  import opened Lifecycle

  // ----- registry and locks -----

  ghost predicate RegistryOk(s: State) {
    && (forall r :: r in s.controls ==> (
         s.controls[r] < |s.attempts| && s.attempts[s.controls[r]].run == r && !s.attempts[s.controls[r]].phase.Gone?))
    && (forall k :: 0 <= k < |s.attempts| && !s.attempts[k].phase.Gone? ==>
         s.attempts[k].run in s.controls && s.controls[s.attempts[k].run] == k)
  }

  /** Active runs write to distinct outputs, and there are at most 64 of them. */
  ghost predicate OutputsDistinct(s: State)
    requires RegistryOk(s)
  {
    && |s.controls| <= 64
    && (forall r1, r2 :: r1 in s.controls && r2 in s.controls && r1 != r2 ==>
         s.attempts[s.controls[r1]].target != s.attempts[s.controls[r2]].target)
  }

  predicate Behind(phase: Phase) {
    phase.InGate? || phase.Compared? || phase.Cleared? || phase.Replaced?
  }

  predicate Holds(q: Request) {
    q.HasGate? || q.HasBoth? || q.Wrote?
  }

  ghost predicate GatesOk(s: State) {
    && (forall k :: 0 <= k < |s.attempts| ==>
         && (s.attempts[k].gate.Worker? <==> Behind(s.attempts[k].phase))
         && (s.attempts[k].gate.Canceller? ==>
              s.attempts[k].gate.c in s.requests && Holds(s.requests[s.attempts[k].gate.c])
                && s.requests[s.attempts[k].gate.c].k == k))
    && (forall c :: c in s.requests ==> s.requests[c].k < |s.attempts|)
    && (forall c :: c in s.requests && Holds(s.requests[c]) ==> s.attempts[s.requests[c].k].gate == Canceller(c))
  }

  ghost predicate LockOk(s: State) {
    && (s.registry.Some? ==> s.registry.value in s.requests)
    && (s.registry.Some? ==> s.requests[s.registry.value].HasBoth? || s.requests[s.registry.value].Wrote?)
    && (forall c :: c in s.requests && (s.requests[c].HasBoth? || s.requests[c].Wrote?) ==> s.registry == Some(c))
  }

  /** A request that has written its journal still faces the attempt it captured. */
  ghost predicate WroteOk(s: State)
    requires GatesOk(s)
  {
    forall c :: c in s.requests && s.requests[c].Wrote? ==>
      var k := s.requests[c].k;
      && Lookup(s.controls, s.attempts[k].run) == Some(k)
      && !s.attempts[k].published && s.attempts[k].output.None?
  }

  ghost predicate LocksOk(s: State) {
    RegistryOk(s) && OutputsDistinct(s) && GatesOk(s) && LockOk(s) && WroteOk(s)
  }

  // ----- one attempt -----

  predicate BeforeGate(phase: Phase) {
    phase.Registering? || phase.Queued? || phase.Executing? || phase.Saving? || phase.Journalled?
  }

  predicate Drafted(phase: Phase) {
    phase.Saving? || phase.Journalled? || phase.InGate? || phase.Compared? || phase.Cleared?
  }

  predicate Ending(phase: Phase) {
    phase.TerminalWritten? || phase.TerminalStored? || phase.Finished?
  }

  /** Output, flag and phase of one attempt agree. */
  predicate AttemptOk(a: Attempt, k: nat) {
    && (a.published ==> a.output.Some?)
    && (a.output.Some? ==> a.output.value.run == a.run && a.output.value.author == k)
    && (BeforeGate(a.phase) || Drafted(a.phase) ==> a.output.None?)
    && (a.phase.Replaced? || a.phase.Committing? || a.phase.Committed? ==> a.output == Some(a.phase.p))
    && (a.phase.Replaced? ==> !a.published)
    && (AfterPublication(a.phase) ==> a.published)
    && (a.phase.Failing? || Ending(a.phase) ==> (a.published <==> a.output.Some?))
    && (Drafted(a.phase) ==> a.phase.p.run == a.run && a.phase.p.author == k)
    && (Drafted(a.phase)
      ==> a.phase.p.path == (if a.phase.seen != a.original then ConflictPath(a.target, a.run) else a.target))
  }

  ghost predicate AttemptsOk(s: State) {
    forall k :: 0 <= k < |s.attempts| ==> AttemptOk(s.attempts[k], k)
  }

  /** An attempt reported as cancelled has its token set, has written nothing, and is not about to. */
  predicate Stopping(a: Attempt) {
    a.signalled && !a.published && a.output.None? && !a.phase.Cleared? && !a.phase.Replaced?
  }

  ghost predicate AckedOk(s: State) {
    forall k :: k in s.acked ==> k < |s.attempts| && Stopping(s.attempts[k])
  }

  /** The content between comparison and replacement, and what was replaced. */
  predicate WindowOk(a: Attempt, files: map<string, string>) {
    && ((a.phase.Compared? || a.phase.Cleared?) && a.phase.p.path == a.target && !a.disturbed ==>
         Lookup(files, a.target) == a.original)
    && (a.output.Some? && a.output.value.path == a.target && !a.disturbed ==> a.replaced == a.original)
  }

  ghost predicate WindowsOk(s: State) {
    forall k :: 0 <= k < |s.attempts| ==> WindowOk(s.attempts[k], s.files)
  }

  // ----- journals -----

  ghost predicate LatestOk(s: State) {
    && (forall r :: r in s.latest ==> s.latest[r] < |s.attempts| && s.attempts[s.latest[r]].run == r)
    && (forall k :: 0 <= k < |s.attempts| ==> s.attempts[k].run in s.latest)
    && (forall r :: r in s.controls ==> Lookup(s.latest, r) == Some(s.controls[r]))
    && s.terminal.Keys <= s.latest.Keys
  }

  /** A terminal journal of a registered run is about the registered attempt; and a registered,
      unsignalled attempt whose worker is not finishing has none, except while the request that is
      cancelling it holds gate and registry. */
  ghost predicate TerminalsOk(s: State)
    requires RegistryOk(s)
  {
    forall r :: r in s.controls && r in s.terminal ==> TerminalOk(s, s.terminal[r], s.controls[r])
  }

  predicate TerminalOk(s: State, j: Terminal, k: nat)
    requires k < |s.attempts|
  {
    && j.against == k
    && (s.attempts[k].signalled || Ending(s.attempts[k].phase) || InHand(s, k))
  }

  /** The request that owns the registry is between its journal and its signal for `k`. */
  predicate InHand(s: State, k: nat) {
    s.registry.Some? && Lookup(s.requests, s.registry.value) == Some(Wrote(k))
  }

  predicate OnDisk(s: State, p: Publication) {
    Lookup(s.publications, p.run) == Some(p)
  }

  /** The database says so. */
  predicate Stored(s: State, p: Publication) {
    p in s.artifacts && Lookup(s.rows, p.run) == Some(Completed(p))
  }

  predicate KeepsJournal(phase: Phase) {
    phase.Journalled? || phase.InGate? || phase.Compared? || phase.Cleared? || phase.Replaced?
    || phase.Matched? || phase.Recommitted?
  }

  ghost predicate JournalsOk(s: State) {
    && (forall k :: 0 <= k < |s.attempts| ==> JournalAt(s, k))
    && (forall r :: r in s.publications ==> s.publications[r].run == r)
  }

  /** The journal side of one attempt. */
  predicate JournalAt(s: State, k: nat)
    requires k < |s.attempts|
  {
    var a := s.attempts[k];
    && (KeepsJournal(a.phase) ==> a.phase.p.run == a.run && OnDisk(s, a.phase.p))
    && (a.phase.Committed? || a.phase.Recommitted? ==> a.phase.p.run == a.run && Stored(s, a.phase.p))
    && (a.phase.Matched? || a.phase.Recommitted? ==> a.phase.p in s.sighted)
  }

  /** What the latest attempt of a run put in place is in the database, or else its journal is on
      disk; and a journal of that run is the journal of that output. */
  predicate DurableAt(s: State, k: nat)
    requires k < |s.attempts|
  {
    s.attempts[k].output.Some? && Lookup(s.latest, s.attempts[k].run) == Some(k) ==>
      && (Stored(s, s.attempts[k].output.value) || OnDisk(s, s.attempts[k].output.value))
      && (s.attempts[k].run in s.publications ==> OnDisk(s, s.attempts[k].output.value))
  }

  ghost predicate Durable(s: State) {
    forall k :: 0 <= k < |s.attempts| ==> DurableAt(s, k)
  }

  predicate RowOk(s: State, r: string) {
    r in s.rows && s.rows[r].Completed? ==> s.rows[r].p.run == r && s.rows[r].p in s.artifacts
  }

  predicate Witnessed(s: State, p: Publication) {
    p in s.sighted || (p.author < |s.attempts| && s.attempts[p.author].output == Some(p))
  }

  /** A completed row names a publication that is an artifact of that run; an artifact was put in
      place by its attempt or seen in place by a recovery. */
  ghost predicate CompletedOk(s: State) {
    && (forall r :: r in s.rows ==> RowOk(s, r))
    && (forall p :: p in s.artifacts ==> Witnessed(s, p))
  }

  /** The publication sweep works with no run active, on a journal that is still there. */
  ghost predicate SweepOk(s: State) {
    && (s.sweep.TerminalReplayed? ==> s.sweep.run !in s.controls)
    && (s.sweep.SweepMatched? || s.sweep.SweepCommitted? ==>
         s.controls == map[] && s.sweep.p.run in s.publications && OnDisk(s, s.sweep.p) && s.sweep.p in s.sighted)
    && (s.sweep.SweepCommitted? ==> Stored(s, s.sweep.p))
  }

  ghost predicate Inv(s: State) {
    && LocksOk(s) && AttemptsOk(s) && AckedOk(s) && WindowsOk(s)
    && LatestOk(s) && TerminalsOk(s) && JournalsOk(s) && Durable(s) && CompletedOk(s) && SweepOk(s)
  }

  lemma InitialOk(files: map<string, string>)
    ensures Inv(Initial(files))
  {}

  // ----- frames: a step of one worker -----

  /** Only attempt `k`, and only the records of its run, change. */
  ghost predicate Moves(s: State, t: State, k: nat) {
    && k < |s.attempts| == |t.attempts|
    && (forall i :: 0 <= i < |s.attempts| && i != k ==> t.attempts[i] == s.attempts[i])
    && t.attempts[k].run == s.attempts[k].run && t.attempts[k].target == s.attempts[k].target
    && t.attempts[k].original == s.attempts[k].original && t.attempts[k].signalled == s.attempts[k].signalled
    && !s.attempts[k].phase.Gone?
    && t.requests == s.requests && t.registry == s.registry && t.latest == s.latest && t.acked == s.acked
    && t.sweep == s.sweep && s.sighted <= t.sighted
    && (forall r :: r != s.attempts[k].run ==>
          (Lookup(t.publications, r) == Lookup(s.publications, r)
           && Lookup(t.rows, r) == Lookup(s.rows, r) && Lookup(t.terminal, r) == Lookup(s.terminal, r)))
    && s.artifacts <= t.artifacts
    && (forall p :: p in t.artifacts && p !in s.artifacts ==> (p.run == s.attempts[k].run && Witnessed(t, p)))
  }

  ghost predicate LocksMove(s: State, t: State, k: nat)
    requires Moves(s, t, k)
  {
    var a, b := s.attempts[k], t.attempts[k];
    && t.controls == s.controls && !b.phase.Gone?
    && (b.gate.Worker? <==> Behind(b.phase))
    && (b.gate != a.gate ==> !a.gate.Canceller? && !b.gate.Canceller?)
    && (a.gate.Canceller? ==> b.published == a.published && b.output == a.output)
  }

  lemma RegistryFrame(s: State, t: State, k: nat)
    requires RegistryOk(s) && OutputsDistinct(s) && Moves(s, t, k) && LocksMove(s, t, k)
    ensures RegistryOk(t) && OutputsDistinct(t)
  {
    assert RegistryOk(t);
  }

  lemma GatesFrame(s: State, t: State, k: nat)
    requires GatesOk(s) && Moves(s, t, k) && LocksMove(s, t, k)
    ensures GatesOk(t)
  {}

  lemma LocksFrame(s: State, t: State, k: nat)
    requires LocksOk(s) && Moves(s, t, k) && LocksMove(s, t, k)
    ensures LocksOk(t)
  {
    RegistryFrame(s, t, k);
    GatesFrame(s, t, k);
  }

  ghost predicate DataMove(s: State, t: State, k: nat)
    requires Moves(s, t, k)
  {
    && AttemptOk(t.attempts[k], k) && (Stopping(s.attempts[k]) ==> Stopping(t.attempts[k]))
    && t.files == s.files && WindowOk(t.attempts[k], t.files)
  }

  lemma DataFrame(s: State, t: State, k: nat)
    requires AttemptsOk(s) && AckedOk(s) && WindowsOk(s) && Moves(s, t, k) && DataMove(s, t, k)
    ensures AttemptsOk(t) && AckedOk(t) && WindowsOk(t)
  {}

  ghost predicate TerminalMove(s: State, t: State, k: nat)
    requires Moves(s, t, k)
  {
    var r := s.attempts[k].run;
    r in t.terminal && r in t.controls ==>
      TerminalOk(t, t.terminal[r], k)
  }

  lemma TerminalFrame(s: State, t: State, k: nat)
    requires RegistryOk(s) && LatestOk(s) && TerminalsOk(s) && Moves(s, t, k) && TerminalMove(s, t, k)
    requires RegistryOk(t) && (forall r :: r in t.controls ==> r in s.controls && t.controls[r] == s.controls[r])
    ensures LatestOk(t) && TerminalsOk(t)
  {
    forall r | r in t.terminal ensures r in t.latest {
      assert r == s.attempts[k].run || Lookup(t.terminal, r) == Lookup(s.terminal, r);
    }
    forall r | r in t.controls && r in t.terminal ensures TerminalOk(t, t.terminal[r], t.controls[r]) {
      if r != s.attempts[k].run {
        assert Lookup(t.terminal, r) == Lookup(s.terminal, r);
        assert TerminalOk(s, s.terminal[r], s.controls[r]);
      }
    }
  }

  ghost predicate JournalMove(s: State, t: State, k: nat)
    requires Moves(s, t, k)
  {
    var r := s.attempts[k].run;
    && JournalAt(t, k) && DurableAt(t, k) && RowOk(t, r)
    && (r in t.publications ==> t.publications[r].run == r)
    && (s.attempts[k].output.Some? ==> t.attempts[k].output == s.attempts[k].output)
  }

  lemma JournalFrame(s: State, t: State, k: nat)
    requires RegistryOk(s) && LatestOk(s) && JournalsOk(s) && Moves(s, t, k) && JournalMove(s, t, k)
    ensures JournalsOk(t)
  {
    forall i | 0 <= i < |t.attempts| && i != k ensures JournalAt(t, i) {
      assert JournalAt(s, i);
      if !s.attempts[i].phase.Gone? { assert s.attempts[i].run != s.attempts[k].run; }
    }
    forall r | r in t.publications ensures t.publications[r].run == r {
      if r != s.attempts[k].run { assert Lookup(t.publications, r) == Lookup(s.publications, r); }
    }
  }

  lemma SameRecords(s: State, t: State, r: string)
    requires Lookup(t.publications, r) == Lookup(s.publications, r) && Lookup(t.rows, r) == Lookup(s.rows, r)
    requires s.artifacts <= t.artifacts
    ensures forall p: Publication :: p.run == r ==> (Stored(s, p) ==> Stored(t, p)) && (OnDisk(s, p) <==> OnDisk(t, p))
    ensures r in t.publications <==> r in s.publications
  {}

  lemma DurableFrame(s: State, t: State, k: nat)
    requires RegistryOk(s) && LatestOk(s) && AttemptsOk(s) && Durable(s) && CompletedOk(s)
    requires Moves(s, t, k) && JournalMove(s, t, k)
    ensures Durable(t) && CompletedOk(t)
  {
    assert s.controls[s.attempts[k].run] == k && Lookup(s.latest, s.attempts[k].run) == Some(k);
    forall i | 0 <= i < |t.attempts| && i != k ensures DurableAt(t, i) {
      assert DurableAt(s, i) && AttemptOk(s.attempts[i], i);
      var r := s.attempts[i].run;
      if r != s.attempts[k].run {
        SameRecords(s, t, r);
      } else {
        assert Lookup(t.latest, r) == Some(k) != Some(i);
      }
    }
    forall r | r in t.rows ensures RowOk(t, r) {
      if r != s.attempts[k].run { assert Lookup(t.rows, r) == Lookup(s.rows, r); assert RowOk(s, r); }
    }
    forall p | p in t.artifacts ensures Witnessed(t, p) {
      if p in s.artifacts {
        assert Witnessed(s, p);
      }
    }
  }

  lemma SweepFrame(s: State, t: State, k: nat)
    requires RegistryOk(s) && SweepOk(s) && Moves(s, t, k)
    requires forall r :: r in t.controls ==> r in s.controls
    ensures SweepOk(t)
  {
    assert s.attempts[k].run in s.controls;
  }

  /** A worker's step that stays registered and does not replace a file. */
  ghost predicate WorkerStep(s: State, t: State, k: nat) {
    Moves(s, t, k) && LocksMove(s, t, k) && DataMove(s, t, k) && TerminalMove(s, t, k) && JournalMove(s, t, k)
  }

  lemma WorkerFrame(s: State, t: State, k: nat)
    requires Inv(s) && WorkerStep(s, t, k)
    ensures Inv(t)
  {
    LocksFrame(s, t, k);
    DataFrame(s, t, k);
    TerminalFrame(s, t, k);
    JournalFrame(s, t, k);
    DurableFrame(s, t, k);
    SweepFrame(s, t, k);
  }

  /** What the invariant says about a live attempt. */
  ghost predicate Local(s: State, k: nat) {
    && k < |s.attempts| && !s.attempts[k].phase.Gone?
    && var a := s.attempts[k];
    && AttemptOk(a, k) && WindowOk(a, s.files)
    && Lookup(s.controls, a.run) == Some(k) && Lookup(s.latest, a.run) == Some(k)
    && JournalAt(s, k) && DurableAt(s, k) && RowOk(s, a.run)
    && (a.gate.Worker? <==> Behind(a.phase))
    && (a.run in s.publications ==> s.publications[a.run].run == a.run)
    && (a.run in s.terminal ==> TerminalOk(s, s.terminal[a.run], k))
  }

  lemma Here(s: State, k: nat)
    requires Inv(s) && k < |s.attempts| && !s.attempts[k].phase.Gone?
    ensures Local(s, k)
  {}

  /** Between the comparison in the gate and the replacement. */
  predicate Windowed(a: Attempt) {
    a.phase.Compared? || a.phase.Cleared?
  }

  lemma RowQueuedStep(s: State, k: nat)
    requires DoBegin(s, RowQueued(k)).Some? && Local(s, k)
    ensures WorkerStep(s, DoBegin(s, RowQueued(k)).value, k) && !Windowed(DoBegin(s, RowQueued(k)).value.attempts[k])
  {}

  lemma StartStep(s: State, k: nat)
    requires DoBegin(s, Start(k)).Some? && Local(s, k)
    ensures WorkerStep(s, DoBegin(s, Start(k)).value, k) && !Windowed(DoBegin(s, Start(k)).value.attempts[k])
  {}

  lemma ReadTargetStep(s: State, k: nat, draft: string)
    requires DoSave(s, ReadTarget(k, draft)).Some? && Local(s, k)
    ensures WorkerStep(s, DoSave(s, ReadTarget(k, draft)).value, k)
      && !Windowed(DoSave(s, ReadTarget(k, draft)).value.attempts[k])
  {}

  lemma WriteJournalStep(s: State, k: nat)
    requires DoSave(s, WriteJournal(k)).Some? && Local(s, k)
    ensures WorkerStep(s, DoSave(s, WriteJournal(k)).value, k)
      && !Windowed(DoSave(s, WriteJournal(k)).value.attempts[k])
  {}

  lemma TakeGateStep(s: State, k: nat)
    requires DoSave(s, TakeGate(k)).Some? && Local(s, k)
    ensures WorkerStep(s, DoSave(s, TakeGate(k)).value, k) && !Windowed(DoSave(s, TakeGate(k)).value.attempts[k])
  {}

  lemma CompareStep(s: State, k: nat)
    requires DoGate(s, Compare(k)).Some? && Local(s, k)
    ensures WorkerStep(s, DoGate(s, Compare(k)).value, k)
  {}

  lemma ClearStep(s: State, k: nat)
    requires DoGate(s, Clear(k)).Some? && Local(s, k)
    ensures WorkerStep(s, DoGate(s, Clear(k)).value, k)
  {}

  lemma PublishStep(s: State, k: nat)
    requires DoGate(s, Publish(k)).Some? && Local(s, k)
    ensures WorkerStep(s, DoGate(s, Publish(k)).value, k) && !Windowed(DoGate(s, Publish(k)).value.attempts[k])
  {}

  lemma LeaveGateStep(s: State, k: nat)
    requires DoGate(s, LeaveGate(k)).Some? && Local(s, k)
    ensures WorkerStep(s, DoGate(s, LeaveGate(k)).value, k) && !Windowed(DoGate(s, LeaveGate(k)).value.attempts[k])
  {}

  lemma RetryStep(s: State, k: nat)
    requires DoFinish(s, Retry(k)).Some? && Local(s, k)
    ensures WorkerStep(s, DoFinish(s, Retry(k)).value, k) && !Windowed(DoFinish(s, Retry(k)).value.attempts[k])
  {}

  lemma FailStep(s: State, k: nat)
    requires DoFinish(s, Fail(k)).Some? && Local(s, k)
    ensures WorkerStep(s, DoFinish(s, Fail(k)).value, k) && !Windowed(DoFinish(s, Fail(k)).value.attempts[k])
  {}

  lemma CommitStep(s: State, k: nat)
    requires DoFinish(s, Commit(k)).Some? && Local(s, k)
    ensures WorkerStep(s, DoFinish(s, Commit(k)).value, k) && !Windowed(DoFinish(s, Commit(k)).value.attempts[k])
  {}

  lemma RemoveJournalStep(s: State, k: nat)
    requires DoFinish(s, RemoveJournal(k)).Some? && Local(s, k)
    ensures WorkerStep(s, DoFinish(s, RemoveJournal(k)).value, k)
      && !Windowed(DoFinish(s, RemoveJournal(k)).value.attempts[k])
  {}

  lemma TroubleStep(s: State, k: nat)
    requires DoFinish(s, Trouble(k)).Some? && Local(s, k)
    ensures WorkerStep(s, DoFinish(s, Trouble(k)).value, k) && !Windowed(DoFinish(s, Trouble(k)).value.attempts[k])
  {}

  lemma GiveUpStep(s: State, k: nat)
    requires DoFinish(s, GiveUp(k)).Some? && Local(s, k)
    ensures WorkerStep(s, DoFinish(s, GiveUp(k)).value, k) && !Windowed(DoFinish(s, GiveUp(k)).value.attempts[k])
  {}

  predicate InPlace(s: State, p: Publication) {
    Lookup(s.files, p.path) == Some(p.content)
  }

  lemma RecoverReadMatch(s: State, k: nat)
    requires DoRecoverRun(s, RecoverRead(k)).Some? && Local(s, k)
    requires s.attempts[k].run in s.publications && InPlace(s, s.publications[s.attempts[k].run])
    ensures WorkerStep(s, DoRecoverRun(s, RecoverRead(k)).value, k)
      && !Windowed(DoRecoverRun(s, RecoverRead(k)).value.attempts[k])
  {}

  lemma RecoverReadMiss(s: State, k: nat)
    requires DoRecoverRun(s, RecoverRead(k)).Some? && Local(s, k)
    requires s.attempts[k].run in s.publications && !InPlace(s, s.publications[s.attempts[k].run])
    ensures WorkerStep(s, DoRecoverRun(s, RecoverRead(k)).value, k)
    ensures !Windowed(DoRecoverRun(s, RecoverRead(k)).value.attempts[k])
  {}

  lemma RecoverReadNone(s: State, k: nat)
    requires DoRecoverRun(s, RecoverRead(k)).Some? && Local(s, k) && s.attempts[k].run !in s.publications
    ensures WorkerStep(s, DoRecoverRun(s, RecoverRead(k)).value, k)
    ensures !Windowed(DoRecoverRun(s, RecoverRead(k)).value.attempts[k])
  {}

  lemma RecoverReadStep(s: State, k: nat)
    requires DoRecoverRun(s, RecoverRead(k)).Some? && Local(s, k)
    ensures WorkerStep(s, DoRecoverRun(s, RecoverRead(k)).value, k)
      && !Windowed(DoRecoverRun(s, RecoverRead(k)).value.attempts[k])
  {
    if s.attempts[k].run !in s.publications {
      RecoverReadNone(s, k);
    } else if InPlace(s, s.publications[s.attempts[k].run]) {
      RecoverReadMatch(s, k);
    } else {
      RecoverReadMiss(s, k);
    }
  }

  lemma RecoverCommitStep(s: State, k: nat)
    requires DoRecoverRun(s, RecoverCommit(k)).Some? && Local(s, k)
    ensures WorkerStep(s, DoRecoverRun(s, RecoverCommit(k)).value, k)
      && !Windowed(DoRecoverRun(s, RecoverCommit(k)).value.attempts[k])
  {}

  lemma RecoverRemoveStep(s: State, k: nat)
    requires DoRecoverRun(s, RecoverRemove(k)).Some? && Local(s, k)
    ensures WorkerStep(s, DoRecoverRun(s, RecoverRemove(k)).value, k)
      && !Windowed(DoRecoverRun(s, RecoverRemove(k)).value.attempts[k])
  {}

  lemma WriteTerminalStep(s: State, k: nat, error: Kind, written: bool)
    requires DoEnd(s, WriteTerminal(k, error, written)).Some? && Local(s, k)
    ensures WorkerStep(s, DoEnd(s, WriteTerminal(k, error, written)).value, k)
      && !Windowed(DoEnd(s, WriteTerminal(k, error, written)).value.attempts[k])
  {}

  lemma StatusStep(s: State, k: nat)
    requires DoEnd(s, StoreTerminal(k, true)).Some? && Local(s, k)
    ensures WorkerStep(s, DoEnd(s, StoreTerminal(k, true)).value, k)
    ensures !Windowed(DoEnd(s, StoreTerminal(k, true)).value.attempts[k])
  {}

  lemma NoStatusStep(s: State, k: nat)
    requires DoEnd(s, StoreTerminal(k, false)).Some? && Local(s, k)
    ensures WorkerStep(s, DoEnd(s, StoreTerminal(k, false)).value, k)
    ensures !Windowed(DoEnd(s, StoreTerminal(k, false)).value.attempts[k])
  {}

  lemma StoreTerminalStep(s: State, k: nat, stored: bool)
    requires DoEnd(s, StoreTerminal(k, stored)).Some? && Local(s, k)
    ensures WorkerStep(s, DoEnd(s, StoreTerminal(k, stored)).value, k)
    ensures !Windowed(DoEnd(s, StoreTerminal(k, stored)).value.attempts[k])
  {
    if stored { StatusStep(s, k); } else { NoStatusStep(s, k); }
  }

  lemma RemoveTerminalStep(s: State, k: nat)
    requires DoEnd(s, RemoveTerminal(k)).Some? && Local(s, k)
    ensures WorkerStep(s, DoEnd(s, RemoveTerminal(k)).value, k)
      && !Windowed(DoEnd(s, RemoveTerminal(k)).value.attempts[k])
  {}

  // ----- the steps that are not one worker's own -----

  lemma BeginMoves(s: State, a: Action)
    requires DoBegin(s, a).Some? && !a.RowFailed? && Local(s, a.k)
    ensures WorkerStep(s, DoBegin(s, a).value, a.k)
    ensures Windowed(DoBegin(s, a).value.attempts[a.k]) ==> a.Compare? || a.Clear?
  {
    match a {
      case RowQueued(k) => RowQueuedStep(s, k);
      case Start(k) => StartStep(s, k);
    }
  }

  lemma SaveMoves(s: State, a: Action)
    requires DoSave(s, a).Some? && Local(s, a.k)
    ensures WorkerStep(s, DoSave(s, a).value, a.k)
    ensures Windowed(DoSave(s, a).value.attempts[a.k]) ==> a.Compare? || a.Clear?
  {
    match a {
      case ReadTarget(k, draft) => ReadTargetStep(s, k, draft);
      case WriteJournal(k) => WriteJournalStep(s, k);
      case TakeGate(k) => TakeGateStep(s, k);
    }
  }

  lemma GateMoves(s: State, a: Action)
    requires DoGate(s, a).Some? && !a.Replace? && Local(s, a.k)
    ensures WorkerStep(s, DoGate(s, a).value, a.k)
    ensures Windowed(DoGate(s, a).value.attempts[a.k]) ==> a.Compare? || a.Clear?
  {
    match a {
      case Compare(k) => CompareStep(s, k);
      case Clear(k) => ClearStep(s, k);
      case Publish(k) => PublishStep(s, k);
      case LeaveGate(k) => LeaveGateStep(s, k);
    }
  }

  lemma FinishMoves(s: State, a: Action)
    requires DoFinish(s, a).Some? && Local(s, a.k)
    ensures WorkerStep(s, DoFinish(s, a).value, a.k)
    ensures Windowed(DoFinish(s, a).value.attempts[a.k]) ==> a.Compare? || a.Clear?
  {
    match a {
      case Retry(k) => RetryStep(s, k);
      case Fail(k) => FailStep(s, k);
      case Commit(k) => CommitStep(s, k);
      case RemoveJournal(k) => RemoveJournalStep(s, k);
      case Trouble(k) => TroubleStep(s, k);
      case GiveUp(k) => GiveUpStep(s, k);
    }
  }

  lemma RecoverRunMoves(s: State, a: Action)
    requires DoRecoverRun(s, a).Some? && Local(s, a.k)
    ensures WorkerStep(s, DoRecoverRun(s, a).value, a.k)
    ensures Windowed(DoRecoverRun(s, a).value.attempts[a.k]) ==> a.Compare? || a.Clear?
  {
    match a {
      case RecoverRead(k) => RecoverReadStep(s, k);
      case RecoverCommit(k) => RecoverCommitStep(s, k);
      case RecoverRemove(k) => RecoverRemoveStep(s, k);
    }
  }

  lemma EndMoves(s: State, a: Action)
    requires DoEnd(s, a).Some? && !a.Deregister? && Local(s, a.k)
    ensures WorkerStep(s, DoEnd(s, a).value, a.k)
    ensures Windowed(DoEnd(s, a).value.attempts[a.k]) ==> a.Compare? || a.Clear?
  {
    match a {
      case WriteTerminal(k, error, written) => WriteTerminalStep(s, k, error, written);
      case StoreTerminal(k, stored) => StoreTerminalStep(s, k, stored);
      case RemoveTerminal(k) => RemoveTerminalStep(s, k);
    }
  }

  /** The steps of one worker that stay registered and replace no file. */
  predicate Own(a: Action) {
    a.RowQueued? || a.Start? || a.ReadTarget? || a.WriteJournal? || a.TakeGate? || a.Compare? || a.Clear? || a.Publish?
    || a.LeaveGate? || a.Retry? || a.Fail? || a.Commit? || a.RemoveJournal? || a.Trouble? || a.GiveUp? || a.RecoverRead?
    || a.RecoverCommit? || a.RecoverRemove? || a.WriteTerminal? || a.StoreTerminal? || a.RemoveTerminal?
  }

  predicate Awake(s: State, a: Action)
    requires Own(a)
  {
    a.k < |s.attempts| && !s.attempts[a.k].phase.Gone?
  }

  lemma EarlyLive(s: State, a: Action)
    requires Own(a) && (DoBegin(s, a).Some? || DoSave(s, a).Some? || DoGate(s, a).Some?)
    ensures Awake(s, a)
  {}

  lemma LateLive(s: State, a: Action)
    requires Own(a) && (DoFinish(s, a).Some? || DoRecoverRun(s, a).Some? || DoEnd(s, a).Some?)
    ensures Awake(s, a)
  {}

  lemma OwnLive(s: State, a: Action)
    requires Own(a) && Next(s, a).Some?
    ensures a.k < |s.attempts| && !s.attempts[a.k].phase.Gone?
  {
    if DoBegin(s, a).Some? || DoSave(s, a).Some? || DoGate(s, a).Some? { EarlyLive(s, a); } else { LateLive(s, a); }
  }

  lemma OwnMoves(s: State, a: Action)
    requires Own(a) && Next(s, a).Some? && Local(s, a.k)
    ensures WorkerStep(s, Next(s, a).value, a.k)
    ensures Windowed(Next(s, a).value.attempts[a.k]) ==> a.Compare? || a.Clear?
  {
    if a.RowQueued? || a.Start? {
      BeginMoves(s, a);
    } else if a.ReadTarget? || a.WriteJournal? || a.TakeGate? {
      SaveMoves(s, a);
    } else if a.Compare? || a.Clear? || a.Publish? || a.LeaveGate? {
      GateMoves(s, a);
    } else if a.RecoverRead? || a.RecoverCommit? || a.RecoverRemove? {
      RecoverRunMoves(s, a);
    } else if a.WriteTerminal? || a.StoreTerminal? || a.RemoveTerminal? {
      EndMoves(s, a);
    } else {
      FinishMoves(s, a);
    }
  }

  lemma OwnKeeps(s: State, a: Action)
    requires Inv(s) && Own(a) && Next(s, a).Some?
    ensures Inv(Next(s, a).value)
  {
    OwnLive(s, a);
    Here(s, a.k);
    OwnMoves(s, a);
    WorkerFrame(s, Next(s, a).value, a.k);
  }

  // ----- frames: every attempt keeps its place, only tokens and disturbance marks change -----

  ghost predicate Alike(s: State, t: State) {
    && |s.attempts| == |t.attempts|
    && (forall i :: 0 <= i < |s.attempts| ==> AlikeAt(s.attempts[i], t.attempts[i]))
    && t.controls == s.controls && t.requests == s.requests && t.registry == s.registry && t.latest == s.latest
    && t.acked == s.acked && t.sweep == s.sweep && t.sighted == s.sighted && t.publications == s.publications
    && t.rows == s.rows && t.terminal == s.terminal && t.artifacts == s.artifacts
  }

  predicate AlikeAt(a: Attempt, b: Attempt) {
    && b == a.(signalled := b.signalled, disturbed := b.disturbed)
    && (a.signalled ==> b.signalled)
  }

  lemma RegistryAlike(s: State, t: State)
    requires RegistryOk(s) && OutputsDistinct(s) && Alike(s, t)
    ensures RegistryOk(t) && OutputsDistinct(t)
  {
    assert RegistryOk(t);
  }

  lemma GatesAlike(s: State, t: State)
    requires GatesOk(s) && LockOk(s) && WroteOk(s) && Alike(s, t)
    ensures GatesOk(t) && LockOk(t) && WroteOk(t)
  {
    assert GatesOk(t);
  }

  lemma LocksAlike(s: State, t: State)
    requires LocksOk(s) && Alike(s, t)
    ensures LocksOk(t)
  {
    RegistryAlike(s, t);
    GatesAlike(s, t);
  }

  lemma DataAlike(s: State, t: State)
    requires AttemptsOk(s) && AckedOk(s) && Alike(s, t)
    ensures AttemptsOk(t) && AckedOk(t)
  {}

  lemma TerminalsAlike(s: State, t: State)
    requires RegistryOk(s) && LatestOk(s) && TerminalsOk(s) && Alike(s, t) && RegistryOk(t)
    ensures LatestOk(t) && TerminalsOk(t)
  {
    forall r | r in t.controls && r in t.terminal ensures TerminalOk(t, t.terminal[r], t.controls[r]) {
      assert TerminalOk(s, s.terminal[r], s.controls[r]);
    }
  }

  lemma JournalsAlike(s: State, t: State)
    requires JournalsOk(s) && Durable(s) && CompletedOk(s) && SweepOk(s) && Alike(s, t)
    ensures JournalsOk(t) && Durable(t) && CompletedOk(t) && SweepOk(t)
  {
    forall i | 0 <= i < |t.attempts| ensures JournalAt(t, i) && DurableAt(t, i) {
      assert JournalAt(s, i) && DurableAt(s, i) && AlikeAt(s.attempts[i], t.attempts[i]);
    }
    forall r | r in t.rows ensures RowOk(t, r) { assert RowOk(s, r); }
    forall p | p in t.artifacts ensures Witnessed(t, p) {
      assert Witnessed(s, p);
      if p.author < |s.attempts| { assert AlikeAt(s.attempts[p.author], t.attempts[p.author]); }
    }
  }

  lemma AlikeFrame(s: State, t: State)
    requires Inv(s) && Alike(s, t) && WindowsOk(t)
    ensures Inv(t)
  {
    LocksAlike(s, t);
    DataAlike(s, t);
    TerminalsAlike(s, t);
    JournalsAlike(s, t);
  }

  lemma EditKeeps(s: State, path: string, content: Option<string>)
    requires Inv(s)
    ensures Inv(Edited(s, path, content))
  {
    EditAlike(s, path, content);
    EditWindows(s, path, content);
    AlikeFrame(s, Edited(s, path, content));
  }

  lemma EditAlike(s: State, path: string, content: Option<string>)
    ensures Alike(s, Edited(s, path, content))
  {}

  lemma EditWindows(s: State, path: string, content: Option<string>)
    requires WindowsOk(s)
    ensures WindowsOk(Edited(s, path, content))
  {}

  lemma StopAllAlike(s: State)
    requires WindowsOk(s) && DoWorld(s, StopAll).Some?
    ensures Alike(s, DoWorld(s, StopAll).value) && WindowsOk(DoWorld(s, StopAll).value)
  {
    var t := DoWorld(s, StopAll).value;
    assert forall i :: 0 <= i < |s.attempts| ==>
      (WindowOk(s.attempts[i], s.files) ==> WindowOk(t.attempts[i], t.files));
  }

  lemma StopAllKeeps(s: State)
    requires Inv(s) && DoWorld(s, StopAll).Some?
    ensures Inv(DoWorld(s, StopAll).value)
  {
    StopAllAlike(s);
    AlikeFrame(s, DoWorld(s, StopAll).value);
  }

  /** Replacing the file is an edit of it followed by the worker's own bookkeeping. */
  lemma ReplaceKeeps(s: State, k: nat)
    requires Inv(s) && DoGate(s, Replace(k)).Some?
    ensures Inv(DoGate(s, Replace(k)).value)
  {
    Here(s, k);
    var p := s.attempts[k].phase.p;
    var e, t := Edited(s, p.path, Some(p.content)), DoGate(s, Replace(k)).value;
    EditedHere(s, k, p);
    ReplaceIs(s, k, p);
    ReplacedMoves(s, e, t, k, p);
    ReplacedData(s, e, t, k, p);
    ReplacedJournal(s, e, t, k, p);
    WorkerFrame(e, t, k);
  }

  lemma EditedHere(s: State, k: nat, p: Publication)
    requires Inv(s) && k < |s.attempts| && !s.attempts[k].phase.Gone?
    ensures var e := Edited(s, p.path, Some(p.content)); Inv(e) && Local(e, k)
  {
    EditKeeps(s, p.path, Some(p.content));
    Here(Edited(s, p.path, Some(p.content)), k);
  }

  /** `t` is `e` with the file's replacement recorded by attempt `k` of `s`. */
  predicate Records(s: State, e: State, t: State, k: nat, p: Publication) {
    && k < |s.attempts| == |e.attempts| && s.attempts[k].phase.Cleared? && s.attempts[k].phase.p == p
    && e.attempts[k] == Touched(s.attempts[k], p.path)
    && t == With(e, k, s.attempts[k].(phase := Replaced(p), output := Some(p), replaced := Lookup(s.files, p.path)))
  }

  lemma ReplaceIs(s: State, k: nat, p: Publication)
    requires DoGate(s, Replace(k)).Some? && s.attempts[k].phase.p == p
    ensures Records(s, Edited(s, p.path, Some(p.content)), DoGate(s, Replace(k)).value, k, p)
  {}

  lemma ReplacedMoves(s: State, e: State, t: State, k: nat, p: Publication)
    requires Records(s, e, t, k, p) && Local(s, k) && Local(e, k)
    ensures Moves(e, t, k) && LocksMove(e, t, k)
  {}

  lemma ReplacedData(s: State, e: State, t: State, k: nat, p: Publication)
    requires Records(s, e, t, k, p) && Local(s, k) && Local(e, k) && Moves(e, t, k)
    ensures DataMove(e, t, k) && TerminalMove(e, t, k)
  {}

  lemma ReplacedJournal(s: State, e: State, t: State, k: nat, p: Publication)
    requires Records(s, e, t, k, p) && Local(s, k) && Local(e, k) && Moves(e, t, k)
    ensures JournalMove(e, t, k)
  {
    assert OnDisk(e, p);
  }

  // ----- frames: an attempt leaves the registry -----

  ghost predicate Leaves(s: State, t: State, k: nat) {
    && k < |s.attempts| && (s.attempts[k].phase.Registering? || s.attempts[k].phase.Finished?)
    && s.registry.None?
    && t == With(s, k, s.attempts[k].(phase := Gone)).(controls := s.controls - {s.attempts[k].run})
  }

  lemma RegistryLeave(s: State, t: State, k: nat)
    requires RegistryOk(s) && Leaves(s, t, k)
    ensures RegistryOk(t)
  {}

  lemma OutputsLeave(s: State, t: State, k: nat)
    requires RegistryOk(s) && OutputsDistinct(s) && Leaves(s, t, k) && RegistryOk(t)
    ensures OutputsDistinct(t)
  {
    FewerKeys(s.controls, s.attempts[k].run);
  }

  lemma FewerKeys(m: map<string, nat>, r: string)
    ensures |m - {r}| <= |m|
  {
    var n := m - {r};
    assert n.Keys <= m.Keys;
    assert m.Keys == n.Keys + (m.Keys - n.Keys);
    assert |n| == |n.Keys| && |m| == |m.Keys|;
  }

  lemma LocksLeave(s: State, t: State, k: nat)
    requires LocksOk(s) && Leaves(s, t, k)
    ensures LocksOk(t)
  {
    RegistryLeave(s, t, k);
    OutputsLeave(s, t, k);
    GatesLeave(s, t, k);
  }

  lemma GatesLeave(s: State, t: State, k: nat)
    requires GatesOk(s) && LockOk(s) && WroteOk(s) && Leaves(s, t, k)
    ensures GatesOk(t) && LockOk(t) && WroteOk(t)
  {}

  lemma LeaveKeeps(s: State, t: State, k: nat)
    requires Inv(s) && Leaves(s, t, k)
    ensures Inv(t)
  {
    LocksLeave(s, t, k);
    DataLeave(s, t, k);
    RecordsLeave(s, t, k);
    DurableLeave(s, t, k);
  }

  lemma DataLeave(s: State, t: State, k: nat)
    requires AttemptsOk(s) && AckedOk(s) && WindowsOk(s) && Leaves(s, t, k)
    ensures AttemptsOk(t) && AckedOk(t) && WindowsOk(t)
  {}

  lemma RecordsLeave(s: State, t: State, k: nat)
    requires RegistryOk(s) && LatestOk(s) && TerminalsOk(s) && SweepOk(s) && Leaves(s, t, k) && RegistryOk(t)
    ensures LatestOk(t) && TerminalsOk(t) && SweepOk(t)
  {
    forall r | r in t.controls && r in t.terminal ensures TerminalOk(t, t.terminal[r], t.controls[r]) {
      assert TerminalOk(s, s.terminal[r], s.controls[r]);
    }
  }

  lemma DurableLeave(s: State, t: State, k: nat)
    requires JournalsOk(s) && Durable(s) && CompletedOk(s) && Leaves(s, t, k)
    ensures JournalsOk(t) && Durable(t) && CompletedOk(t)
  {
    forall i | 0 <= i < |t.attempts| ensures JournalAt(t, i) && DurableAt(t, i) {
      assert JournalAt(s, i) && DurableAt(s, i);
    }
    forall r | r in t.rows ensures RowOk(t, r) { assert RowOk(s, r); }
    forall p | p in t.artifacts ensures Witnessed(t, p) { assert Witnessed(s, p); }
  }

  // ----- crash -----

  lemma CrashKeeps(s: State)
    requires Inv(s)
    ensures Inv(DoWorld(s, Crash).value)
  {
    CrashLocks(s);
    CrashData(s);
    CrashRecords(s);
  }

  lemma CrashLocks(s: State)
    requires RegistryOk(s)
    ensures LocksOk(DoWorld(s, Crash).value)
  {}

  lemma CrashData(s: State)
    requires AttemptsOk(s) && AckedOk(s) && WindowsOk(s)
    ensures var t := DoWorld(s, Crash).value; AttemptsOk(t) && AckedOk(t) && WindowsOk(t)
  {}

  lemma CrashRecords(s: State)
    requires LatestOk(s) && JournalsOk(s) && Durable(s) && CompletedOk(s)
    ensures var t := DoWorld(s, Crash).value; LatestOk(t) && JournalsOk(t) && Durable(t) && CompletedOk(t)
  {
    var t := DoWorld(s, Crash).value;
    forall i | 0 <= i < |t.attempts| ensures JournalAt(t, i) && DurableAt(t, i) {
      assert JournalAt(s, i) && DurableAt(s, i);
    }
    forall r | r in t.rows ensures RowOk(t, r) { assert RowOk(s, r); }
    forall p | p in t.artifacts ensures Witnessed(t, p) { assert Witnessed(s, p); }
  }

  // ----- registration -----

  lemma EnqueueRegistry(s: State, run: string, target: string, original: Option<string>)
    requires RegistryOk(s) && DoEnqueue(s, run, target, original).Some?
    ensures RegistryOk(DoEnqueue(s, run, target, original).value)
  {}

  lemma EnqueueOutputs(s: State, run: string, target: string, original: Option<string>)
    requires RegistryOk(s) && OutputsDistinct(s) && DoEnqueue(s, run, target, original).Some?
    requires RegistryOk(DoEnqueue(s, run, target, original).value)
    ensures OutputsDistinct(DoEnqueue(s, run, target, original).value)
  {
    var t := DoEnqueue(s, run, target, original).value;
    forall r | r in s.controls ensures s.attempts[s.controls[r]].target != target {
      assert !Active(s, target);
    }
  }

  lemma EnqueueGates(s: State, run: string, target: string, original: Option<string>)
    requires Inv(s) && DoEnqueue(s, run, target, original).Some?
    ensures GatesOk(DoEnqueue(s, run, target, original).value)
    ensures LockOk(DoEnqueue(s, run, target, original).value)
    ensures WroteOk(DoEnqueue(s, run, target, original).value)
  {}

  lemma EnqueueData(s: State, run: string, target: string, original: Option<string>)
    requires AttemptsOk(s) && AckedOk(s) && WindowsOk(s) && DoEnqueue(s, run, target, original).Some?
    ensures var t := DoEnqueue(s, run, target, original).value; AttemptsOk(t) && AckedOk(t) && WindowsOk(t)
  {}

  lemma EnqueueLatest(s: State, run: string, target: string, original: Option<string>)
    requires RegistryOk(s) && LatestOk(s) && SweepOk(s) && DoEnqueue(s, run, target, original).Some?
    ensures LatestOk(DoEnqueue(s, run, target, original).value) && SweepOk(DoEnqueue(s, run, target, original).value)
  {}

  lemma EnqueueTerminals(s: State, run: string, target: string, original: Option<string>)
    requires RegistryOk(s) && LatestOk(s) && TerminalsOk(s) && DoEnqueue(s, run, target, original).Some?
    requires RegistryOk(DoEnqueue(s, run, target, original).value)
    ensures TerminalsOk(DoEnqueue(s, run, target, original).value)
  {
    var t := DoEnqueue(s, run, target, original).value;
    forall r | r in t.controls && r in t.terminal ensures TerminalOk(t, t.terminal[r], t.controls[r]) {
      assert r != run && TerminalOk(s, s.terminal[r], s.controls[r]);
    }
  }

  lemma EnqueueDurable(s: State, run: string, target: string, original: Option<string>)
    requires Inv(s) && DoEnqueue(s, run, target, original).Some?
    ensures var t := DoEnqueue(s, run, target, original).value; JournalsOk(t) && Durable(t) && CompletedOk(t)
  {
    var t := DoEnqueue(s, run, target, original).value;
    forall i | 0 <= i < |t.attempts| ensures JournalAt(t, i) && DurableAt(t, i) {
      if i < |s.attempts| { assert JournalAt(s, i) && DurableAt(s, i); }
    }
    forall r | r in t.rows ensures RowOk(t, r) { assert RowOk(s, r); }
    forall p | p in t.artifacts ensures Witnessed(t, p) { assert Witnessed(s, p); }
  }

  // ----- frames: a step of one cancellation request -----

  predicate Deep(q: Option<Request>) {
    q.Some? && (q.value.HasBoth? || q.value.Wrote?)
  }

  /** Request `c` acts on attempt `k`: its gate, its token, and the request itself. */
  ghost predicate Asks(s: State, t: State, c: nat, k: nat) {
    && k < |s.attempts| == |t.attempts|
    && t.attempts == s.attempts[k := s.attempts[k].(gate := t.attempts[k].gate, signalled := t.attempts[k].signalled)]
    && (s.attempts[k].signalled ==> t.attempts[k].signalled)
    && (forall d :: d != c ==> Lookup(t.requests, d) == Lookup(s.requests, d))
    && t.controls == s.controls && t.latest == s.latest && t.sweep == s.sweep && t.files == s.files
    && t.publications == s.publications && t.rows == s.rows && t.artifacts == s.artifacts && t.sighted == s.sighted
  }

  ghost predicate AskLocks(s: State, t: State, c: nat, k: nat)
    requires Asks(s, t, c, k)
  {
    var a, b, before, after := s.attempts[k], t.attempts[k], Lookup(s.requests, c), Lookup(t.requests, c);
    && (b.gate.Worker? <==> Behind(b.phase))
    && (b.gate != a.gate ==> (a.gate.Free? || a.gate == Canceller(c)) && (b.gate.Free? || b.gate == Canceller(c)))
    && (before.Some? && Holds(before.value) ==> before.value.k == k)
    && (after.Some? ==> after.value.k == k)
    && (b.gate == Canceller(c) <==> after.Some? && Holds(after.value))
    && t.registry == (if Deep(after) then Some(c) else if Deep(before) then None else s.registry)
    && (Deep(after) ==> s.registry == None || s.registry == Some(c))
    && (after == Some(Wrote(k)) ==> Lookup(s.controls, a.run) == Some(k) && !a.published && a.output.None?)
  }

  lemma AskLocksFrame(s: State, t: State, c: nat, k: nat)
    requires LocksOk(s) && Asks(s, t, c, k) && AskLocks(s, t, c, k)
    ensures LocksOk(t)
  {
    AskRegistryFrame(s, t, c, k);
    AskGatesFrame(s, t, c, k);
    AskWroteFrame(s, t, c, k);
  }

  lemma AskRegistryFrame(s: State, t: State, c: nat, k: nat)
    requires RegistryOk(s) && OutputsDistinct(s) && Asks(s, t, c, k)
    ensures RegistryOk(t) && OutputsDistinct(t)
  {
    assert RegistryOk(t);
  }

  lemma AskWroteFrame(s: State, t: State, c: nat, k: nat)
    requires GatesOk(s) && WroteOk(s) && Asks(s, t, c, k) && AskLocks(s, t, c, k) && GatesOk(t)
    ensures WroteOk(t)
  {
    forall d | d in t.requests && t.requests[d].Wrote?
      ensures var j := t.requests[d].k;
        Lookup(t.controls, t.attempts[j].run) == Some(j) && !t.attempts[j].published && t.attempts[j].output.None?
    {
      if d != c { assert Lookup(t.requests, d) == Lookup(s.requests, d); }
    }
  }

  lemma AskGatesFrame(s: State, t: State, c: nat, k: nat)
    requires GatesOk(s) && LockOk(s) && Asks(s, t, c, k) && AskLocks(s, t, c, k)
    ensures GatesOk(t) && LockOk(t)
  {
    forall d | d in t.requests
      ensures t.requests[d].k < |t.attempts|
      ensures Holds(t.requests[d]) ==> t.attempts[t.requests[d].k].gate == Canceller(d)
      ensures Deep(Some(t.requests[d])) ==> t.registry == Some(d)
    {
      if d != c { assert Lookup(t.requests, d) == Lookup(s.requests, d); }
    }
    forall i | 0 <= i < |t.attempts|
      ensures t.attempts[i].gate.Worker? <==> Behind(t.attempts[i].phase)
      ensures t.attempts[i].gate.Canceller? ==>
        var d := t.attempts[i].gate.c; d in t.requests && Holds(t.requests[d]) && t.requests[d].k == i
    {
      if t.attempts[i].gate.Canceller? {
        var d := t.attempts[i].gate.c;
        if d != c { assert Lookup(t.requests, d) == Lookup(s.requests, d); }
      }
    }
    if t.registry.Some? {
      var d := t.registry.value;
      if d != c { assert Lookup(t.requests, d) == Lookup(s.requests, d); }
    }
  }

  ghost predicate AskRecords(s: State, t: State, c: nat, k: nat)
    requires Asks(s, t, c, k)
  {
    var run := s.attempts[k].run;
    && (t.acked == s.acked || (t.acked == s.acked + {k} && Stopping(t.attempts[k])))
    && (InHand(s, k) ==> InHand(t, k) || t.attempts[k].signalled)
    && (t.terminal == s.terminal
        || (t.terminal == s.terminal[run := Terminal(Cancelled, k)] && Lookup(s.controls, run) == Some(k)
          && InHand(t, k)))
  }

  lemma AskAckedFrame(s: State, t: State, c: nat, k: nat)
    requires AckedOk(s) && SweepOk(s) && Asks(s, t, c, k) && AskRecords(s, t, c, k)
    ensures AckedOk(t) && SweepOk(t)
  {}

  lemma AskLatestFrame(s: State, t: State, c: nat, k: nat)
    requires LatestOk(s) && Asks(s, t, c, k) && AskRecords(s, t, c, k)
    ensures LatestOk(t)
  {}

  /** The request that faces another attempt keeps it in hand. */
  lemma StaysInHand(s: State, t: State, c: nat, k: nat, j: nat)
    requires LockOk(s) && Asks(s, t, c, k) && AskLocks(s, t, c, k) && j != k && InHand(s, j)
    ensures InHand(t, j)
  {
    var d := s.registry.value;
    assert Lookup(t.requests, d) == Lookup(s.requests, d);
  }

  lemma AskTerminalsFrame(s: State, t: State, c: nat, k: nat)
    requires RegistryOk(s) && LockOk(s) && TerminalsOk(s) && RegistryOk(t)
    requires Asks(s, t, c, k) && AskLocks(s, t, c, k) && AskRecords(s, t, c, k)
    ensures TerminalsOk(t)
  {
    forall r | r in t.controls && r in t.terminal ensures TerminalOk(t, t.terminal[r], t.controls[r]) {
      if Lookup(t.terminal, r) == Lookup(s.terminal, r) {
        assert TerminalOk(s, s.terminal[r], s.controls[r]);
        if s.controls[r] != k && InHand(s, s.controls[r]) { StaysInHand(s, t, c, k, s.controls[r]); }
      }
    }
  }

  lemma AskDataFrame(s: State, t: State, c: nat, k: nat)
    requires AttemptsOk(s) && WindowsOk(s) && JournalsOk(s) && Durable(s) && CompletedOk(s) && Asks(s, t, c, k)
    ensures AttemptsOk(t) && WindowsOk(t) && JournalsOk(t) && Durable(t) && CompletedOk(t)
  {
    forall i | 0 <= i < |t.attempts|
      ensures JournalAt(t, i) && DurableAt(t, i) && AttemptOk(t.attempts[i], i) && WindowOk(t.attempts[i], t.files)
    {
      assert JournalAt(s, i) && DurableAt(s, i) && AttemptOk(s.attempts[i], i) && WindowOk(s.attempts[i], s.files);
    }
    forall r | r in t.rows ensures RowOk(t, r) { assert RowOk(s, r); }
    forall p | p in t.artifacts ensures Witnessed(t, p) { assert Witnessed(s, p); }
  }

  ghost predicate AskStep(s: State, t: State, c: nat, k: nat) {
    Asks(s, t, c, k) && AskLocks(s, t, c, k) && AskRecords(s, t, c, k)
  }

  lemma AskFrame(s: State, t: State, c: nat, k: nat)
    requires Inv(s) && AskStep(s, t, c, k)
    ensures Inv(t)
  {
    AskLocksFrame(s, t, c, k);
    AskDataFrame(s, t, c, k);
    AskAckedFrame(s, t, c, k);
    AskLatestFrame(s, t, c, k);
    AskTerminalsFrame(s, t, c, k);
  }

  /** What the invariant says about request `c` and the attempt it faces. */
  ghost predicate AskLocal(s: State, c: nat) {
    && c in s.requests && s.requests[c].k < |s.attempts|
    && var q, a := s.requests[c], s.attempts[s.requests[c].k];
    && AttemptOk(a, q.k)
    && (a.gate.Worker? <==> Behind(a.phase))
    && (Holds(q) <==> a.gate == Canceller(c))
    && (Deep(Some(q)) <==> s.registry == Some(c))
    && (q.Wrote? ==> Lookup(s.controls, a.run) == Some(q.k) && !a.published && a.output.None?)
    && (Lookup(s.controls, a.run) == Some(q.k) ==> !a.phase.Gone?)
  }

  lemma AskHere(s: State, c: nat)
    requires Inv(s) && c in s.requests
    ensures AskLocal(s, c)
  {}

  lemma RequestGateStep(s: State, c: nat)
    requires DoRequest(s, RequestGate(c)).Some? && AskLocal(s, c)
    ensures AskStep(s, DoRequest(s, RequestGate(c)).value, c, s.requests[c].k)
  {}

  lemma RequestRegistryStep(s: State, c: nat)
    requires DoRequest(s, RequestRegistry(c)).Some? && AskLocal(s, c)
    ensures AskStep(s, DoRequest(s, RequestRegistry(c)).value, c, s.requests[c].k)
  {}

  lemma RequestRefusedStep(s: State, c: nat)
    requires DoRequest(s, RequestRefused(c)).Some? && AskLocal(s, c)
    ensures AskStep(s, DoRequest(s, RequestRefused(c)).value, c, s.requests[c].k)
  {}

  lemma RequestRepeatedStep(s: State, c: nat)
    requires DoRequest(s, RequestRepeated(c)).Some? && AskLocal(s, c)
    ensures AskStep(s, DoRequest(s, RequestRepeated(c)).value, c, s.requests[c].k)
  {}

  lemma RequestJournalStep(s: State, c: nat)
    requires DoRequest(s, RequestJournal(c)).Some? && AskLocal(s, c)
    ensures AskStep(s, DoRequest(s, RequestJournal(c)).value, c, s.requests[c].k)
  {}

  lemma RequestSignalStep(s: State, c: nat)
    requires DoRequest(s, RequestSignal(c)).Some? && AskLocal(s, c)
    ensures AskStep(s, DoRequest(s, RequestSignal(c)).value, c, s.requests[c].k)
  {}

  lemma RequestDroppedStep(s: State, c: nat)
    requires DoRequest(s, RequestDropped(c)).Some? && AskLocal(s, c)
    ensures AskStep(s, DoRequest(s, RequestDropped(c)).value, c, s.requests[c].k)
  {}

  lemma RequestStep(s: State, c: nat, run: string)
    requires DoRequest(s, Request(c, run)).Some? && s.controls[run] < |s.attempts|
    requires (s.attempts[s.controls[run]].gate.Worker? <==> Behind(s.attempts[s.controls[run]].phase))
      && s.attempts[s.controls[run]].gate != Canceller(c)
    ensures AskStep(s, DoRequest(s, Request(c, run)).value, c, s.controls[run])
  {}

  lemma RequestKeeps(s: State, c: nat, run: string)
    requires Inv(s) && DoRequest(s, Request(c, run)).Some?
    ensures Inv(DoRequest(s, Request(c, run)).value)
  {
    var k := s.controls[run];
    assert s.attempts[k].gate.Worker? <==> Behind(s.attempts[k].phase);
    assert s.attempts[k].gate != Canceller(c);
    RequestStep(s, c, run);
    AskFrame(s, DoRequest(s, Request(c, run)).value, c, k);
  }

  predicate Asking(a: Action) {
    a.RequestGate? || a.RequestRegistry? || a.RequestRefused? || a.RequestRepeated? || a.RequestJournal?
    || a.RequestSignal? || a.RequestDropped?
  }

  lemma AskMoves(s: State, a: Action)
    requires Asking(a) && DoRequest(s, a).Some? && AskLocal(s, a.c)
    ensures AskStep(s, DoRequest(s, a).value, a.c, s.requests[a.c].k)
  {
    match a {
      case RequestGate(c) => RequestGateStep(s, c);
      case RequestRegistry(c) => RequestRegistryStep(s, c);
      case RequestRefused(c) => RequestRefusedStep(s, c);
      case RequestRepeated(c) => RequestRepeatedStep(s, c);
      case RequestJournal(c) => RequestJournalStep(s, c);
      case RequestSignal(c) => RequestSignalStep(s, c);
      case RequestDropped(c) => RequestDroppedStep(s, c);
    }
  }

  lemma AskPresent(s: State, a: Action)
    requires Asking(a) && DoRequest(s, a).Some?
    ensures a.c in s.requests
  {}

  lemma AskKeeps(s: State, a: Action)
    requires Inv(s) && Asking(a) && DoRequest(s, a).Some?
    ensures Inv(DoRequest(s, a).value)
  {
    AskPresent(s, a);
    AskHere(s, a.c);
    AskMoves(s, a);
    AskFrame(s, DoRequest(s, a).value, a.c, s.requests[a.c].k);
  }

  // ----- frames: a step of the recovery sweep -----

  ghost predicate Sweeps(s: State, t: State) {
    t == s.(sweep := t.sweep, terminal := t.terminal, publications := t.publications, rows := t.rows,
            artifacts := t.artifacts, sighted := t.sighted)
  }

  lemma SweepLocksFrame(s: State, t: State)
    requires LocksOk(s) && AttemptsOk(s) && AckedOk(s) && WindowsOk(s) && Sweeps(s, t)
    ensures LocksOk(t) && AttemptsOk(t) && AckedOk(t) && WindowsOk(t)
  {
    assert RegistryOk(t);
    assert OutputsDistinct(t);
    assert GatesOk(t);
  }

  /** Records are touched for one run only, never one with a live attempt, and a completed row is
      left alone unless a journalled publication that was seen in place is stored. */
  ghost predicate SweepStep(s: State, t: State, r: string) {
    && Sweeps(s, t)
    && (forall q :: q != r ==>
      Lookup(t.publications, q) == Lookup(s.publications, q) && Lookup(t.rows, q) == Lookup(s.rows, q))
    && t.terminal.Keys <= s.terminal.Keys && (forall q :: q in t.terminal ==> t.terminal[q] == s.terminal[q])
    && s.artifacts <= t.artifacts && s.sighted <= t.sighted
    && SweepOk(t)
    && SweepRow(s, t, r) && SweepJournal(s, t, r)
  }

  ghost predicate SweepRow(s: State, t: State, r: string) {
    || (t.artifacts == s.artifacts && t.rows == s.rows)
    || (t.artifacts == s.artifacts && Lookup(t.rows, r).Some? && !Lookup(t.rows, r).value.Completed?
        && Lookup(s.rows, r).Some? && !Lookup(s.rows, r).value.Completed?)
    || (Lookup(s.publications, r).Some? && t.publications == s.publications
        && var p := Lookup(s.publications, r).value;
           p in s.sighted && p.run == r && s.controls == map[] && t.artifacts == s.artifacts + {p}
             && Lookup(t.rows, r) == Some(Completed(p)))
  }

  ghost predicate SweepJournal(s: State, t: State, r: string) {
    || t.publications == s.publications
    || (Lookup(s.publications, r).Some? && Lookup(s.publications, r).value.run == r
        && Stored(s, Lookup(s.publications, r).value) && t.rows == s.rows && t.artifacts == s.artifacts
        && r !in t.publications && s.controls == map[])
  }

  lemma SweepRecordsFrame(s: State, t: State, r: string)
    requires RegistryOk(s) && LatestOk(s) && TerminalsOk(s) && SweepStep(s, t, r) && RegistryOk(t)
    ensures LatestOk(t) && TerminalsOk(t)
  {
    forall q | q in t.controls && q in t.terminal ensures TerminalOk(t, t.terminal[q], t.controls[q]) {
      assert TerminalOk(s, s.terminal[q], s.controls[q]);
    }
  }

  lemma SweepDurableFrame(s: State, t: State, r: string)
    requires RegistryOk(s) && AttemptsOk(s) && JournalsOk(s) && Durable(s) && SweepStep(s, t, r)
    ensures JournalsOk(t) && Durable(t)
  {
    forall q | q in t.publications ensures t.publications[q].run == q {
      assert Lookup(t.publications, q) == Lookup(s.publications, q) || t.publications == s.publications;
    }
    forall i | 0 <= i < |t.attempts| ensures JournalAt(t, i) && DurableAt(t, i) {
      assert JournalAt(s, i) && DurableAt(s, i) && AttemptOk(s.attempts[i], i);
      assert s.controls == map[] ==> s.attempts[i].phase.Gone?;
      if s.attempts[i].run != r { SameRecords(s, t, s.attempts[i].run); }
    }
  }

  lemma SweepCompletedFrame(s: State, t: State, r: string)
    requires CompletedOk(s) && SweepStep(s, t, r)
    ensures CompletedOk(t)
  {
    forall q | q in t.rows ensures RowOk(t, q) {
      assert q in s.rows ==> RowOk(s, q);
      if q != r { assert Lookup(t.rows, q) == Lookup(s.rows, q); }
    }
    forall p | p in t.artifacts ensures Witnessed(t, p) { assert p in s.artifacts ==> Witnessed(s, p); }
  }

  lemma SweepFrameAll(s: State, t: State, r: string)
    requires Inv(s) && SweepStep(s, t, r)
    ensures Inv(t)
  {
    SweepLocksFrame(s, t);
    SweepRecordsFrame(s, t, r);
    SweepDurableFrame(s, t, r);
    SweepCompletedFrame(s, t, r);
  }

  predicate SweepAction(a: Action) {
    a.ReplayTerminal? || a.DropTerminal? || a.SweepRead? || a.SweepCommit? || a.SweepRemove? || a.SweepMark?
      || a.SweepStop?
  }

  function SweptRun(s: State, a: Action): string {
    if a.ReplayTerminal? || a.SweepRead? || a.SweepMark? then a.run
    else if s.sweep.SweepMatched? || s.sweep.SweepCommitted? then s.sweep.p.run
    else ""
  }

  lemma ReplayTerminalStep(s: State, run: string)
    requires DoSweep(s, ReplayTerminal(run)).Some? && SweepOk(s)
    ensures SweepStep(s, DoSweep(s, ReplayTerminal(run)).value, SweptRun(s, ReplayTerminal(run)))
  {}

  lemma DropTerminalStep(s: State)
    requires DoSweep(s, DropTerminal).Some? && SweepOk(s)
    ensures SweepStep(s, DoSweep(s, DropTerminal).value, SweptRun(s, DropTerminal))
  {}

  lemma SweepCommitStep(s: State)
    requires DoSweep(s, SweepCommit).Some? && SweepOk(s)
    ensures SweepStep(s, DoSweep(s, SweepCommit).value, SweptRun(s, SweepCommit))
  {}

  lemma SweepRemoveStep(s: State)
    requires DoSweep(s, SweepRemove).Some? && SweepOk(s)
    ensures SweepStep(s, DoSweep(s, SweepRemove).value, SweptRun(s, SweepRemove))
  {}

  lemma SweepMarkStep(s: State, run: string, kind: Kind)
    requires DoSweep(s, SweepMark(run, kind)).Some? && SweepOk(s)
    ensures SweepStep(s, DoSweep(s, SweepMark(run, kind)).value, SweptRun(s, SweepMark(run, kind)))
  {}

  lemma SweepStopStep(s: State)
    requires DoSweep(s, SweepStop).Some? && SweepOk(s)
    ensures SweepStep(s, DoSweep(s, SweepStop).value, SweptRun(s, SweepStop))
  {}

  lemma SweepReadStep(s: State, run: string)
    requires DoSweep(s, SweepRead(run)).Some? && SweepOk(s) && s.publications[run].run == run
    ensures SweepStep(s, DoSweep(s, SweepRead(run)).value, run)
  {
    var p := s.publications[run];
    assert OnDisk(s, p);
    if InPlace(s, p) { SweepReadMatch(s, run); } else { SweepReadMiss(s, run); }
  }

  lemma SweepReadMatch(s: State, run: string)
    requires DoSweep(s, SweepRead(run)).Some? && SweepOk(s) && s.publications[run].run == run
      && InPlace(s, s.publications[run])
    ensures SweepStep(s, DoSweep(s, SweepRead(run)).value, run)
  {}

  lemma SweepReadMiss(s: State, run: string)
    requires DoSweep(s, SweepRead(run)).Some? && SweepOk(s) && s.publications[run].run == run
      && !InPlace(s, s.publications[run])
    ensures SweepStep(s, DoSweep(s, SweepRead(run)).value, run)
  {}

  lemma SweepMoves(s: State, a: Action)
    requires SweepAction(a) && DoSweep(s, a).Some? && SweepOk(s)
    requires forall r :: r in s.publications ==> s.publications[r].run == r
    ensures SweepStep(s, DoSweep(s, a).value, SweptRun(s, a))
  {
    match a {
      case ReplayTerminal(run) => ReplayTerminalStep(s, run);
      case DropTerminal => DropTerminalStep(s);
      case SweepRead(run) => SweepReadStep(s, run);
      case SweepCommit => SweepCommitStep(s);
      case SweepRemove => SweepRemoveStep(s);
      case SweepMark(run, kind) => SweepMarkStep(s, run, kind);
      case SweepStop => SweepStopStep(s);
    }
  }

  lemma SweepKeeps(s: State, a: Action)
    requires Inv(s) && SweepAction(a) && DoSweep(s, a).Some?
    ensures Inv(DoSweep(s, a).value)
  {
    SweepMoves(s, a);
    SweepFrameAll(s, DoSweep(s, a).value, SweptRun(s, a));
  }

  lemma EnqueueKeeps(s: State, run: string, target: string, original: Option<string>)
    requires Inv(s) && DoEnqueue(s, run, target, original).Some?
    ensures Inv(DoEnqueue(s, run, target, original).value)
  {
    EnqueueRegistry(s, run, target, original);
    EnqueueOutputs(s, run, target, original);
    EnqueueGates(s, run, target, original);
    EnqueueData(s, run, target, original);
    EnqueueLatest(s, run, target, original);
    EnqueueTerminals(s, run, target, original);
    EnqueueDurable(s, run, target, original);
  }

  lemma DepartKeeps(s: State, a: Action)
    requires Inv(s) && (a.RowFailed? || a.Deregister?) && Next(s, a).Some?
    ensures Inv(Next(s, a).value)
  {
    DepartLeaves(s, a);
    LeaveKeeps(s, Next(s, a).value, a.k);
  }

  lemma DepartLeaves(s: State, a: Action)
    requires (a.RowFailed? || a.Deregister?) && Next(s, a).Some?
    ensures Leaves(s, Next(s, a).value, a.k)
  {}

  lemma ShutdownKeeps(s: State)
    requires Inv(s)
    ensures Inv(s.(shutdown := true))
  {
    AlikeFrame(s, s.(shutdown := true));
  }

  /** Every step of every party keeps the invariant. */
  lemma StepKeeps(s: State, a: Action)
    requires Inv(s) && Next(s, a).Some?
    ensures Inv(Next(s, a).value)
  {
    if Own(a) {
      OwnKeeps(s, a);
    } else if Asking(a) {
      AskKeeps(s, a);
    } else if SweepAction(a) {
      SweepKeeps(s, a);
    } else if a.RowFailed? || a.Deregister? {
      DepartKeeps(s, a);
    } else {
      match a {
        case Enqueue(run, target, original) => EnqueueKeeps(s, run, target, original);
        case Replace(k) => ReplaceKeeps(s, k);
        case Request(c, run) => RequestKeeps(s, c, run);
        case Edit(path, content) => EditKeeps(s, path, content);
        case Shutdown => ShutdownKeeps(s);
        case StopAll => StopAllKeeps(s);
        case Crash => CrashKeeps(s);
      }
    }
  }
}
