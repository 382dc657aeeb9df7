/** What single steps leave on disk and in the database, and what a shutdown and a crash leave of everything. */
module LifecycleRecords {
  import opened Options
  import opened Lifecycle
  import opened LifecycleInvariant
  import opened LifecycleAnswers

  /** Nothing on disk or in the database changes. */
  predicate SameRecords(s: State, t: State) {
    && t.rows == s.rows && t.artifacts == s.artifacts && t.files == s.files && t.terminal == s.terminal
    && t.publications == s.publications
  }

  // ----- the row of a run -----

  /** A registered run waits, then runs. */
  lemma RowFollows(s: State, k: nat) returns (m: State, t: State)
    requires k < |s.attempts| && s.attempts[k].phase.Registering?
    ensures Leads(s, RowQueued(k), m) && m.rows == s.rows[s.attempts[k].run := Waiting]
    ensures Leads(m, Start(k), t) && t.rows == s.rows[s.attempts[k].run := Running]
  {
    m := Next(s, RowQueued(k)).value;
    t := Next(m, Start(k)).value;
  }

  /** If the row cannot be written, the run is no longer registered, and nothing is recorded. */
  lemma RegistrationFails(s: State, k: nat)
    requires k < |s.attempts| && s.attempts[k].phase.Registering?
    ensures Next(s, RowFailed(k)).Some? <==> s.registry.None?
    ensures forall t :: Leads(s, RowFailed(k), t) ==>
      |t.attempts| == |s.attempts| && t.attempts[k].phase.Gone? && s.attempts[k].run !in t.controls && SameRecords(s, t)
  {}

  // ----- the terminal journal -----

  /** A status that cannot be stored leaves its journal for the next sweep; a stored one has it removed. */
  lemma JournalOutlivesFailure(s: State, k: nat, kept: State, stored: State)
    requires k < |s.attempts| && s.attempts[k].phase.TerminalWritten?
    requires Leads(s, StoreTerminal(k, false), kept) && Leads(s, StoreTerminal(k, true), stored)
    ensures SameRecords(s, kept) && |kept.attempts| == |s.attempts| && kept.attempts[k].phase.Finished?
    ensures stored.terminal == s.terminal && |stored.attempts| == |s.attempts|
      && stored.attempts[k].phase.TerminalStored?
  {}

  lemma JournalIsRemoved(s: State, k: nat) returns (t: State)
    requires k < |s.attempts| && s.attempts[k].phase.TerminalStored?
    ensures Leads(s, RemoveTerminal(k), t) && t.terminal == s.terminal - {s.attempts[k].run} && t.rows == s.rows
  {
    t := Next(s, RemoveTerminal(k)).value;
  }

  /** What stopped a worker is a failure, or that it waits for sources or for the outline; cancelling and shutting down
      are no errors of its own. */
  lemma EndsExactly(s: State, k: nat, error: Kind, written: bool)
    ensures Next(s, WriteTerminal(k, error, written)).Some?
            <==> k < |s.attempts| && s.attempts[k].phase.Failing? && error != Cancelled && error != Interrupted
  {}

  /** The journal says what the status will say; if it cannot be written, none is there. */
  lemma JournalSays(s: State, k: nat, error: Kind, written: State, unwritten: State)
    requires k < |s.attempts| && Leads(s, WriteTerminal(k, error, true), written)
    requires Leads(s, WriteTerminal(k, error, false), unwritten)
    ensures SameRecords(s, unwritten) && |written.attempts| == |s.attempts|
    ensures written.attempts[k].phase.TerminalWritten?
    ensures written.terminal == s.terminal[s.attempts[k].run := Terminal(written.attempts[k].phase.kind, k)]
  {}

  // ----- recovery of a single run -----

  /** A run whose document is not in place is recorded as failed, unless it is completed. */
  lemma MissIsRecorded(s: State, k: nat, t: State)
    requires k < |s.attempts| && s.attempts[k].phase.Recovering? && s.attempts[k].run in s.publications
    requires !InPlace(s, s.publications[s.attempts[k].run]) && Leads(s, RecoverRead(k), t)
    ensures s.attempts[k].run in s.rows && !s.rows[s.attempts[k].run].Completed? ==>
      t.rows == s.rows[s.attempts[k].run := Stopped(Failed)]
    ensures s.attempts[k].run !in s.rows || s.rows[s.attempts[k].run].Completed? ==> t.rows == s.rows
    ensures t.publications == s.publications && t.files == s.files && t.sighted == s.sighted
  {}

  lemma SweepFinds(s: State, run: string) returns (t: State)
    requires s.sweep.Resting? && s.controls == map[] && run in s.publications && InPlace(s, s.publications[run])
    ensures Leads(s, SweepRead(run), t) && SameRecords(s, t) && t.sweep == SweepMatched(s.publications[run])
  {
    t := Next(s, SweepRead(run)).value;
  }

  lemma SweepStores(s: State, p: Publication) returns (m: State, t: State)
    requires s.sweep == SweepMatched(p)
    ensures Leads(s, SweepCommit, m) && Leads(m, SweepRemove, t)
    ensures t.rows == s.rows[p.run := Completed(p)] && p in t.artifacts && t.publications == s.publications - {p.run}
    ensures t.files == s.files && t.sweep.Resting?
  {
    m := Next(s, SweepCommit).value;
    t := Next(m, SweepRemove).value;
  }

  /** The sweep completes a run whose document is in place, and removes its journal. */
  lemma SweepCompletes(s: State, run: string) returns (a: State, b: State, t: State)
    requires s.sweep.Resting? && s.controls == map[] && run in s.publications && s.publications[run].run == run
    requires InPlace(s, s.publications[run])
    ensures Leads(s, SweepRead(run), a) && Leads(a, SweepCommit, b) && Leads(b, SweepRemove, t)
    ensures t.rows == s.rows[run := Completed(s.publications[run])] && s.publications[run] in t.artifacts
    ensures t.publications == s.publications - {run} && t.files == s.files && t.sweep.Resting?
  {
    a := SweepFinds(s, run);
    b, t := SweepStores(a, s.publications[run]);
  }

  /** A run whose document is not in place is recorded as failed by the sweep, unless it is completed. */
  lemma SweepFails(s: State, run: string) returns (t: State)
    requires s.sweep.Resting? && s.controls == map[] && run in s.publications && s.publications[run].run == run
    requires !InPlace(s, s.publications[run])
    ensures Leads(s, SweepRead(run), t)
    ensures t.rows
         == if run in s.rows && !s.rows[run].Completed? then s.rows[run := Stopped(Failed)] else s.rows
    ensures t.files == s.files && t.sweep.Resting?
  {
    t := Next(s, SweepRead(run)).value;
  }

  /** A run that is not active can be marked with a status by the sweep, unless it is completed. */
  lemma MarksExactly(s: State, run: string, kind: Kind)
    ensures Next(s, SweepMark(run, kind)).Some? <==> s.sweep.Resting? && run !in s.controls
    ensures forall t :: Leads(s, SweepMark(run, kind), t) ==>
      t == s.(rows := if run in s.rows && !s.rows[run].Completed? then s.rows[run := Stopped(kind)] else s.rows)
  {}

  /** The sweep can stop wherever it is, and leaves what it found. */
  lemma SweepStopsAnywhere(s: State)
    ensures Next(s, SweepStop).Some? <==> !s.sweep.Resting?
    ensures forall t :: Leads(s, SweepStop, t) ==> t == s.(sweep := Resting)
  {}

  // ----- requests that go away -----

  /** A request may go away while it waits for a lock. */
  lemma DropsExactly(s: State, c: nat)
    requires AskLocal(s, c)
    ensures Next(s, RequestDropped(c)).Some? <==> s.requests[c].Captured? || s.requests[c].HasGate?
  {}

  /** It lets go of the gate if it holds it, and leaves the attempt as it is. */
  lemma DroppedRequestLetsGo(s: State, c: nat, k: nat) returns (t: State)
    requires c in s.requests && s.requests[c] == HasGate(k) && k < |s.attempts|
    ensures Leads(s, RequestDropped(c), t) && SameRecords(s, t) && t.requests == s.requests - {c} && t.acked == s.acked
    ensures t.attempts == s.attempts[k := s.attempts[k].(gate := Free)]
  {
    t := Next(s, RequestDropped(c)).value;
  }

  lemma WaitingRequestGoesAway(s: State, c: nat, k: nat) returns (t: State)
    requires c in s.requests && s.requests[c] == Captured(k) && k < |s.attempts|
    ensures Leads(s, RequestDropped(c), t) && t == s.(requests := s.requests - {c})
  {
    t := Next(s, RequestDropped(c)).value;
  }

  // ----- shutdown and crash -----

  lemma StopsAllExactly(s: State)
    ensures Next(s, StopAll).Some? <==> s.shutdown && s.registry.None?
  {}

  /** Once a shutdown is asked for, every attempt that is still going on gets its token set as soon as the registry is
      free; nothing else changes. */
  lemma ShutdownReachesAll(s: State) returns (m: State, t: State)
    requires s.registry.None?
    ensures Leads(s, Shutdown, m) && m == s.(shutdown := true)
    ensures Leads(m, StopAll, t) && t == m.(attempts := t.attempts) && |t.attempts| == |s.attempts|
    ensures forall k :: 0 <= k < |s.attempts| ==>
      t.attempts[k] == if s.attempts[k].phase.Gone? then s.attempts[k] else s.attempts[k].(signalled := true)
  {
    m := Next(s, Shutdown).value;
    t := Next(m, StopAll).value;
  }

  /** A crash takes everything in memory and nothing else: files, journals and the database stay, no attempt, lock or
      request does. */
  lemma CrashKeepsDisk(s: State) returns (t: State)
    ensures Leads(s, Crash, t) && SameRecords(s, t)
    ensures t.controls == map[] && t.registry.None? && t.requests == map[] && t.sweep.Resting? && !t.shutdown
    ensures |t.attempts| == |s.attempts| && t.latest == s.latest
    ensures forall k :: 0 <= k < |s.attempts| ==>
      t.attempts[k].phase.Gone? && t.attempts[k].output == s.attempts[k].output
      && t.attempts[k].published == s.attempts[k].published
  {
    t := Next(s, Crash).value;
  }
}
