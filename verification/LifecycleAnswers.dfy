/** What is not refused: registering, cancelling and publishing go through whenever nothing stands against it.
    The lemmas return the states that the steps lead through. */
module LifecycleAnswers {
  import opened Options
  import opened Lifecycle
  import opened LifecycleInvariant
  import opened LifecycleTheorems
  import opened LifecycleWindow

  /** The step `a` is enabled in `s` and leads to `t`. */
  predicate Leads(s: State, a: Action, t: State) {
    Next(s, a) == Some(t)
  }

  // ----- the answer to a request that holds both guards -----

  /** The attempt is no longer the active one of its run, or has published. */
  predicate TooLate(s: State, k: nat)
    requires k < |s.attempts|
  {
    !(s.attempts[k].run in s.controls && s.controls[s.attempts[k].run] == k) || s.attempts[k].published
  }

  lemma RefusedExactly(s: State, c: nat)
    requires AskLocal(s, c) && s.requests[c].HasBoth?
    ensures Next(s, RequestRefused(c)).Some? <==> TooLate(s, s.requests[c].k)
  {}

  lemma RepeatedExactly(s: State, c: nat)
    requires AskLocal(s, c) && s.requests[c].HasBoth?
    ensures Next(s, RequestRepeated(c)).Some?
            <==> !TooLate(s, s.requests[c].k) && s.attempts[s.requests[c].k].signalled
  {}

  lemma JournalExactly(s: State, c: nat)
    requires AskLocal(s, c) && s.requests[c].HasBoth?
    ensures Next(s, RequestJournal(c)).Some?
            <==> !TooLate(s, s.requests[c].k) && !s.attempts[s.requests[c].k].signalled
  {}

  /** A request that holds both guards is refused exactly if it comes too late; otherwise it is told that the
      attempt is being cancelled, at once if the token is set, and after writing its journal if not. */
  lemma AnswerIsDetermined(s: State, c: nat)
    requires Reachable(s) && c in s.requests && s.requests[c].HasBoth?
    ensures s.requests[c].k < |s.attempts|
    ensures Next(s, RequestRefused(c)).Some? <==> TooLate(s, s.requests[c].k)
    ensures Next(s, RequestRepeated(c)).Some?
            <==> !TooLate(s, s.requests[c].k) && s.attempts[s.requests[c].k].signalled
    ensures Next(s, RequestJournal(c)).Some?
            <==> !TooLate(s, s.requests[c].k) && !s.attempts[s.requests[c].k].signalled
  {
    ReachableAsk(s, c);
    RefusedExactly(s, c);
    RepeatedExactly(s, c);
    JournalExactly(s, c);
  }

  /** Writing the journal is followed by the signal and the acknowledgement. */
  lemma JournalThenSignal(s: State, c: nat) returns (m: State, t: State)
    requires Next(s, RequestJournal(c)).Some?
    ensures Leads(s, RequestJournal(c), m) && Leads(m, RequestSignal(c), t)
    ensures c in s.requests && s.requests[c].k < |s.attempts| == |t.attempts|
    ensures var k := s.requests[c].k;
      t.attempts[k].signalled && k in t.acked && Lookup(t.terminal, s.attempts[k].run) == Some(Terminal(Cancelled, k))
  {
    m := Next(s, RequestJournal(c)).value;
    t := Next(m, RequestSignal(c)).value;
  }

  lemma RepeatedIsTold(s: State, c: nat) returns (t: State)
    requires Next(s, RequestRepeated(c)).Some?
    ensures Leads(s, RequestRepeated(c), t)
    ensures c in s.requests && s.requests[c].k < |s.attempts| == |t.attempts|
    ensures t.attempts[s.requests[c].k].signalled && s.requests[c].k in t.acked
  {
    t := Next(s, RequestRepeated(c)).value;
  }

  /** What a request about an active attempt finds when the locks are free. */
  predicate Open(s: State, run: string) {
    s.registry.None? && run in s.controls && s.controls[run] < |s.attempts|
    && s.attempts[s.controls[run]].run == run && s.attempts[s.controls[run]].gate.Free?
  }

  lemma RequestCaptures(s: State, c: nat, run: string) returns (t: State)
    requires Open(s, run) && c !in s.requests
    ensures Leads(s, Request(c, run), t) && Open(t, run)
    ensures c in t.requests && t.requests[c] == Captured(s.controls[run])
    ensures t.controls == s.controls && t.attempts == s.attempts
  {
    t := Next(s, Request(c, run)).value;
  }

  lemma RequestEnters(s: State, c: nat, k: nat) returns (t: State)
    requires c in s.requests && s.requests[c] == Captured(k) && k < |s.attempts| && s.attempts[k].gate.Free?
    ensures Leads(s, RequestGate(c), t)
    ensures c in t.requests && t.requests[c] == HasGate(k) && t.registry == s.registry
    ensures t.controls == s.controls && t.attempts == s.attempts[k := s.attempts[k].(gate := Canceller(c))]
  {
    t := Next(s, RequestGate(c)).value;
  }

  lemma RequestLocks(s: State, c: nat, k: nat) returns (t: State)
    requires c in s.requests && s.requests[c] == HasGate(k) && k < |s.attempts| && s.registry.None?
    ensures Leads(s, RequestRegistry(c), t)
    ensures c in t.requests && t.requests[c] == HasBoth(k)
    ensures t.controls == s.controls && t.attempts == s.attempts
  {
    t := Next(s, RequestRegistry(c)).value;
  }

  /** A request about an active attempt gets both guards when they are free. */
  lemma RequestIsHeard(s: State, c: nat, run: string) returns (a: State, b: State, t: State)
    requires Open(s, run) && c !in s.requests
    ensures Leads(s, Request(c, run), a) && Leads(a, RequestGate(c), b) && Leads(b, RequestRegistry(c), t)
    ensures c in t.requests && t.requests[c] == HasBoth(s.controls[run]) && t.controls == s.controls
    ensures var k := s.controls[run]; t.attempts == s.attempts[k := s.attempts[k].(gate := Canceller(c))]
  {
    a := RequestCaptures(s, c, run);
    b := RequestEnters(a, c, s.controls[run]);
    t := RequestLocks(b, c, s.controls[run]);
  }

  lemma ActiveIsOwn(s: State, run: string)
    requires Reachable(s) && run in s.controls
    ensures s.controls[run] < |s.attempts| && s.attempts[s.controls[run]].run == run
  {
    ReachableInv(s);
  }

  lemma HeardIsReachable(s: State, c: nat, run: string, a: State, b: State, t: State)
    requires Reachable(s) && Leads(s, Request(c, run), a) && Leads(a, RequestGate(c), b)
    requires Leads(b, RequestRegistry(c), t)
    ensures Reachable(t)
  {
    ReachableNext(s, Request(c, run), a);
    ReachableNext(a, RequestGate(c), b);
    ReachableNext(b, RequestRegistry(c), t);
  }

  /** Cancelling an active attempt that has not published succeeds as soon as the locks are free, whatever its
      worker is doing: a request gets both guards, and is then acknowledged with the token set. */
  lemma CancelIsAccepted(s: State, c: nat, run: string) returns (path: seq<State>, t: State)
    requires Reachable(s) && c !in s.requests && s.registry.None? && run in s.controls
    requires s.controls[run] < |s.attempts| && s.attempts[s.controls[run]].gate.Free?
    requires !s.attempts[s.controls[run]].published
    ensures |path| == 3 && Leads(s, Request(c, run), path[0]) && Leads(path[0], RequestGate(c), path[1])
    ensures Leads(path[1], RequestRegistry(c), path[2])
    ensures if s.attempts[s.controls[run]].signalled then Leads(path[2], RequestRepeated(c), t)
            else exists m :: Leads(path[2], RequestJournal(c), m) && Leads(m, RequestSignal(c), t)
    ensures s.controls[run] < |t.attempts| && t.attempts[s.controls[run]].signalled && s.controls[run] in t.acked
  {
    ActiveIsOwn(s, run);
    var a, b, d := RequestIsHeard(s, c, run);
    HeardIsReachable(s, c, run, a, b, d);
    AnswerIsDetermined(d, c);
    path := [a, b, d];
    if s.attempts[s.controls[run]].signalled {
      t := RepeatedIsTold(d, c);
    } else {
      var m;
      m, t := JournalThenSignal(d, c);
    }
  }

  // ----- an acknowledged cancel and the status of the run -----

  lemma CrashKeepsRecords(s: State) returns (t: State)
    ensures Leads(s, Crash, t)
    ensures t.terminal == s.terminal && t.rows == s.rows && t.sweep == Resting && t.controls == map[]
  {
    t := Next(s, Crash).value;
  }

  lemma SignalKeepsRecords(s: State, c: nat) returns (t: State)
    requires Next(s, RequestSignal(c)).Some?
    ensures Leads(s, RequestSignal(c), t) && t.terminal == s.terminal && t.rows == s.rows
  {
    t := Next(s, RequestSignal(c)).value;
  }

  /** The sweep records what a terminal journal says, unless the run is completed, and removes the journal. */
  lemma TerminalIsReplayed(s: State, run: string) returns (m: State, t: State)
    requires s.sweep.Resting? && run !in s.controls && run in s.terminal && run in s.rows
    ensures Leads(s, ReplayTerminal(run), m) && Leads(m, DropTerminal, t)
    ensures run !in t.terminal
    ensures Lookup(t.rows, run)
            == if s.rows[run].Completed? then Some(s.rows[run]) else Some(Stopped(s.terminal[run].kind))
  {
    m := Next(s, ReplayTerminal(run)).value;
    t := Next(m, DropTerminal).value;
  }

  /** The process dies right after the acknowledgement: the next sweep records the run as cancelled, unless it is
      completed already. */
  lemma CancelSurvivesCrash(s: State, c: nat, k: nat) returns (a: State, b: State, m: State, t: State)
    requires Next(s, RequestSignal(c)).Some? && c in s.requests && s.requests[c].k == k < |s.attempts|
    requires Lookup(s.terminal, s.attempts[k].run) == Some(Terminal(Cancelled, k))
    requires s.attempts[k].run in s.rows && !s.rows[s.attempts[k].run].Completed?
    ensures Leads(s, RequestSignal(c), a) && Leads(a, Crash, b)
    ensures Leads(b, ReplayTerminal(s.attempts[k].run), m) && Leads(m, DropTerminal, t)
    ensures Lookup(t.rows, s.attempts[k].run) == Some(Stopped(Cancelled)) && s.attempts[k].run !in t.terminal
  {
    a := SignalKeepsRecords(s, c);
    b := CrashKeepsRecords(a);
    m, t := TerminalIsReplayed(b, s.attempts[k].run);
  }

  /** A worker that fails records the run as interrupted during a shutdown, as cancelled if it was signalled
      otherwise, and with what stopped it if not; a completed run stays completed. */
  lemma FailureIsRecorded(s: State, k: nat, error: Kind, written: bool) returns (m: State, t: State)
    requires k < |s.attempts| && s.attempts[k].phase.Failing? && s.attempts[k].run in s.rows
    requires error.Failed? || error.AwaitingSource? || error.AwaitingOutline?
    ensures Leads(s, WriteTerminal(k, error, written), m) && Leads(m, StoreTerminal(k, true), t)
    ensures s.attempts[k].run in t.rows
    ensures var before, after := s.rows[s.attempts[k].run], t.rows[s.attempts[k].run];
      if before.Completed? then after == before
      else if s.shutdown then after == Stopped(Interrupted)
      else if s.attempts[k].signalled then after == Stopped(Cancelled)
      else after == Stopped(error)
  {
    m := Next(s, WriteTerminal(k, error, written)).value;
    t := Next(m, StoreTerminal(k, true)).value;
  }

  // ----- registration -----

  /** A run is registered exactly if no sweep is at work, the registry is free, no attempt that is still going
      on is of this run or writes to this target, and fewer than 64 runs are active. */
  lemma RegistersExactly(s: State, run: string, target: string, original: Option<string>)
    requires Reachable(s)
    ensures Next(s, Enqueue(run, target, original)).Some?
            <==> s.sweep.Resting? && s.registry.None? && |s.controls| < 64
                 && forall k :: 0 <= k < |s.attempts| && !s.attempts[k].phase.Gone? ==>
                      s.attempts[k].run != run && s.attempts[k].target != target
  {
    ReachableInv(s);
    RegistersWhenFree(s, run, target, original);
  }

  lemma RegistersWhenFree(s: State, run: string, target: string, original: Option<string>)
    requires RegistryOk(s)
    ensures Next(s, Enqueue(run, target, original)).Some?
            <==> s.sweep.Resting? && s.registry.None? && |s.controls| < 64
                 && forall k :: 0 <= k < |s.attempts| && !s.attempts[k].phase.Gone? ==>
                      s.attempts[k].run != run && s.attempts[k].target != target
  {
    if r :| r in s.controls && s.attempts[s.controls[r]].target == target { assert Active(s, target); }
    if run in s.controls { assert s.attempts[s.controls[run]].run == run; }
  }

  // ----- publication -----

  /** Where an attempt publishes: at its target if this still holds what the snapshot recorded, else beside it. */
  function PublishedAt(s: State, at: Attempt): string {
    if Lookup(s.files, at.target) == at.original then at.target else at.target + ".conflict-" + at.run + ".md"
  }

  lemma DraftIsJournalled(s: State, k: nat, draft: string) returns (a: State, t: State, p: Publication)
    requires k < |s.attempts| && s.attempts[k].phase.Executing?
    ensures Leads(s, ReadTarget(k, draft), a) && Leads(a, WriteJournal(k), t)
    ensures p == Publication(s.attempts[k].run, k, PublishedAt(s, s.attempts[k]), draft)
    ensures |t.attempts| == |s.attempts| && t.files == s.files
    ensures t.attempts[k] == s.attempts[k].(phase := Journalled(p, Lookup(s.files, s.attempts[k].target)))
  {
    a := Next(s, ReadTarget(k, draft)).value;
    t := Next(a, WriteJournal(k)).value;
    p := t.attempts[k].phase.p;
  }

  lemma GateIsPassed(s: State, k: nat) returns (a: State, t: State)
    requires k < |s.attempts| && s.attempts[k].phase.Journalled? && s.attempts[k].gate.Free?
    requires s.attempts[k].phase.seen == Lookup(s.files, s.attempts[k].target)
    ensures Leads(s, TakeGate(k), a) && Leads(a, Compare(k), t)
    ensures |t.attempts| == |s.attempts| && t.files == s.files && t.attempts[k].phase.Compared?
    ensures t.attempts[k].phase.p == s.attempts[k].phase.p
    ensures t.attempts[k].signalled == s.attempts[k].signalled && t.attempts[k].run == s.attempts[k].run
  {
    a := Next(s, TakeGate(k)).value;
    t := Next(a, Compare(k)).value;
  }

  lemma FileIsReplaced(s: State, k: nat, p: Publication) returns (a: State, b: State, t: State)
    requires k < |s.attempts| && s.attempts[k].phase.Compared? && s.attempts[k].phase.p == p && !s.attempts[k].signalled
    ensures Leads(s, Clear(k), a) && Leads(a, Replace(k), b) && Leads(b, Publish(k), t)
    ensures InPlace(t, p) && |t.attempts| == |s.attempts| && t.attempts[k].run == s.attempts[k].run
    ensures t.attempts[k].phase == Committing(p)
  {
    a := Next(s, Clear(k)).value;
    b := Next(a, Replace(k)).value;
    t := Next(b, Publish(k)).value;
  }

  lemma RunIsCompleted(s: State, k: nat, p: Publication) returns (a: State, t: State)
    requires k < |s.attempts| && s.attempts[k].phase == Committing(p) && p.run == s.attempts[k].run
    ensures Leads(s, Commit(k), a) && Leads(a, RemoveJournal(k), t)
    ensures t.files == s.files && p.run !in t.publications && Lookup(t.rows, p.run) == Some(Completed(p))
  {
    a := Next(s, Commit(k)).value;
    t := Next(a, RemoveJournal(k)).value;
  }

  /** An attempt that nobody cancels or disturbs publishes its draft: at its target if this still holds what the
      snapshot recorded, and beside it if not. The database says so, and the journal is gone. */
  lemma PublishesUndisturbed(s: State, k: nat, draft: string) returns (path: seq<State>, t: State)
    requires k < |s.attempts| && s.attempts[k].phase.Executing? && s.attempts[k].gate.Free? && !s.attempts[k].signalled
    ensures |path| == 3
    ensures exists a :: Leads(s, ReadTarget(k, draft), a) && Leads(a, WriteJournal(k), path[0])
    ensures exists a :: Leads(path[0], TakeGate(k), a) && Leads(a, Compare(k), path[1])
    ensures exists a, b :: Leads(path[1], Clear(k), a) && Leads(a, Replace(k), b) && Leads(b, Publish(k), path[2])
    ensures exists a :: Leads(path[2], Commit(k), a) && Leads(a, RemoveJournal(k), t)
    ensures Lookup(t.files, PublishedAt(s, s.attempts[k])) == Some(draft) && s.attempts[k].run !in t.publications
    ensures var p := Publication(s.attempts[k].run, k, PublishedAt(s, s.attempts[k]), draft);
      Lookup(t.rows, s.attempts[k].run) == Some(Completed(p))
  {
    var a, m, p := DraftIsJournalled(s, k, draft);
    var b, n := GateIsPassed(m, k);
    var c, d, o := FileIsReplaced(n, k, p);
    var e;
    e, t := RunIsCompleted(o, k, p);
    path := [m, n, o];
  }
}
