/** The run lifecycle as a step relation: registration, cancellation, publication behind the
    per-attempt commit gate, the end-of-attempt path, crashes and the recovery sweep.

    Attempts are numbered in the order they are registered. The number is the identity of the
    attempt's gate and token, which the program compares by pointer. SHA-256 is taken as
    injective, so contents are compared where the program compares hashes. */
module Lifecycle {
  import opened Options

  /** A publication journal: what `save` intends to put at `path`. */
  datatype Publication = Publication(run: string, author: nat, path: string, content: string)

  datatype Kind = Cancelled | Interrupted | AwaitingSource | AwaitingOutline | Failed

  /** A terminal journal; `against` is the attempt it was written for. */
  datatype Terminal = Terminal(kind: Kind, against: nat)

  /** The status column of a run row. `completed` and `completed_with_warnings` are one status,
      carrying the publication that was committed. */
  datatype Status = Waiting | Running | Completed(p: Publication) | Stopped(kind: Kind)

  datatype Holder = Free | Worker | Canceller(c: nat)

  /** Where the worker of one attempt stands. */
  datatype Phase =
    | Registering
    | Queued
    | Executing
    | Saving(p: Publication, seen: Option<string>)      // target read, journal not written
    | Journalled(p: Publication, seen: Option<string>)  // journal on disk, waiting for the gate
    | InGate(p: Publication, seen: Option<string>)
    | Compared(p: Publication, seen: Option<string>)    // target re-read inside the gate
    | Cleared(p: Publication, seen: Option<string>)     // token read inside the gate
    | Replaced(p: Publication)                          // file replaced, flag not yet set
    | Committing(p: Publication)                        // flag set, gate released
    | Committed(p: Publication)                         // database says so, journal still there
    | Recovering                                        // error after publishing: `recover_run`
    | Matched(p: Publication)
    | Recommitted(p: Publication)
    | Failing
    | TerminalWritten(kind: Kind)
    | TerminalStored
    | Finished
    | Gone

  datatype Attempt = Attempt(
    run: string,
    target: string,
    original: Option<string>,    // `original_hash` of the snapshot
    signalled: bool,             // the cancellation token
    published: bool,             // the flag behind the gate
    gate: Holder,
    phase: Phase,
    output: Option<Publication>, // what this attempt put in place, once it has
    replaced: Option<string>,    // what stood at the path until then
    disturbed: bool)             // someone else wrote the path after the comparison in the gate

  /** One call of `request_cancel` that found attempt `k` in the registry. */
  datatype Request =
    | Captured(k: nat)
    | HasGate(k: nat)
    | HasBoth(k: nat)
    | Wrote(k: nat)              // terminal journal written, token not yet signalled

  /** The recovery sweep, which owns the lifecycle permit while it runs. */
  datatype Sweep =
    | Resting
    | TerminalReplayed(run: string)
    | SweepMatched(p: Publication)
    | SweepCommitted(p: Publication)

  datatype State = State(
    attempts: seq<Attempt>,
    controls: map<string, nat>,          // the registry of active attempts
    registry: Option<nat>,               // the request that holds the registry lock
    requests: map<nat, Request>,
    terminal: map<string, Terminal>,     // terminal journals
    publications: map<string, Publication>,
    files: map<string, string>,
    rows: map<string, Status>,
    artifacts: set<Publication>,
    latest: map<string, nat>,            // history: the last attempt registered for a run
    sweep: Sweep,
    shutdown: bool,
    acked: set<nat>,                     // history: attempts a request was told are cancelled
    sighted: set<Publication>)           // history: publications recovery saw in place

  datatype Action =
    | Enqueue(run: string, target: string, original: Option<string>)
    | RowQueued(k: nat)
    | RowFailed(k: nat)
    | Start(k: nat)
    | ReadTarget(k: nat, draft: string)
    | WriteJournal(k: nat)
    | TakeGate(k: nat)
    | Compare(k: nat)
    | Clear(k: nat)
    | Replace(k: nat)
    | Publish(k: nat)
    | LeaveGate(k: nat)
    | Retry(k: nat)
    | Fail(k: nat)
    | Commit(k: nat)
    | RemoveJournal(k: nat)
    | Trouble(k: nat)
    | GiveUp(k: nat)
    | RecoverRead(k: nat)
    | RecoverCommit(k: nat)
    | RecoverRemove(k: nat)
    | WriteTerminal(k: nat, error: Kind, written: bool)
    | StoreTerminal(k: nat, stored: bool)
    | RemoveTerminal(k: nat)
    | Deregister(k: nat)
    | Request(c: nat, run: string)
    | RequestGate(c: nat)
    | RequestRegistry(c: nat)
    | RequestRefused(c: nat)
    | RequestRepeated(c: nat)
    | RequestJournal(c: nat)
    | RequestSignal(c: nat)
    | RequestDropped(c: nat)
    | ReplayTerminal(run: string)
    | DropTerminal
    | SweepRead(run: string)
    | SweepCommit
    | SweepRemove
    | SweepMark(run: string, kind: Kind)
    | SweepStop
    | Edit(path: string, content: Option<string>)
    | Shutdown
    | StopAll
    | Crash

  const MAX_ACTIVE: nat := 64

  // ----- the steps -----

  function Lookup<K, V>(m: map<K, V>, k: K): Option<V> {
    if k in m then Some(m[k]) else None
  }

  function ConflictPath(target: string, run: string): string {
    target + ".conflict-" + run + ".md"
  }

  function With(s: State, k: nat, a: Attempt): State
    requires k < |s.attempts|
  {
    s.(attempts := s.attempts[k := a])
  }

  /** A write to `path` by anyone disturbs every attempt between its comparison and its replacement. */
  function Touched(a: Attempt, path: string): Attempt {
    if (a.phase.Compared? || a.phase.Cleared?) && a.phase.p.path == path then a.(disturbed := true) else a
  }

  function TouchAll(attempts: seq<Attempt>, path: string): seq<Attempt> {
    seq(|attempts|, i requires 0 <= i < |attempts| => Touched(attempts[i], path))
  }

  predicate Live(s: State, k: nat) {
    k < |s.attempts|
  }

  predicate Active(s: State, target: string) {
    exists r :: r in s.controls && s.controls[r] < |s.attempts| && s.attempts[s.controls[r]].target == target
  }

  function StoreStopped(rows: map<string, Status>, run: string, kind: Kind): map<string, Status> {
    if run in rows && !rows[run].Completed? then rows[run := Stopped(kind)] else rows
  }

  /** `commit`: artifact, status and event in one transaction. */
  function Store(s: State, p: Publication): State {
    s.(artifacts := s.artifacts + {p}, rows := s.rows[p.run := Completed(p)])
  }

  /** Registration: everything between taking and releasing the registry lock in `enqueue`. */
  function DoEnqueue(s: State, run: string, target: string, original: Option<string>): Option<State> {
    if s.sweep.Resting? && s.registry.None? && run !in s.controls && !Active(s, target)
      && |s.controls| < MAX_ACTIVE then
      var k := |s.attempts|;
      var a := Attempt(run, target, original, false, false, Free, Registering, None, None, false);
      Some(s.(attempts := s.attempts + [a],
              terminal := if run in s.latest then s.terminal - {run} else s.terminal,
              controls := s.controls[run := k],
              latest := s.latest[run := k]))
    else None
  }

  function DoBegin(s: State, a: Action): Option<State> {
    match a
    case RowQueued(k) =>
      if Live(s, k) && s.attempts[k].phase.Registering? then
        Some(With(s, k, s.attempts[k].(phase := Queued)).(rows := s.rows[s.attempts[k].run := Waiting]))
      else None
    case RowFailed(k) =>
      if Live(s, k) && s.attempts[k].phase.Registering? && s.registry.None? then
        Some(With(s, k, s.attempts[k].(phase := Gone)).(controls := s.controls - {s.attempts[k].run}))
      else None
    case Start(k) =>
      if Live(s, k) && s.attempts[k].phase.Queued? then
        Some(With(s, k, s.attempts[k].(phase := Executing)).(rows := s.rows[s.attempts[k].run := Running]))
      else None
    case _ => None
  }

  /** `save` up to the commit gate. */
  function DoSave(s: State, a: Action): Option<State> {
    match a
    case ReadTarget(k, draft) =>
      if Live(s, k) && s.attempts[k].phase.Executing? then
        var at := s.attempts[k];
        var seen := Lookup(s.files, at.target);
        var path := if seen != at.original then ConflictPath(at.target, at.run) else at.target;
        Some(With(s, k, at.(phase := Saving(Publication(at.run, k, path, draft), seen))))
      else None
    case WriteJournal(k) =>
      if Live(s, k) && s.attempts[k].phase.Saving? then
        var at := s.attempts[k];
        Some(With(s, k, at.(phase := Journalled(at.phase.p, at.phase.seen)))
             .(publications := s.publications[at.run := at.phase.p]))
      else None
    case TakeGate(k) =>
      if Live(s, k) && s.attempts[k].phase.Journalled? && s.attempts[k].gate.Free? then
        var at := s.attempts[k];
        Some(With(s, k, at.(phase := InGate(at.phase.p, at.phase.seen), gate := Worker)))
      else None
    case _ => None
  }

  /** The synchronous block behind the gate. */
  function DoGate(s: State, a: Action): Option<State> {
    match a
    case Compare(k) =>
      if Live(s, k) && s.attempts[k].phase.InGate?
         && (s.attempts[k].phase.p.path == s.attempts[k].target
             ==> Lookup(s.files, s.attempts[k].target) == s.attempts[k].phase.seen) then
        var at := s.attempts[k];
        Some(With(s, k, at.(phase := Compared(at.phase.p, at.phase.seen), disturbed := false)))
      else None
    case Clear(k) =>
      if Live(s, k) && s.attempts[k].phase.Compared? && !s.attempts[k].signalled then
        var at := s.attempts[k];
        Some(With(s, k, at.(phase := Cleared(at.phase.p, at.phase.seen))))
      else None
    case Replace(k) =>
      if Live(s, k) && s.attempts[k].phase.Cleared? then
        var at := s.attempts[k];
        var p := at.phase.p;
        var done := at.(phase := Replaced(p), output := Some(p), replaced := Lookup(s.files, p.path));
        Some(s.(attempts := TouchAll(s.attempts, p.path)[k := done], files := s.files[p.path := p.content]))
      else None
    case Publish(k) =>
      if Live(s, k) && s.attempts[k].phase.Replaced? then
        var at := s.attempts[k];
        Some(With(s, k, at.(phase := Committing(at.phase.p), published := true, gate := Free)))
      else None
    case LeaveGate(k) =>
      // The target changed, the token is set, or the replacement failed.
      if Live(s, k) && (s.attempts[k].phase.InGate? || s.attempts[k].phase.Compared?
        || s.attempts[k].phase.Cleared?) then
        Some(With(s, k, s.attempts[k].(phase := Failing, gate := Free)))
      else None
    case _ => None
  }

  /** The flag is set and the worker is not yet done with its journal. */
  predicate AfterPublication(phase: Phase) {
    phase.Committing? || phase.Committed? || phase.Recovering? || phase.Matched? || phase.Recommitted?
  }

  /** Errors, and the database side of publication. */
  function DoFinish(s: State, a: Action): Option<State> {
    match a
    case Retry(k) =>
      // A budget error before publication: `publish_partial` saves again.
      if Live(s, k) && (s.attempts[k].phase.Failing? || s.attempts[k].phase.Saving? || s.attempts[k].phase.Journalled?)
         && !s.attempts[k].published then
        Some(With(s, k, s.attempts[k].(phase := Executing)))
      else None
    case Fail(k) =>
      if Live(s, k) && (s.attempts[k].phase.Queued? || s.attempts[k].phase.Executing?
                        || s.attempts[k].phase.Saving? || s.attempts[k].phase.Journalled?) then
        Some(With(s, k, s.attempts[k].(phase := Failing)))
      else None
    case Commit(k) =>
      if Live(s, k) && s.attempts[k].phase.Committing? then
        var p := s.attempts[k].phase.p;
        Some(Store(With(s, k, s.attempts[k].(phase := Committed(p))), p))
      else None
    case RemoveJournal(k) =>
      if Live(s, k) && s.attempts[k].phase.Committed? then
        Some(With(s, k, s.attempts[k].(phase := Finished)).(publications := s.publications - {s.attempts[k].run}))
      else None
    case Trouble(k) =>
      // An error or timeout once published goes through `recover_run`.
      if Live(s, k) && (s.attempts[k].phase.Committing? || s.attempts[k].phase.Committed?) then
        Some(With(s, k, s.attempts[k].(phase := Recovering)))
      else None
    case GiveUp(k) =>
      // Straight to the failure path: a shutdown drops the publication future, `publish_partial` fails
      // after publishing, or `recover_run` fails on the journal or the database.
      if Live(s, k) && AfterPublication(s.attempts[k].phase) then
        Some(With(s, k, s.attempts[k].(phase := Failing)))
      else None
    case _ => None
  }

  /** `recover_run` on the attempt's own journal. */
  function DoRecoverRun(s: State, a: Action): Option<State> {
    match a
    case RecoverRead(k) =>
      if Live(s, k) && s.attempts[k].phase.Recovering? then
        var at := s.attempts[k];
        if at.run !in s.publications then Some(With(s, k, at.(phase := Failing)))
        else
          var p := s.publications[at.run];
          if Lookup(s.files, p.path) == Some(p.content)
          then Some(With(s, k, at.(phase := Matched(p))).(sighted := s.sighted + {p}))
          else Some(With(s, k, at.(phase := Finished)).(rows := StoreStopped(s.rows, at.run, Failed)))
      else None
    case RecoverCommit(k) =>
      if Live(s, k) && s.attempts[k].phase.Matched? then
        var p := s.attempts[k].phase.p;
        Some(Store(With(s, k, s.attempts[k].(phase := Recommitted(p))), p))
      else None
    case RecoverRemove(k) =>
      if Live(s, k) && s.attempts[k].phase.Recommitted? then
        Some(With(s, k, s.attempts[k].(phase := Finished)).(publications := s.publications - {s.attempts[k].run}))
      else None
    case _ => None
  }

  function TerminalKind(at: Attempt, shutdown: bool, error: Kind): Kind {
    if at.signalled && !shutdown then Cancelled else if shutdown then Interrupted else error
  }

  /** The end-of-attempt path of `spawn_worker`. */
  function DoEnd(s: State, a: Action): Option<State> {
    match a
    case WriteTerminal(k, error, written) =>
      if Live(s, k) && s.attempts[k].phase.Failing?
        && (error.Failed? || error.AwaitingSource? || error.AwaitingOutline?) then
        var at := s.attempts[k];
        var kind := TerminalKind(at, s.shutdown, error);
        Some(With(s, k, at.(phase := TerminalWritten(kind)))
             .(terminal := if written then s.terminal[at.run := Terminal(kind, k)] else s.terminal))
      else None
    case StoreTerminal(k, stored) =>
      if Live(s, k) && s.attempts[k].phase.TerminalWritten? then
        var at := s.attempts[k];
        if stored
        then Some(With(s, k, at.(phase := TerminalStored)).(rows := StoreStopped(s.rows, at.run, at.phase.kind)))
        else Some(With(s, k, at.(phase := Finished)))
      else None
    case RemoveTerminal(k) =>
      if Live(s, k) && s.attempts[k].phase.TerminalStored? then
        Some(With(s, k, s.attempts[k].(phase := Finished)).(terminal := s.terminal - {s.attempts[k].run}))
      else None
    case Deregister(k) =>
      if Live(s, k) && s.attempts[k].phase.Finished? && s.registry.None? then
        Some(With(s, k, s.attempts[k].(phase := Gone)).(controls := s.controls - {s.attempts[k].run}))
      else None
    case _ => None
  }

  function Forget(s: State, c: nat): State {
    s.(requests := s.requests - {c})
  }

  predicate At(s: State, c: nat) {
    c in s.requests && s.requests[c].k < |s.attempts|
  }

  /** `request_cancel`: registry, then gate, then gate and registry together. */
  function DoRequest(s: State, a: Action): Option<State> {
    match a
    case Request(c, run) =>
      if c !in s.requests && s.registry.None? && run in s.controls
      then Some(s.(requests := s.requests[c := Captured(s.controls[run])])) else None
    case RequestGate(c) =>
      if At(s, c) && s.requests[c].Captured? && s.attempts[s.requests[c].k].gate.Free? then
        var k := s.requests[c].k;
        Some(With(s, k, s.attempts[k].(gate := Canceller(c))).(requests := s.requests[c := HasGate(k)]))
      else None
    case RequestRegistry(c) =>
      if At(s, c) && s.requests[c].HasGate? && s.registry.None?
      then Some(s.(requests := s.requests[c := HasBoth(s.requests[c].k)], registry := Some(c))) else None
    case RequestRefused(c) =>
      if At(s, c) && s.requests[c].HasBoth? && !Cancellable(s, s.requests[c].k)
      then Some(Release(s, c, s.attempts[s.requests[c].k])) else None
    case RequestRepeated(c) =>
      if At(s, c) && s.requests[c].HasBoth? && Cancellable(s, s.requests[c].k)
        && s.attempts[s.requests[c].k].signalled then
        Some(Release(s, c, s.attempts[s.requests[c].k]).(acked := s.acked + {s.requests[c].k}))
      else None
    case RequestJournal(c) =>
      if At(s, c) && s.requests[c].HasBoth? && Cancellable(s, s.requests[c].k)
        && !s.attempts[s.requests[c].k].signalled then
        var k := s.requests[c].k;
        Some(s.(terminal := s.terminal[s.attempts[k].run := Terminal(Cancelled, k)],
          requests := s.requests[c := Wrote(k)]))
      else None
    case RequestSignal(c) =>
      if At(s, c) && s.requests[c].Wrote? then
        var k := s.requests[c].k;
        Some(Release(s, c, s.attempts[k].(signalled := true)).(acked := s.acked + {k}))
      else None
    case RequestDropped(c) =>
      // The HTTP request goes away while it waits for a lock.
      if At(s, c) && s.requests[c].Captured? then Some(Forget(s, c))
      else if At(s, c) && s.requests[c].HasGate? then
        var k := s.requests[c].k;
        Some(Forget(With(s, k, s.attempts[k].(gate := Free)), c))
      else None
    case _ => None
  }

  /** The registry still names this very attempt, and it has not published. */
  predicate Cancellable(s: State, k: nat)
    requires k < |s.attempts|
  {
    Lookup(s.controls, s.attempts[k].run) == Some(k) && !s.attempts[k].published
  }

  /** Answer a request: drop both guards. */
  function Release(s: State, c: nat, a: Attempt): State
    requires At(s, c)
  {
    Forget(With(s, s.requests[c].k, a.(gate := Free)), c).(registry := None)
  }

  /** `replay_terminal` and `publish::recover`, and the status updates around them. */
  function DoSweep(s: State, a: Action): Option<State> {
    match a
    case ReplayTerminal(run) =>
      if s.sweep.Resting? && run in s.terminal && run !in s.controls then
        Some(s.(sweep := TerminalReplayed(run), rows := StoreStopped(s.rows, run, s.terminal[run].kind)))
      else None
    case DropTerminal =>
      if s.sweep.TerminalReplayed? then Some(s.(sweep := Resting, terminal := s.terminal - {s.sweep.run})) else None
    case SweepRead(run) =>
      if s.sweep.Resting? && s.controls == map[] && run in s.publications then
        var p := s.publications[run];
        if Lookup(s.files, p.path) == Some(p.content)
        then Some(s.(sweep := SweepMatched(p), sighted := s.sighted + {p}))
        else Some(s.(rows := StoreStopped(s.rows, p.run, Failed)))
      else None
    case SweepCommit =>
      if s.sweep.SweepMatched? then Some(Store(s, s.sweep.p).(sweep := SweepCommitted(s.sweep.p))) else None
    case SweepRemove =>
      if s.sweep.SweepCommitted?
      then Some(s.(sweep := Resting, publications := s.publications - {s.sweep.p.run})) else None
    case SweepStop =>
      // The database or the file system fails: the sweep ends and leaves its journal for the next one.
      if !s.sweep.Resting? then Some(s.(sweep := Resting)) else None
    case SweepMark(run, kind) =>
      if s.sweep.Resting? && run !in s.controls then Some(s.(rows := StoreStopped(s.rows, run, kind))) else None
    case _ => None
  }

  /** Another program writes a file, or removes it. */
  function Edited(s: State, path: string, content: Option<string>): State {
    s.(attempts := TouchAll(s.attempts, path),
       files := if content.Some? then s.files[path := content.value] else s.files - {path})
  }

  /** The environment: other programs edit files, the process is asked to stop, the process dies. */
  function DoWorld(s: State, a: Action): Option<State> {
    match a
    case Edit(path, content) => Some(Edited(s, path, content))
    case Shutdown => Some(s.(shutdown := true))
    case StopAll =>
      if s.shutdown && s.registry.None? then Some(s.(attempts := SignalAll(s.attempts))) else None
    case Crash =>
      Some(s.(attempts := Dead(s.attempts), controls := map[], registry := None, requests := map[], sweep := Resting,
        shutdown := false))
    case _ => None
  }

  function SignalAll(attempts: seq<Attempt>): seq<Attempt> {
    seq(|attempts|, i requires 0 <= i < |attempts| =>
      if attempts[i].phase.Gone? then attempts[i] else attempts[i].(signalled := true))
  }

  function Dead(attempts: seq<Attempt>): seq<Attempt> {
    seq(|attempts|, i requires 0 <= i < |attempts| => attempts[i].(phase := Gone, gate := Free))
  }

  function Next(s: State, a: Action): Option<State> {
    match a
    case Enqueue(run, target, original) => DoEnqueue(s, run, target, original)
    case RowQueued(_) => DoBegin(s, a)
    case RowFailed(_) => DoBegin(s, a)
    case Start(_) => DoBegin(s, a)
    case ReadTarget(_, _) => DoSave(s, a)
    case WriteJournal(_) => DoSave(s, a)
    case TakeGate(_) => DoSave(s, a)
    case Compare(_) => DoGate(s, a)
    case Clear(_) => DoGate(s, a)
    case Replace(_) => DoGate(s, a)
    case Publish(_) => DoGate(s, a)
    case LeaveGate(_) => DoGate(s, a)
    case Retry(_) => DoFinish(s, a)
    case Fail(_) => DoFinish(s, a)
    case Commit(_) => DoFinish(s, a)
    case RemoveJournal(_) => DoFinish(s, a)
    case Trouble(_) => DoFinish(s, a)
    case GiveUp(_) => DoFinish(s, a)
    case RecoverRead(_) => DoRecoverRun(s, a)
    case RecoverCommit(_) => DoRecoverRun(s, a)
    case RecoverRemove(_) => DoRecoverRun(s, a)
    case WriteTerminal(_, _, _) => DoEnd(s, a)
    case StoreTerminal(_, _) => DoEnd(s, a)
    case RemoveTerminal(_) => DoEnd(s, a)
    case Deregister(_) => DoEnd(s, a)
    case Request(_, _) => DoRequest(s, a)
    case RequestGate(_) => DoRequest(s, a)
    case RequestRegistry(_) => DoRequest(s, a)
    case RequestRefused(_) => DoRequest(s, a)
    case RequestRepeated(_) => DoRequest(s, a)
    case RequestJournal(_) => DoRequest(s, a)
    case RequestSignal(_) => DoRequest(s, a)
    case RequestDropped(_) => DoRequest(s, a)
    case ReplayTerminal(_) => DoSweep(s, a)
    case DropTerminal => DoSweep(s, a)
    case SweepRead(_) => DoSweep(s, a)
    case SweepCommit => DoSweep(s, a)
    case SweepRemove => DoSweep(s, a)
    case SweepMark(_, _) => DoSweep(s, a)
    case SweepStop => DoSweep(s, a)
    case Edit(_, _) => DoWorld(s, a)
    case Shutdown => DoWorld(s, a)
    case StopAll => DoWorld(s, a)
    case Crash => DoWorld(s, a)
  }

  function Initial(files: map<string, string>): State {
    State([], map[], None, map[], map[], map[], files, map[], {}, map[], Resting, false, {}, {})
  }
}
