/** Nothing waits forever: from every reachable state every attempt can be brought to its end by steps of workers and
    requests alone, and until it has replaced its file it can fail at every point. */
module LifecycleProgress {
  import opened Options
  import opened Lifecycle
  import opened LifecycleInvariant
  import opened LifecycleTheorems
  import opened LifecycleAnswers
  import opened LifecycleWindow

  // ----- what a worker does next -----

  /** The step a worker takes next if nothing goes wrong. */
  function Onward(phase: Phase, k: nat): Action
    requires !phase.Gone?
  {
    match phase
    case Registering => RowQueued(k)
    case Queued => Start(k)
    case Executing => ReadTarget(k, "")
    case Saving(_, _) => WriteJournal(k)
    case Journalled(_, _) => TakeGate(k)
    case InGate(_, _) => Compare(k)
    case Compared(_, _) => Clear(k)
    case Cleared(_, _) => Replace(k)
    case Replaced(_) => Publish(k)
    case Committing(_) => Commit(k)
    case Committed(_) => RemoveJournal(k)
    case Recovering => RecoverRead(k)
    case Matched(_) => RecoverCommit(k)
    case Recommitted(_) => RecoverRemove(k)
    case Failing => WriteTerminal(k, Failed, true)
    case TerminalWritten(_) => StoreTerminal(k, true)
    case TerminalStored => RemoveTerminal(k)
    case Finished => Deregister(k)
  }

  /** How many steps an attempt is from its end at most. */
  function Rank(phase: Phase): nat {
    match phase
    case Registering => 18
    case Queued => 17
    case Executing => 16
    case Saving(_, _) => 15
    case Journalled(_, _) => 14
    case InGate(_, _) => 13
    case Compared(_, _) => 12
    case Cleared(_, _) => 11
    case Replaced(_) => 10
    case Committing(_) => 9
    case Committed(_) => 8
    case Recovering => 7
    case Matched(_) => 6
    case Recommitted(_) => 5
    case Failing => 4
    case TerminalWritten(_) => 3
    case TerminalStored => 2
    case Finished => 1
    case Gone => 0
  }

  /** The target changed since the draft was journalled. */
  predicate TargetChanged(s: State, a: Attempt) {
    a.phase.InGate? && a.phase.p.path == a.target && Lookup(s.files, a.target) != a.phase.seen
  }

  /** A worker goes on unless it waits for a lock, its target changed before the comparison, or it finds its token
      set behind it. */
  lemma GoesOnExactly(s: State, k: nat)
    requires k < |s.attempts| && !s.attempts[k].phase.Gone?
    ensures var a := s.attempts[k];
      Next(s, Onward(a.phase, k)).Some?
      <==> !(a.phase.Journalled? && !a.gate.Free?) && !(a.phase.Finished? && s.registry.Some?)
           && !TargetChanged(s, a) && !(a.phase.Compared? && a.signalled)
  {
    match s.attempts[k].phase {
      case Journalled(_, _) =>
      case InGate(_, _) =>
      case Compared(_, _) =>
      case _ =>
    }
  }

  /** The step leads attempt `k` nearer to its end. */
  predicate Nearer(s: State, a: Action, t: State, k: nat) {
    Leads(s, a, t) && k < |s.attempts| == |t.attempts| && Rank(t.attempts[k].phase) < Rank(s.attempts[k].phase)
  }

  lemma OnRegistering(s: State, k: nat, t: State)
    requires k < |s.attempts| && s.attempts[k].phase.Registering? && Leads(s, RowQueued(k), t)
    ensures |t.attempts| == |s.attempts| && t.attempts[k].phase.Queued?
  {}

  lemma OnQueued(s: State, k: nat, t: State)
    requires k < |s.attempts| && s.attempts[k].phase.Queued? && Leads(s, Start(k), t)
    ensures |t.attempts| == |s.attempts| && t.attempts[k].phase.Executing?
  {}

  lemma OnExecuting(s: State, k: nat, t: State)
    requires k < |s.attempts| && s.attempts[k].phase.Executing? && Leads(s, ReadTarget(k, ""), t)
    ensures |t.attempts| == |s.attempts| && t.attempts[k].phase.Saving?
  {}

  lemma OnSaving(s: State, k: nat, t: State)
    requires k < |s.attempts| && s.attempts[k].phase.Saving? && Leads(s, WriteJournal(k), t)
    ensures |t.attempts| == |s.attempts| && t.attempts[k].phase.Journalled?
  {}

  lemma OnJournalled(s: State, k: nat, t: State)
    requires k < |s.attempts| && s.attempts[k].phase.Journalled? && Leads(s, TakeGate(k), t)
    ensures |t.attempts| == |s.attempts| && t.attempts[k].phase.InGate?
  {}

  lemma OnInGate(s: State, k: nat, t: State)
    requires k < |s.attempts| && s.attempts[k].phase.InGate? && Leads(s, Compare(k), t)
    ensures |t.attempts| == |s.attempts| && t.attempts[k].phase.Compared?
  {}

  lemma OnCompared(s: State, k: nat, t: State)
    requires k < |s.attempts| && s.attempts[k].phase.Compared? && Leads(s, Clear(k), t)
    ensures |t.attempts| == |s.attempts| && t.attempts[k].phase.Cleared?
  {}

  lemma OnCleared(s: State, k: nat, t: State)
    requires k < |s.attempts| && s.attempts[k].phase.Cleared? && Leads(s, Replace(k), t)
    ensures |t.attempts| == |s.attempts| && t.attempts[k].phase.Replaced?
  {}

  lemma OnReplaced(s: State, k: nat, t: State)
    requires k < |s.attempts| && s.attempts[k].phase.Replaced? && Leads(s, Publish(k), t)
    ensures |t.attempts| == |s.attempts| && t.attempts[k].phase.Committing?
  {}

  lemma OnCommitting(s: State, k: nat, t: State)
    requires k < |s.attempts| && s.attempts[k].phase.Committing? && Leads(s, Commit(k), t)
    ensures |t.attempts| == |s.attempts| && t.attempts[k].phase.Committed?
  {}

  lemma OnCommitted(s: State, k: nat, t: State)
    requires k < |s.attempts| && s.attempts[k].phase.Committed? && Leads(s, RemoveJournal(k), t)
    ensures |t.attempts| == |s.attempts| && t.attempts[k].phase.Finished?
  {}

  lemma RecoversNothing(s: State, k: nat, t: State)
    requires k < |s.attempts| && s.attempts[k].phase.Recovering? && Leads(s, RecoverRead(k), t)
    requires s.attempts[k].run !in s.publications
    ensures |t.attempts| == |s.attempts| && t.attempts[k].phase == Failing
  {}

  lemma RecoversMatch(s: State, k: nat, t: State)
    requires k < |s.attempts| && s.attempts[k].phase.Recovering? && Leads(s, RecoverRead(k), t)
    requires s.attempts[k].run in s.publications && InPlace(s, s.publications[s.attempts[k].run])
    ensures |t.attempts| == |s.attempts| && t.attempts[k].phase == Matched(s.publications[s.attempts[k].run])
  {}

  lemma RecoversMiss(s: State, k: nat, t: State)
    requires k < |s.attempts| && s.attempts[k].phase.Recovering? && Leads(s, RecoverRead(k), t)
    requires s.attempts[k].run in s.publications && !InPlace(s, s.publications[s.attempts[k].run])
    ensures |t.attempts| == |s.attempts| && t.attempts[k].phase == Finished
  {}

  lemma OnRecovering(s: State, k: nat, t: State)
    requires k < |s.attempts| && s.attempts[k].phase.Recovering? && Leads(s, RecoverRead(k), t)
    ensures |t.attempts| == |s.attempts|
    ensures t.attempts[k].phase.Matched? || t.attempts[k].phase.Failing? || t.attempts[k].phase.Finished?
  {
    if s.attempts[k].run !in s.publications {
      RecoversNothing(s, k, t);
    } else if InPlace(s, s.publications[s.attempts[k].run]) {
      RecoversMatch(s, k, t);
    } else {
      RecoversMiss(s, k, t);
    }
  }

  lemma OnMatched(s: State, k: nat, t: State)
    requires k < |s.attempts| && s.attempts[k].phase.Matched? && Leads(s, RecoverCommit(k), t)
    ensures |t.attempts| == |s.attempts| && t.attempts[k].phase.Recommitted?
  {}

  lemma OnRecommitted(s: State, k: nat, t: State)
    requires k < |s.attempts| && s.attempts[k].phase.Recommitted? && Leads(s, RecoverRemove(k), t)
    ensures |t.attempts| == |s.attempts| && t.attempts[k].phase.Finished?
  {}

  lemma OnFailing(s: State, k: nat, t: State)
    requires k < |s.attempts| && s.attempts[k].phase.Failing? && Leads(s, WriteTerminal(k, Failed, true), t)
    ensures |t.attempts| == |s.attempts| && t.attempts[k].phase.TerminalWritten?
  {}

  lemma OnTerminalWritten(s: State, k: nat, t: State)
    requires k < |s.attempts| && s.attempts[k].phase.TerminalWritten? && Leads(s, StoreTerminal(k, true), t)
    ensures |t.attempts| == |s.attempts| && t.attempts[k].phase.TerminalStored?
  {}

  lemma OnTerminalStored(s: State, k: nat, t: State)
    requires k < |s.attempts| && s.attempts[k].phase.TerminalStored? && Leads(s, RemoveTerminal(k), t)
    ensures |t.attempts| == |s.attempts| && t.attempts[k].phase.Finished?
  {}

  lemma OnFinished(s: State, k: nat, t: State)
    requires k < |s.attempts| && s.attempts[k].phase.Finished? && Leads(s, Deregister(k), t)
    ensures |t.attempts| == |s.attempts| && t.attempts[k].phase.Gone?
  {}

  lemma GoingOnGetsNearer(s: State, k: nat, t: State)
    requires k < |s.attempts| && !s.attempts[k].phase.Gone? && Leads(s, Onward(s.attempts[k].phase, k), t)
    ensures Nearer(s, Onward(s.attempts[k].phase, k), t, k)
  {
    match s.attempts[k].phase {
      case Registering => OnRegistering(s, k, t);
      case Queued => OnQueued(s, k, t);
      case Executing => OnExecuting(s, k, t);
      case Saving(_, _) => OnSaving(s, k, t);
      case Journalled(_, _) => OnJournalled(s, k, t);
      case InGate(_, _) => OnInGate(s, k, t);
      case Compared(_, _) => OnCompared(s, k, t);
      case Cleared(_, _) => OnCleared(s, k, t);
      case Replaced(_) => OnReplaced(s, k, t);
      case Committing(_) => OnCommitting(s, k, t);
      case Committed(_) => OnCommitted(s, k, t);
      case Recovering => OnRecovering(s, k, t);
      case Matched(_) => OnMatched(s, k, t);
      case Recommitted(_) => OnRecommitted(s, k, t);
      case Failing => OnFailing(s, k, t);
      case TerminalWritten(_) => OnTerminalWritten(s, k, t);
      case TerminalStored => OnTerminalStored(s, k, t);
      case Finished => OnFinished(s, k, t);
    }
  }

  /** Behind the gate and before the replacement a worker can turn back: it lets go of the gate and fails. */
  lemma TurnsBack(s: State, k: nat) returns (t: State)
    requires k < |s.attempts|
    requires s.attempts[k].phase.InGate? || s.attempts[k].phase.Compared? || s.attempts[k].phase.Cleared?
    ensures Leads(s, LeaveGate(k), t) && |t.attempts| == |s.attempts|
    ensures t.attempts[k].phase.Failing? && t.attempts[k].gate.Free?
    ensures t.files == s.files && t.publications == s.publications
  {
    t := Next(s, LeaveGate(k)).value;
  }

  /** In front of the gate a registered worker can fail. */
  lemma FailsInFront(s: State, k: nat) returns (t: State)
    requires k < |s.attempts| && BeforeGate(s.attempts[k].phase) && !s.attempts[k].phase.Registering?
    ensures Leads(s, Fail(k), t) && |t.attempts| == |s.attempts|
    ensures t.attempts[k].phase.Failing? && t.attempts[k].gate == s.attempts[k].gate
    ensures t.files == s.files && t.publications == s.publications
  {
    t := Next(s, Fail(k)).value;
  }

  /** What failed before it published may save again what there is. */
  lemma SavesAgainExactly(s: State, k: nat)
    requires k < |s.attempts|
    ensures var a := s.attempts[k];
      Next(s, Retry(k)).Some? <==> !a.published && (a.phase.Failing? || a.phase.Saving? || a.phase.Journalled?)
    ensures var a := s.attempts[k];
      forall t :: Leads(s, Retry(k), t) ==> t == s.(attempts := s.attempts[k := a.(phase := Executing)])
  {}

  /** Trouble between replacing the file and the end leads to recovery from the attempt's own journal, or to the
      failure path; the file stays and so does the journal. */
  lemma TroubleAfterPublishing(s: State, k: nat)
    requires k < |s.attempts|
    ensures var a := s.attempts[k];
      && (Next(s, Trouble(k)).Some? <==> a.phase.Committing? || a.phase.Committed?)
      && (forall t :: Leads(s, Trouble(k), t) ==> t == s.(attempts := s.attempts[k := a.(phase := Recovering)]))
    ensures var a := s.attempts[k];
      && (Next(s, GiveUp(k)).Some?
          <==> a.phase.Committing? || a.phase.Committed? || a.phase.Recovering? || a.phase.Matched?
               || a.phase.Recommitted?)
      && (forall t :: Leads(s, GiveUp(k), t) ==> t == s.(attempts := s.attempts[k := a.(phase := Failing)]))
  {}

  // ----- ways to the end -----

  /** Steps that neither start nor interrupt anything: a worker goes on or turns back at the gate, or a request that
      was sent is dealt with. */
  predicate Finishing(a: Action) {
    || a.RowQueued? || a.Start? || a.ReadTarget? || a.WriteJournal? || a.TakeGate? || a.Compare? || a.Clear?
    || a.Replace? || a.Publish? || a.LeaveGate? || a.Commit? || a.RemoveJournal? || a.RecoverRead? || a.RecoverCommit?
    || a.RecoverRemove? || a.WriteTerminal? || a.StoreTerminal? || a.RemoveTerminal? || a.Deregister?
    || a.RequestRegistry? || a.RequestRefused? || a.RequestRepeated? || a.RequestJournal? || a.RequestSignal?
  }

  ghost predicate Follows(s: State, t: State) {
    exists a :: Finishing(a) && Leads(s, a, t)
  }

  /** A run made of such steps. */
  ghost predicate Way(path: seq<State>, s: State, t: State) {
    && path != [] && path[0] == s && path[|path| - 1] == t
    && forall i :: 0 <= i < |path| - 1 ==> Follows(path[i], path[i + 1])
  }

  lemma OneStep(s: State, a: Action, t: State)
    requires Reachable(s) && Finishing(a) && Leads(s, a, t)
    ensures Way([s, t], s, t) && Reachable(t)
  {
    ReachableNext(s, a, t);
    assert Follows(s, t);
  }

  lemma Joined(path: seq<State>, rest: seq<State>, s: State, m: State, t: State)
    requires Way(path, s, m) && Way(rest, m, t)
    ensures Way(path + rest[1..], s, t)
  {
    var both := path + rest[1..];
    forall i | 0 <= i < |both| - 1 ensures Follows(both[i], both[i + 1]) {
      if i + 1 < |path| {
        assert Follows(path[i], path[i + 1]);
      } else {
        assert both[i] == rest[i + 1 - |path|];
        assert Follows(rest[i + 1 - |path|], rest[i + 2 - |path|]);
      }
    }
  }

  /** The request is answered: it lets go of both locks, and every worker stands where it stood. */
  predicate Answered(s: State, c: nat, t: State) {
    && c in s.requests && t.requests == s.requests - {c} && t.registry.None? && |t.attempts| == |s.attempts|
    && forall i :: 0 <= i < |s.attempts| ==>
      && t.attempts[i].phase == s.attempts[i].phase
      && t.attempts[i].gate == if i == s.requests[c].k then Free else s.attempts[i].gate
  }

  lemma RefusalAnswers(s: State, c: nat, t: State)
    requires Leads(s, RequestRefused(c), t)
    ensures Answered(s, c, t)
  {}

  lemma RepetitionAnswers(s: State, c: nat, t: State)
    requires Leads(s, RequestRepeated(c), t)
    ensures Answered(s, c, t)
  {}

  lemma SignalAnswers(s: State, c: nat, t: State)
    requires Leads(s, RequestSignal(c), t)
    ensures Answered(s, c, t)
  {}

  lemma JournalLeadsOn(s: State, c: nat, t: State)
    requires Leads(s, RequestJournal(c), t)
    ensures c in s.requests && t.requests == s.requests[c := Wrote(s.requests[c].k)] && t.attempts == s.attempts
  {}

  lemma WroteSignals(s: State, c: nat)
    requires AskLocal(s, c) && s.requests[c].Wrote?
    ensures Next(s, RequestSignal(c)).Some?
  {}

  lemma LockAnswers(s: State, c: nat, t: State)
    requires Leads(s, RequestRegistry(c), t)
    ensures c in s.requests && t.requests == s.requests[c := HasBoth(s.requests[c].k)] && t.attempts == s.attempts
    ensures t.registry == Some(c)
  {}

  /** Whoever holds the registry can go on until it is free. */
  lemma RegistryIsFreed(s: State, c: nat) returns (path: seq<State>, t: State)
    requires Reachable(s) && s.registry == Some(c)
    ensures Way(path, s, t) && Reachable(t) && Answered(s, c, t)
  {
    ReachableInv(s);
    ReachableAsk(s, c);
    if s.requests[c].Wrote? {
      WroteSignals(s, c);
      t := Next(s, RequestSignal(c)).value;
      OneStep(s, RequestSignal(c), t);
      SignalAnswers(s, c, t);
      path := [s, t];
    } else {
      AnswerIsDetermined(s, c);
      path, t := GuardsAreFreed(s, c);
    }
  }

  lemma GuardsAreFreed(s: State, c: nat) returns (path: seq<State>, t: State)
    requires Reachable(s) && c in s.requests
    requires Next(s, RequestRefused(c)).Some? || Next(s, RequestRepeated(c)).Some? || Next(s, RequestJournal(c)).Some?
    ensures Way(path, s, t) && Reachable(t) && Answered(s, c, t)
  {
    if Next(s, RequestRefused(c)).Some? {
      t := Next(s, RequestRefused(c)).value;
      OneStep(s, RequestRefused(c), t);
      RefusalAnswers(s, c, t);
      path := [s, t];
    } else if Next(s, RequestRepeated(c)).Some? {
      t := Next(s, RequestRepeated(c)).value;
      OneStep(s, RequestRepeated(c), t);
      RepetitionAnswers(s, c, t);
      path := [s, t];
    } else {
      var m;
      m, t := JournalThenSignal(s, c);
      OneStep(s, RequestJournal(c), m);
      OneStep(m, RequestSignal(c), t);
      Joined([s, m], [m, t], s, m, t);
      JournalLeadsOn(s, c, m);
      SignalAnswers(m, c, t);
      path := [s, m] + [m, t][1..];
    }
  }

  /** Every worker stands where it stood, and no gate that was free is taken. */
  predicate Kept(s: State, t: State) {
    && |t.attempts| == |s.attempts|
    && forall i :: 0 <= i < |s.attempts| ==>
      t.attempts[i].phase == s.attempts[i].phase
        && (t.attempts[i].gate.Free? || t.attempts[i].gate == s.attempts[i].gate)
  }

  /** Whoever holds the gate of an attempt that waits for it can go on until it is free. */
  lemma GateIsFreed(s: State, k: nat, c: nat) returns (path: seq<State>, t: State)
    requires Reachable(s) && k < |s.attempts| && s.attempts[k].gate == Canceller(c)
    ensures Way(path, s, t) && Reachable(t) && Kept(s, t) && t.attempts[k].gate.Free?
  {
    if s.registry.None? {
      path, t := WaiterIsServed(s, k, c);
    } else {
      HolderHasIt(s, k, c);
      var first, m := RegistryIsFreed(s, s.registry.value);
      if s.registry == Some(c) { return first, m; }
      var rest;
      rest, t := WaiterIsServed(m, k, c);
      Joined(first, rest, s, m, t);
      path := first + rest[1..];
    }
  }

  lemma HolderHasIt(s: State, k: nat, c: nat)
    requires Reachable(s) && k < |s.attempts| && s.attempts[k].gate == Canceller(c) && s.registry.Some?
    ensures s.registry.value in s.requests && (s.requests[s.registry.value].k == k <==> s.registry == Some(c))
  {
    ReachableInv(s);
  }

  lemma WaitsForRegistry(s: State, k: nat, c: nat)
    requires Reachable(s) && k < |s.attempts| && s.attempts[k].gate == Canceller(c) && s.registry.None?
    ensures c in s.requests && s.requests[c] == HasGate(k)
  {
    ReachableInv(s);
  }

  /** A request that holds a gate and waits for the registry gets it when it is free, and lets go of both. */
  lemma WaiterIsServed(s: State, k: nat, c: nat) returns (path: seq<State>, t: State)
    requires Reachable(s) && k < |s.attempts| && s.attempts[k].gate == Canceller(c) && s.registry.None?
    ensures Way(path, s, t) && Reachable(t) && Kept(s, t) && t.attempts[k].gate.Free?
  {
    WaitsForRegistry(s, k, c);
    var m := RequestLocks(s, c, k);
    OneStep(s, RequestRegistry(c), m);
    LockAnswers(s, c, m);
    var rest;
    rest, t := RegistryIsFreed(m, c);
    Joined([s, m], rest, s, m, t);
    path := [s, m] + rest[1..];
  }

  lemma FailingIsNearer(from: Phase, to: Phase)
    requires (from.InGate? || from.Compared?) && to.Failing?
    ensures Rank(to) < Rank(from)
  {}

  lemma LeavesTheGate(s: State, k: nat) returns (path: seq<State>, t: State)
    requires Reachable(s) && k < |s.attempts| && (s.attempts[k].phase.InGate? || s.attempts[k].phase.Compared?)
    ensures Way(path, s, t) && Reachable(t) && k < |t.attempts|
    ensures Rank(t.attempts[k].phase) < Rank(s.attempts[k].phase)
  {
    t := TurnsBack(s, k);
    FailingIsNearer(s.attempts[k].phase, t.attempts[k].phase);
    OneStep(s, LeaveGate(k), t);
    path := [s, t];
  }

  /** A registered attempt can come one step nearer to its end, whatever locks others hold. */
  lemma ComesNearer(s: State, k: nat) returns (path: seq<State>, t: State)
    requires Reachable(s) && k < |s.attempts| && !s.attempts[k].phase.Gone?
    ensures Way(path, s, t) && Reachable(t) && k < |t.attempts|
    ensures Rank(t.attempts[k].phase) < Rank(s.attempts[k].phase)
  {
    var a := s.attempts[k];
    GoesOnExactly(s, k);
    if TargetChanged(s, a) || (a.phase.Compared? && a.signalled) {
      path, t := LeavesTheGate(s, k);
    } else if a.phase.Journalled? && !a.gate.Free? {
      path, t := PassesTheGate(s, k);
    } else if a.phase.Finished? && s.registry.Some? {
      path, t := LeavesTheRegistry(s, k);
    } else {
      path, t := GoesOn(s, k);
    }
  }

  lemma OnwardFinishes(phase: Phase, k: nat)
    requires !phase.Gone?
    ensures Finishing(Onward(phase, k))
  {}

  lemma GoesOn(s: State, k: nat) returns (path: seq<State>, t: State)
    requires Reachable(s) && k < |s.attempts| && !s.attempts[k].phase.Gone?
    requires Next(s, Onward(s.attempts[k].phase, k)).Some?
    ensures Way(path, s, t) && Reachable(t) && k < |t.attempts|
    ensures Rank(t.attempts[k].phase) < Rank(s.attempts[k].phase)
  {
    t := Next(s, Onward(s.attempts[k].phase, k)).value;
    OnwardFinishes(s.attempts[k].phase, k);
    OneStep(s, Onward(s.attempts[k].phase, k), t);
    GoingOnGetsNearer(s, k, t);
    path := [s, t];
  }

  lemma PassesTheGate(s: State, k: nat) returns (path: seq<State>, t: State)
    requires Reachable(s) && k < |s.attempts| && s.attempts[k].phase.Journalled? && !s.attempts[k].gate.Free?
    ensures Way(path, s, t) && Reachable(t) && k < |t.attempts|
    ensures Rank(t.attempts[k].phase) < Rank(s.attempts[k].phase)
  {
    ReachableInv(s);
    var first, m := GateIsFreed(s, k, s.attempts[k].gate.c);
    GoesOnExactly(m, k);
    var rest;
    rest, t := GoesOn(m, k);
    Joined(first, rest, s, m, t);
    path := first + rest[1..];
  }

  lemma LeavesTheRegistry(s: State, k: nat) returns (path: seq<State>, t: State)
    requires Reachable(s) && k < |s.attempts| && s.attempts[k].phase.Finished? && s.registry.Some?
    ensures Way(path, s, t) && Reachable(t) && k < |t.attempts|
    ensures Rank(t.attempts[k].phase) < Rank(s.attempts[k].phase)
  {
    var first, m := RegistryIsFreed(s, s.registry.value);
    GoesOnExactly(m, k);
    var rest;
    rest, t := GoesOn(m, k);
    Joined(first, rest, s, m, t);
    path := first + rest[1..];
  }

  /** No interleaving of workers, requests, failures and crashes leads to a state in which an attempt is stuck: from
      every reachable state it can come to its end without anything being started, dropped or interrupted. */
  lemma {:induction false} NothingIsStuck(s: State, k: nat) returns (path: seq<State>, t: State)
    requires Reachable(s) && k < |s.attempts|
    ensures Way(path, s, t) && Reachable(t) && k < |t.attempts| && t.attempts[k].phase.Gone?
    decreases Rank(s.attempts[k].phase)
  {
    if s.attempts[k].phase.Gone? { return [s], s; }
    var first, m := ComesNearer(s, k);
    var rest;
    rest, t := NothingIsStuck(m, k);
    Joined(first, rest, s, m, t);
    path := first + rest[1..];
  }
}
