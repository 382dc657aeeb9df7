/** What one whole recovery sweep does to a run that left a publication journal. */
module LifecycleSweep {
  import opened Options
  import opened Lifecycle
  import opened LifecycleInvariant
  import opened LifecycleTheorems

  /** From the `i`-th state to the `j`-th only the sweep works, and it is not cut short. */
  ghost predicate Sweeping(states: seq<State>, actions: seq<Action>, i: nat, j: nat) {
    && IsRun(states, actions) && i <= j <= |actions|
    && forall x :: i <= x < j ==> SweepAction(actions[x]) && !actions[x].SweepStop?
  }

  /** The row of the run is completed in both states with the same publication, or in neither. */
  ghost predicate SameCompleted(s: State, t: State, run: string) {
    forall p: Publication :: Lookup(s.rows, run) == Some(Completed(p)) <==> Lookup(t.rows, run) == Some(Completed(p))
  }

  predicate JournalsNamed(s: State) {
    forall r :: r in s.publications ==> s.publications[r].run == r
  }

  predicate AtWorkOn(s: State, run: string) {
    (s.sweep.SweepMatched? || s.sweep.SweepCommitted?) && s.sweep.p.run == run
  }

  // ----- a file that holds something else -----

  predicate Missed(s: State, run: string, p: Publication) {
    Lookup(s.publications, run) == Some(p) && !InPlace(s, p) && !AtWorkOn(s, run)
  }

  lemma MissedRead(s: State, other: string, run: string, p: Publication)
    requires DoSweep(s, SweepRead(other)).Some? && JournalsNamed(s) && Missed(s, run, p)
    ensures var t := DoSweep(s, SweepRead(other)).value; Missed(t, run, p) && SameCompleted(s, t, run)
  {}

  lemma MissedOther(s: State, a: Action, run: string, p: Publication)
    requires SweepAction(a) && !a.SweepRead? && DoSweep(s, a).Some? && Missed(s, run, p)
    ensures var t := DoSweep(s, a).value; Missed(t, run, p) && SameCompleted(s, t, run)
  {}

  lemma MissStep(s: State, a: Action, run: string, p: Publication)
    requires SweepAction(a) && DoSweep(s, a).Some? && JournalsNamed(s) && Missed(s, run, p)
    ensures Missed(DoSweep(s, a).value, run, p) && SameCompleted(s, DoSweep(s, a).value, run)
  {
    if a.SweepRead? { MissedRead(s, a.run, run, p); } else { MissedOther(s, a, run, p); }
  }

  // ----- a file that holds the journal's document -----

  /** The publication is recorded, and the sweep has no other one for this run at hand. */
  predicate Settled(s: State, p: Publication) {
    && Stored(s, p)
    && (p.run in s.publications ==> s.publications[p.run] == p)
    && (AtWorkOn(s, p.run) ==> s.sweep.p == p)
  }

  lemma SettledCommit(s: State, p: Publication)
    requires DoSweep(s, SweepCommit).Some? && Settled(s, p)
    ensures Settled(DoSweep(s, SweepCommit).value, p)
  {}

  lemma SettledRead(s: State, run: string, p: Publication)
    requires DoSweep(s, SweepRead(run)).Some? && JournalsNamed(s) && Settled(s, p)
    ensures Settled(DoSweep(s, SweepRead(run)).value, p)
  {}

  lemma SettledOther(s: State, a: Action, p: Publication)
    requires SweepAction(a) && !a.SweepCommit? && !a.SweepRead? && DoSweep(s, a).Some? && Settled(s, p)
    ensures Settled(DoSweep(s, a).value, p)
  {}

  lemma SettledStep(s: State, a: Action, p: Publication)
    requires SweepAction(a) && DoSweep(s, a).Some? && JournalsNamed(s) && Settled(s, p)
    ensures Settled(DoSweep(s, a).value, p)
  {
    if a.SweepCommit? {
      SettledCommit(s, p);
    } else if a.SweepRead? {
      SettledRead(s, a.run, p);
    } else {
      SettledOther(s, a, p);
    }
  }

  /** The sweep changes no file, and no journal otherwise than by removing it. */
  predicate Shrinks(s: State, t: State) {
    t.files == s.files && forall r :: r in t.publications ==>
      r in s.publications && t.publications[r] == s.publications[r]
  }

  lemma ShrinkStep(s: State, a: Action)
    requires SweepAction(a) && DoSweep(s, a).Some?
    ensures Shrinks(s, DoSweep(s, a).value)
  {}

  /** Reading a journal whose file matches, the sweep goes on to store exactly that. */
  lemma MatchedStep(s: State, run: string, a: Action)
    requires DoSweep(s, SweepRead(run)).Some? && JournalsNamed(s) && InPlace(s, s.publications[run])
    requires var t := DoSweep(s, SweepRead(run)).value;
      SweepAction(a) && !a.SweepStop? && DoSweep(t, a).Some?
    ensures Settled(DoSweep(DoSweep(s, SweepRead(run)).value, a).value, s.publications[run])
  {}

  // ----- over the whole sweep -----

  lemma SweepStepAt(states: seq<State>, actions: seq<Action>, i: nat, j: nat, x: nat)
    requires Sweeping(states, actions, i, j) && i <= x < j
    ensures DoSweep(states[x], actions[x]) == Some(states[x + 1]) && JournalsNamed(states[x])
  {
    RunNext(states, actions, x);
    RunKeeps(states, actions, x);
  }

  lemma {:induction false} SweepShrinks(states: seq<State>, actions: seq<Action>, i: nat, j: nat, x: nat)
    requires Sweeping(states, actions, i, j) && i <= x <= j
    ensures Shrinks(states[i], states[x])
  {
    if i < x {
      SweepShrinks(states, actions, i, j, x - 1);
      SweepStepAt(states, actions, i, j, x - 1);
      ShrinkStep(states[x - 1], actions[x - 1]);
    }
  }

  lemma {:induction false} SweepMisses(
      states: seq<State>, actions: seq<Action>, i: nat, j: nat, run: string, p: Publication)
    requires Sweeping(states, actions, i, j) && Missed(states[i], run, p)
    ensures SameCompleted(states[i], states[j], run)
    decreases j - i
  {
    if i < j {
      SweepStepAt(states, actions, i, j, i);
      MissStep(states[i], actions[i], run, p);
      SweepMisses(states, actions, i + 1, j, run, p);
    }
  }

  lemma {:induction false} SweepSettles(states: seq<State>, actions: seq<Action>, i: nat, j: nat, p: Publication)
    requires Sweeping(states, actions, i, j) && Settled(states[i], p)
    ensures Settled(states[j], p)
    decreases j - i
  {
    if i < j {
      SweepStepAt(states, actions, i, j, i);
      SettledStep(states[i], actions[i], p);
      SweepSettles(states, actions, i + 1, j, p);
    }
  }

  lemma MatchIsStored(states: seq<State>, actions: seq<Action>, x: nat, j: nat, run: string)
    requires Sweeping(states, actions, x, j) && x < j && actions[x] == SweepRead(run) && states[j].sweep.Resting?
    requires run in states[x].publications && InPlace(states[x], states[x].publications[run])
    ensures Settled(states[j], states[x].publications[run])
  {
    SweepStepAt(states, actions, x, j, x);
    assert states[x + 1].sweep.SweepMatched?;
    SweepStepAt(states, actions, x, j, x + 1);
    MatchedStep(states[x], run, actions[x + 1]);
    SweepSettles(states, actions, x + 2, j, states[x].publications[run]);
  }

  /** A sweep that reads the journal of a run and is not cut short leaves the run completed with the journal's
      publication if and only if the file holds it, or the run was so completed before. */
  lemma WholeSweep(states: seq<State>, actions: seq<Action>, i: nat, x: nat, j: nat, run: string)
    requires Sweeping(states, actions, i, j) && states[i].sweep.Resting? && states[j].sweep.Resting?
    requires i <= x < j && actions[x] == SweepRead(run)
    ensures run in states[i].publications && states[i].publications[run].run == run
    ensures var p := states[i].publications[run];
      && (Lookup(states[j].rows, run) == Some(Completed(p))
          <==> InPlace(states[i], p) || Lookup(states[i].rows, run) == Some(Completed(p)))
      && (InPlace(states[i], p) || SameCompleted(states[i], states[j], run))
  {
    SweepStepAt(states, actions, i, j, i);
    SweepStepAt(states, actions, i, j, x);
    SweepShrinks(states, actions, i, j, x);
    var p := states[i].publications[run];
    if InPlace(states[i], p) {
      MatchIsStored(states, actions, x, j, run);
    } else {
      SweepMisses(states, actions, i, j, run, p);
    }
  }
}
