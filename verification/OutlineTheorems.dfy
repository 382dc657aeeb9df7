/** What the outline protocol guarantees over whole runs, with the process stopping anywhere. */
module OutlineTheorems {
  import opened Options
  import opened OutlineProtocol

  ghost predicate StepIn(states: seq<State>, actions: seq<Action>, i: nat)
    requires i < |actions| < |states|
  {
    Next(states[i], actions[i]) == Some(states[i + 1])
  }

  ghost predicate IsRun(states: seq<State>, actions: seq<Action>) {
    && |states| == |actions| + 1
    && states[0] == Initial(states[0].db.preview)
    && (forall i :: 0 <= i < |actions| ==> StepIn(states, actions, i))
  }

  lemma {:induction false} RunKeeps(states: seq<State>, actions: seq<Action>, n: nat)
    requires IsRun(states, actions) && n <= |actions|
    ensures Inv(states[n])
  {
    if n > 0 {
      RunKeeps(states, actions, n - 1);
      RunNext(states, actions, n - 1);
      StepKeeps(states[n - 1], actions[n - 1]);
    }
  }

  lemma RunNext(states: seq<State>, actions: seq<Action>, i: nat)
    requires IsRun(states, actions) && i < |actions|
    ensures Next(states[i], actions[i]) == Some(states[i + 1])
  {
    assert StepIn(states, actions, i);
  }

  // ----- one plan per revision -----

  /** Plan `p` is somewhere among the checkpoints. */
  ghost predicate Persisted(db: Checkpoints, p: Plan) {
    || db.candidate == Some(p) || db.outline == Some(p)
    || (exists n :: n in db.archive && db.archive[n] == p)
    || (exists n :: n in db.reviews && db.reviews[n].of == p)
  }

  lemma StepMints(s: State, a: Action)
    requires Inv(s) && Next(s, a).Some?
    ensures forall n :: n in s.minted ==> n in Next(s, a).value.minted && Next(s, a).value.minted[n] == s.minted[n]
  {}

  lemma {:induction false} RunMints(states: seq<State>, actions: seq<Action>, m: nat, n: nat)
    requires IsRun(states, actions) && m <= n <= |actions|
    ensures forall k :: k in states[m].minted ==> k in states[n].minted && states[n].minted[k] == states[m].minted[k]
  {
    if m < n {
      RunMints(states, actions, m, n - 1);
      RunKeeps(states, actions, n - 1);
      RunNext(states, actions, n - 1);
      StepMints(states[n - 1], actions[n - 1]);
    }
  }

  /** Two plans stored at any two moments of a run under one revision are the same plan. */
  lemma OnePlanPerRevision(states: seq<State>, actions: seq<Action>, i: nat, j: nat, p: Plan, q: Plan)
    requires IsRun(states, actions) && i <= j <= |actions|
    requires Persisted(states[i].db, p) && Persisted(states[j].db, q) && p.revision == q.revision
    ensures p == q
  {
    RunKeeps(states, actions, i);
    RunKeeps(states, actions, j);
    RunMints(states, actions, i, j);
    assert Minted(states[i], p) && Minted(states[j], q);
  }

  /** So the review cached under a number is the review of the plan that has it, and a pending
      candidate has the stored revision. */
  lemma StoredVersionsAgree(states: seq<State>, actions: seq<Action>, n: nat)
    requires IsRun(states, actions) && n <= |actions|
    ensures var db := states[n].db;
      && (db.candidate.Some? ==> db.candidate.value.revision == db.revision)
      && (db.candidate.Some? && db.revision in db.reviews ==> db.reviews[db.revision].of == db.candidate.value)
      && (db.outline.Some? ==> db.outline.value.revision in db.reviews)
      && (db.outline.Some? ==> db.reviews[db.outline.value.revision] == Review(db.outline.value, false))
  {
    RunKeeps(states, actions, n);
  }

  /** A pending plan was made from the feedback now stored and no other, and the chapters and batches cached for
      the next revision were made under it: a resume never mixes two feedbacks. */
  lemma PlansFollowFeedback(states: seq<State>, actions: seq<Action>, n: nat)
    requires IsRun(states, actions) && n <= |actions|
    ensures var db := states[n].db;
      && (db.candidate.Some? ==> db.candidate.value.basis == {db.feedback})
      && (db.revision + 1 in db.chapters ==> db.chapters[db.revision + 1] == db.feedback)
      && (forall key :: key in db.parts && key.0 == db.revision + 1 ==> db.parts[key] == db.feedback)
  {
    RunKeeps(states, actions, n);
  }

  // ----- bounded correction -----

  /** The step resets the correction round. */
  predicate Resets(s: State, a: Action) {
    a.Replan? || ((a.ReviseText? || a.ReviseFeedback?) && a.id !in s.db.receipts)
  }

  predicate Makes(s: State, a: Action) {
    a.Store? && s.db.candidate.None?
  }

  /** How many newly made plans are stored in steps `i` to `j - 1`. */
  ghost function Made(states: seq<State>, actions: seq<Action>, i: nat, j: nat): nat
    requires i <= j <= |actions| < |states|
    decreases j
  {
    if i == j then 0 else Made(states, actions, i, j - 1) + (if Makes(states[j - 1], actions[j - 1]) then 1 else 0)
  }

  lemma StepMakes(s: State, a: Action)
    requires Next(s, a).Some? && !Resets(s, a)
    ensures Next(s, a).value.generated == s.generated + (if Makes(s, a) then 1 else 0)
  {}

  lemma {:induction false} MadeCounts(states: seq<State>, actions: seq<Action>, i: nat, j: nat)
    requires IsRun(states, actions) && i <= j <= |actions|
    requires forall m :: i <= m < j ==> !Resets(states[m], actions[m])
    ensures states[j].generated == states[i].generated + Made(states, actions, i, j)
    decreases j
  {
    if i < j {
      MadeCounts(states, actions, i, j - 1);
      RunNext(states, actions, j - 1);
      StepMakes(states[j - 1], actions[j - 1]);
    }
  }

  /** However often the run is stopped and resumed, at most three plans are stored between two resets
      of the correction round. */
  lemma AtMostThreePlans(states: seq<State>, actions: seq<Action>, i: nat, j: nat)
    requires IsRun(states, actions) && i <= j <= |actions|
    requires forall m :: i <= m < j ==> !Resets(states[m], actions[m])
    ensures Made(states, actions, i, j) <= 3
  {
    MadeCounts(states, actions, i, j);
    RunKeeps(states, actions, j);
  }

  predicate Asks(a: Action) {
    a.Generate? || a.GenerateWhole?
  }

  function One(b: bool): nat {
    if b then 1 else 0
  }

  /** A plan that is made but not stored yet; a stop loses it. */
  function InHand(s: State): nat {
    One(s.worker.Planned? && s.db.candidate.None?)
  }

  /** How many plans are generated in steps `i` to `j - 1`, and how often the run stops. */
  ghost function Asked(actions: seq<Action>, i: nat, j: nat): nat
    requires i <= j <= |actions|
    decreases j
  {
    if i == j then 0 else Asked(actions, i, j - 1) + One(Asks(actions[j - 1]))
  }

  ghost function Stops(actions: seq<Action>, i: nat, j: nat): nat
    requires i <= j <= |actions|
    decreases j
  {
    if i == j then 0 else Stops(actions, i, j - 1) + One(actions[j - 1].Stop?)
  }

  lemma StepAsks(s: State, a: Action)
    requires Inv(s) && Next(s, a).Some? && !Resets(s, a)
    ensures InHand(s) + One(Asks(a)) <= InHand(Next(s, a).value) + One(Makes(s, a)) + One(a.Stop?)
  {}

  lemma {:induction false} AskedCounts(states: seq<State>, actions: seq<Action>, i: nat, j: nat)
    requires IsRun(states, actions) && i <= j <= |actions|
    requires forall m :: i <= m < j ==> !Resets(states[m], actions[m])
    ensures InHand(states[i]) + Asked(actions, i, j) <= InHand(states[j]) + Made(states, actions, i, j)
      + Stops(actions, i, j)
    decreases j
  {
    if i < j {
      AskedCounts(states, actions, i, j - 1);
      RunKeeps(states, actions, j - 1);
      RunNext(states, actions, j - 1);
      StepAsks(states[j - 1], actions[j - 1]);
    }
  }

  /** The model is asked for at most three plans between two resets, and one more for each stop. */
  lemma AskedForAtMostThree(states: seq<State>, actions: seq<Action>, i: nat, j: nat)
    requires IsRun(states, actions) && i <= j <= |actions|
    requires forall m :: i <= m < j ==> !Resets(states[m], actions[m])
    ensures Asked(actions, i, j) <= 3 + Stops(actions, i, j)
  {
    AskedCounts(states, actions, i, j);
    MadeCounts(states, actions, i, j);
    RunKeeps(states, actions, j);
  }

  predicate Edits(a: Action) {
    a.ReviseText? || a.ReviseFeedback?
  }

  lemma EditReplans(s: State, a: Action)
    requires Edits(a) && Next(s, a).Some?
    ensures Next(s, a).value.db.replanned == s.db.replanned
  {}

  lemma StepReplans(s: State, a: Action)
    requires Next(s, a).Some?
    ensures s.db.replanned ==> Next(s, a).value.db.replanned && !a.Replan?
    ensures a.Replan? ==> Next(s, a).value.db.replanned
  {
    if Edits(a) { EditReplans(s, a); }
  }

  lemma RunStepReplans(states: seq<State>, actions: seq<Action>, i: nat)
    requires IsRun(states, actions) && i < |actions|
    ensures states[i].db.replanned ==> states[i + 1].db.replanned && !actions[i].Replan?
    ensures actions[i].Replan? ==> states[i + 1].db.replanned
  {
    RunNext(states, actions, i);
    StepReplans(states[i], actions[i]);
  }

  lemma {:induction false} RunReplanned(states: seq<State>, actions: seq<Action>, i: nat, n: nat)
    requires IsRun(states, actions) && i < n <= |actions| && actions[i].Replan?
    ensures states[n].db.replanned
    decreases n
  {
    RunStepReplans(states, actions, n - 1);
    if i + 1 < n { RunReplanned(states, actions, i, n - 1); }
  }

  /** The structure of a drafted document is replanned at most once. */
  lemma ReplannedOnce(states: seq<State>, actions: seq<Action>, i: nat, j: nat)
    requires IsRun(states, actions) && i < j < |actions| && actions[i].Replan?
    ensures !actions[j].Replan?
  {
    RunReplanned(states, actions, i, j);
    RunStepReplans(states, actions, j);
  }

  // ----- approval -----

  /** At step `m` the user approves plan `p` by its number, seeing it as the pending candidate with
      a review that names no major issue. */
  ghost predicate ApprovedAt(s: State, a: Action, p: Plan) {
    a == Approve(p.revision) && s.db.candidate == Some(p)
    && p.revision in s.db.reviews && s.db.reviews[p.revision] == Review(p, false)
  }

  lemma StepConsents(s: State, a: Action, n: nat)
    requires Inv(s) && Next(s, a).Some? && n in Next(s, a).value.consent
    ensures (n in s.consent && Next(s, a).value.consent[n] == s.consent[n])
      || ApprovedAt(s, a, Next(s, a).value.consent[n])
  {}

  lemma {:induction false} RunConsents(states: seq<State>, actions: seq<Action>, n: nat, revision: nat)
    requires IsRun(states, actions) && n <= |actions| && revision in states[n].consent
    ensures exists m :: 0 <= m < n && ApprovedAt(states[m], actions[m], states[n].consent[revision])
  {
    if n > 0 {
      RunKeeps(states, actions, n - 1);
      RunNext(states, actions, n - 1);
      StepConsents(states[n - 1], actions[n - 1], revision);
      if !ApprovedAt(states[n - 1], actions[n - 1], states[n].consent[revision]) {
        RunConsents(states, actions, n - 1, revision);
      }
    }
  }

  /** In preview mode the final outline is one the user approved by number, pending and without a
      major issue at that moment. */
  lemma FinalOutlineWasApproved(states: seq<State>, actions: seq<Action>, n: nat)
    requires IsRun(states, actions) && n <= |actions|
    requires states[n].db.outline.Some? && states[n].db.preview
    ensures exists m :: 0 <= m < n && ApprovedAt(states[m], actions[m], states[n].db.outline.value)
  {
    var p := states[n].db.outline.value;
    RunKeeps(states, actions, n);
    assert p.revision in states[n].consent && states[n].consent[p.revision] == p;
    RunConsents(states, actions, n, p.revision);
  }

  // ----- requests -----

  lemma EditKeepsReceipt(s: State, a: Action, id: string)
    requires Edits(a) && Next(s, a).Some? && id in s.db.receipts
    ensures id in Next(s, a).value.db.receipts && Next(s, a).value.db.receipts[id] == s.db.receipts[id]
  {}

  lemma OtherKeepsReceipt(s: State, a: Action, id: string)
    requires !Edits(a) && Next(s, a).Some? && id in s.db.receipts
    ensures id in Next(s, a).value.db.receipts && Next(s, a).value.db.receipts[id] == s.db.receipts[id]
  {}

  lemma StepKeepsReceipts(s: State, a: Action)
    requires Next(s, a).Some?
    ensures forall id :: id in s.db.receipts ==>
              id in Next(s, a).value.db.receipts && Next(s, a).value.db.receipts[id] == s.db.receipts[id]
  {
    var t := Next(s, a).value;
    forall id | id in s.db.receipts ensures id in t.db.receipts && t.db.receipts[id] == s.db.receipts[id] {
      if Edits(a) { EditKeepsReceipt(s, a, id); } else { OtherKeepsReceipt(s, a, id); }
    }
  }

  lemma {:induction false} RunKeepsReceipts(states: seq<State>, actions: seq<Action>, m: nat, n: nat)
    requires IsRun(states, actions) && m <= n <= |actions|
    ensures forall id :: id in states[m].db.receipts ==>
              id in states[n].db.receipts && states[n].db.receipts[id] == states[m].db.receipts[id]
  {
    if m < n {
      RunKeepsReceipts(states, actions, m, n - 1);
      RunNext(states, actions, n - 1);
      StepKeepsReceipts(states[n - 1], actions[n - 1]);
    }
  }

  /** Two edits in one run with the same request id take effect at most once. */
  lemma EditTakesEffectOnce(states: seq<State>, actions: seq<Action>, i: nat, j: nat)
    requires IsRun(states, actions) && i < j < |actions|
    requires (actions[i].ReviseText? || actions[i].ReviseFeedback?)
      && (actions[j].ReviseText? || actions[j].ReviseFeedback?)
    requires actions[i].id == actions[j].id
    ensures var id := actions[i].id;
      && states[j + 1] == states[j]
      && id in states[j].db.receipts && id in states[i + 1].db.receipts
      && states[j].db.receipts[id] == states[i + 1].db.receipts[id]
  {
    RunNext(states, actions, i);
    RunNext(states, actions, j);
    assert actions[i].id in states[i + 1].db.receipts;
    RunKeepsReceipts(states, actions, i + 1, j);
  }
}
