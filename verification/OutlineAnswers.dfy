/** What an edit, a plan and an approval bring about: the stored texts are the ones given, and nothing is refused
    without reason. */
module OutlineAnswers {
  import opened Options
  import opened OutlineProtocol
  import opened OutlineTheorems

  /** The step `a` is enabled in `s` and leads to `t`. */
  predicate Leads(s: State, a: Action, t: State) {
    Next(s, a) == Some(t)
  }

  // ----- edits -----

  /** The plan a user sees: the pending one, or else the final one. */
  predicate Shown(s: State, p: Plan) {
    s.db.candidate == Some(p) || (s.db.candidate.None? && s.db.outline == Some(p))
  }

  /** An edit that was not sent before is taken exactly if no worker is active and it is based on the plan shown. */
  lemma EditIsTakenExactly(s: State, id: string, base: nat, text: string)
    requires id !in s.db.receipts
    ensures Next(s, ReviseText(id, base, text)).Some?
      <==> s.worker.Absent? && exists p :: Shown(s, p) && p.revision == base
    ensures Next(s, ReviseFeedback(id, base)).Some?
      <==> s.worker.Absent? && exists p :: Shown(s, p) && p.revision == base
  {
    if s.db.candidate.Some? {
      assert Shown(s, s.db.candidate.value);
    } else if s.db.outline.Some? {
      assert Shown(s, s.db.outline.value);
    }
  }

  /** The user's own outline becomes the pending plan, under the next number; its review, its approval and any
      final outline before it are gone. */
  lemma EditIsStored(s: State, id: string, base: nat, text: string)
    requires id !in s.db.receipts && Next(s, ReviseText(id, base, text)).Some?
    ensures var t := Next(s, ReviseText(id, base, text)).value;
      && t.db.candidate.Some? && t.db.candidate.value.revision == base + 1 && t.db.candidate.value.text == text
      && t.db.outline.None? && t.db.approved.None? && t.db.awaiting && t.db.preview
      && t.db.revision == base + 1 && t.db.round == 0
  {}

  /** Feedback alone leaves no plan pending, so that the next one is made anew under the next number. */
  lemma FeedbackIsStored(s: State, id: string, base: nat)
    requires Inv(s) && id !in s.db.receipts && Next(s, ReviseFeedback(id, base)).Some?
    ensures var t := Next(s, ReviseFeedback(id, base)).value;
      && t.db.candidate.None? && t.db.outline.None? && t.db.approved.None? && t.db.preview
      && t.db.revision == base && t.db.round == 0 && t.db.feedback > s.db.feedback
  {}

  /** From a first edit on, whatever is pending, archived, reviewed or final under its number at any later moment
      of the run is the text the user sent. */
  lemma EditedTextLasts(states: seq<State>, actions: seq<Action>, i: nat, j: nat,
                        id: string, base: nat, text: string, q: Plan)
    requires IsRun(states, actions) && i < j <= |actions|
    requires actions[i] == ReviseText(id, base, text) && id !in states[i].db.receipts
    ensures states[i + 1].db.candidate.Some?
    ensures var p := states[i + 1].db.candidate.value; p.revision == base + 1 && p.text == text
    ensures Persisted(states[j].db, q) && q.revision == base + 1 ==> q.text == text
  {
    RunNext(states, actions, i);
    EditIsStored(states[i], id, base, text);
    if Persisted(states[j].db, q) && q.revision == base + 1 {
      OnePlanPerRevision(states, actions, i + 1, j, states[i + 1].db.candidate.value, q);
    }
  }

  // ----- plans -----

  predicate PlanText(a: Action, text: string) {
    (a.Generate? || a.GenerateWhole?) && a.text == text
  }

  lemma PlanInHand(s: State, a: Action, text: string)
    requires PlanText(a, text) && Next(s, a).Some? && Inv(s)
    ensures var w := Next(s, a).value.worker;
      w.Planned? && w.plan.text == text && w.plan.revision == s.db.revision + 1
  {}

  lemma PlanIsStored(s: State)
    requires s.worker.Planned?
    ensures Next(s, Store).Some? && Next(s, Store).value.db.candidate == Some(s.worker.plan)
    ensures s.worker.revision in Next(s, Store).value.db.archive
    ensures Next(s, Store).value.db.archive[s.worker.revision] == s.worker.plan
    ensures Next(s, Store).value.worker.Stored? && Next(s, Store).value.worker.plan == s.worker.plan
  {}

  /** What the planner returned is what is stored, under the number after the stored one. */
  lemma GeneratedTextIsStored(states: seq<State>, actions: seq<Action>, i: nat, text: string)
    requires IsRun(states, actions) && i + 1 < |actions| && PlanText(actions[i], text) && actions[i + 1] == Store
    ensures states[i + 2].db.candidate.Some?
    ensures var p := states[i + 2].db.candidate.value; p.text == text && p.revision == states[i].db.revision + 1
  {
    RunKeeps(states, actions, i);
    RunNext(states, actions, i);
    RunNext(states, actions, i + 1);
    PlanInHand(states[i], actions[i], text);
    PlanIsStored(states[i + 1]);
  }

  /** Starting resumes the final outline if there is one, and otherwise the planning where it was left. */
  lemma BeginsExactly(s: State)
    ensures Next(s, Begin).Some? <==> s.worker.Absent?
    ensures s.worker.Absent? ==> Next(s, Begin).value.db == s.db.(awaiting := false)
    ensures s.worker.Absent? ==>
      Next(s, Begin).value.worker
      == if s.db.outline.Some? then Writing(s.db.outline.value) else Top(s.db.revision, s.db.round)
  {}

  /** Without a pending plan the source can be divided into chapters for the next number; the division is kept with
      the feedback it was made for. */
  lemma DivisionIsKept(s: State)
    requires Inv(s) && s.worker.Top? && s.db.candidate.None?
    ensures Next(s, Divide).Some?
    ensures var t := Next(s, Divide).value;
      && t.worker == Divided(s.db.revision + 1, s.worker.round) && t.db.parts == s.db.parts
      && s.db.revision + 1 in t.db.chapters && t.db.chapters[s.db.revision + 1] == s.db.feedback
  {}

  /** The first plan of a run has number one, rests on no feedback and is the first of its round. */
  lemma FirstPlanIsOne(preview: bool, text: string) returns (a: State, b: State, t: State)
    ensures Leads(Initial(preview), Begin, a) && Leads(a, GenerateWhole(text), b) && Leads(b, Store, t)
    ensures t.db.candidate == Some(Plan(1, text, {0})) && t.db.revision == 1 && t.db.round == 0
    ensures t.worker == Stored(1, 0, Plan(1, text, {0})) && t.db.outline.None? && t.db.approved.None?
  {
    a := Next(Initial(preview), Begin).value;
    b := Next(a, GenerateWhole(text)).value;
    t := Next(b, Store).value;
  }

  /** The plan of a batch is kept with the feedback it was made for; the plans of other batches stay. */
  lemma PartIsKept(s: State, batch: nat)
    requires Inv(s) && s.worker.Divided?
    ensures Next(s, PlanPart(batch)).Some?
    ensures var t, key := Next(s, PlanPart(batch)).value, (s.db.revision + 1, batch);
      && t.worker == s.worker && t.db.chapters == s.db.chapters
      && t.db.parts == s.db.parts[key := s.db.feedback]
  {}

  /** The parts are joined into one plan exactly when the plans of all batches are there. */
  lemma JoinsExactly(s: State, text: string, batches: nat, n: nat)
    requires Inv(s) && s.worker.Divided? && n == s.db.revision + 1
    ensures Next(s, Generate(text, batches)).Some? <==> forall k :: 0 <= k < batches ==> (n, k) in s.db.parts
  {}

  /** The joined plan rests on the feedback that the division and the plans of its batches were made for. */
  lemma JoinedFromKept(s: State, text: string, batches: nat, f: nat)
    requires s.worker.Divided? && Next(s, Generate(text, batches)).Some?
    ensures var w := Next(s, Generate(text, batches)).value.worker;
      && w.Planned? && w.plan.revision == s.worker.revision && w.plan.text == text
      && s.worker.revision in s.db.chapters
      && (f in w.plan.basis
          <==> f == s.db.chapters[s.worker.revision]
               || exists k :: 0 <= k < batches && (s.worker.revision, k) in s.db.parts
                              && s.db.parts[(s.worker.revision, k)] == f)
  {}

  /** A correction starts from nothing pending, under the same number, with new feedback and one round more. */
  lemma CorrectionStartsAnew(s: State)
    requires Inv(s) && Next(s, Correct).Some?
    ensures var t := Next(s, Correct).value;
      && t.worker == Top(s.db.revision, s.db.round + 1) && t.db.candidate.None? && t.db.feedback == s.db.feedback + 1
      && t.db.revision == s.db.revision && t.db.round == s.db.round + 1 && t.db.approved == s.db.approved
  {}

  /** While the document is written its structure can be given up once: no plan and no approval is left. */
  lemma ReplansExactly(s: State)
    requires Inv(s)
    ensures Next(s, Replan).Some? <==> s.worker.Writing? && !s.db.replanned
    ensures Next(s, Replan).Some? ==>
      var t := Next(s, Replan).value;
      && t.worker == Top(s.db.revision, 0) && t.db.replanned && t.db.candidate.None? && t.db.outline.None?
      && t.db.approved.None? && t.db.revision == s.db.revision && t.db.round == 0 && t.db.feedback > s.db.feedback
  {}

  /** A run can stop anywhere and loses nothing that is stored; it waits for the user if that is why it stopped. */
  lemma StopLosesNothing(s: State, waiting: bool)
    ensures Next(s, Stop(waiting)).Some?
    ensures var t := Next(s, Stop(waiting)).value;
      t.worker.Absent? && t.db == s.db.(awaiting := t.db.awaiting) && (t.db.awaiting <==> waiting || s.db.awaiting)
  {}

  // ----- what follows a review -----

  /** With a reviewed plan there is exactly one way on: it becomes final if it is clean and needs no approval or has
      it, waits for the user if it is clean and has none, is corrected if it is not clean and fewer than three were
      made, and is given up otherwise. */
  lemma ReviewDecides(s: State)
    requires s.worker.Reviewed?
    ensures var w, db := s.worker, s.db;
      && (Next(s, Accept).Some? <==> !w.major && (!db.preview || db.approved == Some(w.plan.revision)))
      && (Next(s, Await).Some? <==> !w.major && db.preview && db.approved != Some(w.plan.revision))
      && (Next(s, Correct).Some? <==> w.major && w.round < 2)
      && (Next(s, GiveUp).Some? <==> w.major && w.round >= 2)
  {}

  /** Whether a review finds a major issue is what the model says now, or what a review cached under the same number
      said before. */
  lemma ReviewIsRecorded(s: State, major: bool)
    requires s.worker.Stored?
    ensures Next(s, ReviewPlan(major)).Some?
    ensures var t, n := Next(s, ReviewPlan(major)).value, s.worker.plan.revision;
      && t.worker.Reviewed? && t.worker.plan == s.worker.plan && t.worker.round == s.worker.round
      && (t.worker.major <==> major || (n in s.db.reviews && s.db.reviews[n].major))
      && n in t.db.reviews && t.db.reviews[n].major == t.worker.major
  {}

  /** A plan that waits for the user, and one that is given up, leave the run waiting and everything stored as it is. */
  lemma WaitsForTheUser(s: State, a: Action)
    requires (a.Await? || a.GiveUp?) && Next(s, a).Some?
    ensures Next(s, a).value.worker.Absent? && Next(s, a).value.db == s.db.(awaiting := true)
  {}

  // ----- approval -----

  /** Approval by number is taken exactly if no worker is active, the run waits for it, and that number is the pending
      plan's, reviewed without a major issue. */
  lemma ApprovalIsTakenExactly(s: State, revision: nat)
    requires Inv(s)
    ensures Next(s, Approve(revision)).Some?
            <==> s.worker.Absent? && s.db.awaiting
                 && exists p :: s.db.candidate == Some(p) && p.revision == revision
                      && revision in s.db.reviews && s.db.reviews[revision] == Review(p, false)
  {}

  lemma ApprovalIsKept(s: State, p: Plan) returns (a: State, b: State)
    requires Inv(s) && s.worker.Absent? && s.db.candidate == Some(p) && s.db.awaiting && s.db.outline.None?
    requires p.revision in s.db.reviews && s.db.reviews[p.revision] == Review(p, false)
    ensures Leads(s, Approve(p.revision), a) && Leads(a, Begin, b)
    ensures b.worker == Top(s.db.revision, s.db.round) && b.db.candidate == Some(p)
    ensures b.db.approved == Some(p.revision) && b.db.reviews == s.db.reviews
  {
    a := Next(s, Approve(p.revision)).value;
    b := Next(a, Begin).value;
  }

  lemma ApprovedIsFinal(s: State, p: Plan) returns (a: State, b: State, c: State, t: State)
    requires s.worker.Top? && s.db.candidate == Some(p) && s.db.approved == Some(p.revision)
    requires p.revision in s.db.reviews && s.db.reviews[p.revision] == Review(p, false)
    ensures Leads(s, Pending, a) && Leads(a, Store, b) && Leads(b, ReviewPlan(false), c) && Leads(c, Accept, t)
    ensures t.db.outline == Some(p) && t.worker == Writing(p)
  {
    a := Next(s, Pending).value;
    b := Next(a, Store).value;
    c := Next(b, ReviewPlan(false)).value;
    t := Next(c, Accept).value;
  }

  /** A pending plan without a major issue, once approved, is the one the document is written from. */
  lemma ApprovalTakesEffect(s: State, p: Plan) returns (m: State, t: State)
    requires Inv(s) && s.worker.Absent? && s.db.candidate == Some(p) && s.db.awaiting && s.db.outline.None?
    requires p.revision in s.db.reviews && s.db.reviews[p.revision] == Review(p, false)
    ensures exists a :: Leads(s, Approve(p.revision), a) && Leads(a, Begin, m)
    ensures exists a, b, c ::
      Leads(m, Pending, a) && Leads(a, Store, b) && Leads(b, ReviewPlan(false), c) && Leads(c, Accept, t)
    ensures t.db.outline == Some(p) && t.worker == Writing(p)
  {
    var a, b, c, d;
    a, m := ApprovalIsKept(s, p);
    b, c, d, t := ApprovedIsFinal(m, p);
  }
}
