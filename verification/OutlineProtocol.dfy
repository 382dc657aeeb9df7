/** Planning, user revision, approval and the one structural replan, as steps over the checkpoints
    of one run. A transaction is one step; the process may stop between any two. */
module OutlineProtocol {
  import opened Options

  /** `basis` numbers the feedbacks the plan and its parts were made from. */
  datatype Plan = Plan(revision: nat, text: string, basis: set<nat>)

  datatype Review = Review(of: Plan, major: bool)

  /** What the database holds. */
  datatype Checkpoints = Checkpoints(
    candidate: Option<Plan>,
    archive: map<nat, Plan>,         // outline_candidate:{n}
    revision: nat,                   // outline_state
    round: nat,
    feedback: nat,                   // which outline_feedback is stored
    chapters: map<nat, nat>,         // outline_chapters:{n}, by the feedback it was divided under
    parts: map<(nat, nat), nat>,     // outline_chapter:{n}:{chapter}:{part}, likewise; batches are numbered
    reviews: map<nat, Review>,       // outline_review:{n}
    outline: Option<Plan>,
    approved: Option<nat>,
    replanned: bool,                 // outline_after_draft
    preview: bool,                   // preview_outline of the run's snapshot
    awaiting: bool,                  // status 'awaiting_outline'
    receipts: map<string, nat>)      // outline_edit:{id}

  /** Where the worker stands; everything here is lost in a crash. */
  datatype Worker =
    | Absent
    | Top(revision: nat, round: nat)                             // head of the planning loop
    | Divided(revision: nat, round: nat)                         // chapters of `revision` are stored
    | Planned(revision: nat, round: nat, plan: Plan)             // a plan in hand, not yet stored
    | Stored(revision: nat, round: nat, plan: Plan)
    | Reviewed(revision: nat, round: nat, plan: Plan, major: bool)
    | Writing(plan: Plan)

  datatype State = State(
    db: Checkpoints,
    worker: Worker,
    minted: map<nat, Plan>,          // history: every plan ever stored, by revision
    generated: nat,                  // history: plans the model made since `round` was last reset
    consent: map<nat, Plan>)         // history: what the user approved, by revision

  datatype Action =
    | Begin                              // a worker starts or resumes
    | Divide                             // chapter division, cached per revision
    | PlanPart(batch: nat)               // one batch of a chapter is planned, cached per revision
    | Generate(text: string, batches: nat) // all batches are planned, and joined
    | GenerateWhole(text: string)        // or in one request
    | Pending                            // a stored candidate is picked up instead
    | Store                              // candidate, archive and state in one transaction
    | ReviewPlan(major: bool)
    | Accept
    | Await
    | GiveUp
    | Correct
    | Replan
    | Stop(waiting: bool)                // the worker ends, or the process dies
    | ReviseText(id: string, base: nat, text: string)
    | ReviseFeedback(id: string, base: nat)
    | Approve(revision: nat)

  const MAX_CORRECTIONS: nat := 2

  function Current(db: Checkpoints): Option<Plan> {
    if db.candidate.Some? then db.candidate else db.outline
  }

  function Next(s: State, a: Action): Option<State> {
    match a
    case Begin =>
      if !s.worker.Absent? then None
      else if s.db.outline.Some? then Some(s.(worker := Writing(s.db.outline.value), db := s.db.(awaiting := false)))
      else Some(s.(worker := Top(s.db.revision, s.db.round), db := s.db.(awaiting := false)))
    case Pending =>
      if s.worker.Top? && s.db.candidate.Some?
      then Some(s.(worker := Planned(s.worker.revision, s.worker.round, s.db.candidate.value))) else None
    case Divide =>
      if s.worker.Top? && s.db.candidate.None? then
        var n := s.worker.revision + 1;
        Some(s.(worker := Divided(n, s.worker.round),
                db := if n in s.db.chapters then s.db else s.db.(chapters := s.db.chapters[n := s.db.feedback])))
      else None
    case PlanPart(batch) =>
      if s.worker.Divided? then
        var key := (s.worker.revision, batch);
        Some(s.(db := if key in s.db.parts then s.db else s.db.(parts := s.db.parts[key := s.db.feedback])))
      else None
    case Generate(text, batches) => DoGenerate(s, text, batches)
    case GenerateWhole(text) =>
      if s.worker.Top? && s.db.candidate.None? then
        var n := s.worker.revision + 1;
        Some(s.(worker := Planned(n, s.worker.round, Plan(n, text, {s.db.feedback}))))
      else None
    case Store =>
      if s.worker.Planned? then
        var w := s.worker;
        Some(s.(worker := Stored(w.revision, w.round, w.plan),
                db := s.db.(candidate := Some(w.plan), archive := s.db.archive[w.revision := w.plan],
                            revision := w.revision, round := w.round),
                minted := s.minted[w.plan.revision := w.plan],
                generated := if s.db.candidate.Some? then s.generated else s.generated + 1))
      else None
    case ReviewPlan(major) => DoReview(s, major)
    case Accept =>
      if s.worker.Reviewed? && !s.worker.major && (s.db.preview ==> s.db.approved == Some(s.worker.plan.revision))
      then Some(s.(worker := Writing(s.worker.plan), db := s.db.(outline := Some(s.worker.plan)))) else None
    case Await =>
      if s.worker.Reviewed? && !s.worker.major && s.db.preview && s.db.approved != Some(s.worker.plan.revision)
      then Some(s.(worker := Absent, db := s.db.(awaiting := true))) else None
    case GiveUp =>
      if s.worker.Reviewed? && s.worker.major && s.worker.round >= MAX_CORRECTIONS
      then Some(s.(worker := Absent, db := s.db.(awaiting := true))) else None
    case Correct =>
      if s.worker.Reviewed? && s.worker.major && s.worker.round < MAX_CORRECTIONS then
        var w := s.worker;
        Some(s.(worker := Top(w.revision, w.round + 1),
                db := s.db.(candidate := None, revision := w.revision, round := w.round + 1, feedback := s.db.feedback
                  + 1)))
      else None
    case Replan =>
      if s.worker.Writing? && !s.db.replanned then
        Some(s.(worker := Top(s.worker.plan.revision, 0), generated := 0,
                db := s.db.(replanned := true, candidate := None, outline := None, approved := None,
                            revision := s.worker.plan.revision, round := 0, feedback := s.db.feedback + 1)))
      else None
    case Stop(waiting) => Some(s.(worker := Absent, db := s.db.(awaiting := s.db.awaiting || waiting)))
    case ReviseText(id, base, text) => DoRevise(s, id, base, Some(text))
    case ReviseFeedback(id, base) => DoRevise(s, id, base, None)
    case Approve(revision) => DoApprove(s, revision)
  }

  function DoGenerate(s: State, text: string, batches: nat): Option<State> {
    if s.worker.Divided? && s.worker.revision in s.db.chapters
       && forall k :: 0 <= k < batches ==> (s.worker.revision, k) in s.db.parts
    then
      var w := s.worker;
      var basis := {s.db.chapters[w.revision]} + set k | 0 <= k < batches :: s.db.parts[(w.revision, k)];
      Some(s.(worker := Planned(w.revision, w.round, Plan(w.revision, text, basis))))
    else None
  }

  /** A cached review of that number is used as it is; what the server adds is stored back. */
  function DoReview(s: State, major: bool): Option<State> {
    if s.worker.Stored? then
      var w := s.worker;
      var n := w.plan.revision;
      var r := if n in s.db.reviews then s.db.reviews[n].(major := s.db.reviews[n].major || major)
        else Review(w.plan, major);
      Some(s.(worker := Reviewed(w.revision, w.round, w.plan, r.major), db := s.db.(reviews := s.db.reviews[n := r])))
    else None
  }

  /** `revise_inner`: refused while a worker is active or when the base is stale; a request that has
      a receipt changes nothing. */
  function DoRevise(s: State, id: string, base: nat, text: Option<string>): Option<State> {
    if id in s.db.receipts then Some(s)
    else if !s.worker.Absent? || Current(s.db).None? || Current(s.db).value.revision != base then None
    else
      var n := base + 1;
      var plan := if text.Some? then Some(Plan(n, text.value, {s.db.feedback + 1})) else None;
      Some(s.(db := s.db.(outline := None, candidate := plan, approved := None,
                          receipts := s.db.receipts[id := n], revision := if text.Some? then n else base,
                          round := 0, feedback := s.db.feedback + 1, preview := true, awaiting := true),
              minted := if text.Some? then s.minted[n := plan.value] else s.minted,
              generated := 0))
  }

  /** `continue_outline`. */
  function DoApprove(s: State, revision: nat): Option<State> {
    if s.worker.Absent? && s.db.candidate.Some? && s.db.candidate.value.revision == revision
       && revision in s.db.reviews && !s.db.reviews[revision].major && s.db.awaiting
    then Some(s.(db := s.db.(approved := Some(revision)), consent := s.consent[revision := s.db.candidate.value]))
    else None
  }

  function Initial(preview: bool): State {
    var db := Checkpoints(None, map[], 0, 0, 0, map[], map[], map[], None, None, false, preview, false, map[]);
    State(db, Absent, map[], 0, map[])
  }

  // ----- what every step keeps -----

  /** Every stored plan is the one minted under its number. */
  predicate Minted(s: State, p: Plan) {
    p.revision in s.minted && s.minted[p.revision] == p
  }

  ghost predicate PlansOk(s: State) {
    && (forall n :: n in s.minted ==> s.minted[n].revision == n && n <= s.db.revision)
    && (s.db.candidate.Some? ==> Minted(s, s.db.candidate.value) && s.db.candidate.value.revision == s.db.revision)
    && (s.db.outline.Some? ==> s.db.candidate == s.db.outline)
    && (forall n :: n in s.db.archive ==> s.db.archive[n].revision == n && Minted(s, s.db.archive[n]))
    && (forall n :: n in s.db.reviews ==> s.db.reviews[n].of.revision == n && Minted(s, s.db.reviews[n].of))
    && (forall n :: n in s.consent ==> s.consent[n].revision == n && Minted(s, s.consent[n]))
  }

  /** Chapters and plans carry the feedback in force. */
  ghost predicate BasisOk(s: State) {
    && (forall n :: n in s.db.chapters ==> n <= s.db.revision + 1)
    && (s.db.candidate.None? && s.db.revision + 1 in s.db.chapters
      ==> s.db.chapters[s.db.revision + 1] == s.db.feedback)
    && (s.db.candidate.Some? ==> s.db.revision + 1 !in s.db.chapters && s.db.candidate.value.basis == {s.db.feedback})
    && (forall key :: key in s.db.parts ==> key.0 <= s.db.revision + 1)
    && (forall key :: key in s.db.parts && key.0 == s.db.revision + 1 ==>
         s.db.candidate.None? && s.db.parts[key] == s.db.feedback)
  }

  /** The worker's own variables agree with what is stored. */
  ghost predicate WorkerOk(s: State) {
    match s.worker
    case Absent => true
    case Top(n, r) => n == s.db.revision && r == s.db.round && s.db.outline.None?
    case Divided(n, r) =>
      n == s.db.revision + 1 && r == s.db.round && s.db.candidate.None? && s.db.outline.None?
      && n in s.db.chapters && s.db.chapters[n] == s.db.feedback
    case Planned(n, r, p) =>
      p.revision == n && r == s.db.round && p.basis == {s.db.feedback} && s.db.outline.None?
      && (if s.db.candidate.Some? then s.db.candidate == Some(p) && n == s.db.revision else n == s.db.revision + 1)
    case Stored(n, r, p) =>
      p.revision == n == s.db.revision && r == s.db.round && s.db.candidate == Some(p) && s.db.outline.None?
    case Reviewed(n, r, p, major) =>
      p.revision == n == s.db.revision && r == s.db.round && s.db.candidate == Some(p) && s.db.outline.None?
      && n in s.db.reviews && s.db.reviews[n].major == major
    case Writing(p) => s.db.outline == Some(p)
  }

  predicate CountsOk(s: State) {
    && s.db.round <= MAX_CORRECTIONS
    && s.generated <= s.db.round + (if s.db.candidate.Some? then 1 else 0)
  }

  /** Approval names a plan the user saw; a final outline has a clean review and, in preview mode,
      that approval. */
  ghost predicate ApprovalOk(s: State) {
    && (s.db.approved.Some? ==> s.db.approved.value in s.consent)
    && (s.db.outline.Some? ==>
         && s.db.outline.value.revision in s.db.reviews && !s.db.reviews[s.db.outline.value.revision].major
         && (s.db.preview ==> s.db.approved == Some(s.db.outline.value.revision)))
  }

  ghost predicate Inv(s: State) {
    PlansOk(s) && BasisOk(s) && WorkerOk(s) && CountsOk(s) && ApprovalOk(s)
  }

  lemma BeginKeeps(s: State)
    requires Inv(s) && Next(s, Begin).Some?
    ensures Inv(Next(s, Begin).value)
  {}

  lemma DivideKeeps(s: State)
    requires Inv(s) && Next(s, Divide).Some?
    ensures Inv(Next(s, Divide).value)
  {}

  lemma PlanPartKeeps(s: State, batch: nat)
    requires Inv(s) && Next(s, PlanPart(batch)).Some?
    ensures Inv(Next(s, PlanPart(batch)).value)
  {}

  lemma GenerateKeeps(s: State, text: string, batches: nat)
    requires Inv(s) && Next(s, Generate(text, batches)).Some?
    ensures Inv(Next(s, Generate(text, batches)).value)
  {}

  lemma GenerateWholeKeeps(s: State, text: string)
    requires Inv(s) && Next(s, GenerateWhole(text)).Some?
    ensures Inv(Next(s, GenerateWhole(text)).value)
  {}

  lemma PendingKeeps(s: State)
    requires Inv(s) && Next(s, Pending).Some?
    ensures Inv(Next(s, Pending).value)
  {}

  lemma StoreKeeps(s: State)
    requires Inv(s) && Next(s, Store).Some?
    ensures Inv(Next(s, Store).value)
  {}

  lemma ReviewPlanKeeps(s: State, major: bool)
    requires Inv(s) && Next(s, ReviewPlan(major)).Some?
    ensures Inv(Next(s, ReviewPlan(major)).value)
  {}

  lemma AcceptKeeps(s: State)
    requires Inv(s) && Next(s, Accept).Some?
    ensures Inv(Next(s, Accept).value)
  {}

  lemma AwaitKeeps(s: State)
    requires Inv(s) && Next(s, Await).Some?
    ensures Inv(Next(s, Await).value)
  {}

  lemma GiveUpKeeps(s: State)
    requires Inv(s) && Next(s, GiveUp).Some?
    ensures Inv(Next(s, GiveUp).value)
  {}

  lemma CorrectKeeps(s: State)
    requires Inv(s) && Next(s, Correct).Some?
    ensures Inv(Next(s, Correct).value)
  {}

  lemma ReplanKeeps(s: State)
    requires Inv(s) && Next(s, Replan).Some?
    ensures Inv(Next(s, Replan).value)
  {}

  lemma StopKeeps(s: State, waiting: bool)
    requires Inv(s) && Next(s, Stop(waiting)).Some?
    ensures Inv(Next(s, Stop(waiting)).value)
  {}

  lemma ReviseTextKeeps(s: State, id: string, base: nat, text: string)
    requires Inv(s) && Next(s, ReviseText(id, base, text)).Some?
    ensures Inv(Next(s, ReviseText(id, base, text)).value)
  {}

  lemma ReviseFeedbackKeeps(s: State, id: string, base: nat)
    requires Inv(s) && Next(s, ReviseFeedback(id, base)).Some?
    ensures Inv(Next(s, ReviseFeedback(id, base)).value)
  {}

  lemma ApproveKeeps(s: State, revision: nat)
    requires Inv(s) && Next(s, Approve(revision)).Some?
    ensures Inv(Next(s, Approve(revision)).value)
  {}

  lemma StepKeeps(s: State, a: Action)
    requires Inv(s) && Next(s, a).Some?
    ensures Inv(Next(s, a).value)
  {
    match a {
      case Begin => BeginKeeps(s);
      case Divide => DivideKeeps(s);
      case PlanPart(batch) => PlanPartKeeps(s, batch);
      case Generate(text, batches) => GenerateKeeps(s, text, batches);
      case GenerateWhole(text) => GenerateWholeKeeps(s, text);
      case Pending => PendingKeeps(s);
      case Store => StoreKeeps(s);
      case ReviewPlan(major) => ReviewPlanKeeps(s, major);
      case Accept => AcceptKeeps(s);
      case Await => AwaitKeeps(s);
      case GiveUp => GiveUpKeeps(s);
      case Correct => CorrectKeeps(s);
      case Replan => ReplanKeeps(s);
      case Stop(waiting) => StopKeeps(s, waiting);
      case ReviseText(id, base, text) => ReviseTextKeeps(s, id, base, text);
      case ReviseFeedback(id, base) => ReviseFeedbackKeeps(s, id, base);
      case Approve(revision) => ApproveKeeps(s, revision);
    }
  }
}
