# DocCraft Agent: verified models

DocCraft Agent writes long documents about source code in runs that can be cancelled, resumed and cut
short by a crash at any moment. These Dafny files model the parts whose exactness the rest depends on,
and prove what the program promises about them. `dafny verify dfyconfig.toml` checks the project.

* **Lifecycle, LifecycleInvariant, LifecycleTheorems, LifecycleAnswers, LifecycleProgress, LifecycleRecords,
  LifecycleSweep, LifecycleWindow** - registering, cancelling, publishing and ending attempts, crashes and the recovery
  sweep, as a step relation. The lock order, the identity of the gate and the order of journal writes are steps of
  their own, and so are the failures of the database and the file system on the way, so interleavings, failures and
  crash points are all runs. The theorems speak of all runs and all reachable states: what never happens, and in
  LifecycleAnswers and LifecycleProgress what is never refused and never stuck.
* **OutlineProtocol, OutlineTheorems, OutlineAnswers** - planning, correction rounds, user edits, approval by number and
  the one structural replan over the checkpoints of a run. A transaction is one step.
* **Retrieval** - paged top-64 retrieval with at most 8 rows of a path.
* **GraphOrder** - the stack-based ordering of chunks.
* **JsonRepair, JsonMeaning, JsonText** - repairing strings in almost-JSON, what the repaired strings say, and the
  effect on valid JSON (sections 5 and 7 of RFC 8259).
* **CodeMask, BlockRules, SpanRules, CodeRanges, Citations** - which characters of a Markdown text are code, and
  replacing citations by footnotes. CodeMask defines it position by position, BlockRules and SpanRules state the rules
  for lines and spans without a scan, CodeRanges holds the loops.
* **Chapters** - dividing a source into chapters, cutting these into requests, joining their plans.
* **Shares** - apportioning sections and diagrams.
* **Ownership** - which section explains a leaf that several reach.
* **CallLinks, Projection, CallAccounts, Rationing** - folding call sites into links, projecting these to the files of a
  request with every call site accounted for, and rationing what the request can carry.
* **Aliases, CitationViews, CitationRules** - shortest unique prefixes of evidence ids, resolving them, what a citation
  names, and whole texts that are sent with aliases and normalised when they come back.
* **Chunks** - lossless chunking of a file, and the binary search for the chunk of a call site.
* **SectionParts** - assembling one section from bounded responses.
* **RateLimiter**, **Budget** - the sliding window, the token gate and density calibration.

Code that changes things step by step is a method or a class proved against a specification; the two
protocols are step relations because their properties are about interleavings.

## Where the code does not meet the wish, and exactly when it does

* The comparison of the target with the snapshot and its replacement are two steps inside the commit
  gate. An edit by another program between them is overwritten unseen:
  `LifecycleWindow.EditInTheWindowIsLost` gives such a run. What is replaced is the recorded content if and
  only if the last write by others in that window, if there is one, wrote exactly that
  (`LifecycleWindow.ReplacesOriginalExactly`).
* A text whose only citations are full ids outside code is meant to survive being sent with aliases. An
  opener `[E:` that is more than 400 characters from the next closing bracket is no citation; if that
  bracket closes a citation whose id becomes shorter, the opener can come within reach and swallow it.
  `CitationViews.ShadowsExist` gives such a text for every id that has a shorter alias. The text is
  restored if and only if it has no such opener and is not itself an id with a shorter alias
  (`CitationViews.TextRoundTrip`).
* Repair is meant to leave valid JSON alone. It does so if and only if no array has a string directly
  followed by a number, `true`, `false` or `null` (`JsonText.RepairLeavesJsonAlone`); a text it damages
  is in `JsonText.StringBeforeNumberBreaks`.
* An ambiguous call names four candidates at most, so it counts as leaving the request although a supplied
  file declares its name if and only if all supplied files that do come behind the fourth
  (`Projection.AmbiguousLeads`); `Projection.FifthDeclarerIsMissed` is such a call.

## Model

| member | source | states |
|---|---|---|
| LifecycleInvariant.StepKeeps | backend/src/runner.rs:39-192 | every step of every worker, request, sweep, editor, failure or crash keeps the joint invariant of registry, gates, journals, rows and files |
| LifecycleTheorems.CancelExcludesReplacement | backend/src/api.rs:549-583 | in no run is a cancel of an attempt acknowledged and the output replaced by that attempt, in either order |
| LifecycleTheorems.PublishedRefuses | backend/src/api.rs:562-566 | once `published` is set, no request about that attempt can be acknowledged |
| LifecycleTheorems.CancelReachesOnlyItsAttempt | backend/src/api.rs:558-577 | a request that captured one attempt writes a journal or sets a token only while the registry still names that attempt, and touches no other one |
| LifecycleAnswers.AnswerIsDetermined | backend/src/api.rs:558-582 | a request that holds both guards is refused if and only if the registry no longer maps the run to its attempt or the attempt has published; otherwise it is answered at once if the token is set, and writes its journal if not |
| LifecycleAnswers.JournalThenSignal | backend/src/api.rs:567-577 | the journal is followed by the signal and the acknowledgement of that very attempt |
| LifecycleAnswers.CancelIsAccepted | backend/src/api.rs:549-583 | once the locks are free, a cancel of an active attempt that has not published succeeds, whatever its worker is doing |
| LifecycleAnswers.CancelSurvivesCrash | backend/src/runner.rs:357-371 | if the process dies right after the acknowledgement, the next sweep records the run as cancelled unless it is completed |
| LifecycleAnswers.FailureIsRecorded | backend/src/runner.rs:155-189 | what a worker that ends with an error records: interrupted during a shutdown, else cancelled if signalled, else its error, and never over a completed run |
| LifecycleAnswers.RegistersExactly | backend/src/runner.rs:54-87 | a run is registered if and only if no sweep is at work, the registry is free, fewer than 64 are active, and no attempt still going on is of this run or writes to this target |
| LifecycleAnswers.PublishesUndisturbed | backend/src/publish.rs:27-99 | an attempt that nobody cancels or disturbs publishes its draft, at its target if this still holds what the snapshot recorded and beside it if not; the database says so and the journal is gone |
| LifecycleProgress.NothingIsStuck | backend/src/api.rs:549-583 | from every reachable state every attempt can come to its end by steps of workers and requests alone, whatever locks are held: no interleaving with cancel requests leaves one stuck |
| LifecycleProgress.GoesOnExactly | backend/src/publish.rs:68-99 | a worker goes on unless it waits for a lock, its target changed before the comparison, or it finds its token set behind it |
| LifecycleRecords.ShutdownReachesAll | backend/src/context.rs:73-81 | after a shutdown every attempt still going on gets its token set once the registry is free, and nothing else changes |
| LifecycleRecords.CrashKeepsDisk | backend/src/publish.rs:120-158 | a crash leaves files, journals and database as they are and no attempt, lock or request |
| LifecycleTheorems.ActiveRuns | backend/src/runner.rs:53-87 | at most 64 runs are active, their outputs are distinct, and an unsignalled attempt that is not finishing has no terminal journal |
| LifecycleTheorems.UnrecordedOutputIsJournalled | backend/src/publish.rs:67-99 | at every crash point: if the latest attempt's document is in place and the database does not say so, the journal with that document is on disk |
| LifecycleTheorems.SweepCompletesOutput | backend/src/publish.rs:148-158 | with no run active the sweep then commits it, if the file still holds it |
| LifecycleSweep.WholeSweep | backend/src/publish.rs:120-158 | over a whole sweep that reads the journal of a run and is not cut short: the run ends completed with the journal's document if and only if the file holds it or it was before, and otherwise nothing is completed for that run |
| LifecycleTheorems.NoDowngrade | backend/src/runner.rs:357-371 | no replay, recovery or end-of-attempt update takes back a completed run |
| LifecycleTheorems.CompletedWasInPlace | backend/src/publish.rs:97-119 | a run is recorded as completed with a publication only if its output file held exactly that at some moment |
| LifecycleWindow.ReplacesTheOriginal | backend/src/publish.rs:34-52 | an undisturbed attempt replaces at its target exactly what the snapshot recorded, and otherwise writes a conflict copy |
| LifecycleWindow.ReplacesOriginalExactly | backend/src/publish.rs:75-96 | in every run the replaced content is the recorded one if and only if the last write of the target by others between comparison and replacement, if any, wrote exactly that |
| LifecycleWindow.HoldsLastWrite | backend/src/publish.rs:75-92 | during that window the file holds what was written to it last |
| LifecycleWindow.EditInTheWindowIsLost | backend/src/publish.rs:79-92 | a reachable state in which an edit made in that window was overwritten |
| OutlineProtocol.StepKeeps | backend/src/planning.rs:1390-1495 | every step of planning, editing, approving, replanning or stopping keeps the consistency of the checkpoints |
| OutlineTheorems.OnePlanPerRevision | backend/src/planning.rs:1406-1418 | no two plans stored at any moments of a run share a revision |
| OutlineTheorems.StoredVersionsAgree | backend/src/planning.rs:1402-1418 | a pending candidate has the stored revision, and the review cached under a number is of the plan that has it |
| OutlineTheorems.PlansFollowFeedback | backend/src/planning.rs:2069-2120 | no resume mixes a plan, cached chapters or cached batches with another round's feedback |
| OutlineTheorems.AtMostThreePlans | backend/src/planning.rs:1460-1479 | between two resets of the round at most three plans are stored, however often the run stops and resumes |
| OutlineTheorems.AskedForAtMostThree | backend/src/planning.rs:1390-1479 | between two resets the model is asked for at most three plans and one more for each stop |
| OutlineTheorems.ReplannedOnce | backend/src/runner.rs:1337-1361 | the structure is replanned at most once in a run |
| OutlineTheorems.FinalOutlineWasApproved | backend/src/composition.rs:265-299 | in preview mode the final outline is one the user approved by number, pending and without a major issue |
| OutlineTheorems.EditTakesEffectOnce | backend/src/composition.rs:166-244 | two edits with one request id take effect at most once, with the same answer |
| OutlineAnswers.EditIsTakenExactly | backend/src/composition.rs:167-184 | an edit not sent before is taken if and only if no worker is active and it is based on the plan shown |
| OutlineAnswers.EditedTextLasts | backend/src/composition.rs:200-236 | a first edit leaves the user's own text pending under the next number, and whatever is pending, archived, reviewed or final under that number at any later moment is that text |
| OutlineAnswers.FeedbackIsStored | backend/src/composition.rs:208-236 | feedback alone leaves no plan pending, final or approved, and the number as it was |
| OutlineAnswers.GeneratedTextIsStored | backend/src/planning.rs:1392-1421 | what the planner returned is what is stored, under the number after the stored one |
| OutlineAnswers.PartIsKept | backend/src/planning.rs:2069-2120 | the plan of a batch is kept under number and batch with the feedback in force, and the plans of other batches stay |
| OutlineAnswers.ReviewDecides | backend/src/planning.rs:1447-1464 | with a reviewed plan exactly one way is open: final, waiting for the user, a correction if fewer than two were made, or giving up |
| OutlineAnswers.ReviewIsRecorded | backend/src/planning.rs:1424-1445 | a cached review of the number counts, and what is found on top of it is stored |
| OutlineAnswers.CorrectionStartsAnew | backend/src/planning.rs:1477-1495 | a correction leaves nothing pending, keeps the number, and counts one round and new feedback |
| OutlineAnswers.ReplansExactly | backend/src/runner.rs:1337-1361 | the structure is given up only while writing and only once, and no plan or approval is left |
| OutlineAnswers.JoinsExactly | backend/src/planning.rs:2069-2120 | the parts are joined if and only if the plans of all batches are there |
| OutlineAnswers.ApprovalIsTakenExactly | backend/src/composition.rs:264-298 | an approval is taken if and only if no worker is active, the run waits for it, and the number is the pending plan's, reviewed without a major issue |
| OutlineAnswers.ApprovalTakesEffect | backend/src/composition.rs:264-299 | an approved plan is the one the document is written from |
| Retrieval.Retrieve | backend/src/source.rs:476-524 | the page loop returns what sorting all rows, keeping 8 of a path and truncating to 64 would, whatever the page sizes |
| Retrieval.PagingIsExact | backend/src/source.rs:516-523 | keeping only what was kept so far before more rows arrive loses nothing |
| Retrieval.CapAndTruncate | backend/src/source.rs:517-523 | the `retain` with its table of counts and the `truncate`, as one walk |
| Retrieval.CapThenTruncate | backend/src/source.rs:517-523 | the one walk is the per-path cap followed by the truncation |
| Retrieval.KeptAreTheBest | backend/src/source.rs:516-523 | at most 64 of the rows and 8 of a path are kept, best first; a row is dropped only if 64 rows or 8 of its own path are kept and it is better than none of them, by score and then by the lower id in string order |
| GraphOrder.LinkKeepsSymmetric | backend/src/graph.rs:271-277 | linking keeps the weights symmetric and adds to the one pair only |
| GraphOrder.Ranked | backend/src/graph.rs:241-247 | neighbours heaviest first, lower index first among equals |
| GraphOrder.Push | backend/src/graph.rs:250-255 | what the reversed push loop leaves on the stack and marks as seen |
| GraphOrder.Block | backend/src/graph.rs:237-256 | one component, from its first unlisted chunk on, appended to the order |
| GraphOrder.Order | backend/src/graph.rs:230-259 | every chunk exactly once; a chunk has an earlier neighbour or starts a block at the first unlisted chunk, everything before being closed; of the chunks reached and not yet listed the next is the one reached last, and of several reached by one chunk its strongest neighbour |
| GraphOrder.OrderIsUnique | backend/src/graph.rs:230-259 | these rules leave one order only |
| GraphOrder.ComponentsAreContiguous | backend/src/graph.rs:233-258 | between two chunks of one connected component only chunks of it are listed |
| JsonRepair.Repair | backend/src/llm.rs:898-962 | the scanner returns the repaired text, or nothing exactly when no repair was needed |
| JsonMeaning.RepairKeepsMeaning | backend/src/llm.rs:898-962 | read by the rules of section 7 of RFC 8259, a repaired text says what the broken one was meant to say: valid escapes decoded, and every other character, quote that closes nothing, stray backslash or control character as it stood |
| JsonMeaning.RepairAndRead | backend/src/llm.rs:898-962 | the same of what the scanner returns, repaired or not |
| JsonMeaning.ClosesExactly | backend/src/llm.rs:865-884 | a quote closes a string exactly if white space only, a colon and the start of a value, a comma and the start of a string, object or array, or closing brackets up to a comma or the end come behind it |
| JsonRepair.Turn | backend/src/llm.rs:904-957 | one turn of the scanner: what it writes, how far it moves, and that it counts as a repair exactly when it changes the text |
| JsonRepair.FixedIsClean | backend/src/llm.rs:864-962 | a repaired text needs no repair |
| JsonRepair.RepairTwice | backend/src/llm.rs:898-962 | repairing a repaired text reports no change |
| JsonText.RepairLeavesJsonAlone | backend/src/llm.rs:864-962 | a valid JSON text is left unchanged if and only if no array in it has a string directly followed by a number, true, false or null |
| JsonText.StringBeforeNumberBreaks | backend/src/llm.rs:864-962 | a valid text that repair damages |
| CodeMask.CodeStays | backend/src/editorial.rs:20-128 | exchanging one citation outside code for another leaves every position before and behind it code or not as it was, and makes no part of the new one code |
| CodeMask.LinePair | backend/src/editorial.rs:29-64 | the block rules treat the two lines alike and leave fence, paragraph and list state the same |
| CodeMask.CloseTwin | backend/src/editorial.rs:97-125 | the closing backtick run of a span is found at the corresponding place |
| CodeRanges.BlockCodeRanges | backend/src/editorial.rs:20-71 | the ranges are within the text, pairwise disjoint and cover exactly the block code; the flag tells whether a fence is left open |
| BlockRules.BlocksFollowTheRules | backend/src/editorial.rs:24-64 | which lines these are, told without the scan: from a line that opens a fence to the first that closes it, and indented lines where neither a paragraph nor a list is open, a list being open from a marker line to an unindented line with text that starts no item |
| CodeRanges.FindClose | backend/src/editorial.rs:97-125 | the search stops at a block or a blank line and skips runs of another width |
| SpanRules.SpanFollowsTheRules | backend/src/editorial.rs:92-125 | a backtick run the scan comes to starts a span exactly if a whole run of the same width follows before any block or blank line, and the span ends with the first such run |
| CodeRanges.CodeRanges | backend/src/editorial.rs:74-128 | the ranges are within the text, pairwise disjoint and cover exactly its code |
| Citations.ReplaceMatches | backend/src/editorial.rs:142-150 | the match loop replaces every match outside code and copies everything else |
| Citations.ReplaceCitation | backend/src/editorial.rs:137-152 | the same, with the code ranges of the text |
| Citations.LabelsDiffer | backend/src/editorial.rs:318-322 | no two footnotes share a label |
| Citations.ReplacedKeepsCode | backend/src/editorial.rs:137-152 | replacing maps the code of the old text onto that of the new one, character for character |
| Citations.Merge | backend/src/editorial.rs:318-322 | replacing one id first and the others later equals replacing all in one pass |
| Citations.RenderSection | backend/src/editorial.rs:319-322 | the rendered section depends on the set of ids and not on the order in which the map yields them, and keeps every code literal |
| Chapters.ClaimAll | backend/src/planning.rs:1851-1878 | the labels of one chapter are claimed unless one is unknown or belongs to another chapter |
| Chapters.ReadChapters | backend/src/planning.rs:1837-1879 | succeeds exactly when titles are distinct and sound, labels known, and nothing is named by two chapters |
| Chapters.ReadExclusions | backend/src/planning.rs:1880-1911 | accepts exactly the exclusions that contradict no chapter, and collects the branches they cover |
| Chapters.FindOwners | backend/src/planning.rs:1912-1927 | naming a branch beats excluding it, which beats taking its group |
| Chapters.DecodeChapters | backend/src/planning.rs:1803-1986 | a division is accepted if and only if it is acceptable as spelled out, and then every chapter holds the branches that belong to it, in reading order |
| Chapters.EveryBranchOnce | backend/src/planning.rs:1799-1802 | every branch is in exactly one chapter or dropped, never both |
| Chapters.ChapterBatches | backend/src/planning.rs:2036-2055 | batches hold 1 to 16 branches, all but the last of a chapter 16, and are numbered within it; put together they are the chapter in reading order |
| Chapters.SortedIs | backend/src/planning.rs:2042-2042 | the sorted chapter holds the same branches as often, in reading order |
| Chapters.BatchesAreApart | backend/src/planning.rs:2039-2055 | batches of an accepted division share no branch, and none has a dropped one |
| Chapters.JoinPlans | backend/src/planning.rs:2098-2135 | the parts' sections stand one after the other with the same dependencies; every section depends on earlier ones only, and nothing is both explained and excluded |
| Shares.ChapterShares | backend/src/planning.rs:1990-2005 | every part gets its quota by weight, at least one, unless the quotas exceed the total or one each: then exactly that much is handed out, and only the largest shares are lowered, each to no more than one below the largest; no part ends more than one below a part that is no heavier |
| Shares.LoweredIsUnique | backend/src/planning.rs:1990-2005 | the quotas and how much is handed out determine the shares, ties included |
| Shares.DiagramShares | backend/src/planning.rs:2009-2026 | the total is handed out exactly, heavier or earlier parts never get less, nor less on top of their quota, and each share is its quota or one more |
| Shares.ToppedUpIsUnique | backend/src/planning.rs:2009-2026 | the weights and the total determine the shares: each quota is topped up by as much as the others, or one more for a heavier or earlier part |
| Ownership.Choose | backend/src/purpose.rs:515-526 | the best match, among those the one that has won least, among those the first |
| Ownership.Own | backend/src/purpose.rs:487-529 | exactly the leaves that several sections reach get an owner, chosen by that rule with the counts at that moment |
| Ownership.OwnersAreUnique | backend/src/purpose.rs:415-422 | the owners are determined: whichever section asks gets the same ones |
| Ownership.TiesAreSpread | backend/src/purpose.rs:505-529 | when the same sections always tie, their shares differ by at most one |
| Ownership.ExactlyOneKeeps | backend/src/purpose.rs:415-422 | every leaf that some section reaches is kept by exactly one section |
| Ownership.Kept | backend/src/purpose.rs:537-558 | kept and left elsewhere add up to what the section reaches; best match first, reading order among equals |
| Ownership.AssignAll | backend/src/purpose.rs:437-445 | all sections in one pass: each gets the part that the owners determine, best match first, and each reached leaf is kept once |
| Ownership.PartIsUnique | backend/src/purpose.rs:537-558 | the owners determine what a section gets, order included |
| Ownership.AssignLeaves | backend/src/purpose.rs:423-430 | a section that asks alone gets the part that the owners determine |
| Ownership.AssignBothWays | backend/src/purpose.rs:432-445 | asking for all sections at once gives each what it gets alone |
| CallLinks.ResolvedMeansOne | backend/src/graph.rs:631-642 | a link has a resolved file exactly when one other file declares the name |
| CallLinks.BuildIndex | backend/src/graph.rs:604-613 | the table of names holds exactly the declared names, each with all files that declare it in order and the first symbol of each |
| CallLinks.Fold | backend/src/graph.rs:624-642 | looking at two entries of the table decides the fate of a call site |
| CallLinks.CountCalls | backend/src/graph.rs:614-644 | the counting loops compute the tally of the fates of all call sites, file by file |
| CallLinks.TallyCounts | backend/src/graph.rs:614-644 | every entry of a tally counts exactly the call sites that fold into it, and no fate is missing |
| CallLinks.BuildLinks | backend/src/graph.rs:645-674 | one link for each folded fate, with its count, and for an ambiguous one the first four other files that declare the name |
| Projection.Project | backend/src/graph.rs:761-786 | links of supplied files are listed under their file in order if they lead to one, and counted as leaving otherwise |
| Projection.EveryCallAccounted | backend/src/graph.rs:598-818 | for any set of supplied files the calls shown, leaving, within their file and to undeclared names add up to the call edges of these files |
| CallAccounts.Describe | backend/src/graph.rs:755-818 | a request is shown the links of its files that lead to supplied files, and told exactly how many calls leave, stay in their file and name nothing: a call is shown if one of the first four other files that declare its name is supplied, leaves if another file declares it and none of these is, stays if only its own file does, and is lost if none does |
| CallAccounts.WaysAreCounted | backend/src/graph.rs:598-786 | the tallies count exactly the calls that go each way |
| Projection.AmbiguousLeads | backend/src/graph.rs:648-663 | an ambiguous call is shown if and only if one of the first four other files that declare its name is supplied |
| Projection.ResolvedLeads | backend/src/graph.rs:765-772 | a resolved call is shown if and only if a supplied file declares its name |
| Projection.FifthDeclarerIsMissed | backend/src/graph.rs:574-574 | a call that counts as leaving although a supplied file, the fifth, declares its name |
| Rationing.Round | backend/src/graph.rs:460-475 | one round takes at most one record of each file, in order; without progress every file has ended |
| Rationing.Ration | backend/src/graph.rs:455-487 | a prefix of every file's records, taken round by round, within the budget; a file ends only with a record that did not fit beside those taken before its turn |
| Rationing.RationIsUnique | backend/src/graph.rs:455-487 | sizes and budget determine what is taken, and in what order |
| Aliases.SpelledMeans | backend/src/findings.rs:154-157 | an id is spelled with eight to 64 hexadecimal digits of either case |
| Aliases.Alias | backend/src/editorial.rs:612-625 | the alias is the shortest prefix of at least eight characters that no other id shares |
| Aliases.Match | backend/src/findings.rs:159-164 | how many ids start with a spelling, and the one if there is one |
| Aliases.ResolveIds | backend/src/findings.rs:134-184 | succeeds exactly when every spelling is well formed and names one id, none twice, and then holds the full ids |
| Aliases.AliasesResolve | backend/src/findings.rs:154-182 | aliases of distinct ids resolve to these ids |
| Aliases.RoundTrip | backend/src/editorial.rs:585-627 | compacting and resolving gives the list back |
| CitationViews.CompactText | backend/src/editorial.rs:601-609 | the loop over the ids applies one replacement after the other |
| CitationViews.SentIsShort | backend/src/editorial.rs:601-609 | on a text whose only citations are full ids this shortens each citation, and nothing else, whatever the order of the ids |
| CitationViews.ShortIsHonest | backend/src/editorial.rs:601-609 | shortening citations leaves what is code as it was |
| CitationViews.Collect | backend/src/markdown.rs:435-453 | the parts of a citation: all their ids in order, once each, or none if a part names nothing |
| CitationRules.MatchMeans | backend/src/markdown.rs:25-25 | a citation is an opener, one to 400 characters that are no closing bracket, and a closing bracket |
| CitationRules.NamedExactly | backend/src/markdown.rs:412-449 | a part of a citation is taken for an id exactly if its spelling, without white space around it and a repeated marker, has at least eight characters and begins this id only, or else its hexadecimal digits in front of a label do |
| CitationRules.ListIsRewritten | backend/src/markdown.rs:438-457 | a citation whose parts all name something becomes one by each full id, once each, in the order of the first mentions |
| CitationRules.OnePartSpoils | backend/src/markdown.rs:435-450 | one part that names nothing leaves the whole citation as it is |
| CitationRules.IsList | backend/src/markdown.rs:439-439 | every citation is a list of parts, split at its commas |
| CitationViews.NormalizeCitations | backend/src/markdown.rs:397-461 | the match loop rewrites every citation outside code and copies everything else |
| CitationViews.TextRoundTrip | backend/src/markdown.rs:397-461 | a text whose only citations are full ids outside code is restored if and only if no opener is shadowed and it is not just an id with a shorter alias |
| CitationViews.ShadowsExist | backend/src/markdown.rs:25-25 | for every id with a shorter alias, a text that is not restored |
| Chunks.CutProgresses | backend/src/parser.rs:139-163 | every chunk makes progress and has at most 12,000 bytes, so the early exit is never taken |
| Chunks.PreferredIsTaken | backend/src/parser.rs:147-159 | a cut short of the end lies at the last preferred boundary that leaves more than 4000 and at most 12,000 bytes, moved back at most to the start of a character |
| Chunks.ElseAfterALine | backend/src/parser.rs:147-159 | without one it lies behind the last line break within the limit, and without that as far as the limit allows |
| Chunks.MakeChunk | backend/src/parser.rs:164-178 | lines and symbols of one chunk are those of its bytes |
| Chunks.NamesInOrder | backend/src/parser.rs:164-178 | a chunk lists exactly the names declared in it, in the order given |
| Chunks.ChunkText | backend/src/parser.rs:135-182 | the chunks cover the text without gap or overlap, cut where the rule says and between characters, with exact 1-based lines; put together they are the text |
| Chunks.CutsSplitNothing | backend/src/parser.rs:141-159 | no cut splits a character |
| Chunks.Lossless | backend/src/parser.rs:135-182 | chunks that follow the cuts put together are the text |
| Chunks.CoverIsInLineOrder | backend/src/graph.rs:261-262 | chunks of one text come in line order |
| Chunks.ChunkAt | backend/src/graph.rs:263-269 | the binary search returns what a linear scan for the first overlapping chunk would |
| Chunks.ChunkOfCall | backend/src/graph.rs:261-269 | on the chunks of a text the binary search returns the first chunk that overlaps the lines of a call |
| SectionParts.StripFindsMarker | backend/src/section_output.rs:63-78 | the marker is recognised exactly where it stands on a line of its own, outside code, at the end of the text |
| SectionParts.EchoIsLongest | backend/src/section_output.rs:86-105 | what is dropped from a part is the longest beginning of 32 to 8000 characters that the text so far ends with, and only at a subsection boundary |
| SectionParts.JoinedAsWritten | backend/src/section_output.rs:104-110 | a part that continues neither a cut-off nor an echo is set off by a blank line, and otherwise nothing comes between |
| SectionParts.CombinedHoldsBoth | backend/src/section_output.rs:86-110 | the joined text starts with the old text and ends with the whole response, echo or not |
| SectionParts.AcceptedExactly | backend/src/section_output.rs:82-116 | a part is accepted exactly if it has text, and new text, and more text is visible than before |
| SectionParts.AppendGrows | backend/src/section_output.rs:110-121 | after an accepted part the old text is a prefix of the new one and there is more visible text |
| SectionParts.CutOffIsContinued | backend/src/section_output.rs:86-121 | a cut-off is continued byte for byte, apart from a marker that ends the text |
| SectionParts.Progress.Append | backend/src/section_output.rs:81-122 | an accepted part gives exactly the specified state, a refused part changes nothing |
| SectionParts.Write | backend/src/section_output.rs:132-182 | the loop goes on until a reply finishes the section, the limit of 24 parts is reached or a reply cannot be taken, and not longer; the result is what the replies taken add up to, at least one visible character a part, and an error is that of the reply which could not be taken |
| RateLimiter.AdmitKeepsLimits | backend/src/llm.rs:692-697 | an admission keeps every run of admissions that spans less than 60 seconds within both limits, to the tick of the clock |
| RateLimiter.RefusedIfItBreaksALimit | backend/src/llm.rs:681-707 | beside a queue purged of what left the window, a request is refused if and only if admitting it would break a limit |
| RateLimiter.Limiter.Try | backend/src/llm.rs:681-707 | a request is admitted exactly if the limits allow it beside those of the last minute, and is otherwise told to wait for the oldest; the history stays within limits |
| RateLimiter.Limiter.Acquire | backend/src/llm.rs:680-714 | a lone request is admitted after at most as many waits as the queue has entries, and if no wait takes longer than asked, as soon as it breaks no limit |
| RateLimiter.NeverAdmitted | backend/src/llm.rs:693-694 | some queue admits a request if and only if it is within the limit, which callers and validated settings see to (llm.rs 401-403, config.rs 226-227) |
| Budget.GateMeans | backend/src/budget.rs:94-112 | a request passes if and only if input, output and margin fit the context, the margin being a percentage of it of at most 90 |
| Budget.GateIsExact | backend/src/budget.rs:94-112 | exactly which byte counts pass the gate at a density |
| Budget.PackedPasses | backend/src/budget.rs:71-92 | whatever is packed within a positive limit passes the gate at the same density, serialized to at most 125% |
| Budget.LimitIsTight | backend/src/budget.rs:79-92 | the limit leaves out no request that the gate would pass |
| Budget.ValidatedExactly | backend/src/config.rs:187-201 | settings are accepted if and only if they are within the bounds and a request of 513 tokens would pass the gate |
| Budget.ValidatedHasRoom | backend/src/config.rs:185-201 | saved settings leave room for 513 tokens of input, which are 410 raw bytes, at any density |
| Budget.EstimateCovers | backend/src/budget.rs:36-41 | at a density no sparser than its own sample a request is estimated at no less than it used |
| Budget.SampleMeans | backend/src/budget.rs:48-56 | a report is a usable sample if it is about at least 4096 bytes and there were one to six of them to a token; the density is rounded down |
| Budget.Calibration.Density | backend/src/context.rs:120-126 | the density in force is 85% of the lowest of at least three samples, between 1 and 3 bytes a token, and else 1; it underestimates no accepted report |
| Budget.Calibration.Record | backend/src/context.rs:137-159 | a usable report lowers the floor to its density and counts once, any other changes nothing |
| Budget.Calibration.Distrust | backend/src/context.rs:161-163 | calibration is off from then on |

## Left out

- Claims that every acknowledged cancel ends with status `cancelled`: a worker already finishing, or a shutdown, can record another status. What is claimed is that nothing is published, what a failing worker records (LifecycleAnswers.FailureIsRecorded), and what the sweep records after a crash (LifecycleAnswers.CancelSurvivesCrash).
- `cancel_requested` and the update that recovery makes from it, the snapshot decryption and re-enqueueing of interrupted runs at the end of recovery: a resume is an ordinary registration step.
- Publication across a resume that skips the recovery sweep: the new attempt overwrites the publication journal, so the claims are made for the latest attempt of a run.
- LifecycleWindow.ReplacesTheOriginal: conflict copies are named by target and run; the handling of file stems and of paths that differ in letter case only is not modelled.
- LifecycleTheorems.CompletedWasInPlace: SHA-256 is taken as injective, so contents are compared where the program compares hashes; warnings and the two completed statuses are one.
- `reserve` under concurrency, and restoring the calibration from a replayed journal, which omits it.
- OutlineProtocol.StepKeeps: what the model answers when it plans or reviews is arbitrary; evidence gathered between rounds, section texts and events are not modelled. Candidates saved without a revision field are not either.
- Retrieval.Retrieve: scoring, the SQL paging by row id, and the packing of excerpts after the loop are not modelled; rows carry their score.
- CodeMask.CodeStays, CodeRanges.CodeRanges: texts are sequences of characters where the program indexes bytes. All characters the scans look for are ASCII, so the positions correspond. Code is described position by position; whether two neighbouring ranges are one or two is not fixed, and no caller asks.
- Citations.RenderSection: numbering the passages and the list of references are not modelled; the numbers are given, for hexadecimal ids as the digests are.
- CitationViews.CompactText: one string of the request; the walk over the JSON value and its `content` keys is not modelled.
- CitationViews.NormalizeCitations: an id is at least 8 characters where the program counts bytes; that is the same for hexadecimal ids.
- JsonRepair.Repair: finding the JSON object in a response before repairing it is not modelled.
- Chapters.DecodeChapters: length bounds of titles, summaries and reasons are one flag each; labels and titles come trimmed and normalised; which problem the message names is not modelled, nor are the texts of reasons. Groups of a view share no branch, as the levels of the reading tree do not.
- Chapters.JoinPlans: section titles, questions and anchors are not modelled; each part is taken as its validation leaves it.
- CallLinks.CountCalls: files are told apart by position where the program counts same-file and undeclared calls by path, and the owner of a call site is given by its name.
- CallLinks.BuildLinks: sorting the links for display is not modelled.
- CallAccounts.Describe: common path roots, the wording of records and the lists of files without links are not modelled.
- Rationing.Ration: records are their serialized sizes.
- Ownership.Own: the reading tree is a list of leaves, each section reaches some of them, and how well a section's terms match a leaf is a given number.
- Chunks.ChunkText: of UTF-8 it needs only that a continuation byte follows a byte of a longer encoding and that at most three stand in a row, which every valid text satisfies.
- SectionParts.Progress.Append: lengths count characters where the program counts bytes, in the limits of 32 and 8000 for an echo too.
- RateLimiter.Limiter.Acquire: other requests do not compete, and the clock is given; cancellation while waiting is not modelled.
- Budget.Calibration.Record: the atomics are read and written one call after the other; counters are natural numbers, saturating where the code saturates.
- HTTP handlers, SQL, encryption, process spawning, prompts, Mermaid checking and the user interface.
