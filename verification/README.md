# git-updater, modelled in Dafny

git-updater changes container image tags in a GitOps repository. It parses Kubernetes YAML and
local Kustomizations, plans which scalars to edit so that selected workloads render with a new tag
and nothing else changes, rewrites those scalars byte by byte, and publishes the result with one
conditional push. Requests arrive through a durable job queue, and write access is checked with a
short-lived probe branch. This project models those parts and proves what they promise.

## The parts

**Rendering** (`Strings`, `ImageRefs`, `Repository`, `Render`, `Resolver`, `Graph`). `Resolver.Parser` is the
parser object: an on-path set, a work budget, collected diagnostics, and image overrides applied in
place. `Render` says without any parser state what a Kustomization graph means. `Graph` proves the
cycle check exact and gives the rendering equation that no traversal order occurs in.

**Planning** (`Targets`, `Lockstep`, `Origins`, `Planner`, `PlanBuilder`, `PlanTheorems`, `PlanStability`,
`Forks`, `TagNecessity`, `Passing`, `Overlay`, `PlanWitness`, `Witnesses`, `Rereading`). `PlanBuilder.BuildPlan` is the planner with its
conflict, leak and render-again checks. The main result is that planning commutes with rendering: for a clean
repository whose edited `newTag` scalars are tags, rendering the edited scalars gives every selected use the
requested image and every other use its old one, so the final comparison cannot fail.

The hypothesis on tags is about a whole plan, and it is needed, because the code checks only that the rendered
image parses. `TagNecessity.CommutesExactlyForTags` shows that the final comparison succeeds if and only if every
edited `newTag` held a tag, wherever one that did not is the last override that applies to some use.
`PlanWitness.NoTagIsRefused` and `PlanWitness.PortAndPathIsRefused` give an overlay whose `newTag` is no tag, such as
`5000/b` behind a host name: the request is plannable and parses again, and the plan is refused.
`PlanWitness.RenameHidesNoTag` shows why the last override matters: a later rename can hide such a value, and
then the plan goes through. `Witnesses` has these repositories written out in full. `Passing.CommutesExactly` puts
the condition in terms of the repository before the edit: no later images element that some use passes
names the image the value is attached to. `Rereading` concludes it of the build itself: for a parser that reads one skeleton
through its scalars, a plan is built exactly when it can be drafted, its scalars are found in the text, and
the edited tags are tags.

**Writing** (`Tokens`, `Splice`, `Writer`, `WriterLaws`). `Writer.FindSpan` is the scanner that turns line and
column into a span, `Writer.Apply` encodes in the quoting style of the old token and splices from the
highest offset down. It is proved equal to substituting all spans at once, to succeed exactly when
every span exists and no two overlap, and to be read back by its own scanner.

**Publishing** (`Validation`, `Publication`, `PublicationSafety`, `PublicationRuns`, `Controller`). `Publication` is a state
machine over the remote branch, the local clone, the durable plan, baseline and binding tables and the pushes
in flight; other people's pushes, rewinds and branch deletion, crashes, lost replies and lost or
doubtful database writes may come between any two steps. `Controller.GitManager` has the operations
as imperative methods; a ghost trace shows that each of them is a run of the state machine, so
everything proved of runs holds of it. `Controller.GitManager.ApplyPlan` ties the parts together: the commit
it published parses, renders the requested image for every selected use and the old one for all others.

**Queue and worker** (`Storage`, `Jobs`, `Queue`, `JobRuns`, `Worker`). `Queue.JobStore` is the job table, one step for
each statement or transaction; requests of other handlers come between any two of them, also between the read
and the write of a manual retry or of a failure. `JobRuns` has the theorems over whole histories of the table.
The documented promise that a conflicting job cannot be retried (`docs/cli-mvp.md`, line 133) does not hold
of the code: the update of a retry looks at the status and not at the outcome that was read before.
`JobRuns.ConflictUndone` is a history in which it requeues a conflicting job, and
`JobRuns.ConflictStaysExactly` says when a conflict is final. `Worker.GitWorker` claims a job, works on it
through the controller and records how it ended.

**Access probe** (`Access`, `AccessProbe`). The probe protocol as a state machine and as an imperative class over
the remote references and the durable records. A push that was not answered may take effect at any later
time, or never. Every probe that was made in time is on record as long as it exists, also after others moved
it (`Access.NoStrayProbe`). Only one that was made by a creation which was never confirmed and landed late
can outlive its record (`Access.StrayIsUnconfirmed`, `Access.UnconfirmedMayStay`), and be there when access is
granted (`Access.GrantMayLeaveStray`).

What an operation cannot decide by itself is a parameter: the `Yaml` oracle for plain scalars, the
`parse` function in the planner, and an `Oracle` for events at the remote, crashes, replies, registry
answers, verification results and database outcomes.

## Model

| member | source | states |
|---|---|---|
| ImageRefs.WithTagLaws | internal/controller/model.go:408-415 | Retagging keeps the name used for matching, replaces the tag, drops any digest, and keeps a valid reference valid. |
| ImageRefs.WithTagAbsorbs | internal/controller/model.go:408-415 | Of two retaggings the last one wins, if the first tag is grammatical. |
| ImageRefs.PinLaws | internal/controller/plan.go:172-182 | A retagged reference with a digest appended has the old name, the new tag and that digest. |
| ImageRefs.NormalizeStable | internal/controller/model.go:391-397 | A fully qualified image name is a valid name and is its own qualified name. |
| Repository.LocalPathIsCanonical | internal/controller/model.go:381-390 | A resolved dependency stays inside the repository and has one spelling. |
| Resolver.Parser.Problem | internal/controller/model.go:262-270 | A diagnostic is recorded once; a cycle is reported only by the cycle code. |
| Resolver.Parser.OverrideUseAt | internal/controller/model.go:502-538 | One images element against one collected use, in place: the pure override step when it raises no diagnostic, and a diagnostic exactly when that step fails; no other use changes. |
| Resolver.Parser.OverrideElement | internal/controller/model.go:502-538 | The inner loop equals the override step on every use, with a diagnostic exactly when one of them fails. |
| Resolver.Parser.OverrideInPlace | internal/controller/model.go:480-540 | Overrides outer and uses inner, in place, equals folding the list over each use alone; diagnostics exactly for malformed, duplicate or failing overrides. |
| Resolver.Parser.CheckDuplicates | internal/controller/model.go:464-471 | A diagnostic exactly when two collected uses share resource and container. |
| Resolver.Parser.TransformImages | internal/controller/model.go:472-541 | The images field applied to the collected uses equals the pure transformation. |
| Resolver.Parser.ResolveEntry | internal/controller/model.go:438-457 | One dependency: directory, file or error, equal to the pure rendering; the path set is restored. |
| Resolver.Parser.CollectUses | internal/controller/model.go:433-463 | Concatenation of the dependencies in order, with the limit on uses. |
| Resolver.Parser.Resolve | internal/controller/model.go:416-541 | Without diagnostics the stateful traversal equals the pure rendering, with one exactly when that rendering is undefined; the path set is restored on every return, the shared plain uses are never written, a reported cycle is a real one, and unless a cycle or a limit is reported no chain of dependencies from here meets the path or comes back. |
| Resolver.Parser.ReadDocuments | internal/controller/model.go:86-143 | The table of plain uses holds exactly the image declarations of each file; a diagnostic exactly for an invalid image or a problem found while reading. |
| Resolver.Parser.ReadDependencies | internal/controller/model.go:144-165 | The referenced names are exactly those of all resolvable entries; a diagnostic exactly for an entry that cannot be followed. |
| Resolver.Parser.ReadEntries | internal/controller/model.go:145-164 | The same for one Kustomization. |
| Resolver.Parser.ResolveRoots | internal/controller/model.go:166-179 | Every directory nobody refers to is rendered once as an environment, in order. |
| Resolver.Parser.ResolveAll | internal/controller/model.go:180-183 | Every directory is traversed once more, so that a disconnected cycle is reported. |
| Resolver.Parser.AddPlainFiles | internal/controller/model.go:184-191 | Unreferenced files form an environment for their directory. |
| Resolver.Parser.CheckWorkloads | internal/controller/model.go:200-212 | A diagnostic exactly when two resources of an environment share a workload identity. |
| Resolver.Parser.Parse | internal/controller/model.go:80-214 | The whole parse is free of diagnostics exactly when the reference parse is defined, and then yields its uses; a reported cycle is real, and a cycle anywhere is reported as one unless a limit is. |
| Graph.WalkShrinks | internal/controller/model.go:416-431 | The uses of a directory do not depend on the path it was reached by nor on the budget left. |
| Graph.RenderingEquation | internal/controller/model.go:430-541 | A rendered directory is the concatenation of what its entries render to, transformed by its overrides: no state, no traversal order. |
| Graph.WalkAvoidsPath | internal/controller/model.go:426-431 | A successful traversal never meets a directory that is on its path, along any dependency chain. |
| Graph.CleanParseIsAcyclic | internal/controller/model.go:166-183 | A parse without diagnostics proves the whole graph acyclic, disconnected parts included, with every dependency present and every directory renderable. |
| Targets.RenameKeepsTail | internal/controller/model.go:511-521 | Renaming an unpinned image keeps its tag. |
| Targets.OverrideKeepsTarget | internal/controller/model.go:502-537 | One override keeps the invariant that the target scalar decides the tag. |
| Targets.OverridesKeepTarget | internal/controller/model.go:480-540 | So does a whole list of overrides. |
| Targets.OverrideCorresponds | internal/controller/model.go:502-537 | Editing tags changes neither which overrides match nor whether they apply. |
| Targets.EditedTarget | internal/controller/model.go:525-534 | An edited target shows up in the rendered image as the old name followed by exactly the new tag. |
| Lockstep.WalkCorresponds | internal/controller/model.go:416-541 | Before and after tag edits a directory renders use by use to the same places, names and targets, with the same effort. |
| Lockstep.ParseCorresponds | internal/controller/model.go:80-214 | A repository that parses cleanly still does after tag edits, and the two parses correspond position by position. |
| Lockstep.ParsedTargetsDecide | internal/controller/model.go:502-537 | In a clean parse, through any depth of overlays, every target is the last applied newTag, or else the source, and the effective tag is the one it holds. |
| Origins.ParsedKeysDistinct | internal/controller/plan.go:121-123 | In a clean parse, resource, container, environment and path identify a use, and each use comes from one declaration. |
| Tokens.EncodeScansBack | internal/controller/plan.go:289-302 | What is written in any quoting style scans back to exactly its own length and decodes to the value. |
| Tokens.LineBreakIsLost | internal/controller/model.go:576-579 | In single quotes the restriction to one line is exact: with a line break the written token is never found again. |
| Tokens.TokenKeepsExtent | internal/controller/model.go:571-599 | A decodable token keeps its extent whatever text that stops it follows. |
| Tokens.SingleDecodes | internal/controller/plan.go:291-292 | Doubling quotes is undone by decoding. |
| Tokens.JsonDecodes | internal/controller/plan.go:293-295 | JSON string escapes decode to the value under the double-quoted YAML rules. |
| Tokens.JsonScans | internal/controller/plan.go:293-295 | An encoded string never shows a quote before its end. |
| Splice.SpliceAll | internal/controller/plan.go:305-315 | Splicing in place from the highest start down, with the moving bound as overlap check, equals substituting all spans of the original at once, and fails exactly when two spans overlap. |
| Splice.SubstituteLength | internal/controller/plan.go:312 | The length changes by the sum of the differences of the edits. |
| Splice.SubstituteFrom | internal/controller/plan.go:312 | Behind a boundary the result is the substitution of the rest, at an offset shifted by the edits before it. |
| Writer.FindLine | internal/controller/model.go:557-569 | The start of a line is found exactly when the text has that line. |
| Writer.ScanQuoted | internal/controller/model.go:573-593 | The loop over a quoted token finds its length as defined by recursion over the text, or fails on a line break. |
| Writer.ScanToken | internal/controller/model.go:571-601 | The scanner finds the extent of a quoted or plain token. |
| Writer.FindSpan | internal/controller/model.go:556-607 | Line and column give the span of the token that decodes to the recorded value, or nothing. |
| Writer.SortDescending | internal/controller/plan.go:306 | Edits sorted from the highest start down, with nothing lost or invented. |
| Writer.CollectEdits | internal/controller/plan.go:279-304 | Succeeds exactly when every file and span exists, and groups the edits by file. |
| Writer.Apply | internal/controller/plan.go:270-317 | Succeeds exactly when every file and span exists and the spans of each file are pairwise disjoint; then every file is the simultaneous substitution of its spans. |
| WriterLaws.ApplyIgnoresOrder | internal/controller/plan.go:279-315 | Neither success nor result depends on the order of the mutations. |
| WriterLaws.OtherFilesUnchanged | internal/controller/plan.go:272-274 | A file that no mutation names keeps every character. |
| WriterLaws.AppliedLength | internal/controller/plan.go:312 | A file grows by the sum of the differences of its edits. |
| WriterLaws.OutsideUnchanged | internal/controller/plan.go:312 | Text between the spans is carried over character by character. |
| WriterLaws.WrittenValueReadsBack | internal/controller/plan.go:289-315 | After writing, scanning at the shifted offset of an edit ends exactly at the end of the written token, which decodes to the new value. |
| WriterLaws.OtherScalarsReadBack | internal/controller/model.go:556-607 | Every other scalar keeps its token, its extent and its value. |
| WriterLaws.ReferencesAreWritable | internal/controller/plan.go:289-302 | Every tag and every image reference survives every quoting style. |
| Planner.PairsMeaning | internal/controller/plan.go:163-169 | The pairs considered are exactly a change of the intent with a use it selects. |
| Planner.ExpectedMeaning | internal/controller/plan.go:183-187 | Without conflicts the table of expected images holds for every selected use what it asks for, and nothing else. |
| Planner.TargetsMeaning | internal/controller/plan.go:191-196 | The same for the table of scalar edits. |
| Planner.ArtifactKeyInjective | internal/controller/plan.go:246-250 | Different artifacts have different keys, because a tag contains no colon. |
| PlanBuilder.IndexArtifacts | internal/controller/plan.go:155-162 | Registry results by name and tag; an error exactly when two digests compete. |
| PlanBuilder.RequestedArtifacts | internal/controller/plan.go:127-143 | Exactly the registry tags the selected uses need after renames, each once, in key order. |
| PlanBuilder.AddPair | internal/controller/plan.go:172-196 | One selected use: refused exactly on a pin that cannot be kept or a conflict with any earlier pair. |
| PlanBuilder.SelectUses | internal/controller/plan.go:164-205 | One change against all uses: succeeds exactly without conflict and with a match in every named environment. |
| PlanBuilder.CollectTargets | internal/controller/plan.go:163-206 | The loop over the changes succeeds exactly when no two pairs conflict and every change matched; no-match is reported only for a change that selects nothing. |
| PlanBuilder.CheckLeaks | internal/controller/plan.go:207-213 | Refused exactly when an unselected use shares a target that really changes. |
| PlanBuilder.ListMutations | internal/controller/plan.go:214-219 | Exactly the real changes, in key order, whatever order the map yields them in. |
| PlanBuilder.OneMutationList | internal/controller/plan.go:214-219 | There is only one such list. |
| PlanBuilder.CompareUses | internal/controller/plan.go:228-255 | Succeeds exactly when the changed repository parses and every earlier use renders as wanted; impact and artifacts are those of the changed uses. |
| PlanBuilder.SortArtifacts | internal/controller/plan.go:256-261 | The recorded artifacts in key order. |
| PlanBuilder.ListDiffs | internal/controller/plan.go:262-266 | A diff for every listed file whose text changed, and no other. |
| PlanBuilder.DraftPlan | internal/controller/plan.go:147-219 | Everything checked before the text is touched, succeeding exactly when the intent is plannable. |
| PlanBuilder.BuildPlan | internal/controller/plan.go:145-268 | Succeeds exactly when the intent is plannable, the text can be edited and the changed repository renders as wanted; the returned plan is then determined. |
| PlanTheorems.RequestShape | internal/controller/plan.go:172-190 | The requested image and the requested scalar keep their names and both get the requested tag, with a digest exactly when the use is pinned. |
| PlanTheorems.PlannedEditsAreWritable | internal/controller/plan.go:289-302 | Every value a plan for a clean repository writes can be read back in any quoting style. |
| PlanTheorems.PlanIsTagEdits | internal/controller/plan.go:214-219 | A plan edits only tags and digests behind unchanged names. |
| PlanTheorems.TargetHoldsRequest | internal/controller/plan.go:191-218 | After the edits the target of every selected use holds what was requested, also where nothing had to change. |
| PlanTheorems.UseFollowsPlan | internal/controller/plan.go:233-244 | Each use follows the plan: the requested image if selected, its old image if not. |
| PlanTheorems.PlanningCommutesWithRendering | internal/controller/plan.go:163-244 | Planning commutes with rendering, for any overlay graph with renames, chained overrides, shared bases and pins: the edited scalars render to exactly the expected images, and the final check cannot fail. |
| PlanStability.PlanIsContained | internal/controller/plan.go:198-255 | For any plan returned, with no hypothesis on tags: every earlier use survives, unselected uses keep their image, selected ones get the requested one, the impact lists exactly the changed uses, every change and named environment matched, and mutations are real, distinct and sorted. |
| PlanStability.ReplanIsStable | internal/gitManager/controller.go:301-307 | Rebuilding from the stored intent and the own artifacts of the plan gives the same mutations, impact and diffs. |
| PlanStability.PlanningAgainIsNoOp | internal/controller/plan.go:172-218 | Planning the same intent after the plan was applied succeeds with no mutation and empty impact, for tagged, renamed, overridden and pinned images. |
| PlanStability.RetagCommutesExactlyForTags | internal/controller/model.go:525-537 | At one override: overwriting a newTag has the effect of setting the tag if and only if the old value was a tag. |
| PlanStability.PortAndPathIsNotATag | internal/controller/model.go:535-537 | Digits and a path behind a host name parse as an image and are not a tag, so the check at the override accepts them. |
| Forks.ParseRelated | internal/controller/model.go:80-214 | Before and after edits that are tag edits but for some newTag scalars, two clean parses agree use by use wherever none of those scalars was applied, and differ from the first one on. |
| TagNecessity.CommutesExactlyForTags | internal/controller/plan.go:220-244 | The check that renders again accepts a plan if and only if every edited newTag held a tag, wherever one that did not is the last override applied to some use before and after the edit. |
| Passing.ParseStays | internal/controller/model.go:433-541 | A use whose last override is an edited newTag that held no tag keeps it as last override, if no later element it passes names the image the value is attached to. |
| Passing.CommutesExactly | internal/controller/plan.go:220-244 | The same equivalence with a condition on the repository before the edit: some use with the scalar as last override passes no later images element that names the image it is attached to. |
| Overlay.OverlayRenders | internal/controller/model.go:416-541 | An overlay over one workload renders to the declared image with the overrides applied in order. |
| PlanWitness.NoTagIsRefused | internal/controller/plan.go:233-244 | An overlay whose newTag holds an accepted value that is no tag: the request is plannable, the edited text parses cleanly, and the check that renders again refuses the plan. |
| PlanWitness.PortAndPathIsRefused | internal/controller/plan.go:233-244 | In particular for a port and a path behind a host name. |
| PlanWitness.RenameHidesNoTag | internal/controller/model.go:511-537 | With a second override that renames the odd name away, the same edit is accepted although the old value was no tag. |
| PlanWitness.OverlayIsPlanned | internal/controller/plan.go:145-219 | The hypotheses can be met by an overlay: a newTag holding any tag is retargeted to any other, as the only edit of the plan. |
| Overlay.RootLayout | internal/controller/model.go:381-390 | A Kustomization in the root may list any plain file name, so the layout that the overlay lemmas ask for exists. |
| Witnesses.TagIsAccepted | internal/controller/plan.go:145-244 | A repository written out in full: an overlay in the root whose newTag is a tag is drafted, and its new rendering accepted. |
| Witnesses.PortAndPathIsNotAccepted | internal/controller/plan.go:220-244 | The same repository with a port and a path as newTag: drafted, parsed again without a diagnostic, and refused; the condition of the exact theorem holds of it. |
| Witnesses.HiddenByRename | internal/controller/plan.go:220-244 | With a second override that renames the odd name away it is accepted. |
| Rereading.RereadIsScalarsAfter | internal/controller/plan.go:270-317 | A parser that reads the token now standing at the place of each scalar reads the new value at every planned place and the old value at every other. |
| Rereading.SomeReading | internal/controller/model.go:556-607 | Such a reading of the changed text always exists. |
| Rereading.BuildsExactly | internal/controller/plan.go:145-268 | For a parser that reads a fixed skeleton through its scalars, a plan is built exactly when it is plannable, every scalar is found without overlap, and every edited newTag held a tag, where the last override applied shows it. |
| Rereading.BuildsExactlyByPassing | internal/controller/plan.go:145-268 | The same with the condition on the repository before the edit. |
| Rereading.BuildsExactlyWhenApplicable | internal/controller/plan.go:220-244 | So when the edited tags are tags the check that renders again never fails: a plan is built exactly when it is plannable and its scalars are found. |
| PlanWitness.OneWorkloadIsPlanned | internal/controller/plan.go:145-219 | The hypotheses can be met: a single workload with any valid unpinned image is plannable for every tag, and the plan edits its only scalar. |
| Publication.CommittedIsReviewed | internal/gitManager/controller.go:328-344 | Writing the updated text of the files with diffs gives, in scope, the base with the stored mutations applied, and leaves everything else alone. |
| Publication.BuiltPlanIsReviewed | internal/controller/plan.go:262-266 | The diffs of a built plan name exactly the files its mutations change. |
| PublicationSafety.StepKeepsInvariant | internal/gitManager/controller.go:222-369 | Every step of the protocol, its environment and its failures keeps the invariant on rows, commits, pushes, baselines and the running operation. |
| PublicationSafety.FlightCandidate | internal/gitManager/controller.go:348-356 | A push that was ever sent is the one its durable row records, with the base of the plan as parent. |
| PublicationSafety.VisibleAncestor | internal/gitManager/controller.go:390-410 | Everything in the history of what the remote served was served by the remote. |
| PublicationRuns.StepRows | internal/gitManager/changeset_store.go:37-55 | One step: a stored plan never changes, a final state is never left, a pending row keeps its commit and only becomes unknown or published. |
| PublicationRuns.SendIsRecorded | internal/gitManager/controller.go:348-356 | When a push leaves, its commit is durable with the base of the plan, and the plan never sent another. |
| PublicationRuns.StatesAreFinal | internal/gitManager/changeset_store.go:37-55 | Over whole runs: content immutable; published, satisfied and conflict final; publishing and unknown only ever become published. |
| PublicationRuns.AtMostOnePublication | internal/gitManager/controller.go:262-368 | In every run at most one push of a plan takes effect; it did so while the branch was at the base, after its commit was stored, and that commit has the base as only parent. |
| PublicationRuns.PublishedIsTruthful | internal/gitManager/controller.go:262-271 | A plan stored as published was the branch tip at some instant by its own push, also when found through the history later. |
| PublicationRuns.PublishedIsReviewed | internal/gitManager/controller.go:312-356 | What a landed push publishes is, in scope, the base with the stored mutations applied, and outside the base itself. |
| PublicationRuns.RunGrows | internal/gitManager/controller.go:434-442 | Commits, served revisions, sent pushes and job baselines are never taken back. |
| PublicationRuns.JobPublishesOnce | internal/gitManager/controller.go:422-442 | However often a job is claimed, retried, recovered or queued again, at most one of its pushes takes effect, on the revision recorded at its first attempt. |
| PublicationRuns.OneRepository | internal/gitManager/changeset_store.go:24-36 | At any instants of a run all stored plans are for the one repository and branch the database was first bound to. |
| Controller.GitManager.Synchronize | internal/gitManager/gitManager.go:301-368 | Listing, fetching and resetting: a deleted branch ends the operation, otherwise the clone is at what was fetched; nothing else happens to it. |
| Controller.GitManager.ListRemote | internal/gitManager/gitManager.go:304-326 | The look at the remote after whatever others do: the branch is found exactly when it is there then. |
| Controller.GitManager.FetchRemote | internal/gitManager/gitManager.go:332-366 | The fetch after whatever others do. |
| Controller.GitManager.ListBranch | internal/gitManager/gitManager.go:304-326 | The branch is found exactly when the remote has it at that moment. |
| Controller.GitManager.FetchBranch | internal/gitManager/gitManager.go:332-366 | The clone is reset to the branch as it is now, or as last fetched if it was deleted meanwhile. |
| Controller.GitManager.TakeSnapshot | internal/gitManager/controller.go:40-114 | The model is the parse of the files in scope of the present head, listed in order; it is refused exactly when the tree is not readable within the limits. |
| Controller.GitManager.BindIdentity | internal/gitManager/changeset_store.go:24-36 | The first repository and branch is bound for good; another one is a conflict. |
| Controller.GitManager.VerifyForPreview | internal/gitManager/controller.go:174-192 | A target only after access, a verified and writable repository, and a binding of the database to it; nothing but the binding changes. |
| Controller.GitManager.VerifyForApply | internal/gitManager/controller.go:236-261 | Passes only for the scope, repository and branch of the plan, verified and writable; another scope is a conflict. |
| Controller.GitManager.VerifyArtifact | internal/gitManager/verification.go:146-197 | The answer is for the image and tag that were asked, with the digest of the registry. |
| Controller.GitManager.AskRegistry | internal/gitManager/controller.go:197-204 | Every requested artifact is replaced by the answer of the registry for that image and tag, in order; one without an answer ends it. |
| Controller.GitManager.BuildOnHead | internal/gitManager/controller.go:193-208 | A plan is what the build returns on the answers of the registry, and its diffs name exactly the files it changes; there is none only when an answer is missing or the intent cannot be planned there. |
| Controller.AnswersConfirm | internal/gitManager/controller.go:193-208 | The artifacts a plan records are answers the registry gave, so a registry that answers the same confirms them. |
| Controller.GitManager.FinishPreview | internal/gitManager/controller.go:162-215 | A stored plan is based on the fetched head, and on the baseline if there is one, for the identified repository, branch and scope, and is what the build returned; a plannable intent is stored if nothing gets in the way. |
| Controller.GitManager.PlanOnHead | internal/gitManager/controller.go:157-215 | Fetches and plans on what was fetched; the stored plan is what the build returned there. |
| Controller.GitManager.Preview | internal/gitManager/controller.go:144-216 | An id is bound to its first intent for good: a repeat returns the stored plan, another intent conflicts; no stored plan changes; a plannable new intent succeeds if nothing gets in the way. |
| Controller.GitManager.Reachable | internal/gitManager/controller.go:390-410 | Found only if the commit is an ancestor of the head; an ancestor is missed only if the head has more ancestors than the search limit. |
| Controller.GitManager.WriteFiles | internal/gitManager/controller.go:328-343 | The worktree with the updated text of exactly the files that have diffs; fails exactly if one of them cannot be written. |
| Controller.GitManager.Recheck | internal/gitManager/controller.go:287-315 | Accepts only if the registry confirms every artifact and a rebuild has the same mutations and diffs; never refuses an undisturbed plan. |
| Controller.GitManager.Rebuilds | internal/gitManager/controller.go:297-307 | A rebuild of an undisturbed plan succeeds with the same mutations and diffs. |
| Controller.GitManager.Reconcile | internal/gitManager/controller.go:262-271 | A plan with unknown outcome sends nothing; it becomes published only if its commit is in the history, and does so unless the head has more ancestors than the search limit. |
| Controller.GitManager.MarkMoved | internal/gitManager/controller.go:279-286 | A planned row whose base is no longer the head becomes a conflict, and nothing else changes. |
| Controller.GitManager.MarkEmpty | internal/gitManager/controller.go:308-311 | A planned row without mutations becomes satisfied, and nothing else changes. |
| Controller.GitManager.MarkRecovered | internal/gitManager/controller.go:262-268 | A pending row whose commit is in the history becomes published, and nothing else changes. |
| Controller.GitManager.CommitFiles | internal/gitManager/controller.go:344-349 | The candidate commit has the base as parent, the written files as content, and exists only locally. |
| Controller.GitManager.RecordCandidate | internal/gitManager/controller.go:348-352 | Without a confirmed write of the commit id nothing is pushed and the clone returns to the base. |
| Controller.GitManager.RecordAndWait | internal/gitManager/controller.go:348-356 | The durable record, and what may come before the push. |
| Controller.GitManager.Conclude | internal/gitManager/controller.go:357-368 | Success is stored only when the branch was moved and the answer arrived; otherwise the row becomes unknown and the clone returns to the base. |
| Controller.GitManager.PushCandidate | internal/gitManager/controller.go:353-368 | Exactly one push, conditional on the base; published is stored only after a confirmed success. |
| Controller.GitManager.Publish | internal/gitManager/controller.go:316-368 | At most one push, of the new commit on the base; undisturbed it ends published with the branch at that commit. |
| Controller.GitManager.Decide | internal/gitManager/controller.go:236-315 | The state of the row decides what may happen: only a planned row on its own base is pushed, and only after scope, access, repository, branch, binding, artifacts and resolution were confirmed. |
| Controller.GitManager.DecideVerified | internal/gitManager/controller.go:262-315 | What the state of a verified row allows: recovery, conflict, or publication of a planned row on its own base. |
| Controller.GitManager.PublishPlanned | internal/gitManager/controller.go:287-368 | A planned row on its own base is pushed only if the registry and a rebuild confirm it; an undisturbed one is published. |
| Controller.GitManager.ApplyPlan | internal/gitManager/controller.go:222-369 | Published and satisfied plans are returned unchanged, unknown ids change nothing, a push leaves only for a planned row that was rechecked, a published result has landed, the commit it pushed renders the request and nothing else, and an undisturbed plan on an unmoved branch is published. |
| Controller.GitManager.PublishedStays | internal/gitManager/changeset_store.go:37-55 | Whatever operations run, a published plan stays the same and has landed. |
| Controller.GitManager.LandedRenders | internal/gitManager/controller.go:297-356 | A landed push of a rechecked plan: the published files parse, selected uses have the requested image, all others their old one. |
| Controller.ApprovedRenders | internal/gitManager/controller.go:301-315 | A plan that still resolves on a tree renders, applied to that tree, exactly what was requested. |
| Controller.GitManager.SyncWorkspace | internal/gitManager/gitManager.go:426-441 | Synchronising alone writes no table and pushes nothing. |
| Controller.GitManager.AllowedEnvironments | internal/gitManager/controller.go:467-478 | The loop finds whether any use has the image, and the allowed environments in the order of their first use. |
| Controller.EnvironmentsMeaning | internal/gitManager/controller.go:467-478 | These are exactly the listed environments that use the image, each once. |
| Controller.GitManager.Narrow | internal/gitManager/controller.go:451-486 | The change of a job, or the reason it ends early, as a function of the job, the list and the parsed head. |
| Controller.NarrowedIsPermitted | internal/gitManager/controller.go:451-486 | An unforced job is limited to allowed environments, a forced or unrestricted one is not; a policy skip means that no allowed environment uses the image. |
| Controller.GitManager.RecordBaseline | internal/gitManager/controller.go:430-486 | The first attempt fixes the revision of the job for good; a later attempt on another revision is a conflict, a file that is not in the worktree an error; otherwise the intent is the narrowed change. |
| Controller.GitManager.FixBaseline | internal/gitManager/controller.go:423-486 | Undisturbed, an attempt fixes the fetched tip as its baseline. |
| Controller.GitManager.CompareStored | internal/gitManager/controller.go:149-153 | A stored plan serves a job if and only if the job, narrowed to what it may change now, is a valid intent equal to the stored one; a conflict exactly when it is valid and differs; then the stored intent is one permitted change. |
| Controller.GitManager.PreviewJob | internal/gitManager/controller.go:160-172 | The plan of a job is made only if a second fetch is still at its baseline. |
| Controller.GitManager.PlanJob | internal/gitManager/controller.go:422-493 | A stored plan is used exactly if the job still asks for the same; a new one is made on the baseline, and is made if nothing gets in the way; nothing is pushed. |
| Controller.GitManager.ApplyJob | internal/gitManager/controller.go:487-502 | The result of applying the plan of a job: published only if its push landed; a published plan stays so without a push. |
| Controller.GitManager.Work | internal/gitManager/controller.go:412-502 | However an attempt ends, an invalid request changes nothing, it sends no push but one on the baseline of the job; an outcome published means its push landed, within the allowed environments; a repeat of a published job pushes nothing; an undisturbed new job ends published with the branch at its commit, or satisfied. |
| Validation.ValidPathStaysInside | internal/gitManager/validation.go:34-51 | A valid request path cleans to components below the workspace, none of them Git metadata. |
| Jobs.FailureSchedule | internal/gitManager/job_store.go:383-399 | A failed attempt is followed by another after 5 and then 10 seconds, then by failure. |
| Jobs.HistoryStore | internal/gitManager/job_store.go:296-432 | Whatever interleaves: running rows have counted their attempt, retrying rows have one or two, so the delay shift is in range, and what the worker read about a running job is still so when it writes. |
| Jobs.RequestsLeaveRunning | internal/gitManager/job_store.go:447-470 | No request of another handler changes a running job. |
| JobRuns.RequestStays | internal/gitManager/job_store.go:214-276 | An accepted job keeps exactly one row whose request never changes. |
| JobRuns.AdmittedOnce | internal/gitManager/job_store.go:214-276 | An id is inserted once; later a repeat is acknowledged if and only if scope, event, action, file, image, tag and force all agree with the first. |
| JobRuns.SettledStays | internal/gitManager/job_store.go:461-462 | Succeeded and skipped jobs are never changed again, whatever retries are under way. |
| JobRuns.ConflictStaysExactly | internal/gitManager/job_store.go:447-470 | A conflicting job stays as it is in everything that can happen if and only if no retry that found it retriable is waiting to write. |
| JobRuns.PendingRetryReadBefore | internal/gitManager/job_store.go:447-454 | A retry that is waiting to write found the job failed and not conflicting at an earlier instant. |
| JobRuns.ConflictUndone | internal/gitManager/job_store.go:447-470 | A history in which a retry that read before requeues a conflicting job and erases its outcome. |
| JobRuns.ClaimsAreBounded | internal/gitManager/job_store.go:304-358 | At every instant the claims of a job are covered by its attempts, its manual retries and the interruptions. |
| JobRuns.ClaimBound | internal/gitManager/job_store.go:304-358 | Claims are at most three for the job and three for each manual retry that requeues it, plus one for each interruption. |
| JobRuns.NeverClaimedEarly | internal/gitManager/job_store.go:312-321 | With a monotone clock no claim is early, not even one by id, and a failed job waits its full delay of 5 or 10 seconds. |
| JobRuns.NothingIsLost | internal/gitManager/job_store.go:278-294 | After recovery every job is finished, due, or due within ten seconds of its failure. |
| Queue.JobStore.EnqueueScoped | internal/gitManager/job_store.go:211-276 | Inserts at most one row; acknowledges a repeat exactly when its content agrees, and reports a mismatch exactly when it does not. |
| Queue.JobStore.SelectDue | internal/gitManager/job_store.go:312-323 | The oldest due row by creation time and id, or none exactly when nothing is due. |
| Queue.JobStore.ClaimNext | internal/gitManager/job_store.go:296-358 | Claims the oldest due job whenever there is one. |
| Queue.JobStore.ClaimById | internal/gitManager/job_store.go:300-358 | Claims a named job exactly when it is waiting, whatever its schedule. |
| Queue.JobStore.MarkOutcome | internal/gitManager/job_store.go:409-432 | Ends a running job and leaves any other alone. |
| Queue.JobStore.MarkCompleted | internal/gitManager/job_store.go:369-381 | Each outcome gets its status; rejections and conflicts are not completions. |
| Queue.JobStore.MarkRejected | internal/gitManager/job_store.go:364-367 | A permanent request error fails at once without a retry. |
| Queue.JobStore.MarkFailed | internal/gitManager/job_store.go:383-399 | A running job is rescheduled or given up by the attempts read before, whatever others ask for in between; any other job is left alone. |
| Queue.JobStore.ReadForFailure | internal/gitManager/job_store.go:383-390 | The read of a failure: the attempts of the running row. |
| Queue.JobStore.WriteFailure | internal/gitManager/job_store.go:391-399 | The write of a failure: another attempt after the delay for the attempts read, or none. |
| Queue.JobStore.RecoverInterruptedJobs | internal/gitManager/job_store.go:278-294 | Every running row waits again, no other row changes, and their number is returned. |
| Queue.JobStore.Retry | internal/gitManager/job_store.go:447-470 | Reads and later writes, with requests of others in between: acknowledged only if the job was failed without conflict when read and failed when written. |
| Queue.JobStore.ReadRetry | internal/gitManager/job_store.go:447-454 | The read half: goes on exactly for a job that is failed without conflict now. |
| Queue.JobStore.WriteRetry | internal/gitManager/job_store.go:456-474 | The write half: requeues the job exactly if it is failed now, however it failed. |
| Queue.JobStore.Others | internal/gitManager/job_store.go:211-474 | Requests of other handlers in any number keep every job, its request, every running row and every succeeded one, and make none succeed. |
| Queue.JobStore.Handle | internal/gitManager/job_store.go:211-474 | One request of another handler keeps every job, its request, every running row and every succeeded one. |
| Access.RunInvariant | internal/gitManager/access.go:36-151 | Every step of the probe protocol, foreign writes, late pushes and crashes included, keeps the invariant on owned references, records and the running check. |
| Access.NoStrayProbe | internal/gitManager/access.go:83-134 | Every probe that a creation made in time and that still exists, moved by others or not, is on record by name with the revision it was made at, at most one for a remote; one that nobody touched is still at that revision. |
| Access.MadeExactly | internal/gitManager/access.go:83-140 | The ghost state means what it says: the owned references are exactly those a creation in time made and that exist since without interruption, the strays exactly those a late one made. |
| Access.StrayIsUnconfirmed | internal/gitManager/access.go:83-98 | A stray goes back to a creation that was never confirmed and landed after it was given up. |
| Access.UnconfirmedMayStay | internal/gitManager/access.go:83-98 | Such a residue is real: wherever a probe is about to be created, four steps lead to one that exists without a record. |
| Access.AllRecordedWithoutLateCreations | internal/gitManager/access.go:83-134 | In a run without a late creation every probe of this program that still exists, moved or not, is on record. |
| Access.LateWasSent | internal/gitManager/access.go:86-140 | A push that is still outstanding was sent for the probe on record under that name and revision. |
| Access.LateProbesOnly | internal/gitManager/access.go:86-140 | A late push creates only where there is nothing and deletes only at its revision, and only what was on record when it was sent. |
| Access.OnlyProbesChange | internal/gitManager/access.go:86-87 | The program creates only a recorded probe where there was nothing, and deletes only a recorded probe still at its recorded revision. |
| Access.OthersUntouched | internal/gitManager/access.go:121-148 | A reference without the form of a probe is as others left it. |
| Access.GrantLeavesNothing | internal/gitManager/access.go:89-98 | Access is granted only with no record left at that remote; every probe of this program that is left there, moved or not, was made by a creation that landed late, so there is none in a run without one. |
| Access.GrantMayLeaveStray | internal/gitManager/access.go:49-98 | The exception is real: beside a stray, a check that meets no other obstacle grants access, and the stray is still there. |
| Access.GrantIsEarned | internal/gitManager/access.go:94-98 | Granted access goes back to a probe that took effect at that remote, for that branch, in the same process. |
| AccessProbe.Prober.ChooseProbe | internal/gitManager/access.go:64-82 | Refused without the target branch or with a name in use. |
| AccessProbe.Prober.InsertRecord | internal/gitManager/access.go:83-85 | The record is written under the origin; without a confirmed write no probe is created. |
| AccessProbe.Prober.PushCreation | internal/gitManager/access.go:86-88 | The probe is created only where there was nothing; without an answer the push stays outstanding. |
| AccessProbe.Prober.PushDeletion | internal/gitManager/access.go:135-140 | The probe is deleted only at its recorded revision; without an answer the push stays outstanding. |
| AccessProbe.Prober.ForgetRecord | internal/gitManager/access.go:149-150 | The record of the origin is deleted, and access granted only for a confirmed probe. |
| AccessProbe.Prober.CreateProbe | internal/gitManager/access.go:64-88 | The record is stored before the probe is created. |
| AccessProbe.Prober.CleanUp | internal/gitManager/access.go:121-151 | The record goes only after the probe is seen gone; a changed probe is never deleted; a record of ours is never malformed. |
| AccessProbe.Prober.FindProbe | internal/gitManager/access.go:121-134 | The look before a deletion: a probe that others changed is left alone, with its record. |
| AccessProbe.Prober.RemoveProbe | internal/gitManager/access.go:135-148 | A conditional deletion, confirmed by a second look. |
| AccessProbe.Prober.EnsureGitAccess | internal/gitManager/access.go:36-99 | A repeated check is free; success leaves no record, and of the probes of this program only such as a creation made late; undisturbed it leaves the remote and the records as they were. |
| Worker.GitWorker.Try | internal/gitManager/gitManager.go:426-445 | Each kind of job is dispatched as its action, validity and policy say; only an update may push, and at most once, on its baseline. |
| Worker.GitWorker.Record | internal/gitManager/gitManager.go:446-480 | The row of the job ends as its attempt did; a killed process records nothing. |
| Worker.GitWorker.RecordLater | internal/gitManager/gitManager.go:446-480 | The same with requests of others before the record: the row of the job ends as its attempt did, no other running row changes. |
| Worker.GitWorker.ProcessClaimedJob | internal/gitManager/gitManager.go:426-474 | A job recorded as published has a landed push of its own plan, on its baseline; and all jobs recorded so before still have. |
| Worker.GitWorker.ClaimJob | internal/gitManager/gitManager.go:388-420 | The oldest due job; a waiting hinted job only when nothing is due; nothing but the claimed row changes. |
| Worker.GitWorker.Turn | internal/gitManager/gitManager.go:381-424 | One turn of the loop: the oldest due job first; a waiting hinted job when nothing is due; before and after it, every job in the table that is recorded as published really is. |
| Worker.GitWorker.AllStayPublished | internal/gitManager/controller.go:222-227 | No operation of the controller, by whoever it was asked for, takes back what a job was recorded for. |

## Left out

- Resolver.Parser.ReadDocuments: the YAML parser, resource extraction, `checkNode`, template and Kyverno rules and Helm; the model starts from declarations, dependency entries and override lists, and the files with extraction problems are an input.
- That a second parse sees the same structure is a hypothesis (`Rereading.SkeletonParse`); that it sees the new values is proved. Line and column of scalars after an edit are not recomputed.
- Byte offsets: text is a sequence of characters, so the step from runes to bytes does not appear. Only carriage return and line feed count as line breaks.
- Plain scalars: which plain text YAML reads as which string is the `Yaml` oracle.
- The reference grammar: repeated separators inside a path component, the limit of 255 characters, names of 64 hexadecimal digits, IPv6 hosts and digests other than sha256.
- Use keys are tuples and location keys are taken to identify scalars; the concatenated strings of the original are taken as injective.
- PlanStability.RetagCommutesExactlyForTags: speaks of one override step; for a whole plan see TagNecessity.CommutesExactlyForTags.
- TagNecessity.CommutesExactlyForTags: its condition looks at the new parse; Passing.CommutesExactly has one that does not. Where every use of a value that is no tag is overridden further, either outcome occurs (Witnesses.HiddenByRename), and no condition is given.
- Unified diff text: a diff is file, text before and text after.
- Resolver.Parser.ReadDependencies: the list of dependency edges, which is only shown to users.
- Resolver.Parser.Parse: the order of diagnostics.
- Go values that only decorate: creation time, names and details of an identity, error texts.
- Controller.GitManager.VerifyArtifact: that a digest is well formed, and which registry hosts are allowed, belong to the answer of the registry. The scope that the snapshot uses is fixed for a run; the scope compared before applying is not.
- Commit identities are fresh: creating an identical commit twice, or two commits with one hash, is not modelled; plan ids of jobs are taken as different from ids chosen by callers.
- Controller.GitManager.WriteFiles: file modes and the index; which files can be written is an input.
- Controller.GitManager.TakeSnapshot: submodules, file modes, sizes and a missing scope are one predicate on the tree.
- Controller.GitManager.RecordBaseline: a requested file exists if the tree has it under its cleaned path; symbolic links do not appear.
- Controller.GitManager.Reachable: an unreadable object during the search; the clone is taken as complete.
- SQL, schema migration and the content of the databases before the first start: tables start empty. Controller operations do not interleave with each other, because one mutex covers each of them; the job table is not covered by it, and its statements interleave freely.
- Worker.GitWorker.Try: other controller operations between the attempt and its record do not appear.
- Queue.JobStore.EnqueueScoped: fingerprints are taken as free of collisions; rows without a fingerprint acknowledge nothing.
- JobRuns.ClaimBound: the number of attempts itself can exceed three after interruptions.
- Worker.GitWorker.Turn: one turn of the endless loop; the channel is the optional hint, cancellation and the one-second wait do not appear.
- Access.LateWasSent: outstanding pushes are a set, so two equal ones count once.
- Integer widths: times are unbounded integers.
- HTTP routes, webhooks, authentication, the command line, configuration, GitHub and registry calls, SSH and cloning, and the earlier updater in `internal/yaml/updater.go`.
