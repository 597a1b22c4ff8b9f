# memris and evarness, in Dafny

Models of the parts of two Python packages whose correctness is easiest to get wrong, with proofs of what they keep.

**The memory graph** (`src/memris`) keeps statements on two time axes and a reversible identity relation over
entities. `GraphSpec` says what each operation does to the three tables of the store, `Labels` how a new name is
written down; `MemoryGraph` is the class whose methods, worklist loops included, are proved to do exactly that; `Runs`
strings operations into runs. On these rest `MergeForest` and `IdentityLaws` (the merge pointers stay a forest, the
decisions mirror them, aliases come back), `TimelineLaws` (at most one current value, and at most one at every
instant), `MergeTimelines` (what merges do to timelines), `RemovalLaws`, `RestoreLaws` and `RestoreTimelines` (removal
and restoration, retraction and reinstatement), `TimelineRuns` and `EverydayRuns` (timelines over whole runs),
`Stacks` (assertion and retraction as a stack), `ReadLaws`, `WriteLaws`, `ReturnLaws`, `NameLaws` and `RefusalLaws`
(what a read returns, what each write does to it, and why one is refused, said of the fields of the records alone),
`Surprises` (stores in which a promise is broken, all within what runs keep), `Neighbourhood` (the search is
breadth-first on the merged graph), `Vocabulary` (reading a term through retired terms and subproperties, with its
cache), `Resolver`, `ResolverLaws` and `ResolverRuns` (which entity a name means, and the merges that evidence brings)
and `Learner` with `LearnerLaws` (how a word becomes a term).

**The governed agent** (`src/evarness`) runs tools under a governance kernel. `ToolRunner` is the call itself, with
the kernel and the tools as arbitrary functions of all that happened before; `ToolLaws` are its guarantees over any
sequence of calls, `CallLaws` when a call runs and that what its tool gave is what is judged; `HookKernel` the
kernel's chain of hooks; `Approvals` is the resume of a run that waited for its owner; `GovernedStream` a stream
judged item by item; `AgentLoop` the loop from question to answer, `AgentLaws` its judgements; `JsonScan` the scanner
that salvages a JSON object from chatter, and `JsonArguments` the values it finds there, printed and decoded;
`TaskPlan` the dependency waves; `ContextBudget` the token budgets.

**The licence gate** (`scripts/check_licenses.py`) evaluates licence expressions: `Licenses` proves its recursive
descent against the grammar of Annex D of the SPDX Specification 2.3.

`dafny verify dfyconfig.toml` checks everything.

## What the proofs found

Some laws one would expect do not hold as the code stands. Each is stated with the exact condition under which it does.

- Retracting a value that was itself superseded reopens its predecessor under its successor, so two values hold at once:
  `TimelineLaws.RetractKeepsTimelineIff`, and `Surprises.RetractingAMiddleValue` for a store where it happens.
- Asserting a value over one that already had a future end, then retracting it, leaves the earlier value open: its end
  is forgotten. `TimelineRuns.RetractUndoesAssertIff`, `Surprises.RetractingForgetsAnEnd`.
- A proposal confirmed over a value recorded after it, retracted and reinstated, ends itself at its predecessor's start:
  `RemovalLaws.RetractThenReinstateIff`, `Surprises.ReinstatingAnOldProposal`.
- A withdrawn value that carries an end comes back as it was, so until that end it is current beside the value that
  replaced it; the docstring of `restore_entity` says a replaced claim comes back closed:
  `RestoreLaws.RestoreClosesReplacedIff`, `RestoreLaws.RestoreLeavesAtMostOneIff`, `Surprises.RestoringBesideAReplacement`.
- An open value put back is ended at the start of its earliest replacement among the current ones. A replacement that has
  ended since is not looked at, and the two then hold at once: `RestoreTimelines.PutBackKeepsTimelineIff`,
  `Surprises.ReinstatingUnderAnEndedReplacement`.
- A merge does not look at values, and so can put two that overlap under one limit: `MergeTimelines.MergeKeepsTimelineIff`,
  `Surprises.MergingTwoCities`. Nor does its undoing, which can bring back the loser's own limit:
  `MergeTimelines.UnmergeKeepsTimelineIff`, `Surprises.UnmergingTwoCities`.
- A confirmed assertion that meets its own claim as a proposal filed under a name merged or removed since is refused,
  after its reinforcement was saved: `TimelineLaws.AssertRefusedAfterSaving`, `Surprises.RefusedButSaved`.
- A governed stream closed before its first pull leaves no end record, since a generator that was never started has no
  body to unwind: `GovernedStream.OneEndRecordIff`, `GovernedStream.LeftUnpulled`.
- The stall limit of the agent loop never ends a run unless it is zero or less, because a repeated call is caught
  earlier: the `stalled` clause of `AgentLoop.Loop`.
- Of two tasks with one id, the planner loses the one that has to wait: `TaskPlan.DroppedIff`, `TaskPlan.OneOfTwins`. The
  theorems about longest chains ask for distinct ids.
- A value that was to end comes to be told of past its end when another is asserted that starts later still: superseding
  writes the new start over the end there was. `WriteLaws.LengthenedIff`, `Surprises.LengtheningAnEnd`.
- The docstring of `current` says that proposed statements appear only on request. A proposal that was withdrawn appears
  without, in what was known before its withdrawal, since its earlier status is not kept:
  `WriteLaws.WithdrawnProposalsAreTold`, `Surprises.WithdrawingAProposal`.
- A name that found an entity merged since finds the keeper only when the keeper's class is of the sort asked for:
  `ResolverLaws.FoundAfterMerge`.

## Model

| member | source | states |
|---|---|---|
| `MergeForest.CanonIsTheRoot` | `src/memris/graph.py:770-780` | in a merge forest the upward walk ends at the one root above an entity, or at the entity itself when it is unknown; the cycle guard never fires |
| `MergeForest.MembersAreThoseItStandsFor` | `src/memris/graph.py:770-798` | `members` and `canonical_id` are duals: m is among the members of a root e exactly when e is what m stands for |
| `MergeForest.ForestHasNoCycle` | `src/memris/graph.py:814-865` | no climb along merge pointers returns to where it began |
| `MergeForest.MergeKeepsForest` | `src/memris/graph.py:858-863` | pointing one root at another keeps the pointers a forest with existing parents |
| `MergeForest.DeletionKeepsForest` | `src/memris/graph.py:287-294` | deleting an entity nobody is merged into keeps the forest |
| `MergeForest.RootIsUnique` | `src/memris/graph.py:770-780` | two roots above one entity are the same |
| `MergeForest.MergeMovesCanon` | `src/memris/graph.py:858-863` | a merge moves what stands for the folded group to the keeper, and nothing else |
| `MergeForest.UnmergeMovesCanon` | `src/memris/graph.py:880-885` | undoing a merge gives everything under the loser back to it, and moves nothing else |
| `MemoryGraph.MemoryGraph.Members` | `src/memris/graph.py:782-798` | the level-by-level sweep returns exactly the entity and everything merged into it, directly or not |
| `MemoryGraph.MemoryGraph.CanonicalId` | `src/memris/graph.py:770-780` | the loop with its seen set computes the canonical entity |
| `MemoryGraph.MemoryGraph.Read` | `src/memris/graph.py:748-766` | a read through merges returns exactly the visible statements whose subject or object is a member |
| `MemoryGraph.MemoryGraph.Neighbours` | `src/memris/graph.py:697-741` | the worklist search equals the breadth-first report: each statement once, with its least hop |
| `MemoryGraph.MemoryGraph.Supersede` | `src/memris/graph.py:396-409` | a confirmed value is placed, what it displaces is ended at its start and the newest of these is recorded as superseded |
| `MemoryGraph.MemoryGraph.Assert` | `src/memris/graph.py:299-357` | the whole new state and result of asserting a claim, reinforcement, confirmation and refusals included |
| `MemoryGraph.MemoryGraph.Confirm` | `src/memris/graph.py:490-500` | the whole new state of confirming a proposal |
| `MemoryGraph.MemoryGraph.Unconfirm` | `src/memris/graph.py:443-450` | a confirmed statement becomes a proposal, anything else stays |
| `MemoryGraph.MemoryGraph.End` | `src/memris/graph.py:502-513` | the whole new state of ending a statement and each refusal |
| `MemoryGraph.MemoryGraph.Retract` | `src/memris/graph.py:515-532` | the statement is withdrawn and what its end alone had closed is reopened |
| `MemoryGraph.MemoryGraph.PuttingBack` | `src/memris/graph.py:241-255` | what a returning statement closes, and how it comes back |
| `MemoryGraph.MemoryGraph.CloseByNewer` | `src/memris/graph.py:257-273` | a returning value replaced meanwhile ends at the least start of its replacements |
| `MemoryGraph.MemoryGraph.Reinstate` | `src/memris/graph.py:221-239` | the whole new state of undoing a retraction and each refusal |
| `MemoryGraph.MemoryGraph.RemoveEntity` | `src/memris/graph.py:176-197` | the entity is marked, each live statement about it withdrawn, and how each stood noted, oldest first |
| `MemoryGraph.MemoryGraph.RestoreEntity` | `src/memris/graph.py:199-219` | exactly the noted statements that are still withdrawn come back, each judged against the store as it was |
| `MemoryGraph.MemoryGraph.DeleteEntity` | `src/memris/graph.py:275-295` | the entity, all statements and decisions naming it go, or nothing does |
| `MemoryGraph.MemoryGraph.PurgeStatements` | `src/memris/graph.py:597-610` | all given statements go when none still holds, or none does |
| `MemoryGraph.MemoryGraph.NewEntity` | `src/memris/graph.py:105-144` | a new entity under its label, or the refusal of an empty label or of a class that is undeclared, abstract or deprecated |
| `Labels.EmptyLabelIff` | `src/memris/graph.py:133-135` | a label is empty exactly when the name is nothing but whitespace |
| `Labels.LabelTwice` | `src/memris/graph.py:133` | a label is its own label |
| `Labels.NextWord` | `src/memris/graph.py:133-133` | the words of a label are the runs between the gaps of the name |
| `Labels.WhiteIff` | `src/memris/graph.py:133-133` | the characters at which a name is split |
| `MemoryGraph.MemoryGraph.FindDecision` | `src/memris/graph.py:803-808` | the scan keeps the latest decision about the unordered pair |
| `MemoryGraph.MemoryGraph.MergeEntities` | `src/memris/graph.py:814-865` | the whole new state of a merge and each refusal |
| `MemoryGraph.MemoryGraph.UnmergeEntities` | `src/memris/graph.py:867-898` | the whole new state of undoing a merge |
| `MemoryGraph.MemoryGraph.DecideDistinct` | `src/memris/graph.py:900-916` | the pair is recorded as distinct unless it is merged |
| `MemoryGraph.MemoryGraph.NoteAlike` | `src/memris/graph.py:918-940` | the pair gains the episode as evidence unless it is decided |
| `Neighbourhood.BallIsWalks` | `src/memris/graph.py:697-741` | what lies within n hops, defined hop by hop, is what walks of at most n links on canonical entities reach |
| `Neighbourhood.FirstMetIsUnique` | `src/memris/graph.py:732` | a statement is first met at one hop only |
| `Neighbourhood.ReadingANode` | `src/memris/graph.py:711-730` | reading a canonical node through its members, in either direction, meets exactly the statements that touch it on the quotient, and their canonical far ends |
| `Neighbourhood.SearchedOneMore` | `src/memris/graph.py:709-740` | one hop of the search keeps the frontier, the seen set and the hops found exact |
| `Neighbourhood.SearchDone` | `src/memris/graph.py:709-741` | the finished search, stopped early or not, reports every statement within max(1, hops) once at its least hop, and no other |
| `IdentityLaws.MergeKeepsIdentity` | `src/memris/graph.py:814-865` | a merge, refused or not, keeps the forest, one decision a pair, "same" exactly where the pointer is, and what every entity owns of its aliases |
| `IdentityLaws.UnmergeKeepsIdentity` | `src/memris/graph.py:867-898` | so does an undone merge |
| `IdentityLaws.DeleteKeepsIdentity` | `src/memris/graph.py:275-295` | so does a deletion, and afterwards nothing names the entity |
| `IdentityLaws.StepKeepsIdentity` | `src/memris/graph.py:132-940` | every operation keeps: the forest, merged entities are never removed, no statement names a missing entity, one decision a pair, "same" iff merged, added aliases disjoint |
| `IdentityLaws.EveryRunHasIdentity` | `src/memris/graph.py:132-940` | the same over every run of operations from an empty graph |
| `IdentityLaws.OwnNamesOverRun` | `src/memris/graph.py:840-885` | over any run the aliases of an entity outside those its active merges added never change |
| `IdentityLaws.AliasesComeBack` | `src/memris/graph.py:840-885` | once all merges into an entity are undone, in any order among anything else, its alias list is the original |
| `IdentityLaws.UnmergeUndoesMerge` | `src/memris/graph.py:814-898` | a merge undone at once gives back both entities exactly |
| `IdentityLaws.ApartIsNeverMerged` | `src/memris/graph.py:832-833` | a pair marked distinct is refused a merge and gathers no evidence |
| `IdentityLaws.ApartOverRun` | `src/memris/graph.py:900-926` | distinct is absorbing over any run that deletes neither entity |
| `TimelineLaws.PlaceFrame` | `src/memris/graph.py:396-409` | displaced values are kept, ended at the new start; no other statement changes |
| `TimelineLaws.PlaceLeavesOne` | `src/memris/graph.py:396-409` | afterwards the new value is the one current value, merged names included, exactly when it holds now and no current value starts after it |
| `TimelineLaws.AssertLeavesOne` | `src/memris/graph.py:299-357` | an asserted confirmed value, new, repeated or proposed before, is the one current value |
| `TimelineLaws.ConfirmLeavesOneIff` | `src/memris/graph.py:490-500` | a confirmed proposal is the one current value, merged names included, exactly when it holds now and no current value starts after it |
| `TimelineLaws.AssertRefusedAfterSaving` | `src/memris/graph.py:330-334` | an admissible confirmed assertion is refused exactly when the claim is found as a proposal filed under a name merged or removed since, and then the reinforcement is already saved |
| `TimelineLaws.PlaceKeepsTimeline` | `src/memris/graph.py:396-409` | placing a value clear of its rivals keeps every two confirmed values of one timeline apart at all instants |
| `TimelineLaws.RetractKeepsTimelineIff` | `src/memris/graph.py:515-532` | retraction keeps timelines apart exactly when the reopened value meets no third value that lasts past it |
| `TimelineLaws.OpenValueIsLast` | `src/memris/graph.py:515-532` | an open value can always be retracted safely |
| `MergeTimelines.MergeKeepsTimelineIff` | `src/memris/graph.py:814-865` | a merge keeps timelines apart exactly when no two confirmed values that it brings under the limits of the keeper hold at one instant |
| `MergeTimelines.UnmergeKeepsTimelineIff` | `src/memris/graph.py:867-898` | undoing it keeps them apart exactly when no two confirmed values under the loser, on a property its class limits, do |
| `TimelineRuns.StepKeepsOrder` | `src/memris/graph.py:132-940` | each operation, allowed as stated, keeps the timelines orderly; adding, unconfirming, ending, purging, removing, deleting and deciding need no condition |
| `TimelineRuns.RunKeepsTimelines` | `src/memris/graph.py:132-940` | over any run of operations of every kind, each allowed where it is taken, at every instant, at most one confirmed value holds on each single-valued timeline |
| `EverydayRuns.EverydayRunsAreSafe` | `src/memris/graph.py:132-532` | over any run of new entities, confirmed assertions that start now, ends now and retractions of open values, at every instant at most one confirmed value holds on each single-valued timeline |
| `EverydayRuns.EveryEverydayRunIsSafe` | `src/memris/graph.py:132-532` | so over any such run from an empty graph, with nothing else asked |
| `EverydayRuns.EverydayIsAllowed` | `src/memris/graph.py:396-532` | such a step meets every condition the timelines need; all it asks of the store is that a retracted value is open |
| `EverydayRuns.EverydayStep` | `src/memris/graph.py:299-532` | such a step keeps what superseded on one timeline with what it superseded |
| `TimelineRuns.RetractUndoesAssertIff` | `src/memris/graph.py:299-532` | retracting what was just asserted gives back every earlier statement exactly when nothing was displaced or one open value was |
| `TimelineRuns.OneOpenValueDisplaced` | `src/memris/graph.py:396-409` | in an orderly state with no end ahead that is always so |
| `TimelineRuns.SayingAndUnsayingIsNothing` | `src/memris/graph.py:299-532` | assertions followed by their retractions in reverse order, a stack, leave every earlier statement as it was |
| `Stacks.NewTellsFit` | `src/memris/graph.py:299-409` | in an orderly state with no end ahead, any new claims under fresh ids that start as they are made displace nothing or one open value each |
| `Stacks.NewTellsLeaveNothing` | `src/memris/graph.py:299-532` | so from such a state saying any new claims and retracting them in reverse order leaves every earlier statement as it was |
| `Stacks.TalkLeavesNothing` | `src/memris/graph.py:299-532` | so does any well-bracketed interleaving of assertions and retractions, to any depth: earlier statements are as they were, all others withdrawn, and timelines in order |
| `RemovalLaws.PutBackAllRestores` | `src/memris/graph.py:210-216` | a restore writes each noted statement back and closes only what that return closes |
| `RemovalLaws.RemoveThenRestoreIff` | `src/memris/graph.py:176-273` | remove then restore gives back the very state exactly when none of the withdrawn values is disturbed on its way back |
| `RemovalLaws.RemoveThenRestore` | `src/memris/graph.py:176-273` | that is the case whenever each withdrawn single-valued claim was the only current one |
| `RestoreLaws.RemovalTakes` | `src/memris/graph.py:176-197` | the notes a removal leaves are about distinct withdrawn statements, the confirmed ones started |
| `RestoreLaws.RestoreCurrent` | `src/memris/graph.py:199-273` | after a restore the current values are those that come back current, and those that were and that no returning statement ends |
| `RestoreLaws.RestoreLeavesAtMostOneIff` | `src/memris/graph.py:199-273` | a restore leaves at most one current value exactly when at most one comes back current and, if one does, every value current before is ended by a returning one |
| `RestoreLaws.RestoreClosesReplacedIff` | `src/memris/graph.py:199-273` | a value replaced while removed comes back ended at the start of its earliest replacement, and not current, unless it carries an end; then it comes back as it was, and is current exactly until that end |
| `RestoreTimelines.PutBackKeepsTimelineIff` | `src/memris/graph.py:241-273` | a value put back keeps timelines apart at all instants exactly when every stored value of its timeline that it does not look at, being neither the predecessor it closes nor a current replacement of what carries no end, has ended by its start, or it is over where that one starts: by its own end or by the start of a current replacement |
| `RestoreTimelines.OverlookedIff` | `src/memris/graph.py:257-273` | what carries no end does not look at values recorded no later and values that are not current, replacements ended since among them |
| `RestoreTimelines.RestoreKeepsTimelineIff` | `src/memris/graph.py:199-273` | a restore keeps timelines apart exactly when, in spans of the stored values and the notes, of two values it returns to one timeline one is over where the later one starts, and so of one it returns and one that stays without being its current replacement |
| `RemovalLaws.PutBackLeavesAtMostOneIff` | `src/memris/graph.py:241-273` | any returning confirmed value leaves at most one current value exactly when it does not hold now, or carries no end and every current rival was recorded after it or is closed by its return |
| `RemovalLaws.RetractThenReinstateIff` | `src/memris/graph.py:221-532` | retract then reinstate gives back the very state exactly when the reopened predecessor was not recorded after the value |
| `Surprises.RetractingAMiddleValue` | `src/memris/graph.py:522-531` | a concrete store where retracting a superseded value breaks the timeline |
| `Surprises.RetractingForgetsAnEnd` | `src/memris/graph.py:525-530` | a concrete store where a future end is lost to an assertion and its retraction |
| `Surprises.ReinstatingAnOldProposal` | `src/memris/graph.py:264-273` | a concrete store where a reinstated value does not come back open |
| `Surprises.RefusedButSaved` | `src/memris/graph.py:330-334` | a concrete store, with its merge on record, where a refused assertion was reinforced |
| `Surprises.RestoringBesideAReplacement` | `src/memris/graph.py:199-273` | a concrete store where a restored value is current beside its replacement |
| `Surprises.ReinstatingUnderAnEndedReplacement` | `src/memris/graph.py:257-273` | a concrete store where a reinstated value overlaps a replacement that has ended |
| `Surprises.MergingTwoCities` | `src/memris/graph.py:814-865` | a concrete store where a merge makes two values overlap |
| `Surprises.UnmergingTwoCities` | `src/memris/graph.py:867-898` | a concrete store where undoing a merge makes two values overlap |
| `Surprises.LengtheningAnEnd` | `src/memris/graph.py:403-406` | a concrete store where asserting a later value lengthens an earlier one past its end |
| `Surprises.WithdrawingAProposal` | `src/memris/graph.py:653-686` | a concrete store where a withdrawn proposal is told of unasked |
| `Surprises.StoresHaveIdentity` | `src/memris/graph.py:132-940` | each of these stores has the identity that every run keeps |
| `ReadLaws.ReadIff` | `src/memris/graph.py:658-686` | a read returns a statement exactly when it was recorded and not yet withdrawn at the one moment, true at the other, no proposal unless asked for, and of the subject, object and property asked for |
| `ReadLaws.LinkedIff` | `src/memris/graph.py:697-741` | the search follows exactly the links that are told of at its two moments, in the directions it looks |
| `ReadLaws.TouchingIff` | `src/memris/graph.py:697-741` | at a node it meets exactly the statements told of that name it there |
| `ReadLaws.AssertedIsOnRecord` | `src/memris/graph.py:299-357` | what an accepted assertion gives back is on record with the property, object and literal claimed, of the subject or a name of it; recorded now as given if new, and else as it was but counted and, when so asserted, confirmed |
| `ReadLaws.AssertsAnewIff` | `src/memris/graph.py:314-342` | it is new exactly when no statement told of now, proposals included, makes the claim of the subject |
| `ReadLaws.StepWrites` | `src/memris/graph.py:132-940` | every operation keeps every record with its claim and its moments, withdraws now or brings back, and records anew only now |
| `ReadLaws.EveryRunIsDated` | `src/memris/graph.py:132-940` | over any run on a clock that does not go back, a statement is withdrawn exactly when it carries the moment |
| `ReadLaws.RunKeepsKnown` | `src/memris/graph.py:658-686` | through any run without purging, deletion and bringing back, what was known at a moment before it stays what was known then: what is withdrawn later is still told of, what is recorded later is not |
| `ReadLaws.RunKeepsClaims` | `src/memris/graph.py:299-940` | and no run changes what a statement claims or when it was recorded |
| `WriteLaws.AdmittedIff` | `src/memris/graph.py:359-394` | when a claim is admitted about a subject: a declared property of its class, not retired, with a literal alone, or an object alone that stands and suits |
| `WriteLaws.LimitedToOneIff` | `src/memris/graph.py:389-401` | a property is limited to one value exactly when the nearest constraint on it among the class and its superclasses says so |
| `WriteLaws.AssertsIff` | `src/memris/graph.py:299-357` | when an assertion is accepted |
| `WriteLaws.PlacedAsSeen` | `src/memris/graph.py:396-409` | what a new value ends is told of from its start to the new one, whatever end it had; of every other statement the same is told |
| `WriteLaws.PlacedOver` | `src/memris/graph.py:406-409` | the new value remembers the newest record among those it ends |
| `WriteLaws.LengthenedIff` | `src/memris/graph.py:403-406` | what it ends comes to be told of longer exactly when it was to end before the new value starts |
| `WriteLaws.ConfirmAsSeen` | `src/memris/graph.py:490-500` | when a proposal is confirmed, and that it is then told of unasked, and placed |
| `WriteLaws.UnconfirmAsSeen` | `src/memris/graph.py:443-450` | an unconfirmed statement is told of when proposals are asked for; nothing else changes |
| `WriteLaws.EndAsSeen` | `src/memris/graph.py:502-513` | when a statement is ended, and that it is told of until then; nothing else changes |
| `WriteLaws.RetractAsSeen` | `src/memris/graph.py:515-532` | a retracted statement is told of only as known before, the predecessor it had ended without end again, and any other as before |
| `WriteLaws.RetractReason` | `src/memris/graph.py:519-524` | the reason given for a retraction is kept, or else the one there was |
| `WriteLaws.ReinstateAsSeen` | `src/memris/graph.py:221-239` | when a reinstatement is accepted, and that what comes back is known again at every moment since it was recorded |
| `WriteLaws.WithdrawnProposalsAreTold` | `src/memris/graph.py:653-686` | a withdrawn proposal is told of as known before its withdrawal, though proposals are not asked for |
| `WriteLaws.RemoveAsSeen` | `src/memris/graph.py:176-197` | what names a removed entity and holds is told of only as known before, and any other as before |
| `WriteLaws.RemoveNotes` | `src/memris/graph.py:176-197` | how each of these stood is noted, once, the oldest record first |
| `WriteLaws.DeleteAsSeen` | `src/memris/graph.py:275-297` | when an entity is deleted, and exactly what goes with it |
| `WriteLaws.PurgeAsSeen` | `src/memris/graph.py:597-612` | when statements are purged, all of them or none |
| `ReturnLaws.ReturnAsSeen` | `src/memris/graph.py:241-273` | a statement put back open is told of until the first of its replacements starts, its predecessor until it starts; with an end, or as a proposal, as it was |
| `ReturnLaws.ReinstateIsReturn` | `src/memris/graph.py:221-239` | a reinstated statement returns so, with the status and reason given |
| `ReturnLaws.RestoreIsReturn` | `src/memris/graph.py:199-219` | every statement noted by a removal and still withdrawn returns so, as it was noted |
| `ReturnLaws.RestoredStands` | `src/memris/graph.py:199-219` | a restored entity stands under its names and class, and no other entity or decision changes |
| `RefusalLaws.AssertionRefused` | `src/memris/graph.py:299-357` | why an assertion is refused; nothing is written then but for a claim found as a proposal whose own subject does not stand |
| `RefusalLaws.ConfirmationRefused` | `src/memris/graph.py:490-500` | why a confirmation is refused, with nothing changed |
| `RefusalLaws.EndRefused` | `src/memris/graph.py:502-513` | why an end is refused, with nothing changed |
| `RefusalLaws.OnlyMissing` | `src/memris/graph.py:199-532` | unconfirming, retracting and restoring are refused only for what is not there |
| `RefusalLaws.ReinstatementRefused` | `src/memris/graph.py:221-239` | why a reinstatement is refused, with nothing changed |
| `RefusalLaws.RemovalRefused` | `src/memris/graph.py:176-197` | why a removal is refused, with nothing changed |
| `RefusalLaws.DeletionRefused` | `src/memris/graph.py:275-297` | why a deletion is refused |
| `RefusalLaws.PurgeRefused` | `src/memris/graph.py:597-612` | why a purge is refused |
| `RefusalLaws.AdditionRefused` | `src/memris/graph.py:105-135` | why an entity is not added |
| `RefusalLaws.MergeRefused` | `src/memris/graph.py:814-837` | why a merge is refused |
| `RefusalLaws.UnmergeRefused` | `src/memris/graph.py:867-885` | why the undoing of a merge is refused |
| `RefusalLaws.DistinctionRefused` | `src/memris/graph.py:900-910` | why a pair is not marked distinct |
| `NameLaws.NamesMerged` | `src/memris/graph.py:838-863` | a merge gives the keeper the loser's label and other names, after its own, each once and in order, and changes no other entity |
| `NameLaws.MergedDecision` | `src/memris/graph.py:846-857` | the merge is on record with its pair, its evidence and the names it added |
| `NameLaws.MergesIff` | `src/memris/graph.py:814-837` | when a merge is accepted |
| `NameLaws.NamesUnmerged` | `src/memris/graph.py:867-898` | undoing a merge takes back just the names it added |
| `NameLaws.ToldApart` | `src/memris/graph.py:900-916` | marking a pair distinct puts it on record unless it is merged |
| `NameLaws.EvidenceNoted` | `src/memris/graph.py:918-940` | a candidate gains the episode once, unless the pair is decided |
| `NameLaws.AddedEntity` | `src/memris/graph.py:132-144` | a new entity stands alone under its label and class with the other names it was given, each once, in order |
| `NameLaws.NotAdded` | `src/memris/graph.py:105-144` | when an entity is not added, and that nothing changes then |
| `Vocabulary.Reader.ReadPredicates` | `src/memris/graph.py:614-637` | the answer, cached or not, is the least set with the term that is closed under replaced-by and, when asked, subproperties |
| `Vocabulary.Reader.Sweep` | `src/memris/graph.py:622-635` | the worklist computes that least closed set on any finite vocabulary, cyclic ones included |
| `Vocabulary.Reader.Refresh` | `src/memris/graph.py:88-98` | a refreshed vocabulary has exactly the declared children and an empty cache |
| `Vocabulary.Terms.OneReadSet` | `src/memris/graph.py:614-637` | there is only one such set |
| `Vocabulary.CachedIsFresh` | `src/memris/graph.py:616-621` | whatever is in the cache equals a fresh computation |
| `Vocabulary.ReadSetIff` | `src/memris/graph.py:614-637` | a query reads exactly the terms that chains of replacements and, when asked for, of subproperties lead to from the qualified name |
| `Resolver.IndexIsComplete` | `src/memris/resolve.py:89-97` | with no normalisation the name index gives exactly the entities the scan would match |
| `Resolver.ClassIndexIsComplete` | `src/memris/resolve.py:70-87` | the class index gives exactly the live entities of a related class |
| `Resolver.Resolver.LiveEntities` | `src/memris/resolve.py:70-87` | by the class index or by the scan, every live entity of a related class, oldest first |
| `Resolver.FirstIsScanned` | `src/memris/resolve.py:110-116` | the first hit in age order is the scan's answer, exact or alias |
| `Resolver.Resolver.Find` | `src/memris/resolve.py:99-116` | through the index or by the scan, the same entity found the same way |
| `Resolver.Resolver.Gather` | `src/memris/resolve.py:150-166` | gathering folds over the decisions naming the entity, each once |
| `Resolver.GatheredKeeps` | `src/memris/resolve.py:150-166` | from open pairs of two existing related entities no merge is ever refused, and what the entity is merged into still stands |
| `Resolver.StepKeepsRecorded` | `src/memris/graph.py:132-940` | every operation keeps open pairs of two existing, distinct, related entities |
| `Resolver.OneMoreCandidate` | `src/memris/resolve.py:134-147` | each look-alike gets exactly one candidate decision |
| `Resolver.Resolver.Resolve` | `src/memris/resolve.py:118-148` | the scan's entity, gathered and followed, or a new one with its look-alikes noted, or the refusal to add one |
| `Resolver.ResolvingKeeps` | `src/memris/resolve.py:118-166` | when open pairs are sound a request is refused exactly when the scan finds nothing and the name is blank or the class undeclared, abstract or deprecated, and then changes nothing; otherwise what it gives stands unmerged; open pairs stay sound |
| `Resolver.RefusedIff` | `src/memris/graph.py:105-135` | an entity is refused exactly when its name is blank or its class is undeclared, abstract or deprecated |
| `ResolverRuns.EveryTrailIsRecorded` | `src/memris/resolve.py:118-166` | over every run from an empty graph that mixes graph operations and requests, open pairs are of two existing, distinct, related entities, and identity holds |
| `ResolverRuns.ResolvingFailsIff` | `src/memris/resolve.py:118-166` | so anywhere in such a run: that is exactly when a name is refused, and otherwise it resolves to an entity that stands |
| `ResolverLaws.ScanIff` | `src/memris/resolve.py:62-116` | a name finds the eldest entity that stands, is of the sort asked for and has it for a label or another name, read as the caller reads names |
| `ResolverLaws.AnswersAfterMerge` | `src/memris/graph.py:838-863` | after a merge the loser answers to no name, and the keeper to all that either did, by its own class |
| `ResolverLaws.FoundAfterMerge` | `src/memris/resolve.py:99-116` | a name that found the loser finds the keeper, or an elder entity of that name, exactly when the keeper is of the sort asked for |
| `ResolverLaws.GatheredIff` | `src/memris/resolve.py:150-166` | a candidate pair is merged exactly when the last word about it is open, both stand and there is evidence enough with this episode; the younger into the elder |
| `ResolverLaws.OldName` | `src/memris/resolve.py:128-132` | a name that is found is nothing new: it means what the eldest entity that answers to it is merged into by then |
| `ResolverLaws.NewName` | `src/memris/resolve.py:128-148` | a name nobody answers to makes a new entity, with one candidate for each entity that sounds like it, and changes nothing else |
| `Learner.Learner.Observe` | `src/memris/learn.py:123-195` | the new store and outcome of one sighting; the vocabulary in use is never behind the store |
| `Learner.Learner.Reject` | `src/memris/learn.py:199-207` | the new store of a rejection |
| `Learner.Learner.Activate` | `src/memris/learn.py:209-219` | the new store of an activation |
| `Learner.Learner.Expire` | `src/memris/learn.py:221-227` | exactly the candidates unseen for too long go |
| `Learner.EveryTermLives` | `src/memris/learn.py:123-227` | over any run each term's count and episodes are those of its sightings since it was last unknown, examples stay distinct and within their cap, a candidate is short of a threshold, one activated by evidence met both |
| `Learner.EpisodesAreDistinct` | `src/memris/learn.py:174-178` | the episodes kept are duplicate-free and exactly the non-empty ones sighted |
| `Learner.StatusMoves` | `src/memris/learn.py:185-227` | the only moves between the states of a term |
| `Learner.NoIsNo` | `src/memris/learn.py:185-227` | rejected and alias terms stay so under any sightings and expiries |
| `Learner.ReadableStays` | `src/memris/learn.py:199-227` | a term once readable stays readable |
| `Learner.EveryRunIsDated` | `src/memris/learn.py:123-227` | over any run a counting term has no activation date and an active one has |
| `LearnerLaws.SightingAsSeen` | `src/memris/learn.py:123-195` | what one sighting makes of a term, field by field |
| `LearnerLaws.ExamplesAsSeen` | `src/memris/learn.py:179-183` | the newest examples are kept, each once, as many as allowed |
| `LearnerLaws.DecisionAsSeen` | `src/memris/learn.py:199-227` | what a rejection, an activation and an expiry change of a term, field by field |
| `LearnerLaws.DatesAreOfSightings` | `src/memris/learn.py:168-173` | over any run a term's dates are those of its first and its last sighting since it was unknown |
| `LearnerLaws.ForgottenIff` | `src/memris/learn.py:221-227` | anywhere in a run an expiry forgets a name exactly when it still only counts and was last sighted too long ago |
| `LearnerLaws.ReadableIff` | `src/memris/learn.py:199-219` | anywhere in a run exactly the names active then or at some moment before can be read |
| `ToolRunner.GovernedToolRunner.Execute` | `src/evarness/agent/tool_runner.py:360-540` | the events, outcome and effects of one governed call |
| `ToolRunner.GovernedToolRunner.Pre` | `src/evarness/agent/tool_runner.py:542-636` | the events and verdict of PRE_TOOL_USE, the missing-record denial and the settling of an unrun call included |
| `ToolRunner.GovernedToolRunner.SettleUnrunTool` | `src/evarness/agent/tool_runner.py:638-651` | an unrun call is settled exactly when the final context names its row |
| `ToolRunner.GovernedToolRunner.Post` | `src/evarness/agent/tool_runner.py:653-741` | what POST_TOOL_USE lets the caller hand on |
| `ToolLaws.RunIsGoverned` | `src/evarness/agent/tool_runner.py:360-741` | over any sequence of calls, for any kernel and tools, each call's part of the log is one of the lives its protocol allows |
| `ToolLaws.BodyWasAllowed` | `src/evarness/agent/tool_runner.py:430-503` | a tool body ran only after PRE_TOOL_USE was asked about the same call id and did not refuse, with the arguments it left, approved if approved per call, and recorded if high-risk |
| `ToolLaws.RowIsSettledOnceIff` | `src/evarness/agent/tool_runner.py:620-651` | under any kernel at all, a row written before a call is settled by exactly one POST_TOOL_USE, unless the kernel refused with the row on the decision alone or allowed a call that needed an approval and had none; then by none |
| `HookKernel.GovernanceKernel.Fire` | `src/evarness/kernel/governance/kernel.py:228-324` | the chain of hooks: the first refusal, or the last decision, with the row noted and a lost audit row refused |
| `HookKernel.RowsAreSticky` | `src/evarness/kernel/governance/kernel.py:277-282` | a row the final decision names is on the final context |
| `HookKernel.RowsAreOfApproved` | `src/evarness/kernel/governance/plugins/pre_tool_use_ledger.py:95-102` | no row without an approval by any hook, none by the chain |
| `HookKernel.EveryRowIsSettledOnce` | `src/evarness/kernel/governance/kernel.py:228-324` | so with this kernel every row recorded before a call is settled by exactly one POST_TOOL_USE of that call, in any run |
| `HookKernel.FiredIs` | `src/evarness/kernel/governance/kernel.py:228-324` | what the hooks saw in turn and what the chain comes to: the first refusal, a throw, a lost audit row, or the last word |
| `ToolLaws.WithheldSaysNothing` | `src/evarness/agent/tool_runner.py:717-740` | two different raw results withheld by the same verdict give the caller the same outcome |
| `ToolLaws.HandedOnIsJudged` | `src/evarness/agent/tool_runner.py:519-541` | a usable outcome is the text POST_TOOL_USE left, of a body that ran without error |
| `ToolLaws.MoreRestrictiveIsTheJoin` | `src/evarness/kernel/governance/plugins/output_classifier.py:40-48` | the stricter of two labels is their join, absent being the least |
| `ToolLaws.LabelNeverFalls` | `src/evarness/agent/tool_runner.py:714-741` | over any calls the run's label is the join of the label before and of those its results earned |
| `ToolLaws.EffectsAreOnRecord` | `src/evarness/agent/tool_runner.py:476-479` | the effects reported are those of the bodies started, in order, reads left out |
| `CallLaws.RunsIff` | `src/evarness/agent/tool_runner.py:360-503` | when a tool's own code runs: allowed under a kernel with its record, and approved when it has to be |
| `CallLaws.HeldIff` | `src/evarness/agent/tool_runner.py:430-475` | when a call is held, and under which verdict |
| `CallLaws.NotRun` | `src/evarness/agent/tool_runner.py:360-475` | a call not run is not ok, has no effect, leaves the label, and says why |
| `CallLaws.UnrunIsSettled` | `src/evarness/agent/tool_runner.py:620-651` | a call asked about and not run is judged as not run exactly when it was refused with its row on the context |
| `CallLaws.ResultIsJudged` | `src/evarness/agent/tool_runner.py:476-541` | a call that runs is judged by the text and the error its tool gave, and its outcome is what the judgement leaves |
| `CallLaws.ResultUnjudged` | `src/evarness/agent/tool_runner.py:476-541` | without a kernel a call runs unasked and its result is handed on as it is |
| `CallLaws.WithheldText` | `src/evarness/agent/tool_runner.py:714-741` | what a caller is told of a withheld result: blocked or in need of approval, and why |
| `CallLaws.RunIsJudged` | `src/evarness/agent/tool_runner.py:476-541` | so in any run: after a tool's code ran, the next event judges what it gave there, text and error |
| `Approvals.ResumedRun.SettlePendingApproval` | `src/evarness/agent/agentic_core.py:1989-2048` | an approved resume runs the pinned calls one after another, any other runs nothing and changes nothing |
| `Approvals.ApprovedCallsAreAskedInOrder` | `src/evarness/agent/agentic_core.py:2010-2029` | PRE_TOOL_USE is asked about exactly the pinned calls whose tool is known, in order, each claiming that approval |
| `Approvals.FloorCoversEveryResult` | `src/evarness/agent/agentic_core.py:2030-2040` | neither label nor floor falls, the floor covers every result, an unset label stays unset |
| `Approvals.ResultsAreOfItems` | `src/evarness/agent/agentic_core.py:2010-2029` | each pinned call has one result, none when its tool is unknown, under ids in order |
| `Approvals.CallsClaimTheApproval` | `src/evarness/agent/agentic_core.py:2010-2029` | every call made claims the approval, is not deferred and says whether outside content was read |
| `Approvals.FloorIsEarned` | `src/evarness/agent/agentic_core.py:2030-2040` | and the floor and the label are no higher than what was there or a result came back with |
| `Approvals.ResumeIsOnRecord` | `src/evarness/agent/agentic_core.py:2010-2040` | a resume reports the effects of the tools whose code ran, in order |
| `GovernedStream.GovernedStream.Pull` | `src/evarness/agent/tool_runner.py:843-871` | one step of the governed stream |
| `GovernedStream.GovernedStream.Stop` | `src/evarness/agent/tool_runner.py:854-871` | what closing a stream, or throwing into it, does |
| `GovernedStream.RunIsSound` | `src/evarness/agent/tool_runner.py:837-871` | over any pulls and stops: item k is given right after its own POST_TOOL_USE left the copy; the end record is the last event, lists the digests of all items pulled in order, and is partial iff the provider had not run out |
| `GovernedStream.OneEndRecordIff` | `src/evarness/agent/tool_runner.py:844-871` | an ended stream has exactly one end record, unless it was closed before its first pull; then none |
| `GovernedStream.LeftUnpulled` | `src/evarness/agent/tool_runner.py:844-871` | a stream closed before its first pull has ended and has no end record |
| `GovernedStream.EndedStays` | `src/evarness/agent/tool_runner.py:844-871` | nothing happens to a stream that has ended |
| `GovernedStream.PullIsTold` | `src/evarness/agent/tool_runner.py:843-871` | what the consumer is told of a pull, read off the log |
| `GovernedStream.ItemIsJudged` | `src/evarness/agent/tool_runner.py:848-866` | an item pulled is judged at once under its number, and passes exactly with a copy left |
| `GovernedStream.LeavingIsOnRecord` | `src/evarness/agent/tool_runner.py:854-871` | leaving a stream that waits ends it on record, with the reason |
| `AgentLoop.Loop` | `src/evarness/agent/agentic_core.py:1481-1826` | at most one model call an iteration left and one synthesis; no trace that is late or blocked put to the model, and each turn what the model's reply to its trace makes of the run; no call made twice; at most two asks, replayed ones counted, and one answer turned back; a non-empty answer whose source in this very trace is known: an answer vetted and vouched for, a question of the model's that the ask guard let through, what governance, the evaluator or a pause said of the trace, a tool's result, or the loop's own sentence; the stall limit never ends a run unless it is not positive |
| `AgentLaws.BlockedAtOnce` | `src/evarness/agent/agentic_core.py:1533-1550` | a run whose first trace is not late and is blocked never asks the model: no call, no step, and exactly the block message |
| `AgentLaws.CallsAreTurns` | `src/evarness/agent/agentic_core.py:1510-1560` | the model is put the traces of the turns in order, the k-th with k calls and k steps made |
| `AgentLaws.GuardIff` | `src/evarness/agent/agentic_core.py:470-556` | when an ask is held up: a card tool was called and no card seen, and no once-confirmed write was called; the third time the turn ends |
| `AgentLaws.VetIff` | `src/evarness/agent/answer_guard.py:171-198` | what becomes of an answer: unread, with scaffolding, claiming a change nothing made, or handed on |
| `AgentLaws.LastGoodIs` | `src/evarness/agent/agentic_core.py:679-687` | the best result so far is that of the latest step with one that can be shown |
| `AgentLaws.InHandIs` | `src/evarness/agent/agentic_core.py:2127-2140` | a repeated direct call is met with the latest of its tool's results that can be shown |
| `AgentLoop.MeetAsk` | `src/evarness/agent/agentic_core.py:499-556` | an ask is turned back, ends the turn or goes through as the guard says |
| `AgentLoop.MeetAnswer` | `src/evarness/agent/agentic_core.py:1589-1605` | an answer is turned back once at most, replaced, refused, or handed on |
| `AgentLoop.MeetAction` | `src/evarness/agent/agentic_core.py:1674-1808` | under a positive stall limit a question is put and ends the run, and any other call not made before is made once: its observation and effects are what the tool gave, and the run ends exactly when the tool paused it, the evaluator halted it or a direct tool answered |
| `AgentLoop.MeetRepeat` | `src/evarness/agent/agentic_core.py:1635-1672` | a repeated call ends the run, its step kept and never observed, with the result in hand or with one synthesis, vetted with no turn-back left |
| `AgentLoop.PassedIsVouched` | `src/evarness/agent/answer_guard.py:171-198` | an answer that passes echoes no scaffolding, claims a change only if one was made or placed earlier, and follows a read in a read-first run |
| `AgentLoop.RunAskedUser` | `src/evarness/agent/agentic_core.py:445-467` | the confirm-once evidence: the write was proposed and a question was put to the user after that |
| `Licenses.Descent.Primary` | `scripts/check_licenses.py:89-108` | reads one operand and its value |
| `Licenses.Descent.Conjunction` | `scripts/check_licenses.py:110-115` | reads a chain of AND and its value, every operand read |
| `Licenses.Descent.Disjunction` | `scripts/check_licenses.py:117-122` | reads a chain of OR and its value, every operand read |
| `Licenses.SatisfiableTokens` | `scripts/check_licenses.py:67-127` | the evaluation of a token list, or the error |
| `Licenses.Tokens` | `scripts/check_licenses.py:50-64` | the tokens of a text, or the error |
| `Licenses.Satisfiable` | `scripts/check_licenses.py:67-127` | the evaluation of a text, or the error |
| `Licenses.AcceptsExactlyExpressions` | `scripts/check_licenses.py:67-127` | a value comes out exactly for token lists of the grammar, whatever is allowed, and is the expression's |
| `Licenses.AllowingMoreIsMonotone` | `scripts/check_licenses.py:67-127` | allowing more never turns a yes into a no, nor a value into an error or back |
| `Licenses.PrintedMeansTheTree` | `scripts/check_licenses.py:67-127` | every expression tree, printed, is satisfied iff the tree is |
| `Licenses.WrittenTreeIsJudged` | `scripts/check_licenses.py:50-127` | the same from the text of the tree |
| `Licenses.TokensIff` | `scripts/check_licenses.py:44-64` | a text is read as these words exactly when it is these words, laid out with blanks |
| `Licenses.NameIff` | `scripts/check_licenses.py:85-104` | a name is any word but a parenthesis or one of the three operators in any case |
| `Licenses.IdentIs` | `scripts/check_licenses.py:105-108` | a word is looked up in small letters, a plus at its end read as "or later" |
| `JsonScan.FindCut` | `src/evarness/agent/agentic_core.py:336-358` | the loop with its depth and flags finds the cut |
| `JsonScan.LStripIs` | `src/evarness/agent/agentic_core.py:336-336` | what is scanned is what follows the leading blanks |
| `JsonScan.CutsBalanced` | `src/evarness/agent/agentic_core.py:328-363` | the cut falls where the first object closes, whatever follows |
| `JsonScan.CutsExactlyBalanced` | `src/evarness/agent/agentic_core.py:328-363` | a cut falls at n exactly when the first n characters are one balanced object |
| `JsonArguments.CutsPrinted` | `src/evarness/agent/agentic_core.py:328-363` | a printed JSON object followed by anything is cut exactly at its end |
| `JsonArguments.ExtractLeadingObject` | `src/evarness/agent/agentic_core.py:328-363` | what the cut decodes to, or nothing |
| `JsonArguments.LoadsIsFaithful` | `src/evarness/agent/agentic_core.py:328-363` | every JSON value, printed, decodes to itself; an object with text behind it to that object or to nothing |
| `JsonArguments.PrintIsInjective` | `src/evarness/agent/agentic_core.py:328-363` | two values that print alike are one |
| `JsonArguments.SameArguments` | `src/evarness/agent/agentic_core.py:366-402` | an object given plainly, with trailing text or once wrapped under input gives the same arguments, by any decoder that reads back what is printed |
| `JsonArguments.SameArgumentsLoaded` | `src/evarness/agent/agentic_core.py:366-402` | so by the decoder written out |
| `JsonArguments.JoinedIs` | `src/evarness/agent/agentic_core.py:354-398` | of a key given twice the decoder keeps one, with the last value |
| `JsonArguments.HexValueIff` | `src/evarness/agent/agentic_core.py:354-398` | the digits of an escaped character, in either case |
| `JsonArguments.ArgumentsAreAnObject` | `src/evarness/agent/agentic_core.py:393-402` | whatever the text, the arguments are an object; a text that is no JSON and opens no object is kept whole |
| `TaskPlan.ExecutionGroups` | `src/evarness/agent/task_planner.py:38-51` | for any tasks, a group holds the tasks of its wave that were ready by then, every id at the first wave by which one of its tasks was ready, and the stuck group last; with distinct ids, the waves |
| `TaskPlan.OneWaveEach` | `src/evarness/agent/task_planner.py:38-51` | the tasks alone settle the wave of every id |
| `TaskPlan.WavesMean` | `src/evarness/agent/task_planner.py:38-51` | each task is in exactly one group, in its wave or among the stuck |
| `TaskPlan.WaveIsLongestChain` | `src/evarness/agent/task_planner.py:43-50` | a task sits at the index of its longest dependency chain |
| `TaskPlan.LargestWaiting` | `src/evarness/agent/task_planner.py:45-47` | the stuck tasks are the largest set in which each waits for a missing task or one of the set |
| `TaskPlan.DroppedIff` | `src/evarness/agent/task_planner.py:43-50` | a plan leaves a task in no group exactly when another of the same id was ready first |
| `TaskPlan.OneOfTwins` | `src/evarness/agent/task_planner.py:43-50` | a plan with two tasks of one id in which the second is in no group |
| `TaskPlan.CollapseSameAgentChain` | `src/evarness/agent/task_planner.py:203-217` | when a plan becomes one task |
| `TaskPlan.SingleWavesAreAChain` | `src/evarness/agent/task_planner.py:209-217` | when every wave has one task each depends on the one before |
| `ContextBudget.TrimHistory` | `src/evarness/agent/context_budget.py:30-49` | the kept transcript and the evicted tokens, which add up |
| `ContextBudget.TrimmedIsLongest` | `src/evarness/agent/context_budget.py:38-49` | the longest ending that fits is kept, or the last block alone |
| `ContextBudget.TrimmedTwice` | `src/evarness/agent/context_budget.py:38-49` | trimming is idempotent |
| `ContextBudget.AdmitMemoryParts` | `src/evarness/agent/context_budget.py:52-75` | the longest beginning that fits, or the pinned first block; kept and evicted add up |
| `ContextBudget.FillRecentTurns` | `src/evarness/agent/context_budget.py:78-100` | the newest lines while they fit, at least the minimum, in order |

## Left out

- One reading of the clock per operation; where the code reads it again a moment later the model uses the same moment.
- Ids are numbers: the code only compares them and sorts by them. Fresh ids are given to an operation, and are not in use.
- Bookkeeping fields: confidence, extractor, evidence text, datatype, ontology version, review, score, asked_at, decided_by of a decision, captured by no theorem here.
- `MemoryGraph.import_`, `refuse`, `review`, `ensure_owner`, `history`, `accept_candidate`, `reject_candidate`, `mark_asked`: `import_` writes records as given and can break every invariant; the others would add easy members.
- The qualification of a class name by its prefix: class names are given qualified. Which classes are abstract or deprecated is part of the ontology.
- Stores: SQLite, indexes other than those by name and by class, sessions, and transactions that fail half-way; a save is one atomic update.
- The order in which `members` and the neighbourhood list their results; the model returns sets and maps.
- Inside superseding and reinstating, the property read is the one named, without the closure of retired terms; the code filters its closure read by that same name afterwards.
- TimelineRuns.RunKeepsTimelines: a restore is allowed in such a run when what it is about to put back is noted once each and had started; removals leave such notes (`RestoreLaws.RemovalTakes`), and a purged id is never used again in the code, which the model does not say.
- Resolver.Resolver.Find: asks that folding a name twice is folding it once, and the name index complete; with a caller's normalisation neither is needed.
- Resolver.Resolver.LiveEntities: asks, of an indexed store, that the superclasses of a declared class are declared, as a compiled ontology has it.
- ResolverRuns.EveryTrailIsRecorded: look-alikes are noted about two entities that could be one, as a request notes them; `note_candidate` itself does not look.
- Resolver scores: a similarity is only asked whether it reaches the threshold.
- Learner: which declared term a new name is near, a caller's similarity, is given with the sighting.
- Licenses: blanks are space, tab, line feed and carriage return, and letter case is that of ASCII.
- JsonArguments.SameArguments: for any decoder that reads back what the printer writes, and `JsonArguments.SameArgumentsLoaded` for one that is written out: it keeps a number as its text, and reads neither escapes above the basic plane nor NaN and Infinity, which the code's decoder does; keys within an object are distinct.
- TaskPlan: how a plan is parsed from a model's text.
- HookKernel: the audit ledger and its spool are one answer, whether the row of a firing was kept; hooks of the other kernel events.
- ToolRunner: calls a tool's own code makes through the runner, egress scopes, session logs, the turn-wide label floor, approval cards, an audit key lost in the middle of a call, and a kernel that raises; the block and refusal texts are shortened.
- Approvals: the wording of the observation, and the near-miss names a tool is resolved by; a tool is known or not.
- GovernedStream: an audit key lost between PRE_TOOL_USE and the stream's end, and the async twin, which repeats the sync one.
- AgentLoop: prompts, parsing, checkpoints, the full wording of notes and answers (shortened), history text, and the streaming twin; time is a test of what happened so far, and an action or a final answer that parses to nothing is read as prose.
- The capability calls that are not streams, audit digests, the response curator, the intent router, escalation, outcome parsing, the command line, the web interface and the scenarios.
