# Corellia, verified

A Dafny model of the parts of the Corellia goal engine whose behaviour is hardest to see from one
body of code, with proofs over every input, every run and every interleaving:

- **The split scheduler.** `SplitGraph` validates a split (names, shares, references, cycles),
  `SplitScheduler` runs its children as interleaved promises over one shared log, `SplitRuns`
  proves what every schedule keeps and that every schedule computes what a sequential evaluation
  computes, `SplitOutcomes` spells out what each child leaves, `SplitReach`, `SplitFacts` and `SplitRace`
  say when the facts that siblings leave in the log make the outcome depend on the schedule, `SplitMemo`
  proves the memo of promises, `FloorHandoff` and `CoverageGate` cover the starved dependencies and the
  injected comprehension children.
- **The event protocol of a goal.** `EventProtocol` holds the fixed event sequences of entry, gate,
  block and ceiling; `GoalTree` interleaves any number of goals in any number of trees over one log,
  and `EntryExits` shows that its runs log what the operations of `EventProtocol` log.
- **How a tree ends.** `ContributingGoals` (a fixpoint over the log) and `PartialDelivery` (round
  report, ship-what's-green, collect or preserve).
- **Working memory.** `Scratchpad`: eviction of tool reads from a transcript, in place; `StepLoop`:
  the notes message and the eviction before every call of the model, over a whole run.
- **Model selection.** `ModelCatalog`, `DefaultCatalog` and `AnthropicDirect`.
- **Text and wire formats.** `BracketGrammar` and `BracketRepair` (sections 2 and 7 of RFC 8259),
  `HostConventions`, `IssueUpdates` and `IssueHistory`, `StepWire`, `Transport`.

`Contract`, `Transcript`, `EventLog` and `Text` hold the shared data, `Selections` the way to say that a
filtered list keeps its order, `Scopes` and `Knowledge` the overlap of paths and the reading of dive facts. `dafny verify dfyconfig.toml`
checks the whole project.

Code that the source writes with loops, counters and in-place updates is a method with loop
invariants or a class with fields, proved against a specification; code that the source writes as
expressions is a function. What a specification function means is said by a lemma in other terms than its
own: with the conditions, the constants and the texts written out, and the order of a list by the indices
it was taken from. Interleaving is a step system: a schedule is the list of the steps taken,
so a statement about every list is a statement about every interleaving. What the engine asks of
code outside the model (a child's own run, the gate, the human, the provider, git) is a parameter.

Where the code and its comments disagree, the model follows the code:

- `keepRecent` never changes an eviction (`src/engine/scratchpad.ts:136-137`), although the comments
  speak of protected reads; and a distilled stub is not recognised as a stub
  (`src/engine/scratchpad.ts:91-93`), so only blind eviction is idempotent.
- A failed integration does not always hold a tree back (`src/engine/partial-delivery.ts:14-16`):
  the round ships when a child blocked with the very same words.
- An unset band's pin does not leave selection unchanged (`src/brains/llm.ts:1064-1067`): a call that
  asks for weak tool calling can get another model, and on the shipped catalog one of the middle
  tier does.
- The redirect to the direct API does not keep a row's position in selection
  (`src/brains/anthropic-provider.ts:75-77`): ties are broken by id, and the id changes.
- Dive facts are read late so that a child starts with what its dependencies found
  (`src/engine/split-children.ts:172-177`), which holds; but the reading (`src/engine/assembly.ts:757-770`)
  does not look at dependencies. A dive that a child overlaps without waiting for it is read or not
  as the schedule has it, and two dives that do not wait for each other are read in the order in which
  they finish, even by a child that waits for both. `SplitRace.OutcomeIsFixedIff` is the exact
  condition, and `SplitRace.DivingIsNotFixed` a round that does not meet it. A dive of the whole
  repository (the empty region) is relevant to every child although the gate
  (`src/engine/coverage-gate.ts:84-98`) makes no child with relative paths wait for it.

## Model

| member | source | states |
|---|---|---|
| SplitGraph.HasDependencyCycle | src/engine/split-validation.ts:88-106 | the depth-first search answers true exactly when some walk along dependencies returns to its start, and exactly when no rank function exists |
| SplitGraph.CycleSearch.Visit | src/engine/split-validation.ts:93-103 | a true answer exhibits a cycle; after a false one the node and all it waits for are finished in topological order and the stack is as before |
| SplitGraph.AcyclicHasNoCycle | src/engine/split-validation.ts:88-106 | a ranked graph has no cycle |
| SplitGraph.TopologicalGivesRank | src/engine/split-validation.ts:88-106 | a topological order of all children is a rank |
| SplitGraph.IdCountDecidesUniqueness | src/engine/split-validation.ts:26-27 | counting distinct ids decides whether they are unique |
| SplitGraph.ValidateSplit | src/engine/split-validation.ts:20-39 | no error exactly for splits with unique ids, known types, shares up to 1.0001, closed references and no cycle; otherwise the error is a true statement about the fault found first |
| FloorHandoff.ClassifyFatalDeps | src/engine/dive-floor-handoff.ts:37-59 | the hard blockers and the floorable regions, each in declaration order |
| FloorHandoff.HardBlockedIffSomeDependencyStarves | src/engine/dive-floor-handoff.ts:45-56 | a dependent is refused exactly when some dependency blocked, left nothing, and is not a learn-kind plan with a scope |
| FloorHandoff.FirstHardBlocker | src/engine/dive-floor-handoff.ts:54 | the blockers of the starving dependencies begin with that of the first; what the refusal then says is in SplitOutcomes.WhatReportedChildrenLeave |
| FloorHandoff.FloorCoversTheLostRegions | src/engine/dive-floor-handoff.ts:49-53 | the floor covers exactly the scopes of the floorable dives that produced nothing |
| SplitRuns.EveryRunKeepsInv | src/engine/split-children.ts:71-195 | in every interleaving each child's phase, report, findings, slice of the log and persisted facts are those that its dependencies' reports and what it read from the log call for, and reports come after those of the dependencies |
| SplitRuns.StartsOnlyAfterDependencies | src/engine/split-children.ts:130-135 | a child's own run starts only after all its dependencies reported and none of them starves it |
| SplitRuns.ReportsAreFinal | src/engine/split-children.ts:84-107 | a report is never changed or repeated by later steps |
| SplitRuns.SchedulesRefineSequentialEvaluation | src/engine/split-children.ts:71-195 | whatever the schedule, a reported child leaves the report, the ending, the events and the facts of a sequential recursive evaluation in which each child reads from the log what it read in this run |
| SplitOutcomes.WhatReportedChildrenLeave | src/engine/split-children.ts:129-182 | in every run a reported child, some of whose dependencies starve it, left one blocker quoting that of the first that does, no artifact and that one event; any other left what its own run returned or threw on the goal it was given, its findings followed by one for each degraded dependency in order and by the floor's, and the events to match |
| SplitOutcomes.WhatUnresolvedChildrenLeave | src/engine/split-children.ts:92-97 | in every run a reported child with a dependency that names no sibling left the report of a crash quoting the first such name, and ran nothing |
| Knowledge.ProjectIsLatest | src/eventlog/projections.ts:733-736 | the projection holds, for each region of the log and no other, the facts last logged about it, in the order in which the regions were first logged |
| Knowledge.OnlyRelevantFactsMatter | src/engine/assembly.ts:757-770 | filtering the projection by relevance to a scope is projecting the relevant facts |
| Knowledge.MemoriesInOrder | src/engine/knowledge-memory.ts:24-41 | in the memories made of the facts, regions stand in the order in which they were first logged |
| Knowledge.MemoriesClaimByClaim | src/engine/knowledge-memory.ts:24-41 | the memories are those of the relevant regions in the order of the projection, for each one memory per claim, named after the region and numbered from zero |
| Knowledge.RelevantMeansRelated | src/engine/assembly.ts:541-551 | a region is relevant to a scope exactly when the scope is empty, the region is nothing but slashes, or it is an ancestor of a path of the scope, or below one, or equal to it, segment by segment |
| SplitReach.ReachesIsWalking | src/engine/split-children.ts:84-107 | in a closed split a child waits for another, directly or through others, exactly when a walk along the dependencies leads there |
| SplitReach.GroupRuns | src/engine/split-children.ts:110 | every run of an acyclic round can be continued by a set of children that contains all they wait for, until these have reported, while nothing happens to any other child |
| SplitFacts.ReadsCoverDependencies | src/engine/split-children.ts:172-177 | in every run a child that has started had read all the facts persisted by those it waits for, directly or through others, and none of its own or of a child that waits for it |
| SplitRace.HeardIff | src/engine/split-children.ts:172-177 | when nothing blocks, a child has read all that another one persists, in every complete run, exactly when it waits for it, directly or through others |
| SplitFacts.OutcomeIsScheduleIndependent | src/engine/split-children.ts:110 | two complete runs of an acyclic round leave equal reports, endings, events and facts of each child, when every child waits, directly or through others, for all it can learn from, and of any two of those one waits for the other |
| SplitRace.OutcomeIsFixedIff | src/engine/split-children.ts:110 | the outcome is the same in all complete runs, whatever the children's runs do, if and only if that condition holds, for closed acyclic rounds in which whoever can tell a child something always does, about regions of its own that were unknown before |
| SplitRace.UnorderedDiveRaces | src/engine/split-children.ts:172-177 | of two children neither of which waits for the other, one complete run lets the second start with all the first persists, another with none of it |
| SplitRace.UnawaitedTellerShows | src/engine/split-children.ts:172-177 | when runs report the memories they are given, two complete runs leave different reports of a child that can learn something from a sibling it does not wait for |
| SplitRace.DiveOrderShows | src/engine/assembly.ts:757-770 | when runs report the memories they are given, two complete runs leave different reports of a child that can learn something from two siblings neither of which waits for the other |
| SplitRace.DivingIsNotFixed | src/engine/assembly.ts:757-770 | a round of two dives and a child that waits for both, with two complete runs that leave different reports of that child |
| SplitRuns.RunsAreBounded | src/engine/split-children.ts:114-195 | the round bounds the length of every schedule |
| SplitRuns.SomeMover | src/engine/split-children.ts:130-131 | an acyclic round is never stuck before every child reported |
| SplitRuns.EveryRunCompletes | src/engine/split-children.ts:110 | every run of an acyclic round extends to one in which all children reported |
| SplitRuns.CompletesIffAcyclic | src/engine/split-children.ts:84-111 | with closed references a complete run of the step system exists exactly when the graph is acyclic; how the recursion that starts the children ends on a cycle is the subject of SplitMemo.StartingEnds |
| SplitRuns.EndingsExplained | src/engine/split-children.ts:129-195 | a child is hard-blocked exactly when its references resolve and some dependency starves it, and then leaves nothing itself |
| SplitRuns.NeverRanIsLeast | src/engine/split-children.ts:133-147 | the children that never ran are the least set closed under starvation; every other child with resolved references ran |
| SplitMemo.PromiseMemo.StartChild | src/engine/split-children.ts:88-108 | terminates by rank although the memo is written after the recursion; a memoised id starts nothing; only children of lower rank are started before the child itself |
| SplitMemo.PromiseMemo.StartDependencies | src/engine/split-children.ts:104 | the dependencies take their turns one after the other in the order in which they are named, each starting nothing if it was started before and otherwise ending with its own promise; an unknown id cuts the loop short |
| SplitMemo.RunSplitChildren | src/engine/split-children.ts:84-111 | exactly one promise per child, each created after those of its dependencies, and the result lines up with the children |
| SplitMemo.StartingEnds | src/engine/split-children.ts:88-111 | as the memo is set after the recursion, starting the children ends within some stack when the split is acyclic and exhausts every stack when it has a cycle |
| Scopes.PrefixMeansAncestor | src/engine/coverage-gate.ts:93-95 | one path plus a slash is a prefix of another, or equal to it, exactly when its segments are a prefix |
| Scopes.SegmentsSpellThePath | src/engine/coverage-gate.ts:86 | the segments of a path hold no slash and, joined by slashes, spell the path |
| Scopes.OverlapMeansRelated | src/engine/coverage-gate.ts:84-98 | two paths overlap exactly when, without the empty segments at their ends but the first, the segments of one are a prefix of those of the other |
| Scopes.TrailingSlashesDoNotMatter | src/engine/coverage-gate.ts:86 | slashes appended to either path never change whether they overlap |
| Scopes.OverlapIsAncestry | src/engine/coverage-gate.ts:84-98 | two scopes overlap exactly when one is empty or some path of one is, segment by segment and trailing slashes apart, an ancestor of one of the other, below it, or equal to it; overlap is symmetric |
| CoverageGate.RenormalizedShares | src/engine/split-validation.ts:9-13 | shares over one are divided by their total and then sum to exactly one, others are kept; nothing else changes |
| CoverageGate.InjectCoverageChildren | src/engine/coverage-gate.ts:46-72 | nothing to inject leaves the split alone; otherwise the augmented split is returned exactly when it is valid, with the injected children in front, without dependencies, and everything else as CoverageGate.AugmentedWrittenOut says |
| CoverageGate.AugmentedWrittenOut | src/engine/coverage-gate.ts:50-65 | the augmented split, field by field: minted and refresh children first, each without dependencies, then the original ones, each with its own dependencies and then the ids of those that must precede it, in order; shares as given, or divided by their total when it exceeds one; nothing else changes |
| CoverageGate.OriginalEdges | src/engine/coverage-gate.ts:59-62 | every original edge is kept and none is added between original children |
| CoverageGate.InjectedEdges | src/engine/coverage-gate.ts:78-82 | an original child waits for exactly the injected children when either scope is empty or some path of one is, segment by segment and trailing slashes apart, an ancestor of one of the other, below it, or equal to it |
| CoverageGate.InjectionStaysRunnable | src/engine/coverage-gate.ts:46-72 | with fresh distinct ids the augmented split keeps unique ids, closed references and acyclicity, and is refused only for a child's type |
| CoverageGate.CoverageComesFirst | src/engine/coverage-gate.ts:78-82 | in every run of the augmented split an original child that has started did so after the injected children that must precede it reported, and has read all the facts they persist |
| CoverageGate.CoverageFixesTheOutcome | src/engine/coverage-gate.ts:46-72 | when the injected dives are disjoint and no child overlaps two of them, and only they persist facts, about their own regions, the outcome of the augmented split does not depend on its schedule |
| CoverageGate.CoverageFixesTheOutcomeIff | src/engine/coverage-gate.ts:46-72 | for dives of different single regions that were unknown before and always make claims, the outcome is the same in all complete runs, whatever the children's runs do, if and only if the dives are disjoint and no child overlaps two of them |
| CoverageGate.WholeRepositoryDiveIsUnordered | src/engine/assembly.ts:541-548 | a dive of the whole repository is relevant to every child but precedes no child with relative paths |
| EventProtocol.EnterGoal | src/engine/goal-entry.ts:23-95 | logs exactly the entry events of the goal and returns ready, the refusing report, or the ceiling; ready exactly below the ceiling, for a known type and a valid input, when the gate grants a goal of a gated type or of high risk, and then the grant is logged exactly for such a goal |
| EventProtocol.EntryWrittenOut | src/engine/goal-entry.ts:33-95 | each way through the entry with its events, reports and texts: ceiling, unknown type, invalid input, ungated, granted, and denied, which is also what a missing gate does |
| EventProtocol.BlockUnknownType | src/engine/goal-entry.ts:97-122 | logs one blocked and one emitted event with the returned report |
| EventProtocol.RunAuthorityGate | src/engine/authority-gate.ts:20-54 | logs the gate's answer; a denial, or a missing gate, adds a block and the returned report |
| EventProtocol.RunBlock | src/engine/blocking.ts:10-35 | logs the resolution and emits the returned report |
| EventProtocol.CeilingReachedOnce | src/engine/blocking.ts:37-55 | logs the ceiling only when the flag was unset, and sets it |
| EventProtocol.CeilingReport | src/engine/blocking.ts:57-78 | the ceiling once, then a block carrying the returned report |
| GoalTree.EveryRunKeepsInv | src/engine/recursive-runner.ts:92-115 | every interleaving of goals and trees keeps each run's slice of the log in the shape its program point requires, and each tree's ceiling flag in step with the log |
| GoalTree.NoDecisionBeforeTheGate | src/engine/recursive-runner.ts:97-114 | in every run each decided event comes after the goal's goal-received and risk-classified events and, when the type is gated or the risk is high, after a granted gate decision |
| GoalTree.MissingGateDenies | src/engine/authority-gate.ts:23-25 | without a gate handler no goal of a gated type or of high risk ever decides |
| GoalTree.EntryWasChecked | src/engine/goal-entry.ts:40-63 | in every run a goal that got past its entry checks is known and valid and was checked when its tree had spent less than its ceiling, and one that leaves by the ceiling at its entry when it had not |
| GoalTree.HaltedMeansNoted | src/engine/blocking.ts:37-55 | in every run whoever is halted by the ceiling leaves it logged in its tree |
| GoalTree.CeilingReachedAtMostOnce | src/engine/blocking.ts:43-54 | each tree logs ceiling-reached at most once, and once exactly when its flag is set |
| GoalTree.ExitsEmitOnce | src/engine/goal-entry.ts:39-84 | a run that leaves by an entry, block or ceiling exit emits exactly once since the exit began, last, with the report it returns; past the entry that report quotes the brief answered just before, the decided one if the goal decided to block |
| GoalTree.EndsAreFinal | src/engine/recursive-runner.ts:92-115 | once a run has returned or thrown, whatever else happens never changes its report and adds none of its events |
| GoalTree.EntryEventsAre | src/engine/goal-entry.ts:33-94 | a ready entry logs exactly what a deciding run must have logged; a refused one emits once, last |
| EntryExits.EntryExitsLogTheProtocol | src/engine/goal-entry.ts:33-94 | in every run a goal that left at its entry logged exactly the events of the entry operation refusing with that report, or the received goal, the ceiling event unless it was logged before, and a block that asks about the spend as it stands then, with its tree's ceiling in both, for some answers of the handlers that exist |
| EntryExits.EveryEntryHappens | src/engine/goal-entry.ts:23-95 | the converse: below the ceiling, what the entry operation logs and returns for any goal is what some run of the system logs, the goal refused by the same report or about to decide |
| EntryExits.EveryDecisionHappens | src/engine/recursive-runner.ts:107-114 | a goal that is let in can decide anything, and the decision is logged next |
| GoalTree.EngineMovesOn | src/engine/recursive-runner.ts:92-115 | at every program point of the engine's own code a run has a move other than to throw, and every move brings it closer to a black box or to the end, at most nine moves away |
| ContributingGoals.GatherContributingGoals | src/engine/sandbox-finalization.ts:121-148 | terminates and lists the tree, the root first; order, multiplicity and fields are in ContributingGoals.GatheredGoalsListTheTree |
| ContributingGoals.GatheredGoalsListTheTree | src/engine/sandbox-finalization.ts:125-147 | the list is the root, if it was received, and then exactly the received goals that descend from it, at increasing places of the log, each entry with the id, title and type of the goal at its place |
| ContributingGoals.FixpointIsTree | src/engine/sandbox-finalization.ts:131-142 | a set of descendants closed under descent is the set of all goals reachable from the root by parent ids |
| ContributingGoals.ListedIffDescends | src/engine/sandbox-finalization.ts:144-147 | a logged goal is listed exactly when it descends from the root; the root is listed once, first |
| ContributingGoals.LogOrderIsIrrelevant | src/engine/sandbox-finalization.ts:132-133 | the tree does not depend on the order of the log |
| ContributingGoals.UnreachableCycleStaysOut | src/engine/sandbox-finalization.ts:131-142 | goals on a parent cycle that the root does not reach stay out |
| PartialDelivery.BuildPartialDelivery | src/engine/split-report.ts:123-141 | the blocked modules and the child blockers, or nothing when no child blocked |
| PartialDelivery.PartialListsTheBlocked | src/engine/split-report.ts:123-141 | exactly the blocked children, in order, each with the id and title of its goal or its number when there is no such goal, and its first blocker; with all blockers of all children |
| PartialDelivery.RoundReportWrittenOut | src/engine/split-report.ts:82-121 | the round's own blockers and findings come before those of its children, which stand in order |
| PartialDelivery.BlockedChildrenListedOnce | src/engine/split-report.ts:129-138 | every blocked child is listed exactly once, in order, with its first blocker, and nothing else is |
| PartialDelivery.RoundShipsIff | src/engine/partial-delivery.ts:62-102 | a round ships exactly when some child blocked, every integration and comprehension blocker is also the text of a child's blocker, and the diff is non-empty and in scope |
| PartialDelivery.DecisionExplained | src/engine/partial-delivery.ts:62-102 | any blocked report ships exactly when modules are blocked, each blocker is also a child's, and the diff is not empty and stays in scope; the reason is the first of these that fails and quotes the first blocker that is not a child's |
| PartialDelivery.FailedIntegrationCanShip | src/engine/partial-delivery.ts:68-79 | a failed integration ships when a child blocked with the same words |
| PartialDelivery.FinalizeSandboxedRun | src/engine/sandbox-finalization.ts:17-48 | the whole log that finalisation adds, for every report |
| PartialDelivery.FinalEventsWrittenOut | src/engine/sandbox-finalization.ts:17-86 | event by event: a preserved worktree with its reason, or the blocked modules, the touched files and the collected worktree, whose message is made of the goals of the tree and lists the blocked modules in its body |
| PartialDelivery.CollectGreenSubtree | src/engine/sandbox-finalization.ts:56-86 | partial delivery, touched files and the collected worktree in that order, with the message of the goals contributing at that point |
| PartialDelivery.ExactlyOneOutcome | src/engine/sandbox-finalization.ts:24-47 | exactly one outcome event, last; collected exactly when the tree ships, announced as partial exactly when it was blocked |
| PartialDelivery.RoundCollectsIff | src/engine/sandbox-finalization.ts:29-45 | from the children's reports to the outcome: collected exactly when nothing blocked, or only children did and their green work is in scope |
| Scratchpad.TranscriptTokens | src/engine/scratchpad.ts:36-45 | the estimate of all messages and their call arguments, which is a quarter of all characters sent, each text rounded up |
| Scratchpad.EstimateIsAQuarter | src/engine/scratchpad.ts:31-45 | four times the estimate is at least the number of characters of all contents and call arguments, and exceeds it by at most three for each text |
| Scratchpad.EvictTranscript | src/engine/scratchpad.ts:112-153 | in place, the shortest prefix of the oldest reads that reaches the cap, or all of them, as Scratchpad.EvictedWrittenOut spells out; at the cap at most four times as many characters are left |
| Scratchpad.EvictedWrittenOut | src/engine/scratchpad.ts:112-211 | all tool reads before some place that are not stubs are replaced, each by its gist or else by the blind stub, and nothing else; the cap is met or no read is left after that place, and it was not met before the last replacement; the ids returned are those of the replaced reads in order |
| Scratchpad.EvictTranscriptWithSummary | src/engine/scratchpad.ts:164-211 | the same with distilled stubs, and the summary tokens are the sum over the calls that answered |
| Scratchpad.EvictionTouchesOnlyReads | src/engine/scratchpad.ts:140-146 | length, roles, call ids and every message that is not an evictable read are kept |
| Scratchpad.EvictionBounds | src/engine/scratchpad.ts:140-141 | afterwards the estimate is at most the cap, or every read was replaced by its stub |
| Scratchpad.LowerCapEvictsMore | src/engine/scratchpad.ts:140-141 | a lower cap evicts at least as many reads |
| Scratchpad.EvictionIsIncremental | src/engine/scratchpad.ts:112-153 | evicting, appending and evicting again equals evicting once at the end |
| StepLoop.StepTranscript.SyncScratchpadMessage | src/engine/step-loop-transcript.ts:41-50 | the first notes message is rewritten, or one is spliced in after the first message; without notes nothing changes |
| StepLoop.SyncedWrittenOut | src/engine/step-loop-transcript.ts:41-50 | the first context that opens like the notes gets the new text, or else one is put in second place; all other messages keep their order |
| StepLoop.RenderedNext | src/engine/scratchpad.ts:238-245 | one more note adds one line with its number and text at the end |
| StepLoop.PassIsIncremental | src/engine/step-loop-transcript.ts:52-58 | evicting, then appending, rewriting the notes and evicting again equals one eviction at the end, as long as the notes do not shrink |
| StepLoop.RunEvictsOnce | src/engine/step-loop-transcript.ts:52-58 | without a summarizer, over a whole run, rewriting the growing notes and evicting before every call leaves exactly what one rewriting and one eviction of the full history would |
| StepLoop.EveryPassBounds | src/engine/step-loop-transcript.ts:65-83 | in any run, distilling or not, each pass leaves the estimate at most at the cap or every read that could be evicted replaced by its stub, and changes nothing when the cap is met |
| StepLoop.RunKeepsMessages | src/engine/step-loop-transcript.ts:52-83 | in any run, distilling or not, every message of the history stays in its place with the last notes, and all but tool reads stay unchanged |
| Scratchpad.BlindEvictionIsFinal | src/engine/scratchpad.ts:90-93 | a second blind pass evicts nothing |
| Scratchpad.EngineWordingIsDistinct | src/engine/scratchpad.ts:69-93 | the engine's blind stubs are recognised as stubs and its distilled ones are not |
| Scratchpad.UselessSummariesEvictBlindly | src/engine/scratchpad.ts:191-201 | when every summary throws or is blank the result is the blind eviction |
| Scratchpad.SecondPassEvictsNothingIff | src/engine/scratchpad.ts:91-93 | a second distilling pass evicts nothing exactly when the first reached the cap or used no summary |
| Scratchpad.DistilledStubIsEvictedAgain | src/engine/scratchpad.ts:82-93 | a transcript of one read on which a second distilling pass evicts again |
| ModelCatalog.HeadPrecedesAll | src/brains/model-catalog.ts:186-193 | the head of the sorted copy is a member that precedes all members in cost, capability and id |
| ModelCatalog.PickedIsChoice | src/brains/model-catalog.ts:152-183 | the pick is the least satisfying row at or above the tier; each failure says exactly that none satisfies, or that all band below |
| ModelCatalog.ResolvesToChoice | src/brains/model-catalog.ts:152-183 | with distinct ids a row is picked if and only if it is the least candidate |
| ModelCatalog.CandidatesAre | src/brains/model-catalog.ts:88-125 | who can serve a call: a row with the vision, the context and the tool calling asked for, and a capability above 3 for the middle tier, of at least 7 for the high one |
| ModelCatalog.PreferenceIs | src/brains/model-catalog.ts:133-193 | who is preferred: the lower band, then the lower cost with three parts of output to one of input, then the higher capability, then the id |
| ModelCatalog.PinComesFirst | src/brains/llm.ts:1098-1107 | the pinned row wins exactly when it meets the needs as asked; otherwise the call is resolved, asking for at least fair tool calling unless it says otherwise |
| ModelCatalog.CatalogOrderIsIrrelevant | src/brains/model-catalog.ts:149-151 | the order of the catalog plays no part |
| ModelCatalog.RaisingTheTier | src/brains/model-catalog.ts:166-173 | raising the tier never lowers the band, and what a higher tier can serve a lower one can |
| ModelCatalog.StrengtheningTheNeeds | src/brains/model-catalog.ts:114-125 | stronger needs never lower the band nor, within a band, the cost |
| ModelCatalog.DefaultPinPicksAsResolution | src/brains/llm.ts:1098-1107 | a defaulted pin picks what resolution alone would, exactly unless weak tool calling is asked for and a weak model is preferred to the pin |
| ModelCatalog.AssembleCatalog | src/brains/model-catalog.ts:411-449 | the row of every id (default, patches in order, bare pin), distinct ids, every pin names a row; fails exactly when an unpinned band cannot be resolved |
| ModelCatalog.PatchWins | src/brains/model-catalog.ts:421-424 | field by field, what a patch gives wins and what it leaves out stays |
| ModelCatalog.LastPatchWins | src/brains/model-catalog.ts:419-425 | the last patch of an id is applied last; an id without a patch keeps its row |
| ModelCatalog.RowsOfPins | src/brains/model-catalog.ts:433-440 | a known id keeps its row whatever is pinned; an unknown one gets a bare row in the lowest band pinned to it |
| DefaultCatalog.DefaultPins | src/brains/model-catalog.ts:212-324 | the shipped catalog resolves the three bands to these three models under every order on ids |
| DefaultCatalog.UnsetPinChangesSelection | src/brains/llm.ts:1064-1067 | on the shipped catalog a middle-tier call that asks for weak tool calling gets the unset band's pin, and would get another model without it |
| AnthropicDirect.ApplyAnthropicDirect | src/brains/anthropic-provider.ts:79-107 | every direct row and every pin on one is rewritten; without a key nothing is |
| AnthropicDirect.RedirectWrittenOut | src/brains/anthropic-provider.ts:39-107 | row by row: only rows of the family that the operator has not routed change, in id, endpoint and wire format only; a pin follows the row it names, and any other pin stays |
| AnthropicDirect.RedirectIsFinal | src/brains/anthropic-provider.ts:39-41 | applying the redirect twice is applying it once |
| AnthropicDirect.SelectionKeepsRanking | src/brains/anthropic-provider.ts:72-77 | automatic selection keeps band, blended cost and capability, and fails alike |
| AnthropicDirect.SelectionCommutes | src/brains/anthropic-provider.ts:72-77 | without ties on cost and capability redirecting commutes with automatic selection |
| AnthropicDirect.PinLookupCommutes | src/brains/anthropic-provider.ts:100-104 | when direct ids do not collide a pin still names its row |
| AnthropicDirect.RedirectKeepsSelection | src/brains/anthropic-provider.ts:79-107 | for an assembled catalog without collisions, pinned selection commutes with the redirect and every selection keeps its ranking |
| AnthropicDirect.SelectionCommutesIff | src/brains/anthropic-provider.ts:72-77 | for every catalog with distinct ids before and after, the redirected pick is picked exactly when its id does not fall behind the redirected id of any candidate of equal band, cost and capability |
| AnthropicDirect.TieSwitchesIff | src/brains/model-catalog.ts:191 | between two tied rows the redirect changes the winner exactly when the direct id changes sides |
| AnthropicDirect.TieSwitches | src/brains/anthropic-provider.ts:75-77 | a two-row catalog on which the redirect changes the winner |
| BracketRepair.UnbalancedClosers | src/brains/llm.ts:824-845 | the closers returned complete the text, are the only closers that do, and no completion is shorter; none are returned exactly when the text is balanced, ends inside a string, or cannot be completed |
| BracketRepair.BalancedIff | src/brains/llm.ts:824-845 | the scan ends empty and outside strings exactly on the texts of the grammar |
| BracketRepair.StackCompletes | src/brains/llm.ts:842-844 | the reversed stack is the unique shortest completion by closers |
| BracketRepair.MismatchIsHopeless | src/brains/llm.ts:838-840 | after a mismatched closer no continuation is well bracketed |
| BracketRepair.ClosersAreForced | src/brains/llm.ts:844 | closers that empty a stack spell it in reverse |
| HostConventions.StripOperationalSections | src/engine/host-conventions.ts:55-92 | a line is kept exactly when no operational heading at or before it is still open, open meaning that every later heading is strictly deeper |
| HostConventions.KeptAreOutside | src/engine/host-conventions.ts:55-92 | exactly the lines outside operational sections are kept, in order |
| HostConventions.HeadingIff | src/engine/host-conventions.ts:62 | a line is a heading of a depth exactly when it begins with so many hashes, one to six, and a title follows them |
| HostConventions.HeadingSpelled | src/engine/host-conventions.ts:72-74 | a heading is operational exactly when its title is one of eight words, in any case |
| HostConventions.StrippingIsFinal | src/engine/host-conventions.ts:55-92 | no operational heading is left and a second pass changes nothing |
| HostConventions.SectionsAreRemovedWhole | src/engine/host-conventions.ts:46-54 | an operational section can be cut out of a file without changing what is kept |
| HostConventions.ApplyContextCap | src/engine/host-conventions.ts:99-107 | cut at the last newline that is neither first nor beyond the cap, or at the cap |
| HostConventions.CappedWrittenOut | src/engine/host-conventions.ts:99-107 | up to 8000 characters a text stays; a longer one ends before the last newline among its characters 1 to 7999, or after 8000 characters |
| HostConventions.CapBringsBackHeadingIff | src/engine/host-conventions.ts:144-145 | the capped text has an operational heading exactly when no newline stands at positions 1 to 7999 and the line cut at the cap reads as one |
| HostConventions.CapCanBringBackHeading | src/engine/host-conventions.ts:144-145 | a stripped text that the cap turns into one with an operational heading |
| IssueUpdates.SetFrontmatterField | src/engine/issue-updates.ts:124-135 | the first such field before the closing rule is replaced, or one is inserted before the rule; without a rule nothing changes |
| IssueUpdates.FieldWrittenOut | src/engine/issue-updates.ts:124-135 | the first line before the first rule that begins with the name and a colon becomes the name and the value, or such a line is put before the rule |
| IssueUpdates.AppendResolution | src/engine/issue-updates.ts:138-150 | the lines of the text with the entry in place of the blank lines that end the first Resolution section, or in a new one |
| IssueUpdates.EntryWrittenOut | src/engine/issue-updates.ts:138-150 | the entry replaces the blank lines that end the first Resolution section, with a blank line before it and one after it when a heading follows, or ends the text in a new section |
| IssueUpdates.OneSection | src/engine/issue-updates.ts:140-147 | a text with a Resolution heading has exactly one such section and one place for the entry |
| IssueHistory.RecordFix | src/engine/issue-updates.ts:62-74 | the lines of the file once a fix is recorded |
| IssueHistory.AppendingGrows | src/engine/issue-updates.ts:138-150 | the section grows by the entry at its end; what stands before it and from the next heading on is kept |
| IssueHistory.RecordingOnce | src/engine/issue-updates.ts:62-74 | the recorded status reads back exactly when the front matter closes, every other line of the front matter stays, and the section grows by the entry |
| IssueHistory.RecordingFixes | src/engine/issue-updates.ts:62-74 | over any sequence of fixes the status is the last one, the entries stand in order, and all else is kept: the other lines of the front matter in place, the text before and after the section without its blank lines |
| StepWire.BuildStepRequest | src/brains/openai-wire.ts:174-283 | one wire message per transcript message, tools omitted when there are none, JSON mode only without tools |
| StepWire.MessagesStand | src/brains/openai-wire.ts:197-246 | what stands for each message: with tools its role and content, without tools a turn's content with each call spelled out below it, and a result under the id of its call |
| StepWire.RoundTripsIff | src/brains/openai-wire.ts:197-246 | with tools the transcript reads back from the wire exactly when no turn has an empty list of calls |
| StepWire.EncodingIsPrefixStable | src/brains/openai-wire.ts:158-162 | appending to the transcript only appends to the messages |
| StepWire.FirstContextIsSystem | src/brains/openai-wire.ts:198-204 | a message is the system's exactly when it is the first context message |
| StepWire.PlainTextHasNoTools | src/brains/openai-wire.ts:187-195 | without tools no message has a tool role or tool calls |
| StepWire.PlainTextForgetsRoles | src/brains/openai-wire.ts:232-237 | without tools a tool result cannot be told from a context message that spells it out |
| StepWire.BuildAnthropicMessages | src/brains/anthropic-wire.ts:166-221 | the OpenAI messages, rephrased one by one, with the system message lifted out |
| StepWire.AnthropicWrittenOut | src/brains/anthropic-wire.ts:166-221 | the first context is the system text; every other message stands in order, a turn with its text, unless blank, and then its calls |
| StepWire.AnthropicRoundTripsIff | src/brains/anthropic-wire.ts:166-221 | the Anthropic form reads back exactly when the first context leads or there is none, no list of calls is empty, and no turn has only white space beside its calls |
| Transport.UsageIsAMonoid | src/brains/llm.ts:204-216 | usage sums in any grouping and order, with zero usage as identity |
| Transport.RepromptDropsCachedTokens | src/brains/llm.ts:448-469 | a re-prompted step's usage is the sum exactly when neither call reports cached tokens |
| Transport.FetchStepResponse | src/brains/llm.ts:1701-1751 | one to four posts up to the first that settles, the ending of the last, and the incidents of all before it |
| Transport.StepSettlesIff | src/brains/llm.ts:1701-1751 | the step fetch stops at a read response that is neither a 429 nor a 5xx, and at an unreadable one that is not a 2xx |
| Transport.OneIncidentPerRetry | src/brains/llm.ts:386-425 | exactly one incident per retry, telling of the post it retried |
| Transport.CallCompletions | src/brains/llm.ts:1113-1174 | one to four posts up to the first that settles; a lost error text is retried here, unlike in the step fetch |
| Transport.CallSettlesIff | src/brains/llm.ts:1127-1174 | when the completion call stops and with what, by status and by the wording of the error |
| Transport.Produce | src/brains/llm.ts:1421-1513 | nothing is asked for when no model meets the tier; a further completion only after a non-delivery and a third only from another model; fails when the middle tier is needed and no model meets it; diagnosed otherwise when none delivered, with the first cause; the usage of all |
| Transport.DeliversIff | src/brains/llm.ts:613-624 | a completion is delivered exactly when it was not cut off and parses to a file at least, or to a text that is not blank and does not read as a refusal |
| Transport.DiagnosisExplained | src/brains/llm.ts:557-580 | the cause is truncation, else refusal, else blankness, else parsing, with the first two hundred characters |
| Transport.NothingTruncatedIsDelivered | src/brains/llm.ts:1421-1513 | whatever the provider does, what is returned as delivered was parsed from a completion that was not cut off, and is not empty |
| Transport.OneWayToEnd | src/brains/llm.ts:1421-1513 | completions, posts and result are settled by the provider and the models of the two tiers; at most three completions and twelve posts; diagnosed exactly when something was asked for, nothing was delivered and the middle tier has a model |
| Transport.AtMostTwelvePosts | src/brains/llm.ts:1127-1174 | each completion costs one to four posts |

## Left out

- Texts: long messages, briefs and stubs are cut down to their opening and the data they carry; nothing proved depends on the words left out, and the eviction results hold for every wording.
- Strings are sequences of code points; the source measures and cuts UTF-16 code units.
- Clock values, delays, jitter and deadlines carry no logic in the model.
- Appends to the event store never fail in the model; where the source can throw, `GoalTree` has a move that ends the run.
- Fields of goals, reports and child plans that the modelled code only copies (specs, intents, budgets, usage).
- The regular expressions for ATX headings are spelled out as functions on lines; the catalog rows of issues (`removeCatalogRow`, `setCatalogStatus`) and `resolveIssue` would only add filters and maps.
- The decision phase, the attempt loop, the milestone loop and split dispatch are black boxes of `GoalTree` that may log, spend, spawn, return or throw; that a goal's decisions are logged under its own id is assumed of them.
- GoalTree.ExitsEmitOnce: says nothing about runs that end inside the attempt or milestone loops, because those loops are not part of this model.
- SplitRuns.SchedulesRefineSequentialEvaluation: events that a child's own run logs are not part of the scheduler's log, because that run is a parameter; it is a function of the goal it is given, and persists its facts in one step before it ends.
- SplitFacts.OutcomeIsScheduleIndependent: neither what a child's own run learns from the log while it runs nor what goals outside the round log meanwhile is modelled.
- SplitRace.OutcomeIsFixedIff: says nothing of rounds in which two children tell about the same region, or one tells about a region that was known before, because the later facts then replace the earlier in place; for these SplitFacts.OutcomeIsScheduleIndependent gives the one direction.
- SplitMemo.StartingEnds: the error of an exhausted stack, which `src/engine/split-children.ts:184-194` catches in the innermost frames, is not part of this model.
- StepLoop.RunEvictsOnce: is about a loop without a summarizer, because distilled stubs are read again (Scratchpad.SecondPassEvictsNothingIff); asks, like StepLoop.RunKeepsMessages, that the first step pushes a message and that no pushed message opens like the notes.
- ModelCatalog.AssembleCatalog: parsing of the operator's JSON is not part of this model; patches arrive parsed, and an explicit undefined need is an absent one.
- ModelCatalog.ResolvesToChoice: `localeCompare` is any total order on ids; two distinct ids that a locale calls equal are not modelled.
- Scratchpad.TranscriptTokens: call arguments are kept as their JSON text.
- StepWire.RoundTripsIff: arguments travel as their JSON text, so serialising and parsing JSON is not part of this model.
- Transport.FetchStepResponse: decoding of a body that was read is not part of this model; the corrective re-prompt appears only through its usage.
- PartialDelivery.FinalizeSandboxedRun: git, the issue lifecycle of a delivered intent and the wording of the commit message are parameters or left out.
- IssueHistory.RecordingFixes: asks that no Resolution heading stands in the front matter, that entries hold no heading of level one or two and end in text, and that entries hold no rule when the file has no front matter; white space at line ends and blank lines are not compared.
- Promotion of lessons, memory layers, prompts, skills, the job queue, the daemon, the console and all shell, git and HTTP plumbing.
- `tryRepairJson` as a whole: its trailing-comma edit also reaches into strings; only the closers are modelled.
