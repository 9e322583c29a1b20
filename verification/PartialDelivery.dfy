/** How a tree ends: the round report of a split (`src/engine/split-report.ts`), the
    ship-what's-green predicate (`src/engine/partial-delivery.ts`) and the choice between
    collecting and preserving (`src/engine/sandbox-finalization.ts`). */
module PartialDelivery {
  import opened Contract
  import opened EventLog
  import opened Selections
  import C = ContributingGoals
  import T = Text

  // ----- The round report -----

  predicate IsBlocked(report: Report) { report.blockers != [] }

  function ModuleOf(goals: seq<Goal>, reports: seq<Report>, i: nat): BlockedModule
    requires i < |reports| && IsBlocked(reports[i])
  {
    if i < |goals| then BlockedModule(goals[i].id, goals[i].title, reports[i].blockers[0])
    else BlockedModule("child-" + T.Digits(i), "(unknown module)", reports[i].blockers[0])
  }

  /** The blocked modules among the first `n` children. */
  function BlockedModules(goals: seq<Goal>, reports: seq<Report>, n: nat): seq<BlockedModule>
    requires n <= |reports|
  {
    if n == 0 then []
    else
      BlockedModules(goals, reports, n - 1) +
        (if IsBlocked(reports[n - 1]) then [ModuleOf(goals, reports, n - 1)] else [])
  }

  function BlockedAmong(reports: seq<Report>, n: nat): nat
    requires n <= |reports|
  {
    if n == 0 then 0 else BlockedAmong(reports, n - 1) + (if IsBlocked(reports[n - 1]) then 1 else 0)
  }

  function ChildBlockers(reports: seq<Report>): seq<string> {
    if reports == [] then [] else ChildBlockers(reports[..|reports| - 1]) + reports[|reports| - 1].blockers
  }

  function PartialOf(goals: seq<Goal>, reports: seq<Report>): Option<PartialDelivery> {
    var blockedModules := BlockedModules(goals, reports, |reports|);
    if blockedModules == [] then None else Some(PartialDelivery(blockedModules, ChildBlockers(reports)))
  }

  /** `buildPartialDelivery`. */
  method BuildPartialDelivery(goals: seq<Goal>, reports: seq<Report>, childBlockers: seq<string>)
    returns (r: Option<PartialDelivery>)
    requires childBlockers == ChildBlockers(reports)
    ensures r == PartialOf(goals, reports)
  {
    var blockedModules: seq<BlockedModule> := [];
    for index := 0 to |reports|
      invariant blockedModules == BlockedModules(goals, reports, index)
    {
      var report := reports[index];
      if |report.blockers| == 0 { continue; }
      var id, title := "child-" + T.Digits(index), "(unknown module)";
      if index < |goals| {
        id, title := goals[index].id, goals[index].title;
      }
      blockedModules := blockedModules + [BlockedModule(id, title, report.blockers[0])];
    }
    if |blockedModules| == 0 { return None; }
    return Some(PartialDelivery(blockedModules, childBlockers));
  }

  /** Every blocked child is listed once, in the order of the children, with its first
      blocker; nothing else is listed. */
  lemma {:induction false} BlockedChildrenListedOnce(goals: seq<Goal>, reports: seq<Report>, n: nat)
    requires n <= |reports|
    ensures |BlockedModules(goals, reports, n)| == BlockedAmong(reports, n)
    ensures forall i | 0 <= i < n && IsBlocked(reports[i]) ::
      BlockedAmong(reports, i) < BlockedAmong(reports, n)
      && BlockedModules(goals, reports, n)[BlockedAmong(reports, i)] == ModuleOf(goals, reports, i)
  {
    if n > 0 { BlockedChildrenListedOnce(goals, reports, n - 1); }
  }

  function BlockedFlags(reports: seq<Report>): (flags: seq<bool>)
    ensures |flags| == |reports| && forall i | 0 <= i < |reports| :: flags[i] == (reports[i].blockers != [])
  {
    seq(|reports|, i requires 0 <= i < |reports| => reports[i].blockers != [])
  }

  function BlockersOf(reports: seq<Report>): (lists: seq<seq<string>>)
    ensures |lists| == |reports| && forall i | 0 <= i < |reports| :: lists[i] == reports[i].blockers
  {
    seq(|reports|, i requires 0 <= i < |reports| => reports[i].blockers)
  }

  function FindingsOf(reports: seq<Report>): (lists: seq<seq<string>>)
    ensures |lists| == |reports| && forall i | 0 <= i < |reports| :: lists[i] == reports[i].findings
  {
    seq(|reports|, i requires 0 <= i < |reports| => reports[i].findings)
  }

  function MemoriesOf(reports: seq<Report>): (lists: seq<seq<string>>)
    ensures |lists| == |reports| && forall i | 0 <= i < |reports| :: lists[i] == reports[i].memoriesUsed
  {
    seq(|reports|, i requires 0 <= i < |reports| => reports[i].memoriesUsed)
  }

  /** Some child blocked exactly when there is a partial delivery. It lists the blocked
      children in order, each under its goal's id and title, or under its number when there is
      no such goal, with its first blocker; and it holds all blockers of all children. */
  ghost predicate ListsTheBlocked(goals: seq<Goal>, reports: seq<Report>, r: Option<PartialDelivery>) {
    exists picks ::
      && Selects(BlockedFlags(reports), picks)
      && (r.None? <==> picks == [])
      && (r.Some? ==>
            && |r.value.blockedModules| == |picks|
            && (forall n: nat | n < |picks| ::
                  ModuleTells(goals, reports, picks[n], r.value.blockedModules[n]))
            && r.value.childBlockers == Concatenated(BlockersOf(reports)))
  }

  predicate ModuleTells(goals: seq<Goal>, reports: seq<Report>, i: nat, m: BlockedModule) {
    && i < |reports| && reports[i].blockers != [] && m.blocker == reports[i].blockers[0]
    && (if i < |goals| then m.goalId == goals[i].id && m.title == goals[i].title
        else m.goalId == "child-" + T.Digits(i) && m.title == "(unknown module)")
  }

  lemma {:induction false} ModulesSelected(goals: seq<Goal>, reports: seq<Report>, n: nat) returns (picks: seq<nat>)
    requires n <= |reports|
    ensures Selects(BlockedFlags(reports[..n]), picks) && |BlockedModules(goals, reports, n)| == |picks|
    ensures forall p: nat | p < |picks| ::
      ModuleTells(goals, reports, picks[p], BlockedModules(goals, reports, n)[p])
  {
    picks := [];
    if n > 0 {
      picks := ModulesSelected(goals, reports, n - 1);
      var blocked := IsBlocked(reports[n - 1]);
      assert BlockedFlags(reports[..n]) == BlockedFlags(reports[..n - 1]) + [blocked];
      SelectsSnoc(BlockedFlags(reports[..n - 1]), blocked, picks);
      if blocked { picks := picks + [n - 1]; }
    }
  }

  lemma {:induction false} ChildBlockersAre(reports: seq<Report>)
    ensures ChildBlockers(reports) == Concatenated(BlockersOf(reports))
  {
    if reports != [] {
      var n := |reports| - 1;
      ChildBlockersAre(reports[..n]);
      assert BlockersOf(reports)[..n] == BlockersOf(reports[..n]);
    }
  }

  lemma {:induction false} PartialListsTheBlocked(goals: seq<Goal>, reports: seq<Report>)
    ensures ListsTheBlocked(goals, reports, PartialOf(goals, reports))
  {
    var picks := ModulesSelected(goals, reports, |reports|);
    assert reports[..|reports|] == reports;
    ChildBlockersAre(reports);
    assert Selects(BlockedFlags(reports), picks);
  }

  datatype Round = Round(
    artifact: Option<Artifact>,
    goals: seq<Goal>,
    reports: seq<Report>,
    lessons: seq<string>,
    learned: string,
    extraFindings: seq<string>,
    integrationFindings: seq<string>,
    integrationBlockers: seq<string>,
    comprehendFindings: seq<string>,
    comprehendBlockers: seq<string>)

  /** `buildSplitRoundReport`. */
  function SplitRoundReport(r: Round): Report {
    Report(
      r.artifact,
      [],
      r.lessons,
      Concatenated(MemoriesOf(r.reports)),
      r.integrationBlockers + r.comprehendBlockers + ChildBlockers(r.reports),
      r.extraFindings + r.integrationFindings + r.comprehendFindings + Concatenated(FindingsOf(r.reports)),
      r.learned,
      PartialOf(r.goals, r.reports))
  }

  /** The report of a round, field by field: the blockers and findings of the round itself come
      before those of its children, which stand in the order of the children. */
  lemma {:induction false} RoundReportWrittenOut(r: Round)
    ensures
      var report := SplitRoundReport(r);
      && report.artifact == r.artifact && report.proof == [] && report.learned == r.learned
      && report.lessons == r.lessons && report.memoriesUsed == Concatenated(MemoriesOf(r.reports))
      && report.blockers == r.integrationBlockers + r.comprehendBlockers + Concatenated(BlockersOf(r.reports))
      && report.findings ==
         r.extraFindings + r.integrationFindings + r.comprehendFindings + Concatenated(FindingsOf(r.reports))
      && ListsTheBlocked(r.goals, r.reports, report.partialDelivery)
  {
    ChildBlockersAre(r.reports);
    PartialListsTheBlocked(r.goals, r.reports);
  }

  // ----- Ship what's green -----

  datatype Diff = Diff(changedCount: nat, ok: bool, scopeInsufficiency: Option<string>)

  datatype Decision = Decision(shipGreen: bool, reason: string)

  /** The blockers that no child contributed. */
  function RootBlockers(blockers: seq<string>, childBlockers: seq<string>): seq<string> {
    if blockers == [] then []
    else
      var last := blockers[|blockers| - 1];
      RootBlockers(blockers[..|blockers| - 1], childBlockers) + (if last in childBlockers then [] else [last])
  }

  /** `decidePartialDeliveryFor`; reasons are cut down to their data. */
  function DecidePartialDeliveryFor(report: Report, diff: Diff): Decision {
    if report.partialDelivery.None? || report.partialDelivery.value.blockedModules == [] then
      Decision(false, "no blocked child modules")
    else
      var partial := report.partialDelivery.value;
      var rootBlockers := RootBlockers(report.blockers, partial.childBlockers);
      if rootBlockers != [] then Decision(false, "root-level failure: " + rootBlockers[0])
      else if diff.changedCount == 0 then Decision(false, "no green work")
      else if !diff.ok then
        var insufficiency := if diff.scopeInsufficiency.Some? then diff.scopeInsufficiency.value else "";
        Decision(false, "escaped scope: " + insufficiency)
      else Decision(true, T.Digits(|partial.blockedModules|) + " blocked")
  }

  lemma {:induction false} NoRootBlockersIff(blockers: seq<string>, childBlockers: seq<string>)
    ensures RootBlockers(blockers, childBlockers) == [] <==> forall b :: b in blockers ==> b in childBlockers
  {
    if blockers != [] {
      var front, last := blockers[..|blockers| - 1], blockers[|blockers| - 1];
      assert blockers == front + [last];
      NoRootBlockersIff(front, childBlockers);
    }
  }

  /** The blocker at index `i` is the first that is not among those of the children. */
  predicate FirstOwnBlocker(blockers: seq<string>, childBlockers: seq<string>, i: nat) {
    && i < |blockers| && blockers[i] !in childBlockers
    && forall h | 0 <= h < i :: blockers[h] in childBlockers
  }

  lemma {:induction false} FirstRootBlocker(blockers: seq<string>, childBlockers: seq<string>, i: nat)
    requires FirstOwnBlocker(blockers, childBlockers, i)
    ensures RootBlockers(blockers, childBlockers) != [] && RootBlockers(blockers, childBlockers)[0] == blockers[i]
  {
    var n := |blockers| - 1;
    if i == n {
      NoRootBlockersIff(blockers[..n], childBlockers);
    } else {
      FirstRootBlocker(blockers[..n], childBlockers, i);
    }
  }

  /** A blocked report ships exactly when modules are blocked, each of its blockers is also a
      child's, and the diff is not empty and stays in scope. The reason for not shipping is the
      first of these that fails, and it quotes the first blocker that is not a child's. */
  lemma {:induction false} DecisionExplained(report: Report, diff: Diff)
    ensures var d := DecidePartialDeliveryFor(report, diff);
      if report.partialDelivery == None || report.partialDelivery.value.blockedModules == [] then
        d == Decision(false, "no blocked child modules")
      else
        var modules, theirs := report.partialDelivery.value.blockedModules, report.partialDelivery.value.childBlockers;
        && (forall i: nat | FirstOwnBlocker(report.blockers, theirs, i) ::
              d == Decision(false, "root-level failure: " + report.blockers[i]))
        && ((forall b | b in report.blockers :: b in theirs) ==>
              d == if diff.changedCount == 0 then Decision(false, "no green work")
                else if !diff.ok then
                  Decision(false,
                    "escaped scope: " + (if diff.scopeInsufficiency.Some? then diff.scopeInsufficiency.value else ""))
                else Decision(true, T.Digits(|modules|) + " blocked"))
  {
    if report.partialDelivery.Some? && report.partialDelivery.value.blockedModules != [] {
      var theirs := report.partialDelivery.value.childBlockers;
      NoRootBlockersIff(report.blockers, theirs);
      forall i: nat | FirstOwnBlocker(report.blockers, theirs, i)
        ensures DecidePartialDeliveryFor(report, diff) == Decision(false, "root-level failure: " + report.blockers[i])
      {
        FirstRootBlocker(report.blockers, theirs, i);
      }
    }
  }

  lemma {:induction false} SomeModuleIff(goals: seq<Goal>, reports: seq<Report>, n: nat)
    requires n <= |reports|
    ensures BlockedModules(goals, reports, n) != [] <==> exists i | 0 <= i < n :: IsBlocked(reports[i])
  {
    if n > 0 { SomeModuleIff(goals, reports, n - 1); }
  }

  /** A round ships exactly when some child blocked, every integration or comprehension
      blocker is also the text of some child's blocker, and the diff is not empty and stays
      in scope. */
  lemma {:induction false} RoundShipsIff(r: Round, diff: Diff)
    ensures DecidePartialDeliveryFor(SplitRoundReport(r), diff).shipGreen <==>
      && (exists i | 0 <= i < |r.reports| :: IsBlocked(r.reports[i]))
      && (forall b :: b in r.integrationBlockers + r.comprehendBlockers ==> b in ChildBlockers(r.reports))
      && diff.changedCount != 0
      && diff.ok
  {
    SomeModuleIff(r.goals, r.reports, |r.reports|);
    var own := r.integrationBlockers + r.comprehendBlockers;
    NoRootBlockersIff(own + ChildBlockers(r.reports), ChildBlockers(r.reports));
    assert forall b :: b in own + ChildBlockers(r.reports) <==> b in own || b in ChildBlockers(r.reports);
  }

  /** So a failed integration does not always hold the tree back: when a child blocked with
      the very same words, the round ships. */
  lemma {:induction false} FailedIntegrationCanShip(r: Round, text: string, child: Report, diff: Diff)
    requires child.blockers == [text] && r.reports == [child]
    requires r.integrationBlockers == [text] && r.comprehendBlockers == []
    requires diff.changedCount > 0 && diff.ok
    ensures DecidePartialDeliveryFor(SplitRoundReport(r), diff).shipGreen
  {
    assert IsBlocked(r.reports[0]);
    assert ChildBlockers([child][..0]) == [];
    assert ChildBlockers(r.reports) == [text];
    RoundShipsIff(r, diff);
  }

  // ----- Collect or preserve -----

  function RenderModule(m: BlockedModule): string {
    "- " + m.title + " (" + m.goalId + "): " + m.blocker
  }

  /** `renderBlockedModules`; the headline is cut down to the count. */
  function RenderBlockedModules(report: Report): string {
    if report.partialDelivery.None? || report.partialDelivery.value.blockedModules == [] then ""
    else
      var blocked := report.partialDelivery.value.blockedModules;
      T.Digits(|blocked|) + " blocked:\n" +
        T.Join(seq(|blocked|, i requires 0 <= i < |blocked| => RenderModule(blocked[i])), "\n")
  }

  datatype Message = Message(subject: string, body: string)

  predicate Ships(report: Option<Report>, diff: Diff) {
    report.Some? && (!IsBlocked(report.value) || DecidePartialDeliveryFor(report.value, diff).shipGreen)
  }

  predicate IsPartial(report: Report) {
    IsBlocked(report) && report.partialDelivery.Some?
  }

  function PreservationReason(report: Option<Report>): string {
    if report.None? then "tree threw before producing a report"
    else if report.value.blockers == [] then "tree blocked: unknown"
    else "tree blocked: " + report.value.blockers[0]
  }

  function PartialEvents(goal: Goal, report: Report): seq<Event> {
    if IsPartial(report) then [PartialDelivered(goal.id, report.partialDelivery.value.blockedModules)] else []
  }

  function TouchedEvents(goal: Goal, files: seq<string>): seq<Event> {
    if files == [] then [] else [FilesTouched(goal.id, goal.scope, files)]
  }

  function FinalBody(report: Report, body: string): string {
    if IsPartial(report) then body + "\n\n" + RenderBlockedModules(report) else body
  }

  /** The event of the collected worktree, given the log before it. */
  ghost function CollectedEvent(
    goal: Goal, report: Report, message: (Goal, seq<C.ContributingGoal>) -> Message, log: seq<Event>): Event
  {
    var goals := C.Received(log);
    var m := message(goal, C.RootFirst(goals, goal.id, C.Tree(goals, goal.id)));
    WorktreeCollected(goal.id, m.subject, FinalBody(report, m.body))
  }

  ghost function CollectEvents(
    goal: Goal, report: Report, files: seq<string>,
    message: (Goal, seq<C.ContributingGoal>) -> Message, log: seq<Event>): seq<Event>
  {
    var before := PartialEvents(goal, report) + TouchedEvents(goal, files);
    before + [CollectedEvent(goal, report, message, log + before)]
  }

  /** The events that finalisation adds to a log. */
  ghost function FinalEvents(
    goal: Goal, report: Option<Report>, diff: Diff, files: seq<string>,
    message: (Goal, seq<C.ContributingGoal>) -> Message, log: seq<Event>): seq<Event>
  {
    if Ships(report, diff) then CollectEvents(goal, report.value, files, message, log)
    else [WorktreePreserved(goal.id, PreservationReason(report))]
  }

  /** `finalizeSandboxedRun`. The diff and the touched files are what git reports; the commit
      message is a function of the goal and its contributing goals. */
  method FinalizeSandboxedRun(
    store: EventStore, goal: Goal, report: Option<Report>, diff: Diff, files: seq<string>,
    message: (Goal, seq<C.ContributingGoal>) -> Message)
    modifies store
    ensures store.log == old(store.log) + FinalEvents(goal, report, diff, files, message, old(store.log))
  {
    if report.None? {
      store.Append(WorktreePreserved(goal.id, PreservationReason(report)));
      return;
    }
    if |report.value.blockers| > 0 {
      var decision := DecidePartialDeliveryFor(report.value, diff);
      if !decision.shipGreen {
        store.Append(WorktreePreserved(goal.id, PreservationReason(report)));
        return;
      }
    }
    CollectGreenSubtree(store, goal, report.value, files, message);
  }

  lemma {:induction false} CollectRegroups(
    goal: Goal, report: Report, files: seq<string>,
    message: (Goal, seq<C.ContributingGoal>) -> Message, log: seq<Event>)
    ensures var now := log + PartialEvents(goal, report) + TouchedEvents(goal, files);
      now + [CollectedEvent(goal, report, message, now)] == log + CollectEvents(goal, report, files, message, log)
  {
    var partial, touched := PartialEvents(goal, report), TouchedEvents(goal, files);
    Regroup(log, partial, touched, CollectedEvent(goal, report, message, log + partial + touched));
  }

  lemma {:induction false} Regroup(log: seq<Event>, partial: seq<Event>, touched: seq<Event>, last: Event)
    ensures log + partial + touched == log + (partial + touched)
    ensures log + partial + touched + [last] == log + (partial + touched + [last])
  {
  }

  /** `collectGreenSubtree`. */
  method CollectGreenSubtree(
    store: EventStore, goal: Goal, report: Report, files: seq<string>,
    message: (Goal, seq<C.ContributingGoal>) -> Message)
    modifies store
    ensures store.log == old(store.log) + CollectEvents(goal, report, files, message, old(store.log))
  {
    RecordPartialDelivery(store, goal, report);
    RecordFilesTouched(store, goal, files);
    CollectRegroups(goal, report, files, message, old(store.log));
    var contributing := C.GatherContributingGoals(store.log, goal.id);
    var commitMessage := message(goal, contributing);
    store.Append(WorktreeCollected(goal.id, commitMessage.subject, FinalBody(report, commitMessage.body)));
  }

  method RecordPartialDelivery(store: EventStore, goal: Goal, report: Report)
    modifies store
    ensures store.log == old(store.log) + PartialEvents(goal, report)
  {
    if |report.blockers| > 0 && report.partialDelivery.Some? {
      store.Append(PartialDelivered(goal.id, report.partialDelivery.value.blockedModules));
    }
  }

  method RecordFilesTouched(store: EventStore, goal: Goal, files: seq<string>)
    modifies store
    ensures store.log == old(store.log) + TouchedEvents(goal, files)
  {
    if |files| == 0 { return; }
    store.Append(FilesTouched(goal.id, goal.scope, files));
  }

  /** The events before the outcome: the blocked modules of a partial delivery, and the files
      touched, if there are any. */
  function BeforeOutcome(goal: Goal, report: Report, files: seq<string>): (events: seq<Event>)
    ensures report.blockers != [] && report.partialDelivery != None ==>
      events != [] && events[0] == PartialDelivered(goal.id, report.partialDelivery.value.blockedModules)
    ensures files != [] ==> events != [] && events[|events| - 1] == FilesTouched(goal.id, goal.scope, files)
    ensures |events| ==
      (if report.blockers != [] && report.partialDelivery != None then 1 else 0) + (if files != [] then 1 else 0)
  {
    PartialEvents(goal, report) + TouchedEvents(goal, files)
  }

  /** One line for each blocked module, below their number. */
  predicate Enumerates(modules: seq<BlockedModule>, text: string) {
    var lines := seq(|modules|, i requires 0 <= i < |modules| =>
      "- " + modules[i].title + " (" + modules[i].goalId + "): " + modules[i].blocker);
    text == if modules == [] then "" else T.Digits(|modules|) + " blocked:\n" + T.Join(lines, "\n")
  }

  lemma {:induction false} RenderedEnumerates(report: Report)
    requires report.partialDelivery.Some?
    ensures Enumerates(report.partialDelivery.value.blockedModules, RenderBlockedModules(report))
  {
    var modules := report.partialDelivery.value.blockedModules;
    assert seq(|modules|, i requires 0 <= i < |modules| => RenderModule(modules[i])) ==
      seq(|modules|, i requires 0 <= i < |modules| =>
        "- " + modules[i].title + " (" + modules[i].goalId + "): " + modules[i].blocker);
  }

  /** What finalisation adds to the log, event by event. A collected tree's commit message is
      made of the goals of the tree; the blocked modules are appended to its body. */
  lemma {:induction false} FinalEventsWrittenOut(
    goal: Goal, report: Option<Report>, diff: Diff, files: seq<string>,
    message: (Goal, seq<C.ContributingGoal>) -> Message, log: seq<Event>)
    returns (contributing: seq<C.ContributingGoal>, enumeration: string)
    ensures
      var events := FinalEvents(goal, report, diff, files, message, log);
      if report == None then events == [WorktreePreserved(goal.id, "tree threw before producing a report")]
      else if report.value.blockers != [] && !DecidePartialDeliveryFor(report.value, diff).shipGreen then
        events == [WorktreePreserved(goal.id, "tree blocked: " + report.value.blockers[0])]
      else
        var before := BeforeOutcome(goal, report.value, files);
        var partial := report.value.blockers != [] && report.value.partialDelivery != None;
        var m := message(goal, contributing);
        && (exists goals :: C.ReceivedIn(log + before, goals) && C.ListsTheTree(goals, goal.id, contributing))
        && (partial ==> Enumerates(report.value.partialDelivery.value.blockedModules, enumeration))
        && events == before +
             [WorktreeCollected(goal.id, m.subject, if partial then m.body + "\n\n" + enumeration else m.body)]
  {
    contributing, enumeration := [], "";
    if Ships(report, diff) {
      var whole := log + BeforeOutcome(goal, report.value, files);
      contributing := C.RootFirst(C.Received(whole), goal.id, C.Tree(C.Received(whole), goal.id));
      C.GatheredGoalsListTheTree(whole, goal.id, contributing);
      if report.value.partialDelivery.Some? {
        enumeration := RenderBlockedModules(report.value);
        RenderedEnumerates(report.value);
      }
    }
  }

  predicate IsOutcome(e: Event) {
    e.WorktreeCollected? || e.WorktreePreserved?
  }

  /** Whatever the report, finalisation ends with one outcome event and adds no other: the
      worktree is collected exactly when the tree ships, and a partial delivery is announced
      before it. */
  lemma {:induction false} ExactlyOneOutcome(
    goal: Goal, report: Option<Report>, diff: Diff, files: seq<string>,
    message: (Goal, seq<C.ContributingGoal>) -> Message, log: seq<Event>)
    ensures var events := FinalEvents(goal, report, diff, files, message, log);
      && events != []
      && IsOutcome(events[|events| - 1])
      && (forall i | 0 <= i < |events| - 1 :: !IsOutcome(events[i]))
      && (events[|events| - 1].WorktreeCollected? <==> Ships(report, diff))
      && ((exists e :: e in events && e.PartialDelivered?) <==> Ships(report, diff) && IsBlocked(report.value))
  {
    if Ships(report, diff) {
      var events := FinalEvents(goal, report, diff, files, message, log);
      if IsPartial(report.value) { assert events[0].PartialDelivered?; }
    }
  }

  /** A whole round, from its children's reports to the outcome: the worktree is collected
      exactly when nothing blocked, or only children did and their green work is in scope. */
  lemma {:induction false} RoundCollectsIff(
    goal: Goal, r: Round, diff: Diff, files: seq<string>,
    message: (Goal, seq<C.ContributingGoal>) -> Message, log: seq<Event>)
    ensures var events := FinalEvents(goal, Some(SplitRoundReport(r)), diff, files, message, log);
      var own := r.integrationBlockers + r.comprehendBlockers;
      events[|events| - 1].WorktreeCollected? <==>
        || (own == [] && forall i | 0 <= i < |r.reports| :: !IsBlocked(r.reports[i]))
        || (&& (exists i | 0 <= i < |r.reports| :: IsBlocked(r.reports[i]))
            && (forall b :: b in own ==> b in ChildBlockers(r.reports))
            && diff.changedCount != 0 && diff.ok)
  {
    RoundShipsIff(r, diff);
    NoChildBlockersIff(r.reports);
    ExactlyOneOutcome(goal, Some(SplitRoundReport(r)), diff, files, message, log);
  }

  lemma {:induction false} NoChildBlockersIff(reports: seq<Report>)
    ensures ChildBlockers(reports) == [] <==> forall i | 0 <= i < |reports| :: !IsBlocked(reports[i])
  {
    if reports != [] {
      var front := reports[..|reports| - 1];
      NoChildBlockersIff(front);
      assert forall i | 0 <= i < |front| :: front[i] == reports[i];
    }
  }
}
