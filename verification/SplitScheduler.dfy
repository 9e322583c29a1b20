/** The concurrent scheduler of one split (`src/engine/split-children.ts`).

    Siblings run as promises over one shared log. A schedule is the sequence of children
    whose promise takes the next step, so a statement about every schedule is a statement
    about every interleaving. What siblings learn about the code reaches each other through
    the log: a child's run persists region facts, and a child that starts later reads them.
    The rest of the engine is an `Env` of arbitrary functions; a child asks each of them at
    most once, so any behaviour of a single run is the behaviour of some `Env`. Messages are
    abbreviated to their head and their data. */
module SplitScheduler {
  import opened Contract
  import opened SplitGraph
  import opened FloorHandoff
  import opened Knowledge
  import Text

  datatype Outcome<+T> = Returned(value: T) | Threw(message: string)

  /** `known` are the region facts logged before the split, `persists` those that the run of
      a goal adds to the log. */
  datatype Env = Env(
    kindOf: string -> Option<Kind>,
    floor: (string, seq<string>) -> seq<MemoryPointer>,
    known: seq<RegionFacts>,
    runChild: Goal -> Outcome<Report>,
    persists: Goal -> seq<RegionFacts>)

  datatype Round = Round(parentId: string, children: seq<ChildPlan>, goals: seq<Goal>)

  function ChildGoalId(parentId: string, localId: string): string {
    parentId + "/" + localId
  }

  ghost predicate ValidRound(r: Round) {
    && UniqueIds(r.children)
    && |r.goals| == |r.children|
    && forall i :: 0 <= i < |r.children| ==> r.goals[i].id == ChildGoalId(r.parentId, r.children[i].localId)
  }

  lemma {:induction false} GoalIdsAreDistinct(r: Round, i: nat, j: nat)
    requires ValidRound(r) && i < |r.children| && j < |r.children| && i != j
    ensures r.goals[i].id != r.goals[j].id
  {
    var a, b := r.children[i].localId, r.children[j].localId;
    var prefix := r.parentId + "/";
    assert (prefix + a)[|prefix|..] == a && (prefix + b)[|prefix|..] == b;
  }

  // ----- Facts that siblings leave to each other -----

  datatype Written = Written(writer: nat, facts: RegionFacts)

  function Facts(knowledge: seq<Written>): seq<RegionFacts> {
    seq(|knowledge|, k requires 0 <= k < |knowledge| => knowledge[k].facts)
  }

  function Tag(i: nat, facts: seq<RegionFacts>): seq<Written> {
    seq(|facts|, k requires 0 <= k < |facts| => Written(i, facts[k]))
  }

  /** The facts that child `i` wrote. */
  function By(knowledge: seq<Written>, i: nat): seq<RegionFacts> {
    if knowledge == [] then []
    else
      var front, last := By(knowledge[..|knowledge| - 1], i), knowledge[|knowledge| - 1];
      if last.writer == i then front + [last.facts] else front
  }

  /** `injectDiveMemories`, when `read` is what the siblings have logged. */
  function Equip(env: Env, goal: Goal, read: seq<Written>): Goal {
    goal.(memories := goal.memories + LateMemories(goal.scope, env.known + Facts(read)))
  }

  function ReadOf(seen: map<nat, seq<Written>>, i: nat): seq<Written> {
    if i in seen then seen[i] else []
  }

  // ----- What one child does, given the reports of its dependencies -----

  datatype Ending =
    | Unresolved   // a dependency names no sibling
    | HardBlocked  // a dependency starved it
    | Crashed      // its run threw
    | Ran          // its run returned a report

  datatype Verdict = Verdict(report: Report, ending: Ending, events: seq<Event>, facts: seq<RegionFacts>)

  /** The first dependency of child `i` that names no sibling. */
  function Unknown(children: seq<ChildPlan>, deps: seq<string>): (r: Option<string>)
    ensures r.None? <==> forall k :: 0 <= k < |deps| ==> IndexOf(children, deps[k]).Some?
  {
    if deps == [] then None
    else if IndexOf(children, deps[0]).None? then Some(deps[0])
    else
      var r := Unknown(children, deps[1..]);
      assert forall k :: 1 <= k < |deps| ==> deps[k] == deps[1..][k - 1];
      r
  }

  predicate Resolved(r: Round, i: nat)
    requires i < |r.children|
  {
    Unknown(r.children, r.children[i].dependsOn).None?
  }

  function Dep(r: Round, i: nat, k: nat): (j: nat)
    requires i < |r.children| && Resolved(r, i) && k < |r.children[i].dependsOn|
    ensures j < |r.children| && Edge(r.children, i, j)
  {
    IndexOf(r.children, r.children[i].dependsOn[k]).value
  }

  function DepPlans(r: Round, i: nat): seq<Option<ChildPlan>>
    requires i < |r.children| && Resolved(r, i)
  {
    seq(|r.children[i].dependsOn|, k requires 0 <= k < |r.children[i].dependsOn| => Some(r.children[Dep(r, i, k)]))
  }

  /** What the dependent logs about its first `n` dependencies. */
  function DegradedEvents(r: Round, i: nat, reports: seq<Report>, n: nat): seq<Event>
    requires i < |r.goals| == |r.children| && n <= |reports| == |r.children[i].dependsOn|
  {
    if n == 0 then [] else
      DegradedEvents(r, i, reports, n - 1)
      + (if Degraded(reports[n - 1])
         then [DependencyDegraded(
           r.goals[i].id, ChildGoalId(r.parentId, r.children[i].dependsOn[n - 1]), reports[n - 1].blockers[0])]
         else [])
  }

  function DegradedFindings(r: Round, i: nat, reports: seq<Report>, n: nat): seq<string>
    requires i < |r.children| && n <= |reports| == |r.children[i].dependsOn|
  {
    if n == 0 then [] else
      DegradedFindings(r, i, reports, n - 1)
      + (if Degraded(reports[n - 1])
         then [DegradedFinding(r.children[i].dependsOn[n - 1], reports[n - 1].blockers[0])]
         else [])
  }

  function DegradedFinding(localId: string, blocker: string): string {
    "degraded dependency " + localId + ": " + blocker
  }

  datatype Floor = Floor(goal: Goal, events: seq<Event>, findings: seq<string>)

  /** `injectStructuralFloor`: memories, one event and one finding for the lost regions, or nothing. */
  function InjectFloor(r: Round, env: Env, i: nat, regions: seq<string>): Floor
    requires i < |r.goals| == |r.children|
  {
    var goal := r.goals[i];
    var memories := if regions == [] then [] else env.floor(goal.id, regions);
    if memories == [] then Floor(goal, [], [])
    else
      var names := Text.Join(Text.Dedupe(regions), ", ");
      Floor(
        goal.(memories := goal.memories + memories),
        [DependencyDegraded(goal.id, Text.Join(r.children[i].dependsOn, ", "),
          "no facts for " + names)],
        ["structural floor for " + names])
  }

  function Refusal(blocker: string): Report {
    BlockedReport("dependency failed: " + blocker)
  }

  function CrashReport(message: string): Report {
    BlockedReport("child threw: " + message)
  }

  function UnresolvedReport(dependency: string): Report {
    CrashReport("dependency not found: " + dependency)
  }

  function Starving(r: Round, env: Env, i: nat, reports: seq<Report>): seq<string>
    requires i < |r.children| && Resolved(r, i) && |reports| == |r.children[i].dependsOn|
  {
    HardBlockers(reports, DepPlans(r, i), env.kindOf)
  }

  function LostRegions(r: Round, env: Env, i: nat, reports: seq<Report>): seq<string>
    requires i < |r.children| && Resolved(r, i) && |reports| == |r.children[i].dependsOn|
  {
    FloorRegions(reports, DepPlans(r, i), env.kindOf)
  }

  function EmittedVerdict(
    goalId: string, report: Report, ending: Ending, before: seq<Event>, facts: seq<RegionFacts>): Verdict
  {
    Verdict(report, ending, before + [Emitted(goalId, report)], facts)
  }

  /** `runOneSplitChild` for a child whose dependencies are all siblings, when it reads what
      the siblings have logged as `read`. */
  function RunOne(r: Round, env: Env, i: nat, reports: seq<Report>, read: seq<Written>): Verdict
    requires i < |r.goals| == |r.children| && Resolved(r, i) && |reports| == |r.children[i].dependsOn|
  {
    var hard := Starving(r, env, i, reports);
    if hard != [] then EmittedVerdict(r.goals[i].id, Refusal(hard[0]), HardBlocked, [], [])
    else
      var floor := InjectFloor(r, env, i, LostRegions(r, env, i, reports));
      var events := DegradedEvents(r, i, reports, |reports|) + floor.events;
      var goal := Equip(env, floor.goal, read);
      match env.runChild(goal)
      case Threw(message) =>
        EmittedVerdict(r.goals[i].id, CrashReport(message), Crashed, events, env.persists(goal))
      case Returned(report) =>
        Verdict(
          report.(findings := report.findings + (DegradedFindings(r, i, reports, |reports|) + floor.findings)),
          Ran, events, env.persists(goal))
  }

  function RunUnresolved(r: Round, i: nat): Verdict
    requires i < |r.goals| == |r.children| && !Resolved(r, i)
  {
    var unknown := Unknown(r.children, r.children[i].dependsOn).value;
    EmittedVerdict(r.goals[i].id, UnresolvedReport(unknown), Unresolved, [], [])
  }

  // ----- The sequential reading: evaluate the dependencies, then the child -----

  const NO_VERDICT := Verdict(BlockedReport("no such child"), Unresolved, [], [])

  /** The run of child `i` on given dependency reports, as a function value; `reads` says what
      each child read from the log. */
  function SequentialRun(r: Round, env: Env, seen: map<nat, seq<Written>>): (nat, seq<Report>) -> Verdict
    requires ValidRound(r)
  {
    (i: nat, reports: seq<Report>) =>
      if i >= |r.children| then NO_VERDICT
      else if !Resolved(r, i) then RunUnresolved(r, i)
      else if |reports| != |r.children[i].dependsOn| then NO_VERDICT
      else RunOne(r, env, i, reports, ReadOf(seen, i))
  }

  /** Recursion over the dependencies: `run` on the reports of the evaluated dependencies. */
  ghost function EvalWith(r: Round, rank: seq<nat>, run: (nat, seq<Report>) -> Verdict, i: nat): Verdict
    requires IsRank(r.children, rank) && i < |r.children|
    decreases rank[i], 1
  {
    run(i, if Resolved(r, i) then EvalDeps(r, rank, run, i) else [])
  }

  ghost function EvalDeps(r: Round, rank: seq<nat>, run: (nat, seq<Report>) -> Verdict, i: nat): seq<Report>
    requires IsRank(r.children, rank) && i < |r.children| && Resolved(r, i)
    decreases rank[i], 0
  {
    seq(|r.children[i].dependsOn|, k requires 0 <= k < |r.children[i].dependsOn| =>
      EvalWith(r, rank, run, Dep(r, i, k)).report)
  }

  ghost function Eval(r: Round, env: Env, seen: map<nat, seq<Written>>, rank: seq<nat>, i: nat): Verdict
    requires ValidRound(r) && IsRank(r.children, rank) && i < |r.children|
  {
    EvalWith(r, rank, SequentialRun(r, env, seen), i)
  }

  // ----- The step system -----

  datatype Phase =
    | Waiting                                              // awaiting the reports of its dependencies
    | Degrading(next: nat, findings: seq<string>)          // logging degraded dependencies one at a time
    | Flooring(findings: seq<string>)                      // about to inject the structural floor
    | Equipping(findings: seq<string>, goal: Goal)         // reading late dive facts
    | Running(findings: seq<string>, goal: Goal)           // its run is in flight
    | Finishing(findings: seq<string>, goal: Goal)         // its run has persisted its facts
    | Emitting(report: Report, ending: Ending)             // its `emitted` event is about to be appended
    | Reported(report: Report, ending: Ending)             // its promise has resolved

  /** `log` and `knowledge` are the two parts of the shared log that matter here. `finished`
      and `seen` are history: the children in the order their promises resolved, and what
      each child that has started read from the log. */
  datatype State = State(
    phases: seq<Phase>,
    log: seq<Event>,
    knowledge: seq<Written>,
    finished: seq<nat>,
    seen: map<nat, seq<Written>>)

  function Init(r: Round): State {
    State(seq(|r.children|, i => Waiting), [], [], [], map[])
  }

  predicate DepsReported(r: Round, s: State, i: nat)
    requires |s.phases| == |r.children| && i < |r.children| && Resolved(r, i)
  {
    forall k :: 0 <= k < |r.children[i].dependsOn| ==> s.phases[Dep(r, i, k)].Reported?
  }

  /** What child `i`'s dependencies have reported, once they all have. */
  function DepReports(r: Round, s: State, i: nat): (reports: seq<Report>)
    requires |s.phases| == |r.children| && i < |r.children|
    ensures Resolved(r, i) && DepsReported(r, s, i) <==> KnowsReports(r, i, reports)
  {
    if Resolved(r, i) && DepsReported(r, s, i) then
      seq(|r.children[i].dependsOn|, k requires 0 <= k < |r.children[i].dependsOn| => s.phases[Dep(r, i, k)].report)
    else []
  }

  predicate KnowsReports(r: Round, i: nat, reports: seq<Report>)
    requires i < |r.children|
  {
    Resolved(r, i) && |reports| == |r.children[i].dependsOn|
  }

  /** A waiting child moves once its dependencies have reported, any other until it has
      reported. The classification and the degraded loop re-read the settled reports. */
  predicate MayMove(r: Round, i: nat, phase: Phase, reports: seq<Report>)
    requires i < |r.children|
  {
    match phase
    case Waiting => !Resolved(r, i) || KnowsReports(r, i, reports)
    case Degrading(_, _) => KnowsReports(r, i, reports)
    case Flooring(_) => KnowsReports(r, i, reports)
    case Reported(_, _) => false
    case _ => true
  }

  predicate Enabled(r: Round, s: State, i: nat)
    requires |s.phases| == |r.children|
  {
    i < |r.children| && MayMove(r, i, s.phases[i], DepReports(r, s, i))
  }

  /** What one step of a child does: its next phase, and what it appends to the log. */
  datatype Move = Move(phase: Phase, events: seq<Event>, facts: seq<RegionFacts>)

  /** The next step of child `i`'s promise, when its dependencies have reported `reports` and
      the siblings have logged `knowledge`. */
  function MoveOf(
    r: Round, env: Env, i: nat, phase: Phase, reports: seq<Report>, knowledge: seq<Written>): Move
    requires i < |r.children| == |r.goals| && MayMove(r, i, phase, reports)
  {
    match phase
    case Waiting =>
      if !Resolved(r, i) then
        Move(Emitting(UnresolvedReport(Unknown(r.children, r.children[i].dependsOn).value), Unresolved), [], [])
      else
        var hard := Starving(r, env, i, reports);
        Move(if hard != [] then Emitting(Refusal(hard[0]), HardBlocked) else Degrading(0, []), [], [])
    case Degrading(next, findings) =>
      if next >= |reports| then Move(Flooring(findings), [], [])
      else if !Degraded(reports[next]) then Move(Degrading(next + 1, findings), [], [])
      else
        var dep, blocker := r.children[i].dependsOn[next], reports[next].blockers[0];
        Move(Degrading(next + 1, findings + [DegradedFinding(dep, blocker)]),
             [DependencyDegraded(r.goals[i].id, ChildGoalId(r.parentId, dep), blocker)], [])
    case Flooring(findings) =>
      var floor := InjectFloor(r, env, i, LostRegions(r, env, i, reports));
      Move(Equipping(findings + floor.findings, floor.goal), floor.events, [])
    case Equipping(findings, goal) => Move(Running(findings, Equip(env, goal, knowledge)), [], [])
    case Running(findings, goal) => Move(Finishing(findings, goal), [], env.persists(goal))
    case Finishing(findings, goal) =>
      (match env.runChild(goal)
       case Threw(message) => Move(Emitting(CrashReport(message), Crashed), [], [])
       case Returned(report) => Move(Reported(report.(findings := report.findings + findings), Ran), [], []))
    case Emitting(report, ending) => Move(Reported(report, ending), [Emitted(r.goals[i].id, report)], [])
  }

  function Apply(s: State, i: nat, m: Move): (t: State)
    requires i < |s.phases|
    ensures |t.phases| == |s.phases|
  {
    State(
      s.phases[i := m.phase],
      s.log + m.events,
      s.knowledge + Tag(i, m.facts),
      if m.phase.Reported? then s.finished + [i] else s.finished,
      if s.phases[i].Equipping? then s.seen[i := s.knowledge] else s.seen)
  }

  /** The next step of child `i`'s promise, in the whole system. */
  function Step(r: Round, env: Env, s: State, i: nat): (t: State)
    requires |s.phases| == |r.children| == |r.goals| && Enabled(r, s, i)
    ensures |t.phases| == |s.phases|
  {
    Apply(s, i, MoveOf(r, env, i, s.phases[i], DepReports(r, s, i), s.knowledge))
  }

  ghost predicate Legal(r: Round, env: Env, schedule: seq<nat>)
    requires ValidRound(r)
  {
    schedule == [] ||
    (var front := schedule[..|schedule| - 1];
     Legal(r, env, front) && Enabled(r, Exec(r, env, front), schedule[|schedule| - 1]))
  }

  /** The state a schedule reaches. */
  ghost function Exec(r: Round, env: Env, schedule: seq<nat>): (s: State)
    requires ValidRound(r)
    ensures |s.phases| == |r.children|
  {
    if schedule == [] then Init(r)
    else
      var s, i := Exec(r, env, schedule[..|schedule| - 1]), schedule[|schedule| - 1];
      if Enabled(r, s, i) then Step(r, env, s, i) else s
  }

  ghost predicate AllReported(s: State) {
    forall i :: 0 <= i < |s.phases| ==> s.phases[i].Reported?
  }
}
