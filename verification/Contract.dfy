/** The handoff contract of the engine: plans, goals, reports and log events. Clock
    values (`at`) carry no logic and are not part of the model. */
module Contract {
  datatype Option<+T> = None | Some(value: T)

  datatype Kind = Make | Learn | Judge | Evolve

  datatype Artifact =
    | Files(files: seq<(string, string)>)
    | Text(text: string)

  /** A memory pointer; layer and provenance tags carry no logic here. */
  datatype MemoryPointer = MemoryPointer(id: string, content: string)

  /** One child of a split, named locally; siblings reference each other by `localId`. */
  datatype ChildPlan = ChildPlan(
    localId: string,
    goalType: string,
    title: string,
    dependsOn: seq<string>,
    scope: seq<string>,
    budgetShare: real)

  datatype Goal = Goal(
    id: string,
    goalType: string,
    parentId: Option<string>,
    title: string,
    scope: seq<string>,
    memories: seq<MemoryPointer>)

  datatype BlockedModule = BlockedModule(goalId: string, title: string, blocker: string)

  datatype PartialDelivery = PartialDelivery(blockedModules: seq<BlockedModule>, childBlockers: seq<string>)

  datatype Report = Report(
    artifact: Option<Artifact>,
    proof: seq<string>,
    lessons: seq<string>,
    memoriesUsed: seq<string>,
    blockers: seq<string>,
    findings: seq<string>,
    learned: string,
    partialDelivery: Option<PartialDelivery>)

  function BlockedReport(reason: string): Report {
    Report(None, [], [], [], [reason], [], "", None)
  }

  datatype Resolution = Deny | Park | Bounce | Answered

  datatype Grant = Granted | Denied

  datatype Risk = Low | Medium | High

  /** A typed question to a human; `onTimeout` is the safe default. */
  datatype Brief = Brief(question: string, onTimeout: Resolution)

  datatype Decision =
    | Satisfy
    | Split(children: seq<ChildPlan>)
    | Block(brief: Brief)

  datatype Event =
    | GoalReceived(goalId: string, goal: Goal)
    | RiskClassified(goalId: string, risk: Risk)
    | GateDecision(goalId: string, grant: Grant)
    | Decided(goalId: string, decision: Decision)
    | Blocked(goalId: string, brief: Brief, resolution: Resolution)
    | Emitted(goalId: string, report: Report)
    | CeilingReached(goalId: string, spentUsd: real, ceilingUsd: real)
    | DependencyDegraded(goalId: string, dependency: string, blocker: string)
    | PartialDelivered(goalId: string, blockedModules: seq<BlockedModule>)
    | FilesTouched(goalId: string, scope: seq<string>, files: seq<string>)
    | WorktreeCollected(goalId: string, subject: string, body: string)
    | WorktreePreserved(goalId: string, reason: string)
    | Other(goalId: string, what: string)

  /** The events of one goal, in log order. */
  function Slice(log: seq<Event>, goalId: string): seq<Event> {
    if log == [] then []
    else
      var e := log[|log| - 1];
      Slice(log[..|log| - 1], goalId) + (if e.goalId == goalId then [e] else [])
  }

  lemma SliceAppend(log: seq<Event>, e: Event, goalId: string)
    ensures Slice(log + [e], goalId) == Slice(log, goalId) + (if e.goalId == goalId then [e] else [])
  {
    assert (log + [e])[..|log|] == log;
  }
}
