/** The fixed event sequences of a goal: entry (`src/engine/goal-entry.ts`), the authority
    gate (`src/engine/authority-gate.ts`), blocks and the once-only ceiling
    (`src/engine/blocking.ts`). Each operation is proved here as one goal sees it; how goals
    interleave is the subject of `GoalTree`. Texts are cut down to their head and data. */
module EventProtocol {
  import opened Contract
  import opened EventLog

  /** What the engine is wired with; a missing handler is `None`. */
  datatype World = World(
    known: string -> bool,
    gated: string -> bool,
    inputViolation: Goal -> Option<string>,
    classify: Goal -> Risk,
    onGate: Option<(Goal, Risk) -> Grant>,
    onBrief: Option<Brief -> Resolution>,
    money: real -> string)

  class TreeState {
    var spentUsd: real
    var ceilingUsd: real
    var ceilingEmitted: bool

    constructor (ceiling: real)
      ensures spentUsd == 0.0 && ceilingUsd == ceiling && !ceilingEmitted
    {
      spentUsd, ceilingUsd, ceilingEmitted := 0.0, ceiling, false;
    }
  }

  predicate ShouldGate(w: World, goal: Goal) {
    w.gated(goal.goalType) || w.classify(goal) == High
  }

  function UnknownTypeBrief(goal: Goal): Brief {
    Brief("Unknown goal type: " + goal.goalType, Deny)
  }

  function GateDeniedBrief(goal: Goal, risk: Risk, typeGated: bool): Brief {
    Brief("Grant " + goal.title + (if typeGated then ": gated type" else ": risk"), Deny)
  }

  function CeilingBrief(w: World, spentUsd: real, ceilingUsd: real): Brief {
    Brief("Ceiling " + w.money(ceilingUsd) + " reached, spent " + w.money(spentUsd), Deny)
  }

  function UnknownTypeReport(goal: Goal): Report {
    BlockedReport("Unknown goal type: " + goal.goalType)
  }

  function InvalidInputReport(goal: Goal, violation: string): Report {
    BlockedReport("Invalid input for " + goal.goalType + ": " + violation)
  }

  function GateDeniedReport(brief: Brief): Report {
    BlockedReport("Authority gate denied: " + brief.question)
  }

  /** The human's answer, or the safe default when nobody is asked. */
  function Resolve(w: World, brief: Brief): Resolution {
    match w.onBrief
    case Some(ask) => ask(brief)
    case None => brief.onTimeout
  }

  /** The gate's answer; a missing gate denies. */
  function GateAnswer(w: World, goal: Goal, risk: Risk): Grant {
    match w.onGate
    case Some(ask) => ask(goal, risk)
    case None => Denied
  }

  /** A brief with the human's answer, or its default when nobody is asked, and the report. */
  function BlockEvents(w: World, goal: Goal, brief: Brief, report: Report): (events: seq<Event>)
    ensures |events| == 2 && events[1] == Emitted(goal.id, report)
    ensures w.onBrief.None? ==> events[0] == Blocked(goal.id, brief, brief.onTimeout)
    ensures w.onBrief.Some? ==> events[0] == Blocked(goal.id, brief, w.onBrief.value(brief))
  {
    [Blocked(goal.id, brief, Resolve(w, brief)), Emitted(goal.id, report)]
  }

  function GateEvents(w: World, goal: Goal, risk: Risk): seq<Event> {
    var grant := GateAnswer(w, goal, risk);
    var brief := GateDeniedBrief(goal, risk, w.gated(goal.goalType));
    [GateDecision(goal.id, grant)] +
      (if grant == Granted then [] else BlockEvents(w, goal, brief, GateDeniedReport(brief)))
  }

  datatype Entry = Ready(risk: Risk) | Refused(report: Report) | AtCeiling

  function EntryResult(w: World, goal: Goal, atCeiling: bool): Entry {
    if atCeiling then AtCeiling
    else if !w.known(goal.goalType) then Refused(UnknownTypeReport(goal))
    else if w.inputViolation(goal).Some? then Refused(InvalidInputReport(goal, w.inputViolation(goal).value))
    else
      var risk := w.classify(goal);
      if ShouldGate(w, goal) && GateAnswer(w, goal, risk) == Denied
      then Refused(GateDeniedReport(GateDeniedBrief(goal, risk, w.gated(goal.goalType))))
      else Ready(risk)
  }

  /** Everything a goal logs before any decision. */
  function EntryEvents(w: World, goal: Goal, atCeiling: bool): seq<Event> {
    [GoalReceived(goal.id, goal)] +
      (if atCeiling then []
       else if !w.known(goal.goalType) then BlockEvents(w, goal, UnknownTypeBrief(goal), UnknownTypeReport(goal))
       else if w.inputViolation(goal).Some? then
         [Emitted(goal.id, InvalidInputReport(goal, w.inputViolation(goal).value))]
       else
         [RiskClassified(goal.id, w.classify(goal))] +
           (if ShouldGate(w, goal) then GateEvents(w, goal, w.classify(goal)) else []))
  }

  /** What each way through the entry logs and returns, event by event. A goal is gated when
      its type is or its risk is high; it gets past the gate only by a granted decision, a
      missing gate grants nothing, and an ungated goal logs no decision at all. */
  lemma {:induction false} EntryWrittenOut(w: World, goal: Goal, atCeiling: bool)
    ensures
      var events := EntryEvents(w, goal, atCeiling);
      var result := EntryResult(w, goal, atCeiling);
      var risk := w.classify(goal);
      var received := [GoalReceived(goal.id, goal)];
      if atCeiling then result == AtCeiling && events == received
      else if !w.known(goal.goalType) then
        var text := "Unknown goal type: " + goal.goalType;
        && result == Refused(Report(None, [], [], [], [text], [], "", None))
        && events == received + BlockEvents(w, goal, Brief(text, Deny), result.report)
      else if w.inputViolation(goal).Some? then
        var text := "Invalid input for " + goal.goalType + ": " + w.inputViolation(goal).value;
        && result == Refused(Report(None, [], [], [], [text], [], "", None))
        && events == received + [Emitted(goal.id, result.report)]
      else if !w.gated(goal.goalType) && risk != High then
        && result == Ready(risk)
        && events == received + [RiskClassified(goal.id, risk)]
      else if w.onGate.Some? && w.onGate.value(goal, risk) == Granted then
        && result == Ready(risk)
        && events == received + [RiskClassified(goal.id, risk), GateDecision(goal.id, Granted)]
      else
        var reason := if w.gated(goal.goalType) then ": gated type" else ": risk";
        var brief := Brief("Grant " + goal.title + reason, Deny);
        && result == Refused(Report(None, [], [], [], ["Authority gate denied: " + brief.question], [], "", None))
        && events == received + [RiskClassified(goal.id, risk), GateDecision(goal.id, Denied)]
             + BlockEvents(w, goal, brief, result.report)
  {
  }

  // ----- The operations -----

  method BlockUnknownType(w: World, store: EventStore, goal: Goal) returns (report: Report)
    modifies store
    ensures report == UnknownTypeReport(goal)
    ensures store.log == old(store.log) + BlockEvents(w, goal, UnknownTypeBrief(goal), report)
  {
    var brief := UnknownTypeBrief(goal);
    var resolution := Resolve(w, brief);
    store.Append(Blocked(goal.id, brief, resolution));
    report := UnknownTypeReport(goal);
    store.Append(Emitted(goal.id, report));
  }

  method RunAuthorityGate(w: World, store: EventStore, goal: Goal, risk: Risk, shouldGate: bool)
    returns (report: Option<Report>)
    modifies store
    ensures store.log == old(store.log) + (if shouldGate then GateEvents(w, goal, risk) else [])
    ensures report == if shouldGate && GateAnswer(w, goal, risk) == Denied
      then Some(GateDeniedReport(GateDeniedBrief(goal, risk, w.gated(goal.goalType)))) else None
  {
    if !shouldGate { return None; }
    var gateDecision := GateAnswer(w, goal, risk);
    store.Append(GateDecision(goal.id, gateDecision));
    if gateDecision == Granted { return None; }
    var brief := GateDeniedBrief(goal, risk, w.gated(goal.goalType));
    var resolution := Resolve(w, brief);
    store.Append(Blocked(goal.id, brief, resolution));
    store.Append(Emitted(goal.id, GateDeniedReport(brief)));
    return Some(GateDeniedReport(brief));
  }

  /** `enterGoal`. */
  method EnterGoal(w: World, store: EventStore, goal: Goal, tree: TreeState) returns (r: Entry)
    modifies store
    ensures store.log == old(store.log) + EntryEvents(w, goal, tree.spentUsd >= tree.ceilingUsd)
    ensures r == EntryResult(w, goal, tree.spentUsd >= tree.ceilingUsd)
    ensures r.Ready? ==>
      r.risk == w.classify(goal) && store.log == old(store.log)
        + [GoalReceived(goal.id, goal), RiskClassified(goal.id, r.risk)]
        + (if w.gated(goal.goalType) || r.risk == High then [GateDecision(goal.id, Granted)] else [])
    ensures r.Ready? <==>
      && tree.spentUsd < tree.ceilingUsd && w.known(goal.goalType) && w.inputViolation(goal).None?
      && (w.gated(goal.goalType) || w.classify(goal) == High ==>
            w.onGate.Some? && w.onGate.value(goal, w.classify(goal)) == Granted)
  {
    store.Append(GoalReceived(goal.id, goal));
    if tree.spentUsd >= tree.ceilingUsd { return AtCeiling; }
    if !w.known(goal.goalType) {
      var report := BlockUnknownType(w, store, goal);
      return Refused(report);
    }
    var inputViolation := w.inputViolation(goal);
    if inputViolation.Some? {
      var report := InvalidInputReport(goal, inputViolation.value);
      store.Append(Emitted(goal.id, report));
      return Refused(report);
    }
    var entryRisk := w.classify(goal);
    store.Append(RiskClassified(goal.id, entryRisk));
    var authorityReport := RunAuthorityGate(w, store, goal, entryRisk, w.gated(goal.goalType) || entryRisk == High);
    if authorityReport.Some? { return Refused(authorityReport.value); }
    return Ready(entryRisk);
  }

  /** `runBlock`. */
  method RunBlock(w: World, store: EventStore, goal: Goal, brief: Brief) returns (report: Report)
    modifies store
    ensures report == Report(None, [], [], [], [brief.question], [], "", None)
    ensures store.log == old(store.log) + BlockEvents(w, goal, brief, report)
  {
    var resolution := Resolve(w, brief);
    store.Append(Blocked(goal.id, brief, resolution));
    report := BlockedReport(brief.question);
    store.Append(Emitted(goal.id, report));
  }

  function CeilingEvents(goal: Goal, spentUsd: real, ceilingUsd: real, emitted: bool): seq<Event> {
    if emitted then [] else [CeilingReached(goal.id, spentUsd, ceilingUsd)]
  }

  /** `ceilingReachedOnce`: test, set, and log the first time only. */
  method CeilingReachedOnce(store: EventStore, goal: Goal, tree: TreeState)
    modifies store, tree`ceilingEmitted
    ensures tree.ceilingEmitted
    ensures store.log ==
      old(store.log) + CeilingEvents(goal, tree.spentUsd, tree.ceilingUsd, old(tree.ceilingEmitted))
    ensures old(tree.ceilingEmitted) ==> store.log == old(store.log)
    ensures !old(tree.ceilingEmitted) ==>
      store.log == old(store.log) + [CeilingReached(goal.id, tree.spentUsd, tree.ceilingUsd)]
  {
    if tree.ceilingEmitted { return; }
    tree.ceilingEmitted := true;
    store.Append(CeilingReached(goal.id, tree.spentUsd, tree.ceilingUsd));
  }

  /** `ceilingReport`. */
  method CeilingReport(w: World, store: EventStore, goal: Goal, tree: TreeState) returns (report: Report)
    modifies store, tree`ceilingEmitted
    ensures tree.ceilingEmitted
    ensures report == BlockedReport(CeilingBrief(w, tree.spentUsd, tree.ceilingUsd).question)
    ensures report == Report(None, [], [], [],
      ["Ceiling " + w.money(tree.ceilingUsd) + " reached, spent " + w.money(tree.spentUsd)], [], "", None)
    ensures store.log == old(store.log)
      + CeilingEvents(goal, tree.spentUsd, tree.ceilingUsd, old(tree.ceilingEmitted))
      + BlockEvents(w, goal, CeilingBrief(w, tree.spentUsd, tree.ceilingUsd), report)
  {
    CeilingReachedOnce(store, goal, tree);
    report := RunBlock(w, store, goal, CeilingBrief(w, tree.spentUsd, tree.ceilingUsd));
  }
}
