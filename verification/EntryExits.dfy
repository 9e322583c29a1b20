/** What a run of `GoalTree` logged when it left at its entry: exactly the events of the
    entry or ceiling operation of `EventProtocol`, for the answers it was given. */
module EntryExits {
  import opened Contract
  import opened EventProtocol
  import opened GoalTree

  /** The same wiring with its answers fixed; a missing handler stays missing. */
  function Answering(w: World, grant: Grant, resolution: Resolution): World {
    w.(onGate := if w.onGate.None? then None else Some((goal, risk) => grant),
       onBrief := if w.onBrief.None? then None else Some(brief => resolution))
  }

  /** What the handler may answer: nobody asked means the brief's default. */
  predicate MayAnswer(w: World, brief: Brief, resolution: Resolution) {
    w.onBrief.None? ==> resolution == brief.onTimeout
  }

  /** The log of a refused entry. */
  ghost predicate RefusedEntry(
    w: World, goal: Goal, report: Report, events: seq<Event>, grant: Grant, resolution: Resolution)
  {
    && EntryResult(Answering(w, grant, resolution), goal, false) == Refused(report)
    && events == EntryEvents(Answering(w, grant, resolution), goal, false)
  }

  /** What a run logs that finds its tree, as it stood at `noted`, at the ceiling, and asks
      about it as it stands at `asked`; other goals may spend between the two. */
  function CeilingEntry(w: World, goal: Goal, noted: Tree, asked: Tree, resolution: Resolution): seq<Event> {
    var brief := CeilingBrief(w, asked.spentUsd, asked.ceilingUsd);
    EntryEvents(w, goal, true) + CeilingEvents(goal, noted.spentUsd, noted.ceilingUsd, noted.ceilingEmitted)
      + BlockEvents(Answering(w, Denied, resolution), goal, brief, BlockedReport(brief.question))
  }

  /** The log of an entry at the ceiling. */
  ghost predicate CeilingExit(
    w: World, goal: Goal, report: Report, events: seq<Event>, noted: Tree, asked: Tree, resolution: Resolution)
  {
    && report == BlockedReport(CeilingBrief(w, asked.spentUsd, asked.ceilingUsd).question)
    && events == CeilingEntry(w, goal, noted, asked, resolution)
  }

  /** A whole log of a run that left at its entry with this report, in a tree with this ceiling. */
  ghost predicate LeftAtEntry(w: World, goal: Goal, ceilingUsd: real, report: Report, events: seq<Event>) {
    || (exists grant, resolution :: RefusedEntry(w, goal, report, events, grant, resolution))
    || (exists noted: Tree, asked: Tree, resolution ::
          noted.ceilingUsd == asked.ceilingUsd == ceilingUsd
          && CeilingExit(w, goal, report, events, noted, asked, resolution))
  }

  predicate Passed(w: World, goal: Goal) {
    w.known(goal.goalType) && w.inputViolation(goal).None?
  }

  /** Once a block is under way at the entry, every allowed answer completes such a log. */
  ghost predicate AnyAnswerLeaves(
    w: World, goal: Goal, ceilingUsd: real, brief: Brief, report: Report, events: seq<Event>)
  {
    forall resolution | MayAnswer(w, brief, resolution) ::
      LeftAtEntry(w, goal, ceilingUsd, report, events + [Blocked(goal.id, brief, resolution), Emitted(goal.id, report)])
  }

  predicate CeilingNoted(goal: Goal, noted: Tree, events: seq<Event>) {
    events == Extended([GoalReceived(goal.id, goal)], CeilingEvent(goal, noted))
  }

  ghost predicate EntryKept(w: World, goal: Goal, ceilingUsd: real, pc: Pc, events: seq<Event>) {
    match pc
    case Classifying => Passed(w, goal)
    case Gating => Passed(w, goal)
    case GateLogging(_) => Passed(w, goal)
    case Halting(exit, _) => exit == AtEntry ==> events == [GoalReceived(goal.id, goal)]
    case Asking(exit, _) =>
      exit == AtEntry ==> exists noted: Tree :: noted.ceilingUsd == ceilingUsd && CeilingNoted(goal, noted, events)
    case Blocking(brief, report, exit, _) =>
      exit == AtEntry ==> AnyAnswerLeaves(w, goal, ceilingUsd, brief, report, events)
    case Emitting(report, exit, _) =>
      exit == AtEntry ==> LeftAtEntry(w, goal, ceilingUsd, report, events + [Emitted(goal.id, report)])
    case Returned(report, exit, _) => exit == AtEntry ==> LeftAtEntry(w, goal, ceilingUsd, report, events)
    case _ => true
  }

  // ----- Each way out -----

  lemma {:induction false} UnknownTypeLeaves(w: World, goal: Goal, ceilingUsd: real)
    requires !w.known(goal.goalType)
    ensures AnyAnswerLeaves(
      w, goal, ceilingUsd, UnknownTypeBrief(goal), UnknownTypeReport(goal), [GoalReceived(goal.id, goal)])
  {
    var brief, report := UnknownTypeBrief(goal), UnknownTypeReport(goal);
    forall resolution | MayAnswer(w, brief, resolution)
      ensures LeftAtEntry(w, goal, ceilingUsd, report,
        [GoalReceived(goal.id, goal)] + [Blocked(goal.id, brief, resolution), Emitted(goal.id, report)])
    {
      assert RefusedEntry(w, goal, report,
        [GoalReceived(goal.id, goal)] + [Blocked(goal.id, brief, resolution), Emitted(goal.id, report)],
        Denied, resolution);
    }
  }

  lemma {:induction false} InvalidInputLeaves(w: World, goal: Goal, ceilingUsd: real)
    requires w.known(goal.goalType) && w.inputViolation(goal).Some?
    ensures var report := InvalidInputReport(goal, w.inputViolation(goal).value);
      LeftAtEntry(w, goal, ceilingUsd, report, [GoalReceived(goal.id, goal)] + [Emitted(goal.id, report)])
  {
    var report := InvalidInputReport(goal, w.inputViolation(goal).value);
    assert RefusedEntry(w, goal, report, [GoalReceived(goal.id, goal)] + [Emitted(goal.id, report)], Denied, Deny);
  }

  lemma {:induction false} DeniedGateLeaves(w: World, goal: Goal, ceilingUsd: real)
    requires Passed(w, goal) && ShouldGate(w, goal)
    ensures
      var brief := GateDeniedBrief(goal, w.classify(goal), w.gated(goal.goalType));
      AnyAnswerLeaves(w, goal, ceilingUsd, brief, GateDeniedReport(brief),
        [GoalReceived(goal.id, goal), RiskClassified(goal.id, w.classify(goal))] + [GateDecision(goal.id, Denied)])
  {
    var brief := GateDeniedBrief(goal, w.classify(goal), w.gated(goal.goalType));
    var report := GateDeniedReport(brief);
    var before :=
      [GoalReceived(goal.id, goal), RiskClassified(goal.id, w.classify(goal))] + [GateDecision(goal.id, Denied)];
    forall resolution | MayAnswer(w, brief, resolution)
      ensures LeftAtEntry(w, goal, ceilingUsd, report,
        before + [Blocked(goal.id, brief, resolution), Emitted(goal.id, report)])
    {
      assert RefusedEntry(w, goal, report,
        before + [Blocked(goal.id, brief, resolution), Emitted(goal.id, report)], Denied, resolution);
    }
  }

  lemma {:induction false} CeilingLeaves(w: World, goal: Goal, noted: Tree, asked: Tree, events: seq<Event>)
    requires noted.ceilingUsd == asked.ceilingUsd && CeilingNoted(goal, noted, events)
    ensures
      var brief := CeilingBrief(w, asked.spentUsd, asked.ceilingUsd);
      AnyAnswerLeaves(w, goal, asked.ceilingUsd, brief, BlockedReport(brief.question), events)
  {
    var brief := CeilingBrief(w, asked.spentUsd, asked.ceilingUsd);
    var report := BlockedReport(brief.question);
    forall resolution | MayAnswer(w, brief, resolution)
      ensures LeftAtEntry(w, goal, asked.ceilingUsd, report,
        events + [Blocked(goal.id, brief, resolution), Emitted(goal.id, report)])
    {
      assert CeilingExit(w, goal, report,
        events + [Blocked(goal.id, brief, resolution), Emitted(goal.id, report)], noted, asked, resolution);
    }
  }

  // ----- Every move -----

  lemma {:induction false} CheckKeepsEntry(w: World, goal: Goal, t: Tree)
    ensures EntryKept(w, goal, t.ceilingUsd, CheckEntry(w, goal, t), [GoalReceived(goal.id, goal)])
  {
    if t.spentUsd >= t.ceilingUsd {
    } else if !w.known(goal.goalType) {
      UnknownTypeLeaves(w, goal, t.ceilingUsd);
    } else if w.inputViolation(goal).Some? {
      InvalidInputLeaves(w, goal, t.ceilingUsd);
    }
  }

  lemma {:induction false} MovesKeepEntry(
    w: World, goal: Goal, pc: Pc, t: Tree, events: seq<Event>, c: Choice, m: Move)
    requires OnTrack(w, goal, pc, events) && EntryKept(w, goal, t.ceilingUsd, pc, events)
    requires MoveOf(w, goal, pc, t, |events|, c) == Some(m)
    ensures EntryKept(w, goal, t.ceilingUsd, m.pc, Extended(events, m.event))
  {
    if c.Throw? || pc.Deciding? || pc.Working? {
    } else if pc.Checking? {
      CheckKeepsEntry(w, goal, t);
    } else if pc.GateLogging? {
      DeniedGateLeaves(w, goal, t.ceilingUsd);
    } else if pc.Halting? {
      assert pc.exit == AtEntry ==> CeilingNoted(goal, t, Extended(events, CeilingEvent(goal, t)));
    } else if pc.Asking? {
      if pc.exit == AtEntry {
        var noted: Tree :| noted.ceilingUsd == t.ceilingUsd && CeilingNoted(goal, noted, events);
        CeilingLeaves(w, goal, noted, t, events);
      }
    } else if pc.Blocking? {
      assert events + [Blocked(goal.id, pc.brief, c.resolution), Emitted(goal.id, pc.report)] ==
        events + [Blocked(goal.id, pc.brief, c.resolution)] + [Emitted(goal.id, pc.report)];
    }
  }

  // ----- Every run of the system -----

  ghost predicate EntryKeptIn(w: World, s: State, p: nat)
    requires Live(s, p)
  {
    EntryKept(w, s.runs[p].goal, s.trees[s.runs[p].tree].ceilingUsd, s.runs[p].pc, RunSlice(s.log, p))
  }

  ghost predicate EntriesKept(w: World, s: State) {
    forall p | 0 <= p < |s.runs| :: Live(s, p) && EntryKeptIn(w, s, p)
  }

  lemma {:induction false} OtherEntryKept(w: World, s: State, q: nat, m: Move, p: nat)
    requires Live(s, q) && Live(s, p) && p != q && EntryKeptIn(w, s, p)
    ensures Live(Apply(s, q, m), p) && EntryKeptIn(w, Apply(s, q, m), p)
  {
    OthersUntouched(s, q, m, p);
  }

  lemma {:induction false} OwnEntryKept(w: World, s: State, p: nat, c: Choice, m: Move)
    requires Live(s, p) && EntryKeptIn(w, s, p) && OnTrack(w, s.runs[p].goal, s.runs[p].pc, RunSlice(s.log, p))
    requires MoveOf(w, s.runs[p].goal, s.runs[p].pc, s.trees[s.runs[p].tree], |RunSlice(s.log, p)|, c) == Some(m)
    ensures Live(Apply(s, p, m), p) && EntryKeptIn(w, Apply(s, p, m), p)
  {
    MovesKeepEntry(w, s.runs[p].goal, s.runs[p].pc, s.trees[s.runs[p].tree], RunSlice(s.log, p), c, m);
    if m.event.Some? { SliceSnoc(s.log, Logged(p, s.runs[p].tree, m.event.value), p); }
  }

  lemma {:induction false} ActKeepsEntries(w: World, s: State, p: nat, c: Choice, m: Move)
    requires RunsOnTrack(w, s) && EntriesKept(w, s) && Live(s, p)
    requires MoveOf(w, s.runs[p].goal, s.runs[p].pc, s.trees[s.runs[p].tree], |RunSlice(s.log, p)|, c) == Some(m)
    ensures EntriesKept(w, Apply(s, p, m))
  {
    forall q: nat | q < |Apply(s, p, m).runs|
      ensures Live(Apply(s, p, m), q) && EntryKeptIn(w, Apply(s, p, m), q)
    {
      if q == p { OwnEntryKept(w, s, p, c, m); } else { OtherEntryKept(w, s, p, m, q); }
    }
  }

  lemma {:induction false} NextKeepsEntries(w: World, s: State, a: Action)
    requires RunsOnTrack(w, s) && EntriesKept(w, s) && Next(w, s, a).Some?
    ensures EntriesKept(w, Next(w, s, a).value)
  {
    if a.Act? {
      var m := MoveOf(
        w, s.runs[a.p].goal, s.runs[a.p].pc, s.trees[s.runs[a.p].tree], |RunSlice(s.log, a.p)|, a.choice).value;
      ActKeepsEntries(w, s, a.p, a.choice, m);
    } else {
      var s' := Next(w, s, a).value;
      forall q: nat | q < |s'.runs|
        ensures Live(s', q) && EntryKeptIn(w, s', q)
      {
        if q < |s.runs| { assert Live(s, q) && EntryKeptIn(w, s, q); }
      }
    }
  }

  lemma {:induction false} EveryRunKeepsEntries(w: World, actions: seq<Action>)
    requires Exec(w, actions).Some?
    ensures EntriesKept(w, Exec(w, actions).value)
  {
    if actions != [] {
      var front := actions[..|actions| - 1];
      EveryRunKeepsEntries(w, front);
      EveryRunKeepsInv(w, front);
      NextKeepsEntries(w, Exec(w, front).value, actions[|actions| - 1]);
    }
  }

  /** In every run of the system, a goal that left at its entry logged exactly what the entry
      operation logs when it refuses with that report, or the received goal and what the
      ceiling operation logs with that report, for some answers of the handlers that exist. */
  lemma {:induction false} EntryExitsLogTheProtocol(w: World, actions: seq<Action>, p: nat)
    requires Exec(w, actions).Some? && p < |Exec(w, actions).value.runs|
    requires Exec(w, actions).value.runs[p].pc.Returned? && Exec(w, actions).value.runs[p].pc.exit == AtEntry
    ensures var s := Exec(w, actions).value;
      && s.runs[p].tree < |s.trees|
      && LeftAtEntry(w, s.runs[p].goal, s.trees[s.runs[p].tree].ceilingUsd, s.runs[p].pc.report, RunSlice(s.log, p))
  {
    EveryRunKeepsEntries(w, actions);
    assert EntryKeptIn(w, Exec(w, actions).value, p);
  }

  // ----- Every entry can happen -----

  /** One goal alone in one tree. */
  predicate Alone(s: State, goal: Goal, t: Tree, pc: Pc, events: seq<Event>) {
    s.runs == [Run(goal, 0, pc)] && s.trees == [t] && RunSlice(s.log, 0) == events
  }

  /** The system after these actions. */
  predicate Reaches(w: World, actions: seq<Action>, goal: Goal, t: Tree, pc: Pc, events: seq<Event>) {
    Exec(w, actions).Some? && Alone(Exec(w, actions).value, goal, t, pc, events)
  }

  lemma {:induction false} OneMore(
    w: World, actions: seq<Action>, goal: Goal, t: Tree, pc: Pc, events: seq<Event>, c: Choice, m: Move)
    requires Reaches(w, actions, goal, t, pc, events)
    requires MoveOf(w, goal, pc, t, |events|, c) == Some(m) && (m.event.Some? ==> !m.event.value.CeilingReached?)
    ensures Reaches(w, actions + [Act(0, c)], goal, t, m.pc, Extended(events, m.event))
  {
    var s := Exec(w, actions).value;
    assert (actions + [Act(0, c)])[..|actions|] == actions;
    assert Live(s, 0);
    if m.event.Some? { SliceSnoc(s.log, Logged(0, 0, m.event.value), 0); }
  }

  lemma {:induction false} FirstSteps(w: World, goal: Goal, ceilingUsd: real) returns (actions: seq<Action>)
    ensures var t := Tree(0.0, ceilingUsd, false);
      Reaches(w, actions, goal, t, CheckEntry(w, goal, t), [GoalReceived(goal.id, goal)])
  {
    var t := Tree(0.0, ceilingUsd, false);
    actions := [StartTree(goal, ceilingUsd)];
    assert actions[..0] == [];
    assert Exec(w, []) == Some(INIT) && RunSlice([], 0) == [];
    assert Reaches(w, actions, goal, t, Entering, []);
    OneMore(w, actions, goal, t, Entering, [], Go, Move(Checking, Some(GoalReceived(goal.id, goal))));
    actions := actions + [Act(0, Go)];
    OneMore(w, actions, goal, t, Checking, [GoalReceived(goal.id, goal)], Go, Move(CheckEntry(w, goal, t), None));
    actions := actions + [Act(0, Go)];
  }

  /** Whatever stands at a brief at the entry can be answered and leave. */
  lemma {:induction false} AnsweredAndLeft(
    w: World, actions: seq<Action>, goal: Goal, t: Tree, events: seq<Event>, brief: Brief, report: Report, mark: nat)
    returns (longer: seq<Action>)
    requires Reaches(w, actions, goal, t, Blocking(brief, report, AtEntry, mark), events)
    ensures Reaches(
      w, longer, goal, t, Returned(report, AtEntry, mark), events + BlockEvents(w, goal, brief, report))
  {
    var answer := Resolve(w, brief);
    OneMore(w, actions, goal, t, Blocking(brief, report, AtEntry, mark), events, Resolved(answer),
      Move(Emitting(report, AtEntry, mark), Some(Blocked(goal.id, brief, answer))));
    longer := actions + [Act(0, Resolved(answer))];
    longer := Left(w, longer, goal, t, events + [Blocked(goal.id, brief, answer)], report, mark);
    assert events + [Blocked(goal.id, brief, answer)] + [Emitted(goal.id, report)] ==
      events + BlockEvents(w, goal, brief, report);
  }

  lemma {:induction false} Left(
    w: World, actions: seq<Action>, goal: Goal, t: Tree, events: seq<Event>, report: Report, mark: nat)
    returns (longer: seq<Action>)
    requires Reaches(w, actions, goal, t, Emitting(report, AtEntry, mark), events)
    ensures Reaches(w, longer, goal, t, Returned(report, AtEntry, mark), events + [Emitted(goal.id, report)])
  {
    OneMore(w, actions, goal, t, Emitting(report, AtEntry, mark), events, Go,
      Move(Returned(report, AtEntry, mark), Some(Emitted(goal.id, report))));
    longer := actions + [Act(0, Go)];
  }

  lemma {:induction false} Classified(w: World, actions: seq<Action>, goal: Goal, t: Tree)
    returns (longer: seq<Action>)
    requires Reaches(w, actions, goal, t, Classifying, [GoalReceived(goal.id, goal)])
    ensures Reaches(
      w, longer, goal, t, Gating, [GoalReceived(goal.id, goal), RiskClassified(goal.id, w.classify(goal))])
  {
    var received := [GoalReceived(goal.id, goal)];
    OneMore(w, actions, goal, t, Classifying, received, Go,
      Move(Gating, Some(RiskClassified(goal.id, w.classify(goal)))));
    longer := actions + [Act(0, Go)];
    assert received + [RiskClassified(goal.id, w.classify(goal))] ==
      [GoalReceived(goal.id, goal), RiskClassified(goal.id, w.classify(goal))];
  }

  lemma {:induction false} Gated(w: World, actions: seq<Action>, goal: Goal, t: Tree)
    returns (longer: seq<Action>)
    requires ShouldGate(w, goal)
    requires Reaches(
      w, actions, goal, t, Gating, [GoalReceived(goal.id, goal), RiskClassified(goal.id, w.classify(goal))])
    ensures Reaches(w, longer, goal, t, GateLogging(GateAnswer(w, goal, w.classify(goal))),
      [GoalReceived(goal.id, goal), RiskClassified(goal.id, w.classify(goal))])
  {
    var grant := GateAnswer(w, goal, w.classify(goal));
    OneMore(w, actions, goal, t, Gating, [GoalReceived(goal.id, goal), RiskClassified(goal.id, w.classify(goal))],
      Answer(grant), Move(GateLogging(grant), None));
    longer := actions + [Act(0, Answer(grant))];
  }

  /** The end of an entry below the ceiling. */
  predicate Entered(w: World, goal: Goal, pc: Pc) {
    match EntryResult(w, goal, false)
    case Ready(_) => pc == Deciding
    case Refused(report) => pc.Returned? && pc.report == report && pc.exit == AtEntry
    case AtCeiling => false
  }

  lemma {:induction false} GatedEntry(w: World, actions: seq<Action>, goal: Goal, t: Tree)
    returns (longer: seq<Action>, pc: Pc)
    requires Passed(w, goal) && Reaches(w, actions, goal, t, Classifying, [GoalReceived(goal.id, goal)])
    ensures Reaches(w, longer, goal, t, pc, EntryEvents(w, goal, false)) && Entered(w, goal, pc)
  {
    var before := [GoalReceived(goal.id, goal), RiskClassified(goal.id, w.classify(goal))];
    longer := Classified(w, actions, goal, t);
    if !ShouldGate(w, goal) {
      OneMore(w, longer, goal, t, Gating, before, Go, Move(Deciding, None));
      longer, pc := longer + [Act(0, Go)], Deciding;
    } else {
      var grant := GateAnswer(w, goal, w.classify(goal));
      longer := Gated(w, longer, goal, t);
      if grant == Granted {
        OneMore(w, longer, goal, t, GateLogging(grant), before, Go,
          Move(Deciding, Some(GateDecision(goal.id, Granted))));
        longer, pc := longer + [Act(0, Go)], Deciding;
        assert before + [GateDecision(goal.id, Granted)] == EntryEvents(w, goal, false);
      } else {
        longer, pc := DeniedEntry(w, longer, goal, t);
      }
    }
  }

  lemma {:induction false} DeniedEntry(w: World, actions: seq<Action>, goal: Goal, t: Tree)
    returns (longer: seq<Action>, pc: Pc)
    requires Passed(w, goal) && ShouldGate(w, goal) && GateAnswer(w, goal, w.classify(goal)) == Denied
    requires Reaches(w, actions, goal, t, GateLogging(Denied),
      [GoalReceived(goal.id, goal), RiskClassified(goal.id, w.classify(goal))])
    ensures Reaches(w, longer, goal, t, pc, EntryEvents(w, goal, false)) && Entered(w, goal, pc)
  {
    var before := [GoalReceived(goal.id, goal), RiskClassified(goal.id, w.classify(goal))];
    var brief := GateDeniedBrief(goal, w.classify(goal), w.gated(goal.goalType));
    var report := GateDeniedReport(brief);
    OneMore(w, actions, goal, t, GateLogging(Denied), before, Go,
      Move(Blocking(brief, report, AtEntry, 3), Some(GateDecision(goal.id, Denied))));
    longer := AnsweredAndLeft(
      w, actions + [Act(0, Go)], goal, t, before + [GateDecision(goal.id, Denied)], brief, report, 3);
    pc := Returned(report, AtEntry, 3);
    assert before + [GateDecision(goal.id, Denied)] + BlockEvents(w, goal, brief, report) ==
      EntryEvents(w, goal, false);
  }

  /** The converse of what entry exits log: below the ceiling, what the entry operation logs
      and returns for a goal is what some run of the system logs, with the goal refused by the
      same report or about to decide. */
  lemma {:induction false} EveryEntryHappens(w: World, goal: Goal, ceilingUsd: real)
    returns (actions: seq<Action>, pc: Pc)
    requires ceilingUsd > 0.0
    ensures Reaches(w, actions, goal, Tree(0.0, ceilingUsd, false), pc, EntryEvents(w, goal, false))
    ensures Entered(w, goal, pc)
  {
    var t := Tree(0.0, ceilingUsd, false);
    var received := [GoalReceived(goal.id, goal)];
    actions := FirstSteps(w, goal, ceilingUsd);
    if !w.known(goal.goalType) {
      var report := UnknownTypeReport(goal);
      actions := AnsweredAndLeft(w, actions, goal, t, received, UnknownTypeBrief(goal), report, 1);
      pc := Returned(report, AtEntry, 1);
    } else if w.inputViolation(goal).Some? {
      var report := InvalidInputReport(goal, w.inputViolation(goal).value);
      actions := Left(w, actions, goal, t, received, report, 1);
      pc := Returned(report, AtEntry, 1);
    } else {
      actions, pc := GatedEntry(w, actions, goal, t);
    }
  }

  /** And a goal that is let in can decide anything, and the decision is logged next. */
  lemma {:induction false} EveryDecisionHappens(w: World, goal: Goal, ceilingUsd: real, decision: Decision)
    returns (actions: seq<Action>, pc: Pc)
    requires ceilingUsd > 0.0 && EntryResult(w, goal, false).Ready?
    ensures Reaches(w, actions, goal, Tree(0.0, ceilingUsd, false), pc,
      EntryEvents(w, goal, false) + [Decided(goal.id, decision)])
    ensures if decision.Block? then pc.Blocking? && pc.brief == decision.brief else pc == Working(decision)
  {
    var t, events := Tree(0.0, ceilingUsd, false), EntryEvents(w, goal, false);
    actions, pc := EveryEntryHappens(w, goal, ceilingUsd);
    OneMore(w, actions, goal, t, Deciding, events, Decide(decision), Move(DecidedLogging(decision), None));
    actions := actions + [Act(0, Decide(decision))];
    pc := if decision.Block? then BlockFor(decision.brief, ByDecision, |events| + 1) else Working(decision);
    OneMore(w, actions, goal, t, DecidedLogging(decision), events, Go, Move(pc, Some(Decided(goal.id, decision))));
    actions := actions + [Act(0, Go)];
  }
}
