/** The recursive operation of `src/engine/recursive-runner.ts` as an interleaving system:
    any number of trees, each with its own spend state, and any number of goals running in
    them, all appending to one shared log. One action is what happens between two awaits.
    The decision phase and the work on a decision are black boxes: they may append any
    events but the two that only the engine itself appends, spend, spawn children, answer in
    any way, or throw. */
module GoalTree {
  import opened Contract
  import opened EventProtocol

  /** How a run leaves: at its entry, halted by the ceiling, by deciding to block, by a block of
      the work on its decision, or out of a black box. */
  datatype Exit = AtEntry | ByCeiling | ByDecision | ByWork | ByBox

  datatype Pc =
    | Entering
    | Checking
    | Classifying
    | Gating
    | GateLogging(grant: Grant)
    | Deciding
    | DecidedLogging(decision: Decision)
    | Working(decision: Decision)
    | Halting(exit: Exit, mark: nat)
    | Asking(exit: Exit, mark: nat)
    | Blocking(brief: Brief, report: Report, exit: Exit, mark: nat)
    | Emitting(report: Report, exit: Exit, mark: nat)
    | Returned(report: Report, exit: Exit, mark: nat)   // `mark` events were logged before the exit began
    | Threw

  datatype Run = Run(goal: Goal, tree: nat, pc: Pc)

  datatype Tree = Tree(spentUsd: real, ceilingUsd: real, ceilingEmitted: bool)

  /** A log entry knows which run appended it, and in which tree. */
  datatype Logged = Logged(run: nat, tree: nat, event: Event)

  datatype State = State(runs: seq<Run>, trees: seq<Tree>, log: seq<Logged>)

  const INIT := State([], [], [])

  /** What a black box may append; decisions are logged under the goal's own id. */
  predicate BoxMay(goal: Goal, e: Event) {
    && !e.GoalReceived? && !e.CeilingReached?
    && (e.Decided? ==> e.goalId == goal.id)
  }

  datatype Choice =
    | Go
    | Answer(grant: Grant)
    | Log(event: Event)
    | Decide(decision: Decision)
    | Finish(report: Report)
    | Halt
    | AskHuman(brief: Brief)
    | Resolved(resolution: Resolution)
    | NoteCeiling
    | Throw

  datatype Move = Move(pc: Pc, event: Option<Event>)

  function CeilingEvent(goal: Goal, t: Tree): Option<Event> {
    if t.ceilingEmitted then None else Some(CeilingReached(goal.id, t.spentUsd, t.ceilingUsd))
  }

  function BlockFor(brief: Brief, exit: Exit, mark: nat): Pc {
    Blocking(brief, BlockedReport(brief.question), exit, mark)
  }

  function CheckEntry(w: World, goal: Goal, t: Tree): Pc {
    if t.spentUsd >= t.ceilingUsd then Halting(AtEntry, 1)
    else if !w.known(goal.goalType) then Blocking(UnknownTypeBrief(goal), UnknownTypeReport(goal), AtEntry, 1)
    else if w.inputViolation(goal).Some? then
      Emitting(InvalidInputReport(goal, w.inputViolation(goal).value), AtEntry, 1)
    else Classifying
  }

  /** The moves of the engine's own code. */
  function EngineMove(w: World, goal: Goal, pc: Pc, t: Tree, logged: nat, c: Choice): Option<Move> {
    match pc
    case Entering => if c == Go then Some(Move(Checking, Some(GoalReceived(goal.id, goal)))) else None
    case Checking => if c == Go then Some(Move(CheckEntry(w, goal, t), None)) else None
    case Classifying => if c == Go then Some(Move(Gating, Some(RiskClassified(goal.id, w.classify(goal))))) else None
    case Gating =>
      if c == Go && !ShouldGate(w, goal) then Some(Move(Deciding, None))
      else if c.Answer? && ShouldGate(w, goal) && (w.onGate.None? ==> c.grant == Denied)
      then Some(Move(GateLogging(c.grant), None)) else None
    case GateLogging(grant) =>
      if c != Go then None
      else if grant == Granted then Some(Move(Deciding, Some(GateDecision(goal.id, Granted))))
      else
        var brief := GateDeniedBrief(goal, w.classify(goal), w.gated(goal.goalType));
        Some(Move(Blocking(brief, GateDeniedReport(brief), AtEntry, 3), Some(GateDecision(goal.id, Denied))))
    case DecidedLogging(decision) =>
      if c != Go then None
      else
        Some(Move(
          if decision.Block? then BlockFor(decision.brief, ByDecision, logged + 1) else Working(decision),
          Some(Decided(goal.id, decision))))
    case Halting(exit, mark) =>
      if c == Go then Some(Move(Asking(exit, mark), CeilingEvent(goal, t))) else None
    case Asking(exit, mark) =>
      if c != Go then None
      else
        var brief := CeilingBrief(w, t.spentUsd, t.ceilingUsd);
        Some(Move(BlockFor(brief, exit, mark), None))
    case Blocking(brief, report, exit, mark) =>
      if c.Resolved? && (w.onBrief.None? ==> c.resolution == brief.onTimeout)
      then Some(Move(Emitting(report, exit, mark), Some(Blocked(goal.id, brief, c.resolution)))) else None
    case Emitting(report, exit, mark) =>
      if c == Go then Some(Move(Returned(report, exit, mark), Some(Emitted(goal.id, report)))) else None
    case _ => None
  }

  /** The moves of the black boxes. */
  function BoxMove(goal: Goal, pc: Pc, t: Tree, logged: nat, c: Choice): Option<Move> {
    if !pc.Deciding? && !pc.Working? then None
    else
      match c
      case Log(event) => if BoxMay(goal, event) then Some(Move(pc, Some(event))) else None
      case Decide(decision) => if pc.Deciding? then Some(Move(DecidedLogging(decision), None)) else None
      case Finish(report) => Some(Move(Returned(report, ByBox, logged), None))
      case Halt => Some(Move(Halting(ByCeiling, logged), None))
      case AskHuman(brief) => if pc.Working? then Some(Move(BlockFor(brief, ByWork, logged), None)) else None
      case NoteCeiling => if pc.Working? then Some(Move(pc, CeilingEvent(goal, t))) else None
      case _ => None
  }

  function MoveOf(w: World, goal: Goal, pc: Pc, t: Tree, logged: nat, c: Choice): Option<Move> {
    if c.Throw? then (if pc.Returned? || pc.Threw? then None else Some(Move(Threw, None)))
    else if pc.Deciding? || pc.Working? then BoxMove(goal, pc, t, logged, c)
    else EngineMove(w, goal, pc, t, logged, c)
  }

  // ----- Steps of the whole system -----

  datatype Action =
    | StartTree(goal: Goal, ceilingUsd: real)
    | Spawn(p: nat, goal: Goal)
    | Debit(p: nat, usd: real)
    | Act(p: nat, choice: Choice)

  /** The events one run appended, in log order. */
  function RunSlice(log: seq<Logged>, p: nat): seq<Event> {
    if log == [] then []
    else
      var last := log[|log| - 1];
      RunSlice(log[..|log| - 1], p) + (if last.run == p then [last.event] else [])
  }

  predicate Live(s: State, p: nat) {
    p < |s.runs| && s.runs[p].tree < |s.trees|
  }

  function Apply(s: State, p: nat, m: Move): State
    requires Live(s, p)
  {
    var run := s.runs[p];
    var t := s.trees[run.tree];
    var runs := s.runs[p := run.(pc := m.pc)];
    match m.event
    case None => State(runs, s.trees, s.log)
    case Some(e) =>
      State(runs,
            if e.CeilingReached? then s.trees[run.tree := t.(ceilingEmitted := true)] else s.trees,
            s.log + [Logged(p, run.tree, e)])
  }

  function Next(w: World, s: State, a: Action): Option<State> {
    match a
    case StartTree(goal, ceilingUsd) =>
      Some(State(s.runs + [Run(goal, |s.trees|, Entering)], s.trees + [Tree(0.0, ceilingUsd, false)], s.log))
    case Spawn(p, goal) =>
      if Live(s, p) && (s.runs[p].pc.Deciding? || s.runs[p].pc.Working?)
      then Some(s.(runs := s.runs + [Run(goal, s.runs[p].tree, Entering)])) else None
    case Debit(p, usd) =>
      if Live(s, p) && (s.runs[p].pc.Deciding? || s.runs[p].pc.Working?)
      then
        var t := s.trees[s.runs[p].tree];
        Some(s.(trees := s.trees[s.runs[p].tree := t.(spentUsd := t.spentUsd + usd)]))
      else None
    case Act(p, choice) =>
      if Live(s, p) then
        match MoveOf(w, s.runs[p].goal, s.runs[p].pc, s.trees[s.runs[p].tree], |RunSlice(s.log, p)|, choice)
        case Some(m) => Some(Apply(s, p, m))
        case None => None
      else None
  }

  /** A run of the whole system, when every action was enabled. */
  function Exec(w: World, actions: seq<Action>): Option<State> {
    if actions == [] then Some(INIT)
    else
      match Exec(w, actions[..|actions| - 1])
      case Some(s) => Next(w, s, actions[|actions| - 1])
      case None => None
  }

  // ----- What holds of one run -----

  /** What a run must have logged before it may decide. */
  function EntryPrefix(w: World, goal: Goal): seq<Event> {
    [GoalReceived(goal.id, goal), RiskClassified(goal.id, w.classify(goal))] +
      (if ShouldGate(w, goal) then [GateDecision(goal.id, Granted)] else [])
  }

  predicate NoDecision(events: seq<Event>) {
    forall e :: e in events ==> !e.Decided?
  }

  function EmittedAmong(events: seq<Event>, n: nat): nat
    requires n <= |events|
  {
    if n == 0 then 0 else EmittedAmong(events, n - 1) + (if events[n - 1].Emitted? then 1 else 0)
  }

  /** The run logged its entry, and a gated goal was let in by somebody. */
  predicate Admitted(w: World, goal: Goal, events: seq<Event>) {
    EntryPrefix(w, goal) <= events && (ShouldGate(w, goal) ==> w.onGate.Some?)
  }

  /** The events so far end in a brief that was answered, by default when nobody is asked,
      and the report quotes it as its blocker and delivers nothing. */
  predicate BlockedWith(w: World, goal: Goal, report: Report, events: seq<Event>) {
    && events != []
    && var last := events[|events| - 1];
    && last.Blocked? && last.goalId == goal.id && (w.onBrief.None? ==> last.resolution == last.brief.onTimeout)
    && report == Report(None, [], [], [], [last.brief.question], [], "", None)
  }

  /** How an exit stands: where it began, and how often it has emitted. */
  predicate ExitStands(w: World, goal: Goal, events: seq<Event>, exit: Exit, mark: nat, emitted: nat) {
    && mark <= |events|
    && EmittedAmong(events, |events|) == EmittedAmong(events, mark) + emitted
    && (if exit == AtEntry then NoDecision(events) && EmittedAmong(events, mark) == 0
        else Admitted(w, goal, events))
  }

  /** An exit by decision began when the block that its brief asks about had been decided. */
  predicate DecidedToBlock(goal: Goal, events: seq<Event>, mark: nat) {
    && 1 <= mark < |events| && events[mark].Blocked?
    && events[mark - 1] == Decided(goal.id, Block(events[mark].brief))
  }

  ghost predicate OnTrack(w: World, goal: Goal, pc: Pc, events: seq<Event>) {
    match pc
    case Entering => events == []
    case Checking => events == [GoalReceived(goal.id, goal)]
    case Classifying => events == [GoalReceived(goal.id, goal)]
    case Gating => events == [GoalReceived(goal.id, goal), RiskClassified(goal.id, w.classify(goal))]
    case GateLogging(grant) =>
      events == [GoalReceived(goal.id, goal), RiskClassified(goal.id, w.classify(goal))]
      && ShouldGate(w, goal) && (w.onGate.None? ==> grant == Denied)
    case Deciding => Admitted(w, goal, events)
    case DecidedLogging(_) => Admitted(w, goal, events)
    case Working(decision) =>
      Admitted(w, goal, events) && !decision.Block? && Decided(goal.id, decision) in events
    case Halting(exit, mark) => ExitStands(w, goal, events, exit, mark, 0) && (exit == AtEntry || exit == ByCeiling)
    case Asking(exit, mark) => ExitStands(w, goal, events, exit, mark, 0) && (exit == AtEntry || exit == ByCeiling)
    case Blocking(brief, report, exit, mark) =>
      && ExitStands(w, goal, events, exit, mark, 0)
      && (exit != AtEntry ==> report == Report(None, [], [], [], [brief.question], [], "", None))
      && (exit == ByDecision ==> 1 <= mark == |events| && events[mark - 1] == Decided(goal.id, Block(brief)))
    case Emitting(report, exit, mark) =>
      && ExitStands(w, goal, events, exit, mark, 0)
      && (exit != AtEntry ==> BlockedWith(w, goal, report, events))
      && (exit == ByDecision ==> DecidedToBlock(goal, events, mark))
    case Returned(report, exit, mark) =>
      if exit == ByBox then Admitted(w, goal, events)
      else
        && ExitStands(w, goal, events, exit, mark, 1)
        && events != [] && events[|events| - 1] == Emitted(goal.id, report)
        && (exit != AtEntry ==> BlockedWith(w, goal, report, events[..|events| - 1]))
        && (exit == ByDecision ==> DecidedToBlock(goal, events, mark))
    case Threw => Admitted(w, goal, events) || NoDecision(events)
  }

  lemma {:induction false} EmittedAmongPrefix(events: seq<Event>, e: Event, n: nat)
    requires n <= |events|
    ensures EmittedAmong(events + [e], n) == EmittedAmong(events, n)
  {
    if n > 0 { EmittedAmongPrefix(events, e, n - 1); }
  }

  lemma {:induction false} ExitStandsStep(
    w: World, goal: Goal, events: seq<Event>, exit: Exit, mark: nat, emitted: nat, e: Event)
    requires ExitStands(w, goal, events, exit, mark, emitted) && !e.Decided?
    ensures ExitStands(w, goal, events + [e], exit, mark, emitted + (if e.Emitted? then 1 else 0))
  {
    EmittedAmongPrefix(events, e, mark);
    EmittedAmongPrefix(events, e, |events|);
    assert (events + [e])[|events|] == e;
  }

  function Extended(events: seq<Event>, e: Option<Event>): seq<Event> {
    if e.Some? then events + [e.value] else events
  }

  lemma {:induction false} EntryMovesKeepTrack(
    w: World, goal: Goal, pc: Pc, t: Tree, events: seq<Event>, c: Choice, m: Move)
    requires pc.Entering? || pc.Checking? || pc.Classifying? || pc.Gating? || pc.GateLogging?
    requires OnTrack(w, goal, pc, events) && EngineMove(w, goal, pc, t, |events|, c) == Some(m)
    ensures OnTrack(w, goal, m.pc, Extended(events, m.event))
  {
  }

  lemma {:induction false} ExitMovesKeepTrack(
    w: World, goal: Goal, pc: Pc, t: Tree, events: seq<Event>, c: Choice, m: Move)
    requires pc.DecidedLogging? || pc.Halting? || pc.Asking? || pc.Blocking? || pc.Emitting?
    requires OnTrack(w, goal, pc, events) && EngineMove(w, goal, pc, t, |events|, c) == Some(m)
    ensures OnTrack(w, goal, m.pc, Extended(events, m.event))
  {
    if m.event.Some? && !pc.DecidedLogging? {
      ExitStandsStep(w, goal, events, pc.exit, pc.mark, 0, m.event.value);
    }
  }

  lemma {:induction false} MovesKeepTrack(w: World, goal: Goal, pc: Pc, t: Tree, events: seq<Event>, c: Choice, m: Move)
    requires OnTrack(w, goal, pc, events) && MoveOf(w, goal, pc, t, |events|, c) == Some(m)
    ensures OnTrack(w, goal, m.pc, Extended(events, m.event))
  {
    if c.Throw? {
      assert NoDecision([GoalReceived(goal.id, goal), RiskClassified(goal.id, w.classify(goal))]);
    } else if pc.Entering? || pc.Checking? || pc.Classifying? || pc.Gating? || pc.GateLogging? {
      EntryMovesKeepTrack(w, goal, pc, t, events, c, m);
    } else if !pc.Deciding? && !pc.Working? {
      ExitMovesKeepTrack(w, goal, pc, t, events, c, m);
    }
  }

  // ----- What holds of the whole system -----

  function CeilingEventsOf(log: seq<Logged>, tree: nat): nat {
    if log == [] then 0
    else
      var last := log[|log| - 1];
      CeilingEventsOf(log[..|log| - 1], tree) + (if last.tree == tree && last.event.CeilingReached? then 1 else 0)
  }

  ghost predicate RunsOnTrack(w: World, s: State) {
    forall p | 0 <= p < |s.runs| ::
      s.runs[p].tree < |s.trees| && OnTrack(w, s.runs[p].goal, s.runs[p].pc, RunSlice(s.log, p))
  }

  ghost predicate EntriesKnown(s: State) {
    forall k | 0 <= k < |s.log| :: s.log[k].run < |s.runs| && s.log[k].tree == s.runs[s.log[k].run].tree
  }

  ghost predicate CeilingsOnce(s: State) {
    && (forall t | 0 <= t < |s.trees| :: CeilingEventsOf(s.log, t) == if s.trees[t].ceilingEmitted then 1 else 0)
    && (forall t: nat | t >= |s.trees| :: CeilingEventsOf(s.log, t) == 0)
  }

  ghost predicate Inv(w: World, s: State) {
    RunsOnTrack(w, s) && EntriesKnown(s) && CeilingsOnce(s)
  }

  lemma {:induction false} SliceSnoc(log: seq<Logged>, e: Logged, p: nat)
    ensures RunSlice(log + [e], p) == if e.run == p then RunSlice(log, p) + [e.event] else RunSlice(log, p)
  {
  }

  lemma {:induction false} NewRunHasNoEvents(log: seq<Logged>, p: nat)
    requires forall k | 0 <= k < |log| :: log[k].run != p
    ensures RunSlice(log, p) == []
  {
    if log != [] { NewRunHasNoEvents(log[..|log| - 1], p); }
  }

  lemma {:induction false} ActKeepsTracks(w: World, s: State, p: nat, c: Choice, m: Move)
    requires Inv(w, s) && Live(s, p)
    requires MoveOf(w, s.runs[p].goal, s.runs[p].pc, s.trees[s.runs[p].tree], |RunSlice(s.log, p)|, c) == Some(m)
    ensures RunsOnTrack(w, Apply(s, p, m))
  {
    var s' := Apply(s, p, m);
    MovesKeepTrack(w, s.runs[p].goal, s.runs[p].pc, s.trees[s.runs[p].tree], RunSlice(s.log, p), c, m);
    forall q | 0 <= q < |s'.runs|
      ensures s'.runs[q].tree < |s'.trees| && OnTrack(w, s'.runs[q].goal, s'.runs[q].pc, RunSlice(s'.log, q))
    {
      if m.event.Some? { SliceSnoc(s.log, Logged(p, s.runs[p].tree, m.event.value), q); }
    }
  }

  lemma {:induction false} CeilingSnoc(log: seq<Logged>, e: Logged, tree: nat)
    ensures CeilingEventsOf(log + [e], tree) ==
      CeilingEventsOf(log, tree) + (if e.tree == tree && e.event.CeilingReached? then 1 else 0)
  {
    assert (log + [e])[..|log|] == log;
  }

  /** Only a run that finds the flag unset lets a ceiling event through. */
  lemma {:induction false} OnlyUnsetFlagLogs(w: World, goal: Goal, pc: Pc, t: Tree, logged: nat, c: Choice, m: Move)
    requires MoveOf(w, goal, pc, t, logged, c) == Some(m)
    requires m.event.Some? && m.event.value.CeilingReached?
    ensures !t.ceilingEmitted
  {
  }

  lemma {:induction false} ActKeepsCeilings(w: World, s: State, p: nat, c: Choice, m: Move)
    requires Inv(w, s) && Live(s, p)
    requires MoveOf(w, s.runs[p].goal, s.runs[p].pc, s.trees[s.runs[p].tree], |RunSlice(s.log, p)|, c) == Some(m)
    ensures CeilingsOnce(Apply(s, p, m))
  {
    if m.event.Some? {
      var e := Logged(p, s.runs[p].tree, m.event.value);
      if e.event.CeilingReached? {
        OnlyUnsetFlagLogs(w, s.runs[p].goal, s.runs[p].pc, s.trees[s.runs[p].tree], |RunSlice(s.log, p)|, c, m);
      }
      CountsAfter(s, Apply(s, p, m), e);
    }
  }

  lemma {:induction false} CountsAfter(s: State, s': State, e: Logged)
    requires CeilingsOnce(s) && e.tree < |s.trees| && s'.log == s.log + [e]
    requires e.event.CeilingReached? ==>
      !s.trees[e.tree].ceilingEmitted && s'.trees == s.trees[e.tree := s.trees[e.tree].(ceilingEmitted := true)]
    requires !e.event.CeilingReached? ==> s'.trees == s.trees
    ensures CeilingsOnce(s')
  {
    forall t: nat
      ensures CeilingEventsOf(s'.log, t) ==
        if t < |s'.trees| && s'.trees[t].ceilingEmitted then 1 else 0
    {
      CeilingSnoc(s.log, e, t);
      if t >= |s.trees| { assert CeilingEventsOf(s.log, t) == 0; }
    }
  }

  lemma {:induction false} ActKeepsEntries(s: State, p: nat, m: Move)
    requires EntriesKnown(s) && Live(s, p)
    ensures EntriesKnown(Apply(s, p, m))
  {
  }

  /** The trees stand as they did, and new ones have not met their ceiling. */
  ghost predicate Grown(trees: seq<Tree>, more: seq<Tree>) {
    && |trees| <= |more|
    && (forall t | 0 <= t < |trees| :: more[t] == trees[t])
    && (forall t | |trees| <= t < |more| :: !more[t].ceilingEmitted)
  }

  lemma {:induction false} SpawnKeepsTracks(w: World, s: State, run: Run, trees: seq<Tree>)
    requires RunsOnTrack(w, s) && EntriesKnown(s) && run.pc == Entering
    requires |s.trees| <= |trees| && run.tree < |trees|
    ensures RunsOnTrack(w, State(s.runs + [run], trees, s.log))
  {
    var s' := State(s.runs + [run], trees, s.log);
    NewRunHasNoEvents(s.log, |s.runs|);
    forall q | 0 <= q < |s'.runs|
      ensures s'.runs[q].tree < |s'.trees| && OnTrack(w, s'.runs[q].goal, s'.runs[q].pc, RunSlice(s'.log, q))
    {
      if q < |s.runs| { assert s'.runs[q] == s.runs[q]; }
    }
  }

  lemma {:induction false} GrowthKeepsCeilings(s: State, s': State)
    requires CeilingsOnce(s) && Grown(s.trees, s'.trees) && s'.log == s.log
    ensures CeilingsOnce(s')
  {
  }

  lemma {:induction false} SpawnKeepsInv(w: World, s: State, run: Run, trees: seq<Tree>)
    requires Inv(w, s) && run.pc == Entering && run.tree < |trees| && Grown(s.trees, trees)
    ensures Inv(w, State(s.runs + [run], trees, s.log))
  {
    SpawnKeepsTracks(w, s, run, trees);
    GrowthKeepsCeilings(s, State(s.runs + [run], trees, s.log));
  }

  lemma {:induction false} NextKeepsInv(w: World, s: State, a: Action)
    requires Inv(w, s) && Next(w, s, a).Some?
    ensures Inv(w, Next(w, s, a).value)
  {
    match a {
      case StartTree(goal, ceilingUsd) =>
        SpawnKeepsInv(w, s, Run(goal, |s.trees|, Entering), s.trees + [Tree(0.0, ceilingUsd, false)]);
      case Spawn(p, goal) =>
        SpawnKeepsInv(w, s, Run(goal, s.runs[p].tree, Entering), s.trees);
      case Debit(p, usd) =>
        var s' := Next(w, s, a).value;
        assert forall t | 0 <= t < |s.trees| :: s'.trees[t].ceilingEmitted == s.trees[t].ceilingEmitted;
      case Act(p, choice) =>
        var m := MoveOf(w, s.runs[p].goal, s.runs[p].pc, s.trees[s.runs[p].tree], |RunSlice(s.log, p)|, choice).value;
        ActKeepsTracks(w, s, p, choice, m);
        ActKeepsCeilings(w, s, p, choice, m);
        ActKeepsEntries(s, p, m);
    }
  }

  /** Every run of the system, however its goals and trees interleave, keeps the invariant. */
  lemma {:induction false} EveryRunKeepsInv(w: World, actions: seq<Action>)
    requires Exec(w, actions).Some?
    ensures Inv(w, Exec(w, actions).value)
  {
    if actions == [] {
      assert RunSlice([], 0) == [];
    } else {
      var front := actions[..|actions| - 1];
      EveryRunKeepsInv(w, front);
      NextKeepsInv(w, Exec(w, front).value, actions[|actions| - 1]);
    }
  }

  // ----- The main results -----

  lemma {:induction false} SlicePrefix(log: seq<Logged>, k: nat, p: nat)
    requires k <= |log|
    ensures RunSlice(log[..k], p) <= RunSlice(log, p)
    ensures k < |log| && log[k].run == p ==>
      |RunSlice(log[..k], p)| < |RunSlice(log, p)| && RunSlice(log, p)[|RunSlice(log[..k], p)|] == log[k].event
  {
    if k < |log| {
      var front := log[..|log| - 1];
      assert front[..k] == log[..k];
      SlicePrefix(front, k, p);
      assert log == front + [log[|log| - 1]];
      if k == |log| - 1 { assert front == log[..k]; }
    } else {
      assert log[..k] == log;
    }
  }

  lemma {:induction false} SliceComesFrom(log: seq<Logged>, p: nat, e: Event) returns (i: nat)
    requires e in RunSlice(log, p)
    ensures i < |log| && log[i].run == p && log[i].event == e
  {
    var last := log[|log| - 1];
    if last.run == p && last.event == e {
      i := |log| - 1;
    } else {
      i := SliceComesFrom(log[..|log| - 1], p, e);
    }
  }

  lemma {:induction false} DecisionsComeAfterEntry(w: World, goal: Goal, pc: Pc, events: seq<Event>, k: nat)
    requires OnTrack(w, goal, pc, events) && k < |events| && events[k].Decided?
    ensures Admitted(w, goal, events[..k])
  {
  }

  /** What the log must hold before index `k` for a decision of run `p` to stand there: the
      goal, its risk, and a granted gate decision when its type is gated or its risk is high. */
  ghost predicate GatedBefore(w: World, goal: Goal, log: seq<Logged>, p: nat, k: nat)
    requires k <= |log|
  {
    && (exists i | 0 <= i < k :: log[i].run == p && log[i].event == GoalReceived(goal.id, goal))
    && (exists i | 0 <= i < k :: log[i].run == p && log[i].event == RiskClassified(goal.id, w.classify(goal)))
    && (w.gated(goal.goalType) || w.classify(goal) == High ==>
          exists j | 0 <= j < k :: log[j].run == p && log[j].event == GateDecision(goal.id, Granted))
  }

  lemma {:induction false} PrefixGates(w: World, goal: Goal, log: seq<Logged>, p: nat, k: nat)
    requires k <= |log| && EntryPrefix(w, goal) <= RunSlice(log[..k], p)
    ensures GatedBefore(w, goal, log, p, k)
  {
    var prefix := EntryPrefix(w, goal);
    var before := RunSlice(log[..k], p);
    assert prefix[0] == before[0];
    var i := SliceComesFrom(log[..k], p, prefix[0]);
    assert log[i].event == GoalReceived(goal.id, goal);
    assert prefix[1] == before[1];
    var risk := SliceComesFrom(log[..k], p, prefix[1]);
    assert log[risk].event == RiskClassified(goal.id, w.classify(goal));
    if ShouldGate(w, goal) {
      assert prefix[2] == before[2];
      var j := SliceComesFrom(log[..k], p, prefix[2]);
      assert log[j].event == GateDecision(goal.id, Granted);
    }
  }

  /** In every run of the system, each decided event comes after the goal-received event of
      the same goal and, when the goal is gated by its type or by high risk, after a granted
      gate decision. */
  lemma {:induction false} NoDecisionBeforeTheGate(w: World, actions: seq<Action>, k: nat)
    requires Exec(w, actions).Some? && k < |Exec(w, actions).value.log|
    requires Exec(w, actions).value.log[k].event.Decided?
    ensures var s := Exec(w, actions).value;
      var p := s.log[k].run;
      p < |s.runs| && GatedBefore(w, s.runs[p].goal, s.log, p, k)
  {
    EveryRunKeepsInv(w, actions);
    var s := Exec(w, actions).value;
    var p := s.log[k].run;
    var before := RunSlice(s.log[..k], p);
    SlicePrefix(s.log, k, p);
    DecisionsComeAfterEntry(w, s.runs[p].goal, s.runs[p].pc, RunSlice(s.log, p), |before|);
    assert RunSlice(s.log, p)[..|before|] == before;
    PrefixGates(w, s.runs[p].goal, s.log, p, k);
  }

  /** Each tree logs `ceiling-reached` at most once, and exactly once when its flag is set. */
  lemma {:induction false} CeilingReachedAtMostOnce(w: World, actions: seq<Action>, t: nat)
    requires Exec(w, actions).Some?
    ensures CeilingEventsOf(Exec(w, actions).value.log, t) <= 1
    ensures t < |Exec(w, actions).value.trees| ==>
      (CeilingEventsOf(Exec(w, actions).value.log, t) == 1 <==> Exec(w, actions).value.trees[t].ceilingEmitted)
  {
    EveryRunKeepsInv(w, actions);
  }

  /** How a run that left through an entry, block or ceiling exit emitted: exactly once since
      the exit began, as its last event, with the report it returned. An entry exit is the
      only emission of its run, and no decision was made; a later one follows the brief that
      its report quotes, which is the decided one if the run decided to block. */
  predicate EmittedOnExit(w: World, goal: Goal, pc: Pc, events: seq<Event>)
    requires pc.Returned?
  {
    && pc.mark <= |events| && events != []
    && events[|events| - 1] == Emitted(goal.id, pc.report)
    && EmittedAmong(events, |events|) == EmittedAmong(events, pc.mark) + 1
    && (pc.exit == AtEntry ==> EmittedAmong(events, |events|) == 1 && NoDecision(events))
    && (pc.exit != AtEntry ==> BlockedWith(w, goal, pc.report, events[..|events| - 1]))
    && (pc.exit == ByDecision ==> DecidedToBlock(goal, events, pc.mark))
  }

  lemma {:induction false} TrackOfExit(w: World, goal: Goal, pc: Pc, events: seq<Event>)
    requires OnTrack(w, goal, pc, events) && pc.Returned? && pc.exit != ByBox
    ensures EmittedOnExit(w, goal, pc, events)
  {
  }

  /** In every run of the system, whoever returned otherwise than by a black box emitted so. */
  lemma {:induction false} ExitsEmitOnce(w: World, actions: seq<Action>, p: nat)
    requires Exec(w, actions).Some? && p < |Exec(w, actions).value.runs|
    requires Exec(w, actions).value.runs[p].pc.Returned? && Exec(w, actions).value.runs[p].pc.exit != ByBox
    ensures var s := Exec(w, actions).value;
      EmittedOnExit(w, s.runs[p].goal, s.runs[p].pc, RunSlice(s.log, p))
  {
    EveryRunKeepsInv(w, actions);
    var s := Exec(w, actions).value;
    TrackOfExit(w, s.runs[p].goal, s.runs[p].pc, RunSlice(s.log, p));
  }

  /** The entry operation of `EventProtocol` logs just what a deciding run must have logged;
      a refused entry emits once, last, with the report it returns. */
  lemma {:induction false} EntryEventsAre(w: World, goal: Goal, atCeiling: bool)
    ensures var events := EntryEvents(w, goal, atCeiling);
      match EntryResult(w, goal, atCeiling)
      case Ready(risk) => Admitted(w, goal, events) && events == EntryPrefix(w, goal) && risk == w.classify(goal)
      case AtCeiling => events == [GoalReceived(goal.id, goal)]
      case Refused(report) =>
        && events[|events| - 1] == Emitted(goal.id, report)
        && EmittedAmong(events, |events|) == 1 && NoDecision(events)
  {
    var events := EntryEvents(w, goal, atCeiling);
    assert EmittedAmong(events, 0) == 0;
    assert EmittedAmong(events, 1) == 0;
    if |events| > 2 { assert EmittedAmong(events, 2) == 0; }
    if |events| > 3 { assert EmittedAmong(events, 3) == 0; }
    if |events| > 4 { assert EmittedAmong(events, 4) == 0; }
  }

  /** A gate that nobody answers lets no goal of a gated type or of high risk decide. */
  lemma {:induction false} MissingGateDenies(w: World, actions: seq<Action>, k: nat)
    requires w.onGate.None? && Exec(w, actions).Some? && k < |Exec(w, actions).value.log|
    requires Exec(w, actions).value.log[k].event.Decided?
    ensures var s := Exec(w, actions).value;
      && s.log[k].run < |s.runs|
      && var goal := s.runs[s.log[k].run].goal;
      && !w.gated(goal.goalType) && w.classify(goal) != High
  {
    EveryRunKeepsInv(w, actions);
    var s := Exec(w, actions).value;
    var p := s.log[k].run;
    SlicePrefix(s.log, k, p);
    DecisionsComeAfterEntry(w, s.runs[p].goal, s.runs[p].pc, RunSlice(s.log, p), |RunSlice(s.log[..k], p)|);
  }

  /** No run is ever stuck: short of returning or throwing, it always has a move other than
      to throw. */
  lemma {:induction false} SomeMove(w: World, goal: Goal, pc: Pc, t: Tree, logged: nat) returns (c: Choice)
    requires !pc.Returned? && !pc.Threw?
    ensures !c.Throw? && MoveOf(w, goal, pc, t, logged, c).Some?
  {
    c :=
      if pc.Gating? && ShouldGate(w, goal) then Answer(Denied)
      else if pc.Blocking? then Resolved(pc.brief.onTimeout)
      else if pc.Deciding? || pc.Working? then Halt
      else Go;
  }

  /** A program point of the engine's own code, short of the end. */
  predicate AtEngine(pc: Pc) {
    !pc.Deciding? && !pc.Working? && !pc.Returned? && !pc.Threw?
  }

  /** How many moves the engine's own code has left at most. */
  function EngineMovesLeft(pc: Pc): nat {
    match pc
    case Entering => 9
    case Checking => 8
    case Classifying => 7
    case Gating => 6
    case GateLogging(_) => 5
    case DecidedLogging(_) => 5
    case Halting(_, _) => 4
    case Asking(_, _) => 3
    case Blocking(_, _, _, _) => 2
    case Emitting(_, _, _) => 1
    case _ => 0
  }

  /** The engine's own code is never stuck and never runs in circles: at each of its program
      points it has a move other than to throw, and whatever move it makes brings it closer to
      a black box or to the end. */
  lemma {:induction false} EngineMovesOn(w: World, goal: Goal, pc: Pc, t: Tree, logged: nat)
    requires AtEngine(pc)
    ensures exists c: Choice :: !c.Throw? && MoveOf(w, goal, pc, t, logged, c).Some?
    ensures forall c: Choice | MoveOf(w, goal, pc, t, logged, c).Some? ::
      EngineMovesLeft(MoveOf(w, goal, pc, t, logged, c).value.pc) < EngineMovesLeft(pc)
  {
    var c := SomeMove(w, goal, pc, t, logged);
  }

  // ----- The ceiling -----

  /** Where a run can only be by way of the ceiling operation. */
  predicate PastCeiling(pc: Pc) {
    || pc.Asking?
    || (pc.Blocking? && pc.exit == ByCeiling)
    || (pc.Emitting? && pc.exit == ByCeiling)
    || (pc.Returned? && pc.exit == ByCeiling)
  }

  /** Whoever went by the ceiling found or set the flag of its tree. */
  ghost predicate CeilingsNoted(s: State) {
    forall p | 0 <= p < |s.runs| ::
      s.runs[p].tree < |s.trees| && (PastCeiling(s.runs[p].pc) ==> s.trees[s.runs[p].tree].ceilingEmitted)
  }

  lemma {:induction false} NextKeepsNoted(w: World, s: State, a: Action)
    requires CeilingsNoted(s) && Next(w, s, a).Some?
    ensures CeilingsNoted(Next(w, s, a).value)
  {
  }

  /** In every run of the system, whoever was halted by the ceiling left it logged in its tree. */
  lemma {:induction false} HaltedMeansNoted(w: World, actions: seq<Action>)
    requires Exec(w, actions).Some?
    ensures CeilingsNoted(Exec(w, actions).value)
  {
    if actions != [] {
      var front := actions[..|actions| - 1];
      HaltedMeansNoted(w, front);
      NextKeepsNoted(w, Exec(w, front).value, actions[|actions| - 1]);
    }
  }

  /** Where a run can only be by having passed the checks of its entry. */
  predicate PastChecks(pc: Pc) {
    || pc.Classifying? || pc.Gating? || pc.GateLogging? || pc.Deciding? || pc.DecidedLogging? || pc.Working?
    || ((pc.Halting? || pc.Asking? || pc.Blocking? || pc.Emitting? || pc.Returned?) && pc.exit != AtEntry)
  }

  /** After the first `n` actions run `p` was about to be checked, with its tree below the
      ceiling or not. */
  ghost predicate CheckedAfter(w: World, actions: seq<Action>, n: nat, p: nat, below: bool) {
    && n <= |actions| && Exec(w, actions[..n]).Some?
    && var s := Exec(w, actions[..n]).value;
    && Live(s, p) && s.runs[p].pc == Checking
    && var t := s.trees[s.runs[p].tree];
    && below == (t.spentUsd < t.ceilingUsd)
  }

  predicate CeilingAtEntry(pc: Pc) {
    (pc.Halting? || pc.Asking?) && pc.exit == AtEntry
  }

  /** A run gets past its checks, or to the ceiling at its entry, only by being checked. */
  lemma {:induction false} OnlyChecksPass(w: World, s: State, a: Action, p: nat)
    requires Next(w, s, a).Some? && p < |Next(w, s, a).value.runs|
    ensures p >= |s.runs| ==> Next(w, s, a).value.runs[p].pc == Entering
    ensures p < |s.runs| ==>
      var run, run' := s.runs[p], Next(w, s, a).value.runs[p];
      && run'.goal == run.goal
      && (PastChecks(run'.pc) && !PastChecks(run.pc) ==>
            && run.pc == Checking && Live(s, p) && s.trees[run.tree].spentUsd < s.trees[run.tree].ceilingUsd
            && w.known(run.goal.goalType) && w.inputViolation(run.goal).None?)
      && (CeilingAtEntry(run'.pc) && !CeilingAtEntry(run.pc) ==>
            run.pc == Checking && Live(s, p) && s.trees[run.tree].spentUsd >= s.trees[run.tree].ceilingUsd)
  {
  }

  /** At some point run `p` was about to be checked, with its tree below the ceiling or not. */
  ghost predicate Checked(w: World, actions: seq<Action>, p: nat, below: bool) {
    exists n: nat :: CheckedAfter(w, actions, n, p, below)
  }

  lemma {:induction false} CheckedStays(w: World, actions: seq<Action>, a: Action, p: nat, below: bool)
    requires Checked(w, actions, p, below)
    ensures Checked(w, actions + [a], p, below)
  {
    var n: nat :| CheckedAfter(w, actions, n, p, below);
    assert (actions + [a])[..n] == actions[..n];
    assert CheckedAfter(w, actions + [a], n, p, below);
  }

  lemma {:induction false} CheckedLast(w: World, actions: seq<Action>, a: Action, s: State, p: nat)
    requires Exec(w, actions) == Some(s) && Live(s, p) && s.runs[p].pc == Checking
    ensures var t := s.trees[s.runs[p].tree]; Checked(w, actions + [a], p, t.spentUsd < t.ceilingUsd)
  {
    var t := s.trees[s.runs[p].tree];
    assert (actions + [a])[..|actions|] == actions;
    assert CheckedAfter(w, actions + [a], |actions|, p, t.spentUsd < t.ceilingUsd);
  }

  /** What is known of the checks of a run. */
  ghost predicate WasChecked(w: World, actions: seq<Action>, run: Run, p: nat) {
    && (PastChecks(run.pc) ==>
          w.known(run.goal.goalType) && w.inputViolation(run.goal).None? && Checked(w, actions, p, true))
    && (CeilingAtEntry(run.pc) ==> Checked(w, actions, p, false))
  }

  lemma {:induction false} StepKeepsChecked(w: World, actions: seq<Action>, a: Action, s: State, s': State, p: nat)
    requires Exec(w, actions) == Some(s) && Next(w, s, a) == Some(s') && p < |s.runs| && p < |s'.runs|
    requires WasChecked(w, actions, s.runs[p], p)
    ensures WasChecked(w, actions + [a], s'.runs[p], p)
  {
    OnlyChecksPass(w, s, a, p);
    if Live(s, p) && s.runs[p].pc == Checking { CheckedLast(w, actions, a, s, p); }
    if PastChecks(s.runs[p].pc) { CheckedStays(w, actions, a, p, true); }
    if CeilingAtEntry(s.runs[p].pc) { CheckedStays(w, actions, a, p, false); }
  }

  /** In every run of the system, a goal that passed its entry checks was checked when its tree
      had spent less than its ceiling, and is known and valid; one on its way out by the ceiling
      at its entry was checked when its tree had not. */
  lemma {:induction false} EntryWasChecked(w: World, actions: seq<Action>, s: State, p: nat)
    requires Exec(w, actions) == Some(s) && p < |s.runs|
    ensures WasChecked(w, actions, s.runs[p], p)
  {
    if actions != [] {
      var front, a := actions[..|actions| - 1], actions[|actions| - 1];
      assert actions == front + [a];
      var before := Exec(w, front).value;
      if p < |before.runs| {
        EntryWasChecked(w, front, before, p);
        StepKeepsChecked(w, front, a, before, s, p);
      } else {
        OnlyChecksPass(w, before, a, p);
      }
    }
  }

  // ----- What the black boxes may do, and what nobody may do any more -----

  /** A run in its decision phase or at its work may start any goal in its tree, spend, log any
      event but the two that only the engine logs (a decision only under its own id), return any
      report, throw, and halt; at its work it may also ask a human and note the ceiling. */
  lemma {:induction false} BoxesAreFree(
    w: World, s: State, p: nat, goal: Goal, usd: real, e: Event, brief: Brief, report: Report)
    requires Live(s, p) && (s.runs[p].pc.Deciding? || s.runs[p].pc.Working?)
    ensures Next(w, s, Spawn(p, goal)).Some?
      && Next(w, s, Spawn(p, goal)).value == State(s.runs + [Run(goal, s.runs[p].tree, Entering)], s.trees, s.log)
    ensures Next(w, s, Debit(p, usd)).Some?
      && var t, s' := s.runs[p].tree, Next(w, s, Debit(p, usd)).value;
      && s'.runs == s.runs && s'.log == s.log && |s'.trees| == |s.trees|
      && s'.trees[t].spentUsd == s.trees[t].spentUsd + usd
      && forall u | 0 <= u < |s.trees| :: s'.trees[u].ceilingUsd == s.trees[u].ceilingUsd
           && (u != t ==> s'.trees[u] == s.trees[u])
    ensures !e.GoalReceived? && !e.CeilingReached? && (e.Decided? ==> e.goalId == s.runs[p].goal.id) ==>
      Next(w, s, Act(p, Log(e))).Some?
    ensures Next(w, s, Act(p, Finish(report))).Some? && Next(w, s, Act(p, Halt)).Some?
    ensures Next(w, s, Act(p, Throw)).Some?
    ensures s.runs[p].pc.Working? ==>
      Next(w, s, Act(p, AskHuman(brief))).Some? && Next(w, s, Act(p, NoteCeiling)).Some?
  {
  }

  predicate Ended(s: State, p: nat) {
    p < |s.runs| && (s.runs[p].pc.Returned? || s.runs[p].pc.Threw?)
  }

  lemma {:induction false} NoMoveAfterTheEnd(w: World, goal: Goal, pc: Pc, t: Tree, logged: nat, c: Choice)
    requires pc.Returned? || pc.Threw?
    ensures MoveOf(w, goal, pc, t, logged, c) == None
  {
  }

  /** A step of one run changes no other. */
  lemma {:induction false} OthersUntouched(s: State, q: nat, m: Move, p: nat)
    requires Live(s, q) && p < |s.runs| && p != q
    ensures Apply(s, q, m).runs[p] == s.runs[p] && RunSlice(Apply(s, q, m).log, p) == RunSlice(s.log, p)
  {
    if m.event.Some? { SliceSnoc(s.log, Logged(q, s.runs[q].tree, m.event.value), p); }
  }

  lemma {:induction false} EndedStays(w: World, s: State, a: Action, p: nat)
    requires Ended(s, p) && Next(w, s, a).Some?
    ensures Ended(Next(w, s, a).value, p) && Next(w, s, a).value.runs[p] == s.runs[p]
    ensures RunSlice(Next(w, s, a).value.log, p) == RunSlice(s.log, p)
  {
    if a.Act? {
      var q := a.p;
      var t, logged := s.trees[s.runs[q].tree], |RunSlice(s.log, q)|;
      if q == p { NoMoveAfterTheEnd(w, s.runs[q].goal, s.runs[q].pc, t, logged, a.choice); }
      OthersUntouched(s, q, MoveOf(w, s.runs[q].goal, s.runs[q].pc, t, logged, a.choice).value, p);
    }
  }

  /** A run that has returned or thrown is over: whatever else happens, it never changes its
      report and never logs another event. */
  lemma {:induction false} EndsAreFinal(w: World, actions: seq<Action>, more: seq<Action>, p: nat)
    requires Exec(w, actions + more).Some?
    ensures Exec(w, actions).Some?
    ensures Ended(Exec(w, actions).value, p) ==>
      var s, t := Exec(w, actions).value, Exec(w, actions + more).value;
      Ended(t, p) && t.runs[p] == s.runs[p] && RunSlice(t.log, p) == RunSlice(s.log, p)
    decreases |more|
  {
    if more == [] {
      assert actions + more == actions;
    } else {
      var front, last := more[..|more| - 1], more[|more| - 1];
      assert (actions + more)[..|actions + more| - 1] == actions + front;
      EndsAreFinal(w, actions, front, p);
      if Ended(Exec(w, actions).value, p) { EndedStays(w, Exec(w, actions + front).value, last, p); }
    }
  }
}
