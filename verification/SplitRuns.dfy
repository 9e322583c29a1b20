/** What holds of every run of the split scheduler. */
module SplitRuns {
  import opened Contract
  import opened SplitGraph
  import opened FloorHandoff
  import opened Knowledge
  import opened SplitScheduler

  // ----- The invariant: each child is part-way through its own sequential run -----

  ghost function MyEvents(r: Round, s: State, i: nat): seq<Event>
    requires i < |r.goals|
  {
    Slice(s.log, r.goals[i].id)
  }

  ghost function MyFacts(s: State, i: nat): seq<RegionFacts> {
    By(s.knowledge, i)
  }

  /** Past the classification, with nothing starving it. */
  ghost predicate Cleared(r: Round, env: Env, i: nat, reports: seq<Report>)
    requires i < |r.children|
  {
    KnowsReports(r, i, reports) && Starving(r, env, i, reports) == []
  }

  ghost function MyFloor(r: Round, env: Env, i: nat, reports: seq<Report>): Floor
    requires i < |r.children| == |r.goals| && KnowsReports(r, i, reports)
  {
    InjectFloor(r, env, i, LostRegions(r, env, i, reports))
  }

  /** It has taken stock of its first `next` dependencies. */
  ghost predicate Stocked(
    r: Round, env: Env, i: nat, reports: seq<Report>, events: seq<Event>, next: nat, findings: seq<string>)
    requires i < |r.children| == |r.goals|
  {
    && Cleared(r, env, i, reports) && next <= |reports|
    && findings == DegradedFindings(r, i, reports, next)
    && events == DegradedEvents(r, i, reports, next)
  }

  /** All degraded dependencies and the structural floor have been logged. */
  ghost predicate Floored(r: Round, env: Env, i: nat, reports: seq<Report>, events: seq<Event>, findings: seq<string>)
    requires i < |r.children| == |r.goals|
  {
    && Cleared(r, env, i, reports)
    && findings == DegradedFindings(r, i, reports, |reports|) + MyFloor(r, env, i, reports).findings
    && events == DegradedEvents(r, i, reports, |reports|) + MyFloor(r, env, i, reports).events
  }

  /** What the child's own sequential run gives on the reports its dependencies have left and
      the facts it has read. */
  ghost function Due(r: Round, env: Env, i: nat, reports: seq<Report>, read: seq<Written>): Verdict
    requires i < |r.children| == |r.goals| && (Resolved(r, i) ==> KnowsReports(r, i, reports))
  {
    if Resolved(r, i) then RunOne(r, env, i, reports, read) else RunUnresolved(r, i)
  }

  /** What a child in this phase has logged and persisted. */
  ghost predicate PhaseFits(
    r: Round, env: Env, i: nat, phase: Phase, reports: seq<Report>, read: seq<Written>,
    events: seq<Event>, facts: seq<RegionFacts>)
    requires i < |r.children| == |r.goals|
  {
    match phase
    case Waiting => events == [] && facts == []
    case Degrading(next, findings) => Stocked(r, env, i, reports, events, next, findings) && facts == []
    case Flooring(findings) => Stocked(r, env, i, reports, events, |reports|, findings) && facts == []
    case Equipping(findings, goal) =>
      Floored(r, env, i, reports, events, findings) && goal == MyFloor(r, env, i, reports).goal && facts == []
    case Running(findings, goal) =>
      && Floored(r, env, i, reports, events, findings)
      && goal == Equip(env, MyFloor(r, env, i, reports).goal, read) && facts == []
    case Finishing(findings, goal) =>
      && Floored(r, env, i, reports, events, findings)
      && goal == Equip(env, MyFloor(r, env, i, reports).goal, read) && facts == env.persists(goal)
    case Emitting(report, ending) =>
      && (Resolved(r, i) ==> KnowsReports(r, i, reports))
      && Due(r, env, i, reports, read) == Verdict(report, ending, events + [Emitted(r.goals[i].id, report)], facts)
    case Reported(report, ending) =>
      && (Resolved(r, i) ==> KnowsReports(r, i, reports))
      && Due(r, env, i, reports, read) == Verdict(report, ending, events, facts)
  }

  ghost predicate OnTrack(r: Round, env: Env, s: State, i: nat)
    requires |s.phases| == |r.children| == |r.goals| && i < |r.children|
  {
    PhaseFits(r, env, i, s.phases[i], DepReports(r, s, i), ReadOf(s.seen, i), MyEvents(r, s, i), MyFacts(s, i))
  }

  /** `finished` lists the reported children once each, every one after its dependencies. */
  ghost predicate OrderedHistory(r: Round, s: State)
    requires |s.phases| == |r.children|
  {
    && (forall i: nat :: i in s.finished <==> i < |r.children| && s.phases[i].Reported?)
    && (forall p :: 0 <= p < |s.finished| ==> s.finished[p] < |r.children|)
    && (forall p, q :: 0 <= p < q < |s.finished| ==> s.finished[p] != s.finished[q])
    && (forall p, k ::
          0 <= p < |s.finished| && Resolved(r, s.finished[p]) && 0 <= k < |r.children[s.finished[p]].dependsOn| ==>
          Dep(r, s.finished[p], k) in s.finished[..p])
  }

  ghost predicate Inv(r: Round, env: Env, s: State)
    requires ValidRound(r) && |s.phases| == |r.children|
  {
    && (forall i :: 0 <= i < |r.children| ==> OnTrack(r, env, s, i))
    && OrderedHistory(r, s)
  }

  // ----- The shared log: each child sees its own part -----

  predicate AllOf(events: seq<Event>, goalId: string) {
    forall e :: e in events ==> e.goalId == goalId
  }

  lemma {:induction false} SliceConcat(log: seq<Event>, events: seq<Event>, own: string, goalId: string)
    requires AllOf(events, own)
    ensures Slice(log + events, goalId) == if goalId == own then Slice(log, goalId) + events else Slice(log, goalId)
  {
    if events == [] {
      assert log + events == log;
    } else {
      var front, last := events[..|events| - 1], events[|events| - 1];
      assert events == front + [last];
      SliceConcat(log, front, own, goalId);
      assert log + events == log + front + [last];
      SliceAppend(log + front, last, goalId);
    }
  }

  lemma {:induction false} ByConcat(knowledge: seq<Written>, i: nat, facts: seq<RegionFacts>, j: nat)
    ensures By(knowledge + Tag(i, facts), j) == if i == j then By(knowledge, j) + facts else By(knowledge, j)
  {
    if facts == [] {
      assert knowledge + Tag(i, facts) == knowledge;
    } else {
      var front, last := facts[..|facts| - 1], facts[|facts| - 1];
      assert facts == front + [last];
      ByConcat(knowledge, i, front, j);
      var before := knowledge + Tag(i, front);
      assert knowledge + Tag(i, facts) == before + [Written(i, last)];
      assert (before + [Written(i, last)])[..|before|] == before;
    }
  }

  lemma {:induction false} MovesLogTheirOwn(
    r: Round, env: Env, i: nat, phase: Phase, reports: seq<Report>, knowledge: seq<Written>)
    requires i < |r.children| == |r.goals| && MayMove(r, i, phase, reports)
    ensures AllOf(MoveOf(r, env, i, phase, reports, knowledge).events, r.goals[i].id)
  {
  }

  lemma {:induction false} ApplyIsLocal(r: Round, s: State, i: nat, m: Move, j: nat)
    requires ValidRound(r) && |s.phases| == |r.children| && i < |r.children| && j < |r.children|
    requires AllOf(m.events, r.goals[i].id)
    ensures var t := Apply(s, i, m);
      && MyEvents(r, t, j) == (if i == j then MyEvents(r, s, j) + m.events else MyEvents(r, s, j))
      && MyFacts(t, j) == (if i == j then MyFacts(s, j) + m.facts else MyFacts(s, j))
      && ReadOf(t.seen, j) == (if i == j && s.phases[i].Equipping? then s.knowledge else ReadOf(s.seen, j))
  {
    if i != j { GoalIdsAreDistinct(r, i, j); }
    SliceConcat(s.log, m.events, r.goals[i].id, r.goals[j].id);
    ByConcat(s.knowledge, i, m.facts, j);
  }

  /** Settled reports of dependencies stay as they are. */
  lemma {:induction false} ReportsStay(r: Round, s: State, i: nat, m: Move, j: nat)
    requires |s.phases| == |r.children| && i < |r.children| && j < |r.children|
    requires !s.phases[i].Reported? && KnowsReports(r, j, DepReports(r, s, j))
    ensures DepReports(r, Apply(s, i, m), j) == DepReports(r, s, j)
  {
    var t := Apply(s, i, m);
    forall k | 0 <= k < |r.children[j].dependsOn|
      ensures t.phases[Dep(r, j, k)] == s.phases[Dep(r, j, k)]
    {
      assert s.phases[Dep(r, j, k)].Reported?;
    }
  }

  lemma {:induction false} UnresolvedHasNoReports(r: Round, s: State, i: nat)
    requires |s.phases| == |r.children| && i < |r.children| && !Resolved(r, i)
    ensures DepReports(r, s, i) == []
  {
  }

  // ----- Every step keeps it -----

  lemma {:induction false} WaitingMoves(
    r: Round, env: Env, i: nat, reports: seq<Report>, read: seq<Written>, knowledge: seq<Written>)
    requires i < |r.children| == |r.goals| && MayMove(r, i, Waiting, reports)
    ensures var m := MoveOf(r, env, i, Waiting, reports, knowledge);
      PhaseFits(r, env, i, m.phase, reports, read, [] + m.events, [] + m.facts)
  {
  }

  /** Taking stock of one more dependency, degraded or not. */
  lemma {:induction false} StockGrows(r: Round, i: nat, reports: seq<Report>, next: nat)
    requires i < |r.goals| == |r.children| && next < |reports| == |r.children[i].dependsOn|
    ensures
      var dep := r.children[i].dependsOn[next];
      var events, findings := DegradedEvents(r, i, reports, next), DegradedFindings(r, i, reports, next);
      if Degraded(reports[next]) then
        var blocker := reports[next].blockers[0];
        && DegradedEvents(r, i, reports, next + 1) ==
           events + [DependencyDegraded(r.goals[i].id, ChildGoalId(r.parentId, dep), blocker)]
        && DegradedFindings(r, i, reports, next + 1) == findings + [DegradedFinding(dep, blocker)]
      else
        DegradedEvents(r, i, reports, next + 1) == events && DegradedFindings(r, i, reports, next + 1) == findings
  {
  }

  lemma {:induction false} StockedNext(
    r: Round, env: Env, i: nat, reports: seq<Report>, events: seq<Event>, next: nat, findings: seq<string>)
    requires i < |r.children| == |r.goals| && Stocked(r, env, i, reports, events, next, findings) && next < |reports|
    ensures
      var dep := r.children[i].dependsOn[next];
      if Degraded(reports[next]) then
        var blocker := reports[next].blockers[0];
        Stocked(r, env, i, reports,
          events + [DependencyDegraded(r.goals[i].id, ChildGoalId(r.parentId, dep), blocker)],
          next + 1, findings + [DegradedFinding(dep, blocker)])
      else Stocked(r, env, i, reports, events, next + 1, findings)
  {
    StockGrows(r, i, reports, next);
  }

  lemma {:induction false} DegradingMoves(
    r: Round, env: Env, i: nat, phase: Phase, reports: seq<Report>, read: seq<Written>,
    events: seq<Event>, knowledge: seq<Written>)
    requires i < |r.children| == |r.goals| && MayMove(r, i, phase, reports) && phase.Degrading?
    requires Stocked(r, env, i, reports, events, phase.next, phase.findings)
    ensures var m := MoveOf(r, env, i, phase, reports, knowledge);
      PhaseFits(r, env, i, m.phase, reports, read, events + m.events, [] + m.facts)
  {
    assert events + [] == events;
    if phase.next < |reports| { StockedNext(r, env, i, reports, events, phase.next, phase.findings); }
  }

  lemma {:induction false} FlooringMoves(
    r: Round, env: Env, i: nat, phase: Phase, reports: seq<Report>, read: seq<Written>,
    events: seq<Event>, knowledge: seq<Written>)
    requires i < |r.children| == |r.goals| && MayMove(r, i, phase, reports) && phase.Flooring?
    requires Stocked(r, env, i, reports, events, |reports|, phase.findings)
    ensures var m := MoveOf(r, env, i, phase, reports, knowledge);
      PhaseFits(r, env, i, m.phase, reports, read, events + m.events, [] + m.facts)
  {
  }

  /** Reading the log fixes the goal. */
  lemma {:induction false} EquippingMoves(
    r: Round, env: Env, i: nat, phase: Phase, reports: seq<Report>, read: seq<Written>,
    events: seq<Event>, knowledge: seq<Written>)
    requires i < |r.children| == |r.goals| && phase.Equipping?
    requires PhaseFits(r, env, i, phase, reports, read, events, [])
    ensures var m := MoveOf(r, env, i, phase, reports, knowledge);
      m.events == [] && m.facts == [] && PhaseFits(r, env, i, m.phase, reports, knowledge, events, [])
  {
  }

  lemma {:induction false} RunningMoves(
    r: Round, env: Env, i: nat, phase: Phase, reports: seq<Report>, read: seq<Written>,
    events: seq<Event>, knowledge: seq<Written>)
    requires i < |r.children| == |r.goals| && phase.Running?
    requires PhaseFits(r, env, i, phase, reports, read, events, [])
    ensures var m := MoveOf(r, env, i, phase, reports, knowledge);
      m.events == [] && PhaseFits(r, env, i, m.phase, reports, read, events, m.facts)
  {
  }

  lemma {:induction false} FinishingMoves(
    r: Round, env: Env, i: nat, phase: Phase, reports: seq<Report>, read: seq<Written>,
    events: seq<Event>, facts: seq<RegionFacts>, knowledge: seq<Written>)
    requires i < |r.children| == |r.goals| && phase.Finishing?
    requires PhaseFits(r, env, i, phase, reports, read, events, facts)
    ensures var m := MoveOf(r, env, i, phase, reports, knowledge);
      PhaseFits(r, env, i, m.phase, reports, read, events + m.events, facts + m.facts)
  {
    assert events + [] == events && facts + [] == facts;
  }

  lemma {:induction false} MovesFit(
    r: Round, env: Env, i: nat, phase: Phase, reports: seq<Report>, read: seq<Written>,
    events: seq<Event>, facts: seq<RegionFacts>, knowledge: seq<Written>)
    requires i < |r.children| == |r.goals| && MayMove(r, i, phase, reports)
    requires PhaseFits(r, env, i, phase, reports, read, events, facts)
    ensures var m := MoveOf(r, env, i, phase, reports, knowledge);
      PhaseFits(r, env, i, m.phase, reports, if phase.Equipping? then knowledge else read,
                events + m.events, facts + m.facts)
  {
    assert events + [] == events && [] + MoveOf(r, env, i, phase, reports, knowledge).facts ==
      MoveOf(r, env, i, phase, reports, knowledge).facts;
    match phase {
      case Waiting => WaitingMoves(r, env, i, reports, read, knowledge);
      case Degrading(_, _) => DegradingMoves(r, env, i, phase, reports, read, events, knowledge);
      case Flooring(_) => FlooringMoves(r, env, i, phase, reports, read, events, knowledge);
      case Equipping(_, _) => EquippingMoves(r, env, i, phase, reports, read, events, knowledge);
      case Running(_, _) => RunningMoves(r, env, i, phase, reports, read, events, knowledge);
      case Finishing(_, _) => FinishingMoves(r, env, i, phase, reports, read, events, facts, knowledge);
      case Emitting(_, _) => assert facts + [] == facts;
    }
  }

  lemma {:induction false} OthersStayOnTrack(r: Round, env: Env, s: State, i: nat, m: Move, j: nat)
    requires ValidRound(r) && |s.phases| == |r.children| && i < |r.children| && j < |r.children| && j != i
    requires !s.phases[i].Reported? && AllOf(m.events, r.goals[i].id) && OnTrack(r, env, s, j)
    ensures OnTrack(r, env, Apply(s, i, m), j)
  {
    ApplyIsLocal(r, s, i, m, j);
    if KnowsReports(r, j, DepReports(r, s, j)) {
      ReportsStay(r, s, i, m, j);
    } else if !Resolved(r, j) {
      UnresolvedHasNoReports(r, s, j);
      UnresolvedHasNoReports(r, Apply(s, i, m), j);
    }
  }

  lemma {:induction false} MovedKnowsReports(r: Round, env: Env, s: State, i: nat)
    requires ValidRound(r) && |s.phases| == |r.children| && Enabled(r, s, i)
    requires OnTrack(r, env, s, i) && Resolved(r, i)
    ensures KnowsReports(r, i, DepReports(r, s, i)) && DepsReported(r, s, i)
  {
  }

  lemma {:induction false} MoverStaysOnTrack(r: Round, env: Env, s: State, i: nat)
    requires ValidRound(r) && |s.phases| == |r.children| && Enabled(r, s, i) && OnTrack(r, env, s, i)
    ensures OnTrack(r, env, Step(r, env, s, i), i)
  {
    var reports := DepReports(r, s, i);
    var m := MoveOf(r, env, i, s.phases[i], reports, s.knowledge);
    MovesLogTheirOwn(r, env, i, s.phases[i], reports, s.knowledge);
    MovesFit(r, env, i, s.phases[i], reports, ReadOf(s.seen, i), MyEvents(r, s, i), MyFacts(s, i), s.knowledge);
    ApplyIsLocal(r, s, i, m, i);
    if Resolved(r, i) {
      MovedKnowsReports(r, env, s, i);
      ReportsStay(r, s, i, m, i);
    } else {
      UnresolvedHasNoReports(r, s, i);
      UnresolvedHasNoReports(r, Step(r, env, s, i), i);
    }
  }

  lemma {:induction false} HistoryGrows(r: Round, s: State, t: State, i: nat)
    requires |s.phases| == |t.phases| == |r.children| && i < |r.children| && OrderedHistory(r, s)
    requires t.phases == s.phases[i := t.phases[i]] && !s.phases[i].Reported?
    requires t.finished == if t.phases[i].Reported? then s.finished + [i] else s.finished
    requires t.phases[i].Reported? && Resolved(r, i) ==> DepsReported(r, s, i)
    ensures OrderedHistory(r, t)
  {
    if t.phases[i].Reported? {
      forall p, k |
        0 <= p < |t.finished| && Resolved(r, t.finished[p]) && 0 <= k < |r.children[t.finished[p]].dependsOn|
        ensures Dep(r, t.finished[p], k) in t.finished[..p]
      {
        assert t.finished[..p] == s.finished[..p];
        if p == |s.finished| {
          assert s.finished[..p] == s.finished;
          assert s.phases[Dep(r, i, k)].Reported?;
        }
      }
    }
  }

  lemma {:induction false} HistoryStaysOrdered(r: Round, env: Env, s: State, i: nat)
    requires ValidRound(r) && |s.phases| == |r.children| && Enabled(r, s, i)
    requires OnTrack(r, env, s, i) && OrderedHistory(r, s)
    ensures OrderedHistory(r, Step(r, env, s, i))
  {
    if Resolved(r, i) { MovedKnowsReports(r, env, s, i); }
    HistoryGrows(r, s, Step(r, env, s, i), i);
  }

  lemma {:induction false} StepKeepsInv(r: Round, env: Env, s: State, i: nat)
    requires ValidRound(r) && |s.phases| == |r.children| && Enabled(r, s, i)
    requires Inv(r, env, s)
    ensures Inv(r, env, Step(r, env, s, i))
  {
    var m := MoveOf(r, env, i, s.phases[i], DepReports(r, s, i), s.knowledge);
    MovesLogTheirOwn(r, env, i, s.phases[i], DepReports(r, s, i), s.knowledge);
    forall j | 0 <= j < |r.children|
      ensures OnTrack(r, env, Step(r, env, s, i), j)
    {
      if j == i { MoverStaysOnTrack(r, env, s, i); } else { OthersStayOnTrack(r, env, s, i, m, j); }
    }
    HistoryStaysOrdered(r, env, s, i);
  }

  lemma {:induction false} EveryRunKeepsInv(r: Round, env: Env, schedule: seq<nat>)
    requires ValidRound(r) && Legal(r, env, schedule)
    ensures Inv(r, env, Exec(r, env, schedule))
  {
    if schedule != [] {
      EveryRunKeepsInv(r, env, schedule[..|schedule| - 1]);
      StepKeepsInv(r, env, Exec(r, env, schedule[..|schedule| - 1]), schedule[|schedule| - 1]);
    }
  }

  // ----- Safety -----

  /** The child's own run has been started. */
  predicate Started(phase: Phase) {
    || phase.Running? || phase.Finishing?
    || ((phase.Emitting? || phase.Reported?) && (phase.ending == Crashed || phase.ending == Ran))
  }

  /** In every run, a child is only started once each of its dependencies has reported,
      and none of those reports starves it. */
  lemma {:induction false} StartsOnlyAfterDependencies(r: Round, env: Env, schedule: seq<nat>, i: nat)
    requires ValidRound(r) && Legal(r, env, schedule) && i < |r.children|
    requires Started(Exec(r, env, schedule).phases[i])
    ensures Resolved(r, i)
    ensures var s := Exec(r, env, schedule);
            forall k :: 0 <= k < |r.children[i].dependsOn| ==>
              && s.phases[Dep(r, i, k)].Reported?
              && !Starves(s.phases[Dep(r, i, k)].report, Some(r.children[Dep(r, i, k)]), env.kindOf)
  {
    EveryRunKeepsInv(r, env, schedule);
    var s := Exec(r, env, schedule);
    assert OnTrack(r, env, s, i);
    assert Cleared(r, env, i, DepReports(r, s, i));
    HardBlockedIffSomeDependencyStarves(DepReports(r, s, i), DepPlans(r, i), env.kindOf);
    forall k | 0 <= k < |r.children[i].dependsOn|
      ensures !Starves(s.phases[Dep(r, i, k)].report, Some(r.children[Dep(r, i, k)]), env.kindOf)
    {
      assert DepReports(r, s, i)[k] == s.phases[Dep(r, i, k)].report;
      assert DepPlans(r, i)[k] == Some(r.children[Dep(r, i, k)]);
    }
  }

  /** What has been reported stays as it is, with what its child had read, and the history
      only grows. */
  ghost predicate Later(s: State, t: State) {
    && |s.phases| == |t.phases|
    && (forall i :: 0 <= i < |s.phases| && s.phases[i].Reported? ==>
          t.phases[i] == s.phases[i] && ReadOf(t.seen, i) == ReadOf(s.seen, i))
    && s.finished <= t.finished
  }

  lemma {:induction false} StepIsLater(r: Round, env: Env, s: State, i: nat)
    requires ValidRound(r) && |s.phases| == |r.children| && Enabled(r, s, i)
    ensures Later(s, Step(r, env, s, i))
  {
  }

  lemma {:induction false} LastStep(r: Round, env: Env, front: seq<nat>, last: nat)
    requires ValidRound(r) && Legal(r, env, front + [last])
    ensures Legal(r, env, front) && Enabled(r, Exec(r, env, front), last)
    ensures Exec(r, env, front + [last]) == Step(r, env, Exec(r, env, front), last)
  {
    assert (front + [last])[..|front|] == front;
  }

  lemma {:induction false} NextIsLater(r: Round, env: Env, s: State, front: seq<nat>, last: nat)
    requires ValidRound(r) && Legal(r, env, front + [last]) && Later(s, Exec(r, env, front))
    ensures Later(s, Exec(r, env, front + [last]))
  {
    LastStep(r, env, front, last);
    StepIsLater(r, env, Exec(r, env, front), last);
  }

  lemma {:induction false} PrefixIsLegal(r: Round, env: Env, front: seq<nat>, last: nat)
    requires ValidRound(r) && Legal(r, env, front + [last])
    ensures Legal(r, env, front)
  {
    LastStep(r, env, front, last);
  }

  /** A child reports at most once: later steps never change or repeat a report. */
  lemma {:induction false} ReportsAreFinal(r: Round, env: Env, schedule: seq<nat>, more: seq<nat>)
    requires ValidRound(r) && Legal(r, env, schedule + more)
    ensures Legal(r, env, schedule) && Later(Exec(r, env, schedule), Exec(r, env, schedule + more))
    decreases |more|
  {
    if more == [] {
      assert schedule + more == schedule;
    } else {
      var front, last := more[..|more| - 1], more[|more| - 1];
      var longer := schedule + front;
      assert schedule + more == longer + [last];
      PrefixIsLegal(r, env, longer, last);
      ReportsAreFinal(r, env, schedule, front);
      NextIsLater(r, env, Exec(r, env, schedule), longer, last);
    }
  }

  // ----- Determinacy -----

  lemma {:induction false} EvalUnfolds(
    r: Round, rank: seq<nat>, run: (nat, seq<Report>) -> Verdict, i: nat, reports: seq<Report>)
    requires IsRank(r.children, rank) && i < |r.children| && Resolved(r, i)
    requires |reports| == |r.children[i].dependsOn|
    requires forall k :: 0 <= k < |reports| ==> reports[k] == EvalWith(r, rank, run, Dep(r, i, k)).report
    ensures EvalWith(r, rank, run, i) == run(i, reports)
  {
    assert EvalDeps(r, rank, run, i) == reports;
  }

  /** What a reported child has left behind: its report and ending, its slice of the shared
      log, and the facts it persisted. */
  ghost function Left(r: Round, s: State, i: nat): Verdict
    requires |s.phases| == |r.children| == |r.goals| && i < |r.children| && s.phases[i].Reported?
  {
    Verdict(s.phases[i].report, s.phases[i].ending, MyEvents(r, s, i), MyFacts(s, i))
  }

  /** What `Inv` says of a reported child is one unfolding of the recursion. */
  lemma {:induction false} ReportedIsOneUnfolding(r: Round, env: Env, s: State, i: nat)
    requires ValidRound(r) && |s.phases| == |r.children| && i < |r.children|
    requires Inv(r, env, s) && s.phases[i].Reported?
    ensures Resolved(r, i) ==> DepsReported(r, s, i)
    ensures SequentialRun(r, env, s.seen)(i, if Resolved(r, i) then DepReports(r, s, i) else []) == Left(r, s, i)
  {
    assert OnTrack(r, env, s, i);
  }

  lemma {:induction false} ReportedMeansEvaluated(r: Round, env: Env, rank: seq<nat>, s: State, i: nat)
    requires ValidRound(r) && IsRank(r.children, rank) && |s.phases| == |r.children| && i < |r.children|
    requires Inv(r, env, s) && s.phases[i].Reported?
    ensures Eval(r, env, s.seen, rank, i) == Left(r, s, i)
    decreases rank[i]
  {
    ReportedIsOneUnfolding(r, env, s, i);
    if Resolved(r, i) {
      forall k | 0 <= k < |r.children[i].dependsOn|
        ensures DepReports(r, s, i)[k] == EvalWith(r, rank, SequentialRun(r, env, s.seen), Dep(r, i, k)).report
      {
        ReportedMeansEvaluated(r, env, rank, s, Dep(r, i, k));
      }
      EvalUnfolds(r, rank, SequentialRun(r, env, s.seen), i, DepReports(r, s, i));
    }
  }

  /** Whatever the schedule, a child that has reported leaves what evaluating its
      dependencies first, one after the other, would give when each child reads from the log
      what it read in this run. */
  lemma {:induction false} SchedulesRefineSequentialEvaluation(
    r: Round, env: Env, rank: seq<nat>, schedule: seq<nat>, i: nat)
    requires ValidRound(r) && IsRank(r.children, rank) && Legal(r, env, schedule) && i < |r.children|
    requires Exec(r, env, schedule).phases[i].Reported?
    ensures var s := Exec(r, env, schedule);
            Eval(r, env, s.seen, rank, i) == Left(r, s, i)
  {
    EveryRunKeepsInv(r, env, schedule);
    ReportedMeansEvaluated(r, env, rank, Exec(r, env, schedule), i);
  }

  // ----- Liveness -----

  /** An upper bound on the steps a child still has to take. */
  function StepsLeft(r: Round, i: nat, phase: Phase): nat
    requires i < |r.children|
  {
    match phase
    case Waiting => |r.children[i].dependsOn| + 7
    case Degrading(next, _) => (if next <= |r.children[i].dependsOn| then |r.children[i].dependsOn| - next else 0) + 6
    case Flooring(_) => 5
    case Equipping(_, _) => 4
    case Running(_, _) => 3
    case Finishing(_, _) => 2
    case Emitting(_, _) => 1
    case Reported(_, _) => 0
  }

  function TotalStepsLeft(r: Round, s: State, n: nat): nat
    requires |s.phases| == |r.children| && n <= |r.children|
  {
    if n == 0 then 0 else TotalStepsLeft(r, s, n - 1) + StepsLeft(r, n - 1, s.phases[n - 1])
  }

  lemma {:induction false} MoveCountsDown(
    r: Round, env: Env, i: nat, phase: Phase, reports: seq<Report>, knowledge: seq<Written>)
    requires i < |r.children| == |r.goals| && MayMove(r, i, phase, reports)
    ensures StepsLeft(r, i, MoveOf(r, env, i, phase, reports, knowledge).phase) < StepsLeft(r, i, phase)
  {
  }

  lemma {:induction false} TotalCountsDown(r: Round, s: State, t: State, i: nat, n: nat)
    requires |s.phases| == |t.phases| == |r.children| && i < |r.children| && n <= |r.children|
    requires t.phases == s.phases[i := t.phases[i]] && StepsLeft(r, i, t.phases[i]) < StepsLeft(r, i, s.phases[i])
    ensures TotalStepsLeft(r, t, n) + (if i < n then 1 else 0) <= TotalStepsLeft(r, s, n)
  {
    if n > 0 {
      TotalCountsDown(r, s, t, i, n - 1);
    }
  }

  lemma {:induction false} StepTakesOneOff(r: Round, env: Env, s: State, i: nat)
    requires ValidRound(r) && |s.phases| == |r.children| && Enabled(r, s, i)
    ensures |Step(r, env, s, i).phases| == |r.children|
    ensures TotalStepsLeft(r, Step(r, env, s, i), |r.children|) < TotalStepsLeft(r, s, |r.children|)
  {
    MoveCountsDown(r, env, i, s.phases[i], DepReports(r, s, i), s.knowledge);
    TotalCountsDown(r, s, Step(r, env, s, i), i, |r.children|);
  }

  /** No run goes on forever: the round itself bounds the length of every schedule. */
  lemma {:induction false} RunsAreBounded(r: Round, env: Env, schedule: seq<nat>)
    requires ValidRound(r) && Legal(r, env, schedule)
    ensures |schedule| + TotalStepsLeft(r, Exec(r, env, schedule), |r.children|) <=
      TotalStepsLeft(r, Init(r), |r.children|)
  {
    if schedule != [] {
      var front := schedule[..|schedule| - 1];
      RunsAreBounded(r, env, front);
      StepTakesOneOff(r, env, Exec(r, env, front), schedule[|schedule| - 1]);
    }
  }

  /** Below every child that has not reported there is one that can move. */
  lemma {:induction false} SomeChildCanMove(r: Round, env: Env, rank: seq<nat>, s: State, i: nat) returns (mover: nat)
    requires ValidRound(r) && IsRank(r.children, rank) && |s.phases| == |r.children| && i < |r.children|
    requires Inv(r, env, s) && !s.phases[i].Reported?
    ensures Enabled(r, s, mover)
    decreases rank[i]
  {
    assert OnTrack(r, env, s, i);
    if Enabled(r, s, i) {
      mover := i;
    } else {
      assert s.phases[i].Waiting? && Resolved(r, i) && !DepsReported(r, s, i);
      var k :| 0 <= k < |r.children[i].dependsOn| && !s.phases[Dep(r, i, k)].Reported?;
      mover := SomeChildCanMove(r, env, rank, s, Dep(r, i, k));
    }
  }

  /** An acyclic round is never stuck before all its children have reported. */
  lemma {:induction false} SomeMover(r: Round, env: Env, schedule: seq<nat>) returns (mover: nat)
    requires ValidRound(r) && Acyclic(r.children) && Legal(r, env, schedule)
    requires !AllReported(Exec(r, env, schedule))
    ensures Enabled(r, Exec(r, env, schedule), mover)
  {
    var s := Exec(r, env, schedule);
    EveryRunKeepsInv(r, env, schedule);
    var rank :| IsRank(r.children, rank);
    var i: nat :| i < |s.phases| && !s.phases[i].Reported?;
    mover := SomeChildCanMove(r, env, rank, s, i);
  }

  lemma {:induction false} ExtendRun(r: Round, env: Env, schedule: seq<nat>, mover: nat)
    requires ValidRound(r) && Legal(r, env, schedule) && Enabled(r, Exec(r, env, schedule), mover)
    ensures Legal(r, env, schedule + [mover])
    ensures Exec(r, env, schedule + [mover]) == Step(r, env, Exec(r, env, schedule), mover)
  {
    var longer := schedule + [mover];
    assert longer[..|longer| - 1] == schedule;
  }

  /** Every run of an acyclic round can be continued until all children have reported. */
  lemma {:induction false} EveryRunCompletes(r: Round, env: Env, schedule: seq<nat>) returns (whole: seq<nat>)
    requires ValidRound(r) && Acyclic(r.children) && Legal(r, env, schedule)
    ensures schedule <= whole && Legal(r, env, whole) && AllReported(Exec(r, env, whole))
    decreases TotalStepsLeft(r, Exec(r, env, schedule), |r.children|)
  {
    var s := Exec(r, env, schedule);
    if AllReported(s) {
      whole := schedule;
    } else {
      var mover := SomeMover(r, env, schedule);
      ExtendRun(r, env, schedule, mover);
      StepTakesOneOff(r, env, s, mover);
      whole := EveryRunCompletes(r, env, schedule + [mover]);
    }
  }

  lemma {:induction false} CompletionGivesRank(r: Round, env: Env, schedule: seq<nat>)
    requires ValidRound(r) && Closed(r.children) && Legal(r, env, schedule) && AllReported(Exec(r, env, schedule))
    ensures Acyclic(r.children)
  {
    EveryRunKeepsInv(r, env, schedule);
    var s := Exec(r, env, schedule);
    forall p, j | 0 <= p < |s.finished| && 0 <= j < |r.children| && Edge(r.children, s.finished[p], j)
      ensures j in s.finished[..p]
    {
      var i := s.finished[p];
      assert Resolved(r, i);
      var k :| 0 <= k < |r.children[i].dependsOn| && r.children[i].dependsOn[k] == r.children[j].localId;
      IndexOfChild(r.children, j);
      assert Dep(r, i, k) == j;
    }
    forall i: nat | i < |r.children|
      ensures i in s.finished
    {
      assert s.phases[i].Reported?;
    }
    TopologicalGivesRank(r.children, s.finished);
  }

  ghost predicate Completes(r: Round, env: Env, schedule: seq<nat>)
    requires ValidRound(r)
  {
    Legal(r, env, schedule) && AllReported(Exec(r, env, schedule))
  }

  /** With closed references, acyclicity is exactly what completion depends on. */
  lemma {:induction false} CompletesIffAcyclic(r: Round, env: Env)
    requires ValidRound(r) && Closed(r.children)
    ensures Acyclic(r.children) <==> exists schedule :: Completes(r, env, schedule)
  {
    if Acyclic(r.children) {
      var whole := EveryRunCompletes(r, env, []);
      assert Completes(r, env, whole);
    }
    forall schedule | Completes(r, env, schedule)
      ensures Acyclic(r.children)
    {
      CompletionGivesRank(r, env, schedule);
    }
  }

  // ----- Who never runs -----

  /** Dependency `k` of child `i` hands starvation on: it is not floorable and either is
      itself in `starved` or ended, on its own account, with blockers and no artifact. */
  ghost predicate HandsOnStarvation(r: Round, env: Env, s: State, starved: set<nat>, i: nat, k: nat)
    requires |s.phases| == |r.children| && i < |r.children| && Resolved(r, i) && k < |r.children[i].dependsOn|
  {
    var d := Dep(r, i, k);
    && !Floorable(Some(r.children[d]), env.kindOf)
    && (|| d in starved
        || (s.phases[d].Reported? && s.phases[d].ending != HardBlocked && ProducedNothing(s.phases[d].report)))
  }

  ghost predicate ClosedUnderStarvation(r: Round, env: Env, s: State, starved: set<nat>)
    requires |s.phases| == |r.children|
  {
    forall i, k | 0 <= i < |r.children| && Resolved(r, i) && 0 <= k < |r.children[i].dependsOn| ::
      HandsOnStarvation(r, env, s, starved, i, k) ==> i in starved
  }

  ghost function NeverRan(r: Round, s: State): set<nat>
    requires |s.phases| == |r.children|
  {
    set i | i in Below(|r.children|) && s.phases[i].Reported? && s.phases[i].ending == HardBlocked
  }

  lemma {:induction false} RunOneEndings(r: Round, env: Env, i: nat, reports: seq<Report>, read: seq<Written>)
    requires i < |r.goals| == |r.children| && Resolved(r, i) && |reports| == |r.children[i].dependsOn|
    ensures var v := RunOne(r, env, i, reports, read);
            && (v.ending == HardBlocked <==> Starving(r, env, i, reports) != [])
            && (v.ending == HardBlocked ==> ProducedNothing(v.report))
            && v.ending != Unresolved
  {
  }

  ghost predicate StarvedBySomeone(r: Round, env: Env, s: State, i: nat)
    requires |s.phases| == |r.children| && i < |r.children| && Resolved(r, i) && DepsReported(r, s, i)
  {
    exists k :: 0 <= k < |r.children[i].dependsOn|
      && Starves(s.phases[Dep(r, i, k)].report, Some(r.children[Dep(r, i, k)]), env.kindOf)
  }

  lemma {:induction false} StarvingMeansStarvedBySomeone(r: Round, env: Env, s: State, i: nat)
    requires |s.phases| == |r.children| && i < |r.children| && Resolved(r, i) && DepsReported(r, s, i)
    ensures Starving(r, env, i, DepReports(r, s, i)) != [] <==> StarvedBySomeone(r, env, s, i)
  {
    var reports, plans := DepReports(r, s, i), DepPlans(r, i);
    HardBlockedIffSomeDependencyStarves(reports, plans, env.kindOf);
    assert forall k :: 0 <= k < |reports| ==>
      reports[k] == s.phases[Dep(r, i, k)].report && plans[k] == Some(r.children[Dep(r, i, k)]);
  }

  lemma {:induction false} EndingsExplained(r: Round, env: Env, s: State, i: nat)
    requires ValidRound(r) && |s.phases| == |r.children| && i < |r.children|
    requires Inv(r, env, s) && s.phases[i].Reported?
    ensures s.phases[i].ending == Unresolved <==> !Resolved(r, i)
    ensures Resolved(r, i) ==> DepsReported(r, s, i)
    ensures s.phases[i].ending == HardBlocked <==> Resolved(r, i) && StarvedBySomeone(r, env, s, i)
    ensures s.phases[i].ending == HardBlocked ==> ProducedNothing(s.phases[i].report)
  {
    assert OnTrack(r, env, s, i);
    if Resolved(r, i) {
      RunOneEndings(r, env, i, DepReports(r, s, i), ReadOf(s.seen, i));
      StarvingMeansStarvedBySomeone(r, env, s, i);
    }
  }

  lemma {:induction false} NeverRanIsClosed(r: Round, env: Env, s: State)
    requires ValidRound(r) && |s.phases| == |r.children| && Inv(r, env, s) && AllReported(s)
    ensures ClosedUnderStarvation(r, env, s, NeverRan(r, s))
  {
    forall i, k | 0 <= i < |r.children| && Resolved(r, i) && 0 <= k < |r.children[i].dependsOn|
      && HandsOnStarvation(r, env, s, NeverRan(r, s), i, k)
      ensures i in NeverRan(r, s)
    {
      EndingsExplained(r, env, s, Dep(r, i, k));
      EndingsExplained(r, env, s, i);
    }
  }

  lemma {:induction false} NeverRanIsForced(r: Round, env: Env, rank: seq<nat>, s: State, starved: set<nat>, i: nat)
    requires ValidRound(r) && IsRank(r.children, rank) && |s.phases| == |r.children| && Inv(r, env, s) && AllReported(s)
    requires ClosedUnderStarvation(r, env, s, starved) && i in NeverRan(r, s)
    ensures i in starved
    decreases rank[i]
  {
    EndingsExplained(r, env, s, i);
    var k :| 0 <= k < |r.children[i].dependsOn|
      && Starves(s.phases[Dep(r, i, k)].report, Some(r.children[Dep(r, i, k)]), env.kindOf);
    var d := Dep(r, i, k);
    if s.phases[d].ending == HardBlocked {
      NeverRanIsForced(r, env, rank, s, starved, d);
    }
    assert HandsOnStarvation(r, env, s, starved, i, k);
  }

  /** At the end of every run the children that never ran form the least set closed under
      starvation, and every other child with resolved dependencies has run. */
  lemma {:induction false} NeverRanIsLeast(r: Round, env: Env, schedule: seq<nat>, starved: set<nat>)
    requires ValidRound(r) && Acyclic(r.children) && Legal(r, env, schedule)
    requires AllReported(Exec(r, env, schedule))
    ensures var s := Exec(r, env, schedule);
            && ClosedUnderStarvation(r, env, s, NeverRan(r, s))
            && (ClosedUnderStarvation(r, env, s, starved) ==> NeverRan(r, s) <= starved)
            && (forall i: nat :: i < |r.children| && Resolved(r, i) && i !in NeverRan(r, s) ==> Started(s.phases[i]))
  {
    EveryRunKeepsInv(r, env, schedule);
    var s := Exec(r, env, schedule);
    NeverRanIsClosed(r, env, s);
    if ClosedUnderStarvation(r, env, s, starved) {
      var rank :| IsRank(r.children, rank);
      forall i | i in NeverRan(r, s)
        ensures i in starved
      {
        NeverRanIsForced(r, env, rank, s, starved, i);
      }
    }
    forall i: nat | i < |r.children| && Resolved(r, i) && i !in NeverRan(r, s)
      ensures Started(s.phases[i])
    {
      EndingsExplained(r, env, s, i);
    }
  }
}
