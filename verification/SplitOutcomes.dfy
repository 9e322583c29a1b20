/** What the children of a split leave, written out: who is refused and with which words, what
    a child's own run is given, what the dependent adds to its report and logs about its
    dependencies. Nothing here is said through the definitions of `SplitScheduler` that the
    step system and the sequential evaluation share. */
module SplitOutcomes {
  import opened Contract
  import opened SplitGraph
  import opened FloorHandoff
  import opened Knowledge
  import opened SplitScheduler
  import opened SplitRuns
  import opened Selections
  import Text

  /** The siblings that the dependencies of child `i` name, in the order in which it names them. */
  ghost predicate Named(r: Round, i: nat, deps: seq<nat>) {
    && i < |r.children| && |deps| == |r.children[i].dependsOn|
    && forall k: nat | k < |deps| ::
         deps[k] < |r.children| && r.children[deps[k]].localId == r.children[i].dependsOn[k]
  }

  /** This report of this child starves whoever depends on it: it blocked, left no artifact,
      and is not a learn-kind child with regions of its own. */
  predicate LeavesNothing(env: Env, plan: ChildPlan, report: Report) {
    report.blockers != [] && report.artifact == None && !(env.kindOf(plan.goalType) == Some(Learn) && plan.scope != [])
  }

  /** It blocked and left no artifact, but its regions can be mapped mechanically. */
  predicate LeavesRegions(env: Env, plan: ChildPlan, report: Report) {
    report.blockers != [] && report.artifact == None && env.kindOf(plan.goalType) == Some(Learn) && plan.scope != []
  }

  /** Dependency `k` is degraded (it blocked, but left an artifact), and this is the event and
      the finding that say so. */
  predicate Noted(r: Round, i: nat, k: nat, report: Report, event: Event, finding: string)
    requires i < |r.children| == |r.goals| && k < |r.children[i].dependsOn|
  {
    && report.blockers != [] && report.artifact != None
    && var name, blocker := r.children[i].dependsOn[k], report.blockers[0];
    && event == DependencyDegraded(r.goals[i].id, r.parentId + "/" + name, blocker)
    && finding == "degraded dependency " + name + ": " + blocker
  }

  function DegradedBelow(reports: seq<Report>, n: nat): seq<bool>
    requires n <= |reports|
  {
    seq(n, k requires 0 <= k < n => reports[k].blockers != [] && reports[k].artifact != None)
  }

  /** The degraded ones among the first `n` dependencies, in order, with one event and one
      finding each. */
  ghost predicate DegradedNoted(
    r: Round, i: nat, reports: seq<Report>, n: nat, picks: seq<nat>, events: seq<Event>, findings: seq<string>)
    requires i < |r.children| == |r.goals| && n <= |reports| == |r.children[i].dependsOn|
  {
    && Selects(DegradedBelow(reports, n), picks) && |events| == |findings| == |picks|
    && forall p: nat | p < |picks| :: Noted(r, i, picks[p], reports[picks[p]], events[p], findings[p])
  }

  function LostBelow(env: Env, plans: seq<ChildPlan>, reports: seq<Report>, n: nat): seq<bool>
    requires n <= |plans| == |reports|
  {
    seq(n, k requires 0 <= k < n => LeavesRegions(env, plans[k], reports[k]))
  }

  /** The dives among the first `n` dependencies that left nothing, in order, with their regions. */
  ghost predicate RegionsLost(
    env: Env, plans: seq<ChildPlan>, reports: seq<Report>, n: nat, picks: seq<nat>, parts: seq<seq<string>>)
    requires n <= |plans| == |reports|
  {
    && Selects(LostBelow(env, plans, reports, n), picks) && |parts| == |picks|
    && forall p: nat | p < |picks| :: parts[p] == plans[picks[p]].scope
  }

  /** What the floor for these regions adds to the child's memories, log and findings. */
  ghost predicate FloorAdds(
    r: Round, env: Env, i: nat, lost: seq<string>,
    memories: seq<MemoryPointer>, events: seq<Event>, findings: seq<string>)
    requires i < |r.children| == |r.goals|
  {
    var id := r.goals[i].id;
    var names := Text.Join(Text.Dedupe(lost), ", ");
    if lost == [] || env.floor(id, lost) == [] then memories == [] && events == [] && findings == []
    else
      && memories == env.floor(id, lost)
      && events == [DependencyDegraded(id, Text.Join(r.children[i].dependsOn, ", "), "no facts for " + names)]
      && findings == ["structural floor for " + names]
  }

  /** The goal a child's own run is given: its own, with the memories of the floor and those
      made of what it read from the log. */
  ghost predicate Given(env: Env, own: Goal, floor: seq<MemoryPointer>, read: seq<Written>, given: Goal) {
    var told := seq(|read|, k requires 0 <= k < |read| => read[k].facts);
    given == Goal(own.id, own.goalType, own.parentId, own.title, own.scope,
      own.memories + floor + LateMemories(own.scope, env.known + told))
  }

  /** What a child whose run has been started noted about its dependencies, and what it got. */
  datatype Account = Account(
    picks: seq<nat>, degraded: seq<Event>, noted: seq<string>,
    lost: seq<nat>, parts: seq<seq<string>>,
    floor: seq<MemoryPointer>, mapped: seq<Event>, mappings: seq<string>)

  ghost predicate AccountsFor(
    r: Round, env: Env, i: nat, plans: seq<ChildPlan>, reports: seq<Report>, a: Account)
    requires i < |r.children| == |r.goals| && |plans| == |reports| == |r.children[i].dependsOn|
  {
    && DegradedNoted(r, i, reports, |reports|, a.picks, a.degraded, a.noted)
    && RegionsLost(env, plans, reports, |reports|, a.lost, a.parts)
    && FloorAdds(r, env, i, Concatenated(a.parts), a.floor, a.mapped, a.mappings)
  }

  // ----- The definitions of the scheduler give these accounts -----

  lemma {:induction false} NotedAs(r: Round, i: nat, k: nat, report: Report, event: Event)
    requires i < |r.children| == |r.goals| && k < |r.children[i].dependsOn| && Degraded(report)
    requires event == DependencyDegraded(
      r.goals[i].id, ChildGoalId(r.parentId, r.children[i].dependsOn[k]), report.blockers[0])
    ensures Noted(r, i, k, report, event, DegradedFinding(r.children[i].dependsOn[k], report.blockers[0]))
  {
  }

  /** What one more dependency adds. */
  lemma {:induction false} DegradedNext(r: Round, i: nat, reports: seq<Report>, n: nat, picks: seq<nat>)
    requires i < |r.children| == |r.goals| && n < |reports| == |r.children[i].dependsOn|
    requires DegradedNoted(
      r, i, reports, n, picks, DegradedEvents(r, i, reports, n), DegradedFindings(r, i, reports, n))
    ensures DegradedNoted(
      r, i, reports, n + 1, picks + (if Degraded(reports[n]) then [n] else []),
      DegradedEvents(r, i, reports, n + 1), DegradedFindings(r, i, reports, n + 1))
  {
    StockGrows(r, i, reports, n);
    assert DegradedBelow(reports, n + 1) == DegradedBelow(reports, n) + [Degraded(reports[n])];
    SelectsSnoc(DegradedBelow(reports, n), Degraded(reports[n]), picks);
    if Degraded(reports[n]) {
      var name, blocker := r.children[i].dependsOn[n], reports[n].blockers[0];
      NotedAs(r, i, n, reports[n], DependencyDegraded(r.goals[i].id, ChildGoalId(r.parentId, name), blocker));
    } else {
      assert picks + [] == picks;
    }
  }

  function DegradedPicks(reports: seq<Report>, n: nat): seq<nat>
    requires n <= |reports|
  {
    if n == 0 then []
    else DegradedPicks(reports, n - 1) + (if Degraded(reports[n - 1]) then [n - 1] else [])
  }

  lemma {:induction false} DegradedListed(r: Round, i: nat, reports: seq<Report>, n: nat)
    requires i < |r.children| == |r.goals| && n <= |reports| == |r.children[i].dependsOn|
    ensures DegradedNoted(
      r, i, reports, n, DegradedPicks(reports, n), DegradedEvents(r, i, reports, n), DegradedFindings(r, i, reports, n))
  {
    if n > 0 {
      var picks := DegradedPicks(reports, n - 1);
      DegradedListed(r, i, reports, n - 1);
      DegradedNext(r, i, reports, n - 1, picks);
      assert DegradedPicks(reports, n) == picks + (if Degraded(reports[n - 1]) then [n - 1] else []);
    }
  }

  function LostPicks(env: Env, plans: seq<ChildPlan>, reports: seq<Report>, n: nat): seq<nat>
    requires n <= |plans| == |reports|
  {
    if n == 0 then []
    else
      LostPicks(env, plans, reports, n - 1)
      + (if LeavesRegions(env, plans[n - 1], reports[n - 1]) then [n - 1] else [])
  }

  function LostParts(env: Env, plans: seq<ChildPlan>, reports: seq<Report>, n: nat): seq<seq<string>>
    requires n <= |plans| == |reports|
  {
    if n == 0 then []
    else
      LostParts(env, plans, reports, n - 1)
      + (if LeavesRegions(env, plans[n - 1], reports[n - 1]) then [plans[n - 1].scope] else [])
  }

  lemma {:induction false} RegionsNext(
    env: Env, plans: seq<ChildPlan>, reports: seq<Report>, n: nat, picks: seq<nat>, parts: seq<seq<string>>)
    requires n < |plans| == |reports| && RegionsLost(env, plans, reports, n, picks, parts)
    ensures var lost := LeavesRegions(env, plans[n], reports[n]);
      RegionsLost(env, plans, reports, n + 1,
        picks + (if lost then [n] else []), parts + (if lost then [plans[n].scope] else []))
  {
    var lost := LeavesRegions(env, plans[n], reports[n]);
    assert LostBelow(env, plans, reports, n + 1) == LostBelow(env, plans, reports, n) + [lost];
    SelectsSnoc(LostBelow(env, plans, reports, n), lost, picks);
  }

  lemma {:induction false} RegionsListed(env: Env, plans: seq<ChildPlan>, reports: seq<Report>, n: nat)
    requires n <= |plans| == |reports|
    ensures RegionsLost(
      env, plans, reports, n, LostPicks(env, plans, reports, n), LostParts(env, plans, reports, n))
  {
    if n > 0 {
      RegionsListed(env, plans, reports, n - 1);
      RegionsNext(env, plans, reports, n - 1,
        LostPicks(env, plans, reports, n - 1), LostParts(env, plans, reports, n - 1));
    }
  }

  lemma {:induction false} FloorNext(
    reports: seq<Report>, options: seq<Option<ChildPlan>>, kindOf: string -> Option<Kind>, n: nat)
    requires 0 < n <= |reports| == |options|
    ensures FloorRegions(reports[..n], options[..n], kindOf) ==
      FloorRegions(reports[..n - 1], options[..n - 1], kindOf)
      + (if ProducedNothing(reports[n - 1]) && Floorable(options[n - 1], kindOf)
         then options[n - 1].value.scope else [])
  {
    assert reports[..n][..n - 1] == reports[..n - 1] && options[..n][..n - 1] == options[..n - 1];
  }

  lemma {:induction false} RegionsJoined(
    env: Env, plans: seq<ChildPlan>, reports: seq<Report>, options: seq<Option<ChildPlan>>, n: nat)
    requires n <= |reports| == |plans| == |options|
    requires forall k: nat | k < |plans| :: options[k] == Some(plans[k])
    ensures FloorRegions(reports[..n], options[..n], env.kindOf) == Concatenated(LostParts(env, plans, reports, n))
  {
    if n > 0 {
      var before := LostParts(env, plans, reports, n - 1);
      RegionsJoined(env, plans, reports, options, n - 1);
      FloorNext(reports, options, env.kindOf, n);
      assert (before + [plans[n - 1].scope])[..|before|] == before && before + [] == before;
    }
  }

  /** What the scheduler takes for the dependencies are the siblings they name. */
  lemma {:induction false} NamedAreDeps(r: Round, i: nat, deps: seq<nat>)
    requires ValidRound(r) && Named(r, i, deps)
    ensures Resolved(r, i) && forall k: nat | k < |deps| :: Dep(r, i, k) == deps[k]
  {
    forall k: nat | k < |deps|
      ensures IndexOf(r.children, r.children[i].dependsOn[k]) == Some(deps[k])
    {
      IndexOfChild(r.children, deps[k]);
    }
  }

  // ----- What a reported child has left -----

  ghost function PlansOf(r: Round, deps: seq<nat>): seq<ChildPlan>
    requires forall k: nat | k < |deps| :: deps[k] < |r.children|
  {
    seq(|deps|, k requires 0 <= k < |deps| => r.children[deps[k]])
  }

  ghost function ReportsOf(s: State, deps: seq<nat>): seq<Report>
    requires forall k: nat | k < |deps| :: deps[k] < |s.phases| && s.phases[deps[k]].Reported?
  {
    seq(|deps|, k requires 0 <= k < |deps| => s.phases[deps[k]].report)
  }

  /** Dependency `k` is the first that starves. */
  ghost predicate FirstToStarve(env: Env, plans: seq<ChildPlan>, reports: seq<Report>, k: nat)
    requires |plans| == |reports|
  {
    && k < |plans| && LeavesNothing(env, plans[k], reports[k])
    && forall h: nat | h < k :: !LeavesNothing(env, plans[h], reports[h])
  }

  /** A child refused because dependency `k` starved it: one blocker quoting that dependency's
      first, nothing delivered, nothing persisted, and one event. */
  ghost predicate RefusedFor(id: string, blocker: string, left: Verdict) {
    && left.report == Report(None, [], [], [], ["dependency failed: " + blocker], [], "", None)
    && left == Verdict(left.report, HardBlocked, [Emitted(id, left.report)], [])
  }

  /** A child whose own run was given this goal, after it had logged and noted so much. */
  ghost predicate RanOn(env: Env, own: Goal, given: Goal, a: Account, read: seq<Written>, left: Verdict) {
    && Given(env, own, a.floor, read, given)
    && var events := a.degraded + a.mapped;
    match env.runChild(given)
    case Threw(message) =>
      && left.report == Report(None, [], [], [], ["child threw: " + message], [], "", None)
      && left == Verdict(left.report, Crashed, events + [Emitted(own.id, left.report)], env.persists(given))
    case Returned(its) =>
      && left.report == Report(its.artifact, its.proof, its.lessons, its.memoriesUsed, its.blockers,
           its.findings + (a.noted + a.mappings), its.learned, its.partialDelivery)
      && left == Verdict(left.report, Ran, events, env.persists(given))
  }

  ghost predicate RanSomehow(
    r: Round, env: Env, i: nat, plans: seq<ChildPlan>, reports: seq<Report>, read: seq<Written>, left: Verdict)
    requires i < |r.children| == |r.goals| && |plans| == |reports| == |r.children[i].dependsOn|
  {
    exists a: Account, given: Goal ::
      AccountsFor(r, env, i, plans, reports, a) && RanOn(env, r.goals[i], given, a, read, left)
  }

  lemma {:induction false} RunsAccountedFor(
    r: Round, env: Env, i: nat, plans: seq<ChildPlan>, reports: seq<Report>, read: seq<Written>)
    requires i < |r.goals| == |r.children| && Resolved(r, i) && |reports| == |plans| == |r.children[i].dependsOn|
    requires forall k: nat | k < |plans| :: DepPlans(r, i)[k] == Some(plans[k])
    requires Starving(r, env, i, reports) == []
    ensures RanSomehow(r, env, i, plans, reports, read, RunOne(r, env, i, reports, read))
  {
    var own, lost := r.goals[i], LostRegions(r, env, i, reports);
    var floor := InjectFloor(r, env, i, lost);
    DegradedListed(r, i, reports, |reports|);
    var picks := DegradedPicks(reports, |reports|);
    var plain := DepPlans(r, i);
    RegionsListed(env, plans, reports, |reports|);
    RegionsJoined(env, plans, reports, plain, |reports|);
    assert reports[..|reports|] == reports && plain[..|reports|] == plain;
    var lostPicks, parts := LostPicks(env, plans, reports, |reports|), LostParts(env, plans, reports, |reports|);
    var a := Account(
      picks, DegradedEvents(r, i, reports, |reports|), DegradedFindings(r, i, reports, |reports|),
      lostPicks, parts, if lost == [] then [] else env.floor(own.id, lost), floor.events, floor.findings);
    assert AccountsFor(r, env, i, plans, reports, a);
    var given := Equip(env, floor.goal, read);
    assert own.memories + [] == own.memories;
    assert RanOn(env, own, given, a, read, RunOne(r, env, i, reports, read));
  }

  lemma {:induction false} RefusalsAccountedFor(
    r: Round, env: Env, i: nat, plans: seq<ChildPlan>, reports: seq<Report>, read: seq<Written>)
    requires i < |r.goals| == |r.children| && Resolved(r, i) && |reports| == |plans| == |r.children[i].dependsOn|
    requires forall k: nat | k < |plans| :: DepPlans(r, i)[k] == Some(plans[k])
    ensures Starving(r, env, i, reports) == [] <==>
      forall k: nat | k < |plans| :: !LeavesNothing(env, plans[k], reports[k])
    ensures forall k: nat | FirstToStarve(env, plans, reports, k) ::
      RefusedFor(r.goals[i].id, reports[k].blockers[0], RunOne(r, env, i, reports, read))
  {
    var options := DepPlans(r, i);
    HardBlockedIffSomeDependencyStarves(reports, options, env.kindOf);
    assert forall k: nat | k < |plans| ::
      LeavesNothing(env, plans[k], reports[k]) <==> Starves(reports[k], options[k], env.kindOf);
    forall k: nat | FirstToStarve(env, plans, reports, k)
      ensures RefusedFor(r.goals[i].id, reports[k].blockers[0], RunOne(r, env, i, reports, read))
    {
      FirstHardBlocker(reports, options, env.kindOf, k);
    }
  }

  lemma {:induction false} TheirReports(r: Round, s: State, i: nat, deps: seq<nat>)
    requires ValidRound(r) && |s.phases| == |r.children| && Named(r, i, deps)
    requires Resolved(r, i) ==> DepsReported(r, s, i)
    ensures Resolved(r, i) && forall k: nat | k < |deps| :: s.phases[deps[k]].Reported?
    ensures DepReports(r, s, i) == ReportsOf(s, deps)
    ensures forall k: nat | k < |deps| :: DepPlans(r, i)[k] == Some(PlansOf(r, deps)[k])
  {
    NamedAreDeps(r, i, deps);
    forall k: nat | k < |deps|
      ensures s.phases[deps[k]].Reported?
    {
      assert s.phases[Dep(r, i, k)].Reported?;
    }
  }

  /** What a reported child has left, seen from the reports of the siblings it names. */
  ghost predicate LeavesItsDue(r: Round, env: Env, s: State, i: nat, deps: seq<nat>)
    requires |s.phases| == |r.children| == |r.goals| && Named(r, i, deps) && s.phases[i].Reported?
  {
    && (forall k: nat | k < |deps| :: s.phases[deps[k]].Reported?)
    && var plans, reports := PlansOf(r, deps), ReportsOf(s, deps);
    && (forall k: nat | FirstToStarve(env, plans, reports, k) ::
          RefusedFor(r.goals[i].id, reports[k].blockers[0], Left(r, s, i)))
    && ((forall k: nat | k < |deps| :: !LeavesNothing(env, plans[k], reports[k])) ==>
          RanSomehow(r, env, i, plans, reports, ReadOf(s.seen, i), Left(r, s, i)))
  }

  lemma {:induction false} ReportedLeaveTheirDue(r: Round, env: Env, s: State, i: nat, deps: seq<nat>)
    requires ValidRound(r) && |s.phases| == |r.children| && Named(r, i, deps)
    requires Inv(r, env, s) && s.phases[i].Reported?
    ensures LeavesItsDue(r, env, s, i, deps)
  {
    ReportedIsOneUnfolding(r, env, s, i);
    TheirReports(r, s, i, deps);
    var plans, reports := PlansOf(r, deps), ReportsOf(s, deps);
    assert Left(r, s, i) == RunOne(r, env, i, reports, ReadOf(s.seen, i));
    RefusalsAccountedFor(r, env, i, plans, reports, ReadOf(s.seen, i));
    if Starving(r, env, i, reports) == [] { RunsAccountedFor(r, env, i, plans, reports, ReadOf(s.seen, i)); }
  }

  /** In every run, a reported child whose dependencies name these siblings reported after them.
      If one of them starves it, it left the refusal that quotes the first that does; if none
      does, it left what its own run, on the goal it was given, made of it, with what it had
      noted about its dependencies. */
  lemma {:induction false} WhatReportedChildrenLeave(r: Round, env: Env, schedule: seq<nat>, i: nat, deps: seq<nat>)
    requires ValidRound(r) && Legal(r, env, schedule) && Named(r, i, deps)
    requires Exec(r, env, schedule).phases[i].Reported?
    ensures LeavesItsDue(r, env, Exec(r, env, schedule), i, deps)
  {
    EveryRunKeepsInv(r, env, schedule);
    ReportedLeaveTheirDue(r, env, Exec(r, env, schedule), i, deps);
  }

  ghost predicate IsSibling(children: seq<ChildPlan>, id: string) {
    exists c :: c in children && c.localId == id
  }

  lemma {:induction false} FirstUnknown(children: seq<ChildPlan>, deps: seq<string>, k: nat)
    requires k < |deps| && !IsSibling(children, deps[k])
    requires forall h: nat | h < k :: IsSibling(children, deps[h])
    ensures Unknown(children, deps) == Some(deps[k])
  {
    if k > 0 {
      assert IsSibling(children, deps[0]);
      assert forall h: nat | h < |deps| - 1 :: deps[1..][h] == deps[h + 1];
      FirstUnknown(children, deps[1..], k - 1);
    }
  }

  /** A child whose dependency names no sibling: one blocker quoting the name, and one event. */
  ghost predicate CrashedOn(id: string, dependency: string, left: Verdict) {
    && var blocker := "dependency not found: " + dependency;
    && left.report == Report(None, [], [], [], ["child threw: " + blocker], [], "", None)
    && left == Verdict(left.report, Unresolved, [Emitted(id, left.report)], [])
  }

  lemma {:induction false} UnresolvedLeaveTheirDue(r: Round, env: Env, s: State, i: nat, k: nat)
    requires ValidRound(r) && |s.phases| == |r.children| && i < |r.children| && k < |r.children[i].dependsOn|
    requires Inv(r, env, s) && s.phases[i].Reported?
    requires Unknown(r.children, r.children[i].dependsOn) == Some(r.children[i].dependsOn[k])
    ensures CrashedOn(r.goals[i].id, r.children[i].dependsOn[k], Left(r, s, i))
  {
    ReportedIsOneUnfolding(r, env, s, i);
    assert Left(r, s, i) == RunUnresolved(r, i);
  }

  /** In every run, a reported child one of whose dependencies names no sibling left the report
      of a crash that quotes the first such name, and ran nothing. */
  lemma {:induction false} WhatUnresolvedChildrenLeave(r: Round, env: Env, schedule: seq<nat>, i: nat, k: nat)
    requires ValidRound(r) && Legal(r, env, schedule) && i < |r.children| && k < |r.children[i].dependsOn|
    requires Exec(r, env, schedule).phases[i].Reported?
    requires !IsSibling(r.children, r.children[i].dependsOn[k])
    requires forall h: nat | h < k :: IsSibling(r.children, r.children[i].dependsOn[h])
    ensures CrashedOn(r.goals[i].id, r.children[i].dependsOn[k], Left(r, Exec(r, env, schedule), i))
  {
    EveryRunKeepsInv(r, env, schedule);
    FirstUnknown(r.children, r.children[i].dependsOn, k);
    UnresolvedLeaveTheirDue(r, env, Exec(r, env, schedule), i, k);
  }
}
