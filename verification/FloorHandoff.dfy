/** Which dependencies that produced nothing stop their dependent, and which can be
    replaced by a structural floor (`src/engine/dive-floor-handoff.ts`). */
module FloorHandoff {
  import opened Contract

  /** The dependency blocked and left nothing behind. */
  predicate ProducedNothing(report: Report) {
    report.blockers != [] && report.artifact.None?
  }

  /** The dependency blocked but left a partial artifact behind. */
  predicate Degraded(report: Report) {
    report.blockers != [] && report.artifact.Some?
  }

  /** A comprehension dive over named regions can be re-mapped mechanically. */
  predicate Floorable(plan: Option<ChildPlan>, kindOf: string -> Option<Kind>) {
    plan.Some? && kindOf(plan.value.goalType) == Some(Learn) && plan.value.scope != []
  }

  /** The dependency starves its dependent. */
  predicate Starves(report: Report, plan: Option<ChildPlan>, kindOf: string -> Option<Kind>) {
    ProducedNothing(report) && !Floorable(plan, kindOf)
  }

  function HardBlockers(
    reports: seq<Report>, plans: seq<Option<ChildPlan>>, kindOf: string -> Option<Kind>): seq<string>
    requires |reports| == |plans|
  {
    if reports == [] then []
    else
      var n := |reports| - 1;
      HardBlockers(reports[..n], plans[..n], kindOf)
        + (if Starves(reports[n], plans[n], kindOf) then [reports[n].blockers[0]] else [])
  }

  function FloorRegions(
    reports: seq<Report>, plans: seq<Option<ChildPlan>>, kindOf: string -> Option<Kind>): seq<string>
    requires |reports| == |plans|
  {
    if reports == [] then []
    else
      var n := |reports| - 1;
      FloorRegions(reports[..n], plans[..n], kindOf)
        + (if ProducedNothing(reports[n]) && Floorable(plans[n], kindOf) then plans[n].value.scope else [])
  }

  /** `classifyFatalDeps`. */
  method ClassifyFatalDeps(reports: seq<Report>, plans: seq<Option<ChildPlan>>, kindOf: string -> Option<Kind>)
    returns (hard: seq<string>, floorableRegions: seq<string>)
    requires |reports| == |plans|
    ensures hard == HardBlockers(reports, plans, kindOf)
    ensures floorableRegions == FloorRegions(reports, plans, kindOf)
  {
    hard, floorableRegions := [], [];
    for index := 0 to |reports|
      invariant hard == HardBlockers(reports[..index], plans[..index], kindOf)
      invariant floorableRegions == FloorRegions(reports[..index], plans[..index], kindOf)
    {
      var report, plan := reports[index], plans[index];
      assert reports[..index + 1][..index] == reports[..index];
      assert plans[..index + 1][..index] == plans[..index];
      if report.blockers == [] || report.artifact.Some? {
        continue;
      }
      var isDive := plan.Some? && kindOf(plan.value.goalType) == Some(Learn);
      if isDive && |plan.value.scope| > 0 {
        floorableRegions := floorableRegions + plan.value.scope;
      } else {
        hard := hard + [report.blockers[0]];
      }
    }
    assert reports[..|reports|] == reports && plans[..|plans|] == plans;
  }

  /** A dependent is refused exactly when one of its dependencies starves it. */
  lemma {:induction false} HardBlockedIffSomeDependencyStarves(
    reports: seq<Report>, plans: seq<Option<ChildPlan>>, kindOf: string -> Option<Kind>)
    requires |reports| == |plans|
    ensures HardBlockers(reports, plans, kindOf) != [] <==>
            exists k :: 0 <= k < |reports| && Starves(reports[k], plans[k], kindOf)
  {
    if reports != [] {
      var n := |reports| - 1;
      HardBlockedIffSomeDependencyStarves(reports[..n], plans[..n], kindOf);
      if HardBlockers(reports[..n], plans[..n], kindOf) != [] {
        var k :| 0 <= k < n && Starves(reports[..n][k], plans[..n][k], kindOf);
        assert Starves(reports[k], plans[k], kindOf);
      }
      if k :| 0 <= k < n && Starves(reports[k], plans[k], kindOf) {
        assert Starves(reports[..n][k], plans[..n][k], kindOf);
      }
    }
  }

  /** The refusal quotes the first starving dependency, in declaration order. */
  lemma {:induction false} FirstHardBlocker(
    reports: seq<Report>, plans: seq<Option<ChildPlan>>, kindOf: string -> Option<Kind>, k: nat)
    requires |reports| == |plans| && k < |reports|
    requires Starves(reports[k], plans[k], kindOf)
    requires forall h :: 0 <= h < k ==> !Starves(reports[h], plans[h], kindOf)
    ensures HardBlockers(reports, plans, kindOf) != []
    ensures HardBlockers(reports, plans, kindOf)[0] == reports[k].blockers[0]
  {
    var n := |reports| - 1;
    if k == n {
      HardBlockedIffSomeDependencyStarves(reports[..n], plans[..n], kindOf);
    } else {
      FirstHardBlocker(reports[..n], plans[..n], kindOf, k);
    }
  }

  /** The dependency dived into this region and produced nothing. */
  predicate Lost(report: Report, plan: Option<ChildPlan>, kindOf: string -> Option<Kind>, region: string) {
    ProducedNothing(report) && Floorable(plan, kindOf) && region in plan.value.scope
  }

  ghost predicate SomeLost(
    reports: seq<Report>, plans: seq<Option<ChildPlan>>, kindOf: string -> Option<Kind>, region: string)
    requires |reports| == |plans|
  {
    exists k :: 0 <= k < |reports| && Lost(reports[k], plans[k], kindOf, region)
  }

  lemma {:induction false} SomeLostOfMore(
    reports: seq<Report>, plans: seq<Option<ChildPlan>>, kindOf: string -> Option<Kind>, region: string)
    requires |reports| == |plans| && reports != []
    ensures var n := |reports| - 1;
      SomeLost(reports, plans, kindOf, region) <==>
        SomeLost(reports[..n], plans[..n], kindOf, region) || Lost(reports[n], plans[n], kindOf, region)
  {
    var n := |reports| - 1;
    if k :| 0 <= k < n && Lost(reports[k], plans[k], kindOf, region) {
      assert Lost(reports[..n][k], plans[..n][k], kindOf, region);
    }
    if k :| 0 <= k < n && Lost(reports[..n][k], plans[..n][k], kindOf, region) {
      assert Lost(reports[k], plans[k], kindOf, region);
    }
  }

  /** The floor covers exactly the regions of the floorable dives that produced nothing. */
  lemma {:induction false} FloorCoversTheLostRegions(
    reports: seq<Report>, plans: seq<Option<ChildPlan>>, kindOf: string -> Option<Kind>, region: string)
    requires |reports| == |plans|
    ensures region in FloorRegions(reports, plans, kindOf) <==> SomeLost(reports, plans, kindOf, region)
  {
    if reports != [] {
      var n := |reports| - 1;
      FloorCoversTheLostRegions(reports[..n], plans[..n], kindOf, region);
      SomeLostOfMore(reports, plans, kindOf, region);
    }
  }
}
