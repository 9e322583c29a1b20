/** The coverage gate: comprehension children injected ahead of a split
    (`src/engine/coverage-gate.ts`, `renormalizeShares` of `src/engine/split-validation.ts`). */
module CoverageGate {
  import opened Contract
  import opened Scopes
  import opened SplitGraph
  import opened Selections
  import Knowledge
  import SplitFacts
  import SplitRace
  import SplitReach
  import SplitScheduler
  import SplitRuns

  // ----- Injection -----

  function Scale(children: seq<ChildPlan>, total: real): (r: seq<ChildPlan>)
    requires total != 0.0
    ensures |r| == |children|
  {
    seq(|children|, i requires 0 <= i < |children| => children[i].(budgetShare := children[i].budgetShare / total))
  }

  function RenormalizeShares(children: seq<ChildPlan>): seq<ChildPlan> {
    var total := TotalShare(children);
    if total <= 1.0 then children else Scale(children, total)
  }

  lemma {:induction false} ScaledTotal(children: seq<ChildPlan>, total: real)
    requires total != 0.0
    ensures TotalShare(Scale(children, total)) == TotalShare(children) / total
  {
    if children != [] {
      var n := |children| - 1;
      assert Scale(children, total)[..n] == Scale(children[..n], total);
      ScaledTotal(children[..n], total);
      var front, last := TotalShare(children[..n]), children[n].budgetShare;
      assert front / total + last / total == (front + last) / total;
    }
  }

  /** Each share is the `total`-th part of what it was. */
  predicate Proportional(children: seq<ChildPlan>, r: seq<ChildPlan>, total: real) {
    && |r| == |children|
    && forall i :: 0 <= i < |r| ==> r[i].budgetShare * total == children[i].budgetShare
  }

  lemma {:induction false} Quotient(x: real, y: real)
    requires y != 0.0
    ensures x / y * y == x && y / y == 1.0
  {
  }

  lemma {:induction false} ScaleIsProportional(children: seq<ChildPlan>, total: real)
    requires total != 0.0
    ensures Proportional(children, Scale(children, total), total)
  {
    forall i | 0 <= i < |children|
      ensures Scale(children, total)[i].budgetShare * total == children[i].budgetShare
    {
      Quotient(children[i].budgetShare, total);
    }
  }

  lemma {:induction false} ScaledToOne(children: seq<ChildPlan>)
    requires TotalShare(children) != 0.0
    ensures TotalShare(Scale(children, TotalShare(children))) == 1.0
  {
    ScaledTotal(children, TotalShare(children));
    Quotient(1.0, TotalShare(children));
  }

  predicate OnlySharesDiffer(children: seq<ChildPlan>, r: seq<ChildPlan>) {
    |r| == |children| && forall i :: 0 <= i < |r| ==> r[i] == children[i].(budgetShare := r[i].budgetShare)
  }

  /** Shares that go over one are divided by their total, and then sum to exactly one;
      other shares are kept. Nothing but the shares changes. */
  lemma {:induction false} RenormalizedShares(children: seq<ChildPlan>)
    ensures var r, total := RenormalizeShares(children), TotalShare(children);
      && OnlySharesDiffer(children, r)
      && (total <= 1.0 ==> r == children)
      && (total > 1.0 ==> TotalShare(r) == 1.0 && Proportional(children, r, total))
  {
    if TotalShare(children) > 1.0 {
      ScaledToOne(children);
      ScaleIsProportional(children, TotalShare(children));
    }
  }

  function WithoutDependencies(children: seq<ChildPlan>): (r: seq<ChildPlan>)
    ensures |r| == |children|
  {
    seq(|children|, i requires 0 <= i < |children| => children[i].(dependsOn := []))
  }

  /** The injected child must finish before the original child starts. */
  predicate MustPrecede(candidate: ChildPlan, child: ChildPlan) {
    candidate.scope == [] || ScopesOverlap(child.scope, candidate.scope)
  }

  function DepsForChild(child: ChildPlan, injected: seq<ChildPlan>): seq<string> {
    if injected == [] then []
    else
      var front, last := injected[..|injected| - 1], injected[|injected| - 1];
      DepsForChild(child, front) + (if MustPrecede(last, child) then [last.localId] else [])
  }

  lemma {:induction false} DepsForChildAre(child: ChildPlan, injected: seq<ChildPlan>, id: string)
    ensures id in DepsForChild(child, injected) <==>
            exists m :: 0 <= m < |injected| && MustPrecede(injected[m], child) && injected[m].localId == id
  {
    var picks := DepsArePreceding(child, injected);
    var ids := DepsForChild(child, injected);
    if id in ids {
      var p: nat :| p < |ids| && ids[p] == id;
      assert MustBeFirst(injected, child)[picks[p]];
    }
    if m: nat :| m < |injected| && MustPrecede(injected[m], child) && injected[m].localId == id {
      assert MustBeFirst(injected, child)[m];
      var p: nat :| p < |picks| && picks[p] == m;
      assert ids[p] == id;
    }
  }

  function MustBeFirst(given: seq<ChildPlan>, child: ChildPlan): seq<bool> {
    seq(|given|, m requires 0 <= m < |given| => MustPrecede(given[m], child))
  }

  /** The ids of the given children that must finish before this one starts, in order. */
  ghost predicate Preceding(given: seq<ChildPlan>, child: ChildPlan, picks: seq<nat>, ids: seq<string>) {
    && Selects(MustBeFirst(given, child), picks)
    && |ids| == |picks| && forall p: nat | p < |picks| :: ids[p] == given[picks[p]].localId
  }

  lemma {:induction false} PrecedingSnoc(
    front: seq<ChildPlan>, last: ChildPlan, child: ChildPlan, picks: seq<nat>, ids: seq<string>)
    requires Preceding(front, child, picks, ids)
    ensures var first := MustPrecede(last, child);
      Preceding(front + [last], child, picks + (if first then [|front|] else []),
        ids + (if first then [last.localId] else []))
  {
    assert MustBeFirst(front + [last], child) == MustBeFirst(front, child) + [MustPrecede(last, child)];
    SelectsSnoc(MustBeFirst(front, child), MustPrecede(last, child), picks);
  }

  lemma {:induction false} DepsArePreceding(child: ChildPlan, given: seq<ChildPlan>) returns (picks: seq<nat>)
    ensures Preceding(given, child, picks, DepsForChild(child, given))
  {
    picks := [];
    if given != [] {
      var front, last := given[..|given| - 1], given[|given| - 1];
      assert given == front + [last];
      picks := DepsArePreceding(child, front);
      PrecedingSnoc(front, last, child, picks, DepsForChild(child, front));
      picks := picks + (if MustPrecede(last, child) then [|front|] else []);
    }
  }

  /** The graph before its shares are rescaled: injected children first, each original
      child gaining edges to the injected ones that must precede it. */
  function Augment(children: seq<ChildPlan>, injected: seq<ChildPlan>): (r: seq<ChildPlan>)
    ensures |r| == |injected| + |children|
  {
    injected + seq(|children|, i requires 0 <= i < |children| =>
      children[i].(dependsOn := children[i].dependsOn + DepsForChild(children[i], injected)))
  }

  // ----- The augmented split, field by field -----

  /** An original child with dependencies added at the end, for those that must precede it. */
  ghost predicate GainsDependencies(given: seq<ChildPlan>, child: ChildPlan, augmented: ChildPlan) {
    exists picks, ids ::
      Preceding(given, child, picks, ids)
      && augmented == ChildPlan(child.localId, child.goalType, child.title, child.dependsOn + ids, child.scope,
           augmented.budgetShare)
  }

  /** The augmented split: first the minted and the refresh children, each without dependencies,
      then the original ones, each with dependencies added for those that must precede it.
      Nothing else changes but the shares. */
  ghost predicate PutInFront(given: seq<ChildPlan>, children: seq<ChildPlan>, augmented: seq<ChildPlan>) {
    && |augmented| == |given| + |children|
    && (forall m: nat | m < |given| ::
          augmented[m] == ChildPlan(given[m].localId, given[m].goalType, given[m].title, [], given[m].scope,
            augmented[m].budgetShare))
    && (forall i: nat | i < |children| :: GainsDependencies(given, children[i], augmented[|given| + i]))
  }

  /** The shares of the augmented split: those given, divided by their total when it exceeds one. */
  predicate SharesAfter(given: seq<ChildPlan>, children: seq<ChildPlan>, augmented: seq<ChildPlan>) {
    var total := TotalShare(given + children);
    Proportional(given + children, augmented, if total <= 1.0 then 1.0 else total)
  }

  lemma {:induction false} SameSharesSameTotal(one: seq<ChildPlan>, other: seq<ChildPlan>)
    requires |one| == |other| && forall q: nat | q < |one| :: one[q].budgetShare == other[q].budgetShare
    ensures TotalShare(one) == TotalShare(other)
  {
    if one != [] { SameSharesSameTotal(one[..|one| - 1], other[..|other| - 1]); }
  }

  lemma {:induction false} DependenciesIgnored(one: seq<ChildPlan>, other: seq<ChildPlan>, child: ChildPlan)
    requires |one| == |other| && forall m: nat | m < |one| :: one[m].scope == other[m].scope
    ensures MustBeFirst(one, child) == MustBeFirst(other, child)
  {
    forall m: nat | m < |one|
      ensures MustPrecede(one[m], child) == MustPrecede(other[m], child)
    {
    }
  }

  lemma {:induction false} AugmentPutsInFront(children: seq<ChildPlan>, minted: seq<ChildPlan>, refresh: seq<ChildPlan>)
    ensures var injected := WithoutDependencies(minted) + WithoutDependencies(refresh);
      PutInFront(minted + refresh, children, Augment(children, injected))
  {
    var given := minted + refresh;
    var injected := WithoutDependencies(minted) + WithoutDependencies(refresh);
    forall i: nat | i < |children|
      ensures GainsDependencies(given, children[i], Augment(children, injected)[|given| + i])
    {
      var picks := DepsArePreceding(children[i], injected);
      DependenciesIgnored(injected, given, children[i]);
      assert Preceding(given, children[i], picks, DepsForChild(children[i], injected));
    }
  }

  lemma {:induction false} SharesDoNotMatter(
    given: seq<ChildPlan>, children: seq<ChildPlan>, raw: seq<ChildPlan>, augmented: seq<ChildPlan>)
    requires PutInFront(given, children, raw) && OnlySharesDiffer(raw, augmented)
    ensures PutInFront(given, children, augmented)
  {
    forall i: nat | i < |children|
      ensures GainsDependencies(given, children[i], augmented[|given| + i])
    {
      assert GainsDependencies(given, children[i], raw[|given| + i]);
      var picks, ids :| Preceding(given, children[i], picks, ids)
        && raw[|given| + i].dependsOn == children[i].dependsOn + ids;
      assert augmented[|given| + i] == raw[|given| + i].(budgetShare := augmented[|given| + i].budgetShare);
    }
  }

  lemma {:induction false} SameProportions(
    one: seq<ChildPlan>, other: seq<ChildPlan>, r: seq<ChildPlan>, total: real)
    requires |one| == |other| && forall q: nat | q < |one| :: one[q].budgetShare == other[q].budgetShare
    requires Proportional(one, r, total)
    ensures Proportional(other, r, total)
  {
  }

  lemma {:induction false} AugmentedShares(
    given: seq<ChildPlan>, children: seq<ChildPlan>, raw: seq<ChildPlan>)
    requires |raw| == |given + children|
    requires forall q: nat | q < |raw| :: raw[q].budgetShare == (given + children)[q].budgetShare
    ensures SharesAfter(given, children, RenormalizeShares(raw))
  {
    SameSharesSameTotal(raw, given + children);
    var total := TotalShare(raw);
    if total > 1.0 { ScaleIsProportional(raw, total); }
    SameProportions(raw, given + children, RenormalizeShares(raw), if total <= 1.0 then 1.0 else total);
  }

  lemma {:induction false} RescaledWrittenOut(given: seq<ChildPlan>, children: seq<ChildPlan>, raw: seq<ChildPlan>)
    requires PutInFront(given, children, raw)
    requires forall q: nat | q < |raw| :: raw[q].budgetShare == (given + children)[q].budgetShare
    ensures PutInFront(given, children, RenormalizeShares(raw)) && SharesAfter(given, children, RenormalizeShares(raw))
  {
    RenormalizedShares(raw);
    SharesDoNotMatter(given, children, raw, RenormalizeShares(raw));
    AugmentedShares(given, children, raw);
  }

  lemma {:induction false} AugmentKeepsShares(
    children: seq<ChildPlan>, minted: seq<ChildPlan>, refresh: seq<ChildPlan>, raw: seq<ChildPlan>)
    requires raw == Augment(children, WithoutDependencies(minted) + WithoutDependencies(refresh))
    ensures |raw| == |minted + refresh + children|
    ensures forall q: nat | q < |raw| :: raw[q].budgetShare == (minted + refresh + children)[q].budgetShare
  {
  }

  /** What injection makes of a split, in the terms of the children given to it. */
  lemma {:induction false} AugmentedWrittenOut(
    children: seq<ChildPlan>, minted: seq<ChildPlan>, refresh: seq<ChildPlan>, raw: seq<ChildPlan>)
    requires raw == Augment(children, WithoutDependencies(minted) + WithoutDependencies(refresh))
    ensures PutInFront(minted + refresh, children, RenormalizeShares(raw))
    ensures SharesAfter(minted + refresh, children, RenormalizeShares(raw))
  {
    AugmentPutsInFront(children, minted, refresh);
    AugmentKeepsShares(children, minted, refresh, raw);
    RescaledWrittenOut(minted + refresh, children, raw);
  }

  datatype Injection = Injected(children: seq<ChildPlan>) | Invalid(error: SplitError)

  /** `injectCoverageChildren`; `minted` is what the comprehension minter returned for the
      missing requirements, empty when nothing is missing. */
  method InjectCoverageChildren(
    children: seq<ChildPlan>, minted: seq<ChildPlan>, refresh: seq<ChildPlan>, typeError: ChildPlan -> Option<string>)
    returns (r: Injection)
    ensures var injected := WithoutDependencies(minted) + WithoutDependencies(refresh);
            var augmented := RenormalizeShares(Augment(children, injected));
            && (injected == [] ==> r == Injected(children))
            && (injected != [] && ValidSplit(augmented, typeError) ==> r == Injected(augmented))
            && (injected != [] && !ValidSplit(augmented, typeError) ==> r.Invalid?)
    ensures r.Injected? && minted + refresh != [] ==>
      PutInFront(minted + refresh, children, r.children) && SharesAfter(minted + refresh, children, r.children)
  {
    var injected := WithoutDependencies(minted) + WithoutDependencies(refresh);
    if |injected| == 0 {
      return Injected(children);
    }
    var augmented := RenormalizeShares(Augment(children, injected));
    AugmentedWrittenOut(children, minted, refresh, Augment(children, injected));
    var error := ValidateSplit(augmented, typeError);
    return if error.Some? then Invalid(error.value) else Injected(augmented);
  }

  // ----- What injection does to the graph -----

  /** Same graph: equal ids, dependencies and scopes, position by position. */
  ghost predicate SameGraph(one: seq<ChildPlan>, other: seq<ChildPlan>) {
    && |one| == |other|
    && forall i :: 0 <= i < |one| ==>
         one[i].localId == other[i].localId && one[i].dependsOn == other[i].dependsOn && one[i].scope == other[i].scope
  }

  /** The injected ids are new and distinct. */
  ghost predicate Fresh(children: seq<ChildPlan>, injected: seq<ChildPlan>) {
    && UniqueIds(injected)
    && forall m, i :: 0 <= m < |injected| && 0 <= i < |children| ==> injected[m].localId != children[i].localId
  }

  ghost predicate NoDependencies(injected: seq<ChildPlan>) {
    forall m :: 0 <= m < |injected| ==> injected[m].dependsOn == []
  }

  lemma {:induction false} AugmentedIds(children: seq<ChildPlan>, injected: seq<ChildPlan>, augmented: seq<ChildPlan>)
    requires UniqueIds(children) && Fresh(children, injected) && SameGraph(augmented, Augment(children, injected))
    ensures UniqueIds(augmented)
  {
  }

  /** Original edges are kept, and no edge between originals is added. */
  lemma {:induction false} OriginalEdges(
    children: seq<ChildPlan>, injected: seq<ChildPlan>, augmented: seq<ChildPlan>, i: nat, j: nat)
    requires UniqueIds(children) && Fresh(children, injected) && SameGraph(augmented, Augment(children, injected))
    requires i < |children| && j < |children|
    ensures children[i].dependsOn <= augmented[|injected| + i].dependsOn
    ensures Edge(augmented, |injected| + i, |injected| + j) <==> Edge(children, i, j)
  {
    DepsForChildAre(children[i], injected, children[j].localId);
  }

  /** An original child gains an edge exactly to the injected children with an empty scope, or
      with a path that, segment by segment and trailing slashes apart, is an ancestor of one of
      its own paths, or below one, or equal to it; a child without a scope to all of them. */
  lemma {:induction false} InjectedEdges(
    children: seq<ChildPlan>, injected: seq<ChildPlan>, augmented: seq<ChildPlan>, i: nat, m: nat)
    requires Closed(children) && Fresh(children, injected) && SameGraph(augmented, Augment(children, injected))
    requires i < |children| && m < |injected|
    ensures Edge(augmented, |injected| + i, m) <==> MustPrecede(injected[m], children[i])
    ensures Edge(augmented, |injected| + i, m) <==>
      injected[m].scope == [] || children[i].scope == []
      || exists left, right | left in children[i].scope && right in injected[m].scope :: Related(left, right)
  {
    OverlapIsAncestry(children[i].scope, injected[m].scope);
    DepsForChildAre(children[i], injected, injected[m].localId);
    forall n | 0 <= n < |injected| && injected[n].localId == injected[m].localId
      ensures n == m
    {
    }
  }

  /** Every edge of the augmented graph runs between originals or to an injected child. */
  lemma {:induction false} AugmentedEdge(
    children: seq<ChildPlan>, injected: seq<ChildPlan>, augmented: seq<ChildPlan>, p: nat, q: nat)
    requires UniqueIds(children) && Fresh(children, injected) && NoDependencies(injected)
    requires SameGraph(augmented, Augment(children, injected))
    requires p < |augmented| && q < |augmented| && Edge(augmented, p, q)
    ensures p >= |injected|
    ensures q >= |injected| ==> Edge(children, p - |injected|, q - |injected|)
  {
    if p >= |injected| && q >= |injected| {
      OriginalEdges(children, injected, augmented, p - |injected|, q - |injected|);
    }
  }

  lemma {:induction false} AugmentedRank(
    children: seq<ChildPlan>, injected: seq<ChildPlan>, augmented: seq<ChildPlan>, rank: seq<nat>)
    requires UniqueIds(children) && Fresh(children, injected) && NoDependencies(injected)
    requires SameGraph(augmented, Augment(children, injected)) && IsRank(children, rank)
    ensures Acyclic(augmented)
  {
    var longer := seq(|injected|, _ => 0) + seq(|children|, i requires 0 <= i < |children| => rank[i] + 1);
    forall p, q | 0 <= p < |augmented| && 0 <= q < |augmented| && Edge(augmented, p, q)
      ensures longer[q] < longer[p]
    {
      AugmentedEdge(children, injected, augmented, p, q);
    }
    assert IsRank(augmented, longer);
  }

  lemma {:induction false} AugmentedIsClosed(
    children: seq<ChildPlan>, injected: seq<ChildPlan>, augmented: seq<ChildPlan>)
    requires UniqueIds(children) && Closed(children) && Fresh(children, injected) && NoDependencies(injected)
    requires SameGraph(augmented, Augment(children, injected))
    ensures Closed(augmented)
  {
    AugmentedIds(children, injected, augmented);
    forall p, k | 0 <= p < |augmented| && 0 <= k < |augmented[p].dependsOn|
      ensures IndexOf(augmented, augmented[p].dependsOn[k]).Some?
    {
      var id := augmented[p].dependsOn[k];
      assert p >= |injected|;
      var i := p - |injected|;
      if k < |children[i].dependsOn| {
        var j := IndexOf(children, children[i].dependsOn[k]).value;
        assert augmented[|injected| + j].localId == id;
      } else {
        assert id in DepsForChild(children[i], injected);
        DepsForChildAre(children[i], injected, id);
        var m :| 0 <= m < |injected| && MustPrecede(injected[m], children[i]) && injected[m].localId == id;
        assert augmented[m].localId == id;
      }
    }
  }

  /** With fresh distinct ids, injecting into a runnable split can only be refused for the
      type of some child: names, shares, references and acyclicity survive. */
  lemma {:induction false} InjectionStaysRunnable(
    children: seq<ChildPlan>, injected: seq<ChildPlan>, typeError: ChildPlan -> Option<string>)
    requires ValidSplit(children, typeError) && Fresh(children, injected) && NoDependencies(injected)
    ensures var augmented := RenormalizeShares(Augment(children, injected));
            && SameGraph(augmented, Augment(children, injected))
            && UniqueIds(augmented) && Closed(augmented) && Acyclic(augmented)
            && (ValidSplit(augmented, typeError) <==> forall c :: c in augmented ==> typeError(c).None?)
  {
    var augmented := RenormalizeShares(Augment(children, injected));
    RenormalizedShares(Augment(children, injected));
    AugmentedIds(children, injected, augmented);
    AugmentedIsClosed(children, injected, augmented);
    var rank :| IsRank(children, rank);
    AugmentedRank(children, injected, augmented, rank);
  }

  lemma {:induction false} InjectedIsReached(
    children: seq<ChildPlan>, injected: seq<ChildPlan>, r: SplitScheduler.Round, p: nat, m: nat)
    requires Closed(children) && Fresh(children, injected) && SameGraph(r.children, Augment(children, injected))
    requires |injected| <= p < |r.children| && m < |injected| && SplitScheduler.Resolved(r, p)
    requires MustPrecede(injected[m], children[p - |injected|])
    ensures SplitReach.Reaches(r, p, m)
  {
    InjectedEdges(children, injected, r.children, p - |injected|, m);
    SplitReach.WaitsReaches(r, p, m);
  }

  lemma {:induction false} InjectedAreHeard(
    children: seq<ChildPlan>, injected: seq<ChildPlan>, r: SplitScheduler.Round, s: SplitScheduler.State,
    p: nat, m: nat)
    requires Closed(children) && Fresh(children, injected) && SameGraph(r.children, Augment(children, injected))
    requires |s.phases| == |r.children| && SplitFacts.ReadsFit(r, s)
    requires |injected| <= p < |r.children| && m < |injected| && SplitRuns.Started(s.phases[p])
    requires MustPrecede(injected[m], children[p - |injected|])
    ensures SplitFacts.HasHeard(s, p, m)
  {
    assert SplitFacts.ReadFits(r, s, p);
    InjectedIsReached(children, injected, r, p, m);
  }

  /** Scheduled, the gate does what it is for: in every run of the augmented split, an
      original child that has started did so after every injected child that must precede it
      had reported, and has read all the facts that child persists. */
  lemma {:induction false} CoverageComesFirst(
    children: seq<ChildPlan>, injected: seq<ChildPlan>, r: SplitScheduler.Round, env: SplitScheduler.Env,
    schedule: seq<nat>, s: SplitScheduler.State, p: nat, m: nat)
    requires Closed(children) && Fresh(children, injected)
    requires SplitScheduler.ValidRound(r) && SameGraph(r.children, Augment(children, injected))
    requires SplitScheduler.Legal(r, env, schedule) && s == SplitScheduler.Exec(r, env, schedule)
    requires |injected| <= p < |r.children| && m < |injected| && SplitRuns.Started(s.phases[p])
    requires MustPrecede(injected[m], children[p - |injected|])
    ensures SplitFacts.HasHeard(s, p, m)
  {
    SplitFacts.EveryRunKeepsReads(r, env, schedule);
    InjectedAreHeard(children, injected, r, s, p, m);
  }

  // ----- Facts from injected dives -----

  /** A dive is read by children that wait for it: a region of the candidate's scope that is
      relevant to a child makes the candidate precede it, unless the region is the whole
      repository. */
  lemma {:induction false} RelevantMustPrecede(candidate: ChildPlan, child: ChildPlan, region: string)
    requires region in candidate.scope && Norm(region) != "" && Knowledge.RelevantTo(child.scope)(region)
    ensures MustPrecede(candidate, child)
  {
    if child.scope != [] {
      var path :| path in child.scope && PathsOverlap(path, region);
      assert ScopesOverlap(child.scope, candidate.scope);
    }
  }

  /** A dive of the whole repository is relevant to every child, but precedes none whose
      paths are relative. */
  lemma {:induction false} WholeRepositoryDiveIsUnordered(candidate: ChildPlan, child: ChildPlan)
    requires candidate.scope == [""] && child.scope != []
    requires forall path :: path in child.scope ==> Norm(path) != "" && Norm(path)[0] != '/'
    ensures Knowledge.RelevantTo(child.scope)("") && !MustPrecede(candidate, child)
  {
    forall path | path in child.scope
      ensures !PathsOverlap(path, "")
    {
      assert ("" + "/")[0] == '/';
    }
  }

  /** The run of child `p` persists facts only about regions of its scope. */
  ghost predicate TellsItsScope(r: SplitScheduler.Round, env: SplitScheduler.Env, p: nat)
    requires p < |r.goals| == |r.children|
  {
    forall memories, f | f in env.persists(r.goals[p].(memories := memories)) ::
      f.region in r.children[p].scope && Norm(f.region) != ""
  }

  ghost predicate TellsNothing(r: SplitScheduler.Round, env: SplitScheduler.Env, p: nat)
    requires p < |r.goals|
  {
    forall memories :: env.persists(r.goals[p].(memories := memories)) == []
  }

  /** A round of an augmented split: goals have the scopes of their plans, the injected
      children tell about their own scopes, and the original ones tell nothing. */
  ghost predicate DiveRound(
    children: seq<ChildPlan>, injected: seq<ChildPlan>, r: SplitScheduler.Round, env: SplitScheduler.Env)
  {
    && SplitScheduler.ValidRound(r) && SameGraph(r.children, Augment(children, injected))
    && (forall p | 0 <= p < |r.children| :: r.goals[p].scope == r.children[p].scope)
    && (forall m | 0 <= m < |injected| :: TellsItsScope(r, env, m))
    && (forall p | |injected| <= p < |r.children| :: TellsNothing(r, env, p))
  }

  /** The injected scopes are disjoint, and every original child overlaps at most one. */
  ghost predicate OneDiveEach(children: seq<ChildPlan>, injected: seq<ChildPlan>) {
    && (forall m, n | 0 <= m < |injected| && 0 <= n < |injected| && m != n :: !MustPrecede(injected[m], injected[n]))
    && (forall i, m, n |
          0 <= i < |children| && 0 <= m < |injected| && 0 <= n < |injected|
          && MustPrecede(injected[m], children[i]) && MustPrecede(injected[n], children[i]) :: m == n)
  }

  lemma {:induction false} TellerPrecedes(
    children: seq<ChildPlan>, injected: seq<ChildPlan>, r: SplitScheduler.Round, env: SplitScheduler.Env,
    j: nat, p: nat)
    requires DiveRound(children, injected, r, env) && j < |r.children| && p < |r.children|
    requires SplitFacts.MayTell(r, env, j, p)
    ensures j < |injected| && MustPrecede(injected[j], Augment(children, injected)[p])
  {
    assert j >= |injected| ==> TellsNothing(r, env, j);
    var f :| SplitFacts.MaySay(r, env, j, f) && Knowledge.RelevantTo(r.goals[p].scope)(f.region);
    var memories :| f in env.persists(r.goals[j].(memories := memories));
    if j < |injected| {
      assert TellsItsScope(r, env, j);
      RelevantMustPrecede(injected[j], Augment(children, injected)[p], f.region);
    }
  }

  lemma {:induction false} DiveIsOnlyTeller(
    children: seq<ChildPlan>, injected: seq<ChildPlan>, r: SplitScheduler.Round, env: SplitScheduler.Env, p: nat)
    requires Closed(children) && Fresh(children, injected) && OneDiveEach(children, injected)
    requires DiveRound(children, injected, r, env) && p < |r.children| && SplitScheduler.Resolved(r, p)
    ensures SplitFacts.TellersInOrder(r, env, p)
  {
    forall j: nat | SplitFacts.Tells(r, env, j, p)
      ensures j < |injected| <= p && MustPrecede(injected[j], children[p - |injected|])
      ensures SplitReach.Reaches(r, p, j)
    {
      TellerPrecedes(children, injected, r, env, j, p);
      if p >= |injected| {
        assert MustPrecede(injected[j], children[p - |injected|]);
        InjectedIsReached(children, injected, r, p, j);
      }
    }
  }

  /** What the gate is for, once more: when the injected dives are disjoint and no child
      overlaps two of them, the outcome of the augmented split does not depend on its
      schedule. */
  lemma {:induction false} CoverageFixesTheOutcome(
    children: seq<ChildPlan>, injected: seq<ChildPlan>, r: SplitScheduler.Round, env: SplitScheduler.Env)
    requires Closed(children) && Fresh(children, injected) && OneDiveEach(children, injected)
    requires DiveRound(children, injected, r, env) && Acyclic(r.children)
    ensures SplitRace.Fixed(r, env)
  {
    forall p: nat | p < |r.children| && SplitScheduler.Resolved(r, p)
      ensures SplitFacts.TellersInOrder(r, env, p)
    {
      DiveIsOnlyTeller(children, injected, r, env, p);
    }
    SplitRace.OrderFixes(r, env);
  }

  // ----- Exactly when the gate fixes the outcome -----

  /** The run of dive `m` makes claims about its one region, whatever it is given. */
  ghost predicate TellsItsRegion(injected: seq<ChildPlan>, r: SplitScheduler.Round, env: SplitScheduler.Env, m: nat)
    requires m < |injected| && m < |r.goals|
  {
    && |injected[m].scope| == 1 && Norm(injected[m].scope[0]) != ""
    && forall memories ::
         var found := env.persists(r.goals[m].(memories := memories));
         found != [] && forall f | f in found :: f.region == injected[m].scope[0] && f.claims != []
  }

  /** Dives of different regions that were unknown before; nobody else persists facts. */
  ghost predicate RegionDives(
    children: seq<ChildPlan>, injected: seq<ChildPlan>, r: SplitScheduler.Round, env: SplitScheduler.Env)
  {
    && SplitScheduler.ValidRound(r) && SameGraph(r.children, Augment(children, injected))
    && (forall p | 0 <= p < |r.children| :: r.goals[p].scope == r.children[p].scope)
    && (forall m | 0 <= m < |injected| ::
          TellsItsRegion(injected, r, env, m) && !Knowledge.Views(env.known, injected[m].scope[0]))
    && (forall m, n | 0 <= m < |injected| && 0 <= n < |injected| && m != n ::
          injected[m].scope[0] != injected[n].scope[0])
    && (forall p | |injected| <= p < |r.children| :: TellsNothing(r, env, p))
  }

  lemma {:induction false} RegionDivesAreDives(
    children: seq<ChildPlan>, injected: seq<ChildPlan>, r: SplitScheduler.Round, env: SplitScheduler.Env)
    requires RegionDives(children, injected, r, env)
    ensures DiveRound(children, injected, r, env)
  {
    forall m | 0 <= m < |injected|
      ensures TellsItsScope(r, env, m)
    {
      assert TellsItsRegion(injected, r, env, m);
    }
  }

  lemma {:induction false} OnlyDivesSay(
    children: seq<ChildPlan>, injected: seq<ChildPlan>, r: SplitScheduler.Round, env: SplitScheduler.Env,
    j: nat, f: Knowledge.RegionFacts)
    requires RegionDives(children, injected, r, env) && j < |r.children| && SplitFacts.MaySay(r, env, j, f)
    ensures j < |injected| && f.region == injected[j].scope[0] && f.claims != []
    ensures !Knowledge.Views(env.known, f.region)
  {
    assert j >= |injected| ==> TellsNothing(r, env, j);
    var memories :| f in env.persists(r.goals[j].(memories := memories));
    assert j < |injected| ==> TellsItsRegion(injected, r, env, j);
  }

  lemma {:induction false} RelevantIff(candidate: ChildPlan, child: ChildPlan, region: string)
    requires candidate.scope == [region] && Norm(region) != ""
    ensures Knowledge.RelevantTo(child.scope)(region) <==> MustPrecede(candidate, child)
  {
    assert forall right :: right in candidate.scope <==> right == region;
  }

  lemma {:induction false} DiveTellsIff(
    children: seq<ChildPlan>, injected: seq<ChildPlan>, r: SplitScheduler.Round, env: SplitScheduler.Env,
    m: nat, p: nat)
    requires RegionDives(children, injected, r, env) && m < |injected| && p < |r.children|
    ensures SplitFacts.MayTell(r, env, m, p) <==> MustPrecede(injected[m], Augment(children, injected)[p])
    ensures SplitFacts.MayTell(r, env, m, p) ==> SplitRace.AlwaysTells(r, env, m, p)
  {
    var region := injected[m].scope[0];
    assert TellsItsRegion(injected, r, env, m);
    assert injected[m].scope == [region];
    RelevantIff(injected[m], Augment(children, injected)[p], region);
    if SplitFacts.MayTell(r, env, m, p) {
      var f :| SplitFacts.MaySay(r, env, m, f) && Knowledge.RelevantTo(r.goals[p].scope)(f.region);
      OnlyDivesSay(children, injected, r, env, m, f);
    }
    if Knowledge.RelevantTo(r.goals[p].scope)(region) {
      DiveTells(injected, r, env, m, p);
    }
  }

  lemma {:induction false} DiveTells(
    injected: seq<ChildPlan>, r: SplitScheduler.Round, env: SplitScheduler.Env, m: nat, p: nat)
    requires m < |injected| && m < |r.goals| && p < |r.goals| && TellsItsRegion(injected, r, env, m)
    requires Knowledge.RelevantTo(r.goals[p].scope)(injected[m].scope[0])
    ensures SplitFacts.MayTell(r, env, m, p) && SplitRace.AlwaysTells(r, env, m, p)
  {
    forall memories
      ensures SplitRace.SaysSome(r, env, r.goals[m].(memories := memories), p)
    {
      var found := env.persists(r.goals[m].(memories := memories));
      assert found[0] in found;
    }
    var goal := r.goals[m].(memories := []);
    assert env.persists(goal)[0] in env.persists(goal);
    assert SplitFacts.MaySay(r, env, m, env.persists(goal)[0]);
  }

  lemma {:induction false} DivesOwnTheirRegions(
    children: seq<ChildPlan>, injected: seq<ChildPlan>, r: SplitScheduler.Round, env: SplitScheduler.Env, p: nat)
    requires RegionDives(children, injected, r, env) && p < |r.children|
    ensures SplitRace.OwnRegions(r, env, p)
  {
    forall j: nat, f | j < |r.goals| && SplitFacts.MaySay(r, env, j, f)
      ensures j < |injected| && f.region == injected[j].scope[0] && f.claims != []
      ensures !Knowledge.Views(env.known, f.region)
    {
      OnlyDivesSay(children, injected, r, env, j, f);
    }
    forall j: nat | j < |r.goals| && SplitFacts.MayTell(r, env, j, p)
      ensures SplitRace.AlwaysTells(r, env, j, p)
    {
      DiveTellsIff(children, injected, r, env, j, p);
    }
  }

  lemma {:induction false} InjectedWaitForNobody(
    children: seq<ChildPlan>, injected: seq<ChildPlan>, r: SplitScheduler.Round, m: nat, j: nat)
    requires NoDependencies(injected) && SameGraph(r.children, Augment(children, injected)) && m < |injected|
    ensures SplitScheduler.Resolved(r, m) && !SplitReach.Reaches(r, m, j)
  {
    assert r.children[m].dependsOn == injected[m].dependsOn == [];
    SplitReach.AwaitsNobody(r, m, j);
  }

  lemma {:induction false} PrecedingDiveTells(
    children: seq<ChildPlan>, injected: seq<ChildPlan>, r: SplitScheduler.Round, env: SplitScheduler.Env,
    m: nat, p: nat)
    requires RegionDives(children, injected, r, env) && NoDependencies(injected)
    requires m < |injected| && p < |r.children| && m != p
    requires MustPrecede(injected[m], Augment(children, injected)[p])
    ensures SplitFacts.Tells(r, env, m, p)
  {
    DiveTellsIff(children, injected, r, env, m, p);
    InjectedWaitForNobody(children, injected, r, m, p);
  }

  lemma {:induction false} OrderMeansOneDive(
    children: seq<ChildPlan>, injected: seq<ChildPlan>, r: SplitScheduler.Round, env: SplitScheduler.Env)
    requires RegionDives(children, injected, r, env) && NoDependencies(injected)
    requires Closed(r.children) && SplitFacts.AllInOrder(r, env)
    ensures OneDiveEach(children, injected)
  {
    forall m, n | 0 <= m < |injected| && 0 <= n < |injected| && m != n
      ensures !MustPrecede(injected[m], injected[n])
    {
      InjectedWaitForNobody(children, injected, r, n, m);
      assert SplitFacts.TellersInOrder(r, env, n);
      if MustPrecede(injected[m], injected[n]) { PrecedingDiveTells(children, injected, r, env, m, n); }
    }
    forall i, m, n |
      0 <= i < |children| && 0 <= m < |injected| && 0 <= n < |injected|
      && MustPrecede(injected[m], children[i]) && MustPrecede(injected[n], children[i])
      ensures m == n
    {
      var p := |injected| + i;
      PrecedingDiveTells(children, injected, r, env, m, p);
      PrecedingDiveTells(children, injected, r, env, n, p);
      SplitRace.ClosedIsResolved(r, p);
      assert SplitFacts.TellersInOrder(r, env, p);
      InjectedWaitForNobody(children, injected, r, m, n);
      InjectedWaitForNobody(children, injected, r, n, m);
    }
  }

  /** For dives of single regions, the outcome of the augmented split is the same in all complete
      runs, whatever the children's runs do, exactly when the dives are disjoint and no child
      overlaps two of them. */
  lemma {:induction false} CoverageFixesTheOutcomeIff(
    children: seq<ChildPlan>, injected: seq<ChildPlan>, r: SplitScheduler.Round, env: SplitScheduler.Env)
    requires UniqueIds(children) && Closed(children) && Acyclic(children)
    requires Fresh(children, injected) && NoDependencies(injected) && RegionDives(children, injected, r, env)
    ensures (forall run :: SplitRace.Fixed(r, env.(runChild := run))) <==> OneDiveEach(children, injected)
  {
    var rank :| IsRank(children, rank);
    AugmentedRank(children, injected, r.children, rank);
    AugmentedIsClosed(children, injected, r.children);
    forall p: nat | p < |r.children|
      ensures SplitRace.OwnRegions(r, env, p)
    {
      DivesOwnTheirRegions(children, injected, r, env, p);
    }
    SplitRace.OutcomeIsFixedIff(r, env);
    if OneDiveEach(children, injected) {
      RegionDivesAreDives(children, injected, r, env);
      forall p: nat | p < |r.children| && SplitScheduler.Resolved(r, p)
        ensures SplitFacts.TellersInOrder(r, env, p)
      {
        DiveIsOnlyTeller(children, injected, r, env, p);
      }
    }
    if SplitFacts.AllInOrder(r, env) { OrderMeansOneDive(children, injected, r, env); }
  }
}
