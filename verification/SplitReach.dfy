/** Waiting through other children, and runs in which only some of the children move. */
module SplitReach {
  import opened Contract
  import opened SplitGraph
  import opened Knowledge
  import opened SplitScheduler
  import opened SplitRuns

  // ----- Who waits for whom, directly or through others -----

  /** Child `i` awaits child `j`; one that names an unknown sibling awaits nobody. */
  predicate Waits(r: Round, i: nat, j: nat) {
    i < |r.children| && j < |r.children| && Resolved(r, i) && Edge(r.children, i, j)
  }

  /** Child `i` waits for child `j` through `n` others. */
  ghost predicate WaitsThrough(r: Round, i: nat, j: nat, n: nat)
    decreases n
  {
    if n == 0 then Waits(r, i, j) else exists k: nat :: Waits(r, i, k) && WaitsThrough(r, k, j, n - 1)
  }

  ghost predicate Reaches(r: Round, i: nat, j: nat) {
    exists n: nat :: WaitsThrough(r, i, j, n)
  }

  lemma {:induction false} WaitsReaches(r: Round, i: nat, j: nat)
    requires Waits(r, i, j)
    ensures Reaches(r, i, j)
  {
    assert WaitsThrough(r, i, j, 0);
  }

  lemma {:induction false} AwaitsNobody(r: Round, i: nat, j: nat)
    requires i < |r.children| && r.children[i].dependsOn == []
    ensures !Reaches(r, i, j)
  {
    assert forall k: nat :: !Waits(r, i, k);
  }

  lemma {:induction false} ReachesNext(r: Round, i: nat, k: nat, j: nat)
    requires Waits(r, i, k) && Reaches(r, k, j)
    ensures Reaches(r, i, j)
  {
    var n: nat :| WaitsThrough(r, k, j, n);
    assert WaitsThrough(r, i, j, n + 1);
  }

  lemma {:induction false} ReachesFirst(r: Round, i: nat, j: nat) returns (k: nat)
    requires Reaches(r, i, j)
    ensures Waits(r, i, k) && (k == j || Reaches(r, k, j))
  {
    var n: nat :| WaitsThrough(r, i, j, n);
    if n == 0 { k := j; } else { k :| Waits(r, i, k) && WaitsThrough(r, k, j, n - 1); }
  }

  lemma {:induction false} ThroughTransitive(r: Round, i: nat, k: nat, j: nat, n: nat)
    requires WaitsThrough(r, i, k, n) && Reaches(r, k, j)
    ensures Reaches(r, i, j)
    decreases n
  {
    if n == 0 {
      ReachesNext(r, i, k, j);
    } else {
      var l: nat :| Waits(r, i, l) && WaitsThrough(r, l, k, n - 1);
      ThroughTransitive(r, l, k, j, n - 1);
      ReachesNext(r, i, l, j);
    }
  }

  lemma {:induction false} ReachesTransitive(r: Round, i: nat, k: nat, j: nat)
    requires Reaches(r, i, k) && Reaches(r, k, j)
    ensures Reaches(r, i, j)
  {
    var n: nat :| WaitsThrough(r, i, k, n);
    ThroughTransitive(r, i, k, j, n);
  }

  lemma {:induction false} RankFallsThrough(r: Round, rank: seq<nat>, i: nat, j: nat, n: nat)
    requires IsRank(r.children, rank) && WaitsThrough(r, i, j, n)
    ensures i < |r.children| && j < |r.children| && rank[j] < rank[i]
    decreases n
  {
    if n > 0 {
      var k: nat :| Waits(r, i, k) && WaitsThrough(r, k, j, n - 1);
      RankFallsThrough(r, rank, k, j, n - 1);
    }
  }

  lemma {:induction false} RankFalls(r: Round, rank: seq<nat>, i: nat, j: nat)
    requires IsRank(r.children, rank) && Reaches(r, i, j)
    ensures i < |r.children| && j < |r.children| && rank[j] < rank[i]
  {
    var n: nat :| WaitsThrough(r, i, j, n);
    RankFallsThrough(r, rank, i, j, n);
  }

  lemma {:induction false} ReacherIsResolved(r: Round, i: nat, j: nat)
    requires Reaches(r, i, j)
    ensures i < |r.children| && Resolved(r, i)
  {
    var n: nat :| WaitsThrough(r, i, j, n);
  }

  lemma {:induction false} WalkReaches(r: Round, walk: seq<nat>)
    requires Closed(r.children) && IsWalk(r.children, walk) && |walk| >= 2
    ensures Reaches(r, walk[0], walk[|walk| - 1])
  {
    assert Edge(r.children, walk[0], walk[0 + 1]);
    assert Resolved(r, walk[0]);
    if |walk| == 2 {
      WaitsReaches(r, walk[0], walk[1]);
    } else {
      var rest := walk[1..];
      forall k | 0 <= k < |rest| - 1
        ensures Edge(r.children, rest[k], rest[k + 1])
      {
        assert Edge(r.children, walk[k + 1], walk[k + 1 + 1]);
      }
      WalkReaches(r, rest);
      ReachesNext(r, walk[0], walk[1], walk[|walk| - 1]);
    }
  }

  ghost predicate Leads(r: Round, walk: seq<nat>, i: nat, j: nat) {
    |walk| >= 2 && IsWalk(r.children, walk) && walk[0] == i && walk[|walk| - 1] == j
  }

  lemma {:induction false} ThroughIsWalk(r: Round, i: nat, j: nat, n: nat) returns (walk: seq<nat>)
    requires WaitsThrough(r, i, j, n)
    ensures Leads(r, walk, i, j)
    decreases n
  {
    if n == 0 {
      walk := [i, j];
    } else {
      var k: nat :| Waits(r, i, k) && WaitsThrough(r, k, j, n - 1);
      var rest := ThroughIsWalk(r, k, j, n - 1);
      walk := [i] + rest;
      forall p | 0 <= p < |walk| - 1
        ensures Edge(r.children, walk[p], walk[p + 1])
      {
        if p > 0 { assert Edge(r.children, rest[p - 1], rest[p - 1 + 1]); }
      }
    }
  }

  /** In a closed round, waiting for somebody is having a walk along the dependencies there. */
  lemma {:induction false} ReachesIsWalking(r: Round, i: nat, j: nat)
    requires Closed(r.children)
    ensures Reaches(r, i, j) <==> exists walk :: Leads(r, walk, i, j)
  {
    if n: nat :| WaitsThrough(r, i, j, n) {
      var walk := ThroughIsWalk(r, i, j, n);
      assert Leads(r, walk, i, j);
    }
    if walk :| Leads(r, walk, i, j) { WalkReaches(r, walk); }
  }

  // ----- What waiting means in a run -----

  lemma {:induction false} EdgeIsDep(r: Round, i: nat, d: nat) returns (k: nat)
    requires ValidRound(r) && Waits(r, i, d)
    ensures k < |r.children[i].dependsOn| && Dep(r, i, k) == d
  {
    k :| 0 <= k < |r.children[i].dependsOn| && r.children[i].dependsOn[k] == r.children[d].localId;
    IndexOfChild(r.children, d);
  }

  lemma {:induction false} MovedOnKnowsReports(
    r: Round, env: Env, i: nat, phase: Phase, reports: seq<Report>, read: seq<Written>,
    events: seq<Event>, facts: seq<RegionFacts>)
    requires i < |r.children| == |r.goals| && PhaseFits(r, env, i, phase, reports, read, events, facts)
    requires Resolved(r, i) && !phase.Waiting?
    ensures KnowsReports(r, i, reports)
  {
  }

  lemma {:induction false} AwaitedReported(r: Round, env: Env, s: State, i: nat, d: nat)
    requires ValidRound(r) && |s.phases| == |r.children| && Waits(r, i, d)
    requires Inv(r, env, s) && !s.phases[i].Waiting?
    ensures s.phases[d].Reported?
  {
    assert OnTrack(r, env, s, i);
    var reports := DepReports(r, s, i);
    MovedOnKnowsReports(r, env, i, s.phases[i], reports, ReadOf(s.seen, i), MyEvents(r, s, i), MyFacts(s, i));
    var k := EdgeIsDep(r, i, d);
  }

  /** Whoever is in the group finds everybody it awaits there. */
  ghost predicate DownClosed(r: Round, group: set<nat>) {
    forall i: nat, j: nat | i in group && Waits(r, i, j) :: j in group
  }

  lemma {:induction false} StaysInside(r: Round, group: set<nat>, i: nat, d: nat, n: nat)
    requires DownClosed(r, group) && i in group && WaitsThrough(r, i, d, n)
    ensures d in group
    decreases n
  {
    if n > 0 {
      var k: nat :| Waits(r, i, k) && WaitsThrough(r, k, d, n - 1);
      StaysInside(r, group, k, d, n - 1);
    }
  }

  lemma {:induction false} ReachesInside(r: Round, group: set<nat>, i: nat, d: nat)
    requires DownClosed(r, group) && i in group && Reaches(r, i, d)
    ensures d in group
  {
    var n: nat :| WaitsThrough(r, i, d, n);
    StaysInside(r, group, i, d, n);
  }

  ghost function ReportedSet(s: State): (group: set<nat>)
    ensures forall i: nat :: i in group <==> i < |s.phases| && s.phases[i].Reported?
  {
    set i: nat | i in Below(|s.phases|) && s.phases[i].Reported?
  }

  lemma {:induction false} ReportedIsClosed(r: Round, env: Env, s: State)
    requires ValidRound(r) && |s.phases| == |r.children| && Inv(r, env, s)
    ensures DownClosed(r, ReportedSet(s))
  {
    forall i: nat, k: nat | i in ReportedSet(s) && Waits(r, i, k)
      ensures k in ReportedSet(s)
    {
      AwaitedReported(r, env, s, i, k);
    }
  }

  /** A child that has moved on has nobody left to wait for, directly or through others. */
  lemma {:induction false} ReachedReported(r: Round, env: Env, s: State, i: nat, d: nat)
    requires ValidRound(r) && |s.phases| == |r.children| && Inv(r, env, s) && i < |r.children|
    requires Reaches(r, i, d) && !s.phases[i].Waiting?
    ensures d < |r.children| && s.phases[d].Reported?
  {
    var k := ReachesFirst(r, i, d);
    AwaitedReported(r, env, s, i, k);
    if k != d {
      ReportedIsClosed(r, env, s);
      ReachesInside(r, ReportedSet(s), k, d);
    }
  }

  // ----- Runs in which only a closed group moves -----

  /** Child `b` and all that it waits for. */
  ghost function Cone(r: Round, b: nat): (group: set<nat>)
    ensures forall i: nat :: i in group <==> i < |r.children| && (i == b || Reaches(r, b, i))
  {
    set i: nat | i in Below(|r.children|) && (i == b || Reaches(r, b, i))
  }

  lemma {:induction false} ConeIsClosed(r: Round, b: nat)
    ensures DownClosed(r, Cone(r, b))
  {
    forall i: nat, j: nat | i in Cone(r, b) && Waits(r, i, j)
      ensures j in Cone(r, b)
    {
      WaitsReaches(r, i, j);
      if i != b { ReachesTransitive(r, b, i, j); }
    }
  }

  lemma {:induction false} GroupCanMove(r: Round, env: Env, rank: seq<nat>, s: State, group: set<nat>, i: nat)
    returns (mover: nat)
    requires ValidRound(r) && IsRank(r.children, rank) && |s.phases| == |r.children| && i < |r.children|
    requires Inv(r, env, s) && !s.phases[i].Reported? && DownClosed(r, group) && i in group
    ensures Enabled(r, s, mover) && mover in group
    decreases rank[i]
  {
    assert OnTrack(r, env, s, i);
    if Enabled(r, s, i) {
      mover := i;
    } else {
      assert s.phases[i].Waiting? && Resolved(r, i) && !DepsReported(r, s, i);
      var k :| 0 <= k < |r.children[i].dependsOn| && !s.phases[Dep(r, i, k)].Reported?;
      assert Waits(r, i, Dep(r, i, k));
      mover := GroupCanMove(r, env, rank, s, group, Dep(r, i, k));
    }
  }

  /** Nothing has happened outside the group. */
  ghost predicate Untouched(r: Round, s: State, t: State, group: set<nat>) {
    && |s.phases| == |t.phases|
    && forall j: nat | j < |s.phases| && j !in group ::
         t.phases[j] == s.phases[j] && MyFacts(t, j) == MyFacts(s, j)
  }

  lemma {:induction false} MoverTouchesItself(r: Round, env: Env, s: State, i: nat, group: set<nat>)
    requires ValidRound(r) && |s.phases| == |r.children| && Enabled(r, s, i) && i in group
    ensures Untouched(r, s, Step(r, env, s, i), group)
  {
    var m := MoveOf(r, env, i, s.phases[i], DepReports(r, s, i), s.knowledge);
    MovesLogTheirOwn(r, env, i, s.phases[i], DepReports(r, s, i), s.knowledge);
    forall j: nat | j < |s.phases| && j !in group
      ensures MyFacts(Apply(s, i, m), j) == MyFacts(s, j)
    {
      ApplyIsLocal(r, s, i, m, j);
    }
  }

  /** What has gone further than `s`: reports, readings and facts of reported children stay,
      and who waited at `s` has read, once it has started, all that was logged then. */
  ghost predicate Extends(s: State, t: State) {
    && |s.phases| == |t.phases| && s.knowledge <= t.knowledge
    && (forall i: nat | i < |s.phases| && s.phases[i].Reported? ::
          t.phases[i] == s.phases[i] && ReadOf(t.seen, i) == ReadOf(s.seen, i) && MyFacts(t, i) == MyFacts(s, i))
    && (forall i: nat | i < |s.phases| && s.phases[i].Waiting? && Started(t.phases[i]) ::
          s.knowledge <= ReadOf(t.seen, i))
  }

  lemma {:induction false} OnlyReadersStart(
    r: Round, env: Env, i: nat, phase: Phase, reports: seq<Report>, knowledge: seq<Written>)
    requires i < |r.children| == |r.goals| && MayMove(r, i, phase, reports) && !phase.Equipping?
    requires Started(MoveOf(r, env, i, phase, reports, knowledge).phase)
    ensures Started(phase)
  {
  }

  lemma {:induction false} ExtendsOn(r: Round, env: Env, s: State, t: State, i: nat)
    requires ValidRound(r) && |t.phases| == |r.children| && Enabled(r, t, i) && Extends(s, t)
    ensures Extends(s, Step(r, env, t, i))
  {
    var m := MoveOf(r, env, i, t.phases[i], DepReports(r, t, i), t.knowledge);
    MovesLogTheirOwn(r, env, i, t.phases[i], DepReports(r, t, i), t.knowledge);
    var u := Apply(t, i, m);
    forall j: nat | j < |s.phases| && s.phases[j].Reported?
      ensures u.phases[j] == s.phases[j] && ReadOf(u.seen, j) == ReadOf(s.seen, j) && MyFacts(u, j) == MyFacts(s, j)
    {
      ApplyIsLocal(r, t, i, m, j);
    }
    forall j: nat | j < |s.phases| && s.phases[j].Waiting? && Started(u.phases[j])
      ensures s.knowledge <= ReadOf(u.seen, j)
    {
      ApplyIsLocal(r, t, i, m, j);
      if j == i && !t.phases[i].Equipping? {
        OnlyReadersStart(r, env, i, t.phases[i], DepReports(r, t, i), t.knowledge);
      }
    }
  }

  ghost predicate GroupReported(s: State, group: set<nat>) {
    forall i: nat | i < |s.phases| && i in group :: s.phases[i].Reported?
  }

  lemma {:induction false} StillUntouched(r: Round, s: State, t: State, u: State, group: set<nat>)
    requires Untouched(r, s, t, group) && Untouched(r, t, u, group)
    ensures Untouched(r, s, u, group)
  {
  }

  /** Only the group has moved since `start`. */
  ghost predicate Within(r: Round, start: State, s: State, group: set<nat>) {
    Extends(start, s) && Untouched(r, start, s, group)
  }

  lemma {:induction false} NothingYet(r: Round, s: State, group: set<nat>)
    ensures Within(r, s, s, group)
  {
  }

  lemma {:induction false} GroupSteps(
    r: Round, env: Env, start: State, schedule: seq<nat>, s: State, group: set<nat>, i: nat)
    returns (longer: seq<nat>, t: State)
    requires ValidRound(r) && Acyclic(r.children) && Legal(r, env, schedule) && DownClosed(r, group)
    requires s == Exec(r, env, schedule) && Within(r, start, s, group)
    requires i < |r.children| && i in group && !s.phases[i].Reported?
    ensures Legal(r, env, longer) && t == Exec(r, env, longer) && Within(r, start, t, group)
    ensures TotalStepsLeft(r, t, |r.children|) < TotalStepsLeft(r, s, |r.children|)
  {
    var rank :| IsRank(r.children, rank);
    EveryRunKeepsInv(r, env, schedule);
    var mover := GroupCanMove(r, env, rank, s, group, i);
    longer := schedule + [mover];
    ExtendRun(r, env, schedule, mover);
    t := Step(r, env, s, mover);
    StepTakesOneOff(r, env, s, mover);
    MoverTouchesItself(r, env, s, mover, group);
    StillUntouched(r, start, s, t, group);
    ExtendsOn(r, env, start, s, mover);
  }

  /** Every run of an acyclic round can be continued by a closed group alone, until all of the
      group have reported. */
  lemma {:induction false} GroupRuns(
    r: Round, env: Env, start: State, schedule: seq<nat>, s: State, group: set<nat>)
    returns (whole: seq<nat>, t: State)
    requires ValidRound(r) && Acyclic(r.children) && Legal(r, env, schedule) && DownClosed(r, group)
    requires s == Exec(r, env, schedule) && Within(r, start, s, group)
    ensures Legal(r, env, whole) && t == Exec(r, env, whole)
    ensures Within(r, start, t, group) && GroupReported(t, group)
    decreases TotalStepsLeft(r, s, |r.children|)
  {
    if GroupReported(s, group) {
      whole, t := schedule, s;
    } else {
      var i: nat :| i < |s.phases| && i in group && !s.phases[i].Reported?;
      var longer, next := GroupSteps(r, env, start, schedule, s, group, i);
      whole, t := GroupRuns(r, env, start, longer, next, group);
    }
  }

  /** Child `b` can be brought to its end by itself and those it waits for. */
  lemma {:induction false} ConeRuns(r: Round, env: Env, schedule: seq<nat>, s: State, b: nat)
    returns (whole: seq<nat>, t: State)
    requires ValidRound(r) && Acyclic(r.children) && Legal(r, env, schedule) && b < |r.children|
    requires s == Exec(r, env, schedule)
    ensures Legal(r, env, whole) && t == Exec(r, env, whole)
    ensures Within(r, s, t, Cone(r, b)) && t.phases[b].Reported?
  {
    ConeIsClosed(r, b);
    NothingYet(r, s, Cone(r, b));
    whole, t := GroupRuns(r, env, s, schedule, s, Cone(r, b));
  }

  /** Everybody can be brought to an end. */
  lemma {:induction false} RunCompletes(r: Round, env: Env, schedule: seq<nat>, s: State)
    returns (whole: seq<nat>, t: State)
    requires ValidRound(r) && Acyclic(r.children) && Legal(r, env, schedule) && s == Exec(r, env, schedule)
    ensures Completes(r, env, whole) && t == Exec(r, env, whole) && Extends(s, t)
  {
    var all := Below(|r.children|);
    NothingYet(r, s, all);
    whole, t := GroupRuns(r, env, s, schedule, s, all);
  }
}
