/** When the schedule of a split does show: what a child is sure to have heard, and what the
    order of the tellers does to its memories. */
module SplitRace {
  import opened Contract
  import opened SplitGraph
  import opened FloorHandoff
  import opened Knowledge
  import opened Scopes
  import opened SplitScheduler
  import opened SplitRuns
  import opened SplitReach
  import opened SplitFacts

  // ----- Parts of a longer log -----

  lemma {:induction false} ByAppend(a: seq<Written>, b: seq<Written>, j: nat)
    ensures By(a + b, j) == By(a, j) + By(b, j)
  {
    if b == [] {
      assert a + b == a;
    } else {
      var front, last := b[..|b| - 1], b[|b| - 1];
      assert b == front + [last] && a + b == a + front + [last];
      ByAppend(a, front, j);
      BySnoc(a + front, last, j);
      BySnoc(front, last, j);
    }
  }

  lemma {:induction false} ByPrefix(a: seq<Written>, b: seq<Written>, j: nat)
    requires a <= b
    ensures By(a, j) <= By(b, j)
  {
    assert b == a + b[|a|..];
    ByAppend(a, b[|a|..], j);
  }

  lemma {:induction false} NoneBy(read: seq<Written>, j: nat)
    requires By(read, j) == []
    ensures forall k | 0 <= k < |read| :: read[k].writer != j
  {
    forall k | 0 <= k < |read|
      ensures read[k].writer != j
    {
      EntryIsBy(read, k);
    }
  }

  /** All that `j` wrote in the longer log stands in the shorter one. */
  lemma {:induction false} PartIsEarly(a: seq<Written>, b: seq<Written>, j: nat)
    requires a <= b && By(a, j) == By(b, j)
    ensures forall k | |a| <= k < |b| :: b[k].writer != j
  {
    var rest := b[|a|..];
    assert b == a + rest;
    ByAppend(a, rest, j);
    NoneBy(rest, j);
    forall k | |a| <= k < |b|
      ensures b[k].writer != j
    {
      assert b[k] == rest[k - |a|];
    }
  }

  // ----- Who hears whom -----

  /** Who had reported while `b` still waited is heard by `b`. */
  lemma {:induction false} EarlyIsHeard(r: Round, env: Env, s: State, t: State, b: nat, d: nat)
    requires GoodState(r, env, t) && Extends(s, t) && b < |t.phases| && d < |t.phases|
    requires s.phases[b].Waiting? && s.phases[d].Reported? && Started(t.phases[b])
    ensures HasHeard(t, b, d) && s.knowledge <= ReadOf(t.seen, b) && By(s.knowledge, d) == MyFacts(t, d)
  {
    var read := ReadOf(t.seen, b);
    assert ReadFits(r, t, b);
    ByPrefix(s.knowledge, read, d);
    ByPrefix(read, t.knowledge, d);
  }

  lemma {:induction false} InitWaits(r: Round, env: Env, b: nat)
    requires ValidRound(r) && b < |r.children|
    ensures var s := Exec(r, env, []); s == Init(r) && s.phases[b].Waiting? && s.knowledge == []
  {
  }

  lemma {:induction false} ReadStays(r: Round, env: Env, s: State, t: State, b: nat, d: nat)
    requires GoodState(r, env, s) && Extends(s, t) && b < |s.phases| && s.phases[b].Reported?
    requires MyFacts(s, d) == [] && Started(t.phases[b])
    ensures By(ReadOf(t.seen, b), d) == []
  {
    assert ReadFits(r, s, b);
    ByPrefix(ReadOf(s.seen, b), s.knowledge, d);
  }

  /** Child `b` hears nothing of `d` in some run, when it does not wait for it. */
  lemma {:induction false} DeafRun(r: Round, env: Env, d: nat, b: nat) returns (whole: seq<nat>, t: State)
    requires ValidRound(r) && Acyclic(r.children) && d < |r.children| && b < |r.children|
    requires d != b && !Reaches(r, b, d)
    ensures Completes(r, env, whole) && t == Exec(r, env, whole)
    ensures Started(t.phases[b]) ==> By(ReadOf(t.seen, b), d) == []
  {
    InitWaits(r, env, d);
    var first, s := ConeRuns(r, env, [], Init(r), b);
    whole, t := RunCompletes(r, env, first, s);
    EveryRunIsGood(r, env, first);
    assert MyFacts(s, d) == MyFacts(Init(r), d) == [];
    if Started(t.phases[b]) { ReadStays(r, env, s, t, b, d); }
  }

  /** Child `b` hears all of `d` in some run, when `d` does not wait for it. */
  lemma {:induction false} HearingRun(r: Round, env: Env, d: nat, b: nat) returns (whole: seq<nat>, t: State)
    requires ValidRound(r) && Acyclic(r.children) && d < |r.children| && b < |r.children|
    requires d != b && !Reaches(r, d, b)
    ensures Completes(r, env, whole) && t == Exec(r, env, whole)
    ensures Started(t.phases[b]) ==> HasHeard(t, b, d)
  {
    InitWaits(r, env, b);
    var first, s := ConeRuns(r, env, [], Init(r), d);
    whole, t := RunCompletes(r, env, first, s);
    EveryRunIsGood(r, env, whole);
    assert s.phases[b] == Init(r).phases[b];
    if Started(t.phases[b]) { EarlyIsHeard(r, env, s, t, b, d); }
  }

  /** Of two children neither of which waits for the other, either may go first: one complete
      run lets `b` start with all that `d` persists, another with nothing of it. */
  lemma {:induction false} UnorderedDiveRaces(r: Round, env: Env, d: nat, b: nat)
    returns (one: seq<nat>, s: State, other: seq<nat>, t: State)
    requires ValidRound(r) && Acyclic(r.children) && d < |r.children| && b < |r.children|
    requires d != b && !Reaches(r, d, b) && !Reaches(r, b, d)
    ensures Completes(r, env, one) && s == Exec(r, env, one) && (Started(s.phases[b]) ==> HasHeard(s, b, d))
    ensures Completes(r, env, other) && t == Exec(r, env, other)
    ensures Started(t.phases[b]) ==> By(ReadOf(t.seen, b), d) == []
  {
    one, s := HearingRun(r, env, d, b);
    other, t := DeafRun(r, env, d, b);
  }

  // ----- Rounds in which nothing blocks -----

  /** Every run returns a report without blockers. */
  ghost predicate Succeeds(run: Goal -> Outcome<Report>) {
    forall goal :: run(goal).Returned? && run(goal).value.blockers == []
  }

  lemma {:induction false} ClosedIsResolved(r: Round, i: nat)
    requires Closed(r.children) && i < |r.children|
    ensures Resolved(r, i)
  {
  }

  ghost predicate Unblocked(reports: seq<Report>) {
    forall k | 0 <= k < |reports| :: reports[k].blockers == []
  }

  lemma {:induction false} UnblockedLoseNothing(r: Round, env: Env, i: nat, reports: seq<Report>)
    requires i < |r.children| == |r.goals| && KnowsReports(r, i, reports) && Unblocked(reports)
    ensures Starving(r, env, i, reports) == [] && LostRegions(r, env, i, reports) == []
  {
    HardBlockedIffSomeDependencyStarves(reports, DepPlans(r, i), env.kindOf);
    var lost := LostRegions(r, env, i, reports);
    if lost != [] {
      assert lost[0] in lost;
      FloorCoversTheLostRegions(reports, DepPlans(r, i), env.kindOf, lost[0]);
    }
  }

  /** What a child leaves when nothing blocks: the report of its run on its own goal with the
      memories it was given late. */
  lemma {:induction false} UnblockedDue(r: Round, env: Env, i: nat, reports: seq<Report>, read: seq<Written>)
    requires i < |r.children| == |r.goals| && KnowsReports(r, i, reports) && Unblocked(reports)
    requires Succeeds(env.runChild)
    ensures
      var due, goal := Due(r, env, i, reports, read), Equip(env, r.goals[i], read);
      && due.ending == Ran && due.report.blockers == [] && due.facts == env.persists(goal)
      && due.report.memoriesUsed == env.runChild(goal).value.memoriesUsed
  {
    UnblockedLoseNothing(r, env, i, reports);
    assert env.runChild(Equip(env, r.goals[i], read)).Returned?;
  }

  lemma {:induction false} EverybodyRan(r: Round, env: Env, rank: seq<nat>, s: State, i: nat)
    requires GoodState(r, env, s) && Closed(r.children) && IsRank(r.children, rank) && Succeeds(env.runChild)
    requires i < |r.children| && s.phases[i].Reported?
    ensures Started(s.phases[i]) && s.phases[i].report.blockers == []
    ensures Left(r, s, i).facts == env.persists(Equip(env, r.goals[i], ReadOf(s.seen, i)))
    ensures Left(r, s, i).report.memoriesUsed ==
      env.runChild(Equip(env, r.goals[i], ReadOf(s.seen, i))).value.memoriesUsed
    decreases rank[i]
  {
    ClosedIsResolved(r, i);
    LeftIsDue(r, env, s, i);
    var reports := DepReports(r, s, i);
    forall k | 0 <= k < |reports|
      ensures reports[k].blockers == []
    {
      EverybodyRan(r, env, rank, s, Dep(r, i, k));
    }
    UnblockedDue(r, env, i, reports, ReadOf(s.seen, i));
  }

  lemma {:induction false} CompleteRunsAll(r: Round, env: Env, schedule: seq<nat>, s: State, i: nat)
    requires ValidRound(r) && Closed(r.children) && Acyclic(r.children) && Succeeds(env.runChild)
    requires Completes(r, env, schedule) && s == Exec(r, env, schedule) && i < |r.children|
    ensures GoodState(r, env, s) && Started(s.phases[i]) && ReadFits(r, s, i)
    ensures MyFacts(s, i) == env.persists(Equip(env, r.goals[i], ReadOf(s.seen, i)))
    ensures s.phases[i].Reported? && s.phases[i].report.memoriesUsed ==
      env.runChild(Equip(env, r.goals[i], ReadOf(s.seen, i))).value.memoriesUsed
  {
    var rank :| IsRank(r.children, rank);
    EveryRunIsGood(r, env, schedule);
    EverybodyRan(r, env, rank, s, i);
  }

  /** Child `d` persists something, whatever it is given to remember. */
  ghost predicate AlwaysPersists(r: Round, env: Env, d: nat)
    requires d < |r.goals|
  {
    forall memories :: env.persists(r.goals[d].(memories := memories)) != []
  }

  ghost predicate AlwaysHeard(r: Round, env: Env, b: nat, d: nat)
    requires ValidRound(r) && d < |r.children|
  {
    forall schedule | Completes(r, env, schedule) :: HasHeard(Exec(r, env, schedule), b, d)
  }

  /** When nothing blocks, a child has heard another that persists something, in every complete
      run, exactly when it waits for it, directly or through others. */
  lemma {:induction false} HeardIff(r: Round, env: Env, b: nat, d: nat)
    requires ValidRound(r) && Closed(r.children) && Acyclic(r.children) && Succeeds(env.runChild)
    requires b < |r.children| && d < |r.children| && b != d && AlwaysPersists(r, env, d)
    ensures AlwaysHeard(r, env, b, d) <==> Reaches(r, b, d)
  {
    if Reaches(r, b, d) {
      forall schedule | Completes(r, env, schedule)
        ensures HasHeard(Exec(r, env, schedule), b, d)
      {
        CompleteRunsAll(r, env, schedule, Exec(r, env, schedule), b);
      }
    } else {
      var whole, t := DeafRun(r, env, d, b);
      CompleteRunsAll(r, env, whole, t, b);
      CompleteRunsAll(r, env, whole, t, d);
      var goal := Equip(env, r.goals[d], ReadOf(t.seen, d));
      assert goal == r.goals[d].(memories := goal.memories);
      assert !HasHeard(t, b, d);
    }
  }

  // ----- The order of two tellers -----

  /** No entry of `e` stands before one of `d`. */
  ghost predicate ComesFirst(read: seq<Written>, d: nat, e: nat) {
    forall p, q | 0 <= p < |read| && 0 <= q < |read| && read[p].writer == d && read[q].writer == e :: p < q
  }

  lemma {:induction false} EarlyComesFirst(early: seq<Written>, read: seq<Written>, d: nat, e: nat)
    requires early <= read && By(early, d) == By(read, d) && By(early, e) == []
    ensures ComesFirst(read, d, e)
  {
    PartIsEarly(early, read, d);
    NoneBy(early, e);
  }

  /** Child `b` has started and heard both, `d` first. */
  ghost predicate HeardInTurn(t: State, b: nat, d: nat, e: nat)
    requires b < |t.phases| && d < |t.phases| && e < |t.phases|
  {
    Started(t.phases[b]) ==> HasHeard(t, b, d) && HasHeard(t, b, e) && ComesFirst(ReadOf(t.seen, b), d, e)
  }

  /** First `d` and those it waits for, then `e` and those it waits for, while `b` still waits. */
  lemma {:induction false} OneThenOther(r: Round, env: Env, d: nat, e: nat, b: nat)
    returns (first: State, schedule: seq<nat>, s: State)
    requires ValidRound(r) && Acyclic(r.children) && d < |r.children| && e < |r.children| && b < |r.children|
    requires d != e && d != b && e != b && !Reaches(r, d, e) && !Reaches(r, d, b) && !Reaches(r, e, b)
    ensures Legal(r, env, schedule) && s == Exec(r, env, schedule) && Extends(first, s)
    ensures first.phases[d].Reported? && MyFacts(first, e) == []
    ensures s.phases[d].Reported? && s.phases[e].Reported? && s.phases[b].Waiting?
  {
    InitWaits(r, env, b);
    InitWaits(r, env, e);
    var one;
    one, first := ConeRuns(r, env, [], Init(r), d);
    assert MyFacts(first, e) == MyFacts(Init(r), e) == [];
    assert first.phases[b] == Init(r).phases[b];
    schedule, s := ConeRuns(r, env, one, first, e);
  }

  lemma {:induction false} TurnsAreHeard(r: Round, env: Env, first: State, s: State, t: State, d: nat, e: nat, b: nat)
    requires GoodState(r, env, t) && Extends(first, s) && Extends(s, t)
    requires d < |t.phases| && e < |t.phases| && b < |t.phases|
    requires first.phases[d].Reported? && MyFacts(first, e) == []
    requires s.phases[d].Reported? && s.phases[e].Reported? && s.phases[b].Waiting?
    ensures HeardInTurn(t, b, d, e)
  {
    if Started(t.phases[b]) {
      EarlyIsHeard(r, env, s, t, b, d);
      EarlyIsHeard(r, env, s, t, b, e);
      EarlyComesFirst(first.knowledge, ReadOf(t.seen, b), d, e);
    }
  }

  /** Of two children of which the first waits for neither the second nor `b`, and the second
      not for `b`, the first can be heard first. */
  lemma {:induction false} TurnsRun(r: Round, env: Env, d: nat, e: nat, b: nat) returns (whole: seq<nat>, t: State)
    requires ValidRound(r) && Acyclic(r.children) && d < |r.children| && e < |r.children| && b < |r.children|
    requires d != e && d != b && e != b && !Reaches(r, d, e) && !Reaches(r, d, b) && !Reaches(r, e, b)
    ensures Completes(r, env, whole) && t == Exec(r, env, whole) && HeardInTurn(t, b, d, e)
  {
    var first, schedule, s := OneThenOther(r, env, d, e, b);
    whole, t := RunCompletes(r, env, schedule, s);
    EveryRunIsGood(r, env, whole);
    TurnsAreHeard(r, env, first, s, t, d, e, b);
  }

  // ----- What the memories show -----

  /** Whoever can tell child `b` something always does, about regions of its own that were
      unknown before the split, and never without a claim. */
  ghost predicate OwnRegions(r: Round, env: Env, b: nat)
    requires b < |r.goals|
  {
    var wanted := RelevantTo(r.goals[b].scope);
    && (forall j: nat, f | j < |r.goals| && MaySay(r, env, j, f) && wanted(f.region) ::
          f.claims != [] && !Views(env.known, f.region))
    && (forall j: nat, f, k: nat, g | j < |r.goals| && k < |r.goals| && j != k
          && MaySay(r, env, j, f) && MaySay(r, env, k, g) && wanted(f.region) :: f.region != g.region)
    && (forall j: nat | j < |r.goals| && MayTell(r, env, j, b) :: AlwaysTells(r, env, j, b))
  }

  ghost predicate SaysSome(r: Round, env: Env, goal: Goal, b: nat)
    requires b < |r.goals|
  {
    exists f :: f in env.persists(goal) && RelevantTo(r.goals[b].scope)(f.region)
  }

  ghost predicate AlwaysTells(r: Round, env: Env, j: nat, b: nat)
    requires j < |r.goals| && b < |r.goals|
  {
    forall memories :: SaysSome(r, env, r.goals[j].(memories := memories), b)
  }

  /** All that child `b` could learn from. */
  ghost function LogOf(env: Env, s: State, b: nat): seq<RegionFacts> {
    env.known + Facts(ReadOf(s.seen, b))
  }

  /** The memories that child `b` was given late. */
  ghost function GivenLate(r: Round, env: Env, s: State, b: nat): seq<MemoryPointer>
    requires b < |r.goals|
  {
    LateMemories(r.goals[b].scope, LogOf(env, s, b))
  }

  /** A state in which everybody has run. */
  ghost predicate AllRan(r: Round, env: Env, s: State) {
    && GoodState(r, env, s)
    && forall i: nat | i < |r.children| ::
         Started(s.phases[i]) && MyFacts(s, i) == env.persists(Equip(env, r.goals[i], ReadOf(s.seen, i)))
  }

  lemma {:induction false} CompleteIsAllRan(r: Round, env: Env, schedule: seq<nat>, s: State)
    requires ValidRound(r) && Closed(r.children) && Acyclic(r.children) && Succeeds(env.runChild)
    requires Completes(r, env, schedule) && s == Exec(r, env, schedule)
    ensures AllRan(r, env, s)
  {
    EveryRunIsGood(r, env, schedule);
    forall i: nat | i < |r.children|
      ensures Started(s.phases[i]) && MyFacts(s, i) == env.persists(Equip(env, r.goals[i], ReadOf(s.seen, i)))
    {
      CompleteRunsAll(r, env, schedule, s, i);
    }
  }

  /** A region that `j` has told `b` about. */
  lemma {:induction false} ToldRegion(r: Round, env: Env, s: State, j: nat, b: nat) returns (f: RegionFacts)
    requires AllRan(r, env, s) && j < |r.children| && b < |r.children| && AlwaysTells(r, env, j, b)
    requires HasHeard(s, b, j)
    ensures MaySay(r, env, j, f) && RelevantTo(r.goals[b].scope)(f.region)
    ensures Views(Facts(ReadOf(s.seen, b)), f.region)
  {
    var goal := Equip(env, r.goals[j], ReadOf(s.seen, j));
    assert goal == r.goals[j].(memories := goal.memories);
    assert SaysSome(r, env, goal, b);
    f :| f in env.persists(goal) && RelevantTo(r.goals[b].scope)(f.region);
    ByIsViewed(ReadOf(s.seen, b), j, f);
  }

  lemma {:induction false} ByIsViewed(read: seq<Written>, j: nat, f: RegionFacts)
    requires f in By(read, j)
    ensures Views(Facts(read), f.region)
  {
    var last := read[|read| - 1];
    if last.writer == j && last.facts == f {
      assert Facts(read)[|read| - 1].region == f.region;
    } else {
      var front := read[..|read| - 1];
      ByIsViewed(front, j, f);
      var p :| 0 <= p < |Facts(front)| && Facts(front)[p].region == f.region;
      assert Facts(read)[p].region == f.region;
    }
  }

  /** Whoever wrote about such a region, only its owner did. */
  lemma {:induction false} WrittenByOwner(r: Round, env: Env, s: State, b: nat, j: nat, f: RegionFacts, k: nat)
    requires GoodState(r, env, s) && b < |r.children| && ReadFits(r, s, b) && OwnRegions(r, env, b)
    requires j < |r.children| && MaySay(r, env, j, f) && RelevantTo(r.goals[b].scope)(f.region)
    requires k < |ReadOf(s.seen, b)| && ReadOf(s.seen, b)[k].facts.region == f.region
    ensures ReadOf(s.seen, b)[k].writer == j && ReadOf(s.seen, b)[k].facts.claims != []
  {
    var read := ReadOf(s.seen, b);
    var w, g := read[k].writer, read[k].facts;
    PrefixIsBy(read, s.knowledge, k);
    assert s.knowledge[k] == read[k];
    WriterMaySay(r, env, s, w, g);
  }

  lemma {:induction false} LogViews(known: seq<RegionFacts>, read: seq<Written>, region: string)
    ensures Views(known + Facts(read), region) <==> Views(known, region) || Views(Facts(read), region)
  {
    var facts := Facts(read);
    var log := known + facts;
    if p :| 0 <= p < |known| && known[p].region == region { assert log[p].region == region; }
    if p :| 0 <= p < |facts| && facts[p].region == region { assert log[|known| + p].region == region; }
    if p :| 0 <= p < |log| && log[p].region == region {
      if p < |known| { assert known[p].region == region; } else { assert facts[p - |known|].region == region; }
    }
  }

  /** Child `b` is given memories of the region exactly when it has read about it. */
  lemma {:induction false} GivenIffRead(r: Round, env: Env, s: State, b: nat, j: nat, f: RegionFacts)
    requires GoodState(r, env, s) && b < |r.children| && ReadFits(r, s, b) && OwnRegions(r, env, b)
    requires j < |r.children| && MaySay(r, env, j, f) && RelevantTo(r.goals[b].scope)(f.region)
    ensures Mentions(GivenLate(r, env, s, b), f.region) <==> Views(Facts(ReadOf(s.seen, b)), f.region)
  {
    var read, log := ReadOf(s.seen, b), LogOf(env, s, b);
    LogViews(env.known, read, f.region);
    forall k | 0 <= k < |env.known|
      ensures log[k].region != f.region
    {
      assert log[k] == env.known[k];
    }
    forall k | 0 <= k < |log| && log[k].region == f.region
      ensures log[k].claims != []
    {
      assert log[k] == read[k - |env.known|].facts;
      WrittenByOwner(r, env, s, b, j, f, k - |env.known|);
    }
    MemoriesMention(r.goals[b].scope, log, f.region);
  }

  lemma {:induction false} UnreadRegion(r: Round, env: Env, s: State, b: nat, j: nat, f: RegionFacts)
    requires GoodState(r, env, s) && b < |r.children| && ReadFits(r, s, b) && OwnRegions(r, env, b)
    requires j < |r.children| && MaySay(r, env, j, f) && RelevantTo(r.goals[b].scope)(f.region)
    requires By(ReadOf(s.seen, b), j) == []
    ensures !Views(Facts(ReadOf(s.seen, b)), f.region)
  {
    var read := ReadOf(s.seen, b);
    if k :| 0 <= k < |Facts(read)| && Facts(read)[k].region == f.region {
      WrittenByOwner(r, env, s, b, j, f, k);
      NoneBy(read, j);
    }
  }

  /** Hearing of a teller shows. */
  lemma {:induction false} HearingShows(r: Round, env: Env, s: State, t: State, j: nat, b: nat)
    requires AllRan(r, env, s) && AllRan(r, env, t) && j < |r.children| && b < |r.children|
    requires OwnRegions(r, env, b) && MayTell(r, env, j, b)
    requires HasHeard(s, b, j) && By(ReadOf(t.seen, b), j) == []
    ensures Ids(GivenLate(r, env, s, b)) != Ids(GivenLate(r, env, t, b))
  {
    var one, other := GivenLate(r, env, s, b), GivenLate(r, env, t, b);
    var f := ToldRegion(r, env, s, j, b);
    GivenIffRead(r, env, s, b, j, f);
    GivenIffRead(r, env, t, b, j, f);
    UnreadRegion(r, env, t, b, j, f);
    if Ids(one) == Ids(other) { IdsDecide(one, other, f.region, f.region); }
  }

  lemma {:induction false} FirstReadFirst(
    known: seq<RegionFacts>, read: seq<Written>, d: nat, e: nat, first: string, second: string)
    requires ComesFirst(read, d, e) && !Views(known, first) && !Views(known, second) && first != second
    requires Views(Facts(read), first)
    requires forall k | 0 <= k < |read| && read[k].facts.region == first :: read[k].writer == d
    requires forall k | 0 <= k < |read| && read[k].facts.region == second :: read[k].writer == e
    ensures FirstAt(known + Facts(read), first) < FirstAt(known + Facts(read), second)
  {
    var log, facts := known + Facts(read), Facts(read);
    var p :| 0 <= p < |facts| && facts[p].region == first;
    var a, c := FirstAt(log, first), FirstAt(log, second);
    assert log[|known| + p].region == first;
    assert a < |log|;
    forall k | 0 <= k < |known|
      ensures log[k].region != first && log[k].region != second
    {
      assert log[k] == known[k];
    }
    if c < |log| {
      assert read[a - |known|].facts.region == first && read[c - |known|].facts.region == second;
    }
  }

  /** In which order the regions of two tellers stand. */
  lemma {:induction false} TurnsStand(
    r: Round, env: Env, s: State, d: nat, e: nat, b: nat, f: RegionFacts, g: RegionFacts)
    requires GoodState(r, env, s) && b < |r.children| && ReadFits(r, s, b) && OwnRegions(r, env, b)
    requires d < |r.children| && MaySay(r, env, d, f) && RelevantTo(r.goals[b].scope)(f.region)
    requires e < |r.children| && MaySay(r, env, e, g) && RelevantTo(r.goals[b].scope)(g.region) && d != e
    requires ComesFirst(ReadOf(s.seen, b), d, e) && Mentions(GivenLate(r, env, s, b), f.region)
    ensures StandsBefore(GivenLate(r, env, s, b), f.region, g.region)
  {
    var read := ReadOf(s.seen, b);
    GivenIffRead(r, env, s, b, d, f);
    forall k | 0 <= k < |read| && read[k].facts.region == f.region
      ensures read[k].writer == d
    {
      WrittenByOwner(r, env, s, b, d, f, k);
    }
    forall k | 0 <= k < |read| && read[k].facts.region == g.region
      ensures read[k].writer == e
    {
      WrittenByOwner(r, env, s, b, e, g, k);
    }
    FirstReadFirst(env.known, read, d, e, f.region, g.region);
    MemoriesInOrder(r.goals[b].scope, LogOf(env, s, b), f.region, g.region);
  }

  /** The order of two tellers shows. */
  lemma {:induction false} OrderShows(r: Round, env: Env, s: State, t: State, d: nat, e: nat, b: nat)
    requires AllRan(r, env, s) && AllRan(r, env, t) && d < |r.children| && e < |r.children| && b < |r.children|
    requires d != e && OwnRegions(r, env, b) && MayTell(r, env, d, b) && MayTell(r, env, e, b)
    requires HeardInTurn(s, b, d, e) && HeardInTurn(t, b, e, d)
    ensures Ids(GivenLate(r, env, s, b)) != Ids(GivenLate(r, env, t, b))
  {
    var f := ToldRegion(r, env, s, d, b);
    var g := ToldRegion(r, env, s, e, b);
    var one, other := GivenLate(r, env, s, b), GivenLate(r, env, t, b);
    GivenIffRead(r, env, s, b, d, f);
    GivenIffRead(r, env, s, b, e, g);
    TurnsStand(r, env, s, d, e, b, f, g);
    if Ids(one) == Ids(other) {
      IdsDecide(one, other, f.region, g.region);
      IdsDecide(one, other, g.region, f.region);
      TurnsStand(r, env, t, e, d, b, g, f);
      BothWays(one, f.region, g.region);
    }
  }

  lemma {:induction false} BothWays(pointers: seq<MemoryPointer>, first: string, second: string)
    requires Mentions(pointers, first) && Mentions(pointers, second)
    requires StandsBefore(pointers, first, second)
    ensures !StandsBefore(pointers, second, first)
  {
    var i :| 0 <= i < |pointers| && Owner(pointers[i]) == first;
    var j :| 0 <= j < |pointers| && Owner(pointers[j]) == second;
    assert i < j;
  }

  // ----- Exactly when the schedule does not matter -----

  /** All complete runs leave the same of every child. */
  ghost predicate Fixed(r: Round, env: Env)
    requires ValidRound(r)
  {
    forall one, other, i: nat | Completes(r, env, one) && Completes(r, env, other) && i < |r.children| ::
      LeftBy(r, env, one, i) == LeftBy(r, env, other, i)
  }

  ghost function LeftBy(r: Round, env: Env, schedule: seq<nat>, i: nat): Verdict
    requires ValidRound(r) && Completes(r, env, schedule) && i < |r.children|
  {
    Left(r, Exec(r, env, schedule), i)
  }

  /** A run that does nothing but report the ids of its memories. */
  function Recite(goal: Goal): Outcome<Report> {
    Returned(Report(None, [], [], Ids(goal.memories), [], [], "", None))
  }

  lemma {:induction false} ReciteSucceeds(env: Env)
    requires env.runChild == Recite
    ensures Succeeds(env.runChild)
  {
    forall goal
      ensures env.runChild(goal).Returned? && env.runChild(goal).value.blockers == []
    {
      assert env.runChild(goal) == Recite(goal);
    }
  }

  lemma {:induction false} RecitedDiffers(
    r: Round, env: Env, one: seq<nat>, s: State, other: seq<nat>, t: State, b: nat)
    requires ValidRound(r) && Closed(r.children) && Acyclic(r.children) && env.runChild == Recite
    requires Completes(r, env, one) && s == Exec(r, env, one)
    requires Completes(r, env, other) && t == Exec(r, env, other) && b < |r.children|
    requires Ids(GivenLate(r, env, s, b)) != Ids(GivenLate(r, env, t, b))
    ensures LeftBy(r, env, one, b) != LeftBy(r, env, other, b)
  {
    ReciteSucceeds(env);
    CompleteRunsAll(r, env, one, s, b);
    CompleteRunsAll(r, env, other, t, b);
    var own, late, otherwise := r.goals[b].memories, GivenLate(r, env, s, b), GivenLate(r, env, t, b);
    IdsTail(own, late, otherwise);
    assert LeftBy(r, env, one, b).report.memoriesUsed == Ids(own + late);
    assert LeftBy(r, env, other, b).report.memoriesUsed == Ids(own + otherwise);
  }

  lemma {:induction false} IdsTail(own: seq<MemoryPointer>, a: seq<MemoryPointer>, b: seq<MemoryPointer>)
    requires Ids(a) != Ids(b)
    ensures Ids(own + a) != Ids(own + b)
  {
    assert Ids(own + a)[|own|..] == Ids(a);
    assert Ids(own + b)[|own|..] == Ids(b);
  }

  /** Of two tellers neither of which waits for the other or for child `b`, either may be heard
      first, and that shows in what `b` leaves. */
  lemma {:induction false} DiveOrderShows(r: Round, env: Env, d: nat, e: nat, b: nat)
    returns (one: seq<nat>, other: seq<nat>)
    requires ValidRound(r) && Closed(r.children) && Acyclic(r.children) && env.runChild == Recite
    requires d < |r.children| && e < |r.children| && b < |r.children| && OwnRegions(r, env, b)
    requires Tells(r, env, d, b) && Tells(r, env, e, b) && d != e && !Reaches(r, d, e) && !Reaches(r, e, d)
    ensures Completes(r, env, one) && Completes(r, env, other)
    ensures LeftBy(r, env, one, b) != LeftBy(r, env, other, b)
  {
    var s, t;
    one, s := TurnsRun(r, env, d, e, b);
    other, t := TurnsRun(r, env, e, d, b);
    ReciteSucceeds(env);
    CompleteIsAllRan(r, env, one, s);
    CompleteIsAllRan(r, env, other, t);
    OrderShows(r, env, s, t, d, e, b);
    RecitedDiffers(r, env, one, s, other, t, b);
  }

  /** A teller that child `b` does not wait for shows in what `b` leaves, or not. */
  lemma {:induction false} UnawaitedTellerShows(r: Round, env: Env, d: nat, b: nat)
    returns (one: seq<nat>, other: seq<nat>)
    requires ValidRound(r) && Closed(r.children) && Acyclic(r.children) && env.runChild == Recite
    requires d < |r.children| && b < |r.children| && OwnRegions(r, env, b)
    requires Tells(r, env, d, b) && !Reaches(r, b, d)
    ensures Completes(r, env, one) && Completes(r, env, other)
    ensures LeftBy(r, env, one, b) != LeftBy(r, env, other, b)
  {
    var s, t;
    one, s, other, t := UnorderedDiveRaces(r, env, d, b);
    ReciteSucceeds(env);
    CompleteIsAllRan(r, env, one, s);
    CompleteIsAllRan(r, env, other, t);
    HearingShows(r, env, s, t, d, b);
    RecitedDiffers(r, env, one, s, other, t, b);
  }

  /** The two differ at most in what the runs do apart from persisting facts. */
  ghost predicate SameFacts(env: Env, other: Env) {
    other.persists == env.persists && other.known == env.known
  }

  lemma {:induction false} SameSaying(r: Round, env: Env, other: Env, j: nat, f: RegionFacts)
    requires j < |r.goals| && SameFacts(env, other)
    ensures MaySay(r, env, j, f) <==> MaySay(r, other, j, f)
  {
  }

  lemma {:induction false} SameTelling(r: Round, env: Env, other: Env, j: nat, b: nat)
    requires j < |r.goals| && b < |r.goals| && SameFacts(env, other)
    ensures MayTell(r, env, j, b) <==> MayTell(r, other, j, b)
    ensures AlwaysTells(r, env, j, b) ==> AlwaysTells(r, other, j, b)
  {
    forall f
      ensures MaySay(r, env, j, f) <==> MaySay(r, other, j, f)
    {
      SameSaying(r, env, other, j, f);
    }
    if AlwaysTells(r, env, j, b) {
      forall memories
        ensures SaysSome(r, other, r.goals[j].(memories := memories), b)
      {
        assert SaysSome(r, env, r.goals[j].(memories := memories), b);
      }
    }
  }

  lemma {:induction false} SameOrder(r: Round, env: Env, other: Env, b: nat)
    requires b < |r.children| == |r.goals| && SameFacts(env, other)
    ensures TellersInOrder(r, env, b) <==> TellersInOrder(r, other, b)
  {
    forall j: nat
      ensures Tells(r, env, j, b) <==> Tells(r, other, j, b)
    {
      if j < |r.goals| { SameTelling(r, env, other, j, b); }
    }
  }

  lemma {:induction false} SameRegions(r: Round, env: Env, other: Env, b: nat)
    requires b < |r.goals| && SameFacts(env, other) && OwnRegions(r, env, b)
    ensures OwnRegions(r, other, b)
  {
    forall j: nat, f | j < |r.goals| && MaySay(r, other, j, f)
      ensures MaySay(r, env, j, f)
    {
      SameSaying(r, env, other, j, f);
    }
    forall j: nat | j < |r.goals| && MayTell(r, other, j, b)
      ensures AlwaysTells(r, other, j, b)
    {
      SameTelling(r, env, other, j, b);
    }
  }

  lemma {:induction false} DisorderShows(r: Round, env: Env, b: nat)
    requires ValidRound(r) && Closed(r.children) && Acyclic(r.children) && env.runChild == Recite
    requires b < |r.children| && OwnRegions(r, env, b) && !TellersInOrder(r, env, b)
    ensures !Fixed(r, env)
  {
    var one, other;
    if j: nat :| Tells(r, env, j, b) && !Reaches(r, b, j) {
      one, other := UnawaitedTellerShows(r, env, j, b);
    } else {
      var j: nat, k: nat :|
        Tells(r, env, j, b) && Tells(r, env, k, b) && j != k && !Reaches(r, j, k) && !Reaches(r, k, j);
      one, other := DiveOrderShows(r, env, j, k, b);
    }
    assert LeftBy(r, env, one, b) != LeftBy(r, env, other, b);
  }

  lemma {:induction false} OrderFixes(r: Round, env: Env)
    requires ValidRound(r) && Acyclic(r.children) && AllInOrder(r, env)
    ensures Fixed(r, env)
  {
    forall one, other, i: nat | Completes(r, env, one) && Completes(r, env, other) && i < |r.children|
      ensures LeftBy(r, env, one, i) == LeftBy(r, env, other, i)
    {
      OutcomeIsScheduleIndependent(r, env, one, Exec(r, env, one), other, Exec(r, env, other), i);
    }
  }

  /** Whatever the children's runs do, all complete runs of a round leave the same, exactly when
      every child waits for all that it can learn from and of any two of those one waits for the
      other; so long as whoever can tell a child something does, about regions of its own. */
  lemma {:induction false} OutcomeIsFixedIff(r: Round, env: Env)
    requires ValidRound(r) && Closed(r.children) && Acyclic(r.children)
    requires forall b: nat | b < |r.children| :: OwnRegions(r, env, b)
    ensures (forall run :: Fixed(r, env.(runChild := run))) <==> AllInOrder(r, env)
  {
    if AllInOrder(r, env) {
      forall run
        ensures Fixed(r, env.(runChild := run))
      {
        forall b: nat | b < |r.children| { SameOrder(r, env, env.(runChild := run), b); }
        OrderFixes(r, env.(runChild := run));
      }
    } else {
      var b: nat :| b < |r.children| && Resolved(r, b) && !TellersInOrder(r, env, b);
      var reciting := env.(runChild := Recite);
      SameOrder(r, env, reciting, b);
      SameRegions(r, env, reciting, b);
      DisorderShows(r, reciting, b);
    }
  }

  // ----- One such round -----

  const PARENT := "p"

  function Child(id: string, dependsOn: seq<string>, scope: seq<string>): ChildPlan {
    ChildPlan(id, "t", "", dependsOn, scope, 0.1)
  }

  function GoalOf(plan: ChildPlan): Goal {
    Goal(ChildGoalId(PARENT, plan.localId), plan.goalType, None, plan.title, plan.scope, [])
  }

  /** Two dives and a child that waits for both. */
  const DIVES := [Child("d", [], ["a"]), Child("e", [], ["b"]), Child("f", ["d", "e"], ["a", "b"])]

  const DIVING := Round(PARENT, DIVES, [GoalOf(DIVES[0]), GoalOf(DIVES[1]), GoalOf(DIVES[2])])

  /** Each dive persists a claim about its region. */
  function Found(goal: Goal): seq<RegionFacts> {
    if goal.scope == ["a"] || goal.scope == ["b"] then [RegionFacts(goal.scope[0], ["claim"])] else []
  }

  const DIVE_ENV := Env(_ => None, (_, _) => [], [], Recite, Found)

  lemma {:induction false} DivesAreFound()
    ensures IndexOf(DIVES, "d") == Some(0) && IndexOf(DIVES, "e") == Some(1)
    ensures UniqueIds(DIVES) && Closed(DIVES)
  {
    assert DIVES[0].localId == "d" && DIVES[1].localId == "e" && DIVES[2].localId == "f";
    IndexOfChild(DIVES, 0);
    IndexOfChild(DIVES, 1);
  }

  lemma {:induction false} DivingIsValid()
    ensures ValidRound(DIVING) && Closed(DIVES) && Acyclic(DIVES)
  {
    DivesAreFound();
    assert DIVES[0].localId == "d" && DIVES[1].localId == "e" && DIVES[2].localId == "f";
    assert IsRank(DIVES, [0, 0, 1]);
  }

  /** A dive waits for nobody. */
  lemma {:induction false} DivesReachNobody(i: nat, j: nat)
    requires i < 2
    ensures !Reaches(DIVING, i, j)
  {
    assert DIVES[i].dependsOn == [];
    AwaitsNobody(DIVING, i, j);
  }

  lemma {:induction false} DivesFind(goal: Goal)
    ensures goal.scope == ["a"] ==> Found(goal) == [RegionFacts("a", ["claim"])]
    ensures goal.scope == ["b"] ==> Found(goal) == [RegionFacts("b", ["claim"])]
    ensures |goal.scope| == 2 ==> Found(goal) == []
  {
  }

  lemma {:induction false} DivesSay(j: nat, f: RegionFacts)
    requires j < 3
    ensures MaySay(DIVING, DIVE_ENV, j, f) <==>
      (j == 0 && f == RegionFacts("a", ["claim"])) || (j == 1 && f == RegionFacts("b", ["claim"]))
  {
    var goal := DIVING.goals[j];
    assert goal.scope == DIVES[j].scope;
    forall memories
      ensures DIVE_ENV.persists(goal.(memories := memories)) == Found(goal)
    {
    }
    DivesFind(goal);
    assert DIVE_ENV.persists(goal.(memories := [])) == Found(goal);
  }

  lemma {:induction false} DivesAreRelevant()
    ensures RelevantTo(["a", "b"])("a") && RelevantTo(["a", "b"])("b")
  {
    assert Norm("a") == "a" && Norm("b") == "b";
    assert ["a", "b"][0] == "a" && ["a", "b"][1] == "b";
    assert PathsOverlap("a", "a") && PathsOverlap("b", "b");
  }

  lemma {:induction false} DiveTells(j: nat, region: string)
    requires (j == 0 && region == "a") || (j == 1 && region == "b")
    ensures Tells(DIVING, DIVE_ENV, j, 2) && AlwaysTells(DIVING, DIVE_ENV, j, 2)
  {
    var f, goal := RegionFacts(region, ["claim"]), DIVING.goals[j];
    DivesAreRelevant();
    assert DIVING.goals[2].scope == ["a", "b"] && goal.scope == [region];
    DivesSay(j, f);
    DivesFind(goal);
    forall memories
      ensures SaysSome(DIVING, DIVE_ENV, goal.(memories := memories), 2)
    {
      assert DIVE_ENV.persists(goal.(memories := memories)) == Found(goal) == [f];
      assert f in DIVE_ENV.persists(goal.(memories := memories));
    }
    DivesReachNobody(j, 2);
    DivesAreFound();
    assert DIVES[j].dependsOn == [];
    assert Resolved(DIVING, j);
  }

  lemma {:induction false} DivesOwnTheirRegions()
    ensures OwnRegions(DIVING, DIVE_ENV, 2)
  {
    forall j: nat, f | j < 3
      ensures MaySay(DIVING, DIVE_ENV, j, f) <==>
        (j == 0 && f == RegionFacts("a", ["claim"])) || (j == 1 && f == RegionFacts("b", ["claim"]))
    {
      DivesSay(j, f);
    }
    DiveTells(0, "a");
    DiveTells(1, "b");
  }

  /** Two complete runs of this round leave different reports of the child that waits for both
      dives. */
  lemma {:induction false} DivingIsNotFixed() returns (one: seq<nat>, other: seq<nat>)
    ensures ValidRound(DIVING) && Completes(DIVING, DIVE_ENV, one) && Completes(DIVING, DIVE_ENV, other)
    ensures LeftBy(DIVING, DIVE_ENV, one, 2) != LeftBy(DIVING, DIVE_ENV, other, 2)
  {
    DivingIsValid();
    DivesOwnTheirRegions();
    DiveTells(0, "a");
    DiveTells(1, "b");
    DivesReachNobody(0, 1);
    DivesReachNobody(1, 0);
    one, other := DiveOrderShows(DIVING, DIVE_ENV, 0, 1, 2);
  }
}
