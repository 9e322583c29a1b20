/** What the children of a split learn from each other through the shared log, and when the
    outcome of a split does not depend on its schedule. */
module SplitFacts {
  import opened Contract
  import opened SplitGraph
  import opened Knowledge
  import opened SplitScheduler
  import opened SplitRuns
  import opened SplitReach

  // ----- What a child has read -----

  /** `w` is `i` itself, or waits for it, or never runs. */
  ghost predicate After(r: Round, i: nat, w: nat) {
    w == i || Reaches(r, w, i) || (w < |r.children| && !Resolved(r, w))
  }

  /** Child `i` has read all that was persisted by those it waits for, directly or through
      others, and nothing of those after it. */
  ghost predicate ReadFits(r: Round, s: State, i: nat)
    requires |s.phases| == |r.children| && i < |r.children|
  {
    var read := ReadOf(s.seen, i);
    && Resolved(r, i) && read <= s.knowledge
    && (forall d: nat | Reaches(r, i, d) ::
          d < |r.children| && s.phases[d].Reported? && By(read, d) == MyFacts(s, d))
    && (forall w: nat | After(r, i, w) :: By(read, w) == [])
  }

  /** Nobody's facts come before those of somebody it waits for. */
  ghost predicate WritersInOrder(r: Round, knowledge: seq<Written>) {
    forall p, q | 0 <= p < q < |knowledge| :: !Reaches(r, knowledge[p].writer, knowledge[q].writer)
  }

  ghost predicate ReadsFit(r: Round, s: State)
    requires |s.phases| == |r.children|
  {
    && (forall k | 0 <= k < |s.knowledge| :: s.knowledge[k].writer < |r.children|)
    && WritersInOrder(r, s.knowledge)
    && forall i | 0 <= i < |r.children| && Started(s.phases[i]) :: ReadFits(r, s, i)
  }

  lemma {:induction false} WritersHaveMovedOn(
    r: Round, env: Env, i: nat, phase: Phase, reports: seq<Report>, read: seq<Written>,
    events: seq<Event>, facts: seq<RegionFacts>)
    requires i < |r.children| == |r.goals| && PhaseFits(r, env, i, phase, reports, read, events, facts)
    requires facts != []
    ensures Resolved(r, i) && !phase.Waiting?
  {
  }

  /** A child that waits for one that has not reported, or never runs, has persisted nothing. */
  lemma {:induction false} WaitersWroteNothing(r: Round, env: Env, s: State, i: nat, w: nat)
    requires ValidRound(r) && |s.phases| == |r.children| && i < |r.children| && w < |r.children|
    requires Inv(r, env, s) && !s.phases[i].Reported?
    requires Reaches(r, w, i) || !Resolved(r, w)
    ensures MyFacts(s, w) == []
  {
    assert OnTrack(r, env, s, w);
    if MyFacts(s, w) != [] {
      WritersHaveMovedOn(
        r, env, w, s.phases[w], DepReports(r, s, w), ReadOf(s.seen, w), MyEvents(r, s, w), MyFacts(s, w));
      ReachedReported(r, env, s, w, i);
    }
  }

  lemma {:induction false} EquippingFacts(r: Round, env: Env, s: State, i: nat)
    requires ValidRound(r) && |s.phases| == |r.children| && i < |r.children|
    requires OnTrack(r, env, s, i) && s.phases[i].Equipping?
    ensures MyFacts(s, i) == []
  {
  }

  lemma {:induction false} EquippingStep(r: Round, env: Env, s: State, i: nat)
    requires ValidRound(r) && |s.phases| == |r.children| && Enabled(r, s, i) && s.phases[i].Equipping?
    ensures var t := Step(r, env, s, i);
      && t.knowledge == s.knowledge && ReadOf(t.seen, i) == s.knowledge
      && t.phases == s.phases[i := t.phases[i]] && !t.phases[i].Reported?
  {
    assert Tag(i, []) == [] && s.knowledge + [] == s.knowledge;
  }

  lemma {:induction false} FreshReadFits(r: Round, s: State, t: State, i: nat)
    requires |t.phases| == |r.children| && i < |r.children| && Resolved(r, i)
    requires t.knowledge == s.knowledge && ReadOf(t.seen, i) == s.knowledge
    requires forall d: nat | Reaches(r, i, d) :: d < |r.children| && t.phases[d].Reported?
    requires forall w: nat | After(r, i, w) :: By(s.knowledge, w) == []
    ensures ReadFits(r, t, i)
  {
  }

  lemma {:induction false} NothingFromLater(r: Round, env: Env, s: State, i: nat, w: nat)
    requires ValidRound(r) && |s.phases| == |r.children| && i < |r.children| && Inv(r, env, s)
    requires s.phases[i].Equipping? && After(r, i, w)
    ensures By(s.knowledge, w) == []
  {
    assert OnTrack(r, env, s, i);
    if w == i {
      EquippingFacts(r, env, s, i);
    } else {
      if Reaches(r, w, i) { ReacherIsResolved(r, w, i); }
      WaitersWroteNothing(r, env, s, i, w);
    }
  }

  lemma {:induction false} EquippingIsResolved(r: Round, env: Env, s: State, i: nat)
    requires ValidRound(r) && |s.phases| == |r.children| && i < |r.children|
    requires Inv(r, env, s) && s.phases[i].Equipping?
    ensures Resolved(r, i)
  {
    assert OnTrack(r, env, s, i);
  }

  lemma {:induction false} ReaderFits(r: Round, env: Env, s: State, i: nat)
    requires ValidRound(r) && |s.phases| == |r.children| && Enabled(r, s, i) && Inv(r, env, s)
    requires s.phases[i].Equipping?
    ensures ReadFits(r, Step(r, env, s, i), i)
  {
    var t := Step(r, env, s, i);
    EquippingStep(r, env, s, i);
    EquippingIsResolved(r, env, s, i);
    forall d: nat | Reaches(r, i, d)
      ensures d < |r.children| && t.phases[d].Reported?
    {
      ReachedReported(r, env, s, i, d);
    }
    forall w: nat | After(r, i, w)
      ensures By(s.knowledge, w) == []
    {
      NothingFromLater(r, env, s, i, w);
    }
    FreshReadFits(r, s, t, i);
  }

  lemma {:induction false} OldReadFits(r: Round, s: State, i: nat, m: Move, j: nat)
    requires ValidRound(r) && |s.phases| == |r.children| && i < |r.children| && j < |r.children|
    requires !s.phases[i].Reported? && AllOf(m.events, r.goals[i].id)
    requires ReadFits(r, s, j) && !(i == j && s.phases[i].Equipping?)
    ensures ReadFits(r, Apply(s, i, m), j)
  {
    var t := Apply(s, i, m);
    ApplyIsLocal(r, s, i, m, j);
    forall d: nat | Reaches(r, j, d)
      ensures d < |r.children| && t.phases[d].Reported? && MyFacts(t, d) == MyFacts(s, d)
    {
      ApplyIsLocal(r, s, i, m, d);
    }
  }

  lemma {:induction false} WritersAreChildren(r: Round, s: State, i: nat, m: Move)
    requires |s.phases| == |r.children| && i < |r.children|
    requires forall k | 0 <= k < |s.knowledge| :: s.knowledge[k].writer < |r.children|
    ensures var t := Apply(s, i, m);
      forall k | 0 <= k < |t.knowledge| :: t.knowledge[k].writer < |r.children|
  {
  }

  lemma {:induction false} EntryIsBy(knowledge: seq<Written>, k: nat)
    requires k < |knowledge|
    ensures knowledge[k].facts in By(knowledge, knowledge[k].writer)
  {
    if k < |knowledge| - 1 {
      EntryIsBy(knowledge[..|knowledge| - 1], k);
    }
  }

  /** A running child writes after everybody it waits for. */
  lemma {:induction false} WriterComesLast(r: Round, env: Env, s: State, i: nat, p: nat)
    requires ValidRound(r) && |s.phases| == |r.children| && i < |r.children| && Inv(r, env, s)
    requires s.phases[i].Running? && p < |s.knowledge| && s.knowledge[p].writer < |r.children|
    ensures !Reaches(r, s.knowledge[p].writer, i)
  {
    var w := s.knowledge[p].writer;
    EntryIsBy(s.knowledge, p);
    if Reaches(r, w, i) { WaitersWroteNothing(r, env, s, i, w); }
  }

  lemma {:induction false} RunningReachesNotItself(r: Round, env: Env, s: State, i: nat)
    requires ValidRound(r) && |s.phases| == |r.children| && i < |r.children| && Inv(r, env, s)
    requires s.phases[i].Running?
    ensures !Reaches(r, i, i)
  {
    if Reaches(r, i, i) { ReachedReported(r, env, s, i, i); }
  }

  lemma {:induction false} TagInOrder(r: Round, knowledge: seq<Written>, i: nat, facts: seq<RegionFacts>)
    requires WritersInOrder(r, knowledge) && !Reaches(r, i, i)
    requires forall p | 0 <= p < |knowledge| :: !Reaches(r, knowledge[p].writer, i)
    ensures WritersInOrder(r, knowledge + Tag(i, facts))
  {
  }

  lemma {:induction false} OnlyRunningWrites(
    r: Round, env: Env, i: nat, phase: Phase, reports: seq<Report>, knowledge: seq<Written>)
    requires i < |r.children| == |r.goals| && MayMove(r, i, phase, reports) && !phase.Running?
    ensures MoveOf(r, env, i, phase, reports, knowledge).facts == []
  {
  }

  lemma {:induction false} StepKeepsOrder(r: Round, env: Env, s: State, i: nat)
    requires ValidRound(r) && |s.phases| == |r.children| && Enabled(r, s, i) && Inv(r, env, s)
    requires WritersInOrder(r, s.knowledge)
    requires forall k | 0 <= k < |s.knowledge| :: s.knowledge[k].writer < |r.children|
    ensures WritersInOrder(r, Step(r, env, s, i).knowledge)
  {
    var m := MoveOf(r, env, i, s.phases[i], DepReports(r, s, i), s.knowledge);
    if s.phases[i].Running? {
      RunningReachesNotItself(r, env, s, i);
      forall p | 0 <= p < |s.knowledge|
        ensures !Reaches(r, s.knowledge[p].writer, i)
      {
        WriterComesLast(r, env, s, i, p);
      }
      TagInOrder(r, s.knowledge, i, m.facts);
    } else {
      OnlyRunningWrites(r, env, i, s.phases[i], DepReports(r, s, i), s.knowledge);
      assert s.knowledge + Tag(i, []) == s.knowledge;
    }
  }

  lemma {:induction false} StepKeepsReads(r: Round, env: Env, s: State, i: nat)
    requires ValidRound(r) && |s.phases| == |r.children| && Enabled(r, s, i) && Inv(r, env, s) && ReadsFit(r, s)
    ensures ReadsFit(r, Step(r, env, s, i))
  {
    var t := Step(r, env, s, i);
    var m := MoveOf(r, env, i, s.phases[i], DepReports(r, s, i), s.knowledge);
    MovesLogTheirOwn(r, env, i, s.phases[i], DepReports(r, s, i), s.knowledge);
    WritersAreChildren(r, s, i, m);
    StepKeepsOrder(r, env, s, i);
    forall j | 0 <= j < |r.children| && Started(t.phases[j])
      ensures ReadFits(r, t, j)
    {
      if j == i && s.phases[i].Equipping? {
        ReaderFits(r, env, s, i);
      } else {
        if j == i { OnlyReadersStart(r, env, i, s.phases[i], DepReports(r, s, i), s.knowledge); }
        OldReadFits(r, s, i, m, j);
      }
    }
  }

  lemma {:induction false} EveryRunKeepsReads(r: Round, env: Env, schedule: seq<nat>)
    requires ValidRound(r) && Legal(r, env, schedule)
    ensures ReadsFit(r, Exec(r, env, schedule))
  {
    if schedule != [] {
      var front := schedule[..|schedule| - 1];
      EveryRunKeepsReads(r, env, front);
      EveryRunKeepsInv(r, env, front);
      StepKeepsReads(r, env, Exec(r, env, front), schedule[|schedule| - 1]);
    }
  }

  /** In every run, a child that has started had read all that those it waits for ever persist,
      directly or through others, and nothing of itself or of a child that waits for it. */
  lemma {:induction false} ReadsCoverDependencies(r: Round, env: Env, schedule: seq<nat>, i: nat)
    requires ValidRound(r) && Legal(r, env, schedule) && i < |r.children|
    requires Started(Exec(r, env, schedule).phases[i])
    ensures ReadFits(r, Exec(r, env, schedule), i)
  {
    EveryRunKeepsReads(r, env, schedule);
  }

  /** Child `d` has reported, and child `i` has read all that it persists. */
  ghost predicate HasHeard(s: State, i: nat, d: nat)
    requires d < |s.phases|
  {
    s.phases[d].Reported? && By(ReadOf(s.seen, i), d) == MyFacts(s, d)
  }

  // ----- When the schedule does not matter -----

  /** The run of child `j` may persist these facts, on something that it is given to remember. */
  ghost predicate MaySay(r: Round, env: Env, j: nat, f: RegionFacts)
    requires j < |r.goals|
  {
    exists memories :: f in env.persists(r.goals[j].(memories := memories))
  }

  /** Child `j`'s run may persist facts about a region that child `i` is told about. */
  ghost predicate MayTell(r: Round, env: Env, j: nat, i: nat)
    requires i < |r.goals| && j < |r.goals|
  {
    exists f :: MaySay(r, env, j, f) && RelevantTo(r.goals[i].scope)(f.region)
  }

  /** Child `i` can learn something from child `j`. */
  ghost predicate Tells(r: Round, env: Env, j: nat, i: nat) {
    i < |r.goals| == |r.children| && j < |r.children| && MayTell(r, env, j, i) && !After(r, i, j)
  }

  /** Child `i` waits for all that it can learn from, and of any two of those one waits for the
      other. */
  ghost predicate TellersInOrder(r: Round, env: Env, i: nat) {
    && (forall j: nat | Tells(r, env, j, i) :: Reaches(r, i, j))
    && (forall j: nat, k: nat | Tells(r, env, j, i) && Tells(r, env, k, i) ::
          j == k || Reaches(r, j, k) || Reaches(r, k, j))
  }

  /** So it is for every child that can run. */
  ghost predicate AllInOrder(r: Round, env: Env) {
    forall i: nat | i < |r.children| && Resolved(r, i) :: TellersInOrder(r, env, i)
  }

  lemma {:induction false} FactsSnoc(read: seq<Written>)
    requires read != []
    ensures Facts(read) == Facts(read[..|read| - 1]) + [read[|read| - 1].facts]
  {
  }

  /** The entries about wanted regions. */
  ghost function Heard(wanted: string -> bool, read: seq<Written>): seq<Written> {
    if read == [] then []
    else
      var heard, last := Heard(wanted, read[..|read| - 1]), read[|read| - 1];
      if wanted(last.facts.region) then heard + [last] else heard
  }

  lemma {:induction false} HeardIsKept(wanted: string -> bool, read: seq<Written>)
    ensures Facts(Heard(wanted, read)) == Keep(wanted, Facts(read))
  {
    if read != [] {
      var front, last := read[..|read| - 1], read[|read| - 1];
      HeardIsKept(wanted, front);
      FactsSnoc(read);
      KeepSnoc(wanted, Facts(front), last.facts);
      if wanted(last.facts.region) {
        assert (Heard(wanted, front) + [last])[..|Heard(wanted, front)|] == Heard(wanted, front);
        FactsSnoc(Heard(wanted, front) + [last]);
      }
    }
  }

  lemma {:induction false} HeardBy(wanted: string -> bool, read: seq<Written>, j: nat)
    ensures By(Heard(wanted, read), j) == Keep(wanted, By(read, j))
  {
    if read != [] {
      var front, last := read[..|read| - 1], read[|read| - 1];
      HeardBy(wanted, front, j);
      KeepSnoc(wanted, By(front, j), last.facts);
      if wanted(last.facts.region) { BySnoc(Heard(wanted, front), last, j); }
    }
  }

  lemma {:induction false} BySnoc(read: seq<Written>, last: Written, j: nat)
    ensures By(read + [last], j) == if last.writer == j then By(read, j) + [last.facts] else By(read, j)
  {
    assert (read + [last])[..|read|] == read;
  }

  /** Where an entry that was heard stands in the log. */
  lemma {:induction false} HeardStands(wanted: string -> bool, read: seq<Written>, p: nat) returns (at: nat)
    requires p < |Heard(wanted, read)|
    ensures p <= at < |read| && read[at] == Heard(wanted, read)[p] && wanted(read[at].facts.region)
  {
    var front, last := read[..|read| - 1], read[|read| - 1];
    if p < |Heard(wanted, front)| {
      at := HeardStands(wanted, front, p);
    } else {
      HeardIsShorter(wanted, front);
      at := |read| - 1;
    }
  }

  lemma {:induction false} HeardIsShorter(wanted: string -> bool, read: seq<Written>)
    ensures |Heard(wanted, read)| <= |read|
  {
    if read != [] { HeardIsShorter(wanted, read[..|read| - 1]); }
  }

  lemma {:induction false} HeardInOrder(r: Round, wanted: string -> bool, read: seq<Written>)
    requires WritersInOrder(r, read)
    ensures WritersInOrder(r, Heard(wanted, read))
  {
    if read != [] {
      var front, last := read[..|read| - 1], read[|read| - 1];
      assert WritersInOrder(r, front);
      HeardInOrder(r, wanted, front);
      var heard := Heard(wanted, front);
      forall p | 0 <= p < |heard|
        ensures !Reaches(r, heard[p].writer, last.writer)
      {
        var at := HeardStands(wanted, front, p);
        assert read[at] == heard[p];
      }
    }
  }

  ghost predicate SameParts(a: seq<Written>, b: seq<Written>) {
    forall j: nat :: By(a, j) == By(b, j)
  }

  /** The writers, any two of which wait for one another. */
  ghost predicate WritersChained(r: Round, read: seq<Written>) {
    forall p, q | 0 <= p < |read| && 0 <= q < |read| ::
      read[p].writer == read[q].writer
      || Reaches(r, read[p].writer, read[q].writer) || Reaches(r, read[q].writer, read[p].writer)
  }

  lemma {:induction false} WriterOccurs(read: seq<Written>, j: nat) returns (p: nat)
    requires By(read, j) != []
    ensures p < |read| && read[p].writer == j
  {
    if read[|read| - 1].writer == j { p := |read| - 1; } else { p := WriterOccurs(read[..|read| - 1], j); }
  }

  lemma {:induction false} SameLastWriter(r: Round, a: seq<Written>, b: seq<Written>)
    requires SameParts(a, b) && a != [] && b != []
    requires WritersInOrder(r, a) && WritersInOrder(r, b) && WritersChained(r, a)
    ensures a[|a| - 1] == b[|b| - 1]
  {
    var x, y := a[|a| - 1], b[|b| - 1];
    assert By(a, x.writer) == By(b, x.writer) && By(a, y.writer) == By(b, y.writer);
    if x.writer == y.writer {
      LastOfPart(a);
      LastOfPart(b);
    } else {
      EntryIsBy(a, |a| - 1);
      EntryIsBy(b, |b| - 1);
      var p := WriterOccurs(a, y.writer);
      var q := WriterOccurs(b, x.writer);
    }
  }

  lemma {:induction false} LastOfPart(a: seq<Written>)
    requires a != []
    ensures var x := a[|a| - 1]; By(a, x.writer) != [] && By(a, x.writer)[|By(a, x.writer)| - 1] == x.facts
  {
  }

  lemma {:induction false} FrontParts(a: seq<Written>, b: seq<Written>)
    requires SameParts(a, b) && a != [] && b != [] && a[|a| - 1] == b[|b| - 1]
    ensures SameParts(a[..|a| - 1], b[..|b| - 1])
  {
    var front, other := a[..|a| - 1], b[..|b| - 1];
    forall j: nat
      ensures By(front, j) == By(other, j)
    {
      assert By(a, j) == By(b, j);
      if a[|a| - 1].writer == j {
        assert By(a, j)[..|By(a, j)| - 1] == By(front, j);
        assert By(b, j)[..|By(b, j)| - 1] == By(other, j);
      }
    }
  }

  lemma {:induction false} NoPartsLeft(a: seq<Written>, b: seq<Written>)
    requires SameParts(a, b) && a == []
    ensures b == []
  {
    if b != [] { EntryIsBy(b, |b| - 1); }
  }

  /** The parts of chained writers can be put together in one order only. */
  lemma {:induction false} PartsDetermine(r: Round, a: seq<Written>, b: seq<Written>)
    requires SameParts(a, b) && WritersInOrder(r, a) && WritersInOrder(r, b) && WritersChained(r, a)
    ensures a == b
  {
    if a == [] {
      NoPartsLeft(a, b);
    } else if b == [] {
      NoPartsLeft(b, a);
    } else {
      SameLastWriter(r, a, b);
      FrontParts(a, b);
      var front, other := a[..|a| - 1], b[..|b| - 1];
      assert WritersInOrder(r, front) && WritersInOrder(r, other) && WritersChained(r, front);
      PartsDetermine(r, front, other);
      assert a == front + [a[|a| - 1]] && b == other + [b[|b| - 1]];
    }
  }

  /** What a child persists, it persists on its own goal, with some memories. */
  lemma {:induction false} FactsAreItsOwn(r: Round, env: Env, i: nat, reports: seq<Report>, read: seq<Written>)
    requires i < |r.children| == |r.goals| && (Resolved(r, i) ==> KnowsReports(r, i, reports))
    ensures var facts := Due(r, env, i, reports, read).facts;
      facts == [] || exists memories :: facts == env.persists(r.goals[i].(memories := memories))
  {
    if Resolved(r, i) && Starving(r, env, i, reports) == [] {
      var goal := Equip(env, MyFloor(r, env, i, reports).goal, read);
      assert goal == r.goals[i].(memories := goal.memories);
    }
  }

  lemma {:induction false} PhaseFactsAreItsOwn(
    r: Round, env: Env, i: nat, phase: Phase, reports: seq<Report>, read: seq<Written>,
    events: seq<Event>, facts: seq<RegionFacts>)
    requires i < |r.children| == |r.goals| && PhaseFits(r, env, i, phase, reports, read, events, facts)
    ensures facts == [] || exists memories :: facts == env.persists(r.goals[i].(memories := memories))
  {
    if phase.Emitting? || phase.Reported? {
      FactsAreItsOwn(r, env, i, reports, read);
    } else if phase.Finishing? {
      assert phase.goal == r.goals[i].(memories := phase.goal.memories);
    }
  }

  lemma {:induction false} WriterMaySay(r: Round, env: Env, s: State, j: nat, f: RegionFacts)
    requires ValidRound(r) && |s.phases| == |r.children| && j < |r.children|
    requires OnTrack(r, env, s, j) && f in MyFacts(s, j)
    ensures MaySay(r, env, j, f)
  {
    PhaseFactsAreItsOwn(
      r, env, j, s.phases[j], DepReports(r, s, j), ReadOf(s.seen, j), MyEvents(r, s, j), MyFacts(s, j));
    var memories :| MyFacts(s, j) == env.persists(r.goals[j].(memories := memories));
    assert f in env.persists(r.goals[j].(memories := memories));
  }

  lemma {:induction false} PrefixIsBy(read: seq<Written>, knowledge: seq<Written>, k: nat)
    requires read <= knowledge && k < |read|
    ensures read[k].facts in By(read, read[k].writer) && read[k].facts in By(knowledge, read[k].writer)
  {
    EntryIsBy(read, k);
    EntryIsBy(knowledge, k);
  }

  ghost predicate GoodState(r: Round, env: Env, s: State) {
    ValidRound(r) && |s.phases| == |r.children| && Inv(r, env, s) && ReadsFit(r, s)
  }

  lemma {:induction false} EveryRunIsGood(r: Round, env: Env, schedule: seq<nat>)
    requires ValidRound(r) && Legal(r, env, schedule)
    ensures GoodState(r, env, Exec(r, env, schedule))
  {
    EveryRunKeepsInv(r, env, schedule);
    EveryRunKeepsReads(r, env, schedule);
  }

  /** What child `i` hears comes from those that tell it something. */
  lemma {:induction false} HeardFromTellers(r: Round, env: Env, s: State, i: nat, p: nat)
    requires GoodState(r, env, s) && i < |r.children| && ReadFits(r, s, i)
    requires p < |Heard(RelevantTo(r.goals[i].scope), ReadOf(s.seen, i))|
    ensures Tells(r, env, Heard(RelevantTo(r.goals[i].scope), ReadOf(s.seen, i))[p].writer, i)
  {
    var read := ReadOf(s.seen, i);
    var k := HeardStands(RelevantTo(r.goals[i].scope), read, p);
    var j := read[k].writer;
    PrefixIsBy(read, s.knowledge, k);
    assert s.knowledge[k] == read[k];
    WriterMaySay(r, env, s, j, read[k].facts);
    assert !After(r, i, j);
  }

  /** Those it waits for left the same in both states. */
  ghost predicate SameReached(r: Round, s: State, t: State, i: nat)
    requires |s.phases| == |t.phases| == |r.children|
  {
    forall d: nat | Reaches(r, i, d) :: MyFacts(s, d) == MyFacts(t, d)
  }

  lemma {:induction false} SameParted(r: Round, env: Env, s: State, t: State, i: nat, j: nat)
    requires GoodState(r, env, s) && GoodState(r, env, t) && i < |r.children|
    requires ReadFits(r, s, i) && ReadFits(r, t, i) && TellersInOrder(r, env, i) && SameReached(r, s, t, i)
    ensures var wanted := RelevantTo(r.goals[i].scope);
      By(Heard(wanted, ReadOf(s.seen, i)), j) == By(Heard(wanted, ReadOf(t.seen, i)), j)
  {
    var wanted := RelevantTo(r.goals[i].scope);
    if Reaches(r, i, j) {
      HeardBy(wanted, ReadOf(s.seen, i), j);
      HeardBy(wanted, ReadOf(t.seen, i), j);
    } else {
      NothingHeard(r, env, s, i, j);
      NothingHeard(r, env, t, i, j);
    }
  }

  lemma {:induction false} NothingHeard(r: Round, env: Env, s: State, i: nat, j: nat)
    requires GoodState(r, env, s) && i < |r.children| && ReadFits(r, s, i)
    requires TellersInOrder(r, env, i) && !Reaches(r, i, j)
    ensures By(Heard(RelevantTo(r.goals[i].scope), ReadOf(s.seen, i)), j) == []
  {
    var heard := Heard(RelevantTo(r.goals[i].scope), ReadOf(s.seen, i));
    if By(heard, j) != [] {
      var p := WriterOccurs(heard, j);
      HeardFromTellers(r, env, s, i, p);
    }
  }

  lemma {:induction false} HeardIsChained(r: Round, env: Env, s: State, i: nat)
    requires GoodState(r, env, s) && i < |r.children| && ReadFits(r, s, i) && TellersInOrder(r, env, i)
    ensures var heard := Heard(RelevantTo(r.goals[i].scope), ReadOf(s.seen, i));
      WritersChained(r, heard) && WritersInOrder(r, heard)
  {
    var read := ReadOf(s.seen, i);
    var heard := Heard(RelevantTo(r.goals[i].scope), read);
    forall p, q | 0 <= p < |heard| && 0 <= q < |heard|
      ensures heard[p].writer == heard[q].writer
        || Reaches(r, heard[p].writer, heard[q].writer) || Reaches(r, heard[q].writer, heard[p].writer)
    {
      HeardFromTellers(r, env, s, i, p);
      HeardFromTellers(r, env, s, i, q);
    }
    assert WritersInOrder(r, read);
    HeardInOrder(r, RelevantTo(r.goals[i].scope), read);
  }

  lemma {:induction false} SameWanted(
    wanted: string -> bool, known: seq<RegionFacts>, a: seq<RegionFacts>, b: seq<RegionFacts>)
    requires Keep(wanted, a) == Keep(wanted, b)
    ensures Keep(wanted, Project(known + a)) == Keep(wanted, Project(known + b))
  {
    KeepConcat(wanted, known, a);
    KeepConcat(wanted, known, b);
    OnlyRelevantFactsMatter(wanted, known + a);
    OnlyRelevantFactsMatter(wanted, known + b);
  }

  /** Chained tellers that left the same are heard alike. */
  lemma {:induction false} HeardAlike(r: Round, env: Env, s: State, t: State, i: nat)
    requires GoodState(r, env, s) && GoodState(r, env, t) && i < |r.children|
    requires ReadFits(r, s, i) && ReadFits(r, t, i) && TellersInOrder(r, env, i) && SameReached(r, s, t, i)
    ensures LateMemories(r.goals[i].scope, env.known + Facts(ReadOf(s.seen, i))) ==
      LateMemories(r.goals[i].scope, env.known + Facts(ReadOf(t.seen, i)))
  {
    var wanted, one, other := RelevantTo(r.goals[i].scope), ReadOf(s.seen, i), ReadOf(t.seen, i);
    forall j: nat
      ensures By(Heard(wanted, one), j) == By(Heard(wanted, other), j)
    {
      SameParted(r, env, s, t, i, j);
    }
    HeardIsChained(r, env, s, i);
    HeardIsChained(r, env, t, i);
    PartsDetermine(r, Heard(wanted, one), Heard(wanted, other));
    HeardIsKept(wanted, one);
    HeardIsKept(wanted, other);
    SameWanted(wanted, env.known, Facts(one), Facts(other));
  }

  /** A child that does not start leaves the same, whatever it could have read. */
  lemma {:induction false} SameDue(
    r: Round, env: Env, i: nat, reports: seq<Report>, read: seq<Written>, other: seq<Written>)
    requires i < |r.children| == |r.goals| && (Resolved(r, i) ==> KnowsReports(r, i, reports))
    requires Resolved(r, i) && Starving(r, env, i, reports) == [] ==>
      LateMemories(r.goals[i].scope, env.known + Facts(read)) ==
      LateMemories(r.goals[i].scope, env.known + Facts(other))
    ensures Due(r, env, i, reports, read) == Due(r, env, i, reports, other)
  {
    if Resolved(r, i) && Starving(r, env, i, reports) == [] {
      var goal := MyFloor(r, env, i, reports).goal;
      assert goal.scope == r.goals[i].scope;
      assert Equip(env, goal, read) == Equip(env, goal, other);
    }
  }

  lemma {:induction false} LeftIsDue(r: Round, env: Env, s: State, i: nat)
    requires ValidRound(r) && |s.phases| == |r.children| && i < |r.children| && OnTrack(r, env, s, i)
    requires s.phases[i].Reported?
    ensures Resolved(r, i) ==> KnowsReports(r, i, DepReports(r, s, i))
    ensures Left(r, s, i) == Due(r, env, i, DepReports(r, s, i), ReadOf(s.seen, i))
  {
  }

  lemma {:induction false} NotStarvedStarted(r: Round, env: Env, s: State, i: nat)
    requires ValidRound(r) && |s.phases| == |r.children| && i < |r.children| && OnTrack(r, env, s, i)
    requires s.phases[i].Reported? && Cleared(r, env, i, DepReports(r, s, i))
    ensures Started(s.phases[i])
  {
    LeftIsDue(r, env, s, i);
    RunOneEndings(r, env, i, DepReports(r, s, i), ReadOf(s.seen, i));
  }

  lemma {:induction false} SameDepReports(r: Round, s: State, t: State, i: nat)
    requires |s.phases| == |t.phases| == |r.children| == |r.goals| && i < |r.children|
    requires Resolved(r, i) && DepsReported(r, s, i) && DepsReported(r, t, i)
    requires forall k | 0 <= k < |r.children[i].dependsOn| ::
      s.phases[Dep(r, i, k)].report == t.phases[Dep(r, i, k)].report
    ensures DepReports(r, s, i) == DepReports(r, t, i)
  {
  }

  lemma {:induction false} SameDependencies(r: Round, env: Env, rank: seq<nat>, s: State, t: State, i: nat)
    requires IsRank(r.children, rank) && GoodState(r, env, s) && GoodState(r, env, t) && AllInOrder(r, env)
    requires i < |r.children| && s.phases[i].Reported? && t.phases[i].Reported? && Resolved(r, i)
    ensures DepReports(r, s, i) == DepReports(r, t, i) && SameReached(r, s, t, i)
    decreases rank[i], 0
  {
    LeftIsDue(r, env, s, i);
    LeftIsDue(r, env, t, i);
    forall k | 0 <= k < |r.children[i].dependsOn|
      ensures s.phases[Dep(r, i, k)].report == t.phases[Dep(r, i, k)].report
    {
      SameLeft(r, env, rank, s, t, Dep(r, i, k));
    }
    SameDepReports(r, s, t, i);
    forall d: nat | Reaches(r, i, d)
      ensures MyFacts(s, d) == MyFacts(t, d)
    {
      ReachedReported(r, env, s, i, d);
      ReachedReported(r, env, t, i, d);
      RankFalls(r, rank, i, d);
      SameLeft(r, env, rank, s, t, d);
    }
  }

  lemma {:induction false} SameLeft(r: Round, env: Env, rank: seq<nat>, s: State, t: State, i: nat)
    requires IsRank(r.children, rank) && GoodState(r, env, s) && GoodState(r, env, t) && AllInOrder(r, env)
    requires i < |r.children| && s.phases[i].Reported? && t.phases[i].Reported?
    ensures Left(r, s, i) == Left(r, t, i)
    decreases rank[i], 1
  {
    LeftIsDue(r, env, s, i);
    LeftIsDue(r, env, t, i);
    var reports := DepReports(r, s, i);
    if Resolved(r, i) {
      SameDependencies(r, env, rank, s, t, i);
      if Starving(r, env, i, reports) == [] {
        NotStarvedStarted(r, env, s, i);
        NotStarvedStarted(r, env, t, i);
        HeardAlike(r, env, s, t, i);
      }
      SameDue(r, env, i, reports, ReadOf(s.seen, i), ReadOf(t.seen, i));
    }
  }

  /** Two complete runs of the same acyclic round end alike, when every child waits for all that
      it can learn from and those wait for one another. */
  lemma {:induction false} OutcomeIsScheduleIndependent(
    r: Round, env: Env, one: seq<nat>, s: State, other: seq<nat>, t: State, i: nat)
    requires ValidRound(r) && Acyclic(r.children) && AllInOrder(r, env) && i < |r.children|
    requires Legal(r, env, one) && s == Exec(r, env, one) && AllReported(s)
    requires Legal(r, env, other) && t == Exec(r, env, other) && AllReported(t)
    ensures Left(r, s, i) == Left(r, t, i)
  {
    var rank :| IsRank(r.children, rank);
    EveryRunIsGood(r, env, one);
    EveryRunIsGood(r, env, other);
    SameLeft(r, env, rank, s, t, i);
  }
}
