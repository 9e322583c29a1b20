/** The facts that dives leave in the shared log and how a later child reads them:
    `projectKnowledge` (`src/eventlog/projections.ts`), `factsForRegions`
    (`src/engine/assembly.ts`) and `regionFactsToMemories`
    (`src/engine/knowledge-memory.ts`). One repository is modelled; a claim stands for its
    text with its anchors, and provenance tags are not part of the model. */
module Knowledge {
  import opened Contract
  import opened Scopes
  import opened Selections
  import Text

  datatype RegionFacts = RegionFacts(region: string, claims: seq<string>)

  // ----- The projection -----

  /** Setting the key of an insertion-ordered map. */
  function Upsert(view: seq<RegionFacts>, f: RegionFacts): seq<RegionFacts> {
    if view == [] then [f]
    else if view[0].region == f.region then [f] + view[1..]
    else [view[0]] + Upsert(view[1..], f)
  }

  /** The latest facts of each region, in the order in which the regions were first written. */
  function Project(log: seq<RegionFacts>): seq<RegionFacts> {
    if log == [] then [] else Upsert(Project(log[..|log| - 1]), log[|log| - 1])
  }

  /** A whole-repository dive is relevant to everything. */
  predicate RegionOverlapsScope(region: string, scope: seq<string>) {
    Norm(region) == "" || exists path | path in scope :: PathsOverlap(path, region)
  }

  /** The regions a child with this scope is told about. */
  function RelevantTo(scope: seq<string>): string -> bool {
    region => scope == [] || RegionOverlapsScope(region, scope)
  }

  function Keep(wanted: string -> bool, facts: seq<RegionFacts>): seq<RegionFacts> {
    if facts == [] then []
    else
      var last := facts[|facts| - 1];
      var kept := Keep(wanted, facts[..|facts| - 1]);
      if wanted(last.region) then kept + [last] else kept
  }

  const DIVE := "dive:"

  function PointersOf(f: RegionFacts): seq<MemoryPointer> {
    seq(|f.claims|, i requires 0 <= i < |f.claims| =>
      MemoryPointer(DIVE + f.region + "#" + Text.Digits(i), f.claims[i]))
  }

  function Pointers(facts: seq<RegionFacts>): seq<MemoryPointer> {
    if facts == [] then [] else Pointers(facts[..|facts| - 1]) + PointersOf(facts[|facts| - 1])
  }

  /** The memories a child with this scope gets from the facts logged so far. */
  function LateMemories(scope: seq<string>, log: seq<RegionFacts>): seq<MemoryPointer> {
    Pointers(Keep(RelevantTo(scope), Project(log)))
  }

  /** What a child with this scope is told about: everything when it has no scope, a dive of
      the whole repository always, and otherwise the regions that, segment by segment, are an
      ancestor of a path of its scope, or below one, or equal to it. */
  lemma {:induction false} RelevantMeansRelated(scope: seq<string>, region: string)
    ensures RelevantTo(scope)(region) <==>
      scope == [] || OnlySlashes(region) || exists path | path in scope :: Related(path, region)
  {
    NormIsEmptyIff(region);
    forall path
      ensures PathsOverlap(path, region) <==> Related(path, region)
    {
      OverlapMeansRelated(path, region);
    }
    if path :| path in scope && PathsOverlap(path, region) { assert Related(path, region); }
    if path :| path in scope && Related(path, region) { assert PathsOverlap(path, region); }
  }

  // ----- Only relevant facts matter -----

  lemma {:induction false} KeepConcat(wanted: string -> bool, a: seq<RegionFacts>, b: seq<RegionFacts>)
    ensures Keep(wanted, a + b) == Keep(wanted, a) + Keep(wanted, b)
  {
    if b == [] {
      assert a + b == a;
    } else {
      KeepConcat(wanted, a, b[..|b| - 1]);
      assert (a + b)[..|a + b| - 1] == a + b[..|b| - 1];
    }
  }

  lemma {:induction false} KeepSnoc(wanted: string -> bool, front: seq<RegionFacts>, last: RegionFacts)
    ensures Keep(wanted, front + [last]) ==
      if wanted(last.region) then Keep(wanted, front) + [last] else Keep(wanted, front)
  {
    assert (front + [last])[..|front|] == front;
  }

  lemma {:induction false} KeepOne(wanted: string -> bool, f: RegionFacts)
    ensures Keep(wanted, [f]) == if wanted(f.region) then [f] else []
  {
    assert [f][..0] == [];
  }

  lemma {:induction false} KeepCons(wanted: string -> bool, head: RegionFacts, rest: seq<RegionFacts>)
    ensures Keep(wanted, [head] + rest) ==
      if wanted(head.region) then [head] + Keep(wanted, rest) else Keep(wanted, rest)
  {
    KeepConcat(wanted, [head], rest);
    KeepOne(wanted, head);
  }

  lemma {:induction false} UpsertCons(head: RegionFacts, rest: seq<RegionFacts>, f: RegionFacts)
    ensures Upsert([head] + rest, f) == if head.region == f.region then [f] + rest else [head] + Upsert(rest, f)
  {
    assert ([head] + rest)[1..] == rest;
  }

  lemma {:induction false} UnwantedUpsert(wanted: string -> bool, view: seq<RegionFacts>, f: RegionFacts)
    requires !wanted(f.region)
    ensures Keep(wanted, Upsert(view, f)) == Keep(wanted, view)
  {
    if view == [] {
      KeepOne(wanted, f);
    } else {
      var head, rest := view[0], view[1..];
      assert view == [head] + rest;
      UpsertCons(head, rest, f);
      KeepCons(wanted, head, rest);
      if head.region == f.region {
        KeepCons(wanted, f, rest);
      } else {
        UnwantedUpsert(wanted, rest, f);
        KeepCons(wanted, head, Upsert(rest, f));
      }
    }
  }

  lemma {:induction false} WantedUpsert(wanted: string -> bool, view: seq<RegionFacts>, f: RegionFacts)
    requires wanted(f.region)
    ensures Keep(wanted, Upsert(view, f)) == Upsert(Keep(wanted, view), f)
  {
    if view == [] {
      KeepOne(wanted, f);
    } else {
      var head, rest := view[0], view[1..];
      assert view == [head] + rest;
      UpsertCons(head, rest, f);
      KeepCons(wanted, head, rest);
      UpsertCons(head, Keep(wanted, rest), f);
      if head.region == f.region {
        KeepCons(wanted, f, rest);
      } else {
        WantedUpsert(wanted, rest, f);
        KeepCons(wanted, head, Upsert(rest, f));
      }
    }
  }

  lemma {:induction false} ProjectSnoc(log: seq<RegionFacts>, f: RegionFacts)
    ensures Project(log + [f]) == Upsert(Project(log), f)
  {
    assert (log + [f])[..|log|] == log;
  }

  /** What a child reads is decided by the facts about the regions it is told about. */
  lemma {:induction false} OnlyRelevantFactsMatter(wanted: string -> bool, log: seq<RegionFacts>)
    ensures Keep(wanted, Project(log)) == Project(Keep(wanted, log))
  {
    if log != [] {
      var front, last := log[..|log| - 1], log[|log| - 1];
      OnlyRelevantFactsMatter(wanted, front);
      if wanted(last.region) {
        WantedUpsert(wanted, Project(front), last);
        ProjectSnoc(Keep(wanted, front), last);
      } else {
        UnwantedUpsert(wanted, Project(front), last);
      }
    }
  }

  // ----- What the projection is -----

  /** Where a region is first written, or the length of the log. */
  function FirstAt(log: seq<RegionFacts>, region: string): (r: nat)
    ensures r <= |log| && (r < |log| ==> log[r].region == region)
    ensures forall k | 0 <= k < r :: log[k].region != region
  {
    if log == [] then 0
    else
      var n := |log| - 1;
      var before := FirstAt(log[..n], region);
      if before < n then before else if log[n].region == region then n else |log|
  }

  /** The last facts logged about their region. */
  predicate IsLatest(log: seq<RegionFacts>, f: RegionFacts) {
    exists k :: 0 <= k < |log| && log[k] == f && forall l | k < l < |log| :: log[l].region != f.region
  }

  predicate RegionsDistinct(view: seq<RegionFacts>) {
    forall p, q | 0 <= p < q < |view| :: view[p].region != view[q].region
  }

  predicate InFirstOrder(log: seq<RegionFacts>, view: seq<RegionFacts>) {
    forall p, q | 0 <= p < q < |view| :: FirstAt(log, view[p].region) < FirstAt(log, view[q].region)
  }

  predicate Covers(log: seq<RegionFacts>, view: seq<RegionFacts>) {
    forall f | f in log :: exists g :: g in view && g.region == f.region
  }

  lemma {:induction false} UpsertIs(view: seq<RegionFacts>, f: RegionFacts) returns (at: nat)
    requires RegionsDistinct(view)
    ensures at <= |view| && forall p | 0 <= p < |view| && p != at :: view[p].region != f.region
    ensures if at < |view| then view[at].region == f.region && Upsert(view, f) == view[at := f]
            else Upsert(view, f) == view + [f]
  {
    if view == [] {
      at := 0;
    } else if view[0].region == f.region {
      at := 0;
      assert Upsert(view, f) == view[0 := f];
    } else {
      var below := UpsertIs(view[1..], f);
      at := below + 1;
      assert view == [view[0]] + view[1..];
    }
  }

  lemma {:induction false} FirstAtSnoc(log: seq<RegionFacts>, f: RegionFacts, region: string)
    ensures FirstAt(log + [f], region) ==
      if FirstAt(log, region) < |log| then FirstAt(log, region)
      else if f.region == region then |log| else |log| + 1
  {
    assert (log + [f])[..|log|] == log;
  }

  lemma {:induction false} LatestSnoc(log: seq<RegionFacts>, f: RegionFacts, g: RegionFacts)
    requires g == f || (g.region != f.region && IsLatest(log, g))
    ensures IsLatest(log + [f], g)
  {
    var all := log + [f];
    if g == f {
      assert all[|log|] == g;
    } else {
      var k :| 0 <= k < |log| && log[k] == g && forall l | k < l < |log| :: log[l].region != g.region;
      assert all[k] == g;
    }
  }

  lemma {:induction false} FirstAtExists(log: seq<RegionFacts>, f: RegionFacts)
    requires IsLatest(log, f)
    ensures FirstAt(log, f.region) < |log|
  {
    var k :| 0 <= k < |log| && log[k] == f && forall l | k < l < |log| :: log[l].region != f.region;
  }

  /** Each logged region has one entry, its last logged one, and the entries stand in the order
      in which their regions were first logged. */
  ghost predicate Latest(log: seq<RegionFacts>, view: seq<RegionFacts>) {
    RegionsDistinct(view) && InFirstOrder(log, view) && Covers(log, view)
    && forall f | f in view :: IsLatest(log, f)
  }

  lemma {:induction false} FirstOrderSnoc(log: seq<RegionFacts>, view: seq<RegionFacts>, f: RegionFacts, at: nat)
    requires Latest(log, view) && at <= |view|
    requires forall p | 0 <= p < |view| && p != at :: view[p].region != f.region
    requires at < |view| ==> view[at].region == f.region
    ensures InFirstOrder(log + [f], if at < |view| then view[at := f] else view + [f])
  {
    var next := if at < |view| then view[at := f] else view + [f];
    forall p, q | 0 <= p < q < |next|
      ensures FirstAt(log + [f], next[p].region) < FirstAt(log + [f], next[q].region)
    {
      FirstAtSnoc(log, f, next[p].region);
      FirstAtSnoc(log, f, next[q].region);
      FirstAtExists(log, view[p]);
      if q < |view| {
        FirstAtExists(log, view[q]);
        assert FirstAt(log, view[p].region) < FirstAt(log, view[q].region);
      } else {
        NotLogged(log, view, f);
      }
    }
  }

  lemma {:induction false} NotLogged(log: seq<RegionFacts>, view: seq<RegionFacts>, f: RegionFacts)
    requires Covers(log, view) && forall p | 0 <= p < |view| :: view[p].region != f.region
    ensures FirstAt(log, f.region) == |log|
  {
    forall k | 0 <= k < |log|
      ensures log[k].region != f.region
    {
      assert log[k] in log;
    }
  }

  lemma {:induction false} CoversSnoc(log: seq<RegionFacts>, view: seq<RegionFacts>, f: RegionFacts, at: nat)
    requires Covers(log, view) && at <= |view| && (at < |view| ==> view[at].region == f.region)
    ensures Covers(log + [f], if at < |view| then view[at := f] else view + [f])
  {
    var next := if at < |view| then view[at := f] else view + [f];
    forall g | g in log + [f]
      ensures exists h :: h in next && h.region == g.region
    {
      if g == f {
        assert next[at] == f;
      } else {
        var h :| h in view && h.region == g.region;
        var p :| 0 <= p < |view| && view[p] == h;
        assert next[p].region == h.region;
      }
    }
  }

  lemma {:induction false} LatestNext(log: seq<RegionFacts>, view: seq<RegionFacts>, f: RegionFacts, at: nat)
    requires Latest(log, view) && at <= |view|
    requires forall p | 0 <= p < |view| && p != at :: view[p].region != f.region
    requires at < |view| ==> view[at].region == f.region
    ensures Latest(log + [f], if at < |view| then view[at := f] else view + [f])
  {
    var next := if at < |view| then view[at := f] else view + [f];
    FirstOrderSnoc(log, view, f, at);
    CoversSnoc(log, view, f, at);
    forall g | g in next
      ensures IsLatest(log + [f], g)
    {
      var p :| 0 <= p < |next| && next[p] == g;
      if p != at { assert view[p] in view; }
      LatestSnoc(log, f, g);
    }
  }

  /** The projection holds the latest facts of each logged region, in the order of first
      logging. */
  lemma {:induction false} ProjectIsLatest(log: seq<RegionFacts>)
    ensures Latest(log, Project(log))
  {
    if log != [] {
      var front, f := log[..|log| - 1], log[|log| - 1];
      ProjectIsLatest(front);
      assert log == front + [f];
      var at := UpsertIs(Project(front), f);
      LatestNext(front, Project(front), f, at);
    }
  }

  // ----- What the memories tell of the log -----

  function Ids(pointers: seq<MemoryPointer>): seq<string> {
    seq(|pointers|, i requires 0 <= i < |pointers| => pointers[i].id)
  }

  function BeforeHash(id: string): string {
    if id == "" then ""
    else if id[|id| - 1] == '#' then id[..|id| - 1] else BeforeHash(id[..|id| - 1])
  }

  /** The region that a dive's pointer is about, read off its id. */
  function Owner(pointer: MemoryPointer): string {
    var head := BeforeHash(pointer.id);
    if |head| < |DIVE| then "" else head[|DIVE|..]
  }

  lemma {:induction false} DigitsHaveNoHash(n: nat)
    ensures '#' !in Text.Digits(n)
  {
    if n >= 10 {
      DigitsHaveNoHash(n / 10);
      DigitsHaveNoHash(n % 10);
    }
  }

  lemma {:induction false} HashIsFound(head: string, tail: string)
    requires '#' !in tail
    ensures BeforeHash(head + "#" + tail) == head
  {
    var id := head + "#" + tail;
    if tail == "" {
      assert id == head + "#";
      assert id[..|id| - 1] == head;
    } else {
      var n := |tail| - 1;
      assert tail[n] in tail;
      assert id[..|id| - 1] == head + "#" + tail[..n];
      HashIsFound(head, tail[..n]);
    }
  }

  lemma {:induction false} PointersAreOwned(f: RegionFacts, i: nat)
    requires i < |f.claims|
    ensures Owner(PointersOf(f)[i]) == f.region
  {
    DigitsHaveNoHash(i);
    HashIsFound(DIVE + f.region, Text.Digits(i));
    assert DIVE + f.region + "#" + Text.Digits(i) == (DIVE + f.region) + "#" + Text.Digits(i);
  }

  /** No pointer of `second` stands before one of `first`. */
  predicate StandsBefore(pointers: seq<MemoryPointer>, first: string, second: string) {
    forall i, j | 0 <= i < |pointers| && 0 <= j < |pointers|
      && Owner(pointers[i]) == first && Owner(pointers[j]) == second :: i < j
  }

  predicate Mentions(pointers: seq<MemoryPointer>, region: string) {
    exists i | 0 <= i < |pointers| :: Owner(pointers[i]) == region
  }

  /** The same for the entries of a view. */
  predicate ViewedBefore(view: seq<RegionFacts>, first: string, second: string) {
    forall p, q | 0 <= p < |view| && 0 <= q < |view|
      && view[p].region == first && view[q].region == second :: p < q
  }

  predicate Views(view: seq<RegionFacts>, region: string) {
    exists p | 0 <= p < |view| :: view[p].region == region
  }

  /** Both can be seen from the ids. */
  lemma {:induction false} IdsDecide(a: seq<MemoryPointer>, b: seq<MemoryPointer>, first: string, second: string)
    requires Ids(a) == Ids(b)
    ensures Mentions(a, first) <==> Mentions(b, first)
    ensures StandsBefore(a, first, second) <==> StandsBefore(b, first, second)
  {
    assert |Ids(a)| == |a| && |Ids(b)| == |b|;
    forall i | 0 <= i < |a|
      ensures Owner(a[i]) == Owner(b[i])
    {
      assert Ids(a)[i] == Ids(b)[i];
    }
  }

  lemma {:induction false} PointersMention(view: seq<RegionFacts>, region: string)
    ensures Mentions(Pointers(view), region) ==> Views(view, region)
    ensures (exists f :: f in view && f.region == region && f.claims != []) ==> Mentions(Pointers(view), region)
  {
    if view != [] {
      var front, f := view[..|view| - 1], view[|view| - 1];
      var head, own := Pointers(front), PointersOf(f);
      assert Pointers(view) == head + own;
      PointersMention(front, region);
      forall i | 0 <= i < |own|
        ensures Owner(own[i]) == f.region
      {
        PointersAreOwned(f, i);
      }
      MentionsConcat(head, own, region);
      assert view == front + [f];
      if f.claims != [] { assert Owner(own[0]) == f.region; }
    }
  }

  lemma {:induction false} MentionsConcat(a: seq<MemoryPointer>, b: seq<MemoryPointer>, region: string)
    ensures Mentions(a + b, region) <==> Mentions(a, region) || Mentions(b, region)
  {
    if i :| 0 <= i < |a| && Owner(a[i]) == region { assert Owner((a + b)[i]) == region; }
    if i :| 0 <= i < |b| && Owner(b[i]) == region { assert Owner((a + b)[|a| + i]) == region; }
    if i :| 0 <= i < |a + b| && Owner((a + b)[i]) == region {
      if i < |a| { assert Owner(a[i]) == region; } else { assert Owner(b[i - |a|]) == region; }
    }
  }

  lemma {:induction false} PointersInOrder(view: seq<RegionFacts>, first: string, second: string)
    requires ViewedBefore(view, first, second) && first != second
    ensures StandsBefore(Pointers(view), first, second)
  {
    if view != [] {
      var front, f := view[..|view| - 1], view[|view| - 1];
      var head, own := Pointers(front), PointersOf(f);
      assert Pointers(view) == head + own;
      assert view == front + [f];
      PointersInOrder(front, first, second);
      forall i | 0 <= i < |own|
        ensures Owner(own[i]) == f.region
      {
        PointersAreOwned(f, i);
      }
      if f.region == first {
        assert !Views(front, second);
        PointersMention(front, second);
      }
      OrderConcat(head, own, f.region, first, second);
    }
  }

  lemma {:induction false} OrderConcat(
    head: seq<MemoryPointer>, own: seq<MemoryPointer>, region: string, first: string, second: string)
    requires StandsBefore(head, first, second) && first != second
    requires forall i | 0 <= i < |own| :: Owner(own[i]) == region
    requires region == first ==> !Mentions(head, second)
    ensures StandsBefore(head + own, first, second)
  {
    var all := head + own;
    forall i | |head| <= i < |all|
      ensures Owner(all[i]) == region
    {
      assert all[i] == own[i - |head|];
    }
    assert forall i | 0 <= i < |head| :: all[i] == head[i];
  }

  lemma {:induction false} KeepIsPart(wanted: string -> bool, view: seq<RegionFacts>, f: RegionFacts)
    ensures f in Keep(wanted, view) <==> f in view && wanted(f.region)
  {
    if view != [] {
      var front, last := view[..|view| - 1], view[|view| - 1];
      assert view == front + [last];
      KeepIsPart(wanted, front, f);
    }
  }

  lemma {:induction false} KeepViewsBefore(
    wanted: string -> bool, view: seq<RegionFacts>, first: string, second: string)
    requires ViewedBefore(view, first, second) && first != second
    ensures ViewedBefore(Keep(wanted, view), first, second)
  {
    if view != [] {
      var front, last := view[..|view| - 1], view[|view| - 1];
      assert view == front + [last];
      KeepViewsBefore(wanted, front, first, second);
      if last.region == first {
        forall g | g in Keep(wanted, front)
          ensures g.region != second
        {
          KeepIsPart(wanted, front, g);
        }
      }
    }
  }

  lemma {:induction false} LatestViewsBefore(
    log: seq<RegionFacts>, view: seq<RegionFacts>, first: string, second: string)
    requires InFirstOrder(log, view) && FirstAt(log, first) < FirstAt(log, second)
    ensures ViewedBefore(view, first, second)
  {
  }

  /** Regions stand in the memories in the order in which they were first logged. */
  lemma {:induction false} MemoriesInOrder(scope: seq<string>, log: seq<RegionFacts>, first: string, second: string)
    requires FirstAt(log, first) < FirstAt(log, second)
    ensures StandsBefore(LateMemories(scope, log), first, second)
  {
    var view := Project(log);
    ProjectIsLatest(log);
    LatestViewsBefore(log, view, first, second);
    KeepViewsBefore(RelevantTo(scope), view, first, second);
    PointersInOrder(Keep(RelevantTo(scope), view), first, second);
  }

  /** Only logged regions are mentioned, and a relevant one whose facts all make claims is. */
  lemma {:induction false} MemoriesMention(scope: seq<string>, log: seq<RegionFacts>, region: string)
    ensures Mentions(LateMemories(scope, log), region) ==> Views(log, region)
    ensures Views(log, region) && RelevantTo(scope)(region) ==>
      (forall f | f in log && f.region == region :: f.claims != []) ==> Mentions(LateMemories(scope, log), region)
  {
    var view, wanted := Project(log), RelevantTo(scope);
    ProjectIsLatest(log);
    PointersMention(Keep(wanted, view), region);
    if p :| 0 <= p < |Keep(wanted, view)| && Keep(wanted, view)[p].region == region {
      var f := Keep(wanted, view)[p];
      KeepIsPart(wanted, view, f);
      assert IsLatest(log, f);
    }
    if p :| 0 <= p < |log| && log[p].region == region {
      assert log[p] in log;
      var g :| g in view && g.region == region;
      assert IsLatest(log, g);
      KeepIsPart(wanted, view, g);
    }
  }

  // ----- The memories, one by one -----

  function Wanted(wanted: string -> bool, view: seq<RegionFacts>): seq<bool> {
    seq(|view|, n requires 0 <= n < |view| => wanted(view[n].region))
  }

  /** One memory for each claim, in order: named after its region and numbered from zero. */
  predicate ClaimByClaim(f: RegionFacts, pointers: seq<MemoryPointer>) {
    && |pointers| == |f.claims|
    && forall c: nat | c < |f.claims| ::
         pointers[c] == MemoryPointer("dive:" + f.region + "#" + Text.Digits(c), f.claims[c])
  }

  /** The memories of the wanted facts of a view, each one's after the other's. */
  ghost predicate MemoriesOf(
    wanted: string -> bool, view: seq<RegionFacts>, picks: seq<nat>, parts: seq<seq<MemoryPointer>>,
    memories: seq<MemoryPointer>)
  {
    && Selects(Wanted(wanted, view), picks) && |parts| == |picks|
    && (forall n: nat | n < |picks| :: ClaimByClaim(view[picks[n]], parts[n]))
    && memories == Concatenated(parts)
  }

  lemma {:induction false} MemoriesSnoc(
    wanted: string -> bool, front: seq<RegionFacts>, last: RegionFacts, picks: seq<nat>,
    parts: seq<seq<MemoryPointer>>, memories: seq<MemoryPointer>)
    requires MemoriesOf(wanted, front, picks, parts, memories)
    ensures if wanted(last.region)
      then MemoriesOf(
        wanted, front + [last], picks + [|front|], parts + [PointersOf(last)], memories + PointersOf(last))
      else MemoriesOf(wanted, front + [last], picks, parts, memories)
  {
    assert Wanted(wanted, front + [last]) == Wanted(wanted, front) + [wanted(last.region)];
    SelectsSnoc(Wanted(wanted, front), wanted(last.region), picks);
    assert picks + [] == picks;
    assert (parts + [PointersOf(last)])[..|parts|] == parts;
  }

  lemma {:induction false} KeptMemories(wanted: string -> bool, view: seq<RegionFacts>)
    returns (picks: seq<nat>, parts: seq<seq<MemoryPointer>>)
    ensures MemoriesOf(wanted, view, picks, parts, Pointers(Keep(wanted, view)))
  {
    picks, parts := [], [];
    if view != [] {
      var front, last := view[..|view| - 1], view[|view| - 1];
      assert view == front + [last];
      picks, parts := KeptMemories(wanted, front);
      MemoriesSnoc(wanted, front, last, picks, parts, Pointers(Keep(wanted, front)));
      if wanted(last.region) {
        assert Keep(wanted, view)[..|Keep(wanted, front)|] == Keep(wanted, front);
        picks, parts := picks + [|front|], parts + [PointersOf(last)];
      }
    }
  }

  /** The memories a child gets, one by one: of the latest facts of the regions relevant to its
      scope, in the order of the projection, a memory for each claim. */
  lemma {:induction false} MemoriesClaimByClaim(scope: seq<string>, log: seq<RegionFacts>)
    returns (picks: seq<nat>, parts: seq<seq<MemoryPointer>>)
    ensures MemoriesOf(RelevantTo(scope), Project(log), picks, parts, LateMemories(scope, log))
  {
    picks, parts := KeptMemories(RelevantTo(scope), Project(log));
  }
}
