/** `gatherContributingGoals` of `src/engine/sandbox-finalization.ts`: the goals of one tree,
    found in a log that several trees share. */
module ContributingGoals {
  import opened Contract
  import opened Selections

  datatype ContributingGoal = ContributingGoal(id: string, title: string, goalType: string)

  function Summary(g: Goal): ContributingGoal {
    ContributingGoal(g.id, g.title, g.goalType)
  }

  function Received(log: seq<Event>): seq<Goal> {
    if log == [] then []
    else
      var e := log[|log| - 1];
      Received(log[..|log| - 1]) + (if e.GoalReceived? then [e.goal] else [])
  }

  // ----- Descent through the parent ids -----

  ghost predicate ChildOf(goals: seq<Goal>, child: string, parent: string) {
    exists g :: g in goals && g.id == child && g.parentId == Some(parent)
  }

  ghost predicate IsDescent(goals: seq<Goal>, root: string, path: seq<string>) {
    && path != [] && path[0] == root
    && forall i | 0 < i < |path| :: ChildOf(goals, path[i], path[i - 1])
  }

  /** Some chain of parent links leads from `id` up to the root. */
  ghost predicate Descends(goals: seq<Goal>, root: string, id: string) {
    exists path :: IsDescent(goals, root, path) && path[|path| - 1] == id
  }

  function Ids(goals: seq<Goal>): set<string> {
    set g | g in goals :: g.id
  }

  ghost function Tree(goals: seq<Goal>, root: string): set<string> {
    set id | id in Ids(goals) + {root} && Descends(goals, root, id)
  }

  lemma {:induction false} RootDescends(goals: seq<Goal>, root: string)
    ensures Descends(goals, root, root)
  {
    assert IsDescent(goals, root, [root]);
  }

  lemma {:induction false} ChildDescends(goals: seq<Goal>, root: string, child: string, parent: string)
    requires Descends(goals, root, parent) && ChildOf(goals, child, parent)
    ensures Descends(goals, root, child)
  {
    var path :| IsDescent(goals, root, path) && path[|path| - 1] == parent;
    var longer := path + [child];
    forall i | 0 < i < |longer|
      ensures ChildOf(goals, longer[i], longer[i - 1])
    {
      if i < |path| { assert ChildOf(goals, path[i], path[i - 1]); }
    }
    assert IsDescent(goals, root, longer);
  }

  ghost predicate ClosedDown(goals: seq<Goal>, tree: set<string>) {
    forall g :: g in goals && g.parentId.Some? && g.parentId.value in tree ==> g.id in tree
  }

  lemma {:induction false} ClosedHoldsPaths(goals: seq<Goal>, root: string, tree: set<string>, path: seq<string>)
    requires root in tree && ClosedDown(goals, tree) && IsDescent(goals, root, path)
    ensures path[|path| - 1] in tree
  {
    if |path| > 1 {
      var shorter := path[..|path| - 1];
      forall i | 0 < i < |shorter|
        ensures ChildOf(goals, shorter[i], shorter[i - 1])
      {
        assert ChildOf(goals, path[i], path[i - 1]);
      }
      ClosedHoldsPaths(goals, root, tree, shorter);
      assert ChildOf(goals, path[|path| - 1], path[|path| - 2]);
    }
  }

  /** The fixpoint is the tree: nothing but descendants, and closed under descent. */
  lemma {:induction false} FixpointIsTree(goals: seq<Goal>, root: string, tree: set<string>)
    requires root in tree && ClosedDown(goals, tree)
    requires forall id :: id in tree ==> id in Ids(goals) + {root} && Descends(goals, root, id)
    ensures tree == Tree(goals, root)
  {
    forall id | Descends(goals, root, id)
      ensures id in tree
    {
      var path :| IsDescent(goals, root, path) && path[|path| - 1] == id;
      ClosedHoldsPaths(goals, root, tree, path);
    }
  }

  // ----- The result -----

  function FirstWithId(goals: seq<Goal>, id: string): Option<Goal> {
    if goals == [] then None
    else if goals[0].id == id then Some(goals[0]) else FirstWithId(goals[1..], id)
  }

  /** The entries below the root, in log order. */
  function Descendants(goals: seq<Goal>, root: string, tree: set<string>): seq<ContributingGoal> {
    if goals == [] then []
    else
      var last := goals[|goals| - 1];
      Descendants(goals[..|goals| - 1], root, tree) +
        (if last.id != root && last.id in tree then [Summary(last)] else [])
  }

  function RootFirst(goals: seq<Goal>, root: string, tree: set<string>): seq<ContributingGoal> {
    var first := FirstWithId(goals, root);
    (if first.Some? then [Summary(first.value)] else []) + Descendants(goals, root, tree)
  }

  // ----- The result, written out -----

  /** The goals of the goal-received events of the log, in log order. */
  ghost predicate ReceivedIn(log: seq<Event>, goals: seq<Goal>) {
    exists picks ::
      Selects(seq(|log|, k requires 0 <= k < |log| => log[k].GoalReceived?), picks)
      && |goals| == |picks|
      && forall n: nat | n < |picks| :: log[picks[n]].GoalReceived? && goals[n] == log[picks[n]].goal
  }

  ghost function DescendingBelow(goals: seq<Goal>, root: string): seq<bool> {
    seq(|goals|, k requires 0 <= k < |goals| => goals[k].id != root && Descends(goals, root, goals[k].id))
  }

  /** The root, if it was received at all, as it was received first. */
  predicate FirstReceipt(goals: seq<Goal>, root: string, first: seq<nat>) {
    if first == [] then forall k | 0 <= k < |goals| :: goals[k].id != root
    else
      && |first| == 1 && first[0] < |goals| && goals[first[0]].id == root
      && forall k | 0 <= k < first[0] :: goals[k].id != root
  }

  /** One entry for each of these goals, in this order, with its id, title and type. */
  predicate EntriesOf(goals: seq<Goal>, places: seq<nat>, r: seq<ContributingGoal>) {
    && |r| == |places|
    && forall n: nat | n < |places| ::
         && places[n] < |goals|
         && r[n].id == goals[places[n]].id && r[n].title == goals[places[n]].title
         && r[n].goalType == goals[places[n]].goalType
  }

  /** The root and then, in log order, every other goal that descends from it, once for each
      time it was received. */
  ghost predicate ListsTheTree(goals: seq<Goal>, root: string, r: seq<ContributingGoal>) {
    exists first, picks ::
      FirstReceipt(goals, root, first) && Selects(DescendingBelow(goals, root), picks)
      && EntriesOf(goals, first + picks, r)
  }

  lemma {:induction false} ReceivedAre(log: seq<Event>) returns (picks: seq<nat>)
    ensures Selects(seq(|log|, k requires 0 <= k < |log| => log[k].GoalReceived?), picks)
    ensures |Received(log)| == |picks|
    ensures forall n: nat | n < |picks| :: log[picks[n]].GoalReceived? && Received(log)[n] == log[picks[n]].goal
  {
    picks := [];
    if log != [] {
      var front, last := log[..|log| - 1], log[|log| - 1];
      picks := ReceivedAre(front);
      var flags := seq(|front|, k requires 0 <= k < |front| => front[k].GoalReceived?);
      assert seq(|log|, k requires 0 <= k < |log| => log[k].GoalReceived?) == flags + [last.GoalReceived?];
      SelectsSnoc(flags, last.GoalReceived?, picks);
      if last.GoalReceived? { picks := picks + [|front|]; }
    }
  }

  function InTree(goals: seq<Goal>, root: string, tree: set<string>): seq<bool> {
    seq(|goals|, k requires 0 <= k < |goals| => goals[k].id != root && goals[k].id in tree)
  }

  lemma {:induction false} EntriesSnoc(
    front: seq<Goal>, last: Goal, places: seq<nat>, r: seq<ContributingGoal>)
    requires EntriesOf(front, places, r)
    ensures EntriesOf(front + [last], places, r)
    ensures EntriesOf(front + [last], places + [|front|], r + [Summary(last)])
  {
  }

  lemma {:induction false} DescendantsSelected(goals: seq<Goal>, root: string, tree: set<string>)
    returns (picks: seq<nat>)
    ensures Selects(InTree(goals, root, tree), picks) && EntriesOf(goals, picks, Descendants(goals, root, tree))
  {
    picks := [];
    if goals != [] {
      var front, last := goals[..|goals| - 1], goals[|goals| - 1];
      var listed := last.id != root && last.id in tree;
      picks := DescendantsSelected(front, root, tree);
      assert InTree(goals, root, tree) == InTree(front, root, tree) + [listed];
      SelectsSnoc(InTree(front, root, tree), listed, picks);
      assert goals == front + [last];
      EntriesSnoc(front, last, picks, Descendants(front, root, tree));
      if listed { picks := picks + [|front|]; }
    }
  }

  lemma {:induction false} FirstIsFound(goals: seq<Goal>, root: string) returns (first: seq<nat>)
    ensures FirstReceipt(goals, root, first)
    ensures var found := FirstWithId(goals, root);
      if found.Some? then first != [] && goals[first[0]] == found.value else first == []
  {
    first := [];
    if goals != [] {
      if goals[0].id == root {
        first := [0];
      } else {
        var later := FirstIsFound(goals[1..], root);
        first := if later == [] then [] else [later[0] + 1];
        assert forall k | 1 <= k < |goals| :: goals[k] == goals[1..][k - 1];
      }
    }
  }

  lemma {:induction false} EntriesConcat(
    goals: seq<Goal>, a: seq<nat>, r: seq<ContributingGoal>, b: seq<nat>, t: seq<ContributingGoal>)
    requires EntriesOf(goals, a, r) && EntriesOf(goals, b, t)
    ensures EntriesOf(goals, a + b, r + t)
  {
  }

  lemma {:induction false} RootFirstListsTheTree(goals: seq<Goal>, root: string)
    ensures ListsTheTree(goals, root, RootFirst(goals, root, Tree(goals, root)))
  {
    var first := FirstIsFound(goals, root);
    var picks := DescendantsSelected(goals, root, Tree(goals, root));
    assert InTree(goals, root, Tree(goals, root)) == DescendingBelow(goals, root);
    var found := FirstWithId(goals, root);
    var head := if found.Some? then [Summary(found.value)] else [];
    EntriesConcat(goals, first, head, picks, Descendants(goals, root, Tree(goals, root)));
  }

  method FindFirst(goals: seq<Goal>, id: string) returns (r: Option<Goal>)
    ensures r == FirstWithId(goals, id)
  {
    var i := 0;
    while i < |goals|
      invariant i <= |goals|
      invariant FirstWithId(goals[i..], id) == FirstWithId(goals, id)
    {
      assert goals[i..][1..] == goals[i + 1..];
      if goals[i].id == id { return Some(goals[i]); }
      i := i + 1;
    }
    return None;
  }

  method GatherContributingGoals(log: seq<Event>, root: string) returns (r: seq<ContributingGoal>)
    ensures r == RootFirst(Received(log), root, Tree(Received(log), root))
  {
    var goals := Received(log);
    var inTree := {root};
    RootDescends(goals, root);
    var grew := true;
    while grew
      invariant root in inTree
      invariant forall id :: id in inTree ==> id in Ids(goals) + {root} && Descends(goals, root, id)
      invariant !grew ==> ClosedDown(goals, inTree)
      decreases Ids(goals) - inTree, grew
    {
      grew := false;
      ghost var before := inTree;
      for i := 0 to |goals|
        invariant root in inTree && before <= inTree
        invariant forall id :: id in inTree ==> id in Ids(goals) + {root} && Descends(goals, root, id)
        invariant grew ==> exists id :: id in inTree && id !in before && id in Ids(goals)
        invariant !grew ==> inTree == before && ClosedDown(goals[..i], inTree)
      {
        var g := goals[i];
        assert goals[..i + 1] == goals[..i] + [g];
        if g.id !in inTree && g.parentId.Some? && g.parentId.value in inTree {
          assert ChildOf(goals, g.id, g.parentId.value);
          ChildDescends(goals, root, g.id, g.parentId.value);
          inTree := inTree + {g.id};
          grew := true;
        }
      }
      assert goals[..|goals|] == goals;
    }
    FixpointIsTree(goals, root, inTree);
    var first := FindFirst(goals, root);
    var descendants: seq<ContributingGoal> := [];
    for i := 0 to |goals|
      invariant descendants == Descendants(goals[..i], root, inTree)
    {
      assert goals[..i + 1][..i] == goals[..i];
      if goals[i].id != root && goals[i].id in inTree {
        descendants := descendants + [Summary(goals[i])];
      }
    }
    assert goals[..|goals|] == goals;
    return (if first.Some? then [Summary(first.value)] else []) + descendants;
  }

  // ----- What the result means -----

  lemma {:induction false} DescendantsAre(goals: seq<Goal>, root: string, tree: set<string>)
    ensures forall c :: c in Descendants(goals, root, tree) <==>
      exists g :: g in goals && g.id != root && g.id in tree && Summary(g) == c
  {
    if goals != [] {
      var front, last := goals[..|goals| - 1], goals[|goals| - 1];
      assert goals == front + [last];
      DescendantsAre(front, root, tree);
    }
  }

  lemma {:induction false} FirstWithIdFinds(goals: seq<Goal>, id: string)
    ensures var r := FirstWithId(goals, id);
      if r.Some? then r.value in goals && r.value.id == id else forall g :: g in goals ==> g.id != id
  {
    if goals != [] {
      assert goals == [goals[0]] + goals[1..];
      FirstWithIdFinds(goals[1..], id);
    }
  }

  /** What is gathered lists the tree of the goals received in the log: the root and then, in
      log order, each other goal that descends from it. */
  lemma {:induction false} GatheredGoalsListTheTree(log: seq<Event>, root: string, r: seq<ContributingGoal>)
    requires r == RootFirst(Received(log), root, Tree(Received(log), root))
    ensures exists goals :: ReceivedIn(log, goals) && ListsTheTree(goals, root, r)
  {
    var picks := ReceivedAre(log);
    assert ReceivedIn(log, Received(log));
    RootFirstListsTheTree(Received(log), root);
  }

  /** A logged goal is listed exactly when it descends from the root; the root comes first. */
  lemma {:induction false} ListedIffDescends(goals: seq<Goal>, root: string)
    ensures var listed := RootFirst(goals, root, Tree(goals, root));
      && (forall g :: g in goals && g.id != root ==>
            (Descends(goals, root, g.id) <==> Summary(g) in listed))
      && (forall c :: c in listed ==> Descends(goals, root, c.id))
      && (root in Ids(goals) ==> listed != [] && listed[0].id == root)
      && (forall i | 0 < i < |listed| :: listed[i].id != root)
  {
    RootDescends(goals, root);
    FirstWithIdFinds(goals, root);
    DescendantsAre(goals, root, Tree(goals, root));
    var below := Descendants(goals, root, Tree(goals, root));
    assert forall c :: c in below ==> c.id != root;
    forall g | g in goals && g.id != root && Summary(g) in RootFirst(goals, root, Tree(goals, root))
      ensures Descends(goals, root, g.id)
    {
      assert Summary(g) in below;
    }
  }

  /** The tree does not depend on the order in which the goals were logged. */
  lemma {:induction false} LogOrderIsIrrelevant(goals: seq<Goal>, shuffled: seq<Goal>, root: string)
    requires forall g :: g in goals <==> g in shuffled
    ensures Tree(goals, root) == Tree(shuffled, root)
  {
  }

  /** Parent links may form a cycle; goals on one that the root does not reach stay out. */
  lemma {:induction false} UnreachableCycleStaysOut(goals: seq<Goal>, root: string, cycle: set<string>)
    requires root !in cycle
    requires forall g :: g in goals && g.id in cycle ==> g.parentId.Some? && g.parentId.value in cycle
    ensures Tree(goals, root) * cycle == {}
  {
    forall path | IsDescent(goals, root, path)
      ensures path[|path| - 1] !in cycle
    {
      PathAvoids(goals, root, cycle, path);
    }
  }

  lemma {:induction false} PathAvoids(goals: seq<Goal>, root: string, cycle: set<string>, path: seq<string>)
    requires root !in cycle && IsDescent(goals, root, path)
    requires forall g :: g in goals && g.id in cycle ==> g.parentId.Some? && g.parentId.value in cycle
    ensures path[|path| - 1] !in cycle
  {
    if |path| > 1 {
      var shorter := path[..|path| - 1];
      forall i | 0 < i < |shorter|
        ensures ChildOf(goals, shorter[i], shorter[i - 1])
      {
        assert ChildOf(goals, path[i], path[i - 1]);
      }
      PathAvoids(goals, root, cycle, shorter);
      assert ChildOf(goals, path[|path| - 1], path[|path| - 2]);
    }
  }
}
