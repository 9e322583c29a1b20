/** The dependency graph among the children of one split, and its validation
    (`src/engine/split-validation.ts`). */
module SplitGraph {
  import opened Contract

  ghost predicate UniqueIds(children: seq<ChildPlan>) {
    forall i, j :: 0 <= i < j < |children| ==> children[i].localId != children[j].localId
  }

  /** The position of the first child named `id`. */
  function IndexOf(children: seq<ChildPlan>, id: string): (r: Option<nat>)
    ensures r.Some? ==> r.value < |children| && children[r.value].localId == id
    ensures r.None? ==> forall i :: 0 <= i < |children| ==> children[i].localId != id
  {
    if children == [] then None
    else if children[0].localId == id then Some(0)
    else
      var r := IndexOf(children[1..], id);
      assert r.None? ==> forall i :: 1 <= i < |children| ==> children[i] == children[1..][i - 1];
      if r.Some? then Some(r.value + 1) else None
  }

  lemma {:induction false} IndexOfChild(children: seq<ChildPlan>, i: nat)
    requires UniqueIds(children) && i < |children|
    ensures IndexOf(children, children[i].localId) == Some(i)
  {
  }

  /** Child `i` waits for child `j`. */
  predicate Edge(children: seq<ChildPlan>, i: nat, j: nat)
    requires i < |children| && j < |children|
  {
    children[j].localId in children[i].dependsOn
  }

  /** Every dependency names a sibling. */
  ghost predicate Closed(children: seq<ChildPlan>) {
    forall i, k :: 0 <= i < |children| && 0 <= k < |children[i].dependsOn| ==>
      IndexOf(children, children[i].dependsOn[k]).Some?
  }

  ghost predicate IsRank(children: seq<ChildPlan>, rank: seq<nat>) {
    && |rank| == |children|
    && forall i, j :: 0 <= i < |children| && 0 <= j < |children| && Edge(children, i, j) ==> rank[j] < rank[i]
  }

  ghost predicate Acyclic(children: seq<ChildPlan>) {
    exists rank :: IsRank(children, rank)
  }

  /** Each node of the walk waits for the next one. */
  ghost predicate IsWalk(children: seq<ChildPlan>, walk: seq<nat>) {
    && (forall k :: 0 <= k < |walk| ==> walk[k] < |children|)
    && (forall k :: 0 <= k < |walk| - 1 ==> Edge(children, walk[k], walk[k + 1]))
  }

  ghost predicate IsCycle(children: seq<ChildPlan>, walk: seq<nat>) {
    |walk| >= 2 && IsWalk(children, walk) && walk[0] == walk[|walk| - 1]
  }

  lemma {:induction false} RankFallsAlongWalk(children: seq<ChildPlan>, rank: seq<nat>, walk: seq<nat>)
    requires IsRank(children, rank) && IsWalk(children, walk) && |walk| >= 2
    ensures rank[walk[|walk| - 1]] < rank[walk[0]]
  {
    if |walk| == 2 {
      assert Edge(children, walk[0], walk[0 + 1]);
    } else {
      var shorter := walk[..|walk| - 1];
      assert forall k :: 0 <= k < |shorter| - 1 ==> Edge(children, shorter[k], shorter[k + 1]) by {
        forall k | 0 <= k < |shorter| - 1
          ensures Edge(children, shorter[k], shorter[k + 1])
        {
          assert Edge(children, walk[k], walk[k + 1]);
        }
      }
      RankFallsAlongWalk(children, rank, shorter);
      assert Edge(children, walk[|walk| - 2], walk[|walk| - 2 + 1]);
    }
  }

  /** A ranked graph has no cycle: the two readings of "acyclic" exclude each other. */
  lemma {:induction false} AcyclicHasNoCycle(children: seq<ChildPlan>, walk: seq<nat>)
    requires Acyclic(children)
    ensures !IsCycle(children, walk)
  {
    if IsCycle(children, walk) {
      var rank :| IsRank(children, rank);
      RankFallsAlongWalk(children, rank, walk);
    }
  }

  /** No node twice, and every node after all the nodes it waits for. */
  ghost predicate Topological(children: seq<ChildPlan>, order: seq<nat>) {
    && (forall p :: 0 <= p < |order| ==> order[p] < |children|)
    && (forall p, q :: 0 <= p < q < |order| ==> order[p] != order[q])
    && (forall p, j :: 0 <= p < |order| && 0 <= j < |children| && Edge(children, order[p], j) ==> j in order[..p])
  }

  ghost function Position(order: seq<nat>, i: nat): (p: nat)
    requires i in order
    ensures p < |order| && order[p] == i
  {
    var p: nat :| p < |order| && order[p] == i;
    p
  }

  /** A complete topological order is a rank. */
  lemma {:induction false} TopologicalGivesRank(children: seq<ChildPlan>, order: seq<nat>)
    requires Topological(children, order)
    requires forall i: nat :: i < |children| ==> i in order
    ensures Acyclic(children)
  {
    var rank := seq(|children|, (i: nat) requires i < |children| => Position(order, i));
    forall i, j | 0 <= i < |children| && 0 <= j < |children| && Edge(children, i, j)
      ensures rank[j] < rank[i]
    {
      var p := Position(order, i);
      assert Edge(children, order[p], j);
      assert j in order[..p];
      var q :| 0 <= q < p && order[q] == j;
      assert Position(order, j) == q;
    }
    assert IsRank(children, rank);
  }

  lemma {:induction false} ExtendWalk(children: seq<ChildPlan>, walk: seq<nat>, i: nat)
    requires IsWalk(children, walk) && i < |children|
    requires walk != [] ==> Edge(children, walk[|walk| - 1], i)
    ensures IsWalk(children, walk + [i])
  {
  }

  lemma {:induction false} ShortenWalk(children: seq<ChildPlan>, walk: seq<nat>, i: nat)
    requires IsWalk(children, walk + [i])
    ensures IsWalk(children, walk)
  {
    var longer := walk + [i];
    assert forall k :: 0 <= k < |walk| ==> walk[k] == longer[k];
    forall k | 0 <= k < |walk| - 1
      ensures Edge(children, walk[k], walk[k + 1])
    {
      assert Edge(children, longer[k], longer[k + 1]);
    }
  }

  /** Meeting a node of the stack again closes a cycle. */
  lemma {:induction false} StackClosesCycle(children: seq<ChildPlan>, path: seq<nat>, i: nat)
    requires IsWalk(children, path) && i in path
    requires Edge(children, path[|path| - 1], i)
    ensures exists walk :: IsCycle(children, walk)
  {
    var p :| 0 <= p < |path| && path[p] == i;
    var walk := path[p..] + [i];
    forall k | 0 <= k < |walk| - 1
      ensures Edge(children, walk[k], walk[k + 1])
    {
      if k + 1 < |path[p..]| {
        assert Edge(children, path[p + k], path[p + k + 1]);
      }
    }
    assert IsCycle(children, walk);
  }

  /** A node may be added to the order once everything it waits for is there. */
  lemma {:induction false} FinishTop(children: seq<ChildPlan>, finished: seq<nat>, i: nat)
    requires Topological(children, finished) && i < |children| && i !in finished
    requires forall j :: 0 <= j < |children| && Edge(children, i, j) ==> j in finished
    ensures Topological(children, finished + [i])
  {
    var order := finished + [i];
    forall p, j | 0 <= p < |order| && 0 <= j < |children| && Edge(children, order[p], j)
      ensures j in order[..p]
    {
      if p < |finished| {
        assert order[..p] == finished[..p];
      } else {
        assert order[..p] == finished;
      }
    }
  }

  ghost function Below(n: nat): (r: set<nat>)
    ensures forall i: nat :: i in r <==> i < n
  {
    if n == 0 then {} else Below(n - 1) + {n - 1}
  }

  /** The depth-first search of `hasDependencyCycle`, with the closed-over sets as fields.
      `path` and `finished` are history: the nodes on the stack in order, and the nodes
      whose visit has returned, in order. */
  class CycleSearch {
    const children: seq<ChildPlan>
    var visited: set<nat>
    var inStack: set<nat>
    ghost var path: seq<nat>
    ghost var finished: seq<nat>

    ghost predicate Valid()
      reads this
    {
      && UniqueIds(children) && Closed(children)
      && IsWalk(children, path)
      && Topological(children, finished)
      && (forall i :: i in inStack <==> i in path)
      && (forall i :: i in visited <==> i in path || i in finished)
      && (forall i :: i in visited ==> i < |children|)
      && (forall i :: i in path ==> i !in finished)
    }

    ghost function Unvisited(): set<nat>
      reads this
    {
      Below(|children|) - visited
    }

    constructor (children: seq<ChildPlan>)
      requires UniqueIds(children) && Closed(children)
      ensures Valid() && this.children == children && visited == {} && path == [] && finished == []
    {
      this.children := children;
      visited, inStack, path, finished := {}, {}, [], [];
    }

    /** A true answer exhibits a cycle; a false one means the node and everything it
        waits for have been finished in topological order. */
    method Visit(i: nat) returns (cyclic: bool)
      requires Valid() && i < |children|
      requires path != [] ==> Edge(children, path[|path| - 1], i)
      modifies this
      ensures cyclic ==> exists walk :: IsCycle(children, walk)
      ensures !cyclic ==> Valid() && path == old(path) && inStack == old(inStack)
      ensures !cyclic ==> old(finished) <= finished && i in finished && old(visited) <= visited
      decreases Unvisited(), 0
    {
      if i in inStack {
        StackClosesCycle(children, path, i);
        return true;
      }
      if i in visited {
        return false;
      }
      ghost var outer := path;
      visited := visited + {i};
      inStack := inStack + {i};
      path := path + [i];
      ExtendWalk(children, outer, i);
      cyclic := VisitDependencies(i);
      if cyclic {
        return;
      }
      FinishTop(children, finished, i);
      ShortenWalk(children, outer, i);
      inStack := inStack - {i};
      path, finished := outer, finished + [i];
    }

    /** The loop of `visit` over the dependencies of the node on top of the stack. */
    method VisitDependencies(i: nat) returns (cyclic: bool)
      requires Valid() && i < |children| && path != [] && path[|path| - 1] == i
      modifies this
      ensures cyclic ==> exists walk :: IsCycle(children, walk)
      ensures !cyclic ==> Valid() && path == old(path) && inStack == old(inStack)
      ensures !cyclic ==> old(finished) <= finished && old(visited) <= visited
      ensures !cyclic ==> forall j :: 0 <= j < |children| && Edge(children, i, j) ==> j in finished
      decreases Unvisited(), 1
    {
      var n := 0;
      while n < |children[i].dependsOn|
        invariant 0 <= n <= |children[i].dependsOn|
        invariant Valid() && path == old(path) && inStack == old(inStack)
        invariant old(finished) <= finished && old(visited) <= visited
        invariant forall k, j ::
          0 <= k < n && 0 <= j < |children| && children[j].localId == children[i].dependsOn[k] ==> j in finished
      {
        var d := IndexOf(children, children[i].dependsOn[n]);
        ghost var before := finished;
        cyclic := Visit(d.value);
        if cyclic {
          return;
        }
        assert forall j :: j in before ==> j in finished;
        n := n + 1;
      }
      return false;
    }
  }

  /** `hasDependencyCycle`: true exactly when some walk returns to its start, false exactly
      when the graph can be ranked. */
  method HasDependencyCycle(children: seq<ChildPlan>) returns (cyclic: bool)
    requires UniqueIds(children) && Closed(children)
    ensures cyclic <==> exists walk :: IsCycle(children, walk)
    ensures cyclic <==> !Acyclic(children)
  {
    var search := new CycleSearch(children);
    for n := 0 to |children|
      invariant search.Valid() && search.path == [] && search.children == children
      invariant forall i: nat :: i < n ==> i in search.finished
    {
      ghost var before := search.finished;
      cyclic := search.Visit(n);
      if cyclic {
        forall walk | IsCycle(children, walk)
          ensures !Acyclic(children)
        {
          if Acyclic(children) { AcyclicHasNoCycle(children, walk); }
        }
        return true;
      }
      assert forall i :: i in before ==> i in search.finished;
    }
    TopologicalGivesRank(children, search.finished);
    forall walk ensures !IsCycle(children, walk) {
      AcyclicHasNoCycle(children, walk);
    }
    return false;
  }

  datatype SplitError =
    | NoChildren
    | DuplicateIds
    | BadType(message: string)
    | SharesExceedOne
    | UnknownDependency(child: string, dependency: string)
    | SelfDependency(child: string)
    | CyclicDependencies

  function TotalShare(children: seq<ChildPlan>): real {
    if children == [] then 0.0 else TotalShare(children[..|children| - 1]) + children[|children| - 1].budgetShare
  }

  /** Shares add up, in any grouping. */
  lemma {:induction false} SharesAddUp(front: seq<ChildPlan>, rest: seq<ChildPlan>, c: ChildPlan)
    ensures TotalShare(front + rest) == TotalShare(front) + TotalShare(rest)
    ensures TotalShare([c]) == c.budgetShare
  {
    assert [c][..0] == [];
    if rest == [] {
      assert front + rest == front;
    } else {
      var less := rest[..|rest| - 1];
      SharesAddUp(front, less, c);
      assert (front + rest)[..|front + rest| - 1] == front + less;
    }
  }

  function LocalIds(children: seq<ChildPlan>): set<string> {
    set c | c in children :: c.localId
  }

  /** Counting the distinct ids decides uniqueness. */
  lemma {:induction false} IdCountDecidesUniqueness(children: seq<ChildPlan>)
    ensures |LocalIds(children)| <= |children|
    ensures |LocalIds(children)| == |children| <==> UniqueIds(children)
  {
    if children == [] {
    } else {
      var front, last := children[..|children| - 1], children[|children| - 1];
      assert children == front + [last];
      IdCountDecidesUniqueness(front);
      assert LocalIds(children) == LocalIds(front) + {last.localId} by {
        assert forall c :: c in children <==> c in front || c == last;
      }
      UniqueIdsAppend(front, last);
    }
  }

  lemma {:induction false} UniqueIdsAppend(front: seq<ChildPlan>, last: ChildPlan)
    ensures UniqueIds(front + [last]) <==> UniqueIds(front) && last.localId !in LocalIds(front)
  {
    var children := front + [last];
    if UniqueIds(children) {
      forall i, j | 0 <= i < j < |front|
        ensures front[i].localId != front[j].localId
      {
        assert children[i].localId != children[j].localId;
      }
      forall i | 0 <= i < |front|
        ensures front[i].localId != last.localId
      {
        assert children[i].localId != children[|front|].localId;
      }
    }
  }

  /** What a split must satisfy to be run. */
  ghost predicate ValidSplit(children: seq<ChildPlan>, typeError: ChildPlan -> Option<string>) {
    && children != []
    && UniqueIds(children)
    && (forall c :: c in children ==> typeError(c).None?)
    && TotalShare(children) <= 1.0001
    && Closed(children)
    && Acyclic(children)
  }

  /** What an error says: everything checked before it holds, and it names a real fault. */
  ghost predicate Explains(children: seq<ChildPlan>, typeError: ChildPlan -> Option<string>, error: SplitError) {
    match error
    case NoChildren => children == []
    case DuplicateIds => children != [] && !UniqueIds(children)
    case BadType(message) => UniqueIds(children) && exists c :: c in children && typeError(c) == Some(message)
    case SharesExceedOne =>
      UniqueIds(children) && (forall c :: c in children ==> typeError(c).None?) && TotalShare(children) > 1.0001
    case UnknownDependency(child, dependency) =>
      UniqueIds(children) && TotalShare(children) <= 1.0001 && IndexOf(children, dependency).None?
      && exists c :: c in children && c.localId == child && dependency in c.dependsOn
    case SelfDependency(child) =>
      UniqueIds(children) && TotalShare(children) <= 1.0001
      && exists c :: c in children && c.localId == child && child in c.dependsOn
    case CyclicDependencies =>
      UniqueIds(children) && TotalShare(children) <= 1.0001 && Closed(children)
      && exists walk :: IsCycle(children, walk)
  }

  /** `validateSplit`: no error exactly for the splits that can be run, and otherwise the fault
      that the first failing check found. */
  method ValidateSplit(children: seq<ChildPlan>, typeError: ChildPlan -> Option<string>)
    returns (error: Option<SplitError>)
    ensures error.None? <==> ValidSplit(children, typeError)
    ensures error.None? <==>
      && children != [] && (forall i, j | 0 <= i < j < |children| :: children[i].localId != children[j].localId)
      && (forall c | c in children :: typeError(c) == None) && TotalShare(children) <= 1.0001
      && (forall c, name | c in children && name in c.dependsOn :: exists d :: d in children && d.localId == name)
      && Acyclic(children)
    ensures error.Some? ==> Explains(children, typeError, error.value)
  {
    if |children| == 0 {
      return Some(NoChildren);
    }
    IdCountDecidesUniqueness(children);
    if |LocalIds(children)| != |children| {
      return Some(DuplicateIds);
    }
    for n := 0 to |children|
      invariant forall i :: 0 <= i < n ==> typeError(children[i]).None?
    {
      if typeError(children[n]).Some? {
        assert children[n] in children;
        return Some(BadType(typeError(children[n]).value));
      }
    }
    if TotalShare(children) > 1.0001 {
      return Some(SharesExceedOne);
    }
    for n := 0 to |children|
      invariant forall i, k :: 0 <= i < n && 0 <= k < |children[i].dependsOn| ==>
        IndexOf(children, children[i].dependsOn[k]).Some? && children[i].dependsOn[k] != children[i].localId
    {
      for m := 0 to |children[n].dependsOn|
        invariant forall k :: 0 <= k < m ==>
          IndexOf(children, children[n].dependsOn[k]).Some? && children[n].dependsOn[k] != children[n].localId
      {
        assert children[n] in children && children[n].dependsOn[m] in children[n].dependsOn;
        if IndexOf(children, children[n].dependsOn[m]).None? {
          return Some(UnknownDependency(children[n].localId, children[n].dependsOn[m]));
        }
        if children[n].dependsOn[m] == children[n].localId {
          assert Edge(children, n, n);
          return Some(SelfDependency(children[n].localId));
        }
      }
    }
    var cyclic := HasDependencyCycle(children);
    return if cyclic then Some(CyclicDependencies) else None;
  }
}
