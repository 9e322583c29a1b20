/** The memo of promises that starts every child exactly once
    (`startChild` in `src/engine/split-children.ts`). */
module SplitMemo {
  import opened Contract
  import opened SplitGraph

  predicate AllKnown(children: seq<ChildPlan>, i: nat)
    requires i < |children|
  {
    forall k :: 0 <= k < |children[i].dependsOn| ==> IndexOf(children, children[i].dependsOn[k]).Some?
  }

  /** The memo holds exactly the created promises: `promises` takes a local id to its
      handle, and handle `p` runs child `created[p]`. */
  ghost predicate InStep(children: seq<ChildPlan>, promises: map<string, nat>, created: seq<nat>) {
    && (forall p :: 0 <= p < |created| ==>
          && created[p] < |children|
          && children[created[p]].localId in promises
          && promises[children[created[p]].localId] == p)
    && (forall id :: id in promises ==> promises[id] < |created| && children[created[promises[id]]].localId == id)
  }

  /** A child all of whose dependencies are siblings comes after each of them. */
  ghost predicate DependenciesFirst(children: seq<ChildPlan>, created: seq<nat>) {
    && (forall p :: 0 <= p < |created| ==> created[p] < |children|)
    && forall p, k |
         0 <= p < |created| && AllKnown(children, created[p]) && 0 <= k < |children[created[p]].dependsOn| ::
         IndexOf(children, children[created[p]].dependsOn[k]).value in created[..p]
  }

  lemma {:induction false} CreateKeepsOrder(children: seq<ChildPlan>, created: seq<nat>, i: nat)
    requires DependenciesFirst(children, created) && i < |children|
    requires AllKnown(children, i) ==>
      forall k :: 0 <= k < |children[i].dependsOn| ==> IndexOf(children, children[i].dependsOn[k]).value in created
    ensures DependenciesFirst(children, created + [i])
  {
    var longer := created + [i];
    forall p, k | 0 <= p < |longer| && AllKnown(children, longer[p]) && 0 <= k < |children[longer[p]].dependsOn|
      ensures IndexOf(children, children[longer[p]].dependsOn[k]).value in longer[..p]
    {
      assert longer[..p] == created[..p];
      if p == |created| { assert created[..p] == created; }
    }
  }

  lemma {:induction false} CreateKeepsStep(
    children: seq<ChildPlan>, promises: map<string, nat>, created: seq<nat>, i: nat)
    requires InStep(children, promises, created) && i < |children| && children[i].localId !in promises
    ensures InStep(children, promises[children[i].localId := |created|], created + [i])
  {
  }

  /** The recursion cannot have started the child itself: it only reached lower ranks. */
  lemma {:induction false} NotStartedBelow(
    children: seq<ChildPlan>, promises: map<string, nat>, before: seq<nat>, created: seq<nat>, rank: seq<nat>, i: nat)
    requires UniqueIds(children) && InStep(children, promises, created) && IsRank(children, rank) && i < |children|
    requires StartedBelow(rank, before, created, rank[i]) && i !in before
    ensures children[i].localId !in promises
  {
  }

  /** The first `n` dependencies of child `i` are siblings and have been started. */
  ghost predicate FirstStarted(children: seq<ChildPlan>, created: seq<nat>, i: nat, n: nat)
    requires i < |children| && n <= |children[i].dependsOn|
  {
    forall k :: 0 <= k < n ==>
      && IndexOf(children, children[i].dependsOn[k]).Some?
      && IndexOf(children, children[i].dependsOn[k]).value in created
  }

  /** Everything started since `before` has a rank below `bound`. */
  ghost predicate StartedBelow(rank: seq<nat>, before: seq<nat>, created: seq<nat>, bound: nat) {
    && before <= created
    && forall p :: |before| <= p < |created| ==> created[p] < |rank| && rank[created[p]] < bound
  }

  lemma {:induction false} NextStarted(children: seq<ChildPlan>, before: seq<nat>, created: seq<nat>, i: nat, n: nat)
    requires i < |children| && n < |children[i].dependsOn| && before <= created
    requires FirstStarted(children, before, i, n)
    requires IndexOf(children, children[i].dependsOn[n]).Some?
    requires IndexOf(children, children[i].dependsOn[n]).value in created
    ensures FirstStarted(children, created, i, n + 1)
  {
  }

  lemma {:induction false} StillBelow(
    rank: seq<nat>, first: seq<nat>, second: seq<nat>, third: seq<nat>, low: nat, high: nat)
    requires StartedBelow(rank, first, second, high) && StartedBelow(rank, second, third, low) && low <= high
    ensures StartedBelow(rank, first, third, high)
  {
  }

  /** Between `from` and `to` one dependency was started: nothing when it had been before, and
      otherwise whatever it waits for and then the dependency itself, last. */
  predicate TakesItsTurn(children: seq<ChildPlan>, created: seq<nat>, id: string, from: nat, to: nat) {
    && from <= to <= |created| && IndexOf(children, id).Some?
    && var d := IndexOf(children, id).value;
    if d in created[..from] then to == from else from < to && created[to - 1] == d
  }

  /** The dependencies of child `i` were started one after the other, in the order in which it
      names them, up to the first that names no sibling. */
  predicate OneAfterAnother(
    children: seq<ChildPlan>, i: nat, before: seq<nat>, created: seq<nat>, cuts: seq<nat>)
    requires i < |children|
  {
    var deps := children[i].dependsOn;
    && 1 <= |cuts| <= |deps| + 1 && cuts[0] == |before| && cuts[|cuts| - 1] == |created| && before <= created
    && (forall k | 0 <= k < |cuts| - 1 :: TakesItsTurn(children, created, deps[k], cuts[k], cuts[k + 1]))
    && (|cuts| <= |deps| ==> IndexOf(children, deps[|cuts| - 1]).None?)
  }

  /** The first `n` dependencies have had their turns. */
  predicate Turns(children: seq<ChildPlan>, i: nat, before: seq<nat>, created: seq<nat>, n: nat, cuts: seq<nat>)
    requires i < |children| && n <= |children[i].dependsOn|
  {
    && |cuts| == n + 1 && cuts[0] == |before| && cuts[n] == |created| && before <= created
    && forall k | 0 <= k < n :: TakesItsTurn(children, created, children[i].dependsOn[k], cuts[k], cuts[k + 1])
  }

  lemma {:induction false} NextTurn(
    children: seq<ChildPlan>, i: nat, before: seq<nat>, mid: seq<nat>, created: seq<nat>, n: nat, cuts: seq<nat>)
    requires i < |children| && n < |children[i].dependsOn| && Turns(children, i, before, mid, n, cuts)
    requires mid <= created && TakesItsTurn(children, created, children[i].dependsOn[n], |mid|, |created|)
    ensures Turns(children, i, before, created, n + 1, cuts + [|created|])
  {
    var longer := cuts + [|created|];
    forall k | 0 <= k <= n
      ensures TakesItsTurn(children, created, children[i].dependsOn[k], longer[k], longer[k + 1])
    {
      if k < n {
        assert TakesItsTurn(children, mid, children[i].dependsOn[k], cuts[k], cuts[k + 1]);
        assert created[..cuts[k]] == mid[..cuts[k]];
      }
    }
  }

  ghost predicate InTurn(children: seq<ChildPlan>, i: nat, before: seq<nat>, created: seq<nat>)
    requires i < |children|
  {
    exists cuts :: OneAfterAnother(children, i, before, created, cuts)
  }

  lemma {:induction false} LastTurn(
    children: seq<ChildPlan>, i: nat, before: seq<nat>, created: seq<nat>, n: nat, cuts: seq<nat>)
    requires i < |children| && n <= |children[i].dependsOn| && Turns(children, i, before, created, n, cuts)
    requires n < |children[i].dependsOn| ==> IndexOf(children, children[i].dependsOn[n]).None?
    ensures InTurn(children, i, before, created)
  {
    assert OneAfterAnother(children, i, before, created, cuts);
  }

  lemma {:induction false} MemoisedIffCreated(
    children: seq<ChildPlan>, promises: map<string, nat>, created: seq<nat>, localId: string)
    requires UniqueIds(children) && InStep(children, promises, created) && IndexOf(children, localId).Some?
    ensures localId in promises <==> IndexOf(children, localId).value in created
  {
    if localId in promises { IndexOfChild(children, created[promises[localId]]); }
  }

  /** A promise runs synchronously up to its first await, so the promises of a child's
      dependencies are created, and memoised, before its own. */
  class PromiseMemo {
    const children: seq<ChildPlan>
    var promises: map<string, nat>
    var created: seq<nat>

    ghost predicate Valid()
      reads this
    {
      UniqueIds(children) && InStep(children, promises, created) && DependenciesFirst(children, created)
    }

    constructor (children: seq<ChildPlan>)
      requires UniqueIds(children)
      ensures Valid() && this.children == children && created == []
    {
      this.children, promises, created := children, map[], [];
    }

    /** `startChild`: the memoised promise, or a new one after those of the dependencies.
        None is the exception for an unknown id. */
    method StartChild(localId: string, ghost rank: seq<nat>) returns (promise: Option<nat>)
      requires Valid() && IsRank(children, rank)
      modifies this
      ensures Valid() && old(created) <= created
      ensures promise.Some? <==> IndexOf(children, localId).Some?
      ensures promise.Some? ==> promise.value < |created| && created[promise.value] == IndexOf(children, localId).value
      ensures promise.None? || localId in old(promises) ==> created == old(created)
      ensures promise.Some? && localId !in old(promises) ==>
        |old(created)| < |created| && created[|created| - 1] == IndexOf(children, localId).value
      ensures promise.Some? ==> StartedBelow(rank, old(created), created, rank[IndexOf(children, localId).value] + 1)
      decreases if IndexOf(children, localId).Some? then rank[IndexOf(children, localId).value] + 1 else 0, 1
    {
      if localId in promises {
        IndexOfChild(children, created[promises[localId]]);
        return Some(promises[localId]);
      }
      var entry := IndexOf(children, localId);
      if entry.None? {
        return None;
      }
      var i := entry.value;
      StartDependencies(i, rank);
      NotStartedBelow(children, promises, old(created), created, rank, i);
      CreateKeepsStep(children, promises, created, i);
      CreateKeepsOrder(children, created, i);
      promises := promises[localId := |created|];
      created := created + [i];
      return Some(|created| - 1);
    }

    /** The synchronous part of the child's own run: start the dependencies in order; an
        unknown id throws inside its try block and cuts the loop short. */
    method StartDependencies(i: nat, ghost rank: seq<nat>)
      requires Valid() && IsRank(children, rank) && i < |children|
      modifies this
      ensures Valid() && old(created) <= created
      ensures AllKnown(children, i) ==> FirstStarted(children, created, i, |children[i].dependsOn|)
      ensures InTurn(children, i, old(created), created)
      ensures StartedBelow(rank, old(created), created, rank[i])
      decreases rank[i] + 1, 0
    {
      ghost var cuts: seq<nat> := [|created|];
      for n := 0 to |children[i].dependsOn|
        invariant Valid() && FirstStarted(children, created, i, n)
        invariant StartedBelow(rank, old(created), created, rank[i])
        invariant Turns(children, i, old(created), created, n, cuts)
      {
        ghost var d := IndexOf(children, children[i].dependsOn[n]);
        assert d.Some? ==> Edge(children, i, d.value);
        ghost var before := created;
        if d.Some? { MemoisedIffCreated(children, promises, created, children[i].dependsOn[n]); }
        var dep := StartChild(children[i].dependsOn[n], rank);
        if dep.None? {
          LastTurn(children, i, old(created), created, n, cuts);
          return;
        }
        NextTurn(children, i, old(created), before, created, n, cuts);
        cuts := cuts + [|created|];
        NextStarted(children, before, created, i, n);
        StillBelow(rank, old(created), before, created, rank[d.value] + 1, rank[i]);
      }
      LastTurn(children, i, old(created), created, |children[i].dependsOn|, cuts);
    }
  }

  /** `runSplitChildren`: one promise per child, each after its dependencies, and the
      result lined up with `children`. */
  method RunSplitChildren(children: seq<ChildPlan>) returns (result: seq<nat>, memo: PromiseMemo)
    requires UniqueIds(children) && Acyclic(children)
    ensures memo.Valid() && memo.children == children
    ensures |result| == |children| == |memo.created|
    ensures forall c :: 0 <= c < |children| ==> result[c] < |memo.created| && memo.created[result[c]] == c
  {
    memo := new PromiseMemo(children);
    ghost var rank :| IsRank(children, rank);
    result := [];
    for c := 0 to |children|
      invariant memo.Valid() && memo.children == children && fresh(memo)
      invariant |result| == c
      invariant forall b :: 0 <= b < c ==> result[b] < |memo.created| && memo.created[result[b]] == b
    {
      IndexOfChild(children, c);
      var promise := memo.StartChild(children[c].localId, rank);
      result := result + [promise.value];
    }
    OnePromiseEach(children, memo.promises, memo.created, result);
  }

  lemma {:induction false} OnePromiseEach(
    children: seq<ChildPlan>, promises: map<string, nat>, created: seq<nat>, result: seq<nat>)
    requires InStep(children, promises, created) && |result| == |children|
    requires forall c :: 0 <= c < |children| ==> result[c] < |created| && created[result[c]] == c
    ensures |created| == |children|
  {
    DistinctCoverCounts(|children|, created, result);
  }

  /** Distinct numbers below `n` that cover `0..n` are exactly `n` many. */
  lemma {:induction false} DistinctCoverCounts(n: nat, created: seq<nat>, result: seq<nat>)
    requires forall p :: 0 <= p < |created| ==> created[p] < n
    requires forall p, q :: 0 <= p < q < |created| ==> created[p] != created[q]
    requires |result| >= n && forall c :: 0 <= c < n ==> result[c] < |created| && created[result[c]] == c
    ensures |created| == n
  {
    assert Members(created) == Below(n) by {
      forall c: nat | c < n ensures c in Members(created) { assert created[result[c]] == c; }
    }
    BelowCounts(n);
    DistinctCounts(created);
  }

  lemma {:induction false} BelowCounts(n: nat)
    ensures |Below(n)| == n
  {
    if n > 0 { BelowCounts(n - 1); }
  }

  ghost function Members(s: seq<nat>): set<nat> {
    set c | c in s
  }

  lemma {:induction false} DistinctCounts(created: seq<nat>)
    requires forall p, q :: 0 <= p < q < |created| ==> created[p] != created[q]
    ensures |Members(created)| == |created|
  {
    if created != [] {
      var front, last := created[..|created| - 1], created[|created| - 1];
      DistinctCounts(front);
      assert last !in Members(front);
      assert Members(created) == Members(front) + {last} by {
        assert created == front + [last];
      }
    }
  }

  // ----- Without a rank: recursion with a bounded stack -----

  /** How starting a child ends when the stack holds so many frames: with the ids in the memo
      afterwards, or by running out of stack. */
  datatype Started = Memo(ids: set<string>) | OutOfStack

  /** `startChild` for a child of a closed split: the memo is asked first and only set after
      the recursion. */
  function Start(children: seq<ChildPlan>, memo: set<string>, localId: string, stack: nat): Started
    requires Closed(children)
    decreases stack, 0, 0
  {
    if stack == 0 then OutOfStack
    else if localId in memo || IndexOf(children, localId).None? then Memo(memo)
    else
      match StartFrom(children, memo, IndexOf(children, localId).value, 0, stack - 1)
      case Memo(ids) => Memo(ids + {localId})
      case OutOfStack => OutOfStack
  }

  /** Starting the dependencies of child `i` from the `n`-th on. */
  function StartFrom(children: seq<ChildPlan>, memo: set<string>, i: nat, n: nat, stack: nat): Started
    requires Closed(children) && i < |children| && n <= |children[i].dependsOn|
    decreases stack, 1, |children[i].dependsOn| - n
  {
    if n == |children[i].dependsOn| then Memo(memo)
    else
      match Start(children, memo, children[i].dependsOn[n], stack)
      case Memo(ids) => StartFrom(children, ids, i, n + 1, stack)
      case OutOfStack => OutOfStack
  }

  /** The loop over the children, from the `c`-th on. */
  function StartAll(children: seq<ChildPlan>, memo: set<string>, c: nat, stack: nat): Started
    requires Closed(children) && c <= |children|
    decreases |children| - c
  {
    if c == |children| then Memo(memo)
    else
      match Start(children, memo, children[c].localId, stack)
      case Memo(ids) => StartAll(children, ids, c + 1, stack)
      case OutOfStack => OutOfStack
  }

  /** No child of the cycle is in the memo. */
  ghost predicate OffCycle(children: seq<ChildPlan>, cycle: set<nat>, memo: set<string>) {
    forall i | i in cycle && i < |children| :: children[i].localId !in memo
  }

  ghost predicate Next(children: seq<ChildPlan>, cycle: set<nat>, i: nat, k: nat)
    requires i < |children| && k < |children[i].dependsOn|
  {
    var j := IndexOf(children, children[i].dependsOn[k]);
    j.Some? && j.value in cycle
  }

  ghost predicate Waits(children: seq<ChildPlan>, cycle: set<nat>, i: nat) {
    i < |children| && exists k | 0 <= k < |children[i].dependsOn| :: Next(children, cycle, i, k)
  }

  /** Every child of `cycle` waits for a child of `cycle`. */
  ghost predicate Cyclic(children: seq<ChildPlan>, cycle: set<nat>) {
    forall i {:trigger Waits(children, cycle, i)} | i in cycle :: Waits(children, cycle, i)
  }

  lemma {:induction false} OthersKeepOffCycle(
    children: seq<ChildPlan>, cycle: set<nat>, memo: set<string>, localId: string)
    requires UniqueIds(children) && OffCycle(children, cycle, memo)
    requires IndexOf(children, localId).Some? && IndexOf(children, localId).value !in cycle
    ensures OffCycle(children, cycle, memo + {localId})
  {
    forall i | i in cycle && i < |children|
      ensures children[i].localId != localId
    {
      IndexOfChild(children, i);
    }
  }

  lemma {:induction false} CycleNotInMemo(
    children: seq<ChildPlan>, cycle: set<nat>, memo: set<string>, localId: string)
    requires OffCycle(children, cycle, memo) && IndexOf(children, localId).Some?
    requires IndexOf(children, localId).value in cycle
    ensures localId !in memo
  {
  }

  /** A child of the cycle never gets its promise, and no other child gets one of the cycle
      into the memo. */
  lemma {:induction false} CycleStaysOut(
    children: seq<ChildPlan>, cycle: set<nat>, memo: set<string>, localId: string, stack: nat)
    requires UniqueIds(children) && Closed(children) && Cyclic(children, cycle) && OffCycle(children, cycle, memo)
    ensures var r, entry := Start(children, memo, localId, stack), IndexOf(children, localId);
      && (r.Memo? ==> OffCycle(children, cycle, r.ids))
      && (entry.Some? && entry.value in cycle ==> r.OutOfStack?)
    decreases stack, 0, 0
  {
    var entry := IndexOf(children, localId);
    if stack > 0 && entry.Some? {
      var i := entry.value;
      if i in cycle {
        CycleNotInMemo(children, cycle, memo, localId);
        assert Waits(children, cycle, i);
        var k :| 0 <= k < |children[i].dependsOn| && Next(children, cycle, i, k);
        CycleIsMet(children, cycle, memo, i, 0, k, stack - 1);
      } else {
        CycleStaysOutFrom(children, cycle, memo, i, 0, stack - 1);
        var r := StartFrom(children, memo, i, 0, stack - 1);
        if r.Memo? { OthersKeepOffCycle(children, cycle, r.ids, localId); }
      }
    }
  }

  lemma {:induction false} CycleStaysOutFrom(
    children: seq<ChildPlan>, cycle: set<nat>, memo: set<string>, i: nat, n: nat, stack: nat)
    requires UniqueIds(children) && Closed(children) && Cyclic(children, cycle) && OffCycle(children, cycle, memo)
    requires i < |children| && n <= |children[i].dependsOn|
    ensures var r := StartFrom(children, memo, i, n, stack);
      r.Memo? ==> OffCycle(children, cycle, r.ids)
    decreases stack, 1, |children[i].dependsOn| - n
  {
    if n < |children[i].dependsOn| {
      CycleStaysOut(children, cycle, memo, children[i].dependsOn[n], stack);
      var first := Start(children, memo, children[i].dependsOn[n], stack);
      if first.Memo? { CycleStaysOutFrom(children, cycle, first.ids, i, n + 1, stack); }
    }
  }

  /** The loop over the dependencies does not get past one on the cycle. */
  lemma {:induction false} CycleIsMet(
    children: seq<ChildPlan>, cycle: set<nat>, memo: set<string>, i: nat, n: nat, k: nat, stack: nat)
    requires UniqueIds(children) && Closed(children) && Cyclic(children, cycle) && OffCycle(children, cycle, memo)
    requires i < |children| && n <= k < |children[i].dependsOn| && Next(children, cycle, i, k)
    ensures StartFrom(children, memo, i, n, stack).OutOfStack?
    decreases stack, 1, k - n
  {
    CycleStaysOut(children, cycle, memo, children[i].dependsOn[n], stack);
    var first := Start(children, memo, children[i].dependsOn[n], stack);
    if n < k && first.Memo? { CycleIsMet(children, cycle, first.ids, i, n + 1, k, stack); }
  }

  lemma {:induction false} CycleIsReached(
    children: seq<ChildPlan>, cycle: set<nat>, memo: set<string>, c: nat, i: nat, stack: nat)
    requires UniqueIds(children) && Closed(children) && Cyclic(children, cycle) && OffCycle(children, cycle, memo)
    requires c <= i < |children| && i in cycle
    ensures StartAll(children, memo, c, stack).OutOfStack?
    decreases i - c
  {
    CycleStaysOut(children, cycle, memo, children[c].localId, stack);
    IndexOfChild(children, c);
    var first := Start(children, memo, children[c].localId, stack);
    if first.Memo? { CycleIsReached(children, cycle, first.ids, c + 1, i, stack); }
  }

  lemma {:induction false} WalkIsCyclic(children: seq<ChildPlan>, walk: seq<nat>)
    requires UniqueIds(children) && IsCycle(children, walk)
    ensures Cyclic(children, set i | i in walk)
  {
    var cycle := set i | i in walk;
    forall i | i in cycle
      ensures Waits(children, cycle, i)
    {
      var p :| 0 <= p < |walk| && walk[p] == i;
      var q := if p == |walk| - 1 then 0 else p;
      assert walk[q] == i && Edge(children, walk[q], walk[q + 1]);
      var k :| 0 <= k < |children[i].dependsOn| && children[i].dependsOn[k] == children[walk[q + 1]].localId;
      IndexOfChild(children, walk[q + 1]);
      assert Next(children, cycle, i, k);
    }
  }

  // ----- With a rank the stack suffices -----

  lemma {:induction false} StackSuffices(
    children: seq<ChildPlan>, rank: seq<nat>, memo: set<string>, localId: string, stack: nat)
    requires Closed(children) && IsRank(children, rank)
    requires stack > if IndexOf(children, localId).Some? then rank[IndexOf(children, localId).value] else 0
    ensures Start(children, memo, localId, stack).Memo?
    decreases stack, 0, 0
  {
    var entry := IndexOf(children, localId);
    if localId !in memo && entry.Some? {
      StackSufficesFrom(children, rank, memo, entry.value, 0, stack - 1);
    }
  }

  lemma {:induction false} StackSufficesFrom(
    children: seq<ChildPlan>, rank: seq<nat>, memo: set<string>, i: nat, n: nat, stack: nat)
    requires Closed(children) && IsRank(children, rank) && i < |children| && n <= |children[i].dependsOn|
    requires stack >= rank[i]
    ensures StartFrom(children, memo, i, n, stack).Memo?
    decreases stack, 1, |children[i].dependsOn| - n
  {
    if n < |children[i].dependsOn| {
      var d := IndexOf(children, children[i].dependsOn[n]).value;
      assert Edge(children, i, d);
      StackSuffices(children, rank, memo, children[i].dependsOn[n], stack);
      StackSufficesFrom(
        children, rank, Start(children, memo, children[i].dependsOn[n], stack).ids, i, n + 1, stack);
    }
  }

  ghost predicate Bounds(stack: nat, rank: seq<nat>) {
    forall i | 0 <= i < |rank| :: rank[i] < stack
  }

  lemma {:induction false} BoundOf(rank: seq<nat>) returns (stack: nat)
    ensures stack > 0 && Bounds(stack, rank)
  {
    if rank == [] {
      stack := 1;
    } else {
      var front, last := rank[..|rank| - 1], rank[|rank| - 1];
      stack := BoundOf(front);
      assert forall i | 0 <= i < |front| :: rank[i] == front[i];
      stack := if last < stack then stack else last + 1;
    }
  }

  lemma {:induction false} StackSufficesForAll(
    children: seq<ChildPlan>, rank: seq<nat>, memo: set<string>, c: nat, stack: nat)
    requires Closed(children) && IsRank(children, rank) && c <= |children| && stack > 0 && Bounds(stack, rank)
    ensures StartAll(children, memo, c, stack).Memo?
    decreases |children| - c
  {
    if c < |children| {
      StackSuffices(children, rank, memo, children[c].localId, stack);
      StackSufficesForAll(children, rank, Start(children, memo, children[c].localId, stack).ids, c + 1, stack);
    }
  }

  /** Starting all the children of a closed split ends within some stack when the split is
      acyclic, and runs out of every stack when it has a cycle. */
  lemma {:induction false} StartingEnds(children: seq<ChildPlan>)
    requires UniqueIds(children) && Closed(children)
    ensures Acyclic(children) ==> exists stack :: StartAll(children, {}, 0, stack).Memo?
    ensures (exists walk :: IsCycle(children, walk)) ==> forall stack :: StartAll(children, {}, 0, stack).OutOfStack?
  {
    if Acyclic(children) {
      var rank :| IsRank(children, rank);
      var stack := BoundOf(rank);
      StackSufficesForAll(children, rank, {}, 0, stack);
    }
    if walk :| IsCycle(children, walk) {
      WalkIsCyclic(children, walk);
      forall stack
        ensures StartAll(children, {}, 0, stack).OutOfStack?
      {
        CycleIsReached(children, set i | i in walk, {}, 0, walk[0], stack);
      }
    }
  }
}
