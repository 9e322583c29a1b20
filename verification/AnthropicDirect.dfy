/** Redirecting a catalog to the direct Messages API (`src/brains/anthropic-provider.ts`),
    and what that does to model selection. */
module AnthropicDirect {
  import opened Contract
  import opened ModelCatalog

  const NAMESPACE := "anthropic/"

  const DIRECT := Endpoint("https://api.anthropic.com/v1", Some("ANTHROPIC_API_KEY"))

  predicate IsAnthropicRow(s: Spec) {
    NAMESPACE <= s.id && s.endpoint.None? && s.wire.None?
  }

  function DotsToDashes(id: string): string {
    seq(|id|, i requires 0 <= i < |id| => if id[i] == '.' then '-' else id[i])
  }

  /** The namespace goes, version dots become dashes. */
  function DirectModelId(id: string): string {
    DotsToDashes(if NAMESPACE <= id then id[|NAMESPACE|..] else id)
  }

  function Redirect(s: Spec): Spec {
    if IsAnthropicRow(s) then s.(id := DirectModelId(s.id), wire := Some(Anthropic), endpoint := Some(DIRECT)) else s
  }

  function RedirectAll(catalog: seq<Spec>): (r: seq<Spec>)
    ensures |r| == |catalog|
  {
    seq(|catalog|, i requires 0 <= i < |catalog| => Redirect(catalog[i]))
  }

  /** Some row with this id is redirected. */
  predicate Rewritten(catalog: seq<Spec>, id: string) {
    exists i | 0 <= i < |catalog| :: IsAnthropicRow(catalog[i]) && catalog[i].id == id
  }

  function RedirectPin(catalog: seq<Spec>, pin: string): string {
    if Rewritten(catalog, pin) then DirectModelId(pin) else pin
  }

  function Redirected(a: Assembled): Assembled {
    Assembled(RedirectAll(a.catalog), map t | t in a.pins :: RedirectPin(a.catalog, a.pins[t]))
  }

  /** `applyAnthropicDirect`; the rewritten ids are recorded while the rows are mapped. */
  method ApplyAnthropicDirect(a: Assembled, key: Option<string>) returns (r: Assembled)
    ensures r == if key.None? || key.value == "" then a else Redirected(a)
  {
    if key.None? || |key.value| == 0 { return a; }
    var rewrittenIds: map<string, string> := map[];
    var catalog: seq<Spec> := [];
    for i := 0 to |a.catalog|
      invariant catalog == RedirectAll(a.catalog[..i])
      invariant forall id :: id in rewrittenIds <==> Rewritten(a.catalog[..i], id)
      invariant forall id :: id in rewrittenIds ==> rewrittenIds[id] == DirectModelId(id)
    {
      var spec := a.catalog[i];
      RewrittenSnoc(a.catalog, i);
      if IsAnthropicRow(spec) {
        var directId := DirectModelId(spec.id);
        rewrittenIds := rewrittenIds[spec.id := directId];
        catalog := catalog + [spec.(id := directId, wire := Some(Anthropic), endpoint := Some(DIRECT))];
      } else {
        catalog := catalog + [spec];
      }
    }
    assert a.catalog[..|a.catalog|] == a.catalog;
    var pins := map t | t in a.pins ::
      if a.pins[t] in rewrittenIds then rewrittenIds[a.pins[t]] else a.pins[t];
    return Assembled(catalog, pins);
  }

  lemma {:induction false} RewrittenSnoc(catalog: seq<Spec>, n: nat)
    requires n < |catalog|
    ensures RedirectAll(catalog[..n + 1]) == RedirectAll(catalog[..n]) + [Redirect(catalog[n])]
    ensures forall id :: Rewritten(catalog[..n + 1], id) <==>
      Rewritten(catalog[..n], id) || (IsAnthropicRow(catalog[n]) && catalog[n].id == id)
  {
  }

  // ----- The redirect, written out -----

  /** A row of this family that the operator has not routed. */
  predicate Unrouted(s: Spec) {
    |s.id| >= 10 && s.id[..10] == "anthropic/" && s.endpoint == None && s.wire == None
  }

  /** The id without its first ten characters, with dashes for dots. */
  predicate DirectId(id: string, direct: string)
    requires |id| >= 10
  {
    && |direct| == |id| - 10
    && forall k | 0 <= k < |direct| :: direct[k] == if id[k + 10] == '.' then '-' else id[k + 10]
  }

  /** What becomes of a row: an unrouted one of the family gets the direct id, the direct
      endpoint and the other wire format, and nothing else changes. */
  predicate RowRedirected(s: Spec, r: Spec) {
    if Unrouted(s) then
      && DirectId(s.id, r.id)
      && r == Spec(r.id, s.capability, s.costInPerMtok, s.costOutPerMtok, s.context, s.vision, s.toolCalling,
           Some(Endpoint("https://api.anthropic.com/v1", Some("ANTHROPIC_API_KEY"))), Some(Anthropic),
           s.provider, s.requestTimeoutMs)
    else r == s
  }

  lemma {:induction false} RowRedirects(s: Spec)
    ensures RowRedirected(s, Redirect(s)) && (IsAnthropicRow(s) <==> Unrouted(s))
  {
  }

  /** Row by row and pin by pin: each row is redirected in its place, a pin follows the row
      that it names, and a pin that names no redirected row stays. */
  lemma {:induction false} RedirectWrittenOut(a: Assembled)
    ensures var r := Redirected(a);
      && |r.catalog| == |a.catalog|
      && (forall i | 0 <= i < |a.catalog| :: RowRedirected(a.catalog[i], r.catalog[i]))
      && r.pins.Keys == a.pins.Keys
      && (forall t, i | t in a.pins && 0 <= i < |a.catalog| && a.catalog[i].id == a.pins[t] && Unrouted(a.catalog[i]) ::
            r.pins[t] == r.catalog[i].id)
      && (forall t | t in a.pins ::
            (forall i | 0 <= i < |a.catalog| && a.catalog[i].id == a.pins[t] :: !Unrouted(a.catalog[i])) ==>
            r.pins[t] == a.pins[t])
  {
    forall s: Spec
      ensures RowRedirected(s, Redirect(s)) && (IsAnthropicRow(s) <==> Unrouted(s))
    {
      RowRedirects(s);
    }
  }

  // ----- Once is enough -----

  /** A redirected catalog has nothing left to redirect, so applying the redirect twice is
      applying it once. */
  lemma {:induction false} RedirectIsFinal(a: Assembled)
    ensures Redirected(Redirected(a)) == Redirected(a)
  {
  }

  // ----- Selection after the redirect -----

  /** What selection looks at, apart from the id. */
  lemma {:induction false} RedirectKeepsTags(s: Spec, needs: Needs)
    ensures SatisfiesNeeds(Redirect(s), needs) == SatisfiesNeeds(s, needs)
    ensures BandRank(Redirect(s)) == BandRank(s)
    ensures BlendedCost(Redirect(s)) == BlendedCost(s) && Redirect(s).capability == s.capability
  {
  }

  lemma {:induction false} CandidatesRedirect(tier: Tier, needs: Needs, catalog: seq<Spec>, s: Spec)
    ensures Candidate(tier, needs, catalog, s) ==> Candidate(tier, needs, RedirectAll(catalog), Redirect(s))
  {
    if s in catalog {
      var i :| 0 <= i < |catalog| && catalog[i] == s;
      assert RedirectAll(catalog)[i] == Redirect(s);
      RedirectKeepsTags(s, needs);
    }
  }

  lemma {:induction false} CandidateComesFrom(tier: Tier, needs: Needs, catalog: seq<Spec>, r: Spec) returns (s: Spec)
    requires Candidate(tier, needs, RedirectAll(catalog), r)
    ensures Redirect(s) == r && Candidate(tier, needs, catalog, s)
  {
    var i :| 0 <= i < |catalog| && RedirectAll(catalog)[i] == r;
    s := catalog[i];
    RedirectKeepsTags(s, needs);
  }

  /** The same answer up to the id: the same failure, or rows of the same band, cost and
      capability. */
  predicate SameRanking(a: Selection, b: Selection) {
    match (a, b)
    case (Picked(s), Picked(r)) =>
      BandRank(s) == BandRank(r) && BlendedCost(s) == BlendedCost(r) && s.capability == r.capability
    case _ => a == b
  }

  lemma {:induction false} NothingSatisfiesAlike(catalog: seq<Spec>, needs: Needs)
    ensures (forall y :: y in catalog ==> !SatisfiesNeeds(y, needs)) <==>
      (forall y :: y in RedirectAll(catalog) ==> !SatisfiesNeeds(y, needs))
  {
    forall i | 0 <= i < |catalog|
      ensures RedirectAll(catalog)[i] in RedirectAll(catalog) && catalog[i] in catalog
      ensures SatisfiesNeeds(RedirectAll(catalog)[i], needs) == SatisfiesNeeds(catalog[i], needs)
    {
      RedirectKeepsTags(catalog[i], needs);
    }
  }

  /** Automatic selection keeps its band, cost and capability, and fails alike. */
  lemma {:induction false} SelectionKeepsRanking(leq: IdOrder, tier: Tier, needs: Needs, catalog: seq<Spec>)
    requires TotalOrder(leq)
    ensures SameRanking(
      ResolveModel(leq, tier, needs, catalog), ResolveModel(leq, tier, needs, RedirectAll(catalog)))
  {
    var before := ResolveModel(leq, tier, needs, catalog);
    var after := ResolveModel(leq, tier, needs, RedirectAll(catalog));
    PickedIsChoice(leq, tier, needs, catalog);
    PickedIsChoice(leq, tier, needs, RedirectAll(catalog));
    NothingSatisfiesAlike(catalog, needs);
    if before.Picked? {
      CandidatesRedirect(tier, needs, catalog, before.spec);
      assert Candidate(tier, needs, RedirectAll(catalog), Redirect(before.spec));
      assert after.Picked?;
      var origin := CandidateComesFrom(tier, needs, catalog, after.spec);
      assert Preferred(leq, before.spec, origin);
      assert Preferred(leq, after.spec, Redirect(before.spec));
      TagsAgree(leq, before.spec, origin);
    } else if after.Picked? {
      var origin := CandidateComesFrom(tier, needs, catalog, after.spec);
    }
  }

  lemma {:induction false} TagsAgree(leq: IdOrder, a: Spec, b: Spec)
    requires Preferred(leq, a, b) && Preferred(leq, Redirect(b), Redirect(a))
    ensures BandRank(a) == BandRank(b) && BlendedCost(a) == BlendedCost(b) && a.capability == b.capability
  {
  }

  /** No two rows tie on cost and capability. */
  ghost predicate NoTies(catalog: seq<Spec>) {
    forall a, b :: a in catalog && b in catalog && BlendedCost(a) == BlendedCost(b) && a.capability == b.capability
      ==> a == b
  }

  function RedirectSelection(r: Selection): Selection {
    match r
    case Picked(spec) => Picked(Redirect(spec))
    case _ => r
  }

  /** Without ties, redirecting commutes with automatic selection. */
  lemma {:induction false} SelectionCommutes(leq: IdOrder, tier: Tier, needs: Needs, catalog: seq<Spec>)
    requires TotalOrder(leq) && NoTies(catalog)
    ensures ResolveModel(leq, tier, needs, RedirectAll(catalog)) ==
      RedirectSelection(ResolveModel(leq, tier, needs, catalog))
  {
    SelectionKeepsRanking(leq, tier, needs, catalog);
    var before := ResolveModel(leq, tier, needs, catalog);
    var after := ResolveModel(leq, tier, needs, RedirectAll(catalog));
    if before.Picked? {
      PickedIsChoice(leq, tier, needs, catalog);
      PickedIsChoice(leq, tier, needs, RedirectAll(catalog));
      assert Candidate(tier, needs, catalog, before.spec);
      assert Candidate(tier, needs, RedirectAll(catalog), after.spec);
      var origin := CandidateComesFrom(tier, needs, catalog, after.spec);
      RedirectKeepsTags(origin, needs);
      assert origin == before.spec;
    }
  }

  lemma {:induction false} FoundIs(catalog: seq<Spec>, s: Spec)
    requires DistinctIds(catalog) && s in catalog
    ensures Find(catalog, s.id) == Some(s)
  {
  }

  /** A pin still names its row: redirecting commutes with the pin lookup whenever the direct
      ids do not collide. */
  lemma {:induction false} PinLookupCommutes(catalog: seq<Spec>, pin: string)
    requires DistinctIds(catalog) && DistinctIds(RedirectAll(catalog))
    requires Find(catalog, pin).Some?
    ensures Find(RedirectAll(catalog), RedirectPin(catalog, pin)) == Some(Redirect(Find(catalog, pin).value))
  {
    var s := Find(catalog, pin).value;
    var i :| 0 <= i < |catalog| && catalog[i] == s;
    assert RedirectAll(catalog)[i] == Redirect(s);
    assert Rewritten(catalog, pin) <==> IsAnthropicRow(s) by {
      if Rewritten(catalog, pin) {
        var j :| 0 <= j < |catalog| && IsAnthropicRow(catalog[j]) && catalog[j].id == pin;
        SameIdSameSpec(catalog, catalog[j], s);
      }
    }
    FoundIs(RedirectAll(catalog), Redirect(s));
  }

  /** Selection through a pin: a pin that meets the needs picks the redirected row, any other
      selection keeps band, cost and capability. */
  lemma {:induction false} PickSpecRedirects(leq: IdOrder, tier: Tier, pin: string, needs: Needs, catalog: seq<Spec>)
    requires TotalOrder(leq) && DistinctIds(catalog) && DistinctIds(RedirectAll(catalog))
    requires Find(catalog, pin).Some?
    ensures
      var before := PickSpec(leq, tier, pin, needs, catalog);
      var after := PickSpec(leq, tier, RedirectPin(catalog, pin), needs, RedirectAll(catalog));
      && SameRanking(before, after)
      && (SatisfiesNeeds(Find(catalog, pin).value, needs) || NoTies(catalog) ==> after == RedirectSelection(before))
  {
    var pinned := Find(catalog, pin).value;
    PinLookupCommutes(catalog, pin);
    RedirectKeepsTags(pinned, needs);
    if !SatisfiesNeeds(pinned, needs) {
      SelectionKeepsRanking(leq, tier, OverBaseline(needs), catalog);
      if NoTies(catalog) { SelectionCommutes(leq, tier, OverBaseline(needs), catalog); }
    }
  }

  lemma {:induction false} RedirectStaysWellFormed(a: Assembled)
    requires WellFormed(a) && DistinctIds(RedirectAll(a.catalog))
    ensures WellFormed(Redirected(a))
    ensures forall t: Tier :: Redirected(a).pins[t] == RedirectPin(a.catalog, a.pins[t])
  {
    forall t: Tier
      ensures Find(RedirectAll(a.catalog), RedirectPin(a.catalog, a.pins[t])).Some?
    {
      PinLookupCommutes(a.catalog, a.pins[t]);
    }
  }

  /** For an assembled catalog whose direct ids do not collide, every pinned selection picks
      the redirected row, and every other selection keeps band, cost and capability, and the
      row itself when no two rows tie. */
  lemma {:induction false} RedirectKeepsSelection(leq: IdOrder, tier: Tier, needs: Needs, a: Assembled)
    requires TotalOrder(leq) && WellFormed(a) && DistinctIds(RedirectAll(a.catalog))
    ensures WellFormed(Redirected(a))
    ensures
      var r, pin := Redirected(a), a.pins[tier];
      var before := PickSpec(leq, tier, pin, needs, a.catalog);
      var after := PickSpec(leq, tier, r.pins[tier], needs, r.catalog);
      && SameRanking(before, after)
      && (SatisfiesNeeds(Find(a.catalog, pin).value, needs) || NoTies(a.catalog) ==> after == RedirectSelection(before))
  {
    RedirectStaysWellFormed(a);
    assert Find(a.catalog, a.pins[tier]).Some?;
    PickSpecRedirects(leq, tier, a.pins[tier], needs, a.catalog);
  }

  /** Only the id tells the two apart. */
  predicate Tie(s: Spec, y: Spec) {
    BandRank(y) == BandRank(s) && BlendedCost(y) == BlendedCost(s) && y.capability == s.capability
  }

  lemma {:induction false} PreferredTags(leq: IdOrder, s: Spec, y: Spec)
    requires Preferred(leq, s, y)
    ensures Preferred(leq, Redirect(s), Redirect(y)) <==> (Tie(s, y) ==> leq(Redirect(s).id, Redirect(y).id))
  {
  }

  /** Automatic selection commutes with the redirect exactly when the direct id of the picked
      row does not fall behind the redirected id of any candidate it ties with. */
  lemma {:induction false} SelectionCommutesIff(leq: IdOrder, tier: Tier, needs: Needs, catalog: seq<Spec>, s: Spec)
    requires TotalOrder(leq) && DistinctIds(catalog) && DistinctIds(RedirectAll(catalog))
    requires ResolveModel(leq, tier, needs, catalog) == Picked(s)
    ensures ResolveModel(leq, tier, needs, RedirectAll(catalog)) == Picked(Redirect(s)) <==>
      forall y | Candidate(tier, needs, catalog, y) && Tie(s, y) :: leq(Redirect(s).id, Redirect(y).id)
  {
    var redirected := RedirectAll(catalog);
    ResolvesToChoice(leq, tier, needs, catalog, s);
    ResolvesToChoice(leq, tier, needs, redirected, Redirect(s));
    CandidatesRedirect(tier, needs, catalog, s);
    if IsChoice(leq, tier, needs, redirected, Redirect(s)) {
      forall y | Candidate(tier, needs, catalog, y) && Tie(s, y)
        ensures leq(Redirect(s).id, Redirect(y).id)
      {
        CandidatesRedirect(tier, needs, catalog, y);
        PreferredTags(leq, s, y);
      }
    } else {
      var r :| Candidate(tier, needs, redirected, r) && !Preferred(leq, Redirect(s), r);
      var y := CandidateComesFrom(tier, needs, catalog, r);
      PreferredTags(leq, s, y);
      assert Candidate(tier, needs, catalog, y) && Tie(s, y);
    }
  }

  /** Among two rows that tie, the redirect can change the winner: it does exactly when the
      direct id falls on the other side of the other row's id. */
  lemma {:induction false} TieSwitchesIff(leq: IdOrder, needs: Needs, a: Spec, b: Spec)
    requires TotalOrder(leq) && a.id != b.id && DirectModelId(a.id) != b.id
    requires IsAnthropicRow(a) && !IsAnthropicRow(b)
    requires BlendedCost(a) == BlendedCost(b) && a.capability == b.capability
    requires SatisfiesNeeds(a, needs) && SatisfiesNeeds(b, needs)
    ensures
      var tier := BandForCapability(a.capability);
      (ResolveModel(leq, tier, needs, RedirectAll([a, b])) !=
        RedirectSelection(ResolveModel(leq, tier, needs, [a, b]))) <==>
        leq(a.id, b.id) != leq(DirectModelId(a.id), b.id)
  {
    var tier := BandForCapability(a.capability);
    var r := Redirect(a);
    assert RedirectAll([a, b]) == [r, b];
    RedirectKeepsTags(a, needs);
    TwoRows(leq, tier, needs, a, b);
    TwoRows(leq, tier, needs, r, b);
    assert r != b;
  }

  /** A catalog on which the redirect changes the winner, for every order that puts `b`
      between the namespaced and the direct id of the first row. */
  lemma {:induction false} TieSwitches(leq: IdOrder)
    requires TotalOrder(leq) && leq(NAMESPACE + "c", "b") && !leq("c", "b")
    ensures
      var a := Spec(NAMESPACE + "c", 5.0, 1.0, 3.0, 128000, false, Fair, None, None, None, None);
      var b := a.(id := "b");
      ResolveModel(leq, MidTier, BASELINE_NEEDS, RedirectAll([a, b])) !=
        RedirectSelection(ResolveModel(leq, MidTier, BASELINE_NEEDS, [a, b]))
  {
    var a := Spec(NAMESPACE + "c", 5.0, 1.0, 3.0, 128000, false, Fair, None, None, None, None);
    var b := a.(id := "b");
    assert a.id[|NAMESPACE|..] == "c";
    assert DirectModelId(a.id) == "c";
    TieSwitchesIff(leq, BASELINE_NEEDS, a, b);
  }

  lemma {:induction false} TwoRows(leq: IdOrder, tier: Tier, needs: Needs, a: Spec, b: Spec)
    requires TotalOrder(leq) && a.id != b.id && tier == BandForCapability(a.capability)
    requires BlendedCost(a) == BlendedCost(b) && a.capability == b.capability
    requires SatisfiesNeeds(a, needs) && SatisfiesNeeds(b, needs)
    ensures ResolveModel(leq, tier, needs, [a, b]) == Picked(if leq(a.id, b.id) then a else b)
  {
    var least := if leq(a.id, b.id) then a else b;
    assert least in [a, b];
    assert Candidate(tier, needs, [a, b], least);
    assert IsChoice(leq, tier, needs, [a, b], least);
    ResolvesToChoice(leq, tier, needs, [a, b], least);
  }
}
