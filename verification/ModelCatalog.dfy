/** Model selection (`src/brains/model-catalog.ts` and `pickSpec` of `src/brains/llm.ts`).
    Costs and scores are rationals; the locale order on ids is any total order. */
module ModelCatalog {
  import opened Contract

  datatype Tier = LowTier | MidTier | HighTier

  datatype ToolCalling = Weak | Fair | Strong

  datatype Endpoint = Endpoint(baseUrl: string, apiKeyEnv: Option<string>)

  datatype Wire = OpenAi | Anthropic

  datatype Provider = Provider(order: seq<string>, allowFallbacks: bool)

  datatype Spec = Spec(
    id: string,
    capability: real,
    costInPerMtok: real,
    costOutPerMtok: real,
    context: int,
    vision: bool,
    toolCalling: ToolCalling,
    endpoint: Option<Endpoint>,
    wire: Option<Wire>,
    provider: Option<Provider>,
    requestTimeoutMs: Option<int>)

  /** An absent need does not constrain. */
  datatype Needs = Needs(vision: bool, minContext: Option<int>, minToolCalling: Option<ToolCalling>)

  const BASELINE_NEEDS := Needs(false, None, Some(Fair))

  function Rank(t: Tier): nat {
    match t
    case LowTier => 0
    case MidTier => 1
    case HighTier => 2
  }

  function ToolRank(t: ToolCalling): nat {
    match t
    case Weak => 0
    case Fair => 1
    case Strong => 2
  }

  function BandForCapability(capability: real): Tier {
    if capability <= 3.0 then LowTier
    else if capability >= 7.0 then HighTier
    else MidTier
  }

  function BandRank(s: Spec): nat { Rank(BandForCapability(s.capability)) }

  predicate SatisfiesNeeds(s: Spec, needs: Needs) {
    && (needs.vision ==> s.vision)
    && (needs.minContext.Some? ==> s.context >= needs.minContext.value)
    && (needs.minToolCalling.Some? ==> ToolRank(s.toolCalling) >= ToolRank(needs.minToolCalling.value))
  }

  /** `{ ...BASELINE_NEEDS, ...needs }`. */
  function OverBaseline(needs: Needs): Needs {
    if needs.minToolCalling.Some? then needs else needs.(minToolCalling := BASELINE_NEEDS.minToolCalling)
  }

  function BlendedCost(s: Spec): real { s.costInPerMtok + s.costOutPerMtok * 3.0 }

  // ----- The order of preference -----

  type IdOrder = (string, string) -> bool

  ghost predicate TotalOrder(leq: IdOrder) {
    && (forall a, b :: leq(a, b) || leq(b, a))
    && (forall a, b :: leq(a, b) && leq(b, a) ==> a == b)
    && (forall a, b, c :: leq(a, b) && leq(b, c) ==> leq(a, c))
  }

  /** Cheaper first, then more capable, then by id. */
  predicate Precedes(leq: IdOrder, a: Spec, b: Spec) {
    || BlendedCost(a) < BlendedCost(b)
    || (BlendedCost(a) == BlendedCost(b) && a.capability > b.capability)
    || (BlendedCost(a) == BlendedCost(b) && a.capability == b.capability && leq(a.id, b.id))
  }

  function Insert(leq: IdOrder, s: Spec, sorted: seq<Spec>): seq<Spec> {
    if sorted == [] || Precedes(leq, s, sorted[0]) then [s] + sorted
    else [sorted[0]] + Insert(leq, s, sorted[1..])
  }

  /** A stable sort. */
  function Sorted(leq: IdOrder, specs: seq<Spec>): seq<Spec> {
    if specs == [] then [] else Insert(leq, specs[0], Sorted(leq, specs[1..]))
  }

  lemma {:induction false} InsertKeeps(leq: IdOrder, s: Spec, sorted: seq<Spec>)
    ensures multiset(Insert(leq, s, sorted)) == multiset([s]) + multiset(sorted)
  {
    if sorted != [] && !Precedes(leq, s, sorted[0]) {
      InsertKeeps(leq, s, sorted[1..]);
      assert sorted == [sorted[0]] + sorted[1..];
    }
  }

  /** The head of the sorted copy is a member that precedes every member. */
  lemma {:induction false} HeadPrecedesAll(leq: IdOrder, specs: seq<Spec>)
    requires TotalOrder(leq)
    ensures multiset(Sorted(leq, specs)) == multiset(specs)
    ensures specs != [] ==> Sorted(leq, specs) != [] && Sorted(leq, specs)[0] in specs
    ensures specs != [] ==> forall y :: y in specs ==> Precedes(leq, Sorted(leq, specs)[0], y)
  {
    if specs != [] {
      var rest := Sorted(leq, specs[1..]);
      HeadPrecedesAll(leq, specs[1..]);
      InsertKeeps(leq, specs[0], rest);
      assert specs == [specs[0]] + specs[1..];
      var head := Sorted(leq, specs)[0];
      assert head == specs[0] || head in specs[1..];
      forall y | y in specs
        ensures Precedes(leq, head, y)
      {
        assert y == specs[0] || y in specs[1..];
      }
    }
  }

  function PickCheapest(leq: IdOrder, specs: seq<Spec>): Spec
    requires TotalOrder(leq) && specs != []
  {
    HeadPrecedesAll(leq, specs);
    Sorted(leq, specs)[0]
  }

  // ----- Selection -----

  function Satisfying(catalog: seq<Spec>, needs: Needs): (r: seq<Spec>)
    ensures forall s :: s in r <==> s in catalog && SatisfiesNeeds(s, needs)
  {
    if catalog == [] then []
    else
      var front, last := catalog[..|catalog| - 1], catalog[|catalog| - 1];
      assert catalog == front + [last];
      Satisfying(front, needs) + (if SatisfiesNeeds(last, needs) then [last] else [])
  }

  function InBand(specs: seq<Spec>, rank: nat): (r: seq<Spec>)
    ensures forall s :: s in r <==> s in specs && BandRank(s) == rank
  {
    if specs == [] then []
    else
      var front, last := specs[..|specs| - 1], specs[|specs| - 1];
      assert specs == front + [last];
      InBand(front, rank) + (if BandRank(last) == rank then [last] else [])
  }

  function FromBand(leq: IdOrder, specs: seq<Spec>, rank: nat): Option<Spec>
    requires TotalOrder(leq)
    decreases 3 - rank
  {
    if rank >= 3 then None
    else
      var inBand := InBand(specs, rank);
      if inBand != [] then Some(PickCheapest(leq, inBand)) else FromBand(leq, specs, rank + 1)
  }

  datatype Selection =
    | Picked(spec: Spec)
    | NothingSatisfies
    | AllBandBelow

  /** `resolveModel`. */
  function ResolveModel(leq: IdOrder, tier: Tier, needs: Needs, catalog: seq<Spec>): Selection
    requires TotalOrder(leq)
  {
    var satisfying := Satisfying(catalog, needs);
    if satisfying == [] then NothingSatisfies
    else
      match FromBand(leq, satisfying, Rank(tier))
      case Some(spec) => Picked(spec)
      case None => AllBandBelow
  }

  // ----- What resolution computes -----

  predicate Candidate(tier: Tier, needs: Needs, catalog: seq<Spec>, s: Spec) {
    s in catalog && SatisfiesNeeds(s, needs) && BandRank(s) >= Rank(tier)
  }

  /** Lower band first, then the order of preference. */
  predicate Preferred(leq: IdOrder, a: Spec, b: Spec) {
    BandRank(a) < BandRank(b) || (BandRank(a) == BandRank(b) && Precedes(leq, a, b))
  }

  /** Who can serve a call, written out: a row of the catalog with the vision, the context and
      the tool calling asked for, and a capability in the band of the tier or above it. */
  lemma {:induction false} CandidatesAre(tier: Tier, needs: Needs, catalog: seq<Spec>, s: Spec)
    ensures Candidate(tier, needs, catalog, s) <==>
      && s in catalog
      && (needs.vision ==> s.vision)
      && (forall least | needs.minContext == Some(least) :: s.context >= least)
      && (needs.minToolCalling == Some(Fair) ==> s.toolCalling != Weak)
      && (needs.minToolCalling == Some(Strong) ==> s.toolCalling == Strong)
      && (tier == MidTier ==> s.capability > 3.0)
      && (tier == HighTier ==> s.capability >= 7.0)
  {
  }

  /** Who is preferred to whom, written out: the lower band (up to 3, below 7, from 7), then
      the lower cost with three parts of output to one of input, then the higher capability,
      then the id. */
  lemma {:induction false} PreferenceIs(leq: IdOrder, a: Spec, b: Spec)
    ensures
      var x, y := a.costInPerMtok + 3.0 * a.costOutPerMtok, b.costInPerMtok + 3.0 * b.costOutPerMtok;
      Preferred(leq, a, b) <==>
        || (a.capability <= 3.0 < b.capability)
        || (a.capability < 7.0 <= b.capability)
        || (&& (a.capability <= 3.0 <==> b.capability <= 3.0) && (a.capability >= 7.0 <==> b.capability >= 7.0)
            && (|| x < y
                || (x == y && a.capability > b.capability)
                || (x == y && a.capability == b.capability && leq(a.id, b.id))))
  {
  }

  ghost predicate IsChoice(leq: IdOrder, tier: Tier, needs: Needs, catalog: seq<Spec>, s: Spec) {
    && Candidate(tier, needs, catalog, s)
    && forall y | Candidate(tier, needs, catalog, y) :: Preferred(leq, s, y)
  }

  ghost predicate DistinctIds(catalog: seq<Spec>) {
    forall i, j | 0 <= i < j < |catalog| :: catalog[i].id != catalog[j].id
  }

  lemma {:induction false} FromBandPicks(leq: IdOrder, specs: seq<Spec>, rank: nat)
    requires TotalOrder(leq)
    ensures match FromBand(leq, specs, rank)
      case None => forall y :: y in specs ==> BandRank(y) < rank
      case Some(s) =>
        && s in specs && BandRank(s) >= rank
        && forall y | y in specs && BandRank(y) >= rank :: Preferred(leq, s, y)
    decreases 3 - rank
  {
    if rank < 3 {
      var inBand := InBand(specs, rank);
      if inBand == [] {
        FromBandPicks(leq, specs, rank + 1);
        forall y | y in specs
          ensures BandRank(y) != rank
        {
        }
      } else {
        HeadPrecedesAll(leq, inBand);
      }
    }
  }

  /** Whatever is picked is the least candidate, and something is picked exactly when there
      is a candidate. */
  lemma {:induction false} PickedIsChoice(leq: IdOrder, tier: Tier, needs: Needs, catalog: seq<Spec>)
    requires TotalOrder(leq)
    ensures match ResolveModel(leq, tier, needs, catalog)
      case Picked(s) => IsChoice(leq, tier, needs, catalog, s)
      case NothingSatisfies => forall y :: y in catalog ==> !SatisfiesNeeds(y, needs)
      case AllBandBelow =>
        && (exists y :: y in catalog && SatisfiesNeeds(y, needs))
        && (forall y :: y in catalog && SatisfiesNeeds(y, needs) ==> BandRank(y) < Rank(tier))
  {
    var satisfying := Satisfying(catalog, needs);
    FromBandPicks(leq, satisfying, Rank(tier));
    if satisfying != [] { assert satisfying[0] in satisfying; }
  }

  lemma {:induction false} SameIdSameSpec(catalog: seq<Spec>, a: Spec, b: Spec)
    requires DistinctIds(catalog) && a in catalog && b in catalog && a.id == b.id
    ensures a == b
  {
  }

  /** With distinct ids the choice is unique: `resolveModel` is the least candidate. */
  lemma {:induction false} ResolvesToChoice(leq: IdOrder, tier: Tier, needs: Needs, catalog: seq<Spec>, s: Spec)
    requires TotalOrder(leq) && DistinctIds(catalog)
    ensures ResolveModel(leq, tier, needs, catalog) == Picked(s) <==> IsChoice(leq, tier, needs, catalog, s)
  {
    PickedIsChoice(leq, tier, needs, catalog);
    if IsChoice(leq, tier, needs, catalog, s) {
      assert Candidate(tier, needs, catalog, s);
      var r := ResolveModel(leq, tier, needs, catalog);
      assert r.Picked?;
      assert Candidate(tier, needs, catalog, r.spec);
      assert Preferred(leq, s, r.spec) && Preferred(leq, r.spec, s);
      SameIdSameSpec(catalog, s, r.spec);
    }
  }

  /** The order of the catalog plays no part. */
  lemma {:induction false} CatalogOrderIsIrrelevant(
    leq: IdOrder, tier: Tier, needs: Needs, catalog: seq<Spec>, shuffled: seq<Spec>)
    requires TotalOrder(leq) && DistinctIds(catalog) && DistinctIds(shuffled)
    requires forall s :: s in catalog <==> s in shuffled
    ensures ResolveModel(leq, tier, needs, catalog) == ResolveModel(leq, tier, needs, shuffled)
  {
    var r := ResolveModel(leq, tier, needs, catalog);
    PickedIsChoice(leq, tier, needs, catalog);
    PickedIsChoice(leq, tier, needs, shuffled);
    if r.Picked? {
      assert forall s :: Candidate(tier, needs, catalog, s) <==> Candidate(tier, needs, shuffled, s);
      ResolvesToChoice(leq, tier, needs, shuffled, r.spec);
    } else if r.NothingSatisfies? {
      assert ResolveModel(leq, tier, needs, shuffled).NothingSatisfies?;
    } else {
      var y :| y in catalog && SatisfiesNeeds(y, needs);
      assert y in shuffled;
      assert ResolveModel(leq, tier, needs, shuffled).AllBandBelow?;
    }
  }

  /** A demand for a higher tier is never served from a lower band, and a demand that can be
      met can be met at every lower tier. */
  lemma {:induction false} RaisingTheTier(leq: IdOrder, low: Tier, high: Tier, needs: Needs, catalog: seq<Spec>)
    requires TotalOrder(leq) && Rank(low) <= Rank(high)
    ensures var a, b := ResolveModel(leq, low, needs, catalog), ResolveModel(leq, high, needs, catalog);
      b.Picked? ==> a.Picked? && BandRank(a.spec) <= BandRank(b.spec)
  {
    PickedIsChoice(leq, low, needs, catalog);
    PickedIsChoice(leq, high, needs, catalog);
    var b := ResolveModel(leq, high, needs, catalog);
    if b.Picked? { assert Candidate(low, needs, catalog, b.spec); }
  }

  predicate AtLeastAsStrong(strong: Needs, weak: Needs) {
    && (weak.vision ==> strong.vision)
    && (weak.minContext.Some? ==> strong.minContext.Some? && strong.minContext.value >= weak.minContext.value)
    && (weak.minToolCalling.Some? ==>
          strong.minToolCalling.Some?
          && ToolRank(strong.minToolCalling.value) >= ToolRank(weak.minToolCalling.value))
  }

  /** Asking for more never lowers the band, nor the cost within a band. */
  lemma {:induction false} StrengtheningTheNeeds(
    leq: IdOrder, tier: Tier, weak: Needs, strong: Needs, catalog: seq<Spec>)
    requires TotalOrder(leq) && AtLeastAsStrong(strong, weak)
    ensures var a, b := ResolveModel(leq, tier, weak, catalog), ResolveModel(leq, tier, strong, catalog);
      b.Picked? ==>
        && a.Picked? && BandRank(a.spec) <= BandRank(b.spec)
        && (BandRank(a.spec) == BandRank(b.spec) ==> BlendedCost(a.spec) <= BlendedCost(b.spec))
  {
    PickedIsChoice(leq, tier, weak, catalog);
    PickedIsChoice(leq, tier, strong, catalog);
    var b := ResolveModel(leq, tier, strong, catalog);
    if b.Picked? { assert Candidate(tier, weak, catalog, b.spec); }
  }

  // ----- Pins -----

  function Find(catalog: seq<Spec>, id: string): (r: Option<Spec>)
    ensures r.Some? ==> r.value in catalog && r.value.id == id
    ensures r.None? ==> forall s :: s in catalog ==> s.id != id
  {
    if catalog == [] then None
    else
      assert catalog == [catalog[0]] + catalog[1..];
      if catalog[0].id == id then Some(catalog[0]) else Find(catalog[1..], id)
  }

  /** `pickSpec`: the pin when it meets the raw needs, else resolution over the baseline. */
  function PickSpec(leq: IdOrder, tier: Tier, pin: string, needs: Needs, catalog: seq<Spec>): Selection
    requires TotalOrder(leq)
  {
    var pinned := Find(catalog, pin);
    if pinned.Some? && SatisfiesNeeds(pinned.value, needs) then Picked(pinned.value)
    else ResolveModel(leq, tier, OverBaseline(needs), catalog)
  }

  /** The pinned row wins when it meets what the call asks for; otherwise the call is resolved,
      and asks for at least fair tool calling unless it says otherwise. */
  lemma {:induction false} PinComesFirst(leq: IdOrder, tier: Tier, pin: string, needs: Needs, catalog: seq<Spec>)
    requires TotalOrder(leq) && DistinctIds(catalog)
    ensures forall s | s in catalog && s.id == pin && SatisfiesNeeds(s, needs) ::
      PickSpec(leq, tier, pin, needs, catalog) == Picked(s)
    ensures (forall s | s in catalog && s.id == pin :: !SatisfiesNeeds(s, needs)) ==>
      var tools := if needs.minToolCalling == None then Some(Fair) else needs.minToolCalling;
      PickSpec(leq, tier, pin, needs, catalog) ==
        ResolveModel(leq, tier, Needs(needs.vision, needs.minContext, tools), catalog)
  {
    forall s | s in catalog && s.id == pin
      ensures Find(catalog, pin) == Some(s)
    {
      SameIdSameSpec(catalog, Find(catalog, pin).value, s);
    }
  }

  /** A pin that was filled in by default picks what resolution alone would pick, exactly
      unless the call asks for weak tool calling, the pin meets its needs, and some weak
      model that meets them is preferred to the pin. */
  lemma {:induction false} DefaultPinPicksAsResolution(
    leq: IdOrder, tier: Tier, pin: Spec, needs: Needs, catalog: seq<Spec>)
    requires TotalOrder(leq) && DistinctIds(catalog)
    requires ResolveModel(leq, tier, BASELINE_NEEDS, catalog) == Picked(pin)
    ensures PickSpec(leq, tier, pin.id, needs, catalog) == ResolveModel(leq, tier, OverBaseline(needs), catalog) <==>
      !(&& needs.minToolCalling == Some(Weak) && SatisfiesNeeds(pin, needs)
        && exists y :: Candidate(tier, needs, catalog, y) && y.toolCalling == Weak && !Preferred(leq, pin, y))
  {
    ResolvesToChoice(leq, tier, BASELINE_NEEDS, catalog, pin);
    assert pin in catalog;
    SameIdSameSpec(catalog, Find(catalog, pin.id).value, pin);
    if SatisfiesNeeds(pin, needs) {
      ResolvesToChoice(leq, tier, OverBaseline(needs), catalog, pin);
      assert Candidate(tier, OverBaseline(needs), catalog, pin);
      forall y | Candidate(tier, OverBaseline(needs), catalog, y) && y.toolCalling != Weak
        ensures Preferred(leq, pin, y)
      {
        assert Candidate(tier, BASELINE_NEEDS, catalog, y);
      }
    }
  }

  /** Any weak model that is preferred to a defaulted pin makes the difference. */
  lemma {:induction false} WeakModelMakesTheDifference(
    leq: IdOrder, tier: Tier, pin: Spec, needs: Needs, catalog: seq<Spec>, y: Spec)
    requires TotalOrder(leq) && DistinctIds(catalog)
    requires ResolveModel(leq, tier, BASELINE_NEEDS, catalog) == Picked(pin)
    requires needs.minToolCalling == Some(Weak) && SatisfiesNeeds(pin, needs)
    requires Candidate(tier, needs, catalog, y) && y.toolCalling == Weak && !Preferred(leq, pin, y)
    ensures PickSpec(leq, tier, pin.id, needs, catalog) != ResolveModel(leq, tier, OverBaseline(needs), catalog)
  {
    DefaultPinPicksAsResolution(leq, tier, pin, needs, catalog);
  }

  // ----- Assembling the catalog -----

  /** A catalog entry given by the operator; what is absent keeps its value or a default. */
  datatype Patch = Patch(
    id: string,
    capability: Option<real>,
    costInPerMtok: Option<real>,
    costOutPerMtok: Option<real>,
    context: Option<int>,
    vision: Option<bool>,
    toolCalling: Option<ToolCalling>,
    endpoint: Option<Endpoint>,
    wire: Option<Wire>,
    provider: Option<Provider>,
    requestTimeoutMs: Option<int>)

  function Or<T>(o: Option<T>, default: T): T {
    if o.Some? then o.value else default
  }

  function OrElse<T>(o: Option<T>, other: Option<T>): Option<T> {
    if o.Some? then o else other
  }

  function Patched(s: Spec, p: Patch): Spec {
    Spec(p.id, Or(p.capability, s.capability), Or(p.costInPerMtok, s.costInPerMtok),
         Or(p.costOutPerMtok, s.costOutPerMtok), Or(p.context, s.context), Or(p.vision, s.vision),
         Or(p.toolCalling, s.toolCalling), OrElse(p.endpoint, s.endpoint), OrElse(p.wire, s.wire),
         OrElse(p.provider, s.provider), OrElse(p.requestTimeoutMs, s.requestTimeoutMs))
  }

  function FillSpecDefaults(p: Patch): Spec {
    Patched(Spec(p.id, 5.0, 1.0, 3.0, 128000, false, Fair, None, None, None, None), p)
  }

  /** Field by field, what the patch gives wins, and what it leaves out stays. */
  lemma {:induction false} PatchWins(s: Spec, p: Patch)
    ensures var r := Patched(s, p);
      && r.id == p.id
      && (if p.capability == None then r.capability == s.capability else Some(r.capability) == p.capability)
      && (if p.costInPerMtok == None then r.costInPerMtok == s.costInPerMtok
          else Some(r.costInPerMtok) == p.costInPerMtok)
      && (if p.costOutPerMtok == None then r.costOutPerMtok == s.costOutPerMtok
          else Some(r.costOutPerMtok) == p.costOutPerMtok)
      && (if p.context == None then r.context == s.context else Some(r.context) == p.context)
      && (if p.vision == None then r.vision == s.vision else Some(r.vision) == p.vision)
      && (if p.toolCalling == None then r.toolCalling == s.toolCalling else Some(r.toolCalling) == p.toolCalling)
      && (if p.endpoint == None then r.endpoint == s.endpoint else r.endpoint == p.endpoint)
      && (if p.wire == None then r.wire == s.wire else r.wire == p.wire)
      && (if p.provider == None then r.provider == s.provider else r.provider == p.provider)
      && (if p.requestTimeoutMs == None then r.requestTimeoutMs == s.requestTimeoutMs
          else r.requestTimeoutMs == p.requestTimeoutMs)
  {
  }

  /** A new row is of the middle band, without vision, with fair tool calling and 128000 tokens
      of context, at one and three dollars, where the patch does not say otherwise. */
  lemma {:induction false} NewRowDefaults(p: Patch)
    ensures var r := FillSpecDefaults(p);
      && r.id == p.id && (p.capability == None ==> r.capability == 5.0)
      && (p.costInPerMtok == None ==> r.costInPerMtok == 1.0)
      && (p.costOutPerMtok == None ==> r.costOutPerMtok == 3.0)
      && (p.context == None ==> r.context == 128000) && (p.vision == None ==> !r.vision)
      && (p.toolCalling == None ==> r.toolCalling == Fair)
      && r.endpoint == p.endpoint && r.wire == p.wire && r.provider == p.provider
      && r.requestTimeoutMs == p.requestTimeoutMs
  {
  }

  /** A row for an unknown pin is in its band and meets the baseline, and no more. */
  function BareEntryForBand(id: string, band: Tier): (s: Spec)
    ensures s.id == id && BandForCapability(s.capability) == band
    ensures SatisfiesNeeds(s, BASELINE_NEEDS) && !s.vision && s.toolCalling == Fair && s.context == 128000
    ensures s.costInPerMtok == 1.0 && s.costOutPerMtok == 3.0
    ensures s.endpoint == None && s.wire == None && s.provider == None && s.requestTimeoutMs == None
  {
    var capability := match band case LowTier => 3.0 case MidTier => 5.0 case HighTier => 8.0;
    Spec(id, capability, 1.0, 3.0, 128000, false, Fair, None, None, None, None)
  }

  lemma {:induction false} TailDistinct(catalog: seq<Spec>)
    requires DistinctIds(catalog) && catalog != []
    ensures DistinctIds(catalog[1..])
    ensures forall y :: y in catalog[1..] ==> y.id != catalog[0].id
    ensures forall y :: y in catalog <==> y == catalog[0] || y in catalog[1..]
  {
  }

  lemma {:induction false} HeadDistinct(head: Spec, rest: seq<Spec>)
    requires DistinctIds(rest) && forall y :: y in rest ==> y.id != head.id
    ensures DistinctIds([head] + rest)
  {
  }

  /** Setting a key of an insertion-ordered map. */
  function Put(byId: seq<Spec>, s: Spec): (r: seq<Spec>)
    requires DistinctIds(byId)
    ensures DistinctIds(r)
    ensures forall y :: y in r <==> y == s || (y in byId && y.id != s.id)
  {
    if byId == [] then [s]
    else
      TailDistinct(byId);
      if byId[0].id == s.id then
        HeadDistinct(s, byId[1..]);
        [s] + byId[1..]
      else
        var put := Put(byId[1..], s);
        HeadDistinct(byId[0], put);
        [byId[0]] + put
  }

  lemma {:induction false} FindAfterPut(byId: seq<Spec>, s: Spec, id: string)
    requires DistinctIds(byId)
    ensures Find(Put(byId, s), id) == if id == s.id then Some(s) else Find(byId, id)
  {
  }

  const BANDS_ASCENDING := [LowTier, MidTier, HighTier]

  /** The operator pinned this band. */
  predicate Explicit(env: map<Tier, string>, band: Tier) {
    band in env && env[band] != ""
  }

  function DefaultRow(defaults: seq<Spec>, id: string): Option<Spec> {
    if defaults == [] then None
    else if defaults[|defaults| - 1].id == id then Some(defaults[|defaults| - 1])
    else DefaultRow(defaults[..|defaults| - 1], id)
  }

  /** The default row of an id is the last one with it. */
  lemma {:induction false} DefaultRowIs(defaults: seq<Spec>, id: string, k: nat)
    ensures k < |defaults| && defaults[k].id == id && (forall h | k < h < |defaults| :: defaults[h].id != id) ==>
      DefaultRow(defaults, id) == Some(defaults[k])
    ensures (forall s | s in defaults :: s.id != id) ==> DefaultRow(defaults, id) == None
  {
    if defaults != [] {
      var front, last := defaults[..|defaults| - 1], defaults[|defaults| - 1];
      assert defaults == front + [last];
      DefaultRowIs(front, id, k);
    }
  }

  function PatchedRow(row: Option<Spec>, patches: seq<Patch>, id: string): Option<Spec> {
    if patches == [] then row
    else
      var before, last := PatchedRow(row, patches[..|patches| - 1], id), patches[|patches| - 1];
      if last.id != id then before
      else Some(if before.Some? then Patched(before.value, last) else FillSpecDefaults(last))
  }

  /** No patch of this id after the `k`-th. */
  predicate LastPatch(patches: seq<Patch>, id: string, k: nat) {
    && k < |patches| && patches[k].id == id
    && forall h | k < h < |patches| :: patches[h].id != id
  }

  /** The last patch of an id is applied last, to what the earlier ones made of the row; an id
      without a patch keeps its row. */
  lemma {:induction false} LastPatchWins(row: Option<Spec>, patches: seq<Patch>, id: string, k: nat)
    ensures LastPatch(patches, id, k) ==>
      var before := PatchedRow(row, patches[..k], id);
      PatchedRow(row, patches, id) ==
        Some(if before == None then FillSpecDefaults(patches[k]) else Patched(before.value, patches[k]))
    ensures (forall p | p in patches :: p.id != id) ==> PatchedRow(row, patches, id) == row
  {
    if patches != [] {
      var front, last := patches[..|patches| - 1], patches[|patches| - 1];
      assert patches == front + [last];
      LastPatchWins(row, front, id, k);
      if k < |front| { assert front[..k] == patches[..k]; }
    }
  }

  function PinnedRow(row: Option<Spec>, env: map<Tier, string>, n: nat, id: string): Option<Spec>
    requires n <= 3
  {
    if n == 0 then row
    else
      var before, band := PinnedRow(row, env, n - 1, id), BANDS_ASCENDING[n - 1];
      if before.None? && Explicit(env, band) && env[band] == id then Some(BareEntryForBand(id, band)) else before
  }

  /** The row of one id: its default, then the operator's patches in order, and for an
      unknown id that a band is pinned to, a bare entry in that band. */
  function RowOf(defaults: seq<Spec>, patches: seq<Patch>, env: map<Tier, string>, id: string): Option<Spec> {
    PinnedRow(PatchedRow(DefaultRow(defaults, id), patches, id), env, 3, id)
  }

  /** A known id keeps its row whatever is pinned; an unknown one gets a bare row in the lowest
      band that is pinned to it, if there is one. */
  lemma {:induction false} RowsOfPins(row: Option<Spec>, env: map<Tier, string>, id: string)
    ensures var r := PinnedRow(row, env, 3, id);
      if row.Some? then r == row
      else if LowTier in env && env[LowTier] == id && id != "" then r == Some(BareEntryForBand(id, LowTier))
      else if MidTier in env && env[MidTier] == id && id != "" then r == Some(BareEntryForBand(id, MidTier))
      else if HighTier in env && env[HighTier] == id && id != "" then r == Some(BareEntryForBand(id, HighTier))
      else r == None
  {
    assert PinnedRow(row, env, 1, id) == PinnedRow(PinnedRow(row, env, 0, id), env, 1, id);
    assert PinnedRow(row, env, 2, id).Some? || PinnedRow(row, env, 2, id).None?;
  }

  datatype Assembled = Assembled(catalog: seq<Spec>, pins: map<Tier, string>)

  /** Distinct ids, a pin for every band, and every pin names a row. */
  ghost predicate WellFormed(a: Assembled) {
    && DistinctIds(a.catalog)
    && forall band: Tier :: band in a.pins && Find(a.catalog, a.pins[band]).Some?
  }

  method DefaultRows(defaults: seq<Spec>) returns (byId: seq<Spec>)
    ensures DistinctIds(byId)
    ensures forall id :: Find(byId, id) == DefaultRow(defaults, id)
  {
    byId := [];
    for i := 0 to |defaults|
      invariant DistinctIds(byId)
      invariant forall id :: Find(byId, id) == DefaultRow(defaults[..i], id)
    {
      ghost var before := byId;
      assert defaults[..i + 1][..i] == defaults[..i];
      byId := Put(byId, defaults[i]);
      forall id
        ensures Find(byId, id) == DefaultRow(defaults[..i + 1], id)
      {
        FindAfterPut(before, defaults[i], id);
      }
    }
    assert defaults[..|defaults|] == defaults;
  }

  method PatchRows(rows: seq<Spec>, patches: seq<Patch>) returns (byId: seq<Spec>)
    requires DistinctIds(rows)
    ensures DistinctIds(byId)
    ensures forall id :: Find(byId, id) == PatchedRow(Find(rows, id), patches, id)
  {
    byId := rows;
    for i := 0 to |patches|
      invariant DistinctIds(byId)
      invariant forall id :: Find(byId, id) == PatchedRow(Find(rows, id), patches[..i], id)
    {
      ghost var before := byId;
      var patch := patches[i];
      assert patches[..i + 1][..i] == patches[..i];
      var existing := Find(byId, patch.id);
      var row := if existing.Some? then Patched(existing.value, patch) else FillSpecDefaults(patch);
      byId := Put(byId, row);
      forall id
        ensures Find(byId, id) == PatchedRow(Find(rows, id), patches[..i + 1], id)
      {
        FindAfterPut(before, row, id);
      }
    }
    assert patches[..|patches|] == patches;
  }

  function Ensured(rows: seq<Spec>, pinned: string, band: Tier, id: string): Option<Spec> {
    if id == pinned && Find(rows, id).None? then Some(BareEntryForBand(id, band)) else Find(rows, id)
  }

  method EnsureRow(rows: seq<Spec>, pinned: string, band: Tier) returns (byId: seq<Spec>)
    requires DistinctIds(rows)
    ensures DistinctIds(byId) && Find(byId, pinned).Some?
    ensures forall id :: Find(byId, id) == Ensured(rows, pinned, band, id)
  {
    byId := rows;
    if Find(rows, pinned).None? {
      byId := Put(rows, BareEntryForBand(pinned, band));
    }
    forall id
      ensures Find(byId, id) == Ensured(rows, pinned, band, id)
    {
      if byId != rows { FindAfterPut(rows, BareEntryForBand(pinned, band), id); }
    }
  }

  /** The rows once the first `n` bands were looked at. */
  ghost predicate RowsPinned(rows: seq<Spec>, byId: seq<Spec>, env: map<Tier, string>, n: nat)
    requires n <= 3
  {
    DistinctIds(byId) && forall id :: Find(byId, id) == PinnedRow(Find(rows, id), env, n, id)
  }

  /** The operator's pins for the first `n` bands, each on a row. */
  ghost predicate PinsRead(byId: seq<Spec>, pins: map<Tier, string>, env: map<Tier, string>, n: nat) {
    && (forall band: Tier :: band in pins <==> Explicit(env, band) && Rank(band) < n)
    && (forall band: Tier | band in pins :: band in env && pins[band] == env[band] && Find(byId, pins[band]).Some?)
  }

  lemma {:induction false} RowsPinnedNext(
    rows: seq<Spec>, byId: seq<Spec>, next: seq<Spec>, env: map<Tier, string>, n: nat)
    requires n < 3 && RowsPinned(rows, byId, env, n) && DistinctIds(next)
    requires var band := BANDS_ASCENDING[n];
      if Explicit(env, band) then forall id :: Find(next, id) == Ensured(byId, env[band], band, id) else next == byId
    ensures RowsPinned(rows, next, env, n + 1)
  {
    forall id
      ensures Find(next, id) == PinnedRow(Find(rows, id), env, n + 1, id)
    {
      assert Find(byId, id) == PinnedRow(Find(rows, id), env, n, id);
    }
  }

  lemma {:induction false} OtherRank(a: Tier, b: Tier)
    requires a != b
    ensures Rank(a) <= Rank(b) <==> Rank(a) < Rank(b)
  {
  }

  lemma {:induction false} PinsReadNext(
    byId: seq<Spec>, next: seq<Spec>, pins: map<Tier, string>, env: map<Tier, string>, n: nat)
    requires n < 3 && PinsRead(byId, pins, env, n)
    requires forall id :: Find(byId, id).Some? ==> Find(next, id).Some?
    requires Explicit(env, BANDS_ASCENDING[n]) ==> Find(next, env[BANDS_ASCENDING[n]]).Some?
    ensures var band := BANDS_ASCENDING[n];
      PinsRead(next, if Explicit(env, band) then pins[band := env[band]] else pins, env, n + 1)
  {
    var band := BANDS_ASCENDING[n];
    var had := if Explicit(env, band) then pins[band := env[band]] else pins;
    forall b: Tier
      ensures b in had <==> Explicit(env, b) && Rank(b) < n + 1
      ensures b in had ==> b in env && had[b] == env[b] && Find(next, had[b]).Some?
    {
      if b != band { OtherRank(b, band); }
    }
  }

  method PinRows(rows: seq<Spec>, env: map<Tier, string>) returns (byId: seq<Spec>, pins: map<Tier, string>)
    requires DistinctIds(rows)
    ensures RowsPinned(rows, byId, env, 3) && PinsRead(byId, pins, env, 3)
  {
    byId := rows;
    pins := map[];
    for n := 0 to 3
      invariant RowsPinned(rows, byId, env, n) && PinsRead(byId, pins, env, n)
    {
      var band := BANDS_ASCENDING[n];
      ghost var before := byId;
      ghost var had := pins;
      if Explicit(env, band) {
        byId := EnsureRow(byId, env[band], band);
        pins := pins[band := env[band]];
      }
      RowsPinnedNext(rows, before, byId, env, n);
      PinsReadNext(before, byId, had, env, n);
    }
  }

  /** The pin of a band: the operator's, or the banded default over the baseline. */
  function PinOf(leq: IdOrder, env: map<Tier, string>, catalog: seq<Spec>, band: Tier): Option<string>
    requires TotalOrder(leq)
  {
    if Explicit(env, band) then Some(env[band])
    else
      match ResolveModel(leq, band, BASELINE_NEEDS, catalog)
      case Picked(spec) => Some(spec.id)
      case _ => None
  }

  /** Every explicit band and the first `n` others have their pin. */
  ghost predicate PinsFilled(
    leq: IdOrder, env: map<Tier, string>, catalog: seq<Spec>, pins: map<Tier, string>, n: nat)
    requires TotalOrder(leq)
  {
    && (forall band: Tier :: band in pins <==> Explicit(env, band) || Rank(band) < n)
    && (forall band: Tier | band in pins :: Some(pins[band]) == PinOf(leq, env, catalog, band))
  }

  lemma {:induction false} PinsFilledNext(
    leq: IdOrder, env: map<Tier, string>, catalog: seq<Spec>, pins: map<Tier, string>, band: Tier, pin: string)
    requires TotalOrder(leq) && PinsFilled(leq, env, catalog, pins, Rank(band))
    requires band !in pins && PinOf(leq, env, catalog, band) == Some(pin)
    ensures PinsFilled(leq, env, catalog, pins[band := pin], Rank(band) + 1)
  {
    var next := pins[band := pin];
    forall b: Tier
      ensures b in next <==> Explicit(env, b) || Rank(b) <= Rank(band)
      ensures b in next ==> Some(next[b]) == PinOf(leq, env, catalog, b)
    {
      if b != band { OtherRank(b, band); }
    }
  }

  lemma {:induction false} PinsFilledSkip(
    leq: IdOrder, env: map<Tier, string>, catalog: seq<Spec>, pins: map<Tier, string>, band: Tier)
    requires TotalOrder(leq) && PinsFilled(leq, env, catalog, pins, Rank(band)) && band in pins
    ensures PinsFilled(leq, env, catalog, pins, Rank(band) + 1)
  {
  }

  method FillPins(leq: IdOrder, catalog: seq<Spec>, env: map<Tier, string>, explicit: map<Tier, string>)
    returns (pins: map<Tier, string>, ok: bool)
    requires TotalOrder(leq) && PinsFilled(leq, env, catalog, explicit, 0)
    ensures ok ==> PinsFilled(leq, env, catalog, pins, 3)
    ensures !ok ==> exists band :: PinOf(leq, env, catalog, band).None?
  {
    pins := explicit;
    for n := 0 to 3
      invariant PinsFilled(leq, env, catalog, pins, n)
    {
      var band := BANDS_ASCENDING[n];
      assert Rank(band) == n;
      if band in pins {
        PinsFilledSkip(leq, env, catalog, pins, band);
      } else {
        var pin := PinOf(leq, env, catalog, band);
        if pin.None? { return pins, false; }
        PinsFilledNext(leq, env, catalog, pins, band, pin.value);
        pins := pins[band := pin.value];
      }
    }
    return pins, true;
  }

  lemma {:induction false} PinNamesRow(leq: IdOrder, env: map<Tier, string>, catalog: seq<Spec>, band: Tier)
    requires TotalOrder(leq)
    requires Explicit(env, band) ==> Find(catalog, env[band]).Some?
    requires PinOf(leq, env, catalog, band).Some?
    ensures Find(catalog, PinOf(leq, env, catalog, band).value).Some?
  {
    PickedIsChoice(leq, band, BASELINE_NEEDS, catalog);
    if !Explicit(env, band) {
      var spec := ResolveModel(leq, band, BASELINE_NEEDS, catalog).spec;
      assert Candidate(band, BASELINE_NEEDS, catalog, spec);
    }
  }

  lemma {:induction false} ReadIsFilled(
    leq: IdOrder, env: map<Tier, string>, catalog: seq<Spec>, pins: map<Tier, string>)
    requires TotalOrder(leq) && PinsRead(catalog, pins, env, 3)
    ensures PinsFilled(leq, env, catalog, pins, 0)
    ensures forall band :: Explicit(env, band) ==> Find(catalog, env[band]).Some?
  {
    forall band: Tier
      ensures band in pins <==> Explicit(env, band)
    {
      assert Rank(band) < 3;
    }
  }

  lemma {:induction false} FilledIsWellFormed(
    leq: IdOrder, env: map<Tier, string>, catalog: seq<Spec>, pins: map<Tier, string>)
    requires TotalOrder(leq) && DistinctIds(catalog) && PinsFilled(leq, env, catalog, pins, 3)
    requires forall band :: Explicit(env, band) ==> Find(catalog, env[band]).Some?
    ensures WellFormed(Assembled(catalog, pins))
    ensures forall band: Tier :: band in pins && Some(pins[band]) == PinOf(leq, env, catalog, band)
  {
    forall band: Tier
      ensures band in pins && Some(pins[band]) == PinOf(leq, env, catalog, band) && Find(catalog, pins[band]).Some?
    {
      assert Rank(band) < 3;
      PinNamesRow(leq, env, catalog, band);
    }
  }

  method AssembleRows(defaults: seq<Spec>, patches: seq<Patch>, env: map<Tier, string>)
    returns (byId: seq<Spec>, explicit: map<Tier, string>)
    ensures DistinctIds(byId) && PinsRead(byId, explicit, env, 3)
    ensures forall id :: Find(byId, id) == RowOf(defaults, patches, env, id)
  {
    var first := DefaultRows(defaults);
    var second := PatchRows(first, patches);
    byId, explicit := PinRows(second, env);
    forall id
      ensures Find(byId, id) == RowOf(defaults, patches, env, id)
    {
      assert Find(byId, id) == PinnedRow(Find(second, id), env, 3, id);
    }
  }

  /** `assembleCatalog`, after the operator's JSON was parsed into patches. It fails exactly
      when some band has no explicit pin and cannot be resolved. */
  method AssembleCatalog(leq: IdOrder, defaults: seq<Spec>, patches: seq<Patch>, env: map<Tier, string>)
    returns (a: Assembled, ok: bool)
    requires TotalOrder(leq)
    ensures forall id :: Find(a.catalog, id) == RowOf(defaults, patches, env, id)
    ensures ok <==> forall band: Tier :: PinOf(leq, env, a.catalog, band).Some?
    ensures ok ==> WellFormed(a)
    ensures ok ==> forall band: Tier :: band in a.pins && Some(a.pins[band]) == PinOf(leq, env, a.catalog, band)
  {
    var byId, explicit := AssembleRows(defaults, patches, env);
    ReadIsFilled(leq, env, byId, explicit);
    var pins;
    pins, ok := FillPins(leq, byId, env, explicit);
    a := Assembled(byId, pins);
    if ok { FilledIsWellFormed(leq, env, byId, pins); }
  }
}
