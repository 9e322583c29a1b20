/** The shipped catalog (`DEFAULT_CATALOG` of `src/brains/model-catalog.ts`) and the pins it
    gives when the operator sets none. */
module DefaultCatalog {
  import opened Contract
  import opened ModelCatalog

  function Row(
    id: string, capability: real, costIn: real, costOut: real, context: int, vision: bool, tools: ToolCalling): Spec
  {
    Spec(id, capability, costIn, costOut, context, vision, tools, None, None, None, None)
  }

  const FLASH := Row("deepseek/deepseek-v4-flash", 3.0, 0.14, 0.28, 128000, false, Fair)
  const PRO := Row("deepseek/deepseek-v4-pro", 6.0, 0.55, 2.19, 384000, false, Strong)
  const QWEN := Row("qwen/qwen3-235b-a22b", 5.0, 0.2, 0.85, 256000, false, Weak)
  const GLM := Row("z-ai/glm-5.2", 7.0, 0.6, 2.2, 200000, false, Strong)

  const DEFAULT_CATALOG: seq<Spec> := [
    FLASH,
    Row("google/gemini-2.5-flash", 3.0, 0.3, 2.5, 1000000, true, Fair),
    Row("qwen/qwen3-30b-a3b", 2.0, 0.08, 0.29, 128000, false, Weak),
    PRO,
    QWEN,
    Row("moonshotai/kimi-k2", 6.0, 0.55, 2.2, 200000, false, Strong),
    Row("anthropic/claude-haiku-4.5", 5.0, 1.0, 5.0, 200000, true, Strong),
    GLM,
    Row("anthropic/claude-sonnet-4.5", 8.0, 3.0, 15.0, 200000, true, Strong),
    Row("google/gemini-2.5-pro", 8.0, 1.25, 10.0, 1000000, true, Strong),
    Row("anthropic/claude-opus-4.8", 10.0, 5.0, 25.0, 200000, true, Strong)]

  /** The banded default of each tier; no unpinned band falls on a direct Anthropic row. */
  function BandedDefault(tier: Tier): Spec {
    match tier
    case LowTier => FLASH
    case MidTier => PRO
    case HighTier => GLM
  }

  lemma {:induction false} CheapestInBand(tier: Tier, y: Spec)
    requires y in DEFAULT_CATALOG && SatisfiesNeeds(y, BASELINE_NEEDS) && BandRank(y) == Rank(tier)
    ensures y == BandedDefault(tier) || BlendedCost(BandedDefault(tier)) < BlendedCost(y)
  {
  }

  /** Whatever the order on ids, the shipped catalog resolves every band to these models. */
  lemma {:induction false} DefaultPins(leq: IdOrder, tier: Tier)
    requires TotalOrder(leq)
    ensures ResolveModel(leq, tier, BASELINE_NEEDS, DEFAULT_CATALOG) == Picked(BandedDefault(tier))
  {
    var best := BandedDefault(tier);
    assert DEFAULT_CATALOG[0] == FLASH && DEFAULT_CATALOG[3] == PRO && DEFAULT_CATALOG[7] == GLM;
    assert Candidate(tier, BASELINE_NEEDS, DEFAULT_CATALOG, best);
    PickedIsChoice(leq, tier, BASELINE_NEEDS, DEFAULT_CATALOG);
    var r := ResolveModel(leq, tier, BASELINE_NEEDS, DEFAULT_CATALOG);
    assert Preferred(leq, r.spec, best);
    assert Candidate(tier, BASELINE_NEEDS, DEFAULT_CATALOG, r.spec);
    CheapestInBand(tier, r.spec);
  }

  const ASKS_FOR_WEAK := Needs(false, None, Some(Weak))

  /** Ids of the same length differ in their first letter. */
  lemma {:induction false} ShippedIdsAreDistinct()
    ensures DistinctIds(DEFAULT_CATALOG)
  {
  }

  lemma {:induction false} QwenIsPreferred(leq: IdOrder)
    ensures SatisfiesNeeds(PRO, ASKS_FOR_WEAK) && SatisfiesNeeds(QWEN, ASKS_FOR_WEAK)
    ensures BandRank(QWEN) == Rank(MidTier) && !Preferred(leq, PRO, QWEN)
    ensures QWEN in DEFAULT_CATALOG
  {
    assert DEFAULT_CATALOG[4] == QWEN;
  }

  /** The shipped catalog is one on which an unset band's pin changes selection: a call of the
      middle tier that asks for weak tool calling gets the pin, and without it would get the
      cheaper weak model. */
  lemma {:induction false} UnsetPinChangesSelection(leq: IdOrder)
    requires TotalOrder(leq)
    ensures PickSpec(leq, MidTier, PRO.id, ASKS_FOR_WEAK, DEFAULT_CATALOG) !=
      ResolveModel(leq, MidTier, OverBaseline(ASKS_FOR_WEAK), DEFAULT_CATALOG)
  {
    ShippedIdsAreDistinct();
    DefaultPins(leq, MidTier);
    QwenIsPreferred(leq);
    WeakModelMakesTheDifference(leq, MidTier, PRO, ASKS_FOR_WEAK, DEFAULT_CATALOG, QWEN);
  }
}
