/** Lists of indices: how a filtered list is said to keep the order of what it was made from. */
module Selections {

  /** The indices stand in increasing order, so none stands twice. */
  ghost predicate Increasing(picks: seq<nat>) {
    forall a, b | 0 <= a < b < |picks| :: picks[a] < picks[b]
  }

  /** Exactly the wanted indices, in order. */
  ghost predicate Selects(wanted: seq<bool>, picks: seq<nat>) {
    && Increasing(picks)
    && (forall p: nat | p < |picks| :: picks[p] < |wanted| && wanted[picks[p]])
    && (forall m: nat | m < |wanted| && wanted[m] :: m in picks)
  }

  lemma {:induction false} SelectsSnoc(wanted: seq<bool>, last: bool, picks: seq<nat>)
    requires Selects(wanted, picks)
    ensures Selects(wanted + [last], picks + (if last then [|wanted|] else []))
  {
    var longer := picks + (if last then [|wanted|] else []);
    forall m: nat | m < |wanted| + 1 && (wanted + [last])[m]
      ensures m in longer
    {
      if m == |wanted| { assert longer[|picks|] == m; } else { assert wanted[m] && m in picks; }
    }
  }

  /** One list after the other. */
  function Concatenated<T>(parts: seq<seq<T>>): seq<T> {
    if parts == [] then [] else Concatenated(parts[..|parts| - 1]) + parts[|parts| - 1]
  }
}
