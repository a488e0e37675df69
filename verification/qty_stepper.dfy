/** The per-product quantity stepper that App.jsx and ProductList.jsx both
    keep: a map from product id to the quantity shown on the product card,
    stepped by `+` and `-` and read by "Add to Cart". */
module QtyStepper {

  /** `quantities[id] || 1`: the quantity shown for `id`; a missing entry
      (or a falsy 0) reads as 1. */
  function Shown(quantities: map<int, int>, id: int): (n: int)
    ensures id !in quantities || quantities[id] == 0 ==> n == 1
    ensures id in quantities && quantities[id] != 0 ==> n == quantities[id]
  {
    if id in quantities && quantities[id] != 0 then quantities[id] else 1
  }

  function Max(a: int, b: int): int {
    if a >= b then a else b
  }

  /** `handleQtyChange(id, delta)`: the entry for `id` becomes
      `Math.max(1, (qty[id] || 1) + delta)`; nothing else moves. */
  function Step(quantities: map<int, int>, id: int, delta: int): (r: map<int, int>)
    ensures r.Keys == quantities.Keys + {id}
    ensures r[id] >= 1
    ensures r[id] >= Shown(quantities, id) + delta
    ensures r[id] == 1 || r[id] == Shown(quantities, id) + delta
    ensures forall k :: k in quantities && k != id ==> r[k] == quantities[k]
  {
    quantities[id := Max(1, Shown(quantities, id) + delta)]
  }

  /** Every stored quantity is at least 1. */
  predicate AllPositive(quantities: map<int, int>) {
    forall k :: k in quantities ==> quantities[k] >= 1
  }

  /** Stepping keeps every stored quantity at least 1, so the shown
      quantity (and the one "Add to Cart" passes on) is always at least 1. */
  lemma StepKeepsPositive(quantities: map<int, int>, id: int, delta: int, other: int)
    requires AllPositive(quantities)
    ensures AllPositive(Step(quantities, id, delta))
    ensures Shown(Step(quantities, id, delta), other) >= 1
  {
  }

  /** `+` then `-` returns to the quantity shown before; `-` then `+` does
      too unless `-` was stopped at the floor of 1. */
  lemma StepRoundTrip(quantities: map<int, int>, id: int)
    requires AllPositive(quantities)
    ensures Shown(Step(Step(quantities, id, 1), id, -1), id) == Shown(quantities, id)
    ensures Shown(quantities, id) >= 2 ==>
      Shown(Step(Step(quantities, id, -1), id, 1), id) == Shown(quantities, id)
    ensures Shown(quantities, id) == 1 ==>
      Shown(Step(quantities, id, -1), id) == 1
  {
  }

  /** ProductList's "Add to Cart": `onAdd(p.id, quantities[p.id] || 1)`,
      the product id and the quantity the card shows. */
  function AddRequest(quantities: map<int, int>, id: int): (r: (int, int))
    ensures r.0 == id
    ensures r.1 == Shown(quantities, id)
    ensures AllPositive(quantities) ==> r.1 >= 1
  {
    (id, Shown(quantities, id))
  }
}
