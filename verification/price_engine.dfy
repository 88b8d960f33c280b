/** The cost formula: the price of a gram quantity of an ingredient bought
    at a bulk price. Prices are idealised as exact reals; the browser's
    binary floating point and its rounding are not modelled. */
module PriceEngine {

  /** Grams in the bulk unit when the caller gives no basis (one kilogram,
      or one litre taken as a kilogram). */
  const DefaultBasis: real := 1000.0

  /** `preco * gramas / base`: the share of the bulk price `preco` that
      `gramas` grams cost when `base` grams are sold at that price. */
  function CostWithBasis(preco: real, gramas: real, base: real): (r: real)
    requires base != 0.0
    ensures r * base == preco * gramas
  {
    preco * gramas / base
  }

  /** The cost under the default basis of 1000 grams. */
  function Cost(preco: real, gramas: real): (r: real)
    ensures r * DefaultBasis == preco * gramas
    ensures preco > 0.0 && gramas > 0.0 ==> r > 0.0
  {
    CostWithBasis(preco, gramas, DefaultBasis)
  }

  /** A free ingredient, or none of it, costs nothing. */
  lemma CostZero(preco: real, gramas: real)
    ensures Cost(0.0, gramas) == 0.0
    ensures Cost(preco, 0.0) == 0.0
  {
  }

  /** The cost is linear in the price for a fixed quantity. */
  lemma CostLinearInPrice(p1: real, p2: real, k: real, gramas: real)
    ensures Cost(p1 + p2, gramas) == Cost(p1, gramas) + Cost(p2, gramas)
    ensures Cost(k * p1, gramas) == k * Cost(p1, gramas)
  {
  }

  /** The cost is linear in the quantity for a fixed price. */
  lemma CostLinearInQuantity(preco: real, q1: real, q2: real, k: real)
    ensures Cost(preco, q1 + q2) == Cost(preco, q1) + Cost(preco, q2)
    ensures Cost(preco, k * q1) == k * Cost(preco, q1)
  {
  }

  /** More grams of an ingredient with a positive price cost more. */
  lemma CostMonotoneInQuantity(preco: real, q1: real, q2: real)
    requires preco > 0.0 && q1 < q2
    ensures Cost(preco, q1) < Cost(preco, q2)
  {
  }

  /** 250 g of chocolate at 29.00 per kilogram cost 7.25. */
  lemma CostExample()
    ensures Cost(29.0, 250.0) == 7.25
  {
  }
}
