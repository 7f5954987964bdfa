/** Stage 4 quantization: prices and quantities floored to the exchange's grid, quantities also raised to it. */
module Quantizer {
  import opened Money
  import opened Results

  datatype ExchangeRules = ExchangeRules(
    tickSize: real, stepSize: real, minNotional: real, pricePrecision: int, qtyPrecision: int)

  datatype ValueError = ValueError(message: string)

  /** The spacing of prices: the tick, or the precision when there is no tick. */
  function PriceStep(rules: ExchangeRules): (step: real)
    ensures step > 0.0
  {
    if rules.tickSize > 0.0 then rules.tickSize else Quantum(rules.pricePrecision)
  }

  function QtyStep(rules: ExchangeRules): (step: real)
    ensures step > 0.0
  {
    if rules.stepSize > 0.0 then rules.stepSize else Quantum(rules.qtyPrecision)
  }

  function QuantizePrice(price: real, rules: ExchangeRules): (r: Result<real, ValueError>)
    ensures r.Ok? <==> price > 0.0
    ensures r.Ok? ==> 0.0 <= r.value <= price < r.value + PriceStep(rules) && OnStep(r.value, PriceStep(rules))
  {
    if price <= 0.0 then Err(ValueError("price must be > 0"))
    else ToStepIdempotent(price, PriceStep(rules)); Ok(ToStep(price, PriceStep(rules)))
  }

  function QuantizeQty(qty: real, rules: ExchangeRules): (r: Result<real, ValueError>)
    ensures r.Ok? <==> qty > 0.0
    ensures r.Ok? ==> 0.0 <= r.value <= qty < r.value + QtyStep(rules) && OnStep(r.value, QtyStep(rules))
  {
    if qty <= 0.0 then Err(ValueError("qty must be > 0"))
    else ToStepIdempotent(qty, QtyStep(rules)); Ok(ToStep(qty, QtyStep(rules)))
  }

  /** The smallest grid quantity that is not below the given one. */
  function QuantizeQtyUp(qty: real, rules: ExchangeRules): (r: real)
    ensures OnStep(r, QtyStep(rules)) && r >= 0.0
    ensures qty > 0.0 ==> qty <= r < qty + QtyStep(rules)
  {
    var step := QtyStep(rules);
    MultipleOnStep(0, step);
    if qty <= 0.0 then 0.0
    else
      var n := Ceiling(qty / step);
      QuotientBounds(qty, n, step);
      QuotientBounds(qty, n - 1, step);
      MultipleOrder(n - 1, 0, step);
      MultipleOnStep(n, step);
      Multiple(n, step)
  }

  function Ceiling(x: real): (n: int)
    ensures n as real - 1.0 < x <= n as real
  {
    -((-x).Floor)
  }

  predicate MeetsMinNotional(price: real, qty: real, rules: ExchangeRules) {
    price * qty >= rules.minNotional
  }
}
