/** Exact token pricing (internal/accounting/cost.go). */
module Cost {
  import opened Wrappers
  import opened Money

  datatype CostError = NegativeCount | InputOverflow | OutputOverflow | SumOverflow | CeilingOverflow

  const MAX_NUMERATOR: int := MAX_MICROS * MICROS_PER_USD

  /** calculateTokenCost: every product is checked before it is used, and the quotient is rounded up once. */
  function TokenCost(input: int, output: int, inputRate: int, outputRate: int): Result<Money, CostError> {
    if input < 0 || output < 0 || inputRate < 0 || outputRate < 0 then Err(NegativeCount)
    else
      var inputProduct := input * inputRate;
      var outputProduct := output * outputRate;
      if inputProduct > MAX_NUMERATOR then Err(InputOverflow)
      else if outputProduct > MAX_NUMERATOR then Err(OutputOverflow)
      else if inputProduct + outputProduct > MAX_NUMERATOR then Err(SumOverflow)
      else
        var numerator := inputProduct + outputProduct;
        var quotient := numerator / MICROS_PER_USD + if numerator % MICROS_PER_USD != 0 then 1 else 0;
        if quotient > MAX_MICROS then Err(CeilingOverflow) else NewMoney(quotient)
  }

  function NewMoney(micros: int): Result<Money, CostError> {
    if 0 <= micros <= MAX_MICROS then Ok(Known(micros)) else Err(NegativeCount)
  }

  /** The least whole number of micros that pays for the exact price. */
  ghost predicate IsCeiling(price: int, input: int, output: int, inputRate: int, outputRate: int) {
    var exact := input * inputRate + output * outputRate;
    (price - 1) * MICROS_PER_USD < exact <= price * MICROS_PER_USD
  }

  lemma ProductNonNegative(a: int, b: int)
    requires 0 <= a && 0 <= b
    ensures 0 <= a * b
  {
  }

  /** The price is the ceiling of the exact cost, and the calculation fails exactly when a count or
      a rate is negative or that ceiling is outside the int64 range. */
  lemma CostIsExact(input: int, output: int, inputRate: int, outputRate: int, price: int)
    requires 0 <= input && 0 <= output && 0 <= inputRate && 0 <= outputRate
    requires IsCeiling(price, input, output, inputRate, outputRate)
    ensures var r := TokenCost(input, output, inputRate, outputRate);
            if price <= MAX_MICROS then 0 <= price && r == Ok(Known(price)) else r.Err?
  {
    ProductNonNegative(input, inputRate);
    ProductNonNegative(output, outputRate);
  }

  lemma CostFailsOnNegatives(input: int, output: int, inputRate: int, outputRate: int)
    ensures TokenCost(input, output, inputRate, outputRate) == Err(NegativeCount)
            <==> input < 0 || output < 0 || inputRate < 0 || outputRate < 0
  {
    if 0 <= input && 0 <= output && 0 <= inputRate && 0 <= outputRate {
      ProductNonNegative(input, inputRate);
      ProductNonNegative(output, outputRate);
    }
  }

  /** A request that uses no more than it planned costs no more than it reserved. */
  lemma CostMonotone(input: int, output: int, plannedInput: int, plannedOutput: int, inputRate: int, outputRate: int)
    requires 0 <= input <= plannedInput && 0 <= output <= plannedOutput && 0 <= inputRate && 0 <= outputRate
    requires TokenCost(plannedInput, plannedOutput, inputRate, outputRate).Ok?
    ensures var actual := TokenCost(input, output, inputRate, outputRate);
            var planned := TokenCost(plannedInput, plannedOutput, inputRate, outputRate);
            actual.Ok? && actual.value.Known? && planned.value.Known? && actual.value.micros <= planned.value.micros
  {
    ProductNonNegative(plannedInput - input, inputRate);
    ProductNonNegative(plannedOutput - output, outputRate);
    ProductNonNegative(input, inputRate);
    ProductNonNegative(output, outputRate);
    assert plannedInput * inputRate == input * inputRate + (plannedInput - input) * inputRate;
    assert plannedOutput * outputRate == output * outputRate + (plannedOutput - output) * outputRate;
  }

  // ---- Prices of usage and of plans ----

  datatype Count = Absent | Count(value: int)

  datatype Rates = Unpriced | Rates(input: int, output: int)

  /** CalculateActualCost and CalculateReservationCost: an absent price, input or output is an
      unknown cost without an error. */
  function CalculateCost(input: Count, output: Count, rates: Rates): Result<Money, CostError> {
    if rates.Unpriced? || input.Absent? || output.Absent? then Ok(Unknown)
    else TokenCost(input.value, output.value, rates.input, rates.output)
  }
}
