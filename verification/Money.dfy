/** Optional non-negative money in USD micros (internal/accounting/money.go). */
module Money {
  import opened Wrappers

  const MICROS_PER_USD: int := 1_000_000
  const MAX_MICROS: int := MAX_INT64

  type Micros = n: int | 0 <= n <= MAX_MICROS

  /** `Unknown` is the zero value of the Go struct; it is not zero dollars. */
  datatype Money = Unknown | Known(micros: Micros)

  datatype MoneyError = Negative | Overflow | Underflow | Invalid | UnknownOperand

  const ZERO: Money := Known(0)

  function Add(a: Money, b: Money): Result<Money, MoneyError> {
    if a.Unknown? || b.Unknown? then Ok(Unknown)
    else if a.micros > MAX_MICROS - b.micros then Err(Overflow)
    else Ok(Known(a.micros + b.micros))
  }

  function Subtract(a: Money, b: Money): Result<Money, MoneyError> {
    if a.Unknown? || b.Unknown? then Ok(Unknown)
    else if a.micros < b.micros then Err(Underflow)
    else Ok(Known(a.micros - b.micros))
  }
}
