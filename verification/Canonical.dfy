/** The canonical money value shared by all drivers. */
module Canonical {
  /** `Decimal` amounts are exact; the 28-digit context is taken as unbounded. */
  datatype Money = Money(amount: real, currency: string)
}
