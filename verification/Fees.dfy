/** The split of a ticket's price between the series creator and the treasury. */
module Fees {

  /** `TREASURY_FEE`: the treasury's share in basis points (3.00%). */
  const TREASURY_FEE: nat := 300
  const BASIS_POINTS: nat := 10_000

  datatype Split = Split(creator: nat, treasury: nat)

  /** `price * TREASURY_FEE / 10_000`, rounded down. */
  function TreasuryFee(price: nat): (fee: nat)
    ensures fee * BASIS_POINTS <= price * TREASURY_FEE < (fee + 1) * BASIS_POINTS
    ensures fee <= price
  {
    price * TREASURY_FEE / BASIS_POINTS
  }

  /** The creator receives what the treasury does not: nothing is lost to rounding, and
      the creator keeps at least 97% of the price. */
  function SplitPrice(price: nat): (r: Split)
    ensures r.treasury == TreasuryFee(price)
    ensures r.creator + r.treasury == price
    ensures r.creator * BASIS_POINTS >= price * (BASIS_POINTS - TREASURY_FEE)
  {
    var fee := TreasuryFee(price);
    Split(price - fee, fee)
  }
}
