/**
 Shares times a price, and the few laws about it that the accounting needs.
 */
module Money {

  function Worth(shares: real, price: real): real { shares * price }

  lemma MoreShares(a: real, b: real, price: real)
    ensures Worth(a + b, price) == Worth(a, price) + Worth(b, price)
  {}

  lemma FewerShares(a: real, b: real, price: real)
    ensures Worth(a - b, price) == Worth(a, price) - Worth(b, price)
  {}

  lemma PriceMove(shares: real, p: real, q: real)
    ensures Worth(shares, p - q) == Worth(shares, p) - Worth(shares, q)
  {}

  lemma NoShares(price: real)
    ensures Worth(0.0, price) == 0.0
  {}

  lemma UnitPrice(worth: real, shares: real)
    requires shares != 0.0
    ensures Worth(shares, worth / shares) == worth
  {}
}
