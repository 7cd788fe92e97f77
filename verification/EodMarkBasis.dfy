/**
 The mark basis: how far the broker's marks stand from the settled closes, name
 by name and for the whole book, over two days.  Two programs add it up
 independently; both are here, against one specification.
 */
module EodMarkBasis {
  import opened Options
  import Sums

  type Ticker = string

  datatype Mark = Mark(shares: real, market: Option<real>, broker: Option<real>)

  type Book = map<Ticker, Mark>

  function At(b: Book, t: Ticker): Option<Mark> { if t in b then Some(b[t]) else None }

  /** Broker value less settled value; zero for an absent name, unknown when a
      side is missing. */
  function Basis(p: Option<Mark>): Option<real> {
    if p.None? then Some(0.0)
    else if p.value.broker.Some? && p.value.market.Some? then Some(p.value.broker.value - p.value.market.value)
    else None
  }

  // ---------------------------------------------------------------- specification

  /** The day-over-day move of a name's basis, when both days are known. */
  function DeltaOf(today: Book, prior: Book, t: Ticker): Option<real> {
    var now, before := Basis(At(today, t)), Basis(At(prior, t));
    if now.None? || before.None? then None else Some(now.value - before.value)
  }

  predicate Covered(today: Book, prior: Book, t: Ticker) { DeltaOf(today, prior, t).Some? }

  /** The uncovered names among those seen so far. */
  function Missed(seen: set<Ticker>, today: Book, prior: Book): set<Ticker> {
    set t | t in seen && !Covered(today, prior, t)
  }

  /** Some name of `s` is covered. */
  predicate AnyCovered(s: set<Ticker>, today: Book, prior: Book) { exists t :: t in s && Covered(today, prior, t) }

  lemma MissedPick(rest: set<Ticker>, today: Book, prior: Book, t: Ticker)
    requires t in rest
    ensures |Missed(rest, today, prior)|
         == |Missed(rest - {t}, today, prior)| + (if Covered(today, prior, t) then 0 else 1)
    ensures AnyCovered(rest, today, prior) <==> AnyCovered(rest - {t}, today, prior) || Covered(today, prior, t)
  {
    var before, after := Missed(rest, today, prior), Missed(rest - {t}, today, prior);
    assert before == after + (if Covered(today, prior, t) then {} else {t});
  }

  lemma AllMissed(today: Book, prior: Book)
    ensures Missed(today.Keys + prior.Keys, today, prior) == Uncovered(today, prior)
  {}

  function Delta(today: Book, prior: Book, t: Ticker): real {
    if Covered(today, prior, t) then DeltaOf(today, prior, t).value else 0.0
  }

  function Uncovered(today: Book, prior: Book): set<Ticker> {
    set t | t in today.Keys + prior.Keys && !Covered(today, prior, t)
  }

  ghost function CoveredTotal(today: Book, prior: Book): real {
    Sums.Sum(today.Keys + prior.Keys, (t: Ticker) => Delta(today, prior, t))
  }

  function BasisOrZero(b: Book, t: Ticker): real {
    if Basis(At(b, t)).Some? then Basis(At(b, t)).value else 0.0
  }

  ghost function BookBasis(b: Book): real { Sums.Sum(b.Keys, (t: Ticker) => BasisOrZero(b, t)) }

  function Broker(b: Book, t: Ticker): real { if t in b && b[t].broker.Some? then b[t].broker.value else 0.0 }
  function Market(b: Book, t: Ticker): real { if t in b && b[t].market.Some? then b[t].market.value else 0.0 }

  ghost function BrokerTotal(b: Book): real { Sums.Sum(b.Keys, (t: Ticker) => Broker(b, t)) }
  ghost function MarketTotal(b: Book): real { Sums.Sum(b.Keys, (t: Ticker) => Market(b, t)) }

  // ---------------------------------------------------------------- telescoping

  /** With no name uncovered the per-name deltas telescope to the change in
      the book's basis. */
  lemma Telescopes(today: Book, prior: Book)
    requires Uncovered(today, prior) == {}
    ensures CoveredTotal(today, prior) == BookBasis(today) - BookBasis(prior)
  {
    var all := today.Keys + prior.Keys;
    var f := (t: Ticker) => BasisOrZero(today, t);
    var g := (t: Ticker) => BasisOrZero(prior, t);
    var h := (t: Ticker) => Delta(today, prior, t);
    forall t | t in all ensures h(t) == f(t) - g(t) { assert t !in Uncovered(today, prior); }
    Sums.Minus(all, f, g, h);
    Sums.Restrict(today.Keys, all, f);
    Sums.Restrict(prior.Keys, all, g);
  }

  ghost predicate FullyMarked(b: Book) {
    forall t :: t in b ==> b[t].broker.Some? && b[t].market.Some?
  }

  lemma BasisIsBrokerLessMarket(b: Book)
    requires FullyMarked(b)
    ensures BookBasis(b) == BrokerTotal(b) - MarketTotal(b)
  {
    Sums.Minus(b.Keys, (t: Ticker) => Broker(b, t), (t: Ticker) => Market(b, t), (t: Ticker) => BasisOrZero(b, t));
  }

  datatype Account = Account(nav: real, cash: real, accrued: real)

  /** The NAV-level basis: broker NAV less the settled rebuild. */
  ghost function NavBasis(a: Account, b: Book): real { a.nav - (a.cash + a.accrued + MarketTotal(b)) }

  /** What the broker's NAV holds beyond cash, accruals and its own marks. */
  ghost function Remainder(a: Account, b: Book): real { a.nav - a.cash - a.accrued - BrokerTotal(b) }

  /** The NAV-level term less the per-name total is exactly the day-over-day
      change of NAV less cash, accruals and broker marks. */
  lemma NavTermLessNames(a: Account, b: Book, a0: Account, b0: Book)
    requires FullyMarked(b) && FullyMarked(b0)
    ensures (NavBasis(a, b) - NavBasis(a0, b0)) - CoveredTotal(b, b0) == Remainder(a, b) - Remainder(a0, b0)
  {
    assert Uncovered(b, b0) == {};
    Telescopes(b, b0);
    BasisIsBrokerLessMarket(b);
    BasisIsBrokerLessMarket(b0);
  }

  // ---------------------------------------------------------------- off-close marks

  const FLOOR: real := 0.10

  function Abs(x: real): real { if x >= 0.0 then x else 0.0 - x }

  /** |broker - settled| as a percentage of the settled value. */
  function OffClose(p: Option<Mark>): Option<real> {
    if p.None? || p.value.shares == 0.0 || p.value.broker.None? || p.value.market.None? || p.value.market.value == 0.0
    then None
    else Some(Abs((p.value.broker.value - p.value.market.value) / p.value.market.value) * 100.0)
  }

  predicate IsOff(p: Option<Mark>) { OffClose(p).Some? && OffClose(p).value >= FLOOR }

  /** A mark is off its close when it misses it by a tenth of a percent or more. */
  lemma OffByATenthOfAPercent(p: Mark, broker: real, market: real)
    requires p.shares != 0.0 && p.broker == Some(broker) && p.market == Some(market) && market != 0.0
    ensures IsOff(Some(p)) <==> 1000.0 * Abs(broker - market) >= Abs(market)
  {
    ShareOf(broker - market, market);
  }

  lemma ShareOf(x: real, y: real)
    requires y != 0.0
    ensures Abs(x / y) * 100.0 >= 0.10 <==> 1000.0 * Abs(x) >= Abs(y)
  {
    var q := x / y;
    assert Part(q, y) == x;
    AbsOfProduct(q, y);
    assert Abs(x) == Abs(q) * Abs(y);
    Compare(Abs(q), Abs(y), Abs(x));
  }

  lemma AbsOfProduct(q: real, y: real)
    ensures Abs(q * y) == Abs(q) * Abs(y)
  {}

  lemma Compare(q: real, y: real, x: real)
    requires y > 0.0 && x == q * y
    ensures q * 100.0 >= 0.10 <==> 1000.0 * x >= y
  {
    assert (1000.0 * q - 1.0) * y == 1000.0 * x - y;
    if 1000.0 * q >= 1.0 { SignOf(1000.0 * q - 1.0, y); } else { SignOf(1.0 - 1000.0 * q, y); }
  }

  lemma SignOf(a: real, b: real)
    requires a >= 0.0 && b > 0.0
    ensures a * b >= 0.0 && (a > 0.0 ==> a * b > 0.0)
  {}

  function ExplainedPart(today: Book, prior: Book, t: Ticker): real {
    if IsOff(At(today, t)) || IsOff(At(prior, t)) then Delta(today, prior, t) else 0.0
  }

  ghost function ExplainedTotal(today: Book, prior: Book): real {
    Sums.Sum(today.Keys + prior.Keys, (t: Ticker) => ExplainedPart(today, prior, t))
  }

  /** A present mark can be compared with its close. */
  predicate Measurable(p: Option<Mark>) {
    p.Some? && p.value.broker.Some? && p.value.market.Some? ==> p.value.shares != 0.0 && p.value.market.value != 0.0
  }

  function Tolerance(p: Option<Mark>): real {
    if p.Some? && p.value.market.Some? then Abs(p.value.market.value) / 1000.0 else 0.0
  }

  lemma ToleranceIsATenthOfAPercent(p: Mark, market: real)
    requires p.market == Some(market)
    ensures 1000.0 * Tolerance(Some(p)) == Abs(market) && (market >= 0.0 ==> Abs(market) == market)
  {}

  lemma QuotientBound(x: real, y: real)
    requires y != 0.0 && Abs(x / y) * 100.0 < FLOOR
    ensures Abs(x) <= Abs(y) / 1000.0
  {
    var q := x / y;
    assert Part(q, y) == x;
    ProductBound(q, y);
  }

  function Part(q: real, y: real): real { q * y }

  lemma PartBound(q: real, y: real)
    requires -0.001 <= q <= 0.001 && y >= 0.0
    ensures 0.0 - y / 1000.0 <= Part(q, y) <= y / 1000.0
  {
    PartPlus(q, 0.001, y);
    PartPlus(0.001 - q, q, y);
    NonNegativePart(q + 0.001, y);
    NonNegativePart(0.001 - q, y);
    assert Part(0.001, y) == y / 1000.0;
    hide Part;
    assert (0.001 - q) + q == 0.001;
  }

  lemma PartPlus(q: real, c: real, y: real)
    ensures Part(q + c, y) == Part(q, y) + Part(c, y)
  {}

  lemma NonNegativePart(q: real, y: real)
    requires q >= 0.0 && y >= 0.0
    ensures Part(q, y) >= 0.0
  {}

  lemma Flip(q: real, y: real)
    ensures Part(q, y) == 0.0 - Part(q, 0.0 - y)
  {}

  lemma ProductBound(q: real, y: real)
    requires Abs(q) < 0.001
    ensures Abs(Part(q, y)) <= Abs(y) / 1000.0
  {
    Flip(q, y);
    if y >= 0.0 { PartBound(q, y); } else { PartBound(q, 0.0 - y); }
    hide Part;
  }

  lemma SmallBasis(p: Option<Mark>)
    requires Measurable(p) && !IsOff(p) && Basis(p).Some?
    ensures 0.0 - Tolerance(p) <= Basis(p).value <= Tolerance(p)
  {
    if p.Some? {
      QuotientBound(p.value.broker.value - p.value.market.value, p.value.market.value);
    }
  }

  function UnexplainedTolerance(today: Book, prior: Book, t: Ticker): real {
    if IsOff(At(today, t)) || IsOff(At(prior, t)) || !Covered(today, prior, t) then 0.0
    else Tolerance(At(today, t)) + Tolerance(At(prior, t))
  }

  /** What the off-close names leave unexplained is at most a tenth of a
      percent of the market value of the other names, both days together. */
  lemma UnexplainedIsSmall(today: Book, prior: Book)
    requires forall t :: t in today.Keys + prior.Keys ==> Measurable(At(today, t)) && Measurable(At(prior, t))
    ensures Abs(CoveredTotal(today, prior) - ExplainedTotal(today, prior))
         <= Sums.Sum(today.Keys + prior.Keys, (t: Ticker) => UnexplainedTolerance(today, prior, t))
  {
    var all := today.Keys + prior.Keys;
    var f := (t: Ticker) => Delta(today, prior, t);
    var g := (t: Ticker) => ExplainedPart(today, prior, t);
    var h := (t: Ticker) => f(t) - g(t);
    var b := (t: Ticker) => UnexplainedTolerance(today, prior, t);
    Sums.Minus(all, f, g, h);
    forall t | t in all ensures 0.0 - b(t) <= h(t) <= b(t) {
      if !IsOff(At(today, t)) && !IsOff(At(prior, t)) && Covered(today, prior, t) {
        SmallBasis(At(today, t));
        SmallBasis(At(prior, t));
      }
    }
    Sums.Bounded(all, h, b);
  }

  // ---------------------------------------------------------------- the two programs

  /** What the report's map holds while the names in `rest` are still to do. */
  ghost predicate Decomposed(rest: set<Ticker>, today: Book, prior: Book, byTicker: map<Ticker, real>, uncovered: nat) {
    && (forall t :: t in byTicker ==> t in today.Keys + prior.Keys && t !in rest)
    && (forall t :: t in today.Keys + prior.Keys && t !in rest ==>
          if t in byTicker then byTicker[t] == Delta(today, prior, t) != 0.0 else Delta(today, prior, t) == 0.0)
    && uncovered + |Missed(rest, today, prior)| == |Uncovered(today, prior)|
  }

  lemma DecomposedStep(rest: set<Ticker>, today: Book, prior: Book, byTicker: map<Ticker, real>, uncovered: nat, t: Ticker)
    requires t in rest && t in today.Keys + prior.Keys && Decomposed(rest, today, prior, byTicker, uncovered)
    ensures var delta := DeltaOf(today, prior, t);
      Decomposed(rest - {t}, today, prior,
                 if delta.Some? && delta.value != 0.0 then byTicker[t := delta.value] else byTicker,
                 if delta.None? then uncovered + 1 else uncovered)
  {
    MissedPick(rest, today, prior, t);
    hide Missed, DeltaOf, Uncovered;
  }

  /** The report's decomposition: a map of the non-zero deltas, and how many
      names were skipped. */
  method PricingTimingByTicker(today: Book, prior: Book) returns (byTicker: map<Ticker, real>, uncovered: nat)
    ensures forall t :: t in byTicker <==> t in today.Keys + prior.Keys && Delta(today, prior, t) != 0.0
    ensures forall t :: t in byTicker ==> byTicker[t] == Delta(today, prior, t)
    ensures uncovered == |Uncovered(today, prior)|
    ensures Sums.Sum(byTicker.Keys, (t: Ticker) => Delta(today, prior, t)) == CoveredTotal(today, prior)
  {
    byTicker, uncovered := map[], 0;
    var all := today.Keys + prior.Keys;
    var rest := all;
    AllMissed(today, prior);
    assert Decomposed(rest, today, prior, byTicker, uncovered);
    hide Decomposed, DeltaOf, Uncovered, CoveredTotal, Delta;
    while rest != {}
      invariant rest <= all
      invariant Decomposed(rest, today, prior, byTicker, uncovered)
    {
      var t :| t in rest;
      DecomposedStep(rest, today, prior, byTicker, uncovered, t);
      var delta := DeltaOf(today, prior, t);
      if delta.None? {
        uncovered := uncovered + 1;
      } else if delta.value != 0.0 {
        byTicker := byTicker[t := delta.value];
      }
      rest := rest - {t};
    }
    DecomposedTotals(today, prior, byTicker, uncovered);
  }

  lemma DecomposedTotals(today: Book, prior: Book, byTicker: map<Ticker, real>, uncovered: nat)
    requires Decomposed({}, today, prior, byTicker, uncovered)
    ensures forall t :: t in byTicker <==> t in today.Keys + prior.Keys && Delta(today, prior, t) != 0.0
    ensures forall t :: t in byTicker ==> byTicker[t] == Delta(today, prior, t)
    ensures uncovered == |Uncovered(today, prior)|
    ensures Sums.Sum(byTicker.Keys, (t: Ticker) => Delta(today, prior, t)) == CoveredTotal(today, prior)
  {
    Sums.Restrict(byTicker.Keys, today.Keys + prior.Keys, (t: Ticker) => Delta(today, prior, t));
  }

  datatype Attribution = Attribution(explained: Option<real>, covered: real, uncovered: nat)

  /** The running sums while the names in `rest` are still to do. */
  ghost predicate Attributed(rest: set<Ticker>, today: Book, prior: Book, explained: real, covered: real, uncovered: nat, any: bool) {
    && covered + Sums.Sum(rest, (t: Ticker) => Delta(today, prior, t)) == CoveredTotal(today, prior)
    && explained + Sums.Sum(rest, (t: Ticker) => ExplainedPart(today, prior, t)) == ExplainedTotal(today, prior)
    && uncovered + |Missed(rest, today, prior)| == |Uncovered(today, prior)|
    && (any || AnyCovered(rest, today, prior) <==> AnyCovered(today.Keys + prior.Keys, today, prior))
  }

  lemma AttributedStep(rest: set<Ticker>, today: Book, prior: Book, explained: real, covered: real, uncovered: nat, any: bool, t: Ticker)
    requires t in rest && Attributed(rest, today, prior, explained, covered, uncovered, any)
    ensures var delta := DeltaOf(today, prior, t);
      Attributed(rest - {t}, today, prior,
                 explained + (if delta.Some? && (IsOff(At(today, t)) || IsOff(At(prior, t))) then delta.value else 0.0),
                 covered + (if delta.Some? then delta.value else 0.0),
                 if delta.None? then uncovered + 1 else uncovered,
                 any || delta.Some?)
  {
    MissedPick(rest, today, prior, t);
    Sums.Pick(rest, (t: Ticker) => Delta(today, prior, t), t);
    Sums.Pick(rest, (t: Ticker) => ExplainedPart(today, prior, t), t);
    hide Missed, DeltaOf, IsOff, Uncovered, AnyCovered, CoveredTotal, ExplainedTotal;
  }

  /** The reconciliation's attribution: running sums over the same names. */
  method AttributeMarkBasis(today: Book, prior: Book) returns (a: Attribution)
    ensures a.covered == CoveredTotal(today, prior)
    ensures a.uncovered == |Uncovered(today, prior)|
    ensures a.explained.Some? <==> AnyCovered(today.Keys + prior.Keys, today, prior)
    ensures a.explained.Some? ==> a.explained.value == ExplainedTotal(today, prior)
  {
    var explained, covered, uncovered, any := 0.0, 0.0, 0, false;
    var all := today.Keys + prior.Keys;
    var rest := all;
    AllMissed(today, prior);
    assert Attributed(rest, today, prior, explained, covered, uncovered, any);
    hide Attributed, DeltaOf, IsOff, Uncovered, CoveredTotal, ExplainedTotal, AnyCovered;
    while rest != {}
      invariant rest <= all
      invariant Attributed(rest, today, prior, explained, covered, uncovered, any)
    {
      var t :| t in rest;
      AttributedStep(rest, today, prior, explained, covered, uncovered, any, t);
      var delta := DeltaOf(today, prior, t);
      if delta.None? {
        uncovered := uncovered + 1;
      } else {
        any := true;
        if delta.value != 0.0 {
          covered := covered + delta.value;
          if IsOff(At(today, t)) || IsOff(At(prior, t)) { explained := explained + delta.value; }
        }
      }
      rest := rest - {t};
    }
    AttributedTotals(today, prior, explained, covered, uncovered, any);
    a := Attribution(if any then Some(explained) else None, covered, uncovered);
  }

  lemma AttributedTotals(today: Book, prior: Book, explained: real, covered: real, uncovered: nat, any: bool)
    requires Attributed({}, today, prior, explained, covered, uncovered, any)
    ensures covered == CoveredTotal(today, prior) && explained == ExplainedTotal(today, prior)
    ensures uncovered == |Uncovered(today, prior)|
    ensures any <==> AnyCovered(today.Keys + prior.Keys, today, prior)
  {
    assert Missed({}, today, prior) == {};
  }
}
