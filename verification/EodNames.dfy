/**
 One name over one session: its daily return, its realised rotation, and the
 part of its contribution to NAV that neither of them explains.
 */
module EodNames {
  import opened Options
  import opened Money
  import opened EodFills

  /** A position as the prior reconcile persisted it. */
  datatype Prior = Prior(shares: real, marketValue: real, closing: Option<real>)

  /** A position as the broker reports it today. */
  datatype Held = Held(shares: real, marketValue: real, avgCost: Option<real>)

  /** The latest authoritative close before today, and its date. */
  datatype Close = Close(price: real, date: Option<int>)

  /** Everything the accounting reads about one name. */
  datatype NameDay = NameDay(prior: Option<Prior>, held: Option<Held>, close: Option<real>,
                             before: Option<Close>, expected: int,
                             buyPrice: Option<real>, sellPrice: Option<real>)

  function Least(a: real, b: real): real { if a <= b then a else b }
  function OrZero(a: real): real { if a > 0.0 then a else 0.0 }

  // ---------------------------------------------------------------- prices and values

  function PriorShares(p: Option<Prior>): real { if p.Some? then p.value.shares else 0.0 }

  /** The persisted close, or market value per share for older snapshots. */
  function PriorClose(p: Option<Prior>): real {
    if p.None? then 0.0
    else if p.value.closing.Some? then p.value.closing.value
    else if p.value.shares != 0.0 then p.value.marketValue / p.value.shares else 0.0
  }

  function HeldShares(h: Option<Held>): real { if h.Some? then h.value.shares else 0.0 }

  function CurrentPrice(h: Held, close: Option<real>): real {
    if close.Some? then close.value else if h.shares != 0.0 then h.marketValue / h.shares else 0.0
  }

  /** Market value after the settled-close override. */
  function SettledToday(h: Option<Held>, close: Option<real>): real {
    if h.None? then 0.0 else if close.Some? then Worth(h.value.shares, close.value) else h.value.marketValue
  }

  /** The prior day's settled value, as the reconciliation rebuilds it. */
  function SettledPrior(p: Option<Prior>): real {
    if p.None? then 0.0
    else if p.value.closing.Some? then Worth(p.value.shares, p.value.closing.value) else p.value.marketValue
  }

  lemma SettledPriorIsShares(p: Option<Prior>)
    requires p.Some? ==> p.value.shares != 0.0
    ensures SettledPrior(p) == Worth(PriorShares(p), PriorClose(p))
  {
    if p.None? { NoShares(0.0); } else if p.value.closing.None? { UnitPrice(p.value.marketValue, p.value.shares); }
  }

  // ---------------------------------------------------------------- daily return

  datatype Return = Return(percent: real, usd: real, baseline: Option<real>, stale: bool)

  /** The baseline used when no authoritative prior close exists. */
  function FallbackBaseline(p: Option<Prior>, h: Held, current: real): real {
    if p.Some? && p.value.closing.Some? then p.value.closing.value
    else if p.Some? && p.value.shares != 0.0 then p.value.marketValue / p.value.shares
    else EntryBaseline(h, current)
  }

  function EntryBaseline(h: Held, current: real): real {
    if h.avgCost.Some? then h.avgCost.value else current
  }

  /** The latest prior close is older than the previous trading day. */
  predicate Stale(n: NameDay) {
    n.prior.Some? && n.before.Some? && n.before.value.date.Some? && n.before.value.date.value < n.expected
  }

  function Baseline(n: NameDay, h: Held, current: real): real {
    if n.prior.None? then EntryBaseline(h, current)
    else if n.before.Some? && n.before.value.date == Some(n.expected) then n.before.value.price
    else FallbackBaseline(n.prior, h, current)
  }

  function Ratio(a: real, b: real): real
    requires b != 0.0
  { a / b * 100.0 }

  function DailyReturn(n: NameDay, h: Held, current: real): Return {
    if Stale(n) then Return(0.0, 0.0, None, true) else
      var base := Baseline(n, h, current);
      if base <= 0.0 then Return(0.0, 0.0, None, false) else
        var had := PriorShares(n.prior);
        var added := if had > 0.0 then OrZero(h.shares - had) else 0.0;
        var kept := if had > 0.0 then Least(had, h.shares) else 0.0;
        if n.prior.Some? && added > 0.0 && kept > 0.0 && n.buyPrice.Some? && n.buyPrice.value > 0.0 then
          var usd := Worth(kept, current - base) + Worth(added, current - n.buyPrice.value);
          var cost := Worth(kept, base) + Worth(added, n.buyPrice.value);
          Return(if cost != 0.0 then Ratio(usd, cost) else 0.0, usd, Some(base), false)
        else
          Return(Ratio(current, base) - 100.0, Worth(h.shares, current - base), Some(base), false)
  }

  /** What the shares held today would have been worth at their baselines: the
      prior close for kept shares, the buy fills for added ones. */
  function CostBasis(n: NameDay, h: Held, current: real): real {
    var base, had := Baseline(n, h, current), PriorShares(n.prior);
    if n.prior.Some? && had > 0.0 && h.shares > had && n.buyPrice.Some? && n.buyPrice.value > 0.0
    then Worth(had, base) + Worth(h.shares - had, n.buyPrice.value)
    else Worth(h.shares, base)
  }

  lemma RatioTimes(a: real, b: real)
    requires b != 0.0
    ensures Worth(Ratio(a, b), b) == Worth(100.0, a)
  {
    assert (a / b) * b == a;
  }

  lemma SharesOut(shares: real, a: real, b: real)
    requires b != 0.0
    ensures Worth(Ratio(a, b) - 100.0, Worth(shares, b)) == Worth(100.0, Worth(shares, a - b))
  {
    var q := a / b;
    assert q * b == a;
    assert (q * 100.0 - 100.0) * (shares * b) == 100.0 * (shares * (q * b - b));
  }

  /** The percentage and the dollars are the same return on the same cost. */
  lemma PercentMatchesDollars(n: NameDay, h: Held, current: real)
    requires DailyReturn(n, h, current).baseline.Some? && CostBasis(n, h, current) != 0.0
    ensures var r := DailyReturn(n, h, current);
      Worth(r.percent, CostBasis(n, h, current)) == Worth(100.0, r.usd)
  {
    var base, r := Baseline(n, h, current), DailyReturn(n, h, current);
    if n.prior.Some? && PriorShares(n.prior) > 0.0 && h.shares > PriorShares(n.prior)
       && n.buyPrice.Some? && n.buyPrice.value > 0.0 {
      assert r.percent == Ratio(r.usd, CostBasis(n, h, current));
      RatioTimes(r.usd, CostBasis(n, h, current));
    } else {
      SharesOut(h.shares, current, base);
    }
  }

  function Daily(n: NameDay): real {
    if n.held.None? then 0.0 else DailyReturn(n, n.held.value, CurrentPrice(n.held.value, n.close)).usd
  }

  /** Realised on shares rotated out: zero when the count did not fall. */
  function Rotation(n: NameDay): real {
    var sold := PriorShares(n.prior) - HeldShares(n.held);
    if n.prior.None? || sold <= 0.0 then 0.0
    else
      var exit := if n.sellPrice.Some? then n.sellPrice.value else PriorClose(n.prior);
      Worth(sold, exit - PriorClose(n.prior))
  }

  // ---------------------------------------------------------------- what is left over

  /** Value gained over the session plus the cash the name's trades produced,
      less what its daily return and its rotation account for. */
  function Leak(n: NameDay, cash: real): real {
    SettledToday(n.held, n.close) - SettledPrior(n.prior) + cash - Daily(n) - Rotation(n)
  }

  /** The day's fills of a name: shares and money on each side. */
  datatype Fills = Fills(bought: real, paid: real, sold: real, received: real)

  /** Each side's price is the weighted price of its fills. */
  predicate PricesTie(n: NameDay, f: Fills) {
    && f.bought >= 0.0 && f.sold >= 0.0
    && (if n.buyPrice.Some? then n.buyPrice.value > 0.0 && Worth(f.bought, n.buyPrice.value) == f.paid
        else f.bought == 0.0 && f.paid == 0.0)
    && (if n.sellPrice.Some? then Worth(f.sold, n.sellPrice.value) == f.received
        else f.sold == 0.0 && f.received == 0.0)
  }

  /** Share counts tie to fills, and every close the formulas read is there
      and positive. */
  predicate Regular(n: NameDay, f: Fills) {
    && HeldShares(n.held) == PriorShares(n.prior) + f.bought - f.sold
    && (n.prior.Some? ==> n.prior.value.shares > 0.0 && PriorClose(n.prior) > 0.0)
    && (n.held.Some? ==> n.held.value.shares >= 0.0 && n.close.Some?)
    && (n.held.Some? ==> Baseline(n, n.held.value, n.close.value) > 0.0)
    && !Stale(n)
  }

  predicate Clean(n: NameDay, f: Fills) { PricesTie(n, f) && Regular(n, f) }

  /** Shares both bought and sold in the session earn the sell price over the buy price. */
  function RoundTrip(n: NameDay, f: Fills): real {
    if n.buyPrice.Some? && n.sellPrice.Some?
    then Worth(Least(f.bought, f.sold), n.sellPrice.value - n.buyPrice.value) else 0.0
  }

  /** A name opened today is measured from its average cost, not its fills. */
  function EntryGap(n: NameDay): real {
    if n.prior.None? && n.held.Some? && n.buyPrice.Some?
    then Worth(n.held.value.shares, EntryBaseline(n.held.value, CurrentPrice(n.held.value, n.close)) - n.buyPrice.value)
    else 0.0
  }

  /** The daily return reads the authoritative prior close; rotation and the
      prior value read the persisted one.  A revision shows on the kept shares. */
  function RevisionGap(n: NameDay): real {
    if n.prior.Some? && n.held.Some?
    then Worth(Least(n.prior.value.shares, n.held.value.shares),
               Baseline(n, n.held.value, CurrentPrice(n.held.value, n.close)) - PriorClose(n.prior))
    else 0.0
  }

  function Unexplained(n: NameDay, f: Fills): real {
    RoundTrip(n, f) + EntryGap(n) + RevisionGap(n)
  }

  lemma NoRevision(n: NameDay)
    requires n.prior.Some? && n.held.Some? && Baseline(n, n.held.value, CurrentPrice(n.held.value, n.close)) == PriorClose(n.prior)
    ensures RevisionGap(n) == 0.0
  {
    PriceMove(Least(n.prior.value.shares, n.held.value.shares), PriorClose(n.prior), PriorClose(n.prior));
  }

  /** An add: kept shares from the prior close, added shares from their fills. */
  lemma AddLeaks(n: NameDay, f: Fills)
    requires Clean(n, f) && n.prior.Some? && n.held.Some? && n.held.value.shares > n.prior.value.shares
    ensures Leak(n, f.received - f.paid) == Unexplained(n, f)
  {
    var q0, q1 := n.prior.value.shares, n.held.value.shares;
    var p0, p1, wb := PriorClose(n.prior), n.close.value, n.buyPrice.value;
    var base := Baseline(n, n.held.value, p1);
    SettledPriorIsShares(n.prior);
    assert Daily(n) == Worth(q0, p1 - base) + Worth(q1 - q0, p1 - wb);
    assert Rotation(n) == 0.0 && Least(f.bought, f.sold) == f.sold && q1 - q0 == f.bought - f.sold;
    assert SettledToday(n.held, n.close) == Worth(q1, p1) && SettledPrior(n.prior) == Worth(q0, p0);
    assert RevisionGap(n) == Worth(q0, base - p0);
    hide Worth, Daily, Rotation, SettledToday, SettledPrior, RevisionGap, Baseline;
    FewerShares(q1, q0, p1);
    FewerShares(f.bought, f.sold, wb);
    PriceMove(q0, p1, base);
    PriceMove(q0, base, p0);
    PriceMove(q1 - q0, p1, wb);
    if n.sellPrice.Some? { PriceMove(f.sold, n.sellPrice.value, wb); } else { NoShares(wb); }
  }

  /** A hold, a trim or a full exit. */
  lemma TrimLeaks(n: NameDay, f: Fills)
    requires Clean(n, f) && n.prior.Some? && HeldShares(n.held) <= n.prior.value.shares
    ensures Leak(n, f.received - f.paid) == Unexplained(n, f)
  {
    var q0, q1 := n.prior.value.shares, HeldShares(n.held);
    var p0, out := PriorClose(n.prior), f.sold - f.bought;
    SettledPriorIsShares(n.prior);
    assert q0 - q1 == out;
    assert SettledPrior(n.prior) == Worth(q0, p0);
    var exit := if n.sellPrice.Some? then n.sellPrice.value else p0;
    if out == 0.0 { NoShares(exit - p0); }
    assert Rotation(n) == Worth(out, exit - p0);
    assert Least(f.bought, f.sold) == f.bought;
    KeptPart(n, f);
    hide Worth, Daily, Rotation, SettledToday, SettledPrior, RevisionGap;
    FewerShares(q0, q1, p0);
    PriceMove(out, exit, p0);
    if n.sellPrice.Some? {
      FewerShares(f.sold, f.bought, exit);
      if n.buyPrice.Some? { PriceMove(f.bought, exit, n.buyPrice.value); } else { NoShares(exit); }
    } else {
      assert out == 0.0;
      NoShares(p0);
    }
  }

  /** On the shares kept, the daily return is exactly the price move. */
  lemma KeptPart(n: NameDay, f: Fills)
    requires Clean(n, f) && n.prior.Some? && HeldShares(n.held) <= n.prior.value.shares
    ensures SettledToday(n.held, n.close) - Daily(n) == Worth(HeldShares(n.held), PriorClose(n.prior)) + RevisionGap(n)
  {
    if n.held.None? {
      NoShares(PriorClose(n.prior));
    } else {
      var q1, p0, p1 := n.held.value.shares, PriorClose(n.prior), n.close.value;
      var base := Baseline(n, n.held.value, p1);
      assert Daily(n) == Worth(q1, p1 - base);
      PriceMove(q1, p1, base);
      PriceMove(q1, base, p0);
    }
  }

  /** A name opened today, or opened and closed within the session. */
  lemma NewLeaks(n: NameDay, f: Fills)
    requires Clean(n, f) && n.prior.None?
    ensures Leak(n, f.received - f.paid) == Unexplained(n, f)
  {
    var q1 := HeldShares(n.held);
    assert q1 == f.bought - f.sold && Rotation(n) == 0.0 && SettledPrior(n.prior) == 0.0;
    if n.held.Some? {
      var p1, entry := n.close.value, EntryBaseline(n.held.value, n.close.value);
      assert Daily(n) == Worth(q1, p1 - entry);
      assert SettledToday(n.held, n.close) == Worth(q1, p1);
      hide Worth, Daily, Rotation, SettledToday, SettledPrior;
      PriceMove(q1, p1, entry);
      if n.buyPrice.Some? {
        PriceMove(q1, entry, n.buyPrice.value);
      } else {
        NoShares(entry);
      }
    } else {
      NoShares(0.0);
    }
    SoldPart(n, f);
  }

  /** With no prior shares, sales beyond the day's buys are impossible. */
  lemma SoldPart(n: NameDay, f: Fills)
    requires Clean(n, f) && n.prior.None?
    ensures n.buyPrice.Some? ==>
      f.received - f.paid == RoundTrip(n, f) - Worth(HeldShares(n.held), n.buyPrice.value)
    ensures n.buyPrice.None? ==> f.received == f.paid == 0.0 == RoundTrip(n, f)
  {
    var q1 := HeldShares(n.held);
    assert Least(f.bought, f.sold) == f.sold;
    if n.buyPrice.Some? {
      var wb := n.buyPrice.value;
      hide Worth;
      FewerShares(f.bought, f.sold, wb);
      if n.sellPrice.Some? { PriceMove(f.sold, n.sellPrice.value, wb); } else { NoShares(wb); }
    } else {
      assert f.sold == 0.0;
      if n.sellPrice.Some? { NoShares(n.sellPrice.value); }
    }
  }

  /** For every name of every mix -- hold, add, trim, entry, full exit, round
      trip -- what the sleeves miss is exactly the same-day round trips, the
      gap between average cost and the day's buys, and any revision of the
      prior close. */
  lemma CleanNameLeaks(n: NameDay, f: Fills)
    requires Clean(n, f)
    ensures Leak(n, f.received - f.paid) == Unexplained(n, f)
  {
    if n.prior.None? { NewLeaks(n, f); }
    else if HeldShares(n.held) > n.prior.value.shares { AddLeaks(n, f); }
    else { TrimLeaks(n, f); }
  }

  /** A stale baseline reports nothing, and the whole price move of an
      untraded name is left over. */
  lemma StaleNameSurfaces(n: NameDay)
    requires Stale(n) && n.held.Some? && n.close.Some? && n.prior.value.shares == n.held.value.shares != 0.0
    ensures Daily(n) == 0.0 == Rotation(n)
    ensures Leak(n, 0.0) == Worth(n.held.value.shares, n.close.value - PriorClose(n.prior))
  {
    SettledPriorIsShares(n.prior);
    PriceMove(n.held.value.shares, n.close.value, PriorClose(n.prior));
  }

  // ---------------------------------------------------------------- in the row's own fields

  /** A name first held today is measured from its average cost. */
  lemma NewNameReturn(n: NameDay, h: Held, close: real)
    requires n.prior.None? && n.held == Some(h) && n.close == Some(close)
    ensures h.avgCost.Some? && h.avgCost.value > 0.0 ==> Daily(n) == Worth(h.shares, close - h.avgCost.value)
    ensures h.avgCost.None? ==> Daily(n) == 0.0
    ensures Rotation(n) == 0.0
  {
    if h.avgCost.None? { assert close - close == 0.0; }
  }

  /** A name held through at the same count: from the authoritative prior close if
      it is of the right day, else from the persisted close, else from the persisted
      value; an older authoritative close reports nothing. */
  lemma HeldNameReturn(n: NameDay, h: Held, p: Prior, close: real)
    requires n.prior == Some(p) && n.held == Some(h) && n.close == Some(close) && p.shares == h.shares > 0.0
    ensures n.before.Some? && n.before.value.date == Some(n.expected) && n.before.value.price > 0.0 ==>
      Daily(n) == Worth(h.shares, close - n.before.value.price)
    ensures n.before.Some? && n.before.value.date.Some? && n.before.value.date.value < n.expected ==> Daily(n) == 0.0
    ensures n.before.None? || n.before.value.date.None? || n.before.value.date.value > n.expected ==>
      && (p.closing.Some? && p.closing.value > 0.0 ==> Daily(n) == Worth(h.shares, close - p.closing.value))
      && (p.closing.None? && p.marketValue > 0.0 ==> Daily(n) == Worth(h.shares, close) - p.marketValue)
    ensures Rotation(n) == 0.0
  {
    if p.closing.None? && p.marketValue > 0.0 {
      UnitPrice(p.marketValue, p.shares);
      PositiveQuotient(p.marketValue, p.shares);
      PriceMove(h.shares, close, p.marketValue / p.shares);
    }
  }

  /** Shares added today are measured from their fills, the rest from the prior close. */
  lemma AddedNameReturn(n: NameDay, h: Held, p: Prior, close: real, base: real)
    requires n.prior == Some(p) && n.held == Some(h) && n.close == Some(close) && h.shares > p.shares > 0.0
    requires base > 0.0 && n.before == Some(Close(base, Some(n.expected)))
    ensures n.buyPrice.Some? && n.buyPrice.value > 0.0 ==>
      Daily(n) == Worth(p.shares, close - base) + Worth(h.shares - p.shares, close - n.buyPrice.value)
    ensures n.buyPrice.None? ==> Daily(n) == Worth(h.shares, close - base)
    ensures Rotation(n) == 0.0
  {}

  /** Shares rotated out realise the fills' price over the persisted prior close,
      and nothing without fills. */
  lemma RotatedOut(n: NameDay, p: Prior, q: real)
    requires n.prior == Some(p) && p.closing == Some(q) && p.shares > 0.0
    ensures n.held.None? && n.sellPrice.Some? ==> Rotation(n) == Worth(p.shares, n.sellPrice.value - q) && Daily(n) == 0.0
    ensures n.held.Some? && n.held.value.shares < p.shares && n.sellPrice.Some? ==>
      Rotation(n) == Worth(p.shares - n.held.value.shares, n.sellPrice.value - q)
    ensures n.sellPrice.None? ==> Rotation(n) == 0.0
  {
    if n.sellPrice.None? && n.prior.value.shares - HeldShares(n.held) > 0.0 { assert q - q == 0.0; }
  }

  /** Settled values: shares at the close, or the broker's value without one. */
  lemma SettledValues(h: Held, close: Option<real>, p: Prior)
    ensures SettledToday(Some(h), close) == if close.Some? then Worth(h.shares, close.value) else h.marketValue
    ensures SettledPrior(Some(p)) == if p.closing.Some? then Worth(p.shares, p.closing.value) else p.marketValue
    ensures h.shares != 0.0 ==> Worth(h.shares, CurrentPrice(h, None)) == h.marketValue
  {
    if h.shares != 0.0 { UnitPrice(h.marketValue, h.shares); }
  }
}
