/**
 The end-of-day reconciliation of a whole book: NAV on either basis, the
 waterfall that splits its change into sleeves, and the conservation law the
 residual obeys.
 */
module EodReconcile {
  import opened Options
  import opened Money
  import opened EodFills
  import opened EodNames
  import Sums

  datatype Basis = IbNetLiq | SettledClose

  /** The previous end-of-day row.  `nav` is its headline; `navIb` its broker
      figure where one was persisted. */
  datatype PriorRow = PriorRow(nav: real, navIb: Option<real>, cash: real, accrued: Option<real>,
                               positions: map<Ticker, Prior>)

  /** Everything one run reads.  `lastAccrued` is the last accrual on record;
      `ibDividends` what the broker's own accrual feed credited to positions. */
  datatype Day = Day(prior: PriorRow, today: map<Ticker, Held>, closes: map<Ticker, real>,
                     before: map<Ticker, Close>, expected: int, trades: seq<Trade>,
                     navIb: real, cash: Option<real>, accrued: Option<real>, lastAccrued: Option<real>,
                     ibDividends: real, accruedDividends: real, releasedDividends: real)

  function Lookup<V>(m: map<Ticker, V>, t: Ticker): Option<V> { if t in m then Some(m[t]) else None }

  function NameOf(d: Day, t: Ticker): NameDay {
    NameDay(Lookup(d.prior.positions, t), Lookup(d.today, t), Lookup(d.closes, t), Lookup(d.before, t),
            d.expected, Vwap(d.trades, Buying, t), Vwap(d.trades, Selling, t))
  }

  function FillsOf(d: Day, t: Ticker): Fills {
    Fills(Traded(d.trades, Buying, t), Notional(d.trades, Buying, t),
          Traded(d.trades, Selling, t), Notional(d.trades, Selling, t))
  }

  function AllNames(d: Day): set<Ticker> { d.prior.positions.Keys + d.today.Keys + Names(d.trades) }

  // ---------------------------------------------------------------- summands

  function DailyAt(d: Day): Ticker -> real { (t: Ticker) => Daily(NameOf(d, t)) }
  function RotationAt(d: Day): Ticker -> real { (t: Ticker) => Rotation(NameOf(d, t)) }
  function SettledTodayAt(d: Day): Ticker -> real { (t: Ticker) => SettledToday(Lookup(d.today, t), Lookup(d.closes, t)) }
  function SettledPriorAt(d: Day): Ticker -> real { (t: Ticker) => SettledPrior(Lookup(d.prior.positions, t)) }
  function CashAt(d: Day): Ticker -> real { (t: Ticker) => NameCash(d.trades, t) }
  function LeakAt(d: Day): Ticker -> real { (t: Ticker) => Leak(NameOf(d, t), NameCash(d.trades, t)) }
  function UnexplainedAt(d: Day): Ticker -> real { (t: Ticker) => Unexplained(NameOf(d, t), FillsOf(d, t)) }

  // ---------------------------------------------------------------- NAV on either basis

  /** The settled value before the override reaches the positions: a name
      without a close falls back to the broker's value, and is reported. */
  function FirstPass(h: Held, close: Option<real>): real {
    if h.shares == 0.0 then 0.0 else if close.None? then h.marketValue else Worth(h.shares, close.value)
  }

  function FirstPassAt(d: Day): Ticker -> real {
    (t: Ticker) => if t in d.today then FirstPass(d.today[t], Lookup(d.closes, t)) else 0.0
  }

  function Unpriced(d: Day): set<Ticker> { set t | t in d.today && d.today[t].shares != 0.0 && t !in d.closes }

  method SettledPositionValue(d: Day) returns (value: real, fallback: set<Ticker>)
    ensures value == Sums.Sum(d.today.Keys, FirstPassAt(d))
    ensures fallback == Unpriced(d)
    ensures forall t :: t in fallback <==> t in d.today && d.today[t].shares != 0.0 && t !in d.closes
  {
    value, fallback := 0.0, {};
    var rest := d.today.Keys;
    hide FirstPass;
    while rest != {}
      invariant rest <= d.today.Keys
      invariant value + Sums.Sum(rest, FirstPassAt(d)) == Sums.Sum(d.today.Keys, FirstPassAt(d))
      invariant fallback == set t | t in d.today && t !in rest && d.today[t].shares != 0.0 && t !in d.closes
    {
      var t :| t in rest;
      var h := d.today[t];
      Sums.Pick(rest, FirstPassAt(d), t);
      FirstPassCases(h, Lookup(d.closes, t));
      if h.shares != 0.0 {
        if t in d.closes {
          value := value + Worth(h.shares, d.closes[t]);
        } else {
          fallback := fallback + {t};
          value := value + h.marketValue;
        }
      }
      rest := rest - {t};
    }
  }

  lemma FirstPassCases(h: Held, close: Option<real>)
    ensures h.shares == 0.0 ==> FirstPass(h, close) == 0.0
    ensures h.shares != 0.0 && close.None? ==> FirstPass(h, close) == h.marketValue
    ensures h.shares != 0.0 && close.Some? ==> FirstPass(h, close) == Worth(h.shares, close.value)
  {}

  /** Broker value left on positions with no shares and no close. */
  function Stray(d: Day): Ticker -> real {
    (t: Ticker) => if t in d.today && d.today[t].shares == 0.0 && t !in d.closes then d.today[t].marketValue else 0.0
  }

  /** The first pass and the value after the override differ only by strays. */
  lemma TwoSettledValues(d: Day)
    ensures Sums.Sum(d.today.Keys, SettledTodayAt(d))
         == Sums.Sum(d.today.Keys, FirstPassAt(d)) + Sums.Sum(d.today.Keys, Stray(d))
  {
    forall t | t in d.today ensures SettledTodayAt(d)(t) == FirstPassAt(d)(t) + Stray(d)(t) {
      if t in d.closes { NoShares(d.closes[t]); }
    }
    Sums.Plus(d.today.Keys, FirstPassAt(d), Stray(d), SettledTodayAt(d));
  }

  function Or0(x: Option<real>): real { if x.Some? then x.value else 0.0 }

  ghost function SettledNav(d: Day): real
    requires d.cash.Some?
  {
    d.cash.value + Or0(d.accrued) + Sums.Sum(d.today.Keys, FirstPassAt(d))
  }

  /** Refused on the settled basis without a cash leg, or with an unpriced name. */
  ghost predicate Published(d: Day, basis: Basis) {
    basis.SettledClose? ==> d.cash.Some? && Unpriced(d) == {}
  }

  ghost function Headline(d: Day, basis: Basis): real
    requires Published(d, basis)
  {
    if basis.IbNetLiq? then d.navIb else SettledNav(d)
  }

  // ---------------------------------------------------------------- the waterfall

  datatype Waterfall = Waterfall(navChange: real, positionPnl: real, interest: real, dividendTiming: real,
                                 unattributed: real, rotation: real,
                                 pricingTiming: real, available: bool, unattributedTrue: real)

  function PriorIb(d: Day): real { if d.prior.navIb.Some? then d.prior.navIb.value else d.prior.nav }

  ghost function PriorSettled(d: Day): real {
    d.prior.cash + Or0(d.prior.accrued) + Sums.Sum(d.prior.positions.Keys, SettledPriorAt(d))
  }

  ghost function SettledAfter(d: Day): real
    requires d.cash.Some?
  {
    d.cash.value + Or0(d.accrued) + Sums.Sum(d.today.Keys, SettledTodayAt(d))
  }

  ghost function MarkBasisDelta(d: Day): real
    requires d.cash.Some?
  {
    (d.navIb - SettledAfter(d)) - (PriorIb(d) - PriorSettled(d))
  }

  function Interest(d: Day): real {
    if d.accrued.Some? && d.lastAccrued.Some? then d.accrued.value - d.lastAccrued.value else 0.0
  }

  ghost function PositionPnl(d: Day): real {
    Sums.Sum(d.today.Keys, DailyAt(d)) + d.ibDividends + d.accruedDividends
  }

  ghost function RotationRealized(d: Day): real { Sums.Sum(d.prior.positions.Keys, RotationAt(d)) }

  /** The sleeves, from the four sums. */
  function Assembled(d: Day, nav: real, daily: real, rotation: real, pricing: real): Waterfall {
    var change := nav - d.prior.nav;
    var pnl := daily + d.ibDividends + d.accruedDividends;
    var timing := d.accruedDividends - d.releasedDividends;
    var gap := change - pnl - Interest(d) + timing;
    Waterfall(change, pnl, Interest(d), timing, gap, rotation, pricing, d.cash.Some?, gap - rotation - pricing)
  }

  ghost function PricingOn(d: Day, basis: Basis): real {
    if d.cash.Some? && basis.IbNetLiq? then MarkBasisDelta(d) else 0.0
  }

  ghost function Reconciled(d: Day, basis: Basis): Waterfall
    requires Published(d, basis)
  {
    Assembled(d, Headline(d, basis), Sums.Sum(d.today.Keys, DailyAt(d)), RotationRealized(d), PricingOn(d, basis))
  }

  // ---------------------------------------------------------------- the residual does not depend on the basis

  /** The residual of the settled book itself. */
  ghost function SettledResidual(d: Day): real
    requires d.cash.Some?
  {
    SettledAfter(d) - PriorSettled(d) - PositionPnl(d) - Interest(d)
    + (d.accruedDividends - d.releasedDividends) - RotationRealized(d)
  }

  /** The figure the prior headline should be for a basis. */
  ghost function PriorOn(d: Day, basis: Basis): real {
    if basis.IbNetLiq? then PriorIb(d) else PriorSettled(d)
  }

  /** On either basis the true residual is that of the settled book, shifted
      only by a prior headline struck on another basis, and by strays. */
  lemma ResidualOnBasis(d: Day, basis: Basis)
    requires Published(d, basis) && d.cash.Some?
    ensures Reconciled(d, basis).unattributedTrue
         == SettledResidual(d) - (d.prior.nav - PriorOn(d, basis))
            - (if basis.SettledClose? then Sums.Sum(d.today.Keys, Stray(d)) else 0.0)
  {
    TwoSettledValues(d);
  }

  /** The same day reconciled on both bases, each after a prior row on its own
      basis, leaves the same residual. */
  lemma ResidualIgnoresBasis(d: Day)
    requires Published(d, SettledClose)
    requires d.prior.navIb.Some? && Sums.Sum(d.today.Keys, Stray(d)) == 0.0
    ensures var ib := d.(prior := d.prior.(nav := d.prior.navIb.value));
            var settled := d.(prior := d.prior.(nav := PriorSettled(d)));
            Reconciled(ib, IbNetLiq).unattributedTrue == Reconciled(settled, SettledClose).unattributedTrue
  {
    var ib := d.(prior := d.prior.(nav := d.prior.navIb.value));
    var settled := d.(prior := d.prior.(nav := PriorSettled(d)));
    SameSums(d, ib);
    SameSums(d, settled);
    hide PositionPnl, RotationRealized, PriorSettled, Unpriced, Reconciled;
    ResidualOnBasis(ib, IbNetLiq);
    ResidualOnBasis(settled, SettledClose);
  }

  lemma SameSums(d: Day, e: Day)
    requires e == d.(prior := d.prior.(nav := e.prior.nav))
    ensures PriorSettled(e) == PriorSettled(d) && PositionPnl(e) == PositionPnl(d) && RotationRealized(e) == RotationRealized(d)
    ensures Sums.Sum(e.today.Keys, SettledTodayAt(e)) == Sums.Sum(d.today.Keys, SettledTodayAt(d))
    ensures Sums.Sum(e.today.Keys, FirstPassAt(e)) == Sums.Sum(d.today.Keys, FirstPassAt(d))
    ensures Sums.Sum(e.today.Keys, Stray(e)) == Sums.Sum(d.today.Keys, Stray(d))
  {
    hide Daily, Rotation, SettledToday, SettledPrior, FirstPass, Vwap;
    Sums.Same(d.prior.positions.Keys, SettledPriorAt(d), SettledPriorAt(e));
    Sums.Same(d.today.Keys, DailyAt(d), DailyAt(e));
    Sums.Same(d.prior.positions.Keys, RotationAt(d), RotationAt(e));
    Sums.Same(d.today.Keys, SettledTodayAt(d), SettledTodayAt(e));
    Sums.Same(d.today.Keys, FirstPassAt(d), FirstPassAt(e));
    Sums.Same(d.today.Keys, Stray(d), Stray(e));
  }

  // ---------------------------------------------------------------- conservation

  /** Cash the fills do not account for: dividends paid, fees, transfers. */
  function CashGap(d: Day): real
    requires d.cash.Some?
  {
    d.cash.value - d.prior.cash - RowCash(d.trades)
  }

  /** Accrued interest that NAV moved by and the interest line did not. */
  function InterestGap(d: Day): real {
    Or0(d.accrued) - Or0(d.prior.accrued) - Interest(d)
  }

  lemma LeaksAddUp(d: Day)
    ensures Sums.Sum(AllNames(d), LeakAt(d))
         == Sums.Sum(d.today.Keys, SettledTodayAt(d)) - Sums.Sum(d.prior.positions.Keys, SettledPriorAt(d))
            + RowCash(d.trades) - Sums.Sum(d.today.Keys, DailyAt(d)) - RotationRealized(d)
  {
    var all := AllNames(d);
    var gain := (t: Ticker) => SettledTodayAt(d)(t) - SettledPriorAt(d)(t);
    var value := (t: Ticker) => gain(t) + CashAt(d)(t);
    var less := (t: Ticker) => value(t) - DailyAt(d)(t);
    Sums.Minus(all, SettledTodayAt(d), SettledPriorAt(d), gain);
    Sums.Plus(all, gain, CashAt(d), value);
    Sums.Minus(all, value, DailyAt(d), less);
    Sums.Minus(all, less, RotationAt(d), LeakAt(d));
    Sums.Restrict(d.today.Keys, all, SettledTodayAt(d));
    Sums.Restrict(d.prior.positions.Keys, all, SettledPriorAt(d));
    Sums.Restrict(d.today.Keys, all, DailyAt(d));
    Sums.Restrict(d.prior.positions.Keys, all, RotationAt(d));
    RowCashByName(d.trades, all);
    Sums.Same(all, CashAt(d), (t: Ticker) => NameCash(d.trades, t));
  }

  /** Conservation, for every book and every set of trades: the settled
      residual is the cash and interest nobody accounts for, less dividends
      already credited, plus what each name's sleeves miss. */
  lemma Conservation(d: Day)
    requires d.cash.Some?
    ensures SettledResidual(d)
         == CashGap(d) + InterestGap(d) - d.ibDividends - d.releasedDividends + Sums.Sum(AllNames(d), LeakAt(d))
  {
    LeaksAddUp(d);
  }

  /** Share counts tie and closes are present for every name of the day. */
  ghost predicate RegularBook(d: Day) {
    forall t :: t in AllNames(d) ==> Regular(NameOf(d, t), FillsOf(d, t))
  }

  lemma FillPricesTie(d: Day, t: Ticker)
    ensures PricesTie(NameOf(d, t), FillsOf(d, t))
  {
    TradedIsNonNegative(d.trades, Buying, t);
    TradedIsNonNegative(d.trades, Selling, t);
    VwapIsExact(d.trades, Buying, t);
    VwapIsExact(d.trades, Selling, t);
    VwapIsPositive(d.trades, Buying, t);
  }

  /** For any mix of holds, adds, trims, entries, exits and round trips the
      residual is exactly: unexplained cash and interest, less dividends
      already credited, plus round trips, entry gaps and close revisions. */
  lemma ConservationOfRegularBook(d: Day)
    requires d.cash.Some? && RegularBook(d)
    ensures SettledResidual(d)
         == CashGap(d) + InterestGap(d) - d.ibDividends - d.releasedDividends + Sums.Sum(AllNames(d), UnexplainedAt(d))
  {
    Conservation(d);
    forall t | t in AllNames(d) ensures LeakAt(d)(t) == UnexplainedAt(d)(t) {
      FillPricesTie(d, t);
      CleanNameLeaks(NameOf(d, t), FillsOf(d, t));
    }
    Sums.Same(AllNames(d), LeakAt(d), UnexplainedAt(d));
  }

  /** No name is on both sides, each new name's cost is its buy price, and no
      prior close was revised. */
  predicate OneSidedName(n: NameDay) {
    && (n.buyPrice.None? || n.sellPrice.None?)
    && (n.prior.None? && n.held.Some? && n.buyPrice.Some? ==>
          EntryBaseline(n.held.value, CurrentPrice(n.held.value, n.close)) == n.buyPrice.value)
    && (n.prior.Some? && n.held.Some? ==>
          Baseline(n, n.held.value, CurrentPrice(n.held.value, n.close)) == PriorClose(n.prior))
  }

  ghost predicate OneSided(d: Day) {
    forall t :: t in AllNames(d) ==> OneSidedName(NameOf(d, t))
  }

  /** Then the residual is exactly the unexplained cash and interest less the
      dividends already credited, and vanishes exactly when those cancel. */
  lemma ResidualOfOneSidedBook(d: Day)
    requires d.cash.Some? && RegularBook(d) && OneSided(d)
    ensures SettledResidual(d) == CashGap(d) + InterestGap(d) - d.ibDividends - d.releasedDividends
    ensures SettledResidual(d) == 0.0 <==> CashGap(d) + InterestGap(d) == d.ibDividends + d.releasedDividends
  {
    forall t | t in AllNames(d) ensures UnexplainedAt(d)(t) == 0.0 {
      assert OneSidedName(NameOf(d, t));
      NothingUnexplained(NameOf(d, t), FillsOf(d, t));
    }
    Sums.Zero(AllNames(d), UnexplainedAt(d));
    hide RegularBook, OneSided;
    ConservationOfRegularBook(d);
  }

  lemma NothingUnexplained(n: NameDay, f: Fills)
    requires OneSidedName(n)
    ensures Unexplained(n, f) == 0.0
  {
    if n.prior.Some? && n.held.Some? { NoRevision(n); }
    if n.prior.None? && n.held.Some? && n.buyPrice.Some? {
      PriceMove(n.held.value.shares, n.buyPrice.value, n.buyPrice.value);
    }
  }

  /** When interest enters only as accrual and the only cash movements are the
      fills and the dividends released, the true residual is zero on a
      same-basis prior row, whichever basis the day is published on. */
  lemma NothingUnattributed(d: Day, basis: Basis)
    requires Published(d, basis) && d.cash.Some? && RegularBook(d) && OneSided(d)
    requires d.prior.nav == PriorOn(d, basis) && Sums.Sum(d.today.Keys, Stray(d)) == 0.0
    requires d.accrued.Some? && d.lastAccrued == d.prior.accrued && d.lastAccrued.Some?
    requires CashGap(d) == d.ibDividends + d.releasedDividends
    ensures Reconciled(d, basis).unattributedTrue == 0.0
  {
    ResidualOfOneSidedBook(d);
    ResidualOnBasis(d, basis);
  }

  /** What the conservation law says the true residual of a regular book is. */
  ghost function ExpectedResidual(d: Day, basis: Basis): real
    requires d.cash.Some?
  {
    CashGap(d) + InterestGap(d) - d.ibDividends - d.releasedDividends + Sums.Sum(AllNames(d), UnexplainedAt(d))
    - (d.prior.nav - PriorOn(d, basis)) - (if basis.SettledClose? then Sums.Sum(d.today.Keys, Stray(d)) else 0.0)
  }

  // ---------------------------------------------------------------- a worked day

  /** Ten shares of one name at 100 and 1000 in cash; four sold at 110, the rest
      worth 120 at the close and marked a dollar over it in all; interest 5; a
      dividend of 2 from the broker's feed, 3 accrued and 1 released. */
  function WorkedDay(): Day {
    Day(PriorRow(2000.0, Some(2000.0), 1000.0, Some(0.0), map["AAPL" := Prior(10.0, 1000.0, Some(100.0))]),
        map["AAPL" := Held(6.0, 721.0, Some(90.0))], map["AAPL" := 120.0], map["AAPL" := Close(100.0, Some(1))], 1,
        [Trade("AAPL", "EXIT", 4.0, Some(110.0), None, Some(111.0))],
        2166.0, Some(1440.0), Some(5.0), Some(0.0), 2.0, 3.0, 1.0)
  }

  /** NAV moves 166: 120 on the shares kept and 5 of dividends, 40 realised on those
      sold, 5 of interest, 1 on the marks; the dividends leave a timing of 2 and the
      3 that never reached NAV. */
  lemma WorkedDayReconciles()
    ensures Reconciled(WorkedDay(), IbNetLiq) == Waterfall(166.0, 125.0, 5.0, 2.0, 38.0, 40.0, 1.0, true, -3.0)
  {
    var d := WorkedDay();
    WorkedName();
    OneName(d.today.Keys, DailyAt(d));
    OneName(d.prior.positions.Keys, RotationAt(d));
    OneName(d.today.Keys, SettledTodayAt(d));
    OneName(d.prior.positions.Keys, SettledPriorAt(d));
    hide Daily, Rotation, SettledToday, SettledPrior, Vwap;
  }

  lemma OneName(s: set<Ticker>, f: Ticker -> real)
    requires s == {"AAPL"}
    ensures Sums.Sum(s, f) == f("AAPL")
  {
    Sums.Pick(s, f, "AAPL");
    assert s - {"AAPL"} == {};
  }

  lemma WorkedName()
    ensures var d := WorkedDay();
      && DailyAt(d)("AAPL") == 120.0 && RotationAt(d)("AAPL") == 40.0
      && SettledTodayAt(d)("AAPL") == 720.0 && SettledPriorAt(d)("AAPL") == 1000.0
  {
    var d := WorkedDay();
    var n := NameOf(d, "AAPL");
    OneFilledExit(d.trades[0]);
    assert d.trades == [d.trades[0]];
    assert n.sellPrice == Some(110.0) && n.buyPrice == None;
    RotatedOut(n, d.prior.positions["AAPL"], 100.0);
  }

  // ---------------------------------------------------------------- the program

  datatype Position = Position(shares: real, marketValue: real, closing: real, daily: Return)

  datatype Report = Refused | Report(nav: real, positions: map<Ticker, Position>, waterfall: Waterfall)

  /** A position once the settled close and its daily return are written on it. */
  function PricedAt(d: Day, t: Ticker): Position
    requires t in d.today
  {
    var h, close := d.today[t], Lookup(d.closes, t);
    Position(h.shares, SettledToday(Some(h), close), CurrentPrice(h, close), DailyReturn(NameOf(d, t), h, CurrentPrice(h, close)))
  }

  /** Prices every position at its settled close and adds up the daily returns. */
  method PricePositions(d: Day, buys: map<Ticker, real>, sells: map<Ticker, real>)
    returns (positions: map<Ticker, Position>, daily: real, settled: real)
    requires forall t: Ticker :: Lookup(buys, t) == Vwap(d.trades, Buying, t)
    requires forall t: Ticker :: Lookup(sells, t) == Vwap(d.trades, Selling, t)
    ensures daily == Sums.Sum(d.today.Keys, DailyAt(d)) && settled == Sums.Sum(d.today.Keys, SettledTodayAt(d))
    ensures positions.Keys == d.today.Keys
    ensures forall t :: t in positions ==> positions[t] == PricedAt(d, t)
  {
    positions, daily, settled := map[], 0.0, 0.0;
    var rest := d.today.Keys;
    hide DailyReturn, Vwap, CurrentPrice, Worth;
    while rest != {}
      invariant rest <= d.today.Keys && positions.Keys == d.today.Keys - rest
      invariant daily + Sums.Sum(rest, DailyAt(d)) == Sums.Sum(d.today.Keys, DailyAt(d))
      invariant settled + Sums.Sum(rest, SettledTodayAt(d)) == Sums.Sum(d.today.Keys, SettledTodayAt(d))
      invariant forall t :: t in positions ==> positions[t] == PricedAt(d, t)
    {
      var t :| t in rest;
      var h := d.today[t];
      Sums.Pick(rest, DailyAt(d), t);
      Sums.Pick(rest, SettledTodayAt(d), t);
      var current := CurrentPrice(h, Lookup(d.closes, t));
      var value := if t in d.closes then Worth(h.shares, d.closes[t]) else h.marketValue;
      var n := NameDay(Lookup(d.prior.positions, t), Some(h), Lookup(d.closes, t), Lookup(d.before, t), d.expected,
                       Lookup(buys, t), Lookup(sells, t));
      var r := DailyReturn(n, h, current);
      positions := positions[t := Position(h.shares, value, current, r)];
      daily, settled := daily + r.usd, settled + value;
      rest := rest - {t};
    }
  }

  /** Realised dollars on shares rotated out. */
  method RotationRealizedNow(d: Day, sells: map<Ticker, real>) returns (realized: real)
    requires forall t: Ticker :: Lookup(sells, t) == Vwap(d.trades, Selling, t)
    ensures realized == RotationRealized(d)
  {
    realized := 0.0;
    var rest := d.prior.positions.Keys;
    hide Vwap, Worth;
    while rest != {}
      invariant rest <= d.prior.positions.Keys
      invariant realized + Sums.Sum(rest, RotationAt(d)) == RotationRealized(d)
    {
      var t :| t in rest;
      Sums.Pick(rest, RotationAt(d), t);
      var prior := Some(d.prior.positions[t]);
      var sold := PriorShares(prior) - HeldShares(Lookup(d.today, t));
      if sold > 0.0 {
        var exit := if t in sells then sells[t] else PriorClose(prior);
        assert Lookup(sells, t) == Vwap(d.trades, Selling, t);
        realized := realized + Worth(sold, exit - PriorClose(prior));
      }
      rest := rest - {t};
    }
  }

  method PriorSettledValue(d: Day) returns (value: real)
    ensures value == Sums.Sum(d.prior.positions.Keys, SettledPriorAt(d))
  {
    value := 0.0;
    var rest := d.prior.positions.Keys;
    hide Worth;
    while rest != {}
      invariant rest <= d.prior.positions.Keys
      invariant value + Sums.Sum(rest, SettledPriorAt(d)) == Sums.Sum(d.prior.positions.Keys, SettledPriorAt(d))
    {
      var t :| t in rest;
      Sums.Pick(rest, SettledPriorAt(d), t);
      var p := d.prior.positions[t];
      value := value + (if p.closing.Some? then Worth(p.shares, p.closing.value) else p.marketValue);
      rest := rest - {t};
    }
  }

  /** The run.  Refused exactly when the settled basis cannot be struck;
      otherwise the waterfall is the specified one, and on a regular book its
      true residual obeys the conservation law. */
  method Reconcile(d: Day, basis: Basis) returns (r: Report)
    ensures r.Refused? <==> !Published(d, basis)
    ensures r.Report? ==> r.nav == Headline(d, basis) && r.waterfall == Reconciled(d, basis)
    ensures r.Report? ==> r.positions.Keys == d.today.Keys && forall t :: t in r.positions ==> r.positions[t] == PricedAt(d, t)
    ensures r.Report? && d.cash.Some? && RegularBook(d) ==> r.waterfall.unattributedTrue == ExpectedResidual(d, basis)
  {
    hide Assembled, RegularBook, ExpectedResidual, RotationRealized, PricingOn, Headline, Vwap, Published, PricedAt;
    var nav, struck := StrikeNav(d, basis);
    if !struck { return Refused; }
    var buys := WeightedPrices(d.trades, Buying);
    var sells := WeightedPrices(d.trades, Selling);
    var positions, daily, settled := PricePositions(d, buys, sells);
    var pricing := PricingTiming(d, basis, settled);
    var rotation := RotationRealizedNow(d, sells);
    r := Report(nav, positions, Assembled(d, nav, daily, rotation, pricing));
    if d.cash.Some? && RegularBook(d) { ResidualOfRegularBook(d, basis); }
  }

  method StrikeNav(d: Day, basis: Basis) returns (nav: real, struck: bool)
    ensures struck <==> Published(d, basis)
    ensures struck ==> nav == Headline(d, basis)
  {
    var firstPass, fallback := SettledPositionValue(d);
    if basis.IbNetLiq? { return d.navIb, true; }
    if d.cash.None? || fallback != {} { return 0.0, false; }
    return d.cash.value + Or0(d.accrued) + firstPass, true;
  }

  /** The mark-basis sleeve inside the NAV series being attributed. */
  method PricingTiming(d: Day, basis: Basis, settled: real) returns (pricing: real)
    requires settled == Sums.Sum(d.today.Keys, SettledTodayAt(d))
    ensures pricing == PricingOn(d, basis)
  {
    if d.cash.None? || basis.SettledClose? { return 0.0; }
    var priorValue := PriorSettledValue(d);
    var basisToday := d.navIb - (d.cash.value + Or0(d.accrued) + settled);
    var basisPrior := PriorIb(d) - (d.prior.cash + Or0(d.prior.accrued) + priorValue);
    pricing := basisToday - basisPrior;
  }

  lemma ResidualOfRegularBook(d: Day, basis: Basis)
    requires Published(d, basis) && d.cash.Some? && RegularBook(d)
    ensures Reconciled(d, basis).unattributedTrue == ExpectedResidual(d, basis)
  {
    hide RegularBook, Reconciled, SettledResidual;
    ConservationOfRegularBook(d);
    ResidualOnBasis(d, basis);
  }
}
