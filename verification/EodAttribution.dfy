/**
 Attribution of a day's dollar alpha to sleeves: held positions, shares rotated
 out, cash, the pricing and timing leftover, and the unattributed residual.
 */
module EodAttribution {
  import opened Options
  import opened Money
  import EodFills
  import opened EodNames
  import EodMarkBasis
  import ExDividends
  import Sums

  type Ticker = string

  datatype Carried = Carried(shares: real, daily: real)

  /** Everything the attribution reads.  The two mark books carry the broker
      and settled values of the same names. */
  datatype Session = Session(priorNav: Option<real>, spyReturn: Option<real>, navChange: real,
                             today: map<Ticker, Carried>, prior: map<Ticker, Prior>,
                             marks: EodMarkBasis.Book, priorMarks: EodMarkBasis.Book,
                             trades: seq<EodFills.Trade>,
                             interest: real, unattributed: real, pricingTiming: real, available: bool)

  ghost predicate Valid(s: Session) {
    s.marks.Keys == s.today.Keys && s.priorMarks.Keys == s.prior.Keys
  }

  datatype Kind = PositionRow | RotationRow | CashRow | TimingRow | ResidualRow

  datatype Component = Component(name: Ticker, kind: Kind, usd: real)

  datatype Attribution = Attribution(dollarAlpha: real, components: seq<Component>, residual: real)

  function Total(cs: seq<Component>): real {
    if cs == [] then 0.0 else Total(cs[..|cs| - 1]) + cs[|cs| - 1].usd
  }

  function KindTotal(cs: seq<Component>, k: Kind): real {
    if cs == [] then 0.0 else
      KindTotal(cs[..|cs| - 1], k) + (if cs[|cs| - 1].kind == k then cs[|cs| - 1].usd else 0.0)
  }

  lemma {:induction false} TotalByKind(cs: seq<Component>)
    ensures Total(cs) == KindTotal(cs, PositionRow) + KindTotal(cs, RotationRow) + KindTotal(cs, CashRow)
                         + KindTotal(cs, TimingRow) + KindTotal(cs, ResidualRow)
  {
    if cs != [] { TotalByKind(cs[..|cs| - 1]); }
  }

  lemma KindSnoc(cs: seq<Component>, c: Component)
    ensures forall k :: KindTotal(cs + [c], k) == KindTotal(cs, k) + (if c.kind == k then c.usd else 0.0)
  {
    assert (cs + [c])[..|cs|] == cs;
  }

  // ---------------------------------------------------------------- sleeves, name by name

  function PriorAt(s: Session, t: Ticker): Option<Prior> {
    if t in s.prior then Some(s.prior[t]) else None
  }

  function TodayShares(s: Session, t: Ticker): real { if t in s.today then s.today[t].shares else 0.0 }
  function DailyUsd(s: Session, t: Ticker): real { if t in s.today then s.today[t].daily else 0.0 }

  function Spy(s: Session): real { if s.spyReturn.Some? then s.spyReturn.value / 100.0 else 0.0 }

  /** A name's slice of the pricing and timing term. */
  function Timing(s: Session, t: Ticker): real {
    if s.available then EodMarkBasis.Delta(s.marks, s.priorMarks, t) else 0.0
  }

  /** The prior capital of a held name that was carried through the day. */
  function HeldBase(s: Session, t: Ticker): real {
    Worth(Least(PriorShares(PriorAt(s, t)), TodayShares(s, t)), PriorClose(PriorAt(s, t)))
  }

  function PositionUsd(s: Session, t: Ticker): real {
    DailyUsd(s, t) - Worth(Spy(s), HeldBase(s, t)) + Timing(s, t)
  }

  function Sold(s: Session, t: Ticker): real { PriorShares(PriorAt(s, t)) - TodayShares(s, t) }

  function SoldBase(s: Session, t: Ticker): real {
    if Sold(s, t) > 0.0 then Worth(Sold(s, t), PriorClose(PriorAt(s, t))) else 0.0
  }

  function Realized(s: Session, t: Ticker): real {
    if Sold(s, t) <= 0.0 then 0.0 else
      var close := PriorClose(PriorAt(s, t));
      var vwap := EodFills.Vwap(s.trades, EodFills.Selling, t);
      Worth(Sold(s, t), (if vwap.Some? then vwap.value else close) - close)
  }

  /** The timing slice of a name that left the book entirely. */
  function ExitTiming(s: Session, t: Ticker): real {
    if Sold(s, t) > 0.0 && t !in s.today then Timing(s, t) else 0.0
  }

  function RotationUsd(s: Session, t: Ticker): real {
    if Sold(s, t) <= 0.0 then 0.0 else Realized(s, t) - Worth(Spy(s), SoldBase(s, t)) + ExitTiming(s, t)
  }

  /** The timing slice of a vanished name that had no shares to sell: no row carries it. */
  function LostTiming(s: Session, t: Ticker): real {
    if t in s.prior && t !in s.today && Sold(s, t) <= 0.0 then Timing(s, t) else 0.0
  }

  /** The benchmark's return is quoted in percent. */
  lemma SpyIsPercent(s: Session)
    ensures s.spyReturn.Some? ==> 100.0 * Spy(s) == s.spyReturn.value
    ensures s.spyReturn.None? ==> Spy(s) == 0.0
  {}

  /** A name's two sleeves in its own fields: kept shares carry the benchmark on
      their prior close, sold ones realise their fills over it, and a name that left
      the book takes its timing along. */
  lemma NameSleeves(s: Session, t: Ticker, p: Prior, close: real)
    requires t in s.prior && s.prior[t] == p && p.closing == Some(close) && p.shares > 0.0
    ensures t in s.today && s.today[t].shares >= p.shares ==>
      && PositionUsd(s, t) == s.today[t].daily - Worth(Spy(s), Worth(p.shares, close)) + Timing(s, t)
      && RotationUsd(s, t) == 0.0
    ensures t in s.today && 0.0 <= s.today[t].shares < p.shares && EodFills.Vwap(s.trades, EodFills.Selling, t).Some? ==>
      var sold, exit := p.shares - s.today[t].shares, EodFills.Vwap(s.trades, EodFills.Selling, t).value;
      && PositionUsd(s, t) == s.today[t].daily - Worth(Spy(s), Worth(s.today[t].shares, close)) + Timing(s, t)
      && RotationUsd(s, t) == Worth(sold, exit - close) - Worth(Spy(s), Worth(sold, close))
    ensures t !in s.today && EodFills.Vwap(s.trades, EodFills.Selling, t).Some? ==>
      RotationUsd(s, t) == Worth(p.shares, EodFills.Vwap(s.trades, EodFills.Selling, t).value - close)
                           - Worth(Spy(s), Worth(p.shares, close)) + Timing(s, t)
  {
    hide Worth, EodFills.Vwap, Timing, Spy;
  }

  ghost function Position(s: Session): real { Sums.Sum(s.today.Keys, (t: Ticker) => PositionUsd(s, t)) }
  ghost function Rotation(s: Session): real { Sums.Sum(s.prior.Keys, (t: Ticker) => RotationUsd(s, t)) }
  ghost function DailyTotal(s: Session): real { Sums.Sum(s.today.Keys, (t: Ticker) => DailyUsd(s, t)) }
  ghost function RealizedTotal(s: Session): real { Sums.Sum(s.prior.Keys, (t: Ticker) => Realized(s, t)) }
  ghost function HeldBaseTotal(s: Session): real { Sums.Sum(s.today.Keys, (t: Ticker) => HeldBase(s, t)) }
  ghost function SoldBaseTotal(s: Session): real { Sums.Sum(s.prior.Keys, (t: Ticker) => SoldBase(s, t)) }
  ghost function LostTotal(s: Session): real { Sums.Sum(s.prior.Keys, (t: Ticker) => LostTiming(s, t)) }
  ghost function TimingTotal(s: Session): real { Sums.Sum(s.today.Keys + s.prior.Keys, (t: Ticker) => Timing(s, t)) }

  function PricingTiming(s: Session): real { if s.available then s.pricingTiming else 0.0 }

  ghost function Cash(s: Session): real
    requires s.priorNav.Some?
  {
    s.interest - Worth(Spy(s), s.priorNav.value - HeldBaseTotal(s) - SoldBaseTotal(s))
  }

  ghost function Leftover(s: Session): real { if s.available then PricingTiming(s) - TimingTotal(s) else 0.0 }

  ghost function TrueResidual(s: Session): real { s.unattributed - RealizedTotal(s) - PricingTiming(s) }

  // ---------------------------------------------------------------- tie-out

  lemma {:induction false} Scale(names: set<Ticker>, k: real, f: Ticker -> real, g: Ticker -> real)
    requires forall t :: t in names ==> g(t) == Worth(k, f(t))
    ensures Sums.Sum(names, g) == Worth(k, Sums.Sum(names, f))
    decreases names
  {
    if names == {} {
      assert Worth(k, 0.0) == 0.0;
    } else {
      var t :| t in names;
      Sums.Pick(names, f, t);
      Sums.Pick(names, g, t);
      Scale(names - {t}, k, f, g);
      TwoBases(k, f(t), Sums.Sum(names - {t}, f));
      hide Worth;
    }
  }

  lemma TwoBases(k: real, a: real, b: real)
    ensures Worth(k, a + b) == Worth(k, a) + Worth(k, b)
  {}

  lemma PositionSplits(s: Session)
    ensures Position(s) == DailyTotal(s) - Worth(Spy(s), HeldBaseTotal(s))
                           + Sums.Sum(s.today.Keys, (t: Ticker) => Timing(s, t))
  {
    hide Worth, Timing;
    var base := (t: Ticker) => HeldBase(s, t);
    var spy := (t: Ticker) => Worth(Spy(s), HeldBase(s, t));
    var alpha := (t: Ticker) => DailyUsd(s, t) - spy(t);
    Scale(s.today.Keys, Spy(s), base, spy);
    Sums.Minus(s.today.Keys, (t: Ticker) => DailyUsd(s, t), spy, alpha);
    Sums.Plus(s.today.Keys, alpha, (t: Ticker) => Timing(s, t), (t: Ticker) => PositionUsd(s, t));
  }

  lemma RotationSplits(s: Session)
    ensures Rotation(s) == RealizedTotal(s) - Worth(Spy(s), SoldBaseTotal(s))
                           + Sums.Sum(s.prior.Keys, (t: Ticker) => ExitTiming(s, t))
  {
    NothingOfZero(Spy(s));
    hide Worth, Timing;
    var base := (t: Ticker) => SoldBase(s, t);
    var spy := (t: Ticker) => Worth(Spy(s), SoldBase(s, t));
    var alpha := (t: Ticker) => Realized(s, t) - spy(t);
    Scale(s.prior.Keys, Spy(s), base, spy);
    Sums.Minus(s.prior.Keys, (t: Ticker) => Realized(s, t), spy, alpha);
    Sums.Plus(s.prior.Keys, alpha, (t: Ticker) => ExitTiming(s, t), (t: Ticker) => RotationUsd(s, t));
  }

  lemma NothingOfZero(k: real)
    ensures Worth(k, 0.0) == 0.0
  {}

  /** Every timing slice is in a held row, in an exited row, or lost. */
  lemma TimingSplits(s: Session)
    ensures TimingTotal(s) == Sums.Sum(s.today.Keys, (t: Ticker) => Timing(s, t))
                              + Sums.Sum(s.prior.Keys, (t: Ticker) => ExitTiming(s, t)) + LostTotal(s)
  {
    hide Timing;
    var f := (t: Ticker) => Timing(s, t);
    var gone := s.prior.Keys - s.today.Keys;
    var exit, lost := (t: Ticker) => ExitTiming(s, t), (t: Ticker) => LostTiming(s, t);
    assert s.today.Keys + s.prior.Keys == s.today.Keys + gone;
    Sums.Union(s.today.Keys, gone, f);
    Sums.Plus(gone, exit, lost, f);
    Sums.Restrict(gone, s.prior.Keys, exit);
    Sums.Restrict(gone, s.prior.Keys, lost);
  }

  ghost function DollarAlpha(s: Session): real
    requires s.priorNav.Some?
  {
    s.navChange - Worth(Spy(s), s.priorNav.value)
  }

  /** For arbitrary rotation the sleeves sum to dollar alpha up to exactly NAV
      change less position P&L, interest and the unattributed figure, plus the
      timing slices that no row carries. */
  lemma SleevesTieOut(s: Session)
    requires s.priorNav.Some?
    ensures DollarAlpha(s) - (Position(s) + Rotation(s) + Cash(s) + Leftover(s) + TrueResidual(s))
         == s.navChange - DailyTotal(s) - s.interest - s.unattributed + LostTotal(s)
  {
    PositionSplits(s);
    RotationSplits(s);
    TimingSplits(s);
    if !s.available {
      Sums.Zero(s.today.Keys + s.prior.Keys, (t: Ticker) => Timing(s, t));
    }
    ThreeBases(Spy(s), s.priorNav.value, HeldBaseTotal(s), SoldBaseTotal(s));
    hide Worth, Timing;
  }

  lemma ThreeBases(k: real, a: real, b: real, c: real)
    ensures Worth(k, a - b - c) == Worth(k, a) - Worth(k, b) - Worth(k, c)
  {}

  /** Fed with the reconciliation's own unattributed figure, the residual is
      the negated dividend timing plus the lost slices: it vanishes exactly
      when those two agree. */
  lemma ResidualUnderReconciliation(s: Session, dividendTiming: real)
    requires s.priorNav.Some?
    requires s.unattributed == s.navChange - DailyTotal(s) - s.interest + dividendTiming
    ensures var residual := DollarAlpha(s) - (Position(s) + Rotation(s) + Cash(s) + Leftover(s) + TrueResidual(s));
      residual == LostTotal(s) - dividendTiming && (residual == 0.0 <==> LostTotal(s) == dividendTiming)
  {
    SleevesTieOut(s);
  }

  const KO_PRIOR := Prior(100.0, 6000.0, Some(60.0))

  /** An ex-dividend day: 100 shares of one name at 60 on both days, 50 accrued on
      the position, nothing received yet.  The waterfall leaves nothing
      unattributed, and the attribution leaves minus the 50. */
  function ExDividendDay(daily: real, unattributed: real): Session {
    Session(Some(10000.0), Some(0.0), 0.0, map["KO" := Carried(100.0, daily)], map["KO" := KO_PRIOR],
            map["KO" := EodMarkBasis.Mark(100.0, Some(6000.0), Some(6000.0))],
            map["KO" := EodMarkBasis.Mark(100.0, Some(6000.0), Some(6000.0))],
            [], 0.0, unattributed, 0.0, true)
  }

  lemma ExDividendDayLeavesAResidual()
    ensures var unpaid := ExDividends.Position(100.0, 0.0, 0.0, Some(60.0), None);
      var credited := ExDividends.Credited("KO", unpaid, map["KO" := 100.0], map["KO" := 0.5]);
      var timing := credited.dividend;
      var s := ExDividendDay(credited.dailyReturn, 0.0 - credited.dailyReturn + timing);
      && timing == 50.0 && credited.dailyReturn == 50.0 && s.unattributed == 0.0
      && DollarAlpha(s) - (Position(s) + Rotation(s) + Cash(s) + Leftover(s) + TrueResidual(s)) == -50.0
  {
    hide ExDividends.Credited, Position, Rotation, Cash, Leftover, TrueResidual, DollarAlpha;
    FiftyCredited();
    OneNameResidual();
  }

  lemma FiftyCredited()
    ensures var unpaid := ExDividends.Position(100.0, 0.0, 0.0, Some(60.0), None);
      var credited := ExDividends.Credited("KO", unpaid, map["KO" := 100.0], map["KO" := 0.5]);
      credited.dividend == 50.0 && credited.dailyReturn == 50.0
  {}

  lemma OneNameResidual()
    ensures var s := ExDividendDay(50.0, 0.0);
      DollarAlpha(s) - (Position(s) + Rotation(s) + Cash(s) + Leftover(s) + TrueResidual(s)) == -50.0
  {
    var s := ExDividendDay(50.0, 0.0);
    OneNameDaily(s);
    NothingLost(s);
    hide Position, Rotation, Cash, Leftover, TrueResidual, DollarAlpha, LostTotal, DailyTotal;
    ResidualUnderReconciliation(s, 50.0);
  }

  lemma OneNameDaily(s: Session)
    requires s == ExDividendDay(50.0, 0.0)
    ensures DailyTotal(s) == 50.0
  {
    Sums.Pick({"KO"}, (t: Ticker) => DailyUsd(s, t), "KO");
    assert s.today.Keys == {"KO"} && {"KO"} - {"KO"} == {};
  }

  /** No slice is lost when every name that vanished had shares to sell. */
  lemma NothingLost(s: Session)
    requires forall t :: t in s.prior && t !in s.today ==> s.prior[t].shares > 0.0
    ensures LostTotal(s) == 0.0
  {
    Sums.Zero(s.prior.Keys, (t: Ticker) => LostTiming(s, t));
  }

  // ---------------------------------------------------------------- the program

  method HeldRows(s: Session, timing: map<Ticker, real>) returns (rows: seq<Component>, bases: real)
    requires forall t :: t in s.today ==> (if t in timing then timing[t] else 0.0) == Timing(s, t)
    ensures KindTotal(rows, PositionRow) == Position(s) && forall k :: k != PositionRow ==> KindTotal(rows, k) == 0.0
    ensures bases == HeldBaseTotal(s)
  {
    rows, bases := [], 0.0;
    var rest := s.today.Keys;
    ghost var f, g := (t: Ticker) => PositionUsd(s, t), (t: Ticker) => HeldBase(s, t);
    assert forall k :: KindTotal(rows, k) == 0.0;
    hide Worth, Timing, KindTotal;
    while rest != {}
      invariant rest <= s.today.Keys
      invariant KindTotal(rows, PositionRow) + Sums.Sum(rest, f) == Position(s)
      invariant forall k :: k != PositionRow ==> KindTotal(rows, k) == 0.0
      invariant bases + Sums.Sum(rest, g) == HeldBaseTotal(s)
    {
      var t :| t in rest;
      Sums.Pick(rest, f, t);
      Sums.Pick(rest, g, t);
      var prior := PriorAt(s, t);
      var base := Worth(Least(PriorShares(prior), s.today[t].shares), PriorClose(prior));
      var slice := if t in timing then timing[t] else 0.0;
      var row := Component(t, PositionRow, s.today[t].daily - Worth(Spy(s), base) + slice);
      KindSnoc(rows, row);
      rows, bases := rows + [row], bases + base;
      rest := rest - {t};
    }
  }

  /** The rotation row of one prior name, if its share count fell. */
  method RotationRowOf(s: Session, t: Ticker, slice: real, exit: Option<real>)
    returns (row: Option<Component>, gain: real, base: real)
    requires t in s.prior && slice == Timing(s, t) && exit == EodFills.Vwap(s.trades, EodFills.Selling, t)
    ensures gain == Realized(s, t) && base == SoldBase(s, t)
    ensures row.Some? ==> row.value == Component(t, RotationRow, RotationUsd(s, t))
    ensures row.None? ==> RotationUsd(s, t) == 0.0
  {
    hide Worth, Timing, EodFills.Vwap;
    var prior := PriorAt(s, t);
    var close := PriorClose(prior);
    var sold := PriorShares(prior) - TodayShares(s, t);
    if sold <= 0.0 { return None, 0.0, 0.0; }
    gain := Worth(sold, (if exit.Some? then exit.value else close) - close);
    base := Worth(sold, close);
    row := Some(Component(t, RotationRow, gain - Worth(Spy(s), base) + (if t in s.today then 0.0 else slice)));
  }

  method RotationRows(s: Session, timing: map<Ticker, real>, exits: map<Ticker, real>)
    returns (rows: seq<Component>, realized: real, bases: real)
    requires forall t :: t in s.prior ==> (if t in timing then timing[t] else 0.0) == Timing(s, t)
    requires forall t: Ticker :: t in exits <==> EodFills.Vwap(s.trades, EodFills.Selling, t).Some?
    requires forall t: Ticker :: t in exits ==> exits[t] == EodFills.Vwap(s.trades, EodFills.Selling, t).value
    ensures KindTotal(rows, RotationRow) == Rotation(s) && forall k :: k != RotationRow ==> KindTotal(rows, k) == 0.0
    ensures realized == RealizedTotal(s) && bases == SoldBaseTotal(s)
  {
    rows, realized, bases := [], 0.0, 0.0;
    var rest := s.prior.Keys;
    ghost var f, g, h := (t: Ticker) => RotationUsd(s, t), (t: Ticker) => SoldBase(s, t), (t: Ticker) => Realized(s, t);
    assert forall k :: KindTotal(rows, k) == 0.0;
    hide Worth, Timing, KindTotal, EodFills.Vwap, RotationUsd, Realized, SoldBase;
    while rest != {}
      invariant rest <= s.prior.Keys
      invariant KindTotal(rows, RotationRow) + Sums.Sum(rest, f) == Rotation(s)
      invariant forall k :: k != RotationRow ==> KindTotal(rows, k) == 0.0
      invariant bases + Sums.Sum(rest, g) == SoldBaseTotal(s)
      invariant realized + Sums.Sum(rest, h) == RealizedTotal(s)
    {
      var t :| t in rest;
      Sums.Pick(rest, f, t);
      Sums.Pick(rest, g, t);
      Sums.Pick(rest, h, t);
      var row, gain, base := RotationRowOf(s, t, if t in timing then timing[t] else 0.0,
                                           if t in exits then Some(exits[t]) else None);
      if row.Some? {
        KindSnoc(rows, row.value);
        rows := rows + [row.value];
      }
      realized, bases := realized + gain, bases + base;
      rest := rest - {t};
    }
  }

  lemma {:induction false} TotalAppend(a: seq<Component>, b: seq<Component>)
    ensures Total(a + b) == Total(a) + Total(b)
  {
    if b == [] {
      assert a + b == a;
    } else {
      assert (a + b)[..|a + b| - 1] == a + b[..|b| - 1];
      TotalAppend(a, b[..|b| - 1]);
    }
  }

  lemma TotalOfThree(a: Component, b: Component, c: Component)
    ensures Total([a, b, c]) == a.usd + b.usd + c.usd
  {
    assert [a, b, c][..2] == [a, b] && [a, b][..1] == [a] && [a][..0] == [];
    assert Total([a]) == a.usd;
    assert Total([a, b]) == a.usd + b.usd;
  }

  /** Undefined without a positive prior NAV or a benchmark return; otherwise
      the rows and the residual add up to dollar alpha, and the residual is
      exactly what the waterfall left between NAV change and its own lines. */
  method ComputeAlphaAttribution(s: Session) returns (a: Option<Attribution>)
    requires Valid(s)
    ensures a.None? <==> s.priorNav.None? || s.priorNav.value <= 0.0 || s.spyReturn.None?
    ensures a.Some? ==> a.value.dollarAlpha == DollarAlpha(s)
    ensures a.Some? ==> Total(a.value.components) + a.value.residual == a.value.dollarAlpha
    ensures a.Some? ==> a.value.residual == s.navChange - DailyTotal(s) - s.interest - s.unattributed + LostTotal(s)
  {
    if s.priorNav.None? || s.priorNav.value <= 0.0 || s.spyReturn.None? { return None; }
    var components := Rows(s);
    hide Worth, Valid, DailyTotal, LostTotal, Position, Rotation, Cash, Leftover, TrueResidual;
    SleevesTieOut(s);
    var alpha := s.navChange - Worth(Spy(s), s.priorNav.value);
    var total := TotalNow(components);
    a := Some(Attribution(alpha, components, alpha - total));
  }

  method TimingSlices(s: Session) returns (timing: map<Ticker, real>)
    requires Valid(s)
    ensures forall t :: t in timing ==> t in s.today.Keys + s.prior.Keys
    ensures forall t :: t in s.today.Keys + s.prior.Keys ==> (if t in timing then timing[t] else 0.0) == Timing(s, t)
  {
    timing := map[];
    if s.available {
      var byTicker, _ := EodMarkBasis.PricingTimingByTicker(s.marks, s.priorMarks);
      timing := byTicker;
    }
  }

  /** All the rows, in order: held names, rotated names, cash, leftover, residual. */
  method Rows(s: Session) returns (components: seq<Component>)
    requires Valid(s) && s.priorNav.Some?
    ensures Total(components) == Position(s) + Rotation(s) + Cash(s) + Leftover(s) + TrueResidual(s)
  {
    var timing := TimingSlices(s);
    var timingTotal := SumOf(s, timing);
    var exits := EodFills.WeightedPrices(s.trades, EodFills.Selling);
    var held, heldBases := HeldRows(s, timing);
    var rotated, realized, soldBases := RotationRows(s, timing, exits);
    hide Worth, Timing, EodFills.Vwap, Position, Rotation, TimingTotal, HeldBaseTotal, SoldBaseTotal, RealizedTotal;
    var pricing := PricingTiming(s);
    var cash := Component("Cash", CashRow, s.interest - Worth(Spy(s), s.priorNav.value - heldBases - soldBases));
    var leftover := Component("Pricing & timing", TimingRow, if s.available then pricing - timingTotal else 0.0);
    var residual := Component("Unattributed", ResidualRow, s.unattributed - realized - pricing);
    components := held + rotated + [cash, leftover, residual];
    RowsTotal(held, rotated, cash, leftover, residual);
  }

  lemma RowsTotal(held: seq<Component>, rotated: seq<Component>, cash: Component, leftover: Component, residual: Component)
    requires forall k :: k != PositionRow ==> KindTotal(held, k) == 0.0
    requires forall k :: k != RotationRow ==> KindTotal(rotated, k) == 0.0
    ensures Total(held + rotated + [cash, leftover, residual])
         == KindTotal(held, PositionRow) + KindTotal(rotated, RotationRow) + cash.usd + leftover.usd + residual.usd
  {
    TotalAppend(held + rotated, [cash, leftover, residual]);
    TotalAppend(held, rotated);
    TotalByKind(held);
    TotalByKind(rotated);
    TotalOfThree(cash, leftover, residual);
  }

  /** Adds up the per-name slices. */
  method SumOf(s: Session, timing: map<Ticker, real>) returns (total: real)
    requires forall t :: t in timing ==> t in s.today.Keys + s.prior.Keys
    requires forall t :: t in s.today.Keys + s.prior.Keys ==> (if t in timing then timing[t] else 0.0) == Timing(s, t)
    ensures total == TimingTotal(s)
  {
    ghost var f := (t: Ticker) => Timing(s, t);
    total := 0.0;
    var rest := timing.Keys;
    hide Timing;
    while rest != {}
      invariant rest <= timing.Keys
      invariant total + Sums.Sum(rest, f) == Sums.Sum(timing.Keys, f)
    {
      var t :| t in rest;
      Sums.Pick(rest, f, t);
      total := total + timing[t];
      rest := rest - {t};
    }
    Sums.Restrict(timing.Keys, s.today.Keys + s.prior.Keys, f);
  }

  method TotalNow(cs: seq<Component>) returns (total: real)
    ensures total == Total(cs)
  {
    total := 0.0;
    for k := 0 to |cs|
      invariant total == Total(cs[..k])
    {
      assert cs[..k + 1][..k] == cs[..k];
      total := total + cs[k].usd;
    }
    assert cs[..|cs|] == cs;
  }
}
