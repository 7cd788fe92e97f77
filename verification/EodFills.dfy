/**
 The day's trade rows as the end-of-day accounting reads them: which side a
 row is on, at what price it counts, and the share-weighted price per name.
 */
module EodFills {
  import opened Options
  import opened Money
  import Sums

  type Ticker = string

  datatype Side = Buying | Selling

  datatype Trade = Trade(ticker: Ticker, action: string, shares: real,
                         fill: Option<real>, mapped: Option<real>, arrival: Option<real>)

  // ---------------------------------------------------------------- reading a row

  predicate Contains(s: string, word: string) {
    exists i :: 0 <= i <= |s| - |word| && s[i..][..|word|] == word
  }

  const SELLS := {"SELL", "EXIT", "REDUCE", "COVER", "LIQUIDATION_SELL", "EMERGENCY_SELL"}
  const BUYS := {"ENTER", "BUY", "COVER"}

  predicate OnSide(action: string, side: Side) {
    if side.Selling? then action in SELLS || Contains(action, "SELL")
    else action in BUYS || Contains(action, "BUY")
  }

  /** Entries are buys and exits are sells; a cover counts on both sides. */
  lemma SidesOfActions()
    ensures forall a :: a in {"ENTER", "BUY"} ==> OnSide(a, Buying) && !OnSide(a, Selling)
    ensures forall a :: a in {"EXIT", "REDUCE", "SELL", "LIQUIDATION_SELL", "EMERGENCY_SELL"} ==> OnSide(a, Selling) && !OnSide(a, Buying)
    ensures OnSide("COVER", Buying) && OnSide("COVER", Selling)
  {
    NoLetter("ENTER", "SELL", 'S');
    NoLetter("BUY", "SELL", 'S');
    NoLetter("EXIT", "BUY", 'B');
    NoLetter("REDUCE", "BUY", 'B');
    NoLetter("SELL", "BUY", 'B');
    NoLetter("LIQUIDATION_SELL", "BUY", 'B');
    NoLetter("EMERGENCY_SELL", "BUY", 'B');
  }

  /** Any action that spells out its side is on it, whatever surrounds the word. */
  lemma SpelledSide(before: string, after: string)
    ensures OnSide(before + "SELL" + after, Selling)
    ensures OnSide(before + "BUY" + after, Buying)
  {
    Spelled(before, "SELL", after);
    Spelled(before, "BUY", after);
  }

  lemma Spelled(before: string, word: string, after: string)
    ensures Contains(before + word + after, word)
  {
    var s := before + word + after;
    assert s[|before|..][..|word|] == word;
  }

  lemma NoLetter(s: string, word: string, c: char)
    requires word != [] && word[0] == c && c !in s
    ensures !Contains(s, word)
  {
    forall i | 0 <= i <= |s| - |word| ensures s[i..][..|word|] != word {
      assert s[i..][..|word|][0] == s[i];
    }
  }

  /** The first positive price among fill, mapped price and arrival price. */
  function Price(t: Trade): (p: Option<real>)
    ensures p.Some? ==> p.value > 0.0
  {
    if t.fill.Some? && t.fill.value > 0.0 then t.fill
    else if t.mapped.Some? && t.mapped.value > 0.0 then t.mapped
    else if t.arrival.Some? && t.arrival.value > 0.0 then t.arrival
    else None
  }

  function Size(t: Trade): real { if t.shares >= 0.0 then t.shares else 0.0 - t.shares }

  predicate Counts(t: Trade, side: Side) {
    OnSide(t.action, side) && t.ticker != "" && Size(t) > 0.0 && Price(t).Some?
  }

  function Cost(t: Trade): real {
    if Price(t).Some? then Worth(Size(t), Price(t).value) else 0.0
  }

  // ---------------------------------------------------------------- per name

  function Traded(trades: seq<Trade>, side: Side, t: Ticker): real {
    if trades == [] then 0.0 else
      var r := trades[|trades| - 1];
      Traded(trades[..|trades| - 1], side, t) + (if r.ticker == t && Counts(r, side) then Size(r) else 0.0)
  }

  function Notional(trades: seq<Trade>, side: Side, t: Ticker): real {
    if trades == [] then 0.0 else
      var r := trades[|trades| - 1];
      Notional(trades[..|trades| - 1], side, t) + (if r.ticker == t && Counts(r, side) then Cost(r) else 0.0)
  }

  /** The share-weighted price, when anything was traded on that side. */
  function Vwap(trades: seq<Trade>, side: Side, t: Ticker): Option<real> {
    if Traded(trades, side, t) > 0.0 then Some(Notional(trades, side, t) / Traded(trades, side, t)) else None
  }

  lemma {:induction false} TradedIsNonNegative(trades: seq<Trade>, side: Side, t: Ticker)
    ensures Traded(trades, side, t) >= 0.0
    ensures Traded(trades, side, t) == 0.0 ==> Notional(trades, side, t) == 0.0
  {
    if trades != [] { TradedIsNonNegative(trades[..|trades| - 1], side, t); }
  }

  /** Shares traded, at the share-weighted price, is exactly what was paid. */
  lemma VwapIsExact(trades: seq<Trade>, side: Side, t: Ticker)
    ensures Vwap(trades, side, t).Some? ==>
      Worth(Traded(trades, side, t), Vwap(trades, side, t).value) == Notional(trades, side, t)
    ensures Vwap(trades, side, t).None? ==> Traded(trades, side, t) == 0.0 && Notional(trades, side, t) == 0.0
  {
    TradedIsNonNegative(trades, side, t);
    if Traded(trades, side, t) > 0.0 { UnitPrice(Notional(trades, side, t), Traded(trades, side, t)); }
  }

  lemma CostBounds(r: Trade, lo: real, hi: real)
    requires Price(r).Some? && lo <= Price(r).value <= hi && Size(r) >= 0.0
    ensures Worth(Size(r), lo) <= Cost(r) <= Worth(Size(r), hi)
  {}

  lemma {:induction false} NotionalBounds(trades: seq<Trade>, side: Side, t: Ticker, lo: real, hi: real)
    requires forall r :: r in trades && r.ticker == t && Counts(r, side) ==> lo <= Price(r).value <= hi
    ensures Worth(Traded(trades, side, t), lo) <= Notional(trades, side, t) <= Worth(Traded(trades, side, t), hi)
  {
    if trades == [] {
      NoShares(lo);
      NoShares(hi);
    } else {
      var n := |trades| - 1;
      var r := trades[n];
      assert r in trades && forall x :: x in trades[..n] ==> x in trades;
      NotionalBounds(trades[..n], side, t, lo, hi);
      if r.ticker == t && Counts(r, side) {
        CostBounds(r, lo, hi);
        MoreShares(Traded(trades[..n], side, t), Size(r), lo);
        MoreShares(Traded(trades[..n], side, t), Size(r), hi);
      }
      hide Worth, Cost;
    }
  }

  lemma AverageBetween(n: real, shares: real, lo: real, hi: real)
    requires shares > 0.0 && Worth(shares, lo) <= n <= Worth(shares, hi)
    ensures lo <= n / shares <= hi
  {}

  /** A weighted price lies between the prices it averages. */
  lemma VwapIsBetween(trades: seq<Trade>, side: Side, t: Ticker, lo: real, hi: real)
    requires forall r :: r in trades && r.ticker == t && Counts(r, side) ==> lo <= Price(r).value <= hi
    ensures Vwap(trades, side, t).Some? ==> lo <= Vwap(trades, side, t).value <= hi
  {
    NotionalBounds(trades, side, t, lo, hi);
    if Traded(trades, side, t) > 0.0 {
      AverageBetween(Notional(trades, side, t), Traded(trades, side, t), lo, hi);
    }
  }

  // ---------------------------------------------------------------- which price counts

  predicate Priced(p: Option<real>) { p.Some? && p.value > 0.0 }

  predicate Within(p: Option<real>, lo: real, hi: real) { p.Some? && lo <= p.value <= hi }

  /** A row counts exactly when it is on the side, names a ticker, moves shares and
      has a positive price of any of the three kinds. */
  lemma CountsExactly(r: Trade, side: Side)
    ensures Counts(r, side) <==>
      OnSide(r.action, side) && r.ticker != "" && r.shares != 0.0 && (Priced(r.fill) || Priced(r.mapped) || Priced(r.arrival))
  {}

  /** Fills are bounded by fills: when a name's counted rows have their real fill in
      a range, or lacking one their mapped price, or lacking both their arrival
      estimate, its weighted price is in that range, whatever a lesser price says. */
  lemma RealPricesDecide(trades: seq<Trade>, side: Side, t: Ticker, lo: real, hi: real)
    requires forall r :: r in trades && r.ticker == t && Counts(r, side) ==>
      && (Priced(r.fill) ==> Within(r.fill, lo, hi))
      && (!Priced(r.fill) && Priced(r.mapped) ==> Within(r.mapped, lo, hi))
      && (!Priced(r.fill) && !Priced(r.mapped) ==> Within(r.arrival, lo, hi))
    ensures Vwap(trades, side, t).Some? ==> lo <= Vwap(trades, side, t).value <= hi
  {
    VwapIsBetween(trades, side, t, lo, hi);
  }

  /** The two rows are the same, but for prices that a better one overrides. */
  predicate SameButEstimates(r: Trade, q: Trade) {
    && q.ticker == r.ticker && q.action == r.action && q.shares == r.shares && q.fill == r.fill
    && (Priced(r.fill) || (q.mapped == r.mapped && (Priced(r.mapped) || q.arrival == r.arrival)))
  }

  /** Overridden estimates touch neither a weighted price nor the row cash. */
  lemma {:induction false} EstimatesAreIgnored(trades: seq<Trade>, other: seq<Trade>, side: Side, t: Ticker)
    requires |other| == |trades| && forall i :: 0 <= i < |trades| ==> SameButEstimates(trades[i], other[i])
    ensures Traded(other, side, t) == Traded(trades, side, t) && Notional(other, side, t) == Notional(trades, side, t)
    ensures Vwap(other, side, t) == Vwap(trades, side, t) && RowCash(other) == RowCash(trades)
  {
    if trades != [] {
      var n := |trades| - 1;
      EstimatesAreIgnored(trades[..n], other[..n], side, t);
      assert SameButEstimates(trades[n], other[n]);
      assert Price(other[n]) == Price(trades[n]) && Size(other[n]) == Size(trades[n]);
    }
  }

  /** One filled exit: its price is the fill and its cash the sale. */
  lemma OneFilledExit(r: Trade)
    requires r.action == "EXIT" && r.ticker != "" && r.shares > 0.0 && Priced(r.fill)
    ensures Vwap([r], Selling, r.ticker) == Some(r.fill.value) && Traded([r], Selling, r.ticker) == r.shares
    ensures Vwap([r], Buying, r.ticker) == None && RowCash([r]) == Worth(r.shares, r.fill.value)
  {
    SidesOfActions();
    OneRow(r, Selling);
    OneRow(r, Buying);
  }

  /** One filled entry: the same on the other side, and cash goes out. */
  lemma OneFilledEntry(r: Trade)
    requires r.action == "ENTER" && r.ticker != "" && r.shares > 0.0 && Priced(r.fill)
    ensures Vwap([r], Buying, r.ticker) == Some(r.fill.value) && Traded([r], Buying, r.ticker) == r.shares
    ensures Vwap([r], Selling, r.ticker) == None && RowCash([r]) == 0.0 - Worth(r.shares, r.fill.value)
  {
    SidesOfActions();
    OneRow(r, Selling);
    OneRow(r, Buying);
  }

  lemma OneRow(r: Trade, side: Side)
    ensures Traded([r], side, r.ticker) == (if Counts(r, side) then Size(r) else 0.0)
    ensures Notional([r], side, r.ticker) == (if Counts(r, side) then Cost(r) else 0.0)
    ensures Counts(r, side) ==> Vwap([r], side, r.ticker) == Price(r)
    ensures !Counts(r, side) ==> Vwap([r], side, r.ticker) == None
    ensures RowCash([r]) == (if Counts(r, Selling) then Cost(r) else 0.0) - (if Counts(r, Buying) then Cost(r) else 0.0)
  {
    assert [r][..0] == [];
    assert Traded([], side, r.ticker) == 0.0 && Notional([], side, r.ticker) == 0.0 && RowCash([]) == 0.0;
    if Counts(r, side) { QuotientOfProduct(Size(r), Price(r).value); }
  }

  lemma QuotientOfProduct(shares: real, price: real)
    requires shares > 0.0
    ensures Worth(shares, price) / shares == price
  {}

  /** The incident the fill price comes first for: an exit filled at 100 while its
      estimate reads 103.33. */
  lemma FillBeatsEstimate()
    ensures Vwap([Trade("AAPL", "EXIT", 10.0, Some(100.0), None, Some(103.33))], Selling, "AAPL") == Some(100.0)
  {
    OneFilledExit(Trade("AAPL", "EXIT", 10.0, Some(100.0), None, Some(103.33)));
  }

  lemma CostIsPositive(r: Trade)
    requires Price(r).Some? && Size(r) > 0.0
    ensures Cost(r) > 0.0
  {}

  lemma PositiveQuotient(n: real, shares: real)
    requires n > 0.0 && shares > 0.0
    ensures n / shares > 0.0
  {}

  lemma {:induction false} NotionalIsPositive(trades: seq<Trade>, side: Side, t: Ticker)
    ensures Notional(trades, side, t) >= 0.0
    ensures Traded(trades, side, t) > 0.0 ==> Notional(trades, side, t) > 0.0
  {
    if trades != [] {
      var n := |trades| - 1;
      NotionalIsPositive(trades[..n], side, t);
      TradedIsNonNegative(trades[..n], side, t);
      if trades[n].ticker == t && Counts(trades[n], side) { CostIsPositive(trades[n]); }
      hide Cost;
    }
  }

  lemma VwapIsPositive(trades: seq<Trade>, side: Side, t: Ticker)
    ensures Vwap(trades, side, t).Some? ==> Vwap(trades, side, t).value > 0.0
  {
    NotionalIsPositive(trades, side, t);
    if Traded(trades, side, t) > 0.0 { PositiveQuotient(Notional(trades, side, t), Traded(trades, side, t)); }
  }

  // ---------------------------------------------------------------- cash

  /** The cash the rows account for: sales in, purchases out. */
  function RowCash(trades: seq<Trade>): real {
    if trades == [] then 0.0 else
      var r := trades[|trades| - 1];
      RowCash(trades[..|trades| - 1])
      + (if Counts(r, Selling) then Cost(r) else 0.0) - (if Counts(r, Buying) then Cost(r) else 0.0)
  }

  /** The cash the rows account for in one name. */
  function NameCash(trades: seq<Trade>, t: Ticker): real {
    Notional(trades, Selling, t) - Notional(trades, Buying, t)
  }

  function Names(trades: seq<Trade>): set<Ticker> { set r | r in trades :: r.ticker }

  lemma NameCashLast(trades: seq<Trade>, t: Ticker)
    requires trades != []
    ensures var r := trades[|trades| - 1];
      NameCash(trades, t) == NameCash(trades[..|trades| - 1], t)
        + (if r.ticker == t then
             (if Counts(r, Selling) then Cost(r) else 0.0) - (if Counts(r, Buying) then Cost(r) else 0.0) else 0.0)
  {}

  lemma {:induction false} RowCashByName(trades: seq<Trade>, all: set<Ticker>)
    requires Names(trades) <= all
    ensures RowCash(trades) == Sums.Sum(all, (t: Ticker) => NameCash(trades, t))
  {
    var f := (t: Ticker) => NameCash(trades, t);
    if trades == [] {
      Sums.Zero(all, f);
    } else {
      var n := |trades| - 1;
      var r, before := trades[n], trades[..n];
      var g := (t: Ticker) => NameCash(before, t);
      assert r.ticker in Names(trades);
      assert Names(before) <= all by { assert forall x :: x in before ==> x in trades; }
      RowCashByName(before, all);
      hide NameCash, Counts, Cost;
      forall t: Ticker
        ensures f(t) == g(t) + (if r.ticker == t then
             (if Counts(r, Selling) then Cost(r) else 0.0) - (if Counts(r, Buying) then Cost(r) else 0.0) else 0.0)
      {
        NameCashLast(trades, t);
      }
      Sums.Change(all, g, f, r.ticker);
    }
  }

  // ---------------------------------------------------------------- the program

  datatype Slot = Slot(notional: real, shares: real)

  /** The running totals of a prefix of the rows. */
  ghost predicate Tallied(agg: map<Ticker, Slot>, trades: seq<Trade>, side: Side) {
    forall t: Ticker :: (if t in agg then agg[t] else Slot(0.0, 0.0)) == Slot(Notional(trades, side, t), Traded(trades, side, t))
  }

  lemma TallyStep(agg: map<Ticker, Slot>, trades: seq<Trade>, k: nat, side: Side)
    requires k < |trades| && Tallied(agg, trades[..k], side)
    ensures !Counts(trades[k], side) ==> Tallied(agg, trades[..k + 1], side)
    ensures Counts(trades[k], side) ==>
      var slot := if trades[k].ticker in agg then agg[trades[k].ticker] else Slot(0.0, 0.0);
      Tallied(agg[trades[k].ticker := Slot(slot.notional + Cost(trades[k]), slot.shares + Size(trades[k]))], trades[..k + 1], side)
  {
    assert trades[..k + 1][..k] == trades[..k];
    hide Counts, Cost;
  }

  /** One price per name that traded on the side: the exact weighted price. */
  method WeightedPrices(trades: seq<Trade>, side: Side) returns (prices: map<Ticker, real>)
    ensures forall t: Ticker :: t in prices <==> Vwap(trades, side, t).Some?
    ensures forall t: Ticker :: t in prices ==> prices[t] == Vwap(trades, side, t).value
  {
    var agg: map<Ticker, Slot> := map[];
    assert Tallied(agg, trades[..0], side);
    hide Vwap, Notional, Traded;
    for k := 0 to |trades|
      invariant Tallied(agg, trades[..k], side)
    {
      var r := trades[k];
      TallyStep(agg, trades, k, side);
      if Counts(r, side) {
        var slot := if r.ticker in agg then agg[r.ticker] else Slot(0.0, 0.0);
        agg := agg[r.ticker := Slot(slot.notional + Size(r) * Price(r).value, slot.shares + Size(r))];
      }
    }
    assert trades[..|trades|] == trades;
    prices := map t | t in agg && agg[t].shares > 0.0 :: agg[t].notional / agg[t].shares;
    PricesAreVwaps(agg, trades, side);
  }

  lemma PricesAreVwaps(agg: map<Ticker, Slot>, trades: seq<Trade>, side: Side)
    requires Tallied(agg, trades, side)
    ensures forall t: Ticker :: t in agg && agg[t].shares > 0.0 <==> Vwap(trades, side, t).Some?
    ensures forall t: Ticker :: t in agg && agg[t].shares > 0.0 ==> Vwap(trades, side, t).value == agg[t].notional / agg[t].shares
  {
    forall t: Ticker
      ensures t in agg && agg[t].shares > 0.0 <==> Vwap(trades, side, t).Some?
      ensures t in agg && agg[t].shares > 0.0 ==> Vwap(trades, side, t).value == agg[t].notional / agg[t].shares
    {
      assert (if t in agg then agg[t] else Slot(0.0, 0.0)) == Slot(Notional(trades, side, t), Traded(trades, side, t));
    }
  }
}
