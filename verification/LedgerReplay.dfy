/**
 Reconstruction of a missing end-of-day row from the trade ledger: the
 anchored one-day roll-forward, the full-ledger replay it replaces, and the
 NAV that goes with the synthesized book.
 */
module LedgerReplay {
  import opened Options
  import Sums

  type Ticker = string

  datatype Action = Enter | Exit | Reduce | Other

  /** A row of the trades table. */
  datatype Row = Row(date: int, ticker: Ticker, action: Action,
                     filled: Option<int>, shares: Option<int>, price: Option<real>)

  /** The filled count when present, else the ordered one. */
  function Count(r: Row): Option<int> {
    if r.filled.Some? then r.filled else r.shares
  }

  predicate Counted(r: Row) {
    Count(r).Some? && r.action != Other
  }

  function Signed(r: Row): int {
    if !Counted(r) then 0 else if r.action == Enter then Count(r).value else 0 - Count(r).value
  }

  // ---------------------------------------------------------------- netting

  function Net(rows: seq<Row>, t: Ticker): int {
    if rows == [] then 0 else
      var r := rows[|rows| - 1];
      Net(rows[..|rows| - 1], t) + (if r.ticker == t then Signed(r) else 0)
  }

  function Touched(rows: seq<Row>): set<Ticker> {
    set r | r in rows && Counted(r) :: r.ticker
  }

  function NetMap(rows: seq<Row>): map<Ticker, int> {
    map t | t in Touched(rows) :: Net(rows, t)
  }

  lemma {:induction false} NetOutside(rows: seq<Row>, t: Ticker)
    requires t !in Touched(rows)
    ensures Net(rows, t) == 0
  {
    if rows != [] {
      var n := |rows| - 1;
      assert rows[n] in rows;
      assert forall r :: r in rows[..n] ==> r in rows;
      NetOutside(rows[..n], t);
    }
  }

  lemma TouchedSnoc(rows: seq<Row>, r: Row)
    ensures Touched(rows + [r]) == Touched(rows) + (if Counted(r) then {r.ticker} else {})
  {
    assert forall x :: x in rows + [r] <==> x in rows || x == r;
  }

  lemma NetSnoc(rows: seq<Row>, r: Row, t: Ticker)
    ensures Net(rows + [r], t) == Net(rows, t) + (if r.ticker == t then Signed(r) else 0)
  {
    assert (rows + [r])[..|rows|] == rows;
  }

  lemma NetMapSnoc(rows: seq<Row>, r: Row)
    ensures NetMap(rows + [r]) == Bumped(NetMap(rows), r)
  {
    hide Net, Touched;
    TouchedSnoc(rows, r);
    forall t: Ticker ensures Net(rows + [r], t) == Net(rows, t) + (if r.ticker == t then Signed(r) else 0) {
      NetSnoc(rows, r, t);
    }
    if r.ticker !in Touched(rows) { NetOutside(rows, r.ticker); }
  }

  /** The running net with one more row. */
  function Bumped(m: map<Ticker, int>, r: Row): map<Ticker, int> {
    if Counted(r) then m[r.ticker := Value(m, r.ticker) + Signed(r)] else m
  }

  function Value(m: map<Ticker, int>, t: Ticker): int {
    if t in m then m[t] else 0
  }

  function Positive(m: map<Ticker, int>): map<Ticker, int> {
    map t | t in m && m[t] > 0 :: m[t]
  }

  // ---------------------------------------------------------------- ledger slices

  function Through(ledger: seq<Row>, date: int): seq<Row> {
    if ledger == [] then [] else
      var n := |ledger| - 1;
      Through(ledger[..n], date) + (if ledger[n].date <= date then [ledger[n]] else [])
  }

  function On(ledger: seq<Row>, date: int): seq<Row> {
    if ledger == [] then [] else
      var n := |ledger| - 1;
      On(ledger[..n], date) + (if ledger[n].date == date then [ledger[n]] else [])
  }

  lemma ThroughLast(ledger: seq<Row>, date: int, t: Ticker)
    requires ledger != []
    ensures var r := ledger[|ledger| - 1];
            Net(Through(ledger, date), t) == Net(Through(ledger[..|ledger| - 1], date), t)
                                             + (if r.date <= date && r.ticker == t then Signed(r) else 0)
  {
    var rest := Through(ledger[..|ledger| - 1], date);
    assert rest + [] == rest;
    NetSnoc(rest, ledger[|ledger| - 1], t);
  }

  lemma OnLast(ledger: seq<Row>, date: int, t: Ticker)
    requires ledger != []
    ensures var r := ledger[|ledger| - 1];
            Net(On(ledger, date), t) == Net(On(ledger[..|ledger| - 1], date), t)
                                        + (if r.date == date && r.ticker == t then Signed(r) else 0)
  {
    var rest := On(ledger[..|ledger| - 1], date);
    assert rest + [] == rest;
    NetSnoc(rest, ledger[|ledger| - 1], t);
  }

  /** No ledger row is dated strictly between the two days. */
  ghost predicate Adjacent(ledger: seq<Row>, prior: int, date: int) {
    prior < date && forall r :: r in ledger ==> r.date <= prior || r.date >= date
  }

  lemma {:induction false} NetThrough(ledger: seq<Row>, prior: int, date: int, t: Ticker)
    requires Adjacent(ledger, prior, date)
    ensures Net(Through(ledger, date), t) == Net(Through(ledger, prior), t) + Net(On(ledger, date), t)
  {
    if ledger == [] {
      assert Through(ledger, date) == Through(ledger, prior) == On(ledger, date) == [];
    } else {
      hide Through, On, Net;
      var n := |ledger| - 1;
      assert ledger[n] in ledger;
      assert forall x :: x in ledger[..n] ==> x in ledger;
      NetThrough(ledger[..n], prior, date, t);
      ThroughLast(ledger, date, t);
      ThroughLast(ledger, prior, t);
      OnLast(ledger, date, t);
    }
  }

  // ---------------------------------------------------------------- the two reconstructions

  /** The whole ledger, netted. */
  function Replay(ledger: seq<Row>, date: int): map<Ticker, int> {
    Positive(NetMap(Through(ledger, date)))
  }

  lemma ReplayAt(ledger: seq<Row>, date: int, t: Ticker)
    ensures t in Replay(ledger, date) <==> Net(Through(ledger, date), t) > 0
    ensures t in Replay(ledger, date) ==> Replay(ledger, date)[t] == Net(Through(ledger, date), t)
  {
    if t !in Touched(Through(ledger, date)) { NetOutside(Through(ledger, date), t); }
  }

  /** Broker-verified holdings of the prior snapshot. */
  function Anchor(prior: map<Ticker, Option<int>>): map<Ticker, int> {
    map t | t in prior && prior[t].Some? && prior[t].value > 0 :: prior[t].value
  }

  function Rolled(anchor: map<Ticker, int>, deltas: map<Ticker, int>): map<Ticker, int> {
    map t | t in anchor.Keys + deltas.Keys :: Value(anchor, t) + Value(deltas, t)
  }

  /** The book of a day, and whether it is the un-anchored fallback. */
  function Synthesized(prior: map<Ticker, Option<int>>, ledger: seq<Row>, date: int): (map<Ticker, int>, bool) {
    if Anchor(prior) == map[] then (Replay(ledger, date), true)
    else (Positive(Rolled(Anchor(prior), NetMap(On(ledger, date)))), false)
  }

  function Snapshot(book: map<Ticker, int>): map<Ticker, Option<int>> {
    map t | t in book :: Some(book[t])
  }

  lemma SynthesizedAt(prior: map<Ticker, Option<int>>, ledger: seq<Row>, date: int, t: Ticker)
    requires Anchor(prior) != map[]
    ensures var q := Value(Anchor(prior), t) + Net(On(ledger, date), t);
            var book := Synthesized(prior, ledger, date).0;
            (t in book <==> q > 0) && (q > 0 ==> book[t] == q)
  {
    if t !in Touched(On(ledger, date)) { NetOutside(On(ledger, date), t); }
  }

  /** The day's fills of every oversold name leave it no higher. */
  ghost predicate NoOversoldNameIsBought(ledger: seq<Row>, prior: int, date: int) {
    forall t: Ticker {:trigger Net(Through(ledger, prior), t)} ::
      Net(Through(ledger, prior), t) < 0 ==> Net(On(ledger, date), t) <= 0
  }

  /** Rolling the replay of the prior day forward by one day's fills gives the
      replay through that day exactly when no name whose ledger was oversold
      has a net buy on the day (or there was nothing to anchor on). */
  lemma AnchoredIsReplayExactly(ledger: seq<Row>, prior: int, date: int)
    requires Adjacent(ledger, prior, date)
    ensures Synthesized(Snapshot(Replay(ledger, prior)), ledger, date).0 == Replay(ledger, date)
       <==> (Replay(ledger, prior) == map[] || NoOversoldNameIsBought(ledger, prior, date))
  {
    AnchorOfSnapshot(ledger, prior);
    if Replay(ledger, prior) != map[] {
      forall t: Ticker ensures SameAt(ledger, prior, date, t) <==>
        (Net(Through(ledger, prior), t) < 0 ==> Net(On(ledger, date), t) <= 0)
      {
        OneNameAgreesExactly(ledger, prior, date, t);
      }
      SameEverywhere(ledger, prior, date);
    }
  }

  /** The two books agree on one name. */
  ghost predicate SameAt(ledger: seq<Row>, prior: int, date: int, t: Ticker) {
    var book, full := Synthesized(Snapshot(Replay(ledger, prior)), ledger, date).0, Replay(ledger, date);
    (t in book <==> t in full) && (t in book && t in full ==> book[t] == full[t])
  }

  lemma SameEverywhere(ledger: seq<Row>, prior: int, date: int)
    ensures (forall t: Ticker :: SameAt(ledger, prior, date, t))
       <==> Synthesized(Snapshot(Replay(ledger, prior)), ledger, date).0 == Replay(ledger, date)
  {
    hide Synthesized, Snapshot, Replay;
    if forall t: Ticker :: SameAt(ledger, prior, date, t) {
      var book, full := Synthesized(Snapshot(Replay(ledger, prior)), ledger, date).0, Replay(ledger, date);
      forall t: Ticker ensures (t in book <==> t in full) && (t in book && t in full ==> book[t] == full[t]) {
        assert SameAt(ledger, prior, date, t);
      }
    }
  }

  lemma AnchorOfSnapshot(ledger: seq<Row>, date: int)
    ensures Anchor(Snapshot(Replay(ledger, date))) == Replay(ledger, date)
  {}

  lemma OneNameAgreesExactly(ledger: seq<Row>, prior: int, date: int, t: Ticker)
    requires Adjacent(ledger, prior, date) && Replay(ledger, prior) != map[]
    ensures SameAt(ledger, prior, date, t) <==> (Net(Through(ledger, prior), t) < 0 ==> Net(On(ledger, date), t) <= 0)
  {
    AnchorOfSnapshot(ledger, prior);
    SynthesizedAt(Snapshot(Replay(ledger, prior)), ledger, date, t);
    ReplayAt(ledger, prior, t);
    ReplayAt(ledger, date, t);
    NetThrough(ledger, prior, date, t);
  }

  // ---------------------------------------------------------------- many days

  ghost predicate Sessions(ledger: seq<Row>, days: seq<int>) {
    days != [] && forall i :: 0 < i < |days| ==> Adjacent(ledger, days[i - 1], days[i])
  }

  /** Each day anchored on the book synthesized for the day before, the first
      one on the replay. */
  function Chain(ledger: seq<Row>, days: seq<int>): map<Ticker, int>
    requires days != []
  {
    var n := |days| - 1;
    if n == 0 then Replay(ledger, days[0])
    else Synthesized(Snapshot(Chain(ledger, days[..n])), ledger, days[n]).0
  }

  ghost predicate StepIsClean(ledger: seq<Row>, prior: int, date: int) {
    Replay(ledger, prior) == map[] || NoOversoldNameIsBought(ledger, prior, date)
  }

  /** Day after day, the anchored books are the replayed ones, over the whole
      horizon, exactly when every step is clean. */
  ghost predicate AgreesThroughout(ledger: seq<Row>, days: seq<int>) {
    forall i :: 0 <= i < |days| ==> Chain(ledger, days[..i + 1]) == Replay(ledger, days[i])
  }

  ghost predicate CleanThroughout(ledger: seq<Row>, days: seq<int>) {
    forall i :: 0 < i < |days| ==> StepIsClean(ledger, days[i - 1], days[i])
  }

  lemma AgreesLast(ledger: seq<Row>, days: seq<int>)
    requires |days| > 1
    ensures AgreesThroughout(ledger, days) <==>
      AgreesThroughout(ledger, days[..|days| - 1]) && Chain(ledger, days) == Replay(ledger, days[|days| - 1])
  {
    hide Chain, Replay;
    var n := |days| - 1;
    var before := days[..n];
    assert days[..n + 1] == days;
    forall i | 0 <= i < n ensures Chain(ledger, before[..i + 1]) == Chain(ledger, days[..i + 1]) && before[i] == days[i] {
      assert before[..i + 1] == days[..i + 1];
    }
  }

  lemma CleanLast(ledger: seq<Row>, days: seq<int>)
    requires |days| > 1
    ensures CleanThroughout(ledger, days) <==>
      CleanThroughout(ledger, days[..|days| - 1]) && StepIsClean(ledger, days[|days| - 2], days[|days| - 1])
  {
    hide StepIsClean;
    var n := |days| - 1;
    assert forall i :: 0 <= i < n ==> days[..n][i] == days[i];
  }

  lemma {:induction false} ChainIsReplayExactly(ledger: seq<Row>, days: seq<int>)
    requires Sessions(ledger, days)
    ensures AgreesThroughout(ledger, days) <==> CleanThroughout(ledger, days)
  {
    var n := |days| - 1;
    if n == 0 {
      assert days[..0 + 1] == days;
    } else {
      var before := days[..n];
      assert forall i :: 0 <= i < n ==> before[i] == days[i];
      ChainIsReplayExactly(ledger, before);
      AgreesLast(ledger, days);
      CleanLast(ledger, days);
      if AgreesThroughout(ledger, before) { AgreesLatest(ledger, before); }
      AnchoredIsReplayExactly(ledger, days[n - 1], days[n]);
      hide AgreesThroughout, CleanThroughout, Replay, Synthesized;
    }
  }

  lemma AgreesLatest(ledger: seq<Row>, days: seq<int>)
    requires days != [] && AgreesThroughout(ledger, days)
    ensures Chain(ledger, days) == Replay(ledger, days[|days| - 1])
  {
    assert days[..|days| - 1 + 1] == days;
  }

  /** A ledger that never oversells any name keeps every step clean. */
  lemma NeverOversoldIsClean(ledger: seq<Row>, days: seq<int>)
    requires Sessions(ledger, days)
    requires forall i, t: Ticker {:trigger Net(Through(ledger, days[i]), t)} ::
               0 <= i < |days| ==> Net(Through(ledger, days[i]), t) >= 0
    ensures Chain(ledger, days) == Replay(ledger, days[|days| - 1])
  {
    ChainIsReplayExactly(ledger, days);
    AgreesLatest(ledger, days);
  }

  /** With an anchor, only the snapshot and the day's own rows matter: any
      error elsewhere in the ledger is irrelevant. */
  lemma AnchorForgetsHistory(prior: map<Ticker, Option<int>>, ledger: seq<Row>, other: seq<Row>, date: int)
    requires Anchor(prior) != map[]
    requires forall t: Ticker :: Net(On(ledger, date), t) == Net(On(other, date), t)
    ensures Synthesized(prior, ledger, date) == Synthesized(prior, other, date)
  {
    var a, b := Synthesized(prior, ledger, date).0, Synthesized(prior, other, date).0;
    forall t: Ticker ensures (t in a <==> t in b) && (t in a && t in b ==> a[t] == b[t]) {
      SynthesizedAt(prior, ledger, date, t);
      SynthesizedAt(prior, other, date, t);
    }
    assert a == b;
  }

  // ---------------------------------------------------------------- NAV

  function CashOf(r: Row): real {
    if r.price.None? then 0.0 else 0.0 - At(Signed(r), r.price.value)
  }

  function DayCash(rows: seq<Row>): real {
    if rows == [] then 0.0 else DayCash(rows[..|rows| - 1]) + CashOf(rows[|rows| - 1])
  }

  /** A share count at a price. */
  function At(shares: int, price: real): real { shares as real * price }

  ghost function MarketValue(book: map<Ticker, int>, close: Ticker -> real): real {
    Sums.Sum(book.Keys, (t: Ticker) => At(Value(book, t), close(t)))
  }

  /** A fill's signed shares at the close. */
  function Worth(r: Row, close: Ticker -> real): real {
    At(Signed(r), close(r.ticker))
  }

  /** What a fill adds to NAV by the close: shares times (close - fill price);
      an unpriced fill moves shares without moving cash. */
  function FillGain(r: Row, close: Ticker -> real): real {
    Worth(r, close) + CashOf(r)
  }

  function FillGains(rows: seq<Row>, close: Ticker -> real): real {
    if rows == [] then 0.0
    else FillGains(rows[..|rows| - 1], close) + FillGain(rows[|rows| - 1], close)
  }

  function RowsValue(rows: seq<Row>, close: Ticker -> real): real {
    if rows == [] then 0.0
    else RowsValue(rows[..|rows| - 1], close) + Worth(rows[|rows| - 1], close)
  }

  lemma Distribute(a: int, b: int, c: real)
    ensures At(a + b, c) == At(a, c) + At(b, c)
  {}

  lemma DistributeMinus(a: int, b: real, c: real)
    ensures At(a, b - c) == At(a, b) - At(a, c)
  {}

  lemma NoShares(c: real)
    ensures At(0, c) == 0.0
  {}

  /** The value of a day's net share changes, name by name. */
  ghost function NetValue(rows: seq<Row>, close: Ticker -> real): Ticker -> real {
    (t: Ticker) => At(Net(rows, t), close(t))
  }

  lemma NetValueSnoc(rows: seq<Row>, r: Row, close: Ticker -> real, t: Ticker)
    ensures NetValue(rows + [r], close)(t)
         == NetValue(rows, close)(t) + (if r.ticker == t then Worth(r, close) else 0.0)
  {
    NetSnoc(rows, r, t);
    Distribute(Net(rows, t), Signed(r), close(t));
    hide Net, At, Signed;
  }

  lemma NothingWorth(r: Row, close: Ticker -> real)
    requires !Counted(r)
    ensures Worth(r, close) == 0.0
  {}

  lemma {:induction false} RowsValueIsSum(rows: seq<Row>, close: Ticker -> real, all: set<Ticker>)
    requires Touched(rows) <= all
    ensures RowsValue(rows, close) == Sums.Sum(all, NetValue(rows, close))
  {
    if rows == [] {
      Sums.Zero(all, NetValue(rows, close));
    } else {
      var n := |rows| - 1;
      var r, before := rows[n], rows[..n];
      var f, g := NetValue(rows, close), NetValue(before, close);
      assert rows == before + [r];
      TouchedSnoc(before, r);
      hide Touched, NetValue, Worth;
      RowsValueIsSum(before, close, all);
      forall t: Ticker ensures f(t) == g(t) + (if r.ticker == t then Worth(r, close) else 0.0) {
        NetValueSnoc(before, r, close, t);
      }
      if Counted(r) {
        Sums.Change(all, g, f, r.ticker);
      } else {
        NothingWorth(r, close);
        Sums.Same(all, f, g);
      }
    }
  }

  lemma {:induction false} GainsSplit(rows: seq<Row>, close: Ticker -> real)
    ensures FillGains(rows, close) == RowsValue(rows, close) + DayCash(rows)
  {
    if rows != [] { GainsSplit(rows[..|rows| - 1], close); }
  }

  /** Holdings that the roll-forward clips at zero, valued at the close. */
  ghost function Clipped(rolled: map<Ticker, int>, close: Ticker -> real): real {
    Sums.Sum(rolled.Keys, (t: Ticker) => (if Value(rolled, t) < 0 then At(Value(rolled, t), close(t)) else 0.0))
  }

  lemma PositiveKeys(m: map<Ticker, int>)
    ensures Positive(m).Keys <= m.Keys
  {}

  lemma ValueOfPositive(rolled: map<Ticker, int>, close: Ticker -> real)
    ensures MarketValue(Positive(rolled), close) == MarketValue(rolled, close) - Clipped(rolled, close)
  {
    var all := rolled.Keys;
    var f := (t: Ticker) => At(Value(rolled, t), close(t));
    var neg := (t: Ticker) => (if Value(rolled, t) < 0 then At(Value(rolled, t), close(t)) else 0.0);
    var pos := (t: Ticker) => At(Value(Positive(rolled), t), close(t));
    hide At;
    forall t | t in all ensures pos(t) == f(t) - neg(t) { NoShares(close(t)); }
    forall t | t in all - Positive(rolled).Keys ensures pos(t) == 0.0 { NoShares(close(t)); }
    hide Positive;
    Sums.Minus(all, f, neg, pos);
    Sums.Restrict(Positive(rolled).Keys, all, pos) by { PositiveKeys(rolled); }
  }

  lemma RolledAt(anchor: map<Ticker, int>, rows: seq<Row>, t: Ticker)
    requires t in Rolled(anchor, NetMap(rows))
    ensures Value(Rolled(anchor, NetMap(rows)), t) == Value(anchor, t) + Net(rows, t)
  {
    if t !in Touched(rows) { NetOutside(rows, t); }
  }

  lemma ValueOfRolled(anchor: map<Ticker, int>, rows: seq<Row>, close: Ticker -> real)
    ensures MarketValue(Rolled(anchor, NetMap(rows)), close) == MarketValue(anchor, close) + RowsValue(rows, close)
  {
    hide Net, Touched, At;
    var rolled := Rolled(anchor, NetMap(rows));
    var all := rolled.Keys;
    var f := (t: Ticker) => At(Value(anchor, t), close(t));
    var h := (t: Ticker) => At(Value(rolled, t), close(t));
    forall t | t in all ensures h(t) == f(t) + NetValue(rows, close)(t) {
      RolledAt(anchor, rows, t);
      Distribute(Value(anchor, t), Net(rows, t), close(t));
    }
    forall t | t in all - anchor.Keys ensures f(t) == 0.0 { NoShares(close(t)); }
    assert anchor.Keys <= all && Touched(rows) <= all;
    hide Rolled, NetMap;
    Sums.Plus(all, f, NetValue(rows, close), h);
    Sums.Restrict(anchor.Keys, all, f);
    RowsValueIsSum(rows, close, all);
  }

  lemma Revalued(book: map<Ticker, int>, before: Ticker -> real, close: Ticker -> real)
    ensures MarketValue(book, close) - MarketValue(book, before)
         == Sums.Sum(book.Keys, (t: Ticker) => At(Value(book, t), close(t) - before(t)))
  {
    hide At;
    var f := (t: Ticker) => At(Value(book, t), close(t));
    var g := (t: Ticker) => At(Value(book, t), before(t));
    var h := (t: Ticker) => At(Value(book, t), close(t) - before(t));
    forall t | t in book.Keys ensures h(t) == f(t) - g(t) {
      DistributeMinus(Value(book, t), close(t), before(t));
    }
    Sums.Minus(book.Keys, f, g, h);
  }

  /** Conservation, for any book and any ledger day: the synthesized NAV moves
      by the prior shares' price change plus what each fill gained by the
      close, less whatever the clip at zero threw away. */
  lemma NavChange(anchor: map<Ticker, int>, rows: seq<Row>, cash: real, before: Ticker -> real, close: Ticker -> real)
    ensures (cash + DayCash(rows) + MarketValue(Positive(Rolled(anchor, NetMap(rows))), close))
            - (cash + MarketValue(anchor, before))
         == Sums.Sum(anchor.Keys, (t: Ticker) => At(Value(anchor, t), close(t) - before(t)))
            + FillGains(rows, close) - Clipped(Rolled(anchor, NetMap(rows)), close)
  {
    ValueOfPositive(Rolled(anchor, NetMap(rows)), close);
    ValueOfRolled(anchor, rows, close);
    Revalued(anchor, before, close);
    GainsSplit(rows, close);
  }

  function PricedGains(rows: seq<Row>, close: Ticker -> real): real {
    if rows == [] then 0.0 else
      var r := rows[|rows| - 1];
      PricedGains(rows[..|rows| - 1], close)
      + (if r.price.Some? then At(Signed(r), close(r.ticker) - r.price.value) else 0.0)
  }

  lemma {:induction false} GainsWhenPriced(rows: seq<Row>, close: Ticker -> real)
    requires forall r :: r in rows && Counted(r) ==> r.price.Some?
    ensures FillGains(rows, close) == PricedGains(rows, close)
  {
    if rows != [] {
      var n := |rows| - 1;
      var r := rows[n];
      assert r in rows;
      assert forall x :: x in rows[..n] ==> x in rows;
      GainsWhenPriced(rows[..n], close);
      if r.price.Some? { DistributeMinus(Signed(r), close(r.ticker), r.price.value); }
    }
  }

  /** With every fill priced and nothing clipped: prior shares times the close
      change, plus signed fills times (close - fill price). */
  lemma NavChangeWhenPriced(anchor: map<Ticker, int>, rows: seq<Row>, cash: real, before: Ticker -> real, close: Ticker -> real)
    requires forall r :: r in rows && Counted(r) ==> r.price.Some?
    requires forall t :: t in anchor.Keys + Touched(rows) ==> Value(anchor, t) + Net(rows, t) >= 0
    ensures (cash + DayCash(rows) + MarketValue(Positive(Rolled(anchor, NetMap(rows))), close))
            - (cash + MarketValue(anchor, before))
         == Sums.Sum(anchor.Keys, (t: Ticker) => At(Value(anchor, t), close(t) - before(t)))
            + PricedGains(rows, close)
  {
    NavChange(anchor, rows, cash, before, close);
    GainsWhenPriced(rows, close);
    var rolled := Rolled(anchor, NetMap(rows));
    forall t | t in rolled.Keys ensures Value(rolled, t) >= 0 {
      if t !in Touched(rows) { NetOutside(rows, t); }
    }
    Sums.Zero(rolled.Keys, (t: Ticker) => (if Value(rolled, t) < 0 then At(Value(rolled, t), close(t)) else 0.0));
  }

  // ---------------------------------------------------------------- the program

  method NetRow(before: map<Ticker, int>, r: Row) returns (net: map<Ticker, int>)
    ensures net == Bumped(before, r)
  {
    net := before;
    var sh := Count(r);
    if sh.Some? {
      var had := if r.ticker in net then net[r.ticker] else 0;
      match r.action {
        case Enter => net := net[r.ticker := had + sh.value];
        case Exit => net := net[r.ticker := had - sh.value];
        case Reduce => net := net[r.ticker := had - sh.value];
        case Other =>
      }
    }
  }

  method NetRows(rows: seq<Row>) returns (net: map<Ticker, int>)
    ensures net == NetMap(rows)
  {
    net := map[];
    assert NetMap(rows[..0]) == map[];
    hide NetMap, Bumped;
    for k := 0 to |rows|
      invariant net == NetMap(rows[..k])
    {
      assert rows[..k + 1] == rows[..k] + [rows[k]];
      NetMapSnoc(rows[..k], rows[k]);
      net := NetRow(net, rows[k]);
    }
    assert rows[..|rows|] == rows;
  }

  method Select(ledger: seq<Row>, date: int) returns (through: seq<Row>, on: seq<Row>)
    ensures through == Through(ledger, date) && on == On(ledger, date)
  {
    through, on := [], [];
    for k := 0 to |ledger|
      invariant through == Through(ledger[..k], date) && on == On(ledger[..k], date)
    {
      assert ledger[..k + 1][..k] == ledger[..k];
      if ledger[k].date <= date { through := through + [ledger[k]]; }
      if ledger[k].date == date { on := on + [ledger[k]]; }
    }
    assert ledger[..|ledger|] == ledger;
  }

  method SynthesizePositions(prior: map<Ticker, Option<int>>, ledger: seq<Row>, date: int)
    returns (book: map<Ticker, int>, fallback: bool)
    ensures (book, fallback) == Synthesized(prior, ledger, date)
  {
    var anchor := Anchor(prior);
    var through, on := Select(ledger, date);
    if anchor == map[] {
      var net := NetRows(through);
      return Positive(net), true;
    }
    var deltas := NetRows(on);
    var held := ApplyDeltas(anchor, deltas);
    return Positive(held), false;
  }

  method ApplyDeltas(anchor: map<Ticker, int>, deltas: map<Ticker, int>) returns (held: map<Ticker, int>)
    ensures held == Rolled(anchor, deltas)
  {
    held := anchor;
    var rest := deltas.Keys;
    while rest != {}
      invariant rest <= deltas.Keys && held.Keys == anchor.Keys + (deltas.Keys - rest)
      invariant forall t :: t in held ==> held[t] == Value(anchor, t) + (if t in rest then 0 else Value(deltas, t))
    {
      var t :| t in rest;
      held := held[t := (if t in held then held[t] else 0) + deltas[t]];
      rest := rest - {t};
    }
  }

  method DayCashFlow(rows: seq<Row>) returns (cash: real)
    ensures cash == DayCash(rows)
  {
    cash := 0.0;
    for k := 0 to |rows|
      invariant cash == DayCash(rows[..k])
    {
      assert rows[..k + 1][..k] == rows[..k];
      var r := rows[k];
      var sh := Count(r);
      if sh.Some? && r.price.Some? {
        var notional := sh.value as real * r.price.value;
        NegatedProduct(sh.value, r.price.value);
        match r.action {
          case Enter => cash := cash - notional;
          case Exit | Reduce => cash := cash + notional;
          case Other =>
        }
      }
    }
    assert rows[..|rows|] == rows;
  }

  lemma NegatedProduct(n: int, p: real)
    ensures 0.0 - (0 - n) as real * p == n as real * p
  {}

  /** One line of the synthesized book. */
  function Line(shares: map<Ticker, int>, closes: map<Ticker, real>, t: Ticker): real {
    At(Value(shares, t), if t in closes then closes[t] else 0.0)
  }

  method SynthesizeNav(shares: map<Ticker, int>, closes: map<Ticker, real>, cash: real) returns (nav: real)
    requires shares.Keys <= closes.Keys
    ensures nav == cash + Sums.Sum(shares.Keys, (t: Ticker) => Line(shares, closes, t))
  {
    ghost var f := (t: Ticker) => Line(shares, closes, t);
    var value := 0.0;
    var rest := shares.Keys;
    while rest != {}
      invariant rest <= shares.Keys
      invariant value + Sums.Sum(rest, f) == Sums.Sum(shares.Keys, f)
    {
      var t :| t in rest;
      LineAt(shares, closes, t);
      value := value + At(shares[t], closes[t]);
      Sums.Pick(rest, f, t);
      rest := rest - {t};
      hide Line;
    }
    nav := cash + value;
  }

  lemma LineAt(shares: map<Ticker, int>, closes: map<Ticker, real>, t: Ticker)
    requires t in shares && t in closes
    ensures Line(shares, closes, t) == At(shares[t], closes[t])
  {}

  /** The lines add up to the market value at any price function that agrees with the closes read. */
  lemma LinesAreMarketValue(shares: map<Ticker, int>, closes: map<Ticker, real>, close: Ticker -> real)
    requires forall t :: t in shares ==> t in closes && closes[t] == close(t)
    ensures Sums.Sum(shares.Keys, (t: Ticker) => Line(shares, closes, t)) == MarketValue(shares, close)
  {
    Sums.Same(shares.Keys, (t: Ticker) => Line(shares, closes, t), (t: Ticker) => At(Value(shares, t), close(t)));
  }

  /** The reconciliation guard on the number of positions. */
  function Diverged(synthesized: int, prior: int): bool {
    var drift := if synthesized >= prior then synthesized - prior else prior - synthesized;
    prior != 0 && drift > 3 && 2 * drift > prior
  }

  /** A halt day is exact: the anchor, unchanged, which never trips the guard. */
  lemma HaltDayIsExact(prior: map<Ticker, Option<int>>, ledger: seq<Row>, date: int)
    requires Anchor(prior) != map[] && Touched(On(ledger, date)) == {}
    ensures Synthesized(prior, ledger, date) == (Anchor(prior), false)
    ensures !Diverged(|Synthesized(prior, ledger, date).0|, |Anchor(prior)|)
  {
    var book := Synthesized(prior, ledger, date).0;
    forall t: Ticker ensures (t in book <==> t in Anchor(prior)) && (t in book ==> book[t] == Anchor(prior)[t]) {
      SynthesizedAt(prior, ledger, date, t);
      NetOutside(On(ledger, date), t);
    }
    assert book == Anchor(prior);
  }

  datatype Outcome =
    | AlreadyWritten
    | NoCashBaseline
    | DivergedFrom(prior: int)
    | MissingCloses
    | RealSnapshotExists
    | Written(book: map<Ticker, int>, nav: real, fallback: bool)

  /** What is on record for the day already. */
  datatype Existing = Existing(row: bool, realSnapshot: bool)

  /** Which refusal, in order; `force` overrides those that only protect. */
  function Refusal(e: Existing, force: bool, cash: Option<real>, book: map<Ticker, int>, anchored: int,
                   closes: map<Ticker, real>): Option<Outcome>
  {
    if e.row && !force then Some(AlreadyWritten)
    else if cash.None? then Some(NoCashBaseline)
    else if Diverged(|book|, anchored) && !force then Some(DivergedFrom(anchored))
    else if !(book.Keys <= closes.Keys) then Some(MissingCloses)
    else if e.realSnapshot && !force then Some(RealSnapshotExists)
    else None
  }

  /** A day is written exactly when nothing refuses it: no row and no real snapshot
      on record and no divergence, unless forced, and always a cash baseline and a
      close for every name. */
  lemma WrittenExactly(e: Existing, force: bool, cash: Option<real>, book: map<Ticker, int>, anchored: int, closes: map<Ticker, real>)
    ensures Refusal(e, force, cash, book, anchored, closes) == None <==>
      && cash.Some? && (forall t :: t in book ==> t in closes)
      && (force || (!e.row && !e.realSnapshot && !Diverged(|book|, anchored)))
    ensures !force && e.row ==> Refusal(e, force, cash, book, anchored, closes) == Some(AlreadyWritten)
    ensures (force || !e.row) && cash.None? ==> Refusal(e, force, cash, book, anchored, closes) == Some(NoCashBaseline)
    ensures !force && !e.row && cash.Some? && Diverged(|book|, anchored) ==>
      Refusal(e, force, cash, book, anchored, closes) == Some(DivergedFrom(anchored))
    ensures (force || (!e.row && !Diverged(|book|, anchored))) && cash.Some? && (exists t :: t in book && t !in closes) ==>
      Refusal(e, force, cash, book, anchored, closes) == Some(MissingCloses)
  {}

  /** The conservation law of an anchored day: whatever the prior closes were. */
  ghost predicate Conserves(anchor: map<Ticker, int>, cash: real, rows: seq<Row>, book: map<Ticker, int>,
                            closes: map<Ticker, real>, nav: real) {
    forall before: Ticker -> real, close: Ticker -> real {:trigger MarketValue(anchor, before), MarketValue(book, close)} ::
      (forall t :: t in book ==> t in closes && closes[t] == close(t)) ==>
      nav - (cash + MarketValue(anchor, before))
      == Sums.Sum(anchor.Keys, (t: Ticker) => At(Value(anchor, t), close(t) - before(t)))
         + FillGains(rows, close) - Clipped(Rolled(anchor, NetMap(rows)), close)
  }

  /** One backfilled day: refused for the first reason that applies; otherwise
      NAV is the rolled cash plus the book at its closes, and on an anchor it
      obeys the conservation law. */
  method BackfillDay(e: Existing, force: bool, prior: map<Ticker, Option<int>>, cash: Option<real>,
                     ledger: seq<Row>, date: int, closes: map<Ticker, real>)
    returns (out: Outcome)
    ensures var (book, fallback) := Synthesized(prior, ledger, date);
      match Refusal(e, force, cash, book, |Anchor(prior)|, closes)
      case Some(refusal) => out == refusal
      case None =>
        && cash.Some? && out.Written? && out.book == book && out.fallback == fallback
        && out.nav == cash.value + DayCash(On(ledger, date)) + Sums.Sum(book.Keys, (t: Ticker) => Line(book, closes, t))
        && (!fallback ==> Conserves(Anchor(prior), cash.value, On(ledger, date), book, closes, out.nav))
  {
    if e.row && !force { return AlreadyWritten; }
    if cash.None? { return NoCashBaseline; }
    var anchor := Anchor(prior);
    var book, fallback := SynthesizePositions(prior, ledger, date);
    if Diverged(|book|, |anchor|) && !force { return DivergedFrom(|anchor|); }
    if !(book.Keys <= closes.Keys) { return MissingCloses; }
    var _, rows := Select(ledger, date);
    var flow := DayCashFlow(rows);
    if e.realSnapshot && !force { return RealSnapshotExists; }
    var nav := SynthesizeNav(book, closes, cash.value + flow);
    if !fallback { AnchoredConserves(prior, cash.value, ledger, date, closes, nav); }
    out := Written(book, nav, fallback);
  }

  lemma AnchoredConserves(prior: map<Ticker, Option<int>>, cash: real, ledger: seq<Row>, date: int,
                          closes: map<Ticker, real>, nav: real)
    requires var book := Synthesized(prior, ledger, date).0;
      && !Synthesized(prior, ledger, date).1 && book.Keys <= closes.Keys
      && nav == cash + DayCash(On(ledger, date)) + Sums.Sum(book.Keys, (t: Ticker) => Line(book, closes, t))
    ensures Conserves(Anchor(prior), cash, On(ledger, date), Synthesized(prior, ledger, date).0, closes, nav)
  {
    RolledConserves(Anchor(prior), On(ledger, date), cash, closes, nav);
  }

  lemma RolledConserves(anchor: map<Ticker, int>, rows: seq<Row>, cash: real, closes: map<Ticker, real>, nav: real)
    requires var book := Positive(Rolled(anchor, NetMap(rows)));
      && book.Keys <= closes.Keys
      && nav == cash + DayCash(rows) + Sums.Sum(book.Keys, (t: Ticker) => Line(book, closes, t))
    ensures Conserves(anchor, cash, rows, Positive(Rolled(anchor, NetMap(rows))), closes, nav)
  {
    hide MarketValue, Clipped, FillGains, NetMap, Rolled, DayCash, Line, At, Positive, Value;
    var book := Positive(Rolled(anchor, NetMap(rows)));
    forall before: Ticker -> real, close: Ticker -> real | forall t :: t in book ==> t in closes && closes[t] == close(t)
      ensures nav - (cash + MarketValue(anchor, before))
           == Sums.Sum(anchor.Keys, (t: Ticker) => At(Value(anchor, t), close(t) - before(t)))
              + FillGains(rows, close) - Clipped(Rolled(anchor, NetMap(rows)), close)
    {
      LinesAreMarketValue(book, closes, close);
      NavChange(anchor, rows, cash, before, close);
    }
  }

  // ---------------------------------------------------------------- which share count is booked

  /** The two rows are the same, but for an ordered count that a fill overrides. */
  predicate SameButOrdered(r: Row, q: Row) {
    && q.date == r.date && q.ticker == r.ticker && q.action == r.action && q.price == r.price && q.filled == r.filled
    && (r.filled.Some? || q.shares == r.shares)
  }

  ghost predicate SameFills(rows: seq<Row>, other: seq<Row>) {
    |other| == |rows| && forall i :: 0 <= i < |rows| ==> SameButOrdered(rows[i], other[i])
  }

  lemma {:induction false} SlicesAgree(rows: seq<Row>, other: seq<Row>, date: int)
    requires SameFills(rows, other)
    ensures SameFills(On(rows, date), On(other, date)) && SameFills(Through(rows, date), Through(other, date))
  {
    if rows != [] {
      var n := |rows| - 1;
      SlicesAgree(rows[..n], other[..n], date);
      assert SameButOrdered(rows[n], other[n]);
      SameFillsSnoc(On(rows[..n], date), On(other[..n], date), rows[n], other[n]);
      SameFillsSnoc(Through(rows[..n], date), Through(other[..n], date), rows[n], other[n]);
      assert On(rows[..n], date) + [] == On(rows[..n], date) && On(other[..n], date) + [] == On(other[..n], date);
      assert Through(rows[..n], date) + [] == Through(rows[..n], date) && Through(other[..n], date) + [] == Through(other[..n], date);
      hide SameFills;
    }
  }

  lemma SameFillsSnoc(rows: seq<Row>, other: seq<Row>, r: Row, q: Row)
    requires SameFills(rows, other) && SameButOrdered(r, q)
    ensures SameFills(rows + [r], other + [q])
  {}

  lemma {:induction false} NetsAgree(rows: seq<Row>, other: seq<Row>, t: Ticker)
    requires SameFills(rows, other)
    ensures Net(other, t) == Net(rows, t) && DayCash(other) == DayCash(rows)
  {
    if rows != [] {
      var n := |rows| - 1;
      NetsAgree(rows[..n], other[..n], t);
      assert SameButOrdered(rows[n], other[n]);
    }
  }

  lemma TouchedAgree(rows: seq<Row>, other: seq<Row>)
    requires SameFills(rows, other)
    ensures Touched(other) == Touched(rows)
  {
    forall t | t in Touched(rows) ensures t in Touched(other) {
      var i :| 0 <= i < |rows| && Counted(rows[i]) && rows[i].ticker == t;
      assert SameButOrdered(rows[i], other[i]) && other[i] in other;
    }
    forall t | t in Touched(other) ensures t in Touched(rows) {
      var i :| 0 <= i < |other| && Counted(other[i]) && other[i].ticker == t;
      assert SameButOrdered(rows[i], other[i]) && rows[i] in rows;
    }
  }

  lemma NetMapsAgree(rows: seq<Row>, other: seq<Row>)
    requires SameFills(rows, other)
    ensures NetMap(other) == NetMap(rows)
  {
    TouchedAgree(rows, other);
    forall t: Ticker ensures Net(other, t) == Net(rows, t) { NetsAgree(rows, other, t); }
    hide Net, Touched;
  }

  /** Where a fill is on record, the ordered count changes neither the book nor the day's cash. */
  lemma OrderedCountIgnored(prior: map<Ticker, Option<int>>, ledger: seq<Row>, other: seq<Row>, date: int)
    requires SameFills(ledger, other)
    ensures Synthesized(prior, other, date) == Synthesized(prior, ledger, date)
    ensures DayCash(On(other, date)) == DayCash(On(ledger, date))
  {
    SlicesAgree(ledger, other, date);
    NetMapsAgree(On(ledger, date), On(other, date));
    NetMapsAgree(Through(ledger, date), Through(other, date));
    NetsAgree(On(ledger, date), On(other, date), "");
    hide On, Through, NetMap, SameFills;
  }

  /** Filled buys less filled sells of a name, by the filled counts alone. */
  function FilledNet(rows: seq<Row>, t: Ticker): int {
    if rows == [] then 0 else
      var r := rows[|rows| - 1];
      FilledNet(rows[..|rows| - 1], t)
      + (if r.ticker != t || r.filled.None? then 0
         else match r.action
              case Enter => r.filled.value
              case Exit | Reduce => 0 - r.filled.value
              case Other => 0)
  }

  /** Sales less purchases at the filled counts alone. */
  function FilledCash(rows: seq<Row>): real {
    if rows == [] then 0.0 else
      var r := rows[|rows| - 1];
      FilledCash(rows[..|rows| - 1])
      + (if r.price.None? || r.filled.None? then 0.0
         else match r.action
              case Enter => 0.0 - At(r.filled.value, r.price.value)
              case Exit | Reduce => At(r.filled.value, r.price.value)
              case Other => 0.0)
  }

  lemma {:induction false} NetIsFilled(rows: seq<Row>, t: Ticker)
    requires forall r :: r in rows && r.ticker == t ==> r.filled.Some?
    ensures Net(rows, t) == FilledNet(rows, t)
  {
    if rows != [] {
      var n := |rows| - 1;
      assert rows[n] in rows && forall r :: r in rows[..n] ==> r in rows;
      NetIsFilled(rows[..n], t);
    }
  }

  lemma {:induction false} CashIsFilled(rows: seq<Row>)
    requires forall r :: r in rows ==> r.filled.Some?
    ensures DayCash(rows) == FilledCash(rows)
  {
    if rows != [] {
      var n := |rows| - 1;
      assert rows[n] in rows && forall r :: r in rows[..n] ==> r in rows;
      CashIsFilled(rows[..n]);
      if rows[n].price.Some? { NegatedProduct(rows[n].filled.value, rows[n].price.value); }
    }
  }

  /** A name whose day rows are all filled ends at its positive prior count plus its
      filled buys less its filled sells, and is held only if that is positive. */
  lemma AnchoredBookIsFills(prior: map<Ticker, Option<int>>, ledger: seq<Row>, date: int, t: Ticker)
    requires exists u :: u in prior && prior[u].Some? && prior[u].value > 0
    requires forall r :: r in ledger && r.date == date && r.ticker == t ==> r.filled.Some?
    ensures var had := if t in prior && prior[t].Some? && prior[t].value > 0 then prior[t].value else 0;
      var (book, fallback) := Synthesized(prior, ledger, date);
      var n := had + FilledNet(On(ledger, date), t);
      !fallback && (t in book <==> n > 0) && (t in book ==> book[t] == n)
  {
    var u :| u in prior && prior[u].Some? && prior[u].value > 0;
    assert u in Anchor(prior);
    OnIsThatDay(ledger, date);
    NetIsFilled(On(ledger, date), t);
    SynthesizedAt(prior, ledger, date, t);
    hide Synthesized, Net, On;
  }

  /** The day's slice holds exactly the rows of that date. */
  lemma {:induction false} OnIsThatDay(ledger: seq<Row>, date: int)
    ensures forall r :: r in On(ledger, date) <==> r in ledger && r.date == date
  {
    if ledger != [] {
      var n := |ledger| - 1;
      OnIsThatDay(ledger[..n], date);
      assert ledger == ledger[..n] + [ledger[n]];
    }
  }

  /** A partial fill of 60 out of 100 at 10, on one share held: 61 shares and 600 out. */
  lemma PartialFillBooksTheFill()
    ensures var prior, ledger := map["A" := Some(1)], [Row(2, "A", Enter, Some(60), Some(100), Some(10.0))];
      "A" in Synthesized(prior, ledger, 2).0 && Synthesized(prior, ledger, 2).0["A"] == 61
      && DayCash(On(ledger, 2)) == -600.0
  {
    var r := Row(2, "A", Enter, Some(60), Some(100), Some(10.0));
    var prior := map["A" := Some(1)];
    assert [r][..0] == [] && On([r], 2) == [r];
    assert FilledNet([r], "A") == 60;
    assert FilledCash([r]) == -600.0;
    assert "A" in prior && prior["A"].Some? && prior["A"].value > 0;
    AnchoredBookIsFills(prior, [r], 2, "A");
    CashIsFilled([r]);
  }

  /** The replay that collapsed 20 positions to 7 is refused; a change of up to three
      names, or of up to half of them, is not. */
  lemma DivergenceIsRefused()
    ensures Diverged(7, 20) && Diverged(20, 7) && Diverged(4, 0) == false
    ensures forall n: nat, m: nat :: (n <= m + 3 && m <= n + 3) ==> !Diverged(n, m)
    ensures forall n: nat, m: nat :: m <= 2 * n && 2 * n <= 3 * m ==> !Diverged(n, m)
    ensures forall n: nat, m: nat :: m > 0 && n > m + 3 && 2 * n > 3 * m ==> Diverged(n, m)
    ensures forall n: nat, m: nat :: m > n + 3 && m > 2 * n ==> Diverged(n, m)
  {}

  // ---------------------------------------------------------------- a ledger that disagrees

  /** B is oversold by 10 on day 1 and bought back 5 on day 2: the anchored book
      holds 5 shares of B that the replay does not. */
  lemma OversoldNameDisagrees()
    ensures var ledger := [Row(1, "A", Enter, Some(5), None, None), Row(1, "B", Exit, Some(10), None, None),
                           Row(2, "B", Enter, Some(5), None, None)];
      Synthesized(Snapshot(Replay(ledger, 1)), ledger, 2).0 != Replay(ledger, 2)
  {
    var a, b, c := Row(1, "A", Enter, Some(5), None, None), Row(1, "B", Exit, Some(10), None, None), Row(2, "B", Enter, Some(5), None, None);
    var ledger := [a, b, c];
    assert Through([a], 1) == [a] by { assert [a][..0] == []; }
    assert Through([a, b], 1) == [a, b] by { assert [a, b][..1] == [a]; }
    assert Through(ledger, 1) == [a, b] by { assert ledger[..2] == [a, b]; }
    assert On([a], 2) == [] by { assert [a][..0] == []; }
    assert On([a, b], 2) == [] by { assert [a, b][..1] == [a]; }
    assert On(ledger, 2) == [c] by { assert ledger[..2] == [a, b]; }
    NetSnoc([], a, "A");
    NetSnoc([], a, "B");
    NetSnoc([a], b, "A");
    NetSnoc([a], b, "B");
    NetSnoc([], c, "B");
    assert [] + [a] == [a] && [a] + [b] == [a, b] && [] + [c] == [c];
    ReplayAt(ledger, 1, "A");
    AnchoredIsReplayExactly(ledger, 1, 2);
    assert Net(Through(ledger, 1), "B") == -10 && Net(On(ledger, 2), "B") == 5;
  }
}
