/**
 Ex-date dividend accrual: which vendor events belong to a run, what they add
 up to over consecutive runs, and how the held positions are credited.
 Dates are day numbers.
 */
module ExDividends {
  import opened Options
  import Sums

  type Ticker = string

  datatype Event = Event(ticker: Ticker, exDate: Option<int>, amount: Option<real>, pay: Option<int>)

  // ---------------------------------------------------------------- the window

  /** (after, through]; with no prior run, the run date alone. */
  predicate InInterval(ex: int, after: Option<int>, through: int) {
    ex <= through && (if after.None? then ex == through else ex > after.value)
  }

  predicate Counts(ev: Event, after: Option<int>, through: int) {
    && ev.exDate.Some? && ev.amount.Some? && ev.amount.value > 0.0
    && InInterval(ev.exDate.value, after, through)
  }

  /** What the run accrues per share of `t`. */
  function PerShare(events: seq<Event>, t: Ticker, after: Option<int>, through: int): real {
    if events == [] then 0.0 else
      var ev := events[|events| - 1];
      PerShare(events[..|events| - 1], t, after, through)
      + (if ev.ticker == t && Counts(ev, after, through) then ev.amount.value else 0.0)
  }

  predicate Paying(events: seq<Event>, t: Ticker, after: Option<int>, through: int) {
    exists k :: 0 <= k < |events| && events[k].ticker == t && Counts(events[k], after, through)
  }

  /** The latest known pay date among the run's events of `t`. */
  function LatestPay(events: seq<Event>, t: Ticker, after: Option<int>, through: int): Option<int> {
    if events == [] then None else
      var ev := events[|events| - 1];
      var earlier := LatestPay(events[..|events| - 1], t, after, through);
      if ev.ticker != t || !Counts(ev, after, through) || ev.pay.None? then earlier
      else if earlier.None? || ev.pay.value > earlier.value then ev.pay else earlier
  }

  /** `LatestPay` is a maximum: it is one of the events' pay dates and none is later. */
  lemma {:induction false} LatestPayIsLatest(events: seq<Event>, t: Ticker, after: Option<int>, through: int)
    ensures var p := LatestPay(events, t, after, through);
      && (forall ev :: ev in events && ev.ticker == t && Counts(ev, after, through) && ev.pay.Some?
            ==> p.Some? && ev.pay.value <= p.value)
      && (p.Some? ==> exists ev :: ev in events && ev.ticker == t && Counts(ev, after, through) && ev.pay == p)
  {
    if events != [] {
      var n := |events| - 1;
      LatestPayIsLatest(events[..n], t, after, through);
      assert events == events[..n] + [events[n]];
    }
  }

  // ---------------------------------------------------------------- the fold

  datatype Accrual = Accrual(perShare: map<Ticker, real>, payDates: map<Ticker, Option<int>>)

  /** The two maps hold what the events so far say about `t`. */
  ghost predicate FoldedAt(a: Accrual, events: seq<Event>, held: set<Ticker>, after: Option<int>, through: int, t: Ticker) {
    && (t in a.perShare <==> t in held && Paying(events, t, after, through))
    && (t in a.payDates <==> t in a.perShare)
    && (t in a.perShare ==> a.perShare[t] == PerShare(events, t, after, through))
    && (t in a.payDates ==> a.payDates[t] == LatestPay(events, t, after, through))
  }

  ghost predicate Folded(a: Accrual, events: seq<Event>, held: set<Ticker>, after: Option<int>, through: int) {
    forall t: Ticker :: FoldedAt(a, events, held, after, through, t)
  }

  lemma PayingSnoc(events: seq<Event>, k: nat, t: Ticker, after: Option<int>, through: int)
    requires k < |events|
    ensures Paying(events[..k + 1], t, after, through)
       <==> Paying(events[..k], t, after, through) || (events[k].ticker == t && Counts(events[k], after, through))
  {
    assert events[..k + 1][k] == events[k];
    if Paying(events[..k], t, after, through) {
      var j :| 0 <= j < k && events[..k][j].ticker == t && Counts(events[..k][j], after, through);
      assert events[..k + 1][j] == events[..k][j];
    }
    if Paying(events[..k + 1], t, after, through) {
      var j :| 0 <= j < k + 1 && events[..k + 1][j].ticker == t && Counts(events[..k + 1][j], after, through);
      assert j < k ==> events[..k][j] == events[..k + 1][j];
    }
  }

  lemma {:induction false} NothingPaid(events: seq<Event>, t: Ticker, after: Option<int>, through: int)
    requires !Paying(events, t, after, through)
    ensures PerShare(events, t, after, through) == 0.0 && LatestPay(events, t, after, through) == None
  {
    if events != [] {
      var n := |events| - 1;
      PayingSnoc(events, n, t, after, through);
      assert events[..n + 1] == events;
      NothingPaid(events[..n], t, after, through);
    }
  }

  /** One event, added to the two maps. */
  function Noted(a: Accrual, ev: Event): Accrual
    requires ev.amount.Some?
  {
    var total := if ev.ticker in a.perShare then a.perShare[ev.ticker] else 0.0;
    var had := if ev.ticker in a.payDates then a.payDates[ev.ticker] else None;
    var later := ev.pay.Some? && (had.None? || ev.pay.value > had.value);
    Accrual(a.perShare[ev.ticker := total + ev.amount.value], a.payDates[ev.ticker := if later then ev.pay else had])
  }

  lemma PrefixSteps(events: seq<Event>, k: nat, t: Ticker, after: Option<int>, through: int)
    requires k < |events|
    ensures var ev := events[k];
      var hit := ev.ticker == t && Counts(ev, after, through);
      var earlier := LatestPay(events[..k], t, after, through);
      && PerShare(events[..k + 1], t, after, through)
         == PerShare(events[..k], t, after, through) + (if hit then ev.amount.value else 0.0)
      && LatestPay(events[..k + 1], t, after, through)
         == if hit && ev.pay.Some? && (earlier.None? || ev.pay.value > earlier.value) then ev.pay else earlier
  {
    assert events[..k + 1][..k] == events[..k];
  }

  lemma FoldStep(a: Accrual, events: seq<Event>, k: nat, held: set<Ticker>, after: Option<int>, through: int, t: Ticker)
    requires k < |events| && FoldedAt(a, events[..k], held, after, through, t)
    ensures var counted := events[k].ticker in held && Counts(events[k], after, through);
      FoldedAt(if counted then Noted(a, events[k]) else a, events[..k + 1], held, after, through, t)
  {
    PayingSnoc(events, k, t, after, through);
    PrefixSteps(events, k, t, after, through);
    if !Paying(events[..k], t, after, through) { NothingPaid(events[..k], t, after, through); }
    hide Paying, PerShare, LatestPay;
  }

  const SPY: Ticker := "SPY"

  /** One window query answers for the whole book and the benchmark, or for
      nobody: when it fails nothing is established and the run says so. */
  method FetchExDividends(reply: Option<seq<Event>>, tickers: set<Ticker>, after: Option<int>, through: int)
    returns (a: Accrual, available: bool)
    ensures available <==> reply.Some?
    ensures if reply.Some? then Folded(a, reply.value, tickers + {SPY}, after, through) else a == Accrual(map[], map[])
    ensures Positive(a.perShare)
  {
    a := Accrual(map[], map[]);
    if reply.None? { return a, false; }
    var events, held := reply.value, tickers + {SPY};
    for k := 0 to |events|
      invariant Folded(a, events[..k], held, after, through) && Positive(a.perShare)
    {
      var ev := events[k];
      ghost var before := a;
      if ev.ticker in held && Counts(ev, after, through) {
        var total := if ev.ticker in a.perShare then a.perShare[ev.ticker] else 0.0;
        var had := if ev.ticker in a.payDates then a.payDates[ev.ticker] else None;
        var later := ev.pay.Some? && (had.None? || ev.pay.value > had.value);
        a := Accrual(a.perShare[ev.ticker := total + ev.amount.value],
                     a.payDates[ev.ticker := if later then ev.pay else had]);
      }
      ghost var seen := events[..k + 1];
      forall t: Ticker ensures FoldedAt(a, seen, held, after, through, t) {
        assert FoldedAt(before, events[..k], held, after, through, t);
        FoldStep(before, events, k, held, after, through, t);
      }
    }
    assert events[..|events|] == events;
    available := true;
  }

  // ---------------------------------------------------------------- consecutive runs

  /** What the vendor returns for an inclusive window over all its events. */
  function WindowQuery(all: seq<Event>, from: int, to: int): seq<Event> {
    if all == [] then [] else
      var ev := all[|all| - 1];
      WindowQuery(all[..|all| - 1], from, to)
      + (if ev.exDate.Some? && from <= ev.exDate.value <= to then [ev] else [])
  }

  /** A dividend counts when it is dated and positive, and goes ex after the prior
      run and no later than this one; on a first run, on that very day. */
  lemma CountsExactly(ev: Event, after: Option<int>, through: int)
    ensures Counts(ev, after, through) <==>
      && ev.exDate.Some? && ev.amount.Some? && ev.amount.value > 0.0
      && (if after.Some? then after.value < ev.exDate.value <= through else ev.exDate.value == through)
  {}

  /** The vendor's window holds every event dated in it, both ends included. */
  lemma {:induction false} WindowIsInclusive(all: seq<Event>, from: int, to: int, ev: Event)
    ensures ev in WindowQuery(all, from, to) <==> ev in all && ev.exDate.Some? && from <= ev.exDate.value <= to
  {
    if all != [] {
      WindowIsInclusive(all[..|all| - 1], from, to, ev);
      assert all == all[..|all| - 1] + [all[|all| - 1]];
    }
  }

  function RunPerShare(all: seq<Event>, t: Ticker, prior: int, run: int): real {
    PerShare(WindowQuery(all, prior, run), t, Some(prior), run)
  }

  lemma PerShareSnoc(events: seq<Event>, ev: Event, t: Ticker, after: Option<int>, through: int)
    ensures PerShare(events + [ev], t, after, through) == PerShare(events, t, after, through)
            + (if ev.ticker == t && Counts(ev, after, through) then ev.amount.value else 0.0)
  {
    assert (events + [ev])[..|events|] == events;
  }

  /** The inclusive vendor window loses nothing and the local edge drops the extra day. */
  lemma {:induction false} QueryIsEnough(all: seq<Event>, t: Ticker, prior: int, run: int)
    ensures RunPerShare(all, t, prior, run) == PerShare(all, t, Some(prior), run)
  {
    if all != [] {
      var n := |all| - 1;
      var ev, rest := all[n], WindowQuery(all[..n], prior, run);
      QueryIsEnough(all[..n], t, prior, run);
      PerShareSnoc(rest, ev, t, Some(prior), run);
      assert rest + [] == rest;
    }
  }

  lemma {:induction false} AdjacentRunsAdd(all: seq<Event>, t: Ticker, a: int, b: int, c: int)
    requires a <= b <= c
    ensures PerShare(all, t, Some(a), b) + PerShare(all, t, Some(b), c) == PerShare(all, t, Some(a), c)
  {
    if all != [] { AdjacentRunsAdd(all[..|all| - 1], t, a, b, c); }
  }

  ghost predicate Increasing(days: seq<int>) {
    forall i, j :: 0 <= i < j < |days| ==> days[i] < days[j]
  }

  function RunsTotal(all: seq<Event>, t: Ticker, days: seq<int>): real {
    if |days| <= 1 then 0.0 else
      var n := |days| - 1;
      RunsTotal(all, t, days[..n]) + RunPerShare(all, t, days[n - 1], days[n])
  }

  /** Over any increasing run dates, each run starting where the last one
      ended, the per-share totals add up to the dividends of the whole span. */
  lemma {:induction false} RunsAddUp(all: seq<Event>, t: Ticker, days: seq<int>)
    requires Increasing(days) && days != []
    ensures RunsTotal(all, t, days) == PerShare(all, t, Some(days[0]), days[|days| - 1])
  {
    var n := |days| - 1;
    if n == 0 {
      EmptySpan(all, t, days[0]);
    } else {
      RunsAddUp(all, t, days[..n]);
      QueryIsEnough(all, t, days[n - 1], days[n]);
      AdjacentRunsAdd(all, t, days[0], days[n - 1], days[n]);
    }
  }

  lemma {:induction false} EmptySpan(all: seq<Event>, t: Ticker, d: int)
    ensures PerShare(all, t, Some(d), d) == 0.0
  {
    if all != [] { EmptySpan(all[..|all| - 1], t, d); }
  }

  /** A dividend going ex in the span belongs to exactly one run. */
  lemma {:induction false} CountedOnce(ev: Event, days: seq<int>) returns (i: nat)
    requires Increasing(days) && days != [] && Counts(ev, Some(days[0]), days[|days| - 1])
    ensures 0 < i < |days| && Counts(ev, Some(days[i - 1]), days[i])
    ensures forall j :: 0 < j < |days| && Counts(ev, Some(days[j - 1]), days[j]) ==> j == i
  {
    var n := |days| - 1;
    if ev.exDate.value > days[n - 1] {
      i := n;
    } else {
      i := CountedOnce(ev, days[..n]);
    }
  }

  // ---------------------------------------------------------------- crediting positions

  datatype Position = Position(shares: real, dividend: real, dailyReturn: real,
                               priorPrice: Option<real>, dailyPct: Option<real>)

  datatype Record = Record(ticker: Ticker, perShare: real, shares: real, amount: real)

  /** Entitlement: yesterday's shares, or today's when there is no prior snapshot. */
  function EntitledShares(t: Ticker, p: Position, prior: map<Ticker, real>): real {
    if t in prior then prior[t] else p.shares
  }

  predicate Credits(t: Ticker, p: Position, prior: map<Ticker, real>, perShare: map<Ticker, real>) {
    && t in perShare && perShare[t] != 0.0
    && p.dividend == 0.0
    && EntitledShares(t, p, prior) > 0.0
  }

  function Amount(t: Ticker, p: Position, prior: map<Ticker, real>, perShare: map<Ticker, real>): real {
    if Credits(t, p, prior, perShare) then perShare[t] * EntitledShares(t, p, prior) else 0.0
  }

  function Credited(t: Ticker, p: Position, prior: map<Ticker, real>, perShare: map<Ticker, real>): Position {
    if !Credits(t, p, prior, perShare) then p else
      var amount := Amount(t, p, prior, perShare);
      var gain := p.dailyReturn + amount;
      var base := PriorValue(p, EntitledShares(t, p, prior));
      p.(dividend := p.dividend + amount, dailyReturn := gain,
         dailyPct := if base != 0.0 then Some(Percent(gain, base)) else p.dailyPct)
  }

  function PriorValue(p: Position, shares: real): real {
    if p.priorPrice.Some? then p.priorPrice.value * shares else 0.0
  }

  function Percent(gain: real, base: real): real
    requires base != 0.0
  {
    gain / base * 100.0
  }

  function CreditAll(positions: map<Ticker, Position>, prior: map<Ticker, real>, perShare: map<Ticker, real>): map<Ticker, Position> {
    map t | t in positions :: Credited(t, positions[t], prior, perShare)
  }

  /** Crediting writes the dollars on the position, adds them to its return, and
      restates the return on yesterday's value of the entitled shares. */
  lemma CreditWrites(t: Ticker, p: Position, prior: map<Ticker, real>, perShare: map<Ticker, real>)
    requires Credits(t, p, prior, perShare)
    ensures var q, amount := Credited(t, p, prior, perShare), perShare[t] * EntitledShares(t, p, prior);
      && q.shares == p.shares && q.dividend == amount && q.dailyReturn == p.dailyReturn + amount
      && (p.priorPrice.Some? && p.priorPrice.value * EntitledShares(t, p, prior) != 0.0 ==>
            q.dailyPct.Some?
            && q.dailyPct.value * (p.priorPrice.value * EntitledShares(t, p, prior)) == q.dailyReturn * 100.0)
      && (p.priorPrice.None? ==> q.dailyPct == p.dailyPct)
  {
    var base := PriorValue(p, EntitledShares(t, p, prior));
    if base != 0.0 { PercentIs(p.dailyReturn + Amount(t, p, prior, perShare), base); }
  }

  lemma PercentIs(gain: real, base: real)
    requires base != 0.0
    ensures Percent(gain, base) * base == gain * 100.0
  {
    var q := gain / base;
    assert q * base == gain;
  }

  lemma NonZeroProduct(a: real, b: real)
    requires a != 0.0 && b > 0.0
    ensures a * b != 0.0
  {}

  /** Crediting twice is crediting once. */
  lemma CreditIsIdempotent(positions: map<Ticker, Position>, prior: map<Ticker, real>, perShare: map<Ticker, real>)
    ensures CreditAll(CreditAll(positions, prior, perShare), prior, perShare) == CreditAll(positions, prior, perShare)
  {
    forall t | t in positions
      ensures Credited(t, Credited(t, positions[t], prior, perShare), prior, perShare) == Credited(t, positions[t], prior, perShare)
    {
      if Credits(t, positions[t], prior, perShare) {
        NonZeroProduct(perShare[t], EntitledShares(t, positions[t], prior));
      }
    }
  }

  ghost function Returns(positions: map<Ticker, Position>): real {
    Sums.Sum(positions.Keys, (t: Ticker) => if t in positions then positions[t].dailyReturn else 0.0)
  }

  ghost function Accrued(positions: map<Ticker, Position>, prior: map<Ticker, real>, perShare: map<Ticker, real>): real {
    Sums.Sum(positions.Keys, (t: Ticker) => if t in positions then Amount(t, positions[t], prior, perShare) else 0.0)
  }

  /** Every accrued dollar, and nothing else, enters position returns. */
  lemma CreditConserves(positions: map<Ticker, Position>, prior: map<Ticker, real>, perShare: map<Ticker, real>)
    ensures Returns(CreditAll(positions, prior, perShare)) == Returns(positions) + Accrued(positions, prior, perShare)
  {
    var after := CreditAll(positions, prior, perShare);
    var f := (t: Ticker) => if t in positions then positions[t].dailyReturn else 0.0;
    var g := (t: Ticker) => if t in positions then Amount(t, positions[t], prior, perShare) else 0.0;
    var h := (t: Ticker) => if t in after then after[t].dailyReturn else 0.0;
    assert after.Keys == positions.Keys;
    Sums.Plus(positions.Keys, f, g, h);
  }

  // ---------------------------------------------------------------- who is entitled

  /** What yesterday's holding of `t` earns when it goes ex. */
  function Due(t: Ticker, prior: map<Ticker, real>, perShare: map<Ticker, real>): real {
    if t in prior && prior[t] > 0.0 && t in perShare then perShare[t] * prior[t] else 0.0
  }

  function AmountAt(positions: map<Ticker, Position>, prior: map<Ticker, real>, perShare: map<Ticker, real>, t: Ticker): real {
    if t in positions then Amount(t, positions[t], prior, perShare) else 0.0
  }

  ghost function Entitled(prior: map<Ticker, real>, perShare: map<Ticker, real>): real {
    Sums.Sum(prior.Keys, (t: Ticker) => Due(t, prior, perShare))
  }

  /** Entitled yesterday and gone today: sold before or on the ex-date. */
  predicate SoldAway(positions: map<Ticker, Position>, prior: map<Ticker, real>, perShare: map<Ticker, real>, t: Ticker) {
    t !in positions && t in prior && prior[t] > 0.0 && t in perShare
  }

  /** Entitled, still held, and already credited by the broker's own feed. */
  predicate AlreadyCredited(positions: map<Ticker, Position>, prior: map<Ticker, real>, perShare: map<Ticker, real>, t: Ticker) {
    t in positions && positions[t].dividend != 0.0 && t in prior && prior[t] > 0.0 && t in perShare
  }

  /** Not held yesterday, held today, and credited on today's shares. */
  predicate BoughtToday(positions: map<Ticker, Position>, prior: map<Ticker, real>, perShare: map<Ticker, real>, t: Ticker) {
    t in positions && t !in prior && Credits(t, positions[t], prior, perShare)
  }

  /** What the vendor fold delivers: only positive amounts. */
  ghost predicate Positive(perShare: map<Ticker, real>) { forall t :: t in perShare ==> perShare[t] > 0.0 }

  lemma PositiveProduct(a: real, b: real)
    requires a > 0.0 && b > 0.0
    ensures a * b > 0.0
  {}

  /** Name by name the accrual is the entitlement exactly when the name was not
      sold away, not already credited and not bought today. */
  lemma AccruesWhatIsDueExactly(positions: map<Ticker, Position>, prior: map<Ticker, real>, perShare: map<Ticker, real>, t: Ticker)
    requires Positive(perShare)
    ensures AmountAt(positions, prior, perShare, t) == Due(t, prior, perShare)
       <==> (!SoldAway(positions, prior, perShare, t) && !AlreadyCredited(positions, prior, perShare, t)
             && !BoughtToday(positions, prior, perShare, t))
    ensures SoldAway(positions, prior, perShare, t) || AlreadyCredited(positions, prior, perShare, t) ==>
      AmountAt(positions, prior, perShare, t) == 0.0 < Due(t, prior, perShare)
    ensures BoughtToday(positions, prior, perShare, t) ==>
      Due(t, prior, perShare) == 0.0 < AmountAt(positions, prior, perShare, t)
  {
    if t in perShare {
      if t in prior && prior[t] > 0.0 { PositiveProduct(perShare[t], prior[t]); }
      if t in positions && t !in prior && positions[t].shares > 0.0 { PositiveProduct(perShare[t], positions[t].shares); }
    }
  }

  function Shortfall(positions: map<Ticker, Position>, prior: map<Ticker, real>, perShare: map<Ticker, real>, t: Ticker): real {
    Due(t, prior, perShare) - AmountAt(positions, prior, perShare, t)
  }

  /** Entitlement less accrual is the sum of the shortfalls, name by name. */
  lemma EntitlementIdentity(positions: map<Ticker, Position>, prior: map<Ticker, real>, perShare: map<Ticker, real>)
    ensures Entitled(prior, perShare) - Accrued(positions, prior, perShare)
         == Sums.Sum(prior.Keys + positions.Keys, (t: Ticker) => Shortfall(positions, prior, perShare, t))
  {
    var all := prior.Keys + positions.Keys;
    var due := (t: Ticker) => Due(t, prior, perShare);
    var got := (t: Ticker) => AmountAt(positions, prior, perShare, t);
    Sums.Restrict(prior.Keys, all, due);
    Sums.Restrict(positions.Keys, all, got);
    Sums.Same(positions.Keys, got, (t: Ticker) => if t in positions then Amount(t, positions[t], prior, perShare) else 0.0);
    Sums.Minus(all, due, got, (t: Ticker) => Shortfall(positions, prior, perShare, t));
  }

  /** What the run credits to names nobody held yesterday. */
  ghost function Windfall(positions: map<Ticker, Position>, prior: map<Ticker, real>, perShare: map<Ticker, real>): real {
    Sums.Sum(prior.Keys + positions.Keys,
             (t: Ticker) => if BoughtToday(positions, prior, perShare, t) then AmountAt(positions, prior, perShare, t) else 0.0)
  }

  /** Windfall aside, the run accrues what the book is entitled to exactly when
      every prior holder of a paying name is still held and not credited already. */
  lemma AccruedIsEntitledExactly(positions: map<Ticker, Position>, prior: map<Ticker, real>, perShare: map<Ticker, real>)
    requires Positive(perShare)
    ensures Accrued(positions, prior, perShare) - Windfall(positions, prior, perShare) == Entitled(prior, perShare)
       <==> forall t: Ticker :: !SoldAway(positions, prior, perShare, t) && !AlreadyCredited(positions, prior, perShare, t)
  {
    var all := prior.Keys + positions.Keys;
    var f := (t: Ticker) => Shortfall(positions, prior, perShare, t);
    var w := (t: Ticker) => if BoughtToday(positions, prior, perShare, t) then AmountAt(positions, prior, perShare, t) else 0.0;
    var g := (t: Ticker) => f(t) + w(t);
    EntitlementIdentity(positions, prior, perShare);
    Sums.Plus(all, f, w, g);
    forall t: Ticker
      ensures g(t) >= 0.0
      ensures g(t) > 0.0 <==> SoldAway(positions, prior, perShare, t) || AlreadyCredited(positions, prior, perShare, t)
    {
      AccruesWhatIsDueExactly(positions, prior, perShare, t);
    }
    if t: Ticker :| SoldAway(positions, prior, perShare, t) || AlreadyCredited(positions, prior, perShare, t) {
      assert t in all && g(t) > 0.0;
      Sums.Positive(all, g, t);
    } else {
      Sums.Zero(all, g);
    }
  }

  /** The run only asks about today's names; asking about every paying name would
      credit no more, so what it misses is never in the answer's scope. */
  lemma AskingMoreCreditsNoMore(positions: map<Ticker, Position>, prior: map<Ticker, real>,
                                fetched: map<Ticker, real>, paying: map<Ticker, real>)
    requires forall t :: t in positions ==> (t in fetched <==> t in paying) && (t in paying ==> fetched[t] == paying[t])
    ensures CreditAll(positions, prior, fetched) == CreditAll(positions, prior, paying)
    ensures Accrued(positions, prior, fetched) == Accrued(positions, prior, paying)
  {
    var f := (t: Ticker) => if t in positions then Amount(t, positions[t], prior, fetched) else 0.0;
    var g := (t: Ticker) => if t in positions then Amount(t, positions[t], prior, paying) else 0.0;
    Sums.Same(positions.Keys, f, g);
  }

  /** A name sold on its ex-date: entitled to 50, credited nothing. */
  lemma SoldOnExDateEarnsNothing()
    ensures var prior, perShare := map["KO" := 100.0], map["KO" := 0.5];
      SoldAway(map[], prior, perShare, "KO") && Accrued(map[], prior, perShare) == 0.0 && Entitled(prior, perShare) == 50.0
  {
    var prior, perShare := map["KO" := 100.0], map["KO" := 0.5];
    Sums.Pick({"KO"}, (t: Ticker) => Due(t, prior, perShare), "KO");
    assert {"KO"} - {"KO"} == {} && prior.Keys == {"KO"};
  }

  /** A name bought on its ex-date: entitled to nothing, credited 50. */
  lemma BoughtOnExDateEarns()
    ensures var p := Position(100.0, 0.0, 0.0, None, None);
      var positions, perShare := map["KO" := p], map["KO" := 0.5];
      BoughtToday(positions, map[], perShare, "KO") && Accrued(positions, map[], perShare) == 50.0 && Entitled(map[], perShare) == 0.0
  {
    var p := Position(100.0, 0.0, 0.0, None, None);
    var positions, perShare := map["KO" := p], map["KO" := 0.5];
    var f := (t: Ticker) => if t in positions then Amount(t, positions[t], map[], perShare) else 0.0;
    Sums.Pick({"KO"}, f, "KO");
    assert {"KO"} - {"KO"} == {} && positions.Keys == {"KO"};
  }

  // ---------------------------------------------------------------- the program

  function Paid(records: seq<Record>): real {
    if records == [] then 0.0 else Paid(records[..|records| - 1]) + records[|records| - 1].amount
  }

  /** Mutates the positions and returns one record per credited name; the
      records pay out exactly what was accrued. */
  method AccruePositionDividends(positions: map<Ticker, Position>, prior: map<Ticker, real>, perShare: map<Ticker, real>)
    returns (after: map<Ticker, Position>, records: seq<Record>)
    ensures after == CreditAll(positions, prior, perShare)
    ensures Paid(records) == Accrued(positions, prior, perShare)
    ensures forall r :: r in records ==> r.ticker in positions && r.shares > 0.0
  {
    after, records := positions, [];
    var rest := positions.Keys;
    assert PartlyPaid(positions, prior, perShare, rest, records) && PartlyCredited(positions, prior, perShare, rest, after);
    hide Credited, Amount, PartlyPaid, PartlyCredited;
    while rest != {}
      invariant rest <= positions.Keys
      invariant PartlyCredited(positions, prior, perShare, rest, after)
      invariant PartlyPaid(positions, prior, perShare, rest, records)
    {
      var t :| t in rest;
      var p, record := CreditOne(t, positions[t], prior, perShare);
      PayStep(positions, prior, perShare, rest, records, t, record);
      if record.Some? { records := records + [record.value]; }
      CreditStep(positions, prior, perShare, rest, after, t);
      after := after[t := p];
      rest := rest - {t};
    }
    AllCredited(positions, prior, perShare, after, records);
  }

  /** The names in `rest` are still to be credited. */
  ghost predicate PartlyCredited(positions: map<Ticker, Position>, prior: map<Ticker, real>, perShare: map<Ticker, real>,
                                 rest: set<Ticker>, after: map<Ticker, Position>) {
    && after.Keys == positions.Keys
    && forall t :: t in positions ==>
         after[t] == if t in rest then positions[t] else Credited(t, positions[t], prior, perShare)
  }

  ghost predicate PartlyPaid(positions: map<Ticker, Position>, prior: map<Ticker, real>, perShare: map<Ticker, real>,
                             rest: set<Ticker>, records: seq<Record>) {
    && Paid(records) + Sums.Sum(rest, (t: Ticker) => AmountAt(positions, prior, perShare, t))
       == Sums.Sum(positions.Keys, (t: Ticker) => AmountAt(positions, prior, perShare, t))
    && forall r :: r in records ==> r.ticker in positions && r.shares > 0.0
  }

  lemma CreditStep(positions: map<Ticker, Position>, prior: map<Ticker, real>, perShare: map<Ticker, real>,
                   rest: set<Ticker>, after: map<Ticker, Position>, t: Ticker)
    requires t in rest && t in positions && PartlyCredited(positions, prior, perShare, rest, after)
    ensures PartlyCredited(positions, prior, perShare, rest - {t}, after[t := Credited(t, positions[t], prior, perShare)])
  {
    hide Credited;
  }

  lemma PayStep(positions: map<Ticker, Position>, prior: map<Ticker, real>, perShare: map<Ticker, real>,
                rest: set<Ticker>, records: seq<Record>, t: Ticker, record: Option<Record>)
    requires t in rest && t in positions && PartlyPaid(positions, prior, perShare, rest, records)
    requires if record.Some? then record.value.ticker == t && record.value.shares > 0.0
                                  && record.value.amount == AmountAt(positions, prior, perShare, t)
             else AmountAt(positions, prior, perShare, t) == 0.0
    ensures PartlyPaid(positions, prior, perShare, rest - {t}, if record.Some? then records + [record.value] else records)
  {
    hide AmountAt;
    Sums.Pick(rest, (u: Ticker) => AmountAt(positions, prior, perShare, u), t);
    if record.Some? { PaidSnoc(records, record.value); }
    hide Paid;
  }

  lemma AllCredited(positions: map<Ticker, Position>, prior: map<Ticker, real>, perShare: map<Ticker, real>,
                    after: map<Ticker, Position>, records: seq<Record>)
    requires PartlyCredited(positions, prior, perShare, {}, after) && PartlyPaid(positions, prior, perShare, {}, records)
    ensures after == CreditAll(positions, prior, perShare) && Paid(records) == Accrued(positions, prior, perShare)
    ensures forall r :: r in records ==> r.ticker in positions && r.shares > 0.0
  {
    hide Credited, Amount;
    Sums.Same(positions.Keys, (t: Ticker) => AmountAt(positions, prior, perShare, t),
              (t: Ticker) => if t in positions then Amount(t, positions[t], prior, perShare) else 0.0);
  }

  method CreditOne(t: Ticker, p: Position, prior: map<Ticker, real>, perShare: map<Ticker, real>)
    returns (q: Position, record: Option<Record>)
    ensures q == Credited(t, p, prior, perShare)
    ensures if record.Some? then record.value.ticker == t && record.value.shares > 0.0
                                 && record.value.amount == Amount(t, p, prior, perShare)
            else Amount(t, p, prior, perShare) == 0.0
  {
    if t !in perShare || perShare[t] == 0.0 || p.dividend != 0.0 { return p, None; }
    var shares := if t in prior then prior[t] else p.shares;
    if shares <= 0.0 { return p, None; }
    var amount := perShare[t] * shares;
    assert amount == Amount(t, p, prior, perShare);
    assert shares == EntitledShares(t, p, prior) && Credits(t, p, prior, perShare);
    hide Percent, PriorValue, Amount;
    q := p.(dividend := p.dividend + amount, dailyReturn := p.dailyReturn + amount);
    var base := PriorValue(p, shares);
    if base != 0.0 { q := q.(dailyPct := Some(Percent(q.dailyReturn, base))); }
    record := Some(Record(t, perShare[t], shares, amount));
  }

  lemma PaidSnoc(records: seq<Record>, r: Record)
    ensures Paid(records + [r]) == Paid(records) + r.amount
  {
    assert (records + [r])[..|records|] == records;
  }
}
