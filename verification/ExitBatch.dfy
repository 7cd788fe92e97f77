/**
 The exit side of a planning batch: research signals and strategy signals are
 merged by ticker, exits first, and turned into sell orders against the book.
 */
module ExitBatch {

  type Ticker = string

  datatype Kind = Exit | Reduce

  /** A strategy-generated signal. */
  datatype Signal = Signal(ticker: Ticker, kind: Kind)

  datatype Order = Order(ticker: Ticker, kind: Kind, shares: int)

  /** Conversion to an integer truncates toward zero. */
  function Truncate(x: real): int { if x >= 0.0 then x.Floor else 0 - (0.0 - x).Floor }

  /** The nearest whole number between zero and `x`. */
  lemma TruncateIsTowardZero(x: real)
    ensures x >= 0.0 ==> Truncate(x) as real <= x < Truncate(x) as real + 1.0
    ensures x <= 0.0 ==> Truncate(x) as real - 1.0 < x <= Truncate(x) as real
  {}

  function Trim(held: int, fraction: real): int { Truncate(held as real * fraction) }

  // ---------------------------------------------------------------- what should be queued

  ghost predicate ExitAsked(t: Ticker, exits: seq<Ticker>, strategy: seq<Signal>) {
    t in exits || Signal(t, Exit) in strategy
  }

  /** A research reduce always stands; a strategy reduce yields to any exit. */
  ghost predicate ReduceAsked(t: Ticker, exits: seq<Ticker>, reduces: seq<Ticker>, strategy: seq<Signal>) {
    t in reduces || (Signal(t, Reduce) in strategy && !ExitAsked(t, exits, strategy))
  }

  ghost predicate Distinct(ts: seq<Ticker>) { forall i, j :: 0 <= i < j < |ts| ==> ts[i] != ts[j] }

  ghost predicate OnePerKind(orders: seq<Order>) {
    forall i, j :: 0 <= i < j < |orders| ==> orders[i].ticker != orders[j].ticker || orders[i].kind != orders[j].kind
  }

  ghost predicate ExitsQueued(orders: seq<Order>, wanted: seq<Ticker>, book: map<Ticker, int>) {
    forall o :: o in orders <==> o.kind == Exit && o.ticker in wanted && o.ticker in book && o.shares == book[o.ticker]
  }

  ghost predicate ReducesQueued(orders: seq<Order>, wanted: seq<Ticker>, book: map<Ticker, int>, fraction: real) {
    forall o :: o in orders <==> o.kind == Reduce && o.ticker in wanted && o.ticker in book
                                 && o.shares == Trim(book[o.ticker], fraction) != 0
  }

  // ---------------------------------------------------------------- the program

  /** Research tickers first, then the strategy's of one kind, each once. */
  method Merge(research: seq<Ticker>, strategy: seq<Signal>, kind: Kind, barred: seq<Ticker>) returns (all: seq<Ticker>)
    ensures Distinct(all)
    ensures forall t :: t in all <==> t in research || (Signal(t, kind) in strategy && t !in barred)
  {
    all := [];
    for k := 0 to |research|
      invariant Distinct(all) && forall t :: t in all <==> t in research[..k]
    {
      assert research[..k + 1] == research[..k] + [research[k]];
      if research[k] !in all { all := all + [research[k]]; }
    }
    assert research[..|research|] == research;
    for k := 0 to |strategy|
      invariant Distinct(all)
      invariant forall t :: t in all <==> t in research || (Signal(t, kind) in strategy[..k] && t !in barred)
    {
      assert strategy[..k + 1] == strategy[..k] + [strategy[k]];
      var s := strategy[k];
      if s.kind == kind && s.ticker !in all && s.ticker !in barred { all := all + [s.ticker]; }
    }
    assert strategy[..|strategy|] == strategy;
  }

  method QueueExits(wanted: seq<Ticker>, book: map<Ticker, int>) returns (orders: seq<Order>)
    requires Distinct(wanted)
    ensures ExitsQueued(orders, wanted, book) && OnePerKind(orders)
  {
    orders := [];
    for k := 0 to |wanted|
      invariant ExitsQueued(orders, wanted[..k], book) && OnePerKind(orders)
    {
      var t := wanted[k];
      assert wanted[..k + 1] == wanted[..k] + [t];
      assert t !in wanted[..k];
      if t in book { orders := orders + [Order(t, Exit, book[t])]; }
    }
    assert wanted[..|wanted|] == wanted;
  }

  method QueueReduces(wanted: seq<Ticker>, book: map<Ticker, int>, fraction: real) returns (orders: seq<Order>)
    requires Distinct(wanted)
    ensures ReducesQueued(orders, wanted, book, fraction) && OnePerKind(orders)
  {
    orders := [];
    for k := 0 to |wanted|
      invariant ReducesQueued(orders, wanted[..k], book, fraction) && OnePerKind(orders)
    {
      var t := wanted[k];
      assert wanted[..k + 1] == wanted[..k] + [t];
      assert t !in wanted[..k];
      if t in book {
        var shares := Trim(book[t], fraction);
        if shares != 0 { orders := orders + [Order(t, Reduce, shares)]; }
      }
    }
    assert wanted[..|wanted|] == wanted;
  }

  /** At most one exit and one reduce per name, each exactly when asked for, held
      and (for a reduce) at least one share. */
  method DecideExits(exits: seq<Ticker>, reduces: seq<Ticker>, strategy: seq<Signal>, book: map<Ticker, int>, fraction: real)
    returns (orders: seq<Order>)
    ensures OnePerKind(orders)
    ensures forall o :: o in orders <==>
      && o.ticker in book
      && var exit := o.ticker in exits || Signal(o.ticker, Exit) in strategy;
         if o.kind == Exit then exit && o.shares == book[o.ticker]
         else (o.ticker in reduces || (Signal(o.ticker, Reduce) in strategy && !exit))
              && o.shares == Truncate(book[o.ticker] as real * fraction) && o.shares != 0
    ensures forall o :: o in orders <==> Wanted(o, exits, reduces, strategy, book, fraction)
  {
    var allExits := Merge(exits, strategy, Exit, []);
    var allReduces := Merge(reduces, strategy, Reduce, allExits);
    var out := QueueExits(allExits, book);
    var trims := QueueReduces(allReduces, book, fraction);
    orders := out + trims;
    JoinKeepsOne(out, trims);
  }

  ghost predicate Wanted(o: Order, exits: seq<Ticker>, reduces: seq<Ticker>, strategy: seq<Signal>, book: map<Ticker, int>, fraction: real) {
    o.ticker in book &&
    if o.kind == Exit then ExitAsked(o.ticker, exits, strategy) && o.shares == book[o.ticker]
    else ReduceAsked(o.ticker, exits, reduces, strategy) && o.shares == Trim(book[o.ticker], fraction) != 0
  }

  lemma JoinKeepsOne(a: seq<Order>, b: seq<Order>)
    requires OnePerKind(a) && OnePerKind(b)
    requires (forall o :: o in a ==> o.kind == Exit) && forall o :: o in b ==> o.kind == Reduce
    ensures OnePerKind(a + b)
  {
    forall i, j | 0 <= i < j < |a + b|
      ensures (a + b)[i].ticker != (a + b)[j].ticker || (a + b)[i].kind != (a + b)[j].kind
    {
      if i < |a| && j >= |a| { assert a[i] in a && b[j - |a|] in b; }
    }
  }

  // ---------------------------------------------------------------- both sides of one name

  function Queued(orders: seq<Order>, t: Ticker): int {
    if orders == [] then 0 else
      var o := orders[|orders| - 1];
      Queued(orders[..|orders| - 1], t) + (if o.ticker == t then o.shares else 0)
  }

  lemma {:induction false} QueuedIs(orders: seq<Order>, t: Ticker, exit: int, trim: int)
    requires OnePerKind(orders)
    requires forall o :: o in orders && o.ticker == t ==> o.shares == if o.kind == Exit then exit else trim
    ensures Queued(orders, t) == (if Order(t, Exit, exit) in orders then exit else 0)
                                 + (if Order(t, Reduce, trim) in orders then trim else 0)
  {
    if orders != [] {
      var n := |orders| - 1;
      var o := orders[n];
      assert o in orders && orders == orders[..n] + [o];
      OneMoreOrder(orders[..n], o);
      hide OnePerKind;
      QueuedIs(orders[..n], t, exit, trim);
    }
  }

  lemma OneMoreOrder(orders: seq<Order>, o: Order)
    requires OnePerKind(orders + [o])
    ensures OnePerKind(orders) && forall x :: x in orders ==> x.ticker != o.ticker || x.kind != o.kind
  {
    var all := orders + [o];
    assert all[|orders|] == o;
    forall i | 0 <= i < |orders| ensures all[i] == orders[i] {}
    forall i, j | 0 <= i < j < |orders| ensures orders[i].ticker != orders[j].ticker || orders[i].kind != orders[j].kind {
      assert all[i].ticker != all[j].ticker || all[i].kind != all[j].kind;
    }
    forall x | x in orders ensures x.ticker != o.ticker || x.kind != o.kind {
      var i :| 0 <= i < |orders| && orders[i] == x;
      assert all[i].ticker != all[|orders|].ticker || all[i].kind != all[|orders|].kind;
    }
  }

  lemma TrimIsPart(held: int, fraction: real)
    requires held >= 0 && 0.0 <= fraction <= 1.0
    ensures 0 <= Trim(held, fraction) <= held
  {
    Portion(held as real, fraction);
  }

  lemma Portion(x: real, f: real)
    requires x >= 0.0 && 0.0 <= f <= 1.0
    ensures 0.0 <= x * f <= x
  {}

  /** A long name has more shares queued to sell than it holds exactly when
      research asked to reduce it while anyone asked to exit it, and the trim is
      at least one share: the two loops are not checked against each other. */
  lemma OversoldExactly(orders: seq<Order>, exits: seq<Ticker>, reduces: seq<Ticker>, strategy: seq<Signal>,
                        book: map<Ticker, int>, fraction: real, t: Ticker)
    requires OnePerKind(orders) && forall o :: o in orders <==> Wanted(o, exits, reduces, strategy, book, fraction)
    requires t in book && book[t] >= 0 && 0.0 <= fraction <= 1.0
    ensures Queued(orders, t) > book[t]
       <==> t in reduces && ExitAsked(t, exits, strategy) && Trim(book[t], fraction) > 0
    ensures Queued(orders, t) <= book[t] + Trim(book[t], fraction)
  {
    var exit, trim := book[t], Trim(book[t], fraction);
    TrimIsPart(exit, fraction);
    hide Trim;
    QueuedIs(orders, t, exit, trim);
    assert Order(t, Exit, exit) in orders <==> Wanted(Order(t, Exit, exit), exits, reduces, strategy, book, fraction);
    assert Order(t, Reduce, trim) in orders <==> Wanted(Order(t, Reduce, trim), exits, reduces, strategy, book, fraction);
  }
}
