/**
 Backward dividend adjustment of split-adjusted daily bars: each bar's four
 prices are multiplied, in place, by the ratio of every accepted dividend that
 goes ex after it.  Dates are day numbers.
 */
module DividendAdjustment {
  import opened Options

  datatype Dividend = Dividend(exDate: Option<int>, amount: Option<real>)

  /** A dividend with a known ex-date and a positive amount. */
  datatype Record = Record(exDate: int, amount: real)

  /** An accepted dividend and the ratio it applies to earlier bars. */
  datatype Factor = Factor(exDate: int, ratio: real)

  // ---------------------------------------------------------------- selection

  function Usable(d: Dividend, lastBar: int): Option<Record> {
    if d.exDate.Some? && d.amount.Some? && d.amount.value > 0.0 && d.exDate.value <= lastBar
    then Some(Record(d.exDate.value, d.amount.value)) else None
  }

  /** Usable: a known ex-date no later than the last bar, and a positive amount. */
  lemma UsableExactly(d: Dividend, lastBar: int, ex: int, amount: real)
    ensures Usable(d, lastBar) == Some(Record(ex, amount)) <==>
      d.exDate == Some(ex) && d.amount == Some(amount) && amount > 0.0 && lastBar >= ex
  {}

  function Records(ds: seq<Dividend>, lastBar: int): seq<Record> {
    if ds == [] then [] else
      var rest := Records(ds[1..], lastBar);
      match Usable(ds[0], lastBar)
      case None => rest
      case Some(r) => [r] + rest
  }

  predicate InExOrder(rs: seq<Record>) { forall i, j :: 0 <= i < j < |rs| ==> rs[i].exDate <= rs[j].exDate }

  /** Stable insertion by ex-date. */
  function InsertByExDate(r: Record, rs: seq<Record>): (s: seq<Record>)
    ensures multiset(s) == multiset(rs) + multiset{r}
  {
    if rs == [] then [r]
    else if r.exDate <= rs[0].exDate then [r] + rs
    else
      assert rs == [rs[0]] + rs[1..];
      [rs[0]] + InsertByExDate(r, rs[1..])
  }

  function SortByExDate(rs: seq<Record>): (s: seq<Record>)
    ensures multiset(s) == multiset(rs)
  {
    if rs == [] then [] else
      assert rs == [rs[0]] + rs[1..];
      InsertByExDate(rs[0], SortByExDate(rs[1..]))
  }

  lemma {:induction false} InsertKeepsExOrder(r: Record, rs: seq<Record>)
    requires InExOrder(rs)
    ensures InExOrder(InsertByExDate(r, rs))
  {
    if rs != [] && r.exDate > rs[0].exDate {
      InsertKeepsExOrder(r, rs[1..]);
      var rest := InsertByExDate(r, rs[1..]);
      assert rs == [rs[0]] + rs[1..];
      forall x | x in rest ensures rs[0].exDate <= x.exDate {
        assert x in multiset(rest);
        assert x == r || x in rs[1..];
      }
      ExOrderCons(rs[0], rest);
    }
  }

  lemma ExOrderCons(r: Record, rs: seq<Record>)
    requires InExOrder(rs) && forall x :: x in rs ==> r.exDate <= x.exDate
    ensures InExOrder([r] + rs)
  {}

  lemma {:induction false} SortedInExOrder(rs: seq<Record>)
    ensures InExOrder(SortByExDate(rs))
  {
    if rs != [] {
      SortedInExOrder(rs[1..]);
      InsertKeepsExOrder(rs[0], SortByExDate(rs[1..]));
    }
  }

  /** One past the last bar dated before `ex`, whatever the order of the dates. */
  function BarsBefore(dates: seq<int>, ex: int): (n: nat)
    ensures n <= |dates|
    ensures n > 0 ==> dates[n - 1] < ex
    ensures forall i :: n <= i < |dates| ==> dates[i] >= ex
  {
    if dates == [] || dates[|dates| - 1] < ex then |dates| else BarsBefore(dates[..|dates| - 1], ex)
  }

  /** The ratio of one record against the close before its ex-date, if accepted. */
  function Accept(dates: seq<int>, closes: seq<real>, r: Record): (f: Option<Factor>)
    requires |dates| == |closes|
    ensures f.Some? ==> f.value.exDate == r.exDate
    ensures f.Some? && r.amount >= 0.0 ==> 0.0 < f.value.ratio <= 1.0
  {
    var n := BarsBefore(dates, r.exDate);
    if n == 0 || closes[n - 1] <= 0.0 then None
    else
      var ratio := 1.0 - r.amount / closes[n - 1];
      if ratio <= 0.0 || ratio > 1.0 then None else Some(Factor(r.exDate, ratio))
  }

  /** A dividend is accepted exactly when there is a bar before its ex-date with a
      positive close that it does not exceed or reach; its ratio is the close after
      it over the close before. */
  lemma AcceptedExactly(dates: seq<int>, closes: seq<real>, r: Record)
    requires |dates| == |closes| && r.amount > 0.0
    ensures var n := BarsBefore(dates, r.exDate);
      && (Accept(dates, closes, r).Some? <==> n > 0 && r.amount < closes[n - 1])
      && (Accept(dates, closes, r).Some? ==> Accept(dates, closes, r).value.ratio * closes[n - 1] == closes[n - 1] - r.amount)
  {
    var n := BarsBefore(dates, r.exDate);
    if n > 0 && closes[n - 1] > 0.0 { PartOfClose(r.amount, closes[n - 1]); }
  }

  lemma PartOfClose(amount: real, close: real)
    requires amount > 0.0 && close > 0.0
    ensures amount / close > 0.0 && (amount / close < 1.0 <==> amount < close)
    ensures (1.0 - amount / close) * close == close - amount
  {
    Proportion(amount / close, close, amount);
  }

  lemma Proportion(q: real, close: real, amount: real)
    requires close > 0.0 && amount > 0.0 && q * close == amount
    ensures q > 0.0 && (q < 1.0 <==> amount < close)
    ensures (1.0 - q) * close == close - amount
  {
    assert (1.0 - q) * close == close - q * close;
    if q < 1.0 { ProductSign(1.0 - q, close); } else { ProductSign(q - 1.0, close); }
    if q <= 0.0 { ProductSign(0.0 - q, close); }
    assert (q - 1.0) * close == q * close - close && (0.0 - q) * close == 0.0 - q * close;
  }

  lemma ProductSign(a: real, b: real)
    requires a >= 0.0 && b > 0.0
    ensures a * b >= 0.0 && (a > 0.0 ==> a * b > 0.0)
  {}

  function Factors(dates: seq<int>, closes: seq<real>, rs: seq<Record>): seq<Factor>
    requires |dates| == |closes|
  {
    if rs == [] then [] else
      var rest := Factors(dates, closes, rs[1..]);
      match Accept(dates, closes, rs[0])
      case None => rest
      case Some(f) => [f] + rest
  }

  // ---------------------------------------------------------------- the product formula

  /** The product of the ratios whose ex-date is after `date`. */
  function Product(fs: seq<Factor>, date: int): real {
    if fs == [] then 1.0
    else Product(fs[..|fs| - 1], date) * (if date < fs[|fs| - 1].exDate then fs[|fs| - 1].ratio else 1.0)
  }

  ghost predicate UnitRatios(fs: seq<Factor>) {
    forall i :: 0 <= i < |fs| ==> 0.0 < fs[i].ratio <= 1.0
  }

  lemma Regroup(a: real, b: real, c: real)
    ensures (a * b) * c == a * (b * c)
  {}

  lemma Swap(a: real, b: real, c: real)
    ensures a * (b * c) == b * (a * c) == (a * c) * b
  {}

  lemma MulInUnit(a: real, b: real)
    requires 0.0 < a <= 1.0 && 0.0 < b <= 1.0
    ensures 0.0 < a * b <= a
  {}

  lemma MulMonotone(a: real, a': real, b: real, b': real)
    requires 0.0 < a <= a' && 0.0 < b <= b'
    ensures a * b <= a' * b'
  {
    assert a * b <= a' * b;
    assert a' * b <= a' * b';
  }

  /** Factors lie in (0, 1] and never decrease going forward in time. */
  lemma {:induction false} ProductIsUnitAndMonotone(fs: seq<Factor>, d: int, d': int)
    requires UnitRatios(fs) && d <= d'
    ensures 0.0 < Product(fs, d) <= Product(fs, d') <= 1.0
  {
    if fs != [] {
      var n := |fs| - 1;
      ProductIsUnitAndMonotone(fs[..n], d, d');
      var x := if d < fs[n].exDate then fs[n].ratio else 1.0;
      var x' := if d' < fs[n].exDate then fs[n].ratio else 1.0;
      MulInUnit(Product(fs[..n], d), x);
      MulInUnit(Product(fs[..n], d'), x');
      MulMonotone(Product(fs[..n], d), Product(fs[..n], d'), x, x');
    }
  }

  lemma {:induction false} ProductAppend(fs: seq<Factor>, gs: seq<Factor>, date: int)
    ensures Product(fs + gs, date) == Product(fs, date) * Product(gs, date)
  {
    if gs == [] {
      assert fs + gs == fs;
    } else {
      var n := |gs| - 1;
      assert (fs + gs)[..|fs + gs| - 1] == fs + gs[..n];
      ProductAppend(fs, gs[..n], date);
      var x := if date < gs[n].exDate then gs[n].ratio else 1.0;
      Regroup(Product(fs, date), Product(gs[..n], date), x);
    }
  }

  lemma ProductOne(f: Factor, date: int)
    ensures Product([f], date) == if date < f.exDate then f.ratio else 1.0
  {
    assert [f][..0] == [];
  }

  // ---------------------------------------------------------------- order does not matter

  /** The contribution of a bag of records to a bar, whatever their order. */
  function Combined(dates: seq<int>, closes: seq<real>, rs: seq<Record>, date: int): real
    requires |dates| == |closes|
  {
    Product(Factors(dates, closes, rs), date)
  }

  function One(dates: seq<int>, closes: seq<real>, r: Record, date: int): real
    requires |dates| == |closes|
  {
    match Accept(dates, closes, r)
    case None => 1.0
    case Some(f) => if date < f.exDate then f.ratio else 1.0
  }

  lemma CombinedCons(dates: seq<int>, closes: seq<real>, r: Record, rs: seq<Record>, date: int)
    requires |dates| == |closes|
    ensures Combined(dates, closes, [r] + rs, date) == One(dates, closes, r, date) * Combined(dates, closes, rs, date)
  {
    assert ([r] + rs)[1..] == rs;
    match Accept(dates, closes, r)
    case None =>
    case Some(f) =>
      ProductOne(f, date);
      ProductAppend([f], Factors(dates, closes, rs), date);
  }

  lemma CombinedNil(dates: seq<int>, closes: seq<real>, date: int)
    requires |dates| == |closes|
    ensures Combined(dates, closes, [], date) == 1.0
  {}

  lemma {:induction false} CombinedAppend(dates: seq<int>, closes: seq<real>, rs: seq<Record>, ss: seq<Record>, date: int)
    requires |dates| == |closes|
    ensures Combined(dates, closes, rs + ss, date)
         == Combined(dates, closes, rs, date) * Combined(dates, closes, ss, date)
  {
    hide Combined, One;
    if rs == [] {
      assert rs + ss == ss;
      CombinedNil(dates, closes, date);
    } else {
      assert rs == [rs[0]] + rs[1..] && rs + ss == [rs[0]] + (rs[1..] + ss);
      CombinedCons(dates, closes, rs[0], rs[1..], date);
      CombinedCons(dates, closes, rs[0], rs[1..] + ss, date);
      CombinedAppend(dates, closes, rs[1..], ss, date);
      Regroup(One(dates, closes, rs[0], date), Combined(dates, closes, rs[1..], date), Combined(dates, closes, ss, date));
    }
  }

  lemma Split(dates: seq<int>, closes: seq<real>, pre: seq<Record>, r: Record, post: seq<Record>, d: int)
    requires |dates| == |closes|
    ensures Combined(dates, closes, pre + ([r] + post), d)
         == Combined(dates, closes, pre + post, d) * One(dates, closes, r, d)
  {
    hide Combined, One;
    CombinedAppend(dates, closes, pre, [r] + post, d);
    CombinedCons(dates, closes, r, post, d);
    CombinedAppend(dates, closes, pre, post, d);
    Swap(Combined(dates, closes, pre, d), One(dates, closes, r, d), Combined(dates, closes, post, d));
  }

  lemma Cancel<T>(a: multiset<T>, b: multiset<T>, x: T)
    requires a + multiset{x} == b + multiset{x}
    ensures a == b
  {
    assert a == (a + multiset{x}) - multiset{x};
  }

  lemma WithoutIndex<T>(s: seq<T>, k: nat)
    requires k < |s|
    ensures multiset(s) == multiset(s[..k] + s[k + 1..]) + multiset{s[k]}
  {
    assert s == s[..k] + ([s[k]] + s[k + 1..]);
  }

  /** The place in `ss` of the first element of a permutation of it. */
  lemma Place<T>(rs: seq<T>, ss: seq<T>) returns (k: nat)
    requires rs != [] && multiset(rs) == multiset(ss)
    ensures k < |ss| && ss[k] == rs[0]
    ensures multiset(rs[1..]) == multiset(ss[..k] + ss[k + 1..])
  {
    assert rs[0] in multiset(ss);
    k :| 0 <= k < |ss| && ss[k] == rs[0];
    WithoutIndex(rs, 0);
    assert rs[..0] + rs[1..] == rs[1..];
    WithoutIndex(ss, k);
    Cancel(multiset(rs[1..]), multiset(ss[..k] + ss[k + 1..]), rs[0]);
  }

  lemma {:induction false} CombinedPermutes(dates: seq<int>, closes: seq<real>, rs: seq<Record>, ss: seq<Record>, date: int)
    requires |dates| == |closes| && multiset(rs) == multiset(ss)
    ensures Combined(dates, closes, rs, date) == Combined(dates, closes, ss, date)
  {
    hide Combined, One;
    if rs == [] {
      assert |multiset(ss)| == 0;
      assert ss == [];
    } else {
      var r := rs[0];
      var k := Place(rs, ss);
      var pre, post := ss[..k], ss[k + 1..];
      assert rs == [r] + rs[1..] && ss == pre + ([r] + post);
      CombinedPermutes(dates, closes, rs[1..], pre + post, date);
      CombinedCons(dates, closes, r, rs[1..], date);
      Split(dates, closes, pre, r, post, date);
    }
  }

  lemma {:induction false} RecordsAppend(ds: seq<Dividend>, es: seq<Dividend>, lastBar: int)
    ensures Records(ds + es, lastBar) == Records(ds, lastBar) + Records(es, lastBar)
  {
    if ds == [] {
      assert ds + es == es;
    } else {
      assert (ds + es)[1..] == ds[1..] + es;
      RecordsAppend(ds[1..], es, lastBar);
    }
  }

  lemma RecordsPermute(ds: seq<Dividend>, k: nat, lastBar: int)
    requires k < |ds|
    ensures multiset(Records(ds, lastBar))
         == multiset(Records([ds[k]], lastBar)) + multiset(Records(ds[..k] + ds[k + 1..], lastBar))
  {
    hide Records;
    var pre, post := ds[..k], ds[k + 1..];
    assert ds == pre + ([ds[k]] + post);
    RecordsAppend(pre, [ds[k]] + post, lastBar);
    RecordsAppend([ds[k]], post, lastBar);
    RecordsAppend(pre, post, lastBar);
  }

  lemma {:induction false} RecordsOfPermutation(ds: seq<Dividend>, es: seq<Dividend>, lastBar: int)
    requires multiset(ds) == multiset(es)
    ensures multiset(Records(ds, lastBar)) == multiset(Records(es, lastBar))
  {
    if ds == [] {
      assert |multiset(es)| == 0;
      assert es == [];
    } else {
      hide Records;
      var k := Place(ds, es);
      var rest := es[..k] + es[k + 1..];
      RecordsPermute(ds, 0, lastBar);
      assert ds[..0] + ds[1..] == ds[1..];
      RecordsPermute(es, k, lastBar);
      RecordsOfPermutation(ds[1..], rest, lastBar);
    }
  }

  /** The factor the whole adjustment applies to the bar of `date`. */
  function AdjustmentFactor(dates: seq<int>, closes: seq<real>, ds: seq<Dividend>, date: int): real
    requires |dates| == |closes| > 0
  {
    Product(Factors(dates, closes, SortByExDate(Records(ds, dates[|dates| - 1]))), date)
  }

  /** The result does not depend on the order the vendor lists dividends in. */
  lemma OrderIrrelevant(dates: seq<int>, closes: seq<real>, ds: seq<Dividend>, es: seq<Dividend>, date: int)
    requires |dates| == |closes| > 0 && multiset(ds) == multiset(es)
    ensures AdjustmentFactor(dates, closes, ds, date) == AdjustmentFactor(dates, closes, es, date)
  {
    var last := dates[|dates| - 1];
    RecordsOfPermutation(ds, es, last);
    CombinedPermutes(dates, closes, SortByExDate(Records(ds, last)), SortByExDate(Records(es, last)), date);
  }

  lemma {:induction false} RecordsArePositive(ds: seq<Dividend>, lastBar: int)
    ensures forall r :: r in Records(ds, lastBar) ==> r.amount > 0.0 && r.exDate <= lastBar
  {
    if ds != [] { RecordsArePositive(ds[1..], lastBar); }
  }

  lemma {:induction false} FactorsAreUnit(dates: seq<int>, closes: seq<real>, rs: seq<Record>)
    requires |dates| == |closes| && forall r :: r in rs ==> r.amount > 0.0
    ensures UnitRatios(Factors(dates, closes, rs))
  {
    if rs != [] {
      assert rs[0] in rs;
      FactorsAreUnit(dates, closes, rs[1..]);
    }
  }

  /** Every factor lies in (0, 1], a later bar's factor is no smaller, and the
      last bar is never adjusted. */
  lemma AdjustmentIsUnitAndMonotone(dates: seq<int>, closes: seq<real>, ds: seq<Dividend>, d: int, d': int)
    requires |dates| == |closes| > 0 && d <= d'
    ensures 0.0 < AdjustmentFactor(dates, closes, ds, d) <= AdjustmentFactor(dates, closes, ds, d') <= 1.0
    ensures AdjustmentFactor(dates, closes, ds, dates[|dates| - 1]) == 1.0
  {
    var last := dates[|dates| - 1];
    var rs := SortByExDate(Records(ds, last));
    RecordsArePositive(ds, last);
    forall r | r in rs ensures r.amount > 0.0 && r.exDate <= last {
      assert r in multiset(rs);
    }
    FactorsAreUnit(dates, closes, rs);
    ProductIsUnitAndMonotone(Factors(dates, closes, rs), d, d');
    NothingAfterLast(dates, closes, rs, last);
  }

  lemma {:induction false} NothingAfterLast(dates: seq<int>, closes: seq<real>, rs: seq<Record>, last: int)
    requires |dates| == |closes| && forall r :: r in rs ==> r.exDate <= last
    ensures Product(Factors(dates, closes, rs), last) == 1.0
  {
    if rs == [] {
      assert Factors(dates, closes, rs) == [];
    } else {
      assert rs == [rs[0]] + rs[1..];
      NothingAfterLast(dates, closes, rs[1..], last);
      CombinedCons(dates, closes, rs[0], rs[1..], last);
    }
  }

  // ---------------------------------------------------------------- what adjusting means

  lemma {:induction false} CombinedAcross(dates: seq<int>, closes: seq<real>, rs: seq<Record>, d: int, d': int)
    requires |dates| == |closes| && d < d'
    requires forall r :: r in rs ==> Accept(dates, closes, r).None? || r.exDate <= d || d' < r.exDate
    ensures Combined(dates, closes, rs, d) == Combined(dates, closes, rs, d')
  {
    if rs != [] {
      assert rs == [rs[0]] + rs[1..] && rs[0] in rs;
      CombinedAcross(dates, closes, rs[1..], d, d');
      CombinedCons(dates, closes, rs[0], rs[1..], d);
      CombinedCons(dates, closes, rs[0], rs[1..], d');
    }
  }

  /** The factors on the two sides of a lone accepted ex-date differ by its ratio. */
  lemma FactorAcross(dates: seq<int>, closes: seq<real>, pre: seq<Record>, r: Record, post: seq<Record>, d: int, d': int)
    requires |dates| == |closes| && d < r.exDate <= d' && Accept(dates, closes, r).Some?
    requires forall s :: s in pre + post ==> Accept(dates, closes, s).None? || s.exDate <= d || d' < s.exDate
    ensures Combined(dates, closes, pre + ([r] + post), d)
         == Combined(dates, closes, pre + ([r] + post), d') * Accept(dates, closes, r).value.ratio
  {
    Split(dates, closes, pre, r, post, d);
    Split(dates, closes, pre, r, post, d');
    CombinedAcross(dates, closes, pre + post, d, d');
  }

  /** Across a lone accepted ex-date the adjusted close-to-close ratio is the
      total return: today's close over yesterday's close less the dividend. */
  lemma ExDateReturnIsTotalReturn(dates: seq<int>, closes: seq<real>, ds: seq<Dividend>, i: nat,
                                  pre: seq<Record>, r: Record, post: seq<Record>)
    requires |dates| == |closes| && i + 1 < |dates|
    requires forall a, b :: 0 <= a < b < |dates| ==> dates[a] < dates[b]
    requires Records(ds, dates[|dates| - 1]) == pre + ([r] + post)
    requires dates[i] < r.exDate <= dates[i + 1] && Accept(dates, closes, r).Some?
    requires forall s :: s in pre + post ==>
               Accept(dates, closes, s).None? || s.exDate <= dates[i] || dates[i + 1] < s.exDate
    ensures closes[i] > r.amount
    ensures AdjustmentFactor(dates, closes, ds, dates[i]) * closes[i] > 0.0
    ensures (AdjustmentFactor(dates, closes, ds, dates[i + 1]) * closes[i + 1])
            / (AdjustmentFactor(dates, closes, ds, dates[i]) * closes[i])
         == closes[i + 1] / (closes[i] - r.amount)
  {
    hide Combined, Accept, AdjustmentFactor, Records;
    var d, d' := dates[i], dates[i + 1];
    var rs := pre + ([r] + post);
    AdjustmentIsCombined(dates, closes, ds, rs, d);
    AdjustmentIsCombined(dates, closes, ds, rs, d');
    FactorAcross(dates, closes, pre, r, post, d, d');
    AdjustmentIsUnitAndMonotone(dates, closes, ds, d, d');
    AcceptedRatio(dates, closes, r, i);
    var f, f', ratio := AdjustmentFactor(dates, closes, ds, d), AdjustmentFactor(dates, closes, ds, d'), Accept(dates, closes, r).value.ratio;
    CancelFactor(f', f, ratio, closes[i], closes[i + 1], closes[i] - r.amount);
  }

  lemma AdjustmentIsCombined(dates: seq<int>, closes: seq<real>, ds: seq<Dividend>, rs: seq<Record>, d: int)
    requires |dates| == |closes| > 0 && multiset(rs) == multiset(Records(ds, dates[|dates| - 1]))
    ensures AdjustmentFactor(dates, closes, ds, d) == Combined(dates, closes, rs, d)
  {
    CombinedPermutes(dates, closes, SortByExDate(Records(ds, dates[|dates| - 1])), rs, d);
  }

  /** An accepted ratio times the close before the ex-date is that close less the dividend. */
  lemma AcceptedRatio(dates: seq<int>, closes: seq<real>, r: Record, i: nat)
    requires |dates| == |closes| && i + 1 < |dates|
    requires forall a, b :: 0 <= a < b < |dates| ==> dates[a] < dates[b]
    requires dates[i] < r.exDate <= dates[i + 1] && Accept(dates, closes, r).Some?
    ensures closes[i] > r.amount
    ensures Accept(dates, closes, r).value.ratio * closes[i] == closes[i] - r.amount
  {
    assert BarsBefore(dates, r.exDate) == i + 1;
    RatioTimesClose(closes[i], r.amount);
  }

  lemma RatioTimesClose(c: real, a: real)
    requires c > 0.0 && 1.0 - a / c > 0.0
    ensures c > a && (1.0 - a / c) * c == c - a
  {
    assert (a / c) * c == a;
    assert (a / c) * c < 1.0 * c;
  }

  lemma CancelFactor(g: real, f: real, ratio: real, c: real, c': real, net: real)
    requires g > 0.0 && f == g * ratio && ratio * c == net && net > 0.0
    ensures f * c > 0.0 && (g * c') / (f * c) == c' / net
  {
    Regroup(g, ratio, c);
    assert g * net > 0.0;
    assert (c' / net) * net == c';
    Regroup(g, c' / net, net);
    Swap(g, c' / net, net);
    assert (c' / net) * (g * net) == g * c';
  }

  // ---------------------------------------------------------------- the program

  /** One column, in place: for each factor, the bars before its ex-date are
      multiplied by its ratio. */
  method AdjustColumn(dates: seq<int>, column: array<real>, factors: seq<Factor>)
    requires column.Length == |dates|
    modifies column
    ensures forall i :: 0 <= i < column.Length ==> column[i] == Scaled(old(column[i]), factors, dates[i])
  {
    forall i | 0 <= i < column.Length ensures column[i] == Scaled(column[i], [], dates[i]) {
      assert Product([], dates[i]) == 1.0;
    }
    hide Scaled;
    for k := 0 to |factors|
      invariant forall i :: 0 <= i < column.Length ==> column[i] == Scaled(old(column[i]), factors[..k], dates[i])
    {
      for j := 0 to column.Length
        invariant forall i :: 0 <= i < j ==> column[i] == Scaled(old(column[i]), factors[..k + 1], dates[i])
        invariant forall i :: j <= i < column.Length ==> column[i] == Scaled(old(column[i]), factors[..k], dates[i])
      {
        OneMoreFactor(old(column[j]), factors, k, dates[j]);
        if dates[j] < factors[k].exDate {
          column[j] := column[j] * factors[k].ratio;
        }
      }
    }
    assert factors[..|factors|] == factors;
  }

  /** A price times the product of the ratios that go ex after its date. */
  function Scaled(price: real, fs: seq<Factor>, date: int): real {
    price * Product(fs, date)
  }

  lemma OneMoreFactor(price: real, factors: seq<Factor>, k: nat, date: int)
    requires k < |factors|
    ensures Scaled(price, factors[..k + 1], date)
         == if date < factors[k].exDate then Scaled(price, factors[..k], date) * factors[k].ratio
            else Scaled(price, factors[..k], date)
  {
    assert factors[..k + 1][..k] == factors[..k];
    Regroup(price, Product(factors[..k], date), factors[k].ratio);
  }

  method CollectRecords(dividends: seq<Dividend>, last: int) returns (records: seq<Record>)
    ensures records == Records(dividends, last)
  {
    records := [];
    for k := 0 to |dividends|
      invariant Records(dividends, last) == records + Records(dividends[k..], last)
    {
      assert dividends[k..][0] == dividends[k] && dividends[k..][1..] == dividends[k + 1..];
      var u := Usable(dividends[k], last);
      if u.Some? { records := records + [u.value]; }
    }
    assert dividends[|dividends|..] == [];
  }

  lemma {:induction false} FactorsInExOrder(dates: seq<int>, closes: seq<real>, rs: seq<Record>)
    requires |dates| == |closes| && InExOrder(rs)
    ensures var fs := Factors(dates, closes, rs);
      && (forall i, j :: 0 <= i < j < |fs| ==> fs[i].exDate <= fs[j].exDate)
      && forall f :: f in fs ==> exists r :: r in rs && r.exDate == f.exDate
  {
    if rs != [] {
      FactorsInExOrder(dates, closes, rs[1..]);
      assert forall r :: r in rs[1..] ==> r in rs && rs[0].exDate <= r.exDate;
      assert rs[0] in rs;
      hide Accept;
    }
  }

  method CollectFactors(dates: seq<int>, closes: seq<real>, dividends: seq<Dividend>) returns (factors: seq<Factor>)
    requires |dates| == |closes| > 0
    ensures factors == Factors(dates, closes, SortByExDate(Records(dividends, dates[|dates| - 1])))
    ensures forall i, j :: 0 <= i < j < |factors| ==> factors[i].exDate <= factors[j].exDate
  {
    var records := CollectRecords(dividends, dates[|dates| - 1]);
    SortedInExOrder(records);
    records := SortByExDate(records);
    FactorsInExOrder(dates, closes, records);
    hide InExOrder, SortByExDate, Factors;
    factors := AcceptEach(dates, closes, records);
  }

  method AcceptEach(dates: seq<int>, closes: seq<real>, records: seq<Record>) returns (factors: seq<Factor>)
    requires |dates| == |closes|
    ensures factors == Factors(dates, closes, records)
  {
    factors := [];
    hide Accept;
    for k := 0 to |records|
      invariant Factors(dates, closes, records) == factors + Factors(dates, closes, records[k..])
    {
      assert records[k..][0] == records[k] && records[k..][1..] == records[k + 1..];
      var f := Accept(dates, closes, records[k]);
      if f.Some? { factors := factors + [f.value]; }
    }
    assert records[|records|..] == [];
  }

  /** The four price columns of a bar table. */
  class Frame {
    const dates: seq<int>
    const open: array<real>
    const high: array<real>
    const low: array<real>
    const close: array<real>

    ghost predicate Valid() {
      && |dates| > 0
      && open.Length == high.Length == low.Length == close.Length == |dates|
      && open != high && open != low && open != close && high != low && high != close && low != close
    }

    constructor (dates: seq<int>, open: array<real>, high: array<real>, low: array<real>, close: array<real>)
      ensures this.dates == dates && this.open == open && this.high == high && this.low == low && this.close == close
    {
      this.dates, this.open, this.high, this.low, this.close := dates, open, high, low, close;
    }

    /** Every bar of every price column is multiplied by the product of the
        accepted ratios that go ex after it; ratios use unadjusted closes. */
    method ApplyDividendAdjustment(dividends: seq<Dividend>)
      requires Valid()
      modifies open, high, low, close
      ensures forall i :: 0 <= i < |dates| ==>
        var f := AdjustmentFactor(dates, old(close[..]), dividends, dates[i]);
        && open[i] == old(open[i]) * f && high[i] == old(high[i]) * f
        && low[i] == old(low[i]) * f && close[i] == old(close[i]) * f
    {
      hide Product, Factors, Records, SortByExDate;
      var factors := CollectFactors(dates, close[..], dividends);
      AdjustColumn(dates, open, factors);
      AdjustColumn(dates, high, factors);
      AdjustColumn(dates, low, factors);
      AdjustColumn(dates, close, factors);
    }
  }
}
