/**
 Repair of provably wrong broker marks: detection against the day's traded
 range, the bounded plan, and writing the repair onto position rows, forward on
 the day itself or later onto a row persisted before the repair was written.
 */
module EodMarkCorrection {
  import opened Options
  import opened Money
  import Sums

  type Ticker = string

  /** `raw` preserves the broker's own value once a repair has replaced it. */
  datatype Position = Position(shares: real, market: Option<real>, broker: Option<real>,
                               raw: Option<Option<real>>, correction: Option<real>, corrected: bool)

  type Book = map<Ticker, Position>

  datatype Range = Range(low: real, high: real)

  datatype Flag = Flag(ticker: Ticker, shares: real, mark: real)

  datatype Correction = Correction(ticker: Ticker, shares: real, close: real, usd: real)

  // ---------------------------------------------------------------- detection

  /** The broker's per-share mark, when it can be checked at all. */
  function MarkOf(p: Position, r: Option<Range>): Option<real> {
    if p.shares == 0.0 || p.broker.None? || r.None? then None else Some(p.broker.value / p.shares)
  }

  predicate Outside(p: Position, r: Option<Range>) {
    MarkOf(p, r).Some? && !(r.value.low <= MarkOf(p, r).value <= r.value.high)
  }

  function RangeOf(ranges: map<Ticker, Range>, t: Ticker): Option<Range> {
    if t in ranges then Some(ranges[t]) else None
  }

  ghost predicate Distinct(flags: seq<Flag>) {
    forall i, j :: 0 <= i < j < |flags| ==> flags[i].ticker != flags[j].ticker
  }

  /** Each flag is a position of the book: its shares, and the mark its value implies. */
  ghost predicate Describes(flags: seq<Flag>, book: Book) {
    forall f :: f in flags ==> f.ticker in book && f.shares == book[f.ticker].shares != 0.0
                               && book[f.ticker].broker == Some(Worth(f.shares, f.mark))
  }

  method DetectOutsideRange(book: Book, ranges: map<Ticker, Range>) returns (flags: seq<Flag>)
    ensures Distinct(flags) && Describes(flags, book)
    ensures forall t :: t in book ==> (Outside(book[t], RangeOf(ranges, t)) <==> exists f :: f in flags && f.ticker == t)
  {
    flags := [];
    var rest := book.Keys;
    while rest != {}
      invariant rest <= book.Keys
      invariant Distinct(flags) && Describes(flags, book)
      invariant forall f :: f in flags ==> f.ticker !in rest
      invariant forall t :: t in book && t !in rest ==>
        (Outside(book[t], RangeOf(ranges, t)) <==> exists f :: f in flags && f.ticker == t)
    {
      var t :| t in rest;
      var p, r := book[t], RangeOf(ranges, t);
      var mark := MarkOf(p, r);
      if mark.Some? && !(r.value.low <= mark.value <= r.value.high) {
        UnitPrice(p.broker.value, p.shares);
        flags := AddFlag(flags, Flag(t, p.shares, mark.value), book);
      }
      rest := rest - {t};
    }
  }

  method AddFlag(flags: seq<Flag>, f: Flag, book: Book) returns (more: seq<Flag>)
    requires Distinct(flags) && Describes(flags, book) && forall g :: g in flags ==> g.ticker != f.ticker
    requires f.ticker in book && f.shares == book[f.ticker].shares != 0.0
             && book[f.ticker].broker == Some(Worth(f.shares, f.mark))
    ensures Distinct(more) && Describes(more, book)
    ensures forall g :: g in more <==> g in flags || g == f
  {
    more := flags + [f];
  }

  // ---------------------------------------------------------------- the plan

  /** A flag is repairable when its close is known and inside the day's range. */
  function Repair(f: Flag, closes: map<Ticker, real>, ranges: map<Ticker, Range>): Option<Correction> {
    if f.shares == 0.0 || f.ticker !in closes || f.ticker !in ranges
       || !(ranges[f.ticker].low <= closes[f.ticker] <= ranges[f.ticker].high) then None
    else Some(Correction(f.ticker, f.shares, closes[f.ticker], Worth(f.shares, closes[f.ticker] - f.mark)))
  }

  /** Repairable: shares to restate, and a close inside the day's own range, ends
      included; the repair moves the mark to that close. */
  lemma RepairableExactly(f: Flag, closes: map<Ticker, real>, ranges: map<Ticker, Range>)
    ensures Repair(f, closes, ranges).Some? <==>
      && f.shares != 0.0 && f.ticker in closes && f.ticker in ranges
      && ranges[f.ticker].low <= closes[f.ticker] && closes[f.ticker] <= ranges[f.ticker].high
    ensures Repair(f, closes, ranges).Some? ==>
      Repair(f, closes, ranges).value
        == Correction(f.ticker, f.shares, closes[f.ticker], f.shares * (closes[f.ticker] - f.mark))
  {}

  function Repairs(flags: seq<Flag>, closes: map<Ticker, real>, ranges: map<Ticker, Range>): seq<Correction> {
    if flags == [] then [] else
      var rest := Repairs(flags[..|flags| - 1], closes, ranges);
      match Repair(flags[|flags| - 1], closes, ranges)
      case None => rest
      case Some(c) => rest + [c]
  }

  function TotalOf(cs: seq<Correction>): real {
    if cs == [] then 0.0 else TotalOf(cs[..|cs| - 1]) + cs[|cs| - 1].usd
  }

  function Abs(x: real): real { if x >= 0.0 then x else 0.0 - x }

  const FLOOR: real := 10000.0

  /** Largest repair applied without a human: one percent of NAV, or the floor. */
  function Bound(nav: real): real { if nav / 100.0 > FLOOR then nav / 100.0 else FLOOR }

  /** A total is within the bound when it is at most ten thousand dollars or at most
      one percent of NAV, up or down. */
  lemma WithinBoundExactly(total: real, nav: real)
    ensures Abs(total) <= Bound(nav) <==>
      (-10000.0 <= total && total <= 10000.0) || (0.0 - nav <= 100.0 * total && 100.0 * total <= nav)
  {}

  datatype Plan = Plan(applied: bool, refused: bool, nav: real, total: real, corrections: seq<Correction>)

  method PlanCorrection(flags: seq<Flag>, closes: map<Ticker, real>, ranges: map<Ticker, Range>, nav: real) returns (p: Plan)
    ensures p.applied <==> nav != 0.0 && Repairs(flags, closes, ranges) != []
                           && Abs(TotalOf(Repairs(flags, closes, ranges))) <= Bound(nav)
    ensures p.refused <==> nav != 0.0 && Abs(TotalOf(Repairs(flags, closes, ranges))) > Bound(nav)
    ensures p.nav == nav + (if p.applied then TotalOf(p.corrections) else 0.0)
    ensures p.applied || p.refused ==> p.corrections == Repairs(flags, closes, ranges) && p.total == TotalOf(p.corrections)
  {
    assert Repairs([], closes, ranges) == [] && TotalOf([]) == 0.0;
    if flags == [] || nav == 0.0 { return Plan(false, false, nav, 0.0, []); }
    var planned: seq<Correction>, total := [], 0.0;
    for k := 0 to |flags|
      invariant planned == Repairs(flags[..k], closes, ranges) && total == TotalOf(planned)
    {
      assert flags[..k + 1][..k] == flags[..k];
      var c := Repair(flags[k], closes, ranges);
      if c.Some? {
        assert (planned + [c.value])[..|planned|] == planned;
        planned, total := planned + [c.value], total + c.value.usd;
      }
    }
    assert flags[..|flags|] == flags;
    if planned == [] { return Plan(false, false, nav, 0.0, []); }
    if Abs(total) > Bound(nav) { return Plan(false, true, nav, total, planned); }
    p := Plan(true, false, nav + total, total, planned);
  }

  // ---------------------------------------------------------------- writing it

  function Written(p: Position, c: Correction): Position {
    p.(raw := if p.raw.None? then Some(p.broker) else p.raw,
       broker := Some(Worth(c.shares, c.close)), correction := Some(c.usd), corrected := true)
  }

  /** Forward, on the day: every correction must name a position. */
  function Applied(book: Book, cs: seq<Correction>): Book {
    if cs == [] then book else
      var before := Applied(book, cs[..|cs| - 1]);
      var c := cs[|cs| - 1];
      if c.ticker in before then before[c.ticker := Written(before[c.ticker], c)] else before
  }

  /** Later, on a persisted row: absent and already corrected names are left alone. */
  function Restated(book: Book, cs: seq<Correction>): Book {
    if cs == [] then book else
      var before := Restated(book, cs[..|cs| - 1]);
      var c := cs[|cs| - 1];
      if c.ticker in before && !before[c.ticker].corrected then before[c.ticker := Written(before[c.ticker], c)] else before
  }

  lemma {:induction false} AppliedKeys(book: Book, cs: seq<Correction>)
    ensures Applied(book, cs).Keys == book.Keys
  {
    if cs != [] { AppliedKeys(book, cs[..|cs| - 1]); }
  }

  /** The forward write: refused when a correction names no position. */
  method ApplyCorrection(book: Book, cs: seq<Correction>) returns (after: Option<Book>)
    ensures after.None? <==> exists c :: c in cs && c.ticker !in book
    ensures after.Some? ==> after.value == Applied(book, cs)
  {
    var out := book;
    for k := 0 to |cs|
      invariant out == Applied(book, cs[..k])
      invariant forall c :: c in cs[..k] ==> c.ticker in book
    {
      assert cs[..k + 1][..k] == cs[..k];
      AppliedKeys(book, cs[..k]);
      var c := cs[k];
      if c.ticker !in out { return None; }
      var p := out[c.ticker];
      if p.raw.None? { p := p.(raw := Some(p.broker)); }
      p := p.(broker := Some(Worth(c.shares, c.close)));
      p := p.(correction := Some(c.usd), corrected := true);
      out := out[c.ticker := p];
    }
    assert cs[..|cs|] == cs;
    after := Some(out);
  }

  method RestatePrior(book: Book, applied: bool, cs: seq<Correction>) returns (after: Book)
    ensures after == if applied then Restated(book, cs) else book
  {
    if !applied { return book; }
    after := book;
    for k := 0 to |cs|
      invariant after == Restated(book, cs[..k])
    {
      assert cs[..k + 1][..k] == cs[..k];
      var c := cs[k];
      if c.ticker in after && !after[c.ticker].corrected {
        var p := after[c.ticker];
        if p.raw.None? { p := p.(raw := Some(p.broker)); }
        p := p.(broker := Some(Worth(c.shares, c.close)));
        p := p.(correction := Some(c.usd), corrected := true);
        after := after[c.ticker := p];
      }
    }
    assert cs[..|cs|] == cs;
  }

  // ---------------------------------------------------------------- NAV and marks move together

  function Broker(b: Book, t: Ticker): real { if t in b && b[t].broker.Some? then b[t].broker.value else 0.0 }

  ghost function BrokerTotal(b: Book): real { Sums.Sum(b.Keys, (t: Ticker) => Broker(b, t)) }

  ghost predicate DistinctNames(cs: seq<Correction>) {
    forall i, j :: 0 <= i < j < |cs| ==> cs[i].ticker != cs[j].ticker
  }

  lemma {:induction false} Untouched(book: Book, cs: seq<Correction>, t: Ticker)
    requires t in book && forall c :: c in cs ==> c.ticker != t
    ensures t in Applied(book, cs) && Applied(book, cs)[t] == book[t]
  {
    if cs != [] {
      var n := |cs| - 1;
      assert cs[n] in cs && forall c :: c in cs[..n] ==> c in cs;
      Untouched(book, cs[..n], t);
    }
  }

  /** Each repair is worth the gap between the position's value and its repriced one. */
  ghost predicate Prices(cs: seq<Correction>, book: Book) {
    forall c :: c in cs ==> c.ticker in book && c.shares == book[c.ticker].shares && book[c.ticker].broker.Some?
                            && c.usd == Worth(c.shares, c.close) - book[c.ticker].broker.value
  }

  lemma {:induction false} AppliedMovesMarks(book: Book, cs: seq<Correction>)
    requires DistinctNames(cs) && Prices(cs, book)
    ensures BrokerTotal(Applied(book, cs)) == BrokerTotal(book) + TotalOf(cs)
  {
    if cs != [] {
      var n := |cs| - 1;
      var c := cs[n];
      assert c in cs && forall x :: x in cs[..n] ==> x in cs;
      AppliedMovesMarks(book, cs[..n]);
      forall x | x in cs[..n] ensures x.ticker != c.ticker {
        var i :| 0 <= i < n && cs[..n][i] == x;
        assert cs[i].ticker != cs[n].ticker;
      }
      Untouched(book, cs[..n], c.ticker);
      var before, after := Applied(book, cs[..n]), Applied(book, cs);
      OneMove(before, after, c);
    }
  }

  lemma OneMove(before: Book, after: Book, c: Correction)
    requires c.ticker in before && after == before[c.ticker := Written(before[c.ticker], c)]
    requires before[c.ticker].broker.Some? && c.usd == Worth(c.shares, c.close) - before[c.ticker].broker.value
    ensures BrokerTotal(after) == BrokerTotal(before) + c.usd
  {
    assert after.Keys == before.Keys;
    Sums.Change(before.Keys, (t: Ticker) => Broker(before, t), (t: Ticker) => Broker(after, t), c.ticker);
  }

  /** What one repair says about its flag. */
  lemma RepairIsOfFlag(f: Flag, closes: map<Ticker, real>, ranges: map<Ticker, Range>, book: Book)
    requires f.ticker in book && f.shares == book[f.ticker].shares != 0.0
             && book[f.ticker].broker == Some(Worth(f.shares, f.mark))
    ensures Repair(f, closes, ranges).Some? ==>
      Repair(f, closes, ranges).value.ticker == f.ticker && Fits(Repair(f, closes, ranges).value, closes, ranges, book)
  {
    if Repair(f, closes, ranges).Some? { PriceMove(f.shares, closes[f.ticker], f.mark); }
    hide Worth;
  }

  /** A repair at the settled close, inside the range, worth the gap it closes. */
  ghost predicate Fits(c: Correction, closes: map<Ticker, real>, ranges: map<Ticker, Range>, book: Book) {
    && c.ticker in book && c.shares == book[c.ticker].shares && book[c.ticker].broker.Some?
    && c.usd == Worth(c.shares, c.close) - book[c.ticker].broker.value
    && c.ticker in closes && c.ticker in ranges && c.close == closes[c.ticker]
    && ranges[c.ticker].low <= c.close <= ranges[c.ticker].high
  }

  lemma {:induction false} RepairsFit(flags: seq<Flag>, closes: map<Ticker, real>, ranges: map<Ticker, Range>, book: Book)
    requires Distinct(flags) && Describes(flags, book)
    ensures DistinctNames(Repairs(flags, closes, ranges))
    ensures forall c :: c in Repairs(flags, closes, ranges) ==> Fits(c, closes, ranges, book)
    ensures forall c :: c in Repairs(flags, closes, ranges) ==> exists f :: f in flags && f.ticker == c.ticker
  {
    if flags != [] {
      var n := |flags| - 1;
      var f := flags[n];
      assert f in flags && forall g :: g in flags[..n] ==> g in flags;
      FlagNames(flags[..n], f) by { assert flags == flags[..n] + [f]; }
      RepairsFit(flags[..n], closes, ranges, book);
      RepairIsOfFlag(f, closes, ranges, book);
      var rest := Repairs(flags[..n], closes, ranges);
      if Repair(f, closes, ranges).Some? { NamesSnoc(rest, Repair(f, closes, ranges).value); }
      hide Distinct, DistinctNames, Fits, Describes, Repair;
    }
  }

  lemma RepairsPrice(flags: seq<Flag>, closes: map<Ticker, real>, ranges: map<Ticker, Range>, book: Book)
    requires Distinct(flags) && Describes(flags, book)
    ensures DistinctNames(Repairs(flags, closes, ranges)) && Prices(Repairs(flags, closes, ranges), book)
    ensures forall c :: c in Repairs(flags, closes, ranges) ==>
      c.ticker in closes && c.ticker in ranges && c.close == closes[c.ticker]
      && ranges[c.ticker].low <= c.close <= ranges[c.ticker].high
  {
    RepairsFit(flags, closes, ranges, book);
    hide DistinctNames, Repairs, Worth;
  }

  lemma FlagNames(flags: seq<Flag>, f: Flag)
    requires Distinct(flags + [f])
    ensures Distinct(flags) && forall g :: g in flags ==> g.ticker != f.ticker
  {
    var all := flags + [f];
    assert all[|flags|] == f && forall i :: 0 <= i < |flags| ==> all[i] == flags[i];
    forall g | g in flags ensures g.ticker != f.ticker {
      var i :| 0 <= i < |flags| && flags[i] == g;
      assert all[i].ticker != all[|flags|].ticker;
    }
  }

  lemma NamesSnoc(cs: seq<Correction>, c: Correction)
    requires DistinctNames(cs) && forall x :: x in cs ==> x.ticker != c.ticker
    ensures DistinctNames(cs + [c])
  {}

  /** An applied plan moves NAV and the position rows by the same amount, so
      NAV less the sum of broker marks is what it was. */
  lemma NavAndMarksMoveTogether(book: Book, flags: seq<Flag>, closes: map<Ticker, real>, ranges: map<Ticker, Range>, nav: real)
    requires Distinct(flags) && Describes(flags, book)
    ensures var cs := Repairs(flags, closes, ranges);
      (nav + TotalOf(cs)) - BrokerTotal(Applied(book, cs)) == nav - BrokerTotal(book)
  {
    RepairsPrice(flags, closes, ranges, book);
    AppliedMovesMarks(book, Repairs(flags, closes, ranges));
  }

  lemma {:induction false} WrittenAt(book: Book, cs: seq<Correction>, c: Correction)
    requires DistinctNames(cs) && c in cs && c.ticker in book
    ensures c.ticker in Applied(book, cs) && Applied(book, cs)[c.ticker] == Written(book[c.ticker], c)
  {
    var n := |cs| - 1;
    var i :| 0 <= i < |cs| && cs[i] == c;
    if i == n {
      forall x | x in cs[..n] ensures x.ticker != c.ticker {
        var j :| 0 <= j < n && cs[..n][j] == x;
        assert cs[j].ticker != cs[n].ticker;
      }
      Untouched(book, cs[..n], c.ticker);
    } else {
      assert cs[..n][i] == c;
      WrittenAt(book, cs[..n], c);
      assert cs[i].ticker != cs[n].ticker;
    }
  }

  /** After the settled-close override a corrected name has no mark basis left,
      its raw mark is preserved, and its mark is inside the day's range. */
  lemma CorrectedNameIsClean(book: Book, flags: seq<Flag>, closes: map<Ticker, real>, ranges: map<Ticker, Range>, c: Correction)
    requires Distinct(flags) && Describes(flags, book) && c in Repairs(flags, closes, ranges)
    ensures var after := Applied(book, Repairs(flags, closes, ranges));
      && c.ticker in book && c.ticker in after && c.ticker in closes && after[c.ticker].shares == book[c.ticker].shares
      && after[c.ticker].broker == Some(Worth(after[c.ticker].shares, closes[c.ticker]))
      && (book[c.ticker].raw.None? ==> after[c.ticker].raw == Some(book[c.ticker].broker))
      && !Outside(after[c.ticker], RangeOf(ranges, c.ticker))
  {
    RepairsPrice(flags, closes, ranges, book);
    WrittenAt(book, Repairs(flags, closes, ranges), c);
    if book[c.ticker].shares != 0.0 { MarkIsClose(c.shares, c.close); }
  }

  lemma MarkIsClose(shares: real, close: real)
    requires shares != 0.0
    ensures Worth(shares, close) / shares == close
  {}

  // ---------------------------------------------------------------- restating

  /** Nothing of `cs` is left to restate. */
  ghost predicate AllDone(book: Book, cs: seq<Correction>) {
    forall c :: c in cs && c.ticker in book ==> book[c.ticker].corrected
  }

  lemma {:induction false} RestatedIsDone(book: Book, cs: seq<Correction>)
    ensures AllDone(Restated(book, cs), cs) && Restated(book, cs).Keys == book.Keys
    ensures forall t :: t in book && book[t].corrected ==> Restated(book, cs)[t] == book[t]
  {
    if cs != [] {
      var n := |cs| - 1;
      assert cs == cs[..n] + [cs[n]];
      RestatedIsDone(book, cs[..n]);
    }
  }

  lemma {:induction false} NothingToRestate(book: Book, cs: seq<Correction>)
    requires AllDone(book, cs)
    ensures Restated(book, cs) == book
  {
    if cs != [] {
      var n := |cs| - 1;
      assert cs[n] in cs && forall c :: c in cs[..n] ==> c in cs;
      NothingToRestate(book, cs[..n]);
    }
  }

  /** Restating twice is restating once. */
  lemma RestateIsIdempotent(book: Book, cs: seq<Correction>)
    ensures Restated(Restated(book, cs), cs) == Restated(book, cs)
  {
    RestatedIsDone(book, cs);
    NothingToRestate(Restated(book, cs), cs);
  }

  /** Restating an old row writes exactly what forward-writing would have
      written, and leaves a forward-written row alone. */
  lemma {:induction false} RestateIsForwardWrite(book: Book, cs: seq<Correction>)
    requires DistinctNames(cs) && forall t :: t in book ==> !book[t].corrected
    ensures Restated(book, cs) == Applied(book, cs)
  {
    if cs != [] {
      var n := |cs| - 1;
      RestateIsForwardWrite(book, cs[..n]);
      forall x | x in cs[..n] ensures x.ticker != cs[n].ticker {
        var j :| 0 <= j < n && cs[..n][j] == x;
        assert cs[j].ticker != cs[n].ticker;
      }
      AppliedKeys(book, cs[..n]);
      if cs[n].ticker in book { Untouched(book, cs[..n], cs[n].ticker); }
    }
  }

  lemma ForwardWrittenIsLeftAlone(book: Book, cs: seq<Correction>)
    requires DistinctNames(cs)
    ensures Restated(Applied(book, cs), cs) == Applied(book, cs)
  {
    AppliedKeys(book, cs);
    forall c | c in cs && c.ticker in book ensures Applied(book, cs)[c.ticker].corrected {
      WrittenAt(book, cs, c);
    }
    NothingToRestate(Applied(book, cs), cs);
  }
}
