/**
 The intraday order book: approved entries with a write-ahead status, and the
 records already executed this session.

 `Book` is the value that is written to disk.  Class `OrderBook` is the object
 the daemon mutates; each of its methods walks the record list the way the
 program does and is proved equal to a function on `Book`.
 */
module OrderBooks {

  type Ticker = string

  datatype Status = Pending | Executing | Executed

  /** `uid` tells one record object from another; `id` is the decision key that
      `add_entry` deduplicates on (ticker, session date, sizing source). */
  datatype Entry = Entry(uid: nat, id: string, ticker: Ticker, shares: int, status: Status)

  datatype Book = Book(approved: seq<Entry>, executedToday: seq<Entry>)

  // ---------------------------------------------------------------- lists

  function Keep(es: seq<Entry>, p: Entry -> bool): (r: seq<Entry>)
    ensures forall x :: x in r <==> x in es && p(x)
    ensures UniqueUids(es) ==> UniqueUids(r)
  {
    if es == [] then [] else
      var rest := Keep(es[1..], p);
      assert forall x :: x in es <==> x == es[0] || x in es[1..];
      assert UniqueUids(es) ==> UniqueUids(es[1..]) && forall x :: x in es[1..] ==> x.uid != es[0].uid;
      if p(es[0]) then [es[0]] + rest else rest
  }

  ghost predicate UniqueUids(es: seq<Entry>) {
    forall i, j :: 0 <= i < j < |es| ==> es[i].uid != es[j].uid
  }

  /** Position of the first record of `t` whose status is in `ss`; |es| if none. */
  function FirstMatch(es: seq<Entry>, t: Ticker, ss: set<Status>): (k: nat)
    ensures k <= |es|
    ensures k < |es| ==> es[k].ticker == t && es[k].status in ss
    ensures forall j :: 0 <= j < k ==> !(es[j].ticker == t && es[j].status in ss)
  {
    if es == [] then 0
    else if es[0].ticker == t && es[0].status in ss then 0
    else 1 + FirstMatch(es[1..], t, ss)
  }

  function Tickers(es: seq<Entry>): (r: set<Ticker>)
    ensures forall x :: x in es ==> x.ticker in r
    ensures forall t :: t in r ==> exists x :: x in es && x.ticker == t
  {
    set x | x in es :: x.ticker
  }

  // ---------------------------------------------------------------- queries

  function PendingEntries(b: Book): seq<Entry> {
    Keep(b.approved, (e: Entry) => e.status == Pending)
  }

  function ExecutingEntries(b: Book): seq<Entry> {
    Keep(b.approved, (e: Entry) => e.status == Executing)
  }

  // ---------------------------------------------------------------- mutations

  /** Gives status `st` to the first record of `t` whose status is in `from`. */
  function Restamp(es: seq<Entry>, t: Ticker, from: set<Status>, st: Status): (r: seq<Entry>)
    ensures |r| == |es|
    ensures UniqueUids(es) ==> UniqueUids(r)
  {
    var k := FirstMatch(es, t, from);
    if k < |es| then es[k := es[k].(status := st)] else es
  }

  function MarkExecuting(b: Book, t: Ticker): Book {
    b.(approved := Restamp(b.approved, t, {Pending}, Executing))
  }

  function RevertToPending(b: Book, t: Ticker): Book {
    b.(approved := Restamp(b.approved, t, {Executing}, Pending))
  }

  function MarkExecuted(b: Book, t: Ticker): Book {
    var k := FirstMatch(b.approved, t, {Pending, Executing});
    var stamped := Restamp(b.approved, t, {Pending, Executing}, Executed);
    Book(Keep(stamped, (e: Entry) => !(e.ticker == t && e.status == Executed)),
         if k < |b.approved| then b.executedToday + [stamped[k]] else b.executedToday)
  }

  function AddEntry(b: Book, e: Entry): Book {
    if exists x :: x in b.approved && x.id == e.id && x.status == Pending then b
    else b.(approved := b.approved + [e])
  }

  function MergeExecuted(b: Book, done: set<Ticker>): Book {
    b.(approved := Keep(b.approved, (e: Entry) => e.ticker !in done))
  }

  /** A mutation by ticker touches the record it was meant for exactly when no
      earlier record of that ticker has an eligible status. */
  lemma RestampHitsExactly(es: seq<Entry>, i: nat, from: set<Status>, st: Status)
    requires i < |es| && es[i].status in from && st !in from
    ensures (Restamp(es, es[i].ticker, from, st)[i].status == st)
       <==> (forall j :: 0 <= j < i ==> !(es[j].ticker == es[i].ticker && es[j].status in from))
  {
    var k := FirstMatch(es, es[i].ticker, from);
    assert k <= i;
    if k < i {
      assert es[k].ticker == es[i].ticker && es[k].status in from;
    }
  }

  /** Marking an intent and rolling it back restores the book exactly when no
      earlier record of the ticker was already in doubt. */
  lemma RevertUndoesMark(b: Book, t: Ticker)
    requires FirstMatch(b.approved, t, {Pending}) < |b.approved|
    ensures (RevertToPending(MarkExecuting(b, t), t) == b)
       <==> FirstMatch(b.approved, t, {Pending}) < FirstMatch(b.approved, t, {Executing})
            || FirstMatch(b.approved, t, {Executing}) == |b.approved|
  {
    var k := FirstMatch(b.approved, t, {Pending});
    var m := MarkExecuting(b, t).approved;
    var h := FirstMatch(m, t, {Executing});
    var d := FirstMatch(b.approved, t, {Executing});
    assert m[k].status == Executing && m[k].ticker == t;
    assert h <= k;
    if d < k {
      assert m[d] == b.approved[d];
      assert forall j :: 0 <= j < k ==> m[j] == b.approved[j];
      assert RevertToPending(MarkExecuting(b, t), t).approved[k].status == Executing;
    } else {
      assert forall j :: 0 <= j < k ==> m[j] == b.approved[j];
      assert m[k := m[k].(status := Pending)] == b.approved;
    }
  }

  // ---------------------------------------------------------------- the object

  lemma KeepStep(es: seq<Entry>, p: Entry -> bool, i: nat)
    requires i < |es|
    ensures Keep(es[i..], p) == (if p(es[i]) then [es[i]] else []) + Keep(es[i + 1..], p)
  {
    assert es[i..][0] == es[i] && es[i..][1..] == es[i + 1..];
  }

  /** The list rebuild `[e for e in entries if keep(e)]`. */
  method KeepAll(es: seq<Entry>, p: Entry -> bool) returns (out: seq<Entry>)
    ensures out == Keep(es, p)
  {
    out := [];
    assert es[0..] == es;
    assert Keep(es[|es|..], p) == [];
    hide Keep;
    for i := 0 to |es|
      invariant Keep(es, p) == out + Keep(es[i..], p)
    {
      KeepStep(es, p, i);
      if p(es[i]) { out := out + [es[i]]; }
    }
  }

  class OrderBook {
    var approved: seq<Entry>
    var executedToday: seq<Entry>

    ghost function View(): Book reads this { Book(approved, executedToday) }

    constructor (b: Book)
      ensures View() == b
    {
      approved, executedToday := b.approved, b.executedToday;
    }

    method FindFirst(t: Ticker, ss: set<Status>) returns (k: nat)
      ensures k == FirstMatch(approved, t, ss)
    {
      k := 0;
      while k < |approved|
        invariant k <= |approved|
        invariant FirstMatch(approved, t, ss) == k + FirstMatch(approved[k..], t, ss)
      {
        assert approved[k..][0] == approved[k] && approved[k..][1..] == approved[k + 1..];
        if approved[k].ticker == t && approved[k].status in ss { return; }
        k := k + 1;
      }
    }

    method MarkEntryExecuting(t: Ticker)
      modifies this
      ensures View() == MarkExecuting(old(View()), t)
    {
      var k := FindFirst(t, {Pending});
      if k < |approved| {
        approved := approved[k := approved[k].(status := Executing)];
      }
    }

    method RevertEntryToPending(t: Ticker)
      modifies this
      ensures View() == RevertToPending(old(View()), t)
    {
      var k := FindFirst(t, {Executing});
      if k < |approved| {
        approved := approved[k := approved[k].(status := Pending)];
      }
    }

    method Filter(p: Entry -> bool)
      modifies this
      ensures View() == old(View()).(approved := Keep(old(approved), p))
    {
      approved := KeepAll(approved, p);
    }

    method MarkEntryExecuted(t: Ticker)
      modifies this
      ensures View() == MarkExecuted(old(View()), t)
    {
      var k := FindFirst(t, {Pending, Executing});
      if k < |approved| {
        var e := approved[k].(status := Executed);
        approved := approved[k := e];
        executedToday := executedToday + [e];
      }
      Filter((e: Entry) => !(e.ticker == t && e.status == Executed));
    }

    method AddApprovedEntry(e: Entry)
      modifies this
      ensures View() == AddEntry(old(View()), e)
    {
      for i := 0 to |approved|
        invariant View() == old(View())
        invariant forall j :: 0 <= j < i ==> !(approved[j].id == e.id && approved[j].status == Pending)
      {
        if approved[i].id == e.id && approved[i].status == Pending { return; }
      }
      approved := approved + [e];
    }

    method MergeExecutedTickers(done: set<Ticker>)
      modifies this
      ensures View() == MergeExecuted(old(View()), done)
    {
      Filter((e: Entry) => e.ticker !in done);
    }
  }
}
