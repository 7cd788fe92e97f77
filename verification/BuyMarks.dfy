/**
 The write-ahead mark goes by ticker.  When it lands on another record than the
 one being placed, some continuation buys that record twice.
 */
module BuyMarks {
  import opened OrderBooks
  import opened BuyProtocol

  /** The pending records of `t`, in book order. */
  function PendingOf(es: seq<Entry>, t: Ticker): seq<Entry> {
    Keep(es, (e: Entry) => e.ticker == t && e.status == Pending)
  }

  lemma PendingOfCons(e: Entry, es: seq<Entry>, t: Ticker)
    ensures PendingOf([e] + es, t) == (if e.ticker == t && e.status == Pending then [e] else []) + PendingOf(es, t)
  {
    assert ([e] + es)[1..] == es;
  }

  lemma {:induction false} FirstIsHead(es: seq<Entry>, t: Ticker)
    requires PendingOf(es, t) != []
    ensures FirstMatch(es, t, {Pending}) < |es| && es[FirstMatch(es, t, {Pending})] == PendingOf(es, t)[0]
  {
    var e, rest := es[0], es[1..];
    assert es == [e] + rest;
    PendingOfCons(e, rest, t);
    hide PendingOf;
    if !(e.ticker == t && e.status == Pending) { FirstIsHead(rest, t); }
  }

  lemma {:induction false} RestampTakesHead(es: seq<Entry>, t: Ticker)
    requires PendingOf(es, t) != []
    ensures PendingOf(Restamp(es, t, {Pending}, Executing), t) == PendingOf(es, t)[1..]
  {
    var e, rest := es[0], es[1..];
    assert es == [e] + rest;
    PendingOfCons(e, rest, t);
    RestampCons(e, rest, t);
    hide Restamp, PendingOf, FirstMatch;
    if e.ticker == t && e.status == Pending {
      PendingOfCons(e.(status := Executing), rest, t);
    } else {
      RestampTakesHead(rest, t);
      PendingOfCons(e, Restamp(rest, t, {Pending}, Executing), t);
    }
  }

  lemma RestampCons(e: Entry, rest: seq<Entry>, t: Ticker)
    ensures Restamp([e] + rest, t, {Pending}, Executing)
         == if e.ticker == t && e.status == Pending then [e.(status := Executing)] + rest
            else [e] + Restamp(rest, t, {Pending}, Executing)
  {
    assert ([e] + rest)[1..] == rest;
  }

  lemma {:induction false} PendingOfPending(es: seq<Entry>, t: Ticker)
    ensures PendingOf(Keep(es, (e: Entry) => e.status == Pending), t) == PendingOf(es, t)
  {
    if es != [] {
      var e, rest := es[0], es[1..];
      assert es == [e] + rest;
      PendingOfPending(rest, t);
      PendingOfCons(e, rest, t);
      PendingOfCons(e, Keep(rest, (x: Entry) => x.status == Pending), t);
    }
  }

  /** The walk and the book agree on what is left to place of `t`. */
  ghost predicate Aligned(s: State, t: Ticker) {
    && s.pc.Loop? && PendingOf(s.mem.approved, t) == PendingOf(s.pc.rest, t)
    && (forall y :: y in s.pc.rest ==> y.status == Pending && y.shares > 0)
    && Get(s.working, t) == 0
  }

  lemma PassOver(o: State, m: Mode, s: State, t: Ticker) returns (s': State)
    requires Reaches(o, m, s) && Aligned(s, t) && s.pc.rest != [] && s.pc.rest[0].ticker != t
    ensures Reaches(o, m, s') && Aligned(s', t) && s' == s.(pc := Loop(s.pc.rest[1..]))
  {
    assert s.pc.rest == [s.pc.rest[0]] + s.pc.rest[1..];
    PendingOfCons(s.pc.rest[0], s.pc.rest[1..], t);
    hide Reaches, PendingOf;
    s' := Step(o, m, s, NoTrigger);
  }

  lemma HeadMarksItself(s: State, t: Ticker)
    requires Aligned(s, t) && s.pc.rest != [] && s.pc.rest[0].ticker == t
    ensures MarksItself(s, WriteAhead)
    ensures PendingOf(Restamp(s.mem.approved, t, {Pending}, Executing), t) == PendingOf(s.pc.rest[1..], t)
  {
    assert s.pc.rest == [s.pc.rest[0]] + s.pc.rest[1..];
    PendingOfCons(s.pc.rest[0], s.pc.rest[1..], t);
    FirstIsHead(s.mem.approved, t);
    RestampTakesHead(s.mem.approved, t);
  }

  /** The head is placed, nothing lands, and the last attempt times out. */
  lemma TimeOutHead(o: State, m: Mode, s: State, t: Ticker) returns (s': State)
    requires Reaches(o, m, s) && Aligned(s, t) && s.pc.rest != [] && s.pc.rest[0].ticker == t
    ensures Reaches(o, m, s') && Aligned(s', t) && s'.pc == Loop(s.pc.rest[1..])
    ensures s'.landed == s.landed && s'.working == s.working
  {
    HeadMarksItself(s, t);
    assert s.pc.rest[0] in s.pc.rest;
    hide Reaches, PendingOf, MarksItself, Restamp;
    s' := Step(o, m, s, WriteAhead);
    s' := Step(o, m, s', TimedOut);
  }

  lemma {:induction false} WalkTo(o: State, m: Mode, s: State, x: Entry) returns (s': State)
    requires Reaches(o, m, s) && Aligned(s, x.ticker) && x in s.pc.rest
    ensures Reaches(o, m, s') && Aligned(s', x.ticker) && s'.pc.rest != [] && s'.pc.rest[0] == x
    ensures s'.landed == s.landed
    decreases |s.pc.rest|
  {
    hide Reaches, PendingOf;
    if s.pc.rest[0] == x {
      s' := s;
    } else {
      if s.pc.rest[0].ticker == x.ticker {
        s' := TimeOutHead(o, m, s, x.ticker);
      } else {
        s' := PassOver(o, m, s, x.ticker);
      }
      s' := WalkTo(o, m, s', x);
    }
  }

  lemma BuyHead(o: State, m: Mode, s: State, x: Entry) returns (s': State)
    requires Reaches(o, m, s) && Aligned(s, x.ticker) && s.pc.rest != [] && s.pc.rest[0] == x
    ensures Reaches(o, m, s') && s'.landed == s.landed + [x.uid]
  {
    HeadMarksItself(s, x.ticker);
    assert x in s.pc.rest;
    hide Reaches, PendingOf, MarksItself, Restamp;
    s' := Step(o, m, s, WriteAhead);
    s' := Step(o, m, s', Land);
  }

  /** The placed order lands, the connection drops, the order expires, and the
      next poll offers the record again. */
  lemma DropAndReload(o: State, m: Mode, s: State) returns (s': State)
    requires Reaches(o, m, s) && s.pc.Placing? && s.pc.e.shares > 0
    ensures var b := MergeExecuted(s.disk, s.executed);
      && Reaches(o, m, s') && s'.mem == b && s'.pc == Loop(PendingEntries(b))
      && s'.landed == s.landed + [s.pc.e.uid] && Get(s'.working, s.pc.e.ticker) == 0
  {
    hide Reaches, MergeExecuted, PendingEntries;
    var t := s.pc.e.ticker;
    s' := Step(o, m, s, Land);
    s' := Step(o, m, s', ConnectionLost);
    s' := Step(o, m, s', BuyExpires(t, Get(s'.working, t)));
    s' := Step(o, m, s', Tick);
    s' := Step(o, m, s', BeginEntries);
  }

  ghost predicate AllPositive(es: seq<Entry>) { forall x :: x in es ==> x.shares > 0 }

  /** The mark on another record: the record is still pending in the marked book. */
  lemma StillThere(b: Book, e: Entry, executed: set<Ticker>)
    requires e in b.approved && e.status == Pending && e.ticker !in executed && AllPositive(b.approved)
    requires var k := FirstMatch(b.approved, e.ticker, {Pending}); k < |b.approved| && b.approved[k].uid != e.uid
    ensures var r := MergeExecuted(MarkExecuting(b, e.ticker), executed);
      e in PendingEntries(r) && AllPositive(r.approved)
  {
    var es := b.approved;
    var i :| 0 <= i < |es| && es[i] == e;
    var marked := MarkExecuting(b, e.ticker).approved;
    assert marked[i] == e;
    forall x | x in marked ensures x.shares > 0 {
      var j :| 0 <= j < |marked| && marked[j] == x;
      assert es[j] in es;
    }
  }

  /** A mark on another record lets the placed record be bought again. */
  lemma StrayMarkBuysTwice(s: State) returns (r: Run)
    requires Inv(s) && Enabled(s, WriteAhead) && !MarksItself(s, WriteAhead)
    requires s.pc.rest[0].ticker !in s.executed && AllPositive(s.mem.approved)
    ensures Origin(r) == Intended(s) && Valid(r) && AllMark(r) && AllShow(r) && !AtMostOnce(End(r).landed)
  {
    var o := Intended(s);
    Begin(o, Mode(true, true));
    StrayingHead(s);
    hide Reaches, Inv, Strays, MarksItself, Valid, Origin, End, AllMark, AllShow, AtMostOnce;
    var w := DropAndOfferAgain(s, o);
    r := BuyAgain(o, w, s.pc.rest[0]);
  }

  lemma HeadIsInBook(s: State)
    requires Inv(s) && s.pc.Loop? && s.pc.rest != []
    ensures s.pc.rest[0] in s.mem.approved && s.pc.rest[0].status == Pending
  {
    assert s.pc.rest[0] in s.pc.rest;
  }

  lemma DropAndOfferAgain(s: State, o: State) returns (w: State)
    requires s.pc.Loop? && s.pc.rest != [] && s.pc.rest[0].shares > 0
    requires Strays(s.mem, s.pc.rest[0], s.executed)
    requires o == Intended(s) && Reaches(o, Mode(true, true), o)
    ensures Reaches(o, Mode(true, true), w) && Aligned(w, s.pc.rest[0].ticker) && s.pc.rest[0] in w.pc.rest
    ensures w.landed == s.landed + [s.pc.rest[0].uid]
  {
    hide Reaches, MergeExecuted, MarkExecuting, PendingOf, PendingEntries, Strays;
    OfferedAfterStrayMark(s.mem, s.pc.rest[0], s.executed);
    w := DropAndReload(o, Mode(true, true), o);
  }

  /** The mark of `e` would land on another record, and nothing else is in its way. */
  ghost predicate Strays(b: Book, e: Entry, executed: set<Ticker>) {
    && e in b.approved && e.status == Pending && e.ticker !in executed && AllPositive(b.approved)
    && var k := FirstMatch(b.approved, e.ticker, {Pending}); k < |b.approved| && b.approved[k].uid != e.uid
  }

  lemma StrayingHead(s: State)
    requires Inv(s) && Enabled(s, WriteAhead) && !MarksItself(s, WriteAhead)
    requires s.pc.rest[0].ticker !in s.executed && AllPositive(s.mem.approved)
    ensures Strays(s.mem, s.pc.rest[0], s.executed)
  {
    HeadIsInBook(s);
    FirstPendingExists(s.mem.approved, s.pc.rest[0]);
  }

  lemma OfferedAfterStrayMark(b: Book, e: Entry, executed: set<Ticker>)
    requires Strays(b, e, executed)
    ensures var r := MergeExecuted(MarkExecuting(b, e.ticker), executed);
      && e in PendingEntries(r) && PendingOf(r.approved, e.ticker) == PendingOf(PendingEntries(r), e.ticker)
      && forall y :: y in PendingEntries(r) ==> y.status == Pending && y.shares > 0
  {
    StillThere(b, e, executed);
    var r := MergeExecuted(MarkExecuting(b, e.ticker), executed);
    PendingOfPending(r.approved, e.ticker);
    PendingStays(r);
    hide PendingOf, MergeExecuted, MarkExecuting, Keep;
  }

  lemma PendingStays(b: Book)
    requires AllPositive(b.approved)
    ensures forall y :: y in PendingEntries(b) ==> y.status == Pending && y.shares > 0
  {}

  lemma BuyAgain(o: State, w: State, e: Entry) returns (r: Run)
    requires Reaches(o, Mode(true, true), w) && Aligned(w, e.ticker) && e in w.pc.rest
    requires e.uid in w.landed
    ensures Origin(r) == o && Valid(r) && AllMark(r) && AllShow(r) && !AtMostOnce(End(r).landed)
  {
    var m, n := Mode(true, true), |w.landed|;
    var i :| 0 <= i < n && w.landed[i] == e.uid;
    hide Reaches, Aligned, Valid, Origin, AllMark, AllShow;
    var w' := WalkTo(o, m, w, e);
    w' := BuyHead(o, m, w', e);
    assert w'.landed[i] == w'.landed[n];
    r := Witness(o, m, w');
  }

  lemma FirstPendingExists(es: seq<Entry>, e: Entry)
    requires e in es && e.status == Pending
    ensures FirstMatch(es, e.ticker, {Pending}) < |es|
  {}

  // ---------------------------------------------------------------- the walk follows the book

  /** Records of one ticker are visited in book order. */
  ghost predicate InOrder(b: Book, rest: seq<Entry>) {
    forall i, j :: 0 <= i < j < |rest| && rest[i].ticker == rest[j].ticker ==>
      BeforeUid(b.approved, rest[i].uid, rest[j].uid)
  }

  ghost predicate Orderly(s: State) { s.pc.Loop? || Busy(s.pc) ==> InOrder(s.mem, s.pc.rest) }

  /** `k` lists records of `es` in their order. */
  ghost predicate Follows(k: seq<Entry>, es: seq<Entry>) {
    && (forall x :: x in k ==> x in es)
    && forall i, j :: 0 <= i < j < |k| ==> BeforeUid(es, k[i].uid, k[j].uid)
  }

  lemma FollowsCons(h: Entry, k: seq<Entry>, es: seq<Entry>)
    requires Follows(k, es)
    ensures Follows(k, [h] + es) && Follows([h] + k, [h] + es)
  {
    forall i, j | 0 <= i < j < |k| ensures BeforeUid([h] + es, k[i].uid, k[j].uid) {
      BeforeShift(h, es, k[i].uid, k[j].uid);
    }
    forall j | 0 <= j < |k| ensures BeforeUid([h] + es, h.uid, k[j].uid) {
      assert k[j] in k;
      BeforeShift(h, es, h.uid, k[j].uid);
    }
  }

  lemma {:induction false} KeptFollows(es: seq<Entry>, p: Entry -> bool)
    ensures Follows(Keep(es, p), es)
  {
    if es != [] {
      assert es == [es[0]] + es[1..];
      KeptFollows(es[1..], p);
      FollowsCons(es[0], Keep(es[1..], p), es[1..]);
      hide Follows;
    }
  }

  lemma WalkInOrder(b: Book)
    ensures InOrder(b, PendingEntries(b))
  {
    KeptFollows(b.approved, (e: Entry) => e.status == Pending);
  }

  lemma TailInOrder(b: Book, rest: seq<Entry>)
    requires rest != [] && InOrder(b, rest)
    ensures InOrder(b, rest[1..])
  {}

  lemma RestampInOrder(b: Book, rest: seq<Entry>, t: Ticker, from: set<Status>, st: Status)
    requires InOrder(b, rest)
    ensures InOrder(b.(approved := Restamp(b.approved, t, from, st)), rest)
  {
    RestampMembers(b.approved, t, from, st);
  }

  lemma FinalInOrder(b: Book, t: Ticker, rest: seq<Entry>)
    requires UniqueUids(b.approved) && forall x :: x in b.approved ==> x.status != Executed
    requires Heads(b, t, rest) && InOrder(b, rest) && forall y :: y in rest ==> y in b.approved
    ensures InOrder(MarkExecuted(b, t), rest)
  {
    MarkExecutedMembers(b, t);
    hide Heads, MarkExecuted;
    forall i, j | 0 <= i < j < |rest| && rest[i].ticker == rest[j].ticker
      ensures BeforeUid(MarkExecuted(b, t).approved, rest[i].uid, rest[j].uid)
    {
      MarkIsNotOn(b, t, rest, rest[i]);
      MarkIsNotOn(b, t, rest, rest[j]);
    }
  }

  lemma StepOrderly(s: State, a: Action)
    requires Inv(s) && Orderly(s) && Enabled(s, a)
    ensures Orderly(Apply(s, a))
  {
    match a
    case BeginEntries => WalkInOrder(s.mem);
    case NoTrigger => TailInOrder(s.mem, s.pc.rest);
    case Skip => TailInOrder(s.mem, s.pc.rest);
    case WriteAhead =>
      TailInOrder(s.mem, s.pc.rest);
      RestampInOrder(s.mem, s.pc.rest[1..], s.pc.rest[0].ticker, {Pending}, Executing);
    case Rejected => RestampInOrder(s.mem, s.pc.rest, s.pc.e.ticker, {Executing}, Pending);
    case Finalize =>
      InFlightHeads(s.mem, s.pc.e, s.pc.rest, s.landed);
      FinalInOrder(s.mem, s.pc.e.ticker, s.pc.rest);
    case _ => hide Inv, InOrder;
  }

  lemma {:induction false} OrderlyAlongRun(r: Run)
    requires Inv(Origin(r)) && Orderly(Origin(r)) && Valid(r) && AllMark(r) && AllShow(r)
    ensures Orderly(End(r))
  {
    if r.Then? {
      OrderlyAlongRun(r.prev);
      InvAlongRun(r.prev);
      StepOrderly(End(r.prev), r.a);
    }
  }

  // ---------------------------------------------------------------- a stray mark on a traded ticker

  /** `e` is placed while still pending, behind a record of its ticker in doubt. */
  ghost predicate Astray(b: Book, e: Entry, rest: seq<Entry>) {
    && e in b.approved && e.status == Pending && Heads(b, e.ticker, rest)
    && forall y :: y in rest ==> y.uid != e.uid && (y.ticker == e.ticker ==> BeforeUid(b.approved, e.uid, y.uid))
  }

  /** If a record of `t` was bought, `t` stays blocked when one mark is taken back. */
  ghost predicate Spare(b: Book, t: Ticker, landed: seq<nat>) {
    (exists x :: x in b.approved && x.ticker == t && x.uid in landed) ==>
      || t in Tickers(b.executedToday)
      || exists y, z :: y in b.approved && z in b.approved && y.uid != z.uid && y.ticker == z.ticker == t && y.status == z.status == Executing
  }

  /** A record of a traded ticker is being placed under another record's mark. */
  ghost predicate Limbo(s: State) {
    && Busy(s.pc) && s.pc.e.ticker in s.executed
    && AtMostOnce(s.landed) && (forall u :: u in s.landed ==> u < s.nextUid)
    && GoodBook(s.disk, s.nextUid) && Guarded(s.disk, s.landed) && Stripped(s.disk, s.landed, s.executed)
    && BookOk(s.mem, s.landed, s.executed, s.nextUid)
    && Walkable(s.mem, s.pc.rest, s.landed) && Astray(s.mem, s.pc.e, s.pc.rest)
    && (forall x :: x in s.disk.approved && x.uid == s.pc.e.uid ==> x.ticker == s.pc.e.ticker && Blocked(s.disk, x.ticker))
    && (s.pc.Placing? ==> s.pc.e.uid !in s.landed && Spare(s.mem, s.pc.e.ticker, s.landed))
  }

  /** A record behind the one placed keeps its place behind it and behind the mark. */
  lemma BehindTheStray(b: Book, e: Entry, rest: seq<Entry>, y: Entry)
    requires UniqueUids(b.approved) && e in b.approved && e.status == Pending && InOrder(b, [e] + rest)
    requires y in rest && y in b.approved && y.ticker == e.ticker
    requires var k := FirstMatch(b.approved, e.ticker, {Pending}); k < |b.approved| && b.approved[k].uid != e.uid
    ensures var r := MarkExecuting(b, e.ticker).approved; var k := FirstMatch(b.approved, e.ticker, {Pending});
      BeforeUid(r, e.uid, y.uid) && BeforeUid(r, r[k].uid, y.uid)
  {
    var es, l := b.approved, [e] + rest;
    var k := FirstMatch(es, e.ticker, {Pending});
    var n :| 0 <= n < |rest| && rest[n] == y;
    assert l[0] == e && l[n + 1] == y;
    assert BeforeUid(es, e.uid, y.uid);
    var i :| 0 <= i < |es| && es[i] == e;
    var m := Earlier(es, i, y.uid);
    var r := MarkExecuting(b, e.ticker).approved;
    assert k < i && r[i].uid == e.uid && r[m].uid == y.uid;
  }

  lemma PendingSurvives(b: Book, t: Ticker, y: Entry)
    requires FirstMatch(b.approved, t, {Pending}) < |b.approved|
    requires y in b.approved && y.status == Pending && y.uid != b.approved[FirstMatch(b.approved, t, {Pending})].uid
    ensures y in MarkExecuting(b, t).approved
  {
    var m :| 0 <= m < |b.approved| && b.approved[m] == y;
    assert MarkExecuting(b, t).approved[m] == y;
  }

  lemma NotTheMarked(b: Book, e: Entry, rest: seq<Entry>, y: Entry)
    requires UniqueUids(b.approved) && e in b.approved && e.status == Pending && InOrder(b, [e] + rest)
    requires y in rest && y in b.approved
    requires var k := FirstMatch(b.approved, e.ticker, {Pending}); k < |b.approved| && b.approved[k].uid != e.uid
    ensures y.uid != b.approved[FirstMatch(b.approved, e.ticker, {Pending})].uid
  {
    var es, l := b.approved, [e] + rest;
    var k := FirstMatch(es, e.ticker, {Pending});
    var i :| 0 <= i < |es| && es[i] == e;
    if y.ticker == e.ticker {
      var n :| 0 <= n < |rest| && rest[n] == y;
      assert l[0] == e && l[n + 1] == y;
      var m := Earlier(es, i, y.uid);
      assert k < i < m;
    } else {
      var m :| 0 <= m < |es| && es[m] == y;
      assert m != k;
    }
  }

  lemma StrayIsAstray(b: Book, e: Entry, rest: seq<Entry>, landed: seq<nat>)
    requires UniqueUids(b.approved) && Walkable(b, [e] + rest, landed) && InOrder(b, [e] + rest)
    requires FirstMatch(b.approved, e.ticker, {Pending}) < |b.approved|
    requires b.approved[FirstMatch(b.approved, e.ticker, {Pending})].uid != e.uid
    ensures Astray(MarkExecuting(b, e.ticker), e, rest)
  {
    var es, l := b.approved, [e] + rest;
    var k := FirstMatch(es, e.ticker, {Pending});
    var r := MarkExecuting(b, e.ticker).approved;
    assert l[0] == e && e in l && l[1..] == rest && r[k] in r;
    PendingSurvives(b, e.ticker, e);
    hide MarkExecuting, InOrder;
    forall y | y in rest
      ensures y.uid != e.uid
      ensures y.ticker == e.ticker ==> BeforeUid(r, e.uid, y.uid) && BeforeUid(r, r[k].uid, y.uid)
    {
      var n :| 0 <= n < |rest| && rest[n] == y;
      assert l[n + 1] == y && y in l;
      if y.ticker == e.ticker { BehindTheStray(b, e, rest, y); }
    }
  }

  lemma StrayIsWalkable(b: Book, e: Entry, rest: seq<Entry>, landed: seq<nat>)
    requires UniqueUids(b.approved) && Walkable(b, [e] + rest, landed) && InOrder(b, [e] + rest)
    requires FirstMatch(b.approved, e.ticker, {Pending}) < |b.approved|
    requires b.approved[FirstMatch(b.approved, e.ticker, {Pending})].uid != e.uid
    ensures Walkable(MarkExecuting(b, e.ticker), rest, landed)
  {
    var l := [e] + rest;
    RestampMembers(b.approved, e.ticker, {Pending}, Executing);
    assert l[0] == e && e in l && l[1..] == rest;
    forall y | y in rest ensures y in l && y in MarkExecuting(b, e.ticker).approved {
      var n :| 0 <= n < |rest| && rest[n] == y;
      assert l[n + 1] == y && y in l;
      NotTheMarked(b, e, rest, y);
      PendingSurvives(b, e.ticker, y);
    }
    hide InOrder;
  }

  lemma MarkLeavesSpare(b: Book, t: Ticker, landed: seq<nat>)
    requires UniqueUids(b.approved) && Guarded(b, landed) && FirstMatch(b.approved, t, {Pending}) < |b.approved|
    requires forall x :: x in b.approved ==> x.status != Executed
    ensures Spare(MarkExecuting(b, t), t, landed)
  {
    var es := b.approved;
    var k := FirstMatch(es, t, {Pending});
    var r := MarkExecuting(b, t);
    RestampMembers(es, t, {Pending}, Executing);
    if x :| x in r.approved && x.ticker == t && x.uid in landed && t !in Tickers(r.executedToday) {
      var i :| 0 <= i < |es| && r.approved[i] == x;
      assert es[i] in es && es[i].ticker == t && es[i].uid in landed;
      assert es[i].status == Executing || Blocked(b, t);
      var y :| y in es && y.ticker == t && y.status == Executing;
      assert y in r.approved && r.approved[k] in r.approved;
      var m :| 0 <= m < |es| && es[m] == y;
    }
  }

  lemma EntersLimbo(s: State)
    requires Inv(s) && Orderly(s) && Enabled(s, WriteAhead) && !MarksItself(s, WriteAhead)
    requires s.pc.rest[0].ticker in s.executed
    ensures Limbo(Intended(s))
  {
    var e, rest := s.pc.rest[0], s.pc.rest[1..];
    assert s.pc.rest == [e] + rest;
    HeadIsInBook(s);
    FirstPendingExists(s.mem.approved, e);
    StrayIsAstray(s.mem, e, rest, s.landed);
    StrayIsWalkable(s.mem, e, rest, s.landed);
    MarkLeavesSpare(s.mem, e.ticker, s.landed);
    MarkIsOk(s.mem, e.ticker, s.landed, s.executed, s.nextUid);
    AstrayBlocks(MarkExecuting(s.mem, e.ticker), e, rest);
  }

  lemma AstrayBlocks(b: Book, e: Entry, rest: seq<Entry>)
    requires Astray(b, e, rest)
    ensures Blocked(b, e.ticker)
    ensures UniqueUids(b.approved) ==> forall x :: x in b.approved && x.uid == e.uid ==> x == e
  {
    if UniqueUids(b.approved) {
      forall x | x in b.approved && x.uid == e.uid ensures x == e {
        var i :| 0 <= i < |b.approved| && b.approved[i] == x;
        var j :| 0 <= j < |b.approved| && b.approved[j] == e;
        assert i == j;
      }
    }
  }

  lemma LandInLimbo(s: State)
    requires Limbo(s) && s.pc.Placing? && s.pc.e.shares > 0
    ensures Limbo(Landed(s))
  {
    var e := s.pc.e;
    var landed := s.landed + [e.uid];
    AstrayBlocks(s.mem, e, s.pc.rest);
    assert forall u :: u in landed <==> u in s.landed || u == e.uid;
    assert Guarded(s.disk, landed) && Guarded(s.mem, landed);
    assert Stripped(s.disk, landed, s.executed) && Stripped(s.mem, landed, s.executed);
    assert Walkable(s.mem, s.pc.rest, landed);
    hide Guarded, Stripped, Walkable, Astray, Blocked;
  }

  /** One of two marks remains when the first is taken back. */
  lemma OneMarkRemains(b: Book, t: Ticker, y: Entry, z: Entry)
    requires y in b.approved && z in b.approved && y.uid != z.uid && y.ticker == z.ticker == t && y.status == z.status == Executing
    ensures Blocked(RevertToPending(b, t), t)
  {
    var es := b.approved;
    var k := FirstMatch(es, t, {Executing});
    var w := if y == es[k] then z else y;
    RestampMembers(es, t, {Executing}, Pending);
    var m :| 0 <= m < |es| && es[m] == w;
    assert RevertToPending(b, t).approved[m] == w;
  }

  lemma SpareBlocks(b: Book, t: Ticker, landed: seq<nat>, x: Entry)
    requires Spare(b, t, landed) && x in RevertToPending(b, t).approved && x.ticker == t && x.uid in landed
    ensures Blocked(RevertToPending(b, t), t)
  {
    var es := b.approved;
    if t !in Tickers(b.executedToday) {
      var i :| 0 <= i < |es| && RevertToPending(b, t).approved[i] == x;
      assert es[i] in es && es[i].ticker == t && es[i].uid in landed;
      var y, z :| y in es && z in es && y.uid != z.uid && y.ticker == z.ticker == t && y.status == z.status == Executing;
      OneMarkRemains(b, t, y, z);
      hide RevertToPending;
    }
  }

  lemma SpareReverts(b: Book, t: Ticker, landed: seq<nat>, executed: set<Ticker>, nextUid: nat)
    requires BookOk(b, landed, executed, nextUid) && Spare(b, t, landed) && t in executed
    ensures BookOk(RevertToPending(b, t), landed, executed, nextUid)
  {
    var r := RevertToPending(b, t);
    RestampMembers(b.approved, t, {Executing}, Pending);
    forall x | x in r.approved && x.status == Pending && x.uid in landed ensures Blocked(r, x.ticker) {
      if x.ticker != t { StillBlocked(b, r, x.ticker); } else { SpareBlocks(b, t, landed, x); }
    }
    hide Spare, Blocked;
  }

  lemma RejectedInLimbo(s: State)
    requires Limbo(s) && s.pc.Placing?
    ensures Inv(Reverted(s))
  {
    var t := s.pc.e.ticker;
    SpareReverts(s.mem, t, s.landed, s.executed, s.nextUid);
    RevertIsWalkable(s.mem, t, s.pc.rest, s.landed);
    assert s.executed + {t} == s.executed;
    hide RevertToPending, Guarded, Walkable, Spare;
  }

  lemma FinalizedInLimbo(s: State)
    requires Limbo(s) && s.pc.Logged?
    ensures Inv(Finalized(s))
  {
    FinalIsOk(s.mem, s.pc.e, s.pc.rest, s.landed, s.executed, s.nextUid);
    FinalIsWalkable(s.mem, s.pc.e.ticker, s.pc.rest, s.landed);
    hide MarkExecuted, Guarded, Walkable, Spare;
  }

  lemma RewrittenInLimbo(s: State, plan: seq<Entry>)
    requires Limbo(s) && FreshPlan(plan, s.nextUid)
    ensures Limbo(Rewritten(s, plan))
  {
    forall x | x in plan ensures s.nextUid <= x.uid < s.nextUid + |plan| && x.status == Pending {
      var i :| 0 <= i < |plan| && plan[i] == x;
    }
    assert s.pc.e in s.mem.approved;
    assert Guarded(Rewritten(s, plan).disk, s.landed) && Stripped(Rewritten(s, plan).disk, s.landed, s.executed);
    hide Walkable, Astray, Spare, Blocked, Guarded, Stripped;
  }

  /** Every step out of limbo is back under the invariant, and within it nothing is lost. */
  lemma LimboStep(s: State, a: Action)
    requires Limbo(s) && Enabled(s, a)
    ensures Limbo(Apply(s, a)) || Inv(Apply(s, a))
  {
    match a
    case Land => LandInLimbo(s); hide Limbo;
    case Rejected => RejectedInLimbo(s); hide Limbo, Inv;
    case Finalize => FinalizedInLimbo(s); hide Limbo, Inv;
    case PlannerRewrite(plan) => RewrittenInLimbo(s, plan); hide Limbo, Inv;
    case _ => hide Guarded, Stripped, Walkable, Astray, Blocked, Spare;
  }

  lemma {:induction false} SafeFromLimbo(r: Run)
    requires Limbo(Origin(r)) && Valid(r) && AllMark(r) && AllShow(r)
    ensures Limbo(End(r)) || Inv(End(r))
  {
    if r.Then? {
      SafeFromLimbo(r.prev);
      if Limbo(End(r.prev)) { LimboStep(End(r.prev), r.a); } else { StepKeeps(End(r.prev), r.a); }
    }
  }

  // ---------------------------------------------------------------- when a mark is safe

  /** The write-ahead mark is safe for every continuation exactly when it lands
      on the record being placed, or the ticker was traded already. */
  lemma MarkIsSafeExactly(s: State)
    requires Inv(s) && Orderly(s) && Enabled(s, WriteAhead) && AllPositive(s.mem.approved)
    ensures (forall r :: Origin(r) == Intended(s) && Valid(r) && AllMark(r) && AllShow(r) ==> AtMostOnce(End(r).landed))
       <==> MarksItself(s, WriteAhead) || s.pc.rest[0].ticker in s.executed
  {
    if MarksItself(s, WriteAhead) {
      WriteAheadKeeps(s);
      forall r | Origin(r) == Intended(s) && Valid(r) && AllMark(r) && AllShow(r) ensures AtMostOnce(End(r).landed) {
        InvAlongRun(r);
      }
    } else if s.pc.rest[0].ticker in s.executed {
      EntersLimbo(s);
      forall r | Origin(r) == Intended(s) && Valid(r) && AllMark(r) && AllShow(r) ensures AtMostOnce(End(r).landed) {
        SafeFromLimbo(r);
      }
    } else {
      var r := StrayMarkBuysTwice(s);
      assert !AtMostOnce(End(r).landed);
    }
  }
}
