/**
 Two records of one decision, one in doubt and one pending, of a ticker that was
 neither executed nor bought: how both come to be bought.  Every other bought
 ticker is first made to show at the broker; then the daemon restarts, the
 record in doubt returns to pending, and one poll places the two.
 */
module BuyTwins {
  import opened OrderBooks
  import opened BuyProtocol
  import opened BuyMarks
  import opened BuyDecisions
  import opened BuyRetries
  import opened BuyRestarts

  /** The ticker is executed, or has a bought record in the book. */
  ghost predicate Anchored(b: Book, landed: seq<nat>, t: Ticker) {
    t in Tickers(b.executedToday) || exists z :: z in b.approved && z.uid in landed && z.ticker == t
  }

  /** Memory is saved, and holds the two records. */
  ghost predicate Twins(s: State, x: Entry, y: Entry) {
    && s.disk == s.mem && GoodBook(s.mem, s.nextUid) && AllPositive(s.mem.approved)
    && (forall u :: u in s.landed ==> u < s.nextUid)
    && x in s.mem.approved && y in s.mem.approved && x.status == Executing && y.status == Pending
    && x.uid != y.uid && x.id == y.id && x.ticker == y.ticker
    && !Anchored(s.mem, s.landed, x.ticker)
  }

  /** A bought ticker that a restart would still have to be shown. */
  ghost predicate Unshown(s: State, u: Ticker) {
    !Shows(s, u) && u !in Tickers(s.mem.executedToday) && Anchored(s.mem, s.landed, u)
  }

  // ---------------------------------------------------------------- a record for each unshown ticker

  function Longest(ids: seq<string>): (n: nat)
    ensures forall x :: x in ids ==> |x| <= n
  {
    if ids == [] then 0 else
      var n := Longest(ids[1..]);
      assert forall x :: x in ids ==> x == ids[0] || x in ids[1..];
      if |ids[0]| > n then |ids[0]| else n
  }

  /** There is always another id. */
  function Another(ids: seq<string>): (id: string)
    ensures id !in ids
  {
    seq(Longest(ids) + 1, i => 'x')
  }

  function IdsOf(es: seq<Entry>): (ids: seq<string>)
    ensures forall x :: x in es ==> x.id in ids
  {
    if es == [] then [] else
      assert forall x :: x in es ==> x == es[0] || x in es[1..];
      [es[0].id] + IdsOf(es[1..])
  }

  /** The book with a record of `u` more. */
  ghost predicate Grown(s: State, s': State, u: Ticker) {
    && s'.pc == s.pc && s'.landed == s.landed && s'.bought == s.bought && s'.held == s.held && s'.working == s.working
    && s'.mem.executedToday == s.mem.executedToday
    && (forall z :: z in s.mem.approved ==> z in s'.mem.approved)
    && (forall z :: z in s'.mem.approved && z.uid in s.landed ==> z in s.mem.approved)
    && exists w :: w in s'.mem.approved && w.ticker == u && w.status == Pending
  }

  lemma AddOne(r: Run, q: State, x: Entry, y: Entry, u: Ticker) returns (r': Run)
    requires Continues(r, q) && End(r).pc.Ready? && Twins(End(r), x, y)
    ensures Continues(r', q) && Twins(End(r'), x, y) && Grown(End(r), End(r'), u)
  {
    var s := End(r);
    var id := Another(s.bought + IdsOf(s.mem.approved));
    assert id !in s.bought && forall z :: z in s.mem.approved ==> z.id != id;
    AppendsTwin(s, x, y, id, u);
    hide Continues, Twins, Grown, Redeployed;
    r' := Extend(r, q, Redeploy(id, u, 1));
  }

  lemma AppendsTwin(s: State, x: Entry, y: Entry, id: string, u: Ticker)
    requires s.pc.Ready? && Twins(s, x, y) && forall z :: z in s.mem.approved ==> z.id != id
    ensures Twins(Redeployed(s, id, u, 1), x, y) && Grown(s, Redeployed(s, id, u, 1), u)
  {
    var e := Entry(s.nextUid, id, u, 1, Pending);
    var s' := Redeployed(s, id, u, 1);
    assert s'.mem.approved == s.mem.approved + [e];
    assert forall z :: z in s'.mem.approved <==> z in s.mem.approved || z == e;
    AppendIsGood(s.mem, e, s.nextUid);
    hide GoodBook;
  }

  lemma AppendIsGood(b: Book, e: Entry, nextUid: nat)
    requires GoodBook(b, nextUid) && e.uid == nextUid && e.status == Pending
    ensures GoodBook(b.(approved := b.approved + [e]), nextUid + 1)
  {
    var r := b.approved + [e];
    forall i, j | 0 <= i < j < |r| ensures r[i].uid != r[j].uid { assert r[i] == b.approved[i]; assert r[i] in b.approved; }
  }

  ghost predicate HasPending(s: State, u: Ticker) {
    exists w :: w in s.mem.approved && w.ticker == u && w.status == Pending
  }

  /** Nothing pending is lost, and no ticker becomes unshown. */
  ghost predicate NoWorse(s: State, s': State) {
    forall v :: (HasPending(s, v) ==> HasPending(s', v)) && (Unshown(s', v) ==> Unshown(s, v))
  }

  lemma GrownKeeps(s: State, s': State, u: Ticker)
    requires Grown(s, s', u)
    ensures NoWorse(s, s') && HasPending(s', u)
  {
    forall v | Unshown(s', v) ensures Unshown(s, v) {
      var z :| z in s'.mem.approved && z.uid in s'.landed && z.ticker == v;
      assert z in s.mem.approved;
    }
  }

  lemma {:induction false} AddAll(r: Run, q: State, x: Entry, y: Entry, us: set<Ticker>) returns (r': Run)
    requires Continues(r, q) && End(r).pc.Ready? && Twins(End(r), x, y)
    ensures Continues(r', q) && End(r').pc.Ready? && Twins(End(r'), x, y)
    ensures (forall u :: u in us ==> HasPending(End(r'), u)) && NoWorse(End(r), End(r'))
    decreases |us|
  {
    r' := r;
    if us != {} {
      var u :| u in us;
      var r1 := AddOne(r, q, x, y, u);
      GrownKeeps(End(r), End(r1), u);
      hide Continues, Twins, Grown, HasPending, Unshown, End;
      r' := AddAll(r1, q, x, y, us - {u});
    }
  }

  // ---------------------------------------------------------------- one walk shows them all

  ghost predicate Ahead(rest: seq<Entry>, u: Ticker) { exists w :: w in rest && w.ticker == u }

  /** Every unshown ticker has a record ahead, and the walk agrees with the book on it. */
  ghost predicate Showing(s: State, x: Entry, y: Entry) {
    && s.pc.Loop? && Twins(s, x, y)
    && forall u :: Unshown(s, u) ==> Aligned(s, u) && Ahead(s.pc.rest, u)
  }

  lemma BeginsShowing(s: State, x: Entry, y: Entry)
    requires s.pc.Ready? && Twins(s, x, y) && forall u :: Unshown(s, u) ==> HasPending(s, u)
    ensures Showing(Apply(s, BeginEntries), x, y)
  {
    var s' := Apply(s, BeginEntries);
    forall u | Unshown(s', u) ensures Aligned(s', u) && Ahead(s'.pc.rest, u) {
      assert Unshown(s, u);
      var w :| w in s.mem.approved && w.ticker == u && w.status == Pending;
      WalkAligns(s.mem, w);
    }
    hide PendingOf, PendingEntries, Aligned, Unshown;
  }

  lemma TailAhead(rest: seq<Entry>, u: Ticker)
    requires rest != [] && rest[0].ticker != u
    ensures Ahead(rest, u) ==> Ahead(rest[1..], u)
    ensures PendingOf(rest[1..], u) == PendingOf(rest, u)
  {
    assert rest == [rest[0]] + rest[1..];
    assert forall w :: w in rest ==> w == rest[0] || w in rest[1..];
    PendingOfCons(rest[0], rest[1..], u);
    hide PendingOf;
  }

  /** Memory and the walk both lost only records of other tickers. */
  lemma StillAligned(s: State, s': State, u: Ticker)
    requires Aligned(s, u) && s'.pc.Loop? && Get(s'.working, u) == Get(s.working, u)
    requires PendingOf(s'.mem.approved, u) == PendingOf(s.mem.approved, u)
    requires PendingOf(s'.pc.rest, u) == PendingOf(s.pc.rest, u) && forall y :: y in s'.pc.rest ==> y in s.pc.rest
    ensures Aligned(s', u)
  {
    hide PendingOf;
  }

  lemma PassesAligned(s: State, u: Ticker)
    requires Aligned(s, u) && s.pc.rest != [] && s.pc.rest[0].ticker != u && Ahead(s.pc.rest, u)
    ensures Aligned(s.(pc := Loop(s.pc.rest[1..])), u) && Ahead(s.pc.rest[1..], u)
  {
    TailAhead(s.pc.rest, u);
    hide PendingOf, Ahead;
    StillAligned(s, s.(pc := Loop(s.pc.rest[1..])), u);
  }

  lemma PassesShowing(s: State, x: Entry, y: Entry)
    requires Showing(s, x, y) && s.pc.rest != [] && !Unshown(s, s.pc.rest[0].ticker)
    ensures Showing(s.(pc := Loop(s.pc.rest[1..])), x, y)
  {
    var s' := s.(pc := Loop(s.pc.rest[1..]));
    forall u | Unshown(s', u) ensures Aligned(s', u) && Ahead(s'.pc.rest, u) {
      assert Unshown(s, u) && u != s.pc.rest[0].ticker;
      hide Twins, Unshown, Aligned;
      PassesAligned(s, u);
    }
    hide Unshown, Aligned, GoodBook, AllPositive, Anchored;
  }

  lemma {:induction false} OthersPending(es: seq<Entry>, t: Ticker, u: Ticker)
    requires t != u
    ensures PendingOf(Restamp(es, t, {Pending}, Executing), u) == PendingOf(es, u)
  {
    if es != [] {
      var e, rest := es[0], es[1..];
      assert es == [e] + rest;
      PendingOfCons(e, rest, u);
      RestampCons(e, rest, t);
      hide Restamp, PendingOf;
      if e.ticker == t && e.status == Pending {
        PendingOfCons(e.(status := Executing), rest, u);
      } else {
        OthersPending(rest, t, u);
        PendingOfCons(e, Restamp(rest, t, {Pending}, Executing), u);
      }
    }
  }

  /** The head is placed, lands, and its last attempt times out. */
  function Shown(s: State): State
    requires s.pc.Loop? && s.pc.rest != [] && s.pc.rest[0].shares > 0
  {
    var h := s.pc.rest[0];
    var b := MarkExecuting(s.mem, h.ticker);
    s.(mem := b, disk := b, landed := s.landed + [h.uid], bought := s.bought + [h.id],
       working := s.working[h.ticker := Get(s.working, h.ticker) + h.shares],
       executed := s.executed + {h.ticker}, pc := Loop(s.pc.rest[1..]))
  }

  lemma ShownIs(s: State)
    requires s.pc.Loop? && s.pc.rest != [] && s.pc.rest[0].shares > 0
    ensures Intended(s).pc == Placing(s.pc.rest[0], s.pc.rest[1..])
    ensures var l := Landed(Intended(s));
      l.pc == AtBroker(s.pc.rest[0], s.pc.rest[1..])
      && Shown(s) == l.(disk := l.mem, executed := l.executed + {s.pc.rest[0].ticker}, pc := Loop(s.pc.rest[1..]))
  {
    hide MarkExecuting;
  }

  lemma ThenIntend(r: Run, q: State) returns (r': Run)
    requires Continues(r, q) && Enabled(End(r), WriteAhead) && MarksItself(End(r), WriteAhead)
    ensures Continues(r', q) && End(r') == Intended(End(r))
  {
    hide Continues, MarksItself, Intended;
    r' := Extend(r, q, WriteAhead);
  }

  lemma ThenLand(r: Run, q: State) returns (r': Run)
    requires Continues(r, q) && End(r).pc.Placing? && End(r).pc.e.shares > 0
    ensures Continues(r', q) && End(r') == Landed(End(r))
  {
    hide Continues, Landed;
    r' := Extend(r, q, Land);
  }

  lemma ThenGiveUp(r: Run, q: State) returns (r': Run)
    requires Continues(r, q) && End(r).pc.AtBroker?
    ensures Continues(r', q)
    ensures var s := End(r); End(r') == s.(disk := s.mem, executed := s.executed + {s.pc.e.ticker}, pc := Loop(s.pc.rest))
  {
    hide Continues;
    r' := Extend(r, q, TimedOut);
  }

  lemma HeadReady(s: State, t: Ticker)
    requires Aligned(s, t) && s.pc.rest != [] && s.pc.rest[0].ticker == t
    ensures s.pc.Loop? && s.pc.rest[0].shares > 0 && Enabled(s, WriteAhead) && MarksItself(s, WriteAhead)
  {
    HeadMarksItself(s, t);
    assert s.pc.rest[0] in s.pc.rest;
    hide PendingOf, MarksItself;
  }

  lemma PlaceHead(r: Run, q: State, t: Ticker) returns (r': Run)
    requires Continues(r, q) && Aligned(End(r), t) && End(r).pc.rest != [] && End(r).pc.rest[0].ticker == t
    ensures End(r).pc.rest[0].shares > 0
    ensures Continues(r', q) && End(r') == Shown(End(r))
  {
    HeadReady(End(r), t);
    hide PendingOf, MarksItself, Continues, Intended, Landed, Shown, Aligned, End, Enabled;
    ShownIs(End(r));
    r' := ThenIntend(r, q);
    r' := ThenLand(r', q);
    r' := ThenGiveUp(r', q);
  }

  lemma HeadInBook(s: State, t: Ticker)
    requires Aligned(s, t) && s.pc.rest != [] && s.pc.rest[0].ticker == t
    ensures s.pc.rest[0] in s.mem.approved && s.pc.rest[0].shares > 0
  {
    var h, rest := s.pc.rest[0], s.pc.rest[1..];
    assert s.pc.rest == [h] + rest && h in s.pc.rest;
    PendingOfCons(h, rest, t);
    assert PendingOf(s.mem.approved, t)[0] == h;
    assert h in PendingOf(s.mem.approved, t);
  }

  /** Landing a record of another ticker anchors no third one. */
  lemma ShownAnchors(s: State, u: Ticker)
    requires s.pc.Loop? && s.pc.rest != [] && s.pc.rest[0].shares > 0 && s.pc.rest[0] in s.mem.approved
    requires UniqueUids(s.mem.approved) && u != s.pc.rest[0].ticker
    ensures Anchored(Shown(s).mem, Shown(s).landed, u) ==> Anchored(s.mem, s.landed, u)
  {
    var h, s' := s.pc.rest[0], Shown(s);
    RestampMembers(s.mem.approved, h.ticker, {Pending}, Executing);
    if u !in Tickers(s.mem.executedToday) && Anchored(s'.mem, s'.landed, u) {
      var z :| z in s'.mem.approved && z.uid in s'.landed && z.ticker == u;
      assert z in s.mem.approved;
      var i :| 0 <= i < |s.mem.approved| && s.mem.approved[i] == z;
      var j :| 0 <= j < |s.mem.approved| && s.mem.approved[j] == h;
      assert i != j;
    }
  }

  lemma ShownIsTwins(s: State, x: Entry, y: Entry)
    requires Twins(s, x, y) && s.pc.Loop? && s.pc.rest != [] && s.pc.rest[0].shares > 0
    requires s.pc.rest[0] in s.mem.approved && s.pc.rest[0].ticker != x.ticker
    ensures Twins(Shown(s), x, y)
  {
    var h := s.pc.rest[0];
    RestampMembers(s.mem.approved, h.ticker, {Pending}, Executing);
    ShownAnchors(s, x.ticker);
    hide Anchored, MarkExecuting;
    assert UniqueUids(Restamp(s.mem.approved, h.ticker, {Pending}, Executing));
    MarkIsGood(s.mem, h.ticker, s.nextUid);
  }

  lemma MarkIsGood(b: Book, t: Ticker, nextUid: nat)
    ensures GoodBook(b, nextUid) ==> GoodBook(MarkExecuting(b, t), nextUid)
    ensures AllPositive(b.approved) ==> AllPositive(MarkExecuting(b, t).approved)
    ensures forall x :: x in b.approved && x.ticker != t ==> x in MarkExecuting(b, t).approved
  {
    RestampMembers(b.approved, t, {Pending}, Executing);
  }

  lemma ShownStays(s: State, u: Ticker)
    requires s.pc.Loop? && s.pc.rest != [] && s.pc.rest[0].shares > 0 && s.pc.rest[0] in s.mem.approved
    requires UniqueUids(s.mem.approved) && Unshown(Shown(s), u)
    ensures u != s.pc.rest[0].ticker && Unshown(s, u)
  {
    assert u != s.pc.rest[0].ticker;
    ShownAnchors(s, u);
    hide Anchored, MarkExecuting;
    assert Shown(s).mem.executedToday == s.mem.executedToday by { MarkLeavesExecuted(s.mem, s.pc.rest[0].ticker); }
  }

  lemma MarkLeavesExecuted(b: Book, t: Ticker)
    ensures MarkExecuting(b, t).executedToday == b.executedToday
  {}

  lemma ShownPending(s: State, u: Ticker)
    requires s.pc.Loop? && s.pc.rest != [] && s.pc.rest[0].shares > 0 && s.pc.rest[0].ticker != u
    ensures PendingOf(Shown(s).mem.approved, u) == PendingOf(s.mem.approved, u)
    ensures Get(Shown(s).working, u) == Get(s.working, u)
  {
    OthersPending(s.mem.approved, s.pc.rest[0].ticker, u);
    hide PendingOf, Restamp;
  }

  lemma ShownAligns(s: State, u: Ticker)
    requires Aligned(s, u) && s.pc.rest != [] && s.pc.rest[0].shares > 0 && s.pc.rest[0].ticker != u
    requires Ahead(s.pc.rest, u)
    ensures Aligned(Shown(s), u) && Ahead(Shown(s).pc.rest, u)
  {
    TailAhead(s.pc.rest, u);
    ShownPending(s, u);
    assert Shown(s).pc == Loop(s.pc.rest[1..]);
    hide PendingOf, Ahead, Shown;
    StillAligned(s, Shown(s), u);
  }

  lemma PlacedShowing(s: State, x: Entry, y: Entry)
    requires Showing(s, x, y) && s.pc.rest != [] && s.pc.rest[0].shares > 0
    requires s.pc.rest[0] in s.mem.approved && Unshown(s, s.pc.rest[0].ticker)
    ensures Showing(Shown(s), x, y)
  {
    var s' := Shown(s);
    assert s'.pc == Loop(s.pc.rest[1..]);
    ShownIsTwins(s, x, y);
    assert UniqueUids(s.mem.approved);
    hide Twins, Shown, Anchored, UniqueUids;
    forall u | Unshown(s', u) ensures Aligned(s', u) && Ahead(s'.pc.rest, u) {
      ShownStays(s, u);
      hide Unshown, Aligned;
      ShownAligns(s, u);
    }
    hide Unshown, Aligned;
  }

  lemma {:induction false} ShowAll(r: Run, q: State, x: Entry, y: Entry) returns (r': Run)
    requires Continues(r, q) && Showing(End(r), x, y)
    ensures Continues(r', q) && Twins(End(r'), x, y) && End(r').pc.Loop?
    ensures forall u :: !Unshown(End(r'), u)
    decreases |End(r).pc.rest|
  {
    r' := r;
    if End(r).pc.rest != [] {
      var u := End(r).pc.rest[0].ticker;
      if Unshown(End(r), u) {
        HeadInBook(End(r), u);
        PlacedShowing(End(r), x, y);
        r' := PlaceHead(r, q, u);
      } else {
        PassesShowing(End(r), x, y);
        hide Showing, Unshown, Continues;
        r' := Extend(r, q, NoTrigger);
      }
      hide Showing, Unshown, Continues;
      r' := ShowAll(r', q, x, y);
    }
  }

  // ---------------------------------------------------------------- the restart revives the one in doubt

  /** Down, with nothing of the ticker held or working and everything else shown. */
  lemma ThenVanish(r: Run, q: State, x: Entry, y: Entry) returns (r': Run)
    requires Continues(r, q) && End(r).pc.Loop? && Twins(End(r), x, y) && forall u :: !Unshown(End(r), u)
    ensures Continues(r', q) && End(r').pc.Down? && End(r').disk == End(r).mem && End(r').nextUid == End(r).nextUid
    ensures !Shows(End(r'), x.ticker) && Get(End(r').working, x.ticker) == 0
    ensures ShowsLanded(End(r'), Boot({}, false))
  {
    var s, t := End(r), x.ticker;
    hide Continues, Twins;
    r' := Extend(r, q, Crash);
    r' := Extend(r', q, BuyExpires(t, Get(s.working, t)));
    r' := Extend(r', q, SharesSold(t, Get(s.held, t)));
    var d := End(r');
    assert d == s.(mem := Book([], []), executed := {}, pc := Down, working := s.working[t := 0], held := s.held[t := 0]);
    assert s.disk == s.mem by { TwinsAreSaved(s, x, y); }
    hide End, Unshown;
    VanishShows(s, d, x, y);
  }

  lemma TwinsAreSaved(s: State, x: Entry, y: Entry)
    requires Twins(s, x, y)
    ensures s.disk == s.mem
  {}

  lemma VanishShows(s: State, d: State, x: Entry, y: Entry)
    requires Twins(s, x, y) && forall u :: !Unshown(s, u)
    requires d == s.(mem := Book([], []), executed := {}, pc := Down, working := s.working[x.ticker := 0], held := s.held[x.ticker := 0])
    ensures ShowsLanded(d, Boot({}, false))
  {
    forall z | z in d.disk.approved && z.uid in d.landed && z.ticker !in Tickers(d.disk.executedToday)
      ensures Shows(d, z.ticker)
    {
      assert Anchored(s.mem, s.landed, z.ticker) && !Unshown(s, z.ticker);
    }
  }

  lemma Revived(d: State, x: Entry) returns (x': Entry)
    requires d.pc.Down? && GoodBook(d.disk, d.nextUid) && x in d.disk.approved
    requires !Shows(d, x.ticker) && x.ticker !in Tickers(d.disk.executedToday)
    ensures x.ticker !in Seed(AfterStartup(d, {}), d.rows, false)
    ensures x' == x.(status := Pending) && x' in AfterStartup(d, {}).approved
  {
    var r := AfterStartup(d, {});
    SeedsExactly(d, {}, false, x.ticker);
    SeededBy(r, d.rows, false, x.ticker);
    NotSeededIsPending(d, x, {});
    ReconciledComesFrom(d, {});
    hide Reconcile, AfterStartup, Seed, Doubts;
    x' :| x' in r.approved && x'.uid == x.uid && x'.status == Pending && x'.ticker == x.ticker;
    var y :| y in d.disk.approved && SameRecord(x', y);
    OneUid(d.disk.approved, x, y);
  }

  lemma OneUid(es: seq<Entry>, x: Entry, y: Entry)
    requires UniqueUids(es) && x in es && y in es && x.uid == y.uid
    ensures x == y
  {
    var i :| 0 <= i < |es| && es[i] == x;
    var j :| 0 <= j < |es| && es[j] == y;
  }

  lemma ThenRevive(r: Run, q: State, x: Entry, y: Entry) returns (r': Run)
    requires Continues(r, q) && End(r).pc.Down? && ShowsLanded(End(r), Boot({}, false))
    requires GoodBook(End(r).disk, End(r).nextUid) && AllPositive(End(r).disk.approved)
    requires x in End(r).disk.approved && y in End(r).disk.approved && x.uid != y.uid && x.id == y.id && x.ticker == y.ticker
    requires x.ticker !in Tickers(End(r).disk.executedToday)
    requires !Shows(End(r), x.ticker) && Get(End(r).working, x.ticker) == 0
    ensures Continues(r', q) && Aligned(End(r'), x.ticker)
    ensures x.(status := Pending) in End(r').pc.rest && y.(status := Pending) in End(r').pc.rest
  {
    var d := End(r);
    var x' := Revived(d, x);
    var y' := Revived(d, y);
    SettledIsPositive(d, {});
    r' := Extend(r, q, Boot({}, false));
    var s := End(r');
    assert s.disk == AfterStartup(d, {}) && s.executed == Seed(s.disk, d.rows, false) && s.pc.Idle? && s.working == d.working;
    hide Continues, End, Reconcile, AfterStartup, Seed, AllPositive, GoodBook;
    r' := ThenReload(r', q, s.disk.approved, x');
    assert y' in PendingEntries(MergeExecuted(s.disk, s.executed));
  }

  // ---------------------------------------------------------------- one poll places both

  lemma {:induction false} WalkToEither(r: Run, q: State, x: Entry, y: Entry) returns (r': Run, first: Entry, other: Entry)
    requires Continues(r, q) && Aligned(End(r), x.ticker) && x in End(r).pc.rest && y in End(r).pc.rest && x != y
    ensures Continues(r', q) && Aligned(End(r'), x.ticker) && End(r').pc.rest != []
    ensures End(r').pc.rest[0] == first && other in End(r').pc.rest[1..]
    ensures (first == x && other == y) || (first == y && other == x)
    decreases |End(r).pc.rest|
  {
    var rest := End(r).pc.rest;
    if rest[0] == x {
      r', first, other := r, x, y;
    } else if rest[0] == y {
      r', first, other := r, y, x;
    } else {
      hide Continues, PendingOf, Aligned;
      r' := ThenPass(r, q, x.ticker);
      r', first, other := WalkToEither(r', q, x, y);
    }
  }

  lemma ShownAligned(s: State, t: Ticker)
    requires Aligned(s, t) && s.pc.rest != [] && s.pc.rest[0].ticker == t && s.pc.rest[0].shares > 0
    ensures Aligned(Shown(s).(working := Shown(s).working[t := 0]), t)
  {
    HeadMarksItself(s, t);
    hide PendingOf, Restamp;
  }

  /** The head is placed and lands; its order expires. */
  lemma BuyAndGo(r: Run, q: State, t: Ticker) returns (r': Run)
    requires Continues(r, q) && Aligned(End(r), t) && End(r).pc.rest != [] && End(r).pc.rest[0].ticker == t
    ensures Continues(r', q) && Aligned(End(r'), t) && End(r').pc.rest == End(r).pc.rest[1..]
    ensures End(r').bought == End(r).bought + [End(r).pc.rest[0].id]
  {
    var s := End(r);
    r' := PlaceHead(r, q, t);
    ShownAligned(s, t);
    hide Continues, Aligned, PendingOf;
    r' := Extend(r', q, BuyExpires(t, Get(End(r').working, t)));
  }

  lemma BuyBoth(r: Run, q: State, x: Entry, y: Entry) returns (r': Run)
    requires Continues(r, q) && Aligned(End(r), x.ticker) && x in End(r).pc.rest && y in End(r).pc.rest
    requires x != y && x.id == y.id && x.ticker == y.ticker
    ensures Continues(r', q) && !NoRepeat(End(r').bought)
  {
    var first, other;
    hide Continues, Aligned, PendingOf;
    r', first, other := WalkToEither(r, q, x, y);
    var n := |End(r').bought|;
    r' := BuyAndGo(r', q, x.ticker);
    assert End(r').bought[n] == x.id && |End(r').bought| == n + 1;
    r' := ThenWalk(r', q, other);
    r' := ThenBuy(r', q, other);
    assert End(r').bought[n] == End(r').bought[n + 1];
  }

  /** From any such state, both are bought. */
  lemma TwinsAreBought(q: State, x: Entry, y: Entry) returns (r: Run)
    requires q.pc.Ready? && Twins(q, x, y)
    ensures Continues(r, q) && !NoRepeat(End(r).bought)
  {
    r := Start(q);
    assert Continues(r, q) && End(r) == q;
    r := ShowOthers(r, q, x, y);
    var s := End(r);
    assert GoodBook(s.mem, s.nextUid) && AllPositive(s.mem.approved) && x.ticker !in Tickers(s.mem.executedToday);
    r := ThenVanish(r, q, x, y);
    hide Continues, Twins, Unshown, GoodBook, AllPositive;
    r := ThenRevive(r, q, x, y);
    r := BuyBoth(r, q, x.(status := Pending), y.(status := Pending));
  }

  lemma ShowOthers(r: Run, q: State, x: Entry, y: Entry) returns (r': Run)
    requires Continues(r, q) && End(r).pc.Ready? && Twins(End(r), x, y)
    ensures Continues(r', q) && Twins(End(r'), x, y) && End(r').pc.Loop?
    ensures forall u :: !Unshown(End(r'), u)
  {
    var s := End(r);
    var us := set z | z in s.mem.approved && z.uid in s.landed :: z.ticker;
    forall u | Unshown(s, u) ensures u in us {}
    hide Continues, Twins, Unshown, HasPending;
    r' := AddAll(r, q, x, y, us);
    BeginsShowing(End(r'), x, y);
    r' := Extend(r', q, BeginEntries);
    r' := ShowAll(r', q, x, y);
  }
}
