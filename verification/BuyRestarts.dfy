/**
 What a restart offers again.  Startup settles the records in doubt one by one,
 seeds the already-traded set from what that leaves, and the next poll strips
 the seeded tickers.
 */
module BuyRestarts {
  import opened OrderBooks
  import opened BuyProtocol
  import opened BuyMarks
  import opened BuyDecisions
  import opened BuyRetries

  // ---------------------------------------------------------------- counting what is in doubt

  /** The records of `t` in doubt. */
  ghost function Doubts(b: Book, t: Ticker): set<nat> {
    set x | x in b.approved && x.ticker == t && x.status == Executing :: x.uid
  }

  /** Those of the records to settle that the broker can be asked about. */
  ghost function Readable(todo: seq<Entry>, t: Ticker, unreadable: set<nat>): set<nat> {
    set x | x in todo && x.ticker == t && x.uid !in unreadable :: x.uid
  }

  /** A rollback goes to the first record in doubt: it takes one away, whichever was meant. */
  lemma RevertTakesOne(b: Book, t: Ticker)
    requires UniqueUids(b.approved)
    ensures |Doubts(RevertToPending(b, t), t)| == if Doubts(b, t) == {} then 0 else |Doubts(b, t)| - 1
  {
    var es, r := b.approved, RevertToPending(b, t);
    var k := FirstMatch(es, t, {Executing});
    if k < |es| {
      assert es[k] in es;
      RevertedDoubts(b, t);
    } else {
      assert Doubts(b, t) == {};
    }
  }

  lemma RevertedDoubts(b: Book, t: Ticker)
    requires UniqueUids(b.approved) && FirstMatch(b.approved, t, {Executing}) < |b.approved|
    ensures Doubts(RevertToPending(b, t), t) == Doubts(b, t) - {b.approved[FirstMatch(b.approved, t, {Executing})].uid}
  {
    var es, r := b.approved, RevertToPending(b, t).approved;
    var k := FirstMatch(es, t, {Executing});
    forall u | u in Doubts(b, t) && u != es[k].uid ensures u in Doubts(RevertToPending(b, t), t) {
      var i :| 0 <= i < |es| && es[i].uid == u && es[i].ticker == t && es[i].status == Executing;
      assert r[i] in r;
    }
    forall u | u in Doubts(RevertToPending(b, t), t) ensures u in Doubts(b, t) && u != es[k].uid {
      var i :| 0 <= i < |es| && r[i].uid == u && r[i].ticker == t && r[i].status == Executing;
      assert i != k && es[i] in es;
    }
  }

  ghost predicate Holds(b: Book, u: nat, t: Ticker) { exists x :: x in b.approved && x.uid == u && x.ticker == t }

  /** Settling a record of another ticker leaves `t` alone. */
  lemma OthersLeave(b: Book, u: Ticker, t: Ticker, s: State)
    requires u != t && forall x :: x in b.approved ==> x.status != Executed
    ensures var r := Resolved(b, u, s);
      && Doubts(r, t) == Doubts(b, t) && (t in Tickers(r.executedToday) <==> t in Tickers(b.executedToday))
      && forall v :: Holds(r, v, t) <==> Holds(b, v, t)
  {
    OtherTickersStay(b, u, t);
    OthersStayUnexecuted(b, u, t);
    hide MarkExecuted, RevertToPending, Tickers;
  }

  lemma RevertHolds(b: Book, t: Ticker)
    ensures forall v :: Holds(RevertToPending(b, t), v, t) <==> Holds(b, v, t)
  {
    var es, r := b.approved, RevertToPending(b, t).approved;
    forall v | Holds(b, v, t) ensures Holds(RevertToPending(b, t), v, t) {
      var i :| 0 <= i < |es| && es[i].uid == v && es[i].ticker == t;
      assert r[i] in r;
    }
    forall v | Holds(RevertToPending(b, t), v, t) ensures Holds(b, v, t) {
      var i :| 0 <= i < |es| && r[i].uid == v && r[i].ticker == t;
      assert es[i] in es;
    }
  }

  /** What settling leaves of a ticker the broker does not show: every record,
      no execution, and as many in doubt as could not be asked about. */
  ghost predicate Spared(b: Book, r: Book, t: Ticker, taken: nat) {
    && |Doubts(r, t)| + taken == |Doubts(b, t)|
    && (t in Tickers(r.executedToday) <==> t in Tickers(b.executedToday))
    && forall v :: Holds(r, v, t) <==> Holds(b, v, t)
  }

  lemma ReadableHead(todo: seq<Entry>, t: Ticker, unreadable: set<nat>)
    requires todo != [] && UniqueUids(todo)
    ensures UniqueUids(todo[1..])
    ensures |Readable(todo, t, unreadable)|
         == |Readable(todo[1..], t, unreadable)| + (if todo[0].ticker == t && todo[0].uid !in unreadable then 1 else 0)
  {
    ReadableSplits(todo, t, unreadable);
    var rest := Readable(todo[1..], t, unreadable);
    hide Readable;
    assert |rest + {}| == |rest|;
  }

  lemma ReadableSplits(todo: seq<Entry>, t: Ticker, unreadable: set<nat>)
    requires todo != [] && UniqueUids(todo)
    ensures todo[0].uid !in Readable(todo[1..], t, unreadable)
    ensures Readable(todo, t, unreadable)
         == Readable(todo[1..], t, unreadable) + (if todo[0].ticker == t && todo[0].uid !in unreadable then {todo[0].uid} else {})
  {
    var e, rest := todo[0], todo[1..];
    assert forall x :: x in todo <==> x == e || x in rest;
    forall x | x in rest ensures x.uid != e.uid {
      var i :| 0 <= i < |rest| && rest[i] == x;
      assert todo[i + 1] == x;
    }
  }

  lemma {:induction false} ReconcileSpares(b: Book, todo: seq<Entry>, unreadable: set<nat>, s: State, t: Ticker, nextUid: nat)
    requires GoodBook(b, nextUid) && UniqueUids(todo) && |Readable(todo, t, unreadable)| <= |Doubts(b, t)|
    requires !Shows(s, t) || forall x :: x in todo ==> x.ticker != t
    ensures Spared(b, Reconcile(b, todo, unreadable, s), t, |Readable(todo, t, unreadable)|)
    decreases |todo|
  {
    if todo == [] {
      assert Readable(todo, t, unreadable) == {};
    } else {
      var e := todo[0];
      var b' := if e.uid in unreadable then b else Resolved(b, e.ticker, s);
      assert e in todo && forall x :: x in todo[1..] ==> x in todo;
      ReadableHead(todo, t, unreadable);
      SettleOne(b, e, unreadable, s, t, nextUid);
      hide GoodBook, Doubts, Readable, Shows, Resolved, Holds, Tickers;
      ReconcileSpares(b', todo[1..], unreadable, s, t, nextUid);
    }
  }

  lemma SettleOne(b: Book, e: Entry, unreadable: set<nat>, s: State, t: Ticker, nextUid: nat)
    requires GoodBook(b, nextUid) && (e.ticker == t ==> !Shows(s, t))
    requires e.ticker == t && e.uid !in unreadable ==> Doubts(b, t) != {}
    ensures var b' := if e.uid in unreadable then b else Resolved(b, e.ticker, s);
      GoodBook(b', nextUid) && Spared(b, b', t, if e.ticker == t && e.uid !in unreadable then 1 else 0)
  {
    if e.uid !in unreadable {
      ResolvedIsGood(b, e.ticker, s, nextUid);
      if e.ticker == t {
        RevertTakesOne(b, t);
        RevertHolds(b, t);
      } else {
        OthersLeave(b, e.ticker, t, s);
      }
      hide Doubts, Holds, RevertToPending, MarkExecuted;
    }
  }

  // ---------------------------------------------------------------- what the restart seeds

  /** Why a restart holds `t` back: it was executed, or traded by the readable
      rows, or a record of it in doubt cannot be asked about or is confirmed. */
  predicate HeldBack(s: State, t: Ticker, unreadable: set<nat>, rowsReadable: bool) {
    || t in Tickers(s.disk.executedToday)
    || (rowsReadable && t in s.rows)
    || exists x :: x in s.disk.approved && x.ticker == t && x.status == Executing && (x.uid in unreadable || Shows(s, t))
  }

  function AfterStartup(s: State, unreadable: set<nat>): Book {
    Reconcile(s.disk, ExecutingEntries(s.disk), unreadable, s)
  }

  lemma DoubtsAreTodo(b: Book, t: Ticker)
    requires UniqueUids(b.approved)
    ensures UniqueUids(ExecutingEntries(b)) && Readable(ExecutingEntries(b), t, {}) == Doubts(b, t)
  {}

  lemma FewerReadable(todo: seq<Entry>, t: Ticker, unreadable: set<nat>)
    ensures Readable(todo, t, unreadable) <= Readable(todo, t, {})
    ensures |Readable(todo, t, unreadable)| <= |Readable(todo, t, {})|
  {
    Subset(Readable(todo, t, unreadable), Readable(todo, t, {}));
  }

  lemma Subset(a: set<nat>, b: set<nat>)
    requires a <= b
    ensures |a| <= |b| && (|a| == |b| ==> a == b)
  {
    assert b == a + (b - a);
  }

  /** With the broker showing nothing of `t`, or nothing of it in doubt, the
      number of records left in doubt is that of the unreadable ones. */
  lemma LeftInDoubt(s: State, unreadable: set<nat>, t: Ticker)
    requires GoodBook(s.disk, s.nextUid) && (!Shows(s, t) || Doubts(s.disk, t) == {})
    ensures Spared(s.disk, AfterStartup(s, unreadable), t, |Readable(ExecutingEntries(s.disk), t, unreadable)|)
    ensures Doubts(AfterStartup(s, unreadable), t) == {}
       <==> forall x :: x in s.disk.approved && x.ticker == t && x.status == Executing ==> x.uid !in unreadable
  {
    var todo := ExecutingEntries(s.disk);
    DoubtsAreTodo(s.disk, t);
    FewerReadable(todo, t, unreadable);
    if Shows(s, t) {
      forall x | x in todo ensures x.ticker != t { assert x.ticker == t ==> x.uid in Doubts(s.disk, t); }
    }
    ReconcileSpares(s.disk, todo, unreadable, s, t, s.nextUid);
    Subset(Readable(todo, t, unreadable), Doubts(s.disk, t));
    AllReadable(s.disk, unreadable, t);
    hide Reconcile, Doubts, Readable;
  }

  lemma AllReadable(b: Book, unreadable: set<nat>, t: Ticker)
    requires UniqueUids(b.approved)
    ensures Readable(ExecutingEntries(b), t, unreadable) == Doubts(b, t)
       <==> forall x :: x in b.approved && x.ticker == t && x.status == Executing ==> x.uid !in unreadable
  {
    if x :| x in b.approved && x.ticker == t && x.status == Executing && x.uid in unreadable {
      assert x.uid in Doubts(b, t) && x.uid !in Readable(ExecutingEntries(b), t, unreadable);
    } else {
      assert forall x :: x in ExecutingEntries(b) && x.ticker == t ==> x.uid !in unreadable;
    }
  }

  /** The rebuilt traded set holds exactly the tickers held back. */
  lemma SeedsExactly(s: State, unreadable: set<nat>, rowsReadable: bool, t: Ticker)
    requires GoodBook(s.disk, s.nextUid)
    ensures t in Seed(AfterStartup(s, unreadable), s.rows, rowsReadable) <==> HeldBack(s, t, unreadable, rowsReadable)
  {
    var r := AfterStartup(s, unreadable);
    HeldBackBy(s, t, unreadable, rowsReadable);
    hide *;
    SeededBy(r, s.rows, rowsReadable, t);
    if Shows(s, t) && Doubts(s.disk, t) != {} {
      ShownIsSeeded(s, unreadable, t);
      StartupSettles(s, unreadable);
      ExecutedStays(s.disk, r, t);
    } else {
      LeftInDoubt(s, unreadable, t);
      SparedSays(s.disk, r, t, |Readable(ExecutingEntries(s.disk), t, unreadable)|);
    }
  }

  /** The same in terms of what is in doubt. */
  lemma HeldBackBy(s: State, t: Ticker, unreadable: set<nat>, rowsReadable: bool)
    ensures HeldBack(s, t, unreadable, rowsReadable)
       <==> t in Tickers(s.disk.executedToday) || (rowsReadable && t in s.rows)
            || (Shows(s, t) && Doubts(s.disk, t) != {})
            || !(forall x :: x in s.disk.approved && x.ticker == t && x.status == Executing ==> x.uid !in unreadable)
  {
    if u :| u in Doubts(s.disk, t) {
      var x :| x in s.disk.approved && x.ticker == t && x.status == Executing;
    }
    if x :| x in s.disk.approved && x.ticker == t && x.status == Executing {
      assert x.uid in Doubts(s.disk, t);
    }
    hide Tickers, Shows;
  }

  lemma ExecutedStays(b: Book, r: Book, t: Ticker)
    requires ComesFrom(b, r)
    ensures t in Tickers(b.executedToday) ==> t in Tickers(r.executedToday)
  {
    TickersGrow(b, r);
  }

  lemma SparedSays(b: Book, r: Book, t: Ticker, taken: nat)
    requires Spared(b, r, t, taken)
    ensures t in Tickers(r.executedToday) <==> t in Tickers(b.executedToday)
  {}

  lemma SeededBy(r: Book, rows: set<Ticker>, rowsReadable: bool, t: Ticker)
    ensures t in Seed(r, rows, rowsReadable)
       <==> t in Tickers(r.executedToday) || Doubts(r, t) != {} || (rowsReadable && t in rows)
  {
    if u :| u in Doubts(r, t) {
      var x :| x in r.approved && x.ticker == t && x.status == Executing;
      assert x in ExecutingEntries(r);
    }
    if t in Tickers(ExecutingEntries(r)) {
      var x :| x in ExecutingEntries(r) && x.ticker == t;
      assert x.uid in Doubts(r, t);
    }
  }

  /** A ticker in doubt that the broker shows is finalized, or still in doubt. */
  lemma ShownIsSeeded(s: State, unreadable: set<nat>, t: Ticker)
    requires GoodBook(s.disk, s.nextUid) && Shows(s, t) && Doubts(s.disk, t) != {}
    ensures var r := AfterStartup(s, unreadable); t in Tickers(r.executedToday) || Doubts(r, t) != {}
  {
    hide *;
    StartupSettles(s, unreadable);
    SettledSays(s.disk, AfterStartup(s, unreadable), s, t);
  }

  lemma StartupSettles(s: State, unreadable: set<nat>)
    requires GoodBook(s.disk, s.nextUid)
    ensures var r := AfterStartup(s, unreadable);
      GoodBook(r, s.nextUid) && Settled(s.disk, r, s) && ComesFrom(s.disk, r)
  {
    SubsetComesFrom(s.disk, s.disk);
    assert forall e :: e in ExecutingEntries(s.disk) ==> e in s.disk.approved && e.status == Executing;
    hide Reconcile, GoodBook, ComesFrom, Settled, ExecutingEntries, Shows, Resolved;
    assert Settled(s.disk, s.disk, s) by { SettledSelf(s.disk, s); }
    ReconcileSettles(s.disk, s.disk, ExecutingEntries(s.disk), unreadable, s, s.nextUid);
  }

  lemma SettledSelf(b: Book, s: State)
    ensures Settled(b, b, s)
  {}

  lemma SettledSays(b: Book, r: Book, s: State, t: Ticker)
    requires Settled(b, r, s) && Shows(s, t) && Doubts(b, t) != {}
    ensures t in Tickers(r.executedToday) || Doubts(r, t) != {}
  {
    var x :| x in b.approved && x.ticker == t && x.status == Executing;
    if t !in Tickers(r.executedToday) {
      assert x in r.approved;
      assert x.uid in Doubts(r, t);
    }
  }

  // ---------------------------------------------------------------- what the next poll offers

  /** A restart and the next poll. */
  function RestartAndPoll(s: State, unreadable: set<nat>, rowsReadable: bool): State
    requires s.pc.Down?
  {
    Apply(Apply(Apply(s, Boot(unreadable, rowsReadable)), Tick), BeginEntries)
  }

  lemma RestartWalk(s: State, unreadable: set<nat>, rowsReadable: bool)
    requires s.pc.Down?
    ensures var r := AfterStartup(s, unreadable);
      RestartAndPoll(s, unreadable, rowsReadable).pc == Loop(PendingEntries(MergeExecuted(r, Seed(r, s.rows, rowsReadable))))
  {
    hide Reconcile, Seed, PendingEntries, MergeExecuted;
  }

  /** A restart and the next poll offer a record, pending or in doubt, exactly when
      its ticker is not held back. */
  lemma RestartOffersExactly(s: State, e: Entry, unreadable: set<nat>, rowsReadable: bool)
    requires s.pc.Down? && GoodBook(s.disk, s.nextUid) && e in s.disk.approved
    ensures Offered(RestartAndPoll(s, unreadable, rowsReadable), e.uid)
       <==> !HeldBack(s, e.ticker, unreadable, rowsReadable)
  {
    var r := AfterStartup(s, unreadable);
    var seeded := Seed(r, s.rows, rowsReadable);
    RestartWalk(s, unreadable, rowsReadable);
    SeedsExactly(s, unreadable, rowsReadable, e.ticker);
    SettledOwns(s, e, unreadable);
    if e.ticker !in seeded {
      SeededBy(r, s.rows, rowsReadable, e.ticker);
      NotSeededIsPending(s, e, unreadable);
    }
    WalkOffers(r, seeded, e.uid);
    hide Seed, AfterStartup, HeldBack, RestartAndPoll, PendingEntries, MergeExecuted, GoodBook, Doubts;
  }

  lemma WalkOffers(r: Book, seeded: set<Ticker>, u: nat)
    ensures (exists y :: y in PendingEntries(MergeExecuted(r, seeded)) && y.uid == u)
       <==> exists y :: y in r.approved && y.uid == u && y.status == Pending && y.ticker !in seeded
  {
    if y :| y in r.approved && y.uid == u && y.status == Pending && y.ticker !in seeded {
      assert y in PendingEntries(MergeExecuted(r, seeded));
    }
  }

  /** A record keeps its ticker through the settling. */
  lemma SettledOwns(s: State, e: Entry, unreadable: set<nat>)
    requires GoodBook(s.disk, s.nextUid) && e in s.disk.approved
    ensures forall y :: y in AfterStartup(s, unreadable).approved && y.uid == e.uid ==> y.ticker == e.ticker
  {
    ReconciledComesFrom(s, unreadable);
    HeadIsOnlyItself(s.disk, e);
    OnlyAsFrom(s.disk, AfterStartup(s, unreadable), e.uid, e.ticker);
  }

  lemma NotSeededIsPending(s: State, e: Entry, unreadable: set<nat>)
    requires GoodBook(s.disk, s.nextUid) && e in s.disk.approved
    requires var r := AfterStartup(s, unreadable); e.ticker !in Tickers(r.executedToday) && Doubts(r, e.ticker) == {}
    ensures exists y :: y in AfterStartup(s, unreadable).approved && y.uid == e.uid && y.status == Pending && y.ticker == e.ticker
  {
    var r, t := AfterStartup(s, unreadable), e.ticker;
    if Shows(s, t) && Doubts(s.disk, t) != {} { ShownIsSeeded(s, unreadable, t); }
    LeftInDoubt(s, unreadable, t);
    assert Holds(s.disk, e.uid, t) && Holds(r, e.uid, t);
    var y :| y in r.approved && y.uid == e.uid && y.ticker == t;
    assert y.status == Executing ==> y.uid in Doubts(r, t);
    SettledIsGood(s, unreadable);
  }

  lemma SettledIsGood(s: State, unreadable: set<nat>)
    requires GoodBook(s.disk, s.nextUid)
    ensures GoodBook(AfterStartup(s, unreadable), s.nextUid)
  {
    hide *;
    StartupSettles(s, unreadable);
  }

  // ---------------------------------------------------------------- which restarts are safe

  /** Every bought record still in the book is held back. */
  ghost predicate HoldsBought(s: State, unreadable: set<nat>, rowsReadable: bool) {
    forall x :: x in s.disk.approved && x.uid in s.landed ==> HeldBack(s, x.ticker, unreadable, rowsReadable)
  }

  /** A bought pending record is blocked durably, or the broker shows nothing of
      its ticker, so that no restart is to be expected while it is on disk. */
  ghost predicate Faded(b: Book, s: State) {
    forall x :: x in b.approved && x.status == Pending && x.uid in s.landed ==> Blocked(b, x.ticker) || !Shows(s, x.ticker)
  }

  /** The invariant, but for bought records that only the rebuilt traded set holds
      back; they are gone from disk with the first save after a reload. */
  ghost predicate Shadow(s: State) {
    && !Busy(s.pc) && AtMostOnce(s.landed) && (forall u :: u in s.landed ==> u < s.nextUid)
    && GoodBook(s.disk, s.nextUid) && Faded(s.disk, s)
    && (!s.pc.Down? ==> Stripped(s.disk, s.landed, s.executed))
    && (s.pc.Idle? ==> GoodBook(s.mem, s.nextUid) && Faded(s.mem, s) && Stripped(s.mem, s.landed, s.executed))
    && (s.pc.Ready? || s.pc.Loop? ==> Inv(Saved(s)))
  }

  function Saved(s: State): State { s.(disk := s.mem) }

  lemma BootInShadow(s: State, a: Action)
    requires Shadow(s) && Enabled(s, a) && a.Boot? && ShowsLanded(s, a)
    ensures Inv(Apply(s, a))
  {
    assert Guarded(s.disk, s.landed);
    assert Inv(s);
    hide Inv, Shadow;
    BootKeeps(s, a.unreadable, a.rowsReadable);
  }

  lemma TickInShadow(s: State)
    requires Shadow(s) && s.pc.Idle?
    ensures Shadow(Reloaded(s))
  {
    var r := MergeExecuted(s.disk, s.executed);
    assert forall x :: x in r.approved ==> x in s.disk.approved && x.ticker !in s.executed;
    assert forall x :: x in r.approved && x.status == Pending ==> x.uid !in s.landed;
    assert BookOk(r, s.landed, s.executed, s.nextUid);
    hide Faded, MergeExecuted;
  }

  /** The daemon's own steps while nothing is being placed. */
  lemma WalkInShadow(s: State, a: Action)
    requires Shadow(s) && Enabled(s, a) && (a.BeginEntries? || a.NoTrigger? || a.Skip? || a.EndEntries? || a.ConnectionLost?)
    ensures Shadow(Apply(s, a))
  {
    if a.EndEntries? || a.ConnectionLost? { QuietKeeps(Saved(s), a); } else { WalkKeeps(Saved(s), a); }
    ShadowLeaves(s, a);
    hide Inv, Shadow;
  }

  lemma ShadowLeaves(s: State, a: Action)
    requires Shadow(s) && Enabled(s, a) && (a.BeginEntries? || a.NoTrigger? || a.Skip? || a.EndEntries? || a.ConnectionLost?)
    requires Inv(Apply(Saved(s), a))
    ensures Shadow(Apply(s, a))
  {
    assert Saved(Apply(s, a)) == Apply(Saved(s), a);
    hide GoodBook, PendingEntries, Walkable, Blocked, Shows;
  }

  lemma TradedInShadow(s: State, a: Action)
    requires Shadow(s) && Enabled(s, a) && a.ExitTraded?
    ensures Shadow(Apply(s, a))
  {
    if s.pc.Ready? { QuietKeeps(Saved(s), a); }
    assert Saved(Apply(s, a)) == Apply(Saved(s), a);
    hide Inv, GoodBook, Blocked, Shows;
  }

  lemma RewriteInShadow(s: State, plan: seq<Entry>)
    requires Shadow(s) && FreshPlan(plan, s.nextUid)
    ensures Shadow(Rewritten(s, plan))
  {
    forall x | x in plan ensures s.nextUid <= x.uid < s.nextUid + |plan| && x.status == Pending {
      var i :| 0 <= i < |plan| && plan[i] == x;
    }
    if s.pc.Ready? || s.pc.Loop? { LaterUids(Saved(s), s.nextUid + |plan|); }
    hide Inv, Blocked, Shows;
  }

  lemma LaterUids(s: State, nextUid: nat)
    requires Inv(s) && nextUid >= s.nextUid
    ensures Inv(s.(nextUid := nextUid))
  {
    hide Guarded, Stripped, Walkable, InFlight, AtMostOnce;
  }

  lemma StillFaded(b: Book, s: State, s': State)
    requires Faded(b, s) && s'.landed == s.landed && forall t :: Shows(s', t) ==> Shows(s, t)
    ensures Faded(b, s')
  {
    hide Blocked, Shows;
  }

  lemma MarketInShadow(s: State, a: Action)
    requires Shadow(s) && Enabled(s, a) && (a.BuyFills? || a.BuyExpires? || a.SharesSold?)
    ensures Shadow(Apply(s, a))
  {
    var s' := Apply(s, a);
    assert forall t :: Shows(s', t) ==> Shows(s, t);
    StillFaded(s.disk, s, s');
    if s.pc.Idle? { StillFaded(s.mem, s, s'); }
    if s.pc.Ready? || s.pc.Loop? {
      MarketKeeps(Saved(s), a);
      assert Saved(s') == Apply(Saved(s), a);
    }
    hide Inv, GoodBook, Stripped, Faded, Shows;
  }

  lemma SaveInShadow(s: State, a: Action)
    requires Shadow(s) && Enabled(s, a) && MarksItself(s, a) && (a.Redeploy? || a.WriteAhead? || a.SaveBook?)
    ensures Shadow(Apply(s, a)) || Inv(Apply(s, a))
  {
    if !s.pc.Idle? {
      assert Apply(s, a) == Apply(Saved(s), a);
      hide Apply, Inv;
      StepKeeps(Saved(s), a);
    }
  }

  lemma ShadowStep(s: State, a: Action)
    requires Shadow(s) && Enabled(s, a) && MarksItself(s, a) && ShowsLanded(s, a)
    ensures Shadow(Apply(s, a)) || Inv(Apply(s, a))
  {
    match a
    case Boot(_, _) => BootInShadow(s, a); hide Apply, Inv, Shadow;
    case Tick => TickInShadow(s); hide Inv, Shadow;
    case PlannerRewrite(plan) => RewriteInShadow(s, plan); hide Inv, Shadow;
    case ExitTraded(_) => TradedInShadow(s, a); hide Apply, Inv, Shadow;
    case Redeploy(_, _, _) => SaveInShadow(s, a); hide Apply, Inv, Shadow;
    case WriteAhead => SaveInShadow(s, a); hide Apply, Inv, Shadow;
    case SaveBook => SaveInShadow(s, a); hide Apply, Inv, Shadow;
    case BuyFills(_, _) => MarketInShadow(s, a); hide Apply, Inv, Shadow;
    case BuyExpires(_, _) => MarketInShadow(s, a); hide Apply, Inv, Shadow;
    case SharesSold(_, _) => MarketInShadow(s, a); hide Apply, Inv, Shadow;
    case Crash => hide Inv, Blocked, Shows, GoodBook;
    case _ => WalkInShadow(s, a); hide Apply, Inv, Shadow;
  }

  lemma {:induction false} SafeFromShadow(r: Run)
    requires Shadow(Origin(r)) && Valid(r) && AllMark(r) && AllShow(r)
    ensures Shadow(End(r)) || Inv(End(r))
  {
    if r.Then? {
      SafeFromShadow(r.prev);
      if Shadow(End(r.prev)) { ShadowStep(End(r.prev), r.a); } else { StepKeeps(End(r.prev), r.a); }
    }
  }

  /** A bought record of an unexecuted ticker is in doubt, or behind one that is. */
  lemma BoughtIsInDoubt(s: State, x: Entry)
    requires GoodBook(s.disk, s.nextUid) && Guarded(s.disk, s.landed) && x in s.disk.approved && x.uid in s.landed
    ensures x.ticker in Tickers(s.disk.executedToday) || Doubts(s.disk, x.ticker) != {}
  {
    if x.status == Pending && x.ticker !in Tickers(s.disk.executedToday) {
      var y :| y in s.disk.approved && y.ticker == x.ticker && y.status == Executing;
      assert y.uid in Doubts(s.disk, x.ticker);
    } else if x.status == Executing {
      assert x.uid in Doubts(s.disk, x.ticker);
    }
  }

  lemma HeldIsStripped(s: State, unreadable: set<nat>, rowsReadable: bool, x: Entry)
    requires Inv(s) && s.pc.Down? && HoldsBought(s, unreadable, rowsReadable)
    requires x in AfterStartup(s, unreadable).approved && x.uid in s.landed
    ensures x.ticker in Seed(AfterStartup(s, unreadable), s.rows, rowsReadable)
    ensures Blocked(AfterStartup(s, unreadable), x.ticker) || !Shows(s, x.ticker)
  {
    var r, t := AfterStartup(s, unreadable), x.ticker;
    ReconciledComesFrom(s, unreadable);
    var y :| y in s.disk.approved && SameRecord(x, y);
    SeedsExactly(s, unreadable, rowsReadable, t);
    BoughtIsInDoubt(s, y);
    hide Inv, Seed, HeldBack, Reconcile;
    if t in Tickers(s.disk.executedToday) {
      StillBlockedByExecution(s.disk, r, t);
    } else if Shows(s, t) {
      ShownIsSeeded(s, unreadable, t);
      if u :| u in Doubts(r, t) {}
    }
  }

  lemma BootCastsShadow(s: State, unreadable: set<nat>, rowsReadable: bool)
    requires Inv(s) && s.pc.Down? && HoldsBought(s, unreadable, rowsReadable)
    ensures Shadow(Booted(s, unreadable, rowsReadable))
  {
    var r := AfterStartup(s, unreadable);
    SettledIsGood(s, unreadable);
    forall x | x in r.approved && x.uid in s.landed
      ensures x.ticker in Seed(r, s.rows, rowsReadable) && (Blocked(r, x.ticker) || !Shows(s, x.ticker))
    {
      HeldIsStripped(s, unreadable, rowsReadable, x);
    }
    hide Reconcile, Seed, Blocked, GoodBook, Guarded;
  }

  lemma SettledIsPositive(s: State, unreadable: set<nat>)
    requires GoodBook(s.disk, s.nextUid) && AllPositive(s.disk.approved)
    ensures AllPositive(AfterStartup(s, unreadable).approved)
  {
    ReconciledComesFrom(s, unreadable);
  }

  /** The walk of the next poll, with a bought record not held back. */
  lemma BoughtIsOffered(s: State, unreadable: set<nat>, rowsReadable: bool, x: Entry) returns (y: Entry)
    requires Inv(s) && s.pc.Down? && AllPositive(s.disk.approved) && x in s.disk.approved
    requires !HeldBack(s, x.ticker, unreadable, rowsReadable)
    ensures var r := AfterStartup(s, unreadable); var b := MergeExecuted(r, Seed(r, s.rows, rowsReadable));
      && AllPositive(b.approved) && y in PendingEntries(b) && y in b.approved && y.status == Pending
      && y.uid == x.uid && y.ticker == x.ticker
  {
    var r := AfterStartup(s, unreadable);
    var b := MergeExecuted(r, Seed(r, s.rows, rowsReadable));
    RestartOffersExactly(s, x, unreadable, rowsReadable);
    RestartWalk(s, unreadable, rowsReadable);
    SettledIsPositive(s, unreadable);
    SettledOwns(s, x, unreadable);
    assert AllPositive(b.approved);
    hide HeldBack, Seed, Reconcile, AfterStartup, Inv, RestartAndPoll;
    y :| y in PendingEntries(b) && y.uid == x.uid;
  }

  /** The restart and the next poll, with a bought record not held back. */
  lemma OfferBought(s: State, unreadable: set<nat>, rowsReadable: bool, x: Entry) returns (w: State, y: Entry)
    requires Inv(s) && s.pc.Down? && AllPositive(s.disk.approved) && x in s.disk.approved && x.uid in s.landed
    requires !HeldBack(s, x.ticker, unreadable, rowsReadable)
    ensures Reaches(Booted(s, unreadable, rowsReadable), Mode(true, true), w)
    ensures y.uid == x.uid && Aligned(w, y.ticker) && y in w.pc.rest && w.landed == s.landed
  {
    var o := Booted(s, unreadable, rowsReadable);
    var r := AfterStartup(s, unreadable);
    NothingShown(s, x, unreadable, rowsReadable);
    y := BoughtIsOffered(s, unreadable, rowsReadable, x);
    Begin(o, Mode(true, true));
    assert o.disk == r && o.executed == Seed(r, s.rows, rowsReadable);
    hide Reaches, Seed, Reconcile, Inv, HeldBack, AfterStartup, Booted;
    w := PollFrom(o, o, y);
  }

  lemma PollFrom(o: State, s: State, y: Entry) returns (w: State)
    requires Reaches(o, Mode(true, true), s) && s.pc.Idle? && Get(s.working, y.ticker) == 0
    requires var b := MergeExecuted(s.disk, s.executed); AllPositive(b.approved) && y in b.approved && y.status == Pending
    ensures Reaches(o, Mode(true, true), w) && Aligned(w, y.ticker) && y in w.pc.rest && w.landed == s.landed
  {
    WalkAligns(MergeExecuted(s.disk, s.executed), y);
    hide Reaches, PendingOf, PendingEntries, MergeExecuted, AllPositive;
    w := Step(o, Mode(true, true), s, Tick);
    w := Step(o, Mode(true, true), w, BeginEntries);
  }

  lemma NothingShown(s: State, x: Entry, unreadable: set<nat>, rowsReadable: bool)
    requires Inv(s) && x in s.disk.approved && x.uid in s.landed && !HeldBack(s, x.ticker, unreadable, rowsReadable)
    ensures !Shows(s, x.ticker)
  {
    BoughtIsInDoubt(s, x);
    var u :| u in Doubts(s.disk, x.ticker);
  }

  /** A restart is safe for every continuation exactly when each bought record in
      the book is of an executed ticker, of one traded by rows the restart can
      read, or of one with a record in doubt that is unreadable or confirmed. */
  lemma BootIsSafeExactly(s: State, unreadable: set<nat>, rowsReadable: bool)
    requires Inv(s) && s.pc.Down? && AllPositive(s.disk.approved)
    ensures (forall r :: Origin(r) == Booted(s, unreadable, rowsReadable) && Valid(r) && AllMark(r) && AllShow(r)
               ==> AtMostOnce(End(r).landed))
       <==> HoldsBought(s, unreadable, rowsReadable)
  {
    var o := Booted(s, unreadable, rowsReadable);
    if HoldsBought(s, unreadable, rowsReadable) {
      BootCastsShadow(s, unreadable, rowsReadable);
      forall r | Origin(r) == o && Valid(r) && AllMark(r) && AllShow(r) ensures AtMostOnce(End(r).landed) {
        SafeFromShadow(r);
      }
    } else {
      var r := UnheldIsBoughtAgain(s, unreadable, rowsReadable);
      assert !AtMostOnce(End(r).landed);
    }
  }

  /** Otherwise the very next poll can buy the record again. */
  lemma UnheldIsBoughtAgain(s: State, unreadable: set<nat>, rowsReadable: bool) returns (r: Run)
    requires Inv(s) && s.pc.Down? && AllPositive(s.disk.approved) && !HoldsBought(s, unreadable, rowsReadable)
    ensures Origin(r) == Booted(s, unreadable, rowsReadable) && Valid(r) && AllMark(r) && AllShow(r)
    ensures !AtMostOnce(End(r).landed)
  {
    var x :| x in s.disk.approved && x.uid in s.landed && !HeldBack(s, x.ticker, unreadable, rowsReadable);
    var w, y := OfferBought(s, unreadable, rowsReadable, x);
    hide Inv, Reaches, Booted, HeldBack, Aligned;
    r := BuyAgain(Booted(s, unreadable, rowsReadable), w, y);
  }

  // ---------------------------------------------------------------- a concrete run

  /** The first of two records lands, and the connection drops. */
  lemma FirstDrops(o: State, m: Mode, s: State, a: Entry, b: Entry) returns (s': State)
    requires Reaches(o, m, s) && s.pc == Loop([a, b]) && s.mem == Book([a, b], []) && s.executed == {}
    requires a.status == Pending && a.shares > 0 && a.ticker == b.ticker && Get(s.working, a.ticker) == 0
    ensures Reaches(o, m, s') && s'.pc.Idle? && s'.disk == Book([a.(status := Executing), b], []) && s'.executed == {}
    ensures s'.landed == s.landed + [a.uid] && Get(s'.working, a.ticker) == 0 && Get(s'.held, a.ticker) >= a.shares
    ensures s'.rows == s.rows && s'.nextUid == s.nextUid
  {
    assert FirstMatch([a, b], a.ticker, {Pending}) == 0;
    assert [a, b][1..] == [b];
    hide Reaches;
    s' := Step(o, m, s, WriteAhead);
    assert s'.disk.approved == [a.(status := Executing), b];
    s' := Step(o, m, s', Land);
    s' := DropAndFill(o, m, s', a.ticker, a.shares as nat);
  }

  /** The second is marked and rejected: the rollback goes to the first. */
  lemma SecondRejected(o: State, m: Mode, s: State, a: Entry, b: Entry) returns (s': State)
    requires Reaches(o, m, s) && s.pc.Idle? && s.disk == Book([a.(status := Executing), b], []) && s.executed == {}
    requires a.status == b.status == Pending && a.ticker == b.ticker && b.shares > 0 && Get(s.working, b.ticker) == 0
    ensures Reaches(o, m, s') && s'.pc == Loop([]) && s'.disk == Book([a, b.(status := Executing)], [])
    ensures s'.landed == s.landed && s'.held == s.held && s'.rows == s.rows && s'.nextUid == s.nextUid
  {
    var x := a.(status := Executing);
    s' := PollTwo(o, m, s, x, b);
    assert FirstMatch([x, b], b.ticker, {Pending}) == 1 by { assert [x, b][1..] == [b]; }
    hide Reaches;
    s' := Step(o, m, s', WriteAhead);
    assert s'.mem.approved == [x, b.(status := Executing)];
    assert FirstMatch(s'.mem.approved, b.ticker, {Executing}) == 0;
    s' := Step(o, m, s', Rejected);
  }

  /** A rejected record left in doubt by its own rollback: its ticker is neither
      executed nor in the trade rows, and yet the restart holds it back, because
      the broker shows the holding of the record that landed. */
  lemma RejectedStaysInDoubt() returns (r: Run)
    ensures Valid(r) && AllMark(r) && AllShow(r) && Init(Origin(r)) && !End(r).pc.Down?
    ensures var a := Entry(0, "AMD:legacy", "AMD", 10, Pending);
      var b := Entry(1, "AMD:optimizer", "AMD", 5, Pending);
      && End(r).disk == Book([a, b.(status := Executing)], []) && End(r).rows == {}
      && !Offered(RestartAndPoll(Apply(End(r), Crash), {}, true), 0) && !Offered(RestartAndPoll(Apply(End(r), Crash), {}, true), 1)
  {
    var a := Entry(0, "AMD:legacy", "AMD", 10, Pending);
    var b := Entry(1, "AMD:optimizer", "AMD", 5, Pending);
    var o, m := Fresh([a, b]), Mode(true, true);
    FreshIsInit([a, b]);
    Begin(o, m);
    KeepTwo(a, b, (e: Entry) => e.status == Executing);
    var s := BootPending(o, m, o);
    s := PollTwo(o, m, s, a, b);
    s := FirstDrops(o, m, s, a, b);
    s := SecondRejected(o, m, s, a, b);
    hide Reaches, Init, Valid, Origin, End, AllMark, AllShow, RestartAndPoll, Offered;
    NeitherOffered(s, a, b);
    r := Witness(o, m, s);
  }

  lemma NeitherOffered(s: State, a: Entry, b: Entry)
    requires !s.pc.Down? && s.disk == Book([a, b.(status := Executing)], []) && a.status == Pending && a.ticker == b.ticker
    requires a.uid == 0 && b.uid == 1 && s.nextUid >= 2 && Get(s.held, a.ticker) > 0
    ensures !Offered(RestartAndPoll(Apply(s, Crash), {}, true), 0) && !Offered(RestartAndPoll(Apply(s, Crash), {}, true), 1)
  {
    var q, x := Apply(s, Crash), b.(status := Executing);
    assert GoodBook(q.disk, q.nextUid);
    assert x in q.disk.approved && a in q.disk.approved && Shows(q, a.ticker);
    assert HeldBack(q, a.ticker, {}, true);
    RestartOffersExactly(q, a, {}, true);
    RestartOffersExactly(q, x, {}, true);
    hide RestartAndPoll, Offered;
  }
}
