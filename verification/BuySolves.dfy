/**
 Which intraday re-solves are safe.  A re-solve adds a record under the id of its
 ticker and day; a record of that id may already be bought, or in doubt.
 */
module BuySolves {
  import opened OrderBooks
  import opened BuyProtocol
  import opened BuyMarks
  import opened BuyDecisions
  import opened BuyRetries
  import opened BuyRestarts
  import opened BuyTwins

  // ---------------------------------------------------------------- a bought decision

  /** A re-solve of a bought decision adds a record of it. */
  lemma SolveAppends(s: State, id: string, t: Ticker, shares: int)
    requires Sound(s) && s.pc.Ready? && AllPositive(s.mem.approved)
    requires id in s.bought || forall x :: x in s.mem.approved && x.id == id ==> x.status != Pending
    ensures Redeployed(s, id, t, shares).mem.approved == s.mem.approved + [Entry(s.nextUid, id, t, shares, Pending)]
  {
    assert forall x :: x in s.mem.approved && x.status == Pending ==> x.id != id;
  }

  lemma Beginning(q: State)
    ensures Continues(Start(q), q) && End(Start(q)) == q
  {}

  /** No buy of the ticker works any more, and the walk begins. */
  lemma ThenBegin(q: State, x: Entry) returns (r: Run)
    requires q.pc.Ready? && AllPositive(q.mem.approved) && x in q.mem.approved && x.status == Pending
    ensures Continues(r, q) && Aligned(End(r), x.ticker) && x in End(r).pc.rest && End(r).bought == q.bought
  {
    WalkAligns(q.mem, x);
    r := Start(q);
    Beginning(q);
    hide Continues, PendingOf, PendingEntries, AllPositive, End;
    r := Extend(r, q, BuyExpires(x.ticker, Get(q.working, x.ticker)));
    r := Extend(r, q, BeginEntries);
  }

  /** It is bought again in the same poll, traded ticker or not, in doubt or not. */
  lemma SolveIsBoughtAgain(s: State, id: string, t: Ticker, shares: int) returns (r: Run)
    requires Sound(s) && Enabled(s, Redeploy(id, t, shares)) && AllPositive(s.mem.approved) && id in s.bought
    ensures Continues(r, Redeployed(s, id, t, shares)) && !NoRepeat(End(r).bought)
  {
    var q, x := Redeployed(s, id, t, shares), Entry(s.nextUid, id, t, shares, Pending);
    SolveAppends(s, id, t, shares);
    assert q.mem.approved[|s.mem.approved|] == x;
    assert AllPositive(q.mem.approved) && q.bought == s.bought && q.pc.Ready?;
    hide Sound, Redeployed, AllPositive, Continues, Aligned;
    r := ThenBegin(q, x);
    r := ThenWalk(r, q, x);
    r := ThenBuy(r, q, x);
    var i :| 0 <= i < |s.bought| && s.bought[i] == id;
    assert End(r).bought[i] == End(r).bought[|s.bought|];
  }

  // ---------------------------------------------------------------- a record that cannot wake

  ghost predicate HasUid(b: Book, u: nat) { exists x :: x in b.approved && x.uid == u }

  ghost predicate Sleeps(b: Book, u: nat, executed: set<Ticker>) {
    forall x :: x in b.approved && x.uid == u && x.status == Pending ==> x.ticker in executed
  }

  /** Record `u` of `t`, wherever it stands, is in doubt or stripped, and a restart
      holds its ticker back. */
  ghost predicate Dormant(s: State, u: nat, t: Ticker) {
    && u < s.nextUid && OnlyAs(s.disk.approved, u, t) && OnlyAs(s.mem.approved, u, t)
    && (HasUid(s.disk, u) ==> Anchored(s.disk, s.landed, t))
    && (!s.pc.Down? ==> (HasUid(s.mem, u) ==> Anchored(s.mem, s.landed, t)))
    && (!s.pc.Down? ==> Sleeps(s.disk, u, s.executed) && Sleeps(s.mem, u, s.executed))
    && (s.pc.Ready? ==> forall x :: x in s.mem.approved && x.uid == u ==> x.status != Pending)
    && !Offered(s, u)
  }

  lemma DormantRests(s: State, u: nat, t: Ticker)
    requires Dormant(s, u, t)
    ensures Resting(s, {u})
  {}

  /** A bought record of the ticker holds it back at every restart that shows it. */
  lemma AnchorHoldsBack(s: State, t: Ticker, unreadable: set<nat>, rowsReadable: bool)
    requires GoodBook(s.disk, s.nextUid) && Guarded(s.disk, s.landed) && Anchored(s.disk, s.landed, t)
    requires s.pc.Down? && ShowsLanded(s, Boot(unreadable, rowsReadable))
    ensures HeldBack(s, t, unreadable, rowsReadable) && (t in Tickers(s.disk.executedToday) || Shows(s, t))
  {
    if t !in Tickers(s.disk.executedToday) {
      var z :| z in s.disk.approved && z.uid in s.landed && z.ticker == t;
      BoughtIsInDoubt(s, z);
      var u :| u in Doubts(s.disk, t);
    }
  }

  lemma AnchorSurvives(s: State, t: Ticker, unreadable: set<nat>)
    requires GoodBook(s.disk, s.nextUid) && Anchored(s.disk, s.landed, t)
    requires t in Tickers(s.disk.executedToday) || Shows(s, t)
    ensures Anchored(AfterStartup(s, unreadable), s.landed, t)
  {
    hide *;
    StartupSettles(s, unreadable);
    SettledAnchored(s.disk, AfterStartup(s, unreadable), s, t);
  }

  lemma SettledFor(b: Book, r: Book, s: State, t: Ticker)
    requires Settled(b, r, s) && Shows(s, t)
    ensures t in Tickers(r.executedToday) || SameFor(b, r, t)
  {}

  lemma SettledAnchored(b: Book, r: Book, s: State, t: Ticker)
    requires Settled(b, r, s) && ComesFrom(b, r) && Anchored(b, s.landed, t)
    requires t in Tickers(b.executedToday) || Shows(s, t)
    ensures Anchored(r, s.landed, t)
  {
    ExecutedStays(b, r, t);
    if Shows(s, t) { SettledFor(b, r, s, t); }
    hide Settled, ComesFrom, Shows, Tickers;
    if t !in Tickers(r.executedToday) {
      var z :| z in b.approved && z.uid in s.landed && z.ticker == t;
      assert z in r.approved;
    }
  }

  lemma BootDormant(s: State, u: nat, t: Ticker, unreadable: set<nat>, rowsReadable: bool)
    requires Inv(s) && Dormant(s, u, t) && s.pc.Down? && ShowsLanded(s, Boot(unreadable, rowsReadable))
    ensures Dormant(Booted(s, unreadable, rowsReadable), u, t)
  {
    BootedSleeps(s, u, t, unreadable, rowsReadable);
    hide Inv, Reconcile, Seed, Anchored, ShowsLanded, Sleeps, OnlyAs, HasUid;
  }

  lemma BootedSleeps(s: State, u: nat, t: Ticker, unreadable: set<nat>, rowsReadable: bool)
    requires Inv(s) && Dormant(s, u, t) && s.pc.Down? && ShowsLanded(s, Boot(unreadable, rowsReadable))
    ensures var r := AfterStartup(s, unreadable);
      && OnlyAs(r.approved, u, t) && (HasUid(r, u) ==> Anchored(r, s.landed, t))
      && Sleeps(r, u, Seed(r, s.rows, rowsReadable))
  {
    BootKeepsUid(s, unreadable, u, t);
    var r := AfterStartup(s, unreadable);
    if HasUid(s.disk, u) {
      AnchorHoldsBack(s, t, unreadable, rowsReadable);
      AnchorSurvives(s, t, unreadable);
      SeedsExactly(s, unreadable, rowsReadable, t);
      hide Inv, Reconcile, Seed, HeldBack, Anchored, ShowsLanded, Sleeps, OnlyAs, Absent, AfterStartup;
      assert OnlyAs(r.approved, u, t);
      AllSleep(r, u, t, Seed(r, s.rows, rowsReadable));
    } else {
      NoneSleeps(s.disk, u, {});
      hide Inv, Reconcile, Seed, Anchored, ShowsLanded, Sleeps, OnlyAs, Absent, AfterStartup;
      assert Absent(r.approved, u);
      NoneSleeps(r, u, Seed(r, s.rows, rowsReadable));
    }
  }

  lemma AllSleep(b: Book, u: nat, t: Ticker, executed: set<Ticker>)
    requires OnlyAs(b.approved, u, t) && t in executed
    ensures Sleeps(b, u, executed)
  {}

  lemma NoneSleeps(b: Book, u: nat, executed: set<Ticker>)
    ensures Absent(b.approved, u) ==> Sleeps(b, u, executed) && !HasUid(b, u)
    ensures !HasUid(b, u) ==> Absent(b.approved, u)
  {}

  lemma TickDormant(s: State, u: nat, t: Ticker)
    requires Dormant(s, u, t) && s.pc.Idle?
    ensures Dormant(Reloaded(s), u, t)
  {
    var r := MergeExecuted(s.disk, s.executed);
    MergeKeepsUid(s.disk, s.executed, u, t);
    if x :| x in r.approved && x.uid == u {
      assert x in s.disk.approved && t !in s.executed;
      MergeAnchored(s.disk, s.executed, s.landed, t);
    }
    assert forall x :: x in r.approved ==> x in s.disk.approved && x.ticker !in s.executed;
    hide Anchored, MergeExecuted;
  }

  lemma MergeAnchored(b: Book, executed: set<Ticker>, landed: seq<nat>, t: Ticker)
    requires Anchored(b, landed, t) && t !in executed
    ensures Anchored(MergeExecuted(b, executed), landed, t)
  {
    if t !in Tickers(b.executedToday) {
      var z :| z in b.approved && z.uid in landed && z.ticker == t;
      assert z in MergeExecuted(b, executed).approved;
    }
  }

  lemma RestampAnchored(b: Book, t': Ticker, from: set<Status>, st: Status, landed: seq<nat>, t: Ticker)
    requires Anchored(b, landed, t)
    ensures Anchored(b.(approved := Restamp(b.approved, t', from, st)), landed, t)
  {
    var r := Restamp(b.approved, t', from, st);
    if t !in Tickers(b.executedToday) {
      var z :| z in b.approved && z.uid in landed && z.ticker == t;
      var i :| 0 <= i < |b.approved| && b.approved[i] == z;
      assert r[i] in r && r[i].uid == z.uid && r[i].ticker == t;
    }
  }

  lemma RestampHasUid(b: Book, t': Ticker, from: set<Status>, st: Status, u: nat)
    ensures HasUid(b.(approved := Restamp(b.approved, t', from, st)), u) ==> HasUid(b, u)
  {
    RestampMembers(b.approved, t', from, st);
  }

  /** A restamp by ticker wakes `u` only if it returns it to pending under a ticker being traded. */
  lemma RestampBook(b: Book, t': Ticker, from: set<Status>, st: Status, u: nat, t: Ticker,
                    landed: seq<nat>, executed: set<Ticker>, executed': set<Ticker>)
    requires OnlyAs(b.approved, u, t) && (HasUid(b, u) ==> Anchored(b, landed, t)) && Sleeps(b, u, executed)
    requires executed <= executed' && (st == Pending ==> t' in executed')
    ensures var r := b.(approved := Restamp(b.approved, t', from, st));
      OnlyAs(r.approved, u, t) && (HasUid(r, u) ==> Anchored(r, landed, t)) && Sleeps(r, u, executed')
  {
    RestampKeepsUid(b, t', from, st, u, t);
    RestampHasUid(b, t', from, st, u);
    if HasUid(b, u) { RestampAnchored(b, t', from, st, landed, t); }
    RestampMembers(b.approved, t', from, st);
    hide Anchored, HasUid, Restamp, OnlyAs, Absent;
  }

  lemma MarkDormant(s: State, u: nat, t: Ticker)
    requires Dormant(s, u, t) && s.pc.Loop? && s.pc.rest != []
    ensures Dormant(Intended(s), u, t)
  {
    var e := s.pc.rest[0];
    assert e in s.pc.rest && forall y :: y in s.pc.rest[1..] ==> y in s.pc.rest;
    assert !Offered(Intended(s), u);
    RestampBook(s.mem, e.ticker, {Pending}, Executing, u, t, s.landed, s.executed, s.executed);
    hide Anchored, HasUid, Sleeps, Restamp, Offered, OnlyAs;
  }

  lemma RejectedDormant(s: State, u: nat, t: Ticker)
    requires Dormant(s, u, t) && s.pc.Placing?
    ensures Dormant(Reverted(s), u, t)
  {
    var e := s.pc.e;
    StepOffers(s, Rejected, u);
    RestampBook(s.mem, e.ticker, {Executing}, Pending, u, t, s.landed, s.executed, s.executed + {e.ticker});
    hide Anchored, HasUid, Sleeps, Restamp, Offered, OnlyAs, Absent;
  }

  lemma FinalAnchored(b: Book, t': Ticker, landed: seq<nat>, t: Ticker)
    requires forall x :: x in b.approved ==> x.status != Executed
    requires Anchored(b, landed, t) && FirstMatch(b.approved, t', {Pending, Executing}) < |b.approved|
    ensures Anchored(MarkExecuted(b, t'), landed, t)
  {
    MarkExecutedMembers(b, t');
    if t == t' {
    } else if t in Tickers(b.executedToday) {
      StillBlockedByExecution(b, MarkExecuted(b, t'), t);
    } else {
      OtherTickersStay(b, t', t);
      var z :| z in b.approved && z.uid in landed && z.ticker == t;
      assert z in MarkExecuted(b, t').approved;
    }
  }

  /** Finalizing takes records away and changes none that stays. */
  lemma FinalSleeps(b: Book, t': Ticker, u: nat, executed: set<Ticker>)
    requires forall x :: x in b.approved ==> x.status != Executed
    ensures HasUid(MarkExecuted(b, t'), u) ==> HasUid(b, u)
    ensures Sleeps(b, u, executed) ==> Sleeps(MarkExecuted(b, t'), u, executed + {t'})
  {
    MarkExecutedMembers(b, t');
    hide MarkExecuted;
  }

  lemma InDoubtIsOpen(b: Book, e: Entry)
    requires InDoubt(b, e)
    ensures FirstMatch(b.approved, e.ticker, {Pending, Executing}) < |b.approved|
  {}

  lemma FinalBook(b: Book, e: Entry, u: nat, t: Ticker, landed: seq<nat>, executed: set<Ticker>)
    requires InDoubt(b, e) && forall x :: x in b.approved ==> x.status != Executed
    requires OnlyAs(b.approved, u, t) && (HasUid(b, u) ==> Anchored(b, landed, t)) && Sleeps(b, u, executed)
    ensures var r := MarkExecuted(b, e.ticker);
      OnlyAs(r.approved, u, t) && (HasUid(r, u) ==> Anchored(r, landed, t)) && Sleeps(r, u, executed + {e.ticker})
  {
    hide Anchored, HasUid, Sleeps, MarkExecuted, OnlyAs, Absent;
    FinalKeepsUid(b, e.ticker, u, t);
    InDoubtIsOpen(b, e);
    FinalSleeps(b, e.ticker, u, executed);
    if HasUid(b, u) { FinalAnchored(b, e.ticker, landed, t); }
  }

  lemma FlightSays(s: State)
    requires Inv(s) && Busy(s.pc)
    ensures InDoubt(s.mem, s.pc.e) && forall x :: x in s.mem.approved ==> x.status != Executed
  {}

  lemma FinalDormant(s: State, u: nat, t: Ticker)
    requires Inv(s) && Dormant(s, u, t) && s.pc.Logged?
    ensures Dormant(Finalized(s), u, t)
  {
    StepOffers(s, Finalize, u);
    FlightSays(s);
    hide Inv, Anchored, HasUid, Sleeps, MarkExecuted, InDoubt, Offered, OnlyAs, Absent;
    FinalBook(s.mem, s.pc.e, u, t, s.landed, s.executed);
  }

  lemma LandDormant(s: State, u: nat, t: Ticker)
    requires Dormant(s, u, t) && s.pc.Placing? && s.pc.e.shares > 0
    ensures Dormant(Landed(s), u, t)
  {
    var landed := s.landed + [s.pc.e.uid];
    MoreLanded(s.disk, s.landed, landed, t);
    MoreLanded(s.mem, s.landed, landed, t);
    hide Anchored, HasUid, Sleeps;
  }

  lemma MoreLanded(b: Book, landed: seq<nat>, more: seq<nat>, t: Ticker)
    requires forall u :: u in landed ==> u in more
    ensures Anchored(b, landed, t) ==> Anchored(b, more, t)
  {}

  lemma SolveDormant(s: State, u: nat, t: Ticker, id: string, t': Ticker, shares: int)
    requires Dormant(s, u, t) && s.pc.Ready?
    ensures Dormant(Redeployed(s, id, t', shares), u, t)
  {
    var e := Entry(s.nextUid, id, t', shares, Pending);
    var r := AddEntry(s.mem, e);
    AddKeepsUid(s.mem, e, u, t);
    assert forall x :: x in r.approved ==> x in s.mem.approved || x == e;
    assert forall x :: x in s.mem.approved ==> x in r.approved;
    assert HasUid(r, u) ==> HasUid(s.mem, u);
    if Anchored(s.mem, s.landed, t) && t !in Tickers(s.mem.executedToday) {
      var z :| z in s.mem.approved && z.uid in s.landed && z.ticker == t;
      assert z in r.approved;
    }
    assert Anchored(s.mem, s.landed, t) ==> Anchored(r, s.landed, t);
    assert Sleeps(r, u, s.executed);
    hide Anchored, HasUid, Sleeps, AddEntry;
  }

  lemma RewriteDormant(s: State, u: nat, t: Ticker, plan: seq<Entry>)
    requires Dormant(s, u, t) && FreshPlan(plan, s.nextUid)
    ensures Dormant(Rewritten(s, plan), u, t)
  {
    PlanKeepsUid(plan, s.nextUid, u, t);
    hide Anchored;
  }

  lemma WalkDormant(s: State, u: nat, t: Ticker, a: Action)
    requires Dormant(s, u, t) && Enabled(s, a)
    requires a.BeginEntries? || a.NoTrigger? || a.Skip? || a.EndEntries? || a.ConnectionLost? || a.ExitTraded? || a.Crash?
             || a.SaveBook? || a.BuyFills? || a.BuyExpires? || a.SharesSold? || a.TimedOut? || a.Accepted?
    ensures Dormant(Apply(s, a), u, t)
  {
    if a.BeginEntries? {
      assert forall y :: y in PendingEntries(s.mem) ==> y in s.mem.approved && y.status == Pending;
    } else if a.NoTrigger? || a.Skip? {
      assert forall y :: y in s.pc.rest[1..] ==> y in s.pc.rest;
    }
    hide Anchored, HasUid;
  }

  lemma StepDormant(s: State, u: nat, t: Ticker, a: Action)
    requires Inv(s) && Dormant(s, u, t) && Enabled(s, a) && ShowsLanded(s, a)
    ensures Dormant(Apply(s, a), u, t)
  {
    hide Inv, Dormant, Booted, Reloaded, Redeployed, Intended, Landed, Reverted, Finalized, Rewritten;
    match a
    case Boot(unreadable, rowsReadable) => BootDormant(s, u, t, unreadable, rowsReadable);
    case Tick => TickDormant(s, u, t);
    case Redeploy(id, t', shares) => SolveDormant(s, u, t, id, t', shares);
    case WriteAhead => MarkDormant(s, u, t);
    case Land => LandDormant(s, u, t);
    case Rejected => RejectedDormant(s, u, t);
    case Finalize => FinalDormant(s, u, t);
    case PlannerRewrite(plan) => RewriteDormant(s, u, t, plan);
    case _ => WalkDormant(s, u, t, a);
  }

  lemma {:induction false} SoundWhileDormant(r: Run, u: nat, t: Ticker)
    requires Inv(Origin(r)) && SoundBut(Origin(r), {u}) && Dormant(Origin(r), u, t)
    requires Valid(r) && AllMark(r) && AllShow(r) && AllFresh(r)
    ensures Inv(End(r)) && SoundBut(End(r), {u}) && Dormant(End(r), u, t)
  {
    if r.Then? {
      SoundWhileDormant(r.prev, u, t);
      DormantRests(End(r.prev), u, t);
      StepKeeps(End(r.prev), r.a);
      StepSoundBut(End(r.prev), r.a, {u});
      StepDormant(End(r.prev), u, t, r.a);
    }
  }

  // ---------------------------------------------------------------- which re-solves are safe

  /** Of a decision in doubt the re-solve leaves one record that cannot wake. */
  lemma SolveBesideDormant(s: State, id: string, t: Ticker, shares: int, x: Entry)
    requires Inv(s) && Sound(s) && Enabled(s, Redeploy(id, t, shares)) && AllPositive(s.mem.approved) && id !in s.bought
    requires x in s.mem.approved && x.id == id && x.status != Pending && Anchored(s.mem, s.landed, x.ticker)
    ensures var q := Redeployed(s, id, t, shares); SoundBut(q, {x.uid}) && Dormant(q, x.uid, x.ticker)
  {
    var y, q := Entry(s.nextUid, id, t, shares, Pending), Redeployed(s, id, t, shares);
    forall z | z in s.mem.approved && z.id == id ensures z == x { OneUid(s.mem.approved, x, z); }
    SolveAppends(s, id, t, shares);
    HeadIsOnlyItself(s.mem, x);
    assert forall z :: z in q.mem.approved <==> z in s.mem.approved || z == y;
    assert GoodBook(s.mem, s.nextUid);
    hide Inv, Sound, SoundBut, Dormant, Anchored, GoodBook, UniqueUids, Enabled, AllPositive;
    DormantAfterSolve(s, q, x, y);
    SoundAfterSolve(s, q, x, y);
  }

  lemma DormantAfterSolve(s: State, q: State, x: Entry, y: Entry)
    requires q == s.(mem := q.mem, disk := q.mem, nextUid := s.nextUid + 1) && s.pc.Ready?
    requires GoodBook(s.mem, s.nextUid) && x in s.mem.approved && x.status != Pending && y.uid == s.nextUid
    requires OnlyAs(s.mem.approved, x.uid, x.ticker) && Anchored(s.mem, s.landed, x.ticker)
    requires q.mem.executedToday == s.mem.executedToday && forall z :: z in q.mem.approved <==> z in s.mem.approved || z == y
    ensures Dormant(q, x.uid, x.ticker)
  {
    forall z | z in q.mem.approved && z.uid == x.uid ensures z == x { OneUid(s.mem.approved, x, z); }
    if x.ticker !in Tickers(s.mem.executedToday) {
      var z :| z in s.mem.approved && z.uid in s.landed && z.ticker == x.ticker;
      assert z in q.mem.approved;
    }
  }

  lemma SoundAfterSolve(s: State, q: State, x: Entry, y: Entry)
    requires q == s.(mem := q.mem, disk := q.mem, nextUid := s.nextUid + 1) && s.pc.Ready?
    requires Sound(s) && y.id !in s.bought && forall z :: z in s.mem.approved && z.id == y.id ==> z == x
    requires q.mem.executedToday == s.mem.executedToday && forall z :: z in q.mem.approved <==> z in s.mem.approved || z == y
    ensures SoundBut(q, {x.uid})
  {
    assert OneIdBut(q.mem.approved, {x.uid});
    assert Accounted(q.mem, q.landed, q.bought, {x.uid});
    assert Unbought(q.mem.approved, q.bought);
    hide OneIdBut, Accounted, Unbought;
  }

  /** The same of a ticker neither executed nor bought makes twins. */
  lemma SolveMakesTwins(s: State, id: string, t: Ticker, shares: int, x: Entry)
    requires Inv(s) && Sound(s) && Enabled(s, Redeploy(id, t, shares)) && AllPositive(s.mem.approved) && id !in s.bought
    requires x in s.mem.approved && x.id == id && x.ticker == t && x.status != Pending && !Anchored(s.mem, s.landed, t)
    ensures var q := Redeployed(s, id, t, shares); q.pc.Ready? && Twins(q, x, Entry(s.nextUid, id, t, shares, Pending))
  {
    var y, q := Entry(s.nextUid, id, t, shares, Pending), Redeployed(s, id, t, shares);
    forall z | z in s.mem.approved && z.id == id ensures z == x { OneUid(s.mem.approved, x, z); }
    SolveAppends(s, id, t, shares);
    RedeployKeeps(s, id, t, shares);
    assert forall z :: z in q.mem.approved <==> z in s.mem.approved || z == y;
    assert y in q.mem.approved && GoodBook(s.mem, s.nextUid) && GoodBook(q.mem, q.nextUid);
    hide Sound, Inv, GoodBook;
  }

  /** A re-solve is safe for every continuation exactly when its decision was not
      bought and is not in doubt, or is in doubt of a ticker that was executed or
      has a bought record in the book.  An id names its ticker. */
  lemma SolveIsSafeExactly(s: State, id: string, t: Ticker, shares: int)
    requires Inv(s) && Sound(s) && Enabled(s, Redeploy(id, t, shares)) && AllPositive(s.mem.approved)
    requires forall x :: x in s.mem.approved && x.id == id ==> x.ticker == t
    ensures (forall r :: Continues(r, Redeployed(s, id, t, shares)) ==> NoRepeat(End(r).bought))
       <==> id !in s.bought && (Anchored(s.mem, s.landed, t) || CarefulSolve(s, id))
  {
    var q := Redeployed(s, id, t, shares);
    if id in s.bought {
      var r := SolveIsBoughtAgain(s, id, t, shares);
      assert !NoRepeat(End(r).bought);
    } else if CarefulSolve(s, id) {
      RedeployKeeps(s, id, t, shares);
      SolveSound(s, id, t, shares, {});
      forall r | Continues(r, q) ensures NoRepeat(End(r).bought) { SoundAlongRun(r); }
    } else {
      var x :| x in s.mem.approved && x.id == id && x.status != Pending;
      DoubtDecides(s, id, t, shares, x);
    }
  }

  lemma DoubtDecides(s: State, id: string, t: Ticker, shares: int, x: Entry)
    requires Inv(s) && Sound(s) && Enabled(s, Redeploy(id, t, shares)) && AllPositive(s.mem.approved) && id !in s.bought
    requires x in s.mem.approved && x.id == id && x.ticker == t && x.status != Pending
    ensures (forall r :: Continues(r, Redeployed(s, id, t, shares)) ==> NoRepeat(End(r).bought)) <==> Anchored(s.mem, s.landed, t)
  {
    var q := Redeployed(s, id, t, shares);
    if Anchored(s.mem, s.landed, t) {
      RedeployKeeps(s, id, t, shares);
      SolveBesideDormant(s, id, t, shares, x);
      forall r | Continues(r, q) ensures NoRepeat(End(r).bought) {
        SoundWhileDormant(r, x.uid, t);
      }
    } else {
      SolveMakesTwins(s, id, t, shares, x);
      var r := TwinsAreBought(q, x, Entry(s.nextUid, id, t, shares, Pending));
      assert !NoRepeat(End(r).bought);
    }
  }
}
