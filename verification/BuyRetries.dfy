/**
 What becomes of a refused entry.  A rejected record returns to pending and a
 skipped one stays pending, but its ticker joins the already-traded set.
 */
module BuyRetries {
  import opened OrderBooks
  import opened BuyProtocol
  import opened BuyDecisions

  // ---------------------------------------------------------------- while the daemon runs

  predicate NoBoot(r: Run) { r.Then? ==> NoBoot(r.prev) && !r.a.Boot? }

  /** Record `u` is among the records the current poll still visits, or is placing. */
  ghost predicate Offered(s: State, u: nat) {
    && (s.pc.Loop? || Busy(s.pc))
    && ((Busy(s.pc) && s.pc.e.uid == u) || exists y :: y in s.pc.rest && y.uid == u)
  }

  ghost predicate OnlyAs(es: seq<Entry>, u: nat, t: Ticker) {
    forall x :: x in es && x.uid == u ==> x.ticker == t
  }

  ghost predicate Absent(es: seq<Entry>, u: nat) { forall x :: x in es ==> x.uid != u }

  /** Record `u` of `t` is set aside: wherever it still stands, the daemon is
      down or has `t` in its traded set and is not about to visit it. */
  ghost predicate Shelved(s: State, u: nat, t: Ticker) {
    && u < s.nextUid && OnlyAs(s.disk.approved, u, t) && OnlyAs(s.mem.approved, u, t)
    && (!s.pc.Down? ==> t in s.executed)
    && (s.pc.Ready? ==> Absent(s.mem.approved, u))
    && !Offered(s, u)
  }

  lemma OnlyAsFrom(b: Book, r: Book, u: nat, t: Ticker)
    requires ComesFrom(b, r)
    ensures OnlyAs(b.approved, u, t) ==> OnlyAs(r.approved, u, t)
    ensures Absent(b.approved, u) ==> Absent(r.approved, u)
  {
    forall x | x in r.approved
      ensures x.uid == u && OnlyAs(b.approved, u, t) ==> x.ticker == t
      ensures Absent(b.approved, u) ==> x.uid != u
    {
      var y :| y in b.approved && SameRecord(x, y);
    }
  }

  /** `s` cannot make a finalized record reappear: its books hold open records only. */
  ghost predicate Open(s: State) {
    forall x :: x in s.mem.approved ==> x.status != Executed
  }

  lemma AddKeepsUid(b: Book, e: Entry, u: nat, t: Ticker)
    requires e.uid > u
    ensures OnlyAs(b.approved, u, t) ==> OnlyAs(AddEntry(b, e).approved, u, t)
    ensures Absent(b.approved, u) ==> Absent(AddEntry(b, e).approved, u)
  {
    assert forall x :: x in AddEntry(b, e).approved ==> x in b.approved || x == e;
  }

  lemma PlanKeepsUid(plan: seq<Entry>, from: nat, u: nat, t: Ticker)
    requires FreshPlan(plan, from) && u < from
    ensures OnlyAs(plan, u, t) && Absent(plan, u)
  {
    forall x | x in plan ensures x.uid >= from {
      var i :| 0 <= i < |plan| && plan[i] == x;
    }
  }

  lemma MergeKeepsUid(b: Book, done: set<Ticker>, u: nat, t: Ticker)
    ensures OnlyAs(b.approved, u, t) ==> OnlyAs(MergeExecuted(b, done).approved, u, t)
    ensures Absent(b.approved, u) ==> Absent(MergeExecuted(b, done).approved, u)
    ensures OnlyAs(b.approved, u, t) && t in done ==> Absent(MergeExecuted(b, done).approved, u)
  {}

  lemma RestampKeepsUid(b: Book, t': Ticker, from: set<Status>, st: Status, u: nat, t: Ticker)
    ensures OnlyAs(b.approved, u, t) ==> OnlyAs(Restamp(b.approved, t', from, st), u, t)
    ensures Absent(b.approved, u) ==> Absent(Restamp(b.approved, t', from, st), u)
  {
    RestampComesFrom(b, t', from, st);
    OnlyAsFrom(b, b.(approved := Restamp(b.approved, t', from, st)), u, t);
  }

  lemma FinalKeepsUid(b: Book, t': Ticker, u: nat, t: Ticker)
    requires forall x :: x in b.approved ==> x.status != Executed
    ensures OnlyAs(b.approved, u, t) ==> OnlyAs(MarkExecuted(b, t').approved, u, t)
    ensures Absent(b.approved, u) ==> Absent(MarkExecuted(b, t').approved, u)
  {
    FinalComesFrom(b, t');
    OnlyAsFrom(b, MarkExecuted(b, t'), u, t);
  }

  lemma BootKeepsUid(s: State, unreadable: set<nat>, u: nat, t: Ticker)
    requires GoodBook(s.disk, s.nextUid)
    ensures var r := Reconcile(s.disk, ExecutingEntries(s.disk), unreadable, s);
      (OnlyAs(s.disk.approved, u, t) ==> OnlyAs(r.approved, u, t)) && (Absent(s.disk.approved, u) ==> Absent(r.approved, u))
  {
    ReconciledComesFrom(s, unreadable);
    OnlyAsFrom(s.disk, Reconcile(s.disk, ExecutingEntries(s.disk), unreadable, s), u, t);
  }

  /** No step makes an old record: what the books say about `u` they said before. */
  lemma BooksKeepUid(s: State, a: Action, u: nat, t: Ticker)
    requires GoodBook(s.disk, s.nextUid) && (!s.pc.Down? ==> Open(s)) && Enabled(s, a) && u < s.nextUid
    ensures OnlyAs(s.disk.approved, u, t) && OnlyAs(s.mem.approved, u, t) ==>
      OnlyAs(Apply(s, a).disk.approved, u, t) && OnlyAs(Apply(s, a).mem.approved, u, t)
    ensures Absent(s.disk.approved, u) && Absent(s.mem.approved, u) ==>
      Absent(Apply(s, a).disk.approved, u) && Absent(Apply(s, a).mem.approved, u)
  {
    hide OnlyAs, Absent, GoodBook, Reconcile, Restamp, MarkExecuted, MergeExecuted, AddEntry, FreshPlan;
    match a
    case Boot(unreadable, _) => BootKeepsUid(s, unreadable, u, t);
    case Crash => assert OnlyAs([], u, t) && Absent([], u) by { EmptyKeepsUid(u, t); }
    case Tick => MergeKeepsUid(s.disk, s.executed, u, t);
    case Redeploy(id, t', n) => AddKeepsUid(s.mem, Entry(s.nextUid, id, t', n, Pending), u, t);
    case WriteAhead => RestampKeepsUid(s.mem, s.pc.rest[0].ticker, {Pending}, Executing, u, t);
    case Rejected => RestampKeepsUid(s.mem, s.pc.e.ticker, {Executing}, Pending, u, t);
    case Finalize => FinalKeepsUid(s.mem, s.pc.e.ticker, u, t);
    case PlannerRewrite(plan) => PlanKeepsUid(plan, s.nextUid, u, t);
    case _ =>
  }

  lemma EmptyKeepsUid(u: nat, t: Ticker)
    ensures OnlyAs([], u, t) && Absent([], u)
  {}

  /** A record is offered only from memory, at the start of the walk. */
  lemma StepOffers(s: State, a: Action, u: nat)
    requires Enabled(s, a) && !Offered(s, u) && (a.BeginEntries? ==> Absent(s.mem.approved, u))
    ensures !Offered(Apply(s, a), u)
  {
    hide Booted, Reloaded, Redeployed, Rewritten, Reconcile, Seed, Restamp, MarkExecuted, MergeExecuted, AddEntry;
    if a.BeginEntries? {
      assert forall y :: y in PendingEntries(s.mem) ==> y in s.mem.approved;
    } else if a.NoTrigger? || a.Skip? || a.WriteAhead? {
      assert s.pc.rest[0] in s.pc.rest && forall y :: y in s.pc.rest[1..] ==> y in s.pc.rest;
    }
    if a.Boot? { assert Booted(s, a.unreadable, a.rowsReadable).pc == Idle by { BootIdles(s, a.unreadable, a.rowsReadable); } }
    if a.Tick? || a.Redeploy? || a.PlannerRewrite? { PcOf(s, a); }
  }

  lemma BootIdles(s: State, unreadable: set<nat>, rowsReadable: bool)
    ensures Booted(s, unreadable, rowsReadable).pc == Idle
  {}

  lemma PcOf(s: State, a: Action)
    requires Enabled(s, a) && (a.Tick? || a.Redeploy? || a.PlannerRewrite?)
    ensures Apply(s, a).pc == if a.Tick? then Ready else s.pc
  {}

  lemma StepShelved(s: State, a: Action, u: nat, t: Ticker)
    requires GoodBook(s.disk, s.nextUid) && (!s.pc.Down? ==> Open(s))
    requires Shelved(s, u, t) && Enabled(s, a) && !a.Boot?
    ensures Shelved(Apply(s, a), u, t)
  {
    BooksKeepUid(s, a, u, t);
    StepOffers(s, a, u);
    hide OnlyAs, Absent, Offered, GoodBook, Restamp, MarkExecuted, MergeExecuted, AddEntry;
    match a
    case Tick => MergeKeepsUid(s.disk, s.executed, u, t);
    case Redeploy(id, t', n) => AddKeepsUid(s.mem, Entry(s.nextUid, id, t', n, Pending), u, t);
    case _ =>
  }

  lemma {:induction false} ShelvedAlongRun(r: Run, u: nat, t: Ticker)
    requires Inv(Origin(r)) && Shelved(Origin(r), u, t)
    requires Valid(r) && AllMark(r) && AllShow(r) && NoBoot(r)
    ensures Shelved(End(r), u, t)
  {
    if r.Then? {
      ShelvedAlongRun(r.prev, u, t);
      InvAlongRun(r.prev);
      OpenBook(End(r.prev));
      StepShelved(End(r.prev), r.a, u, t);
    }
  }

  lemma OpenBook(s: State)
    requires Inv(s)
    ensures !s.pc.Down? ==> Open(s)
  {}

  /** A uid names one record, on disk and in memory. */
  ghost predicate Paired(s: State) {
    forall x, y :: x in s.disk.approved && y in s.mem.approved && x.uid == y.uid ==> x.ticker == y.ticker
  }

  lemma SameBookIsPaired(s: State)
    requires s.disk.approved == s.mem.approved && UniqueUids(s.mem.approved)
    ensures Paired(s)
  {
    forall x, y | x in s.disk.approved && y in s.mem.approved && x.uid == y.uid ensures x.ticker == y.ticker {
      var i :| 0 <= i < |s.mem.approved| && s.mem.approved[i] == x;
      var j :| 0 <= j < |s.mem.approved| && s.mem.approved[j] == y;
      assert i == j;
    }
  }

  lemma ReloadIsPaired(s: State)
    requires Inv(s)
    ensures Paired(Reloaded(s))
  {
    var r := MergeExecuted(s.disk, s.executed);
    forall x, y | x in s.disk.approved && y in r.approved && x.uid == y.uid ensures x.ticker == y.ticker {
      var i :| 0 <= i < |s.disk.approved| && s.disk.approved[i] == x;
      var j :| 0 <= j < |s.disk.approved| && s.disk.approved[j] == y;
      assert i == j;
    }
  }

  lemma StepPaired(s: State, a: Action)
    requires Inv(s) && Paired(s) && Enabled(s, a) && Inv(Apply(s, a))
    requires s.pc.Down? ==> s.mem.approved == []
    ensures Paired(Apply(s, a)) && (Apply(s, a).pc.Down? ==> Apply(s, a).mem.approved == [])
  {
    hide Reconcile, Seed, MarkExecuting, MarkExecuted, RevertToPending, AddEntry, Walkable, InFlight, Guarded, Stripped;
    match a
    case Tick => ReloadIsPaired(s);
    case PlannerRewrite(plan) =>
      forall x | x in plan ensures x.uid >= s.nextUid {
        var i :| 0 <= i < |plan| && plan[i] == x;
      }
    case Boot(_, _) => SameBookIsPaired(Apply(s, a));
    case Redeploy(_, _, _) => SameBookIsPaired(Apply(s, a));
    case WriteAhead => SameBookIsPaired(Apply(s, a));
    case Rejected => SameBookIsPaired(Apply(s, a));
    case TimedOut => SameBookIsPaired(Apply(s, a));
    case Finalize => SameBookIsPaired(Apply(s, a));
    case SaveBook => SameBookIsPaired(Apply(s, a));
    case _ =>
  }

  /** What every run from a fresh session keeps. */
  ghost predicate Reached(s: State) {
    Inv(s) && Paired(s) && (s.pc.Down? ==> s.mem.approved == [])
  }

  lemma {:induction false} ReachedAlongRun(r: Run)
    requires Reached(Origin(r)) && Valid(r) && AllMark(r) && AllShow(r)
    ensures Reached(End(r))
  {
    if r.Then? {
      ReachedAlongRun(r.prev);
      StepKeeps(End(r.prev), r.a);
      StepPaired(End(r.prev), r.a);
    }
  }

  lemma HeadIsOnlyItself(b: Book, e: Entry)
    requires UniqueUids(b.approved) && exists y :: y in b.approved && y.uid == e.uid && y.ticker == e.ticker
    ensures OnlyAs(b.approved, e.uid, e.ticker)
  {
    var y :| y in b.approved && y.uid == e.uid && y.ticker == e.ticker;
    var j :| 0 <= j < |b.approved| && b.approved[j] == y;
    forall x | x in b.approved && x.uid == e.uid ensures x.ticker == e.ticker {
      var i :| 0 <= i < |b.approved| && b.approved[i] == x;
      assert i == j;
    }
  }

  /** The record a refusal is about. */
  function Refused(s: State, a: Action): Entry
    requires Enabled(s, a) && (a.Rejected? || a.Skip?)
  {
    if a.Rejected? then s.pc.e else s.pc.rest[0]
  }

  lemma SkippedIsShelved(s: State)
    requires Reached(s) && s.pc.Loop? && s.pc.rest != []
    ensures Shelved(Apply(s, Skip), s.pc.rest[0].uid, s.pc.rest[0].ticker)
  {
    var e := s.pc.rest[0];
    assert e in s.pc.rest && e in s.mem.approved;
    HeadIsOnlyItself(s.mem, e);
    forall x | x in s.disk.approved && x.uid == e.uid ensures x.ticker == e.ticker {}
    forall y | y in s.pc.rest[1..] ensures y.uid != e.uid {
      var j :| 0 <= j < |s.pc.rest| - 1 && s.pc.rest[1..][j] == y;
      assert s.pc.rest[j + 1] == y;
    }
  }

  lemma RejectedIsShelved(s: State)
    requires Reached(s) && s.pc.Placing?
    ensures Shelved(Apply(s, Rejected), s.pc.e.uid, s.pc.e.ticker)
  {
    var e := s.pc.e;
    var y :| y in s.mem.approved && y.uid == e.uid && y.ticker == e.ticker && y.status == Executing;
    HeadIsOnlyItself(s.mem, e);
    RestampComesFrom(s.mem, e.ticker, {Executing}, Pending);
    OnlyAsFrom(s.mem, RevertToPending(s.mem, e.ticker), e.uid, e.ticker);
  }

  /** Until the daemon is restarted a refused entry is never offered again,
      whatever is polled, planned, re-solved, saved or filled. */
  lemma RefusedIsNotRetried(s: State, a: Action, r: Run)
    requires Reached(s) && Enabled(s, a) && (a.Rejected? || a.Skip?) && Origin(r) == Apply(s, a)
    requires Valid(r) && AllMark(r) && AllShow(r) && NoBoot(r)
    ensures var e := Refused(s, a);
      !Offered(End(r), e.uid) && (!End(r).pc.Down? ==> e.ticker in End(r).executed)
  {
    if a.Rejected? { RejectedIsShelved(s); } else { SkippedIsShelved(s); }
    StepKeeps(s, a);
    ShelvedAlongRun(r, Refused(s, a).uid, Refused(s, a).ticker);
    hide Inv, Shelved;
    assert Shelved(End(r), Refused(s, a).uid, Refused(s, a).ticker);
    ShelvedSays(End(r), Refused(s, a).uid, Refused(s, a).ticker);
  }

  lemma ShelvedSays(s: State, u: nat, t: Ticker)
    requires Shelved(s, u, t)
    ensures !Offered(s, u) && (!s.pc.Down? ==> t in s.executed)
  {}

  // ---------------------------------------------------------------- erased by the next save

  /** No book holds record `u`, and nothing is about to place it. */
  ghost predicate Gone(s: State, u: nat) {
    u < s.nextUid && Absent(s.disk.approved, u) && Absent(s.mem.approved, u) && !Offered(s, u)
  }

  lemma StepGone(s: State, a: Action, u: nat)
    requires Inv(s) && Gone(s, u) && Enabled(s, a)
    ensures Gone(Apply(s, a), u)
  {
    BooksKeepUid(s, a, u, "");
    StepOffers(s, a, u);
    UidsGrow(s, a);
    hide Inv, Apply, Enabled, Offered, Absent;
  }

  lemma UidsGrow(s: State, a: Action)
    requires Enabled(s, a)
    ensures Apply(s, a).nextUid >= s.nextUid
  {}

  /** A reload strips the refused record from memory, and the next save of any
      kind strips it from disk: from then on no restart brings it back. */
  lemma {:induction false} ErasedForGood(s: State, u: nat, t: Ticker, r: Run)
    requires Inv(s) && Shelved(s, u, t) && s.pc.Idle? && Origin(r) == Apply(Apply(s, Tick), SaveBook)
    requires Valid(r) && AllMark(r) && AllShow(r)
    ensures Gone(End(r), u)
  {
    TickKeeps(s);
    QuietKeeps(Apply(s, Tick), SaveBook);
    if r.Then? {
      ErasedForGood(s, u, t, r.prev);
      InvAlongRun(r.prev);
      StepGone(End(r.prev), r.a, u);
    }
  }

  // ---------------------------------------------------------------- concrete runs

  lemma LoneMarkAndRevert(b: Book, a: Entry)
    requires b == Book([a], []) && a.status == Pending
    ensures RevertToPending(MarkExecuting(b, a.ticker), a.ticker) == b
  {
    assert MarkExecuting(b, a.ticker).approved == [a.(status := Executing)];
  }

  /** A lone record is rejected in its poll. */
  lemma RejectOne(o: State, m: Mode, s: State, a: Entry) returns (s': State)
    requires Reaches(o, m, s) && s.pc.Idle? && s.disk == Book([a], []) && s.executed == {}
    requires a.status == Pending && a.shares > 0 && Get(s.working, a.ticker) == 0
    ensures Reaches(o, m, s')
    ensures s' == s.(mem := s.disk, pc := Loop([]), executed := {a.ticker})
  {
    s' := SingleRecordWalk(o, m, s, a);
    LoneMarkAndRevert(s.disk, a);
    assert FirstMatch([a], a.ticker, {Pending}) == 0;
    hide Reaches, MarkExecuting, RevertToPending;
    s' := Step(o, m, s', WriteAhead);
    s' := Step(o, m, s', Rejected);
  }

  lemma CrashThenBoot(o: State, s: State) returns (s': State)
    requires Reaches(o, Mode(true, true), s) && !s.pc.Down? && s.disk.executedToday == [] && s.rows == {} && s.landed == []
    requires ExecutingEntries(s.disk) == []
    ensures Reaches(o, Mode(true, true), s') && s' == s.(mem := s.disk, executed := {}, pc := Idle)
  {
    hide Reaches;
    s' := Step(o, Mode(true, true), s, Crash);
    s' := BootPending(o, Mode(true, true), s');
  }

  /** Rejected, then restarted: the record is offered again and bought. */
  lemma RestartRetriesTheRejected() returns (r: Run)
    ensures Valid(r) && AllMark(r) && AllShow(r) && Init(Origin(r)) && End(r).landed == [0]
  {
    var a := Entry(0, "AMD:2026-09-04:portfolio_optimizer", "AMD", 10, Pending);
    var m := Mode(true, true);
    var o, s := OneRecordSession(a);
    KeepOne(a, (e: Entry) => e.status == Executing);
    hide Reaches, Init, Valid, Origin, End, AllMark, AllShow, Apply, Enabled;
    s := RejectOne(o, m, s, a);
    s := CrashThenBoot(o, s);
    s := SingleRecordLands(o, m, s, a);
    r := Witness(o, m, s);
  }

  /** The next poll strips the traded ticker from memory, and a save from disk. */
  lemma PollAndSave(o: State, m: Mode, s: State, a: Entry) returns (s': State)
    requires Reaches(o, m, s) && s.pc == Loop([]) && s.disk == Book([a], []) && s.executed == {a.ticker}
    ensures Reaches(o, m, s') && s' == s.(mem := Book([], []), disk := Book([], []), pc := Ready)
  {
    KeepOne(a, (e: Entry) => e.ticker !in s.executed);
    hide Reaches;
    s' := Step(o, m, s, EndEntries);
    s' := Step(o, m, s', Tick);
    s' := Step(o, m, s', SaveBook);
  }

  /** Rejected, reloaded and saved, then restarted: the record is no longer there. */
  lemma SaveErasesTheRejected() returns (r: Run)
    ensures Valid(r) && AllMark(r) && AllShow(r) && Init(Origin(r))
    ensures End(r).pc.Idle? && End(r).landed == [] && End(r).disk.approved == []
  {
    var a := Entry(0, "AMD:2026-09-04:portfolio_optimizer", "AMD", 10, Pending);
    var m := Mode(true, true);
    var o, s := OneRecordSession(a);
    hide Reaches, Init, Valid, Origin, End, AllMark, AllShow, Apply, Enabled;
    s := RejectOne(o, m, s, a);
    s := PollAndSave(o, m, s, a);
    s := CrashThenBoot(o, s);
    r := Witness(o, m, s);
  }
}
