/**
 The entry (BUY) protocol of the intraday daemon as a step machine.

 Durable: the order book on disk and the day's ENTER trade rows.  Volatile: the
 in-memory book, the `executed_tickers` set and the program counter.  Broker:
 held and working BUY shares per ticker.  `landed` records, in order, the record
 of every BUY that reached the broker, and `bought` its decision id.

 A run is a list of actions.  `Crash` is enabled in every live state, so it can
 fall between any two durable steps.
 */
module BuyProtocol {
  import opened OrderBooks

  datatype Pc =
    | Down                                     // no process
    | Idle                                     // between polls
    | Ready                                    // book reloaded and merged
    | Loop(rest: seq<Entry>)                   // walking the pending list
    | Placing(e: Entry, rest: seq<Entry>)      // intent saved, nothing at the broker
    | AtBroker(e: Entry, rest: seq<Entry>)     // the order reached the broker
    | Logged(e: Entry, rest: seq<Entry>)       // trade row durable, book not finalized

  datatype State = State(
    disk: Book, rows: set<Ticker>,
    mem: Book, executed: set<Ticker>, pc: Pc,
    held: map<Ticker, nat>, working: map<Ticker, nat>,
    landed: seq<nat>, bought: seq<string>, nextUid: nat)

  datatype Action =
    | Boot(unreadable: set<nat>, rowsReadable: bool)
    | Crash
    | Tick
    | Redeploy(id: string, ticker: Ticker, shares: int)
    | BeginEntries
    | NoTrigger
    | Skip
    | WriteAhead
    | Land
    | Rejected
    | TimedOut
    | Accepted
    | Finalize
    | ConnectionLost
    | EndEntries
    | ExitTraded(ticker: Ticker)
    | PlannerRewrite(plan: seq<Entry>)
    | BuyFills(ticker: Ticker, n: nat)
    | BuyExpires(ticker: Ticker, n: nat)
    | SharesSold(ticker: Ticker, n: nat)
    | SaveBook                                 // a save outside the entry path

  function Get(m: map<Ticker, nat>, t: Ticker): nat { if t in m then m[t] else 0 }

  /** Broker truth at startup: a holding, or a working BUY. */
  predicate Shows(s: State, t: Ticker) { Get(s.held, t) > 0 || Get(s.working, t) > 0 }

  /** What reconciling one in-doubt record does to the book. */
  function Resolved(b: Book, t: Ticker, s: State): Book {
    if Shows(s, t) then MarkExecuted(b, t) else RevertToPending(b, t)
  }

  /** Startup reconciliation of the records left `executing`. */
  function Reconcile(b: Book, todo: seq<Entry>, unreadable: set<nat>, s: State): Book
    decreases |todo|
  {
    if todo == [] then b else
      var e := todo[0];
      var b' := if e.uid in unreadable then b else Resolved(b, e.ticker, s);
      Reconcile(b', todo[1..], unreadable, s)
  }

  /** The already-traded set rebuilt from durable state at startup. */
  function Seed(b: Book, rows: set<Ticker>, rowsReadable: bool): set<Ticker> {
    Tickers(b.executedToday) + Tickers(ExecutingEntries(b)) + (if rowsReadable then rows else {})
  }

  predicate Busy(pc: Pc) { pc.Placing? || pc.AtBroker? || pc.Logged? }

  /** A plan the planner writes: new pending records, one per decision id. */
  predicate FreshPlan(plan: seq<Entry>, from: nat) {
    && (forall i :: 0 <= i < |plan| ==> plan[i].uid == from + i && plan[i].status == Pending)
    && forall i, j :: 0 <= i < j < |plan| ==> plan[i].id != plan[j].id
  }

  predicate Enabled(s: State, a: Action) {
    match a
    case Boot(_, _) => s.pc.Down?
    case Crash => !s.pc.Down?
    case Tick => s.pc.Idle?
    case Redeploy(_, _, shares) => s.pc.Ready? && shares > 0
    case BeginEntries => s.pc.Ready?
    case NoTrigger => s.pc.Loop? && s.pc.rest != []
    case Skip => s.pc.Loop? && s.pc.rest != []
    case WriteAhead => s.pc.Loop? && s.pc.rest != [] && s.pc.rest[0].shares > 0
                       && Get(s.working, s.pc.rest[0].ticker) == 0
    case Land => s.pc.Placing? && s.pc.e.shares > 0
    case Rejected => s.pc.Placing?
    case TimedOut => s.pc.Placing? || s.pc.AtBroker?
    case Accepted => s.pc.AtBroker?
    case Finalize => s.pc.Logged?
    case ConnectionLost => s.pc.Loop? || Busy(s.pc)
    case EndEntries => s.pc.Loop? && s.pc.rest == []
    case ExitTraded(_) => s.pc.Ready? || s.pc.Idle?
    case PlannerRewrite(plan) => FreshPlan(plan, s.nextUid)
    case BuyFills(t, n) => n <= Get(s.working, t)
    case BuyExpires(t, n) => n <= Get(s.working, t)
    case SharesSold(t, n) => n <= Get(s.held, t)
    case SaveBook => s.pc.Idle? || s.pc.Ready? || s.pc.Loop?
  }

  // ------------------------------------------------------- what each durable step does

  function Booted(s: State, unreadable: set<nat>, rowsReadable: bool): State {
    var b := Reconcile(s.disk, ExecutingEntries(s.disk), unreadable, s);
    s.(disk := b, mem := b, executed := Seed(b, s.rows, rowsReadable), pc := Idle)
  }

  function Reloaded(s: State): State { s.(mem := MergeExecuted(s.disk, s.executed), pc := Ready) }

  function Redeployed(s: State, id: string, t: Ticker, shares: int): State {
    var b := AddEntry(s.mem, Entry(s.nextUid, id, t, shares, Pending));
    s.(mem := b, disk := b, nextUid := s.nextUid + 1)
  }

  function Intended(s: State): State
    requires s.pc.Loop? && s.pc.rest != []
  {
    var b := MarkExecuting(s.mem, s.pc.rest[0].ticker);
    s.(mem := b, disk := b, pc := Placing(s.pc.rest[0], s.pc.rest[1..]))
  }

  function Landed(s: State): State
    requires s.pc.Placing? && s.pc.e.shares > 0
  {
    var e := s.pc.e;
    s.(landed := s.landed + [e.uid], bought := s.bought + [e.id],
       working := s.working[e.ticker := Get(s.working, e.ticker) + e.shares],
       pc := AtBroker(e, s.pc.rest))
  }

  function Reverted(s: State): State
    requires s.pc.Placing?
  {
    var b := RevertToPending(s.mem, s.pc.e.ticker);
    s.(mem := b, disk := b, executed := s.executed + {s.pc.e.ticker}, pc := Loop(s.pc.rest))
  }

  function Finalized(s: State): State
    requires s.pc.Logged?
  {
    var b := MarkExecuted(s.mem, s.pc.e.ticker);
    s.(mem := b, disk := b, executed := s.executed + {s.pc.e.ticker}, pc := Loop(s.pc.rest))
  }

  function Rewritten(s: State, plan: seq<Entry>): State {
    s.(disk := s.disk.(approved := plan), nextUid := s.nextUid + |plan|)
  }

  function Apply(s: State, a: Action): State
    requires Enabled(s, a)
  {
    match a
    case Boot(unreadable, rowsReadable) => Booted(s, unreadable, rowsReadable)
    case Crash => s.(mem := Book([], []), executed := {}, pc := Down)
    case Tick => Reloaded(s)
    case Redeploy(id, t, n) => Redeployed(s, id, t, n)
    case BeginEntries => s.(pc := Loop(PendingEntries(s.mem)))
    case NoTrigger => s.(pc := Loop(s.pc.rest[1..]))
    case Skip => s.(executed := s.executed + {s.pc.rest[0].ticker}, pc := Loop(s.pc.rest[1..]))
    case WriteAhead => Intended(s)
    case Land => Landed(s)
    case Rejected => Reverted(s)
    case TimedOut =>
      s.(disk := s.mem, executed := s.executed + {s.pc.e.ticker}, pc := Loop(s.pc.rest))
    case Accepted => s.(rows := s.rows + {s.pc.e.ticker}, pc := Logged(s.pc.e, s.pc.rest))
    case Finalize => Finalized(s)
    case ConnectionLost => s.(pc := Idle)
    case EndEntries => s.(pc := Idle)
    case ExitTraded(t) => s.(executed := s.executed + {t})
    case PlannerRewrite(plan) => Rewritten(s, plan)
    case BuyFills(t, n) =>
      s.(working := s.working[t := Get(s.working, t) - n], held := s.held[t := Get(s.held, t) + n])
    case BuyExpires(t, n) => s.(working := s.working[t := Get(s.working, t) - n])
    case SharesSold(t, n) => s.(held := s.held[t := Get(s.held, t) - n])
    case SaveBook => s.(disk := s.mem)
  }

  /** A run: a starting state and the actions taken from it, in order. */
  datatype Run = Start(s: State) | Then(prev: Run, a: Action)

  function End(r: Run): State {
    match r
    case Start(s) => s
    case Then(prev, a) => if Enabled(End(prev), a) then Apply(End(prev), a) else End(prev)
  }

  predicate Valid(r: Run) {
    r.Then? ==> Valid(r.prev) && Enabled(End(r.prev), r.a)
  }

  function Origin(r: Run): State {
    match r
    case Start(s) => s
    case Then(prev, _) => Origin(prev)
  }

  // ------------------------------------------------------- what runs assume

  /** The record about to be placed is the first pending record of its ticker,
      so that the write-ahead mark, which goes by ticker, lands on it. */
  predicate MarksItself(s: State, a: Action) {
    a.WriteAhead? && s.pc.Loop? && s.pc.rest != [] ==>
      var e := s.pc.rest[0];
      var k := FirstMatch(s.mem.approved, e.ticker, {Pending});
      k < |s.mem.approved| && s.mem.approved[k].uid == e.uid
  }

  /** At a restart the broker still shows every order whose record is in doubt. */
  predicate ShowsLanded(s: State, a: Action) {
    a.Boot? ==>
      forall x :: x in s.disk.approved && x.uid in s.landed && x.ticker !in Tickers(s.disk.executedToday)
        ==> Shows(s, x.ticker)
  }

  predicate AllMark(r: Run) {
    r.Then? ==> AllMark(r.prev) && MarksItself(End(r.prev), r.a)
  }

  predicate AllShow(r: Run) {
    r.Then? ==> AllShow(r.prev) && ShowsLanded(End(r.prev), r.a)
  }

  // ------------------------------------------------------- the invariant

  /** Something durable stops ticker `t` from being bought after a restart. */
  ghost predicate Blocked(b: Book, t: Ticker) {
    t in Tickers(b.executedToday) || exists y :: y in b.approved && y.ticker == t && y.status == Executing
  }

  /** A pending record whose order already reached the broker is blocked durably. */
  ghost predicate Guarded(b: Book, landed: seq<nat>) {
    forall x :: x in b.approved && x.status == Pending && x.uid in landed ==> Blocked(b, x.ticker)
  }

  /** ... and, while the daemon is up, its ticker is in the already-traded set. */
  ghost predicate Stripped(b: Book, landed: seq<nat>, executed: set<Ticker>) {
    forall x :: x in b.approved && x.status == Pending && x.uid in landed ==> x.ticker in executed
  }

  ghost predicate GoodBook(b: Book, nextUid: nat) {
    && UniqueUids(b.approved)
    && forall x :: x in b.approved ==> x.uid < nextUid && x.status != Executed
  }

  ghost predicate AtMostOnce(landed: seq<nat>) {
    forall i, j :: 0 <= i < j < |landed| ==> landed[i] != landed[j]
  }

  ghost predicate InDoubt(b: Book, e: Entry) {
    exists y :: y in b.approved && y.uid == e.uid && y.ticker == e.ticker && y.status == Executing
  }

  ghost predicate BeforeUid(es: seq<Entry>, u: nat, v: nat) {
    exists i, j :: 0 <= i < j < |es| && es[i].uid == u && es[j].uid == v
  }

  /** Records still to be visited are pending, unbought, and sit behind any
      already-bought pending record of their ticker. */
  ghost predicate Walkable(b: Book, rest: seq<Entry>, landed: seq<nat>) {
    && UniqueUids(rest)
    && (forall y :: y in rest ==> y in b.approved && y.status == Pending && y.uid !in landed)
    && (forall x, y | x in b.approved && x.status == Pending && x.uid in landed && y in rest && y.ticker == x.ticker
          :: BeforeUid(b.approved, x.uid, y.uid))
  }

  /** The record in flight is marked, no bought record of its ticker is pending,
      and the records of its ticker still to be visited sit behind it. */
  ghost predicate InFlight(b: Book, e: Entry, rest: seq<Entry>, landed: seq<nat>) {
    && InDoubt(b, e)
    && (forall x :: x in b.approved && x.status == Pending && x.uid in landed ==> x.ticker != e.ticker)
    && (forall y :: y in rest ==> y.uid != e.uid && (y.ticker == e.ticker ==> BeforeUid(b.approved, e.uid, y.uid)))
  }

  /** Some record of `t` in doubt stands before every record of `t` in `rest`. */
  ghost predicate Heads(b: Book, t: Ticker, rest: seq<Entry>) {
    exists c :: c in b.approved && c.ticker == t && c.status == Executing
             && forall y :: y in rest && y.ticker == t ==> BeforeUid(b.approved, c.uid, y.uid)
  }

  ghost predicate BookOk(b: Book, landed: seq<nat>, executed: set<Ticker>, nextUid: nat) {
    GoodBook(b, nextUid) && Guarded(b, landed) && Stripped(b, landed, executed)
  }

  ghost predicate Inv(s: State) {
    && AtMostOnce(s.landed)
    && (forall u :: u in s.landed ==> u < s.nextUid)
    && GoodBook(s.disk, s.nextUid) && Guarded(s.disk, s.landed)
    && (!s.pc.Down? ==>
          BookOk(s.mem, s.landed, s.executed, s.nextUid) && Stripped(s.disk, s.landed, s.executed))
    && (s.pc.Ready? ==> forall x :: x in s.mem.approved && x.status == Pending ==> x.uid !in s.landed)
    && (s.pc.Loop? || Busy(s.pc) ==> Walkable(s.mem, s.pc.rest, s.landed))
    && (Busy(s.pc) ==> InFlight(s.mem, s.pc.e, s.pc.rest, s.landed))
    && (Busy(s.pc) ==> forall x :: x in s.disk.approved && x.status == Pending ==> x.uid != s.pc.e.uid)
    && (s.pc.Placing? ==> s.pc.e.uid !in s.landed)
  }

  // ------------------------------------------------------- book lemmas

  lemma RestampMembers(es: seq<Entry>, t: Ticker, from: set<Status>, st: Status)
    ensures var r := Restamp(es, t, from, st); var k := FirstMatch(es, t, from);
      && (forall x :: x in r ==> x in es || (k < |es| && x == es[k].(status := st)))
      && (forall y :: y in es && !(y.ticker == t && y.status in from) ==> y in r)
      && (forall u, v :: BeforeUid(es, u, v) <==> BeforeUid(r, u, v))
  {
    var r := Restamp(es, t, from, st);
    forall y | y in es && !(y.ticker == t && y.status in from)
      ensures y in r
    {
      var i :| 0 <= i < |es| && es[i] == y;
      assert r[i] == y;
    }
    forall u, v ensures BeforeUid(es, u, v) <==> BeforeUid(r, u, v) {
      assert forall i :: 0 <= i < |es| ==> es[i].uid == r[i].uid;
    }
  }

  lemma BeforeShift(h: Entry, es: seq<Entry>, u: nat, v: nat)
    requires BeforeUid(es, u, v) || (h.uid == u && exists x :: x in es && x.uid == v)
    ensures BeforeUid([h] + es, u, v)
  {
    var r := [h] + es;
    if BeforeUid(es, u, v) {
      var i, j :| 0 <= i < j < |es| && es[i].uid == u && es[j].uid == v;
      assert r[i + 1].uid == u && r[j + 1].uid == v;
    } else {
      var j :| 0 <= j < |es| && es[j].uid == v;
      assert r[0].uid == u && r[j + 1].uid == v;
    }
  }

  lemma {:induction false} KeepOrder(es: seq<Entry>, p: Entry -> bool, u: nat, v: nat)
    requires BeforeUid(es, u, v)
    requires forall x :: x in es && (x.uid == u || x.uid == v) ==> p(x)
    ensures BeforeUid(Keep(es, p), u, v)
  {
    var i, j :| 0 <= i < j < |es| && es[i].uid == u && es[j].uid == v;
    var tail := es[1..];
    var y := tail[j - 1];
    assert y in tail && y.uid == v && es[0] in es;
    if i == 0 {
      assert y in Keep(tail, p);
      BeforeShift(es[0], Keep(tail, p), u, v);
    } else {
      assert tail[i - 1].uid == u;
      KeepOrder(tail, p, u, v);
      if p(es[0]) { BeforeShift(es[0], Keep(tail, p), u, v); }
    }
  }

  lemma MarkExecutedMembers(b: Book, t: Ticker)
    requires forall x :: x in b.approved ==> x.status != Executed
    ensures var r := MarkExecuted(b, t); var k := FirstMatch(b.approved, t, {Pending, Executing});
      && (forall x :: x in r.approved ==> x in b.approved)
      && (forall x :: x in b.approved && (k == |b.approved| || x != b.approved[k]) ==> x in r.approved)
      && (forall x :: x in b.executedToday ==> x in r.executedToday)
      && (k < |b.approved| ==> t in Tickers(r.executedToday))
      && (UniqueUids(b.approved) ==> UniqueUids(r.approved))
      && (forall u, v :: BeforeUid(b.approved, u, v) && UniqueUids(b.approved)
            && (k < |b.approved| ==> u != b.approved[k].uid && v != b.approved[k].uid)
            ==> BeforeUid(r.approved, u, v))
  {
    var k := FirstMatch(b.approved, t, {Pending, Executing});
    var stamped := Restamp(b.approved, t, {Pending, Executing}, Executed);
    var p := (e: Entry) => !(e.ticker == t && e.status == Executed);
    var r := MarkExecuted(b, t);
    RestampMembers(b.approved, t, {Pending, Executing}, Executed);
    forall x | x in b.approved && (k == |b.approved| || x != b.approved[k]) ensures x in r.approved {
      var i :| 0 <= i < |b.approved| && b.approved[i] == x;
      assert stamped[i] == x;
    }
    if k < |b.approved| {
      assert r.executedToday[|b.executedToday|] == stamped[k];
      assert stamped[k] in r.executedToday;
    }
    forall u, v | BeforeUid(b.approved, u, v) && UniqueUids(b.approved)
      && (k < |b.approved| ==> u != b.approved[k].uid && v != b.approved[k].uid)
      ensures BeforeUid(r.approved, u, v)
    {
      assert BeforeUid(stamped, u, v);
      KeepOrder(stamped, p, u, v);
    }
  }

  lemma StillBlocked(b: Book, r: Book, t: Ticker)
    requires Blocked(b, t)
    requires forall y :: y in b.approved && y.status == Executing && y.ticker == t ==> y in r.approved
    requires forall y :: y in b.executedToday ==> y in r.executedToday
    ensures Blocked(r, t)
  {
    if t in Tickers(b.executedToday) {
      var y :| y in b.executedToday && y.ticker == t;
      assert y in r.executedToday;
    }
  }

  // ------------------------------------------------------- the hard steps, on books

  lemma MarkIsInFlight(b: Book, e: Entry, rest: seq<Entry>, landed: seq<nat>, executed: set<Ticker>, nextUid: nat)
    requires BookOk(b, landed, executed, nextUid) && Walkable(b, [e] + rest, landed)
    requires var k := FirstMatch(b.approved, e.ticker, {Pending});
             k < |b.approved| && b.approved[k].uid == e.uid
    ensures var r := MarkExecuting(b, e.ticker); InFlight(r, e, rest, landed) && Walkable(r, rest, landed)
  {
    var es, l := b.approved, [e] + rest;
    var k := FirstMatch(es, e.ticker, {Pending});
    var r := MarkExecuting(b, e.ticker);
    RestampMembers(es, e.ticker, {Pending}, Executing);
    assert r.approved[k] in r.approved;
    assert l[0] == e && e in l && l[1..] == rest;
    forall x | x in es && x.status == Pending && x.uid in landed ensures x.ticker != e.ticker {
      assert x.ticker == e.ticker ==> BeforeUid(es, x.uid, e.uid);
    }
    forall y | y in rest
      ensures y in r.approved && y.uid != e.uid && (y.ticker == e.ticker ==> BeforeUid(r.approved, e.uid, y.uid))
    {
      var n :| 0 <= n < |rest| && rest[n] == y;
      assert l[n + 1] == y && y in l;
      BehindTheMark(b, e, y);
    }
  }

  lemma BehindTheMark(b: Book, e: Entry, y: Entry)
    requires y in b.approved && y.status == Pending && y.uid != e.uid
    requires var k := FirstMatch(b.approved, e.ticker, {Pending}); k < |b.approved| && b.approved[k].uid == e.uid
    ensures var r := MarkExecuting(b, e.ticker).approved;
      y in r && (y.ticker == e.ticker ==> BeforeUid(r, e.uid, y.uid))
  {
    var es, r := b.approved, MarkExecuting(b, e.ticker).approved;
    var k := FirstMatch(es, e.ticker, {Pending});
    var i :| 0 <= i < |es| && es[i] == y;
    assert r[i] == y && r[k].uid == e.uid;
  }

  lemma MarkIsOk(b: Book, t: Ticker, landed: seq<nat>, executed: set<Ticker>, nextUid: nat)
    requires BookOk(b, landed, executed, nextUid)
    ensures BookOk(MarkExecuting(b, t), landed, executed, nextUid)
  {
    var r := MarkExecuting(b, t);
    RestampMembers(b.approved, t, {Pending}, Executing);
    forall x | x in r.approved && x.status == Pending && x.uid in landed ensures Blocked(r, x.ticker) {
      StillBlocked(b, r, x.ticker);
    }
  }

  lemma RevertIsOk(b: Book, e: Entry, rest: seq<Entry>, landed: seq<nat>, executed: set<Ticker>, nextUid: nat)
    requires BookOk(b, landed, executed, nextUid) && InFlight(b, e, rest, landed) && e.uid !in landed
    ensures BookOk(RevertToPending(b, e.ticker), landed, executed + {e.ticker}, nextUid)
  {
    var t, es := e.ticker, b.approved;
    var r := RevertToPending(b, t);
    var k := FirstMatch(es, t, {Executing});
    RestampMembers(es, t, {Executing}, Pending);
    var i :| 0 <= i < |es| && es[i].uid == e.uid && es[i].ticker == t && es[i].status == Executing;
    forall x | x in r.approved && x.status == Pending && x.uid in landed ensures Blocked(r, x.ticker) {
      if x.ticker == t {
        assert k != i;
        assert r.approved[i] == es[i] && r.approved[i] in r.approved;
      } else {
        StillBlocked(b, r, x.ticker);
      }
    }
  }

  lemma InFlightHeads(b: Book, e: Entry, rest: seq<Entry>, landed: seq<nat>)
    requires InFlight(b, e, rest, landed)
    ensures Heads(b, e.ticker, rest)
  {}

  lemma RevertIsWalkable(b: Book, t: Ticker, rest: seq<Entry>, landed: seq<nat>)
    requires UniqueUids(b.approved)
    requires Heads(b, t, rest) && Walkable(b, rest, landed)
    ensures Walkable(RevertToPending(b, t), rest, landed)
  {
    var es := b.approved;
    var r := RevertToPending(b, t);
    RestampMembers(es, t, {Executing}, Pending);
    forall x, y | x in r.approved && x.status == Pending && x.uid in landed && y in rest && y.ticker == x.ticker
      ensures BeforeUid(r.approved, x.uid, y.uid)
    {
      if x in es {
        assert BeforeUid(es, x.uid, y.uid);
      } else {
        RevertedIsAhead(b, t, rest, x, y);
      }
    }
  }

  lemma HeadAt(b: Book, t: Ticker, rest: seq<Entry>) returns (i: nat)
    requires Heads(b, t, rest)
    ensures i < |b.approved| && b.approved[i].ticker == t && b.approved[i].status == Executing
    ensures forall y :: y in rest && y.ticker == t ==> BeforeUid(b.approved, b.approved[i].uid, y.uid)
  {
    var c :| c in b.approved && c.ticker == t && c.status == Executing
             && forall y :: y in rest && y.ticker == t ==> BeforeUid(b.approved, c.uid, y.uid);
    i :| 0 <= i < |b.approved| && b.approved[i] == c;
  }

  lemma Earlier(es: seq<Entry>, i: nat, v: nat) returns (m: nat)
    requires UniqueUids(es) && i < |es| && BeforeUid(es, es[i].uid, v)
    ensures i < m < |es| && es[m].uid == v
  {
    var a;
    a, m :| 0 <= a < m < |es| && es[a].uid == es[i].uid && es[m].uid == v;
  }

  /** The record a rollback returns stands no later than the one that heads the rest. */
  lemma RevertedIsAhead(b: Book, t: Ticker, rest: seq<Entry>, x: Entry, y: Entry)
    requires UniqueUids(b.approved) && Heads(b, t, rest)
    requires x in RevertToPending(b, t).approved && x !in b.approved && y in rest && y.ticker == x.ticker
    ensures BeforeUid(RevertToPending(b, t).approved, x.uid, y.uid)
  {
    var es := b.approved;
    var r := RevertToPending(b, t).approved;
    var k := FirstMatch(es, t, {Executing});
    RestampMembers(es, t, {Executing}, Pending);
    assert k < |es| && x == r[k] && x.ticker == t;
    var i := HeadAt(b, t, rest);
    var m := Earlier(es, i, y.uid);
    assert r[k].uid == x.uid && r[m].uid == y.uid && k <= i;
  }

  lemma FinalIsOk(b: Book, e: Entry, rest: seq<Entry>, landed: seq<nat>, executed: set<Ticker>, nextUid: nat)
    requires BookOk(b, landed, executed, nextUid)
    ensures BookOk(MarkExecuted(b, e.ticker), landed, executed + {e.ticker}, nextUid)
  {
    var r := MarkExecuted(b, e.ticker);
    MarkExecutedMembers(b, e.ticker);
    forall x | x in r.approved && x.status == Pending && x.uid in landed ensures Blocked(r, x.ticker) {
      if x.ticker == e.ticker {
        assert x in b.approved;
      } else {
        assert Blocked(b, x.ticker);
        StillBlocked(b, r, x.ticker);
      }
    }
  }

  lemma MarkIsNotOn(b: Book, t: Ticker, rest: seq<Entry>, y: Entry)
    requires UniqueUids(b.approved)
    requires Heads(b, t, rest) && y in rest && y in b.approved
    ensures var k := FirstMatch(b.approved, t, {Pending, Executing});
            k < |b.approved| && b.approved[k].uid != y.uid
  {
    var es := b.approved;
    var k := FirstMatch(es, t, {Pending, Executing});
    var i := HeadAt(b, t, rest);
    hide Heads;
    assert k <= i;
    if y.ticker == t {
      var m := Earlier(es, i, y.uid);
    } else {
      var m :| 0 <= m < |es| && es[m] == y;
    }
  }

  lemma FinalKeepsUnvisited(b: Book, t: Ticker, rest: seq<Entry>, y: Entry)
    requires UniqueUids(b.approved) && forall x :: x in b.approved ==> x.status != Executed
    requires Heads(b, t, rest) && y in rest && y in b.approved
    ensures y in MarkExecuted(b, t).approved
    ensures var k := FirstMatch(b.approved, t, {Pending, Executing});
            k < |b.approved| && b.approved[k].uid != y.uid
  {
    MarkIsNotOn(b, t, rest, y);
    hide Heads;
    MarkExecutedMembers(b, t);
  }

  /** The record finalized is gone from the approved list. */
  lemma TakenOut(b: Book, t: Ticker, x: Entry)
    requires UniqueUids(b.approved) && x in MarkExecuted(b, t).approved
    ensures var k := FirstMatch(b.approved, t, {Pending, Executing}); k < |b.approved| ==> x.uid != b.approved[k].uid
  {
    var k := FirstMatch(b.approved, t, {Pending, Executing});
    var stamped := Restamp(b.approved, t, {Pending, Executing}, Executed);
    var j :| 0 <= j < |stamped| && stamped[j] == x;
    assert k < |b.approved| ==> j != k;
  }

  lemma FinalKeepsOrder(b: Book, t: Ticker, x: Entry, v: nat)
    requires UniqueUids(b.approved) && forall z :: z in b.approved ==> z.status != Executed
    requires x in MarkExecuted(b, t).approved && BeforeUid(b.approved, x.uid, v)
    requires var k := FirstMatch(b.approved, t, {Pending, Executing}); k < |b.approved| && b.approved[k].uid != v
    ensures BeforeUid(MarkExecuted(b, t).approved, x.uid, v)
  {
    MarkExecutedMembers(b, t);
    TakenOut(b, t, x);
    hide MarkExecuted;
  }

  lemma FinalIsWalkable(b: Book, t: Ticker, rest: seq<Entry>, landed: seq<nat>)
    requires UniqueUids(b.approved) && forall x :: x in b.approved ==> x.status != Executed
    requires Heads(b, t, rest) && Walkable(b, rest, landed)
    ensures Walkable(MarkExecuted(b, t), rest, landed)
  {
    var r := MarkExecuted(b, t);
    MarkExecutedMembers(b, t);
    forall y | y in rest ensures y in r.approved {
      FinalKeepsUnvisited(b, t, rest, y);
    }
    forall x, y | x in r.approved && x.status == Pending && x.uid in landed && y in rest && y.ticker == x.ticker
      ensures BeforeUid(r.approved, x.uid, y.uid)
    {
      FinalKeepsUnvisited(b, t, rest, y);
      FinalKeepsOrder(b, t, x, y.uid);
    }
  }

  // ------------------------------------------------------- every step keeps Inv

  lemma WriteAheadKeeps(s: State)
    requires Inv(s) && s.pc.Loop? && s.pc.rest != [] && MarksItself(s, WriteAhead)
    ensures Inv(Intended(s))
  {
    var e, rest := s.pc.rest[0], s.pc.rest[1..];
    assert s.pc.rest == [e] + rest;
    assert e in s.pc.rest;
    MarkIsInFlight(s.mem, e, rest, s.landed, s.executed, s.nextUid);
    MarkIsOk(s.mem, e.ticker, s.landed, s.executed, s.nextUid);
  }

  lemma RejectedKeeps(s: State)
    requires Inv(s) && s.pc.Placing?
    ensures Inv(Reverted(s))
  {
    RevertIsOk(s.mem, s.pc.e, s.pc.rest, s.landed, s.executed, s.nextUid);
    InFlightHeads(s.mem, s.pc.e, s.pc.rest, s.landed);
    RevertIsWalkable(s.mem, s.pc.e.ticker, s.pc.rest, s.landed);
  }

  lemma FinalizeKeeps(s: State)
    requires Inv(s) && s.pc.Logged?
    ensures Inv(Finalized(s))
  {
    FinalIsOk(s.mem, s.pc.e, s.pc.rest, s.landed, s.executed, s.nextUid);
    InFlightHeads(s.mem, s.pc.e, s.pc.rest, s.landed);
    FinalIsWalkable(s.mem, s.pc.e.ticker, s.pc.rest, s.landed);
  }

  lemma TickKeeps(s: State)
    requires Inv(s) && s.pc.Idle?
    ensures Inv(Reloaded(s))
  {
    var r := MergeExecuted(s.disk, s.executed);
    forall x | x in r.approved && x.status == Pending ensures x.uid !in s.landed {
      assert x in s.disk.approved;
    }
  }

  lemma RedeployKeeps(s: State, id: string, t: Ticker, shares: int)
    requires Inv(s) && s.pc.Ready?
    ensures Inv(Redeployed(s, id, t, shares))
  {
    var e := Entry(s.nextUid, id, t, shares, Pending);
    var r := AddEntry(s.mem, e);
    assert forall x :: x in r.approved ==> x in s.mem.approved || x == e;
    assert UniqueUids(r.approved) by {
      forall i, j | 0 <= i < j < |r.approved| ensures r.approved[i].uid != r.approved[j].uid {
        assert i < |s.mem.approved| && r.approved[i] == s.mem.approved[i];
        assert r.approved[i] in s.mem.approved;
      }
    }
  }

  lemma LandKeeps(s: State)
    requires Inv(s) && s.pc.Placing? && s.pc.e.shares > 0
    ensures Inv(Landed(s))
  {
    var e := s.pc.e;
    var s' := Landed(s);
    assert forall u :: u in s'.landed <==> u in s.landed || u == e.uid;
    var y :| y in s.mem.approved && y.uid == e.uid && y.ticker == e.ticker && y.status == Executing;
    assert forall x :: x in s.mem.approved && x.status == Pending ==> x.uid != e.uid;
  }

  lemma PlannerRewriteKeeps(s: State, plan: seq<Entry>)
    requires Inv(s) && FreshPlan(plan, s.nextUid)
    ensures Inv(Rewritten(s, plan))
  {
    forall x | x in plan ensures s.nextUid <= x.uid < s.nextUid + |plan| && x.status == Pending {
      var i :| 0 <= i < |plan| && plan[i] == x;
    }
  }

  // ---- restart

  /** No record of `t` differs between the two books. */
  ghost predicate SameFor(b: Book, r: Book, t: Ticker) {
    forall x: Entry | x.ticker == t :: x in b.approved <==> x in r.approved
  }

  /** What reconciliation owes a ticker the broker still shows: it is finalized,
      or its records were left exactly as they were. */
  ghost predicate Settled(b: Book, r: Book, s: State) {
    forall t :: Shows(s, t) ==> t in Tickers(r.executedToday) || SameFor(b, r, t)
  }

  /** The same record, whatever its status. */
  predicate SameRecord(x: Entry, y: Entry) { x == y.(status := x.status) }

  /** `r` holds records of `b` only, and forgets no execution. */
  ghost predicate ComesFrom(b: Book, r: Book) {
    && (forall x :: x in r.approved ==> exists y :: y in b.approved && SameRecord(x, y))
    && (forall x :: x in b.executedToday ==> x in r.executedToday)
  }

  lemma RestampComesFrom(b: Book, t: Ticker, from: set<Status>, st: Status)
    ensures ComesFrom(b, b.(approved := Restamp(b.approved, t, from, st)))
  {
    RestampMembers(b.approved, t, from, st);
    var k := FirstMatch(b.approved, t, from);
    forall x | x in Restamp(b.approved, t, from, st) ensures exists y :: y in b.approved && SameRecord(x, y) {
      if x in b.approved { assert SameRecord(x, x); } else { assert SameRecord(x, b.approved[k]); }
    }
  }

  lemma SubsetComesFrom(b: Book, r: Book)
    requires (forall x :: x in r.approved ==> x in b.approved) && forall x :: x in b.executedToday ==> x in r.executedToday
    ensures ComesFrom(b, r)
  {
    forall x | x in r.approved ensures exists y :: y in b.approved && SameRecord(x, y) { assert SameRecord(x, x); }
  }

  lemma ComesFromThrough(a: Book, b: Book, c: Book)
    requires ComesFrom(a, b) && ComesFrom(b, c)
    ensures ComesFrom(a, c)
  {
    forall x | x in c.approved ensures exists z :: z in a.approved && SameRecord(x, z) {
      var y :| y in b.approved && SameRecord(x, y);
      var z :| z in a.approved && SameRecord(y, z);
      assert SameRecord(x, z);
    }
  }

  lemma ResolvedComesFrom(b: Book, t: Ticker, s: State)
    requires forall x :: x in b.approved ==> x.status != Executed
    ensures ComesFrom(b, Resolved(b, t, s))
  {
    MarkExecutedMembers(b, t);
    SubsetComesFrom(b, MarkExecuted(b, t));
    RestampComesFrom(b, t, {Executing}, Pending);
  }

  lemma FinalSettles(orig: Book, b: Book, e: Entry, s: State, nextUid: nat)
    requires GoodBook(b, nextUid) && Settled(orig, b, s) && Shows(s, e.ticker)
    requires e in orig.approved && e.status == Executing
    ensures Settled(orig, MarkExecuted(b, e.ticker), s)
  {
    var r, t := MarkExecuted(b, e.ticker), e.ticker;
    MarkExecutedMembers(b, t);
    forall u | Shows(s, u) ensures u in Tickers(r.executedToday) || SameFor(orig, r, u) {
      if u in Tickers(b.executedToday) {
        StillBlockedByExecution(b, r, u);
      } else if u == t {
        assert e in b.approved;
      }
    }
  }

  lemma RevertSettles(orig: Book, b: Book, t: Ticker, s: State)
    requires Settled(orig, b, s) && !Shows(s, t)
    ensures Settled(orig, RevertToPending(b, t), s)
  {
    RestampMembers(b.approved, t, {Executing}, Pending);
  }

  lemma ResolvedIsGood(b: Book, t: Ticker, s: State, nextUid: nat)
    requires GoodBook(b, nextUid)
    ensures GoodBook(Resolved(b, t, s), nextUid)
  {
    MarkExecutedMembers(b, t);
    RestampMembers(b.approved, t, {Executing}, Pending);
  }

  lemma ReconcileStep(orig: Book, b: Book, e: Entry, s: State, nextUid: nat)
    requires GoodBook(b, nextUid) && Settled(orig, b, s) && ComesFrom(orig, b)
    requires e in orig.approved && e.status == Executing
    ensures var r := Resolved(b, e.ticker, s);
      GoodBook(r, nextUid) && Settled(orig, r, s) && ComesFrom(orig, r)
  {
    hide ComesFrom, Settled;
    ResolvedIsGood(b, e.ticker, s, nextUid);
    ResolvedComesFrom(b, e.ticker, s);
    ComesFromThrough(orig, b, Resolved(b, e.ticker, s));
    if Shows(s, e.ticker) { FinalSettles(orig, b, e, s, nextUid); } else { RevertSettles(orig, b, e.ticker, s); }
  }

  lemma {:induction false} ReconcileSettles(orig: Book, b: Book, todo: seq<Entry>, unreadable: set<nat>, s: State, nextUid: nat)
    requires GoodBook(b, nextUid) && Settled(orig, b, s) && ComesFrom(orig, b)
    requires forall e :: e in todo ==> e in orig.approved && e.status == Executing
    ensures var r := Reconcile(b, todo, unreadable, s);
      GoodBook(r, nextUid) && Settled(orig, r, s) && ComesFrom(orig, r)
    decreases |todo|
  {
    if todo != [] {
      var e := todo[0];
      ReconcileStep(orig, b, e, s, nextUid);
      var b' := if e.uid in unreadable then b else Resolved(b, e.ticker, s);
      ReconcileSettles(orig, b', todo[1..], unreadable, s, nextUid);
    }
  }

  lemma SameForKeepsBlocked(b: Book, r: Book, x: Entry, landed: seq<nat>)
    requires x in r.approved && x.status == Pending && x.uid in landed
    requires SameFor(b, r, x.ticker) && Guarded(b, landed) && x.ticker !in Tickers(b.executedToday)
    ensures Blocked(r, x.ticker)
  {
    assert x in b.approved;
    var z :| z in b.approved && z.ticker == x.ticker && z.status == Executing;
    assert z in r.approved;
  }

  lemma ReconciledIsBlocked(b: Book, r: Book, s: State, x: Entry, y: Entry)
    requires Settled(b, r, s) && Guarded(b, s.landed)
    requires forall z :: z in b.executedToday ==> z in r.executedToday
    requires x in r.approved && x.status == Pending && x.uid in s.landed
    requires y in b.approved && y.uid == x.uid && y.ticker == x.ticker
    requires x.ticker !in Tickers(b.executedToday) ==> Shows(s, x.ticker)
    ensures Blocked(r, x.ticker)
  {
    if x.ticker in Tickers(b.executedToday) {
      StillBlockedByExecution(b, r, x.ticker);
    } else if x.ticker !in Tickers(r.executedToday) {
      SameForKeepsBlocked(b, r, x, s.landed);
    }
  }

  lemma ReconciledIsGuarded(b: Book, r: Book, s: State)
    requires Settled(b, r, s) && ComesFrom(b, r) && Guarded(b, s.landed)
    requires forall x :: x in b.approved && x.uid in s.landed && x.ticker !in Tickers(b.executedToday)
               ==> Shows(s, x.ticker)
    ensures Guarded(r, s.landed)
  {
    forall x | x in r.approved && x.status == Pending && x.uid in s.landed ensures Blocked(r, x.ticker) {
      var y :| y in b.approved && SameRecord(x, y);
      ReconciledIsBlocked(b, r, s, x, y);
    }
  }

  lemma StillBlockedByExecution(b: Book, r: Book, t: Ticker)
    requires t in Tickers(b.executedToday) && forall x :: x in b.executedToday ==> x in r.executedToday
    ensures t in Tickers(r.executedToday)
  {
    var z :| z in b.executedToday && z.ticker == t;
    assert z in r.executedToday;
  }

  lemma BlockedIsSeeded(r: Book, rows: set<Ticker>, rowsReadable: bool, t: Ticker)
    requires Blocked(r, t)
    ensures t in Seed(r, rows, rowsReadable)
  {
    if t !in Tickers(r.executedToday) {
      var y :| y in r.approved && y.ticker == t && y.status == Executing;
      assert y in ExecutingEntries(r);
    }
  }

  lemma BootKeeps(s: State, unreadable: set<nat>, rowsReadable: bool)
    requires Inv(s) && s.pc.Down? && ShowsLanded(s, Boot(unreadable, rowsReadable))
    ensures Inv(Booted(s, unreadable, rowsReadable))
  {
    BootedBook(s, unreadable, rowsReadable);
    hide Reconcile, Seed, Guarded, Stripped, GoodBook, Walkable, InFlight;
  }

  /** What reconciliation and seeding leave satisfies the invariant's book clauses. */
  lemma BootedBook(s: State, unreadable: set<nat>, rowsReadable: bool)
    requires GoodBook(s.disk, s.nextUid) && Guarded(s.disk, s.landed) && s.pc.Down?
    requires ShowsLanded(s, Boot(unreadable, rowsReadable))
    ensures var r := Reconcile(s.disk, ExecutingEntries(s.disk), unreadable, s);
      GoodBook(r, s.nextUid) && Guarded(r, s.landed) && Stripped(r, s.landed, Seed(r, s.rows, rowsReadable))
  {
    var todo := ExecutingEntries(s.disk);
    var r := Reconcile(s.disk, todo, unreadable, s);
    ReconcileSettles(s.disk, s.disk, todo, unreadable, s, s.nextUid);
    ReconciledIsGuarded(s.disk, r, s);
    forall x | x in r.approved && x.status == Pending && x.uid in s.landed
      ensures x.ticker in Seed(r, s.rows, rowsReadable)
    {
      BlockedIsSeeded(r, s.rows, rowsReadable, x.ticker);
    }
  }

  lemma StepKeeps(s: State, a: Action)
    requires Inv(s) && Enabled(s, a) && MarksItself(s, a) && ShowsLanded(s, a)
    ensures Inv(Apply(s, a))
  {
    hide Inv, Booted, Reloaded, Redeployed, Intended, Landed, Reverted, Finalized, Rewritten;
    match a
    case Boot(unreadable, rowsReadable) => BootKeeps(s, unreadable, rowsReadable);
    case Tick => TickKeeps(s);
    case Redeploy(id, t, shares) => RedeployKeeps(s, id, t, shares);
    case WriteAhead => WriteAheadKeeps(s);
    case Land => LandKeeps(s);
    case Rejected => RejectedKeeps(s);
    case Finalize => FinalizeKeeps(s);
    case PlannerRewrite(plan) => PlannerRewriteKeeps(s, plan);
    case BeginEntries => WalkKeeps(s, a);
    case NoTrigger => WalkKeeps(s, a);
    case Skip => WalkKeeps(s, a);
    case BuyFills(_, _) => MarketKeeps(s, a);
    case BuyExpires(_, _) => MarketKeeps(s, a);
    case SharesSold(_, _) => MarketKeeps(s, a);
    case _ => QuietKeeps(s, a);
  }

  /** Starting the walk, and passing over its head. */
  lemma WalkKeeps(s: State, a: Action)
    requires Inv(s) && Enabled(s, a) && (a.BeginEntries? || a.NoTrigger? || a.Skip?)
    ensures Inv(Apply(s, a))
  {
    if a.BeginEntries? {
      assert forall y :: y in PendingEntries(s.mem) ==> y in s.mem.approved && y.status == Pending;
    } else {
      assert forall y :: y in s.pc.rest[1..] ==> y in s.pc.rest;
    }
  }

  /** Broker events touch no book. */
  lemma MarketKeeps(s: State, a: Action)
    requires Inv(s) && Enabled(s, a) && (a.BuyFills? || a.BuyExpires? || a.SharesSold?)
    ensures Inv(Apply(s, a))
  {
    hide AtMostOnce, GoodBook, Guarded, Stripped, BookOk, Walkable, InFlight;
  }

  /** Daemon steps that leave the books and the walk alone. */
  lemma QuietKeeps(s: State, a: Action)
    requires Inv(s) && Enabled(s, a)
    requires a.Crash? || a.TimedOut? || a.Accepted? || a.ConnectionLost? || a.EndEntries? || a.ExitTraded? || a.SaveBook?
    ensures Inv(Apply(s, a))
  {
    hide AtMostOnce, GoodBook, Walkable;
  }

  // ------------------------------------------------------- main results

  /** A session before its first boot: nothing bought, a fresh plan on disk. */
  ghost predicate Init(s: State) {
    && s.pc.Down? && s.landed == [] && s.bought == [] && s.executed == {} && s.rows == {}
    && GoodBook(s.disk, s.nextUid)
  }

  lemma {:induction false} InvAlongRun(r: Run)
    requires Inv(Origin(r)) && Valid(r) && AllMark(r) && AllShow(r)
    ensures Inv(End(r))
  {
    if r.Then? {
      InvAlongRun(r.prev);
      StepKeeps(End(r.prev), r.a);
    }
  }

  /** Over every run of polls, crashes, restarts, planner rewrites and broker
      events, no order-book record is bought twice. */
  lemma NoRecordBoughtTwice(r: Run)
    requires Init(Origin(r)) && Valid(r) && AllMark(r) && AllShow(r)
    ensures AtMostOnce(End(r).landed)
  {
    InvAlongRun(r);
  }

  /** When no two in-memory records share a ticker, the write-ahead mark always
      lands on the record being placed. */
  lemma OneRecordPerTickerMarksItself(s: State)
    requires Inv(s) && Enabled(s, WriteAhead)
    requires forall x, y :: x in s.mem.approved && y in s.mem.approved && x.ticker == y.ticker ==> x == y
    ensures MarksItself(s, WriteAhead)
  {
    var e := s.pc.rest[0];
    assert e in s.pc.rest && e in s.mem.approved;
    var k := FirstMatch(s.mem.approved, e.ticker, {Pending});
    assert k < |s.mem.approved| && s.mem.approved[k] in s.mem.approved;
  }

  // ------------------------------------------------------- exactly when a record is offered again

  ghost predicate PendingUid(b: Book, u: nat) {
    exists y :: y in b.approved && y.uid == u && y.status == Pending
  }

  /** The head of the walk is placed and lands, the connection drops, and the
      next poll reloads. */
  function DroppedPlacement(s: State): State
    requires Enabled(s, WriteAhead)
  {
    Apply(Apply(Apply(Apply(s, WriteAhead), Land), ConnectionLost), Tick)
  }

  lemma DroppedPlacementBook(s: State)
    requires Enabled(s, WriteAhead)
    ensures DroppedPlacement(s).mem == MergeExecuted(MarkExecuting(s.mem, s.pc.rest[0].ticker), s.executed)
  {}

  /** After a dropped placement the bought record is offered again on the next
      poll exactly when the write-ahead mark was not on it. */
  lemma OfferedAgainExactly(s: State)
    requires Inv(s) && Enabled(s, WriteAhead) && s.pc.rest[0].ticker !in s.executed
    ensures PendingUid(DroppedPlacement(s).mem, s.pc.rest[0].uid) <==> !MarksItself(s, WriteAhead)
  {
    DroppedPlacementBook(s);
    var e, es := s.pc.rest[0], s.mem.approved;
    assert e in s.pc.rest;
    MarkLeavesPendingExactly(s.mem, e, s.executed);
  }

  lemma MarkLeavesPendingExactly(b: Book, e: Entry, executed: set<Ticker>)
    requires UniqueUids(b.approved) && e in b.approved && e.status == Pending && e.ticker !in executed
    ensures var k := FirstMatch(b.approved, e.ticker, {Pending});
      PendingUid(MergeExecuted(MarkExecuting(b, e.ticker), executed), e.uid)
      <==> !(k < |b.approved| && b.approved[k].uid == e.uid)
  {
    var es := b.approved;
    var k := FirstMatch(es, e.ticker, {Pending});
    var r := MarkExecuting(b, e.ticker);
    var i :| 0 <= i < |es| && es[i] == e;
    assert k <= i;
    if es[k].uid == e.uid {
      assert k == i;
      forall j | 0 <= j < |r.approved| && r.approved[j].uid == e.uid ensures r.approved[j].status != Pending {
        assert j == k;
      }
    } else {
      assert r.approved[i] == e;
      assert e in MergeExecuted(r, executed).approved;
    }
  }

  lemma OthersStayUnexecuted(b: Book, u: Ticker, t: Ticker)
    requires u != t
    ensures t in Tickers(MarkExecuted(b, u).executedToday) <==> t in Tickers(b.executedToday)
  {
    var r := MarkExecuted(b, u);
    assert forall x :: x in b.executedToday ==> x in r.executedToday;
    if t in Tickers(r.executedToday) {
      var x :| x in r.executedToday && x.ticker == t;
      assert x in b.executedToday;
    }
  }

  lemma OtherTickersStay(b: Book, u: Ticker, t: Ticker)
    requires u != t && forall x :: x in b.approved ==> x.status != Executed
    ensures SameFor(b, MarkExecuted(b, u), t) && SameFor(b, RevertToPending(b, u), t)
  {
    MarkExecutedMembers(b, u);
    RestampMembers(b.approved, u, {Executing}, Pending);
  }

  // ------------------------------------------------------- both hypotheses are needed

  /** Which hypotheses a run under construction keeps. */
  datatype Mode = Mode(marks: bool, shows: bool)

  ghost predicate Trail(r: Run, o: State, m: Mode, s: State) {
    Valid(r) && Origin(r) == o && End(r) == s && (m.marks ==> AllMark(r)) && (m.shows ==> AllShow(r))
  }

  /** Some run leads from `o` to `s`. */
  ghost predicate Reaches(o: State, m: Mode, s: State) { exists r :: Trail(r, o, m, s) }

  lemma Begin(o: State, m: Mode)
    ensures Reaches(o, m, o)
  {
    assert Trail(Start(o), o, m, o);
  }

  /** One more action. */
  lemma Step(o: State, m: Mode, s: State, a: Action) returns (s': State)
    requires Reaches(o, m, s) && Enabled(s, a)
    requires (m.marks ==> MarksItself(s, a)) && (m.shows ==> ShowsLanded(s, a))
    ensures Reaches(o, m, s') && s' == Apply(s, a)
  {
    var r :| Trail(r, o, m, s);
    s' := Apply(s, a);
    assert Trail(Then(r, a), o, m, s');
  }

  /** The run behind a reached state. */
  lemma Witness(o: State, m: Mode, s: State) returns (r: Run)
    requires Reaches(o, m, s)
    ensures Valid(r) && Origin(r) == o && End(r) == s && (m.marks ==> AllMark(r)) && (m.shows ==> AllShow(r))
  {
    r :| Trail(r, o, m, s);
  }

  lemma KeepOne(x: Entry, p: Entry -> bool)
    ensures Keep([x], p) == if p(x) then [x] else []
  {
    assert [x][1..] == [];
  }

  lemma KeepTwo(x: Entry, y: Entry, p: Entry -> bool)
    ensures Keep([x, y], p) == (if p(x) then [x] else []) + (if p(y) then [y] else [])
  {
    assert [x, y][1..] == [y];
    KeepOne(y, p);
  }

  /** A session before its first boot, with this book on disk. */
  function Fresh(book: seq<Entry>): State {
    State(Book(book, []), {}, Book([], []), {}, Down, map[], map[], [], [], |book|)
  }

  /** A poll over a two-record book with nothing traded yet. */
  lemma PollTwo(o: State, m: Mode, s: State, a: Entry, b: Entry) returns (s': State)
    requires Reaches(o, m, s) && s.pc.Idle? && s.disk.approved == [a, b] && s.executed == {} && b.status == Pending
    ensures Reaches(o, m, s')
    ensures s' == s.(mem := s.disk, pc := Loop(if a.status == Pending then [a, b] else [b]))
  {
    hide Reaches;
    KeepTwo(a, b, (e: Entry) => e.ticker !in s.executed);
    KeepTwo(a, b, (e: Entry) => e.status == Pending);
    assert MergeExecuted(s.disk, s.executed) == s.disk;
    s' := Step(o, m, s, Tick);
    s' := Step(o, m, s', BeginEntries);
  }

  /** The lone head of the loop is placed; the mark goes to the first pending
      record of its ticker, whichever that is. */
  lemma PlaceAndLand(o: State, m: Mode, s: State, e: Entry, marked: seq<Entry>) returns (s': State)
    requires Reaches(o, m, s) && s.pc == Loop([e]) && e.shares > 0 && Get(s.working, e.ticker) == 0
    requires marked == Restamp(s.mem.approved, e.ticker, {Pending}, Executing) && (m.marks ==> MarksItself(s, WriteAhead))
    ensures Reaches(o, m, s')
    ensures s' == s.(mem := s.mem.(approved := marked), disk := s.mem.(approved := marked), pc := AtBroker(e, []),
                     landed := s.landed + [e.uid], bought := s.bought + [e.id], working := s.working[e.ticker := e.shares])
  {
    hide Reaches, Restamp, MarksItself;
    s' := Step(o, m, s, WriteAhead);
    assert s'.pc == Placing(e, []);
    s' := Step(o, m, s', Land);
  }

  /** The connection drops with an order at the broker, which then fills. */
  lemma DropAndFill(o: State, m: Mode, s: State, t: Ticker, n: nat) returns (s': State)
    requires Reaches(o, m, s) && s.pc.AtBroker? && Get(s.working, t) == n
    ensures Reaches(o, m, s')
    ensures s' == s.(pc := Idle, working := s.working[t := 0], held := s.held[t := Get(s.held, t) + n])
  {
    hide Reaches;
    s' := Step(o, m, s, ConnectionLost);
    s' := Step(o, m, s', BuyFills(t, n));
  }

  lemma BootPending(o: State, m: Mode, s: State) returns (s': State)
    requires Reaches(o, m, s) && s.pc.Down? && s.disk.executedToday == [] && s.rows == {}
    requires ExecutingEntries(s.disk) == [] && (m.shows ==> ShowsLanded(s, Boot({}, true)))
    ensures Reaches(o, m, s') && s' == s.(mem := s.disk, executed := {}, pc := Idle)
  {
    hide Reaches;
    s' := Step(o, m, s, Boot({}, true));
  }

  lemma FreshIsInit(book: seq<Entry>)
    requires UniqueUids(book) && forall x :: x in book ==> x.uid < |book| && x.status != Executed
    ensures Init(Fresh(book))
  {}

  /** A reached state in which the first two orders were of one record. */
  lemma BoughtTwice(o: State, m: Mode, s: State) returns (r: Run)
    requires Reaches(o, m, s) && |s.landed| == 2 && s.landed[0] == s.landed[1]
    ensures Valid(r) && Origin(r) == o && !AtMostOnce(End(r).landed)
    ensures (m.marks ==> AllMark(r)) && (m.shows ==> AllShow(r))
  {
    r := Witness(o, m, s);
  }

  /** Two records of one ticker, the second triggers first, and the connection
      drops while its order is being placed: the mark sits on the first record,
      so the second is still pending on the next poll and is bought again. */
  lemma MarkOnTheWrongRecordBuysTwice() returns (r: Run)
    ensures Valid(r) && Init(Origin(r)) && AllShow(r) && !AtMostOnce(End(r).landed)
  {
    var a := Entry(0, "AMD:legacy", "AMD", 10, Pending);
    var b := Entry(1, "AMD:optimizer", "AMD", 5, Pending);
    var o, m := Fresh([a, b]), Mode(false, true);
    FreshIsInit([a, b]);
    var s := SecondLandsUnderTheFirst(o, m, a, b);
    s := SecondLandsAgain(o, m, s, a, b);
    hide Reaches, Init, Fresh, Valid, Origin, End, AllMark, AllShow;
    r := BoughtTwice(o, m, s);
  }

  lemma SecondLandsAgain(o: State, m: Mode, s: State, a: Entry, b: Entry) returns (s': State)
    requires Reaches(o, m, s) && !m.marks && s.pc.Idle? && s.disk == Book([a.(status := Executing), b], []) && s.executed == {}
    requires b.status == Pending && b.shares > 0 && Get(s.working, b.ticker) == 0
    ensures Reaches(o, m, s') && s'.landed == s.landed + [b.uid]
  {
    hide Reaches;
    s' := PollTwo(o, m, s, a.(status := Executing), b);
    assert FirstMatch([b], b.ticker, {Pending}) == 0;
    assert [a.(status := Executing), b][1..] == [b];
    s' := PlaceAndLand(o, m, s', b, [a.(status := Executing), b.(status := Executing)]);
  }

  lemma SecondLandsUnderTheFirst(o: State, m: Mode, a: Entry, b: Entry) returns (s: State)
    requires o == Fresh([a, b]) && m == Mode(false, true) && a.uid == 0 && b.uid == 1
    requires a.ticker == b.ticker && a.status == b.status == Pending && b.shares > 0
    ensures Reaches(o, m, s) && s.pc.Idle? && s.disk == Book([a.(status := Executing), b], []) && s.executed == {}
    ensures s.landed == [b.uid] && Get(s.working, b.ticker) == 0
  {
    Begin(o, m);
    KeepTwo(a, b, (e: Entry) => e.status == Executing);
    hide Reaches;
    s := BootPending(o, m, o);
    s := PollTwo(o, m, s, a, b);
    s := Step(o, m, s, NoTrigger);
    assert s.pc == Loop([b]);
    s := PlaceAndLand(o, m, s, b, [a.(status := Executing), b]);
    s := DropAndFill(o, m, s, b.ticker, b.shares as nat);
  }

  /** A loaded single pending record is walked to. */
  lemma SingleRecordWalk(o: State, m: Mode, s: State, a: Entry) returns (s': State)
    requires Reaches(o, m, s) && s.pc.Idle? && s.disk.approved == [a] && s.executed == {} && a.status == Pending
    ensures Reaches(o, m, s') && s' == s.(mem := s.disk, pc := Loop([a]))
  {
    hide Reaches;
    KeepOne(a, (e: Entry) => e.ticker !in s.executed);
    KeepOne(a, (e: Entry) => e.status == Pending);
    assert MergeExecuted(s.disk, s.executed) == s.disk;
    s' := Step(o, m, s, Tick);
    s' := Step(o, m, s', BeginEntries);
  }

  /** A loaded single pending record is placed and its order lands. */
  lemma SingleRecordLands(o: State, m: Mode, s: State, a: Entry) returns (s': State)
    requires Reaches(o, m, s) && s.pc.Idle? && s.disk.approved == [a] && s.executed == {}
    requires a.status == Pending && a.shares > 0 && Get(s.working, a.ticker) == 0
    ensures Reaches(o, m, s')
    ensures var b := s.disk.(approved := [a.(status := Executing)]);
      s' == s.(mem := b, disk := b, pc := AtBroker(a, []), landed := s.landed + [a.uid],
               bought := s.bought + [a.id], working := s.working[a.ticker := a.shares])
  {
    s' := SingleRecordWalk(o, m, s, a);
    hide Reaches;
    assert FirstMatch([a], a.ticker, {Pending}) == 0;
    s' := PlaceAndLand(o, m, s', a, [a.(status := Executing)]);
  }

  /** Restarting a lone in-doubt record that the broker no longer shows. */
  lemma LoneRecordReverts(o: State, m: Mode, s: State, a: Entry) returns (s': State)
    requires Reaches(o, m, s) && !m.shows && s.pc.Down? && a.status == Executing
    requires s.disk == Book([a], []) && s.rows == {} && !Shows(s, a.ticker)
    ensures Reaches(o, m, s')
    ensures var b := Book([a.(status := Pending)], []); s' == s.(disk := b, mem := b, executed := {}, pc := Idle)
  {
    hide Reaches;
    var b := Book([a.(status := Pending)], []);
    KeepOne(a, (e: Entry) => e.status == Executing);
    KeepOne(a.(status := Pending), (e: Entry) => e.status == Executing);
    assert RevertToPending(s.disk, a.ticker) == b;
    assert Reconcile(b, [], {}, s) == b;
    s' := Step(o, m, s, Boot({}, true));
  }

  lemma BuySoldThenCrash(o: State, m: Mode, s: State, t: Ticker, n: nat) returns (s': State)
    requires Reaches(o, m, s) && !s.pc.Down? && Get(s.working, t) == n && Get(s.held, t) == 0
    ensures Reaches(o, m, s') && s'.pc.Down? && !Shows(s', t)
    ensures s'.disk == s.disk && s'.rows == s.rows && s'.landed == s.landed
  {
    hide Reaches;
    s' := Step(o, m, s, BuyFills(t, n));
    s' := Step(o, m, s', SharesSold(t, n));
    s' := Step(o, m, s', Crash);
  }

  /** A bought position sold by its broker-side stop before a crash leaves
      nothing for the restart to see: the record reverts and is bought again. */
  lemma VanishedPositionBuysTwice() returns (r: Run)
    ensures Valid(r) && Init(Origin(r)) && AllMark(r) && !AtMostOnce(End(r).landed)
  {
    var a := Entry(0, "AMD:legacy", "AMD", 10, Pending);
    var o, m := Fresh([a]), Mode(true, false);
    FreshIsInit([a]);
    Begin(o, m);
    KeepOne(a, (e: Entry) => e.status == Executing);
    var s := BootPending(o, m, o);
    s := LandAndVanish(o, m, s, a);
    hide Reaches, Init, Fresh, Valid, Origin, End, AllMark, AllShow;
    r := BoughtTwice(o, m, s);
  }

  lemma LandAndVanish(o: State, m: Mode, s: State, a: Entry) returns (s': State)
    requires Reaches(o, m, s) && !m.shows && s.pc.Idle? && s.disk == Book([a], []) && s.executed == {} && s.rows == {}
    requires a.status == Pending && a.shares > 0 && Get(s.working, a.ticker) == 0 && Get(s.held, a.ticker) == 0
    ensures Reaches(o, m, s') && s'.landed == s.landed + [a.uid] + [a.uid]
  {
    hide Reaches, Apply, Enabled;
    s' := SingleRecordLands(o, m, s, a);
    s' := BuySoldThenCrash(o, m, s', a.ticker, a.shares as nat);
    s' := LoneRecordReverts(o, m, s', a.(status := Executing));
    s' := SingleRecordLands(o, m, s', a);
  }

  // ------------------------------------------------------- runs built by a program

  ghost predicate Leads(r: Run, s: State) { Valid(r) && End(r) == s }

  lemma Advance(r: Run, s: State, a: Action) returns (r': Run, s': State)
    requires Leads(r, s) && Enabled(s, a)
    ensures Leads(r', s') && Origin(r') == Origin(r) && s' == Apply(s, a)
  {
    r', s' := Then(r, a), Apply(s, a);
  }

  // One advance per action, with what it leaves behind.

  lemma AdvanceIntent(r: Run, s: State) returns (r': Run, s': State)
    requires Leads(r, s) && Enabled(s, WriteAhead)
    ensures Leads(r', s') && Origin(r') == Origin(r) && s' == Intended(s)
  {
    r', s' := Advance(r, s, WriteAhead);
  }

  lemma AdvanceLand(r: Run, s: State) returns (r': Run, s': State)
    requires Leads(r, s) && s.pc.Placing? && s.pc.e.shares > 0
    ensures Leads(r', s') && Origin(r') == Origin(r) && s' == Landed(s)
  {
    r', s' := Advance(r, s, Land);
  }

  lemma AdvanceAccepted(r: Run, s: State) returns (r': Run, s': State)
    requires Leads(r, s) && s.pc.AtBroker?
    ensures Leads(r', s') && Origin(r') == Origin(r)
    ensures s' == s.(rows := s.rows + {s.pc.e.ticker}, pc := Logged(s.pc.e, s.pc.rest))
  {
    r', s' := Advance(r, s, Accepted);
  }

  lemma AdvanceFinalize(r: Run, s: State) returns (r': Run, s': State)
    requires Leads(r, s) && s.pc.Logged?
    ensures Leads(r', s') && Origin(r') == Origin(r) && s' == Finalized(s)
  {
    r', s' := Advance(r, s, Finalize);
  }

  lemma AdvanceRejected(r: Run, s: State) returns (r': Run, s': State)
    requires Leads(r, s) && s.pc.Placing?
    ensures Leads(r', s') && Origin(r') == Origin(r) && s' == Reverted(s)
  {
    r', s' := Advance(r, s, Rejected);
  }

  lemma AdvanceTimedOut(r: Run, s: State) returns (r': Run, s': State)
    requires Leads(r, s) && (s.pc.Placing? || s.pc.AtBroker?)
    ensures Leads(r', s') && Origin(r') == Origin(r)
    ensures s' == s.(disk := s.mem, executed := s.executed + {s.pc.e.ticker}, pc := Loop(s.pc.rest))
  {
    r', s' := Advance(r, s, TimedOut);
  }

  /** A boot, with what it leaves behind. */
  lemma AdvanceBoot(r: Run, s: State, unreadable: set<nat>, rowsReadable: bool) returns (r': Run, s': State)
    requires Leads(r, s) && s.pc.Down?
    ensures Leads(r', s') && Origin(r') == Origin(r) && s' == Apply(s, Boot(unreadable, rowsReadable))
    ensures s'.pc == Idle && s'.rows == s.rows && s'.held == s.held && s'.working == s.working
    ensures s'.disk == s'.mem == Reconcile(s.disk, ExecutingEntries(s.disk), unreadable, s)
    ensures s'.executed == Seed(s'.disk, s.rows, rowsReadable)
  {
    r', s' := Advance(r, s, Boot(unreadable, rowsReadable));
  }
}
