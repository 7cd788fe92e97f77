/** The bounded order retry loop. */
module OrderRetry {

  datatype OrderStatus = Filled | PartialFill | Working | Rejected | Timeout

  /** What the broker does with one attempt.  `live` says whether that attempt's
      order fills anything or keeps working if nothing is done about it, `heeds`
      whether cancelling it would leave nothing. */
  datatype Reply =
    | Answer(status: OrderStatus, orderId: int, live: bool, heeds: bool)
    | Raises(live: bool)

  /** One audit-trail record: the attempt's number, its reply, and the reply
      (if any) that caused it. */
  datatype Audit = Audit(attempt: nat, reply: Reply, retryOf: seq<Reply>)

  const MAX_ORDER_RETRIES: nat := 3

  predicate Retryable(r: Reply) { r.Answer? && (r.status == Rejected || r.status == Timeout) }

  /** The number of orders sent: up to the first reply that is not retried. */
  function Sends(replies: seq<Reply>): (n: nat)
    requires |replies| == MAX_ORDER_RETRIES
    ensures 1 <= n <= MAX_ORDER_RETRIES
    ensures forall i :: 0 <= i < n - 1 ==> replies[i].Answer? && replies[i].status in {Rejected, Timeout}
    ensures n < MAX_ORDER_RETRIES ==> replies[n - 1].Raises? || replies[n - 1].status !in {Rejected, Timeout}
  {
    if !Retryable(replies[0]) then 1 else if !Retryable(replies[1]) then 2 else 3
  }

  /** Whether an attempt is left live by the daemon, given the ids it cancelled. */
  predicate LeftLive(r: Reply, cancelled: seq<int>) {
    r.live && !(r.Answer? && r.heeds && r.orderId in cancelled)
  }

  /** The reply a call ends on. */
  function Last(replies: seq<Reply>): Reply
    requires |replies| == MAX_ORDER_RETRIES
  {
    replies[Sends(replies) - 1]
  }

  function LiveCount(rs: seq<Reply>, cancelled: seq<int>): nat {
    if rs == [] then 0
    else LiveCount(rs[..|rs| - 1], cancelled) + (if LeftLive(rs[|rs| - 1], cancelled) then 1 else 0)
  }

  /** The broker contract: `Rejected` means nothing filled, an accepted order is
      live, ids tell orders apart, and cancelling a timed-out order leaves nothing. */
  predicate Honest(replies: seq<Reply>)
    requires |replies| == MAX_ORDER_RETRIES
  {
    var n := Sends(replies);
    && (forall i :: 0 <= i < n && replies[i].Answer? && replies[i].status == Rejected ==> !replies[i].live)
    && (forall i :: 0 <= i < n - 1 && replies[i].Answer? && replies[i].status == Timeout ==> replies[i].heeds)
    && (forall i, j :: 0 <= i < j < n && replies[i].Answer? && replies[j].Answer? ==> replies[i].orderId != replies[j].orderId)
    && (replies[n - 1].Answer? && replies[n - 1].status in {Filled, PartialFill, Working} ==> replies[n - 1].live)
  }

  /** The ids cancelled are those of the retried Timeouts: `from` lists which, in order. */
  predicate CancelsTimeouts(replies: seq<Reply>, retried: nat, cancelled: seq<int>, from: seq<nat>) {
    && retried <= |replies| && |from| == |cancelled|
    && (forall k :: 0 <= k < |from| ==>
          from[k] < retried && replies[from[k]].Answer? && replies[from[k]].status == Timeout
          && cancelled[k] == replies[from[k]].orderId)
    && (forall k, l :: 0 <= k < l < |from| ==> from[k] < from[l])
    && (forall i :: 0 <= i < retried && replies[i].Answer? && replies[i].status == Timeout ==> i in from)
  }

  function AuditOf(replies: seq<Reply>, i: nat): Audit
    requires i < |replies|
  {
    Audit(i + 1, replies[i], if i > 0 then [replies[i - 1]] else [])
  }

  /** The audit trail so far. */
  ghost predicate Audited(replies: seq<Reply>, attempts: seq<Audit>) {
    |attempts| <= |replies| && forall i :: 0 <= i < |attempts| ==> attempts[i] == AuditOf(replies, i)
  }

  lemma AuditedNext(replies: seq<Reply>, attempts: seq<Audit>)
    requires Audited(replies, attempts) && |attempts| < |replies|
    ensures Audited(replies, attempts + [AuditOf(replies, |attempts|)])
  {}

  lemma AuditSays(replies: seq<Reply>, attempts: seq<Audit>)
    requires Audited(replies, attempts)
    ensures forall i :: 0 <= i < |attempts| ==> attempts[i].attempt == i + 1 && attempts[i].reply == replies[i]
    ensures forall i :: 0 <= i < |attempts| ==> if i == 0 then attempts[i].retryOf == [] else attempts[i].retryOf == [replies[i - 1]]
  {}

  lemma CancelsNext(replies: seq<Reply>, retried: nat, cancelled: seq<int>, from: seq<nat>)
    requires retried < |replies| && replies[retried].Answer? && CancelsTimeouts(replies, retried, cancelled, from)
    ensures if replies[retried].status == Timeout
            then CancelsTimeouts(replies, retried + 1, cancelled + [replies[retried].orderId], from + [retried])
            else CancelsTimeouts(replies, retried + 1, cancelled, from)
  {}

  /** Places an order with retry on `Rejected` / `Timeout`.  `raised` is an
      exception out of the placing call; `from` says which attempts were
      cancelled: the retried Timeouts, each once, in order, and nothing else. */
  method PlaceOrderWithRetry(replies: seq<Reply>)
    returns (last: Reply, raised: bool, attempts: seq<Audit>, cancelled: seq<int>, ghost from: seq<nat>)
    requires |replies| == MAX_ORDER_RETRIES
    ensures last == replies[Sends(replies) - 1] && raised == last.Raises?
    ensures |attempts| == if raised then Sends(replies) - 1 else Sends(replies)
    ensures forall i :: 0 <= i < |attempts| ==> attempts[i].attempt == i + 1 && attempts[i].reply == replies[i]
    ensures forall i :: 0 <= i < |attempts| ==> if i == 0 then attempts[i].retryOf == [] else attempts[i].retryOf == [replies[i - 1]]
    ensures CancelsTimeouts(replies, Sends(replies) - 1, cancelled, from)
  {
    last, raised, attempts, cancelled, from := replies[0], false, [], [], [];
    assert CancelsTimeouts(replies, 0, cancelled, from);
    hide CancelsTimeouts, Sends, Audited;
    for attempt := 0 to MAX_ORDER_RETRIES
      invariant forall i :: 0 <= i < attempt ==> Retryable(replies[i])
      invariant attempt > 0 ==> last == replies[attempt - 1]
      invariant !raised && |attempts| == attempt
      invariant Audited(replies, attempts)
      invariant CancelsTimeouts(replies, if attempt == 0 then 0 else attempt - 1, cancelled, from)
    {
      var reason := [];
      if attempt > 0 {
        reason := [last];
        CancelsNext(replies, attempt - 1, cancelled, from);
        if last.status == Timeout {
          cancelled := cancelled + [last.orderId];
          from := from + [attempt - 1];
        }
      }
      last := replies[attempt];
      if last.Raises? {
        raised := true;
        SendsAt(replies, attempt);
        AuditSays(replies, attempts);
        return;
      }
      AuditedNext(replies, attempts);
      attempts := attempts + [Audit(attempt + 1, last, reason)];
      if last.status != Rejected && last.status != Timeout {
        SendsAt(replies, attempt);
        AuditSays(replies, attempts);
        return;
      }
    }
    SendsAt(replies, MAX_ORDER_RETRIES - 1);
    AuditSays(replies, attempts);
  }

  lemma SendsAt(replies: seq<Reply>, k: nat)
    requires k < |replies| == MAX_ORDER_RETRIES && forall i :: 0 <= i < k ==> Retryable(replies[i])
    requires k + 1 < MAX_ORDER_RETRIES ==> !Retryable(replies[k])
    ensures Sends(replies) == k + 1
  {}

  /** Every retried Timeout is cancelled, a cancelled id is that of a retried
      Timeout, and there are as many of the one as of the other. */
  lemma CancelledExactly(replies: seq<Reply>, retried: nat, cancelled: seq<int>, from: seq<nat>)
    requires CancelsTimeouts(replies, retried, cancelled, from)
    ensures forall i :: 0 <= i < retried && replies[i].Answer? && replies[i].status == Timeout ==> replies[i].orderId in cancelled
    ensures forall id :: id in cancelled ==>
      exists i :: 0 <= i < retried && replies[i].Answer? && replies[i].status == Timeout && replies[i].orderId == id
    ensures |cancelled| == |set i | 0 <= i < retried && replies[i].Answer? && replies[i].status == Timeout|
  {
    forall i | 0 <= i < retried && replies[i].Answer? && replies[i].status == Timeout ensures replies[i].orderId in cancelled {
      var k :| 0 <= k < |from| && from[k] == i;
      assert cancelled[k] == replies[i].orderId;
    }
    var timeouts := set i | 0 <= i < retried && replies[i].Answer? && replies[i].status == Timeout;
    assert timeouts == Elements(from);
    IncreasingCounts(from);
  }

  ghost function Elements(from: seq<nat>): set<nat> { set i | i in from }

  lemma {:induction false} IncreasingCounts(from: seq<nat>)
    requires forall k, l :: 0 <= k < l < |from| ==> from[k] < from[l]
    ensures |Elements(from)| == |from|
  {
    if from != [] {
      var firsts, last := from[..|from| - 1], from[|from| - 1];
      assert from == firsts + [last];
      IncreasingCounts(firsts);
      assert Elements(from) == Elements(firsts) + {last};
      assert last !in Elements(firsts);
    }
  }

  /** One order per call: under the broker contract, and with every retried
      Timeout cancelled, the call leaves at most one live order, and it leaves
      one exactly when its last attempt is live. */
  lemma AtMostOneLive(replies: seq<Reply>, cancelled: seq<int>)
    requires |replies| == MAX_ORDER_RETRIES && Honest(replies)
    requires forall i :: 0 <= i < Sends(replies) - 1 && replies[i].Answer? && replies[i].status == Timeout ==>
      replies[i].orderId in cancelled
    requires forall id :: id in cancelled ==>
      exists i :: 0 <= i < Sends(replies) - 1 && replies[i].Answer? && replies[i].orderId == id
    ensures LiveCount(replies[..Sends(replies)], cancelled) == if replies[Sends(replies) - 1].live then 1 else 0
  {
    var n := Sends(replies);
    var retried := replies[..n - 1];
    forall i | 0 <= i < |retried| ensures !LeftLive(retried[i], cancelled) {
      assert Retryable(replies[i]);
    }
    NoneLive(retried, cancelled);
    assert replies[..n][..n - 1] == replies[..n - 1];
    var last := replies[n - 1];
    assert last.Answer? ==> last.orderId !in cancelled;
  }

  lemma {:induction false} NoneLive(rs: seq<Reply>, cancelled: seq<int>)
    requires forall i :: 0 <= i < |rs| ==> !LeftLive(rs[i], cancelled)
    ensures LiveCount(rs, cancelled) == 0
  {
    if rs != [] { NoneLive(rs[..|rs| - 1], cancelled); }
  }

  /** A retried Timeout that was live and was not cancelled stays live beside the last order. */
  lemma MissedCancelLeavesTwo(first: Reply, last: Reply, third: Reply, cancelled: seq<int>)
    requires first.Answer? && first.status == Timeout && first.live && first.orderId !in cancelled
    requires last.live && !Retryable(last) && (last.Answer? ==> last.orderId !in cancelled)
    ensures Sends([first, last, third]) == 2 && LiveCount([first, last, third][..2], cancelled) == 2
  {
    var replies := [first, last, third];
    assert replies[..2] == [first, last] && [first, last][..1] == [first] && [first][..0] == [];
    assert LiveCount([first], cancelled) == 1;
  }
}

/**
 The daemon's entry path as a program over its mutable state.  Every durable
 step it takes is appended to the ghost run, so each method's effect is a run
 of the protocol machine and a crash can fall after any prefix of it.
 */
module DaemonEntries {
  import opened OrderBooks
  import opened OrderRetry
  import P = BuyProtocol
  import E = EntryPoll

  lemma OutcomesElsewhere(b: Book, u: Ticker)
    ensures forall t: Ticker :: t != u ==>
      E.SameAbout(b, MarkExecuting(b, u), t) && E.SameAbout(b, RevertToPending(MarkExecuting(b, u), u), t)
      && E.SameAbout(b, MarkExecuted(MarkExecuting(b, u), u), t)
  {
    forall t: Ticker | t != u
      ensures E.SameAbout(b, MarkExecuting(b, u), t) && E.SameAbout(b, RevertToPending(MarkExecuting(b, u), u), t)
           && E.SameAbout(b, MarkExecuted(MarkExecuting(b, u), u), t)
    {
      E.OutcomeElsewhere(b, u, t);
    }
  }

  /** What `Placed` leaves is the effect of one placed entry. */
  lemma EffectOf(e: Entry, last: Reply, s: E.Tally, q: E.Tally)
    requires e.shares > 0 && P.Get(s.working, e.ticker) == 0
    requires q.landed == (if last.live then s.landed + [e.uid] else s.landed)
    requires q.working == (if last.live then s.working[e.ticker := P.Get(s.working, e.ticker) + e.shares] else s.working)
    requires q.rows == (if last.Answer? && last.status in {Filled, PartialFill, Working} then s.rows + {e.ticker} else s.rows)
    requires q.executed == (if last.Raises? then s.executed else s.executed + {e.ticker})
    requires q.book == if last.Raises? || last.status == Timeout then MarkExecuting(s.book, e.ticker)
                       else if last.status == Rejected then RevertToPending(MarkExecuting(s.book, e.ticker), e.ticker)
                       else MarkExecuted(MarkExecuting(s.book, e.ticker), e.ticker)
    ensures E.Effect(e, last, s, q)
  {
    OutcomesElsewhere(s.book, e.ticker);
    hide MarkExecuting, MarkExecuted, RevertToPending, E.SameAbout;
  }

  class Daemon {
    var book: OrderBook
    var disk: Book
    var rows: set<Ticker>
    var executed: set<Ticker>
    var held: map<Ticker, nat>
    var working: map<Ticker, nat>
    ghost var run: P.Run
    ghost var at: P.State

    /** `run` is a run of the machine from `origin` to `at`, and the program's own
        variables are that state. */
    ghost predicate Tracks()
      reads this, book
    {
      && P.Leads(run, at)
      && at.disk == disk && at.rows == rows && at.mem == book.View() && at.executed == executed
      && at.held == held && at.working == working
    }

    ghost predicate At(pc: P.Pc)
      reads this, book
    {
      Tracks() && at.pc == pc
    }

    /** Startup: load the book, reconcile what a crash left in doubt, and seed
        the already-traded set from durable state. */
    constructor Boot(ghost before: P.Run, ghost s: P.State, d: Book, r: set<Ticker>, h: map<Ticker, nat>, w: map<Ticker, nat>,
                     unreadable: set<nat>, rowsReadable: bool)
      requires P.Leads(before, s) && s.pc == P.Down
      requires s.disk == d && s.rows == r && s.held == h && s.working == w
      ensures At(P.Idle) && fresh(book)
      ensures P.Origin(run) == P.Origin(before)
      ensures at == P.Apply(s, P.Boot(unreadable, rowsReadable))
    {
      book := new OrderBook(d);
      disk, rows, held, working, executed := d, r, h, w, {};
      run, at := before, s;
      hide P.Reconcile, P.Seed, P.Apply, P.Enabled, P.Leads, P.Origin, ExecutingEntries;
      new;
      ReconcileExecutingEntries(unreadable, s);
      SeedExecuted(rowsReadable);
      run, at := P.AdvanceBoot(before, s, unreadable, rowsReadable);
    }

    /** Rebuilds the already-traded set from the book and the trade rows. */
    method SeedExecuted(rowsReadable: bool)
      requires disk == book.View()
      modifies this`executed
      ensures executed == P.Seed(disk, rows, rowsReadable)
    {
      executed := Tickers(book.executedToday) + Tickers(ExecutingEntries(disk));
      if rowsReadable { executed := executed + rows; }
    }

    method Save()
      modifies this`disk
      ensures disk == book.View()
    {
      disk := Book(book.approved, book.executedToday);
    }

    /** Startup reconciliation of in-doubt records against broker truth. */
    method ReconcileExecutingEntries(unreadable: set<nat>, ghost s: P.State)
      requires book.View() == disk == s.disk && s.held == held && s.working == working
      modifies this`disk, book
      ensures disk == book.View() == P.Reconcile(s.disk, ExecutingEntries(s.disk), unreadable, s)
    {
      var todo := ExecutingEntries(disk);
      var i := 0;
      while i < |todo|
        invariant i <= |todo| && disk == s.disk && s.held == held && s.working == working
        invariant P.Reconcile(s.disk, todo, unreadable, s) == P.Reconcile(book.View(), todo[i..], unreadable, s)
      {
        var e := todo[i];
        assert todo[i..][0] == e && todo[i..][1..] == todo[i + 1..];
        if e.uid !in unreadable {
          if P.Get(held, e.ticker) > 0 || P.Get(working, e.ticker) > 0 {
            book.MarkEntryExecuted(e.ticker);
          } else {
            book.RevertEntryToPending(e.ticker);
          }
        }
        i := i + 1;
      }
      assert todo[i..] == [];
      Save();
    }

    /** The poll's reload: read the book from disk and drop traded tickers. */
    method Reload()
      requires At(P.Idle)
      modifies this`book, this`run, this`at
      ensures At(P.Ready) && fresh(book)
      ensures P.Origin(run) == old(P.Origin(run))
      ensures at == P.Apply(old(at), P.Tick)
    {
      book := new OrderBook(disk);
      book.MergeExecutedTickers(executed);
      run, at := P.Advance(run, at, P.Tick);
    }

    /** Saves the write-ahead intent. */
    method WriteIntent(e: Entry, ghost rest: seq<Entry>)
      requires At(P.Loop([e] + rest)) && e.shares > 0 && P.Get(working, e.ticker) == 0
      modifies this`disk, this`run, this`at, book
      ensures At(P.Placing(e, rest))
      ensures P.Origin(run) == old(P.Origin(run))
      ensures at.landed == old(at.landed)
      ensures disk == book.View() == MarkExecuting(old(book.View()), e.ticker)
    {
      hide P.Leads, P.Apply;
      assert ([e] + rest)[1..] == rest;
      book.MarkEntryExecuting(e.ticker);
      Save();
      run, at := P.AdvanceIntent(run, at);
    }

    /** The order reaches the broker. */
    method OrderLands(e: Entry, ghost rest: seq<Entry>)
      requires At(P.Placing(e, rest)) && e.shares > 0
      modifies this`working, this`run, this`at
      ensures At(P.AtBroker(e, rest))
      ensures P.Origin(run) == old(P.Origin(run))
      ensures at.landed == old(at.landed) + [e.uid]
      ensures working == old(working)[e.ticker := P.Get(old(working), e.ticker) + e.shares]
    {
      hide P.Leads, P.Apply, P.Enabled;
      working := working[e.ticker := P.Get(working, e.ticker) + e.shares];
      run, at := P.AdvanceLand(run, at);
    }

    method LogTrade(e: Entry, ghost rest: seq<Entry>)
      requires At(P.AtBroker(e, rest))
      modifies this`rows, this`run, this`at
      ensures At(P.Logged(e, rest)) && rows == old(rows) + {e.ticker}
      ensures P.Origin(run) == old(P.Origin(run))
      ensures at.landed == old(at.landed)
    {
      hide P.Leads, P.Apply, P.Enabled;
      rows := rows + {e.ticker};
      run, at := P.AdvanceAccepted(run, at);
    }

    method FinalizeEntry(e: Entry, ghost rest: seq<Entry>)
      requires At(P.Logged(e, rest))
      modifies this`disk, this`executed, this`run, this`at, book
      ensures At(P.Loop(rest)) && executed == old(executed) + {e.ticker}
      ensures P.Origin(run) == old(P.Origin(run))
      ensures at.landed == old(at.landed)
      ensures disk == book.View() == MarkExecuted(old(book.View()), e.ticker)
    {
      hide P.Leads, P.Apply, P.Enabled, MarkExecuted;
      book.MarkEntryExecuted(e.ticker);
      Save();
      executed := executed + {e.ticker};
      run, at := P.AdvanceFinalize(run, at);
    }

    method RevertRejected(e: Entry, ghost rest: seq<Entry>)
      requires At(P.Placing(e, rest))
      modifies this`disk, this`executed, this`run, this`at, book
      ensures At(P.Loop(rest)) && executed == old(executed) + {e.ticker}
      ensures P.Origin(run) == old(P.Origin(run))
      ensures at.landed == old(at.landed)
      ensures disk == book.View() == RevertToPending(old(book.View()), e.ticker)
    {
      hide P.Leads, P.Apply, P.Enabled, RevertToPending;
      book.RevertEntryToPending(e.ticker);
      Save();
      executed := executed + {e.ticker};
      run, at := P.AdvanceRejected(run, at);
    }

    /** A guard or the gate refuses the entry. */
    method SkipEntry(e: Entry, ghost rest: seq<Entry>)
      requires At(P.Loop([e] + rest))
      modifies this`executed, this`run, this`at
      ensures At(P.Loop(rest)) && executed == old(executed) + {e.ticker}
      ensures P.Origin(run) == old(P.Origin(run))
      ensures at.landed == old(at.landed)
    {
      assert ([e] + rest)[1..] == rest;
      executed := executed + {e.ticker};
      run, at := P.Advance(run, at, P.Skip);
    }

    /** The placing call raises: the intent stays, and nothing is marked traded. */
    method LoseConnection(e: Entry, ghost rest: seq<Entry>)
      requires At(P.Placing(e, rest)) || At(P.AtBroker(e, rest))
      modifies this`run, this`at
      ensures At(P.Idle)
      ensures P.Origin(run) == old(P.Origin(run))
      ensures at.landed == old(at.landed)
    {
      run, at := P.Advance(run, at, P.ConnectionLost);
    }

    /** The last attempt timed out: the order may be live, so the intent stays. */
    method GiveUp(e: Entry, ghost rest: seq<Entry>)
      requires At(P.Placing(e, rest)) || At(P.AtBroker(e, rest))
      modifies this`disk, this`executed, this`run, this`at
      ensures At(P.Loop(rest)) && executed == old(executed) + {e.ticker} && disk == book.View()
      ensures P.Origin(run) == old(P.Origin(run))
      ensures at.landed == old(at.landed)
    {
      hide P.Leads, P.Apply, P.Enabled;
      Save();
      executed := executed + {e.ticker};
      run, at := P.AdvanceTimedOut(run, at);
    }

    /** Places one triggered entry.  `withheld` is the correctness gate,
        `unreadable` a failed broker read in the duplicate guard.  It is placed
        exactly when it asks for shares, nothing withholds it and no BUY of its
        ticker works; its last reply then decides what becomes of it. */
    method ExecuteEntry(e: Entry, ghost rest: seq<Entry>, withheld: bool, unreadable: bool, replies: seq<Reply>)
      returns (placed: bool, raised: bool)
      requires At(P.Loop([e] + rest)) && |replies| == MAX_ORDER_RETRIES && Honest(replies)
      modifies this`disk, this`rows, this`executed, this`working, this`run, this`at, book
      ensures placed <==> e.shares > 0 && !withheld && !unreadable && P.Get(old(working), e.ticker) == 0
      ensures raised <==> placed && Last(replies).Raises?
      ensures if raised then At(P.Idle) && executed == old(executed) else At(P.Loop(rest)) && executed == old(executed) + {e.ticker}
      ensures P.Origin(run) == old(P.Origin(run))
      ensures !placed ==> Untouched(old(at.landed), old(working), old(rows)) && book.View() == old(book.View()) && disk == old(disk)
      ensures placed ==> Placed(old(at.landed), old(working), old(rows), old(book.View()), e, Last(replies))
    {
      hide P.Apply, P.Enabled, P.Leads;
      placed, raised := false, false;
      if e.shares <= 0 || withheld || unreadable || P.Get(working, e.ticker) > 0 {
        SkipEntry(e, rest);
        return;
      }
      placed := true;
      WriteIntent(e, rest);
      raised := PlaceEntry(e, rest, replies);
    }

    ghost predicate Untouched(landed: seq<nat>, before: map<Ticker, nat>, logged: set<Ticker>)
      reads this
    {
      at.landed == landed && working == before && rows == logged
    }

    /** What the last reply to a placed entry leaves: its order if that is live,
        its trade row and the finalized record if it was accepted, the record
        pending again if it was rejected, and in doubt otherwise; all saved. */
    ghost predicate Placed(landed: seq<nat>, before: map<Ticker, nat>, logged: set<Ticker>, b: Book, e: Entry, last: Reply)
      reads this, book
      requires e.shares > 0
    {
      var t := e.ticker;
      && at.landed == (if last.live then landed + [e.uid] else landed)
      && working == (if last.live then before[t := P.Get(before, t) + e.shares] else before)
      && rows == (if last.Answer? && last.status in {Filled, PartialFill, Working} then logged + {t} else logged)
      && disk == book.View()
      && book.View() == if last.Raises? || last.status == Timeout then MarkExecuting(b, t)
                        else if last.status == Rejected then RevertToPending(MarkExecuting(b, t), t)
                        else MarkExecuted(MarkExecuting(b, t), t)
    }

    /** The retry loop, and whatever it leaves live at the broker: under the
        broker contract one order at most, because retried Timeouts were cancelled. */
    method SendOrder(e: Entry, ghost rest: seq<Entry>, replies: seq<Reply>) returns (last: Reply)
      requires At(P.Placing(e, rest)) && e.shares > 0 && |replies| == MAX_ORDER_RETRIES && Honest(replies)
      modifies this`working, this`run, this`at
      ensures last == Last(replies) && At(if last.live then P.AtBroker(e, rest) else P.Placing(e, rest))
      ensures last.Answer? ==> (last.status == Rejected ==> !last.live) && (last.status !in {Rejected, Timeout} ==> last.live)
      ensures P.Origin(run) == old(P.Origin(run))
      ensures at.landed == if last.live then old(at.landed) + [e.uid] else old(at.landed)
      ensures working == if last.live then old(working)[e.ticker := P.Get(old(working), e.ticker) + e.shares] else old(working)
    {
      hide P.Apply, P.Enabled, P.Leads, P.Origin;
      var raised, audit, cancelled;
      ghost var from;
      last, raised, audit, cancelled, from := PlaceOrderWithRetry(replies);
      CancelledExactly(replies, Sends(replies) - 1, cancelled, from);
      AtMostOneLive(replies, cancelled);
      var left := LiveCount(replies[..Sends(replies)], cancelled);
      assert last.Answer? && last.status !in {Rejected, Timeout} ==> last.live;
      hide Sends, LiveCount, Honest;
      if left == 1 { OrderLands(e, rest); }
    }

    /** From the saved intent: the retry loop, and what its last reply leads to. */
    method PlaceEntry(e: Entry, ghost rest: seq<Entry>, replies: seq<Reply>) returns (raised: bool)
      requires At(P.Placing(e, rest)) && e.shares > 0 && |replies| == MAX_ORDER_RETRIES && Honest(replies)
      requires disk == book.View()
      modifies this`disk, this`rows, this`executed, this`working, this`run, this`at, book
      ensures raised == Last(replies).Raises?
      ensures if raised then At(P.Idle) && executed == old(executed) else At(P.Loop(rest)) && executed == old(executed) + {e.ticker}
      ensures P.Origin(run) == old(P.Origin(run))
      ensures forall b :: old(book.View()) == MarkExecuting(b, e.ticker) ==>
        Placed(old(at.landed), old(working), old(rows), b, e, Last(replies))
    {
      hide P.Apply, P.Enabled, P.Leads, MarkExecuting, MarkExecuted, RevertToPending, P.Origin, Honest, Last;
      var last := SendOrder(e, rest, replies);
      raised := last.Raises?;
      if raised {
        LoseConnection(e, rest);
      } else if last.status == Rejected {
        RevertRejected(e, rest);
      } else if last.status == Timeout {
        GiveUp(e, rest);
      } else {
        LogTrade(e, rest);
        FinalizeEntry(e, rest);
      }
    }

    /** One poll's walk over the pending entries.  Triggers, gates and broker
        replies are whatever the environment gives.  `placed` says of each entry
        reached whether it was placed; `which` lists the entries that landed. */
    method CheckEntries(triggers: seq<bool>, withheld: bool, unreadable: set<nat>, replies: seq<seq<Reply>>)
      returns (placed: seq<bool>, raised: bool, ghost which: seq<nat>)
      requires At(P.Ready)
      requires var n := |PendingEntries(book.View())|;
               |triggers| == n && |replies| == n
               && forall i :: 0 <= i < n ==> |replies[i]| == MAX_ORDER_RETRIES && Honest(replies[i])
      modifies this`disk, this`rows, this`executed, this`working, this`run, this`at, book
      ensures At(P.Idle)
      ensures P.Origin(run) == old(P.Origin(run))
      ensures |placed| <= |triggers| && (!raised ==> |placed| == |triggers|)
      ensures var todo := PendingEntries(old(book.View()));
        && (forall i :: 0 <= i < |placed| ==>
              (placed[i] <==> triggers[i] && todo[i].shares > 0 && !withheld && todo[i].uid !in unreadable
                              && P.Get(old(working), todo[i].ticker) == 0
                              && forall j :: 0 <= j < i && placed[j] && Last(replies[j]).live ==> todo[j].ticker != todo[i].ticker))
        && (forall i :: 0 <= i < |placed| && placed[i] && Last(replies[i]).Raises? ==> raised && i == |placed| - 1)
        && (raised ==> placed != [] && placed[|placed| - 1] && Last(replies[|placed| - 1]).Raises?)
        && (forall k :: 0 <= k < |which| ==> which[k] < |placed|) && (forall k, l :: 0 <= k < l < |which| ==> which[k] < which[l])
        && (forall i :: 0 <= i < |placed| ==> (i in which <==> placed[i] && Last(replies[i]).live))
        && old(at.landed) <= at.landed && |at.landed| == |old(at.landed)| + |which|
        && (forall k :: 0 <= k < |which| ==> at.landed[|old(at.landed)| + k] == todo[which[k]].uid)
        && (forall i :: i in which ==> P.Get(working, todo[i].ticker) == todo[i].shares)
        && (forall t :: (forall i :: i in which ==> todo[i].ticker != t) ==> P.Get(working, t) == P.Get(old(working), t))
        && rows == old(rows) + (set i | 0 <= i < |placed| && placed[i] && Last(replies[i]).Answer?
                                        && Last(replies[i]).status in {Filled, PartialFill, Working} :: todo[i].ticker)
        && executed == old(executed) + (set i | 0 <= i < |placed| && triggers[i] && !(raised && i == |placed| - 1) :: todo[i].ticker)
        && (forall t :: (forall i :: 0 <= i < |placed| && placed[i] ==> todo[i].ticker != t) ==>
              P.SameFor(old(book.View()), book.View(), t)
              && (t in Tickers(book.executedToday) <==> t in Tickers(old(book.executedToday))))
        && ((forall i :: 0 <= i < |placed| ==> !placed[i]) ==> book.View() == old(book.View()) && disk == old(disk))
    {
      hide P.Apply, P.Enabled, P.Leads, P.Origin, PendingEntries, E.Accounts, P.SameFor, P.Get, Tickers, Last, Honest, At;
      ghost var poll := E.Poll(PendingEntries(book.View()), triggers, withheld, unreadable, replies);
      ghost var before := Now();
      placed, raised, which := WalkEntries(triggers, withheld, unreadable, replies);
      E.AccountSays(poll, before, placed, raised, which, Now());
    }

    ghost function Now(): E.Tally
      reads this, book
    {
      E.Tally(at.landed, working, rows, executed, book.View())
    }

    /** The walk, against its running account. */
    method WalkEntries(triggers: seq<bool>, withheld: bool, unreadable: set<nat>, replies: seq<seq<Reply>>)
      returns (placed: seq<bool>, raised: bool, ghost which: seq<nat>)
      requires At(P.Ready)
      requires var n := |PendingEntries(book.View())|;
               |triggers| == n && |replies| == n
               && forall i :: 0 <= i < n ==> |replies[i]| == MAX_ORDER_RETRIES && Honest(replies[i])
      modifies this`disk, this`rows, this`executed, this`working, this`run, this`at, book
      ensures At(P.Idle)
      ensures P.Origin(run) == old(P.Origin(run))
      ensures var poll := E.Poll(PendingEntries(old(book.View())), triggers, withheld, unreadable, replies);
        E.Accounts(poll, old(Now()), placed, raised, which, Now()) && (!raised ==> |placed| == |triggers|)
      ensures true !in placed ==> disk == old(disk)
    {
      hide P.Apply, P.Enabled, P.Leads, P.Origin, PendingEntries, E.Accounts, Honest, Now, At;
      ghost var before := Now();
      ghost var disk0, r0 := disk, run;
      var todo := BeginWalk();
      ghost var poll := E.Poll(todo, triggers, withheld, unreadable, replies);
      placed, raised, which := [], false, [];
      E.NothingYet(poll, before);
      var i := 0;
      while i < |todo|
        invariant i == |placed| <= |todo| && At(P.Loop(todo[i..])) && !raised
        invariant P.Origin(run) == P.Origin(r0)
        invariant E.Accounts(poll, before, placed, false, which, Now())
        invariant true !in placed ==> disk == disk0
      {
        assert todo[i..] == [todo[i]] + todo[i + 1..];
        var goes;
        goes, raised, which := VisitEntry(poll, before, placed, which, todo[i], todo[i + 1..], triggers[i], withheld, unreadable, replies[i]);
        placed := placed + [goes];
        if raised { return; }
        i := i + 1;
      }
      assert todo[i..] == [];
      EndWalk();
    }

    /** One entry of the walk: placed if its trigger fired, passed over otherwise. */
    method VisitEntry(ghost poll: E.Poll, ghost before: E.Tally, ghost placed: seq<bool>, ghost which: seq<nat>,
                      e: Entry, ghost rest: seq<Entry>, trigger: bool, withheld: bool, unreadable: set<nat>, reply: seq<Reply>)
      returns (goes: bool, raised: bool, ghost more: seq<nat>)
      requires At(P.Loop([e] + rest)) && |reply| == MAX_ORDER_RETRIES && Honest(reply)
      requires E.Fits(poll) && |placed| < |poll.todo| && E.Accounts(poll, before, placed, false, which, Now())
      requires poll.todo[|placed|] == e && poll.triggers[|placed|] == trigger && poll.replies[|placed|] == reply
      requires poll.withheld == withheld && poll.unreadable == unreadable
      modifies this`disk, this`rows, this`executed, this`working, this`run, this`at, book
      ensures At(if raised then P.Idle else P.Loop(rest))
      ensures P.Origin(run) == old(P.Origin(run))
      ensures E.Accounts(poll, before, placed + [goes], raised, more, Now())
      ensures !goes ==> disk == old(disk)
    {
      hide P.Apply, P.Enabled, P.Leads, P.Origin, Honest, Last, E.Accounts;
      if trigger {
        goes, raised, more := VisitTriggered(poll, before, placed, which, e, rest, withheld, unreadable, reply);
      } else {
        goes, raised, more := false, false, which;
        ghost var here := Now();
        E.PassesUntriggered(poll, before, placed, which, here);
        PassOver(e, rest);
        assert Now() == here;
      }
    }

    method VisitTriggered(ghost poll: E.Poll, ghost before: E.Tally, ghost placed: seq<bool>, ghost which: seq<nat>,
                          e: Entry, ghost rest: seq<Entry>, withheld: bool, unreadable: set<nat>, reply: seq<Reply>)
      returns (goes: bool, raised: bool, ghost more: seq<nat>)
      requires At(P.Loop([e] + rest)) && |reply| == MAX_ORDER_RETRIES && Honest(reply)
      requires E.Fits(poll) && |placed| < |poll.todo| && E.Accounts(poll, before, placed, false, which, Now())
      requires poll.todo[|placed|] == e && poll.triggers[|placed|] && poll.replies[|placed|] == reply
      requires poll.withheld == withheld && poll.unreadable == unreadable
      modifies this`disk, this`rows, this`executed, this`working, this`run, this`at, book
      ensures At(if raised then P.Idle else P.Loop(rest))
      ensures P.Origin(run) == old(P.Origin(run))
      ensures E.Accounts(poll, before, placed + [goes], raised, more, Now())
      ensures !goes ==> disk == old(disk)
    {
      hide P.Apply, P.Enabled, P.Leads, P.Origin, Honest, Last, MarkExecuting, MarkExecuted, RevertToPending, At;
      ghost var here := Now();
      E.GoesHere(poll, before, placed, which, here);
      hide E.Accounts, E.Goes;
      goes, raised := ExecuteEntry(e, rest, withheld, e.uid in unreadable, reply);
      more := which;
      if goes {
        EffectOf(e, Last(reply), here, Now());
        E.Places(poll, before, placed, which, here, Now());
        if Last(reply).live { more := which + [|placed|]; }
      } else {
        E.PassesBy(poll, before, placed, which, here);
      }
    }

    method BeginWalk() returns (todo: seq<Entry>)
      requires At(P.Ready)
      modifies this`run, this`at
      ensures todo == PendingEntries(book.View()) && At(P.Loop(todo))
      ensures P.Origin(run) == old(P.Origin(run)) && Now() == old(Now())
    {
      todo := PendingEntries(Book(book.approved, book.executedToday));
      run, at := P.Advance(run, at, P.BeginEntries);
    }

    /** No trigger fired for the entry. */
    method PassOver(e: Entry, ghost rest: seq<Entry>)
      requires At(P.Loop([e] + rest))
      modifies this`run, this`at
      ensures At(P.Loop(rest))
      ensures P.Origin(run) == old(P.Origin(run)) && Now() == old(Now())
    {
      assert ([e] + rest)[1..] == rest;
      run, at := P.Advance(run, at, P.NoTrigger);
    }

    method EndWalk()
      requires At(P.Loop([]))
      modifies this`run, this`at
      ensures At(P.Idle)
      ensures P.Origin(run) == old(P.Origin(run)) && Now() == old(Now())
    {
      run, at := P.Advance(run, at, P.EndEntries);
    }
  }
}
