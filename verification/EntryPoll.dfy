/**
 The account of one poll over the pending entries: who was placed, which orders
 landed, and what that did to working shares, trade rows, the traded set and the
 book.  `placed` covers the entries reached so far.
 */
module EntryPoll {
  import opened OrderBooks
  import opened OrderRetry
  import P = BuyProtocol

  /** What a poll is given. */
  datatype Poll = Poll(todo: seq<Entry>, triggers: seq<bool>, withheld: bool, unreadable: set<nat>,
                       replies: seq<seq<Reply>>)

  /** The daemon's variables a poll changes. */
  datatype Tally = Tally(landed: seq<nat>, working: map<Ticker, nat>, rows: set<Ticker>, executed: set<Ticker>, book: Book)

  ghost predicate Fits(p: Poll) {
    && |p.triggers| == |p.todo| == |p.replies|
    && forall i :: 0 <= i < |p.replies| ==> |p.replies[i]| == MAX_ORDER_RETRIES
  }

  /** Whether entry `i` would be placed, given what was placed before it. */
  ghost predicate Goes(p: Poll, before: map<Ticker, nat>, placed: seq<bool>, i: nat)
    requires Fits(p) && i < |p.todo| && i <= |placed|
  {
    && p.triggers[i] && p.todo[i].shares > 0 && !p.withheld && p.todo[i].uid !in p.unreadable
    && P.Get(before, p.todo[i].ticker) == 0
    && forall j :: 0 <= j < i && placed[j] && Last(p.replies[j]).live ==> p.todo[j].ticker != p.todo[i].ticker
  }

  ghost predicate Chosen(p: Poll, before: map<Ticker, nat>, placed: seq<bool>)
    requires Fits(p)
  {
    |placed| <= |p.todo| && forall i :: 0 <= i < |placed| ==> (placed[i] <==> Goes(p, before, placed, i))
  }

  /** `which` lists, in order, the entries placed whose last attempt is live. */
  ghost predicate Landers(p: Poll, placed: seq<bool>, which: seq<nat>)
    requires Fits(p) && |placed| <= |p.todo|
  {
    && (forall k :: 0 <= k < |which| ==> which[k] < |placed|)
    && (forall k, l :: 0 <= k < l < |which| ==> which[k] < which[l])
    && forall i :: 0 <= i < |placed| ==> (i in which <==> placed[i] && Last(p.replies[i]).live)
  }

  ghost predicate Landings(p: Poll, which: seq<nat>, before: seq<nat>, landed: seq<nat>) {
    && before <= landed && |landed| == |before| + |which|
    && forall k :: 0 <= k < |which| ==> which[k] < |p.todo| && landed[|before| + k] == p.todo[which[k]].uid
  }

  /** A landed order works whole; nothing else about working shares changes. */
  ghost predicate Works(p: Poll, which: seq<nat>, before: map<Ticker, nat>, working: map<Ticker, nat>) {
    && (forall i :: i in which ==> i < |p.todo| && P.Get(working, p.todo[i].ticker) == p.todo[i].shares > 0)
    && forall t: Ticker :: (forall i :: i in which ==> i < |p.todo| && p.todo[i].ticker != t) ==> P.Get(working, t) == P.Get(before, t)
  }

  predicate Accepted(r: Reply) { r.Answer? && r.status in {Filled, PartialFill, Working} }

  ghost function LoggedBy(p: Poll, placed: seq<bool>): set<Ticker>
    requires Fits(p) && |placed| <= |p.todo|
  {
    set i | 0 <= i < |placed| && placed[i] && Accepted(Last(p.replies[i])) :: p.todo[i].ticker
  }

  /** Every triggered entry counts as traded, except the one whose call raised. */
  ghost function TradedBy(p: Poll, placed: seq<bool>, raised: bool): set<Ticker>
    requires Fits(p) && |placed| <= |p.todo|
  {
    set i | 0 <= i < |placed| && p.triggers[i] && !(raised && i == |placed| - 1) :: p.todo[i].ticker
  }

  ghost predicate Untraded(p: Poll, placed: seq<bool>, t: Ticker)
    requires |placed| <= |p.todo|
  {
    forall i :: 0 <= i < |placed| && placed[i] ==> p.todo[i].ticker != t
  }

  ghost predicate SameAbout(b: Book, r: Book, t: Ticker) {
    P.SameFor(b, r, t) && (t in Tickers(r.executedToday) <==> t in Tickers(b.executedToday))
  }

  /** The book changes only about the tickers placed. */
  ghost predicate BookLeft(p: Poll, placed: seq<bool>, b: Book, r: Book)
    requires |placed| <= |p.todo|
  {
    && (forall t: Ticker :: Untraded(p, placed, t) ==> SameAbout(b, r, t))
    && ((forall i :: 0 <= i < |placed| ==> !placed[i]) ==> r == b)
  }

  ghost predicate Raised(p: Poll, placed: seq<bool>, raised: bool)
    requires Fits(p) && |placed| <= |p.todo|
  {
    && (forall i :: 0 <= i < |placed| && placed[i] && Last(p.replies[i]).Raises? ==> raised && i == |placed| - 1)
    && (raised ==> placed != [] && placed[|placed| - 1] && Last(p.replies[|placed| - 1]).Raises?)
  }

  /** The account so far. */
  ghost predicate Accounts(p: Poll, s: Tally, placed: seq<bool>, raised: bool, which: seq<nat>, s': Tally)
    requires Fits(p)
  {
    && Chosen(p, s.working, placed) && Landers(p, placed, which) && Raised(p, placed, raised)
    && Landings(p, which, s.landed, s'.landed) && Works(p, which, s.working, s'.working)
    && s'.rows == s.rows + LoggedBy(p, placed) && s'.executed == s.executed + TradedBy(p, placed, raised)
    && BookLeft(p, placed, s.book, s'.book)
  }

  lemma NothingYet(p: Poll, s: Tally)
    requires Fits(p)
    ensures Accounts(p, s, [], false, [], s)
  {}

  // ---------------------------------------------------------------- one more entry

  lemma ChosenNext(p: Poll, before: map<Ticker, nat>, placed: seq<bool>, goes: bool)
    requires Fits(p) && Chosen(p, before, placed) && |placed| < |p.todo|
    requires goes <==> Goes(p, before, placed, |placed|)
    ensures Chosen(p, before, placed + [goes])
  {
    var more := placed + [goes];
    forall i | 0 <= i < |more| ensures more[i] <==> Goes(p, before, more, i) {
      assert i < |placed| ==> (placed[i] <==> Goes(p, before, placed, i));
    }
  }

  /** An entry goes exactly when, besides, nothing of its ticker works at that point. */
  lemma GoesNow(p: Poll, before: map<Ticker, nat>, placed: seq<bool>, which: seq<nat>, working: map<Ticker, nat>)
    requires Fits(p) && |placed| < |p.todo| && Landers(p, placed, which) && Works(p, which, before, working)
    ensures var n := |placed|; Goes(p, before, placed, n) <==>
      p.triggers[n] && p.todo[n].shares > 0 && !p.withheld && p.todo[n].uid !in p.unreadable && P.Get(working, p.todo[n].ticker) == 0
  {
    var t := p.todo[|placed|].ticker;
    if i :| i in which && p.todo[i].ticker == t {
      assert placed[i] && Last(p.replies[i]).live;
    } else {
      assert forall j :: 0 <= j < |placed| && placed[j] && Last(p.replies[j]).live ==> j in which;
    }
  }

  lemma GoesHere(p: Poll, s: Tally, placed: seq<bool>, which: seq<nat>, here: Tally)
    requires Fits(p) && |placed| < |p.todo| && Accounts(p, s, placed, false, which, here)
    ensures var n := |placed|; Goes(p, s.working, placed, n) <==>
      p.triggers[n] && p.todo[n].shares > 0 && !p.withheld && p.todo[n].uid !in p.unreadable && P.Get(here.working, p.todo[n].ticker) == 0
  {
    GoesNow(p, s.working, placed, which, here.working);
    hide Goes;
  }

  lemma LandersNext(p: Poll, placed: seq<bool>, which: seq<nat>, goes: bool)
    requires Fits(p) && |placed| < |p.todo| && Landers(p, placed, which)
    ensures Landers(p, placed + [goes], if goes && Last(p.replies[|placed|]).live then which + [|placed|] else which)
  {}

  lemma SetsNext(p: Poll, placed: seq<bool>, goes: bool, raised: bool)
    requires Fits(p) && |placed| < |p.todo|
    ensures var n := |placed|; var t := p.todo[n].ticker;
      && LoggedBy(p, placed + [goes]) == LoggedBy(p, placed) + (if goes && Accepted(Last(p.replies[n])) then {t} else {})
      && TradedBy(p, placed + [goes], raised) == TradedBy(p, placed, false) + (if p.triggers[n] && !raised then {t} else {})
  {
    var n, more := |placed|, placed + [goes];
    assert more[n] == goes && forall i :: 0 <= i < n ==> more[i] == placed[i];
  }

  lemma WorksNext(p: Poll, placed: seq<bool>, which: seq<nat>, before: map<Ticker, nat>, working: map<Ticker, nat>)
    requires Fits(p) && |placed| < |p.todo| && Landers(p, placed, which) && Works(p, which, before, working)
    requires p.todo[|placed|].shares > 0 && P.Get(working, p.todo[|placed|].ticker) == 0
    ensures var e := p.todo[|placed|]; Works(p, which + [|placed|], before, working[e.ticker := e.shares])
  {
    var n, e := |placed|, p.todo[|placed|];
    var more := which + [n];
    assert forall i :: i in more <==> i in which || i == n;
    forall t: Ticker | forall i :: i in more ==> i < |p.todo| && p.todo[i].ticker != t
      ensures P.Get(working[e.ticker := e.shares], t) == P.Get(before, t)
    {
      assert n in more;
    }
  }

  /** The entry is not placed. */
  lemma PassesBy(p: Poll, s: Tally, placed: seq<bool>, which: seq<nat>, s': Tally)
    requires Fits(p) && |placed| < |p.todo| && Accounts(p, s, placed, false, which, s')
    requires !Goes(p, s.working, placed, |placed|)
    ensures var e := p.todo[|placed|];
      Accounts(p, s, placed + [false], false, which,
               s'.(executed := s'.executed + (if p.triggers[|placed|] then {e.ticker} else {})))
  {
    PassesSets(p, s, placed, s');
    ChosenNext(p, s.working, placed, false);
    LandersNext(p, placed, which, false);
    LeftNext(p, placed, s.book, s'.book);
    RaisedStays(p, placed);
    hide Chosen, Landers, Landings, Works, LoggedBy, TradedBy, BookLeft, Goes, Raised, Last, Accepted, Fits;
  }

  lemma PassesSets(p: Poll, s: Tally, placed: seq<bool>, s': Tally)
    requires Fits(p) && |placed| < |p.todo|
    requires s'.rows == s.rows + LoggedBy(p, placed) && s'.executed == s.executed + TradedBy(p, placed, false)
    ensures s'.rows == s.rows + LoggedBy(p, placed + [false])
    ensures s'.executed + (if p.triggers[|placed|] then {p.todo[|placed|].ticker} else {})
         == s.executed + TradedBy(p, placed + [false], false)
  {
    SetsNext(p, placed, false, false);
    hide LoggedBy, TradedBy, Last, Accepted, Fits;
  }

  /** No trigger fired for the entry. */
  lemma PassesUntriggered(p: Poll, s: Tally, placed: seq<bool>, which: seq<nat>, s': Tally)
    requires Fits(p) && |placed| < |p.todo| && Accounts(p, s, placed, false, which, s') && !p.triggers[|placed|]
    ensures Accounts(p, s, placed + [false], false, which, s')
  {
    assert !Goes(p, s.working, placed, |placed|);
    hide Goes;
    PassesBy(p, s, placed, which, s');
    hide *;
    assert s'.executed + {} == s'.executed;
  }

  lemma RaisedStays(p: Poll, placed: seq<bool>)
    requires Fits(p) && |placed| < |p.todo| && Raised(p, placed, false)
    ensures Raised(p, placed + [false], false)
  {}

  lemma LeftNext(p: Poll, placed: seq<bool>, b: Book, r: Book)
    requires |placed| < |p.todo| && BookLeft(p, placed, b, r)
    ensures BookLeft(p, placed + [false], b, r)
  {
    var more := placed + [false];
    assert forall i :: 0 <= i < |placed| ==> more[i] == placed[i];
    forall t: Ticker | Untraded(p, more, t) ensures SameAbout(b, r, t) { assert Untraded(p, placed, t); }
    hide SameAbout;
  }

  lemma PlacedNext(p: Poll, placed: seq<bool>, b: Book, r: Book, r': Book)
    requires |placed| < |p.todo| && BookLeft(p, placed, b, r)
    requires forall t: Ticker :: t != p.todo[|placed|].ticker ==> SameAbout(r, r', t)
    ensures BookLeft(p, placed + [true], b, r')
  {
    var more, n := placed + [true], |placed|;
    assert more[n] && forall i :: 0 <= i < n ==> more[i] == placed[i];
    forall t: Ticker | Untraded(p, more, t) ensures SameAbout(b, r', t) {
      assert Untraded(p, placed, t) && t != p.todo[n].ticker;
      SameThrough(b, r, r', t);
    }
    hide SameAbout;
  }

  lemma SameThrough(a: Book, b: Book, c: Book, t: Ticker)
    requires SameAbout(a, b, t) && SameAbout(b, c, t)
    ensures SameAbout(a, c, t)
  {}

  lemma RaisedNext(p: Poll, placed: seq<bool>)
    requires Fits(p) && |placed| < |p.todo| && Raised(p, placed, false)
    ensures Raised(p, placed + [true], Last(p.replies[|placed|]).Raises?)
  {}

  lemma LandingsNext(p: Poll, which: seq<nat>, before: seq<nat>, landed: seq<nat>, n: nat)
    requires Landings(p, which, before, landed) && n < |p.todo|
    ensures Landings(p, which + [n], before, landed + [p.todo[n].uid])
  {}

  /** What a placed entry does, by its last reply. */
  ghost predicate Effect(e: Entry, last: Reply, s: Tally, q: Tally) {
    && e.shares > 0
    && q.landed == (if last.live then s.landed + [e.uid] else s.landed)
    && q.working == (if last.live then s.working[e.ticker := e.shares] else s.working)
    && q.rows == (if Accepted(last) then s.rows + {e.ticker} else s.rows)
    && q.executed == (if last.Raises? then s.executed else s.executed + {e.ticker})
    && forall t: Ticker :: t != e.ticker ==> SameAbout(s.book, q.book, t)
  }

  /** The entry is placed. */
  lemma Places(p: Poll, s: Tally, placed: seq<bool>, which: seq<nat>, s': Tally, q: Tally)
    requires Fits(p) && |placed| < |p.todo| && Accounts(p, s, placed, false, which, s')
    requires Goes(p, s.working, placed, |placed|) && Effect(p.todo[|placed|], Last(p.replies[|placed|]), s', q)
    ensures var last := Last(p.replies[|placed|]);
      Accounts(p, s, placed + [true], last.Raises?, if last.live then which + [|placed|] else which, q)
  {
    PlacesOrders(p, s, placed, which, s', q);
    PlacesBook(p, s, placed, s', q);
    ChosenNext(p, s.working, placed, true);
    LandersNext(p, placed, which, true);
    RaisedNext(p, placed);
    hide Chosen, Landers, Landings, Works, LoggedBy, TradedBy, BookLeft, Goes, Raised, Effect, Last;
  }

  lemma PlacesOrders(p: Poll, s: Tally, placed: seq<bool>, which: seq<nat>, s': Tally, q: Tally)
    requires Fits(p) && |placed| < |p.todo| && Landers(p, placed, which)
    requires Landings(p, which, s.landed, s'.landed) && Works(p, which, s.working, s'.working)
    requires Goes(p, s.working, placed, |placed|) && Effect(p.todo[|placed|], Last(p.replies[|placed|]), s', q)
    ensures var more := if Last(p.replies[|placed|]).live then which + [|placed|] else which;
      Landings(p, more, s.landed, q.landed) && Works(p, more, s.working, q.working)
  {
    GoesNow(p, s.working, placed, which, s'.working);
    if Last(p.replies[|placed|]).live {
      WorksNext(p, placed, which, s.working, s'.working);
      LandingsNext(p, which, s.landed, s'.landed, |placed|);
    }
    hide Landings, Works, Landers, Goes, SameAbout, Last;
  }

  lemma PlacesBook(p: Poll, s: Tally, placed: seq<bool>, s': Tally, q: Tally)
    requires Fits(p) && |placed| < |p.todo| && p.triggers[|placed|]
    requires s'.rows == s.rows + LoggedBy(p, placed) && s'.executed == s.executed + TradedBy(p, placed, false)
    requires BookLeft(p, placed, s.book, s'.book) && Effect(p.todo[|placed|], Last(p.replies[|placed|]), s', q)
    ensures q.rows == s.rows + LoggedBy(p, placed + [true])
    ensures q.executed == s.executed + TradedBy(p, placed + [true], Last(p.replies[|placed|]).Raises?)
    ensures BookLeft(p, placed + [true], s.book, q.book)
  {
    SetsNext(p, placed, true, Last(p.replies[|placed|]).Raises?);
    PlacedNext(p, placed, s.book, s'.book, q.book);
    hide BookLeft, LoggedBy, TradedBy, Last, SameAbout, Accepted;
  }

  /** What an account says, spelled out. */
  lemma AccountSays(p: Poll, s: Tally, placed: seq<bool>, raised: bool, which: seq<nat>, q: Tally)
    requires Fits(p) && Accounts(p, s, placed, raised, which, q)
    ensures |placed| <= |p.todo| && forall i :: 0 <= i < |placed| ==>
      (placed[i] <==> p.triggers[i] && p.todo[i].shares > 0 && !p.withheld && p.todo[i].uid !in p.unreadable
                      && P.Get(s.working, p.todo[i].ticker) == 0
                      && forall j :: 0 <= j < i && placed[j] && Last(p.replies[j]).live ==> p.todo[j].ticker != p.todo[i].ticker)
    ensures (forall i :: 0 <= i < |placed| && placed[i] && Last(p.replies[i]).Raises? ==> raised && i == |placed| - 1)
         && (raised ==> placed != [] && placed[|placed| - 1] && Last(p.replies[|placed| - 1]).Raises?)
    ensures (forall k :: 0 <= k < |which| ==> which[k] < |placed|) && (forall k, l :: 0 <= k < l < |which| ==> which[k] < which[l])
         && (forall i :: 0 <= i < |placed| ==> (i in which <==> placed[i] && Last(p.replies[i]).live))
    ensures s.landed <= q.landed && |q.landed| == |s.landed| + |which|
         && (forall k :: 0 <= k < |which| ==> q.landed[|s.landed| + k] == p.todo[which[k]].uid)
         && (forall i :: i in which ==> P.Get(q.working, p.todo[i].ticker) == p.todo[i].shares)
    ensures q.rows == s.rows + (set i | 0 <= i < |placed| && placed[i] && Last(p.replies[i]).Answer?
                                        && Last(p.replies[i]).status in {Filled, PartialFill, Working} :: p.todo[i].ticker)
    ensures q.executed == s.executed + (set i | 0 <= i < |placed| && p.triggers[i] && !(raised && i == |placed| - 1) :: p.todo[i].ticker)
    ensures forall t: Ticker :: (forall i :: i in which ==> p.todo[i].ticker != t) ==> P.Get(q.working, t) == P.Get(s.working, t)
    ensures forall t: Ticker :: (forall i :: 0 <= i < |placed| && placed[i] ==> p.todo[i].ticker != t) ==>
      P.SameFor(s.book, q.book, t) && (t in Tickers(q.book.executedToday) <==> t in Tickers(s.book.executedToday))
    ensures (forall i :: 0 <= i < |placed| ==> !placed[i]) ==> q.book == s.book
  {
    hide Last, P.SameFor;
    forall i | 0 <= i < |placed|
      ensures placed[i] <==> p.triggers[i] && p.todo[i].shares > 0 && !p.withheld && p.todo[i].uid !in p.unreadable
                             && P.Get(s.working, p.todo[i].ticker) == 0
                             && forall j :: 0 <= j < i && placed[j] && Last(p.replies[j]).live ==> p.todo[j].ticker != p.todo[i].ticker
    {
      assert placed[i] <==> Goes(p, s.working, placed, i);
    }
    BooksSay(p, placed, s.book, q.book);
  }

  lemma BooksSay(p: Poll, placed: seq<bool>, b: Book, r: Book)
    requires |placed| <= |p.todo| && BookLeft(p, placed, b, r)
    ensures forall t: Ticker :: (forall i :: 0 <= i < |placed| && placed[i] ==> p.todo[i].ticker != t) ==>
      P.SameFor(b, r, t) && (t in Tickers(r.executedToday) <==> t in Tickers(b.executedToday))
  {
    forall t: Ticker | forall i :: 0 <= i < |placed| && placed[i] ==> p.todo[i].ticker != t
      ensures P.SameFor(b, r, t) && (t in Tickers(r.executedToday) <==> t in Tickers(b.executedToday))
    {
      assert Untraded(p, placed, t);
      assert SameAbout(b, r, t);
    }
    hide P.SameFor;
  }

  // ---------------------------------------------------------------- other tickers

  lemma RestampElsewhere(b: Book, u: Ticker, from: set<Status>, st: Status, t: Ticker)
    requires u != t
    ensures P.SameFor(b, b.(approved := Restamp(b.approved, u, from, st)), t)
  {
    P.RestampMembers(b.approved, u, from, st);
  }

  lemma FinalElsewhere(b: Book, u: Ticker, t: Ticker)
    requires u != t
    ensures SameAbout(b, MarkExecuted(b, u), t)
  {
    var r := MarkExecuted(b, u);
    P.RestampMembers(b.approved, u, {Pending, Executing}, Executed);
    P.OthersStayUnexecuted(b, u, t);
  }

  /** What becomes of one placed entry changes nothing about another ticker. */
  lemma OutcomeElsewhere(b: Book, u: Ticker, t: Ticker)
    requires u != t
    ensures SameAbout(b, MarkExecuting(b, u), t)
    ensures SameAbout(b, RevertToPending(MarkExecuting(b, u), u), t)
    ensures SameAbout(b, MarkExecuted(MarkExecuting(b, u), u), t)
  {
    var m := MarkExecuting(b, u);
    RestampElsewhere(b, u, {Pending}, Executing, t);
    RestampElsewhere(m, u, {Executing}, Pending, t);
    FinalElsewhere(m, u, t);
    SameThrough(b, m, MarkExecuted(m, u), t);
    hide MarkExecuted, Restamp;
  }
}
