/**
 The short-sell guard.  Every SELL is capped at held shares minus SELL shares
 already working.  Intraday exits read both figures fresh; Phase 0 reads the
 holdings once and decrements its own copy.

 `Account` is one ticker as a step machine (the guard never looks at another
 ticker).  Class `Desk` is the program over the maps of all tickers.
 */
module SellGuard {
  import opened Options
  import R = OrderRetry

  type Ticker = string

  /** Cap a sell at `held - pending`; None means skip it. */
  function ValidateSellShares(allowShorts: bool, held: int, shares: nat, pending: int): (r: Option<nat>)
    ensures !allowShorts && r.Some? ==> r.value <= shares && r.value + pending <= held
    ensures !allowShorts && r.Some? && r.value < shares ==> r.value + pending == held
    ensures !allowShorts ==> (r.None? <==> held <= pending)
    ensures allowShorts ==> r == Some(shares)
  {
    if allowShorts then Some(shares)
    else if held - pending <= 0 then None
    else if shares > held - pending then Some(held - pending)
    else Some(shares)
  }

  /** A stale holdings figure is harmless for every request size exactly when it
      does not exceed the true holding, or leaves no room to sell at all. */
  lemma StaleFigureIsSafeExactly(held: int, working: nat, cached: int)
    requires working <= held
    ensures (forall shares: nat :: var r := ValidateSellShares(false, cached, shares, working);
               r.Some? ==> working + r.value <= held)
       <==> (cached <= held || cached <= working)
  {
    if cached > held && cached > working {
      var shares: nat := cached - working;
      assert ValidateSellShares(false, cached, shares, working) == Some(shares);
    }
  }

  // ---------------------------------------------------------------- the guard and the retry loop

  /** SELL shares working once one validated order has been through the retry
      loop, when `live` of its attempts live. */
  function AfterRetries(working: nat, order: nat, live: nat): nat { working + live * order }

  /** The guard checks an order once and the retry loop may send it three times.
      No account can be taken short by the two together exactly when at most one
      of the attempts sent is left alive. */
  lemma GuardSurvivesRetryExactly(replies: seq<R.Reply>, cancelled: seq<int>)
    requires |replies| == R.MAX_ORDER_RETRIES
    ensures var live := R.LiveCount(replies[..R.Sends(replies)], cancelled);
      (forall held: int, working: nat, shares: nat {:trigger ValidateSellShares(false, held, shares, working)} ::
         working <= held && ValidateSellShares(false, held, shares, working).Some? ==>
         AfterRetries(working, ValidateSellShares(false, held, shares, working).value, live) <= held)
      <==> live <= 1
  {
    var live := R.LiveCount(replies[..R.Sends(replies)], cancelled);
    if live > 1 {
      assert ValidateSellShares(false, 1, 1, 0) == Some(1);
      assert AfterRetries(0, 1, live) == live;
    }
  }

  /** The broker contract, with the cancels the daemon sends, is enough. */
  lemma ContractProtectsGuard(replies: seq<R.Reply>, cancelled: seq<int>, from: seq<nat>, held: int, working: nat, shares: nat)
    requires |replies| == R.MAX_ORDER_RETRIES && R.Honest(replies) && working <= held
    requires R.CancelsTimeouts(replies, R.Sends(replies) - 1, cancelled, from)
    ensures var v := ValidateSellShares(false, held, shares, working);
      v.Some? ==> AfterRetries(working, v.value, R.LiveCount(replies[..R.Sends(replies)], cancelled)) <= held
  {
    R.CancelledExactly(replies, R.Sends(replies) - 1, cancelled, from);
    R.AtMostOneLive(replies, cancelled);
  }

  /** Three attempts of 77 shares that no cancel reaches, against 155 held, end 76 short. */
  lemma ThreeLiveRetriesGoShort()
    ensures var replies := [R.Answer(R.Timeout, 1, true, false), R.Answer(R.Timeout, 2, true, false), R.Answer(R.Timeout, 3, true, false)];
      && ValidateSellShares(false, 155, 77, 0) == Some(77)
      && 155 - AfterRetries(0, 77, R.LiveCount(replies[..R.Sends(replies)], [1, 2])) == -76
  {
    var a, b, c := R.Answer(R.Timeout, 1, true, false), R.Answer(R.Timeout, 2, true, false), R.Answer(R.Timeout, 3, true, false);
    assert [a, b, c][..3] == [a, b, c] && [a, b, c][..2] == [a, b] && [a, b][..1] == [a] && [a][..0] == [];
    assert R.LiveCount([a], [1, 2]) == 1;
    assert R.LiveCount([a, b], [1, 2]) == 2;
  }

  // ---------------------------------------------------------------- one ticker

  /** `Accepted`: filled, partly filled or working.  `NothingLeft`: rejected, or
      timed out and dead.  `TimedOutLive`: the last attempt timed out but lives. */
  datatype Outcome = Accepted | NothingLeft | TimedOutLive

  /** Shares held, SELL shares working, and Phase 0's own holdings figure. */
  datatype Account = Account(held: int, working: nat, cached: Option<int>)

  datatype Event =
    | Snapshot
    | UrgentSell(shares: nat, outcome: Outcome)
    | UrgentCover
    | LeavePhase0
    | IntradaySell(shares: nat, outcome: Outcome)
    | SellFills(n: nat)
    | SellCancelled(n: nat)
    | Bought(n: nat)
    | BoughtWithStop(n: nat)

  predicate Enabled(a: Account, e: Event) {
    match e
    case UrgentSell(_, _) => a.cached.Some?
    case UrgentCover => a.cached.Some?
    case LeavePhase0 => a.cached.Some?
    case IntradaySell(_, _) => a.cached.None?
    case SellFills(n) => n <= a.working
    case SellCancelled(n) => n <= a.working
    case _ => true
  }

  /** Also covers a crash: `LeavePhase0` forgets the copy, `Snapshot` rereads. */
  function Apply(a: Account, e: Event): Account
    requires Enabled(a, e)
  {
    match e
    case Snapshot => a.(cached := Some(a.held))
    case UrgentSell(shares, outcome) =>
      (match ValidateSellShares(false, a.cached.value, shares, a.working)
       case None => a
       case Some(n) =>
         match outcome
         case Accepted => a.(working := a.working + n, cached := Some(a.cached.value - n))
         case NothingLeft => a
         case TimedOutLive => a.(working := a.working + n))
    case UrgentCover => a.(cached := Some(0))
    case LeavePhase0 => a.(cached := None)
    case IntradaySell(shares, outcome) =>
      (match ValidateSellShares(false, a.held, shares, a.working)
       case None => a
       case Some(n) => if outcome.NothingLeft? then a else a.(working := a.working + n))
    case SellFills(n) => a.(held := a.held - n, working := a.working - n)
    case SellCancelled(n) => a.(working := a.working - n)
    case Bought(n) => a.(held := a.held + n)
    case BoughtWithStop(n) => a.(held := a.held + n, working := a.working + n)
  }

  /** A sell of the machine, urgent or intraday, adds the lesser of its request and
      what is free to the working shares, unless nothing is free or it left nothing;
      only an accepted urgent one comes off the copy. */
  lemma SellsTheLesser(a: Account, shares: nat, outcome: Outcome)
    ensures a.cached.None? ==>
      var free := a.held - a.working;
      Apply(a, IntradaySell(shares, outcome)) == a.(working := a.working +
        if free <= 0 || outcome.NothingLeft? then 0 else if shares <= free then shares else free)
    ensures a.cached.Some? ==>
      var free := a.cached.value - a.working;
      var n := if free <= 0 || outcome.NothingLeft? then 0 else if shares <= free then shares else free;
      Apply(a, UrgentSell(shares, outcome))
        == a.(working := a.working + n, cached := Some(a.cached.value - if outcome.Accepted? then n else 0))
  {}

  datatype Run = Start(a: Account) | Then(prev: Run, e: Event)

  function End(r: Run): Account {
    match r
    case Start(a) => a
    case Then(prev, e) => if Enabled(End(prev), e) then Apply(End(prev), e) else End(prev)
  }

  function Origin(r: Run): Account {
    match r
    case Start(a) => a
    case Then(prev, _) => Origin(prev)
  }

  predicate Valid(r: Run) { r.Then? ==> Valid(r.prev) && Enabled(End(r.prev), r.e) }

  /** Enough shares are held to cover every working SELL. */
  predicate Covered(a: Account) { a.working <= a.held }

  /** An urgent sell of this Phase 0 timed out and its order lives on, uncounted
      in the copy of the holdings. */
  predicate Stale(r: Run) {
    r.Then? && !r.e.Snapshot? && (Stale(r.prev) || (r.e.UrgentSell? && r.e.outcome.TimedOutLive?))
  }

  /** Phase 0 starts with no SELL working, and sells nothing after an attempt
      that timed out and lives. */
  predicate Clean(r: Run) {
    r.Then? ==>
      && Clean(r.prev)
      && (r.e.Snapshot? ==> End(r.prev).working == 0)
      && (r.e.UrgentSell? ==> !Stale(r.prev))
  }

  /** The copy promises no more than is held free of working SELLs. */
  predicate CopyHolds(a: Account) { a.cached.Some? ==> a.cached.value + a.working <= a.held }

  lemma {:induction false} CoveredAlongRun(r: Run)
    requires Valid(r) && Clean(r) && Covered(Origin(r)) && CopyHolds(Origin(r))
    ensures Covered(End(r)) && (!Stale(r) ==> CopyHolds(End(r)))
  {
    if r.Then? { CoveredAlongRun(r.prev); }
  }

  /** Over every run of urgent exits and reduces, live and dead timeouts,
      intraday sells, fills, buys, crashes and replays that is clean, no SELL
      can take the account short. */
  lemma NeverShort(r: Run)
    requires Valid(r) && Clean(r) && Covered(Origin(r)) && Origin(r).cached.None?
    ensures Covered(End(r))
  {
    CoveredAlongRun(r);
  }

  // ---------------------------------------------------------------- when Phase 0 is safe

  /** How many urgent sells a run makes: one per urgent EXIT or REDUCE record of
      the ticker. */
  function UrgentSells(r: Run): nat {
    match r
    case Start(_) => 0
    case Then(prev, e) => UrgentSells(prev) + (if e.UrgentSell? then 1 else 0)
  }

  /** A continuation of Phase 0 from its holdings snapshot, making at most
      `records` urgent sells; `live` says whether a timed-out one can live on. */
  predicate InPhase0(r: Run, records: nat, live: bool) {
    && UrgentSells(r) <= records
    && NoSnapshot(r, live)
  }

  predicate NoSnapshot(r: Run, live: bool) {
    r.Then? ==> NoSnapshot(r.prev, live) && !r.e.Snapshot? && (r.e.UrgentSell? && !live ==> !r.e.outcome.TimedOutLive?)
  }

  lemma {:induction false} DeadTimeoutsAreClean(r: Run)
    requires NoSnapshot(r, false)
    ensures Clean(r) && !Stale(r)
  {
    if r.Then? { DeadTimeoutsAreClean(r.prev); }
  }

  lemma {:induction false} OneSellIsClean(r: Run)
    requires NoSnapshot(r, true) && UrgentSells(r) <= 1
    ensures Clean(r) && (UrgentSells(r) == 0 ==> !Stale(r))
  {
    if r.Then? { OneSellIsClean(r.prev); }
  }

  /** Without urgent sells the copy is never consulted. */
  lemma {:induction false} NoSellIsCovered(r: Run)
    requires Valid(r) && UrgentSells(r) == 0 && Covered(Origin(r))
    ensures Covered(End(r))
  {
    if r.Then? { NoSellIsCovered(r.prev); }
  }

  /** A snapshot of nothing leaves Phase 0 nothing to sell. */
  lemma {:induction false} NothingHeldIsCovered(r: Run, live: bool)
    requires Valid(r) && NoSnapshot(r, live) && Covered(Origin(r)) && Origin(r).cached == Some(0)
    ensures Covered(End(r)) && (End(r).cached.Some? ==> End(r).cached.value == 0)
  {
    if r.Then? { NothingHeldIsCovered(r.prev, live); }
  }

  /** What a caller can check before Phase 0: how many urgent sell records the
      ticker has, whether anything is held, whether a SELL is working, and
      whether the broker leaves timed-out orders alive. */
  predicate Phase0Safe(a: Account, records: nat, live: bool) {
    records == 0 || a.held == 0 || (a.working == 0 && (records == 1 || !live))
  }

  /** From a covered account, Phase 0 is safe for every continuation exactly when
      there is nothing to sell or to sell from, or no SELL was working as the
      holdings were read and either one record sells or no timed-out order lives. */
  lemma Phase0IsSafeExactly(a: Account, records: nat, live: bool)
    requires Covered(a)
    ensures (forall r :: Valid(r) && Origin(r) == Apply(a, Snapshot) && InPhase0(r, records, live) ==> Covered(End(r)))
       <==> Phase0Safe(a, records, live)
  {
    if Phase0Safe(a, records, live) {
      forall r | Valid(r) && Origin(r) == Apply(a, Snapshot) && InPhase0(r, records, live) ensures Covered(End(r)) {
        Phase0StaysCovered(a, records, live, r);
      }
    } else if a.working > 0 {
      var r := WorkingSellThenUrgent(a);
      assert InPhase0(r, records, live) && !Covered(End(r));
    } else {
      var r := LiveTimeoutThenUrgent(a);
      assert InPhase0(r, records, live) && !Covered(End(r));
    }
  }

  lemma Phase0StaysCovered(a: Account, records: nat, live: bool, r: Run)
    requires Covered(a) && Phase0Safe(a, records, live)
    requires Valid(r) && Origin(r) == Apply(a, Snapshot) && InPhase0(r, records, live)
    ensures Covered(End(r))
  {
    if records == 0 { NoSellIsCovered(r); }
    else if a.held == 0 { NothingHeldIsCovered(r, live); }
    else if !live { DeadTimeoutsAreClean(r); CoveredAlongRun(r); }
    else { OneSellIsClean(r); CoveredAlongRun(r); }
  }

  lemma Step(r: Run, e: Event) returns (r': Run)
    requires Valid(r) && Enabled(End(r), e)
    ensures Valid(r') && Origin(r') == Origin(r) && End(r') == Apply(End(r), e)
    ensures UrgentSells(r') == UrgentSells(r) + (if e.UrgentSell? then 1 else 0)
    ensures forall live :: NoSnapshot(r', live) <==>
      NoSnapshot(r, live) && !e.Snapshot? && (e.UrgentSell? && !live ==> !e.outcome.TimedOutLive?)
  {
    r' := Then(r, e);
  }

  /** One failing continuation: the working SELL fills, then an urgent exit for
      the whole snapshot holding is validated against the stale figure. */
  lemma WorkingSellThenUrgent(a: Account) returns (r: Run)
    requires Covered(a) && a.working > 0
    ensures Valid(r) && Origin(r) == Apply(a, Snapshot) && UrgentSells(r) == 1 && NoSnapshot(r, false) && NoSnapshot(r, true)
    ensures !Covered(End(r))
  {
    r := Step(Start(Apply(a, Snapshot)), SellFills(a.working));
    assert End(r) == Account(a.held - a.working, 0, Some(a.held));
    r := Step(r, UrgentSell(a.held, Accepted));
  }

  /** The other: a first urgent sell times out at the daemon and fills at the
      broker, and a second record of the ticker sells the whole snapshot. */
  lemma LiveTimeoutThenUrgent(a: Account) returns (r: Run)
    requires Covered(a) && a.working == 0 && a.held > 0
    ensures Valid(r) && Origin(r) == Apply(a, Snapshot) && UrgentSells(r) == 2 && NoSnapshot(r, true)
    ensures End(r) == Account(a.held - 1, a.held, Some(0)) && !Covered(End(r))
  {
    r := Step(Start(Apply(a, Snapshot)), UrgentSell(1, TimedOutLive));
    assert End(r) == Account(a.held, 1, Some(a.held));
    r := Step(r, SellFills(1));
    assert End(r) == Account(a.held - 1, 0, Some(a.held));
    r := Step(r, UrgentSell(a.held, Accepted));
  }

  /** How a crash gets there: an urgent exit is working but not yet saved, the
      restart replays it, and the first copy fills in between. */
  lemma CrashReplayGoesShort(shares: nat) returns (r: Run)
    requires shares > 0
    ensures Valid(r) && Origin(r) == Account(shares, 0, None) && End(r) == Account(0, shares, Some(0))
  {
    r := Step(Start(Account(shares, 0, None)), Snapshot);
    r := Step(r, UrgentSell(shares, Accepted));
    assert End(r) == Account(shares, shares, Some(0));
    r := Step(r, LeavePhase0);
    r := Step(r, Snapshot);
    r := Step(r, SellFills(shares));
    assert End(r) == Account(0, 0, Some(shares));
    r := Step(r, UrgentSell(shares, Accepted));
  }

  // ---------------------------------------------------------------- the program

  datatype Side = Exit | Reduce | Cover

  datatype Urgent = Urgent(ticker: Ticker, action: Side, shares: nat)

  function Of(m: map<Ticker, int>, t: Ticker): int { if t in m then m[t] else 0 }

  type Shares = map<Ticker, int>

  /** Every working SELL is covered by held shares. */
  ghost predicate AllCovered(held: Shares, working: Shares) {
    forall t :: 0 <= Of(working, t) <= Of(held, t)
  }

  /** Between two urgent records: every working SELL is covered, and for names
      without a live timeout the copy promises no more than is free, and shares
      sold plus shares in the copy never exceed the snapshot. */
  ghost predicate Phase0Inv(copy: Shares, held: Shares, working: Shares, sold: Shares, snapshot: Shares, stale: set<Ticker>) {
    && AllCovered(held, working)
    && (forall t :: 0 <= Of(sold, t) <= Of(snapshot, t))
    && (forall t :: t !in stale ==> 0 <= Of(copy, t) && Of(copy, t) + Of(working, t) <= Of(held, t))
    && (forall t :: t !in stale ==> Of(copy, t) + Of(sold, t) <= Of(snapshot, t))
  }

  /** What broker events can do between two daemon steps: fills and cancels take
      working SELLs away, and free shares never shrink. */
  ghost predicate BrokerMoved(held: Shares, working: Shares, held': Shares, working': Shares) {
    && (forall t :: 0 <= Of(working, t) ==> 0 <= Of(working', t) <= Of(working, t))
    && (forall t :: Of(held', t) - Of(working', t) >= Of(held, t) - Of(working, t))
  }

  function Add(m: Shares, t: Ticker, n: int): (r: Shares)
    ensures forall u :: Of(r, u) == Of(m, u) + (if u == t then n else 0)
  {
    m[t := Of(m, t) + n]
  }

  /** What one urgent record does to the working SELLs and to the copy: an
      order that timed out and lives works without being counted. */
  function Urge(copy: Shares, working: Shares, u: Urgent, outcome: Outcome): (r: (Shares, Shares, nat, bool))
    ensures outcome.Accepted? ==> r.3
  {
    if u.action == Cover then
      if outcome.Accepted? then (copy - {u.ticker}, working, 0, true) else (copy, working, 0, false)
    else
      match ValidateSellShares(false, Of(copy, u.ticker), u.shares, Of(working, u.ticker))
      case None => (copy, working, 0, true)
      case Some(n) =>
        match outcome
        case Accepted => (if u.ticker in copy then Add(copy, u.ticker, 0 - n) else copy, Add(working, u.ticker, n), n, true)
        case TimedOutLive => (copy, Add(working, u.ticker, n), n, false)
        case NothingLeft => (copy, working, 0, false)
  }

  predicate LivesOn(u: Urgent, outcome: Outcome) { u.action != Cover && outcome.TimedOutLive? }

  /** Names with an urgent sell that timed out and lives. */
  function LiveTimeouts(urgents: seq<Urgent>, outcomes: seq<Outcome>): set<Ticker>
    requires |outcomes| == |urgents|
  {
    set i | 0 <= i < |urgents| && LivesOn(urgents[i], outcomes[i]) :: urgents[i].ticker
  }

  /** No urgent sell follows a live timeout of its own name. */
  ghost predicate Careful(urgents: seq<Urgent>, outcomes: seq<Outcome>)
    requires |outcomes| == |urgents|
  {
    forall i, j :: 0 <= i < j < |urgents| && LivesOn(urgents[i], outcomes[i]) && urgents[j].action != Cover
      ==> urgents[j].ticker != urgents[i].ticker
  }

  /** One sell record per name, or no live timeout at all, is enough. */
  lemma CarefulWhen(urgents: seq<Urgent>, outcomes: seq<Outcome>)
    requires |outcomes| == |urgents|
    requires (forall i, j :: 0 <= i < j < |urgents| && urgents[i].action != Cover && urgents[j].action != Cover
                ==> urgents[i].ticker != urgents[j].ticker)
             || forall i :: 0 <= i < |urgents| ==> !LivesOn(urgents[i], outcomes[i])
    ensures Careful(urgents, outcomes)
  {}

  lemma LiveTimeoutsNext(urgents: seq<Urgent>, outcomes: seq<Outcome>, i: nat)
    requires |outcomes| == |urgents| && i < |urgents|
    ensures LiveTimeouts(urgents[..i + 1], outcomes[..i + 1])
         == LiveTimeouts(urgents[..i], outcomes[..i]) + (if LivesOn(urgents[i], outcomes[i]) then {urgents[i].ticker} else {})
    ensures Careful(urgents, outcomes) && urgents[i].action != Cover ==> urgents[i].ticker !in LiveTimeouts(urgents[..i], outcomes[..i])
  {}

  lemma UrgeKeeps(copy: Shares, held: Shares, working: Shares, sold: Shares, snapshot: Shares, stale: set<Ticker>,
                  u: Urgent, outcome: Outcome)
    requires Phase0Inv(copy, held, working, sold, snapshot, stale) && (u.action != Cover ==> u.ticker !in stale)
    ensures var (copy', working', n, _) := Urge(copy, working, u, outcome);
      Phase0Inv(copy', held, working', Add(sold, u.ticker, n), snapshot, stale + (if LivesOn(u, outcome) then {u.ticker} else {}))
  {
    var (copy', working', n, _) := Urge(copy, working, u, outcome);
    var sold' := Add(sold, u.ticker, n);
    var stale' := stale + (if LivesOn(u, outcome) then {u.ticker} else {});
    forall t
      ensures 0 <= Of(working', t) <= Of(held, t) && 0 <= Of(sold', t) <= Of(snapshot, t)
      ensures t !in stale' ==> 0 <= Of(copy', t) && Of(copy', t) + Of(working', t) <= Of(held, t)
      ensures t !in stale' ==> Of(copy', t) + Of(sold', t) <= Of(snapshot, t)
    {
      assert 0 <= Of(working, t) <= Of(held, t) && 0 <= Of(sold, t) <= Of(snapshot, t);
      if t !in stale {
        assert 0 <= Of(copy, t) && Of(copy, t) + Of(working, t) <= Of(held, t);
        assert Of(copy, t) + Of(sold, t) <= Of(snapshot, t);
      }
    }
  }

  lemma BrokerMovedKeeps(copy: Shares, held: Shares, working: Shares, sold: Shares, snapshot: Shares, stale: set<Ticker>,
                         held': Shares, working': Shares)
    requires Phase0Inv(copy, held, working, sold, snapshot, stale) && BrokerMoved(held, working, held', working')
    ensures Phase0Inv(copy, held', working', sold, snapshot, stale)
  {
    forall t
      ensures 0 <= Of(working', t) <= Of(held', t)
      ensures t !in stale ==> 0 <= Of(copy, t) && Of(copy, t) + Of(working', t) <= Of(held', t)
    {
      assert 0 <= Of(working, t) <= Of(held, t);
      assert Of(held', t) - Of(working', t) >= Of(held, t) - Of(working, t);
    }
  }

  /** Broker events, then one urgent record. */
  lemma RoundKeeps(copy: Shares, held: Shares, working: Shares, sold: Shares, snapshot: Shares, stale: set<Ticker>,
                   held': Shares, working': Shares, u: Urgent, outcome: Outcome)
    requires Phase0Inv(copy, held, working, sold, snapshot, stale) && BrokerMoved(held, working, held', working')
    requires u.action != Cover ==> u.ticker !in stale
    ensures var (copy', working'', n, _) := Urge(copy, working', u, outcome);
      Phase0Inv(copy', held', working'', Add(sold, u.ticker, n), snapshot, stale + (if LivesOn(u, outcome) then {u.ticker} else {}))
  {
    BrokerMovedKeeps(copy, held, working, sold, snapshot, stale, held', working');
    UrgeKeeps(copy, held', working', sold, snapshot, stale, u, outcome);
    hide Phase0Inv, BrokerMoved, Urge;
  }

  /** Holdings cover everything and no SELL is working. */
  ghost predicate Quiet(held: Shares, working: Shares) {
    AllCovered(held, working) && forall t :: Of(working, t) == 0
  }

  lemma Phase0Begins(held: Shares, working: Shares)
    requires Quiet(held, working)
    ensures Phase0Inv(held, held, working, map[], held, {})
  {
    forall t ensures 0 <= Of(held, t) && Of(working, t) == 0 {
      assert 0 <= Of(working, t) <= Of(held, t);
    }
  }

  lemma Phase0Ends(copy: Shares, held: Shares, working: Shares, sold: Shares, snapshot: Shares, stale: set<Ticker>)
    requires Phase0Inv(copy, held, working, sold, snapshot, stale)
    ensures AllCovered(held, working) && forall t :: 0 <= Of(sold, t) <= Of(snapshot, t)
  {}

  // ---------------------------------------------------------------- what Phase 0 orders

  function Sent(u: Urgent, n: int, t: Ticker): int { if u.ticker == t then n else 0 }

  /** What the first `i` records ordered of `t`. */
  function SoldOf(urgents: seq<Urgent>, ordered: seq<nat>, i: nat, t: Ticker): int
    requires i <= |urgents| && i <= |ordered|
  {
    if i == 0 then 0 else SoldOf(urgents, ordered, i - 1, t) + Sent(urgents[i - 1], ordered[i - 1], t)
  }

  /** What the accepted among them ordered. */
  function Taken(urgents: seq<Urgent>, outcomes: seq<Outcome>, ordered: seq<nat>, i: nat, t: Ticker): int
    requires i <= |urgents| == |outcomes| && i <= |ordered|
  {
    if i == 0 then 0
    else Taken(urgents, outcomes, ordered, i - 1, t) + (if outcomes[i - 1].Accepted? then Sent(urgents[i - 1], ordered[i - 1], t) else 0)
  }

  /** What the copy still holds of `t` for record `i`: the snapshot less the
      accepted sells before it, and nothing once a cover of it was accepted. */
  ghost function Left(urgents: seq<Urgent>, outcomes: seq<Outcome>, ordered: seq<nat>, snapshot: Shares, i: nat, t: Ticker): int
    requires i <= |urgents| == |outcomes| && i <= |ordered|
  {
    if t !in snapshot || exists j :: 0 <= j < i && urgents[j] == Urgent(t, Cover, urgents[j].shares) && outcomes[j].Accepted? then 0
    else snapshot[t] - Taken(urgents, outcomes, ordered, i, t)
  }

  /** Between two records only the broker moved: sells are filled or cancelled, and
      nothing else takes free shares away. */
  ghost predicate MovedAt(urgents: seq<Urgent>, ordered: seq<nat>, held: Shares, working: Shares,
                          seen: seq<(Shares, Shares)>, i: nat, t: Ticker)
    requires |ordered| == |seen| <= |urgents| && i < |seen|
  {
    var h := if i == 0 then Of(held, t) else Of(seen[i - 1].0, t);
    var w := if i == 0 then Of(working, t) else Of(seen[i - 1].1, t) + Sent(urgents[i - 1], ordered[i - 1], t);
    (0 <= w ==> 0 <= Of(seen[i].1, t) <= w) && Of(seen[i].0, t) - Of(seen[i].1, t) >= h - w
  }

  ghost predicate Unfolds(urgents: seq<Urgent>, ordered: seq<nat>, held: Shares, working: Shares, seen: seq<(Shares, Shares)>)
    requires |ordered| == |seen| <= |urgents|
  {
    forall i, t :: 0 <= i < |seen| ==> MovedAt(urgents, ordered, held, working, seen, i, t)
  }

  /** The copy of the holdings, name by name. */
  ghost predicate CopyIs(copy: Shares, urgents: seq<Urgent>, outcomes: seq<Outcome>, ordered: seq<nat>, snapshot: Shares, i: nat)
    requires i <= |urgents| == |outcomes| && i <= |ordered|
  {
    forall t :: Of(copy, t) == Left(urgents, outcomes, ordered, snapshot, i, t)
      && (t in copy <==> t in snapshot && !exists j :: 0 <= j < i && urgents[j] == Urgent(t, Cover, urgents[j].shares) && outcomes[j].Accepted?)
  }

  lemma {:induction false} SumsOfPrefix(urgents: seq<Urgent>, outcomes: seq<Outcome>, ordered: seq<nat>, n: nat, i: nat, t: Ticker)
    requires i <= |ordered| <= |urgents| == |outcomes|
    ensures Taken(urgents, outcomes, ordered + [n], i, t) == Taken(urgents, outcomes, ordered, i, t)
    ensures SoldOf(urgents, ordered + [n], i, t) == SoldOf(urgents, ordered, i, t)
  {
    if i > 0 { SumsOfPrefix(urgents, outcomes, ordered, n, i - 1, t); }
  }

  lemma CopyNext(copy: Shares, urgents: seq<Urgent>, outcomes: seq<Outcome>, ordered: seq<nat>, snapshot: Shares, working: Shares)
    requires |ordered| < |urgents| == |outcomes| && CopyIs(copy, urgents, outcomes, ordered, snapshot, |ordered|)
    ensures var i := |ordered|; var (copy', _, n, _) := Urge(copy, working, urgents[i], outcomes[i]);
      CopyIs(copy', urgents, outcomes, ordered + [n], snapshot, i + 1)
  {
    var i := |ordered|;
    var u := urgents[i];
    var (copy', _, n, _) := Urge(copy, working, u, outcomes[i]);
    forall t
      ensures Of(copy', t) == Left(urgents, outcomes, ordered + [n], snapshot, i + 1, t)
      ensures t in copy' <==> t in snapshot && !exists j :: 0 <= j < i + 1 && urgents[j] == Urgent(t, Cover, urgents[j].shares) && outcomes[j].Accepted?
    {
      SumsOfPrefix(urgents, outcomes, ordered, n, i, t);
      assert Of(copy, t) == Left(urgents, outcomes, ordered, snapshot, i, t);
      if u.action == Cover && outcomes[i].Accepted? && u.ticker == t { assert urgents[i] == Urgent(t, Cover, u.shares); }
    }
  }

  /** One sell record per name, all accepted, from quiet holdings: each orders the
      lesser of its request and the snapshot holding. */
  lemma QuietSells(urgents: seq<Urgent>, outcomes: seq<Outcome>, ordered: seq<nat>, free: seq<int>,
                   held: Shares, working: Shares, seen: seq<(Shares, Shares)>, i: nat)
    requires |ordered| == |free| == |seen| == |urgents| == |outcomes| && i < |urgents|
    requires Quiet(held, working) && Unfolds(urgents, ordered, held, working, seen)
    requires forall j, k :: 0 <= j < k < |urgents| ==> urgents[j].ticker != urgents[k].ticker
    requires free[i] == Left(urgents, outcomes, ordered, held, i, urgents[i].ticker) - Of(seen[i].1, urgents[i].ticker)
    ensures free[i] == Of(held, urgents[i].ticker)
  {
    var t := urgents[i].ticker;
    NothingTaken(urgents, outcomes, ordered, i, t);
    NothingWorks(urgents, ordered, held, working, seen, i, t);
  }

  lemma {:induction false} NothingTaken(urgents: seq<Urgent>, outcomes: seq<Outcome>, ordered: seq<nat>, i: nat, t: Ticker)
    requires i <= |urgents| == |outcomes| == |ordered| && forall j :: 0 <= j < i ==> urgents[j].ticker != t
    ensures Taken(urgents, outcomes, ordered, i, t) == 0
  {
    if i > 0 { NothingTaken(urgents, outcomes, ordered, i - 1, t); }
  }

  lemma {:induction false} NothingWorks(urgents: seq<Urgent>, ordered: seq<nat>, held: Shares, working: Shares,
                                        seen: seq<(Shares, Shares)>, i: nat, t: Ticker)
    requires |ordered| == |seen| == |urgents| && i < |seen| && Unfolds(urgents, ordered, held, working, seen)
    requires Of(working, t) == 0 && forall j :: 0 <= j < i ==> urgents[j].ticker != t
    ensures Of(seen[i].1, t) == 0
  {
    assert MovedAt(urgents, ordered, held, working, seen, i, t);
    if i > 0 { NothingWorks(urgents, ordered, held, working, seen, i - 1, t); }
  }

  /** What one record orders and whether it is marked, by what its name has free. */
  predicate Ordered(u: Urgent, outcome: Outcome, free: int, n: nat, mark: bool) {
    && n == (if u.action == Cover || outcome.NothingLeft? || free <= 0 then 0 else if u.shares <= free then u.shares else free)
    && (!mark <==> (u.action == Cover || free > 0) && !outcome.Accepted?)
  }

  lemma OrderedByUrge(copy: Shares, working: Shares, u: Urgent, outcome: Outcome)
    ensures var (_, working', n, mark) := Urge(copy, working, u, outcome);
      && Ordered(u, outcome, Of(copy, u.ticker) - Of(working, u.ticker), n, mark)
      && forall t :: Of(working', t) == Of(working, t) + Sent(u, n, t)
  {}

  lemma CopyStarts(urgents: seq<Urgent>, outcomes: seq<Outcome>, held: Shares, working: Shares)
    requires |outcomes| == |urgents|
    ensures CopyIs(held, urgents, outcomes, [], held, 0)
    ensures Logged(Log([], [], [], []), urgents, outcomes, held, working, 0)
    ensures Stands(Log([], [], [], []), urgents, held, working, held, working)
    ensures forall t :: SoldOf(urgents, [], 0, t) == 0
  {}


  lemma FreeIs(copy: Shares, urgents: seq<Urgent>, outcomes: seq<Outcome>, ordered: seq<nat>, snapshot: Shares, t: Ticker)
    requires |ordered| < |urgents| == |outcomes| && CopyIs(copy, urgents, outcomes, ordered, snapshot, |ordered|)
    ensures Of(copy, t) == Left(urgents, outcomes, ordered, snapshot, |ordered|, t)
  {}

  lemma PrefixNext(urgents: seq<Urgent>, outcomes: seq<Outcome>, ordered: seq<nat>, snapshot: Shares, n: nat)
    requires |ordered| < |urgents| == |outcomes|
    ensures forall j, t :: 0 <= j <= |ordered| ==> Left(urgents, outcomes, ordered + [n], snapshot, j, t) == Left(urgents, outcomes, ordered, snapshot, j, t)
    ensures forall t :: SoldOf(urgents, ordered + [n], |ordered| + 1, t) == SoldOf(urgents, ordered, |ordered|, t) + Sent(urgents[|ordered|], n, t)
  {
    forall j, t | 0 <= j <= |ordered|
      ensures Left(urgents, outcomes, ordered + [n], snapshot, j, t) == Left(urgents, outcomes, ordered, snapshot, j, t)
    {
      SumsOfPrefix(urgents, outcomes, ordered, n, j, t);
    }
    forall t ensures SoldOf(urgents, ordered + [n], |ordered| + 1, t) == SoldOf(urgents, ordered, |ordered|, t) + Sent(urgents[|ordered|], n, t) {
      SumsOfPrefix(urgents, outcomes, ordered, n, |ordered|, t);
    }
  }

  lemma QuietHolds(held: Shares, working: Shares)
    requires Quiet(held, working)
    ensures forall t :: 0 <= Of(held, t)
  {
    forall t ensures 0 <= Of(held, t) { assert 0 <= Of(working, t) <= Of(held, t); }
  }

  lemma UnfoldsNext(urgents: seq<Urgent>, ordered: seq<nat>, held: Shares, working: Shares, seen: seq<(Shares, Shares)>,
                    h: Shares, w: Shares, h': Shares, w': Shares, n: nat)
    requires |ordered| == |seen| < |urgents| && Unfolds(urgents, ordered, held, working, seen)
    requires BrokerMoved(h, w, h', w')
    requires forall t :: Of(h, t) == (if seen == [] then Of(held, t) else Of(seen[|seen| - 1].0, t))
    requires forall t :: Of(w, t) == if seen == [] then Of(working, t)
      else Of(seen[|seen| - 1].1, t) + Sent(urgents[|seen| - 1], ordered[|seen| - 1], t)
    ensures Unfolds(urgents, ordered + [n], held, working, seen + [(h', w')])
  {
    var more, orders, k := seen + [(h', w')], ordered + [n], |seen|;
    assert forall j :: 0 <= j < k ==> more[j] == seen[j] && orders[j] == ordered[j];
    forall i, t | 0 <= i < |more| ensures MovedAt(urgents, orders, held, working, more, i, t) {
      if i < k {
        assert MovedAt(urgents, ordered, held, working, seen, i, t);
      } else {
        assert 0 <= Of(w, t) ==> 0 <= Of(w', t) <= Of(w, t);
        assert Of(h', t) - Of(w', t) >= Of(h, t) - Of(w, t);
      }
    }
  }

  /** What has been ordered and marked so far, and where the desk stands. */
  datatype Log = Log(marks: seq<bool>, ordered: seq<nat>, free: seq<int>, seen: seq<(Shares, Shares)>)

  ghost predicate Logged(l: Log, urgents: seq<Urgent>, outcomes: seq<Outcome>, held0: Shares, working0: Shares, i: nat) {
    && |l.marks| == |l.ordered| == |l.free| == |l.seen| == i <= |urgents| == |outcomes|
    && Unfolds(urgents, l.ordered, held0, working0, l.seen)
    && (forall j :: 0 <= j < i ==> Ordered(urgents[j], outcomes[j], l.free[j], l.ordered[j], l.marks[j]))
    && (forall j :: 0 <= j < i ==>
          l.free[j] == Left(urgents, outcomes, l.ordered, held0, j, urgents[j].ticker) - Of(l.seen[j].1, urgents[j].ticker))
  }

  ghost predicate Stands(l: Log, urgents: seq<Urgent>, held0: Shares, working0: Shares, held: Shares, working: Shares)
    requires |l.ordered| == |l.seen| <= |urgents|
  {
    var i := |l.seen|;
    && held == (if i == 0 then held0 else l.seen[i - 1].0)
    && forall t :: Of(working, t) == if i == 0 then Of(working0, t) else Of(l.seen[i - 1].1, t) + Sent(urgents[i - 1], l.ordered[i - 1], t)
  }

  /** The log with one record more. */
  ghost function Extended(l: Log, copy: Shares, h: Shares, w: Shares, u: Urgent, outcome: Outcome): Log {
    Log(l.marks + [Urge(copy, w, u, outcome).3], l.ordered + [Urge(copy, w, u, outcome).2],
        l.free + [Of(copy, u.ticker) - Of(w, u.ticker)], l.seen + [(h, w)])
  }

  lemma LogNext(l: Log, urgents: seq<Urgent>, outcomes: seq<Outcome>, held0: Shares, working0: Shares, i: nat,
                copy: Shares, h: Shares, w: Shares, h': Shares, w': Shares)
    requires i < |urgents| && Logged(l, urgents, outcomes, held0, working0, i) && Stands(l, urgents, held0, working0, h, w)
    requires BrokerMoved(h, w, h', w') && CopyIs(copy, urgents, outcomes, l.ordered, held0, i)
    ensures Logged(Extended(l, copy, h', w', urgents[i], outcomes[i]), urgents, outcomes, held0, working0, i + 1)
  {
    hide Left, Ordered, Urge, BrokerMoved, SoldOf, CopyIs;
    UnfoldsNext(urgents, l.ordered, held0, working0, l.seen, h, w, h', w', Urge(copy, w', urgents[i], outcomes[i]).2);
    OrdersNext(l, urgents, outcomes, held0, working0, i, copy, h', w');
    FreesNext(l, urgents, outcomes, held0, working0, i, copy, h', w');
    hide Unfolds, Stands;
  }

  lemma OrdersNext(l: Log, urgents: seq<Urgent>, outcomes: seq<Outcome>, held0: Shares, working0: Shares, i: nat,
                   copy: Shares, h: Shares, w: Shares)
    requires i < |urgents| && Logged(l, urgents, outcomes, held0, working0, i)
    ensures var l' := Extended(l, copy, h, w, urgents[i], outcomes[i]);
      forall j :: 0 <= j < i + 1 ==> Ordered(urgents[j], outcomes[j], l'.free[j], l'.ordered[j], l'.marks[j])
  {
    OrderedByUrge(copy, w, urgents[i], outcomes[i]);
    hide Unfolds, Left, Ordered, Urge;
  }

  lemma FreesNext(l: Log, urgents: seq<Urgent>, outcomes: seq<Outcome>, held0: Shares, working0: Shares, i: nat,
                  copy: Shares, h: Shares, w: Shares)
    requires i < |urgents| && Logged(l, urgents, outcomes, held0, working0, i) && CopyIs(copy, urgents, outcomes, l.ordered, held0, i)
    ensures var l' := Extended(l, copy, h, w, urgents[i], outcomes[i]);
      forall j :: 0 <= j < i + 1 ==>
        l'.free[j] == Left(urgents, outcomes, l'.ordered, held0, j, urgents[j].ticker) - Of(l'.seen[j].1, urgents[j].ticker)
  {
    FreeIs(copy, urgents, outcomes, l.ordered, held0, urgents[i].ticker);
    PrefixNext(urgents, outcomes, l.ordered, held0, Urge(copy, w, urgents[i], outcomes[i]).2);
    hide Unfolds, CopyIs, Left, Ordered, Urge, SoldOf;
    var l' := Extended(l, copy, h, w, urgents[i], outcomes[i]);
    forall j | 0 <= j < i + 1
      ensures l'.free[j] == Left(urgents, outcomes, l'.ordered, held0, j, urgents[j].ticker) - Of(l'.seen[j].1, urgents[j].ticker)
    {
      if j < i { assert l'.free[j] == l.free[j] && l'.seen[j] == l.seen[j]; }
    }
  }

  lemma StandsNext(l: Log, urgents: seq<Urgent>, held0: Shares, working0: Shares, copy: Shares, h: Shares, w: Shares, outcome: Outcome)
    requires |l.ordered| == |l.seen| < |urgents|
    ensures var u := urgents[|l.seen|];
      Stands(Extended(l, copy, h, w, u, outcome), urgents, held0, working0, h, Urge(copy, w, u, outcome).1)
  {
    OrderedByUrge(copy, w, urgents[|l.seen|], outcome);
    hide Urge, Ordered;
  }

  /** How the safety argument stands: `sold` is what the log says was ordered. */
  ghost predicate Safely(safe: bool, copy: Shares, held: Shares, working: Shares, ordered: seq<nat>, snapshot: Shares,
                         urgents: seq<Urgent>, outcomes: seq<Outcome>, i: nat, sold: Shares)
    requires i <= |urgents| == |outcomes| && i <= |ordered|
  {
    && (safe ==> Phase0Inv(copy, held, working, sold, snapshot, LiveTimeouts(urgents[..i], outcomes[..i])))
    && forall t :: Of(sold, t) == SoldOf(urgents, ordered, i, t)
  }

  lemma SafelyNext(safe: bool, copy: Shares, h: Shares, w: Shares, h': Shares, w': Shares, ordered: seq<nat>, snapshot: Shares,
                   urgents: seq<Urgent>, outcomes: seq<Outcome>, i: nat, sold: Shares)
    requires i == |ordered| < |urgents| == |outcomes| && (safe ==> Careful(urgents, outcomes))
    requires Safely(safe, copy, h, w, ordered, snapshot, urgents, outcomes, i, sold) && BrokerMoved(h, w, h', w')
    ensures var (copy', w'', n, _) := Urge(copy, w', urgents[i], outcomes[i]);
      Safely(safe, copy', h', w'', ordered + [n], snapshot, urgents, outcomes, i + 1, Add(sold, urgents[i].ticker, n))
  {
    LiveTimeoutsNext(urgents, outcomes, i);
    var (copy', w'', n, _) := Urge(copy, w', urgents[i], outcomes[i]);
    if safe {
      RoundKeeps(copy, h, w, sold, snapshot, LiveTimeouts(urgents[..i], outcomes[..i]), h', w', urgents[i], outcomes[i]);
    }
    PrefixNext(urgents, outcomes, ordered, snapshot, n);
    hide Phase0Inv, BrokerMoved, LiveTimeouts, Careful, Urge, LivesOn, SoldOf, Left;
  }

  /** Everything the loop keeps. */
  ghost predicate Progress(safe: bool, l: Log, urgents: seq<Urgent>, outcomes: seq<Outcome>, held0: Shares, working0: Shares,
                           i: nat, copy: Shares, held: Shares, working: Shares, sold: Shares) {
    && Logged(l, urgents, outcomes, held0, working0, i) && Stands(l, urgents, held0, working0, held, working)
    && CopyIs(copy, urgents, outcomes, l.ordered, held0, i)
    && Safely(safe, copy, held, working, l.ordered, held0, urgents, outcomes, i, sold)
  }

  lemma ProgressNext(safe: bool, l: Log, urgents: seq<Urgent>, outcomes: seq<Outcome>, held0: Shares, working0: Shares,
                     i: nat, copy: Shares, h: Shares, w: Shares, h': Shares, w': Shares, sold: Shares)
    requires i < |urgents| == |outcomes| && (safe ==> Careful(urgents, outcomes)) && BrokerMoved(h, w, h', w')
    requires Progress(safe, l, urgents, outcomes, held0, working0, i, copy, h, w, sold)
    ensures var (copy', w'', n, _) := Urge(copy, w', urgents[i], outcomes[i]);
      Progress(safe, Extended(l, copy, h', w', urgents[i], outcomes[i]), urgents, outcomes, held0, working0,
               i + 1, copy', h', w'', Add(sold, urgents[i].ticker, n))
  {
    hide Careful, BrokerMoved, Urge, Phase0Inv, Unfolds, Left, Ordered, SoldOf, LiveTimeouts;
    SafelyNext(safe, copy, h, w, h', w', l.ordered, held0, urgents, outcomes, i, sold);
    LogNext(l, urgents, outcomes, held0, working0, i, copy, h, w, h', w');
    StandsNext(l, urgents, held0, working0, copy, h', w', outcomes[i]);
    CopyNext(copy, urgents, outcomes, l.ordered, held0, w');
    hide Logged, Stands, CopyIs, Safely;
  }

  lemma ProgressStarts(safe: bool, urgents: seq<Urgent>, outcomes: seq<Outcome>, held: Shares, working: Shares)
    requires |urgents| == |outcomes| && (safe ==> Quiet(held, working))
    ensures Progress(safe, Log([], [], [], []), urgents, outcomes, held, working, 0, held, held, working, map[])
  {
    if safe { Phase0Begins(held, working); }
    assert LiveTimeouts(urgents[..0], outcomes[..0]) == {};
    CopyStarts(urgents, outcomes, held, working);
    hide Phase0Inv, LiveTimeouts, Quiet, CopyIs, Logged, Stands, SoldOf;
  }

  lemma SafelyEnds(safe: bool, copy: Shares, held: Shares, working: Shares, ordered: seq<nat>, snapshot: Shares,
                   urgents: seq<Urgent>, outcomes: seq<Outcome>, sold: Shares)
    requires |ordered| == |urgents| == |outcomes|
    requires Safely(safe, copy, held, working, ordered, snapshot, urgents, outcomes, |urgents|, sold)
    ensures safe ==> AllCovered(held, working) && forall t :: 0 <= SoldOf(urgents, ordered, |urgents|, t) <= Of(snapshot, t)
  {
    if safe { Phase0Ends(copy, held, working, sold, snapshot, LiveTimeouts(urgents[..|urgents|], outcomes[..|urgents|])); }
    hide Phase0Inv, LiveTimeouts, SoldOf, AllCovered;
  }

  lemma Finishes(safe: bool, l: Log, urgents: seq<Urgent>, outcomes: seq<Outcome>, held0: Shares, working0: Shares,
                 copy: Shares, held: Shares, working: Shares, sold: Shares)
    requires Progress(safe, l, urgents, outcomes, held0, working0, |urgents|, copy, held, working, sold)
    ensures Logged(l, urgents, outcomes, held0, working0, |urgents|) && Stands(l, urgents, held0, working0, held, working)
    ensures safe ==> AllCovered(held, working) && forall t :: 0 <= SoldOf(urgents, l.ordered, |urgents|, t) <= Of(held0, t)
  {
    SafelyEnds(safe, copy, held, working, l.ordered, held0, urgents, outcomes, sold);
  }

  class Desk {
    var held: Shares
    var working: Shares
    var cached: Shares

    /** Broker events.  Nothing is done here; callers learn only the clauses. */
    method Interference()
      modifies this`held, this`working
      ensures BrokerMoved(old(held), old(working), held, working)
    {
    }

    /** One urgent record; `mark` says whether it is marked executed. */
    method ExecuteUrgent(u: Urgent, outcome: Outcome) returns (mark: bool, n: nat)
      modifies this`working, this`cached
      ensures (cached, working, n, mark) == Urge(old(cached), old(working), u, outcome)
    {
      var t := u.ticker;
      mark, n := false, 0;
      if u.action == Cover {
        if outcome.Accepted? {
          mark := true;
          cached := cached - {t};
        }
        return;
      }
      var v := ValidateSellShares(false, Of(cached, t), u.shares, Of(working, t));
      if v == None {
        mark := true;
        return;
      }
      if outcome.NothingLeft? { return; }
      n := v.value;
      working := Add(working, t, n);
      if outcome.Accepted? {
        mark := true;
        if t in cached { cached := Add(cached, t, 0 - n); }
      }
    }

    /** Phase 0: urgent records against one snapshot of the holdings, in list
        order, with broker events before each of them.  `ordered` is what each
        record ordered, `free` what its name had free when it was reached, and
        `seen` the broker's own figures at that moment.
        A record orders the lesser of its request and what is free, unless it
        left nothing, and is left unmarked exactly when an order was attempted and
        not accepted.  From quiet holdings, and when no sell follows a live timeout
        of its own name, no name sells more than the snapshot held and every SELL
        stays covered. */
    method Phase0(urgents: seq<Urgent>, outcomes: seq<Outcome>)
      returns (marks: seq<bool>, ordered: seq<nat>, free: seq<int>, ghost seen: seq<(Shares, Shares)>)
      requires |outcomes| == |urgents|
      modifies this
      ensures |marks| == |ordered| == |free| == |seen| == |urgents|
      ensures forall i :: 0 <= i < |urgents| ==>
        && ordered[i] == (if urgents[i].action == Cover || outcomes[i].NothingLeft? || free[i] <= 0 then 0
                          else if urgents[i].shares <= free[i] then urgents[i].shares else free[i])
        && (!marks[i] <==> (urgents[i].action == Cover || free[i] > 0) && !outcomes[i].Accepted?)
        && free[i] == Left(urgents, outcomes, ordered, old(held), i, urgents[i].ticker) - Of(seen[i].1, urgents[i].ticker)
      ensures Unfolds(urgents, ordered, old(held), old(working), seen)
      ensures urgents == [] ==> held == old(held) && working == old(working)
      ensures urgents != [] ==> held == seen[|seen| - 1].0
      ensures urgents != [] ==>
        forall t :: Of(working, t) == Of(seen[|seen| - 1].1, t) + Sent(urgents[|urgents| - 1], ordered[|urgents| - 1], t)
      ensures old(Quiet(held, working)) && Careful(urgents, outcomes) ==>
        AllCovered(held, working) && forall t :: 0 <= SoldOf(urgents, ordered, |urgents|, t) <= old(Of(held, t))
      ensures old(Quiet(held, working)) ==> (forall i :: 0 <= i < |outcomes| ==> outcomes[i].Accepted?) ==>
        (forall i, j :: 0 <= i < j < |urgents| ==> urgents[i].ticker != urgents[j].ticker) ==>
        forall i :: 0 <= i < |urgents| && urgents[i].action != Cover ==>
          ordered[i] == if urgents[i].shares <= old(Of(held, urgents[i].ticker)) then urgents[i].shares else old(Of(held, urgents[i].ticker))
    {
      ghost var h0, w0 := held, working;
      ghost var l;
      marks, ordered, free, l := ExecuteUrgents(urgents, outcomes);
      seen := l.seen;
      if Quiet(h0, w0) && forall i, j :: 0 <= i < j < |urgents| ==> urgents[i].ticker != urgents[j].ticker {
        forall i | 0 <= i < |urgents| ensures free[i] == Of(h0, urgents[i].ticker) >= 0 {
          QuietSells(urgents, outcomes, ordered, free, h0, w0, seen, i);
          QuietHolds(h0, w0);
        }
      }
      hide Unfolds, Left, SoldOf, Careful, Quiet, AllCovered;
    }

    /** The records in order, against their log. */
    method ExecuteUrgents(urgents: seq<Urgent>, outcomes: seq<Outcome>)
      returns (marks: seq<bool>, ordered: seq<nat>, free: seq<int>, ghost l: Log)
      requires |outcomes| == |urgents|
      modifies this
      ensures l == Log(marks, ordered, free, l.seen) && Logged(l, urgents, outcomes, old(held), old(working), |urgents|)
      ensures Stands(l, urgents, old(held), old(working), held, working)
      ensures urgents == [] ==> working == old(working)
      ensures old(Quiet(held, working)) && Careful(urgents, outcomes) ==>
        AllCovered(held, working) && forall t :: 0 <= SoldOf(urgents, ordered, |urgents|, t) <= old(Of(held, t))
    {
      hide Phase0Inv, BrokerMoved, LiveTimeouts, Careful, Quiet, Urge, AllCovered, CopyIs, Logged, Stands, SoldOf, Left, Safely, Progress;
      ghost var h0, w0 := held, working;
      ghost var safe := Quiet(held, working) && Careful(urgents, outcomes);
      cached := held;
      marks, ordered, free, l := [], [], [], Log([], [], [], []);
      ghost var sold: Shares := map[];
      ProgressStarts(safe, urgents, outcomes, h0, w0);
      for i := 0 to |urgents|
        invariant |ordered| == i && l == Log(marks, ordered, free, l.seen)
        invariant Progress(safe, l, urgents, outcomes, h0, w0, i, cached, held, working, sold)
        invariant i == 0 ==> working == w0
      {
        ghost var copy, h, w := cached, held, working;
        var mark, n, left;
        ghost var w1;
        mark, n, left, w1 := UrgentRound(urgents[i], outcomes[i]);
        ProgressNext(safe, l, urgents, outcomes, h0, w0, i, copy, h, w, held, w1, sold);
        l := Extended(l, copy, held, w1, urgents[i], outcomes[i]);
        sold := Add(sold, urgents[i].ticker, n);
        marks, ordered, free := marks + [mark], ordered + [n], free + [left];
      }
      Finishes(safe, l, urgents, outcomes, h0, w0, cached, held, working, sold);
    }

    /** Broker events, then one urgent record; `left` is what its name had free. */
    method UrgentRound(u: Urgent, outcome: Outcome) returns (mark: bool, n: nat, left: int, ghost w: Shares)
      modifies this
      ensures BrokerMoved(old(held), old(working), held, w)
      ensures (cached, working, n, mark) == Urge(old(cached), w, u, outcome)
      ensures left == Of(old(cached), u.ticker) - Of(w, u.ticker)
    {
      Interference();
      w := working;
      left := Of(cached, u.ticker) - Of(working, u.ticker);
      mark, n := ExecuteUrgent(u, outcome);
    }

    /** An intraday exit or reduce: holdings and working SELLs read together. */
    method ExecuteExit(t: Ticker, shares: nat, outcome: Outcome) returns (order: Option<nat>)
      requires AllCovered(held, working)
      modifies this`working
      ensures AllCovered(held, working)
      ensures order == ValidateSellShares(false, Of(held, t), shares, old(Of(working, t)))
      ensures working == if order.None? || outcome.NothingLeft? then old(working)
                         else Add(old(working), t, order.value)
    {
      order := ValidateSellShares(false, Of(held, t), shares, Of(working, t));
      if order.Some? && !outcome.NothingLeft? {
        working := Add(working, t, order.value);
      }
    }
  }
}
