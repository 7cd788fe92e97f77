/**
 At-most-once over decisions.  A decision is what an entry id names: the same
 decision can come back as a new record, when the planner rewrites the book or
 a re-solve adds to it.
 */
module BuyDecisions {
  import opened OrderBooks
  import opened BuyProtocol
  import opened BuyMarks

  // ---------------------------------------------------------------- what runs assume

  /** The decision being placed right now, which may land before the next save. */
  predicate InPlacement(s: State, id: string) { s.pc.Placing? && s.pc.e.id == id }

  /** The rewrite brings back no decision that has been bought or is being
      placed, unless its ticker is on the book's executed list. */
  predicate CarefulPlan(s: State, plan: seq<Entry>) {
    forall x :: x in plan && x.shares > 0 && (x.id in s.bought || InPlacement(s, x.id))
      ==> x.ticker in Tickers(s.disk.executedToday)
  }

  /** A re-solve adds no decision that was bought or is in doubt. */
  predicate CarefulSolve(s: State, id: string) {
    id !in s.bought && forall x :: x in s.mem.approved && x.id == id ==> x.status == Pending
  }

  predicate BringsNothingBack(s: State, a: Action) {
    match a
    case PlannerRewrite(plan) => CarefulPlan(s, plan)
    case Redeploy(id, _, _) => CarefulSolve(s, id)
    case _ => true
  }

  predicate AllFresh(r: Run) {
    r.Then? ==> AllFresh(r.prev) && BringsNothingBack(End(r.prev), r.a)
  }

  // ---------------------------------------------------------------- the invariant

  ghost predicate NoRepeat(bought: seq<string>) {
    forall i, j :: 0 <= i < j < |bought| ==> bought[i] != bought[j]
  }

  /** One record per decision, the dormant ones aside. */
  ghost predicate OneIdBut(es: seq<Entry>, dormant: set<nat>) {
    forall x, y :: x in es && y in es && x.id == y.id && x.uid !in dormant && y.uid !in dormant ==> x.uid == y.uid
  }

  ghost predicate OneId(es: seq<Entry>) { OneIdBut(es, {}) }

  /** A bought decision in the book is the very record that was bought, or its
      ticker has been executed, or it asks for nothing. */
  ghost predicate Accounted(b: Book, landed: seq<nat>, bought: seq<string>, dormant: set<nat>) {
    forall x :: x in b.approved && x.id in bought && x.shares > 0 && x.uid !in dormant
      ==> x.uid in landed || x.ticker in Tickers(b.executedToday)
  }

  ghost predicate Unbought(es: seq<Entry>, bought: seq<string>) {
    forall y :: y in es && y.shares > 0 && y.status == Pending ==> y.id !in bought
  }

  ghost predicate BookSound(b: Book, landed: seq<nat>, bought: seq<string>, dormant: set<nat>) {
    OneIdBut(b.approved, dormant) && Accounted(b, landed, bought, dormant)
  }

  /** Disk, memory and the traded set agree on what has been executed. */
  ghost predicate Agree(s: State) {
    Tickers(s.mem.executedToday) == Tickers(s.disk.executedToday) <= s.executed
  }

  /** The record in flight is in the book, marked. */
  ghost predicate Marked(b: Book, e: Entry) {
    e.status == Pending && e.shares > 0 && e.(status := Executing) in b.approved
  }

  /** On disk only the record being placed carries its decision, or the ticker is executed. */
  ghost predicate SoleOnDisk(b: Book, e: Entry, dormant: set<nat>) {
    forall x :: x in b.approved && x.id == e.id && x.shares > 0 && x.uid !in dormant ==> x.uid == e.uid || x.ticker in Tickers(b.executedToday)
  }

  ghost predicate SoundBut(s: State, dormant: set<nat>) {
    && NoRepeat(s.bought)
    && BookSound(s.disk, s.landed, s.bought, dormant)
    && (!s.pc.Down? ==> BookSound(s.mem, s.landed, s.bought, dormant) && Agree(s))
    && (s.pc.Ready? ==> Unbought(s.mem.approved, s.bought))
    && (s.pc.Loop? || Busy(s.pc) ==> Unbought(s.pc.rest, s.bought))
    && (Busy(s.pc) ==> Marked(s.mem, s.pc.e))
    && (s.pc.Placing? ==> s.pc.e.id !in s.bought && SoleOnDisk(s.disk, s.pc.e, dormant))
  }

  ghost predicate Sound(s: State) { SoundBut(s, {}) }

  /** No dormant record is being placed, about to be visited, or to be loaded as pending. */
  ghost predicate Resting(s: State, dormant: set<nat>) {
    && (!s.pc.Down? ==> forall x :: x in s.disk.approved && x.uid in dormant && x.status == Pending ==> x.ticker in s.executed)
    && (s.pc.Loop? || Busy(s.pc) ==> forall y :: y in s.pc.rest ==> y.uid !in dormant)
    && (Busy(s.pc) ==> s.pc.e.uid !in dormant)
  }

  // ---------------------------------------------------------------- books

  lemma TickersGrow(b: Book, r: Book)
    requires forall x :: x in b.executedToday ==> x in r.executedToday
    ensures Tickers(b.executedToday) <= Tickers(r.executedToday)
  {}

  /** Records that come from a sound book make a sound book. */
  lemma FromSoundIsSound(b: Book, r: Book, landed: seq<nat>, bought: seq<string>, dormant: set<nat>)
    requires BookSound(b, landed, bought, dormant) && ComesFrom(b, r)
    ensures BookSound(r, landed, bought, dormant)
  {
    TickersGrow(b, r);
    forall x, y | x in r.approved && y in r.approved && x.id == y.id && x.uid !in dormant && y.uid !in dormant ensures x.uid == y.uid {
      var x' :| x' in b.approved && SameRecord(x, x');
      var y' :| y' in b.approved && SameRecord(y, y');
    }
    forall x | x in r.approved && x.id in bought && x.shares > 0 && x.uid !in dormant
      ensures x.uid in landed || x.ticker in Tickers(r.executedToday)
    {
      var x' :| x' in b.approved && SameRecord(x, x');
    }
  }

  /** The first pending record of its ticker receives the mark itself. */
  lemma MarkIsOnIt(b: Book, e: Entry)
    requires UniqueUids(b.approved) && e in b.approved && e.status == Pending && e.shares > 0
    requires var k := FirstMatch(b.approved, e.ticker, {Pending}); k < |b.approved| && b.approved[k].uid == e.uid
    ensures Marked(MarkExecuting(b, e.ticker), e)
  {
    var i :| 0 <= i < |b.approved| && b.approved[i] == e;
    var k := FirstMatch(b.approved, e.ticker, {Pending});
    assert i == k;
    assert MarkExecuting(b, e.ticker).approved[k] == e.(status := Executing);
  }

  // ---------------------------------------------------------------- steps

  lemma ReconciledComesFrom(s: State, unreadable: set<nat>)
    requires GoodBook(s.disk, s.nextUid)
    ensures ComesFrom(s.disk, Reconcile(s.disk, ExecutingEntries(s.disk), unreadable, s))
  {
    SubsetComesFrom(s.disk, s.disk);
    ReconcileSettles(s.disk, s.disk, ExecutingEntries(s.disk), unreadable, s, s.nextUid);
  }

  lemma SeedCovers(b: Book, rows: set<Ticker>, rowsReadable: bool)
    ensures Tickers(b.executedToday) <= Seed(b, rows, rowsReadable)
  {}

  lemma BootSound(s: State, unreadable: set<nat>, rowsReadable: bool, dormant: set<nat>)
    requires Inv(s) && SoundBut(s, dormant) && s.pc.Down?
    ensures SoundBut(Booted(s, unreadable, rowsReadable), dormant)
  {
    hide BookSound, Reconcile, Seed, ComesFrom;
    var r := Reconcile(s.disk, ExecutingEntries(s.disk), unreadable, s);
    ReconciledComesFrom(s, unreadable);
    FromSoundIsSound(s.disk, r, s.landed, s.bought, dormant);
    SeedCovers(r, s.rows, rowsReadable);
    hide Inv;
  }

  lemma TickSound(s: State, dormant: set<nat>)
    requires Inv(s) && SoundBut(s, dormant) && Resting(s, dormant) && s.pc.Idle?
    ensures SoundBut(Reloaded(s), dormant)
  {
    var r := MergeExecuted(s.disk, s.executed);
    SubsetComesFrom(s.disk, r);
    FromSoundIsSound(s.disk, r, s.landed, s.bought, dormant);
    forall y | y in r.approved && y.shares > 0 && y.status == Pending ensures y.id !in s.bought {
      assert y in s.disk.approved && y.ticker !in s.executed;
    }
    hide Inv, BookSound, ComesFrom;
  }

  lemma SolveSound(s: State, id: string, t: Ticker, shares: int, dormant: set<nat>)
    requires Inv(s) && SoundBut(s, dormant) && s.pc.Ready? && CarefulSolve(s, id)
    ensures SoundBut(Redeployed(s, id, t, shares), dormant)
  {
    var e := Entry(s.nextUid, id, t, shares, Pending);
    var r := AddEntry(s.mem, e);
    if r != s.mem {
      assert forall x :: x in r.approved <==> x in s.mem.approved || x == e;
      assert forall x :: x in s.mem.approved ==> x.id != e.id;
      assert BookSound(r, s.landed, s.bought, dormant);
    }
    assert Unbought(r.approved, s.bought);
    hide Inv, BookSound, Unbought;
  }

  lemma WriteAheadSound(s: State, dormant: set<nat>)
    requires Inv(s) && SoundBut(s, dormant) && Resting(s, dormant) && s.pc.Loop? && s.pc.rest != [] && s.pc.rest[0].shares > 0
    requires MarksItself(s, WriteAhead)
    ensures SoundBut(Intended(s), dormant)
  {
    var e, rest := s.pc.rest[0], s.pc.rest[1..];
    var r := MarkExecuting(s.mem, e.ticker);
    IntentBook(s, r, dormant);
    assert e in s.pc.rest && forall y :: y in rest ==> y in s.pc.rest;
    assert Unbought(rest, s.bought);
    assert e.id !in s.bought;
    hide Inv, BookSound, Unbought, Marked, SoleOnDisk, NoRepeat, MarkExecuting;
  }

  lemma IntentBook(s: State, r: Book, dormant: set<nat>)
    requires Inv(s) && SoundBut(s, dormant) && Resting(s, dormant) && s.pc.Loop? && s.pc.rest != [] && s.pc.rest[0].shares > 0
    requires MarksItself(s, WriteAhead) && r == MarkExecuting(s.mem, s.pc.rest[0].ticker)
    ensures BookSound(r, s.landed, s.bought, dormant) && Marked(r, s.pc.rest[0]) && SoleOnDisk(r, s.pc.rest[0], dormant)
  {
    var e := s.pc.rest[0];
    assert e in s.pc.rest;
    RestampComesFrom(s.mem, e.ticker, {Pending}, Executing);
    FromSoundIsSound(s.mem, r, s.landed, s.bought, dormant);
    MarkIsOnIt(s.mem, e);
    hide ComesFrom, Unbought, MarkExecuting;
  }

  lemma BoughtSnoc(bought: seq<string>, id: string)
    ensures forall i :: i in bought + [id] <==> i in bought || i == id
    ensures NoRepeat(bought) && id !in bought ==> NoRepeat(bought + [id])
  {}

  lemma LandSound(s: State, dormant: set<nat>)
    requires Inv(s) && SoundBut(s, dormant) && Resting(s, dormant) && s.pc.Placing? && s.pc.e.shares > 0
    ensures SoundBut(Landed(s), dormant)
  {
    var e, rest := s.pc.e, s.pc.rest;
    var landed, bought := s.landed + [e.uid], s.bought + [e.id];
    BoughtSnoc(s.bought, e.id);
    assert forall u :: u in landed <==> u in s.landed || u == e.uid;
    assert Accounted(s.disk, landed, bought, dormant);
    assert Accounted(s.mem, landed, bought, dormant) by {
      assert forall x :: x in s.mem.approved && x.id == e.id && x.uid !in dormant ==> x.uid == e.uid;
    }
    forall y | y in rest && y.shares > 0 && y.status == Pending ensures y.id !in bought {
      assert y in s.mem.approved && y.uid != e.uid;
    }
    hide Inv, Accounted, Unbought, Marked, NoRepeat;
  }

  /** The entry leaves flight: a saved sound book and one more traded ticker. */
  lemma LeavesFlight(s: State, r: Book, t: Ticker, dormant: set<nat>)
    requires SoundBut(s, dormant) && Busy(s.pc) && BookSound(r, s.landed, s.bought, dormant)
    requires Tickers(r.executedToday) <= s.executed + {t}
    ensures SoundBut(s.(mem := r, disk := r, executed := s.executed + {t}, pc := Loop(s.pc.rest)), dormant)
  {
    hide BookSound, Unbought, Marked, SoleOnDisk, NoRepeat;
  }

  lemma RevertSound(s: State, dormant: set<nat>)
    requires Inv(s) && SoundBut(s, dormant) && s.pc.Placing?
    ensures SoundBut(Reverted(s), dormant)
  {
    hide Inv, BookSound, ComesFrom;
    var t := s.pc.e.ticker;
    RestampComesFrom(s.mem, t, {Executing}, Pending);
    FromSoundIsSound(s.mem, RevertToPending(s.mem, t), s.landed, s.bought, dormant);
    LeavesFlight(s, RevertToPending(s.mem, t), t, dormant);
    hide SoundBut;
  }

  lemma FinalComesFrom(b: Book, t: Ticker)
    requires forall x :: x in b.approved ==> x.status != Executed
    ensures ComesFrom(b, MarkExecuted(b, t)) && Tickers(MarkExecuted(b, t).executedToday) <= Tickers(b.executedToday) + {t}
  {
    MarkExecutedMembers(b, t);
    SubsetComesFrom(b, MarkExecuted(b, t));
  }

  lemma FinalSound(s: State, dormant: set<nat>)
    requires Inv(s) && SoundBut(s, dormant) && s.pc.Logged?
    ensures SoundBut(Finalized(s), dormant)
  {
    var t := s.pc.e.ticker;
    FinalComesFrom(s.mem, t);
    hide Inv, BookSound, ComesFrom, MarkExecuted;
    FromSoundIsSound(s.mem, MarkExecuted(s.mem, t), s.landed, s.bought, dormant);
    LeavesFlight(s, MarkExecuted(s.mem, t), t, dormant);
    hide SoundBut;
  }

  lemma RewriteSound(s: State, plan: seq<Entry>, dormant: set<nat>)
    requires Inv(s) && SoundBut(s, dormant) && FreshPlan(plan, s.nextUid) && CarefulPlan(s, plan)
    ensures SoundBut(Rewritten(s, plan), dormant)
  {
    var b := s.disk.(approved := plan);
    forall x, y | x in plan && y in plan && x.id == y.id ensures x.uid == y.uid {
      var i :| 0 <= i < |plan| && plan[i] == x;
      var j :| 0 <= j < |plan| && plan[j] == y;
    }
    assert BookSound(b, s.landed, s.bought, dormant);
    hide Inv, BookSound, Unbought;
  }

  lemma WalkSound(s: State, a: Action, dormant: set<nat>)
    requires Inv(s) && SoundBut(s, dormant) && Enabled(s, a) && (a.BeginEntries? || a.NoTrigger? || a.Skip?)
    ensures SoundBut(Apply(s, a), dormant)
  {
    if a.BeginEntries? {
      assert forall y :: y in PendingEntries(s.mem) ==> y in s.mem.approved;
      assert Unbought(PendingEntries(s.mem), s.bought);
    } else {
      assert forall y :: y in s.pc.rest[1..] ==> y in s.pc.rest;
      assert Unbought(s.pc.rest[1..], s.bought);
    }
    hide Inv, BookSound, Unbought;
  }

  lemma QuietSound(s: State, a: Action, dormant: set<nat>)
    requires Inv(s) && SoundBut(s, dormant) && Enabled(s, a)
    requires a.Crash? || a.TimedOut? || a.Accepted? || a.ConnectionLost? || a.EndEntries? || a.ExitTraded?
             || a.BuyFills? || a.BuyExpires? || a.SharesSold? || a.SaveBook?
    ensures SoundBut(Apply(s, a), dormant)
  {
    hide Inv, BookSound, Unbought, Marked, SoleOnDisk, NoRepeat;
  }

  lemma StepSoundBut(s: State, a: Action, dormant: set<nat>)
    requires Inv(s) && SoundBut(s, dormant) && Resting(s, dormant) && Enabled(s, a) && MarksItself(s, a) && BringsNothingBack(s, a)
    ensures SoundBut(Apply(s, a), dormant)
  {
    hide Inv, SoundBut, Booted, Reloaded, Redeployed, Intended, Landed, Reverted, Finalized, Rewritten;
    match a
    case Boot(unreadable, rowsReadable) => BootSound(s, unreadable, rowsReadable, dormant);
    case Tick => TickSound(s, dormant);
    case Redeploy(id, t, shares) => SolveSound(s, id, t, shares, dormant);
    case WriteAhead => WriteAheadSound(s, dormant);
    case Land => LandSound(s, dormant);
    case Rejected => RevertSound(s, dormant);
    case Finalize => FinalSound(s, dormant);
    case PlannerRewrite(plan) => RewriteSound(s, plan, dormant);
    case BeginEntries => WalkSound(s, a, dormant);
    case NoTrigger => WalkSound(s, a, dormant);
    case Skip => WalkSound(s, a, dormant);
    case _ => QuietSound(s, a, dormant);
  }

  lemma StepSound(s: State, a: Action)
    requires Inv(s) && Sound(s) && Enabled(s, a) && MarksItself(s, a) && BringsNothingBack(s, a)
    ensures Sound(Apply(s, a))
  {
    StepSoundBut(s, a, {});
  }

  lemma {:induction false} SoundAlongRun(r: Run)
    requires Inv(Origin(r)) && Sound(Origin(r))
    requires Valid(r) && AllMark(r) && AllShow(r) && AllFresh(r)
    ensures Sound(End(r))
  {
    if r.Then? {
      SoundAlongRun(r.prev);
      InvAlongRun(r.prev);
      StepSound(End(r.prev), r.a);
    }
  }

  /** Over every run of polls, crashes, restarts, planner rewrites, re-solves and
      broker events that brings nothing back, no decision is bought twice. */
  lemma NoDecisionBoughtTwice(r: Run)
    requires Init(Origin(r)) && OneId(Origin(r).disk.approved)
    requires Valid(r) && AllMark(r) && AllShow(r) && AllFresh(r)
    ensures NoRepeat(End(r).bought)
  {
    SoundAlongRun(r);
  }

  // ---------------------------------------------------------------- one record per ticker

  ghost predicate OneTicker(es: seq<Entry>) {
    forall x, y :: x in es && y in es && x.ticker == y.ticker ==> x.uid == y.uid
  }

  /** No plan and no re-solve puts a second record of a ticker in the book. */
  predicate Spread(s: State, a: Action) {
    match a
    case PlannerRewrite(plan) => forall i, j :: 0 <= i < j < |plan| ==> plan[i].ticker != plan[j].ticker
    case Redeploy(_, t, _) => forall x :: x in s.mem.approved ==> x.ticker != t
    case _ => true
  }

  predicate AllSpread(r: Run) {
    r.Then? ==> AllSpread(r.prev) && Spread(End(r.prev), r.a)
  }

  ghost predicate Lone(s: State) {
    OneTicker(s.disk.approved) && (!s.pc.Down? ==> OneTicker(s.mem.approved))
  }

  lemma FromLoneIsLone(b: Book, r: Book)
    requires OneTicker(b.approved) && ComesFrom(b, r)
    ensures OneTicker(r.approved)
  {
    forall x, y | x in r.approved && y in r.approved && x.ticker == y.ticker ensures x.uid == y.uid {
      var x' :| x' in b.approved && SameRecord(x, x');
      var y' :| y' in b.approved && SameRecord(y, y');
    }
  }

  lemma SpreadPlan(plan: seq<Entry>)
    requires forall i, j :: 0 <= i < j < |plan| ==> plan[i].ticker != plan[j].ticker
    ensures OneTicker(plan)
  {
    forall x, y | x in plan && y in plan && x.ticker == y.ticker ensures x.uid == y.uid {
      var i :| 0 <= i < |plan| && plan[i] == x;
      var j :| 0 <= j < |plan| && plan[j] == y;
    }
  }

  /** Every way a step makes a new book of an old one. */
  lemma StepComesFrom(s: State, t: Ticker)
    requires Inv(s)
    ensures ComesFrom(s.disk, MergeExecuted(s.disk, s.executed))
    ensures ComesFrom(s.mem, MarkExecuting(s.mem, t)) && ComesFrom(s.mem, RevertToPending(s.mem, t))
    ensures !s.pc.Down? ==> ComesFrom(s.mem, MarkExecuted(s.mem, t))
  {
    SubsetComesFrom(s.disk, MergeExecuted(s.disk, s.executed));
    RestampComesFrom(s.mem, t, {Pending}, Executing);
    RestampComesFrom(s.mem, t, {Executing}, Pending);
    if !s.pc.Down? { FinalComesFrom(s.mem, t); }
  }

  lemma StepLone(s: State, a: Action)
    requires Inv(s) && Lone(s) && Enabled(s, a) && Spread(s, a)
    ensures Lone(Apply(s, a))
  {
    match a
    case Boot(unreadable, _) =>
      ReconciledComesFrom(s, unreadable);
      FromLoneIsLone(s.disk, Reconcile(s.disk, ExecutingEntries(s.disk), unreadable, s));
    case Tick => LoneBooks(s, "");
    case Redeploy(id, t, n) =>
      assert forall x :: x in AddEntry(s.mem, Entry(s.nextUid, id, t, n, Pending)).approved
                 ==> x in s.mem.approved || x == Entry(s.nextUid, id, t, n, Pending);
    case WriteAhead => LoneBooks(s, s.pc.rest[0].ticker);
    case Rejected => LoneBooks(s, s.pc.e.ticker);
    case Finalize => LoneBooks(s, s.pc.e.ticker);
    case PlannerRewrite(plan) => SpreadPlan(plan);
    case _ =>
  }

  lemma LoneBooks(s: State, t: Ticker)
    requires Inv(s) && Lone(s)
    ensures OneTicker(MergeExecuted(s.disk, s.executed).approved)
    ensures !s.pc.Down? ==> OneTicker(MarkExecuting(s.mem, t).approved)
    ensures !s.pc.Down? ==> OneTicker(RevertToPending(s.mem, t).approved)
    ensures !s.pc.Down? ==> OneTicker(MarkExecuted(s.mem, t).approved)
  {
    StepComesFrom(s, t);
    FromLoneIsLone(s.disk, MergeExecuted(s.disk, s.executed));
    if !s.pc.Down? {
      FromLoneIsLone(s.mem, MarkExecuting(s.mem, t));
      FromLoneIsLone(s.mem, RevertToPending(s.mem, t));
      FromLoneIsLone(s.mem, MarkExecuted(s.mem, t));
    }
  }

  /** With one record per ticker the mark cannot go astray. */
  lemma LoneMarks(s: State, a: Action)
    requires Inv(s) && Lone(s) && Enabled(s, a)
    ensures MarksItself(s, a)
  {
    if a.WriteAhead? {
      var e := s.pc.rest[0];
      assert e in s.pc.rest && e in s.mem.approved;
      var k := FirstMatch(s.mem.approved, e.ticker, {Pending});
      assert k < |s.mem.approved| && s.mem.approved[k] in s.mem.approved;
    }
  }

  lemma {:induction false} SpreadRunsMark(r: Run)
    requires Inv(Origin(r)) && Lone(Origin(r)) && Valid(r) && AllShow(r) && AllSpread(r)
    ensures AllMark(r) && Lone(End(r))
  {
    if r.Then? {
      SpreadRunsMark(r.prev);
      InvAlongRun(r.prev);
      LoneMarks(End(r.prev), r.a);
      StepLone(End(r.prev), r.a);
    }
  }

  /** With one record per ticker nothing need be assumed about the mark: over
      every run that brings nothing back and shows its orders at restarts, no
      record and no decision is bought twice. */
  lemma LoneRecordsBoughtOnce(r: Run)
    requires Init(Origin(r)) && OneTicker(Origin(r).disk.approved) && OneId(Origin(r).disk.approved)
    requires Valid(r) && AllShow(r) && AllSpread(r) && AllFresh(r)
    ensures AtMostOnce(End(r).landed) && NoRepeat(End(r).bought)
  {
    SpreadRunsMark(r);
    NoRecordBoughtTwice(r);
    NoDecisionBoughtTwice(r);
  }

  // ---------------------------------------------------------------- which rewrites are safe

  ghost predicate Continues(r: Run, s: State) {
    Origin(r) == s && Valid(r) && AllMark(r) && AllShow(r) && AllFresh(r)
  }

  /** One more action of a continuation. */
  lemma Extend(r: Run, s: State, a: Action) returns (r': Run)
    requires Continues(r, s) && Enabled(End(r), a)
    requires MarksItself(End(r), a) && ShowsLanded(End(r), a) && BringsNothingBack(End(r), a)
    ensures Continues(r', s) && End(r') == Apply(End(r), a)
  {
    r' := Then(r, a);
  }

  /** The daemon is down; the plan is on disk; a decision in it has been bought. */
  ghost predicate Poised(q: State, plan: seq<Entry>, x: Entry) {
    && q.pc.Down? && q.disk.approved == plan && x in plan && x.shares > 0
    && x.id in q.bought && x.ticker !in Tickers(q.disk.executedToday)
    && (forall y :: y in plan ==> y.status == Pending && y.uid !in q.landed)
  }

  lemma {:induction false} KeepNone(es: seq<Entry>, p: Entry -> bool)
    requires forall x :: x in es ==> !p(x)
    ensures Keep(es, p) == []
  {
    if es != [] {
      assert es[0] in es && forall x :: x in es[1..] ==> x in es;
      KeepNone(es[1..], p);
    }
  }

  /** From the rewrite to a crash, with the order in flight landing first. */
  lemma ThenCrash(s: State, plan: seq<Entry>, x: Entry) returns (r: Run)
    requires Inv(s) && Sound(s) && FreshPlan(plan, s.nextUid) && x in plan && x.shares > 0
    requires (x.id in s.bought || InPlacement(s, x.id)) && x.ticker !in Tickers(s.disk.executedToday)
    ensures Continues(r, Rewritten(s, plan)) && Poised(End(r), plan, x)
  {
    var q := Rewritten(s, plan);
    forall y | y in plan ensures y.status == Pending && y.uid >= s.nextUid {
      var i :| 0 <= i < |plan| && plan[i] == y;
    }
    r := Start(q);
    if InPlacement(s, x.id) {
      r := Extend(r, q, Land);
      assert End(r) == Landed(q);
      assert s.pc.e.uid < s.nextUid by { InFlightIsOld(s); }
    }
    if !End(r).pc.Down? { r := Extend(r, q, Crash); }
  }

  lemma InFlightIsOld(s: State)
    requires Inv(s) && Busy(s.pc)
    ensures s.pc.e.uid < s.nextUid
  {
    var y :| y in s.mem.approved && y.uid == s.pc.e.uid && y.ticker == s.pc.e.ticker && y.status == Executing;
  }

  /** The daemon restarts without trade rows, and no buy of the ticker works. */
  lemma ThenRestart(r: Run, s: State, plan: seq<Entry>, x: Entry) returns (r': Run)
    requires Continues(r, s) && Poised(End(r), plan, x)
    ensures Continues(r', s) && End(r').pc.Idle? && End(r').disk.approved == plan
    ensures x.ticker !in End(r').executed && Get(End(r').working, x.ticker) == 0
    ensures End(r').bought == End(r).bought
  {
    var q := End(r);
    KeepNone(plan, (e: Entry) => e.status == Executing);
    r' := Extend(r, s, Boot({}, false));
    assert End(r').disk == q.disk && x.ticker !in End(r').executed;
    r' := Extend(r', s, BuyExpires(x.ticker, Get(q.working, x.ticker)));
  }

  /** The walk over a book offers its pending records, ticker by ticker in book order. */
  lemma WalkAligns(b: Book, x: Entry)
    requires AllPositive(b.approved) && x in b.approved && x.status == Pending
    ensures x in PendingEntries(b) && PendingOf(b.approved, x.ticker) == PendingOf(PendingEntries(b), x.ticker)
    ensures forall y :: y in PendingEntries(b) ==> y.status == Pending && y.shares > 0
  {
    assert x in PendingEntries(b);
    PendingOfPending(b.approved, x.ticker);
    PendingStays(b);
    hide PendingOf;
  }

  /** The next poll reloads the plan. */
  lemma ThenReload(r: Run, s: State, plan: seq<Entry>, x: Entry) returns (r': Run)
    requires Continues(r, s) && End(r).pc.Idle? && End(r).disk.approved == plan && x in plan && x.status == Pending
    requires x.ticker !in End(r).executed && Get(End(r).working, x.ticker) == 0 && AllPositive(plan)
    ensures Continues(r', s) && Aligned(End(r'), x.ticker) && x in End(r').pc.rest
    ensures End(r').pc.rest == PendingEntries(MergeExecuted(End(r).disk, End(r).executed))
    ensures End(r').bought == End(r).bought
  {
    var b := MergeExecuted(End(r).disk, End(r).executed);
    assert x in b.approved && AllPositive(b.approved);
    WalkAligns(b, x);
    hide Continues, MergeExecuted, PendingEntries, PendingOf, AllPositive;
    r' := Extend(r, s, Tick);
    r' := Extend(r', s, BeginEntries);
  }

  /** The head of the walk is passed over: not triggered, or, when it is of the
      ticker wanted, placed and timed out, so that the mark moves on. */
  lemma ThenPass(r: Run, s: State, t: Ticker) returns (r': Run)
    requires Continues(r, s) && Aligned(End(r), t) && End(r).pc.rest != []
    ensures Continues(r', s) && Aligned(End(r'), t) && End(r').pc.rest == End(r).pc.rest[1..]
    ensures End(r').bought == End(r).bought
  {
    hide Continues, PendingOf;
    if End(r).pc.rest[0].ticker == t {
      r' := ThenTimeOut(r, s, t);
    } else {
      var rest := End(r).pc.rest;
      assert rest == [rest[0]] + rest[1..];
      PendingOfCons(rest[0], rest[1..], t);
      r' := Extend(r, s, NoTrigger);
    }
  }

  lemma ThenTimeOut(r: Run, s: State, t: Ticker) returns (r': Run)
    requires Continues(r, s) && Aligned(End(r), t) && End(r).pc.rest != [] && End(r).pc.rest[0].ticker == t
    ensures Continues(r', s) && Aligned(End(r'), t) && End(r').pc.rest == End(r).pc.rest[1..]
    ensures End(r').bought == End(r).bought
  {
    HeadMarksItself(End(r), t);
    assert End(r).pc.rest[0] in End(r).pc.rest;
    hide PendingOf, MarksItself, Restamp, Continues;
    r' := Extend(r, s, WriteAhead);
    r' := Extend(r', s, TimedOut);
  }

  lemma {:induction false} ThenWalk(r: Run, s: State, x: Entry) returns (r': Run)
    requires Continues(r, s) && Aligned(End(r), x.ticker) && x in End(r).pc.rest
    ensures Continues(r', s) && Aligned(End(r'), x.ticker) && End(r').pc.rest != [] && End(r').pc.rest[0] == x
    ensures End(r').bought == End(r).bought
    decreases |End(r).pc.rest|
  {
    if End(r).pc.rest[0] == x {
      r' := r;
    } else {
      hide Continues, PendingOf;
      r' := ThenPass(r, s, x.ticker);
      r' := ThenWalk(r', s, x);
    }
  }

  /** The head of the walk is placed and lands. */
  lemma ThenBuy(r: Run, s: State, x: Entry) returns (r': Run)
    requires Continues(r, s) && Aligned(End(r), x.ticker) && End(r).pc.rest != [] && End(r).pc.rest[0] == x
    ensures Continues(r', s) && End(r').bought == End(r).bought + [x.id]
  {
    HeadMarksItself(End(r), x.ticker);
    assert x in End(r).pc.rest;
    hide PendingOf, MarksItself, Restamp, Continues;
    r' := Extend(r, s, WriteAhead);
    r' := Extend(r', s, Land);
  }

  /** A rewrite that brings back a bought decision is bought again by some
      continuation: land what is in flight, crash, restart, reload, place. */
  lemma RewriteIsBoughtAgain(s: State, plan: seq<Entry>, x: Entry) returns (r: Run)
    requires Inv(s) && Sound(s) && FreshPlan(plan, s.nextUid) && AllPositive(plan) && x in plan
    requires (x.id in s.bought || InPlacement(s, x.id)) && x.ticker !in Tickers(s.disk.executedToday)
    ensures Continues(r, Rewritten(s, plan)) && !NoRepeat(End(r).bought)
  {
    var q := Rewritten(s, plan);
    hide Inv, Sound, FreshPlan, Continues, Poised, Aligned, Rewritten, Tickers;
    r := ThenCrash(s, plan, x);
    PoisedBought(End(r), plan, x);
    r := ThenRestart(r, q, plan, x);
    r := ThenReload(r, q, plan, x);
    r := ThenWalk(r, q, x);
    var before := End(r).bought;
    r := ThenBuy(r, q, x);
    var i :| 0 <= i < |before| && before[i] == x.id;
    assert End(r).bought[i] == End(r).bought[|before|];
  }

  lemma PoisedBought(q: State, plan: seq<Entry>, x: Entry)
    requires Poised(q, plan, x)
    ensures x.id in q.bought && x.status == Pending
  {}

  /** A rewrite is safe for every continuation exactly when it brings back no
      bought decision whose ticker is not on the executed list.  Trade rows and
      the running daemon's traded set do not help: a restart may fail to read the
      one and forgets the other. */
  lemma RewriteIsSafeExactly(s: State, plan: seq<Entry>)
    requires Inv(s) && Sound(s) && FreshPlan(plan, s.nextUid) && AllPositive(plan)
    ensures (forall r :: Continues(r, Rewritten(s, plan)) ==> NoRepeat(End(r).bought)) <==> CarefulPlan(s, plan)
  {
    if CarefulPlan(s, plan) {
      PlannerRewriteKeeps(s, plan);
      RewriteSound(s, plan, {});
      forall r | Continues(r, Rewritten(s, plan)) ensures NoRepeat(End(r).bought) { SoundAlongRun(r); }
    } else {
      var x :| x in plan && x.shares > 0 && (x.id in s.bought || InPlacement(s, x.id))
               && x.ticker !in Tickers(s.disk.executedToday);
      var r := RewriteIsBoughtAgain(s, plan, x);
      assert !NoRepeat(End(r).bought);
    }
  }

  // ---------------------------------------------------------------- concrete runs

  lemma OneRecordSession(a: Entry) returns (o: State, s: State)
    requires a.status == Pending && a.uid == 0
    ensures o == Fresh([a]) && Init(o) && OneId(o.disk.approved) && Reaches(o, Mode(true, true), s)
    ensures s == o.(mem := o.disk, pc := Idle)
  {
    o := Fresh([a]);
    FreshIsInit([a]);
    Begin(o, Mode(true, true));
    KeepOne(a, (e: Entry) => e.status == Executing);
    s := BootPending(o, Mode(true, true), o);
  }

  /** The connection drops after an order landed; the planner, run again while
      the order works, writes the same decision; the order fills. */
  lemma RerunWhileWorking(o: State, m: Mode, s: State, a: Entry, b: Entry) returns (s': State)
    requires Reaches(o, m, s) && s.pc.AtBroker? && b.status == Pending && b.uid == s.nextUid && b.ticker == a.ticker
    requires a.shares > 0 && Get(s.working, a.ticker) == a.shares
    ensures Reaches(o, m, s') && s'.pc.Idle? && s'.disk.approved == [b] && s'.executed == s.executed
    ensures s'.bought == s.bought && s'.landed == s.landed && Get(s'.working, a.ticker) == 0
  {
    hide Reaches;
    s' := Step(o, m, s, ConnectionLost);
    s' := Step(o, m, s', PlannerRewrite([b]));
    s' := Step(o, m, s', BuyFills(a.ticker, a.shares as nat));
  }

  /** A reached state in which the first two orders were of one decision. */
  lemma DecidedTwice(o: State, s: State) returns (r: Run)
    requires Reaches(o, Mode(true, true), s) && |s.bought| == 2 && s.bought[0] == s.bought[1]
    ensures Valid(r) && Origin(r) == o && AllMark(r) && AllShow(r) && !NoRepeat(End(r).bought)
    ensures End(r) == s
  {
    r := Witness(o, Mode(true, true), s);
  }

  /** Same day, same decision, two orders: the rerun's record is new but its id
      is that of the record in doubt, which the rewrite wiped. */
  lemma PlannerRerunBuysTwice() returns (r: Run)
    ensures Valid(r) && Init(Origin(r)) && OneId(Origin(r).disk.approved) && AllMark(r) && AllShow(r)
    ensures AtMostOnce(End(r).landed) && !NoRepeat(End(r).bought)
  {
    var a := Entry(0, "AMD:2026-09-04:portfolio_optimizer", "AMD", 10, Pending);
    var o, s := OneRecordSession(a);
    hide Reaches, Init, OneId, Valid, Origin, End, AllMark, AllShow, NoRepeat, Apply, Enabled;
    s := SingleRecordLands(o, Mode(true, true), s, a);
    s := RerunWhileWorking(o, Mode(true, true), s, a, a.(uid := 1));
    s := SingleRecordLands(o, Mode(true, true), s, a.(uid := 1));
    assert s.landed == [0, 1];
    r := DecidedTwice(o, s);
  }

  /** A re-solve in a book with nothing else is placed in the same poll. */
  lemma SolveLands(o: State, m: Mode, s: State, id: string, t: Ticker, n: int) returns (s': State)
    requires Reaches(o, m, s) && s.pc.Ready? && s.mem.approved == [] && n > 0 && Get(s.working, t) == 0
    ensures Reaches(o, m, s')
    ensures var e := Entry(s.nextUid, id, t, n, Pending);
      && s'.pc == AtBroker(e, []) && s'.mem.approved == [e.(status := Executing)]
      && s'.bought == s.bought + [id] && Get(s'.working, t) == n
  {
    hide Reaches;
    var e := Entry(s.nextUid, id, t, n, Pending);
    KeepOne(e, (x: Entry) => x.status == Pending);
    s' := Step(o, m, s, Redeploy(id, t, n));
    assert s'.mem.approved == [e];
    s' := Step(o, m, s', BeginEntries);
    assert FirstMatch([e], t, {Pending}) == 0;
    s' := PlaceAndLand(o, m, s', e, [e.(status := Executing)]);
  }

  lemma LoneFinal(b: Book, e: Entry)
    requires b.approved == [e.(status := Executing)]
    ensures MarkExecuted(b, e.ticker).approved == []
  {
    var done := e.(status := Executed);
    KeepOne(done, (x: Entry) => !(x.ticker == e.ticker && x.status == Executed));
    assert Restamp(b.approved, e.ticker, {Pending, Executing}, Executed) == [done];
  }

  lemma Settle(o: State, m: Mode, s: State, e: Entry) returns (s': State)
    requires Reaches(o, m, s) && s.pc == AtBroker(e, []) && s.mem.approved == [e.(status := Executing)]
    ensures Reaches(o, m, s') && s'.pc == Loop([]) && s'.disk.approved == [] && s'.bought == s.bought
    ensures s'.working == s.working
  {
    LoneFinal(s.mem, e);
    hide Reaches, MarkExecuted;
    s' := Step(o, m, s, Accepted);
    s' := Step(o, m, s', Finalize);
  }

  lemma FillAndReload(o: State, m: Mode, s: State, t: Ticker, n: nat) returns (s': State)
    requires Reaches(o, m, s) && s.pc == Loop([]) && s.disk.approved == [] && Get(s.working, t) == n
    ensures Reaches(o, m, s') && s'.pc.Ready? && s'.mem.approved == [] && s'.bought == s.bought
    ensures Get(s'.working, t) == 0
  {
    hide Reaches;
    s' := Step(o, m, s, BuyFills(t, n));
    s' := Step(o, m, s', EndEntries);
    s' := Step(o, m, s', Tick);
  }

  /** Re-solves of one ticker share an id, so it can be bought once per re-solve,
      in a session that already traded the ticker. */
  lemma ResolveReusesItsId() returns (r: Run)
    ensures Valid(r) && Init(Origin(r)) && OneId(Origin(r).disk.approved) && AllMark(r) && AllShow(r)
    ensures !NoRepeat(End(r).bought)
  {
    var o, m := Fresh([]), Mode(true, true);
    FreshIsInit([]);
    Begin(o, m);
    var s := BootPending(o, m, o);
    s := Step(o, m, s, Tick);
    s := SolvedTwice(o, m, s, "AMD:2026-09-04:optimizer_redeploy", "AMD", 10);
    hide Reaches, Init, OneId, Valid, Origin, End, AllMark, AllShow, NoRepeat;
    r := DecidedTwice(o, s);
  }

  lemma SolvedTwice(o: State, m: Mode, s: State, id: string, t: Ticker, n: nat) returns (s': State)
    requires Reaches(o, m, s) && s.pc.Ready? && s.mem.approved == [] && n > 0 && Get(s.working, t) == 0
    ensures Reaches(o, m, s') && s'.bought == s.bought + [id] + [id]
  {
    hide Reaches;
    s' := SolveLands(o, m, s, id, t, n);
    s' := Settle(o, m, s', Entry(s.nextUid, id, t, n, Pending));
    s' := FillAndReload(o, m, s', t, n);
    s' := SolveLands(o, m, s', id, t, n);
  }
}
