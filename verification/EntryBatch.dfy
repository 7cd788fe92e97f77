/**
 One planning batch: candidates are taken in priority order, each passes the
 entry gates and the risk guard against the book as the batch has filled it so
 far, and every approved entry joins that running book.
 */
module EntryBatch {
  import opened Options
  import Sums

  type Ticker = string
  type Sector = string

  datatype Holding = Holding(value: real, sector: Sector)

  datatype Sizing = Sizing(shares: int, dollars: real)

  /** What the predictor says about a name. */
  datatype Prediction = Prediction(catalyst: bool, catalystDate: Option<int>,
                                   momentumVeto: Option<bool>, confirmation: Option<real>,
                                   gbmVeto: bool, alpha: real)

  /** `fallbackMomentum` is the 20-day return from price history, when there are enough bars. */
  datatype Candidate = Candidate(ticker: Ticker, sector: Sector, underweight: bool,
                                 score: Option<real>, urgency: real, prediction: Prediction,
                                 fallbackMomentum: Option<real>, price: Option<real>,
                                 sizing: Sizing, atr: Option<real>)

  datatype Config = Config(urgencyRanking: bool,
                           momentumGate: bool, momentumThreshold: real,
                           reversalGate: bool, reversalThreshold: real,
                           minScore: real, maxPosition: real,
                           bear: bool, bearBlocksUnderweight: bool,
                           maxSector: real, maxEquity: real,
                           correlationGate: bool, correlationThreshold: real)

  /** `correlation(a, b)` is undefined when either history is too short. */
  datatype Market = Market(nav: real, drawdownMultiplier: real,
                           histories: bool, hasHistory: Ticker -> bool,
                           correlation: (Ticker, Ticker) -> Option<real>)

  datatype Reason = AlreadyHeld | CatalystDateMissing | MomentumVeto | MomentumFallback | NotReversing
                  | NoPrice | NoShares | GbmVeto
                  | NavNotPositive | ScoreMissing | ScoreTooLow | DrawdownHalt | PositionTooLarge
                  | BearUnderweight | SectorFull | EquityFull | TooCorrelated

  type Book = map<Ticker, Holding>

  // ---------------------------------------------------------------- priority

  function Rank(c: Candidate, cfg: Config): (real, real, real) {
    var score := if c.score.Some? then c.score.value else 0.0;
    (if cfg.urgencyRanking then 0.0 - c.urgency else 0.0, 0.0 - score, 0.0 - c.prediction.alpha)
  }

  predicate Before(a: (real, real, real), b: (real, real, real)) {
    a.0 < b.0 || (a.0 == b.0 && (a.1 < b.1 || (a.1 == b.1 && a.2 < b.2)))
  }

  ghost predicate InPriorityOrder(cs: seq<Candidate>, cfg: Config) {
    forall i, j :: 0 <= i < j < |cs| ==> !Before(Rank(cs[j], cfg), Rank(cs[i], cfg))
  }

  /** Stable insertion: equal ranks keep their listing order. */
  function Insert(c: Candidate, cs: seq<Candidate>, cfg: Config): (r: seq<Candidate>)
    ensures multiset(r) == multiset{c} + multiset(cs)
  {
    if cs == [] then [c]
    else if Before(Rank(cs[0], cfg), Rank(c, cfg)) then
      assert cs == [cs[0]] + cs[1..];
      [cs[0]] + Insert(c, cs[1..], cfg)
    else [c] + cs
  }

  function Prioritised(cs: seq<Candidate>, cfg: Config): (r: seq<Candidate>)
    ensures multiset(r) == multiset(cs)
  {
    if cs == [] then [] else
      assert cs == [cs[0]] + cs[1..];
      Insert(cs[0], Prioritised(cs[1..], cfg), cfg)
  }

  lemma {:induction false} InsertKeepsOrder(c: Candidate, cs: seq<Candidate>, cfg: Config)
    requires InPriorityOrder(cs, cfg)
    ensures InPriorityOrder(Insert(c, cs, cfg), cfg)
  {
    if cs != [] {
      var h, tail := cs[0], cs[1..];
      assert cs == [h] + tail;
      OrderCons(h, tail, cfg);
      if Before(Rank(h, cfg), Rank(c, cfg)) {
        InsertKeepsOrder(c, tail, cfg);
        var rest := Insert(c, tail, cfg);
        forall x | x in rest ensures !Before(Rank(x, cfg), Rank(h, cfg)) {
          assert x in multiset(rest);
          assert x == c || x in tail;
          BeforeIsStrict(Rank(h, cfg), Rank(c, cfg));
        }
        OrderCons(h, rest, cfg);
      } else {
        forall x | x in cs ensures !Before(Rank(x, cfg), Rank(c, cfg)) {
          if x != h { BeforeThrough(Rank(x, cfg), Rank(h, cfg), Rank(c, cfg)); }
        }
        OrderCons(c, cs, cfg);
      }
      hide InPriorityOrder, Rank, Before;
    }
  }

  lemma BeforeIsStrict(a: (real, real, real), b: (real, real, real))
    requires Before(a, b)
    ensures !Before(b, a)
  {}

  lemma BeforeThrough(a: (real, real, real), b: (real, real, real), c: (real, real, real))
    requires !Before(a, b) && !Before(b, c)
    ensures !Before(a, c)
  {}

  lemma OrderCons(c: Candidate, cs: seq<Candidate>, cfg: Config)
    ensures InPriorityOrder([c] + cs, cfg)
       <==> InPriorityOrder(cs, cfg) && forall x :: x in cs ==> !Before(Rank(x, cfg), Rank(c, cfg))
  {
    var all := [c] + cs;
    hide Rank, Before;
    assert forall i :: 0 <= i < |cs| ==> all[i + 1] == cs[i];
    if InPriorityOrder(all, cfg) {
      forall i, j | 0 <= i < j < |cs| ensures !Before(Rank(cs[j], cfg), Rank(cs[i], cfg)) {
        assert !Before(Rank(all[j + 1], cfg), Rank(all[i + 1], cfg));
      }
      forall x | x in cs ensures !Before(Rank(x, cfg), Rank(c, cfg)) {
        var j :| 0 <= j < |cs| && cs[j] == x;
        assert !Before(Rank(all[j + 1], cfg), Rank(all[0], cfg));
      }
    }
  }

  lemma {:induction false} PrioritisedIsOrdered(cs: seq<Candidate>, cfg: Config)
    ensures InPriorityOrder(Prioritised(cs, cfg), cfg)
  {
    if cs != [] {
      PrioritisedIsOrdered(cs[1..], cfg);
      InsertKeepsOrder(cs[0], Prioritised(cs[1..], cfg), cfg);
    }
  }

  function Score(c: Candidate): real { if c.score.Some? then c.score.value else 0.0 }

  /** Urgency first when it is on, then score, then predicted alpha; higher goes first. */
  lemma HigherGoesFirst(a: Candidate, b: Candidate, cfg: Config)
    ensures Before(Rank(a, cfg), Rank(b, cfg)) <==>
      if cfg.urgencyRanking && a.urgency != b.urgency then a.urgency > b.urgency
      else if Score(a) != Score(b) then Score(a) > Score(b)
      else a.prediction.alpha > b.prediction.alpha
  {}

  function OfRank(cs: seq<Candidate>, rank: (real, real, real), cfg: Config): seq<Candidate> {
    if cs == [] then [] else (if Rank(cs[0], cfg) == rank then [cs[0]] else []) + OfRank(cs[1..], rank, cfg)
  }

  lemma {:induction false} InsertIsStable(c: Candidate, cs: seq<Candidate>, rank: (real, real, real), cfg: Config)
    ensures OfRank(Insert(c, cs, cfg), rank, cfg) == OfRank([c] + cs, rank, cfg)
  {
    assert ([c] + cs)[1..] == cs;
    if cs != [] && Before(Rank(cs[0], cfg), Rank(c, cfg)) {
      InsertIsStable(c, cs[1..], rank, cfg);
      assert ([c] + cs[1..])[1..] == cs[1..];
      assert Insert(c, cs, cfg)[1..] == Insert(c, cs[1..], cfg);
      hide Rank;
    }
  }

  /** Candidates of equal rank keep the order research listed them in. */
  lemma {:induction false} PrioritisedIsStable(cs: seq<Candidate>, rank: (real, real, real), cfg: Config)
    ensures OfRank(Prioritised(cs, cfg), rank, cfg) == OfRank(cs, rank, cfg)
  {
    if cs != [] {
      PrioritisedIsStable(cs[1..], rank, cfg);
      InsertIsStable(cs[0], Prioritised(cs[1..], cfg), rank, cfg);
      assert ([cs[0]] + Prioritised(cs[1..], cfg))[1..] == Prioritised(cs[1..], cfg);
    }
  }

  // ---------------------------------------------------------------- exposure

  /** One sector, or the whole book. */
  datatype Scope = Whole | Only(sector: Sector)

  predicate Covers(scope: Scope, sector: Sector) { scope.Whole? || scope.sector == sector }

  function Share(book: Book, scope: Scope, t: Ticker): real {
    if t in book && Covers(scope, book[t].sector) then book[t].value else 0.0
  }

  ghost function Exposure(book: Book, scope: Scope): real {
    Sums.Sum(book.Keys, (t: Ticker) => Share(book, scope, t))
  }

  method MeasureExposure(book: Book, scope: Scope) returns (total: real)
    ensures total == Exposure(book, scope)
  {
    ghost var f := (t: Ticker) => Share(book, scope, t);
    total := 0.0;
    var rest := book.Keys;
    while rest != {}
      invariant rest <= book.Keys
      invariant total + Sums.Sum(rest, f) == Exposure(book, scope)
    {
      var t :| t in rest;
      if Covers(scope, book[t].sector) { total := total + book[t].value; }
      Sums.Pick(rest, f, t);
      rest := rest - {t};
    }
  }

  function Enter(book: Book, c: Candidate): Book {
    book[c.ticker := Holding(c.sizing.dollars, c.sector)]
  }

  /** Entering replaces whatever the name counted for before. */
  lemma EnterExposure(book: Book, c: Candidate, scope: Scope)
    ensures Exposure(Enter(book, c), scope)
         == Exposure(book, scope) - Share(book, scope, c.ticker)
            + (if Covers(scope, c.sector) then c.sizing.dollars else 0.0)
  {
    var after := Enter(book, c);
    var f := (t: Ticker) => Share(book, scope, t);
    var g := (t: Ticker) => Share(after, scope, t);
    assert after.Keys == book.Keys + {c.ticker};
    Sums.Restrict(book.Keys, after.Keys, f);
    Sums.Change(after.Keys, f, g, c.ticker);
  }

  // ---------------------------------------------------------------- correlation

  /** The holdings a candidate is compared with: those of its own sector, but
      only when the candidate is itself in the book and its sector is named. */
  function Peers(t: Ticker, book: Book, m: Market): set<Ticker> {
    set h | h in book && h != t
            && (t !in book || book[t].sector == "" || book[h].sector == book[t].sector)
            && m.correlation(t, h).Some?
  }

  /** A name already in the book, in a named sector, is compared with the comparable
      holdings of that sector alone; in an unnamed one, or outside the book, with all. */
  lemma PeersExactly(t: Ticker, book: Book, m: Market, h: Ticker)
    ensures t in book && book[t].sector != "" ==>
      (h in Peers(t, book, m) <==> h in book && h != t && book[h].sector == book[t].sector && m.correlation(t, h).Some?)
    ensures t !in book || book[t].sector == "" ==>
      (h in Peers(t, book, m) <==> h in book && h != t && m.correlation(t, h).Some?)
  {}

  function Correlation(m: Market, t: Ticker, h: Ticker): real {
    if m.correlation(t, h).Some? then m.correlation(t, h).value else 0.0
  }

  ghost predicate TooCorrelatedWith(t: Ticker, book: Book, cfg: Config, m: Market) {
    && m.histories && cfg.correlationGate && m.hasHistory(t)
    && Peers(t, book, m) != {}
    && Sums.Sum(Peers(t, book, m), (h: Ticker) => Correlation(m, t, h)) / |Peers(t, book, m)| as real
       > cfg.correlationThreshold
  }

  method CheckCorrelation(t: Ticker, book: Book, cfg: Config, m: Market) returns (blocked: bool)
    ensures blocked == TooCorrelatedWith(t, book, cfg, m)
  {
    if !m.histories || !cfg.correlationGate || !m.hasHistory(t) { return false; }
    var peers := Peers(t, book, m);
    if peers == {} { return false; }
    ghost var f := (h: Ticker) => Correlation(m, t, h);
    var sum := 0.0;
    var rest := peers;
    while rest != {}
      invariant rest <= peers
      invariant sum + Sums.Sum(rest, f) == Sums.Sum(peers, f)
    {
      var h :| h in rest;
      sum := sum + m.correlation(t, h).value;
      Sums.Pick(rest, f, h);
      rest := rest - {h};
    }
    blocked := sum / |peers| as real > cfg.correlationThreshold;
  }

  /** For a name the book does not hold, sectors play no part in the
      correlation gate: moving any holding to another sector changes nothing. */
  lemma CorrelationIgnoresSectors(t: Ticker, book: Book, other: Book, cfg: Config, m: Market)
    requires t !in book && other.Keys == book.Keys
    ensures TooCorrelatedWith(t, book, cfg, m) <==> TooCorrelatedWith(t, other, cfg, m)
  {
    assert Peers(t, book, m) == Peers(t, other, m);
  }

  /** The gate as its comments describe it: only holdings of the candidate's
      sector are compared. */
  ghost predicate TooCorrelatedInSector(t: Ticker, sector: Sector, book: Book, cfg: Config, m: Market) {
    var peers := set h | h in Peers(t, book, m) && book[h].sector == sector;
    && m.histories && cfg.correlationGate && m.hasHistory(t)
    && peers != {}
    && Sums.Sum(peers, (h: Ticker) => Correlation(m, t, h)) / |peers| as real > cfg.correlationThreshold
  }

  /** For a new name the gate does what its comments say, in every market and
      under every configuration, exactly when the whole book is in its sector. */
  lemma CorrelationIsSectoralExactly(t: Ticker, sector: Sector, book: Book)
    requires t !in book
    ensures (forall cfg: Config, m: Market {:trigger TooCorrelatedWith(t, book, cfg, m)} ::
               TooCorrelatedWith(t, book, cfg, m) <==> TooCorrelatedInSector(t, sector, book, cfg, m))
       <==> (forall h :: h in book ==> book[h].sector == sector)
  {
    if forall h :: h in book ==> book[h].sector == sector {
      forall cfg: Config, m: Market
        ensures TooCorrelatedWith(t, book, cfg, m) <==> TooCorrelatedInSector(t, sector, book, cfg, m)
      {
        assert Peers(t, book, m) == set h | h in Peers(t, book, m) && book[h].sector == sector;
      }
    } else {
      var h0 :| h0 in book && book[h0].sector != sector;
      BlockedAcrossSectors(t, sector, book, h0);
    }
  }

  const STRICT := Config(false, true, -0.05, true, 0.0, 70.0, 0.5, false, true, 0.25, 0.9, true, 0.0)

  /** A market in which only one holding can be compared, and moves with the candidate. */
  function Twins(h0: Ticker): Market {
    Market(100.0, 1.0, true, t => true, (a, b) => if b == h0 then Some(1.0) else None)
  }

  /** A holding of another sector blocks the candidate on its own. */
  lemma BlockedAcrossSectors(t: Ticker, sector: Sector, book: Book, h0: Ticker)
    requires t !in book && h0 in book && book[h0].sector != sector
    ensures TooCorrelatedWith(t, book, STRICT, Twins(h0)) && !TooCorrelatedInSector(t, sector, book, STRICT, Twins(h0))
  {
    assert Peers(t, book, Twins(h0)) == {h0};
    Sums.Pick({h0}, (h: Ticker) => Correlation(Twins(h0), t, h), h0);
    assert {h0} - {h0} == {};
  }

  // ---------------------------------------------------------------- gates

  function EntryGate(start: Book, c: Candidate, cfg: Config): Option<Reason> {
    var p := c.prediction;
    if c.ticker in start then Some(AlreadyHeld)
    else if cfg.momentumGate && p.catalyst && p.catalystDate.None? then Some(CatalystDateMissing)
    else if cfg.momentumGate && !p.catalyst && p.momentumVeto == Some(true) then Some(MomentumVeto)
    else if cfg.momentumGate && !p.catalyst && p.momentumVeto.None?
            && c.fallbackMomentum.Some? && c.fallbackMomentum.value < cfg.momentumThreshold then Some(MomentumFallback)
    else if cfg.momentumGate && !p.catalyst && cfg.reversalGate
            && p.confirmation.Some? && p.confirmation.value < cfg.reversalThreshold then Some(NotReversing)
    else if c.price.None? || c.price.value == 0.0 then Some(NoPrice)
    else if c.sizing.shares == 0 then Some(NoShares)
    else if p.gbmVeto then Some(GbmVeto)
    else None
  }

  const ROUNDING_DOLLARS: real := 0.01

  /** The risk guard, rule by rule, against the running book. */
  ghost function CheckOrder(batch: Book, c: Candidate, cfg: Config, m: Market): Option<Reason> {
    var dollars := c.sizing.dollars;
    if m.nav <= 0.0 then Some(NavNotPositive)
    else if c.score.None? then Some(ScoreMissing)
    else if c.score.value < cfg.minScore then Some(ScoreTooLow)
    else if m.drawdownMultiplier <= 0.0 then Some(DrawdownHalt)
    else if dollars > cfg.maxPosition * m.nav + ROUNDING_DOLLARS then Some(PositionTooLarge)
    else if cfg.bear && cfg.bearBlocksUnderweight && c.underweight then Some(BearUnderweight)
    else if (Exposure(batch, Only(c.sector)) + dollars) / m.nav > cfg.maxSector then Some(SectorFull)
    else if (Exposure(batch, Whole) + dollars) / m.nav > cfg.maxEquity then Some(EquityFull)
    else if TooCorrelatedWith(c.ticker, batch, cfg, m) then Some(TooCorrelated)
    else None
  }

  method CheckOrderNow(batch: Book, c: Candidate, cfg: Config, m: Market) returns (r: Option<Reason>)
    ensures r == CheckOrder(batch, c, cfg, m)
  {
    var dollars := c.sizing.dollars;
    if m.nav <= 0.0 { return Some(NavNotPositive); }
    if c.score.None? { return Some(ScoreMissing); }
    if c.score.value < cfg.minScore { return Some(ScoreTooLow); }
    if m.drawdownMultiplier <= 0.0 { return Some(DrawdownHalt); }
    if dollars > cfg.maxPosition * m.nav + ROUNDING_DOLLARS { return Some(PositionTooLarge); }
    if cfg.bear && cfg.bearBlocksUnderweight && c.underweight { return Some(BearUnderweight); }
    var inSector := MeasureExposure(batch, Only(c.sector));
    if (inSector + dollars) / m.nav > cfg.maxSector { return Some(SectorFull); }
    var equity := MeasureExposure(batch, Whole);
    if (equity + dollars) / m.nav > cfg.maxEquity { return Some(EquityFull); }
    var correlated := CheckCorrelation(c.ticker, batch, cfg, m);
    r := if correlated then Some(TooCorrelated) else None;
  }

  /** The predictor's veto decides; without one, the price history does.  A
      bearish confirmation blocks on top of either. */
  predicate MomentumAgrees(c: Candidate, cfg: Config) {
    var p := c.prediction;
    && (if p.momentumVeto.Some? then !p.momentumVeto.value
        else c.fallbackMomentum.Some? ==> c.fallbackMomentum.value >= cfg.momentumThreshold)
    && (cfg.reversalGate && p.confirmation.Some? ==> p.confirmation.value >= cfg.reversalThreshold)
  }

  /** Not held, priced, with shares and no predictor override, and, with the
      momentum gate on, a dated catalyst or confirmed by momentum. */
  predicate Eligible(start: Book, c: Candidate, cfg: Config) {
    && c.ticker !in start && c.price.Some? && c.price.value != 0.0 && c.sizing.shares != 0 && !c.prediction.gbmVeto
    && (cfg.momentumGate ==> if c.prediction.catalyst then c.prediction.catalystDate.Some? else MomentumAgrees(c, cfg))
  }

  lemma EntryGatePassesExactly(start: Book, c: Candidate, cfg: Config)
    ensures EntryGate(start, c, cfg).None? <==> Eligible(start, c, cfg)
  {}

  /** `d` is `c` with no better momentum: a lower reading where there is one, a
      veto that is no weaker, the rest alike.  Missing readings cannot block. */
  predicate NoBetterMomentum(c: Candidate, d: Candidate) {
    var p, q := c.prediction, d.prediction;
    && d == c.(prediction := q, fallbackMomentum := d.fallbackMomentum)
    && q == p.(momentumVeto := q.momentumVeto, confirmation := q.confirmation)
    && (p.momentumVeto.None? <==> q.momentumVeto.None?)
    && (p.momentumVeto == Some(true) ==> q.momentumVeto == Some(true))
    && (p.confirmation.Some? ==> q.confirmation.Some? && q.confirmation.value <= p.confirmation.value)
    && (c.fallbackMomentum.Some? ==> d.fallbackMomentum.Some? && d.fallbackMomentum.value <= c.fallbackMomentum.value)
  }

  /** Worse momentum never admits a candidate that better momentum did not. */
  lemma WorseMomentumNeverAdmits(start: Book, c: Candidate, d: Candidate, cfg: Config)
    requires NoBetterMomentum(c, d) && EntryGate(start, d, cfg).None?
    ensures EntryGate(start, c, cfg).None?
  {}

  /** The risk guard approves exactly when the score is good enough, drawdown has
      not halted entries, and the order fits its own cap, its sector's cap and
      the book's cap without being too correlated. */
  lemma ApprovedExactly(batch: Book, c: Candidate, cfg: Config, m: Market)
    ensures CheckOrder(batch, c, cfg, m).None? <==>
      && m.nav > 0.0 && c.score.Some? && c.score.value >= cfg.minScore && m.drawdownMultiplier > 0.0
      && c.sizing.dollars <= cfg.maxPosition * m.nav + ROUNDING_DOLLARS
      && !(cfg.bear && cfg.bearBlocksUnderweight && c.underweight)
      && Exposure(batch, Only(c.sector)) + c.sizing.dollars <= Cap(Only(c.sector), cfg, m)
      && Exposure(batch, Whole) + c.sizing.dollars <= Cap(Whole, cfg, m)
      && !TooCorrelatedWith(c.ticker, batch, cfg, m)
  {
    if m.nav > 0.0 {
      FitsExactly(Exposure(batch, Only(c.sector)) + c.sizing.dollars, m.nav, cfg.maxSector);
      FitsExactly(Exposure(batch, Whole) + c.sizing.dollars, m.nav, cfg.maxEquity);
    }
    hide Exposure, TooCorrelatedWith;
  }

  lemma FitsExactly(total: real, nav: real, pct: real)
    requires nav > 0.0
    ensures total / nav <= pct <==> total <= pct * nav
  {
    var q := total / nav;
    assert q * nav == total;
    if q > pct { assert (q - pct) * nav > 0.0; } else { assert (pct - q) * nav >= 0.0; }
  }

  // ---------------------------------------------------------------- the batch

  datatype Refusal = Refusal(candidate: Candidate, reason: Reason)

  datatype Plan = Plan(batch: Book, orders: seq<Candidate>, blocked: seq<Refusal>)

  /** A missing ATR on an approved entry aborts the whole plan. */
  datatype Outcome = Done(plan: Plan) | Aborted(ticker: Ticker)

  ghost function Gate(start: Book, batch: Book, c: Candidate, cfg: Config, m: Market): Option<Reason> {
    if EntryGate(start, c, cfg).Some? then EntryGate(start, c, cfg) else CheckOrder(batch, c, cfg, m)
  }

  ghost function Consider(start: Book, p: Plan, c: Candidate, cfg: Config, m: Market): Outcome {
    var reason := Gate(start, p.batch, c, cfg, m);
    if reason.Some? then Done(p.(blocked := p.blocked + [Refusal(c, reason.value)]))
    else if c.atr.None? then Aborted(c.ticker)
    else Done(p.(batch := Enter(p.batch, c), orders := p.orders + [c]))
  }

  ghost function Run(start: Book, cs: seq<Candidate>, cfg: Config, m: Market): Outcome {
    if cs == [] then Done(Plan(start, [], [])) else
      var before := Run(start, cs[..|cs| - 1], cfg, m);
      if before.Aborted? then before else Consider(start, before.plan, cs[|cs| - 1], cfg, m)
  }

  /** One candidate either joins the refusals or joins the orders and the book. */
  ghost predicate Stepped(start: Book, p: Plan, q: Plan, c: Candidate, cfg: Config, m: Market) {
    var reason := Gate(start, p.batch, c, cfg, m);
    q == if reason.Some? then p.(blocked := p.blocked + [Refusal(c, reason.value)])
         else p.(batch := Enter(p.batch, c), orders := p.orders + [c])
  }

  lemma RunStep(start: Book, cs: seq<Candidate>, cfg: Config, m: Market)
    requires cs != [] && Run(start, cs, cfg, m).Done?
    ensures var before := Run(start, cs[..|cs| - 1], cfg, m);
      before.Done? && Stepped(start, before.plan, Run(start, cs, cfg, m).plan, cs[|cs| - 1], cfg, m)
  {
    hide Gate, Enter;
  }

  lemma RunNext(start: Book, cs: seq<Candidate>, k: nat, cfg: Config, m: Market)
    requires k < |cs| && Run(start, cs[..k], cfg, m).Done?
    ensures Run(start, cs[..k + 1], cfg, m) == Consider(start, Run(start, cs[..k], cfg, m).plan, cs[k], cfg, m)
  {
    assert cs[..k + 1][..k] == cs[..k];
  }

  lemma {:induction false} AbortSticks(start: Book, cs: seq<Candidate>, k: nat, cfg: Config, m: Market)
    requires k <= |cs| && Run(start, cs[..k], cfg, m).Aborted?
    ensures Run(start, cs, cfg, m) == Run(start, cs[..k], cfg, m)
  {
    if k < |cs| {
      assert cs[..|cs| - 1][..k] == cs[..k];
      AbortSticks(start, cs[..|cs| - 1], k, cfg, m);
    } else {
      assert cs[..k] == cs;
    }
  }

  // ---------------------------------------------------------------- every candidate lands once

  function Names(blocked: seq<Refusal>): seq<Candidate> {
    if blocked == [] then [] else Names(blocked[..|blocked| - 1]) + [blocked[|blocked| - 1].candidate]
  }


  lemma NamesSnoc(blocked: seq<Refusal>, r: Refusal)
    ensures Names(blocked + [r]) == Names(blocked) + [r.candidate]
  {
    assert (blocked + [r])[..|blocked|] == blocked;
  }

  /** Unless the plan aborts, every candidate is in exactly one of the orders
      and the refusals. */
  lemma {:induction false} EveryCandidateOnce(start: Book, cs: seq<Candidate>, cfg: Config, m: Market)
    requires Run(start, cs, cfg, m).Done?
    ensures var p := Run(start, cs, cfg, m).plan;
            multiset(p.orders) + multiset(Names(p.blocked)) == multiset(cs)
  {
    if cs != [] {
      var n := |cs| - 1;
      assert cs == cs[..n] + [cs[n]];
      RunStep(start, cs, cfg, m);
      hide Gate, Run;
      EveryCandidateOnce(start, cs[..n], cfg, m);
      var p := Run(start, cs[..n], cfg, m).plan;
      var reason := Gate(start, p.batch, cs[n], cfg, m);
      if reason.Some? { NamesSnoc(p.blocked, Refusal(cs[n], reason.value)); }
      Shift(p.orders, Names(p.blocked), cs[..n], cs[n]);
    }
  }

  lemma Shift(orders: seq<Candidate>, names: seq<Candidate>, cs: seq<Candidate>, c: Candidate)
    requires multiset(orders) + multiset(names) == multiset(cs)
    ensures multiset(orders + [c]) + multiset(names) == multiset(cs + [c])
    ensures multiset(orders) + multiset(names + [c]) == multiset(cs + [c])
  {}

  /** A refusal at the entry gates, rather than by the risk guard. */
  predicate AtGate(r: Reason) {
    r in {AlreadyHeld, CatalystDateMissing, MomentumVeto, MomentumFallback, NotReversing, NoPrice, NoShares, GbmVeto}
  }

  /** Over a whole batch every order was eligible and properly scored, and the
      entry gates refused exactly the ineligible candidates. */
  lemma {:induction false} GatesSortTheBatch(start: Book, cs: seq<Candidate>, cfg: Config, m: Market)
    requires Run(start, cs, cfg, m).Done?
    ensures forall c :: c in Run(start, cs, cfg, m).plan.orders ==>
      Eligible(start, c, cfg) && c.score.Some? && c.score.value >= cfg.minScore
    ensures forall r :: r in Run(start, cs, cfg, m).plan.blocked ==> (AtGate(r.reason) <==> !Eligible(start, r.candidate, cfg))
  {
    if cs != [] {
      var n := |cs| - 1;
      RunStep(start, cs, cfg, m);
      var p := Run(start, cs[..n], cfg, m).plan;
      GateReasons(start, p.batch, cs[n], cfg, m);
      hide Run, Gate, Eligible, AtGate;
      GatesSortTheBatch(start, cs[..n], cfg, m);
    }
  }

  lemma GateReasons(start: Book, batch: Book, c: Candidate, cfg: Config, m: Market)
    ensures var r := Gate(start, batch, c, cfg, m);
      && (r.None? ==> Eligible(start, c, cfg) && c.score.Some? && c.score.value >= cfg.minScore)
      && (r.Some? ==> (AtGate(r.value) <==> !Eligible(start, c, cfg)))
  {
    EntryGatePassesExactly(start, c, cfg);
    hide Exposure, TooCorrelatedWith;
  }

  /** The orders are in priority order. */
  lemma {:induction false} OrdersKeepOrder(start: Book, cs: seq<Candidate>, cfg: Config, m: Market)
    requires Run(start, cs, cfg, m).Done? && InPriorityOrder(cs, cfg)
    ensures InPriorityOrder(Run(start, cs, cfg, m).plan.orders, cfg)
    ensures forall c :: c in Run(start, cs, cfg, m).plan.orders ==> c in cs
  {
    if cs != [] {
      var n := |cs| - 1;
      OrdersKeepOrder(start, cs[..n], cfg, m);
      var orders := Run(start, cs[..n], cfg, m).plan.orders;
      forall i | 0 <= i < |orders| ensures !Before(Rank(cs[n], cfg), Rank(orders[i], cfg)) {
        assert orders[i] in cs[..n];
      }
    }
  }

  // ---------------------------------------------------------------- caps

  function Filled(start: Book, orders: seq<Candidate>): Book {
    if orders == [] then start else Enter(Filled(start, orders[..|orders| - 1]), orders[|orders| - 1])
  }

  function Ordered(orders: seq<Candidate>, scope: Scope): real {
    if orders == [] then 0.0 else
      var c := orders[|orders| - 1];
      Ordered(orders[..|orders| - 1], scope) + (if Covers(scope, c.sector) then c.sizing.dollars else 0.0)
  }

  /** Dollars the running book forgot because a later order of the same name
      replaced its entry. */
  function Forgotten(start: Book, orders: seq<Candidate>, scope: Scope): real {
    if orders == [] then 0.0 else
      var before := orders[..|orders| - 1];
      Forgotten(start, before, scope) + Share(Filled(start, before), scope, orders[|orders| - 1].ticker)
  }

  /** What the portfolio would really hold once the batch fills. */
  ghost function TrueExposure(start: Book, orders: seq<Candidate>, scope: Scope): real {
    Exposure(start, scope) + Ordered(orders, scope)
  }

  /** The running book is the true exposure less what it forgot. */
  lemma {:induction false} TallyIdentity(start: Book, orders: seq<Candidate>, scope: Scope)
    ensures TrueExposure(start, orders, scope)
         == Exposure(Filled(start, orders), scope) + Forgotten(start, orders, scope)
  {
    if orders != [] {
      var n := |orders| - 1;
      TallyIdentity(start, orders[..n], scope);
      EnterExposure(Filled(start, orders[..n]), orders[n], scope);
    }
  }

  ghost predicate DistinctTickers(cs: seq<Candidate>) {
    forall i, j :: 0 <= i < j < |cs| ==> cs[i].ticker != cs[j].ticker
  }

  lemma {:induction false} FilledKeys(start: Book, orders: seq<Candidate>, t: Ticker)
    ensures t in Filled(start, orders) <==> t in start || exists c :: c in orders && c.ticker == t
    ensures t in Filled(start, orders) && t !in start ==>
      exists c :: c in orders && c.ticker == t && Filled(start, orders)[t] == Holding(c.sizing.dollars, c.sector)
  {
    if orders != [] {
      var n := |orders| - 1;
      FilledKeys(start, orders[..n], t);
      assert orders == orders[..n] + [orders[n]];
    }
  }

  ghost predicate Fresh(start: Book, orders: seq<Candidate>) {
    forall c :: c in orders ==> c.ticker !in start && c.sizing.dollars > 0.0
  }

  /** The running book holds something of a fresh name iff it was ordered. */
  lemma HeldIffOrdered(start: Book, orders: seq<Candidate>, t: Ticker)
    requires Fresh(start, orders) && t !in start
    ensures Share(Filled(start, orders), Whole, t) >= 0.0
    ensures Share(Filled(start, orders), Whole, t) == 0.0 <==> !exists d :: d in orders && d.ticker == t
  {
    FilledKeys(start, orders, t);
  }

  /** Nothing is forgotten, in total, exactly when no name is ordered twice. */
  lemma {:induction false} NothingForgottenExactly(start: Book, orders: seq<Candidate>)
    requires Fresh(start, orders)
    ensures Forgotten(start, orders, Whole) >= 0.0
    ensures Forgotten(start, orders, Whole) == 0.0 <==> DistinctTickers(orders)
  {
    if orders != [] {
      var n := |orders| - 1;
      assert orders == orders[..n] + [orders[n]] && orders[n] in orders;
      NothingForgottenExactly(start, orders[..n]);
      HeldIffOrdered(start, orders[..n], orders[n].ticker);
      DistinctSnoc(orders[..n], orders[n]);
      hide Filled, Share, DistinctTickers;
    }
  }

  lemma DistinctSnoc(cs: seq<Candidate>, c: Candidate)
    ensures DistinctTickers(cs + [c]) <==> DistinctTickers(cs) && !exists d :: d in cs && d.ticker == c.ticker
  {
    var all := cs + [c];
    assert all[|cs|] == c;
    assert forall i :: 0 <= i < |cs| ==> all[i] == cs[i];
    if d :| d in cs && d.ticker == c.ticker {
      var i :| 0 <= i < |cs| && cs[i] == d;
      assert all[i].ticker == all[|cs|].ticker;
    }
    if DistinctTickers(all) {
      forall i, j | 0 <= i < j < |cs| ensures cs[i].ticker != cs[j].ticker {
        assert all[i].ticker != all[j].ticker;
      }
    }
  }

  lemma {:induction false} ForgottenIsSmall(start: Book, orders: seq<Candidate>, scope: Scope)
    requires Fresh(start, orders)
    ensures 0.0 <= Forgotten(start, orders, scope) <= Forgotten(start, orders, Whole)
  {
    if orders != [] {
      var n := |orders| - 1;
      assert orders == orders[..n] + [orders[n]] && orders[n] in orders;
      ForgottenIsSmall(start, orders[..n], scope);
      FilledKeys(start, orders[..n], orders[n].ticker);
    }
  }

  function Cap(scope: Scope, cfg: Config, m: Market): real {
    (if scope.Whole? then cfg.maxEquity else cfg.maxSector) * m.nav
  }

  function Larger(a: real, b: real): real { if a >= b then a else b }

  /** An approval leaves room under both caps. */
  lemma ApprovalFits(start: Book, batch: Book, c: Candidate, cfg: Config, m: Market)
    requires Gate(start, batch, c, cfg, m).None?
    ensures c.ticker !in start && c.sizing.shares != 0
    ensures Exposure(batch, Only(c.sector)) + c.sizing.dollars <= Cap(Only(c.sector), cfg, m)
    ensures Exposure(batch, Whole) + c.sizing.dollars <= Cap(Whole, cfg, m)
  {
    ApprovedExactly(batch, c, cfg, m);
    EntryGatePassesExactly(start, c, cfg);
    hide CheckOrder, EntryGate, Exposure, Cap;
  }

  /** Sizing is long-only: a candidate with shares has positive dollars. */
  ghost predicate LongOnly(cs: seq<Candidate>) {
    forall c :: c in cs && c.sizing.shares != 0 ==> c.sizing.dollars > 0.0
  }

  /** The running book never exceeds a cap that the starting book respected,
      nor makes an excess worse; and it is the filled book of the orders. */
  lemma {:induction false} TallyWithinCaps(start: Book, cs: seq<Candidate>, cfg: Config, m: Market, scope: Scope)
    requires Run(start, cs, cfg, m).Done? && LongOnly(cs)
    ensures WithinCaps(start, Run(start, cs, cfg, m).plan, cfg, m, scope)
  {
    if cs != [] {
      var n := |cs| - 1;
      assert cs == cs[..n] + [cs[n]] && cs[n] in cs;
      RunStep(start, cs, cfg, m);
      hide Gate, Run, WithinCaps;
      TallyWithinCaps(start, cs[..n], cfg, m, scope);
      var p := Run(start, cs[..n], cfg, m).plan;
      Blocked(start, p, cs[n], cfg, m, scope);
      if Gate(start, p.batch, cs[n], cfg, m).None? {
        Approved(start, p, cs[n], cfg, m, scope);
      }
    }
  }

  ghost predicate WithinCaps(start: Book, p: Plan, cfg: Config, m: Market, scope: Scope) {
    && p.batch == Filled(start, p.orders) && Fresh(start, p.orders)
    && Exposure(p.batch, scope) <= Larger(Exposure(start, scope), Cap(scope, cfg, m))
  }

  lemma Blocked(start: Book, p: Plan, c: Candidate, cfg: Config, m: Market, scope: Scope)
    requires WithinCaps(start, p, cfg, m, scope)
    ensures forall q: Plan {:trigger WithinCaps(start, q, cfg, m, scope)} ::
              q.batch == p.batch && q.orders == p.orders ==> WithinCaps(start, q, cfg, m, scope)
  {}

  lemma Approved(start: Book, p: Plan, c: Candidate, cfg: Config, m: Market, scope: Scope)
    requires WithinCaps(start, p, cfg, m, scope)
    requires Gate(start, p.batch, c, cfg, m).None? && (c.sizing.shares != 0 ==> c.sizing.dollars > 0.0)
    ensures WithinCaps(start, p.(batch := Enter(p.batch, c), orders := p.orders + [c]), cfg, m, scope)
  {
    ApprovalFits(start, p.batch, c, cfg, m);
    hide Gate, Exposure, Share, Cap, Fresh, Filled, Enter;
    FilledSnoc(start, p.orders, c);
    FreshSnoc(start, p.orders, c);
    ApprovedExposure(start, p, c, cfg, m, scope);
  }

  lemma FilledSnoc(start: Book, orders: seq<Candidate>, c: Candidate)
    ensures Filled(start, orders + [c]) == Enter(Filled(start, orders), c)
  {
    assert (orders + [c])[..|orders|] == orders;
  }

  lemma ApprovedExposure(start: Book, p: Plan, c: Candidate, cfg: Config, m: Market, scope: Scope)
    requires WithinCaps(start, p, cfg, m, scope) && c.ticker !in start
    requires Exposure(p.batch, Only(c.sector)) + c.sizing.dollars <= Cap(Only(c.sector), cfg, m)
    requires Exposure(p.batch, Whole) + c.sizing.dollars <= Cap(Whole, cfg, m)
    ensures Exposure(Enter(p.batch, c), scope) <= Larger(Exposure(start, scope), Cap(scope, cfg, m))
  {
    hide Exposure, Share, Cap, Fresh, Filled, Enter;
    OldShareIsNonNegative(start, p.orders, c.ticker, scope);
    EnterExposure(p.batch, c, scope);
    StaysUnder(Exposure(start, scope), Exposure(p.batch, scope), Exposure(Enter(p.batch, c), scope),
               Share(p.batch, scope, c.ticker), c, cfg, m, scope);
  }

  lemma FreshSnoc(start: Book, orders: seq<Candidate>, c: Candidate)
    requires Fresh(start, orders) && c.ticker !in start && c.sizing.dollars > 0.0
    ensures Fresh(start, orders + [c])
  {}

  lemma StaysUnder(start: real, before: real, after: real, had: real, c: Candidate, cfg: Config, m: Market, scope: Scope)
    requires before <= Larger(start, Cap(scope, cfg, m)) && had >= 0.0
    requires after == before - had + (if Covers(scope, c.sector) then c.sizing.dollars else 0.0)
    requires Covers(scope, c.sector) ==> before + c.sizing.dollars <= Cap(scope, cfg, m)
    ensures after <= Larger(start, Cap(scope, cfg, m))
  {}

  lemma OldShareIsNonNegative(start: Book, orders: seq<Candidate>, t: Ticker, scope: Scope)
    requires Fresh(start, orders) && t !in start
    ensures Share(Filled(start, orders), scope, t) >= 0.0
  {
    FilledKeys(start, orders, t);
  }

  /** Over any batch, the real exposure of a sector or of the whole book stays
      under the larger of its start and its cap, up to what was forgotten. */
  lemma BatchWithinCaps(start: Book, cs: seq<Candidate>, cfg: Config, m: Market, scope: Scope)
    requires Run(start, cs, cfg, m).Done? && LongOnly(cs)
    ensures var orders := Run(start, cs, cfg, m).plan.orders;
            && TrueExposure(start, orders, scope)
               <= Larger(Exposure(start, scope), Cap(scope, cfg, m)) + Forgotten(start, orders, scope)
            && (DistinctTickers(orders) ==>
                TrueExposure(start, orders, scope) <= Larger(Exposure(start, scope), Cap(scope, cfg, m)))
  {
    var orders := Run(start, cs, cfg, m).plan.orders;
    TallyWithinCaps(start, cs, cfg, m, scope);
    TallyIdentity(start, orders, scope);
    NothingForgottenExactly(start, orders);
    ForgottenIsSmall(start, orders, scope);
  }

  // ---------------------------------------------------------------- distinct names keep the caps

  lemma {:induction false} OrdersAreCandidates(start: Book, cs: seq<Candidate>, cfg: Config, m: Market)
    requires Run(start, cs, cfg, m).Done?
    ensures forall c :: c in Run(start, cs, cfg, m).plan.orders ==> c in cs
  {
    if cs != [] {
      var n := |cs| - 1;
      assert cs == cs[..n] + [cs[n]];
      RunStep(start, cs, cfg, m);
      hide Run, Gate;
      OrdersAreCandidates(start, cs[..n], cfg, m);
    }
  }

  lemma {:induction false} DistinctOrders(start: Book, cs: seq<Candidate>, cfg: Config, m: Market)
    requires Run(start, cs, cfg, m).Done? && DistinctTickers(cs)
    ensures DistinctTickers(Run(start, cs, cfg, m).plan.orders)
  {
    if cs != [] {
      var n := |cs| - 1;
      assert cs == cs[..n] + [cs[n]];
      RunStep(start, cs, cfg, m);
      DistinctSnoc(cs[..n], cs[n]);
      hide Run, Gate, DistinctTickers;
      DistinctOrders(start, cs[..n], cfg, m);
      OrdersAreCandidates(start, cs[..n], cfg, m);
      DistinctSnoc(Run(start, cs[..n], cfg, m).plan.orders, cs[n]);
    }
  }

  /** Everything ahead of the last. */
  function Ahead<T>(s: seq<T>): seq<T> { if s == [] then [] else s[..|s| - 1] }

  /** The tally ahead of the last candidate is the truth, so whatever the last
      one is, its approval is checked against the truth. */
  lemma DistinctAheadWithinCaps(start: Book, cs: seq<Candidate>, cfg: Config, m: Market, scope: Scope)
    requires Run(start, cs, cfg, m).Done? && LongOnly(cs) && DistinctTickers(Ahead(cs))
    ensures TrueExposure(start, Run(start, cs, cfg, m).plan.orders, scope) <= Larger(Exposure(start, scope), Cap(scope, cfg, m))
  {
    if cs != [] {
      var n := |cs| - 1;
      assert forall x :: x in cs[..n] ==> x in cs;
      RunStep(start, cs, cfg, m);
      var p, q := Run(start, cs[..n], cfg, m).plan, Run(start, cs, cfg, m).plan;
      DistinctOrders(start, cs[..n], cfg, m);
      BatchWithinCaps(start, cs[..n], cfg, m, scope);
      TrueTally(start, cs[..n], cfg, m, scope);
      hide Run, Gate, Exposure, Cap, Ordered, Forgotten, DistinctTickers, LongOnly, Covers, TrueExposure;
      LastWithinCaps(start, p, q, cs[n], cfg, m, scope);
    } else {
      assert Run(start, cs, cfg, m).plan.orders == [];
    }
  }

  lemma LastWithinCaps(start: Book, p: Plan, q: Plan, c: Candidate, cfg: Config, m: Market, scope: Scope)
    requires Stepped(start, p, q, c, cfg, m)
    requires TrueExposure(start, p.orders, scope) <= Larger(Exposure(start, scope), Cap(scope, cfg, m))
    requires Exposure(p.batch, scope) == TrueExposure(start, p.orders, scope)
    ensures TrueExposure(start, q.orders, scope) <= Larger(Exposure(start, scope), Cap(scope, cfg, m))
  {
    hide Gate, Exposure, Cap, Ordered;
    if Gate(start, p.batch, c, cfg, m).None? {
      ApprovalFits(start, p.batch, c, cfg, m);
      OrderedSnoc(p.orders, c, scope);
    }
  }

  /** When no name is ordered twice the running book is the true book. */
  lemma TrueTally(start: Book, cs: seq<Candidate>, cfg: Config, m: Market, scope: Scope)
    requires Run(start, cs, cfg, m).Done? && LongOnly(cs) && DistinctTickers(Run(start, cs, cfg, m).plan.orders)
    ensures var p := Run(start, cs, cfg, m).plan; Exposure(p.batch, scope) == TrueExposure(start, p.orders, scope)
  {
    var orders := Run(start, cs, cfg, m).plan.orders;
    TallyWithinCaps(start, cs, cfg, m, scope);
    TallyIdentity(start, orders, scope);
    NothingForgottenExactly(start, orders);
    ForgottenIsSmall(start, orders, scope);
    hide Run, Exposure, TrueExposure, Forgotten, Fresh, DistinctTickers;
  }

  lemma DistinctCons(c: Candidate, cs: seq<Candidate>)
    ensures DistinctTickers([c] + cs) <==> DistinctTickers(cs) && !exists d :: d in cs && d.ticker == c.ticker
  {
    var all := [c] + cs;
    assert forall i :: 0 <= i < |cs| ==> all[i + 1] == cs[i];
    if d :| d in cs && d.ticker == c.ticker {
      var i :| 0 <= i < |cs| && cs[i] == d;
      assert all[0].ticker == all[i + 1].ticker;
    }
    if DistinctTickers(all) {
      forall i, j | 0 <= i < j < |cs| ensures cs[i].ticker != cs[j].ticker {
        assert all[i + 1].ticker != all[j + 1].ticker;
      }
    }
  }

  lemma {:induction false} InsertDistinct(c: Candidate, cs: seq<Candidate>, cfg: Config)
    requires DistinctTickers([c] + cs)
    ensures DistinctTickers(Insert(c, cs, cfg))
  {
    if cs != [] && Before(Rank(cs[0], cfg), Rank(c, cfg)) {
      var h, rest := cs[0], Insert(c, cs[1..], cfg);
      assert cs == [h] + cs[1..];
      DistinctCons(c, cs);
      DistinctCons(h, cs[1..]);
      DistinctCons(c, cs[1..]);
      InsertDistinct(c, cs[1..], cfg);
      forall d | d in rest ensures d.ticker != h.ticker {
        assert d in multiset(rest);
        assert d == c || d in cs[1..];
      }
      DistinctCons(h, rest);
    }
  }

  lemma {:induction false} PrioritisedDistinct(cs: seq<Candidate>, cfg: Config)
    requires DistinctTickers(cs)
    ensures DistinctTickers(Prioritised(cs, cfg)) && DistinctTickers(Ahead(Prioritised(cs, cfg)))
  {
    if cs != [] {
      var rest := Prioritised(cs[1..], cfg);
      assert cs == [cs[0]] + cs[1..];
      DistinctCons(cs[0], cs[1..]);
      PrioritisedDistinct(cs[1..], cfg);
      forall d | d in rest ensures d.ticker != cs[0].ticker {
        assert d in multiset(rest);
        assert d in cs[1..];
      }
      DistinctCons(cs[0], rest);
      InsertDistinct(cs[0], rest, cfg);
    }
  }

  // ---------------------------------------------------------------- exactly which batches keep the caps

  function Sized(ticker: Ticker, shares: int, dollars: real): Candidate {
    Candidate(ticker, "Tech", false, Some(80.0), 0.0, Prediction(false, None, Some(false), None, false, 0.0),
              None, Some(1.0), Sizing(shares, dollars), Some(0.02))
  }

  const RISK := Config(false, true, -0.05, true, 0.0, 70.0, 0.5, false, true, 0.25, 0.9, false, 0.8)

  const CALM := Market(100.0, 1.0, false, t => true, (a, b) => None)

  /** Position `i` buys 20, position `j` buys 5, the last buys 20, nobody else buys. */
  function Dollars(n: nat, i: nat, j: nat, k: nat): real {
    if k == i || k + 1 == n then 20.0 else if k == j then 5.0 else 0.0
  }

  function Crafted(ts: seq<Ticker>, i: nat, j: nat): (cs: seq<Candidate>)
    ensures |cs| == |ts|
  {
    seq(|ts|, k requires 0 <= k < |ts| =>
      Sized(ts[k], if Dollars(|ts|, i, j, k) == 0.0 then 0 else 1, Dollars(|ts|, i, j, k)))
  }

  lemma {:induction false} EqualRanksStay(cs: seq<Candidate>, rank: (real, real, real), cfg: Config)
    requires forall k :: 0 <= k < |cs| ==> Rank(cs[k], cfg) == rank
    ensures Prioritised(cs, cfg) == cs
  {
    hide Rank;
    if cs != [] {
      EqualRanksStay(cs[1..], rank, cfg);
      InsertFirst(cs[0], cs[1..], cfg);
      assert cs == [cs[0]] + cs[1..];
    }
  }

  lemma InsertFirst(c: Candidate, cs: seq<Candidate>, cfg: Config)
    requires cs != [] ==> Rank(cs[0], cfg) == Rank(c, cfg)
    ensures Insert(c, cs, cfg) == [c] + cs
  {
    hide Rank;
  }

  lemma SizedRank(t: Ticker, shares: int, dollars: real)
    ensures Rank(Sized(t, shares, dollars), RISK) == Rank(Sized("", 0, 0.0), RISK)
  {}

  lemma CraftedStays(ts: seq<Ticker>, i: nat, j: nat)
    ensures Prioritised(Crafted(ts, i, j), RISK) == Crafted(ts, i, j)
  {
    var cs := Crafted(ts, i, j);
    hide Rank, Prioritised, Sized;
    forall k | 0 <= k < |cs| ensures Rank(cs[k], RISK) == Rank(Sized("", 0, 0.0), RISK) {
      SizedRank(ts[k], if Dollars(|ts|, i, j, k) == 0.0 then 0 else 1, Dollars(|ts|, i, j, k));
    }
    EqualRanksStay(cs, Rank(Sized("", 0, 0.0), RISK), RISK);
  }

  lemma CraftedIsLongOnly(ts: seq<Ticker>, i: nat, j: nat)
    ensures LongOnly(Crafted(ts, i, j))
  {
    hide Prioritised;
  }

  lemma OrderedSnoc(orders: seq<Candidate>, c: Candidate, scope: Scope)
    ensures Ordered(orders + [c], scope) == Ordered(orders, scope) + (if Covers(scope, c.sector) then c.sizing.dollars else 0.0)
  {
    assert (orders + [c])[..|orders|] == orders;
  }

  lemma OrderedThree(a: Candidate, b: Candidate, c: Candidate, scope: Scope)
    requires Covers(scope, a.sector) && Covers(scope, b.sector) && Covers(scope, c.sector)
    ensures Ordered([a, b, c], scope) == a.sizing.dollars + b.sizing.dollars + c.sizing.dollars
  {
    OrderedSnoc([], a, scope);
    OrderedSnoc([a], b, scope);
    OrderedSnoc([a, b], c, scope);
    assert [] + [a] == [a] && [a] + [b] == [a, b] && [a, b] + [c] == [a, b, c];
  }

  lemma Below(total: real, nav: real)
    requires nav == 100.0 && total <= 25.0
    ensures total / nav <= 0.25
  {}

  lemma Accepts(p: Plan, c: Candidate, tally: real) returns (q: Plan)
    requires c == Sized(c.ticker, 1, c.sizing.dollars) && 0.0 < c.sizing.dollars <= 25.0 && tally + c.sizing.dollars <= 25.0
    requires Exposure(p.batch, Only("Tech")) == Exposure(p.batch, Whole) == tally
    requires forall t :: t in p.batch ==> p.batch[t].sector == "Tech"
    ensures Consider(map[], p, c, RISK, CALM) == Done(q) && q.orders == p.orders + [c]
    ensures forall t :: t in q.batch ==> q.batch[t].sector == "Tech"
    ensures Exposure(q.batch, Only("Tech")) == Exposure(q.batch, Whole)
         == tally - Share(p.batch, Whole, c.ticker) + c.sizing.dollars
  {
    q := p.(batch := Enter(p.batch, c), orders := p.orders + [c]);
    Below(tally + c.sizing.dollars, CALM.nav);
    assert CheckOrder(p.batch, c, RISK, CALM).None?;
    EnterExposure(p.batch, c, Whole);
    EnterExposure(p.batch, c, Only("Tech"));
  }

  /** Candidates without shares leave the plan's orders and book as they were. */
  lemma {:induction false} IdleStretch(cs: seq<Candidate>, from: nat, to: nat, p: Plan) returns (q: Plan)
    requires from <= to <= |cs| && Run(map[], cs[..from], RISK, CALM) == Done(p)
    requires forall k :: from <= k < to ==> cs[k] == Sized(cs[k].ticker, 0, 0.0)
    ensures Run(map[], cs[..to], RISK, CALM) == Done(q) && q.batch == p.batch && q.orders == p.orders
    decreases |cs| - from
  {
    q := p;
    if from < to {
      RunNext(map[], cs, from, RISK, CALM);
      assert EntryGate(map[], cs[from], RISK) == Some(NoShares);
      q := p.(blocked := p.blocked + [Refusal(cs[from], NoShares)]);
      hide Run;
      q := IdleStretch(cs, from + 1, to, q);
    }
  }

  /** One buying candidate after an idle stretch. */
  lemma StretchThenBuy(cs: seq<Candidate>, from: nat, at: nat, p: Plan, dollars: real, tally: real) returns (q: Plan)
    requires from <= at < |cs| && Run(map[], cs[..from], RISK, CALM) == Done(p)
    requires forall k :: from <= k < at ==> cs[k] == Sized(cs[k].ticker, 0, 0.0)
    requires cs[at] == Sized(cs[at].ticker, 1, dollars) && 0.0 < dollars <= 25.0 && tally + dollars <= 25.0
    requires Tally(p.batch, tally)
    ensures Run(map[], cs[..at + 1], RISK, CALM) == Done(q) && q.orders == p.orders + [cs[at]]
    ensures Tally(q.batch, tally - Share(p.batch, Whole, cs[at].ticker) + dollars)
    ensures Share(q.batch, Whole, cs[at].ticker) == dollars
  {
    var r := IdleStretch(cs, from, at, p);
    RunNext(map[], cs, at, RISK, CALM);
    hide Run;
    q := Accepts(r, cs[at], tally);
  }

  /** A book all in one sector, worth `tally`. */
  ghost predicate Tally(b: Book, tally: real) {
    && Exposure(b, Only("Tech")) == Exposure(b, Whole) == tally
    && forall t :: t in b ==> b[t].sector == "Tech"
  }

  /** Two candidates of one name ahead of the last overfill a sector: the second
      hides the first from the running book, and the last takes the sector to 45
      against a cap of 25. */
  lemma CraftedOverfills(ts: seq<Ticker>, i: nat, j: nat)
    requires i < j && j + 1 < |ts| && ts[i] == ts[j]
    ensures var cs := Crafted(ts, i, j);
      && Run(map[], cs, RISK, CALM).Done?
      && TrueExposure(map[], Run(map[], cs, RISK, CALM).plan.orders, Only("Tech")) == 45.0
      && Larger(Exposure(map[], Only("Tech")), Cap(Only("Tech"), RISK, CALM)) == 25.0
  {
    var cs, n := Crafted(ts, i, j), |ts| - 1;
    var p := CraftedRun(ts, i, j, cs);
    OrderedThree(cs[i], cs[j], cs[n], Only("Tech"));
    assert Exposure(map[], Only("Tech")) == 0.0;
    hide Run, Crafted;
  }

  lemma CraftedAt(ts: seq<Ticker>, i: nat, j: nat, k: nat)
    requires i < j && j + 1 < |ts| && k < |ts|
    ensures Crafted(ts, i, j)[k] == if k == i || k + 1 == |ts| then Sized(ts[k], 1, 20.0)
                                    else if k == j then Sized(ts[k], 1, 5.0) else Sized(ts[k], 0, 0.0)
    ensures Crafted(ts, i, j)[k].ticker == ts[k]
  {}

  lemma CraftedIdles(ts: seq<Ticker>, i: nat, j: nat, from: nat, to: nat)
    requires i < j && j + 1 < |ts| && from <= to < |ts| && !(from <= i < to) && !(from <= j < to)
    ensures forall k :: from <= k < to ==> Crafted(ts, i, j)[k] == Sized(Crafted(ts, i, j)[k].ticker, 0, 0.0)
  {
    forall k | from <= k < to ensures Crafted(ts, i, j)[k] == Sized(Crafted(ts, i, j)[k].ticker, 0, 0.0) {
      CraftedAt(ts, i, j, k);
    }
  }

  lemma CraftedFirst(ts: seq<Ticker>, i: nat, j: nat, cs: seq<Candidate>) returns (p: Plan)
    requires i < j && j + 1 < |ts| && cs == Crafted(ts, i, j)
    ensures Run(map[], cs[..i + 1], RISK, CALM) == Done(p) && p.orders == [cs[i]]
    ensures Tally(p.batch, 20.0) && Share(p.batch, Whole, cs[i].ticker) == 20.0
  {
    CraftedIdles(ts, i, j, 0, i);
    CraftedAt(ts, i, j, i);
    assert cs[..0] == [];
    EmptyTally();
    ShareOfNothing(cs[i].ticker);
    assert Run(map[], cs[..0], RISK, CALM) == Done(Plan(map[], [], []));
    hide Run, Share, Crafted, Tally, Sized;
    p := StretchThenBuy(cs, 0, i, Plan(map[], [], []), 20.0, 0.0);
  }

  lemma CraftedRun(ts: seq<Ticker>, i: nat, j: nat, cs: seq<Candidate>) returns (p: Plan)
    requires i < j && j + 1 < |ts| && ts[i] == ts[j] && cs == Crafted(ts, i, j)
    ensures Run(map[], cs, RISK, CALM) == Done(p) && p.orders == [cs[i], cs[j], cs[|cs| - 1]]
  {
    CraftedIdles(ts, i, j, i + 1, j);
    CraftedIdles(ts, i, j, j + 1, |ts| - 1);
    CraftedAt(ts, i, j, i);
    CraftedAt(ts, i, j, j);
    CraftedAt(ts, i, j, |ts| - 1);
    hide Run, Share, Crafted, Tally, Sized;
    p := CraftedFirst(ts, i, j, cs);
    p := ThenAgain(cs, i, j, p);
    p := ThenTheLast(cs, j, p);
  }

  /** Whatever the book held of the name, a second order leaves only its own dollars. */
  lemma ThenAgain(cs: seq<Candidate>, i: nat, j: nat, p: Plan) returns (q: Plan)
    requires i < j < |cs| && cs[j] == Sized(cs[i].ticker, 1, 5.0)
    requires forall k :: i < k < j ==> cs[k] == Sized(cs[k].ticker, 0, 0.0)
    requires Run(map[], cs[..i + 1], RISK, CALM) == Done(p)
    requires Tally(p.batch, 20.0) && Share(p.batch, Whole, cs[i].ticker) == 20.0
    ensures Run(map[], cs[..j + 1], RISK, CALM) == Done(q) && q.orders == p.orders + [cs[j]]
    ensures Tally(q.batch, 5.0)
  {
    SizedTicker(cs[i].ticker, 1, 5.0);
    hide Run, Share, Tally, Sized;
    q := StretchThenBuy(cs, i + 1, j, p, 5.0, 20.0);
  }

  lemma SizedTicker(t: Ticker, shares: int, dollars: real)
    ensures Sized(t, shares, dollars).ticker == t
  {}

  lemma ThenTheLast(cs: seq<Candidate>, j: nat, p: Plan) returns (q: Plan)
    requires j < |cs| - 1 && cs[|cs| - 1] == Sized(cs[|cs| - 1].ticker, 1, 20.0)
    requires forall k :: j < k < |cs| - 1 ==> cs[k] == Sized(cs[k].ticker, 0, 0.0)
    requires Run(map[], cs[..j + 1], RISK, CALM) == Done(p) && Tally(p.batch, 5.0)
    ensures Run(map[], cs, RISK, CALM) == Done(q) && q.orders == p.orders + [cs[|cs| - 1]]
  {
    assert cs[..|cs| - 1 + 1] == cs;
    hide Run, Share, Tally, Sized;
    q := StretchThenBuy(cs, j + 1, |cs| - 1, p, 20.0, 5.0);
  }

  lemma EmptyTally()
    ensures Tally(map[], 0.0)
  {}

  lemma ShareOfNothing(t: Ticker)
    ensures Share(map[], Whole, t) == 0.0
  {}

  function TickersOf(cs: seq<Candidate>): (ts: seq<Ticker>)
    ensures |ts| == |cs| && forall i :: 0 <= i < |cs| ==> ts[i] == cs[i].ticker
  {
    seq(|cs|, i requires 0 <= i < |cs| => cs[i].ticker)
  }

  ghost predicate Distinct(ts: seq<Ticker>) { forall i, j :: 0 <= i < j < |ts| ==> ts[i] != ts[j] }

  /** A finished batch whose candidates, in priority order, have these names. */
  ghost predicate Batch(ts: seq<Ticker>, start: Book, candidates: seq<Candidate>, cfg: Config, m: Market) {
    && TickersOf(Prioritised(candidates, cfg)) == ts && LongOnly(candidates)
    && Run(start, Prioritised(candidates, cfg), cfg, m).Done?
  }

  ghost predicate BatchKeepsCaps(start: Book, candidates: seq<Candidate>, cfg: Config, m: Market) {
    Run(start, Prioritised(candidates, cfg), cfg, m).Done? ==>
    CapsHold(start, Run(start, Prioritised(candidates, cfg), cfg, m).plan.orders, cfg, m)
  }

  /** Whatever the sizes, scores, book, limits and market, every batch of these
      names keeps its caps. */
  ghost predicate NamesKeepCaps(ts: seq<Ticker>) {
    forall start: Book, candidates: seq<Candidate>, cfg: Config, m: Market {:trigger Batch(ts, start, candidates, cfg, m)} ::
      Batch(ts, start, candidates, cfg, m) ==> BatchKeepsCaps(start, candidates, cfg, m)
  }

  lemma DistinctNamesKeepCaps(ts: seq<Ticker>)
    requires Distinct(Ahead(ts))
    ensures NamesKeepCaps(ts)
  {
    forall start: Book, candidates: seq<Candidate>, cfg: Config, m: Market | Batch(ts, start, candidates, cfg, m)
      ensures BatchKeepsCaps(start, candidates, cfg, m)
    {
      SameNames(Prioritised(candidates, cfg), ts);
      DistinctAheadKeepsCaps(start, candidates, cfg, m);
      hide BatchKeepsCaps, Run, Prioritised;
    }
  }

  lemma SameNames(cs: seq<Candidate>, ts: seq<Ticker>)
    requires TickersOf(cs) == ts && Distinct(Ahead(ts))
    ensures DistinctTickers(Ahead(cs))
  {
    assert forall i :: 0 <= i < |cs| ==> ts[i] == cs[i].ticker;
    forall i, j | 0 <= i < j < |Ahead(cs)| ensures Ahead(cs)[i].ticker != Ahead(cs)[j].ticker {
      assert Ahead(ts)[i] != Ahead(ts)[j];
    }
  }

  lemma CraftedNames(ts: seq<Ticker>, i: nat, j: nat)
    requires i < j && j + 1 < |ts|
    ensures TickersOf(Crafted(ts, i, j)) == ts
  {
    forall k | 0 <= k < |ts| ensures Crafted(ts, i, j)[k].ticker == ts[k] { CraftedAt(ts, i, j, k); }
  }

  lemma CraftedBreaksCaps(ts: seq<Ticker>, i: nat, j: nat)
    requires i < j && j + 1 < |ts| && ts[i] == ts[j]
    ensures Batch(ts, map[], Crafted(ts, i, j), RISK, CALM) && !BatchKeepsCaps(map[], Crafted(ts, i, j), RISK, CALM)
  {
    CraftedStays(ts, i, j);
    CraftedIsLongOnly(ts, i, j);
    CraftedOverfills(ts, i, j);
    CraftedNames(ts, i, j);
    hide Run, Prioritised, Crafted, LongOnly, Exposure, Cap, TrueExposure, Larger, TickersOf;
  }

  /** A batch keeps its caps, whatever else it holds, exactly when all the names
      ahead of the last one in priority order are distinct. */
  lemma CapsHoldExactly(ts: seq<Ticker>)
    ensures NamesKeepCaps(ts) <==> Distinct(Ahead(ts))
  {
    if Distinct(Ahead(ts)) {
      DistinctNamesKeepCaps(ts);
    } else {
      var i, j :| 0 <= i < j < |Ahead(ts)| && Ahead(ts)[i] == Ahead(ts)[j];
      CraftedBreaksCaps(ts, i, j);
      hide Batch, BatchKeepsCaps;
    }
  }

  lemma DistinctAheadKeepsCaps(start: Book, candidates: seq<Candidate>, cfg: Config, m: Market)
    requires Run(start, Prioritised(candidates, cfg), cfg, m).Done? && LongOnly(candidates)
    requires DistinctTickers(Ahead(Prioritised(candidates, cfg)))
    ensures BatchKeepsCaps(start, candidates, cfg, m)
  {
    var cs := Prioritised(candidates, cfg);
    hide Run, Prioritised;
    forall c | c in cs && c.sizing.shares != 0 ensures c.sizing.dollars > 0.0 {
      assert c in multiset(cs);
    }
    forall scope
      ensures TrueExposure(start, Run(start, cs, cfg, m).plan.orders, scope) <= Larger(Exposure(start, scope), Cap(scope, cfg, m))
    {
      DistinctAheadWithinCaps(start, cs, cfg, m, scope);
    }
  }

  /** The smallest overfilled batch: A buys 20, A buys 5, B buys 20. */
  lemma DuplicateOverfillsSector()
    ensures var cs := [Sized("A", 1, 20.0), Sized("A", 1, 5.0), Sized("B", 1, 20.0)];
      Batch(["A", "A", "B"], map[], cs, RISK, CALM) && !BatchKeepsCaps(map[], cs, RISK, CALM)
  {
    var ts := ["A", "A", "B"];
    assert Crafted(ts, 0, 1) == [Sized("A", 1, 20.0), Sized("A", 1, 5.0), Sized("B", 1, 20.0)];
    CraftedBreaksCaps(ts, 0, 1);
  }

  // ---------------------------------------------------------------- the program

  /** What a finished plan guarantees. */
  lemma PlanIsSound(start: Book, candidates: seq<Candidate>, cfg: Config, m: Market)
    requires Run(start, Prioritised(candidates, cfg), cfg, m).Done?
    ensures var p := Run(start, Prioritised(candidates, cfg), cfg, m).plan;
            && multiset(p.orders) + multiset(Names(p.blocked)) == multiset(candidates)
            && InPriorityOrder(p.orders, cfg)
            && (LongOnly(candidates) && DistinctTickers(candidates) ==> CapsHold(start, p.orders, cfg, m))
  {
    var cs := Prioritised(candidates, cfg);
    hide Run, Prioritised;
    PrioritisedIsOrdered(candidates, cfg);
    EveryCandidateOnce(start, cs, cfg, m);
    OrdersKeepOrder(start, cs, cfg, m);
    if LongOnly(candidates) && DistinctTickers(candidates) {
      PrioritisedDistinct(candidates, cfg);
      DistinctAheadKeepsCaps(start, candidates, cfg, m);
    }
  }

  ghost predicate CapsHold(start: Book, orders: seq<Candidate>, cfg: Config, m: Market) {
    forall scope :: TrueExposure(start, orders, scope) <= Larger(Exposure(start, scope), Cap(scope, cfg, m))
  }

  method DecideEntries(start: Book, candidates: seq<Candidate>, cfg: Config, m: Market) returns (out: Outcome)
    ensures out == Run(start, Prioritised(candidates, cfg), cfg, m)
    ensures out.Done? ==> multiset(out.plan.orders) + multiset(Names(out.plan.blocked)) == multiset(candidates)
    ensures out.Done? ==> InPriorityOrder(out.plan.orders, cfg)
    ensures out.Done? && LongOnly(candidates) && DistinctTickers(candidates) ==>
      CapsHold(start, out.plan.orders, cfg, m)
  {
    var cs := Prioritised(candidates, cfg);
    var plan := Plan(start, [], []);
    assert cs[..0] == [] && Run(start, [], cfg, m) == Done(plan);
    hide Run, EntryGate, CheckOrder, Prioritised, Names, InPriorityOrder, CapsHold, LongOnly, DistinctTickers;
    for k := 0 to |cs|
      invariant Run(start, cs[..k], cfg, m) == Done(plan)
    {
      RunNext(start, cs, k, cfg, m);
      var c := cs[k];
      var reason := EntryGate(start, c, cfg);
      if reason.None? { reason := CheckOrderNow(plan.batch, c, cfg, m); }
      if reason.Some? {
        plan := plan.(blocked := plan.blocked + [Refusal(c, reason.value)]);
      } else {
        if c.atr.None? {
          AbortSticks(start, cs, k + 1, cfg, m);
          return Aborted(c.ticker);
        }
        plan := plan.(batch := plan.batch[c.ticker := Holding(c.sizing.dollars, c.sector)], orders := plan.orders + [c]);
      }
    }
    assert cs[..|cs|] == cs;
    out := Done(plan);
    PlanIsSound(start, candidates, cfg, m);
  }
}
