/**
 Reconstruction of a day's service intervals from noisy journal events, and of
 the active time inside market hours.  Times are microseconds.
 */
module Uptime {

  datatype Kind = Start | Stop

  datatype Event = Event(at: int, kind: Kind)

  datatype Interval = Interval(start: int, end: int)

  datatype State = Unknown | Running(since: int) | Stopped

  datatype Walk = Walk(state: State, intervals: seq<Interval>)

  ghost predicate Sorted(events: seq<Event>) {
    forall i, j :: 0 <= i < j < |events| ==> events[i].at <= events[j].at
  }

  /** What the journal query returns for the day, after the sort. */
  ghost predicate Journal(events: seq<Event>, dayStart: int, dayEnd: int) {
    && dayStart <= dayEnd && Sorted(events)
    && forall i :: 0 <= i < |events| ==> dayStart <= events[i].at <= dayEnd
  }

  // ---------------------------------------------------------------- what should be covered

  /** How many events have happened by instant `x`. */
  function Happened(events: seq<Event>, x: int): (n: nat)
    ensures n <= |events|
    ensures n < |events| ==> events[n].at > x
    ensures forall i :: 0 <= i < n ==> events[i].at <= x
  {
    if events == [] || events[0].at > x then 0 else 1 + Happened(events[1..], x)
  }

  /** The service is active iff the last event so far is a start, or nothing
      has happened yet and the first event to come is a stop. */
  predicate ActiveAt(events: seq<Event>, x: int) {
    var n := Happened(events, x);
    if n > 0 then events[n - 1].kind == Start else |events| > 0 && events[0].kind == Stop
  }

  ghost predicate Covered(intervals: seq<Interval>, x: int) {
    exists k :: 0 <= k < |intervals| && intervals[k].start <= x < intervals[k].end
  }

  /** Ordered, non-overlapping, inside `[lo, hi]`. */
  ghost predicate Ordered(intervals: seq<Interval>, lo: int, hi: int) {
    && (forall k :: 0 <= k < |intervals| ==> lo <= intervals[k].start <= intervals[k].end <= hi)
    && forall i, j :: 0 <= i < j < |intervals| ==> intervals[i].end <= intervals[j].start
  }

  // ---------------------------------------------------------------- the walk

  function Step(w: Walk, e: Event, dayStart: int): Walk {
    match w.state
    case Unknown =>
      if e.kind == Start then Walk(Running(e.at), w.intervals)
      else Walk(Stopped, w.intervals + [Interval(dayStart, e.at)])
    case Running(since) =>
      if e.kind == Start then w
      else Walk(Stopped, if e.at > since then w.intervals + [Interval(since, e.at)] else w.intervals)
    case Stopped =>
      if e.kind == Start then Walk(Running(e.at), w.intervals) else w
  }

  function After(events: seq<Event>, dayStart: int): Walk {
    if events == [] then Walk(Unknown, []) else
      Step(After(events[..|events| - 1], dayStart), events[|events| - 1], dayStart)
  }

  function Closed(w: Walk, dayEnd: int): seq<Interval> {
    if w.state.Running? then w.intervals + [Interval(w.state.since, dayEnd)] else w.intervals
  }

  function Intervals(events: seq<Event>, dayStart: int, dayEnd: int): seq<Interval> {
    Closed(After(events, dayStart), dayEnd)
  }

  /** The event walk, one event at a time. */
  method JournalIntervals(events: seq<Event>, dayStart: int, dayEnd: int) returns (intervals: seq<Interval>)
    requires Journal(events, dayStart, dayEnd)
    ensures intervals == Intervals(events, dayStart, dayEnd)
    ensures Ordered(intervals, dayStart, dayEnd)
    ensures forall x :: dayStart <= x < dayEnd ==> (Covered(intervals, x) <==> ActiveAt(events, x))
  {
    intervals := [];
    var state := Unknown;
    for k := 0 to |events|
      invariant Walk(state, intervals) == After(events[..k], dayStart)
    {
      assert events[..k + 1][..k] == events[..k];
      var e := events[k];
      match state {
        case Unknown =>
          if e.kind == Start {
            state := Running(e.at);
          } else {
            intervals := intervals + [Interval(dayStart, e.at)];
            state := Stopped;
          }
        case Running(since) =>
          if e.kind == Stop {
            if e.at > since { intervals := intervals + [Interval(since, e.at)]; }
            state := Stopped;
          }
        case Stopped =>
          if e.kind == Start { state := Running(e.at); }
      }
    }
    assert events[..|events|] == events;
    if state.Running? { intervals := intervals + [Interval(state.since, dayEnd)]; }
    IntervalsAreOrdered(events, dayStart, dayEnd);
    CoverageIsActivity(events, dayStart, dayEnd);
  }

  // ---------------------------------------------------------------- order

  lemma OrderedSnoc(intervals: seq<Interval>, next: Interval, lo: int, mid: int, hi: int)
    requires Ordered(intervals, lo, mid) && mid <= next.start <= next.end <= hi && lo <= mid
    ensures Ordered(intervals + [next], lo, hi)
  {
    var s := intervals + [next];
    forall k | 0 <= k < |s| ensures lo <= s[k].start <= s[k].end <= hi {
      assert k < |intervals| ==> s[k] == intervals[k];
    }
    forall i, j | 0 <= i < j < |s| ensures s[i].end <= s[j].start {
      assert s[i] == intervals[i];
      assert j < |intervals| ==> s[j] == intervals[j];
    }
  }

  /** Everything emitted ends by `now`, and by the start of a running stretch. */
  ghost predicate Tidy(w: Walk, lo: int, now: int) {
    && lo <= now
    && Ordered(w.intervals, lo, now)
    && (w.state.Unknown? ==> w.intervals == [])
    && (w.state.Running? ==> lo <= w.state.since <= now && Ordered(w.intervals, lo, w.state.since))
  }

  lemma StepIsTidy(w: Walk, e: Event, lo: int, now: int)
    requires Tidy(w, lo, now) && now <= e.at
    ensures Tidy(Step(w, e, lo), lo, e.at)
  {
    match w.state
    case Unknown =>
    case Running(since) => if e.kind == Stop { OrderedSnoc(w.intervals, Interval(since, e.at), lo, since, e.at); }
    case Stopped =>
  }

  lemma {:induction false} AfterIsTidy(events: seq<Event>, lo: int, hi: int)
    requires Journal(events, lo, hi)
    ensures Tidy(After(events, lo), lo, if events == [] then lo else events[|events| - 1].at)
  {
    if events != [] {
      var n := |events| - 1;
      AfterIsTidy(events[..n], lo, hi);
      StepIsTidy(After(events[..n], lo), events[n], lo, if n == 0 then lo else events[n - 1].at);
    }
  }

  /** A stretch that stops the instant it starts is not emitted: only one that was
      already running, or runs on, can be empty. */
  lemma {:induction false} StretchesAreProper(events: seq<Event>, dayStart: int, dayEnd: int)
    requires Journal(events, dayStart, dayEnd)
    ensures forall i :: i in Intervals(events, dayStart, dayEnd) ==> i.start < i.end || i.start == dayStart || i.end == dayEnd
    ensures forall i :: i in After(events, dayStart).intervals ==> i.start < i.end || i.start == dayStart
  {
    if events != [] {
      var n := |events| - 1;
      StretchesAreProper(events[..n], dayStart, dayEnd);
    }
  }

  /** The intervals are ordered, do not overlap and stay inside the day. */
  lemma IntervalsAreOrdered(events: seq<Event>, dayStart: int, dayEnd: int)
    requires Journal(events, dayStart, dayEnd)
    ensures Ordered(Intervals(events, dayStart, dayEnd), dayStart, dayEnd)
  {
    AfterIsTidy(events, dayStart, dayEnd);
    var w := After(events, dayStart);
    if w.state.Running? {
      OrderedSnoc(w.intervals, Interval(w.state.since, dayEnd), dayStart, w.state.since, dayEnd);
    }
  }

  // ---------------------------------------------------------------- coverage

  ghost predicate CoveredSoFar(w: Walk, x: int) {
    Covered(w.intervals, x) || (w.state.Running? && w.state.since <= x)
  }

  lemma CoveredSnoc(intervals: seq<Interval>, next: Interval, x: int)
    ensures Covered(intervals + [next], x) <==> Covered(intervals, x) || next.start <= x < next.end
  {
    var s := intervals + [next];
    assert s[|intervals|] == next;
    forall k | 0 <= k < |intervals| ensures s[k] == intervals[k] {}
    if Covered(intervals, x) {
      var k :| 0 <= k < |intervals| && intervals[k].start <= x < intervals[k].end;
      assert s[k].start <= x < s[k].end;
    }
  }

  lemma NotCoveredLater(intervals: seq<Interval>, lo: int, now: int, x: int)
    requires Ordered(intervals, lo, now) && now <= x
    ensures !Covered(intervals, x)
  {}

  lemma {:induction false} HappenedSnoc(events: seq<Event>, e: Event, x: int)
    requires Sorted(events + [e])
    ensures e.at > x ==> Happened(events + [e], x) == Happened(events, x)
    ensures e.at <= x ==> Happened(events + [e], x) == |events| + 1
  {
    var n, m := Happened(events + [e], x), Happened(events, x);
    assert (events + [e])[|events|] == e;
    assert forall i :: 0 <= i < |events| ==> (events + [e])[i] == events[i];
  }

  lemma KindAfter(events: seq<Event>, lo: int)
    requires events != []
    ensures After(events, lo).state.Running? <==> events[|events| - 1].kind == Start
    ensures !After(events, lo).state.Unknown?
  {}

  lemma StepCovers(events: seq<Event>, e: Event, lo: int, hi: int, x: int)
    requires Journal(events + [e], lo, hi) && lo <= x
    requires events != [] ==> (CoveredSoFar(After(events, lo), x) <==> ActiveAt(events, x))
    ensures CoveredSoFar(Step(After(events, lo), e, lo), x) <==> ActiveAt(events + [e], x)
  {
    var s := events + [e];
    assert s[|events|] == e;
    assert forall i :: 0 <= i < |events| ==> s[i] == events[i];
    var w := After(events, lo);
    HappenedSnoc(events, e, x);
    AfterIsTidy(events, lo, hi);
    if events != [] { KindAfter(events, lo); }
    assert events == [] ==> w == Walk(Unknown, []) && !Covered(w.intervals, x);
    hide After, Happened, Covered, Ordered;
    var now := if events == [] then lo else events[|events| - 1].at;
    if e.kind == Stop {
      CoveredSnoc(w.intervals, Interval(if w.state.Running? then w.state.since else lo, e.at), x);
    }
    if e.at <= x { NotCoveredLater(w.intervals, lo, now, x); }
  }

  lemma {:induction false} AfterCovers(events: seq<Event>, lo: int, hi: int, x: int)
    requires Journal(events, lo, hi) && events != [] && lo <= x
    ensures CoveredSoFar(After(events, lo), x) <==> ActiveAt(events, x)
  {
    var n := |events| - 1;
    assert events == events[..n] + [events[n]];
    if n > 0 { AfterCovers(events[..n], lo, hi, x); }
    StepCovers(events[..n], events[n], lo, hi, x);
  }

  /** An instant of the day is covered iff the service was active at it. */
  lemma CoverageIsActivity(events: seq<Event>, dayStart: int, dayEnd: int)
    requires Journal(events, dayStart, dayEnd)
    ensures forall x :: dayStart <= x < dayEnd ==>
              (Covered(Intervals(events, dayStart, dayEnd), x) <==> ActiveAt(events, x))
  {
    forall x | dayStart <= x < dayEnd
      ensures Covered(Intervals(events, dayStart, dayEnd), x) <==> ActiveAt(events, x)
    {
      var w := After(events, dayStart);
      if events != [] { AfterCovers(events, dayStart, dayEnd, x); }
      if w.state.Running? { CoveredSnoc(w.intervals, Interval(w.state.since, dayEnd), x); }
    }
  }

  // ---------------------------------------------------------------- duplicates

  /** Repeating a start, or a stop, changes nothing. */
  lemma {:induction false} DuplicateIsIgnored(pre: seq<Event>, e: Event, again: Event, post: seq<Event>, dayStart: int)
    requires again.kind == e.kind
    ensures After(pre + [e] + [again] + post, dayStart) == After(pre + [e] + post, dayStart)
  {
    var with, without := pre + [e] + [again], pre + [e];
    if post == [] {
      assert with + post == with && without + post == without;
      AfterSnoc(without, again, dayStart);
      KindAfter(without, dayStart);
      hide After;
    } else {
      var n := |post| - 1;
      assert with + post == (with + post[..n]) + [post[n]] && without + post == (without + post[..n]) + [post[n]];
      hide After;
      DuplicateIsIgnored(pre, e, again, post[..n], dayStart);
      AfterSnoc(with + post[..n], post[n], dayStart);
      AfterSnoc(without + post[..n], post[n], dayStart);
      hide Step;
    }
  }

  lemma AfterSnoc(events: seq<Event>, e: Event, dayStart: int)
    ensures After(events + [e], dayStart) == Step(After(events, dayStart), e, dayStart)
  {
    assert (events + [e])[..|events|] == events;
  }

  // ---------------------------------------------------------------- market hours

  function Clipped(i: Interval, open: int, close: int): int {
    var start := if i.start > open then i.start else open;
    var end := if i.end < close then i.end else close;
    if end > start then end - start else 0
  }

  function Total(intervals: seq<Interval>, open: int, close: int): int {
    if intervals == [] then 0
    else Total(intervals[..|intervals| - 1], open, close) + Clipped(intervals[|intervals| - 1], open, close)
  }

  /** The number of ticks in `[open, close)` at which the service is active. */
  function ActiveTicks(events: seq<Event>, open: int, close: int): (n: nat)
    decreases close - open
    ensures n <= if open < close then close - open else 0
  {
    if close <= open then 0 else ActiveTicks(events, open, close - 1) + (if ActiveAt(events, close - 1) then 1 else 0)
  }

  ghost function CoveredTicks(intervals: seq<Interval>, open: int, close: int): nat
    decreases close - open
  {
    if close <= open then 0 else CoveredTicks(intervals, open, close - 1) + (if Covered(intervals, close - 1) then 1 else 0)
  }

  lemma {:induction false} SnocTicks(intervals: seq<Interval>, next: Interval, lo: int, open: int, close: int)
    requires Ordered(intervals, lo, next.start)
    ensures CoveredTicks(intervals + [next], open, close) == CoveredTicks(intervals, open, close) + Clipped(next, open, close)
    decreases close - open
  {
    if open < close {
      SnocTicks(intervals, next, lo, open, close - 1);
      CoveredSnoc(intervals, next, close - 1);
      if next.start <= close - 1 { NotCoveredLater(intervals, lo, next.start, close - 1); }
    }
  }

  lemma {:induction false} NoTicks(open: int, close: int)
    ensures CoveredTicks([], open, close) == 0
    decreases close - open
  {
    if open < close { NoTicks(open, close - 1); }
  }

  /** For ordered disjoint intervals the clipped lengths add up to the measure of what they cover. */
  lemma {:induction false} TotalIsCoverage(intervals: seq<Interval>, lo: int, hi: int, open: int, close: int)
    requires Ordered(intervals, lo, hi)
    ensures Total(intervals, open, close) == CoveredTicks(intervals, open, close)
  {
    if intervals == [] {
      NoTicks(open, close);
    } else {
      var n := |intervals| - 1;
      assert intervals == intervals[..n] + [intervals[n]];
      TotalIsCoverage(intervals[..n], lo, hi, open, close);
      SnocTicks(intervals[..n], intervals[n], lo, open, close);
    }
  }

  lemma {:induction false} CoverageTicksAreActiveTicks(events: seq<Event>, intervals: seq<Interval>, lo: int, hi: int, open: int, close: int)
    requires lo <= open && close <= hi
    requires forall x :: lo <= x < hi ==> (Covered(intervals, x) <==> ActiveAt(events, x))
    ensures CoveredTicks(intervals, open, close) == ActiveTicks(events, open, close)
    decreases close - open
  {
    if open < close { CoverageTicksAreActiveTicks(events, intervals, lo, hi, open, close - 1); }
  }

  /** The clipped total is exactly the active time in the session. */
  lemma TotalIsActiveTime(events: seq<Event>, dayStart: int, dayEnd: int, open: int, close: int)
    requires Journal(events, dayStart, dayEnd) && dayStart <= open && close <= dayEnd
    ensures Total(Intervals(events, dayStart, dayEnd), open, close) == ActiveTicks(events, open, close)
  {
    var iv := Intervals(events, dayStart, dayEnd);
    IntervalsAreOrdered(events, dayStart, dayEnd);
    CoverageIsActivity(events, dayStart, dayEnd);
    TotalIsCoverage(iv, dayStart, dayEnd, open, close);
    CoverageTicksAreActiveTicks(events, iv, dayStart, dayEnd, open, close);
  }

  const MICROS_PER_MINUTE: int := 60_000_000
  const MARKET_MINUTES: int := 390

  datatype Metrics = Metrics(activeMinutes: int, uptime: real, serviceRestarts: int)

  method ComputeBackfillMetrics(intervals: seq<Interval>, open: int, close: int) returns (m: Metrics)
    ensures m.activeMinutes == Total(intervals, open, close) / MICROS_PER_MINUTE
    ensures m.uptime == m.activeMinutes as real / MARKET_MINUTES as real
    ensures m.serviceRestarts == if |intervals| == 0 then 0 else |intervals| - 1
  {
    var total := 0;
    for k := 0 to |intervals|
      invariant total == Total(intervals[..k], open, close)
    {
      assert intervals[..k + 1][..k] == intervals[..k];
      var start := if intervals[k].start > open then intervals[k].start else open;
      var end := if intervals[k].end < close then intervals[k].end else close;
      if end > start { total := total + (end - start); }
    }
    assert intervals[..|intervals|] == intervals;
    var minutes := total / MICROS_PER_MINUTE;
    m := Metrics(minutes, minutes as real / MARKET_MINUTES as real,
                 if |intervals| > 1 then |intervals| - 1 else 0);
  }

  /** The backfill of one session: whole minutes of active time, never more than
      the session, and an uptime fraction in [0, 1]. */
  method Backfill(events: seq<Event>, dayStart: int, dayEnd: int, open: int, close: int) returns (m: Metrics)
    requires Journal(events, dayStart, dayEnd) && dayStart <= open && close <= dayEnd
    requires close - open == MARKET_MINUTES * MICROS_PER_MINUTE
    ensures m.activeMinutes == ActiveTicks(events, open, close) / MICROS_PER_MINUTE
    ensures 0 <= m.activeMinutes <= MARKET_MINUTES
    ensures 0.0 <= m.uptime <= 1.0
  {
    var intervals := JournalIntervals(events, dayStart, dayEnd);
    m := ComputeBackfillMetrics(intervals, open, close);
    TotalIsActiveTime(events, dayStart, dayEnd, open, close);
  }
}
