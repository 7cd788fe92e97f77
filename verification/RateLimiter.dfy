/**
 One record of recent calls for all clients of an API key, which keeps any 60
 seconds within the limit, and the bounded 429 retry loop that books in it.

 Threads meet the window only inside its lock, so an interleaving of threads is
 a sequence of locked operations with non-decreasing clock readings.
 */
module RateLimiter {

  const WINDOW: real := 60.0

  /** The deque, and the history of booked calls with the limit each was booked
      under.  `last` is the latest clock reading taken under the lock. */
  datatype Window = Window(calls: seq<real>, booked: seq<real>, limits: seq<int>, last: real)

  function Purge(calls: seq<real>, now: real): (r: seq<real>)
    ensures |r| <= |calls| && (r != [] ==> now - r[0] <= WINDOW)
  {
    if calls != [] && now - calls[0] > WINDOW then Purge(calls[1..], now) else calls
  }

  lemma {:induction false} PurgeIsSuffix(calls: seq<real>, now: real)
    ensures var r := Purge(calls, now);
      r == calls[|calls| - |r|..] && forall i :: 0 <= i < |calls| - |r| ==> now - calls[i] > WINDOW
  {
    if calls != [] && now - calls[0] > WINDOW {
      PurgeIsSuffix(calls[1..], now);
      var r := Purge(calls, now);
      assert calls[1..][|calls| - 1 - |r|..] == calls[|calls| - |r|..];
      forall i | 0 <= i < |calls| - |r| ensures now - calls[i] > WINDOW {
        if i > 0 { assert calls[1..][i - 1] == calls[i]; }
      }
    }
  }

  datatype Op = Acquire(limit: int) | SecondsUntilSlot(limit: int) | Depth

  /** What one locked operation answers. */
  datatype Turn = Granted | Wait(seconds: real) | Size(n: nat) | EmptyDeque

  /** The answer, and the window afterwards, once `q` is what the purge left. */
  function AnswerAt(q: seq<real>, op: Op, now: real): Turn {
    if op.Depth? then Size(|q|)
    else if |q| < op.limit then Granted
    else if q == [] then EmptyDeque
    else Wait(WINDOW - (now - q[0]) + 0.5)
  }

  /** A caller told to wait finds, half a second past the window, that the oldest
      call it waited for is 60.5 seconds old. */
  lemma WaitOutlastsTheOldest(q: seq<real>, op: Op, now: real)
    ensures AnswerAt(q, op, now).Wait? ==>
      q != [] && |q| >= op.limit && now + AnswerAt(q, op, now).seconds - q[0] == 60.5
  {}

  function After(w: Window, q: seq<real>, op: Op, now: real): Window {
    if op.Acquire? && |q| < op.limit
    then Window(q + [now], w.booked + [now], w.limits + [op.limit], now)
    else w.(calls := q, last := now)
  }

  function Answer(w: Window, op: Op, now: real): Turn { AnswerAt(Purge(w.calls, now), op, now) }

  function Locked(w: Window, op: Op, now: real): Window { After(w, Purge(w.calls, now), op, now) }

  // ---------------------------------------------------------------- the window bound

  ghost predicate Sorted(b: seq<real>) {
    forall i, j :: 0 <= i <= j < |b| ==> b[i] <= b[j]
  }

  /** Calls `i` .. `j` fit in 60 seconds only if `j`'s limit allows that many. */
  ghost predicate WithinLimits(b: seq<real>, limits: seq<int>)
    requires |limits| == |b|
  {
    forall i, j {:trigger b[i], limits[j]} :: 0 <= i <= j < |b| && b[j] - b[i] <= WINDOW ==> j - i + 1 <= limits[j]
  }

  /** Everything before index `d` has left the window ending at `now`. */
  ghost predicate Expired(b: seq<real>, d: nat, now: real)
    requires d <= |b|
  {
    forall i :: 0 <= i < d ==> now - b[i] > WINDOW
  }

  /** The deque is the booked history minus a prefix that has left the window. */
  ghost predicate Consistent(w: Window) {
    && |w.limits| == |w.booked| && |w.calls| <= |w.booked|
    && w.calls == w.booked[|w.booked| - |w.calls|..]
    && Sorted(w.booked) && (forall i :: 0 <= i < |w.booked| ==> w.booked[i] <= w.last)
    && Expired(w.booked, |w.booked| - |w.calls|, w.last)
    && WithinLimits(w.booked, w.limits)
  }

  lemma PurgeExpires(b: seq<real>, calls: seq<real>, last: real, now: real)
    requires |calls| <= |b| && calls == b[|b| - |calls|..] && last <= now
    requires Expired(b, |b| - |calls|, last)
    ensures var q := Purge(calls, now); var d := |b| - |q|;
      d >= 0 && q == b[d..] && Expired(b, d, now)
  {
    PurgeIsSuffix(calls, now);
    var q := Purge(calls, now);
    var k, d := |b| - |calls|, |b| - |q|;
    assert b[k..][d - k..] == b[d..];
    forall i | 0 <= i < d ensures now - b[i] > WINDOW {
      if i >= k { assert b[i] == calls[i - k]; }
    }
  }

  lemma BookingStaysWithin(b: seq<real>, limits: seq<int>, d: nat, limit: int, now: real)
    requires |limits| == |b| && d <= |b| && WithinLimits(b, limits) && Expired(b, d, now)
    requires |b| - d < limit
    ensures WithinLimits(b + [now], limits + [limit])
  {
    var b', l' := b + [now], limits + [limit];
    forall i, j | 0 <= i <= j < |b'| && b'[j] - b'[i] <= WINDOW ensures j - i + 1 <= l'[j] {
      if j < |b| {
        assert b[j] - b[i] <= WINDOW && limits[j] == l'[j];
      }
    }
  }

  lemma BookingStaysSorted(b: seq<real>, last: real, now: real)
    requires Sorted(b) && last <= now && forall i :: 0 <= i < |b| ==> b[i] <= last
    ensures Sorted(b + [now]) && forall i :: 0 <= i < |b + [now]| ==> (b + [now])[i] <= now
  {
  }

  lemma LockedKeeps(w: Window, op: Op, now: real)
    requires Consistent(w) && w.last <= now
    ensures Consistent(Locked(w, op, now))
  {
    var q := Purge(w.calls, now);
    PurgeExpires(w.booked, w.calls, w.last, now);
    if op.Acquire? && |q| < op.limit {
      BookingKeeps(w, q, op.limit, now);
    } else {
      PurgingKeeps(w, q, now);
    }
  }

  lemma PurgingKeeps(w: Window, q: seq<real>, now: real)
    requires Consistent(w) && w.last <= now && |q| <= |w.booked|
    requires q == w.booked[|w.booked| - |q|..] && Expired(w.booked, |w.booked| - |q|, now)
    ensures Consistent(w.(calls := q, last := now))
  {
    assert forall i :: 0 <= i < |w.booked| ==> w.booked[i] <= w.last <= now;
  }

  lemma BookingKeeps(w: Window, q: seq<real>, limit: int, now: real)
    requires Consistent(w) && w.last <= now && |q| <= |w.booked| && |q| < limit
    requires q == w.booked[|w.booked| - |q|..] && Expired(w.booked, |w.booked| - |q|, now)
    ensures Consistent(Window(q + [now], w.booked + [now], w.limits + [limit], now))
  {
    var d := |w.booked| - |q|;
    BookingStaysWithin(w.booked, w.limits, d, limit, now);
    BookingStaysSorted(w.booked, w.last, now);
    assert q + [now] == (w.booked + [now])[d..];
    forall i | 0 <= i < d ensures now - (w.booked + [now])[i] > WINDOW {
      assert (w.booked + [now])[i] == w.booked[i];
    }
  }

  /** Every locked operation, by whichever thread, in order. */
  function Interleave(w: Window, steps: seq<(Op, real)>): Window
    decreases |steps|
  {
    if steps == [] then w else Interleave(Locked(w, steps[0].0, steps[0].1), steps[1..])
  }

  ghost predicate AllAtMost(limits: seq<int>, bound: int) {
    forall j :: 0 <= j < |limits| ==> limits[j] <= bound
  }

  ghost predicate StepsAtMost(steps: seq<(Op, real)>, bound: int) {
    forall k :: 0 <= k < |steps| ==> (steps[k].0.Acquire? ==> steps[k].0.limit <= bound)
  }

  ghost predicate Monotone(from: real, steps: seq<(Op, real)>) {
    && (steps != [] ==> from <= steps[0].1)
    && (forall i, j :: 0 <= i <= j < |steps| ==> steps[i].1 <= steps[j].1)
  }

  lemma {:induction false} InterleaveKeeps(w: Window, steps: seq<(Op, real)>)
    requires Consistent(w) && Monotone(w.last, steps)
    ensures Consistent(Interleave(w, steps))
    decreases |steps|
  {
    if steps != [] {
      LockedKeeps(w, steps[0].0, steps[0].1);
      InterleaveKeeps(Locked(w, steps[0].0, steps[0].1), steps[1..]);
    }
  }

  /** How many booked calls fall in the closed interval [t, t + 60]. */
  function CallsIn(b: seq<real>, t: real): nat {
    if b == [] then 0
    else CallsIn(b[..|b| - 1], t) + (if t <= b[|b| - 1] <= t + WINDOW then 1 else 0)
  }

  function FirstFrom(b: seq<real>, t: real): (k: nat)
    ensures k <= |b| && (forall i :: 0 <= i < k ==> b[i] < t) && (k < |b| ==> b[k] >= t)
  {
    if b == [] || b[0] >= t then 0 else 1 + FirstFrom(b[1..], t)
  }

  lemma {:induction false} CallsInAtMost(b: seq<real>, t: real, lo: nat)
    requires lo <= |b| && forall i :: 0 <= i < lo ==> b[i] < t
    ensures CallsIn(b, t) <= |b| - lo
  {
    if b != [] {
      CallsInAtMost(b[..|b| - 1], t, if lo == |b| then lo - 1 else lo);
    }
  }

  lemma {:induction false} WithinLimitsCounts(b: seq<real>, limits: seq<int>, t: real, bound: nat)
    requires |limits| == |b| && Sorted(b) && WithinLimits(b, limits)
    requires AllAtMost(limits, bound)
    ensures CallsIn(b, t) <= bound
  {
    if b != [] {
      var n := |b| - 1;
      if t <= b[n] <= t + WINDOW {
        var lo := FirstFrom(b, t);
        CallsInAtMost(b, t, lo);
        assert b[n] - b[lo] <= WINDOW && limits[n] <= bound;
      } else {
        forall i, j | 0 <= i <= j < n && b[j] - b[i] <= WINDOW ensures j - i + 1 <= limits[..n][j] {
          assert limits[..n][j] == limits[j];
        }
        WithinLimitsCounts(b[..n], limits[..n], t, bound);
      }
    }
  }

  /** Any closed 60-second interval holds at most `bound` booked calls, over
      every interleaving of clients whose limits do not exceed `bound`. */
  lemma AtMostLimitPerWindow(start: real, steps: seq<(Op, real)>, t: real, bound: nat)
    requires Monotone(start, steps)
    requires StepsAtMost(steps, bound)
    ensures CallsIn(Interleave(Window([], [], [], start), steps).booked, t) <= bound
  {
    var w0 := Window([], [], [], start);
    InterleaveKeeps(w0, steps);
    LimitsComeFromSteps(w0, steps, bound);
    var w := Interleave(w0, steps);
    WithinLimitsCounts(w.booked, w.limits, t, bound);
  }

  lemma LockedLimits(w: Window, op: Op, now: real, bound: int)
    requires AllAtMost(w.limits, bound) && (op.Acquire? ==> op.limit <= bound)
    ensures AllAtMost(Locked(w, op, now).limits, bound)
  {
    var r := Locked(w, op, now);
    assert r.limits == w.limits || (op.Acquire? && r.limits == w.limits + [op.limit]);
  }

  lemma {:induction false} LimitsComeFromSteps(w: Window, steps: seq<(Op, real)>, bound: int)
    requires StepsAtMost(steps, bound) && AllAtMost(w.limits, bound)
    ensures AllAtMost(Interleave(w, steps).limits, bound)
    decreases |steps|
  {
    if steps != [] {
      LockedLimits(w, steps[0].0, steps[0].1, bound);
      LimitsComeFromSteps(Locked(w, steps[0].0, steps[0].1), steps[1..], bound);
    }
  }

  /** The bound is met: whoever finds room books, so a window of `limit` slots
      can hold exactly `limit` calls made together. */
  lemma RoomIsGranted(w: Window, limit: int, now: real)
    requires Consistent(w) && w.last <= now
    ensures (Answer(w, Acquire(limit), now) == Granted) <==> (CallsIn(w.booked, now - WINDOW) < limit)
  {
    PurgedCount(w, now);
  }

  lemma PurgedCount(w: Window, now: real)
    requires Consistent(w) && w.last <= now
    ensures CallsIn(w.booked, now - WINDOW) == |Purge(w.calls, now)|
  {
    hide WithinLimits, Sorted, Expired, CallsIn, Purge;
    PurgedWindow(w.booked, w.calls, w.last, now);
  }

  lemma PurgedWindow(b: seq<real>, calls: seq<real>, last: real, now: real)
    requires |calls| <= |b| && calls == b[|b| - |calls|..] && last <= now
    requires Expired(b, |b| - |calls|, last) && Sorted(b) && forall i :: 0 <= i < |b| ==> b[i] <= last
    ensures CallsIn(b, now - WINDOW) == |Purge(calls, now)|
  {
    hide Sorted, CallsIn, Purge;
    PurgeExpires(b, calls, last, now);
    var q := Purge(calls, now);
    var d := |b| - |q|;
    PurgeHead(calls, now);
    assert d < |b| ==> q[0] == b[d];
    KeptAreRecent(b, d, last, now);
    CallsInExactly(b, now - WINDOW, d);
  }

  lemma {:induction false} PurgeHead(calls: seq<real>, now: real)
    ensures Purge(calls, now) != [] ==> now - Purge(calls, now)[0] <= WINDOW
  {
    if calls != [] && now - calls[0] > WINDOW { PurgeHead(calls[1..], now); }
  }

  /** What the purge leaves is in the window. */
  lemma KeptAreRecent(b: seq<real>, d: nat, last: real, now: real)
    requires d <= |b| && Sorted(b) && last <= now && (forall i :: 0 <= i < |b| ==> b[i] <= last)
    requires d < |b| ==> now - b[d] <= WINDOW
    ensures forall i :: d <= i < |b| ==> now - WINDOW <= b[i] <= now
  {}

  lemma {:induction false} CallsInExactly(b: seq<real>, t: real, lo: nat)
    requires lo <= |b| && (forall i :: 0 <= i < lo ==> b[i] < t)
    requires forall i :: lo <= i < |b| ==> t <= b[i] <= t + WINDOW
    ensures CallsIn(b, t) == |b| - lo
  {
    if b != [] {
      CallsInExactly(b[..|b| - 1], t, if lo == |b| then lo - 1 else lo);
    }
  }

  // ---------------------------------------------------------------- the program

  class Clock {
    var now: real

    constructor (t: real)
      ensures now == t
    { now := t; }

    /** Sleeps for at least `s` seconds. */
    method Sleep(s: real)
      modifies this
      ensures now >= old(now) + s && now >= old(now)
    {
      now := now + (if s > 0.0 then s else 0.0);
    }
  }

  class SharedWindow {
    var calls: seq<real>
    ghost var w: Window

    ghost predicate Valid()
      reads this
    {
      calls == w.calls && Consistent(w)
    }

    constructor (ghost t: real)
      ensures Valid() && w == Window([], [], [], t)
    {
      calls := [];
      w := Window([], [], [], t);
    }

    /** Pops every call that has left the window. */
    method PurgeOld(now: real)
      modifies this`calls
      ensures calls == Purge(old(calls), now)
    {
      while calls != [] && now - calls[0] > WINDOW
        invariant Purge(calls, now) == Purge(old(calls), now)
        decreases |calls|
      {
        calls := calls[1..];
      }
    }

    /** One turn of `acquire`, under the lock. */
    method TryAcquire(limit: int, now: real) returns (turn: Turn)
      requires Valid() && w.last <= now
      modifies this
      ensures Valid() && w == Locked(old(w), Acquire(limit), now) && turn == Answer(old(w), Acquire(limit), now)
    {
      LockedKeeps(w, Acquire(limit), now);
      turn := EmptyDeque;
      PurgeOld(now);
      if |calls| < limit {
        calls := calls + [now];
        turn := Granted;
      } else if calls != [] {
        turn := Wait(WINDOW - (now - calls[0]) + 0.5);
      }
      w := Locked(w, Acquire(limit), now);
    }

    method PeekWait(limit: int, now: real) returns (turn: Turn)
      requires Valid() && w.last <= now
      modifies this
      ensures Valid() && w == Locked(old(w), SecondsUntilSlot(limit), now)
      ensures turn == Answer(old(w), SecondsUntilSlot(limit), now)
    {
      LockedKeeps(w, SecondsUntilSlot(limit), now);
      turn := EmptyDeque;
      PurgeOld(now);
      if |calls| < limit {
        turn := Granted;
      } else if calls != [] {
        turn := Wait(WINDOW - (now - calls[0]) + 0.5);
      }
      w := Locked(w, SecondsUntilSlot(limit), now);
    }

    /** `acquire` by a lone caller: it always returns, after at most one sleep per
        call above the limit, and books exactly one call.  A limit below one
        ends in an index error on the empty deque instead. */
    method AcquireSlot(limit: int, clock: Clock) returns (ok: bool, sleeps: nat)
      requires Valid() && w.last <= clock.now
      modifies this, clock
      ensures Valid() && w.last <= clock.now && clock.now >= old(clock.now)
      ensures ok <==> limit > 0
      ensures ok ==> w.booked == old(w.booked) + [w.last] && w.limits == old(w.limits) + [limit]
      ensures !ok ==> w.booked == old(w.booked)
      ensures ok && |old(calls)| < limit ==> sleeps == 0
      ensures ok && |old(calls)| >= limit ==> sleeps <= |old(calls)| - limit + 1
    {
      sleeps := 0;
      while true
        invariant Valid() && w.last <= clock.now && clock.now >= old(clock.now)
        invariant w.booked == old(w.booked) && w.limits == old(w.limits)
        invariant |calls| <= |old(calls)|
        invariant sleeps == 0 ==> calls == old(calls)
        invariant sleeps > 0 ==> calls != [] && clock.now - calls[0] > WINDOW && |calls| >= limit
        invariant sleeps > 0 ==> |calls| + sleeps - 1 <= |old(calls)|
        decreases |calls| + (if sleeps == 0 then 1 else 0)
      {
        ghost var before := calls;
        var turn := TryAcquire(limit, clock.now);
        if turn == Granted {
          ok := true;
          return;
        }
        if turn == EmptyDeque {
          ok := false;
          return;
        }
        clock.Sleep(turn.seconds);
        sleeps := sleeps + 1;
      }
    }
  }

  // ---------------------------------------------------------------- _request

  datatype Response = TooMany(retryAfter: real) | Forbidden | Payload | HttpError | NetworkError

  datatype Outcome = Json | EmptyForbidden | Raised | RateLimited | NoSlot

  const MAX_429_ATTEMPTS: nat := 4

  function Backoff(attempt: nat): real {
    if attempt == 0 then 15.0 else if attempt == 1 then 30.0 else 60.0
  }

  function Max(a: real, b: real): real { if a < b then b else a }

  function OutcomeOf(r: Response): Outcome {
    match r
    case TooMany(_) => RateLimited
    case Forbidden => EmptyForbidden
    case Payload => Json
    case HttpError | NetworkError => Raised
  }

  /** One metered GET.  It books one slot per send, sends at most four times,
      stops at the first answer that is not a 429, and gives up only after four.
      `sentAt` is when each attempt went out: after a 429 the next waits out the
      server's own delay, the growing floor, and the slot its own window asks for. */
  method Request(window: SharedWindow, limit: int, clock: Clock, server: seq<Response>)
    returns (out: Outcome, sends: nat, sentAt: seq<real>)
    requires |server| == MAX_429_ATTEMPTS
    requires window.Valid() && window.w.last <= clock.now
    modifies window, clock
    ensures window.Valid() && window.w.last <= clock.now
    ensures sends <= MAX_429_ATTEMPTS && |window.w.booked| == |old(window.w.booked)| + sends
    ensures old(window.w.booked) <= window.w.booked
    ensures sends == 0 <==> limit <= 0
    ensures sends == 0 <==> out == NoSlot
    ensures sends > 0 ==>
      && (out == Json <==> server[sends - 1].Payload?)
      && (out == EmptyForbidden <==> server[sends - 1].Forbidden?)
      && (out == Raised <==> server[sends - 1].HttpError? || server[sends - 1].NetworkError?)
      && (out == RateLimited <==> sends == 4 && server[3].TooMany?)
    ensures forall i :: 0 <= i < sends - 1 ==> server[i].TooMany?
    ensures |sentAt| == sends && (sends > 0 ==> sentAt[0] >= old(clock.now) && clock.now >= sentAt[sends - 1])
    ensures forall i :: 0 <= i < sends - 1 ==> sentAt[i + 1] >= sentAt[i] + server[i].retryAfter
    ensures forall i :: 0 <= i < sends - 1 ==> sentAt[i + 1] >= sentAt[i] + (if i == 0 then 15.0 else if i == 1 then 30.0 else 60.0)
  {
    hide Consistent, OutcomeOf, Backoff, Waited;
    sends, out, sentAt := 0, NoSlot, [];
    var ok, sleeps := window.AcquireSlot(limit, clock);
    if !ok { return; }
    for attempt := 0 to MAX_429_ATTEMPTS
      invariant sends == attempt == |sentAt| && limit > 0
      invariant window.Valid() && window.w.last <= clock.now && clock.now >= old(clock.now)
      invariant |window.w.booked| == |old(window.w.booked)| + sends + 1
      invariant old(window.w.booked) <= window.w.booked
      invariant forall i :: 0 <= i < attempt ==> server[i].TooMany?
      invariant attempt > 0 ==> sentAt[0] >= old(clock.now) && Waited(sentAt[attempt - 1], clock.now, server[attempt - 1], attempt - 1)
      invariant forall i :: 0 <= i < attempt - 1 ==> Waited(sentAt[i], sentAt[i + 1], server[i], i)
      invariant attempt < MAX_429_ATTEMPTS
    {
      sends, sentAt := sends + 1, sentAt + [clock.now];
      if !server[attempt].TooMany? {
        out := OutcomeOf(server[attempt]);
        OutcomesSay(server[attempt]);
        WaitsSay(sentAt, server);
        return;
      }
      if attempt == MAX_429_ATTEMPTS - 1 { break; }
      WaitOut(window, limit, clock, server[attempt], attempt);
    }
    out := RateLimited;
    WaitsSay(sentAt, server);
  }

  /** Between two attempts: the longest of the server's delay, the floor and what
      the window itself asks for; then the retry's own slot. */
  method WaitOut(window: SharedWindow, limit: int, clock: Clock, r: Response, attempt: nat)
    requires r.TooMany? && limit > 0 && window.Valid() && window.w.last <= clock.now
    modifies window, clock
    ensures window.Valid() && window.w.last <= clock.now && clock.now >= old(clock.now)
    ensures |window.w.booked| == |old(window.w.booked)| + 1 && old(window.w.booked) <= window.w.booked
    ensures Waited(old(clock.now), clock.now, r, attempt)
  {
    hide Consistent;
    var turn := window.PeekWait(limit, clock.now);
    var own := if turn.Wait? then turn.seconds else 0.0;
    clock.Sleep(Max(Max(r.retryAfter, Backoff(attempt)), own));
    var ok, sleeps := window.AcquireSlot(limit, clock);
  }

  /** From one attempt to the next. */
  predicate Waited(before: real, after: real, r: Response, attempt: nat) {
    r.TooMany? ==> after >= before + r.retryAfter && after >= before + Backoff(attempt)
  }

  lemma WaitsSay(sentAt: seq<real>, server: seq<Response>)
    requires |sentAt| <= |server| && forall i :: 0 <= i < |sentAt| - 1 ==> server[i].TooMany?
    requires forall i :: 0 <= i < |sentAt| - 1 ==> Waited(sentAt[i], sentAt[i + 1], server[i], i)
    ensures forall i :: 0 <= i < |sentAt| - 1 ==> sentAt[i + 1] >= sentAt[i] + server[i].retryAfter
    ensures forall i :: 0 <= i < |sentAt| - 1 ==> sentAt[i + 1] >= sentAt[i] + (if i == 0 then 15.0 else if i == 1 then 30.0 else 60.0)
  {
    forall i | 0 <= i < |sentAt| - 1
      ensures sentAt[i + 1] >= sentAt[i] + server[i].retryAfter
      ensures sentAt[i + 1] >= sentAt[i] + (if i == 0 then 15.0 else if i == 1 then 30.0 else 60.0)
    {
      assert Waited(sentAt[i], sentAt[i + 1], server[i], i);
    }
  }

  lemma OutcomesSay(r: Response)
    ensures OutcomeOf(r) != NoSlot
    ensures OutcomeOf(r) == Json <==> r.Payload?
    ensures OutcomeOf(r) == EmptyForbidden <==> r.Forbidden?
    ensures OutcomeOf(r) == Raised <==> r.HttpError? || r.NetworkError?
    ensures OutcomeOf(r) == RateLimited <==> r.TooMany?
  {}
}
