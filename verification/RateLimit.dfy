/** The in-memory sliding-window rate limit: two counters per key, the older one
    weighted by how much of the window is still ahead. Times are in nanoseconds. */
module RateLimit {
  import opened Wrappers

  datatype Window = Window(prev: nat, curr: nat, start: int)

  /** Five minutes. */
  const LIFETIME := 300_000_000_000

  // ----- one request -----

  /** Both counters are stale, or the current one is, or none. */
  function Rotated(w: Window, now: int, length: int): Window {
    if now - w.start >= 2 * length then Window(0, 0, now)
    else if now - w.start >= length then Window(w.curr, 0, w.start + length)
    else w
  }

  function Counted(w: Option<Window>, now: int, length: int): Window {
    if w.None? then Window(0, 1, now)
    else
      var r := Rotated(w.value, now, length);
      r.(curr := r.curr + 1)
  }

  function Ceiling(x: real): int {
    -(-x).Floor
  }

  function Weight(elapsed: int, length: int): real
    requires length > 0
  {
    var weight := 1.0 - elapsed as real / length as real;
    if weight < 0.0 then 0.0 else weight
  }

  function Estimate(w: Window, now: int, length: int): int
    requires length > 0
  {
    Ceiling(w.prev as real * Weight(now - w.start, length)) + w.curr
  }

  predicate IsStale(w: Window, now: int) {
    now - w.start > LIFETIME
  }

  class MemoryRateLimitCounter {
    var windows: map<string, Window>

    constructor ()
      ensures windows == map[]
    {
      windows := map[];
    }

    method IncrementWithTTL(key: string, length: int, now: int) returns (estimate: int)
      requires length > 0
      modifies this
      ensures var w := Counted(if key in old(windows) then Some(old(windows)[key]) else None, now, length);
              windows == old(windows)[key := w] &&
              estimate == if key in old(windows) then Estimate(w, now, length) else 1
    {
      if key !in windows {
        windows := windows[key := Window(0, 1, now)];
        return 1;
      }
      var w := windows[key];
      var elapsed := now - w.start;
      if elapsed >= 2 * length {
        w := Window(0, 0, now);
      } else if elapsed >= length {
        w := Window(w.curr, 0, w.start + length);
      }
      w := w.(curr := w.curr + 1);
      windows := windows[key := w];
      var weight := 1.0 - (now - w.start) as real / length as real;
      if weight < 0.0 {
        weight := 0.0;
      }
      return Ceiling(w.prev as real * weight) + w.curr;
    }

    /** Stale entries are removed, and nothing else. */
    method Cleanup(now: int)
      modifies this
      ensures windows == map k | k in old(windows) && !IsStale(old(windows)[k], now) :: old(windows)[k]
    {
      var left := windows.Keys;
      while left != {}
        invariant left <= old(windows).Keys
        invariant windows == map k | k in old(windows) && (k in left || !IsStale(old(windows)[k], now)) :: old(windows)[k]
        decreases left
      {
        var key :| key in left;
        left := left - {key};
        if IsStale(windows[key], now) {
          windows := windows - {key};
        }
      }
    }
  }

  // ----- runs for one key -----

  ghost predicate Nondecreasing(times: seq<int>) {
    forall i, j :: 0 <= i < j < |times| ==> times[i] <= times[j]
  }

  /** The window after requests at these times. */
  function After(times: seq<int>, length: int): Option<Window>
    decreases |times|
  {
    if times == [] then None
    else Some(Counted(After(times[..|times| - 1], length), times[|times| - 1], length))
  }

  /** How many requests fell in [from, until). */
  function Count(times: seq<int>, from: int, until: int): nat
    decreases |times|
  {
    if times == [] then 0
    else Count(times[..|times| - 1], from, until) + if from <= times[|times| - 1] < until then 1 else 0
  }

  lemma {:induction false} CountSplit(times: seq<int>, a: int, b: int, c: int)
    requires a <= b <= c
    ensures Count(times, a, c) == Count(times, a, b) + Count(times, b, c)
    decreases |times|
  {
    if times != [] {
      CountSplit(times[..|times| - 1], a, b, c);
    }
  }

  lemma {:induction false} CountNone(times: seq<int>, from: int, until: int)
    requires forall i :: 0 <= i < |times| ==> times[i] < from || times[i] >= until
    ensures Count(times, from, until) == 0
    decreases |times|
  {
    if times != [] {
      CountNone(times[..|times| - 1], from, until);
    }
  }

  lemma {:induction false} CountWider(times: seq<int>, a: int, b: int, c: int, d: int)
    requires a <= b && c <= d
    ensures Count(times, b, c) <= Count(times, a, d)
    decreases |times|
  {
    if times != [] {
      CountWider(times[..|times| - 1], a, b, c, d);
    }
  }

  /** The two counters are exact: they count the current window and the one before. */
  ghost predicate Exact(w: Window, times: seq<int>, length: int) {
    times != [] && w.start <= times[|times| - 1] < w.start + length &&
    w.curr == Count(times, w.start, w.start + length) && w.prev == Count(times, w.start - length, w.start)
  }

  lemma {:induction false} CountersAreExact(times: seq<int>, length: int)
    requires times != [] && length > 0 && Nondecreasing(times)
    ensures After(times, length).Some? && Exact(After(times, length).value, times, length)
    decreases |times|
  {
    var front, now := times[..|times| - 1], times[|times| - 1];
    if front != [] {
      CountersAreExact(front, length);
      RequestKeepsExact(front, now, length, After(front, length).value);
      assert times == front + [now];
    } else {
      assert Count(front, now, now + length) == 0 && Count(front, now - length, now) == 0;
    }
  }

  lemma RequestKeepsExact(front: seq<int>, now: int, length: int, w: Window)
    requires length > 0 && Nondecreasing(front + [now]) && Exact(w, front, length)
    ensures Exact(Counted(Some(w), now, length), front + [now], length)
  {
    var times := front + [now];
    assert times[..|times| - 1] == front;
    var last := front[|front| - 1];
    assert last == times[|front| - 1] && now == times[|front|];
    forall i | 0 <= i < |front| ensures front[i] <= last {
      assert front[i] == times[i];
    }
    if now - w.start >= length {
      var s := Rotated(w, now, length).start;
      CountNone(front, s, s + length);
      if now - w.start >= 2 * length {
        CountNone(front, s - length, s);
      }
    }
  }

  // ----- what the estimate means -----

  lemma WeightedIsBetween(n: nat, weight: real)
    requires 0.0 <= weight <= 1.0
    ensures 0 <= Ceiling(n as real * weight) <= n
  {
    assert 0.0 <= n as real * weight <= n as real;
  }

  lemma WeightIsFraction(elapsed: int, length: int)
    requires 0 <= elapsed && length > 0
    ensures 0.0 <= Weight(elapsed, length) <= 1.0
  {
    assert elapsed as real / length as real >= 0.0;
  }

  lemma EstimateIsBetween(w: Window, now: int, length: int)
    requires length > 0 && w.start <= now
    ensures w.curr <= Estimate(w, now, length) <= w.prev + w.curr
  {
    WeightIsFraction(now - w.start, length);
    WeightedIsBetween(w.prev, Weight(now - w.start, length));
  }

  /** The two counters together cover the trailing window, and the estimate lies between
      the current counter and their sum. */
  lemma CountersCoverTrailingWindow(times: seq<int>, length: int)
    requires times != [] && length > 0 && Nondecreasing(times)
    ensures var w, now := After(times, length).value, times[|times| - 1];
            Count(times, now - length + 1, now + 1) <= w.prev + w.curr &&
            w.curr <= Estimate(w, now, length) <= w.prev + w.curr
  {
    CountersAreExact(times, length);
    var w, now := After(times, length).value, times[|times| - 1];
    CountWider(times, w.start - length, now - length + 1, now + 1, w.start + length);
    CountSplit(times, w.start - length, w.start, w.start + length);
    EstimateIsBetween(w, now, length);
  }

  lemma CeilingIs(x: real)
    ensures x <= Ceiling(x) as real < x + 1.0
  {
  }

  /** `share` is the share `part / whole` of `n`, rounded up. */
  predicate IsShare(share: int, n: nat, part: int, whole: int) {
    (share - 1) * whole < n * part <= share * whole
  }

  lemma RealProduct(a: int, b: int)
    ensures a as real * b as real == (a * b) as real
  {
  }

  lemma LessTimes(x: real, y: real, l: real)
    requires l > 0.0
    ensures x <= y ==> x * l <= y * l
    ensures x < y ==> x * l < y * l
  {
  }

  lemma LeftShare(elapsed: int, length: int)
    requires 0 <= elapsed < length
    ensures Weight(elapsed, length) * length as real == (length - elapsed) as real
  {
    var f := elapsed as real / length as real;
    assert f * length as real == elapsed as real;
    assert f < 1.0;
    assert (1.0 - f) * length as real == length as real - f * length as real;
  }

  lemma ScaledWeight(n: nat, elapsed: int, length: int)
    requires 0 <= elapsed < length
    ensures n as real * Weight(elapsed, length) * length as real == (n * (length - elapsed)) as real
  {
    LeftShare(elapsed, length);
    RealProduct(n, length - elapsed);
    assert n as real * Weight(elapsed, length) * length as real == n as real * (Weight(elapsed, length) * length as real);
  }

  lemma NotBelow(x: real, c: int, part: int, length: int)
    requires length > 0 && x <= c as real && x * length as real == part as real
    ensures part <= c * length
  {
    LessTimes(x, c as real, length as real);
    RealProduct(c, length);
  }

  lemma NotAbove(x: real, c: int, part: int, length: int)
    requires length > 0 && c as real < x && x * length as real == part as real
    ensures c * length < part
  {
    LessTimes(c as real, x, length as real);
    RealProduct(c, length);
  }

  lemma WeightedIsShare(n: nat, elapsed: int, length: int)
    requires 0 <= elapsed < length
    ensures IsShare(Ceiling(n as real * Weight(elapsed, length)), n, length - elapsed, length)
  {
    var x, part := n as real * Weight(elapsed, length), n * (length - elapsed);
    CeilingIs(x);
    ScaledWeight(n, elapsed, length);
    NotBelow(x, Ceiling(x), part, length);
    NotAbove(x, Ceiling(x) - 1, part, length);
  }

  /** The estimate is what came in the current window and, of what came in the one before, the
      share of the current window that is left, rounded up. */
  lemma EstimateExactly(times: seq<int>, length: int)
    requires times != [] && length > 0 && Nondecreasing(times)
    ensures var w, now := After(times, length).value, times[|times| - 1];
            w.start <= now < w.start + length && w.curr == Count(times, w.start, w.start + length) &&
            w.prev == Count(times, w.start - length, w.start) &&
            IsShare(Estimate(w, now, length) - w.curr, w.prev, length - (now - w.start), length)
  {
    CountersAreExact(times, length);
    var w, now := After(times, length).value, times[|times| - 1];
    EstimateIsShare(w, now, length);
  }

  lemma EstimateIsShare(w: Window, now: int, length: int)
    requires length > 0 && w.start <= now < w.start + length && w.prev >= 0
    ensures IsShare(Estimate(w, now, length) - w.curr, w.prev, length - (now - w.start), length)
  {
    WeightedIsShare(w.prev, now - w.start, length);
  }

  // ----- how many get through -----

  /** The last request is let through. */
  predicate LetThrough(times: seq<int>, length: int, limit: nat)
    requires times != [] && length > 0
  {
    Estimate(After(times, length).value, times[|times| - 1], length) <= limit
  }

  /** How many requests of [from, from + length) are let through. */
  function Through(times: seq<int>, length: int, limit: nat, from: int): nat
    requires length > 0
    decreases |times|
  {
    if times == [] then 0
    else
      Through(times[..|times| - 1], length, limit, from) +
      if from <= times[|times| - 1] < from + length && LetThrough(times, length, limit) then 1 else 0
  }

  /** The most that one interval lets through. */
  function Most(limit: nat): nat {
    if limit >= 2 then 2 * limit - 2 else limit
  }

  function Least(a: int, b: int): int {
    if a < b then a else b
  }

  /** What one window lets through by itself: one less when an earlier window weighs in. */
  function Share(w: Window, limit: nat): int {
    if w.prev == 0 then Least(w.curr, limit) else Least(w.curr, if limit == 0 then 0 else limit - 1)
  }

  /** Of a window, and of what was let through in [from, from + length) up to it. The window
      before reaches into the interval only when it began before it, and then its first
      request, or the weight of the one before, leaves `limit - 1`. */
  predicate Bound(w: Window, total: nat, length: int, limit: nat, from: int) {
    if w.start + length <= from then total == 0
    else if w.start < from then total <= Least(if w.prev == 0 then w.curr - 1 else w.curr, if limit == 0 then 0 else limit - 1)
    else if w.start == from || w.prev == 0 then (w.start < from + length ==> total <= Share(w, limit)) && total <= Most(limit)
    else if w.start < from + length then total <= (if limit == 0 then 0 else limit - 1) + Share(w, limit)
    else total <= Most(limit)
  }

  lemma BoundIsMost(w: Window, total: nat, length: int, limit: nat, from: int)
    requires Bound(w, total, length, limit, from) && w.curr >= 1
    ensures total <= Most(limit)
  {
  }

  /** One more request, in the same window or a later one. */
  lemma BoundStep(v: Window, w: Window, total: nat, through: bool, now: int, length: int, limit: nat, from: int)
    requires length > 0 && v.curr >= 1 && Bound(v, total, length, limit, from)
    requires w == Counted(Some(v), now, length) && v.start <= now && w.start <= now < w.start + length
    requires through ==> w.curr <= limit && (w.prev > 0 ==> w.curr < limit)
    ensures Bound(w, total + (if from <= now < from + length && through then 1 else 0), length, limit, from)
  {
    BoundIsMost(v, total, length, limit, from);
  }

  lemma {:induction false} AfterIsCounted(times: seq<int>, length: int)
    requires times != [] && length > 0 && Nondecreasing(times)
    ensures After(times, length).Some? && After(times, length).value.curr >= 1
    ensures var w, now := After(times, length).value, times[|times| - 1]; w.start <= now < w.start + length
  {
    CountersAreExact(times, length);
  }

  /** A request that is let through leaves room for what weighs in from the window before. */
  lemma ThroughLeavesRoom(w: Window, now: int, length: int, limit: nat)
    requires length > 0 && w.start <= now < w.start + length && Estimate(w, now, length) <= limit
    ensures w.curr <= limit && (w.prev > 0 ==> w.curr < limit)
  {
    EstimateIsBetween(w, now, length);
    if w.prev > 0 {
      WeightIsPositive(now - w.start, length);
      WeightedIsPositive(w.prev, Weight(now - w.start, length));
    }
  }

  lemma WeightIsPositive(elapsed: int, length: int)
    requires 0 <= elapsed < length
    ensures Weight(elapsed, length) > 0.0
  {
    assert elapsed as real / length as real < 1.0;
  }

  lemma WeightedIsPositive(n: nat, weight: real)
    requires n > 0 && weight > 0.0
    ensures Ceiling(n as real * weight) >= 1
  {
    assert n as real * weight >= 1.0 * weight;
  }

  lemma {:induction false} RunIsBounded(times: seq<int>, length: int, limit: nat, from: int)
    requires times != [] && length > 0 && Nondecreasing(times)
    ensures After(times, length).Some?
    ensures Bound(After(times, length).value, Through(times, length, limit, from), length, limit, from)
    decreases |times|
  {
    var front, now := times[..|times| - 1], times[|times| - 1];
    AfterIsCounted(times, length);
    var w := After(times, length).value;
    if LetThrough(times, length, limit) {
      ThroughLeavesRoom(w, now, length, limit);
    }
    if front != [] {
      RunIsBounded(front, length, limit, from);
      AfterIsCounted(front, length);
      assert front[|front| - 1] <= now;
      BoundStep(After(front, length).value, w, Through(front, length, limit, from), LetThrough(times, length, limit),
                now, length, limit, from);
    }
  }

  /** No interval of one window's length lets more through than the limit, or twice the
      limit less two. */
  lemma IntervalsAreBounded(times: seq<int>, length: int, limit: nat, from: int)
    requires length > 0 && Nondecreasing(times)
    ensures Through(times, length, limit, from) <= Most(limit) <= 2 * limit
  {
    if times != [] {
      RunIsBounded(times, length, limit, from);
      AfterIsCounted(times, length);
      BoundIsMost(After(times, length).value, Through(times, length, limit, from), length, limit, from);
    }
  }

  // ----- the bound is attained -----

  /** One request, then `j` at the end of its window, then `k` near the end of the next. */
  function Burst(length: int, j: nat, k: nat): seq<int> {
    [0] + seq(j, i => length - 1) + seq(k, i => 2 * length - 2)
  }

  lemma BurstFront(length: int, j: nat, k: nat)
    requires j + k > 0
    ensures var times := Burst(length, j, k); var front := times[..|times| - 1];
            && front == (if k > 0 then Burst(length, j, k - 1) else Burst(length, j - 1, 0))
            && times[|times| - 1] == if k > 0 then 2 * length - 2 else length - 1
  {
  }

  lemma {:induction false} FirstBurst(length: int, limit: nat, j: nat)
    requires length > 1 && j < limit
    ensures After(Burst(length, j, 0), length) == Some(Window(0, j + 1, 0))
    ensures Through(Burst(length, j, 0), length, limit, length - 1) == j
  {
    var times := Burst(length, j, 0);
    if j == 0 {
      assert times == [0] && times[..0] == [];
    } else {
      BurstFront(length, j, 0);
      FirstBurst(length, limit, j - 1);
      EstimateIsBetween(Window(0, j + 1, 0), length - 1, length);
    }
  }

  lemma SecondEstimate(length: int, limit: nat, k: nat)
    requires limit > 0 && length >= 2 * limit
    ensures Estimate(Window(limit, k, length), 2 * length - 2, length) == k + 1
  {
    var elapsed := (length - 2) as real / length as real;
    var weight := Weight(length - 2, length);
    assert elapsed == 1.0 - 2.0 / length as real;
    assert weight == 2.0 / length as real;
    TwiceShare(limit, length);
    CeilingOfFraction(limit as real * weight);
    assert 2 * length - 2 - length == length - 2;
  }

  lemma CeilingOfFraction(x: real)
    requires 0.0 < x <= 1.0
    ensures Ceiling(x) == 1
  {
  }

  lemma TwiceShare(limit: nat, length: int)
    requires limit > 0 && length >= 2 * limit
    ensures 0.0 < limit as real * (2.0 / length as real) <= 1.0
  {
    var share := 2.0 / length as real;
    assert share > 0.0 && share * length as real == 2.0;
    assert limit as real * share >= 1.0 * share;
    assert (2.0 * limit as real) * share <= length as real * share;
  }

  /** One more request near the end of the second window. */
  lemma SecondStep(front: seq<int>, times: seq<int>, length: int, limit: nat, k: nat)
    requires limit >= 2 && length >= 2 * limit && 0 < k < limit && times == front + [2 * length - 2]
    requires After(front, length) == Some(if k == 1 then Window(0, limit, 0) else Window(limit, k - 1, length))
    ensures After(times, length) == Some(Window(limit, k, length))
    ensures Through(times, length, limit, length - 1) == Through(front, length, limit, length - 1) + 1
  {
    assert times[..|times| - 1] == front;
    SecondEstimate(length, limit, k);
  }

  lemma {:induction false} SecondBurst(length: int, limit: nat, k: nat)
    requires limit >= 2 && length >= 2 * limit && k < limit
    ensures After(Burst(length, limit - 1, k), length) ==
            Some(if k == 0 then Window(0, limit, 0) else Window(limit, k, length))
    ensures Through(Burst(length, limit - 1, k), length, limit, length - 1) == limit - 1 + k
  {
    if k == 0 {
      FirstBurst(length, limit, limit - 1);
    } else {
      SecondBurst(length, limit, k - 1);
      var times, front := Burst(length, limit - 1, k), Burst(length, limit - 1, k - 1);
      assert times == front + [2 * length - 2];
      SecondStep(front, times, length, limit, k);
    }
  }

  /** There is a run that lets that many through, for every limit and every window of at
      least twice as many nanoseconds. */
  lemma BoundIsAttained(length: int, limit: nat)
    requires limit >= 2 && length >= 2 * limit
    ensures Nondecreasing(Burst(length, limit - 1, limit - 1))
    ensures Through(Burst(length, limit - 1, limit - 1), length, limit, length - 1) == Most(limit)
  {
    SecondBurst(length, limit, limit - 1);
  }

  // ----- the cleanup -----

  datatype Event = Request(at: int) | Sweep(at: int)

  ghost predicate InOrder(events: seq<Event>) {
    forall i, j :: 0 <= i < j < |events| ==> events[i].at <= events[j].at
  }

  function Step(w: Option<Window>, e: Event, length: int): Option<Window> {
    match e
    case Request(now) => Some(Counted(w, now, length))
    case Sweep(now) => if w.Some? && IsStale(w.value, now) then None else w
  }

  /** The window after some events, with sweeps or with none. */
  function Swept(events: seq<Event>, length: int, sweeping: bool): Option<Window>
    decreases |events|
  {
    if events == [] then None
    else
      var w := Swept(events[..|events| - 1], length, sweeping);
      var e := events[|events| - 1];
      if e.Sweep? && !sweeping then w else Step(w, e, length)
  }

  /** What the last event, a request, is told. */
  function Told(events: seq<Event>, length: int, sweeping: bool): int
    requires events != [] && events[|events| - 1].Request? && length > 0
  {
    var before := Swept(events[..|events| - 1], length, sweeping);
    var now := events[|events| - 1].at;
    if before.None? then 1 else Estimate(Counted(before, now, length), now, length)
  }

  /** What sweeping may have lost is out of date by two windows. */
  ghost predicate Unobserved(swept: Option<Window>, full: Option<Window>, now: int, length: int) {
    swept == full || (swept.None? && full.Some? && now - full.value.start >= 2 * length)
  }

  lemma {:induction false} SweepsLoseNothing(events: seq<Event>, length: int)
    requires events != [] && length > 0 && InOrder(events) && 2 * length <= LIFETIME + 1
    ensures Unobserved(Swept(events, length, true), Swept(events, length, false), events[|events| - 1].at, length)
    decreases |events|
  {
    var front := events[..|events| - 1];
    if front != [] {
      SweepsLoseNothing(front, length);
      assert front[|front| - 1].at <= events[|events| - 1].at;
    }
  }

  lemma FreshEstimate(now: int, length: int)
    requires length > 0
    ensures Estimate(Window(0, 1, now), now, length) == 1
  {
    EstimateIsBetween(Window(0, 1, now), now, length);
  }

  lemma ToldTheSame(events: seq<Event>, length: int)
    requires events != [] && events[|events| - 1].Request? && length > 0 && InOrder(events) && 2 * length <= LIFETIME + 1
    ensures Told(events, length, true) == Told(events, length, false)
  {
    var front, now := events[..|events| - 1], events[|events| - 1].at;
    FreshEstimate(now, length);
    if front != [] {
      SweepsLoseNothing(front, length);
      assert front[|front| - 1].at <= now;
    }
  }

  /** A request, a sweep just after the lifetime, and another request. */
  function Late(): seq<Event> {
    [Request(0), Sweep(LIFETIME + 1), Request(LIFETIME + 1)]
  }

  lemma LateRequestIsTold(length: int)
    requires 2 * length > LIFETIME + 1
    ensures Told(Late(), length, true) == 1 && Told(Late(), length, false) >= 2
  {
    var events, c := Late(), LIFETIME + 1;
    assert events[..2][..1] == [Request(0)] && [Request(0)][..0] == [];
    var first := Window(0, 1, 0);
    assert Swept([Request(0)], length, true) == Some(first) && Swept([Request(0)], length, false) == Some(first);
    assert Swept(events[..2], length, true) == None && Swept(events[..2], length, false) == Some(first);
    if c < length {
      EstimateIsBetween(Window(0, 2, 0), c, length);
    } else {
      RotatedOnce(c, length);
    }
  }

  lemma RotatedOnce(now: int, length: int)
    requires 0 < length <= now < 2 * length
    ensures Estimate(Window(1, 1, length), now, length) >= 2
  {
    var weight := Weight(now - length, length);
    assert (now - length) as real / length as real < 1.0;
    assert 1.0 * weight > 0.0;
  }

  /** Sweeping is never noticed exactly when two windows fit in the lifetime. */
  lemma SweepingIsUnobservedExactly(length: int)
    requires length > 0
    ensures (forall events: seq<Event> | events != [] && events[|events| - 1].Request? && InOrder(events) ::
               Told(events, length, true) == Told(events, length, false)) <==> 2 * length <= 300_000_000_001
  {
    if 2 * length <= LIFETIME + 1 {
      forall events: seq<Event> | events != [] && events[|events| - 1].Request? && InOrder(events)
        ensures Told(events, length, true) == Told(events, length, false)
      {
        ToldTheSame(events, length);
      }
    } else {
      LateRequestIsTold(length);
      assert InOrder(Late());
    }
  }
}
