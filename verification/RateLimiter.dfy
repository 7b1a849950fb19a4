/** The fixed-window rate limiter, and how many events any stretch of time can let through. */
module RateLimiter {
  import opened Bytes

  /** start is None before the first event. */
  datatype State = State(count: int, start: Option<int>)

  const NEW := State(0, None)

  predicate Opens(s: State, window: int, now: int)
  {
    s.start.None? || now - s.start.value > window
  }

  function After(s: State, max: int, window: int, now: int): (State, bool)
  {
    if Opens(s, window, now) then (State(1, Some(now)), true)
    else if s.count >= max then (s, false)
    else (s.(count := s.count + 1), true)
  }

  class Limiter {
    const max: int
    const window: int
    var count: int
    var start: Option<int>

    function View(): State
      reads this
    {
      State(count, start)
    }

    constructor (max: int, window: int)
      ensures View() == NEW && this.max == max && this.window == window
    {
      this.max, this.window := max, window;
      count, start := 0, None;
    }

    method Allow(now: int) returns (allowed: bool)
      modifies this
      ensures (View(), allowed) == After(old(View()), max, window, now)
    {
      if start.None? || now - start.value > window {
        start := Some(now);
        count := 1;
        return true;
      }
      if count >= max {
        return false;
      }
      count := count + 1;
      return true;
    }
  }

  // --- runs ---

  function StateAfter(times: seq<int>, max: int, window: int): State
  {
    if times == [] then NEW
    else After(StateAfter(times[..|times| - 1], max, window), max, window, times[|times| - 1]).0
  }

  /** The times of the events that were let through. */
  function Allowed(times: seq<int>, max: int, window: int): seq<int>
  {
    if times == [] then []
    else
      var front, last := times[..|times| - 1], times[|times| - 1];
      Allowed(front, max, window) + if After(StateAfter(front, max, window), max, window, last).1 then [last] else []
  }

  predicate ClockRuns(times: seq<int>)
  {
    forall i, j :: 0 <= i <= j < |times| ==> times[i] <= times[j]
  }

  /** How many of the times lie from lo to hi, both included. */
  function CountIn(times: seq<int>, lo: int, hi: int): nat
  {
    if times == [] then 0
    else CountIn(times[..|times| - 1], lo, hi) + if lo <= times[|times| - 1] <= hi then 1 else 0
  }

  /** A limiter lets at least one event into a window, whatever its maximum. */
  function Bound(max: int): nat
  {
    if max < 1 then 1 else max
  }

  // --- the windows a run opens ---

  datatype Span = Span(start: int, hits: seq<int>)

  /** One event more in the last window. */
  function Grown(spans: seq<Span>, now: int): seq<Span>
    requires spans != []
  {
    var last := spans[|spans| - 1];
    spans[..|spans| - 1] + [last.(hits := last.hits + [now])]
  }

  function NextSpans(before: seq<Span>, s: State, max: int, window: int, now: int): seq<Span>
  {
    if Opens(s, window, now) then before + [Span(now, [now])]
    else if s.count >= max || before == [] then before
    else Grown(before, now)
  }

  /** The windows of a run, each with the events it let through. */
  function Spans(times: seq<int>, max: int, window: int): seq<Span>
  {
    if times == [] then []
    else
      var front := times[..|times| - 1];
      NextSpans(Spans(front, max, window), StateAfter(front, max, window), max, window, times[|times| - 1])
  }

  function Hits(spans: seq<Span>): seq<int>
  {
    if spans == [] then [] else Hits(spans[..|spans| - 1]) + spans[|spans| - 1].hits
  }

  predicate SpanSound(p: Span, max: int, window: int)
  {
    && 1 <= |p.hits| <= Bound(max) && p.hits[0] == p.start
    && forall i :: 0 <= i < |p.hits| ==> p.start <= p.hits[i] <= p.start + window
  }

  /** Windows open with an event, hold at most the bound, reach no further than their length, and start more than that
      apart. */
  predicate SpansSound(spans: seq<Span>, max: int, window: int)
  {
    && (forall i :: 0 <= i < |spans| ==> SpanSound(spans[i], max, window))
    && (forall i, j :: 0 <= i < j < |spans| ==> spans[j].start > spans[i].start + window)
  }

  predicate Current(spans: seq<Span>, s: State)
  {
    if s.start.None? then spans == []
    else spans != [] && spans[|spans| - 1].start == s.start.value && |spans[|spans| - 1].hits| == s.count
  }

  lemma Unfold(front: seq<int>, last: int, max: int, window: int)
    ensures StateAfter(front + [last], max, window) == After(StateAfter(front, max, window), max, window, last).0
    ensures Spans(front + [last], max, window)
            == NextSpans(Spans(front, max, window), StateAfter(front, max, window), max, window, last)
    ensures Allowed(front + [last], max, window)
            == Allowed(front, max, window)
               + if After(StateAfter(front, max, window), max, window, last).1 then [last] else []
  {
    hide After, NextSpans;
    assert (front + [last])[..|front|] == front;
  }

  lemma HitsSnoc(before: seq<Span>, p: Span)
    ensures Hits(before + [p]) == Hits(before) + p.hits
  {
    assert (before + [p])[..|before|] == before;
  }

  lemma SoundSnoc(before: seq<Span>, p: Span, max: int, window: int)
    requires SpansSound(before, max, window) && SpanSound(p, max, window)
    requires forall i :: 0 <= i < |before| ==> p.start > before[i].start + window
    ensures SpansSound(before + [p], max, window)
  {
    hide SpanSound;
  }

  lemma NewSpan(now: int, max: int, window: int)
    requires window >= 0
    ensures SpanSound(Span(now, [now]), max, window)
  {
  }

  lemma AllEarlier(before: seq<Span>, now: int, max: int, window: int)
    requires window >= 0 && SpansSound(before, max, window)
    requires before == [] || now > before[|before| - 1].start + window
    ensures forall i :: 0 <= i < |before| ==> now > before[i].start + window
  {
    hide SpanSound;
  }

  lemma SpanAdded(before: seq<Span>, now: int, max: int, window: int)
    requires window >= 0 && SpansSound(before, max, window)
    requires before == [] || now > before[|before| - 1].start + window
    ensures var after := before + [Span(now, [now])];
            SpansSound(after, max, window) && Hits(after) == Hits(before) + [now]
  {
    hide SpansSound, SpanSound, Hits;
    NewSpan(now, max, window);
    AllEarlier(before, now, max, window);
    HitsSnoc(before, Span(now, [now]));
    SoundSnoc(before, Span(now, [now]), max, window);
  }

  lemma SpanGrown(before: seq<Span>, now: int, max: int, window: int)
    requires SpansSound(before, max, window) && before != [] && |before[|before| - 1].hits| < max
    requires before[|before| - 1].start <= now <= before[|before| - 1].start + window
    ensures SpansSound(Grown(before, now), max, window) && Hits(Grown(before, now)) == Hits(before) + [now]
  {
    var front, last := before[..|before| - 1], before[|before| - 1];
    var grown := last.(hits := last.hits + [now]);
    assert SpanSound(last, max, window) && SpanSound(grown, max, window);
    hide SpanSound;
    assert (front + [grown])[..|front|] == front;
    assert Hits(front) + (last.hits + [now]) == Hits(front) + last.hits + [now];
  }

  lemma SpansStep(before: seq<Span>, s: State, now: int, max: int, window: int)
    requires window >= 0 && SpansSound(before, max, window) && Current(before, s)
    requires s.start.Some? ==> s.start.value <= now
    ensures var after, next := NextSpans(before, s, max, window, now), After(s, max, window, now);
            && SpansSound(after, max, window) && Current(after, next.0)
            && Hits(after) == Hits(before) + if next.1 then [now] else []
  {
    hide SpansSound, Hits;
    if Opens(s, window, now) {
      SpanAdded(before, now, max, window);
    } else if s.count < max {
      SpanGrown(before, now, max, window);
    }
  }

  lemma {:induction false} StartIsPast(times: seq<int>, max: int, window: int)
    requires ClockRuns(times)
    ensures StateAfter(times, max, window).start.Some? ==>
              times != [] && StateAfter(times, max, window).start.value <= times[|times| - 1]
  {
    if times != [] {
      StartIsPast(times[..|times| - 1], max, window);
    }
  }

  /** Over every run with a clock that does not run backwards: the events let through fall into windows that start more
      than the window length apart and hold at most the maximum each. */
  lemma {:induction false} RunFallsIntoSpans(times: seq<int>, max: int, window: int)
    requires ClockRuns(times) && window >= 0
    ensures SpansSound(Spans(times, max, window), max, window)
    ensures Current(Spans(times, max, window), StateAfter(times, max, window))
    ensures Hits(Spans(times, max, window)) == Allowed(times, max, window)
  {
    if times != [] {
      var front, last := times[..|times| - 1], times[|times| - 1];
      RunFallsIntoSpans(front, max, window);
      StartIsPast(front, max, window);
      assert times == front + [last];
      hide SpansSound, Current, Hits, Spans, StateAfter, Allowed, After, NextSpans;
      Unfold(front, last, max, window);
      SpansStep(Spans(front, max, window), StateAfter(front, max, window), last, max, window);
    }
  }

  // --- any stretch of one window's length ---

  lemma {:induction false} CountAppend(a: seq<int>, b: seq<int>, lo: int, hi: int)
    ensures CountIn(a + b, lo, hi) == CountIn(a, lo, hi) + CountIn(b, lo, hi)
  {
    if b == [] {
      assert a + b == a;
    } else {
      CountAppend(a, b[..|b| - 1], lo, hi);
      assert (a + b)[..|a + b| - 1] == a + b[..|b| - 1];
    }
  }

  lemma {:induction false} CountAtMost(times: seq<int>, lo: int, hi: int)
    ensures CountIn(times, lo, hi) <= |times|
  {
    if times != [] {
      CountAtMost(times[..|times| - 1], lo, hi);
    }
  }

  lemma {:induction false} CountNone(times: seq<int>, lo: int, hi: int)
    requires forall i :: 0 <= i < |times| ==> times[i] < lo || times[i] > hi
    ensures CountIn(times, lo, hi) == 0
  {
    if times != [] {
      CountNone(times[..|times| - 1], lo, hi);
    }
  }

  /** Without the first event, at most one less than all. */
  lemma CountTail(times: seq<int>, lo: int, hi: int)
    requires times != [] && times[0] < lo
    ensures CountIn(times, lo, hi) <= |times| - 1
  {
    assert times == [times[0]] + times[1..];
    CountAppend([times[0]], times[1..], lo, hi);
    CountNone([times[0]], lo, hi);
    CountAtMost(times[1..], lo, hi);
  }

  lemma SoundFront(spans: seq<Span>, max: int, window: int)
    requires SpansSound(spans, max, window) && spans != []
    ensures SpansSound(spans[..|spans| - 1], max, window) && SpanSound(spans[|spans| - 1], max, window)
    ensures |spans| > 1 ==> spans[|spans| - 1].start > spans[|spans| - 2].start + window
  {
    hide SpanSound;
  }

  /** Windows that end before lo contribute nothing. */
  lemma {:induction false} OldSpans(spans: seq<Span>, max: int, window: int, lo: int, hi: int)
    requires SpansSound(spans, max, window) && window >= 0
    requires spans == [] || spans[|spans| - 1].start + window < lo
    ensures CountIn(Hits(spans), lo, hi) == 0
  {
    if spans != [] {
      var front, last := spans[..|spans| - 1], spans[|spans| - 1];
      SoundFront(spans, max, window);
      OldSpans(front, max, window, lo, hi);
      CountAppend(Hits(front), last.hits, lo, hi);
      CountNone(last.hits, lo, hi);
    }
  }

  /** If the last window starts before lo, only that one contributes, and not with the event that opened it. */
  lemma OneSpan(spans: seq<Span>, max: int, window: int, lo: int, hi: int)
    requires SpansSound(spans, max, window) && window >= 0
    requires spans == [] || spans[|spans| - 1].start < lo
    ensures CountIn(Hits(spans), lo, hi) <= Bound(max) - 1
  {
    if spans != [] {
      var front, last := spans[..|spans| - 1], spans[|spans| - 1];
      SoundFront(spans, max, window);
      OldSpans(front, max, window, lo, hi);
      CountAppend(Hits(front), last.hits, lo, hi);
      CountTail(last.hits, lo, hi);
    }
  }

  lemma {:induction false} TwoSpans(spans: seq<Span>, max: int, window: int, lo: int, hi: int)
    requires SpansSound(spans, max, window) && window >= 0 && hi - lo <= window
    ensures CountIn(Hits(spans), lo, hi) <= 2 * Bound(max) - 1
  {
    if spans != [] {
      var front, last := spans[..|spans| - 1], spans[|spans| - 1];
      SoundFront(spans, max, window);
      CountAppend(Hits(front), last.hits, lo, hi);
      if last.start > hi {
        CountNone(last.hits, lo, hi);
        TwoSpans(front, max, window, lo, hi);
      } else {
        CountAtMost(last.hits, lo, hi);
        OneSpan(front, max, window, lo, hi);
      }
    }
  }

  /** Whatever the requests, no stretch of time as long as the window lets through twice the maximum: at most one
      less. */
  lemma LessThanTwice(times: seq<int>, max: int, window: int, lo: int, hi: int)
    requires ClockRuns(times) && window >= 0 && hi - lo <= window
    ensures CountIn(Allowed(times, max, window), lo, hi) <= 2 * Bound(max) - 1
  {
    hide Allowed, Spans, Hits, SpansSound;
    RunFallsIntoSpans(times, max, window);
    TwoSpans(Spans(times, max, window), max, window, lo, hi);
  }

  // --- how far that is from the promised maximum ---

  function Repeat(t: int, n: nat): (r: seq<int>)
    ensures |r| == n && forall i :: 0 <= i < n ==> r[i] == t
  {
    if n == 0 then [] else Repeat(t, n - 1) + [t]
  }

  lemma {:induction false} CountAll(times: seq<int>, lo: int, hi: int)
    requires forall i :: 0 <= i < |times| ==> lo <= times[i] <= hi
    ensures CountIn(times, lo, hi) == |times|
  {
    if times != [] {
      CountAll(times[..|times| - 1], lo, hi);
    }
  }

  /** Events at one time fill what is left of an open window. */
  lemma {:induction false} FillWindow(front: seq<int>, t: int, n: nat, max: int, window: int)
    requires var s := StateAfter(front, max, window); !Opens(s, window, t) && s.count + n <= max
    ensures var s := StateAfter(front, max, window);
            StateAfter(front + Repeat(t, n), max, window) == s.(count := s.count + n)
    ensures Allowed(front + Repeat(t, n), max, window) == Allowed(front, max, window) + Repeat(t, n)
  {
    if n == 0 {
      assert front + [] == front;
      assert Allowed(front, max, window) + [] == Allowed(front, max, window);
    } else {
      FillWindow(front, t, n - 1, max, window);
      hide StateAfter, Allowed;
      Unfold(front + Repeat(t, n - 1), t, max, window);
      assert front + Repeat(t, n) == front + Repeat(t, n - 1) + [t];
      assert Allowed(front, max, window) + Repeat(t, n)
             == Allowed(front, max, window) + Repeat(t, n - 1) + [t];
    }
  }

  /** An event that opens a window, and the rest of its share at the same time. */
  lemma OpenAndFill(front: seq<int>, t: int, u: int, n: nat, max: int, window: int)
    requires window >= 0 && Opens(StateAfter(front, max, window), window, t) && t <= u <= t + window && n < Bound(max)
    ensures StateAfter(front + [t] + Repeat(u, n), max, window) == State(1 + n, Some(t))
    ensures Allowed(front + [t] + Repeat(u, n), max, window) == Allowed(front, max, window) + [t] + Repeat(u, n)
  {
    hide StateAfter, Allowed;
    Unfold(front, t, max, window);
    if n == 0 {
      assert front + [t] + [] == front + [t];
      assert Allowed(front, max, window) + [t] + [] == Allowed(front, max, window) + [t];
    } else {
      FillWindow(front + [t], u, n, max, window);
    }
  }

  /** One event, the rest of its window at the window's end, and a full window right after. */
  function Burst(max: int, window: int): seq<int>
  {
    [0] + Repeat(window, Bound(max) - 1) + [window + 1] + Repeat(window + 1, Bound(max) - 1)
  }

  lemma BurstRuns(max: int, window: int)
    requires window >= 0
    ensures ClockRuns(Burst(max, window))
  {
    var n := Bound(max) - 1;
    var early, late := [0] + Repeat(window, n), [window + 1] + Repeat(window + 1, n);
    assert forall t :: t in early ==> 0 <= t <= window;
    assert Burst(max, window) == early + late;
    hide Bound, Repeat, Burst;
  }

  lemma RunOfNone(max: int, window: int)
    ensures StateAfter([], max, window) == NEW && Allowed([], max, window) == []
  {
  }

  lemma BurstIsAllowed(max: int, window: int)
    requires window >= 0
    ensures Allowed(Burst(max, window), max, window) == Burst(max, window)
  {
    var n: nat := Bound(max) - 1;
    RunOfNone(max, window);
    hide StateAfter, Allowed, Repeat, Bound;
    var early := [0] + Repeat(window, n);
    OpenAndFill([], 0, window, n, max, window);
    assert [] + [0] + Repeat(window, n) == early;
    OpenAndFill(early, window + 1, window + 1, n, max, window);
  }

  /** The bound is reached, whatever the maximum and the window. */
  lemma BoundIsReached(max: int, window: int)
    requires window >= 1
    ensures ClockRuns(Burst(max, window))
    ensures CountIn(Allowed(Burst(max, window), max, window), window, 2 * window) == 2 * Bound(max) - 1
  {
    BurstRuns(max, window);
    BurstIsAllowed(max, window);
    hide ClockRuns;
    var n := Bound(max) - 1;
    var early, late := Repeat(window, n), [window + 1] + Repeat(window + 1, n);
    CountNone([0], window, 2 * window);
    CountAll(early, window, 2 * window);
    CountAll(late, window, 2 * window);
    CountAppend([0], early, window, 2 * window);
    CountAppend([0] + early, late, window, 2 * window);
    assert Burst(max, window) == [0] + early + late;
    hide CountIn, Allowed, Repeat;
  }

  /** The promise, taken for every stretch of time as long as the window. */
  ghost predicate KeepsEveryStretch(max: int, window: int)
  {
    forall times, lo, hi :: ClockRuns(times) && hi - lo <= window ==>
      CountIn(Allowed(times, max, window), lo, hi) <= max
  }

  /** The promise, taken for the windows the limiter itself opens. */
  ghost predicate KeepsOwnWindows(max: int, window: int)
  {
    forall times, i :: ClockRuns(times) && 0 <= i < |Spans(times, max, window)| ==>
                         |Spans(times, max, window)[i].hits| <= max
  }

  /** Windows of no length keep even a sliding promise. */
  lemma {:induction false} InstantSpans(spans: seq<Span>, max: int, lo: int, hi: int)
    requires SpansSound(spans, max, 0) && hi <= lo
    ensures CountIn(Hits(spans), lo, hi) <= Bound(max)
  {
    if spans != [] {
      var front, last := spans[..|spans| - 1], spans[|spans| - 1];
      SoundFront(spans, max, 0);
      CountAppend(Hits(front), last.hits, lo, hi);
      if last.start > hi {
        CountNone(last.hits, lo, hi);
        InstantSpans(front, max, lo, hi);
      } else {
        CountAtMost(last.hits, lo, hi);
        OldSpans(front, max, 0, lo, hi);
      }
    }
  }

  lemma OneIsAllowed(max: int, window: int)
    ensures ClockRuns([0]) && Allowed([0], max, window) == [0] && CountIn([0], 0, 0) == 1
    ensures Spans([0], max, window) == [Span(0, [0])]
  {
    assert [0][..0] == [];
  }

  /** Exactly which limiters keep the maximum in every stretch: those that let through one event at a time, and those
      with a window of no length. */
  lemma SlidingPromiseIff(max: int, window: int)
    requires window >= 0
    ensures KeepsEveryStretch(max, window) <==> max == 1 || (max >= 1 && window == 0)
  {
    hide CountIn, Allowed, Spans, Hits, SpansSound, ClockRuns;
    if max == 1 || (max >= 1 && window == 0) {
      forall times, lo, hi | ClockRuns(times) && hi - lo <= window
        ensures CountIn(Allowed(times, max, window), lo, hi) <= max
      {
        LessThanTwice(times, max, window, lo, hi);
        if window == 0 {
          RunFallsIntoSpans(times, max, window);
          InstantSpans(Spans(times, max, window), max, lo, hi);
        }
      }
    } else if max < 1 {
      OneIsAllowed(max, window);
      assert ClockRuns([0]);
      assert CountIn(Allowed([0], max, window), 0, 0) > max;
    } else {
      BoundIsReached(max, window);
      assert 2 * window - window <= window;
    }
  }

  /** Exactly which limiters keep the maximum in their own windows: those with a maximum of at least one. */
  lemma OwnPromiseIff(max: int, window: int)
    requires window >= 0
    ensures KeepsOwnWindows(max, window) <==> max >= 1
  {
    hide Spans;
    if max >= 1 {
      forall times, i | ClockRuns(times) && 0 <= i < |Spans(times, max, window)|
        ensures |Spans(times, max, window)[i].hits| <= max
      {
        RunFallsIntoSpans(times, max, window);
        assert SpanSound(Spans(times, max, window)[i], max, window);
      }
    } else {
      OneIsAllowed(max, window);
      assert |Spans([0], max, window)[0].hits| > max;
    }
  }
}
