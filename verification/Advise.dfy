/** Which plan to use now: window headroom and pace, ranking, and the winner. Fractions are real numbers. */
module Advise {
  import opened Bytes
  import opened SchedPoll
  import opened Sorting

  const SECOND := 1_000_000_000
  const HOUR := 3600 * SECOND
  const PACE_CAP := 99.9
  const PACE_CONFIDENCE_FLOOR := 0.1
  const MIN_ELAPSED := 0.01

  /** A provider block with the rows its array holds. */
  datatype Provider = Provider(block: Block, rows: seq<Row>)

  datatype WindowResult = WindowResult(key: string, pct: int, resetAt: int, length: int, headroom: int, pace: real,
                                       stale: bool, blocked: bool)

  /** One ranked plan; the explanation text is left out. */
  datatype Recommendation = Recommendation(id: string, title: string, score: int, pace: real, headroom: int,
                                           blocked: bool, blockedForSec: int)

  datatype Verdict = Verdict(winner: Option<string>, recommendations: seq<Recommendation>)

  // --- one window ---

  /** The three quota windows that take part, by exact key. */
  function WindowLength(key: string): Option<int>
  {
    if key == "5h" then Some(5 * HOUR) else if key == "7d" then Some(7 * 24 * HOUR)
    else if key == "30d" then Some(30 * 24 * HOUR) else None
  }

  /** math.Round: to the nearest integer, halves away from zero. */
  function Round(x: real): int
  {
    if x >= 0.0 then (x + 0.5).Floor else -(-x + 0.5).Floor
  }

  /** Headroom credited to a window that resets inside the horizon: the sooner it resets, the more of it counts. */
  function Credited(pct: int, untilReset: int, horizon: int): int
    requires horizon > 0
  {
    var waitFrac := untilReset as real / horizon as real;
    Round((100 - pct) as real * waitFrac + 100.0 * (1.0 - waitFrac))
  }

  function Headroom(pct: int, untilReset: int, horizon: int): int
  {
    if 0 < untilReset <= horizon then Credited(pct, untilReset, horizon) else 100 - pct
  }

  function Min(a: real, b: real): real
  {
    if a < b then a else b
  }

  function Elapsed(length: int, untilReset: int): real
    requires length > 0
  {
    var fraction := (length - untilReset) as real / length as real;
    if fraction < MIN_ELAPSED then MIN_ELAPSED else if fraction > 1.0 then 1.0 else fraction
  }

  function RawPace(pct: int, elapsed: real): real
    requires elapsed > 0.0
  {
    Min(pct as real / 100.0 / elapsed, PACE_CAP)
  }

  /** The used fraction over the elapsed one, pulled towards 1 while less than a tenth of the window has passed. */
  function Pace(pct: int, length: int, untilReset: int): real
    requires length > 0
  {
    var elapsed := Elapsed(length, untilReset);
    1.0 + (RawPace(pct, elapsed) - 1.0) * Min(1.0, elapsed / PACE_CONFIDENCE_FLOOR)
  }

  function Window(r: Row, now: int, horizon: int): Option<WindowResult>
  {
    var length := WindowLength(r.key);
    if length.None? || r.pct.None? || r.resetAt.None? then None
    else
      var pct, untilReset := r.pct.value, r.resetAt.value * SECOND - now;
      Some(WindowResult(r.key, pct, r.resetAt.value, length.value, Headroom(pct, untilReset, horizon),
                        if untilReset <= 0 || untilReset <= horizon then 1.0 else Pace(pct, length.value, untilReset),
                        untilReset <= 0, pct == 100))
  }

  function Windows(rows: seq<Row>, now: int, horizon: int): seq<WindowResult>
  {
    if rows == [] then []
    else
      var w := Window(rows[|rows| - 1], now, horizon);
      Windows(rows[..|rows| - 1], now, horizon) + if w.Some? then [w.value] else []
  }

  lemma LengthPositive(key: string)
    ensures WindowLength(key).Some? ==> WindowLength(key).value > 0
  {
  }

  method ComputeWindows(rows: seq<Row>, now: int, horizon: int) returns (windows: seq<WindowResult>)
    ensures windows == Windows(rows, now, horizon)
  {
    windows := [];
    for i := 0 to |rows|
      invariant windows == Windows(rows[..i], now, horizon)
    {
      assert rows[..i + 1][..i] == rows[..i];
      hide Headroom, Pace, WindowLength;
      var r := rows[i];
      var length := WindowLength(r.key);
      if length.None? {
        continue;
      }
      if r.pct.None? || r.resetAt.None? {
        continue;
      }
      var pct := r.pct.value;
      var untilReset := r.resetAt.value * SECOND - now;
      LengthPositive(r.key);
      var w := WindowResult(r.key, pct, r.resetAt.value, length.value, Headroom(pct, untilReset, horizon), 1.0,
                            false, pct == 100);
      if untilReset <= 0 {
        w := w.(stale := true);
      } else if untilReset > horizon {
        w := w.(pace := Pace(pct, length.value, untilReset));
      }
      windows := windows + [w];
    }
    assert rows[..|rows|] == rows;
  }

  lemma {:induction false} WindowsHaveKeys(rows: seq<Row>, now: int, horizon: int)
    ensures forall w :: w in Windows(rows, now, horizon) ==> w.key != ""
  {
    if rows != [] {
      WindowsHaveKeys(rows[..|rows| - 1], now, horizon);
      hide Headroom, Pace;
    }
  }

  // --- one provider ---

  /** b binds rather than a: less headroom, or as much over a longer window. */
  predicate Binds(b: WindowResult, a: WindowResult)
  {
    b.headroom < a.headroom || (b.headroom == a.headroom && b.length > a.length)
  }

  function Binding(windows: seq<WindowResult>): WindowResult
    requires windows != []
  {
    if |windows| == 1 then windows[0]
    else
      var before, last := Binding(windows[..|windows| - 1]), windows[|windows| - 1];
      if Binds(last, before) then last else before
  }

  method Aggregate(windows: seq<WindowResult>) returns (binding: WindowResult)
    requires windows != []
    ensures binding == Binding(windows)
  {
    binding := windows[0];
    for i := 1 to |windows|
      invariant binding == Binding(windows[..i])
    {
      assert windows[..i + 1][..i] == windows[..i];
      if Binds(windows[i], binding) {
        binding := windows[i];
      }
    }
    assert windows[..|windows|] == windows;
  }

  /** The binding window has the least headroom, and of those the longest length. */
  lemma {:induction false} BindingIsTightest(windows: seq<WindowResult>)
    requires windows != []
    ensures Binding(windows) in windows && forall w :: w in windows ==> !Binds(w, Binding(windows))
  {
    if |windows| > 1 {
      var front, last := windows[..|windows| - 1], windows[|windows| - 1];
      BindingIsTightest(front);
      assert windows == front + [last];
    }
  }

  /** Whole seconds to the reset, as a duration converts: towards zero. */
  function SecondsLeft(w: WindowResult, now: int): int
  {
    var left := w.resetAt * SECOND - now;
    if left >= 0 then left / SECOND else -((-left) / SECOND)
  }

  /** What the scan for exhausted windows has found: none, one whose reset is past, or one and the seconds until it
      resets. */
  datatype Hold = Free | Passed(key: string) | Frees(key: string, seconds: int)

  function HoldOf(windows: seq<WindowResult>, now: int): Hold
  {
    if windows == [] then Free
    else
      var before, w := HoldOf(windows[..|windows| - 1], now), windows[|windows| - 1];
      var left := SecondsLeft(w, now);
      if w.pct != 100 then before
      else if before == Free then (if left > 0 then Frees(w.key, left) else Passed(w.key))
      else if left > 0 && before.Frees? && left < before.seconds then Frees(w.key, left)
      else before
  }

  function HoldSeconds(h: Hold): int
  {
    if h.Frees? then h.seconds else 0
  }

  function HoldKey(h: Hold): string
  {
    if h == Free then "" else h.key
  }

  lemma {:induction false} HoldIsPositive(windows: seq<WindowResult>, now: int)
    ensures HoldOf(windows, now).Frees? ==> HoldOf(windows, now).seconds > 0
  {
    hide SecondsLeft;
    if windows != [] {
      HoldIsPositive(windows[..|windows| - 1], now);
    }
  }

  method ComputeBlocked(windows: seq<WindowResult>, now: int) returns (blocked: bool, key: string, seconds: int)
    requires forall w :: w in windows ==> w.key != ""
    ensures blocked == (HoldOf(windows, now) != Free)
    ensures key == HoldKey(HoldOf(windows, now)) && seconds == HoldSeconds(HoldOf(windows, now))
  {
    key, seconds := "", 0;
    for i := 0 to |windows|
      invariant key == HoldKey(HoldOf(windows[..i], now)) && (key == "" <==> HoldOf(windows[..i], now) == Free)
      invariant seconds == HoldSeconds(HoldOf(windows[..i], now)) && seconds >= 0
    {
      assert windows[..i + 1][..i] == windows[..i];
      HoldIsPositive(windows[..i], now);
      hide SecondsLeft;
      var w := windows[i];
      if w.pct != 100 {
        continue;
      }
      var left := SecondsLeft(w, now);
      if left > 0 {
        if key == "" || left < seconds {
          key, seconds := w.key, left;
        }
      } else if key == "" {
        key := w.key;
      }
    }
    assert windows[..|windows|] == windows;
    blocked := key != "";
  }

  predicate Exhausted(w: WindowResult)
  {
    w.pct == 100
  }

  predicate AnyExhausted(windows: seq<WindowResult>)
  {
    exists w :: w in windows && Exhausted(w)
  }

  /** An exhausted window whose reset is past comes before any other exhausted one. */
  predicate PastFirst(windows: seq<WindowResult>, now: int)
  {
    exists i :: 0 <= i < |windows| && Exhausted(windows[i]) && SecondsLeft(windows[i], now) <= 0
                && forall j :: 0 <= j < i ==> !Exhausted(windows[j])
  }

  /** The key and the seconds are those of an exhausted window, and none of the exhausted ones still to reset does so
      sooner. */
  predicate Soonest(windows: seq<WindowResult>, now: int, key: string, seconds: int)
  {
    && (exists w :: w in windows && Exhausted(w) && w.key == key && SecondsLeft(w, now) == seconds)
    && (forall w :: w in windows && Exhausted(w) && SecondsLeft(w, now) > 0 ==> seconds <= SecondsLeft(w, now))
  }

  lemma ExhaustedSnoc(front: seq<WindowResult>, last: WindowResult)
    ensures AnyExhausted(front + [last]) <==> AnyExhausted(front) || Exhausted(last)
  {
    if Exhausted(last) {
      assert last in front + [last];
    }
    if AnyExhausted(front) {
      var w :| w in front && Exhausted(w);
      assert w in front + [last];
    }
  }

  lemma NoneExhausted(front: seq<WindowResult>, all: seq<WindowResult>)
    requires front <= all && forall j :: 0 <= j < |front| ==> !Exhausted(all[j])
    ensures !AnyExhausted(front)
  {
    forall w | w in front
      ensures !Exhausted(w)
    {
      var j :| 0 <= j < |front| && front[j] == w;
      assert all[j] == w;
    }
  }

  lemma PastFirstSnoc(front: seq<WindowResult>, last: WindowResult, now: int)
    ensures PastFirst(front + [last], now)
            <==> PastFirst(front, now) || (!AnyExhausted(front) && Exhausted(last) && SecondsLeft(last, now) <= 0)
  {
    hide SecondsLeft, Exhausted;
    var all := front + [last];
    if PastFirst(front, now) {
      var i :| 0 <= i < |front| && Exhausted(front[i]) && SecondsLeft(front[i], now) <= 0
               && forall j :: 0 <= j < i ==> !Exhausted(front[j]);
      assert Exhausted(all[i]) && forall j :: 0 <= j < i ==> all[j] == front[j];
    }
    if !AnyExhausted(front) && Exhausted(last) && SecondsLeft(last, now) <= 0 {
      assert forall j :: 0 <= j < |front| ==> front[j] in front;
      assert Exhausted(all[|front|]) && forall j :: 0 <= j < |front| ==> all[j] == front[j];
    }
    if PastFirst(all, now) {
      var i :| 0 <= i < |all| && Exhausted(all[i]) && SecondsLeft(all[i], now) <= 0
               && forall j :: 0 <= j < i ==> !Exhausted(all[j]);
      if i < |front| {
        assert front[i] == all[i] && forall j :: 0 <= j < i ==> all[j] == front[j];
      } else {
        NoneExhausted(front, all);
      }
    }
  }

  lemma SoonestSnoc(front: seq<WindowResult>, last: WindowResult, now: int, key: string, seconds: int)
    requires Soonest(front, now, key, seconds)
    ensures var left := SecondsLeft(last, now);
            if Exhausted(last) && 0 < left < seconds then Soonest(front + [last], now, last.key, left)
            else Soonest(front + [last], now, key, seconds)
  {
    hide SecondsLeft, Exhausted;
    var w :| w in front && Exhausted(w) && w.key == key && SecondsLeft(w, now) == seconds;
    assert w in front + [last] && last in front + [last];
  }

  lemma SoonestFirst(front: seq<WindowResult>, last: WindowResult, now: int)
    requires !AnyExhausted(front) && Exhausted(last)
    ensures Soonest(front + [last], now, last.key, SecondsLeft(last, now))
  {
    hide SecondsLeft, Exhausted;
    assert last in front + [last];
  }

  lemma NothingExhausted(now: int)
    ensures !AnyExhausted([]) && !PastFirst([], now)
  {
  }

  /** Blocked means some window is exhausted. The time is that of the exhausted window that resets first, except that a
      first exhausted window whose reset is past hides every later one. */
  lemma {:induction false} HoldMeaning(windows: seq<WindowResult>, now: int)
    ensures HoldOf(windows, now) != Free <==> AnyExhausted(windows)
    ensures HoldOf(windows, now).Passed? <==> PastFirst(windows, now)
    ensures HoldOf(windows, now).Frees? ==>
              Soonest(windows, now, HoldOf(windows, now).key, HoldOf(windows, now).seconds)
  {
    hide SecondsLeft, AnyExhausted, PastFirst, Soonest;
    if windows == [] {
      NothingExhausted(now);
    } else {
      var front, last := windows[..|windows| - 1], windows[|windows| - 1];
      HoldMeaning(front, now);
      assert windows == front + [last];
      ExhaustedSnoc(front, last);
      PastFirstSnoc(front, last, now);
      if HoldOf(front, now).Frees? {
        SoonestSnoc(front, last, now, HoldOf(front, now).key, HoldOf(front, now).seconds);
      } else if HoldOf(front, now) == Free && Exhausted(last) {
        SoonestFirst(front, last, now);
      }
    }
  }

  predicate Earliest(windows: seq<WindowResult>, now: int, w: WindowResult)
  {
    Exhausted(w) && forall v :: v in windows && Exhausted(v) ==> SecondsLeft(w, now) <= SecondsLeft(v, now)
  }

  /** What the scan promises for a blocked provider: the time to the earliest reset, or 0 when that is past. */
  predicate EarliestTime(windows: seq<WindowResult>, now: int, seconds: int)
  {
    exists w :: w in windows && Earliest(windows, now, w)
                && seconds == if SecondsLeft(w, now) > 0 then SecondsLeft(w, now) else 0
  }

  predicate NonePast(windows: seq<WindowResult>, now: int)
  {
    forall w :: w in windows && Exhausted(w) ==> SecondsLeft(w, now) > 0
  }

  lemma {:induction false} EarliestExists(windows: seq<WindowResult>, now: int) returns (w: WindowResult)
    requires AnyExhausted(windows)
    ensures w in windows && Earliest(windows, now, w)
  {
    hide SecondsLeft, Exhausted;
    var front, last := windows[..|windows| - 1], windows[|windows| - 1];
    assert windows == front + [last];
    ExhaustedSnoc(front, last);
    if AnyExhausted(front) {
      w := EarliestExists(front, now);
      if Exhausted(last) && SecondsLeft(last, now) < SecondsLeft(w, now) {
        w := last;
      }
    } else {
      w := last;
    }
  }

  /** Exactly when the time is the promised one: the first exhausted window is past its reset, or none is. */
  lemma BlockedTimeIff(windows: seq<WindowResult>, now: int)
    requires AnyExhausted(windows)
    ensures EarliestTime(windows, now, HoldSeconds(HoldOf(windows, now)))
            <==> PastFirst(windows, now) || NonePast(windows, now)
  {
    hide SecondsLeft, Exhausted, AnyExhausted;
    HoldMeaning(windows, now);
    HoldIsPositive(windows, now);
    var w := EarliestExists(windows, now);
    var h := HoldOf(windows, now);
    hide HoldOf;
    if PastFirst(windows, now) {
      var i :| 0 <= i < |windows| && Exhausted(windows[i]) && SecondsLeft(windows[i], now) <= 0
               && forall j :: 0 <= j < i ==> !Exhausted(windows[j]);
      assert windows[i] in windows;
      assert SecondsLeft(w, now) <= 0;
    } else if NonePast(windows, now) {
      var v :| v in windows && Exhausted(v) && v.key == h.key && SecondsLeft(v, now) == h.seconds;
      assert Earliest(windows, now, v);
    }
  }

  const FUTURE_THEN_PAST := [WindowResult("5h", 100, 10, 5 * HOUR, 0, 1.0, false, true),
                             WindowResult("7d", 100, -10, 7 * 24 * HOUR, 0, 1.0, true, true)]

  /** An exhausted window that resets in ten seconds, and behind it one whose reset is past: the time is ten seconds,
      not 0. */
  lemma LaterPastIsMissed()
    ensures HoldOf(FUTURE_THEN_PAST, 0) == Frees("5h", 10) && !EarliestTime(FUTURE_THEN_PAST, 0, 10)
  {
    var a, b := FUTURE_THEN_PAST[0], FUTURE_THEN_PAST[1];
    assert FUTURE_THEN_PAST[..1] == [a] && [a][..0] == [];
    assert SecondsLeft(a, 0) == 10 && SecondsLeft(b, 0) == -10;
    assert HoldOf([], 0) == Free;
    assert HoldOf([a], 0) == Frees("5h", 10);
    assert b in FUTURE_THEN_PAST;
  }

  // --- ranking ---

  /** A plan that reports, ranked by its windows. */
  function Ranked(p: Provider, now: int, horizon: int): Option<Recommendation>
  {
    var windows := Windows(p.rows, now, horizon);
    if p.block.kind != "plan" || (p.block.status != "ok" && p.block.status != "stale") || windows == [] then None
    else
      var binding, hold := Binding(windows), HoldOf(windows, now);
      Some(Recommendation(p.block.id, p.block.title, binding.headroom, binding.pace, binding.headroom, hold != Free,
                          HoldSeconds(hold)))
  }

  function AllRanked(providers: seq<Provider>, now: int, horizon: int): seq<Recommendation>
  {
    if providers == [] then []
    else
      var r := Ranked(providers[|providers| - 1], now, horizon);
      AllRanked(providers[..|providers| - 1], now, horizon) + if r.Some? then [r.value] else []
  }

  /** More headroom first, then the lower pace, then the id. */
  predicate Better(a: Recommendation, b: Recommendation)
  {
    if a.score != b.score then a.score > b.score
    else if a.pace != b.pace then a.pace < b.pace
    else StringLess(a.id, b.id)
  }

  /** The first usable recommendation, or none. */
  function FirstUsable(list: seq<Recommendation>): Option<Recommendation>
  {
    if list == [] then None
    else if !list[0].blocked && list[0].headroom > 0 then Some(list[0])
    else FirstUsable(list[1..])
  }

  predicate Waiting(r: Recommendation)
  {
    r.blocked && r.headroom > 0 && r.blockedForSec > 0
  }

  /** The blocked recommendation that frees soonest, the first of several. */
  function SoonestFree(list: seq<Recommendation>): Option<Recommendation>
  {
    if list == [] then None
    else
      var before, last := SoonestFree(list[..|list| - 1]), list[|list| - 1];
      if Waiting(last) && (before.None? || last.blockedForSec < before.value.blockedForSec) then Some(last) else before
  }

  function Winner(list: seq<Recommendation>): Option<Recommendation>
  {
    if FirstUsable(list).Some? then FirstUsable(list) else SoonestFree(list)
  }

  function WinnerId(w: Option<Recommendation>): Option<string>
  {
    if w.Some? then Some(w.value.id) else None
  }

  function Rank(providers: seq<Provider>, now: int, horizon: int): Verdict
  {
    var list := Sort(Better, AllRanked(providers, now, horizon));
    Verdict(WinnerId(Winner(list)), list)
  }

  method PickWinner(list: seq<Recommendation>) returns (winner: Option<Recommendation>)
    ensures winner == Winner(list)
  {
    for i := 0 to |list|
      invariant FirstUsable(list[i..]) == FirstUsable(list)
    {
      assert list[i..][1..] == list[i + 1..];
      if !list[i].blocked && list[i].headroom > 0 {
        return Some(list[i]);
      }
    }
    winner := None;
    for i := 0 to |list|
      invariant winner == SoonestFree(list[..i])
    {
      assert list[..i + 1][..i] == list[..i];
      if list[i].blocked && list[i].headroom > 0 && list[i].blockedForSec > 0 {
        if winner.None? || list[i].blockedForSec < winner.value.blockedForSec {
          winner := Some(list[i]);
        }
      }
    }
    assert list[..|list|] == list;
  }

  method RankProviders(providers: seq<Provider>, now: int, horizon: int) returns (verdict: Verdict)
    ensures verdict == Rank(providers, now, horizon)
  {
    var all: seq<Recommendation> := [];
    for i := 0 to |providers|
      invariant all == AllRanked(providers[..i], now, horizon)
    {
      assert providers[..i + 1][..i] == providers[..i];
      var p := providers[i];
      hide Windows, Binding, HoldOf;
      if p.block.kind != "plan" {
        continue;
      }
      if p.block.status != "ok" && p.block.status != "stale" {
        continue;
      }
      var windows := ComputeWindows(p.rows, now, horizon);
      WindowsHaveKeys(p.rows, now, horizon);
      if windows == [] {
        continue;
      }
      var binding := Aggregate(windows);
      var blocked, _, seconds := ComputeBlocked(windows, now);
      all := all + [Recommendation(p.block.id, p.block.title, binding.headroom, binding.pace, binding.headroom, blocked,
                                   seconds)];
    }
    assert providers[..|providers|] == providers;
    var list := Sort(Better, all);
    var winner := PickWinner(list);
    verdict := Verdict(WinnerId(winner), list);
  }
}
