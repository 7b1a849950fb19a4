/** What a ranked plan says, told from its rows: the windows that take part, exact headroom and pace, and the order. */
module AdviseMeaning {
  import opened Bytes
  import opened SchedPoll
  import opened Sorting
  import opened Advise
  import opened AdviseRank

  // --- which rows take part ---

  /** The window a row is read as. */
  lemma WindowMeaning(r: Row, now: int, horizon: int)
    ensures var w := Window(r, now, horizon);
            && (w.Some? <==> (r.key == "5h" || r.key == "7d" || r.key == "30d") && r.pct.Some? && r.resetAt.Some?)
            && (w.Some? ==>
                  var untilReset := r.resetAt.value * 1_000_000_000 - now;
                  && w.value.key == r.key && w.value.pct == r.pct.value && w.value.resetAt == r.resetAt.value
                  && w.value.length == HOUR * (if r.key == "5h" then 5 else if r.key == "7d" then 168 else 720)
                  && (w.value.stale <==> untilReset <= 0)
                  && (w.value.blocked <==> r.pct.value == 100)
                  && (untilReset <= 0 || untilReset <= horizon ==> w.value.pace == 1.0)
                  && (untilReset > 0 && untilReset > horizon ==>
                        w.value.pace == Pace(r.pct.value, w.value.length, untilReset))
                  && w.value.headroom == Headroom(r.pct.value, untilReset, horizon))
  {
    hide Headroom, Pace;
  }

  /** Rows are read in their order. */
  lemma {:induction false} WindowsAppend(a: seq<Row>, b: seq<Row>, now: int, horizon: int)
    ensures Windows(a + b, now, horizon) == Windows(a, now, horizon) + Windows(b, now, horizon)
  {
    hide Window;
    if b == [] {
      assert a + b == a;
    } else {
      WindowsAppend(a, b[..|b| - 1], now, horizon);
      assert (a + b)[..|a + b| - 1] == a + b[..|b| - 1];
    }
  }

  /** And each on its own. */
  lemma WindowsOfOne(r: Row, now: int, horizon: int)
    ensures Windows([r], now, horizon)
            == if Window(r, now, horizon).Some? then [Window(r, now, horizon).value] else []
  {
    hide Window;
    assert [r][..0] == [] && Windows([], now, horizon) == [];
  }

  // --- headroom ---

  /** n, doubled, lies between l and u, the bound nearer to zero being included. */
  predicate Within(l: int, u: int, n: int)
  {
    if n >= 0 then l <= 2 * n < u else l < 2 * n <= u
  }

  /** The nearest integer to n / h, halves away from zero, for a positive h. */
  predicate Nearest(r: int, n: int, h: int)
  {
    Within((2 * r - 1) * h, (2 * r + 1) * h, n)
  }

  lemma StrictProduct(a: real, b: real)
    requires a > 0.0 && b > 0.0
    ensures a * b > 0.0
  {
  }

  lemma Divided(n: int, h: int)
    requires h > 0
    ensures (n as real / h as real) * h as real == n as real
    ensures n >= 0 <==> n as real / h as real >= 0.0
  {
    var q := n as real / h as real;
    assert q * h as real == n as real;
    if q >= 0.0 {
      MulMonotone(q, 0.0, h as real);
    } else {
      MulMonotone(-q, 0.0, h as real);
      if n >= 0 {
        StrictProduct(-q, h as real);
      }
    }
  }

  predicate WithinReal(l: real, u: real, m: real, up: bool)
  {
    if up then l <= 2.0 * m < u else l < 2.0 * m <= u
  }

  lemma Associates(x: real, y: real, z: real)
    ensures x * y * z == x * (y * z)
  {
  }

  lemma ScaleOrder(c: real, a: real, b: real)
    requires c > 0.0
    ensures a <= b <==> a * c <= b * c
    ensures a < b <==> a * c < b * c
  {
    assert (b - a) * c == b * c - a * c;
    assert (a - b) * c == a * c - b * c;
    if a < b {
      StrictProduct(b - a, c);
    } else if b < a {
      StrictProduct(a - b, c);
    }
  }

  lemma Stretched(lo: real, hi: real, x: real, c: real)
    requires c > 0.0 && WithinReal(lo, hi, x, x >= 0.0)
    ensures WithinReal(lo * c, hi * c, x * c, x >= 0.0)
  {
    var l, m, u := lo * c, x * c, hi * c;
    Associates(2.0, x, c);
    ScaleOrder(c, lo, 2.0 * x);
    ScaleOrder(c, 2.0 * x, hi);
    assert 2.0 * m == 2.0 * x * c;
  }

  lemma RoundAround(x: real)
    ensures WithinReal((2 * Round(x) - 1) as real, (2 * Round(x) + 1) as real, x, x >= 0.0)
  {
  }

  lemma Between(x: real, lo: int, hi: int, h: int)
    requires h > 0 && lo == 2 * Round(x) - 1 && hi == 2 * Round(x) + 1
    ensures WithinReal(lo as real * h as real, hi as real * h as real, x * h as real, x >= 0.0)
  {
    RoundAround(x);
    hide Round, WithinReal;
    Stretched(lo as real, hi as real, x, h as real);
  }

  lemma RealProduct(a: int, b: int)
    ensures (a * b) as real == a as real * b as real
  {
  }

  lemma PartProduct(pct: int, untilReset: int, horizon: int)
    requires horizon > 0
    ensures Part(pct, untilReset, horizon) * horizon as real == pct as real * untilReset as real
  {
    Divided(untilReset, horizon);
    Associates(pct as real, untilReset as real / horizon as real, horizon as real);
  }

  lemma SignOf(x: real, n: int, h: int)
    requires h > 0 && x * h as real == n as real
    ensures x >= 0.0 <==> n >= 0
  {
    if x >= 0.0 {
      MulMonotone(x, 0.0, h as real);
    } else {
      StrictProduct(-x, h as real);
    }
  }

  lemma FromReals(lr: real, ur: real, m: real, l: int, u: int, n: int, up: bool)
    requires WithinReal(lr, ur, m, up) && lr == l as real && ur == u as real && m == n as real && (up <==> n >= 0)
    ensures Within(l, u, n)
  {
  }

  lemma NearestFrom(x: real, n: int, lo: int, hi: int, h: int)
    requires h > 0 && x * h as real == n as real && (x >= 0.0 <==> n >= 0)
    requires lo == 2 * Round(x) - 1 && hi == 2 * Round(x) + 1
    ensures Within(lo * h, hi * h, n)
  {
    hide Round, Within, WithinReal;
    Between(x, lo, hi, h);
    RealProduct(lo, h);
    RealProduct(hi, h);
    FromReals(lo as real * h as real, hi as real * h as real, x * h as real, lo * h, hi * h, n, x >= 0.0);
  }

  /** What is left in a window, by the reset it is waiting for: all that is not used, and inside the horizon also that
      part of the use, to the nearest integer, whose share of the horizon is not waited for. */
  lemma HeadroomMeaning(pct: int, untilReset: int, horizon: int)
    ensures !(0 < untilReset <= horizon) ==> Headroom(pct, untilReset, horizon) == 100 - pct
    ensures 0 < untilReset <= horizon ==>
              Nearest(Headroom(pct, untilReset, horizon), 100 * horizon - pct * untilReset, horizon)
  {
    if 0 < untilReset <= horizon {
      var r, n := Headroom(pct, untilReset, horizon), 100 * horizon - pct * untilReset;
      var x := 100.0 - Part(pct, untilReset, horizon);
      CreditedIs(pct, untilReset, horizon);
      PartProduct(pct, untilReset, horizon);
      hide Part, Headroom, Credited, Round;
      assert x * horizon as real == 100.0 * horizon as real - Part(pct, untilReset, horizon) * horizon as real;
      RealProduct(pct, untilReset);
      assert x * horizon as real == n as real;
      SignOf(x, n, horizon);
      NearestFrom(x, n, 2 * r - 1, 2 * r + 1, horizon);
    }
  }

  // --- pace ---

  /** A fraction against a number, without dividing. */
  lemma FractionAgainst(n: int, h: int, c: real)
    requires h > 0
    ensures n as real / h as real < c <==> n as real < c * h as real
    ensures n as real / h as real > c <==> n as real > c * h as real
  {
    var q, hr := n as real / h as real, h as real;
    Divided(n, h);
    assert (c - q) * hr == c * hr - q * hr;
    if q < c {
      StrictProduct(c - q, hr);
    } else if q > c {
      StrictProduct(q - c, hr);
      assert (q - c) * hr == -((c - q) * hr);
    }
  }

  lemma ElapsedIs(length: int, untilReset: int)
    requires length > 0
    ensures var done := length - untilReset;
            && (100 * done < length ==> Elapsed(length, untilReset) == 0.01)
            && (done > length ==> Elapsed(length, untilReset) == 1.0)
            && (length <= 100 * done && done <= length ==>
                  Elapsed(length, untilReset) * length as real == done as real && Elapsed(length, untilReset) > 0.0)
            && (10 * done < length && done <= length && length <= 100 * done ==> Elapsed(length, untilReset) < 0.1)
            && (10 * done >= length ==> Elapsed(length, untilReset) >= 0.1)
  {
    var done := length - untilReset;
    FractionAgainst(done, length, 0.01);
    FractionAgainst(done, length, 1.0);
    FractionAgainst(done, length, 0.1);
    Divided(done, length);
  }

  lemma RawIs(pct: int, length: int, done: int, e: real)
    requires length > 0 && done > 0 && e > 0.0 && e * length as real == done as real
    ensures var raw := RawPace(pct, e);
            && (pct * length > 9990 * done ==> raw == PACE_CAP)
            && (pct * length <= 9990 * done ==>
                  raw * e == pct as real / 100.0 && 100.0 * (raw * done as real) == (pct * length) as real)
  {
    var x, dr, lr := pct as real / 100.0 / e, done as real, length as real;
    assert x * e == pct as real / 100.0;
    Associates(x, e, lr);
    assert x * dr == pct as real / 100.0 * lr;
    RealProduct(pct, length);
    assert 100.0 * (x * dr) == (pct * length) as real;
    if pct * length > 9990 * done {
      if x <= PACE_CAP {
        MulMonotone(dr, x, PACE_CAP);
        Commutes(dr, x);
      }
    } else if x > PACE_CAP {
      StrictProduct(dr, x - PACE_CAP);
      assert dr * (x - PACE_CAP) == dr * x - dr * PACE_CAP;
      Commutes(dr, x);
    }
  }

  /** The pace of a window of which that much is done: the used share over the elapsed share, at most 99.9; less than
      a tenth of the window counts as much less as it is less than a tenth, down to a hundredth. */
  predicate PaceFits(pace: real, pct: int, length: int, done: int)
  {
    var capped := pct * length > 9990 * done;
    if 100 * done < length then pace == 1.0 + (if pct < 100 then pct as real - 1.0 else 98.9) / 10.0
    else if 10 * done < length then
      (pace - 1.0) * length as real
      == if capped then 989.0 * done as real else (pct * length) as real / 10.0 - 10.0 * done as real
    else if done <= length then
      if capped then pace == 99.9 else 100.0 * (pace * done as real) == (pct * length) as real
    else pace == if pct > 9990 then 99.9 else pct as real / 100.0
  }

  lemma YoungPace(pct: int, length: int, untilReset: int)
    requires length > 0 && 100 * (length - untilReset) < length
    ensures PaceFits(Pace(pct, length, untilReset), pct, length, length - untilReset)
  {
    ElapsedIs(length, untilReset);
    hide Elapsed;
  }

  lemma WholePace(pct: int, length: int, untilReset: int)
    requires length > 0 && length - untilReset > length
    ensures PaceFits(Pace(pct, length, untilReset), pct, length, length - untilReset)
  {
    ElapsedIs(length, untilReset);
    hide Elapsed;
  }

  lemma FullPace(pct: int, length: int, untilReset: int)
    requires 0 < length <= 10 * (length - untilReset) && length - untilReset <= length
    ensures PaceFits(Pace(pct, length, untilReset), pct, length, length - untilReset)
  {
    var done, e := length - untilReset, Elapsed(length, untilReset);
    ElapsedIs(length, untilReset);
    PaceIs(pct, length, untilReset);
    RawIs(pct, length, done, e);
    ConfidenceBounds(e);
    ScaleEnds(RawPace(pct, e) - 1.0);
    hide Scale, Min, Elapsed, Pace, RawPace;
    assert Pace(pct, length, untilReset) == RawPace(pct, e);
  }

  lemma GrowingProduct(raw: real, pct: int, length: int, done: int, e: real)
    requires 0.0 < e < 0.1 && e * length as real == done as real
    requires raw == PACE_CAP || raw * e == pct as real / 100.0
    ensures var lhs := Scale(raw - 1.0, Min(1.0, e / PACE_CONFIDENCE_FLOOR)) * length as real;
            && (raw == PACE_CAP ==> lhs == 989.0 * done as real)
            && (raw * e == pct as real / 100.0 ==> lhs == (pct * length) as real / 10.0 - 10.0 * done as real)
  {
    var lr := length as real;
    assert Min(1.0, e / PACE_CONFIDENCE_FLOOR) == 10.0 * e;
    assert Scale(raw - 1.0, 10.0 * e) == 10.0 * ((raw - 1.0) * e);
    assert (raw - 1.0) * e == raw * e - e;
    RealProduct(pct, length);
    Associates(raw, e, lr);
    assert (raw * e - e) * lr == raw * e * lr - e * lr;
    assert 10.0 * (raw * e - e) * lr == 10.0 * ((raw * e - e) * lr);
    if raw * e == pct as real / 100.0 {
      assert raw * e * lr == pct as real / 100.0 * lr;
    }
  }

  lemma GrowingPace(raw: real, pct: int, length: int, done: int, e: real)
    requires 0.0 < e < 0.1 && e * length as real == done as real && length <= 100 * done && 10 * done < length
    requires if pct * length > 9990 * done then raw == PACE_CAP else raw * e == pct as real / 100.0
    ensures PaceFits(1.0 + Scale(raw - 1.0, Min(1.0, e / PACE_CONFIDENCE_FLOOR)), pct, length, done)
  {
    GrowingProduct(raw, pct, length, done, e);
    var s := Scale(raw - 1.0, Min(1.0, e / PACE_CONFIDENCE_FLOOR));
    hide Scale, Min;
    assert 1.0 + s - 1.0 == s;
  }

  lemma TenthPace(pct: int, length: int, untilReset: int)
    requires 0 < length <= 100 * (length - untilReset) && 10 * (length - untilReset) < length
    ensures PaceFits(Pace(pct, length, untilReset), pct, length, length - untilReset)
  {
    var done, e := length - untilReset, Elapsed(length, untilReset);
    ElapsedIs(length, untilReset);
    PaceIs(pct, length, untilReset);
    RawIs(pct, length, done, e);
    hide Scale, Min, Elapsed, Pace, RawPace, PaceFits;
    GrowingPace(RawPace(pct, e), pct, length, done, e);
  }

  /** The pace of a window, exactly. */
  lemma PaceMeaning(pct: int, length: int, untilReset: int)
    requires length > 0
    ensures PaceFits(Pace(pct, length, untilReset), pct, length, length - untilReset)
  {
    hide Pace, PaceFits;
    var done := length - untilReset;
    if 100 * done < length {
      YoungPace(pct, length, untilReset);
    } else if 10 * done < length {
      TenthPace(pct, length, untilReset);
    } else if done <= length {
      FullPace(pct, length, untilReset);
    } else {
      WholePace(pct, length, untilReset);
    }
  }

  // --- what is said of a plan ---

  /** Whole seconds to the reset, cut towards zero. */
  lemma SecondsMeaning(w: WindowResult, now: int)
    ensures var left, s := w.resetAt * 1_000_000_000 - now, SecondsLeft(w, now);
            if left >= 0 then s * 1_000_000_000 <= left < (s + 1) * 1_000_000_000
            else (s - 1) * 1_000_000_000 < left <= s * 1_000_000_000
  {
  }

  /** The window that binds: least headroom, then the longest. */
  predicate Tightest(windows: seq<WindowResult>, b: WindowResult)
  {
    && b in windows
    && forall w :: w in windows ==> b.headroom < w.headroom || (b.headroom == w.headroom && b.length >= w.length)
  }

  /** Exactly the plans that report and have a window are ranked, by the headroom and with the pace of the window that
      binds; they are blocked exactly when some window is used up, and the time given is that of the used-up window
      resetting first, or 0 when the first of these should have reset already. */
  lemma RankedMeaning(p: Provider, now: int, horizon: int)
    ensures var r, windows := Ranked(p, now, horizon), Windows(p.rows, now, horizon);
            && (r.Some? <==>
                  p.block.kind == "plan" && (p.block.status == "ok" || p.block.status == "stale") && windows != [])
            && (r.Some? ==>
                  && r.value.id == p.block.id && r.value.title == p.block.title
                  && r.value.score == r.value.headroom
                  && (exists b :: Tightest(windows, b) && r.value.headroom == b.headroom && r.value.pace == b.pace)
                  && (r.value.blocked <==> exists w :: w in windows && w.pct == 100)
                  && (!r.value.blocked || PastFirst(windows, now) ==> r.value.blockedForSec == 0)
                  && (r.value.blocked && !PastFirst(windows, now) ==>
                        exists key :: Soonest(windows, now, key, r.value.blockedForSec)))
  {
    var windows := Windows(p.rows, now, horizon);
    hide PastFirst, Soonest, Windows, Binding, HoldOf;
    HoldMeaning(windows, now);
    if windows != [] {
      BindingIsTightest(windows);
      assert Tightest(windows, Binding(windows));
    }
    assert AnyExhausted(windows) <==> exists w :: w in windows && w.pct == 100;
  }

  /** The ranking: more headroom first, of equal headroom the lower pace, and of equal pace the ids in alphabetical
      order. */
  lemma RankingOrder(providers: seq<Provider>, now: int, horizon: int, i: nat, j: nat)
    requires i < j < |Rank(providers, now, horizon).recommendations|
    ensures var list := Rank(providers, now, horizon).recommendations;
            var a, b := list[i], list[j];
            && a.score >= b.score
            && (a.score == b.score ==> a.pace <= b.pace)
            && (a.score == b.score && a.pace == b.pace ==> a.id == b.id || Alphabetical(a.id, b.id))
  {
    hide AllRanked, Sort, StringLess, Alphabetical;
    var list := Rank(providers, now, horizon).recommendations;
    BetterIsWeakOrder();
    SortSorts(Better, AllRanked(providers, now, horizon));
    var a, b := list[i], list[j];
    assert !Better(b, a);
    if a.score == b.score && a.pace == b.pace && a.id != b.id {
      StringTotal(a.id, b.id);
      LessIsAlphabetical(a.id, b.id);
    }
  }

  // --- the winner ---

  predicate UsableNow(r: Recommendation)
  {
    !r.blocked && r.headroom > 0
  }

  predicate UsableLater(r: Recommendation)
  {
    r.blocked && r.headroom > 0 && r.blockedForSec > 0
  }

  /** The first of the list that can be used now. */
  predicate FirstNow(list: seq<Recommendation>, k: nat)
  {
    k < |list| && UsableNow(list[k]) && forall j :: 0 <= j < k ==> !UsableNow(list[j])
  }

  /** The first of those that can be used soonest. */
  predicate FirstLater(list: seq<Recommendation>, k: nat)
  {
    && k < |list| && UsableLater(list[k])
    && (forall j :: 0 <= j < |list| && UsableLater(list[j]) ==> list[k].blockedForSec <= list[j].blockedForSec)
    && (forall j :: 0 <= j < k && UsableLater(list[j]) ==> list[k].blockedForSec < list[j].blockedForSec)
  }

  lemma {:induction false} FirstUsableAt(list: seq<Recommendation>)
    ensures FirstUsable(list).None? ==> forall j :: 0 <= j < |list| ==> !UsableNow(list[j])
    ensures FirstUsable(list).Some? ==> exists k: nat :: FirstNow(list, k) && list[k] == FirstUsable(list).value
  {
    if list != [] {
      if UsableNow(list[0]) {
        assert FirstNow(list, 0);
      } else {
        FirstUsableAt(list[1..]);
        if FirstUsable(list).Some? {
          var k: nat :| FirstNow(list[1..], k) && list[1..][k] == FirstUsable(list).value;
          assert FirstNow(list, k + 1);
        }
      }
    }
  }

  lemma {:induction false} SoonestFreeAt(list: seq<Recommendation>)
    ensures SoonestFree(list).None? ==> forall j :: 0 <= j < |list| ==> !UsableLater(list[j])
    ensures SoonestFree(list).Some? ==> exists k: nat :: FirstLater(list, k) && list[k] == SoonestFree(list).value
  {
    if list != [] {
      var front, n := list[..|list| - 1], |list| - 1;
      SoonestFreeAt(front);
      if SoonestFree(list) == SoonestFree(front) {
        if SoonestFree(list).Some? {
          var k: nat :| FirstLater(front, k) && front[k] == SoonestFree(list).value;
          assert FirstLater(list, k);
        }
      } else {
        assert FirstLater(list, n);
      }
    }
  }

  /** The winner: the first ranked plan that can be used now; when there is none, the first of those that can be used
      soonest; and nobody exactly when there is no such plan either. */
  lemma WinnerMeaning(providers: seq<Provider>, now: int, horizon: int)
    ensures var list, winner := Rank(providers, now, horizon).recommendations, Rank(providers, now, horizon).winner;
            if exists k: nat :: FirstNow(list, k) then exists k: nat :: FirstNow(list, k) && winner == Some(list[k].id)
            else if exists k: nat :: FirstLater(list, k) then
              exists k: nat :: FirstLater(list, k) && winner == Some(list[k].id)
            else winner == None && forall j :: 0 <= j < |list| ==> !UsableNow(list[j]) && !UsableLater(list[j])
  {
    hide Sort, AllRanked, FirstUsable, SoonestFree;
    var list := Rank(providers, now, horizon).recommendations;
    FirstUsableAt(list);
    SoonestFreeAt(list);
  }
}
