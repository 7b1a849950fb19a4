/** What ranking promises: the same verdict for every input order, a winner that is the best choice, sane headroom. */
module AdviseRank {
  import opened Bytes
  import opened SchedPoll
  import opened Sorting
  import opened Advise

  predicate DistinctIds(providers: seq<Provider>)
  {
    forall i, j :: 0 <= i < j < |providers| ==> providers[i].block.id != providers[j].block.id
  }

  // --- the same verdict for every order ---

  lemma {:induction false} RankedAppend(a: seq<Provider>, b: seq<Provider>, now: int, horizon: int)
    ensures AllRanked(a + b, now, horizon) == AllRanked(a, now, horizon) + AllRanked(b, now, horizon)
  {
    hide Ranked;
    if b == [] {
      assert a + b == a;
    } else {
      var front, last := b[..|b| - 1], b[|b| - 1];
      RankedAppend(a, front, now, horizon);
      assert (a + b)[..|a + b| - 1] == a + front;
    }
  }

  /** A list without its element at j. */
  function Rest(q: seq<Provider>, j: nat): seq<Provider>
    requires j < |q|
  {
    q[..j] + q[j + 1..]
  }

  lemma RestElements(q: seq<Provider>, j: nat)
    requires j < |q|
    ensures multiset(q) == multiset(Rest(q, j)) + multiset{q[j]}
    ensures multiset(Rest(q, j)) == multiset(q) - multiset{q[j]}
  {
    assert q == q[..j] + [q[j]] + q[j + 1..];
  }

  lemma RankedRest(q: seq<Provider>, j: nat, now: int, horizon: int)
    requires j < |q|
    ensures multiset(AllRanked(q, now, horizon))
            == multiset(AllRanked(Rest(q, j), now, horizon)) + multiset(AllRanked([q[j]], now, horizon))
  {
    hide AllRanked;
    assert q == q[..j] + ([q[j]] + q[j + 1..]);
    RankedAppend(q[..j], [q[j]] + q[j + 1..], now, horizon);
    RankedAppend([q[j]], q[j + 1..], now, horizon);
    RankedAppend(q[..j], q[j + 1..], now, horizon);
  }

  lemma RestLength(q: seq<Provider>, j: nat)
    requires j < |q|
    ensures |Rest(q, j)| == |q| - 1
  {
  }

  lemma {:induction false} RankedPermutes(p: seq<Provider>, q: seq<Provider>, now: int, horizon: int)
    requires multiset(p) == multiset(q)
    ensures multiset(AllRanked(p, now, horizon)) == multiset(AllRanked(q, now, horizon))
    decreases |p|
  {
    hide AllRanked, Rest;
    SameLength(p, q);
    if p != [] {
      assert p[0] in multiset(q);
      var j :| 0 <= j < |q| && q[j] == p[0];
      RestElements(p, 0);
      RestElements(q, j);
      RestLength(p, 0);
      RankedPermutes(Rest(p, 0), Rest(q, j), now, horizon);
      RankedRest(p, 0, now, horizon);
      RankedRest(q, j, now, horizon);
    }
  }

  lemma {:induction false} RankedFrom(providers: seq<Provider>, now: int, horizon: int, r: Recommendation)
    requires r in AllRanked(providers, now, horizon)
    ensures exists p :: p in providers && Ranked(p, now, horizon) == Some(r)
  {
    hide Ranked;
    var front, last := providers[..|providers| - 1], providers[|providers| - 1];
    assert providers == front + [last];
    if Ranked(last, now, horizon) != Some(r) {
      RankedFrom(front, now, horizon, r);
    }
  }

  lemma RankedKeepsId(p: Provider, now: int, horizon: int)
    ensures Ranked(p, now, horizon).Some? ==> Ranked(p, now, horizon).value.id == p.block.id
  {
  }

  lemma BetterIsWeakOrder()
    ensures WeakOrder(Better)
  {
    forall a: Recommendation, b: Recommendation, c: Recommendation
      ensures Better(a, b) ==> !Better(b, a)
      ensures Better(a, c) ==> Better(a, b) || Better(b, c)
    {
      StringOrder(a.id, b.id, c.id);
    }
  }

  lemma RankedComparable(providers: seq<Provider>, now: int, horizon: int)
    requires DistinctIds(providers)
    ensures Comparable(Better, AllRanked(providers, now, horizon))
  {
    hide Ranked, AllRanked;
    var list := AllRanked(providers, now, horizon);
    forall i, j | 0 <= i < |list| && 0 <= j < |list| && list[i] != list[j]
      ensures Better(list[i], list[j]) || Better(list[j], list[i])
    {
      RankedFrom(providers, now, horizon, list[i]);
      RankedFrom(providers, now, horizon, list[j]);
      var p :| p in providers && Ranked(p, now, horizon) == Some(list[i]);
      var q :| q in providers && Ranked(q, now, horizon) == Some(list[j]);
      RankedKeepsId(p, now, horizon);
      RankedKeepsId(q, now, horizon);
      assert p.block.id != q.block.id;
      StringTotal(list[i].id, list[j].id);
    }
  }

  /** The verdict does not depend on the order the providers come in. */
  lemma RankIsCanonical(p: seq<Provider>, q: seq<Provider>, now: int, horizon: int)
    requires multiset(p) == multiset(q) && DistinctIds(p)
    ensures Rank(p, now, horizon) == Rank(q, now, horizon)
  {
    hide Better, AllRanked, Sort, Winner;
    BetterIsWeakOrder();
    RankedPermutes(p, q, now, horizon);
    RankedComparable(p, now, horizon);
    SortCanonical(Better, AllRanked(p, now, horizon), AllRanked(q, now, horizon));
  }

  // --- the winner ---

  predicate Usable(r: Recommendation)
  {
    !r.blocked && r.headroom > 0
  }

  lemma OrderedTail(list: seq<Recommendation>)
    requires Ordered(Better, list) && list != []
    ensures Ordered(Better, list[1..]) && forall r :: r in list ==> r == list[0] || !Better(r, list[0])
  {
    hide Better;
    assert forall i :: 0 <= i < |list[1..]| ==> list[1..][i] == list[i + 1];
  }

  lemma {:induction false} FirstUsableIsBest(list: seq<Recommendation>)
    requires Ordered(Better, list)
    ensures FirstUsable(list).Some? <==> exists r :: r in list && Usable(r)
    ensures FirstUsable(list).Some? ==>
              var w := FirstUsable(list).value;
              w in list && Usable(w) && forall r :: r in list && Usable(r) ==> r == w || !Better(r, w)
  {
    hide Better;
    if list != [] {
      OrderedTail(list);
      FirstUsableIsBest(list[1..]);
      assert list == [list[0]] + list[1..];
      if Usable(list[0]) {
        assert list[0] in list;
      } else {
        assert forall r :: r in list && Usable(r) ==> r in list[1..];
      }
    }
  }

  lemma {:induction false} SoonestFreeIsSoonest(list: seq<Recommendation>)
    ensures SoonestFree(list).Some? <==> exists r :: r in list && Waiting(r)
    ensures SoonestFree(list).Some? ==>
              var w := SoonestFree(list).value;
              w in list && Waiting(w) && forall r :: r in list && Waiting(r) ==> w.blockedForSec <= r.blockedForSec
  {
    if list != [] {
      var front, last := list[..|list| - 1], list[|list| - 1];
      SoonestFreeIsSoonest(front);
      assert list == front + [last];
      assert last in list && forall r :: r in front ==> r in list;
    }
  }

  /** The winner: the best usable plan; if none is usable, the blocked plan with headroom that frees soonest; nobody
      exactly when there is neither. Every plan that can be ranked is listed, best first. */
  lemma WinnerIsBest(providers: seq<Provider>, now: int, horizon: int)
    ensures var list, w := Rank(providers, now, horizon).recommendations,
            Winner(Rank(providers, now, horizon).recommendations);
            && Rank(providers, now, horizon).winner == WinnerId(w)
            && Ordered(Better, list) && multiset(list) == multiset(AllRanked(providers, now, horizon))
            && (w.Some? ==> w.value in list)
            && (if exists r :: r in list && Usable(r) then
                  w.Some? && Usable(w.value)
                  && forall r :: r in list && Usable(r) ==> r == w.value || !Better(r, w.value)
                else if exists r :: r in list && Waiting(r) then
                  w.Some? && Waiting(w.value)
                  && forall r :: r in list && Waiting(r) ==> w.value.blockedForSec <= r.blockedForSec
                else w == None)
  {
    hide Better, AllRanked, Sort;
    BetterIsWeakOrder();
    SortSorts(Better, AllRanked(providers, now, horizon));
    var list := Rank(providers, now, horizon).recommendations;
    FirstUsableIsBest(list);
    SoonestFreeIsSoonest(list);
  }

  // --- headroom ---

  lemma RoundMonotone(x: real, y: real)
    requires x <= y
    ensures Round(x) <= Round(y)
  {
  }

  lemma MulMonotone(a: real, x: real, y: real)
    requires a >= 0.0 && x <= y
    ensures a * x <= a * y
  {
  }

  lemma ShareMonotone(u: int, v: int, h: int)
    requires u <= v && h > 0
    ensures u as real / h as real <= v as real / h as real
  {
    MulMonotone(1.0 / h as real, u as real, v as real);
    assert u as real / h as real == (1.0 / h as real) * u as real;
    assert v as real / h as real == (1.0 / h as real) * v as real;
  }

  lemma WholeShare(x: real)
    requires x != 0.0
    ensures x / x == 1.0 && 0.0 / x == 0.0
  {
  }

  /** The part of the use that counts while waiting for the reset. */
  function Part(pct: int, untilReset: int, horizon: int): real
    requires horizon > 0
  {
    pct as real * (untilReset as real / horizon as real)
  }

  lemma Expand(p: real, f: real)
    ensures (100.0 - p) * f + 100.0 * (1.0 - f) == 100.0 - p * f
  {
  }

  lemma CreditedIs(pct: int, untilReset: int, horizon: int)
    requires horizon > 0
    ensures Credited(pct, untilReset, horizon) == Round(100.0 - Part(pct, untilReset, horizon))
  {
    Expand(pct as real, untilReset as real / horizon as real);
    assert (100 - pct) as real == 100.0 - pct as real;
  }

  lemma Commutes(x: real, y: real)
    ensures x * y == y * x
  {
  }

  lemma PartMonotone(p: int, q: int, u: int, v: int, h: int)
    requires 0 <= p <= q && 0 <= u <= v && h > 0
    ensures Part(p, u, h) <= Part(q, v, h)
  {
    var f, g := u as real / h as real, v as real / h as real;
    ShareMonotone(0, u, h);
    ShareMonotone(u, v, h);
    WholeShare(h as real);
    MulMonotone(p as real, f, g);
    MulMonotone(g, p as real, q as real);
    Commutes(g, p as real);
    Commutes(g, q as real);
  }

  lemma PartEnds(p: int, h: int)
    requires h > 0
    ensures Part(p, h, h) == p as real && Part(0, h, h) == 0.0
  {
    WholeShare(h as real);
  }

  lemma PartOfNothing(u: int, h: int)
    requires h > 0
    ensures Part(0, u, h) == 0.0
  {
  }

  lemma RoundWhole(n: int)
    ensures Round(100.0 - n as real) == 100 - n
  {
    assert 100.0 - n as real == (100 - n) as real;
  }

  /** With a percentage from 0 to 100, headroom is one too, and never less than what is plainly left. */
  lemma HeadroomBounds(pct: int, untilReset: int, horizon: int)
    requires 0 <= pct <= 100
    ensures 0 <= 100 - pct <= Headroom(pct, untilReset, horizon) <= 100
  {
    hide Part, Credited, Round;
    if 0 < untilReset <= horizon {
      CreditedIs(pct, untilReset, horizon);
      PartMonotone(0, pct, untilReset, untilReset, horizon);
      PartOfNothing(untilReset, horizon);
      PartMonotone(pct, pct, untilReset, horizon, horizon);
      PartEnds(pct, horizon);
      RoundMonotone(100.0 - pct as real, 100.0 - Part(pct, untilReset, horizon));
      RoundMonotone(100.0 - Part(pct, untilReset, horizon), 100.0 - 0 as real);
      RoundWhole(pct);
      RoundWhole(0);
    }
  }

  /** Inside the horizon: more use or a later reset never raises the headroom; a reset at the very horizon credits
      nothing. */
  lemma HeadroomMonotone(p: int, q: int, u: int, v: int, horizon: int)
    requires 0 <= p <= q && 0 < u <= v <= horizon
    ensures Headroom(q, u, horizon) <= Headroom(p, u, horizon)
    ensures Headroom(p, v, horizon) <= Headroom(p, u, horizon)
    ensures Headroom(p, horizon, horizon) == 100 - p
  {
    hide Part, Credited, Round;
    CreditedIs(p, u, horizon);
    CreditedIs(q, u, horizon);
    CreditedIs(p, v, horizon);
    CreditedIs(p, horizon, horizon);
    PartMonotone(p, q, u, u, horizon);
    PartMonotone(p, p, u, v, horizon);
    PartEnds(p, horizon);
    RoundMonotone(100.0 - Part(q, u, horizon), 100.0 - Part(p, u, horizon));
    RoundMonotone(100.0 - Part(p, v, horizon), 100.0 - Part(p, u, horizon));
    RoundWhole(p);
  }

  // --- pace ---

  function Scale(x: real, c: real): real
  {
    x * c
  }

  lemma PaceIs(pct: int, length: int, untilReset: int)
    requires length > 0
    ensures var e := Elapsed(length, untilReset);
            Pace(pct, length, untilReset) == 1.0 + Scale(RawPace(pct, e) - 1.0, Min(1.0, e / PACE_CONFIDENCE_FLOOR))
  {
    hide Elapsed, RawPace;
  }

  lemma ConfidenceBounds(e: real)
    requires e > 0.0
    ensures 0.0 <= Min(1.0, e / PACE_CONFIDENCE_FLOOR) <= 1.0
    ensures e >= PACE_CONFIDENCE_FLOOR ==> Min(1.0, e / PACE_CONFIDENCE_FLOOR) == 1.0
  {
  }

  lemma RawIsCapped(pct: int, e: real)
    requires e > 0.0
    ensures RawPace(pct, e) <= PACE_CAP
  {
  }

  lemma ScaleMonotone(x: real, a: real, b: real)
    requires x >= 0.0 && a <= b
    ensures Scale(x, a) <= Scale(x, b)
  {
    MulMonotone(x, a, b);
  }

  lemma ScaleEnds(x: real)
    ensures Scale(x, 0.0) == 0.0 && Scale(x, 1.0) == x
  {
  }

  lemma ScaleNegated(x: real, c: real)
    ensures Scale(x, c) == -Scale(-x, c)
  {
  }

  lemma Blend(x: real, c: real)
    requires 0.0 <= c <= 1.0
    ensures x >= 0.0 ==> 0.0 <= Scale(x, c) <= x
    ensures x <= 0.0 ==> x <= Scale(x, c) <= 0.0
    ensures c == 1.0 ==> Scale(x, c) == x
  {
    hide Scale;
    ScaleEnds(x);
    ScaleEnds(-x);
    if x >= 0.0 {
      ScaleMonotone(x, 0.0, c);
      ScaleMonotone(x, c, 1.0);
    } else {
      ScaleMonotone(-x, 0.0, c);
      ScaleMonotone(-x, c, 1.0);
      ScaleNegated(x, c);
    }
  }

  /** A pace lies between 1 and the raw pace, and is the raw pace once a tenth of the window has passed. */
  lemma PaceBetween(pct: int, length: int, untilReset: int)
    requires length > 0
    ensures var e := Elapsed(length, untilReset);
            var raw := RawPace(pct, e);
            && Min(1.0, raw) <= Pace(pct, length, untilReset) <= (if raw > 1.0 then raw else 1.0)
            && (e >= PACE_CONFIDENCE_FLOOR ==> Pace(pct, length, untilReset) == raw)
            && Pace(pct, length, untilReset) <= PACE_CAP
  {
    var e := Elapsed(length, untilReset);
    var raw := RawPace(pct, e);
    assert 0.0 < e;
    hide Elapsed, RawPace, Pace, Scale;
    PaceIs(pct, length, untilReset);
    ConfidenceBounds(e);
    Blend(raw - 1.0, Min(1.0, e / PACE_CONFIDENCE_FLOOR));
    RawIsCapped(pct, e);
  }
}
