/** What the streamed list holds after any scan: the strongest networks, each once, at its strongest. */
module PortalTopK {
  import opened Bytes
  import opened Portal
  import Sorting

  /** The list after a stream of scan results. */
  function ListAfter(offers: seq<Network>, cap: nat): (r: seq<Network>)
    ensures |r| <= cap
  {
    if offers == [] then [] else Insert(ListAfter(offers[..|offers| - 1], cap), cap, offers[|offers| - 1])
  }

  /** The strongest offer of a name, the first one where several are as strong. */
  function Best(offers: seq<Network>, ssid: seq<byte>): Option<Network>
  {
    if offers == [] then None
    else
      var before, last := Best(offers[..|offers| - 1], ssid), Entry(offers[|offers| - 1]);
      if last.ssid == ssid && (before.None? || before.value.rssi < last.rssi) then Some(last) else before
  }

  /** The names offered that are not hidden. */
  function Names(offers: seq<Network>): set<seq<byte>>
  {
    set n | n in offers && n.ssid != [] :: n.ssid
  }

  predicate Sorted(list: seq<Network>)
  {
    forall i, j :: 0 <= i < j < |list| ==> list[i].rssi >= list[j].rssi
  }

  predicate DistinctNames(list: seq<Network>)
  {
    forall i, j :: 0 <= i < j < |list| ==> list[i].ssid != list[j].ssid
  }

  predicate Listed(list: seq<Network>, ssid: seq<byte>)
  {
    exists e :: e in list && e.ssid == ssid
  }

  /** Every entry is the strongest offer of its name. */
  predicate Accurate(list: seq<Network>, offers: seq<Network>)
  {
    forall e :: e in list ==> e.ssid in Names(offers) && Best(offers, e.ssid) == Some(e)
  }

  /** A name is left out only from a full list, and only when no offer of it beats an entry. */
  predicate Complete(list: seq<Network>, cap: nat, offers: seq<Network>)
  {
    forall s :: s in Names(offers) && !Listed(list, s) ==>
      |list| == cap && (forall e :: e in list ==> Best(offers, s).Some? && Best(offers, s).value.rssi <= e.rssi)
  }

  predicate TopK(list: seq<Network>, cap: nat, offers: seq<Network>)
  {
    Sorted(list) && DistinctNames(list) && Accurate(list, offers) && Complete(list, cap, offers)
  }

  /** Names as a radio reports them: at most 32 bytes. */
  predicate RadioNames(offers: seq<Network>)
  {
    forall n :: n in offers ==> |n.ssid| <= MAX_SSID
  }

  // --- one more offer ---

  lemma BestOfSnoc(offers: seq<Network>, n: Network, ssid: seq<byte>)
    requires |n.ssid| <= MAX_SSID
    ensures Best(offers + [n], ssid)
            == if n.ssid == ssid && (Best(offers, ssid).None? || Best(offers, ssid).value.rssi < Clamp(n.rssi))
               then Some(Entry(n)) else Best(offers, ssid)
  {
    assert (offers + [n])[..|offers|] == offers;
  }

  lemma {:induction false} BestOfOffered(offers: seq<Network>, ssid: seq<byte>)
    requires RadioNames(offers)
    ensures ssid in Names(offers) ==> Best(offers, ssid).Some? && Best(offers, ssid).value.ssid == ssid
    ensures ssid !in Names(offers) && ssid != [] ==> Best(offers, ssid).None?
  {
    if offers != [] {
      var front, last := offers[..|offers| - 1], offers[|offers| - 1];
      assert offers == front + [last];
      BestOfOffered(front, ssid);
      BestOfSnoc(front, last, ssid);
    }
  }

  lemma NamesOfSnoc(offers: seq<Network>, n: Network)
    ensures Names(offers + [n]) == if n.ssid == [] then Names(offers) else Names(offers) + {n.ssid}
  {
  }

  lemma FindMeans(list: seq<Network>, ssid: seq<byte>)
    ensures Find(list, ssid) < |list| <==> Listed(list, ssid)
  {
    if e :| e in list && e.ssid == ssid {
      var i :| 0 <= i < |list| && list[i] == e;
    }
  }

  /** The list without the entry at i. */
  function Without(list: seq<Network>, i: nat): seq<Network>
    requires i < |list|
  {
    list[..i] + list[i + 1..]
  }

  lemma WithoutMembers(list: seq<Network>, i: nat)
    requires i < |list| && DistinctNames(list)
    ensures forall e :: e in Without(list, i) <==> e in list && e.ssid != list[i].ssid
  {
    forall e
      ensures e in Without(list, i) <==> e in list && e.ssid != list[i].ssid
    {
      if e in list && e.ssid != list[i].ssid {
        var j :| 0 <= j < |list| && list[j] == e;
        assert Without(list, i)[if j < i then j else j - 1] == e;
      }
      if e in Without(list, i) {
        var k :| 0 <= k < |Without(list, i)| && Without(list, i)[k] == e;
        assert list[if k < i then k else k + 1] == e;
      }
    }
  }

  lemma WithoutKeepsOrder(list: seq<Network>, i: nat)
    requires i < |list| && Sorted(list) && DistinctNames(list)
    ensures Sorted(Without(list, i)) && DistinctNames(Without(list, i))
  {
    assert forall k :: 0 <= k < |list| - 1 ==> Without(list, i)[k] == list[if k < i then k else k + 1];
  }

  predicate Stronger(a: Network, b: Network)
  {
    a.rssi > b.rssi
  }

  lemma StrongerIsWeakOrder()
    ensures Sorting.WeakOrder(Stronger)
  {
  }

  lemma RankedSnoc(front: seq<Network>, last: Network, pos: nat, e: Network)
    requires pos <= |front|
    ensures var list := front + [last]; list[..pos] + [e] + list[pos..] == (front[..pos] + [e] + front[pos..]) + [last]
  {
    var list := front + [last];
    assert list[..pos] == front[..pos] && list[pos..] == front[pos..] + [last];
  }

  /** On a sorted list, finding the place from the front is inserting from the back. */
  lemma {:induction false} RankedIsInsert(list: seq<Network>, e: Network)
    requires Sorted(list)
    ensures Ranked(list, e) == Sorting.Insert(Stronger, e, list)
  {
    hide Position;
    if list == [] {
    } else if list[|list| - 1].rssi >= e.rssi {
      PositionIs(list, e.rssi, |list|);
    } else {
      var front, last := list[..|list| - 1], list[|list| - 1];
      RankedIsInsert(front, e);
      var pos := Position(front, e.rssi);
      PositionIs(list, e.rssi, pos);
      RankedSnoc(front, last, pos, e);
    }
  }

  lemma {:induction false} InsertKeepsDistinct(list: seq<Network>, e: Network)
    requires DistinctNames(list) && !Listed(list, e.ssid)
    ensures DistinctNames(Sorting.Insert(Stronger, e, list))
  {
    assert forall j :: 0 <= j < |list| ==> list[j] in list;
    if list != [] && list[|list| - 1].rssi < e.rssi {
      var front, last := list[..|list| - 1], list[|list| - 1];
      InsertKeepsDistinct(front, e);
      Sorting.InsertMembers(Stronger, e, front);
      var r := Sorting.Insert(Stronger, e, front);
      forall j | 0 <= j < |r|
        ensures r[j].ssid != last.ssid
      {
        assert r[j] in r;
      }
    }
  }

  /** Ranking a new name: still in order and distinct, with one entry more. */
  lemma RankedKeepsOrder(list: seq<Network>, e: Network)
    requires Sorted(list) && DistinctNames(list) && !Listed(list, e.ssid)
    ensures Sorted(Ranked(list, e)) && DistinctNames(Ranked(list, e))
    ensures forall x :: x in Ranked(list, e) <==> x == e || x in list
  {
    hide Ranked, Listed;
    RankedIsInsert(list, e);
    InsertKeepsDistinct(list, e);
    StrongerIsWeakOrder();
    assert Sorting.Ordered(Stronger, list);
    Sorting.InsertOrdered(Stronger, e, list);
    Sorting.InsertMembers(Stronger, e, list);
  }

  /** Placing a new name while there is room. */
  lemma PlaceWithRoom(list: seq<Network>, cap: nat, e: Network)
    requires |list| < cap && Sorted(list) && DistinctNames(list) && !Listed(list, e.ssid)
    ensures var r := Place(list, cap, e);
            && Sorted(r) && DistinctNames(r) && |r| == |list| + 1 && (forall x :: x in r <==> x == e || x in list)
  {
    hide Ranked, Listed;
    RankedKeepsOrder(list, e);
  }

  /** The entry that falls off a full list is the last of the ranking. */
  function Dropped(list: seq<Network>, e: Network): Network
  {
    Ranked(list, e)[|list|]
  }

  lemma DropLastEntry(all: seq<Network>, cap: nat)
    requires |all| == cap + 1 && Sorted(all) && DistinctNames(all)
    ensures Sorted(all[..cap]) && DistinctNames(all[..cap])
    ensures forall x :: x in all[..cap] || x == all[cap] <==> x in all
    ensures forall x :: x in all[..cap] ==> x.rssi >= all[cap].rssi && x.ssid != all[cap].ssid
  {
    assert all == all[..cap] + [all[cap]];
  }

  lemma PlaceWhenFull(list: seq<Network>, cap: nat, e: Network)
    requires |list| == cap > 0 && Sorted(list) && DistinctNames(list) && !Listed(list, e.ssid)
    ensures var r, out := Place(list, cap, e), Dropped(list, e);
            && Sorted(r) && DistinctNames(r) && |r| == cap
            && (forall x :: x in r || x == out <==> x == e || x in list)
            && (forall x :: x in r ==> x.rssi >= out.rssi && x.ssid != out.ssid)
  {
    hide Ranked, Listed;
    RankedKeepsOrder(list, e);
    DropLastEntry(Ranked(list, e), cap);
  }

  lemma PlaceWeakest(list: seq<Network>, cap: nat, e: Network)
    requires |list| == cap && forall x :: x in list ==> x.rssi >= e.rssi
    ensures Place(list, cap, e) == list
  {
    hide Place, Position;
    assert forall j :: 0 <= j < |list| ==> list[j] in list;
    PositionIs(list, e.rssi, cap);
    NoPlace(list, cap, e);
  }

  // --- the four kinds of step ---

  lemma NamesNotEmpty(offers: seq<Network>, s: seq<byte>)
    requires s in Names(offers)
    ensures s != []
  {
  }

  lemma HiddenStep(list: seq<Network>, cap: nat, offers: seq<Network>, n: Network)
    requires TopK(list, cap, offers) && n.ssid == []
    ensures TopK(list, cap, offers + [n])
  {
    hide Names, Best, Sorted, DistinctNames, Listed;
    NamesOfSnoc(offers, n);
    forall s | s in Names(offers)
      ensures Best(offers + [n], s) == Best(offers, s)
    {
      NamesNotEmpty(offers, s);
      BestOfSnoc(offers, n, s);
    }
  }

  lemma FitsName(offers: seq<Network>, n: Network)
    requires RadioNames(offers + [n])
    ensures RadioNames(offers) && |n.ssid| <= MAX_SSID && Entry(n) == Network(n.ssid, Clamp(n.rssi), n.secure)
  {
    assert n in offers + [n];
    assert forall x :: x in offers ==> x in offers + [n];
  }

  /** Listed already, and not stronger: nothing changes. */
  lemma WeakerStep(list: seq<Network>, cap: nat, offers: seq<Network>, n: Network, i: nat)
    requires TopK(list, cap, offers) && RadioNames(offers + [n]) && n.ssid != []
    requires i < |list| && list[i].ssid == n.ssid && Clamp(n.rssi) <= list[i].rssi
    ensures TopK(list, cap, offers + [n])
  {
    hide Names, Best, Sorted, DistinctNames, Listed, RadioNames, Entry, Clamp;
    NamesOfSnoc(offers, n);
    FitsName(offers, n);
    assert list[i] in list;
    forall s
      ensures Best(offers + [n], s) == Best(offers, s)
    {
      BestOfSnoc(offers, n, s);
    }
    assert Names(offers + [n]) == Names(offers);
  }

  lemma WithoutLength(list: seq<Network>, i: nat)
    requires i < |list|
    ensures |Without(list, i)| == |list| - 1
  {
  }

  /** Listed already, and stronger: its entry moves up. */
  lemma StrongerStep(list: seq<Network>, cap: nat, offers: seq<Network>, n: Network, i: nat)
    requires TopK(list, cap, offers) && |list| <= cap && RadioNames(offers + [n]) && n.ssid != []
    requires i < |list| && list[i].ssid == n.ssid && Clamp(n.rssi) > list[i].rssi
    ensures TopK(Place(Without(list, i), cap, Entry(n)), cap, offers + [n])
  {
    hide Names, Best, Sorted, DistinctNames, RadioNames, Entry, Clamp, Place, Without;
    NamesOfSnoc(offers, n);
    FitsName(offers, n);
    WithoutMembers(list, i);
    WithoutKeepsOrder(list, i);
    var rest, e := Without(list, i), Entry(n);
    WithoutLength(list, i);
    PlaceWithRoom(rest, cap, e);
    var r := Place(rest, cap, e);
    assert list[i] in list && Names(offers + [n]) == Names(offers);
    forall s
      ensures Best(offers + [n], s) == if s == n.ssid then Some(e) else Best(offers, s)
    {
      BestOfSnoc(offers, n, s);
    }
    forall s | Listed(list, s)
      ensures Listed(r, s)
    {
      var x :| x in list && x.ssid == s;
      if s == n.ssid {
        assert e in r;
      } else {
        assert x in r;
      }
    }
  }

  lemma RoomStep(list: seq<Network>, cap: nat, offers: seq<Network>, n: Network)
    requires TopK(list, cap, offers) && |list| < cap && RadioNames(offers + [n]) && n.ssid != []
    requires !Listed(list, n.ssid)
    ensures TopK(Place(list, cap, Entry(n)), cap, offers + [n])
  {
    hide Names, Best, Sorted, DistinctNames, RadioNames, Entry, Clamp, Place;
    NamesOfSnoc(offers, n);
    FitsName(offers, n);
    var e := Entry(n);
    PlaceWithRoom(list, cap, e);
    var r := Place(list, cap, e);
    BestOfOffered(offers, n.ssid);
    forall s
      ensures Best(offers + [n], s) == if s == n.ssid then Some(e) else Best(offers, s)
    {
      BestOfSnoc(offers, n, s);
    }
    forall s | s in Names(offers + [n])
      ensures Listed(r, s)
    {
      if s == n.ssid {
        assert e in r;
      } else {
        var x :| x in list && x.ssid == s;
        assert x in r;
      }
    }
  }

  /** Left out before, and the new offer does not beat what it was left out with: nothing changes. */
  lemma StillWeaker(list: seq<Network>, cap: nat, offers: seq<Network>, n: Network)
    requires TopK(list, cap, offers) && |list| == cap > 0 && RadioNames(offers + [n]) && n.ssid != []
    requires !Listed(list, n.ssid) && Best(offers, n.ssid).Some? && Best(offers, n.ssid).value.rssi >= Clamp(n.rssi)
    ensures TopK(Place(list, cap, Entry(n)), cap, offers + [n])
  {
    hide Best, Sorted, DistinctNames, RadioNames, Entry, Clamp, Place, Listed;
    FitsName(offers, n);
    NamesOfSnoc(offers, n);
    BestOfOffered(offers, n.ssid);
    PlaceWeakest(list, cap, Entry(n));
    forall s
      ensures Best(offers + [n], s) == Best(offers, s)
    {
      BestOfSnoc(offers, n, s);
    }
    assert Names(offers + [n]) == Names(offers);
  }

  lemma LeftOutBefore(list: seq<Network>, r: seq<Network>, e: Network, out: Network, s: seq<byte>)
    requires forall x :: x in r || x == out <==> x == e || x in list
    requires !Listed(r, s) && s != out.ssid
    ensures !Listed(list, s) && s != e.ssid
  {
    assert forall x :: x in r ==> Listed(r, x.ssid);
    forall x | x in list || x == e
      ensures x.ssid != s
    {
      assert x in r || x == out;
    }
  }

  /** The new offer is the best of its name: it takes its place, and the weakest entry, perhaps itself, falls off. */
  lemma NewBest(list: seq<Network>, cap: nat, offers: seq<Network>, n: Network)
    requires TopK(list, cap, offers) && |list| == cap > 0 && RadioNames(offers + [n]) && n.ssid != []
    requires !Listed(list, n.ssid) && Best(offers + [n], n.ssid) == Some(Entry(n))
    ensures TopK(Place(list, cap, Entry(n)), cap, offers + [n])
  {
    hide Names, Best, Sorted, DistinctNames, RadioNames, Entry, Clamp, Place, Dropped;
    NamesOfSnoc(offers, n);
    FitsName(offers, n);
    var e, after := Entry(n), offers + [n];
    PlaceWhenFull(list, cap, e);
    var r, out := Place(list, cap, e), Dropped(list, e);
    forall s | s != n.ssid
      ensures Best(after, s) == Best(offers, s)
    {
      BestOfSnoc(offers, n, s);
    }
    assert e in r || e == out;
    assert Best(after, out.ssid) == Some(out) by {
      assert out == e || out in list;
    }
    forall s | s in Names(after) && !Listed(r, s)
      ensures |r| == cap && forall x :: x in r ==> Best(after, s).Some? && Best(after, s).value.rssi <= x.rssi
    {
      if s != out.ssid {
        LeftOutBefore(list, r, e, out, s);
        forall x | x in r
          ensures Best(after, s).Some? && Best(after, s).value.rssi <= x.rssi
        {
          assert x in list || out in list;
        }
      }
    }
  }

  lemma FullStep(list: seq<Network>, cap: nat, offers: seq<Network>, n: Network)
    requires TopK(list, cap, offers) && |list| == cap > 0 && RadioNames(offers + [n]) && n.ssid != []
    requires !Listed(list, n.ssid)
    ensures TopK(Place(list, cap, Entry(n)), cap, offers + [n])
  {
    hide Names, Best, Sorted, DistinctNames, RadioNames, Entry, Clamp, Place, Listed, Dropped;
    FitsName(offers, n);
    BestOfSnoc(offers, n, n.ssid);
    BestOfOffered(offers, n.ssid);
    if Best(offers + [n], n.ssid) != Some(Entry(n)) {
      StillWeaker(list, cap, offers, n);
    } else {
      NewBest(list, cap, offers, n);
    }
  }

  /** Not listed: a new name, or one that had been left out. */
  lemma NewStep(list: seq<Network>, cap: nat, offers: seq<Network>, n: Network)
    requires TopK(list, cap, offers) && |list| <= cap && cap > 0 && RadioNames(offers + [n]) && n.ssid != []
    requires !Listed(list, n.ssid)
    ensures TopK(Place(list, cap, Entry(n)), cap, offers + [n])
  {
    hide Names, Best, RadioNames, Entry, Clamp, Place, TopK;
    if |list| < cap {
      RoomStep(list, cap, offers, n);
    } else {
      FullStep(list, cap, offers, n);
    }
  }

  lemma OneMore(list: seq<Network>, cap: nat, offers: seq<Network>, n: Network)
    requires TopK(list, cap, offers) && |list| <= cap && cap > 0 && RadioNames(offers + [n])
    ensures TopK(Insert(list, cap, n), cap, offers + [n])
  {
    hide TopK, Find, Place, Entry, Listed, RadioNames;
    FindMeans(list, n.ssid);
    var i := Find(list, n.ssid);
    if n.ssid == [] {
      HiddenStep(list, cap, offers, n);
    } else if i == |list| {
      NewStep(list, cap, offers, n);
    } else if Clamp(n.rssi) <= list[i].rssi {
      WeakerStep(list, cap, offers, n, i);
    } else {
      StrongerStep(list, cap, offers, n, i);
    }
  }

  lemma {:induction false} TopKHolds(offers: seq<Network>, cap: nat)
    requires RadioNames(offers) && cap > 0
    ensures TopK(ListAfter(offers, cap), cap, offers)
  {
    if offers != [] {
      hide TopK, Insert;
      var front, last := offers[..|offers| - 1], offers[|offers| - 1];
      assert offers == front + [last];
      assert RadioNames(front);
      TopKHolds(front, cap);
      OneMore(ListAfter(front, cap), cap, front, last);
    }
  }

  // --- the main result ---

  function EntryNames(list: seq<Network>): set<seq<byte>>
  {
    set e | e in list :: e.ssid
  }

  lemma {:induction false} AsManyNames(list: seq<Network>)
    requires DistinctNames(list)
    ensures |EntryNames(list)| == |list|
  {
    if list == [] {
      assert EntryNames(list) == {};
    } else {
      var front, last := list[..|list| - 1], list[|list| - 1];
      AsManyNames(front);
      assert list == front + [last];
      assert EntryNames(list) == EntryNames(front) + {last.ssid};
      assert last.ssid !in EntryNames(front);
    }
  }

  lemma Subset(a: set<seq<byte>>, b: set<seq<byte>>)
    requires a <= b
    ensures |a| <= |b|
  {
    assert b == a + (b - a);
  }

  lemma SizeOfTopK(list: seq<Network>, cap: nat, offers: seq<Network>)
    requires TopK(list, cap, offers) && |list| <= cap
    ensures |list| == if |Names(offers)| < cap then |Names(offers)| else cap
  {
    hide Names, Best, Sorted;
    AsManyNames(list);
    Subset(EntryNames(list), Names(offers));
    if |list| < cap {
      assert EntryNames(list) == Names(offers);
    }
  }

  lemma NothingListed(offers: seq<Network>)
    ensures ListAfter(offers, 0) == [] && Sorted([]) && DistinctNames([])
  {
  }

  /** After any scan, the list is ordered by strength, names each network once and at its strongest, is as long as the
      bound or the number of names allows, and leaves out no network stronger than its last entry. */
  lemma StrongestNetworks(offers: seq<Network>, cap: nat)
    requires RadioNames(offers)
    ensures var list, names := ListAfter(offers, cap), Names(offers);
            && Sorted(list) && DistinctNames(list)
            && (forall e :: e in list ==> e.ssid in names && Best(offers, e.ssid) == Some(e))
            && |list| == (if |names| < cap then |names| else cap)
            && (forall s :: s in names && !Listed(list, s) && cap > 0 ==>
                  Best(offers, s).Some? && Best(offers, s).value.rssi <= list[|list| - 1].rssi)
  {
    hide Names, Best, Sorted, DistinctNames, RadioNames;
    if cap > 0 {
      TopKHolds(offers, cap);
      SizeOfTopK(ListAfter(offers, cap), cap, offers);
      var list := ListAfter(offers, cap);
      forall s | s in Names(offers) && !Listed(list, s)
        ensures Best(offers, s).Some? && Best(offers, s).value.rssi <= list[|list| - 1].rssi
      {
        assert list[|list| - 1] in list;
      }
    } else {
      NothingListed(offers);
    }
  }

  /** The nearest strength that a signed byte holds. */
  predicate InByte(rssi: int, stored: int)
  {
    && -128 <= stored <= 127
    && (rssi < -128 ==> stored == -128) && (rssi > 127 ==> stored == 127)
    && (-128 <= rssi <= 127 ==> stored == rssi)
  }

  /** The k-th offer is the first of its name that none of that name beats, as far as a signed byte can tell, and the
      entry stores it. */
  predicate BestAt(offers: seq<Network>, k: nat, e: Network)
  {
    && k < |offers| && e.ssid == offers[k].ssid && e.secure == offers[k].secure && InByte(offers[k].rssi, e.rssi)
    && (forall j :: 0 <= j < |offers| && offers[j].ssid == e.ssid ==> Clamp(offers[j].rssi) <= e.rssi)
    && (forall j :: 0 <= j < k && offers[j].ssid == e.ssid ==> Clamp(offers[j].rssi) < e.rssi)
  }

  lemma {:induction false} BestOffersBound(offers: seq<Network>, ssid: seq<byte>)
    requires RadioNames(offers)
    ensures forall j :: 0 <= j < |offers| && offers[j].ssid == ssid ==>
              Best(offers, ssid).Some? && Clamp(offers[j].rssi) <= Best(offers, ssid).value.rssi
    ensures Best(offers, ssid).Some? ==> Best(offers, ssid).value.ssid == ssid
  {
    if offers != [] {
      var front, last := offers[..|offers| - 1], offers[|offers| - 1];
      assert offers == front + [last];
      BestOffersBound(front, ssid);
      BestOfSnoc(front, last, ssid);
    }
  }

  lemma {:induction false} BestMeaning(offers: seq<Network>, ssid: seq<byte>)
    requires RadioNames(offers) && Best(offers, ssid).Some?
    ensures exists k: nat :: BestAt(offers, k, Best(offers, ssid).value)
  {
    var front, last := offers[..|offers| - 1], offers[|offers| - 1];
    assert offers == front + [last];
    BestOfSnoc(front, last, ssid);
    if last.ssid == ssid && (Best(front, ssid).None? || Best(front, ssid).value.rssi < Clamp(last.rssi)) {
      BestOffersBound(front, ssid);
      assert BestAt(offers, |front|, Best(offers, ssid).value);
    } else {
      BestMeaning(front, ssid);
      var k: nat :| BestAt(front, k, Best(front, ssid).value);
      BestOffersBound(front, ssid);
      assert BestAt(offers, k, Best(offers, ssid).value);
    }
  }

  /** Every entry of the list is an offer of the scan, its strength brought into a signed byte, and the first of its
      name that no other of that name beats. */
  lemma EntriesAreOffers(offers: seq<Network>, cap: nat, i: nat)
    requires RadioNames(offers) && i < |ListAfter(offers, cap)|
    ensures exists k: nat :: BestAt(offers, k, ListAfter(offers, cap)[i])
  {
    hide BestAt, Best, ListAfter, RadioNames;
    StrongestNetworks(offers, cap);
    var e := ListAfter(offers, cap)[i];
    assert e in ListAfter(offers, cap);
    BestMeaning(offers, e.ssid);
  }

  lemma InsertUnknown(list: seq<Network>, cap: nat, n: Network)
    requires |list| <= cap && cap > 0 && n.ssid != [] && !Listed(list, n.ssid)
    ensures Insert(list, cap, n) == Place(list, cap, Entry(n))
  {
    hide Place, Entry, Find;
    FindMeans(list, n.ssid);
  }

  lemma PlaceBehind(list: seq<Network>, cap: nat, e: Network)
    requires |list| < cap && forall j :: 0 <= j < |list| ==> list[j].rssi >= e.rssi
    ensures Place(list, cap, e) == list + [e]
  {
    hide Position;
    PositionIs(list, e.rssi, |list|);
  }

  /** Beyond the radio's bound the rule breaks: a longer name is cut when stored, no longer matches itself, and is
      listed twice under one name. */
  lemma LongNamesRepeat(n: Network, cap: nat)
    requires |n.ssid| > MAX_SSID && cap >= 2
    ensures var list := ListAfter([n, n], cap); |list| == 2 && list[0].ssid == list[1].ssid
  {
    var e := Entry(n);
    assert |e.ssid| < |n.ssid|;
    hide Entry, Insert;
    assert [n][..0] == [] && [n, n][..1] == [n];
    InsertUnknown([], cap, n);
    InsertUnknown([e], cap, n);
    PlaceBehind([], cap, e);
    PlaceBehind([e], cap, e);
    assert ListAfter([n], cap) == [e];
    assert ListAfter([n, n], cap) == [e] + [e];
  }

  /** Exactly which names are listed once however often they are offered: those of at most 32 bytes. */
  lemma OnceIff(n: Network, cap: nat)
    requires n.ssid != [] && cap >= 2
    ensures DistinctNames(ListAfter([n, n], cap)) <==> |n.ssid| <= MAX_SSID
  {
    if |n.ssid| <= MAX_SSID {
      StrongestNetworks([n, n], cap);
    } else {
      LongNamesRepeat(n, cap);
    }
  }
}
