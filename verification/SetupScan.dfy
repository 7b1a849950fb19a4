/** Cleaning a scan result: untrusted names and addresses, ordered so the first unprovisioned device is the one to
    offer. */
module SetupScan {
  import opened Bytes
  import opened Sorting
  import opened YamlText

  const MAX_FOUND := 16
  const MAX_NAME_BYTES := 40
  const MAX_ID_BYTES := 64

  datatype Device = Device(addr: string, name: string, rssi: int, mac: string, provisioned: bool,
                           version: int, capacity: int)

  predicate IdChar(c: char)
  {
    'a' <= c <= 'z' || 'A' <= c <= 'Z' || '0' <= c <= '9' || c == '.' || c == ':' || c == '-' || c == '_'
  }

  /** An address or hardware id the channel may store, log and send back. */
  predicate IsId(s: string)
  {
    0 < |s| <= MAX_ID_BYTES && forall i :: 0 <= i < |s| ==> IdChar(s[i])
  }

  /** The id without surrounding space, or "" when it is not one. */
  function SanitizePairId(text: string): (r: string)
    ensures r == "" || IsId(r)
  {
    var s := TrimSpace(text);
    if IsId(s) then s else ""
  }

  function Utf8Length(c: char): nat
  {
    if c < '\U{80}' then 1 else if c < '\U{800}' then 2 else if c < '\U{10000}' then 3 else 4
  }

  function Utf8Bytes(s: string): nat
  {
    if s == "" then 0 else Utf8Bytes(s[..|s| - 1]) + Utf8Length(s[|s| - 1])
  }

  /** Drops control characters, and everything from the first character that no longer fits. */
  function CleanFrom(s: string, out: string, max: nat): string
  {
    if s == "" then out
    else if s[0] < ' ' || s[0] == '\U{7f}' then CleanFrom(s[1..], out, max)
    else if Utf8Bytes(out) + Utf8Length(s[0]) > max then out
    else CleanFrom(s[1..], out + [s[0]], max)
  }

  method CleanText(text: string, max: nat) returns (r: string)
    ensures r == CleanFrom(TrimSpace(text), "", max)
  {
    var s := TrimSpace(text);
    r := "";
    for i := 0 to |s|
      invariant CleanFrom(s[i..], r, max) == CleanFrom(s, "", max)
    {
      hide Utf8Bytes;
      assert s[i..][1..] == s[i + 1..];
      if s[i] < ' ' || s[i] == '\U{7f}' {
        continue;
      }
      if Utf8Bytes(r) + Utf8Length(s[i]) > max {
        return;
      }
      r := r + [s[i]];
    }
  }

  /** A cleaned name fits its bound and holds no control character. */
  lemma {:induction false} CleanTextIsClean(s: string, out: string, max: nat)
    requires Utf8Bytes(out) <= max && forall i :: 0 <= i < |out| ==> out[i] >= ' ' && out[i] != '\U{7f}'
    ensures var r := CleanFrom(s, out, max);
            Utf8Bytes(r) <= max && forall i :: 0 <= i < |r| ==> r[i] >= ' ' && r[i] != '\U{7f}'
    decreases |s|
  {
    if s != "" {
      var next := out + [s[0]];
      assert next[..|next| - 1] == out;
      if s[0] < ' ' || s[0] == '\U{7f}' {
        CleanTextIsClean(s[1..], out, max);
      } else if Utf8Bytes(out) + Utf8Length(s[0]) <= max {
        CleanTextIsClean(s[1..], next, max);
      }
    }
  }

  function Cleaned(d: Device): Device
  {
    d.(addr := SanitizePairId(d.addr), name := CleanFrom(TrimSpace(d.name), "", MAX_NAME_BYTES),
       mac := SanitizePairId(d.mac))
  }

  /** The device's address is usable and not yet listed. */
  predicate IsNew(d: Device, out: seq<Device>)
  {
    SanitizePairId(d.addr) != "" && forall o :: o in out ==> o.addr != SanitizePairId(d.addr)
  }

  function Keep(found: seq<Device>, out: seq<Device>): seq<Device>
  {
    if found == [] || |out| == MAX_FOUND then out
    else if IsNew(found[0], out) then Keep(found[1..], out + [Cleaned(found[0])])
    else Keep(found[1..], out)
  }

  /** Unprovisioned first, then the strongest signal, then the address. */
  predicate DeviceLess(a: Device, b: Device)
  {
    if a.provisioned != b.provisioned then !a.provisioned
    else if a.rssi != b.rssi then a.rssi > b.rssi
    else StringLess(a.addr, b.addr)
  }

  function CleanFound(found: seq<Device>): seq<Device>
  {
    Sort(DeviceLess, Keep(found, []))
  }

  method CleanFoundDevices(found: seq<Device>) returns (r: seq<Device>)
    ensures r == CleanFound(found)
  {
    hide SanitizePairId, CleanFrom;
    var out: seq<Device> := [];
    var seen: set<string> := {};
    var i := 0;
    while i < |found| && |out| < MAX_FOUND
      invariant 0 <= i <= |found| && |out| <= MAX_FOUND
      invariant Keep(found[i..], out) == Keep(found, [])
      invariant forall a :: a in seen <==> exists o :: o in out && o.addr == a
    {
      assert found[i..][1..] == found[i + 1..];
      var d := found[i];
      i := i + 1;
      var addr := SanitizePairId(d.addr);
      if addr == "" || addr in seen {
        continue;
      }
      seen := seen + {addr};
      var name := CleanText(d.name, MAX_NAME_BYTES);
      out := out + [d.(addr := addr, name := name, mac := SanitizePairId(d.mac))];
    }
    r := Sort(DeviceLess, out);
  }

  function Candidates(found: seq<Device>): seq<Device>
  {
    if found == [] then []
    else (if found[0].provisioned then [] else [found[0]]) + Candidates(found[1..])
  }

  // --- what a cleaned list promises ---

  predicate DistinctAddrs(found: seq<Device>)
  {
    forall i, j :: 0 <= i < j < |found| ==> found[i].addr != found[j].addr
  }

  predicate CleanList(found: seq<Device>)
  {
    && |found| <= MAX_FOUND && DistinctAddrs(found) && Ordered(DeviceLess, found)
    && forall d :: d in found ==> IsId(d.addr)
  }

  lemma DeviceLessIsWeakOrder()
    ensures WeakOrder(DeviceLess)
  {
    forall a: Device, b: Device, c: Device
      ensures DeviceLess(a, b) ==> !DeviceLess(b, a)
      ensures DeviceLess(a, c) ==> DeviceLess(a, b) || DeviceLess(b, c)
    {
      StringOrder(a.addr, b.addr, c.addr);
    }
  }

  /** Every kept device comes from the scan; every usable address of the scan is kept, unless the list is full. */
  predicate KeptFrom(r: seq<Device>, out: seq<Device>, found: seq<Device>)
  {
    && (forall o :: o in r ==> o in out || exists d :: d in found && o == Cleaned(d))
    && out <= r
    && (|r| == MAX_FOUND
        || forall d :: d in found && SanitizePairId(d.addr) != "" ==>
             exists o :: o in r && o.addr == SanitizePairId(d.addr))
  }

  predicate Usable(out: seq<Device>)
  {
    |out| <= MAX_FOUND && DistinctAddrs(out) && forall o :: o in out ==> IsId(o.addr)
  }

  lemma KeptNow(out: seq<Device>, found: seq<Device>)
    requires found == [] || |out| == MAX_FOUND
    ensures KeptFrom(out, out, found)
  {
  }

  lemma SanitizedIsId(d: Device)
    requires SanitizePairId(d.addr) != ""
    ensures IsId(Cleaned(d).addr)
  {
  }

  lemma StaysUsable(d: Device, out: seq<Device>)
    requires Usable(out) && IsNew(d, out) && |out| < MAX_FOUND
    ensures Usable(out + [Cleaned(d)])
  {
    hide SanitizePairId, CleanFrom, IsId;
    SanitizedIsId(d);
  }

  lemma KeptOneMore(r: seq<Device>, out: seq<Device>, found: seq<Device>)
    requires found != [] && KeptFrom(r, out + [Cleaned(found[0])], found[1..])
    ensures KeptFrom(r, out, found)
  {
    hide SanitizePairId, CleanFrom;
    assert found == [found[0]] + found[1..];
    var next := out + [Cleaned(found[0])];
    assert Cleaned(found[0]) in next && next <= r;
    assert Cleaned(found[0]) in r;
  }

  lemma KeptNoMore(r: seq<Device>, out: seq<Device>, found: seq<Device>)
    requires found != [] && !IsNew(found[0], out) && KeptFrom(r, out, found[1..])
    ensures KeptFrom(r, out, found)
  {
    hide SanitizePairId, CleanFrom;
    assert found == [found[0]] + found[1..];
    assert forall o :: o in out ==> o in r;
  }

  lemma {:induction false} KeepMeaning(found: seq<Device>, out: seq<Device>)
    requires Usable(out) && |out| <= MAX_FOUND
    ensures Usable(Keep(found, out)) && KeptFrom(Keep(found, out), out, found)
    decreases |found|
  {
    hide SanitizePairId, Usable, KeptFrom, IsNew, Cleaned;
    if found == [] || |out| == MAX_FOUND {
      KeptNow(out, found);
    } else if IsNew(found[0], out) {
      var next := out + [Cleaned(found[0])];
      StaysUsable(found[0], out);
      KeepMeaning(found[1..], next);
      KeptOneMore(Keep(found, out), out, found);
    } else {
      KeepMeaning(found[1..], out);
      KeptNoMore(Keep(found, out), out, found);
    }
  }

  lemma Repeated(t: seq<Device>, i: nat, j: nat)
    requires i < j < |t|
    ensures t[i] == t[j] ==> multiset(t)[t[i]] >= 2
  {
    assert t == t[..i] + [t[i]] + t[i + 1..j] + [t[j]] + t[j + 1..];
  }

  lemma {:induction false} AtMostOnce(s: seq<Device>, d: Device)
    requires DistinctAddrs(s)
    ensures multiset(s)[d] <= 1
  {
    if s != [] {
      AtMostOnce(s[1..], d);
      assert s == [s[0]] + s[1..];
      if s[0] == d {
        assert d !in s[1..];
      }
    }
  }

  lemma StillDistinct(s: seq<Device>, t: seq<Device>)
    requires DistinctAddrs(s) && multiset(s) == multiset(t)
    ensures DistinctAddrs(t)
  {
    forall i, j | 0 <= i < j < |t|
      ensures t[i].addr != t[j].addr
    {
      AtMostOnce(s, t[i]);
      Repeated(t, i, j);
      assert t[i] in multiset(t) && t[j] in multiset(t);
      assert t[i] in s && t[j] in s;
    }
  }

  /** The cleaned scan: at most 16 devices with distinct usable addresses, in order; none invented, none lost for
      another reason than the bound. */
  lemma CleanFoundIsClean(found: seq<Device>)
    ensures var r := CleanFound(found);
            && CleanList(r)
            && (forall o :: o in r ==> exists d :: d in found && o == Cleaned(d))
            && (|r| == MAX_FOUND
                || forall d :: d in found && SanitizePairId(d.addr) != "" ==>
                     exists o :: o in r && o.addr == SanitizePairId(d.addr))
  {
    hide SanitizePairId, Cleaned, IsId, DeviceLess, Keep, Sort;
    var kept := Keep(found, []);
    KeepMeaning(found, []);
    DeviceLessIsWeakOrder();
    SortSorts(DeviceLess, kept);
    SortMembers(DeviceLess, kept);
    StillDistinct(kept, Sort(DeviceLess, kept));
  }

  lemma OrderedTail(found: seq<Device>)
    requires Ordered(DeviceLess, found) && found != []
    ensures Ordered(DeviceLess, found[1..]) && forall j :: 0 < j < |found| ==> !DeviceLess(found[j], found[0])
  {
    hide DeviceLess;
    assert forall i :: 0 <= i < |found[1..]| ==> found[1..][i] == found[i + 1];
  }

  lemma NotNearer(d: Device, first: Device)
    requires !d.provisioned && !first.provisioned && (d == first || !DeviceLess(d, first))
    ensures d.rssi <= first.rssi
  {
  }

  /** The first candidate of an ordered list is unprovisioned and no unprovisioned device is nearer. */
  lemma {:induction false} FirstCandidateIsNearest(found: seq<Device>)
    requires Ordered(DeviceLess, found)
    ensures Candidates(found) == [] <==> forall d :: d in found ==> d.provisioned
    ensures Candidates(found) != [] ==>
              var best := Candidates(found)[0];
              && best in found && !best.provisioned
              && forall d :: d in found && !d.provisioned ==> d.rssi <= best.rssi
  {
    hide DeviceLess;
    if found != [] {
      OrderedTail(found);
      FirstCandidateIsNearest(found[1..]);
      assert found == [found[0]] + found[1..];
      forall d | d in found && !d.provisioned && !found[0].provisioned
        ensures d.rssi <= found[0].rssi
      {
        var j :| 0 <= j < |found| && found[j] == d;
        NotNearer(d, found[0]);
      }
    }
  }

  // --- the bound, and what it costs ---

  /** Every usable address of a scan with its first report, however many there are. */
  function FirstReports(found: seq<Device>, out: seq<Device>): (r: seq<Device>)
    decreases |found|
  {
    if found == [] then out
    else if IsNew(found[0], out) then FirstReports(found[1..], out + [Cleaned(found[0])])
    else FirstReports(found[1..], out)
  }

  lemma {:induction false} ReportsGrow(found: seq<Device>, out: seq<Device>)
    ensures out <= FirstReports(found, out)
    decreases |found|
  {
    hide IsNew, Cleaned;
    if found != [] {
      ReportsGrow(found[1..], out + [Cleaned(found[0])]);
      ReportsGrow(found[1..], out);
    }
  }

  /** The list keeps the first 16 of them, in the order of the scan. */
  lemma {:induction false} KeepsTheFirst(found: seq<Device>, out: seq<Device>)
    requires |out| <= MAX_FOUND
    ensures var all := FirstReports(found, out);
            Keep(found, out) == if |all| <= MAX_FOUND then all else all[..MAX_FOUND]
    decreases |found|
  {
    hide IsNew, Cleaned;
    ReportsGrow(found, out);
    if found != [] && |out| < MAX_FOUND {
      KeepsTheFirst(found[1..], if IsNew(found[0], out) then out + [Cleaned(found[0])] else out);
    }
  }

  function FirstCandidate(found: seq<Device>): Option<Device>
  {
    if Candidates(found) == [] then None else Some(Candidates(found)[0])
  }

  /** The nearest unprovisioned device of all that reported, and nothing when there is none. */
  predicate IsNearest(o: Option<Device>, reports: seq<Device>)
  {
    && (o.None? <==> forall d :: d in reports ==> d.provisioned)
    && (o.Some? ==>
          && o.value in reports && !o.value.provisioned
          && forall d :: d in reports && !d.provisioned ==> d.rssi <= o.value.rssi)
  }

  /** No unprovisioned device behind the first 16 is nearer than all unprovisioned ones among them. */
  predicate NoneCrowdedOut(reports: seq<Device>)
  {
    forall i :: MAX_FOUND <= i < |reports| && !reports[i].provisioned ==>
                  exists j :: 0 <= j < MAX_FOUND && !reports[j].provisioned && reports[j].rssi >= reports[i].rssi
  }

  lemma NearestCrowdsNone(o: Option<Device>, kept: seq<Device>, reports: seq<Device>)
    requires IsNearest(o, kept) && kept == if |reports| <= MAX_FOUND then reports else reports[..MAX_FOUND]
    requires IsNearest(o, reports)
    ensures NoneCrowdedOut(reports)
  {
    forall i | MAX_FOUND <= i < |reports| && !reports[i].provisioned
      ensures exists j :: 0 <= j < MAX_FOUND && !reports[j].provisioned && reports[j].rssi >= reports[i].rssi
    {
      assert reports[i] in reports;
      var j :| 0 <= j < |kept| && kept[j] == o.value;
      assert reports[j] == o.value;
    }
  }

  /** One kept device is unprovisioned and at least as near. */
  predicate Covers(kept: seq<Device>, d: Device)
  {
    exists k :: k in kept && !k.provisioned && k.rssi >= d.rssi
  }

  lemma EachIsCovered(kept: seq<Device>, reports: seq<Device>, d: Device)
    requires kept == if |reports| <= MAX_FOUND then reports else reports[..MAX_FOUND]
    requires NoneCrowdedOut(reports) && d in reports && !d.provisioned
    ensures Covers(kept, d)
  {
    var i :| 0 <= i < |reports| && reports[i] == d;
    if i < |kept| {
      assert kept[i] in kept;
    } else {
      var j :| 0 <= j < MAX_FOUND && !reports[j].provisioned && reports[j].rssi >= reports[i].rssi;
      assert kept[j] in kept;
    }
  }

  lemma NoneIsMissed(o: Option<Device>, kept: seq<Device>, reports: seq<Device>)
    requires IsNearest(o, kept) && kept == if |reports| <= MAX_FOUND then reports else reports[..MAX_FOUND]
    requires NoneCrowdedOut(reports)
    ensures IsNearest(o, reports)
  {
    forall d | d in reports && !d.provisioned
      ensures Covers(kept, d)
    {
      EachIsCovered(kept, reports, d);
    }
    assert forall k :: k in kept ==> k in reports;
    hide NoneCrowdedOut;
  }

  lemma NearestOfKept(o: Option<Device>, kept: seq<Device>, reports: seq<Device>)
    requires IsNearest(o, kept) && kept == if |reports| <= MAX_FOUND then reports else reports[..MAX_FOUND]
    ensures IsNearest(o, reports) <==> NoneCrowdedOut(reports)
  {
    if IsNearest(o, reports) {
      NearestCrowdsNone(o, kept, reports);
    }
    if NoneCrowdedOut(reports) {
      NoneIsMissed(o, kept, reports);
    }
  }

  /** Exactly when the first candidate is the nearest device of the whole scan. With at most 16 usable addresses it
      always is. */
  lemma NearestIff(found: seq<Device>)
    ensures var reports := FirstReports(found, []);
            && (IsNearest(FirstCandidate(CleanFound(found)), reports) <==> NoneCrowdedOut(reports))
            && (|reports| <= MAX_FOUND ==> NoneCrowdedOut(reports))
  {
    hide FirstReports, Keep, Sort, DeviceLess, Candidates;
    var reports, kept, list := FirstReports(found, []), Keep(found, []), CleanFound(found);
    KeepsTheFirst(found, []);
    DeviceLessIsWeakOrder();
    SortSorts(DeviceLess, kept);
    SortMembers(DeviceLess, kept);
    FirstCandidateIsNearest(list);
    assert forall j :: 0 <= j < |kept| ==> kept[j] == reports[j];
    hide CleanFound;
    NearestOfKept(FirstCandidate(list), kept, reports);
  }

  /** A device as a scan cleans it, with an address. */
  predicate IsClean(d: Device)
  {
    Cleaned(d) == d && d.addr != ""
  }

  lemma CleanIsNew(d: Device, out: seq<Device>, rest: seq<Device>)
    requires IsClean(d) && DistinctAddrs(out + ([d] + rest))
    ensures IsNew(d, out) && Cleaned(d) == d
  {
    hide SanitizePairId, CleanFrom;
    var all := out + ([d] + rest);
    forall o | o in out
      ensures o.addr != d.addr
    {
      var i :| 0 <= i < |out| && out[i] == o;
      assert all[i] == o && all[|out|] == d;
    }
  }

  /** Clean devices with distinct addresses are all reported as they are. */
  lemma {:induction false} AllReported(found: seq<Device>, out: seq<Device>)
    requires (forall d :: d in found ==> IsClean(d)) && DistinctAddrs(out + found)
    ensures FirstReports(found, out) == out + found
    decreases |found|
  {
    hide IsClean, IsNew, Cleaned, DistinctAddrs;
    if found == [] {
      assert out + found == out;
    } else {
      assert found == [found[0]] + found[1..];
      CleanIsNew(found[0], out, found[1..]);
      assert out + [found[0]] + found[1..] == out + found;
      AllReported(found[1..], out + [found[0]]);
    }
  }

  /** Seventeen addresses: the letter a, once, twice, and so on. */
  function Address(n: nat): (r: string)
    ensures |r| == n && forall i :: 0 <= i < n ==> r[i] == 'a'
  {
    seq(n, _ => 'a')
  }

  function CrowdDevice(i: nat): Device
  {
    Device(Address(i + 1), "", -50, "", i < MAX_FOUND, 1, 512)
  }

  /** Sixteen provisioned devices, and behind them in the scan the one that needs setting up. */
  const CROWD := seq(17, i requires 0 <= i => CrowdDevice(i))

  lemma SpacesHaveNoLetters()
    ensures 'a' !in SPACES
  {
  }

  lemma TightIsTrimmed(s: string)
    requires Tight(s, SPACES)
    ensures TrimSpace(s) == s
  {
    hide SPACES;
  }

  lemma CrowdIsClean(i: nat)
    requires i < 17
    ensures IsClean(CrowdDevice(i))
  {
    hide SPACES, TrimSpace;
    SpacesHaveNoLetters();
    TightIsTrimmed(Address(i + 1));
    TightIsTrimmed("");
  }

  lemma CrowdIsReported()
    ensures FirstReports(CROWD, []) == CROWD
  {
    hide IsClean, FirstReports;
    forall i: nat | i < 17
      ensures IsClean(CROWD[i]) && |CROWD[i].addr| == i + 1
    {
      CrowdIsClean(i);
    }
    assert forall d :: d in CROWD ==> IsClean(d);
    assert [] + CROWD == CROWD;
    AllReported(CROWD, []);
  }

  /** The device to set up is not offered: the sixteen before it fill the list. */
  lemma CrowdHidesTheOne()
    ensures CROWD[16] in FirstReports(CROWD, []) && !CROWD[16].provisioned
    ensures FirstCandidate(CleanFound(CROWD)) == None
  {
    CrowdIsReported();
    assert CROWD[16] in CROWD;
    KeepsTheFirst(CROWD, []);
    var kept := Keep(CROWD, []);
    assert forall d :: d in kept ==> d.provisioned;
    hide FirstReports, Keep, Sort, DeviceLess, Candidates, CROWD;
    DeviceLessIsWeakOrder();
    SortSorts(DeviceLess, kept);
    SortMembers(DeviceLess, kept);
    FirstCandidateIsNearest(CleanFound(CROWD));
  }
}
