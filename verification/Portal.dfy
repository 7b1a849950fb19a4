/** The portal's network list: the strongest networks of a scan, kept in place as the scan streams by. */
module Portal {
  import opened Bytes
  import Provision

  const MAX_SSID := Provision.MAX_SSID

  /** ssid is a C string: its bytes up to the terminator. */
  datatype Network = Network(ssid: seq<byte>, rssi: int, secure: bool)

  function Clamp(rssi: int): int
  {
    if rssi < -128 then -128 else if rssi > 127 then 127 else rssi
  }

  /** What a list entry stores of a network seen in a scan. */
  function Entry(n: Network): Network
  {
    Network(if |n.ssid| > MAX_SSID then n.ssid[..MAX_SSID] else n.ssid, Clamp(n.rssi), n.secure)
  }

  /** The first entry with that name, or the length of the list. */
  function Find(list: seq<Network>, ssid: seq<byte>): (i: nat)
    ensures i <= |list|
    ensures i < |list| ==> list[i].ssid == ssid
    ensures forall j :: 0 <= j < i ==> list[j].ssid != ssid
  {
    if list == [] || list[0].ssid == ssid then 0 else 1 + Find(list[1..], ssid)
  }

  /** How many leading entries are at least that strong. */
  function Position(list: seq<Network>, rssi: int): (pos: nat)
    ensures pos <= |list|
    ensures forall j :: 0 <= j < pos ==> list[j].rssi >= rssi
    ensures pos < |list| ==> list[pos].rssi < rssi
  {
    if list == [] || list[0].rssi < rssi then 0 else 1 + Position(list[1..], rssi)
  }

  /** Behind everything at least as strong. */
  function Ranked(list: seq<Network>, e: Network): (all: seq<Network>)
    ensures |all| == |list| + 1
  {
    var pos := Position(list, e.rssi);
    list[..pos] + [e] + list[pos..]
  }

  /** What no longer fits falls off the end. */
  function Place(list: seq<Network>, cap: nat, e: Network): seq<Network>
    requires |list| <= cap
  {
    if |list| < cap then Ranked(list, e) else Ranked(list, e)[..cap]
  }

  function Insert(list: seq<Network>, cap: nat, n: Network): (r: seq<Network>)
    requires |list| <= cap
    ensures |r| <= cap
  {
    if cap == 0 || n.ssid == [] then list
    else
      var i := Find(list, n.ssid);
      if i == |list| then Place(list, cap, Entry(n))
      else if Clamp(n.rssi) <= list[i].rssi then list
      else Place(list[..i] + list[i + 1..], cap, Entry(n))
  }

  method FindNetwork(list: array<Network>, count: nat, ssid: seq<byte>) returns (i: nat)
    requires count <= list.Length
    ensures i == Find(list[..count], ssid)
  {
    i := 0;
    while i < count && list[i].ssid != ssid
      invariant i <= count
      invariant Find(list[..count], ssid) == i + Find(list[i..count], ssid)
    {
      assert list[i..count][1..] == list[i + 1..count];
      i := i + 1;
    }
  }

  lemma DropLast(a: seq<Network>, b: seq<Network>)
    requires b != []
    ensures (a + b)[..|a + b| - 1] == a + b[..|b| - 1]
  {
  }

  lemma Placed(was: seq<Network>, cap: nat, pos: nat, e: Network)
    requires |was| <= cap && pos < cap && pos == Position(was, e.rssi)
    ensures Place(was, cap, e) == was[..pos] + [e] + was[pos..if |was| < cap then |was| else cap - 1]
  {
    hide Position;
    if |was| == cap {
      DropLast(was[..pos] + [e], was[pos..]);
      assert was[pos..][..|was| - pos - 1] == was[pos..|was| - 1];
    }
  }

  lemma NoPlace(was: seq<Network>, cap: nat, e: Network)
    requires |was| == cap == Position(was, e.rssi)
    ensures Place(was, cap, e) == was
  {
    hide Position;
    assert (was[..cap] + [e] + was[cap..])[..cap] == was;
  }

  lemma {:induction false} PositionIs(list: seq<Network>, rssi: int, pos: nat)
    requires pos <= |list| && forall j :: 0 <= j < pos ==> list[j].rssi >= rssi
    requires pos < |list| ==> list[pos].rssi < rssi
    ensures Position(list, rssi) == pos
  {
  }

  lemma Split(s: seq<Network>, pos: nat)
    requires pos < |s|
    ensures s == s[..pos] + [s[pos]] + s[pos + 1..]
  {
  }

  /** Moves the entries from pos on one place back, dropping the last of the first count, and puts e in the gap. */
  method PutAt(list: array<Network>, count: nat, pos: nat, e: Network)
    requires pos < count <= list.Length
    modifies list
    ensures list[..count] == old(list[..])[..pos] + [e] + old(list[..])[pos..count - 1]
  {
    ghost var was := list[..];
    var j := count - 1;
    while j > pos
      invariant pos <= j < count
      invariant list[..j + 1] == was[..j + 1]
      invariant list[j + 1..count] == was[j..count - 1]
    {
      list[j] := list[j - 1];
      j := j - 1;
    }
    list[pos] := e;
    Split(list[..count], pos);
    assert list[..count][..pos] == was[..pos] && list[..count][pos + 1..] == was[pos..count - 1];
  }

  method PlaceNetwork(list: array<Network>, count: nat, e: Network) returns (after: nat)
    requires count <= list.Length
    modifies list
    ensures after <= list.Length && list[..after] == Place(old(list[..count]), list.Length, e)
  {
    ghost var was := list[..count];
    var pos := 0;
    while pos < count && list[pos].rssi >= e.rssi
      invariant pos <= count
      invariant forall j :: 0 <= j < pos ==> was[j].rssi >= e.rssi
    {
      pos := pos + 1;
    }
    PositionIs(was, e.rssi, pos);
    hide Position, Place;
    after := count;
    if pos >= list.Length {
      NoPlace(was, list.Length, e);
      return;
    }
    if count < list.Length {
      after := count + 1;
    }
    ghost var whole := list[..];
    PutAt(list, after, pos, e);
    assert whole[..pos] == was[..pos] && whole[pos..after - 1] == was[pos..after - 1];
    Placed(was, list.Length, pos, e);
  }

  /** Moves the entries behind i one place forward. */
  method CloseGap(list: array<Network>, count: nat, i: nat)
    requires i < count <= list.Length
    modifies list
    ensures list[..count - 1] == old(list[..i]) + old(list[i + 1..count])
  {
    ghost var was := list[..];
    var j := i;
    while j + 1 < count
      invariant i <= j < count
      invariant list[..j] == was[..i] + was[i + 1..j + 1]
      invariant list[j + 1..count] == was[j + 1..count]
    {
      assert list[j + 1] == list[j + 1..count][0];
      list[j] := list[j + 1];
      assert was[i + 1..j + 2] == was[i + 1..j + 1] + [was[j + 1]];
      j := j + 1;
    }
  }

  /** insertNetwork on its array; count is the number of entries in use. */
  method InsertNetwork(list: array<Network>, count: nat, n: Network) returns (after: nat)
    requires count <= list.Length
    modifies list
    ensures after <= list.Length && list[..after] == Insert(old(list[..count]), list.Length, n)
  {
    if list.Length == 0 || n.ssid == [] {
      return count;
    }
    hide Place, Find, Entry;
    after := count;
    var i := FindNetwork(list, count, n.ssid);
    if i < count {
      if Clamp(n.rssi) <= list[i].rssi {
        return;
      }
      ghost var was := list[..count];
      CloseGap(list, count, i);
      after := count - 1;
      assert list[..after] == was[..i] + was[i + 1..];
    }
    after := PlaceNetwork(list, after, Entry(n));
  }
}
