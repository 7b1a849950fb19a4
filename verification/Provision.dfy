/** The device's credential record: fixed buffers holding NUL-terminated strings, and the
    rules that repair a record and decide whether it is worth joining with. */
module Provision {
  import opened Bytes

  const MAX_SSID := 32
  const MAX_PASS := 63
  const MAX_HOST := 63
  const MAX_TOKEN := 64
  const MAX_OTA_PASS := 63
  const DEFAULT_PORT: uint16 := 8765
  const MIN_WPA_PASS := 8

  /** What C++ reads a buffer as: the bytes before the first NUL. */
  function CString(buf: seq<byte>): (r: seq<byte>)
    ensures |r| <= |buf| && r == buf[..|r|] && (|r| < |buf| ==> buf[|r|] == 0)
    ensures forall i :: 0 <= i < |r| ==> r[i] != 0
  {
    if buf == [] || buf[0] == 0 then [] else [buf[0]] + CString(buf[1..])
  }

  /** The first NUL decides the string, whatever follows it. */
  lemma {:induction false} CStringAt(buf: seq<byte>, n: nat)
    requires n < |buf| && buf[n] == 0
    requires forall i :: 0 <= i < n ==> buf[i] != 0
    ensures CString(buf) == buf[..n]
  {
    if n > 0 {
      CStringAt(buf[1..], n - 1);
      assert buf[1..][..n - 1] == buf[1..n];
    }
  }

  predicate IsControl(c: byte)
  {
    c < 0x20 || c == 0x7f
  }

  predicate Printable(s: seq<byte>)
  {
    forall i :: 0 <= i < |s| ==> !IsControl(s[i])
  }

  /** The bytes before the first control character. */
  function PrintablePrefix(s: seq<byte>): (r: seq<byte>)
    ensures |r| <= |s| && r == s[..|r|] && Printable(r)
    ensures |r| < |s| ==> IsControl(s[|r|])
  {
    if s == [] || IsControl(s[0]) then [] else [s[0]] + PrintablePrefix(s[1..])
  }

  /** The strings a record holds. */
  datatype Fields = Fields(ssid: seq<byte>, pass: seq<byte>, host: seq<byte>, port: uint16,
                           token: seq<byte>, otaPass: seq<byte>)

  const CLEARED := Fields([], [], [], DEFAULT_PORT, [], [])

  /** What repairing one field leaves: it is cut at its capacity and at its first control character. */
  function Repaired(s: seq<byte>, cap: nat): (r: seq<byte>)
    ensures |r| <= cap && Printable(r)
  {
    PrintablePrefix(if |s| > cap then s[..cap] else s)
  }

  function Sanitized(f: Fields): Fields
  {
    Fields(Repaired(f.ssid, MAX_SSID), Repaired(f.pass, MAX_PASS), Repaired(f.host, MAX_HOST),
           if f.port == 0 then DEFAULT_PORT else f.port,
           Repaired(f.token, MAX_TOKEN), Repaired(f.otaPass, MAX_OTA_PASS))
  }

  /** A record repair leaves alone. */
  predicate Clean(f: Fields)
  {
    && |f.ssid| <= MAX_SSID && Printable(f.ssid)
    && |f.pass| <= MAX_PASS && Printable(f.pass)
    && |f.host| <= MAX_HOST && Printable(f.host)
    && |f.token| <= MAX_TOKEN && Printable(f.token)
    && |f.otaPass| <= MAX_OTA_PASS && Printable(f.otaPass)
    && f.port != 0
  }

  lemma RepairedUnchangedIff(s: seq<byte>, cap: nat)
    ensures Repaired(s, cap) == s <==> |s| <= cap && Printable(s)
  {
    var cut := if |s| > cap then s[..cap] else s;
    var r := PrintablePrefix(cut);
    if |s| <= cap && Printable(s) {
      assert |r| == |s|;
    }
  }

  /** Repair always yields a clean record, and changes nothing exactly when the record already was. */
  lemma SanitizeCleans(f: Fields)
    ensures Clean(Sanitized(f))
    ensures Sanitized(f) == f <==> Clean(f)
  {
    RepairedUnchangedIff(f.ssid, MAX_SSID);
    RepairedUnchangedIff(f.pass, MAX_PASS);
    RepairedUnchangedIff(f.host, MAX_HOST);
    RepairedUnchangedIff(f.token, MAX_TOKEN);
    RepairedUnchangedIff(f.otaPass, MAX_OTA_PASS);
  }

  /** r is the longest beginning of s that fits and holds no control character. */
  predicate KeepsMost(r: seq<byte>, s: seq<byte>, cap: nat)
  {
    && r <= s && |r| <= cap && (forall i :: 0 <= i < |r| ==> 0x20 <= r[i] && r[i] != 0x7F)
    && (|r| < |s| ==> |r| == cap || s[|r|] < 0x20 || s[|r|] == 0x7F)
  }

  lemma RepairedKeepsMost(s: seq<byte>, cap: nat)
    ensures KeepsMost(Repaired(s, cap), s, cap)
  {
    var cut := if |s| > cap then s[..cap] else s;
    var r := PrintablePrefix(cut);
    assert r == cut[..|r|] == s[..|r|];
    hide PrintablePrefix;
  }

  /** What repair makes of each field: the longest beginning it may keep, and the default port for none. */
  lemma SanitizedMeaning(f: Fields)
    ensures var r := Sanitized(f);
            && KeepsMost(r.ssid, f.ssid, 32) && KeepsMost(r.pass, f.pass, 63) && KeepsMost(r.host, f.host, 63)
            && KeepsMost(r.token, f.token, 64) && KeepsMost(r.otaPass, f.otaPass, 63)
            && r.port == if f.port == 0 then 8765 else f.port
  {
    RepairedKeepsMost(f.ssid, MAX_SSID);
    RepairedKeepsMost(f.pass, MAX_PASS);
    RepairedKeepsMost(f.host, MAX_HOST);
    RepairedKeepsMost(f.token, MAX_TOKEN);
    RepairedKeepsMost(f.otaPass, MAX_OTA_PASS);
    hide Repaired, KeepsMost;
  }

  /** A terminated string in a buffer of cap + 1 bytes. */
  predicate Terminated(buf: seq<byte>, cap: nat)
  {
    |buf| == cap + 1 && |CString(buf)| <= cap
  }

  /** Length of a field, never reading past its capacity. */
  method FieldLen(buf: array<byte>, cap: nat) returns (len: nat)
    requires buf.Length == cap + 1
    ensures len == if |CString(buf[..])| <= cap then |CString(buf[..])| else cap
  {
    len := 0;
    while len < cap && buf[len] != 0
      invariant len <= cap
      invariant forall i :: 0 <= i < len ==> buf[i] != 0
    {
      len := len + 1;
    }
    if buf[len] == 0 {
      CStringAt(buf[..], len);
    }
  }

  /** The printable prefix ends at the first control character. */
  lemma {:induction false} PrefixEnds(s: seq<byte>, n: nat)
    requires n < |s| && IsControl(s[n]) && Printable(s[..n])
    ensures PrintablePrefix(s) == s[..n]
  {
    if n > 0 {
      assert s[..n][0] == s[0];
      assert s[1..][..n - 1] == s[..n][1..];
      PrefixEnds(s[1..], n - 1);
    }
  }

  /** Terminate an unterminated field at the last legal byte. */
  method Terminate(buf: array<byte>, cap: nat) returns (len: nat, fixed: bool)
    requires buf.Length == cap + 1
    modifies buf
    ensures len <= cap && CString(buf[..]) == old(buf[..len]) && buf[len] == 0 && |CString(buf[..])| == len
    ensures CString(buf[..]) == var s := CString(old(buf[..])); if |s| > cap then s[..cap] else s
    ensures fixed <==> !Terminated(old(buf[..]), cap)
    ensures !fixed ==> buf[..] == old(buf[..])
  {
    len := FieldLen(buf, cap);
    fixed := false;
    if buf[len] != 0 {
      buf[cap] := 0;
      fixed := true;
    }
    CStringAt(buf[..], len);
    assert buf[..][..len] == old(buf[..len]);
  }

  /** Cut a terminated field at its first control character. */
  method CutAtControl(buf: array<byte>, len: nat) returns (fixed: bool)
    requires len < buf.Length && |CString(buf[..])| == len
    modifies buf
    ensures CString(buf[..]) == PrintablePrefix(CString(old(buf[..])))
    ensures fixed <==> !Printable(CString(old(buf[..])))
    ensures !fixed ==> buf[..] == old(buf[..])
  {
    hide CString, PrintablePrefix;
    ghost var s := CString(buf[..]);
    for i := 0 to len
      invariant buf[..] == old(buf[..])
      invariant Printable(s[..i])
    {
      if IsControl(buf[i]) {
        PrefixEnds(s, i);
        buf[i] := 0;
        CStringAt(buf[..], i);
        assert buf[..][..i] == s[..i];
        return true;
      }
    }
    RepairedUnchangedIff(s, len);
    return false;
  }

  /** Repair one field in place. */
  method SanitizeField(buf: array<byte>, cap: nat) returns (fixed: bool)
    requires buf.Length == cap + 1
    modifies buf
    ensures Terminated(buf[..], cap)
    ensures CString(buf[..]) == Repaired(CString(old(buf[..])), cap)
    ensures fixed <==> !Terminated(old(buf[..]), cap) || CString(buf[..]) != CString(old(buf[..]))
    ensures !fixed ==> buf[..] == old(buf[..])
  {
    var len;
    len, fixed := Terminate(buf, cap);
    RepairedUnchangedIff(CString(buf[..]), cap);
    var cut := CutAtControl(buf, len);
    fixed := fixed || cut;
  }

  predicate AllZero(buf: seq<byte>)
  {
    forall i :: 0 <= i < |buf| ==> buf[i] == 0
  }

  /** The record itself. */
  class Record {
    const ssid: array<byte>
    const pass: array<byte>
    const host: array<byte>
    var port: uint16
    const token: array<byte>
    const otaPass: array<byte>

    ghost function Buffers(): set<object>
    {
      {ssid, pass, host, token, otaPass}
    }

    ghost predicate Shape()
    {
      && ssid.Length == MAX_SSID + 1 && pass.Length == MAX_PASS + 1 && host.Length == MAX_HOST + 1
      && token.Length == MAX_TOKEN + 1 && otaPass.Length == MAX_OTA_PASS + 1
      && pass != host && pass != otaPass && host != otaPass
    }

    ghost predicate Valid()
      reads this, Buffers()
    {
      && Shape()
      && Terminated(ssid[..], MAX_SSID) && Terminated(pass[..], MAX_PASS) && Terminated(host[..], MAX_HOST)
      && Terminated(token[..], MAX_TOKEN) && Terminated(otaPass[..], MAX_OTA_PASS)
    }

    ghost function Value(): Fields
      reads this, Buffers()
    {
      Fields(CString(ssid[..]), CString(pass[..]), CString(host[..]), port, CString(token[..]), CString(otaPass[..]))
    }

    /** Not a byte of any string is left, not even behind its terminator. */
    ghost predicate Wiped()
      reads this, Buffers()
    {
      && AllZero(ssid[..]) && AllZero(pass[..]) && AllZero(host[..]) && AllZero(token[..]) && AllZero(otaPass[..])
      && port == DEFAULT_PORT
    }

    constructor ()
      ensures Valid() && Value() == CLEARED && Wiped()
      ensures fresh(Buffers())
    {
      ssid := new byte[MAX_SSID + 1](_ => 0);
      pass := new byte[MAX_PASS + 1](_ => 0);
      host := new byte[MAX_HOST + 1](_ => 0);
      token := new byte[MAX_TOKEN + 1](_ => 0);
      otaPass := new byte[MAX_OTA_PASS + 1](_ => 0);
      port := DEFAULT_PORT;
    }

    method Clear()
      requires Shape()
      modifies this, Buffers()
      ensures Valid() && Value() == CLEARED && Wiped()
    {
      forall i | 0 <= i < ssid.Length { ssid[i] := 0; }
      forall i | 0 <= i < pass.Length { pass[i] := 0; }
      forall i | 0 <= i < host.Length { host[i] := 0; }
      forall i | 0 <= i < token.Length { token[i] := 0; }
      forall i | 0 <= i < otaPass.Length { otaPass[i] := 0; }
      port := DEFAULT_PORT;
    }

    /** Repair every field of a record that may have come from anywhere. */
    method Sanitize() returns (fixed: bool)
      requires Shape()
      modifies this, Buffers()
      ensures Valid() && Value() == Sanitized(old(Value()))
      ensures fixed <==> !old(Valid()) || old(Value()) != Value()
    {
      hide Repaired, CString;
      fixed := false;
      var f := SanitizeField(ssid, MAX_SSID);
      fixed := fixed || f;
      f := SanitizeField(pass, MAX_PASS);
      fixed := fixed || f;
      f := SanitizeField(host, MAX_HOST);
      fixed := fixed || f;
      f := SanitizeField(token, MAX_TOKEN);
      fixed := fixed || f;
      f := SanitizeField(otaPass, MAX_OTA_PASS);
      fixed := fixed || f;
      if port == 0 {
        port := DEFAULT_PORT;
        fixed := true;
      }
    }

    /** A network name is all a join attempt needs. */
    predicate Joinable()
      requires Shape()
      reads ssid
      ensures Joinable() <==> CString(ssid[..]) != []
    {
      ssid[0] != 0
    }
  }
}
