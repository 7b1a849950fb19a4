/** Payloads as lists of tagged records: what a payload means does not depend on the order of its
    records, nor on any optional ones mixed in. */
module BleTlv {
  import opened Bytes
  import opened Provision
  import opened BleFormat

  datatype Tlv = Tlv(tag: byte, value: seq<byte>)

  predicate Sized(ts: seq<Tlv>)
  {
    forall i :: 0 <= i < |ts| ==> |ts[i].value| < 256
  }

  function Flatten(ts: seq<Tlv>): seq<byte>
    requires Sized(ts)
  {
    if ts == [] then [] else [ts[0].tag, |ts[0].value|] + ts[0].value + Flatten(ts[1..])
  }

  lemma {:induction false} FlattenAppend(a: seq<Tlv>, b: seq<Tlv>)
    requires Sized(a) && Sized(b)
    ensures Sized(a + b) && Flatten(a + b) == Flatten(a) + Flatten(b)
  {
    if a == [] {
      assert a + b == b;
    } else {
      var head := [a[0].tag, |a[0].value|] + a[0].value;
      assert (a + b)[0] == a[0] && (a + b)[1..] == a[1..] + b;
      FlattenAppend(a[1..], b);
      assert head + (Flatten(a[1..]) + Flatten(b)) == head + Flatten(a[1..]) + Flatten(b);
    }
  }

  /** What one record does to the outcome so far. */
  function StepTlv(o: TlvOutcome, t: Tlv): TlvOutcome
  {
    if o.Bad? || t.tag >= OPTIONAL_TAG then o
    else if t.tag == 0 || t.tag > TAG_OTA_PASS then Bad(UnknownField)
    else if t.tag in o.seen then Bad(DuplicateField)
    else
      match StoreField(t.tag, t.value, o.fields)
      case Rejected(e) => Bad(e)
      case Kept(g) => Good(o.seen + {t.tag}, g)
  }

  function ParseList(ts: seq<Tlv>, o: TlvOutcome): TlvOutcome
    decreases |ts|
  {
    if ts == [] then o else ParseList(ts[1..], StepTlv(o, ts[0]))
  }

  lemma {:induction false} BadAbsorbs(ts: seq<Tlv>, e: Error)
    ensures ParseList(ts, Bad(e)) == Bad(e)
  {
    if ts != [] {
      BadAbsorbs(ts[1..], e);
    }
  }

  lemma {:induction false} ParseListAppend(a: seq<Tlv>, b: seq<Tlv>, o: TlvOutcome)
    ensures ParseList(a + b, o) == ParseList(b, ParseList(a, o))
    decreases |a|
  {
    if a == [] {
      assert a + b == b;
    } else {
      assert (a + b)[0] == a[0] && (a + b)[1..] == a[1..] + b;
      ParseListAppend(a[1..], b, StepTlv(o, a[0]));
    }
  }

  lemma SplitRecord(t: Tlv, rest: seq<byte>)
    requires |t.value| < 256
    ensures var p, n := [t.tag, |t.value|] + t.value + rest, |t.value|;
            p[0] == t.tag && p[1] == n && p[2..2 + n] == t.value && p[2 + n..] == rest
  {
  }

  /** Carry on with the rest of the payload, unless it is already refused. */
  function Resume(o: TlvOutcome, rest: seq<byte>): TlvOutcome
  {
    if o.Bad? then o else ParseTlv(rest, o.seen, o.fields)
  }

  /** ParseTlv, one record at a time. */
  lemma ParseRecord(t: Tlv, rest: seq<byte>, seen: set<byte>, f: Fields)
    requires |t.value| < 256
    ensures ParseTlv([t.tag, |t.value|] + t.value + rest, seen, f) ==
            Resume(StepTlv(Good(seen, f), t), rest)
  {
    SplitRecord(t, rest);
    hide StoreField;
  }

  /** Parsing bytes that begin with a list of whole records is parsing that list, then the rest. */
  lemma {:induction false} ParseFlattened(ts: seq<Tlv>, rest: seq<byte>, seen: set<byte>, f: Fields)
    requires Sized(ts)
    ensures ParseTlv(Flatten(ts) + rest, seen, f) ==
            Resume(ParseList(ts, Good(seen, f)), rest)
    decreases |ts|
  {
    hide StepTlv, ParseTlv;
    if ts == [] {
      assert Flatten(ts) + rest == rest;
    } else {
      var t := ts[0];
      assert Flatten(ts) + rest == [t.tag, |t.value|] + t.value + (Flatten(ts[1..]) + rest);
      ParseRecord(t, Flatten(ts[1..]) + rest, seen, f);
      var o := StepTlv(Good(seen, f), t);
      if o.Bad? {
        BadAbsorbs(ts[1..], o.error);
      } else {
        ParseFlattened(ts[1..], rest, o.seen, o.fields);
      }
    }
  }

  lemma ParseFlat(ts: seq<Tlv>, seen: set<byte>, f: Fields)
    requires Sized(ts)
    ensures ParseTlv(Flatten(ts), seen, f) == ParseList(ts, Good(seen, f))
  {
    ParseFlattened(ts, [], seen, f);
    assert Flatten(ts) + [] == Flatten(ts);
  }

  lemma FirstRecord(p: seq<byte>, seen: set<byte>, f: Fields)
    requires p != [] && ParseTlv(p, seen, f).Good?
    ensures |p| >= 2 && |p| >= 2 + p[1] as int
    ensures var t, rest := Tlv(p[0], p[2..2 + p[1] as int]), p[2 + p[1] as int..];
            && p == [t.tag, |t.value|] + t.value + rest
            && StepTlv(Good(seen, f), t).Good?
            && ParseTlv(rest, StepTlv(Good(seen, f), t).seen, StepTlv(Good(seen, f), t).fields).Good?
  {
    hide StoreField;
  }

  lemma FlattenCons(t: Tlv, ts: seq<Tlv>)
    requires Sized(ts) && |t.value| < 256
    ensures Sized([t] + ts) && Flatten([t] + ts) == [t.tag, |t.value|] + t.value + Flatten(ts)
  {
    assert ([t] + ts)[1..] == ts;
  }

  /** Every payload that parses is a list of whole records. */
  lemma {:induction false} Unflatten(p: seq<byte>, seen: set<byte>, f: Fields) returns (ts: seq<Tlv>)
    requires ParseTlv(p, seen, f).Good?
    ensures Sized(ts) && p == Flatten(ts)
    decreases |p|
  {
    if p == [] {
      ts := [];
    } else {
      hide ParseTlv, StepTlv, Flatten, Sized;
      FirstRecord(p, seen, f);
      var n := p[1] as int;
      var t, rest := Tlv(p[0], p[2..2 + n]), p[2 + n..];
      var s := StepTlv(Good(seen, f), t);
      var tail := Unflatten(rest, s.seen, s.fields);
      FlattenCons(t, tail);
      ts := [t] + tail;
    }
  }

  // --- optional records ---

  /** The records a decoder must understand. */
  function Mandatory(ts: seq<Tlv>): (r: seq<Tlv>)
    ensures forall i :: 0 <= i < |r| ==> r[i].tag < OPTIONAL_TAG
    ensures Sized(ts) ==> Sized(r)
    ensures forall t :: t in r <==> t in ts && t.tag < OPTIONAL_TAG
  {
    if ts == [] then [] else (if ts[0].tag < OPTIONAL_TAG then [ts[0]] else []) + Mandatory(ts[1..])
  }

  lemma {:induction false} OptionalIgnored(ts: seq<Tlv>, o: TlvOutcome)
    ensures ParseList(ts, o) == ParseList(Mandatory(ts), o)
    decreases |ts|
  {
    if ts != [] {
      OptionalIgnored(ts[1..], StepTlv(o, ts[0]));
      if ts[0].tag < OPTIONAL_TAG {
        assert Mandatory(ts)[1..] == Mandatory(ts[1..]);
      } else {
        assert Mandatory(ts) == Mandatory(ts[1..]);
      }
    }
  }

  lemma {:induction false} AllOptional(ts: seq<Tlv>, o: TlvOutcome)
    requires forall i :: 0 <= i < |ts| ==> ts[i].tag >= OPTIONAL_TAG
    ensures ParseList(ts, o) == o
    decreases |ts|
  {
    if ts != [] {
      assert StepTlv(o, ts[0]) == o;
      AllOptional(ts[1..], o);
    }
  }

  /** Optional records may be inserted at any record boundary of any payload, well formed or not:
      the verdict, error included, stays the same. */
  lemma OptionalRecordsChangeNothing(pre: seq<Tlv>, extra: seq<Tlv>, rest: seq<byte>)
    requires Sized(pre) && Sized(extra)
    requires forall i :: 0 <= i < |extra| ==> extra[i].tag >= OPTIONAL_TAG
    ensures ParsePayload(Flatten(pre) + Flatten(extra) + rest) == ParsePayload(Flatten(pre) + rest)
  {
    hide ParseTlv, ParseList, StepTlv, Flatten, Verdict;
    ParseFlattened(pre, Flatten(extra) + rest, {}, CLEARED);
    ParseFlattened(pre, rest, {}, CLEARED);
    assert Flatten(pre) + Flatten(extra) + rest == Flatten(pre) + (Flatten(extra) + rest);
    var o := ParseList(pre, Good({}, CLEARED));
    if o.Good? {
      ParseFlattened(extra, rest, o.seen, o.fields);
      AllOptional(extra, o);
    }
  }

  // --- order ---

  /** A record no decoder that knows the six fields would refuse on its own. */
  predicate Legal(t: Tlv)
  {
    || t.tag >= 0x80
    || (t.tag == 1 && 1 <= |t.value| <= 32 && Printable(t.value))
    || (t.tag == 2 && (t.value == [] || 8 <= |t.value| <= 63) && Printable(t.value))
    || (t.tag == 3 && |t.value| <= 63 && Printable(t.value))
    || (t.tag == 4 && |t.value| == 2 && t.value != [0, 0])
    || (t.tag == 5 && |t.value| <= 64 && Printable(t.value))
    || (t.tag == 6 && |t.value| <= 63 && Printable(t.value))
  }

  predicate AllLegal(ts: seq<Tlv>)
  {
    forall t :: t in ts ==> Legal(t)
  }

  /** No mandatory tag twice. */
  predicate Distinct(ts: seq<Tlv>)
  {
    forall i, j :: 0 <= i < j < |ts| && ts[i].tag < OPTIONAL_TAG ==> ts[i].tag != ts[j].tag
  }

  /** The record's field carries what t says. */
  predicate Carries(f: Fields, t: Tlv)
  {
    && (t.tag == TAG_SSID ==> f.ssid == t.value)
    && (t.tag == TAG_PASS ==> f.pass == t.value)
    && (t.tag == TAG_HOST ==> f.host == t.value)
    && (t.tag == TAG_PORT ==> |t.value| == 2 && f.port == FromLe16(t.value[0], t.value[1]))
    && (t.tag == TAG_TOKEN ==> f.token == t.value)
    && (t.tag == TAG_OTA_PASS ==> f.otaPass == t.value)
  }

  /** Fields no record names keep the value of a cleared record. */
  predicate Untouched(f: Fields, tag: byte)
  {
    && (tag == TAG_SSID ==> f.ssid == CLEARED.ssid)
    && (tag == TAG_PASS ==> f.pass == CLEARED.pass)
    && (tag == TAG_HOST ==> f.host == CLEARED.host)
    && (tag == TAG_PORT ==> f.port == CLEARED.port)
    && (tag == TAG_TOKEN ==> f.token == CLEARED.token)
    && (tag == TAG_OTA_PASS ==> f.otaPass == CLEARED.otaPass)
  }

  predicate HasTag(ts: seq<Tlv>, tag: byte)
  {
    exists t :: t in ts && t.tag == tag
  }

  /** f is the record the list describes. */
  predicate Describes(ts: seq<Tlv>, f: Fields)
  {
    && (forall t :: t in ts ==> Carries(f, t))
    && (forall tag: byte :: TAG_SSID <= tag <= TAG_OTA_PASS && !HasTag(ts, tag) ==> Untouched(f, tag))
  }

  predicate Saw(ts: seq<Tlv>, seen: set<byte>)
  {
    forall tag: byte :: tag in seen <==> tag < OPTIONAL_TAG && HasTag(ts, tag)
  }

  lemma StoreMeaning(t: Tlv, f: Fields)
    requires TAG_SSID <= t.tag <= TAG_OTA_PASS
    ensures StoreField(t.tag, t.value, f).Kept? <==> Legal(t)
    ensures StoreField(t.tag, t.value, f).Kept? ==>
              var g := StoreField(t.tag, t.value, f).fields;
              && Carries(g, t)
              && (forall u: Tlv :: u.tag != t.tag && Carries(f, u) ==> Carries(g, u))
              && (forall tag: byte :: tag != t.tag && Untouched(f, tag) ==> Untouched(g, tag))
  {
  }

  /** Each fault of a mandatory field, and exactly when it is answered: a control character goes first. */
  lemma FieldFaults(t: Tlv, f: Fields)
    requires TAG_SSID <= t.tag <= TAG_OTA_PASS && !Legal(t)
    ensures StoreField(t.tag, t.value, f).Rejected?
    ensures var e, text := StoreField(t.tag, t.value, f).error, t.tag != 4 && Printable(t.value);
            && (e == ControlChar <==> t.tag != 4 && !text)
            && (e == FieldEmpty <==> t.tag == 1 && t.value == [])
            && (e == PassTooShort <==> t.tag == 2 && text && |t.value| < 8)
            && (e == BadPort <==> t.tag == 4)
            && (e == FieldTooLong <==> text && |t.value| >= 8)
  {
  }

  lemma HasTagAppend(init: seq<Tlv>, last: Tlv)
    ensures forall t :: t in init + [last] <==> t in init || t == last
    ensures forall tag: byte :: HasTag(init + [last], tag) <==> HasTag(init, tag) || tag == last.tag
  {
    var ts := init + [last];
    forall tag: byte ensures HasTag(ts, tag) <==> HasTag(init, tag) || tag == last.tag {
      if tag == last.tag {
        assert ts[|init|] == last && last in ts;
      }
      if HasTag(init, tag) {
        var t :| t in init && t.tag == tag;
        assert t in ts;
      }
    }
  }

  lemma DistinctAppend(init: seq<Tlv>, last: Tlv)
    requires Distinct(init)
    ensures Distinct(init + [last]) <==> last.tag >= OPTIONAL_TAG || !HasTag(init, last.tag)
  {
    var ts := init + [last];
    if last.tag < OPTIONAL_TAG && HasTag(init, last.tag) {
      var t :| t in init && t.tag == last.tag;
      var i :| 0 <= i < |init| && init[i] == t;
      assert ts[i] == t && ts[|init|] == last;
    } else {
      forall i, j | 0 <= i < j < |ts| && ts[i].tag < OPTIONAL_TAG
        ensures ts[i].tag != ts[j].tag
      {
        assert ts[i] == init[i] && init[i] in init;
      }
    }
  }

  lemma OptionalCarries(f: Fields, t: Tlv)
    requires t.tag >= OPTIONAL_TAG
    ensures Carries(f, t)
  {
  }

  lemma ParseLast(init: seq<Tlv>, last: Tlv, seen: set<byte>, f: Fields)
    requires AllLegal(init) && Distinct(init) && Describes(init, f)
    requires Saw(init, seen)
    ensures var o := StepTlv(Good(seen, f), last);
            && (o.Good? <==> AllLegal(init + [last]) && Distinct(init + [last]))
            && (o.Good? ==> Describes(init + [last], o.fields) && Saw(init + [last], o.seen))
  {
    HasTagAppend(init, last);
    DistinctAppend(init, last);
    hide StoreField, Carries, Untouched, Distinct;
    if last.tag < OPTIONAL_TAG {
      if TAG_SSID <= last.tag <= TAG_OTA_PASS {
        StoreMeaning(last, f);
        if last.tag !in seen && Legal(last) {
          forall t | t in init ensures t.tag != last.tag {
            assert HasTag(init, t.tag);
          }
        }
      } else {
        assert !Legal(last);
      }
    } else {
      OptionalCarries(f, last);
    }
  }

  /** What a list of legal, distinct records parses to, and that nothing else parses. */
  lemma {:induction false} ParseListMeaning(ts: seq<Tlv>)
    ensures var o := ParseList(ts, Good({}, CLEARED));
            && (o.Good? <==> AllLegal(ts) && Distinct(ts))
            && (o.Good? ==> Describes(ts, o.fields) && Saw(ts, o.seen))
    decreases |ts|
  {
    if ts != [] {
      var last, init := ts[|ts| - 1], ts[..|ts| - 1];
      assert ts == init + [last];
      ParseListMeaning(init);
      ParseListAppend(init, [last], Good({}, CLEARED));
      var before := ParseList(init, Good({}, CLEARED));
      assert ParseList([last], before) == StepTlv(before, last);
      if before.Bad? {
        assert !AllLegal(ts) || !Distinct(ts) by {
          if !AllLegal(init) {
            var t :| t in init && !Legal(t);
            assert t in ts;
          } else {
            var i, j :| 0 <= i < j < |init| && init[i].tag < OPTIONAL_TAG && init[i].tag == init[j].tag;
            assert ts[i] == init[i] && ts[j] == init[j];
          }
        }
      } else {
        ParseLast(init, last, before.seen, before.fields);
      }
    }
  }

  // --- what is refused, and why ---

  lemma LegalStart(ts: seq<Tlv>, rest: seq<byte>)
    requires Sized(ts) && AllLegal(ts) && Distinct(ts)
    ensures var o := ParseList(ts, Good({}, CLEARED));
            o.Good? && Saw(ts, o.seen) && ParseTlv(Flatten(ts) + rest, {}, CLEARED) == ParseTlv(rest, o.seen, o.fields)
  {
    ParseListMeaning(ts);
    ParseFlattened(ts, rest, {}, CLEARED);
    hide AllLegal, Distinct, ParseTlv, ParseList, Saw, Describes;
  }

  lemma SameFault(t: Tlv, f: Fields)
    requires TAG_SSID <= t.tag <= TAG_OTA_PASS && !Legal(t)
    ensures StoreField(t.tag, t.value, CLEARED).Rejected?
    ensures StoreField(t.tag, t.value, f) == StoreField(t.tag, t.value, CLEARED)
  {
  }

  /** The first record that cannot be taken decides: an unknown tag, a mandatory one met before, or its own fault. */
  lemma FirstFault(ts: seq<Tlv>, t: Tlv, more: seq<byte>)
    requires Sized(ts) && AllLegal(ts) && Distinct(ts) && |t.value| < 256
    ensures var r := ParsePayload(Flatten(ts) + ([t.tag, |t.value|] + t.value + more));
            && (t.tag == 0 || 6 < t.tag < 0x80 ==> r == Refused(UnknownField))
            && (1 <= t.tag <= 6 && HasTag(ts, t.tag) ==> r == Refused(DuplicateField))
            && (1 <= t.tag <= 6 && !HasTag(ts, t.tag) && !Legal(t) ==>
                  StoreField(t.tag, t.value, CLEARED).Rejected?
                  && r == Refused(StoreField(t.tag, t.value, CLEARED).error))
  {
    var o := ParseList(ts, Good({}, CLEARED));
    LegalStart(ts, [t.tag, |t.value|] + t.value + more);
    ParseRecord(t, more, o.seen, o.fields);
    hide ParseList, ParseTlv, Flatten, AllLegal, Distinct;
    if 1 <= t.tag <= 6 && !Legal(t) {
      SameFault(t, o.fields);
      hide StoreField, Legal;
    }
  }

  /** Bytes that are no whole record are malformed. */
  lemma CutRecord(ts: seq<Tlv>, q: seq<byte>)
    requires Sized(ts) && AllLegal(ts) && Distinct(ts)
    requires q != [] && (|q| < 2 || |q| < 2 + q[1] as int)
    ensures ParsePayload(Flatten(ts) + q) == Refused(MalformedTlv)
  {
    LegalStart(ts, q);
    hide ParseList, Flatten, AllLegal, Distinct, StoreField;
  }

  /** Legal records without a network name are refused for that, and only for that. */
  lemma NoNetworkName(ts: seq<Tlv>)
    requires Sized(ts) && AllLegal(ts) && Distinct(ts)
    ensures ParsePayload(Flatten(ts)) == Refused(MissingSsid) <==> !HasTag(ts, TAG_SSID)
    ensures ParsePayload(Flatten(ts)).Accepted? <==> HasTag(ts, TAG_SSID)
  {
    LegalStart(ts, []);
    assert Flatten(ts) + [] == Flatten(ts);
    PayloadVerdict(Flatten(ts));
    hide ParseList, Flatten, AllLegal, Distinct, StoreField, Sanitized;
  }

  predicate SameField(f: Fields, g: Fields, tag: byte)
  {
    && (tag == TAG_SSID ==> f.ssid == g.ssid)
    && (tag == TAG_PASS ==> f.pass == g.pass)
    && (tag == TAG_HOST ==> f.host == g.host)
    && (tag == TAG_PORT ==> f.port == g.port)
    && (tag == TAG_TOKEN ==> f.token == g.token)
    && (tag == TAG_OTA_PASS ==> f.otaPass == g.otaPass)
  }

  lemma SameAt(a: seq<Tlv>, b: seq<Tlv>, f: Fields, g: Fields, tag: byte)
    requires forall t: Tlv :: t.tag < OPTIONAL_TAG ==> (t in a <==> t in b)
    requires Describes(a, f) && Describes(b, g) && TAG_SSID <= tag <= TAG_OTA_PASS
    ensures SameField(f, g, tag)
  {
    if HasTag(a, tag) {
      var t :| t in a && t.tag == tag;
      assert Carries(f, t) && t in b && Carries(g, t);
    } else {
      assert !HasTag(b, tag);
      assert Untouched(f, tag) && Untouched(g, tag);
    }
  }

  /** A list describes at most one record. */
  lemma DescribesUnique(a: seq<Tlv>, b: seq<Tlv>, f: Fields, g: Fields)
    requires forall t: Tlv :: t.tag < OPTIONAL_TAG ==> (t in a <==> t in b)
    requires Describes(a, f) && Describes(b, g)
    ensures f == g
  {
    SameAt(a, b, f, g, TAG_SSID);
    SameAt(a, b, f, g, TAG_PASS);
    SameAt(a, b, f, g, TAG_HOST);
    SameAt(a, b, f, g, TAG_PORT);
    SameAt(a, b, f, g, TAG_TOKEN);
    SameAt(a, b, f, g, TAG_OTA_PASS);
  }

  lemma CountTwice(ts: seq<Tlv>, i: nat, j: nat)
    requires i < j < |ts| && ts[i] == ts[j]
    ensures multiset(ts)[ts[i]] >= 2
  {
    assert ts == ts[..j] + ts[j..];
    assert ts[i] in ts[..j] && ts[j] in ts[j..];
  }

  lemma CountOne(ts: seq<Tlv>, t: Tlv) returns (i: nat, j: nat)
    requires multiset(ts)[t] >= 2
    ensures i < j < |ts| && ts[i] == t && ts[j] == t
  {
    assert t in multiset(ts);
    i :| 0 <= i < |ts| && ts[i] == t;
    assert ts == ts[..i] + [ts[i]] + ts[i + 1..];
    if t in ts[..i] {
      j := i;
      i :| 0 <= i < |ts[..j]| && ts[..j][i] == t;
    } else {
      assert multiset(ts[..i])[t] == 0;
      assert t in ts[i + 1..];
      var k :| 0 <= k < |ts[i + 1..]| && ts[i + 1..][k] == t;
      j := i + 1 + k;
    }
  }

  lemma DistinctByCount(a: seq<Tlv>, b: seq<Tlv>)
    requires multiset(a) == multiset(b) && Distinct(a)
    ensures Distinct(b)
  {
    if i, j :| 0 <= i < j < |b| && b[i].tag < OPTIONAL_TAG && b[i].tag == b[j].tag {
      assert b[i] in multiset(b) && b[j] in multiset(b);
      if b[i] == b[j] {
        CountTwice(b, i, j);
        var x, y := CountOne(a, b[i]);
      }
      assert false;
    }
  }

  /** Two payloads with the same mandatory records, in any order and with any optional records among
      them, are accepted alike and then decode to the same record. */
  lemma OrderIrrelevant(a: seq<Tlv>, b: seq<Tlv>)
    requires Sized(a) && Sized(b)
    requires multiset(Mandatory(a)) == multiset(Mandatory(b))
    ensures ParseTlv(Flatten(a), {}, CLEARED).Good? <==> ParseTlv(Flatten(b), {}, CLEARED).Good?
    ensures ParseTlv(Flatten(a), {}, CLEARED).Good? ==> ParsePayload(Flatten(a)) == ParsePayload(Flatten(b))
  {
    var ma, mb := Mandatory(a), Mandatory(b);
    ParseFlat(a, {}, CLEARED);
    ParseFlat(b, {}, CLEARED);
    OptionalIgnored(a, Good({}, CLEARED));
    OptionalIgnored(b, Good({}, CLEARED));
    ParseListMeaning(ma);
    ParseListMeaning(mb);
    forall t ensures t in ma <==> t in mb {
      assert t in ma <==> t in multiset(ma);
      assert t in mb <==> t in multiset(mb);
    }
    if Distinct(ma) { DistinctByCount(ma, mb); }
    if Distinct(mb) { DistinctByCount(mb, ma); }
    var oa, ob := ParseList(ma, Good({}, CLEARED)), ParseList(mb, Good({}, CLEARED));
    assert AllLegal(ma) <==> AllLegal(mb);
    if oa.Good? {
      DescribesUnique(ma, mb, oa.fields, ob.fields);
      assert HasTag(ma, TAG_SSID) <==> HasTag(mb, TAG_SSID);
    }
  }

  lemma {:induction false} MandatoryMultiset(ts: seq<Tlv>, t: Tlv)
    ensures multiset(Mandatory(ts))[t] == if t.tag < OPTIONAL_TAG then multiset(ts)[t] else 0
  {
    if ts != [] {
      MandatoryMultiset(ts[1..], t);
      assert ts == [ts[0]] + ts[1..];
    }
  }

  lemma MandatoryCount(a: seq<Tlv>, b: seq<Tlv>)
    requires multiset(a) == multiset(b)
    ensures multiset(Mandatory(a)) == multiset(Mandatory(b))
  {
    forall t ensures multiset(Mandatory(a))[t] == multiset(Mandatory(b))[t] {
      MandatoryMultiset(a, t);
      MandatoryMultiset(b, t);
    }
  }

  /** The same, for the payload of any accepted transfer: every reordering of its records is
      accepted with the same record. */
  lemma PermutationAccepted(p: seq<byte>) returns (ts: seq<Tlv>)
    requires ParsePayload(p).Accepted?
    ensures Sized(ts) && p == Flatten(ts)
    ensures forall us: seq<Tlv> | Sized(us) && multiset(us) == multiset(ts)
              :: ParsePayload(Flatten(us)) == ParsePayload(p)
  {
    ts := Unflatten(p, {}, CLEARED);
    forall us: seq<Tlv> | Sized(us) && multiset(us) == multiset(ts)
      ensures ParsePayload(Flatten(us)) == ParsePayload(p)
    {
      MandatoryCount(us, ts);
      OrderIrrelevant(ts, us);
    }
  }
}
