/** What it means for bytes to parse as a message: which bytes stand for which field, for any datagram. */
module DnsParse {
  import opened Bytes
  import opened DnsName
  import opened DnsMessage

  /** Only the fields of its type are filled in. */
  predicate OwnFields(r: Record)
  {
    && (r.rtype != TYPE_A ==> r.ip == [])
    && (r.rtype != TYPE_PTR && r.rtype != TYPE_SRV ==> r.target == [])
    && (r.rtype != TYPE_SRV ==> r.prio == 0 && r.weight == 0 && r.port == 0)
    && (r.rtype != TYPE_TXT ==> r.txt == [])
    && (r.rtype in [TYPE_A, TYPE_PTR, TYPE_SRV, TYPE_TXT] ==> r.rdata == [])
  }

  predicate Short(txt: seq<seq<byte>>)
  {
    forall i :: 0 <= i < |txt| ==> |txt[i]| <= MAX_TXT_STRING
  }

  /** The n bytes at off are the payload of r: an address of four bytes, a name, three numbers and a name, strings that
      fill the payload exactly, or whatever stands there. */
  ghost predicate Carries(msg: seq<byte>, off: nat, n: nat, r: Record)
  {
    && off + n <= |msg|
    && if r.rtype == TYPE_A then n == 4 && |r.ip| == 4 && Holds(msg, off, r.ip)
       else if r.rtype == TYPE_PTR then exists end :: Decode(msg, off) == Ok((r.target, end))
       else if r.rtype == TYPE_SRV then
         && n >= 7 && Holds(msg, off, Be16(r.prio)) && Holds(msg, off + 2, Be16(r.weight))
         && Holds(msg, off + 4, Be16(r.port)) && exists end :: Decode(msg, off + 6) == Ok((r.target, end))
       else if r.rtype == TYPE_TXT then |Strings(r.txt)| == n && Holds(msg, off, Strings(r.txt)) && Short(r.txt)
       else |r.rdata| == n && Holds(msg, off, r.rdata)
  }

  lemma U16Iff(msg: seq<byte>, at: nat, n: uint16)
    requires at + 2 <= |msg|
    ensures U16(msg, at) == n <==> Holds(msg, at, Be16(n))
  {
    if U16(msg, at) == n {
      assert Be16(n) == [msg[at], msg[at + 1]];
    }
    if Holds(msg, at, Be16(n)) {
      ReadU16(msg, at, n);
    }
  }

  lemma BytesOf32(a: byte, b: byte, c: byte, d: byte)
    ensures Be32(FromBe32(a, b, c, d)) == [a, b, c, d]
  {
    var hi: int, lo: int := FromBe16(a, b), FromBe16(c, d);
    assert Be16(hi) == [a, b] && Be16(lo) == [c, d];
    var n: int := FromBe32(a, b, c, d);
    assert n == 0x1_0000 * hi + lo;
    hide Be16, FromBe16, FromBe32;
    assert n / 0x1_0000 == hi && n % 0x1_0000 == lo;
  }

  lemma U32Iff(msg: seq<byte>, at: nat, n: uint32)
    requires at + 4 <= |msg|
    ensures U32(msg, at) == n <==> Holds(msg, at, Be32(n))
  {
    if U32(msg, at) == n {
      BytesOf32(msg[at], msg[at + 1], msg[at + 2], msg[at + 3]);
      hide Be32, FromBe32;
      assert Be32(n) == [msg[at], msg[at + 1], msg[at + 2], msg[at + 3]];
    }
    if Holds(msg, at, Be32(n)) {
      ReadU32(msg, at, n);
    }
  }

  lemma HoldsOne(msg: seq<byte>, p: nat, l: nat, rest: seq<byte>)
    requires p + 1 + l <= |msg| && l < 256 && msg[p] == l && Holds(msg, p + 1 + l, rest)
    ensures Holds(msg, p, [l] + msg[p + 1..p + 1 + l] + rest)
  {
  }

  /** Strings that were read fill their payload exactly. */
  lemma {:induction false} StringsRead(msg: seq<byte>, p: nat, end: nat, done: seq<seq<byte>>)
    returns (txt: seq<seq<byte>>)
    requires p <= end <= |msg| && DecodeStrings(msg, p, end, done).Ok?
    ensures DecodeStrings(msg, p, end, done) == Ok(done + txt)
    ensures p + |Strings(txt)| == end && Holds(msg, p, Strings(txt)) && Short(txt)
    decreases end - p
  {
    if p == end {
      txt := [];
      assert done + [] == done;
    } else {
      var l := msg[p] as nat;
      var s := msg[p + 1..p + 1 + l];
      var rest := StringsRead(msg, p + 1 + l, end, done + [s]);
      txt := [s] + rest;
      assert txt[1..] == rest;
      assert Strings(txt) == [l] + s + Strings(rest);
      HoldsOne(msg, p, l, Strings(rest));
      assert done + [s] + rest == done + txt;
    }
  }

  lemma {:induction false} BadStrings(msg: seq<byte>, p: nat, end: nat, done: seq<seq<byte>>)
    requires end <= |msg|
    ensures DecodeStrings(msg, p, end, done).Err? ==> DecodeStrings(msg, p, end, done) == Err(BadRecord)
    decreases end - p
  {
    if p < end && p + 1 + msg[p] <= end {
      BadStrings(msg, p + 1 + msg[p], end, done + [msg[p + 1..p + 1 + msg[p]]]);
    }
  }

  lemma TextIff(msg: seq<byte>, off: nat, n: nat, txt: seq<seq<byte>>)
    requires off + n <= |msg|
    ensures DecodeStrings(msg, off, off + n, []) == Ok(txt)
            <==> |Strings(txt)| == n && Holds(msg, off, Strings(txt)) && Short(txt)
  {
    if DecodeStrings(msg, off, off + n, []).Ok? {
      var t := StringsRead(msg, off, off + n, []);
      assert [] + t == t;
    }
    if |Strings(txt)| == n && Holds(msg, off, Strings(txt)) && Short(txt) {
      StringsRoundTrip(msg, off, txt, []);
      assert [] + txt == txt;
    }
  }

  lemma BytesIff(msg: seq<byte>, off: nat, n: nat, b: seq<byte>)
    requires off + n <= |msg|
    ensures msg[off..off + n] == b <==> |b| == n && Holds(msg, off, b)
  {
    if |b| == n && Holds(msg, off, b) {
      HoldsSlice(msg, off, b);
    }
  }

  /** A payload is read as r exactly when it carries r, over the fields read before it. */
  lemma RdataIff(msg: seq<byte>, off: nat, n: nat, r: Record)
    ensures DecodeRdata(msg, Blank(r.name, r.rtype, r.rclass, r.ttl), off, n) == Ok(r)
            <==> OwnFields(r) && Carries(msg, off, n, r)
  {
    if off + n <= |msg| {
      BytesIff(msg, off, n, r.ip);
      BytesIff(msg, off, n, r.rdata);
      TextIff(msg, off, n, r.txt);
      hide Decode, Strings, DecodeStrings, Holds, Be16, Short;
      if r.rtype == TYPE_SRV && n >= 7 {
        U16Iff(msg, off, r.prio);
        U16Iff(msg, off + 2, r.weight);
        U16Iff(msg, off + 4, r.port);
        hide U16;
      }
    }
  }

  /** Which error a payload is refused with. */
  lemma RdataErrors(msg: seq<byte>, b: Record, off: nat, n: nat)
    requires DecodeRdata(msg, b, off, n).Err?
    ensures var e := DecodeRdata(msg, b, off, n).error;
            var target := Decode(msg, if b.rtype == TYPE_SRV then off + 6 else off);
            && (off + n > |msg| ==> e == ShortMessage)
            && (off + n <= |msg| && (b.rtype == TYPE_A || b.rtype == TYPE_TXT || (b.rtype == TYPE_SRV && n < 7)) ==>
                  e == BadRecord)
            && (off + n <= |msg| && (b.rtype == TYPE_PTR || (b.rtype == TYPE_SRV && n >= 7)) ==> target == Err(e))
  {
    if off + n <= |msg| {
      BadStrings(msg, off, off + n, []);
      hide Decode, DecodeStrings;
    }
  }

  /** An address of four bytes, or one of sixteen that maps four: ten zeros, two bytes of ones, and the four. */
  lemma MappedIff(ip: seq<byte>, v: seq<byte>)
    ensures To4(ip) == Some(v) <==> |v| == 4 && (ip == v || ip == Zeros(10) + [0xFF, 0xFF] + v)
  {
    if |ip| == 16 && ip[..10] == Zeros(10) && ip[10] == 255 && ip[11] == 255 {
      assert ip == ip[..10] + [ip[10], ip[11]] + ip[12..];
    }
    if |v| == 4 && ip == Zeros(10) + [0xFF, 0xFF] + v {
      assert ip[..10] == Zeros(10) && ip[12..] == v;
    }
  }

  // --- records and questions ---

  /** A record at off: its name, its type, class, time to live and payload length, and its payload. */
  ghost predicate RecordParts(msg: seq<byte>, off: nat, r: Record, at: nat, n: uint16)
  {
    && Decode(msg, off) == Ok((r.name, at))
    && Holds(msg, at, Be16(r.rtype)) && Holds(msg, at + 2, Be16(r.rclass)) && Holds(msg, at + 4, Be32(r.ttl))
    && Holds(msg, at + 8, Be16(n)) && OwnFields(r) && Carries(msg, at + 10, n, r)
  }

  ghost predicate RecordAt(msg: seq<byte>, off: nat, r: Record, next: nat)
  {
    exists at: nat, n: uint16 :: RecordParts(msg, off, r, at, n) && next == at + 10 + n
  }

  lemma PartsDecode(msg: seq<byte>, off: nat, r: Record, at: nat, n: uint16)
    requires Decode(msg, off).Ok? && Decode(msg, off).value == (r.name, at) && at + 10 <= |msg|
    ensures RecordParts(msg, off, r, at, n)
            <==> U16(msg, at) == r.rtype && U16(msg, at + 2) == r.rclass && U32(msg, at + 4) == r.ttl
                 && U16(msg, at + 8) == n
                 && DecodeRdata(msg, Blank(r.name, r.rtype, r.rclass, r.ttl), at + 10, n) == Ok(r)
  {
    U16Iff(msg, at, r.rtype);
    U16Iff(msg, at + 2, r.rclass);
    U32Iff(msg, at + 4, r.ttl);
    U16Iff(msg, at + 8, n);
    RdataIff(msg, at + 10, n, r);
    hide Decode, DecodeRdata, U16, U32, Holds, Be16, Be32, OwnFields, Carries;
  }

  lemma RdataKeepsHead(msg: seq<byte>, b: Record, off: nat, n: nat)
    ensures DecodeRdata(msg, b, off, n).Ok? ==>
              var r := DecodeRdata(msg, b, off, n).value;
              r.name == b.name && r.rtype == b.rtype && r.rclass == b.rclass && r.ttl == b.ttl
  {
    hide Decode, DecodeStrings;
  }

  lemma TwoBytes(n: uint16)
    ensures |Be16(n)| == 2
  {
  }

  lemma CarriesInside(msg: seq<byte>, off: nat, n: nat, r: Record)
    requires Carries(msg, off, n, r)
    ensures off + n <= |msg|
  {
  }

  lemma RecordDecodes(msg: seq<byte>, off: nat, r: Record, at: nat, n: uint16)
    requires RecordParts(msg, off, r, at, n)
    ensures DecodeRecord(msg, off) == Ok((r, at + 10 + n))
  {
    hide Decode, DecodeRdata, OwnFields, Carries, Be16, Be32;
    HoldsInside(msg, at + 8, Be16(n));
    CarriesInside(msg, at + 10, n, r);
    TwoBytes(n);
    PartsDecode(msg, off, r, at, n);
    AssembleRecord(msg, off, r.name, at, n, r);
  }

  /** A record is read exactly when the bytes say it. */
  lemma RecordIff(msg: seq<byte>, off: nat, r: Record, next: nat)
    ensures DecodeRecord(msg, off) == Ok((r, next)) <==> RecordAt(msg, off, r, next)
  {
    hide Decode, RecordParts, DecodeRdata, U16, U32;
    if RecordAt(msg, off, r, next) {
      var at: nat, n: uint16 :| RecordParts(msg, off, r, at, n) && next == at + 10 + n;
      RecordDecodes(msg, off, r, at, n);
    }
    if DecodeRecord(msg, off) == Ok((r, next)) {
      var (name, at) := Decode(msg, off).value;
      var n := U16(msg, at + 8);
      RdataKeepsHead(msg, Blank(name, U16(msg, at), U16(msg, at + 2), U32(msg, at + 4)), at + 10, n);
      PartsDecode(msg, off, r, at, n);
      assert RecordParts(msg, off, r, at, n);
    }
  }

  ghost predicate QuestionAt(msg: seq<byte>, off: nat, q: Question, next: nat)
  {
    exists at: nat ::
      && Decode(msg, off) == Ok((q.name, at)) && next == at + 4
      && Holds(msg, at, Be16(q.qtype)) && Holds(msg, at + 2, Be16(q.qclass))
  }

  lemma HoldsTwo(msg: seq<byte>, at: nat, n: uint16)
    ensures Holds(msg, at, Be16(n)) ==> at + 2 <= |msg|
  {
  }

  lemma QuestionIff(msg: seq<byte>, off: nat, q: Question, next: nat)
    ensures DecodeQuestion(msg, off) == Ok((q, next)) <==> QuestionAt(msg, off, q, next)
  {
    hide Decode, Holds, Be16, U16;
    if Decode(msg, off).Ok? {
      var (name, at) := Decode(msg, off).value;
      if at + 4 <= |msg| {
        U16Iff(msg, at, q.qtype);
        U16Iff(msg, at + 2, q.qclass);
      } else {
        HoldsTwo(msg, at + 2, q.qclass);
      }
    }
  }

  /** A record is refused for its name, for being cut short, or for its payload. */
  lemma RecordErrors(msg: seq<byte>, off: nat)
    requires DecodeRecord(msg, off).Err?
    ensures var e, name := DecodeRecord(msg, off).error, Decode(msg, off);
            && (name.Err? ==> e == name.error)
            && (name.Ok? ==>
                  var at := name.value.1;
                  && (at + 10 > |msg| || at + 10 + U16(msg, at + 8) > |msg| ==> e == ShortMessage)
                  && (at + 10 <= |msg| && at + 10 + U16(msg, at + 8) <= |msg| ==>
                        DecodeRdata(msg, Blank(name.value.0, U16(msg, at), U16(msg, at + 2), U32(msg, at + 4)), at + 10,
                                    U16(msg, at + 8)) == Err(e)))
  {
    hide Decode, DecodeRdata, U16, U32;
  }

  /** A question is refused for its name, or for being cut short. */
  lemma QuestionErrors(msg: seq<byte>, off: nat)
    requires DecodeQuestion(msg, off).Err?
    ensures var e, name := DecodeQuestion(msg, off).error, Decode(msg, off);
            e == if name.Err? then name.error else ShortMessage
  {
    hide Decode;
  }

  // --- sections ---

  ghost predicate RecordsAt(msg: seq<byte>, off: nat, rs: seq<Record>, next: nat)
    decreases |rs|
  {
    if rs == [] then next == off
    else exists mid: nat :: RecordAt(msg, off, rs[0], mid) && RecordsAt(msg, mid, rs[1..], next)
  }

  ghost predicate QuestionsAt(msg: seq<byte>, off: nat, qs: seq<Question>, next: nat)
    decreases |qs|
  {
    if qs == [] then next == off
    else exists mid: nat :: QuestionAt(msg, off, qs[0], mid) && QuestionsAt(msg, mid, qs[1..], next)
  }

  lemma {:induction false} RecordsRead(msg: seq<byte>, off: nat, rs: seq<Record>, next: nat, done: seq<Record>)
    requires RecordsAt(msg, off, rs, next)
    ensures DecodeRecords(msg, off, |rs|, done) == Ok((done + rs, next))
    decreases |rs|
  {
    hide DecodeRecord, RecordAt;
    if rs == [] {
      assert done + rs == done;
    } else {
      var mid: nat :| RecordAt(msg, off, rs[0], mid) && RecordsAt(msg, mid, rs[1..], next);
      RecordIff(msg, off, rs[0], mid);
      RecordsRead(msg, mid, rs[1..], next, done + [rs[0]]);
      assert done + [rs[0]] + rs[1..] == done + rs;
    }
  }

  lemma {:induction false} RecordsSay(msg: seq<byte>, off: nat, count: nat, done: seq<Record>) returns (rs: seq<Record>)
    requires DecodeRecords(msg, off, count, done).Ok?
    ensures |rs| == count && DecodeRecords(msg, off, count, done).value.0 == done + rs
    ensures RecordsAt(msg, off, rs, DecodeRecords(msg, off, count, done).value.1)
    decreases count
  {
    hide DecodeRecord, RecordAt;
    if count == 0 {
      rs := [];
      assert done + [] == done;
    } else {
      var (r, mid) := DecodeRecord(msg, off).value;
      RecordIff(msg, off, r, mid);
      var rest := RecordsSay(msg, mid, count - 1, done + [r]);
      rs := [r] + rest;
      assert rs[1..] == rest;
      assert done + [r] + rest == done + rs;
    }
  }

  lemma {:induction false} QuestionsRead(msg: seq<byte>, off: nat, qs: seq<Question>, next: nat, done: seq<Question>)
    requires QuestionsAt(msg, off, qs, next)
    ensures DecodeQuestions(msg, off, |qs|, done) == Ok((done + qs, next))
    decreases |qs|
  {
    hide DecodeQuestion, QuestionAt;
    if qs == [] {
      assert done + qs == done;
    } else {
      var mid: nat :| QuestionAt(msg, off, qs[0], mid) && QuestionsAt(msg, mid, qs[1..], next);
      QuestionIff(msg, off, qs[0], mid);
      QuestionsRead(msg, mid, qs[1..], next, done + [qs[0]]);
      assert done + [qs[0]] + qs[1..] == done + qs;
    }
  }

  lemma {:induction false} QuestionsSay(msg: seq<byte>, off: nat, count: nat, done: seq<Question>)
    returns (qs: seq<Question>)
    requires DecodeQuestions(msg, off, count, done).Ok?
    ensures |qs| == count && DecodeQuestions(msg, off, count, done).value.0 == done + qs
    ensures QuestionsAt(msg, off, qs, DecodeQuestions(msg, off, count, done).value.1)
    decreases count
  {
    hide DecodeQuestion, QuestionAt;
    if count == 0 {
      qs := [];
      assert done + [] == done;
    } else {
      var (q, mid) := DecodeQuestion(msg, off).value;
      QuestionIff(msg, off, q, mid);
      var rest := QuestionsSay(msg, mid, count - 1, done + [q]);
      qs := [q] + rest;
      assert qs[1..] == rest;
      assert done + [q] + rest == done + qs;
    }
  }

  /** A section is refused for its first record that is. */
  lemma {:induction false} SectionErrors(msg: seq<byte>, off: nat, count: nat, done: seq<Record>)
    returns (rs: seq<Record>, at: nat)
    requires DecodeRecords(msg, off, count, done).Err?
    ensures |rs| < count && RecordsAt(msg, off, rs, at)
    ensures DecodeRecord(msg, at).Err? && DecodeRecord(msg, at).error == DecodeRecords(msg, off, count, done).error
    decreases count
  {
    hide DecodeRecord, RecordAt;
    if DecodeRecord(msg, off).Err? {
      rs, at := [], off;
    } else {
      var (r, mid) := DecodeRecord(msg, off).value;
      RecordIff(msg, off, r, mid);
      var rest;
      rest, at := SectionErrors(msg, mid, count - 1, done + [r]);
      rs := [r] + rest;
      assert rs[1..] == rest;
    }
  }

  lemma {:induction false} QuestionSectionErrors(msg: seq<byte>, off: nat, count: nat, done: seq<Question>)
    returns (qs: seq<Question>, at: nat)
    requires DecodeQuestions(msg, off, count, done).Err?
    ensures |qs| < count && QuestionsAt(msg, off, qs, at)
    ensures DecodeQuestion(msg, at).Err?
    ensures DecodeQuestion(msg, at).error == DecodeQuestions(msg, off, count, done).error
    decreases count
  {
    hide DecodeQuestion, QuestionAt;
    if DecodeQuestion(msg, off).Err? {
      qs, at := [], off;
    } else {
      var (q, mid) := DecodeQuestion(msg, off).value;
      QuestionIff(msg, off, q, mid);
      var rest;
      rest, at := QuestionSectionErrors(msg, mid, count - 1, done + [q]);
      qs := [q] + rest;
      assert qs[1..] == rest;
    }
  }

  /** The twelve bytes in front: two numbers and the four counts. */
  predicate HeaderAt(msg: seq<byte>, m: Message)
  {
    && |m.questions| < 0x1_0000 && |m.answers| < 0x1_0000 && |m.authority| < 0x1_0000 && |m.additional| < 0x1_0000
    && Holds(msg, 0, Be16(m.id)) && Holds(msg, 2, Be16(m.flags)) && Holds(msg, 4, Be16(|m.questions|))
    && Holds(msg, 6, Be16(|m.answers|)) && Holds(msg, 8, Be16(|m.authority|)) && Holds(msg, 10, Be16(|m.additional|))
  }

  lemma HeaderIff(msg: seq<byte>, m: Message)
    requires |msg| >= HEADER_LEN
    ensures HeaderAt(msg, m)
            <==> U16(msg, 0) == m.id && U16(msg, 2) == m.flags && U16(msg, 4) == |m.questions|
                 && U16(msg, 6) == |m.answers| && U16(msg, 8) == |m.authority| && U16(msg, 10) == |m.additional|
  {
    hide Holds, Be16;
    U16Iff(msg, 0, m.id);
    U16Iff(msg, 2, m.flags);
    if |m.questions| < 0x1_0000 { U16Iff(msg, 4, |m.questions|); }
    if |m.answers| < 0x1_0000 { U16Iff(msg, 6, |m.answers|); }
    if |m.authority| < 0x1_0000 { U16Iff(msg, 8, |m.authority|); }
    if |m.additional| < 0x1_0000 { U16Iff(msg, 10, |m.additional|); }
    hide U16;
  }

  /** The sections follow one another from the end of the header on; what comes behind them does not matter. */
  ghost predicate SectionsAt(msg: seq<byte>, m: Message)
  {
    exists a: nat, b: nat, c: nat, d: nat ::
      && QuestionsAt(msg, HEADER_LEN, m.questions, a) && RecordsAt(msg, a, m.answers, b)
      && RecordsAt(msg, b, m.authority, c) && RecordsAt(msg, c, m.additional, d)
  }

  lemma SectionsRead(msg: seq<byte>, m: Message)
    requires |msg| >= HEADER_LEN && HeaderAt(msg, m) && SectionsAt(msg, m)
    ensures DecodeMessage(msg) == Ok(m)
  {
    HeaderIff(msg, m);
    hide HeaderAt, U16, DecodeRecords, DecodeQuestions, RecordsAt, QuestionsAt;
    var a: nat, b: nat, c: nat, d: nat :|
      && QuestionsAt(msg, HEADER_LEN, m.questions, a) && RecordsAt(msg, a, m.answers, b)
      && RecordsAt(msg, b, m.authority, c) && RecordsAt(msg, c, m.additional, d);
    QuestionsRead(msg, HEADER_LEN, m.questions, a, []);
    RecordsRead(msg, a, m.answers, b, []);
    RecordsRead(msg, b, m.authority, c, []);
    RecordsRead(msg, c, m.additional, d, []);
    assert [] + m.questions == m.questions && [] + m.answers == m.answers;
    assert [] + m.authority == m.authority && [] + m.additional == m.additional;
  }

  lemma SectionsSay(msg: seq<byte>, m: Message)
    requires DecodeMessage(msg) == Ok(m)
    ensures |msg| >= HEADER_LEN && HeaderAt(msg, m) && SectionsAt(msg, m)
  {
    hide DecodeRecords, DecodeQuestions, RecordsAt, QuestionsAt;
    var a := DecodeQuestions(msg, HEADER_LEN, U16(msg, 4), []).value.1;
    var b := DecodeRecords(msg, a, U16(msg, 6), []).value.1;
    var c := DecodeRecords(msg, b, U16(msg, 8), []).value.1;
    var qs := QuestionsSay(msg, HEADER_LEN, U16(msg, 4), []);
    var an := RecordsSay(msg, a, U16(msg, 6), []);
    var au := RecordsSay(msg, b, U16(msg, 8), []);
    var ad := RecordsSay(msg, c, U16(msg, 10), []);
    assert [] + qs == qs && [] + an == an && [] + au == au && [] + ad == ad;
    HeaderIff(msg, m);
    hide HeaderAt, U16;
  }

  /** Any datagram is parsed as a message exactly when its bytes say that message, field by field. */
  lemma MessageIff(msg: seq<byte>, m: Message)
    ensures DecodeMessage(msg) == Ok(m) <==> |msg| >= HEADER_LEN && HeaderAt(msg, m) && SectionsAt(msg, m)
  {
    hide DecodeMessage, HeaderAt, SectionsAt;
    if |msg| >= HEADER_LEN && HeaderAt(msg, m) && SectionsAt(msg, m) {
      SectionsRead(msg, m);
    }
    if DecodeMessage(msg) == Ok(m) {
      SectionsSay(msg, m);
    }
  }

  /** A datagram shorter than its header is cut short; any other is refused for the first item that is. */
  lemma MessageErrors(msg: seq<byte>)
    requires DecodeMessage(msg).Err?
    ensures |msg| < HEADER_LEN ==> DecodeMessage(msg) == Err(ShortMessage)
    ensures |msg| >= HEADER_LEN ==>
              exists at :: DecodeQuestion(msg, at) == Err(DecodeMessage(msg).error)
                           || DecodeRecord(msg, at) == Err(DecodeMessage(msg).error)
  {
    hide DecodeRecords, DecodeQuestions, DecodeQuestion, DecodeRecord, U16, RecordsAt, QuestionsAt;
    if |msg| >= HEADER_LEN {
      var q := DecodeQuestions(msg, HEADER_LEN, U16(msg, 4), []);
      if q.Err? {
        var qs, at := QuestionSectionErrors(msg, HEADER_LEN, U16(msg, 4), []);
      } else {
        var an := DecodeRecords(msg, q.value.1, U16(msg, 6), []);
        if an.Err? {
          var rs, at := SectionErrors(msg, q.value.1, U16(msg, 6), []);
        } else {
          var au := DecodeRecords(msg, an.value.1, U16(msg, 8), []);
          if au.Err? {
            var rs, at := SectionErrors(msg, an.value.1, U16(msg, 8), []);
          } else {
            var rs, at := SectionErrors(msg, au.value.1, U16(msg, 10), []);
          }
        }
      }
    }
  }
}
