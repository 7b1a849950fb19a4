/** Whole DNS messages: the printer, the parser, and the round trip between them. */
module DnsMessage {
  import opened Bytes
  import opened DnsName

  const TYPE_A: uint16 := 1
  const TYPE_PTR: uint16 := 12
  const TYPE_TXT: uint16 := 16
  const TYPE_SRV: uint16 := 33
  const HEADER_LEN := 12
  const MAX_TXT_STRING := 255

  datatype Question = Question(name: seq<byte>, qtype: uint16, qclass: uint16)

  /** Only the fields that belong to rtype carry meaning. */
  datatype Record = Record(name: seq<byte>, rtype: uint16, rclass: uint16, ttl: uint32,
                           ip: seq<byte>, target: seq<byte>, prio: uint16, weight: uint16, port: uint16,
                           txt: seq<seq<byte>>, rdata: seq<byte>)

  datatype Message = Message(id: uint16, flags: uint16, questions: seq<Question>,
                             answers: seq<Record>, authority: seq<Record>, additional: seq<Record>)

  // --- printing ---

  /** The four bytes of an IPv4 address, given as 4 bytes or as an IPv4-mapped 16. */
  function To4(ip: seq<byte>): Option<seq<byte>>
  {
    if |ip| == 4 then Some(ip)
    else if |ip| == 16 && ip[..10] == Zeros(10) && ip[10] == 255 && ip[11] == 255 then Some(ip[12..])
    else None
  }

  function Strings(txt: seq<seq<byte>>): seq<byte>
  {
    if txt == [] then [] else [|txt[0]| % 256] + txt[0] + Strings(txt[1..])
  }

  function EncodeRdata(r: Record): Result<seq<byte>>
  {
    if r.rtype == TYPE_A then
      if To4(r.ip).None? then Err(BadRecord) else Ok(To4(r.ip).value)
    else if r.rtype == TYPE_PTR then EncodeName(r.target)
    else if r.rtype == TYPE_SRV then
      if EncodeName(r.target).Err? then EncodeName(r.target)
      else Ok(Be16(r.prio) + Be16(r.weight) + Be16(r.port) + EncodeName(r.target).value)
    else if r.rtype == TYPE_TXT then
      if r.txt == [] then Ok([0])
      else if exists i :: 0 <= i < |r.txt| && |r.txt[i]| > MAX_TXT_STRING then Err(BadRecord)
      else Ok(Strings(r.txt))
    else Ok(r.rdata)
  }

  function Head(r: Record): seq<byte>
  {
    Be16(r.rtype) + Be16(r.rclass) + Be32(r.ttl)
  }

  /** The length field is a cast to 16 bits. */
  function EncodeRecord(r: Record): Result<seq<byte>>
  {
    if EncodeName(r.name).Err? then EncodeName(r.name)
    else if EncodeRdata(r).Err? then EncodeRdata(r)
    else
      var rdata := EncodeRdata(r).value;
      Ok(EncodeName(r.name).value + Head(r) + Be16(|rdata| % 0x1_0000) + rdata)
  }

  function EncodeQuestion(q: Question): Result<seq<byte>>
  {
    if EncodeName(q.name).Err? then EncodeName(q.name)
    else Ok(EncodeName(q.name).value + Be16(q.qtype) + Be16(q.qclass))
  }

  function Then(a: Result<seq<byte>>, b: Result<seq<byte>>): Result<seq<byte>>
  {
    if a.Err? then a else if b.Err? then b else Ok(a.value + b.value)
  }

  function EncodeQuestions(qs: seq<Question>): Result<seq<byte>>
  {
    if qs == [] then Ok([])
    else Then(EncodeQuestion(qs[0]), EncodeQuestions(qs[1..]))
  }

  function EncodeRecords(rs: seq<Record>): Result<seq<byte>>
  {
    if rs == [] then Ok([])
    else Then(EncodeRecord(rs[0]), EncodeRecords(rs[1..]))
  }

  function EncodeHeader(m: Message): seq<byte>
  {
    Be16(m.id) + Be16(m.flags) + Be16(|m.questions| % 0x1_0000) + Be16(|m.answers| % 0x1_0000)
    + Be16(|m.authority| % 0x1_0000) + Be16(|m.additional| % 0x1_0000)
  }

  function Encode(m: Message): Result<seq<byte>>
  {
    Then(Then(Then(Then(Ok(EncodeHeader(m)), EncodeQuestions(m.questions)), EncodeRecords(m.answers)),
              EncodeRecords(m.authority)), EncodeRecords(m.additional))
  }

  /** Append to b what r would be, or give its error. */
  function Onto(b: seq<byte>, r: Result<seq<byte>>): Result<seq<byte>>
  {
    if r.Err? then r else Ok(b + r.value)
  }

  lemma OntoThen(b: seq<byte>, x: seq<byte>, r: Result<seq<byte>>)
    ensures Onto(b + x, r) == Onto(b, Then(Ok(x), r))
  {
    if r.Ok? {
      assert b + x + r.value == b + (x + r.value);
    }
  }

  lemma {:induction false} StringsSnoc(txt: seq<seq<byte>>, last: seq<byte>)
    ensures Strings(txt + [last]) == Strings(txt) + [|last| % 256] + last
    decreases |txt|
  {
    if txt == [] {
      assert ([] + [last])[1..] == [];
      assert Strings([last]) == [|last| % 256] + last + Strings([]);
    } else {
      assert (txt + [last])[0] == txt[0] && (txt + [last])[1..] == txt[1..] + [last];
      StringsSnoc(txt[1..], last);
    }
  }

  method PackRdata(r: Record) returns (out: Result<seq<byte>>)
    ensures out == EncodeRdata(r)
  {
    hide EncodeName, To4;
    if r.rtype == TYPE_A {
      var ip4 := To4(r.ip);
      return if ip4.None? then Err(BadRecord) else Ok(ip4.value);
    } else if r.rtype == TYPE_PTR {
      out := AppendName([], r.target);
      assert EncodeName(r.target).Ok? ==> [] + EncodeName(r.target).value == EncodeName(r.target).value;
    } else if r.rtype == TYPE_SRV {
      out := AppendName(Be16(r.prio) + Be16(r.weight) + Be16(r.port), r.target);
    } else if r.rtype == TYPE_TXT {
      if |r.txt| == 0 {
        return Ok([0]);
      }
      var b := [];
      for k := 0 to |r.txt|
        invariant forall i :: 0 <= i < k ==> |r.txt[i]| <= MAX_TXT_STRING
        invariant b == Strings(r.txt[..k])
      {
        var s := r.txt[k];
        if |s| > MAX_TXT_STRING {
          return Err(BadRecord);
        }
        StringsSnoc(r.txt[..k], s);
        assert r.txt[..k + 1] == r.txt[..k] + [s];
        b := b + [|s| % 256];
        b := b + s;
      }
      assert r.txt[..|r.txt|] == r.txt;
      return Ok(b);
    } else {
      return Ok(r.rdata);
    }
  }

  method AppendRecord(b: seq<byte>, r: Record) returns (out: Result<seq<byte>>)
    ensures out == Onto(b, EncodeRecord(r))
  {
    hide EncodeName, EncodeRdata;
    out := AppendName(b, r.name);
    if out.Err? {
      return;
    }
    var bytes := out.value + Head(r);
    var rdata := PackRdata(r);
    if rdata.Err? {
      return rdata;
    }
    var len := Be16(|rdata.value| % 0x1_0000);
    bytes := bytes + len;
    ghost var name := EncodeName(r.name).value;
    assert b + name + Head(r) + len + rdata.value == b + (name + Head(r) + len + rdata.value);
    return Ok(bytes + rdata.value);
  }

  method AppendQuestions(b: seq<byte>, qs: seq<Question>) returns (out: Result<seq<byte>>)
    ensures out == Onto(b, EncodeQuestions(qs))
  {
    hide EncodeName;
    var bytes := b;
    for k := 0 to |qs|
      invariant Onto(bytes, EncodeQuestions(qs[k..])) == Onto(b, EncodeQuestions(qs))
    {
      var q := qs[k];
      ghost var before := bytes;
      assert qs[k..][0] == q && qs[k..][1..] == qs[k + 1..];
      out := AppendName(bytes, q.name);
      if out.Err? {
        return;
      }
      OntoThen(bytes, EncodeQuestion(q).value, EncodeQuestions(qs[k + 1..]));
      bytes := out.value + Be16(q.qtype);
      bytes := bytes + Be16(q.qclass);
      assert bytes == before + EncodeQuestion(q).value;
    }
    assert qs[|qs|..] == [];
    assert bytes + [] == bytes;
    return Ok(bytes);
  }

  method AppendRecords(b: seq<byte>, rs: seq<Record>) returns (out: Result<seq<byte>>)
    ensures out == Onto(b, EncodeRecords(rs))
  {
    hide EncodeRecord;
    var bytes := b;
    for k := 0 to |rs|
      invariant Onto(bytes, EncodeRecords(rs[k..])) == Onto(b, EncodeRecords(rs))
    {
      assert rs[k..][0] == rs[k] && rs[k..][1..] == rs[k + 1..];
      out := AppendRecord(bytes, rs[k]);
      if out.Err? {
        return;
      }
      OntoThen(bytes, EncodeRecord(rs[k]).value, EncodeRecords(rs[k + 1..]));
      bytes := out.value;
    }
    assert rs[|rs|..] == [];
    assert bytes + [] == bytes;
    return Ok(bytes);
  }

  method Pack(m: Message) returns (out: Result<seq<byte>>)
    ensures out == Encode(m)
  {
    hide EncodeQuestions, EncodeRecords, EncodeHeader;
    out := AppendQuestions(EncodeHeader(m), m.questions);
    if out.Err? { return; }
    out := AppendRecords(out.value, m.answers);
    if out.Err? { return; }
    out := AppendRecords(out.value, m.authority);
    if out.Err? { return; }
    out := AppendRecords(out.value, m.additional);
  }

  // --- parsing ---

  function Blank(name: seq<byte>, rtype: uint16, rclass: uint16, ttl: uint32): Record
  {
    Record(name, rtype, rclass, ttl, [], [], 0, 0, 0, [], [])
  }

  function DecodeStrings(msg: seq<byte>, p: nat, end: nat, txt: seq<seq<byte>>): Result<seq<seq<byte>>>
    requires end <= |msg|
    decreases end - p
  {
    if p >= end then Ok(txt)
    else
      var l := msg[p] as int;
      if p + 1 + l > end then Err(BadRecord)
      else DecodeStrings(msg, p + 1 + l, end, txt + [msg[p + 1..p + 1 + l]])
  }

  function U16(msg: seq<byte>, off: nat): uint16
    requires off + 2 <= |msg|
  {
    FromBe16(msg[off], msg[off + 1])
  }

  function U32(msg: seq<byte>, off: nat): uint32
    requires off + 4 <= |msg|
  {
    FromBe32(msg[off], msg[off + 1], msg[off + 2], msg[off + 3])
  }

  function DecodeRdata(msg: seq<byte>, r: Record, off: nat, n: nat): Result<Record>
  {
    if off + n > |msg| then Err(ShortMessage)
    else if r.rtype == TYPE_A then
      if n != 4 then Err(BadRecord) else Ok(r.(ip := msg[off..off + n]))
    else if r.rtype == TYPE_PTR then
      if Decode(msg, off).Err? then Err(Decode(msg, off).error) else Ok(r.(target := Decode(msg, off).value.0))
    else if r.rtype == TYPE_SRV then
      if n < 7 then Err(BadRecord)
      else if Decode(msg, off + 6).Err? then Err(Decode(msg, off + 6).error)
      else Ok(r.(prio := U16(msg, off), weight := U16(msg, off + 2), port := U16(msg, off + 4),
                 target := Decode(msg, off + 6).value.0))
    else if r.rtype == TYPE_TXT then
      if DecodeStrings(msg, off, off + n, []).Err? then Err(DecodeStrings(msg, off, off + n, []).error)
      else Ok(r.(txt := DecodeStrings(msg, off, off + n, []).value))
    else Ok(r.(rdata := msg[off..off + n]))
  }

  function DecodeRecord(msg: seq<byte>, off: nat): Result<(Record, nat)>
  {
    if Decode(msg, off).Err? then Err(Decode(msg, off).error)
    else
      var (name, at) := Decode(msg, off).value;
      if at + 10 > |msg| then Err(ShortMessage)
      else
        var n := U16(msg, at + 8);
        if at + 10 + n > |msg| then Err(ShortMessage)
        else
          var r := DecodeRdata(msg, Blank(name, U16(msg, at), U16(msg, at + 2), U32(msg, at + 4)), at + 10, n);
          if r.Err? then Err(r.error) else Ok((r.value, at + 10 + n))
  }

  function DecodeQuestion(msg: seq<byte>, off: nat): Result<(Question, nat)>
  {
    if Decode(msg, off).Err? then Err(Decode(msg, off).error)
    else
      var (name, at) := Decode(msg, off).value;
      if at + 4 > |msg| then Err(ShortMessage)
      else Ok((Question(name, U16(msg, at), U16(msg, at + 2)), at + 4))
  }

  function DecodeQuestions(msg: seq<byte>, off: nat, count: nat, done: seq<Question>): Result<(seq<Question>, nat)>
    decreases count
  {
    if count == 0 then Ok((done, off))
    else if DecodeQuestion(msg, off).Err? then Err(DecodeQuestion(msg, off).error)
    else
      var (q, next) := DecodeQuestion(msg, off).value;
      DecodeQuestions(msg, next, count - 1, done + [q])
  }

  function DecodeRecords(msg: seq<byte>, off: nat, count: nat, done: seq<Record>): Result<(seq<Record>, nat)>
    decreases count
  {
    if count == 0 then Ok((done, off))
    else if DecodeRecord(msg, off).Err? then Err(DecodeRecord(msg, off).error)
    else
      var (r, next) := DecodeRecord(msg, off).value;
      DecodeRecords(msg, next, count - 1, done + [r])
  }

  function DecodeMessage(msg: seq<byte>): Result<Message>
  {
    if |msg| < HEADER_LEN then Err(ShortMessage)
    else
      var q := DecodeQuestions(msg, HEADER_LEN, U16(msg, 4), []);
      if q.Err? then Err(q.error)
      else
        var an := DecodeRecords(msg, q.value.1, U16(msg, 6), []);
        if an.Err? then Err(an.error)
        else
          var au := DecodeRecords(msg, an.value.1, U16(msg, 8), []);
          if au.Err? then Err(au.error)
          else
            var ad := DecodeRecords(msg, au.value.1, U16(msg, 10), []);
            if ad.Err? then Err(ad.error)
            else Ok(Message(U16(msg, 0), U16(msg, 2), q.value.0, an.value.0, au.value.0, ad.value.0))
  }

  method UnpackRdata(msg: seq<byte>, r: Record, off: nat, n: nat) returns (out: Result<Record>)
    ensures out == DecodeRdata(msg, r, off, n)
  {
    var end := off + n;
    if end > |msg| {
      return Err(ShortMessage);
    }
    if r.rtype == TYPE_A {
      if n != 4 {
        return Err(BadRecord);
      }
      return Ok(r.(ip := msg[off..end]));
    } else if r.rtype == TYPE_PTR {
      var name := DecodeName(msg, off);
      return if name.Err? then Err(name.error) else Ok(r.(target := name.value.0));
    } else if r.rtype == TYPE_SRV {
      if n < 7 {
        return Err(BadRecord);
      }
      var name := DecodeName(msg, off + 6);
      return if name.Err? then Err(name.error)
             else Ok(r.(prio := U16(msg, off), weight := U16(msg, off + 2), port := U16(msg, off + 4),
                         target := name.value.0));
    } else if r.rtype == TYPE_TXT {
      var p, txt := off, [];
      while p < end
        invariant off <= p <= end
        invariant DecodeStrings(msg, p, end, txt) == DecodeStrings(msg, off, end, [])
      {
        var l := msg[p] as int;
        if p + 1 + l > end {
          return Err(BadRecord);
        }
        txt := txt + [msg[p + 1..p + 1 + l]];
        p := p + 1 + l;
      }
      return Ok(r.(txt := txt));
    } else {
      return Ok(r.(rdata := msg[off..end]));
    }
  }

  method UnpackRecord(msg: seq<byte>, start: nat) returns (out: Result<(Record, nat)>)
    ensures out == DecodeRecord(msg, start)
    ensures out.Ok? ==> start < out.value.1 <= |msg|
  {
    hide DecodeRdata, Decode;
    var name := DecodeName(msg, start);
    if name.Err? {
      return Err(name.error);
    }
    var off := name.value.1;
    if off + 10 > |msg| {
      return Err(ShortMessage);
    }
    var r := Blank(name.value.0, U16(msg, off), U16(msg, off + 2), U32(msg, off + 4));
    var n := U16(msg, off + 8);
    off := off + 10;
    if off + n > |msg| {
      return Err(ShortMessage);
    }
    var filled := UnpackRdata(msg, r, off, n);
    return if filled.Err? then Err(filled.error) else Ok((filled.value, off + n));
  }

  method UnpackSection(msg: seq<byte>, start: nat, count: nat) returns (out: Result<(seq<Record>, nat)>)
    ensures out == DecodeRecords(msg, start, count, [])
  {
    hide DecodeRecord;
    var off, done := start, [];
    for i := 0 to count
      invariant DecodeRecords(msg, off, count - i, done) == DecodeRecords(msg, start, count, [])
    {
      var r := UnpackRecord(msg, off);
      if r.Err? {
        return Err(r.error);
      }
      done := done + [r.value.0];
      off := r.value.1;
    }
    return Ok((done, off));
  }

  /** Parse any datagram whatsoever. */
  method Unpack(msg: seq<byte>) returns (out: Result<Message>)
    ensures out == DecodeMessage(msg)
  {
    hide Decode, DecodeRecords;
    if |msg| < HEADER_LEN {
      return Err(ShortMessage);
    }
    var off: nat, questions, count := HEADER_LEN, [], U16(msg, 4);
    for i := 0 to count
      invariant DecodeQuestions(msg, off, count - i, questions) == DecodeQuestions(msg, HEADER_LEN, count, [])
    {
      var name := DecodeName(msg, off);
      if name.Err? {
        return Err(name.error);
      }
      off := name.value.1;
      if off + 4 > |msg| {
        return Err(ShortMessage);
      }
      questions := questions + [Question(name.value.0, U16(msg, off), U16(msg, off + 2))];
      off := off + 4;
    }
    var an := UnpackSection(msg, off, U16(msg, 6));
    if an.Err? { return Err(an.error); }
    var au := UnpackSection(msg, an.value.1, U16(msg, 8));
    if au.Err? { return Err(au.error); }
    var ad := UnpackSection(msg, au.value.1, U16(msg, 10));
    if ad.Err? { return Err(ad.error); }
    return Ok(Message(U16(msg, 0), U16(msg, 2), questions, an.value.0, au.value.0, ad.value.0));
  }

  // --- the round trip ---

  /** What a record comes back as: names fully qualified, an IPv4 address as its four bytes, an empty
      list of strings as one empty string, and only the fields of its type. */
  function Normal(r: Record): Record
  {
    var b := Blank(Qualified(r.name), r.rtype, r.rclass, r.ttl);
    if r.rtype == TYPE_A then b.(ip := if To4(r.ip).Some? then To4(r.ip).value else r.ip)
    else if r.rtype == TYPE_PTR then b.(target := Qualified(r.target))
    else if r.rtype == TYPE_SRV then
      b.(prio := r.prio, weight := r.weight, port := r.port, target := Qualified(r.target))
    else if r.rtype == TYPE_TXT then b.(txt := if r.txt == [] then [[]] else r.txt)
    else b.(rdata := r.rdata)
  }

  function NormalAll(rs: seq<Record>): (r: seq<Record>)
    ensures |r| == |rs| && forall i :: 0 <= i < |rs| ==> r[i] == Normal(rs[i])
  {
    seq(|rs|, i requires 0 <= i < |rs| => Normal(rs[i]))
  }

  function NormalQuestions(qs: seq<Question>): (r: seq<Question>)
    ensures |r| == |qs| && forall i :: 0 <= i < |qs| ==> r[i] == qs[i].(name := Qualified(qs[i].name))
  {
    seq(|qs|, i requires 0 <= i < |qs| => qs[i].(name := Qualified(qs[i].name)))
  }

  function NormalMessage(m: Message): Message
  {
    m.(questions := NormalQuestions(m.questions), answers := NormalAll(m.answers),
       authority := NormalAll(m.authority), additional := NormalAll(m.additional))
  }

  predicate RdataFits(r: Record)
  {
    EncodeRdata(r).Ok? ==> |EncodeRdata(r).value| < 0x1_0000
  }

  /** Section counts and payload lengths fit the 16-bit fields they are written in. */
  predicate Fits(m: Message)
  {
    && |m.questions| < 0x1_0000 && |m.answers| < 0x1_0000 && |m.authority| < 0x1_0000 && |m.additional| < 0x1_0000
    && (forall i :: 0 <= i < |m.answers| ==> RdataFits(m.answers[i]))
    && (forall i :: 0 <= i < |m.authority| ==> RdataFits(m.authority[i]))
    && (forall i :: 0 <= i < |m.additional| ==> RdataFits(m.additional[i]))
  }

  lemma ReadU16(msg: seq<byte>, off: nat, n: uint16)
    requires Holds(msg, off, Be16(n))
    ensures U16(msg, off) == n
  {
    Be16RoundTrip(n);
    assert msg[off + 0] == Be16(n)[0] && msg[off + 1] == Be16(n)[1];
  }

  lemma ReadU32(msg: seq<byte>, off: nat, n: uint32)
    requires Holds(msg, off, Be32(n))
    ensures U32(msg, off) == n
  {
    Be32RoundTrip(n);
    var b := Be32(n);
    assert |b| == 4;
    hide Be32, FromBe32;
    assert msg[off + 0] == b[0] && msg[off + 1] == b[1] && msg[off + 2] == b[2] && msg[off + 3] == b[3];
  }

  lemma {:induction false} StringsRoundTrip(msg: seq<byte>, p: nat, txt: seq<seq<byte>>, done: seq<seq<byte>>)
    requires Holds(msg, p, Strings(txt)) && forall i :: 0 <= i < |txt| ==> |txt[i]| <= MAX_TXT_STRING
    ensures DecodeStrings(msg, p, p + |Strings(txt)|, done) == Ok(done + txt)
    decreases |txt|
  {
    if txt == [] {
      assert done + txt == done;
    } else {
      var s := txt[0];
      assert Strings(txt) == [|s|] + s + Strings(txt[1..]);
      HoldsSplit(msg, p, [|s|] + s, Strings(txt[1..]));
      HoldsSplit(msg, p, [|s|], s);
      HoldsSlice(msg, p + 1, s);
      assert msg[p + 0] == [|s|][0];
      hide Holds;
      StringsRoundTrip(msg, p + 1 + |s|, txt[1..], done + [s]);
      assert done + [s] + txt[1..] == done + txt;
    }
  }

  lemma SrvRoundTrip(msg: seq<byte>, off: nat, r: Record, b: Record)
    requires r.rtype == TYPE_SRV && EncodeRdata(r).Ok? && Holds(msg, off, EncodeRdata(r).value) && b.rtype == TYPE_SRV
    ensures DecodeRdata(msg, b, off, |EncodeRdata(r).value|)
         == Ok(b.(prio := r.prio, weight := r.weight, port := r.port, target := Qualified(r.target)))
  {
    var n := EncodeName(r.target).value;
    var p, w, t := Be16(r.prio), Be16(r.weight), Be16(r.port);
    HoldsSplit(msg, off, p + w + t, n);
    HoldsSplit(msg, off, p + w, t);
    HoldsSplit(msg, off, p, w);
    ReadU16(msg, off, r.prio);
    ReadU16(msg, off + 2, r.weight);
    ReadU16(msg, off + 4, r.port);
    NameRoundTrip(msg, off + 6, r.target);
    hide Holds, Decode, Wire, Labels, Be16, Qualified;
  }

  lemma TxtRoundTrip(msg: seq<byte>, off: nat, r: Record, b: Record)
    requires r.rtype == TYPE_TXT && EncodeRdata(r).Ok? && Holds(msg, off, EncodeRdata(r).value) && b.rtype == TYPE_TXT
    ensures DecodeRdata(msg, b, off, |EncodeRdata(r).value|) == Ok(b.(txt := if r.txt == [] then [[]] else r.txt))
  {
    var txt := if r.txt == [] then [[]] else r.txt;
    if r.txt == [] {
      assert txt[1..] == [];
      assert Strings(txt) == [0] + txt[0] + Strings(txt[1..]);
    }
    StringsRoundTrip(msg, off, txt, []);
    assert [] + txt == txt;
    hide Decode, DecodeStrings;
  }

  lemma RdataRoundTrip(msg: seq<byte>, off: nat, r: Record)
    requires EncodeRdata(r).Ok? && Holds(msg, off, EncodeRdata(r).value)
    ensures DecodeRdata(msg, Blank(Qualified(r.name), r.rtype, r.rclass, r.ttl), off, |EncodeRdata(r).value|)
            == Ok(Normal(r))
  {
    var data := EncodeRdata(r).value;
    HoldsSlice(msg, off, data);
    var b := Blank(Qualified(r.name), r.rtype, r.rclass, r.ttl);
    if r.rtype == TYPE_PTR {
      NameRoundTrip(msg, off, r.target);
    } else if r.rtype == TYPE_SRV {
      SrvRoundTrip(msg, off, r, b);
    } else if r.rtype == TYPE_TXT {
      TxtRoundTrip(msg, off, r, b);
    }
    hide Holds, Decode, Wire, Labels, Qualified;
  }

  lemma HeadRoundTrip(msg: seq<byte>, at: nat, r: Record)
    requires Holds(msg, at, Head(r))
    ensures |Head(r)| == 8
    ensures U16(msg, at) == r.rtype && U16(msg, at + 2) == r.rclass && U32(msg, at + 4) == r.ttl
  {
    HoldsSplit(msg, at, Be16(r.rtype) + Be16(r.rclass), Be32(r.ttl));
    HoldsSplit(msg, at, Be16(r.rtype), Be16(r.rclass));
    ReadU16(msg, at, r.rtype);
    ReadU16(msg, at + 2, r.rclass);
    ReadU32(msg, at + 4, r.ttl);
  }

  lemma HoldsInside(msg: seq<byte>, off: nat, b: seq<byte>)
    requires Holds(msg, off, b)
    ensures off + |b| <= |msg|
  {
  }

  lemma RecordLayout(msg: seq<byte>, off: nat, name: seq<byte>, head: seq<byte>, len: seq<byte>, data: seq<byte>)
    requires Holds(msg, off, name + head + len + data)
    ensures Holds(msg, off, name) && Holds(msg, off + |name|, head) && Holds(msg, off + |name| + |head|, len)
    ensures Holds(msg, off + |name| + |head| + |len|, data) && off + |name| + |head| + |len| + |data| <= |msg|
  {
    HoldsInside(msg, off, name + head + len + data);
    hide Holds;
    HoldsSplit(msg, off, name + head + len, data);
    HoldsSplit(msg, off, name + head, len);
    HoldsSplit(msg, off, name, head);
  }

  lemma AssembleRecord(msg: seq<byte>, off: nat, name: seq<byte>, at: nat, n: nat, r: Record)
    requires Decode(msg, off) == Ok((name, at)) && at + 10 + n <= |msg|
    requires U16(msg, at) == r.rtype && U16(msg, at + 2) == r.rclass && U32(msg, at + 4) == r.ttl
             && U16(msg, at + 8) == n
    requires DecodeRdata(msg, Blank(name, r.rtype, r.rclass, r.ttl), at + 10, n) == Ok(r)
    ensures DecodeRecord(msg, off) == Ok((r, at + 10 + n))
  {
    hide Decode, DecodeRdata, U16, U32;
  }

  lemma EncodedRecord(r: Record)
    requires EncodeRecord(r).Ok? && RdataFits(r)
    ensures EncodeName(r.name).Ok? && EncodeRdata(r).Ok? && |EncodeRdata(r).value| < 0x1_0000
    ensures EncodeRecord(r).value
         == EncodeName(r.name).value + Head(r) + Be16(|EncodeRdata(r).value|) + EncodeRdata(r).value
  {
    hide EncodeName, EncodeRdata, Head, Be16;
  }

  lemma NormalHead(r: Record)
    ensures Normal(r).rtype == r.rtype && Normal(r).rclass == r.rclass && Normal(r).ttl == r.ttl
  {
  }

  lemma Be16Len(n: uint16)
    ensures |Be16(n)| == 2
  {
  }

  lemma NameOfEncoded(name: seq<byte>)
    requires EncodeName(name).Ok?
    ensures NameOk(name) && EncodeName(name).value == Wire(Labels(name))
  {
  }

  lemma RecordRoundTrip(msg: seq<byte>, off: nat, r: Record)
    requires EncodeRecord(r).Ok? && RdataFits(r) && Holds(msg, off, EncodeRecord(r).value)
    ensures DecodeRecord(msg, off) == Ok((Normal(r), off + |EncodeRecord(r).value|))
  {
    EncodedRecord(r);
    var name, data := EncodeName(r.name).value, EncodeRdata(r).value;
    var head, len := Head(r), Be16(|data|);
    Be16Len(|data|);
    NameOfEncoded(r.name);
    NormalHead(r);
    hide EncodeRecord, EncodeRdata, EncodeName, NameOk, Be16, DecodeRdata, Holds, Head, Decode, DecodeRecord,
         Labels, Wire,
      U16, U32, Qualified, Normal;
    var at := off + |name|;
    RecordLayout(msg, off, name, head, len, data);
    HeadRoundTrip(msg, at, r);
    ReadU16(msg, at + 8, |data|);
    NameRoundTrip(msg, off, r.name);
    RdataRoundTrip(msg, at + 10, r);
    AssembleRecord(msg, off, Qualified(r.name), at, |data|, Normal(r));
  }

  lemma {:induction false} RecordsRoundTrip(msg: seq<byte>, off: nat, rs: seq<Record>, done: seq<Record>)
    requires EncodeRecords(rs).Ok? && (forall i :: 0 <= i < |rs| ==> RdataFits(rs[i]))
    requires Holds(msg, off, EncodeRecords(rs).value)
    ensures DecodeRecords(msg, off, |rs|, done) == Ok((done + NormalAll(rs), off + |EncodeRecords(rs).value|))
    decreases |rs|
  {
    hide EncodeRecord, DecodeRecord, RdataFits, Normal, Holds;
    if rs == [] {
      assert done + NormalAll(rs) == done;
    } else {
      var first, rest := EncodeRecord(rs[0]).value, EncodeRecords(rs[1..]).value;
      HoldsSplit(msg, off, first, rest);
      RecordRoundTrip(msg, off, rs[0]);
      RecordsRoundTrip(msg, off + |first|, rs[1..], done + [Normal(rs[0])]);
      assert done + [Normal(rs[0])] + NormalAll(rs[1..]) == done + NormalAll(rs);
    }
  }

  lemma QuestionRoundTrip(msg: seq<byte>, off: nat, q: Question)
    requires EncodeQuestion(q).Ok? && Holds(msg, off, EncodeQuestion(q).value)
    ensures DecodeQuestion(msg, off) == Ok((q.(name := Qualified(q.name)), off + |EncodeQuestion(q).value|))
  {
    var name, ty, cl := EncodeName(q.name).value, Be16(q.qtype), Be16(q.qclass);
    Be16Len(q.qtype);
    Be16Len(q.qclass);
    assert EncodeQuestion(q).value == name + ty + cl;
    NameOfEncoded(q.name);
    hide Be16, Holds, Decode, Labels, Wire, U16, Qualified, EncodeName, NameOk;
    HoldsSplit(msg, off, name + ty, cl);
    HoldsSplit(msg, off, name, ty);
    ReadU16(msg, off + |name|, q.qtype);
    ReadU16(msg, off + |name| + 2, q.qclass);
    NameRoundTrip(msg, off, q.name);
    HoldsInside(msg, off + |name| + 2, cl);
  }

  lemma {:induction false} QuestionsRoundTrip(msg: seq<byte>, off: nat, qs: seq<Question>, done: seq<Question>)
    requires EncodeQuestions(qs).Ok? && Holds(msg, off, EncodeQuestions(qs).value)
    ensures DecodeQuestions(msg, off, |qs|, done) == Ok((done + NormalQuestions(qs), off + |EncodeQuestions(qs).value|))
    decreases |qs|
  {
    hide EncodeQuestion, DecodeQuestion, Holds, Qualified;
    if qs == [] {
      assert done + NormalQuestions(qs) == done;
    } else {
      var q := qs[0];
      var first, rest := EncodeQuestion(q).value, EncodeQuestions(qs[1..]).value;
      HoldsSplit(msg, off, first, rest);
      QuestionRoundTrip(msg, off, q);
      QuestionsRoundTrip(msg, off + |first|, qs[1..], done + [q.(name := Qualified(q.name))]);
      assert done + [q.(name := Qualified(q.name))] + NormalQuestions(qs[1..]) == done + NormalQuestions(qs);
    }
  }

  lemma HeaderRoundTrip(msg: seq<byte>, m: Message)
    requires Fits(m) && Holds(msg, 0, EncodeHeader(m))
    ensures |EncodeHeader(m)| == HEADER_LEN
    ensures U16(msg, 0) == m.id && U16(msg, 2) == m.flags && U16(msg, 4) == |m.questions|
    ensures U16(msg, 6) == |m.answers| && U16(msg, 8) == |m.authority| && U16(msg, 10) == |m.additional|
  {
    var a, b, c := Be16(m.id), Be16(m.flags), Be16(|m.questions|);
    var d, e, f := Be16(|m.answers|), Be16(|m.authority|), Be16(|m.additional|);
    HoldsSplit(msg, 0, a + b + c + d + e, f);
    HoldsSplit(msg, 0, a + b + c + d, e);
    HoldsSplit(msg, 0, a + b + c, d);
    HoldsSplit(msg, 0, a + b, c);
    HoldsSplit(msg, 0, a, b);
    ReadU16(msg, 0, m.id);
    ReadU16(msg, 2, m.flags);
    ReadU16(msg, 4, |m.questions|);
    ReadU16(msg, 6, |m.answers|);
    ReadU16(msg, 8, |m.authority|);
    ReadU16(msg, 10, |m.additional|);
  }

  lemma HoldsSelf(msg: seq<byte>)
    ensures Holds(msg, 0, msg)
  {
  }

  /** The parts of a printed message, one after the other. */
  lemma Layout(msg: seq<byte>, h: seq<byte>, q: seq<byte>, an: seq<byte>, au: seq<byte>, ad: seq<byte>)
    requires msg == h + q + an + au + ad
    ensures Holds(msg, 0, h) && Holds(msg, |h|, q) && Holds(msg, |h| + |q|, an)
    ensures Holds(msg, |h| + |q| + |an|, au) && Holds(msg, |h| + |q| + |an| + |au|, ad)
  {
    HoldsSelf(msg);
    hide Holds;
    HoldsSplit(msg, 0, h + q + an + au, ad);
    HoldsSplit(msg, 0, h + q + an, au);
    HoldsSplit(msg, 0, h + q, an);
    HoldsSplit(msg, 0, h, q);
  }

  /** Sections that parse one after the other make up the message. */
  lemma Assemble(msg: seq<byte>, m: Message, o1: nat, o2: nat, o3: nat, o4: nat)
    requires |msg| >= HEADER_LEN && U16(msg, 0) == m.id && U16(msg, 2) == m.flags && U16(msg, 4) == |m.questions|
    requires U16(msg, 6) == |m.answers| && U16(msg, 8) == |m.authority| && U16(msg, 10) == |m.additional|
    requires DecodeQuestions(msg, HEADER_LEN, |m.questions|, []) == Ok((m.questions, o1))
    requires DecodeRecords(msg, o1, |m.answers|, []) == Ok((m.answers, o2))
    requires DecodeRecords(msg, o2, |m.authority|, []) == Ok((m.authority, o3))
    requires DecodeRecords(msg, o3, |m.additional|, []) == Ok((m.additional, o4))
    ensures DecodeMessage(msg) == Ok(m)
  {
    hide DecodeQuestions, DecodeRecords, U16;
  }

  lemma SectionRoundTrip(msg: seq<byte>, off: nat, rs: seq<Record>)
    requires EncodeRecords(rs).Ok? && (forall i :: 0 <= i < |rs| ==> RdataFits(rs[i]))
    requires Holds(msg, off, EncodeRecords(rs).value)
    ensures DecodeRecords(msg, off, |NormalAll(rs)|, []) == Ok((NormalAll(rs), off + |EncodeRecords(rs).value|))
  {
    hide EncodeRecords, DecodeRecords, RdataFits, Holds;
    RecordsRoundTrip(msg, off, rs, []);
    assert [] + NormalAll(rs) == NormalAll(rs);
  }

  lemma QuestionsSection(msg: seq<byte>, off: nat, qs: seq<Question>)
    requires EncodeQuestions(qs).Ok? && Holds(msg, off, EncodeQuestions(qs).value)
    ensures DecodeQuestions(msg, off, |NormalQuestions(qs)|, [])
         == Ok((NormalQuestions(qs), off + |EncodeQuestions(qs).value|))
  {
    hide EncodeQuestions, DecodeQuestions, Holds;
    QuestionsRoundTrip(msg, off, qs, []);
    assert [] + NormalQuestions(qs) == NormalQuestions(qs);
  }

  lemma EncodeParts(m: Message)
    requires Encode(m).Ok?
    ensures EncodeQuestions(m.questions).Ok? && EncodeRecords(m.answers).Ok?
    ensures EncodeRecords(m.authority).Ok? && EncodeRecords(m.additional).Ok?
    ensures Encode(m).value == EncodeHeader(m) + EncodeQuestions(m.questions).value + EncodeRecords(m.answers).value
                             + EncodeRecords(m.authority).value + EncodeRecords(m.additional).value
  {
    hide EncodeHeader, EncodeQuestions, EncodeRecords;
  }

  lemma PartsRoundTrip(msg: seq<byte>, m: Message)
    requires Fits(m) && Encode(m).Ok?
    requires EncodeQuestions(m.questions).Ok? && EncodeRecords(m.answers).Ok?
    requires EncodeRecords(m.authority).Ok? && EncodeRecords(m.additional).Ok?
    requires var o1 := |EncodeHeader(m)|;
             var o2 := o1 + |EncodeQuestions(m.questions).value|;
             var o3 := o2 + |EncodeRecords(m.answers).value|;
             var o4 := o3 + |EncodeRecords(m.authority).value|;
             && Holds(msg, 0, EncodeHeader(m)) && Holds(msg, o1, EncodeQuestions(m.questions).value)
             && Holds(msg, o2, EncodeRecords(m.answers).value) && Holds(msg, o3, EncodeRecords(m.authority).value)
             && Holds(msg, o4, EncodeRecords(m.additional).value)
    ensures DecodeMessage(msg) == Ok(NormalMessage(m))
  {
    hide Encode, EncodeHeader, EncodeQuestions, EncodeRecords, DecodeQuestions, DecodeRecords, U16, DecodeMessage,
         Holds, NormalAll, NormalQuestions, RdataFits;
    var o1 := |EncodeHeader(m)|;
    var o2 := o1 + |EncodeQuestions(m.questions).value|;
    var o3 := o2 + |EncodeRecords(m.answers).value|;
    var o4 := o3 + |EncodeRecords(m.authority).value|;
    HoldsInside(msg, 0, EncodeHeader(m));
    HeaderRoundTrip(msg, m);
    QuestionsSection(msg, o1, m.questions);
    SectionRoundTrip(msg, o2, m.answers);
    SectionRoundTrip(msg, o3, m.authority);
    SectionRoundTrip(msg, o4, m.additional);
    Assemble(msg, NormalMessage(m), o2, o3, o4, o4 + |EncodeRecords(m.additional).value|);
  }

  /** The round trip: every message that can be printed, and whose counts and payloads fit their fields,
      is parsed back as itself in normal form. */
  lemma MessageRoundTrip(m: Message)
    requires Fits(m) && Encode(m).Ok?
    ensures DecodeMessage(Encode(m).value) == Ok(NormalMessage(m))
  {
    hide Encode, EncodeHeader, EncodeQuestions, EncodeRecords;
    EncodeParts(m);
    var msg := Encode(m).value;
    var h, q := EncodeHeader(m), EncodeQuestions(m.questions).value;
    var an, au, ad := EncodeRecords(m.answers).value, EncodeRecords(m.authority).value,
        EncodeRecords(m.additional).value;
    Layout(msg, h, q, an, au, ad);
    PartsRoundTrip(msg, m);
  }

  // --- which messages those are ---

  predicate RdataOk(r: Record)
  {
    && (r.rtype == TYPE_A ==> To4(r.ip).Some?)
    && (r.rtype == TYPE_PTR || r.rtype == TYPE_SRV ==> NameOk(r.target))
    && (r.rtype == TYPE_TXT ==> forall i :: 0 <= i < |r.txt| ==> |r.txt[i]| <= MAX_TXT_STRING)
  }

  predicate RecordsOk(rs: seq<Record>)
  {
    forall i :: 0 <= i < |rs| ==> NameOk(rs[i].name) && RdataOk(rs[i])
  }

  /** Every name can be written and every payload is one its type allows. */
  predicate Sendable(m: Message)
  {
    && (forall i :: 0 <= i < |m.questions| ==> NameOk(m.questions[i].name))
    && RecordsOk(m.answers) && RecordsOk(m.authority) && RecordsOk(m.additional)
  }

  lemma {:induction false} RecordsEncodeIff(rs: seq<Record>)
    ensures EncodeRecords(rs).Ok? <==> RecordsOk(rs)
    decreases |rs|
  {
    if rs != [] {
      RecordsEncodeIff(rs[1..]);
      assert EncodeRecord(rs[0]).Ok? <==> NameOk(rs[0].name) && RdataOk(rs[0]);
      hide NameOk, RdataOk, EncodeRecord;
      assert RecordsOk(rs) ==> NameOk(rs[0].name) && RdataOk(rs[0]) && RecordsOk(rs[1..]);
      if NameOk(rs[0].name) && RdataOk(rs[0]) && RecordsOk(rs[1..]) {
        forall i | 0 <= i < |rs| ensures NameOk(rs[i].name) && RdataOk(rs[i]) {
          if i > 0 { assert rs[i] == rs[1..][i - 1]; }
        }
      }
    }
  }

  lemma {:induction false} QuestionsEncodeIff(qs: seq<Question>)
    ensures EncodeQuestions(qs).Ok? <==> forall i :: 0 <= i < |qs| ==> NameOk(qs[i].name)
    decreases |qs|
  {
    if qs != [] {
      QuestionsEncodeIff(qs[1..]);
      hide NameOk;
      assert EncodeQuestion(qs[0]).Ok? <==> NameOk(qs[0].name);
      forall i | 0 <= i < |qs[1..]| ensures qs[1..][i] == qs[i + 1] {}
      if NameOk(qs[0].name) && forall i :: 0 <= i < |qs[1..]| ==> NameOk(qs[1..][i].name) {
        forall i | 0 <= i < |qs| ensures NameOk(qs[i].name) {
          if i > 0 { assert qs[i] == qs[1..][i - 1]; }
        }
      }
    }
  }

  lemma EncodesIff(m: Message)
    ensures Encode(m).Ok? <==> Sendable(m)
  {
    QuestionsEncodeIff(m.questions);
    RecordsEncodeIff(m.answers);
    RecordsEncodeIff(m.authority);
    RecordsEncodeIff(m.additional);
    hide EncodeQuestions, EncodeRecords, EncodeHeader, RecordsOk, NameOk;
  }

  predicate FullyQualified(name: seq<byte>)
  {
    name != [] && name[|name| - 1] == DOT
  }

  /** Written in normal form: fully qualified names, four-byte addresses, at least one string in a TXT,
      and nothing in the fields of other types. */
  predicate Canonical(r: Record)
  {
    && FullyQualified(r.name)
    && (if r.rtype == TYPE_A then |r.ip| == 4 || To4(r.ip).None? else r.ip == [])
    && (if r.rtype == TYPE_PTR || r.rtype == TYPE_SRV then FullyQualified(r.target) else r.target == [])
    && (r.rtype != TYPE_SRV ==> r.prio == 0 && r.weight == 0 && r.port == 0)
    && (if r.rtype == TYPE_TXT then r.txt != [] else r.txt == [])
    && (r.rtype == TYPE_A || r.rtype == TYPE_PTR || r.rtype == TYPE_SRV || r.rtype == TYPE_TXT ==> r.rdata == [])
  }

  lemma QualifiedUnchangedIff(name: seq<byte>)
    ensures Qualified(name) == name <==> FullyQualified(name)
  {
  }

  lemma To4UnchangedIff(ip: seq<byte>)
    ensures To4(ip).Some? ==> (To4(ip).value == ip <==> |ip| == 4)
    ensures |ip| == 4 ==> To4(ip).Some?
  {
  }

  lemma NormalUnchangedIff(r: Record)
    ensures Normal(r) == r <==> Canonical(r)
  {
    QualifiedUnchangedIff(r.name);
    QualifiedUnchangedIff(r.target);
    To4UnchangedIff(r.ip);
    hide Qualified, FullyQualified, To4;
  }

  predicate CanonicalMessage(m: Message)
  {
    && (forall i :: 0 <= i < |m.questions| ==> FullyQualified(m.questions[i].name))
    && (forall i :: 0 <= i < |m.answers| ==> Canonical(m.answers[i]))
    && (forall i :: 0 <= i < |m.authority| ==> Canonical(m.authority[i]))
    && (forall i :: 0 <= i < |m.additional| ==> Canonical(m.additional[i]))
  }

  lemma AllCanonical(rs: seq<Record>)
    requires forall i :: 0 <= i < |rs| ==> Canonical(rs[i])
    ensures NormalAll(rs) == rs
  {
    hide Canonical, Normal;
    forall i | 0 <= i < |rs| ensures Normal(rs[i]) == rs[i] {
      NormalUnchangedIff(rs[i]);
    }
  }

  /** Every canonical message that can be sent comes back unchanged. */
  lemma CanonicalRoundTrip(m: Message)
    requires Fits(m) && Sendable(m) && CanonicalMessage(m)
    ensures Encode(m).Ok? && DecodeMessage(Encode(m).value) == Ok(m)
  {
    EncodesIff(m);
    MessageRoundTrip(m);
    hide Encode, DecodeMessage, Sendable, Fits, Canonical, Normal;
    forall i | 0 <= i < |m.questions| ensures Qualified(m.questions[i].name) == m.questions[i].name {
      QualifiedUnchangedIff(m.questions[i].name);
    }
    assert NormalQuestions(m.questions) == m.questions;
    AllCanonical(m.answers);
    AllCanonical(m.authority);
    AllCanonical(m.additional);
  }
}
