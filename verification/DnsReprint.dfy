/** Printing again what was parsed: which messages can be, and that they are then parsed as the same. */
module DnsReprint {
  import opened Bytes
  import opened DnsName
  import opened DnsMessage

  // --- names ---

  predicate NoAdjacentDots(s: seq<byte>)
  {
    forall i :: 0 <= i < |s| - 1 ==> s[i] != DOT || s[i + 1] != DOT
  }

  predicate AllFilled(pieces: seq<seq<byte>>, from: nat)
  {
    forall i :: from <= i < |pieces| ==> pieces[i] != []
  }

  predicate AllShort(pieces: seq<seq<byte>>)
  {
    forall i :: 0 <= i < |pieces| ==> |pieces[i]| <= MAX_LABEL
  }

  lemma AdjacentCons(s: seq<byte>)
    requires s != []
    ensures NoAdjacentDots(s) <==> NoAdjacentDots(s[1..]) && (|s| > 1 ==> s[0] != DOT || s[1] != DOT)
  {
    var t := s[1..];
    assert forall i :: 0 <= i < |t| ==> t[i] == s[i + 1];
    if NoAdjacentDots(t) && (|s| > 1 ==> s[0] != DOT || s[1] != DOT) {
      forall i | 0 <= i < |s| - 1
        ensures s[i] != DOT || s[i + 1] != DOT
      {
        if i > 0 {
          assert t[i - 1] != DOT || t[i - 1 + 1] != DOT;
        }
      }
    }
  }

  lemma FilledBehindDot(rest: seq<seq<byte>>)
    ensures !AllFilled([[]] + rest, 0)
    ensures AllFilled([[]] + rest, 1) <==> AllFilled(rest, 0)
  {
    var pieces := [[]] + rest;
    assert pieces[0] == [];
    assert forall i :: 1 <= i < |pieces| ==> pieces[i] == rest[i - 1];
    assert forall i :: 0 <= i < |rest| ==> rest[i] == pieces[i + 1];
  }

  lemma FilledBehindChar(c: byte, rest: seq<seq<byte>>)
    requires rest != []
    ensures var pieces := [[c] + rest[0]] + rest[1..];
            (AllFilled(pieces, 0) <==> AllFilled(rest, 1)) && (AllFilled(pieces, 1) <==> AllFilled(rest, 1))
  {
    var pieces := [[c] + rest[0]] + rest[1..];
    assert pieces[0] != [] && |pieces| == |rest|;
    assert forall i :: 1 <= i < |pieces| ==> pieces[i] == rest[i];
  }

  /** No piece between dots is empty when no dot comes first, last, or next to another. */
  lemma {:induction false} FilledIff(s: seq<byte>)
    ensures AllFilled(Split(s), 0)
            <==> s != [] && s[0] != DOT && s[|s| - 1] != DOT && NoAdjacentDots(s)
    ensures AllFilled(Split(s), 1) <==> (s != [] ==> s[|s| - 1] != DOT) && NoAdjacentDots(s)
  {
    if s == [] {
      assert Split(s)[0] == [];
    } else {
      hide AllFilled, NoAdjacentDots;
      FilledIff(s[1..]);
      AdjacentCons(s);
      FilledBehindDot(Split(s[1..]));
      FilledBehindChar(s[0], Split(s[1..]));
      assert |s| > 1 ==> s[1..][0] == s[1] && s[1..][|s| - 2] == s[|s| - 1];
    }
  }

  lemma {:induction false} SplitAtDot(a: seq<byte>, b: seq<byte>)
    ensures Split(a + [DOT] + b) == Split(a) + Split(b)
    decreases |a|
  {
    var s := a + [DOT] + b;
    if a == [] {
      assert s[1..] == b;
    } else {
      assert s[0] == a[0] && s[1..] == a[1..] + [DOT] + b;
      SplitAtDot(a[1..], b);
    }
  }

  lemma {:induction false} PiecesFit(s: seq<byte>, max: nat)
    requires |s| <= max
    ensures forall i :: 0 <= i < |Split(s)| ==> |Split(s)[i]| <= max
    decreases |s|
  {
    if s != [] {
      PiecesFit(s[1..], max - 1);
    }
  }

  /** What the parser has gathered of a name: labels of at most 63 bytes, each with a dot behind it. */
  predicate Gathered(text: seq<byte>)
  {
    text != [] ==> text[|text| - 1] == DOT && AllShort(Split(text[..|text| - 1]))
  }

  lemma GatherLabel(text: seq<byte>, piece: seq<byte>)
    requires Gathered(text) && |piece| <= MAX_LABEL
    ensures Gathered(text + piece + [DOT])
  {
    var more := text + piece + [DOT];
    PiecesFit(piece, MAX_LABEL);
    assert more[..|more| - 1] == text + piece;
    if text == [] {
      assert text + piece == piece;
    } else {
      assert text + piece == text[..|text| - 1] + [DOT] + piece;
      SplitAtDot(text[..|text| - 1], piece);
    }
  }

  lemma {:induction false} DecodeGathers(msg: seq<byte>, off: nat, text: seq<byte>, next: Option<nat>, jumps: nat)
    requires jumps <= MAX_POINTER_JUMPS && Gathered(text) && |text| <= MAX_NAME
    ensures var r := DecodeFrom(msg, off, text, next, jumps);
            r.Ok? ==> r.value.0 == [DOT] || (r.value.0 != [] && Gathered(r.value.0) && |r.value.0| <= MAX_NAME)
    decreases MAX_POINTER_JUMPS - jumps, |msg| - off
  {
    hide Gathered;
    if off < |msg| {
      match ItemAt(msg, off) {
        case Pointer(target) =>
          if off + 1 < |msg| && target < off && jumps < MAX_POINTER_JUMPS {
            DecodeGathers(msg, target, text, if next.Some? then next else Some(off + 2), jumps + 1);
          }
        case Label(n) =>
          if off + 1 + n <= |msg| && |text| + n + 1 <= MAX_NAME {
            var piece := msg[off + 1..off + 1 + n];
            GatherLabel(text, piece);
            DecodeGathers(msg, off + 1 + n, text + piece + [DOT], next, jumps);
          }
        case _ =>
      }
    }
  }

  /** A name as the parser returns it. */
  predicate ParsedName(name: seq<byte>)
  {
    name == [DOT] || (name != [] && Gathered(name) && |name| <= MAX_NAME)
  }

  lemma DecodedIsParsed(msg: seq<byte>, off: nat)
    ensures Decode(msg, off).Ok? ==> ParsedName(Decode(msg, off).value.0)
  {
    DecodeGathers(msg, off, [], None, 0);
  }

  /** The root, or a name of at most 254 bytes without a dot in front or two next to each other. */
  predicate PrintsAgain(name: seq<byte>)
  {
    name == [DOT] || (|name| < MAX_NAME && name != [] && name[0] != DOT && NoAdjacentDots(name))
  }

  lemma {:induction false} BodyLength(labels: seq<seq<byte>>)
    ensures |Body(labels)| == |Dotted(labels)|
  {
    if labels != [] {
      BodyLength(labels[1..]);
    }
  }

  lemma DotsInFront(name: seq<byte>)
    requires |name| > 1 && name[|name| - 1] == DOT
    ensures var s := name[..|name| - 1];
            NoAdjacentDots(name) <==> NoAdjacentDots(s) && s[|s| - 1] != DOT
  {
    var s := name[..|name| - 1];
    assert forall i :: 0 <= i < |s| ==> s[i] == name[i];
    var i := |name| - 2;
    assert name[i + 1] == DOT && s[|s| - 1] == name[i];
  }

  lemma LabelsOkIff(s: seq<byte>)
    requires AllShort(Split(s))
    ensures (forall i :: 0 <= i < |Split(s)| ==> LabelOk(Split(s)[i])) <==> AllFilled(Split(s), 0)
  {
    hide Split;
  }

  lemma WireLength(s: seq<byte>)
    ensures |Wire(Split(s))| == |s| + 2
  {
    DottedSplit(s);
    BodyLength(Split(s));
    hide Split, Body, Dotted;
  }

  lemma LongNameIff(name: seq<byte>)
    requires name != [] && name != [DOT] && Gathered(name) && |name| <= MAX_NAME
    ensures NameOk(name) <==> PrintsAgain(name)
  {
    var s := name[..|name| - 1];
    hide Split, NoAdjacentDots, Wire, LabelOk, AllFilled, AllShort;
    DotsInFront(name);
    FilledIff(s);
    LabelsOkIff(s);
    WireLength(s);
    assert Labels(name) == Split(s);
  }

  /** Which parsed names can be printed: a label that holds a dot may leave an empty piece, and a name of 255 bytes of
      text takes 256 on the wire. */
  lemma ParsedNameIff(name: seq<byte>)
    requires ParsedName(name)
    ensures NameOk(name) <==> PrintsAgain(name)
    ensures FullyQualified(name)
  {
    if name == [DOT] {
      WireRoot();
    } else {
      LongNameIff(name);
      hide NameOk;
    }
  }

  /** A label of one dot is parsed, and cannot be printed. */
  lemma DotLabelIsNotPrinted()
    ensures Decode([1, DOT, 0], 0) == Ok(([DOT, DOT], 3)) && EncodeName([DOT, DOT]).Err?
  {
    var msg := [1, DOT, 0];
    assert ItemAt(msg, 0) == Label(1) && ItemAt(msg, 2) == Root;
    assert [] + msg[1..2] + [DOT] == [DOT, DOT];
    assert DecodeFrom(msg, 2, [DOT, DOT], None, 0) == Ok(([DOT, DOT], 3));
    var labels := Labels([DOT, DOT]);
    assert Trim([DOT, DOT]) == [DOT];
    assert labels[0] == [] && !LabelOk(labels[0]);
  }

  // --- records ---

  predicate ParsedStrings(txt: seq<seq<byte>>)
  {
    |Strings(txt)| < 0x1_0000 && forall i :: 0 <= i < |txt| ==> |txt[i]| <= MAX_TXT_STRING
  }

  /** A record as the parser returns it. */
  predicate ParsedRecord(r: Record)
  {
    && ParsedName(r.name)
    && (if r.rtype == TYPE_A then |r.ip| == 4 else r.ip == [])
    && (if r.rtype == TYPE_PTR || r.rtype == TYPE_SRV then ParsedName(r.target) else r.target == [])
    && (r.rtype != TYPE_SRV ==> r.prio == 0 && r.weight == 0 && r.port == 0)
    && (if r.rtype == TYPE_TXT then ParsedStrings(r.txt) else r.txt == [])
    && (if r.rtype == TYPE_A || r.rtype == TYPE_PTR || r.rtype == TYPE_SRV || r.rtype == TYPE_TXT then r.rdata == []
        else |r.rdata| < 0x1_0000)
  }

  lemma {:induction false} StringsDecoded(msg: seq<byte>, p: nat, end: nat, txt: seq<seq<byte>>)
    requires p <= end <= |msg| && forall i :: 0 <= i < |txt| ==> |txt[i]| <= MAX_TXT_STRING
    ensures var r := DecodeStrings(msg, p, end, txt);
            r.Ok? ==> |Strings(r.value)| == |Strings(txt)| + (end - p)
                      && forall i :: 0 <= i < |r.value| ==> |r.value[i]| <= MAX_TXT_STRING
    decreases end - p
  {
    if p < end && p + 1 + msg[p] as int <= end {
      var next := p + 1 + msg[p] as int;
      StringsSnoc(txt, msg[p + 1..next]);
      StringsDecoded(msg, next, end, txt + [msg[p + 1..next]]);
    }
  }

  lemma RdataIsParsed(msg: seq<byte>, name: seq<byte>, rtype: uint16, rclass: uint16, ttl: uint32, off: nat, n: nat)
    requires ParsedName(name) && n < 0x1_0000
    ensures var r := DecodeRdata(msg, Blank(name, rtype, rclass, ttl), off, n); r.Ok? ==> ParsedRecord(r.value)
  {
    DecodedIsParsed(msg, off);
    DecodedIsParsed(msg, off + 6);
    if off + n <= |msg| {
      StringsDecoded(msg, off, off + n, []);
    }
    hide Decode, ParsedName, DecodeStrings;
  }

  lemma RecordIsParsed(msg: seq<byte>, off: nat)
    ensures DecodeRecord(msg, off).Ok? ==> ParsedRecord(DecodeRecord(msg, off).value.0)
  {
    DecodedIsParsed(msg, off);
    if Decode(msg, off).Ok? {
      var (name, at) := Decode(msg, off).value;
      if at + 10 <= |msg| {
        RdataIsParsed(msg, name, U16(msg, at), U16(msg, at + 2), U32(msg, at + 4), at + 10, U16(msg, at + 8));
      }
    }
    hide Decode, DecodeRdata, ParsedRecord, ParsedName, U16, U32;
  }

  predicate AllParsed(rs: seq<Record>)
  {
    forall i :: 0 <= i < |rs| ==> ParsedRecord(rs[i])
  }

  lemma {:induction false} RecordsAreParsed(msg: seq<byte>, off: nat, count: nat, done: seq<Record>)
    requires AllParsed(done)
    ensures var r := DecodeRecords(msg, off, count, done);
            r.Ok? ==> AllParsed(r.value.0) && |r.value.0| == |done| + count
    decreases count
  {
    hide DecodeRecord, ParsedRecord;
    if count > 0 && DecodeRecord(msg, off).Ok? {
      var (r, next) := DecodeRecord(msg, off).value;
      RecordIsParsed(msg, off);
      RecordsAreParsed(msg, next, count - 1, done + [r]);
    }
  }

  predicate QuestionsParsed(qs: seq<Question>)
  {
    forall i :: 0 <= i < |qs| ==> ParsedName(qs[i].name)
  }

  lemma {:induction false} QuestionsAreParsed(msg: seq<byte>, off: nat, count: nat, done: seq<Question>)
    requires QuestionsParsed(done)
    ensures var r := DecodeQuestions(msg, off, count, done);
            r.Ok? ==> QuestionsParsed(r.value.0) && |r.value.0| == |done| + count
    decreases count
  {
    hide Decode, ParsedName, U16;
    if count > 0 && DecodeQuestion(msg, off).Ok? {
      var (q, next) := DecodeQuestion(msg, off).value;
      DecodedIsParsed(msg, off);
      QuestionsAreParsed(msg, next, count - 1, done + [q]);
    }
  }

  /** A message as the parser returns it. */
  predicate ParsedMessage(m: Message)
  {
    && QuestionsParsed(m.questions) && AllParsed(m.answers) && AllParsed(m.authority) && AllParsed(m.additional)
    && |m.questions| < 0x1_0000 && |m.answers| < 0x1_0000 && |m.authority| < 0x1_0000 && |m.additional| < 0x1_0000
  }

  lemma NothingParsed()
    ensures QuestionsParsed([]) && AllParsed([])
  {
  }

  lemma MessageIsParsed(msg: seq<byte>)
    ensures DecodeMessage(msg).Ok? ==> ParsedMessage(DecodeMessage(msg).value)
  {
    hide DecodeQuestions, DecodeRecords, QuestionsParsed, AllParsed, U16;
    NothingParsed();
    if DecodeMessage(msg).Ok? {
      QuestionsAreParsed(msg, HEADER_LEN, U16(msg, 4), []);
      var q := DecodeQuestions(msg, HEADER_LEN, U16(msg, 4), []).value;
      RecordsAreParsed(msg, q.1, U16(msg, 6), []);
      var an := DecodeRecords(msg, q.1, U16(msg, 6), []).value;
      RecordsAreParsed(msg, an.1, U16(msg, 8), []);
      var au := DecodeRecords(msg, an.1, U16(msg, 8), []).value;
      RecordsAreParsed(msg, au.1, U16(msg, 10), []);
    }
  }

  // --- printing them again ---

  predicate RecordPrintsAgain(r: Record)
  {
    PrintsAgain(r.name) && (r.rtype == TYPE_PTR || r.rtype == TYPE_SRV ==> PrintsAgain(r.target))
  }

  predicate RecordsPrintAgain(rs: seq<Record>)
  {
    forall i :: 0 <= i < |rs| ==> RecordPrintsAgain(rs[i])
  }

  /** Every name of the message is one that prints again; nothing else is asked. */
  predicate MessagePrintsAgain(m: Message)
  {
    && (forall i :: 0 <= i < |m.questions| ==> PrintsAgain(m.questions[i].name))
    && RecordsPrintAgain(m.answers) && RecordsPrintAgain(m.authority) && RecordsPrintAgain(m.additional)
  }

  /** A TXT record without a single string, which is printed as one with an empty string. */
  predicate EmptyText(r: Record)
  {
    r.rtype == TYPE_TXT && r.txt == []
  }

  predicate NoEmptyText(rs: seq<Record>)
  {
    forall i :: 0 <= i < |rs| ==> !EmptyText(rs[i])
  }

  lemma ParsedRecordIff(r: Record)
    requires ParsedRecord(r)
    ensures NameOk(r.name) && RdataOk(r) <==> RecordPrintsAgain(r)
    ensures RdataFits(r) && (Canonical(r) <==> !EmptyText(r))
  {
    ParsedNameIff(r.name);
    if r.rtype == TYPE_PTR || r.rtype == TYPE_SRV {
      ParsedNameIff(r.target);
    }
    hide NameOk, PrintsAgain, ParsedName, EncodeName;
  }

  lemma ParsedRecordsIff(rs: seq<Record>)
    requires AllParsed(rs)
    ensures RecordsOk(rs) <==> RecordsPrintAgain(rs)
    ensures (forall i :: 0 <= i < |rs| ==> RdataFits(rs[i]))
    ensures NormalAll(rs) == rs <==> NoEmptyText(rs)
  {
    forall i | 0 <= i < |rs|
      ensures NameOk(rs[i].name) && RdataOk(rs[i]) <==> RecordPrintsAgain(rs[i])
      ensures RdataFits(rs[i]) && (Normal(rs[i]) == rs[i] <==> !EmptyText(rs[i]))
    {
      ParsedRecordIff(rs[i]);
      NormalUnchangedIff(rs[i]);
    }
    hide NameOk, RdataOk, RecordPrintsAgain, RdataFits, EmptyText, Normal;
    if NormalAll(rs) == rs {
      forall i | 0 <= i < |rs|
        ensures !EmptyText(rs[i])
      {
        assert NormalAll(rs)[i] == Normal(rs[i]);
      }
    }
  }

  lemma ParsedQuestionsIff(qs: seq<Question>)
    requires QuestionsParsed(qs)
    ensures (forall i :: 0 <= i < |qs| ==> NameOk(qs[i].name))
            <==> (forall i :: 0 <= i < |qs| ==> PrintsAgain(qs[i].name))
    ensures NormalQuestions(qs) == qs
  {
    forall i | 0 <= i < |qs|
      ensures NameOk(qs[i].name) <==> PrintsAgain(qs[i].name)
      ensures qs[i].(name := Qualified(qs[i].name)) == qs[i]
    {
      ParsedNameIff(qs[i].name);
      QualifiedUnchangedIff(qs[i].name);
    }
  }

  lemma ParsedMessageIff(m: Message)
    requires ParsedMessage(m)
    ensures Fits(m) && (Sendable(m) <==> MessagePrintsAgain(m))
    ensures NormalMessage(m) == m <==> NoEmptyText(m.answers) && NoEmptyText(m.authority) && NoEmptyText(m.additional)
  {
    hide NameOk, PrintsAgain, RecordsOk, RecordsPrintAgain, NoEmptyText, NormalAll, NormalQuestions, QuestionsParsed,
         AllParsed, RdataFits;
    ParsedQuestionsIff(m.questions);
    ParsedRecordsIff(m.answers);
    ParsedRecordsIff(m.authority);
    ParsedRecordsIff(m.additional);
  }

  /** Every message that was parsed can be printed again exactly when all its names can; what is printed is then parsed
      as its normal form, and that is the same message exactly when no TXT record came without a string. */
  lemma ReprintIff(msg: seq<byte>)
    requires DecodeMessage(msg).Ok?
    ensures var m := DecodeMessage(msg).value;
            && (Encode(m).Ok? <==> MessagePrintsAgain(m))
            && (Encode(m).Ok? ==>
                  && DecodeMessage(Encode(m).value) == Ok(NormalMessage(m))
                  && (DecodeMessage(Encode(m).value) == Ok(m)
                      <==> NoEmptyText(m.answers) && NoEmptyText(m.authority) && NoEmptyText(m.additional)))
  {
    hide Encode, DecodeMessage, Sendable, Fits, MessagePrintsAgain, NoEmptyText, NormalMessage, ParsedMessage;
    var m := DecodeMessage(msg).value;
    MessageIsParsed(msg);
    EncodesIff(m);
    ParsedMessageIff(m);
    if Encode(m).Ok? {
      MessageRoundTrip(m);
    }
  }
}
