/** One message byte for byte: the order of the fields of section 4.1 of RFC 1035 and of RFC 2782. */
module DnsExample {
  import opened Bytes
  import opened DnsName
  import opened DnsMessage

  const A: seq<byte> := [97, DOT]
  const B: seq<byte> := [98, DOT]

  const PTR_RECORD := Record(A, TYPE_PTR, 1, 120, [], B, 0, 0, 0, [], [])
  const TEXT_RECORD := Record(B, TYPE_TXT, 0x8001, 4500, [], [], 0, 0, 0, [[120]], [])
  const SERVICE_RECORD := Record(B, TYPE_SRV, 1, 120, [], A, 1, 2, 8080, [], [])
  const ADDRESS_RECORD := Record(A, TYPE_A, 1, 120, [192, 168, 0, 42], [], 0, 0, 0, [], [])

  const EXAMPLE := Message(0x1234, 0x8400, [Question(A, TYPE_PTR, 1)], [PTR_RECORD], [TEXT_RECORD],
                           [SERVICE_RECORD, ADDRESS_RECORD])

  const HEADER: seq<byte> := [0x12, 0x34, 0x84, 0x00, 0, 1, 0, 1, 0, 1, 0, 2]
  const QUESTION: seq<byte> := [1, 97, 0, 0, 12, 0, 1]
  const PTR: seq<byte> := [1, 97, 0, 0, 12, 0, 1, 0, 0, 0, 120, 0, 3, 1, 98, 0]
  const TEXT: seq<byte> := [1, 98, 0, 0, 16, 0x80, 1, 0, 0, 0x11, 0x94, 0, 2, 1, 120]
  const SERVICE: seq<byte> := [1, 98, 0, 0, 33, 0, 1, 0, 0, 0, 120, 0, 9, 0, 1, 0, 2, 0x1F, 0x90, 1, 97, 0]
  const ADDRESS: seq<byte> := [1, 97, 0, 0, 1, 0, 1, 0, 0, 0, 120, 0, 4, 192, 168, 0, 42]

  lemma OneLetter(c: byte)
    requires c != DOT
    ensures EncodeName([c, DOT]) == Ok([1, c, 0])
  {
    var name := [c, DOT];
    assert Trim(name) == [c];
    var rest := Split([]);
    assert rest == [[]] && rest[1..] == [] && [c][1..] == [] && [c] + [] == [c];
    assert Split([c]) == [[c] + rest[0]] + rest[1..];
    assert [[c]] + [] == [[c]];
    assert Labels(name) == [[c]];
    assert Body([[c]]) == [1] + [c] + Body([]);
    assert Wire([[c]]) == [1, c, 0];
  }

  lemma Names()
    ensures EncodeName(A) == Ok([1, 97, 0]) && EncodeName(B) == Ok([1, 98, 0])
  {
    OneLetter(97);
    OneLetter(98);
  }

  lemma Numbers()
    ensures Be16(1) == [0, 1] && Be16(2) == [0, 2] && Be16(3) == [0, 3] && Be16(4) == [0, 4] && Be16(9) == [0, 9]
    ensures Be16(12) == [0, 12] && Be16(16) == [0, 16] && Be16(33) == [0, 33] && Be16(8080) == [0x1F, 0x90]
    ensures Be16(0x8001) == [0x80, 1] && Be16(0x1234) == [0x12, 0x34] && Be16(0x8400) == [0x84, 0]
    ensures Be32(120) == [0, 0, 0, 120] && Be32(4500) == [0, 0, 0x11, 0x94]
  {
    assert Be16(0) == [0, 0] && Be16(120) == [0, 120] && Be16(4500) == [0x11, 0x94];
  }

  lemma Joined()
    ensures [1, 97, 0] + [0, 12, 0, 1, 0, 0, 0, 120] + [0, 3] + [1, 98, 0] == PTR
    ensures [1, 97, 0] + [0, 12] + [0, 1] == QUESTION
    ensures [1, 97, 0] + [0, 1, 0, 1, 0, 0, 0, 120] + [0, 4] + [192, 168, 0, 42] == ADDRESS
  {
  }

  lemma JoinedText()
    ensures [1, 98, 0] + [0, 16, 0x80, 1, 0, 0, 0x11, 0x94] + [0, 2] + [1, 120] == TEXT
  {
  }

  lemma JoinedService()
    ensures [0, 1] + [0, 2] + [0x1F, 0x90] + [1, 97, 0] == [0, 1, 0, 2, 0x1F, 0x90, 1, 97, 0]
    ensures [1, 98, 0] + [0, 33, 0, 1, 0, 0, 0, 120] + [0, 9] + [0, 1, 0, 2, 0x1F, 0x90, 1, 97, 0] == SERVICE
  {
  }

  lemma Heads()
    ensures Head(PTR_RECORD) == [0, 12, 0, 1, 0, 0, 0, 120] && Head(ADDRESS_RECORD) == [0, 1, 0, 1, 0, 0, 0, 120]
    ensures Head(TEXT_RECORD) == [0, 16, 0x80, 1, 0, 0, 0x11, 0x94]
    ensures Head(SERVICE_RECORD) == [0, 33, 0, 1, 0, 0, 0, 120]
  {
    Numbers();
    hide Be16, Be32;
  }

  lemma PtrBytes()
    ensures EncodeRecord(PTR_RECORD) == Ok(PTR)
    ensures EncodeQuestion(Question(A, TYPE_PTR, 1)) == Ok(QUESTION)
  {
    Names();
    Numbers();
    Heads();
    Joined();
    hide EncodeName, Be16, Be32, Head, A, B, PTR, QUESTION, ADDRESS;
  }

  lemma OneString()
    ensures Strings([[120]]) == [1, 120]
  {
    var txt: seq<seq<byte>> := [[120]];
    assert txt[1..] == [] && Strings([]) == [];
    assert Strings(txt) == [1] + [120] + [];
  }

  lemma TextBytes()
    ensures EncodeRecord(TEXT_RECORD) == Ok(TEXT)
  {
    Names();
    Numbers();
    Heads();
    JoinedText();
    OneString();
    hide EncodeName, Be16, Be32, Head, A, B, TEXT, Strings;
    assert |TEXT_RECORD.txt| == 1 && |TEXT_RECORD.txt[0]| == 1;
  }

  lemma ServiceBytes()
    ensures EncodeRecord(SERVICE_RECORD) == Ok(SERVICE)
  {
    Names();
    Numbers();
    Heads();
    JoinedService();
    hide EncodeName, Be16, Be32, Head, A, B, SERVICE;
  }

  lemma AddressBytes()
    ensures EncodeRecord(ADDRESS_RECORD) == Ok(ADDRESS)
  {
    Names();
    Numbers();
    Heads();
    Joined();
    hide EncodeName, Be16, Be32, Head, A, B, PTR, QUESTION, ADDRESS;
  }

  lemma HeaderBytes()
    ensures EncodeHeader(EXAMPLE) == HEADER
  {
    Numbers();
    hide Be16;
  }

  lemma OneRecord(r: Record, rest: seq<Record>)
    ensures EncodeRecords([r] + rest) == Then(EncodeRecord(r), EncodeRecords(rest))
  {
    assert ([r] + rest)[1..] == rest;
  }

  lemma Sections()
    ensures EncodeQuestions(EXAMPLE.questions) == Ok(QUESTION)
    ensures EncodeRecords(EXAMPLE.answers) == Ok(PTR) && EncodeRecords(EXAMPLE.authority) == Ok(TEXT)
    ensures EncodeRecords(EXAMPLE.additional) == Ok(SERVICE + ADDRESS)
  {
    PtrBytes();
    TextBytes();
    ServiceBytes();
    AddressBytes();
    var q := Question(A, TYPE_PTR, 1);
    assert [q][1..] == [] && EncodeQuestions([]) == Ok([]) && EncodeRecords([]) == Ok([]);
    hide EncodeRecord, EncodeQuestion, A, B, PTR, TEXT, SERVICE, ADDRESS, QUESTION;
    OneRecord(PTR_RECORD, []);
    OneRecord(TEXT_RECORD, []);
    OneRecord(ADDRESS_RECORD, []);
    OneRecord(SERVICE_RECORD, [ADDRESS_RECORD]);
    assert [PTR_RECORD] + [] == [PTR_RECORD] && [TEXT_RECORD] + [] == [TEXT_RECORD];
    assert [ADDRESS_RECORD] + [] == [ADDRESS_RECORD];
    assert [SERVICE_RECORD] + [ADDRESS_RECORD] == [SERVICE_RECORD, ADDRESS_RECORD];
    hide EncodeRecords;
    assert QUESTION + [] == QUESTION && PTR + [] == PTR && TEXT + [] == TEXT && ADDRESS + [] == ADDRESS;
  }

  /** A message with a record of each type: its header, its question and its records are these bytes, in this order. */
  lemma ExampleBytes()
    ensures Encode(EXAMPLE) == Ok(HEADER + QUESTION + PTR + TEXT + (SERVICE + ADDRESS))
  {
    HeaderBytes();
    Sections();
    hide EncodeHeader, EncodeQuestions, EncodeRecords, EXAMPLE, HEADER, QUESTION, PTR, TEXT, SERVICE, ADDRESS;
  }
}
