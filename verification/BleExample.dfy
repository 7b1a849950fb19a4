/** The worked example that both ends are held to: a record, its stream and its writes, byte for byte. */
module BleExample {
  import opened Bytes
  import opened Provision
  import opened BleFormat
  import opened BleWire
  import Crc32

  const SSID_RECORD: seq<byte> := [0x01, 0x07, 0x48, 0x6F, 0x6D, 0x65, 0x4E, 0x65, 0x74]
  const PASS_RECORD: seq<byte> := [0x02, 0x0C, 0x63, 0x6F, 0x72, 0x72, 0x65, 0x63, 0x74, 0x68, 0x6F, 0x72,
    0x73, 0x65]
  const HOST_RECORD: seq<byte> := [0x03, 0x0C, 0x31, 0x39, 0x32, 0x2E, 0x31, 0x36, 0x38, 0x2E, 0x30, 0x2E,
    0x34, 0x32]
  const PORT_RECORD: seq<byte> := [0x04, 0x02, 0x3D, 0x22]
  const HEX_DIGITS: seq<byte> := [0x30, 0x31, 0x32, 0x33, 0x34, 0x35, 0x36, 0x37, 0x38, 0x39, 0x61, 0x62, 0x63, 0x64,
    0x65, 0x66]
  const TOKEN_RECORD: seq<byte> := [0x05, 0x20] + (HEX_DIGITS + HEX_DIGITS)

  /** The network HomeNet, the passphrase correcthorse, the host 192.168.0.42 at its port, and a token. */
  const EXAMPLE := Credentials(SSID_RECORD[2..], PASS_RECORD[2..], HOST_RECORD[2..], 8765, TOKEN_RECORD[2..], [])

  const PAYLOAD := SSID_RECORD + PASS_RECORD + HOST_RECORD + PORT_RECORD + TOKEN_RECORD

  predicate Readable(record: seq<byte>)
  {
    |record| >= 2 && forall i :: 2 <= i < |record| ==> 0x20 <= record[i] < 0x7F
  }

  lemma ReadableText(record: seq<byte>)
    requires Readable(record)
    ensures Printable(record[2..])
  {
  }

  lemma ReadableToken()
    ensures Printable(TOKEN_RECORD[2..])
  {
    assert Readable([0, 0] + HEX_DIGITS);
    ReadableText([0, 0] + HEX_DIGITS);
    assert ([0, 0] + HEX_DIGITS)[2..] == HEX_DIGITS;
    hide HEX_DIGITS;
    assert TOKEN_RECORD[2..] == HEX_DIGITS + HEX_DIGITS;
  }

  lemma ExampleIsValid()
    ensures Validate(EXAMPLE) == Valid
  {
    assert Readable(SSID_RECORD) && Readable(PASS_RECORD) && Readable(HOST_RECORD);
    ReadableText(SSID_RECORD);
    ReadableText(PASS_RECORD);
    ReadableText(HOST_RECORD);
    ReadableToken();
    assert |SSID_RECORD| == 9 && |PASS_RECORD| == 14 && |HOST_RECORD| == 14 && |TOKEN_RECORD| == 34;
    assert Printable([]);
    hide Printable, SSID_RECORD, PASS_RECORD, HOST_RECORD, TOKEN_RECORD;
  }

  lemma OneText(dst: seq<byte>, tag: byte, record: seq<byte>)
    requires 2 < |record| < 258 && record[0] == tag && record[1] == |record| - 2
    ensures AppendString(dst, tag, record[2..]) == dst + record
  {
    assert record == [tag, |record| - 2] + record[2..];
  }

  lemma OnePort(dst: seq<byte>)
    ensures AppendPort(dst, 8765) == dst + PORT_RECORD
  {
    assert Le16(8765) == [0x3D, 0x22];
    assert [TAG_PORT, 2] + [0x3D, 0x22] == PORT_RECORD;
  }

  lemma NoOtaPassword(dst: seq<byte>)
    ensures AppendString(dst, TAG_OTA_PASS, []) == dst
  {
  }

  lemma ExamplePayload()
    ensures UncheckedPayload(EXAMPLE) == PAYLOAD && |PAYLOAD| == 75
  {
    OneText([], TAG_SSID, SSID_RECORD);
    OneText(SSID_RECORD, TAG_PASS, PASS_RECORD);
    OneText(SSID_RECORD + PASS_RECORD, TAG_HOST, HOST_RECORD);
    OnePort(SSID_RECORD + PASS_RECORD + HOST_RECORD);
    OneText(SSID_RECORD + PASS_RECORD + HOST_RECORD + PORT_RECORD, TAG_TOKEN, TOKEN_RECORD);
    hide AppendString, AppendPort;
    assert [] + SSID_RECORD == SSID_RECORD;
    NoOtaPassword(PAYLOAD);
  }

  lemma FrameOf75(payload: seq<byte>)
    requires |payload| == 75
    ensures var front := [0x01, 0x4B, 0x00] + payload;
            Frame(payload) == front + Crc32.Le32(Crc32.Checksum(front)) && |Frame(payload)| == 82
  {
    assert Le16(75) == [0x4B, 0x00];
    assert Header(payload) == [0x01, 0x4B, 0x00];
    hide Crc32.Le32, Crc32.Checksum;
  }

  /** The record is valid; its 82 bytes are a version, the payload's length with the low byte first, the records in the
      order of their tags, and the checksum with the low byte first; BEGIN announces 82 bytes; and the status after the
      five writes and the COMMIT says Ready, no error, five writes and 82 bytes. */
  lemma WorkedExample()
    ensures Validate(EXAMPLE) == Valid
    ensures Frame(UncheckedPayload(EXAMPLE))
            == [0x01, 0x4B, 0x00] + PAYLOAD + Crc32.Le32(Crc32.Checksum([0x01, 0x4B, 0x00] + PAYLOAD))
    ensures |Frame(UncheckedPayload(EXAMPLE))| == 82 && BeginCommand(82) == Some([0x01, 0x01, 0x52, 0x00])
    ensures [VERSION, StateCode(Ready), ErrorCode(NoError), 5] + Le16(82) == [0x01, 0x02, 0x00, 0x05, 0x52, 0x00]
    ensures Crc32.Le32(0x7672F676) == [0x76, 0xF6, 0x72, 0x76]
  {
    hide UncheckedPayload, Validate, PAYLOAD, EXAMPLE, Crc32.Checksum, Frame;
    ExampleIsValid();
    ExamplePayload();
    assert Le16(82) == [0x52, 0x00] && [OP_BEGIN, VERSION] + Le16(82) == [0x01, 0x01, 0x52, 0x00];
    FrameOf75(PAYLOAD);
    Crc32.LowByteFirst();
    hide Crc32.Le32;
  }
}
