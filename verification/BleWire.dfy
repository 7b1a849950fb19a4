/** The daemon's half of the wire format: which records it refuses, the stream it builds, and how
    it splits a stream into writes. */
module BleWire {
  import opened Bytes
  import opened Provision
  import opened BleFormat
  import Crc32

  const SAFE_CHUNK_DATA := 19
  const MAX_CHUNK_DATA := 240

  /** What the daemon wants the device to know; an empty string is a field left out, port 0 the default. */
  datatype Credentials = Credentials(ssid: seq<byte>, password: seq<byte>, host: seq<byte>, port: uint16,
                                     token: seq<byte>, otaPass: seq<byte>)

  datatype Field = Ssid | Password | Host | Token | OtaPassword

  datatype Validation = Valid | Invalid(field: Field, code: Error)

  function CheckText(field: Field, v: seq<byte>, cap: nat): Validation
  {
    if |v| > cap then Invalid(field, FieldTooLong)
    else if !Printable(v) then Invalid(field, ControlChar)
    else Valid
  }

  function CheckSsid(v: seq<byte>): Validation
  {
    if v == [] then Invalid(Ssid, MissingSsid) else CheckText(Ssid, v, MAX_SSID)
  }

  function CheckPassword(v: seq<byte>): Validation
  {
    if CheckText(Password, v, MAX_PASS) != Valid then CheckText(Password, v, MAX_PASS)
    else if 0 < |v| < MIN_WPA_PASS then Invalid(Password, PassTooShort)
    else Valid
  }

  /** The first field refused, in the daemon's order. */
  function Validate(c: Credentials): Validation
  {
    if CheckSsid(c.ssid) != Valid then CheckSsid(c.ssid)
    else if CheckPassword(c.password) != Valid then CheckPassword(c.password)
    else if CheckText(Host, c.host, MAX_HOST) != Valid then CheckText(Host, c.host, MAX_HOST)
    else if CheckText(Token, c.token, MAX_TOKEN) != Valid then CheckText(Token, c.token, MAX_TOKEN)
    else CheckText(OtaPassword, c.otaPass, MAX_OTA_PASS)
  }

  /** One text field, or nothing when it is empty. */
  function AppendString(dst: seq<byte>, tag: byte, v: seq<byte>): seq<byte>
  {
    if v == [] then dst else dst + [tag, |v| % 256] + v
  }

  function AppendPort(dst: seq<byte>, port: uint16): seq<byte>
  {
    if port == 0 then dst else dst + [TAG_PORT, 2] + Le16(port)
  }

  /** The payload for a record, whether or not the record is one the daemon would send. */
  function UncheckedPayload(c: Credentials): seq<byte>
  {
    AppendString(AppendString(AppendPort(AppendString(AppendString(AppendString([],
      TAG_SSID, c.ssid), TAG_PASS, c.password), TAG_HOST, c.host),
      c.port), TAG_TOKEN, c.token), TAG_OTA_PASS, c.otaPass)
  }

  datatype EncodeResult = Encoded(stream: seq<byte>) | Refusal(field: Field, code: Error) | RecordTooLarge

  /** Build the stream. A valid record never exceeds 306 bytes, so it is never too large for the device. */
  method Encode(c: Credentials) returns (r: EncodeResult)
    ensures match Validate(c)
            case Invalid(field, code) => r == Refusal(field, code)
            case Valid => r == Encoded(Frame(UncheckedPayload(c))) && |r.stream| <= 306
  {
    hide Crc32.Checksum, Crc32.Le32;
    var verdict := Validate(c);
    if verdict != Valid {
      return Refusal(verdict.field, verdict.code);
    }
    var payload := [];
    payload := AppendString(payload, TAG_SSID, c.ssid);
    payload := AppendString(payload, TAG_PASS, c.password);
    payload := AppendString(payload, TAG_HOST, c.host);
    payload := AppendPort(payload, c.port);
    payload := AppendString(payload, TAG_TOKEN, c.token);
    payload := AppendString(payload, TAG_OTA_PASS, c.otaPass);
    var total := STREAM_HEADER + |payload| + CRC_LEN;
    if total > MAX_STREAM {
      return RecordTooLarge;
    }
    var stream := [VERSION] + Le16(|payload|);
    stream := stream + payload;
    stream := stream + Crc32.Le32(Crc32.Checksum(stream));
    return Encoded(stream);
  }

  function BeginCommand(total: nat): Option<seq<byte>>
  {
    if total < MIN_STREAM || total > MAX_STREAM then None
    else Some([OP_BEGIN, VERSION] + Le16(total))
  }

  /** Stream bytes per write, from the largest value one write can carry. */
  function ChunkSize(maxWriteValue: int): (n: int)
    ensures SAFE_CHUNK_DATA <= n <= MAX_CHUNK_DATA
    ensures n + 1 <= maxWriteValue || n == SAFE_CHUNK_DATA
    ensures n + 1 == maxWriteValue || n == SAFE_CHUNK_DATA || n == MAX_CHUNK_DATA
  {
    var n := if maxWriteValue - 1 > MAX_CHUNK_DATA then MAX_CHUNK_DATA else maxWriteValue - 1;
    if n < SAFE_CHUNK_DATA then SAFE_CHUNK_DATA else n
  }

  /** Writes that carry exactly the stream, in order, in full-size pieces but for the last, numbered modulo 256. */
  predicate IsChunking(writes: seq<seq<byte>>, parts: seq<seq<byte>>, stream: seq<byte>, chunkData: int)
  {
    && |writes| == |parts|
    && Concat(parts) == stream
    && (forall k :: 0 <= k < |parts| ==> parts[k] != [] && |parts[k]| <= chunkData && writes[k] == [k % 256] + parts[k])
    && (forall k :: 0 <= k < |parts| - 1 ==> |parts[k]| == chunkData)
  }

  lemma EmptyConcat()
    ensures Concat([]) == []
  {
  }

  lemma ExtendChunking(writes: seq<seq<byte>>, parts: seq<seq<byte>>, stream: seq<byte>, chunkData: int,
                       part: seq<byte>)
    requires IsChunking(writes, parts, stream, chunkData) && part != [] && |part| <= chunkData
    requires forall k :: 0 <= k < |parts| ==> |parts[k]| == chunkData
    ensures IsChunking(writes + [[|writes| % 256] + part], parts + [part], stream + part, chunkData)
  {
    ConcatSnoc(parts, part);
  }

  /** Split a stream into data writes. */
  method Chunks(stream: seq<byte>, chunkData: int) returns (out: Option<seq<seq<byte>>>, ghost parts: seq<seq<byte>>)
    ensures out.None? <==> stream == [] || chunkData < 1
    ensures out.Some? ==> IsChunking(out.value, parts, stream, chunkData)
  {
    hide Concat;
    parts := [];
    EmptyConcat();
    if |stream| == 0 || chunkData < 1 {
      return None, [];
    }
    var writes := [];
    var number: byte := 0;
    var off := 0;
    while off < |stream|
      invariant 0 <= off
      invariant number == |writes| % 256
      invariant IsChunking(writes, parts, if off < |stream| then stream[..off] else stream, chunkData)
      invariant off < |stream| ==> forall k :: 0 <= k < |parts| ==> |parts[k]| == chunkData
      decreases |stream| - off
    {
      var end := off + chunkData;
      if end > |stream| {
        end := |stream|;
      }
      var part := stream[off..end];
      ExtendChunking(writes, parts, stream[..off], chunkData, part);
      assert stream[..off] + part == stream[..end];
      assert end == |stream| ==> stream[..end] == stream;
      writes := writes + [[number] + part];
      parts := parts + [part];
      number := (number + 1) % 256;
      off := off + chunkData;
    }
    return Some(writes), parts;
  }

  // --- status ---

  datatype Status = Status(version: byte, state: byte, error: byte, nextSeq: byte, received: uint16)

  function ParseStatus(b: seq<byte>): Option<Status>
  {
    if |b| < 6 then None else Some(Status(b[0], b[1], b[2], b[3], FromLe16(b[4], b[5])))
  }

  function StateOfCode(n: byte): Option<State>
  {
    if n == 0 then Some(Idle) else if n == 1 then Some(Receiving) else if n == 2 then Some(Ready)
    else if n == 3 then Some(Applying) else if n == 4 then Some(Applied) else if n == 5 then Some(Failed) else None
  }

  function ErrorOfCode(n: byte): Option<Error>
  {
    if n < 25 then
      Some([NoError, MalformedControl, UnknownOp, BadVersion, ShortStream, TooLarge, NotBegun, MalformedChunk,
            OutOfOrder, Overflow, Truncated, LengthMismatch, BadCrc, MalformedTlv, UnknownField, DuplicateField,
            FieldEmpty, FieldTooLong, ControlChar, PassTooShort, BadPort, MissingSsid, NotJoinable, SaveFailed,
            JoinFailed][n])
    else None
  }

  lemma CodesInvert(s: State, e: Error)
    ensures StateOfCode(StateCode(s)) == Some(s) && ErrorOfCode(ErrorCode(e)) == Some(e)
  {
  }

  /** What the daemon reads back from the status bytes the device publishes. */
  lemma StatusRoundTrip(s: State, e: Error, nextSeq: byte, received: nat)
    requires received < 0x1_0000
    ensures var read := ParseStatus([VERSION, StateCode(s), ErrorCode(e), nextSeq] + Le16(received));
            && read == Some(Status(VERSION, StateCode(s), ErrorCode(e), nextSeq, received))
            && StateOfCode(read.value.state) == Some(s) && ErrorOfCode(read.value.error) == Some(e)
  {
    CodesInvert(s, e);
    Le16RoundTrip(received);
    hide StateCode, ErrorCode, StateOfCode, ErrorOfCode;
  }
}
