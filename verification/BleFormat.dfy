/** The provisioning wire format both ends share: sizes, states, refusal codes, and what a stream means. */
module BleFormat {
  import opened Bytes
  import opened Provision
  import Crc32

  const VERSION: byte := 1
  const STREAM_HEADER := 3
  const CRC_LEN := 4
  const MIN_STREAM := 7
  const MAX_STREAM := 512

  const OP_BEGIN: byte := 1
  const OP_COMMIT: byte := 2
  const OP_ABORT: byte := 3

  const TAG_SSID: byte := 1
  const TAG_PASS: byte := 2
  const TAG_HOST: byte := 3
  const TAG_PORT: byte := 4
  const TAG_TOKEN: byte := 5
  const TAG_OTA_PASS: byte := 6
  const OPTIONAL_TAG: byte := 0x80

  datatype State = Idle | Receiving | Ready | Applying | Applied | Failed

  datatype Error =
    | NoError
    | MalformedControl | UnknownOp
    | BadVersion | ShortStream | TooLarge
    | NotBegun | MalformedChunk | OutOfOrder | Overflow
    | Truncated | LengthMismatch | BadCrc
    | MalformedTlv | UnknownField | DuplicateField | FieldEmpty | FieldTooLong
    | ControlChar | PassTooShort | BadPort | MissingSsid | NotJoinable
    | SaveFailed | JoinFailed

  /** The numbers on the wire, which both ends switch on. */
  function StateCode(s: State): byte
  {
    match s
    case Idle => 0
    case Receiving => 1
    case Ready => 2
    case Applying => 3
    case Applied => 4
    case Failed => 5
  }

  function ErrorCode(e: Error): byte
  {
    match e
    case NoError => 0
    case MalformedControl => 1
    case UnknownOp => 2
    case BadVersion => 3
    case ShortStream => 4
    case TooLarge => 5
    case NotBegun => 6
    case MalformedChunk => 7
    case OutOfOrder => 8
    case Overflow => 9
    case Truncated => 10
    case LengthMismatch => 11
    case BadCrc => 12
    case MalformedTlv => 13
    case UnknownField => 14
    case DuplicateField => 15
    case FieldEmpty => 16
    case FieldTooLong => 17
    case ControlChar => 18
    case PassTooShort => 19
    case BadPort => 20
    case MissingSsid => 21
    case NotJoinable => 22
    case SaveFailed => 23
    case JoinFailed => 24
  }

  /** What one mandatory field does to the record, or why it is refused. */
  datatype Stored = Rejected(error: Error) | Kept(fields: Fields)

  function StoreField(tag: byte, v: seq<byte>, f: Fields): (r: Stored)
    requires TAG_SSID <= tag <= TAG_OTA_PASS
  {
    if tag != TAG_PORT && !Printable(v) then Rejected(ControlChar)
    else if tag == TAG_SSID then
      if v == [] then Rejected(FieldEmpty)
      else if |v| > MAX_SSID then Rejected(FieldTooLong)
      else Kept(f.(ssid := v))
    else if tag == TAG_PASS then
      if |v| > MAX_PASS then Rejected(FieldTooLong)
      else if 0 < |v| < MIN_WPA_PASS then Rejected(PassTooShort)
      else Kept(f.(pass := v))
    else if tag == TAG_HOST then
      if |v| > MAX_HOST then Rejected(FieldTooLong) else Kept(f.(host := v))
    else if tag == TAG_PORT then
      if |v| != 2 || FromLe16(v[0], v[1]) == 0 then Rejected(BadPort)
      else Kept(f.(port := FromLe16(v[0], v[1])))
    else if tag == TAG_TOKEN then
      if |v| > MAX_TOKEN then Rejected(FieldTooLong) else Kept(f.(token := v))
    else
      if |v| > MAX_OTA_PASS then Rejected(FieldTooLong) else Kept(f.(otaPass := v))
  }

  datatype Parsed = Refused(error: Error) | Accepted(fields: Fields)

  datatype TlvOutcome = Bad(error: Error) | Good(seen: set<byte>, fields: Fields)

  /** The record list of a payload, read from the front; seen holds the mandatory tags met so far. */
  function ParseTlv(p: seq<byte>, seen: set<byte>, f: Fields): TlvOutcome
    decreases |p|
  {
    if p == [] then Good(seen, f)
    else if |p| < 2 || |p| < 2 + p[1] as int then Bad(MalformedTlv)
    else
      var tag, v, rest := p[0], p[2..2 + p[1] as int], p[2 + p[1] as int..];
      if tag >= OPTIONAL_TAG then ParseTlv(rest, seen, f)
      else if tag == 0 || tag > TAG_OTA_PASS then Bad(UnknownField)
      else if tag in seen then Bad(DuplicateField)
      else
        match StoreField(tag, v, f)
        case Rejected(e) => Bad(e)
        case Kept(g) => ParseTlv(rest, seen + {tag}, g)
  }

  function Verdict(sawSsid: bool, f: Fields): Parsed
  {
    if !sawSsid then Refused(MissingSsid)
    else if Sanitized(f).ssid == [] then Refused(NotJoinable)
    else Accepted(Sanitized(f))
  }

  /** The whole verdict on a payload. */
  function ParsePayload(p: seq<byte>): Parsed
  {
    match ParseTlv(p, {}, CLEARED)
    case Bad(e) => Refused(e)
    case Good(seen, f) => Verdict(TAG_SSID in seen, f)
  }

  /** The verdict on a receive buffer of which the first `declared` bytes are the stream. */
  function ParseBuffer(buf: seq<byte>, declared: nat, version: byte): Parsed
    requires |buf| >= MIN_STREAM && declared <= |buf|
  {
    if buf[0] != version then Refused(BadVersion)
    else
      var n := FromLe16(buf[1], buf[2]);
      if STREAM_HEADER + n + CRC_LEN != declared then Refused(LengthMismatch)
      else
        var at := STREAM_HEADER + n;
        if Crc32.FromLe32(buf[at], buf[at + 1], buf[at + 2], buf[at + 3]) != Crc32.Checksum(buf[..at])
        then Refused(BadCrc)
        else ParsePayload(buf[STREAM_HEADER..at])
  }

  // --- streams ---

  function Header(payload: seq<byte>): (r: seq<byte>)
  {
    [VERSION] + Le16(|payload|)
  }

  /** A payload framed for the wire: version, length, payload, checksum. */
  function Frame(payload: seq<byte>): (r: seq<byte>)
    ensures |r| == STREAM_HEADER + |payload| + CRC_LEN
  {
    Header(payload) + payload + Crc32.Le32(Crc32.Checksum(Header(payload) + payload))
  }

  /** The payload inside a stream. */
  function Payload(s: seq<byte>): seq<byte>
    requires |s| >= MIN_STREAM
  {
    s[STREAM_HEADER..|s| - CRC_LEN]
  }

  /** A correctly framed stream whose payload the decoder accepts. */
  predicate Sound(s: seq<byte>)
  {
    && MIN_STREAM <= |s| < MIN_STREAM + 0x1_0000
    && s == Frame(Payload(s))
    && ParsePayload(Payload(s)).Accepted?
  }

  lemma FrameParts(payload: seq<byte>)
    requires |payload| < 0x1_0000
    ensures var s := Frame(payload);
            && s[0] == VERSION && FromLe16(s[1], s[2]) == |payload|
            && s[..STREAM_HEADER + |payload|] == Header(payload) + payload
            && s[STREAM_HEADER..STREAM_HEADER + |payload|] == payload
            && s[STREAM_HEADER + |payload|..] == Crc32.Le32(Crc32.Checksum(Header(payload) + payload))
  {
    hide Crc32.Checksum, Crc32.Le32;
    Le16RoundTrip(|payload|);
    var h := Header(payload);
    assert Frame(payload)[1] == h[1] && Frame(payload)[2] == h[2];
  }

  /** A framed payload sitting at the front of the buffer is judged as that payload. */
  lemma ParseFrame(payload: seq<byte>, rest: seq<byte>)
    requires |payload| < 0x1_0000
    ensures ParseBuffer(Frame(payload) + rest, |Frame(payload)|, VERSION) == ParsePayload(payload)
  {
    FrameParts(payload);
    var s := Frame(payload);
    var buf, at := s + rest, STREAM_HEADER + |payload|;
    var sum := Crc32.Checksum(Header(payload) + payload);
    Crc32.Le32RoundTrip(sum);
    hide Crc32.Checksum, Crc32.Le32, Crc32.FromLe32, ParsePayload, Frame;
    assert s[at..] == Crc32.Le32(sum);
    assert buf[at] == s[at..][0] && buf[at + 1] == s[at..][1] && buf[at + 2] == s[at..][2] && buf[at + 3] == s[at..][3];
    assert buf[..at] == s[..at];
    assert buf[STREAM_HEADER..at] == s[STREAM_HEADER..at];
  }

  /** Four bytes that read as a checksum are the bytes that checksum is written as. */
  lemma ChecksumBytes(sum: bv32, b0: byte, b1: byte, b2: byte, b3: byte)
    requires Crc32.FromLe32(b0, b1, b2, b3) == sum
    ensures Crc32.Le32(sum) == [b0, b1, b2, b3]
  {
    Crc32.FromLe32RoundTrip(b0, b1, b2, b3);
    hide *;
  }

  lemma AcceptedIsFrame(buf: seq<byte>, declared: nat)
    requires |buf| >= MIN_STREAM && MIN_STREAM <= declared <= |buf|
    requires ParseBuffer(buf, declared, VERSION).Accepted?
    ensures declared - MIN_STREAM < 0x1_0000
    ensures buf[..declared] == Frame(buf[STREAM_HEADER..declared - CRC_LEN])
    ensures ParsePayload(buf[STREAM_HEADER..declared - CRC_LEN]).Accepted?
  {
    hide Crc32.Checksum, Crc32.Le32, Crc32.FromLe32, ParsePayload;
    var n := FromLe16(buf[1], buf[2]);
    var at := STREAM_HEADER + n;
    var payload := buf[STREAM_HEADER..at];
    assert Le16(n) == [buf[1], buf[2]];
    assert buf[..at] == Header(payload) + payload;
    ChecksumBytes(Crc32.Checksum(buf[..at]), buf[at], buf[at + 1], buf[at + 2], buf[at + 3]);
    assert buf[at..declared] == Crc32.Le32(Crc32.Checksum(buf[..at]));
    assert buf[..declared] == buf[..at] + buf[at..declared];
  }

  /** A receive buffer is accepted exactly when its declared part is a sound stream. */
  lemma AcceptedIffSound(buf: seq<byte>, declared: nat)
    requires |buf| >= MIN_STREAM && MIN_STREAM <= declared <= |buf|
    ensures ParseBuffer(buf, declared, VERSION).Accepted? <==> Sound(buf[..declared])
    ensures Sound(buf[..declared]) ==> ParseBuffer(buf, declared, VERSION) == ParsePayload(Payload(buf[..declared]))
  {
    hide ParseBuffer, ParsePayload, Frame;
    var s := buf[..declared];
    var p := Payload(s);
    if ParseBuffer(buf, declared, VERSION).Accepted? {
      AcceptedIsFrame(buf, declared);
      assert p == buf[STREAM_HEADER..declared - CRC_LEN];
    }
    if Sound(s) {
      ParseFrame(p, buf[declared..]);
      assert buf == Frame(p) + buf[declared..];
    }
  }

  lemma FrameSound(payload: seq<byte>)
    requires |payload| < 0x1_0000
    ensures Payload(Frame(payload)) == payload
    ensures Sound(Frame(payload)) <==> ParsePayload(payload).Accepted?
  {
    FrameParts(payload);
  }

  /** A record that a payload yields is one repair leaves alone, with a network name: the last two
      checks of the decoder never fire on what its field checks let through. */
  lemma {:induction false} TlvKeepsClean(p: seq<byte>, seen: set<byte>, f: Fields)
    requires Clean(f) && (TAG_SSID in seen ==> f.ssid != [])
    ensures var r := ParseTlv(p, seen, f);
            r.Good? ==> Clean(r.fields) && (TAG_SSID in r.seen ==> r.fields.ssid != [])
    ensures ParseTlv(p, seen, f) != Bad(NotJoinable) && ParseTlv(p, seen, f) != Bad(NoError)
    decreases |p|
  {
    if |p| >= 2 && |p| >= 2 + p[1] as int {
      var tag, v, rest := p[0], p[2..2 + p[1] as int], p[2 + p[1] as int..];
      if tag >= OPTIONAL_TAG {
        TlvKeepsClean(rest, seen, f);
      } else if TAG_SSID <= tag <= TAG_OTA_PASS && tag !in seen && StoreField(tag, v, f).Kept? {
        TlvKeepsClean(rest, seen + {tag}, StoreField(tag, v, f).fields);
      }
    }
  }

  lemma PayloadVerdict(p: seq<byte>)
    ensures ParsePayload(p) != Refused(NotJoinable) && ParsePayload(p) != Refused(NoError)
    ensures ParsePayload(p).Accepted? ==>
              && ParseTlv(p, {}, CLEARED).Good?
              && ParsePayload(p).fields == ParseTlv(p, {}, CLEARED).fields
              && Clean(ParsePayload(p).fields) && ParsePayload(p).fields.ssid != []
  {
    TlvKeepsClean(p, {}, CLEARED);
    var r := ParseTlv(p, {}, CLEARED);
    if r.Good? {
      SanitizeCleans(r.fields);
    }
  }
}
