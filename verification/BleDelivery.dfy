/** The two ends together: every record the daemon accepts arrives whole, no damaged or incomplete
    stream is ever committed, and the two validators agree. */
module BleDelivery {
  import opened Bytes
  import opened Provision
  import opened BleFormat
  import opened BleMachine
  import opened BleRuns
  import opened BleTlv
  import opened BleWire
  import opened BleDecoder
  import Crc32

  // --- the daemon's payload, as a list of records ---

  function Text(tag: byte, v: seq<byte>): seq<Tlv>
  {
    if v == [] then [] else [Tlv(tag, v)]
  }

  function Port(port: uint16): seq<Tlv>
  {
    if port == 0 then [] else [Tlv(TAG_PORT, Le16(port))]
  }

  function Records(c: Credentials): seq<Tlv>
  {
    Text(TAG_SSID, c.ssid) + Text(TAG_PASS, c.password) + Text(TAG_HOST, c.host) + Port(c.port)
    + Text(TAG_TOKEN, c.token) + Text(TAG_OTA_PASS, c.otaPass)
  }

  /** Every value fits the one byte its length is written in. */
  predicate FitsLengthBytes(c: Credentials)
  {
    |c.ssid| < 256 && |c.password| < 256 && |c.host| < 256 && |c.token| < 256 && |c.otaPass| < 256
  }

  lemma FlattenSingle(t: Tlv)
    requires |t.value| < 256
    ensures Sized([t]) && Flatten([t]) == [t.tag, |t.value|] + t.value
  {
    assert [t][1..] == [];
  }

  lemma FlattenText(dst: seq<Tlv>, tag: byte, v: seq<byte>)
    requires Sized(dst) && |v| < 256
    ensures Sized(dst + Text(tag, v)) && Flatten(dst + Text(tag, v)) == AppendString(Flatten(dst), tag, v)
  {
    FlattenAppend(dst, Text(tag, v));
    if v != [] {
      FlattenSingle(Tlv(tag, v));
    }
    hide Flatten;
  }

  lemma FlattenPort(dst: seq<Tlv>, port: uint16)
    requires Sized(dst)
    ensures Sized(dst + Port(port)) && Flatten(dst + Port(port)) == AppendPort(Flatten(dst), port)
  {
    FlattenAppend(dst, Port(port));
    if port != 0 {
      FlattenSingle(Tlv(TAG_PORT, Le16(port)));
    }
    hide Flatten;
  }

  lemma EmptyList()
    ensures Sized([]) && Flatten([]) == []
  {
  }

  lemma PayloadIsRecords(c: Credentials)
    requires FitsLengthBytes(c)
    ensures Sized(Records(c)) && UncheckedPayload(c) == Flatten(Records(c))
  {
    hide Flatten, AppendString, AppendPort, Text, Port, Sized;
    assert Sized([]) && Flatten([]) == [] by { EmptyList(); }
    var r1 := [] + Text(TAG_SSID, c.ssid);
    FlattenText([], TAG_SSID, c.ssid);
    var r2 := r1 + Text(TAG_PASS, c.password);
    FlattenText(r1, TAG_PASS, c.password);
    var r3 := r2 + Text(TAG_HOST, c.host);
    FlattenText(r2, TAG_HOST, c.host);
    var r4 := r3 + Port(c.port);
    FlattenPort(r3, c.port);
    var r5 := r4 + Text(TAG_TOKEN, c.token);
    FlattenText(r4, TAG_TOKEN, c.token);
    FlattenText(r5, TAG_OTA_PASS, c.otaPass);
    assert r1 == Text(TAG_SSID, c.ssid);
  }

  // --- the device's verdict, field by field ---

  function Stage(o: TlvOutcome, tag: byte, v: seq<byte>): TlvOutcome
  {
    if v == [] then o else StepTlv(o, Tlv(tag, v))
  }

  function Stages(c: Credentials): TlvOutcome
  {
    var o3 := Stage(Stage(Stage(Good({}, CLEARED), TAG_SSID, c.ssid), TAG_PASS, c.password), TAG_HOST, c.host);
    var o4 := if c.port == 0 then o3 else StepTlv(o3, Tlv(TAG_PORT, Le16(c.port)));
    Stage(Stage(o4, TAG_TOKEN, c.token), TAG_OTA_PASS, c.otaPass)
  }

  lemma ParseSingle(t: Tlv, o: TlvOutcome)
    ensures ParseList([t], o) == StepTlv(o, t)
  {
    assert [t][1..] == [];
    assert ParseList([], StepTlv(o, t)) == StepTlv(o, t);
  }

  lemma StageText(dst: seq<Tlv>, tag: byte, v: seq<byte>, o: TlvOutcome)
    ensures ParseList(dst + Text(tag, v), o) == Stage(ParseList(dst, o), tag, v)
  {
    ParseListAppend(dst, Text(tag, v), o);
    if v != [] {
      ParseSingle(Tlv(tag, v), ParseList(dst, o));
    }
  }

  lemma StagePort(dst: seq<Tlv>, port: uint16, o: TlvOutcome)
    ensures ParseList(dst + Port(port), o)
         == if port == 0 then ParseList(dst, o) else StepTlv(ParseList(dst, o), Tlv(TAG_PORT, Le16(port)))
  {
    ParseListAppend(dst, Port(port), o);
    if port != 0 {
      ParseSingle(Tlv(TAG_PORT, Le16(port)), ParseList(dst, o));
    }
  }

  lemma RecordsInStages(c: Credentials)
    ensures ParseList(Records(c), Good({}, CLEARED)) == Stages(c)
  {
    hide StepTlv, Stage, Text, Port;
    var o := Good({}, CLEARED);
    assert ParseList([], o) == o;
    hide ParseList;
    var r1 := [] + Text(TAG_SSID, c.ssid);
    StageText([], TAG_SSID, c.ssid, o);
    var r2 := r1 + Text(TAG_PASS, c.password);
    StageText(r1, TAG_PASS, c.password, o);
    var r3 := r2 + Text(TAG_HOST, c.host);
    StageText(r2, TAG_HOST, c.host, o);
    var r4 := r3 + Port(c.port);
    StagePort(r3, c.port, o);
    var r5 := r4 + Text(TAG_TOKEN, c.token);
    StageText(r4, TAG_TOKEN, c.token, o);
    StageText(r5, TAG_OTA_PASS, c.otaPass, o);
    assert r1 == Text(TAG_SSID, c.ssid);
  }

  /** The record the device should end up with. */
  function Received(c: Credentials): Fields
  {
    Fields(c.ssid, c.password, c.host, if c.port == 0 then DEFAULT_PORT else c.port, c.token, c.otaPass)
  }

  /** The pieces kept when some are dropped. */
  function Kept(items: seq<seq<byte>>, keep: seq<bool>): seq<seq<byte>>
    requires |items| == |keep|
  {
    if items == [] then [] else (if keep[0] then [items[0]] else []) + Kept(items[1..], keep[1..])
  }

  /** Why the device refuses one field on its own, if it does. */
  function FieldError(tag: byte, v: seq<byte>): Option<Error>
    requires TAG_SSID <= tag <= TAG_OTA_PASS
  {
    if v == [] then None
    else match StoreField(tag, v, CLEARED) case Rejected(e) => Some(e) case Kept(_) => None
  }

  function FirstOf(a: Option<Error>, b: Option<Error>): Option<Error>
  {
    if a.Some? then a else b
  }

  /** The device's verdict on the daemon's payload: the first field at fault, in the payload's order. */
  function DeviceRefusal(c: Credentials): Option<Error>
  {
    FirstOf(FieldError(TAG_SSID, c.ssid), FirstOf(FieldError(TAG_PASS, c.password),
    FirstOf(FieldError(TAG_HOST, c.host),
    FirstOf(FieldError(TAG_TOKEN, c.token), FirstOf(FieldError(TAG_OTA_PASS, c.otaPass),
    if c.ssid == [] then Some(MissingSsid) else None)))))
  }

  lemma StageMeaning(o: TlvOutcome, tag: byte, v: seq<byte>)
    requires o.Good? && TAG_SSID <= tag <= TAG_OTA_PASS && tag != TAG_PORT && tag !in o.seen
    ensures match FieldError(tag, v)
            case Some(e) => Stage(o, tag, v) == Bad(e)
            case None => v != [] ==> Stage(o, tag, v) == Good(o.seen + {tag}, StoreField(tag, v, o.fields).fields)
  {
  }

  lemma BadStays(e: Error, tag: byte, v: seq<byte>)
    ensures Stage(Bad(e), tag, v) == Bad(e)
  {
  }

  /** The fields stored so far, after the stages up to a tag. */
  predicate Stored(o: TlvOutcome, c: Credentials, upTo: byte)
  {
    && o.Good?
    && (forall t :: t in o.seen ==> TAG_SSID <= t <= upTo)
    && (upTo >= TAG_SSID ==> (TAG_SSID in o.seen <==> c.ssid != []))
    && o.fields.ssid == (if upTo >= TAG_SSID then c.ssid else [])
    && o.fields.pass == (if upTo >= TAG_PASS then c.password else [])
    && o.fields.host == (if upTo >= TAG_HOST then c.host else [])
    && o.fields.port == (if upTo >= TAG_PORT && c.port != 0 then c.port else DEFAULT_PORT)
    && o.fields.token == (if upTo >= TAG_TOKEN then c.token else [])
    && o.fields.otaPass == (if upTo >= TAG_OTA_PASS then c.otaPass else [])
  }

  function ValueOf(c: Credentials, tag: byte): seq<byte>
    requires TAG_SSID <= tag <= TAG_OTA_PASS && tag != TAG_PORT
  {
    if tag == TAG_SSID then c.ssid else if tag == TAG_PASS then c.password else if tag == TAG_HOST then c.host
    else if tag == TAG_TOKEN then c.token else c.otaPass
  }

  lemma StoreStage(o: TlvOutcome, c: Credentials, tag: byte)
    requires TAG_SSID <= tag <= TAG_OTA_PASS && tag != TAG_PORT && Stored(o, c, tag - 1)
    ensures match FieldError(tag, ValueOf(c, tag))
            case Some(e) => Stage(o, tag, ValueOf(c, tag)) == Bad(e)
            case None => Stored(Stage(o, tag, ValueOf(c, tag)), c, tag)
  {
    StageMeaning(o, tag, ValueOf(c, tag));
  }

  lemma StorePort(o: TlvOutcome, c: Credentials)
    requires Stored(o, c, TAG_HOST)
    ensures Stored(if c.port == 0 then o else StepTlv(o, Tlv(TAG_PORT, Le16(c.port))), c, TAG_PORT)
  {
    Le16RoundTrip(c.port);
  }

  lemma BadStep(e: Error, t: Tlv)
    ensures StepTlv(Bad(e), t) == Bad(e)
  {
  }

  lemma StagesMeaning(c: Credentials)
    ensures match DeviceRefusal(c)
            case Some(e) => Stages(c) == Bad(e)
                            || (e == MissingSsid && c.ssid == [] && Stages(c).Good? && TAG_SSID !in Stages(c).seen)
            case None => Stored(Stages(c), c, TAG_OTA_PASS) && c.ssid != []
  {
    hide Stage, StepTlv, FieldError;
    var o0 := Good({}, CLEARED);
    assert Stored(o0, c, 0);
    var o1 := Stage(o0, TAG_SSID, c.ssid);
    StoreStage(o0, c, TAG_SSID);
    var o2 := Stage(o1, TAG_PASS, c.password);
    if o1.Good? { StoreStage(o1, c, TAG_PASS); } else { BadStays(o1.error, TAG_PASS, c.password); }
    var o3 := Stage(o2, TAG_HOST, c.host);
    if o2.Good? { StoreStage(o2, c, TAG_HOST); } else { BadStays(o2.error, TAG_HOST, c.host); }
    var o4 := if c.port == 0 then o3 else StepTlv(o3, Tlv(TAG_PORT, Le16(c.port)));
    if o3.Good? { StorePort(o3, c); } else { BadStep(o3.error, Tlv(TAG_PORT, Le16(c.port))); }
    var o5 := Stage(o4, TAG_TOKEN, c.token);
    if o4.Good? { StoreStage(o4, c, TAG_TOKEN); } else { BadStays(o4.error, TAG_TOKEN, c.token); }
    var o6 := Stage(o5, TAG_OTA_PASS, c.otaPass);
    if o5.Good? { StoreStage(o5, c, TAG_OTA_PASS); } else { BadStays(o5.error, TAG_OTA_PASS, c.otaPass); }
  }

  lemma DeviceVerdict(c: Credentials)
    requires FitsLengthBytes(c)
    ensures ParsePayload(UncheckedPayload(c)) ==
            match DeviceRefusal(c) case Some(e) => Refused(e) case None => Accepted(Received(c))
  {
    PayloadIsRecords(c);
    ParseFlat(Records(c), {}, CLEARED);
    RecordsInStages(c);
    hide ParseTlv, UncheckedPayload, Records;
    StagesMeaning(c);
    PayloadVerdict(UncheckedPayload(c));
  }

  // --- the two validators ---

  function Code(v: Validation): Option<Error>
  {
    match v case Valid => None case Invalid(_, e) => Some(e)
  }

  /** A value that is both over-long and holds a control character: the two ends name different faults. */
  predicate Ambiguous(v: seq<byte>, cap: nat)
  {
    |v| > cap && !Printable(v)
  }

  lemma TextAgrees(field: Field, tag: byte, v: seq<byte>, cap: nat)
    requires (tag, cap) == (TAG_HOST, MAX_HOST) || (tag, cap) == (TAG_TOKEN, MAX_TOKEN)
             || (tag, cap) == (TAG_OTA_PASS, MAX_OTA_PASS)
    ensures CheckText(field, v, cap) == Valid <==> FieldError(tag, v) == None
    ensures !Ambiguous(v, cap) ==> Code(CheckText(field, v, cap)) == FieldError(tag, v)
    ensures Ambiguous(v, cap) ==>
              Code(CheckText(field, v, cap)) == Some(FieldTooLong) && FieldError(tag, v) == Some(ControlChar)
  {
  }

  lemma PasswordAgrees(v: seq<byte>)
    ensures CheckPassword(v) == Valid <==> FieldError(TAG_PASS, v) == None
    ensures !Ambiguous(v, MAX_PASS) ==> Code(CheckPassword(v)) == FieldError(TAG_PASS, v)
    ensures Ambiguous(v, MAX_PASS) ==>
              Code(CheckPassword(v)) == Some(FieldTooLong) && FieldError(TAG_PASS, v) == Some(ControlChar)
  {
  }

  lemma SsidAgrees(v: seq<byte>)
    requires v != []
    ensures CheckSsid(v) == Valid <==> FieldError(TAG_SSID, v) == None
    ensures !Ambiguous(v, MAX_SSID) ==> Code(CheckSsid(v)) == FieldError(TAG_SSID, v)
    ensures Ambiguous(v, MAX_SSID) ==>
              Code(CheckSsid(v)) == Some(FieldTooLong) && FieldError(TAG_SSID, v) == Some(ControlChar)
  {
  }

  lemma AllAgree(c: Credentials)
    ensures c.ssid != [] ==> (CheckSsid(c.ssid) == Valid <==> FieldError(TAG_SSID, c.ssid) == None)
    ensures CheckPassword(c.password) == Valid <==> FieldError(TAG_PASS, c.password) == None
    ensures CheckText(Host, c.host, MAX_HOST) == Valid <==> FieldError(TAG_HOST, c.host) == None
    ensures CheckText(Token, c.token, MAX_TOKEN) == Valid <==> FieldError(TAG_TOKEN, c.token) == None
    ensures CheckText(OtaPassword, c.otaPass, MAX_OTA_PASS) == Valid <==> FieldError(TAG_OTA_PASS, c.otaPass) == None
  {
    if c.ssid != [] { SsidAgrees(c.ssid); }
    PasswordAgrees(c.password);
    TextAgrees(Host, TAG_HOST, c.host, MAX_HOST);
    TextAgrees(Token, TAG_TOKEN, c.token, MAX_TOKEN);
    TextAgrees(OtaPassword, TAG_OTA_PASS, c.otaPass, MAX_OTA_PASS);
  }

  /** The daemon accepts a record exactly when the device accepts its encoding. */
  lemma ValidatorsAgree(c: Credentials)
    requires FitsLengthBytes(c) && |Frame(UncheckedPayload(c))| <= MAX_STREAM
    ensures Validate(c) == Valid <==> ParsePayload(UncheckedPayload(c)).Accepted?
  {
    DeviceVerdict(c);
    AllAgree(c);
    hide FieldError, CheckText, CheckPassword, UncheckedPayload;
  }

  /** The first field the daemon refuses is one both ends describe the same way: with no network name
      nothing else is at fault, and otherwise it is not both over-long and unprintable. */
  predicate SameWords(c: Credentials)
  {
    if c.ssid == [] then
      && CheckPassword(c.password) == Valid && CheckText(Host, c.host, MAX_HOST) == Valid
      && CheckText(Token, c.token, MAX_TOKEN) == Valid && CheckText(OtaPassword, c.otaPass, MAX_OTA_PASS) == Valid
    else
      match Validate(c)
      case Valid => true
      case Invalid(Ssid, _) => !Ambiguous(c.ssid, MAX_SSID)
      case Invalid(Password, _) => !Ambiguous(c.password, MAX_PASS)
      case Invalid(Host, _) => !Ambiguous(c.host, MAX_HOST)
      case Invalid(Token, _) => !Ambiguous(c.token, MAX_TOKEN)
      case Invalid(OtaPassword, _) => !Ambiguous(c.otaPass, MAX_OTA_PASS)
  }

  lemma EmptySsidCodes(c: Credentials)
    requires c.ssid == []
    ensures Validate(c) == Invalid(Ssid, MissingSsid)
    ensures FieldError(TAG_SSID, c.ssid) == None
    ensures FieldError(TAG_PASS, c.password) != Some(MissingSsid) && FieldError(TAG_HOST, c.host) != Some(MissingSsid)
    ensures FieldError(TAG_TOKEN, c.token) != Some(MissingSsid)
            && FieldError(TAG_OTA_PASS, c.otaPass) != Some(MissingSsid)
  {
  }

  lemma CodeField(c: Credentials)
    ensures CheckSsid(c.ssid) != Valid ==> CheckSsid(c.ssid).field == Ssid
    ensures CheckPassword(c.password) != Valid ==> CheckPassword(c.password).field == Password
    ensures CheckText(Host, c.host, MAX_HOST) != Valid ==> CheckText(Host, c.host, MAX_HOST).field == Host
    ensures CheckText(Token, c.token, MAX_TOKEN) != Valid ==> CheckText(Token, c.token, MAX_TOKEN).field == Token
    ensures CheckText(OtaPassword, c.otaPass, MAX_OTA_PASS) != Valid ==>
              CheckText(OtaPassword, c.otaPass, MAX_OTA_PASS).field == OtaPassword
  {
  }

  /** The refusal codes of the two ends are equal exactly when SameWords holds. */
  lemma RefusalCodesAgreeIff(c: Credentials)
    requires FitsLengthBytes(c) && |Frame(UncheckedPayload(c))| <= MAX_STREAM
    ensures Code(Validate(c))
            == (match ParsePayload(UncheckedPayload(c)) case Refused(e) => Some(e) case Accepted(_) => None)
       <==> SameWords(c)
  {
    DeviceVerdict(c);
    AllAgree(c);
    if c.ssid != [] { SsidAgrees(c.ssid); }
    PasswordAgrees(c.password);
    TextAgrees(Host, TAG_HOST, c.host, MAX_HOST);
    TextAgrees(Token, TAG_TOKEN, c.token, MAX_TOKEN);
    TextAgrees(OtaPassword, TAG_OTA_PASS, c.otaPass, MAX_OTA_PASS);
    if c.ssid == [] { EmptySsidCodes(c); }
    CodeField(c);
    hide FieldError, UncheckedPayload, Ambiguous, CheckText, CheckPassword, CheckSsid;
  }

  // --- delivery ---

  /** The writes of one transfer. */
  function Writes(chunks: seq<seq<byte>>): seq<Call>
  {
    seq(|chunks|, k requires 0 <= k < |chunks| => ChunkWrite(chunks[k]))
  }

  lemma WritesSnoc(writes: seq<seq<byte>>, last: seq<byte>)
    ensures Writes(writes + [last]) == Writes(writes) + [ChunkWrite(last)]
  {
  }

  function Transfer(n: nat, chunks: seq<seq<byte>>): seq<Call>
  {
    [ControlWrite([OP_BEGIN, VERSION] + Le16(n))] + Writes(chunks) + [ControlWrite([OP_COMMIT])]
  }

  lemma TransferCommits(parts: seq<seq<byte>>, chunks: seq<seq<byte>>)
    requires MIN_STREAM <= |Concat(parts)| <= MAX_STREAM && |chunks| == |parts|
    requires forall k :: 0 <= k < |parts| ==> parts[k] != [] && chunks[k] == [k % 256] + parts[k]
    ensures Commits(Transfer(|Concat(parts)|, chunks), parts)
  {
    var n := |Concat(parts)|;
    var calls := Transfer(n, chunks);
    var init := calls[..|calls| - 1];
    assert init == [ControlWrite([OP_BEGIN, VERSION] + Le16(n))] + Writes(chunks);
    assert init[|init| - |parts|..] == Writes(chunks);
  }

  lemma PayloadBound(c: Credentials)
    requires Validate(c) == Valid
    ensures FitsLengthBytes(c) && |UncheckedPayload(c)| <= 299
  {
  }

  lemma ValidIsSound(c: Credentials)
    requires Validate(c) == Valid
    ensures FitsLengthBytes(c) && MIN_STREAM <= |Frame(UncheckedPayload(c))| <= 306
    ensures Sound(Frame(UncheckedPayload(c)))
    ensures ParsePayload(Payload(Frame(UncheckedPayload(c)))) == Accepted(Received(c))
  {
    PayloadBound(c);
    DeviceVerdict(c);
    AllAgree(c);
    FrameSound(UncheckedPayload(c));
    hide FieldError, UncheckedPayload, Frame, ParsePayload, Sound, CheckText, CheckPassword;
  }

  /** End to end: for every record the daemon accepts, every chunk size, and whatever state the decoder was
      left in, sending the encoding leaves it Ready and holding exactly that record. */
  lemma Delivery(v: View, c: Credentials, chunks: seq<seq<byte>>, parts: seq<seq<byte>>, chunkData: int)
    requires ValidView(v) && Validate(c) == Valid
    requires IsChunking(chunks, parts, Frame(UncheckedPayload(c)), chunkData)
    ensures var w := Run(v, Transfer(|Frame(UncheckedPayload(c))|, chunks));
            w.state == Ready && w.error == NoError && w.fields == Received(c)
  {
    var s := Frame(UncheckedPayload(c));
    ValidIsSound(c);
    hide Frame, UncheckedPayload, Sound, Validate, ParsePayload, Transfer, Control, Chunk, Concat;
    TransferCommits(parts, chunks);
    CommitsVerdict(v, Transfer(|s|, chunks), parts);
  }

  /** The daemon announces a stream exactly when the device would take it, in the four bytes it takes. */
  lemma BeginAgrees(v: View, n: nat)
    requires ValidView(v) && n < 0x1_0000
    ensures BeginCommand(n).Some? <==> Control(v, [1, 1] + Le16(n)).1 == NoError
    ensures BeginCommand(n).Some? ==> BeginCommand(n).value == [1, 1] + Le16(n)
  {
    Le16RoundTrip(n);
    assert [OP_BEGIN, VERSION] == [1, 1];
  }

  /** How a sending ends. */
  datatype Outcome =
    | InvalidRecord(field: BleWire.Field, code: Error)
    | DeviceTooSmall
    | Cancelled
    | Committed

  /** What the daemon takes for a refusal by the device, from the status it publishes. */
  method DeviceError(d: Decoder) returns (code: Option<byte>)
    requires d.Valid()
    ensures code == if d.state == Failed then Some(ErrorCode(d.error)) else None
  {
    var b := d.EncodeStatus();
    var status := ParseStatus(b).value;
    CodesInvert(d.state, d.error);
    return if StateOfCode(status.state) == Some(Failed) then Some(status.error) else None;
  }

  lemma PrefixFits(parts: seq<seq<byte>>, i: nat)
    requires i < |parts|
    ensures |Concat(parts[..i])| + |parts[i]| <= |Concat(parts)| && parts[..i + 1] == parts[..i] + [parts[i]]
  {
    assert parts == parts[..i + 1] + parts[i + 1..] && parts[..i + 1] == parts[..i] + [parts[i]];
    ConcatAppend(parts[..i + 1], parts[i + 1..]);
    ConcatSnoc(parts[..i], parts[i]);
  }

  predicate AnyBelow(cancelled: nat -> bool, n: nat)
  {
    exists i :: 0 <= i < n && cancelled(i)
  }

  /** The write that puts the device into a transfer. Its status then holds no refusal, so the daemon goes on. */
  method SendBegin(d: Decoder, total: nat) returns (code: Option<byte>)
    requires d.Valid() && MIN_STREAM <= total <= MAX_STREAM
    modifies d.Repr()
    ensures d.Valid() && code == None && d.Contents() == InTransfer(total, [])
  {
    hide Control, ParseBuffer;
    var begin := BeginCommand(total).value;
    BeginBytes(total);
    BeginMeaning(d.Contents(), begin);
    var _ := d.OnControl(begin);
    code := DeviceError(d);
  }

  /** One data write of a transfer, and the same for it. */
  method SendChunk(d: Decoder, chunk: seq<byte>, total: nat, ghost parts: seq<seq<byte>>, ghost i: nat)
    returns (code: Option<byte>)
    requires d.Valid() && i < |parts| && total == |Concat(parts)| && MIN_STREAM <= total <= MAX_STREAM
    requires parts[i] != [] && chunk == [i % 256] + parts[i]
    requires |Concat(parts[..i])| <= total && d.Contents() == InTransfer(total, parts[..i])
    modifies d, d.buf
    ensures d.Valid() && code == None
    ensures |Concat(parts[..i + 1])| <= total && d.Contents() == InTransfer(total, parts[..i + 1])
  {
    hide Chunk, Concat;
    PrefixFits(parts, i);
    NextChunk(total, parts[..i], parts[i]);
    var _ := d.OnChunk(chunk);
    code := DeviceError(d);
  }

  /** COMMIT of a complete transfer of a valid record. */
  method SendCommit(d: Decoder, c: Credentials, ghost parts: seq<seq<byte>>)
    requires d.Valid() && Validate(c) == Valid && Concat(parts) == Frame(UncheckedPayload(c))
    requires |Concat(parts)| <= MAX_STREAM && d.Contents() == InTransfer(|Concat(parts)|, parts)
    modifies d.Repr()
    ensures d.Valid() && d.state == Ready && d.error == NoError && d.rec.Value() == Received(c)
  {
    hide Frame, UncheckedPayload, Sound, Control, ParsePayload, ParseBuffer, Concat, Validate, Received;
    ValidIsSound(c);
    CommitVerdict(|Concat(parts)|, parts);
    ReadyHasNoError(d.Contents());
    var _ := d.OnControl([OP_COMMIT]);
  }

  method SendAbort(d: Decoder)
    requires d.Valid()
    modifies d.Repr()
    ensures d.Valid() && d.Contents() == FRESH && d.rec.Wiped()
  {
    var _ := d.OnControl([OP_ABORT]);
  }

  /** So many pieces of that size cut up a total, and no fewer. */
  predicate Pieces(count: nat, size: int, total: nat)
  {
    count >= 1 && (count - 1) * size < total <= count * size
  }

  lemma OneMore(n: nat, size: int)
    ensures (n + 1) * size == n * size + size
  {
  }

  lemma {:induction false} FullParts(parts: seq<seq<byte>>, chunkData: int)
    requires forall k :: 0 <= k < |parts| ==> |parts[k]| == chunkData
    ensures |Concat(parts)| == |parts| * chunkData
  {
    if parts != [] {
      FullParts(parts[1..], chunkData);
      OneMore(|parts[1..]|, chunkData);
    }
  }

  lemma PiecesOf(front: seq<seq<byte>>, last: seq<byte>, chunkData: int)
    requires (forall k :: 0 <= k < |front| ==> |front[k]| == chunkData) && 0 < |last| <= chunkData
    ensures Pieces(|front| + 1, chunkData, |Concat(front + [last])|)
  {
    FullParts(front, chunkData);
    ConcatSnoc(front, last);
    hide Concat;
    OneMore(|front|, chunkData);
  }

  /** What a chunking says of its parts, one by one, and of their number. */
  lemma ChunkingMeans(writes: seq<seq<byte>>, parts: seq<seq<byte>>, stream: seq<byte>, chunkData: int)
    requires IsChunking(writes, parts, stream, chunkData) && stream != [] && chunkData >= 1
    ensures |writes| == |parts| >= 1 && Concat(parts) == stream && parts[..0] == []
    ensures forall k :: 0 <= k < |parts| ==> parts[k] != [] && writes[k] == [k % 256] + parts[k]
    ensures Pieces(|parts|, chunkData, |stream|)
  {
    EmptyConcat();
    hide Concat, Pieces;
    var front, last := parts[..|parts| - 1], parts[|parts| - 1];
    assert parts == front + [last];
    PiecesOf(front, last, chunkData);
  }

  /** BEGIN and the data writes of a stream, unless cancelled before one of them. */
  method SendStream(d: Decoder, stream: seq<byte>, chunkData: int, cancelled: nat -> bool)
    returns (finished: bool, ghost parts: seq<seq<byte>>)
    requires d.Valid() && MIN_STREAM <= |stream| <= MAX_STREAM && chunkData >= 1
    modifies d.Repr()
    ensures d.Valid() && Concat(parts) == stream && Pieces(|parts|, chunkData, |stream|)
    ensures finished <==> !AnyBelow(cancelled, |parts|)
    ensures if finished then d.Contents() == InTransfer(|stream|, parts) else d.Contents() == FRESH && d.rec.Wiped()
  {
    hide Concat, IsChunking, Pieces;
    var _ := SendBegin(d, |stream|);
    var chunks;
    chunks, parts := Chunks(stream, chunkData);
    ChunkingMeans(chunks.value, parts, stream, chunkData);
    for i := 0 to |chunks.value|
      invariant d.Valid() && |Concat(parts[..i])| <= |stream| && d.Contents() == InTransfer(|stream|, parts[..i])
      invariant !AnyBelow(cancelled, i)
    {
      if cancelled(i) {
        SendAbort(d);
        return false, parts;
      }
      var _ := SendChunk(d, chunks.value[i], |stream|, parts, i);
    }
    assert parts[..|parts|] == parts;
    return true, parts;
  }

  /** The daemon's sequence against a device that publishes its capacity, over a link that loses nothing: what the
      record or the device rules out is never begun, a cancelled run is aborted and leaves no byte behind, and every
      other one is committed with the record it was given. */
  method Send(d: Decoder, c: Credentials, capacity: nat, maxWriteValue: int, cancelled: nat -> bool)
    returns (r: Outcome, ghost pieces: nat)
    requires d.Valid()
    modifies d.Repr()
    ensures d.Valid()
    ensures r.InvalidRecord? <==> Validate(c).Invalid?
    ensures r.InvalidRecord? ==> Validate(c) == Invalid(r.field, r.code)
    ensures r == DeviceTooSmall <==> Validate(c) == Valid && capacity < |Frame(UncheckedPayload(c))|
    ensures r == Cancelled || r == Committed ==>
              && Pieces(pieces, ChunkSize(maxWriteValue), |Frame(UncheckedPayload(c))|)
              && (r == Cancelled <==> AnyBelow(cancelled, pieces))
    ensures r == Committed ==> d.state == Ready && d.error == NoError && d.rec.Value() == Received(c)
    ensures r == Cancelled ==> d.Contents() == FRESH && d.rec.Wiped()
    ensures r.InvalidRecord? || r == DeviceTooSmall ==> d.Contents() == old(d.Contents())
  {
    hide Frame, UncheckedPayload, ParsePayload, Concat, Validate, Received, Pieces, AnyBelow, ChunkSize;
    pieces := 0;
    var encoded := Encode(c);
    if encoded.Refusal? {
      return InvalidRecord(encoded.field, encoded.code), 0;
    }
    var stream := encoded.stream;
    ValidIsSound(c);
    if capacity < |stream| {
      return DeviceTooSmall, 0;
    }
    var finished;
    ghost var parts;
    finished, parts := SendStream(d, stream, ChunkSize(maxWriteValue), cancelled);
    if !finished {
      return Cancelled, |parts|;
    }
    SendCommit(d, c, parts);
    return Committed, |parts|;
  }

  // --- damage ---

  /** A stream with one byte changed is not a frame of anything. */
  lemma OneByteOff(p: seq<byte>, q: seq<byte>, i: nat, b: byte)
    requires |p| < 0x1_0000 && |q| < 0x1_0000
    requires i < |Frame(p)| && Frame(p)[i] != b
    ensures Frame(p)[i := b] != Frame(q)
  {
    var s, t := Frame(p), Frame(p)[i := b];
    if t == Frame(q) {
      FrameParts(p);
      FrameParts(q);
      var n := STREAM_HEADER + |p|;
      assert |q| == |p|;
      hide Frame, Crc32.Checksum, Crc32.Le32;
      var sp, sq := Header(p) + p, Header(q) + q;
      if i < n {
        assert t[..n] == s[..n][i := b];
        assert sq == sp[i := b];
        assert t[n..] == s[n..];
        Crc32.Le32RoundTrip(Crc32.Checksum(sp));
        Crc32.Le32RoundTrip(Crc32.Checksum(sq));
        Crc32.ChecksumDetectsOneByte(sp, i, b);
      }
    }
  }

  /** No damaged stream commits: change any one byte of a stream the decoder accepts, keep the declared
      length, and no way of sending it, after whatever came before, ends in Ready. */
  lemma DamagedNeverCommits(v: View, s: seq<byte>, i: nat, b: byte, calls: seq<Call>, parts: seq<seq<byte>>)
    requires Sound(s) && i < |s| && b != s[i]
    requires ValidView(v) && Commits(calls, parts) && Concat(parts) == s[i := b]
    ensures Run(v, calls).state != Ready
  {
    OneByteOff(Payload(s), Payload(s[i := b]), i, b);
    hide Frame;
    CommitsVerdict(v, calls, parts);
  }

  function DataBytes(writes: seq<seq<byte>>): nat
  {
    if writes == [] then 0 else (if |writes[0]| > 0 then |writes[0]| - 1 else 0) + DataBytes(writes[1..])
  }

  lemma {:induction false} DroppingShortens(writes: seq<seq<byte>>, keep: seq<bool>)
    requires |writes| == |keep| && forall k :: 0 <= k < |writes| ==> |writes[k]| >= 2
    ensures DataBytes(Kept(writes, keep)) <= DataBytes(writes)
    ensures false in keep ==> DataBytes(Kept(writes, keep)) < DataBytes(writes)
  {
    if writes != [] {
      DroppingShortens(writes[1..], keep[1..]);
      if keep[0] {
        assert Kept(writes, keep)[1..] == Kept(writes[1..], keep[1..]);
        assert keep == [true] + keep[1..];
      } else {
        assert Kept(writes, keep) == Kept(writes[1..], keep[1..]);
      }
    }
  }

  lemma {:induction false} ChunkData(writes: seq<seq<byte>>, parts: seq<seq<byte>>, at: nat)
    requires |writes| == |parts| && forall k :: 0 <= k < |parts| ==> writes[k] == [(at + k) % 256] + parts[k]
    ensures DataBytes(writes) == |Concat(parts)|
  {
    if writes != [] {
      ChunkData(writes[1..], parts[1..], at + 1);
    }
  }

  lemma ChunkEffect(v: View, data: seq<byte>)
    requires ValidView(v)
    ensures var w := Chunk(v, data).0;
            && w.declared == v.declared && (w.state == v.state || w.state == Failed)
            && w.received <= v.received + if |data| > 0 then |data| - 1 else 0
  {
  }

  lemma {:induction false} DataBytesSnoc(writes: seq<seq<byte>>, last: seq<byte>)
    ensures DataBytes(writes + [last]) == DataBytes(writes) + if |last| > 0 then |last| - 1 else 0
    decreases |writes|
  {
    if writes != [] {
      assert (writes + [last])[1..] == writes[1..] + [last];
      DataBytesSnoc(writes[1..], last);
    } else {
      assert [last][1..] == [];
    }
  }

  /** While a transfer is open, the count never exceeds the data written since its BEGIN. */
  lemma {:induction false} ReceivedBound(v: View, writes: seq<seq<byte>>)
    requires ValidView(v)
    ensures var w := Run(v, Writes(writes));
            w.declared == v.declared && w.received <= v.received + DataBytes(writes)
            && (w.state == v.state || w.state == Failed)
    decreases |writes|
  {
    if writes != [] {
      hide Chunk, Control, Writes, DataBytes;
      var init, last := writes[..|writes| - 1], writes[|writes| - 1];
      assert writes == init + [last];
      ReceivedBound(v, init);
      WritesSnoc(init, last);
      RunSnoc(v, Writes(init), ChunkWrite(last));
      hide Run;
      DataBytesSnoc(init, last);
      ChunkEffect(Run(v, Writes(init)), last);
    } else {
      assert Writes(writes) == [];
    }
  }

  lemma EmptyReceived(n: nat)
    requires n <= MAX_STREAM
    ensures InTransfer(n, []).received == 0 && InTransfer(n, []).declared == n && InTransfer(n, []).state == Receiving
  {
  }

  lemma ShortCommit(v: View)
    requires ValidView(v) && (v.received < v.declared || v.state == Failed)
    ensures Control(v, [OP_COMMIT]).0.state != Ready
  {
  }

  /** Nor does an incomplete one: drop any of a stream's writes, and the COMMIT is refused. */
  lemma DroppedNeverCommits(v: View, s: seq<byte>, chunks: seq<seq<byte>>, parts: seq<seq<byte>>, chunkData: int,
                            keep: seq<bool>)
    requires ValidView(v) && MIN_STREAM <= |s| <= MAX_STREAM && IsChunking(chunks, parts, s, chunkData)
    requires |keep| == |chunks| && false in keep
    ensures Run(v, Transfer(|s|, Kept(chunks, keep))).state != Ready
  {
    var sent := Kept(chunks, keep);
    forall k | 0 <= k < |chunks| ensures |chunks[k]| >= 2 {
      assert chunks[k] == [k % 256] + parts[k] && parts[k] != [];
    }
    DroppingShortens(chunks, keep);
    ChunkData(chunks, parts, 0);
    var begin := ControlWrite([OP_BEGIN, VERSION] + Le16(|s|));
    hide Control, Chunk, Concat, DataBytes, Kept, IsChunking;
    RunSnoc(v, [], begin);
    assert [] + [begin] == [begin];
    var open := Run(v, [begin]);
    BeginBytes(|s|);
    BeginMeaning(v, begin.data);
    EmptyReceived(|s|);
    ReceivedBound(open, sent);
    RunAppend(v, [begin], Writes(sent));
    RunSnoc(v, [begin] + Writes(sent), ControlWrite([OP_COMMIT]));
    ShortCommit(Run(open, Writes(sent)));
  }
}
