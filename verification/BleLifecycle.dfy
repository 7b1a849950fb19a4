/** What becomes of a transfer and its record: refused writes, a committed record on its way into use, and the wipe. */
module BleLifecycle {
  import opened Bytes
  import opened Provision
  import opened BleFormat
  import opened BleMachine
  import opened BleRuns
  import Crc32

  // --- refusals ---

  /** A BEGIN for n bytes is refused exactly outside the sizes a stream can have. */
  lemma BeginRefusals(v: View, n: nat)
    requires ValidView(v) && n < 0x1_0000
    ensures var e := Control(v, [OP_BEGIN, VERSION] + Le16(n)).1;
            && (e == ShortStream <==> n < MIN_STREAM)
            && (e == TooLarge <==> n > MAX_STREAM)
            && (e == NoError <==> MIN_STREAM <= n <= MAX_STREAM)
  {
    Le16RoundTrip(n);
  }

  /** The faults of a call or of a stream around its payload. */
  predicate Outside(e: Error)
  {
    e in {MalformedControl, UnknownOp, NotBegun, Truncated, BadVersion, LengthMismatch, BadCrc}
  }

  lemma {:induction false} TlvCodes(p: seq<byte>, seen: set<byte>, f: Fields)
    ensures var r := ParseTlv(p, seen, f); r.Bad? ==> !Outside(r.error)
    decreases |p|
  {
    if |p| >= 2 && |p| >= 2 + p[1] as int {
      var tag, v, rest := p[0], p[2..2 + p[1] as int], p[2 + p[1] as int..];
      if tag >= OPTIONAL_TAG {
        TlvCodes(rest, seen, f);
      } else if TAG_SSID <= tag <= TAG_OTA_PASS && tag !in seen && StoreField(tag, v, f).Kept? {
        TlvCodes(rest, seen + {tag}, StoreField(tag, v, f).fields);
      }
    }
  }

  lemma PayloadCodes(p: seq<byte>)
    ensures ParsePayload(p).Refused? ==> !Outside(ParsePayload(p).error)
  {
    TlvCodes(p, {}, CLEARED);
    hide ParseTlv, Sanitized;
  }

  /** The faults of a stream are not those of the calls that bring it. */
  lemma VerdictCodes(buf: seq<byte>, declared: nat, version: byte)
    requires |buf| >= MIN_STREAM && declared <= |buf|
    ensures var r := ParseBuffer(buf, declared, version);
            r.Refused? ==> r.error !in {MalformedControl, UnknownOp, NotBegun, Truncated}
  {
    var at := STREAM_HEADER + FromLe16(buf[1], buf[2]);
    if at + CRC_LEN == declared {
      PayloadCodes(buf[STREAM_HEADER..at]);
    }
    hide ParsePayload;
  }

  /** Each fault of a control write before the stream itself is looked at, and exactly when it is answered. */
  lemma ControlRefusals(v: View, data: seq<byte>)
    requires ValidView(v)
    ensures var e := Control(v, data).1;
            var begins, commits := |data| == 4 && data[0] == OP_BEGIN, data == [OP_COMMIT];
            && (e == UnknownOp <==> data != [] && data[0] !in {OP_BEGIN, OP_COMMIT, OP_ABORT})
            && (begins ==> (e == BadVersion <==> data[1] != VERSION))
            && (commits ==> (e == NotBegun <==> v.state != Receiving))
            && (commits && v.state == Receiving ==> (e == Truncated <==> v.received < v.declared))
            && (e == MalformedControl <==> !begins && !commits && data != [OP_ABORT] && e != UnknownOp)
  {
    if data == [OP_COMMIT] && v.state == Receiving && v.received == v.declared {
      VerdictCodes(v.buf, v.declared, v.version);
    }
    hide ParseBuffer;
  }

  /** Data writes during a transfer: the sequence byte must count the writes so far modulo 256, each write must carry
      something, and all of them together no more than was declared. */
  lemma ChunkRefusals(n: nat, parts: seq<seq<byte>>, data: seq<byte>)
    requires |Concat(parts)| <= n <= MAX_STREAM
    ensures var e := Chunk(InTransfer(n, parts), data).1;
            && (e == MalformedChunk <==> |data| < 2)
            && (e == OutOfOrder <==> |data| >= 2 && data[0] != |parts| % 256)
            && (e == Overflow <==>
                  |data| >= 2 && data[0] == |parts| % 256 && |Concat(parts)| + |data[1..]| > n)
            && e in {NoError, MalformedChunk, OutOfOrder, Overflow}
  {
    hide Concat, Splice;
  }

  /** Outside a transfer no data write is taken. */
  lemma ChunkOutside(v: View, data: seq<byte>)
    requires ValidView(v)
    ensures Chunk(v, data).1 == NotBegun <==> v.state != Receiving
  {
  }

  /** Any refused write: the partial stream is gone, the first fault stays, and the record is untouched unless it was
      being filled from a complete stream. */
  lemma RefusedWrite(v: View, c: Call)
    requires ValidView(v) && IsWrite(c) && Step(v, c).1 != NoError
    ensures var (w, e) := Step(v, c);
            && w.state == Failed && w.buf == Zeros(MAX_STREAM) && w.received == 0
            && w.error == (if v.state == Failed then v.error else e)
            && w.declared == v.declared && w.version == v.version && w.nextSeq == v.nextSeq
            && w.fields == if c == ControlWrite([OP_COMMIT]) && v.state == Receiving && v.received == v.declared
                           then CLEARED else v.fields
  {
    hide ParseBuffer, Splice;
  }

  /** Four bytes read as a checksum exactly when they are the bytes it is written as. */
  lemma ChecksumReads(s: seq<byte>, end: nat)
    requires |s| == end + 4
    ensures Crc32.FromLe32(s[end], s[end + 1], s[end + 2], s[end + 3]) == Crc32.Checksum(s[..end])
            <==> s[end..] == Crc32.Le32(Crc32.Checksum(s[..end]))
  {
    var sum := Crc32.Checksum(s[..end]);
    var a, b, c, d := s[end], s[end + 1], s[end + 2], s[end + 3];
    assert s[end..] == [a, b, c, d];
    Crc32.Le32RoundTrip(sum);
    hide Crc32.Checksum;
    if Crc32.FromLe32(a, b, c, d) == sum {
      hide Crc32.FromLe32, Crc32.Le32;
      ChecksumBytes(sum, a, b, c, d);
    }
  }

  /** A stream is refused for its version, then its length, then its checksum, and else for what its payload is. */
  lemma StreamFaults(s: seq<byte>)
    requires |s| >= MIN_STREAM
    ensures var r, fits, end := ParseBuffer(s, |s|, VERSION), FromLe16(s[1], s[2]) + 7 == |s|, |s| - 4;
            && (r == Refused(BadVersion) <==> s[0] != 1)
            && (r == Refused(LengthMismatch) <==> s[0] == 1 && !fits)
            && (r == Refused(BadCrc) <==> s[0] == 1 && fits && s[end..] != Crc32.Le32(Crc32.Checksum(s[..end])))
            && (r !in {Refused(BadVersion), Refused(LengthMismatch), Refused(BadCrc)} ==> r == ParsePayload(s[3..end]))
  {
    var end := |s| - 4;
    PayloadCodes(s[3..end]);
    ChecksumReads(s, end);
    hide Crc32.Checksum, Crc32.Le32, Crc32.FromLe32, ParsePayload;
  }

  // --- the wipe ---

  /** Nothing of a stream or of a record is held. */
  predicate Blank(v: View)
  {
    v.buf == Zeros(MAX_STREAM) && v.fields == CLEARED && v.declared == 0 && v.received == 0
  }

  /** Any calls ending in a scrub: the secrets are gone and the verdict is the one there was. */
  lemma ScrubbedRun(v: View, calls: seq<Call>)
    requires ValidView(v) && |calls| > 0 && calls[|calls| - 1] == ScrubCall
    ensures var w, before := Run(v, calls), Run(v, calls[..|calls| - 1]);
            && Blank(w) && w.nextSeq == 0
            && w.state == before.state && w.error == before.error && w.version == before.version
  {
  }

  lemma BlankStays(v: View, c: Call)
    requires ValidView(v) && Blank(v) && !(c.ControlWrite? && AcceptedBegin(c.data))
    ensures Blank(Step(v, c).0)
  {
    hide ParsePayload;
  }

  /** And they stay gone, whatever is called, until the next BEGIN is accepted. */
  lemma {:induction false} ScrubLasts(v: View, calls: seq<Call>, k: nat)
    requires ValidView(v) && k < |calls| && calls[k] in {ScrubCall, ResetCall, ControlWrite([OP_ABORT])}
    requires forall i :: k < i < |calls| && calls[i].ControlWrite? ==> !AcceptedBegin(calls[i].data)
    ensures Blank(Run(v, calls))
    decreases |calls|
  {
    var init, last := calls[..|calls| - 1], calls[|calls| - 1];
    if k < |calls| - 1 {
      ScrubLasts(v, init, k);
      BlankStays(Run(v, init), last);
    }
  }

  // --- a committed record in use ---

  /** Calls that take a committed record into use, or wipe it behind itself. */
  predicate IsUse(c: Call)
  {
    c in {MarkApplying, MarkApplied, ScrubCall}
  }

  /** After the first k calls the decoder is Ready, and only such calls follow. */
  predicate UsedFrom(calls: seq<Call>, k: nat)
  {
    && k <= |calls| && Run(FRESH, calls[..k]).state == Ready
    && forall i :: k <= i < |calls| ==> IsUse(calls[i])
  }

  lemma UseStep(v: View, c: Call)
    requires ValidView(v) && v.state in {Ready, Applying, Applied} && IsUse(c)
    ensures var w := Step(v, c).0;
            && w.state == (if c == MarkApplied then Applied
                           else if c == MarkApplying && v.state == Ready then Applying else v.state)
            && w.fields == if c == ScrubCall then CLEARED else v.fields
  {
  }

  /** What such calls make of a committed record. */
  lemma {:induction false} UseMeaning(calls: seq<Call>, k: nat)
    requires UsedFrom(calls, k)
    ensures var w, tail := Run(FRESH, calls), calls[k..];
            && w.state == (if MarkApplied in tail then Applied else if MarkApplying in tail then Applying else Ready)
            && (ScrubCall !in tail ==> w.fields == Run(FRESH, calls[..k]).fields)
            && (ScrubCall in tail ==> w.fields == CLEARED)
    decreases |calls|
  {
    if k == |calls| {
      assert calls[..k] == calls;
    } else {
      var init, last := calls[..|calls| - 1], calls[|calls| - 1];
      assert init[..k] == calls[..k] && calls[k..] == init[k..] + [last];
      UseMeaning(init, k);
      UseStep(Run(FRESH, init), last);
      hide Step, ValidView;
    }
  }

  lemma UseBefore(v: View, c: Call)
    requires ValidView(v) && Step(v, c).0.state in {Applying, Applied}
    ensures IsUse(c) && v.state in {Ready, Applying, Applied}
  {
  }

  lemma {:induction false} UseStarts(calls: seq<Call>) returns (k: nat)
    requires Run(FRESH, calls).state in {Ready, Applying, Applied}
    ensures UsedFrom(calls, k)
    decreases |calls|
  {
    hide Step;
    if Run(FRESH, calls).state == Ready {
      k := |calls|;
      assert calls[..k] == calls;
    } else {
      var init := calls[..|calls| - 1];
      UseBefore(Run(FRESH, init), calls[|calls| - 1]);
      k := UseStarts(init);
      assert init[..k] == calls[..k];
    }
  }

  /** Over every run of calls: a record is Applied exactly when it was committed and then marked so, with nothing but
      marks and wipes in between, and Applying exactly when it was marked that far and no further. */
  lemma AppliedIff(calls: seq<Call>)
    ensures Run(FRESH, calls).state == Applied <==> exists k: nat :: UsedFrom(calls, k) && MarkApplied in calls[k..]
    ensures Run(FRESH, calls).state == Applying <==>
            exists k: nat :: UsedFrom(calls, k) && MarkApplying in calls[k..] && MarkApplied !in calls[k..]
  {
    forall k: nat | UsedFrom(calls, k)
      ensures Run(FRESH, calls).state
              == if MarkApplied in calls[k..] then Applied else if MarkApplying in calls[k..] then Applying else Ready
    {
      UseMeaning(calls, k);
    }
    if Run(FRESH, calls).state in {Applying, Applied} {
      var k := UseStarts(calls);
    }
  }
}
