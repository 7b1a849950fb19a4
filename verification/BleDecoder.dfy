/** The firmware's stream decoder: an object over a 512-byte buffer and a credential record,
    every method of which does to its contents what BleMachine says. */
module BleDecoder {
  import opened Bytes
  import opened Provision
  import opened BleFormat
  import opened BleMachine
  import opened BleRuns
  import BleWire
  import Crc32

  class Decoder {
    const buf: array<byte>
    const rec: Record
    var declared: nat
    var received: nat
    var state: State
    var error: Error
    var version: byte
    var nextSeq: byte

    ghost function Repr(): set<object>
    {
      {this, buf, rec} + rec.Buffers()
    }

    ghost predicate Valid()
      reads Repr()
    {
      && buf.Length == MAX_STREAM
      && buf !in rec.Buffers()
      && rec.Valid()
      && received <= declared <= MAX_STREAM
    }

    /** Everything the decoder holds. */
    ghost function Contents(): View
      reads Repr()
    {
      View(buf[..], rec.Value(), declared, received, state, error, version, nextSeq)
    }

    constructor ()
      ensures Valid() && fresh(Repr())
      ensures Contents() == FRESH && rec.Wiped()
    {
      buf := new byte[MAX_STREAM](_ => 0);
      rec := new Record();
      declared, received := 0, 0;
      state, error := Idle, NoError;
      version, nextSeq := 0, 0;
      new;
      assert buf[..] == Zeros(MAX_STREAM);
    }

    method WipeBuffer()
      requires Valid()
      modifies buf
      ensures buf[..] == Zeros(MAX_STREAM)
      ensures unchanged(this) && rec.Value() == old(rec.Value()) && Valid()
    {
      forall i | 0 <= i < buf.Length { buf[i] := 0; }
    }

    method Reset()
      requires Valid()
      modifies Repr()
      ensures Valid() && Contents() == FRESH && rec.Wiped()
    {
      WipeBuffer();
      rec.Clear();
      declared, received := 0, 0;
      state, error := Idle, NoError;
      version, nextSeq := 0, 0;
    }

    method Scrub()
      requires Valid()
      modifies Repr()
      ensures Valid() && Contents() == Scrubbed(old(Contents()))
      ensures buf[..] == Zeros(MAX_STREAM) && rec.Wiped() && declared == received == 0 && nextSeq == 0
      ensures state == old(state) && error == old(error) && version == old(version)
    {
      WipeBuffer();
      rec.Clear();
      declared, received, nextSeq := 0, 0, 0;
    }

    method Refuse(e: Error) returns (r: Error)
      requires Valid()
      modifies this, buf
      ensures Valid() && Contents() == Fail(old(Contents()), e) && r == e
    {
      if state != Failed {
        state, error := Failed, e;
      }
      WipeBuffer();
      received := 0;
      return e;
    }

    method OnBegin(data: seq<byte>) returns (r: Error)
      requires Valid() && |data| >= 1
      modifies Repr()
      ensures Valid() && (Contents(), r) == Begin(old(Contents()), data)
      ensures r == NoError ==> rec.Wiped()
    {
      if |data| != 4 {
        r := Refuse(MalformedControl);
        return;
      }
      if data[1] != VERSION {
        r := Refuse(BadVersion);
        return;
      }
      var total := FromLe16(data[2], data[3]);
      if total < MIN_STREAM {
        r := Refuse(ShortStream);
        return;
      }
      if total > MAX_STREAM {
        r := Refuse(TooLarge);
        return;
      }
      Reset();
      version, declared, state := data[1], total, Receiving;
      return NoError;
    }

    method OnCommit(data: seq<byte>) returns (r: Error)
      requires Valid()
      modifies Repr()
      ensures Valid() && (Contents(), r) == Commit(old(Contents()), data)
      ensures r == NoError <==> state == Ready
      ensures r != NoError && |data| == 1 && old(state) == Receiving && old(received) == old(declared) ==> rec.Wiped()
    {
      hide ParseBuffer, CString;
      if |data| != 1 {
        r := Refuse(MalformedControl);
        return;
      }
      if state != Receiving {
        r := Refuse(NotBegun);
        return;
      }
      if received != declared {
        r := Refuse(Truncated);
        return;
      }
      r := Parse();
      if r != NoError {
        rec.Clear();
        r := Refuse(r);
        return;
      }
      state, error := Ready, NoError;
    }

    /** A write to the control characteristic. */
    method OnControl(data: seq<byte>) returns (r: Error)
      requires Valid()
      modifies Repr()
      ensures Valid() && (Contents(), r) == Control(old(Contents()), data)
      ensures r == NoError && state != Ready ==> rec.Wiped()
    {
      hide Begin, Commit;
      if |data| < 1 {
        r := Refuse(MalformedControl);
      } else if data[0] == OP_BEGIN {
        r := OnBegin(data);
      } else if data[0] == OP_COMMIT {
        r := OnCommit(data);
      } else if data[0] == OP_ABORT {
        if |data| != 1 {
          r := Refuse(MalformedControl);
        } else {
          Reset();
          r := NoError;
        }
      } else {
        r := Refuse(UnknownOp);
      }
    }

    /** A write to the data characteristic: a sequence byte and at least one byte of stream. */
    method OnChunk(data: seq<byte>) returns (r: Error)
      requires Valid()
      modifies this, buf
      ensures Valid() && (Contents(), r) == Chunk(old(Contents()), data)
    {
      hide CString;
      if state != Receiving {
        r := Refuse(NotBegun);
        return;
      }
      if |data| < 2 {
        r := Refuse(MalformedChunk);
        return;
      }
      if data[0] != nextSeq {
        r := Refuse(OutOfOrder);
        return;
      }
      var n := |data| - 1;
      if received + n > declared {
        r := Refuse(Overflow);
        return;
      }
      forall i | 0 <= i < n { buf[received + i] := data[1 + i]; }
      assert buf[..] == Splice(old(buf[..]), received, data[1..]);
      received := received + n;
      nextSeq := (nextSeq + 1) % 256;
      return NoError;
    }

    method MarkApplying()
      requires Valid()
      modifies `state
      ensures Valid()
      ensures Contents() == Step(old(Contents()), Call.MarkApplying).0
    {
      if state == Ready {
        state := Applying;
      }
    }

    method MarkApplied()
      requires Valid()
      modifies `state, `error
      ensures Valid()
      ensures Contents() == Step(old(Contents()), Call.MarkApplied).0
    {
      if state == Ready || state == Applying {
        state, error := Applied, NoError;
      }
    }

    method MarkFailed(e: Error)
      requires Valid()
      modifies `state, `error
      ensures Valid() && Contents() == Step(old(Contents()), Call.MarkFailed(e)).0
    {
      state, error := Failed, e;
    }

    // --- parsing ---

    /** Copy a value into a field and terminate it. */
    static method CopyField(dst: array<byte>, v: seq<byte>)
      requires |v| < dst.Length && Printable(v)
      modifies dst
      ensures CString(dst[..]) == v
    {
      forall i | 0 <= i < |v| { dst[i] := v[i]; }
      dst[|v|] := 0;
      CStringAt(dst[..], |v|);
      assert dst[..][..|v|] == v;
    }

    /** One mandatory field, checked and stored into the record. */
    method Store(tag: byte, v: seq<byte>) returns (e: Error)
      requires Valid() && TAG_SSID <= tag <= TAG_OTA_PASS
      modifies rec, rec.Buffers()
      ensures Valid()
      ensures match StoreField(tag, v, old(rec.Value()))
              case Rejected(x) => e == x && e != NoError
              case Kept(f) => e == NoError && rec.Value() == f
    {
      hide CString;
      if tag != TAG_PORT && !Printable(v) {
        return ControlChar;
      }
      if tag == TAG_SSID {
        if |v| == 0 { return FieldEmpty; }
        if |v| > MAX_SSID { return FieldTooLong; }
        CopyField(rec.ssid, v);
      } else if tag == TAG_PASS {
        if |v| > MAX_PASS { return FieldTooLong; }
        if 0 < |v| < MIN_WPA_PASS { return PassTooShort; }
        CopyField(rec.pass, v);
      } else if tag == TAG_HOST {
        if |v| > MAX_HOST { return FieldTooLong; }
        CopyField(rec.host, v);
      } else if tag == TAG_PORT {
        if |v| != 2 { return BadPort; }
        var port := FromLe16(v[0], v[1]);
        if port == 0 { return BadPort; }
        rec.port := port;
      } else if tag == TAG_TOKEN {
        if |v| > MAX_TOKEN { return FieldTooLong; }
        CopyField(rec.token, v);
      } else {
        if |v| > MAX_OTA_PASS { return FieldTooLong; }
        CopyField(rec.otaPass, v);
      }
      return NoError;
    }

    /** The mandatory tags marked in the seven-entry table. */
    static ghost function Marked(seen: seq<bool>): set<byte>
    {
      set t: byte | 0 <= t < |seen| && seen[t]
    }

    /** The record list of the payload buf[STREAM_HEADER..crcAt], into the record. */
    method ParseRecords(crcAt: nat) returns (e: Error, sawSsid: bool)
      requires Valid() && STREAM_HEADER <= crcAt <= MAX_STREAM
      modifies rec, rec.Buffers()
      ensures Valid()
      ensures match ParseTlv(buf[STREAM_HEADER..crcAt], {}, old(rec.Value()))
              case Bad(x) => e == x && e != NoError
              case Good(seen, f) => e == NoError && rec.Value() == f && sawSsid == (TAG_SSID in seen)
    {
      hide StoreField, CString;
      var seen := seq(7, _ => false);
      sawSsid := false;
      var p := STREAM_HEADER;
      ghost var s := buf[..];
      assert buf[STREAM_HEADER..crcAt] == s[p..crcAt];
      assert Marked(seen) == {};
      MarkOne(seen, TAG_SSID);
      hide Marked;
      ghost var verdict := ParseTlv(s[p..crcAt], {}, rec.Value());
      while p < crcAt
        invariant Valid() && STREAM_HEADER <= p <= crcAt && |seen| == 7 && buf[..] == s
        invariant sawSsid == seen[TAG_SSID] == (TAG_SSID in Marked(seen))
        invariant ParseTlv(s[p..crcAt], Marked(seen), rec.Value()) == verdict
      {
        if p + 2 > crcAt {
          return MalformedTlv, sawSsid;
        }
        var tag, len := buf[p], buf[p + 1];
        assert s[p..crcAt][1] == len;
        if p + 2 + len > crcAt {
          return MalformedTlv, sawSsid;
        }
        SliceRecord(s, p, len, crcAt);
        if tag >= OPTIONAL_TAG {
          p := p + 2 + len;
          continue;
        }
        if tag == 0 || tag > TAG_OTA_PASS {
          return UnknownField, sawSsid;
        }
        MarkOne(seen, tag);
        if seen[tag] {
          return DuplicateField, sawSsid;
        }
        seen := seen[tag := true];
        e := Store(tag, buf[p + 2..p + 2 + len]);
        if e != NoError {
          return;
        }
        if tag == TAG_SSID {
          sawSsid := true;
        }
        p := p + 2 + len;
      }
      return NoError, sawSsid;
    }

    static lemma MarkOne(seen: seq<bool>, tag: byte)
      requires tag < |seen|
      ensures Marked(seen[tag := true]) == Marked(seen) + {tag}
      ensures tag in Marked(seen) <==> seen[tag]
    {
    }

    /** Where one record of the payload s[p..end] lies. */
    static lemma SliceRecord(s: seq<byte>, p: nat, len: nat, end: nat)
      requires p + 2 + len <= end <= |s|
      ensures var r := s[p..end]; r[0] == s[p] && r[1] == s[p + 1]
      ensures s[p..end][2..2 + len] == s[p + 2..p + 2 + len]
      ensures s[p..end][2 + len..] == s[p + 2 + len..end]
    {
      SubSlice(s, p, end, 2, 2 + len);
      SubSlice(s, p, end, 2 + len, end - p);
      assert s[p..end][2 + len..] == s[p..end][2 + len..end - p];
    }

    /** Validate the assembled stream and parse it into the record. */
    method Parse() returns (e: Error)
      requires Valid()
      modifies rec, rec.Buffers()
      ensures Valid()
      ensures match ParseBuffer(buf[..], declared, version)
              case Refused(x) => e == x && e != NoError
              case Accepted(f) => e == NoError && rec.Value() == f
    {
      hide ParseTlv, Crc32.Checksum, Crc32.FromLe32, Sanitized, CString;
      rec.Clear();
      if buf[0] != version {
        return BadVersion;
      }
      var payloadLen := FromLe16(buf[1], buf[2]);
      if STREAM_HEADER + payloadLen + CRC_LEN != declared {
        return LengthMismatch;
      }
      var crcAt := STREAM_HEADER + payloadLen;
      var sum := Crc32.ComputeCrc32(buf, crcAt);
      if Crc32.FromLe32(buf[crcAt], buf[crcAt + 1], buf[crcAt + 2], buf[crcAt + 3]) != sum {
        return BadCrc;
      }
      assert buf[..][STREAM_HEADER..crcAt] == buf[STREAM_HEADER..crcAt];
      assert buf[..][..crcAt] == buf[..crcAt];
      var sawSsid;
      e, sawSsid := ParseRecords(crcAt);
      if e != NoError {
        return;
      }
      if !sawSsid {
        return MissingSsid;
      }
      var _ := rec.Sanitize();
      if !rec.Joinable() {
        return NotJoinable;
      }
      return NoError;
    }

    /** The six bytes of the status characteristic: the daemon reads this decoder's state, error and counters from
        them. */
    method EncodeStatus() returns (out: seq<byte>)
      requires Valid()
      ensures |out| == 6
      ensures BleWire.ParseStatus(out)
              == Some(BleWire.Status(VERSION, StateCode(state), ErrorCode(error), nextSeq, received))
      ensures BleWire.StateOfCode(out[1]) == Some(state) && BleWire.ErrorOfCode(out[2]) == Some(error)
    {
      BleWire.StatusRoundTrip(state, error, nextSeq, received);
      return [VERSION, StateCode(state), ErrorCode(error), nextSeq] + Le16(received);
    }
  }
}
