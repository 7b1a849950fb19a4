/** Whole runs of the decoder: what any sequence of calls, with any bytes, can lead to. */
module BleRuns {
  import opened Bytes
  import opened Provision
  import opened BleFormat
  import opened BleMachine

  /** One call of the decoder by the radio layer or the hardware layer. */
  datatype Call =
    | ControlWrite(data: seq<byte>)
    | ChunkWrite(data: seq<byte>)
    | MarkApplying
    | MarkApplied
    | MarkFailed(error: Error)
    | ScrubCall
    | ResetCall

  predicate IsWrite(c: Call)
  {
    c.ControlWrite? || c.ChunkWrite?
  }

  /** The state after a call, and the error a write returns. */
  function Step(v: View, c: Call): (View, Error)
    requires ValidView(v)
  {
    match c
    case ControlWrite(data) => Control(v, data)
    case ChunkWrite(data) => Chunk(v, data)
    case MarkApplying => (if v.state == Ready then v.(state := Applying) else v, NoError)
    case MarkApplied =>
      (if v.state == Ready || v.state == Applying then v.(state := Applied, error := NoError) else v, NoError)
    case MarkFailed(e) => (v.(state := Failed, error := e), NoError)
    case ScrubCall => (Scrubbed(v), NoError)
    case ResetCall => (FRESH, NoError)
  }

  lemma StepValid(v: View, c: Call)
    requires ValidView(v)
    ensures ValidView(Step(v, c).0)
  {
  }

  function Run(v: View, calls: seq<Call>): (w: View)
    requires ValidView(v)
    ensures ValidView(w)
    decreases |calls|
  {
    if calls == [] then v
    else
      var before := Run(v, calls[..|calls| - 1]);
      StepValid(before, calls[|calls| - 1]);
      Step(before, calls[|calls| - 1]).0
  }

  lemma RunSnoc(v: View, calls: seq<Call>, c: Call)
    requires ValidView(v)
    ensures Run(v, calls + [c]) == Step(Run(v, calls), c).0
  {
    assert (calls + [c])[..|calls|] == calls;
  }

  lemma {:induction false} RunAppend(v: View, a: seq<Call>, b: seq<Call>)
    requires ValidView(v)
    ensures Run(v, a + b) == Run(Run(v, a), b)
    decreases |b|
  {
    if b == [] {
      assert a + b == a;
    } else {
      var init, last := b[..|b| - 1], b[|b| - 1];
      assert a + b == (a + init) + [last] && b == init + [last];
      RunAppend(v, a, init);
      RunSnoc(v, a + init, last);
    }
  }

  // --- transfers ---

  /** Data writes numbered 0, 1, 2, ... modulo 256, each carrying at least one byte. */
  predicate Numbered(writes: seq<Call>, parts: seq<seq<byte>>)
  {
    && |writes| == |parts|
    && forall k :: 0 <= k < |parts| ==> parts[k] != [] && writes[k] == ChunkWrite([k % 256] + parts[k])
  }

  /** The calls end with an accepted BEGIN for n bytes followed by numbered writes carrying parts. */
  predicate EndsInTransfer(calls: seq<Call>, n: nat, parts: seq<seq<byte>>)
  {
    && MIN_STREAM <= n <= MAX_STREAM && |Concat(parts)| <= n
    && |parts| < |calls|
    && calls[|calls| - |parts| - 1] == ControlWrite([OP_BEGIN, VERSION] + Le16(n))
    && Numbered(calls[|calls| - |parts|..], parts)
  }

  /** The decoder in the middle of such a transfer: the bytes so far, then zeros. */
  function InTransfer(n: nat, parts: seq<seq<byte>>): View
    requires |Concat(parts)| <= n <= MAX_STREAM
  {
    View(Concat(parts) + Zeros(MAX_STREAM - |Concat(parts)|), CLEARED, n, |Concat(parts)|,
         Receiving, NoError, VERSION, |parts| % 256)
  }

  predicate AcceptedBegin(data: seq<byte>)
  {
    |data| == 4 && data[0] == OP_BEGIN && data[1] == VERSION && MIN_STREAM <= FromLe16(data[2], data[3]) <= MAX_STREAM
  }

  lemma BeginMeaning(v: View, data: seq<byte>)
    requires ValidView(v)
    ensures AcceptedBegin(data) ==>
              && data == [OP_BEGIN, VERSION] + Le16(FromLe16(data[2], data[3]))
              && Control(v, data) == (InTransfer(FromLe16(data[2], data[3]), []), NoError)
    ensures Control(v, data).0.state == Receiving ==> AcceptedBegin(data)
  {
    if AcceptedBegin(data) {
      assert Concat([]) + Zeros(MAX_STREAM) == Zeros(MAX_STREAM);
    }
  }

  lemma BeginBytes(n: nat)
    requires MIN_STREAM <= n <= MAX_STREAM
    ensures var data := [OP_BEGIN, VERSION] + Le16(n); AcceptedBegin(data) && FromLe16(data[2], data[3]) == n
  {
    Le16RoundTrip(n);
  }

  lemma SpliceZeros(front: seq<byte>, part: seq<byte>, room: nat)
    requires |part| <= room
    ensures Splice(front + Zeros(room), |front|, part) == front + part + Zeros(room - |part|)
  {
  }

  lemma AcceptedChunk(v: View, part: seq<byte>)
    requires ValidView(v) && v.state == Receiving && part != [] && v.received + |part| <= v.declared
    ensures Chunk(v, [v.nextSeq] + part)
            == (v.(buf := Splice(v.buf, v.received, part), received := v.received + |part|,
                   nextSeq := (v.nextSeq + 1) % 256), NoError)
  {
    assert ([v.nextSeq] + part)[1..] == part;
    hide Splice;
  }

  /** One more numbered write in a transfer. */
  lemma NextChunk(n: nat, parts: seq<seq<byte>>, part: seq<byte>)
    requires |Concat(parts)| + |part| <= n <= MAX_STREAM && part != []
    ensures |Concat(parts + [part])| <= n
    ensures Chunk(InTransfer(n, parts), [|parts| % 256] + part) == (InTransfer(n, parts + [part]), NoError)
  {
    ConcatSnoc(parts, part);
    hide Concat, Splice, Chunk;
    SpliceZeros(Concat(parts), part, MAX_STREAM - |Concat(parts)|);
    AcceptedChunk(InTransfer(n, parts), part);
  }

  lemma NumberedSnoc(writes: seq<Call>, parts: seq<seq<byte>>, part: seq<byte>, last: Call)
    requires |writes| == |parts| && last == ChunkWrite([|parts| % 256] + part) && part != []
    ensures Numbered(writes + [last], parts + [part]) <==> Numbered(writes, parts)
  {
    var w, p := writes + [last], parts + [part];
    if Numbered(w, p) {
      forall k | 0 <= k < |parts|
        ensures parts[k] != [] && writes[k] == ChunkWrite([k % 256] + parts[k])
      {
        assert w[k] == writes[k] && p[k] == parts[k];
      }
    }
  }

  lemma ExtendTransfer(init: seq<Call>, n: nat, parts: seq<seq<byte>>, part: seq<byte>, last: Call)
    requires last == ChunkWrite([|parts| % 256] + part) && part != []
    ensures EndsInTransfer(init + [last], n, parts + [part]) <==>
            EndsInTransfer(init, n, parts) && |Concat(parts)| + |part| <= n
  {
    hide Concat, Numbered;
    ConcatSnoc(parts, part);
    var calls, ps := init + [last], parts + [part];
    if |parts| < |init| {
      assert calls[|calls| - |ps|..] == init[|init| - |parts|..] + [last];
      NumberedSnoc(init[|init| - |parts|..], parts, part, last);
    }
  }

  /** What a transfer leaves in the decoder, whatever came before its BEGIN. */
  lemma {:induction false} TransferView(v: View, calls: seq<Call>, n: nat, parts: seq<seq<byte>>)
    requires ValidView(v) && EndsInTransfer(calls, n, parts)
    ensures Run(v, calls) == InTransfer(n, parts)
    decreases |parts|
  {
    var init, last := calls[..|calls| - 1], calls[|calls| - 1];
    assert calls == init + [last];
    if parts == [] {
      BeginBytes(n);
      BeginMeaning(Run(v, init), last.data);
    } else {
      var before, part := parts[..|parts| - 1], parts[|parts| - 1];
      assert parts == before + [part];
      assert last == calls[|calls| - |parts|..][|before|];
      ExtendTransfer(init, n, before, part, last);
      TransferView(v, init, n, before);
      NextChunk(n, before, part);
    }
  }

  lemma ChunkMeaning(n: nat, parts: seq<seq<byte>>, data: seq<byte>)
    requires |Concat(parts)| <= n <= MAX_STREAM
    requires Chunk(InTransfer(n, parts), data).0.state == Receiving
    ensures |data| >= 2 && data == [|parts| % 256] + data[1..] && |Concat(parts)| + |data[1..]| <= n
  {
  }

  lemma BeginAlone(calls: seq<Call>, n: nat)
    requires MIN_STREAM <= n <= MAX_STREAM && |calls| > 0
    requires calls[|calls| - 1] == ControlWrite([OP_BEGIN, VERSION] + Le16(n))
    ensures EndsInTransfer(calls, n, [])
  {
  }

  lemma OnlyReceivingReceives(v: View, c: Call)
    requires ValidView(v) && c.ChunkWrite? && Step(v, c).0.state == Receiving
    ensures v.state == Receiving
  {
  }

  lemma {:induction false} ReceivingHasTransfer(calls: seq<Call>) returns (n: nat, parts: seq<seq<byte>>)
    requires (forall i :: 0 <= i < |calls| ==> IsWrite(calls[i])) && Run(FRESH, calls).state == Receiving
    ensures EndsInTransfer(calls, n, parts)
    decreases |calls|
  {
    hide Control, Chunk, Concat, Numbered;
    var init, last := calls[..|calls| - 1], calls[|calls| - 1];
    var before := Run(FRESH, init);
    if last.ControlWrite? {
      BeginMeaning(before, last.data);
      n, parts := FromLe16(last.data[2], last.data[3]), [];
      BeginAlone(calls, n);
    } else {
      OnlyReceivingReceives(before, last);
      var ps;
      n, ps := ReceivingHasTransfer(init);
      TransferView(FRESH, init, n, ps);
      ChunkMeaning(n, ps, last.data);
      parts := ps + [last.data[1..]];
      ExtendTransfer(init, n, ps, last.data[1..], last);
      assert calls == init + [last];
    }
  }

  /** Receiving, exactly: the decoder is in the middle of a transfer iff the writes so far end in one,
      and then its buffer is the data so far followed by zeros. */
  lemma ReceivingIff(calls: seq<Call>)
    requires forall i :: 0 <= i < |calls| ==> IsWrite(calls[i])
    ensures Run(FRESH, calls).state == Receiving <==> exists n, parts :: EndsInTransfer(calls, n, parts)
    ensures forall n, parts :: EndsInTransfer(calls, n, parts) ==> Run(FRESH, calls) == InTransfer(n, parts)
  {
    forall n, parts | EndsInTransfer(calls, n, parts)
      ensures Run(FRESH, calls) == InTransfer(n, parts)
    {
      TransferView(FRESH, calls, n, parts);
    }
    if Run(FRESH, calls).state == Receiving {
      var n, parts := ReceivingHasTransfer(calls);
    }
  }

  /** The calls end with a complete transfer of the stream the parts make up, then a COMMIT. */
  predicate Commits(calls: seq<Call>, parts: seq<seq<byte>>)
  {
    && |calls| > 0
    && calls[|calls| - 1] == ControlWrite([OP_COMMIT])
    && EndsInTransfer(calls[..|calls| - 1], |Concat(parts)|, parts)
  }

  /** A refused transfer: the fault is reported, and nothing of what was sent is left. */
  predicate RefusedFor(v: View, e: Error)
  {
    v.state == Failed && v.error == e && v.fields == CLEARED && v.buf == Zeros(MAX_STREAM) && v.received == 0
  }

  /** The verdict on a stream does not depend on what lies behind it in the buffer. */
  lemma OnlyDeclaredCounts(s: seq<byte>, rest: seq<byte>, version: byte)
    requires |s| >= MIN_STREAM
    ensures ParseBuffer(s + rest, |s|, version) == ParseBuffer(s, |s|, version)
  {
    hide ParsePayload, Crc32.Checksum, Crc32.FromLe32;
    var at := STREAM_HEADER + FromLe16(s[1], s[2]);
    if at + CRC_LEN == |s| {
      assert (s + rest)[..at] == s[..at] && (s + rest)[STREAM_HEADER..at] == s[STREAM_HEADER..at];
    }
  }

  lemma RefusalIsAnError(buf: seq<byte>, declared: nat, version: byte)
    requires |buf| >= MIN_STREAM && declared <= |buf|
    ensures ParseBuffer(buf, declared, version) != Refused(NoError)
  {
    hide ParsePayload;
    var at := STREAM_HEADER + FromLe16(buf[1], buf[2]);
    if at + CRC_LEN == declared {
      PayloadVerdict(buf[STREAM_HEADER..at]);
    }
  }

  /** COMMIT during a transfer: an incomplete stream is refused as truncated, a complete one is judged as a stream. */
  lemma CommitVerdict(n: nat, parts: seq<seq<byte>>)
    requires MIN_STREAM <= n <= MAX_STREAM && |Concat(parts)| <= n
    ensures var (w, e) := Control(InTransfer(n, parts), [OP_COMMIT]);
            var s := Concat(parts);
            && (|s| < n ==> RefusedFor(w, Truncated) && e == Truncated)
            && (|s| == n ==> (w.state == Ready <==> Sound(s)))
            && (|s| == n && Sound(s) ==> e == NoError && ParsePayload(Payload(s)) == Accepted(w.fields))
            && (|s| == n && !Sound(s) ==>
                  e != NoError && RefusedFor(w, e) && ParseBuffer(s, n, VERSION) == Refused(e))
  {
    hide ParseBuffer, Sound, ParsePayload, Concat;
    var v, s := InTransfer(n, parts), Concat(parts);
    if |s| == n {
      assert v.buf[..n] == s;
      AcceptedIffSound(v.buf, n);
      RefusalIsAnError(v.buf, n, VERSION);
      OnlyDeclaredCounts(s, Zeros(MAX_STREAM - n), VERSION);
    }
  }

  lemma ReadyHasNoError(v: View)
    requires ValidView(v)
    ensures var w := Control(v, [OP_COMMIT]).0; w.state == Ready ==> w.error == NoError
  {
    hide ParseBuffer;
  }

  /** A complete transfer and a COMMIT, from every prior state: ready with the stream's record, or failed with the fault
      of the stream. */
  lemma CommitsVerdict(v: View, calls: seq<Call>, parts: seq<seq<byte>>)
    requires ValidView(v) && Commits(calls, parts)
    ensures var w, s := Run(v, calls), Concat(parts);
            && (w.state == Ready <==> Sound(s))
            && (Sound(s) ==> w.error == NoError && ParsePayload(Payload(s)) == Accepted(w.fields))
            && (!Sound(s) ==>
                  && RefusedFor(w, w.error) && w.error != NoError
                  && ParseBuffer(s, |s|, VERSION) == Refused(w.error))
  {
    hide ParsePayload, ParseBuffer, Sound;
    var init := calls[..|calls| - 1];
    TransferView(v, init, |Concat(parts)|, parts);
    CommitVerdict(|Concat(parts)|, parts);
    ReadyHasNoError(InTransfer(|Concat(parts)|, parts));
  }

  lemma OnlyCommitMakesReady(v: View, c: Call)
    requires ValidView(v) && IsWrite(c) && Step(v, c).0.state == Ready
    ensures c == ControlWrite([OP_COMMIT]) && v.state == Receiving
  {
  }

  lemma ReadyCommits(calls: seq<Call>) returns (parts: seq<seq<byte>>)
    requires (forall i :: 0 <= i < |calls| ==> IsWrite(calls[i])) && Run(FRESH, calls).state == Ready
    ensures Commits(calls, parts)
  {
    hide ParsePayload, Sound;
    var init, last := calls[..|calls| - 1], calls[|calls| - 1];
    OnlyCommitMakesReady(Run(FRESH, init), last);
    var n;
    n, parts := ReceivingHasTransfer(init);
    TransferView(FRESH, init, n, parts);
    CommitVerdict(n, parts);
  }

  /** Safety over whole runs, exactly: after any writes with any bytes, the decoder is Ready iff they end
      with an accepted BEGIN, numbered writes whose data is a sound stream of the declared length,
      and a COMMIT; and the record it then holds is that stream's. */
  lemma ReadyIff(calls: seq<Call>)
    requires forall i :: 0 <= i < |calls| ==> IsWrite(calls[i])
    ensures Run(FRESH, calls).state == Ready <==> exists parts :: Commits(calls, parts) && Sound(Concat(parts))
    ensures forall parts :: Run(FRESH, calls).state == Ready && Commits(calls, parts) ==>
              Sound(Concat(parts)) && ParsePayload(Payload(Concat(parts))) == Accepted(Run(FRESH, calls).fields)
  {
    hide ParsePayload, Sound, Concat;
    forall parts | Commits(calls, parts)
      ensures Run(FRESH, calls).state == Ready <==> Sound(Concat(parts))
      ensures Run(FRESH, calls).state == Ready ==>
                ParsePayload(Payload(Concat(parts))) == Accepted(Run(FRESH, calls).fields)
    {
      CommitsVerdict(FRESH, calls, parts);
    }
    if Run(FRESH, calls).state == Ready {
      var parts := ReadyCommits(calls);
    }
  }

  // --- the first error ---

  /** A call that starts the decoder over. */
  predicate IsRestart(c: Call)
  {
    || (c.ControlWrite? && (AcceptedBegin(c.data) || c.data == [OP_ABORT]))
    || c.ResetCall?
  }

  /** The errors the calls return, in order. */
  function Returned(v: View, calls: seq<Call>): (r: seq<Error>)
    requires ValidView(v)
    ensures |r| == |calls|
  {
    if calls == [] then []
    else Returned(v, calls[..|calls| - 1]) + [Step(Run(v, calls[..|calls| - 1]), calls[|calls| - 1]).1]
  }

  /** How many of the calls were made up to and including the last restart. */
  function LastRestart(calls: seq<Call>): (r: nat)
    ensures r <= |calls|
  {
    if calls == [] then 0
    else if IsRestart(calls[|calls| - 1]) then |calls|
    else LastRestart(calls[..|calls| - 1])
  }

  function First(es: seq<Error>): Error
  {
    if es == [] then NoError else if es[0] != NoError then es[0] else First(es[1..])
  }

  lemma {:induction false} FirstSnoc(es: seq<Error>, e: Error)
    ensures First(es + [e]) == if First(es) != NoError then First(es) else e
    decreases |es|
  {
    if es == [] {
      assert [e][1..] == [];
    } else {
      assert (es + [e])[0] == es[0] && (es + [e])[1..] == es[1..] + [e];
      FirstSnoc(es[1..], e);
    }
  }

  /** The last verdict the hardware layer reported since the restart, if any. */
  function HardwareVerdict(calls: seq<Call>): Option<Error>
  {
    if calls == [] || IsRestart(calls[|calls| - 1]) then None
    else if calls[|calls| - 1].MarkFailed? then Some(calls[|calls| - 1].error)
    else HardwareVerdict(calls[..|calls| - 1])
  }

  lemma StepError(v: View, c: Call)
    requires ValidView(v) && (v.state != Failed ==> v.error == NoError)
    ensures var (w, e) := Step(v, c);
            && (w.state != Failed ==> w.error == NoError)
            && (IsRestart(c) ==> w.state != Failed)
            && (!IsRestart(c) && !c.MarkFailed? ==>
                  && (w.state == Failed <==> v.state == Failed || e != NoError)
                  && (w.state == Failed ==> w.error == if v.state == Failed then v.error else e))
  {
    if c.ControlWrite? && Step(v, c).0.state == Ready {
      OnlyCommitMakesReady(v, c);
    }
    if c.ControlWrite? && v.state == Receiving && v.received == v.declared && c.data == [OP_COMMIT] {
      RefusalIsAnError(v.buf, v.declared, v.version);
    }
  }

  /** The first-error rule over whole runs: whatever is called, the decoder is in Failed iff some call since
      the last restart was refused or the hardware reported a failure, and the error it shows is the
      hardware's last report, or else the first refusal since the restart. */
  lemma {:induction false} FirstErrorRule(calls: seq<Call>)
    ensures var v := Run(FRESH, calls);
            var since := Returned(FRESH, calls)[LastRestart(calls)..];
            && (v.state == Failed <==> HardwareVerdict(calls).Some? || First(since) != NoError)
            && v.error == match HardwareVerdict(calls) case Some(e) => e case None => First(since)
    decreases |calls|
  {
    if calls != [] {
      var init, last := calls[..|calls| - 1], calls[|calls| - 1];
      FirstErrorRule(init);
      var before := Run(FRESH, init);
      StepError(before, last);
      if !IsRestart(last) {
        var e := Step(before, last).1;
        var r := LastRestart(init);
        assert Returned(FRESH, calls)[r..] == Returned(FRESH, init)[r..] + [e];
        FirstSnoc(Returned(FRESH, init)[r..], e);
      }
    }
  }
}
