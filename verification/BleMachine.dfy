/** The decoder's state and transitions as values: what every call of the decoder does to what it holds. */
module BleMachine {
  import opened Bytes
  import opened Provision
  import opened BleFormat

  datatype View = View(buf: seq<byte>, fields: Fields, declared: nat, received: nat,
                       state: State, error: Error, version: byte, nextSeq: byte)

  predicate ValidView(v: View)
  {
    |v.buf| == MAX_STREAM && v.received <= v.declared <= MAX_STREAM
  }

  const FRESH := View(Zeros(MAX_STREAM), CLEARED, 0, 0, Idle, NoError, 0, 0)

  /** Put data into buf at offset at. */
  function Splice(buf: seq<byte>, at: nat, data: seq<byte>): (r: seq<byte>)
    requires at + |data| <= |buf|
    ensures |r| == |buf|
  {
    buf[..at] + data + buf[at + |data|..]
  }

  /** Refuse: only the first error is kept, and the partial stream is dropped. */
  function Fail(v: View, e: Error): View
  {
    v.(buf := Zeros(MAX_STREAM), received := 0, state := Failed,
       error := if v.state == Failed then v.error else e)
  }

  function Begin(v: View, data: seq<byte>): (View, Error)
    requires |data| >= 1
  {
    if |data| != 4 then (Fail(v, MalformedControl), MalformedControl)
    else if data[1] != VERSION then (Fail(v, BadVersion), BadVersion)
    else
      var total := FromLe16(data[2], data[3]);
      if total < MIN_STREAM then (Fail(v, ShortStream), ShortStream)
      else if total > MAX_STREAM then (Fail(v, TooLarge), TooLarge)
      else (FRESH.(version := data[1], declared := total, state := Receiving), NoError)
  }

  function Commit(v: View, data: seq<byte>): (View, Error)
    requires ValidView(v)
  {
    if |data| != 1 then (Fail(v, MalformedControl), MalformedControl)
    else if v.state != Receiving then (Fail(v, NotBegun), NotBegun)
    else if v.received != v.declared then (Fail(v, Truncated), Truncated)
    else
      match ParseBuffer(v.buf, v.declared, v.version)
      case Refused(e) => (Fail(v.(fields := CLEARED), e), e)
      case Accepted(f) => (v.(fields := f, state := Ready, error := NoError), NoError)
  }

  function Control(v: View, data: seq<byte>): (View, Error)
    requires ValidView(v)
  {
    if |data| < 1 then (Fail(v, MalformedControl), MalformedControl)
    else if data[0] == OP_BEGIN then Begin(v, data)
    else if data[0] == OP_COMMIT then Commit(v, data)
    else if data[0] == OP_ABORT then
      if |data| != 1 then (Fail(v, MalformedControl), MalformedControl) else (FRESH, NoError)
    else (Fail(v, UnknownOp), UnknownOp)
  }

  function Chunk(v: View, data: seq<byte>): (View, Error)
    requires ValidView(v)
  {
    if v.state != Receiving then (Fail(v, NotBegun), NotBegun)
    else if |data| < 2 then (Fail(v, MalformedChunk), MalformedChunk)
    else if data[0] != v.nextSeq then (Fail(v, OutOfOrder), OutOfOrder)
    else if v.received + |data| - 1 > v.declared then (Fail(v, Overflow), Overflow)
    else
      (v.(buf := Splice(v.buf, v.received, data[1..]), received := v.received + |data| - 1,
          nextSeq := (v.nextSeq + 1) % 256), NoError)
  }

  function Scrubbed(v: View): View
  {
    v.(buf := Zeros(MAX_STREAM), fields := CLEARED, declared := 0, received := 0, nextSeq := 0)
  }
}
