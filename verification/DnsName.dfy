/** Domain names on the wire: label form, and the compressed form of section 4.1.4 of RFC 1035. */
module DnsName {
  import opened Bytes

  const DOT: byte := 46
  const MAX_NAME := 255
  const MAX_LABEL := 63
  const MAX_POINTER_JUMPS := 16

  datatype Error = ShortMessage | BadName | NameTooLong | BadRecord

  datatype Result<+T> = Ok(value: T) | Err(error: Error)

  /** msg holds the bytes b from offset off on. */
  predicate Holds(msg: seq<byte>, off: nat, b: seq<byte>)
  {
    off + |b| <= |msg| && forall i :: 0 <= i < |b| ==> msg[off + i] == b[i]
  }

  lemma HoldsSplit(msg: seq<byte>, off: nat, a: seq<byte>, b: seq<byte>)
    requires Holds(msg, off, a + b)
    ensures Holds(msg, off, a) && Holds(msg, off + |a|, b)
  {
    var ab := a + b;
    forall i | 0 <= i < |a| ensures msg[off + i] == a[i] {
      assert ab[i] == a[i];
    }
    forall i | 0 <= i < |b| ensures msg[off + |a| + i] == b[i] {
      assert ab[|a| + i] == b[i];
    }
  }

  lemma HoldsSlice(msg: seq<byte>, off: nat, b: seq<byte>)
    requires Holds(msg, off, b)
    ensures msg[off..off + |b|] == b
  {
  }

  // --- text ---

  /** The pieces between dots, as strings.Split gives them: at least one, possibly empty. */
  function Split(s: seq<byte>): (r: seq<seq<byte>>)
    ensures |r| >= 1
  {
    if s == [] then [[]]
    else if s[0] == DOT then [[]] + Split(s[1..])
    else
      var rest := Split(s[1..]);
      [[s[0]] + rest[0]] + rest[1..]
  }

  /** One trailing dot removed. */
  function Trim(name: seq<byte>): seq<byte>
  {
    if name != [] && name[|name| - 1] == DOT then name[..|name| - 1] else name
  }

  function Labels(name: seq<byte>): seq<seq<byte>>
  {
    if name == [] || name == [DOT] then [] else Split(Trim(name))
  }

  /** Labels written out, each followed by a dot. */
  function Dotted(labels: seq<seq<byte>>): seq<byte>
  {
    if labels == [] then [] else labels[0] + [DOT] + Dotted(labels[1..])
  }

  function OrRoot(text: seq<byte>): seq<byte>
  {
    if text == [] then [DOT] else text
  }

  /** The fully qualified form of a name. */
  function Qualified(name: seq<byte>): seq<byte>
  {
    if name == [] || name == [DOT] then [DOT] else Trim(name) + [DOT]
  }

  lemma {:induction false} DottedSplit(s: seq<byte>)
    ensures Dotted(Split(s)) == s + [DOT]
  {
    if s == [] {
      assert Split(s)[1..] == [];
    } else {
      DottedSplit(s[1..]);
      var rest := Split(s[1..]);
      assert s == [s[0]] + s[1..];
      if s[0] == DOT {
        assert Split(s)[1..] == rest;
      } else {
        assert Split(s)[1..] == rest[1..];
        assert Dotted(Split(s)) == [s[0]] + (rest[0] + [DOT] + Dotted(rest[1..]));
      }
    }
  }

  lemma DottedLabels(name: seq<byte>)
    ensures OrRoot(Dotted(Labels(name))) == Qualified(name)
  {
    if name != [] && name != [DOT] {
      DottedSplit(Trim(name));
    }
  }

  // --- label form ---

  predicate LabelOk(piece: seq<byte>)
  {
    1 <= |piece| <= MAX_LABEL
  }

  /** Length-prefixed labels; each length is cast to a byte. */
  function Body(labels: seq<seq<byte>>): seq<byte>
  {
    if labels == [] then [] else [|labels[0]| % 256] + labels[0] + Body(labels[1..])
  }

  function Wire(labels: seq<seq<byte>>): seq<byte>
  {
    Body(labels) + [0]
  }

  /** The names that can be written: every label 1 to 63 bytes, 255 bytes in all. */
  predicate NameOk(name: seq<byte>)
  {
    && (forall i :: 0 <= i < |Labels(name)| ==> LabelOk(Labels(name)[i]))
    && |Wire(Labels(name))| <= MAX_NAME
  }

  function EncodeName(name: seq<byte>): (r: Result<seq<byte>>)
    ensures r.Ok? <==> NameOk(name)
    ensures r.Ok? ==> 1 <= |r.value| <= MAX_NAME
  {
    var labels := Labels(name);
    if exists i :: 0 <= i < |labels| && !LabelOk(labels[i]) then Err(BadName)
    else if |Wire(labels)| > MAX_NAME then Err(NameTooLong)
    else Ok(Wire(labels))
  }

  /** Which error a name is refused with: a bad label goes first. */
  lemma NameErrors(name: seq<byte>)
    ensures EncodeName(name) == Err(BadName)
            <==> exists i :: 0 <= i < |Labels(name)| && (|Labels(name)[i]| == 0 || |Labels(name)[i]| > 63)
    ensures EncodeName(name).Err? && EncodeName(name) != Err(BadName) ==>
              EncodeName(name) == Err(NameTooLong) && |Wire(Labels(name))| > 255
  {
    hide Labels, Wire;
    if i :| 0 <= i < |Labels(name)| && !LabelOk(Labels(name)[i]) {
      assert |Labels(name)[i]| == 0 || |Labels(name)[i]| > 63;
    }
    if i :| 0 <= i < |Labels(name)| && (|Labels(name)[i]| == 0 || |Labels(name)[i]| > 63) {
      assert !LabelOk(Labels(name)[i]);
    }
  }

  lemma {:induction false} BodySnoc(labels: seq<seq<byte>>, last: seq<byte>)
    ensures Body(labels + [last]) == Body(labels) + [|last| % 256] + last
    decreases |labels|
  {
    if labels == [] {
      assert ([] + [last])[1..] == [];
      assert Body([last]) == [|last| % 256] + last + Body([]);
    } else {
      assert (labels + [last])[0] == labels[0] && (labels + [last])[1..] == labels[1..] + [last];
      BodySnoc(labels[1..], last);
    }
  }

  lemma WireRoot()
    ensures Wire([]) == [0]
  {
    assert Body([]) + [0] == [0];
  }

  lemma AppendPiece(b: seq<byte>, body: seq<byte>, n: byte, piece: seq<byte>)
    ensures b + body + [n] + piece == b + (body + [n] + piece)
  {
  }

  /** Write name in label form at the end of b. */
  method AppendName(b: seq<byte>, name: seq<byte>) returns (r: Result<seq<byte>>)
    ensures EncodeName(name).Err? ==> r == Err(EncodeName(name).error)
    ensures EncodeName(name).Ok? ==> r == Ok(b + EncodeName(name).value)
  {
    if name == [] || name == [DOT] {
      WireRoot();
      assert Labels(name) == [];
      return Ok(b + [0]);
    }
    var labels := Split(Trim(name));
    var out := b;
    for k := 0 to |labels|
      invariant forall i :: 0 <= i < k ==> LabelOk(labels[i])
      invariant out == b + Body(labels[..k])
    {
      var piece := labels[k];
      if |piece| == 0 || |piece| > MAX_LABEL {
        return Err(BadName);
      }
      hide Body;
      BodySnoc(labels[..k], piece);
      assert labels[..k + 1] == labels[..k] + [piece];
      AppendPiece(b, Body(labels[..k]), |piece|, piece);
      out := out + [|piece|];
      out := out + piece;
    }
    assert labels[..|labels|] == labels;
    hide Body;
    out := out + [0];
    assert out == b + Wire(labels);
    if |out| - |b| > MAX_NAME {
      return Err(NameTooLong);
    }
    return Ok(out);
  }

  // --- compressed form ---

  datatype Item = Root | Label(len: nat) | Pointer(target: nat) | Reserved

  /** What the byte (or two) at off says. */
  function ItemAt(msg: seq<byte>, off: nat): Item
    requires off < |msg|
  {
    var n := msg[off] as int;
    if n == 0 then Root
    else if n >= 0xC0 then Pointer(if off + 1 < |msg| then 256 * (n - 0xC0) + msg[off + 1] else 0)
    else if n >= 0x40 then Reserved
    else Label(n)
  }

  /** Reading from off with text gathered so far; next is where the record goes on, once a pointer was followed. */
  function DecodeFrom(msg: seq<byte>, off: nat, text: seq<byte>, next: Option<nat>, jumps: nat)
    : Result<(seq<byte>, nat)>
    requires jumps <= MAX_POINTER_JUMPS
    decreases MAX_POINTER_JUMPS - jumps, |msg| - off
  {
    if off >= |msg| then Err(ShortMessage)
    else
      match ItemAt(msg, off)
      case Root => Ok((OrRoot(text), if next.Some? then next.value else off + 1))
      case Pointer(target) =>
        if off + 1 >= |msg| then Err(ShortMessage)
        else if target >= off then Err(BadName)
        else if jumps + 1 > MAX_POINTER_JUMPS then Err(BadName)
        else DecodeFrom(msg, target, text, if next.Some? then next else Some(off + 2), jumps + 1)
      case Reserved => Err(BadName)
      case Label(n) =>
        if off + 1 + n > |msg| then Err(ShortMessage)
        else
          var more := text + msg[off + 1..off + 1 + n] + [DOT];
          if |more| > MAX_NAME then Err(NameTooLong)
          else DecodeFrom(msg, off + 1 + n, more, next, jumps)
  }

  function Decode(msg: seq<byte>, off: nat): Result<(seq<byte>, nat)>
  {
    DecodeFrom(msg, off, [], None, 0)
  }

  function NextOf(next: int): Option<nat>
  {
    if next < 0 then None else Some(next)
  }

  lemma PointerValue(hi: byte, lo: byte)
    requires hi / 64 == 3
    ensures FromBe16(hi, lo) % 0x4000 == 256 * (hi - 0xC0) + lo
  {
  }

  lemma {:induction false} DecodeBounds(msg: seq<byte>, off: nat, text: seq<byte>, next: Option<nat>, jumps: nat)
    requires jumps <= MAX_POINTER_JUMPS && |text| <= MAX_NAME
    ensures var r := DecodeFrom(msg, off, text, next, jumps);
            r.Ok? ==> 1 <= |r.value.0| <= MAX_NAME
                      && if next.Some? then r.value.1 == next.value else off < r.value.1 <= |msg|
    decreases MAX_POINTER_JUMPS - jumps, |msg| - off
  {
    if off < |msg| {
      match ItemAt(msg, off) {
        case Pointer(target) =>
          if off + 1 < |msg| && target < off && jumps < MAX_POINTER_JUMPS {
            DecodeBounds(msg, target, text, if next.Some? then next else Some(off + 2), jumps + 1);
          }
        case Label(n) =>
          if off + 1 + n <= |msg| && |text| + n + 1 <= MAX_NAME {
            DecodeBounds(msg, off + 1 + n, text + msg[off + 1..off + 1 + n] + [DOT], next, jumps);
          }
        case _ =>
      }
    }
  }

  /** Read a possibly compressed name: terminates within bounds on every message and offset. The measure is
      the jumps left, then the bytes left; backward pointers alone do not bound it. */
  method DecodeName(msg: seq<byte>, start: nat) returns (r: Result<(seq<byte>, nat)>)
    ensures r == Decode(msg, start)
    ensures r.Ok? ==> start < r.value.1 <= |msg| && 1 <= |r.value.0| <= MAX_NAME
  {
    DecodeBounds(msg, start, [], None, 0);
    var off, text, next, jumps := start, [], -1, 0;
    while true
      invariant 0 <= off && -1 <= next && 0 <= jumps <= MAX_POINTER_JUMPS
      invariant DecodeFrom(msg, off, text, NextOf(next), jumps) == Decode(msg, start)
      decreases MAX_POINTER_JUMPS - jumps, |msg| - off
    {
      hide OrRoot, Decode;
      if off < 0 || off >= |msg| {
        return Err(ShortMessage);
      }
      var n := msg[off] as int;
      if n == 0 {
        off := off + 1;
        if next < 0 {
          next := off;
        }
        return Ok((OrRoot(text), next));
      } else if n / 64 == 3 {
        if off + 1 >= |msg| {
          return Err(ShortMessage);
        }
        var ptr := FromBe16(msg[off], msg[off + 1]) % 0x4000;
        PointerValue(msg[off], msg[off + 1]);
        assert ItemAt(msg, off) == Pointer(ptr);
        if next < 0 {
          next := off + 2;
        }
        if ptr >= off {
          return Err(BadName);
        }
        jumps := jumps + 1;
        if jumps > MAX_POINTER_JUMPS {
          return Err(BadName);
        }
        off := ptr;
      } else if n / 64 != 0 {
        assert ItemAt(msg, off) == Reserved;
        return Err(BadName);
      } else {
        assert ItemAt(msg, off) == Label(n);
        if off + 1 + n > |msg| {
          return Err(ShortMessage);
        }
        text := text + msg[off + 1..off + 1 + n];
        text := text + [DOT];
        off := off + 1 + n;
        if |text| > MAX_NAME {
          return Err(NameTooLong);
        }
      }
    }
  }

  // --- what a compressed name means ---

  /** A stretch of a name: some labels in label form at an offset. */
  datatype Part = Part(at: nat, labels: seq<seq<byte>>)

  /** Reading the parts one after the other leads to offset at: after each but the last stands a two-byte pointer, both
      high bits set, to the next, which begins before that pointer. */
  predicate Leads(msg: seq<byte>, parts: seq<Part>, at: nat)
    decreases |parts|
  {
    && |parts| > 0
    && (forall i :: 0 <= i < |parts[0].labels| ==> LabelOk(parts[0].labels[i]))
    && var end := parts[0].at + |Body(parts[0].labels)|;
       if |parts| == 1 then Holds(msg, parts[0].at, Body(parts[0].labels)) && at == end
       else
         && parts[1].at < end && parts[1].at < 0x4000
         && Holds(msg, parts[0].at, Body(parts[0].labels) + Be16(0xC000 + parts[1].at))
         && Leads(msg, parts[1..], at)
  }

  /** The labels of all parts, each followed by a dot. */
  function Spelled(parts: seq<Part>): seq<byte>
  {
    if parts == [] then [] else Dotted(parts[0].labels) + Spelled(parts[1..])
  }

  /** Just past the pointer of the first part, or past the root byte after a single part. */
  function PastName(parts: seq<Part>): nat
    requires parts != []
  {
    parts[0].at + |Body(parts[0].labels)| + if |parts| == 1 then 1 else 2
  }

  datatype Ending = Complete | Broken(error: Error)

  /** What reading comes to at offset at, after some jumps and size bytes of name. */
  predicate EndsAs(msg: seq<byte>, at: nat, jumps: nat, size: nat, ending: Ending)
  {
    match ending
    case Complete => at < |msg| && msg[at] == 0
    case Broken(ShortMessage) =>
      || at >= |msg|
      || (msg[at] >= 0xC0 && at + 1 == |msg|)
      || (0 < msg[at] < 0x40 && at + 1 + msg[at] > |msg|)
    case Broken(NameTooLong) =>
      at < |msg| && 0 < msg[at] < 0x40 && at + 1 + msg[at] <= |msg| && size + msg[at] + 1 > MAX_NAME
    case Broken(BadName) =>
      && at < |msg|
      && (|| 0x40 <= msg[at] < 0xC0
          || (&& msg[at] >= 0xC0 && at + 1 < |msg|
              && (jumps == MAX_POINTER_JUMPS || FromBe16(msg[at], msg[at + 1]) >= 0xC000 + at)))
    case Broken(BadRecord) => false
  }

  /** A reading of the name at off, within the limits of sixteen jumps and 255 bytes, that ends so. */
  predicate Reading(msg: seq<byte>, off: nat, parts: seq<Part>, at: nat, ending: Ending)
  {
    && Leads(msg, parts, at) && parts[0].at == off
    && |parts| - 1 <= MAX_POINTER_JUMPS && |Spelled(parts)| <= MAX_NAME
    && EndsAs(msg, at, |parts| - 1, |Spelled(parts)|, ending)
  }

  /** A label at off is one step of reading. */
  lemma DecodeLabel(msg: seq<byte>, off: nat, piece: seq<byte>, text: seq<byte>, next: Option<nat>, jumps: nat)
    requires jumps <= MAX_POINTER_JUMPS
    requires LabelOk(piece) && Holds(msg, off, [|piece|] + piece) && |text| + |piece| + 1 <= MAX_NAME
    ensures DecodeFrom(msg, off, text, next, jumps)
            == DecodeFrom(msg, off + 1 + |piece|, text + piece + [DOT], next, jumps)
  {
    HoldsSplit(msg, off, [|piece|], piece);
    HoldsSlice(msg, off + 1, piece);
    assert msg[off + 0] == [|piece|][0];
    assert ItemAt(msg, off) == Label(|piece|);
  }

  lemma BodyCons(labels: seq<seq<byte>>, rest: seq<byte>)
    requires labels != [] && LabelOk(labels[0])
    ensures Body(labels) + rest == [|labels[0]|] + labels[0] + (Body(labels[1..]) + rest)
    ensures |Body(labels)| == 1 + |labels[0]| + |Body(labels[1..])|
    ensures Dotted(labels) == labels[0] + [DOT] + Dotted(labels[1..])
  {
    var first := labels[0];
    assert |first| % 256 == |first|;
    hide LabelOk;
    assert Body(labels) == [|first|] + first + Body(labels[1..]);
  }

  lemma FirstLabel(msg: seq<byte>, off: nat, labels: seq<seq<byte>>)
    requires labels != [] && LabelOk(labels[0]) && Holds(msg, off, Body(labels))
    ensures Holds(msg, off, [|labels[0]|] + labels[0]) && Holds(msg, off + 1 + |labels[0]|, Body(labels[1..]))
    ensures |Body(labels)| == 1 + |labels[0]| + |Body(labels[1..])|
    ensures Dotted(labels) == labels[0] + [DOT] + Dotted(labels[1..])
  {
    BodyCons(labels, []);
    assert Body(labels) + [] == Body(labels) && Body(labels[1..]) + [] == Body(labels[1..]);
    hide Holds, Body, Dotted;
    HoldsSplit(msg, off, [|labels[0]|] + labels[0], Body(labels[1..]));
  }

  lemma Regroup(a: seq<byte>, b: seq<byte>, c: seq<byte>)
    ensures a + b + c == a + (b + c)
  {
  }

  lemma DecodeFirst(msg: seq<byte>, off: nat, labels: seq<seq<byte>>, text: seq<byte>, next: Option<nat>, jumps: nat)
    requires jumps <= MAX_POINTER_JUMPS && labels != [] && LabelOk(labels[0])
    requires Holds(msg, off, Body(labels)) && |text| + |labels[0]| + 1 <= MAX_NAME
    ensures DecodeFrom(msg, off, text, next, jumps)
            == DecodeFrom(msg, off + 1 + |labels[0]|, text + (labels[0] + [DOT]), next, jumps)
  {
    FirstLabel(msg, off, labels);
    DecodeLabel(msg, off, labels[0], text, next, jumps);
    Regroup(text, labels[0], [DOT]);
    hide DecodeFrom, Holds, Body;
  }

  /** Labels in label form are read one by one. */
  lemma {:induction false} DecodeBody(msg: seq<byte>, off: nat, labels: seq<seq<byte>>, text: seq<byte>,
                                      next: Option<nat>, jumps: nat)
    requires jumps <= MAX_POINTER_JUMPS && forall i :: 0 <= i < |labels| ==> LabelOk(labels[i])
    requires Holds(msg, off, Body(labels)) && |text| + |Dotted(labels)| <= MAX_NAME
    ensures DecodeFrom(msg, off, text, next, jumps)
            == DecodeFrom(msg, off + |Body(labels)|, text + Dotted(labels), next, jumps)
    decreases |labels|
  {
    if labels == [] {
      assert text + [] == text;
    } else {
      hide DecodeFrom, Holds, Body, Dotted, LabelOk;
      FirstLabel(msg, off, labels);
      DecodeFirst(msg, off, labels, text, next, jumps);
      var piece := labels[0] + [DOT];
      Regroup(text, piece, Dotted(labels[1..]));
      DecodeBody(msg, off + 1 + |labels[0]|, labels[1..], text + piece, next, jumps);
    }
  }

  /** Two bytes with both high bits set lead to the offset that the other fourteen bits say. */
  lemma DecodePointer(msg: seq<byte>, off: nat, target: nat, text: seq<byte>, next: Option<nat>, jumps: nat)
    requires jumps < MAX_POINTER_JUMPS && target < off && target < 0x4000 && Holds(msg, off, Be16(0xC000 + target))
    ensures DecodeFrom(msg, off, text, next, jumps)
            == DecodeFrom(msg, target, text, if next.Some? then next else Some(off + 2), jumps + 1)
  {
    assert msg[off + 0] == Be16(0xC000 + target)[0] && msg[off + 1] == Be16(0xC000 + target)[1];
    assert ItemAt(msg, off) == Pointer(target);
  }

  /** Where the record goes on, after reading the parts. */
  function NextAfter(parts: seq<Part>, next: Option<nat>): Option<nat>
    requires parts != []
  {
    if next.Some? || |parts| == 1 then next else Some(PastName(parts))
  }

  lemma LeadsFirst(msg: seq<byte>, parts: seq<Part>, at: nat)
    requires Leads(msg, parts, at)
    ensures |parts| > 0 && forall i :: 0 <= i < |parts[0].labels| ==> LabelOk(parts[0].labels[i])
    ensures Holds(msg, parts[0].at, Body(parts[0].labels))
    ensures Spelled(parts) == Dotted(parts[0].labels) + Spelled(parts[1..])
    ensures |parts| == 1 ==> at == parts[0].at + |Body(parts[0].labels)| && Spelled(parts) == Dotted(parts[0].labels)
    ensures |parts| > 1 ==>
              && parts[1].at < parts[0].at + |Body(parts[0].labels)| && parts[1].at < 0x4000
              && Holds(msg, parts[0].at + |Body(parts[0].labels)|, Be16(0xC000 + parts[1].at))
              && Leads(msg, parts[1..], at)
  {
    hide Body, Dotted;
    if |parts| > 1 {
      HoldsSplit(msg, parts[0].at, Body(parts[0].labels), Be16(0xC000 + parts[1].at));
    }
  }

  lemma NextInTail(parts: seq<Part>, next: Option<nat>)
    requires parts != []
    ensures |parts| == 1 ==> NextAfter(parts, next) == next
    ensures |parts| > 1 ==>
              NextAfter(parts[1..], if next.Some? then next else Some(parts[0].at + |Body(parts[0].labels)| + 2))
              == NextAfter(parts, next)
  {
  }

  lemma {:induction false} DecodeLeads(msg: seq<byte>, parts: seq<Part>, at: nat, text: seq<byte>, next: Option<nat>,
                                       jumps: nat)
    requires Leads(msg, parts, at)
    requires jumps + |parts| - 1 <= MAX_POINTER_JUMPS && |text| + |Spelled(parts)| <= MAX_NAME
    ensures DecodeFrom(msg, parts[0].at, text, next, jumps)
            == DecodeFrom(msg, at, text + Spelled(parts), NextAfter(parts, next), jumps + |parts| - 1)
    decreases |parts|
  {
    hide DecodeFrom, Body, Dotted, Holds, Leads, Spelled;
    LeadsFirst(msg, parts, at);
    NextInTail(parts, next);
    hide NextAfter, PastName;
    var p, tail := parts[0], parts[1..];
    var end, more := p.at + |Body(p.labels)|, text + Dotted(p.labels);
    DecodeBody(msg, p.at, p.labels, text, next, jumps);
    if |parts| > 1 {
      DecodePointer(msg, end, tail[0].at, more, next, jumps);
      assert more + Spelled(tail) == text + Spelled(parts);
      DecodeLeads(msg, tail, at, more, if next.Some? then next else Some(end + 2), jumps + 1);
    }
  }

  function ResultOf(text: seq<byte>, past: nat, ending: Ending): Result<(seq<byte>, nat)>
  {
    match ending
    case Complete => Ok((OrRoot(text), past))
    case Broken(e) => Err(e)
  }

  lemma DecodeEnding(msg: seq<byte>, at: nat, text: seq<byte>, next: Option<nat>, jumps: nat, ending: Ending)
    requires jumps <= MAX_POINTER_JUMPS && EndsAs(msg, at, jumps, |text|, ending)
    ensures DecodeFrom(msg, at, text, next, jumps)
            == ResultOf(text, if next.Some? then next.value else at + 1, ending)
  {
    hide OrRoot;
  }

  lemma HoldsLabel(msg: seq<byte>, off: nat, n: nat, rest: seq<byte>)
    requires off + 1 + n <= |msg| && n < 256 && msg[off] == n && Holds(msg, off + 1 + n, rest)
    ensures Holds(msg, off, [n] + msg[off + 1..off + 1 + n] + rest)
  {
  }

  lemma LongerPart(msg: seq<byte>, off: nat, n: nat, p: Part)
    requires off + 1 + n <= |msg| && 0 < n < 0x40 && msg[off] == n
    requires p.at == off + 1 + n && Holds(msg, p.at, Body(p.labels))
    ensures var piece := msg[off + 1..off + 1 + n];
            var longer := [piece] + p.labels;
            && LabelOk(piece)
            && Holds(msg, off, Body(longer)) && off + |Body(longer)| == p.at + |Body(p.labels)|
            && Dotted(longer) == piece + [DOT] + Dotted(p.labels)
  {
    var piece := msg[off + 1..off + 1 + n];
    var longer := [piece] + p.labels;
    assert longer[1..] == p.labels;
    BodyCons(longer, []);
    HoldsLabel(msg, off, n, Body(p.labels));
    assert Body(p.labels) + [] == Body(p.labels);
    assert Body(longer) + [] == Body(longer);
    hide Body, Dotted, Holds;
  }

  lemma HoldsJoin(msg: seq<byte>, off: nat, a: seq<byte>, b: seq<byte>)
    requires Holds(msg, off, a) && Holds(msg, off + |a|, b)
    ensures Holds(msg, off, a + b)
  {
  }

  /** One more label in front of a reading. */
  lemma LeadsLabel(msg: seq<byte>, off: nat, n: nat, parts: seq<Part>, at: nat)
    requires off + 1 + n <= |msg| && 0 < n < 0x40 && msg[off] == n
    requires Leads(msg, parts, at) && parts[0].at == off + 1 + n
    ensures var piece := msg[off + 1..off + 1 + n];
            var more := [Part(off, [piece] + parts[0].labels)] + parts[1..];
            && Leads(msg, more, at)
            && Spelled(more) == piece + [DOT] + Spelled(parts)
  {
    var piece := msg[off + 1..off + 1 + n];
    var p, longer := parts[0], [piece] + parts[0].labels;
    LeadsFirst(msg, parts, at);
    LongerPart(msg, off, n, p);
    hide Body, Dotted, Holds;
    var more := [Part(off, longer)] + parts[1..];
    assert more[1..] == parts[1..];
    if |parts| > 1 {
      HoldsJoin(msg, off, Body(longer), Be16(0xC000 + parts[1].at));
    }
    assert Spelled(more) == Dotted(longer) + Spelled(parts[1..]);
    Regroup(piece + [DOT], Dotted(p.labels), Spelled(parts[1..]));
  }

  /** A pointer in front of a reading. */
  lemma LeadsPointer(msg: seq<byte>, off: nat, parts: seq<Part>, at: nat)
    requires off + 1 < |msg| && msg[off] >= 0xC0 && Leads(msg, parts, at)
    requires FromBe16(msg[off], msg[off + 1]) == 0xC000 + parts[0].at && parts[0].at < off
    ensures var more := [Part(off, [])] + parts; Leads(msg, more, at) && Spelled(more) == Spelled(parts)
  {
    var more := [Part(off, [])] + parts;
    assert more[1..] == parts;
    assert Body([]) + Be16(0xC000 + parts[0].at) == [msg[off], msg[off + 1]];
    assert [] + Spelled(parts) == Spelled(parts);
  }

  lemma LeadsNothing(msg: seq<byte>, off: nat)
    requires off <= |msg|
    ensures Leads(msg, [Part(off, [])], off) && Spelled([Part(off, [])]) == []
  {
  }

  lemma {:induction false} ReadingExists(msg: seq<byte>, off: nat, jumps: nat, size: nat)
    returns (parts: seq<Part>, at: nat, ending: Ending)
    requires off <= |msg| && jumps <= MAX_POINTER_JUMPS && size <= MAX_NAME
    ensures |parts| > 0 && Leads(msg, parts, at) && parts[0].at == off
    ensures jumps + |parts| - 1 <= MAX_POINTER_JUMPS && size + |Spelled(parts)| <= MAX_NAME
    ensures EndsAs(msg, at, jumps + |parts| - 1, size + |Spelled(parts)|, ending)
    decreases MAX_POINTER_JUMPS - jumps, |msg| - off
  {
    hide Body, Leads;
    if e :| EndsAs(msg, off, jumps, size, e) {
      parts, at, ending := [Part(off, [])], off, e;
      LeadsNothing(msg, off);
    } else {
      assert !EndsAs(msg, off, jumps, size, Complete) && !EndsAs(msg, off, jumps, size, Broken(ShortMessage));
      assert !EndsAs(msg, off, jumps, size, Broken(BadName)) && !EndsAs(msg, off, jumps, size, Broken(NameTooLong));
      if msg[off] < 0x40 {
        var n := msg[off] as nat;
        var rest;
        rest, at, ending := ReadingExists(msg, off + 1 + n, jumps, size + n + 1);
        LeadsLabel(msg, off, n, rest, at);
        parts := [Part(off, [msg[off + 1..off + 1 + n]] + rest[0].labels)] + rest[1..];
      } else {
        var rest;
        rest, at, ending := ReadingExists(msg, FromBe16(msg[off], msg[off + 1]) - 0xC000, jumps + 1, size);
        LeadsPointer(msg, off, rest, at);
        parts := [Part(off, [])] + rest;
      }
    }
  }

  lemma ReadingDecodes(msg: seq<byte>, off: nat, parts: seq<Part>, at: nat, ending: Ending)
    requires Reading(msg, off, parts, at, ending)
    ensures Decode(msg, off) == ResultOf(Spelled(parts), PastName(parts), ending)
  {
    DecodeLeads(msg, parts, at, [], None, 0);
    hide DecodeFrom, Body, Spelled;
    assert [] + Spelled(parts) == Spelled(parts);
    DecodeEnding(msg, at, Spelled(parts), NextAfter(parts, None), |parts| - 1, ending);
  }

  lemma CompleteDecodes(msg: seq<byte>, parts: seq<Part>, at: nat)
    requires 1 <= |parts| <= MAX_POINTER_JUMPS + 1 && Leads(msg, parts, at) && |Spelled(parts)| <= MAX_NAME
    requires at < |msg| && msg[at] == 0
    ensures Decode(msg, parts[0].at) == Ok((OrRoot(Spelled(parts)), PastName(parts)))
  {
    hide Decode, Leads, Spelled, OrRoot;
    ReadingDecodes(msg, parts[0].at, parts, at, Complete);
  }

  /** Every name has a reading, and decoding comes to what its bytes say: the labels spelled and the offset past the
      first pointer, or the error the reading ends with. */
  lemma DecodeMeaning(msg: seq<byte>, off: nat)
    ensures off <= |msg| ==> exists parts, at, ending :: Reading(msg, off, parts, at, ending)
    ensures forall parts, at, ending :: Reading(msg, off, parts, at, ending) ==>
              Decode(msg, off) == ResultOf(Spelled(parts), PastName(parts), ending)
    ensures off > |msg| ==> Decode(msg, off) == Err(ShortMessage)
  {
    forall parts, at, ending | Reading(msg, off, parts, at, ending)
      ensures Decode(msg, off) == ResultOf(Spelled(parts), PastName(parts), ending)
    {
      ReadingDecodes(msg, off, parts, at, ending);
    }
    if off <= |msg| {
      var parts, at, ending := ReadingExists(msg, off, 0, 0);
      hide *;
      assert Reading(msg, off, parts, at, ending);
    }
  }

  lemma {:induction false} LoopsUntilLimit(text: seq<byte>, next: Option<nat>, jumps: nat)
    requires jumps <= MAX_POINTER_JUMPS && |text| == 2 * jumps
    ensures DecodeFrom([1, 97, 0xC0, 0], 0, text, next, jumps) == Err(BadName)
    decreases MAX_POINTER_JUMPS - jumps
  {
    var msg: seq<byte> := [1, 97, 0xC0, 0];
    assert ItemAt(msg, 0) == Label(1) && ItemAt(msg, 2) == Pointer(0);
    var more := text + msg[1..2] + [DOT];
    assert DecodeFrom(msg, 0, text, next, jumps) == DecodeFrom(msg, 2, more, next, jumps);
    if jumps < MAX_POINTER_JUMPS {
      LoopsUntilLimit(more, if next.Some? then next else Some(4), jumps + 1);
    }
  }

  /** Strictly backward pointers do not rule out a loop by themselves: here is a message in which following
      them returns to the offset it started from, and only the jump limit ends the reading. */
  lemma BackwardPointersCanLoop()
    ensures Leads([1, 97, 0xC0, 0], [Part(0, [[97]]), Part(0, [])], 0)
    ensures Decode([1, 97, 0xC0, 0], 0) == Err(BadName)
  {
    LoopsUntilLimit([], None, 0);
    assert Body([[97]]) == [1, 97];
    assert Body([]) == [];
  }

  // --- the two together ---

  lemma WireBody(msg: seq<byte>, off: nat, labels: seq<seq<byte>>)
    requires Holds(msg, off, Wire(labels))
    ensures Holds(msg, off, Body(labels)) && |Wire(labels)| == |Body(labels)| + 1
    ensures off + |Body(labels)| < |msg| && msg[off + |Body(labels)|] == 0
  {
    HoldsSplit(msg, off, Body(labels), [0]);
    hide Body;
    assert msg[off + |Body(labels)| + 0] == [0][0];
  }

  lemma {:induction false} DottedAppend(a: seq<seq<byte>>, b: seq<seq<byte>>)
    ensures Dotted(a + b) == Dotted(a) + Dotted(b)
  {
    if a == [] {
      assert a + b == b;
    } else {
      DottedAppend(a[1..], b);
      assert (a + b)[1..] == a[1..] + b;
    }
  }

  lemma OnePart(msg: seq<byte>, off: nat, labels: seq<seq<byte>>)
    requires Holds(msg, off, Body(labels)) && forall i :: 0 <= i < |labels| ==> LabelOk(labels[i])
    ensures var parts := [Part(off, labels)];
            && Leads(msg, parts, off + |Body(labels)|) && Spelled(parts) == Dotted(labels)
            && PastName(parts) == off + |Body(labels)| + 1
  {
    hide Body, Dotted, Holds;
    assert [Part(off, labels)][1..] == [];
    assert Dotted(labels) + [] == Dotted(labels);
  }

  lemma TwoParts(msg: seq<byte>, off: nat, labels: seq<seq<byte>>, rest: seq<Part>, at: nat)
    requires Leads(msg, rest, at) && forall i :: 0 <= i < |labels| ==> LabelOk(labels[i])
    requires rest[0].at < off + |Body(labels)| && rest[0].at < 0x4000
    requires Holds(msg, off, Body(labels) + Be16(0xC000 + rest[0].at))
    ensures var parts := [Part(off, labels)] + rest;
            && Leads(msg, parts, at) && Spelled(parts) == Dotted(labels) + Spelled(rest)
            && PastName(parts) == off + |Body(labels)| + 2
  {
    hide Body, Dotted, Holds;
    assert ([Part(off, labels)] + rest)[1..] == rest;
  }

  /** Any labels, a pointer, and the rest of the name in label form where it points, anywhere before it in a message:
      the name reads back whole, and the record goes on behind the pointer. */
  lemma CompressedRoundTrip(msg: seq<byte>, off: nat, prefix: seq<seq<byte>>, target: nat, labels: seq<seq<byte>>)
    requires forall i :: 0 <= i < |prefix| ==> LabelOk(prefix[i])
    requires forall i :: 0 <= i < |labels| ==> LabelOk(labels[i])
    requires target < off + |Body(prefix)| && target < 0x4000 && |Dotted(prefix + labels)| <= MAX_NAME
    requires Holds(msg, off, Body(prefix) + Be16(0xC000 + target)) && Holds(msg, target, Wire(labels))
    ensures Decode(msg, off) == Ok((OrRoot(Dotted(prefix + labels)), off + |Body(prefix)| + 2))
  {
    hide Be16, Body, Dotted, Holds, Decode, Wire, LabelOk, Leads, Spelled, OrRoot, PastName;
    WireBody(msg, target, labels);
    DottedAppend(prefix, labels);
    OnePart(msg, target, labels);
    var rest := [Part(target, labels)];
    TwoParts(msg, off, prefix, rest, target + |Body(labels)|);
    CompleteDecodes(msg, [Part(off, prefix)] + rest, target + |Body(labels)|);
  }

  lemma {:induction false} DottedSize(labels: seq<seq<byte>>)
    ensures |Dotted(labels)| == |Body(labels)|
  {
    if labels != [] {
      DottedSize(labels[1..]);
    }
  }

  /** A name written in label form anywhere in a message reads back, fully qualified. */
  lemma NameRoundTrip(msg: seq<byte>, off: nat, name: seq<byte>)
    requires NameOk(name) && Holds(msg, off, Wire(Labels(name)))
    ensures Decode(msg, off) == Ok((Qualified(name), off + |Wire(Labels(name))|))
  {
    var labels := Labels(name);
    WireBody(msg, off, labels);
    DottedLabels(name);
    DottedSize(labels);
    OnePart(msg, off, labels);
    hide Body, Dotted, Holds, Decode, Wire, Labels, Leads, Spelled, OrRoot, PastName;
    CompleteDecodes(msg, [Part(off, labels)], off + |Body(labels)|);
  }
}
