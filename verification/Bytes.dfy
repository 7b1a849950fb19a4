/** Bytes, little- and big-endian numbers, and the facts about sequences every codec here needs. */
module Bytes {

  type byte = b: int | 0 <= b < 256
  type uint16 = n: int | 0 <= n < 0x1_0000
  type uint32 = n: int | 0 <= n < 0x1_0000_0000

  datatype Option<+T> = None | Some(value: T)

  /** The two bytes of n, least significant first; like a C++ or Go cast, it drops the bits above 16. */
  function Le16(n: nat): (r: seq<byte>)
  {
    [n % 256, n / 256 % 256]
  }

  /** The number two bytes spell, least significant first. */
  function FromLe16(lo: byte, hi: byte): uint16
  {
    lo + 256 * hi
  }

  lemma Le16RoundTrip(n: nat)
    requires n < 0x1_0000
    ensures FromLe16(Le16(n)[0], Le16(n)[1]) == n
  {
  }

  /** Big-endian (network order) forms. */
  function Be16(n: uint16): (r: seq<byte>)
  {
    [n / 256, n % 256]
  }

  function FromBe16(hi: byte, lo: byte): uint16
  {
    256 * hi + lo
  }

  function Be32(n: uint32): (r: seq<byte>)
  {
    Be16(n / 0x1_0000) + Be16(n % 0x1_0000)
  }

  function FromBe32(b0: byte, b1: byte, b2: byte, b3: byte): uint32
  {
    0x1_0000 * FromBe16(b0, b1) + FromBe16(b2, b3)
  }

  lemma Be16RoundTrip(n: uint16)
    ensures FromBe16(Be16(n)[0], Be16(n)[1]) == n
  {
  }

  lemma Be32RoundTrip(n: uint32)
    ensures FromBe32(Be32(n)[0], Be32(n)[1], Be32(n)[2], Be32(n)[3]) == n
  {
    Be16RoundTrip(n / 0x1_0000);
    Be16RoundTrip(n % 0x1_0000);
    hide Be16, FromBe16;
  }

  /** Which byte comes first. */
  lemma ByteOrder()
    ensures Le16(0x0102) == [2, 1] && FromLe16(2, 1) == 0x0102
    ensures Be16(0x0102) == [1, 2] && FromBe16(1, 2) == 0x0102
    ensures Be32(0x01020304) == [1, 2, 3, 4] && FromBe32(1, 2, 3, 4) == 0x01020304
  {
    assert Be16(0x0304) == [3, 4];
  }

  /** n zero bytes. */
  function Zeros(n: nat): (r: seq<byte>)
  {
    seq(n, _ => 0)
  }

  /** A slice of a slice is a slice. */
  lemma SubSlice<T>(s: seq<T>, from: nat, to: nat, a: nat, b: nat)
    requires a <= b <= to - from && from <= to <= |s|
    ensures s[from..to][a..b] == s[from + a..from + b]
  {
    var x, y := s[from..to][a..b], s[from + a..from + b];
    assert |x| == |y|;
    forall i | 0 <= i < |x|
      ensures x[i] == y[i]
    {
      assert x[i] == s[from..to][a + i];
    }
  }

  /** The concatenation of a list of byte strings. */
  function Concat(parts: seq<seq<byte>>): seq<byte>
  {
    if parts == [] then [] else parts[0] + Concat(parts[1..])
  }

  lemma {:induction false} ConcatAppend(a: seq<seq<byte>>, b: seq<seq<byte>>)
    ensures Concat(a + b) == Concat(a) + Concat(b)
    decreases |a|
  {
    if a == [] {
      assert a + b == b;
    } else {
      ConcatAppend(a[1..], b);
      assert (a + b)[0] == a[0] && (a + b)[1..] == a[1..] + b;
      assert a[0] + (Concat(a[1..]) + Concat(b)) == (a[0] + Concat(a[1..])) + Concat(b);
    }
  }

  lemma ConcatSnoc(a: seq<seq<byte>>, last: seq<byte>)
    ensures Concat(a + [last]) == Concat(a) + last
  {
    ConcatAppend(a, [last]);
    assert [last][1..] == [];
    assert Concat([last]) == last;
  }
}
