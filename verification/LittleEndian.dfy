/** Little-endian words in a byte buffer, as the Windows clipboard formats use them. */
module LittleEndian {
  import opened Wire
  import CodecSpec

  /** The two bytes at an offset, read as the wire format reads its integers. */
  function Le16(raw: seq<byte>, at: nat): (n: nat)
    requires at + 2 <= |raw|
    ensures n == raw[at] as int + 0x100 * raw[at + 1] as int < TWO16
  {
    FromWord(raw[at], raw[at + 1]);
    assert raw[at..at + 2] == [raw[at], raw[at + 1]];
    CodecSpec.FromLE(raw[at..at + 2])
  }

  /** And the four bytes. */
  function Le32(raw: seq<byte>, at: nat): (n: nat)
    requires at + 4 <= |raw|
    ensures n == Le16(raw, at) + TWO16 * Le16(raw, at + 2) < TWO32
  {
    FromTwoWords(raw[at], raw[at + 1], raw[at + 2], raw[at + 3]);
    assert raw[at..at + 4] == [raw[at], raw[at + 1], raw[at + 2], raw[at + 3]];
    CodecSpec.FromLE(raw[at..at + 4])
  }

  lemma FromWord(a: byte, b: byte)
    ensures CodecSpec.FromLE([a, b]) == a as int + 0x100 * b as int
  {
    assert [a, b][1..] == [b] && [b][1..] == [];
    assert CodecSpec.FromLE([b]) == b as int + 256 * CodecSpec.FromLE([]);
  }

  lemma FromTwoWords(a: byte, b: byte, c: byte, d: byte)
    ensures CodecSpec.FromLE([a, b, c, d])
         == (a as int + 0x100 * b as int) + TWO16 * (c as int + 0x100 * d as int)
  {
    FromWord(c, d);
    assert [a, b, c, d][1..] == [b, c, d] && [b, c, d][1..] == [c, d];
    assert CodecSpec.FromLE([b, c, d]) == b as int + 0x100 * CodecSpec.FromLE([c, d]);
  }

  method PutUint16(a: array<byte>, at: nat, v: nat)
    requires at + 2 <= a.Length && v < TWO16
    modifies a
    ensures Le16(a[..], at) == v
    ensures forall i | 0 <= i < a.Length && !(at <= i < at + 2) :: a[i] == old(a[i])
  {
    a[at], a[at + 1] := (v % 0x100) as byte, (v / 0x100) as byte;
  }

  method PutUint32(a: array<byte>, at: nat, v: nat)
    requires at + 4 <= a.Length && v < TWO32
    modifies a
    ensures Le32(a[..], at) == v
    ensures forall i | 0 <= i < a.Length && !(at <= i < at + 4) :: a[i] == old(a[i])
  {
    PutUint16(a, at, v % TWO16);
    PutUint16(a, at + 2, v / TWO16);
  }
}
