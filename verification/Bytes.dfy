/** Unsigned machine integers as subranges of `int`, and the byte orders used on the wire. */
module Bytes {
  type byte = x: int | 0 <= x < 0x100
  type word = x: int | 0 <= x < 0x1_0000
  type dword = x: int | 0 <= x < 0x1_0000_0000

  datatype Option<+T> = None | Some(value: T)

  /** The low byte of a word, `static_cast<uint8_t>(w)`. */
  function Lo(w: word): byte { w % 0x100 }

  /** The high byte of a word, `w >> 8`. */
  function Hi(w: word): byte { w / 0x100 }

  /** `lo | (hi << 8)`. */
  function Word(lo: byte, hi: byte): word { lo as int + 0x100 * hi as int }

  function Le32(v: dword): seq<byte> {
    [v % 0x100, v / 0x100 % 0x100, v / 0x1_0000 % 0x100, v / 0x100_0000]
  }

  function FromLe32(d: seq<byte>): dword
    requires |d| == 4
  {
    d[0] as int + 0x100 * d[1] as int + 0x1_0000 * d[2] as int + 0x100_0000 * d[3] as int
  }

  function Be32(v: dword): seq<byte> {
    [v / 0x100_0000, v / 0x1_0000 % 0x100, v / 0x100 % 0x100, v % 0x100]
  }

  function FromBe32(d: seq<byte>): dword
    requires |d| == 4
  {
    d[3] as int + 0x100 * d[2] as int + 0x1_0000 * d[1] as int + 0x100_0000 * d[0] as int
  }

  lemma Le32RoundTrip(v: dword)
    ensures FromLe32(Le32(v)) == v
  {
    assert v / 0x1_0000 == v / 0x100 / 0x100 && v / 0x100_0000 == v / 0x1_0000 / 0x100;
  }

  lemma Be32RoundTrip(v: dword)
    ensures FromBe32(Be32(v)) == v
  {
    assert v / 0x1_0000 == v / 0x100 / 0x100 && v / 0x100_0000 == v / 0x1_0000 / 0x100;
  }

  /** A length is kept by a sixteen-bit field exactly if it fits. */
  lemma CutLength(n: nat)
    ensures n % 0x1_0000 == n <==> n < 0x1_0000
  {
  }
}
