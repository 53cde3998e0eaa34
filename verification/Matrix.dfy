/** The bit matrix of a slave, and its packed form. */
module Matrix {
  import opened Bytes

  // ---------- the bit matrix ----------

  ghost predicate Rectangular(m: seq<seq<int>>, cols: nat) {
    forall r :: 0 <= r < |m| ==> |m[r]| == cols
  }

  function Flat(m: seq<seq<int>>): seq<int> {
    if m == [] then [] else Flat(m[..|m| - 1]) + m[|m| - 1]
  }

  /** The number of cells in the first `r` rows. */
  function FlatLen(m: seq<seq<int>>, r: nat): nat
    requires r <= |m|
  {
    |Flat(m[..r])|
  }

  /** A bit counts for its weight in the byte, first bit highest; bits beyond the end count nothing. */
  function At(bits: seq<int>, j: nat): nat { if j < |bits| then bits[j] % 2 else 0 }

  function PackByte(bits: seq<int>): byte {
    0x80 * At(bits, 0) + 0x40 * At(bits, 1) + 0x20 * At(bits, 2) + 0x10 * At(bits, 3)
    + 8 * At(bits, 4) + 4 * At(bits, 5) + 2 * At(bits, 6) + At(bits, 7)
  }

  /** `1 << i`. */
  function Weight(i: int): nat {
    if i <= 0 then 1 else if i == 1 then 2 else if i == 2 then 4 else if i == 3 then 8
    else if i == 4 then 0x10 else if i == 5 then 0x20 else if i == 6 then 0x40 else 0x80
  }

  /** A byte with a clear bit `i` set to `x & 1`. */
  function WithBit(b: byte, i: int, x: int): byte {
    var sum := b + if x % 2 == 1 then Weight(i) else 0;
    if sum < 0x100 then sum else sum - 0x100
  }

  function Bit(b: byte, i: nat): int
    requires i < 8
  {
    b / Weight(i) % 2
  }

  /** Byte `j` of the packed bits. */
  function Chunk(bits: seq<int>, j: nat): seq<int>
    requires 8 * j <= |bits|
  {
    if 8 * j + 8 <= |bits| then bits[8 * j..8 * j + 8] else bits[8 * j..]
  }

  ghost predicate Packed(bits: seq<int>, bytes: seq<byte>) {
    && |bytes| == (|bits| + 7) / 8
    && forall j :: 0 <= j < |bytes| ==> bytes[j] == PackByte(Chunk(bits, j))
  }

  class BinaryMatrix {
    var matrix: seq<seq<int>>
    var rows: nat
    var cols: nat

    ghost predicate Valid()
      reads this
    {
      |matrix| == rows && Rectangular(matrix, cols)
    }

    constructor ()
      ensures Valid() && matrix == [] && cols == 0
    {
      matrix, rows, cols := [], 0, 0;
    }

    /** Old cells are kept, new ones are 0. */
    method Resize(newRows: nat, newCols: nat)
      modifies this
      ensures Valid() && rows == newRows && cols == newCols
      ensures forall r, c :: 0 <= r < newRows && 0 <= c < newCols ==>
                matrix[r][c] == if r < |old(matrix)| && c < |old(matrix)[r]| then old(matrix)[r][c] else 0
    {
      var before := matrix;
      var m: seq<seq<int>> := if newRows <= |matrix| then matrix[..newRows]
                              else matrix + seq(newRows - |matrix|, _ => []);
      var i := 0;
      while i < newRows
        invariant i <= newRows && |m| == newRows
        invariant forall r :: 0 <= r < i ==> |m[r]| == newCols
        invariant forall r, c :: 0 <= r < i && 0 <= c < newCols ==>
                    m[r][c] == if r < |before| && c < |before[r]| then before[r][c] else 0
        invariant forall r :: i <= r < newRows ==> m[r] == if r < |before| then before[r] else []
      {
        var row := if newCols <= |m[i]| then m[i][..newCols] else m[i] + seq(newCols - |m[i]|, _ => 0);
        m := m[i := row];
        i := i + 1;
      }
      matrix, rows, cols := m, newRows, newCols;
    }

    method SetValue(r: nat, c: nat, value: int)
      requires Valid() && r < rows && c < cols
      modifies this`matrix
      ensures Valid() && matrix == old(matrix)[r := old(matrix)[r][c := value]]
    {
      matrix := matrix[r := matrix[r][c := value]];
    }

    method Flatten() returns (result: seq<byte>)
      ensures Packed(Flat(matrix), result)
    {
      result := [];
      var currentByte: byte, bitCount := 0, 7;
      for r := 0 to |matrix|
        invariant Packing(result, currentByte, bitCount) == PushAll(START, Flat(matrix[..r]))
      {
        var row := matrix[r];
        ghost var before := Packing(result, currentByte, bitCount);
        for c := 0 to |row|
          invariant Packing(result, currentByte, bitCount) == PushAll(before, row[..c])
        {
          PushOneMore(before, row, c);
          currentByte := WithBit(currentByte, bitCount, row[c]);
          bitCount := bitCount - 1;
          if bitCount < 0 {
            result := result + [currentByte];
            currentByte := 0;
            bitCount := 7;
          }
        }
        PushRow(matrix, r);
      }
      assert matrix[..|matrix|] == matrix;
      PushedHalf(Flat(matrix));
      HalfIsPacked(Flat(matrix), result, currentByte, bitCount);
      if bitCount != 7 {
        result := result + [currentByte];
      }
    }
  }

  /** The packing loop's variables. */
  datatype Packing = Packing(result: seq<byte>, current: byte, bitCount: int)

  const START := Packing([], 0, 7)

  function Push(p: Packing, x: int): Packing {
    var b := WithBit(p.current, p.bitCount, x);
    if p.bitCount - 1 < 0 then Packing(p.result + [b], 0, 7) else Packing(p.result, b, p.bitCount - 1)
  }

  function PushAll(p: Packing, bits: seq<int>): Packing {
    if bits == [] then p else Push(PushAll(p, bits[..|bits| - 1]), bits[|bits| - 1])
  }

  lemma PushOneMore(p: Packing, row: seq<int>, c: nat)
    requires c < |row|
    ensures PushAll(p, row[..c + 1]) == Push(PushAll(p, row[..c]), row[c])
  {
    assert row[..c + 1][..c] == row[..c];
  }

  lemma {:induction false} PushAppend(p: Packing, xs: seq<int>, ys: seq<int>)
    ensures PushAll(p, xs + ys) == PushAll(PushAll(p, xs), ys)
  {
    if ys == [] {
      assert xs + ys == xs;
    } else {
      var front := ys[..|ys| - 1];
      assert (xs + ys)[..|xs + ys| - 1] == xs + front;
      PushAppend(p, xs, front);
    }
  }

  lemma PushRow(m: seq<seq<int>>, r: nat)
    requires r < |m|
    ensures PushAll(START, Flat(m[..r + 1])) == PushAll(PushAll(START, Flat(m[..r])), m[r][..|m[r]|])
  {
    FlatRow(m, r);
    PushAppend(START, Flat(m[..r]), m[r]);
    assert m[r][..|m[r]|] == m[r];
  }

  /** The packing loop after some bits: whole bytes, then the bits since the last of them. */
  ghost predicate Half(bits: seq<int>, p: Packing) {
    var n := |bits|;
    && |p.result| == n / 8 && p.bitCount == 7 - n % 8
    && (forall j :: 0 <= j < n / 8 ==> p.result[j] == PackByte(Chunk(bits, j)))
    && p.current == PackByte(bits[n - n % 8..])
  }

  /** The bit that `|=` sets was clear: the byte so far is worth its bits, and the next one counts beside them. */
  lemma AddBit(part: seq<int>, x: int)
    requires |part| < 8
    ensures WithBit(PackByte(part), 7 - |part|, x) == PackByte(part + [x])
  {
  }

  lemma NextBit(n: nat)
    ensures if n % 8 == 7 then (n + 1) / 8 == n / 8 + 1 && (n + 1) % 8 == 0
            else (n + 1) / 8 == n / 8 && (n + 1) % 8 == n % 8 + 1
  {
  }

  lemma PushKeepsHalf(bits: seq<int>, x: int, p: Packing)
    requires Half(bits, p)
    ensures Half(bits + [x], Push(p, x))
  {
    var n, more, q := |bits|, bits + [x], Push(p, x);
    NextBit(n);
    AddBit(bits[n - n % 8..], x);
    assert bits[n - n % 8..] + [x] == more[n - n % 8..];
    forall j | 0 <= j < |q.result| ensures q.result[j] == PackByte(Chunk(more, j)) {
      if j < n / 8 {
        assert Chunk(more, j) == Chunk(bits, j);
      } else {
        assert Chunk(more, j) == more[n - n % 8..];
      }
    }
    if n % 8 == 7 {
      assert more[n + 1..] == [];
    }
  }

  lemma {:induction false} PushedHalf(bits: seq<int>)
    ensures Half(bits, PushAll(START, bits))
  {
    if bits != [] {
      var front, x := bits[..|bits| - 1], bits[|bits| - 1];
      PushedHalf(front);
      PushKeepsHalf(front, x, PushAll(START, front));
      assert bits == front + [x];
    }
  }

  lemma HalfIsPacked(bits: seq<int>, result: seq<byte>, current: byte, bitCount: int)
    requires Half(bits, Packing(result, current, bitCount))
    ensures Packed(bits, if bitCount != 7 then result + [current] else result)
  {
    var n, q := |bits|, |bits| / 8;
    if bitCount == 7 {
      assert (n + 7) / 8 == q;
    } else {
      assert (n + 7) / 8 == q + 1 && Chunk(bits, q) == bits[n - n % 8..];
      var all := result + [current];
      forall j | 0 <= j < |all| ensures all[j] == PackByte(Chunk(bits, j)) {
        assert j < q ==> all[j] == result[j];
      }
    }
  }

  lemma FlatRow(m: seq<seq<int>>, r: nat)
    requires r < |m|
    ensures Flat(m[..r + 1]) == Flat(m[..r]) + m[r]
    ensures Flat(m[..r + 1]) <= Flat(m)
  {
    assert m[..r + 1][..r] == m[..r];
    FlatPrefix(m, r + 1);
  }

  lemma PrefixAt(front: seq<int>, row: seq<int>, all: seq<int>, c: nat)
    requires front + row <= all && c < |row|
    ensures all[|front| + c] == row[c]
  {
    assert (front + row)[|front| + c] == row[c];
  }

  lemma RowInFlat(m: seq<seq<int>>, r: nat)
    requires r < |m|
    ensures FlatLen(m, r + 1) == FlatLen(m, r) + |m[r]| <= |Flat(m)|
    ensures forall c :: 0 <= c < |m[r]| ==> Flat(m)[FlatLen(m, r) + c] == m[r][c]
  {
    FlatRow(m, r);
    forall c | 0 <= c < |m[r]| ensures Flat(m)[FlatLen(m, r) + c] == m[r][c] {
      PrefixAt(Flat(m[..r]), m[r], Flat(m), c);
    }
  }

  lemma {:induction false} FlatPrefix(m: seq<seq<int>>, r: nat)
    requires r <= |m|
    ensures Flat(m[..r]) <= Flat(m)
  {
    if r == |m| {
      assert m[..r] == m;
    } else {
      FlatPrefix(m[..|m| - 1], r);
      assert m[..|m| - 1][..r] == m[..r];
    }
  }

  /** The place of a cell in row order. */
  function Index(r: nat, c: nat, cols: nat): nat { r * cols + c }

  lemma FlatCell(m: seq<seq<int>>, cols: nat, r: nat, c: nat)
    requires Rectangular(m, cols) && r < |m| && c < cols
    ensures |Flat(m)| == |m| * cols && Index(r, c, cols) < |m| * cols && Flat(m)[Index(r, c, cols)] == m[r][c]
  {
    FlatLength(m, cols);
    FlatLength(m[..r], cols);
    RowInFlat(m, r);
    assert FlatLen(m, r) == r * cols && Index(r, c, cols) == FlatLen(m, r) + c;
  }

  lemma {:induction false} FlatLength(m: seq<seq<int>>, cols: nat)
    requires Rectangular(m, cols)
    ensures |Flat(m)| == |m| * cols
  {
    if m != [] {
      FlatLength(m[..|m| - 1], cols);
      assert |m[|m| - 1]| == cols && (|m| - 1) * cols + cols == |m| * cols;
    }
  }

  lemma MulStep(w: nat, d: nat, q: nat)
    ensures d < q ==> w * d + w <= w * q
  {
    if d < q {
      assert w * q == w * (d + 1) + w * (q - d - 1);
    }
  }

  lemma QuotientIs(b: nat, w: nat, q: nat, r: nat)
    requires w > 0 && b == w * q + r && r < w
    ensures b / w == q
  {
    MulStep(w, b / w, q);
    MulStep(w, q, b / w);
  }

  lemma BitIs(b: nat, w: nat, hi: nat, x: nat, r: nat)
    requires w > 0 && b == w * (2 * hi + x) + r && r < w && x < 2
    ensures b / w % 2 == x
  {
    QuotientIs(b, w, 2 * hi + x, r);
  }

  lemma PackByteBits(bits: seq<int>, i: nat)
    requires i < 8
    ensures Bit(PackByte(bits), 7 - i) == At(bits, i)
  {
    EightBits(At(bits, 0), At(bits, 1), At(bits, 2), At(bits, 3), At(bits, 4), At(bits, 5), At(bits, 6), At(bits, 7),
              PackByte(bits));
  }

  lemma EightBits(a: nat, b: nat, c: nat, d: nat, e: nat, f: nat, g: nat, h: nat, v: nat)
    requires a < 2 && b < 2 && c < 2 && d < 2 && e < 2 && f < 2 && g < 2 && h < 2
    requires v == 0x80 * a + 0x40 * b + 0x20 * c + 0x10 * d + 8 * e + 4 * f + 2 * g + h
    ensures v / 0x80 % 2 == a && v / 0x40 % 2 == b && v / 0x20 % 2 == c && v / 0x10 % 2 == d
    ensures v / 8 % 2 == e && v / 4 % 2 == f && v / 2 % 2 == g && v % 2 == h
  {
    BitIs(v, 0x80, 0, a, 0x40 * b + 0x20 * c + 0x10 * d + 8 * e + 4 * f + 2 * g + h);
    BitIs(v, 0x40, a, b, 0x20 * c + 0x10 * d + 8 * e + 4 * f + 2 * g + h);
    BitIs(v, 0x20, 2 * a + b, c, 0x10 * d + 8 * e + 4 * f + 2 * g + h);
    BitIs(v, 0x10, 4 * a + 2 * b + c, d, 8 * e + 4 * f + 2 * g + h);
    BitIs(v, 8, 8 * a + 4 * b + 2 * c + d, e, 4 * f + 2 * g + h);
    BitIs(v, 4, 0x10 * a + 8 * b + 4 * c + 2 * d + e, f, 2 * g + h);
    BitIs(v, 2, 0x20 * a + 0x10 * b + 8 * c + 4 * d + 2 * e + f, g, h);
  }

  lemma PackedBit(bits: seq<int>, bytes: seq<byte>, k: nat)
    requires Packed(bits, bytes) && k < 8 * |bytes|
    ensures BitAt(bytes, k) == At(bits, k)
  {
    PackByteBits(Chunk(bits, k / 8), k % 8);
    assert k == 8 * (k / 8) + k % 8;
  }

  /** Bit `7 - k % 8` of byte `k / 8`. */
  function BitAt(bytes: seq<byte>, k: nat): int {
    if k / 8 < |bytes| then Bit(bytes[k / 8], 7 - k % 8) else 0
  }

  /** Each cell is the bit at its place in row order, and there are just enough bytes for that. */
  lemma FlattenExact(m: seq<seq<int>>, cols: nat, bytes: seq<byte>, r: nat, c: nat)
    requires Rectangular(m, cols) && Packed(Flat(m), bytes) && r < |m| && c < cols
    ensures Index(r, c, cols) < |m| * cols && |bytes| == (|m| * cols + 7) / 8
    ensures BitAt(bytes, Index(r, c, cols)) == m[r][c] % 2
  {
    FlatCell(m, cols, r, c);
    PackedBit(Flat(m), bytes, Index(r, c, cols));
  }

  /** The bits after the last cell are 0. */
  lemma FlattenPads(m: seq<seq<int>>, cols: nat, bytes: seq<byte>, k: nat)
    requires Rectangular(m, cols) && Packed(Flat(m), bytes) && |m| * cols <= k < 8 * |bytes|
    ensures BitAt(bytes, k) == 0
  {
    FlatLength(m, cols);
    PackedBit(Flat(m), bytes, k);
  }

  ghost predicate Binary(m: seq<seq<int>>) {
    forall r, c :: 0 <= r < |m| && 0 <= c < |m[r]| ==> m[r][c] == 0 || m[r][c] == 1
  }

  lemma SameCell(m: seq<seq<int>>, m': seq<seq<int>>, cols: nat, bytes: seq<byte>, r: nat, c: nat)
    requires Rectangular(m, cols) && Rectangular(m', cols) && |m| == |m'| && Binary(m) && Binary(m')
    requires Packed(Flat(m), bytes) && Packed(Flat(m'), bytes) && r < |m| && c < cols
    ensures m[r][c] == m'[r][c]
  {
    FlattenExact(m, cols, bytes, r, c);
    FlattenExact(m', cols, bytes, r, c);
    SameParity(m[r][c], m'[r][c]);
  }

  lemma SameParity(x: int, y: int)
    requires 0 <= x < 2 && 0 <= y < 2 && x % 2 == y % 2
    ensures x == y
  {
  }

  /** Two matrices of one shape with the same bytes are equal: nothing is lost on the way to the backend. */
  lemma FlattenInjective(m: seq<seq<int>>, m': seq<seq<int>>, cols: nat, bytes: seq<byte>)
    requires Rectangular(m, cols) && Rectangular(m', cols) && |m| == |m'| && Binary(m) && Binary(m')
    requires Packed(Flat(m), bytes) && Packed(Flat(m'), bytes)
    ensures m == m'
  {
    forall r | 0 <= r < |m| ensures m[r] == m'[r] {
      forall c | 0 <= c < cols ensures m[r][c] == m'[r][c] {
        SameCell(m, m', cols, bytes, r, c);
      }
    }
  }
}
