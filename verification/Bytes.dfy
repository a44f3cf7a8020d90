/** Machine integers and network byte order. */
module Bytes {

  const TWO_16 := 0x1_0000
  const TWO_32 := 0x1_0000_0000

  type byte = x: int | 0 <= x < 256
  type u16 = x: int | 0 <= x < TWO_16
  type u32 = x: int | 0 <= x < TWO_32

  datatype Option<+T> = None | Some(value: T)

  function ReadU16(d: seq<byte>, i: nat): u16
    requires i + 2 <= |d|
  {
    (d[i] as int) * 256 + d[i + 1]
  }

  function ReadU32(d: seq<byte>, i: nat): u32
    requires i + 4 <= |d|
  {
    (d[i] as int) * 0x100_0000 + (d[i + 1] as int) * 0x1_0000 + (d[i + 2] as int) * 256 + d[i + 3]
  }

  function WriteU32(x: u32): seq<byte> {
    [x / 0x100_0000, x / 0x1_0000 % 256, x / 256 % 256, x % 256]
  }

  lemma WriteReadU32(x: u32)
    ensures ReadU32(WriteU32(x), 0) == x
  {
    assert x / 0x1_0000 == x / 0x100_0000 * 256 + x / 0x1_0000 % 256;
    assert x / 256 == x / 0x1_0000 * 256 + x / 256 % 256;
  }

  function WriteU16(x: u16): seq<byte> {
    [x / 256, x % 256]
  }

  /** Words in network byte order, one after another. */
  function WriteWords(ws: seq<u32>): (d: seq<byte>)
    ensures |d| == 4 * |ws|
  {
    if ws == [] then [] else WriteWords(ws[..|ws| - 1]) + WriteU32(ws[|ws| - 1])
  }

  lemma ReadPlaced(pre: seq<byte>, d: seq<byte>, post: seq<byte>, i: nat)
    requires i + 4 <= |d|
    ensures ReadU32(pre + d + post, |pre| + i) == ReadU32(d, i)
  {
    var all, at := pre + d + post, |pre| + i;
    assert all[at] == d[i] && all[at + 1] == d[i + 1] && all[at + 2] == d[i + 2] && all[at + 3] == d[i + 3];
  }

  lemma {:induction false} ReadWord(ws: seq<u32>, i: nat)
    requires i < |ws|
    ensures ReadU32(WriteWords(ws), 4 * i) == ws[i]
  {
    var n := |ws| - 1;
    var front, last := WriteWords(ws[..n]), WriteU32(ws[n]);
    if i == n {
      ReadPlaced(front, last, [], 0);
      assert front + last + [] == WriteWords(ws);
      WriteReadU32(ws[n]);
    } else {
      ReadWord(ws[..n], i);
      ReadPlaced([], front, last, 4 * i);
      assert [] + front + last == WriteWords(ws);
    }
  }

  lemma Divide256(q: int, r: byte)
    ensures (q * 256 + r) / 256 == q && (q * 256 + r) % 256 == r
  {
  }

  lemma ReadWriteU32(d: seq<byte>, i: nat)
    requires i + 4 <= |d|
    ensures WriteU32(ReadU32(d, i)) == d[i..i + 4]
  {
    var x, a, b, c, e := ReadU32(d, i), d[i] as int, d[i + 1], d[i + 2], d[i + 3];
    Divide256(a, b);
    Divide256(a * 256 + b, c);
    Divide256((a * 256 + b) * 256 + c, e);
    assert x == ((a * 256 + b) * 256 + c) * 256 + e;
    assert x / 0x1_0000 == x / 256 / 256 && x / 0x100_0000 == x / 0x1_0000 / 256;
    assert d[i..i + 4] == [d[i], b, c, e];
  }

  function Pow2(k: nat): (p: nat)
    ensures p >= 1
  {
    if k == 0 then 1 else 2 * Pow2(k - 1)
  }

  /** Bit `k` of `x`. */
  predicate Bit(x: nat, k: nat) {
    x / Pow2(k) % 2 == 1
  }

  /** Exclusive or of the low `n` bits. */
  function Xor(x: nat, y: nat, n: nat): (r: nat)
    ensures r < Pow2(n)
  {
    if n == 0 then 0 else 2 * Xor(x / 2, y / 2, n - 1) + (x % 2 + y % 2) % 2
  }

  lemma {:induction false} XorZero(x: nat, y: nat, n: nat)
    requires x < Pow2(n) && y < Pow2(n)
    ensures Xor(x, y, n) == 0 <==> x == y
  {
    if n > 0 {
      XorZero(x / 2, y / 2, n - 1);
    }
  }

  lemma {:induction false} XorMoves(x: nat, y: nat, n: nat)
    requires x < Pow2(n) && y < Pow2(n)
    ensures Xor(x, y, n) == x <==> y == 0
  {
    if n > 0 {
      XorMoves(x / 2, y / 2, n - 1);
    }
  }
}
