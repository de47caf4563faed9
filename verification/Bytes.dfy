/** Byte strings: big-endian words, numeric values, XOR and the lexicographic order of bytes.Compare. */
module Bytes {
  type byte = x: int | 0 <= x < 256
  type u32 = x: int | 0 <= x < 0x1_0000_0000
  type Bytes = seq<byte>

  datatype Option<+T> = None | Some(value: T)

  function Zeros(n: nat): (z: Bytes)
    ensures |z| == n && forall k :: 0 <= k < n ==> z[k] == 0
  {
    seq(n, _ => 0)
  }

  // ----- 32-bit big-endian words -----

  function PutU32(n: u32): (b: Bytes)
    ensures |b| == 4
  {
    [n / 0x100_0000, n / 0x1_0000 % 256, n / 256 % 256, n % 256]
  }

  function GetU32(b: Bytes): u32
    requires |b| == 4
  {
    var w: int, x: int, y: int, z: int := b[0], b[1], b[2], b[3];
    w * 0x100_0000 + x * 0x1_0000 + y * 256 + z
  }

  lemma GetPutU32(n: u32)
    ensures GetU32(PutU32(n)) == n
  {
    assert n / 256 == n / 0x1_0000 * 256 + n / 256 % 256;
    assert n / 0x1_0000 == n / 0x100_0000 * 256 + n / 0x1_0000 % 256;
  }

  lemma PutGetU32(b: Bytes)
    requires |b| == 4
    ensures PutU32(GetU32(b)) == b
  {
    var n := GetU32(b);
    var w: int, x: int, y: int := b[0], b[1], b[2];
    assert n / 256 == w * 0x1_0000 + x * 256 + y;
    assert n / 0x1_0000 == w * 256 + x;
    assert n / 0x100_0000 == w;
  }

  // ----- Unsigned value of a byte string of any length -----

  /** Multiplication under a name, so that products are reasoned about only by the lemmas below. */
  function Mul(x: nat, y: nat): nat { x * y }

  lemma MulMonotone(x: nat, x': nat, y: nat)
    requires x <= x'
    ensures Mul(x, y) <= Mul(x', y) && Mul(x' + 1, y) == Mul(x', y) + y
  {
    assert x * y <= x' * y;
  }

  function Pow256(n: nat): (p: nat)
    ensures p >= 1
  {
    if n == 0 then 1 else 256 * Pow256(n - 1)
  }

  /** The number a byte string denotes, most significant byte first. */
  function BigEndian(a: Bytes): (v: nat)
    ensures v < Pow256(|a|)
  {
    if a == [] then 0
    else
      MulMonotone(a[0], 255, Pow256(|a| - 1));
      Mul(a[0], Pow256(|a| - 1)) + BigEndian(a[1..])
  }

  /** bytes.Compare(a, b) < 0. */
  predicate LexLess(a: Bytes, b: Bytes) {
    b != [] && (a == [] || a[0] < b[0] || (a[0] == b[0] && LexLess(a[1..], b[1..])))
  }

  lemma {:induction false} LexTotal(a: Bytes, b: Bytes)
    ensures LexLess(a, b) || a == b || LexLess(b, a)
    ensures !(LexLess(a, b) && LexLess(b, a))
    ensures !LexLess(a, a)
  {
    if a != [] { LexTotal(a[1..], a[1..]); }
    if a != [] && b != [] {
      LexTotal(a[1..], b[1..]);
      if a[0] == b[0] && a[1..] == b[1..] {
        assert a == [a[0]] + a[1..] == b;
      }
    }
  }

  lemma {:induction false} LexTransitive(a: Bytes, b: Bytes, c: Bytes)
    requires LexLess(a, b) && LexLess(b, c)
    ensures LexLess(a, c)
  {
    if a != [] && a[0] == b[0] == c[0] {
      LexTransitive(a[1..], b[1..], c[1..]);
    }
  }

  /** On strings of one length the lexicographic order is the numeric order. */
  lemma {:induction false} LexIsNumeric(a: Bytes, b: Bytes)
    requires |a| == |b|
    ensures LexLess(a, b) <==> BigEndian(a) < BigEndian(b)
    ensures a == b <==> BigEndian(a) == BigEndian(b)
  {
    if a == [] {
      assert b == [];
    } else {
      LexIsNumeric(a[1..], b[1..]);
      var p := Pow256(|a| - 1);
      if a[0] < b[0] {
        MulMonotone(a[0] + 1, b[0], p);
        MulMonotone(a[0], a[0], p);
      } else if b[0] < a[0] {
        MulMonotone(b[0] + 1, a[0], p);
        MulMonotone(b[0], b[0], p);
      } else if a[1..] == b[1..] {
        assert a == [a[0]] + a[1..] == b;
      }
    }
  }

  // ----- XOR -----

  /** Bitwise exclusive or of two numbers of any width. */
  function Xor(x: nat, y: nat): nat
    decreases x + y
  {
    if x == 0 && y == 0 then 0 else 2 * Xor(x / 2, y / 2) + (x + y) % 2
  }

  function Pow2(n: nat): (p: nat)
    ensures p >= 1
  {
    if n == 0 then 1 else 2 * Pow2(n - 1)
  }

  lemma {:induction false} XorBounded(x: nat, y: nat, k: nat)
    requires x < Pow2(k) && y < Pow2(k)
    ensures Xor(x, y) < Pow2(k)
  {
    if k > 0 { XorBounded(x / 2, y / 2, k - 1); }
  }

  /** x << k. */
  function Shift(x: nat, k: nat): nat {
    if k == 0 then x else 2 * Shift(x, k - 1)
  }

  /** XOR works on the high part and the low k bits separately. */
  lemma {:induction false} XorSplit(x: nat, y: nat, u: nat, v: nat, k: nat)
    requires u < Pow2(k) && v < Pow2(k)
    ensures Xor(Shift(x, k) + u, Shift(y, k) + v) == Shift(Xor(x, y), k) + Xor(u, v)
  {
    hide Xor, Shift;
    if k == 0 {
      XorUnsplit(x, y);
    } else {
      var (i, j) := (u % 2, v % 2);
      XorSplit(x, y, u / 2, v / 2, k - 1);
      XorSplitStep(x, y, u / 2, v / 2, i, j, k);
      assert u == 2 * (u / 2) + i && v == 2 * (v / 2) + j;
    }
  }

  lemma XorUnsplit(x: nat, y: nat)
    ensures Xor(Shift(x, 0) + 0, Shift(y, 0) + 0) == Shift(Xor(x, y), 0) + Xor(0, 0)
  {
  }

  lemma XorSplitStep(x: nat, y: nat, u: nat, v: nat, i: nat, j: nat, k: nat)
    requires k > 0 && i < 2 && j < 2
    requires Xor(Shift(x, k - 1) + u, Shift(y, k - 1) + v) == Shift(Xor(x, y), k - 1) + Xor(u, v)
    ensures Xor(Shift(x, k) + (2 * u + i), Shift(y, k) + (2 * v + j))
            == Shift(Xor(x, y), k) + Xor(2 * u + i, 2 * v + j)
  {
    hide Xor;
    XorDouble(Shift(x, k) + (2 * u + i), Shift(y, k) + (2 * v + j), Shift(x, k - 1) + u, Shift(y, k - 1) + v, i, j);
    XorDouble(2 * u + i, 2 * v + j, u, v, i, j);
  }

  lemma XorDouble(m: nat, n: nat, a: nat, b: nat, i: nat, j: nat)
    requires i < 2 && j < 2 && m == 2 * a + i && n == 2 * b + j
    ensures Xor(m, n) == 2 * Xor(a, b) + (i + j) % 2
  {
    assert m / 2 == a && n / 2 == b;
  }

  lemma ShiftByte(x: nat)
    ensures Shift(x, 8) == 256 * x && Pow2(8) == 256
  {
    assert Shift(x, 1) == 2 * x;
    assert Shift(x, 2) == 4 * x;
    assert Shift(x, 3) == 8 * x;
    assert Shift(x, 4) == 16 * x;
    assert Shift(x, 5) == 32 * x;
    assert Shift(x, 6) == 64 * x;
    assert Shift(x, 7) == 128 * x;
    assert Pow2(3) == 8;
    assert Pow2(6) == 64;
  }

  function XorByte(a: byte, b: byte): byte {
    assert Pow2(8) == 256;
    XorBounded(a, b, 8);
    Xor(a, b)
  }
}
