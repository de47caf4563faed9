/** The Kademlia XOR distance between 160-bit node identifiers (BEP 5). */
module Distance {
  import opened Bytes

  type Id = b: Bytes | |b| == 20 witness seq(20, _ => 0)

  function XorBytes(a: Bytes, b: Bytes): (d: Bytes)
    requires |a| == |b|
    ensures |d| == |a|
  {
    seq(|a|, i requires 0 <= i < |a| => XorByte(a[i], b[i]))
  }

  method XorDist(a: Id, b: Id) returns (d: Id)
    ensures d == XorBytes(a, b)
  {
    var buf := new byte[20](_ => 0);
    for i := 0 to 20
      invariant forall j :: 0 <= j < i ==> buf[j] == XorByte(a[j], b[j])
    {
      buf[i] := XorByte(a[i], b[i]);
    }
    d := buf[..];
  }

  lemma {:induction false} BigEndianLast(a: Bytes, x: byte)
    ensures BigEndian(a + [x]) == 256 * BigEndian(a) + x
  {
    var s := a + [x];
    if a == [] {
      assert s == [x] && s[1..] == [];
      assert Pow256(0) == 1 && BigEndian([]) == 0;
    } else {
      assert s[1..] == a[1..] + [x] && s[0] == a[0];
      BigEndianLast(a[1..], x);
      MulByte(a[0], Pow256(|a| - 1));
    }
  }

  lemma MulByte(x: nat, y: nat)
    ensures Mul(x, 256 * y) == 256 * Mul(x, y)
  {
  }

  /** As a number, the distance is the exclusive or of the two numbers. */
  lemma {:induction false} DistIsXor(a: Bytes, b: Bytes)
    requires |a| == |b|
    ensures BigEndian(XorBytes(a, b)) == Xor(BigEndian(a), BigEndian(b))
  {
    if a == [] {
      assert XorBytes(a, b) == [];
    } else {
      var n := |a| - 1;
      DistIsXor(a[..n], b[..n]);
      assert a == a[..n] + [a[n]] && b == b[..n] + [b[n]];
      assert XorBytes(a, b) == XorBytes(a[..n], b[..n]) + [XorByte(a[n], b[n])];
      DistLast(a[..n], b[..n], a[n], b[n], XorBytes(a[..n], b[..n]));
    }
  }

  lemma DistLast(a: Bytes, b: Bytes, u: byte, v: byte, d: Bytes)
    requires BigEndian(d) == Xor(BigEndian(a), BigEndian(b))
    ensures BigEndian(d + [XorByte(u, v)]) == Xor(BigEndian(a + [u]), BigEndian(b + [v]))
  {
    hide *;
    BigEndianLast(a, u);
    BigEndianLast(b, v);
    BigEndianLast(d, XorByte(u, v));
    XorOfBytes(u, v);
    XorByteSplit(BigEndian(a), BigEndian(b), u, v, BigEndian(a + [u]), BigEndian(b + [v]));
  }

  lemma XorOfBytes(u: byte, v: byte)
    ensures XorByte(u, v) == Xor(u, v)
  {
  }

  lemma XorByteSplit(x: nat, y: nat, u: nat, v: nat, x': nat, y': nat)
    requires u < 256 && v < 256 && x' == 256 * x + u && y' == 256 * y + v
    ensures Xor(x', y') == 256 * Xor(x, y) + Xor(u, v)
  {
    hide *;
    ShiftByte(x);
    ShiftByte(y);
    ShiftByte(Xor(x, y));
    XorSplit(x, y, u, v, 8);
  }

  /** candidateList.Less orders nodes by their numeric 160-bit XOR distance to the target. */
  lemma LessIsNumeric(a: Id, b: Id, target: Id)
    ensures LexLess(XorBytes(a, target), XorBytes(b, target))
            <==> Xor(BigEndian(a), BigEndian(target)) < Xor(BigEndian(b), BigEndian(target))
  {
    DistIsXor(a, target);
    DistIsXor(b, target);
    LexIsNumeric(XorBytes(a, target), XorBytes(b, target));
  }

  lemma XorUnfold(x: nat, y: nat)
    ensures Xor(x, y) == 2 * Xor(x / 2, y / 2) + (x + y) % 2
  {
  }

  lemma {:induction false} XorCancels(x: nat, y: nat)
    ensures Xor(Xor(x, y), y) == x
    decreases x + y
  {
    hide Xor;
    XorUnfold(x, y);
    if x + y > 0 {
      XorCancels(x / 2, y / 2);
      var m := Xor(x, y);
      XorUnfold(m, y);
      assert m / 2 == Xor(x / 2, y / 2) && (m + y) % 2 == x % 2;
    } else {
      XorUnfold(0, 0);
    }
  }

  /** Only one identifier lies at a given distance. */
  lemma EqualDistanceSameId(a: Id, b: Id, target: Id)
    requires XorBytes(a, target) == XorBytes(b, target)
    ensures a == b
  {
    DistIsXor(a, target);
    DistIsXor(b, target);
    XorCancels(BigEndian(a), BigEndian(target));
    XorCancels(BigEndian(b), BigEndian(target));
    LexIsNumeric(a, b);
  }
}
