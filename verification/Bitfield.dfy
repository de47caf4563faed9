/** Piece bitfields: testing, setting with growth, and building one from a piece provider. */
module Bitfield {
  import opened Bytes

  /** (b >> k) & 1 == 1. */
  predicate TestBit(b: nat, k: nat) {
    if k == 0 then b % 2 == 1 else TestBit(b / 2, k - 1)
  }

  /** b | (1 << k). */
  function OrBit(b: nat, k: nat): nat {
    if k == 0 then b + 1 - b % 2 else 2 * OrBit(b / 2, k - 1) + b % 2
  }

  lemma {:induction false} OrBitBounded(b: nat, k: nat, width: nat)
    requires k < width && b < Pow2(width)
    ensures OrBit(b, k) < Pow2(width)
  {
    var half := Pow2(width - 1);
    assert Pow2(width) == 2 * half;
    assert b == 2 * (b / 2) + b % 2 && b / 2 < half;
    if k > 0 {
      OrBitBounded(b / 2, k - 1, width - 1);
    }
  }

  /** Setting bit k changes no other bit. */
  lemma {:induction false} OrBitExact(b: nat, k: nat, j: nat)
    ensures TestBit(OrBit(b, k), j) <==> j == k || TestBit(b, j)
  {
    if k > 0 && j > 0 {
      OrBitExact(b / 2, k - 1, j - 1);
    }
  }

  function SetBit(b: byte, k: nat): byte
    requires k < 8
  {
    assert Pow2(8) == 256;
    OrBitBounded(b, k, 8);
    OrBit(b, k)
  }

  predicate HasPiece(bits: Bytes, i: int) {
    i >= 0 && i / 8 < |bits| && TestBit(bits[i / 8], 7 - i % 8)
  }

  /** setBitfieldPiece as a function of the slice it updates. */
  function WithPiece(bits: Bytes, i: int): Bytes {
    if i < 0 then bits
    else
      var grown := if |bits| <= i / 8 then bits + Zeros(i / 8 + 1 - |bits|) else bits;
      grown[i / 8 := SetBit(grown[i / 8], 7 - i % 8)]
  }

  lemma WithPieceExact(bits: Bytes, i: int, j: int)
    ensures HasPiece(WithPiece(bits, i), j) <==> (i >= 0 && j == i) || HasPiece(bits, j)
  {
    if i >= 0 && j >= 0 {
      var grown := if |bits| <= i / 8 then bits + Zeros(i / 8 + 1 - |bits|) else bits;
      assert j / 8 < |grown| && j / 8 >= |bits| ==> grown[j / 8] == 0;
      assert HasPiece(grown, j) == HasPiece(bits, j) by {
        if |bits| <= j / 8 < |grown| { ZeroHasNoBits(7 - j % 8); }
      }
      if j / 8 == i / 8 {
        OrBitExact(grown[i / 8], 7 - i % 8, 7 - j % 8);
      }
    }
  }

  lemma {:induction false} ZeroHasNoBits(k: nat)
    ensures !TestBit(0, k)
  {
    if k > 0 { ZeroHasNoBits(k - 1); }
  }

  function WithPieces(bits: Bytes, indices: seq<int>): Bytes
    decreases indices
  {
    if indices == [] then bits else WithPieces(WithPiece(bits, indices[0]), indices[1..])
  }

  /** After any sequence of sets, through every growth, the members are the initial ones and those set. */
  lemma {:induction false} MembershipAfterSets(bits: Bytes, indices: seq<int>, j: int)
    ensures HasPiece(WithPieces(bits, indices), j) <==> HasPiece(bits, j) || (j >= 0 && j in indices)
    decreases indices
  {
    if indices != [] {
      MembershipAfterSets(WithPiece(bits, indices[0]), indices[1..], j);
      WithPieceExact(bits, indices[0], j);
    }
  }

  /** buildBitfield for a provider of n pieces; spare bits stay zero. */
  method BuildBitfield(n: nat, hasPiece: nat -> bool) returns (bits: Bytes)
    ensures |bits| == (n + 7) / 8
    ensures forall i: nat :: HasPiece(bits, i) <==> i < n && hasPiece(i)
  {
    if n == 0 {
      return [];
    }
    var buffer := new byte[(n + 7) / 8](_ => 0);
    forall k: nat ensures !TestBit(0, k) { ZeroHasNoBits(k); }
    for i := 0 to n
      invariant forall j: nat :: HasPiece(buffer[..], j) <==> j < i && hasPiece(j)
    {
      if !hasPiece(i) {
        continue;
      }
      ghost var before := buffer[..];
      buffer[i / 8] := SetBit(buffer[i / 8], 7 - i % 8);
      assert buffer[..] == WithPiece(before, i);
      forall j: nat ensures HasPiece(buffer[..], j) <==> j < i + 1 && hasPiece(j) {
        WithPieceExact(before, i, j);
      }
    }
    return buffer[..];
  }

  /** Pieces are counted from the high bit of the first byte. */
  lemma BitOrder(bits: Bytes, i: nat)
    ensures HasPiece(bits, i)
            <==> i / 8 < |bits| && (bits[i / 8] / [128, 64, 32, 16, 8, 4, 2, 1][i % 8]) % 2 == 1
  {
    hide TestBit;
    if i / 8 < |bits| { Halved(bits[i / 8]); }
  }

  lemma Halved(b: nat)
    ensures TestBit(b, 0) <==> b % 2 == 1
    ensures TestBit(b, 1) <==> b / 2 % 2 == 1
    ensures TestBit(b, 2) <==> b / 4 % 2 == 1
    ensures TestBit(b, 3) <==> b / 8 % 2 == 1
    ensures TestBit(b, 4) <==> b / 16 % 2 == 1
    ensures TestBit(b, 5) <==> b / 32 % 2 == 1
    ensures TestBit(b, 6) <==> b / 64 % 2 == 1
    ensures TestBit(b, 7) <==> b / 128 % 2 == 1
  {
    assert b / 2 / 2 == b / 4;
    assert b / 4 / 2 == b / 8;
    assert b / 8 / 2 == b / 16;
    assert b / 16 / 2 == b / 32;
    assert b / 32 / 2 == b / 64;
    assert b / 64 / 2 == b / 128;
  }

  /** The bitfield grows by just as many bytes as the piece needs. */
  lemma GrowsAsNeeded(bits: Bytes, i: nat)
    ensures |WithPiece(bits, i)| == if i / 8 < |bits| then |bits| else i / 8 + 1
  {
    hide TestBit, SetBit;
  }
}
