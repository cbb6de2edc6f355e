/**
 The bit level of the entropy decoder of
 platform/software/parallelmjpeg/Headers/Private/Decoder.h: numbers as bits, most significant
 first, and bits in bytes with a stuffed zero byte after every 0xFF, as in sections F.1.2.3 and
 F.2.2.5 of ITU-T T.81.
 */
module JpegBits {
  import opened Common

  type Bits = seq<bool>

  function Pow2(n: nat): (r: nat)
    ensures r >= 1
  {
    if n == 0 then 1 else 2 * Pow2(n - 1)
  }

  function Bit(b: bool): nat { if b then 1 else 0 }

  // The number with bits `b`.
  function Val(b: Bits): nat
  {
    if b == [] then 0 else 2 * Val(b[..|b|-1]) + Bit(b[|b|-1])
  }

  // The low `n` bits of `v`.
  function BitsOf(v: nat, n: nat): (b: Bits)
    ensures |b| == n
  {
    if n == 0 then [] else BitsOf(v / 2, n - 1) + [v % 2 == 1]
  }

  lemma {:induction false} ValBound(b: Bits)
    ensures Val(b) < Pow2(|b|)
  {
    if b != [] { ValBound(b[..|b|-1]); }
  }

  lemma {:induction false} ValBitsOf(v: nat, n: nat)
    requires v < Pow2(n)
    ensures Val(BitsOf(v, n)) == v
  {
    if n > 0 {
      ValBitsOf(v / 2, n - 1);
      var b := BitsOf(v, n);
      assert b[..n - 1] == BitsOf(v / 2, n - 1);
    }
  }

  lemma {:induction false} BitsOfVal(b: Bits)
    ensures BitsOf(Val(b), |b|) == b
  {
    if b != [] {
      BitsOfVal(b[..|b|-1]);
      assert Val(b) / 2 == Val(b[..|b|-1]);
      assert b == b[..|b|-1] + [b[|b|-1]];
    }
  }

  // `v` without its low `n` bits.
  function Shr(v: nat, n: nat): nat
  {
    if n == 0 then v else Shr(v / 2, n - 1)
  }

  // The first `j` of the `n` bits of a number.
  lemma {:induction false} BitsOfPrefix(v: nat, n: nat, j: nat)
    requires j <= n
    ensures BitsOf(v, n)[..j] == BitsOf(Shr(v, n - j), j)
  {
    if j < n {
      BitsOfPrefix(v / 2, n - 1, j);
      assert BitsOf(v, n)[..j] == BitsOf(v / 2, n - 1)[..j];
    }
  }

  lemma {:induction false} ShrFits(v: nat, n: nat, j: nat)
    requires j <= n && v < Pow2(n)
    ensures Shr(v, n - j) < Pow2(j)
  {
    if j < n { ShrFits(v / 2, n - 1, j); }
  }

  lemma {:induction false} ShrAtLeast(v: nat, m: nat, n: nat)
    requires v >= m * Pow2(n)
    ensures Shr(v, n) >= m
  {
    if n > 0 {
      var p := Pow2(n - 1);
      MulTwo(m, p);
      ShrAtLeast(v / 2, m, n - 1);
    }
  }

  lemma PrefixVal(v: nat, n: nat, j: nat)
    requires j <= n && v < Pow2(n)
    ensures Val(BitsOf(v, n)[..j]) == Shr(v, n - j)
  {
    BitsOfPrefix(v, n, j);
    ShrFits(v, n, j);
    ValBitsOf(Shr(v, n - j), j);
  }

  lemma MulTwo(m: nat, p: nat)
    ensures m * (2 * p) == 2 * (m * p)
  {
  }

  // ---------------------------------------------------------------------------------------------
  // Bytes

  // The bits of the entropy-coded bytes; a byte after 0xFF is not data.
  function Unstuff(s: seq<byte>): Bits
    decreases |s|
  {
    if s == [] || (s[0] == 0xFF && |s| == 1) then []
    else BitsOf(s[0], 8) + Unstuff(if s[0] == 0xFF then s[2..] else s[1..])
  }

  // Bits in bytes, filled up with ones, with a zero byte after every 0xFF.
  function Stuff(b: Bits): seq<byte>
    decreases |b|
  {
    if b == [] then []
    else
      var head := if |b| >= 8 then b[..8] else b + seq(8 - |b|, _ => true);
      ValBound(head);
      assert Pow2(8) == 256;
      var v: byte := Val(head);
      (if v == 0xFF then [v, 0] else [v]) + Stuff(if |b| >= 8 then b[8..] else [])
  }

  /** The bits of the stuffed bytes are the bits, and the filling. */
  lemma {:induction false} UnstuffStuff(b: Bits)
    ensures b <= Unstuff(Stuff(b))
    decreases |b|
  {
    if b != [] {
      var head := if |b| >= 8 then b[..8] else b + seq(8 - |b|, _ => true);
      var rest := if |b| >= 8 then b[8..] else [];
      ValBound(head);
      assert Pow2(8) == 256;
      var v := Val(head);
      BitsOfVal(head);
      UnstuffStuff(rest);
      var s := Stuff(b);
      if v == 0xFF {
        assert s == [v, 0] + Stuff(rest);
        assert s[2..] == Stuff(rest);
      } else {
        assert s == [v] + Stuff(rest);
        assert s[1..] == Stuff(rest);
      }
      assert Unstuff(s) == head + Unstuff(Stuff(rest));
      assert b == head[..if |b| >= 8 then 8 else |b|] + rest;
    }
  }
}
