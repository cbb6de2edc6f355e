/**
 Little-endian numbers and tables of records, as the packed structures of
 lib/decopus/trace/include/events are laid out in a trace file.
 */
module CodecBytes {
  import opened Common

  type Bytes = seq<byte>

  function Pow256(n: nat): (r: nat)
    ensures r >= 1
  {
    if n == 0 then 1 else 256 * Pow256(n - 1)
  }

  // The low `n` bytes of `v`, least significant first.
  function Le(v: nat, n: nat): (b: Bytes)
    ensures |b| == n
  {
    if n == 0 then [] else [v % 256] + Le(v / 256, n - 1)
  }

  function Num(b: Bytes): nat
  {
    if b == [] then 0 else b[0] + 256 * Num(b[1..])
  }

  lemma {:induction false} NumLe(v: nat, n: nat)
    requires v < Pow256(n)
    ensures Num(Le(v, n)) == v
  {
    if n > 0 {
      NumLe(v / 256, n - 1);
      assert Le(v, n)[1..] == Le(v / 256, n - 1);
    }
  }

  lemma {:induction false} PowAdd(a: nat, b: nat)
    ensures Pow256(a + b) == Pow256(a) * Pow256(b)
  {
    if b > 0 {
      PowAdd(a, b - 1);
      var p, q := Pow256(a), Pow256(b - 1);
      assert p * (256 * q) == 256 * (p * q);
    }
  }

  lemma Powers()
    ensures Pow256(1) == 256 && Pow256(2) == 0x1_0000 && Pow256(4) == 0x1_0000_0000
    ensures Pow256(8) == 0x1_0000_0000_0000_0000
  {
    assert Pow256(1) == 256;
    PowAdd(1, 1);
    PowAdd(2, 2);
    PowAdd(4, 4);
  }

  // ---------------------------------------------------------------------------------------------
  // Cutting

  // `n` bytes from `i` on.
  function Cut(b: Bytes, i: nat, n: nat): Bytes
    requires i + n <= |b|
  {
    b[i..i + n]
  }

  lemma Assoc(a: Bytes, b: Bytes, c: Bytes)
    ensures a + b + c == a + (b + c)
  {
  }

  lemma NoneBefore(b: Bytes)
    ensures [] + b == b
  {
  }

  // A prefix of `a + b` that holds `a`.
  lemma CutInside(a: Bytes, b: Bytes, n: nat)
    requires |a| <= n <= |a| + |b|
    ensures a <= (a + b)[..n] && (a + b)[..n][|a|..] == b[..n - |a|]
  {
  }

  // A prefix of `a + b` that is one of `a`.
  lemma CutBefore(a: Bytes, b: Bytes, n: nat)
    requires n <= |a|
    ensures (a + b)[..n] == a[..n]
  {
  }

  // What follows `a`.
  lemma CutAfter(a: Bytes, b: Bytes)
    ensures (a + b)[|a|..] == b
  {
  }

  // The elements of `b`, which all have `n` bytes.
  function Pieces(b: Bytes, n: nat, k: nat): (r: seq<Bytes>)
    requires n * k <= |b|
    ensures |r| == k
    decreases k
  {
    if k == 0 then []
    else
      PieceFits(n, k);
      [b[..n]] + Pieces(b[n..], n, k - 1)
  }

  lemma PieceFits(n: nat, k: nat)
    requires k > 0
    ensures n <= n * k && n * k - n == n * (k - 1)
  {
    assert n * k == n * (k - 1) + n;
  }

  function Joined(p: seq<Bytes>): Bytes
  {
    if p == [] then [] else p[0] + Joined(p[1..])
  }

  ghost predicate AllSized(p: seq<Bytes>, n: nat) { forall i :: 0 <= i < |p| ==> |p[i]| == n }

  lemma {:induction false} JoinedSize(p: seq<Bytes>, n: nat)
    requires AllSized(p, n)
    ensures |Joined(p)| == n * |p|
  {
    if p != [] {
      JoinedSize(p[1..], n);
      PieceFits(n, |p|);
    }
  }

  /** Pieces of equal size can be joined and taken apart again. */
  lemma {:induction false} PiecesJoined(p: seq<Bytes>, n: nat)
    requires AllSized(p, n)
    ensures |Joined(p)| == n * |p| && Pieces(Joined(p), n, |p|) == p
  {
    JoinedSize(p, n);
    if p != [] {
      PieceFits(n, |p|);
      PiecesJoined(p[1..], n);
      var b := Joined(p);
      assert b[..n] == p[0] && b[n..] == Joined(p[1..]);
      assert p == [p[0]] + p[1..];
    }
  }
}
