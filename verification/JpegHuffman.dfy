/**
 The Huffman tables of platform/software/parallelmjpeg/Headers/Private/Decoder.h: a table is
 loaded from the number of codes of each length and the symbols, and decodes the canonical codes
 of Annex C of ITU-T T.81.
 */
module JpegHuffman {
  import opened Common
  import opened JpegBits

  // huff_table_t
  datatype Table = Table(valPtr: seq<int>, minCode: seq<int>, maxCode: seq<int>, table: seq<byte>)

  // ---------------------------------------------------------------------------------------------
  // Loading

  // The number of codes shorter than `i + 1` bits, and the first code of that length.
  function ValPtr(counts: seq<byte>, i: nat): nat
    requires i <= |counts|
  {
    if i == 0 then 0 else ValPtr(counts, i - 1) + counts[i - 1]
  }

  function MinCode(counts: seq<byte>, i: nat): nat
    requires i <= |counts|
  {
    if i == 0 then 0 else 2 * (MinCode(counts, i - 1) + counts[i - 1])
  }

  function MaxCode(counts: seq<byte>, i: nat): int
    requires i < |counts|
  {
    if counts[i] != 0 then MinCode(counts, i) + counts[i] - 1 else -1
  }

  ghost predicate Arrays(valPtr: seq<int>, minCode: seq<int>, maxCode: seq<int>, counts: seq<byte>, n: nat)
  {
    && n <= |counts| && |valPtr| == n && |minCode| == n && |maxCode| == n
    && forall i :: 0 <= i < n ==>
         valPtr[i] == ValPtr(counts, i) && minCode[i] == MinCode(counts, i) && maxCode[i] == MaxCode(counts, i)
  }

  // The table holds these counts, and the first `max` of these symbols.
  ghost predicate Holds(t: Table, counts: seq<byte>, symbols: seq<byte>, max: nat)
  {
    && |counts| == 16 && Arrays(t.valPtr, t.minCode, t.maxCode, counts, 16)
    && |symbols| == ValPtr(counts, 16)
    && t.table == if |symbols| > max then symbols[..max] else symbols
  }

  /** `load_huffman_table`: 16 counts, the symbols, and a table truncated to `max` symbols. */
  method LoadHuffmanTable(channel: seq<byte>, max: nat) returns (t: Table, rest: seq<byte>)
    requires |channel| >= 16 && |channel| >= 16 + ValPtr(channel[..16], 16)
    ensures var total := ValPtr(channel[..16], 16);
      Holds(t, channel[..16], channel[16..16 + total], max) && rest == channel[16 + total..]
  {
    var valPtr, minCode, maxCode, leavesT := LoadCounts(channel[..16]);
    var n := if leavesT > max then max else leavesT;
    t := Table(valPtr, minCode, maxCode, channel[16..16 + n]);
    rest := channel[16 + leavesT..];
    assert leavesT > max ==> channel[16..16 + leavesT][..max] == channel[16..16 + n];
  }

  // The loop of `load_huffman_table`.
  method LoadCounts(counts: seq<byte>) returns (valPtr: seq<int>, minCode: seq<int>, maxCode: seq<int>, leavesT: nat)
    requires |counts| == 16
    ensures Arrays(valPtr, minCode, maxCode, counts, 16) && leavesT == ValPtr(counts, 16)
  {
    valPtr, minCode, maxCode, leavesT := [], [], [], 0;
    var auxCode: nat := 0;
    for i := 0 to 16
      invariant Arrays(valPtr, minCode, maxCode, counts, i)
      invariant leavesT == ValPtr(counts, i) && 2 * auxCode == MinCode(counts, i)
    {
      var leavesN: nat := counts[i];
      valPtr := valPtr + [leavesT];
      minCode := minCode + [auxCode * 2];
      auxCode := auxCode * 2 + leavesN;
      maxCode := maxCode + [if leavesN != 0 then auxCode - 1 else -1];
      leavesT := leavesT + leavesN;
    }
  }

  // ---------------------------------------------------------------------------------------------
  // Decoding

  // The symbol whose code starts `b`, and the bits after it; 0 if there is none within 16 bits.
  function ReadSymbol(t: Table, b: Bits): Option<(byte, Bits)>
    requires |t.valPtr| == 16 && |t.minCode| == 16 && |t.maxCode| == 16
  {
    Match(t, b, 0, 0)
  }

  // `get_symbol` after `n` bits, which are the number `code`.
  function Match(t: Table, b: Bits, n: nat, code: nat): Option<(byte, Bits)>
    requires |t.valPtr| == 16 && |t.minCode| == 16 && |t.maxCode| == 16 && n <= 16
    decreases |b|
  {
    if n == 16 then Some((0, b))
    else if b == [] then None
    else
      var c := 2 * code + Bit(b[0]);
      if c <= t.maxCode[n] then
        var index := t.valPtr[n] + c - t.minCode[n];
        Some((if 0 <= index < |t.table| then t.table[index] else 0, b[1..]))
      else Match(t, b[1..], n + 1, c)
  }

  // ---------------------------------------------------------------------------------------------
  // Codes

  // The codes of all lengths fit: the table is one that Annex C generates.
  ghost predicate Canonical(counts: seq<byte>)
  {
    |counts| == 16 && forall i :: 0 <= i < 16 ==> MinCode(counts, i) + counts[i] <= Pow2(i + 1)
  }

  // The least index from `i` on at which the codes reach the `k`-th symbol.
  ghost function LengthFrom(counts: seq<byte>, k: nat, i: nat): (l: nat)
    requires i <= |counts| && ValPtr(counts, i) <= k < ValPtr(counts, |counts|)
    ensures i <= l < |counts| && ValPtr(counts, l) <= k < ValPtr(counts, l + 1)
    decreases |counts| - i
  {
    if k < ValPtr(counts, i + 1) then i else LengthFrom(counts, k, i + 1)
  }

  // The length of the code of the `k`-th symbol is one more than this.
  ghost function LengthOf(counts: seq<byte>, k: nat): (l: nat)
    requires k < ValPtr(counts, |counts|)
    ensures l < |counts| && ValPtr(counts, l) <= k < ValPtr(counts, l + 1)
  {
    LengthFrom(counts, k, 0)
  }

  ghost function CodeNumber(counts: seq<byte>, k: nat): nat
    requires k < ValPtr(counts, |counts|)
  {
    var l := LengthOf(counts, k);
    MinCode(counts, l) + k - ValPtr(counts, l)
  }

  /** The code of the `k`-th symbol. */
  ghost function Code(counts: seq<byte>, k: nat): (b: Bits)
    requires k < ValPtr(counts, |counts|)
    ensures |b| == LengthOf(counts, k) + 1
  {
    BitsOf(CodeNumber(counts, k), LengthOf(counts, k) + 1)
  }

  // The procedure of figure C.2: count up, and shift when the codes get longer.
  ghost function AnnexC(counts: seq<byte>, k: nat): nat
    requires k < ValPtr(counts, |counts|)
  {
    if k == 0 then 0
    else
      var a, b := LengthOf(counts, k - 1), LengthOf(counts, k);
      (AnnexC(counts, k - 1) + 1) * (if a <= b then Pow2(b - a) else 1)
  }

  lemma {:induction false} ValPtrGrows(counts: seq<byte>, i: nat, j: nat)
    requires i <= j <= |counts|
    ensures ValPtr(counts, i) <= ValPtr(counts, j)
  {
    if i < j { ValPtrGrows(counts, i, j - 1); }
  }

  // Lengths without a code double the next code.
  lemma {:induction false} MinCodeJumps(counts: seq<byte>, i: nat, j: nat)
    requires i < j <= |counts| && ValPtr(counts, i + 1) == ValPtr(counts, j)
    ensures MinCode(counts, j) == (MinCode(counts, i) + counts[i]) * Pow2(j - i)
  {
    if i + 1 < j {
      ValPtrGrows(counts, i + 1, j - 1);
      MinCodeJumps(counts, i, j - 1);
      assert counts[j - 1] == 0;
      MulTwo(MinCode(counts, i) + counts[i], Pow2(j - 1 - i));
    }
  }

  lemma {:induction false} MinCodeZero(counts: seq<byte>, i: nat)
    requires i <= |counts| && ValPtr(counts, i) == 0
    ensures MinCode(counts, i) == 0
  {
    if i > 0 { MinCodeZero(counts, i - 1); }
  }

  lemma NextCode(counts: seq<byte>, k: nat, a: nat, b: nat)
    requires a <= b < |counts| && k >= 1
    requires ValPtr(counts, a) <= k - 1 < ValPtr(counts, a + 1) && ValPtr(counts, b) <= k < ValPtr(counts, b + 1)
    ensures MinCode(counts, b) + k - ValPtr(counts, b)
      == (MinCode(counts, a) + (k - 1) - ValPtr(counts, a) + 1) * Pow2(b - a)
  {
    if a < b {
      ValPtrGrows(counts, a + 1, b);
      MinCodeJumps(counts, a, b);
      assert k == ValPtr(counts, a + 1);
    }
  }

  /** The codes are those that the procedure of Annex C generates. */
  lemma {:induction false} CodesAreAnnexC(counts: seq<byte>, k: nat)
    requires k < ValPtr(counts, |counts|)
    ensures CodeNumber(counts, k) == AnnexC(counts, k)
  {
    var b := LengthOf(counts, k);
    if k == 0 {
      MinCodeZero(counts, b);
    } else {
      var a := LengthOf(counts, k - 1);
      CodesAreAnnexC(counts, k - 1);
      if b < a { ValPtrGrows(counts, b + 1, a); }
      NextCode(counts, k, a, b);
    }
  }

  // A longer code starts with a number above all the codes of a shorter length.
  lemma {:induction false} MinCodeGrows(counts: seq<byte>, i: nat, j: nat)
    requires i < j <= |counts|
    ensures MinCode(counts, j) >= (MinCode(counts, i) + counts[i]) * Pow2(j - i)
  {
    if i + 1 < j {
      MinCodeGrows(counts, i, j - 1);
      MulTwo(MinCode(counts, i) + counts[i], Pow2(j - 1 - i));
    }
  }

  /** The first `n + 1` bits of a code are no code. */
  lemma NoShorterCode(counts: seq<byte>, k: nat, n: nat)
    requires k < ValPtr(counts, |counts|) && n < LengthOf(counts, k)
    ensures Shr(CodeNumber(counts, k), LengthOf(counts, k) - n) > MaxCode(counts, n)
  {
    var l := LengthOf(counts, k);
    MinCodeGrows(counts, n, l);
    ShrAtLeast(CodeNumber(counts, k), MinCode(counts, n) + counts[n], l - n);
  }

  lemma CodeFits(counts: seq<byte>, k: nat)
    requires Canonical(counts) && k < ValPtr(counts, |counts|)
    ensures CodeNumber(counts, k) < Pow2(LengthOf(counts, k) + 1)
  {
  }

  lemma OneMore(c: Bits, n: nat, rest: Bits)
    requires n < |c|
    ensures (c[n..] + rest)[0] == c[n] && (c[n..] + rest)[1..] == c[n + 1..] + rest
    ensures 2 * Val(c[..n]) + Bit(c[n]) == Val(c[..n + 1])
  {
    assert c[..n + 1][..n] == c[..n];
  }

  // `c` is the code of `symbol` in `t`, and no beginning of it is a code.
  ghost predicate CodeOf(t: Table, c: Bits, symbol: byte)
  {
    && |t.valPtr| == 16 && |t.minCode| == 16 && |t.maxCode| == 16 && 1 <= |c| <= 16
    && var l := |c| - 1;
       && (forall n :: 0 <= n < l ==> Val(c[..n + 1]) > t.maxCode[n]) && Val(c) <= t.maxCode[l]
       && var index := t.valPtr[l] + Val(c) - t.minCode[l];
          0 <= index < |t.table| && t.table[index] == symbol
  }

  // After `n` bits of a code, the rest of it decodes to its symbol.
  lemma {:induction false} MatchCode(t: Table, c: Bits, symbol: byte, n: nat, rest: Bits)
    requires CodeOf(t, c, symbol) && n < |c|
    ensures Match(t, c[n..] + rest, n, Val(c[..n])) == Some((symbol, rest))
    decreases |c| - n
  {
    OneMore(c, n, rest);
    if n < |c| - 1 {
      MatchCode(t, c, symbol, n + 1, rest);
    } else {
      assert c[..n + 1] == c && c[n + 1..] + rest == rest;
    }
  }

  // The length and the number of a code, and the numbers of its beginnings.
  lemma {:induction false} CodeBits(counts: seq<byte>, k: nat, l: nat, v: nat)
    requires Canonical(counts) && k < ValPtr(counts, 16) && l == LengthOf(counts, k) && v == CodeNumber(counts, k)
    ensures |Code(counts, k)| == l + 1 && Val(Code(counts, k)) == v && v == MinCode(counts, l) + k - ValPtr(counts, l)
    ensures v <= MaxCode(counts, l)
    ensures forall n :: 0 <= n < l ==> Val(Code(counts, k)[..n + 1]) > MaxCode(counts, n)
  {
    CodeFits(counts, k);
    ValBitsOf(v, l + 1);
    forall n | 0 <= n < l ensures Val(Code(counts, k)[..n + 1]) > MaxCode(counts, n) {
      BeginningIsNoCode(counts, k, n);
    }
  }

  lemma {:induction false} BeginningIsNoCode(counts: seq<byte>, k: nat, n: nat)
    requires Canonical(counts) && k < ValPtr(counts, 16) && n < LengthOf(counts, k)
    ensures Val(Code(counts, k)[..n + 1]) > MaxCode(counts, n)
  {
    CodeFits(counts, k);
    PrefixVal(CodeNumber(counts, k), LengthOf(counts, k) + 1, n + 1);
    NoShorterCode(counts, k, n);
  }

  // The arrays of a table are those of its counts.
  lemma {:induction false} ArraysAt(t: Table, counts: seq<byte>, symbols: seq<byte>, max: nat, n: nat)
    requires Holds(t, counts, symbols, max) && n < 16
    ensures |t.valPtr| == 16 && |t.minCode| == 16 && |t.maxCode| == 16
    ensures t.valPtr[n] == ValPtr(counts, n) && t.minCode[n] == MinCode(counts, n) && t.maxCode[n] == MaxCode(counts, n)
  {
  }

  lemma {:induction false} TableCodes(t: Table, counts: seq<byte>, symbols: seq<byte>, max: nat, k: nat)
    requires Holds(t, counts, symbols, max) && |symbols| <= max && Canonical(counts) && k < |symbols|
    ensures CodeOf(t, Code(counts, k), symbols[k])
  {
    var l, v := LengthOf(counts, k), CodeNumber(counts, k);
    CodeBits(counts, k, l, v);
    CodeFits(counts, k);
    forall n | 0 <= n <= l
      ensures t.valPtr[n] == ValPtr(counts, n) && t.minCode[n] == MinCode(counts, n)
      ensures t.maxCode[n] == MaxCode(counts, n)
    {
      ArraysAt(t, counts, symbols, max, n);
    }
  }

  /** A code decodes to its symbol, whatever follows it. */
  lemma SymbolRoundTrip(t: Table, counts: seq<byte>, symbols: seq<byte>, max: nat, k: nat, rest: Bits)
    requires Holds(t, counts, symbols, max) && |symbols| <= max && Canonical(counts) && k < |symbols|
    ensures ReadSymbol(t, Code(counts, k) + rest) == Some((symbols[k], rest))
  {
    TableCodes(t, counts, symbols, max, k);
    MatchCode(t, Code(counts, k), symbols[k], 0, rest);
    assert Code(counts, k)[0..] == Code(counts, k) && Code(counts, k)[..0] == [];
  }
}
