/**
 The blocks of platform/software/parallelmjpeg/Headers/Private/Decoder.h: difference coding of
 the first coefficient and run-length coding of the others, as in sections F.1.2.1, F.1.2.2,
 F.2.2.1 and F.2.2.2 of ITU-T T.81.
 */
module JpegBlock {
  import opened Common
  import opened JpegBits
  import opened JpegHuffman

  const HUFF_EOB: byte := 0x00
  const HUFF_ZRL: byte := 0xF0

  // MAX_SIZE(HUFF_DC) and MAX_SIZE(HUFF_AC)
  const MAX_DC := 14
  const MAX_AC := 162

  // ---------------------------------------------------------------------------------------------
  // Values

  // The value of the `good` bits `s`: the lower half of them stands for negative values.
  function Reformat(s: nat, good: nat): int
  {
    if good == 0 then 0 else if s < Pow2(good - 1) then s + 1 - Pow2(good) else s
  }

  function Magnitude(v: int): nat { if v < 0 then -v else v }

  ghost function BitLength(n: nat): nat { if n == 0 then 0 else 1 + BitLength(n / 2) }

  // The category of a value: the number of bits of its magnitude.
  ghost function Category(v: int): nat { BitLength(Magnitude(v)) }

  ghost function ValueBits(v: int): Bits
  {
    BitsOf(if v >= 0 then v else Magnitude(v + Pow2(Category(v)) - 1), Category(v))
  }

  lemma {:induction false} BitLengthIs(n: nat)
    requires n > 0
    ensures Pow2(BitLength(n) - 1) <= n < Pow2(BitLength(n))
  {
    if n > 1 { BitLengthIs(n / 2); }
  }

  lemma ValueRoundTrip(v: int)
    ensures Reformat(Val(ValueBits(v)), Category(v)) == v
  {
    if v != 0 {
      BitLengthIs(Magnitude(v));
      var n := Category(v);
      assert Pow2(n) == 2 * Pow2(n - 1);
      ValBitsOf(if v >= 0 then v else v + Pow2(n) - 1, n);
    }
  }

  // ---------------------------------------------------------------------------------------------
  // Reading blocks

  datatype Tables = Tables(dc: Table, ac: Table)

  predicate Sized(t: Table) { |t.valPtr| == 16 && |t.minCode| == 16 && |t.maxCode| == 16 }

  function ReadBits(b: Bits, n: nat): Option<(nat, Bits)>
  {
    if |b| < n then None else Some((Val(b[..n]), b[n..]))
  }

  // The difference of the first coefficient.
  function ReadDc(t: Tables, b: Bits): Option<(int, Bits)>
    requires Sized(t.dc)
  {
    match ReadSymbol(t.dc, b)
    case None => None
    case Some((symbol, b1)) =>
      if symbol > 31 then None
      else
        match ReadBits(b1, symbol)
        case None => None
        case Some((v, b2)) => Some((Reformat(v, symbol), b2))
  }

  // One iteration of the loop over the coefficients.
  datatype Step = Fail | Stop(block: seq<int>, b: Bits) | More(block: seq<int>, i: nat, b: Bits)

  function AcStep(t: Tables, b: Bits, i: nat, block: seq<int>): (r: Step)
    requires Sized(t.ac) && |block| == 64 && i < 64
    ensures (r.More? ==> r.i > i && |r.block| == 64) && (r.Stop? ==> |r.block| == 64)
  {
    match ReadSymbol(t.ac, b)
    case None => Fail
    case Some((symbol, b1)) => SymbolStep(symbol, b1, i, block)
  }

  function SymbolStep(symbol: byte, b: Bits, i: nat, block: seq<int>): (r: Step)
    requires |block| == 64 && i < 64
    ensures (r.More? ==> r.i > i && |r.block| == 64) && (r.Stop? ==> |r.block| == 64)
  {
    if symbol == HUFF_EOB then Stop(block, b)
    else if symbol == HUFF_ZRL then More(block, i + 16, b)
    else
      match ReadBits(b, symbol % 16)
      case None => Fail
      case Some((v, b1)) =>
        var j := i + symbol / 16;
        if j >= 64 then Fail else More(block[j := Reformat(v, symbol % 16)], j + 1, b1)
  }

  // The coefficients from `i` on, into a block that has the ones before.
  function ReadAc(t: Tables, b: Bits, i: nat, block: seq<int>): Option<(seq<int>, Bits)>
    requires Sized(t.ac) && |block| == 64
    decreases |block| - i
  {
    if i >= 64 then Some((block, b))
    else
      match AcStep(t, b, i, block)
      case Fail => None
      case Stop(block1, b1) => Some((block1, b1))
      case More(block1, j, b1) => ReadAc(t, b1, j, block1)
  }

  lemma {:induction false} ReadAcSize(t: Tables, b: Bits, i: nat, block: seq<int>)
    requires Sized(t.ac) && |block| == 64
    ensures ReadAc(t, b, i, block).Some? ==> |ReadAc(t, b, i, block).value.0| == 64
    decreases |block| - i
  {
    if i < 64 {
      var r := AcStep(t, b, i, block);
      if r.More? { ReadAcSize(t, r.b, r.i, r.block); }
    }
  }

  function Zeros(): seq<int> { seq(64, _ => 0) }

  /** A block and the bits after it; nothing if the bits run out or the coefficients do not fit. */
  function ReadBlock(t: Tables, pred: int, b: Bits): (r: Option<(seq<int>, Bits)>)
    requires Sized(t.dc) && Sized(t.ac)
    ensures r.Some? ==> |r.value.0| == 64
  {
    match ReadDc(t, b)
    case None => None
    case Some((diff, b1)) =>
      ReadAcSize(t, b1, 1, Zeros()[0 := pred + diff]);
      ReadAc(t, b1, 1, Zeros()[0 := pred + diff])
  }

  // ---------------------------------------------------------------------------------------------
  // Writing blocks

  // The code of every symbol of a table.
  type Codes = map<byte, Bits>

  // The number of zero coefficients from `i` on.
  ghost function ZeroRun(block: seq<int>, i: nat): (r: nat)
    requires i <= |block|
    ensures i + r <= |block| && (forall j :: i <= j < i + r ==> block[j] == 0)
    ensures (i + r < |block| ==> block[i + r] != 0)
    decreases |block| - i
  {
    if i < |block| && block[i] == 0 then 1 + ZeroRun(block, i + 1) else 0
  }

  ghost predicate HasDc(codes: Codes, diff: int)
  {
    Category(diff) <= 16 && Category(diff) in codes
  }

  ghost function DcBits(codes: Codes, diff: int): Bits
    requires HasDc(codes, diff)
  {
    codes[Category(diff)] + ValueBits(diff)
  }

  // The table has the symbols that the coefficients from `i` on need: the end of the block is 0x00, sixteen
  // zeros are 0xF0, and a run of zeros and a category are in the high and the low four bits (section F.1.2.2.1).
  ghost predicate HasAc(codes: Codes, block: seq<int>, i: nat)
    requires |block| == 64
    decreases |block| - i
  {
    i >= 64 ||
    var r := ZeroRun(block, i);
    if i + r == 64 then 0x00 in codes
    else if r >= 16 then 0xF0 in codes && HasAc(codes, block, i + 16)
    else Category(block[i + r]) <= 15 && 16 * r + Category(block[i + r]) in codes && HasAc(codes, block, i + r + 1)
  }

  ghost function AcBits(codes: Codes, block: seq<int>, i: nat): Bits
    requires |block| == 64 && HasAc(codes, block, i)
    decreases |block| - i
  {
    if i >= 64 then []
    else
      var r := ZeroRun(block, i);
      if i + r == 64 then codes[0x00]
      else if r >= 16 then codes[0xF0] + AcBits(codes, block, i + 16)
      else codes[16 * r + Category(block[i + r])] + (ValueBits(block[i + r]) + AcBits(codes, block, i + r + 1))
  }

  // ---------------------------------------------------------------------------------------------
  // Round trips

  // Every code is decoded to its symbol, whatever follows.
  ghost predicate Decodes(t: Table, codes: Codes)
  {
    Sized(t) &&
    forall symbol, rest {:trigger ReadSymbol(t, codes[symbol] + rest)} :: symbol in codes ==>
      ReadSymbol(t, codes[symbol] + rest) == Some((symbol, rest))
  }

  /** What the decoder does with each symbol: 0x00 ends the block and leaves the rest of it zero, 0xF0 skips sixteen
      coefficients, and `16 * run + size` skips `run` of them and takes a value of `size` bits. */
  lemma SymbolSteps(t: Tables, codes: Codes, rest: Bits, i: nat, block: seq<int>, run: nat, v: int)
    requires Decodes(t.ac, codes) && |block| == 64 && i < 64 && run < 16 && 1 <= Category(v) <= 15 && i + run < 64
    ensures 0x00 in codes ==> ReadAc(t, codes[0x00] + rest, i, block) == Some((block, rest))
    ensures 0xF0 in codes ==> ReadAc(t, codes[0xF0] + rest, i, block) == ReadAc(t, rest, i + 16, block)
    ensures 16 * run + Category(v) in codes ==>
      ReadAc(t, codes[16 * run + Category(v)] + (ValueBits(v) + rest), i, block)
        == ReadAc(t, rest, i + run + 1, block[i + run := v])
  {
    if 16 * run + Category(v) in codes {
      var symbol: byte := 16 * run + Category(v);
      assert ReadSymbol(t.ac, codes[symbol] + (ValueBits(v) + rest)) == Some((symbol, ValueBits(v) + rest));
      assert symbol % 16 == Category(v) && symbol / 16 == run;
      BitsBack(v, rest);
      ValueRoundTrip(v);
    }
  }

  lemma BitsBack(v: int, rest: Bits)
    ensures ReadBits(ValueBits(v) + rest, Category(v)) == Some((Val(ValueBits(v)), rest))
  {
    assert (ValueBits(v) + rest)[..Category(v)] == ValueBits(v);
    assert (ValueBits(v) + rest)[Category(v)..] == rest;
  }

  lemma DcBack(t: Tables, codes: Codes, diff: int, rest: Bits)
    requires Decodes(t.dc, codes) && HasDc(codes, diff)
    ensures ReadDc(t, DcBits(codes, diff) + rest) == Some((diff, rest))
  {
    assert DcBits(codes, diff) + rest == codes[Category(diff)] + (ValueBits(diff) + rest);
    assert ReadSymbol(t.dc, codes[Category(diff)] + (ValueBits(diff) + rest))
      == Some((Category(diff), ValueBits(diff) + rest));
    BitsBack(diff, rest);
    ValueRoundTrip(diff);
  }

  lemma StepValue(b: Bits, i: nat, part: seq<int>, symbol: byte, v: nat, b1: Bits)
    requires |part| == 64 && symbol % 16 >= 1 && i + symbol / 16 < 64 && ReadBits(b, symbol % 16) == Some((v, b1))
    ensures SymbolStep(symbol, b, i, part)
      == More(part[i + symbol / 16 := Reformat(v, symbol % 16)], i + symbol / 16 + 1, b1)
  {
    assert symbol != HUFF_EOB && symbol != HUFF_ZRL;
  }

  // `part` has the coefficients before `i`, and zeros after them.
  ghost predicate Partial(part: seq<int>, block: seq<int>, i: nat)
  {
    && |part| == 64 && |block| == 64
    && forall j :: 0 <= j < 64 ==> part[j] == if j < i then block[j] else 0
  }

  lemma PartialNext(part: seq<int>, block: seq<int>, i: nat, r: nat)
    requires Partial(part, block, i) && i + r < 64 && forall j :: i <= j < i + r ==> block[j] == 0
    ensures Partial(part[i + r := block[i + r]], block, i + r + 1)
  {
  }

  lemma {:induction false} AcBack(t: Tables, codes: Codes, block: seq<int>, i: nat, part: seq<int>, rest: Bits)
    requires Decodes(t.ac, codes) && Partial(part, block, i) && HasAc(codes, block, i)
    ensures ReadAc(t, AcBits(codes, block, i) + rest, i, part) == Some((block, rest))
    decreases |block| - i
  {
    if i >= 64 {
      assert part == block && AcBits(codes, block, i) + rest == rest;
    } else if i + ZeroRun(block, i) == 64 {
      assert ReadSymbol(t.ac, codes[HUFF_EOB] + rest) == Some((HUFF_EOB, rest));
      assert part == block;
    } else if ZeroRun(block, i) >= 16 {
      AcRunBack(t, codes, block, i, part, rest);
    } else {
      AcValueBack(t, codes, block, i, part, rest);
    }
  }

  // Sixteen zeros.
  lemma {:induction false} AcRunBack(t: Tables, codes: Codes, block: seq<int>, i: nat, part: seq<int>, rest: Bits)
    requires Decodes(t.ac, codes) && Partial(part, block, i) && HasAc(codes, block, i)
    requires i < 64 && ZeroRun(block, i) >= 16 && i + ZeroRun(block, i) < 64
    ensures ReadAc(t, AcBits(codes, block, i) + rest, i, part) == Some((block, rest))
    decreases |block| - i, 0
  {
    var tail := AcBits(codes, block, i + 16) + rest;
    assert AcBits(codes, block, i) + rest == codes[HUFF_ZRL] + tail;
    assert ReadSymbol(t.ac, codes[HUFF_ZRL] + tail) == Some((HUFF_ZRL, tail));
    AcBack(t, codes, block, i + 16, part, rest);
  }

  // A short run and a value.
  lemma {:induction false} AcValueBack(t: Tables, codes: Codes, block: seq<int>, i: nat, part: seq<int>, rest: Bits)
    requires Decodes(t.ac, codes) && Partial(part, block, i) && HasAc(codes, block, i)
    requires i < 64 && ZeroRun(block, i) < 16 && i + ZeroRun(block, i) < 64
    ensures ReadAc(t, AcBits(codes, block, i) + rest, i, part) == Some((block, rest))
    decreases |block| - i, 0
  {
    var r := ZeroRun(block, i);
    var v := block[i + r];
    BitLengthIs(Magnitude(v));
    var c, tail := codes[16 * r + Category(v)], AcBits(codes, block, i + r + 1);
    assert (c + (ValueBits(v) + tail)) + rest == c + (ValueBits(v) + (tail + rest));
    ValueStep(t, codes, v, r, tail + rest, i, part);
    PartialNext(part, block, i, r);
    AcBack(t, codes, block, i + r + 1, part[i + r := v], rest);
  }

  lemma ValueStep(t: Tables, codes: Codes, v: int, r: nat, tail: Bits, i: nat, part: seq<int>)
    requires Decodes(t.ac, codes) && |part| == 64 && r < 16 && i + r < 64
    requires 1 <= Category(v) <= 15 && 16 * r + Category(v) in codes
    ensures AcStep(t, codes[16 * r + Category(v)] + (ValueBits(v) + tail), i, part)
      == More(part[i + r := v], i + r + 1, tail)
  {
    var n := Category(v);
    var symbol: byte := 16 * r + n;
    assert symbol / 16 == r && symbol % 16 == n;
    BitsBack(v, tail);
    ValueRoundTrip(v);
    assert ReadSymbol(t.ac, codes[symbol] + (ValueBits(v) + tail)) == Some((symbol, ValueBits(v) + tail));
    StepValue(ValueBits(v) + tail, i, part, symbol, Val(ValueBits(v)), tail);
  }

  // The codes of the two tables of a component.
  datatype Coder = Coder(dc: Codes, ac: Codes)

  ghost predicate HasBlock(c: Coder, pred: int, block: seq<int>)
  {
    |block| == 64 && HasDc(c.dc, block[0] - pred) && HasAc(c.ac, block, 1)
  }

  ghost function BlockBits(c: Coder, pred: int, block: seq<int>): Bits
    requires HasBlock(c, pred, block)
  {
    DcBits(c.dc, block[0] - pred) + AcBits(c.ac, block, 1)
  }

  /** A block that is written is read back, whatever follows. */
  lemma BlockBack(t: Tables, c: Coder, pred: int, block: seq<int>, rest: Bits)
    requires Decodes(t.dc, c.dc) && Decodes(t.ac, c.ac) && HasBlock(c, pred, block)
    ensures ReadBlock(t, pred, BlockBits(c, pred, block) + rest) == Some((block, rest))
  {
    var a, b := DcBits(c.dc, block[0] - pred), AcBits(c.ac, block, 1);
    assert (a + b) + rest == a + (b + rest);
    DcBack(t, c.dc, block[0] - pred, b + rest);
    AcBack(t, c.ac, block, 1, Zeros()[0 := block[0]], rest);
  }

}
