/**
 The entropy decoder of platform/software/parallelmjpeg/Headers/Private/Decoder.h: a window of
 bits over the channel, symbols, and blocks with one predictor per component.
 */
module JpegDecoder {
  import opened Common
  import opened JpegBits
  import opened JpegHuffman
  import opened JpegBlock

  // ---------------------------------------------------------------------------------------------
  // The window

  lemma {:induction false} ValHead(b: Bits)
    requires b != []
    ensures Val(b) == (if b[0] then Pow2(|b| - 1) else 0) + Val(b[1..])
  {
    var n := |b| - 1;
    if n > 0 {
      ValHead(b[..n]);
      assert b[..n][1..] == b[1..][..n - 1];
    }
  }

  lemma {:induction false} ShiftIn(b: Bits)
    ensures Val(b + [false]) == 2 * Val(b)
  {
    assert (b + [false])[..|b|] == b;
  }

  // Dropping the first bit of a number and shifting in a zero.
  lemma {:induction false} TopSplit(b: Bits, n: nat, w: nat, top: nat)
    requires |b| == n >= 1 && Val(b) == w && top == Pow2(n - 1)
    ensures b[0] == (w >= top) && Val(b[1..] + [false]) == 2 * (if w >= top then w - top else w)
  {
    ValHead(b);
    ValBound(b[1..]);
    ShiftIn(b[1..]);
  }

  // Taking the first bit of a number of `n` bits.
  lemma {:induction false} TopBit(w: nat, n: nat, u: nat)
    requires n >= 1 && w < Pow2(n) && u == 2 * (if w >= Pow2(n - 1) then w - Pow2(n - 1) else w)
    ensures BitsOf(w, n)[0] == (w >= Pow2(n - 1))
    ensures BitsOf(u, n) == BitsOf(w, n)[1..] + [false]
  {
    var b := BitsOf(w, n);
    ValBitsOf(w, n);
    TopSplit(b, n, w, Pow2(n - 1));
    SameBits(u, n, b[1..] + [false]);
  }

  lemma {:induction false} SameBits(u: nat, n: nat, c: Bits)
    requires Val(c) == u && |c| == n
    ensures BitsOf(u, n) == c
  {
    BitsOfVal(c);
  }

  lemma BytePowers()
    ensures Pow2(7) == 128 && Pow2(8) == 256
  {
  }

  lemma DoubledByte(w: byte)
    ensures (2 * w) % 256 == 2 * (if w >= 128 then w - 128 else w)
    ensures w / 128 == if w >= 128 then 1 else 0
  {
  }

  lemma TopBitOfByte(w: byte)
    ensures BitsOf(w, 8)[0] == (w / 128 == 1) && 0 <= w / 128 <= 1
    ensures BitsOf((2 * w) % 256, 8) == BitsOf(w, 8)[1..] + [false]
  {
    BytePowers();
    DoubledByte(w);
    TopBit(w, 8, (2 * w) % 256);
  }

  // The bits in the window `w`, of which `n` are left, and in the channel.
  ghost function Ahead(w: byte, n: nat, channel: seq<byte>): Bits
    requires n <= 8
  {
    BitsOf(w, 8)[..n] + Unstuff(channel)
  }

  lemma TakeBit(w: byte, n: nat, channel: seq<byte>)
    requires 1 <= n <= 8
    ensures Ahead(w, n, channel) != [] && Ahead(w, n, channel)[0] == (w / 128 == 1) && 0 <= w / 128 <= 1
    ensures Ahead((2 * w) % 256, n - 1, channel) == Ahead(w, n, channel)[1..]
  {
    TopBitOfByte(w);
    DropFirst(BitsOf(w, 8), BitsOf((2 * w) % 256, 8), n, Unstuff(channel));
  }

  lemma DropFirst(b: Bits, c: Bits, n: nat, rest: Bits)
    requires 1 <= n <= |b| && c == b[1..] + [false]
    ensures b[..n] + rest != [] && (b[..n] + rest)[0] == b[0] && c[..n - 1] + rest == (b[..n] + rest)[1..]
  {
  }

  lemma Refill(w: byte, channel: seq<byte>)
    requires Ahead(w, 0, channel) != []
    ensures channel != [] && (channel[0] == 0xFF ==> |channel| >= 2)
    ensures Ahead(channel[0], 8, if channel[0] == 0xFF then channel[2..] else channel[1..]) == Ahead(w, 0, channel)
  {
    assert BitsOf(w, 8)[..0] + Unstuff(channel) == Unstuff(channel);
    assert BitsOf(channel[0], 8)[..8] == BitsOf(channel[0], 8);
  }

  // The table has every symbol that an index below `max` can ask for.
  ghost predicate Fits(t: Table, max: nat)
  {
    Sized(t) &&
    (|t.table| == max ||
      (|t.table| < max && forall n :: 0 <= n < 16 ==> t.valPtr[n] + t.maxCode[n] - t.minCode[n] < |t.table|))
  }

  lemma LoadedFits(t: Table, counts: seq<byte>, symbols: seq<byte>, max: nat)
    requires Holds(t, counts, symbols, max)
    ensures Fits(t, max)
  {
    forall n | 0 <= n < 16 ensures t.valPtr[n] + t.maxCode[n] - t.minCode[n] < |symbols| || |symbols| == 0 {
      ValPtrGrows(counts, n + 1, 16);
      assert t.valPtr[n] == ValPtr(counts, n);
    }
    forall n | 0 <= n < 16 ensures |symbols| == 0 ==> t.valPtr[n] + t.maxCode[n] - t.minCode[n] < 0 {
      ValPtrGrows(counts, n, 16);
      ValPtrGrows(counts, n + 1, 16);
      assert t.valPtr[n] == ValPtr(counts, n);
    }
  }

  lemma NextVal(rest: Bits, i: nat)
    requires i < |rest|
    ensures Val(rest[..i + 1]) == 2 * Val(rest[..i]) + Bit(rest[i]) && rest[i..][1..] == rest[i + 1..]
  {
    assert rest[..i + 1][..i] == rest[..i];
  }

  lemma {:induction false} PowMono(a: nat, b: nat)
    requires a <= b
    ensures Pow2(a) <= Pow2(b)
  {
    if a < b { PowMono(a, b - 1); }
  }

  lemma {:induction false} PowAdd(a: nat, b: nat)
    ensures Pow2(a + b) == Pow2(a) * Pow2(b)
  {
    if b > 0 {
      PowAdd(a, b - 1);
      MulTwo(Pow2(a), Pow2(b - 1));
    }
  }

  lemma SmallVal(b: Bits)
    requires |b| <= 31
    ensures Val(b) < 0x1_0000_0000
  {
    ValBound(b);
    PowMono(|b|, 32);
    BytePowers();
    PowAdd(8, 8);
    PowAdd(16, 16);
  }

  // One more bit in an unsigned 32-bit integer.
  function NextResult(result: nat, bit: nat, ghost number: nat): (r: nat)
    requires result == number % 0x1_0000_0000
    ensures r == (2 * number + bit) % 0x1_0000_0000
  {
    (2 * result + bit) % 0x1_0000_0000
  }

  // scan_desc_t and the channel
  class Scan {
    const tables: seq<Tables>
    var channel: seq<byte>
    var bitCount: nat
    var window: byte
    var pred: seq<int>

    ghost predicate Valid()
      reads this
    {
      && bitCount <= 8 && |pred| == |tables|
      && forall i :: 0 <= i < |tables| ==> Fits(tables[i].dc, MAX_DC) && Fits(tables[i].ac, MAX_AC)
    }

    // The bits still to be read.
    ghost function Rest(): Bits
      requires bitCount <= 8
      reads this
    {
      Ahead(window, bitCount, channel)
    }

    constructor (t: seq<Tables>, bytes: seq<byte>)
      requires forall i :: 0 <= i < |t| ==> Fits(t[i].dc, MAX_DC) && Fits(t[i].ac, MAX_AC)
      ensures Valid() && tables == t && Rest() == Unstuff(bytes) && pred == seq(|t|, _ => 0)
    {
      tables, channel, bitCount, window, pred := t, bytes, 0, 0, seq(|t|, _ => 0);
      new;
      assert BitsOf(window, 8)[..0] + Unstuff(channel) == Unstuff(channel);
    }

    // One iteration of `get_bits`.
    method GetBit() returns (bit: nat)
      requires bitCount <= 8 && Rest() != []
      modifies this`channel, this`bitCount, this`window
      ensures bitCount <= 8 && bit == Bit(old(Rest())[0]) && Rest() == old(Rest())[1..]
    {
      var w: byte;
      if bitCount == 0 {
        Refill(window, channel);
        w := channel[0];
        bitCount := 8;
        channel := if w == 0xFF then channel[2..] else channel[1..];
      } else {
        w := window;
      }
      TakeBit(w, bitCount, channel);
      bit := w / 128;
      window := (2 * w) % 256;
      bitCount := bitCount - 1;
    }

    /** `get_bits`: the number of the next bits, as an unsigned 32-bit integer. */
    method GetBits(number: nat) returns (result: nat)
      requires bitCount <= 8 && |Rest()| >= number
      modifies this`channel, this`bitCount, this`window
      ensures bitCount <= 8 && result == Val(old(Rest())[..number]) % 0x1_0000_0000 && Rest() == old(Rest())[number..]
    {
      ghost var rest := Rest();
      result := 0;
      for i := 0 to number
        invariant bitCount <= 8 && Rest() == rest[i..] && result == Val(rest[..i]) % 0x1_0000_0000
      {
        NextVal(rest, i);
        var newbit := GetBit();
        result := NextResult(result, newbit, Val(rest[..i]));
      }
    }

    /** `get_symbol`: the symbol of the code that comes next. */
    method GetSymbol(t: Table, max: nat) returns (symbol: byte)
      requires bitCount <= 8 && Fits(t, max) && ReadSymbol(t, Rest()).Some?
      modifies this`channel, this`bitCount, this`window
      ensures bitCount <= 8 && ReadSymbol(t, old(Rest())) == Some((symbol, Rest()))
    {
      var code: nat := 0;
      for length := 0 to 16
        invariant bitCount <= 8 && ReadSymbol(t, old(Rest())) == Match(t, Rest(), length, code)
      {
        var temp := GetBit();
        code := 2 * code + temp;
        if code <= t.maxCode[length] {
          var index := t.valPtr[length] + code - t.minCode[length];
          if 0 <= index < max {
            return t.table[index];
          }
          return 0;
        }
      }
      symbol := 0;
    }

    /** `unpack_block`: the next block of a component, and its first coefficient as the next prediction. */
    method UnpackBlock(index: nat, block: array<int>)
      requires Valid() && index < |tables| && block.Length == 64
      requires ReadBlock(tables[index], pred[index], Rest()).Some?
      modifies this`channel, this`bitCount, this`window, this`pred, block
      ensures Valid() && ReadBlock(tables[index], old(pred[index]), old(Rest())) == Some((block[..], Rest()))
      ensures pred == old(pred)[index := block[0]]
    {
      var t := tables[index];
      Clear(block);
      var value := UnpackDc(t);
      value := value + pred[index];
      pred := pred[index := value];
      UnpackRest(t, value, block);
    }

    // The first coefficient is known.
    method UnpackRest(t: Tables, value: int, block: array<int>)
      requires bitCount <= 8 && Fits(t.ac, MAX_AC) && block.Length == 64 && block[..] == Zeros()
      requires ReadAc(t, Rest(), 1, Zeros()[0 := value]).Some?
      modifies this`channel, this`bitCount, this`window, block
      ensures bitCount <= 8 && ReadAc(t, old(Rest()), 1, Zeros()[0 := value]) == Some((block[..], Rest()))
      ensures block[0] == value
    {
      block[0] := value;
      assert block[..] == Zeros()[0 := value];
      UnpackAc(t, block);
    }

    static method Clear(block: array<int>)
      requires block.Length == 64
      modifies block
      ensures block[..] == Zeros()
    {
      forall j | 0 <= j < 64 { block[j] := 0; }
    }

    // The difference of the first coefficient.
    method UnpackDc(t: Tables) returns (value: int)
      requires bitCount <= 8 && Fits(t.dc, MAX_DC) && ReadDc(t, Rest()).Some?
      modifies this`channel, this`bitCount, this`window
      ensures bitCount <= 8 && ReadDc(t, old(Rest())) == Some((value, Rest()))
    {
      var symbol := GetSymbol(t.dc, MAX_DC);
      var temp := GetNumber(symbol);
      value := Reformat(temp, symbol);
    }

    // At most 31 bits fit an unsigned 32-bit integer.
    method GetNumber(number: nat) returns (result: nat)
      requires bitCount <= 8 && number <= 31 && ReadBits(Rest(), number).Some?
      modifies this`channel, this`bitCount, this`window
      ensures bitCount <= 8 && ReadBits(old(Rest()), number) == Some((result, Rest()))
    {
      SmallVal(Rest()[..number]);
      result := GetBits(number);
    }

    // The loop of `unpack_block`.
    method UnpackAc(t: Tables, block: array<int>)
      requires bitCount <= 8 && Fits(t.ac, MAX_AC) && block.Length == 64 && ReadAc(t, Rest(), 1, block[..]).Some?
      modifies this`channel, this`bitCount, this`window, block
      ensures bitCount <= 8 && ReadAc(t, old(Rest()), 1, old(block[..])) == Some((block[..], Rest()))
      ensures block[0] == old(block[0])
    {
      var i := 1;
      while i < 64
        invariant bitCount <= 8 && i >= 1 && block[0] == old(block[0])
        invariant ReadAc(t, Rest(), i, block[..]) == ReadAc(t, old(Rest()), 1, old(block[..]))
      {
        var stop, next := UnpackCoefficient(t, i, block);
        if stop {
          return;
        }
        i := next;
      }
    }

    // One iteration of it.
    method UnpackCoefficient(t: Tables, i: nat, block: array<int>) returns (stop: bool, next: nat)
      requires bitCount <= 8 && Fits(t.ac, MAX_AC) && block.Length == 64 && 1 <= i < 64
      requires AcStep(t, Rest(), i, block[..]) != Fail
      modifies this`channel, this`bitCount, this`window, block
      ensures bitCount <= 8 && next >= i && block[0] == old(block[0])
      ensures AcStep(t, old(Rest()), i, old(block[..])) ==
        if stop then Stop(block[..], Rest()) else More(block[..], next, Rest())
    {
      ghost var part := block[..];
      next := i;
      var symbol := GetSymbol(t.ac, MAX_AC);
      if symbol == HUFF_EOB {
        return true, next;
      }
      if symbol == HUFF_ZRL {
        next := next + 15;
      } else {
        var cat := symbol % 16;
        var run := symbol / 16;
        next := next + run;
        var temp := GetNumber(cat);
        block[next] := Reformat(temp, cat);
        assert block[..] == part[next := Reformat(temp, cat)];
      }
      stop, next := false, next + 1;
    }

    // The next block, in an array of its own.
    method NextBlock(index: nat) returns (values: seq<int>)
      requires Valid() && index < |tables| && ReadBlock(tables[index], pred[index], Rest()).Some?
      modifies this`channel, this`bitCount, this`window, this`pred
      ensures Valid() && ReadBlock(tables[index], old(pred[index]), old(Rest())) == Some((values, Rest()))
      ensures |values| == 64 && pred == old(pred)[index := values[0]]
    {
      var block := new int[64];
      UnpackBlock(index, block);
      values := block[..];
    }

    /** Repeated `unpack_block`: the blocks of a scan, for the components in order. */
    method DecodeScan(components: seq<nat>) returns (blocks: seq<seq<int>>)
      requires Valid() && ReadScan(tables, pred, components, Rest()).Some?
      modifies this`channel, this`bitCount, this`window, this`pred
      ensures Valid() && ReadScan(tables, old(pred), components, old(Rest())) == Some(blocks)
    {
      blocks := [];
      ghost var all := ReadScan(tables, pred, components, Rest());
      PrependNone(all);
      for i := 0 to |components|
        invariant Valid() && all == Prepend(blocks, ReadScan(tables, pred, components[i..], Rest()))
      {
        ghost var p, b := pred, Rest();
        ScanFirst(tables, p, components[i..], b);
        var block := NextBlock(components[i]);
        PrependTwice(blocks, block, ReadScan(tables, pred, components[i..][1..], Rest()));
        assert components[i..][1..] == components[i + 1..];
        blocks := blocks + [block];
      }
      assert blocks + [] == blocks;
    }
  }

  // ---------------------------------------------------------------------------------------------
  // Whole scans

  // The contents of a table segment.
  datatype Huff = Huff(counts: seq<byte>, symbols: seq<byte>)

  ghost predicate Loaded(t: Table, h: Huff, max: nat)
  {
    Canonical(h.counts) && |h.symbols| <= max && Holds(t, h.counts, h.symbols, max)
  }

  ghost function IndexOf(q: seq<byte>, x: byte): (k: nat)
    requires x in q
    ensures k < |q| && q[k] == x
  {
    if q[0] == x then 0 else 1 + IndexOf(q[1..], x)
  }

  ghost function CodesOf(t: Table, h: Huff, max: nat): Codes
    requires Loaded(t, h, max)
  {
    map x | x in h.symbols :: Code(h.counts, IndexOf(h.symbols, x))
  }

  lemma LoadedDecodes(t: Table, h: Huff, max: nat)
    requires Loaded(t, h, max)
    ensures Fits(t, max) && Decodes(t, CodesOf(t, h, max))
  {
    LoadedFits(t, h.counts, h.symbols, max);
    var codes := CodesOf(t, h, max);
    forall x, rest | x in codes ensures ReadSymbol(t, codes[x] + rest) == Some((x, rest)) {
      SymbolRoundTrip(t, h.counts, h.symbols, max, IndexOf(h.symbols, x), rest);
    }
  }

  // A block of a component.
  datatype Item = Item(component: nat, block: seq<int>)

  // The blocks can be written with these codes and predictions.
  ghost predicate HasScan(coders: seq<Coder>, pred: seq<int>, items: seq<Item>)
    decreases |items|
  {
    items == [] ||
    (var x := items[0];
     && x.component < |coders| && |pred| == |coders| && HasBlock(coders[x.component], pred[x.component], x.block)
     && HasScan(coders, pred[x.component := x.block[0]], items[1..]))
  }

  ghost function ScanBits(coders: seq<Coder>, pred: seq<int>, items: seq<Item>): Bits
    requires HasScan(coders, pred, items)
    decreases |items|
  {
    if items == [] then []
    else
      var x := items[0];
      BlockBits(coders[x.component], pred[x.component], x.block)
        + ScanBits(coders, pred[x.component := x.block[0]], items[1..])
  }

  ghost predicate Agree(tables: seq<Tables>, coders: seq<Coder>)
  {
    |tables| == |coders| &&
    forall i :: 0 <= i < |tables| ==>
      Decodes(tables[i].dc, coders[i].dc) && Decodes(tables[i].ac, coders[i].ac)
  }

  // Repeated `unpack_block`, for the components in order.
  function ReadScan(tables: seq<Tables>, pred: seq<int>, components: seq<nat>, b: Bits): Option<seq<seq<int>>>
    requires |pred| == |tables| && forall i :: 0 <= i < |tables| ==> Sized(tables[i].dc) && Sized(tables[i].ac)
    decreases |components|
  {
    if components == [] then Some([])
    else if components[0] >= |tables| then None
    else
      var c := components[0];
      match ReadBlock(tables[c], pred[c], b)
      case None => None
      case Some((block, b1)) =>
        match ReadScan(tables, pred[c := block[0]], components[1..], b1)
        case None => None
        case Some(blocks) => Some([block] + blocks)
  }

  function Prepend(blocks: seq<seq<int>>, r: Option<seq<seq<int>>>): Option<seq<seq<int>>>
  {
    match r case None => None case Some(q) => Some(blocks + q)
  }

  lemma PrependNone(r: Option<seq<seq<int>>>)
    ensures Prepend([], r) == r
  {
    if r.Some? { assert [] + r.value == r.value; }
  }

  lemma PrependTwice(blocks: seq<seq<int>>, block: seq<int>, r: Option<seq<seq<int>>>)
    ensures Prepend(blocks, Prepend([block], r)) == Prepend(blocks + [block], r)
  {
    if r.Some? { assert blocks + ([block] + r.value) == (blocks + [block]) + r.value; }
  }

  // The first block of a scan that can be read.
  lemma ScanFirst(tables: seq<Tables>, pred: seq<int>, components: seq<nat>, b: Bits)
    requires |pred| == |tables| && forall i :: 0 <= i < |tables| ==> Sized(tables[i].dc) && Sized(tables[i].ac)
    requires components != [] && ReadScan(tables, pred, components, b).Some?
    ensures var c := components[0];
      && c < |tables| && ReadBlock(tables[c], pred[c], b).Some?
      && var (block, rest) := ReadBlock(tables[c], pred[c], b).value;
         ReadScan(tables, pred, components, b)
           == Prepend([block], ReadScan(tables, pred[c := block[0]], components[1..], rest))
  {
  }

  ghost function ComponentsOf(items: seq<Item>): seq<nat>
  {
    seq(|items|, i requires 0 <= i < |items| => items[i].component)
  }

  ghost function BlocksOf(items: seq<Item>): seq<seq<int>>
  {
    seq(|items|, i requires 0 <= i < |items| => items[i].block)
  }

  lemma {:induction false} ScanBack(tables: seq<Tables>, coders: seq<Coder>, pred: seq<int>, items: seq<Item>,
                                    fill: Bits)
    requires Agree(tables, coders) && |pred| == |tables| && HasScan(coders, pred, items)
    ensures ReadScan(tables, pred, ComponentsOf(items), ScanBits(coders, pred, items) + fill) == Some(BlocksOf(items))
    decreases |items|
  {
    if items != [] {
      var x := items[0];
      var after := pred[x.component := x.block[0]];
      var b := ScanBits(coders, after, items[1..]);
      FirstBack(tables, coders, pred, items, b, fill);
      ScanBack(tables, coders, after, items[1..], fill);
      assert ComponentsOf(items)[1..] == ComponentsOf(items[1..]);
      assert BlocksOf(items) == [x.block] + BlocksOf(items[1..]);
    } else {
      assert BlocksOf(items) == [];
    }
  }

  lemma FirstBack(tables: seq<Tables>, coders: seq<Coder>, pred: seq<int>, items: seq<Item>, b: Bits, fill: Bits)
    requires Agree(tables, coders) && |pred| == |tables| && HasScan(coders, pred, items) && items != []
    requires var x := items[0]; b == ScanBits(coders, pred[x.component := x.block[0]], items[1..])
    ensures var x := items[0];
      ReadBlock(tables[x.component], pred[x.component], ScanBits(coders, pred, items) + fill)
        == Some((x.block, b + fill))
  {
    var x := items[0];
    var a := BlockBits(coders[x.component], pred[x.component], x.block);
    assert (a + b) + fill == a + (b + fill);
    BlockBack(tables[x.component], coders[x.component], pred[x.component], x.block, b + fill);
  }

  // The table segments of a component.
  datatype Segments = Segments(dc: Huff, ac: Huff)

  ghost predicate AllLoaded(tables: seq<Tables>, segments: seq<Segments>)
  {
    |tables| == |segments| &&
    forall i :: 0 <= i < |tables| ==>
      Loaded(tables[i].dc, segments[i].dc, 14) && Loaded(tables[i].ac, segments[i].ac, 162)
  }

  ghost function CodersOf(tables: seq<Tables>, segments: seq<Segments>): seq<Coder>
    requires AllLoaded(tables, segments)
  {
    seq(|tables|, i requires 0 <= i < |tables| =>
      Coder(CodesOf(tables[i].dc, segments[i].dc, 14), CodesOf(tables[i].ac, segments[i].ac, 162)))
  }

  /** For any loaded canonical tables, the blocks of a scan are recovered from its stuffed bytes. */
  lemma ScanRoundTrip(tables: seq<Tables>, segments: seq<Segments>, pred: seq<int>, items: seq<Item>)
    requires AllLoaded(tables, segments) && |pred| == |tables| && HasScan(CodersOf(tables, segments), pred, items)
    ensures
      var bytes := Stuff(ScanBits(CodersOf(tables, segments), pred, items));
      ReadScan(tables, pred, ComponentsOf(items), Unstuff(bytes)) == Some(BlocksOf(items))
  {
    AllDecode(tables, segments);
    StuffedBack(tables, CodersOf(tables, segments), pred, items);
  }

  lemma StuffedBack(tables: seq<Tables>, coders: seq<Coder>, pred: seq<int>, items: seq<Item>)
    requires Agree(tables, coders) && |pred| == |tables| && HasScan(coders, pred, items)
    ensures ReadScan(tables, pred, ComponentsOf(items), Unstuff(Stuff(ScanBits(coders, pred, items))))
      == Some(BlocksOf(items))
  {
    var b := ScanBits(coders, pred, items);
    UnstuffStuff(b);
    var fill := Unstuff(Stuff(b))[|b|..];
    assert Unstuff(Stuff(b)) == b + fill;
    ScanBack(tables, coders, pred, items, fill);
  }

  lemma AllDecode(tables: seq<Tables>, segments: seq<Segments>)
    requires AllLoaded(tables, segments)
    ensures Agree(tables, CodersOf(tables, segments))
  {
    var coders := CodersOf(tables, segments);
    forall i | 0 <= i < |tables| ensures Decodes(tables[i].dc, coders[i].dc) && Decodes(tables[i].ac, coders[i].ac) {
      LoadedDecodes(tables[i].dc, segments[i].dc, MAX_DC);
      LoadedDecodes(tables[i].ac, segments[i].ac, MAX_AC);
    }
  }

  /** The decoder recovers the blocks of a scan from its stuffed bytes. */
  method DecodeBytes(tables: seq<Tables>, bytes: seq<byte>, components: seq<nat>, ghost segments: seq<Segments>,
                     ghost items: seq<Item>)
    returns (blocks: seq<seq<int>>)
    requires AllLoaded(tables, segments) && HasScan(CodersOf(tables, segments), NoPrediction(|tables|), items)
    requires bytes == Stuff(ScanBits(CodersOf(tables, segments), NoPrediction(|tables|), items))
    requires components == ComponentsOf(items)
    ensures blocks == BlocksOf(items)
  {
    AllFit(tables, segments);
    ScanRoundTrip(tables, segments, NoPrediction(|tables|), items);
    var scan := new Scan(tables, bytes);
    assert scan.pred == NoPrediction(|tables|);
    blocks := scan.DecodeScan(components);
  }

  ghost function NoPrediction(n: nat): seq<int> { seq(n, _ => 0) }

  lemma AllFit(tables: seq<Tables>, segments: seq<Segments>)
    requires AllLoaded(tables, segments)
    ensures forall i :: 0 <= i < |tables| ==> Fits(tables[i].dc, MAX_DC) && Fits(tables[i].ac, MAX_AC)
  {
    forall i | 0 <= i < |tables| ensures Fits(tables[i].dc, MAX_DC) && Fits(tables[i].ac, MAX_AC) {
      LoadedDecodes(tables[i].dc, segments[i].dc, MAX_DC);
      LoadedDecodes(tables[i].ac, segments[i].ac, MAX_AC);
    }
  }
}
