/**
 The binary form of one event container: lib/decopus/trace/include/events/hwe_common.h,
 hwe_tools.h, hwe_info.h, hwe_inst.h and hwe_mem.h.
 */
module TraceCodec {
  import opened Common
  import opened CodecBytes

  // What a reader finds: not enough bytes yet, something it refuses, or a value and its size.
  datatype Read<T> = Need | Bad | Got(value: T, size: nat)

  // ---------------------------------------------------------------------------------------------
  // Bodies

  /** The body of a container, by its type.  Words keep the bit fields of the packed structures:
      in `Mem32.bits` bit 6 is `usedata`; in `Inst.flags` bit 5 is `jump` and bit 6 `regdata`. */
  datatype Body =
    | Null
    | Spread
    | Info(device: byte, name: Bytes, detail: Bytes)
    | MemGl(word: nat)
    | Mem32(bits: byte, width: byte, addr: nat, cpuWidth: byte, cpuAddr: nat, data: Bytes)
    | Ack(access: byte, width: byte, addr: nat)
    | Inst(pc: nat, flags: nat, regdst: nat, instr: nat, jumpPc: nat, regs: Bytes, regData: seq<nat>)
    | Excep(retPc: nat)
    | CpuMem(word: nat)
    | CpuIo(word: nat)

  // HWE_VERSION
  const VERSION := 259

  function TypeOf(b: Body): nat
  {
    match b
    case Null => 1
    case Info(_, _, _) => 2
    case Spread => 3
    case MemGl(_) => 4
    case Mem32(_, _, _, _, _, _) => 5
    case Ack(_, _, _) => 6
    case Inst(_, _, _, _, _, _, _) => 8
    case Excep(_) => 9
    case CpuMem(_) => 10
    case CpuIo(_) => 11
  }

  predicate UseData(flags: byte) { (flags / 64) % 2 == 1 }

  predicate Jumps(flags: nat) { (flags / 32) % 2 == 1 }

  predicate HasRegData(flags: nat) { (flags / 64) % 2 == 1 }

  // hwe_device_sizeof; other devices are refused
  predicate KnownDevice(device: byte) { device <= 4 }

  function DeviceSize(device: byte): nat
  {
    if device == 0 then 1 else if device == 1 then 9 else if device == 2 then 6 else 0
  }

  predicate Word(v: nat) { v < 0x1_0000_0000 }

  // What the fields of a container can hold: an instruction names at most 18 registers.
  ghost predicate ValidBody(b: Body)
  {
    match b
    case Null => true
    case Spread => true
    case Info(device, name, detail) => KnownDevice(device) && |name| <= 255 && |detail| == DeviceSize(device)
    case MemGl(word) => Word(word)
    case Mem32(flags, width, addr, cpuWidth, cpuAddr, data) => Word(addr) && Word(cpuAddr) && |data| == 256
    case Ack(access, width, addr) => Word(addr)
    case Inst(pc, flags, regdst, instr, jumpPc, regs, regData) =>
      && Word(pc) && Word(flags) && Word(regdst) && Word(instr) && Word(jumpPc)
      && |regs| <= 18 && |regData| == |regs| && forall i :: 0 <= i < |regData| ==> Word(regData[i])
    case Excep(retPc) => Word(retPc)
    case CpuMem(word) => Word(word)
    case CpuIo(word) => Word(word)
  }

  // The part of a body that the trace keeps.
  ghost function Kept(b: Body): Body
    requires ValidBody(b)
  {
    match b
    case Mem32(flags, width, addr, cpuWidth, cpuAddr, data) =>
      b.(data := if UseData(flags) then data[..width + 1] else [])
    case Inst(pc, flags, regdst, instr, jumpPc, regs, regData) =>
      b.(jumpPc := if Jumps(flags) then jumpPc else 0, regData := if HasRegData(flags) then regData else [])
    case _ => b
  }

  function BodySize(b: Body): nat
  {
    match b
    case Null => 0
    case Spread => 0
    case Info(device, name, _) => 4 + |name| + DeviceSize(device)
    case MemGl(_) => 4
    case Mem32(flags, width, _, _, _, _) => 11 + if UseData(flags) then 1 + width else 0
    case Ack(_, _, _) => 6
    case Inst(_, flags, _, _, _, regs, _) =>
      20 + |regs| + (if Jumps(flags) then 4 else 0) + if HasRegData(flags) then 4 * |regs| else 0
    case Excep(_) => 4
    case CpuMem(_) => 4
    case CpuIo(_) => 4
  }

  function Words(q: seq<nat>): seq<Bytes> { seq(|q|, i requires 0 <= i < |q| => Le(q[i], 4)) }

  // The fixed part of an instruction.
  function InstHead(pc: nat, flags: nat, n: nat, regdst: nat, instr: nat): (r: Bytes)
    ensures |r| == 20
  {
    Le(pc, 4) + Le(flags, 4) + Le(n, 4) + Le(regdst, 4) + Le(instr, 4)
  }

  function MemHead(flags: byte, width: byte, addr: nat, cpuWidth: byte, cpuAddr: nat): (r: Bytes)
    ensures |r| == 11
  {
    [flags, width] + Le(addr, 4) + [cpuWidth] + Le(cpuAddr, 4)
  }

  /** The bytes that `hwe_write` puts for a body; register data is put even when it is not kept. */
  function WriteBody(b: Body): Bytes
  {
    match b
    case Null => []
    case Spread => []
    case Info(device, name, detail) => Le(VERSION, 2) + [device] + [|name| % 256] + name + detail
    case MemGl(word) => Le(word, 4)
    case Mem32(flags, width, addr, cpuWidth, cpuAddr, data) =>
      MemHead(flags, width, addr, cpuWidth, cpuAddr)
        + if UseData(flags) && width < |data| then data[..width + 1] else []
    case Ack(access, width, addr) => [access, width] + Le(addr, 4)
    case Inst(pc, flags, regdst, instr, jumpPc, regs, regData) =>
      InstHead(pc, flags, |regs|, regdst, instr) + (if Jumps(flags) then Le(jumpPc, 4) else []) + regs
        + Joined(Words(regData))
    case Excep(retPc) => Le(retPc, 4)
    case CpuMem(word) => Le(word, 4)
    case CpuIo(word) => Le(word, 4)
  }

  // The types with a body of one word.
  function WordBody(kind: nat, v: nat): Body
  {
    if kind == 4 then MemGl(v) else if kind == 9 then Excep(v) else if kind == 10 then CpuMem(v) else CpuIo(v)
  }

  function ReadWord(kind: nat, b: Bytes): Read<Body>
  {
    if |b| < 4 then Need else Got(WordBody(kind, Num(b[..4])), 4)
  }

  function ReadInfo(b: Bytes): Read<Body>
  {
    if |b| < 4 then Need
    else if Num(b[..2]) != VERSION || !KnownDevice(b[2]) then Bad
    else
      var n, d: nat := b[3], DeviceSize(b[2]);
      if |b| < 4 + n + d then Need
      else Got(Info(b[2], Cut(b, 4, n), Cut(b, 4 + n, d)), 4 + n + d)
  }

  function ReadMem32(b: Bytes): Read<Body>
  {
    if |b| < 11 then Need
    else
      var n: nat := if UseData(b[0]) then 1 + b[1] as int else 0;
      if |b| < 11 + n then Need
      else Got(Mem32(b[0], b[1], Num(Cut(b, 2, 4)), b[6], Num(Cut(b, 7, 4)), Cut(b, 11, n)), 11 + n)
  }

  function ReadAck(b: Bytes): Read<Body>
  {
    if |b| < 6 then Need else Got(Ack(b[0], b[1], Num(Cut(b, 2, 4))), 6)
  }

  function Nums(p: seq<Bytes>): seq<nat> { seq(|p|, i requires 0 <= i < |p| => Num(p[i])) }

  // An instruction with `n` registers, a jump target of `j` bytes and data for `d` registers.
  function InstOf(b: Bytes, flags: nat, n: nat, j: nat, d: nat): Body
    requires |b| >= 20 + j + n + 4 * d
  {
    Inst(Num(Cut(b, 0, 4)), flags, Num(Cut(b, 12, 4)), Num(Cut(b, 16, 4)), Num(Cut(b, 20, j)), Cut(b, 20 + j, n),
         Nums(Pieces(Cut(b, 20 + j + n, 4 * d), 4, d)))
  }

  function ReadInst(b: Bytes): Read<Body>
  {
    if |b| < 20 then Need
    else
      var flags, n := Num(Cut(b, 4, 4)), Num(Cut(b, 8, 4));
      var j: nat := if Jumps(flags) then 4 else 0;
      var d := if HasRegData(flags) then n else 0;
      if |b| < 20 + n + 4 * d + j then Need else Got(InstOf(b, flags, n, j, d), 20 + n + 4 * d + j)
  }

  /** The `_read` function of a type; a body that is missing bytes reads as 0 bytes. */
  function ReadBody(kind: nat, b: Bytes): Read<Body>
  {
    if kind == 1 then Got(Null, 0)
    else if kind == 2 then ReadInfo(b)
    else if kind == 3 then Got(Spread, 0)
    else if kind == 5 then ReadMem32(b)
    else if kind == 6 then ReadAck(b)
    else if kind == 8 then ReadInst(b)
    else if kind == 4 || kind == 9 || kind == 10 || kind == 11 then ReadWord(kind, b)
    else Bad
  }

  // ---------------------------------------------------------------------------------------------
  // Bodies read back

  lemma WordBack(v: nat, b: Bytes)
    requires Word(v) && Le(v, 4) <= b
    ensures |b| >= 4 && Num(b[..4]) == v
  {
    Powers();
    NumLe(v, 4);
    assert b[..4] == Le(v, 4);
  }

  lemma AckBack(access: byte, width: byte, addr: nat, b: Bytes)
    requires Word(addr) && [access, width] + Le(addr, 4) <= b
    ensures ReadAck(b) == Got(Ack(access, width, addr), 6)
  {
    Powers();
    NumLe(addr, 4);
    assert Cut(b, 2, 4) == Le(addr, 4);
  }

  lemma {:induction false} Mem32Back(flags: byte, width: byte, addr: nat, cpuWidth: byte, cpuAddr: nat, data: Bytes,
                                     b: Bytes)
    requires Word(addr) && Word(cpuAddr) && |data| == if UseData(flags) then width + 1 else 0
    requires MemHead(flags, width, addr, cpuWidth, cpuAddr) + data <= b
    ensures ReadMem32(b) == Got(Mem32(flags, width, addr, cpuWidth, cpuAddr, data), 11 + |data|)
  {
    Powers();
    NumLe(addr, 4);
    NumLe(cpuAddr, 4);
    var w := MemHead(flags, width, addr, cpuWidth, cpuAddr) + data;
    assert w[0] == flags && w[1] == width && w[6] == cpuWidth;
    assert Cut(b, 2, 4) == Cut(w, 2, 4) == Le(addr, 4);
    assert Cut(b, 7, 4) == Cut(w, 7, 4) == Le(cpuAddr, 4);
    assert Cut(b, 11, |data|) == data;
  }

  lemma {:induction false} InfoBack(device: byte, name: Bytes, detail: Bytes, b: Bytes)
    requires KnownDevice(device) && |name| <= 255 && |detail| == DeviceSize(device)
    requires Le(VERSION, 2) + [device] + [|name| % 256] + name + detail <= b
    ensures ReadInfo(b) == Got(Info(device, name, detail), 4 + |name| + |detail|)
  {
    Powers();
    NumLe(VERSION, 2);
    var n, d := |name|, |detail|;
    assert b[..2] == Le(VERSION, 2);
    assert Cut(b, 4, n) == name;
    assert Cut(b, 4 + n, d) == detail;
  }

  lemma {:induction false} NumsWords(q: seq<nat>)
    requires forall i :: 0 <= i < |q| ==> Word(q[i])
    ensures AllSized(Words(q), 4) && Nums(Words(q)) == q && |Joined(Words(q))| == 4 * |q|
    ensures Nums(Pieces(Joined(Words(q)), 4, |q|)) == q
  {
    Powers();
    forall i | 0 <= i < |q| ensures Num(Words(q)[i]) == q[i] { NumLe(q[i], 4); }
    PiecesJoined(Words(q), 4);
  }

  lemma InstHeadBack(pc: nat, flags: nat, n: nat, regdst: nat, instr: nat, b: Bytes)
    requires Word(pc) && Word(flags) && Word(n) && Word(regdst) && Word(instr)
    requires InstHead(pc, flags, n, regdst, instr) <= b
    ensures |b| >= 20 && Num(Cut(b, 0, 4)) == pc && Num(Cut(b, 4, 4)) == flags && Num(Cut(b, 8, 4)) == n
    ensures Num(Cut(b, 12, 4)) == regdst && Num(Cut(b, 16, 4)) == instr
  {
    Powers();
    NumLe(pc, 4);
    NumLe(flags, 4);
    NumLe(n, 4);
    NumLe(regdst, 4);
    NumLe(instr, 4);
    FiveParts(Le(pc, 4), Le(flags, 4), Le(n, 4), Le(regdst, 4), Le(instr, 4), b);
  }

  lemma FiveParts(p: Bytes, q: Bytes, r: Bytes, s: Bytes, t: Bytes, b: Bytes)
    requires |p| == |q| == |r| == |s| == |t| == 4 && p + q + r + s + t <= b
    ensures |b| >= 20 && Cut(b, 0, 4) == p && Cut(b, 4, 4) == q && Cut(b, 8, 4) == r && Cut(b, 12, 4) == s
    ensures Cut(b, 16, 4) == t
  {
    var w := p + q + r + s + t;
    assert w[0..4] == p && w[4..8] == q && w[8..12] == r && w[12..16] == s && w[16..20] == t;
    assert Cut(b, 0, 4) == w[0..4] && Cut(b, 4, 4) == w[4..8] && Cut(b, 8, 4) == w[8..12];
    assert Cut(b, 12, 4) == w[12..16] && Cut(b, 16, 4) == w[16..20];
  }

  // The parts of an instruction after the fixed one.
  lemma InstRest(head: Bytes, jump: Bytes, regs: Bytes, data: Bytes, b: Bytes)
    requires head + jump + regs + data <= b
    ensures |head| + |jump| + |regs| + |data| <= |b|
    ensures Cut(b, |head|, |jump|) == jump && Cut(b, |head| + |jump|, |regs|) == regs
    ensures Cut(b, |head| + |jump| + |regs|, |data|) == data
  {
  }

  lemma HeadFirst(head: Bytes, jump: Bytes, regs: Bytes, data: Bytes, b: Bytes)
    requires head + jump + regs + data <= b
    ensures head <= b
  {
  }

  // The parts of an instruction at the start of `b`.
  lemma {:induction false} InstOfParts(head: Bytes, flags: nat, jump: Bytes, regs: Bytes, data: seq<nat>, b: Bytes)
    requires |head| == 20 && head + jump + regs + Joined(Words(data)) <= b
    requires forall i :: 0 <= i < |data| ==> Word(data[i])
    ensures 20 + |jump| + |regs| + 4 * |data| <= |b|
    ensures InstOf(b, flags, |regs|, |jump|, |data|)
         == Inst(Num(Cut(b, 0, 4)), flags, Num(Cut(b, 12, 4)), Num(Cut(b, 16, 4)), Num(jump), regs, data)
  {
    var p := Joined(Words(data));
    NumsWords(data);
    InstRest(head, jump, regs, p, b);
    InstOfCuts(flags, jump, regs, p, |data|, b);
  }

  lemma {:induction false} InstOfCuts(flags: nat, jump: Bytes, regs: Bytes, p: Bytes, d: nat, b: Bytes)
    requires |p| == 4 * d && 20 + |jump| + |regs| + |p| <= |b| && Cut(b, 20, |jump|) == jump
    requires Cut(b, 20 + |jump|, |regs|) == regs && Cut(b, 20 + |jump| + |regs|, |p|) == p
    ensures InstOf(b, flags, |regs|, |jump|, d)
         == Inst(Num(Cut(b, 0, 4)), flags, Num(Cut(b, 12, 4)), Num(Cut(b, 16, 4)), Num(jump), regs,
           Nums(Pieces(p, 4, d)))
  {
  }

  lemma {:induction false} InstOfBack(pc: nat, flags: nat, regdst: nat, instr: nat, jump: Bytes, regs: Bytes,
                                      data: seq<nat>, b: Bytes)
    requires Word(pc) && Word(flags) && Word(regdst) && Word(instr) && |regs| <= 18
    requires forall i :: 0 <= i < |data| ==> Word(data[i])
    requires InstHead(pc, flags, |regs|, regdst, instr) + jump + regs + Joined(Words(data)) <= b
    ensures 20 + |jump| + |regs| + 4 * |data| <= |b| && Num(Cut(b, 4, 4)) == flags && Num(Cut(b, 8, 4)) == |regs|
    ensures InstOf(b, flags, |regs|, |jump|, |data|) == Inst(pc, flags, regdst, instr, Num(jump), regs, data)
  {
    var head := InstHead(pc, flags, |regs|, regdst, instr);
    InstOfParts(head, flags, jump, regs, data, b);
    HeadFirst(head, jump, regs, Joined(Words(data)), b);
    InstHeadBack(pc, flags, |regs|, regdst, instr, b);
  }

  lemma {:induction false} InstBack(pc: nat, flags: nat, regdst: nat, instr: nat, jumpPc: nat, regs: Bytes,
                                    data: seq<nat>, b: Bytes)
    requires Word(pc) && Word(flags) && Word(regdst) && Word(instr) && Word(jumpPc) && |regs| <= 18
    requires (!Jumps(flags) ==> jumpPc == 0) && |data| == if HasRegData(flags) then |regs| else 0
    requires forall i :: 0 <= i < |data| ==> Word(data[i])
    requires InstHead(pc, flags, |regs|, regdst, instr) + (if Jumps(flags) then Le(jumpPc, 4) else []) + regs
      + Joined(Words(data)) <= b
    ensures ReadInst(b)
      == Got(Inst(pc, flags, regdst, instr, jumpPc, regs, data),
             20 + |regs| + 4 * |data| + if Jumps(flags) then 4 else 0)
  {
    var jump := if Jumps(flags) then Le(jumpPc, 4) else [];
    InstOfBack(pc, flags, regdst, instr, jump, regs, data, b);
    JumpBack(flags, jumpPc);
  }

  lemma JumpBack(flags: nat, jumpPc: nat)
    requires Word(jumpPc) && (!Jumps(flags) ==> jumpPc == 0)
    ensures Num(if Jumps(flags) then Le(jumpPc, 4) else []) == jumpPc
  {
    Powers();
    if Jumps(flags) { NumLe(jumpPc, 4); }
  }

  // The bytes of a body that stay in the file: `hwe_sizeof` counts no more.
  ghost function BodyImage(body: Body): (r: Bytes)
    requires ValidBody(body)
    ensures |r| == BodySize(body)
  {
    BodyFits(body);
    WriteBody(body)[..BodySize(body)]
  }

  lemma BodyFits(body: Body)
    requires ValidBody(body)
    ensures BodySize(body) <= |WriteBody(body)|
  {
    if body.Inst? { NumsWords(body.regData); }
  }

  // The bytes of an instruction that are kept.
  lemma {:induction false} InstImage(body: Body)
    requires ValidBody(body) && body.Inst?
    ensures var k := Kept(body);
      BodyImage(body) == InstHead(body.pc, body.flags, |body.regs|, body.regdst, body.instr)
                           + (if Jumps(body.flags) then Le(k.jumpPc, 4) else []) + body.regs + Joined(Words(k.regData))
  {
    NumsWords(body.regData);
    NumsWords(Kept(body).regData);
  }

  /** A body is read back from the bytes that are kept of it, whatever follows. */
  lemma {:induction false} BodyBack(body: Body, b: Bytes)
    requires ValidBody(body) && BodyImage(body) <= b
    ensures ReadBody(TypeOf(body), b) == Got(Kept(body), BodySize(body))
  {
    var w := WriteBody(body);
    assert !body.Inst? ==> BodyImage(body) == w;
    match body
    case Null =>
    case Spread =>
    case Info(device, name, detail) => InfoBack(device, name, detail, b);
    case MemGl(word) => WordBack(word, b);
    case Mem32(bits, width, addr, cpuWidth, cpuAddr, data) =>
      Mem32Back(bits, width, addr, cpuWidth, cpuAddr, Kept(body).data, b);
    case Ack(access, width, addr) => AckBack(access, width, addr, b);
    case Inst(pc, flags, regdst, instr, jumpPc, regs, regData) =>
      InstImage(body);
      InstBack(pc, flags, regdst, instr, Kept(body).jumpPc, regs, Kept(body).regData, b);
    case Excep(retPc) => WordBack(retPc, b);
    case CpuMem(word) => WordBack(word, b);
    case CpuIo(word) => WordBack(word, b);
  }

  // ---------------------------------------------------------------------------------------------
  // The packed structures, bit by bit

  // The first byte of `hwe_mem32_t`.
  function MemBits(access: nat, inst: nat, condfailed: nat, usedata: nat, rcvack: nat): byte
    requires access < 16 && inst < 2 && condfailed < 2 && usedata < 2 && rcvack < 2
  {
    access + 16 * inst + 32 * condfailed + 64 * usedata + 128 * rcvack
  }

  // The second word of `hwe_inst32_t`; `rest` holds the fields from `exec` on.
  function InstBits(width: nat, abort: nat, jump: nat, regdata: nat, rest: nat): nat
    requires width < 16 && abort < 2 && jump < 2 && regdata < 2
  {
    width + 16 * abort + 32 * jump + 64 * regdata + 128 * rest
  }

  /** A memory access is written and read with `width + 1` bytes of data exactly if its `usedata` bit is set, whatever
      its other bits are. */
  lemma {:induction false} MemLayout(access: nat, inst: nat, condfailed: nat, usedata: nat, rcvack: nat, width: byte,
                                     addr: nat, cpuWidth: byte, cpuAddr: nat, data: Bytes, more: Bytes)
    requires access < 16 && inst < 2 && condfailed < 2 && usedata < 2 && rcvack < 2
    requires Word(addr) && Word(cpuAddr) && |data| == 256
    ensures var bits := MemBits(access, inst, condfailed, usedata, rcvack);
      var body := Mem32(bits, width, addr, cpuWidth, cpuAddr, data);
      var kept := if usedata == 1 then data[..width + 1] else [];
      && WriteBody(body) == [bits, width] + Le(addr, 4) + [cpuWidth] + Le(cpuAddr, 4) + kept
      && ReadBody(5, WriteBody(body) + more) == Got(body.(data := kept), 11 + |kept|)
  {
    var bits := MemBits(access, inst, condfailed, usedata, rcvack);
    var body := Mem32(bits, width, addr, cpuWidth, cpuAddr, data);
    assert bits / 64 == usedata + 2 * rcvack;
    assert UseData(bits) <==> usedata == 1;
    BodyBack(body, WriteBody(body) + more);
  }

  /** An instruction keeps its jump target exactly if its `jump` bit is set, and the values of its registers exactly if
      its `regdata` bit is, whatever its other bits are. */
  lemma {:induction false} InstLayout(pc: nat, width: nat, abort: nat, jump: nat, regdata: nat, rest: nat, regdst: nat,
                                      instr: nat, jumpPc: nat, regs: Bytes, regData: seq<nat>, more: Bytes)
    requires width < 16 && abort < 2 && jump < 2 && regdata < 2 && rest < 0x200_0000
    requires Word(pc) && Word(regdst) && Word(instr) && Word(jumpPc)
    requires |regs| <= 18 && |regData| == |regs| && forall i :: 0 <= i < |regData| ==> Word(regData[i])
    ensures var flags := InstBits(width, abort, jump, regdata, rest);
      var body := Inst(pc, flags, regdst, instr, jumpPc, regs, regData);
      && ValidBody(body)
      && BodyImage(body)
         == Le(pc, 4) + Le(flags, 4) + Le(|regs|, 4) + Le(regdst, 4) + Le(instr, 4)
            + (if jump == 1 then Le(jumpPc, 4) else []) + regs
            + Joined(Words(if regdata == 1 then regData else []))
      && ReadBody(8, BodyImage(body) + more)
         == Got(Inst(pc, flags, regdst, instr, if jump == 1 then jumpPc else 0, regs,
                     if regdata == 1 then regData else []),
                20 + |regs| + (if jump == 1 then 4 else 0) + if regdata == 1 then 4 * |regs| else 0)
  {
    var flags := InstBits(width, abort, jump, regdata, rest);
    InstBitsBack(width, abort, jump, regdata, rest);
    InstKept(Inst(pc, flags, regdst, instr, jumpPc, regs, regData), jump == 1, regdata == 1, more);
  }

  lemma {:induction false} InstKept(body: Body, jump: bool, regdata: bool, more: Bytes)
    requires ValidBody(body) && body.Inst? && Jumps(body.flags) == jump && HasRegData(body.flags) == regdata
    ensures BodyImage(body)
         == InstHead(body.pc, body.flags, |body.regs|, body.regdst, body.instr)
            + (if jump then Le(body.jumpPc, 4) else []) + body.regs
            + Joined(Words(if regdata then body.regData else []))
    ensures ReadBody(8, BodyImage(body) + more)
         == Got(Inst(body.pc, body.flags, body.regdst, body.instr, if jump then body.jumpPc else 0, body.regs,
                     if regdata then body.regData else []),
                20 + |body.regs| + (if jump then 4 else 0) + if regdata then 4 * |body.regs| else 0)
  {
    InstImage(body);
    BodyBack(body, BodyImage(body) + more);
  }

  lemma InstBitsBack(width: nat, abort: nat, jump: nat, regdata: nat, rest: nat)
    requires width < 16 && abort < 2 && jump < 2 && regdata < 2
    ensures var flags := InstBits(width, abort, jump, regdata, rest);
      (Jumps(flags) <==> jump == 1) && (HasRegData(flags) <==> regdata == 1)
  {
    var flags := InstBits(width, abort, jump, regdata, rest);
    assert flags / 32 == jump + 2 * (regdata + 2 * rest);
    assert flags / 64 == regdata + 2 * rest;
  }

  /** A description starts with version 1.3, a device and the size of its name; a reader takes the five devices with
      details of 1, 9, 6, 0 and 0 bytes, and refuses every other device and version. */
  lemma {:induction false} InfoLayout(device: byte, name: Bytes, detail: Bytes, more: Bytes)
    requires |name| <= 255
    ensures device < 5 && |detail| == [1, 9, 6, 0, 0][device] ==>
      && WriteBody(Info(device, name, detail)) == [3, 1, device, |name|] + name + detail
      && ReadBody(2, [3, 1, device, |name|] + name + detail + more)
         == Got(Info(device, name, detail), 4 + |name| + |detail|)
    ensures forall minor: byte, major: byte ::
      minor != 3 || major != 1 || device > 4 ==> ReadBody(2, [minor, major, device, |name|] + more) == Bad
  {
    VersionBytes();
    if device < 5 && |detail| == [1, 9, 6, 0, 0][device] {
      assert KnownDevice(device) && |detail| == DeviceSize(device);
      var body := Info(device, name, detail);
      assert WriteBody(body) == [3, 1, device, |name|] + name + detail;
      BodyBack(body, WriteBody(body) + more);
    }
    forall minor: byte, major: byte | minor != 3 || major != 1 || device > 4
      ensures ReadBody(2, [minor, major, device, |name|] + more) == Bad
    {
      var b := [minor, major, device, |name|] + more;
      assert b[..2] == [minor, major];
      assert [minor, major][1..] == [major] && Num([major]) == major;
    }
  }

  lemma VersionBytes()
    ensures Le(VERSION, 2) == [3, 1]
  {
    assert Le(1, 1) == [1];
  }

  lemma InfoNeeds(device: byte, name: Bytes, detail: Bytes, n: nat)
    requires KnownDevice(device) && |name| <= 255 && |detail| == DeviceSize(device) && n < 4 + |name| + |detail|
    ensures ReadInfo((Le(VERSION, 2) + [device] + [|name| % 256] + name + detail)[..n]) == Need
  {
    Powers();
    NumLe(VERSION, 2);
    var b := (Le(VERSION, 2) + [device] + [|name| % 256] + name + detail)[..n];
    if n >= 4 { assert b[..2] == Le(VERSION, 2); }
  }

  lemma {:induction false} InstNeeds(body: Body, n: nat)
    requires ValidBody(body) && body.Inst? && n < BodySize(body)
    ensures ReadInst(BodyImage(body)[..n]) == Need
  {
    InstImage(body);
    if n >= 20 {
      var head := InstHead(body.pc, body.flags, |body.regs|, body.regdst, body.instr);
      assert head <= BodyImage(body)[..n];
      InstHeadBack(body.pc, body.flags, |body.regs|, body.regdst, body.instr, BodyImage(body)[..n]);
    }
  }

  /** A body that is cut off is not read. */
  lemma {:induction false} BodyNeeds(body: Body, n: nat)
    requires ValidBody(body) && n < BodySize(body)
    ensures ReadBody(TypeOf(body), BodyImage(body)[..n]) == Need
  {
    assert !body.Inst? ==> BodyImage(body) == WriteBody(body);
    match body
    case Info(device, name, detail) => InfoNeeds(device, name, detail, n);
    case Inst(_, _, _, _, _, _, _) => InstNeeds(body, n);
    case _ =>
  }
}
