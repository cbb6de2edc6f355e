/**
 The banked registers of tool/sherlock/src/core/core_cpu.c: `cpu_exec`, `cpu_bank` and
 `switch_mode`, against the registers of each processor mode in section B1.3.2 of the ARM
 Architecture Reference Manual, ARMv7-A and ARMv7-R edition.
 */
module BankedRegisters {
  import opened Common

  const MODE_USR := 0x10
  const MODE_FIQ := 0x11
  const MODE_IRQ := 0x12
  const MODE_SVC := 0x13
  const MODE_ABT := 0x17
  const MODE_UND := 0x1b
  const MODE_SYS := 0x1f

  predicate ValidMode(m: nat) { m in {MODE_USR, MODE_FIQ, MODE_IRQ, MODE_SVC, MODE_ABT, MODE_UND, MODE_SYS} }

  // `value & CPSR_MODE`
  function ModeOf(cpsr: nat): nat { cpsr % 32 }

  // `cpu_bank`
  function Bank(mode: nat): (b: nat)
    ensures ValidMode(mode) ==> b < 6
  {
    if mode == MODE_SVC then 1
    else if mode == MODE_ABT then 2
    else if mode == MODE_UND then 3
    else if mode == MODE_IRQ then 4
    else if mode == MODE_FIQ then 5
    else 0
  }

  // `id & USER_REGS`, for an id that is none of those tested before; `id & FIQ_MODE`; `id & 0x0F`
  predicate IsUser(id: nat) { id >= 16 && id != REGID_CPSR && id != REGID_SPSR && id / 16 % 2 == 1 }
  predicate FiqFlag(id: nat) { id / 32 % 2 == 1 }
  function UserReg(id: nat): nat { id % 16 }

  // ---------------------------------------------------------------------------------------------
  // The architecture

  // The physical registers: one for all modes, one for FIQ and one for the others, one per bank.
  datatype Phys = Shared(n: nat) | Fiq(n: nat, fiq: bool) | Banked(n: nat, bank: nat) | Spsr(bank: nat)

  // The register `rn` of a mode.
  function Reg(mode: nat, n: nat): Phys
  {
    if 8 <= n <= 12 then Fiq(n, mode == MODE_FIQ)
    else if n == 13 || n == 14 then Banked(n, Bank(mode))
    else Shared(n)
  }

  datatype Arch = Arch(regs: map<Phys, nat>, cpsr: nat)

  ghost function Get(a: Arch, p: Phys): nat { if p in a.regs then a.regs[p] else 0 }

  // One write: a register of the current mode, the mode, or a register of user mode.
  ghost function ArchStep(a: Arch, w: Write): Arch
  {
    if w.id < 16 then a.(regs := a.regs[Reg(ModeOf(a.cpsr), w.id) := w.value])
    else if w.id == REGID_CPSR then a.(cpsr := w.value)
    else if w.id == REGID_SPSR then a.(regs := a.regs[Spsr(Bank(ModeOf(a.cpsr))) := w.value])
    else if IsUser(w.id) then a.(regs := a.regs[Reg(MODE_USR, UserReg(w.id)) := w.value])
    else a
  }

  ghost function ArchRun(a: Arch, q: seq<Write>, n: nat): Arch
    requires n <= |q|
  {
    if n == 0 then a else ArchStep(ArchRun(a, q, n - 1), q[n - 1])
  }

  // Every mode has its own stack pointer and link register, but user and system mode share theirs;
  // only FIQ mode has its own r8 to r12.
  predicate Shares(a: nat, b: nat, n: nat)
  {
    || a == b || n < 8 || n == 15 || (n <= 12 && a != MODE_FIQ && b != MODE_FIQ)
    || (a in {MODE_USR, MODE_SYS} && b in {MODE_USR, MODE_SYS})
  }

  lemma ModesShare(a: nat, b: nat, n: nat)
    requires ValidMode(a) && ValidMode(b) && n < 16
    ensures Reg(a, n) == Reg(b, n) <==> Shares(a, b, n)
  {
  }

  // ---------------------------------------------------------------------------------------------
  // The writes of the program

  // The write indexes no array out of its bounds: the banks by an unknown mode, or r8 to r12 by r15.
  predicate Defined(w: Write)
  {
    && (w.id == REGID_CPSR ==> ValidMode(ModeOf(w.value)))
    && !(IsUser(w.id) && FiqFlag(w.id) && UserReg(w.id) == 15)
  }

  // The place a user register is written to is where the register is.
  predicate Reaches(mode: nat, id: nat)
  {
    var n := UserReg(id);
    if n == 13 || n == 14 then Bank(mode) != 0 else 8 <= n <= 12 ==> (FiqFlag(id) <==> mode == MODE_FIQ)
  }

  // What a write does: one to a user register may get lost, or change the register of FIQ mode instead.
  ghost function Exec(a: Arch, w: Write): Arch
  {
    if !IsUser(w.id) || Reaches(ModeOf(a.cpsr), w.id) then ArchStep(a, w)
    else if 8 <= UserReg(w.id) <= 12 && !FiqFlag(w.id) then a.(regs := a.regs[Fiq(UserReg(w.id), true) := w.value])
    else a
  }

  ghost function ExecRun(a: Arch, q: seq<Write>, n: nat): Arch
    requires n <= |q|
  {
    if n == 0 then a else Exec(ExecRun(a, q, n - 1), q[n - 1])
  }

  // The same registers.
  ghost predicate Same(a: Arch, b: Arch) { a.cpsr == b.cpsr && forall p :: Get(a, p) == Get(b, p) }

  /** A write to a user register does what the architecture does if and only if it is made to the place of the
      register, or the values are there already: in user and system mode one to r13 or r14 is lost, and one to
      r8 to r12 needs the flag exactly in FIQ mode. */
  lemma UserWriteIff(a: Arch, w: Write)
    requires IsUser(w.id) && Defined(w)
    ensures var n, mode := UserReg(w.id), ModeOf(a.cpsr);
      Same(Exec(a, w), ArchStep(a, w)) <==>
        Reaches(mode, w.id)
        || (Get(a, Reg(MODE_USR, n)) == w.value && (n <= 12 && mode == MODE_FIQ ==> Get(a, Fiq(n, true)) == w.value))
  {
    var n, mode := UserReg(w.id), ModeOf(a.cpsr);
    var x, y, p, f := Exec(a, w), ArchStep(a, w), Reg(MODE_USR, n), Fiq(n, true);
    if !Reaches(mode, w.id) {
      assert Get(y, p) == w.value && Get(x, p) == Get(a, p);
      assert Get(y, f) == Get(a, f);
      assert n <= 12 && mode == MODE_FIQ ==> Get(x, f) == w.value;
    }
  }

  /** In user mode the write of the user stack pointer is lost. */
  lemma UserStackLost(v: nat)
    requires v != 0
    ensures var a := Arch(map[], MODE_USR);
      Exec(a, Write(0x1D, v)) == a && !Same(Exec(a, Write(0x1D, v)), ArchStep(a, Write(0x1D, v)))
  {
    var a := Arch(map[], MODE_USR);
    UserWriteIff(a, Write(0x1D, v));
    assert !Reaches(MODE_USR, 0x1D);
  }

  /** Where every write to a user register reaches its register, the run is that of the architecture. */
  lemma {:induction false} ReachingRun(a: Arch, q: seq<Write>, n: nat)
    requires n <= |q|
    requires forall i :: 0 <= i < n && IsUser(q[i].id) ==> Reaches(ModeOf(ArchRun(a, q, i).cpsr), q[i].id)
    ensures ExecRun(a, q, n) == ArchRun(a, q, n)
  {
    if n > 0 {
      ReachingRun(a, q, n - 1);
    }
  }

  // A write in another mode and back.
  lemma VisitRun(a: Arch, q: seq<Write>, value: nat, n: nat, v: nat, back: nat)
    requires q == [Write(REGID_CPSR, value), Write(n, v), Write(REGID_CPSR, back)] && n < 16
    ensures ExecRun(a, q, 3) == Arch(a.regs[Reg(ModeOf(value), n) := v], back)
  {
    assert ExecRun(a, q, 1) == a.(cpsr := value);
    assert ExecRun(a, q, 2) == Arch(a.regs[Reg(ModeOf(value), n) := v], value);
  }

  // A CPSR of mode `mode`, whatever its other bits are.
  function CpsrOf(mode: nat, others: nat): nat { 32 * others + mode }

  /** Writing a CPSR whose low five bits are the number of a mode, and then a register: the register of that mode gets
      the value, and no other register changes, whatever the other bits are and whatever the mode was. */
  lemma {:induction false} ModeRun(a: Arch, mode: nat, others: nat, n: nat, v: nat)
    requires mode in {0x10, 0x11, 0x12, 0x13, 0x17, 0x1b, 0x1f} && n < 16
    ensures var q := [Write(0xFF, CpsrOf(mode, others)), Write(n, v)];
      && Defined(q[0]) && Defined(q[1])
      && ExecRun(a, q, 1) == Arch(a.regs, CpsrOf(mode, others))
      && ExecRun(a, q, 2) == Arch(a.regs[Reg(mode, n) := v], CpsrOf(mode, others))
  {
    var q := [Write(0xFF, CpsrOf(mode, others)), Write(n, v)];
    assert ExecRun(a, q, 0) == a;
    assert ModeOf(CpsrOf(mode, others)) == mode;
  }

  /** The ids of user registers: bit 4 is set, the low four bits are the number of the register, bit 5 says FIQ mode,
      and the two highest ids are the CPSR and the SPSR. */
  lemma {:induction false} UserIds(a: Arch, n: nat, fiq: bool, high: nat, v: nat)
    requires n < 16 && high < 4
    ensures var id := 64 * high + (if fiq then 32 else 0) + 16 + n;
      id != 0xFF && id != 0xFE ==>
        && ArchStep(a, Write(id, v)).regs == a.regs[Reg(0x10, n) := v]
        && (FiqFlag(id) <==> fiq) && (Defined(Write(id, v)) <==> !(fiq && n == 15))
    ensures var id := 64 * high + (if fiq then 32 else 0) + n;
      id >= 16 ==> ArchStep(a, Write(id, v)) == a
  {
    var id := 64 * high + (if fiq then 32 else 0) + 16 + n;
    assert id / 16 == 4 * high + (if fiq then 2 else 0) + 1 && id / 32 == 2 * high + (if fiq then 1 else 0);
    assert (id - 16) / 16 == 4 * high + (if fiq then 2 else 0);
  }

  // ---------------------------------------------------------------------------------------------
  // The processor

  // cpu_t
  class Cpu {
    var regs: seq<nat>
    var cpsr: nat
    var spsr: nat
    var bankedSpsr: seq<nat>
    var bankedR13: seq<nat>
    var bankedR14: seq<nat>
    var usrRegs: seq<nat>
    var fiqRegs: seq<nat>

    ghost predicate Valid()
      reads this
    {
      Sized() && ValidMode(ModeOf(cpsr))
    }

    // The physical registers that exist.
    static ghost predicate Exists(p: Phys)
    {
      match p
      case Shared(n) => n < 8 || n == 15
      case Fiq(n, _) => 8 <= n <= 12
      case Banked(n, b) => (n == 13 || n == 14) && b < 6
      case Spsr(b) => b < 6
    }

    // Where the value of a physical register is.
    ghost function Val(p: Phys): nat
      requires Valid() && Exists(p)
      reads this
    {
      Placed(p, ModeOf(cpsr))
    }

    /** The processor stands for `a`: every register of every mode has its value. */
    ghost predicate Refines(a: Arch)
      reads this
    {
      Valid() && cpsr == a.cpsr && forall p :: Exists(p) ==> Val(p) == Get(a, p)
    }

    constructor ()
      ensures Refines(Arch(map[], 0x400001D3))
    {
      regs, cpsr, spsr := seq(16, _ => 0), 0x400001D3, 0;
      bankedSpsr, bankedR13, bankedR14 := seq(6, _ => 0), seq(6, _ => 0), seq(6, _ => 0);
      usrRegs, fiqRegs := seq(5, _ => 0), seq(5, _ => 0);
    }

    ghost predicate Sized()
      reads this
    {
      |regs| == 16 && |bankedSpsr| == 6 && |bankedR13| == 6 && |bankedR14| == 6 && |usrRegs| == 5 && |fiqRegs| == 5
    }

    /** `switch_mode` */
    method SwitchMode(mode: nat)
      requires Valid() && ValidMode(mode)
      modifies this
      ensures cpsr == old(cpsr) && Sized()
      ensures forall p :: Exists(p) ==> old(Val(p)) == Placed(p, mode)
    {
      var oldMode := ModeOf(cpsr);
      if mode == oldMode {
        return;
      }
      SwapFiq(oldMode, mode);
      ghost var r, u, f := regs, usrRegs, fiqRegs;
      SwapBanks(oldMode, mode);
      forall p | Exists(p) ensures old(Val(p)) == Placed(p, mode) {
        match p
        case Shared(n) => assert regs[n] == r[n] == old(regs[n]);
        case Fiq(n, fiq) => assert regs[n] == r[n] && usrRegs[n - 8] == u[n - 8] && fiqRegs[n - 8] == f[n - 8];
        case Banked(n, b) => assert r[n] == old(regs[n]);
        case Spsr(b) => assert bankedSpsr[b] == if b == Bank(oldMode) then old(spsr) else old(bankedSpsr[b]);
      }
    }

    // r13, r14 and the SPSR.
    method SwapBanks(oldMode: nat, mode: nat)
      requires Sized() && ValidMode(mode) && ValidMode(oldMode)
      modifies this`regs, this`spsr, this`bankedR13, this`bankedR14, this`bankedSpsr
      ensures Sized() && forall n :: 0 <= n < 16 && n != 13 && n != 14 ==> regs[n] == old(regs[n])
      ensures forall b :: 0 <= b < 6 ==>
        && bankedR13[b] == (if b == Bank(oldMode) then old(regs[13]) else old(bankedR13[b]))
        && bankedR14[b] == (if b == Bank(oldMode) then old(regs[14]) else old(bankedR14[b]))
        && bankedSpsr[b] == (if b == Bank(oldMode) then old(spsr) else old(bankedSpsr[b]))
      ensures regs[13] == bankedR13[Bank(mode)] && regs[14] == bankedR14[Bank(mode)] && spsr == bankedSpsr[Bank(mode)]
    {
      var bank := Bank(oldMode);
      bankedR13 := bankedR13[bank := regs[13]];
      bankedR14 := bankedR14[bank := regs[14]];
      bankedSpsr := bankedSpsr[bank := spsr];
      bank := Bank(mode);
      regs := regs[13 := bankedR13[bank]];
      regs := regs[14 := bankedR14[bank]];
      spsr := bankedSpsr[bank];
    }

    // r8 to r12, when FIQ mode is left or entered.
    method SwapFiq(oldMode: nat, mode: nat)
      requires |regs| == 16 && |usrRegs| == 5 && |fiqRegs| == 5 && mode != oldMode
      modifies this`regs, this`usrRegs, this`fiqRegs
      ensures |regs| == 16 && |usrRegs| == 5 && |fiqRegs| == 5
      ensures forall n :: 0 <= n < 16 && !(8 <= n <= 12) ==> regs[n] == old(regs[n])
      ensures forall n :: 8 <= n <= 12 ==>
        && regs[n] == (if oldMode == MODE_FIQ then old(usrRegs[n - 8])
                        else if mode == MODE_FIQ then old(fiqRegs[n - 8])
                        else old(regs[n]))
        && fiqRegs[n - 8] == (if oldMode == MODE_FIQ then old(regs[n]) else old(fiqRegs[n - 8]))
        && usrRegs[n - 8] == (if oldMode != MODE_FIQ && mode == MODE_FIQ then old(regs[n]) else old(usrRegs[n - 8]))
    {
      if oldMode == MODE_FIQ {
        fiqRegs := regs[8..13];
        regs := regs[..8] + usrRegs + regs[13..];
      } else if mode == MODE_FIQ {
        usrRegs := regs[8..13];
        regs := regs[..8] + fiqRegs + regs[13..];
      }
    }

    // Where the value of a physical register is, for a processor in `mode`.
    ghost function Placed(p: Phys, mode: nat): nat
      requires Sized() && Exists(p)
      reads this
    {
      match p
      case Shared(n) => regs[n]
      case Fiq(n, fiq) => if fiq == (mode == MODE_FIQ) then regs[n] else if fiq then fiqRegs[n - 8] else usrRegs[n - 8]
      case Banked(n, b) => if b == Bank(mode) then regs[n] else if n == 13 then bankedR13[b] else bankedR14[b]
      case Spsr(b) => if b == Bank(mode) then spsr else bankedSpsr[b]
    }

    // One write of `cpu_exec` to a register of the current mode or to the SPSR.
    method WriteValue(w: Write, ghost a: Arch)
      requires Refines(a) && (w.id < 16 || w.id == REGID_SPSR)
      modifies this`regs, this`spsr
      ensures Refines(ArchStep(a, w))
    {
      if w.id < 16 {
        regs := regs[w.id := w.value];
      } else {
        spsr := w.value;
      }
      forall p | Exists(p) ensures Val(p) == Get(ArchStep(a, w), p) {
        assert old(Val(p)) == Get(a, p);
      }
    }

    // One write of `cpu_exec` to the CPSR.
    method WriteCpsr(w: Write, ghost a: Arch)
      requires Refines(a) && w.id == REGID_CPSR && ValidMode(ModeOf(w.value))
      modifies this
      ensures Refines(ArchStep(a, w))
    {
      SwitchMode(ModeOf(w.value));
      cpsr := w.value;
      forall p | Exists(p) ensures Val(p) == Get(a, p) {
        assert old(Val(p)) == Get(a, p);
      }
    }

    /** One write of `cpu_exec` to a register of user mode. */
    method WriteUser(w: Write, ghost a: Arch)
      requires Refines(a) && IsUser(w.id) && Defined(w)
      modifies this`regs, this`usrRegs, this`bankedR13, this`bankedR14
      ensures Refines(Exec(a, w))
    {
      var n := UserReg(w.id);
      if n == 13 {
        bankedR13 := bankedR13[0 := w.value];
      } else if n == 14 {
        bankedR14 := bankedR14[0 := w.value];
      } else if n >= 8 && FiqFlag(w.id) {
        usrRegs := usrRegs[n - 8 := w.value];
      } else {
        regs := regs[n := w.value];
      }
      forall p | Exists(p) ensures Val(p) == Get(Exec(a, w), p) {
        assert old(Val(p)) == Get(a, p);
      }
    }

    /** `cpu_exec`: after any run of writes, up to one that leaves the arrays, every register of every mode has the
        value the writes give it. */
    method CpuExec(q: seq<Write>, ghost a: Arch) returns (n: nat)
      requires Refines(a)
      modifies this
      ensures n <= |q| && (n < |q| ==> !Defined(q[n])) && forall i :: 0 <= i < n ==> Defined(q[i])
      ensures Refines(ExecRun(a, q, n))
      ensures (forall i :: 0 <= i < n && IsUser(q[i].id) ==> Reaches(ModeOf(ArchRun(a, q, i).cpsr), q[i].id))
          ==> Refines(ArchRun(a, q, n))
    {
      n := 0;
      while n < |q| && Defined(q[n])
        invariant n <= |q| && Refines(ExecRun(a, q, n)) && forall i :: 0 <= i < n ==> Defined(q[i])
      {
        ghost var b := ExecRun(a, q, n);
        if q[n].id < 16 || q[n].id == REGID_SPSR {
          WriteValue(q[n], b);
        } else if q[n].id == REGID_CPSR {
          WriteCpsr(q[n], b);
        } else if IsUser(q[n].id) {
          WriteUser(q[n], b);
        }
        n := n + 1;
      }
      if forall i :: 0 <= i < n && IsUser(q[i].id) ==> Reaches(ModeOf(ArchRun(a, q, i).cpsr), q[i].id) {
        ReachingRun(a, q, n);
      }
    }

    /** A processor that writes a CPSR with the number of a mode in its low five bits has all sixteen registers and the
        SPSR of that mode before it, whatever the other bits are. */
    method EnterMode(mode: nat, others: nat, ghost a: Arch)
      requires Refines(a) && mode in {0x10, 0x11, 0x12, 0x13, 0x17, 0x1b, 0x1f}
      modifies this
      ensures Refines(Arch(a.regs, 32 * others + mode))
      ensures forall i :: 0 <= i < 16 ==> regs[i] == Get(a, Reg(mode, i))
      ensures spsr == Get(a, Spsr(Bank(mode)))
    {
      var q := [Write(0xFF, CpsrOf(mode, others))];
      ghost var both := [Write(0xFF, CpsrOf(mode, others)), Write(0, 0)];
      ModeRun(a, mode, others, 0, 0);
      assert ExecRun(a, q, 0) == ExecRun(a, both, 0) == a;
      var done := CpuExec(q, a);
      assert ModeOf(32 * others + mode) == mode;
      forall i | 0 <= i < 16 ensures regs[i] == Get(a, Reg(mode, i)) {
        assert Exists(Reg(mode, i)) && regs[i] == Val(Reg(mode, i));
      }
      assert Exists(Spsr(Bank(mode))) && spsr == Val(Spsr(Bank(mode)));
    }

    /** A write of register `n` in another mode and back: this mode sees it in its own register `n` if and only if the
        two modes share that register, and in no other one. */
    method VisitMode(value: nat, n: nat, v: nat, ghost a: Arch)
      requires Refines(a) && ValidMode(ModeOf(value)) && n < 16
      modifies this
      ensures Valid() && cpsr == old(cpsr)
      ensures forall i :: 0 <= i < 16 ==>
        regs[i] == if i == n && Shares(ModeOf(cpsr), ModeOf(value), n) then v else old(regs[i])
    {
      var q := [Write(REGID_CPSR, value), Write(n, v), Write(REGID_CPSR, cpsr)];
      ghost var mode, back := ModeOf(cpsr), cpsr;
      forall i | 0 <= i < 16 ensures regs[i] == Get(a, Reg(mode, i)) {
        assert Exists(Reg(mode, i)) && regs[i] == Val(Reg(mode, i));
      }
      var done := CpuExec(q, a);
      ghost var b := ExecRun(a, q, 3);
      VisitRun(a, q, value, n, v, back);
      forall i | 0 <= i < 16 ensures regs[i] == if i == n && Shares(mode, ModeOf(value), n) then v else old(regs[i]) {
        assert Exists(Reg(mode, i)) && regs[i] == Val(Reg(mode, i));
        ModesShare(mode, ModeOf(value), i);
      }
    }
  }
}
