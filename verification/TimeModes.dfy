/**
 What an instruction does to the registers while it is recorded: `cpu_exec` and `switch_mode` of
 tool/sherlock/src/core/core_cpu.c on registers with links, and the entries that
 `delorean_pg_exec_cpu` of tool/sherlock/src/delorean/delorean_main.c makes afterwards.

 `delorean_pg_exec_cpu` runs when `cpu_exec` has already stored the new CPSR, so its own
 `dl_switch_mode` finds the mode unchanged and records nothing of the switch.  Only an instruction
 that writes two different modes gets further, and then uses a null pointer or one into memory
 that was given to `realloc`.
 */
module TimeModes {
  import opened Common
  import opened TimeTravel
  import Banks = BankedRegisters

  // The places of the banked registers of a processor: banked_r13, banked_r14 and banked_spsr with the bank, and
  // usr_regs and fiq_regs with the number of the register.
  const R13_AT := 0x100
  const R14_AT := 0x110
  const SPSR_AT := 0x120
  const USR_AT := 0x130
  const FIQ_AT := 0x140

  // The register that a place is for, where its link matters.
  function RegisterOf(id: nat): nat
  {
    if SPSR_AT <= id < SPSR_AT + 6 then REGID_SPSR
    else if USR_AT + 8 <= id <= USR_AT + 12 then id - USR_AT
    else if FIQ_AT + 8 <= id <= FIQ_AT + 12 then id - FIQ_AT
    else id
  }

  ghost predicate PlaceOf(cpus: nat, k: Key) { k.cpu < cpus && Tracked(RegisterOf(k.id)) }

  // Every register leads to a node that wrote it.
  ghost predicate SourcedAt(nodes: seq<Node>, regs: Regs, k: Key)
  {
    Leads(nodes, At(regs, k).lastWrite, Key(k.cpu, RegisterOf(k.id)))
  }

  ghost predicate Sourced(nodes: seq<Node>, cpus: nat, regs: Regs)
  {
    forall k :: PlaceOf(cpus, k) ==> SourcedAt(nodes, regs, k)
  }

  function ModeIn(regs: Regs, cpu: nat): nat { Banks.ModeOf(At(regs, Key(cpu, REGID_CPSR)).data) }

  // ---------------------------------------------------------------------------------------------
  // `switch_mode`

  // memcpy of `n` registers
  function Copy(regs: Regs, cpu: nat, to: nat, from: nat, n: nat): Regs
  {
    if n == 0 then regs
    else
      var r := Copy(regs, cpu, to, from, n - 1);
      r[Key(cpu, to + n - 1) := At(r, Key(cpu, from + n - 1))]
  }

  // The value of one register, without its link.
  function CopyData(regs: Regs, cpu: nat, to: nat, from: nat): Regs
  {
    regs[Key(cpu, to) := At(regs, Key(cpu, to)).(data := At(regs, Key(cpu, from)).data)]
  }

  function SwapFiq(regs: Regs, cpu: nat, was: nat, mode: nat): Regs
  {
    if was == Banks.MODE_FIQ then Copy(Copy(regs, cpu, FIQ_AT + 8, 8, 5), cpu, 8, USR_AT + 8, 5)
    else if mode == Banks.MODE_FIQ then Copy(Copy(regs, cpu, USR_AT + 8, 8, 5), cpu, 8, FIQ_AT + 8, 5)
    else regs
  }

  function Save(regs: Regs, cpu: nat, bank: nat): Regs
  {
    var a := CopyData(regs, cpu, R13_AT + bank, 13);
    var b := CopyData(a, cpu, R14_AT + bank, 14);
    CopyData(b, cpu, SPSR_AT + bank, REGID_SPSR)
  }

  function Load(regs: Regs, cpu: nat, bank: nat): Regs
  {
    var a := CopyData(regs, cpu, 13, R13_AT + bank);
    var b := CopyData(a, cpu, 14, R14_AT + bank);
    b[Key(cpu, REGID_SPSR) := At(b, Key(cpu, SPSR_AT + bank))]
  }

  function Switched(regs: Regs, cpu: nat, mode: nat): Regs
  {
    var was := ModeIn(regs, cpu);
    if mode == was then regs
    else Load(Save(SwapFiq(regs, cpu, was, mode), cpu, Banks.Bank(was)), cpu, Banks.Bank(mode))
  }

  // The registers that a switch replaces.
  predicate Swapped(was: nat, mode: nat, id: nat)
  {
    && was != mode
    && (id == 13 || id == 14 || id == REGID_SPSR
        || (8 <= id <= 12 && (was == Banks.MODE_FIQ) != (mode == Banks.MODE_FIQ)))
  }

  // What such a register becomes: r8 to r12 and the SPSR with their links, r13 and r14 without.
  function Incoming(regs: Regs, cpu: nat, was: nat, mode: nat, id: nat): Reg
  {
    var live, bank := At(regs, Key(cpu, id)), Banks.Bank(mode);
    if id == REGID_SPSR then
      var s := At(regs, Key(cpu, SPSR_AT + bank));
      if bank == Banks.Bank(was) then s.(data := live.data) else s
    else if id == 13 || id == 14 then
      if bank == Banks.Bank(was) then live
      else live.(data := At(regs, Key(cpu, (if id == 13 then R13_AT else R14_AT) + bank)).data)
    else At(regs, Key(cpu, (if was == Banks.MODE_FIQ then USR_AT else FIQ_AT) + id))
  }

  lemma {:induction false} CopyAt(regs: Regs, cpu: nat, to: nat, from: nat, n: nat, k: Key)
    requires n <= 5 && (to + 5 <= from || from + 5 <= to)
    ensures At(Copy(regs, cpu, to, from, n), k) ==
      if k.cpu == cpu && to <= k.id < to + n then At(regs, Key(cpu, from + (k.id - to))) else At(regs, k)
  {
    if n > 0 {
      CopyAt(regs, cpu, to, from, n - 1, k);
      CopyAt(regs, cpu, to, from, n - 1, Key(cpu, from + n - 1));
    }
  }

  lemma {:induction false} SwapFiqAt(regs: Regs, cpu: nat, was: nat, mode: nat, k: Key)
    requires was != mode
    ensures At(SwapFiq(regs, cpu, was, mode), k) ==
      if k.cpu != cpu then At(regs, k)
      else if 8 <= k.id <= 12 && Swapped(was, mode, k.id) then Incoming(regs, cpu, was, mode, k.id)
      else if was == Banks.MODE_FIQ && FIQ_AT + 8 <= k.id <= FIQ_AT + 12 then At(regs, Key(cpu, k.id - FIQ_AT))
      else if mode == Banks.MODE_FIQ && USR_AT + 8 <= k.id <= USR_AT + 12 then At(regs, Key(cpu, k.id - USR_AT))
      else At(regs, k)
  {
    var to, from := if was == Banks.MODE_FIQ then FIQ_AT else USR_AT, if was == Banks.MODE_FIQ then USR_AT else FIQ_AT;
    if was == Banks.MODE_FIQ || mode == Banks.MODE_FIQ {
      var r := Copy(regs, cpu, to + 8, 8, 5);
      CopyAt(r, cpu, 8, from + 8, 5, k);
      CopyAt(regs, cpu, to + 8, 8, 5, k);
      if k.cpu == cpu && 8 <= k.id <= 12 { CopyAt(regs, cpu, to + 8, 8, 5, Key(cpu, from + k.id)); }
    }
  }

  lemma {:induction false} SaveAt(regs: Regs, cpu: nat, bank: nat, k: Key)
    requires bank < 6
    ensures At(Save(regs, cpu, bank), k) ==
      if k == Key(cpu, R13_AT + bank) then At(regs, k).(data := At(regs, Key(cpu, 13)).data)
      else if k == Key(cpu, R14_AT + bank) then At(regs, k).(data := At(regs, Key(cpu, 14)).data)
      else if k == Key(cpu, SPSR_AT + bank) then At(regs, k).(data := At(regs, Key(cpu, REGID_SPSR)).data)
      else At(regs, k)
  {
  }

  lemma {:induction false} LoadAt(regs: Regs, cpu: nat, bank: nat, k: Key)
    requires bank < 6
    ensures At(Load(regs, cpu, bank), k) ==
      if k == Key(cpu, 13) then At(regs, k).(data := At(regs, Key(cpu, R13_AT + bank)).data)
      else if k == Key(cpu, 14) then At(regs, k).(data := At(regs, Key(cpu, R14_AT + bank)).data)
      else if k == Key(cpu, REGID_SPSR) then At(regs, Key(cpu, SPSR_AT + bank))
      else At(regs, k)
  {
  }

  // A place of the banks before the new bank is loaded.
  lemma {:induction false} PlaceAt(regs: Regs, cpu: nat, was: nat, mode: nat, id: nat)
    requires Banks.ValidMode(was) && was != mode && R13_AT <= id < USR_AT
    ensures var b := Banks.Bank(was);
      At(Save(SwapFiq(regs, cpu, was, mode), cpu, b), Key(cpu, id)) ==
        if id == R13_AT + b then At(regs, Key(cpu, id)).(data := At(regs, Key(cpu, 13)).data)
        else if id == R14_AT + b then At(regs, Key(cpu, id)).(data := At(regs, Key(cpu, 14)).data)
        else if id == SPSR_AT + b then At(regs, Key(cpu, id)).(data := At(regs, Key(cpu, REGID_SPSR)).data)
        else At(regs, Key(cpu, id))
  {
    BankAt(regs, cpu, was, mode, Key(cpu, id));
    SwapFiqAt(regs, cpu, was, mode, Key(cpu, id));
  }

  // r13, r14 and the SPSR.
  lemma {:induction false} LoadedAt(regs: Regs, cpu: nat, was: nat, mode: nat, id: nat)
    requires Banks.ValidMode(was) && Banks.ValidMode(mode) && was != mode && (id == 13 || id == 14 || id == REGID_SPSR)
    ensures var s := Save(SwapFiq(regs, cpu, was, mode), cpu, Banks.Bank(was));
      At(Load(s, cpu, Banks.Bank(mode)), Key(cpu, id)) == Incoming(regs, cpu, was, mode, id)
  {
    var s := Save(SwapFiq(regs, cpu, was, mode), cpu, Banks.Bank(was));
    LoadAt(s, cpu, Banks.Bank(mode), Key(cpu, id));
    BankAt(regs, cpu, was, mode, Key(cpu, id));
    SwapFiqAt(regs, cpu, was, mode, Key(cpu, id));
    var at := if id == 13 then R13_AT else if id == 14 then R14_AT else SPSR_AT;
    PlaceAt(regs, cpu, was, mode, at + Banks.Bank(mode));
  }

  // The other registers.
  lemma {:induction false} UnloadedAt(regs: Regs, cpu: nat, was: nat, mode: nat, k: Key)
    requires Banks.ValidMode(was) && Banks.ValidMode(mode) && was != mode && Tracked(k.id)
    requires k.cpu != cpu || (k.id != 13 && k.id != 14 && k.id != REGID_SPSR)
    ensures var s := Save(SwapFiq(regs, cpu, was, mode), cpu, Banks.Bank(was));
      At(Load(s, cpu, Banks.Bank(mode)), k) == At(SwapFiq(regs, cpu, was, mode), k)
  {
    LoadAt(Save(SwapFiq(regs, cpu, was, mode), cpu, Banks.Bank(was)), cpu, Banks.Bank(mode), k);
    SaveAt(SwapFiq(regs, cpu, was, mode), cpu, Banks.Bank(was), k);
  }

  // The registers after a change of modes.
  lemma {:induction false} ChangedAt(regs: Regs, cpu: nat, was: nat, mode: nat, k: Key)
    requires Banks.ValidMode(was) && Banks.ValidMode(mode) && was != mode && Tracked(k.id)
    ensures var s := Save(SwapFiq(regs, cpu, was, mode), cpu, Banks.Bank(was));
      At(Load(s, cpu, Banks.Bank(mode)), k) ==
        if k.cpu == cpu && Swapped(was, mode, k.id) then Incoming(regs, cpu, was, mode, k.id) else At(regs, k)
  {
    if k.cpu == cpu && (k.id == 13 || k.id == 14 || k.id == REGID_SPSR) {
      assert Swapped(was, mode, k.id) && Key(cpu, k.id) == k;
      LoadedAt(regs, cpu, was, mode, k.id);
    } else {
      UnloadedAt(regs, cpu, was, mode, k);
      SwapFiqAt(regs, cpu, was, mode, k);
    }
  }

  /** After a switch every register that it replaces has come in from its place, and every other one stays. */
  lemma {:induction false} SwitchedAt(regs: Regs, cpu: nat, mode: nat, k: Key)
    requires Banks.ValidMode(ModeIn(regs, cpu)) && Banks.ValidMode(mode) && Tracked(k.id)
    ensures At(Switched(regs, cpu, mode), k) ==
      if k.cpu == cpu && Swapped(ModeIn(regs, cpu), mode, k.id) then Incoming(regs, cpu, ModeIn(regs, cpu), mode, k.id)
      else At(regs, k)
  {
    if mode != ModeIn(regs, cpu) { ChangedAt(regs, cpu, ModeIn(regs, cpu), mode, k); }
  }

  // A register before the new bank is loaded.
  lemma {:induction false} BankAt(regs: Regs, cpu: nat, was: nat, mode: nat, k: Key)
    requires Banks.ValidMode(was) && was != mode
    ensures var r := SwapFiq(regs, cpu, was, mode);
      At(Save(r, cpu, Banks.Bank(was)), k) ==
        if k == Key(cpu, R13_AT + Banks.Bank(was)) then At(regs, k).(data := At(regs, Key(cpu, 13)).data)
        else if k == Key(cpu, R14_AT + Banks.Bank(was)) then At(regs, k).(data := At(regs, Key(cpu, 14)).data)
        else if k == Key(cpu, SPSR_AT + Banks.Bank(was)) then At(regs, k).(data := At(regs, Key(cpu, REGID_SPSR)).data)
        else At(r, k)
  {
    var r := SwapFiq(regs, cpu, was, mode);
    SaveAt(r, cpu, Banks.Bank(was), k);
    SwapFiqAt(regs, cpu, was, mode, k);
    SwapFiqAt(regs, cpu, was, mode, Key(cpu, 13));
    SwapFiqAt(regs, cpu, was, mode, Key(cpu, 14));
    SwapFiqAt(regs, cpu, was, mode, Key(cpu, REGID_SPSR));
  }

  // The links move with the registers.
  lemma {:induction false} SwitchedSourced(nodes: seq<Node>, cpus: nat, regs: Regs, cpu: nat, mode: nat)
    requires Sourced(nodes, cpus, regs) && Banks.ValidMode(ModeIn(regs, cpu)) && Banks.ValidMode(mode) && cpu < cpus
    ensures Sourced(nodes, cpus, Switched(regs, cpu, mode))
  {
    var was := ModeIn(regs, cpu);
    if mode != was {
      var r := SwapFiq(regs, cpu, was, mode);
      var s := Save(r, cpu, Banks.Bank(was));
      forall k | PlaceOf(cpus, k) ensures SourcedAt(nodes, r, k) {
        SwapFiqAt(regs, cpu, was, mode, k);
        SwapSources(nodes, cpus, regs, cpu, k);
      }
      forall k | PlaceOf(cpus, k) ensures SourcedAt(nodes, s, k) {
        SaveAt(r, cpu, Banks.Bank(was), k);
        assert SourcedAt(nodes, r, k);
      }
      forall k | PlaceOf(cpus, k) ensures SourcedAt(nodes, Load(s, cpu, Banks.Bank(mode)), k) {
        LoadAt(s, cpu, Banks.Bank(mode), k);
        assert SourcedAt(nodes, s, k) && SourcedAt(nodes, s, Key(cpu, SPSR_AT + Banks.Bank(mode)));
      }
    }
  }

  // The places that r8 to r12 are exchanged with.
  lemma {:induction false} SwapSources(nodes: seq<Node>, cpus: nat, regs: Regs, cpu: nat, k: Key)
    requires Sourced(nodes, cpus, regs) && cpu < cpus && PlaceOf(cpus, k)
    ensures SourcedAt(nodes, regs, k)
    ensures 8 <= k.id <= 12 ==>
      SourcedAt(nodes, regs, Key(cpu, USR_AT + k.id)) && SourcedAt(nodes, regs, Key(cpu, FIQ_AT + k.id))
    ensures USR_AT + 8 <= k.id <= USR_AT + 12 ==> SourcedAt(nodes, regs, Key(cpu, k.id - USR_AT))
    ensures FIQ_AT + 8 <= k.id <= FIQ_AT + 12 ==> SourcedAt(nodes, regs, Key(cpu, k.id - FIQ_AT))
  {
  }

  // ---------------------------------------------------------------------------------------------
  // `cpu_exec`

  function ExecOne(regs: Regs, cpu: nat, w: Write): Regs
  {
    var r := if w.id == REGID_CPSR then Switched(regs, cpu, Banks.ModeOf(w.value)) else regs;
    r[Key(cpu, w.id) := At(r, Key(cpu, w.id)).(data := w.value)]
  }

  function Exec(regs: Regs, cpu: nat, q: seq<Write>, n: nat): Regs
    requires n <= |q|
  {
    if n == 0 then regs else ExecOne(Exec(regs, cpu, q, n - 1), cpu, q[n - 1])
  }

  // The writes are to registers of the current mode, and all modes written are the same existing one.
  predicate Defined(q: seq<Write>)
  {
    && (forall i :: 0 <= i < |q| ==> Tracked(q[i].id))
    && (forall i :: 0 <= i < |q| && q[i].id == REGID_CPSR ==> Banks.ValidMode(Banks.ModeOf(q[i].value)))
    && (forall i, j :: 0 <= i < |q| && 0 <= j < |q| && q[i].id == REGID_CPSR && q[j].id == REGID_CPSR ==>
          Banks.ModeOf(q[i].value) == Banks.ModeOf(q[j].value))
  }

  // The last write to a register from `a` on and before `b`; -1 if there is none.
  function LastIn(q: seq<Write>, a: nat, b: nat, id: nat): (r: int)
    requires a <= b <= |q|
    ensures r == -1 || (a <= r < b && q[r].id == id)
    ensures forall i :: a <= i < b && i > r ==> q[i].id != id
    decreases b
  {
    if a == b then -1 else if q[b - 1].id == id then b - 1 else LastIn(q, a, b - 1, id)
  }

  // A register after the writes from `a` on and before `b`, if they switch nothing.
  function WrittenIn(q: seq<Write>, a: nat, b: nat, regs: Regs, cpu: nat, k: Key): Reg
    requires a <= b <= |q|
  {
    var f := LastIn(q, a, b, k.id);
    if k.cpu == cpu && f >= 0 then At(regs, k).(data := q[f].value) else At(regs, k)
  }

  // The first write of the CPSR.
  function FirstMode(q: seq<Write>, i: nat): (r: nat)
    requires i <= |q|
    ensures i <= r <= |q| && (r < |q| ==> q[r].id == REGID_CPSR) && forall j :: i <= j < r ==> q[j].id != REGID_CPSR
    decreases |q| - i
  {
    if i == |q| || q[i].id == REGID_CPSR then i else FirstMode(q, i + 1)
  }

  // Writes to other registers.
  lemma {:induction false} ExecBefore(regs: Regs, cpu: nat, q: seq<Write>, n: nat, k: Key)
    requires n <= FirstMode(q, 0)
    ensures At(Exec(regs, cpu, q, n), k) == WrittenIn(q, 0, n, regs, cpu, k)
  {
    if n > 0 { ExecBefore(regs, cpu, q, n - 1, k); }
  }

  // A write that switches nothing.
  lemma {:induction false} ExecPlain(regs: Regs, cpu: nat, w: Write, k: Key)
    requires w.id == REGID_CPSR ==> Banks.ModeOf(w.value) == ModeIn(regs, cpu)
    ensures At(ExecOne(regs, cpu, w), k) == if k == Key(cpu, w.id) then At(regs, k).(data := w.value) else At(regs, k)
    ensures ModeIn(ExecOne(regs, cpu, w), cpu) == ModeIn(regs, cpu)
  {
  }

  // The mode that the writes set.
  lemma {:induction false} ExecMode(regs: Regs, cpu: nat, q: seq<Write>, n: nat)
    requires Defined(q) && FirstMode(q, 0) < n <= |q|
    ensures ModeIn(Exec(regs, cpu, q, n), cpu) == Banks.ModeOf(q[FirstMode(q, 0)].value)
    decreases n
  {
    if n > FirstMode(q, 0) + 1 {
      ExecMode(regs, cpu, q, n - 1);
      ExecPlain(Exec(regs, cpu, q, n - 1), cpu, q[n - 1], Key(cpu, REGID_CPSR));
    }
  }

  lemma {:induction false} WrittenMore(q: seq<Write>, a: nat, b: nat, regs: Regs, cpu: nat, k: Key)
    requires a <= b < |q|
    ensures WrittenIn(q, a, b + 1, regs, cpu, k) ==
      var r := WrittenIn(q, a, b, regs, cpu, k); if k == Key(cpu, q[b].id) then r.(data := q[b].value) else r
  {
  }

  // Writes after the switch, which set the same mode again.
  lemma {:induction false} ExecAfter(regs: Regs, cpu: nat, q: seq<Write>, n: nat, k: Key)
    requires Defined(q) && FirstMode(q, 0) < n <= |q|
    ensures var c := FirstMode(q, 0);
      At(Exec(regs, cpu, q, n), k) == WrittenIn(q, c + 1, n, Exec(regs, cpu, q, c + 1), cpu, k)
    decreases n
  {
    var c := FirstMode(q, 0);
    if n > c + 1 {
      ExecAfter(regs, cpu, q, n - 1, k);
      ExecMode(regs, cpu, q, n - 1);
      ExecPlain(Exec(regs, cpu, q, n - 1), cpu, q[n - 1], k);
      WrittenMore(q, c + 1, n - 1, Exec(regs, cpu, q, c + 1), cpu, k);
    }
  }

  // The switch itself.
  lemma {:induction false} ExecSwitch(regs: Regs, cpu: nat, q: seq<Write>, k: Key)
    requires Defined(q) && FirstMode(q, 0) < |q| && Tracked(k.id) && Banks.ValidMode(ModeIn(regs, cpu))
    ensures var c := FirstMode(q, 0);
      var was, mode, before := ModeIn(regs, cpu), Banks.ModeOf(q[c].value), Exec(regs, cpu, q, c);
      At(Exec(regs, cpu, q, c + 1), k) ==
        if k == Key(cpu, REGID_CPSR) then At(before, k).(data := q[c].value)
        else if k.cpu == cpu && Swapped(was, mode, k.id) then Incoming(before, cpu, was, mode, k.id)
        else At(before, k)
  {
    var c := FirstMode(q, 0);
    ExecBefore(regs, cpu, q, c, Key(cpu, REGID_CPSR));
    SwitchedAt(Exec(regs, cpu, q, c), cpu, Banks.ModeOf(q[c].value), k);
  }

  lemma {:induction false} OneSourced(nodes: seq<Node>, cpus: nat, regs: Regs, cpu: nat, w: Write)
    requires Sourced(nodes, cpus, regs) && Banks.ValidMode(ModeIn(regs, cpu)) && cpu < cpus
    requires w.id == REGID_CPSR ==> Banks.ValidMode(Banks.ModeOf(w.value))
    ensures Sourced(nodes, cpus, ExecOne(regs, cpu, w)) && Banks.ValidMode(ModeIn(ExecOne(regs, cpu, w), cpu))
  {
    if w.id == REGID_CPSR { SwitchedSourced(nodes, cpus, regs, cpu, Banks.ModeOf(w.value)); }
    var s := if w.id == REGID_CPSR then Switched(regs, cpu, Banks.ModeOf(w.value)) else regs;
    forall k | PlaceOf(cpus, k) ensures SourcedAt(nodes, ExecOne(regs, cpu, w), k) {
      assert SourcedAt(nodes, s, k);
    }
  }

  lemma {:induction false} ExecSourced(nodes: seq<Node>, cpus: nat, regs: Regs, cpu: nat, q: seq<Write>, n: nat)
    requires Sourced(nodes, cpus, regs) && Banks.ValidMode(ModeIn(regs, cpu)) && cpu < cpus && n <= |q| && Defined(q)
    ensures Sourced(nodes, cpus, Exec(regs, cpu, q, n)) && Banks.ValidMode(ModeIn(Exec(regs, cpu, q, n), cpu))
  {
    if n > 0 {
      ExecSourced(nodes, cpus, regs, cpu, q, n - 1);
      OneSourced(nodes, cpus, Exec(regs, cpu, q, n - 1), cpu, q[n - 1]);
    }
  }

  // ---------------------------------------------------------------------------------------------
  // `delorean_pg_exec_cpu`

  // A register once the first `p` writes have been entered in node `i`.
  ghost function LinkedAt(q: seq<Write>, p: nat, i: nat, mid: Regs, cpu: nat, k: Key): Reg
    requires p <= |q|
  {
    if k.cpu == cpu && LastIn(q, 0, p, k.id) >= 0 then At(mid, k).(lastWrite := i) else At(mid, k)
  }

  // The entry for write `p`: it leads to where the register leads after `cpu_exec`, or to its own node.
  ghost predicate EntryFor(q: seq<Write>, p: nat, i: nat, mid: Regs, cpu: nat, e: Entry)
    requires p < |q|
  {
    && e.id == q[p].id && e.value == q[p].value
    && e.lastWrite == if LastIn(q, 0, p, e.id) >= 0 then i else At(mid, Key(cpu, e.id)).lastWrite
  }

  ghost predicate EntriesFor(q: seq<Write>, i: nat, mid: Regs, cpu: nat, es: seq<Entry>)
  {
    |es| == |q| && forall p :: 0 <= p < |q| ==> EntryFor(q, p, i, mid, cpu, es[p])
  }

  // What recording an instruction makes of the registers.
  ghost predicate Entered(q: seq<Write>, i: nat, mid: Regs, cpu: nat, after: Regs)
  {
    forall k :: At(after, k) == LinkedAt(q, |q|, i, mid, cpu, k)
  }

  // Node `i` records the instruction with the writes `q`.
  ghost predicate Recording(regs: Regs, cpu: nat, q: seq<Write>, n: Node, i: nat, after: Regs)
  {
    var mid := Exec(regs, cpu, q, |q|);
    n.cpu == cpu && EntriesFor(q, i, mid, cpu, n.regs) && Entered(q, i, mid, cpu, after)
  }

  lemma {:induction false} EntriesLast(q: seq<Write>, i: nat, mid: Regs, cpu: nat, es: seq<Entry>, id: nat, n: nat)
    requires EntriesFor(q, i, mid, cpu, es) && n <= |q|
    ensures FindLast(es, id, n) == LastIn(q, 0, n, id)
  {
    if n > 0 {
      assert EntryFor(q, n - 1, i, mid, cpu, es[n - 1]);
      EntriesLast(q, i, mid, cpu, es, id, n - 1);
    }
  }

  // What the entries say about a register.
  lemma {:induction false} EntriesSay(q: seq<Write>, i: nat, mid: Regs, cpu: nat, es: seq<Entry>, id: nat)
    requires EntriesFor(q, i, mid, cpu, es)
    ensures Has(es, id) <==> LastIn(q, 0, |q|, id) >= 0
    ensures Has(es, id) ==> LastValue(es, id) == q[LastIn(q, 0, |q|, id)].value
    ensures Has(es, id) ==> First(es, id).lastWrite == At(mid, Key(cpu, id)).lastWrite
  {
    EntriesLast(q, i, mid, cpu, es, id, |q|);
    HasFind(es, id);
    if Has(es, id) {
      var f, l := Find(es, id, 0), FindLast(es, id, |es|);
      assert EntryFor(q, f, i, mid, cpu, es[f]) && EntryFor(q, l, i, mid, cpu, es[l]);
      EntriesLast(q, i, mid, cpu, es, id, f);
    }
  }

  /** What the mode change of an instruction, if there is one, must find: a register that it replaces comes in with the
      link it has, and with the value it has unless it is written afterwards. */
  ghost predicate AgreesAt(regs: Regs, cpu: nat, q: seq<Write>, id: nat)
  {
    var c := FirstMode(q, 0);
    c < |q| && Swapped(ModeIn(regs, cpu), Banks.ModeOf(q[c].value), id) ==>
      var before := Exec(regs, cpu, q, c);
      var r := Incoming(before, cpu, ModeIn(regs, cpu), Banks.ModeOf(q[c].value), id);
      && r.lastWrite == At(before, Key(cpu, id)).lastWrite
      && (LastIn(q, c + 1, |q|, id) >= 0 || r.data == At(before, Key(cpu, id)).data)
  }

  ghost predicate Agrees(regs: Regs, cpu: nat, q: seq<Write>)
  {
    forall id :: Tracked(id) ==> AgreesAt(regs, cpu, q, id)
  }

  // The registers of an instruction without a write of the CPSR.
  lemma {:induction false} NoModeTold(regs: Regs, cpu: nat, q: seq<Write>, n: Node, i: nat, after: Regs, k: Key)
    requires FirstMode(q, 0) == |q|
    requires Recording(regs, cpu, q, n, i, after)
    ensures ToldAt(n, i, regs, after, k)
  {
    EntriesSay(q, i, Exec(regs, cpu, q, |q|), cpu, n.regs, k.id);
    ExecBefore(regs, cpu, q, |q|, k);
  }

  lemma {:induction false} LastSplit(q: seq<Write>, c: nat, n: nat, id: nat)
    requires c < n <= |q|
    ensures LastIn(q, 0, n, id) ==
      if LastIn(q, c + 1, n, id) >= 0 then LastIn(q, c + 1, n, id)
      else if q[c].id == id then c else LastIn(q, 0, c, id)
    decreases n
  {
    if n > c + 1 { LastSplit(q, c, n - 1, id); }
  }

  // A register after an instruction that writes the CPSR.
  lemma {:induction false} ModeMid(regs: Regs, cpu: nat, q: seq<Write>, k: Key)
    requires Defined(q) && FirstMode(q, 0) < |q| && Tracked(k.id) && Banks.ValidMode(ModeIn(regs, cpu))
    ensures var c := FirstMode(q, 0);
      var before, f := Exec(regs, cpu, q, c), LastIn(q, c + 1, |q|, k.id);
      var was, mode := ModeIn(regs, cpu), Banks.ModeOf(q[c].value);
      At(Exec(regs, cpu, q, |q|), k) ==
        if k.cpu != cpu then At(regs, k)
        else
          var r := if k.id == REGID_CPSR then At(before, k).(data := q[c].value)
                   else if Swapped(was, mode, k.id) then Incoming(before, cpu, was, mode, k.id) else At(before, k);
          if f >= 0 then r.(data := q[f].value) else r
  {
    ExecAfter(regs, cpu, q, |q|, k);
    ExecSwitch(regs, cpu, q, k);
    ExecBefore(regs, cpu, q, FirstMode(q, 0), k);
  }

  // A register of the processor that the switch makes `r`.
  lemma {:induction false} SwitchTold(regs: Regs, cpu: nat, q: seq<Write>, n: Node, i: nat, after: Regs, id: nat,
                                      r: Reg)
    requires FirstMode(q, 0) < |q| && Recording(regs, cpu, q, n, i, after)
    requires var c, k := FirstMode(q, 0), Key(cpu, id);
      var f := LastIn(q, c + 1, |q|, id);
      && At(Exec(regs, cpu, q, |q|), k) == (if f >= 0 then r.(data := q[f].value) else r)
      && (id == REGID_CPSR ==> r == At(Exec(regs, cpu, q, c), k).(data := q[c].value))
    ensures var c, k := FirstMode(q, 0), Key(cpu, id);
      var out := At(Exec(regs, cpu, q, c), k);
      ToldAt(n, i, regs, after, k) <==>
        id == REGID_CPSR || (r.lastWrite == out.lastWrite && (LastIn(q, c + 1, |q|, id) >= 0 || r.data == out.data))
  {
    var c := FirstMode(q, 0);
    EntriesSay(q, i, Exec(regs, cpu, q, |q|), cpu, n.regs, id);
    ExecBefore(regs, cpu, q, c, Key(cpu, id));
    LastSplit(q, c, |q|, id);
  }

  lemma {:induction false} OtherTold(regs: Regs, cpu: nat, q: seq<Write>, n: Node, i: nat, after: Regs, k: Key)
    requires Recording(regs, cpu, q, n, i, after) && k.cpu != cpu && At(Exec(regs, cpu, q, |q|), k) == At(regs, k)
    ensures ToldAt(n, i, regs, after, k)
  {
  }

  lemma {:induction false} ModeTold(regs: Regs, cpu: nat, q: seq<Write>, n: Node, i: nat, after: Regs, k: Key)
    requires Defined(q) && FirstMode(q, 0) < |q| && Tracked(k.id) && Banks.ValidMode(ModeIn(regs, cpu))
    requires Recording(regs, cpu, q, n, i, after)
    ensures ToldAt(n, i, regs, after, k) <==> (k.cpu == cpu ==> AgreesAt(regs, cpu, q, k.id))
  {
    var c := FirstMode(q, 0);
    var before, was, mode := Exec(regs, cpu, q, c), ModeIn(regs, cpu), Banks.ModeOf(q[c].value);
    ModeMid(regs, cpu, q, k);
    if k.cpu != cpu {
      OtherTold(regs, cpu, q, n, i, after, k);
    } else {
      var r := if k.id == REGID_CPSR then At(before, k).(data := q[c].value)
               else if Swapped(was, mode, k.id) then Incoming(before, cpu, was, mode, k.id) else At(before, k);
      assert Key(cpu, k.id) == k;
      SwitchTold(regs, cpu, q, n, i, after, k.id, r);
    }
  }

  /** The entries of an instruction tell what happened to the registers, if and only if it does not change the mode or
      the registers that come in are, in value and link, those that go out. */
  lemma {:induction false} ToldIff(regs: Regs, cpus: nat, cpu: nat, q: seq<Write>, n: Node, i: nat, after: Regs)
    requires Defined(q) && Banks.ValidMode(ModeIn(regs, cpu)) && cpu < cpus
    requires Recording(regs, cpu, q, n, i, after)
    ensures Told(n, i, cpus, regs, after) <==> Agrees(regs, cpu, q)
  {
    forall k | Known(cpus, k)
      ensures ToldAt(n, i, regs, after, k) <==> (k.cpu == cpu ==> AgreesAt(regs, cpu, q, k.id))
    {
      if FirstMode(q, 0) == |q| {
        NoModeTold(regs, cpu, q, n, i, after, k);
      } else {
        ModeTold(regs, cpu, q, n, i, after, k);
      }
    }
    if Told(n, i, cpus, regs, after) {
      forall id | Tracked(id) ensures AgreesAt(regs, cpu, q, id) {
        assert Known(cpus, Key(cpu, id)) && ToldAt(n, i, regs, after, Key(cpu, id));
      }
    }
  }

  /** An instruction that keeps the mode always agrees. */
  lemma {:induction false} KeptAgrees(regs: Regs, cpu: nat, q: seq<Write>)
    requires forall i :: 0 <= i < |q| && q[i].id == REGID_CPSR ==> Banks.ModeOf(q[i].value) == ModeIn(regs, cpu)
    ensures Agrees(regs, cpu, q)
  {
  }
}
