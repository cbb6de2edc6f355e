/**
 The oracle of tool/sherlock/src/delorean/delorean_main.c: it records the instructions of several
 processors and moves back and ahead over the recording.
 */
module TimeOracle {
  import opened Common
  import opened TimeTravel
  import opened TimeModes
  import Banks = BankedRegisters

  // Every mode ever written exists.
  ghost predicate ModesOk(nodes: seq<Node>)
  {
    forall i, p :: 0 <= i < |nodes| && 0 <= p < |nodes[i].regs| && nodes[i].regs[p].id == REGID_CPSR ==>
      Banks.ValidMode(Banks.ModeOf(nodes[i].regs[p].value))
  }

  ghost predicate ModesIn(cpus: nat, regs: Regs) { forall c :: 0 <= c < cpus ==> Banks.ValidMode(ModeIn(regs, c)) }

  ghost predicate Sound(nodes: seq<Node>, cpus: nat, regs: Regs)
  {
    Recorded(nodes, cpus) && Sourced(nodes, cpus, regs) && ModesOk(nodes) && ModesIn(cpus, regs)
  }

  // ---------------------------------------------------------------------------------------------
  // One more node

  // The entries lead to nodes that wrote their registers.
  lemma {:induction false} NewNodeOk(nodes: seq<Node>, cpus: nat, mid: Regs, cpu: nat, q: seq<Write>, n: Node)
    requires Sourced(nodes, cpus, mid) && cpu < cpus <= |nodes| && Defined(q) && n.cpu == cpu
    requires EntriesFor(q, |nodes|, mid, cpu, n.regs)
    ensures NodeOk(nodes + [n], cpus, |nodes|)
  {
    var more, i := nodes + [n], |nodes|;
    forall p | 0 <= p < |n.regs| ensures Tracked(n.regs[p].id) && EntryOk(more, i, p) {
      var e := n.regs[p];
      assert EntryFor(q, p, i, mid, cpu, e);
      EntriesLast(q, i, mid, cpu, n.regs, e.id, p);
      assert PlaceOf(cpus, Key(cpu, e.id)) && SourcedAt(nodes, mid, Key(cpu, e.id));
    }
  }

  lemma {:induction false} OldNodeOk(nodes: seq<Node>, cpus: nat, n: Node, i: nat)
    requires Recorded(nodes, cpus) && i < |nodes|
    ensures NodeOk(nodes + [n], cpus, i)
  {
    var more := nodes + [n];
    assert NodeOk(nodes, cpus, i) && more[i] == nodes[i];
    if i >= cpus {
      forall p | 0 <= p < |nodes[i].regs| ensures EntryOk(more, i, p) { assert EntryOk(nodes, i, p); }
    }
  }

  lemma {:induction false} EnteredSourced(nodes: seq<Node>, cpus: nat, mid: Regs, cpu: nat, q: seq<Write>, n: Node,
                                          after: Regs)
    requires Sourced(nodes, cpus, mid) && cpu < cpus && Defined(q) && n.cpu == cpu
    requires EntriesFor(q, |nodes|, mid, cpu, n.regs) && Entered(q, |nodes|, mid, cpu, after)
    ensures Sourced(nodes + [n], cpus, after)
  {
    forall k | PlaceOf(cpus, k) ensures SourcedAt(nodes + [n], after, k) {
      assert SourcedAt(nodes, mid, k);
      assert At(after, k) == LinkedAt(q, |q|, |nodes|, mid, cpu, k);
      EntriesSay(q, |nodes|, mid, cpu, n.regs, k.id);
    }
  }

  lemma {:induction false} EnteredModes(nodes: seq<Node>, cpus: nat, mid: Regs, cpu: nat, q: seq<Write>, n: Node,
                                        after: Regs)
    requires ModesOk(nodes) && ModesIn(cpus, mid) && Defined(q)
    requires EntriesFor(q, |nodes|, mid, cpu, n.regs) && Entered(q, |nodes|, mid, cpu, after)
    ensures ModesOk(nodes + [n]) && ModesIn(cpus, after)
  {
    forall p | 0 <= p < |n.regs| && n.regs[p].id == REGID_CPSR ensures Banks.ValidMode(Banks.ModeOf(n.regs[p].value)) {
      assert EntryFor(q, p, |nodes|, mid, cpu, n.regs[p]);
    }
    forall c | 0 <= c < cpus ensures Banks.ValidMode(ModeIn(after, c)) {
      var k := Key(c, REGID_CPSR);
      assert At(after, k) == LinkedAt(q, |q|, |nodes|, mid, cpu, k) && Banks.ValidMode(ModeIn(mid, c));
    }
  }

  // The modes of the other processors.
  lemma {:induction false} ExecModes(regs: Regs, cpus: nat, cpu: nat, q: seq<Write>)
    requires ModesIn(cpus, regs) && Defined(q) && Banks.ValidMode(ModeIn(Exec(regs, cpu, q, |q|), cpu)) && cpu < cpus
    ensures ModesIn(cpus, Exec(regs, cpu, q, |q|))
  {
    forall c | 0 <= c < cpus ensures Banks.ValidMode(ModeIn(Exec(regs, cpu, q, |q|), c)) {
      assert Banks.ValidMode(ModeIn(regs, c)) && Banks.ValidMode(ModeIn(regs, cpu));
      if c != cpu {
        if FirstMode(q, 0) == |q| {
          ExecBefore(regs, cpu, q, |q|, Key(c, REGID_CPSR));
        } else {
          ModeMid(regs, cpu, q, Key(c, REGID_CPSR));
        }
      }
    }
  }

  lemma {:induction false} RecordedSound(nodes: seq<Node>, cpus: nat, regs: Regs, cpu: nat, q: seq<Write>, n: Node,
                                         after: Regs)
    requires Sound(nodes, cpus, regs) && Defined(q) && cpu < cpus && Recording(regs, cpu, q, n, |nodes|, after)
    ensures Sound(nodes + [n], cpus, after)
  {
    var mid := Exec(regs, cpu, q, |q|);
    MidSound(nodes, cpus, regs, cpu, q);
    NewNodeOk(nodes, cpus, mid, cpu, q, n);
    AllNodesOk(nodes, cpus, n);
    EnteredSourced(nodes, cpus, mid, cpu, q, n, after);
    EnteredModes(nodes, cpus, mid, cpu, q, n, after);
  }

  // The registers after `cpu_exec`.
  lemma {:induction false} MidSound(nodes: seq<Node>, cpus: nat, regs: Regs, cpu: nat, q: seq<Write>)
    requires Sourced(nodes, cpus, regs) && ModesIn(cpus, regs) && Defined(q) && cpu < cpus
    ensures Sourced(nodes, cpus, Exec(regs, cpu, q, |q|)) && ModesIn(cpus, Exec(regs, cpu, q, |q|))
  {
    assert Banks.ValidMode(ModeIn(regs, cpu));
    ExecSourced(nodes, cpus, regs, cpu, q, |q|);
    ExecModes(regs, cpus, cpu, q);
  }

  lemma {:induction false} AllNodesOk(nodes: seq<Node>, cpus: nat, n: Node)
    requires Recorded(nodes, cpus) && NodeOk(nodes + [n], cpus, |nodes|)
    ensures Recorded(nodes + [n], cpus)
  {
    forall i | 0 <= i < |nodes + [n]| ensures NodeOk(nodes + [n], cpus, i) {
      if i < |nodes| { OldNodeOk(nodes, cpus, n, i); }
    }
  }

  // A recording that tells all that happened, with one more node.
  lemma {:induction false} AllToldMore(nodes: seq<Node>, cpus: nat, past: Past, n: Node, after: Regs)
    requires AllTold(nodes, cpus, past)
    ensures AllTold(nodes + [n], cpus, past + [after]) <==> Told(n, |nodes|, cpus, past[|nodes|], after)
  {
    var more, long := nodes + [n], past + [after];
    forall k | Known(cpus, k) ensures At(long[cpus], k) == Latest(more, cpus, k) { LinkPrefix(nodes, [n], cpus, k); }
    forall i | cpus <= i < |nodes| ensures Told(more[i], i, cpus, long[i], long[i + 1]) {
      assert Told(nodes[i], i, cpus, past[i], past[i + 1]) && more[i] == nodes[i];
    }
    assert more[|nodes|] == n && long[|nodes|] == past[|nodes|] && long[|nodes| + 1] == after;
  }

  // Registers that are the same before an instruction.
  lemma {:induction false} ToldSame(n: Node, i: nat, cpus: nat, a: Regs, b: Regs, after: Regs)
    requires SameKnown(cpus, a, b)
    ensures Told(n, i, cpus, a, after) <==> Told(n, i, cpus, b, after)
  {
    forall k | Known(cpus, k) ensures ToldAt(n, i, a, after, k) <==> ToldAt(n, i, b, after, k) {
      assert At(a, k) == At(b, k);
    }
  }

  // ---------------------------------------------------------------------------------------------
  // One move

  // No entry is of a place of the banks.
  lemma {:induction false} PlaceKept(nodes: seq<Node>, cpus: nat, j: nat, k: Key)
    requires Recorded(nodes, cpus) && j < |nodes| && Writes(nodes[j], k)
    ensures Tracked(k.id) && RegisterOf(k.id) == k.id
  {
    assert NodeOk(nodes, cpus, j);
  }

  lemma {:induction false} UndoneSound(nodes: seq<Node>, cpus: nat, j: nat, regs: Regs)
    requires Sound(nodes, cpus, regs) && cpus <= j < |nodes|
    ensures Sound(nodes, cpus, UndoAll(nodes, nodes[j], |nodes[j].regs|, regs))
  {
    var after := UndoAll(nodes, nodes[j], |nodes[j].regs|, regs);
    forall k | PlaceOf(cpus, k) ensures SourcedAt(nodes, after, k) {
      UndoneAt(nodes, cpus, j, regs, k);
      assert SourcedAt(nodes, regs, k);
      if Writes(nodes[j], k) {
        PlaceKept(nodes, cpus, j, k);
        UndoneLeads(nodes, cpus, j, regs, k);
      }
    }
    forall c | 0 <= c < cpus ensures Banks.ValidMode(ModeIn(after, c)) {
      assert Banks.ValidMode(ModeIn(regs, c));
      UndoneAt(nodes, cpus, j, regs, Key(c, REGID_CPSR));
      if Writes(nodes[j], Key(c, REGID_CPSR)) { BackMode(nodes, cpus, j, Key(c, REGID_CPSR)); }
    }
  }

  // The mode that undoing a node shows was written once.
  lemma {:induction false} BackMode(nodes: seq<Node>, cpus: nat, j: nat, k: Key)
    requires Recorded(nodes, cpus) && ModesOk(nodes) && cpus <= j < |nodes| && k.id == REGID_CPSR && Writes(nodes[j], k)
    ensures Banks.ValidMode(Banks.ModeOf(Back(nodes, j, k)))
  {
    var q := nodes[j].regs;
    HasFind(q, k.id);
    LinkedNodes(nodes, cpus, j);
    var l := First(q, k.id).lastWrite;
    assert Leads(nodes, l, Key(nodes[j].cpu, q[Find(q, k.id, 0)].id));
    HasFind(nodes[l].regs, k.id);
  }

  lemma {:induction false} RedoneSound(nodes: seq<Node>, cpus: nat, j: nat, regs: Regs)
    requires Sound(nodes, cpus, regs) && j < |nodes|
    ensures Sound(nodes, cpus, RedoAll(nodes[j], j, |nodes[j].regs|, regs))
  {
    var after := RedoAll(nodes[j], j, |nodes[j].regs|, regs);
    forall k | PlaceOf(cpus, k) ensures SourcedAt(nodes, after, k) {
      RedoneAt(nodes, j, regs, k);
      assert SourcedAt(nodes, regs, k);
      if Writes(nodes[j], k) { PlaceKept(nodes, cpus, j, k); }
    }
    forall c | 0 <= c < cpus ensures Banks.ValidMode(ModeIn(after, c)) {
      assert Banks.ValidMode(ModeIn(regs, c));
      RedoneAt(nodes, j, regs, Key(c, REGID_CPSR));
    }
  }

  // One move of the oracle.
  lemma {:induction false} AheadSound(nodes: seq<Node>, cpus: nat, s: Place, end: Regs)
    requires Sound(nodes, cpus, s.regs) && Shows(nodes, cpus, s, end) && s.last + 1 < |nodes|
    ensures var t := Moved(nodes, cpus, s, true);
      && Sound(nodes, cpus, t.regs) && Shows(nodes, cpus, t, end)
      && forall k :: At(t.regs, k) == Redone(nodes[s.last + 1], s.last + 1, s.regs, k)
  {
    RedoneSound(nodes, cpus, s.last + 1, s.regs);
    AheadShows(nodes, cpus, s, end);
    forall k ensures At(Moved(nodes, cpus, s, true).regs, k) == Redone(nodes[s.last + 1], s.last + 1, s.regs, k) {
      RedoneAt(nodes, s.last + 1, s.regs, k);
    }
  }

  ghost predicate UndoneBy(nodes: seq<Node>, j: nat, before: Regs, after: Regs, k: Key)
    requires j < |nodes|
  {
    if Writes(nodes[j], k) then At(after, k).data == Back(nodes, j, k) else At(after, k) == At(before, k)
  }

  lemma {:induction false} BackSound(nodes: seq<Node>, cpus: nat, s: Place, end: Regs)
    requires Sound(nodes, cpus, s.regs) && Shows(nodes, cpus, s, end) && cpus <= s.last
    ensures var t := Moved(nodes, cpus, s, false);
      && Sound(nodes, cpus, t.regs) && Shows(nodes, cpus, t, end)
      && forall k :: UndoneBy(nodes, s.last, s.regs, t.regs, k)
  {
    UndoneSound(nodes, cpus, s.last, s.regs);
    BackShows(nodes, cpus, s, end);
    forall k ensures UndoneBy(nodes, s.last, s.regs, Moved(nodes, cpus, s, false).regs, k) {
      UndoneAt(nodes, cpus, s.last, s.regs, k);
    }
  }

  // What a register shows at place `m` once the nodes from there to `last` have been undone: what undoing its first
  // writer among them leaves, and what it was if there is none.
  ghost function Seen(nodes: seq<Node>, m: nat, last: nat, regs: Regs, k: Key): nat
    requires m <= |nodes|
  {
    var n := Next(nodes, m, k);
    if n < |nodes| && n <= last then Back(nodes, n, k) else At(regs, k).data
  }

  lemma {:induction false} SeenBack(nodes: seq<Node>, j: nat, last: nat, regs: Regs, k: Key)
    requires j <= last && j < |nodes|
    ensures Seen(nodes, j, last, regs, k) ==
      if Writes(nodes[j], k) then Back(nodes, j, k) else Seen(nodes, j + 1, last, regs, k)
  {
  }

  // ---------------------------------------------------------------------------------------------
  // The reset nodes

  // The values after a reset: everything is zero but CPSR, which says supervisor mode.
  function ResetValue(id: nat): nat { if id == REGID_CPSR then 0x400001D3 else 0 }

  // `delorean_pg_comp` for a processor, without the entries of banked registers.
  function ResetNode(i: nat): Node
  {
    Node(i, [Entry(REGID_CPSR, ResetValue(REGID_CPSR), i), Entry(REGID_SPSR, 0, i)]
      + seq(16, r requires 0 <= r < 16 => Entry(r, 0, i)))
  }

  // The place of a register in a reset node.
  function ResetIndex(id: nat): nat { if id == REGID_CPSR then 0 else if id == REGID_SPSR then 1 else id + 2 }

  lemma {:induction false} ResetEntry(i: nat, p: nat)
    requires p < |ResetNode(i).regs|
    ensures var e := ResetNode(i).regs[p];
      |ResetNode(i).regs| == 18 && Tracked(e.id) && ResetIndex(e.id) == p && e == Entry(e.id, ResetValue(e.id), i)
  {
  }

  lemma {:induction false} ResetWrites(i: nat, id: nat)
    requires Tracked(id)
    ensures Writes(ResetNode(i), Key(i, id)) && LastValue(ResetNode(i).regs, id) == ResetValue(id)
  {
    var q := ResetNode(i).regs;
    assert |q| == 18;
    ResetEntry(i, ResetIndex(id));
    assert q[ResetIndex(id)].id == id;
    ResetEntry(i, FindLast(q, id, |q|));
  }

  ghost predicate Resets(nodes: seq<Node>) { forall i :: 0 <= i < |nodes| ==> nodes[i] == ResetNode(i) }

  // The registers after the reset: all of them lead to the reset node of their processor.
  ghost predicate ResetRegs(cpus: nat, regs: Regs)
  {
    forall c: nat, id: nat :: c < cpus && id < 0x150 ==> At(regs, Key(c, id)) == Reg(ResetValue(id), c)
  }

  lemma {:induction false} ResetOkAt(nodes: seq<Node>, i: nat)
    requires i < |nodes| && nodes[i] == ResetNode(i)
    ensures ResetOk(nodes, i)
  {
    forall id | Tracked(id) ensures Writes(nodes[i], Key(i, id)) { ResetWrites(i, id); }
    forall p | 0 <= p < |nodes[i].regs| ensures nodes[i].regs[p].lastWrite == i { ResetEntry(i, p); }
  }

  lemma {:induction false} ResetRecorded(nodes: seq<Node>, cpus: nat)
    requires |nodes| == cpus && Resets(nodes)
    ensures Recorded(nodes, cpus) && ModesOk(nodes)
  {
    forall i | 0 <= i < cpus ensures NodeOk(nodes, cpus, i) {
      ResetOkAt(nodes, i);
      forall p | 0 <= p < |nodes[i].regs| ensures Tracked(nodes[i].regs[p].id) { ResetEntry(i, p); }
    }
    forall i, p | 0 <= i < |nodes| && 0 <= p < |nodes[i].regs| && nodes[i].regs[p].id == REGID_CPSR
      ensures Banks.ValidMode(Banks.ModeOf(nodes[i].regs[p].value))
    {
      ResetEntry(i, p);
    }
  }

  lemma {:induction false} ResetSound(nodes: seq<Node>, cpus: nat, regs: Regs)
    requires |nodes| == cpus && Resets(nodes) && ResetRegs(cpus, regs)
    ensures Sound(nodes, cpus, regs)
  {
    ResetRecorded(nodes, cpus);
    forall k | PlaceOf(cpus, k) ensures SourcedAt(nodes, regs, k) {
      assert At(regs, Key(k.cpu, k.id)) == Reg(ResetValue(k.id), k.cpu) && Key(k.cpu, k.id) == k;
      ResetWrites(k.cpu, RegisterOf(k.id));
    }
    forall c | 0 <= c < cpus ensures Banks.ValidMode(ModeIn(regs, c)) {
      assert At(regs, Key(c, REGID_CPSR)) == Reg(ResetValue(REGID_CPSR), c);
    }
  }

  lemma {:induction false} ResetLatest(nodes: seq<Node>, cpus: nat, j: nat, k: Key)
    requires |nodes| == cpus && Resets(nodes) && Known(cpus, k) && k.cpu < j <= cpus
    ensures Latest(nodes, j, k) == Reg(ResetValue(k.id), k.cpu)
    decreases j
  {
    if j - 1 == k.cpu {
      ResetWrites(k.cpu, k.id);
    } else {
      ResetLatest(nodes, cpus, j - 1, k);
    }
  }

  // ---------------------------------------------------------------------------------------------
  // The oracle

  class Oracle {
    const cpus: nat
    var nodes: seq<Node>
    var last: nat         // oracle.last_exec
    var regs: Regs        // the registers of all the processors
    ghost var past: Past  // the registers after each of the nodes, when it was recorded

    /** In every state of every run every register has what its last writer gave it, or shows what undoing its next
        writer left, or is untouched since the end; every link leads to a node that wrote the register. */
    ghost predicate Valid()
      reads this
    {
      && Sound(nodes, cpus, regs) && |past| == |nodes| + 1
      && Shows(nodes, cpus, Place(regs, last), past[|nodes|])
    }

    /** All the processors after a reset. */
    constructor (n: nat)
      requires n > 0
      ensures Valid() && cpus == n && |nodes| == n && Resets(nodes) && last == n - 1
      ensures ResetRegs(n, regs) && past[n] == regs && AllTold(nodes, cpus, past)
      ensures forall c, id :: 0 <= c < n && (0 <= id < 16 || id in {0xFE, 0xFF}) ==>
        At(regs, Key(c, id)).data == if id == 0xFF then 0x400001D3 else 0
    {
      cpus := n;
      nodes := seq(n, i requires 0 <= i < n => ResetNode(i));
      last := n - 1;
      var reset := map c, id | 0 <= c < n && 0 <= id < 0x150 :: Key(c, id) := Reg(ResetValue(id), c);
      regs := reset;
      past := seq(n + 1, _ => reset);
      new;
      ResetSound(nodes, cpus, regs);
      EndShows(nodes, cpus, regs);
      forall k | Known(cpus, k) ensures At(past[cpus], k) == Latest(nodes, cpus, k) {
        assert Key(k.cpu, k.id) == k;
        ResetLatest(nodes, cpus, cpus, k);
      }
    }

    // memcpy of five registers
    method CopyRegs(cpu: nat, to: nat, from: nat)
      modifies this`regs
      ensures regs == Copy(old(regs), cpu, to, from, 5)
    {
      for n := 0 to 5
        invariant regs == Copy(old(regs), cpu, to, from, n)
      {
        regs := regs[Key(cpu, to + n) := At(regs, Key(cpu, from + n))];
      }
    }

    // The assignment of one value
    method Assign(cpu: nat, to: nat, from: nat)
      modifies this`regs
      ensures regs == CopyData(old(regs), cpu, to, from)
    {
      regs := regs[Key(cpu, to) := At(regs, Key(cpu, to)).(data := At(regs, Key(cpu, from)).data)];
    }

    /** `switch_mode` on registers with links. */
    method SwitchMode(cpu: nat, mode: nat)
      modifies this`regs
      ensures regs == Switched(old(regs), cpu, mode)
    {
      var was := ModeIn(regs, cpu);
      if mode == was {
        return;
      }
      if was == Banks.MODE_FIQ {
        CopyRegs(cpu, FIQ_AT + 8, 8);
        CopyRegs(cpu, 8, USR_AT + 8);
      } else if mode == Banks.MODE_FIQ {
        CopyRegs(cpu, USR_AT + 8, 8);
        CopyRegs(cpu, 8, FIQ_AT + 8);
      }
      assert regs == SwapFiq(old(regs), cpu, was, mode);
      SaveBank(cpu, Banks.Bank(was));
      LoadBank(cpu, Banks.Bank(mode));
    }

    method SaveBank(cpu: nat, bank: nat)
      modifies this`regs
      ensures regs == Save(old(regs), cpu, bank)
    {
      Assign(cpu, R13_AT + bank, 13);
      Assign(cpu, R14_AT + bank, 14);
      Assign(cpu, SPSR_AT + bank, REGID_SPSR);
    }

    method LoadBank(cpu: nat, bank: nat)
      modifies this`regs
      ensures regs == Load(old(regs), cpu, bank)
    {
      Assign(cpu, 13, R13_AT + bank);
      Assign(cpu, 14, R14_AT + bank);
      regs := regs[Key(cpu, REGID_SPSR) := At(regs, Key(cpu, SPSR_AT + bank))];
    }

    /** `cpu_exec`: the values of the registers, with a switch before each new CPSR. */
    method CpuExec(cpu: nat, q: seq<Write>)
      modifies this`regs
      ensures regs == Exec(old(regs), cpu, q, |q|)
    {
      for p := 0 to |q|
        invariant regs == Exec(old(regs), cpu, q, p)
      {
        if q[p].id == REGID_CPSR {
          SwitchMode(cpu, Banks.ModeOf(q[p].value));
        }
        var k := Key(cpu, q[p].id);
        regs := regs[k := At(regs, k).(data := q[p].value)];
      }
    }

    // One entry of `delorean_pg_exec_cpu`, and the link of its register.
    method AddEntry(k: Key, value: nat, i: nat) returns (e: Entry)
      modifies this`regs
      ensures e == Entry(k.id, value, At(old(regs), k).lastWrite)
      ensures forall x :: At(regs, x) == if x == k then At(old(regs), k).(lastWrite := i) else At(old(regs), x)
    {
      e := Entry(k.id, value, At(regs, k).lastWrite);
      regs := regs[k := At(regs, k).(lastWrite := i)];
    }

    /** `delorean_pg_exec_cpu`: the entries of node `i`, and the links of the registers to it. */
    method Entries(cpu: nat, q: seq<Write>, i: nat) returns (es: seq<Entry>)
      modifies this`regs
      ensures EntriesFor(q, i, old(regs), cpu, es) && Entered(q, i, old(regs), cpu, regs)
    {
      ghost var mid := regs;
      es := [];
      for p := 0 to |q|
        invariant |es| == p && forall j :: 0 <= j < p ==> EntryFor(q, j, i, mid, cpu, es[j])
        invariant forall k :: At(regs, k) == LinkedAt(q, p, i, mid, cpu, k)
      {
        ghost var was := regs;
        var e := AddEntry(Key(cpu, q[p].id), q[p].value, i);
        assert At(was, Key(cpu, q[p].id)) == LinkedAt(q, p, i, mid, cpu, Key(cpu, q[p].id));
        es := es + [e];
        forall k ensures At(regs, k) == LinkedAt(q, p + 1, i, mid, cpu, k) {
          assert At(was, k) == LinkedAt(q, p, i, mid, cpu, k);
        }
      }
    }

    /** An instruction is run and recorded.  Where the recording tells all that happened so far, it goes on to do so if
        and only if the instruction keeps the mode, or the registers that come in are those that go out. */
    method Record(cpu: nat, q: seq<Write>) returns (ok: bool)
      requires Valid() && last + 1 == |nodes| && cpu < cpus
      modifies this
      ensures Valid() && (ok <==> Defined(q))
      ensures !ok ==> nodes == old(nodes) && last == old(last) && regs == old(regs) && past == old(past)
      ensures ok ==> last == old(last) + 1 == |nodes| - 1 && nodes[..last] == old(nodes) && past == old(past) + [regs]
      ensures ok ==> Recording(old(regs), cpu, q, nodes[last], last, regs)
      ensures ok ==> (Told(nodes[last], last, cpus, old(regs), regs) <==> Agrees(old(regs), cpu, q))
      ensures ok && AllTold(old(nodes), cpus, old(past)) ==>
        (AllTold(nodes, cpus, past) <==> Agrees(old(regs), cpu, q))
    {
      ok := Defined(q);
      if !ok {
        return;
      }
      var i := |nodes|;
      CpuExec(cpu, q);
      var es := Entries(cpu, q, i);
      var n := Node(cpu, es);
      assert Recording(old(regs), cpu, q, n, i, regs);
      RecordedMore(nodes, cpus, past, Place(old(regs), last), cpu, q, n, regs);
      nodes := nodes + [n];
      past := past + [regs];
      last := i;
    }

    /** Any moves back and ahead.  Once at the end again, the registers and their links are as before if the registers
        then were as their last writers left them, and where every node is undone and done again as it happened the
        registers are as they were. */
    method Travel(moves: seq<bool>)
      requires Valid()
      modifies this`regs, this`last
      ensures Valid()
      ensures Place(regs, last) == Travelled(nodes, cpus, Place(old(regs), old(last)), moves)
      ensures old(last) + 1 == last + 1 == |nodes| && EndTold(nodes, cpus, past[|nodes|]) ==>
        SameKnown(cpus, regs, old(regs))
      ensures Truthful(nodes, cpus, past) ==> Right(cpus, past, Place(regs, last))
    {
      for i := 0 to |moves|
        invariant Valid() && Place(regs, last) == Travelled(nodes, cpus, Place(old(regs), old(last)), moves[..i])
      {
        TravelledMore(nodes, cpus, Place(old(regs), old(last)), moves[..i], moves[i]);
        assert moves[..i] + [moves[i]] == moves[..i + 1];
        if moves[i] && last + 1 < |nodes| {
          ForwardExec();
        } else if !moves[i] && last >= cpus {
          ReverseExec();
        }
      }
      assert moves[..|moves|] == moves;
      if old(last) + 1 == last + 1 == |nodes| && EndTold(nodes, cpus, past[|nodes|]) {
        EndSame(nodes, cpus, Place(regs, last), past[|nodes|]);
        EndSame(nodes, cpus, Place(old(regs), old(last)), past[|nodes|]);
      }
      if Truthful(nodes, cpus, past) { TruthfulRight(nodes, cpus, past, Place(regs, last)); }
    }

    /** Back to the place before node `m`, from anywhere: a register shows what undoing its first writer from there on
        leaves, and stays as it was if none of the nodes undone wrote it. */
    method GoBack(m: nat)
      requires Valid() && cpus <= m <= last + 1
      modifies this`regs, this`last
      ensures Valid() && last + 1 == m
      ensures forall k :: At(regs, k).data == Seen(nodes, m, old(last), old(regs), k)
    {
      while last + 1 > m
        invariant Valid() && cpus <= m <= last + 1 <= old(last) + 1
        invariant forall k :: At(regs, k).data == Seen(nodes, last + 1, old(last), old(regs), k)
        decreases last
      {
        ghost var was, j := regs, last;
        ReverseExec();
        forall k ensures At(regs, k).data == Seen(nodes, last + 1, old(last), old(regs), k) {
          assert At(was, k).data == Seen(nodes, j + 1, old(last), old(regs), k);
          SeenBack(nodes, j, old(last), old(regs), k);
          assert UndoneBy(nodes, j, was, regs, k);
        }
      }
    }

    /** `get_reg_last_write`: the register gets the value that node `i` wrote, and the link it had. */
    method GetRegLastWrite(i: nat, k: Key)
      requires i < |nodes| && nodes[i].regs != []
      modifies this`regs
      ensures var q := nodes[i].regs;
        regs == if Find(q, k.id, 0) < |q| then old(regs)[k := First(q, k.id)] else old(regs)
    {
      var q := nodes[i].regs;
      var p := 0;
      while p + 1 < |q| && q[p].id != k.id
        invariant p < |q| && Find(q, k.id, 0) == Find(q, k.id, p)
      {
        p := p + 1;
      }
      if q[p].id == k.id {
        regs := regs[k := Reg(q[p].value, q[p].lastWrite)];
      }
    }

    // `set_reg_next_write`
    method SetRegNextWrite(i: nat, k: Key, value: nat)
      modifies this`regs
      ensures regs == old(regs)[k := Reg(value, i)]
    {
      regs := regs[k := Reg(value, i)];
    }

    /** `cpu_reverse_exec`: the entries are undone from the first to the last. */
    method CpuReverse(n: Node)
      requires forall p :: 0 <= p < |n.regs| ==> Leads(nodes, n.regs[p].lastWrite, Key(n.cpu, n.regs[p].id))
      modifies this`regs
      ensures regs == UndoAll(nodes, n, |n.regs|, old(regs))
    {
      for i := 0 to |n.regs|
        invariant regs == UndoAll(nodes, n, i, old(regs))
      {
        var e := n.regs[i];
        assert Leads(nodes, e.lastWrite, Key(n.cpu, e.id));
        GetRegLastWrite(e.lastWrite, Key(n.cpu, e.id));
      }
    }

    /** `cpu_forward_exec` */
    method CpuForward(n: Node, i: nat)
      modifies this`regs
      ensures regs == RedoAll(n, i, |n.regs|, old(regs))
    {
      for p := 0 to |n.regs|
        invariant regs == RedoAll(n, i, p, old(regs))
      {
        SetRegNextWrite(i, Key(n.cpu, n.regs[p].id), n.regs[p].value);
      }
    }

    /** `oracle_reverse_exec`: one node back.  The registers it wrote show what `Back` says, the others stay. */
    method ReverseExec()
      requires Valid() && last >= cpus
      modifies this`regs, this`last
      ensures Valid() && Place(regs, last) == Moved(nodes, cpus, Place(old(regs), old(last)), false)
      ensures last == old(last) - 1
      ensures forall k :: UndoneBy(nodes, old(last), old(regs), regs, k)
    {
      LinkedNodes(nodes, cpus, last);
      BackSound(nodes, cpus, Place(regs, last), past[|nodes|]);
      CpuReverse(nodes[last]);
      last := last - 1;
    }

    /** `oracle_forward_exec`: one node ahead.  The registers it wrote have their values again, the others stay. */
    method ForwardExec()
      requires Valid() && last + 1 < |nodes|
      modifies this`regs, this`last
      ensures Valid() && Place(regs, last) == Moved(nodes, cpus, Place(old(regs), old(last)), true)
      ensures last == old(last) + 1 && forall k :: At(regs, k) == Redone(nodes[last], last, old(regs), k)
    {
      var i := last + 1;
      AheadSound(nodes, cpus, Place(regs, last), past[|nodes|]);
      CpuForward(nodes[i], i);
      last := i;
    }
  }

  // At the end of a recording that tells all that happened, the registers are those of the last node.
  lemma {:induction false} AllToldIff(nodes: seq<Node>, cpus: nat, past: Past, s: Place, n: Node, after: Regs)
    requires Recorded(nodes, cpus) && AllTold(nodes, cpus, past) && Shows(nodes, cpus, s, past[|nodes|])
    requires s.last + 1 == |nodes|
    ensures AllTold(nodes + [n], cpus, past + [after]) <==> Told(n, |nodes|, cpus, s.regs, after)
  {
    ToldEnd(nodes, cpus, past);
    EndSame(nodes, cpus, s, past[|nodes|]);
    AllToldMore(nodes, cpus, past, n, after);
    ToldSame(n, |nodes|, cpus, s.regs, past[|nodes|], after);
  }

  // One more instruction at the end.
  lemma {:induction false} RecordedMore(nodes: seq<Node>, cpus: nat, past: Past, s: Place, cpu: nat, q: seq<Write>,
                                        n: Node, after: Regs)
    requires Sound(nodes, cpus, s.regs) && |past| == |nodes| + 1 && Shows(nodes, cpus, s, past[|nodes|])
    requires s.last + 1 == |nodes| && cpu < cpus && Defined(q) && Recording(s.regs, cpu, q, n, |nodes|, after)
    ensures Sound(nodes + [n], cpus, after) && Shows(nodes + [n], cpus, Place(after, |nodes|), after)
    ensures Told(n, |nodes|, cpus, s.regs, after) <==> Agrees(s.regs, cpu, q)
    ensures AllTold(nodes, cpus, past) ==>
      (AllTold(nodes + [n], cpus, past + [after]) <==> Agrees(s.regs, cpu, q))
  {
    RecordedSound(nodes, cpus, s.regs, cpu, q, n, after);
    EndShows(nodes + [n], cpus, after);
    assert Banks.ValidMode(ModeIn(s.regs, cpu));
    ToldIff(s.regs, cpus, cpu, q, n, |nodes|, after);
    if AllTold(nodes, cpus, past) { AllToldIff(nodes, cpus, past, s, n, after); }
  }

  // ---------------------------------------------------------------------------------------------
  // Runs

  // The entry of an instruction with two writes of one register.
  lemma {:induction false} TwiceBack(nodes: seq<Node>, q: seq<Write>, mid: Regs, id: nat)
    requires |nodes| == 2 && nodes[1].cpu == 0 && EntriesFor(q, 1, mid, 0, nodes[1].regs)
    requires |q| == 2 && q[0].id == q[1].id == id
    ensures Writes(nodes[1], Key(0, id)) && Back(nodes, 1, Key(0, id)) == q[0].value
  {
    var e := nodes[1].regs;
    assert EntryFor(q, 0, 1, mid, 0, e[0]) && EntryFor(q, 1, 1, mid, 0, e[1]);
    assert Find(e, id, 0) == 0 && FindLast(e, id, |e|) == 1;
  }

  // The recording of one such instruction.
  method RecordTwice(id: nat, first: nat, second: nat) returns (o: Oracle)
    requires id < 16
    ensures o.Valid() && o.cpus == 1 && o.last == 1 && |o.nodes| == 2 && AllTold(o.nodes, o.cpus, o.past) && fresh(o)
    ensures Writes(o.nodes[1], Key(0, id)) && Back(o.nodes, 1, Key(0, id)) == first
    ensures At(o.past[1], Key(0, id)).data == 0
  {
    o := new Oracle(1);
    ghost var regs := o.regs;
    var q := [Write(id, first), Write(id, second)];
    KeptAgrees(regs, 0, q);
    var ok := o.Record(0, q);
    TwiceBack(o.nodes, q, Exec(regs, 0, q, |q|), id);
  }

  /** An instruction that writes r15 itself, followed by the write of r15 that every instruction gets: undoing it shows
      the first of the two values, whatever they are, and not the one from before. */
  method RepeatedPc(first: nat, second: nat) returns (o: Oracle)
    ensures o.Valid() && o.last == 0 && |o.nodes| == 2 && AllTold(o.nodes, o.cpus, o.past)
    ensures At(o.past[1], Key(0, 15)).data == 0 && At(o.regs, Key(0, 15)).data == first
  {
    o := RecordTwice(15, first, second);
    ghost var after := o.regs;
    o.ReverseExec();
    assert UndoneBy(o.nodes, 1, after, o.regs, Key(0, 15));
  }

  // What recording one write of r13 leaves.
  lemma {:induction false} OneWrite(regs: Regs, w: Write, n: Node, i: nat, after: Regs)
    requires w.id == 13 && Recording(regs, 0, [w], n, i, after)
    ensures Writes(n, Key(0, 13)) && LastValue(n.regs, 13) == w.value
    ensures forall id :: id != 13 ==> At(after, Key(0, id)) == At(regs, Key(0, id))
  {
    var q := [w];
    var mid := Exec(regs, 0, q, 1);
    EntriesSay(q, i, mid, 0, n.regs, 13);
    assert LastIn(q, 0, 1, 13) == 0;
    forall id | id != 13 ensures At(after, Key(0, id)) == At(regs, Key(0, id)) {
      assert At(after, Key(0, id)) == LinkedAt(q, 1, i, mid, 0, Key(0, id));
      ExecBefore(regs, 0, q, 1, Key(0, id));
    }
  }

  // And what recording a change to interrupt mode does to r13.
  lemma {:induction false} OneSwitch(regs: Regs, w: Write, n: Node, i: nat, after: Regs)
    requires w.id == REGID_CPSR && Banks.ModeOf(w.value) == Banks.MODE_IRQ && ModeIn(regs, 0) == Banks.MODE_SVC
    requires Recording(regs, 0, [w], n, i, after)
    ensures !Writes(n, Key(0, 13)) && At(after, Key(0, 13)).data == At(regs, Key(0, R13_AT + 4)).data
  {
    var q, k := [w], Key(0, 13);
    EntriesSay(q, i, Exec(regs, 0, q, 1), 0, n.regs, 13);
    assert At(after, k) == LinkedAt(q, 1, i, Exec(regs, 0, q, 1), 0, k);
    ModeMid(regs, 0, q, k);
  }

  // The recording of the first instruction.
  method RecordStack(v: nat) returns (o: Oracle)
    ensures o.Valid() && o.cpus == 1 && o.last == 1 && |o.nodes| == 2 && fresh(o)
    ensures Writes(o.nodes[1], Key(0, 13)) && LastValue(o.nodes[1].regs, 13) == v
    ensures At(o.regs, Key(0, R13_AT + 4)).data == 0 && ModeIn(o.regs, 0) == Banks.MODE_SVC
  {
    o := new Oracle(1);
    ghost var reset := o.regs;
    assert At(reset, Key(0, R13_AT + 4)).data == 0 && ModeIn(reset, 0) == Banks.MODE_SVC;
    var w := Write(13, v);
    var q := [w];
    assert Defined(q);
    var ok := o.Record(0, q);
    OneWrite(reset, w, o.nodes[1], 1, o.regs);
  }

  // The recording of both instructions.
  method RecordSwitch(v: nat) returns (o: Oracle)
    ensures o.Valid() && o.cpus == 1 && o.last == 2 && |o.nodes| == 3 && fresh(o)
    ensures Writes(o.nodes[1], Key(0, 13)) && LastValue(o.nodes[1].regs, 13) == v && !Writes(o.nodes[2], Key(0, 13))
    ensures At(o.past[3], Key(0, 13)).data == 0
  {
    o := RecordStack(v);
    ghost var nodes, regs := o.nodes, o.regs;
    var s := Write(REGID_CPSR, 0x400001D2);
    var ok := o.Record(0, [s]);
    OneSwitch(regs, s, o.nodes[2], 2, o.regs);
    assert o.nodes[1] == o.nodes[..2][1] == nodes[1];
  }

  /** An instruction that writes r13 in supervisor mode, and one that changes to interrupt mode, whose r13 is zero: two
      moves back and two ahead end with the r13 of supervisor mode. */
  method SwitchLost(v: nat) returns (o: Oracle)
    ensures o.Valid() && o.last == 2 && |o.nodes| == 3
    ensures At(o.past[3], Key(0, 13)).data == 0 && At(o.regs, Key(0, 13)).data == v
  {
    o := RecordSwitch(v);
    o.ReverseExec();
    o.ReverseExec();
    o.ForwardExec();
    assert At(o.regs, Key(0, 13)).data == v;
    o.ForwardExec();
  }
}
