/**
 Register time travel: tool/sherlock/src/delorean/delorean_main.c.  Every executed instruction is
 recorded with the registers it wrote and, for each of them, a node that wrote it before.  The
 oracle moves over the recorded nodes in both directions.  This module is about recordings and
 moves over them; `TimeModes` is about what an instruction does to the registers, and `TimeOracle`
 about the program.

 A node is denoted by its position in the order of execution.  The registers are r0 to r15, CPSR
 and SPSR of every processor.  An instruction may write a register twice: tool/sherlock/src/core/core_cpu.c
 adds a write of r15 to every instruction, also to one that writes r15 itself.
 */
module TimeTravel {
  import opened Common

  predicate Tracked(id: nat) { id < 16 || id == REGID_CPSR || id == REGID_SPSR }

  // A register of a processor, or a place where a banked register is kept.
  datatype Key = Key(cpu: nat, id: nat)

  // reg_t
  datatype Reg = Reg(data: nat, lastWrite: nat)

  // reg_node_t
  datatype Entry = Entry(id: nat, value: nat, lastWrite: nat)

  // inst_node_t of a processor
  datatype Node = Node(cpu: nat, regs: seq<Entry>)

  ghost predicate Known(cpus: nat, k: Key) { k.cpu < cpus && Tracked(k.id) }

  // ---------------------------------------------------------------------------------------------
  // The entries of a node

  // The first entry of a register, from `i` on; the number of entries if there is none.
  function Find(q: seq<Entry>, id: nat, i: nat): (r: nat)
    requires i <= |q|
    ensures i <= r <= |q| && (r < |q| ==> q[r].id == id) && forall j :: i <= j < r ==> q[j].id != id
    decreases |q| - i
  {
    if i == |q| || q[i].id == id then i else Find(q, id, i + 1)
  }

  // The last of the first `n` entries of a register; -1 if there is none.
  function FindLast(q: seq<Entry>, id: nat, n: nat): (r: int)
    requires n <= |q|
    ensures -1 <= r < n && (r >= 0 ==> q[r].id == id) && forall j :: r < j < n ==> q[j].id != id
    decreases n
  {
    if n == 0 then -1 else if q[n - 1].id == id then n - 1 else FindLast(q, id, n - 1)
  }

  ghost predicate Has(q: seq<Entry>, id: nat) { FindLast(q, id, |q|) >= 0 }

  // What the first entry of a register gives, and the value of the last one.
  ghost function First(q: seq<Entry>, id: nat): Reg
  {
    var i := Find(q, id, 0);
    if i < |q| then Reg(q[i].value, q[i].lastWrite) else Reg(0, 0)
  }

  ghost function LastValue(q: seq<Entry>, id: nat): nat
  {
    var i := FindLast(q, id, |q|);
    if i >= 0 then q[i].value else 0
  }

  ghost predicate Repeats(q: seq<Entry>, id: nat) { Find(q, id, 0) < FindLast(q, id, |q|) }

  ghost predicate Writes(n: Node, k: Key) { n.cpu == k.cpu && Has(n.regs, k.id) }

  lemma {:induction false} HasFind(q: seq<Entry>, id: nat)
    ensures Has(q, id) <==> Find(q, id, 0) < |q|
    ensures Has(q, id) ==> Find(q, id, 0) <= FindLast(q, id, |q|)
    ensures Has(q, id) && !Repeats(q, id) ==> First(q, id).data == LastValue(q, id)
  {
  }

  lemma {:induction false} HasAt(q: seq<Entry>, p: nat)
    requires p < |q|
    ensures Has(q, q[p].id) && Find(q, q[p].id, 0) <= p
  {
  }

  // ---------------------------------------------------------------------------------------------
  // What a recording says

  // The last of the first `j` nodes that wrote a register.
  ghost function Link(nodes: seq<Node>, j: nat, k: Key): (r: nat)
    requires j <= |nodes|
    ensures r <= j
  {
    if j == 0 then 0 else if Writes(nodes[j - 1], k) then j - 1 else Link(nodes, j - 1, k)
  }

  // The value that was written last to a register by the first `j` nodes.
  ghost function Value(nodes: seq<Node>, j: nat, k: Key): nat
    requires j <= |nodes|
  {
    if j == 0 then 0 else if Writes(nodes[j - 1], k) then LastValue(nodes[j - 1].regs, k.id) else Value(nodes, j - 1, k)
  }

  ghost function Latest(nodes: seq<Node>, j: nat, k: Key): Reg
    requires j <= |nodes|
  {
    Reg(Value(nodes, j, k), Link(nodes, j, k))
  }

  // The first node from `j` on that writes a register; the number of nodes if there is none.
  ghost function Next(nodes: seq<Node>, j: nat, k: Key): (r: nat)
    requires j <= |nodes|
    ensures j <= r <= |nodes| && (r < |nodes| ==> Writes(nodes[r], k))
    ensures forall i :: j <= i < r ==> !Writes(nodes[i], k)
    decreases |nodes| - j
  {
    if j == |nodes| || Writes(nodes[j], k) then j else Next(nodes, j + 1, k)
  }

  // The first `cpus` nodes are the reset nodes: each writes all the registers of its processor.
  ghost predicate ResetOk(nodes: seq<Node>, i: nat)
    requires i < |nodes|
  {
    && nodes[i].cpu == i && (forall id :: Tracked(id) ==> Writes(nodes[i], Key(i, id)))
    && forall p :: 0 <= p < |nodes[i].regs| ==> nodes[i].regs[p].lastWrite == i
  }

  // A node wrote the register that an entry or a register leads to.
  ghost predicate Leads(nodes: seq<Node>, l: nat, k: Key) { l < |nodes| && Writes(nodes[l], k) }

  // An entry leads to an earlier node that wrote the register, and to its own node if that wrote it before.
  ghost predicate EntryOk(nodes: seq<Node>, i: nat, p: nat)
    requires i < |nodes| && p < |nodes[i].regs|
  {
    var e := nodes[i].regs[p];
    if Find(nodes[i].regs, e.id, 0) < p then e.lastWrite == i
    else e.lastWrite < i && Leads(nodes, e.lastWrite, Key(nodes[i].cpu, e.id))
  }

  ghost predicate NodeOk(nodes: seq<Node>, cpus: nat, i: nat)
    requires i < |nodes|
  {
    && nodes[i].cpu < cpus
    && (forall p :: 0 <= p < |nodes[i].regs| ==> Tracked(nodes[i].regs[p].id))
    && (if i < cpus then ResetOk(nodes, i) else forall p :: 0 <= p < |nodes[i].regs| ==> EntryOk(nodes, i, p))
  }

  /** A recording: every entry knows a node that wrote its register before. */
  ghost predicate Recorded(nodes: seq<Node>, cpus: nat)
  {
    cpus <= |nodes| && forall i :: 0 <= i < |nodes| ==> NodeOk(nodes, cpus, i)
  }

  // A register of a processor was written by a node, at the latest by its reset.
  lemma {:induction false} LinkWrites(nodes: seq<Node>, cpus: nat, j: nat, k: Key)
    requires Recorded(nodes, cpus) && Known(cpus, k) && k.cpu < j <= |nodes|
    ensures Link(nodes, j, k) < j && Writes(nodes[Link(nodes, j, k)], k)
    ensures Value(nodes, j, k) == LastValue(nodes[Link(nodes, j, k)].regs, k.id)
    ensures forall i :: Link(nodes, j, k) < i < j ==> !Writes(nodes[i], k)
  {
    assert NodeOk(nodes, cpus, k.cpu);
    if !Writes(nodes[j - 1], k) { LinkWrites(nodes, cpus, j - 1, k); }
  }

  // The later nodes do not change what the earlier ones say.
  lemma {:induction false} LinkPrefix(nodes: seq<Node>, more: seq<Node>, j: nat, k: Key)
    requires j <= |nodes|
    ensures Latest(nodes + more, j, k) == Latest(nodes, j, k)
  {
    if j > 0 {
      LinkPrefix(nodes, more, j - 1, k);
      assert (nodes + more)[j - 1] == nodes[j - 1];
    }
  }

  // ---------------------------------------------------------------------------------------------
  // Registers and moves

  type Regs = map<Key, Reg>

  function At(regs: Regs, k: Key): Reg { if k in regs then regs[k] else Reg(0, 0) }

  // A state of the oracle: the registers, and the last node that is done.
  datatype Place = Place(regs: Regs, last: nat)

  // What the first entry of a register in node `l` gives.
  ghost function FirstOf(nodes: seq<Node>, l: nat, id: nat): Reg
  {
    if l < |nodes| then First(nodes[l].regs, id) else Reg(0, 0)
  }

  ghost function UndoOne(nodes: seq<Node>, e: Entry, cpu: nat, regs: Regs): Regs
  {
    if e.lastWrite >= |nodes| then regs
    else
      var q := nodes[e.lastWrite].regs;
      if Find(q, e.id, 0) < |q| then regs[Key(cpu, e.id) := First(q, e.id)] else regs
  }

  // `cpu_reverse_exec` after the first `i` entries of `n`.
  ghost function UndoAll(nodes: seq<Node>, n: Node, i: nat, regs: Regs): Regs
    requires i <= |n.regs|
  {
    if i == 0 then regs else UndoOne(nodes, n.regs[i - 1], n.cpu, UndoAll(nodes, n, i - 1, regs))
  }

  // `cpu_forward_exec` after the first `p` entries of `n`, which is node `i`.
  ghost function RedoAll(n: Node, i: nat, p: nat, regs: Regs): Regs
    requires p <= |n.regs|
  {
    if p == 0 then regs else RedoAll(n, i, p - 1, regs)[Key(n.cpu, n.regs[p - 1].id) := Reg(n.regs[p - 1].value, i)]
  }

  // One move; there is none over the reset nodes or past the end.
  ghost function Moved(nodes: seq<Node>, cpus: nat, s: Place, ahead: bool): Place
  {
    if ahead && s.last + 1 < |nodes| then
      var i := s.last + 1;
      Place(RedoAll(nodes[i], i, |nodes[i].regs|, s.regs), i)
    else if !ahead && 0 < cpus <= s.last < |nodes| then
      Place(UndoAll(nodes, nodes[s.last], |nodes[s.last].regs|, s.regs), s.last - 1)
    else s
  }

  ghost function Travelled(nodes: seq<Node>, cpus: nat, s: Place, moves: seq<bool>): Place
  {
    if moves == [] then s
    else Moved(nodes, cpus, Travelled(nodes, cpus, s, moves[..|moves| - 1]), moves[|moves| - 1])
  }

  lemma {:induction false} TravelledMore(nodes: seq<Node>, cpus: nat, s: Place, moves: seq<bool>, ahead: bool)
    ensures Travelled(nodes, cpus, s, moves + [ahead]) == Moved(nodes, cpus, Travelled(nodes, cpus, s, moves), ahead)
  {
    assert (moves + [ahead])[..|moves|] == moves;
  }

  /** What a register shows once node `m`, which wrote it, has been undone: the first entry of the node itself if it
      wrote the register twice, and of the node that its entry leads to otherwise. */
  ghost function Back(nodes: seq<Node>, m: nat, k: Key): nat
    requires m < |nodes|
  {
    if Repeats(nodes[m].regs, k.id) then First(nodes[m].regs, k.id).data
    else FirstOf(nodes, First(nodes[m].regs, k.id).lastWrite, k.id).data
  }

  // What doing node `i` again leaves.
  ghost function Redone(n: Node, i: nat, regs: Regs, k: Key): Reg
  {
    if Writes(n, k) then Reg(LastValue(n.regs, k.id), i) else At(regs, k)
  }

  // Undoing a node undoes the last entry of a register.
  lemma {:induction false} UndoAllAt(nodes: seq<Node>, n: Node, i: nat, regs: Regs, k: Key)
    requires i <= |n.regs|
    requires forall p :: 0 <= p < |n.regs| ==> Leads(nodes, n.regs[p].lastWrite, Key(n.cpu, n.regs[p].id))
    ensures var f := FindLast(n.regs, k.id, i);
      At(UndoAll(nodes, n, i, regs), k) ==
        if k.cpu != n.cpu || f < 0 then At(regs, k) else FirstOf(nodes, n.regs[f].lastWrite, k.id)
    decreases i
  {
    if i > 0 {
      UndoAllAt(nodes, n, i - 1, regs, k);
      assert Leads(nodes, n.regs[i - 1].lastWrite, Key(n.cpu, n.regs[i - 1].id));
      HasFind(nodes[n.regs[i - 1].lastWrite].regs, n.regs[i - 1].id);
    }
  }

  lemma {:induction false} RedoAllAt(n: Node, i: nat, p: nat, regs: Regs, k: Key)
    requires p <= |n.regs|
    ensures var f := FindLast(n.regs, k.id, p);
      At(RedoAll(n, i, p, regs), k) == if k.cpu != n.cpu || f < 0 then At(regs, k) else Reg(n.regs[f].value, i)
    decreases p
  {
    if p > 0 { RedoAllAt(n, i, p - 1, regs, k); }
  }

  // The entries of an instruction lead to nodes that wrote the register.
  lemma {:induction false} LinkedNodes(nodes: seq<Node>, cpus: nat, i: nat)
    requires Recorded(nodes, cpus) && cpus <= i < |nodes|
    ensures forall p :: 0 <= p < |nodes[i].regs| ==>
      Leads(nodes, nodes[i].regs[p].lastWrite, Key(nodes[i].cpu, nodes[i].regs[p].id))
  {
    assert NodeOk(nodes, cpus, i);
    forall p | 0 <= p < |nodes[i].regs|
      ensures Leads(nodes, nodes[i].regs[p].lastWrite, Key(nodes[i].cpu, nodes[i].regs[p].id))
    {
      assert EntryOk(nodes, i, p);
      HasAt(nodes[i].regs, p);
    }
  }

  /** Undoing node `j` makes the registers it wrote show what `Back` says, and leaves the others alone. */
  lemma {:induction false} UndoneAt(nodes: seq<Node>, cpus: nat, j: nat, before: Regs, k: Key)
    requires Recorded(nodes, cpus) && cpus <= j < |nodes|
    ensures var after := UndoAll(nodes, nodes[j], |nodes[j].regs|, before);
      if Writes(nodes[j], k) then At(after, k).data == Back(nodes, j, k) else At(after, k) == At(before, k)
  {
    var q := nodes[j].regs;
    LinkedNodes(nodes, cpus, j);
    UndoAllAt(nodes, nodes[j], |q|, before, k);
    if Writes(nodes[j], k) {
      var f := FindLast(q, k.id, |q|);
      HasFind(q, k.id);
      assert NodeOk(nodes, cpus, j) && EntryOk(nodes, j, f);
      assert Leads(nodes, q[f].lastWrite, k);
    }
  }

  // The link it leaves.
  lemma {:induction false} UndoneLeads(nodes: seq<Node>, cpus: nat, j: nat, before: Regs, k: Key)
    requires Recorded(nodes, cpus) && cpus <= j < |nodes| && Writes(nodes[j], k)
    ensures Leads(nodes, At(UndoAll(nodes, nodes[j], |nodes[j].regs|, before), k).lastWrite, k)
  {
    var q := nodes[j].regs;
    LinkedNodes(nodes, cpus, j);
    UndoAllAt(nodes, nodes[j], |q|, before, k);
    var l := q[FindLast(q, k.id, |q|)].lastWrite;
    assert Leads(nodes, l, k);
    var r := nodes[l].regs;
    HasFind(r, k.id);
    assert NodeOk(nodes, cpus, l);
    if l >= cpus { assert EntryOk(nodes, l, Find(r, k.id, 0)); }
  }

  /** Doing node `j` again gives the registers it wrote their values and links, and leaves the others alone. */
  lemma {:induction false} RedoneAt(nodes: seq<Node>, j: nat, before: Regs, k: Key)
    requires j < |nodes|
    ensures At(RedoAll(nodes[j], j, |nodes[j].regs|, before), k) == Redone(nodes[j], j, before, k)
  {
    RedoAllAt(nodes[j], j, |nodes[j].regs|, before, k);
  }

  // ---------------------------------------------------------------------------------------------
  // What the registers show after any moves

  // A register has what its last writer gave it when that was done again, or shows what undoing its next writer left,
  // or has not been touched since the end.
  ghost predicate ShowsAt(nodes: seq<Node>, cpus: nat, j: nat, regs: Regs, end: Regs, k: Key)
    requires j <= |nodes|
  {
    var n := Next(nodes, j, k);
    || (Link(nodes, j, k) >= cpus && At(regs, k) == Latest(nodes, j, k))
    || (n < |nodes| && At(regs, k).data == Back(nodes, n, k))
    || (n == |nodes| && At(regs, k) == At(end, k))
  }

  ghost predicate Shows(nodes: seq<Node>, cpus: nat, s: Place, end: Regs)
  {
    0 < cpus <= s.last + 1 <= |nodes| && forall k :: Known(cpus, k) ==> ShowsAt(nodes, cpus, s.last + 1, s.regs, end, k)
  }

  lemma {:induction false} EndShows(nodes: seq<Node>, cpus: nat, end: Regs)
    requires 0 < cpus <= |nodes|
    ensures Shows(nodes, cpus, Place(end, |nodes| - 1), end)
  {
  }

  lemma {:induction false} UndoneShows(nodes: seq<Node>, cpus: nat, j: nat, before: Regs, end: Regs, k: Key)
    requires Recorded(nodes, cpus) && cpus <= j < |nodes| && ShowsAt(nodes, cpus, j + 1, before, end, k)
    ensures ShowsAt(nodes, cpus, j, UndoAll(nodes, nodes[j], |nodes[j].regs|, before), end, k)
  {
    UndoneAt(nodes, cpus, j, before, k);
    assert !Writes(nodes[j], k) ==> Next(nodes, j, k) == Next(nodes, j + 1, k);
  }

  lemma {:induction false} RedoneShows(nodes: seq<Node>, cpus: nat, j: nat, before: Regs, end: Regs, k: Key)
    requires cpus <= j < |nodes| && ShowsAt(nodes, cpus, j, before, end, k)
    ensures ShowsAt(nodes, cpus, j + 1, RedoAll(nodes[j], j, |nodes[j].regs|, before), end, k)
  {
    RedoneAt(nodes, j, before, k);
    assert !Writes(nodes[j], k) ==> Next(nodes, j, k) == Next(nodes, j + 1, k);
  }

  lemma {:induction false} BackShows(nodes: seq<Node>, cpus: nat, s: Place, end: Regs)
    requires Recorded(nodes, cpus) && Shows(nodes, cpus, s, end) && cpus <= s.last
    ensures Shows(nodes, cpus, Place(UndoAll(nodes, nodes[s.last], |nodes[s.last].regs|, s.regs), s.last - 1), end)
  {
    var after := UndoAll(nodes, nodes[s.last], |nodes[s.last].regs|, s.regs);
    forall k | Known(cpus, k) ensures ShowsAt(nodes, cpus, s.last, after, end, k) {
      UndoneShows(nodes, cpus, s.last, s.regs, end, k);
    }
  }

  lemma {:induction false} AheadShows(nodes: seq<Node>, cpus: nat, s: Place, end: Regs)
    requires Shows(nodes, cpus, s, end) && s.last + 1 < |nodes|
    ensures var i := s.last + 1; Shows(nodes, cpus, Place(RedoAll(nodes[i], i, |nodes[i].regs|, s.regs), i), end)
  {
    var i := s.last + 1;
    var after := RedoAll(nodes[i], i, |nodes[i].regs|, s.regs);
    forall k | Known(cpus, k) ensures ShowsAt(nodes, cpus, i + 1, after, end, k) {
      RedoneShows(nodes, cpus, i, s.regs, end, k);
    }
  }

  /** Every move keeps it. */
  lemma {:induction false} MovedShows(nodes: seq<Node>, cpus: nat, s: Place, end: Regs, ahead: bool)
    requires Recorded(nodes, cpus) && Shows(nodes, cpus, s, end)
    ensures Shows(nodes, cpus, Moved(nodes, cpus, s, ahead), end)
  {
    if ahead && s.last + 1 < |nodes| {
      AheadShows(nodes, cpus, s, end);
    } else if !ahead && cpus <= s.last {
      BackShows(nodes, cpus, s, end);
    }
  }

  lemma {:induction false} TravelledShows(nodes: seq<Node>, cpus: nat, end: Regs, moves: seq<bool>)
    requires Recorded(nodes, cpus) && 0 < cpus
    ensures Shows(nodes, cpus, Travelled(nodes, cpus, Place(end, |nodes| - 1), moves), end)
    decreases |moves|
  {
    if moves == [] {
      EndShows(nodes, cpus, end);
    } else {
      var front := moves[..|moves| - 1];
      TravelledShows(nodes, cpus, end, front);
      MovedShows(nodes, cpus, Travelled(nodes, cpus, Place(end, |nodes| - 1), front), end, moves[|moves| - 1]);
    }
  }

  // `n` moves in one direction.
  ghost function Same(n: nat, ahead: bool): seq<bool> { if n == 0 then [] else Same(n - 1, ahead) + [ahead] }

  ghost function Straight(nodes: seq<Node>, cpus: nat, s: Place, n: nat, ahead: bool): Place
  {
    if n == 0 then s else Moved(nodes, cpus, Straight(nodes, cpus, s, n - 1, ahead), ahead)
  }

  lemma {:induction false} StraightMoves(nodes: seq<Node>, cpus: nat, s: Place, n: nat, ahead: bool)
    ensures Travelled(nodes, cpus, s, Same(n, ahead)) == Straight(nodes, cpus, s, n, ahead)
  {
    if n > 0 {
      StraightMoves(nodes, cpus, s, n - 1, ahead);
      TravelledMore(nodes, cpus, s, Same(n - 1, ahead), ahead);
    }
  }

  // What a register shows at place `m` when the oracle has come there straight from the end.
  ghost function Shown(nodes: seq<Node>, m: nat, end: Regs, k: Key): nat
    requires m <= |nodes|
  {
    var n := Next(nodes, m, k);
    if n < |nodes| then Back(nodes, n, k) else At(end, k).data
  }

  lemma {:induction false} OneBack(nodes: seq<Node>, cpus: nat, s: Place, end: Regs, k: Key)
    requires Recorded(nodes, cpus) && 0 < cpus <= s.last < |nodes|
    requires At(s.regs, k).data == Shown(nodes, s.last + 1, end, k)
    ensures var t := Moved(nodes, cpus, s, false);
      t.last + 1 == s.last && At(t.regs, k).data == Shown(nodes, s.last, end, k)
  {
    UndoneAt(nodes, cpus, s.last, s.regs, k);
    assert !Writes(nodes[s.last], k) ==> Next(nodes, s.last, k) == Next(nodes, s.last + 1, k);
  }

  /** Straight back from the end every register shows what undoing its next writer leaves, and its value at the end if
      there is none. */
  lemma {:induction false} BackShown(nodes: seq<Node>, cpus: nat, end: Regs, n: nat, k: Key)
    requires Recorded(nodes, cpus) && 0 < cpus && n <= |nodes| - cpus
    ensures var t := Straight(nodes, cpus, Place(end, |nodes| - 1), n, false);
      t.last + 1 == |nodes| - n && At(t.regs, k).data == Shown(nodes, |nodes| - n, end, k)
  {
    if n > 0 {
      BackShown(nodes, cpus, end, n - 1, k);
      OneBack(nodes, cpus, Straight(nodes, cpus, Place(end, |nodes| - 1), n - 1, false), end, k);
    }
  }

  // ---------------------------------------------------------------------------------------------
  // When the past is shown as it was

  // `past[j]` are the registers after the first `j` nodes, when they were recorded.
  type Past = seq<Regs>

  ghost predicate Right(cpus: nat, past: Past, s: Place)
  {
    s.last + 1 < |past| && forall k :: Known(cpus, k) ==> At(s.regs, k).data == At(past[s.last + 1], k).data
  }

  // Node `i` is undone and done again as it happened to register `k`.
  ghost predicate TruthfulAt(nodes: seq<Node>, past: Past, i: nat, k: Key)
    requires i < |nodes| && |past| == |nodes| + 1
  {
    if Writes(nodes[i], k) then
      Back(nodes, i, k) == At(past[i], k).data && LastValue(nodes[i].regs, k.id) == At(past[i + 1], k).data
    else At(past[i], k).data == At(past[i + 1], k).data
  }

  ghost predicate Truthful(nodes: seq<Node>, cpus: nat, past: Past)
    requires |past| == |nodes| + 1
  {
    forall i, k :: cpus <= i < |nodes| && Known(cpus, k) ==> TruthfulAt(nodes, past, i, k)
  }

  // Where a register is not written, it did not change.
  lemma {:induction false} PastKept(nodes: seq<Node>, cpus: nat, past: Past, i: nat, j: nat, k: Key)
    requires |past| == |nodes| + 1 && Truthful(nodes, cpus, past) && Known(cpus, k)
    requires cpus <= i <= j <= |nodes| && forall m :: i <= m < j ==> !Writes(nodes[m], k)
    ensures At(past[i], k).data == At(past[j], k).data
    decreases j
  {
    if i < j {
      PastKept(nodes, cpus, past, i, j - 1, k);
      assert TruthfulAt(nodes, past, j - 1, k);
    }
  }

  lemma {:induction false} TruthfulRight(nodes: seq<Node>, cpus: nat, past: Past, s: Place)
    requires Recorded(nodes, cpus) && |past| == |nodes| + 1 && Truthful(nodes, cpus, past)
    requires Shows(nodes, cpus, s, past[|nodes|])
    ensures Right(cpus, past, s)
  {
    var j := s.last + 1;
    forall k | Known(cpus, k) ensures At(s.regs, k).data == At(past[j], k).data {
      assert ShowsAt(nodes, cpus, j, s.regs, past[|nodes|], k);
      var n, l := Next(nodes, j, k), Link(nodes, j, k);
      PastKept(nodes, cpus, past, j, n, k);
      if n < |nodes| { assert TruthfulAt(nodes, past, n, k); }
      LinkWrites(nodes, cpus, j, k);
      if l >= cpus {
        PastKept(nodes, cpus, past, l + 1, j, k);
        assert TruthfulAt(nodes, past, l, k);
      }
    }
  }

  // The place after some moves from the end.
  ghost function After(nodes: seq<Node>, cpus: nat, end: Regs, moves: seq<bool>): Place
    requires |nodes| > 0
  {
    Travelled(nodes, cpus, Place(end, |nodes| - 1), moves)
  }

  ghost predicate AlwaysRight(nodes: seq<Node>, cpus: nat, past: Past)
    requires |past| == |nodes| + 1 && |nodes| > 0
  {
    forall moves :: Right(cpus, past, After(nodes, cpus, past[|nodes|], moves))
  }

  // The moves back to place `i` show the register as it was there.
  lemma {:induction false} RightBack(nodes: seq<Node>, cpus: nat, past: Past, i: nat, k: Key)
    requires Recorded(nodes, cpus) && 0 < cpus && |past| == |nodes| + 1 && cpus <= i <= |nodes| && Known(cpus, k)
    requires AlwaysRight(nodes, cpus, past)
    ensures Shown(nodes, i, past[|nodes|], k) == At(past[i], k).data
  {
    var end, n := past[|nodes|], |nodes| - i;
    BackShown(nodes, cpus, end, n, k);
    StraightMoves(nodes, cpus, Place(end, |nodes| - 1), n, false);
    assert Right(cpus, past, After(nodes, cpus, end, Same(n, false)));
  }

  // The moves back to node `i` and over it show the register as it was after it.
  lemma {:induction false} RightAgain(nodes: seq<Node>, cpus: nat, past: Past, i: nat, k: Key)
    requires Recorded(nodes, cpus) && 0 < cpus && |past| == |nodes| + 1 && cpus <= i < |nodes| && Known(cpus, k)
    requires AlwaysRight(nodes, cpus, past) && Writes(nodes[i], k)
    ensures LastValue(nodes[i].regs, k.id) == At(past[i + 1], k).data
  {
    var end, back := past[|nodes|], Same(|nodes| - i, false);
    var t := After(nodes, cpus, end, back);
    BackShown(nodes, cpus, end, |nodes| - i, k);
    StraightMoves(nodes, cpus, Place(end, |nodes| - 1), |nodes| - i, false);
    TravelledMore(nodes, cpus, Place(end, |nodes| - 1), back, true);
    assert Right(cpus, past, After(nodes, cpus, end, back + [true]));
    RedoneAt(nodes, i, t.regs, k);
  }

  lemma {:induction false} RightTruthful(nodes: seq<Node>, cpus: nat, past: Past, i: nat, k: Key)
    requires Recorded(nodes, cpus) && 0 < cpus && |past| == |nodes| + 1 && cpus <= i < |nodes| && Known(cpus, k)
    requires AlwaysRight(nodes, cpus, past)
    ensures TruthfulAt(nodes, past, i, k)
  {
    RightBack(nodes, cpus, past, i, k);
    if Writes(nodes[i], k) {
      RightAgain(nodes, cpus, past, i, k);
    } else {
      RightBack(nodes, cpus, past, i + 1, k);
      assert Next(nodes, i, k) == Next(nodes, i + 1, k);
    }
  }

  /** All moves show the registers as they were, if and only if every node is undone and done again as it happened: a
      condition on each node and the registers before and after it. */
  lemma {:induction false} TravelIff(nodes: seq<Node>, cpus: nat, past: Past)
    requires Recorded(nodes, cpus) && 0 < cpus && |past| == |nodes| + 1
    ensures AlwaysRight(nodes, cpus, past) <==> Truthful(nodes, cpus, past)
  {
    if AlwaysRight(nodes, cpus, past) {
      forall i, k | cpus <= i < |nodes| && Known(cpus, k) ensures TruthfulAt(nodes, past, i, k) {
        RightTruthful(nodes, cpus, past, i, k);
      }
    }
    if Truthful(nodes, cpus, past) {
      forall moves ensures Right(cpus, past, After(nodes, cpus, past[|nodes|], moves)) {
        TravelledShows(nodes, cpus, past[|nodes|], moves);
        TruthfulRight(nodes, cpus, past, After(nodes, cpus, past[|nodes|], moves));
      }
    }
  }

  // ---------------------------------------------------------------------------------------------
  // When the end is restored

  ghost predicate SameKnown(cpus: nat, a: Regs, b: Regs) { forall k :: Known(cpus, k) ==> At(a, k) == At(b, k) }

  // The register is as its last writer since the reset left it.
  ghost predicate DoneAt(nodes: seq<Node>, cpus: nat, j: nat, regs: Regs, k: Key)
    requires j <= |nodes|
  {
    Link(nodes, j, k) >= cpus ==> At(regs, k) == Latest(nodes, j, k)
  }

  // The registers that were written since the reset are as their last writers left them.
  ghost predicate EndTold(nodes: seq<Node>, cpus: nat, end: Regs)
  {
    forall k :: Known(cpus, k) ==> DoneAt(nodes, cpus, |nodes|, end, k)
  }

  lemma {:induction false} RedoneDone(nodes: seq<Node>, cpus: nat, j: nat, before: Regs, k: Key)
    requires cpus <= j < |nodes| && DoneAt(nodes, cpus, j, before, k)
    ensures DoneAt(nodes, cpus, j + 1, RedoAll(nodes[j], j, |nodes[j].regs|, before), k)
  {
    RedoneAt(nodes, j, before, k);
  }

  lemma {:induction false} ResetDone(nodes: seq<Node>, cpus: nat, regs: Regs, k: Key)
    requires Recorded(nodes, cpus) && Known(cpus, k)
    ensures DoneAt(nodes, cpus, cpus, regs, k)
  {
    LinkWrites(nodes, cpus, cpus, k);
  }

  lemma {:induction false} AheadDone(nodes: seq<Node>, cpus: nat, t: Place, k: Key)
    requires cpus <= t.last + 1 < |nodes| && DoneAt(nodes, cpus, t.last + 1, t.regs, k)
    ensures var u := Moved(nodes, cpus, t, true);
      u.last == t.last + 1 && DoneAt(nodes, cpus, t.last + 2, u.regs, k)
  {
    RedoneDone(nodes, cpus, t.last + 1, t.regs, k);
  }

  // From the reset nodes ahead, everything is done again.
  lemma {:induction false} AllRedone(nodes: seq<Node>, cpus: nat, s: Place, n: nat, k: Key)
    requires Recorded(nodes, cpus) && s.last + 1 == cpus && cpus + n <= |nodes| && Known(cpus, k)
    ensures var t := Straight(nodes, cpus, s, n, true);
      t.last + 1 == cpus + n && DoneAt(nodes, cpus, cpus + n, t.regs, k)
  {
    if n == 0 {
      ResetDone(nodes, cpus, s.regs, k);
    } else {
      AllRedone(nodes, cpus, s, n - 1, k);
      AheadDone(nodes, cpus, Straight(nodes, cpus, s, n - 1, true), k);
    }
  }

  lemma {:induction false} TravelledOn(nodes: seq<Node>, cpus: nat, s: Place, a: seq<bool>, b: seq<bool>)
    ensures Travelled(nodes, cpus, s, a + b) == Travelled(nodes, cpus, Travelled(nodes, cpus, s, a), b)
    decreases |b|
  {
    if b == [] {
      assert a + b == a;
    } else {
      var front := b[..|b| - 1];
      TravelledOn(nodes, cpus, s, a, front);
      assert (a + b)[..|a + b| - 1] == a + front;
    }
  }

  ghost predicate RestoredBy(nodes: seq<Node>, cpus: nat, end: Regs, moves: seq<bool>)
    requires |nodes| > 0
  {
    var t := After(nodes, cpus, end, moves);
    t.last + 1 == |nodes| ==> SameKnown(cpus, t.regs, end)
  }

  // Back to the reset nodes and ahead to the end.
  ghost function Round(n: nat): seq<bool> { Same(n, false) + Same(n, true) }

  lemma {:induction false} RoundMoves(nodes: seq<Node>, cpus: nat, s: Place, n: nat)
    ensures Travelled(nodes, cpus, s, Round(n)) == Straight(nodes, cpus, Straight(nodes, cpus, s, n, false), n, true)
  {
    TravelledOn(nodes, cpus, s, Same(n, false), Same(n, true));
    StraightMoves(nodes, cpus, s, n, false);
    StraightMoves(nodes, cpus, Straight(nodes, cpus, s, n, false), n, true);
  }

  lemma {:induction false} RoundDone(nodes: seq<Node>, cpus: nat, end: Regs, k: Key)
    requires Recorded(nodes, cpus) && 0 < cpus && Known(cpus, k)
    ensures var t := After(nodes, cpus, end, Round(|nodes| - cpus));
      t.last + 1 == |nodes| && DoneAt(nodes, cpus, |nodes|, t.regs, k)
  {
    var n, s := |nodes| - cpus, Place(end, |nodes| - 1);
    BackShown(nodes, cpus, end, n, k);
    AllRedone(nodes, cpus, Straight(nodes, cpus, s, n, false), n, k);
    RoundMoves(nodes, cpus, s, n);
  }

  lemma {:induction false} RestoredTold(nodes: seq<Node>, cpus: nat, end: Regs)
    requires Recorded(nodes, cpus) && 0 < cpus && RestoredBy(nodes, cpus, end, Round(|nodes| - cpus))
    ensures EndTold(nodes, cpus, end)
  {
    forall k | Known(cpus, k) ensures DoneAt(nodes, cpus, |nodes|, end, k) {
      RoundDone(nodes, cpus, end, k);
    }
  }

  /** All moves that come back to the end leave the registers and their links as they were, if and only if the registers
      written since the reset are as their last writers left them. */
  lemma {:induction false} EndRestoredIff(nodes: seq<Node>, cpus: nat, end: Regs)
    requires Recorded(nodes, cpus) && 0 < cpus
    ensures (forall moves :: RestoredBy(nodes, cpus, end, moves)) <==> EndTold(nodes, cpus, end)
  {
    if EndTold(nodes, cpus, end) {
      forall moves ensures RestoredBy(nodes, cpus, end, moves) {
        var t := After(nodes, cpus, end, moves);
        TravelledShows(nodes, cpus, end, moves);
        if t.last + 1 == |nodes| { EndSame(nodes, cpus, t, end); }
      }
    } else if RestoredBy(nodes, cpus, end, Round(|nodes| - cpus)) {
      RestoredTold(nodes, cpus, end);
    }
  }

  lemma {:induction false} EndSame(nodes: seq<Node>, cpus: nat, t: Place, end: Regs)
    requires Recorded(nodes, cpus) && Shows(nodes, cpus, t, end) && t.last + 1 == |nodes| && EndTold(nodes, cpus, end)
    ensures SameKnown(cpus, t.regs, end)
  {
    forall k | Known(cpus, k) ensures At(t.regs, k) == At(end, k) {
      assert ShowsAt(nodes, cpus, |nodes|, t.regs, end, k) && DoneAt(nodes, cpus, |nodes|, end, k);
    }
  }

  // ---------------------------------------------------------------------------------------------
  // Recordings whose entries tell all that happened

  // Node `i` did to register `k` what its entries say, and they lead to where the register led.
  ghost predicate ToldAt(n: Node, i: nat, before: Regs, after: Regs, k: Key)
  {
    && At(after, k) == Redone(n, i, before, k)
    && (Writes(n, k) ==> First(n.regs, k.id).lastWrite == At(before, k).lastWrite)
  }

  ghost predicate Told(n: Node, i: nat, cpus: nat, before: Regs, after: Regs)
  {
    forall k :: Known(cpus, k) ==> ToldAt(n, i, before, after, k)
  }

  ghost predicate AllTold(nodes: seq<Node>, cpus: nat, past: Past)
  {
    && |past| == |nodes| + 1 && cpus <= |nodes|
    && (forall k :: Known(cpus, k) ==> At(past[cpus], k) == Latest(nodes, cpus, k))
    && forall i :: cpus <= i < |nodes| ==> Told(nodes[i], i, cpus, past[i], past[i + 1])
  }

  /** Then every register was at every place as its last writer left it. */
  lemma {:induction false} ToldPast(nodes: seq<Node>, cpus: nat, past: Past, j: nat, k: Key)
    requires AllTold(nodes, cpus, past) && cpus <= j <= |nodes| && Known(cpus, k)
    ensures At(past[j], k) == Latest(nodes, j, k)
    decreases j
  {
    if j > cpus {
      ToldPast(nodes, cpus, past, j - 1, k);
      assert Told(nodes[j - 1], j - 1, cpus, past[j - 1], past[j]);
      assert ToldAt(nodes[j - 1], j - 1, past[j - 1], past[j], k);
    }
  }

  /** When a register is undone faithfully: an instruction that writes it twice must write the old value first, and
      the instruction that wrote the old value must not have written another one first. */
  lemma {:induction false} FaithfulIff(nodes: seq<Node>, cpus: nat, past: Past, m: nat, k: Key)
    requires Recorded(nodes, cpus) && AllTold(nodes, cpus, past) && Known(cpus, k) && cpus <= m < |nodes|
    ensures var l := Link(nodes, m, k);
      TruthfulAt(nodes, past, m, k) <==>
        (Writes(nodes[m], k) ==>
           if Repeats(nodes[m].regs, k.id) then First(nodes[m].regs, k.id).data == Value(nodes, m, k)
           else Repeats(nodes[l].regs, k.id) ==> First(nodes[l].regs, k.id).data == LastValue(nodes[l].regs, k.id))
  {
    LinkWrites(nodes, cpus, m, k);
    HasFind(nodes[Link(nodes, m, k)].regs, k.id);
    ToldPast(nodes, cpus, past, m, k);
    ToldPast(nodes, cpus, past, m + 1, k);
    assert Told(nodes[m], m, cpus, past[m], past[m + 1]);
    assert ToldAt(nodes[m], m, past[m], past[m + 1], k);
  }

  /** If moreover no instruction writes a register twice, all moves show the registers as they were. */
  lemma {:induction false} DistinctTruthful(nodes: seq<Node>, cpus: nat, past: Past)
    requires Recorded(nodes, cpus) && AllTold(nodes, cpus, past)
    requires forall m, id :: 0 <= m < |nodes| ==> !Repeats(nodes[m].regs, id)
    ensures Truthful(nodes, cpus, past)
  {
    forall i, k | cpus <= i < |nodes| && Known(cpus, k) ensures TruthfulAt(nodes, past, i, k) {
      LinkWrites(nodes, cpus, i, k);
      FaithfulIff(nodes, cpus, past, i, k);
    }
  }

  /** And the end is restored, also if registers are written twice. */
  lemma {:induction false} ToldEnd(nodes: seq<Node>, cpus: nat, past: Past)
    requires AllTold(nodes, cpus, past)
    ensures EndTold(nodes, cpus, past[|nodes|])
  {
    forall k | Known(cpus, k) ensures DoneAt(nodes, cpus, |nodes|, past[|nodes|], k) {
      ToldPast(nodes, cpus, past, |nodes|, k);
    }
  }
}
