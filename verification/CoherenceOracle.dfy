/**
 The write-back automaton of tool/sherlock/src/watson/watson_main.c (`watson_dfa_writeback`), the
 cache and memory events that drive it, and its counters. A byte's words are what the log of its
 accesses says, and each counter is the number of bytes whose log has that verdict.
 */
module CoherenceOracle {
  import opened CoherenceLog

  const MAX_ERRORS := 1000000

  datatype State = Init | Modify | Writeback | Problem

  // A 32-bit word by its bits, the lowest first.
  type Word = b: seq<bool> | |b| == 32 witness NONE

  const BYTE := [false, false, false, false, false, false, false, false]
  const NONE := BYTE + BYTE + BYTE + BYTE

  // `mem_data_t`
  datatype Cell = Cell(state: State, readers: Word, writer: Record, reader: Record, modifier: Record, warned: bool)

  const ZERO := Cell(Init, NONE, Nobody, Nobody, Nobody, false)

  // `problem_t` and `warning_t`
  datatype Problems = Problems(total: nat, modReadAck: nat, modReadReq: nat, writeReadAck: nat, writeFlush: nat)
  datatype Warnings = Warnings(total: nat, modReadAlloc: nat, modWrite: nat)

  // `1 << id`
  function Bit(id: CacheId): Word { NONE[id := true] }

  function At(cells: map<nat, Cell>, a: nat): Cell { if a in cells then cells[a] else ZERO }

  function LogAt(log: map<nat, seq<Entry>>, a: nat): seq<Entry> { if a in log then log[a] else [] }

  // ---------------------------------------------------------------------------------------------
  // What a byte's words mean

  ghost predicate Owned(c: Cell, h: seq<Entry>)
  {
    var q := LastModify(h);
    && c.state == Modify
    && 0 <= q && c.modifier == Of(h[q].access)
    && c.reader == LastReader(h)
    && c.writer == Nobody
  }

  ghost predicate Readers(readers: Word, h: seq<Entry>)
  {
    forall id: CacheId :: readers[id] <==> Sharer(h, id)
  }

  ghost predicate Shared(c: Cell, h: seq<Entry>)
  {
    var w := LastWrite(h);
    && c.state == Writeback
    && 0 <= w && c.writer == Of(h[w].access)
    && c.reader == LastReader(h)
    && c.modifier == Nobody
    && Readers(c.readers, h)
  }

  ghost predicate Matches(c: Cell, h: seq<Entry>)
  {
    && (c.state == Problem <==> VerdictOf(h) != Fine)
    && (c.warned <==> WarningOf(h) != Quiet)
    && (c.state != Problem && LastModify(h) < 0 ==> c.state == Init)
    && (c.state != Problem && Modifying(h) ==> Owned(c, h))
    && (c.state != Problem && WrittenBack(h) ==> Shared(c, h))
  }

  ghost predicate AllMatch(cells: map<nat, Cell>, log: map<nat, seq<Entry>>)
  {
    forall a: nat :: Matches(At(cells, a), LogAt(log, a))
  }

  ghost predicate Elsewhere(cells: map<nat, Cell>, after: map<nat, Cell>, addr: nat)
  {
    forall a: nat :: a != addr ==> At(after, a) == At(cells, a)
  }

  // ---------------------------------------------------------------------------------------------
  // What the counters mean

  ghost function Judged(log: map<nat, seq<Entry>>, v: Verdict): set<nat>
  {
    set a | a in log && VerdictOf(log[a]) == v
  }

  ghost function Warned(log: map<nat, seq<Entry>>, w: Warning): set<nat>
  {
    set a | a in log && WarningOf(log[a]) == w
  }

  ghost predicate ProblemsTallied(p: Problems, undefined: nat, log: map<nat, seq<Entry>>)
  {
    && p.modReadAck == |Judged(log, ModReadAck)|
    && p.modReadReq == |Judged(log, ModReadReq)|
    && p.writeReadAck == |Judged(log, WriteReadAck)|
    && p.writeFlush == |Judged(log, WriteFlush)|
    && undefined == |Judged(log, Undefined)|
    && p.total == p.modReadAck + p.modReadReq + p.writeReadAck + p.writeFlush
  }

  ghost predicate WarningsTallied(w: Warnings, log: map<nat, seq<Entry>>)
  {
    && w.modReadAlloc == |Warned(log, ModReadAlloc)|
    && w.modWrite == |Warned(log, ModWrite)|
    && w.total == w.modReadAlloc + w.modWrite
  }

  function CountProblem(p: Problems, v: Verdict): Problems
  {
    match v
    case ModReadAck => p.(total := p.total + 1, modReadAck := p.modReadAck + 1)
    case ModReadReq => p.(total := p.total + 1, modReadReq := p.modReadReq + 1)
    case WriteReadAck => p.(total := p.total + 1, writeReadAck := p.writeReadAck + 1)
    case WriteFlush => p.(total := p.total + 1, writeFlush := p.writeFlush + 1)
    case _ => p
  }

  function CountWarning(w: Warnings, k: Warning): Warnings
  {
    match k
    case ModReadAlloc => w.(total := w.total + 1, modReadAlloc := w.modReadAlloc + 1)
    case ModWrite => w.(total := w.total + 1, modWrite := w.modWrite + 1)
    case Quiet => w
  }

  function CountUndefined(u: nat, v: Verdict): nat { if v == Undefined then u + 1 else u }

  function More(log: map<nat, seq<Entry>>, a: nat, e: Entry): map<nat, seq<Entry>> { log[a := LogAt(log, a) + [e]] }

  lemma OneMore(s: set<nat>, t: set<nat>, a: nat)
    requires a in s ==> a in t
    requires forall x :: x != a ==> (x in s <==> x in t)
    ensures |t| == |s| + if a in t && a !in s then 1 else 0
  {
    if a in t && a !in s {
      assert t == s + {a};
    } else {
      assert t == s;
    }
  }

  lemma JudgedMore(log: map<nat, seq<Entry>>, a: nat, e: Entry, v: Verdict)
    requires v != Fine
    ensures |Judged(More(log, a, e), v)|
         == |Judged(log, v)| + if VerdictOf(LogAt(log, a)) == Fine && Blame(LogAt(log, a), e) == v then 1 else 0
  {
    VerdictMore(LogAt(log, a), e);
    OneMore(Judged(log, v), Judged(More(log, a, e), v), a);
  }

  lemma WarnedMore(log: map<nat, seq<Entry>>, a: nat, e: Entry, w: Warning)
    requires w != Quiet
    ensures |Warned(More(log, a, e), w)|
         == |Warned(log, w)|
            + if WarningOf(LogAt(log, a)) == Quiet && VerdictOf(LogAt(log, a)) == Fine && Warn(LogAt(log, a), e) == w
              then 1 else 0
  {
    WarningMore(LogAt(log, a), e);
    OneMore(Warned(log, w), Warned(More(log, a, e), w), a);
  }

  // The verdict and the warning that one more access adds.
  ghost function NewVerdict(h: seq<Entry>, e: Entry): Verdict { if VerdictOf(h) == Fine then Blame(h, e) else Fine }

  ghost function NewWarning(h: seq<Entry>, e: Entry): Warning
  {
    if WarningOf(h) == Quiet && VerdictOf(h) == Fine then Warn(h, e) else Quiet
  }

  lemma ProblemsMore(p: Problems, u: nat, log: map<nat, seq<Entry>>, a: nat, e: Entry)
    requires ProblemsTallied(p, u, log)
    ensures var v := NewVerdict(LogAt(log, a), e);
            ProblemsTallied(CountProblem(p, v), CountUndefined(u, v), More(log, a, e))
  {
    JudgedMore(log, a, e, ModReadAck);
    JudgedMore(log, a, e, ModReadReq);
    JudgedMore(log, a, e, WriteReadAck);
    JudgedMore(log, a, e, WriteFlush);
    JudgedMore(log, a, e, Undefined);
  }

  lemma WarningsMore(w: Warnings, log: map<nat, seq<Entry>>, a: nat, e: Entry)
    requires WarningsTallied(w, log)
    ensures WarningsTallied(CountWarning(w, NewWarning(LogAt(log, a), e)), More(log, a, e))
  {
    WarnedMore(log, a, e, ModReadAlloc);
    WarnedMore(log, a, e, ModWrite);
  }

  datatype Counters = Counters(problem: Problems, undefined: nat, warning: Warnings)

  ghost predicate Tallied(t: Counters, log: map<nat, seq<Entry>>)
  {
    ProblemsTallied(t.problem, t.undefined, log) && WarningsTallied(t.warning, log)
  }

  // The counters after one more access to a byte.
  ghost function CountAccess(t: Counters, h: seq<Entry>, e: Entry): Counters
  {
    var v := NewVerdict(h, e);
    Counters(CountProblem(t.problem, v), CountUndefined(t.undefined, v), CountWarning(t.warning, NewWarning(h, e)))
  }

  lemma TallyMore(t: Counters, log: map<nat, seq<Entry>>, a: nat, e: Entry)
    requires Tallied(t, log)
    ensures Tallied(CountAccess(t, LogAt(log, a), e), More(log, a, e))
  {
    ProblemsMore(t.problem, t.undefined, log, a, e);
    WarningsMore(t.warning, log, a, e);
  }

  // ---------------------------------------------------------------------------------------------
  // One more access, state by state

  lemma ProblemStays(c: Cell, h: seq<Entry>, e: Entry)
    requires Matches(c, h) && c.state == Problem
    ensures Matches(c, h + [e]) && NewVerdict(h, e) == Fine && NewWarning(h, e) == Quiet
  {
    VerdictMore(h, e);
    WarningMore(h, e);
  }

  lemma OneReader(h: seq<Entry>, e: Entry)
    requires e.kind == WriteReq
    ensures Readers(Bit(e.access.id), h + [e])
  {
    forall id: CacheId ensures Bit(e.access.id)[id] <==> Sharer(h + [e], id) {
      SharerMore(h, e, id);
    }
  }

  lemma ReaderAdded(readers: Word, h: seq<Entry>, e: Entry)
    requires Fetch(e.kind) && 0 <= LastWrite(h) && Readers(readers, h)
    ensures Readers(readers[e.access.id := true], h + [e])
  {
    forall id: CacheId ensures readers[e.access.id := true][id] <==> Sharer(h + [e], id) {
      SharerMore(h, e, id);
    }
  }

  lemma ReadersKept(readers: Word, h: seq<Entry>, e: Entry)
    requires e.kind != WriteReq && !Fetch(e.kind) && 0 <= LastWrite(h) && Readers(readers, h)
    ensures Readers(readers, h + [e])
  {
    forall id: CacheId ensures readers[id] <==> Sharer(h + [e], id) {
      SharerMore(h, e, id);
    }
  }

  lemma AccessMore(h: seq<Entry>, e: Entry)
    ensures VerdictOf(h + [e]) == if VerdictOf(h) != Fine then VerdictOf(h) else Blame(h, e)
    ensures WarningOf(h + [e])
         == if WarningOf(h) != Quiet || VerdictOf(h) != Fine then WarningOf(h) else Warn(h, e)
    ensures LastModify(h + [e]) == if e.kind == ModifyAck then |h| else LastModify(h)
    ensures LastWrite(h + [e]) == if e.kind == WriteReq then |h| else LastWrite(h)
    ensures WrittenBack(h + [e])
         <==> e.kind != ModifyAck
              && (WrittenBack(h)
                  || (e.kind == WriteReq && 0 <= LastModify(h) && h[LastModify(h)].access.id == e.access.id))
    ensures LastReader(h + [e])
         == if Drops(h, e) then Nobody else if Records(h, e) then Of(e.access) else LastReader(h)
    ensures forall k :: 0 <= k < |h| ==> (h + [e])[k] == h[k]
    ensures (h + [e])[|h|] == e
  {
    VerdictMore(h, e);
    WarningMore(h, e);
    LastOfMore(h, e, ModifyAck);
    LastOfMore(h, e, WriteReq);
    WrittenMore(h, e);
    ReaderMore(h, e);
  }

  lemma MatchMore(cells: map<nat, Cell>, after: map<nat, Cell>, log: map<nat, seq<Entry>>, addr: nat, e: Entry)
    requires AllMatch(cells, log) && Elsewhere(cells, after, addr)
    requires Matches(At(after, addr), LogAt(log, addr) + [e])
    ensures AllMatch(after, More(log, addr, e))
  {
    forall a: nat ensures Matches(At(after, a), LogAt(More(log, addr, e), a)) {
      if a != addr {
        assert Matches(At(cells, a), LogAt(log, a));
      }
    }
  }

  ghost predicate Sound(cells: map<nat, Cell>, t: Counters, log: map<nat, seq<Entry>>)
  {
    AllMatch(cells, log) && Tallied(t, log)
  }

  lemma SoundMore(cells: map<nat, Cell>, after: map<nat, Cell>, t: Counters, log: map<nat, seq<Entry>>, addr: nat,
                  e: Entry)
    requires Sound(cells, t, log) && Elsewhere(cells, after, addr)
    requires Matches(At(after, addr), LogAt(log, addr) + [e])
    ensures Sound(after, CountAccess(t, LogAt(log, addr), e), More(log, addr, e))
  {
    TallyMore(t, log, addr, e);
    MatchMore(cells, after, log, addr, e);
  }

  // All counters zero.
  function Nothing(): (t: Counters)
    ensures t.problem.total <= MAX_ERRORS
    ensures Sound(map[], t, map[])
  {
    assert forall v :: Judged(map[], v) == {};
    assert forall w :: Warned(map[], w) == {};
    Counters(Problems(0, 0, 0, 0, 0), 0, Warnings(0, 0, 0))
  }

  // Only reads are problems of a modified byte.
  lemma OwnedFine(c: Cell, h: seq<Entry>, e: Entry)
    requires Matches(c, h) && c.state == Modify && e.kind != ReadAck && e.kind != ReadReq
    ensures NewVerdict(h, e) in {Fine, Undefined}
  {
  }

  // Only acknowledged reads and writes are problems of a shared byte.
  lemma SharedFine(c: Cell, h: seq<Entry>, e: Entry)
    requires Matches(c, h) && c.state == Writeback && e.kind != ReadAck && e.kind != WriteReq
    ensures NewVerdict(h, e) in {Fine, Undefined}
  {
  }

  class Oracle {
    var cells: map<nat, Cell>
    var problem: Problems
    var warning: Warnings
    var undefined: nat
    var exited: bool
    ghost var log: map<nat, seq<Entry>>

    ghost predicate Inv()
      reads this
    {
      && !exited
      && problem.total <= MAX_ERRORS
      && Sound(cells, Counts(), log)
    }

    ghost function Counts(): Counters
      reads this
    {
      Counters(problem, undefined, warning)
    }

    constructor ()
      ensures Inv() == !exited && !exited && log == map[]
    {
      var none := Nothing();
      cells, log := map[], map[];
      problem, warning, undefined, exited := none.problem, none.warning, none.undefined, false;
    }

    /** `PRINT_PROBLEM`: one problem too many ends the program. */
    method Problem()
      requires problem.total <= MAX_ERRORS && !exited
      modifies this
      ensures problem == old(problem).(total := old(problem).total + 1)
      ensures exited <==> problem.total > 1000000
      ensures cells == old(cells) && warning == old(warning) && undefined == old(undefined) && log == old(log)
    {
      problem := problem.(total := problem.total + 1);
      exited := problem.total > MAX_ERRORS;
    }

    // STATE_INIT
    method OnInit(addr: nat, e: Entry, ghost h: seq<Entry>)
      requires Matches(At(cells, addr), h) && At(cells, addr).state == Init
      modifies this`cells
      ensures cells == old(cells)[addr := At(cells, addr)] && Matches(At(cells, addr), h + [e])
      ensures Counts() == CountAccess(old(Counts()), h, e)
    {
      var c := At(cells, addr);
      AccessMore(h, e);
      if e.kind == ModifyAck {
        c := c.(writer := Nobody, modifier := Of(e.access), reader := Nobody, readers := Bit(e.access.id),
          state := Modify);
      }
      cells := cells[addr := c];
    }

    // EVENT_READ_ACK and EVENT_READ_REQ in STATE_MODIFY
    method OnOwnedRead(addr: nat, e: Entry, ghost h: seq<Entry>)
      requires Matches(At(cells, addr), h) && At(cells, addr).state == Modify
      requires (e.kind == ReadAck || e.kind == ReadReq)
      requires problem.total <= MAX_ERRORS && !exited
      modifies this
      ensures log == old(log)
      ensures exited ==> problem.total == MAX_ERRORS + 1 && NewVerdict(h, e) in {ModReadAck, ModReadReq}
      ensures !exited ==> cells == old(cells)[addr := At(cells, addr)] && Matches(At(cells, addr), h + [e])
      ensures !exited ==> Counts() == CountAccess(old(Counts()), h, e) && problem.total <= MAX_ERRORS
    {
      var c := At(cells, addr);
      AccessMore(h, e);
      c := c.(reader := Of(e.access));
      if e.kind == ReadReq || Id(c.modifier) != e.access.id {
        if Pos(c.modifier) > e.access.pre {
          undefined := undefined + 1;
        } else {
          Problem();
          if exited { return; }
          if e.kind == ReadAck {
            problem := problem.(modReadAck := problem.modReadAck + 1);
          } else {
            problem := problem.(modReadReq := problem.modReadReq + 1);
          }
        }
        c := c.(state := State.Problem);
      }
      cells := cells[addr := c];
    }

    // The other events in STATE_MODIFY
    method OnOwned(addr: nat, e: Entry, ghost h: seq<Entry>)
      requires Matches(At(cells, addr), h) && At(cells, addr).state == Modify && e.kind != ReadAck && e.kind != ReadReq
      modifies this`cells, this`undefined, this`warning
      ensures cells == old(cells)[addr := At(cells, addr)] && Matches(At(cells, addr), h + [e])
      ensures Counts() == CountAccess(old(Counts()), h, e)
    {
      var c := At(cells, addr);
      AccessMore(h, e);
      match e.kind {
        case AllocReq =>
          if !c.warned {
            c := c.(warned := true);
            warning := warning.(modReadAlloc := warning.modReadAlloc + 1, total := warning.total + 1);
          }
        case ModifyAck =>
          if Pos(c.reader) > e.access.pre || (Id(c.modifier) != e.access.id && Pos(c.modifier) > e.access.pre) {
            undefined := undefined + 1;
            c := c.(state := State.Problem);
          } else {
            c := c.(writer := Nobody, reader := Nobody, modifier := Of(e.access), readers := Bit(e.access.id));
          }
        case WriteReq =>
          if Id(c.modifier) == e.access.id {
            if Pos(c.modifier) > e.access.pre {
              undefined := undefined + 1;
              c := c.(state := State.Problem);
            } else {
              c := c.(writer := Of(e.access), reader := Nobody, modifier := Nobody,
                      readers := Bit(e.access.id), state := Writeback);
              OneReader(h, e);
            }
          } else if !c.warned {
            warning := warning.(modWrite := warning.modWrite + 1, total := warning.total + 1);
            c := c.(warned := true);
          }
        case WriteAck =>
      }
      cells := cells[addr := c];
    }

    /** STATE_MODIFY. */
    method OnModify(addr: nat, e: Entry, ghost h: seq<Entry>)
      requires Matches(At(cells, addr), h) && At(cells, addr).state == Modify
      requires problem.total <= MAX_ERRORS && !exited
      modifies this
      ensures log == old(log)
      ensures exited ==> problem.total == MAX_ERRORS + 1 && NewVerdict(h, e) in {ModReadAck, ModReadReq}
      ensures !exited ==> cells == old(cells)[addr := At(cells, addr)] && Matches(At(cells, addr), h + [e])
      ensures !exited ==> Counts() == CountAccess(old(Counts()), h, e) && problem.total <= MAX_ERRORS
    {
      if e.kind == ReadAck || e.kind == ReadReq {
        OnOwnedRead(addr, e, h);
      } else {
        OwnedFine(At(cells, addr), h, e);
        OnOwned(addr, e, h);
      }
    }

    // EVENT_READ_ACK in STATE_WRITEBACK
    method OnFilled(addr: nat, e: Entry, ghost h: seq<Entry>)
      requires Matches(At(cells, addr), h) && At(cells, addr).state == Writeback && e.kind == ReadAck
      requires problem.total <= MAX_ERRORS && !exited
      modifies this
      ensures log == old(log)
      ensures exited ==> problem.total == MAX_ERRORS + 1 && NewVerdict(h, e) == WriteReadAck
      ensures !exited ==> cells == old(cells)[addr := At(cells, addr)] && Matches(At(cells, addr), h + [e])
      ensures !exited ==> Counts() == CountAccess(old(Counts()), h, e) && problem.total <= MAX_ERRORS
    {
      var c := At(cells, addr);
      AccessMore(h, e);
      c := c.(reader := Of(e.access));
      if !c.readers[e.access.id] {
        if Pos(c.writer) > e.access.pre {
          undefined := undefined + 1;
        } else {
          Problem();
          if exited { return; }
          problem := problem.(writeReadAck := problem.writeReadAck + 1);
        }
        c := c.(state := State.Problem);
      }
      ReadersKept(c.readers, h, e);
      cells := cells[addr := c];
    }

    // EVENT_WRITE_REQ in STATE_WRITEBACK
    method OnFlushed(addr: nat, e: Entry, ghost h: seq<Entry>)
      requires Matches(At(cells, addr), h) && At(cells, addr).state == Writeback && e.kind == WriteReq
      requires problem.total <= MAX_ERRORS && !exited
      modifies this
      ensures log == old(log)
      ensures exited ==> problem.total == MAX_ERRORS + 1 && NewVerdict(h, e) == WriteFlush
      ensures !exited ==> cells == old(cells)[addr := At(cells, addr)] && Matches(At(cells, addr), h + [e])
      ensures !exited ==> Counts() == CountAccess(old(Counts()), h, e) && problem.total <= MAX_ERRORS
    {
      var c := At(cells, addr);
      AccessMore(h, e);
      if Pos(c.writer) > e.access.pre {
        undefined := undefined + 1;
        c := c.(state := State.Problem);
      } else if c.readers[e.access.id] {
        c := c.(writer := Of(e.access), reader := Nobody, modifier := Nobody, readers := Bit(e.access.id));
        OneReader(h, e);
      } else {
        c := c.(state := State.Problem);
        Problem();
        if exited { return; }
        problem := problem.(writeFlush := problem.writeFlush + 1);
      }
      cells := cells[addr := c];
    }

    // The other events in STATE_WRITEBACK
    method OnShared(addr: nat, e: Entry, ghost h: seq<Entry>)
      requires Matches(At(cells, addr), h) && At(cells, addr).state == Writeback && e.kind != ReadAck
      requires e.kind != WriteReq
      modifies this`cells, this`undefined
      ensures cells == old(cells)[addr := At(cells, addr)] && Matches(At(cells, addr), h + [e])
      ensures Counts() == CountAccess(old(Counts()), h, e)
    {
      var c := At(cells, addr);
      AccessMore(h, e);
      match e.kind {
        case ReadReq =>
          ReaderAdded(c.readers, h, e);
          c := c.(reader := Of(e.access), readers := c.readers[e.access.id := true]);
        case AllocReq =>
          ReaderAdded(c.readers, h, e);
          c := c.(reader := Of(e.access), readers := c.readers[e.access.id := true]);
        case ModifyAck =>
          if Pos(c.writer) > e.access.pre || Pos(c.reader) > e.access.pre {
            undefined := undefined + 1;
            c := c.(state := State.Problem);
          } else {
            c := c.(writer := Nobody, modifier := Of(e.access), readers := Bit(e.access.id), state := Modify);
          }
        case WriteAck =>
          ReadersKept(c.readers, h, e);
      }
      cells := cells[addr := c];
    }

    /** STATE_WRITEBACK. */
    method OnWriteback(addr: nat, e: Entry, ghost h: seq<Entry>)
      requires Matches(At(cells, addr), h) && At(cells, addr).state == Writeback
      requires problem.total <= MAX_ERRORS && !exited
      modifies this
      ensures log == old(log)
      ensures exited ==> problem.total == MAX_ERRORS + 1 && NewVerdict(h, e) in {WriteReadAck, WriteFlush}
      ensures !exited ==> cells == old(cells)[addr := At(cells, addr)] && Matches(At(cells, addr), h + [e])
      ensures !exited ==> Counts() == CountAccess(old(Counts()), h, e) && problem.total <= MAX_ERRORS
    {
      if e.kind == ReadAck {
        OnFilled(addr, e, h);
      } else if e.kind == WriteReq {
        OnFlushed(addr, e, h);
      } else {
        SharedFine(At(cells, addr), h, e);
        OnShared(addr, e, h);
      }
    }

    // The switch of `watson_dfa_writeback`.
    method Switch(addr: nat, e: Entry, ghost h: seq<Entry>)
      requires Matches(At(cells, addr), h)
      requires problem.total <= MAX_ERRORS && !exited
      modifies this
      ensures log == old(log)
      ensures exited ==> problem.total == MAX_ERRORS + 1 && NewVerdict(h, e) !in {Fine, Undefined}
      ensures !exited ==> Matches(At(cells, addr), h + [e]) && Elsewhere(old(cells), cells, addr)
      ensures !exited ==> Counts() == CountAccess(old(Counts()), h, e) && problem.total <= MAX_ERRORS
    {
      match At(cells, addr).state {
        case Init => OnInit(addr, e, h);
        case Modify => OnModify(addr, e, h);
        case Writeback => OnWriteback(addr, e, h);
        case Problem => ProblemStays(At(cells, addr), h, e);
      }
    }

    /** `watson_dfa_writeback` */
    method Dfa(addr: nat, e: Entry)
      requires Inv()
      modifies this
      ensures log == More(old(log), addr, e)
      ensures Inv() == !exited
      ensures exited ==> problem.total == 1000001
    {
      ghost var h, t := LogAt(log, addr), Counts();
      assert Matches(At(cells, addr), h);
      Switch(addr, e, h);
      if !exited {
        SoundMore(old(cells), cells, t, log, addr, e);
      }
      log := More(log, addr, e);
    }
  }
}
