/**
 The reader that tool/sherlock/src/watson/watson_main.c remembers for a byte, and what the order
 checks find and miss because it is only one.
 */
module CoherenceReaders {
  import opened CoherenceLog
  import opened CoherenceOracle
  import opened CoherenceTheorems
  import opened CoherenceRun

  // Access `r` is the reader on record after `h`.
  ghost predicate Reader(h: seq<Entry>, r: int)
  {
    && 0 <= r < |h| && Records(h[..r], h[r]) && !Drops(h[..r], h[r])
    && forall j :: r < j < |h| ==> Passes(h, j)
  }

  // Access `j` leaves the reader on record alone.
  ghost predicate Passes(h: seq<Entry>, j: int)
    requires 0 <= j < |h|
  {
    !Records(h[..j], h[j]) && !Drops(h[..j], h[j])
  }

  lemma {:induction false} ReaderFront(h: seq<Entry>, r: int)
    requires |h| > 0 && 0 <= r < |h| - 1
    ensures Reader(h, r) <==> Reader(h[..|h| - 1], r) && Passes(h, |h| - 1)
  {
    var g := h[..|h| - 1];
    forall j | 0 <= j < |g| ensures g[..j] == h[..j] && g[j] == h[j] {
    }
    if Reader(g, r) && Passes(h, |h| - 1) {
      forall j | r < j < |h| ensures Passes(h, j) {
        if j < |g| { assert Passes(g, j); }
      }
    }
    if Reader(h, r) {
      forall j | r < j < |g| ensures Passes(g, j) { assert Passes(h, j); }
    }
  }

  lemma {:induction false} ReaderKnown(h: seq<Entry>) returns (r: int)
    requires LastReader(h) != Nobody
    ensures Reader(h, r) && Of(h[r].access) == LastReader(h)
    decreases |h|
  {
    var n := |h| - 1;
    if Records(h[..n], h[n]) && !Drops(h[..n], h[n]) {
      r := n;
    } else {
      r := ReaderKnown(h[..n]);
      ReaderFront(h, r);
    }
  }

  lemma {:induction false} ReaderOne(h: seq<Entry>, r: int)
    requires Reader(h, r)
    ensures Of(h[r].access) == LastReader(h)
    decreases |h|
  {
    var n := |h| - 1;
    if r < n {
      ReaderFront(h, r);
      ReaderOne(h[..n], r);
    }
  }

  /** The reader the automaton has on record is the access that set it last, if none since dropped it. */
  lemma {:induction false} ReaderIff(h: seq<Entry>, a: Access)
    ensures LastReader(h) == Of(a) <==> exists r :: Reader(h, r) && h[r].access == a
  {
    if LastReader(h) == Of(a) { var r := ReaderKnown(h); }
    if exists r :: Reader(h, r) && h[r].access == a {
      var r :| Reader(h, r) && h[r].access == a;
      ReaderOne(h, r);
    }
  }

  // ---------------------------------------------------------------------------------------------
  // Undefined orders

  // Access `i` is the last write of a byte that was written back.
  ghost predicate LastWritten(h: seq<Entry>, i: int, k: int)
  {
    0 <= i < k < |h| && h[i].kind == WriteReq && None(h, i, k, WriteReq) && WrittenBack(h[..k])
  }

  // The pairs of accesses whose order is checked.
  ghost predicate Checks(h: seq<Entry>, i: int, k: int)
  {
    && 0 <= i < k < |h|
    && match h[k].kind {
         case ReadAck => (Unwritten(h, i, k) && h[i].access.id != h[k].access.id) || Stale(h, i, k)
         case ReadReq => Unwritten(h, i, k)
         case ModifyAck =>
           || Reader(h[..k], i) || (Unwritten(h, i, k) && h[i].access.id != h[k].access.id) || LastWritten(h, i, k)
         case WriteReq => (Unwritten(h, i, k) && h[i].access.id == h[k].access.id) || LastWritten(h, i, k)
         case _ => false
       }
  }

  ghost predicate Fails(h: seq<Entry>, i: int, k: int)
  {
    Checks(h, i, k) && !Before(h[i].access, h[k].access)
  }

  lemma {:induction false} LastWrittenIff(h: seq<Entry>, i: int, k: int)
    requires 0 <= k < |h|
    ensures LastWritten(h, i, k) <==> WrittenBack(h[..k]) && 0 <= i && LastWrite(h[..k]) == i
  {
    LastHas(h, k, WriteReq);
    if LastWritten(h, i, k) { LastIs(h, k, i, WriteReq); }
  }

  // A reader on record means that the byte was modified before.
  lemma {:induction false} ReaderAfterModify(h: seq<Entry>, r: int)
    requires Reader(h, r)
    ensures 0 <= LastModify(h)
  {
    var q := LastModify(h[..r]);
    assert h[..r][q] == h[q];
  }

  lemma {:induction false} FailsUndefined(h: seq<Entry>, i: int, k: int)
    requires Fails(h, i, k)
    ensures Blame(h[..k], h[k]) == Undefined
  {
    var g := h[..k];
    UnwrittenIff(h, i, k);
    StaleIff(h, i, k);
    LastWrittenIff(h, i, k);
    LastHas(h, k, ModifyAck);
    LastHas(h, k, WriteReq);
    if h[k].kind == ModifyAck && Reader(g, i) {
      ReaderAfterModify(g, i);
      ReaderIff(g, h[i].access);
      assert g[i] == h[i];
    }
  }

  lemma {:induction false} UndefinedFails(h: seq<Entry>, k: int)
    requires 0 <= k < |h| && Blame(h[..k], h[k]) == Undefined
    ensures exists i :: Fails(h, i, k)
  {
    var g := h[..k];
    LastHas(h, k, ModifyAck);
    LastHas(h, k, WriteReq);
    var q, w := LastModify(g), LastWrite(g);
    UnwrittenIff(h, q, k);
    StaleIff(h, w, k);
    LastWrittenIff(h, w, k);
    if h[k].kind == ModifyAck && Pos(LastReader(g)) > h[k].access.pre {
      ReaderIff(g, LastReader(g).access);
      var r :| Reader(g, r) && g[r].access == LastReader(g).access;
      assert g[r] == h[r];
      assert Fails(h, r, k);
    } else if Modifying(g) {
      assert Fails(h, q, k);
    } else {
      assert Fails(h, w, k);
    }
  }

  /** An order is undefined exactly when the first fault is a checked pair of accesses that are not in order. */
  lemma {:induction false} UndefinedIff(h: seq<Entry>)
    ensures VerdictOf(h) == Undefined <==> exists i, k :: Fails(h, i, k) && VerdictOf(h[..k]) == Fine
  {
    if VerdictOf(h) == Undefined {
      var k := FirstFault(h);
      UndefinedFails(h, k);
    }
    if exists i, k :: Fails(h, i, k) && VerdictOf(h[..k]) == Fine {
      var i, k :| Fails(h, i, k) && VerdictOf(h[..k]) == Fine;
      FailsUndefined(h, i, k);
      FaultStays(h, k);
    }
  }

  // ---------------------------------------------------------------------------------------------
  // Modifications that overtake a reader

  predicate Reads(kind: Kind) { kind == ReadAck || Fetch(kind) }

  // A read of the value in memory, and the last one.
  ghost predicate ReadSince(h: seq<Entry>, r: int) { LastWrite(h) < r < |h| && 0 <= r && Reads(h[r].kind) }

  ghost predicate LastRead(h: seq<Entry>, r: int)
  {
    ReadSince(h, r) && forall j :: ReadSince(h, j) ==> j <= r
  }

  // Once written back, a byte stays so until the next modification.
  lemma {:induction false} StaysWritten(h: seq<Entry>, j: int)
    requires WrittenBack(h) && LastWrite(h) < j <= |h|
    ensures WrittenBack(h[..j]) && LastModify(h[..j]) == LastModify(h) < LastWrite(h)
  {
    var q := LastModify(h);
    var k :| q < k && WriteBy(h, k, h[q].access.id);
    assert k <= LastWrite(h);
    LastIs(h, j, q, ModifyAck);
    assert h[..j][q] == h[q] && WriteBy(h[..j], k, h[q].access.id);
  }

  /** For a byte that was written back, the reader on record is its last read since. */
  lemma {:induction false} ReaderIsLast(h: seq<Entry>, r: int)
    requires WrittenBack(h)
    ensures Reader(h, r) <==> LastRead(h, r)
  {
    var w := LastWrite(h);
    forall j | w < j < |h| ensures Drops(h[..j], h[j]) == false && (Records(h[..j], h[j]) <==> Reads(h[j].kind)) {
      StaysWritten(h, j);
      StaysWritten(h, |h|);
    }
    if Reader(h, r) {
      WriteDrops(h);
      assert r < w ==> Passes(h, w);
      forall j | ReadSince(h, j) ensures j <= r {
        assert j > r ==> Passes(h, j);
      }
    }
    if LastRead(h, r) {
      forall j | r < j < |h| ensures Passes(h, j) { assert !ReadSince(h, j); }
    }
  }

  // The last write drops the reader.
  lemma {:induction false} WriteDrops(h: seq<Entry>)
    requires WrittenBack(h)
    ensures 0 <= LastWrite(h) && Drops(h[..LastWrite(h)], h[LastWrite(h)])
  {
    var w, q := LastWrite(h), LastModify(h);
    var k :| q < k && WriteBy(h, k, h[q].access.id);
    StaysWritten(h, w + 1);
    assert h[..w] + [h[w]] == h[..w + 1];
  }

  /** A modification of a byte that was written back is in order exactly when it follows the last write, and the last of
      the reads since, however many there are. */
  lemma {:induction false} LastReaderOnly(h: seq<Entry>, e: Entry)
    requires VerdictOf(h) == Fine && WrittenBack(h) && e.kind == ModifyAck
    ensures 0 <= LastWrite(h)
    ensures VerdictOf(h + [e]) == Fine
       <==> Before(h[LastWrite(h)].access, e.access) && forall r :: LastRead(h, r) ==> Before(h[r].access, e.access)
  {
    VerdictMore(h, e);
    WriteDrops(h);
    if LastReader(h) != Nobody {
      var a := LastReader(h).access;
      ReaderIff(h, a);
      var r :| Reader(h, r) && h[r].access == a;
      ReaderIsLast(h, r);
    }
    forall r | LastRead(h, r) ensures LastReader(h) == Of(h[r].access) {
      ReaderIsLast(h, r);
      ReaderIff(h, h[r].access);
    }
  }

  // Every read since the last write comes before `e`.
  ghost predicate NoneOvertaken(h: seq<Entry>, e: Entry)
  {
    forall r :: ReadSince(h, r) ==> Before(h[r].access, e.access)
  }

  // No modification that passes the checks overtakes a read.
  ghost predicate Caught(h: seq<Entry>)
  {
    forall e: Entry :: e.kind == ModifyAck && VerdictOf(h + [e]) == Fine ==> NoneOvertaken(h, e)
  }

  // No read since the last write ends later than the last write and the last read.
  ghost predicate ReadersInOrder(h: seq<Entry>)
    requires 0 <= LastWrite(h)
  {
    forall r, l :: ReadSince(h, r) && LastRead(h, l) ==>
      h[r].access.pos <= h[l].access.pos || h[r].access.pos <= h[LastWrite(h)].access.pos
  }

  // There is a last read if there is a read.
  lemma {:induction false} HasLast(h: seq<Entry>, r: int) returns (l: int)
    requires ReadSince(h, r)
    ensures LastRead(h, l) && r <= l
    decreases |h| - r
  {
    if exists j :: ReadSince(h, j) && j > r {
      var j :| ReadSince(h, j) && j > r;
      l := HasLast(h, j);
    } else {
      l := r;
    }
  }

  lemma {:induction false} CaughtInOrder(h: seq<Entry>, r: int, l: int)
    requires VerdictOf(h) == Fine && WrittenBack(h) && Caught(h) && ReadSince(h, r) && LastRead(h, l)
    ensures 0 <= LastWrite(h)
    ensures h[r].access.pos <= h[l].access.pos || h[r].access.pos <= h[LastWrite(h)].access.pos
  {
    WriteDrops(h);
    var a, b := h[l].access.pos, h[LastWrite(h)].access.pos;
    var e := Entry(ModifyAck, Access(0, 0, if a > b then a else b, 0));
    LastReaderOnly(h, e);
    assert NoneOvertaken(h, e);
  }

  lemma {:induction false} InOrderCaught(h: seq<Entry>, e: Entry)
    requires VerdictOf(h) == Fine && WrittenBack(h) && 0 <= LastWrite(h) && ReadersInOrder(h)
    requires e.kind == ModifyAck && VerdictOf(h + [e]) == Fine
    ensures NoneOvertaken(h, e)
  {
    LastReaderOnly(h, e);
    forall r | ReadSince(h, r) ensures Before(h[r].access, e.access) {
      var l := HasLast(h, r);
    }
  }

  /** Every modification that overtakes a read is reported, if and only if no read since the last write ends later than
      both the last write and the last read. */
  lemma {:induction false} CaughtIff(h: seq<Entry>)
    requires VerdictOf(h) == Fine && WrittenBack(h)
    ensures 0 <= LastWrite(h) && (Caught(h) <==> ReadersInOrder(h))
  {
    WriteDrops(h);
    if Caught(h) {
      forall r, l | ReadSince(h, r) && LastRead(h, l)
        ensures h[r].access.pos <= h[l].access.pos || h[r].access.pos <= h[LastWrite(h)].access.pos
      {
        CaughtInOrder(h, r, l);
      }
    }
    if ReadersInOrder(h) {
      forall e: Entry | e.kind == ModifyAck && VerdictOf(h + [e]) == Fine ensures NoneOvertaken(h, e) {
        InOrderCaught(h, e);
      }
    }
  }

  // ---------------------------------------------------------------------------------------------
  // A run in which a modification overtakes a read

  lemma {:induction false} AfterMore(f: Feed, events: seq<Event>, e: Event)
    requires Run(events, f.caches) && Known(e, f.caches)
    ensures Run(events + [e], f.caches) && Known(e, After(f, events).caches)
    ensures After(f, events + [e]) == Next(After(f, events), e)
  {
    assert (events + [e])[..|events|] == events;
  }

  // One access to byte 0.
  lemma {:induction false} OneItem(f: Feed, e: Event)
    requires (e.AckModify? || e.Read? || e.Write?) && Known(e, f.caches) && e.addr == 0 && e.size == 1
    ensures var o, g := f.caches[e.id].order, Next(f, e);
      && LogAt(g.log, 0) == LogAt(f.log, 0) + [Entry(KindAt(e, 0), Access(e.id, e.pc, o, o))]
      && g.caches == f.caches && g.order == f.order
  {
    var o := f.caches[e.id].order;
    var x: Item := (0, Entry(KindAt(e, 0), Access(e.id, e.pc, o, o)));
    assert Items(e, o, 1) == [x] && [] + [x] == [x];
    FedNext(f.log, [], x);
  }

  // A memory event of a cache without pending reads.
  lemma {:induction false} OneOrder(f: Feed, id: CacheId, index: nat)
    requires id in f.caches && f.caches[id].pending == [] && f.order <= index
    ensures Next(f, Memory(id, index)) == Feed(f.log, f.caches[id := Cache(index, [])], index)
  {
  }

  // A cache modifies a byte and writes it back.
  lemma {:induction false} WrittenOnce(m: Access)
    ensures var h := [Entry(ModifyAck, m), Entry(WriteReq, m)];
      m.pos <= m.pre ==> VerdictOf(h) == Fine && WrittenBack(h) && LastWrite(h) == 1
  {
    var a, b := Entry(ModifyAck, m), Entry(WriteReq, m);
    assert [] + [a] == [a] && [a] + [b] == [a, b];
    VerdictMore([], a);
    LastOfMore([], a, ModifyAck);
    WrittenMore([], a);
    VerdictMore([a], b);
    WrittenMore([a], b);
    LastOfMore([a], b, WriteReq);
    LastOfMore([a], b, ModifyAck);
  }

  // A fetch of a byte that was written back is coherent.
  lemma {:induction false} FetchFine(h: seq<Entry>, e: Entry)
    requires VerdictOf(h) == Fine && WrittenBack(h) && e.kind == ReadReq
    ensures VerdictOf(h + [e]) == Fine && WrittenBack(h + [e]) && LastWrite(h + [e]) == LastWrite(h)
  {
    VerdictMore(h, e);
    WrittenMore(h, e);
    LastOfMore(h, e, WriteReq);
  }

  /** Logs in which a modification overtakes the first of two fetches, and no access is to blame. */
  lemma {:induction false} OvertakenLog(m: Access, r: Access, s: Access, x: Access)
    requires m.pos <= m.pre && m.pos <= x.pre && s.pos <= x.pre < r.pos
    ensures var h := [Entry(ModifyAck, m), Entry(WriteReq, m), Entry(ReadReq, r), Entry(ReadReq, s)];
      && VerdictOf(h + [Entry(ModifyAck, x)]) == Fine
      && ReadSince(h, 2) && !Before(h[2].access, x) && !Caught(h)
  {
    var h := [Entry(ModifyAck, m), Entry(WriteReq, m)];
    WrittenOnce(m);
    var c, d, e := Entry(ReadReq, r), Entry(ReadReq, s), Entry(ModifyAck, x);
    FetchFine(h, c);
    FetchFine(h + [c], d);
    var g := h + [c] + [d];
    assert g == [h[0], h[1], c, d] && LastWrite(g) == 1;
    LastReaderOnly(g, e);
    forall l | LastRead(g, l) ensures Before(g[l].access, e.access) { assert ReadSince(g, 3); }
    assert !NoneOvertaken(g, e) by { assert ReadSince(g, 2); }
  }

  // Cache 2 modifies the byte and writes it back; caches 1, 2 and 0 reach the memory orders 5, 7 and 10; caches 0 and 1
  // fetch the byte, and cache 2 modifies it again.
  ghost function Overtaking(): seq<Event>
  {
    [AckModify(2, 0, 0, 1)] + [Event.Write(2, 0, 0, 1)] + [Memory(1, 5)] + [Memory(2, 7)] + [Memory(0, 10)]
    + [Read(0, 0, 0, 1, false, 0, 0)] + [Read(1, 0, 0, 1, false, 0, 0)] + [AckModify(2, 0, 0, 1)]
  }

  // What happens to byte 0, step by step.
  lemma {:induction false} Written(f: Feed) returns (events: seq<Event>)
    requires Initial(f) && 2 in f.caches
    ensures events == [AckModify(2, 0, 0, 1)] + [Event.Write(2, 0, 0, 1)] && Run(events, f.caches)
    ensures var g, m := After(f, events), Access(2, 0, 0, 0);
      g.caches == f.caches && g.order == 0 && LogAt(g.log, 0) == [Entry(ModifyAck, m), Entry(WriteReq, m)]
  {
    var a, b := AckModify(2, 0, 0, 1), Event.Write(2, 0, 0, 1);
    assert [] + [a] == [a];
    AfterMore(f, [], a);
    OneItem(f, a);
    AfterMore(f, [a], b);
    OneItem(After(f, [a]), b);
    events := [a] + [b];
  }

  lemma {:induction false} Ordering(f: Feed, before: seq<Event>) returns (events: seq<Event>)
    requires Run(before, f.caches) && After(f, before).order == 0
    requires forall id :: id in {0, 1, 2} ==> id in f.caches && After(f, before).caches[id] == Cache(0, [])
    ensures events == before + [Memory(1, 5)] + [Memory(2, 7)] + [Memory(0, 10)] && Run(events, f.caches)
    ensures var g := After(f, events);
      && g.log == After(f, before).log && g.caches[0] == Cache(10, [])
      && g.caches[1] == Cache(5, []) && g.caches[2] == Cache(7, [])
  {
    AfterMore(f, before, Memory(1, 5));
    OneOrder(After(f, before), 1, 5);
    events := before + [Memory(1, 5)];
    AfterMore(f, events, Memory(2, 7));
    OneOrder(After(f, events), 2, 7);
    events := events + [Memory(2, 7)];
    AfterMore(f, events, Memory(0, 10));
    OneOrder(After(f, events), 0, 10);
    events := events + [Memory(0, 10)];
  }

  lemma {:induction false} Fetching(f: Feed, before: seq<Event>) returns (events: seq<Event>)
    requires Run(before, f.caches) && forall id :: id in {0, 1, 2} ==> id in f.caches
    ensures events == before + [Read(0, 0, 0, 1, false, 0, 0)] + [Read(1, 0, 0, 1, false, 0, 0)]
                      + [AckModify(2, 0, 0, 1)]
    ensures Run(events, f.caches)
    ensures var g := After(f, before);
      var a, b, c := g.caches[0].order, g.caches[1].order, g.caches[2].order;
      LogAt(After(f, events).log, 0) == LogAt(g.log, 0) + [Entry(ReadReq, Access(0, 0, a, a))]
        + [Entry(ReadReq, Access(1, 0, b, b))] + [Entry(ModifyAck, Access(2, 0, c, c))]
  {
    var r, s, x := Read(0, 0, 0, 1, false, 0, 0), Read(1, 0, 0, 1, false, 0, 0), AckModify(2, 0, 0, 1);
    AfterMore(f, before, r);
    OneItem(After(f, before), r);
    AfterMore(f, before + [r], s);
    OneItem(After(f, before + [r]), s);
    AfterMore(f, before + [r] + [s], x);
    OneItem(After(f, before + [r] + [s]), x);
    events := before + [r] + [s] + [x];
  }

  // The log of the run.
  lemma {:induction false} OvertakenAt(h: seq<Entry>, m: Access, r: Access, s: Access, x: Access)
    requires m.pos <= m.pre && m.pos <= x.pre && s.pos <= x.pre < r.pos
    requires h == [Entry(ModifyAck, m), Entry(WriteReq, m)] + [Entry(ReadReq, r)] + [Entry(ReadReq, s)]
                  + [Entry(ModifyAck, x)]
    ensures |h| == 5 && VerdictOf(h) == Fine && h[2].kind == ReadReq && h[4].kind == ModifyAck && Unordered(h, 2, 4)
  {
    OvertakenLog(m, r, s, x);
    var g := [Entry(ModifyAck, m), Entry(WriteReq, m), Entry(ReadReq, r), Entry(ReadReq, s)];
    assert h == g + [Entry(ModifyAck, x)];
  }

  /** A run of three caches in which a modification overtakes a fetch and nothing is reported. */
  lemma {:induction false} OvertakenRun(f: Feed)
    requires Initial(f) && forall id :: id in {0, 1, 2} ==> id in f.caches
    ensures Run(Overtaking(), f.caches)
    ensures var h := LogAt(After(f, Overtaking()).log, 0);
      |h| == 5 && VerdictOf(h) == Fine && h[2].kind == ReadReq && h[4].kind == ModifyAck && Unordered(h, 2, 4)
  {
    var first := Written(f);
    var second := Ordering(f, first);
    var third := Fetching(f, second);
    assert third == Overtaking();
    OvertakenAt(LogAt(After(f, third).log, 0), Access(2, 0, 0, 0), Access(0, 0, 10, 10), Access(1, 0, 5, 5),
                Access(2, 0, 7, 7));
  }
}
