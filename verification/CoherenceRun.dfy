/**
 The cache and memory events of tool/sherlock/src/watson/watson_main.c (`watson_pg_exec_cache`,
 `watson_pg_exec_mem`, `watson_cache_g_order`, `watson_pending_read_ack`): how accesses get their
 memory orders, and what those orders guarantee in every run.
 */
module CoherenceRun {
  import opened CoherenceLog
  import opened CoherenceOracle
  import opened CoherenceTheorems

  const MAX_PENDING := 10 * 1024 * 1024

  // `cache_data_t`: the order of the last memory event of a cache, and its acknowledged reads that
  // wait for the next one.
  datatype Cache = Cache(order: nat, pending: seq<(nat, Access)>)

  // A memory event whose reference is not a cache's counts as another event.
  datatype Event =
    | AckRead(id: CacheId, pc: nat, addr: nat, size: nat)
    | AckModify(id: CacheId, pc: nat, addr: nat, size: nat)
    | Read(id: CacheId, pc: nat, addr: nat, size: nat, store: bool, reqAddr: nat, reqWidth: nat)
    | Write(id: CacheId, pc: nat, addr: nat, size: nat)
    | Memory(id: CacheId, index: nat)
    | Other

  // Addresses are 32 bits wide.
  function Byte(addr: nat, i: nat): nat { (addr + i) % 0x1_0000_0000 }

  // What byte `b` of an access is to the automaton: a read fetches the bytes the processor asked for,
  // and allocates the rest of the line.
  function KindAt(e: Event, b: nat): Kind
    requires e.AckModify? || e.Read? || e.Write?
  {
    match e
    case AckModify(_, _, _, _) => ModifyAck
    case Write(_, _, _, _) => WriteReq
    case Read(_, _, _, _, store, reqAddr, reqWidth) =>
      if store || b < reqAddr || b > Byte(reqAddr, reqWidth) then AllocReq else ReadReq
  }

  type Item = (nat, Entry)

  // The first `n` bytes of an access that is ordered at once.
  function Items(e: Event, order: nat, n: nat): (s: seq<Item>)
    requires e.AckModify? || e.Read? || e.Write?
    ensures |s| == n
  {
    if n == 0 then []
    else
      var b := Byte(e.addr, n - 1);
      Items(e, order, n - 1) + [(b, Entry(KindAt(e, b), Access(e.id, e.pc, order, order)))]
  }

  // The first `n` bytes of an acknowledged read.
  function Waiting(e: Event, order: nat, n: nat): (s: seq<(nat, Access)>)
    requires e.AckRead?
    ensures |s| == n
  {
    if n == 0 then [] else Waiting(e, order, n - 1) + [(Byte(e.addr, n - 1), Access(e.id, e.pc, order, 0))]
  }

  // The pending reads of a cache, ordered by a memory event.
  function Acks(pending: seq<(nat, Access)>, order: nat, n: nat): (s: seq<Item>)
    requires n <= |pending|
    ensures |s| == n
  {
    if n == 0 then []
    else
      var p := pending[n - 1];
      Acks(pending, order, n - 1) + [(p.0, Entry(ReadAck, p.1.(pos := order)))]
  }

  function Fed(log: map<nat, seq<Entry>>, s: seq<Item>): map<nat, seq<Entry>>
  {
    if |s| == 0 then log else More(Fed(log, s[..|s| - 1]), s[|s| - 1].0, s[|s| - 1].1)
  }

  // ---------------------------------------------------------------------------------------------
  // The accesses of a run

  datatype Feed = Feed(log: map<nat, seq<Entry>>, caches: map<CacheId, Cache>, order: nat)

  predicate Known(e: Event, caches: map<CacheId, Cache>) { !e.Other? ==> e.id in caches }

  function Next(f: Feed, e: Event): Feed
    requires Known(e, f.caches)
  {
    match e
    case Other => f
    case AckRead(id, _, _, size) =>
      var c := f.caches[id];
      f.(caches := f.caches[id := c.(pending := c.pending + Waiting(e, c.order, size))])
    case Memory(id, index) =>
      var order := if index > f.order then index else f.order;
      var c := f.caches[id];
      Feed(Fed(f.log, Acks(c.pending, order, |c.pending|)), f.caches[id := Cache(order, [])], order)
    case _ =>
      f.(log := Fed(f.log, Items(e, f.caches[e.id].order, e.size)))
  }

  ghost predicate Run(events: seq<Event>, caches: map<CacheId, Cache>)
  {
    forall e :: e in events ==> Known(e, caches)
  }

  lemma NextKeepsCaches(f: Feed, e: Event)
    requires Known(e, f.caches)
    ensures Next(f, e).caches.Keys == f.caches.Keys
  {
  }

  ghost function After(f: Feed, events: seq<Event>): (g: Feed)
    requires Run(events, f.caches)
    ensures g.caches.Keys == f.caches.Keys
  {
    if |events| == 0 then f
    else
      var n := |events| - 1;
      var g := After(f, events[..n]);
      assert events[n] in events;
      NextKeepsCaches(g, events[n]);
      Next(g, events[n])
  }

  // ---------------------------------------------------------------------------------------------
  // The orders of a run

  // Every access of a cache but `c` is over by the cache's order; those of `c` are over by `g`, or
  // are reads acknowledged since and over by `o`.
  ghost predicate Stamp(e: Entry, caches: map<CacheId, Cache>, c: CacheId, g: nat, o: nat)
  {
    var id := e.access.id;
    && id in caches
    && e.access.pre <= e.access.pos
    && (id != c ==> e.access.pos <= caches[id].order)
    && (id == c ==> e.access.pos <= g || (e.kind == ReadAck && e.access.pos <= o))
  }

  ghost predicate Stamped(h: seq<Entry>, caches: map<CacheId, Cache>, c: CacheId, g: nat, o: nat)
  {
    forall k :: 0 <= k < |h| ==> Stamp(h[k], caches, c, g, o)
  }

  ghost predicate LogStamped(log: map<nat, seq<Entry>>, caches: map<CacheId, Cache>, c: CacheId, g: nat, o: nat)
  {
    forall a :: a in log ==> Stamped(log[a], caches, c, g, o) && SameCacheOrdered(log[a])
  }

  // The next access of cache `c`.
  ghost predicate Fresh(e: Entry, c: CacheId, g: nat, o: nat)
  {
    && e.access.id == c && e.access.pre == g <= e.access.pos <= o
    && (e.kind == ReadAck || g == o)
  }

  lemma StampedMore(h: seq<Entry>, e: Entry, caches: map<CacheId, Cache>, c: CacheId, g: nat, o: nat)
    requires c in caches && Stamped(h, caches, c, g, o) && SameCacheOrdered(h) && Fresh(e, c, g, o)
    ensures Stamped(h + [e], caches, c, g, o) && SameCacheOrdered(h + [e])
  {
    var m := h + [e];
    forall i, k | Unordered(m, i, k) ensures m[i].access.id != m[k].access.id {
      assert Stamp(h[i], caches, c, g, o);
      if k < |h| {
        assert Unordered(h, i, k);
      }
    }
  }

  lemma {:induction false} FedStamped(log: map<nat, seq<Entry>>, s: seq<Item>, caches: map<CacheId, Cache>, c: CacheId,
                                      g: nat, o: nat)
    requires c in caches && LogStamped(log, caches, c, g, o)
    requires forall i :: 0 <= i < |s| ==> Fresh(s[i].1, c, g, o)
    ensures LogStamped(Fed(log, s), caches, c, g, o)
  {
    if |s| > 0 {
      var n := |s| - 1;
      var l := Fed(log, s[..n]);
      FedStamped(log, s[..n], caches, c, g, o);
      StampedMore(LogAt(l, s[n].0), s[n].1, caches, c, g, o);
    }
  }

  // A pending read began at the order its cache still has.
  ghost predicate Pends(p: (nat, Access), id: CacheId, order: nat)
  {
    p.1.id == id && p.1.pre == order
  }

  ghost predicate CacheOk(id: CacheId, c: Cache, order: nat)
  {
    c.order <= order && forall i :: 0 <= i < |c.pending| ==> Pends(c.pending[i], id, c.order)
  }

  ghost predicate Timely(f: Feed)
  {
    && (forall id :: id in f.caches ==> CacheOk(id, f.caches[id], f.order))
    && (forall a :: a in f.log ==> SameCacheOrdered(f.log[a]) && Done(f.log[a], f.caches))
  }

  // Every access of the log is over by the order of its cache.
  ghost predicate Done(h: seq<Entry>, caches: map<CacheId, Cache>)
  {
    forall k :: 0 <= k < |h| ==> Over(h[k], caches)
  }

  ghost predicate Over(e: Entry, caches: map<CacheId, Cache>)
  {
    e.access.id in caches && e.access.pre <= e.access.pos <= caches[e.access.id].order
  }

  lemma {:induction false} ItemsFresh(e: Event, order: nat, n: nat)
    requires e.AckModify? || e.Read? || e.Write?
    ensures forall i :: 0 <= i < n ==> Fresh(Items(e, order, n)[i].1, e.id, order, order)
  {
    if n > 0 {
      ItemsFresh(e, order, n - 1);
    }
  }

  lemma {:induction false} AcksFresh(pending: seq<(nat, Access)>, id: CacheId, g: nat, o: nat, n: nat)
    requires n <= |pending| && g <= o
    requires forall i :: 0 <= i < |pending| ==> Pends(pending[i], id, g)
    ensures forall i :: 0 <= i < n ==> Fresh(Acks(pending, o, n)[i].1, id, g, o)
  {
    if n > 0 {
      AcksFresh(pending, id, g, o, n - 1);
      assert Pends(pending[n - 1], id, g);
    }
  }

  lemma {:induction false} WaitingPends(e: Event, order: nat, n: nat)
    requires e.AckRead?
    ensures forall i :: 0 <= i < n ==> Pends(Waiting(e, order, n)[i], e.id, order)
  {
    if n > 0 {
      WaitingPends(e, order, n - 1);
    }
  }

  lemma TimelyStamped(f: Feed, c: CacheId, o: nat)
    requires Timely(f) && c in f.caches
    ensures LogStamped(f.log, f.caches, c, f.caches[c].order, o)
  {
    forall a | a in f.log ensures Stamped(f.log[a], f.caches, c, f.caches[c].order, o) {
      var h := f.log[a];
      forall k | 0 <= k < |h| ensures Stamp(h[k], f.caches, c, f.caches[c].order, o) {
        assert Over(h[k], f.caches);
      }
    }
  }

  lemma StampedTimely(log: map<nat, seq<Entry>>, caches: map<CacheId, Cache>, c: CacheId, g: nat, o: nat)
    requires c in caches && g <= o && LogStamped(log, caches, c, g, o)
    ensures forall a :: a in log ==> SameCacheOrdered(log[a]) && Done(log[a], caches[c := Cache(o, [])])
  {
    var after := caches[c := Cache(o, [])];
    forall a | a in log ensures Done(log[a], after) {
      var h := log[a];
      forall k | 0 <= k < |h| ensures Over(h[k], after) {
        assert Stamp(h[k], caches, c, g, o);
      }
    }
  }

  lemma DoneSame(h: seq<Entry>, caches: map<CacheId, Cache>, after: map<CacheId, Cache>)
    requires Done(h, caches)
    requires forall id :: id in caches ==> id in after && after[id].order == caches[id].order
    ensures Done(h, after)
  {
    forall k | 0 <= k < |h| ensures Over(h[k], after) {
      assert Over(h[k], caches);
    }
  }

  lemma AccessTimely(f: Feed, e: Event)
    requires Timely(f) && Known(e, f.caches) && (e.AckModify? || e.Read? || e.Write?)
    ensures Timely(Next(f, e))
  {
    var g := f.caches[e.id].order;
    var log := Fed(f.log, Items(e, g, e.size));
    TimelyStamped(f, e.id, g);
    ItemsFresh(e, g, e.size);
    FedStamped(f.log, Items(e, g, e.size), f.caches, e.id, g, g);
    StampedTimely(log, f.caches, e.id, g, g);
    forall a | a in log ensures Done(log[a], f.caches) {
      DoneSame(log[a], f.caches[e.id := Cache(g, [])], f.caches);
    }
  }

  lemma AckTimely(f: Feed, e: Event)
    requires Timely(f) && Known(e, f.caches) && e.AckRead?
    ensures Timely(Next(f, e))
  {
    var after := Next(f, e).caches;
    WaitingPends(e, f.caches[e.id].order, e.size);
    forall id | id in after ensures CacheOk(id, after[id], f.order) {
      assert CacheOk(id, f.caches[id], f.order);
    }
    forall a | a in f.log ensures Done(f.log[a], after) {
      DoneSame(f.log[a], f.caches, after);
    }
  }

  lemma MemoryTimely(f: Feed, e: Event)
    requires Timely(f) && Known(e, f.caches) && e.Memory?
    ensures Timely(Next(f, e))
  {
    var c, o := f.caches[e.id], Next(f, e).order;
    assert CacheOk(e.id, c, f.order);
    TimelyStamped(f, e.id, o);
    AcksFresh(c.pending, e.id, c.order, o, |c.pending|);
    FedStamped(f.log, Acks(c.pending, o, |c.pending|), f.caches, e.id, c.order, o);
    StampedTimely(Next(f, e).log, f.caches, e.id, c.order, o);
    forall id | id in Next(f, e).caches ensures CacheOk(id, Next(f, e).caches[id], o) {
      assert CacheOk(id, f.caches[id], f.order);
    }
  }

  lemma NextTimely(f: Feed, e: Event)
    requires Timely(f) && Known(e, f.caches)
    ensures Timely(Next(f, e))
  {
    match e
    case Other =>
    case AckRead(_, _, _, _) => AckTimely(f, e);
    case Memory(_, _) => MemoryTimely(f, e);
    case _ => AccessTimely(f, e);
  }

  // All components are registered and nothing has happened.
  ghost predicate Initial(f: Feed)
  {
    f.log == map[] && f.order == 0 && forall id :: id in f.caches ==> f.caches[id] == Cache(0, [])
  }

  /** In every run the accesses of one cache to one byte are ordered, two acknowledged reads aside. */
  lemma {:induction false} AlwaysTimely(f: Feed, events: seq<Event>)
    requires Initial(f) && Run(events, f.caches)
    ensures Timely(After(f, events))
  {
    if |events| > 0 {
      var n := |events| - 1;
      AlwaysTimely(f, events[..n]);
      assert events[n] in events;
      NextTimely(After(f, events[..n]), events[n]);
    }
  }

  /** So in every run an undefined order is one between two caches. */
  lemma RunUndefined(f: Feed, events: seq<Event>, a: nat)
    requires Initial(f) && Run(events, f.caches)
    requires a in After(f, events).log
    ensures var h := After(f, events).log[a];
            VerdictOf(h) == Undefined ==>
              exists i, k :: Unordered(h, i, k) && h[i].access.id != h[k].access.id && VerdictOf(h[..k]) == Fine
  {
    AlwaysTimely(f, events);
    var h := After(f, events).log[a];
    if VerdictOf(h) == Undefined {
      UndefinedForeign(h);
    }
  }

  /** The order check of a write by the last modifier never fails. */
  lemma OwnWriteOrdered(f: Feed, events: seq<Event>, a: nat, k: int)
    requires Initial(f) && Run(events, f.caches)
    requires a in After(f, events).log
    requires var h := After(f, events).log[a];
             && 0 <= k < |h| && h[k].kind == WriteReq && Modifying(h[..k])
             && h[LastModify(h[..k])].access.id == h[k].access.id
    ensures var h := After(f, events).log[a];
            Blame(h[..k], h[k]) == Fine
  {
    AlwaysTimely(f, events);
    var h := After(f, events).log[a];
    LastHas(h, k, ModifyAck);
    assert !Unordered(h, LastModify(h[..k]), k);
  }

  // ---------------------------------------------------------------------------------------------
  // The event handlers

  lemma FedNext(log: map<nat, seq<Entry>>, s: seq<Item>, x: Item)
    ensures Fed(log, s + [x]) == More(Fed(log, s), x.0, x.1)
  {
    assert (s + [x])[..|s|] == s;
  }

  lemma AckNext(log: map<nat, seq<Entry>>, pending: seq<(nat, Access)>, at: nat, i: nat)
    requires i < |pending|
    ensures Fed(log, Acks(pending, at, i + 1))
         == More(Fed(log, Acks(pending, at, i)), pending[i].0, Entry(ReadAck, pending[i].1.(pos := at)))
  {
    FedNext(log, Acks(pending, at, i), (pending[i].0, Entry(ReadAck, pending[i].1.(pos := at))));
  }

  // Byte `i` of an access that is ordered at once.
  function ItemAt(e: Event, order: nat, i: nat): Item
    requires e.AckModify? || e.Read? || e.Write?
  {
    (Byte(e.addr, i), Entry(KindAt(e, Byte(e.addr, i)), Access(e.id, e.pc, order, order)))
  }

  lemma ItemNext(log: map<nat, seq<Entry>>, e: Event, order: nat, i: nat)
    requires e.AckModify? || e.Read? || e.Write?
    ensures Fed(log, Items(e, order, i + 1))
         == More(Fed(log, Items(e, order, i)), ItemAt(e, order, i).0, ItemAt(e, order, i).1)
  {
    FedNext(log, Items(e, order, i), ItemAt(e, order, i));
  }

  // ---------------------------------------------------------------------------------------------
  // What an access adds to the log of a byte

  // How many of the `n` bytes from `addr` on are byte `b`, addresses being 32 bits wide.
  function Times(addr: nat, n: nat, b: nat): nat
  {
    var d := (b - addr) % 0x1_0000_0000;
    if b < 0x1_0000_0000 && d < n then 1 + (n - 1 - d) / 0x1_0000_0000 else 0
  }

  function Copies(e: Entry, n: nat): seq<Entry> { if n == 0 then [] else Copies(e, n - 1) + [e] }

  lemma TimesNext(addr: nat, n: nat, b: nat)
    ensures Times(addr, n + 1, b) == Times(addr, n, b) + if (addr + n) % 0x1_0000_0000 == b then 1 else 0
  {
    var d, m := (b - addr) % 0x1_0000_0000, 0x1_0000_0000;
    var q := (b - addr) / m;
    assert b - addr == q * m + d;
    if b < m {
      if (addr + n) % m == b {
        var k := (addr + n) / m;
        assert n - d == (k + q) * m;
      } else {
        assert d <= n && (n - d) % m == 0 ==> addr + n == b + ((n - d) / m - q) * m;
      }
    }
  }

  // The same number, byte by byte.
  function Hits(addr: nat, n: nat, b: nat): nat
  {
    if n == 0 then 0 else Hits(addr, n - 1, b) + if Byte(addr, n - 1) == b then 1 else 0
  }

  lemma {:induction false} HitsIs(addr: nat, n: nat, b: nat)
    ensures Hits(addr, n, b) == Times(addr, n, b)
  {
    if n > 0 {
      HitsIs(addr, n - 1, b);
      TimesNext(addr, n - 1, b);
    }
  }

  // The entries of items at byte `b`.
  function AtByte(s: seq<Item>, b: nat): seq<Entry>
  {
    if |s| == 0 then []
    else AtByte(s[..|s| - 1], b) + if s[|s| - 1].0 == b then [s[|s| - 1].1] else []
  }

  lemma {:induction false} FedAt(log: map<nat, seq<Entry>>, s: seq<Item>, b: nat)
    ensures LogAt(Fed(log, s), b) == LogAt(log, b) + AtByte(s, b)
  {
    if |s| > 0 { FedAt(log, s[..|s| - 1], b); }
  }

  // One more copy of an entry, at byte `b` or at another.
  lemma {:induction false} OneAt(s: seq<Item>, a: nat, x: Entry, b: nat, h: seq<Entry>, e: Entry, n: nat)
    requires AtByte(s, b) == h + Copies(e, n) && (a == b ==> x == e)
    ensures AtByte(s + [(a, x)], b) == h + Copies(e, n + if a == b then 1 else 0)
  {
    assert (s + [(a, x)])[..|s|] == s;
  }

  lemma {:induction false} ItemsAt(e: Event, order: nat, n: nat, b: nat, x: Entry)
    requires (e.AckModify? || e.Read? || e.Write?) && x == Entry(KindAt(e, b), Access(e.id, e.pc, order, order))
    ensures AtByte(Items(e, order, n), b) == Copies(x, Hits(e.addr, n, b))
  {
    if n > 0 {
      var a := Byte(e.addr, n - 1);
      ItemsAt(e, order, n - 1, b, x);
      OneAt(Items(e, order, n - 1), a, Entry(KindAt(e, a), Access(e.id, e.pc, order, order)), b, [], x,
            Hits(e.addr, n - 1, b));
    }
  }

  lemma {:induction false} ItemsLogged(log: map<nat, seq<Entry>>, e: Event, order: nat, b: nat, x: Entry)
    requires (e.AckModify? || e.Read? || e.Write?) && x == Entry(KindAt(e, b), Access(e.id, e.pc, order, order))
    ensures LogAt(Fed(log, Items(e, order, e.size)), b) == LogAt(log, b) + Copies(x, Times(e.addr, e.size, b))
  {
    HitsIs(e.addr, e.size, b);
    ItemsAt(e, order, e.size, b, x);
    FedAt(log, Items(e, order, e.size), b);
  }

  /** A read that a store did not cause is a fetch of the bytes that the processor asked for, up to and with the last
      one, and an allocation of the other bytes of the line; a read for a store is an allocation of all of them.
      No other byte is read, and each is read at the order of its cache. */
  lemma {:induction false} ReadLogged(f: Feed, id: CacheId, pc: nat, addr: nat, size: nat, store: bool, reqAddr: nat,
                                      reqWidth: nat, b: nat)
    requires id in f.caches
    ensures var g := Next(f, Read(id, pc, addr, size, store, reqAddr, reqWidth));
      var order := f.caches[id].order;
      var asked := !store && reqAddr <= b <= (reqAddr + reqWidth) % 0x1_0000_0000;
      var entry := Entry(if asked then ReadReq else AllocReq, Access(id, pc, order, order));
      && LogAt(g.log, b) == LogAt(f.log, b) + Copies(entry, Times(addr, size, b))
      && g == f.(log := g.log)
  {
    var e, order := Read(id, pc, addr, size, store, reqAddr, reqWidth), f.caches[id].order;
    ItemsLogged(f.log, e, order, b, Entry(KindAt(e, b), Access(id, pc, order, order)));
  }

  /** A write is a write of each of its bytes, and an acknowledged modification modifies each of its bytes. */
  lemma {:induction false} WriteLogged(f: Feed, id: CacheId, pc: nat, addr: nat, size: nat, b: nat)
    requires id in f.caches
    ensures var access := Access(id, pc, f.caches[id].order, f.caches[id].order);
      var w, m := Next(f, Write(id, pc, addr, size)), Next(f, AckModify(id, pc, addr, size));
      && LogAt(w.log, b) == LogAt(f.log, b) + Copies(Entry(WriteReq, access), Times(addr, size, b))
      && LogAt(m.log, b) == LogAt(f.log, b) + Copies(Entry(ModifyAck, access), Times(addr, size, b))
      && w == f.(log := w.log) && m == f.(log := m.log)
  {
    var order := f.caches[id].order;
    var access := Access(id, pc, order, order);
    ItemsLogged(f.log, Write(id, pc, addr, size), order, b, Entry(WriteReq, access));
    ItemsLogged(f.log, AckModify(id, pc, addr, size), order, b, Entry(ModifyAck, access));
  }

  lemma {:induction false} AcksAt(p: seq<(nat, Access)>, order: nat, n: nat, i: nat)
    requires i < n <= |p|
    ensures Acks(p, order, n)[i] == (p[i].0, Entry(ReadAck, p[i].1.(pos := order)))
  {
    if i < n - 1 { AcksAt(p, order, n - 1, i); }
  }

  lemma {:induction false} AcksJoined(p: seq<(nat, Access)>, q: seq<(nat, Access)>, order: nat)
    ensures Acks(p + q, order, |p + q|) == Acks(p, order, |p|) + Acks(q, order, |q|)
  {
    var r, s := Acks(p + q, order, |p + q|), Acks(p, order, |p|) + Acks(q, order, |q|);
    forall i | 0 <= i < |p + q| ensures r[i] == s[i] {
      AcksAt(p + q, order, |p + q|, i);
      if i < |p| { AcksAt(p, order, |p|, i); } else { AcksAt(q, order, |q|, i - |p|); }
    }
  }

  lemma {:induction false} AtByteJoined(s: seq<Item>, t: seq<Item>, b: nat)
    ensures AtByte(s + t, b) == AtByte(s, b) + AtByte(t, b)
  {
    if |t| == 0 {
      assert s + t == s;
    } else {
      AtByteJoined(s, t[..|t| - 1], b);
      assert (s + t)[..|s + t| - 1] == s + t[..|t| - 1];
    }
  }

  lemma {:induction false} AcksSame(p: seq<(nat, Access)>, x: (nat, Access), order: nat)
    ensures Acks(p + [x], order, |p| + 1) == Acks(p, order, |p|) + [(x.0, Entry(ReadAck, x.1.(pos := order)))]
  {
    AcksJoined(p, [x], order);
    AcksAt([x], order, 1, 0);
    assert |p + [x]| == |p| + 1;
  }

  lemma {:induction false} FedJoined(log: map<nat, seq<Entry>>, s: seq<Item>, t: seq<Item>, u: seq<Item>, b: nat)
    requires u == s + t
    ensures LogAt(Fed(log, u), b) == LogAt(Fed(log, s), b) + AtByte(t, b)
  {
    AtByteJoined(s, t, b);
    FedAt(log, u, b);
    FedAt(log, s, b);
  }

  lemma {:induction false} WaitingAcks(e: Event, order: nat, at: nat, n: nat)
    requires e.AckRead?
    ensures Acks(Waiting(e, order, n + 1), at, n + 1)
         == Acks(Waiting(e, order, n), at, n) + [(Byte(e.addr, n), Entry(ReadAck, Access(e.id, e.pc, order, at)))]
  {
    AcksSame(Waiting(e, order, n), (Byte(e.addr, n), Access(e.id, e.pc, order, 0)), at);
  }

  lemma {:induction false} WaitingAt(e: Event, order: nat, at: nat, n: nat, b: nat, x: Entry)
    requires e.AckRead? && x == Entry(ReadAck, Access(e.id, e.pc, order, at))
    ensures AtByte(Acks(Waiting(e, order, n), at, n), b) == Copies(x, Hits(e.addr, n, b))
  {
    if n > 0 {
      var a := Byte(e.addr, n - 1);
      WaitingAt(e, order, at, n - 1, b, x);
      WaitingAcks(e, order, at, n - 1);
      OneAt(Acks(Waiting(e, order, n - 1), at, n - 1), a, x, b, [], x, Hits(e.addr, n - 1, b));
    }
  }

  lemma {:induction false} PendingLogged(log: map<nat, seq<Entry>>, p: seq<(nat, Access)>, q: seq<(nat, Access)>,
                                         r: seq<(nat, Access)>, at: nat, b: nat)
    requires r == p + q
    ensures LogAt(Fed(log, Acks(r, at, |r|)), b)
         == LogAt(Fed(log, Acks(p, at, |p|)), b) + AtByte(Acks(q, at, |q|), b)
  {
    AcksJoined(p, q, at);
    FedJoined(log, Acks(p, at, |p|), Acks(q, at, |q|), Acks(r, at, |r|), b);
  }

  lemma {:induction false} MemoryLog(f: Feed, id: CacheId, index: nat, p: seq<(nat, Access)>)
    requires id in f.caches && p == f.caches[id].pending
    ensures var at := if index > f.order then index else f.order;
      Next(f, Memory(id, index)) == Feed(Fed(f.log, Acks(p, at, |p|)), f.caches[id := Cache(at, [])], at)
  {
  }

  lemma {:induction false} WaitingLogged(log: map<nat, seq<Entry>>, p: seq<(nat, Access)>, e: Event, order: nat,
                                         r: seq<(nat, Access)>, at: nat, b: nat, x: Entry)
    requires e.AckRead? && x == Entry(ReadAck, Access(e.id, e.pc, order, at)) && r == p + Waiting(e, order, e.size)
    ensures LogAt(Fed(log, Acks(r, at, |r|)), b)
         == LogAt(Fed(log, Acks(p, at, |p|)), b) + Copies(x, Times(e.addr, e.size, b))
  {
    PendingLogged(log, p, Waiting(e, order, e.size), r, at, b);
    WaitingAt(e, order, at, e.size, b, x);
    HitsIs(e.addr, e.size, b);
  }

  // Two states that differ in the pending reads of a cache, after its next memory event.
  lemma {:induction false} TwoMemories(f: Feed, g: Feed, id: CacheId, index: nat, at: nat, b: nat, h: seq<Entry>)
    requires id in f.caches && id in g.caches && g.log == f.log && g.order == f.order
    requires at == (if index > f.order then index else f.order)
    requires g.caches[id := Cache(at, [])] == f.caches[id := Cache(at, [])]
    requires var p, r := f.caches[id].pending, g.caches[id].pending;
      LogAt(Fed(f.log, Acks(r, at, |r|)), b) == LogAt(Fed(f.log, Acks(p, at, |p|)), b) + h
    ensures LogAt(Next(g, Memory(id, index)).log, b) == LogAt(Next(f, Memory(id, index)).log, b) + h
    ensures Next(g, Memory(id, index)).caches == f.caches[id := Cache(at, [])]
    ensures Next(g, Memory(id, index)).order == at
  {
    MemoryLog(f, id, index, f.caches[id].pending);
    MemoryLog(g, id, index, g.caches[id].pending);
  }

  /** An acknowledged read waits for the next memory event of its cache, and is then one more acknowledged read of each
      of its bytes, from the order the cache had to the one it gets. */
  lemma {:induction false} AckLogged(f: Feed, id: CacheId, pc: nat, addr: nat, size: nat, index: nat, b: nat)
    requires id in f.caches
    ensures var waits := Next(f, AckRead(id, pc, addr, size));
      var at := if index > f.order then index else f.order;
      var entry := Entry(ReadAck, Access(id, pc, f.caches[id].order, at));
      && waits.log == f.log && waits.order == f.order && id in waits.caches
      && LogAt(Next(waits, Memory(id, index)).log, b)
         == LogAt(Next(f, Memory(id, index)).log, b) + Copies(entry, Times(addr, size, b))
      && Next(waits, Memory(id, index)).caches == f.caches[id := Cache(at, [])]
      && Next(waits, Memory(id, index)).order == at
  {
    var e, order := AckRead(id, pc, addr, size), f.caches[id].order;
    var at, g := if index > f.order then index else f.order, Next(f, e);
    var x := Entry(ReadAck, Access(id, pc, order, at));
    WaitingLogged(f.log, f.caches[id].pending, e, order, g.caches[id].pending, at, b, x);
    TwoMemories(f, g, id, index, at, b, Copies(x, Times(addr, size, b)));
  }

  class Plugin {
    const dfa: Oracle
    var caches: map<CacheId, Cache>
    var order: nat
    var overflow: bool

    ghost function View(): Feed
      reads this, dfa
    {
      Feed(dfa.log, caches, order)
    }

    // The program has not exited.
    predicate Running()
      reads this, dfa
    {
      !overflow && !dfa.exited
    }

    // `watson_pg_init`
    constructor (oracle: Oracle)
      requires !oracle.exited
      ensures dfa == oracle && Running() && View() == Feed(oracle.log, map[], 0)
    {
      dfa := oracle;
      caches, order, overflow := map[], 0, false;
    }

    // `watson_pg_comp` for a cache
    method Register(id: CacheId)
      modifies this
      ensures View() == old(View()).(caches := old(caches)[id := Cache(0, [])]) && overflow == old(overflow)
    {
      caches := caches[id := Cache(0, [])];
    }

    /** `watson_pending_read_ack` for each byte. */
    method Acknowledge(e: Event)
      requires e.AckRead? && e.id in caches && Running()
      modifies this
      ensures order == old(order) && dfa.exited == old(dfa.exited)
      ensures Running() ==> View() == Next(old(View()), e)
      ensures Running() <==> e.size == 0 || |old(caches)[e.id].pending| + e.size <= 10485761
    {
      var c := caches[e.id];
      var i := 0;
      assert c.pending + [] == c.pending;
      while i < e.size
        invariant 0 <= i <= e.size && order == old(order) && !overflow
        invariant e.id in caches
        invariant caches == old(caches)[e.id := c.(pending := c.pending + Waiting(e, c.order, i))]
        invariant i == 0 || |c.pending| + i <= MAX_PENDING + 1
      {
        var now := caches[e.id];
        if |now.pending| > MAX_PENDING {
          overflow := true;
          return;
        }
        assert c.pending + Waiting(e, c.order, i + 1)
            == now.pending + [(Byte(e.addr, i), Access(e.id, e.pc, c.order, 0))];
        caches := caches[e.id := now.(pending := now.pending + [(Byte(e.addr, i), Access(e.id, e.pc, now.order, 0))])];
        i := i + 1;
      }
    }

    // The loops of `watson_pg_exec_cache` over the bytes of an access that is ordered at once
    method Judge(e: Event, order: nat)
      requires (e.AckModify? || e.Read? || e.Write?) && dfa.Inv()
      modifies dfa
      ensures dfa.Inv() == !dfa.exited
      ensures !dfa.exited ==> dfa.log == Fed(old(dfa.log), Items(e, order, e.size))
      ensures dfa.exited ==> dfa.problem.total == MAX_ERRORS + 1
    {
      var i := 0;
      while i < e.size && !dfa.exited
        invariant 0 <= i <= e.size
        invariant dfa.Inv() == !dfa.exited
        invariant !dfa.exited ==> dfa.log == Fed(old(dfa.log), Items(e, order, i))
        invariant dfa.exited ==> dfa.problem.total == MAX_ERRORS + 1
      {
        var item := ItemAt(e, order, i);
        ItemNext(old(dfa.log), e, order, i);
        dfa.Dfa(item.0, item.1);
        i := i + 1;
      }
    }

    // The accesses of `watson_pg_exec_cache` that are ordered at once
    method Perform(e: Event)
      requires (e.AckModify? || e.Read? || e.Write?) && e.id in caches && Running() && dfa.Inv()
      modifies dfa
      ensures dfa.Inv() == !dfa.exited
      ensures Running() ==> View() == Next(old(View()), e)
      ensures !Running() ==> dfa.problem.total == MAX_ERRORS + 1
    {
      Judge(e, caches[e.id].order);
    }

    // The loop of `watson_cache_g_order`
    method Deliver(pending: seq<(nat, Access)>, at: nat)
      requires dfa.Inv()
      modifies dfa
      ensures dfa.Inv() == !dfa.exited
      ensures !dfa.exited ==> dfa.log == Fed(old(dfa.log), Acks(pending, at, |pending|))
      ensures dfa.exited ==> dfa.problem.total == MAX_ERRORS + 1
    {
      var i := 0;
      while i < |pending| && !dfa.exited
        invariant 0 <= i <= |pending|
        invariant dfa.Inv() == !dfa.exited
        invariant !dfa.exited ==> dfa.log == Fed(old(dfa.log), Acks(pending, at, i))
        invariant dfa.exited ==> dfa.problem.total == MAX_ERRORS + 1
      {
        AckNext(old(dfa.log), pending, at, i);
        dfa.Dfa(pending[i].0, Entry(ReadAck, pending[i].1.(pos := at)));
        i := i + 1;
      }
    }

    /** `watson_cache_g_order` */
    method CacheOrder(id: CacheId, at: nat)
      requires id in caches && dfa.Inv()
      modifies this, dfa
      ensures order == old(order) && overflow == old(overflow) && caches == old(caches)[id := Cache(at, [])]
      ensures dfa.Inv() == !dfa.exited
      ensures !dfa.exited ==> dfa.log == Fed(old(dfa.log), Acks(old(caches)[id].pending, at, |old(caches)[id].pending|))
      ensures dfa.exited ==> dfa.problem.total == MAX_ERRORS + 1
    {
      var pending := caches[id].pending;
      caches := caches[id := caches[id].(order := at)];
      Deliver(pending, at);
      caches := caches[id := caches[id].(pending := [])];
    }

    /** `watson_pg_exec_mem` */
    method ExecMem(e: Event)
      requires e.Memory? && e.id in caches && Running() && dfa.Inv()
      modifies this, dfa
      ensures dfa.Inv() == !dfa.exited
      ensures Running() ==> View() == Next(old(View()), e)
      ensures !Running() ==> dfa.problem.total == MAX_ERRORS + 1
    {
      if e.index > order {
        order := e.index;
      }
      CacheOrder(e.id, order);
    }

    /** Every event of a run, until the program exits. */
    method Execute(events: seq<Event>)
      requires Run(events, caches) && Running() && dfa.Inv()
      modifies this, dfa
      ensures dfa.Inv() == !dfa.exited
      ensures Running() ==> View() == After(old(View()), events)
      ensures !Running() ==> overflow || dfa.problem.total == 1000001
    {
      var i := 0;
      while i < |events| && Running()
        invariant 0 <= i <= |events|
        invariant dfa.Inv() == !dfa.exited
        invariant Running() ==> Run(events[..i], old(caches)) && View() == After(old(View()), events[..i])
        invariant !Running() ==> overflow || dfa.problem.total == MAX_ERRORS + 1
      {
        var e := events[i];
        assert e in events;
        assert events[..i + 1][..i] == events[..i];
        match e {
          case Other =>
          case AckRead(_, _, _, _) => Acknowledge(e);
          case Memory(_, _) => ExecMem(e);
          case _ => Perform(e);
        }
        i := i + 1;
      }
      assert events[..|events|] == events;
    }
  }
}
