/**
 Streams of events: what lib/decopus/trace/source/hwetrace_write.c writes and the reader loop of
 lib/decopus/trace/source/hwetrace_read.c reads, on top of the container format.
 */
module TraceStream {
  import opened Common
  import opened CodecBytes
  import opened TraceCodec

  datatype Id = Id(dev: byte, index: nat)

  // A container.  The relative id is not part of it: the writer computes it.
  datatype Cont = Cont(id: Id, expected: nat, nchild: nat, comChild: nat, dates: seq<nat>, refs: seq<Id>, body: Body)

  predicate Long(v: nat) { v < 0x1_0000_0000_0000_0000 }

  ghost predicate ValidCont(c: Cont)
  {
    && Long(c.id.index) && Word(c.expected) && Word(c.nchild) && Word(c.comChild) && ValidBody(c.body)
    && |c.dates| <= 2 && (forall i :: 0 <= i < |c.dates| ==> Long(c.dates[i]))
    && |c.refs| <= 16 && (forall i :: 0 <= i < |c.refs| ==> Long(c.refs[i].index))
  }

  ghost function KeptCont(c: Cont): Cont
    requires ValidCont(c)
  {
    c.(body := Kept(c.body))
  }

  // ---------------------------------------------------------------------------------------------
  // Relative ids

  // The step from `prev` to `index`, truncated to a signed 32-bit integer.
  function Step32(index: nat, prev: nat): int
  {
    var d := (index - prev) % 0x1_0000_0000;
    if d >= 0x8000_0000 then d - 0x1_0000_0000 else d
  }

  // The step on the 64 bits of the index.
  function Step64(index: nat, prev: nat): int
  {
    var d := (index - prev) % 0x1_0000_0000_0000_0000;
    if d >= 0x8000_0000_0000_0000 then d - 0x1_0000_0000_0000_0000 else d
  }

  predicate Short(rid: int) { -8 <= rid <= 7 }

  // `hwe_id_compute`
  function IdCompute(prev: nat, rid: int): nat { (prev + rid) % 0x1_0000_0000_0000_0000 }

  // `hwe_head_rid_compute`: the relative id, and whether it was in range.
  function RidCompute(index: nat, prev: nat): (int, bool)
  {
    var d := Step32(index, prev);
    if Short(d) then (d, true) else (0, false)
  }

  // The index that a reader computes for an event written after `prev`.
  function IndexBack(index: nat, prev: nat): nat
  {
    var (rid, ok) := RidCompute(index, prev);
    IdCompute(if ok then prev else index, rid)
  }

  // The truncated step is short only if the step is.
  predicate Representable(index: nat, prev: nat)
  {
    Short(Step32(index, prev)) ==> Short(Step64(index, prev))
  }

  lemma StepBack(index: nat, prev: nat)
    requires Long(index) && Long(prev)
    ensures IdCompute(prev, Step64(index, prev)) == index
  {
  }

  lemma StepOf(prev: nat, d: int)
    requires Long(prev) && Short(d)
    ensures Step64(IdCompute(prev, d), prev) == d
  {
  }

  // The two steps agree on the low 32 bits.
  lemma SameLow(index: nat, prev: nat)
    requires Short(Step32(index, prev)) && Short(Step64(index, prev))
    ensures Step32(index, prev) == Step64(index, prev)
  {
    LowBits(index - prev);
  }

  lemma LowBits(d: int)
    ensures (d % 0x1_0000_0000_0000_0000) % 0x1_0000_0000 == d % 0x1_0000_0000
  {
    var m, q := d % 0x1_0000_0000_0000_0000, d / 0x1_0000_0000_0000_0000;
    var r, k := m % 0x1_0000_0000, m / 0x1_0000_0000;
    assert d == (q * 0x1_0000_0000 + k) * 0x1_0000_0000 + r;
  }

  lemma ShortSteps(index: nat, prev: nat)
    requires Long(index) && Long(prev) && Short(Step32(index, prev))
    ensures IdCompute(prev, Step32(index, prev)) == index <==> Short(Step64(index, prev))
  {
    if Short(Step64(index, prev)) {
      SameLow(index, prev);
      StepBack(index, prev);
    }
    StepOf(prev, Step32(index, prev));
  }

  /** The id of an event is recovered exactly if its step is short, or stays long when it is truncated. */
  lemma IdRoundTrip(index: nat, prev: nat)
    requires Long(index) && Long(prev)
    ensures IndexBack(index, prev) == index <==> Representable(index, prev)
    ensures RidCompute(index, prev).1 <==> -8 <= Step32(index, prev) <= 7
  {
    if Short(Step32(index, prev)) { ShortSteps(index, prev); }
  }

  /** A step of 2^32 is lost. */
  lemma LongStepLost()
    ensures IndexBack(0x1_0000_0005, 5) == 5 && !Representable(0x1_0000_0005, 5)
  {
    IdRoundTrip(0x1_0000_0005, 5);
  }

  // ---------------------------------------------------------------------------------------------
  // Containers

  function Nibble(rid: int): nat { rid % 16 }

  function Signed4(n: nat): int { if n % 16 >= 8 then n % 16 - 16 else n % 16 }

  // devid and hwe_head_t
  function Head(dev: byte, kind: nat, rid: int, ndates: nat, nrefs: nat, expected: nat, nchild: nat,
                comChild: nat): (r: Bytes)
    requires kind < 16 && ndates < 4 && nrefs < 64
    ensures |r| == 15
  {
    [dev, kind + 16 * Nibble(rid), ndates + 4 * nrefs] + Le(expected, 4) + Le(nchild, 4) + Le(comChild, 4)
  }

  function Dates(q: seq<nat>): seq<Bytes> { seq(|q|, i requires 0 <= i < |q| => Le(q[i], 8)) }

  function Refs(q: seq<Id>): seq<Bytes> { seq(|q|, i requires 0 <= i < |q| => [q[i].dev] + Le(q[i].index, 8)) }

  function IdOf(b: Bytes): Id { if |b| < 9 then Id(0, 0) else Id(b[0], Num(b[1..9])) }

  function Ids(p: seq<Bytes>): seq<Id> { seq(|p|, i requires 0 <= i < |p| => IdOf(p[i])) }

  // What precedes the body.
  function Front(c: Cont, kind: nat, rid: int): Bytes
    requires kind < 16 && |c.dates| < 4 && |c.refs| < 64
  {
    Head(c.id.dev, kind, rid, |c.dates|, |c.refs|, c.expected, c.nchild, c.comChild) + Joined(Dates(c.dates))
      + Joined(Refs(c.refs))
  }

  // `hwe_sizeof`
  function ContSize(c: Cont): nat { 15 + 8 * |c.dates| + 9 * |c.refs| + BodySize(c.body) }

  // `hwe_write`
  function WriteCont(c: Cont, rid: int): Bytes
    requires |c.dates| < 4 && |c.refs| < 64
  {
    Front(c, TypeOf(c.body), rid) + WriteBody(c.body)
  }

  // The bytes of a container that stay in the file.
  ghost function Image(c: Cont, rid: int): (r: Bytes)
    requires ValidCont(c)
    ensures |r| == ContSize(c)
  {
    DatesBack(c.dates);
    RefsBack(c.refs);
    Front(c, TypeOf(c.body), rid) + BodyImage(c.body)
  }

  // `hwe_id_write`
  function IdImage(id: Id): Bytes
  {
    [id.dev] + seq(14, _ => 0) + Le(id.index, 8)
  }

  // The header of such a record is all zeros.
  lemma ZeroHead(dev: byte, zero: nat)
    requires zero == 0
    ensures Head(dev, zero, zero, zero, zero, zero, zero, zero) == [dev] + seq(14, _ => 0)
  {
    ZeroLe(zero, 4);
  }

  lemma {:induction false} ZeroLe(zero: nat, n: nat)
    requires zero == 0
    ensures Le(zero, n) == seq(n, _ => 0)
  {
    if n > 0 {
      ZeroLe(zero / 256, n - 1);
      assert Le(zero, n) == [0] + seq(n - 1, _ => 0);
    }
  }

  // A record of the file: the setting of an id, or a container.
  datatype Record = SetId(id: Id) | Data(c: Cont)

  type Prev = map<byte, nat>

  function Of(prev: Prev, dev: byte): nat { if dev in prev then prev[dev] else 0 }

  // The reader's table of devices: `ncomp` and `previd`.
  datatype Table = Table(size: nat, prev: Prev)

  const START := Table(16, map[])

  // The last index of a device, for `hwe_id_compute`.
  function Look(t: Table, dev: byte): nat { if dev < t.size then Of(t.prev, dev) else 0 }

  // `update_previd` doubles the table once if the device is not in it...
  function Doubled(size: nat, dev: byte): nat { if size <= dev then 2 * size else size }

  // ... which is enough for some devices only: then the update is inside the table.
  predicate Inside(size: nat, dev: byte) { dev < Doubled(size, dev) }

  function Update(t: Table, id: Id): Table { Table(Doubled(t.size, id.dev), t.prev[id.dev := id.index]) }

  // The table holds exactly the indexes `prev`.
  ghost predicate Agrees(t: Table, prev: Prev)
  {
    t.prev == prev && forall d :: d in prev ==> d < t.size
  }

  // A record, from what precedes the body and the body.
  function Finish(c: Cont, front: nat, body: Read<Body>): Read<Record>
  {
    match body
    case Need => Need
    case Bad => Bad
    case Got(b, n) => Got(Data(c.(body := b)), front + n)
  }

  // The header, the dates and the references of a record.
  function HeaderOf(b: Bytes, t: Table, nd: nat, nr: nat): Cont
    requires |b| >= 15 + 8 * nd + 9 * nr
  {
    Cont(Id(b[0], IdCompute(Look(t, b[0]), Signed4(b[1] / 16))),
         Num(Cut(b, 3, 4)), Num(Cut(b, 7, 4)), Num(Cut(b, 11, 4)),
         Nums(Pieces(Cut(b, 15, 8 * nd), 8, nd)), Ids(Pieces(Cut(b, 15 + 8 * nd, 9 * nr), 9, nr)), Null)
  }

  /** `hwe_read`, with the last index of every device. */
  function ReadRecord(b: Bytes, t: Table): Read<Record>
  {
    if |b| < 15 then Need
    else
      var nd, nr: nat := b[2] % 4, b[2] / 4;
      var front := 15 + 8 * nd + 9 * nr;
      if |b| < front then Need
      else if b[1] % 16 == 0 then
        if |b| < front + 8 then Need else Got(SetId(Id(b[0], Num(Cut(b, front, 8)))), front + 8)
      else
        Finish(HeaderOf(b, t, nd, nr), front, ReadBody(b[1] % 16, b[front..]))
  }

  // ---------------------------------------------------------------------------------------------
  // Containers read back

  lemma DatesBack(q: seq<nat>)
    requires forall i :: 0 <= i < |q| ==> Long(q[i])
    ensures |Joined(Dates(q))| == 8 * |q| && Nums(Pieces(Joined(Dates(q)), 8, |q|)) == q
  {
    Powers();
    forall i | 0 <= i < |q| ensures Num(Dates(q)[i]) == q[i] { NumLe(q[i], 8); }
    PiecesJoined(Dates(q), 8);
  }

  lemma RefsBack(q: seq<Id>)
    requires forall i :: 0 <= i < |q| ==> Long(q[i].index)
    ensures |Joined(Refs(q))| == 9 * |q| && Ids(Pieces(Joined(Refs(q)), 9, |q|)) == q
  {
    Powers();
    forall i | 0 <= i < |q| ensures IdOf(Refs(q)[i]) == q[i] {
      NumLe(q[i].index, 8);
      assert Refs(q)[i][1..9] == Le(q[i].index, 8);
    }
    PiecesJoined(Refs(q), 9);
  }

  lemma {:induction false} HeadBack(dev: byte, kind: nat, rid: int, nd: nat, nr: nat, expected: nat, nchild: nat,
                                    comChild: nat, b: Bytes)
    requires kind < 16 && nd < 4 && nr < 64 && Short(rid) && Word(expected) && Word(nchild) && Word(comChild)
    requires Head(dev, kind, rid, nd, nr, expected, nchild, comChild) <= b
    ensures |b| >= 15 && b[0] == dev && b[1] % 16 == kind && Signed4(b[1] / 16) == rid && b[2] % 4 == nd
    ensures b[2] / 4 == nr
    ensures Num(Cut(b, 3, 4)) == expected && Num(Cut(b, 7, 4)) == nchild && Num(Cut(b, 11, 4)) == comChild
  {
    Powers();
    NumLe(expected, 4);
    NumLe(nchild, 4);
    NumLe(comChild, 4);
    var w := Head(dev, kind, rid, nd, nr, expected, nchild, comChild);
    assert b[0] == w[0] && b[1] == w[1] && b[2] == w[2];
    assert Cut(b, 3, 4) == Cut(w, 3, 4) == Le(expected, 4);
    assert Cut(b, 7, 4) == Cut(w, 7, 4) == Le(nchild, 4);
    assert Cut(b, 11, 4) == Cut(w, 11, 4) == Le(comChild, 4);
  }

  // The header, the dates and the references of `c` at the start of `b`.
  lemma {:induction false} FrontBack(c: Cont, kind: nat, rid: int, b: Bytes)
    requires ValidCont(c) && kind < 16 && Short(rid) && Front(c, kind, rid) <= b
    ensures var nd, nr := |c.dates|, |c.refs|;
      && |Front(c, kind, rid)| == 15 + 8 * nd + 9 * nr <= |b|
      && b[0] == c.id.dev && b[1] % 16 == kind && Signed4(b[1] / 16) == rid && b[2] % 4 == nd && b[2] / 4 == nr
      && Num(Cut(b, 3, 4)) == c.expected && Num(Cut(b, 7, 4)) == c.nchild && Num(Cut(b, 11, 4)) == c.comChild
      && Nums(Pieces(Cut(b, 15, 8 * nd), 8, nd)) == c.dates && Ids(Pieces(Cut(b, 15 + 8 * nd, 9 * nr), 9, nr)) == c.refs
  {
    var nd, nr := |c.dates|, |c.refs|;
    var h := Head(c.id.dev, kind, rid, nd, nr, c.expected, c.nchild, c.comChild);
    var d, r := Joined(Dates(c.dates)), Joined(Refs(c.refs));
    DatesBack(c.dates);
    RefsBack(c.refs);
    assert h <= h + d + r <= b;
    HeadBack(c.id.dev, kind, rid, nd, nr, c.expected, c.nchild, c.comChild, b);
    assert Cut(b, 15, 8 * nd) == d;
    assert Cut(b, 15 + 8 * nd, 9 * nr) == r;
  }

  lemma {:induction false} HeaderBack(c: Cont, kind: nat, rid: int, t: Table, b: Bytes)
    requires ValidCont(c) && kind < 16 && Short(rid) && Front(c, kind, rid) <= b
    ensures 15 + 8 * |c.dates| + 9 * |c.refs| <= |b|
    ensures HeaderOf(b, t, |c.dates|, |c.refs|)
      == c.(id := Id(c.id.dev, IdCompute(Look(t, c.id.dev), rid)), body := Null)
  {
    FrontBack(c, kind, rid, b);
  }

  // Reading a record whose header, dates and references are there.
  lemma {:induction false} FrontRead(c: Cont, rid: int, t: Table, b: Bytes, body: Read<Body>)
    requires ValidCont(c) && Short(rid) && Front(c, TypeOf(c.body), rid) <= b
    requires body == ReadBody(TypeOf(c.body), b[|Front(c, TypeOf(c.body), rid)|..])
    ensures |Front(c, TypeOf(c.body), rid)| == 15 + 8 * |c.dates| + 9 * |c.refs|
    ensures ReadRecord(b, t)
         == Finish(c.(id := Id(c.id.dev, IdCompute(Look(t, c.id.dev), rid))), 15 + 8 * |c.dates| + 9 * |c.refs|, body)
  {
    FrontBack(c, TypeOf(c.body), rid, b);
    HeaderBack(c, TypeOf(c.body), rid, t, b);
  }

  lemma AfterFront(front: Bytes, body: Bytes, rest: Bytes)
    ensures front <= front + body + rest && (front + body + rest)[|front|..] == body + rest && body <= body + rest
  {
  }

  /** A container is read back from the bytes that are kept of it, whatever follows. */
  lemma {:induction false} ContBack(c: Cont, rid: int, t: Table, rest: Bytes)
    requires ValidCont(c) && Short(rid) && IdCompute(Look(t, c.id.dev), rid) == c.id.index
    ensures ReadRecord(Image(c, rid) + rest, t) == Got(Data(KeptCont(c)), ContSize(c))
  {
    var front := Front(c, TypeOf(c.body), rid);
    AfterFront(front, BodyImage(c.body), rest);
    DataBack(c, rid, t, Image(c, rid) + rest, BodyImage(c.body) + rest);
  }

  lemma {:induction false} DataBack(c: Cont, rid: int, t: Table, b: Bytes, tail: Bytes)
    requires ValidCont(c) && Short(rid) && IdCompute(Look(t, c.id.dev), rid) == c.id.index
    requires Front(c, TypeOf(c.body), rid) <= b && b[|Front(c, TypeOf(c.body), rid)|..] == tail
    requires BodyImage(c.body) <= tail
    ensures ReadRecord(b, t) == Got(Data(KeptCont(c)), ContSize(c))
  {
    BodyBack(c.body, tail);
    FrontRead(c, rid, t, b, Got(Kept(c.body), BodySize(c.body)));
  }

  /** The record that sets an id is read back. */
  lemma IdBack(id: Id, t: Table, rest: Bytes)
    requires Long(id.index)
    ensures |IdImage(id)| == 23 && ReadRecord(IdImage(id) + rest, t) == Got(SetId(id), 23)
  {
    var b := IdImage(id) + rest;
    ZeroHead(id.dev, 0);
    assert Head(id.dev, 0, 0, 0, 0, 0, 0, 0) <= b;
    HeadBack(id.dev, 0, 0, 0, 0, 0, 0, 0, b);
    Powers();
    NumLe(id.index, 8);
    assert Cut(b, 15, 8) == Le(id.index, 8);
  }

  /** A container that is cut off is not read: the reader asks for more bytes. */
  lemma ContNeeds(c: Cont, rid: int, t: Table, n: nat)
    requires ValidCont(c) && Short(rid) && n < ContSize(c)
    ensures ReadRecord(Image(c, rid)[..n], t) == Need
  {
    var front := Front(c, TypeOf(c.body), rid);
    FrontBack(c, TypeOf(c.body), rid, front);
    if n >= |front| { BodyCut(c, rid, t, n); } else { FrontCut(c, rid, t, n); }
  }

  lemma BodyCut(c: Cont, rid: int, t: Table, n: nat)
    requires ValidCont(c) && Short(rid) && |Front(c, TypeOf(c.body), rid)| <= n < ContSize(c)
    ensures ReadRecord(Image(c, rid)[..n], t) == Need
  {
    var front := Front(c, TypeOf(c.body), rid);
    var b := Image(c, rid)[..n];
    CutInside(front, BodyImage(c.body), n);
    BodyNeeds(c.body, n - |front|);
    FrontRead(c, rid, t, b, Need);
  }

  lemma FrontCut(c: Cont, rid: int, t: Table, n: nat)
    requires ValidCont(c) && Short(rid) && n < |Front(c, TypeOf(c.body), rid)| == 15 + 8 * |c.dates| + 9 * |c.refs|
    ensures ReadRecord(Image(c, rid)[..n], t) == Need
  {
    var front := Front(c, TypeOf(c.body), rid);
    CutBefore(front, BodyImage(c.body), n);
    FrontNeeds(c, rid, t, n);
  }

  lemma FrontNeeds(c: Cont, rid: int, t: Table, n: nat)
    requires ValidCont(c) && Short(rid) && n < |Front(c, TypeOf(c.body), rid)| == 15 + 8 * |c.dates| + 9 * |c.refs|
    ensures ReadRecord(Front(c, TypeOf(c.body), rid)[..n], t) == Need
  {
    if n >= 15 {
      var b := Front(c, TypeOf(c.body), rid)[..n];
      assert Head(c.id.dev, TypeOf(c.body), rid, |c.dates|, |c.refs|, c.expected, c.nchild, c.comChild) <= b;
      HeadBack(c.id.dev, TypeOf(c.body), rid, |c.dates|, |c.refs|, c.expected, c.nchild, c.comChild, b);
    }
  }

  // ---------------------------------------------------------------------------------------------
  // Events

  // An event is a list of containers with the same id.
  type Event = seq<Cont>

  ghost predicate ValidEvent(e: Event)
  {
    e != [] && forall i :: 0 <= i < |e| ==> ValidCont(e[i]) && e[i].id == e[0].id
  }

  // The further containers of an event.
  ghost function MoreBytes(e: Event): Bytes
    requires forall i :: 0 <= i < |e| ==> ValidCont(e[i])
  {
    if e == [] then [] else Image(e[0], 0) + MoreBytes(e[1..])
  }

  // The first container of an event, and the record that sets its id if it needs one.
  ghost function FirstBytes(c: Cont, prev: Prev): Bytes
    requires ValidCont(c)
  {
    var (rid, ok) := RidCompute(c.id.index, Of(prev, c.id.dev));
    (if ok then [] else IdImage(c.id)) + Image(c, rid)
  }

  // What `buffer_event` adds to the file.
  ghost function EventBytes(e: Event, prev: Prev): Bytes
    requires ValidEvent(e)
  {
    FirstBytes(e[0], prev) + MoreBytes(e[1..])
  }

  ghost predicate ValidEvents(es: seq<Event>) { forall i :: 0 <= i < |es| ==> ValidEvent(es[i]) }

  ghost function StreamBytes(es: seq<Event>, prev: Prev): Bytes
    requires ValidEvents(es)
    decreases |es|
  {
    if es == [] then [] else EventBytes(es[0], prev) + StreamBytes(es[1..], After(es[0], prev))
  }

  ghost function After(e: Event, prev: Prev): Prev
    requires e != []
  {
    prev[e[0].id.dev := e[0].id.index]
  }

  // Every step can be written, and no two events in a row have the same id.
  ghost predicate Writable(es: seq<Event>, prev: Prev)
    requires ValidEvents(es)
    decreases |es|
  {
    es == [] ||
    (&& Long(Of(prev, es[0][0].id.dev)) && Representable(es[0][0].id.index, Of(prev, es[0][0].id.dev))
     && (|es| > 1 ==> es[1][0].id != es[0][0].id)
     && Writable(es[1..], After(es[0], prev)))
  }

  // ---------------------------------------------------------------------------------------------
  // Reading a stream

  // What a file holds: its containers, unless a record is refused or the table update of one leaves the table.
  datatype Contents = Conts(value: seq<Cont>) | Refused | Outside

  // All the containers of a file.
  function ReadConts(b: Bytes, t: Table): Contents
    decreases |b|
  {
    match ReadRecord(b, t)
    case Need => Conts([])
    case Bad => Refused
    case Got(r, n) =>
      if n == 0 || n > |b| then Refused
      else
        var id := if r.SetId? then r.id else r.c.id;
        if !Inside(t.size, id.dev) then Outside
        else Plus(if r.SetId? then [] else [r.c], ReadConts(b[n..], Update(t, id)))
  }

  // The containers in a row with the same id make an event.
  function Group(cs: seq<Cont>): seq<Event>
  {
    if cs == [] then []
    else
      var rest := Group(cs[1..]);
      if rest != [] && rest[0] != [] && rest[0][0].id == cs[0].id then [[cs[0]] + rest[0]] + rest[1..]
      else [[cs[0]]] + rest
  }

  ghost function KeptConts(e: Event): Event
    requires forall i :: 0 <= i < |e| ==> ValidCont(e[i])
  {
    if e == [] then [] else [KeptCont(e[0])] + KeptConts(e[1..])
  }

  ghost function AllKept(es: seq<Event>): seq<Cont>
    requires ValidEvents(es)
  {
    if es == [] then [] else KeptConts(es[0]) + AllKept(es[1..])
  }

  ghost function KeptEvents(es: seq<Event>): seq<Event>
    requires ValidEvents(es)
  {
    if es == [] then [] else [KeptConts(es[0])] + KeptEvents(es[1..])
  }

  function Plus(cs: seq<Cont>, r: Contents): Contents
  {
    if r.Conts? then Conts(cs + r.value) else r
  }

  lemma StepCont(c: Cont, rid: int, t: Table, rest: Bytes)
    requires ValidCont(c) && Short(rid) && IdCompute(Look(t, c.id.dev), rid) == c.id.index
    ensures ReadConts(Image(c, rid) + rest, t)
         == if Inside(t.size, c.id.dev) then Plus([KeptCont(c)], ReadConts(rest, Update(t, c.id))) else Outside
  {
    ContBack(c, rid, t, rest);
    CutAfter(Image(c, rid), rest);
  }

  lemma StepId(id: Id, t: Table, rest: Bytes)
    requires Long(id.index)
    ensures ReadConts(IdImage(id) + rest, t) ==
      if Inside(t.size, id.dev) then ReadConts(rest, Update(t, id)) else Outside
  {
    IdBack(id, t, rest);
    CutAfter(IdImage(id), rest);
    if Inside(t.size, id.dev) { PlusNone(ReadConts(rest, Update(t, id))); }
  }

  // Another record of a device that is in the table.
  lemma UpdateAgain(t: Table, id: Id)
    requires id.dev < t.size && id.dev in t.prev && t.prev[id.dev] == id.index
    ensures Update(t, id) == t && Inside(t.size, id.dev) && Look(t, id.dev) == id.index
  {
    assert t.prev[id.dev := id.index] == t.prev;
  }

  lemma {:induction false} MoreBack(e: Event, id: Id, t: Table, rest: Bytes)
    requires forall i :: 0 <= i < |e| ==> ValidCont(e[i]) && e[i].id == id
    requires Long(id.index) && id.dev < t.size && id.dev in t.prev && t.prev[id.dev] == id.index
    ensures ReadConts(MoreBytes(e) + rest, t) == Plus(KeptConts(e), ReadConts(rest, t))
  {
    if e == [] {
      NoneBefore(rest);
      PlusNone(ReadConts(rest, t));
    } else {
      var tail := MoreBytes(e[1..]) + rest;
      Assoc(Image(e[0], 0), MoreBytes(e[1..]), rest);
      assert IdCompute(id.index, 0) == id.index;
      UpdateAgain(t, id);
      StepCont(e[0], 0, t, tail);
      MoreBack(e[1..], id, t, rest);
      PlusTwice([KeptCont(e[0])], KeptConts(e[1..]), ReadConts(rest, t));
    }
  }

  lemma PlusNone(r: Contents)
    ensures Plus([], r) == r
  {
    if r.Conts? { assert [] + r.value == r.value; }
  }

  lemma PlusTwice(a: seq<Cont>, b: seq<Cont>, r: Contents)
    ensures Plus(a, Plus(b, r)) == Plus(a + b, r)
  {
    if r.Conts? { assert a + (b + r.value) == a + b + r.value; }
  }

  // The first container, and the record that sets its id if there is one.
  lemma {:induction false} FirstBack(c: Cont, prev: Prev, t: Table, tail: Bytes)
    requires ValidCont(c) && Long(Of(prev, c.id.dev)) && Representable(c.id.index, Of(prev, c.id.dev))
    requires Agrees(t, prev)
    ensures ReadConts(FirstBytes(c, prev) + tail, t)
         == if Inside(t.size, c.id.dev) then Plus([KeptCont(c)], ReadConts(tail, Update(t, c.id))) else Outside
  {
    var (rid, ok) := RidCompute(c.id.index, Of(prev, c.id.dev));
    IdRoundTrip(c.id.index, Of(prev, c.id.dev));
    if ok {
      NoneBefore(Image(c, rid));
      StepCont(c, rid, t, tail);
    } else {
      var now := Update(t, c.id);
      Assoc(IdImage(c.id), Image(c, 0), tail);
      StepId(c.id, t, Image(c, 0) + tail);
      if Inside(t.size, c.id.dev) {
        UpdateAgain(now, c.id);
        StepCont(c, 0, now, tail);
      }
    }
  }

  lemma {:induction false} EventBack(e: Event, prev: Prev, t: Table, rest: Bytes)
    requires ValidEvent(e) && Long(Of(prev, e[0].id.dev)) && Representable(e[0].id.index, Of(prev, e[0].id.dev))
    requires Agrees(t, prev)
    ensures ReadConts(EventBytes(e, prev) + rest, t)
         == if Inside(t.size, e[0].id.dev) then Plus(KeptConts(e), ReadConts(rest, Update(t, e[0].id))) else Outside
  {
    var first, more := FirstBytes(e[0], prev), MoreBytes(e[1..]);
    Assoc(first, more, rest);
    FirstBack(e[0], prev, t, more + rest);
    if Inside(t.size, e[0].id.dev) {
      MoreBack(e[1..], e[0].id, Update(t, e[0].id), rest);
      PlusTwice([KeptCont(e[0])], KeptConts(e[1..]), ReadConts(rest, Update(t, e[0].id)));
    }
  }

  // The devices of the events, in order.
  function Devices(es: seq<Event>): (r: seq<byte>)
    requires forall i :: 0 <= i < |es| ==> es[i] != []
    ensures |r| == |es|
  {
    if es == [] then [] else [es[0][0].id.dev] + Devices(es[1..])
  }

  // The size of the table after records of these devices.
  function SizeAfter(size: nat, devs: seq<byte>): nat
    decreases |devs|
  {
    if devs == [] then size else SizeAfter(Doubled(size, devs[0]), devs[1..])
  }

  // Every device is below twice the size that the ones before it have led to.
  predicate AllInside(size: nat, devs: seq<byte>)
  {
    forall i :: 0 <= i < |devs| ==> devs[i] < 2 * SizeAfter(size, devs[..i])
  }

  lemma AllInsideFirst(size: nat, devs: seq<byte>)
    requires devs != []
    ensures AllInside(size, devs) <==> Inside(size, devs[0]) && AllInside(Doubled(size, devs[0]), devs[1..])
  {
    var rest, now := devs[1..], Doubled(size, devs[0]);
    assert devs[..0] == [];
    forall i | 0 < i < |devs|
      ensures SizeAfter(size, devs[..i]) == SizeAfter(now, rest[..i - 1]) && devs[i] == rest[i - 1]
    {
      assert devs[..i][0] == devs[0] && devs[..i][1..] == rest[..i - 1];
    }
    if AllInside(size, devs) {
      assert devs[0] < 2 * SizeAfter(size, devs[..0]);
      forall j | 0 <= j < |rest| ensures rest[j] < 2 * SizeAfter(now, rest[..j]) { assert devs[j + 1] == rest[j]; }
    }
    if Inside(size, devs[0]) && AllInside(now, rest) {
      forall i | 0 <= i < |devs| ensures devs[i] < 2 * SizeAfter(size, devs[..i]) {
        if i > 0 { assert rest[i - 1] < 2 * SizeAfter(now, rest[..i - 1]); }
      }
    }
  }

  /** The containers of a written file are all read back exactly when every device id is below twice the
      size of the table so far; otherwise a table update is out of bounds. */
  lemma {:induction false} ContsBack(es: seq<Event>, prev: Prev, t: Table)
    requires ValidEvents(es) && Writable(es, prev) && Agrees(t, prev)
    ensures ReadConts(StreamBytes(es, prev), t) ==
      if AllInside(t.size, Devices(es)) then Conts(AllKept(es)) else Outside
    decreases |es|
  {
    if es != [] {
      var id := es[0][0].id;
      EventBack(es[0], prev, t, StreamBytes(es[1..], After(es[0], prev)));
      AllInsideFirst(t.size, Devices(es));
      if Inside(t.size, id.dev) {
        ContsBack(es[1..], After(es[0], prev), Update(t, id));
      }
    }
  }

  // ---------------------------------------------------------------------------------------------
  // Regrouping

  lemma {:induction false} KeptIds(e: Event)
    requires forall i :: 0 <= i < |e| ==> ValidCont(e[i])
    ensures |KeptConts(e)| == |e| && forall i :: 0 <= i < |e| ==> KeptConts(e)[i].id == e[i].id
  {
    if e != [] { KeptIds(e[1..]); }
  }

  // Containers with the same id in front of others.
  lemma {:induction false} GroupRun(e: seq<Cont>, rest: seq<Cont>)
    requires e != [] && forall i :: 0 <= i < |e| ==> e[i].id == e[0].id
    requires rest != [] ==> rest[0].id != e[0].id
    ensures Group(e + rest) == [e] + Group(rest)
  {
    GroupHead(rest);
    assert (e + rest)[0] == e[0] && (e + rest)[1..] == e[1..] + rest;
    if |e| == 1 {
      assert e[1..] + rest == rest && e == [e[0]];
    } else {
      GroupRun(e[1..], rest);
      assert [e[0]] + e[1..] == e;
      assert ([e[1..]] + Group(rest))[1..] == Group(rest);
    }
  }

  // The first group starts with the first container.
  lemma {:induction false} GroupHead(cs: seq<Cont>)
    ensures cs == [] <==> Group(cs) == []
    ensures cs != [] ==> Group(cs)[0] != [] && Group(cs)[0][0] == cs[0]
  {
    if cs != [] { GroupHead(cs[1..]); }
  }

  lemma {:induction false} GroupBack(es: seq<Event>, prev: Prev)
    requires ValidEvents(es) && Writable(es, prev)
    ensures Group(AllKept(es)) == KeptEvents(es)
    ensures es != [] ==> AllKept(es) != [] && AllKept(es)[0].id == es[0][0].id
    decreases |es|
  {
    if es != [] {
      GroupBack(es[1..], After(es[0], prev));
      KeptIds(es[0]);
      GroupRun(KeptConts(es[0]), AllKept(es[1..]));
    }
  }

  // What a whole file reads as.
  function ReadEvents(file: Bytes): Option<seq<Event>>
  {
    var r := ReadConts(file, START);
    if r.Conts? then Some(Group(r.value)) else None
  }

  /** The events written to a file are the events read from it, if and only if every device id is below twice
      the size that the device table has reached before it. */
  lemma StreamRoundTrip(es: seq<Event>)
    requires ValidEvents(es) && Writable(es, map[])
    ensures ReadEvents(StreamBytes(es, map[])) == Some(KeptEvents(es)) <==> AllInside(START.size, Devices(es))
    ensures !AllInside(START.size, Devices(es)) ==> ReadConts(StreamBytes(es, map[]), START) == Outside
  {
    ContsBack(es, map[], START);
    GroupBack(es, map[]);
  }

  /** A file that holds one event of a device and nothing else, which is what remains of a trace when that device is
      selected, is read back exactly if the device is below 32. */
  lemma {:induction false} DeviceAlone(dev: byte, index: nat)
    requires index < 0x8000_0000
    ensures var c := Cont(Id(dev, index), 0, 0, 0, [], [], Null);
      && ValidEvents([[c]]) && Writable([[c]], map[])
      && ReadConts(StreamBytes([[c]], map[]), START) == if dev < 32 then Conts([c]) else Outside
  {
    var c := Cont(Id(dev, index), 0, 0, 0, [], [], Null);
    SmallStep(index);
    OneEvent(c);
    ContsBack([[c]], map[], START);
    OneDevice([[c]], dev);
  }

  lemma {:induction false} OneEvent(c: Cont)
    requires ValidCont(c) && c.body == Null && Representable(c.id.index, 0)
    ensures ValidEvents([[c]]) && Writable([[c]], map[]) && AllKept([[c]]) == [c]
  {
    assert ValidEvent([[c]][0]);
    assert [[c]][1..] == [];
    assert KeptConts([c]) == [c];
  }

  lemma {:induction false} OneDevice(es: seq<Event>, dev: byte)
    requires |es| == 1 && es[0] != [] && es[0][0].id.dev == dev
    ensures AllInside(16, Devices(es)) <==> dev < 32
  {
    assert Devices(es) == [dev];
    assert [dev][..0] == [];
  }

  // A first index below 2^31 can be written.
  lemma SmallStep(index: nat)
    requires index < 0x8000_0000
    ensures Representable(index, 0)
  {
  }
}
