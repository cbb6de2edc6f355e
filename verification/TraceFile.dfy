/**
 Reading a trace file in pieces: the window of `read_container` in
 lib/decopus/trace/source/hwetrace_read.c, and the way of events through a file.
 */
module TraceFile {
  import opened CodecBytes
  import opened TraceCodec
  import opened TraceStream
  import opened TraceWriter

  // ---------------------------------------------------------------------------------------------
  // Reading from a prefix

  // `w` is a prefix of `b` that reads as `b` does, or does not hold enough.
  ghost predicate Extends<T>(r: Read<T>, s: Read<T>, w: Bytes)
  {
    && (r != Need ==> s == r)
    && (s.Got? && s.size <= |w| ==> r != Need)
  }

  lemma CutPrefix(w: Bytes, b: Bytes, i: nat, n: nat)
    requires w <= b && i + n <= |w|
    ensures Cut(w, i, n) == Cut(b, i, n)
  {
  }

  lemma {:induction false} WordMore(kind: nat, w: Bytes, b: Bytes)
    requires w <= b
    ensures Extends(ReadWord(kind, w), ReadWord(kind, b), w)
  {
    if |w| >= 4 { assert w[..4] == b[..4]; }
  }

  lemma {:induction false} AckMore(w: Bytes, b: Bytes)
    requires w <= b
    ensures Extends(ReadAck(w), ReadAck(b), w)
  {
    if |w| >= 6 { CutPrefix(w, b, 2, 4); }
  }

  lemma {:induction false} InfoMore(w: Bytes, b: Bytes)
    requires w <= b
    ensures Extends(ReadInfo(w), ReadInfo(b), w)
  {
    if |w| >= 4 {
      assert w[..2] == b[..2];
      var n: nat, d := b[3], DeviceSize(b[2]);
      if |w| >= 4 + n + d {
        CutPrefix(w, b, 4, n);
        CutPrefix(w, b, 4 + n, d);
      }
    }
  }

  lemma {:induction false} Mem32More(w: Bytes, b: Bytes)
    requires w <= b
    ensures Extends(ReadMem32(w), ReadMem32(b), w)
  {
    if |w| >= 11 {
      var n: nat := if UseData(b[0]) then 1 + b[1] as int else 0;
      CutPrefix(w, b, 2, 4);
      CutPrefix(w, b, 7, 4);
      if |w| >= 11 + n { CutPrefix(w, b, 11, n); }
    }
  }

  lemma {:induction false} InstMore(w: Bytes, b: Bytes)
    requires w <= b
    ensures Extends(ReadInst(w), ReadInst(b), w)
  {
    if |w| >= 20 {
      CutPrefix(w, b, 4, 4);
      CutPrefix(w, b, 8, 4);
      var flags, n := Num(Cut(b, 4, 4)), Num(Cut(b, 8, 4));
      var j: nat := if Jumps(flags) then 4 else 0;
      var d := if HasRegData(flags) then n else 0;
      if |w| >= 20 + n + 4 * d + j { InstOfMore(w, b, flags, n, j, d); }
    }
  }

  lemma {:induction false} InstOfMore(w: Bytes, b: Bytes, flags: nat, n: nat, j: nat, d: nat)
    requires w <= b && |w| >= 20 + j + n + 4 * d
    ensures InstOf(w, flags, n, j, d) == InstOf(b, flags, n, j, d)
  {
    CutPrefix(w, b, 0, 4);
    CutPrefix(w, b, 12, 4);
    CutPrefix(w, b, 16, 4);
    CutPrefix(w, b, 20, j);
    CutPrefix(w, b, 20 + j, n);
    CutPrefix(w, b, 20 + j + n, 4 * d);
  }

  lemma {:induction false} BodyMore(kind: nat, w: Bytes, b: Bytes)
    requires w <= b
    ensures Extends(ReadBody(kind, w), ReadBody(kind, b), w)
  {
    WordMore(kind, w, b);
    AckMore(w, b);
    InfoMore(w, b);
    Mem32More(w, b);
    InstMore(w, b);
  }

  lemma {:induction false} HeaderMore(w: Bytes, b: Bytes, t: Table, nd: nat, nr: nat)
    requires w <= b && |w| >= 15 + 8 * nd + 9 * nr
    ensures HeaderOf(w, t, nd, nr) == HeaderOf(b, t, nd, nr)
  {
    CutPrefix(w, b, 3, 4);
    CutPrefix(w, b, 7, 4);
    CutPrefix(w, b, 11, 4);
    CutPrefix(w, b, 15, 8 * nd);
    CutPrefix(w, b, 15 + 8 * nd, 9 * nr);
  }

  /** A record is read from a part of the file as from the whole file, once the part holds it. */
  lemma {:induction false} RecordMore(w: Bytes, b: Bytes, t: Table)
    requires w <= b
    ensures Extends(ReadRecord(w, t), ReadRecord(b, t), w)
  {
    if |w| >= 15 {
      var nd, nr: nat := b[2] % 4, b[2] / 4;
      var front := 15 + 8 * nd + 9 * nr;
      if |w| >= front {
        HeaderMore(w, b, t, nd, nr);
        if |w| >= front + 8 { CutPrefix(w, b, front, 8); }
        assert w[front..] <= b[front..];
        BodyMore(b[1] % 16, w[front..], b[front..]);
      }
    }
  }

  // ---------------------------------------------------------------------------------------------
  // The window

  const BUFSIZE := 1000000

  /** How reading ends: at the end of the file; with the message that the buffer is too small; because a record is
      refused; because a table update is out of bounds; or with a full window, which looks like the end of the file. */
  datatype End = Complete | Failed | Unknown | OutOfTable | Full

  function RecordId(r: Record): Id { if r.SetId? then r.id else r.c.id }

  function RecordConts(r: Record): seq<Cont> { if r.SetId? then [] else [r.c] }

  // The record at the start of `b` fits in the buffer.
  ghost predicate Fits(b: Bytes, t: Table)
  {
    ReadRecord(b, t).Got? && ReadRecord(b, t).size <= 1000000
  }

  // The most that call number `i` of `read` gives; a call gives at least a byte, if there is one and room for it.
  function Grant(grants: seq<nat>, i: nat): (n: nat)
    ensures n > 0
  {
    if i >= |grants| then BUFSIZE else if grants[i] == 0 then 1 else grants[i]
  }

  ghost predicate NoneShort(grants: seq<nat>) { forall i :: 0 <= i < |grants| ==> grants[i] >= BUFSIZE }

  class Window {
    const grants: seq<nat>
    var calls: nat       // how often `read` was called
    var rest: Bytes      // what has not been read from the file
    var buf: Bytes       // what has been read and not been used

    // The file from the current position on.
    ghost function Left(): Bytes
      reads this
    {
      buf + rest
    }

    // What the next call of `read` gives.
    function Given(): nat
      reads this
    {
      var room := if |buf| <= BUFSIZE then BUFSIZE - |buf| else 0;
      var most := if Grant(grants, calls) <= room then Grant(grants, calls) else room;
      if |rest| <= most then |rest| else most
    }

    constructor (file: Bytes, g: seq<nat>)
      ensures Left() == file && buf == [] && rest == file && calls == 0 && grants == g
    {
      rest, buf, calls, grants := file, [], 0, g;
    }

    /** `read` into the free part of the buffer: some bytes, not always all that there is room for. */
    method Refill() returns (n: nat)
      requires |buf| <= BUFSIZE
      modifies this
      ensures Left() == old(Left()) && old(buf) <= buf && |buf| == |old(buf)| + n <= BUFSIZE && n == old(Given())
      ensures n == 0 <==> old(rest) == [] || |old(buf)| == BUFSIZE
      ensures NoneShort(grants) ==> rest == [] || |buf| == BUFSIZE
    {
      n := Given();
      calls := calls + 1;
      assert old(buf) + old(rest) == (old(buf) + old(rest)[..n]) + old(rest)[n..];
      buf, rest := buf + rest[..n], rest[n..];
    }

    /** `read_container`: the next record of the file, if it fits in the buffer and one call of `read` completes it. */
    method ReadContainer(t: Table) returns (r: Read<Record>, end: End)
      requires |buf| <= BUFSIZE
      modifies this
      ensures |buf| <= BUFSIZE && (r.Need? || r == ReadRecord(old(Left()), t))
      ensures r.Got? ==> 0 < r.size <= |old(Left())| && Left() == old(Left())[r.size..]
      ensures r.Need? && NoneShort(grants) ==> !Fits(old(Left()), t)
      ensures r.Need? && end == Complete ==> ReadRecord(old(Left()), t) == Need
      ensures end == Complete || (r.Need? && (end == Failed || end == Full))
      ensures old(Left()) == [] ==> end == Complete
      ensures Fits(old(Left()), t) ==>
        (end == Failed <==> 0 < old(Given()) && old(|buf| + Given()) < ReadRecord(old(Left()), t).size)
    {
      end := Complete;
      ghost var all := Left();
      r := ReadRecord(buf, t);
      RecordMore(buf, all, t);
      GotSize(all, t);
      if r.Need? {
        ghost var before := buf;
        var n := Refill();
        RecordMore(buf, all, t);
        WholeWindow(buf, rest);
        if n == 0 {
          assert buf == before;
          end := if rest == [] then Complete else Full;
          return;
        }
        r := ReadRecord(buf, t);
        GotSize(buf, t);
        if r.Need? {
          end := Failed;
          return;
        }
      }
      GotSize(buf, t);
      if r.Got? {
        SkipUsed(buf, rest, r.size);
        buf := buf[r.size..];
      }
    }

    /** The loop over the containers of a file: when it ends at the end of the file, all of the file has been read, and
        a file whose records all fit in the buffer is read to its end or to an update outside the table, if no call of
        `read` gives less than there is room for. */
    method ReadFile() returns (cs: seq<Cont>, end: End)
      requires buf == []
      modifies this
      ensures end == Complete ==> ReadConts(old(Left()), START) == Conts(cs)
      ensures end == Unknown ==> ReadConts(old(Left()), START) == Refused
      ensures end == OutOfTable ==> ReadConts(old(Left()), START) == Outside
      ensures AllFit(old(Left()), START) && NoneShort(grants) ==> end == Complete || end == OutOfTable
    {
      ghost var file := Left();
      var t := START;
      cs, end := [], Complete;
      PlusNone(ReadConts(file, START));
      while true
        invariant |buf| <= BUFSIZE && Plus(cs, ReadConts(Left(), t)) == ReadConts(file, START)
        invariant AllFit(file, START) ==> AllFit(Left(), t)
        decreases |Left()|
      {
        ghost var all := Left();
        var r;
        r, end := ReadContainer(t);
        match r {
          case Need =>
            ReadLast(all, t, cs);
            return;
          case Bad =>
            end := Unknown;
            return;
          case Got(record, _) =>
            if !Inside(t.size, RecordId(record).dev) {
              end := OutOfTable;
              return;
            }
            ReadStep(all, t, record, r.size, cs);
            cs := cs + RecordConts(record);
            t := Update(t, RecordId(record));
        }
      }
    }
  }

  // Every record from here on fits in the buffer, and the last one is complete.
  ghost predicate AllFit(b: Bytes, t: Table)
    decreases |b|
  {
    b == [] ||
    (&& Fits(b, t) && 0 < ReadRecord(b, t).size <= |b|
     && (var r := ReadRecord(b, t);
         Inside(t.size, RecordId(r.value).dev) ==> AllFit(b[r.size..], Update(t, RecordId(r.value)))))
  }

  lemma {:induction false} ReadStep(b: Bytes, t: Table, record: Record, n: nat, cs: seq<Cont>)
    requires ReadRecord(b, t) == Got(record, n) && 0 < n <= |b| && Inside(t.size, RecordId(record).dev)
    ensures Plus(cs + RecordConts(record), ReadConts(b[n..], Update(t, RecordId(record)))) == Plus(cs, ReadConts(b, t))
    ensures AllFit(b, t) ==> AllFit(b[n..], Update(t, RecordId(record)))
  {
    PlusTwice(cs, RecordConts(record), ReadConts(b[n..], Update(t, RecordId(record))));
  }

  lemma {:induction false} ReadLast(b: Bytes, t: Table, cs: seq<Cont>)
    ensures ReadRecord(b, t) == Need ==> Plus(cs, ReadConts(b, t)) == Conts(cs)
    ensures AllFit(b, t) && !Fits(b, t) ==> b == []
  {
    assert cs + [] == cs;
  }

  lemma SkipUsed(buf: Bytes, rest: Bytes, n: nat)
    requires n <= |buf|
    ensures (buf + rest)[n..] == buf[n..] + rest
  {
  }

  lemma WholeWindow(buf: Bytes, rest: Bytes)
    ensures rest == [] ==> buf + rest == buf
  {
  }

  lemma {:induction false} GotSize(b: Bytes, t: Table)
    ensures ReadRecord(b, t).Got? ==> 0 < ReadRecord(b, t).size <= |b|
  {
  }

  /** A short read: the file holds a whole record that fits in the buffer, and reading it fails. */
  method ShortRead(file: Bytes) returns (r: Read<Record>, end: End)
    requires Fits(file, START)
    ensures r.Need? && end == Failed
  {
    var window := new Window(file, [1]);
    GotSize(file, START);
    RecordSize(file, START);
    assert Grant(window.grants, 0) == 1 && window.Given() == 1;
    r, end := window.ReadContainer(START);
  }

  lemma {:induction false} RecordSize(b: Bytes, t: Table)
    ensures ReadRecord(b, t).Got? ==> ReadRecord(b, t).size >= 15
  {
  }

  // ---------------------------------------------------------------------------------------------
  // Written files

  lemma {:induction false} FitCont(c: Cont, rid: int, t: Table, rest: Bytes)
    requires ValidCont(c) && Short(rid) && IdCompute(Look(t, c.id.dev), rid) == c.id.index
    requires Inside(t.size, c.id.dev) ==> AllFit(rest, Update(t, c.id))
    ensures AllFit(Image(c, rid) + rest, t)
  {
    ContSmall(c);
    ContBack(c, rid, t, rest);
    CutAfter(Image(c, rid), rest);
  }

  lemma {:induction false} FitId(id: Id, t: Table, rest: Bytes)
    requires Long(id.index) && (Inside(t.size, id.dev) ==> AllFit(rest, Update(t, id)))
    ensures AllFit(IdImage(id) + rest, t)
  {
    IdBack(id, t, rest);
    CutAfter(IdImage(id), rest);
  }

  lemma {:induction false} FitMore(e: Event, id: Id, t: Table, rest: Bytes)
    requires forall i :: 0 <= i < |e| ==> ValidCont(e[i]) && e[i].id == id
    requires Long(id.index) && id.dev < t.size && id.dev in t.prev && t.prev[id.dev] == id.index && AllFit(rest, t)
    ensures AllFit(MoreBytes(e) + rest, t)
  {
    if e == [] {
      NoneBefore(rest);
    } else {
      Assoc(Image(e[0], 0), MoreBytes(e[1..]), rest);
      assert IdCompute(id.index, 0) == id.index;
      UpdateAgain(t, id);
      FitMore(e[1..], id, t, rest);
      FitCont(e[0], 0, t, MoreBytes(e[1..]) + rest);
    }
  }

  lemma {:induction false} FitFirst(c: Cont, prev: Prev, t: Table, tail: Bytes)
    requires ValidCont(c) && Long(Of(prev, c.id.dev)) && Representable(c.id.index, Of(prev, c.id.dev))
    requires Agrees(t, prev)
    requires Inside(t.size, c.id.dev) ==> AllFit(tail, Update(t, c.id))
    ensures AllFit(FirstBytes(c, prev) + tail, t)
  {
    var (rid, ok) := RidCompute(c.id.index, Of(prev, c.id.dev));
    IdRoundTrip(c.id.index, Of(prev, c.id.dev));
    if ok {
      NoneBefore(Image(c, rid));
      FitCont(c, rid, t, tail);
    } else {
      var now := Update(t, c.id);
      Assoc(IdImage(c.id), Image(c, 0), tail);
      if Inside(t.size, c.id.dev) {
        UpdateAgain(now, c.id);
        FitCont(c, 0, now, tail);
      }
      FitId(c.id, t, Image(c, 0) + tail);
    }
  }

  /** The records of a written file all fit in the reader's buffer. */
  lemma {:induction false} StreamFits(es: seq<Event>, prev: Prev, t: Table)
    requires ValidEvents(es) && Writable(es, prev) && Agrees(t, prev)
    ensures AllFit(StreamBytes(es, prev), t)
    decreases |es|
  {
    if es != [] {
      var e, rest := es[0], StreamBytes(es[1..], After(es[0], prev));
      var first, more := FirstBytes(e[0], prev), MoreBytes(e[1..]);
      Assoc(first, more, rest);
      if Inside(t.size, e[0].id.dev) {
        StreamFits(es[1..], After(e, prev), Update(t, e[0].id));
        FitMore(e[1..], e[0].id, Update(t, e[0].id), rest);
      }
      FitFirst(e[0], prev, t, more + rest);
    }
  }

  /** Writing the events of a trace and reading the file in pieces gives the events back, exactly when every
      device id is below twice the size of the reader's table so far. */
  method WriteAndRead(es: seq<Event>) returns (read: seq<Event>, end: End)
    requires ValidEvents(es) && Writable(es, map[])
    ensures if AllInside(START.size, Devices(es)) then end == Complete && read == KeptEvents(es) else end == OutOfTable
  {
    var writer := new Writer();
    writer.WriteAll(es);
    writer.Flush();
    assert writer.file + [] == writer.file;
    StreamFits(es, map[], START);
    ContsBack(es, map[], START);
    GroupBack(es, map[]);
    var window := new Window(writer.file, []);
    var cs;
    cs, end := window.ReadFile();
    read := Group(cs);
  }
}
