/**
 The writer of lib/decopus/trace/source/hwetrace_write.c: events are written to a buffer of fixed
 size, which is flushed to the file when the next container would not fit.

 `hwe_inst32_write` writes the values of all registers, but `hwe_inst32_sizeof` counts them only if
 the instruction carries them; the next container starts after the size that was counted.
 */
module TraceWriter {
  import opened Common
  import opened CodecBytes
  import opened TraceCodec
  import opened TraceStream

  const BUFFERSIZE := 1000000
  const ID_SIZE := 23

  lemma {:induction false} ContSmall(c: Cont)
    requires ValidCont(c)
    ensures 15 <= ContSize(c) <= 500
  {
  }

  // Bytes that `hwe_write` puts beyond the size that `hwe_sizeof` gives: register data that is not kept.
  function Excess(b: Body): nat
  {
    if b.Inst? && !HasRegData(b.flags) then 4 * |b.regs| else 0
  }

  lemma {:induction false} WriteSize(c: Cont, rid: int)
    requires ValidCont(c)
    ensures |WriteCont(c, rid)| == ContSize(c) + Excess(c.body)
  {
    DatesBack(c.dates);
    RefsBack(c.refs);
    if c.body.Inst? { NumsWords(c.body.regData); }
  }

  // ---------------------------------------------------------------------------------------------
  // The tests for room

  // The first container of an event after a record that sets its id, without one, or a further container.
  datatype Guard = WithId | First | Further

  function GuardOf(c: Cont, prev: Prev): Guard
  {
    if RidCompute(c.id.index, Of(prev, c.id.dev)).1 then First else WithId
  }

  // The room asked for beside the size of the container, and the bytes before it.
  function Asked(g: Guard): nat { if g == Further then 0 else ID_SIZE }
  function Offset(g: Guard): nat { if g == WithId then ID_SIZE else 0 }

  predicate HasRoom(used: nat, g: Guard, c: Cont) { used + ContSize(c) + Asked(g) <= BUFFERSIZE }

  ghost predicate StaysInside(used: nat, g: Guard, c: Cont, rid: int)
    requires ValidCont(c)
  {
    used + Offset(g) + |WriteCont(c, rid)| <= BUFFERSIZE
  }

  // The bytes that a container may write beyond its size.
  function Slack(g: Guard): nat { Asked(g) - Offset(g) }

  /** Each test of `buffer_event` keeps a container inside the buffer, however full that is, if and only if it is not an
      instruction without register values and with registers whose values exceed the room asked for: any register after
      an id record or in a further container, and more than five in a first container without an id record. */
  lemma WriteInsideIff(g: Guard, c: Cont, rid: int)
    requires ValidCont(c)
    ensures (forall used: nat :: HasRoom(used, g, c) ==> StaysInside(used, g, c, rid))
       <==> !(c.body.Inst? && !HasRegData(c.body.flags) && |c.body.regs| > (if g == First then 5 else 0))
  {
    WriteSize(c, rid);
    ContSmall(c);
    var full: nat := BUFFERSIZE - ContSize(c) - Asked(g);
    assert HasRoom(full, g, c);
  }

  // ---------------------------------------------------------------------------------------------
  // How far a writer reaches

  // The used bytes of the buffer, and the end of the last byte ever put there.
  datatype Fill = Fill(used: nat, top: nat)

  const EMPTY := Fill(0, 0)

  function Placed(f: Fill, g: Guard, c: Cont): Fill
  {
    var end := (if HasRoom(f.used, g, c) then f.used else 0) + Offset(g) + ContSize(c);
    Fill(end, if end + Excess(c.body) > f.top then end + Excess(c.body) else f.top)
  }

  ghost function MoreFill(f: Fill, e: Event): Fill
    decreases |e|
  {
    if e == [] then f else MoreFill(Placed(f, Further, e[0]), e[1..])
  }

  ghost function EventFill(f: Fill, e: Event, prev: Prev): Fill
    requires e != []
  {
    MoreFill(Placed(f, GuardOf(e[0], prev), e[0]), e[1..])
  }

  ghost function StreamFill(f: Fill, es: seq<Event>, prev: Prev): Fill
    requires ValidEvents(es)
    decreases |es|
  {
    if es == [] then f else StreamFill(EventFill(f, es[0], prev), es[1..], After(es[0], prev))
  }

  // No container writes more than the room asked for.
  ghost predicate Contained(es: seq<Event>, prev: Prev)
    requires ValidEvents(es)
    decreases |es|
  {
    es == [] ||
    (&& Excess(es[0][0].body) <= Slack(GuardOf(es[0][0], prev))
     && (forall i :: 1 <= i < |es[0]| ==> Excess(es[0][i].body) == 0)
     && Contained(es[1..], After(es[0], prev)))
  }

  ghost predicate InBuffer(f: Fill) { f.used <= BUFFERSIZE && f.top <= BUFFERSIZE }

  lemma PlacedInside(f: Fill, g: Guard, c: Cont)
    requires f.used <= BUFFERSIZE && ValidCont(c)
    ensures Placed(f, g, c).used <= BUFFERSIZE
    ensures f.top <= BUFFERSIZE && Excess(c.body) <= Slack(g) ==> Placed(f, g, c).top <= BUFFERSIZE
  {
    ContSmall(c);
  }

  lemma {:induction false} MoreInside(f: Fill, e: Event)
    requires f.used <= BUFFERSIZE && forall i :: 0 <= i < |e| ==> ValidCont(e[i])
    ensures MoreFill(f, e).used <= BUFFERSIZE
    ensures f.top <= BUFFERSIZE && (forall i :: 0 <= i < |e| ==> Excess(e[i].body) == 0) ==>
      MoreFill(f, e).top <= BUFFERSIZE
    decreases |e|
  {
    if e != [] {
      PlacedInside(f, Further, e[0]);
      MoreInside(Placed(f, Further, e[0]), e[1..]);
    }
  }

  /** A writer never counts more bytes than its buffer has, and never writes beyond it if no container writes more than
      the room asked for. */
  lemma {:induction false} StreamInside(f: Fill, es: seq<Event>, prev: Prev)
    requires InBuffer(f) && ValidEvents(es)
    ensures StreamFill(f, es, prev).used <= BUFFERSIZE
    ensures Contained(es, prev) ==> InBuffer(StreamFill(f, es, prev))
    decreases |es|
  {
    if es != [] { EventInside(f, es, prev); }
  }

  lemma {:induction false} EventInside(f: Fill, es: seq<Event>, prev: Prev)
    requires f.used <= BUFFERSIZE && ValidEvents(es) && es != []
    ensures EventFill(f, es[0], prev).used <= BUFFERSIZE
    ensures StreamFill(f, es, prev).used <= BUFFERSIZE
    ensures Contained(es, prev) && InBuffer(f) ==> InBuffer(StreamFill(f, es, prev))
    decreases |es|
  {
    var e, g := es[0], GuardOf(es[0][0], prev);
    assert ValidEvent(e);
    PlacedInside(f, g, e[0]);
    MoreInside(Placed(f, g, e[0]), e[1..]);
    if |es| > 1 { EventInside(EventFill(f, e, prev), es[1..], After(e, prev)); }
  }

  class Writer {
    var file: Bytes
    var buffer: Bytes
    var lastid: Prev
    ghost var reach: nat    // the end of the last byte ever put in the buffer

    // What the file holds once the buffer is flushed.
    ghost function Output(): Bytes
      reads this
    {
      file + buffer
    }

    ghost function Filled(): Fill
      reads this
    {
      Fill(|buffer|, reach)
    }

    constructor ()
      ensures Output() == [] && lastid == map[] && Filled() == EMPTY && file == []
    {
      file, buffer, lastid, reach := [], [], map[], 0;
    }

    /** `buffer_flush` */
    method Flush()
      modifies this`file, this`buffer
      ensures Output() == old(Output()) && buffer == []
    {
      file := file + buffer;
      buffer := [];
    }

    method Append(b: Bytes)
      modifies this`buffer
      ensures Output() == old(Output()) + b && |buffer| == |old(buffer)| + |b|
    {
      buffer := buffer + b;
      Assoc(file, old(buffer), b);
    }

    // `hwe_write` at the end of the buffer; the next record starts after the size of the container.
    method Put(c: Cont, rid: int)
      requires ValidCont(c)
      modifies this`buffer, this`reach
      ensures Output() == old(Output()) + Image(c, rid) && |buffer| == |old(buffer)| + ContSize(c)
      ensures reach == if |buffer| + Excess(c.body) > old(reach) then |buffer| + Excess(c.body) else old(reach)
    {
      WriteStarts(c, rid);
      WriteSize(c, rid);
      ghost var end := |buffer| + |WriteCont(c, rid)|;
      reach := if end > reach then end else reach;
      Append(WriteCont(c, rid)[..ContSize(c)]);
    }

    // The main container.
    method PutFirst(hwe: Cont)
      requires ValidCont(hwe)
      modifies this`file, this`buffer, this`reach
      ensures Output() == old(Output()) + FirstBytes(hwe, lastid)
      ensures Filled() == Placed(old(Filled()), GuardOf(hwe, lastid), hwe)
    {
      if |buffer| + ContSize(hwe) + ID_SIZE > BUFFERSIZE {
        Flush();
      }
      ghost var before := Output();
      var (rid, ok) := RidCompute(hwe.id.index, Of(lastid, hwe.id.dev));
      if !ok {
        IdBack(hwe.id, START, []);
        Append(IdImage(hwe.id));
        Put(hwe, rid);
        Assoc(before, IdImage(hwe.id), Image(hwe, rid));
      } else {
        Put(hwe, rid);
        NoneBefore(Image(hwe, rid));
      }
    }

    /** `buffer_event`: the event is added to the file, and its index is the last one of its device; how far the buffer
        is used and was written to. */
    method BufferEvent(e: Event)
      requires ValidEvent(e)
      modifies this
      ensures Output() == old(Output()) + EventBytes(e, old(lastid)) && lastid == After(e, old(lastid))
      ensures Filled() == EventFill(old(Filled()), e, old(lastid))
    {
      ghost var before, first, more := Output(), FirstBytes(e[0], lastid), MoreBytes(e[1..]);
      PutFirst(e[0]);
      lastid := lastid[e[0].id.dev := e[0].id.index];
      assert Output() == before + first;
      PutMore(e[1..]);
      Assoc(before, first, more);
    }

    // A further container.
    method PutNext(c: Cont)
      requires ValidCont(c)
      modifies this`file, this`buffer, this`reach
      ensures Output() == old(Output()) + Image(c, 0) && Filled() == Placed(old(Filled()), Further, c)
    {
      if |buffer| + ContSize(c) > BUFFERSIZE {
        Flush();
      }
      Put(c, 0);
    }

    // The loop over the further containers.
    method PutMore(e: Event)
      requires forall i :: 0 <= i < |e| ==> ValidCont(e[i])
      modifies this`file, this`buffer, this`reach
      ensures Output() == old(Output()) + MoreBytes(e) && Filled() == MoreFill(old(Filled()), e)
    {
      for i := 0 to |e|
        invariant Output() + MoreBytes(e[i..]) == old(Output()) + MoreBytes(e)
        invariant MoreFill(Filled(), e[i..]) == MoreFill(old(Filled()), e)
      {
        ghost var before := Output();
        PutNext(e[i]);
        MoreStep(e, i, before);
        assert e[i..][1..] == e[i + 1..];
      }
    }

    /** The events of a trace, one after the other: what a fresh writer outputs is the file of these events, and
        it reads back as them exactly when every device id is below twice the size of the reader's table so far.  How
        far the buffer was written to, and that it was not left if no container writes more than the room asked for. */
    method WriteAll(es: seq<Event>)
      requires ValidEvents(es) && Output() == [] && lastid == map[] && Filled() == EMPTY
      modifies this
      ensures Output() == StreamBytes(es, map[]) && |buffer| <= 1000000
      ensures Writable(es, map[]) ==>
        (ReadEvents(Output()) == Some(KeptEvents(es)) <==> AllInside(START.size, Devices(es)))
      ensures Filled() == StreamFill(EMPTY, es, map[]) && (Contained(es, map[]) ==> reach <= BUFFERSIZE)
    {
      for i := 0 to |es|
        invariant Output() + StreamBytes(es[i..], lastid) == StreamBytes(es, map[])
        invariant StreamFill(Filled(), es[i..], lastid) == StreamFill(EMPTY, es, map[])
      {
        ghost var before, prev := Output(), lastid;
        BufferEvent(es[i]);
        StreamStep(es, i, before, prev);
        assert es[i..][1..] == es[i + 1..];
      }
      StreamInside(EMPTY, es, map[]);
      if Writable(es, map[]) { StreamRoundTrip(es); }
    }
  }

  lemma StreamStep(es: seq<Event>, i: nat, before: Bytes, prev: Prev)
    requires i < |es| && ValidEvents(es)
    ensures before + StreamBytes(es[i..], prev)
      == before + EventBytes(es[i], prev) + StreamBytes(es[i + 1..], After(es[i], prev))
  {
    assert es[i..][1..] == es[i + 1..];
    Assoc(before, EventBytes(es[i], prev), StreamBytes(es[i + 1..], After(es[i], prev)));
  }

  lemma MoreStep(e: Event, i: nat, before: Bytes)
    requires i < |e| && forall j :: 0 <= j < |e| ==> ValidCont(e[j])
    ensures before + MoreBytes(e[i..]) == before + Image(e[i], 0) + MoreBytes(e[i + 1..])
  {
    assert e[i..][1..] == e[i + 1..];
    Assoc(before, Image(e[i], 0), MoreBytes(e[i + 1..]));
  }

  lemma WriteStarts(c: Cont, rid: int)
    requires ValidCont(c)
    ensures ContSize(c) <= |WriteCont(c, rid)| && WriteCont(c, rid)[..ContSize(c)] == Image(c, rid)
  {
    DatesBack(c.dates);
    RefsBack(c.refs);
    BodyFits(c.body);
  }

  // ---------------------------------------------------------------------------------------------
  // A writer that leaves its buffer

  // An event without a body.
  function Tick(index: nat): Event { [Cont(Id(0, index), 0, 0, 0, [], [], Null)] }

  // An instruction with 18 registers, without their values.
  function Wide(index: nat): Event
  {
    [Cont(Id(0, index), 0, 0, 0, [], [], Inst(0, 0, 0, 0, 0, seq(18, _ => 0), seq(18, _ => 0)))]
  }

  lemma TickFill(f: Fill, index: nat, prev: Prev)
    requires 0 < index < 0x8000_0000 && Of(prev, 0) == index - 1 && f.used + 38 <= BUFFERSIZE
    ensures ValidEvent(Tick(index)) && EventFill(f, Tick(index), prev).used == f.used + 15
  {
    assert RidCompute(index, index - 1) == (1, true);
  }

  lemma WideFill(f: Fill, index: nat, prev: Prev)
    requires 0 < index < 0x8000_0000 && Of(prev, 0) == index - 1 && f.used + 76 <= BUFFERSIZE
    ensures ValidEvent(Wide(index)) && EventFill(f, Wide(index), prev).top >= f.used + 125
  {
    assert RidCompute(index, index - 1) == (1, true);
    assert !HasRegData(0) && !Jumps(0);
  }

  /** Events of 15 bytes until the buffer is nearly full, and then an instruction with 18 registers without values: the
      test finds room, and the writer leaves the buffer. */
  method Overrun() returns (w: Writer)
    ensures w.reach > 1000000
  {
    w := new Writer();
    var i := 1;
    while |w.buffer| + 125 <= BUFFERSIZE
      invariant 0 < i < 0x8000_0000 && Of(w.lastid, 0) == i - 1 && |w.buffer| == 15 * (i - 1)
      invariant |w.buffer| + 110 <= BUFFERSIZE
      decreases BUFFERSIZE - |w.buffer|
    {
      TickFill(w.Filled(), i, w.lastid);
      w.BufferEvent(Tick(i));
      i := i + 1;
    }
    WideFill(w.Filled(), i, w.lastid);
    w.BufferEvent(Wide(i));
  }
}
