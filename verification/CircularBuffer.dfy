/**
 The two-thread circular buffer of lib/decopus/trace/include/hwetrace_par_cirbuf.h, as a machine
 whose steps are the accesses to the shared variables.

 The tracer fills buffers with event containers and the handler empties them and puts clean
 containers back.  The positions in a buffer are the counts FULL_IDX and EMPTY_IDX, as in
 HWEPAR_MODE 3, which lib/decopus/trace/makefile.handler builds.  The two shared indexes are kept
 modulo the number of buffers; the machine also keeps their unwrapped values, and the history of
 what was sent and handled, for the proofs.  Memory is sequentially consistent.
 */
module CircularBuffer {

  // HWEPAR_NBBUF, HWEPAR_BUFSIZE and HWEPAR_BUFSTART
  datatype Config = Config(nb: nat, size: nat, start: nat) {
    predicate Ok() { 2 <= nb && 0 < start < size }
  }

  // A container pointer or the NULL that ends the trace.
  datatype Slot = Cont(id: nat) | Null

  datatype Buffer = Buffer(full: nat, empty: nat, slots: seq<Slot>)

  // Running; between the two halves of `hwepar_switchbuffer`; asleep on `handler_cond`; joining.
  datatype TracerPc = Running | Switching | Asleep | Joining

  // Looking for work; having work; in the handling loop; in the refill loop; at the NULL marker.
  datatype HandlerPc = Looking | Opening | Handling(i: nat) | Filling(i: nat) | Ended(i: nat)

  datatype State = State(
    bufs: seq<Buffer>,
    tracerIdx: nat, handlerIdx: nat,                             // shared
    tpc: TracerPc, bufrdy: nat, bufidx: nat, full: nat, empty: nat, closed: bool,  // tracer
    hpc: HandlerPc, hidx: nat, todo: nat,                        // handler
    t: nat, h: nat,                                              // unwrapped shared indexes
    posts: seq<seq<Slot>>,                                       // contents handed over, by unwrapped index
    sent: seq<Slot>, handled: seq<Slot>,                         // history
    // containers with the tracer, with the event handler; last position
    out: set<nat>, own: set<nat>, place: map<nat, (nat, nat)>)

  datatype Action =
    | Alloc              // hwepar_alloc when the buffer has an empty container
    | Send(c: nat)       // hwepar_handle when the buffer has room
    | SendEnd            // the NULL of hwepar_stop
    | Switch             // hwepar_switchbuffer up to the synchronisation
    | Sync               // hwepar_tracer_sync
    | Sleep              // the checked wait on handler_cond
    | NewBuffer          // hwepar_newbuffer
    | Look               // hwepar_handler_sync
    | Open               // read full_idx and empty_idx of the next buffer
    | Handle(freed: set<nat>)  // one iteration of the handling loop; containers of events recycled by it
    | Fill(c: nat)       // one iteration of the refill loop
    | Pass               // switch to the next buffer and signal it

  // ---------------------------------------------------------------------------------------------
  // The invariant

  ghost predicate Shape(c: Config, s: State)
  {
    && c.Ok() && |s.bufs| == c.nb
    && forall b :: 0 <= b < c.nb ==> |s.bufs[b].slots| == c.size
  }

  function Buf(c: Config, s: State, u: nat): Buffer
    requires c.Ok() && |s.bufs| == c.nb
  {
    s.bufs[u % c.nb]
  }

  ghost predicate Indexes(c: Config, s: State)
  {
    && c.Ok()
    && s.t + 1 <= s.h <= s.t + c.nb
    && s.tracerIdx == s.t % c.nb && s.handlerIdx == s.h % c.nb && s.hidx == s.h % c.nb
    && |s.posts| == s.t + c.nb
  }

  ghost predicate TracerOk(c: Config, s: State)
    requires Shape(c, s)
  {
    && s.full <= s.empty <= c.size && c.start <= s.empty
    && match s.tpc
       case Running => s.bufidx == s.t % c.nb && 1 <= s.bufrdy <= s.h - s.t
       case Switching =>
         s.bufidx == (s.t + 1) % c.nb && s.bufrdy <= s.h - (s.t + 1)
         && Buf(c, s, s.t).full == s.full && Buf(c, s, s.t).empty == s.empty
       case Asleep =>
         s.bufidx == (s.t + 1) % c.nb && s.bufrdy == 0 && s.h == s.t + 1
         && Buf(c, s, s.t).full == s.full && Buf(c, s, s.t).empty == s.empty
       case Joining => s.closed && s.full == 0 && s.bufidx == s.t % c.nb
  }

  ghost predicate HandlerOk(c: Config, s: State)
    requires Shape(c, s)
  {
    match s.hpc
    case Looking => true
    case Opening => 1 <= s.todo <= s.t + c.nb - s.h
    case Handling(i) => 1 <= s.todo <= s.t + c.nb - s.h && i <= Buf(c, s, s.h).full
    case Filling(i) => 1 <= s.todo <= s.t + c.nb - s.h && c.start <= i <= Buf(c, s, s.h).empty
    case Ended(i) => s.h < s.t + c.nb && i < |PostAt(s, s.h)| && PostAt(s, s.h)[i] == Null && s.tpc == Joining
  }

  function PostAt(s: State, u: nat): seq<Slot> { if u < |s.posts| then s.posts[u] else [] }

  // A buffer that waits for the handler, or that the handler is working on.
  ghost predicate PendingOk(c: Config, s: State, u: nat)
    requires Shape(c, s)
  {
    var b := Buf(c, s, u);
    && b.full == |PostAt(s, u)| && b.full <= b.empty <= c.size && c.start <= b.empty
    && ((u == s.h && s.hpc.Filling?) || b.slots[..b.full] == PostAt(s, u))
  }

  ghost predicate Pending(c: Config, s: State)
    requires Shape(c, s)
  {
    forall u :: s.h <= u < s.t + c.nb ==> PendingOk(c, s, u)
  }

  ghost function Flat(q: seq<seq<Slot>>): seq<Slot>
  {
    if q == [] then [] else Flat(q[..|q|-1]) + q[|q|-1]
  }

  // What the handler has handled of the buffer it is working on.
  ghost function Progress(s: State): seq<Slot>
  {
    var p := PostAt(s, s.h);
    match s.hpc
    case Looking => []
    case Opening => []
    case Handling(i) => if i <= |p| then p[..i] else []
    case Filling(i) => p
    case Ended(i) => if i <= |p| then p[..i] else []
  }

  /** Nothing is lost, duplicated or reordered between the two threads. */
  ghost predicate History(c: Config, s: State)
    requires Shape(c, s) && Indexes(c, s) && TracerOk(c, s)
  {
    && s.sent == Flat(s.posts) + Buf(c, s, s.t).slots[..s.full]
    && s.handled == Flat(s.posts[..s.h]) + Progress(s)
    && Null !in s.handled
    && (if s.closed then s.sent != [] && s.sent[|s.sent|-1] == Null && Null !in s.sent[..|s.sent|-1]
        else Null !in s.sent)
    && (s.tpc != Joining ==> forall u :: 0 <= u < |s.posts| ==> Null !in s.posts[u])
  }

  // The slots of the buffer at unwrapped index `u` that hold a pointer in use.
  ghost predicate Holds(c: Config, s: State, u: nat, j: nat)
    requires Shape(c, s)
  {
    var b := Buf(c, s, u);
    if u == s.t then j < s.full || s.empty <= j
    else if u < s.h then c.start <= j
    else if u == s.h && (s.hpc.Handling? || s.hpc.Ended?) then s.hpc.i <= j < b.full || b.empty <= j
    else if u == s.h && s.hpc.Filling? then c.start <= j < s.hpc.i || b.empty <= j
    else j < b.full || b.empty <= j
  }

  // Among them, the clean containers.
  ghost predicate Clean(c: Config, s: State, u: nat, j: nat)
    requires Shape(c, s)
  {
    var b := Buf(c, s, u);
    if u == s.t then s.empty <= j
    else if u < s.h then c.start <= j
    else if u == s.h && s.hpc.Filling? then c.start <= j < s.hpc.i || b.empty <= j
    else b.empty <= j
  }

  ghost predicate SlotOk(c: Config, s: State, u: nat, j: nat)
    requires Shape(c, s) && j < c.size
  {
    var x := Buf(c, s, u).slots[j];
    && (Holds(c, s, u, j) && x.Cont? ==>
       x.id !in s.out && x.id !in s.own && x.id in s.place && s.place[x.id] == (u % c.nb, j))
    && (Clean(c, s, u, j) ==> Holds(c, s, u, j) && x.Cont?)
  }

  /** Every container is in at most one place: one slot in use, or with the tracer. */
  ghost predicate Containers(c: Config, s: State)
    requires Shape(c, s)
  {
    forall u, j :: s.t <= u < s.t + c.nb && 0 <= j < c.size ==> SlotOk(c, s, u, j)
  }

  ghost predicate Inv(c: Config, s: State)
  {
    && Shape(c, s) && Indexes(c, s) && TracerOk(c, s) && HandlerOk(c, s) && Pending(c, s) && History(c, s)
    && Containers(c, s) && s.out !! s.own
  }

  // ---------------------------------------------------------------------------------------------
  // Steps

  // `x` is neither held by the tracer nor in a buffer: `handle_alloc` may return it.
  ghost predicate Fresh(c: Config, s: State, x: nat)
    requires Shape(c, s)
  {
    x !in s.out && x !in s.own &&
    forall u, j :: s.t <= u < s.t + c.nb && 0 <= j < c.size && Holds(c, s, u, j) ==>
      Buf(c, s, u).slots[j] != Cont(x)
  }

  ghost predicate Enabled(c: Config, s: State, a: Action)
    requires Inv(c, s)
  {
    match a
    case Alloc => s.tpc == Running && !s.closed && s.empty < c.size
    case Send(x) => s.tpc == Running && !s.closed && s.full < s.empty && x in s.out
    case SendEnd => s.tpc == Running && !s.closed && s.full < s.empty
    case Switch => s.tpc == Running
    case Sync => s.tpc == Switching
    case Sleep => s.tpc == Switching
    case NewBuffer => s.tpc == Switching && s.bufrdy > 0
    case Look => s.hpc == Looking
    case Open => s.hpc == Opening
    case Handle(_) => s.hpc.Handling?
    case Fill(x) => s.hpc.Filling? && s.hpc.i < Buf(c, s, s.h).empty && Fresh(c, s, x)
    case Pass => s.hpc.Filling? && Buf(c, s, s.h).empty <= s.hpc.i
  }

  // The number of buffers from index `from` (included) to index `to` (excluded), modulo `nb`.
  function Distance(c: Config, from: nat, to: nat): nat
    requires c.Ok() && from <= c.nb
  {
    (to + c.nb - from) % c.nb
  }

  ghost function Put(c: Config, s: State, b: nat, j: nat, x: Slot): seq<Buffer>
    requires Shape(c, s) && b < c.nb && j < c.size
  {
    s.bufs[b := s.bufs[b].(slots := s.bufs[b].slots[j := x])]
  }

  ghost function Next(c: Config, s: State, a: Action): State
    requires Inv(c, s) && Enabled(c, s, a)
  {
    var k := s.t % c.nb;
    match a
    case Alloc =>
      assert SlotOk(c, s, s.t, s.empty);
      s.(empty := s.empty + 1, out := s.out + {s.bufs[k].slots[s.empty].id})
    case Send(x) =>
      s.(bufs := Put(c, s, k, s.full, Cont(x)), full := s.full + 1, sent := s.sent + [Cont(x)],
         out := s.out - {x}, place := s.place[x := (k, s.full)])
    case SendEnd =>
      s.(bufs := Put(c, s, k, s.full, Null), full := s.full + 1, sent := s.sent + [Null], closed := true)
    case Switch =>
      s.(bufs := s.bufs[k := s.bufs[k].(full := s.full, empty := s.empty)],
         bufidx := (s.bufidx + 1) % c.nb, bufrdy := s.bufrdy - 1, tpc := Switching)
    case Sync => s.(bufrdy := Distance(c, s.bufidx, s.handlerIdx))
    case Sleep =>
      var r := Distance(c, s.bufidx, s.handlerIdx);
      s.(bufrdy := r, tpc := if r == 0 then Asleep else Switching)
    case NewBuffer =>
      s.(tracerIdx := s.bufidx, empty := c.start, full := 0, tpc := if s.closed then Joining else Running,
         t := s.t + 1, posts := s.posts + [s.bufs[k].slots[..s.full]])
    case Look =>
      var n := Distance(c, s.hidx, s.tracerIdx);
      s.(todo := n, hpc := if n == 0 then Looking else Opening)
    case Open => s.(hpc := Handling(0))
    case Handle(freed) =>
      assert PendingOk(c, s, s.h);
      var b := s.bufs[s.hidx];
      if s.hpc.i < b.full then
        var x := b.slots[s.hpc.i];
        if x == Null then s.(hpc := Ended(s.hpc.i))
        else s.(hpc := Handling(s.hpc.i + 1), handled := s.handled + [x], own := s.own + {x.id} - freed)
      else
        s.(hpc := Filling(c.start))
    case Fill(x) =>
      assert PendingOk(c, s, s.h);
      s.(bufs := Put(c, s, s.hidx, s.hpc.i, Cont(x)), hpc := Filling(s.hpc.i + 1),
        place := s.place[x := (s.hidx, s.hpc.i)])
    case Pass =>
      var n := (s.hidx + 1) % c.nb;
      s.(hidx := n, handlerIdx := n, h := s.h + 1, todo := s.todo - 1,
         hpc := if s.todo - 1 > 0 then Opening else Looking,
         tpc := if s.tpc == Asleep then Switching else s.tpc)
  }

  // ---------------------------------------------------------------------------------------------
  // Modular arithmetic of the window

  lemma MulMono(a: int, b: int, k: nat)
    requires a <= b
    ensures a * k <= b * k
  {
  }

  lemma ModUnique(n: nat, q: int, r: nat, k: nat)
    requires r < k && n == q * k + r
    ensures n % k == r && n / k == q
  {
    var p := n / k;
    if p < q {
      MulMono(p + 1, q, k);
    } else if q < p {
      MulMono(q + 1, p, k);
    }
  }

  lemma ModShift(u: nat, d: nat, k: nat)
    requires d <= k && k >= 1
    ensures (u + d) % k == if u % k + d < k then u % k + d else u % k + d - k
  {
    var q, r := u / k, u % k;
    if r + d < k {
      ModUnique(u + d, q, r + d, k);
    } else {
      assert u + d == (q + 1) * k + (r + d - k);
      ModUnique(u + d, q + 1, r + d - k, k);
    }
  }

  lemma ModStep(u: nat, k: nat)
    requires k >= 2
    ensures (u % k + 1) % k == (u + 1) % k
  {
    ModShift(u, 1, k);
    if u % k + 1 < k {
      ModUnique(u % k + 1, 0, u % k + 1, k);
    } else {
      ModUnique(u % k + 1, 1, 0, k);
    }
  }

  // Two unwrapped indexes less than `nb` apart denote different buffers.
  lemma ModDistinct(u: nat, v: nat, k: nat)
    requires u < v < u + k
    ensures u % k != v % k
  {
    ModShift(u, v - u, k);
  }

  /** The modular distance is the distance of the unwrapped indexes, as long as it is below `nb`. */
  lemma DistanceIs(c: Config, u: nat, v: nat)
    requires c.Ok() && u <= v < u + c.nb
    ensures Distance(c, u % c.nb, v % c.nb) == v - u
  {
    ModShift(u, v - u, c.nb);
    var e := v % c.nb + c.nb - u % c.nb;
    if e < c.nb {
      ModUnique(e, 0, v - u, c.nb);
    } else {
      ModUnique(e, 1, v - u, c.nb);
    }
  }

  lemma HandlerDistance(c: Config, s: State)
    requires Indexes(c, s)
    ensures Distance(c, s.hidx, s.tracerIdx) == s.t + c.nb - s.h
  {
    ModShift(s.t, c.nb, c.nb);
    DistanceIs(c, s.h, s.t + c.nb);
  }

  lemma TracerDistance(c: Config, s: State)
    requires Indexes(c, s) && s.bufidx == (s.t + 1) % c.nb
    ensures Distance(c, s.bufidx, s.handlerIdx) == s.h - (s.t + 1)
  {
    DistanceIs(c, s.t + 1, s.h);
  }

  // ---------------------------------------------------------------------------------------------
  // Every step keeps the invariant

  lemma AllocKeeps(c: Config, s: State)
    requires Inv(c, s) && Enabled(c, s, Alloc)
    ensures Inv(c, Next(c, s, Alloc))
  {
    var r := Next(c, s, Alloc);
    assert SlotOk(c, s, s.t, s.empty);
    forall u | r.h <= u < r.t + c.nb ensures PendingOk(c, r, u) { assert PendingOk(c, s, u); }
    forall u, j | r.t <= u < r.t + c.nb && 0 <= j < c.size ensures SlotOk(c, r, u, j) {
      assert SlotOk(c, s, u, j);
      if u > s.t { ModDistinct(s.t, u, c.nb); }
    }
  }

  lemma SendKeeps(c: Config, s: State, x: nat)
    requires Inv(c, s) && Enabled(c, s, Send(x))
    ensures Inv(c, Next(c, s, Send(x)))
  {
    var r := Next(c, s, Send(x));
    forall u | s.t < u < s.t + c.nb ensures Buf(c, r, u) == Buf(c, s, u) { ModDistinct(s.t, u, c.nb); }
    forall u | r.h <= u < r.t + c.nb ensures PendingOk(c, r, u) { assert PendingOk(c, s, u); }
    SendContainers(c, s, x);
    assert Buf(c, r, r.t).slots[..r.full] == Buf(c, s, s.t).slots[..s.full] + [Cont(x)];
  }

  lemma SendContainers(c: Config, s: State, x: nat)
    requires Inv(c, s) && Enabled(c, s, Send(x))
    ensures Shape(c, Next(c, s, Send(x))) && Containers(c, Next(c, s, Send(x)))
  {
    var r := Next(c, s, Send(x));
    forall u | s.t < u < s.t + c.nb ensures Buf(c, r, u) == Buf(c, s, u) { ModDistinct(s.t, u, c.nb); }
    forall u, j | r.t <= u < r.t + c.nb && 0 <= j < c.size ensures SlotOk(c, r, u, j) {
      assert SlotOk(c, s, u, j);
    }
  }

  lemma SendEndKeeps(c: Config, s: State)
    requires Inv(c, s) && Enabled(c, s, SendEnd)
    ensures Inv(c, Next(c, s, SendEnd))
  {
    var r := Next(c, s, SendEnd);
    forall u | s.t < u < s.t + c.nb ensures Buf(c, r, u) == Buf(c, s, u) { ModDistinct(s.t, u, c.nb); }
    forall u | r.h <= u < r.t + c.nb ensures PendingOk(c, r, u) { assert PendingOk(c, s, u); }
    SendEndContainers(c, s);
    assert Buf(c, r, r.t).slots[..r.full] == Buf(c, s, s.t).slots[..s.full] + [Null];
    assert r.sent[..|r.sent|-1] == s.sent;
  }

  lemma SendEndContainers(c: Config, s: State)
    requires Inv(c, s) && Enabled(c, s, SendEnd)
    ensures Shape(c, Next(c, s, SendEnd)) && Containers(c, Next(c, s, SendEnd))
  {
    var r := Next(c, s, SendEnd);
    forall u | s.t < u < s.t + c.nb ensures Buf(c, r, u) == Buf(c, s, u) { ModDistinct(s.t, u, c.nb); }
    forall u, j | r.t <= u < r.t + c.nb && 0 <= j < c.size ensures SlotOk(c, r, u, j) {
      assert SlotOk(c, s, u, j);
    }
  }

  lemma SwitchKeeps(c: Config, s: State)
    requires Inv(c, s) && Enabled(c, s, Switch)
    ensures Inv(c, Next(c, s, Switch))
  {
    var r := Next(c, s, Switch);
    ModStep(s.t, c.nb);
    forall u | s.t < u < s.t + c.nb ensures Buf(c, r, u) == Buf(c, s, u) { ModDistinct(s.t, u, c.nb); }
    forall u | r.h <= u < r.t + c.nb ensures PendingOk(c, r, u) { assert PendingOk(c, s, u); }
    SwitchContainers(c, s);
  }

  lemma SwitchContainers(c: Config, s: State)
    requires Inv(c, s) && Enabled(c, s, Switch)
    ensures Shape(c, Next(c, s, Switch)) && Containers(c, Next(c, s, Switch))
  {
    var r := Next(c, s, Switch);
    forall u | s.t < u < s.t + c.nb ensures Buf(c, r, u) == Buf(c, s, u) { ModDistinct(s.t, u, c.nb); }
    forall u, j | r.t <= u < r.t + c.nb && 0 <= j < c.size ensures SlotOk(c, r, u, j) {
      assert SlotOk(c, s, u, j);
    }
  }

  lemma SyncKeeps(c: Config, s: State, a: Action)
    requires Inv(c, s) && (a == Sync || a == Sleep) && Enabled(c, s, a)
    ensures Inv(c, Next(c, s, a))
  {
    var r := Next(c, s, a);
    TracerDistance(c, s);
    forall u | r.h <= u < r.t + c.nb ensures PendingOk(c, r, u) { assert PendingOk(c, s, u); }
    forall u, j | r.t <= u < r.t + c.nb && 0 <= j < c.size ensures SlotOk(c, r, u, j) {
      assert SlotOk(c, s, u, j);
    }
  }

  lemma NewBufferKeeps(c: Config, s: State)
    requires Inv(c, s) && Enabled(c, s, NewBuffer)
    ensures Inv(c, Next(c, s, NewBuffer))
  {
    var r := Next(c, s, NewBuffer);
    ModShift(s.t, c.nb, c.nb);
    forall u | r.h <= u < r.t + c.nb ensures PendingOk(c, r, u) {
      if u < s.t + c.nb { assert PendingOk(c, s, u); }
    }
    NewBufferContainers(c, s);
    assert r.posts[..|r.posts|-1] == s.posts;
    assert r.posts[..r.h] == s.posts[..s.h];
  }

  lemma NewBufferContainers(c: Config, s: State)
    requires Inv(c, s) && Enabled(c, s, NewBuffer)
    ensures Shape(c, Next(c, s, NewBuffer)) && Containers(c, Next(c, s, NewBuffer))
  {
    var r := Next(c, s, NewBuffer);
    ModShift(s.t, c.nb, c.nb);
    forall u, j | r.t <= u < r.t + c.nb && 0 <= j < c.size ensures SlotOk(c, r, u, j) {
      assert SlotOk(c, s, if u < s.t + c.nb then u else s.t, j);
    }
  }

  lemma LookKeeps(c: Config, s: State, a: Action)
    requires Inv(c, s) && (a == Look || a == Open) && Enabled(c, s, a)
    ensures Inv(c, Next(c, s, a))
  {
    var r := Next(c, s, a);
    HandlerDistance(c, s);
    forall u | r.h <= u < r.t + c.nb ensures PendingOk(c, r, u) { assert PendingOk(c, s, u); }
    forall u, j | r.t <= u < r.t + c.nb && 0 <= j < c.size ensures SlotOk(c, r, u, j) {
      assert SlotOk(c, s, u, j);
    }
  }

  lemma HandleKeeps(c: Config, s: State, freed: set<nat>)
    requires Inv(c, s) && Enabled(c, s, Handle(freed))
    ensures Inv(c, Next(c, s, Handle(freed)))
  {
    HandleContainers(c, s, freed);
    HandlePending(c, s, freed);
    HandleControl(c, s, freed);
    HandleSent(c, s, freed);
  }

  lemma HandleControl(c: Config, s: State, freed: set<nat>)
    requires Inv(c, s) && Enabled(c, s, Handle(freed))
    ensures var r := Next(c, s, Handle(freed)); Shape(c, r) && Indexes(c, r) && TracerOk(c, r) && HandlerOk(c, r)
  {
    assert PendingOk(c, s, s.h);
    HandleHistory(c, s, s.hpc.i, PostAt(s, s.h));
  }

  lemma TakenHistory(c: Config, s: State, x: Slot, own: set<nat>)
    requires Shape(c, s) && Indexes(c, s) && TracerOk(c, s) && History(c, s) && s.hpc.Handling? && x.Cont?
    requires s.hpc.i < |PostAt(s, s.h)| && PostAt(s, s.h)[s.hpc.i] == x
    ensures History(c, s.(hpc := Handling(s.hpc.i + 1), handled := s.handled + [x], own := own))
  {
    var p, i := PostAt(s, s.h), s.hpc.i;
    assert p[..i + 1] == p[..i] + [x];
    Glue(Flat(s.posts[..s.h]), p[..i], [x]);
  }

  lemma Glue(a: seq<Slot>, b: seq<Slot>, d: seq<Slot>)
    ensures a + b + d == a + (b + d)
  {
  }

  lemma LeftHistory(c: Config, s: State, pc: HandlerPc)
    requires Shape(c, s) && Indexes(c, s) && TracerOk(c, s) && History(c, s) && s.hpc.Handling?
    requires s.hpc.i <= |PostAt(s, s.h)|
    requires pc == Ended(s.hpc.i) || (pc == Filling(c.start) && s.hpc.i == |PostAt(s, s.h)|)
    ensures History(c, s.(hpc := pc))
  {
    var p := PostAt(s, s.h);
    assert p[..|p|] == p;
  }

  // What an iteration of the handling loop does, told from what was handed over.
  lemma {:induction false} HandleIs(c: Config, s: State, freed: set<nat>)
    requires Inv(c, s) && Enabled(c, s, Handle(freed))
    ensures var r, p, i := Next(c, s, Handle(freed)), PostAt(s, s.h), s.hpc.i;
      if i < |p| && p[i].Cont? then
        r == s.(hpc := Handling(i + 1), handled := s.handled + [p[i]], own := s.own + {p[i].id} - freed)
      else r == s.(hpc := r.hpc) && r.hpc == if i < |p| then Ended(i) else Filling(c.start)
  {
    var b, p, i := Buf(c, s, s.h), PostAt(s, s.h), s.hpc.i;
    assert PendingOk(c, s, s.h);
    assert i < |p| ==> b.slots[..b.full][i] == b.slots[i];
  }

  lemma {:induction false} HandleSent(c: Config, s: State, freed: set<nat>)
    requires Inv(c, s) && Enabled(c, s, Handle(freed))
    ensures var r := Next(c, s, Handle(freed)); Shape(c, r) && Indexes(c, r) && TracerOk(c, r) && History(c, r)
  {
    var r, p, i := Next(c, s, Handle(freed)), PostAt(s, s.h), s.hpc.i;
    HandleIs(c, s, freed);
    assert HandlerOk(c, s) && PendingOk(c, s, s.h);
    if i < |p| && p[i].Cont? {
      TakenHistory(c, s, p[i], r.own);
    } else {
      LeftHistory(c, s, r.hpc);
    }
  }

  lemma HandlePending(c: Config, s: State, freed: set<nat>)
    requires Inv(c, s) && Enabled(c, s, Handle(freed))
    ensures Shape(c, Next(c, s, Handle(freed))) && Pending(c, Next(c, s, Handle(freed)))
  {
    var r := Next(c, s, Handle(freed));
    forall u | r.h <= u < r.t + c.nb ensures PendingOk(c, r, u) { assert PendingOk(c, s, u); }
  }

  // A slot when the handler takes the container of slot `s.hpc.i`.
  lemma TakenSlot(c: Config, s: State, freed: set<nat>, x: nat, u: nat, j: nat)
    requires Shape(c, s) && s.t < s.h && s.hpc.Handling? && j < c.size
    requires s.hpc.i < Buf(c, s, s.h).full <= Buf(c, s, s.h).empty <= c.size && Buf(c, s, s.h).slots[s.hpc.i] == Cont(x)
    requires SlotOk(c, s, s.h, s.hpc.i) && SlotOk(c, s, u, j) && (u != s.h ==> u % c.nb != s.h % c.nb)
    ensures
      var t := s.(hpc := Handling(s.hpc.i + 1), handled := s.handled + [Cont(x)], own := s.own + {x} - freed);
      SlotOk(c, t, u, j)
    ensures x !in s.out
  {
    assert Holds(c, s, s.h, s.hpc.i);
  }

  // A slot when the handler leaves the handling loop.
  lemma LeftSlot(c: Config, s: State, pc: HandlerPc, u: nat, j: nat)
    requires Shape(c, s) && s.t < s.h && s.hpc.Handling? && j < c.size && SlotOk(c, s, u, j)
    requires pc == Ended(s.hpc.i) || (pc == Filling(c.start) && s.hpc.i >= Buf(c, s, s.h).full)
    ensures SlotOk(c, s.(hpc := pc), u, j)
  {
  }

  lemma HandleContainers(c: Config, s: State, freed: set<nat>)
    requires Inv(c, s) && Enabled(c, s, Handle(freed))
    ensures var r := Next(c, s, Handle(freed)); Shape(c, r) && Containers(c, r) && r.out !! r.own
  {
    var r := Next(c, s, Handle(freed));
    var b := Buf(c, s, s.h);
    var i := s.hpc.i;
    assert PendingOk(c, s, s.h);
    if i < b.full && b.slots[i].Cont? {
      TakenSlot(c, s, freed, b.slots[i].id, s.h, i);
    }
    forall u, j | r.t <= u < r.t + c.nb && 0 <= j < c.size ensures SlotOk(c, r, u, j) {
      if i < b.full && b.slots[i].Cont? {
        if u < s.h { ModDistinct(u, s.h, c.nb); } else if s.h < u { ModDistinct(s.h, u, c.nb); }
        TakenSlot(c, s, freed, b.slots[i].id, u, j);
      } else {
        LeftSlot(c, s, r.hpc, u, j);
      }
    }
  }

  lemma HandleHistory(c: Config, s: State, i: nat, p: seq<Slot>)
    requires Inv(c, s) && s.hpc == Handling(i) && p == PostAt(s, s.h)
    ensures i <= |p| <= c.size && Buf(c, s, s.h).slots[..|p|] == p
    ensures i < |p| ==> p[..i + 1] == p[..i] + [p[i]]
    ensures i == |p| ==> p[..i] == p
    ensures i < |p| && p[i] == Null ==> s.tpc == Joining
  {
    assert PendingOk(c, s, s.h);
  }

  lemma FillKeeps(c: Config, s: State, x: nat)
    requires Inv(c, s) && Enabled(c, s, Fill(x))
    ensures Inv(c, Next(c, s, Fill(x)))
  {
    var r := Next(c, s, Fill(x));
    forall u | s.t <= u < s.t + c.nb && u != s.h ensures Buf(c, r, u) == Buf(c, s, u) {
      if u < s.h { ModDistinct(u, s.h, c.nb); } else { ModDistinct(s.h, u, c.nb); }
    }
    assert PendingOk(c, s, s.h);
    forall u | r.h <= u < r.t + c.nb ensures PendingOk(c, r, u) { assert PendingOk(c, s, u); }
    FillContainers(c, s, x);
  }

  lemma FillContainers(c: Config, s: State, x: nat)
    requires Inv(c, s) && Enabled(c, s, Fill(x))
    ensures Shape(c, Next(c, s, Fill(x))) && Containers(c, Next(c, s, Fill(x)))
  {
    var r := Next(c, s, Fill(x));
    forall u | s.t <= u < s.t + c.nb && u != s.h ensures Buf(c, r, u) == Buf(c, s, u) {
      if u < s.h { ModDistinct(u, s.h, c.nb); } else { ModDistinct(s.h, u, c.nb); }
    }
    assert PendingOk(c, s, s.h);
    forall u, j | r.t <= u < r.t + c.nb && 0 <= j < c.size ensures SlotOk(c, r, u, j) {
      assert SlotOk(c, s, u, j);
    }
  }

  lemma PassKeeps(c: Config, s: State)
    requires Inv(c, s) && Enabled(c, s, Pass)
    ensures Inv(c, Next(c, s, Pass))
  {
    var r := Next(c, s, Pass);
    ModStep(s.h, c.nb);
    assert PendingOk(c, s, s.h);
    forall u | r.h <= u < r.t + c.nb ensures PendingOk(c, r, u) { assert PendingOk(c, s, u); }
    PassContainers(c, s);
    assert r.posts[..r.h][..r.h-1] == s.posts[..s.h];
  }

  lemma PassContainers(c: Config, s: State)
    requires Inv(c, s) && Enabled(c, s, Pass)
    ensures Shape(c, Next(c, s, Pass)) && Containers(c, Next(c, s, Pass))
  {
    var r := Next(c, s, Pass);
    assert PendingOk(c, s, s.h);
    forall u, j | r.t <= u < r.t + c.nb && 0 <= j < c.size ensures SlotOk(c, r, u, j) {
      assert SlotOk(c, s, u, j);
    }
  }

  lemma StepKeeps(c: Config, s: State, a: Action)
    requires Inv(c, s) && Enabled(c, s, a)
    ensures Inv(c, Next(c, s, a))
  {
    match a
    case Alloc => AllocKeeps(c, s);
    case Send(x) => SendKeeps(c, s, x);
    case SendEnd => SendEndKeeps(c, s);
    case Switch => SwitchKeeps(c, s);
    case Sync => SyncKeeps(c, s, a);
    case Sleep => SyncKeeps(c, s, a);
    case NewBuffer => NewBufferKeeps(c, s);
    case Look => LookKeeps(c, s, a);
    case Open => LookKeeps(c, s, a);
    case Handle(freed) => HandleKeeps(c, s, freed);
    case Fill(x) => FillKeeps(c, s, x);
    case Pass => PassKeeps(c, s);
  }

  // ---------------------------------------------------------------------------------------------
  // Runs

  // hwepar_init
  ghost predicate Init(c: Config, s: State)
  {
    && Shape(c, s) && (forall b :: 0 <= b < c.nb ==> s.bufs[b].full == 0 && s.bufs[b].empty == c.size)
    && s.tracerIdx == 0 && s.handlerIdx == 1 && s.t == 0 && s.h == 1
    && s.tpc == Running && s.bufrdy == 1 && s.bufidx == 0 && s.full == 0 && s.empty == c.size && !s.closed
    && s.hpc == Looking && s.hidx == 1 && s.todo == 0
    && s.posts == seq(c.nb, _ => []) && s.sent == [] && s.handled == [] && s.out == {} && s.own == {}
    && s.place == map[]
  }

  lemma {:induction false} FlatEmpty(q: seq<seq<Slot>>)
    requires forall i :: 0 <= i < |q| ==> q[i] == []
    ensures Flat(q) == []
  {
    if q != [] { FlatEmpty(q[..|q|-1]); }
  }

  lemma InitInv(c: Config, s: State)
    requires Init(c, s)
    ensures Inv(c, s)
  {
    ModUnique(0, 0, 0, c.nb);
    ModUnique(1, 0, 1, c.nb);
    FlatEmpty(s.posts);
    FlatEmpty(s.posts[..s.h]);
    forall u | s.h <= u < s.t + c.nb ensures PendingOk(c, s, u) { }
  }

  // `run` can be taken from `s`, one enabled step after the other.
  ghost predicate Possible(c: Config, s: State, run: seq<Action>)
    requires Inv(c, s)
    decreases |run|
  {
    run == [] || (Enabled(c, s, run[0]) && (StepKeeps(c, s, run[0]); Possible(c, Next(c, s, run[0]), run[1..])))
  }

  /** The state a run leads to; the invariant holds in all of them. */
  ghost function After(c: Config, s: State, run: seq<Action>): (r: State)
    requires Inv(c, s) && Possible(c, s, run)
    ensures Inv(c, r)
    decreases |run|
  {
    if run == [] then s else (StepKeeps(c, s, run[0]); After(c, Next(c, s, run[0]), run[1..]))
  }

  ghost predicate LeadsTo(c: Config, from: State, run: seq<Action>, s: State)
  {
    Init(c, from) && (InitInv(c, from); Possible(c, from, run) && s == After(c, from, run))
  }

  ghost predicate Reachable(c: Config, s: State)
  {
    exists from, run :: LeadsTo(c, from, run, s)
  }

  /** The invariant holds in every state of every run. */
  lemma ReachableInv(c: Config, s: State)
    requires Reachable(c, s)
    ensures Inv(c, s)
  {
    var from, run :| LeadsTo(c, from, run, s);
    InitInv(c, from);
  }

  // ---------------------------------------------------------------------------------------------
  // Safety

  lemma {:induction false} FlatPrefix(q: seq<seq<Slot>>, n: nat)
    requires n <= |q|
    ensures Flat(q[..n]) <= Flat(q)
  {
    if n < |q| {
      FlatPrefix(q[..|q|-1], n);
      assert q[..|q|-1][..n] == q[..n];
    } else {
      assert q[..n] == q;
    }
  }

  // What is handled is a prefix of what is sent, and the slot being looked at comes next.
  lemma HandledPrefix(c: Config, s: State)
    requires Inv(c, s)
    ensures s.handled <= s.sent
    ensures s.hpc.Ended? ==> |s.handled| < |s.sent| && s.sent[|s.handled|] == Null
  {
    if s.h < |s.posts| {
      FlatPrefix(s.posts, s.h + 1);
      assert s.posts[..s.h + 1][..s.h] == s.posts[..s.h];
      assert Flat(s.posts[..s.h + 1]) == Flat(s.posts[..s.h]) + PostAt(s, s.h);
      assert Progress(s) <= PostAt(s, s.h);
    } else {
      assert s.posts[..s.h] == s.posts;
    }
  }

  lemma NullInside(q: seq<Slot>, i: nat)
    requires i < |q| && q[i] == Null
    ensures i < |q| - 1 ==> Null in q[..|q|-1]
  {
    if i < |q| - 1 { assert q[..|q|-1][i] == Null; }
  }

  // Everything up to the end marker has been handled when the handler has ended.
  lemma Drained(c: Config, s: State)
    requires Inv(c, s) && s.hpc.Ended?
    ensures s.sent == s.handled + [Null]
  {
    HandledPrefix(c, s);
    NullInside(s.sent, |s.handled|);
  }

  // What the tracer sends in a run: the containers, and the NULL of `hwepar_stop`.
  function Sends(run: seq<Action>): seq<Slot>
  {
    if run == [] then []
    else
      (match run[0]
       case Send(x) => [Cont(x)]
       case SendEnd => [Null]
       case _ => []) + Sends(run[1..])
  }

  // What a step finds in the slot it looks at: the next clean one of the tracer, the next full one of the handler.
  ghost function Found(c: Config, s: State, a: Action): Slot
    requires Inv(c, s) && Enabled(c, s, a)
  {
    match a
    case Alloc => Buf(c, s, s.t).slots[s.empty]
    case Handle(_) =>
      assert PendingOk(c, s, s.h);
      if s.hpc.i < Buf(c, s, s.h).full then Buf(c, s, s.h).slots[s.hpc.i] else Null
    case _ => Null
  }

  /** Where containers go: an allocation gives the tracer the container of its next clean slot, sending takes it from
      the tracer into the history, and handling passes the container of the next full slot to the event handler, which
      keeps it until its event is recycled. */
  lemma {:induction false} StepMoves(c: Config, s: State, a: Action)
    requires Inv(c, s) && Enabled(c, s, a)
    ensures Next(c, s, a).sent == s.sent + Sends([a])
    ensures Next(c, s, a).handled == s.handled + if a.Handle? && Found(c, s, a) != Null then [Found(c, s, a)] else []
    ensures a.Alloc? ==> Found(c, s, a).Cont? && Next(c, s, a).out == s.out + {Found(c, s, a).id}
    ensures !a.Alloc? ==> Next(c, s, a).out == s.out - if a.Send? then {a.c} else {}
    ensures Next(c, s, a).own ==
      if a.Handle? && Found(c, s, a) != Null then s.own + {Found(c, s, a).id} - a.freed else s.own
  {
    assert [a][1..] == [];
    if a.Alloc? { assert SlotOk(c, s, s.t, s.empty); }
    if a.Handle? { assert PendingOk(c, s, s.h); }
  }

  lemma {:induction false} StepSends(c: Config, s: State, a: Action)
    requires Inv(c, s) && Enabled(c, s, a)
    ensures Next(c, s, a).sent == s.sent + Sends([a])
  {
    StepMoves(c, s, a);
  }

  /** The history of a run is what its actions send. */
  lemma {:induction false} SentIs(c: Config, s: State, run: seq<Action>)
    requires Inv(c, s) && Possible(c, s, run)
    ensures After(c, s, run).sent == s.sent + Sends(run)
    decreases |run|, 0
  {
    if run != [] {
      StepKeeps(c, s, run[0]);
      SentAfter(c, Next(c, s, run[0]), run[1..]);
      StepSends(c, s, run[0]);
      SendsFirst(run);
      Glue(s.sent, Sends([run[0]]), Sends(run[1..]));
    }
  }

  lemma {:induction false} SentAfter(c: Config, s: State, run: seq<Action>)
    requires Inv(c, s) && Possible(c, s, run)
    ensures After(c, s, run).sent == s.sent + Sends(run)
    decreases |run|, 1
  {
    SentIs(c, s, run);
  }

  lemma {:induction false} SendsFirst(run: seq<Action>)
    requires run != []
    ensures Sends(run) == Sends([run[0]]) + Sends(run[1..])
  {
    assert [run[0]][1..] == [];
  }

  /** In every run, what the handler has handled is the beginning of what the run sends, each container once and in
      order, and all of it up to the end marker when the handler has ended. */
  lemma {:induction false} Delivered(c: Config, from: State, run: seq<Action>, s: State)
    requires LeadsTo(c, from, run, s)
    ensures s.handled <= Sends(run) && Null !in s.handled
    ensures s.hpc.Ended? ==> s.tpc == Joining && Sends(run) == s.handled + [Null]
  {
    InitInv(c, from);
    SentBefore(c, from, run, s);
    HandledPrefix(c, s);
    if s.hpc.Ended? {
      Drained(c, s);
    }
  }

  /** The tracer and the handler never work on the same buffer, and the tracer never counts one ready that is not. */
  lemma BuffersOwned(c: Config, s: State)
    requires Reachable(c, s)
    ensures s.t + 1 <= s.h <= s.t + c.nb
    ensures s.hpc.Opening? || s.hpc.Handling? || s.hpc.Filling? ==> s.hidx != s.tracerIdx
    ensures s.tpc == Switching && s.bufrdy > 0 && !s.hpc.Looking? ==> s.bufidx != s.hidx
  {
    ReachableInv(c, s);
    if s.h < s.t + c.nb {
      ModDistinct(s.t, s.h, c.nb);
      if s.t + 1 < s.h { ModDistinct(s.t + 1, s.h, c.nb); }
    }
  }

  /** A container is with the tracer, or with the event handler, or in one slot of one buffer, never in two places. */
  lemma ContainersOwned(c: Config, s: State, u: nat, j: nat, v: nat, k: nat)
    requires Reachable(c, s) && Shape(c, s)
    requires s.t <= u < s.t + c.nb && j < c.size && Holds(c, s, u, j) && Buf(c, s, u).slots[j].Cont?
    requires s.t <= v < s.t + c.nb && k < c.size && Holds(c, s, v, k)
    ensures Buf(c, s, u).slots[j].id !in s.out && Buf(c, s, u).slots[j].id !in s.own && s.out !! s.own
    ensures Buf(c, s, u).slots[j] == Buf(c, s, v).slots[k] ==> u == v && j == k
  {
    ReachableInv(c, s);
    assert SlotOk(c, s, u, j) && SlotOk(c, s, v, k);
    if u < v { ModDistinct(u, v, c.nb); } else if v < u { ModDistinct(v, u, c.nb); }
  }

  // ---------------------------------------------------------------------------------------------
  // Progress

  ghost predicate OfHandler(a: Action)
  {
    a.Look? || a.Open? || a.Handle? || a.Fill? || a.Pass?
  }

  // The tracer waits: for a clean buffer, or for the end of the handler.
  ghost predicate Waits(s: State) { s.tpc == Asleep || s.tpc == Joining }

  // The steps the handler may still spend on its current buffer.
  ghost function Local(c: Config, s: State): int
    requires Shape(c, s)
  {
    var b := Buf(c, s, s.h);
    match s.hpc
    case Looking => 2 * c.size + 3
    case Opening => 2 * c.size + 2
    case Handling(i) => c.size + 1 + b.full - i
    case Filling(i) => b.empty - i
    case Ended(i) => 0
  }

  // The steps the handler may still spend on `n` buffers, at `b` steps each at most.
  ghost function Times(n: nat, b: nat): nat
  {
    if n == 0 then 0 else b + Times(n - 1, b)
  }

  ghost function Work(c: Config, s: State): int
    requires Inv(c, s)
  {
    Times(s.t + c.nb - s.h, 2 * c.size + 4) + Local(c, s)
  }

  lemma LocalBound(c: Config, s: State)
    requires Inv(c, s)
    ensures 0 <= Local(c, s) < 2 * c.size + 4
  {
    if s.h < s.t + c.nb { assert PendingOk(c, s, s.h); }
  }

  /** A waiting tracer always leaves the handler a buffer to work on, unless the end was reached. */
  lemma WaitingLeavesWork(c: Config, s: State)
    requires Inv(c, s) && Waits(s)
    ensures s.hpc.Ended? || s.h < s.t + c.nb
  {
    assert s.posts[..|s.posts|] == s.posts;
  }

  // There is always a container that `handle_alloc` can return.
  lemma FreshExists(c: Config, s: State) returns (x: nat)
    requires Inv(c, s)
    ensures Fresh(c, s, x)
  {
    var used := s.out + s.own + s.place.Keys;
    x := Above(used);
    forall u, j | s.t <= u < s.t + c.nb && 0 <= j < c.size && Holds(c, s, u, j)
      ensures Buf(c, s, u).slots[j] != Cont(x)
    {
      assert SlotOk(c, s, u, j);
    }
  }

  lemma {:induction false} Above(q: set<nat>) returns (x: nat)
    ensures forall y :: y in q ==> y < x
  {
    if q == {} { return 0; }
    var e :| e in q;
    var z := Above(q - {e});
    x := if e < z then z else e + 1;
    forall y | y in q ensures y < x { assert y == e || y in q - {e}; }
  }

  /** While the tracer waits, the handler is never blocked before it has ended. */
  lemma HandlerNotBlocked(c: Config, s: State) returns (a: Action)
    requires Inv(c, s) && !s.hpc.Ended?
    ensures OfHandler(a) && Enabled(c, s, a)
  {
    match s.hpc
    case Looking => a := Look;
    case Opening => a := Open;
    case Handling(i) => a := Handle({});
    case Filling(i) =>
      if Buf(c, s, s.h).empty <= i {
        a := Pass;
      } else {
        var x := FreshExists(c, s);
        a := Fill(x);
      }
  }

  lemma LocalDecreases(c: Config, s: State, a: Action)
    requires Inv(c, s) && Waits(s) && OfHandler(a) && a != Pass && Enabled(c, s, a)
    ensures Next(c, s, a).t == s.t && Next(c, s, a).h == s.h && Next(c, s, a).tpc == s.tpc
    ensures Shape(c, Next(c, s, a)) && Local(c, Next(c, s, a)) < Local(c, s)
  {
    WaitingLeavesWork(c, s);
    HandlerDistance(c, s);
    assert PendingOk(c, s, s.h);
  }

  /** While the tracer waits, every step of the handler uses up some of its work. */
  lemma WorkDecreases(c: Config, s: State, a: Action)
    requires Inv(c, s) && Waits(s) && OfHandler(a) && Enabled(c, s, a)
    ensures Inv(c, Next(c, s, a)) && Work(c, Next(c, s, a)) < Work(c, s)
    ensures s.tpc == Joining ==> Next(c, s, a).tpc == Joining
    ensures Next(c, s, a).tpc == Asleep ==> Next(c, s, a).h == s.h && Local(c, Next(c, s, a)) < Local(c, s)
  {
    StepKeeps(c, s, a);
    if a == Pass {
      LocalBound(c, Next(c, s, a));
      LocalBound(c, s);
    } else {
      LocalDecreases(c, s, a);
    }
  }

  /** `pthread_join` returns: after the end marker, a run of the handler is no longer than its work. */
  lemma {:induction false} JoinReturns(c: Config, s: State, run: seq<Action>)
    requires Inv(c, s) && s.tpc == Joining && Possible(c, s, run)
    requires forall i :: 0 <= i < |run| ==> OfHandler(run[i])
    ensures |run| <= Work(c, s)
    decreases |run|
  {
    if run == [] {
      LocalBound(c, s);
    } else {
      WorkDecreases(c, s, run[0]);
      JoinReturns(c, Next(c, s, run[0]), run[1..]);
    }
  }

  /** No wake-up is lost: a run of the handler that leaves the tracer asleep is no longer than its work. */
  lemma {:induction false} SleepEnds(c: Config, s: State, run: seq<Action>)
    requires Inv(c, s) && s.tpc == Asleep && Possible(c, s, run)
    requires forall i :: 0 <= i < |run| ==> OfHandler(run[i])
    requires After(c, s, run).tpc == Asleep
    ensures |run| <= Local(c, s) && After(c, s, run).h == s.h
    decreases |run|
  {
    LocalBound(c, s);
    if run != [] {
      WorkDecreases(c, s, run[0]);
      var r := Next(c, s, run[0]);
      if r.tpc == Asleep {
        SleepEnds(c, r, run[1..]);
      } else {
        StaysAwake(c, r, run[1..]);
      }
    }
  }

  lemma {:induction false} StaysAwake(c: Config, s: State, run: seq<Action>)
    requires Inv(c, s) && s.tpc != Asleep && Possible(c, s, run)
    requires forall i :: 0 <= i < |run| ==> OfHandler(run[i])
    ensures After(c, s, run).tpc != Asleep
    decreases |run|
  {
    if run != [] {
      StepKeeps(c, s, run[0]);
      StaysAwake(c, Next(c, s, run[0]), run[1..]);
    }
  }

  // The handler has no step left.
  ghost predicate Stuck(c: Config, s: State)
    requires Inv(c, s)
  {
    forall a :: OfHandler(a) ==> !Enabled(c, s, a)
  }

  lemma StuckIff(c: Config, s: State)
    requires Inv(c, s)
    ensures Stuck(c, s) <==> s.hpc.Ended?
  {
    if !s.hpc.Ended? {
      var a := HandlerNotBlocked(c, s);
    }
  }

  /** Once the tracer joins, a run of the handler can be continued until the handler has ended, and then
      everything that was sent, up to the end marker, has been handled. */
  lemma {:induction false} JoinEnds(c: Config, from: State, before: seq<Action>, s: State, run: seq<Action>)
    requires LeadsTo(c, from, before, s) && Inv(c, s) && s.tpc == Joining && Possible(c, s, run)
    requires forall i :: 0 <= i < |run| ==> OfHandler(run[i])
    ensures |run| <= Work(c, s)
    ensures Stuck(c, After(c, s, run)) <==> After(c, s, run).hpc.Ended?
    ensures Stuck(c, After(c, s, run)) ==> Sends(before) == After(c, s, run).handled + [Null]
  {
    JoinReturns(c, s, run);
    StuckIff(c, After(c, s, run));
    SentBefore(c, from, before, s);
    if After(c, s, run).hpc.Ended? { AllHandled(c, s, run); }
  }

  lemma {:induction false} SentBefore(c: Config, from: State, before: seq<Action>, s: State)
    requires LeadsTo(c, from, before, s)
    ensures s.sent == Sends(before)
  {
    InitInv(c, from);
    SentIs(c, from, before);
  }

  lemma {:induction false} AllHandled(c: Config, s: State, run: seq<Action>)
    requires Inv(c, s) && Possible(c, s, run) && (forall i :: 0 <= i < |run| ==> OfHandler(run[i]))
    requires After(c, s, run).hpc.Ended?
    ensures s.sent == After(c, s, run).handled + [Null]
  {
    SentIs(c, s, run);
    HandlerSends(run);
    Drained(c, After(c, s, run));
  }

  // The handler sends nothing.
  lemma {:induction false} HandlerSends(run: seq<Action>)
    requires forall i :: 0 <= i < |run| ==> OfHandler(run[i])
    ensures Sends(run) == []
  {
    if run != [] { HandlerSends(run[1..]); }
  }

  lemma Cons(c: Config, s: State, a: Action, rest: seq<Action>)
    requires Inv(c, s) && Enabled(c, s, a) && Inv(c, Next(c, s, a)) && Possible(c, Next(c, s, a), rest)
    ensures Possible(c, s, [a] + rest) && After(c, s, [a] + rest) == After(c, Next(c, s, a), rest)
  {
    var run := [a] + rest;
    assert run[0] == a && run[1..] == rest;
  }

  /** And there is a run to the end. */
  lemma {:induction false} JoinRuns(c: Config, s: State) returns (run: seq<Action>)
    requires Inv(c, s) && s.tpc == Joining
    ensures Possible(c, s, run) && (forall i :: 0 <= i < |run| ==> OfHandler(run[i]))
    ensures After(c, s, run).hpc.Ended?
    decreases Work(c, s)
  {
    run := [];
    if !s.hpc.Ended? {
      var a := HandlerNotBlocked(c, s);
      WorkDecreases(c, s, a);
      WorkNat(c, s);
      var rest := JoinRuns(c, Next(c, s, a));
      run := [a] + rest;
      Cons(c, s, a, rest);
    }
  }

  lemma WorkNat(c: Config, s: State)
    requires Inv(c, s)
    ensures 0 <= Work(c, s)
  {
    LocalBound(c, s);
  }
}
