/**
 The steps of the event handler that add blockers: fifo puts and barriers, and the registration of
 a new event and of its references in `handle_event`.
 */
module EventCommit {
  import opened EventState
  import opened EventSteps

  // ---------------------------------------------------------------------------------------------
  // `set_barrier` and `put_infifo`

  // The fifo predecessor that a put of `d` in `f` takes into account, if there is one.
  ghost function Linked(s: State, f: Fifo, d: Node): set<(Node, Node)>
  {
    var l := PutsOf(s, f);
    if l != [] && (f in s.fifo || l[|l|-1] in s.log) then {(l[|l|-1], d)} else {}
  }

  // The list of `c` after a put of `d` in `f`: a barrier behind the queue of the fifo, if there is
  // one, and the membership of `d`.
  ghost function NewList(s: State, f: Fifo, d: Node, c: Node): seq<Ptr>
  {
    var l := if f in s.fifo && c == s.fifo[f] then [Barrier(d)] + Usr(s, c) else Usr(s, c);
    if c == d then [Member(f)] + l else l
  }

  ghost function PutInFifo(s: State, f: Fifo, d: Node): (t: State)
  {
    var stg := if f in s.fifo then AddCnt(SetList(s.stg, s.fifo[f], [Barrier(d)] + Usr(s, s.fifo[f])), d, 1) else s.stg;
    s.(stg := SetList(stg, d, [Member(f)] + StageOf(stg, d).usrfol),
       bys := if f in s.fifo then s.bys[d := By(s, d) + multiset{s.fifo[f]}] else s.bys,
       fifo := s.fifo[f := d],
       puts := s.puts[f := PutsOf(s, f) + [d]],
       links := s.links + Linked(s, f, d))
  }

  // The state change made by a put, field by field.
  ghost predicate Putted(s: State, t: State, f: Fifo, d: Node)
  {
    && SameEvents(s, t)
    && t.fifo == s.fifo[f := d] && t.puts == s.puts[f := PutsOf(s, f) + [d]] && t.links == s.links + Linked(s, f, d)
    && (forall c :: Usr(t, c) == NewList(s, f, d, c))
    && (forall c :: Cnt(t, c) == Cnt(s, c) + if f in s.fifo && c == d then 1 else 0)
    && (forall c :: By(t, c) == if f in s.fifo && c == d then By(s, c) + multiset{s.fifo[f]} else By(s, c))
  }

  lemma {:induction false} PutInFifoCounts(s: State, f: Fifo, d: Node)
    ensures var t := PutInFifo(s, f, d);
      && (forall c :: Cnt(t, c) == Cnt(s, c) + if f in s.fifo && c == d then 1 else 0)
      && forall c :: Done(t, c) == Done(s, c)
  {
    var t := PutInFifo(s, f, d);
    forall c ensures Cnt(t, c) == Cnt(s, c) + if f in s.fifo && c == d then 1 else 0 {}
    forall c ensures Done(t, c) == Done(s, c) {}
  }

  lemma {:induction false} PutInFifoEffect(s: State, f: Fifo, d: Node)
    ensures Putted(s, PutInFifo(s, f, d), f, d)
  {
    var t := PutInFifo(s, f, d);
    forall c ensures Usr(t, c) == NewList(s, f, d, c) {}
    PutInFifoCounts(s, f, d);
  }

  // A put is made from an 'init' callback, or for an 'init' stage when no callback is running.
  ghost predicate CanPut(s: State, f: Fifo, d: Node)
  {
    && d !in s.log && d.ev < s.n && d.stage != Trace && (f.InitFifo? <==> d.stage == Init)
    && (d.stage != Init ==> Node(d.ev, Go) !in s.log && Node(d.ev, Ret) !in s.log)
    && OnlyInit(s.active) && (d.stage == Init ==> s.active == {})
  }

  // The queue of the fifo has not run: its list is still to be unlocked, so the barrier counts.
  lemma QueuePending(tr: seq<Hwe>, s: State, f: Fifo, d: Node)
    requires InvCore(tr, s) && CanPut(s, f, d) && f in s.fifo
    ensures s.fifo[f] !in s.log && s.fifo[f].ev < s.n && s.fifo[f].stage != Trace
    ensures s.fifo[f].stage == Init <==> d.stage == Init
    ensures PutsOf(s, f) != [] && s.fifo[f] == PutsOf(s, f)[|PutsOf(s, f)|-1]
  {
    assert FifoAt(s, f);
    var l := PutsOf(s, f);
    assert l[|l|-1].ev < s.n;
    assert StageAt(s, s.fifo[f]);
  }

  lemma PuttedCross(s: State, t: State, f: Fifo, d: Node)
    requires CrossUsr(s) && Putted(s, t, f, d)
    ensures CrossUsr(t)
  {
    forall a, b ensures By(t, b)[a] == multiset(Usr(t, a))[Barrier(b)] {
      assert By(s, b)[a] == multiset(Usr(s, a))[Barrier(b)];
      NewListCount(s, f, d, a, b);
    }
  }

  lemma NewListCount(s: State, f: Fifo, d: Node, a: Node, b: Node)
    ensures multiset(NewList(s, f, d, a))[Barrier(b)] ==
            multiset(Usr(s, a))[Barrier(b)] + (if f in s.fifo && a == s.fifo[f] && b == d then 1 else 0)
  {
  }

  lemma PuttedStages(s: State, t: State, f: Fifo, d: Node)
    requires Stages(s) && Putted(s, t, f, d) && d !in s.log && d.stage != Trace && (f in s.fifo ==> s.fifo[f] !in s.log)
    ensures Stages(t)
  {
    forall a ensures StageAt(t, a) { assert StageAt(s, a); }
  }

  lemma PuttedPtrs(s: State, t: State, f: Fifo, d: Node)
    requires Putted(s, t, f, d)
    ensures forall c, p :: p in Usr(s, c) ==> p in Usr(t, c)
    ensures forall c, p :: p in Usr(t, c) ==>
              p in Usr(s, c) || (c == d && p == Member(f)) || (f in s.fifo && c == s.fifo[f] && p == Barrier(d))
    ensures Member(f) in Usr(t, d)
  {
    forall c, p | p in Usr(s, c) ensures p in Usr(t, c) { assert p in NewList(s, f, d, c); }
    forall c, p | p in Usr(t, c)
      ensures p in Usr(s, c) || (c == d && p == Member(f)) || (f in s.fifo && c == s.fifo[f] && p == Barrier(d))
    {
      assert p in NewList(s, f, d, c);
    }
    assert Member(f) in NewList(s, f, d, d);
  }

  lemma PuttedKinds(s: State, t: State, f: Fifo, d: Node)
    requires Kinds(s) && Putted(s, t, f, d) && d.ev < s.n && d.stage != Trace
    requires f in s.fifo ==>
      (s.fifo[f].stage == Init <==> d.stage == Init) && s.fifo[f].ev < s.n && s.fifo[f].stage != Trace
    ensures Kinds(t)
  {
    PuttedPtrs(s, t, f, d);
    forall c, p | p in Usr(t, c) ensures PtrOk(t, c, p) {
      assert p in Usr(s, c) ==> PtrOk(s, c, p);
      assert p.Member? ==> c in PutsOf(t, p.fifo);
    }
  }

  lemma {:induction false} PuttedFifos(s: State, t: State, f: Fifo, d: Node)
    requires Fifos(s) && Putted(s, t, f, d) && CanPut(s, f, d)
    ensures Fifos(t)
  {
    PuttedPtrs(s, t, f, d);
    forall g ensures FifoAt(t, g) {
      assert FifoAt(s, g);
      if g == f { PuttedFifo(s, t, f, d); } else { PuttedOther(s, t, f, d, g); }
    }
    forall p, e | (p, e) in t.links ensures LinkOk(t, p, e) { PuttedLink(s, t, f, d, p, e); }
  }

  // The other fifos.
  lemma {:induction false} PuttedOther(s: State, t: State, f: Fifo, d: Node, g: Fifo)
    requires FifoAt(s, g) && Putted(s, t, f, d) && g != f
    requires forall c, p :: p in Usr(s, c) ==> p in Usr(t, c)
    ensures FifoAt(t, g)
  {
    assert PutsOf(t, g) == PutsOf(s, g);
  }

  lemma PuttedLink(s: State, t: State, f: Fifo, d: Node, p: Node, e: Node)
    requires Fifos(s) && Putted(s, t, f, d) && CanPut(s, f, d) && (p, e) in t.links
    ensures LinkOk(t, p, e)
  {
    var l, l' := PutsOf(s, f), PutsOf(t, f);
    assert l' == l + [d];
    if (p, e) in s.links {
      assert LinkOk(s, p, e);
      var g :| Consecutive(PutsIn(s.puts, g), p, e);
      ConsecutiveGrows(PutsIn(s.puts, g), PutsIn(t.puts, g), p, e);
    } else {
      assert FifoAt(s, f);
      assert l'[|l|-1] == p && l'[|l|] == e;
      assert Consecutive(PutsIn(t.puts, f), p, e);
    }
  }

  lemma ConsecutiveGrows(l: seq<Node>, l': seq<Node>, p: Node, e: Node)
    requires Consecutive(l, p, e) && l <= l'
    ensures Consecutive(l', p, e)
  {
    var k :| 0 < k < |l| && l[k-1] == p && l[k] == e;
    assert l'[k-1] == p && l'[k] == e;
  }

  lemma PuttedFifo(s: State, t: State, f: Fifo, d: Node)
    requires FifoAt(s, f) && Putted(s, t, f, d) && CanPut(s, f, d) && Member(f) in Usr(t, d)
    requires forall c, p :: p in Usr(s, c) ==> p in Usr(t, c)
    ensures FifoAt(t, f)
  {
    var l, l' := PutsOf(s, f), PutsOf(t, f);
    assert l' == l + [d];
    forall k | 0 < k < |l'| ensures (l'[k-1], l'[k]) in t.links || Shadowed(l'[..k-1], l'[k-1]) {
      if k < |l| {
        assert l'[..k-1] == l[..k-1];
        assert (l[k-1], l[k]) in s.links || Shadowed(l[..k-1], l[k-1]);
      } else {
        assert l'[..k-1] == l[..|l|-1];
        assert l == l[..|l|-1] + [l[|l|-1]];
      }
    }
    forall k | 0 <= k < |l'| && (l'[k] !in t.log || d.ev == l'[k].ev) ensures Member(f) in Usr(t, l'[k]) {
      if k < |l| {
        assert l[k].stage != Trace && (f.InitFifo? <==> l[k].stage == Init);
        assert l[k] !in s.log;
      }
    }
  }

  lemma LinksKeepOrder(tr: seq<Hwe>, s: State, d: Node, ls: set<(Node, Node)>)
    requires Ordered(tr, s.links, s.log) && d !in s.log && forall p, e :: (p, e) in ls ==> e == d
    ensures Ordered(tr, s.links + ls, s.log)
  {
    forall i, p | 0 <= i < |s.log| && IsPred(tr, s.links + ls, p, s.log[i]) ensures p in s.log[..i] {
      assert IsPred(tr, s.links, p, s.log[i]);
    }
  }

  lemma PutKeepsInvCore(tr: seq<Hwe>, s: State, f: Fifo, d: Node)
    requires InvCore(tr, s) && CanPut(s, f, d)
    ensures InvCore(tr, PutInFifo(s, f, d)) && Putted(s, PutInFifo(s, f, d), f, d)
    ensures forall a :: Enabled(PutInFifo(s, f, d), a) ==> Enabled(s, a)
    ensures forall a :: a in s.log ==> Usr(PutInFifo(s, f, d), a) == Usr(s, a)
  {
    if f in s.fifo { QueuePending(tr, s, f, d); }
    var t := PutInFifo(s, f, d);
    PutInFifoEffect(s, f, d);
    PuttedCross(s, t, f, d);
    PuttedStages(s, t, f, d);
    assert d.ev < s.n;
    PuttedKinds(s, t, f, d);
    PuttedFifos(s, t, f, d);
    FramedEvents(tr, s, t);
    FramedCrossRefs(s, t);
    LinksKeepOrder(tr, s, d, Linked(s, f, d));
    PutEnablesNothing(tr, s, t, f, d);
  }

  lemma PutEnablesNothing(tr: seq<Hwe>, s: State, t: State, f: Fifo, d: Node)
    requires Stages(s) && Putted(s, t, f, d)
    ensures forall a :: Enabled(t, a) ==> Enabled(s, a)
  {
    forall a | Enabled(t, a) ensures Enabled(s, a) {
      assert StageAt(s, a);
    }
  }

  // A put from an 'init' callback.
  lemma UserPutKeepsInv(tr: seq<Hwe>, s: State, k: nat, d: Node)
    requires Inv(tr, s) && CanPut(s, UserFifo(k), d)
    ensures
      var t := PutInFifo(s, UserFifo(k), d);
      Inv(tr, t) && Keeps(s, t) && forall a :: Enabled(t, a) ==> Enabled(s, a)
  {
    var f := UserFifo(k);
    PutKeepsInvCore(tr, s, f, d);
    var t := PutInFifo(s, f, d);
    PuttedHistory(s, t, f, d);
    assert InitPuts(tr, t) by {
      forall c ensures PutsOf(t, InitFifo(c)) == CompNodes(tr, t.n, c) {
        assert PutsOf(s, InitFifo(c)) == CompNodes(tr, s.n, c);
      }
    }
    SameEventsKeeps(s, t);
  }

  lemma PuttedHistory(s: State, t: State, f: Fifo, d: Node)
    requires Putted(s, t, f, d)
    ensures forall g :: PutsOf(t, g) == if g == f then PutsOf(s, f) + [d] else PutsOf(s, g)
    ensures forall g :: PutsOf(s, g) <= PutsOf(t, g)
  {
  }

  lemma SameEventsKeeps(s: State, t: State)
    requires |s.ev| == |s.bl| && SameEvents(s, t) && s.links <= t.links
    requires forall f :: PutsOf(s, f) <= PutsOf(t, f)
    requires forall a :: a in s.log ==> Usr(t, a) == Usr(s, a)
    ensures Keeps(s, t)
  {
    forall x | 0 <= x < |s.ev| ensures KeepsAt(s, t, x) {
      assert Missing(t, x) == Missing(s, x) && Pend(t, x) == Pend(s, x) && Left(t, x) == Left(s, x)
        && Fol(t, x) == Fol(s, x);
    }
  }

  // ---------------------------------------------------------------------------------------------
  // Starting to handle an event

  ghost function Arrive(tr: seq<Hwe>, s: State): (t: State)
    requires s.n < |s.ev| && s.n < |tr|
  {
    var e := s.ev[s.n];
    s.(ev := s.ev[s.n := e.(missfol := e.missfol + tr[s.n].expected)], log := s.log + [Node(s.n, Trace)], n := s.n + 1)
  }

  // No callback is running and all events handed over so far are committed.
  ghost predicate Idle(s: State)
  {
    s.active == {} && s.n <= |s.ev| && forall x :: 0 <= x < s.n ==> Commited(s, x)
  }

  lemma ArriveTables(tr: seq<Hwe>, s: State)
    requires Shape(tr, s) && s.n < |tr| && Idle(s) && Stages(s) && Events(tr, s) && Runs(tr, s)
    ensures Stages(Arrive(tr, s)) && Events(tr, Arrive(tr, s)) && Runs(tr, Arrive(tr, s))
  {
    var t := Arrive(tr, s);
    forall d ensures StageAt(t, d) {
      assert StageAt(s, d) && RunAt(tr, s, s.n) && EventAt(tr, s, s.n);
      ArriveStageAt(tr, s, d);
    }
    forall x | 0 <= x < |tr| ensures EventAt(tr, t, x) && RunAt(tr, t, x) {
      assert EventAt(tr, s, x) && RunAt(tr, s, x) && StageAt(s, Node(x, Init)) && StageAt(s, Node(x, Go));
      ArriveEventAt(tr, s, x);
    }
  }

  lemma ArriveStageAt(tr: seq<Hwe>, s: State, d: Node)
    requires Shape(tr, s) && s.n < |tr| && s.active == {} && StageAt(s, d)
    requires d == Node(s.n, Trace) ==> Cnt(s, d) == 0
    ensures StageAt(Arrive(tr, s), d)
  {
  }

  lemma ArriveEventAt(tr: seq<Hwe>, s: State, x: nat)
    requires Shape(tr, s) && s.n < |tr| && Idle(s) && x < |tr| && EventAt(tr, s, x) && RunAt(tr, s, x)
    requires StageAt(s, Node(x, Init)) && StageAt(s, Node(x, Go))
    ensures EventAt(tr, Arrive(tr, s), x) && RunAt(tr, Arrive(tr, s), x)
  {
    var t := Arrive(tr, s);
    assert Fol(t, x) == Fol(s, x) && Left(t, x) == Left(s, x);
  }

  lemma ArriveKeepsInvCore(tr: seq<Hwe>, s: State)
    requires Inv(tr, s) && s.n < |tr| && Idle(s)
    ensures InvCore(tr, Arrive(tr, s)) && forall a :: Enabled(Arrive(tr, s), a) ==> Enabled(s, a)
    ensures Pend(Arrive(tr, s), s.n) == Fol(Arrive(tr, s), s.n)
    ensures CanPut(Arrive(tr, s), InitFifo(tr[s.n].comp), Node(s.n, Init))
  {
    var t := Arrive(tr, s);
    ArriveTables(tr, s);
    ArriveFrames(tr, s);
    FramedCross(s, t);
    ArriveFifos(tr, s);
    ArriveOrder(tr, s);
    ArriveFresh(tr, s);
  }

  // The arriving event has run nothing yet.
  lemma ArriveFresh(tr: seq<Hwe>, s: State)
    requires Shape(tr, s) && s.n < |tr| && Idle(s) && Stages(s) && Events(tr, s) && Runs(tr, s)
    ensures Pend(Arrive(tr, s), s.n) == Fol(Arrive(tr, s), s.n)
    ensures CanPut(Arrive(tr, s), InitFifo(tr[s.n].comp), Node(s.n, Init))
    ensures forall a :: Enabled(Arrive(tr, s), a) ==> Enabled(s, a)
  {
    var t := Arrive(tr, s);
    assert EventAt(tr, s, s.n) && RunAt(tr, s, s.n) && StageAt(s, Node(s.n, Init)) && StageAt(s, Node(s.n, Go));
    forall a | Enabled(t, a) ensures Enabled(s, a) {
      assert Cnt(t, a) == Cnt(s, a) && Done(t, Node(a.ev, Init)) == Done(s, Node(a.ev, Init))
        && Done(t, Node(a.ev, Go)) == Done(s, Node(a.ev, Go));
    }
  }

  lemma ArriveFrames(tr: seq<Hwe>, s: State)
    requires Shape(tr, s) && s.n < |tr|
    ensures SameUsr(s, Arrive(tr, s)) && SameRefs(s, Arrive(tr, s))
    ensures Kinds(s) ==> Kinds(Arrive(tr, s))
  {
    var t := Arrive(tr, s);
    if Kinds(s) {
      forall a, p | p in Usr(t, a) ensures PtrOk(t, a, p) { assert p in Usr(s, a) && PtrOk(s, a, p); }
    }
  }

  lemma ArriveFifos(tr: seq<Hwe>, s: State)
    requires Shape(tr, s) && s.n < |tr| && Fifos(s)
    ensures Fifos(Arrive(tr, s))
  {
    var t := Arrive(tr, s);
    forall f ensures FifoAt(t, f) { assert FifoAt(s, f); }
    forall p, d | (p, d) in t.links ensures LinkOk(t, p, d) { assert LinkOk(s, p, d); }
  }

  lemma ArriveOrder(tr: seq<Hwe>, s: State)
    requires Shape(tr, s) && s.n < |tr| && Fifos(s) && Runs(tr, s) && Ordered(tr, s.links, s.log)
    ensures Ordered(tr, s.links, s.log + [Node(s.n, Trace)])
  {
    var log := s.log + [Node(s.n, Trace)];
    assert RunAt(tr, s, s.n);
    forall i, p | 0 <= i < |log| && IsPred(tr, s.links, p, log[i]) ensures p in log[..i] {
      if i < |s.log| {
        assert log[i] == s.log[i];
        assert p in s.log[..i];
        assert s.log[..i] == log[..i];
      } else {
        assert (p, log[i]) in s.links ==> LinkOk(s, p, log[i]);
        assert RunAt(tr, s, p.ev);
        assert log[..i] == s.log;
      }
    }
  }

  ghost function Register(tr: seq<Hwe>, s: State): (t: State)
    requires s.n < |s.ev| && s.n < |tr|
  {
    PutInFifo(Arrive(tr, s), InitFifo(tr[s.n].comp), Node(s.n, Init))
  }

  lemma RegisterKeepsInv(tr: seq<Hwe>, s: State)
    requires Inv(tr, s) && s.n < |tr| && Idle(s)
    ensures var t := Register(tr, s);
            Inv(tr, t) && t.n == s.n + 1 && t.active == {} && Pend(t, s.n) == Fol(t, s.n) && Reg(t, s.n) == []
            && !Commited(t, s.n)
    ensures forall a :: Enabled(Register(tr, s), a) ==> Enabled(s, a)
    ensures s.log <= Register(tr, s).log
  {
    var u, f, d := Arrive(tr, s), InitFifo(tr[s.n].comp), Node(s.n, Init);
    ArriveKeepsInvCore(tr, s);
    PutKeepsInvCore(tr, u, f, d);
    assert EventAt(tr, s, s.n);
    RegisterPuts(tr, s);
  }

  lemma RegisterPuts(tr: seq<Hwe>, s: State)
    requires Shape(tr, s) && s.n < |tr| && InitPuts(tr, s)
    ensures Shape(tr, Register(tr, s)) && InitPuts(tr, Register(tr, s))
  {
    var f, d, t := InitFifo(tr[s.n].comp), Node(s.n, Init), Register(tr, s);
    assert t.puts == s.puts[f := PutsOf(s, f) + [d]] && t.n == s.n + 1;
    forall c ensures PutsOf(t, InitFifo(c)) == CompNodes(tr, t.n, c) {
      assert PutsOf(s, InitFifo(c)) == CompNodes(tr, s.n, c);
    }
  }

  // ---------------------------------------------------------------------------------------------
  // Updates of the reference tables

  // Only `missref`, `missfol` and the reference tables may differ.
  ghost predicate SameStages(s: State, t: State)
  {
    && |t.ev| == |s.ev| && |t.bl| == |s.bl| && t == s.(ev := t.ev, stg := t.stg, bl := t.bl)
    && SameUsr(s, t)
    && (forall c :: Done(t, c) == Done(s, c))
    && (forall x :: Commited(t, x) == Commited(s, x))
  }

  ghost predicate SameGo(s: State, t: State) { forall y :: Fol(t, y) == Fol(s, y) && GoRef(t, y) == GoRef(s, y) }
  ghost predicate SameRet(s: State, t: State) { forall y :: Left(t, y) == Left(s, y) && RetFol(t, y) == RetFol(s, y) }
  ghost predicate SameCnt(s: State, t: State) { forall c :: Cnt(t, c) == Cnt(s, c) }

  // ---------------------------------------------------------------------------------------------
  // Registering one reference `r` of the event `e` being handled

  // What registering the reference does to event `y` and to stage `c`.
  ghost predicate RefAt(s: State, t: State, e: nat, r: nat, y: nat)
  {
    RefLists(s, t, e, r, y) && RefNumbers(s, t, e, r, y)
  }

  ghost predicate RefNumbers(s: State, t: State, e: nat, r: nat, y: nat)
  {
    && MissRef(t, y) == MissRef(s, y) + (if !Commited(s, r) && y == e then 1 else 0)
    && MissFol(t, y) == MissFol(s, y) - (if y == r then 1 else 0)
    && Commited(t, y) == Commited(s, y)
  }

  ghost predicate RefLists(s: State, t: State, e: nat, r: nat, y: nat)
  {
    var lost, open := !Commited(s, r), !Done(s, Node(r, Go));
    && Fol(t, y) == (if open && y == r then [e] + Fol(s, y) else Fol(s, y))
    && GoRef(t, y) == (if open && y == e then GoRef(s, y) + multiset{r} else GoRef(s, y))
    && Pend(t, y) == (if lost && y == r then [e] + Pend(s, y) else Pend(s, y))
    && Missing(t, y) == (if lost && y == e then Missing(s, y) + multiset{r} else Missing(s, y))
    && Left(t, y) == (if y == e then Left(s, y) + [r] else Left(s, y))
    && RetFol(t, y) == (if y == r then RetFol(s, y) + multiset{e} else RetFol(s, y))
  }

  // The same, in three parts: `e` misses `r`, follows it, and holds it.
  ghost predicate MissesAt(s: State, t: State, e: nat, r: nat, y: nat)
  {
    && Fol(t, y) == Fol(s, y) && GoRef(t, y) == GoRef(s, y) && Left(t, y) == Left(s, y) && RetFol(t, y) == RetFol(s, y)
    && Pend(t, y) == (if !Commited(s, r) && y == r then [e] + Pend(s, y) else Pend(s, y))
    && Missing(t, y) == (if !Commited(s, r) && y == e then Missing(s, y) + multiset{r} else Missing(s, y))
    && MissRef(t, y) == MissRef(s, y) + (if !Commited(s, r) && y == e then 1 else 0)
    && MissFol(t, y) == MissFol(s, y) && Commited(t, y) == Commited(s, y)
  }

  ghost predicate FollowsAt(s: State, t: State, e: nat, r: nat, y: nat)
  {
    && Fol(t, y) == (if !Done(s, Node(r, Go)) && y == r then [e] + Fol(s, y) else Fol(s, y))
    && GoRef(t, y) == (if !Done(s, Node(r, Go)) && y == e then GoRef(s, y) + multiset{r} else GoRef(s, y))
    && Left(t, y) == Left(s, y) && RetFol(t, y) == RetFol(s, y) && Pend(t, y) == Pend(s, y)
    && Missing(t, y) == Missing(s, y)
    && MissRef(t, y) == MissRef(s, y) && MissFol(t, y) == MissFol(s, y) && Commited(t, y) == Commited(s, y)
  }

  ghost predicate HoldsAt(s: State, t: State, e: nat, r: nat, y: nat)
  {
    && Fol(t, y) == Fol(s, y) && GoRef(t, y) == GoRef(s, y) && Pend(t, y) == Pend(s, y)
    && Missing(t, y) == Missing(s, y)
    && Left(t, y) == (if y == e then Left(s, y) + [r] else Left(s, y))
    && RetFol(t, y) == (if y == r then RetFol(s, y) + multiset{e} else RetFol(s, y))
    && MissRef(t, y) == MissRef(s, y) && MissFol(t, y) == MissFol(s, y) - (if y == r then 1 else 0)
    && Commited(t, y) == Commited(s, y)
  }

  ghost function Missed(bl: seq<Blockers>, e: nat, r: nat): (b: seq<Blockers>)
    requires e < |bl| && r < |bl|
    ensures |b| == |bl|
    ensures forall y :: 0 <= y < |bl| ==> b[y] == bl[y].(
              missing := if y == e then bl[y].missing + multiset{r} else bl[y].missing,
              pend := if y == r then [e] + bl[y].pend else bl[y].pend)
  {
    var b := bl[e := bl[e].(missing := bl[e].missing + multiset{r})];
    b[r := b[r].(pend := [e] + b[r].pend)]
  }

  ghost function Held(bl: seq<Blockers>, e: nat, r: nat): (b: seq<Blockers>)
    requires e < |bl| && r < |bl|
    ensures |b| == |bl|
    ensures forall y :: 0 <= y < |bl| ==> b[y] == bl[y].(
              left := if y == e then bl[y].left + [r] else bl[y].left,
              retFol := if y == r then bl[y].retFol + multiset{e} else bl[y].retFol)
  {
    var b := bl[e := bl[e].(left := bl[e].left + [r])];
    b[r := b[r].(retFol := b[r].retFol + multiset{e})]
  }

  // One follower of `e` no longer misses it.
  ghost function Told(bl: seq<Blockers>, e: nat, f: nat): (b: seq<Blockers>)
    requires e < |bl| && f < |bl| && bl[e].pend != []
    ensures |b| == |bl|
    ensures forall y :: 0 <= y < |bl| ==> b[y] == bl[y].(
              missing := if y == f then bl[y].missing - multiset{e} else bl[y].missing,
              pend := if y == e then bl[y].pend[1..] else bl[y].pend)
  {
    var b := bl[f := bl[f].(missing := bl[f].missing - multiset{e})];
    b[e := b[e].(pend := b[e].pend[1..])]
  }

  ghost predicate RefNode(s: State, t: State, e: nat, r: nat, c: Node)
  {
    && Usr(t, c) == Usr(s, c) && By(t, c) == By(s, c) && Done(t, c) == Done(s, c)
    && Cnt(t, c) == Cnt(s, c) + (if c == Node(r, Ret) then 1 else 0)
      + (if !Done(s, Node(r, Go)) && c == Node(e, Go) then 1 else 0)
  }

  ghost predicate RefAdded(s: State, t: State, e: nat, r: nat)
  {
    && |t.ev| == |s.ev| && |t.bl| == |s.bl| && e < |s.reg|
    && t == s.(ev := t.ev, stg := t.stg, bl := t.bl, reg := s.reg[e := s.reg[e] + [r]])
    && (forall y :: RefAt(s, t, e, r, y))
    && (forall c :: RefNode(s, t, e, r, c))
  }

  lemma HeldAt(s: State, t: State, e: nat, r: nat, y: nat)
    requires e < |s.ev| && r < |s.ev| && |s.bl| == |s.ev|
    requires t == s.(ev := s.ev[r := s.ev[r].(missfol := s.ev[r].missfol - 1)], stg := t.stg, bl := Held(s.bl, e, r))
    ensures HoldsAt(s, t, e, r, y)
  {
    if y < |s.ev| { assert t.bl[y] == Held(s.bl, e, r)[y]; }
  }

  lemma {:induction false} RefParts(s: State, u: State, v: State, w: State, t: State, e: nat, r: nat, y: nat)
    requires MissesAt(s, u, e, r, y) && FollowsAt(u, v, e, r, y) && HoldsAt(v, w, e, r, y)
    requires u.stg == s.stg && t.ev == w.ev && t.bl == w.bl
    ensures RefAt(s, t, e, r, y)
  {
    RefListParts(s, u, v, w, t, e, r, y);
  }

  lemma {:induction false} RefListParts(s: State, u: State, v: State, w: State, t: State, e: nat, r: nat, y: nat)
    requires MissesAt(s, u, e, r, y) && FollowsAt(u, v, e, r, y) && HoldsAt(v, w, e, r, y)
    requires u.stg == s.stg && t.ev == w.ev && t.bl == w.bl
    ensures RefLists(s, t, e, r, y)
  {
    assert Done(u, Node(r, Go)) == Done(s, Node(r, Go));
  }

  // `e` is the event being handled and `r` its next reference.
  ghost predicate AtRef(tr: seq<Hwe>, s: State, e: nat, r: nat)
  {
    && Shape(tr, s) && s.active == {} && s.n == e + 1 && r < |tr| && !Commited(s, e)
    && |s.reg[e]| < |tr[e].refs| && r == tr[e].refs[|s.reg[e]|]
  }

  // A reference that is still to be counted is not counted in `reg`.
  lemma RefUncounted(tr: seq<Hwe>, s: State, e: nat, r: nat)
    requires AtRef(tr, s, e, r) && Events(tr, s)
    ensures RefCount(s.reg, r) < RefCount(Refs(tr), r)
  {
    forall y | 0 <= y < |tr| ensures s.reg[y] <= Refs(tr)[y] { assert EventAt(tr, s, y); }
    RefCountTight(s.reg, Refs(tr), r, e);
    var k := |s.reg[e]|;
    assert tr[e].refs == s.reg[e] + ([r] + tr[e].refs[k+1..]);
    assert multiset(tr[e].refs)[r] >= multiset(s.reg[e])[r] + 1;
  }

  // Hence it has not run its 'ret'.
  lemma RefNotReturned(tr: seq<Hwe>, s: State, e: nat, r: nat)
    requires WellFormed(tr) && AtRef(tr, s, e, r) && Events(tr, s) && Runs(tr, s) && Stages(s)
    ensures Node(r, Ret) !in s.log
  {
    RefUncounted(tr, s, e, r);
    RanInOrder(tr, s, Node(r, Ret));
    assert RunAt(tr, s, r) && EventAt(tr, s, r);
  }

  lemma RefStageAt(s: State, t: State, e: nat, r: nat, d: Node)
    requires RefAt(s, t, e, r, d.ev) && RefNode(s, t, e, r, d) && StageAt(s, d) && t.log == s.log
    requires t.active == s.active
    requires Node(r, Ret) !in s.log && Node(e, Go) !in s.log
    ensures StageAt(t, d)
  {
    assert |GoRef(s, e) + multiset{r}| == |GoRef(s, e)| + 1;
    assert |RetFol(s, r) + multiset{e}| == |RetFol(s, r)| + 1;
  }

  // A reference never enables a stage: when `missfol` may drop to zero, the counter is positive.
  lemma RefEnables(s: State, t: State, e: nat, r: nat, d: Node)
    requires RefAdded(s, t, e, r) && StageAt(s, d) && Enabled(t, d) && !Commited(s, e)
    ensures Enabled(s, d)
  {
    assert RefAt(s, t, e, r, d.ev) && RefNode(s, t, e, r, d) && RefNode(s, t, e, r, Node(d.ev, Init))
      && RefNode(s, t, e, r, Node(d.ev, Go));
  }

  lemma RefCrossAt(s: State, t: State, e: nat, r: nat, y: nat, z: nat)
    requires RefAt(s, t, e, r, y) && RefAt(s, t, e, r, z)
    ensures GoRef(s, y)[z] == multiset(Fol(s, z))[y] ==> GoRef(t, y)[z] == multiset(Fol(t, z))[y]
    ensures Missing(s, y)[z] == multiset(Pend(s, z))[y] ==> Missing(t, y)[z] == multiset(Pend(t, z))[y]
  {
    PushCount(Fol(s, z), e, y);
    PushCount(Pend(s, z), e, y);
  }

  lemma RefCrossRetAt(s: State, t: State, e: nat, r: nat, y: nat, z: nat)
    requires RefAt(s, t, e, r, y) && RefAt(s, t, e, r, z) && RetFol(s, y)[z] == multiset(Left(s, z))[y]
    ensures RetFol(t, y)[z] == multiset(Left(t, z))[y]
  {
    assert multiset(Left(s, z) + [r])[y] == multiset(Left(s, z))[y] + (if y == r then 1 else 0);
  }

  lemma RefCross(s: State, t: State, e: nat, r: nat)
    requires RefAdded(s, t, e, r) && CrossRefs(s)
    ensures CrossRefs(t)
  {
    forall y, z ensures GoRef(t, y)[z] == multiset(Fol(t, z))[y] {
      assert GoRef(s, y)[z] == multiset(Fol(s, z))[y];
      RefCrossAt(s, t, e, r, y, z);
    }
    forall y, z ensures RetFol(t, y)[z] == multiset(Left(t, z))[y] {
      assert RetFol(s, y)[z] == multiset(Left(s, z))[y];
      RefCrossRetAt(s, t, e, r, y, z);
    }
    forall y, z ensures Missing(t, y)[z] == multiset(Pend(t, z))[y] {
      assert Missing(s, y)[z] == multiset(Pend(s, z))[y];
      RefCrossAt(s, t, e, r, y, z);
    }
  }

  lemma RefCountAdd(reg: seq<seq<nat>>, e: nat, r: nat, x: nat)
    requires e < |reg|
    ensures RefCount(reg[e := reg[e] + [r]], x) == RefCount(reg, x) + (if x == r then 1 else 0)
  {
    RefCountAt(reg, e, reg[e] + [r], x);
    assert multiset(reg[e] + [r])[x] == multiset(reg[e])[x] + (if x == r then 1 else 0);
  }

  lemma RefEventAt(tr: seq<Hwe>, s: State, t: State, e: nat, r: nat, x: nat)
    requires AtRef(tr, s, e, r) && x < |tr| && EventAt(tr, s, x)
    requires Shape(tr, t) && t.reg == s.reg[e := s.reg[e] + [r]] && t.n == s.n && RefAt(s, t, e, r, x)
    requires !Commited(s, r) ==> !Done(s, Node(r, Go))
    ensures EventAt(tr, t, x)
  {
    RefCountAdd(s.reg, e, r, x);
    if x == e {
      RefEventSelf(tr, s, t, e, r);
    } else {
      assert Reg(t, x) == Reg(s, x) && Missing(t, x) == Missing(s, x);
    }
  }

  lemma {:induction false} OneMissing(m: multiset<nat>, r: nat)
    ensures |m + multiset{r}| == |m| + 1
  {
  }

  lemma {:induction false} RefEventSelf(tr: seq<Hwe>, s: State, t: State, e: nat, r: nat)
    requires AtRef(tr, s, e, r) && EventAt(tr, s, e)
    requires Shape(tr, t) && t.reg == s.reg[e := s.reg[e] + [r]] && t.n == s.n && RefAt(s, t, e, r, e)
    requires RefCount(t.reg, e) == RefCount(s.reg, e) + (if e == r then 1 else 0)
    ensures EventAt(tr, t, e)
  {
    assert Reg(t, e) == s.reg[e] + [r] == tr[e].refs[..|s.reg[e]|+1];
    OneMissing(Missing(s, e), r);
  }

  lemma RefFollowers(fol: seq<nat>, fol': seq<nat>, reg: seq<seq<nat>>, reg': seq<seq<nat>>, e: nat, r: nat, x: nat)
    requires e < |reg| && FollowersComplete(fol, reg, x)
    requires reg' == reg[e := reg[e] + [r]] && fol' == if x == r then [e] + fol else fol
    ensures FollowersComplete(fol', reg', x)
  {
    forall y ensures multiset(fol')[y] == multiset(RegOf(reg', y))[x] {
      assert multiset(fol)[y] == multiset(RegOf(reg, y))[x];
      assert multiset(RegOf(reg, y) + [r])[x] == multiset(RegOf(reg, y))[x] + (if x == r then 1 else 0);
      PushCount(fol, e, y);
    }
  }

  lemma RefFollowersAt(s: State, t: State, e: nat, r: nat, x: nat)
    requires RefAt(s, t, e, r, x) && FollowersAt(s, x) && e < |s.reg|
    requires t.log == s.log && t.active == s.active && t.reg == s.reg[e := s.reg[e] + [r]]
    requires Node(r, Go) in s.log <==> Done(s, Node(r, Go))
    ensures FollowersAt(t, x)
  {
    if Node(x, Go) !in s.log {
      RefFollowers(Fol(s, x), Fol(t, x), s.reg, t.reg, e, r, x);
    }
  }

  lemma RefReleaseAt(len: nat, s: State, t: State, e: nat, r: nat, x: nat)
    requires RefAt(s, t, e, r, x) && ReleaseAt(len, s, x) && e < |s.reg| && r < len
    requires t.log == s.log && t.active == s.active && t.free == s.free && t.reg == s.reg[e := s.reg[e] + [r]]
    requires Node(e, Ret) !in s.log
    ensures ReleaseAt(len, t, x)
  {
    if x == e {
      assert Left(t, x) == Left(s, x) + [r];
    } else {
      assert Left(t, x) == Left(s, x);
    }
  }

  lemma RefRunAt(tr: seq<Hwe>, s: State, t: State, e: nat, r: nat, x: nat)
    requires AtRef(tr, s, e, r) && x < |tr| && RunAt(tr, s, x)
    requires Shape(tr, t) && t == s.(ev := t.ev, stg := t.stg, bl := t.bl, reg := s.reg[e := s.reg[e] + [r]])
    requires RefAt(s, t, e, r, x) && RefNode(s, t, e, r, Node(x, Init)) && RefNode(s, t, e, r, Node(x, Go))
    requires Node(r, Ret) !in s.log && Node(e, Ret) !in s.log && Node(e, Go) !in s.log && Node(e, Init) !in s.log
    requires Node(r, Go) in s.log <==> Done(s, Node(r, Go))
    ensures RunAt(tr, t, x)
  {
    RefFollowersAt(s, t, e, r, x);
    RefReleaseAt(|tr|, s, t, e, r, x);
  }

  // While `e` is being handled nothing of it has run, and 'go' marks are accurate.
  lemma RefSituation(tr: seq<Hwe>, s: State, e: nat, r: nat)
    requires AtRef(tr, s, e, r) && Stages(s) && Runs(tr, s)
    ensures Node(e, Go) !in s.log && Node(e, Init) !in s.log && Node(e, Ret) !in s.log
    ensures Node(r, Go) in s.log <==> Done(s, Node(r, Go))
    ensures !Commited(s, r) ==> !Done(s, Node(r, Go))
  {
    RanInOrder(tr, s, Node(e, Go));
    RanInOrder(tr, s, Node(e, Ret));
    RanInOrder(tr, s, Node(r, Go));
    assert RunAt(tr, s, e) && RunAt(tr, s, r) && StageAt(s, Node(r, Go));
  }

  lemma RefTables(tr: seq<Hwe>, s: State, t: State, e: nat, r: nat)
    requires WellFormed(tr) && AtRef(tr, s, e, r) && Stages(s) && Events(tr, s) && Runs(tr, s) && RefAdded(s, t, e, r)
    ensures Shape(tr, t) && Stages(t) && Events(tr, t) && Runs(tr, t)
    ensures Pend(s, e) == Fol(s, e) ==> Pend(t, e) == Fol(t, e)
  {
    RefNotReturned(tr, s, e, r);
    RefSituation(tr, s, e, r);
    assert RefAt(s, t, e, r, e);
    forall d ensures StageAt(t, d) {
      assert StageAt(s, d) && RefAt(s, t, e, r, d.ev) && RefNode(s, t, e, r, d);
      RefStageAt(s, t, e, r, d);
    }
    forall x | 0 <= x < |tr| ensures EventAt(tr, t, x) && RunAt(tr, t, x) {
      assert EventAt(tr, s, x) && RunAt(tr, s, x) && RefAt(s, t, e, r, x);
      RefEventAt(tr, s, t, e, r, x);
      assert RefNode(s, t, e, r, Node(x, Init)) && RefNode(s, t, e, r, Node(x, Go));
      RefRunAt(tr, s, t, e, r, x);
    }
  }

  lemma AddRefKeepsInv(tr: seq<Hwe>, s: State, t: State, e: nat, r: nat)
    requires WellFormed(tr) && Inv(tr, s) && AtRef(tr, s, e, r) && RefAdded(s, t, e, r)
    ensures Inv(tr, t) && forall d :: Enabled(t, d) ==> Enabled(s, d)
    ensures Pend(s, e) == Fol(s, e) ==> Pend(t, e) == Fol(t, e)
  {
    RefTables(tr, s, t, e, r);
    RefCross(s, t, e, r);
    assert SameUsr(s, t) by {
      forall c ensures Usr(t, c) == Usr(s, c) && By(t, c) == By(s, c) { assert RefNode(s, t, e, r, c); }
    }
    FramedFifos(s, t);
    FramedInitPuts(tr, s, t);
    FramedCrossUsr(s, t);
    forall d | Enabled(t, d) ensures Enabled(s, d) { assert StageAt(s, d); RefEnables(s, t, e, r, d); }
  }

  // ---------------------------------------------------------------------------------------------
  // Telling the followers of `e` that it has arrived, then committing it

  ghost predicate PendPopped(s: State, t: State, e: nat)
    requires Pend(s, e) != []
  {
    var f := Pend(s, e)[0];
    && SameStages(s, t) && SameGo(s, t) && SameRet(s, t) && SameCnt(s, t)
    && (forall y :: Pend(t, y) == if y == e then Pend(s, e)[1..] else Pend(s, y))
    && (forall y :: Missing(t, y) == if y == f then Missing(s, y) - multiset{e} else Missing(s, y))
    && (forall y :: MissRef(t, y) == MissRef(s, y) - (if y == f then 1 else 0))
    && (forall y :: MissFol(t, y) == MissFol(s, y))
  }

  lemma ToldEffect(s: State, t: State, e: nat, f: nat)
    requires e < |s.ev| && f < |s.ev| && |s.bl| == |s.ev| && Pend(s, e) != [] && f == Pend(s, e)[0]
    requires t == s.(ev := s.ev[f := s.ev[f].(missref := s.ev[f].missref - 1)], bl := Told(s.bl, e, f))
    ensures PendPopped(s, t, e) && Fol(t, e) == Fol(s, e)
  {
    assert SameStages(s, t);
    forall y: nat
      ensures Fol(t, y) == Fol(s, y) && GoRef(t, y) == GoRef(s, y)
      ensures Left(t, y) == Left(s, y) && RetFol(t, y) == RetFol(s, y)
    {
      if y < |s.ev| { assert t.bl[y] == Told(s.bl, e, f)[y]; }
    }
  }

  lemma {:induction false} PendPoppedTables(tr: seq<Hwe>, s: State, t: State, e: nat)
    requires Shape(tr, s) && Shape(tr, t) && Pend(s, e) != [] && PendPopped(s, t, e) && Stages(s) && Events(tr, s)
    requires Runs(tr, s)
    requires e < |tr| && !Commited(s, e) && s.n == e + 1 && Missing(s, Pend(s, e)[0])[e] > 0
    requires Node(Pend(s, e)[0], Init) !in s.log
    ensures Stages(t) && Events(tr, t) && Runs(tr, t)
  {
    forall d ensures StageAt(t, d) { assert StageAt(s, d); }
    forall x | 0 <= x < |tr| ensures EventAt(tr, t, x) {
      assert EventAt(tr, s, x);
      PendPoppedEventAt(tr, s, t, e, x);
    }
    forall x | 0 <= x < |tr| ensures RunAt(tr, t, x) {
      assert RunAt(tr, s, x);
      PendPoppedRunAt(tr, s, t, e, x);
    }
  }

  lemma {:induction false} PendPoppedRunAt(tr: seq<Hwe>, s: State, t: State, e: nat, x: nat)
    requires Shape(tr, s) && Shape(tr, t) && Pend(s, e) != [] && PendPopped(s, t, e) && x < |tr| && RunAt(tr, s, x)
    requires Node(Pend(s, e)[0], Init) !in s.log
    ensures RunAt(tr, t, x)
  {
    assert Fol(t, x) == Fol(s, x) && Left(t, x) == Left(s, x);
  }

  lemma PendPoppedEventAt(tr: seq<Hwe>, s: State, t: State, e: nat, x: nat)
    requires Shape(tr, s) && Shape(tr, t) && Pend(s, e) != [] && PendPopped(s, t, e) && x < |tr| && EventAt(tr, s, x)
    requires e < |tr| && !Commited(s, e) && s.n == e + 1 && Missing(s, Pend(s, e)[0])[e] > 0
    ensures EventAt(tr, t, x)
  {
    var f := Pend(s, e)[0];
    assert |Missing(s, f) - multiset{e}| == |Missing(s, f)| - 1;
    assert Fol(t, x) == Fol(s, x);
  }

  lemma PendPoppedCross(s: State, t: State, e: nat)
    requires Pend(s, e) != [] && PendPopped(s, t, e) && CrossRefs(s) && Missing(s, Pend(s, e)[0])[e] > 0
    ensures CrossRefs(t)
  {
    forall y, z ensures GoRef(t, y)[z] == multiset(Fol(t, z))[y] { assert GoRef(s, y)[z] == multiset(Fol(s, z))[y]; }
    forall y, z ensures RetFol(t, y)[z] == multiset(Left(t, z))[y] {
      assert RetFol(s, y)[z] == multiset(Left(s, z))[y];
    }
    forall y, z ensures Missing(t, y)[z] == multiset(Pend(t, z))[y] {
      assert Missing(s, y)[z] == multiset(Pend(s, z))[y];
      PopCount(Pend(s, e), y);
    }
  }

  // A follower that still misses `e` has not run its 'init'.
  lemma FollowerMissing(tr: seq<Hwe>, s: State, e: nat)
    requires Inv(tr, s) && Pend(s, e) != []
    ensures var f := Pend(s, e)[0]; f < |tr| && Missing(s, f)[e] > 0 && Node(f, Init) !in s.log
  {
    var f := Pend(s, e)[0];
    assert Missing(s, f)[e] == multiset(Pend(s, e))[f];
    assert |Missing(s, f)| > 0;
    assert RunAt(tr, s, f) && EventAt(tr, s, f);
  }

  lemma PendPoppedKeepsInv(tr: seq<Hwe>, s: State, t: State, e: nat)
    requires Inv(tr, s) && e < |tr| && !Commited(s, e) && s.n == e + 1 && Pend(s, e) != [] && PendPopped(s, t, e)
    ensures var f := Pend(s, e)[0]; f < |tr| && Node(f, Init) !in s.log
    ensures Inv(tr, t) && EnablesOnly(s, t, Node(Pend(s, e)[0], Init))
  {
    FollowerMissing(tr, s, e);
    PendPoppedTables(tr, s, t, e);
    PendPoppedCross(s, t, e);
    FramedFifos(s, t);
    FramedInitPuts(tr, s, t);
    FramedCrossUsr(s, t);
  }

  ghost function Commit(s: State, e: nat): State
    requires e < |s.ev|
  {
    s.(ev := s.ev[e := s.ev[e].(commited := true)])
  }

  lemma CommitKeepsInv(tr: seq<Hwe>, s: State, e: nat)
    requires Inv(tr, s) && e < |tr| && s.n == e + 1 && !Commited(s, e) && Pend(s, e) == [] && s.reg[e] == tr[e].refs
    requires s.active == {}
    ensures Inv(tr, Commit(s, e)) && EnablesOnly(s, Commit(s, e), Node(e, Init)) && Node(e, Init) !in s.log
    ensures Idle(Commit(s, e))
  {
    var t := Commit(s, e);
    assert RunAt(tr, s, e);
    forall x | 0 <= x < s.n ensures Commited(t, x) { assert EventAt(tr, s, x); }
    CommitTables(tr, s, e);
    FramedFifos(s, t);
    FramedInitPuts(tr, s, t);
    FramedCross(s, t);
  }

  lemma CommitTables(tr: seq<Hwe>, s: State, e: nat)
    requires Shape(tr, s) && Stages(s) && Events(tr, s) && Runs(tr, s)
    requires e < |tr| && s.n == e + 1 && Pend(s, e) == [] && s.reg[e] == tr[e].refs
    ensures var t := Commit(s, e); Stages(t) && Events(tr, t) && Runs(tr, t)
    ensures SameUsr(s, Commit(s, e)) && SameRefs(s, Commit(s, e))
    ensures EnablesOnly(s, Commit(s, e), Node(e, Init))
  {
    var t := Commit(s, e);
    forall d ensures StageAt(t, d) { assert StageAt(s, d); }
    forall x | 0 <= x < |tr| ensures EventAt(tr, t, x) && RunAt(tr, t, x) {
      assert EventAt(tr, s, x) && RunAt(tr, s, x);
      CommitEventAt(tr, s, e, x);
    }
  }

  lemma CommitEventAt(tr: seq<Hwe>, s: State, e: nat, x: nat)
    requires Shape(tr, s) && x < |tr| && EventAt(tr, s, x) && RunAt(tr, s, x)
    requires e < |tr| && s.n == e + 1 && Pend(s, e) == [] && s.reg[e] == tr[e].refs
    ensures EventAt(tr, Commit(s, e), x) && RunAt(tr, Commit(s, e), x)
  {
    var t := Commit(s, e);
    assert Fol(t, x) == Fol(s, x) && Left(t, x) == Left(s, x);
  }

}
