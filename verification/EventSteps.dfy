/**
 The elementary steps of the event handler, as functions on states, and the proofs that each one
 keeps the invariant.
 */
module EventSteps {
  import opened EventState

  // ---------------------------------------------------------------------------------------------
  // Small facts

  lemma PopCount<T>(q: seq<T>, v: T)
    requires q != []
    ensures multiset(q[1..])[v] == multiset(q)[v] - (if q[0] == v then 1 else 0)
  {
    assert q == [q[0]] + q[1..];
  }

  lemma PushCount<T>(q: seq<T>, w: T, v: T)
    ensures multiset([w] + q)[v] == multiset(q)[v] + (if w == v then 1 else 0)
  {
  }

  lemma {:induction false} RefCountAt(refs: seq<seq<nat>>, e: nat, l: seq<nat>, x: nat)
    requires e < |refs|
    ensures RefCount(refs[e := l], x) == RefCount(refs, x) - multiset(refs[e])[x] + multiset(l)[x]
    decreases |refs|
  {
    var k := |refs| - 1;
    if e < k {
      assert refs[e := l][..k] == refs[..k][e := l];
      RefCountAt(refs[..k], e, l, x);
    } else {
      assert refs[e := l][..k] == refs[..k];
    }
  }

  lemma {:induction false} RefCountNone(refs: seq<seq<nat>>, x: nat)
    requires forall y :: 0 <= y < |refs| ==> refs[y] == []
    ensures RefCount(refs, x) == 0
    decreases |refs|
  {
    if refs != [] { RefCountNone(refs[..|refs|-1], x); }
  }

  // If all references to `x` have been counted, none is left unregistered.
  lemma {:induction false} RefCountTight(reg: seq<seq<nat>>, all: seq<seq<nat>>, x: nat, f: nat)
    requires |reg| == |all| && forall y :: 0 <= y < |reg| ==> reg[y] <= all[y]
    ensures RefCount(reg, x) <= RefCount(all, x)
    ensures f < |all| && RefCount(reg, x) == RefCount(all, x) ==> multiset(reg[f])[x] == multiset(all[f])[x]
    decreases |reg|
  {
    if reg != [] {
      var k := |reg| - 1;
      RefCountTight(reg[..k], all[..k], x, f);
      assert all[k] == reg[k] + all[k][|reg[k]|..];
      assert multiset(all[k]) == multiset(reg[k]) + multiset(all[k][|reg[k]|..]);
    }
  }

  // ---------------------------------------------------------------------------------------------
  // Running a callback

  ghost function Fire(s: State, d: Node): State
  {
    s.(log := s.log + [d], active := s.active + {d})
  }

  // A counter at zero leaves no blocker.
  lemma NoBlocker(s: State, d: Node, p: Node)
    requires StageAt(s, d) && Cnt(s, d) == 0
    ensures By(s, d)[p] == 0
    ensures d.stage == Go ==> GoRef(s, d.ev)[p.ev] == 0
    ensures d.stage == Ret ==> RetFol(s, d.ev)[p.ev] == 0
  {
    assert By(s, d)[p] > 0 ==> |By(s, d)| > 0;
    assert GoRef(s, d.ev)[p.ev] > 0 ==> |GoRef(s, d.ev)| > 0;
    assert RetFol(s, d.ev)[p.ev] > 0 ==> |RetFol(s, d.ev)| > 0;
  }

  lemma InitReady(tr: seq<Hwe>, s: State, x: nat, r: nat)
    requires Shape(tr, s) && Events(tr, s) && Runs(tr, s) && Stages(s) && CrossRefs(s) && x < |tr| && r < |tr|
    requires Commited(s, x) && MissRef(s, x) == 0 && r in tr[x].refs
    ensures r < s.n
  {
    assert EventAt(tr, s, x) && EventAt(tr, s, r) && RunAt(tr, s, r);
    RanInOrder(tr, s, Node(r, Go));
    assert s.n <= r ==> multiset(Fol(s, r))[x] == multiset(RegOf(s.reg, x))[r];
    assert Missing(s, x)[r] == multiset(Pend(s, r))[x];
    assert Missing(s, x)[r] > 0 ==> |Missing(s, x)| > 0;
  }

  lemma GoReady(tr: seq<Hwe>, s: State, x: nat, r: nat)
    requires Shape(tr, s) && Events(tr, s) && Runs(tr, s) && CrossRefs(s) && x < |tr| && r < |tr|
    requires Commited(s, x) && GoRef(s, x)[r] == 0 && r in tr[x].refs
    ensures Node(r, Go) in s.log
  {
    assert EventAt(tr, s, x) && RunAt(tr, s, r);
    assert Node(r, Go) !in s.log ==> multiset(Fol(s, r))[x] == multiset(RegOf(s.reg, x))[r];
    assert GoRef(s, x)[r] == multiset(Fol(s, r))[x];
  }

  lemma RetReady(tr: seq<Hwe>, s: State, x: nat, f: nat)
    requires WellFormed(tr) && Shape(tr, s) && Events(tr, s) && Runs(tr, s) && CrossRefs(s) && x < |tr| && f < |tr|
    requires x < s.n && MissFol(s, x) == 0 && RetFol(s, x)[f] == 0 && x in tr[f].refs
    ensures Node(f, Ret) in s.log
  {
    forall y | 0 <= y < |tr| ensures s.reg[y] <= Refs(tr)[y] { assert EventAt(tr, s, y); }
    RefCountTight(s.reg, Refs(tr), x, f);
    assert EventAt(tr, s, x) && RunAt(tr, s, f);
    assert x in multiset(tr[f].refs);
    assert RetFol(s, x)[f] == multiset(Left(s, f))[x];
  }

  // Every stage that has to precede an enabled stage has already run.
  lemma EnabledReady(tr: seq<Hwe>, s: State, d: Node, p: Node)
    requires WellFormed(tr) && Inv(tr, s) && Enabled(s, d) && IsPred(tr, s.links, p, d)
    ensures p in s.log
  {
    var x := d.ev;
    assert StageAt(s, d);
    NoBlocker(s, d, p);
    if (p, d) in s.links {
      assert LinkOk(s, p, d);
    } else {
      assert RunAt(tr, s, x) && EventAt(tr, s, x);
      assert StageAt(s, Node(x, Init)) && StageAt(s, Node(x, Go));
      match d.stage {
        case Init =>
          if p.ev != x { InitReady(tr, s, x, p.ev); }
          assert RunAt(tr, s, p.ev);
        case Go => if p != Node(x, Init) { GoReady(tr, s, x, p.ev); }
        case Ret => if p != Node(x, Go) { RetReady(tr, s, x, p.ev); }
      }
    }
  }

  lemma FireKeepsInv(tr: seq<Hwe>, s: State, d: Node)
    requires WellFormed(tr) && Inv(tr, s) && Enabled(s, d)
    ensures Inv(tr, Fire(s, d))
    ensures Settles(s, Fire(s, d), d)
    ensures Keeps(s, Fire(s, d))
  {
    var t := Fire(s, d);
    FramedCross(s, t);
    FramedFifos(s, t);
    FramedInitPuts(tr, s, t);
    FireKeepsTables(tr, s, d);
    FireKeepsOrder(tr, s, d);
  }

  lemma {:induction false} FireKeepsStages(tr: seq<Hwe>, s: State, d: Node)
    requires Shape(tr, s) && Stages(s) && Enabled(s, d)
    ensures Stages(Fire(s, d))
  {
    var t := Fire(s, d);
    forall a ensures StageAt(t, a) { assert StageAt(s, a); assert Cnt(t, a) == Cnt(s, a); }
  }

  lemma {:induction false} FireKeepsRuns(tr: seq<Hwe>, s: State, d: Node)
    requires Shape(tr, s) && Stages(s) && Runs(tr, s) && Enabled(s, d)
    ensures Runs(tr, Fire(s, d))
  {
    var t := Fire(s, d);
    forall x | 0 <= x < |tr| ensures RunAt(tr, t, x) {
      assert RunAt(tr, s, x) && StageAt(s, Node(x, Init)) && StageAt(s, Node(x, Go));
      assert Left(t, x) == Left(s, x) && Fol(t, x) == Fol(s, x);
    }
  }

  lemma {:induction false} FireKeepsTables(tr: seq<Hwe>, s: State, d: Node)
    requires Shape(tr, s) && Stages(s) && Events(tr, s) && Runs(tr, s) && Enabled(s, d)
    ensures Stages(Fire(s, d)) && Events(tr, Fire(s, d)) && Runs(tr, Fire(s, d))
  {
    var t := Fire(s, d);
    FireKeepsStages(tr, s, d);
    forall x | 0 <= x < |tr| ensures EventAt(tr, t, x) { assert EventAt(tr, s, x); assert Fol(t, x) == Fol(s, x); }
    FireKeepsRuns(tr, s, d);
  }

  lemma FireKeepsOrder(tr: seq<Hwe>, s: State, d: Node)
    requires WellFormed(tr) && Inv(tr, s) && Enabled(s, d)
    ensures Ordered(tr, s.links, s.log + [d])
  {
    var log := s.log + [d];
    forall i, p | 0 <= i < |log| && IsPred(tr, s.links, p, log[i]) ensures p in log[..i] {
      if i < |s.log| {
        assert log[i] == s.log[i];
        assert p in s.log[..i];
        assert s.log[..i] == log[..i];
      } else {
        EnabledReady(tr, s, d, p);
        assert log[..i] == s.log;
      }
    }
  }

  // ---------------------------------------------------------------------------------------------
  // Framing

  // The parts of two states that the cross-references read are the same.
  ghost predicate SameUsr(s: State, t: State)
  {
    forall a :: Usr(t, a) == Usr(s, a) && By(t, a) == By(s, a)
  }

  ghost predicate SameRefs(s: State, t: State)
  {
    && (forall x :: GoRef(t, x) == GoRef(s, x) && Fol(t, x) == Fol(s, x))
    && (forall x :: RetFol(t, x) == RetFol(s, x) && Left(t, x) == Left(s, x))
    && (forall x :: Missing(t, x) == Missing(s, x) && Pend(t, x) == Pend(s, x))
  }

  lemma FramedCrossRefs(s: State, t: State)
    requires CrossRefs(s) && SameRefs(s, t)
    ensures CrossRefs(t)
  {
    forall x, y ensures GoRef(t, x)[y] == multiset(Fol(t, y))[x] { assert GoRef(s, x)[y] == multiset(Fol(s, y))[x]; }
    forall x, y ensures RetFol(t, x)[y] == multiset(Left(t, y))[x] {
      assert RetFol(s, x)[y] == multiset(Left(s, y))[x];
    }
    forall x, y ensures Missing(t, x)[y] == multiset(Pend(t, y))[x] {
      assert Missing(s, x)[y] == multiset(Pend(s, y))[x];
    }
  }

  lemma FramedCrossUsr(s: State, t: State)
    requires CrossUsr(s) && SameUsr(s, t)
    ensures CrossUsr(t)
  {
    forall a, b ensures By(t, b)[a] == multiset(Usr(t, a))[Barrier(b)] {
      assert By(s, b)[a] == multiset(Usr(s, a))[Barrier(b)];
    }
  }

  lemma FramedCross(s: State, t: State)
    requires CrossUsr(s) && CrossRefs(s) && SameUsr(s, t) && SameRefs(s, t)
    ensures CrossUsr(t) && CrossRefs(t)
  {
    FramedCrossUsr(s, t);
    FramedCrossRefs(s, t);
  }

  lemma FramedFifos(s: State, t: State)
    requires SameUsr(s, t) && Kinds(s) && Fifos(s)
    requires t.puts == s.puts && t.fifo == s.fifo && t.links == s.links && t.n == s.n
    requires forall a :: a in s.log ==> a in t.log
    ensures Kinds(t) && Fifos(t)
  {
    forall a, p | p in Usr(t, a) ensures PtrOk(t, a, p) { assert p in Usr(s, a) && PtrOk(s, a, p); }
    forall f ensures FifoAt(t, f) { assert FifoAt(s, f); }
    forall p, d | (p, d) in t.links ensures LinkOk(t, p, d) { assert LinkOk(s, p, d); }
  }

  ghost predicate SameMisc(s: State, t: State)
  {
    && |t.ev| == |s.ev| && |t.bl| == |s.bl|
    && t == s.(ev := t.ev, stg := t.stg, bl := t.bl)
    && (forall x ::
         Commited(t, x) == Commited(s, x) && MissRef(t, x) == MissRef(s, x) && MissFol(t, x) == MissFol(s, x))
  }

  lemma FramedInitPuts(tr: seq<Hwe>, s: State, t: State)
    requires Shape(tr, s) && Shape(tr, t) && InitPuts(tr, s) && t.puts == s.puts && t.n == s.n
    ensures InitPuts(tr, t)
  {
    forall c ensures PutsOf(t, InitFifo(c)) == CompNodes(tr, t.n, c) {
      assert PutsOf(s, InitFifo(c)) == CompNodes(tr, s.n, c);
    }
  }

  // Nothing but the stages of events (and the fifo queues) differs.
  ghost predicate SameEvents(s: State, t: State)
  {
    && |t.ev| == |s.ev| && |t.bl| == |s.bl|
    && t.reg == s.reg && t.free == s.free && t.log == s.log && t.active == s.active && t.n == s.n
    && SameRefs(s, t)
    && (forall a :: Done(t, a) == Done(s, a))
    && (forall x ::
         Commited(t, x) == Commited(s, x) && MissRef(t, x) == MissRef(s, x) && MissFol(t, x) == MissFol(s, x))
  }

  lemma FramedEvents(tr: seq<Hwe>, s: State, t: State)
    requires Shape(tr, s) && SameEvents(s, t) && Events(tr, s) && Runs(tr, s)
    ensures Shape(tr, t) && Events(tr, t) && Runs(tr, t)
  {
    forall x | 0 <= x < |tr| ensures EventAt(tr, t, x) && RunAt(tr, t, x) {
      assert EventAt(tr, s, x) && RunAt(tr, s, x);
      assert Fol(t, x) == Fol(s, x) && Missing(t, x) == Missing(s, x) && Pend(t, x) == Pend(s, x)
        && Left(t, x) == Left(s, x);
    }
  }

  // ---------------------------------------------------------------------------------------------
  // Unlocking: consuming one element of a `usrfol` list

  // The effect of a step on the `usrfol` lists: the list of `a` loses its head.
  ghost predicate UsrPopped(s: State, t: State, a: Node)
    requires Usr(s, a) != []
  {
    forall c :: Usr(t, c) == if c == a then Usr(s, a)[1..] else Usr(s, c)
  }

  ghost predicate BarrierPopped(s: State, t: State, a: Node, b: Node)
    requires Usr(s, a) != []
  {
    && SameEvents(s, t) && UsrPopped(s, t, a)
    && t.fifo == s.fifo && t.puts == s.puts && t.links == s.links
    && (forall c :: Cnt(t, c) == Cnt(s, c) - if c == b then 1 else 0)
    && (forall c :: By(t, c) == if c == b then By(s, c) - multiset{a} else By(s, c))
  }

  ghost function PopBarrier(s: State, a: Node, b: Node): (t: State)
    requires Usr(s, a) != []
    ensures BarrierPopped(s, t, a, b)
  {
    s.(stg := AddCnt(SetList(s.stg, a, Usr(s, a)[1..]), b, -1), bys := s.bys[b := By(s, b) - multiset{a}])
  }

  lemma PopOne(l: seq<Ptr>, by0: multiset<Node>, by1: multiset<Node>, a: Node, d: Node)
    requires l != [] && by0[a] == multiset(l)[Barrier(d)]
    requires by1 == if Barrier(d) == l[0] then by0 - multiset{a} else by0
    ensures by1[a] == multiset(l[1..])[Barrier(d)]
    ensures forall c :: c != a ==> by1[c] == by0[c]
  {
    PopCount(l, Barrier(d));
  }

  lemma PoppedCross(s: State, t: State, a: Node)
    requires Usr(s, a) != [] && UsrPopped(s, t, a) && CrossUsr(s)
    requires forall c :: By(t, c) == if Barrier(c) == Usr(s, a)[0] then By(s, c) - multiset{a} else By(s, c)
    ensures CrossUsr(t)
  {
    forall c, d ensures By(t, d)[c] == multiset(Usr(t, c))[Barrier(d)] {
      assert By(s, d)[c] == multiset(Usr(s, c))[Barrier(d)];
      assert By(s, d)[a] == multiset(Usr(s, a))[Barrier(d)];
      PoppedCrossAt(s, t, a, c, d);
    }
  }

  lemma PoppedCrossAt(s: State, t: State, a: Node, c: Node, d: Node)
    requires Usr(s, a) != [] && Usr(t, c) == if c == a then Usr(s, a)[1..] else Usr(s, c)
    requires By(t, d) == if Barrier(d) == Usr(s, a)[0] then By(s, d) - multiset{a} else By(s, d)
    requires By(s, d)[c] == multiset(Usr(s, c))[Barrier(d)] && By(s, d)[a] == multiset(Usr(s, a))[Barrier(d)]
    ensures By(t, d)[c] == multiset(Usr(t, c))[Barrier(d)]
  {
    PopOne(Usr(s, a), By(s, d), By(t, d), a, d);
  }

  lemma PoppedKinds(s: State, t: State, a: Node)
    requires Usr(s, a) != [] && UsrPopped(s, t, a) && Kinds(s) && t.n == s.n && t.puts == s.puts
    ensures Kinds(t)
  {
    forall c, p | p in Usr(t, c) ensures PtrOk(t, c, p) { assert p in Usr(s, c) && PtrOk(s, c, p); }
  }

  lemma {:induction false} PoppedFifoAt(s: State, t: State, a: Node, f: Fifo)
    requires FifoAt(s, f) && Usr(s, a) != [] && UsrPopped(s, t, a) && Usr(s, a)[0].Barrier?
    requires t.n == s.n && t.puts == s.puts && t.fifo == s.fifo && t.links == s.links && t.log == s.log
    ensures FifoAt(t, f)
  {
    forall k | 0 <= k < |PutsOf(s, f)| && Member(f) in Usr(s, PutsOf(s, f)[k])
      ensures Member(f) in Usr(t, PutsOf(s, f)[k])
    {
      PoppedMember(s, t, a, f, PutsOf(s, f)[k]);
    }
  }

  lemma {:induction false} PoppedMember(s: State, t: State, a: Node, f: Fifo, c: Node)
    requires Usr(s, a) != [] && UsrPopped(s, t, a) && Usr(s, a)[0].Barrier? && Member(f) in Usr(s, c)
    ensures Member(f) in Usr(t, c)
  {
    var l := Usr(s, a);
    assert l == [l[0]] + l[1..];
  }

  lemma PoppedFifos(s: State, t: State, a: Node)
    requires Fifos(s)
    requires Usr(s, a) != [] && UsrPopped(s, t, a) && Usr(s, a)[0].Barrier?
    requires t.n == s.n && t.puts == s.puts && t.fifo == s.fifo && t.links == s.links && t.log == s.log
    requires a in s.log
    requires forall c :: By(t, c) == By(s, c) || By(t, c) == By(s, c) - multiset{a}
    ensures Fifos(t)
  {
    forall f ensures FifoAt(t, f) { assert FifoAt(s, f); PoppedFifoAt(s, t, a, f); }
    forall p, d | (p, d) in t.links ensures LinkOk(t, p, d) { assert LinkOk(s, p, d); PoppedLink(s, t, a, p, d); }
  }

  lemma PoppedLink(s: State, t: State, a: Node, p: Node, d: Node)
    requires LinkOk(s, p, d) && a in s.log && t.log == s.log && t.puts == s.puts
    requires By(t, d) == By(s, d) || By(t, d) == By(s, d) - multiset{a}
    ensures LinkOk(t, p, d)
  {
    assert p == a || By(t, d)[p] == By(s, d)[p];
  }

  // Stage `a` is unlocking its list, and the next element of the list is `p`.
  ghost predicate AtPtr(tr: seq<Hwe>, s: State, a: Node, p: Ptr)
  {
    Inv(tr, s) && a in s.active && a.ev < |tr| && Usr(s, a) != [] && Usr(s, a)[0] == p
  }

  // The stage an element blocks has not run, so the decrement cannot make it run twice.
  lemma BarrierPending(tr: seq<Hwe>, s: State, a: Node, b: Node)
    requires AtPtr(tr, s, a, Barrier(b))
    ensures b.ev < s.n && b.stage != Trace && (b.stage == Init <==> a.stage == Init)
    ensures b !in s.log && a in s.log && a.stage != Trace && By(s, b)[a] > 0
  {
    assert Barrier(b) in Usr(s, a) && PtrOk(s, a, Barrier(b));
    assert By(s, b)[a] == multiset(Usr(s, a))[Barrier(b)];
    assert |By(s, b)| > 0;
    assert StageAt(s, a) && StageAt(s, b);
  }

  lemma PopBarrierStages(s: State, t: State, a: Node, b: Node)
    requires Usr(s, a) != [] && BarrierPopped(s, t, a, b)
    requires Stages(s) && a in s.active && b !in s.log && b.stage != Trace && By(s, b)[a] > 0
    ensures Stages(t)
  {
    forall d ensures StageAt(t, d) { assert StageAt(s, d) && StageAt(s, b); PopBarrierStage(s, t, a, b, d); }
  }

  lemma PopBarrierStage(s: State, t: State, a: Node, b: Node, d: Node)
    requires Usr(s, a) != [] && UsrPopped(s, t, a) && t.log == s.log && t.active == s.active
    requires Cnt(t, d) == Cnt(s, d) - (if d == b then 1 else 0) && Done(t, d) == Done(s, d)
    requires RefBlockers(t, d) == RefBlockers(s, d)
    requires By(t, d) == if d == b then By(s, d) - multiset{a} else By(s, d)
    requires StageAt(s, d) && a in s.active && b !in s.log && b.stage != Trace && By(s, b)[a] > 0
    ensures StageAt(t, d)
  {
    assert |By(s, b) - multiset{a}| == |By(s, b)| - 1;
  }

  lemma BarrierPoppedCross(s: State, t: State, a: Node, b: Node)
    requires Usr(s, a) != [] && Usr(s, a)[0] == Barrier(b) && BarrierPopped(s, t, a, b) && CrossUsr(s)
    requires By(s, b)[a] > 0
    ensures CrossUsr(t)
  {
    PoppedCross(s, t, a);
  }

  lemma BarrierPoppedKeepsInv(tr: seq<Hwe>, s: State, t: State, a: Node, b: Node)
    requires AtPtr(tr, s, a, Barrier(b)) && BarrierPopped(s, t, a, b)
    requires b !in s.log && a in s.log && b.stage != Trace && By(s, b)[a] > 0
    ensures Inv(tr, t)
  {
    FramedEvents(tr, s, t);
    FramedCrossRefs(s, t);
    PopBarrierStages(s, t, a, b);
    BarrierPoppedCross(s, t, a, b);
    PoppedKinds(s, t, a);
    PoppedFifos(s, t, a);
    FramedInitPuts(tr, s, t);
  }

  lemma PopBarrierKeepsInv(tr: seq<Hwe>, s: State, a: Node, b: Node)
    requires AtPtr(tr, s, a, Barrier(b))
    ensures b.ev < s.n && b.stage != Trace && (b.stage == Init <==> a.stage == Init) && b !in s.log && a in s.log
    ensures a.stage != Trace
    ensures Inv(tr, PopBarrier(s, a, b)) && EnablesOnly(s, PopBarrier(s, a, b), b)
  {
    BarrierPending(tr, s, a, b);
    BarrierPoppedKeepsInv(tr, s, PopBarrier(s, a, b), a, b);
    BarrierPoppedEnables(s, PopBarrier(s, a, b), a, b);
  }

  lemma BarrierPoppedEnables(s: State, t: State, a: Node, b: Node)
    requires Usr(s, a) != [] && BarrierPopped(s, t, a, b)
    ensures EnablesOnly(s, t, b)
  {
    forall d | Enabled(t, d) && d != b ensures Enabled(s, d) { assert Cnt(t, d) == Cnt(s, d); }
  }

  // Consuming the element that records the membership of a stage in a fifo.
  ghost function PopMember(s: State, a: Node, f: Fifo): (t: State)
    requires Usr(s, a) != []
    ensures SameEvents(s, t) && UsrPopped(s, t, a)
    ensures forall c :: By(t, c) == By(s, c) && Cnt(t, c) == Cnt(s, c)
  {
    s.(stg := SetList(s.stg, a, Usr(s, a)[1..]),
       fifo := if f in s.fifo && s.fifo[f].ev == a.ev then s.fifo - {f} else s.fifo)
  }

  lemma PopMemberFifos(s: State, a: Node, f: Fifo)
    requires Fifos(s) && Kinds(s)
    requires Usr(s, a) != [] && Usr(s, a)[0] == Member(f) && a.stage != Trace && a in s.log
    requires a.stage == Ret ==> Node(a.ev, Go) in s.log
    ensures Fifos(PopMember(s, a, f))
  {
    var t := PopMember(s, a, f);
    assert PtrOk(s, a, Member(f));
    forall g ensures FifoAt(t, g) { assert FifoAt(s, g); PopMemberFifo(s, t, a, f, g); }
    forall p, d | (p, d) in t.links ensures LinkOk(t, p, d) { assert LinkOk(s, p, d); }
  }

  lemma PopMemberFifo(s: State, t: State, a: Node, f: Fifo, g: Fifo)
    requires Usr(s, a) != [] && t == PopMember(s, a, f) && FifoAt(s, g)
    requires Usr(s, a)[0] == Member(f) && PtrOk(s, a, Member(f)) && a in s.log
    requires a.stage == Ret ==> Node(a.ev, Go) in s.log
    ensures FifoAt(t, g)
  {
    if g == f { PopMemberOwn(s, t, a, f); } else { PopMemberOther(s, t, a, f, g); }
  }

  lemma PopMemberOwn(s: State, t: State, a: Node, f: Fifo)
    requires Usr(s, a) != [] && t == PopMember(s, a, f) && FifoAt(s, f)
    requires Usr(s, a)[0] == Member(f) && PtrOk(s, a, Member(f)) && a in s.log
    requires a.stage == Ret ==> Node(a.ev, Go) in s.log
    ensures FifoAt(t, f)
  {
    assert a in PutsOf(s, f);
  }

  lemma PopMemberOther(s: State, t: State, a: Node, f: Fifo, g: Fifo)
    requires Usr(s, a) != [] && t == PopMember(s, a, f) && FifoAt(s, g) && g != f
    requires Usr(s, a)[0] == Member(f)
    ensures FifoAt(t, g)
  {
    forall c | Member(g) in Usr(s, c) ensures Member(g) in Usr(t, c) {
      if c == a {
        assert Usr(s, a) == [Member(f)] + Usr(s, a)[1..];
      }
    }
  }

  lemma RanInOrder(tr: seq<Hwe>, s: State, a: Node)
    requires Shape(tr, s) && Stages(s) && Runs(tr, s) && a.ev < |tr|
    ensures a in s.active ==> a in s.log && a.stage != Trace
    ensures a in s.log && a.stage == Ret ==> Node(a.ev, Go) in s.log
    ensures a in s.log && (a.stage == Ret || a.stage == Go) ==> Node(a.ev, Init) in s.log
  {
    assert StageAt(s, a) && StageAt(s, Node(a.ev, Go)) && StageAt(s, Node(a.ev, Init)) && RunAt(tr, s, a.ev);
  }

  lemma SameEventsEnable(s: State, t: State)
    requires SameEvents(s, t) && forall c :: Cnt(t, c) == Cnt(s, c)
    ensures forall d :: Enabled(t, d) <==> Enabled(s, d)
  {
  }

  lemma PopMemberStages(s: State, a: Node, f: Fifo)
    requires Stages(s) && Usr(s, a) != [] && a in s.active
    ensures Stages(PopMember(s, a, f))
  {
    var t := PopMember(s, a, f);
    forall d ensures StageAt(t, d) { assert StageAt(s, d); }
  }

  lemma PopMemberKeepsInv(tr: seq<Hwe>, s: State, a: Node, f: Fifo)
    requires AtPtr(tr, s, a, Member(f))
    ensures a in s.log && a.stage != Trace
    ensures Inv(tr, PopMember(s, a, f)) && EnablesOnly(s, PopMember(s, a, f), a)
  {
    RanInOrder(tr, s, a);
    var t := PopMember(s, a, f);
    PopMemberFifos(s, a, f);
    FramedInitPuts(tr, s, t);
    FramedEvents(tr, s, t);
    SameEventsEnable(s, t);
    FramedCrossRefs(s, t);
    PoppedCross(s, t, a);
    PoppedKinds(s, t, a);
    PopMemberStages(s, a, f);
  }

  // ---------------------------------------------------------------------------------------------
  // Unlocking: consuming one element of the `followers` list in `check_go`

  ghost predicate FollowerPopped(s: State, t: State, x: nat)
    requires Fol(s, x) != []
  {
    && SameMisc(s, t) && SameUsr(s, t)
    && (forall c :: Done(t, c) == Done(s, c))
    && (forall c :: Cnt(t, c) == Cnt(s, c) - if c == Node(Fol(s, x)[0], Go) then 1 else 0)
    && (forall y :: Fol(t, y) == if y == x then Fol(s, x)[1..] else Fol(s, y))
    && (forall y :: GoRef(t, y) == if y == Fol(s, x)[0] then GoRef(s, y) - multiset{x} else GoRef(s, y))
    && (forall y :: RetFol(t, y) == RetFol(s, y) && Left(t, y) == Left(s, y))
    && (forall y :: Missing(t, y) == Missing(s, y) && Pend(t, y) == Pend(s, y))
  }

  ghost function PopFollower(s: State, x: nat): (t: State)
    requires x < |s.ev| && |s.ev| == |s.bl| && Fol(s, x) != [] && Fol(s, x)[0] < |s.ev|
    ensures FollowerPopped(s, t, x)
  {
    var f := Fol(s, x)[0];
    s.(stg := AddCnt(s.stg, Node(f, Go), -1),
       ev := s.ev[x := s.ev[x].(followers := Fol(s, x)[1..])],
       bl := s.bl[f := s.bl[f].(goRef := GoRef(s, f) - multiset{x})])
  }

  // The next follower has not run its 'go'.
  lemma FollowerPending(tr: seq<Hwe>, s: State, x: nat)
    requires Inv(tr, s) && Node(x, Go) in s.active && x < |tr| && Fol(s, x) != []
    ensures var f := Fol(s, x)[0]; f < s.n && Node(f, Go) !in s.log && GoRef(s, f)[x] > 0
  {
    var f := Fol(s, x)[0];
    assert EventAt(tr, s, x) && f in s.ev[x].followers;
    assert GoRef(s, f)[x] == multiset(Fol(s, x))[f];
    assert StageAt(s, Node(f, Go)) && |GoRef(s, f)| > 0;
  }

  lemma FollowerPoppedStages(s: State, t: State, x: nat)
    requires Fol(s, x) != [] && FollowerPopped(s, t, x)
    requires Stages(s) && Node(Fol(s, x)[0], Go) !in s.log && GoRef(s, Fol(s, x)[0])[x] > 0
    ensures Stages(t)
  {
    var f := Fol(s, x)[0];
    assert |GoRef(s, f) - multiset{x}| == |GoRef(s, f)| - 1;
    forall d ensures StageAt(t, d) { assert StageAt(s, d); }
  }

  lemma FollowerPoppedCross(s: State, t: State, x: nat)
    requires Fol(s, x) != [] && FollowerPopped(s, t, x)
    requires CrossRefs(s) && GoRef(s, Fol(s, x)[0])[x] > 0
    ensures CrossRefs(t)
  {
    forall y, z ensures GoRef(t, y)[z] == multiset(Fol(t, z))[y] {
      assert GoRef(s, y)[z] == multiset(Fol(s, z))[y];
      PopCount(Fol(s, x), y);
    }
    forall y, z ensures RetFol(t, y)[z] == multiset(Left(t, z))[y] {
      assert RetFol(s, y)[z] == multiset(Left(s, z))[y];
    }
    forall y, z ensures Missing(t, y)[z] == multiset(Pend(t, z))[y] {
      assert Missing(s, y)[z] == multiset(Pend(s, z))[y];
    }
  }

  lemma FollowerPoppedEvents(tr: seq<Hwe>, s: State, t: State, x: nat)
    requires Shape(tr, s) && Shape(tr, t) && Fol(s, x) != [] && FollowerPopped(s, t, x)
    requires Events(tr, s) && Runs(tr, s) && Node(x, Go) in s.log && Node(x, Go) in s.active && x < s.n
    ensures Events(tr, t) && Runs(tr, t)
  {
    forall y | 0 <= y < |tr| ensures EventAt(tr, t, y) {
      assert EventAt(tr, s, y);
      assert Fol(t, y) == if y == x then Fol(s, x)[1..] else Fol(s, y);
      assert forall z :: z in Fol(t, y) ==> z in Fol(s, y);
      assert Missing(t, y) == Missing(s, y) && Pend(t, y) == Pend(s, y);
    }
    forall y | 0 <= y < |tr| ensures RunAt(tr, t, y) {
      assert RunAt(tr, s, y);
      assert Left(t, y) == Left(s, y);
    }
  }

  lemma PopFollowerKeepsInv(tr: seq<Hwe>, s: State, x: nat)
    requires Inv(tr, s) && Node(x, Go) in s.active && x < |tr| && Fol(s, x) != []
    ensures var f := Fol(s, x)[0]; f < s.n && Node(f, Go) !in s.log
    ensures Inv(tr, PopFollower(s, x)) && EnablesOnly(s, PopFollower(s, x), Node(Fol(s, x)[0], Go))
  {
    FollowerPending(tr, s, x);
    var t := PopFollower(s, x);
    assert x < s.n && Node(x, Go) in s.log by {
      RanInOrder(tr, s, Node(x, Go));
      assert RunAt(tr, s, x) && EventAt(tr, s, x);
    }
    FollowerPoppedStages(s, t, x);
    FollowerPoppedCross(s, t, x);
    FollowerPoppedEvents(tr, s, t, x);
    FramedFifos(s, t);
    FramedInitPuts(tr, s, t);
    assert CrossUsr(t) by { FramedCrossUsr(s, t); }
  }

  // ---------------------------------------------------------------------------------------------
  // Releasing one reference in `check_ret`

  ghost predicate RefPopped(s: State, t: State, x: nat)
    requires Left(s, x) != []
  {
    && SameMisc(s, t) && SameUsr(s, t)
    && (forall c :: Done(t, c) == Done(s, c))
    && (forall c :: Cnt(t, c) == Cnt(s, c) - if c == Node(Left(s, x)[0], Ret) then 1 else 0)
    && (forall y :: Left(t, y) == if y == x then Left(s, x)[1..] else Left(s, y))
    && (forall y :: RetFol(t, y) == if y == Left(s, x)[0] then RetFol(s, y) - multiset{x} else RetFol(s, y))
    && (forall y :: GoRef(t, y) == GoRef(s, y) && Fol(t, y) == Fol(s, y))
    && (forall y :: Missing(t, y) == Missing(s, y) && Pend(t, y) == Pend(s, y))
  }

  ghost function PopRef(s: State, x: nat): (t: State)
    requires x < |s.ev| && |s.ev| == |s.bl| && Left(s, x) != [] && Left(s, x)[0] < |s.ev|
  {
    var r := Left(s, x)[0];
    s.(stg := AddCnt(s.stg, Node(r, Ret), -1), bl := Released(s.bl, x, r))
  }

  lemma ReleasedLists(s: State, t: State, x: nat, r: nat)
    requires x < |s.bl| && r < |s.bl| && s.bl[x].left != [] && t.bl == Released(s.bl, x, r)
    ensures forall y :: Left(t, y) == if y == x then Left(s, x)[1..] else Left(s, y)
    ensures forall y :: RetFol(t, y) == if y == r then RetFol(s, y) - multiset{x} else RetFol(s, y)
    ensures forall y :: GoRef(t, y) == GoRef(s, y)
    ensures forall y :: Missing(t, y) == Missing(s, y) && Pend(t, y) == Pend(s, y)
  {
  }

  lemma PopRefEffect(s: State, x: nat)
    requires x < |s.ev| && |s.ev| == |s.bl| && Left(s, x) != [] && Left(s, x)[0] < |s.ev|
    ensures RefPopped(s, PopRef(s, x), x)
  {
    ReleasedLists(s, PopRef(s, x), x, Left(s, x)[0]);
  }

  ghost function Released(bl: seq<Blockers>, x: nat, r: nat): (b: seq<Blockers>)
    requires x < |bl| && r < |bl| && bl[x].left != []
    ensures |b| == |bl|
    ensures forall y :: 0 <= y < |bl| ==> b[y] == bl[y].(
              left := if y == x then bl[y].left[1..] else bl[y].left,
              retFol := if y == r then bl[y].retFol - multiset{x} else bl[y].retFol)
  {
    var b := bl[x := bl[x].(left := bl[x].left[1..])];
    b[r := b[r].(retFol := b[r].retFol - multiset{x})]
  }

  // The next reference has not run its 'ret', since this event still holds it.
  lemma RefPending(tr: seq<Hwe>, s: State, x: nat)
    requires Inv(tr, s) && Node(x, Ret) in s.active && x < |tr| && Left(s, x) != []
    ensures var r := Left(s, x)[0]; r < |tr| && Node(r, Ret) !in s.log && RetFol(s, r)[x] > 0
  {
    var r := Left(s, x)[0];
    assert RunAt(tr, s, x) && r in Left(s, x);
    assert RetFol(s, r)[x] == multiset(Left(s, x))[r];
    assert StageAt(s, Node(r, Ret)) && |RetFol(s, r)| > 0;
  }

  lemma RefPoppedStages(s: State, t: State, x: nat)
    requires Left(s, x) != [] && RefPopped(s, t, x)
    requires Stages(s) && Node(Left(s, x)[0], Ret) !in s.log && RetFol(s, Left(s, x)[0])[x] > 0
    ensures Stages(t)
  {
    var r := Left(s, x)[0];
    assert |RetFol(s, r) - multiset{x}| == |RetFol(s, r)| - 1;
    forall d ensures StageAt(t, d) { assert StageAt(s, d); }
  }

  lemma RefPoppedCross(s: State, t: State, x: nat)
    requires Left(s, x) != [] && RefPopped(s, t, x)
    requires CrossRefs(s) && RetFol(s, Left(s, x)[0])[x] > 0
    ensures CrossRefs(t)
  {
    forall y, z ensures RetFol(t, y)[z] == multiset(Left(t, z))[y] {
      assert RetFol(s, y)[z] == multiset(Left(s, z))[y];
      PopCount(Left(s, x), y);
    }
    forall y, z ensures GoRef(t, y)[z] == multiset(Fol(t, z))[y] { assert GoRef(s, y)[z] == multiset(Fol(s, z))[y]; }
    forall y, z ensures Missing(t, y)[z] == multiset(Pend(t, z))[y] {
      assert Missing(s, y)[z] == multiset(Pend(s, z))[y];
    }
  }

  lemma RefPoppedEvents(tr: seq<Hwe>, s: State, t: State, x: nat)
    requires Shape(tr, s) && Shape(tr, t) && Left(s, x) != [] && RefPopped(s, t, x)
    requires Events(tr, s) && Runs(tr, s) && Node(x, Ret) in s.log && Node(x, Ret) in s.active
    ensures Events(tr, t) && Runs(tr, t)
  {
    forall y | 0 <= y < |tr| ensures EventAt(tr, t, y) {
      assert EventAt(tr, s, y);
      assert Fol(t, y) == Fol(s, y) && Missing(t, y) == Missing(s, y) && Pend(t, y) == Pend(s, y);
    }
    forall y | 0 <= y < |tr| ensures RunAt(tr, t, y) {
      assert RunAt(tr, s, y);
      assert Left(t, y) == if y == x then Left(s, x)[1..] else Left(s, y);
      assert forall z :: z in Left(t, y) ==> z in Left(s, y);
    }
  }

  lemma PopRefKeepsInv(tr: seq<Hwe>, s: State, x: nat)
    requires Inv(tr, s) && Node(x, Ret) in s.active && x < |tr| && Left(s, x) != []
    ensures var r := Left(s, x)[0]; r < |tr| && Node(r, Ret) !in s.log
    ensures Inv(tr, PopRef(s, x)) && EnablesOnly(s, PopRef(s, x), Node(Left(s, x)[0], Ret))
  {
    RefPending(tr, s, x);
    var t := PopRef(s, x);
    PopRefEffect(s, x);
    RanInOrder(tr, s, Node(x, Ret));
    RefPoppedStages(s, t, x);
    RefPoppedCross(s, t, x);
    RefPoppedEvents(tr, s, t, x);
    FramedFifos(s, t);
    FramedInitPuts(tr, s, t);
    assert CrossUsr(t) by { FramedCrossUsr(s, t); }
  }

  // ---------------------------------------------------------------------------------------------
  // Ending a stage

  ghost function Finish(s: State, a: Node): (t: State)
    ensures SameUsr(s, t) && SameRefs(s, t) && t == s.(stg := t.stg, active := s.active - {a})
    ensures forall c :: Cnt(t, c) == Cnt(s, c)
    ensures forall c :: Done(t, c) == (Done(s, c) || (c == a && a.stage != Ret))
    ensures forall x ::
      Commited(t, x) == Commited(s, x) && MissRef(t, x) == MissRef(s, x) && MissFol(t, x) == MissFol(s, x)
  {
    s.(stg := if a.stage == Ret then s.stg else SetDone(s.stg, a), active := s.active - {a})
  }

  ghost predicate Unlocked(s: State, a: Node)
  {
    && Usr(s, a) == []
    && (a.stage == Go ==> Fol(s, a.ev) == [])
    && (a.stage == Ret ==> Left(s, a.ev) == [] && a.ev in s.free)
  }

  // The stage that ending stage `a` may enable.
  ghost function NextStage(a: Node): Node
  {
    Node(a.ev, if a.stage == Init then Go else Ret)
  }

  lemma FinishKeepsInv(tr: seq<Hwe>, s: State, a: Node)
    requires Inv(tr, s) && a in s.active && a.ev < |tr| && a.stage != Trace && Unlocked(s, a)
    ensures Inv(tr, Finish(s, a)) && EnablesOnly(s, Finish(s, a), NextStage(a)) && a in s.log
    ensures a.stage != Ret ==> NextStage(a) !in s.log
  {
    var t := Finish(s, a);
    assert StageAt(s, a) && RunAt(tr, s, a.ev);
    FinishEnables(s, a);
    FinishParts(tr, s, a);
  }

  lemma FinishEnables(s: State, a: Node)
    ensures EnablesOnly(s, Finish(s, a), NextStage(a))
  {
  }

  lemma FinishParts(tr: seq<Hwe>, s: State, a: Node)
    requires Inv(tr, s) && a in s.active && a.ev < |tr| && a.stage != Trace && Unlocked(s, a)
    ensures Inv(tr, Finish(s, a))
  {
    var t := Finish(s, a);
    RanInOrder(tr, s, a);
    FinishTables(tr, s, a);
    FramedCrossRefs(s, t);
    FramedCrossUsr(s, t);
    FramedFifos(s, t);
    FramedInitPuts(tr, s, t);
  }

  lemma {:induction false} FinishTables(tr: seq<Hwe>, s: State, a: Node)
    requires Shape(tr, s) && Stages(s) && Events(tr, s) && Runs(tr, s)
    requires a in s.active && a in s.log && a.ev < |tr| && a.stage != Trace && Unlocked(s, a)
    ensures var t := Finish(s, a); Stages(t) && Events(tr, t) && Runs(tr, t)
  {
    var t := Finish(s, a);
    forall d ensures StageAt(t, d) { assert StageAt(s, d); }
    forall x | 0 <= x < |tr| ensures EventAt(tr, t, x) {
      assert EventAt(tr, s, x);
      assert Fol(t, x) == Fol(s, x) && Missing(t, x) == Missing(s, x) && Pend(t, x) == Pend(s, x);
    }
    FinishRuns(tr, s, a);
  }

  lemma {:induction false} FinishRuns(tr: seq<Hwe>, s: State, a: Node)
    requires Shape(tr, s) && Stages(s) && Runs(tr, s)
    requires a in s.active && a in s.log && a.ev < |tr| && a.stage != Trace && Unlocked(s, a)
    ensures Runs(tr, Finish(s, a))
  {
    var t := Finish(s, a);
    forall x | 0 <= x < |tr| ensures RunAt(tr, t, x) {
      assert RunAt(tr, s, x);
      assert Fol(t, x) == Fol(s, x) && Left(t, x) == Left(s, x);
    }
  }

  // `event_recycle`: put the event back in the free list.
  ghost function Recycle(s: State, x: nat): State
  {
    s.(free := [x] + s.free)
  }

  lemma {:induction false} RecycleKeepsInv(tr: seq<Hwe>, s: State, x: nat)
    requires Inv(tr, s) && x < |tr| && Node(x, Ret) in s.log && x !in s.free
    ensures Inv(tr, Recycle(s, x)) && forall d :: Enabled(Recycle(s, x), d) ==> Enabled(s, d)
  {
    var t := Recycle(s, x);
    forall d ensures StageAt(t, d) { assert StageAt(s, d); }
    FramedCross(s, t);
    FramedFifos(s, t);
    FramedInitPuts(tr, s, t);
    RecycleEvents(tr, s, x);
  }

  lemma {:induction false} RecycleEvents(tr: seq<Hwe>, s: State, x: nat)
    requires Shape(tr, s) && Events(tr, s) && Runs(tr, s) && Node(x, Ret) in s.log
    ensures Events(tr, Recycle(s, x)) && Runs(tr, Recycle(s, x))
  {
    var t := Recycle(s, x);
    forall y | 0 <= y < |tr| ensures EventAt(tr, t, y) && RunAt(tr, t, y) {
      assert EventAt(tr, s, y) && RunAt(tr, s, y);
      assert Left(t, y) == Left(s, y) && Fol(t, y) == Fol(s, y);
    }
  }
}
