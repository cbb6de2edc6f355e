/**
 The event handler itself: the mutually recursive checks of
 lib/decopus/trace/include/hwe_handle_implem.h as methods of one object.

 No check tests whether its own callback has already run.  The contracts below establish that this
 is not needed: the invariant makes every counter the number of outstanding blockers, so a check is
 only ever called on a stage that has not run.
 */
module EventHandler {
  import opened EventState
  import opened EventSteps
  import opened EventCommit
  import opened EventLinks

  datatype Truth = Yes | No

  ghost function TruthOf(p: bool): Truth { if p then Yes else No }

  // The same as `p`, as one fact rather than part by part.
  ghost predicate Whole(p: bool) { TruthOf(p) == Yes }

  // Stages that have not run yet; each callback makes this set smaller.
  ghost function Unrun(n: nat, log: seq<Node>): set<Node>
  {
    set x, st | 0 <= x < n && st in {Init, Go, Ret} && Node(x, st) !in log :: Node(x, st)
  }

  // What every check establishes, from any state that satisfies the invariant.
  ghost predicate Checked(tr: seq<Hwe>, s: State, t: State, d: Node)
  {
    Whole(Inv(tr, t)) && Whole(Keeps(s, t)) && t.active == s.active && Settles(s, t, d)
  }

  // Stage `a` fired after state `s0` and is being unlocked in state `s`.
  ghost predicate Unlocking(tr: seq<Hwe>, s0: State, s: State, a: Node)
  {
    && Whole(Inv(tr, s)) && Whole(Keeps(s0, s)) && Settles(s0, s, a)
    && a.ev < |tr| && a.stage != Trace && a !in s0.log && a in s.log
    && a !in s0.active && s.active == s0.active + {a}
  }

  // Unlocking the list of a 'ret' stage does not touch the references it has released.
  ghost predicate Retained(s: State, t: State, a: Node)
  {
    a.stage == Ret ==> Left(t, a.ev) == Left(s, a.ev) && (a.ev in t.free <==> a.ev in s.free)
  }

  lemma FireUnlocks(tr: seq<Hwe>, s: State, d: Node)
    requires WellFormed(tr) && Inv(tr, s) && Enabled(s, d)
    ensures Unlocking(tr, s, Fire(s, d), d)
    ensures Unrun(|tr|, Fire(s, d).log) < Unrun(|tr|, s.log)
  {
    FireKeepsInv(tr, s, d);
    assert StageAt(s, d);
    assert d in Unrun(|tr|, s.log) && d !in Unrun(|tr|, Fire(s, d).log);
  }

  lemma UnrunShrinks(n: nat, l: seq<Node>, l': seq<Node>)
    requires l <= l'
    ensures Unrun(n, l') <= Unrun(n, l)
  {
  }

  // A pop followed by a check of the popped stage is a step of the unlocking.
  lemma UnlockStep(tr: seq<Hwe>, s0: State, s: State, t: State, u: State, a: Node, d: Node)
    requires Unlocking(tr, s0, s, a) && Keeps(s0, t) && EnablesOnly(s, t, d) && t.active == s.active && t.log == s.log
    requires Checked(tr, t, u, d)
    ensures Unlocking(tr, s0, u, a)
  {
    KeepsTransitive(s0, t, u);
  }

  // A check leaves the lists of a stage that has run alone.
  lemma CheckedKeeps(tr: seq<Hwe>, t: State, u: State, a: Node, b: Node)
    requires Checked(tr, t, u, b) && a in t.log && a.ev < |t.ev|
    ensures Usr(u, a) == Usr(t, a) && t.log <= u.log && Retained(t, u, a)
  {
    assert KeepsAt(t, u, a.ev);
  }

  lemma PopBarrierKeeps(s0: State, s: State, a: Node, b: Node)
    requires Keeps(s0, s) && a !in s0.log && a in s.log
    requires Usr(s, a) != []
    ensures Keeps(s0, PopBarrier(s, a, b))
  {
    var t := PopBarrier(s, a, b);
    forall x | 0 <= x < |s0.ev| ensures KeepsAt(s0, t, x) {
      assert KeepsAt(s0, s, x);
      assert Missing(t, x) == Missing(s, x) && Pend(t, x) == Pend(s, x) && Left(t, x) == Left(s, x)
        && Fol(t, x) == Fol(s, x);
    }
    assert forall f :: PutsOf(t, f) == PutsOf(s, f);
  }

  lemma PopMemberKeeps(s0: State, s: State, a: Node, f: Fifo)
    requires Keeps(s0, s) && a !in s0.log && a in s.log && Usr(s, a) != []
    ensures Keeps(s0, PopMember(s, a, f))
  {
    var t := PopMember(s, a, f);
    forall x | 0 <= x < |s0.ev| ensures KeepsAt(s0, t, x) {
      assert KeepsAt(s0, s, x);
      assert Missing(t, x) == Missing(s, x) && Pend(t, x) == Pend(s, x) && Left(t, x) == Left(s, x)
        && Fol(t, x) == Fol(s, x);
    }
    assert forall g :: PutsOf(t, g) == PutsOf(s, g);
  }

  lemma PopFollowerKeeps(s0: State, s: State, t: State, x: nat)
    requires Keeps(s0, s) && Fol(s, x) != [] && FollowerPopped(s, t, x) && Node(x, Go) !in s0.log
    requires Node(x, Go) in s.log
    ensures Keeps(s0, t)
  {
    forall y | 0 <= y < |s0.ev| ensures KeepsAt(s0, t, y) {
      assert KeepsAt(s0, s, y);
      assert Missing(t, y) == Missing(s, y) && Pend(t, y) == Pend(s, y) && Left(t, y) == Left(s, y);
      assert y != x ==> Fol(t, y) == Fol(s, y);
    }
    assert forall g :: PutsOf(t, g) == PutsOf(s, g);
  }

  lemma PopRefKeeps(s0: State, s: State, t: State, x: nat)
    requires Keeps(s0, s) && Left(s, x) != [] && RefPopped(s, t, x) && Node(x, Ret) !in s0.log
    ensures Keeps(s0, t)
  {
    forall y | 0 <= y < |s0.ev| ensures KeepsAt(s0, t, y) {
      assert KeepsAt(s0, s, y);
      assert Missing(t, y) == Missing(s, y) && Pend(t, y) == Pend(s, y) && Fol(t, y) == Fol(s, y);
      assert y != x ==> Left(t, y) == Left(s, y);
    }
    assert forall g :: PutsOf(t, g) == PutsOf(s, g);
  }

  lemma FinishKeeps(s0: State, s: State, a: Node)
    requires Keeps(s0, s)
    ensures Keeps(s0, Finish(s, a))
  {
    var t := Finish(s, a);
    forall y | 0 <= y < |s0.ev| ensures KeepsAt(s0, t, y) {
      assert KeepsAt(s0, s, y);
      assert Missing(t, y) == Missing(s, y) && Pend(t, y) == Pend(s, y) && Fol(t, y) == Fol(s, y)
        && Left(t, y) == Left(s, y);
    }
    assert forall g :: PutsOf(t, g) == PutsOf(s, g);
  }

  // Ending the stage, then checking the next one, completes the check.
  lemma FinishStep(tr: seq<Hwe>, s0: State, s: State, u: State, a: Node)
    requires Unlocking(tr, s0, s, a) && Checked(tr, Finish(s, a), u, NextStage(a))
    requires EnablesOnly(s, Finish(s, a), NextStage(a))
    ensures Checked(tr, s0, u, a)
  {
    var t := Finish(s, a);
    FinishKeeps(s0, s, a);
    KeepsTransitive(s0, t, u);
  }

  // Ending the last stage completes its check.
  lemma FinishLast(tr: seq<Hwe>, s0: State, s: State, a: Node)
    requires Unlocking(tr, s0, s, a) && Whole(Inv(tr, Finish(s, a))) && EnablesOnly(s, Finish(s, a), NextStage(a))
    requires a.stage == Ret
    requires !Enabled(Finish(s, a), NextStage(a))
    ensures Checked(tr, s0, Finish(s, a), a)
  {
    FinishKeeps(s0, s, a);
  }

  // Commits and later stages make no put.
  lemma ScriptSkips(tr: seq<Hwe>, puts: map<Fifo, seq<Node>>, log: seq<Node>, d: Node)
    requires UserPuts(tr, puts, log) && d.stage != Init
    ensures UserPuts(tr, puts, log + [d])
  {
    forall k ensures PutsIn(puts, UserFifo(k)) == Script(tr, log + [d], k) {
      assert PutsIn(puts, UserFifo(k)) == Script(tr, log, k);
      assert (log + [d])[..|log|] == log;
    }
  }

  lemma InitPutUnseen(tr: seq<Hwe>, puts: map<Fifo, seq<Node>>, puts': map<Fifo, seq<Node>>, log: seq<Node>, c: nat)
    requires UserPuts(tr, puts, log) && InitFifo(c) in puts' && puts' == puts[InitFifo(c) := puts'[InitFifo(c)]]
    ensures UserPuts(tr, puts', log)
  {
    forall k ensures PutsIn(puts', UserFifo(k)) == Script(tr, log, k) {
      assert PutsIn(puts, UserFifo(k)) == Script(tr, log, k);
    }
  }

  lemma PutGrows(puts: map<Fifo, seq<Node>>, puts': map<Fifo, seq<Node>>, e: nat, ps: seq<Put>, i: nat, k: nat,
                 sc: seq<Node>)
    requires i < |ps| && PutsIn(puts, UserFifo(k)) == sc + PutsBy(e, ps[..i], k)
    requires puts' == puts[UserFifo(ps[i].fifo) := PutsIn(puts, UserFifo(ps[i].fifo)) + [Node(e, ps[i].stage)]]
    ensures PutsIn(puts', UserFifo(k)) == sc + PutsBy(e, ps[..i+1], k)
  {
    assert ps[..i+1][..i] == ps[..i];
    if ps[i].fifo == k {
      assert (sc + PutsBy(e, ps[..i], k)) + [Node(e, ps[i].stage)]
        == sc + (PutsBy(e, ps[..i], k) + [Node(e, ps[i].stage)]);
    } else {
      assert PutsBy(e, ps[..i], k) + [] == PutsBy(e, ps[..i], k);
    }
  }

  // The user fifos hold the puts of the history `log` and the first `i` puts of event `e`.
  ghost predicate PartScript(tr: seq<Hwe>, log: seq<Node>, puts: map<Fifo, seq<Node>>, e: nat, i: nat)
    requires e < |tr| && i <= |tr[e].puts|
  {
    forall k :: PutsIn(puts, UserFifo(k)) == Script(tr, log, k) + PutsBy(e, tr[e].puts[..i], k)
  }

  lemma ScriptBegins(tr: seq<Hwe>, log: seq<Node>, puts: map<Fifo, seq<Node>>, e: nat)
    requires e < |tr| && Whole(UserPuts(tr, puts, log))
    ensures Whole(PartScript(tr, log, puts, e, 0))
  {
    forall k ensures PutsIn(puts, UserFifo(k)) == Script(tr, log, k) + PutsBy(e, tr[e].puts[..0], k) {
      assert Script(tr, log, k) + [] == Script(tr, log, k);
    }
  }

  lemma ScriptGrows(tr: seq<Hwe>, log: seq<Node>, puts: map<Fifo, seq<Node>>, puts': map<Fifo, seq<Node>>, e: nat,
                    i: nat)
    requires e < |tr| && i < |tr[e].puts| && Whole(PartScript(tr, log, puts, e, i))
    requires
      var p := tr[e].puts[i];
      puts' == puts[UserFifo(p.fifo) := PutsIn(puts, UserFifo(p.fifo)) + [Node(e, p.stage)]]
    ensures Whole(PartScript(tr, log, puts', e, i + 1))
  {
    forall k ensures PutsIn(puts', UserFifo(k)) == Script(tr, log, k) + PutsBy(e, tr[e].puts[..i+1], k) {
      PutGrows(puts, puts', e, tr[e].puts, i, k, Script(tr, log, k));
    }
  }

  lemma ScriptDone(tr: seq<Hwe>, log: seq<Node>, puts: map<Fifo, seq<Node>>, e: nat)
    requires e < |tr| && Whole(PartScript(tr, log, puts, e, |tr[e].puts|))
    ensures Whole(UserPuts(tr, puts, log + [Node(e, Init)]))
  {
    assert tr[e].puts[..|tr[e].puts|] == tr[e].puts;
    forall k ensures PutsIn(puts, UserFifo(k)) == Script(tr, log + [Node(e, Init)], k) {
      assert PutsIn(puts, UserFifo(k)) == Script(tr, log, k) + PutsBy(e, tr[e].puts, k);
      assert (log + [Node(e, Init)])[..|log|] == log;
    }
  }

  // Registering an event leaves the user fifos and their links alone.
  lemma RegisterHistory(tr: seq<Hwe>, s: State)
    requires Inv(tr, s) && s.n < |tr| && UserPuts(tr, s.puts, s.log) && LinksKnown(s.puts, s.links, s.log)
    ensures var t := Register(tr, s); UserPuts(tr, t.puts, t.log) && LinksKnown(t.puts, t.links, t.log)
  {
    var t, c, e := Register(tr, s), tr[s.n].comp, s.n;
    assert RunAt(tr, s, e);
    var linked := Linked(Arrive(tr, s), InitFifo(c), Node(e, Init));
    InitPutUnseen(tr, s.puts, t.puts, s.log, c);
    ScriptSkips(tr, t.puts, s.log, Node(e, Trace));
    LinksKnownInit(s.puts, s.links, s.log, c, PutsOf(s, InitFifo(c)) + [Node(e, Init)], linked);
    LinksKnownMore(t.puts, t.links, s.log, Node(e, Trace));
  }

  // While the 'init' of an event is being run, its later stages have not run.
  lemma LaterStagesPending(tr: seq<Hwe>, s: State, e: nat)
    requires Inv(tr, s) && e < |tr| && Node(e, Init) in s.active
    ensures Node(e, Go) !in s.log && Node(e, Ret) !in s.log && e < s.n
  {
    assert StageAt(s, Node(e, Init)) && StageAt(s, Node(e, Go)) && RunAt(tr, s, e) && EventAt(tr, s, e);
  }

  // A put made by the 'init' callback of `e`.
  lemma {:induction false} PutUnlocks(tr: seq<Hwe>, s0: State, s: State, e: nat, p: Put)
    requires Unlocking(tr, s0, s, Node(e, Init)) && OnlyInit(s.active) && s.log == s0.log + [Node(e, Init)]
    requires Whole(LinksKnown(s.puts, s.links, s.log)) && (p.stage == Go || p.stage == Ret)
    requires Node(e, Go) !in s.log && Node(e, Ret) !in s.log && e < s.n
    ensures var f, d := UserFifo(p.fifo), Node(e, p.stage);
      var t := PutInFifo(s, f, d);
      && Unlocking(tr, s0, t, Node(e, Init)) && t.log == s.log && t.active == s.active
      && Whole(LinksKnown(t.puts, t.links, t.log)) && t.puts == s.puts[f := PutsIn(s.puts, f) + [d]]
  {
    var f, d := UserFifo(p.fifo), Node(e, p.stage);
    UserPutKeepsInv(tr, s, p.fifo, d);
    LinkedIff(tr, s, f, d);
    LinksKnownPut(s.puts, s.links, s.log, p.fifo, d, Linked(s, f, d));
    PutInFifoEffect(s, f, d);
    KeepsTransitive(s0, s, PutInFifo(s, f, d));
  }

  lemma RecycleKeeps(tr: seq<Hwe>, s0: State, s: State, x: nat)
    requires Unlocking(tr, s0, s, Node(x, Ret)) && Inv(tr, Recycle(s, x))
    requires forall d :: Enabled(Recycle(s, x), d) ==> Enabled(s, d)
    ensures Unlocking(tr, s0, Recycle(s, x), Node(x, Ret))
  {
    var t := Recycle(s, x);
    forall y | 0 <= y < |s0.ev| ensures KeepsAt(s0, t, y) {
      assert KeepsAt(s0, s, y);
      assert Fol(t, y) == Fol(s, y) && Left(t, y) == Left(s, y);
    }
    assert forall g :: PutsOf(t, g) == PutsOf(s, g);
  }

  // When 'ret' runs, all references are still held and the event has not been recycled.
  lemma HoldsRefs(tr: seq<Hwe>, s: State, e: nat)
    requires Inv(tr, s) && Enabled(s, Node(e, Ret)) && e < |tr|
    ensures Left(s, e) == tr[e].refs && e !in s.free
  {
    RanInOrder(tr, s, Node(e, Go));
    assert StageAt(s, Node(e, Go)) && RunAt(tr, s, e) && EventAt(tr, s, e);
  }

  ghost function Start(tr: seq<Hwe>): State
  {
    State(seq(|tr|, _ => NEW_EVENT), map[], seq(|tr|, _ => NO_BLOCKERS), map[],
          seq(|tr|, _ => []), map[], map[], {}, [], [], {}, 0)
  }

  lemma StartKeepsInv(tr: seq<Hwe>)
    ensures Inv(tr, Start(tr)) && Idle(Start(tr)) && Quiet(Start(tr))
  {
    var s := Start(tr);
    forall x | 0 <= x < |tr| ensures EventAt(tr, s, x) && RunAt(tr, s, x) { RefCountNone(s.reg, x); }
    forall c ensures CompNodes(tr, 0, c) == PutsOf(s, InitFifo(c)) {}
  }

  class Handler {
    // The containers handed to the handler, by event.
    const trace: seq<Hwe>

    var ev: seq<Event>
    var stg: map<Node, EventStage>
    var fifo: map<Fifo, Node>
    var free: seq<nat>

    ghost var bl: seq<Blockers>
    ghost var bys: map<Node, multiset<Node>>
    ghost var reg: seq<seq<nat>>
    ghost var puts: map<Fifo, seq<Node>>
    ghost var links: set<(Node, Node)>
    ghost var log: seq<Node>
    ghost var active: set<Node>
    ghost var n: nat

    ghost function S(): State
      reads this
    {
      State(ev, stg, bl, bys, reg, fifo, puts, links, free, log, active, n)
    }

    ghost predicate Valid()
      reads this
    {
      && WellFormed(trace) && Whole(Inv(trace, S()))
      && Whole(UserPuts(trace, puts, log)) && Whole(LinksKnown(puts, links, log))
    }

    // ---------------------------------------------------------------------------------------
    // free_barrier and the unlocking loops

    /** Drop the head of the list of `a`, which blocks stage `b`: the updates of the tables. */
    method PopHead(a: Node, b: Node)
      requires Usr(S(), a) != []
      modifies this`stg, this`bys
      ensures S() == PopBarrier(old(S()), a, b)
    {
      ghost var rest := By(S(), b) - multiset{a};
      stg := SetList(stg, a, StageOf(stg, a).usrfol[1..]);
      stg := AddCnt(stg, b, -1);
      bys := bys[b := rest];
    }

    /** Consume the head of the list of `a`: one blocker less for stage `b`. */
    method TakeBarrier(a: Node, b: Node, ghost s0: State)
      requires Valid() && Unlocking(trace, s0, S(), a)
      requires Usr(S(), a) != [] && Usr(S(), a)[0] == Barrier(b)
      modifies this
      ensures Valid() && b.ev < |trace| && b.stage != Trace && (b.stage == Init <==> a.stage == Init) && b !in log
      ensures Keeps(s0, S()) && EnablesOnly(old(S()), S(), b)
      ensures log == old(log) && active == old(active) && Usr(S(), a) == old(Usr(S(), a))[1..]
      ensures Retained(old(S()), S(), a)
    {
      ghost var s := S();
      PopBarrierKeepsInv(trace, s, a, b);
      PopHead(a, b);
      PopBarrierKeeps(s0, s, a, b);
    }

    /** `free_barrier`: decrement the counter of stage `b` and check it. */
    method FreeBarrier(a: Node, b: Node, ghost s0: State)
      requires Valid() && Unlocking(trace, s0, S(), a)
      requires Usr(S(), a) != [] && Usr(S(), a)[0] == Barrier(b)
      requires OnlyInit(active) || a.stage != Init
      modifies this
      ensures Valid() && Unlocking(trace, s0, S(), a)
      ensures Usr(S(), a) == old(Usr(S(), a))[1..] && old(log) <= log && Retained(old(S()), S(), a)
      decreases Unrun(|trace|, log), 2
    {
      ghost var s := S();
      TakeBarrier(a, b, s0);
      ghost var t := S();
      CheckStage(b);
      UnlockStep(trace, s0, s, t, S(), a, b);
      CheckedKeeps(trace, t, S(), a, b);
    }

    /** The check of a stage. */
    method CheckStage(b: Node)
      requires Valid() && b.ev < |trace| && b.stage != Trace && b !in log && (b.stage == Init ==> OnlyInit(active))
      modifies this
      ensures Valid() && Checked(trace, old(S()), S(), b)
      decreases Unrun(|trace|, log), 1
    {
      match b.stage {
        case Init => CheckInit(b.ev);
        case Go => CheckGo(b.ev);
        case Ret => CheckRet(b.ev);
      }
    }

    /** `rm_frfifo`: consume the head of the list of `a`, its membership in `f`. */
    method RmFrFifo(a: Node, f: Fifo, ghost s0: State)
      requires Valid() && Unlocking(trace, s0, S(), a)
      requires Usr(S(), a) != [] && Usr(S(), a)[0] == Member(f)
      modifies this
      ensures Valid() && Unlocking(trace, s0, S(), a)
      ensures Usr(S(), a) == old(Usr(S(), a))[1..] && log == old(log) && Retained(old(S()), S(), a)
    {
      ghost var s := S();
      PopMemberKeepsInv(trace, s, a, f);
      PopMemberKeeps(s0, s, a, f);
      stg := SetList(stg, a, StageOf(stg, a).usrfol[1..]);
      if f in fifo && fifo[f].ev == a.ev {
        fifo := fifo - {f};
      }
      assert S() == PopMember(s, a, f);
    }

    /** The loop over the `usrfol` list of a stage whose callback has just run. */
    method Unlock(a: Node, ghost s0: State)
      requires Valid() && Unlocking(trace, s0, S(), a)
      requires OnlyInit(active) || a.stage != Init
      modifies this
      ensures Valid() && Unlocking(trace, s0, S(), a)
      ensures Usr(S(), a) == [] && old(log) <= log && Retained(old(S()), S(), a)
      decreases Unrun(|trace|, log), 3
    {
      while StageOf(stg, a).usrfol != []
        invariant Valid() && Unlocking(trace, s0, S(), a)
        invariant old(log) <= log && Retained(old(S()), S(), a)
        decreases |Usr(S(), a)|
      {
        UnrunShrinks(|trace|, old(log), log);
        var ptr := StageOf(stg, a).usrfol[0];
        match ptr {
          case Barrier(b) => FreeBarrier(a, b, s0);
          case Member(f) => RmFrFifo(a, f, s0);
        }
      }
    }

    // ---------------------------------------------------------------------------------------
    // put_infifo and the 'init' callback

    /** `put_infifo`, with the `set_barrier` it makes behind the queue of the fifo. */
    method PutInfifo(f: Fifo, d: Node)
      modifies this
      ensures S() == PutInFifo(old(S()), f, d)
    {
      ghost var s := S();
      ghost var linked := Linked(s, f, d);
      if f in fifo {
        stg := SetList(stg, fifo[f], [Barrier(d)] + StageOf(stg, fifo[f]).usrfol);
        stg := AddCnt(stg, d, 1);
        bys := bys[d := By(s, d) + multiset{fifo[f]}];
      }
      fifo := fifo[f := d];
      stg := SetList(stg, d, [Member(f)] + StageOf(stg, d).usrfol);
      puts := puts[f := PutsOf(s, f) + [d]];
      links := links + linked;
    }

    /** Put `i` of the 'init' callback of `e`. */
    method MakePut(e: nat, i: nat, ghost s0: State)
      requires WellFormed(trace) && Unlocking(trace, s0, S(), Node(e, Init)) && OnlyInit(active) && i < |trace[e].puts|
      requires log == s0.log + [Node(e, Init)] && Whole(LinksKnown(puts, links, log))
      modifies this
      ensures Unlocking(trace, s0, S(), Node(e, Init)) && log == old(log) && active == old(active)
      ensures Whole(LinksKnown(puts, links, log))
      ensures var p := trace[e].puts[i];
              puts == old(puts)[UserFifo(p.fifo) := PutsIn(old(puts), UserFifo(p.fifo)) + [Node(e, p.stage)]]
    {
      ghost var s := S();
      var p := trace[e].puts[i];
      assert p in trace[e].puts;
      LaterStagesPending(trace, s, e);
      PutUnlocks(trace, s0, s, e, p);
      PutInfifo(UserFifo(p.fifo), Node(e, p.stage));
    }

    /** The puts of the 'init' callback of `e` from the `i`-th on. */
    method MakePuts(e: nat, i: nat, ghost s0: State)
      requires WellFormed(trace) && Unlocking(trace, s0, S(), Node(e, Init)) && OnlyInit(active) && i <= |trace[e].puts|
      requires log == s0.log + [Node(e, Init)] && Whole(LinksKnown(puts, links, log))
      requires Whole(PartScript(trace, s0.log, puts, e, i))
      modifies this
      ensures Valid() && Unlocking(trace, s0, S(), Node(e, Init)) && log == old(log) && active == old(active)
      decreases |trace[e].puts| - i
    {
      if i < |trace[e].puts| {
        ghost var before := puts;
        MakePut(e, i, s0);
        ScriptGrows(trace, s0.log, before, puts, e, i);
        MakePuts(e, i + 1, s0);
      } else {
        ScriptDone(trace, s0.log, puts, e);
      }
    }

    /** The 'init' callback of `e`, seen from the handler: the puts it makes. */
    method InitCallback(e: nat, ghost s0: State)
      requires WellFormed(trace) && Unlocking(trace, s0, S(), Node(e, Init)) && OnlyInit(active)
      requires log == s0.log + [Node(e, Init)] && Whole(UserPuts(trace, puts, s0.log))
      requires Whole(LinksKnown(puts, links, log))
      modifies this
      ensures Valid() && Unlocking(trace, s0, S(), Node(e, Init)) && log == old(log) && active == old(active)
    {
      ScriptBegins(trace, s0.log, puts, e);
      MakePuts(e, 0, s0);
    }

    // ---------------------------------------------------------------------------------------
    // The checks

    /** Run the callback of an enabled stage. */
    method Run(d: Node)
      requires Valid() && Enabled(S(), d)
      modifies this`log, this`active
      ensures WellFormed(trace) && Unlocking(trace, old(S()), S(), d) && log == old(log) + [d] && puts == old(puts)
      ensures d.stage != Init ==> Valid()
      ensures Whole(LinksKnown(puts, links, log)) && links == old(links)
      ensures Unrun(|trace|, log) < Unrun(|trace|, old(log))
    {
      FireUnlocks(trace, S(), d);
      LinksKnownMore(puts, links, log, d);
      log, active := log + [d], active + {d};
      assert S() == Fire(old(S()), d);
      if d.stage != Init { ScriptSkips(trace, puts, old(log), d); }
    }

    /** Mark a stage as done (`ret` has no such mark). */
    method End(d: Node)
      requires Valid() && d in active && d.ev < |trace| && d.stage != Trace && Unlocked(S(), d)
      modifies this
      ensures Valid() && S() == Finish(old(S()), d) && EnablesOnly(old(S()), S(), NextStage(d))
      ensures d.stage != Ret ==> NextStage(d) !in log
    {
      ghost var s := S();
      FinishKeepsInv(trace, s, d);
      if d.stage != Ret {
        stg := SetDone(stg, d);
      }
      active := active - {d};
      assert S() == Finish(s, d);
    }

    /** `check_init` */
    method CheckInit(e: nat)
      requires Valid() && e < |trace| && Node(e, Init) !in log && OnlyInit(active)
      modifies this
      ensures Valid() && Checked(trace, old(S()), S(), Node(e, Init))
      decreases Unrun(|trace|, log), 0
    {
      ghost var s0 := S();
      if !ev[e].commited || ev[e].missref != 0 {
        return;
      }
      if StageOf(stg, Node(e, Init)).cnt != 0 {
        return;
      }
      Run(Node(e, Init));
      ghost var l := log;
      InitCallback(e, s0);
      Unlock(Node(e, Init), s0);
      UnrunShrinks(|trace|, l, log);
      ghost var s := S();
      End(Node(e, Init));
      CheckGo(e);
      FinishStep(trace, s0, s, S(), Node(e, Init));
    }

    /** `check_go` */
    method CheckGo(e: nat)
      requires Valid() && e < |trace| && Node(e, Go) !in log
      modifies this
      ensures Valid() && Checked(trace, old(S()), S(), Node(e, Go))
      decreases Unrun(|trace|, log), 0
    {
      ghost var s0 := S();
      if !StageOf(stg, Node(e, Init)).done {
        return;
      }
      if StageOf(stg, Node(e, Go)).cnt != 0 {
        return;
      }
      Run(Node(e, Go));
      ghost var l := log;
      Unlock(Node(e, Go), s0);
      UnrunShrinks(|trace|, l, log);
      UnlockFollowers(e, s0);
      UnrunShrinks(|trace|, l, log);
      ghost var s := S();
      End(Node(e, Go));
      CheckRet(e);
      FinishStep(trace, s0, s, S(), Node(e, Go));
    }

    /** Consume the head of the `followers` list: one blocker less for the follower's 'go'. */
    method TakeFollower(e: nat, ghost s0: State) returns (f: nat)
      requires Valid() && Unlocking(trace, s0, S(), Node(e, Go)) && Fol(S(), e) != []
      modifies this
      ensures Valid() && f < |trace| && Node(f, Go) !in log && f == old(Fol(S(), e))[0]
      ensures Fol(S(), e) == old(Fol(S(), e))[1..]
      ensures Keeps(s0, S()) && EnablesOnly(old(S()), S(), Node(f, Go))
      ensures log == old(log) && active == old(active) && Usr(S(), Node(e, Go)) == old(Usr(S(), Node(e, Go)))
    {
      ghost var s := S();
      PopFollowerKeepsInv(trace, s, e);
      f := ev[e].followers[0];
      ghost var rest := GoRef(s, f) - multiset{e};
      stg := AddCnt(stg, Node(f, Go), -1);
      ev := ev[e := ev[e].(followers := ev[e].followers[1..])];
      bl := bl[f := bl[f].(goRef := rest)];
      assert S() == PopFollower(s, e);
      PopFollowerKeeps(s0, s, S(), e);
    }

    /** The loop over the reverse references in `check_go`. */
    method UnlockFollowers(e: nat, ghost s0: State)
      requires Valid() && Unlocking(trace, s0, S(), Node(e, Go)) && Usr(S(), Node(e, Go)) == []
      modifies this
      ensures Valid() && Unlocking(trace, s0, S(), Node(e, Go)) && Usr(S(), Node(e, Go)) == []
      ensures Fol(S(), e) == [] && old(log) <= log
      decreases Unrun(|trace|, log), 2
    {
      while ev[e].followers != []
        invariant Valid() && Unlocking(trace, s0, S(), Node(e, Go)) && Usr(S(), Node(e, Go)) == []
        invariant old(log) <= log
        decreases |Fol(S(), e)|
      {
        UnrunShrinks(|trace|, old(log), log);
        ghost var s := S();
        var f := TakeFollower(e, s0);
        ghost var t := S();
        CheckGo(f);
        UnlockStep(trace, s0, s, t, S(), Node(e, Go), Node(f, Go));
        assert KeepsAt(t, S(), e);
      }
    }

    /** `check_ret` */
    method CheckRet(e: nat)
      requires Valid() && e < |trace| && Node(e, Ret) !in log
      modifies this
      ensures Valid() && Checked(trace, old(S()), S(), Node(e, Ret))
      decreases Unrun(|trace|, log), 0
    {
      ghost var s0 := S();
      if !StageOf(stg, Node(e, Go)).done || ev[e].missfol != 0 {
        return;
      }
      if StageOf(stg, Node(e, Ret)).cnt != 0 {
        return;
      }
      HoldsRefs(trace, s0, e);
      Run(Node(e, Ret));
      ghost var l := log;
      ReleaseRefs(e, s0);
      UnrunShrinks(|trace|, l, log);
      Unlock(Node(e, Ret), s0);
      ghost var s := S();
      End(Node(e, Ret));
      FinishLast(trace, s0, s, Node(e, Ret));
    }

    /** Release one reference: one blocker less for its 'ret'. */
    method ReleaseRef(e: nat, r: nat, ghost s0: State)
      requires Valid() && Unlocking(trace, s0, S(), Node(e, Ret)) && Left(S(), e) != [] && r == Left(S(), e)[0]
      modifies this
      ensures Valid() && r < |trace| && Node(r, Ret) !in log && Left(S(), e) == old(Left(S(), e))[1..]
      ensures Keeps(s0, S()) && EnablesOnly(old(S()), S(), Node(r, Ret))
      ensures log == old(log) && active == old(active) && free == old(free)
    {
      ghost var s := S();
      PopRefKeepsInv(trace, s, e);
      PopRefEffect(s, e);
      bl := Released(bl, e, r);
      stg := AddCnt(stg, Node(r, Ret), -1);
      assert S() == PopRef(s, e);
      PopRefKeeps(s0, s, S(), e);
    }

    /** The loop over the references in `check_ret`, followed by `event_recycle`. */
    method ReleaseRefs(e: nat, ghost s0: State)
      requires Valid() && Unlocking(trace, s0, S(), Node(e, Ret))
      requires Left(S(), e) == trace[e].refs && e !in free
      modifies this
      ensures Valid() && Unlocking(trace, s0, S(), Node(e, Ret))
      ensures Left(S(), e) == [] && e in free && old(log) <= log
      decreases Unrun(|trace|, log), 2
    {
      for i := 0 to |trace[e].refs|
        invariant Valid() && Unlocking(trace, s0, S(), Node(e, Ret))
        invariant Left(S(), e) == trace[e].refs[i..] && e !in free && old(log) <= log
      {
        UnrunShrinks(|trace|, old(log), log);
        ghost var s := S();
        var r := trace[e].refs[i];
        ReleaseRef(e, r, s0);
        ghost var t := S();
        CheckRet(r);
        UnlockStep(trace, s0, s, t, S(), Node(e, Ret), Node(r, Ret));
        assert KeepsAt(t, S(), e);
      }
      ghost var s := S();
      RecycleKeepsInv(trace, s, e);
      free := [e] + free;
      assert S() == Recycle(s, e);
      RecycleKeeps(trace, s0, s, e);
    }


    // ---------------------------------------------------------------------------------------
    // handle_event

    constructor (tr: seq<Hwe>)
      requires WellFormed(tr)
      ensures Valid() && trace == tr && S() == Start(tr) && Idle(S()) && Quiet(S())
    {
      trace := tr;
      ev := seq(|tr|, _ => NEW_EVENT);
      fifo := map[];
      free := [];
      stg := map[];
      bl := seq(|tr|, _ => NO_BLOCKERS);
      bys := map[];
      reg := seq(|tr|, _ => []);
      puts := map[];
      links := {};
      log := [];
      active := {};
      n := 0;
      new;
      assert S() == Start(tr);
      StartKeepsInv(tr);
    }

    /** `e` waits for the commit of `r`, unless it is committed. */
    method NoteMissing(e: nat, r: nat)
      requires e < |ev| && r < |ev| && |bl| == |ev|
      modifies this`ev, this`bl
      ensures |ev| == |old(ev)| && |bl| == |ev|
      ensures forall y :: MissesAt(old(S()), S(), e, r, y)
    {
      if !ev[r].commited {
        ev := ev[e := ev[e].(missref := ev[e].missref + 1)];
        bl := Missed(bl, e, r);
      }
    }

    /** `e` waits for the 'go' of `r`, unless it is done. */
    method NoteFollower(e: nat, r: nat)
      requires e < |ev| && r < |ev| && |bl| == |ev|
      modifies this`ev, this`stg, this`bl
      ensures |ev| == |old(ev)| && |bl| == |ev|
      ensures stg == if old(Done(S(), Node(r, Go))) then old(stg) else AddCnt(old(stg), Node(e, Go), 1)
      ensures forall y :: FollowsAt(old(S()), S(), e, r, y)
    {
      if !StageOf(stg, Node(r, Go)).done {
        ev := ev[r := ev[r].(followers := [e] + ev[r].followers)];
        stg := AddCnt(stg, Node(e, Go), 1);
        bl := bl[e := bl[e].(goRef := bl[e].goRef + multiset{r})];
      }
    }

    /** `r` waits for the 'ret' of `e`. */
    method NoteHolder(e: nat, r: nat)
      requires e < |ev| && r < |ev| && |bl| == |ev|
      modifies this`ev, this`stg, this`bl
      ensures |ev| == |old(ev)| && |bl| == |ev| && stg == AddCnt(old(stg), Node(r, Ret), 1)
      ensures forall y :: HoldsAt(old(S()), S(), e, r, y)
    {
      ghost var s := S();
      ev := ev[r := ev[r].(missfol := ev[r].missfol - 1)];
      stg := AddCnt(stg, Node(r, Ret), 1);
      bl := Held(bl, e, r);
      forall y ensures HoldsAt(s, S(), e, r, y) { HeldAt(s, S(), e, r, y); }
    }

    /** Register one reference of the event being handled: the updates of the tables. */
    method RegisterRef(e: nat, r: nat)
      requires e < |ev| && r < |ev| && |bl| == |ev| && |reg| == |ev|
      modifies this
      ensures RefAdded(old(S()), S(), e, r)
    {
      ghost var s := S();
      NoteMissing(e, r);
      ghost var u := S();
      NoteFollower(e, r);
      ghost var v := S();
      NoteHolder(e, r);
      ghost var w := S();
      reg := reg[e := reg[e] + [r]];
      forall y ensures RefAt(s, S(), e, r, y) {
        RefParts(s, u, v, w, S(), e, r, y);
      }
      forall c ensures RefNode(s, S(), e, r, c) {}
    }

    method HandleRef(e: nat, r: nat)
      requires Valid() && AtRef(trace, S(), e, r) && Pend(S(), e) == Fol(S(), e)
      modifies this
      ensures Valid() && S().reg == old(reg)[e := old(reg)[e] + [r]] && Pend(S(), e) == Fol(S(), e)
      ensures log == old(log) && active == old(active) && n == old(n) && !Commited(S(), e) && links == old(links)
      ensures forall a :: Enabled(S(), a) ==> Enabled(old(S()), a)
    {
      ghost var s := S();
      RegisterRef(e, r);
      assert RefAt(s, S(), e, r, e);
      AddRefKeepsInv(trace, s, S(), e, r);
    }

    /** Tell the first follower in `pend` that `e` has arrived. */
    method TellFollower(e: nat, f: nat)
      requires Valid() && e < |trace| && !ev[e].commited && n == e + 1 && Pend(S(), e) != [] && f == Pend(S(), e)[0]
      modifies this
      ensures Valid() && f < |trace| && Node(f, Init) !in log && EnablesOnly(old(S()), S(), Node(f, Init))
      ensures Pend(S(), e) == old(Pend(S(), e))[1..] && !ev[e].commited && ev[e].followers == old(ev[e].followers)
      ensures log == old(log) && active == old(active) && n == old(n) && reg == old(reg) && links == old(links)
    {
      ghost var s := S();
      FollowerMissing(trace, s, e);
      ev := ev[f := ev[f].(missref := ev[f].missref - 1)];
      bl := Told(bl, e, f);
      ToldEffect(s, S(), e, f);
      PendPoppedKeepsInv(trace, s, S(), e);
    }

    /** `handle_event`, for events other than HWE_INFO. */
    method HandleEvent(e: nat)
      requires Valid() && e == n < |trace| && Idle(S()) && Quiet(S())
      modifies this
      ensures Valid() && n == old(n) + 1 && Idle(S()) && Quiet(S()) && old(log) <= log && old(links) <= links
    {
      RegisterEvent(e);
      for i := 0 to |trace[e].refs|
        invariant Valid() && n == e + 1 && active == {} && !ev[e].commited && reg[e] == trace[e].refs[..i]
        invariant old(links) <= links
        invariant Pend(S(), e) == Fol(S(), e) && old(log) <= log && forall d :: !Enabled(S(), d)
      {
        assert trace[e].refs[i] in trace[e].refs;
        HandleRef(e, trace[e].refs[i]);
      }
      var l := ev[e].followers;
      for j := 0 to |l|
        invariant Valid() && n == e + 1 && active == {} && !ev[e].commited && reg[e] == trace[e].refs
        invariant old(links) <= links
        invariant Pend(S(), e) == l[j..] && old(log) <= log && forall d :: !Enabled(S(), d)
      {
        TellFollower(e, l[j]);
        ghost var t := S();
        CheckInit(l[j]);
        assert KeepsAt(t, S(), e);
      }
      ghost var s := S();
      CommitKeepsInv(trace, s, e);
      ev := ev[e := ev[e].(commited := true)];
      assert S() == Commit(s, e);
      ghost var t := S();
      CheckInit(e);
      forall x | 0 <= x < n ensures Commited(S(), x) { assert KeepsAt(t, S(), x); }
    }

    method RegisterEvent(e: nat)
      requires Valid() && e == n < |trace| && Idle(S()) && Quiet(S())
      modifies this
      ensures Valid() && n == e + 1 && active == {} && !ev[e].commited && reg[e] == []
      ensures Pend(S(), e) == Fol(S(), e) && old(log) <= log && old(links) <= links && forall d :: !Enabled(S(), d)
    {
      ghost var s := S();
      RegisterKeepsInv(trace, s);
      ev := ev[e := ev[e].(missfol := ev[e].missfol + trace[e].expected)];
      log, n := log + [Node(e, Trace)], n + 1;
      assert S() == Arrive(trace, s);
      PutInfifo(InitFifo(trace[e].comp), Node(e, Init));
      assert S() == Register(trace, s);
      RegisterHistory(trace, s);
    }
  }
}
