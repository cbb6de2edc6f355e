/**
 A trace whose first event puts both its 'go' and its 'ret' in one fifo.  Once its 'go' has run, the
 fifo queue is null although the 'ret' has still to run, so the next put passes over it: the 'go' of
 the second event runs before the 'ret' that was put before it.
 */
module EventDoublePut {
  import opened EventState
  import opened EventSteps
  import opened EventCommit
  import opened EventLinks
  import opened EventHandler
  import opened EventTheorems

  const DOUBLE_PUT := [Hwe(0, [], 1, [Put(0, Go), Put(0, Ret)]), Hwe(1, [], 0, [Put(0, Go)]), Hwe(2, [0], 0, [])]

  lemma RefCountMore(l: seq<seq<nat>>, q: seq<nat>, x: nat)
    ensures RefCount(l + [q], x) == RefCount(l, x) + multiset(q)[x]
  {
    assert (l + [q])[..|l|] == l;
  }

  lemma DoublePutWellFormed()
    ensures WellFormed(DOUBLE_PUT)
  {
    var none: seq<seq<nat>> := [];
    var r := Refs(DOUBLE_PUT);
    assert r == none + [[]] + [[]] + [[0]];
    forall x | 0 <= x < 3 ensures DOUBLE_PUT[x].expected == RefCount(r, x) {
      RefCountMore(none, [], x);
      RefCountMore(none + [[]], [], x);
      RefCountMore(none + [[]] + [[]], [0], x);
    }
    forall x, r | 0 <= x < 3 && r in DOUBLE_PUT[x].refs ensures r < 3 {}
    forall x, p | 0 <= x < 3 && p in DOUBLE_PUT[x].puts ensures p.stage == Go || p.stage == Ret {}
  }

  // A state of the handler after the first `m` events of `DOUBLE_PUT`.
  ghost predicate At(s: State, m: nat)
  {
    && Inv(DOUBLE_PUT, s) && Idle(s) && Quiet(s) && s.n == m
    && UserPuts(DOUBLE_PUT, s.puts, s.log) && LinksKnown(s.puts, s.links, s.log)
  }

  // ---------------------------------------------------------------------------------------------
  // Puts

  lemma ScriptMore(l: seq<Node>, d: Node, k: nat)
    ensures Script(DOUBLE_PUT, l + [d], k)
         == Script(DOUBLE_PUT, l, k)
            + if d.stage == Init && d.ev < 3 then PutsBy(d.ev, DOUBLE_PUT[d.ev].puts, k) else []
  {
    assert (l + [d])[..|l|] == l;
  }

  lemma {:induction false} ScriptTail(a: seq<Node>, b: seq<Node>, k: nat, x: nat)
    requires x < 3 && multiset(b)[Node(x, Init)] <= 1
    requires forall d :: d in b && d.stage == Init ==> d.ev == x
    ensures Script(DOUBLE_PUT, a + b, k)
         == Script(DOUBLE_PUT, a, k) + if Node(x, Init) in b then PutsBy(x, DOUBLE_PUT[x].puts, k) else []
    decreases |b|
  {
    if b == [] {
      assert a + b == a;
    } else {
      var c, d := b[..|b|-1], b[|b|-1];
      assert b == c + [d];
      assert a + b == (a + c) + [d];
      ScriptTail(a, c, k, x);
      ScriptMore(a + c, d, k);
      var p := Script(DOUBLE_PUT, a, k);
      assert p + [] == p;
    }
  }

  lemma Puts(k: nat)
    ensures PutsBy(0, DOUBLE_PUT[0].puts, k) == if k == 0 then [Node(0, Go), Node(0, Ret)] else []
    ensures PutsBy(1, DOUBLE_PUT[1].puts, k) == if k == 0 then [Node(1, Go)] else []
    ensures PutsBy(2, DOUBLE_PUT[2].puts, k) == []
  {
    var ps := DOUBLE_PUT[0].puts;
    var one := ps[..1];
    assert one == [Put(0, Go)] && one[..0] == [];
    assert PutsBy(0, one, k) == if k == 0 then [Node(0, Go)] else [];
    assert DOUBLE_PUT[1].puts[..0] == [];
  }

  lemma TailOnce(s: State, log: seq<Node>, d: Node)
    requires Inv(DOUBLE_PUT, s) && log <= s.log
    ensures multiset(s.log[|log|..])[d] <= 1
  {
    RunsOnce(DOUBLE_PUT, s, d);
    assert s.log == log + s.log[|log|..];
  }

  // The history from `log` to that of `s` contains no 'init' but that of event `m`.
  lemma NewInits(s: State, log: seq<Node>, m: nat)
    requires At(s, m + 1) && m < 3 && log <= s.log && forall x :: 0 <= x < m ==> Node(x, Init) in log
    ensures forall d :: d in s.log[|log|..] && d.stage == Init ==> d.ev == m
  {
    forall d | d in s.log[|log|..] && d.stage == Init ensures d.ev == m {
      var i :| |log| <= i < |s.log| && s.log[i] == d;
      assert d.ev < 3 && RunAt(DOUBLE_PUT, s, d.ev) && EventAt(DOUBLE_PUT, s, d.ev);
      assert d !in log;
    }
  }

  lemma NoInitLink(s: State, m: nat, p: Node, x: nat)
    requires At(s, m) && x < 3
    ensures (p, Node(x, Init)) !in s.links
  {
    forall f ensures !Consecutive(PutsIn(s.puts, f), p, Node(x, Init)) {
      assert FifoAt(s, f);
      match f {
        case InitFifo(c) =>
          assert PutsOf(s, InitFifo(c)) == CompNodes(DOUBLE_PUT, s.n, c);
          OneEach(s.n, c);
        case UserFifo(k) =>
      }
    }
    assert (p, Node(x, Init)) in s.links ==> LinkOk(s, p, Node(x, Init));
  }

  lemma OneEach(n: nat, c: nat)
    requires n <= 3
    ensures |CompNodes(DOUBLE_PUT, n, c)| <= 1
  {
    assert CompNodes(DOUBLE_PUT, 0, c) == [];
    if n >= 1 { assert CompNodes(DOUBLE_PUT, 1, c) == if c == 0 then [Node(0, Init)] else []; }
    if n >= 2 {
      assert CompNodes(DOUBLE_PUT, 2, c)
        == if c == 0 then [Node(0, Init)] else if c == 1 then [Node(1, Init)] else [];
    }
  }

  lemma InitRuns(s: State, m: nat, x: nat)
    requires At(s, m) && x < m <= 3 && (x == 2 ==> 0 < m)
    ensures Node(x, Init) in s.log
  {
    DoublePutWellFormed();
    forall p | IsPred(DOUBLE_PUT, s.links, p, Node(x, Init)) ensures p in s.log {
      NoInitLink(s, m, p, x);
      assert RunAt(DOUBLE_PUT, s, p.ev);
    }
    RunsIffReady(DOUBLE_PUT, s, Node(x, Init));
  }

  // The only fifo in use is fifo 0, which holds `l`.
  ghost predicate Holds(log: seq<Node>, l: seq<Node>)
  {
    forall k :: Script(DOUBLE_PUT, log, k) == if k == 0 then l else []
  }

  // The links of a state whose puts are known.
  lemma LinkOf(s: State, m: nat, l: seq<Node>, p: Node, d: Node)
    requires At(s, m) && d.stage != Init && (p, d) in s.links && Holds(s.log, l)
    ensures exists j :: OrdersAt(s.log, l, j, p, d)
  {
    assert Orders(s.puts, s.log, p, d);
    var k, j :| OrdersAt(s.log, PutsIn(s.puts, UserFifo(k)), j, p, d);
    assert PutsIn(s.puts, UserFifo(k)) == Script(DOUBLE_PUT, s.log, k);
  }

  // A stage runs once its predecessors and the puts before it that it does not pass over have run.
  lemma StageRuns(s: State, m: nat, l: seq<Node>, d: Node)
    requires At(s, m) && d.ev < m <= 3 && (d.stage == Go || d.stage == Ret) && Holds(s.log, l)
    requires forall j :: 0 < j < |l| && l[j] == d && !Skips(s.log, l, j) ==> l[j-1] in s.log
    requires forall p :: IsPred(DOUBLE_PUT, {}, p, d) ==> p in s.log
    ensures d in s.log
  {
    DoublePutWellFormed();
    forall p | IsPred(DOUBLE_PUT, s.links, p, d) ensures p in s.log {
      if (p, d) in s.links {
        LinkOf(s, m, l, p, d);
        var j :| OrdersAt(s.log, l, j, p, d);
        assert l[j-1] == p;
      } else {
        assert IsPred(DOUBLE_PUT, {}, p, d);
      }
    }
    RunsIffReady(DOUBLE_PUT, s, d);
  }

  lemma FollowerReturned(s: State, m: nat, x: nat, f: nat)
    requires At(s, m) && f < 3 && x < 3 && x in DOUBLE_PUT[f].refs
    ensures Node(x, Ret) in s.log ==> Node(f, Ret) in s.log && f < s.n
  {
    RanInOrder(DOUBLE_PUT, s, Node(f, Ret));
    assert RunAt(DOUBLE_PUT, s, f) && EventAt(DOUBLE_PUT, s, f);
    if Node(x, Ret) in s.log { PredecessorsFirst(DOUBLE_PUT, s, Node(f, Ret), Node(x, Ret)); }
  }

  lemma BeforeGrows(a: seq<Node>, b: seq<Node>, p: Node, d: Node)
    requires a <= b && p in a && d !in a && d in b
    ensures Before(b, p, d)
  {
    var i :| 0 <= i < |a| && a[i] == p;
    forall k | 0 <= k < |a| ensures b[k] != d { assert b[k] == a[k]; }
    var j :| 0 <= j < |b| && b[j] == d;
    assert b[i] == p;
  }

  // ---------------------------------------------------------------------------------------------
  // The run

  lemma ScriptOne(s: State)
    requires At(s, 1) && Node(0, Init) in s.log
    ensures Holds(s.log, [Node(0, Go), Node(0, Ret)])
  {
    NewInits(s, [], 0);
    TailOnce(s, [], Node(0, Init));
    assert s.log[0..] == s.log && [] + s.log == s.log;
    forall k ensures Script(DOUBLE_PUT, s.log, k) == if k == 0 then [Node(0, Go), Node(0, Ret)] else [] {
      ScriptTail([], s.log, k, 0);
      Puts(k);
    }
  }

  /** After the first event: its 'go' has run, its 'ret' waits for its follower. */
  lemma AfterFirst(s: State)
    requires At(s, 1)
    ensures Node(0, Init) in s.log && Node(0, Go) in s.log && Node(0, Ret) !in s.log && Node(1, Init) !in s.log
    ensures Holds(s.log, [Node(0, Go), Node(0, Ret)])
  {
    InitRuns(s, 1, 0);
    ScriptOne(s);
    StageRuns(s, 1, [Node(0, Go), Node(0, Ret)], Node(0, Go));
    assert 0 in DOUBLE_PUT[2].refs;
    FollowerReturned(s, 1, 0, 2);
    assert RunAt(DOUBLE_PUT, s, 1) && EventAt(DOUBLE_PUT, s, 1);
  }

  lemma HoldsMore(a: seq<Node>, b: seq<Node>, l: seq<Node>, x: nat)
    requires x < 3 && multiset(b)[Node(x, Init)] <= 1 && Holds(a, l)
    requires forall d :: d in b && d.stage == Init ==> d.ev == x
    ensures Holds(a + b, l + if Node(x, Init) in b then PutsBy(x, DOUBLE_PUT[x].puts, 0) else [])
  {
    var more := if Node(x, Init) in b then PutsBy(x, DOUBLE_PUT[x].puts, 0) else [];
    forall k ensures Script(DOUBLE_PUT, a + b, k) == if k == 0 then l + more else [] {
      ScriptTail(a, b, k, x);
      Puts(k);
    }
  }

  // What fifo 0 holds in the end.
  ghost function Fifo0(): seq<Node> { [Node(0, Go), Node(0, Ret), Node(1, Go)] }

  lemma ScriptTwo(s: State, t: State)
    requires At(s, 1) && At(t, 2) && s.log <= t.log && Node(0, Init) in s.log && Node(1, Init) !in s.log
    requires Node(1, Init) in t.log
    requires Holds(s.log, [Node(0, Go), Node(0, Ret)])
    ensures Holds(t.log, Fifo0())
  {
    NewInits(t, s.log, 1);
    TailOnce(t, s.log, Node(1, Init));
    SecondHolds(s.log, t.log);
  }

  lemma SecondHolds(a: seq<Node>, l: seq<Node>)
    requires a <= l && Node(1, Init) !in a && Node(1, Init) in l && Holds(a, [Node(0, Go), Node(0, Ret)])
    requires multiset(l[|a|..])[Node(1, Init)] <= 1 && forall d :: d in l[|a|..] && d.stage == Init ==> d.ev == 1
    ensures Holds(l, Fifo0())
  {
    var b := l[|a|..];
    assert l == a + b;
    HoldsMore(a, b, [Node(0, Go), Node(0, Ret)], 1);
    Puts(0);
    assert [Node(0, Go), Node(0, Ret)] + [Node(1, Go)] == Fifo0();
  }

  // After the second event: its 'go' has passed over the 'ret' of the first.
  lemma AfterSecond(s: State, t: State)
    requires At(s, 1) && At(t, 2) && s.log <= t.log
    ensures Node(0, Init) in t.log && Node(1, Init) in t.log && Node(0, Go) in t.log
    ensures Node(1, Go) in t.log && Node(0, Ret) !in t.log
    ensures Holds(t.log, Fifo0()) && Skips(t.log, Fifo0(), 2)
  {
    AfterFirst(s);
    InitRuns(t, 2, 1);
    assert 0 in DOUBLE_PUT[2].refs;
    FollowerReturned(t, 2, 0, 2);
    ScriptTwo(s, t);
    BeforeGrows(s.log, t.log, Node(0, Go), Node(1, Init));
    Passed(t.log);
    StageRuns(t, 2, Fifo0(), Node(1, Go));
  }

  lemma Passed(log: seq<Node>)
    requires Before(log, Node(0, Go), Node(1, Init)) && Node(0, Ret) !in log
    ensures Skips(log, Fifo0(), 2)
  {
    var l := Fifo0();
    assert l[..1] == [Node(0, Go)];
  }

  lemma ScriptThree(t: State, u: State)
    requires At(t, 2) && At(u, 3) && t.log <= u.log && Node(0, Init) in t.log && Node(1, Init) in t.log
    requires Holds(t.log, Fifo0())
    ensures Holds(u.log, Fifo0())
  {
    NewInits(u, t.log, 2);
    TailOnce(u, t.log, Node(2, Init));
    var b := u.log[|t.log|..];
    assert u.log == t.log + b;
    HoldsMore(t.log, b, Fifo0(), 2);
    Puts(0);
    assert Fifo0() + [] == Fifo0();
  }

  lemma AfterThird(t: State, u: State)
    requires At(t, 2) && At(u, 3) && t.log <= u.log && Node(0, Init) in t.log && Node(1, Init) in t.log
    requires Node(0, Go) in t.log
    requires Holds(t.log, Fifo0())
    ensures Holds(u.log, Fifo0()) && Node(0, Ret) in u.log
  {
    var l := Fifo0();
    ScriptThree(t, u);
    InitRuns(u, 3, 2);
    StageRuns(u, 3, l, Node(2, Go));
    StageRuns(u, 3, l, Node(2, Ret));
    StageRuns(u, 3, l, Node(0, Ret));
  }

  /** At the end of the run the 'go' of the second event has run before the 'ret' put before it. */
  lemma Overtaken(s: State, t: State, u: State)
    requires At(s, 1) && At(t, 2) && At(u, 3) && s.log <= t.log <= u.log
    ensures Script(DOUBLE_PUT, u.log, 0) == [Node(0, Go), Node(0, Ret), Node(1, Go)]
    ensures Before(u.log, Node(1, Go), Node(0, Ret))
  {
    AfterSecond(s, t);
    AfterThird(t, u);
    BeforeGrows(t.log, u.log, Node(1, Go), Node(0, Ret));
  }

  /** The run. */
  method HandleDoublePut() returns (h: Handler)
    ensures h.Valid() && h.trace == DOUBLE_PUT && Handled(DOUBLE_PUT, h.S())
    ensures Script(DOUBLE_PUT, h.log, 0) == [Node(0, Go), Node(0, Ret), Node(1, Go)]
    ensures Before(h.log, Node(1, Go), Node(0, Ret))
  {
    DoublePutWellFormed();
    h := new Handler(DOUBLE_PUT);
    h.HandleEvent(0);
    ghost var s := h.S();
    h.HandleEvent(1);
    ghost var t := h.S();
    h.HandleEvent(2);
    Overtaken(s, t, h.S());
  }
}
