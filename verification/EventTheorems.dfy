/**
 What the event handler guarantees over whole runs.

 Every state that `EventHandler.Handler` reaches satisfies `Inv`, and is `Quiet` between two calls of
 `handle_event`; the theorems below are about all such states.
 */
module EventTheorems {
  import opened EventState
  import opened EventSteps
  import opened EventCommit
  import opened EventLinks
  import opened EventHandler

  // ---------------------------------------------------------------------------------------------
  // Order of callbacks

  lemma {:induction false} CountsOnce(log: seq<Node>, d: Node)
    requires forall i, j :: 0 <= i < j < |log| ==> log[i] != log[j]
    ensures multiset(log)[d] <= 1
    decreases |log|
  {
    if log != [] {
      var l := log[..|log|-1];
      CountsOnce(l, d);
      assert log == l + [log[|log|-1]];
      assert log[|log|-1] == d ==> d !in l;
    }
  }

  /** No callback runs twice, although no check tests whether its own callback has run. */
  lemma RunsOnce(tr: seq<Hwe>, s: State, d: Node)
    requires Inv(tr, s)
    ensures multiset(s.log)[d] <= 1
  {
    CountsOnce(s.log, d);
  }

  lemma PredecessorsFirst(tr: seq<Hwe>, s: State, p: Node, d: Node)
    requires Inv(tr, s) && d in s.log && IsPred(tr, s.links, p, d)
    ensures Before(s.log, p, d)
  {
    var j :| 0 <= j < |s.log| && s.log[j] == d;
    assert p in s.log[..j];
  }

  /** The stages of an event run in order; a reference runs its 'go' before, and its 'ret' after,
      the event that references it, whichever of the two was committed first. */
  lemma StageOrder(tr: seq<Hwe>, s: State, e: nat, r: nat)
    requires Inv(tr, s) && e < |tr| && r < |tr| && r in tr[e].refs
    ensures Node(e, Init) in s.log ==>
      Before(s.log, Node(e, Trace), Node(e, Init)) && Before(s.log, Node(r, Trace), Node(e, Init))
    ensures Node(e, Go) in s.log ==>
      Before(s.log, Node(e, Init), Node(e, Go)) && Before(s.log, Node(r, Go), Node(e, Go))
    ensures Node(e, Ret) in s.log ==> Before(s.log, Node(e, Go), Node(e, Ret))
    ensures Node(r, Ret) in s.log ==> Before(s.log, Node(e, Ret), Node(r, Ret))
  {
    if Node(e, Init) in s.log {
      PredecessorsFirst(tr, s, Node(e, Trace), Node(e, Init));
      PredecessorsFirst(tr, s, Node(r, Trace), Node(e, Init));
    }
    if Node(e, Go) in s.log {
      PredecessorsFirst(tr, s, Node(e, Init), Node(e, Go));
      PredecessorsFirst(tr, s, Node(r, Go), Node(e, Go));
    }
    if Node(e, Ret) in s.log { PredecessorsFirst(tr, s, Node(e, Go), Node(e, Ret)); }
    if Node(r, Ret) in s.log { PredecessorsFirst(tr, s, Node(e, Ret), Node(r, Ret)); }
  }

  lemma BeforeTransitive(log: seq<Node>, p: Node, q: Node, d: Node)
    requires Before(log, p, q) && Before(log, q, d)
    requires forall i, j :: 0 <= i < j < |log| ==> log[i] != log[j]
    ensures Before(log, p, d)
  {
    var i, j :| 0 <= i < j < |log| && log[i] == p && log[j] == q;
    var i', j' :| 0 <= i' < j' < |log| && log[i'] == q && log[j'] == d;
    assert j == i';
  }

  // ---------------------------------------------------------------------------------------------
  // Fifos

  // Consecutive puts from `i` to `j` are linked.
  ghost predicate LinkedUp(links: set<(Node, Node)>, l: seq<Node>, i: nat, j: nat)
    requires i <= j < |l|
  {
    forall m :: i < m <= j ==> (l[m-1], l[m]) in links
  }

  lemma {:induction false} LinkedOrder(tr: seq<Hwe>, s: State, l: seq<Node>, i: nat, j: nat)
    requires Inv(tr, s) && i < j < |l| && LinkedUp(s.links, l, i, j) && l[j] in s.log
    ensures Before(s.log, l[i], l[j])
    decreases j
  {
    PredecessorsFirst(tr, s, l[j-1], l[j]);
    if i < j - 1 {
      LinkedOrder(tr, s, l, i, j - 1);
      BeforeTransitive(s.log, l[i], l[j-1], l[j]);
    }
  }

  // No put after position `i` and up to `j` passes over the put before it.
  ghost predicate NoneSkips(log: seq<Node>, l: seq<Node>, i: nat, j: nat)
  {
    forall m :: i < m <= j ==> !Skips(log, l, m)
  }

  /** Stages put in one fifo by the 'init' callbacks, of whatever kinds, run in put order, unless one of
      them passes over the put before it. */
  lemma FifoOrder(tr: seq<Hwe>, s: State, k: nat, i: nat, j: nat)
    requires Inv(tr, s) && UserPuts(tr, s.puts, s.log) && LinksKnown(s.puts, s.links, s.log)
    requires i < j < |Script(tr, s.log, k)| && NoneSkips(s.log, Script(tr, s.log, k), i, j)
    requires Script(tr, s.log, k)[j] in s.log
    ensures Before(s.log, Script(tr, s.log, k)[i], Script(tr, s.log, k)[j])
  {
    var l := PutsIn(s.puts, UserFifo(k));
    assert l == Script(tr, s.log, k);
    assert FifoAt(s, UserFifo(k));
    forall m | i < m <= j ensures (l[m-1], l[m]) in s.links {
      assert OrdersAt(s.log, l, m, l[m-1], l[m]);
      assert l[m].stage != Init;
      assert Orders(s.puts, s.log, l[m-1], l[m]);
    }
    LinkedOrder(tr, s, l, i, j);
  }

  /** A stage runs before the one put before it in its fifo only when it passes over it. */
  lemma OvertakesOnlyIf(tr: seq<Hwe>, s: State, k: nat, j: nat)
    requires Inv(tr, s) && UserPuts(tr, s.puts, s.log) && LinksKnown(s.puts, s.links, s.log)
    requires 0 < j < |Script(tr, s.log, k)| && Script(tr, s.log, k)[j] in s.log
    ensures !Before(s.log, Script(tr, s.log, k)[j-1], Script(tr, s.log, k)[j]) ==> Skips(s.log, Script(tr, s.log, k), j)
  {
    if !Skips(s.log, Script(tr, s.log, k), j) {
      FifoOrder(tr, s, k, j - 1, j);
    }
  }

  /** The queue of a fifo is null exactly when nothing was put, or the last put has run, or the last
      put is the 'ret' of an event whose 'go' was put in the same fifo and has run: `rm_frfifo` only
      compares events.  The third case is the one where a later put is not ordered behind it. */
  lemma QueueNullIff(tr: seq<Hwe>, s: State, f: Fifo)
    requires Inv(tr, s) && Quiet(s)
    ensures f !in s.fifo <==>
            var l := PutsOf(s, f);
            l == [] || l[|l|-1] in s.log || (Shadowed(l, l[|l|-1]) && Node(l[|l|-1].ev, Go) in s.log)
  {
    var l := PutsOf(s, f);
    assert FifoAt(s, f);
    if l != [] {
      var p := l[|l|-1];
      assert StageAt(s, p) && StageAt(s, Node(p.ev, Go));
      if Shadowed(l, p) {
        var k :| 0 <= k < |l| && l[k] == Node(p.ev, Go);
        assert f in s.fifo ==> Member(f) in Usr(s, l[k]);
      }
    }
  }

  /** A put becomes one more blocker behind the put before it, if that one has still to run, exactly when
      it is not a 'ret' whose event put its 'go' in the fifo before and has run it. */
  lemma PutOrderedIff(tr: seq<Hwe>, s: State, f: Fifo, d: Node)
    requires InvCore(tr, s) && CanPut(s, f, d) && PutsOf(s, f) != [] && PutsOf(s, f)[|PutsOf(s, f)|-1] !in s.log
    ensures var l := PutsOf(s, f);
            var p, t := l[|l|-1], PutInFifo(s, f, d);
            multiset(Usr(t, p))[Barrier(d)] == multiset(Usr(s, p))[Barrier(d)]
              + if Shadowed(l, p) && Node(p.ev, Go) in s.log then 0 else 1
  {
    var l := PutsOf(s, f);
    QueueShadow(tr, s, f, d);
    assert FifoAt(s, f);
    PutInFifoEffect(s, f, d);
    NewListCount(s, f, d, l[|l|-1], d);
  }

  // Position of a commit in the order of its component.
  lemma {:induction false} CompNodesAt(tr: seq<Hwe>, n: nat, c: nat, x: nat, y: nat)
    requires x < y < n <= |tr| && tr[x].comp == c && tr[y].comp == c
    ensures exists i, j :: 0 <= i < j < |CompNodes(tr, n, c)| &&
              CompNodes(tr, n, c)[i] == Node(x, Init) && CompNodes(tr, n, c)[j] == Node(y, Init)
    decreases n
  {
    var l := CompNodes(tr, n - 1, c);
    if y < n - 1 {
      CompNodesAt(tr, n - 1, c, x, y);
      var i, j :| 0 <= i < j < |l| && l[i] == Node(x, Init) && l[j] == Node(y, Init);
      assert CompNodes(tr, n, c)[i] == Node(x, Init) && CompNodes(tr, n, c)[j] == Node(y, Init);
    } else {
      var i := CompNodesHas(tr, n - 1, c, x);
      assert CompNodes(tr, n, c)[i] == Node(x, Init) && CompNodes(tr, n, c)[|l|] == Node(y, Init);
    }
  }

  lemma {:induction false} CompNodesHas(tr: seq<Hwe>, n: nat, c: nat, x: nat) returns (i: nat)
    requires x < n <= |tr| && tr[x].comp == c
    ensures i < |CompNodes(tr, n, c)| && CompNodes(tr, n, c)[i] == Node(x, Init)
    decreases n
  {
    if x < n - 1 {
      i := CompNodesHas(tr, n - 1, c, x);
    } else {
      i := |CompNodes(tr, n - 1, c)|;
    }
  }

  lemma {:induction false} CompNodesInit(tr: seq<Hwe>, n: nat, c: nat)
    requires n <= |tr|
    ensures forall k :: 0 <= k < |CompNodes(tr, n, c)| ==> CompNodes(tr, n, c)[k].stage == Init
    decreases n
  {
    if n > 0 { CompNodesInit(tr, n - 1, c); }
  }

  /** The 'init' callbacks of one component run in commit order. */
  lemma InitInCommitOrder(tr: seq<Hwe>, s: State, x: nat, y: nat)
    requires Inv(tr, s) && x < y < |tr| && tr[x].comp == tr[y].comp && Node(y, Init) in s.log
    ensures Before(s.log, Node(x, Init), Node(y, Init))
  {
    var c := tr[x].comp;
    assert RunAt(tr, s, y) && EventAt(tr, s, y);
    assert PutsOf(s, InitFifo(c)) == CompNodes(tr, s.n, c);
    CompNodesAt(tr, s.n, c, x, y);
    CompNodesInit(tr, s.n, c);
    var l := CompNodes(tr, s.n, c);
    var i, j :| 0 <= i < j < |l| && l[i] == Node(x, Init) && l[j] == Node(y, Init);
    assert FifoAt(s, InitFifo(c));
    forall m | i < m <= j ensures (l[m-1], l[m]) in s.links { assert !Shadowed(l[..m-1], l[m-1]); }
    LinkedOrder(tr, s, l, i, j);
  }

  // ---------------------------------------------------------------------------------------------
  // Recycling

  lemma NotListed(tr: seq<Hwe>, s: State, x: nat, a: Node, st: Stage)
    requires Inv(tr, s) && st != Trace && Node(x, st) in s.log
    ensures Barrier(Node(x, st)) !in Usr(s, a)
  {
    assert By(s, Node(x, st))[a] == multiset(Usr(s, a))[Barrier(Node(x, st))];
    assert StageAt(s, Node(x, st));
    assert By(s, Node(x, st))[a] > 0 ==> |By(s, Node(x, st))| > 0;
  }

  lemma NotFollowing(tr: seq<Hwe>, s: State, x: nat, y: nat)
    requires Inv(tr, s) && Node(x, Go) in s.log
    ensures x !in Fol(s, y)
  {
    assert GoRef(s, x)[y] == multiset(Fol(s, y))[x];
    assert StageAt(s, Node(x, Go));
    assert GoRef(s, x)[y] > 0 ==> |GoRef(s, x)| > 0;
  }

  /** The queue of a fifo is no stage of an event whose 'ret' is over. */
  lemma QueueNotOver(tr: seq<Hwe>, s: State, f: Fifo, x: nat)
    requires Inv(tr, s) && f in s.fifo && x < |tr| && Node(x, Ret) in s.log && Node(x, Ret) !in s.active
    ensures s.fifo[f].ev != x
  {
    assert FifoAt(s, f);
    var l := PutsOf(s, f);
    var q := s.fifo[f];
    assert l[|l|-1] == q && Member(f) in Usr(s, q);
    assert RunAt(tr, s, x);
    RanInOrder(tr, s, Node(x, Ret));
    assert StageAt(s, q) && StageAt(s, Node(x, Go)) && StageAt(s, Node(x, Init));
  }

  /** A recycled event whose unlocking is over is out of reach, also inside callbacks: every event of the
      trace that references it has run its 'ret', and no list and no fifo mentions it any more. */
  lemma RecycledUnreachable(tr: seq<Hwe>, s: State, x: nat)
    requires Inv(tr, s) && x in s.free && Node(x, Ret) !in s.active
    ensures forall f :: 0 <= f < |tr| && x in tr[f].refs ==> Before(s.log, Node(f, Ret), Node(x, Ret))
    ensures forall a, st :: st != Trace ==> Barrier(Node(x, st)) !in Usr(s, a)
    ensures forall y :: x !in Fol(s, y)
    ensures forall f :: f in s.fifo ==> s.fifo[f].ev != x
  {
    assert RunAt(tr, s, x) && ReleaseAt(|tr|, s, x);
    RanInOrder(tr, s, Node(x, Ret));
    forall f | 0 <= f < |tr| && x in tr[f].refs ensures Before(s.log, Node(f, Ret), Node(x, Ret)) {
      PredecessorsFirst(tr, s, Node(f, Ret), Node(x, Ret));
    }
    forall a, st | st != Trace ensures Barrier(Node(x, st)) !in Usr(s, a) { NotListed(tr, s, x, a, st); }
    forall y: nat ensures x !in Fol(s, y) { NotFollowing(tr, s, x, y); }
    forall f | f in s.fifo ensures s.fifo[f].ev != x { QueueNotOver(tr, s, f, x); }
  }

  /** Inside every callback the references of the event are valid: none has been recycled when it runs. */
  lemma ReferencesValid(tr: seq<Hwe>, s: State, d: Node, r: nat)
    requires Inv(tr, s) && WellFormed(tr) && Enabled(s, d) && d.ev < |tr| && r in tr[d.ev].refs
    ensures r !in s.free && d.ev !in s.free
  {
    var x := d.ev;
    assert RunAt(tr, s, r) && ReleaseAt(|tr|, s, r) && RunAt(tr, s, x) && ReleaseAt(|tr|, s, x);
    if r in s.free {
      PredecessorsFirst(tr, s, Node(x, Ret), Node(r, Ret));
    }
    RanInOrder(tr, s, Node(x, Ret));
  }

  // ---------------------------------------------------------------------------------------------
  // Completion

  ghost predicate AllRan(tr: seq<Hwe>, log: seq<Node>)
  {
    forall d: Node :: d.ev < |tr| && d.stage != Trace ==> d in log
  }

  /** `rank` witnesses that references, stage order and fifo predecessors form no cycle. */
  ghost predicate Ranked(tr: seq<Hwe>, links: set<(Node, Node)>, rank: Node -> nat)
  {
    forall p, d :: IsPred(tr, links, p, d) && p.stage != Trace ==> rank(p) < rank(d)
  }

  // All events of the trace have been handled.
  ghost predicate Handled(tr: seq<Hwe>, s: State)
  {
    Inv(tr, s) && Idle(s) && Quiet(s) && s.n == |tr|
  }

  lemma NoBarrierLeft(tr: seq<Hwe>, s: State, d: Node)
    requires Inv(tr, s) && Quiet(s)
    requires forall p :: (p, d) in s.links ==> p in s.log
    ensures |By(s, d)| == 0
  {
    forall p ensures By(s, d)[p] == 0 {
      assert By(s, d)[p] == multiset(Usr(s, p))[Barrier(d)];
      assert StageAt(s, p);
      assert By(s, d)[p] > 0 ==> Barrier(d) in Usr(s, p) && PtrOk(s, p, Barrier(d));
      assert By(s, d)[p] > 0 ==> (p, d) in s.links;
    }
    assert By(s, d) == multiset{};
  }

  lemma NoReferenceLeft(tr: seq<Hwe>, s: State, x: nat)
    requires Inv(tr, s) && Quiet(s) && x < |tr|
    requires forall r :: r in tr[x].refs ==> Node(r, Go) in s.log
    ensures |GoRef(s, x)| == 0
  {
    assert EventAt(tr, s, x);
    forall r: nat ensures GoRef(s, x)[r] == 0 {
      assert GoRef(s, x)[r] == multiset(Fol(s, r))[x];
      if r < |tr| {
        assert RunAt(tr, s, r) && FollowersAt(s, r);
        assert Node(r, Go) !in s.log ==> multiset(Fol(s, r))[x] == multiset(RegOf(s.reg, x))[r];
      }
    }
    assert GoRef(s, x) == multiset{};
  }

  lemma NoFollowerLeft(tr: seq<Hwe>, s: State, x: nat)
    requires Inv(tr, s) && Quiet(s) && x < |tr|
    requires forall f :: 0 <= f < |tr| && x in tr[f].refs ==> Node(f, Ret) in s.log
    ensures |RetFol(s, x)| == 0
  {
    forall f: nat ensures RetFol(s, x)[f] == 0 {
      assert RetFol(s, x)[f] == multiset(Left(s, f))[x];
      if f < |tr| {
        assert RunAt(tr, s, f) && EventAt(tr, s, f) && ReleaseAt(|tr|, s, f);
        assert x in Left(s, f) ==> x in Reg(s, f) || Node(f, Ret) in s.log;
      }
    }
    assert RetFol(s, x) == multiset{};
  }

  // An event that is not there yet holds back only those that reference it.
  lemma NotHere(tr: seq<Hwe>, s: State, x: nat, y: nat)
    requires Inv(tr, s) && Commited(s, x) && x < |tr| && s.n <= y < |tr| && y !in tr[x].refs
    ensures multiset(Pend(s, y))[x] == 0
  {
    assert EventAt(tr, s, y) && EventAt(tr, s, x) && RunAt(tr, s, y) && FollowersAt(s, y);
    RanInOrder(tr, s, Node(y, Go));
    assert multiset(Fol(s, y))[x] == multiset(RegOf(s.reg, x))[y];
    assert y !in RegOf(s.reg, x);
  }

  // An event that waits for no commit: it is committed and so are its references.
  lemma NoCommitMissing(tr: seq<Hwe>, s: State, x: nat)
    requires Inv(tr, s) && Idle(s) && Quiet(s) && x < s.n && forall r :: r in tr[x].refs ==> r < s.n
    ensures Commited(s, x) && MissRef(s, x) == 0
  {
    assert EventAt(tr, s, x);
    forall y: nat ensures Missing(s, x)[y] == 0 {
      assert Missing(s, x)[y] == multiset(Pend(s, y))[x];
      if s.n <= y < |tr| {
        NotHere(tr, s, x, y);
      } else if y < s.n {
        assert EventAt(tr, s, y) && Commited(s, y);
      }
    }
    assert Missing(s, x) == multiset{};
  }

  lemma {:induction false} RefCountSame(a: seq<seq<nat>>, b: seq<seq<nat>>, x: nat)
    requires |a| == |b| && forall i :: 0 <= i < |a| ==> multiset(a[i])[x] == multiset(b[i])[x]
    ensures RefCount(a, x) == RefCount(b, x)
  {
    if a != [] { RefCountSame(a[..|a|-1], b[..|b|-1], x); }
  }

  lemma NoFollowerMissing(tr: seq<Hwe>, s: State, x: nat)
    requires Inv(tr, s) && WellFormed(tr) && Idle(s) && x < s.n
    requires forall f :: 0 <= f < |tr| && x in tr[f].refs ==> f < s.n
    ensures MissFol(s, x) == 0
  {
    assert EventAt(tr, s, x);
    forall f | 0 <= f < |tr| ensures multiset(s.reg[f])[x] == multiset(Refs(tr)[f])[x] { assert EventAt(tr, s, f); }
    RefCountSame(s.reg, Refs(tr), x);
  }

  // Everything that has to run before `d` has run.
  ghost predicate Ready(tr: seq<Hwe>, s: State, d: Node)
  {
    forall p :: IsPred(tr, s.links, p, d) ==> p in s.log
  }

  lemma RunsWhenReady(tr: seq<Hwe>, s: State, d: Node)
    requires Inv(tr, s) && Idle(s) && Quiet(s) && WellFormed(tr) && d.ev < s.n && d.stage != Trace && Ready(tr, s, d)
    ensures d in s.log
  {
    var x := d.ev;
    forall p | (p, d) in s.links ensures p in s.log { assert IsPred(tr, s.links, p, d); }
    NoBarrierLeft(tr, s, d);
    assert StageAt(s, d) && StageAt(s, Node(x, Init)) && StageAt(s, Node(x, Go));
    match d.stage {
      case Init => ReadyInit(tr, s, x);
      case Go =>
        assert IsPred(tr, s.links, Node(x, Init), d);
        forall r | r in tr[x].refs ensures Node(r, Go) in s.log { assert IsPred(tr, s.links, Node(r, Go), d); }
        NoReferenceLeft(tr, s, x);
      case Ret => ReadyRet(tr, s, x);
    }
    assert !Enabled(s, d);
  }

  lemma ReadyInit(tr: seq<Hwe>, s: State, x: nat)
    requires Inv(tr, s) && Idle(s) && Quiet(s) && WellFormed(tr) && x < s.n && Ready(tr, s, Node(x, Init))
    ensures Commited(s, x) && MissRef(s, x) == 0
  {
    forall r | r in tr[x].refs ensures r < s.n {
      assert IsPred(tr, s.links, Node(r, Trace), Node(x, Init));
      assert RunAt(tr, s, r);
    }
    NoCommitMissing(tr, s, x);
  }

  lemma ReadyRet(tr: seq<Hwe>, s: State, x: nat)
    requires Inv(tr, s) && Idle(s) && Quiet(s) && WellFormed(tr) && x < s.n && Ready(tr, s, Node(x, Ret))
    ensures Node(x, Go) in s.log && |RetFol(s, x)| == 0 && MissFol(s, x) == 0
  {
    assert IsPred(tr, s.links, Node(x, Go), Node(x, Ret));
    forall f | 0 <= f < |tr| && x in tr[f].refs ensures Node(f, Ret) in s.log && f < s.n {
      assert IsPred(tr, s.links, Node(f, Ret), Node(x, Ret));
      RanInOrder(tr, s, Node(f, Ret));
      assert RunAt(tr, s, f) && EventAt(tr, s, f);
    }
    NoFollowerLeft(tr, s, x);
    NoFollowerMissing(tr, s, x);
  }

  /** Between two calls of `handle_event` a stage of an event handed over has run if and only if all that
      has to run before it has run. */
  lemma RunsIffReady(tr: seq<Hwe>, s: State, d: Node)
    requires Inv(tr, s) && Idle(s) && Quiet(s) && WellFormed(tr) && d.ev < s.n && d.stage != Trace
    ensures d in s.log <==> Ready(tr, s, d)
  {
    if d in s.log {
      forall p | IsPred(tr, s.links, p, d) ensures p in s.log { PredecessorsFirst(tr, s, p, d); }
    } else if Ready(tr, s, d) {
      RunsWhenReady(tr, s, d);
    }
  }

  lemma {:induction false} RunsByRank(tr: seq<Hwe>, s: State, rank: Node -> nat, d: Node)
    requires Handled(tr, s) && WellFormed(tr) && Ranked(tr, s.links, rank) && d.ev < |tr| && d.stage != Trace
    ensures d in s.log
    decreases rank(d)
  {
    forall p | IsPred(tr, s.links, p, d) ensures p in s.log {
      if p.stage == Trace {
        CommitsFirst(tr, s, p, d);
      } else {
        PredInTrace(tr, s, p, d);
        RunsByRank(tr, s, rank, p);
      }
    }
    RunsWhenReady(tr, s, d);
  }

  lemma CommitsFirst(tr: seq<Hwe>, s: State, p: Node, d: Node)
    requires Handled(tr, s) && WellFormed(tr) && d.ev < |tr| && d.stage != Trace && p.stage == Trace
    requires IsPred(tr, s.links, p, d)
    ensures p in s.log
  {
    if (p, d) in s.links {
      LinkEnds(tr, s, p, d);
    } else {
      assert p.ev < |tr| && RunAt(tr, s, p.ev);
    }
  }

  // The puts of a fifo are stages of events that are there.
  lemma {:induction false} FifoNode(s: State, f: Fifo, k: nat)
    requires FifoAt(s, f) && k < |PutsOf(s, f)|
    ensures PutsOf(s, f)[k].ev < s.n && PutsOf(s, f)[k].stage != Trace
  {
  }

  lemma {:induction false} LinkEnds(tr: seq<Hwe>, s: State, p: Node, d: Node)
    requires Fifos(s) && (p, d) in s.links
    ensures p.stage != Trace && d.stage != Trace && p.ev < s.n && d.ev < s.n
  {
    assert LinkOk(s, p, d);
    var f :| Consecutive(PutsIn(s.puts, f), p, d);
    var l := PutsOf(s, f);
    var k :| 0 < k < |l| && l[k-1] == p && l[k] == d;
    assert FifoAt(s, f);
    FifoNode(s, f, k - 1);
    FifoNode(s, f, k);
  }

  lemma PredInTrace(tr: seq<Hwe>, s: State, p: Node, d: Node)
    requires Inv(tr, s) && WellFormed(tr) && IsPred(tr, s.links, p, d) && p.stage != Trace
    ensures p.ev < |tr| && d.ev < |tr| && d.stage != Trace
  {
    if (p, d) in s.links { LinkEnds(tr, s, p, d); }
  }

  ghost function IndexOf(log: seq<Node>, d: Node): (i: nat)
    ensures d in log ==> i < |log| && log[i] == d
    ensures d !in log ==> i == |log|
  {
    if log == [] then 0
    else if log[0] == d then 0
    else 1 + IndexOf(log[1..], d)
  }

  lemma RankOfRun(tr: seq<Hwe>, s: State)
    requires Handled(tr, s) && WellFormed(tr) && AllRan(tr, s.log)
    ensures exists rank: Node -> nat :: Ranked(tr, s.links, rank)
  {
    var rank := (d: Node) => IndexOf(s.log, d);
    forall p, d | IsPred(tr, s.links, p, d) && p.stage != Trace ensures rank(p) < rank(d) {
      PredInTrace(tr, s, p, d);
      assert p in s.log[..rank(d)];
      var i :| 0 <= i < rank(d) && s.log[..rank(d)][i] == p;
      assert s.log[i] == p == s.log[rank(p)];
      assert i == rank(p);
    }
    assert Ranked(tr, s.links, rank);
  }

  /** When the whole trace has been handled, every callback of every event has run if and only if
      references, stage order and fifo predecessors form no cycle; then every event is recycled. */
  lemma CompletionIff(tr: seq<Hwe>, s: State)
    requires Handled(tr, s) && WellFormed(tr)
    ensures AllRan(tr, s.log) <==> exists rank: Node -> nat :: Ranked(tr, s.links, rank)
    ensures AllRan(tr, s.log) ==> forall x :: 0 <= x < |tr| ==> x in s.free
  {
    if AllRan(tr, s.log) {
      RankOfRun(tr, s);
      forall x | 0 <= x < |tr| ensures x in s.free {
        assert Node(x, Ret) in s.log;
        assert RunAt(tr, s, x) && ReleaseAt(|tr|, s, x);
      }
    }
    if rank: Node -> nat :| Ranked(tr, s.links, rank) {
      forall d: Node | d.ev < |tr| && d.stage != Trace ensures d in s.log { RunsByRank(tr, s, rank, d); }
    }
  }

  /** Handle a whole trace, event by event. */
  method HandleTrace(tr: seq<Hwe>) returns (h: Handler)
    requires WellFormed(tr)
    ensures h.Valid() && h.trace == tr && Handled(tr, h.S())
    ensures forall d :: multiset(h.log)[d] <= 1
    ensures AllRan(tr, h.log) <==> exists rank: Node -> nat :: Ranked(tr, h.links, rank)
    ensures AllRan(tr, h.log) ==> forall x :: 0 <= x < |tr| ==> x in h.free
  {
    h := new Handler(tr);
    for e := 0 to |tr|
      invariant h.Valid() && h.trace == tr && h.n == e && Idle(h.S()) && Quiet(h.S())
    {
      h.HandleEvent(e);
    }
    forall d ensures multiset(h.log)[d] <= 1 { RunsOnce(tr, h.S(), d); }
    CompletionIff(tr, h.S());
  }
}
