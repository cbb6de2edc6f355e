/**
 When the stages of an event run in the course of a trace, and what the comments in
 lib/decopus/trace/include/hwe_handle_header.h say about it: that 'init' is executed when the event
 is committed, and 'go' when all its followers are.
 */
module EventRuns {
  import opened EventState
  import opened EventSteps
  import opened EventCommit
  import opened EventLinks
  import opened EventHandler
  import opened EventTheorems

  // ---------------------------------------------------------------------------------------------
  // Runs

  // A state between two calls of `handle_event`, after `n` of them.
  ghost predicate Between(tr: seq<Hwe>, s: State, n: nat)
  {
    Inv(tr, s) && Idle(s) && Quiet(s) && s.n == n
  }

  ghost predicate Later(s: State, t: State) { s.log <= t.log && s.links <= t.links }

  /** The states of the handler before the first event and after each of them. */
  ghost predicate RunOf(tr: seq<Hwe>, states: seq<State>)
  {
    && |states| == |tr| + 1
    && (forall i :: 0 <= i <= |tr| ==> Between(tr, states[i], i))
    && forall i, j :: 0 <= i <= j <= |tr| ==> Later(states[i], states[j])
  }

  /** Handling a trace event by event is such a run. */
  method HandleRun(tr: seq<Hwe>) returns (h: Handler, ghost states: seq<State>)
    requires WellFormed(tr)
    ensures h.Valid() && h.trace == tr && RunOf(tr, states) && states[|tr|] == h.S()
  {
    h := new Handler(tr);
    states := [h.S()];
    for e := 0 to |tr|
      invariant h.Valid() && h.trace == tr && Between(tr, h.S(), e)
      invariant |states| == e + 1 && states[e] == h.S() && forall i :: 0 <= i <= e ==> Between(tr, states[i], i)
      invariant forall i, j :: 0 <= i <= j <= e ==> Later(states[i], states[j])
    {
      ghost var s := h.S();
      h.HandleEvent(e);
      assert Later(s, h.S());
      forall i | 0 <= i <= e ensures Later(states[i], h.S()) { assert Later(states[i], states[e]); }
      states := states + [h.S()];
    }
  }

  // ---------------------------------------------------------------------------------------------
  // Transitive predecessors

  ghost predicate Chain(tr: seq<Hwe>, links: set<(Node, Node)>, l: seq<Node>)
  {
    |l| > 1 && forall i :: 0 < i < |l| ==> IsPred(tr, links, l[i - 1], l[i])
  }

  /** `p` has to run before something that has to run before so on before `d`. */
  ghost predicate Ancestor(tr: seq<Hwe>, links: set<(Node, Node)>, p: Node, d: Node)
  {
    exists l :: Chain(tr, links, l) && l[0] == p && l[|l| - 1] == d
  }

  lemma {:induction false} AncestorOne(tr: seq<Hwe>, links: set<(Node, Node)>, p: Node, d: Node)
    requires IsPred(tr, links, p, d)
    ensures Ancestor(tr, links, p, d)
  {
    assert Chain(tr, links, [p, d]);
  }

  lemma {:induction false} AncestorMore(tr: seq<Hwe>, links: set<(Node, Node)>, p: Node, q: Node, d: Node)
    requires Ancestor(tr, links, p, q) && IsPred(tr, links, q, d)
    ensures Ancestor(tr, links, p, d)
  {
    var l :| Chain(tr, links, l) && l[0] == p && l[|l| - 1] == q;
    var m := l + [d];
    forall i | 0 < i < |m| ensures IsPred(tr, links, m[i - 1], m[i]) {
      if i < |l| { assert IsPred(tr, links, l[i - 1], l[i]); }
    }
    assert Chain(tr, links, m);
  }

  lemma {:induction false} ChainBefore(tr: seq<Hwe>, s: State, l: seq<Node>)
    requires Inv(tr, s) && Chain(tr, s.links, l) && l[|l| - 1] in s.log
    ensures Before(s.log, l[0], l[|l| - 1])
    decreases |l|
  {
    var n := |l| - 1;
    PredecessorsFirst(tr, s, l[n - 1], l[n]);
    if n > 1 {
      assert l[..n][n - 1] == l[n - 1];
      ChainBefore(tr, s, l[..n]);
      BeforeTransitive(s.log, l[0], l[n - 1], l[n]);
    }
  }

  // The commit of an event, or of any later one, comes before each stage of it.
  lemma {:induction false} CommitAncestor(tr: seq<Hwe>, links: set<(Node, Node)>, f: nat, d: Node)
    requires f <= d.ev < |tr| && d.stage != Trace
    ensures Ancestor(tr, links, Node(f, Trace), d)
  {
    var e := d.ev;
    AncestorOne(tr, links, Node(e, Trace), Node(e, Init));
    if f < e {
      AncestorOne(tr, links, Node(f, Trace), Node(e, Trace));
      AncestorMore(tr, links, Node(f, Trace), Node(e, Trace), Node(e, Init));
    }
    if d.stage != Init { AncestorMore(tr, links, Node(f, Trace), Node(e, Init), Node(e, Go)); }
    if d.stage == Ret { AncestorMore(tr, links, Node(f, Trace), Node(e, Go), Node(e, Ret)); }
  }

  // A stage that has not run after `f` events, and runs later, waits for the commit of event `f`.
  lemma {:induction false} WaitsFor(tr: seq<Hwe>, s: State, u: State, f: nat, d: Node)
    requires WellFormed(tr) && Between(tr, s, f) && f < |tr| && Inv(tr, u) && Later(s, u)
    requires d in u.log && d !in s.log && d.stage != Trace
    ensures Ancestor(tr, u.links, Node(f, Trace), d)
    decreases IndexOf(u.log, d)
  {
    assert d.ev < |tr|;
    if d.ev >= f {
      CommitAncestor(tr, u.links, f, d);
    } else {
      RunsIffReady(tr, s, d);
      var p :| IsPred(tr, s.links, p, d) && p !in s.log;
      assert IsPred(tr, u.links, p, d);
      PredecessorsFirst(tr, u, p, d);
      IndexBefore(tr, u, p, d);
      if p.stage == Trace {
        assert p.ev < |tr| && RunAt(tr, s, p.ev);
        AncestorOne(tr, u.links, p, d);
        if f < p.ev {
          AncestorOne(tr, u.links, Node(f, Trace), p);
          AncestorMore(tr, u.links, Node(f, Trace), p, d);
        }
      } else {
        WaitsFor(tr, s, u, f, p);
        AncestorMore(tr, u.links, Node(f, Trace), p, d);
      }
    }
  }

  lemma {:induction false} IndexBefore(tr: seq<Hwe>, u: State, p: Node, d: Node)
    requires Inv(tr, u) && Before(u.log, p, d)
    ensures p in u.log && IndexOf(u.log, p) < IndexOf(u.log, d)
  {
    var i, j :| 0 <= i < j < |u.log| && u.log[i] == p && u.log[j] == d;
    assert u.log[IndexOf(u.log, p)] == p && u.log[IndexOf(u.log, d)] == d;
  }

  /** A stage that runs has not run before event `f` is handed over, if and only if the commit of `f` is among its
      transitive predecessors: references, earlier stages, commits before others, and fifo puts it waits for. */
  lemma {:induction false} RunsAfterIff(tr: seq<Hwe>, states: seq<State>, f: nat, d: Node)
    requires WellFormed(tr) && RunOf(tr, states) && f < |tr| && d.stage != Trace && d in states[|tr|].log
    ensures d !in states[f].log <==> Ancestor(tr, states[|tr|].links, Node(f, Trace), d)
  {
    var s, u := states[f], states[|tr|];
    assert Between(tr, s, f) && Between(tr, u, |tr|) && Later(s, u);
    if d !in s.log { WaitsFor(tr, s, u, f, d); }
    if Ancestor(tr, u.links, Node(f, Trace), d) {
      var l :| Chain(tr, u.links, l) && l[0] == Node(f, Trace) && l[|l| - 1] == d;
      ChainBefore(tr, u, l);
      NotYet(tr, s, u, f, d);
    }
  }

  // What comes after the commit of `f` has not run before it.
  lemma {:induction false} NotYet(tr: seq<Hwe>, s: State, u: State, f: nat, d: Node)
    requires Between(tr, s, f) && f < |tr| && Inv(tr, u) && Later(s, u) && Before(u.log, Node(f, Trace), d)
    ensures d !in s.log
  {
    assert RunAt(tr, s, f);
    var i, j :| 0 <= i < j < |u.log| && u.log[i] == Node(f, Trace) && u.log[j] == d;
    forall k | 0 <= k < |s.log| ensures s.log[k] != d {
      assert u.log[k] == s.log[k];
    }
  }

  // ---------------------------------------------------------------------------------------------
  // 'go' and the followers

  ghost predicate Follows(tr: seq<Hwe>, f: int, x: nat) { 0 <= f < |tr| && x in tr[f].refs }

  // Every event that references `x` is among the first `n`.
  ghost predicate FollowersHere(tr: seq<Hwe>, n: nat, x: nat) { forall f :: Follows(tr, f, x) ==> f < n }

  // In no state has 'go' run while a follower is missing.
  ghost predicate GoAwaitsFollowers(tr: seq<Hwe>, states: seq<State>, x: nat)
    requires |states| == |tr| + 1
  {
    forall n :: 0 <= n <= |tr| && Node(x, Go) in states[n].log ==> FollowersHere(tr, n, x)
  }

  /** 'go' of an event that runs waits for all followers, if and only if the commit of each is among its transitive
      predecessors: `check_go` does not look at the missing followers. */
  lemma {:induction false} GoAwaitsFollowersIff(tr: seq<Hwe>, states: seq<State>, x: nat)
    requires WellFormed(tr) && RunOf(tr, states) && Node(x, Go) in states[|tr|].log
    ensures GoAwaitsFollowers(tr, states, x) <==>
      forall f :: Follows(tr, f, x) ==> Ancestor(tr, states[|tr|].links, Node(f, Trace), Node(x, Go))
  {
    var links := states[|tr|].links;
    forall f | Follows(tr, f, x)
      ensures Node(x, Go) !in states[f].log <==> Ancestor(tr, links, Node(f, Trace), Node(x, Go))
    {
      RunsAfterIff(tr, states, f, Node(x, Go));
    }
    if GoAwaitsFollowers(tr, states, x) {
      forall f | Follows(tr, f, x) ensures Ancestor(tr, links, Node(f, Trace), Node(x, Go)) {
        assert !FollowersHere(tr, f, x);
      }
    }
    if forall f :: Follows(tr, f, x) ==> Ancestor(tr, links, Node(f, Trace), Node(x, Go)) {
      forall n, f | 0 <= n <= |tr| && Node(x, Go) in states[n].log && Follows(tr, f, x) ensures f < n {
        assert f >= n ==> Later(states[n], states[f]);
      }
    }
  }

  // ---------------------------------------------------------------------------------------------
  // 'init' and the references

  // A link to an 'init' is from an earlier event of the component.
  lemma {:induction false} InitLink(tr: seq<Hwe>, s: State, p: Node, d: Node)
    requires Inv(tr, s) && (p, d) in s.links && d.stage == Init
    ensures p.stage == Init && p.ev < d.ev < |tr| && tr[p.ev].comp == tr[d.ev].comp
  {
    var f := LinkFifo(s, p, d);
    assert PutsOf(s, InitFifo(f.comp)) == CompNodes(tr, s.n, f.comp);
    InitPair(tr, s.n, f.comp, p, d);
  }

  // The fifo of a link.
  lemma {:induction false} LinkFifo(s: State, p: Node, d: Node) returns (f: Fifo)
    requires Fifos(s) && (p, d) in s.links && d.stage == Init
    ensures f.InitFifo? && Consecutive(PutsOf(s, f), p, d)
  {
    assert LinkOk(s, p, d);
    f :| Consecutive(PutsIn(s.puts, f), p, d);
    assert FifoAt(s, f);
  }

  lemma {:induction false} InitPair(tr: seq<Hwe>, n: nat, c: nat, p: Node, d: Node)
    requires n <= |tr| && Consecutive(CompNodes(tr, n, c), p, d)
    ensures p.stage == Init && p.ev < d.ev < |tr| && tr[p.ev].comp == tr[d.ev].comp
  {
    var l := CompNodes(tr, n, c);
    var k :| 0 < k < |l| && l[k - 1] == p && l[k] == d;
    CompNodesSorted(tr, n, c, k);
  }

  lemma {:induction false} CompNodesSorted(tr: seq<Hwe>, n: nat, c: nat, k: nat)
    requires n <= |tr| && 0 < k < |CompNodes(tr, n, c)|
    ensures var l := CompNodes(tr, n, c);
      && l[k - 1].stage == Init && l[k - 1].ev < l[k].ev < n
      && tr[l[k - 1].ev].comp == c == tr[l[k].ev].comp
    decreases n
  {
    var l := CompNodes(tr, n - 1, c);
    if k < |l| {
      CompNodesSorted(tr, n - 1, c, k);
    } else {
      CompNodesOf(tr, n - 1, c, k - 1);
    }
  }

  lemma {:induction false} CompNodesOf(tr: seq<Hwe>, n: nat, c: nat, k: nat)
    requires n <= |tr| && k < |CompNodes(tr, n, c)|
    ensures var d := CompNodes(tr, n, c)[k]; d.stage == Init && d.ev < n && tr[d.ev].comp == c
    decreases n
  {
    if k < |CompNodes(tr, n - 1, c)| { CompNodesOf(tr, n - 1, c, k); }
  }

  // No event of the component of `x` up to `x` references an event from `n` on.
  ghost predicate KnownRefs(tr: seq<Hwe>, x: nat, n: nat)
    requires x < |tr|
  {
    forall y, r :: 0 <= y <= x && tr[y].comp == tr[x].comp && r in tr[y].refs ==> r < n
  }

  lemma {:induction false} KnownRefsRun(tr: seq<Hwe>, s: State, x: nat, y: nat)
    requires WellFormed(tr) && Between(tr, s, s.n) && y <= x < s.n <= |tr| && tr[y].comp == tr[x].comp
    requires KnownRefs(tr, x, s.n)
    ensures Node(y, Init) in s.log
    decreases y
  {
    var d := Node(y, Init);
    forall p | IsPred(tr, s.links, p, d) ensures p in s.log {
      if (p, d) in s.links {
        InitLink(tr, s, p, d);
        KnownRefsRun(tr, s, x, p.ev);
      } else {
        assert p.ev < s.n && RunAt(tr, s, p.ev);
      }
    }
    RunsIffReady(tr, s, d);
  }

  lemma {:induction false} Arrived(tr: seq<Hwe>, s: State, r: nat)
    requires Inv(tr, s) && r < |tr| && Node(r, Trace) in s.log
    ensures r < s.n
  {
    assert RunAt(tr, s, r);
  }

  lemma {:induction false} InitRefs(tr: seq<Hwe>, s: State, x: nat, y: nat, r: nat)
    requires WellFormed(tr) && Inv(tr, s) && y <= x < |tr| && tr[y].comp == tr[x].comp && r in tr[y].refs
    requires Node(x, Init) in s.log
    ensures r < s.n
  {
    if y < x { InitInCommitOrder(tr, s, y, x); }
    PredecessorsFirst(tr, s, Node(r, Trace), Node(y, Init));
    Arrived(tr, s, r);
  }

  /** After `n` events 'init' of one of them has run, if and only if neither it nor an earlier event of its component
      references an event from `n` on; so it runs at its own commit exactly if there is no such forward reference. */
  lemma {:induction false} InitRunsIff(tr: seq<Hwe>, states: seq<State>, x: nat, n: nat)
    requires WellFormed(tr) && RunOf(tr, states) && x < n <= |tr|
    ensures Node(x, Init) in states[n].log <==> KnownRefs(tr, x, n)
  {
    var s := states[n];
    assert Between(tr, s, n);
    if KnownRefs(tr, x, n) { KnownRefsRun(tr, s, x, x); }
    if Node(x, Init) in s.log {
      forall y, r | 0 <= y <= x && tr[y].comp == tr[x].comp && r in tr[y].refs ensures r < n {
        InitRefs(tr, s, x, y, r);
      }
    }
  }

  /** An event that references the next one: after its own commit its 'init' has not run. */
  const FORWARD: seq<Hwe> := [Hwe(0, [1], 0, []), Hwe(0, [], 1, [])]

  method HandleForward() returns (h: Handler)
    ensures h.Valid() && h.trace == FORWARD && h.n == 1 && Idle(h.S()) && Quiet(h.S())
    ensures Node(0, Trace) in h.log && Node(0, Init) !in h.log
  {
    ForwardWellFormed();
    h := new Handler(FORWARD);
    h.HandleEvent(0);
    assert RunAt(FORWARD, h.S(), 0);
    if Node(0, Init) in h.log { InitRefs(FORWARD, h.S(), 0, 0, 1); }
  }

  lemma {:induction false} ForwardWellFormed()
    ensures WellFormed(FORWARD)
  {
    assert Refs(FORWARD) == [[1], []];
  }

  // ---------------------------------------------------------------------------------------------
  // Traces without double puts

  // No event puts both its 'go' and its 'ret' in one fifo.
  ghost predicate NoDoublePut(tr: seq<Hwe>)
  {
    forall x, k :: 0 <= x < |tr| ==> !(Put(k, Go) in tr[x].puts && Put(k, Ret) in tr[x].puts)
  }

  lemma {:induction false} PutsByOf(x: nat, puts: seq<Put>, k: nat, d: Node)
    requires d in PutsBy(x, puts, k)
    ensures d.ev == x && Put(k, d.stage) in puts
    decreases |puts|
  {
    var n := |puts| - 1;
    if d in PutsBy(x, puts[..n], k) { PutsByOf(x, puts[..n], k, d); }
  }

  lemma {:induction false} ScriptOf(tr: seq<Hwe>, log: seq<Node>, k: nat, d: Node)
    requires d in Script(tr, log, k)
    ensures d.ev < |tr| && Put(k, d.stage) in tr[d.ev].puts
    decreases |log|
  {
    var n := |log| - 1;
    if d in Script(tr, log[..n], k) {
      ScriptOf(tr, log[..n], k, d);
    } else {
      PutsByOf(log[n].ev, tr[log[n].ev].puts, k, d);
    }
  }

  /** If no event puts both its 'go' and its 'ret' in one fifo, every fifo runs in put order. */
  lemma {:induction false} PutOrder(tr: seq<Hwe>, s: State, k: nat, i: nat, j: nat)
    requires Inv(tr, s) && UserPuts(tr, s.puts, s.log) && LinksKnown(s.puts, s.links, s.log) && NoDoublePut(tr)
    requires i < j < |Script(tr, s.log, k)| && Script(tr, s.log, k)[j] in s.log
    ensures Before(s.log, Script(tr, s.log, k)[i], Script(tr, s.log, k)[j])
  {
    var l := Script(tr, s.log, k);
    forall m | i < m <= j ensures !Skips(s.log, l, m) {
      ScriptOf(tr, s.log, k, l[m - 1]);
      if Shadowed(l[..m - 1], l[m - 1]) {
        assert Node(l[m - 1].ev, Go) in l;
        ScriptOf(tr, s.log, k, Node(l[m - 1].ev, Go));
        assert false;
      }
    }
    FifoOrder(tr, s, k, i, j);
  }
}
