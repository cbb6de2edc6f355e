/**
 Which puts the event handler orders, told from the history alone.

 `put_infifo` makes a put wait for the queue of its fifo.  `rm_frfifo` clears the queue when a stage
 of the event that is the queue completes, whichever stage that is, so the 'ret' of an event that
 had put its 'go' in the same fifo can be passed over.
 */
module EventLinks {
  import opened EventState
  import opened EventSteps
  import opened EventCommit

  /** Put `j` of a fifo passes over the put before it: that put is the 'ret' of an event whose 'go' was
      put before in the fifo and had run, while the 'ret' had not, when the 'init' that makes put `j` ran. */
  ghost predicate Skips(log: seq<Node>, l: seq<Node>, j: nat)
  {
    && 0 < j < |l| && Shadowed(l[..j - 1], l[j - 1])
    && Before(log, Node(l[j - 1].ev, Go), Node(l[j].ev, Init))
    && !Before(log, l[j - 1], Node(l[j].ev, Init))
  }

  ghost predicate OrdersAt(log: seq<Node>, l: seq<Node>, j: nat, p: Node, d: Node)
  {
    0 < j < |l| && l[j - 1] == p && l[j] == d && !Skips(log, l, j)
  }

  // `p` comes right before `d` in some fifo and is not passed over.
  ghost predicate Orders(puts: map<Fifo, seq<Node>>, log: seq<Node>, p: Node, d: Node)
  {
    exists k, j :: OrdersAt(log, PutsIn(puts, UserFifo(k)), j, p, d)
  }

  /** Every put was made by an 'init' callback of the history. */
  ghost predicate Started(puts: map<Fifo, seq<Node>>, log: seq<Node>)
  {
    forall k, d :: d in PutsIn(puts, UserFifo(k)) ==> Node(d.ev, Init) in log
  }

  /** The links between 'go' and 'ret' stages are exactly the pairs that the history orders. */
  ghost predicate LinksKnown(puts: map<Fifo, seq<Node>>, links: set<(Node, Node)>, log: seq<Node>)
  {
    && Started(puts, log)
    && forall p: Node, d: Node :: d.stage != Init ==> ((p, d) in links <==> Orders(puts, log, p, d))
  }

  // ---------------------------------------------------------------------------------------------
  // A longer history

  lemma BeforeMore(log: seq<Node>, x: Node, a: Node, b: Node)
    requires b in log && x !in log && forall i, j :: 0 <= i < j < |log| ==> log[i] != log[j]
    ensures Before(log + [x], a, b) <==> Before(log, a, b)
  {
    var m := log + [x];
    if Before(log, a, b) {
      var i, j :| 0 <= i < j < |log| && log[i] == a && log[j] == b;
      assert m[i] == a && m[j] == b;
    }
    if Before(m, a, b) {
      var i, j :| 0 <= i < j < |m| && m[i] == a && m[j] == b;
      assert j < |log|;
      assert log[i] == a && log[j] == b;
    }
  }

  lemma SkipsMore(log: seq<Node>, x: Node, l: seq<Node>, j: nat)
    requires x !in log && forall i, j :: 0 <= i < j < |log| ==> log[i] != log[j]
    requires forall d :: d in l ==> Node(d.ev, Init) in log
    ensures Skips(log + [x], l, j) <==> Skips(log, l, j)
  {
    if 0 < j < |l| {
      BeforeMore(log, x, Node(l[j - 1].ev, Go), Node(l[j].ev, Init));
      BeforeMore(log, x, l[j - 1], Node(l[j].ev, Init));
    }
  }

  lemma LinksKnownMore(puts: map<Fifo, seq<Node>>, links: set<(Node, Node)>, log: seq<Node>, x: Node)
    requires LinksKnown(puts, links, log) && x !in log && forall i, j :: 0 <= i < j < |log| ==> log[i] != log[j]
    ensures LinksKnown(puts, links, log + [x])
  {
    forall k, j, p, d
      ensures OrdersAt(log + [x], PutsIn(puts, UserFifo(k)), j, p, d)
        <==> OrdersAt(log, PutsIn(puts, UserFifo(k)), j, p, d)
    {
      SkipsMore(log, x, PutsIn(puts, UserFifo(k)), j);
    }
    forall p, d ensures Orders(puts, log + [x], p, d) <==> Orders(puts, log, p, d) {}
  }

  // ---------------------------------------------------------------------------------------------
  // One more put

  lemma LastBefore(log: seq<Node>, a: Node, b: Node)
    requires log != [] && log[|log| - 1] == b && a != b && forall i, j :: 0 <= i < j < |log| ==> log[i] != log[j]
    ensures Before(log, a, b) <==> a in log
  {
    if a in log {
      var i :| 0 <= i < |log| && log[i] == a;
      assert i < |log| - 1;
    }
  }

  /** A put waits for the put before it exactly when it does not pass it over. */
  lemma LinkedIff(tr: seq<Hwe>, s: State, f: Fifo, d: Node)
    requires InvCore(tr, s) && CanPut(s, f, d) && f.UserFifo?
    requires s.log != [] && s.log[|s.log| - 1] == Node(d.ev, Init)
    ensures var l := PutsOf(s, f);
            Linked(s, f, d) == if l != [] && !Skips(s.log, l + [d], |l|) then {(l[|l| - 1], d)} else {}
  {
    var l := PutsOf(s, f);
    assert FifoAt(s, f);
    if l != [] {
      var p := l[|l| - 1];
      var m := l + [d];
      assert m[..|l| - 1] == l[..|l| - 1] && m[|l| - 1] == p && m[|l|] == d;
      assert p.stage != Init;
      LastBefore(s.log, p, Node(d.ev, Init));
      LastBefore(s.log, Node(p.ev, Go), Node(d.ev, Init));
      ShadowedFront(l);
      if p !in s.log { QueueShadow(tr, s, f, d); }
    }
  }

  lemma ShadowedFront(l: seq<Node>)
    requires l != []
    ensures Shadowed(l, l[|l| - 1]) <==> Shadowed(l[..|l| - 1], l[|l| - 1])
  {
    assert l == l[..|l| - 1] + [l[|l| - 1]];
  }

  // The queue is null while the last put has not run exactly when that put is shadowed by a 'go' that has run.
  lemma QueueShadow(tr: seq<Hwe>, s: State, f: Fifo, d: Node)
    requires InvCore(tr, s) && CanPut(s, f, d) && PutsOf(s, f) != [] && PutsOf(s, f)[|PutsOf(s, f)| - 1] !in s.log
    ensures var l := PutsOf(s, f);
            f !in s.fifo <==> Shadowed(l, l[|l| - 1]) && Node(l[|l| - 1].ev, Go) in s.log
  {
    var l := PutsOf(s, f);
    var p := l[|l| - 1];
    assert FifoAt(s, f);
    assert StageAt(s, Node(p.ev, Go));
    if Shadowed(l, p) {
      var i :| 0 <= i < |l| && l[i] == Node(p.ev, Go);
      assert f in s.fifo ==> Member(f) in Usr(s, l[i]);
    }
  }

  lemma OrdersGrows(puts: map<Fifo, seq<Node>>, log: seq<Node>, c: nat, d: Node, k: nat, j: nat, a: Node, b: Node)
    ensures var l := PutsIn(puts, UserFifo(c));
            var after := PutsIn(puts[UserFifo(c) := l + [d]], UserFifo(k));
            OrdersAt(log, after, j, a, b) <==>
              OrdersAt(log, PutsIn(puts, UserFifo(k)), j, a, b)
              || (k == c && j == |l| && l != [] && a == l[|l| - 1] && b == d && !Skips(log, l + [d], |l|))
  {
    var l := PutsIn(puts, UserFifo(c));
    if k == c && 0 < j < |l| {
      assert (l + [d])[..j - 1] == l[..j - 1] && (l + [d])[j - 1] == l[j - 1] && (l + [d])[j] == l[j];
    }
  }

  lemma LinksKnownPut(puts: map<Fifo, seq<Node>>, links: set<(Node, Node)>, log: seq<Node>, c: nat, d: Node,
                      linked: set<(Node, Node)>)
    requires LinksKnown(puts, links, log) && Node(d.ev, Init) in log && d.stage != Init
    requires var l := PutsIn(puts, UserFifo(c));
             linked == if l != [] && !Skips(log, l + [d], |l|) then {(l[|l| - 1], d)} else {}
    ensures LinksKnown(puts[UserFifo(c) := PutsIn(puts, UserFifo(c)) + [d]], links + linked, log)
  {
    var l := PutsIn(puts, UserFifo(c));
    var after := puts[UserFifo(c) := l + [d]];
    forall a: Node, b: Node | b.stage != Init ensures (a, b) in links + linked <==> Orders(after, log, a, b) {
      assert (a, b) in links <==> Orders(puts, log, a, b);
      if (a, b) in linked {
        OrdersGrows(puts, log, c, d, c, |l|, a, b);
        assert OrdersAt(log, PutsIn(after, UserFifo(c)), |l|, a, b);
      }
      if Orders(puts, log, a, b) {
        var k, j :| OrdersAt(log, PutsIn(puts, UserFifo(k)), j, a, b);
        OrdersGrows(puts, log, c, d, k, j, a, b);
        assert OrdersAt(log, PutsIn(after, UserFifo(k)), j, a, b);
      }
      if Orders(after, log, a, b) {
        var k, j :| OrdersAt(log, PutsIn(after, UserFifo(k)), j, a, b);
        OrdersGrows(puts, log, c, d, k, j, a, b);
        assert OrdersAt(log, PutsIn(puts, UserFifo(k)), j, a, b) || (a, b) in linked;
      }
    }
    forall k, x | x in PutsIn(after, UserFifo(k)) ensures Node(x.ev, Init) in log {
      assert x in PutsIn(puts, UserFifo(k)) || x == d;
    }
  }

  // Puts in 'init' fifos make no difference.
  lemma LinksKnownInit(puts: map<Fifo, seq<Node>>, links: set<(Node, Node)>, log: seq<Node>, c: nat, l: seq<Node>,
                       linked: set<(Node, Node)>)
    requires LinksKnown(puts, links, log) && forall p, d :: (p, d) in linked ==> d.stage == Init
    ensures LinksKnown(puts[InitFifo(c) := l], links + linked, log)
  {
    var after := puts[InitFifo(c) := l];
    forall k ensures PutsIn(after, UserFifo(k)) == PutsIn(puts, UserFifo(k)) {}
    forall a: Node, b: Node | b.stage != Init ensures (a, b) in links + linked <==> Orders(after, log, a, b) {
      assert (a, b) in links <==> Orders(puts, log, a, b);
      if Orders(puts, log, a, b) {
        var k, j :| OrdersAt(log, PutsIn(puts, UserFifo(k)), j, a, b);
        assert OrdersAt(log, PutsIn(after, UserFifo(k)), j, a, b);
      }
      if Orders(after, log, a, b) {
        var k, j :| OrdersAt(log, PutsIn(after, UserFifo(k)), j, a, b);
        assert OrdersAt(log, PutsIn(puts, UserFifo(k)), j, a, b);
      }
    }
  }
}
