/**
 What the verdicts mean: a problem is a pair of ordered accesses between which nothing made them
 coherent, and an undefined order is a pair of unordered accesses of two caches.
 */
module CoherenceTheorems {
  import opened CoherenceLog
  import opened CoherenceOracle

  ghost predicate None(h: seq<Entry>, lo: int, hi: int, kind: Kind)
  {
    forall j :: lo < j < hi && 0 <= j < |h| ==> h[j].kind != kind
  }

  ghost predicate NoWriteBy(h: seq<Entry>, lo: int, hi: int, id: CacheId)
  {
    forall j :: lo < j < hi ==> !WriteBy(h, j, id)
  }

  ghost predicate NoFetchBy(h: seq<Entry>, lo: int, hi: int, id: CacheId)
  {
    forall j :: lo < j < hi ==> !FetchBy(h, j, id)
  }

  // Access `k` reads memory although the newest value, of access `i`, has not been written there.
  ghost predicate Unwritten(h: seq<Entry>, i: int, k: int)
  {
    && 0 <= i < k < |h|
    && h[i].kind == ModifyAck && None(h, i, k, ModifyAck)
    && NoWriteBy(h, i, k, h[i].access.id)
  }

  // Access `k` uses a cached copy older than the value that access `i` put in memory.
  ghost predicate Stale(h: seq<Entry>, i: int, k: int)
  {
    && 0 <= i < k < |h|
    && h[i].kind == WriteReq && None(h, i, k, WriteReq)
    && WrittenBack(h[..k])
    && h[i].access.id != h[k].access.id && NoFetchBy(h, i, k, h[k].access.id)
  }

  ghost predicate Conflict(h: seq<Entry>, i: int, k: int, v: Verdict)
  {
    && 0 <= i < k < |h|
    && Before(h[i].access, h[k].access)
    && match v {
         case ModReadAck => h[k].kind == ReadAck && Unwritten(h, i, k) && h[i].access.id != h[k].access.id
         case ModReadReq => h[k].kind == ReadReq && Unwritten(h, i, k)
         case WriteReadAck => h[k].kind == ReadAck && Stale(h, i, k)
         case WriteFlush => h[k].kind == WriteReq && Stale(h, i, k)
         case _ => false
       }
  }

  lemma LastHas(h: seq<Entry>, k: int, kind: Kind)
    requires 0 <= k <= |h|
    ensures var p := LastOf(h[..k], kind); None(h, p, k, kind) && (0 <= p ==> h[..k][p] == h[p])
  {
    forall j | LastOf(h[..k], kind) < j < k && 0 <= j < |h| ensures h[j].kind != kind {
      assert h[..k][j] == h[j];
    }
  }

  lemma LastIs(h: seq<Entry>, k: int, i: int, kind: Kind)
    requires 0 <= i < k <= |h| && h[i].kind == kind && None(h, i, k, kind)
    ensures LastOf(h[..k], kind) == i
  {
    assert h[..k][i] == h[i];
    LastHas(h, k, kind);
  }

  lemma UnwrittenIff(h: seq<Entry>, i: int, k: int)
    requires 0 <= k < |h|
    ensures Unwritten(h, i, k) <==> Modifying(h[..k]) && LastModify(h[..k]) == i
  {
    var g := h[..k];
    LastHas(h, k, ModifyAck);
    if Unwritten(h, i, k) {
      LastIs(h, k, i, ModifyAck);
    }
    if LastModify(g) == i && 0 <= i {
      var id := h[i].access.id;
      forall j | 0 <= j < k ensures WriteBy(g, j, id) <==> WriteBy(h, j, id) {
        assert g[j] == h[j];
      }
    }
  }

  lemma StaleIff(h: seq<Entry>, i: int, k: int)
    requires 0 <= k < |h|
    ensures Stale(h, i, k)
       <==> WrittenBack(h[..k]) && 0 <= i && LastWrite(h[..k]) == i && !Sharer(h[..k], h[k].access.id)
  {
    var g := h[..k];
    LastHas(h, k, WriteReq);
    if Stale(h, i, k) {
      LastIs(h, k, i, WriteReq);
    }
    if LastWrite(g) == i && 0 <= i {
      var id := h[k].access.id;
      forall j | 0 <= j < k ensures FetchBy(g, j, id) <==> FetchBy(h, j, id) {
        assert g[j] == h[j];
      }
    }
  }

  /** An access is a problem of a kind exactly when a conflict of that kind ends at it. */
  lemma ProblemIff(h: seq<Entry>, k: int, v: Verdict)
    requires 0 <= k < |h| && v != Fine && v != Undefined
    ensures Blame(h[..k], h[k]) == v <==> exists i :: Conflict(h, i, k, v)
  {
    var g := h[..k];
    var q, w := LastModify(g), LastWrite(g);
    LastHas(h, k, ModifyAck);
    LastHas(h, k, WriteReq);
    if Blame(g, h[k]) == v {
      UnwrittenIff(h, q, k);
      StaleIff(h, w, k);
      if v == ModReadAck || v == ModReadReq {
        assert Conflict(h, q, k, v);
      } else {
        assert Conflict(h, w, k, v);
      }
    }
    if exists i :: Conflict(h, i, k, v) {
      var i :| Conflict(h, i, k, v);
      UnwrittenIff(h, i, k);
      StaleIff(h, i, k);
    }
  }

  // ---------------------------------------------------------------------------------------------
  // Whole logs

  // The access the verdict is about.
  lemma {:induction false} FirstFault(h: seq<Entry>) returns (k: int)
    requires VerdictOf(h) != Fine
    ensures 0 <= k < |h| && VerdictOf(h[..k]) == Fine && Blame(h[..k], h[k]) == VerdictOf(h)
  {
    var n := |h| - 1;
    if VerdictOf(h[..n]) == Fine {
      k := n;
    } else {
      k := FirstFault(h[..n]);
      assert h[..n][..k] == h[..k];
    }
  }

  lemma {:induction false} FaultStays(h: seq<Entry>, k: int)
    requires 0 <= k < |h| && VerdictOf(h[..k]) == Fine && Blame(h[..k], h[k]) != Fine
    ensures VerdictOf(h) == Blame(h[..k], h[k])
  {
    var n := |h| - 1;
    if k < n {
      assert h[..n][..k] == h[..k];
      FaultStays(h[..n], k);
    }
  }

  lemma {:induction false} CleanAt(h: seq<Entry>, k: int)
    requires 0 <= k < |h| && VerdictOf(h) == Fine
    ensures Blame(h[..k], h[k]) == Fine
  {
    var n := |h| - 1;
    if k < n {
      assert h[..n][..k] == h[..k] && h[..n][k] == h[k];
      CleanAt(h[..n], k);
    }
  }

  /** A log is coherent exactly when none of its accesses is to blame for anything. */
  lemma CleanIff(h: seq<Entry>)
    ensures VerdictOf(h) == Fine <==> forall k :: 0 <= k < |h| ==> Blame(h[..k], h[k]) == Fine
  {
    if VerdictOf(h) != Fine {
      var k := FirstFault(h);
    } else {
      forall k | 0 <= k < |h| ensures Blame(h[..k], h[k]) == Fine {
        CleanAt(h, k);
      }
    }
  }

  /** A verdict is a problem of a kind exactly when a conflict of that kind is the first fault. */
  lemma VerdictIff(h: seq<Entry>, v: Verdict)
    requires v != Fine && v != Undefined
    ensures VerdictOf(h) == v <==> exists i, k :: Conflict(h, i, k, v) && VerdictOf(h[..k]) == Fine
  {
    if VerdictOf(h) == v {
      var k := FirstFault(h);
      ProblemIff(h, k, v);
    }
    if exists i, k :: Conflict(h, i, k, v) && VerdictOf(h[..k]) == Fine {
      var i, k :| Conflict(h, i, k, v) && VerdictOf(h[..k]) == Fine;
      ProblemIff(h, k, v);
      FaultStays(h, k);
    }
  }

  // ---------------------------------------------------------------------------------------------
  // Undefined orders

  lemma {:induction false} ReaderLogged(h: seq<Entry>)
    ensures LastReader(h) == Nobody || exists r :: 0 <= r < |h| && Of(h[r].access) == LastReader(h)
  {
    if |h| > 0 {
      var n := |h| - 1;
      ReaderLogged(h[..n]);
      if LastReader(h) == LastReader(h[..n]) && LastReader(h) != Nobody {
        var r :| 0 <= r < n && Of(h[..n][r].access) == LastReader(h);
        assert Of(h[r].access) == LastReader(h);
      }
    }
  }

  ghost predicate Unordered(h: seq<Entry>, i: int, k: int)
  {
    && 0 <= i < k < |h|
    && !Before(h[i].access, h[k].access)
    && (h[i].kind != ReadAck || h[k].kind != ReadAck)
  }

  // Accesses of one cache are ordered, two acknowledged reads aside.
  ghost predicate SameCacheOrdered(h: seq<Entry>)
  {
    forall i, k :: Unordered(h, i, k) ==> h[i].access.id != h[k].access.id
  }

  lemma UndefinedAt(h: seq<Entry>, k: int)
    requires 0 <= k < |h| && Blame(h[..k], h[k]) == Undefined
    ensures exists i :: Unordered(h, i, k)
  {
    var g := h[..k];
    LastHas(h, k, ModifyAck);
    LastHas(h, k, WriteReq);
    var q, w := LastModify(g), LastWrite(g);
    if h[k].kind == ModifyAck && Pos(LastReader(g)) > h[k].access.pre {
      ReaderLogged(g);
      var r :| 0 <= r < k && Of(g[r].access) == LastReader(g);
      assert g[r] == h[r];
      assert Unordered(h, r, k);
    } else if Modifying(g) {
      assert Unordered(h, q, k);
    } else {
      assert Unordered(h, w, k);
    }
  }

  /** An undefined order is one between accesses of two caches. */
  lemma UndefinedForeign(h: seq<Entry>)
    requires VerdictOf(h) == Undefined && SameCacheOrdered(h)
    ensures exists i, k :: Unordered(h, i, k) && h[i].access.id != h[k].access.id && VerdictOf(h[..k]) == Fine
  {
    var k := FirstFault(h);
    UndefinedAt(h, k);
    var i :| Unordered(h, i, k);
    assert Unordered(h, i, k) && h[i].access.id != h[k].access.id && VerdictOf(h[..k]) == Fine;
  }

  // ---------------------------------------------------------------------------------------------
  // Counters

  lemma Union(s: set<nat>, a: set<nat>, b: set<nat>)
    requires s == a + b && a !! b
    ensures |s| == |a| + |b|
  {
  }

  lemma Union5(s: set<nat>, a: set<nat>, b: set<nat>, c: set<nat>, d: set<nat>, e: set<nat>)
    requires forall x :: x in s <==> x in a || x in b || x in c || x in d || x in e
    requires a !! b !! c !! d !! e
    ensures |s| == |a| + |b| + |c| + |d| + |e|
  {
    Union(a + b, a, b);
    Union(a + b + c, a + b, c);
    Union(a + b + c + d, a + b + c, d);
    Union(s, a + b + c + d, e);
  }

  lemma JudgedSum(log: map<nat, seq<Entry>>, bad: set<nat>)
    requires forall a :: a in bad <==> a in log && VerdictOf(log[a]) != Fine
    ensures |bad| == |Judged(log, ModReadAck)| + |Judged(log, ModReadReq)| + |Judged(log, WriteReadAck)|
                     + |Judged(log, WriteFlush)| + |Judged(log, Undefined)|
  {
    Union5(bad, Judged(log, ModReadAck), Judged(log, ModReadReq), Judged(log, WriteReadAck),
           Judged(log, WriteFlush), Judged(log, Undefined));
  }

  lemma WarnedSum(log: map<nat, seq<Entry>>, warned: set<nat>)
    requires forall a :: a in warned <==> a in log && WarningOf(log[a]) != Quiet
    ensures |warned| == |Warned(log, ModReadAlloc)| + |Warned(log, ModWrite)|
  {
    Union(warned, Warned(log, ModReadAlloc), Warned(log, ModWrite));
  }

  lemma MatchAt(cells: map<nat, Cell>, log: map<nat, seq<Entry>>, a: nat)
    requires AllMatch(cells, log)
    ensures (a in cells && cells[a].state == State.Problem) <==> (a in log && VerdictOf(log[a]) != Fine)
    ensures (a in cells && cells[a].warned) <==> (a in log && WarningOf(log[a]) != Quiet)
  {
    assert Matches(At(cells, a), LogAt(log, a));
  }

  ghost function ProblemCells(cells: map<nat, Cell>): set<nat>
  {
    set a | a in cells && cells[a].state == State.Problem
  }

  ghost function WarnedCells(cells: map<nat, Cell>): set<nat>
  {
    set a | a in cells && cells[a].warned
  }

  /** The bytes in the problem state are as many as the problems and the undefined orders. */
  lemma ProblemAddresses(o: Oracle)
    requires o.Inv()
    ensures |ProblemCells(o.cells)| == o.problem.total + o.undefined
  {
    ProblemsSet(o.cells, o.log);
    JudgedSum(o.log, ProblemCells(o.cells));
  }

  lemma ProblemsSet(cells: map<nat, Cell>, log: map<nat, seq<Entry>>)
    requires AllMatch(cells, log)
    ensures forall a :: a in ProblemCells(cells) <==> a in log && VerdictOf(log[a]) != Fine
    ensures forall a :: a in WarnedCells(cells) <==> a in log && WarningOf(log[a]) != Quiet
  {
    forall a: nat
      ensures a in ProblemCells(cells) <==> a in log && VerdictOf(log[a]) != Fine
      ensures a in WarnedCells(cells) <==> a in log && WarningOf(log[a]) != Quiet
    {
      MatchAt(cells, log, a);
    }
  }

  /** The bytes that carry a warning are as many as the warnings. */
  lemma WarnedAddresses(o: Oracle)
    requires o.Inv()
    ensures |WarnedCells(o.cells)| == o.warning.total
  {
    ProblemsSet(o.cells, o.log);
    WarnedSum(o.log, WarnedCells(o.cells));
  }
}
