/**
 What the pool of nodes of lib/decopus/trace/utils/include/avl.h stands for: reading it from the
 root gives the sorted sequence of all the keys, and its height is the one of a balanced tree.
 */
module AvlTheorems {
  import opened Common
  import opened AvlShape
  import opened AvlBalance
  import opened AvlUpdate

  lemma Kids(g: Shape, p: nat)
    requires Linked(g) && g.Has(p)
    ensures forall s :: g.At(p).Child(s) != 0 ==> g.Has(g.At(p).Child(s)) && Below(g, g.At(p).Child(s)) < Below(g, p)
    ensures g.At(p).left != 0 ==> g.Has(g.At(p).left) && Below(g, g.At(p).left) < Below(g, p)
    ensures g.At(p).right != 0 ==> g.Has(g.At(p).right) && Below(g, g.At(p).right) < Below(g, p)
  {
    assert NodeOk(g, p);
    forall s | g.At(p).Child(s) != 0 ensures g.Has(g.At(p).Child(s)) && Below(g, g.At(p).Child(s)) < Below(g, p) {
      assert ChildOk(g, p, s);
      BelowShrinks(g, p, s);
    }
    assert g.At(p).Child(Left) == g.At(p).left && g.At(p).Child(Right) == g.At(p).right;
  }

  // ---------------------------------------------------------------------------------------------
  // Order

  // The keys below `p`, from left to right.
  ghost function InOrder(g: Shape, p: nat): seq<int>
    requires Linked(g) && (p == 0 || g.Has(p))
    decreases p != 0, Below(g, p)
  {
    if p == 0 then []
    else
      Kids(g, p);
      InOrder(g, g.At(p).left) + [g.At(p).key] + InOrder(g, g.At(p).right)
  }

  ghost predicate Increasing(q: seq<int>) { forall i, j :: 0 <= i < j < |q| ==> q[i] < q[j] }

  ghost predicate AllWithin(q: seq<int>, b: Bounds) { forall i :: 0 <= i < |q| ==> Within(b, q[i]) }

  lemma Joined(a: seq<int>, k: int, c: seq<int>, b: Bounds)
    requires Increasing(a) && Increasing(c) && Within(b, k)
    requires AllWithin(a, Part(b, k, Left)) && AllWithin(c, Part(b, k, Right))
    ensures Increasing(a + [k] + c) && AllWithin(a + [k] + c, b)
  {
    var q := a + [k] + c;
    forall i | 0 <= i < |q| ensures Within(b, q[i]) && (i < |a| ==> q[i] < k) && (i > |a| ==> k < q[i]) {
      if i < |a| { assert q[i] == a[i]; } else if i > |a| { assert q[i] == c[i - |a| - 1]; }
    }
    forall i, j | 0 <= i < j < |q| ensures q[i] < q[j] {
      if j < |a| { assert q[i] == a[i] && q[j] == a[j]; }
      if i > |a| { assert q[i] == c[i - |a| - 1] && q[j] == c[j - |a| - 1]; }
    }
  }

  lemma {:induction false} SubtreeSorted(g: Shape, p: nat)
    requires Linked(g) && g.Has(p)
    ensures Increasing(InOrder(g, p)) && AllWithin(InOrder(g, p), g.In(p))
    decreases Below(g, p)
  {
    Kids(g, p);
    assert NodeOk(g, p);
    var l, r := g.At(p).left, g.At(p).right;
    assert ChildOk(g, p, Left) && ChildOk(g, p, Right);
    if l != 0 { SubtreeSorted(g, l); }
    if r != 0 { SubtreeSorted(g, r); }
    Joined(InOrder(g, l), g.At(p).key, InOrder(g, r), g.In(p));
  }

  lemma {:induction false} SubtreeHasAll(g: Shape, p: nat, q: nat)
    requires Linked(g) && g.Has(p) && g.Has(q) && Within(g.In(p), g.At(q).key)
    ensures g.At(q).key in InOrder(g, p)
    decreases Below(g, p)
  {
    Kids(g, p);
    assert NodeOk(g, p);
    var k := g.At(q).key;
    if k != g.At(p).key {
      var s := SideOf(k, g.At(p).key);
      var c := g.At(p).Child(s);
      assert ChildOk(g, p, s);
      if c == 0 { NoKey(g, p, s, q); } else { SubtreeHasAll(g, c, q); }
    }
  }

  lemma {:induction false} SubtreeHasOnly(g: Shape, p: nat, k: int)
    requires Linked(g) && g.Has(p) && k in InOrder(g, p)
    ensures exists q :: g.Has(q) && g.At(q).key == k
    decreases Below(g, p)
  {
    Kids(g, p);
    var l, r := g.At(p).left, g.At(p).right;
    if k == g.At(p).key {
    } else if k in InOrder(g, l) {
      SubtreeHasOnly(g, l, k);
    } else {
      assert k in InOrder(g, r);
      SubtreeHasOnly(g, r, k);
    }
  }

  /** From left to right the tree is the strictly increasing sequence of exactly its keys. */
  lemma SortedKeys(g: Shape)
    requires Linked(g)
    ensures Increasing(InOrder(g, g.root))
    ensures forall k :: k in InOrder(g, g.root) <==> exists q :: g.Has(q) && g.At(q).key == k
  {
    if g.root != 0 {
      SubtreeSorted(g, g.root);
      assert NodeOk(g, g.root);
      forall q | g.Has(q) ensures g.At(q).key in InOrder(g, g.root) { SubtreeHasAll(g, g.root, q); }
      forall k | k in InOrder(g, g.root) ensures exists q :: g.Has(q) && g.At(q).key == k {
        SubtreeHasOnly(g, g.root, k);
      }
    }
  }

  // ---------------------------------------------------------------------------------------------
  // Height

  // The least number of nodes of a balanced tree of height `n`.
  ghost function LeastNodes(n: nat): nat
  {
    if n == 0 then 0 else if n == 1 then 1 else 1 + LeastNodes(n - 1) + LeastNodes(n - 2)
  }

  lemma {:induction false} LeastNodesDouble(n: nat)
    requires n >= 2
    ensures LeastNodes(n) >= 2 * LeastNodes(n - 2) + 1 && LeastNodes(n) >= LeastNodes(n - 1)
    ensures LeastNodes(n - 1) >= LeastNodes(n - 2)
  {
    if n > 2 { LeastNodesDouble(n - 1); }
  }

  ghost function Power2(n: nat): nat { if n == 0 then 1 else 2 * Power2(n - 1) }

  lemma {:induction false} LeastNodesPower(n: nat)
    ensures LeastNodes(2 * n) + 1 >= Power2(n)
  {
    if n > 0 {
      LeastNodesPower(n - 1);
      LeastNodesDouble(2 * n);
    }
  }

  lemma Disjoint(g: Shape, p: nat)
    requires Linked(g) && g.Has(p)
    ensures |Below(g, p)| >= 1 + Size(g, g.At(p).left) + Size(g, g.At(p).right)
  {
    assert NodeOk(g, p);
    var l, r := g.At(p).left, g.At(p).right;
    assert ChildOk(g, p, Left) && ChildOk(g, p, Right);
    var a := if l == 0 then {} else Below(g, l);
    var b := if r == 0 then {} else Below(g, r);
    assert a !! b && p !in a && p !in b;
    assert a + b + {p} <= Below(g, p);
    Larger(a + b + {p}, Below(g, p));
  }

  lemma Larger(a: set<nat>, b: set<nat>)
    requires a <= b
    ensures |a| <= |b|
  {
    assert b == a + (b - a);
  }

  ghost function Size(g: Shape, p: nat): nat { if p == 0 then 0 else |Below(g, p)| }

  lemma {:induction false} SubtreeSize(g: Shape, h: map<nat, nat>, p: nat)
    requires Linked(g) && Balanced(g, h) && (p == 0 || g.Has(p))
    ensures Size(g, p) >= LeastNodes(H(h, p))
    decreases p != 0, Below(g, p)
  {
    if p != 0 {
      Kids(g, p);
      assert NodeOk(g, p) && HeightOk(g, h, p);
      var l, r := g.At(p).left, g.At(p).right;
      SubtreeSize(g, h, l);
      SubtreeSize(g, h, r);
      Disjoint(g, p);
      var n := H(h, p);
      if n >= 2 { LeastNodesDouble(n); }
    }
  }

  /** The height of the tree is at most about twice the logarithm of the number of nodes. */
  lemma HeightBound(g: Shape, h: map<nat, nat>)
    requires Linked(g) && Balanced(g, h)
    ensures |g.nodes.Keys| + 1 >= Power2(H(h, g.root) / 2)
  {
    var n := H(h, g.root);
    SubtreeSize(g, h, g.root);
    if g.root != 0 { Larger(Below(g, g.root), g.nodes.Keys); }
    LeastNodesPower(n / 2);
    if n % 2 == 1 && n >= 2 { LeastNodesDouble(n); }
  }

  // ---------------------------------------------------------------------------------------------
  // Hints

  // A finite end of an interval is the key of a node above.
  lemma {:induction false} EndIsKey(g: Shape, p: nat, s: Side) returns (q: nat)
    requires Linked(g) && g.Has(p) && Edge(g.In(p), s).Some?
    ensures g.Has(q) && g.At(q).key == Edge(g.In(p), s).value
    decreases g.nodes.Keys - Below(g, p)
  {
    assert NodeOk(g, p);
    var f := g.At(p).father;
    assert NodeOk(g, f);
    assert ChildOk(g, f, g.At(p).side);
    if g.At(p).side != s {
      q := f;
    } else {
      BelowShrinks(g, f, g.At(p).side);
      q := EndIsKey(g, f, s);
    }
  }

  /** The future neighbours of a key are hints that `AVL_add` can start from. */
  lemma NeighbourIsHint(g: Shape, p: nat, k: int)
    requires Linked(g) && g.Has(p) && g.At(p).key != k
    requires forall q :: g.Has(q) ==> !(g.At(p).key < g.At(q).key <= k) && !(k <= g.At(q).key < g.At(p).key)
    ensures Within(g.In(p), k)
  {
    assert NodeOk(g, p);
    if g.In(p).lo.Some? { var q := EndIsKey(g, p, Left); }
    if g.In(p).hi.Some? { var q := EndIsKey(g, p, Right); }
  }

  // The node `n` places above `p`; 0 if there is none.
  ghost function Above(g: Shape, p: nat, n: nat): nat
  {
    if n == 0 then p else
      var q := Above(g, p, n - 1);
      if g.Has(q) then g.At(q).father else 0
  }

  /** So are all the nodes above a hint: the ancestors of the future neighbours. */
  lemma {:induction false} AncestorIsHint(g: Shape, p: nat, k: int, n: nat)
    requires Linked(g) && g.Has(p) && Within(g.In(p), k)
    ensures Above(g, p, n) != 0 ==> g.Has(Above(g, p, n)) && Within(g.In(Above(g, p, n)), k)
  {
    assert NodeOk(g, p);
    if n > 0 {
      AncestorIsHint(g, p, k, n - 1);
      var q := Above(g, p, n - 1);
      if g.Has(q) {
        assert NodeOk(g, q);
        var f := g.At(q).father;
        if f != 0 { assert NodeOk(g, f) && ChildOk(g, f, g.At(q).side) && Within(g.In(f), g.At(f).key); }
      }
    }
  }
}
