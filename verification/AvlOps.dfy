/**
 The operations of lib/decopus/trace/utils/include/avl.h on the pool of nodes.
 */
module AvlOps {
  import opened Common
  import opened AvlShape
  import opened AvlBalance
  import opened AvlUpdate

  ghost function TurnAt(g: Shape, r: nat, s: Side): Turn
  {
    var n := g.At(r).Child(Other(s));
    Turn(r, s, n, g.At(n).Child(s), g.At(r).father)
  }

  // The keys are as they were.
  ghost predicate SameKeys(g: Shape, t: Shape)
  {
    (forall p :: t.Has(p) <==> g.Has(p)) && (forall p :: g.Has(p) ==> t.At(p).key == g.At(p).key)
  }

  lemma TurnedKeys(g: Shape, t: Shape, x: Turn)
    requires Turning(g, x) && Turned(g, t, x)
    ensures SameKeys(g, t)
  {
    TurnDistinct(g, x);
    forall p | g.Has(p) ensures t.At(p).key == g.At(p).key { assert NodeOk(g, p); }
  }

  // The two halves of `AVL_rot`: `n` gets the father of `r`, and then `r` and `c` get theirs.
  ghost function RaisedNode(g: Shape, x: Turn, p: nat): Node
  {
    if p == x.n then g.At(p).(father := x.f, side := g.At(x.r).side)
    else if p == x.f && x.f != 0 then g.At(p).SetChild(g.At(x.r).side, x.n)
    else g.At(p)
  }

  ghost function MovedNode(a: Node, x: Turn, p: nat): Node
  {
    if p == x.n then a.SetChild(x.s, x.r)
    else if p == x.r then a.(father := x.n, side := x.s).SetChild(Other(x.s), x.c)
    else if p == x.c && x.c != 0 then a.(father := x.r, side := Other(x.s))
    else a
  }

  ghost predicate Raised(g: Shape, m: map<nat, Node>, x: Turn)
  {
    && (forall p :: p in m <==> g.Has(p))
    && (forall p :: p in m ==> m[p] == RaisedNode(g, x, p))
  }

  ghost predicate Moved(m: map<nat, Node>, t: map<nat, Node>, x: Turn)
  {
    && (forall p :: p in t <==> p in m)
    && (forall p :: p in m ==> t[p] == MovedNode(m[p], x, p))
  }

  lemma MovedTurned(g: Shape, m: map<nat, Node>, t: Shape, x: Turn)
    requires Turning(g, x) && Raised(g, m, x) && Moved(m, t.nodes, x)
    requires t.root == if x.f == 0 then x.n else g.root
    requires t.bounds == g.bounds[x.n := g.In(x.r)][x.r := Part(g.In(x.r), g.At(x.n).key, x.s)]
    ensures Turned(g, t, x)
  {
    TurnDistinct(g, x);
  }

  // Two rotations in a row: first `n`, the child of `e` on side `w`, to `w`, and then `e` away from `w`.
  ghost predicate TwoTurns(g: Shape, t1: Shape, t2: Shape, e: nat, n: nat, c: nat, w: Side)
  {
    && Linked(g) && g.Has(e) && n == g.At(e).Child(w) && n != 0 && c == g.At(n).Child(Other(w)) && c != 0
    && Turned(g, t1, TurnAt(g, n, w)) && Turned(t1, t2, TurnAt(t1, e, Other(w)))
  }

  // Where the pointers are after them.
  ghost predicate Twice(g: Shape, t: Shape, e: nat, n: nat, c: nat, w: Side)
  {
    && t.At(c).Child(w) == n && t.At(c).Child(Other(w)) == e
    && t.At(n).Child(w) == g.At(n).Child(w) && t.At(n).Child(Other(w)) == g.At(c).Child(w)
    && t.At(e).Child(w) == g.At(c).Child(Other(w)) && t.At(e).Child(Other(w)) == g.At(e).Child(Other(w))
    && t.At(c).father == g.At(e).father && t.At(c).side == g.At(e).side && t.In(c) == g.In(e)
    && KeptBut(g, t, Trio(e, n, c), g.At(e).father)
    && (g.At(e).father != 0 ==> t.At(g.At(e).father) == g.At(g.At(e).father).SetChild(g.At(e).side, c))
  }

  lemma FirstTurn(g: Shape, t1: Shape, e: nat, n: nat, c: nat, w: Side)
    requires Linked(g) && g.Has(e) && n == g.At(e).Child(w) && n != 0 && c == g.At(n).Child(Other(w)) && c != 0
    requires Turned(g, t1, TurnAt(g, n, w))
    ensures Linked(t1) && t1.At(e) == g.At(e).SetChild(w, c) && t1.In(e) == g.In(e)
    ensures Turning(t1, TurnAt(t1, e, Other(w)))
  {
    var x := TurnAt(g, n, w);
    DoubleDistinct(g, e, n, c, w);
    assert NodeOk(g, n) && NodeOk(g, e);
    assert ChildOk(g, e, w);
    TurnedLinked(g, t1, x);
  }

  lemma TwiceDone(g: Shape, t1: Shape, t2: Shape, e: nat, n: nat, c: nat, w: Side)
    requires TwoTurns(g, t1, t2, e, n, c, w)
    ensures Linked(t2) && Twice(g, t2, e, n, c, w)
  {
    var x := TurnAt(g, n, w);
    DoubleDistinct(g, e, n, c, w);
    FirstTurn(g, t1, e, n, c, w);
    TurnDistinct(g, x);
    var a, f := x.c, g.At(e).father;
    assert NodeOk(g, e) && NodeOk(g, n) && NodeOk(g, c);
    if a != 0 { assert NodeOk(g, a); }
    if f != 0 { assert NodeOk(g, f); }
    assert f != 0 ==> f != a;
    TurnDistinct(t1, TurnAt(t1, e, Other(w)));
    TurnedLinked(t1, t2, TurnAt(t1, e, Other(w)));
    forall p | g.Has(p) && p != e && p != n && p != c && p != f ensures Kept(g, t2, p) {
      assert NodeOk(g, p);
      assert Kept(g, t1, p);
    }
  }

  // The heights after one rotation, and after two.
  ghost function SingleAfter(g: Shape, h: map<nat, nat>, x: Turn, add: bool): map<nat, nat>
  {
    h[x.r := 1 + Max(H(h, x.c), Kid(g, h, x.r, x.s))][x.n := Plus(H(h, x.r), OneTurn(g.At(x.n).balance != 0, add))]
  }

  ghost function DoubleAfter(g: Shape, h: map<nat, nat>, e: nat, n: nat, c: nat, w: Side, add: bool): map<nat, nat>
  {
    h[n := 1 + Max(Kid(g, h, n, w), Kid(g, h, c, w))]
     [e := 1 + Max(Kid(g, h, c, Other(w)), Kid(g, h, e, Other(w)))]
     [c := Plus(H(h, e), OneTurn(true, add))]
  }

  ghost function Plus(a: nat, v: int): nat { if a + v < 0 then 0 else a + v }

  // A subtree is in balance again: `n` took the place of `e`, and its height changed by `v`.
  ghost predicate Back(g: Shape, t: Shape, k: map<nat, nat>, e: nat, n: nat, v: int)
  {
    && Linked(t) && t.Has(n) && t.At(n).father == g.At(e).father && t.At(n).side == g.At(e).side && t.In(n) == g.In(e)
    && SameKeys(g, t)
    && Settled(t, k, g.At(e).father, g.At(e).side, n, v)
  }

  lemma SingleBack(g: Shape, h: map<nat, nat>, t1: Shape, t: Shape, x: Turn, w: Side, add: bool, b: int, c: int)
    requires Single(g, h, x, w, add) && Turned(g, t1, x) && Rebalanced(t1, t, x.n, b, x.r, c)
    requires (g.At(x.n).balance != 0 ==> b == 0 && c == 0)
    requires (g.At(x.n).balance == 0 ==> b == Signed(w, -1) && c == Signed(w, 1))
    ensures Back(g, t, SingleAfter(g, h, x, add), x.r, x.n, OneTurn(g.At(x.n).balance != 0, add))
  {
    TurnDistinct(g, x);
    TurnedLinked(g, t1, x);
    TurnedKeys(g, t1, x);
    RebalancedLinked(t1, t, x.n, b, x.r, c);
    forall p | g.Has(p) && p != x.r && p != x.n && p != x.f ensures Kept(g, t, p) { assert NodeOk(g, p); }
    SingleSettled(g, h, t, SingleAfter(g, h, x, add), x, w, add);
  }

  // The balance factors of the three nodes of a double rotation.
  ghost predicate Rebalanced3(g: Shape, t: Shape, c: nat, l: nat, bl: int, r: nat, br: int)
  {
    && (forall u :: t.Has(u) <==> g.Has(u))
    && (forall u :: g.Has(u) ==>
         t.At(u) == g.At(u).(
           balance := if u == c then 0 else if u == l then bl else if u == r then br else g.At(u).balance))
    && t.root == g.root && (forall u :: t.In(u) == g.In(u))
  }

  lemma Rebalanced3Linked(g: Shape, t: Shape, c: nat, l: nat, bl: int, r: nat, br: int)
    requires Linked(g) && Rebalanced3(g, t, c, l, bl, r, br)
    ensures Linked(t)
  {
    forall u | t.Has(u) ensures NodeOk(t, u) {
      assert NodeOk(g, u);
      if g.At(u).father != 0 { assert NodeOk(g, g.At(u).father); }
    }
  }

  lemma DoubleBack(g: Shape, h: map<nat, nat>, t1: Shape, t2: Shape, t: Shape, e: nat, n: nat, c: nat, w: Side,
                   add: bool)
    requires Double(g, h, e, n, c, w, add) && TwoTurns(g, t1, t2, e, n, c, w)
    requires Rebalanced3(t2, t, c, t2.At(c).left, LeftAfter(g.At(c).balance),
                         t2.At(c).right, RightAfter(g.At(c).balance))
    ensures Back(g, t, DoubleAfter(g, h, e, n, c, w, add), e, c, OneTurn(true, add))
  {
    DoubleDistinct(g, e, n, c, w);
    TwiceDone(g, t1, t2, e, n, c, w);
    FirstTurn(g, t1, e, n, c, w);
    TurnedKeys(g, t1, TurnAt(g, n, w));
    TurnedKeys(t1, t2, TurnAt(t1, e, Other(w)));
    Rebalanced3Linked(t2, t, c, t2.At(c).left, LeftAfter(g.At(c).balance), t2.At(c).right, RightAfter(g.At(c).balance));
    DoubleRest(g, h, t2, t, e, n, c, w, add);
  }

  lemma DoubleRest(g: Shape, h: map<nat, nat>, t2: Shape, t: Shape, e: nat, n: nat, c: nat, w: Side, add: bool)
    requires Double(g, h, e, n, c, w, add) && Twice(g, t2, e, n, c, w)
    requires Rebalanced3(t2, t, c, t2.At(c).left, LeftAfter(g.At(c).balance),
                         t2.At(c).right, RightAfter(g.At(c).balance))
    ensures Settled(t, DoubleAfter(g, h, e, n, c, w, add), g.At(e).father, g.At(e).side, c, OneTurn(true, add))
  {
    DoubleDistinct(g, e, n, c, w);
    forall p | g.Has(p) && p != e && p != n && p != c && p != g.At(e).father ensures Kept(g, t, p) {
      assert Kept(g, t2, p);
    }
    if g.At(e).father != 0 { assert NodeOk(g, e); }
    assert DoubleDone(g, t, e, n, c, w);
    DoubleSettled(g, h, t, DoubleAfter(g, h, e, n, c, w, add), e, n, c, w, add);
  }

  // The child on the heavy side exists, and so does its inner child if it leans to the inside.
  lemma HeavyChild(g: Shape, h: map<nat, nat>, e: nat, w: Side, add: bool)
    requires Linked(g) && Heavy(g, h, e, w, add)
    ensures var c := g.At(e).Child(w);
      && c != 0 && g.Has(c) && HeightOk(g, h, c) && Turning(g, TurnAt(g, e, Other(w)))
      && (g.At(c).balance == Signed(w, 1) || g.At(c).balance == 0 ==> Single(g, h, TurnAt(g, e, Other(w)), w, add))
      && (g.At(c).balance != Signed(w, 1) && g.At(c).balance != 0 ==>
         Double(g, h, e, c, g.At(c).Child(Other(w)), w, add))
  {
    var c := g.At(e).Child(w);
    Parents(g, e, w);
    assert NodeOk(g, e) && NodeOk(g, c);
    assert HeightOk(g, h, c);
    Leaning(g, h, c, w);
  }

  // Nothing is left to do, or `e` is next.
  ghost predicate Due(g: Shape, h: map<nat, nat>, e: nat, s: Side, add: bool)
  {
    if e == 0 then Balanced(g, h) else Pending(g, h, e, s, Diff(add))
  }

  // The nodes outside of the interval of `p`: what is left to climb.
  ghost function Above(g: Shape, p: nat): set<nat>
  {
    set q | q in g.nodes && !Within(g.In(p), g.At(q).key)
  }

  lemma BackClimbs(g: Shape, t: Shape, k: map<nat, nat>, e: nat, n: nat, v: int)
    requires Back(g, t, k, e, n, v)
    ensures t.At(n).father != 0 ==> t.Has(t.At(n).father) && Above(t, t.At(n).father) < Above(g, e)
    ensures v == 0 || t.At(n).father == 0 ==> Balanced(t, k)
  {
    assert NodeOk(t, n);
    var f := t.At(n).father;
    if f != 0 {
      assert NodeOk(t, f);
      BelowShrinks(t, f, t.At(n).side);
      assert f in Above(g, e) && f !in Above(t, f);
      assert ChildOk(t, f, t.At(n).side);
      forall q | q in Above(t, f) ensures q in Above(g, e) { assert t.Has(q) && g.Has(q); }
    }
    if v == 0 || f == 0 {
      if v == 0 { SettledStop(t, k, f, t.At(n).side, n); }
      forall p | t.Has(p) ensures HeightOk(t, k, p) { assert NodeOk(t, p); }
    }
  }

  lemma BackNews(g: Shape, t: Shape, u: Shape, k: map<nat, nat>, e: nat, n: nat, v: int)
    requires Back(g, t, k, e, n, v) && (v == 1 || v == -1) && t.At(n).father != 0
    requires var f := t.At(n).father; var b := t.At(f).balance + Signed(t.At(n).side, v); Rebalanced(t, u, f, b, f, b)
    ensures Linked(u) && Pending(u, k, t.At(n).father, t.At(n).side, v) && SameKeys(g, u)
    ensures Above(u, t.At(n).father) == Above(t, t.At(n).father)
  {
    var f := t.At(n).father;
    var b := t.At(f).balance + Signed(t.At(n).side, v);
    assert NodeOk(t, n);
    RebalancedLinked(t, u, f, b, f, b);
    SettledUp(t, u, k, f, t.At(n).side, n, v);
    forall q ensures q in Above(u, f) <==> q in Above(t, f) { assert u.Has(q) <==> t.Has(q); }
  }

  // ---------------------------------------------------------------------------------------------
  // Finding the neighbour of a node

  ghost function SwapAt(g: Shape, p: nat, w: Side, r: nat): Swap
  {
    Swap(p, w, r, g.At(r).father, g.At(r).side, g.At(r).Child(w))
  }

  // `r` is on the inner edge of the subtree of `p` on side `w`.
  ghost predicate OnSpine(g: Shape, p: nat, w: Side, r: nat)
  {
    && g.Has(p) && g.Has(r) && r != p && Edge(g.In(r), Other(w)) == Some(g.At(p).key)
    && Inside(g.In(r), g.In(p)) && g.At(r).father != 0
    && (if g.At(r).father == p then g.At(r).side == w else g.At(r).side == Other(w))
  }

  // Interval `a` is in interval `b`.
  ghost predicate Inside(a: Bounds, b: Bounds)
  {
    && (b.lo.Some? ==> a.lo.Some? && b.lo.value <= a.lo.value)
    && (b.hi.Some? ==> a.hi.Some? && a.hi.value <= b.hi.value)
  }

  lemma FirstSpine(g: Shape, p: nat, w: Side)
    requires Linked(g) && g.Has(p) && g.At(p).Child(w) != 0
    ensures OnSpine(g, p, w, g.At(p).Child(w))
  {
    assert NodeOk(g, p);
    assert ChildOk(g, p, w);
    assert NodeOk(g, g.At(p).Child(w));
  }

  lemma NextSpine(g: Shape, p: nat, w: Side, r: nat)
    requires Linked(g) && OnSpine(g, p, w, r) && g.At(r).Child(Other(w)) != 0
    ensures OnSpine(g, p, w, g.At(r).Child(Other(w)))
  {
    assert NodeOk(g, p) && NodeOk(g, r);
    assert ChildOk(g, r, Other(w));
    assert NodeOk(g, g.At(r).Child(Other(w)));
  }

  // `b` is strictly on side `s` of `a`.
  predicate Beyond(s: Side, a: int, b: int) { if s == Left then b < a else a < b }

  // The side of the higher subtree of a node that is not a leaf has a child.
  lemma HigherChild(g: Shape, h: map<nat, nat>, p: nat, w: Side)
    requires Linked(g) && Balanced(g, h) && g.Has(p) && (g.At(p).left != 0 || g.At(p).right != 0)
    requires w == if g.At(p).balance < 0 then Left else Right
    ensures g.At(p).Child(w) != 0
  {
    assert NodeOk(g, p) && HeightOk(g, h, p);
    if g.At(p).left != 0 { assert HeightOk(g, h, g.At(p).left); }
  }

  // The two halves of the replacement of `p` by `r`.
  function UnhookedNode(a: Node, u: nat, q: nat, z: Side, c: nat): Node
  {
    if u == q then a.SetChild(z, c).(balance := a.balance - Signed(z, 1))
    else if u == c && c != 0 then a.(father := q, side := z)
    else a
  }

  function PlacedNode(a: Node, b: Node, u: nat, r: nat): Node
  {
    if u == r then a.(father := b.father, left := b.left, right := b.right, balance := b.balance, side := b.side)
    else if u != 0 && (u == b.left || u == b.right) then a.(father := r)
    else if u != 0 && u == b.father then a.SetChild(b.side, r)
    else a
  }

  ghost predicate Unhooked(g: Shape, m: map<nat, Node>, x: Swap)
  {
    (forall u :: u in m <==> g.Has(u)) && forall u :: u in m ==> m[u] == UnhookedNode(g.At(u), u, x.q, x.z, x.c)
  }

  ghost function SwappedBounds(g: Shape, x: Swap): map<nat, Bounds>
  {
    map u | u in g.bounds.Keys + {x.r} :: if u == x.r then g.In(x.p) else Shift(g.In(u), g.At(x.p).key, g.At(x.r).key)
  }

  lemma UnhookedPlace(g: Shape, m: map<nat, Node>, x: Swap)
    requires Swapping(g, x) && Unhooked(g, m, x)
    ensures x.p in m && x.r in m
    ensures var a := m[x.p];
      && a.left != x.p && a.right != x.p && a.father != x.p && a.left != x.r && a.right != x.r && a.father != x.r
      && (a.left != 0 ==> a.left in m) && (a.right != 0 ==> a.right in m) && (a.father != 0 ==> a.father in m)
      && (a.left != 0 ==> a.left != a.right && a.left != a.father) && (a.right != 0 ==> a.right != a.father)
  {
    SwapDistinct(g, x);
    SwapFather(g, x);
    assert NodeOk(g, x.p);
    assert ChildOk(g, x.p, Left) && ChildOk(g, x.p, Right);
    assert x.w == Left || x.w == Right;
  }

  lemma PlacedSwapped(g: Shape, m: map<nat, Node>, t: Shape, x: Swap)
    requires Swapping(g, x) && Unhooked(g, m, x) && x.p in m
    requires forall u :: u in t.nodes <==> u in m && u != x.p
    requires forall u :: u in t.nodes ==> t.nodes[u] == PlacedNode(m[u], m[x.p], u, x.r)
    requires t.root == (if m[x.p].father == 0 then x.r else g.root) && t.bounds == SwappedBounds(g, x)
    ensures Swapped(g, t, x)
  {
    SwapDistinct(g, x);
    SwapFather(g, x);
    forall u | t.Has(u) ensures t.At(u) == SwappedNode(g, x, u) {
      assert NodeOk(g, u);
      PlacedOne(g, m, x, u);
    }
  }

  lemma PlacedOne(g: Shape, m: map<nat, Node>, x: Swap, u: nat)
    requires Swapping(g, x) && Unhooked(g, m, x) && x.p in m && u in m && u != x.p && u != 0
    ensures PlacedNode(m[u], m[x.p], u, x.r) == SwappedNode(g, x, u)
  {
    if u == x.r { PlacedNew(g, m, x); } else { PlacedOther(g, m, x, u); }
  }

  lemma PlacedNew(g: Shape, m: map<nat, Node>, x: Swap)
    requires Swapping(g, x) && Unhooked(g, m, x) && x.p in m && x.r in m
    ensures PlacedNode(m[x.r], m[x.p], x.r, x.r) == SwappedNode(g, x, x.r)
  {
    SwapDistinct(g, x);
  }

  lemma PlacedOther(g: Shape, m: map<nat, Node>, x: Swap, u: nat)
    requires Swapping(g, x) && Unhooked(g, m, x) && x.p in m && u in m && u != x.p && u != 0 && u != x.r
    ensures PlacedNode(m[u], m[x.p], u, x.r) == SwappedNode(g, x, u)
  {
    SwapDistinct(g, x);
    SwapFather(g, x);
    assert NodeOk(g, x.p) && NodeOk(g, u);
    assert ChildOk(g, x.p, Left) && ChildOk(g, x.p, Right);
  }

  lemma SwappedKeys(g: Shape, t: Shape, x: Swap)
    requires Swapping(g, x) && Swapped(g, t, x)
    ensures forall u :: t.Has(u) ==> t.At(u).key == g.At(u).key
  {
    forall u | t.Has(u) ensures t.At(u).key == g.At(u).key { SwappedWithin(g, t, x, u); }
  }

  lemma RemovedKeys(g: Shape, t: Shape, u: Shape, p: nat)
    requires forall q :: t.Has(q) <==> g.Has(q) && q != p
    requires forall q :: t.Has(q) ==> t.At(q).key == g.At(q).key
    requires SameKeys(t, u)
    ensures u.nodes.Keys == g.nodes.Keys - {p}
    ensures forall q :: q in u.nodes ==> u.nodes[q].key == g.At(q).key
  {
    forall q ensures q in u.nodes.Keys <==> q in g.nodes.Keys - {p} { assert u.Has(q) <==> t.Has(q); }
    forall q | q in u.nodes ensures u.nodes[q].key == g.At(q).key { assert u.Has(q) && t.Has(q); }
  }

  class Tree {
    var root: nat
    var nodes: map<nat, Node>
    ghost var bounds: map<nat, Bounds>
    ghost var heights: map<nat, nat>

    ghost function G(): Shape
      reads this
    {
      Shape(nodes, bounds, root)
    }

    ghost predicate Valid()
      reads this
    {
      Linked(G()) && Balanced(G(), heights)
    }

    // The father of `r` becomes the father of `n`.
    method Raise(n: nat, r: nat)
      requires n in nodes && r in nodes && n != r && nodes[r].father != n
      requires (nodes[r].father == 0 || nodes[r].father in nodes)
      modifies this`root, this`nodes
      ensures forall x: Turn :: x.n == n && x.r == r && x.f == old(nodes[r].father) ==> Raised(old(G()), nodes, x)
      ensures root == if old(nodes[r].father) == 0 then n else old(root)
    {
      nodes := nodes[n := nodes[n].(father := nodes[r].father, side := nodes[r].side)];
      if nodes[n].father != 0 {
        nodes := nodes[nodes[n].father := nodes[nodes[n].father].SetChild(nodes[n].side, n)];
      } else {
        root := n;
      }
    }

    // The inner child of `n` moves to `r`, and `r` becomes a child of `n`.
    method Lower(r: nat, s: Side, n: nat, c: nat)
      requires r in nodes && n in nodes && n != r && c == nodes[n].Child(s) && (c == 0 || c in nodes) && c != r
      requires c != n
      modifies this`nodes
      ensures forall x: Turn :: x.r == r && x.s == s && x.n == n && x.c == c ==> Moved(old(nodes), nodes, x)
    {
      nodes := nodes[r := nodes[r].SetChild(Other(s), c)];
      if c != 0 {
        nodes := nodes[c := nodes[c].(father := r, side := Other(s))];
      }
      nodes := nodes[n := nodes[n].SetChild(s, r)];
      nodes := nodes[r := nodes[r].(father := n, side := s)];
    }

    /** `AVL_rot`. */
    method Rot(r: nat, s: Side) returns (n: nat)
      requires Turning(G(), TurnAt(G(), r, s))
      modifies this`root, this`nodes, this`bounds
      ensures Turned(old(G()), G(), old(TurnAt(G(), r, s))) && n == old(TurnAt(G(), r, s)).n
    {
      ghost var g, x := G(), TurnAt(G(), r, s);
      TurnDistinct(g, x);
      n := nodes[r].Child(Other(s));
      Raise(n, r);
      ghost var m := nodes;
      assert Raised(g, m, x);
      Lower(r, s, n, nodes[n].Child(s));
      assert Moved(m, nodes, x);
      bounds := bounds[n := g.In(r)][r := Part(g.In(r), g.At(n).key, s)];
      MovedTurned(g, m, G(), x);
    }

    // The balance factors of two nodes.
    method SetBalances(p: nat, b: int, q: nat, c: int)
      requires p in nodes && q in nodes && p != q
      modifies this`nodes
      ensures Rebalanced(old(G()), G(), p, b, q, c)
    {
      nodes := nodes[p := nodes[p].(balance := b)];
      nodes := nodes[q := nodes[q].(balance := c)];
    }

    // The cases 2 and -2 of `AVL_balance`, where the child on side `w` is too high: it becomes the
    // root of the subtree, or its inner child does.
    method Lean(e: nat, w: Side, add: bool) returns (n: nat, diff: int)
      requires Linked(G()) && Heavy(G(), heights, e, w, add)
      modifies this
      ensures Back(old(G()), G(), heights, e, n, diff) && (diff == 0 || diff == Diff(add))
    {
      ghost var g, h := G(), heights;
      HeavyChild(g, h, e, w, add);
      var c := nodes[e].Child(w);
      if nodes[c].balance == Signed(w, 1) {
        n := Rot(e, Other(w));
        ghost var t1 := G();
        TurnDistinct(g, TurnAt(g, e, Other(w)));
        SetBalances(n, 0, e, 0);
        diff := if add then 0 else -1;
        heights := SingleAfter(g, h, TurnAt(g, e, Other(w)), add);
        SingleBack(g, h, t1, G(), TurnAt(g, e, Other(w)), w, add, 0, 0);
      } else if nodes[c].balance == 0 {
        n := Rot(e, Other(w));
        ghost var t1 := G();
        TurnDistinct(g, TurnAt(g, e, Other(w)));
        SetBalances(n, Signed(w, -1), e, Signed(w, 1));
        diff := if add then 1 else 0;
        heights := SingleAfter(g, h, TurnAt(g, e, Other(w)), add);
        SingleBack(g, h, t1, G(), TurnAt(g, e, Other(w)), w, add, Signed(w, -1), Signed(w, 1));
      } else {
        n := LeanTwice(e, w, add);
        diff := if add then 0 else -1;
      }
    }

    // The case of an inner grandchild that is too high.
    method LeanTwice(e: nat, w: Side, add: bool) returns (n: nat)
      requires var c := G().At(e).Child(w); Double(G(), heights, e, c, G().At(c).Child(Other(w)), w, add)
      modifies this
      ensures Back(old(G()), G(), heights, e, n, OneTurn(true, add))
    {
      ghost var g, h := G(), heights;
      var c := nodes[e].Child(w);
      DoubleDistinct(g, e, c, g.At(c).Child(Other(w)), w);
      var d := nodes[c].Child(Other(w));
      var bal := nodes[d].balance;
      assert HeightOk(g, h, d);
      var _ := Rot(c, w);
      ghost var t1 := G();
      FirstTurn(g, t1, e, c, d, w);
      n := Rot(e, Other(w));
      ghost var t2 := G();
      TwiceDone(g, t1, t2, e, c, d, w);
      var l, r := Factors(bal);
      SetThree(n, l, r);
      heights := DoubleAfter(g, h, e, c, d, w, add);
      DoubleBack(g, h, t1, t2, G(), e, c, d, w, add);
    }

    method SetThree(n: nat, l: int, r: int)
      requires n in nodes && nodes[n].left in nodes && nodes[n].right in nodes
      requires nodes[n].left != n && nodes[n].right != n && nodes[n].left != nodes[n].right
      modifies this`nodes
      ensures Rebalanced3(old(G()), G(), n, old(nodes[n].left), l, old(nodes[n].right), r)
    {
      nodes := nodes[n := nodes[n].(balance := 0)];
      nodes := nodes[nodes[n].left := nodes[nodes[n].left].(balance := l)];
      nodes := nodes[nodes[n].right := nodes[nodes[n].right].(balance := r)];
    }

    // One iteration of the loop of `AVL_balance`, up to the news for the father.
    method Restore(e: nat, add: bool, ghost s: Side) returns (n: nat, diff: int)
      requires Linked(G()) && Pending(G(), heights, e, s, Diff(add))
      modifies this
      ensures Back(old(G()), G(), heights, e, n, diff) && (diff == 0 || diff == Diff(add))
    {
      ghost var g := G();
      if nodes[e].balance == -2 {
        PendingHeavy(g, heights, e, Left, s, add);
        n, diff := Lean(e, Left, add);
      } else if nodes[e].balance == 2 {
        PendingHeavy(g, heights, e, Right, s, add);
        n, diff := Lean(e, Right, add);
      } else {
        n := e;
        diff := if nodes[e].balance == 0 then (if add then 0 else -1) else (if add then 1 else 0);
        ghost var k := heights[e := 1 + Max(Kid(g, heights, e, Left), Kid(g, heights, e, Right))];
        assert NodeOk(g, e);
        NoTurnSettled(g, heights, e, s, add, k);
        heights := k;
      }
    }

    /** `AVL_balance`: the tree is in balance again, with the same keys. */
    method Balance(first: nat, add: bool, ghost side: Side)
      requires Linked(G()) && Due(G(), heights, first, side, add)
      modifies this
      ensures Valid() && SameKeys(old(G()), G())
    {
      var node := first;
      ghost var s := side;
      while node != 0
        invariant Linked(G()) && Due(G(), heights, node, s, add) && SameKeys(old(G()), G())
        decreases node != 0, Above(G(), node)
      {
        ghost var g, e := G(), node;
        var diff;
        node, diff := Restore(node, add, s);
        ghost var t := G();
        BackClimbs(g, t, heights, e, node, diff);
        if diff == 0 {
          return;
        }
        s := nodes[node].side;
        var f := nodes[node].father;
        if f != 0 {
          nodes := nodes[f := nodes[f].(balance := nodes[f].balance + Signed(nodes[node].side, diff))];
          BackNews(g, t, G(), heights, e, node, diff);
        }
        node := f;
      }
    }

    constructor ()
      ensures Valid() && nodes == map[]
    {
      root, nodes, bounds, heights := 0, map[], map[], map[];
    }

    /** `AVL_find`: the node with the key, or the node that would be its father. */
    method Find(key: int) returns (found: bool, node: nat)
      requires Valid()
      ensures found ==> node in nodes && nodes[node].key == key
      ensures !found ==> (exists s :: Spot(G(), node, s, key)) && forall q :: q in nodes ==> nodes[q].key != key
    {
      node := 0;
      var cur := root;
      assert root != 0 ==> NodeOk(G(), root);
      ghost var s := Left;
      while cur != 0
        invariant cur != 0 ==> cur in nodes && Within(G().In(cur), key)
        invariant cur == 0 ==> Spot(G(), node, s, key)
        decreases cur != 0, Below(G(), cur)
      {
        node := cur;
        assert NodeOk(G(), cur);
        if key < nodes[cur].key {
          s, cur := Left, nodes[cur].left;
        } else if key > nodes[cur].key {
          s, cur := Right, nodes[cur].right;
        } else {
          return true, node;
        }
        if cur != 0 { BelowShrinks(G(), node, s); }
      }
      SpotAbsent(G(), node, s, key);
      assert forall q :: q in nodes ==> G().Has(q) && G().At(q) == nodes[q];
      found := false;
    }

    /** The descent of `AVL_add`: the node with the key, or the place for it. */
    method Descend(start: nat, key: int) returns (cur: nat, last: nat, side: Side)
      requires Valid() && (start != 0 ==> start in nodes && Within(G().In(start), key))
      ensures cur != 0 ==> cur in nodes && nodes[cur].key == key
      ensures cur == 0 ==> Spot(G(), last, side, key)
    {
      cur, last, side := root, 0, Left;
      assert root != 0 ==> NodeOk(G(), root);
      if start != 0 {
        cur, last, side := start, nodes[start].father, nodes[start].side;
      }
      while cur != 0
        invariant cur != 0 ==> cur in nodes && Within(G().In(cur), key)
        invariant cur == 0 ==> Spot(G(), last, side, key)
        decreases cur != 0, Below(G(), cur)
      {
        assert NodeOk(G(), cur);
        if key < nodes[cur].key {
          side := Left;
        } else if key > nodes[cur].key {
          side := Right;
        } else {
          break;
        }
        last := cur;
        cur := nodes[cur].Child(side);
        if cur != 0 { BelowShrinks(G(), last, side); }
      }
    }

    /** `AVL_add` with the node `cell` of the pool: one more key, unless the tree has it. */
    method Add(cell: nat, key: int, hint: nat) returns (added: bool, node: nat)
      requires Valid() && cell != 0 && cell !in nodes
      requires hint != 0 ==> hint in nodes && Within(G().In(hint), key)
      modifies this
      ensures Valid() && node in nodes && nodes[node].key == key
      ensures added <==> forall q :: q in old(nodes) ==> old(nodes)[q].key != key
      ensures !added ==> nodes == old(nodes) && root == old(root)
      ensures added ==> node == cell && nodes.Keys == old(nodes).Keys + {cell}
      ensures forall q :: q in old(nodes) ==> nodes[q].key == old(nodes)[q].key
    {
      var cur, last, side := Descend(hint, key);
      if cur != 0 {
        return false, cur;
      }
      ghost var g, h := G(), heights;
      SpotAbsent(g, last, side, key);
      assert forall q :: q in nodes ==> g.Has(q) && g.At(q) == nodes[q];
      added, node := true, cell;
      heights := heights[cell := 1];
      Grow(cell, last, side, key);
      ghost var t := G();
      GrownLinked(g, t, cell, last, side, key);
      GrownPending(g, h, t, heights, cell, last, side, key);
      if last != 0 {
        Balance(last, true, side);
      }
      assert forall q :: q in old(nodes) ==> t.Has(q) && G().Has(q) && G().At(q).key == t.At(q).key;
      assert forall q :: q in nodes <==> G().Has(q);
    }

    method Grow(cell: nat, last: nat, side: Side, key: int)
      requires cell != 0 && cell !in nodes && (last != 0 ==> last in nodes)
      modifies this`nodes, this`root, this`bounds
      ensures Grown(old(G()), G(), cell, last, side, key)
    {
      bounds := bounds[cell := if last == 0 then ALL_KEYS else Part(G().In(last), nodes[last].key, side)];
      nodes := nodes[cell := Node(last, side, 0, 0, 0, key)];
      if last == 0 {
        root := cell;
      } else {
        nodes := nodes[last := nodes[last].SetChild(side, cell)];
        nodes := nodes[last := nodes[last].(balance := nodes[last].balance + Signed(side, 1))];
      }
    }

    /** `AVL_rem`: one node and its key less. */
    method Rem(node: nat)
      requires Valid() && node in nodes
      modifies this
      ensures Valid() && nodes.Keys == old(nodes).Keys - {node}
      ensures forall q :: q in nodes ==> nodes[q].key == old(nodes)[q].key
    {
      ghost var g, h := G(), heights;
      assert NodeOk(g, node);
      var bal;
      ghost var side;
      if nodes[node].left != 0 || nodes[node].right != 0 {
        assert HeightOk(g, h, node);
        var w := if nodes[node].balance < 0 then Left else Right;
        HigherChild(g, h, node, w);
        var repl := Neighbour(node, w);
        ghost var x := SwapAt(g, node, w, repl);
        side := x.z;
        bal := SwapNodes(node, w, repl);
        heights := heights[repl := H(h, node)];
        SwapDistinct(g, x);
        SwappedLinked(g, G(), x);
        SwappedPending(g, h, G(), heights, x);
        SwappedKeys(g, G(), x);
      } else {
        bal, side := nodes[node].father, nodes[node].side;
        CutLeaf(node);
        CutLinked(g, G(), node);
        CutPending(g, h, G(), node);
      }
      ghost var t := G();
      Balance(bal, false, side);
      RemovedKeys(g, t, G(), node);
    }

    // The neighbour of `p` in its subtree on side `w`.
    method Neighbour(p: nat, w: Side) returns (r: nat)
      requires Valid() && p in nodes && nodes[p].Child(w) != 0
      ensures r in nodes && Swapping(G(), SwapAt(G(), p, w, r))
    {
      r := nodes[p].Child(w);
      FirstSpine(G(), p, w);
      while nodes[r].Child(Other(w)) != 0
        invariant r in nodes && OnSpine(G(), p, w, r)
        decreases Below(G(), r)
      {
        BelowShrinks(G(), r, Other(w));
        NextSpine(G(), p, w, r);
        r := nodes[r].Child(Other(w));
      }
      assert NodeOk(G(), r);
    }

    /** `AVL_next` (to the right) and `AVL_prev` (to the left): the node with the closest key on that side. */
    method Adjacent(p: nat, s: Side) returns (r: nat)
      requires Valid() && p in nodes
      ensures r == 0 ==> forall u :: u in nodes ==> !Beyond(s, nodes[p].key, nodes[u].key)
      ensures r != 0 ==> r in nodes && Beyond(s, nodes[p].key, nodes[r].key)
      ensures r != 0 ==> forall u :: u in nodes && Beyond(s, nodes[p].key, nodes[u].key) ==>
        !Beyond(s, nodes[u].key, nodes[r].key)
    {
      ghost var g := G();
      assert NodeOk(g, p);
      if nodes[p].Child(s) != 0 {
        r := Neighbour(p, s);
        forall u | u in nodes && Beyond(s, nodes[p].key, nodes[u].key) ensures !Beyond(s, nodes[u].key, nodes[r].key) {
          assert g.Has(u) && g.At(u) == nodes[u];
          NoKey(g, r, Other(s), u);
        }
        SwapDistinct(g, SwapAt(g, p, s, r));
        return;
      }
      var side := nodes[p].side;
      r := nodes[p].father;
      ghost var q := p;
      while r != 0 && side == s
        invariant q in nodes && r == nodes[q].father && side == nodes[q].side
        invariant Edge(g.In(q), s) == Edge(g.In(p), s)
        decreases Above(g, q)
      {
        assert NodeOk(g, q) && NodeOk(g, r);
        assert ChildOk(g, r, side);
        BelowShrinks(g, r, side);
        assert r in Above(g, q) && r !in Above(g, r);
        q := r;
        side := nodes[r].side;
        r := nodes[r].father;
      }
      assert NodeOk(g, q);
      if r != 0 { assert NodeOk(g, r) && ChildOk(g, r, side); }
      forall u | u in nodes && Beyond(s, nodes[p].key, nodes[u].key)
        ensures r != 0 && !Beyond(s, nodes[u].key, nodes[r].key)
      {
        assert g.Has(u) && g.At(u) == nodes[u];
        NoKey(g, p, s, u);
      }
    }

    // `r` leaves its place to its child `c`, if it has one.
    method Unhook(r: nat, q: nat, z: Side, c: nat)
      requires q in nodes && (c != 0 ==> c in nodes) && c != q
      modifies this`nodes
      ensures forall u :: u in nodes <==> u in old(nodes)
      ensures forall u :: u in nodes ==> nodes[u] == UnhookedNode(old(nodes)[u], u, q, z, c)
    {
      nodes := nodes[q := nodes[q].SetChild(z, c)];
      if c != 0 {
        nodes := nodes[c := nodes[c].(father := q, side := z)];
      }
      nodes := nodes[q := nodes[q].(balance := nodes[q].balance - Signed(z, 1))];
    }

    // `r` takes the place of `p`, which is freed.
    method TakePlace(p: nat, r: nat)
      requires p in nodes && r in nodes && p != r
      requires var a := nodes[p]; a.left != p && a.right != p && a.father != p
      requires var a := nodes[p]; a.left != r && a.right != r && a.father != r
      requires var a := nodes[p]; (a.left != 0 ==> a.left in nodes) && (a.right != 0 ==> a.right in nodes)
      requires nodes[p].father != 0 ==> nodes[p].father in nodes
      requires var a := nodes[p]; (a.left != 0 ==> a.left != a.right && a.left != a.father)
      requires nodes[p].right != 0 ==> nodes[p].right != nodes[p].father
      modifies this`nodes, this`root
      ensures forall u :: u in nodes <==> u in old(nodes) && u != p
      ensures forall u :: u in nodes ==> nodes[u] == PlacedNode(old(nodes)[u], old(nodes)[p], u, r)
      ensures root == if old(nodes[p].father) == 0 then r else old(root)
    {
      var a := nodes[p];
      nodes := nodes[r := nodes[r].(father := a.father, left := a.left, right := a.right,
                                       balance := a.balance, side := a.side)];
      if a.left != 0 {
        nodes := nodes[a.left := nodes[a.left].(father := r)];
      }
      if a.right != 0 {
        nodes := nodes[a.right := nodes[a.right].(father := r)];
      }
      if a.father != 0 {
        nodes := nodes[a.father := nodes[a.father].SetChild(a.side, r)];
      } else {
        root := r;
      }
      nodes := nodes - {p};
    }

    method SwapNodes(p: nat, w: Side, r: nat) returns (bal: nat)
      requires Swapping(G(), SwapAt(G(), p, w, r))
      modifies this`nodes, this`root, this`bounds
      ensures Swapped(old(G()), G(), old(SwapAt(G(), p, w, r))) && bal == Lighter(old(SwapAt(G(), p, w, r)))
    {
      ghost var g, x := G(), SwapAt(G(), p, w, r);
      SwapDistinct(g, x);
      SwapFather(g, x);
      var q := nodes[r].father;
      Unhook(r, q, nodes[r].side, nodes[r].Child(w));
      bal := if q == p then r else q;
      ghost var m := nodes;
      UnhookedPlace(g, m, x);
      TakePlace(p, r);
      bounds := SwappedBounds(g, x);
      PlacedSwapped(g, m, G(), x);
    }

    method CutLeaf(p: nat)
      requires Leaf(G(), p)
      modifies this`nodes, this`root
      ensures Cut(old(G()), G(), p)
    {
      assert NodeOk(G(), p);
      if nodes[p].father != 0 { assert NodeOk(G(), nodes[p].father); }
      var f := nodes[p].father;
      if f != 0 {
        nodes := nodes[f := nodes[f].SetChild(nodes[p].side, 0)];
        nodes := nodes[f := nodes[f].(balance := nodes[f].balance - Signed(nodes[p].side, 1))];
      } else {
        root := 0;
      }
      nodes := nodes - {p};
    }
  }
}
