/**
 Insertion into and removal from the tree of lib/decopus/trace/utils/include/avl.h, before the
 balance is restored: a new node becomes a leaf; a node with a child is replaced by its neighbour
 in the higher of its subtrees; a leaf is cut off.
 */
module AvlUpdate {
  import opened Common
  import opened AvlShape
  import opened AvlBalance

  // ---------------------------------------------------------------------------------------------
  // Insertion

  // The place of a key that is not in the tree: a missing child, or the root of the empty tree.
  ghost predicate Spot(g: Shape, last: nat, s: Side, k: int)
  {
    if last == 0 then g.root == 0
    else g.Has(last) && g.At(last).Child(s) == 0 && Within(Part(g.In(last), g.At(last).key, s), k)
  }

  lemma SpotAbsent(g: Shape, last: nat, s: Side, k: int)
    requires Linked(g) && Spot(g, last, s, k)
    ensures forall q :: g.Has(q) ==> g.At(q).key != k
  {
    forall q | g.Has(q) ensures g.At(q).key != k {
      if last != 0 { NoKey(g, last, s, q); }
    }
  }

  // `p` is a new leaf.
  ghost predicate Grown(g: Shape, t: Shape, p: nat, last: nat, s: Side, k: int)
  {
    && p != 0 && !g.Has(p) && (forall u :: t.Has(u) <==> g.Has(u) || u == p)
    && t.At(p) == Node(last, s, 0, 0, 0, k)
    && (last != 0 ==> t.At(last) == g.At(last).SetChild(s, p).(balance := g.At(last).balance + Signed(s, 1)))
    && (forall u :: g.Has(u) && u != last ==> t.At(u) == g.At(u))
    && t.root == (if last == 0 then p else g.root)
    && t.In(p) == (if last == 0 then ALL_KEYS else Part(g.In(last), g.At(last).key, s))
    && (forall u :: u != p ==> t.In(u) == g.In(u))
  }

  lemma GrownLinked(g: Shape, t: Shape, p: nat, last: nat, s: Side, k: int)
    requires Linked(g) && Spot(g, last, s, k) && Grown(g, t, p, last, s, k)
    ensures Linked(t)
  {
    assert last != 0 ==> NodeOk(g, last);
    forall u | t.Has(u) ensures NodeOk(t, u) {
      if u != p {
        assert NodeOk(g, u);
        GrownOther(g, t, p, last, s, k, u);
      }
    }
    if g.root != 0 { assert NodeOk(g, g.root); }
  }

  lemma GrownOther(g: Shape, t: Shape, p: nat, last: nat, s: Side, k: int, u: nat)
    requires Linked(g) && Spot(g, last, s, k) && Grown(g, t, p, last, s, k) && g.Has(u)
    ensures NodeOk(t, u)
  {
    assert NodeOk(g, u);
    var f := g.At(u).father;
    if f != 0 { assert NodeOk(g, f); }
    if g.At(u).left != 0 { assert NodeOk(g, g.At(u).left); }
    if g.At(u).right != 0 { assert NodeOk(g, g.At(u).right); }
    assert ChildOk(g, u, Left) && ChildOk(g, u, Right);
  }

  /** After the insertion only the father of the new leaf can be out of balance. */
  lemma GrownPending(g: Shape, h: map<nat, nat>, t: Shape, k: map<nat, nat>, p: nat, last: nat, s: Side, key: int)
    requires Linked(g) && Balanced(g, h) && Spot(g, last, s, key) && Grown(g, t, p, last, s, key)
    requires H(k, p) == 1 && SameBut(h, k, {p})
    ensures if last == 0 then Balanced(t, k) else Pending(t, k, last, s, 1)
  {
    forall u | t.Has(u) && u != last ensures HeightOk(t, k, u) {
      if u != p {
        assert HeightOk(g, h, u) && NodeOk(g, u);
        assert ChildOk(g, u, Left) && ChildOk(g, u, Right);
        Unmoved(g, h, t, k, u);
      }
    }
    if last != 0 {
      assert HeightOk(g, h, last) && NodeOk(g, last);
      assert ChildOk(g, last, Other(s));
    }
  }

  // ---------------------------------------------------------------------------------------------
  // Removal of a node with a child

  ghost function Edge(b: Bounds, s: Side): Option<int> { if s == Left then b.lo else b.hi }

  // `r`, the neighbour of `p` in its subtree on side `w`, is a child of `q` on side `z` and has at
  // most a child `c`, on side `w`.
  datatype Swap = Swap(p: nat, w: Side, r: nat, q: nat, z: Side, c: nat)

  ghost predicate Swapping(g: Shape, x: Swap)
  {
    && Linked(g) && g.Has(x.p) && g.Has(x.r) && x.r != x.p
    && x.q == g.At(x.r).father && x.z == g.At(x.r).side && x.c == g.At(x.r).Child(x.w)
    && g.At(x.r).Child(Other(x.w)) == 0
    && Edge(g.In(x.r), Other(x.w)) == Some(g.At(x.p).key) && Within(g.In(x.p), g.At(x.r).key) && x.q != 0
    && (if x.q == x.p then x.z == x.w else x.z == Other(x.w))
  }

  // `b` with the key of `p` replaced by the key of `r`.
  ghost function Shift(b: Bounds, from: int, to: int): Bounds
  {
    Bounds(if b.lo == Some(from) then Some(to) else b.lo, if b.hi == Some(from) then Some(to) else b.hi)
  }

  // The fields of `u` afterwards.
  ghost function SwappedNode(g: Shape, x: Swap, u: nat): Node
  {
    var a := g.At(u);
    if u == x.r then
      var b := g.At(x.p).(key := a.key);
      if x.q == x.p then b.SetChild(x.w, x.c).(balance := b.balance - Signed(x.w, 1)) else b
    else
      var b := if u == x.q then a.SetChild(x.z, x.c).(balance := a.balance - Signed(x.z, 1)) else a;
      if u == x.c then b.(father := if x.q == x.p then x.r else x.q, side := x.z)
      else if a.father == x.p then b.(father := x.r)
      else if u == g.At(x.p).father then b.SetChild(g.At(x.p).side, x.r)
      else b
  }

  ghost predicate Swapped(g: Shape, t: Shape, x: Swap)
  {
    && (forall u :: t.Has(u) <==> g.Has(u) && u != x.p)
    && (forall u :: t.Has(u) ==> t.At(u) == SwappedNode(g, x, u))
    && t.root == (if g.At(x.p).father == 0 then x.r else g.root)
    && (forall u :: t.In(u) == if u == x.r then g.In(x.p) else Shift(g.In(u), g.At(x.p).key, g.At(x.r).key))
  }

  lemma SwapDistinct(g: Shape, x: Swap)
    requires Swapping(g, x)
    ensures g.Has(x.q) && g.At(x.q).Child(x.z) == x.r
    ensures (x.c != 0 ==> g.Has(x.c) && g.At(x.c).father == x.r && g.At(x.c).side == x.w)
    ensures x.r != x.q && x.c != x.r && x.c != x.p && x.c != x.q && x.p != 0 && x.r != 0
    ensures g.At(x.p).key != g.At(x.r).key && (g.At(x.r).key < g.At(x.p).key <==> x.w == Left)
    ensures x.q != x.p ==> g.At(x.q).key != g.At(x.p).key
    ensures g.In(x.r) == Part(g.In(x.q), g.At(x.q).key, x.z) && Within(g.In(x.r), g.At(x.r).key)
    ensures x.c != 0 ==> g.In(x.c) == Part(g.In(x.r), g.At(x.r).key, x.w)
  {
    assert NodeOk(g, x.p);
    assert NodeOk(g, x.r);
    assert NodeOk(g, x.q);
    assert ChildOk(g, x.q, x.z);
    assert ChildOk(g, x.r, x.w);
    if x.c != 0 { assert NodeOk(g, x.c); }
    if x.q != x.p { OneKey(g, x.q, x.p); }
    if x.c != 0 { OneKey(g, x.c, x.p); }
  }

  // Different nodes have different keys.
  lemma OneKey(g: Shape, a: nat, b: nat)
    requires Linked(g) && g.Has(a) && g.Has(b)
    ensures g.At(a).key == g.At(b).key ==> a == b
  {
    KeyFound(g, a);
    KeyFound(g, b);
  }

  // No key is between the two.
  lemma Neighbour(g: Shape, x: Swap, u: nat)
    requires Swapping(g, x) && g.Has(u) && u != x.p && u != x.r
    ensures g.At(u).key != g.At(x.p).key && g.At(u).key != g.At(x.r).key
    ensures g.At(u).key < g.At(x.p).key <==> g.At(u).key < g.At(x.r).key
  {
    OneKey(g, u, x.p);
    OneKey(g, u, x.r);
    SwapDistinct(g, x);
    NoKey(g, x.r, Other(x.w), u);
  }

  // The father of `p` is none of the others.
  lemma SwapFather(g: Shape, x: Swap)
    requires Swapping(g, x)
    ensures g.At(x.p).father != x.r && (x.c != 0 ==> g.At(x.p).father != x.c)
    ensures x.q != x.p ==> g.At(x.p).father != x.q
    ensures g.At(x.p).father != 0 ==> g.Has(g.At(x.p).father) && g.At(g.At(x.p).father).Child(g.At(x.p).side) == x.p
    ensures g.At(x.p).father != x.p && (g.At(x.p).father != 0 ==> g.At(g.At(x.p).father).father != x.p)
  {
    SwapDistinct(g, x);
    assert NodeOk(g, x.p);
    var f := g.At(x.p).father;
    if f != 0 {
      assert NodeOk(g, f);
      assert ChildOk(g, f, g.At(x.p).side);
      assert ChildOk(g, x.p, g.At(f).side);
    }
  }

  lemma SwappedWithin(g: Shape, t: Shape, x: Swap, u: nat)
    requires Swapping(g, x) && Swapped(g, t, x) && t.Has(u)
    ensures Within(t.In(u), t.At(u).key) && t.At(u).key == g.At(u).key
  {
    SwapDistinct(g, x);
    assert NodeOk(g, u) && NodeOk(g, x.p);
    if u != x.r { Neighbour(g, x, u); }
  }

  // The interval of a child of a node other than `p` moves with the interval of the node.
  lemma ShiftPart(b: Bounds, k: int, s: Side, from: int, to: int)
    requires k != from
    ensures Shift(Part(b, k, s), from, to) == Part(Shift(b, from, to), k, s)
  {
  }

  lemma ShiftOutside(b: Bounds, from: int, to: int)
    requires Within(b, from)
    ensures Shift(b, from, to) == b
    ensures forall s :: Shift(Part(b, from, s), from, to) == Part(b, to, s)
  {
  }

  // The children of `r` in its new place.
  lemma SwappedNew(g: Shape, t: Shape, x: Swap, s: Side)
    requires Swapping(g, x) && Swapped(g, t, x)
    ensures ChildOk(t, x.r, s)
  {
    SwapDistinct(g, x);
    SwapFather(g, x);
    assert NodeOk(g, x.p);
    assert ChildOk(g, x.p, s);
    var d := g.At(x.p).Child(s);
    ShiftOutside(g.In(x.p), g.At(x.p).key, g.At(x.r).key);
    if x.q == x.p && s == x.w {
      assert t.At(x.r).Child(s) == x.c;
    } else {
      assert t.At(x.r).Child(s) == d;
      if d != 0 { assert NodeOk(g, d) && d != x.c && d != x.r && d != x.p; }
    }
  }

  // The child of the father of `p`, and of the former father of `r`.
  lemma SwappedOld(g: Shape, t: Shape, x: Swap, u: nat, s: Side)
    requires Swapping(g, x) && Swapped(g, t, x) && t.Has(u) && u != x.r
    requires g.At(u).Child(s) == x.p || (u == x.q && s == x.z)
    ensures ChildOk(t, u, s)
  {
    SwapDistinct(g, x);
    SwapFather(g, x);
    assert NodeOk(g, x.p) && NodeOk(g, u);
    assert ChildOk(g, u, s);
    if u == x.q && s == x.z {
      assert t.At(u).Child(s) == x.c;
    } else {
      ShiftOutside(g.In(u), g.At(x.p).key, g.At(x.r).key);
      assert t.At(u).Child(s) == x.r;
    }
  }

  // A child that has nothing to do with the swap.
  lemma SwapApart(g: Shape, x: Swap, u: nat, s: Side)
    requires Swapping(g, x) && g.Has(u) && u != x.p && u != x.r
    requires g.At(u).Child(s) != x.p && g.At(u).Child(s) != 0 && !(u == x.q && s == x.z)
    ensures var d := g.At(u).Child(s);
      g.Has(d) && d != x.r && d != x.c && g.At(d).father == u && g.At(d).side == s
  {
    SwapDistinct(g, x);
    assert NodeOk(g, x.p) && NodeOk(g, u);
    assert ChildOk(g, u, s);
  }

  // The link to it.
  lemma SwappedLink(g: Shape, t: Shape, x: Swap, u: nat, s: Side)
    requires Swapping(g, x) && Swapped(g, t, x) && t.Has(u) && u != x.r
    requires g.At(u).Child(s) != x.p && !(u == x.q && s == x.z)
    ensures t.At(u).Child(s) == g.At(u).Child(s)
  {
    SwapDistinct(g, x);
    SwapFather(g, x);
    assert NodeOk(g, x.p) && NodeOk(g, u);
  }

  lemma SwappedBack(g: Shape, t: Shape, x: Swap, u: nat, s: Side, d: nat)
    requires Swapped(g, t, x) && t.Has(d) && u != x.p && d != x.r && d != x.c && g.At(d).father == u
    requires g.At(d).side == s
    ensures t.At(d).father == u && t.At(d).side == s
  {
  }

  lemma SwappedChild(g: Shape, t: Shape, x: Swap, u: nat, s: Side)
    requires Swapping(g, x) && Swapped(g, t, x) && t.Has(u) && u != x.r
    requires g.At(u).Child(s) != x.p && !(u == x.q && s == x.z)
    ensures ChildOk(t, u, s)
  {
    var d := g.At(u).Child(s);
    SwappedLink(g, t, x, u, s);
    if d != 0 {
      SwapApart(g, x, u, s);
      SwappedBack(g, t, x, u, s, d);
      assert NodeOk(g, u) && ChildOk(g, u, s);
      SwappedPart(g, t, x, u, s, d);
    }
  }

  lemma SwappedPart(g: Shape, t: Shape, x: Swap, u: nat, s: Side, d: nat)
    requires Swapping(g, x) && Swapped(g, t, x) && t.Has(u) && u != x.r && d != x.r
    requires g.In(d) == Part(g.In(u), g.At(u).key, s)
    ensures t.In(d) == Part(t.In(u), t.At(u).key, s)
  {
    Neighbour(g, x, u);
    ShiftPart(g.In(u), g.At(u).key, s, g.At(x.p).key, g.At(x.r).key);
  }

  // The fathers of `r` and of `c`.
  lemma SwappedTop(g: Shape, t: Shape, x: Swap)
    requires Swapping(g, x) && Swapped(g, t, x)
    ensures FatherOk(t, x.r) && (x.c != 0 ==> FatherOk(t, x.c))
  {
    SwapDistinct(g, x);
    SwapFather(g, x);
    assert NodeOk(g, x.p);
  }

  // The father of another child of `p`.
  lemma SwappedNext(g: Shape, t: Shape, x: Swap, u: nat)
    requires Swapping(g, x) && Swapped(g, t, x) && t.Has(u) && u != x.r && u != x.c && g.At(u).father == x.p
    ensures FatherOk(t, u)
  {
    SwapDistinct(g, x);
    assert NodeOk(g, u);
    assert t.At(u).father == x.r && t.At(u).side == g.At(u).side;
    assert x.q == x.p ==> g.At(u).side != x.w;
  }

  // A node that is no child of the two swapped nodes hangs from neither of the links that change.
  lemma StayFather(g: Shape, x: Swap, u: nat)
    requires Swapping(g, x) && g.Has(u) && u != x.p && u != x.r && u != x.c && g.At(u).father != x.p
    requires g.At(u).father != 0
    ensures var f, z := g.At(u).father, g.At(u).side;
      && f != x.r && g.Has(f) && f != x.p && g.At(f).Child(z) == u
      && !(f == x.q && z == x.z) && !(f == g.At(x.p).father && z == g.At(x.p).side)
  {
    var f, z := g.At(u).father, g.At(u).side;
    SwapFather(g, x);
    assert NodeOk(g, u) && NodeOk(g, x.p) && NodeOk(g, x.r) && NodeOk(g, f);
    assert z == x.w || z == Other(x.w);
  }

  // The father of any other node.
  lemma SwappedStay(g: Shape, t: Shape, x: Swap, u: nat)
    requires Swapping(g, x) && Swapped(g, t, x) && t.Has(u) && u != x.r && u != x.c && g.At(u).father != x.p
    ensures FatherOk(t, u)
  {
    SwapDistinct(g, x);
    SwapFather(g, x);
    assert NodeOk(g, u) && NodeOk(g, x.p);
    var f, z := g.At(u).father, g.At(u).side;
    assert t.At(u).father == f && t.At(u).side == z;
    if f != 0 {
      StayFather(g, x, u);
      assert t.At(f).Child(z) == u;
    }
  }

  lemma SwappedFatherOk(g: Shape, t: Shape, x: Swap, u: nat)
    requires Swapping(g, x) && Swapped(g, t, x) && t.Has(u)
    ensures FatherOk(t, u)
  {
    SwappedTop(g, t, x);
    assert NodeOk(g, u);
    if u != x.r && u != x.c {
      if g.At(u).father == x.p { SwappedNext(g, t, x, u); } else { SwappedStay(g, t, x, u); }
    }
  }

  /** Replacing a node by its neighbour keeps the search tree. */
  lemma SwappedLinked(g: Shape, t: Shape, x: Swap)
    requires Swapping(g, x) && Swapped(g, t, x)
    ensures Linked(t)
  {
    SwapDistinct(g, x);
    assert NodeOk(g, x.p);
    forall u | t.Has(u) ensures NodeOk(t, u) {
      assert NodeOk(g, u);
      SwappedWithin(g, t, x, u);
      SwappedFatherOk(g, t, x, u);
      SwappedChildren(g, t, x, u, Left);
      SwappedChildren(g, t, x, u, Right);
    }
    SwappedRoot(g, t, x);
  }

  lemma SwappedChildren(g: Shape, t: Shape, x: Swap, u: nat, s: Side)
    requires Swapping(g, x) && Swapped(g, t, x) && t.Has(u)
    ensures ChildOk(t, u, s)
  {
    if u == x.r { SwappedNew(g, t, x, s); }
    else if g.At(u).Child(s) == x.p || (u == x.q && s == x.z) { SwappedOld(g, t, x, u, s); }
    else { SwappedChild(g, t, x, u, s); }
  }

  lemma SwappedRoot(g: Shape, t: Shape, x: Swap)
    requires Swapping(g, x) && Swapped(g, t, x)
    ensures t.root != 0 && t.Has(t.root) && t.At(t.root).father == 0
  {
    SwapDistinct(g, x);
    SwapFather(g, x);
    assert NodeOk(g, x.p) && NodeOk(g, g.root) && NodeOk(g, x.r);
  }

  // The node that may be out of balance: the former father of `r`, or `r` itself in its new place.
  ghost function Lighter(x: Swap): nat { if x.q == x.p then x.r else x.q }

  lemma SwappedHeight(g: Shape, h: map<nat, nat>, t: Shape, k: map<nat, nat>, x: Swap, u: nat)
    requires Swapping(g, x) && Swapped(g, t, x) && Balanced(g, h) && H(k, x.r) == H(h, x.p) && SameBut(h, k, {x.r})
    requires t.Has(u) && u != Lighter(x) && u != x.r
    ensures HeightOk(t, k, u)
  {
    SwapDistinct(g, x);
    SwapFather(g, x);
    assert HeightOk(g, h, u) && NodeOk(g, u);
    assert t.At(u).balance == g.At(u).balance;
    SwappedKid(g, h, t, k, x, u, Left);
    SwappedKid(g, h, t, k, x, u, Right);
  }

  lemma SwappedKid(g: Shape, h: map<nat, nat>, t: Shape, k: map<nat, nat>, x: Swap, u: nat, s: Side)
    requires Swapping(g, x) && Swapped(g, t, x) && H(k, x.r) == H(h, x.p) && SameBut(h, k, {x.r})
    requires t.Has(u) && u != x.r && !(u == x.q && s == x.z)
    ensures Kid(t, k, u, s) == Kid(g, h, u, s)
  {
    SwapDistinct(g, x);
    SwapFather(g, x);
    assert NodeOk(g, u);
    assert ChildOk(g, u, s);
  }

  // `r` in the place of `p`.
  // The subtrees of the node that takes the place.
  lemma {:induction false} SwappedKids(g: Shape, h: map<nat, nat>, t: Shape, k: map<nat, nat>, x: Swap)
    requires Swapping(g, x) && Swapped(g, t, x) && SameBut(h, k, {x.r})
    ensures Kid(t, k, x.r, Other(x.w)) == Kid(g, h, x.p, Other(x.w))
    ensures x.q != x.p ==> Kid(t, k, x.r, x.w) == Kid(g, h, x.p, x.w)
    ensures x.q == x.p ==> Kid(t, k, x.r, x.w) == H(h, x.c)
  {
    SwapDistinct(g, x);
    assert NodeOk(g, x.p) && ChildOk(g, x.p, Left) && ChildOk(g, x.p, Right);
  }

  lemma {:induction false} SwappedSelf(g: Shape, h: map<nat, nat>, t: Shape, k: map<nat, nat>, x: Swap)
    requires Swapping(g, x) && Swapped(g, t, x) && Balanced(g, h) && H(k, x.r) == H(h, x.p) && SameBut(h, k, {x.r})
    ensures x.q != x.p ==> HeightOk(t, k, x.r)
    ensures x.q == x.p ==> Lost(t, k, x.r, x.z)
  {
    SwapDistinct(g, x);
    SwappedKids(g, h, t, k, x);
    assert HeightOk(g, h, x.p) && NodeOk(g, x.p) && HeightOk(g, h, x.r);
    assert H(h, x.r) == 1 + H(h, x.c) by { assert x.w == Left || x.w == Right; }
  }

  // The subtree of `e` on side `s` has become lower by one.
  ghost predicate Lost(g: Shape, h: map<nat, nat>, e: nat, s: Side)
  {
    && g.At(e).balance == Kid(g, h, e, Right) - Kid(g, h, e, Left)
    && H(h, e) == 1 + Max(Kid(g, h, e, s) + 1, Kid(g, h, e, Other(s)))
    && -1 <= Kid(g, h, e, Other(s)) - (Kid(g, h, e, s) + 1) <= 1
  }

  lemma SwappedLost(g: Shape, h: map<nat, nat>, t: Shape, k: map<nat, nat>, x: Swap)
    requires Swapping(g, x) && Swapped(g, t, x) && Balanced(g, h) && H(k, x.r) == H(h, x.p) && SameBut(h, k, {x.r})
    requires x.q != x.p
    ensures Lost(t, k, x.q, x.z)
  {
    SwapDistinct(g, x);
    SwapFather(g, x);
    assert HeightOk(g, h, x.q) && NodeOk(g, x.q) && HeightOk(g, h, x.r);
    SwappedKid(g, h, t, k, x, x.q, Other(x.z));
    assert Kid(t, k, x.q, x.z) == H(h, x.c);
    assert H(h, x.r) == 1 + H(h, x.c) by { assert x.w == Left || x.w == Right; }
    assert t.At(x.q).balance == g.At(x.q).balance - Signed(x.z, 1);
  }

  /** After the replacement only the place the neighbour came from can be out of balance. */
  lemma SwappedPending(g: Shape, h: map<nat, nat>, t: Shape, k: map<nat, nat>, x: Swap)
    requires Swapping(g, x) && Swapped(g, t, x) && Balanced(g, h) && H(k, x.r) == H(h, x.p) && SameBut(h, k, {x.r})
    ensures Pending(t, k, Lighter(x), x.z, -1)
  {
    SwapDistinct(g, x);
    SwappedSelf(g, h, t, k, x);
    forall u | t.Has(u) && u != Lighter(x) ensures HeightOk(t, k, u) {
      if u != x.r { SwappedHeight(g, h, t, k, x, u); }
    }
    if x.q != x.p { SwappedLost(g, h, t, k, x); }
  }

  // ---------------------------------------------------------------------------------------------
  // Removal of a leaf

  ghost predicate Cut(g: Shape, t: Shape, p: nat)
  {
    var f := g.At(p).father;
    && (forall u :: t.Has(u) <==> g.Has(u) && u != p)
    && (f != 0 ==> t.At(f) == g.At(f).SetChild(g.At(p).side, 0).(balance := g.At(f).balance - Signed(g.At(p).side, 1)))
    && (forall u :: t.Has(u) && u != f ==> t.At(u) == g.At(u))
    && t.root == (if f == 0 then 0 else g.root) && (forall u :: t.In(u) == g.In(u))
  }

  ghost predicate Leaf(g: Shape, p: nat) { Linked(g) && g.Has(p) && g.At(p).left == 0 && g.At(p).right == 0 }

  // A leaf without a father is the only node.
  lemma LastNode(g: Shape, p: nat, u: nat)
    requires Leaf(g, p) && g.At(p).father == 0 && g.Has(u)
    ensures u == p
  {
    assert NodeOk(g, p);
    KeyFound(g, u);
  }

  lemma CutLinked(g: Shape, t: Shape, p: nat)
    requires Leaf(g, p) && Cut(g, t, p)
    ensures Linked(t)
  {
    assert NodeOk(g, p);
    var f := g.At(p).father;
    forall u | t.Has(u) ensures NodeOk(t, u) && f != 0 {
      if f == 0 { LastNode(g, p, u); }
      CutNode(g, t, p, u);
    }
    if f != 0 { assert NodeOk(g, f) && NodeOk(g, g.root); }
  }

  lemma CutNode(g: Shape, t: Shape, p: nat, u: nat)
    requires Leaf(g, p) && Cut(g, t, p) && g.Has(u) && u != p && g.At(p).father != 0
    ensures NodeOk(t, u)
  {
    assert NodeOk(g, p) && NodeOk(g, u);
    var f := g.At(u).father;
    assert f != p;
    if f != 0 { assert NodeOk(g, f); }
    assert ChildOk(g, u, Left) && ChildOk(g, u, Right);
  }

  /** After the cut only the father of the leaf can be out of balance. */
  lemma CutPending(g: Shape, h: map<nat, nat>, t: Shape, p: nat)
    requires Leaf(g, p) && Cut(g, t, p) && Balanced(g, h)
    ensures if g.At(p).father == 0 then Balanced(t, h) else Pending(t, h, g.At(p).father, g.At(p).side, -1)
  {
    assert NodeOk(g, p) && HeightOk(g, h, p);
    var f := g.At(p).father;
    if f != 0 {
      assert NodeOk(g, f) && HeightOk(g, h, f);
    }
    forall u | t.Has(u) && (u != f || f == 0) ensures HeightOk(t, h, u) {
      assert HeightOk(g, h, u) && NodeOk(g, u);
    }
  }
}
