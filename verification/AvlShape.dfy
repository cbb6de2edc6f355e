/**
 The balanced search tree of lib/decopus/trace/utils/include/avl.h, with father pointers and
 balance factors (neither AVL_RANGED nor AVL_LINKED).

 Nodes live in a pool: a node is denoted by its place, and place 0 is the null pointer.  The
 fields are updated in place, one assignment of the source at a time.  Every node also has, for
 the proofs, the open interval of keys its subtree may hold, and the height of its subtree.
 */
module AvlShape {
  import opened Common

  datatype Side = Left | Right

  function Other(s: Side): Side { if s == Left then Right else Left }

  datatype Node = Node(father: nat, side: Side, left: nat, right: nat, balance: int, key: int) {
    function Child(s: Side): nat { if s == Left then left else right }

    function SetChild(s: Side, p: nat): Node { if s == Left then this.(left := p) else this.(right := p) }
  }

  const NO_NODE := Node(0, Left, 0, 0, 0, 0)

  // ---------------------------------------------------------------------------------------------
  // Intervals of keys

  datatype Bounds = Bounds(lo: Option<int>, hi: Option<int>)

  const ALL_KEYS := Bounds(None, None)

  ghost predicate Within(b: Bounds, k: int)
  {
    (b.lo.Some? ==> b.lo.value < k) && (b.hi.Some? ==> k < b.hi.value)
  }

  // The part of `b` on one side of `k`.
  ghost function Part(b: Bounds, k: int, s: Side): Bounds
  {
    if s == Left then Bounds(b.lo, Some(k)) else Bounds(Some(k), b.hi)
  }

  ghost function SideOf(k: int, at: int): Side { if k < at then Left else Right }

  // ---------------------------------------------------------------------------------------------
  // Shape and order

  datatype Shape = Shape(nodes: map<nat, Node>, bounds: map<nat, Bounds>, root: nat) {
    ghost function At(p: nat): Node { if p in nodes then nodes[p] else NO_NODE }

    ghost predicate Has(p: nat) { p in nodes }

    ghost function In(p: nat): Bounds { if p in bounds then bounds[p] else ALL_KEYS }
  }

  // A child points back to its father, and has its part of the interval.
  ghost predicate ChildOk(g: Shape, p: nat, s: Side)
  {
    var c := g.At(p).Child(s);
    c != 0 ==> g.Has(c) && g.At(c).father == p && g.At(c).side == s && g.In(c) == Part(g.In(p), g.At(p).key, s)
  }

  ghost predicate FatherOk(g: Shape, p: nat)
  {
    var f := g.At(p).father;
    if f == 0 then p == g.root && g.In(p) == ALL_KEYS else g.Has(f) && g.At(f).Child(g.At(p).side) == p
  }

  ghost predicate NodeOk(g: Shape, p: nat)
  {
    p != 0 && Within(g.In(p), g.At(p).key) && ChildOk(g, p, Left) && ChildOk(g, p, Right) && FatherOk(g, p)
  }

  /** A search tree: links in both directions agree, and keys are on their side of every ancestor. */
  ghost predicate Linked(g: Shape)
  {
    && (if g.root == 0 then forall p :: !g.Has(p) else g.Has(g.root) && g.At(g.root).father == 0)
    && forall p {:trigger NodeOk(g, p)} :: g.Has(p) ==> NodeOk(g, p)
  }

  // ---------------------------------------------------------------------------------------------
  // Searching

  // Where the search for a key ends: at the node with the key, or at a missing child.
  datatype Place = Found(p: nat) | Missing(last: nat, side: Side)

  // The nodes with their key in the interval of `p`.
  ghost function Below(g: Shape, p: nat): set<nat>
  {
    set q | q in g.nodes && Within(g.In(p), g.At(q).key)
  }

  lemma BelowShrinks(g: Shape, p: nat, s: Side)
    requires Linked(g) && g.Has(p) && g.At(p).Child(s) != 0
    ensures Below(g, g.At(p).Child(s)) < Below(g, p)
  {
    assert NodeOk(g, p);
    var c := g.At(p).Child(s);
    assert p in Below(g, p) && p !in Below(g, c);
  }

  ghost function Search(g: Shape, p: nat, k: int): Place
    requires Linked(g) && g.Has(p)
    decreases Below(g, p)
  {
    var n := g.At(p);
    if k == n.key then Found(p)
    else
      var c := n.Child(SideOf(k, n.key));
      if c == 0 then Missing(p, SideOf(k, n.key))
      else
        BelowShrinks(g, p, SideOf(k, n.key));
        assert NodeOk(g, p);
        Search(g, c, k)
  }

  // Every node whose interval has the key is on the way of the search for it.
  lemma {:induction false} SearchThrough(g: Shape, p: nat, k: int)
    requires Linked(g) && g.Has(p) && Within(g.In(p), k)
    ensures g.Has(g.root) && Search(g, p, k) == Search(g, g.root, k)
    decreases g.nodes.Keys - Below(g, p)
  {
    assert NodeOk(g, p);
    var f := g.At(p).father;
    if f != 0 {
      assert NodeOk(g, f);
      BelowShrinks(g, f, g.At(p).side);
      SearchThrough(g, f, k);
    }
  }

  /** No two nodes have the same key, and no key of the tree is missed by the search for it. */
  lemma KeyFound(g: Shape, q: nat)
    requires Linked(g) && g.Has(q)
    ensures g.Has(g.root) && Search(g, g.root, g.At(q).key) == Found(q)
  {
    assert NodeOk(g, q);
    SearchThrough(g, q, g.At(q).key);
  }

  // A missing child whose interval has the key is where the search for it ends.
  lemma OnePlace(g: Shape, p: nat, s: Side, k: int)
    requires Linked(g) && g.Has(p) && g.At(p).Child(s) == 0 && Within(Part(g.In(p), g.At(p).key, s), k)
    ensures g.Has(g.root) && Search(g, g.root, k) == Missing(p, s)
  {
    assert NodeOk(g, p);
    SearchThrough(g, p, k);
  }

  // The interval of a missing child has no key.
  lemma NoKey(g: Shape, p: nat, s: Side, q: nat)
    requires Linked(g) && g.Has(p) && g.Has(q) && g.At(p).Child(s) == 0
    ensures !Within(Part(g.In(p), g.At(p).key, s), g.At(q).key)
  {
    if Within(Part(g.In(p), g.At(p).key, s), g.At(q).key) {
      OnePlace(g, p, s, g.At(q).key);
      KeyFound(g, q);
    }
  }

  // ---------------------------------------------------------------------------------------------
  // Rotation

  // `AVL_rot` of `r` to side `s`: `n`, the child of `r` on the other side, takes the place of `r`
  // below `f`, and the child `c` of `n` moves to `r`.
  datatype Turn = Turn(r: nat, s: Side, n: nat, c: nat, f: nat)

  ghost predicate Turning(g: Shape, x: Turn)
  {
    && Linked(g) && g.Has(x.r) && x.n != 0
    && x.n == g.At(x.r).Child(Other(x.s)) && x.c == g.At(x.n).Child(x.s) && x.f == g.At(x.r).father
  }

  ghost predicate Turned(g: Shape, t: Shape, x: Turn)
  {
    && t.At(x.n) == g.At(x.n).(father := x.f, side := g.At(x.r).side).SetChild(x.s, x.r)
    && t.At(x.r) == g.At(x.r).(father := x.n, side := x.s).SetChild(Other(x.s), x.c)
    && (x.c != 0 ==> t.At(x.c) == g.At(x.c).(father := x.r, side := Other(x.s)))
    && (x.f != 0 ==> t.At(x.f) == g.At(x.f).SetChild(g.At(x.r).side, x.n))
    && (forall p :: t.Has(p) <==> g.Has(p))
    && (forall p :: g.Has(p) && p != x.n && p != x.r && p != x.c && p != x.f ==> t.At(p) == g.At(p))
    && t.root == (if x.f == 0 then x.n else g.root)
    && t.In(x.n) == g.In(x.r) && t.In(x.r) == Part(g.In(x.r), g.At(x.n).key, x.s)
    && (forall p :: p != x.n && p != x.r ==> t.In(p) == g.In(p))
  }

  lemma TurnDistinct(g: Shape, x: Turn)
    requires Turning(g, x)
    ensures g.Has(x.n) && (x.c != 0 ==> g.Has(x.c)) && (x.f != 0 ==> g.Has(x.f)) && (x.f == 0 <==> x.r == g.root)
    ensures x.n != x.r && x.c != x.r && x.c != x.n && x.f != x.r && x.f != x.n && (x.f != 0 ==> x.f != x.c)
  {
    assert NodeOk(g, x.r);
    assert NodeOk(g, x.n);
    if x.c != 0 { assert NodeOk(g, x.c); }
    if x.f != 0 { assert NodeOk(g, x.f); }
  }

  lemma TurnedR(g: Shape, t: Shape, x: Turn)
    requires Turning(g, x) && Turned(g, t, x)
    ensures NodeOk(t, x.r)
  {
    TurnDistinct(g, x);
    assert NodeOk(g, x.r) && NodeOk(g, x.n);
    var d := g.At(x.r).Child(x.s);
    if d != 0 { assert NodeOk(g, d); }
    assert ChildOk(t, x.r, x.s);
    assert ChildOk(t, x.r, Other(x.s));
  }

  lemma TurnedN(g: Shape, t: Shape, x: Turn)
    requires Turning(g, x) && Turned(g, t, x)
    ensures NodeOk(t, x.n)
  {
    TurnDistinct(g, x);
    assert NodeOk(g, x.r) && NodeOk(g, x.n);
    var b := g.At(x.n).Child(Other(x.s));
    if b != 0 { assert NodeOk(g, b); }
    assert ChildOk(t, x.n, x.s);
    assert ChildOk(t, x.n, Other(x.s));
  }

  // A child that is not one of those that move.
  lemma TurnedChild(g: Shape, t: Shape, x: Turn, p: nat, z: Side)
    requires Turning(g, x) && Turned(g, t, x)
    requires g.Has(p) && p != x.n && p != x.r && (p == x.f ==> z != g.At(x.r).side)
    ensures ChildOk(t, p, z)
  {
    TurnDistinct(g, x);
    assert NodeOk(g, p);
    var d := g.At(p).Child(z);
    assert ChildOk(g, p, z);
    assert t.At(p).Child(z) == d && t.At(p).key == g.At(p).key;
    if d != 0 {
      assert NodeOk(g, x.r) && NodeOk(g, x.n);
      assert d != x.r && d != x.n && d != x.c;
    }
  }

  // A father that is not one of those that move.
  lemma TurnedFather(g: Shape, t: Shape, x: Turn, p: nat)
    requires Turning(g, x) && Turned(g, t, x)
    requires g.Has(p) && p != x.n && p != x.r && p != x.c
    ensures FatherOk(t, p)
  {
    TurnDistinct(g, x);
    assert NodeOk(g, p) && NodeOk(g, x.r);
    var f := g.At(p).father;
    assert t.At(p).father == f && t.At(p).side == g.At(p).side;
    if f != 0 {
      assert NodeOk(g, f);
      assert f == x.f ==> g.At(p).side != g.At(x.r).side;
      assert f == x.r ==> g.At(p).side == x.s;
      assert f == x.n ==> g.At(p).side == Other(x.s);
    }
  }

  lemma TurnedC(g: Shape, t: Shape, x: Turn)
    requires Turning(g, x) && Turned(g, t, x) && x.c != 0
    ensures NodeOk(t, x.c)
  {
    TurnDistinct(g, x);
    assert NodeOk(g, x.c) && NodeOk(g, x.n) && NodeOk(g, x.r);
    TurnedChild(g, t, x, x.c, Left);
    TurnedChild(g, t, x, x.c, Right);
  }

  lemma TurnedF(g: Shape, t: Shape, x: Turn)
    requires Turning(g, x) && Turned(g, t, x) && x.f != 0
    ensures NodeOk(t, x.f)
  {
    TurnDistinct(g, x);
    assert NodeOk(g, x.f) && NodeOk(g, x.r);
    TurnedFather(g, t, x, x.f);
    TurnedChild(g, t, x, x.f, Other(g.At(x.r).side));
    assert ChildOk(t, x.f, g.At(x.r).side);
  }

  lemma TurnedOther(g: Shape, t: Shape, x: Turn, p: nat)
    requires Turning(g, x) && Turned(g, t, x) && g.Has(p) && p != x.n && p != x.r && p != x.c && p != x.f
    ensures NodeOk(t, p)
  {
    assert NodeOk(g, p);
    TurnedFather(g, t, x, p);
    TurnedChild(g, t, x, p, Left);
    TurnedChild(g, t, x, p, Right);
  }

  lemma TurnedRoot(g: Shape, t: Shape, x: Turn)
    requires Turning(g, x) && Turned(g, t, x)
    ensures t.root != 0 && t.Has(t.root) && t.At(t.root).father == 0
  {
    TurnDistinct(g, x);
    assert NodeOk(g, g.root) && NodeOk(g, x.r) && NodeOk(g, x.n);
  }

  /** Rotation keeps the search tree. */
  lemma TurnedLinked(g: Shape, t: Shape, x: Turn)
    requires Turning(g, x) && Turned(g, t, x)
    ensures Linked(t)
  {
    TurnedRoot(g, t, x);
    forall p | t.Has(p) ensures NodeOk(t, p) {
      assert NodeOk(g, p);
      if p == x.n { TurnedN(g, t, x); }
      else if p == x.r { TurnedR(g, t, x); }
      else if p == x.c { TurnedC(g, t, x); }
      else if p == x.f { TurnedF(g, t, x); }
      else { TurnedOther(g, t, x, p); }
    }
  }
}
