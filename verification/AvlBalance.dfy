/**
 Heights and balance factors of the tree of lib/decopus/trace/utils/include/avl.h, and what each
 case of its `AVL_balance` does to them.
 */
module AvlBalance {
  import opened AvlShape

  function Signed(s: Side, v: int): int { if s == Left then -v else v }

  ghost function Max(a: nat, b: nat): nat { if a < b then b else a }

  // Heights of subtrees; the missing subtree has height 0.
  ghost function H(h: map<nat, nat>, p: nat): nat { if p != 0 && p in h then h[p] else 0 }

  ghost predicate SameBut(h: map<nat, nat>, k: map<nat, nat>, q: set<nat>)
  {
    forall p :: p !in q ==> H(k, p) == H(h, p)
  }

  ghost function Kid(g: Shape, h: map<nat, nat>, p: nat, s: Side): nat { H(h, g.At(p).Child(s)) }

  ghost predicate HeightOk(g: Shape, h: map<nat, nat>, p: nat)
  {
    && H(h, p) == 1 + Max(Kid(g, h, p, Left), Kid(g, h, p, Right))
    && g.At(p).balance == Kid(g, h, p, Right) - Kid(g, h, p, Left)
    && -1 <= g.At(p).balance <= 1
  }

  /** `balance` is the difference of the heights of the two subtrees, and is -1, 0 or 1. */
  ghost predicate Balanced(g: Shape, h: map<nat, nat>)
  {
    forall p {:trigger HeightOk(g, h, p)} :: g.Has(p) ==> HeightOk(g, h, p)
  }

  ghost predicate BalancedBut(g: Shape, h: map<nat, nat>, e: nat)
  {
    forall p {:trigger HeightOk(g, h, p)} :: g.Has(p) && p != e ==> HeightOk(g, h, p)
  }

  // The subtree of `e` on side `s` has grown (`d == 1`) or shrunk (`d == -1`) by one; the balance
  // factor of `e` tells so, but its height is still the one from before.
  ghost predicate Pending(g: Shape, h: map<nat, nat>, e: nat, s: Side, d: int)
  {
    && (d == 1 || d == -1)
    && BalancedBut(g, h, e) && g.Has(e) && g.At(e).balance == Kid(g, h, e, Right) - Kid(g, h, e, Left)
    && Kid(g, h, e, s) - d >= 0
    && var was := Kid(g, h, e, s) - d;
       var other := Kid(g, h, e, Other(s));
       H(h, e) == 1 + Max(was, other) && -1 <= other - was <= 1
  }

  // The variation of the height of `e` when no rotation is needed.
  function Variation(balance: int, add: bool): int
  {
    if balance == 0 then (if add then 0 else -1) else (if add then 1 else 0)
  }

  ghost function Diff(add: bool): int { if add then 1 else -1 }

  /** Without a rotation, the height of the node changes by what `AVL_balance` says. */
  lemma NoTurn(g: Shape, h: map<nat, nat>, e: nat, s: Side, add: bool)
    requires Pending(g, h, e, s, Diff(add)) && -1 <= g.At(e).balance <= 1
    ensures 1 + Max(Kid(g, h, e, Left), Kid(g, h, e, Right)) == H(h, e) + Variation(g.At(e).balance, add)
  {
  }

  // The balance factor of `f` is from before the height of its child `n` changed by `v`.
  ghost predicate Late(g: Shape, h: map<nat, nat>, f: nat, z: Side, n: nat, v: int)
  {
    && g.Has(f) && g.At(f).Child(z) == n && H(h, n) - v >= 0
    && var was := H(h, n) - v;
       var other := Kid(g, h, f, Other(z));
       && H(h, f) == 1 + Max(was, other) && -1 <= other - was <= 1
       && g.At(f).balance == (if z == Left then other - was else was - other)
  }

  // A subtree below `f` is in balance again, its root is `n` and its height has changed by `v`.
  ghost predicate Settled(g: Shape, h: map<nat, nat>, f: nat, z: Side, n: nat, v: int)
  {
    BalancedBut(g, h, f) && (f != 0 ==> Late(g, h, f, z, n, v))
  }

  // A node whose height is unchanged ends the loop: the early stop is sound.
  lemma SettledStop(g: Shape, h: map<nat, nat>, f: nat, z: Side, n: nat)
    requires Settled(g, h, f, z, n, 0)
    ensures Balanced(g, h) || f == 0
    ensures f == 0 ==> BalancedBut(g, h, 0)
  {
    forall p | f != 0 && g.Has(p) ensures HeightOk(g, h, p) {
      if p == f { assert z == Left || z == Right; }
    }
  }

  // Otherwise the father gets the news and is next.
  lemma SettledUp(g: Shape, t: Shape, h: map<nat, nat>, f: nat, z: Side, n: nat, v: int)
    requires Settled(g, h, f, z, n, v) && f != 0 && (v == 1 || v == -1)
    requires forall p :: t.Has(p) <==> g.Has(p)
    requires forall p :: g.Has(p) && p != f ==> t.At(p) == g.At(p)
    requires t.At(f) == g.At(f).(balance := g.At(f).balance + Signed(z, v))
    ensures Pending(t, h, f, z, v)
  {
    forall p | t.Has(p) && p != f ensures HeightOk(t, h, p) { assert HeightOk(g, h, p); }
  }

  // ---------------------------------------------------------------------------------------------
  // The cases of `AVL_balance`

  // Only the balance factors of `p` and `q` differ.
  ghost predicate Rebalanced(g: Shape, t: Shape, p: nat, b: int, q: nat, c: int)
  {
    && (forall u :: t.Has(u) <==> g.Has(u))
    && (forall u :: g.Has(u) ==>
         t.At(u) == g.At(u).(balance := if u == p then b else if u == q then c else g.At(u).balance))
    && t.root == g.root && (forall u :: t.In(u) == g.In(u))
  }

  lemma RebalancedLinked(g: Shape, t: Shape, p: nat, b: int, q: nat, c: int)
    requires Linked(g) && Rebalanced(g, t, p, b, q, c)
    ensures Linked(t)
  {
    forall u | t.Has(u) ensures NodeOk(t, u) {
      assert NodeOk(g, u);
      if g.At(u).father != 0 { assert NodeOk(g, g.At(u).father); }
    }
  }

  // The child of a node knows its father.
  lemma Parents(g: Shape, p: nat, z: Side)
    requires Linked(g) && g.Has(p)
    ensures g.At(p).Child(z) != 0 ==>
      g.Has(g.At(p).Child(z)) && g.At(g.At(p).Child(z)).father == p && g.At(g.At(p).Child(z)).side == z
    ensures g.At(p).father != 0 ==> g.Has(g.At(p).father) && g.At(g.At(p).father).Child(g.At(p).side) == p
    ensures p != 0
  {
    assert NodeOk(g, p);
    assert ChildOk(g, p, z);
  }

  lemma Unmoved(g: Shape, h: map<nat, nat>, t: Shape, k: map<nat, nat>, p: nat)
    requires HeightOk(g, h, p) && H(k, p) == H(h, p) && t.At(p).balance == g.At(p).balance
    requires t.At(p).left == g.At(p).left && t.At(p).right == g.At(p).right
    requires H(k, g.At(p).left) == H(h, g.At(p).left) && H(k, g.At(p).right) == H(h, g.At(p).right)
    ensures HeightOk(t, k, p)
  {
  }

  lemma LateFather(g: Shape, h: map<nat, nat>, t: Shape, k: map<nat, nat>, f: nat, z: Side, e: nat, n: nat, v: int)
    requires HeightOk(g, h, f) && g.At(f).Child(z) == e && t.Has(f) && t.At(f) == g.At(f).SetChild(z, n)
    requires H(k, f) == H(h, f) && Kid(g, k, f, Other(z)) == Kid(g, h, f, Other(z)) && H(k, n) - v == H(h, e)
    ensures Late(t, k, f, z, n, v)
  {
  }

  // A node and its two children are not above themselves.
  lemma Apart(g: Shape, p: nat, e: nat)
    requires Linked(g) && g.Has(p) && g.Has(e) && p != g.At(e).father
    ensures g.At(p).left != e && g.At(p).right != e
  {
    assert NodeOk(g, e);
    Parents(g, p, Left);
    Parents(g, p, Right);
  }

  lemma NoTurnSelf(g: Shape, h: map<nat, nat>, e: nat, k: map<nat, nat>)
    requires Linked(g) && g.Has(e) && -1 <= g.At(e).balance <= 1
    requires g.At(e).balance == Kid(g, h, e, Right) - Kid(g, h, e, Left)
    requires H(k, e) == 1 + Max(Kid(g, h, e, Left), Kid(g, h, e, Right)) && SameBut(h, k, {e})
    ensures HeightOk(g, k, e)
  {
    assert NodeOk(g, e);
    if g.At(e).left != 0 { assert NodeOk(g, g.At(e).left); }
    if g.At(e).right != 0 { assert NodeOk(g, g.At(e).right); }
  }

  lemma NoTurnNode(g: Shape, h: map<nat, nat>, e: nat, k: map<nat, nat>, p: nat)
    requires Linked(g) && g.Has(e) && BalancedBut(g, h, e) && SameBut(h, k, {e})
    requires g.Has(p) && p != g.At(e).father && p != e
    ensures HeightOk(g, k, p)
  {
    Apart(g, p, e);
    assert HeightOk(g, h, p);
    Unmoved(g, h, g, k, p);
  }

  /** The cases 0, 1 and -1. */
  lemma NoTurnSettled(g: Shape, h: map<nat, nat>, e: nat, s: Side, add: bool, k: map<nat, nat>)
    requires Linked(g) && Pending(g, h, e, s, Diff(add)) && -1 <= g.At(e).balance <= 1
    requires H(k, e) == 1 + Max(Kid(g, h, e, Left), Kid(g, h, e, Right)) && SameBut(h, k, {e})
    ensures Settled(g, k, g.At(e).father, g.At(e).side, e, Variation(g.At(e).balance, add))
  {
    var f := g.At(e).father;
    forall p | g.Has(p) && p != f ensures HeightOk(g, k, p) {
      if p == e { NoTurnSelf(g, h, e, k); } else { NoTurnNode(g, h, e, k, p); }
    }
    NoTurn(g, h, e, s, add);
    if f != 0 { NoTurnFather(g, h, e, k, Variation(g.At(e).balance, add)); }
  }

  lemma NoTurnFather(g: Shape, h: map<nat, nat>, e: nat, k: map<nat, nat>, v: int)
    requires Linked(g) && g.Has(e) && BalancedBut(g, h, e) && g.At(e).father != 0
    requires SameBut(h, k, {e}) && H(k, e) - v == H(h, e)
    ensures Late(g, k, g.At(e).father, g.At(e).side, e, v)
  {
    var f := g.At(e).father;
    var z := g.At(e).side;
    Parents(g, e, z);
    Parents(g, f, Other(z));
    Parents(g, f, z);
    assert NodeOk(g, e) && NodeOk(g, f);
    assert HeightOk(g, h, f);
    LateFather(g, h, g, k, f, z, e, e, v);
  }

  // The variation of the height after a single rotation, by whether the child leans like its father.
  function OneTurn(leans: bool, add: bool): int { if leans then (if add then 0 else -1) else (if add then 1 else 0) }

  // `e` leans by two to side `w`; its height is still the one from before.
  ghost predicate Heavy(g: Shape, h: map<nat, nat>, e: nat, w: Side, add: bool)
  {
    && BalancedBut(g, h, e) && g.Has(e) && Kid(g, h, e, w) == Kid(g, h, e, Other(w)) + 2
    && H(h, e) == Kid(g, h, e, w) + if add then 0 else 1
  }

  lemma PendingHeavy(g: Shape, h: map<nat, nat>, e: nat, w: Side, s: Side, add: bool)
    requires Pending(g, h, e, s, Diff(add)) && g.At(e).balance == Signed(w, 2)
    ensures Heavy(g, h, e, w, add)
  {
  }

  // `balance` leans to side `w`, or to neither.
  lemma Leaning(g: Shape, h: map<nat, nat>, p: nat, w: Side)
    requires HeightOk(g, h, p)
    ensures g.At(p).balance == Signed(w, Kid(g, h, p, w) - Kid(g, h, p, Other(w)))
    ensures H(h, p) == 1 + Max(Kid(g, h, p, w), Kid(g, h, p, Other(w)))
  {
  }

  lemma HeightFrom(g: Shape, h: map<nat, nat>, p: nat, w: Side)
    requires H(h, p) == 1 + Max(Kid(g, h, p, w), Kid(g, h, p, Other(w)))
    requires g.At(p).balance == Signed(w, Kid(g, h, p, w) - Kid(g, h, p, Other(w))) && -1 <= g.At(p).balance <= 1
    ensures HeightOk(g, h, p)
  {
  }

  // A single rotation: the child of `x.r` on side `w`, the heavy one, leans to `w` or is even.
  ghost predicate Single(g: Shape, h: map<nat, nat>, x: Turn, w: Side, add: bool)
  {
    && Turning(g, x) && x.s == Other(w) && Heavy(g, h, x.r, w, add)
    && (g.At(x.n).balance == Signed(w, 1) || g.At(x.n).balance == 0)
  }

  // The heights of the two nodes that turn.
  ghost predicate SingleHeights(g: Shape, h: map<nat, nat>, k: map<nat, nat>, x: Turn, add: bool)
  {
    && H(k, x.r) == 1 + Max(H(h, x.c), Kid(g, h, x.r, x.s))
    && H(k, x.n) == H(h, x.r) + OneTurn(g.At(x.n).balance != 0, add)
    && SameBut(h, k, {x.r, x.n})
  }

  // The rotation together with the new balance factors.
  ghost predicate SingleDone(g: Shape, t: Shape, x: Turn, w: Side)
  {
    && t.Has(x.r) && t.Has(x.n)
    && t.At(x.r).Child(w) == x.c && t.At(x.r).Child(x.s) == g.At(x.r).Child(x.s)
    && t.At(x.n).Child(x.s) == x.r && t.At(x.n).Child(w) == g.At(x.n).Child(w)
    && (g.At(x.n).balance != 0 ==> t.At(x.n).balance == 0 && t.At(x.r).balance == 0)
    && (g.At(x.n).balance == 0 ==> t.At(x.n).balance == Signed(w, -1) && t.At(x.r).balance == Signed(w, 1))
  }

  lemma SingleTwo(g: Shape, h: map<nat, nat>, t: Shape, k: map<nat, nat>, x: Turn, w: Side, add: bool)
    requires Single(g, h, x, w, add) && SingleHeights(g, h, k, x, add) && SingleDone(g, t, x, w)
    ensures HeightOk(t, k, x.r) && HeightOk(t, k, x.n)
  {
    TurnDistinct(g, x);
    assert HeightOk(g, h, x.n);
    Parents(g, x.r, x.s);
    Parents(g, x.n, w);
    assert g.At(x.r).Child(x.s) != x.n;
    assert g.At(x.n).Child(w) != x.n;
    Leaning(g, h, x.n, w);
    assert Kid(t, k, x.r, w) == H(h, x.c) && Kid(t, k, x.r, x.s) == Kid(g, h, x.r, x.s);
    assert Kid(t, k, x.n, w) == Kid(g, h, x.n, w) && Kid(t, k, x.n, x.s) == H(k, x.r);
    HeightFrom(t, k, x.r, w);
    HeightFrom(t, k, x.n, w);
  }

  // What a case leaves alone: a node keeps its children and balance factor.
  ghost predicate Kept(g: Shape, t: Shape, p: nat)
  {
    t.Has(p) && t.At(p).left == g.At(p).left && t.At(p).right == g.At(p).right && t.At(p).balance == g.At(p).balance
  }

  // At most three nodes turn.
  datatype Trio = Trio(e: nat, n: nat, c: nat) {
    ghost predicate Has(p: nat) { p == e || p == n || p == c }
  }

  // `q.e` is the highest of the nodes that turn.
  ghost predicate Moving(g: Shape, q: Trio)
  {
    && g.Has(q.e) && g.Has(q.n) && g.Has(q.c) && !q.Has(0) && !q.Has(g.At(q.e).father)
    && q.Has(g.At(q.n).father) && q.Has(g.At(q.c).father)
  }

  ghost predicate KeptBut(g: Shape, t: Shape, q: Trio, f: nat)
  {
    && (forall p :: t.Has(p) <==> g.Has(p))
    && (forall p :: g.Has(p) && !q.Has(p) && p != f ==> Kept(g, t, p))
  }

  // The highest of the nodes that turn is `q.e` before and `n` after.
  lemma TurnSettled(g: Shape, h: map<nat, nat>, t: Shape, k: map<nat, nat>, q: Trio, e: nat, n: nat, v: int)
    requires Linked(g) && e == q.e && q.Has(n) && BalancedBut(g, h, e) && H(k, n) - v == H(h, e)
    requires forall p :: !q.Has(p) ==> H(k, p) == H(h, p)
    requires Moving(g, q) && KeptBut(g, t, q, g.At(e).father) && HeightOk(t, k, q.e) && HeightOk(t, k, q.n)
    requires HeightOk(t, k, q.c)
    requires g.At(e).father != 0 ==> t.At(g.At(e).father) == g.At(g.At(e).father).SetChild(g.At(e).side, n)
    ensures Settled(t, k, g.At(e).father, g.At(e).side, n, v)
  {
    var f := g.At(e).father;
    var z := g.At(e).side;
    forall p | t.Has(p) && p != f ensures HeightOk(t, k, p) {
      if !q.Has(p) {
        assert Kept(g, t, p) && HeightOk(g, h, p);
        NotAbove(g, q, p, Left);
        NotAbove(g, q, p, Right);
        Unmoved(g, h, t, k, p);
      }
    }
    if f != 0 {
      Parents(g, e, z);
      NotAbove(g, q, f, Other(z));
      assert HeightOk(g, h, f);
      LateFather(g, h, t, k, f, z, e, n, v);
    }
  }

  // A node outside of `q` has no child in `q` but the highest one.
  lemma NotAbove(g: Shape, q: Trio, p: nat, z: Side)
    requires Linked(g) && Moving(g, q) && g.Has(p) && !q.Has(p) && (p == g.At(q.e).father ==> z != g.At(q.e).side)
    ensures !q.Has(g.At(p).Child(z))
  {
    Parents(g, p, z);
  }

  /** The cases of a single rotation. */
  lemma SingleSettled(g: Shape, h: map<nat, nat>, t: Shape, k: map<nat, nat>, x: Turn, w: Side, add: bool)
    requires Single(g, h, x, w, add) && SingleHeights(g, h, k, x, add) && SingleDone(g, t, x, w)
    requires KeptBut(g, t, Trio(x.r, x.n, x.n), x.f)
    requires x.f != 0 ==> t.At(x.f) == g.At(x.f).SetChild(g.At(x.r).side, x.n)
    ensures Settled(t, k, x.f, g.At(x.r).side, x.n, OneTurn(g.At(x.n).balance != 0, add))
  {
    SingleMoving(g, x);
    SingleTwo(g, h, t, k, x, w, add);
    TurnSettled(g, h, t, k, Trio(x.r, x.n, x.n), x.r, x.n, OneTurn(g.At(x.n).balance != 0, add));
  }

  lemma SingleMoving(g: Shape, x: Turn)
    requires Turning(g, x)
    ensures Moving(g, Trio(x.r, x.n, x.n))
  {
    TurnDistinct(g, x);
    Parents(g, x.r, Other(x.s));
  }

  // A double rotation: the child `n` of `e` on the heavy side `w` leans away from `w`, to `c`.
  ghost predicate Double(g: Shape, h: map<nat, nat>, e: nat, n: nat, c: nat, w: Side, add: bool)
  {
    && Linked(g) && Heavy(g, h, e, w, add)
    && n == g.At(e).Child(w) && n != 0 && g.At(n).balance == Signed(w, -1) && c == g.At(n).Child(Other(w)) && c != 0
  }

  ghost predicate DoubleHeights(g: Shape, h: map<nat, nat>, k: map<nat, nat>, e: nat, n: nat, c: nat, w: Side,
                                add: bool)
  {
    && H(k, n) == 1 + Max(Kid(g, h, n, w), Kid(g, h, c, w))
    && H(k, e) == 1 + Max(Kid(g, h, c, Other(w)), Kid(g, h, e, Other(w)))
    && H(k, c) == H(h, e) + OneTurn(true, add)
    && SameBut(h, k, {e, n, c})
  }

  // The new balance factors of the left and the right one of the two lower nodes.
  function LeftAfter(bal: int): int { if bal == 1 then -1 else 0 }

  function RightAfter(bal: int): int { if bal == -1 then 1 else 0 }

  /** The source computes them by a product and a shift. */
  method Factors(bal: int) returns (l: int, r: int)
    requires -1 <= bal <= 1
    ensures l == LeftAfter(bal) && r == RightAfter(bal)
  {
    assert bal == -1 || bal == 0 || bal == 1;
    l := 0 - (bal * (bal + 1)) / 2;
    r := (bal * (bal - 1)) / 2;
  }

  ghost predicate DoubleDone(g: Shape, t: Shape, e: nat, n: nat, c: nat, w: Side)
  {
    && t.At(c).Child(w) == n && t.At(c).Child(Other(w)) == e && t.At(c).balance == 0
    && t.At(n).Child(w) == g.At(n).Child(w) && t.At(n).Child(Other(w)) == g.At(c).Child(w)
    && t.At(e).Child(w) == g.At(c).Child(Other(w)) && t.At(e).Child(Other(w)) == g.At(e).Child(Other(w))
    && t.At(t.At(c).left).balance == LeftAfter(g.At(c).balance)
    && t.At(t.At(c).right).balance == RightAfter(g.At(c).balance)
  }

  lemma DoubleDistinct(g: Shape, e: nat, n: nat, c: nat, w: Side)
    requires Linked(g) && g.Has(e) && n == g.At(e).Child(w) && n != 0 && c == g.At(n).Child(Other(w)) && c != 0
    ensures g.Has(n) && g.Has(c) && e != 0 && e != n && e != c && n != c
    ensures g.At(n).father == e && g.At(c).father == n
    ensures g.At(e).father != e && g.At(e).father != n && g.At(e).father != c
    ensures forall z :: g.At(c).Child(z) != e && g.At(c).Child(z) != n && g.At(c).Child(z) != c
    ensures g.At(n).Child(w) != e && g.At(n).Child(w) != n && g.At(n).Child(w) != c
    ensures g.At(e).Child(Other(w)) != e && g.At(e).Child(Other(w)) != n && g.At(e).Child(Other(w)) != c
  {
    assert NodeOk(g, e);
    assert NodeOk(g, n);
    assert NodeOk(g, c);
    var f := g.At(e).father;
    if f != 0 { assert NodeOk(g, f); }
    forall z ensures g.At(c).Child(z) != e && g.At(c).Child(z) != n && g.At(c).Child(z) != c { Parents(g, c, z); }
    Parents(g, n, w);
    Parents(g, e, Other(w));
  }

  lemma DoubleThree(g: Shape, h: map<nat, nat>, t: Shape, k: map<nat, nat>, e: nat, n: nat, c: nat, w: Side, add: bool)
    requires Double(g, h, e, n, c, w, add) && DoubleHeights(g, h, k, e, n, c, w, add) && DoubleDone(g, t, e, n, c, w)
    ensures HeightOk(t, k, e) && HeightOk(t, k, n) && HeightOk(t, k, c)
  {
    DoubleDistinct(g, e, n, c, w);
    DoubleKids(g, h, t, k, e, n, c, w, add);
    assert HeightOk(g, h, n) && HeightOk(g, h, c);
    Leaning(g, h, n, w);
    Leaning(g, h, c, w);
    HeightFrom(t, k, n, w);
    HeightFrom(t, k, e, w);
    HeightFrom(t, k, c, w);
  }

  lemma DoubleKids(g: Shape, h: map<nat, nat>, t: Shape, k: map<nat, nat>, e: nat, n: nat, c: nat, w: Side, add: bool)
    requires Double(g, h, e, n, c, w, add) && DoubleHeights(g, h, k, e, n, c, w, add) && DoubleDone(g, t, e, n, c, w)
    ensures Kid(t, k, n, w) == Kid(g, h, n, w) && Kid(t, k, n, Other(w)) == Kid(g, h, c, w)
    ensures Kid(t, k, e, w) == Kid(g, h, c, Other(w)) && Kid(t, k, e, Other(w)) == Kid(g, h, e, Other(w))
    ensures Kid(t, k, c, w) == H(k, n) && Kid(t, k, c, Other(w)) == H(k, e)
    ensures Kid(g, h, n, Other(w)) == H(h, c) && Kid(g, h, e, w) == H(h, n)
  {
    DoubleDistinct(g, e, n, c, w);
    assert forall p :: p != e && p != n && p != c ==> H(k, p) == H(h, p);
  }

  /** The cases of a double rotation. */
  lemma DoubleSettled(g: Shape, h: map<nat, nat>, t: Shape, k: map<nat, nat>, e: nat, n: nat, c: nat, w: Side,
                      add: bool)
    requires Double(g, h, e, n, c, w, add) && DoubleHeights(g, h, k, e, n, c, w, add) && DoubleDone(g, t, e, n, c, w)
    requires KeptBut(g, t, Trio(e, n, c), g.At(e).father)
    requires g.At(e).father != 0 ==> t.At(g.At(e).father) == g.At(g.At(e).father).SetChild(g.At(e).side, c)
    ensures Settled(t, k, g.At(e).father, g.At(e).side, c, OneTurn(true, add))
  {
    DoubleMoving(g, e, n, c, w);
    DoubleThree(g, h, t, k, e, n, c, w, add);
    TurnSettled(g, h, t, k, Trio(e, n, c), e, c, OneTurn(true, add));
  }

  lemma DoubleMoving(g: Shape, e: nat, n: nat, c: nat, w: Side)
    requires Linked(g) && g.Has(e) && n == g.At(e).Child(w) && n != 0 && c == g.At(n).Child(Other(w)) && c != 0
    ensures Moving(g, Trio(e, n, c))
  {
    DoubleDistinct(g, e, n, c, w);
  }
}
