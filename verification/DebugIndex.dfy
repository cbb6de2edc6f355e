/**
 The address index of lib/debughelper/debughelperlib/src/debug_helper.c: a balanced tree of
 instructions (src/avl_tree.c, searched by src/insn_tree.c) over a sorted linked list of them
 (src/generic_olist.c). Nodes and list elements are cells named by numbers, 0 being no cell, and
 are updated in place.
 */
module DebugIndex {
  import opened DebugTree

  // `struct avl_tree`
  datatype Cell = Cell(left: nat, right: nat, key: nat, depth: int, flags: int, data: nat)

  // The flags of an instruction
  datatype Flag = Unused | FuncEntry | FuncEnd | FuncCall | Jump | NewLine | FuncRange

  // `struct olist_elt` with the instruction it points to
  datatype Elt = Elt(key: nat, next: nat, flags: set<Flag>)

  function Ref(t: Tree): nat { if t.Leaf? then 0 else t.at }

  // ---------------------------------------------------------------------------------------------
  // Trees in cells

  ghost predicate Stored(nodes: map<nat, Cell>, t: Tree)
  {
    t.Node? ==>
      && t.at != 0 && t.at in nodes
      && nodes[t.at] == Cell(Ref(t.left), Ref(t.right), t.key, t.depth, t.flags, t.data)
      && Stored(nodes, t.left) && Stored(nodes, t.right)
  }

  // No cell holds two nodes.
  ghost predicate Distinct(t: Tree)
  {
    t.Node? ==>
      && Distinct(t.left) && Distinct(t.right)
      && t.at !in Refs(t.left) && t.at !in Refs(t.right) && Refs(t.left) !! Refs(t.right)
  }

  ghost predicate Kept(nodes: map<nat, Cell>, after: map<nat, Cell>, p: nat)
  {
    p in nodes ==> p in after && after[p] == nodes[p]
  }

  // Only cells of `ps` may have changed.
  ghost predicate Outside(nodes: map<nat, Cell>, after: map<nat, Cell>, ps: set<nat>)
  {
    && after.Keys == nodes.Keys
    && forall p :: p !in ps ==> Kept(nodes, after, p)
  }

  lemma {:induction false} StoredFrame(nodes: map<nat, Cell>, after: map<nat, Cell>, t: Tree)
    requires Stored(nodes, t) && forall p :: p in Refs(t) ==> Kept(nodes, after, p)
    ensures Stored(after, t)
  {
    if t.Node? {
      assert t.at in Refs(t) && Kept(nodes, after, t.at);
      StoredFrame(nodes, after, t.left);
      StoredFrame(nodes, after, t.right);
    }
  }

  lemma StoredOutside(nodes: map<nat, Cell>, after: map<nat, Cell>, ps: set<nat>, t: Tree)
    requires Stored(nodes, t) && Outside(nodes, after, ps) && ps !! Refs(t)
    ensures Stored(after, t)
  {
    StoredFrame(nodes, after, t);
  }

  lemma RightDistinct(t: Tree)
    requires t.Node? && t.left.Node? && Distinct(t)
    ensures Distinct(RightRotate(t)) && Refs(RightRotate(t)) == Refs(t)
  {
    assert Distinct(t.left);
  }

  lemma LeftDistinct(t: Tree)
    requires t.Node? && t.right.Node? && Distinct(t)
    ensures Distinct(LeftRotate(t)) && Refs(LeftRotate(t)) == Refs(t)
  {
    assert Distinct(t.right);
  }

  lemma BalanceDistinct(t: Tree)
    requires Tilted(t) && Distinct(t)
    ensures Distinct(Balance(t)) && Refs(Balance(t)) == Refs(t)
  {
    if t.flags == LEFT_UNBAL {
      if t.left.flags == RIGHT_HEAVY {
        LeftDistinct(t.left);
        RightDistinct(t.(left := LeftRotate(t.left)));
      } else {
        RightDistinct(t);
      }
    } else if t.flags == RIGHT_UNBAL {
      if t.right.flags == LEFT_HEAVY {
        RightDistinct(t.right);
        LeftDistinct(t.(right := RightRotate(t.right)));
      } else {
        LeftDistinct(t);
      }
    }
  }

  // The left subtree has been changed in place, perhaps with one more cell `extra`, and linked again.
  lemma LinkedLeft(nodes: map<nat, Cell>, mid: map<nat, Cell>, t: Tree, l: Tree, extra: set<nat>)
    requires t.Node? && Stored(nodes, t) && Distinct(t) && extra !! Refs(t)
    requires Outside(nodes, mid, Refs(t.left) + extra) && Stored(mid, l) && Distinct(l)
    requires Refs(l) == Refs(t.left) + extra
    ensures var after := mid[t.at := mid[t.at].(left := Ref(l))];
            && Stored(after, t.(left := l)) && Distinct(t.(left := l))
            && Outside(nodes, after, Refs(t) + extra) && Refs(t.(left := l)) == Refs(t) + extra
  {
    var after := mid[t.at := mid[t.at].(left := Ref(l))];
    assert Kept(nodes, mid, t.at);
    StoredOutside(nodes, mid, Refs(t.left) + extra, t.right);
    StoredOutside(mid, after, {t.at}, t.right);
    StoredOutside(mid, after, {t.at}, l);
    forall p | p !in Refs(t) + extra ensures Kept(nodes, after, p) {
      assert Kept(nodes, mid, p);
    }
  }

  lemma LinkedRight(nodes: map<nat, Cell>, mid: map<nat, Cell>, t: Tree, r: Tree, extra: set<nat>)
    requires t.Node? && Stored(nodes, t) && Distinct(t) && extra !! Refs(t)
    requires Outside(nodes, mid, Refs(t.right) + extra) && Stored(mid, r) && Distinct(r)
    requires Refs(r) == Refs(t.right) + extra
    ensures var after := mid[t.at := mid[t.at].(right := Ref(r))];
            && Stored(after, t.(right := r)) && Distinct(t.(right := r))
            && Outside(nodes, after, Refs(t) + extra) && Refs(t.(right := r)) == Refs(t) + extra
  {
    var after := mid[t.at := mid[t.at].(right := Ref(r))];
    assert Kept(nodes, mid, t.at);
    StoredOutside(nodes, mid, Refs(t.right) + extra, t.left);
    StoredOutside(mid, after, {t.at}, t.left);
    StoredOutside(mid, after, {t.at}, r);
    forall p | p !in Refs(t) + extra ensures Kept(nodes, after, p) {
      assert Kept(nodes, mid, p);
    }
  }

  lemma OutsideTwice(a: map<nat, Cell>, b: map<nat, Cell>, c: map<nat, Cell>, ps: set<nat>, qs: set<nat>)
    requires Outside(a, b, ps) && Outside(b, c, qs) && qs <= ps
    ensures Outside(a, c, ps)
  {
    forall p | p !in ps ensures Kept(a, c, p) {
      assert Kept(a, b, p) && Kept(b, c, p);
    }
  }

  // ---------------------------------------------------------------------------------------------
  // Lists in cells

  // The list from `p` on holds the entries `c`, each in its element.
  ghost predicate Chain(elts: map<nat, Elt>, p: nat, c: seq<Entry>)
    decreases |c|
  {
    if |c| == 0 then p == 0
    else p != 0 && p in elts && c[0] == Entry(elts[p].key, p) && Chain(elts, elts[p].next, c[1..])
  }

  function Data(c: seq<Entry>): set<nat> { set e | e in c :: e.data }

  // Keys and flags stay, and so do the links of the elements outside `ps`.
  ghost predicate Relinked(elts: map<nat, Elt>, after: map<nat, Elt>, ps: set<nat>)
  {
    && after.Keys == elts.Keys
    && forall p :: p in elts ==> SameElt(elts[p], after[p]) && (p in ps || after[p] == elts[p])
  }

  ghost predicate SameElt(a: Elt, b: Elt) { a.key == b.key && a.flags == b.flags }

  lemma {:induction false} ChainElements(elts: map<nat, Elt>, p: nat, c: seq<Entry>, i: nat)
    requires Chain(elts, p, c) && i < |c|
    ensures c[i].data != 0 && c[i].data in elts && elts[c[i].data].key == c[i].key
    ensures Chain(elts, c[i].data, c[i..])
    decreases |c|
  {
    if i > 0 {
      ChainElements(elts, elts[p].next, c[1..], i - 1);
      assert c[1..][i - 1..] == c[i..];
    } else {
      assert c[0..] == c;
    }
  }

  ghost predicate SamePlace(elts: map<nat, Elt>, after: map<nat, Elt>, p: nat)
    requires p in elts
  {
    p in after && after[p].key == elts[p].key && after[p].next == elts[p].next
  }

  lemma {:induction false} ChainFrame(elts: map<nat, Elt>, after: map<nat, Elt>, p: nat, c: seq<Entry>)
    requires Chain(elts, p, c)
    requires forall i :: 0 <= i < |c| && c[i].data in elts ==> SamePlace(elts, after, c[i].data)
    ensures Chain(after, p, c)
    decreases |c|
  {
    if |c| > 0 {
      assert c[0].data == p;
      forall i | 0 <= i < |c[1..]| ensures c[1..][i] == c[i + 1] {}
      ChainFrame(elts, after, elts[p].next, c[1..]);
    }
  }

  // A list whose end from element `i` on was replaced.
  lemma {:induction false} ChainJoin(elts: map<nat, Elt>, after: map<nat, Elt>, p: nat, c: seq<Entry>, i: nat,
                                     d: seq<Entry>)
    requires Chain(elts, p, c) && i < |c|
    requires |d| > 0 && d[0] == c[i] && Chain(after, c[i].data, d)
    requires forall k :: 0 <= k < i && c[k].data in elts ==> c[k].data in after && after[c[k].data] == elts[c[k].data]
    ensures Chain(after, p, c[..i] + d)
    decreases |c|
  {
    if i == 0 {
      assert c[..0] + d == d;
    } else {
      assert c[0].data == p;
      forall k | 0 <= k < i - 1 ensures c[1..][k] == c[k + 1] {}
      ChainJoin(elts, after, elts[p].next, c[1..], i - 1, d);
      assert c[..i] + d == [c[0]] + (c[1..][..i - 1] + d);
    }
  }

  lemma ChainElementsAll(elts: map<nat, Elt>, p: nat, c: seq<Entry>)
    requires Chain(elts, p, c)
    ensures forall i :: 0 <= i < |c| ==> c[i].data in elts && c[i].data != 0 && elts[c[i].data].key == c[i].key
  {
    forall i | 0 <= i < |c| ensures c[i].data in elts && c[i].data != 0 && elts[c[i].data].key == c[i].key {
      ChainElements(elts, p, c, i);
    }
  }

  // Linking a head before a list it is not in.
  lemma LinkHead(elts: map<nat, Elt>, p: nat, n: nat, x: Entry, c: seq<Entry>)
    requires Chain(elts, n, c) && p != 0 && p in elts && x == Entry(elts[p].key, p)
    requires forall i :: 0 <= i < |c| ==> c[i].data != p
    ensures Chain(elts[p := elts[p].(next := n)], p, [x] + c)
  {
    ChainFrame(elts, elts[p := elts[p].(next := n)], n, c);
    assert ([x] + c)[1..] == c;
  }

  lemma {:induction false} SearchStored(nodes: map<nat, Cell>, t: Tree, key: nat)
    requires Stored(nodes, t)
    ensures var r := Search(t, key);
            r.Node? ==> r.at != 0 && r.at in nodes && nodes[r.at].key == r.key && nodes[r.at].data == r.data
  {
    if t.Node? {
      SearchStored(nodes, t.left, key);
      SearchStored(nodes, t.right, key);
    }
  }

  lemma SortedEnd(c: seq<Entry>, i: nat)
    requires Sorted(c) && i <= |c|
    ensures Sorted(c[i..])
  {
    forall j, k | 0 <= j < k < |c[i..]| ensures c[i..][j].key < c[i..][k].key {
      assert c[i..][j] == c[i + j] && c[i..][k] == c[i + k];
    }
  }

  // An element before place `i` is not among those from there on.
  lemma NotInEnd(elts: map<nat, Elt>, c: seq<Entry>, i: nat, k: nat)
    requires k < i <= |c| && Sorted(c)
    requires forall j :: 0 <= j < |c| ==> c[j].data in elts && elts[c[j].data].key == c[j].key
    ensures c[k].data !in Data(c[i..])
  {
    forall e | e in c[i..] ensures e.data != c[k].data {
      var j :| i <= j < |c| && c[j] == e;
      assert c[k].key < c[j].key;
    }
  }

  lemma NotListed(c: seq<Entry>, p: nat)
    ensures p !in Data(c) <==> forall i :: 0 <= i < |c| ==> c[i].data != p
  {
    if forall i :: 0 <= i < |c| ==> c[i].data != p {
      forall e | e in c ensures e.data != p {}
    }
    forall i | 0 <= i < |c| ensures c[i].data in Data(c) { assert c[i] in c; }
  }

  // The element of the greatest smaller key.
  lemma FoundPlace(nodes: map<nat, Cell>, elts: map<nat, Elt>, list: nat, t: Tree, key: nat) returns (i: nat)
    requires Stored(nodes, t) && Sorted(InOrder(t)) && Chain(elts, list, InOrder(t)) && Search(t, key).Node?
    requires !HasKey(InOrder(t), key)
    ensures var c, r := InOrder(t), Search(t, key);
            && r.at in nodes && i < |c| && c[i].data == nodes[r.at].data && c[i].key < key
            && Chain(elts, c[i].data, c[i..]) && Sorted(c[i..])
  {
    var c, r := InOrder(t), Search(t, key);
    SearchFloor(t, key, Data(c));
    SearchStored(nodes, t, key);
    i :| 0 <= i < |c| && c[i] == Entry(r.key, r.data);
    ChainElements(elts, list, c, i);
    SortedEnd(c, i);
  }

  lemma LinkedAfter(elts: map<nat, Elt>, after: map<nat, Elt>, list: nat, c: seq<Entry>, i: nat, x: Entry)
    requires Sorted(c) && Chain(elts, list, c) && i < |c| && c[i].key < x.key && x.data !in Data(c)
    requires Chain(after, c[i].data, Add(c[i..], x)) && Relinked(elts, after, Data(c[i..]) + {x.data})
    ensures Chain(after, list, Add(c, x)) && Relinked(elts, after, Data(c) + {x.data})
  {
    ChainElementsAll(elts, list, c);
    AddAfter(c, i, x);
    assert Data(c[i..]) <= Data(c);
    forall k | 0 <= k < i ensures after[c[k].data] == elts[c[k].data] {
      NotInEnd(elts, c, i, k);
      assert c[k] in c && c[k].data in Data(c);
    }
    ChainJoin(elts, after, list, c, i, Add(c[i..], x));
  }

  lemma {:induction false} RefsStored(nodes: map<nat, Cell>, t: Tree)
    requires Stored(nodes, t)
    ensures Refs(t) <= nodes.Keys
  {
    if t.Node? {
      RefsStored(nodes, t.left);
      RefsStored(nodes, t.right);
    }
  }

  lemma ElementOf(elts: map<nat, Elt>, list: nat, c: seq<Entry>, e: Entry)
    requires Chain(elts, list, c) && e in c
    ensures e.data != 0 && e.data in elts && elts[e.data].key == e.key
  {
    var i :| 0 <= i < |c| && c[i] == e;
    ChainElements(elts, list, c, i);
  }

  // A key is there exactly when the search finds it.
  lemma FoundIff(t: Tree, key: nat)
    requires Sorted(InOrder(t))
    ensures var r := Search(t, key);
            HasKey(InOrder(t), key) <==> r.Node? && r.key == key
    ensures var r := Search(t, key);
            r.Node? ==> Entry(r.key, r.data) in InOrder(t)
  {
    var c, r := InOrder(t), Search(t, key);
    SearchFloor(t, key, Data(c));
    if HasKey(c, key) {
      var i :| 0 <= i < |c| && c[i].key == key;
      assert c[i] in c && c[i].data in Data(c);
    }
  }

  ghost function Members(keys: seq<nat>): set<nat> { set k | k in keys }

  lemma MembersNext(keys: seq<nat>, i: nat)
    requires i < |keys|
    ensures Members(keys[..i + 1]) == Members(keys[..i]) + {keys[i]}
  {
    assert keys[..i + 1] == keys[..i] + [keys[i]];
  }

  // All cells in use are numbered below `next`.
  ghost predicate Below(ps: set<nat>, next: nat)
  {
    0 < next && forall p :: p in ps ==> 0 < p < next
  }

  class Index {
    var nodes: map<nat, Cell>
    var root: nat
    var elts: map<nat, Elt>
    var list: nat
    var next: nat
    ghost var tree: Tree

    // The stored depth of a subtree
    method DepthOf(p: nat, ghost t: Tree) returns (d: int)
      requires Stored(nodes, t) && p == Ref(t)
      ensures d == Depth(t)
    {
      d := 0;
      if p != 0 {
        d := nodes[p].depth;
      }
    }

    /** `avl_right_rotate` */
    method RotateRight(p: nat, ghost t: Tree) returns (q: nat)
      requires t.Node? && t.left.Node? && Stored(nodes, t) && Distinct(t) && p == t.at
      modifies this`nodes
      ensures q == Ref(RightRotate(t)) && Stored(nodes, RightRotate(t)) && Distinct(RightRotate(t))
      ensures Outside(old(nodes), nodes, Refs(t)) && Refs(RightRotate(t)) == Refs(t)
    {
      q := nodes[p].left;
      var l2 := DepthOf(nodes[q].left, t.left.left);
      var r2 := DepthOf(nodes[q].right, t.left.right);
      var r1 := DepthOf(nodes[p].right, t.right);
      ghost var before := nodes;
      nodes := nodes[p := nodes[p].(left := nodes[q].right)];
      nodes := nodes[q := nodes[q].(right := p)];
      var n1 := Max(r2, r1) + 1;
      var n2 := Max(l2, n1) + 1;
      nodes := nodes[p := nodes[p].(depth := n1, flags := r1 - r2)];
      nodes := nodes[q := nodes[q].(depth := n2, flags := n1 - l2)];
      RightDistinct(t);
      StoredOutside(before, nodes, {p, q}, t.left.left);
      StoredOutside(before, nodes, {p, q}, t.left.right);
      StoredOutside(before, nodes, {p, q}, t.right);
    }

    /** `avl_left_rotate` */
    method RotateLeft(p: nat, ghost t: Tree) returns (q: nat)
      requires t.Node? && t.right.Node? && Stored(nodes, t) && Distinct(t) && p == t.at
      modifies this`nodes
      ensures q == Ref(LeftRotate(t)) && Stored(nodes, LeftRotate(t)) && Distinct(LeftRotate(t))
      ensures Outside(old(nodes), nodes, Refs(t)) && Refs(LeftRotate(t)) == Refs(t)
    {
      q := nodes[p].right;
      var l2 := DepthOf(nodes[q].left, t.right.left);
      var r2 := DepthOf(nodes[q].right, t.right.right);
      var l1 := DepthOf(nodes[p].left, t.left);
      ghost var before := nodes;
      nodes := nodes[p := nodes[p].(right := nodes[q].left)];
      nodes := nodes[q := nodes[q].(left := p)];
      var n1 := Max(l1, l2) + 1;
      var n2 := Max(n1, r2) + 1;
      nodes := nodes[p := nodes[p].(depth := n1, flags := l2 - l1)];
      nodes := nodes[q := nodes[q].(depth := n2, flags := r2 - n1)];
      LeftDistinct(t);
      StoredOutside(before, nodes, {p, q}, t.right.left);
      StoredOutside(before, nodes, {p, q}, t.right.right);
      StoredOutside(before, nodes, {p, q}, t.left);
    }

    /** `avl_balance` */
    method Rebalance(p: nat, ghost t: Tree) returns (q: nat)
      requires Tilted(t) && Stored(nodes, t) && Distinct(t) && p == t.at
      modifies this`nodes
      ensures q == Ref(Balance(t)) && Stored(nodes, Balance(t)) && Distinct(Balance(t))
      ensures Outside(old(nodes), nodes, Refs(t)) && Refs(Balance(t)) == Refs(t)
    {
      q := p;
      ghost var before := nodes;
      ghost var u := t;
      BalanceDistinct(t);
      if nodes[p].flags == LEFT_UNBAL {
        var left := nodes[p].left;
        if nodes[left].flags == RIGHT_HEAVY {
          left := RotateLeft(left, t.left);
          LinkedLeft(before, nodes, t, LeftRotate(t.left), {});
          nodes := nodes[p := nodes[p].(left := left)];
          u := t.(left := LeftRotate(t.left));
        }
        ghost var mid := nodes;
        q := RotateRight(p, u);
        OutsideTwice(before, mid, nodes, Refs(t), Refs(u));
      } else if nodes[p].flags == RIGHT_UNBAL {
        var right := nodes[p].right;
        if nodes[right].flags == LEFT_HEAVY {
          right := RotateRight(right, t.right);
          LinkedRight(before, nodes, t, RightRotate(t.right), {});
          nodes := nodes[p := nodes[p].(right := right)];
          u := t.(right := RightRotate(t.right));
        }
        ghost var mid := nodes;
        q := RotateLeft(p, u);
        OutsideTwice(before, mid, nodes, Refs(t), Refs(u));
      }
    }

    // The end of `avl_insert`
    method Adjust(p: nat, ghost t: Tree) returns (q: nat)
      requires Grown(t) && Stored(nodes, t) && Distinct(t) && p == t.at
      modifies this`nodes
      ensures q == Ref(Settle(t)) && Stored(nodes, Settle(t)) && Distinct(Settle(t))
      ensures Outside(old(nodes), nodes, Refs(t)) && Refs(Settle(t)) == Refs(t)
    {
      ghost var before := nodes;
      var l := DepthOf(nodes[p].left, t.left);
      var r := DepthOf(nodes[p].right, t.right);
      nodes := nodes[p := nodes[p].(depth := Max(l, r) + 1, flags := r - l)];
      StoredOutside(before, nodes, {p}, t.left);
      StoredOutside(before, nodes, {p}, t.right);
      q := p;
      SettleKeeps(t);
      ghost var mid := nodes;
      if nodes[p].flags == LEFT_UNBAL || nodes[p].flags == RIGHT_UNBAL {
        q := Rebalance(p, Measure(t));
      }
      OutsideTwice(before, mid, nodes, Refs(t), Refs(t));
    }

    /** `avl_insert` */
    method InsertNode(p: nat, n: nat, ghost t: Tree, ghost leaf: Tree) returns (q: nat)
      requires Avl(t) && Stored(nodes, t) && Distinct(t) && p == Ref(t) && Sorted(InOrder(t))
      requires Single(leaf) && Stored(nodes, leaf) && n == leaf.at && n !in Refs(t)
      modifies this`nodes
      ensures q == Ref(Insert(t, leaf)) && Stored(nodes, Insert(t, leaf)) && Distinct(Insert(t, leaf))
      ensures Outside(old(nodes), nodes, Refs(Insert(t, leaf)))
      decreases t, 1
    {
      if p == 0 {
        nodes := nodes[n := nodes[n].(depth := 1)];
        q := n;
      } else if nodes[p].key > nodes[n].key {
        q := InsertLeft(p, n, t, leaf);
      } else if nodes[p].key < nodes[n].key {
        q := InsertRight(p, n, t, leaf);
      } else {
        q := p;
      }
    }

    method InsertLeft(p: nat, n: nat, ghost t: Tree, ghost leaf: Tree) returns (q: nat)
      requires Avl(t) && Stored(nodes, t) && Distinct(t) && t.Node? && p == t.at && Sorted(InOrder(t))
      requires Single(leaf) && Stored(nodes, leaf) && n == leaf.at && n !in Refs(t) && t.key > leaf.key
      modifies this`nodes
      ensures q == Ref(Insert(t, leaf)) && Stored(nodes, Insert(t, leaf)) && Distinct(Insert(t, leaf))
      ensures Outside(old(nodes), nodes, Refs(Insert(t, leaf)))
      decreases t, 0
    {
      ghost var before := nodes;
      ghost var l := Insert(t.left, leaf);
      SortedParts(t);
      InsertRefs(t.left, leaf);
      GrewLeft(t, l);
      q := InsertNode(nodes[p].left, n, t.left, leaf);
      LinkedLeft(before, nodes, t, l, Refs(l) - Refs(t.left));
      nodes := nodes[p := nodes[p].(left := q)];
      ghost var mid := nodes;
      q := Adjust(p, t.(left := l));
      OutsideTwice(before, mid, nodes, Refs(t.(left := l)), Refs(t.(left := l)));
    }

    method InsertRight(p: nat, n: nat, ghost t: Tree, ghost leaf: Tree) returns (q: nat)
      requires Avl(t) && Stored(nodes, t) && Distinct(t) && t.Node? && p == t.at && Sorted(InOrder(t))
      requires Single(leaf) && Stored(nodes, leaf) && n == leaf.at && n !in Refs(t) && t.key < leaf.key
      modifies this`nodes
      ensures q == Ref(Insert(t, leaf)) && Stored(nodes, Insert(t, leaf)) && Distinct(Insert(t, leaf))
      ensures Outside(old(nodes), nodes, Refs(Insert(t, leaf)))
      decreases t, 0
    {
      ghost var before := nodes;
      ghost var r := Insert(t.right, leaf);
      SortedParts(t);
      InsertRefs(t.right, leaf);
      GrewRight(t, r);
      q := InsertNode(nodes[p].right, n, t.right, leaf);
      LinkedRight(before, nodes, t, r, Refs(r) - Refs(t.right));
      nodes := nodes[p := nodes[p].(right := q)];
      ghost var mid := nodes;
      q := Adjust(p, t.(right := r));
      OutsideTwice(before, mid, nodes, Refs(t.(right := r)), Refs(t.(right := r)));
    }

    /** `avl_search` */
    method SearchNode(p: nat, key: nat, ghost t: Tree) returns (found: nat)
      requires Stored(nodes, t) && p == Ref(t)
      ensures found == Ref(Search(t, key)) && (found == 0 <==> Search(t, key).Leaf?)
      ensures found != 0 ==> found in nodes && nodes[found].key == Search(t, key).key
                             && nodes[found].data == Search(t, key).data
      decreases t
    {
      if p == 0 { return 0; }
      if nodes[p].key > key {
        found := SearchNode(nodes[p].left, key, t.left);
      } else if nodes[p].key < key {
        found := SearchNode(nodes[p].right, key, t.right);
        if found == 0 { found := p; }
      } else {
        found := p;
      }
    }

    /** `olist_add` */
    method ListAdd(p: nat, elt: nat, ghost c: seq<Entry>) returns (q: nat)
      requires Chain(elts, p, c) && Sorted(c) && elt != 0 && elt in elts
      requires forall i :: 0 <= i < |c| ==> c[i].data != elt
      modifies this`elts
      ensures Chain(elts, q, Add(c, Entry(old(elts)[elt].key, elt)))
      ensures Relinked(old(elts), elts, Data(c) + {elt})
      decreases |c|
    {
      ghost var before := elts;
      ghost var x := Entry(elts[elt].key, elt);
      if p == 0 || elts[p].key > elts[elt].key {
        elts := elts[elt := elts[elt].(next := p)];
        q := elt;
        ChainElementsAll(before, p, c);
        ChainFrame(before, elts, p, c);
        assert Add(c, x) == [x] + c && Add(c, x)[1..] == c;
      } else {
        forall i | 0 <= i < |c[1..]| ensures c[1..][i] == c[i + 1] {}
        var n := ListAdd(elts[p].next, elt, c[1..]);
        ghost var mid := elts;
        elts := elts[p := elts[p].(next := n)];
        q := p;
        assert Data(c[1..]) <= Data(c) && c[0].data in Data(c);
        ghost var d := Add(c[1..], x);
        ChainElementsAll(before, p, c);
        forall i | 0 <= i < |d| ensures d[i].data != p { AddMembers(c[1..], x, d[i]); }
        LinkHead(mid, p, n, c[0], d);
        assert Add(c, x)[0] == c[0] && Add(c, x)[1..] == Add(c[1..], x);
      }
    }

    // ---------------------------------------------------------------------------------------------
    // The index

    // What the index holds: the keys in order, each with its list element.
    ghost function Entries(): seq<Entry>
      reads this
    {
      InOrder(tree)
    }

    ghost predicate Inv()
      reads this
    {
      && root == Ref(tree) && Stored(nodes, tree) && Distinct(tree) && Avl(tree)
      && Sorted(InOrder(tree)) && Chain(elts, list, InOrder(tree))
      && Below(nodes.Keys, next) && Below(elts.Keys, next)
    }

    constructor ()
      ensures Inv() && Entries() == []
    {
      nodes, elts, root, list, next, tree := map[], map[], 0, 0, 1, Leaf;
    }

    // The list half of an addition: behind the found element, or from the head.
    method LinkElement(elt: nat, found: nat)
      requires Sorted(InOrder(tree)) && Chain(elts, list, InOrder(tree)) && Stored(nodes, tree)
      requires elt != 0 && elt in elts && elt !in Data(InOrder(tree))
      requires found == Ref(Search(tree, elts[elt].key)) && (found == 0 <==> Search(tree, elts[elt].key).Leaf?)
      requires !HasKey(InOrder(tree), elts[elt].key)
      modifies this`elts, this`list
      ensures Chain(elts, list, Add(InOrder(tree), Entry(old(elts)[elt].key, elt)))
      ensures Relinked(old(elts), elts, Data(InOrder(tree)) + {elt})
    {
      ghost var before, c, x := elts, InOrder(tree), Entry(elts[elt].key, elt);
      NotListed(c, elt);
      if found != 0 {
        ghost var i := FoundPlace(nodes, elts, list, tree, x.key);
        NotListed(c[i..], elt);
        var q := ListAdd(nodes[found].data, elt, c[i..]);
        LinkedAfter(before, elts, list, c, i, x);
      } else {
        list := ListAdd(list, elt, c);
      }
    }

    // The tree half of an addition.
    method LinkNode(key: nat, elt: nat)
      requires root == Ref(tree) && Stored(nodes, tree) && Distinct(tree) && Avl(tree) && Sorted(InOrder(tree))
      requires Below(nodes.Keys, next) && !HasKey(InOrder(tree), key)
      modifies this`nodes, this`root, this`tree
      ensures root == Ref(tree) && Stored(nodes, tree) && Distinct(tree) && Avl(tree)
      ensures InOrder(tree) == Add(old(InOrder(tree)), Entry(key, elt)) && Sorted(InOrder(tree))
      ensures nodes.Keys == old(nodes).Keys + {next}
    {
      ghost var before := nodes;
      ghost var leaf := Node(next, Leaf, key, 0, 0, elt, Leaf);
      RefsStored(nodes, tree);
      nodes := nodes[next := Cell(0, 0, key, 0, 0, elt)];
      StoredFrame(before, nodes, tree);
      InsertContents(tree, leaf);
      AddSorted(InOrder(tree), Entry(key, elt));
      root := InsertNode(root, next, tree, leaf);
      tree := Insert(tree, leaf);
    }

    // `ilist_new`
    method NewElement(key: nat) returns (elt: nat)
      requires Chain(elts, list, InOrder(tree)) && Below(elts.Keys, next)
      modifies this`elts
      ensures elt == next && elts == old(elts)[elt := Elt(key, 0, {})]
      ensures Chain(elts, list, InOrder(tree)) && elt !in Data(InOrder(tree))
    {
      ghost var before, c := elts, InOrder(tree);
      ChainElementsAll(elts, list, c);
      elt := next;
      elts := elts[elt := Elt(key, 0, {})];
      ChainFrame(before, elts, list, c);
      NotListed(c, elt);
    }

    // The list half, with its new element.
    method EnterElement(key: nat, found: nat) returns (elt: nat)
      requires Sorted(InOrder(tree)) && Chain(elts, list, InOrder(tree)) && Stored(nodes, tree)
      requires Below(elts.Keys, next) && !HasKey(InOrder(tree), key)
      requires found == Ref(Search(tree, key)) && (found == 0 <==> Search(tree, key).Leaf?)
      modifies this`elts, this`list
      ensures elt == next && Chain(elts, list, Add(InOrder(tree), Entry(key, elt)))
      ensures elts.Keys == old(elts).Keys + {elt} && elts[elt].flags == {}
      ensures forall p :: p in old(elts) ==> SameElt(old(elts)[p], elts[p])
    {
      elt := NewElement(key);
      LinkElement(elt, found);
    }

    // A new element and a new node for an absent key.
    method Enter(key: nat, found: nat) returns (elt: nat)
      requires Inv() && !HasKey(Entries(), key)
      requires found == Ref(Search(tree, key)) && (found == 0 <==> Search(tree, key).Leaf?)
      modifies this
      ensures Inv() && Entries() == Add(old(Entries()), Entry(key, elt))
      ensures elt !in old(elts) && elts.Keys == old(elts).Keys + {elt} && elts[elt].flags == {}
      ensures forall p :: p in old(elts) ==> SameElt(old(elts)[p], elts[p])
    {
      elt := EnterElement(key, found);
      LinkNode(key, elt);
      next := next + 1;
    }

    /** `dh_search_add` */
    method SearchAdd(key: nat) returns (elt: nat)
      requires Inv()
      modifies this
      ensures Inv() && Entry(key, elt) in Entries()
      ensures Entries() == if HasKey(old(Entries()), key) then old(Entries()) else Add(old(Entries()), Entry(key, elt))
      ensures forall p :: p in old(elts) ==> p in elts && SameElt(old(elts)[p], elts[p])
    {
      var found := SearchNode(root, key, tree);
      FoundIff(tree, key);
      if found != 0 && nodes[found].key == key {
        elt := nodes[found].data;
      } else {
        elt := Enter(key, found);
        AddMembers(old(Entries()), Entry(key, elt), Entry(key, elt));
      }
    }

    /** `dh_add` */
    method AddKey(key: nat) returns (elt: nat)
      requires Inv()
      modifies this
      ensures Inv() && Entry(key, elt) in Entries()
      ensures Entries() == if HasKey(old(Entries()), key) then old(Entries()) else Add(old(Entries()), Entry(key, elt))
      ensures forall p :: p in old(elts) ==> p in elts && SameElt(old(elts)[p], elts[p])
    {
      var found := SearchNode(root, key, tree);
      FoundIff(tree, key);
      if found != 0 {
        if nodes[found].key == key {
          return nodes[found].data;
        }
      }
      elt := Enter(key, found);
      AddMembers(old(Entries()), Entry(key, elt), Entry(key, elt));
    }

    /** `dh_search`: the element of the greatest key up to the one asked for. */
    method Find(key: nat) returns (elt: nat)
      requires Inv()
      ensures elt == 0 ==> forall e :: e in Entries() ==> e.key > key
      ensures elt != 0 ==> elt in elts && Floor(Entries(), key, Data(Entries()), Entry(elts[elt].key, elt))
    {
      var found := SearchNode(root, key, tree);
      elt := 0;
      SearchFloor(tree, key, Data(InOrder(tree)));
      if found != 0 {
        elt := nodes[found].data;
        ElementOf(elts, list, InOrder(tree), Entry(Search(tree, key).key, elt));
      }
    }

    // `IT_INSN(tree)->flags & sfilter`
    ghost function Marked(filter: set<Flag>): set<nat>
      reads this
    {
      set p | p in elts && elts[p].flags * filter != {}
    }

    // `itree_search_filtered_l`
    method SearchFiltered(p: nat, key: nat, filter: set<Flag>, ghost t: Tree) returns (elt: nat)
      requires Stored(nodes, t) && p == Ref(t) && (forall e :: e in InOrder(t) ==> e.data in elts && e.data != 0)
      ensures elt == Filtered(t, key, Marked(filter))
      decreases t
    {
      if p == 0 { return 0; }
      assert Entry(t.key, t.data) in InOrder(t);
      if nodes[p].key == key && elts[nodes[p].data].flags * filter != {} {
        return nodes[p].data;
      }
      if nodes[p].key < key {
        elt := SearchFiltered(nodes[p].right, key, filter, t.right);
        if elt != 0 { return elt; }
        if elts[nodes[p].data].flags * filter != {} {
          return nodes[p].data;
        }
      }
      elt := SearchFiltered(nodes[p].left, key, filter, t.left);
    }

    /** The lookups of `dh_addr2line` and `dh_get_loc`: the element of the greatest key up to the one
        asked for among those with a flag of the filter. */
    method FindFiltered(key: nat, filter: set<Flag>) returns (elt: nat)
      requires Inv()
      ensures elt == 0 ==> NoFloor(Entries(), key, Marked(filter))
      ensures elt != 0 ==> elt in elts && Floor(Entries(), key, Marked(filter), Entry(elts[elt].key, elt))
    {
      forall e | e in InOrder(tree) ensures e.data in elts && e.data != 0 {
        ElementOf(elts, list, InOrder(tree), e);
      }
      elt := SearchFiltered(root, key, filter, tree);
      FilteredFloor(tree, key, Marked(filter));
      if elt != 0 {
        ghost var k :| Floor(InOrder(tree), key, Marked(filter), Entry(k, elt));
        ElementOf(elts, list, InOrder(tree), Entry(k, elt));
      }
    }

    // `insn->flags |= flags` on an element's instruction
    method Mark(elt: nat, flags: set<Flag>)
      requires Inv() && elt in elts
      modifies this`elts
      ensures Inv() && elts == old(elts)[elt := old(elts)[elt].(flags := old(elts)[elt].flags + flags)]
    {
      ghost var before := elts;
      elts := elts[elt := elts[elt].(flags := elts[elt].flags + flags)];
      ChainFrame(before, elts, list, InOrder(tree));
    }

    // An addition through `dh_add` or `dh_search_add`
    method AddOne(key: nat, plain: bool)
      requires Inv()
      modifies this
      ensures Inv() && Keys(Entries()) == Keys(old(Entries())) + {key}
    {
      var elt;
      if plain {
        elt := AddKey(key);
      } else {
        elt := SearchAdd(key);
      }
      AddKeys(old(Entries()), Entry(key, elt));
    }

    /** Any sequence of additions. */
    method AddAll(keys: seq<nat>, plain: seq<bool>)
      requires Inv() && |plain| == |keys|
      modifies this
      ensures Inv() && Keys(Entries()) == Keys(old(Entries())) + Members(keys)
    {
      var i := 0;
      while i < |keys|
        invariant 0 <= i <= |keys| && Inv()
        invariant Keys(Entries()) == Keys(old(Entries())) + Members(keys[..i])
      {
        AddOne(keys[i], plain[i]);
        MembersNext(keys, i);
        i := i + 1;
      }
      assert keys[..|keys|] == keys;
    }
  }
}
