/**
 The balanced tree of lib/debughelper/debughelperlib/src/avl_tree.c on values: a tree remembers the
 node each of its places is stored in. Its contents in key order are what the sorted list of
 lib/debughelper/debughelperlib/src/generic_olist.c holds.
 */
module DebugTree {

  const LEFT_UNBAL := -2
  const LEFT_HEAVY := -1
  const RIGHT_HEAVY := 1
  const RIGHT_UNBAL := 2

  // `struct avl_tree`, stored in node `at`
  datatype Tree = Leaf | Node(at: nat, left: Tree, key: nat, depth: int, flags: int, data: nat, right: Tree)

  datatype Entry = Entry(key: nat, data: nat)

  function Max(a: int, b: int): int { if a > b then a else b }

  // The stored depth, or 0 for no node.
  function Depth(t: Tree): int { if t.Leaf? then 0 else t.depth }

  function Height(t: Tree): nat { if t.Leaf? then 0 else 1 + Max(Height(t.left), Height(t.right)) }

  // Depths and flags are the true ones.
  predicate Measured(t: Tree)
  {
    t.Node? ==>
      && Measured(t.left) && Measured(t.right)
      && t.depth == Height(t)
      && t.flags == Height(t.right) - Height(t.left)
  }

  predicate Balanced(t: Tree)
  {
    t.Node? ==> Balanced(t.left) && Balanced(t.right) && -1 <= Height(t.right) - Height(t.left) <= 1
  }

  predicate Avl(t: Tree) { Measured(t) && Balanced(t) }

  function InOrder(t: Tree): seq<Entry>
  {
    if t.Leaf? then [] else InOrder(t.left) + [Entry(t.key, t.data)] + InOrder(t.right)
  }

  function Refs(t: Tree): set<nat>
  {
    if t.Leaf? then {} else Refs(t.left) + {t.at} + Refs(t.right)
  }

  // ---------------------------------------------------------------------------------------------
  // Rotations

  // `avl_right_rotate`
  function RightRotate(t: Tree): Tree
    requires t.Node? && t.left.Node?
  {
    var p := t.left;
    var r1, l2, r2 := Depth(t.right), Depth(p.left), Depth(p.right);
    var n1 := Max(r2, r1) + 1;
    p.(right := t.(left := p.right, depth := n1, flags := r1 - r2), depth := Max(l2, n1) + 1, flags := n1 - l2)
  }

  // `avl_left_rotate`
  function LeftRotate(t: Tree): Tree
    requires t.Node? && t.right.Node?
  {
    var p := t.right;
    var l1, l2, r2 := Depth(t.left), Depth(p.left), Depth(p.right);
    var n1 := Max(l1, l2) + 1;
    p.(left := t.(right := p.left, depth := n1, flags := l2 - l1), depth := Max(n1, r2) + 1, flags := r2 - n1)
  }

  lemma Assoc(a: seq<Entry>, b: seq<Entry>, c: seq<Entry>)
    ensures a + b + c == a + (b + c)
  {
  }

  lemma RightRotated(t: Tree)
    requires t.Node? && t.left.Node? && Measured(t.left) && Measured(t.right)
    ensures InOrder(RightRotate(t)) == InOrder(t) && Refs(RightRotate(t)) == Refs(t)
    ensures Measured(RightRotate(t))
  {
    var l, m, r := InOrder(t.left.left), InOrder(t.left.right), InOrder(t.right);
    var x, y := [Entry(t.left.key, t.left.data)], [Entry(t.key, t.data)];
    Assoc(l + x, m, y);
    Assoc(l + x, m + y, r);
  }

  lemma LeftRotated(t: Tree)
    requires t.Node? && t.right.Node? && Measured(t.left) && Measured(t.right)
    ensures InOrder(LeftRotate(t)) == InOrder(t) && Refs(LeftRotate(t)) == Refs(t)
    ensures Measured(LeftRotate(t))
  {
    var l, m, r := InOrder(t.left), InOrder(t.right.left), InOrder(t.right.right);
    var x, y := [Entry(t.key, t.data)], [Entry(t.right.key, t.right.data)];
    Assoc(l + x, m, y);
    Assoc(l + x, m + y, r);
  }

  // ---------------------------------------------------------------------------------------------
  // Balancing

  // One side is too deep by one level.
  predicate Tilted(t: Tree)
  {
    && t.Node? && Avl(t.left) && Avl(t.right)
    && t.depth == Height(t) && t.flags == Height(t.right) - Height(t.left)
    && -2 <= t.flags <= 2
  }

  // The deeper side of a tree that an insertion tilted leans itself.
  predicate Leans(t: Tree)
  {
    t.Node? &&
    (t.flags == LEFT_UNBAL ==> t.left.Node? && t.left.flags != 0) &&
    (t.flags == RIGHT_UNBAL ==> t.right.Node? && t.right.flags != 0)
  }

  // `avl_balance`
  function Balance(t: Tree): (r: Tree)
    requires Tilted(t)
  {
    if t.flags == LEFT_UNBAL then
      RightRotate(if t.left.flags == RIGHT_HEAVY then t.(left := LeftRotate(t.left)) else t)
    else if t.flags == RIGHT_UNBAL then
      LeftRotate(if t.right.flags == LEFT_HEAVY then t.(right := RightRotate(t.right)) else t)
    else t
  }

  lemma BalanceContents(t: Tree)
    requires Tilted(t)
    ensures InOrder(Balance(t)) == InOrder(t) && Refs(Balance(t)) == Refs(t) && Measured(Balance(t))
  {
    if t.flags == LEFT_UNBAL {
      if t.left.flags == RIGHT_HEAVY {
        LeftRotated(t.left);
        RightRotated(t.(left := LeftRotate(t.left)));
      } else {
        RightRotated(t);
      }
    } else if t.flags == RIGHT_UNBAL {
      if t.right.flags == LEFT_HEAVY {
        RightRotated(t.right);
        LeftRotated(t.(right := RightRotate(t.right)));
      } else {
        LeftRotated(t);
      }
    }
  }

  // A tilted tree loses the level that the tilt added, unless the deeper side is even.
  ghost predicate Levelled(t: Tree, r: Tree)
    requires t.Node?
  {
    && Balanced(r)
    && Height(t) - 1 <= Height(r) <= Height(t)
    && (Leans(t) ==> Height(r) == Height(t) - 1)
  }

  lemma SingleRight(t: Tree)
    requires Tilted(t) && t.flags == LEFT_UNBAL && t.left.flags != RIGHT_HEAVY
    ensures Levelled(t, RightRotate(t))
  {
  }

  lemma SingleLeft(t: Tree)
    requires Tilted(t) && t.flags == RIGHT_UNBAL && t.right.flags != LEFT_HEAVY
    ensures Levelled(t, LeftRotate(t))
  {
  }

  lemma Halves(r: Tree)
    requires r.Node? && Balanced(r.left) && Balanced(r.right) && -1 <= Height(r.right) - Height(r.left) <= 1
    ensures Balanced(r) && Height(r) == 1 + Max(Height(r.left), Height(r.right))
  {
  }

  lemma DoubleRight(t: Tree)
    requires Tilted(t) && t.flags == LEFT_UNBAL && t.left.flags == RIGHT_HEAVY
    ensures Levelled(t, RightRotate(t.(left := LeftRotate(t.left))))
  {
    var p := t.left;
    var m := p.right;
    var h := Height(t.right);
    assert Balanced(p) && Measured(p) && Balanced(m) && Measured(m);
    assert Balanced(m.left) && Balanced(m.right) && Balanced(p.left);
    assert Height(p.left) == h && Height(m) == h + 1 && h - 1 <= Height(m.left) <= h && h - 1 <= Height(m.right) <= h;
    var r := RightRotate(t.(left := LeftRotate(p)));
    assert r.left.left == p.left && r.left.right == m.left && r.right.left == m.right && r.right.right == t.right;
    Halves(r.left);
    Halves(r.right);
    Halves(r);
  }

  lemma DoubleLeft(t: Tree)
    requires Tilted(t) && t.flags == RIGHT_UNBAL && t.right.flags == LEFT_HEAVY
    ensures Levelled(t, LeftRotate(t.(right := RightRotate(t.right))))
  {
    var p := t.right;
    var m := p.left;
    var h := Height(t.left);
    assert Balanced(p) && Measured(p) && Balanced(m) && Measured(m);
    assert Balanced(m.left) && Balanced(m.right) && Balanced(p.right);
    assert Height(p.right) == h && Height(m) == h + 1 && h - 1 <= Height(m.left) <= h && h - 1 <= Height(m.right) <= h;
    var r := LeftRotate(t.(right := RightRotate(p)));
    assert r.left.left == t.left && r.left.right == m.left && r.right.left == m.right && r.right.right == p.right;
    Halves(r.left);
    Halves(r.right);
    Halves(r);
  }

  lemma BalanceLevels(t: Tree)
    requires Tilted(t) && (t.flags == LEFT_UNBAL || t.flags == RIGHT_UNBAL)
    ensures Levelled(t, Balance(t))
  {
    if t.flags == LEFT_UNBAL {
      if t.left.flags == RIGHT_HEAVY {
        DoubleRight(t);
      } else {
        SingleRight(t);
      }
    } else {
      if t.right.flags == LEFT_HEAVY {
        DoubleLeft(t);
      } else {
        SingleLeft(t);
      }
    }
  }

  // ---------------------------------------------------------------------------------------------
  // The sorted list

  predicate Sorted(s: seq<Entry>) { forall i, j :: 0 <= i < j < |s| ==> s[i].key < s[j].key }

  predicate HasKey(s: seq<Entry>, key: nat) { exists i :: 0 <= i < |s| && s[i].key == key }

  // `olist_add`
  function Add(s: seq<Entry>, x: Entry): seq<Entry>
  {
    if |s| == 0 || s[0].key > x.key then [x] + s else [s[0]] + Add(s[1..], x)
  }

  lemma {:induction false} AddSplit(l: seq<Entry>, m: Entry, r: seq<Entry>, x: Entry)
    requires Sorted(l + [m] + r) && x.key != m.key
    ensures x.key < m.key ==> Add(l + [m] + r, x) == Add(l, x) + [m] + r
    ensures x.key > m.key ==> Add(l + [m] + r, x) == l + [m] + Add(r, x)
  {
    var s := l + [m] + r;
    if |l| == 0 {
      assert s == [m] + r && s[1..] == r;
    } else {
      assert s[0] == l[0] && s[1..] == l[1..] + [m] + r;
      assert s[|l|] == m;
      AddSplit(l[1..], m, r, x);
      assert l == [l[0]] + l[1..];
    }
  }

  // Adding after an entry with a smaller key.
  lemma {:induction false} AddAfter(s: seq<Entry>, i: nat, x: Entry)
    requires i < |s| && Sorted(s) && s[i].key < x.key
    ensures Add(s, x) == s[..i] + Add(s[i..], x)
    ensures Add(s[i..], x)[0] == s[i]
  {
    if i > 0 {
      assert s[1..][i - 1] == s[i] && s[1..][i - 1..] == s[i..] && [s[0]] + s[1..][..i - 1] == s[..i];
      AddAfter(s[1..], i - 1, x);
    } else {
      assert s[0..] == s && s[..0] == [];
    }
  }

  lemma {:induction false} AddMembers(s: seq<Entry>, x: Entry, e: Entry)
    ensures e in Add(s, x) <==> e in s || e == x
  {
    if |s| > 0 && s[0].key <= x.key {
      AddMembers(s[1..], x, e);
      assert s == [s[0]] + s[1..];
    }
  }

  ghost function Keys(s: seq<Entry>): set<nat> { set e | e in s :: e.key }

  lemma KeysIff(s: seq<Entry>, k: nat)
    ensures HasKey(s, k) <==> k in Keys(s)
  {
    if HasKey(s, k) {
      var i :| 0 <= i < |s| && s[i].key == k;
      assert s[i] in s;
    }
  }

  lemma AddKeys(s: seq<Entry>, x: Entry)
    ensures Keys(Add(s, x)) == Keys(s) + {x.key}
    ensures HasKey(s, x.key) ==> Keys(s) == Keys(s) + {x.key}
  {
    forall e ensures e in Add(s, x) <==> e in s || e == x { AddMembers(s, x, e); }
    KeysIff(s, x.key);
  }

  lemma {:induction false} AddSorted(s: seq<Entry>, x: Entry)
    requires Sorted(s) && !HasKey(s, x.key)
    ensures Sorted(Add(s, x)) && |Add(s, x)| == |s| + 1
  {
    if |s| > 0 && s[0].key < x.key {
      forall i | 0 <= i < |s[1..]| ensures s[1..][i].key != x.key { assert s[i + 1].key != x.key; }
      AddSorted(s[1..], x);
      var a := Add(s[1..], x);
      forall i | 0 <= i < |a| ensures s[0].key < a[i].key {
        AddMembers(s[1..], x, a[i]);
      }
    }
  }

  /** A strictly sorted list is known by its keys, in whatever order they were added. */
  lemma {:induction false} SortedUnique(s: seq<Entry>, t: seq<Entry>)
    requires Sorted(s) && Sorted(t) && Keys(s) == Keys(t)
    ensures |s| == |t| && forall i :: 0 <= i < |s| ==> s[i].key == t[i].key
  {
    EmptyIff(s);
    EmptyIff(t);
    if |s| > 0 {
      assert s[0].key in Keys(s) && t[0].key in Keys(t);
      Least(s, t[0].key);
      Least(t, s[0].key);
      Tail(s);
      Tail(t);
      SortedUnique(s[1..], t[1..]);
      forall k | 0 < k < |s| ensures s[k].key == t[k].key {
        assert s[1..][k - 1].key == t[1..][k - 1].key;
      }
    }
  }

  lemma EmptyIff(s: seq<Entry>)
    ensures |s| == 0 <==> Keys(s) == {}
  {
    if |s| > 0 {
      assert s[0].key in Keys(s);
    }
  }

  lemma Least(s: seq<Entry>, k: nat)
    requires Sorted(s) && |s| > 0 && k in Keys(s)
    ensures s[0].key <= k
  {
  }

  lemma Tail(s: seq<Entry>)
    requires |s| > 0 && Sorted(s)
    ensures Keys(s[1..]) == Keys(s) - {s[0].key} && Sorted(s[1..])
  {
    forall e | e in s[1..] ensures e in s && e.key != s[0].key {
      var i :| 0 <= i < |s[1..]| && s[1..][i] == e;
      assert s[i + 1] == e;
    }
    forall e | e in s && e.key != s[0].key ensures e in s[1..] {
      var i :| 0 <= i < |s| && s[i] == e;
      assert s[1..][i - 1] == e;
    }
  }

  // ---------------------------------------------------------------------------------------------
  // Insertion

  function Measure(t: Tree): Tree
    requires t.Node?
  {
    t.(depth := Max(Depth(t.left), Depth(t.right)) + 1, flags := Depth(t.right) - Depth(t.left))
  }

  // A node whose subtrees are in order, one of them perhaps grown by a level.
  predicate Grown(t: Tree)
  {
    t.Node? && Avl(t.left) && Avl(t.right) && -2 <= Height(t.right) - Height(t.left) <= 2
  }

  // The end of `avl_insert`
  function Settle(t: Tree): Tree
    requires Grown(t)
  {
    var u := Measure(t);
    if u.flags == LEFT_UNBAL || u.flags == RIGHT_UNBAL then Balance(u) else u
  }

  lemma SettleKeeps(t: Tree)
    requires Grown(t)
    ensures Avl(Settle(t)) && InOrder(Settle(t)) == InOrder(t) && Refs(Settle(t)) == Refs(t)
    ensures Height(t) - 1 <= Height(Settle(t)) <= Height(t)
    ensures -1 <= Height(t.right) - Height(t.left) <= 1 ==> Settle(t) == Measure(t) && Height(Settle(t)) == Height(t)
    ensures Leans(Measure(t)) && !(-1 <= Height(t.right) - Height(t.left) <= 1) ==> Height(Settle(t)) == Height(t) - 1
  {
    var u := Measure(t);
    assert Height(u) == Height(t);
    if u.flags == LEFT_UNBAL || u.flags == RIGHT_UNBAL {
      BalanceContents(u);
      BalanceLevels(u);
    }
  }

  predicate Single(n: Tree) { n.Node? && n.left.Leaf? && n.right.Leaf? && n.flags == 0 }

  // A tree that grew by a level leans, unless it was empty.
  predicate Grew(t: Tree, r: Tree)
  {
    && Avl(r) && r.Node? && Height(t) <= Height(r) <= Height(t) + 1
    && (t.Node? && Height(r) > Height(t) ==> r.flags != 0)
  }

  lemma GrewLeft(t: Tree, l: Tree)
    requires Avl(t) && t.Node? && Grew(t.left, l)
    ensures Grown(t.(left := l)) && Grew(t, Settle(t.(left := l)))
  {
    SettleKeeps(t.(left := l));
  }

  lemma GrewRight(t: Tree, r: Tree)
    requires Avl(t) && t.Node? && Grew(t.right, r)
    ensures Grown(t.(right := r)) && Grew(t, Settle(t.(right := r)))
  {
    SettleKeeps(t.(right := r));
  }

  // `avl_insert`
  function Insert(t: Tree, n: Tree): (r: Tree)
    requires Avl(t) && Single(n)
    ensures Grew(t, r)
  {
    if t.Leaf? then n.(depth := 1)
    else if t.key > n.key then
      var l := Insert(t.left, n);
      GrewLeft(t, l);
      Settle(t.(left := l))
    else if t.key < n.key then
      var r := Insert(t.right, n);
      GrewRight(t, r);
      Settle(t.(right := r))
    else t
  }

  lemma SortedCut(l: seq<Entry>, m: Entry, r: seq<Entry>)
    requires Sorted(l + [m] + r)
    ensures Sorted(l) && Sorted(r)
    ensures forall i :: 0 <= i < |l| ==> l[i].key < m.key
    ensures forall i :: 0 <= i < |r| ==> m.key < r[i].key
  {
    var s := l + [m] + r;
    assert s[|l|] == m;
    forall i | 0 <= i < |l| ensures s[i] == l[i] {}
    forall i | 0 <= i < |r| ensures s[|l| + 1 + i] == r[i] {}
  }

  lemma SortedParts(t: Tree)
    requires t.Node? && Sorted(InOrder(t))
    ensures Sorted(InOrder(t.left)) && Sorted(InOrder(t.right))
    ensures forall i :: 0 <= i < |InOrder(t.left)| ==> InOrder(t.left)[i].key < t.key
    ensures forall i :: 0 <= i < |InOrder(t.right)| ==> t.key < InOrder(t.right)[i].key
  {
    SortedCut(InOrder(t.left), Entry(t.key, t.data), InOrder(t.right));
  }

  lemma KeyParts(t: Tree, key: nat)
    requires t.Node? && Sorted(InOrder(t))
    ensures HasKey(InOrder(t), key)
       <==>
         key == t.key || (key < t.key && HasKey(InOrder(t.left), key))
         || (key > t.key && HasKey(InOrder(t.right), key))
  {
    SortedParts(t);
    var l, r, s := InOrder(t.left), InOrder(t.right), InOrder(t);
    assert s[|l|] == Entry(t.key, t.data);
    if HasKey(l, key) {
      var i :| 0 <= i < |l| && l[i].key == key;
      assert s[i] == l[i];
    }
    if HasKey(r, key) {
      var i :| 0 <= i < |r| && r[i].key == key;
      assert s[|l| + 1 + i] == r[i];
    }
    if HasKey(s, key) {
      var i :| 0 <= i < |s| && s[i].key == key;
      assert i < |l| ==> s[i] == l[i];
      assert i > |l| ==> s[i] == r[i - |l| - 1];
    }
  }

  /** The tree holds in key order what the sorted list holds. */
  lemma {:induction false} InsertContents(t: Tree, n: Tree)
    requires Avl(t) && Single(n) && Sorted(InOrder(t)) && !HasKey(InOrder(t), n.key)
    ensures InOrder(Insert(t, n)) == Add(InOrder(t), Entry(n.key, n.data))
    ensures Refs(Insert(t, n)) == Refs(t) + {n.at}
  {
    if t.Node? {
      SortedParts(t);
      KeyParts(t, n.key);
      AddSplit(InOrder(t.left), Entry(t.key, t.data), InOrder(t.right), Entry(n.key, n.data));
      if t.key > n.key {
        InsertContents(t.left, n);
        SettleKeeps(t.(left := Insert(t.left, n)));
      } else {
        InsertContents(t.right, n);
        SettleKeeps(t.(right := Insert(t.right, n)));
      }
    }
  }

  /** A key that is there already changes nothing. */
  lemma {:induction false} InsertPresent(t: Tree, n: Tree)
    requires Avl(t) && Single(n) && Sorted(InOrder(t)) && HasKey(InOrder(t), n.key)
    ensures Insert(t, n) == t
  {
    SortedParts(t);
    KeyParts(t, n.key);
    if t.key > n.key {
      InsertPresent(t.left, n);
      assert t.(left := t.left) == t;
      SettleKeeps(t);
    } else if t.key < n.key {
      InsertPresent(t.right, n);
      assert t.(right := t.right) == t;
      SettleKeeps(t);
    }
  }

  // The cells of a tree after an insertion.
  lemma InsertRefs(t: Tree, n: Tree)
    requires Avl(t) && Single(n) && Sorted(InOrder(t))
    ensures Refs(Insert(t, n)) == Refs(t) + if HasKey(InOrder(t), n.key) then {} else {n.at}
  {
    if HasKey(InOrder(t), n.key) {
      InsertPresent(t, n);
    } else {
      InsertContents(t, n);
    }
  }

  // ---------------------------------------------------------------------------------------------
  // Searches

  // `avl_search`
  function Search(t: Tree, key: nat): Tree
  {
    if t.Leaf? then Leaf
    else if t.key > key then Search(t.left, key)
    else if t.key < key then
      var r := Search(t.right, key);
      if r.Leaf? then t else r
    else t
  }

  // `x` has the greatest key up to `key` among the marked entries.
  ghost predicate Floor(s: seq<Entry>, key: nat, marked: set<nat>, x: Entry)
  {
    && x in s && x.key <= key && x.data in marked
    && forall e :: e in s && e.key <= key && e.data in marked ==> e.key <= x.key
  }

  ghost predicate NoFloor(s: seq<Entry>, key: nat, marked: set<nat>)
  {
    forall e :: e in s && e.data in marked ==> e.key > key
  }

  predicate AllMarked(s: seq<Entry>, marked: set<nat>) { forall e :: e in s ==> e.data in marked }

  lemma Parts(t: Tree, e: Entry)
    requires t.Node? && Sorted(InOrder(t))
    ensures e in InOrder(t) <==> e in InOrder(t.left) || e == Entry(t.key, t.data) || e in InOrder(t.right)
    ensures e in InOrder(t.left) ==> e.key < t.key
    ensures e in InOrder(t.right) ==> e.key > t.key
  {
    SortedParts(t);
  }

  lemma PartsOf(t: Tree)
    requires t.Node? && Sorted(InOrder(t))
    ensures forall e :: e in InOrder(t) <==> e in InOrder(t.left) || e == Entry(t.key, t.data) || e in InOrder(t.right)
    ensures forall e :: e in InOrder(t.left) ==> e.key < t.key
    ensures forall e :: e in InOrder(t.right) ==> e.key > t.key
  {
    forall e: Entry
      ensures e in InOrder(t) <==> e in InOrder(t.left) || e == Entry(t.key, t.data) || e in InOrder(t.right)
      ensures e in InOrder(t.left) ==> e.key < t.key
      ensures e in InOrder(t.right) ==> e.key > t.key
    {
      Parts(t, e);
    }
  }

  /** The search finds the greatest key up to the one asked for. */
  lemma {:induction false} SearchFloor(t: Tree, key: nat, all: set<nat>)
    requires Sorted(InOrder(t)) && AllMarked(InOrder(t), all)
    ensures var r := Search(t, key);
            if r.Leaf? then NoFloor(InOrder(t), key, all) else Floor(InOrder(t), key, all, Entry(r.key, r.data))
  {
    if t.Node? {
      SortedParts(t);
      PartsOf(t);
      SearchFloor(t.left, key, all);
      SearchFloor(t.right, key, all);
    }
  }

  // `itree_search_filtered_l`; `marked` holds the elements whose flags meet the filter, and 0 is no element.
  function Filtered(t: Tree, key: nat, marked: set<nat>): nat
  {
    if t.Leaf? then 0
    else if t.key == key && t.data in marked then t.data
    else if t.key < key then
      var r := Filtered(t.right, key, marked);
      if r != 0 then r else if t.data in marked then t.data else Filtered(t.left, key, marked)
    else Filtered(t.left, key, marked)
  }

  /** The filtered search finds the greatest marked key up to the one asked for. */
  lemma {:induction false} FilteredFloor(t: Tree, key: nat, marked: set<nat>)
    requires Sorted(InOrder(t)) && 0 !in marked
    ensures var r := Filtered(t, key, marked);
            if r == 0 then NoFloor(InOrder(t), key, marked)
            else exists k :: Floor(InOrder(t), key, marked, Entry(k, r))
  {
    if t.Node? {
      SortedParts(t);
      PartsOf(t);
      FilteredFloor(t.left, key, marked);
      FilteredFloor(t.right, key, marked);
      var r := Filtered(t, key, marked);
      if t.key <= key && r == t.data && t.data in marked && (t.key == key || Filtered(t.right, key, marked) == 0) {
        assert Floor(InOrder(t), key, marked, Entry(t.key, r));
      } else if t.key < key && Filtered(t.right, key, marked) != 0 {
        var k :| Floor(InOrder(t.right), key, marked, Entry(k, r));
        assert Floor(InOrder(t), key, marked, Entry(k, r));
      } else if r != 0 {
        var k :| Floor(InOrder(t.left), key, marked, Entry(k, r));
        assert Floor(InOrder(t), key, marked, Entry(k, r));
      }
    }
  }
}
