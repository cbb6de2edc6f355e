/**
 The reorder buffer of lib/decopus/trace/source/hwetrace_read.c: events are read in file order,
 reference ids are replaced by pointers as soon as the referenced event is known, and an event is
 passed on when it is at the head of the fifo and all its references are known.  An index node
 lives until its event is passed on and all the expected references to it were found.

 An event is denoted by its position in the file, and so is a pointer to it.  A node is denoted
 by its id, and freeing a node takes its id out of the index.
 */
module TraceReader {
  import opened Common

  // component and index
  datatype Id = Id(dev: nat, index: nat)

  datatype Event = Event(id: Id, refs: seq<Id>, expected: nat)

  // ref_t: the reference `pos` of event `ev` waits
  datatype Wait = Wait(ev: nat, pos: nat)

  // rhwe_t
  datatype Node = Node(hwe: Option<nat>, next: Option<Id>, waiting: seq<Wait>, state: nat, missRef: int, missExp: int)

  // An event passed to `handle_event`, with the reference pointers it has then.
  datatype Handled = Handled(ev: nat, refs: seq<Option<nat>>)

  datatype State = State(nodes: map<Id, Node>, refs: seq<seq<Option<nat>>>, log: seq<Handled>, busy: bool)

  // ---------------------------------------------------------------------------------------------
  // The file

  ghost predicate Distinct(file: seq<Event>)
  {
    forall i, j :: 0 <= i < j < |file| ==> file[i].id != file[j].id
  }

  // The number of references to `id` among the first `k` of `q`.
  ghost function CountIn(q: seq<Id>, k: nat, id: Id): nat
    requires k <= |q|
  {
    if k == 0 then 0 else CountIn(q, k - 1, id) + (if q[k - 1] == id then 1 else 0)
  }

  // The number of references to `id` in the first `n` events.
  ghost function RefTimes(file: seq<Event>, n: nat, id: Id): nat
    requires n <= |file|
  {
    if n == 0 then 0 else RefTimes(file, n - 1, id) + CountIn(file[n - 1].refs, |file[n - 1].refs|, id)
  }

  ghost predicate Unread(file: seq<Event>, n: nat, id: Id)
    requires n <= |file|
  {
    forall i :: 0 <= i < n ==> file[i].id != id
  }

  // ---------------------------------------------------------------------------------------------
  // The invariant

  ghost function CountNone(r: seq<Option<nat>>): nat
  {
    if r == [] then 0 else CountNone(r[..|r|-1]) + (if r[|r|-1] == None then 1 else 0)
  }

  // `refs` follows the file; the event read last may be in the middle of its references.
  ghost predicate Table(file: seq<Event>, s: State)
  {
    var n := |s.refs|;
    && n <= |file| && |s.log| <= n && (s.busy ==> |s.log| < n)
    && (forall j :: 0 <= j < n ==> |s.refs[j]| <= |file[j].refs|)
    && (forall j :: 0 <= j < n && (j < n - 1 || !s.busy) ==> |s.refs[j]| == |file[j].refs|)
  }

  // The number of references to `id` looked up so far.
  ghost function Looked(file: seq<Event>, s: State, id: Id): nat
    requires Table(file, s)
  {
    var n := |s.refs|;
    if s.busy then RefTimes(file, n - 1, id) + CountIn(file[n - 1].refs, |s.refs[n - 1]|, id) else RefTimes(file, n, id)
  }

  // A pointer points to the event with the id in the file; a missing pointer is waited for.
  ghost predicate RefOk(file: seq<Event>, s: State, j: nat, p: nat)
    requires Table(file, s) && j < |s.refs| && p < |s.refs[j]|
  {
    match s.refs[j][p]
    case Some(i) => i < |s.refs| && file[i].id == file[j].refs[p]
    case None => file[j].refs[p] in s.nodes && Wait(j, p) in s.nodes[file[j].refs[p]].waiting
  }

  ghost predicate Refs(file: seq<Event>, s: State)
    requires Table(file, s)
  {
    forall j, p :: 0 <= j < |s.refs| && 0 <= p < |s.refs[j]| ==> RefOk(file, s, j, p)
  }

  ghost predicate WaitOk(file: seq<Event>, s: State, id: Id, w: Wait)
    requires Table(file, s)
  {
    |s.log| <= w.ev < |s.refs| && w.pos < |s.refs[w.ev]| && s.refs[w.ev][w.pos] == None && file[w.ev].refs[w.pos] == id
  }

  ghost predicate NoDup(q: seq<Wait>) { forall i, j :: 0 <= i < j < |q| ==> q[i] != q[j] }

  ghost predicate Waits(file: seq<Event>, s: State, id: Id)
    requires Table(file, s) && id in s.nodes
  {
    var q := s.nodes[id].waiting;
    NoDup(q) && forall k :: 0 <= k < |q| ==> WaitOk(file, s, id, q[k])
  }

  // The node of an event that was read, and the node of one that is only referenced so far.
  ghost predicate NodeOk(file: seq<Event>, s: State, id: Id)
    requires Table(file, s)
  {
    var n := |s.refs|;
    if id !in s.nodes then
      Unread(file, n, id) ==> Looked(file, s, id) == 0
    else
      var d := s.nodes[id];
      && Waits(file, s, id)
      && match d.hwe
         case Some(i) =>
           && i < n && file[i].id == id
           && d.missExp == file[i].expected - (Looked(file, s, id) - |d.waiting|)
           && (d.waiting == [] || (s.busy && i == n - 1))
           && (forall k :: 0 <= k < |d.waiting| ==> d.waiting[k].ev < n - 1)
         case None =>
           && d.missRef == 0 && d.missExp == 0 && d.state == 0 && d.next == None && d.waiting != []
           && (Unread(file, n, id) ==> |d.waiting| == Looked(file, s, id))
  }

  ghost predicate Nodes(file: seq<Event>, s: State)
    requires Table(file, s)
  {
    forall id :: NodeOk(file, s, id)
  }

  // An event in the fifo.
  ghost predicate LiveOk(file: seq<Event>, s: State, i: nat)
    requires Table(file, s) && i < |s.refs|
  {
    var n := |s.refs|;
    && file[i].id in s.nodes
    && var d := s.nodes[file[i].id];
       && d.hwe == Some(i) && d.state == (if s.busy && i == n - 1 then 0 else 1)
       && d.missRef == CountNone(s.refs[i])
       && d.next == (if i + 1 < n then Some(file[i + 1].id) else None)
  }

  // An event passed on: its node waits for more references, or is gone, or was made again by a reference too many.
  ghost predicate PassedOk(file: seq<Event>, s: State, i: nat)
    requires Table(file, s) && i < |s.refs|
  {
    var id := file[i].id;
    if id !in s.nodes then Looked(file, s, id) == file[i].expected
    else if s.nodes[id].hwe == None then Looked(file, s, id) > file[i].expected
    else s.nodes[id].hwe == Some(i) && s.nodes[id].state == 2 && s.nodes[id].missExp != 0
  }

  ghost predicate Events(file: seq<Event>, s: State)
    requires Table(file, s)
  {
    && (forall i :: |s.log| <= i < |s.refs| ==> LiveOk(file, s, i))
    && (forall i :: 0 <= i < |s.log| ==> PassedOk(file, s, i))
  }

  /** What was passed on is the beginning of the file, with all its pointers. */
  ghost predicate Logged(file: seq<Event>, s: State)
    requires Table(file, s)
  {
    forall k :: 0 <= k < |s.log| ==> s.log[k] == Handled(k, s.refs[k]) && CountNone(s.refs[k]) == 0
  }

  ghost predicate Inv(file: seq<Event>, s: State)
  {
    Distinct(file) && Table(file, s) && Refs(file, s) && Nodes(file, s) && Events(file, s) && Logged(file, s)
  }

  // ---------------------------------------------------------------------------------------------
  // Reading an event

  const NEW_NODE := Node(None, None, [], 0, 0, 0)

  ghost function NodeAt(nodes: map<Id, Node>, id: Id): Node { if id in nodes then nodes[id] else NEW_NODE }

  // `insert_event`: the node of the event is found or made, and linked behind the last of the fifo.
  ghost predicate Inserted(file: seq<Event>, s: State, t: State)
    requires Table(file, s) && |s.refs| < |file|
  {
    var n := |s.refs|;
    && t == s.(nodes := t.nodes, refs := s.refs + [[]], busy := true)
    && (forall id :: id in t.nodes <==> id in s.nodes || id == file[n].id)
    && t.nodes[file[n].id] == NodeAt(s.nodes, file[n].id).(
         hwe := Some(n), missExp := NodeAt(s.nodes, file[n].id).missExp + file[n].expected)
    && (forall id :: id in s.nodes && id != file[n].id ==>
          t.nodes[id] == s.nodes[id].(
            next := if |s.log| < n && id == file[n - 1].id then Some(file[n].id) else s.nodes[id].next))
  }

  lemma InsertedFresh(file: seq<Event>, s: State)
    requires Inv(file, s) && !s.busy && |s.refs| < |file|
    ensures Unread(file, |s.refs|, file[|s.refs|].id)
    ensures file[|s.refs|].id in s.nodes ==> s.nodes[file[|s.refs|].id].hwe == None
  {
    assert NodeOk(file, s, file[|s.refs|].id);
  }

  lemma InsertedTable(file: seq<Event>, s: State, t: State)
    requires Inv(file, s) && !s.busy && |s.refs| < |file| && Inserted(file, s, t)
    ensures Table(file, t) && Logged(file, t)
  {
  }

  lemma InsertedRefs(file: seq<Event>, s: State, t: State)
    requires Inv(file, s) && !s.busy && |s.refs| < |file| && Inserted(file, s, t) && Table(file, t)
    ensures Refs(file, t)
  {
    InsertedFresh(file, s);
    forall j, p | 0 <= j < |t.refs| && 0 <= p < |t.refs[j]| ensures RefOk(file, t, j, p) {
      assert RefOk(file, s, j, p);
    }
  }

  lemma InsertedWaits(file: seq<Event>, s: State, t: State, id: Id)
    requires Inv(file, s) && !s.busy && |s.refs| < |file| && Inserted(file, s, t) && Table(file, t)
    requires id in s.nodes
    ensures id in t.nodes && Waits(file, t, id)
  {
    assert NodeOk(file, s, id);
    var q := s.nodes[id].waiting;
    forall k | 0 <= k < |q| ensures WaitOk(file, t, id, q[k]) { assert WaitOk(file, s, id, q[k]); }
  }

  lemma InsertedNode(file: seq<Event>, s: State, t: State, id: Id)
    requires Inv(file, s) && !s.busy && |s.refs| < |file| && Inserted(file, s, t) && Table(file, t)
    ensures NodeOk(file, t, id)
  {
    var n := |s.refs|;
    assert NodeOk(file, s, id);
    if id in s.nodes { InsertedWaits(file, s, t, id); }
    if id == file[n].id {
      InsertedFresh(file, s);
    } else {
      assert Unread(file, n + 1, id) <==> Unread(file, n, id);
      if n > |s.log| && id == file[n - 1].id { assert LiveOk(file, s, n - 1); }
    }
  }

  lemma InsertedLive(file: seq<Event>, s: State, t: State, i: nat)
    requires Inv(file, s) && !s.busy && |s.refs| < |file| && Inserted(file, s, t) && Table(file, t)
    requires |s.log| <= i < |t.refs|
    ensures LiveOk(file, t, i)
  {
    InsertedFresh(file, s);
    var n := |s.refs|;
    assert NodeOk(file, s, file[n].id);
    if i < n {
      assert LiveOk(file, s, i);
      assert file[i].id != file[n].id;
      assert i < n - 1 ==> file[i].id != file[n - 1].id;
    }
  }

  lemma InsertedPassed(file: seq<Event>, s: State, t: State, i: nat)
    requires Inv(file, s) && !s.busy && |s.refs| < |file| && Inserted(file, s, t) && Table(file, t)
    requires i < |s.log|
    ensures PassedOk(file, t, i)
  {
    assert PassedOk(file, s, i);
  }

  lemma InsertedKeepsInv(file: seq<Event>, s: State, t: State)
    requires Inv(file, s) && !s.busy && |s.refs| < |file| && Inserted(file, s, t)
    ensures Inv(file, t)
  {
    InsertedTable(file, s, t);
    InsertedRefs(file, s, t);
    forall id ensures NodeOk(file, t, id) { InsertedNode(file, s, t, id); }
    forall i | |t.log| <= i < |t.refs| ensures LiveOk(file, t, i) { InsertedLive(file, s, t, i); }
    forall i | 0 <= i < |t.log| ensures PassedOk(file, t, i) { InsertedPassed(file, s, t, i); }
  }

  // ---------------------------------------------------------------------------------------------
  // One reference of the event being read

  // The event being read has a reference left, to `id`.
  ghost predicate AtRef(file: seq<Event>, s: State, id: Id)
  {
    && Inv(file, s) && s.busy
    && var n := |s.refs|;
       |s.refs[n - 1]| < |file[n - 1].refs| && id == file[n - 1].refs[|s.refs[n - 1]|]
  }

  // The next reference of the event being read becomes `v`.
  ghost predicate RefSet(s: State, t: State, v: Option<nat>)
    requires s.refs != []
  {
    var n := |s.refs|;
    && t == s.(nodes := t.nodes, refs := t.refs)
    && |t.refs| == n && t.refs[n - 1] == s.refs[n - 1] + [v]
    && forall j :: 0 <= j < n - 1 ==> t.refs[j] == s.refs[j]
  }

  lemma RefSetTable(file: seq<Event>, s: State, t: State, id: Id, v: Option<nat>)
    requires AtRef(file, s, id) && RefSet(s, t, v)
    ensures Table(file, t) && Logged(file, t)
    ensures forall x :: Looked(file, t, x) == Looked(file, s, x) + if x == id then 1 else 0
    ensures CountNone(t.refs[|s.refs| - 1]) == CountNone(s.refs[|s.refs| - 1]) + if v == None then 1 else 0
  {
    var n := |s.refs|;
    assert t.refs[n - 1][..|s.refs[n - 1]|] == s.refs[n - 1];
  }

  // `try_solve_our_ref` when the referenced event was read, with the `try_delete` of its node.
  ghost predicate Found(file: seq<Event>, s: State, t: State, id: Id)
    requires s.refs != []
  {
    && id in s.nodes && s.nodes[id].hwe.Some? && RefSet(s, t, s.nodes[id].hwe)
    && var d := s.nodes[id].(missExp := s.nodes[id].missExp - 1);
       && (forall x :: x in t.nodes <==> x in s.nodes && (x != id || d.state != 2 || d.missExp != 0))
       && (forall x :: x in t.nodes ==> t.nodes[x] == if x == id then d else s.nodes[x])
  }

  lemma FoundRefs(file: seq<Event>, s: State, t: State, id: Id)
    requires AtRef(file, s, id) && Found(file, s, t, id) && Table(file, t)
    ensures Refs(file, t)
  {
    forall j, p | 0 <= j < |t.refs| && 0 <= p < |t.refs[j]| ensures RefOk(file, t, j, p) {
      FoundRef(file, s, t, id, j, p);
    }
  }

  lemma FoundRef(file: seq<Event>, s: State, t: State, id: Id, j: nat, p: nat)
    requires AtRef(file, s, id) && Found(file, s, t, id) && Table(file, t) && j < |t.refs| && p < |t.refs[j]|
    ensures RefOk(file, t, j, p)
  {
    FoundState(file, s, id);
    var x := file[j].refs[p];
    if j < |s.refs| - 1 || p < |s.refs[j]| {
      assert RefOk(file, s, j, p);
      assert t.refs[j][p] == s.refs[j][p];
      if s.refs[j][p] == None {
        assert x in t.nodes;
        assert t.nodes[x].waiting == s.nodes[x].waiting;
      }
    } else {
      assert j == |s.refs| - 1 && p == |s.refs[j]| && x == id;
    }
  }

  // Which event a node with an event stands for.
  lemma FoundState(file: seq<Event>, s: State, id: Id)
    requires Inv(file, s) && id in s.nodes && s.nodes[id].hwe.Some?
    ensures var i := s.nodes[id].hwe.value;
      && i < |s.refs| && file[i].id == id && (i < |s.log| <==> s.nodes[id].state == 2)
      && (i >= |s.log| ==> s.nodes[id].state == if s.busy && i == |s.refs| - 1 then 0 else 1)
    ensures s.nodes[id].state >= 1 ==> s.nodes[id].waiting == []
  {
    assert NodeOk(file, s, id);
    var i := s.nodes[id].hwe.value;
    if i < |s.log| { assert PassedOk(file, s, i); } else { assert LiveOk(file, s, i); }
  }

  lemma RefSetWaits(file: seq<Event>, s: State, t: State, id: Id, v: Option<nat>, x: Id)
    requires AtRef(file, s, id) && RefSet(s, t, v) && Table(file, t)
    requires x in s.nodes && x in t.nodes && t.nodes[x].waiting == s.nodes[x].waiting
    ensures Waits(file, t, x)
  {
    assert NodeOk(file, s, x);
    var q := s.nodes[x].waiting;
    forall k | 0 <= k < |q| ensures WaitOk(file, t, x, q[k]) { assert WaitOk(file, s, x, q[k]); }
  }

  lemma FoundNode(file: seq<Event>, s: State, t: State, id: Id, x: Id)
    requires AtRef(file, s, id) && Found(file, s, t, id) && Table(file, t)
    ensures NodeOk(file, t, x)
  {
    RefSetTable(file, s, t, id, s.nodes[id].hwe);
    assert NodeOk(file, s, x);
    FoundState(file, s, id);
    if x in t.nodes { RefSetWaits(file, s, t, id, s.nodes[id].hwe, x); }
  }

  lemma FoundLive(file: seq<Event>, s: State, t: State, id: Id, i: nat)
    requires AtRef(file, s, id) && Found(file, s, t, id) && Table(file, t) && |s.log| <= i < |t.refs|
    ensures LiveOk(file, t, i)
  {
    RefSetTable(file, s, t, id, s.nodes[id].hwe);
    FoundState(file, s, id);
    assert LiveOk(file, s, i);
  }

  lemma FoundPassed(file: seq<Event>, s: State, t: State, id: Id, i: nat)
    requires AtRef(file, s, id) && Found(file, s, t, id) && Table(file, t) && i < |s.log|
    ensures PassedOk(file, t, i)
  {
    RefSetTable(file, s, t, id, s.nodes[id].hwe);
    FoundState(file, s, id);
    assert NodeOk(file, s, id);
    assert PassedOk(file, s, i);
  }

  lemma FoundKeepsInv(file: seq<Event>, s: State, t: State, id: Id)
    requires AtRef(file, s, id) && Found(file, s, t, id)
    ensures Inv(file, t)
  {
    RefSetTable(file, s, t, id, s.nodes[id].hwe);
    FoundRefs(file, s, t, id);
    forall x ensures NodeOk(file, t, x) { FoundNode(file, s, t, id, x); }
    forall i | |t.log| <= i < |t.refs| ensures LiveOk(file, t, i) { FoundLive(file, s, t, id, i); }
    forall i | 0 <= i < |t.log| ensures PassedOk(file, t, i) { FoundPassed(file, s, t, id, i); }
  }

  // `try_solve_our_ref` when the referenced event is not known: its node, found or made, lists the reference.
  ghost predicate Listed(file: seq<Event>, s: State, t: State, id: Id)
    requires s.refs != [] && |s.refs| <= |file|
  {
    var n := |s.refs|;
    var me := file[n - 1].id;
    && NodeAt(s.nodes, id).hwe == None && RefSet(s, t, None) && me in s.nodes
    && (forall x :: x in t.nodes <==> x in s.nodes || x == id)
    && t.nodes[id] == NodeAt(s.nodes, id).(waiting := [Wait(n - 1, |s.refs[n - 1]|)] + NodeAt(s.nodes, id).waiting)
    && (forall x :: x in s.nodes && x != id ==>
          t.nodes[x] == s.nodes[x].(missRef := s.nodes[x].missRef + if x == me then 1 else 0))
  }

  lemma ListedRefs(file: seq<Event>, s: State, t: State, id: Id)
    requires AtRef(file, s, id) && Listed(file, s, t, id) && Table(file, t)
    ensures Refs(file, t)
  {
    var n := |s.refs|;
    var q := NodeAt(s.nodes, id).waiting;
    forall j, p | 0 <= j < |t.refs| && 0 <= p < |t.refs[j]| ensures RefOk(file, t, j, p) {
      if j < n - 1 || p < |s.refs[j]| {
        assert RefOk(file, s, j, p);
      } else {
        assert t.nodes[id].waiting[0] == Wait(j, p);
      }
    }
  }

  lemma NoDupCons(w: Wait, q: seq<Wait>)
    requires NoDup(q) && w !in q
    ensures NoDup([w] + q)
  {
  }

  lemma ListedWaits(file: seq<Event>, s: State, t: State, id: Id)
    requires AtRef(file, s, id) && Listed(file, s, t, id) && Table(file, t)
    ensures Waits(file, t, id)
  {
    assert NodeOk(file, s, id);
    var w := Wait(|s.refs| - 1, |s.refs[|s.refs| - 1]|);
    var rest := NodeAt(s.nodes, id).waiting;
    var q := t.nodes[id].waiting;
    forall k | 0 <= k < |rest| ensures WaitOk(file, t, id, rest[k]) && rest[k] != w {
      assert WaitOk(file, s, id, rest[k]);
    }
    NoDupCons(w, rest);
    forall k | 0 <= k < |q| ensures WaitOk(file, t, id, q[k]) {
      if k > 0 { assert q[k] == rest[k - 1]; }
    }
  }

  lemma ListedNode(file: seq<Event>, s: State, t: State, id: Id, x: Id)
    requires AtRef(file, s, id) && Listed(file, s, t, id) && Table(file, t)
    ensures NodeOk(file, t, x)
  {
    RefSetTable(file, s, t, id, None);
    assert NodeOk(file, s, x);
    var n := |s.refs|;
    assert LiveOk(file, s, n - 1);
    if x == id {
      ListedWaits(file, s, t, id);
    } else if x in t.nodes {
      RefSetWaits(file, s, t, id, None, x);
    }
  }

  lemma ListedLive(file: seq<Event>, s: State, t: State, id: Id, i: nat)
    requires AtRef(file, s, id) && Listed(file, s, t, id) && Table(file, t) && |s.log| <= i < |t.refs|
    ensures LiveOk(file, t, i)
  {
    RefSetTable(file, s, t, id, None);
    assert LiveOk(file, s, i);
    assert i < |s.refs| - 1 ==> file[i].id != file[|s.refs| - 1].id;
  }

  lemma ListedPassed(file: seq<Event>, s: State, t: State, id: Id, i: nat)
    requires AtRef(file, s, id) && Listed(file, s, t, id) && Table(file, t) && i < |s.log|
    ensures PassedOk(file, t, i)
  {
    RefSetTable(file, s, t, id, None);
    assert PassedOk(file, s, i);
  }

  lemma ListedKeepsInv(file: seq<Event>, s: State, t: State, id: Id)
    requires AtRef(file, s, id) && Listed(file, s, t, id)
    ensures Inv(file, t)
  {
    RefSetTable(file, s, t, id, None);
    ListedRefs(file, s, t, id);
    forall x ensures NodeOk(file, t, x) { ListedNode(file, s, t, id, x); }
    forall i | |t.log| <= i < |t.refs| ensures LiveOk(file, t, i) { ListedLive(file, s, t, id, i); }
    forall i | 0 <= i < |t.log| ensures PassedOk(file, t, i) { ListedPassed(file, s, t, id, i); }
  }

  // ---------------------------------------------------------------------------------------------
  // One pending reference to the event being read

  ghost predicate AtWait(file: seq<Event>, s: State, w: Wait)
  {
    && Inv(file, s) && s.busy
    && var me := file[|s.refs| - 1].id;
       me in s.nodes && s.nodes[me].waiting != [] && s.nodes[me].waiting[0] == w
  }

  // `solve_pending_ref`, up to the attempt to pass the waiting event on.
  ghost predicate Solved(file: seq<Event>, s: State, t: State, w: Wait)
    requires 0 < |s.refs| <= |file|
  {
    var n := |s.refs|;
    var me := file[n - 1].id;
    && w.ev < n - 1 && w.pos < |s.refs[w.ev]| && me in s.nodes && s.nodes[me].waiting != [] && file[w.ev].id in s.nodes
    && t == s.(nodes := t.nodes, refs := t.refs)
    && |t.refs| == n && t.refs[w.ev] == s.refs[w.ev][w.pos := Some(n - 1)]
    && (forall j :: 0 <= j < n && j != w.ev ==> t.refs[j] == s.refs[j])
    && (forall x :: x in t.nodes <==> x in s.nodes)
    && t.nodes[me] == s.nodes[me].(waiting := s.nodes[me].waiting[1..], missExp := s.nodes[me].missExp - 1)
    && (forall x :: x in s.nodes && x != me ==>
          t.nodes[x] == s.nodes[x].(missRef := s.nodes[x].missRef - if x == file[w.ev].id then 1 else 0))
  }

  // The waiting event is known, is still in the fifo and is not the one being read.
  lemma AtWaitOk(file: seq<Event>, s: State, w: Wait)
    requires AtWait(file, s, w)
    ensures WaitOk(file, s, file[|s.refs| - 1].id, w) && w.ev < |s.refs| - 1
    ensures LiveOk(file, s, w.ev) && file[w.ev].id != file[|s.refs| - 1].id
    ensures s.nodes[file[|s.refs| - 1].id].hwe == Some(|s.refs| - 1)
  {
    assert NodeOk(file, s, file[|s.refs| - 1].id);
    assert LiveOk(file, s, |s.refs| - 1);
    assert WaitOk(file, s, file[|s.refs| - 1].id, s.nodes[file[|s.refs| - 1].id].waiting[0]);
    assert LiveOk(file, s, w.ev);
  }

  lemma {:induction false} CountNoneSet(r: seq<Option<nat>>, p: nat, i: nat)
    requires p < |r| && r[p] == None
    ensures CountNone(r[p := Some(i)]) == CountNone(r) - 1
  {
    var u := r[p := Some(i)];
    if p == |r| - 1 {
      assert u[..|r|-1] == r[..|r|-1];
    } else {
      assert u[..|r|-1] == r[..|r|-1][p := Some(i)];
      CountNoneSet(r[..|r|-1], p, i);
    }
  }

  lemma {:induction false} CountNoneZero(r: seq<Option<nat>>, p: nat)
    requires p < |r| && r[p] == None
    ensures CountNone(r) > 0
  {
    if p < |r| - 1 { CountNoneZero(r[..|r|-1], p); }
  }

  lemma SolvedTable(file: seq<Event>, s: State, t: State, w: Wait)
    requires AtWait(file, s, w) && Solved(file, s, t, w)
    ensures Table(file, t) && Logged(file, t)
    ensures CountNone(t.refs[w.ev]) == CountNone(s.refs[w.ev]) - 1
  {
    AtWaitOk(file, s, w);
    CountNoneSet(s.refs[w.ev], w.pos, |s.refs| - 1);
  }

  lemma SolvedRefs(file: seq<Event>, s: State, t: State, w: Wait)
    requires AtWait(file, s, w) && Solved(file, s, t, w) && Table(file, t)
    ensures Refs(file, t)
  {
    AtWaitOk(file, s, w);
    var q := s.nodes[file[|s.refs| - 1].id].waiting;
    assert q == [q[0]] + q[1..];
    forall j, p | 0 <= j < |t.refs| && 0 <= p < |t.refs[j]| ensures RefOk(file, t, j, p) {
      assert RefOk(file, s, j, p);
    }
  }

  lemma SolvedOtherWaits(file: seq<Event>, s: State, t: State, w: Wait, x: Id)
    requires AtWait(file, s, w) && Solved(file, s, t, w) && Table(file, t) && x in s.nodes && x != file[|s.refs| - 1].id
    ensures Waits(file, t, x)
  {
    AtWaitOk(file, s, w);
    assert NodeOk(file, s, x);
    var q := s.nodes[x].waiting;
    forall k | 0 <= k < |q| ensures WaitOk(file, t, x, q[k]) { assert WaitOk(file, s, x, q[k]); }
  }

  lemma SolvedOwnWaits(file: seq<Event>, s: State, t: State, w: Wait)
    requires AtWait(file, s, w) && Solved(file, s, t, w) && Table(file, t)
    ensures Waits(file, t, file[|s.refs| - 1].id)
  {
    var me := file[|s.refs| - 1].id;
    assert NodeOk(file, s, me);
    var q := s.nodes[me].waiting;
    forall k | 0 <= k < |q| - 1 ensures WaitOk(file, t, me, q[1..][k]) {
      assert WaitOk(file, s, me, q[k + 1]) && q[k + 1] != q[0];
    }
  }

  lemma SolvedNode(file: seq<Event>, s: State, t: State, w: Wait, x: Id)
    requires AtWait(file, s, w) && Solved(file, s, t, w) && Table(file, t)
    ensures NodeOk(file, t, x)
  {
    AtWaitOk(file, s, w);
    assert NodeOk(file, s, x);
    if x == file[|s.refs| - 1].id {
      SolvedOwnWaits(file, s, t, w);
    } else if x in s.nodes {
      SolvedOtherWaits(file, s, t, w, x);
    }
  }

  lemma SolvedLive(file: seq<Event>, s: State, t: State, w: Wait, i: nat)
    requires AtWait(file, s, w) && Solved(file, s, t, w) && Table(file, t) && |s.log| <= i < |t.refs|
    ensures LiveOk(file, t, i)
  {
    AtWaitOk(file, s, w);
    SolvedTable(file, s, t, w);
    assert LiveOk(file, s, i);
    assert i != w.ev ==> file[i].id != file[w.ev].id;
    assert i != |s.refs| - 1 ==> file[i].id != file[|s.refs| - 1].id;
  }

  lemma SolvedPassed(file: seq<Event>, s: State, t: State, w: Wait, i: nat)
    requires AtWait(file, s, w) && Solved(file, s, t, w) && Table(file, t) && i < |s.log|
    ensures PassedOk(file, t, i)
  {
    AtWaitOk(file, s, w);
    assert PassedOk(file, s, i);
    assert file[i].id != file[|s.refs| - 1].id;
  }

  lemma SolvedKeepsInv(file: seq<Event>, s: State, t: State, w: Wait)
    requires AtWait(file, s, w) && Solved(file, s, t, w)
    ensures Inv(file, t)
  {
    SolvedTable(file, s, t, w);
    SolvedRefs(file, s, t, w);
    forall x ensures NodeOk(file, t, x) { SolvedNode(file, s, t, w, x); }
    forall i | |t.log| <= i < |t.refs| ensures LiveOk(file, t, i) { SolvedLive(file, s, t, w, i); }
    forall i | 0 <= i < |t.log| ensures PassedOk(file, t, i) { SolvedPassed(file, s, t, w, i); }
  }

  // ---------------------------------------------------------------------------------------------
  // The end of reading an event, and passing the head of the fifo on

  ghost predicate Marked(file: seq<Event>, s: State, t: State)
    requires 0 < |s.refs| <= |file|
  {
    var me := file[|s.refs| - 1].id;
    me in s.nodes && t == s.(nodes := s.nodes[me := s.nodes[me].(state := 1)], busy := false)
  }

  lemma MarkedKeepsInv(file: seq<Event>, s: State, t: State)
    requires Inv(file, s) && s.busy && Marked(file, s, t)
    requires |s.refs[|s.refs| - 1]| == |file[|s.refs| - 1].refs| && s.nodes[file[|s.refs| - 1].id].waiting == []
    ensures Inv(file, t)
  {
    var n := |s.refs|;
    var me := file[n - 1].id;
    assert LiveOk(file, s, n - 1);
    forall j, p | 0 <= j < |t.refs| && 0 <= p < |t.refs[j]| ensures RefOk(file, t, j, p) {
      assert RefOk(file, s, j, p);
    }
    forall x ensures NodeOk(file, t, x) { MarkedNode(file, s, t, x); }
    forall i | |t.log| <= i < |t.refs| ensures LiveOk(file, t, i) {
      assert LiveOk(file, s, i);
      assert i < n - 1 ==> file[i].id != me;
    }
    forall i | 0 <= i < |t.log| ensures PassedOk(file, t, i) { assert PassedOk(file, s, i) && file[i].id != me; }
  }

  lemma MarkedNode(file: seq<Event>, s: State, t: State, x: Id)
    requires Inv(file, s) && s.busy && Marked(file, s, t) && Table(file, t)
    requires s.nodes[file[|s.refs| - 1].id].waiting == [] && s.nodes[file[|s.refs| - 1].id].hwe == Some(|s.refs| - 1)
    ensures NodeOk(file, t, x)
  {
    assert NodeOk(file, s, x);
    if x in s.nodes {
      var q := s.nodes[x].waiting;
      forall k | 0 <= k < |q| ensures WaitOk(file, t, x, q[k]) { assert WaitOk(file, s, x, q[k]); }
    }
  }

  // The head of the fifo can be passed on.
  ghost predicate Ready(file: seq<Event>, s: State)
    requires Table(file, s)
  {
    && |s.log| < |s.refs|
    && var id := file[|s.log|].id;
       id in s.nodes && s.nodes[id].state == 1 && s.nodes[id].missRef == 0
  }

  ghost predicate Extends(a: seq<Handled>, b: seq<Handled>)
  {
    |a| <= |b| && forall k :: 0 <= k < |a| ==> b[k] == a[k]
  }

  // One iteration of the loop of `try_commit`: `handle_event`, then `try_delete` of the node.
  ghost predicate Passed(file: seq<Event>, s: State, t: State)
    requires Table(file, s) && Ready(file, s)
  {
    var c := |s.log|;
    var id := file[c].id;
    && t == s.(log := t.log, nodes := t.nodes)
    && |t.log| == c + 1 && t.log[c] == Handled(c, s.refs[c]) && Extends(s.log, t.log)
    && (forall x :: x in t.nodes <==> x in s.nodes && (x != id || s.nodes[id].missExp != 0))
    && (forall x :: x in t.nodes ==> t.nodes[x] == if x == id then s.nodes[x].(state := 2) else s.nodes[x])
  }

  lemma PassedTable(file: seq<Event>, s: State, t: State)
    requires Inv(file, s) && Ready(file, s) && Passed(file, s, t)
    ensures Table(file, t) && Logged(file, t) && s.nodes[file[|s.log|].id].waiting == []
    ensures s.nodes[file[|s.log|].id].hwe == Some(|s.log|) && (s.busy ==> |s.log| < |s.refs| - 1)
    ensures forall p :: 0 <= p < |s.refs[|s.log|]| ==> s.refs[|s.log|][p] != None
  {
    assert LiveOk(file, s, |s.log|);
    assert NodeOk(file, s, file[|s.log|].id);
    forall p | 0 <= p < |s.refs[|s.log|]| ensures s.refs[|s.log|][p] != None {
      if s.refs[|s.log|][p] == None { CountNoneZero(s.refs[|s.log|], p); }
    }
  }

  // The event being read is not the one passed on.
  lemma PassedFrame(file: seq<Event>, s: State)
    requires Inv(file, s) && Ready(file, s)
    ensures s.busy ==> |s.log| < |s.refs| - 1 && file[|s.refs| - 1].id != file[|s.log|].id
  {
    assert LiveOk(file, s, |s.log|);
  }

  lemma PassedNode(file: seq<Event>, s: State, t: State, x: Id)
    requires Inv(file, s) && Ready(file, s) && Passed(file, s, t) && Table(file, t)
    ensures NodeOk(file, t, x)
  {
    PassedTable(file, s, t);
    assert NodeOk(file, s, x);
    if x in t.nodes {
      var q := s.nodes[x].waiting;
      forall k | 0 <= k < |q| ensures WaitOk(file, t, x, q[k]) { assert WaitOk(file, s, x, q[k]); }
    }
  }

  lemma PassedKeepsInv(file: seq<Event>, s: State, t: State)
    requires Inv(file, s) && Ready(file, s) && Passed(file, s, t)
    ensures Inv(file, t)
  {
    PassedTable(file, s, t);
    var c := |s.log|;
    forall j, p | 0 <= j < |t.refs| && 0 <= p < |t.refs[j]| ensures RefOk(file, t, j, p) {
      assert RefOk(file, s, j, p);
    }
    forall x ensures NodeOk(file, t, x) { PassedNode(file, s, t, x); }
    forall i | |t.log| <= i < |t.refs| ensures LiveOk(file, t, i) {
      assert LiveOk(file, s, i) && file[i].id != file[c].id;
    }
    forall i | 0 <= i < |t.log| ensures PassedOk(file, t, i) {
      assert NodeOk(file, s, file[c].id);
      if i < c { assert PassedOk(file, s, i) && file[i].id != file[c].id; }
    }
  }

  // The first and the last event of the fifo, after `c` events were passed on and `n` were read.
  ghost function HeadOf(file: seq<Event>, c: nat, n: nat): Option<Id>
  {
    if c < n <= |file| then Some(file[c].id) else None
  }

  ghost function LastOf(file: seq<Event>, c: nat, n: nat): Option<Id>
  {
    if c < n <= |file| then Some(file[n - 1].id) else None
  }

  // The node of the event read last.
  ghost function ReadOf(file: seq<Event>, s: State): Node
  {
    if 0 < |s.refs| <= |file| then NodeAt(s.nodes, file[|s.refs| - 1].id) else NEW_NODE
  }

  lemma LastKnown(file: seq<Event>, s: State)
    requires Inv(file, s)
    ensures |s.log| < |s.refs| ==> file[|s.refs| - 1].id in s.nodes
  {
    if |s.log| < |s.refs| { assert LiveOk(file, s, |s.refs| - 1); }
  }

  lemma HeadKnown(file: seq<Event>, s: State)
    requires Inv(file, s)
    ensures |s.log| < |s.refs| ==> file[|s.log|].id in s.nodes
  {
    if |s.log| < |s.refs| { assert LiveOk(file, s, |s.log|); }
  }

  lemma HeadNode(file: seq<Event>, s: State)
    requires Inv(file, s) && Ready(file, s)
    ensures s.nodes[file[|s.log|].id].hwe == Some(|s.log|)
    ensures s.nodes[file[|s.log|].id].next == HeadOf(file, |s.log| + 1, |s.refs|)
  {
    assert LiveOk(file, s, |s.log|);
  }

  lemma PassedEffect(file: seq<Event>, s: State, t: State)
    requires Inv(file, s) && Ready(file, s) && Passed(file, s, t)
    ensures Inv(file, t) && |t.log| == |s.log| + 1 && Extends(s.log, t.log)
    ensures |t.log| < |t.refs| ==> file[|t.log|].id in t.nodes
    ensures s.busy ==> ReadOf(file, t) == ReadOf(file, s)
  {
    PassedKeepsInv(file, s, t);
    PassedFrame(file, s);
    if |t.log| < |t.refs| { assert LiveOk(file, t, |t.log|); }
  }

  // ---------------------------------------------------------------------------------------------
  // No step but the completion of the head makes the head ready

  lemma InsertedNotReady(file: seq<Event>, s: State, t: State)
    requires Inv(file, s) && !s.busy && |s.refs| < |file| && Inserted(file, s, t) && Inv(file, t) && !Ready(file, s)
    ensures !Ready(file, t)
  {
    assert LiveOk(file, t, |t.log|);
    if |s.log| < |s.refs| { assert LiveOk(file, s, |s.log|); }
  }

  lemma FoundNotReady(file: seq<Event>, s: State, t: State, id: Id)
    requires AtRef(file, s, id) && Found(file, s, t, id) && Inv(file, t) && !Ready(file, s)
    ensures !Ready(file, t)
  {
    assert LiveOk(file, s, |s.log|) && LiveOk(file, t, |s.log|);
  }

  // The node of the event being read.
  lemma ReadNode(file: seq<Event>, s: State)
    requires Inv(file, s) && s.busy
    ensures file[|s.refs| - 1].id in s.nodes && s.nodes[file[|s.refs| - 1].id].hwe == Some(|s.refs| - 1)
  {
    assert LiveOk(file, s, |s.refs| - 1);
  }

  lemma RefEffect(file: seq<Event>, s: State, t: State, id: Id)
    requires AtRef(file, s, id) && !Ready(file, s) && (Found(file, s, t, id) || Listed(file, s, t, id))
    ensures Inv(file, t) && !Ready(file, t)
  {
    if Found(file, s, t, id) { FoundEffect(file, s, t, id); } else { ListedEffect(file, s, t, id); }
  }

  lemma FoundEffect(file: seq<Event>, s: State, t: State, id: Id)
    requires AtRef(file, s, id) && !Ready(file, s) && Found(file, s, t, id)
    ensures Inv(file, t) && !Ready(file, t)
  {
    FoundKeepsInv(file, s, t, id);
    FoundNotReady(file, s, t, id);
  }

  lemma ListedEffect(file: seq<Event>, s: State, t: State, id: Id)
    requires AtRef(file, s, id) && !Ready(file, s) && Listed(file, s, t, id)
    ensures Inv(file, t) && !Ready(file, t)
  {
    ListedKeepsInv(file, s, t, id);
    ListedNotReady(file, s, t, id);
  }

  lemma ListedNotReady(file: seq<Event>, s: State, t: State, id: Id)
    requires AtRef(file, s, id) && Listed(file, s, t, id) && Inv(file, t) && !Ready(file, s)
    ensures !Ready(file, t)
  {
    assert LiveOk(file, s, |s.log|) && LiveOk(file, t, |s.log|);
  }

  lemma SolvedNotReady(file: seq<Event>, s: State, t: State, w: Wait)
    requires AtWait(file, s, w) && Solved(file, s, t, w) && Inv(file, t) && !Ready(file, s)
    ensures w.ev != |s.log| ==> !Ready(file, t)
  {
    assert LiveOk(file, s, |s.log|) && LiveOk(file, t, |s.log|);
  }

  lemma SolvedEffect(file: seq<Event>, s: State, t: State, w: Wait)
    requires AtWait(file, s, w) && Solved(file, s, t, w) && !Ready(file, s)
    ensures Inv(file, t) && (w.ev != |s.log| ==> !Ready(file, t))
    ensures |ReadOf(file, t).waiting| == |ReadOf(file, s).waiting| - 1
    ensures t.refs[|s.refs| - 1] == s.refs[|s.refs| - 1]
  {
    SolvedKeepsInv(file, s, t, w);
    SolvedNotReady(file, s, t, w);
  }

  lemma MarkedNotReady(file: seq<Event>, s: State, t: State)
    requires Inv(file, s) && s.busy && Marked(file, s, t) && Inv(file, t) && !Ready(file, s)
    ensures |s.log| < |s.refs| - 1 ==> !Ready(file, t)
  {
    assert LiveOk(file, s, |s.log|) && LiveOk(file, t, |s.log|);
  }

  // ---------------------------------------------------------------------------------------------
  // The reader

  class Reader {
    const file: seq<Event>
    var nodes: map<Id, Node>          // the trees of all components
    var head: Option<Id>
    var queue: Option<Id>
    var refs: seq<seq<Option<nat>>>   // the reference pointers of the events read
    var log: seq<Handled>             // the calls of `handle_event`
    ghost var busy: bool

    ghost function S(): State
      reads this
    {
      State(nodes, refs, log, busy)
    }

    ghost predicate Valid()
      reads this
    {
      && Inv(file, S())
      && head == HeadOf(file, |log|, |refs|) && queue == LastOf(file, |log|, |refs|)
    }

    /** The head of the fifo, if any, cannot be passed on yet. */
    ghost predicate Quiet()
      reads this
    {
      Valid() && !Ready(file, S())
    }

    constructor (f: seq<Event>)
      requires Distinct(f)
      ensures Valid() && file == f && refs == [] && log == [] && !busy
    {
      file := f;
      nodes, head, queue, refs, log := map[], None, None, [], [];
      busy := false;
    }

    method FindNode(id: Id)
      modifies this`nodes
      ensures nodes == old(nodes)[id := NodeAt(old(nodes), id)]
    {
      if id !in nodes {
        nodes := nodes[id := NEW_NODE];
      }
    }

    method TryDelete(id: Id) returns (ok: bool)
      requires id in nodes
      modifies this`nodes
      ensures ok <==> old(nodes[id].state == 2 && nodes[id].missExp == 0)
      ensures nodes == if ok then old(nodes) - {id} else old(nodes)
    {
      ok := nodes[id].state == 2 && nodes[id].missExp == 0;
      if ok {
        nodes := nodes - {id};
      }
    }

    // The body of `insert_event`.
    method Insert()
      requires Table(file, S()) && |refs| < |file|
      requires queue == LastOf(file, |log|, |refs|)
      requires queue.Some? ==> queue.value in nodes && queue.value != file[|refs|].id
      modifies this
      ensures Inserted(file, old(S()), S()) && queue == Some(file[old(|refs|)].id)
      ensures head == if old(queue).Some? then old(head) else queue
    {
      var n := |refs|;
      var id := file[n].id;
      FindNode(id);
      nodes := nodes[id := nodes[id].(hwe := Some(n))];
      if queue.Some? {
        nodes := nodes[queue.value := nodes[queue.value].(next := Some(id))];
      } else {
        head := Some(id);
      }
      queue := Some(id);
      nodes := nodes[id := nodes[id].(missExp := nodes[id].missExp + file[n].expected)];
      refs, busy := refs + [[]], true;
    }

    /** The event read next joins the fifo; the head of the fifo is as before. */
    method InsertEvent()
      requires Quiet() && !busy && |refs| < |file|
      modifies this
      ensures Quiet() && busy && refs == old(refs) + [[]] && log == old(log)
    {
      ghost var s := S();
      InsertedFresh(file, s);
      LastKnown(file, s);
      Insert();
      InsertedKeepsInv(file, s, S());
      InsertedNotReady(file, s, S());
    }

    /** Every reference of the event read becomes a pointer, or is listed with the node it waits for. */
    method TrySolveOurRef()
      requires Quiet() && busy && refs[|refs| - 1] == []
      modifies this
      ensures Quiet() && busy && |refs| == old(|refs|) && log == old(log) && AllSet()
    {
      var n := |refs|;
      for i := 0 to |file[n - 1].refs|
        invariant Quiet() && busy && |refs| == n && log == old(log) && |refs[n - 1]| == i
      {
        SolveRef(file[n - 1].refs[i]);
      }
    }

    // All the references of the event read were looked up.
    ghost predicate AllSet()
      reads this
    {
      0 < |refs| <= |file| && |refs[|refs| - 1]| == |file[|refs| - 1].refs|
    }

    method SolveRef(id: Id)
      requires Quiet() && AtRef(file, S(), id)
      modifies this
      ensures Quiet() && busy && |refs| == old(|refs|) && log == old(log)
      ensures |refs[|refs| - 1]| == old(|refs[|refs| - 1]|) + 1
    {
      ghost var s := S();
      ReadNode(file, s);
      FindNode(id);
      if nodes[id].hwe.Some? {
        SetFound(id, s);
      } else {
        SetListed(id, s);
      }
      RefEffect(file, s, S(), id);
    }

    method SetFound(id: Id, ghost s: State)
      requires 0 < |refs| <= |file| && id in nodes && nodes[id].hwe.Some?
      requires S() == s.(nodes := s.nodes[id := NodeAt(s.nodes, id)])
      modifies this`nodes, this`refs
      ensures Found(file, s, S(), id) && |refs| == old(|refs|) && |refs[|refs| - 1]| == old(|refs[|refs| - 1]|) + 1
    {
      var n := |refs|;
      refs := refs[n - 1 := refs[n - 1] + [nodes[id].hwe]];
      nodes := nodes[id := nodes[id].(missExp := nodes[id].missExp - 1)];
      var _ := TryDelete(id);
    }

    method SetListed(id: Id, ghost s: State)
      requires 0 < |refs| <= |file| && id != file[|refs| - 1].id && file[|refs| - 1].id in s.nodes
      requires S() == s.(nodes := s.nodes[id := NodeAt(s.nodes, id)]) && NodeAt(s.nodes, id).hwe == None
      modifies this`nodes, this`refs
      ensures Listed(file, s, S(), id) && |refs| == old(|refs|) && |refs[|refs| - 1]| == old(|refs[|refs| - 1]|) + 1
    {
      var n := |refs|;
      var me := file[n - 1].id;
      nodes := nodes[id := nodes[id].(waiting := [Wait(n - 1, |refs[n - 1]|)] + nodes[id].waiting)];
      nodes := nodes[me := nodes[me].(missRef := nodes[me].missRef + 1)];
      refs := refs[n - 1 := refs[n - 1] + [None]];
    }

    method SetSolved(w: Wait)
      requires 0 < |refs| <= |file| && w.ev < |refs| - 1 && w.pos < |refs[w.ev]|
      requires file[|refs| - 1].id in nodes && nodes[file[|refs| - 1].id].waiting != []
      requires file[w.ev].id in nodes && file[w.ev].id != file[|refs| - 1].id
      modifies this`nodes, this`refs
      ensures Solved(file, old(S()), S(), w)
    {
      var n := |refs|;
      var me := file[n - 1].id;
      var other := file[w.ev].id;
      refs := refs[w.ev := refs[w.ev][w.pos := Some(n - 1)]];
      nodes := nodes[me := nodes[me].(missExp := nodes[me].missExp - 1, waiting := nodes[me].waiting[1..])];
      nodes := nodes[other := nodes[other].(missRef := nodes[other].missRef - 1)];
    }

    /** Pass on the head of the fifo, if it is `id`, and all that can follow it. */
    method TryCommit(id: Id) returns (ok: bool)
      requires Valid() && (head == Some(id) || !Ready(file, S()))
      modifies this
      ensures Quiet() && Extends(old(log), log)
      ensures refs == old(refs) && busy == old(busy)
      ensures busy ==> ReadOf(file, S()) == old(ReadOf(file, S()))
    {
      if head != Some(id) {
        return false;
      }
      HeadKnown(file, S());
      if nodes[id].state != 1 || nodes[id].missRef != 0 {
        return false;
      }
      PassAll();
      ok := true;
    }

    method PassAll()
      requires Valid() && head.Some? && head.value in nodes
      modifies this`nodes, this`log, this`head, this`queue
      ensures Quiet() && Extends(old(log), log)
      ensures busy ==> ReadOf(file, S()) == old(ReadOf(file, S()))
    {
      var cur := head;
      while cur.Some? && nodes[cur.value].state == 1 && nodes[cur.value].missRef == 0
        invariant Inv(file, S()) && Extends(old(log), log) && queue == old(queue)
        invariant cur == HeadOf(file, |log|, |refs|) && (cur.Some? ==> cur.value in nodes)
        invariant busy ==> ReadOf(file, S()) == old(ReadOf(file, S()))
        decreases |refs| - |log|
      {
        cur := PassHead(cur.value);
      }
      head := cur;
      if cur == None {
        queue := None;
      }
    }

    method PassHead(id: Id) returns (next: Option<Id>)
      requires Inv(file, S()) && Ready(file, S()) && id == file[|log|].id
      modifies this`nodes, this`log
      ensures Inv(file, S()) && |log| == |old(log)| + 1 && Extends(old(log), log)
      ensures next == HeadOf(file, |log|, |refs|) && (next.Some? ==> next.value in nodes)
      ensures busy ==> ReadOf(file, S()) == old(ReadOf(file, S()))
    {
      ghost var s := S();
      HeadNode(file, s);
      next := Pass(id);
      PassedEffect(file, s, S());
    }

    method Pass(id: Id) returns (next: Option<Id>)
      requires Table(file, S()) && Ready(file, S()) && id == file[|log|].id && nodes[id].hwe == Some(|log|)
      modifies this`nodes, this`log
      ensures Passed(file, old(S()), S()) && next == old(nodes[id].next)
    {
      var ev := nodes[id].hwe.value;
      log := log + [Handled(ev, refs[ev])];
      next := nodes[id].next;
      nodes := nodes[id := nodes[id].(state := 2)];
      var _ := TryDelete(id);
    }

    /** Every reference that waited for the event read becomes a pointer to it. */
    method SolvePendingRef()
      requires Quiet() && busy && AllSet()
      modifies this
      ensures Quiet() && busy && |refs| == old(|refs|) && Extends(old(log), log) && AllSet()
      ensures ReadOf(file, S()).waiting == []
    {
      var me := file[|refs| - 1].id;
      ReadNode(file, S());
      while nodes[me].waiting != []
        invariant Quiet() && busy && |refs| == old(|refs|) && Extends(old(log), log) && me in nodes && AllSet()
        decreases |nodes[me].waiting|
      {
        SolveWait();
      }
    }

    method SolveWait()
      requires Quiet() && busy && AllSet() && ReadOf(file, S()).waiting != []
      modifies this
      ensures Quiet() && busy && |refs| == old(|refs|) && Extends(old(log), log) && AllSet()
      ensures file[|refs| - 1].id in nodes && |ReadOf(file, S()).waiting| < old(|ReadOf(file, S()).waiting|)
    {
      ghost var s := S();
      var w := nodes[file[|refs| - 1].id].waiting[0];
      AtWaitOk(file, s, w);
      SetSolved(w);
      SolvedEffect(file, s, S(), w);
      var _ := TryCommit(file[w.ev].id);
      ReadNode(file, S());
    }

    /** One iteration of the main loop: afterwards the head of the fifo, if any, misses a reference. */
    method HandleEvent()
      requires Quiet() && !busy && |refs| < |file|
      modifies this
      ensures Quiet() && !busy && |refs| == old(|refs|) + 1 && Extends(old(log), log)
    {
      InsertEvent();
      TrySolveOurRef();
      SolvePendingRef();
      MarkRead();
    }

    method MarkRead()
      requires Quiet() && busy && AllSet() && ReadOf(file, S()).waiting == []
      modifies this
      ensures Quiet() && !busy && |refs| == old(|refs|) && Extends(old(log), log)
    {
      ghost var s := S();
      var me := file[|refs| - 1].id;
      ReadNode(file, s);
      nodes := nodes[me := nodes[me].(state := 1)];
      busy := false;
      MarkedKeepsInv(file, s, S());
      MarkedNotReady(file, s, S());
      var _ := TryCommit(me);
    }

    /** The whole file: every event is read, and the events passed on are a prefix of the file. */
    method ReadAll()
      requires Quiet() && !busy && refs == []
      modifies this
      ensures Quiet() && !busy && |refs| == |file|
      ensures |log| <= |file| && forall k :: 0 <= k < |log| ==> HandledOk(file, k, log[k])
      ensures (nodes == map[] && |log| == |file|) <==> Closed(file) && Exact(file)
    {
      for i := 0 to |file|
        invariant Quiet() && !busy && |refs| == i
      {
        HandleEvent();
      }
      HandledPrefix(file, S());
      EmptyIff(file, S());
    }
  }

  // ---------------------------------------------------------------------------------------------
  // What the reader guarantees

  // Event `k`, with all its references, each pointing to the event whose id the file gives.
  ghost predicate HandledOk(file: seq<Event>, k: nat, h: Handled)
    requires k < |file|
  {
    && h.ev == k && |h.refs| == |file[k].refs|
    && forall p :: 0 <= p < |h.refs| ==>
      h.refs[p].Some? && h.refs[p].value < |file| && file[h.refs[p].value].id == file[k].refs[p]
  }

  /** The events passed on are a prefix of the file, each once, with the right pointers. */
  lemma HandledPrefix(file: seq<Event>, s: State)
    requires Inv(file, s)
    ensures |s.log| <= |file| && forall k :: 0 <= k < |s.log| ==> HandledOk(file, k, s.log[k])
  {
    forall k | 0 <= k < |s.log| ensures HandledOk(file, k, s.log[k]) {
      forall p | 0 <= p < |s.refs[k]| ensures s.refs[k][p].Some? {
        if s.refs[k][p] == None { CountNoneZero(s.refs[k], p); }
      }
      forall p | 0 <= p < |s.refs[k]|
        ensures s.refs[k][p].value < |file| && file[s.refs[k][p].value].id == file[k].refs[p]
      {
        assert RefOk(file, s, k, p);
      }
    }
  }

  // Every reference is to an event of the file.
  ghost predicate Closed(file: seq<Event>)
  {
    forall id :: RefTimes(file, |file|, id) > 0 ==> !Unread(file, |file|, id)
  }

  // `expected` is the number of references to the event in the whole file.
  ghost predicate Exact(file: seq<Event>)
  {
    forall i :: 0 <= i < |file| ==> file[i].expected == RefTimes(file, |file|, file[i].id)
  }

  lemma {:induction false} CountInPositive(q: seq<Id>, k: nat, p: nat)
    requires p < k <= |q|
    ensures CountIn(q, k, q[p]) > 0
  {
    if p < k - 1 { CountInPositive(q, k - 1, p); }
  }

  lemma {:induction false} RefCounted(file: seq<Event>, n: nat, j: nat, p: nat)
    requires j < n <= |file| && p < |file[j].refs|
    ensures RefTimes(file, n, file[j].refs[p]) > 0
  {
    if j == n - 1 { CountInPositive(file[j].refs, |file[j].refs|, p); } else { RefCounted(file, n - 1, j, p); }
  }

  lemma {:induction false} SomeNone(r: seq<Option<nat>>) returns (p: nat)
    requires CountNone(r) > 0
    ensures p < |r| && r[p] == None
  {
    if r[|r|-1] == None { p := |r| - 1; } else { p := SomeNone(r[..|r|-1]); }
  }

  ghost predicate AllRead(file: seq<Event>, s: State)
  {
    Inv(file, s) && !s.busy && |s.refs| == |file| && !Ready(file, s)
  }

  // A node without an event is referenced, and by more than `expected` if its event was read.
  lemma Unbound(file: seq<Event>, s: State, id: Id)
    requires AllRead(file, s) && id in s.nodes && s.nodes[id].hwe == None
    ensures !(Closed(file) && Exact(file))
  {
    assert NodeOk(file, s, id);
    var w := s.nodes[id].waiting[0];
    assert WaitOk(file, s, id, w);
    RefCounted(file, |file|, w.ev, w.pos);
    if !Unread(file, |file|, id) {
      var i :| 0 <= i < |file| && file[i].id == id;
      assert |s.log| <= i ==> LiveOk(file, s, i);
      assert i < |s.log| ==> PassedOk(file, s, i);
    }
  }

  // In a closed file with exact counts, no node is left that only waits.
  lemma NoneWaits(file: seq<Event>, s: State, id: Id)
    requires AllRead(file, s) && Closed(file) && Exact(file) && id in s.nodes
    ensures s.nodes[id].hwe.Some? && s.nodes[id].waiting == []
  {
    assert NodeOk(file, s, id);
    if s.nodes[id].hwe == None { Unbound(file, s, id); }
  }

  // A node that outlives all the events has a wrong `expected`.
  lemma Kept(file: seq<Event>, s: State, id: Id)
    requires AllRead(file, s) && |s.log| == |file| && id in s.nodes && s.nodes[id].hwe.Some?
    ensures !Exact(file)
  {
    assert NodeOk(file, s, id);
    assert PassedOk(file, s, s.nodes[id].hwe.value);
  }

  lemma AllPassed(file: seq<Event>, s: State)
    requires AllRead(file, s) && Closed(file) && Exact(file)
    ensures |s.log| == |file|
  {
    if |s.log| < |file| {
      var c := |s.log|;
      assert LiveOk(file, s, c);
      var p := SomeNone(s.refs[c]);
      assert RefOk(file, s, c, p);
      NoneWaits(file, s, file[c].refs[p]);
    }
  }

  /** Everything is passed on and all the trees end empty exactly for closed files with exact counts. */
  lemma EmptyIff(file: seq<Event>, s: State)
    requires AllRead(file, s)
    ensures (s.nodes == map[] && |s.log| == |file|) <==> Closed(file) && Exact(file)
  {
    if Closed(file) && Exact(file) {
      AllPassed(file, s);
      forall id ensures id !in s.nodes {
        if id in s.nodes {
          NoneWaits(file, s, id);
          Kept(file, s, id);
        }
      }
    }
    if s.nodes == map[] && |s.log| == |file| {
      forall id | RefTimes(file, |file|, id) > 0 ensures !Unread(file, |file|, id) { assert NodeOk(file, s, id); }
      forall i | 0 <= i < |file| ensures file[i].expected == RefTimes(file, |file|, file[i].id) {
        assert PassedOk(file, s, i);
      }
    }
  }
}
