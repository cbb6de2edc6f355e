/**
 The state of the staged event handler (lib/decopus/trace/include/hwe_handle_implem.h) and the
 invariant that every one of its steps keeps.

 Events are named by their position in the trace, so `ev[k]` is the handler's structure for
 the k-th committed event.  A `Node` is one stage of one event.
 */
module EventState {

  datatype Stage = Trace | Init | Go | Ret

  datatype Node = Node(ev: nat, stage: Stage)

  // Fifos are either the 'init' fifo of a component or a fifo owned by the processing code.
  datatype Fifo = InitFifo(comp: nat) | UserFifo(id: nat)

  // Element of a `usrfol` list: a blocked stage, or the membership of the list's owner in a fifo.
  datatype Ptr = Barrier(node: Node) | Member(fifo: Fifo)

  datatype EventStage = EventStage(cnt: int, done: bool, usrfol: seq<Ptr>)

  datatype Event = Event(
    commited: bool,
    missref: int,
    missfol: int,
    followers: seq<nat>)

  // One `put_infifo_go`/`put_infifo_ret` call made by an 'init' callback.
  datatype Put = Put(fifo: nat, stage: Stage)

  // A committed event: its component, its references, the number of references it expects,
  // and the puts that its 'init' callback performs.
  datatype Hwe = Hwe(comp: nat, refs: seq<nat>, expected: nat, puts: seq<Put>)

  const NEW_STAGE := EventStage(0, false, [])
  const NEW_EVENT := Event(false, 0, 0, [])

  // ---------------------------------------------------------------------------------------------
  // Traces

  function Refs(tr: seq<Hwe>): (r: seq<seq<nat>>)
    ensures |r| == |tr| && forall x :: 0 <= x < |tr| ==> r[x] == tr[x].refs
  {
    seq(|tr|, i requires 0 <= i < |tr| => tr[i].refs)
  }

  // The number of references to event `x`.
  ghost function RefCount(refs: seq<seq<nat>>, x: nat): nat
  {
    if refs == [] then 0
    else RefCount(refs[..|refs|-1], x) + multiset(refs[|refs|-1])[x]
  }

  /** What the handler assumes of a whole trace: references name events of the trace, `expected`
      is the number of references to the event, and callbacks put 'go' or 'ret' stages. */
  ghost predicate WellFormed(tr: seq<Hwe>)
  {
    && (forall x, r | 0 <= x < |tr| && r in tr[x].refs :: r < |tr|)
    && (forall x | 0 <= x < |tr| :: tr[x].expected == RefCount(Refs(tr), x))
    && (forall x, p | 0 <= x < |tr| && p in tr[x].puts :: p.stage == Go || p.stage == Ret)
  }

  // The 'init' nodes of component `c` among the first `n` events, in commit order.
  ghost function CompNodes(tr: seq<Hwe>, n: nat, c: nat): seq<Node>
    requires n <= |tr|
  {
    if n == 0 then []
    else CompNodes(tr, n - 1, c) + (if tr[n-1].comp == c then [Node(n - 1, Init)] else [])
  }

  // ---------------------------------------------------------------------------------------------
  // States

  // Proof-only companion of an `Event`.  For each kind of pointer list that can block a stage,
  // the blocked event records where its outstanding blockers are.
  datatype Blockers = Blockers(
    missing: multiset<nat>,   // uncommitted references, one entry per unit of `missref`
    pend: seq<nat>,           // followers whose `missref` still counts this event
    goRef: multiset<nat>,     // references whose `followers` list holds this event
    retFol: multiset<nat>,    // followers that have not yet released this event
    left: seq<nat>)           // references this event has not yet released

  const NO_BLOCKERS := Blockers(multiset{}, [], multiset{}, multiset{}, [])

  datatype State = State(
    ev: seq<Event>,
    stg: map<Node, EventStage>,     // the `init`, `go` and `ret` stages of the events
    bl: seq<Blockers>,
    bys: map<Node, multiset<Node>>, // for each stage, the stages whose `usrfol` list holds it
    reg: seq<seq<nat>>,             // references registered so far
    fifo: map<Fifo, Node>,          // non-null fifo queues
    puts: map<Fifo, seq<Node>>,     // every put so far, in order
    links: set<(Node, Node)>,       // fifo predecessors the handler takes into account
    free: seq<nat>,                 // recycled events
    log: seq<Node>,                 // callbacks run so far (and commits, as Trace nodes)
    active: set<Node>,              // stages whose callback ran but whose unlocking is under way
    n: nat)                         // events handed to the handler so far

  // A stage that has never been touched is as `event_init` left it.
  function StageOf(stg: map<Node, EventStage>, a: Node): EventStage
  {
    if a in stg then stg[a] else NEW_STAGE
  }

  function SetList(stg: map<Node, EventStage>, a: Node, l: seq<Ptr>): (r: map<Node, EventStage>)
    ensures forall c :: StageOf(r, c) == if c == a then StageOf(stg, c).(usrfol := l) else StageOf(stg, c)
  {
    stg[a := StageOf(stg, a).(usrfol := l)]
  }

  function AddCnt(stg: map<Node, EventStage>, a: Node, k: int): (r: map<Node, EventStage>)
    ensures forall c ::
      StageOf(r, c) == if c == a then StageOf(stg, c).(cnt := StageOf(stg, c).cnt + k) else StageOf(stg, c)
  {
    stg[a := StageOf(stg, a).(cnt := StageOf(stg, a).cnt + k)]
  }

  function SetDone(stg: map<Node, EventStage>, a: Node): (r: map<Node, EventStage>)
    ensures forall c :: StageOf(r, c) == if c == a then StageOf(stg, c).(done := true) else StageOf(stg, c)
  {
    stg[a := StageOf(stg, a).(done := true)]
  }

  ghost function Usr(s: State, a: Node): seq<Ptr> { StageOf(s.stg, a).usrfol }
  ghost function Cnt(s: State, a: Node): int { StageOf(s.stg, a).cnt }
  ghost predicate Done(s: State, a: Node) { StageOf(s.stg, a).done }
  ghost function By(s: State, b: Node): multiset<Node> { if b in s.bys then s.bys[b] else multiset{} }

  ghost predicate Commited(s: State, x: nat) { x < |s.ev| && s.ev[x].commited }
  ghost function MissRef(s: State, x: nat): int { if x < |s.ev| then s.ev[x].missref else 0 }
  ghost function MissFol(s: State, x: nat): int { if x < |s.ev| then s.ev[x].missfol else 0 }
  ghost function Fol(s: State, x: nat): seq<nat> { if x < |s.ev| then s.ev[x].followers else [] }
  ghost function Left(s: State, x: nat): seq<nat> { if x < |s.bl| then s.bl[x].left else [] }
  ghost function Pend(s: State, x: nat): seq<nat> { if x < |s.bl| then s.bl[x].pend else [] }
  ghost function GoRef(s: State, x: nat): multiset<nat> { if x < |s.bl| then s.bl[x].goRef else multiset{} }
  ghost function RetFol(s: State, x: nat): multiset<nat> { if x < |s.bl| then s.bl[x].retFol else multiset{} }
  ghost function Missing(s: State, x: nat): multiset<nat> { if x < |s.bl| then s.bl[x].missing else multiset{} }

  ghost function RegOf(reg: seq<seq<nat>>, x: nat): seq<nat> { if x < |reg| then reg[x] else [] }
  ghost function Reg(s: State, x: nat): seq<nat> { RegOf(s.reg, x) }

  ghost function PutsIn(puts: map<Fifo, seq<Node>>, f: Fifo): seq<Node> { if f in puts then puts[f] else [] }
  ghost function PutsOf(s: State, f: Fifo): seq<Node> { PutsIn(s.puts, f) }

  // ---------------------------------------------------------------------------------------------
  // The invariant

  ghost predicate Shape(tr: seq<Hwe>, s: State)
  {
    |s.ev| == |tr| && |s.bl| == |tr| && |s.reg| == |tr| && s.n <= |tr|
  }

  // Blockers of a stage that stem from references rather than from `usrfol` lists.
  ghost function RefBlockers(s: State, d: Node): nat
  {
    match d.stage
    case Trace => 0
    case Init => 0
    case Go => |GoRef(s, d.ev)|
    case Ret => |RetFol(s, d.ev)|
  }

  /** A stage's counter is the number of its outstanding blockers, it is zero once the stage has
      run, and the stage's list is empty once its unlocking is over. */
  ghost predicate StageAt(s: State, d: Node)
  {
    && Cnt(s, d) == |By(s, d)| + RefBlockers(s, d)
    && (d in s.log || d.stage == Trace ==> Cnt(s, d) == 0)
    && (Done(s, d) ==> d in s.log)
    && (d in s.log && d !in s.active && d.stage != Trace ==> Usr(s, d) == [] && (d.stage != Ret ==> Done(s, d)))
    && (d in s.active ==> d in s.log && d.stage != Trace && !Done(s, d))
  }

  ghost predicate Stages(s: State)
  {
    forall d :: StageAt(s, d)
  }

  /** A recorded blocker is exactly a pointer in the blocking stage's list, and conversely. */
  ghost predicate CrossUsr(s: State)
  {
    forall a, b :: By(s, b)[a] == multiset(Usr(s, a))[Barrier(b)]
  }

  ghost predicate CrossRefs(s: State)
  {
    && (forall x, y :: GoRef(s, x)[y] == multiset(Fol(s, y))[x])
    && (forall x, y :: RetFol(s, x)[y] == multiset(Left(s, y))[x])
    && (forall x, y :: Missing(s, x)[y] == multiset(Pend(s, y))[x])
  }

  /** The references of an event: `missref` and `missfol` count the missing ones, and the
      reverse lists are complete until the stage that consumes them has run. */
  ghost predicate EventAt(tr: seq<Hwe>, s: State, x: nat)
    requires Shape(tr, s) && x < |tr|
  {
    && MissRef(s, x) == |Missing(s, x)|
    && MissFol(s, x) == (if x < s.n then tr[x].expected else 0) - RefCount(s.reg, x)
    && Reg(s, x) <= tr[x].refs
    && (Commited(s, x) ==> x < s.n && Reg(s, x) == tr[x].refs && Pend(s, x) == [])
    && (x + 1 < s.n ==> Commited(s, x))
    && (s.n <= x ==> Reg(s, x) == [] && Pend(s, x) == Fol(s, x))
    && (forall y | y in Fol(s, x) :: y < s.n)
  }

  ghost predicate Events(tr: seq<Hwe>, s: State)
    requires Shape(tr, s)
  {
    forall x :: 0 <= x < |tr| ==> EventAt(tr, s, x)
  }

  // `fol` lists the events that reference `x`, once per reference.
  ghost predicate FollowersComplete(fol: seq<nat>, reg: seq<seq<nat>>, x: nat)
  {
    forall y :: multiset(fol)[y] == multiset(RegOf(reg, y))[x]
  }

  ghost predicate FollowersAt(s: State, x: nat)
  {
    && (Node(x, Go) in s.log && Node(x, Go) !in s.active ==> Fol(s, x) == [])
    && (Node(x, Go) !in s.log ==> FollowersComplete(Fol(s, x), s.reg, x))
  }

  ghost predicate ReleaseAt(len: nat, s: State, x: nat)
  {
    && (Node(x, Ret) in s.log && Node(x, Ret) !in s.active ==> Left(s, x) == [] && x in s.free)
    && (Node(x, Ret) !in s.log ==> Left(s, x) == Reg(s, x))
    && (forall y | y in Left(s, x) :: y < len)
    && (x in s.free ==> Node(x, Ret) in s.log)
  }

  /** What the run so far says about an event: its stages run in order, its followers are
      listed until its 'go', its references are held until its 'ret', then it is recycled. */
  ghost predicate RunAt(tr: seq<Hwe>, s: State, x: nat)
    requires Shape(tr, s) && x < |tr|
  {
    && (Node(x, Trace) in s.log <==> x < s.n)
    && (Node(x, Init) in s.log ==> Commited(s, x) && MissRef(s, x) == 0)
    && (Node(x, Go) in s.log ==> Done(s, Node(x, Init)))
    && (Node(x, Ret) in s.log ==> Done(s, Node(x, Go)) && MissFol(s, x) == 0)
    && FollowersAt(s, x)
    && ReleaseAt(|tr|, s, x)
  }

  ghost predicate Runs(tr: seq<Hwe>, s: State)
    requires Shape(tr, s)
  {
    forall x :: 0 <= x < |tr| ==> RunAt(tr, s, x)
  }

  // 'init' stages block only 'init' stages, the others never do.
  ghost predicate PtrOk(s: State, a: Node, p: Ptr)
  {
    a.ev < s.n && a.stage != Trace &&
    match p
    case Barrier(b) => b.ev < s.n && b.stage != Trace && (b.stage == Init <==> a.stage == Init)
    case Member(f) => a in PutsOf(s, f)
  }

  ghost predicate Kinds(s: State)
  {
    forall a, p :: p in Usr(s, a) ==> PtrOk(s, a, p)
  }

  // `p` may go unnoticed by later puts in `l`: its event put 'go' in the same fifo before.
  ghost predicate Shadowed(l: seq<Node>, p: Node)
  {
    p.stage == Ret && Node(p.ev, Go) in l
  }

  /** A fifo queue is the last put; it is null only when that put has run or is shadowed. */
  ghost predicate FifoAt(s: State, f: Fifo)
  {
    var l := PutsOf(s, f);
    && (f in s.puts ==> l != [])
    && (forall k :: 0 <= k < |l| ==> l[k].ev < s.n && l[k].stage != Trace && (f.InitFifo? <==> l[k].stage == Init))
    && (f in s.fifo ==> l != [] && s.fifo[f] == l[|l|-1])
    && (forall k :: 0 <= k < |l| && (l[k] !in s.log || (f in s.fifo && s.fifo[f].ev == l[k].ev)) ==>
       Member(f) in Usr(s, l[k]))
    && (l != [] && f !in s.fifo ==>
         l[|l|-1] in s.log || (Shadowed(l, l[|l|-1]) && Node(l[|l|-1].ev, Go) in s.log))
    && (forall k :: 0 < k < |l| ==> (l[k-1], l[k]) in s.links || Shadowed(l[..k-1], l[k-1]))
  }

  ghost predicate Consecutive(l: seq<Node>, p: Node, d: Node)
  {
    exists k :: 0 < k < |l| && l[k-1] == p && l[k] == d
  }

  ghost predicate InSomeFifo(puts: map<Fifo, seq<Node>>, p: Node, d: Node)
  {
    exists f :: Consecutive(PutsIn(puts, f), p, d)
  }

  /** A link is a pair of consecutive puts; its source blocks its target until it has run. */
  ghost predicate LinkOk(s: State, p: Node, d: Node)
  {
    && d.stage != Trace
    && (p in s.log || d in s.log || By(s, d)[p] > 0)
    && InSomeFifo(s.puts, p, d)
  }

  ghost predicate Fifos(s: State)
  {
    && (forall f :: FifoAt(s, f))
    && (forall p, d :: (p, d) in s.links ==> LinkOk(s, p, d))
    && BlockersLinked(s)
  }

  ghost predicate BlockersLinked(s: State)
  {
    forall p, d :: By(s, d)[p] > 0 ==> (p, d) in s.links
  }

  // The nodes that an 'init' callback puts in the fifo `k`.
  ghost function PutsBy(x: nat, puts: seq<Put>, k: nat): seq<Node>
  {
    if puts == [] then []
    else
      var p := puts[|puts|-1];
      PutsBy(x, puts[..|puts|-1], k) + (if p.fifo == k then [Node(x, p.stage)] else [])
  }

  // The puts in the fifo `k` that the 'init' callbacks of a history make.
  ghost function Script(tr: seq<Hwe>, log: seq<Node>, k: nat): seq<Node>
  {
    if log == [] then []
    else
      var d := log[|log|-1];
      Script(tr, log[..|log|-1], k) + (if d.stage == Init && d.ev < |tr| then PutsBy(d.ev, tr[d.ev].puts, k) else [])
  }

  /** The user fifos hold exactly the puts of the 'init' callbacks, in the order these ran. */
  ghost predicate UserPuts(tr: seq<Hwe>, puts: map<Fifo, seq<Node>>, log: seq<Node>)
  {
    forall k :: PutsIn(puts, UserFifo(k)) == Script(tr, log, k)
  }

  // The puts in the 'init' fifo of a component are its events in commit order.
  ghost predicate InitPuts(tr: seq<Hwe>, s: State)
    requires Shape(tr, s)
  {
    forall c :: PutsOf(s, InitFifo(c)) == CompNodes(tr, s.n, c)
  }

  /** `p` has to run before `d`. */
  ghost predicate IsPred(tr: seq<Hwe>, links: set<(Node, Node)>, p: Node, d: Node)
  {
    || (p, d) in links
    || (d.ev < |tr| &&
        match d.stage
        case Trace => p.stage == Trace && p.ev < d.ev
        case Init => p.stage == Trace && (p.ev == d.ev || p.ev in tr[d.ev].refs)
        case Go => p == Node(d.ev, Init) || (p.stage == Go && p.ev in tr[d.ev].refs)
        case Ret => p == Node(d.ev, Go) || (p.stage == Ret && p.ev < |tr| && d.ev in tr[p.ev].refs))
  }

  /** The log is a history in which every callback ran once, after all its predecessors. */
  ghost predicate Ordered(tr: seq<Hwe>, links: set<(Node, Node)>, log: seq<Node>)
  {
    && (forall i :: 0 <= i < |log| ==> log[i].ev < |tr|)
    && (forall i, j :: 0 <= i < j < |log| ==> log[i] != log[j])
    && (forall i, p :: 0 <= i < |log| && IsPred(tr, links, p, log[i]) ==> p in log[..i])
  }

  ghost predicate Before(log: seq<Node>, p: Node, d: Node)
  {
    exists i, j :: 0 <= i < j < |log| && log[i] == p && log[j] == d
  }

  ghost predicate NoDup(q: seq<nat>)
  {
    forall i, j :: 0 <= i < j < |q| ==> q[i] != q[j]
  }

  ghost predicate Inv(tr: seq<Hwe>, s: State)
  {
    InvCore(tr, s) && InitPuts(tr, s)
  }

  ghost predicate InvCore(tr: seq<Hwe>, s: State)
  {
    && Shape(tr, s)
    && Stages(s)
    && CrossUsr(s)
    && CrossRefs(s)
    && Events(tr, s)
    && Runs(tr, s)
    && Kinds(s)
    && Fifos(s)
    && Ordered(tr, s.links, s.log)
    && NoDup(s.free)
    && (forall x | x in s.free :: x < |tr|)
  }

  // ---------------------------------------------------------------------------------------------
  // Enabled stages, and what a nested check may change

  /** The guard of `check_init`, `check_go` or `check_ret` holds but the callback has not run. */
  ghost predicate Enabled(s: State, d: Node)
  {
    d !in s.log && d.ev < |s.ev| && Cnt(s, d) == 0 &&
    match d.stage
    case Trace => false
    case Init => Commited(s, d.ev) && MissRef(s, d.ev) == 0
    case Go => Done(s, Node(d.ev, Init))
    case Ret => Done(s, Node(d.ev, Go)) && MissFol(s, d.ev) == 0
  }

  ghost predicate Quiet(s: State)
  {
    s.active == {} && forall d :: !Enabled(s, d)
  }

  ghost predicate OnlyInit(active: set<Node>)
  {
    forall a | a in active :: a.stage == Init
  }

  /** What no check changes: references, and the lists of stages that had already run. */
  ghost predicate KeepsAt(s: State, t: State, x: nat)
  {
    && Commited(t, x) == Commited(s, x) && Missing(t, x) == Missing(s, x) && Pend(t, x) == Pend(s, x)
    && (Node(x, Ret) in s.log ==> Left(t, x) == Left(s, x) && (x in t.free <==> x in s.free))
    && ((Node(x, Go) in s.log || Node(x, Go) !in t.log) ==> Fol(t, x) == Fol(s, x))
  }

  ghost predicate Keeps(s: State, t: State)
  {
    && |t.ev| == |s.ev| && |t.bl| == |s.ev| && |s.bl| == |s.ev|
    && t.n == s.n && t.reg == s.reg
    && s.log <= t.log
    && (forall x :: 0 <= x < |s.ev| ==> KeepsAt(s, t, x))
    && (forall a :: a in s.log ==> Usr(t, a) == Usr(s, a))
    && (forall f :: PutsOf(s, f) <= PutsOf(t, f))
    && s.links <= t.links
  }

  // Nothing becomes enabled except possibly `d`.
  ghost predicate EnablesOnly(s: State, t: State, d: Node)
  {
    forall a :: Enabled(t, a) ==> Enabled(s, a) || a == d
  }

  // Nothing becomes enabled, and `d` is not enabled any more.
  ghost predicate Settles(s: State, t: State, d: Node)
  {
    forall a :: Enabled(t, a) ==> Enabled(s, a) && a != d
  }

  lemma KeepsTransitive(s: State, t: State, u: State)
    requires Keeps(s, t) && Keeps(t, u)
    ensures Keeps(s, u)
  {
    forall x | 0 <= x < |s.ev| ensures KeepsAt(s, u, x) {
      assert KeepsAt(s, t, x) && KeepsAt(t, u, x);
    }
    forall f ensures PutsOf(s, f) <= PutsOf(u, f) {
      assert PutsOf(s, f) <= PutsOf(t, f) <= PutsOf(u, f);
    }
  }
}
