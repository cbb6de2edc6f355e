/**
 What the accesses to one byte of memory say about its coherence under write-back caches.
 Everything here is read off the list of the accesses, oldest first, without any automaton;
 tool/sherlock/src/watson/watson_main.c keeps a few words for each byte instead.
 */
module CoherenceLog {

  // `coherence_event_t`
  datatype Kind = WriteReq | ReadReq | AllocReq | ModifyAck | WriteAck | ReadAck

  // A component number that a 32-bit set of caches has a bit for.
  type CacheId = i: nat | i < 32

  // `writer_t`: a cache, an instruction, and the memory orders before and after the access.
  datatype Access = Access(id: CacheId, pc: nat, pre: nat, pos: nat)

  datatype Entry = Entry(kind: Kind, access: Access)

  // A record of an access, or one cleared with zeros.
  datatype Record = Nobody | Of(access: Access)

  function Id(r: Record): CacheId { if r.Nobody? then 0 else r.access.id }

  function Pos(r: Record): nat { if r.Nobody? then 0 else r.access.pos }

  datatype Verdict = Fine | ModReadAck | ModReadReq | WriteReadAck | WriteFlush | Undefined

  datatype Warning = Quiet | ModReadAlloc | ModWrite

  // The last access of a kind, or -1.
  function LastOf(h: seq<Entry>, kind: Kind): (p: int)
    ensures -1 <= p < |h|
    ensures 0 <= p ==> h[p].kind == kind
    ensures forall k :: p < k < |h| ==> h[k].kind != kind
  {
    if |h| == 0 then -1
    else if h[|h| - 1].kind == kind then |h| - 1
    else LastOf(h[..|h| - 1], kind)
  }

  function LastModify(h: seq<Entry>): (p: int)
    ensures -1 <= p < |h|
  {
    LastOf(h, ModifyAck)
  }

  function LastWrite(h: seq<Entry>): (p: int)
    ensures -1 <= p < |h|
  {
    LastOf(h, WriteReq)
  }

  ghost predicate WriteBy(h: seq<Entry>, k: int, id: CacheId)
  {
    0 <= k < |h| && h[k].kind == WriteReq && h[k].access.id == id
  }

  // The cache that modified the byte last has written it to memory since.
  ghost predicate WrittenBack(h: seq<Entry>)
  {
    var q := LastModify(h);
    0 <= q && exists k :: q < k && WriteBy(h, k, h[q].access.id)
  }

  // The newest value is in the cache of the last modifier only.
  ghost predicate Modifying(h: seq<Entry>)
  {
    0 <= LastModify(h) && !WrittenBack(h)
  }

  predicate Fetch(kind: Kind) { kind == ReadReq || kind == AllocReq }

  ghost predicate FetchBy(h: seq<Entry>, k: int, id: CacheId)
  {
    0 <= k < |h| && Fetch(h[k].kind) && h[k].access.id == id
  }

  // The caches that may hold the value in memory: the last writer and those that fetched since.
  ghost predicate Sharer(h: seq<Entry>, id: CacheId)
  {
    var w := LastWrite(h);
    0 <= w && (h[w].access.id == id || exists k :: w < k && FetchBy(h, k, id))
  }

  // An access drops the reader on record: a modification of a byte that memory does not hold the
  // newest value of, or a write that reaches memory.
  ghost predicate Drops(h: seq<Entry>, e: Entry)
  {
    || (e.kind == ModifyAck && !WrittenBack(h))
    || (e.kind == WriteReq && WrittenBack(h + [e]))
  }

  // An access becomes the reader on record.
  ghost predicate Records(h: seq<Entry>, e: Entry)
  {
    || (e.kind == ReadAck && 0 <= LastModify(h))
    || (Fetch(e.kind) && WrittenBack(h))
  }

  ghost function LastReader(h: seq<Entry>): Record
  {
    if |h| == 0 then Nobody
    else
      var g, e := h[..|h| - 1], h[|h| - 1];
      if Drops(g, e) then Nobody else if Records(g, e) then Of(e.access) else LastReader(g)
  }

  predicate Before(a: Access, b: Access) { a.pos <= b.pre }

  // A violation is a verdict of its own only between ordered accesses.
  function Ordered(a: Access, b: Access, v: Verdict): Verdict { if Before(a, b) then v else Undefined }

  // The verdict on an access `e` that follows the coherent accesses `h`.
  ghost function Blame(h: seq<Entry>, e: Entry): Verdict
  {
    var q, w := LastModify(h), LastWrite(h);
    match e.kind
    case ReadAck =>
      if Modifying(h) && h[q].access.id != e.access.id then Ordered(h[q].access, e.access, ModReadAck)
      else if WrittenBack(h) && 0 <= w && !Sharer(h, e.access.id) then Ordered(h[w].access, e.access, WriteReadAck)
      else Fine
    case ReadReq =>
      if Modifying(h) then Ordered(h[q].access, e.access, ModReadReq) else Fine
    case ModifyAck =>
      if q < 0 then Fine
      else if Pos(LastReader(h)) > e.access.pre then Undefined
      else if Modifying(h) && h[q].access.id != e.access.id then Ordered(h[q].access, e.access, Fine)
      else if WrittenBack(h) && 0 <= w then Ordered(h[w].access, e.access, Fine)
      else Fine
    case WriteReq =>
      if Modifying(h) && h[q].access.id == e.access.id then Ordered(h[q].access, e.access, Fine)
      else if WrittenBack(h) && 0 <= w then
        Ordered(h[w].access, e.access, if Sharer(h, e.access.id) then Fine else WriteFlush)
      else Fine
    case _ => Fine
  }

  // The first verdict is the one that stays.
  ghost function VerdictOf(h: seq<Entry>): Verdict
  {
    if |h| == 0 then Fine
    else
      var g := h[..|h| - 1];
      if VerdictOf(g) != Fine then VerdictOf(g) else Blame(g, h[|h| - 1])
  }

  ghost function Warn(h: seq<Entry>, e: Entry): Warning
  {
    if !Modifying(h) then Quiet
    else if e.kind == AllocReq then ModReadAlloc
    else if e.kind == WriteReq && h[LastModify(h)].access.id != e.access.id then ModWrite
    else Quiet
  }

  // The first warning before any verdict is the one that stays.
  ghost function WarningOf(h: seq<Entry>): Warning
  {
    if |h| == 0 then Quiet
    else
      var g := h[..|h| - 1];
      if WarningOf(g) != Quiet || VerdictOf(g) != Fine then WarningOf(g) else Warn(g, h[|h| - 1])
  }

  // ---------------------------------------------------------------------------------------------
  // One more access

  lemma Front(h: seq<Entry>, e: Entry)
    ensures (h + [e])[..|h|] == h && (h + [e])[|h|] == e && |h + [e]| == |h| + 1
  {
  }

  lemma LastOfMore(h: seq<Entry>, e: Entry, kind: Kind)
    ensures LastOf(h + [e], kind) == if e.kind == kind then |h| else LastOf(h, kind)
  {
    Front(h, e);
  }

  lemma VerdictMore(h: seq<Entry>, e: Entry)
    ensures VerdictOf(h + [e]) == if VerdictOf(h) != Fine then VerdictOf(h) else Blame(h, e)
  {
    Front(h, e);
  }

  lemma WarningMore(h: seq<Entry>, e: Entry)
    ensures WarningOf(h + [e])
         == if WarningOf(h) != Quiet || VerdictOf(h) != Fine then WarningOf(h) else Warn(h, e)
  {
    Front(h, e);
  }

  lemma ReaderMore(h: seq<Entry>, e: Entry)
    ensures LastReader(h + [e])
         == if Drops(h, e) then Nobody else if Records(h, e) then Of(e.access) else LastReader(h)
  {
    Front(h, e);
  }

  lemma WrittenMore(h: seq<Entry>, e: Entry)
    ensures WrittenBack(h + [e])
         <==> e.kind != ModifyAck
              && (WrittenBack(h)
                  || (e.kind == WriteReq && 0 <= LastModify(h) && h[LastModify(h)].access.id == e.access.id))
  {
    var g := h + [e];
    LastOfMore(h, e, ModifyAck);
    var q := LastModify(h);
    if e.kind != ModifyAck && 0 <= q {
      var id := h[q].access.id;
      assert g[q] == h[q];
      forall k | 0 <= k < |h| ensures WriteBy(g, k, id) <==> WriteBy(h, k, id) {
        assert g[k] == h[k];
      }
      assert WriteBy(g, |h|, id) <==> e.kind == WriteReq && e.access.id == id;
      if WrittenBack(h) {
        var k :| q < k && WriteBy(h, k, id);
        assert WriteBy(g, k, id);
      }
    }
  }

  lemma SharerMore(h: seq<Entry>, e: Entry, id: CacheId)
    ensures e.kind == WriteReq ==> (Sharer(h + [e], id) <==> e.access.id == id)
    ensures e.kind != WriteReq && 0 <= LastWrite(h) ==>
              (Sharer(h + [e], id) <==> Sharer(h, id) || (Fetch(e.kind) && e.access.id == id))
  {
    var g := h + [e];
    LastOfMore(h, e, WriteReq);
    var w := LastWrite(h);
    if e.kind != WriteReq && 0 <= w {
      assert g[w] == h[w];
      forall k | 0 <= k < |h| ensures FetchBy(g, k, id) <==> FetchBy(h, k, id) {
        assert g[k] == h[k];
      }
      assert FetchBy(g, |h|, id) <==> Fetch(e.kind) && e.access.id == id;
      if exists k :: w < k && FetchBy(h, k, id) {
        var k :| w < k && FetchBy(h, k, id);
        assert FetchBy(g, k, id);
      }
    }
  }
}
