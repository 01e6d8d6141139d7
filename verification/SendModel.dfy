/**
 The send queue of a connection (`net/cort_tcp_ctrler.h`, `net/cort_tcp_ctrler.cpp`) on values: up to
 three buffers, some owned by the queue and some borrowed, of which the socket takes any number of
 bytes at a time.
 */
module SendModel {

  type Byte = x: int | 0 <= x < 256

  const QUEUE_SIZE: nat := 3
  const WEAK: nat := 0x8000_0000

  /** An address: a block of memory and an offset in it. */
  datatype Ptr = Null | At(block: nat, off: nat)

  /** A queued buffer. The tag of an owned one says how far its address has moved from the start of its block; that of
      a borrowed one has its highest bit set. */
  datatype Entry = Entry(base: Ptr, len: nat, tag: nat)
  {
    predicate Owned() {
      tag < WEAK
    }
  }

  /** The queue, the memory in use, the next block to be allocated, the addresses passed to `free`, the blocks that
      the queue allocated, the bytes taken by the socket, and those of all buffers queued. */
  datatype World = World(q: seq<Entry>, mem: map<nat, seq<Byte>>, next: nat, freed: seq<Ptr>, mallocs: set<nat>,
                         wire: seq<Byte>, accepted: seq<Byte>)

  // ----- Bytes -----

  predicate Readable(mem: map<nat, seq<Byte>>, p: Ptr, len: nat) {
    p.At? && p.block in mem && p.off + len <= |mem[p.block]|
  }

  function Bytes(mem: map<nat, seq<Byte>>, p: Ptr, len: nat): seq<Byte>
    requires Readable(mem, p, len)
  {
    mem[p.block][p.off..p.off + len]
  }

  ghost predicate AllReadable(mem: map<nat, seq<Byte>>, q: seq<Entry>) {
    forall i :: 0 <= i < |q| ==> Readable(mem, q[i].base, q[i].len)
  }

  /** The bytes still queued. */
  ghost function Stream(mem: map<nat, seq<Byte>>, q: seq<Entry>): seq<Byte>
    requires AllReadable(mem, q)
  {
    if q == [] then [] else Bytes(mem, q[0].base, q[0].len) + Stream(mem, q[1..])
  }

  ghost function Total(q: seq<Entry>): nat {
    if q == [] then 0 else q[0].len + Total(q[1..])
  }

  lemma {:induction false} StreamSize(mem: map<nat, seq<Byte>>, q: seq<Entry>)
    requires AllReadable(mem, q)
    ensures |Stream(mem, q)| == Total(q)
  {
    if q != [] {
      StreamSize(mem, q[1..]);
    }
  }

  lemma {:induction false} StreamSame(mem: map<nat, seq<Byte>>, mem': map<nat, seq<Byte>>, q: seq<Entry>)
    requires AllReadable(mem, q)
    requires forall i :: 0 <= i < |q| ==> q[i].base.block in mem' && mem'[q[i].base.block] == mem[q[i].base.block]
    ensures AllReadable(mem', q) && Stream(mem', q) == Stream(mem, q)
  {
    if q != [] {
      StreamSame(mem, mem', q[1..]);
    }
  }

  lemma {:induction false} StreamSnoc(mem: map<nat, seq<Byte>>, q: seq<Entry>, e: Entry)
    requires AllReadable(mem, q) && Readable(mem, e.base, e.len)
    ensures AllReadable(mem, q + [e]) && Stream(mem, q + [e]) == Stream(mem, q) + Bytes(mem, e.base, e.len)
  {
    if q != [] {
      assert (q + [e])[1..] == q[1..] + [e];
      StreamSnoc(mem, q[1..], e);
    } else {
      assert [e][1..] == [];
    }
  }

  // ----- The invariant -----

  /** A queued buffer lies in live memory. An owned one is a block the queue allocated, and its tag leads back to the
      start of the block; a borrowed one is not. */
  ghost predicate Sound(w: World, e: Entry) {
    Readable(w.mem, e.base, e.len)
    && (if e.Owned() then e.tag == e.base.off && e.tag + e.len < WEAK && e.base.block in w.mallocs
        else e.base.block !in w.mallocs && e.tag + e.len < 2 * WEAK)
  }

  ghost predicate OwnedApart(q: seq<Entry>) {
    forall i, j :: 0 <= i < j < |q| && q[i].Owned() && q[j].Owned() && q[i].base.At? && q[j].base.At?
      ==> q[i].base.block != q[j].base.block
  }

  /** Every allocation is either queued or was freed, once and at its start. */
  ghost predicate Balanced(w: World) {
    && (forall b :: b in w.mallocs <==> At(b, 0) in w.freed || Holds(w.q, b))
    && (forall p :: p in w.freed ==> p.At? && p.off == 0 && p.block in w.mallocs && p.block !in w.mem)
    && (forall i, j :: 0 <= i < j < |w.freed| ==> w.freed[i] != w.freed[j])
  }

  ghost predicate Holds(q: seq<Entry>, b: nat) {
    exists i :: 0 <= i < |q| && q[i].Owned() && q[i].base == At(b, q[i].tag)
  }

  ghost predicate Inv(w: World) {
    match w
    case World(q, mem, next, _, mallocs, wire, accepted) =>
      |q| <= QUEUE_SIZE && (forall i :: 0 <= i < |q| ==> Sound(w, q[i])) && OwnedApart(q) && Balanced(w)
      && (forall b :: b in mem || b in mallocs ==> b < next)
      && wire + Stream(mem, q) == accepted
  }

  // ----- Steps -----

  /** `free` of the block of an owned entry, at its address less its tag. */
  function Release(w: World, e: Entry): World
    requires e.base.At? && (e.Owned() ==> e.tag <= e.base.off)
  {
    if e.Owned() then w.(mem := w.mem - {e.base.block}, freed := w.freed + [At(e.base.block, e.base.off - e.tag)])
    else w
  }

  ghost predicate Tagged(e: Entry) {
    e.base.At? && (e.Owned() ==> e.tag <= e.base.off)
  }

  /** The first buffer has been sent in full. */
  ghost function Complete(w: World): World
    requires w.q != [] && Tagged(w.q[0]) && Readable(w.mem, w.q[0].base, w.q[0].len)
  {
    var e := w.q[0];
    Release(w.(q := w.q[1..], wire := w.wire + Bytes(w.mem, e.base, e.len)), e)
  }

  /** What is left of a buffer of which `n` bytes have been sent. */
  function Moved(e: Entry, n: nat): Entry
    requires e.base.At? && n <= e.len
  {
    Entry(At(e.base.block, e.base.off + n), e.len - n, e.tag + n)
  }

  /** The first `n` bytes of the first buffer have been sent. */
  ghost function Partial(w: World, n: nat): World
    requires w.q != [] && n < w.q[0].len && Readable(w.mem, w.q[0].base, w.q[0].len)
  {
    w.(q := [Moved(w.q[0], n)] + w.q[1..], wire := w.wire + Bytes(w.mem, w.q[0].base, n))
  }

  /** A buffer joins the queue. */
  ghost function Enqueue(w: World, e: Entry): World
    requires Readable(w.mem, e.base, e.len)
  {
    w.(q := w.q + [e], accepted := w.accepted + Bytes(w.mem, e.base, e.len))
  }

  /** `malloc` of a block that will hold `content`. */
  ghost function Allocate(w: World, content: seq<Byte>): World {
    w.(mem := w.mem[w.next := content], next := w.next + 1, mallocs := w.mallocs + {w.next})
  }

  /** The first buffer is given up; its bytes are no longer due. */
  ghost function Discard(w: World): World
    requires w.q != [] && Tagged(w.q[0]) && AllReadable(w.mem, w.q)
  {
    Release(w.(q := w.q[1..], accepted := w.wire + Stream(w.mem, w.q[1..])), w.q[0])
  }

  // ----- What each step keeps -----

  /** What freeing the first buffer leaves of the others. */
  lemma RestAfterRelease(w: World)
    requires Inv(w) && w.q != []
    ensures Tagged(w.q[0])
    ensures var v := Release(w.(q := w.q[1..]), w.q[0]);
      (forall i :: 0 <= i < |v.q| ==> Sound(v, v.q[i])) && OwnedApart(v.q)
      && Stream(v.mem, v.q) == Stream(w.mem, w.q[1..])
  {
    var e := w.q[0];
    var v := Release(w.(q := w.q[1..]), e);
    assert Sound(w, e);
    forall i | 0 <= i < |v.q| ensures Sound(v, v.q[i]) && v.q[i].base.block in v.mem {
      assert v.q[i] == w.q[i + 1] && Sound(w, w.q[i + 1]);
    }
    StreamSame(w.mem, v.mem, w.q[1..]);
  }

  lemma ReleaseBalanced(w: World)
    requires Inv(w) && w.q != [] && Tagged(w.q[0])
    ensures Balanced(Release(w.(q := w.q[1..]), w.q[0]))
  {
    var e := w.q[0];
    var v := Release(w.(q := w.q[1..]), e);
    assert Sound(w, e);
    if e.Owned() {
      assert Holds(w.q, e.base.block);
      assert At(e.base.block, 0) !in w.freed;
    }
    forall b ensures b in v.mallocs <==> At(b, 0) in v.freed || Holds(v.q, b) {
      HoldsRest(w.q, b);
    }
  }

  lemma HoldsRest(q: seq<Entry>, b: nat)
    requires q != []
    ensures Holds(q, b) <==> (q[0].Owned() && q[0].base == At(b, q[0].tag)) || Holds(q[1..], b)
  {
    if Holds(q, b) {
      var i :| 0 <= i < |q| && q[i].Owned() && q[i].base == At(b, q[i].tag);
      if i > 0 { assert q[1..][i - 1] == q[i]; }
    }
    if Holds(q[1..], b) {
      var i :| 0 <= i < |q[1..]| && q[1..][i].Owned() && q[1..][i].base == At(b, q[1..][i].tag);
      assert q[i + 1] == q[1..][i];
    }
  }

  lemma CompleteKeeps(w: World)
    requires Inv(w) && w.q != []
    ensures Tagged(w.q[0]) && Readable(w.mem, w.q[0].base, w.q[0].len) && Inv(Complete(w))
  {
    assert Sound(w, w.q[0]);
    RestAfterRelease(w);
    ReleaseBalanced(w);
    var v := Complete(w);
    var u := Release(w.(q := w.q[1..]), w.q[0]);
    forall i | 0 <= i < |v.q| ensures Sound(v, v.q[i]) { assert Sound(u, u.q[i]); }
    var first, rest := Bytes(w.mem, w.q[0].base, w.q[0].len), Stream(w.mem, w.q[1..]);
    assert (w.wire + first) + rest == w.wire + (first + rest);
  }

  lemma PartialKeeps(w: World, n: nat)
    requires Inv(w) && w.q != [] && n < w.q[0].len
    ensures Readable(w.mem, w.q[0].base, w.q[0].len) && Inv(Partial(w, n))
  {
    var e := w.q[0];
    assert Sound(w, e);
    var v := Partial(w, n);
    assert v.q[1..] == w.q[1..];
    forall i | 0 <= i < |v.q| ensures Sound(v, v.q[i]) {
      if i > 0 { assert Sound(w, w.q[i]) && v.q[i] == w.q[i]; }
    }
    PartialBalanced(w, n);
    PartialStream(w.mem, w.q, n, w.wire);
  }

  lemma PartialStream(mem: map<nat, seq<Byte>>, q: seq<Entry>, n: nat, wire: seq<Byte>)
    requires AllReadable(mem, q) && q != [] && n < q[0].len
    ensures var r := [Moved(q[0], n)] + q[1..];
      AllReadable(mem, r) && wire + Bytes(mem, q[0].base, n) + Stream(mem, r) == wire + Stream(mem, q)
  {
    var e, r := q[0], [Moved(q[0], n)] + q[1..];
    assert r[1..] == q[1..];
    var first, rest, others := Bytes(mem, e.base, n), Bytes(mem, r[0].base, r[0].len), Stream(mem, q[1..]);
    assert Bytes(mem, e.base, e.len) == first + rest;
    assert (wire + first) + (rest + others) == wire + ((first + rest) + others);
  }

  lemma PartialBalanced(w: World, n: nat)
    requires Inv(w) && w.q != [] && n < w.q[0].len && Readable(w.mem, w.q[0].base, w.q[0].len)
    ensures Balanced(Partial(w, n))
  {
    var v := Partial(w, n);
    assert Sound(w, w.q[0]);
    assert v.q[1..] == w.q[1..];
    forall b ensures b in v.mallocs <==> At(b, 0) in v.freed || Holds(v.q, b) {
      HoldsRest(w.q, b);
      HoldsRest(v.q, b);
    }
  }

  lemma EnqueueKeeps(w: World, e: Entry)
    requires Inv(w) && |w.q| < QUEUE_SIZE && Sound(w, e) && !e.Owned()
    ensures Inv(Enqueue(w, e))
  {
    var v := Enqueue(w, e);
    StreamSnoc(w.mem, w.q, e);
    forall i | 0 <= i < |v.q| ensures Sound(v, v.q[i]) {
      if i < |w.q| { assert Sound(w, w.q[i]); }
    }
    forall b ensures Holds(v.q, b) <==> Holds(w.q, b) {
      HoldsMore(w.q, e, b);
    }
    var queued, added := Stream(w.mem, w.q), Bytes(w.mem, e.base, e.len);
    assert (w.wire + queued) + added == w.wire + (queued + added);
  }

  lemma HoldsMore(q: seq<Entry>, e: Entry, b: nat)
    ensures Holds(q + [e], b) <==> Holds(q, b) || (e.Owned() && e.base == At(b, e.tag))
  {
    if Holds(q, b) {
      var i :| 0 <= i < |q| && q[i].Owned() && q[i].base == At(b, q[i].tag);
      assert (q + [e])[i] == q[i];
    }
    if e.Owned() && e.base == At(b, e.tag) {
      assert (q + [e])[|q|] == e;
    }
  }

  /** A new block with the content given by the caller joins the queue. */
  ghost function EnqueueNew(w: World, content: seq<Byte>): World {
    Enqueue(Allocate(w, content), Entry(At(w.next, 0), |content|, 0))
  }

  lemma EnqueueNewKeeps(w: World, content: seq<Byte>)
    requires Inv(w) && |w.q| < QUEUE_SIZE && |content| < WEAK
    ensures Inv(EnqueueNew(w, content)) && EnqueueNew(w, content).accepted == w.accepted + content
  {
    var u, e := Allocate(w, content), Entry(At(w.next, 0), |content|, 0);
    var v := EnqueueNew(w, content);
    forall i | 0 <= i < |w.q|
      ensures Sound(v, w.q[i]) && w.q[i].base.block in u.mem && u.mem[w.q[i].base.block] == w.mem[w.q[i].base.block]
    {
      assert Sound(w, w.q[i]);
    }
    EnqueueNewStream(w.mem, u.mem, w.q, w.next, content, w.wire);
    EnqueueNewBalanced(w, content);
  }

  lemma EnqueueNewStream(mem: map<nat, seq<Byte>>, mem': map<nat, seq<Byte>>, q: seq<Entry>, b: nat, content: seq<Byte>,
      wire: seq<Byte>)
    requires AllReadable(mem, q) && b in mem' && mem'[b] == content
    requires forall i :: 0 <= i < |q| ==> q[i].base.block in mem' && mem'[q[i].base.block] == mem[q[i].base.block]
    ensures var r := q + [Entry(At(b, 0), |content|, 0)];
      AllReadable(mem', r) && wire + Stream(mem', r) == (wire + Stream(mem, q)) + content
    ensures Bytes(mem', At(b, 0), |content|) == content
  {
    var e := Entry(At(b, 0), |content|, 0);
    StreamSame(mem, mem', q);
    StreamSnoc(mem', q, e);
    assert Bytes(mem', e.base, e.len) == content;
    assert (wire + Stream(mem, q)) + content == wire + (Stream(mem, q) + content);
  }

  lemma EnqueueNewBalanced(w: World, content: seq<Byte>)
    requires Inv(w)
    ensures Balanced(EnqueueNew(w, content))
  {
    var v := EnqueueNew(w, content);
    forall b ensures b in v.mallocs <==> At(b, 0) in v.freed || Holds(v.q, b) {
      HoldsMore(w.q, Entry(At(w.next, 0), |content|, 0), b);
    }
  }

  lemma DiscardKeeps(w: World)
    requires Inv(w) && w.q != []
    ensures Tagged(w.q[0]) && Inv(Discard(w))
  {
    assert Sound(w, w.q[0]);
    RestAfterRelease(w);
    ReleaseBalanced(w);
    var v := Discard(w);
    var u := Release(w.(q := w.q[1..]), w.q[0]);
    forall i | 0 <= i < |v.q| ensures Sound(v, v.q[i]) { assert Sound(u, u.q[i]); }
  }

  // ----- A whole write -----

  /** The socket took `n` bytes: full buffers go, the first other one moves to the front. */
  ghost function Sent(w: World, n: nat): World
    requires Inv(w)
    decreases |w.q|
  {
    if w.q == [] then w
    else if n >= w.q[0].len then CompleteKeeps(w); Sent(Complete(w), n - w.q[0].len)
    else PartialKeeps(w, n); Partial(w, n)
  }

  lemma SentStep(w: World, n: nat)
    requires Inv(w) && w.q != [] && n <= Total(w.q)
    ensures Tagged(w.q[0]) && Readable(w.mem, w.q[0].base, w.q[0].len)
    ensures n >= w.q[0].len ==>
      Inv(Complete(w)) && Complete(w).q == w.q[1..] && Sent(w, n) == Sent(Complete(w), n - w.q[0].len)
    ensures n < w.q[0].len ==> Inv(Partial(w, n)) && Sent(w, n) == Partial(w, n)
  {
    CompleteKeeps(w);
    if n < w.q[0].len {
      PartialKeeps(w, n);
    }
  }

  /** Exactly the first `n` bytes of the queue go to the wire, and the queue is empty only if that was all of it. */
  lemma {:induction false} SentKeeps(w: World, n: nat)
    requires Inv(w) && n <= Total(w.q)
    ensures Inv(Sent(w, n)) && Sent(w, n).accepted == w.accepted && Sent(w, n).mallocs == w.mallocs
    ensures |Sent(w, n).wire| == |w.wire| + n
    ensures Sent(w, n).q == [] <==> n == Total(w.q)
    decreases |w.q|
  {
    if w.q != [] {
      if n >= w.q[0].len {
        CompleteKeeps(w);
        SentKeeps(Complete(w), n - w.q[0].len);
      } else {
        PartialKeeps(w, n);
        StreamSize(w.mem, w.q);
      }
    }
  }

  /** What the socket has seen is always what was queued first. */
  lemma WireIsPrefix(w: World, n: nat)
    requires Inv(w) && n <= Total(w.q)
    ensures |w.wire| + n <= |w.accepted| && Sent(w, n).wire == w.accepted[..|w.wire| + n]
  {
    SentKeeps(w, n);
    StreamSize(w.mem, w.q);
  }

  /** `clear`: all buffers are given up. */
  ghost function Clear(w: World): World
    requires Inv(w)
    decreases |w.q|
  {
    if w.q == [] then w else DiscardKeeps(w); Clear(Discard(w))
  }

  /** After `clear` every block the queue ever allocated has been freed exactly once, at its start, and no other. */
  lemma {:induction false} ClearFreesAll(w: World)
    requires Inv(w)
    ensures Inv(Clear(w)) && Clear(w).q == [] && Clear(w).accepted == w.wire == Clear(w).wire
    ensures Clear(w).mallocs == w.mallocs
    ensures forall p :: p in Clear(w).freed <==> p.At? && p.off == 0 && p.block in w.mallocs
    decreases |w.q|
  {
    if w.q != [] {
      DiscardKeeps(w);
      ClearFreesAll(Discard(w));
    } else {
      forall b ensures !Holds(w.q, b) {}
    }
  }

  // ----- Runs -----

  /** What can happen to the queue: a borrowed buffer, a new block with its content, a write of which the socket takes
      `n` bytes, a write that would block or fails, `clear`. */
  datatype Op = Borrow(src: Ptr, size: nat) | New(content: seq<Byte>) | Write(n: nat) | NoWrite | ClearAll

  /** The caller keeps borrowed memory alive and does not borrow what the queue owns; the socket takes no more than it
      is given. */
  ghost predicate Legal(w: World, op: Op) {
    match op
    case Borrow(src, size) => size < WEAK && (src.At? ==> Readable(w.mem, src, size) && src.block !in w.mallocs)
    case New(content) => |content| < WEAK
    case Write(n) => n <= Total(w.q)
    case _ => true
  }

  /** A full queue takes no further buffer, and no queue takes the null address. */
  ghost function Do(w: World, op: Op): World
    requires Inv(w) && Legal(w, op)
  {
    match op
    case Borrow(src, size) => if |w.q| == QUEUE_SIZE || src.Null? then w else Enqueue(w, Entry(src, size, WEAK))
    case New(content) => if |w.q| == QUEUE_SIZE then w else EnqueueNew(w, content)
    case Write(n) => Sent(w, n)
    case NoWrite => w
    case ClearAll => Clear(w)
  }

  lemma DoKeeps(w: World, op: Op)
    requires Inv(w) && Legal(w, op)
    ensures Inv(Do(w, op))
  {
    match op
    case Borrow(src, size) =>
      if |w.q| < QUEUE_SIZE && src.At? {
        EnqueueKeeps(w, Entry(src, size, WEAK));
      }
    case New(content) =>
      if |w.q| < QUEUE_SIZE {
        EnqueueNewKeeps(w, content);
      }
    case Write(n) => SentKeeps(w, n);
    case ClearAll => ClearFreesAll(w);
    case NoWrite =>
  }

  ghost predicate LegalRun(w: World, ops: seq<Op>)
    requires Inv(w)
    decreases |ops|
  {
    ops == [] || (Legal(w, ops[0]) && (DoKeeps(w, ops[0]); LegalRun(Do(w, ops[0]), ops[1..])))
  }

  ghost function Run(w: World, ops: seq<Op>): World
    requires Inv(w) && LegalRun(w, ops)
    decreases |ops|
  {
    if ops == [] then w else DoKeeps(w, ops[0]); Run(Do(w, ops[0]), ops[1..])
  }

  /** The bytes of the buffer that `op` adds to the queue, if it adds one. */
  ghost function Adds(w: World, op: Op): seq<Byte>
    requires Legal(w, op)
  {
    if |w.q| == QUEUE_SIZE then []
    else if op.New? then op.content
    else if op.Borrow? && op.src.At? then Bytes(w.mem, op.src, op.size)
    else []
  }

  /** The bytes of all buffers that a run adds to the queue, in order. */
  ghost function AllAdded(w: World, ops: seq<Op>): seq<Byte>
    requires Inv(w) && LegalRun(w, ops)
    decreases |ops|
  {
    if ops == [] then [] else DoKeeps(w, ops[0]); Adds(w, ops[0]) + AllAdded(Do(w, ops[0]), ops[1..])
  }

  lemma DoAccepts(w: World, op: Op)
    requires Inv(w) && Legal(w, op) && !op.ClearAll?
    ensures Do(w, op).accepted == w.accepted + Adds(w, op)
  {
    match op
    case New(content) =>
      if |w.q| < QUEUE_SIZE {
        EnqueueNewKeeps(w, content);
      }
    case Write(n) => SentKeeps(w, n);
    case _ =>
  }

  predicate NeverClears(ops: seq<Op>) {
    ops == [] || (!ops[0].ClearAll? && NeverClears(ops[1..]))
  }

  lemma AppendTwice(a: seq<Byte>, b: seq<Byte>, c: seq<Byte>)
    ensures (a + b) + c == a + (b + c)
  {
  }

  /** What the queue accounts for in a run without `clear` are the buffers that were added. */
  lemma {:induction false} AcceptedIsAdded(w: World, ops: seq<Op>)
    requires Inv(w) && LegalRun(w, ops) && NeverClears(ops)
    ensures Run(w, ops).accepted == w.accepted + AllAdded(w, ops)
    decreases |ops|
  {
    if ops != [] {
      DoKeeps(w, ops[0]);
      DoAccepts(w, ops[0]);
      AcceptedIsAdded(Do(w, ops[0]), ops[1..]);
      AppendTwice(w.accepted, Adds(w, ops[0]), AllAdded(Do(w, ops[0]), ops[1..]));
    }
  }

  /** Every run without `clear` that starts with an empty queue: the bytes on the wire followed by those still queued
      are those of the buffers added, in order. */
  lemma RunConserves(w: World, ops: seq<Op>)
    requires Inv(w) && w.q == [] && w.wire == [] && LegalRun(w, ops) && NeverClears(ops)
    ensures var v := Run(w, ops); AllReadable(v.mem, v.q) && v.wire + Stream(v.mem, v.q) == AllAdded(w, ops)
  {
    RunKeeps(w, ops);
    AcceptedIsAdded(w, ops);
  }

  /** A `clear` gives up what is queued; after it the same holds for what is added from then on. */
  lemma ClearConserves(w: World, ops: seq<Op>)
    requires Inv(w) && Inv(Clear(w)) && LegalRun(Clear(w), ops) && NeverClears(ops)
    ensures var v := Run(Clear(w), ops);
      AllReadable(v.mem, v.q) && v.wire + Stream(v.mem, v.q) == w.wire + AllAdded(Clear(w), ops)
  {
    ClearFreesAll(w);
    RunKeeps(Clear(w), ops);
    AcceptedIsAdded(Clear(w), ops);
  }

  /** In every run, clears included, no block is freed twice, inside, or without being owned, and the destructor frees
      all that is left. */
  lemma {:induction false} RunKeeps(w: World, ops: seq<Op>)
    requires Inv(w) && LegalRun(w, ops)
    ensures Inv(Run(w, ops))
    ensures var v := Clear(Run(w, ops));
      forall p :: p in v.freed <==> p.At? && p.off == 0 && p.block in Run(w, ops).mallocs
    ensures var v := Clear(Run(w, ops)); forall i, j :: 0 <= i < j < |v.freed| ==> v.freed[i] != v.freed[j]
    decreases |ops|
  {
    if ops == [] {
      ClearFreesAll(w);
    } else {
      DoKeeps(w, ops[0]);
      RunKeeps(Do(w, ops[0]), ops[1..]);
    }
  }
}
