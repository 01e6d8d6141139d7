/**
 `cort_pod_queue` of `cort_util.h`: a ring buffer whose indices wrap without a branch and which
 grows by half, relocating one of its two segments.
 */
module RingQueue {

  // ----- CORT_MOD on 64-bit words -----

  const WORD: nat := 0x1_0000_0000_0000_0000
  const HALF: nat := 0x8000_0000_0000_0000

  function Sub(a: nat, b: nat): (r: nat)
    requires a < WORD && b < WORD
    ensures r < WORD
  {
    if a >= b then a - b else a + WORD - b
  }

  /** Bitwise and. */
  function And(a: nat, b: nat): (r: nat)
    ensures r <= a
  {
    if a == 0 || b == 0 then 0 else 2 * And(a / 2, b / 2) + if a % 2 == 1 && b % 2 == 1 then 1 else 0
  }

  function Pow2(k: nat): nat {
    if k == 0 then 1 else 2 * Pow2(k - 1)
  }

  lemma {:induction false} Pow2Byte(k: nat)
    ensures Pow2(k + 8) == 256 * Pow2(k)
  {
    assert Pow2(k + 4) == 2 * Pow2(k + 3) == 4 * Pow2(k + 2) == 8 * Pow2(k + 1) == 16 * Pow2(k);
    assert Pow2(k + 8) == 2 * Pow2(k + 7) == 4 * Pow2(k + 6) == 8 * Pow2(k + 5) == 16 * Pow2(k + 4);
  }

  lemma WordIsPow2()
    ensures Pow2(64) == WORD
  {
    Pow2Byte(0);
    Pow2Byte(8);
    Pow2Byte(16);
    Pow2Byte(24);
    Pow2Byte(32);
    Pow2Byte(40);
    Pow2Byte(48);
    Pow2Byte(56);
  }

  lemma {:induction false} AndOnes(a: nat, k: nat)
    requires a < Pow2(k)
    ensures And(a, Pow2(k) - 1) == a
  {
    if a > 0 {
      var p := Pow2(k - 1);
      var ones := 2 * p - 1;
      assert Pow2(k) - 1 == ones && ones / 2 == p - 1 && ones % 2 == 1;
      AndOnes(a / 2, k - 1);
      assert a == 2 * (a / 2) + a % 2;
    }
  }

  /** `i -= capacity & -((capacity - i - 1) >> 63)`, all in unsigned words. */
  function CortMod(i: nat, capacity: nat): (r: nat)
    requires i < WORD && capacity < WORD
  {
    Sub(i, And(capacity, Sub(0, Sub(Sub(capacity, i), 1) / HALF)))
  }

  /** The expression subtracts the capacity exactly once an index has passed the end. */
  lemma CortModWraps(i: nat, capacity: nat)
    requires 0 < capacity <= HALF && i < 2 * capacity
    ensures CortMod(i, capacity) == if i < capacity then i else i - capacity
  {
    if i < capacity {
      assert Sub(Sub(capacity, i), 1) / HALF == 0;
    } else {
      assert Sub(Sub(capacity, i), 1) / HALF == 1;
      WordIsPow2();
      AndOnes(capacity, 64);
    }
  }

  /** For every index a ring of up to 2^63 slots can produce, that is the remainder. */
  lemma CortModIsRemainder(i: nat, capacity: nat)
    requires 0 < capacity <= HALF && i < 2 * capacity
    ensures CortMod(i, capacity) == i % capacity
  {
    CortModWraps(i, capacity);
    RemainderOnce(i, capacity);
  }

  lemma RemainderOnce(i: nat, c: nat)
    requires 0 < c && i < 2 * c
    ensures i % c == if i < c then i else i - c
  {
    var q, r := i / c, i % c;
    assert i == q * c + r && 0 <= r < c;
    assert q < 2;
  }

  /** CORT_MOD, by what `CortModWraps` says of it. */
  function Wrap(i: nat, capacity: nat): (r: nat)
    requires 0 < capacity <= HALF && i < 2 * capacity
    ensures r == (if i < capacity then i else i - capacity) < capacity
  {
    CortModWraps(i, capacity);
    CortMod(i, capacity)
  }

  // ----- What a plain sequence does -----

  datatype Op<T> = PushOp(x: T) | PopOp | FrontOp | GetOp(i: nat)

  /** What callers of the queue respect: nothing is taken from or read beyond the end of a queue. */
  predicate Legal<T>(s: seq<T>, op: Op<T>) {
    match op
    case PushOp(x) => true
    case PopOp => s != []
    case FrontOp => s != []
    case GetOp(i) => i < |s|
  }

  function After<T>(s: seq<T>, op: Op<T>): seq<T>
    requires Legal(s, op)
  {
    match op
    case PushOp(x) => s + [x]
    case PopOp => s[1..]
    case _ => s
  }

  function Shown<T>(s: seq<T>, op: Op<T>): seq<T>
    requires Legal(s, op)
  {
    match op
    case FrontOp => [s[0]]
    case GetOp(i) => [s[i]]
    case _ => []
  }

  predicate LegalRun<T>(s: seq<T>, ops: seq<Op<T>>)
    decreases |ops|
  {
    ops == [] || (Legal(s, ops[0]) && LegalRun(After(s, ops[0]), ops[1..]))
  }

  function SeqRun<T>(s: seq<T>, ops: seq<Op<T>>): seq<T>
    requires LegalRun(s, ops)
    decreases |ops|
  {
    if ops == [] then [] else Shown(s, ops[0]) + SeqRun(After(s, ops[0]), ops[1..])
  }

  function Max(a: nat, b: nat): nat {
    if a >= b then a else b
  }

  /** The largest size the sequence reaches. */
  function Peak<T>(s: seq<T>, ops: seq<Op<T>>): nat
    requires LegalRun(s, ops)
    decreases |ops|
  {
    if ops == [] then |s| else Max(|s|, Peak(After(s, ops[0]), ops[1..]))
  }

  // ----- The ring -----

  /** `memcpy` of `n` elements inside one buffer; the ranges must lie inside it and must not overlap. */
  method Memcpy<T>(a: array<T>, dst: nat, src: nat, n: nat)
    requires dst + n <= a.Length && src + n <= a.Length && (dst + n <= src || src + n <= dst)
    modifies a
    ensures a[..] == old(a[..dst] + a[src..src + n] + a[dst + n..])
  {
    forall i | 0 <= i < n {
      a[dst + i] := a[src + i];
    }
  }

  /** `realloc`: the contents move, the rest of the new buffer is arbitrary. */
  method Realloc<T(0)>(a: array<T>, n: nat) returns (b: array<T>)
    requires a.Length <= n
    ensures fresh(b) && b.Length == n && b[..a.Length] == a[..]
  {
    b := new T[n];
    forall i | 0 <= i < a.Length {
      b[i] := a[i];
    }
  }

  /** The elements of a ring from front to back. */
  function Unrolled<T>(buf: seq<T>, begin: nat, size: nat): (s: seq<T>)
    requires begin < |buf| && size <= |buf|
    ensures |s| == size
  {
    if begin + size <= |buf| then buf[begin..begin + size] else buf[begin..] + buf[..begin + size - |buf|]
  }

  /** The segment at the end is copied to the new end. */
  lemma GrownUp<T>(was: seq<T>, pre: seq<T>, begin: nat, delta: nat)
    requires 0 < begin < |was| && delta < begin && |was| <= begin + delta && |pre| == |was| + delta
    requires pre[..|was|] == was
    ensures var post := pre[..delta + begin] + pre[begin..|was|] + pre[delta + |was|..];
      |post| == |pre| && Unrolled(post, begin + delta, |was|) == Unrolled(was, begin, |was|)
  {
    var post := pre[..delta + begin] + pre[begin..|was|] + pre[delta + |was|..];
    assert post[begin + delta..] == was[begin..];
    assert post[..begin] == was[..begin];
  }

  /** The segment at the start is copied behind the old end. */
  lemma GrownOver<T>(was: seq<T>, pre: seq<T>, begin: nat, delta: nat)
    requires begin < |was| && begin <= delta && |pre| == |was| + delta && pre[..|was|] == was
    ensures var post := pre[..|was|] + pre[..begin] + pre[|was| + begin..];
      |post| == |pre| && Unrolled(post, begin, |was|) == Unrolled(was, begin, |was|)
  {
    var post := pre[..|was|] + pre[..begin] + pre[|was| + begin..];
    assert post[begin..begin + |was|] == was[begin..] + was[..begin];
  }

  /** Writing behind the last element. */
  lemma PutUnrolled<T>(buf: seq<T>, begin: nat, size: nat, x: T)
    requires begin < |buf| && size < |buf|
    ensures var i := if begin + size < |buf| then begin + size else begin + size - |buf|;
      Unrolled(buf[i := x], begin, size + 1) == Unrolled(buf, begin, size) + [x]
  {
  }

  lemma RunStep<T>(s: seq<T>, ops: seq<Op<T>>, i: nat)
    requires i < |ops| && LegalRun(s, ops[i..])
    ensures Legal(s, ops[i]) && LegalRun(After(s, ops[i]), ops[i + 1..])
    ensures SeqRun(s, ops[i..]) == Shown(s, ops[i]) + SeqRun(After(s, ops[i]), ops[i + 1..])
    ensures Peak(s, ops[i..]) == Max(|s|, Peak(After(s, ops[i]), ops[i + 1..]))
  {
    assert ops[i..][0] == ops[i] && ops[i..][1..] == ops[i + 1..];
  }

  /** Relocates the shorter way round after growth by `delta`; also returns the number of elements copied. */
  method Relocate<T>(buf: array<T>, begin: nat, capacity: nat, delta: nat, ghost was: seq<T>) returns (begin': nat,
      count: nat)
    requires begin < capacity == |was| && capacity <= 2 * delta + 1 && delta <= capacity
    requires buf.Length == capacity + delta && buf[..capacity] == was
    modifies buf
    ensures begin' < buf.Length && Unrolled(buf[..], begin', capacity) == Unrolled(was, begin, capacity)
    ensures count <= delta
  {
    ghost var pre := buf[..];
    assert pre[..capacity] == was;
    if begin > delta {
      GrownUp(was, pre, begin, delta);
      Memcpy(buf, delta + begin, begin, capacity - begin);
      return begin + delta, capacity - begin;
    } else {
      GrownOver(was, pre, begin, delta);
      Memcpy(buf, capacity, 0, begin);
      return begin, begin;
    }
  }

  class PodQueue<T(0)> {
    var ptr: array<T>
    var theSize: nat
    var theCapacity: nat
    var theBegin: nat
    ghost const initial: nat  // the capacity asked for
    ghost var moved: nat      // elements relocated by memcpy so far
    ghost var peak: nat       // largest size so far

    ghost predicate Valid()
      reads this
    {
      0 < theCapacity == ptr.Length <= HALF && theBegin < theCapacity && theSize <= theCapacity
      && theSize <= peak <= theCapacity && moved + initial <= theCapacity
      && (theCapacity <= initial || 2 * theCapacity <= 3 * peak)
    }

    ghost function Contents(): (s: seq<T>)
      requires Valid()
      reads this, ptr
      ensures |s| == theSize
    {
      Unrolled(ptr[..], theBegin, theSize)
    }

    constructor (capacity: nat)
      requires 0 < capacity <= HALF
      ensures Valid() && Contents() == [] && fresh(ptr) && initial == theCapacity == capacity && moved == 0 && peak == 0
    {
      theSize, theCapacity, theBegin := 0, capacity, 0;
      ptr := new T[capacity];
      initial, moved, peak := capacity, 0, 0;
    }

    /** `operator[]`. */
    method Get(offset: nat) returns (x: T)
      requires Valid() && offset < theSize
      ensures x == Contents()[offset]
    {
      x := ptr[Wrap(theBegin + offset, theCapacity)];
    }

    method Front() returns (x: T)
      requires Valid() && 0 < theSize
      ensures x == Contents()[0]
    {
      x := ptr[theBegin];
    }

    method Pop()
      requires Valid() && 0 < theSize
      modifies this`theSize, this`theBegin
      ensures Valid() && Contents() == old(Contents())[1..]
    {
      theSize := theSize - 1;
      theBegin := Wrap(theBegin + 1, theCapacity);
    }

    /** Growth of a full queue by half. */
    method Grow()
      requires Valid() && theSize == theCapacity && theCapacity + theCapacity / 2 <= HALF
      modifies this`ptr, this`theBegin, this`theCapacity, this`moved
      ensures Valid() && fresh(ptr) && Contents() == old(Contents())
      ensures theCapacity == old(theCapacity) + old(theCapacity) / 2 && moved <= old(moved) + old(theCapacity) / 2
    {
      var capacityDelta := theCapacity / 2;
      var bigger := Realloc(ptr, theCapacity + capacityDelta);
      var begin, count := Relocate(bigger, theBegin, theCapacity, capacityDelta, ptr[..]);
      moved := moved + count;
      ptr, theBegin, theCapacity := bigger, begin, theCapacity + capacityDelta;
    }

    /** A queue that was asked for with one slot cannot grow: the second element takes the place of the first. */
    method Push(x: T)
      requires Valid() && (theSize == theCapacity ==> theCapacity + theCapacity / 2 <= HALF)
      modifies this, ptr
      ensures ptr == old(ptr) || fresh(ptr)
      ensures old(theSize == theCapacity == 1) ==> theSize == 2 && theCapacity == 1 && ptr[..] == [x]
      ensures !old(theSize == theCapacity == 1) ==> Valid() && Contents() == old(Contents()) + [x]
      ensures peak == if old(peak) >= theSize then old(peak) else theSize
    {
      if theSize == theCapacity {
        Grow();
      }
      PutLast(x);
    }

    method PutLast(x: T)
      requires Valid()
      modifies this`theSize, this`peak, ptr
      ensures theSize == old(theSize) + 1 && peak == if old(peak) >= theSize then old(peak) else theSize
      ensures if old(theSize) < theCapacity then Valid() && Contents() == old(Contents()) + [x] else ptr[theBegin] == x
    {
      ghost var n := theSize;
      var i := Wrap(theBegin + theSize, theCapacity);
      theSize := theSize + 1;
      peak := if theSize > peak then theSize else peak;
      WriteAt(i, x, n);
    }

    /** The assignment to the slot behind the `n` elements, if there is one. */
    method WriteAt(i: nat, x: T, ghost n: nat)
      requires theCapacity == ptr.Length && theBegin < theCapacity && n <= theCapacity && i < theCapacity
      requires i == if theBegin + n < theCapacity then theBegin + n else theBegin + n - theCapacity
      modifies ptr
      ensures ptr[i] == x
      ensures n < theCapacity ==> Unrolled(ptr[..], theBegin, n + 1) == Unrolled(old(ptr[..]), theBegin, n) + [x]
    {
      ghost var was := ptr[..];
      ptr[i] := x;
      assert ptr[..] == was[i := x];
      if n < theCapacity {
        PutUnrolled(was, theBegin, n, x);
      }
    }

    method Perform(op: Op<T>) returns (shown: seq<T>)
      requires Valid() && 2 <= initial && Legal(Contents(), op)
      requires (theSize == theCapacity ==> theCapacity + theCapacity / 2 <= HALF)
      modifies this, ptr
      ensures Valid() && (ptr == old(ptr) || fresh(ptr))
      ensures Contents() == After(old(Contents()), op) && shown == Shown(old(Contents()), op)
      ensures peak == Max(old(peak), theSize)
    {
      shown := [];
      match op
      case PushOp(x) => Push(x);
      case PopOp => Pop();
      case FrontOp =>
        var x := Front();
        shown := [x];
      case GetOp(i) =>
        var x := Get(i);
        shown := [x];
    }
  }

  /** The first `i` operations have shown `seen` and left `s`, with a largest size of `peak`. */
  ghost predicate OnTrack<T>(ops: seq<Op<T>>, i: nat, s: seq<T>, seen: seq<T>, peak: nat) {
    && i <= |ops| && LegalRun([], ops) && LegalRun(s, ops[i..]) && |s| <= peak
    && seen + SeqRun(s, ops[i..]) == SeqRun([], ops) && Max(peak, Peak(s, ops[i..])) == Peak([], ops)
  }

  lemma TrackStep<T>(ops: seq<Op<T>>, i: nat, s: seq<T>, seen: seq<T>, peak: nat)
    requires OnTrack(ops, i, s, seen, peak) && i < |ops|
    ensures Legal(s, ops[i])
    ensures var t := After(s, ops[i]); OnTrack(ops, i + 1, t, seen + Shown(s, ops[i]), Max(peak, |t|))
  {
    RunStep(s, ops, i);
    var t := After(s, ops[i]);
    assert (seen + Shown(s, ops[i])) + SeqRun(t, ops[i + 1..]) == seen + SeqRun(s, ops[i..]);
    PeakAtLeast(t, ops[i + 1..]);
  }

  lemma TrackEnd<T>(ops: seq<Op<T>>, s: seq<T>, seen: seq<T>, peak: nat)
    requires OnTrack(ops, |ops|, s, seen, peak)
    ensures seen == SeqRun([], ops) && peak == Peak([], ops)
  {
    assert ops[|ops|..] == [];
  }

  lemma PeakAtLeast<T>(s: seq<T>, ops: seq<Op<T>>)
    requires LegalRun(s, ops)
    ensures Peak(s, ops) >= |s|
  {
  }

  /** Every run on a queue asked for with at least two slots shows what a plain sequence shows. Growth relocates
      no more elements than the slots it adds, and the capacity stays within half as much again as was needed. */
  method RunQueue<T(0)>(capacity: nat, ops: seq<Op<T>>) returns (seen: seq<T>, finalCapacity: nat, ghost moved: nat)
    requires 2 <= capacity <= HALF / 2 && |ops| <= HALF / 2 && LegalRun([], ops)
    ensures seen == SeqRun([], ops)
    ensures moved <= finalCapacity - capacity
    ensures finalCapacity == capacity || 2 * finalCapacity <= 3 * Peak([], ops)
  {
    var q := new PodQueue<T>(capacity);
    seen := [];
    var i := 0;
    assert ops[0..] == ops;
    while i < |ops|
      invariant i <= |ops| && q.Valid() && fresh(q) && fresh(q.ptr) && q.initial == capacity && q.peak <= i
      invariant OnTrack(ops, i, q.Contents(), seen, q.peak)
    {
      seen := RunOne(q, ops, i, seen);
      i := i + 1;
    }
    TrackEnd(ops, q.Contents(), seen, q.peak);
    finalCapacity, moved := q.theCapacity, q.moved;
  }

  method RunOne<T(0)>(q: PodQueue<T>, ops: seq<Op<T>>, i: nat, before: seq<T>) returns (seen: seq<T>)
    requires q.Valid() && 2 <= q.initial <= HALF / 2 && i < |ops| <= HALF / 2 && q.peak <= i
    requires OnTrack(ops, i, q.Contents(), before, q.peak)
    modifies q, q.ptr
    ensures q.Valid() && (q.ptr == old(q.ptr) || fresh(q.ptr)) && q.peak <= i + 1
    ensures OnTrack(ops, i + 1, q.Contents(), seen, q.peak)
  {
    TrackStep(ops, i, q.Contents(), before, q.peak);
    var shown := q.Perform(ops[i]);
    seen := before + shown;
  }
}
