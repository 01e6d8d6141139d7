/**
 `send_buffer_ctrl` (`net/cort_tcp_ctrler.h`) with its two fixed arrays updated in place, and the
 send-progress loop of `try_send` (`net/cort_tcp_ctrler.cpp`). The memory of the process is a map
 from blocks to their bytes; the socket's answer is a parameter.
 */
module SendQueue {
  import opened SendModel

  datatype Iovec = Iovec(base: Ptr, len: nat)

  /** The entries before the first null address. */
  function Entries(data: seq<Iovec>, tag: seq<nat>): (q: seq<Entry>)
    requires |data| == |tag|
    ensures |q| <= |data|
  {
    if data == [] || data[0].base.Null? then []
    else [Entry(data[0].base, data[0].len, tag[0])] + Entries(data[1..], tag[1..])
  }

  /** The slots from `i` on hold the entries `q`, and then comes a null address unless that is the end. */
  ghost predicate Hold(data: seq<Iovec>, tag: seq<nat>, i: nat, q: seq<Entry>) {
    && |data| == |tag| && i + |q| <= |data|
    && (forall k :: 0 <= k < |q| ==> HoldAt(data, tag, i + k, q[k]))
    && (i + |q| < |data| ==> data[i + |q|].base.Null?)
  }

  ghost predicate HoldAt(data: seq<Iovec>, tag: seq<nat>, i: nat, e: Entry)
    requires |data| == |tag|
  {
    i < |data| && data[i].base.At? && e == Entry(data[i].base, data[i].len, tag[i])
  }

  lemma {:induction false} EntriesHold(data: seq<Iovec>, tag: seq<nat>, q: seq<Entry>)
    requires |data| == |tag|
    ensures Entries(data, tag) == q <==> Hold(data, tag, 0, q)
    decreases |data|
  {
    if data == [] || data[0].base.Null? {
      if q != [] { assert !HoldAt(data, tag, 0 + 0, q[0]); }
    } else if q != [] {
      EntriesHold(data[1..], tag[1..], q[1..]);
      if Hold(data, tag, 0, q) {
        assert HoldAt(data, tag, 0, q[0]);
        forall k | 0 <= k < |q[1..]| ensures HoldAt(data[1..], tag[1..], 0 + k, q[1..][k]) {
          assert HoldAt(data, tag, 0 + (k + 1), q[k + 1]);
        }
      }
      if Entries(data, tag) == q {
        assert q[1..] == Entries(data[1..], tag[1..]);
        forall k | 0 <= k < |q| ensures HoldAt(data, tag, 0 + k, q[k]) {
          if k > 0 { assert HoldAt(data[1..], tag[1..], 0 + (k - 1), q[1..][k - 1]); }
        }
      }
    }
  }

  /** What the socket answers to `send` or `writev`; interrupted calls are repeated and do not show. */
  datatype Answer = Took(n: nat) | WouldBlock | Failed

  datatype Progress = Finished | Again | Closed

  class SendBufferCtrl {
    const data: array<Iovec>
    const tag: array<nat>
    var mem: map<nat, seq<Byte>>
    var next: nat
    ghost var freed: seq<Ptr>
    ghost var mallocs: set<nat>
    ghost var wire: seq<Byte>
    ghost var accepted: seq<Byte>

    ghost predicate Valid()
      reads this
    {
      data.Length == tag.Length == QUEUE_SIZE
    }

    ghost function View(): World
      reads this, data, tag
      requires Valid()
    {
      World(Entries(data[..], tag[..]), mem, next, freed, mallocs, wire, accepted)
    }

    constructor (memory: map<nat, seq<Byte>>, brk: nat)
      requires forall b :: b in memory ==> b < brk
      ensures Valid() && fresh(data) && fresh(tag) && Inv(View())
      ensures View() == World([], memory, brk, [], {}, [], [])
    {
      data := new Iovec[QUEUE_SIZE](_ => Iovec(Null, 0));
      tag := new nat[QUEUE_SIZE](_ => 0);
      mem, next, freed, mallocs, wire, accepted := memory, brk, [], {}, [], [];
    }

    /** `get_free_index`. */
    method GetFreeIndex() returns (i: nat)
      requires Valid()
      ensures i == |View().q|
      ensures Hold(data[..], tag[..], 0, View().q)
    {
      EntriesHold(data[..], tag[..], View().q);
      i := 0;
      while i < QUEUE_SIZE
        invariant i <= |View().q|
      {
        if i < |View().q| { assert HoldAt(data[..], tag[..], 0 + i, View().q[i]); }
        if data[i].base.Null? {
          return i;
        }
        i := i + 1;
      }
    }

    /** An entry is stored in the first free slot, and the end moves behind it. */
    method StoreAt(index: nat, base: Ptr, len: nat, t: nat)
      requires Valid() && index == |View().q| < QUEUE_SIZE
      modifies data, tag
      ensures View() == old(View()).(q := if base.Null? then old(View()).q else old(View()).q + [Entry(base, len, t)])
    {
      ghost var q := View().q;
      EntriesHold(data[..], tag[..], q);
      data[index] := Iovec(base, len);
      tag[index] := t;
      if index != QUEUE_SIZE - 1 {
        data[index + 1] := Iovec(Null, data[index + 1].len);
      }
      EntriesHold(data[..], tag[..], if base.Null? then q else q + [Entry(base, len, t)]);
    }

    // ----- Queueing -----

    /** `set_send_buffer`: the buffer stays the caller's. */
    method SetSendBuffer(src: Ptr, size: nat) returns (r: Ptr)
      requires Valid() && Inv(View()) && Legal(View(), Borrow(src, size))
      modifies this, data, tag
      ensures Inv(View()) && View() == Do(old(View()), Borrow(src, size))
      ensures r == if |old(View()).q| == QUEUE_SIZE then Null else src
      ensures if r.Null? then View() == old(View())
        else View() == old(View()).(q := old(View()).q + [Entry(src, size, WEAK)],
                                    accepted := old(accepted) + Bytes(mem, src, size))
    {
      ghost var w := View();
      DoKeeps(w, Borrow(src, size));
      var index := GetFreeIndex();
      if index == QUEUE_SIZE {
        return Null;
      }
      StoreAt(index, src, size, WEAK);
      if src.At? {
        accepted := accepted + Bytes(mem, src, size);
      }
      return src;
    }

    method Malloc(content: seq<Byte>) returns (p: Ptr)
      requires Valid()
      modifies this
      ensures View() == Allocate(old(View()), content) && p == At(old(next), 0)
    {
      p := At(next, 0);
      mem := mem[next := content];
      mallocs := mallocs + {next};
      next := next + 1;
    }

    /** `alloc_send_buffer`; `content` is what the caller puts into the buffer before the next write. */
    method AllocSendBuffer(content: seq<Byte>) returns (r: Ptr)
      requires Valid() && Inv(View()) && |content| < WEAK
      modifies this, data, tag
      ensures Inv(View()) && View() == Do(old(View()), New(content))
      ensures r == if |old(View()).q| == QUEUE_SIZE then Null else At(old(next), 0)
      ensures if r.Null? then View() == old(View())
        else View().q == old(View()).q + [Entry(r, |content|, 0)] && mem == old(mem)[r.block := content]
             && mallocs == old(mallocs) + {r.block} && accepted == old(accepted) + content
             && wire == old(wire) && freed == old(freed)
    {
      ghost var w := View();
      DoKeeps(w, New(content));
      if |w.q| < QUEUE_SIZE {
        EnqueueNewKeeps(w, content);
      }
      var index := GetFreeIndex();
      if index == QUEUE_SIZE {
        return Null;
      }
      r := Malloc(content);
      StoreAt(index, r, |content|, 0);
      accepted := accepted + Bytes(mem, r, |content|);
    }

    /** `copy_send_buffer`. */
    method CopySendBuffer(src: Ptr, size: nat) returns (r: Ptr)
      requires Valid() && Inv(View()) && Readable(mem, src, size) && size < WEAK
      modifies this, data, tag
      ensures Inv(View()) && View() == Do(old(View()), New(Bytes(old(mem), src, size)))
      ensures r == if |old(View()).q| == QUEUE_SIZE then Null else At(old(next), 0)
      ensures if r.Null? then View() == old(View())
        else View().q == old(View()).q + [Entry(r, size, 0)] && mem == old(mem)[r.block := Bytes(old(mem), src, size)]
             && accepted == old(accepted) + Bytes(old(mem), src, size) && wire == old(wire) && freed == old(freed)
    {
      r := AllocSendBuffer(Bytes(mem, src, size));
    }

    // ----- Freeing -----

    /** `free`: only the start of a live block may be freed. */
    method Free(p: Ptr)
      requires Valid() && p.At? && p.off == 0 && p.block in mem
      modifies this
      ensures View() == old(View()).(mem := old(mem) - {p.block}, freed := old(freed) + [p])
    {
      mem := mem - {p.block};
      freed := freed + [p];
    }

    // ----- The send-progress loop -----

    /** `try_send` from the point where the connection may write: the queue gives way to what the socket took. */
    method TrySend(answer: Answer) returns (progress: Progress)
      requires Valid() && Inv(View()) && (answer.Took? ==> answer.n <= Total(View().q))
      modifies this, data, tag
      ensures Inv(View())
      ensures View() == Do(old(View()), if answer.Took? then Write(answer.n) else NoWrite)
      ensures progress == Finished <==> View().q == []
      ensures progress == Closed <==> View().q != [] && answer.Failed?
      ensures if answer.Took? then |wire| == |old(wire)| + answer.n && wire <= accepted && accepted == old(accepted)
              else View() == old(View())
    {
      ghost var w := View();
      var last := GetFreeIndex();
      if last == 0 {
        return Finished;
      }
      match answer
      case WouldBlock => return Again;
      case Failed => return Closed;
      case Took(n) =>
        SentKeeps(w, n);
        WireIsPrefix(w, n);
        var finished := Advance(n, last);
        return if finished then Finished else Again;
    }

    /** The loop over the entries of which the socket took `n` bytes in all. */
    method Advance(n: nat, last: nat) returns (finished: bool)
      requires Valid() && Inv(View()) && last == |View().q| && n <= Total(View().q)
      modifies this, data, tag
      ensures Inv(View()) && View() == Sent(old(View()), n) && finished == (View().q == [])
    {
      ghost var w, goal := View(), Sent(View(), n);
      EntriesHold(data[..], tag[..], w.q);
      var i, left := 0, n;
      while i < last
        invariant i <= last == i + |w.q| && Inv(w) && 0 <= left <= Total(w.q) && Sent(w, left) == goal
        invariant Pending(w, i) && (i > 0 ==> data[0].base.Null?)
      {
        assert HoldAt(data[..], tag[..], i + 0, w.q[0]);
        SentStep(w, left);
        if left >= data[i].len {
          left := left - data[i].len;
          CompleteAt(i, w);
          w := Complete(w);
        } else {
          PartialAt(i, last, left, w);
          return false;
        }
        i := i + 1;
      }
      EntriesHold(data[..], tag[..], []);
      assert View() == w;
      return true;
    }

    /** The first `i` slots are done with and the others hold the queue of `w`. */
    ghost predicate Pending(w: World, i: nat)
      reads this, data, tag
    {
      Valid() && Hold(data[..], tag[..], i, w.q)
      && mem == w.mem && next == w.next && freed == w.freed && mallocs == w.mallocs
      && wire == w.wire && accepted == w.accepted
    }

    /** The buffer in slot `i` has been sent. */
    method CompleteAt(i: nat, ghost w: World)
      requires Pending(w, i) && Inv(w) && w.q != [] && i < QUEUE_SIZE && Tagged(w.q[0])
      requires Readable(w.mem, w.q[0].base, w.q[0].len)
      modifies this, data
      ensures Pending(Complete(w), i + 1) && data[i].base.Null? && (i > 0 ==> data[0] == old(data[0]))
    {
      ghost var e := w.q[0];
      assert HoldAt(data[..], tag[..], i + 0, e) && Sound(w, e);
      wire := wire + Bytes(mem, e.base, e.len);
      if tag[i] < WEAK {
        Free(At(data[i].base.block, data[i].base.off - tag[i]));
      }
      data[i] := Iovec(Null, data[i].len);
      forall k | 0 <= k < |w.q[1..]| ensures HoldAt(data[..], tag[..], i + 1 + k, w.q[1..][k]) {
        assert HoldAt(old(data[..]), old(tag[..]), i + (k + 1), w.q[k + 1]);
      }
    }

    /** Part of the buffer in slot `i` has been sent: it and those behind it move to the front. */
    method PartialAt(i: nat, last: nat, n: nat, ghost w: World)
      requires Pending(w, i) && w.q != [] && last == i + |w.q| && n < w.q[0].len
      requires Readable(w.mem, w.q[0].base, w.q[0].len)
      modifies this, data, tag
      ensures View() == Partial(w, n)
    {
      assert HoldAt(data[..], tag[..], i + 0, w.q[0]);
      wire := wire + Bytes(mem, w.q[0].base, n);
      data[i] := Iovec(At(data[i].base.block, data[i].base.off + n), data[i].len - n);
      tag[i] := tag[i] + n;
      ghost var q := [Moved(w.q[0], n)] + w.q[1..];
      forall k | 0 <= k < |q| ensures HoldAt(data[..], tag[..], i + k, q[k]) {
        assert HoldAt(old(data[..]), old(tag[..]), i + k, w.q[k]);
      }
      if i != 0 {
        MoveAhead(i, last, q);
      }
      EntriesHold(data[..], tag[..], q);
    }

    method MoveAhead(first: nat, last: nat, ghost q: seq<Entry>)
      requires Valid() && 0 < first < last == first + |q| && Hold(data[..], tag[..], first, q)
      modifies data, tag
      ensures Hold(data[..], tag[..], 0, q)
    {
      var i, j := first, 0;
      assert HoldAt(data[..], tag[..], first + 0, q[0]);
      while i < last && data[i].base != Null
        invariant first <= i == first + j <= last && (i < last ==> data[i].base.At?)
        invariant forall k :: j <= k < |q| ==> HoldAt(data[..], tag[..], first + k, q[k])
        invariant forall k :: 0 <= k < j ==> HoldAt(data[..], tag[..], 0 + k, q[k])
      {
        assert HoldAt(data[..], tag[..], first + j, q[j]);
        data[j] := data[i];
        tag[j] := tag[i];
        i, j := i + 1, j + 1;
        if i < last { assert HoldAt(data[..], tag[..], first + j, q[j]); }
      }
      data[j] := Iovec(Null, data[j].len);
    }

    // ----- Clearing -----

    /** `clear`, which the destructor calls too. */
    method Clear()
      requires Valid() && Inv(View())
      modifies this, data
      ensures Inv(View()) && View() == Do(old(View()), ClearAll)
      ensures View().q == [] && wire == old(wire) == accepted && mallocs == old(mallocs)
      ensures forall p :: p in freed <==> p.At? && p.off == 0 && p.block in mallocs
    {
      ghost var s := View();
      ghost var w := s;
      ClearFreesAll(s);
      EntriesHold(data[..], tag[..], s.q);
      var i := 0;
      while i < QUEUE_SIZE && data[i].base != Null
        invariant i <= i + |w.q| <= QUEUE_SIZE && Inv(w) && SendModel.Clear(w) == SendModel.Clear(s) && Pending(w, i)
      {
        DiscardKeeps(w);
        DiscardAt(i, w);
        w := Discard(w);
        i := i + 1;
      }
      data[0] := Iovec(Null, data[0].len);
      EntriesHold(data[..], tag[..], []);
    }

    method DiscardAt(i: nat, ghost w: World)
      requires Pending(w, i) && Inv(w) && w.q != [] && i < QUEUE_SIZE && Tagged(w.q[0])
      modifies this
      ensures Pending(Discard(w), i + 1)
    {
      ghost var e := w.q[0];
      assert HoldAt(data[..], tag[..], i + 0, e) && Sound(w, e);
      if tag[i] < WEAK {
        Free(At(data[i].base.block, data[i].base.off - tag[i]));
      }
      forall k | 0 <= k < |w.q[1..]| ensures HoldAt(data[..], tag[..], i + 1 + k, w.q[1..][k]) {
        assert HoldAt(data[..], tag[..], i + (k + 1), w.q[k + 1]);
      }
      accepted := Discard(w).accepted;
    }
  }
}
