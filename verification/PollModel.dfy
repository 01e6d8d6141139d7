/**
 Registration with epoll and the dispatch of a batch of events (`time/cort_timeout_waiter.cpp`) on
 values. Each waiter with an event in the batch points at its slot, so that whoever cancels the
 waiter can clear the slot. The kernel decides by its own set whether a call of `epoll_ctl` succeeds.
 */
module PollModel {
  import opened Common

  /** File descriptor (negative: none), requested events (0: none), and the slot of the pending event. */
  datatype Info = Info(fd: int, request: nat, slot: Option<nat>)

  datatype Event<C> = Delivered(c: C) | Cancelled(c: C)

  /** The waiters; those the kernel knows; the counter of registrations and how much it exceeds the size of that set;
      the batch with the next slot to deliver, and what happened since it was fetched. */
  datatype World<C(==)> = World(info: map<C, Info>, kernel: set<C>, count: int, leaked: nat,
                                batch: seq<C>, slots: seq<Option<C>>, next: nat, trace: seq<Event<C>>)

  // ----- The invariant -----

  ghost predicate Registered<C>(w: World<C>, c: C)
    requires c in w.info
  {
    w.info[c].request != 0 ==> c in w.kernel && w.info[c].fd >= 0
  }

  /** A slot still to be delivered belongs to a waiter that points back at it, is known to the kernel, and was neither
      resumed nor cancelled since the batch was fetched. */
  ghost predicate SlotOk<C>(w: World<C>, j: nat)
    requires j < |w.slots|
  {
    w.slots[j].Some? ==>
      var c := w.slots[j].value;
      c in w.info && w.info[c].slot == Some(j) && c in w.kernel && Delivered(c) !in w.trace && Cancelled(c) !in w.trace
  }

  /** A waiter points at no other slot. */
  ghost predicate PointsOk<C>(w: World<C>, c: C)
    requires c in w.info
  {
    w.info[c].slot.Some? ==>
      var j := w.info[c].slot.value;
      w.next <= j < |w.slots| && w.slots[j] == Some(c)
  }

  /** No event is lost: a waiter of the batch is still due, or was resumed or cancelled. */
  ghost predicate Answered<C>(w: World<C>, j: nat)
    requires j < |w.slots| == |w.batch|
  {
    (w.next <= j && w.slots[j] == Some(w.batch[j]))
    || Delivered(w.batch[j]) in w.trace || Cancelled(w.batch[j]) in w.trace
  }

  /** Nobody is resumed after having been resumed or cancelled. */
  ghost predicate Once<C>(trace: seq<Event<C>>) {
    forall i, k :: 0 <= i < k < |trace| && trace[k].Delivered? ==> trace[i].c != trace[k].c
  }

  ghost predicate Inv<C>(w: World<C>) {
    match w
    case World(info, kernel, count, leaked, batch, slots, next, trace) =>
      (forall c | c in info :: Registered(w, c)) && (forall c | c in info :: PointsOk(w, c))
      && (forall c | c in kernel :: c in info) && count == |kernel| + leaked
      && next <= |slots| && (forall j: nat | next <= j < |slots| :: SlotOk(w, j)) && Once(trace)
      && |batch| == |slots| && (forall j: nat | j < |slots| :: Answered(w, j))
  }

  // ----- What the counter counts -----

  ghost function Requesting<C>(w: World<C>): set<C> {
    set c | c in w.info && w.info[c].request != 0
  }

  /** Waiters whose request was set to 0 while they were registered. */
  ghost function Zeroed<C>(w: World<C>): set<C> {
    w.kernel - Requesting(w)
  }

  /** The counter is the number of requests, of registrations without one, and of registrations lost. */
  lemma CountIs<C>(w: World<C>)
    requires Inv(w)
    ensures w.count == |Requesting(w)| + |Zeroed(w)| + w.leaked
    ensures w.count == 0 ==> Requesting(w) == {}
  {
    assert Requesting(w) <= w.kernel by {
      forall c | c in Requesting(w) ensures c in w.kernel { assert Registered(w, c); }
    }
    assert w.kernel == Requesting(w) + Zeroed(w);
  }

  // ----- Operations on a waiter -----

  /** The pending event of `c` is dropped. */
  function ClearSlot<C>(w: World<C>, c: C): World<C>
    requires c in w.info
  {
    var i := w.info[c];
    if i.slot.Some? && i.slot.value < |w.slots| then
      w.(slots := w.slots[i.slot.value := None], info := w.info[c := i.(slot := None)])
    else w
  }

  function Cancel<C>(w: World<C>, c: C): World<C>
    requires c in w.info
  {
    var v := ClearSlot(w, c);
    v.(trace := v.trace + [Cancelled(c)])
  }

  /** `set_poll_request`. */
  function SetRequest<C>(w: World<C>, c: C, r: nat): World<C>
    requires c in w.info
  {
    var i := w.info[c];
    if i.request == r || i.fd < 0 then w
    else
      var v := w.(info := w.info[c := i.(request := r)]);
      if i.request == 0 && c !in w.kernel then v.(kernel := w.kernel + {c}, count := w.count + 1) else v
  }

  /** `remove_poll_request`. */
  function RemoveRequest<C>(w: World<C>, c: C): World<C>
    requires c in w.info
  {
    var i := w.info[c];
    if i.fd < 0 || i.request == 0 || c !in w.kernel then w
    else
      var v := Cancel(w, c);
      v.(kernel := w.kernel - {c}, count := w.count - 1, info := v.info[c := v.info[c].(request := 0)])
  }

  /** `close_cort_fd`: the kernel forgets a closed descriptor, but the counter only does if there was a request. */
  function Close<C>(w: World<C>, c: C): World<C>
    requires c in w.info
  {
    var i := w.info[c];
    if i.fd < 0 then w.(info := w.info[c := i.(fd := -1, request := 0)])
    else
      var v := Cancel(w, c);
      v.(info := v.info[c := v.info[c].(fd := -1, request := 0)], kernel := w.kernel - {c},
         count := if i.request != 0 then w.count - 1 else w.count,
         leaked := if i.request == 0 && c in w.kernel then w.leaked + 1 else w.leaked)
  }

  /** `set_cort_fd`. */
  function SetFd<C>(w: World<C>, c: C, fd: int): World<C>
    requires c in w.info
  {
    w.(info := w.info[c := w.info[c].(fd := fd)])
  }

  /** A new waiter. */
  function Create<C>(w: World<C>, c: C): World<C> {
    w.(info := w.info[c := Info(-1, 0, None)])
  }

  /** The destructor. */
  function Destroy<C>(w: World<C>, c: C): World<C>
    requires c in w.info
  {
    var v := Close(w, c);
    v.(info := v.info - {c})
  }

  // ----- What they keep -----

  /** The record of `c` is replaced, and the kernel learns of `c` or forgets it. */
  ghost function Update<C>(w: World<C>, c: C, i: Info, known: bool, count: int, leaked: nat): World<C> {
    w.(info := w.info[c := i], kernel := if known then w.kernel + {c} else w.kernel - {c},
       count := count, leaked := leaked)
  }

  lemma UpdateKeeps<C>(w: World<C>, c: C, i: Info, known: bool, count: int, leaked: nat)
    requires Inv(w) && c in w.info && i.slot == w.info[c].slot && (i.request != 0 ==> known && i.fd >= 0)
    requires (!known ==> i.slot.None?)
    requires count - leaked == w.count - w.leaked + (if known then 1 else 0) - (if c in w.kernel then 1 else 0)
    ensures Inv(Update(w, c, i, known, count, leaked))
  {
    var v := Update(w, c, i, known, count, leaked);
    KernelSize(w.kernel, c, known);
    forall d | d in v.info ensures Registered(v, d) && PointsOk(v, d) {
      if d != c { assert Registered(w, d); }
      assert PointsOk(w, d);
    }
    forall j: nat | v.next <= j < |v.slots| ensures SlotOk(v, j) {
      assert SlotOk(w, j);
    }
    forall j: nat | j < |v.slots| ensures Answered(v, j) {
      assert Answered(w, j);
    }
  }

  lemma KernelSize<C>(kernel: set<C>, c: C, known: bool)
    ensures |if known then kernel + {c} else kernel - {c}|
      == |kernel| + (if known then 1 else 0) - (if c in kernel then 1 else 0)
  {
    assert kernel == if c in kernel then (kernel - {c}) + {c} else kernel - {c};
    assert c in kernel ==> kernel + {c} == kernel;
  }

  lemma CancelKeeps<C>(w: World<C>, c: C)
    requires Inv(w) && c in w.info
    ensures var v := Cancel(w, c); Inv(v) && v.info == w.info[c := w.info[c].(slot := None)] && v.kernel == w.kernel
    ensures var v := Cancel(w, c);
      v.count == w.count && v.leaked == w.leaked && v.next == w.next && |v.slots| == |w.slots|
  {
    var v := Cancel(w, c);
    assert PointsOk(w, c);
    assert v.info == w.info[c := w.info[c].(slot := None)];
    forall d | d in v.info ensures Registered(v, d) && PointsOk(v, d) {
      assert Registered(w, d) && PointsOk(w, d);
    }
    forall j: nat | v.next <= j < |v.slots| ensures SlotOk(v, j) {
      assert SlotOk(w, j);
    }
    forall j: nat | j < |v.slots| ensures Answered(v, j) {
      assert Answered(w, j);
    }
    assert forall k :: 0 <= k < |w.trace| ==> v.trace[k] == w.trace[k];
  }

  lemma SetRequestKeeps<C>(w: World<C>, c: C, r: nat)
    requires Inv(w) && c in w.info
    ensures Inv(SetRequest(w, c, r))
  {
    var i := w.info[c];
    assert Registered(w, c);
    if i.request != r && i.fd >= 0 {
      var known := i.request == 0 || c in w.kernel;
      var count := if i.request == 0 && c !in w.kernel then w.count + 1 else w.count;
      UpdateKeeps(w, c, i.(request := r), known, count, w.leaked);
      assert known && c in w.kernel ==> w.kernel + {c} == w.kernel;
    }
  }

  lemma RemoveRequestKeeps<C>(w: World<C>, c: C)
    requires Inv(w) && c in w.info
    ensures Inv(RemoveRequest(w, c))
    ensures var v := RemoveRequest(w, c);
      w.info[c].fd >= 0 && w.info[c].request != 0 ==> c !in v.kernel && v.info[c].slot.None?
  {
    var i := w.info[c];
    assert Registered(w, c);
    if i.fd >= 0 && i.request != 0 && c in w.kernel {
      CancelKeeps(w, c);
      UpdateKeeps(Cancel(w, c), c, i.(request := 0, slot := None), false, w.count - 1, w.leaked);
    }
  }

  lemma CloseKeeps<C>(w: World<C>, c: C)
    requires Inv(w) && c in w.info
    ensures Inv(Close(w, c))
    ensures w.info[c].fd >= 0 ==> c !in Close(w, c).kernel && Close(w, c).info[c].slot.None?
  {
    var i := w.info[c];
    assert Registered(w, c);
    PendingKnown(w, c);
    if i.fd < 0 {
      var known := c in w.kernel;
      UpdateKeeps(w, c, i.(fd := -1, request := 0), known, w.count, w.leaked);
      assert known ==> w.kernel + {c} == w.kernel;
      assert !known ==> w.kernel - {c} == w.kernel;
    } else {
      CancelKeeps(w, c);
      var v := Close(w, c);
      UpdateKeeps(Cancel(w, c), c, i.(fd := -1, request := 0, slot := None), false, v.count, v.leaked);
    }
  }

  lemma PendingKnown<C>(w: World<C>, c: C)
    requires Inv(w) && c in w.info
    ensures w.info[c].slot.Some? ==> c in w.kernel
  {
    assert PointsOk(w, c);
    if w.info[c].slot.Some? {
      assert SlotOk(w, w.info[c].slot.value);
    }
  }

  lemma SetFdKeeps<C>(w: World<C>, c: C, fd: int)
    requires Inv(w) && c in w.info && c !in w.kernel
    ensures Inv(SetFd(w, c, fd))
  {
    assert Registered(w, c);
    PendingKnown(w, c);
    UpdateKeeps(w, c, w.info[c].(fd := fd), false, w.count, w.leaked);
    assert w.kernel - {c} == w.kernel;
  }

  /** `remove_cort_fd`. */
  function RemoveFd<C>(w: World<C>, c: C): World<C>
    requires c in w.info
  {
    SetFd(RemoveRequest(w, c), c, -1)
  }

  lemma RemoveFdKeeps<C>(w: World<C>, c: C)
    requires Inv(w) && c in w.info
    ensures Inv(RemoveFd(w, c))
  {
    RemoveRequestKeeps(w, c);
    var v := RemoveRequest(w, c);
    var i := v.info[c];
    assert Registered(w, c);
    PendingKnown(v, c);
    var known := c in v.kernel;
    UpdateKeeps(v, c, i.(fd := -1), known, v.count, v.leaked);
    assert known ==> v.kernel + {c} == v.kernel;
    assert !known ==> v.kernel - {c} == v.kernel;
  }

  lemma CreateKeeps<C>(w: World<C>, c: C)
    requires Inv(w) && c !in w.info
    ensures Inv(Create(w, c))
  {
    var v := Create(w, c);
    forall d | d in v.info ensures Registered(v, d) && PointsOk(v, d) {
      if d != c { assert Registered(w, d) && PointsOk(w, d); }
    }
    forall j: nat | v.next <= j < |v.slots| ensures SlotOk(v, j) {
      assert SlotOk(w, j);
    }
    forall j: nat | j < |v.slots| ensures Answered(v, j) {
      assert Answered(w, j);
    }
  }

  /** A waiter may be destroyed exactly if it has a descriptor, which is then closed, or the kernel does not know it. */
  lemma DestroyExactly<C>(w: World<C>, c: C)
    requires Inv(w) && c in w.info
    ensures Inv(Destroy(w, c)) <==> Guarded(w, c)
  {
    CloseKeeps(w, c);
    var u, v := Close(w, c), Destroy(w, c);
    if Guarded(w, c) {
      PendingKnown(u, c);
      forall d | d in v.info ensures Registered(v, d) && PointsOk(v, d) {
        assert Registered(u, d) && PointsOk(u, d);
      }
      forall j: nat | v.next <= j < |v.slots| ensures SlotOk(v, j) {
        assert SlotOk(u, j);
      }
      forall j: nat | j < |v.slots| ensures Answered(v, j) {
        assert Answered(u, j);
      }
    } else {
      assert c in v.kernel && c !in v.info;
    }
  }

  ghost predicate Guarded<C>(w: World<C>, c: C)
    requires c in w.info
  {
    w.info[c].fd >= 0 || c !in w.kernel
  }

  // ----- The effect of each operation, field by field -----

  /** From `w` to `v` only the record of `c` changed, to `i`; the kernel, the counter and the trace are as given, and if
      `dropped` the event of `c` in the batch is gone, but no other. */
  ghost predicate Effect<C>(w: World<C>, v: World<C>, c: C, i: Info, kernel: set<C>, count: int, dropped: bool) {
    v.info == w.info[c := i] && v.kernel == kernel && v.count == count && v.next == w.next && v.batch == w.batch
    && |v.slots| == |w.slots| && v.trace == w.trace + (if dropped then [Cancelled(c)] else [])
    && forall j: nat :: w.next <= j < |w.slots| ==>
         v.slots[j] == if dropped && w.slots[j] == Some(c) then None else w.slots[j]
  }

  /** A waiter with a descriptor gets the request, the kernel knows it if it asks for anything, and the counter counts
      it if the kernel did not know it before. */
  lemma RequestEffect<C>(w: World<C>, c: C, r: nat)
    requires Inv(w) && c in w.info
    ensures var i := w.info[c];
      var learns := i.fd >= 0 && r != 0 && c !in w.kernel;
      Effect(w, Do(w, Request(c, r)), c, if i.fd >= 0 then i.(request := r) else i,
             if learns then w.kernel + {c} else w.kernel, if learns then w.count + 1 else w.count, false)
  {
    assert Registered(w, c);
  }

  lemma CancelEffect<C>(w: World<C>, c: C)
    requires Inv(w) && c in w.info
    ensures Effect(w, Cancel(w, c), c, w.info[c].(slot := None), w.kernel, w.count, true)
  {
    assert PointsOk(w, c);
    CancelKeeps(w, c);
    forall j: nat | w.next <= j < |w.slots|
      ensures Cancel(w, c).slots[j] == if w.slots[j] == Some(c) then None else w.slots[j]
    {
      assert SlotOk(w, j);
    }
  }

  /** A waiter with a request has none afterwards, is unknown to the kernel and to the counter, and its event is
      gone. */
  lemma RemoveEffect<C>(w: World<C>, c: C)
    requires Inv(w) && c in w.info
    ensures var i, v := w.info[c], Do(w, Remove(c));
      if i.request != 0 then Effect(w, v, c, Info(i.fd, 0, None), w.kernel - {c}, w.count - 1, true) else v == w
  {
    assert Registered(w, c);
    CancelEffect(w, c);
  }

  /** A closed waiter has no descriptor and no request. If it had a descriptor the kernel does not know it any more and
      its event is gone; the counter forgets it if it had a request. */
  lemma CloseEffect<C>(w: World<C>, c: C)
    requires Inv(w) && c in w.info
    ensures var i, v := w.info[c], Do(w, CloseFd(c));
      if i.fd >= 0
      then Effect(w, v, c, Info(-1, 0, None), w.kernel - {c}, if i.request != 0 then w.count - 1 else w.count, true)
      else Effect(w, v, c, Info(-1, 0, i.slot), w.kernel, w.count, false)
  {
    CancelEffect(w, c);
  }

  /** As for `remove_poll_request`; and the descriptor is given up. */
  lemma DropEffect<C>(w: World<C>, c: C)
    requires Inv(w) && c in w.info
    ensures var i, v := w.info[c], Do(w, DropFd(c));
      if i.request != 0 then Effect(w, v, c, Info(-1, 0, None), w.kernel - {c}, w.count - 1, true)
      else Effect(w, v, c, Info(-1, 0, i.slot), w.kernel, w.count, false)
  {
    RemoveEffect(w, c);
  }

  /** A stopped waiter has no descriptor, no request and no event. */
  lemma StopEffect<C>(w: World<C>, c: C)
    requires Inv(w) && c in w.info
    ensures var i, v := w.info[c], Do(w, Stop(c));
      v.info == w.info[c := Info(-1, 0, None)] && v.kernel == (if i.fd >= 0 then w.kernel - {c} else w.kernel)
      && v.count == w.count - (if i.request != 0 then 1 else 0)
      && v.trace == w.trace + (if i.fd >= 0 then [Cancelled(c), Cancelled(c)] else [Cancelled(c)])
      && forall j: nat :: w.next <= j < |w.slots| ==> v.slots[j] == if w.slots[j] == Some(c) then None else w.slots[j]
  {
    var u := Close(w, c);
    assert Registered(w, c);
    CloseEffect(w, c);
    CloseKeeps(w, c);
    CancelEffect(u, c);
  }

  // ----- The batch -----

  /** The waiter of the next slot is resumed, unless the slot was cleared. */
  function Deliver<C>(w: World<C>): World<C>
    requires w.next < |w.slots|
  {
    var v := w.(next := w.next + 1);
    if w.slots[w.next].None? then v
    else
      var c := w.slots[w.next].value;
      v.(info := if c in w.info then w.info[c := w.info[c].(slot := None)] else w.info,
         trace := w.trace + [Delivered(c)])
  }

  /** The next waiter is resumed if its slot was not cleared, and points at no slot any more. */
  lemma DeliverEffect<C>(w: World<C>)
    requires Inv(w) && w.next < |w.slots|
    ensures var v := Do(w, Next);
      v.next == w.next + 1 && v.slots == w.slots && v.kernel == w.kernel && v.count == w.count
      && match w.slots[w.next]
         case None => v.trace == w.trace && v.info == w.info
         case Some(c) =>
           c in w.info && v.trace == w.trace + [Delivered(c)] && v.info == w.info[c := w.info[c].(slot := None)]
  {
    assert SlotOk(w, w.next);
  }

  lemma DeliverKeeps<C>(w: World<C>)
    requires Inv(w) && w.next < |w.slots|
    ensures SlotOk(w, w.next) && Inv(Deliver(w))
  {
    assert SlotOk(w, w.next);
    var v := Deliver(w);
    forall d | d in v.info ensures Registered(v, d) && PointsOk(v, d) {
      assert Registered(w, d) && PointsOk(w, d);
    }
    forall j: nat | v.next <= j < |v.slots| ensures SlotOk(v, j) {
      assert SlotOk(w, j);
    }
    forall j: nat | j < |v.slots| ensures Answered(v, j) {
      assert Answered(w, j);
    }
    if w.slots[w.next].Some? {
      var c := w.slots[w.next].value;
      assert forall i :: 0 <= i < |w.trace| ==> w.trace[i] in w.trace;
      assert forall i :: 0 <= i < |w.trace| ==> w.trace[i] != Delivered(c) && w.trace[i] != Cancelled(c);
    }
  }

  /** The kernel reports distinct waiters it knows. */
  ghost predicate Reportable<C>(w: World<C>, cs: seq<C>) {
    (forall i :: 0 <= i < |cs| ==> cs[i] in w.kernel) && (forall i, j :: 0 <= i < j < |cs| ==> cs[i] != cs[j])
  }

  /** Waiter number `i` of the batch, for all `i` below `n`, has been pointed at its slot. */
  ghost function PointedAt<C>(w: World<C>, cs: seq<C>, n: nat): World<C>
    requires n <= |cs|
  {
    World(map c | c in w.info :: if c in cs[..n] then w.info[c].(slot := Some(IndexOf(cs, c))) else w.info[c],
          w.kernel, w.count, w.leaked, cs, seq(|cs|, i requires 0 <= i < |cs| => Some(cs[i])), 0, [])
  }

  /** A batch is fetched: every waiter in it points at its slot. */
  ghost function Fetch<C>(w: World<C>, cs: seq<C>): World<C> {
    PointedAt(w, cs, |cs|)
  }

  function IndexOf<C(==)>(cs: seq<C>, c: C): (i: nat)
    requires c in cs
    ensures i < |cs| && cs[i] == c
  {
    if cs[0] == c then 0 else 1 + IndexOf(cs[1..], c)
  }

  lemma PointedStep<C>(w: World<C>, cs: seq<C>, n: nat)
    requires Inv(w) && Reportable(w, cs) && n < |cs|
    ensures cs[n] in w.info
    ensures var v := PointedAt(w, cs, n);
      PointedAt(w, cs, n + 1) == v.(info := v.info[cs[n] := v.info[cs[n]].(slot := Some(n))])
  {
    assert cs[..n + 1] == cs[..n] + [cs[n]];
    assert IndexOf(cs, cs[n]) == n;
  }

  /** Each waiter of the batch points at its slot and the others point where they did; nothing has happened yet. */
  lemma FetchEffect<C>(w: World<C>, cs: seq<C>)
    requires Inv(w) && Reportable(w, cs)
    ensures var v := Fetch(w, cs);
      v.kernel == w.kernel && v.count == w.count && v.batch == cs && |v.slots| == |cs| && v.next == 0 && v.trace == []
      && v.info.Keys == w.info.Keys
      && (forall i :: 0 <= i < |cs| ==>
            cs[i] in w.info && v.slots[i] == Some(cs[i]) && v.info[cs[i]] == w.info[cs[i]].(slot := Some(i)))
      && forall c :: c in w.info && c !in cs ==> v.info[c] == w.info[c]
  {
    assert cs[..|cs|] == cs;
    forall i: nat | i < |cs| ensures cs[i] in w.info && IndexOf(cs, cs[i]) == i {
    }
  }

  lemma FetchKeeps<C>(w: World<C>, cs: seq<C>)
    requires Inv(w) && Reportable(w, cs) && w.next == |w.slots|
    ensures Inv(Fetch(w, cs))
  {
    var v := Fetch(w, cs);
    assert cs[..|cs|] == cs;
    forall d | d in v.info ensures Registered(v, d) && PointsOk(v, d) {
      assert Registered(w, d) && PointsOk(w, d);
    }
    forall j: nat | v.next <= j < |v.slots| ensures SlotOk(v, j) {
      assert cs[j] in cs;
    }
  }

  // ----- Runs -----

  datatype Step<C> = Request(c: C, r: nat) | Remove(c: C) | CloseFd(c: C) | DropFd(c: C) | ChangeFd(c: C, fd: int)
                   | Timeout(c: C) | Stop(c: C) | Appear(c: C) | Vanish(c: C) | Next | Batch(cs: seq<C>)

  /** Descriptors are changed only while unregistered, and the next batch is fetched when the last one has been
      delivered. */
  ghost predicate Legal<C>(w: World<C>, s: Step<C>) {
    match s
    case Request(c, r) => c in w.info
    case Remove(c) => c in w.info
    case CloseFd(c) => c in w.info
    case DropFd(c) => c in w.info
    case ChangeFd(c, fd) => c in w.info && c !in w.kernel
    case Timeout(c) => c in w.info
    case Stop(c) => c in w.info
    case Appear(c) => c !in w.info
    case Vanish(c) => c in w.info
    case Next => w.next < |w.slots|
    case Batch(cs) => w.next == |w.slots| && Reportable(w, cs)
  }

  ghost function Do<C>(w: World<C>, s: Step<C>): World<C>
    requires Legal(w, s)
  {
    match s
    case Request(c, r) => SetRequest(w, c, r)
    case Remove(c) => RemoveRequest(w, c)
    case CloseFd(c) => Close(w, c)
    case DropFd(c) => RemoveFd(w, c)
    case ChangeFd(c, fd) => SetFd(w, c, fd)
    case Timeout(c) => Cancel(w, c)
    case Stop(c) => Cancel(Close(w, c), c)
    case Appear(c) => Create(w, c)
    case Vanish(c) => Destroy(w, c)
    case Next => Deliver(w)
    case Batch(cs) => Fetch(w, cs)
  }

  /** No waiter that the kernel would keep a pointer to is destroyed. */
  ghost predicate GuardedStep<C>(w: World<C>, s: Step<C>)
    requires Legal(w, s)
  {
    s.Vanish? ==> Guarded(w, s.c)
  }

  lemma DoKeeps<C>(w: World<C>, s: Step<C>)
    requires Inv(w) && Legal(w, s)
    ensures Inv(Do(w, s)) <==> GuardedStep(w, s)
  {
    match s
    case Request(c, r) => SetRequestKeeps(w, c, r);
    case Remove(c) => RemoveRequestKeeps(w, c);
    case CloseFd(c) => CloseKeeps(w, c);
    case DropFd(c) => RemoveFdKeeps(w, c);
    case ChangeFd(c, fd) => SetFdKeeps(w, c, fd);
    case Timeout(c) => CancelKeeps(w, c);
    case Stop(c) => CloseKeeps(w, c); CancelKeeps(Close(w, c), c);
    case Appear(c) => CreateKeeps(w, c);
    case Vanish(c) => DestroyExactly(w, c);
    case Next => DeliverKeeps(w);
    case Batch(cs) => FetchKeeps(w, cs);
  }

  /** The batch is the same and the trace has only grown. */
  ghost predicate SameBatch<C>(w: World<C>, v: World<C>) {
    v.next == w.next && |v.slots| == |w.slots| && v.batch == w.batch && w.trace <= v.trace
  }

  lemma DoInBatch<C>(w: World<C>, s: Step<C>)
    requires Legal(w, s) && !s.Next? && !s.Batch?
    ensures SameBatch(w, Do(w, s))
  {
  }

  ghost predicate LegalRun<C>(w: World<C>, steps: seq<Step<C>>)
    decreases |steps|
  {
    steps == [] || (Legal(w, steps[0]) && LegalRun(Do(w, steps[0]), steps[1..]))
  }

  ghost function Run<C>(w: World<C>, steps: seq<Step<C>>): World<C>
    requires LegalRun(w, steps)
    decreases |steps|
  {
    if steps == [] then w else Run(Do(w, steps[0]), steps[1..])
  }

  ghost predicate GuardedRun<C>(w: World<C>, steps: seq<Step<C>>)
    requires LegalRun(w, steps)
    decreases |steps|
  {
    steps == [] || (GuardedStep(w, steps[0]) && GuardedRun(Do(w, steps[0]), steps[1..]))
  }

  // ----- Dispatch over whole runs -----

  /** Every waiter of the batch was resumed or cancelled. */
  ghost predicate AllAnswered<C>(w: World<C>) {
    forall c | c in w.batch :: Delivered(c) in w.trace || Cancelled(c) in w.trace
  }

  lemma BatchAnswered<C>(w: World<C>)
    requires Inv(w) && w.next == |w.slots|
    ensures AllAnswered(w)
  {
    forall c | c in w.batch ensures Delivered(c) in w.trace || Cancelled(c) in w.trace {
      var j: nat :| j < |w.batch| && w.batch[j] == c;
      assert Answered(w, j);
    }
  }

  ghost predicate InvThroughout<C>(w: World<C>, steps: seq<Step<C>>)
    requires LegalRun(w, steps)
    decreases |steps|
  {
    Inv(w) && (steps != [] ==> InvThroughout(Do(w, steps[0]), steps[1..]))
  }

  /** The invariant holds throughout a run exactly if every destroyed waiter had a descriptor or was unknown to the
      kernel. Then, whatever happens between two deliveries, a slot still to be delivered belongs to a waiter that is
      alive, known to the kernel and points back at it; nobody is resumed twice in a batch or after having been
      cancelled; and when the batch is done everybody in it was resumed or cancelled. */
  lemma {:induction false} DispatchSafe<C>(w: World<C>, steps: seq<Step<C>>)
    requires Inv(w) && LegalRun(w, steps)
    ensures InvThroughout(w, steps) <==> GuardedRun(w, steps)
    ensures GuardedRun(w, steps) ==> Dispatched(Run(w, steps))
    decreases |steps|
  {
    if steps != [] {
      DoKeeps(w, steps[0]);
      if GuardedStep(w, steps[0]) {
        DispatchSafe(Do(w, steps[0]), steps[1..]);
      }
    } else if w.next == |w.slots| {
      BatchAnswered(w);
    }
  }

  ghost predicate Dispatched<C>(w: World<C>) {
    && Inv(w) && Once(w.trace) && (w.next == |w.slots| ==> AllAnswered(w))
    && forall j: nat | w.next <= j < |w.slots| :: SlotOk(w, j)
  }

  /** An input that shows it: `set_poll_request(0)` on a registered waiter, `remove_cort_fd`, and the destructor. The
      kernel still knows the waiter, and the next batch may contain it. */
  lemma DestroyedStaysKnown<C>(w: World<C>, c: C)
    requires Inv(w) && c in w.info && w.info[c].request != 0
    ensures var v := RemoveFd(SetRequest(w, c, 0), c);
      Inv(v) && v.info[c].fd < 0 && c in v.kernel && !Inv(Destroy(v, c))
    ensures w.next == |w.slots| ==>
      var v := Destroy(RemoveFd(SetRequest(w, c, 0), c), c); Legal(v, Batch([c])) && !SlotOk(Do(v, Batch([c])), 0)
  {
    assert Registered(w, c);
    SetRequestKeeps(w, c, 0);
    RemoveFdKeeps(SetRequest(w, c, 0), c);
    DestroyExactly(RemoveFd(SetRequest(w, c, 0), c), c);
  }

  // ----- The counter over whole runs -----

  ghost predicate NoneIdle<C>(w: World<C>) {
    w.leaked == 0 && forall c | c in w.kernel :: c in w.info && w.info[c].request != 0
  }

  /** The request of a registered waiter is set to 0: the branch of `set_poll_request` that modifies a registration. */
  ghost predicate Zeroes<C>(w: World<C>, s: Step<C>)
    requires Legal(w, s)
  {
    s.Request? && s.r == 0 && w.info[s.c].fd >= 0 && w.info[s.c].request != 0
  }

  ghost predicate NeverZeroes<C>(w: World<C>, steps: seq<Step<C>>)
    requires LegalRun(w, steps)
    decreases |steps|
  {
    steps == [] || (!Zeroes(w, steps[0]) && NeverZeroes(Do(w, steps[0]), steps[1..]))
  }

  ghost predicate CountedThroughout<C>(w: World<C>, steps: seq<Step<C>>)
    requires LegalRun(w, steps)
    decreases |steps|
  {
    w.count == |Requesting(w)| && (steps != [] ==> CountedThroughout(Do(w, steps[0]), steps[1..]))
  }

  lemma NeverZeroed<C>(w: World<C>, s: Step<C>)
    requires Inv(w) && NoneIdle(w) && Legal(w, s) && !Zeroes(w, s)
    ensures NoneIdle(Do(w, s)) && GuardedStep(w, s)
  {
    if s.Vanish? {
      assert Registered(w, s.c);
    }
  }

  /** Setting the request of a registered waiter to 0 makes the counter too high at once. */
  lemma ZeroedMiscounts<C>(w: World<C>, s: Step<C>)
    requires Inv(w) && Legal(w, s) && Zeroes(w, s)
    ensures Do(w, s).count > |Requesting(Do(w, s))|
  {
    assert Registered(w, s.c);
    SetRequestKeeps(w, s.c, 0);
    CountIs(Do(w, s));
    assert s.c in Zeroed(Do(w, s));
  }

  /** Over a run that starts with no waiter registered without a request, `epollfd_total_count` is the number of waiters
      with a request at every step exactly if no step sets the request of a registered waiter to 0. */
  lemma {:induction false} CountExactly<C>(w: World<C>, steps: seq<Step<C>>)
    requires Inv(w) && NoneIdle(w) && LegalRun(w, steps)
    ensures CountedThroughout(w, steps) <==> NeverZeroes(w, steps)
    decreases |steps|
  {
    assert Zeroed(w) == {};
    CountIs(w);
    if steps != [] {
      if Zeroes(w, steps[0]) {
        ZeroedMiscounts(w, steps[0]);
      } else {
        NeverZeroed(w, steps[0]);
        DoKeeps(w, steps[0]);
        CountExactly(Do(w, steps[0]), steps[1..]);
      }
    }
  }

  /** In such a run every destruction is guarded, so dispatch is safe without further conditions. */
  lemma {:induction false} NeverZeroesGuards<C>(w: World<C>, steps: seq<Step<C>>)
    requires Inv(w) && NoneIdle(w) && LegalRun(w, steps) && NeverZeroes(w, steps)
    ensures GuardedRun(w, steps) && Dispatched(Run(w, steps))
    decreases |steps|
  {
    if steps == [] {
      DispatchSafe(w, steps);
    } else {
      NeverZeroed(w, steps[0]);
      DoKeeps(w, steps[0]);
      NeverZeroesGuards(Do(w, steps[0]), steps[1..]);
    }
  }

  /** A zeroed waiter that is then closed leaves the counter too high. */
  lemma ZeroThenClose<C>(w: World<C>, c: C)
    requires Inv(w) && c in w.info && w.info[c].request != 0
    ensures var v := Close(SetRequest(w, c, 0), c); Inv(v) && v.leaked == w.leaked + 1 && v.count == w.count
  {
    assert Registered(w, c);
    SetRequestKeeps(w, c, 0);
    CloseKeeps(SetRequest(w, c, 0), c);
  }

  /** No later run makes up for it. */
  lemma {:induction false} LeakStays<C>(w: World<C>, steps: seq<Step<C>>)
    requires Inv(w) && LegalRun(w, steps) && GuardedRun(w, steps) && w.leaked > 0
    ensures Inv(Run(w, steps)) && Run(w, steps).count > |Requesting(Run(w, steps))|
    decreases |steps|
  {
    if steps == [] {
      CountIs(w);
    } else {
      DoKeeps(w, steps[0]);
      LeakStays(Do(w, steps[0]), steps[1..]);
    }
  }
}
