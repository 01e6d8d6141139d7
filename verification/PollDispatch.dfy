/**
 `cort_fd_waiter` and the event loop (`time/cort_timeout_waiter.cpp`) with their fields updated in
 place. The batch is a fixed array; `refData` of a waiter is the index of its slot there. What a
 resumed coroutine does is any sequence of the operations below on any waiters.
 */
module PollDispatch {
  import opened Common
  import opened PollModel

  class FdWaiter {
    var cortFd: int
    var pollRequest: nat
    var refData: Option<nat>

    constructor ()
      ensures cortFd == -1 && pollRequest == 0 && refData == None
    {
      cortFd, pollRequest, refData := -1, 0, None;
    }
  }

  class EventLoop {
    const events: array<Option<FdWaiter>>
    var nfds: nat
    var epollfdTotalCount: int
    var waiters: set<FdWaiter>
    var kernel: set<FdWaiter>  // the waiters whose descriptors are in the epoll set

    ghost var info: map<FdWaiter, Info>
    ghost var leaked: nat
    ghost var batch: seq<FdWaiter>
    ghost var next: nat
    ghost var trace: seq<Event<FdWaiter>>

    ghost function View(): World<FdWaiter>
      reads this, events
    {
      World(info, kernel, epollfdTotalCount, leaked, batch,
            if nfds <= events.Length then events[..nfds] else [], next, trace)
    }

    ghost predicate Remembers(c: FdWaiter)
      reads this, c
      requires c in info
    {
      info[c] == Info(c.cortFd, c.pollRequest, c.refData)
    }

    ghost predicate Valid()
      reads this, waiters, events
    {
      Inv(View()) && Linked()
    }

    ghost predicate Linked()
      reads this, waiters
    {
      nfds <= events.Length && waiters == info.Keys && forall c | c in info :: Remembers(c)
    }

    constructor (maxWaitCount: nat)
      ensures Valid() && fresh(events) && events.Length == maxWaitCount
      ensures waiters == {} && epollfdTotalCount == 0 && NoneIdle(View()) && next == nfds == 0
    {
      events := new Option<FdWaiter>[maxWaitCount](_ => None);
      nfds, epollfdTotalCount, waiters, kernel := 0, 0, {}, {};
      info, leaked, batch, next, trace := map[], 0, [], 0, [];
    }

    // ----- Registration -----

    /** `epoll_ctl` with EPOLL_CTL_ADD: fails for a descriptor that is already known. */
    method EpollAdd(c: FdWaiter) returns (ok: bool)
      modifies this`kernel
      ensures ok == (c !in old(kernel)) && kernel == old(kernel) + {c}
    {
      ok := c !in kernel;
      kernel := kernel + {c};
      assert !ok ==> kernel == old(kernel);
    }

    /** `epoll_ctl` with EPOLL_CTL_DEL: fails for a descriptor that is not known. */
    method EpollDelete(c: FdWaiter) returns (ok: bool)
      modifies this`kernel
      ensures ok == (c in old(kernel)) && kernel == old(kernel) - {c}
    {
      ok := c in kernel;
      kernel := kernel - {c};
    }

    /** `set_poll_request`. */
    method SetPollRequest(c: FdWaiter, r: nat)
      requires Valid() && c in waiters
      modifies this, c
      ensures Valid() && View() == Do(old(View()), Request(c, r))
      ensures SameBatch(old(View()), View()) && waiters == old(waiters)
      ensures c.cortFd == old(c.cortFd) && c.refData == old(c.refData)
      ensures c.pollRequest == if c.cortFd >= 0 then r else old(c.pollRequest)
      ensures kernel == old(kernel) + (if c.cortFd >= 0 && r != 0 then {c} else {})
      ensures epollfdTotalCount == old(epollfdTotalCount) + (if c in kernel && c !in old(kernel) then 1 else 0)
    {
      DoKeeps(View(), Request(c, r));
      DoInBatch(View(), Request(c, r));
      RequestEffect(View(), c, r);
      assert Remembers(c);
      ChangeRequest(c, r);
      assert Remembers(c);
    }

    method ChangeRequest(c: FdWaiter, r: nat)
      requires Linked() && c in waiters
      modifies this, c
      ensures Linked() && waiters == old(waiters) && View() == SetRequest(old(View()), c, r)
    {
      assert Remembers(c);
      if c.pollRequest != r && c.cortFd >= 0 {
        var ok := false;
        if c.pollRequest == 0 {
          ok := EpollAdd(c);
        }
        if ok {
          epollfdTotalCount := epollfdTotalCount + 1;
        }
        Store(c, c.cortFd, r, c.refData);
      }
    }

    /** The fields of `c` are set. */
    method Store(c: FdWaiter, fd: int, request: nat, ref: Option<nat>)
      requires Linked() && c in waiters
      modifies this`info, c
      ensures Linked() && info == old(info)[c := Info(fd, request, ref)]
      ensures c.cortFd == fd && c.pollRequest == request && c.refData == ref
    {
      c.cortFd, c.pollRequest, c.refData := fd, request, ref;
      info := info[c := Info(fd, request, ref)];
      assert forall d | d in info :: d != c ==> old(Remembers(d));
    }

    /** The slot that `c` points at is cleared. */
    method ClearRef(c: FdWaiter)
      requires Linked() && c in waiters && PointsInside(c)
      modifies this`info, this`trace, c, events
      ensures Linked() && View() == Cancel(old(View()), c)
      ensures c.cortFd == old(c.cortFd) && c.pollRequest == old(c.pollRequest) && c.refData == None
    {
      assert Remembers(c);
      if c.refData.Some? {
        events[c.refData.value] := None;
      }
      Store(c, c.cortFd, c.pollRequest, None);
      trace := trace + [Cancelled(c)];
    }

    ghost predicate PointsInside(c: FdWaiter)
      reads this, c
    {
      c.refData.Some? ==> c.refData.value < nfds
    }

    lemma ValidPoints(c: FdWaiter)
      requires Valid() && c in waiters
      ensures Remembers(c) && PointsInside(c)
    {
      assert Remembers(c) && PointsOk(View(), c);
    }

    /** `remove_poll_request`. */
    method RemovePollRequest(c: FdWaiter)
      requires Valid() && c in waiters
      modifies this, c, events
      ensures Valid() && View() == Do(old(View()), Remove(c))
      ensures SameBatch(old(View()), View()) && waiters == old(waiters)
      ensures c.cortFd == old(c.cortFd) && c.pollRequest == 0
      ensures if old(c.pollRequest) != 0
        then c.refData == None && kernel == old(kernel) - {c} && epollfdTotalCount == old(epollfdTotalCount) - 1
             && trace == old(trace) + [Cancelled(c)]
        else View() == old(View())
    {
      DoKeeps(View(), Remove(c));
      DoInBatch(View(), Remove(c));
      RemoveEffect(View(), c);
      ValidPoints(c);
      assert Registered(View(), c);
      if c.cortFd >= 0 && c.pollRequest != 0 {
        DropRequest(c);
      }
      assert Remembers(c);
    }

    method DropRequest(c: FdWaiter)
      requires Linked() && c in waiters && PointsInside(c) && c.cortFd >= 0 && c.pollRequest != 0 && c in kernel
      modifies this, c, events
      ensures Linked() && waiters == old(waiters) && View() == RemoveRequest(old(View()), c)
    {
      assert Remembers(c);
      ClearRef(c);
      Forget(c, c.cortFd);
      epollfdTotalCount := epollfdTotalCount - 1;
    }

    /** The kernel forgets `c`, which has no request any more. */
    method Forget(c: FdWaiter, fd: int)
      requires Linked() && c in waiters && c.refData == None
      modifies this`info, this`kernel, c
      ensures Linked() && kernel == old(kernel) - {c} && info == old(info)[c := Info(fd, 0, None)]
    {
      var _ := EpollDelete(c);
      Store(c, fd, 0, None);
    }

    /** `close_cort_fd`. */
    method CloseCortFd(c: FdWaiter)
      requires Valid() && c in waiters
      modifies this, c, events
      ensures Valid() && View() == Do(old(View()), CloseFd(c))
      ensures SameBatch(old(View()), View()) && waiters == old(waiters)
      ensures c.cortFd == -1 && c.pollRequest == 0
      ensures epollfdTotalCount == old(epollfdTotalCount) - (if old(c.pollRequest) != 0 then 1 else 0)
      ensures if old(c.cortFd) >= 0
        then c.refData == None && kernel == old(kernel) - {c} && trace == old(trace) + [Cancelled(c)]
        else c.refData == old(c.refData) && kernel == old(kernel) && trace == old(trace)
    {
      DoKeeps(View(), CloseFd(c));
      DoInBatch(View(), CloseFd(c));
      CloseEffect(View(), c);
      assert Registered(View(), c);
      ValidPoints(c);
      if c.cortFd > -1 {
        CloseOpen(c);
      } else {
        Store(c, -1, 0, c.refData);
      }
      assert Remembers(c);
    }

    method CloseOpen(c: FdWaiter)
      requires Linked() && c in waiters && PointsInside(c) && c.cortFd > -1
      modifies this, c, events
      ensures Linked() && waiters == old(waiters) && View() == Close(old(View()), c)
    {
      assert Remembers(c);
      ClearRef(c);
      if c.pollRequest != 0 {
        epollfdTotalCount := epollfdTotalCount - 1;
      } else {
        leaked := if c in kernel then leaked + 1 else leaked;
      }
      Forget(c, -1);
    }

    /** `set_cort_fd`, of a waiter that the kernel does not know. */
    method SetCortFd(c: FdWaiter, fd: int)
      requires Valid() && c in waiters && c !in kernel
      modifies this, c
      ensures Valid() && View() == Do(old(View()), ChangeFd(c, fd))
      ensures SameBatch(old(View()), View()) && waiters == old(waiters)
      ensures c.cortFd == fd && c.pollRequest == old(c.pollRequest) && kernel == old(kernel)
      ensures epollfdTotalCount == old(epollfdTotalCount)
    {
      DoKeeps(View(), ChangeFd(c, fd));
      DoInBatch(View(), ChangeFd(c, fd));
      assert Remembers(c);
      Store(c, fd, c.pollRequest, c.refData);
    }

    /** `remove_cort_fd`. */
    method RemoveCortFd(c: FdWaiter)
      requires Valid() && c in waiters
      modifies this, c, events
      ensures Valid() && View() == Do(old(View()), DropFd(c))
      ensures SameBatch(old(View()), View()) && waiters == old(waiters)
      ensures c.cortFd == -1 && c.pollRequest == 0
      ensures kernel == if old(c.pollRequest) != 0 then old(kernel) - {c} else old(kernel)
      ensures epollfdTotalCount == old(epollfdTotalCount) - (if old(c.pollRequest) != 0 then 1 else 0)
    {
      DoKeeps(View(), DropFd(c));
      DoInBatch(View(), DropFd(c));
      RemovePollRequest(c);
      assert Remembers(c);
      Store(c, -1, c.pollRequest, c.refData);
    }

    method NewWaiter() returns (c: FdWaiter)
      requires Valid()
      modifies this
      ensures Valid() && fresh(c) && c !in old(info) && View() == Do(old(View()), Appear(c))
      ensures SameBatch(old(View()), View()) && waiters == old(waiters) + {c}
      ensures c.cortFd == -1 && c.pollRequest == 0 && c.refData == None && kernel == old(kernel)
    {
      c := new FdWaiter();
      DoKeeps(View(), Appear(c));
      DoInBatch(View(), Appear(c));
      waiters := waiters + {c};
      info := info[c := Info(-1, 0, None)];
      assert forall d | d in info :: d != c ==> old(Remembers(d));
    }

    /** The destructor. The kernel is left with a pointer to the deleted waiter exactly if it knew the waiter and there
        was no descriptor to close. */
    method DeleteWaiter(c: FdWaiter)
      requires Valid() && c in waiters
      modifies this, c, events
      ensures Linked() && View() == Do(old(View()), Vanish(c))
      ensures kernel == (if old(c.cortFd) >= 0 then old(kernel) - {c} else old(kernel)) && info == old(info) - {c}
      ensures Valid() <==> old(c.cortFd >= 0 || c !in kernel)
      ensures SameBatch(old(View()), View()) && waiters == old(waiters) - {c}
    {
      assert Remembers(c);
      DoKeeps(View(), Vanish(c));
      DoInBatch(View(), Vanish(c));
      CloseCortFd(c);
      Leave(c);
    }

    method Leave(c: FdWaiter)
      requires Linked() && c in waiters
      modifies this`waiters, this`info
      ensures Linked() && waiters == old(waiters) - {c} && info == old(info) - {c}
    {
      waiters := waiters - {c};
      info := info - {c};
      assert forall d | d in info :: old(Remembers(d));
    }

    // ----- Resuming -----

    /** `resume_on_timeout` of a descriptor waiter, up to the point where its coroutine runs. */
    method ResumeOnTimeout(c: FdWaiter)
      requires Valid() && c in waiters
      modifies this, c, events
      ensures Valid() && View() == Do(old(View()), Timeout(c))
      ensures SameBatch(old(View()), View()) && waiters == old(waiters)
      ensures c.cortFd == old(c.cortFd) && c.pollRequest == old(c.pollRequest) && c.refData == None
      ensures kernel == old(kernel) && epollfdTotalCount == old(epollfdTotalCount)
      ensures trace == old(trace) + [Cancelled(c)]
    {
      DoKeeps(View(), Timeout(c));
      DoInBatch(View(), Timeout(c));
      CancelEffect(View(), c);
      ValidPoints(c);
      ClearRef(c);
    }

    /** `resume_on_stop`, up to the same point. */
    method ResumeOnStop(c: FdWaiter)
      requires Valid() && c in waiters
      modifies this, c, events
      ensures Valid() && View() == Do(old(View()), Stop(c))
      ensures SameBatch(old(View()), View()) && waiters == old(waiters)
      ensures c.cortFd == -1 && c.pollRequest == 0 && c.refData == None
      ensures kernel == if old(c.cortFd) >= 0 then old(kernel) - {c} else old(kernel)
      ensures epollfdTotalCount == old(epollfdTotalCount) - (if old(c.pollRequest) != 0 then 1 else 0)
    {
      CloseCortFd(c);
      ghost var u := View();
      ResumeOnTimeout(c);
      assert View() == Cancel(u, c);
    }

    /** What a resumed coroutine does: anything but polling, deleting the loop, and deleting a waiter that the kernel
        would keep a pointer to. */
    method RunCoroutine()
      requires Valid()
      modifies this, waiters, events
      ensures Valid() && SameBatch(old(View()), View()) && fresh(waiters - old(waiters))
    {
      var n: nat := *;
      while n > 0
        invariant Valid() && SameBatch(old(View()), View()) && fresh(waiters - old(waiters))
      {
        AnyOperation();
        n := n - 1;
      }
    }

    method AnyOperation()
      requires Valid()
      modifies this, waiters, events
      ensures Valid() && SameBatch(old(View()), View()) && fresh(waiters - old(waiters))
    {
      if waiters == {} {
        var _ := NewWaiter();
      } else {
        var c :| c in waiters;
        Operate(c);
      }
    }

    method Operate(c: FdWaiter)
      requires Valid() && c in waiters
      modifies this, c, events
      ensures Valid() && SameBatch(old(View()), View()) && fresh(waiters - old(waiters))
    {
      var r: nat := *;
      var fd: int := *;
      if {
        case true => SetPollRequest(c, r);
        case true => RemovePollRequest(c);
        case true => CloseCortFd(c);
        case true => RemoveCortFd(c);
        case c !in kernel => SetCortFd(c, fd);
        case true => ResumeOnTimeout(c);
        case true => ResumeOnStop(c);
        case true => var _ := NewWaiter();
        case c.cortFd >= 0 || c !in kernel => DeleteWaiter(c);
      }
    }

    // ----- The batch -----

    /** The two loops of `cort_timer_poll` over a batch `reported` by the kernel. Every waiter in it is resumed at most
        once, and is either resumed or cancelled; nobody is resumed after having been cancelled. */
    method DispatchBatch(reported: seq<FdWaiter>)
      requires Valid() && next == nfds && |reported| <= events.Length && Reportable(View(), reported)
      modifies this, waiters, events
      ensures Valid() && next == nfds && batch == reported && AllAnswered(View()) && Once(trace)
    {
      FetchBatch(reported);
      var i := 0;
      while i < nfds
        invariant Valid() && i == next <= nfds == |reported| && batch == reported
        invariant fresh(waiters - old(waiters))
      {
        ResumeOnPoll(i);
        i := i + 1;
      }
      BatchAnswered(View());
    }

    /** One turn of the second loop. */
    method ResumeOnPoll(i: nat)
      requires Valid() && i == next < nfds
      modifies this, waiters, events
      ensures Valid() && next == i + 1 && nfds == old(nfds) && batch == old(batch) && fresh(waiters - old(waiters))
      ensures old(events[i]).Some? ==> old(trace) + [Delivered(old(events[i]).value)] <= trace
      ensures old(events[i]).None? ==> trace == old(trace)
    {
      DeliverKeeps(View());
      var slot := events[i];
      DeliverSlot(i);
      if slot.Some? {
        RunCoroutine();
      }
    }

    method DeliverSlot(i: nat)
      requires Linked() && i == next < nfds && (events[i].Some? ==> events[i].value in waiters)
      modifies this`info, this`next, this`trace, waiters
      ensures Linked() && waiters == old(waiters) && View() == Deliver(old(View()))
      ensures old(events[i]).Some? ==>
        trace == old(trace) + [Delivered(old(events[i]).value)] && old(events[i]).value.refData == None
      ensures old(events[i]).None? ==> trace == old(trace)
    {
      if events[i].Some? {
        var c := events[i].value;
        assert Remembers(c);
        Store(c, c.cortFd, c.pollRequest, None);
        trace := trace + [Delivered(c)];
      }
      next := next + 1;
    }

    /** The first loop: each waiter is pointed at its slot. */
    method FetchBatch(reported: seq<FdWaiter>)
      requires Valid() && next == nfds && |reported| <= events.Length && Reportable(View(), reported)
      modifies this, waiters, events
      ensures Valid() && View() == Fetch(old(View()), reported) && waiters == old(waiters)
      ensures nfds == |reported| && next == 0 && trace == []
      ensures forall i :: 0 <= i < nfds ==> events[i] == Some(reported[i]) && reported[i].refData == Some(i)
    {
      ghost var w := View();
      FetchKeeps(w, reported);
      FetchEffect(w, reported);
      PointAll(reported);
      forall i | 0 <= i < nfds ensures events[i] == Some(reported[i]) && reported[i].refData == Some(i) {
        assert View().slots[i] == Some(reported[i]) && Remembers(reported[i]);
      }
    }

    method PointAll(reported: seq<FdWaiter>)
      requires Valid() && next == nfds && |reported| <= events.Length && Reportable(View(), reported)
      modifies this, waiters, events
      ensures Linked() && View() == Fetch(old(View()), reported) && waiters == old(waiters) && nfds == |reported|
    {
      ghost var w := View();
      Receive(reported);
      var i := 0;
      while i < nfds
        invariant i <= nfds == |reported| && Linked() && waiters == old(waiters) && View() == PointedAt(w, reported, i)
      {
        PointSlot(i, w, reported);
        i := i + 1;
      }
    }

    /** One turn of that loop. */
    method PointSlot(i: nat, ghost w: World<FdWaiter>, ghost reported: seq<FdWaiter>)
      requires Linked() && i < nfds == |reported| && Inv(w) && Reportable(w, reported)
      requires View() == PointedAt(w, reported, i)
      modifies this`info, waiters
      ensures Linked() && View() == PointedAt(w, reported, i + 1)
    {
      PointedStep(w, reported, i);
      assert events[i] == View().slots[i];
      var c := events[i].value;
      assert Remembers(c);
      Store(c, c.cortFd, c.pollRequest, Some(i));
    }

    /** `epoll_wait` fills the array. */
    method Receive(reported: seq<FdWaiter>)
      requires Valid() && next == nfds && |reported| <= events.Length && Reportable(View(), reported)
      modifies this`nfds, this`next, this`trace, this`batch, events
      ensures Linked() && waiters == old(waiters) && View() == PointedAt(old(View()), reported, 0) && nfds == |reported|
    {
      nfds := |reported|;
      forall k | 0 <= k < nfds {
        events[k] := Some(reported[k]);
      }
      next, trace, batch := 0, [], reported;
      assert forall c | c in info :: old(Remembers(c));
      assert events[..nfds] == seq(nfds, k requires 0 <= k < |reported| => Some(reported[k]));
    }
  }
}
