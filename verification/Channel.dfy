/**
 The channel of `cort_channel.h` with its fields updated in place.

 `try_resume` runs the woken coroutine at once, and that coroutine may use the channel again before
 the call returns. So every wake-up below is a point at which any sequence of legal channel
 operations may run, to any depth: `fuel` bounds the depth and is arbitrary. A coroutine pops only
 while it holds a pin.
 */
module Channel {
  import opened Common
  import opened ChannelModel

  class CortChannel<T> {
    var objects: seq<T>
    var recvers: seq<Waiter>
    var senders: seq<Waiter>
    var parent: Option<Waiter>        // the newest waiting receiver
    var senderParent: Option<Waiter>  // the newest blocked sender
    var pinned: nat
    var bufferSize: nat
    ghost var h: Past<T>

    ghost function View(): World<T>
      reads this
    {
      World(Chan(objects, recvers, senders, parent, senderParent, pinned, bufferSize), h)
    }

    /** The invariant, and no call is left pending that was not pending in `s`. */
    ghost predicate Follows(s: World<T>, resize: bool)
      reads this
    {
      Inv(View()) && Later(s, View(), resize) && h.pushing == s.h.pushing && h.owed == s.h.owed
    }

    constructor (defaultBufferSize: nat)
      ensures View() == Fresh(defaultBufferSize) && Inv(View())
    {
      objects, recvers, senders, parent, senderParent := [], [], [], None, None;
      pinned, bufferSize := 0, defaultBufferSize;
      h := Past([], [], [], [], [], [], 0, 0, false, 0, false, false);
    }

    // ----- Steps between two wake-ups -----

    method TakeOrWait(w: Waiter) returns (waits: bool)
      modifies this
      ensures View() == Arrive(old(View()), w) && waits == old(|objects| <= pinned)
      ensures h.arrived == old(h.arrived) + [w]
      ensures if waits then parent == Some(w) && View().c.Receivers() == old(View()).c.Receivers() + [w]
              else pinned == old(pinned) + 1 && h.served == old(h.served) + [w]
    {
      h := Arrive(View(), w).h;
      waits := |objects| <= pinned;
      if !waits {
        pinned := pinned + 1;
      } else {
        if parent.Some? {
          recvers := recvers + [parent.value];
        }
        parent := Some(w);
      }
    }

    method QueueParent() returns (moved: bool)
      modifies this
      ensures View() == Line(old(View())) && moved == old(parent.Some?)
    {
      moved := parent.Some?;
      if moved {
        recvers := recvers + [parent.value];
        parent := None;
      }
      assert recvers == old(View()).c.Receivers();
    }

    method PushBack(xs: seq<T>)
      modifies this
      ensures View() == Store(old(View()), xs)
    {
      ghost var s := View();
      objects := objects + xs;
      var _ := QueueParent();
      h := Store(s, xs).h;
    }

    method GrantFirst() returns (w: Waiter)
      requires recvers != []
      modifies this
      ensures View() == Grant(old(View())) && w == old(recvers)[0]
    {
      h := Grant(View()).h;
      w := recvers[0];
      recvers := recvers[1..];
      pinned := pinned + 1;
    }

    method BlockIfFull(p: Waiter, ghost wasPushing: bool) returns (blocked: bool)
      modifies this
      ensures View() == Settle(old(View()), p, wasPushing) && blocked == (|objects| > bufferSize)
      ensures h.entered == old(h.entered) + (if blocked then [p] else [])
      ensures blocked ==> senderParent == Some(p) && View().c.Blocked() == old(View()).c.Blocked() + [p]
    {
      h := Settle(View(), p, wasPushing).h;
      blocked := |objects| > bufferSize;
      if blocked {
        if senderParent.Some? {
          senders := senders + [senderParent.value];
        }
        senderParent := Some(p);
      }
    }

    method PopFront()
      requires objects != [] && pinned > 0 && h.outstanding > 0
      modifies this
      ensures View() == Take(old(View()))
    {
      h := Take(View()).h;
      objects := objects[1..];
      pinned := pinned - 1;
    }

    method FreeSender() returns (freed: Option<Waiter>)
      modifies this
      ensures View() == AfterTake(old(View()))
      ensures freed == old(if |objects| < bufferSize then None else if senderParent.Some? then senderParent
                           else if senders != [] then Some(senders[0]) else None)
      ensures freed.Some? ==> h.woken != [] && h.woken[|h.woken| - 1] == freed.value
    {
      h := AfterTake(View()).h;
      if |objects| < bufferSize {
        return None;
      }
      if senderParent.Some? {
        freed := senderParent;
        senderParent := None;
      } else if senders != [] {
        freed := Some(senders[0]);
        senders := senders[1..];
      } else {
        freed := None;
      }
    }

    method FreeQueued() returns (w: Waiter)
      requires senders != [] && h.owed > 0
      modifies this
      ensures View() == Repay(old(View())) && w == old(senders)[0]
    {
      h := Repay(View()).h;
      w := senders[0];
      senders := senders[1..];
    }

    method SetLarger(size: nat) returns (freed: Option<Waiter>)
      requires size > bufferSize
      modifies this
      ensures View() == Enlarge(old(View()), size) && freed == old(senderParent)
    {
      h := Enlarge(View(), size).h;
      bufferSize := size;
      freed := senderParent;
      senderParent := None;
    }

    method QueueSenderParent(ghost s: World<T>) returns (moved: bool)
      requires View() == s.(c := s.c.(bufferSize := CLOSED_BUFFER))
      modifies this
      ensures View() == Shut(s) && moved == s.c.senderParent.Some?
    {
      h := Shut(s).h;
      moved := senderParent.Some?;
      if moved {
        senders := senders + [senderParent.value];
        senderParent := None;
      }
    }

    method DismissFirst() returns (w: Waiter)
      requires recvers != []
      modifies this
      ensures View() == Dismiss(old(View())) && w == old(recvers)[0]
    {
      h := Dismiss(View()).h;
      w := recvers[0];
      recvers := recvers[1..];
      if |objects| > pinned {
        pinned := pinned + 1;
      }
    }

    // ----- Wake-ups -----

    /** `try_resume`: the coroutine `w` may run at once and use the channel in any legal way; `resize` says whether
        that includes setting the buffer size. */
    method TryResume(w: Waiter, fuel: nat, resize: bool)
      requires Inv(View()) && h.woken != [] && h.woken[|h.woken| - 1] == w
      modifies this
      ensures Follows(old(View()), resize)
      ensures fuel == 0 ==> View() == old(View())
      decreases fuel, 0
    {
      if fuel > 0 {
        RunCoroutine(fuel - 1, resize);
      } else {
        LaterSame(View(), resize);
      }
    }

    /** `try_resume` of the sender that was taken out of its place, if there was one. */
    method Resume(freed: Option<Waiter>, fuel: nat, resize: bool)
      requires Inv(View()) && (freed.Some? ==> h.woken != [] && h.woken[|h.woken| - 1] == freed.value)
      modifies this
      ensures Follows(old(View()), resize)
      ensures fuel == 0 ==> View() == old(View())
      decreases fuel, 1
    {
      if freed.Some? {
        TryResume(freed.value, fuel, resize);
      } else {
        LaterSame(View(), resize);
      }
    }

    method RunCoroutine(fuel: nat, resize: bool)
      requires Inv(View())
      modifies this
      ensures Follows(old(View()), resize)
      decreases fuel, 7
    {
      var n: nat := *;
      ghost var s := View();
      LaterSame(s, resize);
      while n > 0
        invariant Follows(s, resize)
      {
        ghost var t := View();
        AnyOperation(fuel, resize);
        LaterLater(s, t, View(), resize);
        n := n - 1;
      }
    }

    method AnyOperation(fuel: nat, resize: bool)
      requires Inv(View())
      modifies this
      ensures Follows(old(View()), resize)
      decreases fuel, 6
    {
      var xs: seq<T> := *;
      var w: Waiter := *;
      var size: nat := *;
      ghost var s := View();
      if {
        case |xs| == 1 && |objects| < CLOSED_BUFFER => var _ := Push(xs[0], w, fuel, resize);
        case xs != [] && |objects| + |xs| <= CLOSED_BUFFER => var _ := AfterPush(xs, w, fuel, resize);
        case pinned > 0 => var _ := Pop(fuel, resize);
        case true => var _ := WaitPopable(w); LaterWeaken(s, View(), resize);
        case resize => SetBufferSize(size, fuel);
        case true => Close(fuel); LaterWeaken(s, View(), resize);
      }
    }

    // ----- Consumers -----

    /** `wait_popable_check`, with the `set_parent` of the coroutine that awaits it. */
    method WaitPopable(w: Waiter) returns (waits: bool)
      requires Inv(View())
      modifies this
      ensures Follows(old(View()), false)
      ensures View() == WaitOne(old(View()), w)
      ensures waits == (bufferSize != CLOSED_BUFFER && old(|objects| <= pinned))
      ensures waits ==> parent == Some(w) && View().c.Receivers() == old(View()).c.Receivers() + [w]
      ensures bufferSize != CLOSED_BUFFER ==> h.arrived == old(h.arrived) + [w]
      ensures !waits && bufferSize != CLOSED_BUFFER ==> pinned == old(pinned) + 1 && h.served == old(h.served) + [w]
    {
      ghost var s := View();
      if bufferSize == CLOSED_BUFFER {
        LaterSame(s, false);
        return false;
      }
      waits := TakeOrWait(w);
      ArriveKeeps(s, w);
    }

    /** `get`: unless several items were pushed at once, a consumer that holds a pin of an open channel finds the
        oldest item that was not yet popped. */
    method Get() returns (x: Option<T>)
      requires Inv(View())
      ensures x.Some? <==> objects != [] && bufferSize != CLOSED_BUFFER
      ensures x.Some? ==> |h.popped| < |h.pushed| && x.value == h.pushed[|h.popped|]
      ensures h.outstanding > 0 && !h.multi && bufferSize != CLOSED_BUFFER ==> x.Some?
    {
      if |objects| == 0 || bufferSize == CLOSED_BUFFER {
        return None;
      }
      return Some(objects[0]);
    }

    /** `pop` and `after_pop`. The newest blocked sender is woken before the queued ones. */
    method Pop(fuel: nat, resize: bool) returns (size: nat)
      requires Inv(View()) && h.outstanding > 0
      modifies this
      ensures Follows(old(View()), resize) && size == |old(objects)|
      ensures size > 0 ==> old(h.popped) + [old(objects)[0]] <= h.popped
      ensures fuel == 0 ==> View() == PopOne(old(View()))
      ensures size > old(bufferSize) ==> SenderWoken(old(View()), View())
      decreases fuel, 5
    {
      ghost var s := View();
      size := |objects|;
      if size == 0 {
        LaterSame(s, resize);
        return;
      }
      assert Consumers(s, 0);
      PopFront();
      AfterPop(s, fuel, resize);
    }

    /** `after_pop`, when the object of `s` is gone. */
    method AfterPop(ghost s: World<T>, fuel: nat, resize: bool)
      requires Inv(s) && s.c.objects != [] && s.h.outstanding > 0 && View() == Take(s)
      modifies this
      ensures Follows(s, resize) && s.h.popped + [s.c.objects[0]] <= h.popped
      ensures fuel == 0 ==> View() == AfterTake(Take(s))
      ensures |s.c.objects| > s.c.bufferSize ==> SenderWoken(s, View())
      decreases fuel, 3
    {
      var freed := MakeRoom(s, resize);
      ghost var t := View();
      Resume(freed, fuel, resize);
      LaterLater(s, t, View(), resize);
      LogsGrow(t, View(), resize);
      if |s.c.objects| > s.c.bufferSize {
        SenderStaysWoken(s, t, View(), resize);
      }
    }

    method MakeRoom(ghost s: World<T>, ghost resize: bool) returns (freed: Option<Waiter>)
      requires Inv(s) && s.c.objects != [] && s.h.outstanding > 0 && View() == Take(s)
      modifies this
      ensures View() == AfterTake(Take(s)) && Follows(s, resize) && s.h.popped + [s.c.objects[0]] <= h.popped
      ensures freed.Some? ==> h.woken != [] && h.woken[|h.woken| - 1] == freed.value
      ensures |s.c.objects| > s.c.bufferSize ==> SenderWoken(s, View())
    {
      PopWakes(s);
      PopKeeps(s);
      PopLater(s);
      freed := FreeSender();
    }

    // ----- Producers -----

    /** `push` of a `cort_channel`. */
    method Push(x: T, p: Waiter, fuel: nat, resize: bool) returns (blocked: bool)
      requires Inv(View()) && |objects| < CLOSED_BUFFER
      modifies this
      ensures Follows(old(View()), resize)
      ensures old(h.pushed) + (if old(bufferSize) == CLOSED_BUFFER then [] else [x]) <= h.pushed
      ensures fuel == 0 ==>
        View() == if old(bufferSize) == CLOSED_BUFFER then old(View()) else PushAll(old(View()), [x], p)
      ensures old(bufferSize) == CLOSED_BUFFER ==> !blocked
      ensures old(bufferSize) != CLOSED_BUFFER ==> (blocked <==> |objects| > bufferSize)
      ensures blocked ==> senderParent == Some(p)
      ensures old(bufferSize) != CLOSED_BUFFER ==> FirstWoken(old(View()), View())
      decreases fuel, 5
    {
      if bufferSize == CLOSED_BUFFER {
        LaterSame(View(), resize);
        return false;
      }
      blocked := AfterPush([x], p, fuel, resize);
    }

    /** `push` of a `cort_event_channel`, and `after_push` with the `set_parent` of a coroutine that awaits it. */
    method AfterPush(xs: seq<T>, p: Waiter, fuel: nat, resize: bool) returns (blocked: bool)
      requires Inv(View()) && xs != [] && |objects| + |xs| <= CLOSED_BUFFER
      modifies this
      ensures Follows(old(View()), resize)
      ensures old(h.pushed) + xs <= h.pushed
      ensures fuel == 0 ==> View() == PushAll(old(View()), xs, p)
      ensures !resize && old(bufferSize) == CLOSED_BUFFER ==> !blocked
      ensures blocked <==> |objects| > bufferSize
      ensures blocked ==> senderParent == Some(p)
      ensures FirstWoken(old(View()), View())
      decreases fuel, 4
    {
      ghost var s := View();
      Supply(xs, fuel, resize);
      ghost var t := View();
      blocked := AnswerPush(p, s.h.pushing, resize);
      StaysWoken(s, t, View(), resize);
      LaterLater(s, t, View(), resize);
      if !resize && s.c.IsClosed() {
        ShutMeans(s, View());
      }
    }

    /** `after_push` when the receivers are woken. */
    method AnswerPush(p: Waiter, ghost wasPushing: bool, ghost resize: bool) returns (blocked: bool)
      requires Inv(View()) && h.pushing && (wasPushing ==> h.nested)
      modifies this
      ensures View() == Settle(old(View()), p, wasPushing) && Inv(View()) && Later(old(View()), View(), resize)
      ensures h.pushing == wasPushing && h.owed == old(h.owed)
      ensures blocked == (|objects| > bufferSize) && (blocked ==> senderParent == Some(p))
    {
      SettleKeeps(View(), p, wasPushing);
      blocked := BlockIfFull(p, wasPushing);
    }

    /** The objects are stored and receivers are woken for them. */
    method Supply(xs: seq<T>, fuel: nat, resize: bool)
      requires Inv(View()) && xs != [] && |objects| + |xs| <= CLOSED_BUFFER
      modifies this
      ensures Inv(View()) && Later(old(View()), View(), resize) && old(h.pushed) + xs <= h.pushed
      ensures h.pushing && h.owed == old(h.owed) && (old(h.pushing) ==> h.nested)
      ensures fuel == 0 ==> View() == GrantUpTo(Store(old(View()), xs), |xs|)
      ensures FirstWoken(old(View()), View())
      decreases fuel, 3
    {
      ghost var s := View();
      StoreKeeps(s, xs);
      PushBack(xs);
      ghost var t := View();
      WakeReceivers(|xs|, fuel, resize, GrantUpTo(t, |xs|));
      StoreWakes(s, xs, View());
      LaterLater(s, t, View(), resize);
      LogsGrow(t, View(), resize);
    }

    /** The loop of `after_push`; if no other coroutine interferes the channel comes to `goal`. */
    method WakeReceivers(n: nat, fuel: nat, resize: bool, ghost goal: World<T>)
      requires Granting(View(), n) && parent.None? && GrantsTo(View(), n, fuel, goal)
      modifies this
      ensures Inv(View()) && Later(old(View()), View(), resize)
      ensures h.pushing && h.owed == old(h.owed)
      ensures fuel == 0 ==> View() == goal
      ensures n > 0 ==> FirstWoken(old(View()), View())
      decreases fuel, 2
    {
      ghost var s := View();
      ghost var t := s;
      ghost var turns: nat := 0;
      SupplyBegins(s, n, resize);
      var delta: nat := n;
      while delta != 0 && recvers != []
        invariant t == View() && Supplying(s, t, delta, turns, resize) && delta + turns == n
        invariant GrantsTo(t, delta, fuel, goal)
      {
        delta := delta - 1;
        WakeReceiver(delta, fuel, resize);
        GrantStep(t, delta, fuel, goal, View());
        SupplyTurns(s, t, delta, turns, View(), resize);
        t, turns := View(), turns + 1;
      }
      GrantStop(t, delta, fuel, goal);
      SupplyEnds(s, t, delta, turns, resize);
    }

    /** One turn of that loop. */
    method WakeReceiver(delta: nat, fuel: nat, resize: bool)
      requires Granting(View(), delta + 1) && recvers != []
      modifies this
      ensures Granting(View(), delta) && Later(old(View()), View(), resize) && h.owed == old(h.owed)
      ensures fuel == 0 ==> View() == Grant(old(View()))
      ensures FirstWoken(old(View()), View())
      decreases fuel, 1
    {
      ghost var s := View();
      GrantKeeps(s, delta + 1);
      GrantWakes(s);
      var w := GrantFirst();
      ghost var t := View();
      TryResume(w, fuel, resize);
      StaysWoken(s, t, View(), resize);
      StillGranting(t, View(), delta, resize);
      LaterLater(s, t, View(), resize);
    }

    /** `set_buffer_size`. */
    method SetBufferSize(size: nat, fuel: nat)
      requires Inv(View())
      modifies this
      ensures Follows(old(View()), true)
      ensures fuel == 0 ==> View() == Resize(old(View()), size)
      decreases fuel, 5
    {
      ghost var s := View();
      var oldCount := bufferSize;
      if size > oldCount {
        var left := WakeNewest(size, fuel);
        ghost var u := View();
        WakeSenders(left - oldCount, s.h.owed, fuel, true, Resize(s, size));
        LaterLater(s, u, View(), true);
      } else {
        bufferSize := size;
        ShrinkKeeps(s, size);
        LaterSame(s, true);
      }
    }

    /** A larger size is set and the newest sender is woken. */
    method WakeNewest(size: nat, fuel: nat) returns (left: nat)
      requires Inv(View()) && size > bufferSize
      modifies this
      ensures Inv(View()) && Later(old(View()), View(), true) && h.pushing == old(h.pushing)
      ensures left >= old(bufferSize) && h.owed == old(h.owed) + left - old(bufferSize)
      ensures fuel == 0 ==> Repaid(View(), left - old(bufferSize), old(h.owed)) == Resize(old(View()), size)
      decreases fuel, 2
    {
      ghost var s := View();
      var freed;
      freed, left := TakeNewest(size);
      ghost var t := View();
      Resume(freed, fuel, true);
      LaterLater(s, t, View(), true);
    }

    method TakeNewest(size: nat) returns (freed: Option<Waiter>, left: nat)
      requires Inv(View()) && size > bufferSize
      modifies this
      ensures Inv(View()) && Later(old(View()), View(), true) && h.pushing == old(h.pushing)
      ensures left >= old(bufferSize) && h.owed == old(h.owed) + left - old(bufferSize)
      ensures freed.Some? ==> h.woken != [] && h.woken[|h.woken| - 1] == freed.value
      ensures Repaid(View(), left - old(bufferSize), old(h.owed)) == Resize(old(View()), size)
    {
      ghost var s := View();
      TakesNewest(s, size);
      left := if senderParent.Some? then size - 1 else size;
      ResizeIs(s, size, left - s.c.bufferSize, Enlarge(s, size));
      freed := SetLarger(size);
    }

    /** Up to `n` queued senders are woken, as many as are owed beyond `owed`; if no other coroutine interferes the
        channel comes to `goal`. */
    method WakeSenders(n: nat, ghost owed: nat, fuel: nat, resize: bool, ghost goal: World<T>)
      requires Inv(View()) && h.owed == owed + n && (fuel == 0 ==> Repaid(View(), n, owed) == goal)
      modifies this
      ensures Inv(View()) && Later(old(View()), View(), resize) && h.pushing == old(h.pushing) && h.owed == owed
      ensures fuel == 0 ==> View() == goal
      decreases fuel, 2
    {
      ghost var s := View();
      ghost var t := s;
      LaterSame(s, resize);
      var left := n;
      while left > 0 && senders != []
        invariant t == View() && Inv(t) && Later(s, t, resize)
        invariant t.h.owed == owed + left && t.h.pushing == s.h.pushing
        invariant fuel == 0 ==> Repaid(t, left, owed) == goal
      {
        RepaidStep(t, left, owed);
        left := left - 1;
        WakeSender(fuel, resize);
        LaterLater(s, t, View(), resize);
        t := View();
      }
      RepaidDone(t, left, owed);
      StopOwing(owed, resize);
      LaterLater(s, t, View(), resize);
    }

    ghost method StopOwing(owed: nat, resize: bool)
      requires Inv(View()) && owed <= h.owed && (senders == [] || owed == h.owed)
      modifies this
      ensures View() == Forgive(old(View()), owed) && Inv(View()) && Later(old(View()), View(), resize)
    {
      ForgiveKeeps(View(), owed);
      h := h.(owed := owed);
    }

    /** The first queued sender is woken, one of those owed it. */
    method WakeSender(fuel: nat, resize: bool)
      requires Inv(View()) && senders != [] && h.owed > 0
      modifies this
      ensures Inv(View()) && Later(old(View()), View(), resize)
      ensures h.pushing == old(h.pushing) && h.owed == old(h.owed) - 1 && Later(Repay(old(View())), View(), resize)
      ensures fuel == 0 ==> View() == Repay(old(View()))
      decreases fuel, 1, 0
    {
      ghost var s := View();
      RepayKeeps(s);
      var w := FreeQueued();
      ghost var t := View();
      TryResume(w, fuel, resize);
      LaterLater(s, t, View(), resize);
    }

    // ----- Close -----

    /** `close` and `awake_all`: nobody is left waiting, everybody who waited is woken once and nobody starts to
        wait meanwhile, provided that the woken coroutines do not set the buffer size. */
    method Close(fuel: nat)
      requires Inv(View())
      modifies this
      ensures Follows(old(View()), false)
      ensures Drained(View()) && h.entered == old(h.entered) && multiset(h.woken) == multiset(old(h.entered))
      ensures fuel == 0 ==> View() == ChannelModel.Close(old(View()))
      decreases fuel, 5
    {
      ghost var s := View();
      bufferSize := CLOSED_BUFFER;
      var recheck := AwakeRound(s, fuel);
      ghost var t := View();
      while recheck
        invariant t == View() && Follows(s, false) && Drained(t) && t.h.entered == s.h.entered
        invariant fuel == 0 ==> t == ChannelModel.Close(s)
        decreases recheck
      {
        recheck := AwakeRound(t, fuel);
        LaterLater(s, t, View(), false);
        DrainedIdle(t);
        t := View();
      }
      assert Accounted(t);
    }

    /** One round of `awake_all`, after the buffer size of `s` was set to closed. */
    method AwakeRound(ghost s: World<T>, fuel: nat) returns (woke: bool)
      requires Inv(s) && View() == s.(c := s.c.(bufferSize := CLOSED_BUFFER))
      modifies this
      ensures Follows(s, false) && Drained(View()) && h.entered == s.h.entered
      ensures woke ==> s.c.Blocked() != [] || s.c.Receivers() != []
      ensures fuel == 0 ==> View() == ChannelModel.Close(s)
      decreases fuel, 4
    {
      var some := AwakeSenders(s, fuel);
      ghost var t := View();
      woke := AwakeReceivers(fuel);
      LaterLater(s, t, View(), false);
      ShutMeans(t, View());
      woke := woke || some;
    }

    /** The first half of a round: the senders. */
    method AwakeSenders(ghost s: World<T>, fuel: nat) returns (woke: bool)
      requires Inv(s) && View() == s.(c := s.c.(bufferSize := CLOSED_BUFFER))
      modifies this
      ensures Follows(s, false) && View().c.IsClosed() && View().c.Blocked() == [] && h.entered == s.h.entered
      ensures woke == (s.c.Blocked() != []) && |View().c.Receivers()| <= |s.c.Receivers()|
      ensures fuel == 0 ==> View() == SendersOut(s)
      decreases fuel, 3
    {
      ShutKeeps(s);
      woke := QueueSenderParent(s);
      ghost var t := View();
      var some := DrainSenders(s.h.owed, fuel);
      LaterLater(s, t, View(), false);
      ShutMeans(t, View());
      woke := woke || some;
    }

    /** The loop of that half. */
    method DrainSenders(ghost owed: nat, fuel: nat) returns (woke: bool)
      requires Inv(View()) && View().c.IsClosed() && senderParent.None? && h.owed == owed + |senders|
      modifies this
      ensures Inv(View()) && Later(old(View()), View(), false) && View().c.Blocked() == []
      ensures h.pushing == old(h.pushing) && h.owed == owed
      ensures woke == (old(senders) != [])
      ensures fuel == 0 ==> View() == RepaidAll(old(View()), owed)
      decreases fuel, 2
    {
      ghost var s, goal := View(), RepaidAll(View(), owed);
      ghost var t := s;
      LaterSame(s, false);
      woke := false;
      while senders != []
        invariant t == View() && Inv(t) && Later(s, t, false) && t.c.IsClosed() && t.c.senderParent.None?
        invariant t.h.pushing == s.h.pushing && t.h.owed >= owed + |t.c.senders|
        invariant if woke then s.c.senders != [] else t == s
        invariant fuel == 0 ==> RepaidAll(t, owed) == goal
        decreases |senders|
      {
        RepaidAllStep(t, owed);
        DrainOne(fuel);
        LaterLater(s, t, View(), false);
        t := View();
        woke := true;
      }
      RepaidDone(t, |t.c.senders|, owed);
      StopOwing(owed, false);
      LaterLater(s, t, View(), false);
    }

    /** One turn of that loop. */
    method DrainOne(fuel: nat)
      requires Inv(View()) && View().c.IsClosed() && senderParent.None? && senders != [] && h.owed > 0
      modifies this
      ensures Inv(View()) && Later(old(View()), View(), false) && View().c.IsClosed() && senderParent.None?
      ensures |senders| < |old(senders)| && h.pushing == old(h.pushing) && h.owed == old(h.owed) - 1
      ensures fuel == 0 ==> View() == Repay(old(View()))
      decreases fuel, 1, 1
    {
      ghost var s := View();
      WakeSender(fuel, false);
      ShutMeans(Repay(s), View());
    }

    /** The second half of a round: the receivers, with a pin while there are objects left. */
    method AwakeReceivers(fuel: nat) returns (woke: bool)
      requires Inv(View()) && View().c.IsClosed()
      modifies this
      ensures Follows(old(View()), false) && View().c.Receivers() == []
      ensures woke == (old(View()).c.Receivers() != [])
      ensures fuel == 0 ==> View() == ReceiversOut(old(View()))
      decreases fuel, 2
    {
      ghost var s := View();
      LineKeeps(s);
      woke := QueueParent();
      ghost var t := View();
      while recvers != []
        invariant t == View() && Inv(t) && t.c.IsClosed() && t.c.parent.None? && Later(s, t, false)
        invariant t.h.pushing == s.h.pushing && t.h.owed == s.h.owed
        invariant !woke ==> t.c.Receivers() == s.c.Receivers()
        invariant woke ==> s.c.Receivers() != []
        invariant fuel == 0 ==> DismissAll(t) == ReceiversOut(s)
        decreases |recvers|
      {
        DismissReceiver(fuel);
        LaterLater(s, t, View(), false);
        t := View();
        woke := true;
      }
    }

    /** One turn of that loop. */
    method DismissReceiver(fuel: nat)
      requires Inv(View()) && recvers != [] && View().c.IsClosed() && parent.None?
      modifies this
      ensures Follows(old(View()), false) && View().c.IsClosed() && parent.None? && |recvers| < |old(recvers)|
      ensures fuel == 0 ==> View() == Dismiss(old(View()))
      decreases fuel, 1
    {
      ghost var s := View();
      DismissKeeps(s);
      var w := DismissFirst();
      ghost var t := View();
      TryResume(w, fuel, false);
      LaterLater(s, t, View(), false);
      ShutMeans(t, View());
    }
  }
}
