/**
 The channel protocol of `cort_channel.h` on values: the steps that happen between two wake-ups,
 what each keeps, and whole runs in which woken coroutines only become ready.
 */
module ChannelModel {
  import opened Common

  const CLOSED_BUFFER: nat := 0xFFFF_FFFF_FFFF_FFFE

  type Waiter = nat

  function Slot(o: Option<Waiter>): seq<Waiter> {
    if o.Some? then [o.value] else []
  }

  /** How far `size` exceeds `limit`. */
  function Over(size: int, limit: int): nat {
    if size > limit then size - limit else 0
  }

  /** The fields of the channel; `parent` and `senderParent` hold the newest waiting receiver and blocked sender. */
  datatype Chan<T> = Chan(objects: seq<T>, recvers: seq<Waiter>, senders: seq<Waiter>, parent: Option<Waiter>,
                          senderParent: Option<Waiter>, pinned: nat, bufferSize: nat)
  {
    function Receivers(): seq<Waiter> {
      recvers + Slot(parent)
    }

    function Blocked(): seq<Waiter> {
      senders + Slot(senderParent)
    }

    predicate IsClosed() {
      bufferSize == CLOSED_BUFFER
    }
  }

  /** What happened so far: items in and out; receivers in the order of their calls and in the order they were
      served; who started to wait and who was woken; pins in force; receivers released without a pin. `pushing`
      holds while a push wakes receivers, `owed` counts the senders that running calls of set_buffer_size have
      yet to wake, `multi` says that several items were pushed at once, `nested` that an item was pushed during
      the wake-ups of another push. */
  datatype Past<T> = Past(pushed: seq<T>, popped: seq<T>, arrived: seq<Waiter>, served: seq<Waiter>,
                          entered: seq<Waiter>, woken: seq<Waiter>, outstanding: nat, dismissed: nat,
                          pushing: bool, owed: nat, multi: bool, nested: bool)

  datatype World<T> = World(c: Chan<T>, h: Past<T>)

  function Fresh<T>(bufferSize: nat): World<T> {
    World(Chan([], [], [], None, None, 0, bufferSize), Past([], [], [], [], [], [], 0, 0, false, 0, false, false))
  }

  /** The senders in the order in which room in the buffer wakes them: the newest, then the queued ones. */
  function WakeOrder<T>(c: Chan<T>): seq<Waiter> {
    Slot(c.senderParent) + c.senders
  }

  // ----- What every step keeps -----

  /** Pins are the grants in force. Unless several items were pushed at once, there is an object for each pin, and
      a receiver waits only when all objects are pinned, but for `due` objects that are about to be. */
  ghost predicate Consumers<T>(s: World<T>, due: nat) {
    s.c.pinned == s.h.outstanding
    && (!s.h.multi ==> s.c.pinned <= |s.c.objects| && (s.c.Receivers() != [] ==> s.c.pinned + due == |s.c.objects|))
  }

  /** Unless pushes were nested, there are no more blocked senders than objects over the buffer size, but for those
      that a running call is about to wake; the item of a running push is not counted yet. */
  ghost predicate Producers<T>(s: World<T>) {
    !s.h.nested ==>
      |s.c.Blocked()|
        <= Over(|s.c.objects| - (if s.h.pushing then 1 else 0), s.c.bufferSize) + Min(s.h.owed, |s.c.senders|)
  }

  /** Objects leave in the order they came. Each served receiver was dismissed, holds its pin, or has popped one
      object, and unless several items were pushed at once receivers are served in the order they came. */
  ghost predicate Deliveries<T>(s: World<T>) {
    s.h.pushed == s.h.popped + s.c.objects
    && |s.h.served| == s.h.outstanding + |s.h.popped| + s.h.dismissed
    && (!s.h.multi ==> s.h.arrived == s.h.served + s.c.Receivers())
  }

  /** Whoever started to wait was woken once or still waits. */
  ghost predicate Accounted<T>(s: World<T>) {
    multiset(s.h.entered) == multiset(s.h.woken) + multiset(s.c.Blocked()) + multiset(s.c.Receivers())
  }

  ghost predicate Inv<T>(s: World<T>) {
    match s
    case World(c, _) => Consumers(s, 0) && Producers(s) && Deliveries(s) && Accounted(s) && |c.objects| <= CLOSED_BUFFER
  }

  // ----- What is never taken back -----

  /** The logs only grow. */
  ghost predicate Onward<T>(s: World<T>, t: World<T>) {
    s.h.pushed <= t.h.pushed && s.h.popped <= t.h.popped && s.h.arrived <= t.h.arrived && s.h.served <= t.h.served
    && s.h.entered <= t.h.entered && s.h.woken <= t.h.woken && (s.h.multi ==> t.h.multi) && (s.h.nested ==> t.h.nested)
  }

  /** A closed channel stays closed and nobody starts to wait. */
  ghost predicate StaysShut<T>(s: World<T>, t: World<T>) {
    t.c.IsClosed() && t.h.entered == s.h.entered
    && |t.c.Blocked()| <= |s.c.Blocked()| && |t.c.Receivers()| <= |s.c.Receivers()|
    && (s.c.senderParent.None? ==> t.c.senderParent.None?) && (s.c.parent.None? ==> t.c.parent.None?)
  }

  /** From `s` the channel may come to `t`; `resize` says whether the buffer size may have been set in between. */
  ghost predicate Later<T>(s: World<T>, t: World<T>, resize: bool) {
    match s
    case World(c, _) => Onward(s, t) && (c.IsClosed() && !resize ==> StaysShut(s, t))
  }

  /** After the wake-ups in `log` the next to be woken was `w`. */
  ghost predicate WokenNext<T>(log: seq<Waiter>, w: Waiter, t: World<T>) {
    match t
    case World(_, h) => |log| < |h.woken| && h.woken[|log|] == w
  }

  /** From `s` to `t` the receiver that waits longest was woken before anybody else. */
  ghost predicate FirstWoken<T>(s: World<T>, t: World<T>) {
    match s
    case World(c, h) => c.Receivers() != [] ==> WokenNext(h.woken, c.Receivers()[0], t)
  }

  /** The same of the sender that is the first to be woken. */
  ghost predicate SenderWoken<T>(s: World<T>, t: World<T>) {
    match s
    case World(c, h) => WakeOrder(c) != [] ==> WokenNext(h.woken, WakeOrder(c)[0], t)
  }

  lemma SenderStaysWoken<T>(s: World<T>, t: World<T>, u: World<T>, resize: bool)
    requires SenderWoken(s, t) && Later(t, u, resize)
    ensures SenderWoken(s, u)
  {
  }

  lemma StaysWoken<T>(s: World<T>, t: World<T>, u: World<T>, resize: bool)
    requires FirstWoken(s, t) && Later(t, u, resize)
    ensures FirstWoken(s, u)
  {
  }

  lemma LaterLater<T>(s: World<T>, t: World<T>, u: World<T>, resize: bool)
    requires Later(s, t, resize) && Later(t, u, resize)
    ensures Later(s, u, resize)
  {
  }

  lemma LaterSame<T>(s: World<T>, resize: bool)
    ensures Later(s, s, resize)
  {
  }

  lemma LaterWeaken<T>(s: World<T>, t: World<T>, resize: bool)
    requires Later(s, t, false)
    ensures Later(s, t, resize)
  {
  }

  // ----- Steps of a receiver -----

  /** `wait_popable_check` of an open channel, with the `set_parent` of the coroutine that awaits it. */
  function Arrive<T>(s: World<T>, w: Waiter): World<T> {
    var h := s.h.(arrived := s.h.arrived + [w]);
    if |s.c.objects| > s.c.pinned then
      World(s.c.(pinned := s.c.pinned + 1), h.(served := h.served + [w], outstanding := h.outstanding + 1))
    else
      World(s.c.(recvers := s.c.Receivers(), parent := Some(w)), h.(entered := h.entered + [w]))
  }

  lemma ArriveKeeps<T>(s: World<T>, w: Waiter)
    requires Inv(s)
    ensures Inv(Arrive(s, w))
    ensures !s.c.IsClosed() ==> Later(s, Arrive(s, w), false)
  {
    var t := Arrive(s, w);
    if |s.c.objects| <= s.c.pinned {
      assert t.c.Receivers() == s.c.Receivers() + [w];
    } else {
      assert !s.h.multi ==> s.c.Receivers() == [];
      assert t.c.Receivers() == s.c.Receivers();
    }
  }

  // ----- Steps of a push -----

  /** The objects are stored and the newest receiver joins the queue. */
  function Store<T>(s: World<T>, xs: seq<T>): World<T> {
    World(s.c.(objects := s.c.objects + xs, recvers := s.c.Receivers(), parent := None),
          s.h.(pushed := s.h.pushed + xs, multi := s.h.multi || |xs| > 1, nested := s.h.nested || s.h.pushing,
               pushing := true))
  }

  /** The first receiver gets a pin and is woken. */
  function Grant<T>(s: World<T>): World<T>
    requires s.c.recvers != []
  {
    var w := s.c.recvers[0];
    World(s.c.(recvers := s.c.recvers[1..], pinned := s.c.pinned + 1),
          s.h.(served := s.h.served + [w], outstanding := s.h.outstanding + 1, woken := s.h.woken + [w]))
  }

  /** The producer is blocked when the objects exceed the buffer size. */
  function Settle<T>(s: World<T>, p: Waiter, wasPushing: bool): World<T> {
    var h := s.h.(pushing := wasPushing);
    if |s.c.objects| <= s.c.bufferSize then World(s.c, h)
    else World(s.c.(senders := s.c.Blocked(), senderParent := Some(p)), h.(entered := h.entered + [p]))
  }

  /** The loop of `after_push` with `delta` grants to go. */
  ghost predicate Granting<T>(s: World<T>, delta: nat) {
    match s
    case World(c, h) =>
      Consumers(s, delta) && (!h.multi ==> delta <= 1)
      && (delta > 0 && !h.multi ==> c.parent.None? && c.pinned + 1 <= |c.objects|)
      && Producers(s) && Deliveries(s) && Accounted(s) && |c.objects| <= CLOSED_BUFFER && h.pushing
  }

  lemma StoreKeeps<T>(s: World<T>, xs: seq<T>)
    requires Inv(s) && xs != [] && |s.c.objects| + |xs| <= CLOSED_BUFFER
    ensures Granting(Store(s, xs), |xs|) && Store(s, xs).c.Receivers() == s.c.Receivers()
    ensures Store(s, xs).c.Blocked() == s.c.Blocked()
    ensures Later(s, Store(s, xs), false) && Later(s, Store(s, xs), true)
  {
    var t := Store(s, xs);
    assert t.c.Receivers() == s.c.Receivers() && t.c.Blocked() == s.c.Blocked();
    assert s.h.pushed + xs == s.h.popped + t.c.objects;
  }

  lemma GrantKeeps<T>(s: World<T>, delta: nat)
    requires Granting(s, delta) && delta > 0 && s.c.recvers != []
    ensures Granting(Grant(s), delta - 1) && Inv(Grant(s))
    ensures Later(s, Grant(s), false) && Later(s, Grant(s), true)
  {
    LeaveQueue(s, Grant(s));
    assert Grant(s).c.Blocked() == s.c.Blocked();
  }

  lemma GrantWakes<T>(s: World<T>)
    requires s.c.recvers != []
    ensures FirstWoken(s, Grant(s))
  {
  }

  /** The loop of `after_push` has come from `s` to `t` in `turns` turns, with `delta` grants to go. */
  ghost predicate Supplying<T>(s: World<T>, t: World<T>, delta: nat, turns: nat, resize: bool) {
    match s
    case World(_, _) =>
      Granting(t, delta) && Later(s, t, resize) && t.h.owed == s.h.owed
      && if turns == 0 then t == s && s.c.parent.None? else FirstWoken(s, t)
  }

  lemma SupplyBegins<T>(s: World<T>, delta: nat, resize: bool)
    requires Granting(s, delta) && s.c.parent.None?
    ensures Supplying(s, s, delta, 0, resize)
  {
  }

  lemma SupplyTurns<T>(s: World<T>, t: World<T>, delta: nat, turns: nat, u: World<T>, resize: bool)
    requires Supplying(s, t, delta + 1, turns, resize)
    requires Granting(u, delta) && Later(t, u, resize) && u.h.owed == t.h.owed && FirstWoken(t, u)
    ensures Supplying(s, u, delta, turns + 1, resize)
  {
    LaterLater(s, t, u, resize);
  }

  lemma SupplyEnds<T>(s: World<T>, t: World<T>, delta: nat, turns: nat, resize: bool)
    requires Supplying(s, t, delta, turns, resize) && (delta == 0 || t.c.recvers == [])
    ensures Inv(t) && Later(s, t, resize) && t.h.pushing && t.h.owed == s.h.owed
    ensures delta + turns > 0 ==> FirstWoken(s, t)
  {
    GrantsDone(t, delta);
  }

  lemma StoreWakes<T>(s: World<T>, xs: seq<T>, t: World<T>)
    requires FirstWoken(Store(s, xs), t)
    ensures FirstWoken(s, t)
  {
  }

  lemma GrantsDone<T>(s: World<T>, delta: nat)
    requires Granting(s, delta) && (delta == 0 || s.c.recvers == [])
    ensures Inv(s)
  {
  }

  lemma SettleKeeps<T>(s: World<T>, p: Waiter, wasPushing: bool)
    requires Inv(s) && s.h.pushing && (wasPushing ==> s.h.nested)
    ensures Inv(Settle(s, p, wasPushing))
    ensures Later(s, Settle(s, p, wasPushing), false) && Later(s, Settle(s, p, wasPushing), true)
  {
    var t := Settle(s, p, wasPushing);
    if |s.c.objects| > s.c.bufferSize {
      assert t.c.Blocked() == s.c.Blocked() + [p] && t.c.Receivers() == s.c.Receivers();
    }
  }

  // ----- Steps of a pop -----

  /** `pop` of a channel that is not empty: the object goes and its pin with it. */
  function Take<T>(s: World<T>): World<T>
    requires s.c.objects != [] && s.c.pinned > 0 && s.h.outstanding > 0
  {
    World(s.c.(objects := s.c.objects[1..], pinned := s.c.pinned - 1),
          s.h.(popped := s.h.popped + [s.c.objects[0]], outstanding := s.h.outstanding - 1))
  }

  /** The newest blocked sender is woken. */
  function FreeNewest<T>(s: World<T>): World<T>
    requires s.c.senderParent.Some?
  {
    World(s.c.(senderParent := None), s.h.(woken := s.h.woken + [s.c.senderParent.value]))
  }

  /** The first queued sender is woken. */
  function FreeFirst<T>(s: World<T>): World<T>
    requires s.c.senders != []
  {
    World(s.c.(senders := s.c.senders[1..]), s.h.(woken := s.h.woken + [s.c.senders[0]]))
  }

  /** `after_pop`: unless there is room below the buffer size, one sender is woken, the newest before the queued. */
  function AfterTake<T>(s: World<T>): World<T> {
    if |s.c.objects| < s.c.bufferSize then s
    else if s.c.senderParent.Some? then FreeNewest(s)
    else if s.c.senders != [] then FreeFirst(s)
    else s
  }

  lemma FreeAccounts<T>(s: World<T>)
    ensures s.c.senderParent.Some? ==>
      multiset(FreeNewest(s).h.woken) + multiset(FreeNewest(s).c.Blocked())
        == multiset(s.h.woken) + multiset(s.c.Blocked())
    ensures s.c.senders != [] ==>
      multiset(FreeFirst(s).h.woken) + multiset(FreeFirst(s).c.Blocked())
        == multiset(s.h.woken) + multiset(s.c.Blocked())
  {
    if s.c.senders != [] {
      assert s.c.senders == [s.c.senders[0]] + s.c.senders[1..];
    }
  }

  lemma TakeKeeps<T>(s: World<T>)
    requires Inv(s) && s.c.objects != [] && s.h.outstanding > 0
    ensures Consumers(Take(s), 0) && Deliveries(Take(s)) && Accounted(Take(s))
    ensures Take(s).c.Blocked() == s.c.Blocked()
  {
    var t := Take(s);
    assert s.c.objects == [s.c.objects[0]] + s.c.objects[1..];
    assert t.c.Receivers() == s.c.Receivers() && t.c.Blocked() == s.c.Blocked();
    assert t.h.popped + t.c.objects == s.h.popped + s.c.objects;
  }

  lemma AfterTakeProducers<T>(s: World<T>)
    requires Inv(s) && s.c.objects != [] && s.h.outstanding > 0
    ensures Producers(AfterTake(Take(s)))
  {
  }

  lemma PopKeeps<T>(s: World<T>)
    requires Inv(s) && s.c.objects != [] && s.h.outstanding > 0
    ensures Inv(AfterTake(Take(s)))
  {
    var t := Take(s);
    TakeKeeps(s);
    AfterTakeProducers(s);
    FreeAccounts(t);
    assert AfterTake(t).c.Receivers() == t.c.Receivers();
  }

  /** Unless the pop makes room it wakes a sender if there is one. */
  lemma PopWakes<T>(s: World<T>)
    requires s.c.objects != [] && s.c.pinned > 0 && s.h.outstanding > 0
    ensures |s.c.objects| > s.c.bufferSize ==> SenderWoken(s, AfterTake(Take(s)))
  {
  }

  lemma PopLater<T>(s: World<T>)
    requires Inv(s) && s.c.objects != [] && s.h.outstanding > 0
    ensures var t := AfterTake(Take(s)); Later(s, t, false) && Later(s, t, true)
    ensures var t := AfterTake(Take(s));
      t.h.popped == s.h.popped + [s.c.objects[0]] && t.h.pushing == s.h.pushing && t.h.owed == s.h.owed
  {
  }

  // ----- Steps of set_buffer_size -----

  /** The new size is stored, and the senders it makes room for are owed a wake-up. */
  function Enlarge<T>(s: World<T>, size: nat): World<T>
    requires size > s.c.bufferSize
  {
    var t := World(s.c.(bufferSize := size), s.h.(owed := s.h.owed + size - s.c.bufferSize));
    if s.c.senderParent.Some? then FreeNewest(t.(h := t.h.(owed := t.h.owed - 1))) else t
  }

  /** One of the owed wake-ups. */
  function Repay<T>(s: World<T>): World<T>
    requires s.c.senders != [] && s.h.owed > 0
  {
    FreeFirst(s.(h := s.h.(owed := s.h.owed - 1)))
  }

  function Forgive<T>(s: World<T>, owed: nat): World<T> {
    s.(h := s.h.(owed := owed))
  }

  lemma ShrinkKeeps<T>(s: World<T>, size: nat)
    requires Inv(s) && size <= s.c.bufferSize
    ensures Inv(s.(c := s.c.(bufferSize := size)))
  {
    var t := s.(c := s.c.(bufferSize := size));
    assert t.c.Blocked() == s.c.Blocked() && t.c.Receivers() == s.c.Receivers();
  }

  lemma EnlargeKeeps<T>(s: World<T>, size: nat)
    requires Inv(s) && size > s.c.bufferSize
    ensures Inv(Enlarge(s, size))
    ensures Later(s, Enlarge(s, size), true)
  {
    EnlargeProducers(s, size);
    FreeAccounts(s);
    assert Enlarge(s, size).c.Receivers() == s.c.Receivers();
  }

  lemma EnlargeProducers<T>(s: World<T>, size: nat)
    requires Producers(s) && size > s.c.bufferSize
    ensures Producers(Enlarge(s, size))
  {
  }

  lemma RepayKeeps<T>(s: World<T>)
    requires Inv(s) && s.c.senders != [] && s.h.owed > 0
    ensures Inv(Repay(s))
    ensures Later(s, Repay(s), false) && Later(s, Repay(s), true)
  {
    FreeAccounts(s);
    assert Repay(s).c.Receivers() == s.c.Receivers();
  }

  lemma ForgiveKeeps<T>(s: World<T>, owed: nat)
    requires Inv(s) && owed <= s.h.owed && (s.c.senders == [] || owed == s.h.owed)
    ensures Inv(Forgive(s, owed))
    ensures Later(s, Forgive(s, owed), false) && Later(s, Forgive(s, owed), true)
  {
  }

  // ----- Steps of close -----

  /** `close` up to the first wake-up: the newest sender joins the queue. The blocked senders are owed a wake-up. */
  function Shut<T>(s: World<T>): World<T> {
    World(s.c.(bufferSize := CLOSED_BUFFER, senders := s.c.Blocked(), senderParent := None),
          s.h.(owed := s.h.owed + |s.c.Blocked()|))
  }

  /** The newest receiver joins the queue. */
  function Line<T>(s: World<T>): World<T> {
    s.(c := s.c.(recvers := s.c.Receivers(), parent := None))
  }

  /** The first receiver is woken, with a pin if there is an object for it. */
  function Dismiss<T>(s: World<T>): World<T>
    requires s.c.recvers != []
  {
    if |s.c.objects| > s.c.pinned then Grant(s)
    else
      var w := s.c.recvers[0];
      World(s.c.(recvers := s.c.recvers[1..]),
            s.h.(served := s.h.served + [w], dismissed := s.h.dismissed + 1, woken := s.h.woken + [w]))
  }

  lemma ShutKeeps<T>(s: World<T>)
    requires Inv(s)
    ensures Inv(Shut(s)) && Shut(s).c.Blocked() == s.c.Blocked() && Shut(s).c.Receivers() == s.c.Receivers()
    ensures Later(s, Shut(s), false) && Shut(s).c.IsClosed()
  {
    var t := Shut(s);
    assert t.c.Blocked() == s.c.Blocked() && t.c.Receivers() == s.c.Receivers();
  }

  lemma LineKeeps<T>(s: World<T>)
    requires Inv(s)
    ensures Inv(Line(s)) && Line(s).c.Blocked() == s.c.Blocked() && Line(s).c.Receivers() == s.c.Receivers()
    ensures Later(s, Line(s), false)
  {
    var t := Line(s);
    assert t.c.Blocked() == s.c.Blocked() && t.c.Receivers() == s.c.Receivers();
  }

  lemma DismissKeeps<T>(s: World<T>)
    requires Inv(s) && s.c.recvers != []
    ensures Inv(Dismiss(s)) && |Dismiss(s).c.Receivers()| == |s.c.Receivers()| - 1
    ensures Dismiss(s).c.Blocked() == s.c.Blocked()
    ensures Later(s, Dismiss(s), false)
  {
    var t := Dismiss(s);
    LeaveQueue(s, t);
    assert t.c.Blocked() == s.c.Blocked();
  }

  /** The first receiver leaves the queue, served and woken. */
  lemma LeaveQueue<T>(s: World<T>, t: World<T>)
    requires Deliveries(s) && Accounted(s) && s.c.recvers != []
    requires t.c.recvers == s.c.recvers[1..] && t.c.parent == s.c.parent && t.c.Blocked() == s.c.Blocked()
    requires t.h.served == s.h.served + [s.c.recvers[0]] && t.h.woken == s.h.woken + [s.c.recvers[0]]
    requires t.h.entered == s.h.entered && t.h.arrived == s.h.arrived && t.h.multi == s.h.multi
    ensures Accounted(t) && (!t.h.multi ==> t.h.arrived == t.h.served + t.c.Receivers())
    ensures |t.c.Receivers()| == |s.c.Receivers()| - 1
  {
    FirstReceiver(s.c);
    Shift(s.h.served, s.c.recvers[0], t.c.Receivers());
    Shift(s.h.woken, s.c.recvers[0], t.c.Receivers());
  }

  lemma FirstReceiver<T>(c: Chan<T>)
    requires c.recvers != []
    ensures c.Receivers() == [c.recvers[0]] + (c.recvers[1..] + Slot(c.parent))
  {
  }

  lemma Shift(a: seq<Waiter>, w: Waiter, b: seq<Waiter>)
    ensures a + ([w] + b) == (a + [w]) + b
    ensures multiset(a) + multiset([w] + b) == multiset(a + [w]) + multiset(b)
  {
  }

  // ----- Whole operations when woken coroutines only become ready -----

  function GrantUpTo<T>(s: World<T>, n: nat): World<T>
    decreases n
  {
    if n == 0 || s.c.recvers == [] then s else GrantUpTo(Grant(s), n - 1)
  }

  function RepayUpTo<T>(s: World<T>, n: nat): World<T>
    decreases n
  {
    if n == 0 || s.c.senders == [] || s.h.owed == 0 then s else RepayUpTo(Repay(s), n - 1)
  }

  function DismissAll<T>(s: World<T>): World<T>
    decreases |s.c.recvers|
  {
    if s.c.recvers == [] then s else DismissAll(Dismiss(s))
  }

  /** The wake-ups owed by one call of set_buffer_size, `n` of them; `owed` are left to other calls. */
  function Repaid<T>(s: World<T>, n: nat, owed: nat): World<T> {
    Forgive(RepayUpTo(s, n), owed)
  }

  /** `after_push` of `xs` by the producer `p`. */
  function PushAll<T>(s: World<T>, xs: seq<T>, p: Waiter): World<T> {
    Settle(GrantUpTo(Store(s, xs), |xs|), p, s.h.pushing)
  }

  function PopOne<T>(s: World<T>): World<T>
    requires s.c.objects != [] ==> s.c.pinned > 0 && s.h.outstanding > 0
  {
    if s.c.objects == [] then s else AfterTake(Take(s))
  }

  function WaitOne<T>(s: World<T>, w: Waiter): World<T> {
    if s.c.IsClosed() then s else Arrive(s, w)
  }

  function Resize<T>(s: World<T>, size: nat): World<T> {
    if size <= s.c.bufferSize then s.(c := s.c.(bufferSize := size))
    else
      var t := Enlarge(s, size);
      Repaid(t, size - s.c.bufferSize - |Slot(s.c.senderParent)|, s.h.owed)
  }

  /** All queued senders are woken. */
  function RepaidAll<T>(s: World<T>, owed: nat): World<T> {
    Repaid(s, |s.c.senders|, owed)
  }

  /** The channel after close has woken the senders. */
  function SendersOut<T>(s: World<T>): World<T> {
    RepaidAll(Shut(s), s.h.owed)
  }

  function ReceiversOut<T>(s: World<T>): World<T> {
    DismissAll(Line(s))
  }

  function Close<T>(s: World<T>): World<T> {
    ReceiversOut(SendersOut(s))
  }

  datatype Op<T> = Push(xs: seq<T>, p: Waiter) | Pop | Wait(w: Waiter) | SetSize(size: nat) | Shutdown

  ghost predicate Legal<T>(s: World<T>, op: Op<T>) {
    match op
    case Push(xs, p) => xs != [] && |s.c.objects| + |xs| <= CLOSED_BUFFER
    case Pop => s.h.outstanding > 0 && s.c.pinned > 0
    case _ => true
  }

  ghost function Do<T>(s: World<T>, op: Op<T>): World<T>
    requires Legal(s, op)
  {
    match op
    case Push(xs, p) => PushAll(s, xs, p)
    case Pop => PopOne(s)
    case Wait(w) => WaitOne(s, w)
    case SetSize(size) => Resize(s, size)
    case Shutdown => Close(s)
  }

  /** With ready coroutines several items at once do no harm: every pin has its object, a receiver waits only when
      all objects are pinned, receivers are served in order, and no sender is blocked while there is room. */
  ghost predicate Calm<T>(s: World<T>) {
    match s
    case World(c, h) =>
      Inv(s) && !h.nested && !h.pushing && h.owed == 0 && c.pinned <= |c.objects|
      && (c.Receivers() != [] ==> c.pinned == |c.objects|) && h.arrived == h.served + c.Receivers()
  }

  /** The loop of `after_push` when several items may have come: `n` of the objects are due to be granted. */
  ghost predicate Due<T>(s: World<T>, n: nat) {
    s.c.pinned + n <= |s.c.objects| && (s.c.Receivers() != [] ==> s.c.pinned + n == |s.c.objects|) && s.c.parent.None?
    && s.h.arrived == s.h.served + s.c.Receivers()
  }

  lemma {:induction false} GrantUpToKeeps<T>(s: World<T>, n: nat)
    requires Granting(s, n) && Due(s, n)
    ensures Inv(GrantUpTo(s, n)) && Due(GrantUpTo(s, n), 0)
    ensures GrantUpTo(s, n).h.pushing && GrantUpTo(s, n).h.nested == s.h.nested && GrantUpTo(s, n).h.owed == s.h.owed
    decreases n
  {
    if n == 0 || s.c.recvers == [] {
      GrantsDone(s, n);
    } else {
      GrantKeeps(s, n);
      OrderKept(s, Grant(s));
      GrantUpToKeeps(Grant(s), n - 1);
    }
  }

  lemma PushAllKeeps<T>(s: World<T>, xs: seq<T>, p: Waiter)
    requires Calm(s) && xs != [] && |s.c.objects| + |xs| <= CLOSED_BUFFER
    ensures Calm(PushAll(s, xs, p))
  {
    var t := Store(s, xs);
    StoreDue(s, xs);
    GrantUpToKeeps(t, |xs|);
    SettleCalms(GrantUpTo(t, |xs|), p);
  }

  lemma StoreDue<T>(s: World<T>, xs: seq<T>)
    requires Calm(s) && xs != [] && |s.c.objects| + |xs| <= CLOSED_BUFFER
    ensures var t := Store(s, xs); Granting(t, |xs|) && Due(t, |xs|) && t.h.pushing && !t.h.nested && t.h.owed == 0
  {
    StoreKeeps(s, xs);
  }

  lemma SettleCalms<T>(u: World<T>, p: Waiter)
    requires Inv(u) && Due(u, 0) && u.h.pushing && !u.h.nested && u.h.owed == 0
    ensures Calm(Settle(u, p, false))
  {
    SettleKeeps(u, p, false);
    assert Settle(u, p, false).c.Receivers() == u.c.Receivers();
  }

  /** `k` of the owed wake-ups at once. */
  function RepaySome<T>(s: World<T>, k: nat): World<T>
    requires k <= |s.c.senders| && k <= s.h.owed
  {
    World(s.c.(senders := s.c.senders[k..]), s.h.(woken := s.h.woken + s.c.senders[..k], owed := s.h.owed - k))
  }

  /** The queued senders are woken in order. */
  lemma {:induction false} RepayUpToIs<T>(s: World<T>, n: nat)
    requires n <= s.h.owed
    ensures RepayUpTo(s, n) == RepaySome(s, Min(n, |s.c.senders|))
    decreases n
  {
    if n != 0 && s.c.senders != [] {
      RepayUpToIs(Repay(s), n - 1);
      var k := Min(n, |s.c.senders|);
      assert s.c.senders[..k] == [s.c.senders[0]] + s.c.senders[1..][..k - 1];
      assert s.c.senders[k..] == s.c.senders[1..][k - 1..];
    } else {
      assert s.h.woken + s.c.senders[..0] == s.h.woken;
    }
  }

  lemma RepaySomeKeeps<T>(s: World<T>, k: nat)
    requires Inv(s) && k <= s.h.owed && k <= |s.c.senders|
    ensures Inv(RepaySome(s, k))
  {
    var t := RepaySome(s, k);
    assert s.c.senders == s.c.senders[..k] + s.c.senders[k..];
    assert t.c.Receivers() == s.c.Receivers();
  }

  lemma ResizeKeeps<T>(s: World<T>, size: nat)
    requires Calm(s)
    ensures Calm(Resize(s, size))
  {
    if size <= s.c.bufferSize {
      ShrinkKeeps(s, size);
      assert s.(c := s.c.(bufferSize := size)).c.Receivers() == s.c.Receivers();
    } else {
      EnlargeCalms(s, size);
    }
  }

  lemma EnlargeCalms<T>(s: World<T>, size: nat)
    requires Calm(s) && size > s.c.bufferSize
    ensures Calm(Resize(s, size))
  {
    var t := Enlarge(s, size);
    EnlargeKeeps(s, size);
    EnlargeOwes(s, size);
    var n := size - s.c.bufferSize - |Slot(s.c.senderParent)|;
    ResizeIs(s, size, n, t);
    RepayAllCalms(s, t, n);
  }

  lemma EnlargeOwes<T>(s: World<T>, size: nat)
    requires size > s.c.bufferSize
    ensures SameConsumers(s, Enlarge(s, size))
    ensures Enlarge(s, size).h.owed == s.h.owed + size - s.c.bufferSize - |Slot(s.c.senderParent)|
  {
  }

  /** All the owed wake-ups. */
  lemma RepayAllCalms<T>(s: World<T>, t: World<T>, n: nat)
    requires Calm(s) && Inv(t) && t.h.owed == n && SameConsumers(s, t)
    ensures Calm(Forgive(RepayUpTo(t, n), 0))
  {
    RepayUpToIs(t, n);
    RepaySomeKeeps(t, Min(n, |t.c.senders|));
    ForgiveCalms(s, RepayUpTo(t, n));
  }

  ghost predicate SameConsumers<T>(s: World<T>, u: World<T>) {
    u.c.objects == s.c.objects && u.c.pinned == s.c.pinned && u.c.recvers == s.c.recvers && u.c.parent == s.c.parent
    && u.h.served == s.h.served && u.h.arrived == s.h.arrived && u.h.nested == s.h.nested && u.h.pushing == s.h.pushing
  }

  lemma ForgiveCalms<T>(s: World<T>, u: World<T>)
    requires Calm(s) && Inv(u) && (u.c.senders == [] || u.h.owed == 0)
    requires SameConsumers(s, u)
    ensures Calm(Forgive(u, 0))
  {
    ForgiveKeeps(u, 0);
    assert u.c.Receivers() == s.c.Receivers();
  }

  lemma {:induction false} DismissAllKeeps<T>(s: World<T>)
    requires Inv(s) && s.c.parent.None? && s.h.arrived == s.h.served + s.c.Receivers()
    requires s.c.pinned <= |s.c.objects| && (s.c.Receivers() != [] ==> s.c.pinned == |s.c.objects|)
    ensures Inv(DismissAll(s))
    ensures DismissAll(s).c == s.c.(recvers := [], pinned := DismissAll(s).c.pinned)
    ensures DismissAll(s).c.pinned <= |s.c.objects|
    ensures DismissAll(s).h.arrived == DismissAll(s).h.served && DismissAll(s).h.entered == s.h.entered
    ensures DismissAll(s).h.nested == s.h.nested && DismissAll(s).h.pushing == s.h.pushing
    ensures DismissAll(s).h.owed == s.h.owed
    decreases |s.c.recvers|
  {
    if s.c.recvers != [] {
      DismissKeeps(s);
      LeaveQueue(s, Dismiss(s));
      OrderKept(s, Dismiss(s));
      DismissAllKeeps(Dismiss(s));
    }
  }

  lemma OrderKept<T>(s: World<T>, t: World<T>)
    requires s.c.recvers != [] && s.h.arrived == s.h.served + s.c.Receivers() && t.h.arrived == s.h.arrived
    requires t.c.recvers == s.c.recvers[1..] && t.c.parent == s.c.parent && t.h.served == s.h.served + [s.c.recvers[0]]
    ensures t.h.arrived == t.h.served + t.c.Receivers()
  {
    FirstReceiver(s.c);
    Shift(s.h.served, s.c.recvers[0], t.c.Receivers());
  }

  lemma SendersOutKeeps<T>(s: World<T>)
    requires Calm(s)
    ensures var u := SendersOut(s); Calm(u) && u.c.IsClosed() && u.c.Blocked() == [] && u.h.entered == s.h.entered
  {
    ShutKeeps(s);
    var t := Shut(s);
    RepayUpToIs(t, |t.c.senders|);
    RepaySomeKeeps(t, |t.c.senders|);
    ForgiveCalms(s, RepayUpTo(t, |t.c.senders|));
  }

  lemma ReceiversOutKeeps<T>(s: World<T>)
    requires Calm(s) && s.c.Blocked() == []
    ensures var t := ReceiversOut(s);
      Calm(t) && t.c.bufferSize == s.c.bufferSize && t.c.Receivers() == [] && t.c.Blocked() == []
    ensures ReceiversOut(s).h.entered == s.h.entered
  {
    LineKeeps(s);
    DismissAllKeeps(Line(s));
    var t := ReceiversOut(s);
    assert t.c.Receivers() == [] && t.c.Blocked() == s.c.Blocked();
  }

  /** Close empties all four waiting places; everybody who ever waited has been woken exactly once. */
  lemma CloseDrains<T>(s: World<T>)
    requires Calm(s)
    ensures Calm(Close(s)) && Drained(Close(s)) && multiset(Close(s).h.woken) == multiset(s.h.entered)
    ensures Close(s).h.entered == s.h.entered
  {
    SendersOutKeeps(s);
    ReceiversOutKeeps(SendersOut(s));
  }

  ghost predicate Drained<T>(s: World<T>) {
    s.c.IsClosed() && s.c.Receivers() == [] && s.c.Blocked() == []
  }

  // ----- Runs -----

  ghost predicate LegalRun<T>(s: World<T>, ops: seq<Op<T>>)
    decreases |ops|
  {
    ops == [] || (Legal(s, ops[0]) && LegalRun(Do(s, ops[0]), ops[1..]))
  }

  ghost function Run<T>(s: World<T>, ops: seq<Op<T>>): World<T>
    requires LegalRun(s, ops)
    decreases |ops|
  {
    if ops == [] then s else Run(Do(s, ops[0]), ops[1..])
  }

  lemma PopOneKeeps<T>(s: World<T>)
    requires Calm(s) && s.h.outstanding > 0
    ensures Calm(PopOne(s))
  {
    PopKeeps(s);
    assert Take(s).c.Receivers() == s.c.Receivers() == PopOne(s).c.Receivers();
  }

  lemma WaitOneKeeps<T>(s: World<T>, w: Waiter)
    requires Calm(s)
    ensures Calm(WaitOne(s, w))
  {
    ArriveKeeps(s, w);
    ArriveOrder(s, w);
  }

  lemma ArriveOrder<T>(s: World<T>, w: Waiter)
    requires s.c.pinned <= |s.c.objects| && (s.c.Receivers() != [] ==> s.c.pinned == |s.c.objects|)
    requires s.h.arrived == s.h.served + s.c.Receivers()
    ensures var t := Arrive(s, w); t.h.arrived == t.h.served + t.c.Receivers()
    ensures var t := Arrive(s, w);
      t.c.pinned <= |t.c.objects| && (t.c.Receivers() != [] ==> t.c.pinned == |t.c.objects|)
  {
    if s.c.pinned < |s.c.objects| {
      assert s.c.Receivers() == [];
    } else {
      assert Arrive(s, w).c.Receivers() == s.c.Receivers() + [w];
      assert (s.h.served + s.c.Receivers()) + [w] == s.h.served + (s.c.Receivers() + [w]);
    }
  }

  lemma DoKeeps<T>(s: World<T>, op: Op<T>)
    requires Calm(s) && Legal(s, op)
    ensures Calm(Do(s, op))
  {
    match op
    case Push(xs, p) => PushAllKeeps(s, xs, p);
    case Pop => PopOneKeeps(s);
    case Wait(w) => WaitOneKeeps(s, w);
    case SetSize(size) => ResizeKeeps(s, size);
    case Shutdown => CloseDrains(s);
  }

  /** Over every run of pushes of one item or more, pops by pin holders, waits, resizes up and down, and close:
      delivery is in order and exactly once, receivers are served in the order of their calls, a granted consumer
      finds an object, and no sender stays blocked while there is room. */
  lemma {:induction false} RunIsCalm<T>(s: World<T>, ops: seq<Op<T>>)
    requires Calm(s) && LegalRun(s, ops)
    ensures Calm(Run(s, ops))
    ensures var t := Run(s, ops); t.h.pushed == t.h.popped + t.c.objects && t.h.arrived == t.h.served + t.c.Receivers()
    ensures var t := Run(s, ops); t.h.outstanding > 0 ==> t.c.objects != []
    ensures var t := Run(s, ops); |t.c.Blocked()| <= Over(|t.c.objects|, t.c.bufferSize)
    decreases |ops|
  {
    if ops != [] {
      DoKeeps(s, ops[0]);
      RunIsCalm(Do(s, ops[0]), ops[1..]);
    }
  }

  lemma DrainedStays<T>(s: World<T>, op: Op<T>)
    requires Calm(s) && Legal(s, op) && Drained(s) && !op.SetSize?
    ensures Drained(Do(s, op)) && Do(s, op).h.entered == s.h.entered
  {
    match op
    case Push(xs, p) =>
      var t := Store(s, xs);
      assert GrantUpTo(t, |xs|) == t && t.c.Receivers() == [] && t.c.Blocked() == [];
    case Shutdown => CloseDrains(s);
    case _ =>
  }

  ghost predicate NeverSetsSize<T>(ops: seq<Op<T>>) {
    ops == [] || (!ops[0].SetSize? && NeverSetsSize(ops[1..]))
  }

  /** After close nobody waits again, unless the buffer size is set. */
  lemma {:induction false} ClosedRunNeverWaits<T>(s: World<T>, ops: seq<Op<T>>)
    requires Calm(s) && LegalRun(s, ops) && Drained(s) && NeverSetsSize(ops)
    ensures Drained(Run(s, ops)) && Run(s, ops).h.entered == s.h.entered
    decreases |ops|
  {
    if ops != [] {
      ClosedStep(s, ops[0]);
      ClosedRunNeverWaits(Do(s, ops[0]), ops[1..]);
    }
  }

  lemma ClosedStep<T>(s: World<T>, op: Op<T>)
    requires Calm(s) && Legal(s, op) && Drained(s) && !op.SetSize?
    ensures Calm(Do(s, op)) && Drained(Do(s, op)) && Do(s, op).h.entered == s.h.entered
  {
    DoKeeps(s, op);
    DrainedStays(s, op);
  }

  // ----- The effect of each operation, place by place -----

  /** Who moves where: what the operations change besides the places of the senders and the receivers and their logs. */
  ghost predicate Effect<T>(s: World<T>, t: World<T>, receivers: seq<Waiter>, blocked: seq<Waiter>,
      woken: seq<Waiter>, entered: seq<Waiter>)
  {
    t.c.Receivers() == receivers && t.c.Blocked() == blocked
    && t.h.woken == s.h.woken + woken && t.h.entered == s.h.entered + entered
  }

  /** A receiver gets a pin if an object is not pinned, and otherwise waits behind those who already wait. */
  lemma WaitEffect<T>(s: World<T>, w: Waiter)
    requires !s.c.IsClosed()
    ensures var t := WaitOne(s, w);
      t.h.arrived == s.h.arrived + [w] && t.c.objects == s.c.objects && t.c.bufferSize == s.c.bufferSize
      && if |s.c.objects| > s.c.pinned
         then Effect(s, t, s.c.Receivers(), s.c.Blocked(), [], [])
              && t.c.pinned == s.c.pinned + 1 && t.h.served == s.h.served + [w]
         else Effect(s, t, s.c.Receivers() + [w], s.c.Blocked(), [], [w])
              && t.c.pinned == s.c.pinned && t.h.served == s.h.served && t.c.parent == Some(w)
  {
    assert WaitOne(s, w) == Arrive(s, w);
  }

  /** `k` of the grants at once. */
  function GrantSome<T>(s: World<T>, k: nat): World<T>
    requires k <= |s.c.recvers|
  {
    World(s.c.(recvers := s.c.recvers[k..], pinned := s.c.pinned + k),
          s.h.(served := s.h.served + s.c.recvers[..k], outstanding := s.h.outstanding + k,
               woken := s.h.woken + s.c.recvers[..k]))
  }

  lemma FromFront(log: seq<Waiter>, line: seq<Waiter>, k: nat)
    requires 0 < k <= |line|
    ensures log + line[..k] == (log + [line[0]]) + line[1..][..k - 1] && line[k..] == line[1..][k - 1..]
  {
    assert line[..k] == [line[0]] + line[1..][..k - 1];
  }

  /** The queued receivers are served and woken in order. */
  lemma {:induction false} GrantUpToIs<T>(s: World<T>, n: nat)
    ensures GrantUpTo(s, n) == GrantSome(s, Min(n, |s.c.recvers|))
    decreases n
  {
    if n != 0 && s.c.recvers != [] {
      var t, k := Grant(s), Min(n, |s.c.recvers|);
      GrantUpToIs(t, n - 1);
      assert GrantUpTo(s, n) == GrantSome(t, k - 1);
      FromFront(s.h.served, s.c.recvers, k);
      FromFront(s.h.woken, s.c.recvers, k);
    } else {
      assert s.c.recvers[..0] == [] && s.c.recvers[0..] == s.c.recvers;
    }
  }

  /** A push stores its objects, pins and wakes as many of the first receivers as it has objects, and blocks its
      producer behind the senders exactly if the objects exceed the buffer size. */
  lemma PushEffect<T>(s: World<T>, xs: seq<T>, p: Waiter)
    ensures var t, line, k := PushAll(s, xs, p), s.c.Receivers(), Min(|xs|, |s.c.Receivers()|);
      var blocks := if |s.c.objects| + |xs| > s.c.bufferSize then [p] else [];
      t.c.objects == s.c.objects + xs && t.h.pushed == s.h.pushed + xs && t.c.bufferSize == s.c.bufferSize
      && Effect(s, t, line[k..], s.c.Blocked() + blocks, line[..k], blocks)
      && t.h.served == s.h.served + line[..k] && t.c.pinned == s.c.pinned + k
      && (blocks != [] ==> t.c.senderParent == Some(p))
  {
    var u := Store(s, xs);
    GrantUpToIs(u, |xs|);
    var line, k := s.c.Receivers(), Min(|xs|, |s.c.Receivers()|);
    var v := GrantUpTo(u, |xs|);
    assert v == GrantSome(u, k) && v.c.Receivers() == line[k..] && v.c.Blocked() == s.c.Blocked();
    var t := Settle(v, p, s.h.pushing);
    assert t.c.Receivers() == line[k..];
  }

  /** A pop takes the first object and one pin. Unless that makes room it wakes the newest sender, or if there is none
      the one that waits longest. */
  lemma PopEffect<T>(s: World<T>)
    requires s.c.objects != [] && s.c.pinned > 0 && s.h.outstanding > 0
    ensures var t := PopOne(s);
      t.c.objects == s.c.objects[1..] && t.h.popped == s.h.popped + [s.c.objects[0]]
      && t.c.pinned == s.c.pinned - 1 && t.c.bufferSize == s.c.bufferSize && t.h.served == s.h.served
      && if |s.c.objects| - 1 < s.c.bufferSize || s.c.Blocked() == []
         then Effect(s, t, s.c.Receivers(), s.c.Blocked(), [], [])
         else if s.c.senderParent.Some?
         then Effect(s, t, s.c.Receivers(), s.c.senders, [s.c.senderParent.value], [])
         else Effect(s, t, s.c.Receivers(), s.c.senders[1..], [s.c.senders[0]], [])
  {
  }

  lemma EnlargeIs<T>(s: World<T>, size: nat)
    requires size > s.c.bufferSize
    ensures var t := Enlarge(s, size);
      t.c == s.c.(bufferSize := size, senderParent := None) && t.h.served == s.h.served && t.h.entered == s.h.entered
      && t.h.woken == s.h.woken + Slot(s.c.senderParent)
  {
  }

  /** A new buffer size wakes one sender for each place by which the buffer grows, the newest sender first. */
  lemma ResizeEffect<T>(s: World<T>, size: nat)
    ensures var t, line, k := Resize(s, size), WakeOrder(s.c), Min(Over(size, s.c.bufferSize), |WakeOrder(s.c)|);
      t.c.bufferSize == size && t.c.objects == s.c.objects && t.c.pinned == s.c.pinned && t.h.served == s.h.served
      && WakeOrder(t.c) == line[k..] && t.h.woken == s.h.woken + line[..k]
      && t.c.Receivers() == s.c.Receivers() && t.h.entered == s.h.entered
  {
    if size > s.c.bufferSize {
      var u, first := Enlarge(s, size), Slot(s.c.senderParent);
      var n := size - s.c.bufferSize - |first|;
      EnlargeIs(s, size);
      EnlargeOwes(s, size);
      RepayUpToIs(u, n);
      var k := Min(n, |s.c.senders|);
      assert Resize(s, size) == Forgive(RepaySome(u, k), s.h.owed);
      assert (first + s.c.senders)[..|first| + k] == first + s.c.senders[..k];
      assert (first + s.c.senders)[|first| + k..] == [] + s.c.senders[k..];
      assert (s.h.woken + first) + s.c.senders[..k] == s.h.woken + (first + s.c.senders[..k]);
    } else {
      assert WakeOrder(s.c)[..0] == [] && WakeOrder(s.c)[0..] == WakeOrder(s.c);
    }
  }

  lemma DismissIs<T>(s: World<T>)
    requires s.c.recvers != []
    ensures var t, w := Dismiss(s), s.c.recvers[0];
      t.c == s.c.(recvers := s.c.recvers[1..], pinned := s.c.pinned + Min(1, Over(|s.c.objects|, s.c.pinned)))
      && t.h.woken == s.h.woken + [w] && t.h.served == s.h.served + [w] && t.h.entered == s.h.entered
  {
  }

  /** The queued receivers are served and woken in order, with a pin while there are objects without one. */
  lemma {:induction false} DismissAllIs<T>(s: World<T>)
    ensures var t := DismissAll(s);
      t.c == s.c.(recvers := [], pinned := s.c.pinned + Min(|s.c.recvers|, Over(|s.c.objects|, s.c.pinned)))
      && t.h.woken == s.h.woken + s.c.recvers && t.h.served == s.h.served + s.c.recvers
      && t.h.entered == s.h.entered
    decreases |s.c.recvers|
  {
    if s.c.recvers != [] {
      DismissIs(s);
      DismissAllIs(Dismiss(s));
      assert s.c.recvers[..|s.c.recvers|] == s.c.recvers;
      FromFront(s.h.served, s.c.recvers, |s.c.recvers|);
      FromFront(s.h.woken, s.c.recvers, |s.c.recvers|);
    }
  }

  /** Close wakes the senders and then the receivers, each in the order in which they wait, and pins an object for each
      receiver while there are objects without a pin. */
  lemma CloseEffect<T>(s: World<T>)
    ensures var t := Close(s);
      t.c.IsClosed() && t.c.objects == s.c.objects && t.h.served == s.h.served + s.c.Receivers()
      && t.c.pinned == s.c.pinned + Min(|s.c.Receivers()|, Over(|s.c.objects|, s.c.pinned))
      && Effect(s, t, [], [], s.c.Blocked() + s.c.Receivers(), [])
  {
    var u := Shut(s);
    RepayUpToIs(u, |u.c.senders|);
    var v := SendersOut(s);
    assert u.c.senders == s.c.Blocked() && u.c.senders[..|u.c.senders|] == u.c.senders;
    assert v.c.Blocked() == [] && v.c.Receivers() == s.c.Receivers() && v.h.woken == s.h.woken + s.c.Blocked();
    DismissAllIs(Line(v));
    assert Line(v).c.recvers == s.c.Receivers();
  }

  // ----- What a caller of a wake-up relies on -----

  /** If no other coroutine interferes, as with `fuel` 0, `delta` more grants lead to `goal`. */
  ghost predicate GrantsTo<T>(s: World<T>, delta: nat, fuel: nat, goal: World<T>) {
    match s
    case World(_, _) => fuel == 0 ==> GrantUpTo(s, delta) == goal
  }

  lemma GrantStep<T>(s: World<T>, delta: nat, fuel: nat, goal: World<T>, t: World<T>)
    requires GrantsTo(s, delta + 1, fuel, goal) && s.c.recvers != [] && (fuel == 0 ==> t == Grant(s))
    ensures GrantsTo(t, delta, fuel, goal)
  {
  }

  lemma GrantStop<T>(s: World<T>, delta: nat, fuel: nat, goal: World<T>)
    requires GrantsTo(s, delta, fuel, goal) && (delta == 0 || s.c.recvers == [])
    ensures fuel == 0 ==> s == goal
  {
  }

  lemma RepaidStep<T>(s: World<T>, n: nat, owed: nat)
    requires s.c.senders != [] && s.h.owed > 0 && n > 0
    ensures Repaid(s, n, owed) == Repaid(Repay(s), n - 1, owed)
  {
  }

  lemma RepaidDone<T>(s: World<T>, n: nat, owed: nat)
    requires s.c.senders == [] || n == 0
    ensures Repaid(s, n, owed) == Forgive(s, owed)
  {
  }

  lemma TakesNewest<T>(s: World<T>, size: nat)
    requires Inv(s) && size > s.c.bufferSize
    ensures var t := Enlarge(s, size); Inv(t) && Later(s, t, true) && t.h.pushing == s.h.pushing
    ensures Enlarge(s, size).h.owed == s.h.owed + size - s.c.bufferSize - |Slot(s.c.senderParent)|
    ensures s.c.senderParent.Some? ==> Enlarge(s, size).h.woken == s.h.woken + [s.c.senderParent.value]
  {
    EnlargeKeeps(s, size);
    EnlargeOwes(s, size);
  }

  lemma RepaidAllStep<T>(s: World<T>, owed: nat)
    requires s.c.senders != [] && s.h.owed > 0
    ensures RepaidAll(s, owed) == RepaidAll(Repay(s), owed) && |Repay(s).c.senders| == |s.c.senders| - 1
    ensures Repay(s).c.senderParent == s.c.senderParent && Repay(s).c.bufferSize == s.c.bufferSize
  {
  }

  lemma ResizeIs<T>(s: World<T>, size: nat, n: nat, u: World<T>)
    requires size > s.c.bufferSize && n == size - s.c.bufferSize - |Slot(s.c.senderParent)| && u == Enlarge(s, size)
    ensures Resize(s, size) == Repaid(u, n, s.h.owed)
  {
  }

  lemma StillGranting<T>(s: World<T>, t: World<T>, delta: nat, resize: bool)
    requires Granting(s, delta) && (delta > 0 ==> s.h.multi) && Inv(t) && t.h.pushing && Later(s, t, resize)
    ensures Granting(t, delta)
  {
  }

  /** On a drained channel a second round of close does nothing. */
  lemma DrainedIdle<T>(s: World<T>)
    requires Drained(s)
    ensures Close(s) == s
  {
    var t := Shut(s);
    assert t.h.owed == s.h.owed && t.c.senders == [] && t == s;
    assert Line(s) == s;
  }

  /** The logs have only grown. */
  lemma LogsGrow<T>(s: World<T>, t: World<T>, resize: bool)
    requires Later(s, t, resize)
    ensures s.h.pushed <= t.h.pushed && s.h.popped <= t.h.popped
  {
  }

  /** A channel that was closed is closed, and nobody started to wait. */
  lemma ShutMeans<T>(s: World<T>, t: World<T>)
    requires Later(s, t, false) && s.c.IsClosed()
    ensures StaysShut(s, t)
    ensures s.c.parent.None? ==> |t.c.recvers| <= |s.c.recvers|
    ensures s.c.senderParent.None? ==> |t.c.senders| <= |s.c.senders|
    ensures s.c.Blocked() == [] ==> t.c.Blocked() == []
  {
  }

  // ----- Why several items at once and nested pushes are set apart -----

  /** Receivers `a` and `b` wait and two items are pushed. Receiver `a`, once woken, pops, waits, pops and waits again.
      Then `b` gets a pin for which there is no object. */
  lemma TwoItemsOverpin<T>(r: World<T>, xs: seq<T>, a: Waiter, b: Waiter)
    requires Inv(r) && r.c.recvers == [a] && r.c.parent == Some(b) && r.c.objects == [] && |xs| == 2
    requires r.c.pinned == 0 && r.c.Blocked() == []
    ensures var t := Arrive(PopOne(Arrive(PopOne(Grant(Store(r, xs))), a)), a);
      t.c.recvers == [b] && t.c.parent == Some(a) && t.c.objects == [] && Grant(t).c.pinned == 1
  {
    var s := Grant(Store(r, xs));
    assert s.c.recvers == [b] && s.c.objects == xs && s.c.pinned == 1 && s.h.outstanding == 1;
    var u := PopThenWait(s, a);
    assert u.c.objects == xs[1..] && u.c.pinned == 1;
    var t := PopThenWait(u, a);
  }

  /** With one pin a coroutine pops and waits: it gets a pin while an object is left. */
  lemma PopThenWait<T>(s: World<T>, a: Waiter) returns (t: World<T>)
    requires s.c.objects != [] && s.c.pinned == s.h.outstanding == 1 && s.c.parent.None?
    requires s.c.Blocked() == []
    ensures t == Arrive(PopOne(s), a) && t.c.objects == s.c.objects[1..] && t.c.recvers == s.c.recvers
    ensures t.c.Blocked() == []
    ensures if |s.c.objects| > 1 then t.c.pinned == t.h.outstanding == 1 && t.c.parent.None?
            else t.c.pinned == 0 && t.c.parent == Some(a)
  {
    t := Arrive(PopOne(s), a);
    assert PopOne(s).c.objects == s.c.objects[1..] && PopOne(s).c.recvers == s.c.recvers;
  }

  /** The state it starts from is reached at once. */
  lemma TwoWait<T>(bufferSize: nat, a: Waiter, b: Waiter)
    requires bufferSize != CLOSED_BUFFER
    ensures var r: World<T> := WaitOne(WaitOne(Fresh(bufferSize), a), b);
      Inv(r) && r.c.recvers == [a] && r.c.parent == Some(b) && r.c.objects == []
      && r.c.pinned == 0 && r.c.Blocked() == []
  {
    var q: World<T> := Fresh(bufferSize);
    ArriveKeeps(q, a);
    ArriveKeeps(Arrive(q, a), b);
  }

  /** Receiver `a` waits on a channel without buffer and producer `p` pushes. Receiver `a`, once woken, pops, and a push
      of `q` follows before the wake-up returns. Then two senders are blocked for one object. */
  lemma NestedPushOverblocks<T>(x: T, y: T, a: Waiter, p: Waiter, q: Waiter)
    ensures var s := Grant(Store(Arrive(Fresh(0), a), [x]));
      var v := Settle(PushAll(PopOne(s), [y], q), p, false);
      s.h.outstanding == 1 && v.h.nested && |v.c.objects| == 1 && v.c.bufferSize == 0 && v.c.Blocked() == [q, p]
  {
    var s := Grant(Store(Arrive(Fresh(0), a), [x]));
    assert s.c.recvers == [] && s.c.objects == [x];
    var u := PopOne(s);
    assert u.c.objects == [] && u.c.Blocked() == [] && u.c.recvers == [];
    var t := PushAll(u, [y], q);
    assert t.c.objects == [y] && t.c.senderParent == Some(q) && t.c.senders == [];
  }
}
