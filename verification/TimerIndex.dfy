/**
 The timer index of `time/cort_timeout_waiter.cpp` on values: the timeout lists, and the heap that
 caches the deadline at the back of each.
 */
module TimerIndex {
  import opened TimerHeap

  /** A registered timeout; `id` stands for the address of its node, `host` for the list that holds it. */
  datatype Timer = Timer(id: nat, end: nat, host: nat)

  /** The non-empty lists by timeout, newest timer first, the heap over them, and the last clock value used. */
  datatype Index = Index(heap: seq<Slot>, lists: map<nat, seq<Timer>>, clock: nat)

  const EMPTY := Index([], map[], 0)

  function Back(l: seq<Timer>): Timer
    requires l != []
  {
    l[|l| - 1]
  }

  // ----- Agreement of heap and lists -----

  predicate Listed(l: seq<Timer>, host: nat, clock: nat) {
    && l != []
    && (forall i :: 0 <= i < |l| ==> l[i].host == host && l[i].end <= clock + host)
    && (forall i, j :: 0 <= i < j < |l| ==> l[i].end >= l[j].end && l[i].id != l[j].id)
  }

  function SlotOf(lists: map<nat, seq<Timer>>, host: nat): Slot
    requires host in lists && lists[host] != []
  {
    Slot(host, Back(lists[host]).end)
  }

  ghost predicate AllListed(lists: map<nat, seq<Timer>>, clock: nat) {
    forall host :: host in lists ==> Listed(lists[host], host, clock)
  }

  ghost function Slots(lists: map<nat, seq<Timer>>): set<Slot>
    requires forall host :: host in lists ==> lists[host] != []
  {
    set host | host in lists :: SlotOf(lists, host)
  }

  /** The heap holds every non-empty list once, under its earliest deadline, and nothing else; every list is
      sorted with its earliest deadline at the back and holds only its own timers, each once. */
  ghost predicate Agrees(x: Index) {
    AllListed(x.lists, x.clock) && multiset(x.heap) == multiset(Slots(x.lists))
  }

  predicate Live(x: Index, t: Timer) {
    t.host in x.lists && t in x.lists[t.host]
  }

  lemma SlotInHeap(x: Index, host: nat)
    requires Agrees(x) && host in x.lists
    ensures SlotOf(x.lists, host) in x.heap
  {
    assert SlotOf(x.lists, host) in multiset(x.heap);
  }

  lemma HeapSlot(x: Index, i: nat)
    requires Agrees(x) && i < |x.heap|
    ensures x.heap[i].list in x.lists && x.heap[i] == SlotOf(x.lists, x.heap[i].list)
  {
    assert x.heap[i] in multiset(x.heap);
  }

  lemma HeapDistinct(x: Index, i: nat, j: nat)
    requires Agrees(x) && i < j < |x.heap|
    ensures x.heap[i].list != x.heap[j].list
  {
    HeapSlot(x, i);
    HeapSlot(x, j);
    if x.heap[i] == x.heap[j] {
      SeenTwice(x.heap, i, j);
    }
  }

  lemma SeenTwice(h: seq<Slot>, i: nat, j: nat)
    requires i < j < |h| && h[i] == h[j]
    ensures multiset(h)[h[i]] >= 2
  {
    assert h == h[..j] + [h[j]] + h[j + 1..];
    assert h[i] in h[..j];
  }

  // ----- Operations -----

  /** `add_timer`. */
  function Add(x: Index, id: nat, timeout: nat, now: nat, fixed: bool): Index {
    var t := Timer(id, now + timeout, timeout);
    if timeout in x.lists then Index(x.heap, x.lists[timeout := [t] + x.lists[timeout]], now)
    else Index(Insert(x.heap, Slot(timeout, t.end), if fixed then 1 else 0), x.lists[timeout := [t]], now)
  }

  /** After an add the live timers are those before and the new one, and the list of the new one has it in front. */
  lemma AddLive(x: Index, id: nat, timeout: nat, now: nat, fixed: bool)
    ensures var y, t := Add(x, id, timeout, now, fixed), Timer(id, now + timeout, timeout);
      (forall u :: Live(y, u) <==> Live(x, u) || u == t)
      && y.lists.Keys == x.lists.Keys + {timeout} && y.clock == now
      && y.lists[timeout] == [t] + (if timeout in x.lists then x.lists[timeout] else [])
      && forall host :: host in x.lists && host != timeout ==> y.lists[host] == x.lists[host]
  {
  }

  /** An add to a timeout that has no timers. */
  lemma AddFirst(x: Index, t: Timer, now: nat, fixed: bool)
    requires t.host !in x.lists && t.end == now + t.host
    ensures Add(x, t.id, t.host, now, fixed)
      == Index(Insert(x.heap, Slot(t.host, t.end), if fixed then 1 else 0), x.lists[t.host := [t]], now)
  {
  }

  function Without(l: seq<Timer>, t: Timer): (r: seq<Timer>)
    requires t in l
    ensures |r| == |l| - 1
  {
    if l[0] == t then l[1..] else [l[0]] + Without(l[1..], t)
  }

  /** The heap position of a list, which the code reads from `heap_pos`. */
  function PosOf(h: seq<Slot>, host: nat): (pos: nat)
    requires exists i :: 0 <= i < |h| && h[i].list == host
    ensures pos < |h| && h[pos].list == host
  {
    if h[0].list == host then 0
    else
      assert exists i :: 0 <= i < |h[1..]| && h[1..][i].list == host by {
        var i :| 0 <= i < |h| && h[i].list == host;
        assert h[1..][i - 1].list == host;
      }
      1 + PosOf(h[1..], host)
  }

  lemma {:induction false} PosOfIs(h: seq<Slot>, host: nat, i: nat)
    requires i < |h| && h[i].list == host && forall j, k :: 0 <= j < k < |h| ==> h[j].list != h[k].list
    ensures PosOf(h, host) == i
  {
  }

  lemma {:induction false} WithoutKeepsBack(l: seq<Timer>, t: Timer)
    requires t in l && Back(l) != t
    ensures Without(l, t) != [] && Back(Without(l, t)) == Back(l)
  {
    if l[0] != t {
      WithoutKeepsBack(l[1..], t);
    }
  }

  lemma {:induction false} WithoutIsPart(l: seq<Timer>, t: Timer, u: Timer)
    requires t in l && u in Without(l, t)
    ensures u in l
  {
    if l[0] != t && u != l[0] {
      WithoutIsPart(l[1..], t, u);
    }
  }

  ghost predicate Removable(x: Index, t: Timer) {
    Live(x, t) && exists i :: 0 <= i < |x.heap| && x.heap[i].list == t.host
  }

  /** `remove_timer`. */
  function Remove(x: Index, t: Timer, fixed: bool): Index
    requires Removable(x, t)
  {
    var l := x.lists[t.host];
    RemoveAt(x, PosOf(x.heap, t.host), t.host, Without(l, t), Back(l) == t, fixed)
  }

  /** The list `host` in slot `pos` keeps the timers `rest`; `atBack` says whether its earliest deadline went. */
  function RemoveAt(x: Index, pos: nat, host: nat, rest: seq<Timer>, atBack: bool, fixed: bool): Index
    requires pos < |x.heap|
  {
    if !atBack then x.(lists := x.lists[host := rest])
    else if rest != [] then Index(Rekey(x.heap, pos, Back(rest).end), x.lists[host := rest], x.clock)
    else Index(Delete(x.heap, pos, fixed), x.lists - {host}, x.clock)
  }

  /** `get_next_timer`. */
  function Next(x: Index): (t: Timer)
    requires x.heap != [] && x.heap[0].list in x.lists && x.lists[x.heap[0].list] != []
  {
    Back(x.lists[x.heap[0].list])
  }

  // ----- Every operation keeps the agreement, as written and repaired -----

  lemma AddAgrees(x: Index, id: nat, timeout: nat, now: nat, fixed: bool)
    requires Agrees(x) && x.clock <= now
    requires timeout in x.lists ==> forall i :: 0 <= i < |x.lists[timeout]| ==> x.lists[timeout][i].id != id
    ensures Agrees(Add(x, id, timeout, now, fixed))
  {
    var t := Timer(id, now + timeout, timeout);
    var y := Add(x, id, timeout, now, fixed);
    AddListed(x, id, timeout, now, fixed);
    if timeout in x.lists {
      SlotsSame(x.lists, y.lists);
    } else {
      InsertSlots(x.heap, Slot(timeout, t.end), if fixed then 1 else 0);
      SlotsPlus(x.lists, timeout, [t]);
    }
  }

  lemma PushListed(l: seq<Timer>, t: Timer, clock: nat, now: nat)
    requires Listed(l, t.host, clock) && clock <= now && t.end == now + t.host
    requires forall i :: 0 <= i < |l| ==> l[i].id != t.id
    ensures Listed([t] + l, t.host, now) && Back([t] + l) == Back(l)
  {
    var r := [t] + l;
    assert forall i :: 0 < i < |r| ==> r[i] == l[i - 1];
  }

  lemma AddListed(x: Index, id: nat, timeout: nat, now: nat, fixed: bool)
    requires AllListed(x.lists, x.clock) && x.clock <= now
    requires timeout in x.lists ==> forall i :: 0 <= i < |x.lists[timeout]| ==> x.lists[timeout][i].id != id
    ensures AllListed(Add(x, id, timeout, now, fixed).lists, now)
    ensures timeout in x.lists ==> Back(Add(x, id, timeout, now, fixed).lists[timeout]) == Back(x.lists[timeout])
  {
    var y := Add(x, id, timeout, now, fixed);
    if timeout in x.lists {
      PushListed(x.lists[timeout], Timer(id, now + timeout, timeout), x.clock, now);
    }
    forall host | host in y.lists ensures Listed(y.lists[host], host, now) {
      assert host != timeout ==> Listed(x.lists[host], host, x.clock);
    }
  }

  lemma SlotsSame(a: map<nat, seq<Timer>>, b: map<nat, seq<Timer>>)
    requires a.Keys == b.Keys
    requires (forall host :: host in a ==> a[host] != [] && b[host] != [] && Back(a[host]).end == Back(b[host]).end)
    ensures Slots(a) == Slots(b)
  {
    assert forall host :: host in a ==> SlotOf(a, host) == SlotOf(b, host);
  }

  lemma SlotsPlus(a: map<nat, seq<Timer>>, host: nat, l: seq<Timer>)
    requires host !in a && l != [] && forall k :: k in a ==> a[k] != []
    ensures multiset(Slots(a[host := l])) == multiset(Slots(a)) + multiset{Slot(host, Back(l).end)}
  {
    var b := a[host := l];
    assert forall k :: k in a ==> SlotOf(b, k) == SlotOf(a, k);
    assert SlotOf(b, host) == Slot(host, Back(l).end);
    assert Slots(b) == Slots(a) + {Slot(host, Back(l).end)};
  }

  /** Taking a timer out of its list takes out that timer and no other. */
  lemma {:induction false} WithoutAt(l: seq<Timer>, t: Timer, i: nat)
    requires i < |l| && l[i] == t && forall j, k :: 0 <= j < k < |l| ==> l[j].id != l[k].id
    ensures Without(l, t) == l[..i] + l[i + 1..]
  {
    if i > 0 {
      WithoutAt(l[1..], t, i - 1);
    }
  }

  lemma WithoutElements(l: seq<Timer>, t: Timer, u: Timer)
    requires t in l && forall j, k :: 0 <= j < k < |l| ==> l[j].id != l[k].id
    ensures u in Without(l, t) <==> u in l && u != t
  {
    var i :| 0 <= i < |l| && l[i] == t;
    WithoutAt(l, t, i);
    assert l == l[..i] + [t] + l[i + 1..];
  }

  /** The other timers stay in order; the back of the list changes exactly when it was the back that went. */
  lemma WithoutListed(l: seq<Timer>, t: Timer, host: nat, clock: nat)
    requires Listed(l, host, clock) && t in l
    ensures var r := Without(l, t);
      (r != [] ==> Listed(r, host, clock))
      && (Back(l) != t ==> r != [] && Back(r) == Back(l))
      && (Back(l) == t ==> r == l[..|l| - 1])
  {
    var i :| 0 <= i < |l| && l[i] == t;
    WithoutAt(l, t, i);
    CutListed(l, i, host, clock);
  }

  lemma CutListed(l: seq<Timer>, i: nat, host: nat, clock: nat)
    requires Listed(l, host, clock) && i < |l|
    ensures var r := l[..i] + l[i + 1..];
      (r != [] ==> Listed(r, host, clock)) && (i < |l| - 1 ==> r != [] && Back(r) == Back(l))
      && (i == |l| - 1 ==> r == l[..|l| - 1]) && (i < |l| - 1 ==> Back(l) != l[i])
  {
    var r := l[..i] + l[i + 1..];
    assert forall k :: 0 <= k < |r| ==> r[k] == if k < i then l[k] else l[k + 1];
  }

  lemma AgreesRemovable(x: Index, t: Timer)
    requires Agrees(x) && Live(x, t)
    ensures Removable(x, t)
  {
    SlotInHeap(x, t.host);
  }

  lemma RemoveAgrees(x: Index, t: Timer, fixed: bool)
    requires Agrees(x) && Removable(x, t)
    ensures Agrees(Remove(x, t, fixed))
  {
    var l := x.lists[t.host];
    RemoveListed(x, t, fixed);
    WithoutListed(l, t, t.host, x.clock);
    if Back(l) != t {
      SlotsSame(x.lists, Remove(x, t, fixed).lists);
    } else {
      RemoveBackSlots(x, t, fixed);
    }
  }

  lemma KeptSlots(x: Index, host: nat, pos: nat)
    requires Agrees(x) && host in x.lists && pos < |x.heap| && x.heap[pos].list == host
    ensures multiset(Slots(x.lists - {host})) == multiset(x.heap) - multiset{x.heap[pos]}
  {
    var kept := x.lists - {host};
    HeapSlot(x, pos);
    assert x.lists == kept[host := x.lists[host]];
    SlotsPlus(kept, host, x.lists[host]);
  }

  lemma RemoveBackSlots(x: Index, t: Timer, fixed: bool)
    requires Agrees(x) && Removable(x, t) && Back(x.lists[t.host]) == t
    requires AllListed(Remove(x, t, fixed).lists, x.clock)
    ensures var y := Remove(x, t, fixed); multiset(y.heap) == multiset(Slots(y.lists))
  {
    var l := x.lists[t.host];
    var rest := Without(l, t);
    var y := Remove(x, t, fixed);
    var kept := x.lists - {t.host};
    var pos := PosOf(x.heap, t.host);
    KeptSlots(x, t.host, pos);
    if rest != [] {
      assert y.lists == kept[t.host := rest];
      SlotsPlus(kept, t.host, rest);
      RekeySlots(x.heap, pos, Back(rest).end);
    } else {
      DeleteSlots(x.heap, pos, fixed);
    }
  }

  lemma RemoveListed(x: Index, t: Timer, fixed: bool)
    requires AllListed(x.lists, x.clock) && Removable(x, t)
    ensures AllListed(Remove(x, t, fixed).lists, x.clock)
    ensures !Live(Remove(x, t, fixed), t)
    ensures forall u :: u != t ==> (Live(Remove(x, t, fixed), u) <==> Live(x, u))
  {
    var y := Remove(x, t, fixed);
    var l := x.lists[t.host];
    WithoutListed(l, t, t.host, x.clock);
    forall u ensures u in Without(l, t) <==> u in l && u != t {
      WithoutElements(l, t, u);
    }
    forall host | host in y.lists ensures Listed(y.lists[host], host, x.clock) {
      assert Listed(x.lists[host], host, x.clock);
    }
  }

  // ----- The earliest deadline -----

  /** What `get_next_timer` promises: no live timer ends before the one it returns. */
  ghost predicate NextIsEarliest(x: Index)
    requires Agrees(x)
  {
    forall t :: Live(x, t) ==> x.heap != [] && (HeapSlot(x, 0); Next(x).end <= t.end)
  }

  /** The promise is that the root of the heap is earliest. */
  lemma NextIsEarliestExactly(x: Index)
    requires Agrees(x)
    ensures NextIsEarliest(x) <==> RootEarliest(x.heap)
  {
    if RootEarliest(x.heap) {
      forall t | Live(x, t) ensures x.heap != [] && (HeapSlot(x, 0); Next(x).end <= t.end) {
        SlotInHeap(x, t.host);
        var i :| 0 <= i < |x.heap| && x.heap[i] == SlotOf(x.lists, t.host);
        HeapSlot(x, 0);
        var l := x.lists[t.host];
        var j :| 0 <= j < |l| && l[j] == t;
        assert Back(l).end <= t.end;
      }
    }
    if NextIsEarliest(x) && x.heap != [] {
      forall i | 0 <= i < |x.heap| ensures x.heap[0].key <= x.heap[i].key {
        HeapSlot(x, 0);
        HeapSlot(x, i);
        assert Live(x, Back(x.lists[x.heap[i].list]));
      }
    }
  }

  // ----- The repaired index: earliest first, always -----

  lemma AddOrders(x: Index, id: nat, timeout: nat, now: nat, fixed: bool)
    requires Ordered(x.heap, if fixed then 1 else 0)
    ensures Ordered(Add(x, id, timeout, now, fixed).heap, if fixed then 1 else 0)
  {
    InsertOrders(x.heap, Slot(timeout, now + timeout), if fixed then 1 else 0);
  }

  lemma RemoveRepairedOrders(x: Index, t: Timer)
    requires Agrees(x) && Removable(x, t) && Ordered(x.heap, 1)
    ensures Ordered(Remove(x, t, true).heap, 1)
  {
    var l := x.lists[t.host];
    if Back(l) == t {
      var pos := PosOf(x.heap, t.host);
      var rest := Without(l, t);
      HeapSlot(x, pos);
      WithoutListed(l, t, t.host, x.clock);
      if rest != [] {
        RekeyOrders(x.heap, pos, Back(rest).end);
      } else {
        DeleteRepairedOrders(x.heap, pos);
      }
    }
  }

  // ----- The index as written: when the root stays earliest -----

  lemma AddKeepsRoot(x: Index, id: nat, timeout: nat, now: nat, fixed: bool)
    requires RootEarliest(x.heap)
    ensures RootEarliest(Add(x, id, timeout, now, fixed).heap)
  {
    if timeout !in x.lists {
      var h := x.heap + [Slot(timeout, now + timeout)];
      assert forall i :: 0 <= i < |x.heap| ==> h[i] == x.heap[i];
      SiftUpRoot(h, |x.heap|, if fixed then 1 else 0);
    }
  }

  /** The heap in which `remove_timer` starts to sift down. */
  function Opened(x: Index, t: Timer): (h: seq<Slot>)
    requires Removable(x, t) && Back(x.lists[t.host]) == t
  {
    var rest := Without(x.lists[t.host], t);
    var pos := PosOf(x.heap, t.host);
    if rest != [] then x.heap[pos := x.heap[pos].(key := Back(rest).end)] else Vacate(x.heap, pos)
  }

  /** `t` is the earliest timer of the list at the root of the heap. */
  predicate AtRoot(x: Index, t: Timer)
    requires Removable(x, t)
  {
    Back(x.lists[t.host]) == t && x.heap[0].list == t.host
  }

  /** Removing any timer but the one at the root keeps the root earliest. When the timer at the root goes, the
      root ends up earliest exactly when one of the three slots that sifting down compares first is earliest. */
  lemma RemoveRootExactly(x: Index, t: Timer)
    requires Agrees(x) && Removable(x, t) && RootEarliest(x.heap)
    ensures RootEarliest(Remove(x, t, false).heap)
      <==> (AtRoot(x, t) ==> var h := Opened(x, t); h == [] || Earliest(h, 0) || Earliest(h, 1) || Earliest(h, 2))
  {
    var l := x.lists[t.host];
    if Back(l) == t {
      var pos := PosOf(x.heap, t.host);
      var h := Opened(x, t);
      if pos > 0 {
        HeapDistinct(x, 0, pos);
        RemoveBelowRoot(x, t, pos);
      } else if h != [] {
        SiftDownRootExact(h);
      }
    }
  }

  lemma RemoveBelowRoot(x: Index, t: Timer, pos: nat)
    requires Agrees(x) && Removable(x, t) && RootEarliest(x.heap) && Back(x.lists[t.host]) == t
    requires pos == PosOf(x.heap, t.host) > 0
    ensures RootEarliest(Remove(x, t, false).heap)
  {
    var l := x.lists[t.host];
    var h := Opened(x, t);
    HeapSlot(x, pos);
    WithoutListed(l, t, t.host, x.clock);
    forall i | 0 <= i < |h| ensures h[0] == x.heap[0] && h[0].key <= h[i].key {
    }
    if pos < |h| {
      SiftDownKeepsSlots(h, pos);
      SiftDownKeepsAbove(h, pos, 0);
      EarliestOfSlots(h, SiftDown(h, pos));
    }
  }

  // ----- Runs -----

  datatype Op = AddTimer(id: nat, timeout: nat, now: nat) | RemoveTimer(t: Timer)

  /** The clock does not go back, a new node has a new address, and only live timers are removed. */
  ghost predicate Legal(x: Index, op: Op) {
    match op
    case AddTimer(id, timeout, now) => x.clock <= now && forall t :: Live(x, t) ==> t.id != id
    case RemoveTimer(t) => Live(x, t)
  }

  ghost function Apply(x: Index, op: Op, fixed: bool): Index
    requires Agrees(x) && Legal(x, op)
  {
    match op
    case AddTimer(id, timeout, now) => Add(x, id, timeout, now, fixed)
    case RemoveTimer(t) => AgreesRemovable(x, t); Remove(x, t, fixed)
  }

  lemma ApplyAgrees(x: Index, op: Op, fixed: bool)
    requires Agrees(x) && Legal(x, op)
    ensures Agrees(Apply(x, op, fixed))
  {
    match op
    case AddTimer(id, timeout, now) =>
      if timeout in x.lists {
        assert Listed(x.lists[timeout], timeout, x.clock);
        forall i | 0 <= i < |x.lists[timeout]| ensures x.lists[timeout][i].id != id {
          assert Live(x, x.lists[timeout][i]);
        }
      }
      AddAgrees(x, id, timeout, now, fixed);
    case RemoveTimer(t) =>
      AgreesRemovable(x, t);
      RemoveAgrees(x, t, fixed);
  }

  ghost predicate LegalRun(x: Index, ops: seq<Op>, fixed: bool)
    requires Agrees(x)
    decreases |ops|
  {
    ops == []
    || (Legal(x, ops[0]) && (ApplyAgrees(x, ops[0], fixed); LegalRun(Apply(x, ops[0], fixed), ops[1..], fixed)))
  }

  ghost function Run(x: Index, ops: seq<Op>, fixed: bool): Index
    requires Agrees(x) && LegalRun(x, ops, fixed)
    decreases |ops|
  {
    if ops == [] then x
    else ApplyAgrees(x, ops[0], fixed); Run(Apply(x, ops[0], fixed), ops[1..], fixed)
  }

  /** Heap and lists agree after every run, as written and repaired. */
  lemma {:induction false} RunAgrees(x: Index, ops: seq<Op>, fixed: bool)
    requires Agrees(x) && LegalRun(x, ops, fixed)
    ensures Agrees(Run(x, ops, fixed))
    decreases |ops|
  {
    if ops != [] {
      ApplyAgrees(x, ops[0], fixed);
      RunAgrees(Apply(x, ops[0], fixed), ops[1..], fixed);
    }
  }

  /** Repaired: after every run `get_next_timer` returns a timer that no live timer precedes. */
  lemma {:induction false} RepairedRunIsEarliest(x: Index, ops: seq<Op>)
    requires Agrees(x) && Ordered(x.heap, 1) && LegalRun(x, ops, true)
    ensures Agrees(Run(x, ops, true)) && NextIsEarliest(Run(x, ops, true))
    decreases |ops|
  {
    if ops == [] {
      forall i | 0 <= i < |x.heap| ensures x.heap[0].key <= x.heap[i].key {
        OrderedRoot(x.heap, 1, i);
      }
      NextIsEarliestExactly(x);
    } else {
      ApplyAgrees(x, ops[0], true);
      match ops[0] {
        case AddTimer(id, timeout, now) => AddOrders(x, id, timeout, now, true);
        case RemoveTimer(t) => AgreesRemovable(x, t); RemoveRepairedOrders(x, t);
      }
      RepairedRunIsEarliest(Apply(x, ops[0], true), ops[1..]);
    }
  }

  ghost function AllLive(x: Index): iset<Timer> {
    iset t | Live(x, t)
  }

  /** The timers added in a run and not removed since, and those live before it. */
  ghost function Kept(live: iset<Timer>, ops: seq<Op>): iset<Timer>
    decreases |ops|
  {
    if ops == [] then live
    else
      match ops[0]
      case AddTimer(id, timeout, now) => Kept(live + iset{Timer(id, now + timeout, timeout)}, ops[1..])
      case RemoveTimer(t) => Kept(live - iset{t}, ops[1..])
  }

  /** After every run exactly the timers added and not removed are live, as written and repaired. */
  lemma {:induction false} RunLive(x: Index, ops: seq<Op>, fixed: bool)
    requires Agrees(x) && LegalRun(x, ops, fixed)
    ensures AllLive(Run(x, ops, fixed)) == Kept(AllLive(x), ops)
    decreases |ops|
  {
    if ops != [] {
      var y := Apply(x, ops[0], fixed);
      ApplyAgrees(x, ops[0], fixed);
      ApplyLive(x, ops[0], fixed);
      RunLive(y, ops[1..], fixed);
    }
  }

  lemma ApplyLive(x: Index, op: Op, fixed: bool)
    requires Agrees(x) && Legal(x, op)
    ensures op.AddTimer? ==>
      AllLive(Apply(x, op, fixed)) == AllLive(x) + iset{Timer(op.id, op.now + op.timeout, op.timeout)}
    ensures op.RemoveTimer? ==> AllLive(Apply(x, op, fixed)) == AllLive(x) - iset{op.t}
  {
    match op
    case AddTimer(id, timeout, now) => AddLive(x, id, timeout, now, fixed);
    case RemoveTimer(t) =>
      AgreesRemovable(x, t);
      RemoveListed(x, t, fixed);
  }

  /** As written: runs that only add keep `heap[i >> 1] <= heap[i]`. */
  lemma {:induction false} AddOnlyRunOrders(x: Index, ops: seq<Op>)
    requires Agrees(x) && Ordered(x.heap, 0) && LegalRun(x, ops, false)
    requires forall i :: 0 <= i < |ops| ==> ops[i].AddTimer?
    ensures var h := Run(x, ops, false).heap; Ordered(h, 0) && forall i :: 0 < i < |h| ==> h[i / 2].key <= h[i].key
    decreases |ops|
  {
    if ops != [] {
      var op := ops[0];
      ApplyAgrees(x, op, false);
      AddOrders(x, op.id, op.timeout, op.now, false);
      AddOnlyRunOrders(Apply(x, op, false), ops[1..]);
    } else {
      UpOrder(x.heap);
    }
  }

  /** The step keeps the root earliest: it adds, or removes below the root, or sifts down over the earliest slot. */
  ghost predicate RootSafe(x: Index, op: Op)
    requires Agrees(x) && Legal(x, op)
  {
    op.RemoveTimer? ==>
      (AgreesRemovable(x, op.t);
       AtRoot(x, op.t) ==> var h := Opened(x, op.t); h == [] || Earliest(h, 0) || Earliest(h, 1) || Earliest(h, 2))
  }

  ghost predicate RootSafeRun(x: Index, ops: seq<Op>)
    requires Agrees(x) && LegalRun(x, ops, false)
    decreases |ops|
  {
    ops == []
    || (RootSafe(x, ops[0]) && (ApplyAgrees(x, ops[0], false); RootSafeRun(Apply(x, ops[0], false), ops[1..])))
  }

  ghost predicate EarliestThroughout(x: Index, ops: seq<Op>)
    requires Agrees(x) && LegalRun(x, ops, false)
    decreases |ops|
  {
    NextIsEarliest(x)
    && (ops != [] ==> (ApplyAgrees(x, ops[0], false); EarliestThroughout(Apply(x, ops[0], false), ops[1..])))
  }

  /** As written: `get_next_timer` is right throughout a run exactly when every root removal is safe. */
  lemma {:induction false} AsWrittenExactly(x: Index, ops: seq<Op>)
    requires Agrees(x) && RootEarliest(x.heap) && LegalRun(x, ops, false)
    ensures EarliestThroughout(x, ops) <==> RootSafeRun(x, ops)
    decreases |ops|
  {
    NextIsEarliestExactly(x);
    if ops != [] {
      var y := Apply(x, ops[0], false);
      ApplyAgrees(x, ops[0], false);
      NextIsEarliestExactly(y);
      match ops[0] {
        case AddTimer(id, timeout, now) => AddKeepsRoot(x, id, timeout, now, false);
        case RemoveTimer(t) => AgreesRemovable(x, t); RemoveRootExactly(x, t);
      }
      if RootEarliest(y.heap) {
        AsWrittenExactly(y, ops[1..]);
      }
    }
  }
}
