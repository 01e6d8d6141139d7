/**
 `cort_timer` of `time/cort_timeout_waiter.cpp`: the heap array, the lists with their back-pointers
 `heap_pos`, and the two search structures, updated in place. Every method is tied to the
 operation of `TimerIndex` or `TimerHeap` it implements. Methods that differ between the code as
 written and the repaired variant take the parameter `fixed` or `bias`.
 */
module TimerStore {
  import opened TimerHeap
  import opened TimerIndex

  const SHORT_TIMER_LIST_SIZE: nat := 4096
  const HEAP_SIZE_DELTA: nat := 64
  const HEAP_NPOS := -1

  class TimeoutList {
    const timeout: nat
    var data: seq<Timer>
    var heapPos: int

    constructor (timeout: nat)
      ensures this.timeout == timeout && data == [] && heapPos == HEAP_NPOS
    {
      this.timeout, data, heapPos := timeout, [], HEAP_NPOS;
    }
  }

  ghost predicate DistinctLists(h: seq<Slot>) {
    forall i, j :: 0 <= i < j < |h| ==> h[i].list != h[j].list
  }

  class CortTimer {
    var timerHeap: array<TimeoutList?>
    var timerSize: nat
    var longTimerSearch: map<nat, TimeoutList>
    const shortTimerSearch: seq<TimeoutList>
    var nextId: nat
    ghost var index: Index             // the value of the whole structure
    ghost var lists: set<TimeoutList>  // every list
    ghost var filled: set<TimeoutList> // the lists that have timers

    // ----- Heap array and back-pointers -----

    /** Slot `i` of the array holds the list of `s`, which is not empty, and the list points back at the slot. */
    ghost predicate At(i: nat, s: Slot)
      reads this, timerHeap, if i < timerHeap.Length && timerHeap[i] != null then {timerHeap[i]} else {}
    {
      i < timerHeap.Length && timerHeap[i] != null && timerHeap[i].data != []
      && timerHeap[i].timeout == s.list && Back(timerHeap[i].data).end == s.key && timerHeap[i].heapPos == i
    }

    /** The slots of the array hold the lists `ls` in the order of `h`. */
    ghost predicate Shows(h: seq<Slot>, ls: set<TimeoutList>)
      reads this, timerHeap, ls
    {
      |h| <= timerHeap.Length && DistinctLists(h)
      && forall i :: 0 <= i < |h| ==> timerHeap[i] in ls && At(i, h[i])
    }

    /** Like `Shows` while a sift carries the list of slot `hole` in a local variable. */
    ghost predicate ShowsBut(h: seq<Slot>, ls: set<TimeoutList>, hole: nat, carried: TimeoutList)
      reads this, timerHeap, ls
    {
      |h| <= timerHeap.Length && DistinctLists(h) && hole < |h| && h[hole].list == carried.timeout
      && carried in ls && carried.data != [] && Back(carried.data).end == h[hole].key
      && forall i :: 0 <= i < |h| && i != hole ==> timerHeap[i] in ls && At(i, h[i])
    }

    /** One step of a sift: the list of slot `from` moves into the hole. */
    method Shift(hole: nat, from: nat, data: TimeoutList, ghost h: seq<Slot>, ghost ls: set<TimeoutList>,
        ghost carried: TimeoutList)
      requires ShowsBut(h, ls, hole, carried) && from < |h| && from != hole && timerHeap[from] == data
      modifies timerHeap, data`heapPos
      ensures ShowsBut(Swap(h, hole, from), ls, from, carried)
    {
      timerHeap[hole] := data;
      data.heapPos := hole;
    }

    /** The carried list goes into the hole. */
    method Place(hole: nat, data: TimeoutList, ghost h: seq<Slot>, ghost ls: set<TimeoutList>)
      requires ShowsBut(h, ls, hole, data)
      modifies timerHeap, data`heapPos
      ensures Shows(h, ls)
    {
      timerHeap[hole] := data;
      data.heapPos := hole;
    }

    /** `up_update_heap`. */
    method UpUpdateHeap(pos: nat, myTime: nat, bias: nat, ghost h: seq<Slot>, ghost ls: set<TimeoutList>)
        returns (moved: bool)
      requires pos < |h| == timerSize && bias <= 1 && Shows(h, ls) && myTime == h[pos].key
      modifies timerHeap, ls`heapPos
      ensures Shows(SiftUp(h, pos, bias), ls) && moved == (SiftUp(h, pos, bias) != h)
    {
      var posData := timerHeap[pos];
      var oldPos := pos;
      ghost var g := h;
      while oldPos != 0
        invariant oldPos <= pos && |g| == |h| && g[oldPos] == h[pos]
        invariant ShowsBut(g, ls, oldPos, posData)
        invariant if oldPos == pos then g == h && Shows(h, ls) else g[pos].key > myTime
        invariant SiftUp(g, oldPos, bias) == SiftUp(h, pos, bias)
      {
        var newPos := Parent(oldPos, bias);
        var newData := timerHeap[newPos];
        if myTime < Back(newData.data).end {
          Shift(oldPos, newPos, newData, g, ls, posData);
          g := Swap(g, oldPos, newPos);
          oldPos := newPos;
        } else {
          break;
        }
      }
      if oldPos != pos {
        Place(oldPos, posData, g, ls);
      }
      moved := oldPos != pos;
    }

    /** The choice between the two children of the hole. */
    method SmallerChild(hole: nat, ghost h: seq<Slot>, ghost ls: set<TimeoutList>, ghost carried: TimeoutList)
      returns (pos: nat, data: TimeoutList)
      requires ShowsBut(h, ls, hole, carried) && 2 * hole + 1 < |h| == timerSize
      ensures pos == Child(h, hole) && timerHeap[pos] == data && At(pos, h[pos])
    {
      pos := 2 * hole + 1;
      data := timerHeap[pos];
      var leftTime := Back(data.data).end;
      var rightPos := pos + 1;
      if rightPos < timerSize {
        var rightData := timerHeap[rightPos];
        var rightTime := Back(rightData.data).end;
        if leftTime > rightTime {
          pos, data := rightPos, rightData;
        }
      }
    }

    /** `down_update_heap`. */
    method DownUpdateHeap(pos: nat, myTime: nat, ghost h: seq<Slot>, ghost ls: set<TimeoutList>) returns (moved: bool)
      requires pos < |h| == timerSize && Shows(h, ls) && myTime == h[pos].key
      modifies timerHeap, ls`heapPos
      ensures Shows(SiftDown(h, pos), ls) && moved == (SiftDown(h, pos) != h)
    {
      var posData := timerHeap[pos];
      var oldPos := pos;
      ghost var g := h;
      while true
        invariant pos <= oldPos < |g| == |h| && g[oldPos] == h[pos]
        invariant ShowsBut(g, ls, oldPos, posData)
        invariant if oldPos == pos then g == h && Shows(h, ls) else g[pos].key < myTime
        invariant SiftDown(g, oldPos) == SiftDown(h, pos)
        decreases |h| - oldPos
      {
        if 2 * oldPos + 1 >= timerSize {
          break;
        }
        var leftPos, leftData := SmallerChild(oldPos, g, ls, posData);
        if Back(leftData.data).end < myTime {
          Shift(oldPos, leftPos, leftData, g, ls, posData);
          g := Swap(g, oldPos, leftPos);
          oldPos := leftPos;
        } else {
          break;
        }
      }
      if oldPos != pos {
        Place(oldPos, posData, g, ls);
      }
      moved := oldPos != pos;
    }

    // ----- The whole structure -----

    /** There is one list for each timeout: a short one in the array or a long one in the map. */
    ghost predicate Searchable()
      reads this
    {
      |shortTimerSearch| == SHORT_TIMER_LIST_SIZE
      && (forall t :: 0 <= t < SHORT_TIMER_LIST_SIZE ==>
            shortTimerSearch[t] in lists && shortTimerSearch[t].timeout == t)
      && (forall t :: t in longTimerSearch ==>
            longTimerSearch[t] in lists && longTimerSearch[t].timeout == t >= SHORT_TIMER_LIST_SIZE)
      && forall l :: l in lists ==>
        if l.timeout < SHORT_TIMER_LIST_SIZE then shortTimerSearch[l.timeout] == l
        else l.timeout in longTimerSearch && longTimerSearch[l.timeout] == l
    }

    /** The lists hold the timers of `index`, and a list without timers is out of the heap. */
    ghost predicate Holds()
      reads this, lists
    {
      (forall l :: l in lists ==> l.data == if l.timeout in index.lists then index.lists[l.timeout] else [])
      && (forall l :: l in lists && l.data == [] ==> l.heapPos == HEAP_NPOS)
      && filled <= lists && (forall l :: l in lists ==> (l in filled <==> l.data != []))
      && (forall t :: t in index.lists ==> index.lists[t] != [])
    }

    /** The heap array holds exactly the lists that have timers. */
    ghost predicate Heaped()
      reads this, timerHeap, filled
    {
      timerSize == |index.heap| && Shows(index.heap, filled)
      && forall l :: l in filled ==> InHeap(index.heap, l.timeout)
    }

    ghost predicate NewId()
      reads this
    {
      forall t, u :: t in index.lists && u in index.lists[t] ==> u.id < nextId
    }

    /** Besides, the map holds exactly the long lists that have timers. */
    ghost predicate Valid()
      reads this, timerHeap, lists, filled
    {
      Searchable() && Holds() && Heaped() && NewId()
      && forall t :: t in longTimerSearch <==> t in index.lists && t >= SHORT_TIMER_LIST_SIZE
    }

    constructor ()
      ensures Valid() && index == EMPTY && fresh(timerHeap) && fresh(lists)
    {
      var short: seq<TimeoutList> := [];
      while |short| < SHORT_TIMER_LIST_SIZE
        invariant |short| <= SHORT_TIMER_LIST_SIZE && fresh(short)
        invariant forall t :: 0 <= t < |short| ==>
          short[t].timeout == t && short[t].data == [] && short[t].heapPos == HEAP_NPOS
      {
        var l := new TimeoutList(|short|);
        short := short + [l];
      }
      timerHeap := new TimeoutList?[HEAP_SIZE_DELTA];
      timerSize := 0;
      longTimerSearch := map[];
      shortTimerSearch := short;
      nextId := 0;
      index := EMPTY;
      lists := set l | l in short;
      filled := {};
    }

    /** `get_next_timer`. */
    method GetNextTimer() returns (has: bool, t: Timer)
      requires Valid()
      ensures has == (index.heap != [])
      ensures has ==> index.heap[0].list in index.lists && index.lists[index.heap[0].list] != [] && t == Next(index)
      ensures if has then Agrees(index) ==> Live(index, t) else forall u :: !Live(index, u)
    {
      has, t := timerSize != 0, Timer(0, 0, 0);
      assert forall host :: host in index.lists ==> ListOf(host) in filled;
      if has {
        assert At(0, index.heap[0]) && timerHeap[0] in filled;
        t := Back(timerHeap[0].data);
      }
    }

    /** Where the two search structures keep the list of a timeout. */
    ghost function ListOf(host: nat): TimeoutList
      reads this, lists
      requires Searchable() && (host < SHORT_TIMER_LIST_SIZE || host in longTimerSearch)
    {
      if host < SHORT_TIMER_LIST_SIZE then shortTimerSearch[host] else longTimerSearch[host]
    }

    /** The back-pointer of a list with timers names its slot. */
    lemma BackPointer(l: TimeoutList)
      requires Searchable() && Heaped() && filled <= lists && l in filled
      ensures 0 <= l.heapPos < timerSize && timerHeap[l.heapPos] == l && index.heap[l.heapPos].list == l.timeout
    {
      var i :| 0 <= i < |index.heap| && index.heap[i].list == l.timeout;
      assert At(i, index.heap[i]);
    }

    /** After `get_timeout_list`: as `Valid`, but the list of `timeout` is in its search structure even when empty. */
    ghost predicate Prepared(l: TimeoutList, timeout: nat)
      reads this, timerHeap, lists, filled
    {
      Searchable() && Holds() && Heaped() && NewId() && l in lists && l.timeout == timeout
      && forall t :: t in longTimerSearch <==> (t in index.lists || t == timeout) && t >= SHORT_TIMER_LIST_SIZE
    }

    /** `get_timeout_list`. */
    method GetTimeoutList(timeout: nat) returns (l: TimeoutList)
      requires Valid()
      modifies this`longTimerSearch, this`lists
      ensures Prepared(l, timeout) && fresh(lists - old(lists))
      ensures l.heapPos == HEAP_NPOS <==> timeout !in index.lists
    {
      if timeout < SHORT_TIMER_LIST_SIZE {
        l := shortTimerSearch[timeout];
      } else {
        if timeout !in longTimerSearch {
          var made := new TimeoutList(timeout);
          longTimerSearch := longTimerSearch[timeout := made];
          lists := lists + {made};
        }
        l := longTimerSearch[timeout];
      }
      if l in filled {
        BackPointer(l);
      }
    }

    /** `realloc` of the heap array. */
    method Grow(ghost h: seq<Slot>, ghost ls: set<TimeoutList>)
      requires timerSize == |h| && Shows(h, ls)
      modifies this`timerHeap
      ensures Shows(h, ls) && timerSize < timerHeap.Length && (timerHeap == old(timerHeap) || fresh(timerHeap))
    {
      if timerSize == timerHeap.Length {
        var bigger := new TimeoutList?[timerHeap.Length + HEAP_SIZE_DELTA];
        forall i | 0 <= i < timerSize {
          bigger[i] := timerHeap[i];
        }
        timerHeap := bigger;
      }
    }

    /** `add_time_out`. */
    method AddTimeOut(posData: TimeoutList, timeOut: nat, fixed: bool, ghost h: seq<Slot>, ghost ls: set<TimeoutList>)
      requires timerSize == |h| && Shows(h, ls) && posData !in ls && posData.data != []
      requires Back(posData.data).end == timeOut
      requires forall i :: 0 <= i < |h| ==> h[i].list != posData.timeout
      modifies this`timerHeap, this`timerSize, timerHeap, ls`heapPos, posData`heapPos
      ensures timerSize == |h| + 1 && (timerHeap == old(timerHeap) || fresh(timerHeap))
      ensures Shows(Insert(h, Slot(posData.timeout, timeOut), if fixed then 1 else 0), ls + {posData})
    {
      Grow(h, ls);
      posData.heapPos := timerSize;
      timerHeap[timerSize] := posData;
      timerSize := timerSize + 1;
      ghost var g := h + [Slot(posData.timeout, timeOut)];
      assert Shows(g, ls + {posData});
      var moved := UpUpdateHeap(timerSize - 1, timeOut, if fixed then 1 else 0, g, ls + {posData});
    }

    /** `data` has the new front `t`; the other lists hold the timers of `index`. */
    ghost predicate FrontOf(data: TimeoutList, t: Timer)
      reads this, lists
    {
      match index
      case Index(_, held, _) =>
        Searchable() && data in lists && data.timeout == t.host
        && data.data == [t] + (if t.host in held then held[t.host] else [])
        && (forall l :: l in lists && l != data ==> l.data == if l.timeout in held then held[l.timeout] else [])
        && (forall l :: l in lists && l.data == [] ==> l.heapPos == HEAP_NPOS)
        && filled <= lists && (forall l :: l in lists && l != data ==> (l in filled <==> l.data != []))
        && (forall t :: t in held ==> held[t] != [])
        && (forall k :: k in longTimerSearch <==> (k in held || k == t.host) && k >= SHORT_TIMER_LIST_SIZE)
    }

    /** The new front of a list, with the heap brought up to date as `g`. */
    ghost method Seal(data: TimeoutList, t: Timer, now: nat, g: seq<Slot>)
      requires FrontOf(data, t) && NewId() && t.id < nextId && t.end == now + t.host
      requires timerSize == |g| && Shows(g, filled + {data})
      requires forall l :: l in filled + {data} ==> InHeap(g, l.timeout)
      modifies this`index, this`filled
      ensures Valid()
      ensures index == Index(g, old(index).lists[t.host := data.data], now)
    {
      assert forall u :: u in data.data ==> u.id < nextId;
      SealShape(data, t, now, g);
    }

    ghost method SealShape(data: TimeoutList, t: Timer, now: nat, g: seq<Slot>)
      requires FrontOf(data, t)
      requires timerSize == |g| && Shows(g, filled + {data})
      requires forall l :: l in filled + {data} ==> InHeap(g, l.timeout)
      modifies this`index, this`filled
      ensures Searchable() && Holds() && Heaped()
      ensures forall t :: t in longTimerSearch <==> t in index.lists && t >= SHORT_TIMER_LIST_SIZE
      ensures index == Index(g, old(index).lists[t.host := data.data], now)
    {
      filled := filled + {data};
      index := Index(g, index.lists[t.host := data.data], now);
    }

    /** `push_front` on a list with timers does not touch its earliest deadline. */
    method Prepend(data: TimeoutList, t: Timer, ghost h: seq<Slot>, ghost ls: set<TimeoutList>)
      requires Shows(h, ls) && data.data != []
      modifies data`data
      ensures Shows(h, ls) && data.data == [t] + old(data.data)
    {
      data.data := [t] + data.data;
    }

    /** `add_timer` on a list that already has timers: the heap does not change. */
    method PushFront(data: TimeoutList, t: Timer, ghost now: nat)
      requires Prepared(data, t.host) && t.host in index.lists && t.end == now + t.host && t.id < nextId
      modifies this`index, this`filled, data`data
      ensures Valid()
      ensures index == Index(old(index).heap, old(index).lists[t.host := [t] + old(index).lists[t.host]], now)
    {
      Prepend(data, t, index.heap, filled);
      assert filled + {data} == filled;
      Seal(data, t, now, index.heap);
    }

    lemma Joined(data: TimeoutList, s: Slot, bias: nat)
      requires data.timeout == s.list && bias <= 1 && forall l :: l in filled ==> InHeap(index.heap, l.timeout)
      ensures forall l :: l in filled + {data} ==> InHeap(Insert(index.heap, s, bias), l.timeout)
    {
      forall l | l in filled + {data} ensures InHeap(Insert(index.heap, s, bias), l.timeout) {
        InsertLists(index.heap, s, bias, l.timeout);
      }
    }

    /** `add_timer` on an empty list, which enters the heap. */
    method PushFirst(data: TimeoutList, t: Timer, ghost now: nat, fixed: bool)
      requires Prepared(data, t.host) && t.host !in index.lists && t.end == now + t.host && t.id < nextId
      modifies this`index, this`filled, this`timerHeap, this`timerSize, timerHeap, filled`heapPos, data
      ensures Valid() && (timerHeap == old(timerHeap) || fresh(timerHeap))
      ensures index == Add(old(index), t.id, t.host, now, fixed)
    {
      ghost var g := Insert(index.heap, Slot(t.host, t.end), if fixed then 1 else 0);
      AddFirst(index, t, now, fixed);
      EnterHeap(data, t, fixed, g);
      Seal(data, t, now, g);
    }

    method EnterHeap(data: TimeoutList, t: Timer, fixed: bool, ghost g: seq<Slot>)
      requires Prepared(data, t.host) && t.host !in index.lists
      requires g == Insert(index.heap, Slot(t.host, t.end), if fixed then 1 else 0)
      modifies this`timerHeap, this`timerSize, timerHeap, filled`heapPos, data
      ensures FrontOf(data, t) && data.data == [t] && (timerHeap == old(timerHeap) || fresh(timerHeap))
      ensures timerSize == |g| && Shows(g, filled + {data}) && forall l :: l in filled + {data} ==> InHeap(g, l.timeout)
    {
      Joined(data, Slot(t.host, t.end), if fixed then 1 else 0);
      Fill(data, t);
      AddTimeOut(data, t.end, fixed, index.heap, filled);
    }

    /** `push_front` on an empty list. */
    method Fill(data: TimeoutList, t: Timer)
      requires Prepared(data, t.host) && t.host !in index.lists
      modifies data`data
      ensures FrontOf(data, t) && data.data == [t] && data !in filled
      ensures timerSize == |index.heap| && Shows(index.heap, filled)
      ensures forall i :: 0 <= i < |index.heap| ==> index.heap[i].list != data.timeout
      ensures forall l :: l in lists && l.data == [] ==> l !in filled && l != data
    {
      data.data := [t] + data.data;
      assert data.data == [t];
    }

    /** A node with a new address. */
    method NewTimer(timeout: nat, now: nat) returns (t: Timer)
      requires Valid()
      modifies this`nextId
      ensures Valid() && t == Timer(old(nextId), now + timeout, timeout) && !Live(index, t) && t.id < nextId
    {
      t := Timer(nextId, now + timeout, timeout);
      nextId := nextId + 1;
    }

    /** `add_timer`. */
    method AddTimer(timeout: nat, now: nat, fixed: bool) returns (t: Timer)
      requires Valid()
      modifies this, timerHeap, lists
      ensures Valid() && (timerHeap == old(timerHeap) || fresh(timerHeap)) && fresh(lists - old(lists))
      ensures t == Timer(old(nextId), now + timeout, timeout) && !old(Live(index, t))
      ensures index == Add(old(index), t.id, timeout, now, fixed)
      ensures forall u :: Live(index, u) <==> old(Live(index, u)) || u == t
      ensures old(Agrees(index)) && old(index).clock <= now ==> Agrees(index)
    {
      t := NewTimer(timeout, now);
      ghost var x := index;
      Register(t, now, fixed);
      AddLive(x, t.id, timeout, now, fixed);
      if Agrees(x) && x.clock <= now {
        AddAgrees(x, t.id, timeout, now, fixed);
      }
    }

    /** The timer enters its list. */
    method Register(t: Timer, ghost now: nat, fixed: bool)
      requires Valid() && t.id < nextId && t.end == now + t.host
      modifies this`index, this`filled, this`timerHeap, this`timerSize, this`longTimerSearch, this`lists
      modifies timerHeap, lists
      ensures Valid() && (timerHeap == old(timerHeap) || fresh(timerHeap)) && fresh(lists - old(lists))
      ensures index == Add(old(index), t.id, t.host, now, fixed)
    {
      var data := GetTimeoutList(t.host);
      Push(data, t, now, fixed);
    }

    method Push(data: TimeoutList, t: Timer, ghost now: nat, fixed: bool)
      requires Prepared(data, t.host) && t.end == now + t.host && t.id < nextId
      modifies this`index, this`filled, this`timerHeap, this`timerSize, timerHeap, filled`heapPos, data
      ensures Valid() && (timerHeap == old(timerHeap) || fresh(timerHeap))
      ensures index == Add(old(index), t.id, t.host, now, fixed)
    {
      if data.heapPos == HEAP_NPOS {
        PushFirst(data, t, now, fixed);
      } else {
        PushFront(data, t, now);
      }
    }

    // ----- Removal -----

    /** All slots but that of `posData` are in order, and `posData` is still in slot `pos`. */
    ghost predicate Stale(h: seq<Slot>, ls: set<TimeoutList>, pos: nat, posData: TimeoutList)
      reads this, timerHeap, ls
    {
      timerSize == |h| <= timerHeap.Length && DistinctLists(h) && pos < |h| && posData in ls
      && timerHeap[pos] == posData && posData.heapPos == pos && posData.timeout == h[pos].list
      && forall i :: 0 <= i < |h| && i != pos ==> timerHeap[i] in ls && At(i, h[i])
    }

    /** `erase` of a timer from its list. */
    method Erase(data: TimeoutList, t: Timer, pos: nat, ghost h: seq<Slot>, ghost ls: set<TimeoutList>)
      requires Shows(h, ls) && timerSize == |h| && t in data.data && pos < |h| && timerHeap[pos] == data
      modifies data`data
      ensures data.data == Without(old(data.data), t) && forall u :: u in data.data ==> u in old(data.data)
      ensures if Back(old(data.data)) == t then Stale(h, ls, pos, data) else data.data != [] && Shows(h, ls)
    {
      if Back(data.data) != t {
        WithoutKeepsBack(data.data, t);
      }
      forall u | u in Without(data.data, t) ensures u in data.data {
        WithoutIsPart(data.data, t, u);
      }
      data.data := Without(data.data, t);
    }

    /** `remove_time_out` of a list that still has timers. */
    method Lower(pos: nat, posData: TimeoutList, ghost h: seq<Slot>, ghost ls: set<TimeoutList>)
      requires Stale(h, ls, pos, posData) && posData.data != []
      modifies timerHeap, ls`heapPos
      ensures Shows(Rekey(h, pos, Back(posData.data).end), ls)
    {
      var myTime := Back(posData.data).end;
      ghost var g := h[pos := h[pos].(key := myTime)];
      assert Shows(g, ls);
      var moved := DownUpdateHeap(pos, myTime, g, ls);
    }

    /** `remove_time_out` of an emptied list, up to its return to the search structures. */
    method TakeOut(pos: nat, posData: TimeoutList, fixed: bool, ghost h: seq<Slot>, ghost ls: set<TimeoutList>)
      requires Stale(h, ls, pos, posData)
      modifies this`timerSize, timerHeap, (ls - {posData})`heapPos
      ensures timerSize == |h| - 1 && Shows(Delete(h, pos, fixed), ls - {posData})
    {
      timerSize := timerSize - 1;
      ghost var v, rest := Vacate(h, pos), ls - {posData};
      if timerSize != 0 && pos != timerSize {
        var newPosData := timerHeap[timerSize];
        timerHeap[pos] := newPosData;
        newPosData.heapPos := pos;
        assert Shows(v, rest);
        var moved := DownUpdateHeap(pos, Back(newPosData.data).end, v, rest);
        if fixed {
          var w := SiftDown(v, pos);
          assert At(pos, w[pos]);
          moved := UpUpdateHeap(pos, Back(timerHeap[pos].data).end, 1, w, rest);
        }
      }
    }

    /** What `remove_timer` has not touched, with the list `data` left aside. */
    ghost predicate OthersHold(data: TimeoutList)
      reads this, lists
    {
      Searchable() && data in lists && data.timeout in index.lists && filled <= lists
      && (forall l :: l in lists && l != data ==>
            l.data == if l.timeout in index.lists then index.lists[l.timeout] else [])
      && (forall l :: l in lists && l != data && l.data == [] ==> l.heapPos == HEAP_NPOS)
      && (forall l :: l in lists && l != data ==> (l in filled <==> l.data != [])) && data in filled
      && (forall t :: t in index.lists ==> index.lists[t] != []) && NewId()
      && (forall t :: t in longTimerSearch <==> t in index.lists && t >= SHORT_TIMER_LIST_SIZE)
    }

    /** The shortened list, with the heap brought up to date as `g`. */
    ghost method SealShorter(data: TimeoutList, g: seq<Slot>)
      requires OthersHold(data) && data.data != []
      requires forall u :: u in data.data ==> u.id < nextId
      requires timerSize == |g| && Shows(g, filled) && forall l :: l in filled ==> InHeap(g, l.timeout)
      modifies this`index
      ensures Valid() && index == Index(g, old(index).lists[data.timeout := data.data], old(index).clock)
    {
      index := Index(g, index.lists[data.timeout := data.data], index.clock);
    }

    /** The index without the list of `data`, whose heap slot is already gone. */
    ghost predicate Emptied(data: TimeoutList, g: seq<Slot>)
      reads this, timerHeap, lists, filled
    {
      OthersHold(data) && data.data == [] && timerSize == |g| && Shows(g, filled - {data})
      && forall l :: l in filled - {data} ==> InHeap(g, l.timeout)
    }

    /** `long_timer_search.erase`. */
    method EraseLong(data: TimeoutList)
      requires Searchable() && data in lists && data.timeout >= SHORT_TIMER_LIST_SIZE
      modifies this`lists, this`longTimerSearch
      ensures Searchable() && lists == old(lists) - {data} && longTimerSearch == old(longTimerSearch) - {data.timeout}
      ensures forall l :: l in lists ==> l.timeout != data.timeout
    {
      longTimerSearch := longTimerSearch - {data.timeout};
      lists := lists - {data};
    }

    /** The emptied list is erased from the map. */
    method SealLong(data: TimeoutList, ghost g: seq<Slot>)
      requires Emptied(data, g) && data.timeout >= SHORT_TIMER_LIST_SIZE
      modifies this`index, this`lists, this`filled, this`longTimerSearch
      ensures Valid() && lists <= old(lists)
      ensures index == Index(g, old(index).lists - {data.timeout}, old(index).clock)
    {
      EraseLong(data);
      LeaveOut(data, g);
    }

    ghost method LeaveOut(data: TimeoutList, g: seq<Slot>)
      requires Searchable() && filled <= lists + {data} && data !in lists
      requires forall l :: l in lists ==> l.timeout != data.timeout
      requires forall l :: l in lists ==> l.data == if l.timeout in index.lists then index.lists[l.timeout] else []
      requires forall l :: l in lists ==> (l.data == [] ==> l.heapPos == HEAP_NPOS) && (l in filled <==> l.data != [])
      requires (forall t :: t in index.lists ==> index.lists[t] != []) && NewId()
      requires forall t :: t in longTimerSearch <==> t in index.lists && t != data.timeout && t >= SHORT_TIMER_LIST_SIZE
      requires data.timeout >= SHORT_TIMER_LIST_SIZE && timerSize == |g| && Shows(g, filled - {data})
      requires forall l :: l in filled - {data} ==> InHeap(g, l.timeout)
      modifies this`index, this`filled
      ensures Valid() && index == Index(g, old(index).lists - {data.timeout}, old(index).clock)
    {
      filled := filled - {data};
      index := Index(g, index.lists - {data.timeout}, index.clock);
    }

    /** The emptied list stays in the short array, marked as out of the heap. */
    method SealShort(data: TimeoutList, ghost g: seq<Slot>)
      requires Emptied(data, g) && data.timeout < SHORT_TIMER_LIST_SIZE
      modifies this`index, this`filled, data`heapPos
      ensures Valid()
      ensures index == Index(g, old(index).lists - {data.timeout}, old(index).clock)
    {
      data.heapPos := HEAP_NPOS;
      filled := filled - {data};
      index := Index(g, index.lists - {data.timeout}, index.clock);
    }

    /** `remove_time_out`. */
    method RemoveTimeOut(pos: nat, data: TimeoutList, fixed: bool)
      requires OthersHold(data) && Stale(index.heap, filled, pos, data)
      requires forall u :: u in data.data ==> u.id < nextId
      requires forall l :: l in filled ==> InHeap(index.heap, l.timeout)
      modifies this`index, this`lists, this`filled, this`longTimerSearch, this`timerSize, timerHeap, filled`heapPos
      ensures Valid() && lists <= old(lists)
      ensures index == RemoveAt(old(index), pos, data.timeout, data.data, true, fixed)
    {
      if data.data != [] {
        Shorten(pos, data);
      } else {
        DropEmpty(pos, data, fixed);
      }
    }

    /** The list still has timers. */
    method Shorten(pos: nat, data: TimeoutList)
      requires OthersHold(data) && Stale(index.heap, filled, pos, data) && data.data != []
      requires forall u :: u in data.data ==> u.id < nextId
      requires forall l :: l in filled ==> InHeap(index.heap, l.timeout)
      modifies this`index, timerHeap, filled`heapPos
      ensures Valid()
      ensures var x := old(index);
        index == Index(Rekey(x.heap, pos, Back(data.data).end), x.lists[data.timeout := data.data], x.clock)
    {
      ghost var h := index.heap;
      Lower(pos, data, h, filled);
      forall l | l in filled ensures InHeap(Rekey(h, pos, Back(data.data).end), l.timeout) {
        RekeyLists(h, pos, Back(data.data).end, l.timeout);
      }
      SealShorter(data, Rekey(h, pos, Back(data.data).end));
    }

    /** The list has no timers left. */
    method DropEmpty(pos: nat, data: TimeoutList, fixed: bool)
      requires OthersHold(data) && Stale(index.heap, filled, pos, data) && data.data == []
      requires forall l :: l in filled ==> InHeap(index.heap, l.timeout)
      modifies this`index, this`lists, this`filled, this`longTimerSearch, this`timerSize, timerHeap, filled`heapPos
      ensures Valid() && lists <= old(lists)
      ensures var x := old(index); index == Index(Delete(x.heap, pos, fixed), x.lists - {data.timeout}, x.clock)
    {
      ghost var h := index.heap;
      TakeOut(pos, data, fixed, h, filled);
      forall l | l in filled - {data} ensures InHeap(Delete(h, pos, fixed), l.timeout) {
        DeleteLists(h, pos, fixed, l.timeout);
      }
      if data.timeout >= SHORT_TIMER_LIST_SIZE {
        SealLong(data, Delete(h, pos, fixed));
      } else {
        SealShort(data, Delete(h, pos, fixed));
      }
    }

    /** The second half of `remove_timer`: the heap hears of the removal when the earliest deadline of the list went. */
    method Refresh(pos: nat, data: TimeoutList, atBack: bool, fixed: bool)
      requires OthersHold(data) && pos < |index.heap| && timerSize == |index.heap|
      requires index.heap[pos].list == data.timeout
      requires if atBack then Stale(index.heap, filled, pos, data) else data.data != [] && Shows(index.heap, filled)
      requires forall u :: u in data.data ==> u.id < nextId
      requires forall l :: l in filled ==> InHeap(index.heap, l.timeout)
      modifies this`index, this`lists, this`filled, this`longTimerSearch, this`timerSize, timerHeap, filled`heapPos
      ensures Valid() && lists <= old(lists)
      ensures index == RemoveAt(old(index), pos, data.timeout, data.data, atBack, fixed)
    {
      if atBack {
        RemoveTimeOut(pos, data, fixed);
      } else {
        SealShorter(data, index.heap);
      }
    }

    /** The first half of `remove_timer`: the timer leaves its list. */
    method Detach(t: Timer) returns (pos: nat, data: TimeoutList, atBack: bool)
      requires Valid() && Live(index, t)
      modifies (set l | l in filled)`data
      ensures OthersHold(data) && data.timeout == t.host && data.data == Without(index.lists[t.host], t)
      ensures pos < |index.heap| && timerSize == |index.heap| && index.heap[pos].list == t.host
      ensures PosOf(index.heap, t.host) == pos
      ensures atBack == (Back(index.lists[t.host]) == t)
      ensures if atBack then Stale(index.heap, filled, pos, data) else data.data != [] && Shows(index.heap, filled)
      ensures forall u :: u in data.data ==> u.id < nextId
    {
      data := if t.host < SHORT_TIMER_LIST_SIZE then shortTimerSearch[t.host] else longTimerSearch[t.host];
      BackPointer(data);
      pos := data.heapPos;
      PosOfIs(index.heap, t.host, pos);
      atBack := Back(data.data) == t;
      Erase(data, t, pos, index.heap, filled);
    }

    /** `remove_timer`. */
    method RemoveTimer(t: Timer, fixed: bool)
      requires Valid() && Live(index, t)
      modifies this, timerHeap, lists
      ensures Valid() && timerHeap == old(timerHeap) && lists <= old(lists) && nextId == old(nextId)
      ensures Removable(old(index), t) && index == Remove(old(index), t, fixed)
      ensures old(Agrees(index)) ==> Agrees(index) && forall u :: Live(index, u) <==> old(Live(index, u)) && u != t
    {
      ghost var x := index;
      Unregister(t, fixed);
      if Agrees(x) {
        RemoveAgrees(x, t, fixed);
        RemoveListed(x, t, fixed);
      }
    }

    /** The timer leaves its list, and then the heap may have to follow. */
    method Unregister(t: Timer, fixed: bool)
      requires Valid() && Live(index, t)
      modifies this, timerHeap, lists
      ensures Valid() && timerHeap == old(timerHeap) && lists <= old(lists) && nextId == old(nextId)
      ensures Removable(old(index), t) && index == Remove(old(index), t, fixed)
    {
      ghost var x := index;
      var pos, data, atBack := Detach(t);
      assert index == x && x.heap[pos].list == t.host && Removable(x, t);
      Refresh(pos, data, atBack, fixed);
    }
  }
}
