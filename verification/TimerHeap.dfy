/**
 The heap order of `cort_timer` in `time/cort_timeout_waiter.cpp`, on values.

 A slot of the heap stands for one non-empty timeout list; its key is the deadline at the back of
 that list. The code sifts up towards `pos >> 1` and sifts down towards `2 * pos + 1` and
 `2 * pos + 2`, which are two different trees. `bias` is 0 for the code as written and 1 for the
 repaired variant, in which the parent is `(pos - 1) >> 1`.
 */
module TimerHeap {

  datatype Slot = Slot(list: nat, key: nat)

  /** `pos >> 1` as written, `(pos - 1) >> 1` repaired. */
  function Parent(pos: nat, bias: nat): (up: nat)
    requires pos > 0 && bias <= 1
    ensures up < pos
  {
    (pos - bias) / 2
  }

  function Swap(h: seq<Slot>, i: nat, j: nat): (r: seq<Slot>)
    requires i < |h| && j < |h|
    ensures |r| == |h| && r[i] == h[j] && r[j] == h[i]
    ensures forall k :: 0 <= k < |h| && k != i && k != j ==> r[k] == h[k]
  {
    h[i := h[j]][j := h[i]]
  }

  /** `up_update_heap`. */
  function SiftUp(h: seq<Slot>, pos: nat, bias: nat): (r: seq<Slot>)
    requires pos < |h| && bias <= 1
    ensures |r| == |h|
    decreases pos
  {
    if pos == 0 then h
    else
      var up := Parent(pos, bias);
      if h[pos].key < h[up].key then SiftUp(Swap(h, pos, up), up, bias) else h
  }

  /** The smaller child; the left one on a tie. */
  function Child(h: seq<Slot>, pos: nat): (c: nat)
    requires 2 * pos + 1 < |h|
    ensures c == 2 * pos + 1 || c == 2 * pos + 2
    ensures c < |h| && h[c].key <= h[2 * pos + 1].key
    ensures 2 * pos + 2 < |h| ==> h[c].key <= h[2 * pos + 2].key
  {
    var left := 2 * pos + 1;
    if left + 1 < |h| && h[left].key > h[left + 1].key then left + 1 else left
  }

  /** `down_update_heap`. */
  function SiftDown(h: seq<Slot>, pos: nat): (r: seq<Slot>)
    requires pos < |h|
    ensures |r| == |h|
    decreases |h| - pos
  {
    if 2 * pos + 1 >= |h| then h
    else
      var c := Child(h, pos);
      if h[c].key < h[pos].key then SiftDown(Swap(h, pos, c), c) else h
  }

  // ----- No slot is lost -----

  lemma SwapKeepsSlots(h: seq<Slot>, i: nat, j: nat)
    requires i < j < |h|
    ensures multiset(Swap(h, i, j)) == multiset(h) && Swap(h, j, i) == Swap(h, i, j)
  {
    assert h == h[..i] + [h[i]] + h[i + 1..j] + [h[j]] + h[j + 1..];
    assert Swap(h, i, j) == h[..i] + [h[j]] + h[i + 1..j] + [h[i]] + h[j + 1..];
    assert Swap(h, j, i) == Swap(h, i, j);
  }

  lemma {:induction false} SiftUpKeepsSlots(h: seq<Slot>, pos: nat, bias: nat)
    requires pos < |h| && bias <= 1
    ensures multiset(SiftUp(h, pos, bias)) == multiset(h)
    decreases pos
  {
    if pos > 0 {
      var up := Parent(pos, bias);
      SwapKeepsSlots(h, up, pos);
      SiftUpKeepsSlots(Swap(h, pos, up), up, bias);
    }
  }

  lemma {:induction false} SiftDownKeepsSlots(h: seq<Slot>, pos: nat)
    requires pos < |h|
    ensures multiset(SiftDown(h, pos)) == multiset(h)
    decreases |h| - pos
  {
    if 2 * pos + 1 < |h| {
      var c := Child(h, pos);
      SwapKeepsSlots(h, pos, c);
      SiftDownKeepsSlots(Swap(h, pos, c), c);
    }
  }

  // ----- Heap order -----

  /** No slot is earlier than its parent; `skip` names a slot exempt from the comparison with its parent. */
  predicate OrderedBut(h: seq<Slot>, bias: nat, skip: int)
    requires bias <= 1
  {
    forall i :: 0 < i < |h| && i != skip ==> h[Parent(i, bias)].key <= h[i].key
  }

  predicate Ordered(h: seq<Slot>, bias: nat)
    requires bias <= 1
  {
    OrderedBut(h, bias, 0)
  }

  /** The order of the code as written is that of slot `i` and slot `i / 2`. */
  lemma UpOrder(h: seq<Slot>)
    ensures Ordered(h, 0) <==> forall i :: 0 < i < |h| ==> h[i / 2].key <= h[i].key
  {
    if Ordered(h, 0) {
      forall i | 0 < i < |h| ensures h[i / 2].key <= h[i].key {
        assert Parent(i, 0) == i / 2;
      }
    } else {
      var i :| 0 < i < |h| && h[Parent(i, 0)].key > h[i].key;
      assert Parent(i, 0) == i / 2;
    }
  }

  /** The children of slot `i` are not earlier: slots `2 * i + 1` and `2 * i + 2`, where sifting down looks. */
  predicate ChildrenLater(h: seq<Slot>, i: nat) {
    i < |h| && (2 * i + 1 < |h| ==> h[i].key <= h[2 * i + 1].key)
    && (2 * i + 2 < |h| ==> h[i].key <= h[2 * i + 2].key)
  }

  /** The order of the repaired code is the one that sifting down restores. */
  lemma DownOrder(h: seq<Slot>)
    ensures Ordered(h, 1) <==> forall i: nat :: i < |h| ==> ChildrenLater(h, i)
  {
    if Ordered(h, 1) {
      forall i: nat | i < |h| ensures ChildrenLater(h, i) {
        assert Parent(2 * i + 1, 1) == i && Parent(2 * i + 2, 1) == i;
      }
    } else {
      var i :| 0 < i < |h| && h[Parent(i, 1)].key > h[i].key;
      assert !ChildrenLater(h, Parent(i, 1));
    }
  }

  /** The children of `pos` are not earlier than the parent of `pos`. */
  predicate Bridged(h: seq<Slot>, bias: nat, pos: nat)
    requires bias <= 1
  {
    0 < pos < |h| ==> forall i :: 0 < i < |h| && Parent(i, bias) == pos ==> h[Parent(pos, bias)].key <= h[i].key
  }

  /** Sifting up restores the order when only the slot at `pos` may be too early. */
  lemma {:induction false} SiftUpOrders(h: seq<Slot>, pos: nat, bias: nat)
    requires pos < |h| && bias <= 1
    requires OrderedBut(h, bias, pos) && Bridged(h, bias, pos)
    ensures Ordered(SiftUp(h, pos, bias), bias)
    decreases pos
  {
    if pos > 0 {
      var up := Parent(pos, bias);
      if h[pos].key < h[up].key {
        var r := Swap(h, pos, up);
        forall i | 0 < i < |r| && i != up ensures r[Parent(i, bias)].key <= r[i].key {
          if i != pos && Parent(i, bias) == up {
            assert h[up].key <= h[i].key;
          }
        }
        forall i | 0 < i < |r| && Parent(i, bias) == up && 0 < up ensures r[Parent(up, bias)].key <= r[i].key {
          assert h[Parent(up, bias)].key <= h[up].key;
          assert i != pos ==> h[up].key <= h[i].key;
        }
        SiftUpOrders(r, up, bias);
      }
    }
  }

  /** No slot under `pos` is earlier than its parent, leaving aside the children of `pos`. */
  predicate OrderedBelowBut(h: seq<Slot>, pos: nat) {
    forall i :: 0 < i < |h| && Parent(i, 1) != pos ==> h[Parent(i, 1)].key <= h[i].key
  }

  lemma SwapDownOrders(h: seq<Slot>, pos: nat, c: nat)
    requires 2 * pos + 1 < |h| && c == Child(h, pos) && h[c].key < h[pos].key
    requires OrderedBelowBut(h, pos) && Bridged(h, 1, pos)
    ensures OrderedBelowBut(Swap(h, pos, c), c) && Bridged(Swap(h, pos, c), 1, c)
  {
    var r := Swap(h, pos, c);
    assert Parent(c, 1) == pos;
    forall i | 0 < i < |r| && Parent(i, 1) != c ensures r[Parent(i, 1)].key <= r[i].key {
      SwapDownPair(h, pos, c, i);
    }
    forall i | 0 < i < |r| && Parent(i, 1) == c ensures r[pos].key <= r[i].key {
      assert h[Parent(i, 1)].key <= h[i].key;
    }
  }

  lemma SwapDownPair(h: seq<Slot>, pos: nat, c: nat, i: nat)
    requires 2 * pos + 1 < |h| && c == Child(h, pos) && h[c].key < h[pos].key
    requires OrderedBelowBut(h, pos) && Bridged(h, 1, pos) && 0 < i < |h| && Parent(i, 1) != c
    ensures var r := Swap(h, pos, c); r[Parent(i, 1)].key <= r[i].key
  {
    var up := Parent(i, 1);
    if up == pos {
      assert i == 2 * pos + 1 || i == 2 * pos + 2;
    } else if i == pos {
      assert h[up].key <= h[c].key by { assert Parent(c, 1) == pos; }
    } else {
      assert h[up].key <= h[i].key;
    }
  }

  /** Sifting down restores the 2i+1 / 2i+2 order when only the slot at `pos` may be too late. */
  lemma {:induction false} SiftDownOrders(h: seq<Slot>, pos: nat)
    requires pos < |h|
    requires OrderedBelowBut(h, pos) && Bridged(h, 1, pos)
    ensures Ordered(SiftDown(h, pos), 1)
    decreases |h| - pos
  {
    if 2 * pos + 1 < |h| {
      var c := Child(h, pos);
      if h[c].key < h[pos].key {
        var r := Swap(h, pos, c);
        SwapDownOrders(h, pos, c);
        SiftDownOrders(r, c);
      } else {
        forall i | 0 < i < |h| ensures h[Parent(i, 1)].key <= h[i].key {
          assert Parent(i, 1) == pos ==> i == 2 * pos + 1 || i == 2 * pos + 2;
        }
      }
    }
  }

  /** In an ordered heap the root is earliest. */
  lemma {:induction false} OrderedRoot(h: seq<Slot>, bias: nat, i: nat)
    requires bias <= 1 && Ordered(h, bias) && i < |h|
    ensures h[0].key <= h[i].key
    decreases i
  {
    if i > 0 {
      OrderedRoot(h, bias, Parent(i, bias));
    }
  }

  // ----- The root -----

  /** `h[j]` has the earliest key. */
  predicate Earliest(h: seq<Slot>, j: nat) {
    j < |h| && forall i :: 0 <= i < |h| ==> h[j].key <= h[i].key
  }

  predicate RootEarliest(h: seq<Slot>) {
    h == [] || Earliest(h, 0)
  }

  lemma EarliestOfSlots(h: seq<Slot>, r: seq<Slot>)
    requires multiset(h) == multiset(r) && Earliest(h, 0) && r != [] && r[0].key <= h[0].key
    ensures Earliest(r, 0)
  {
    forall i | 0 <= i < |r| ensures r[0].key <= r[i].key {
      assert r[i] in multiset(r);
    }
  }

  /** Sifting up, in either tree, keeps the root earliest, whatever the order of the other slots. */
  lemma {:induction false} SiftUpRoot(h: seq<Slot>, pos: nat, bias: nat)
    requires pos < |h| && bias <= 1
    requires forall i :: 0 <= i < |h| && i != pos ==> h[0].key <= h[i].key
    ensures Earliest(SiftUp(h, pos, bias), 0)
    decreases pos
  {
    if pos > 0 {
      var up := Parent(pos, bias);
      if h[pos].key < h[up].key {
        SiftUpRoot(Swap(h, pos, up), up, bias);
      }
    }
  }

  /** Sifting down below the root does not move the root. */
  lemma {:induction false} SiftDownKeepsAbove(h: seq<Slot>, pos: nat, i: nat)
    requires i < pos < |h|
    ensures SiftDown(h, pos)[i] == h[i]
    decreases |h| - pos
  {
    if 2 * pos + 1 < |h| {
      var c := Child(h, pos);
      if h[c].key < h[pos].key {
        SiftDownKeepsAbove(Swap(h, pos, c), c, i);
      }
    }
  }

  /** After sifting down from the root, the root is earliest exactly when one of the first three slots was. */
  lemma SiftDownRootExact(h: seq<Slot>)
    requires h != []
    ensures Earliest(SiftDown(h, 0), 0) <==> Earliest(h, 0) || Earliest(h, 1) || Earliest(h, 2)
  {
    var r := SiftDown(h, 0);
    SiftDownKeepsSlots(h, 0);
    var j := if |h| > 1 && h[Child(h, 0)].key < h[0].key then Child(h, 0) else 0;
    assert r[0] == h[j] by {
      if j > 0 {
        SiftDownKeepsAbove(Swap(h, 0, j), j, 0);
      }
    }
    if Earliest(r, 0) {
      forall i | 0 <= i < |h| ensures h[j].key <= h[i].key {
        assert h[i] in multiset(r);
        var k :| 0 <= k < |r| && r[k] == h[i];
      }
      assert Earliest(h, j);
    }
    if Earliest(h, 0) || Earliest(h, 1) || Earliest(h, 2) {
      forall i | 0 <= i < |r| ensures r[0].key <= r[i].key {
        assert r[i] in multiset(h);
        var k :| 0 <= k < |h| && h[k] == r[i];
      }
    }
  }

  // ----- Adding, changing and removing a list -----

  /** `add_time_out`: a list that was empty enters the heap. */
  function Insert(h: seq<Slot>, s: Slot, bias: nat): seq<Slot>
    requires bias <= 1
  {
    SiftUp(h + [s], |h|, bias)
  }

  /** `remove_time_out` of a list that still has timers: its earliest deadline is now `key`. */
  function Rekey(h: seq<Slot>, pos: nat, key: nat): seq<Slot>
    requires pos < |h|
  {
    SiftDown(h[pos := h[pos].(key := key)], pos)
  }

  /** The heap with the slot at `pos` taken by the last one, before any sifting. */
  function Vacate(h: seq<Slot>, pos: nat): (r: seq<Slot>)
    requires pos < |h|
    ensures |r| == |h| - 1
  {
    var n := |h| - 1;
    if pos == n then h[..n] else h[..n][pos := h[n]]
  }

  /** `remove_time_out` of an emptied list. As written the moved slot is only sifted down; the repaired variant
      then sifts up from the same position. */
  function Delete(h: seq<Slot>, pos: nat, repaired: bool): seq<Slot>
    requires pos < |h|
  {
    var v := Vacate(h, pos);
    if pos >= |v| then v
    else if repaired then SiftUp(SiftDown(v, pos), pos, 1)
    else SiftDown(v, pos)
  }

  lemma InsertSlots(h: seq<Slot>, s: Slot, bias: nat)
    requires bias <= 1
    ensures multiset(Insert(h, s, bias)) == multiset(h) + multiset{s}
  {
    SiftUpKeepsSlots(h + [s], |h|, bias);
  }

  lemma RekeySlots(h: seq<Slot>, pos: nat, key: nat)
    requires pos < |h|
    ensures multiset(Rekey(h, pos, key)) == multiset(h) - multiset{h[pos]} + multiset{h[pos].(key := key)}
  {
    SiftDownKeepsSlots(h[pos := h[pos].(key := key)], pos);
  }

  lemma DeleteSlots(h: seq<Slot>, pos: nat, repaired: bool)
    requires pos < |h|
    ensures multiset(Delete(h, pos, repaired)) == multiset(h) - multiset{h[pos]}
  {
    var n := |h| - 1;
    var v := Vacate(h, pos);
    assert h == h[..n] + [h[n]];
    assert multiset(v) == multiset(h) - multiset{h[pos]};
    if pos < n {
      SiftDownKeepsSlots(v, pos);
      SiftUpKeepsSlots(SiftDown(v, pos), pos, 1);
    }
  }

  /** Some slot is for `list`. */
  predicate InHeap(h: seq<Slot>, list: nat) {
    exists i :: 0 <= i < |h| && h[i].list == list
  }

  lemma SameLists(h: seq<Slot>, r: seq<Slot>, list: nat)
    requires multiset(h) == multiset(r)
    ensures InHeap(h, list) <==> InHeap(r, list)
  {
    if InHeap(h, list) {
      var i :| 0 <= i < |h| && h[i].list == list;
      assert h[i] in multiset(r);
    }
    if InHeap(r, list) {
      var i :| 0 <= i < |r| && r[i].list == list;
      assert r[i] in multiset(h);
    }
  }

  lemma InsertLists(h: seq<Slot>, s: Slot, bias: nat, list: nat)
    requires bias <= 1 && (InHeap(h, list) || list == s.list)
    ensures InHeap(Insert(h, s, bias), list)
  {
    var g := h + [s];
    if InHeap(h, list) {
      var i :| 0 <= i < |h| && h[i].list == list;
      assert g[i].list == list;
    } else {
      assert g[|h|].list == list;
    }
    SiftUpKeepsSlots(g, |h|, bias);
    SameLists(g, Insert(h, s, bias), list);
  }

  lemma RekeyLists(h: seq<Slot>, pos: nat, key: nat, list: nat)
    requires pos < |h| && InHeap(h, list)
    ensures InHeap(Rekey(h, pos, key), list)
  {
    var g := h[pos := h[pos].(key := key)];
    var i :| 0 <= i < |h| && h[i].list == list;
    assert g[i].list == list;
    SiftDownKeepsSlots(g, pos);
    SameLists(g, Rekey(h, pos, key), list);
  }

  lemma DeleteLists(h: seq<Slot>, pos: nat, repaired: bool, list: nat)
    requires pos < |h| && InHeap(h, list) && list != h[pos].list
    ensures InHeap(Delete(h, pos, repaired), list)
  {
    var i :| 0 <= i < |h| && h[i].list == list;
    var v := Vacate(h, pos);
    assert v[if i == |h| - 1 then pos else i].list == list;
    if pos < |v| {
      SiftDownKeepsSlots(v, pos);
      SiftUpKeepsSlots(SiftDown(v, pos), pos, 1);
    }
    SameLists(v, Delete(h, pos, repaired), list);
  }

  // ----- The repaired heap -----

  lemma InsertOrders(h: seq<Slot>, s: Slot, bias: nat)
    requires bias <= 1 && Ordered(h, bias)
    ensures Ordered(Insert(h, s, bias), bias)
  {
    var g := h + [s];
    assert forall i :: 0 < i < |h| ==> g[Parent(i, bias)] == h[Parent(i, bias)] && g[i] == h[i];
    SiftUpOrders(g, |h|, bias);
  }

  lemma RekeyOrders(h: seq<Slot>, pos: nat, key: nat)
    requires pos < |h| && Ordered(h, 1) && h[pos].key <= key
    ensures Ordered(Rekey(h, pos, key), 1)
  {
    var g := h[pos := h[pos].(key := key)];
    forall i | 0 < i < |g| && Parent(i, 1) == pos && 0 < pos ensures g[Parent(pos, 1)].key <= g[i].key {
      assert h[Parent(pos, 1)].key <= h[pos].key <= h[i].key;
    }
    SiftDownOrders(g, pos);
  }

  lemma VacateBridged(h: seq<Slot>, pos: nat)
    requires pos < |h| - 1 && Ordered(h, 1)
    ensures Bridged(Vacate(h, pos), 1, pos)
    ensures var v := Vacate(h, pos);
      forall i :: 0 < i < |h| - 1 && i != pos && Parent(i, 1) != pos ==> v[Parent(i, 1)].key <= v[i].key
  {
    var v := Vacate(h, pos);
    if pos > 0 {
      forall i | 0 < i < |v| && Parent(i, 1) == pos ensures v[Parent(pos, 1)].key <= v[i].key {
        assert h[Parent(pos, 1)].key <= h[pos].key <= h[i].key;
      }
    }
  }

  /** Removing the root list of an ordered heap, as written, leaves an ordered heap. */
  lemma DeleteRootOrders(h: seq<Slot>)
    requires h != [] && Ordered(h, 1)
    ensures Ordered(Delete(h, 0, false), 1)
  {
    if |h| > 1 {
      VacateBridged(h, 0);
      SiftDownOrders(Vacate(h, 0), 0);
    }
  }

  /** Removal as written keeps the 2i+1 / 2i+2 order exactly when the last slot may stand under the parent of `pos`. */
  lemma DeleteOrdersExactly(h: seq<Slot>, pos: nat)
    requires pos < |h| && Ordered(h, 1)
    ensures Ordered(Delete(h, pos, false), 1)
      <==> pos == 0 || pos == |h| - 1 || h[Parent(pos, 1)].key <= h[|h| - 1].key
  {
    var n := |h| - 1;
    if pos == n {
      assert forall i :: 0 < i < n ==> h[..n][Parent(i, 1)] == h[Parent(i, 1)] && h[..n][i] == h[i];
    } else if pos == 0 {
      DeleteRootOrders(h);
    } else {
      var v := Vacate(h, pos);
      var up := Parent(pos, 1);
      VacateBridged(h, pos);
      if h[up].key <= h[n].key {
        SiftDownOrders(v, pos);
      } else {
        if 2 * pos + 1 < |v| {
          assert Parent(Child(v, pos), 1) == pos;
        }
        assert SiftDown(v, pos) == v && v[pos].key < v[up].key;
      }
    }
  }

  /** Removal in the repaired variant keeps the order. */
  lemma DeleteRepairedOrders(h: seq<Slot>, pos: nat)
    requires pos < |h| && Ordered(h, 1)
    ensures Ordered(Delete(h, pos, true), 1)
  {
    var n := |h| - 1;
    if pos == n {
      assert forall i :: 0 < i < n ==> h[..n][Parent(i, 1)] == h[Parent(i, 1)] && h[..n][i] == h[i];
    } else {
      var v := Vacate(h, pos);
      VacateBridged(h, pos);
      if pos == 0 || h[Parent(pos, 1)].key <= h[n].key {
        SiftDownOrders(v, pos);
      } else {
        VacateEarly(h, pos);
        SiftUpOrders(v, pos, 1);
      }
    }
  }

  /** When the last slot is earlier than the parent of `pos`, it does not sift down, and only it is out of order. */
  lemma VacateEarly(h: seq<Slot>, pos: nat)
    requires 0 < pos < |h| - 1 && Ordered(h, 1) && h[|h| - 1].key < h[Parent(pos, 1)].key
    ensures var v := Vacate(h, pos); SiftDown(v, pos) == v && OrderedBut(v, 1, pos)
  {
    var v := Vacate(h, pos);
    VacateBridged(h, pos);
    if 2 * pos + 1 < |v| {
      assert Parent(Child(v, pos), 1) == pos;
    }
    forall i | 0 < i < |v| && i != pos ensures v[Parent(i, 1)].key <= v[i].key {
      if Parent(i, 1) == pos {
        assert v[Parent(pos, 1)].key <= v[i].key;
      }
    }
  }
}
