/**
 A run of the timer index as written after which `get_next_timer` misses the earliest deadline. All
 its timers are added at clock 0, one for each timeout, so that a list is known by its key.
 */
module TimerWitness {
  import opened TimerHeap
  import opened TimerIndex

  /** The slots of the lists of timeouts `keys`. */
  function Of(keys: seq<nat>): (h: seq<Slot>)
    ensures |h| == |keys| && forall i :: 0 <= i < |h| ==> h[i] == Slot(keys[i], keys[i])
  {
    seq(|keys|, i requires 0 <= i < |keys| => Slot(keys[i], keys[i]))
  }

  function TimerOf(k: nat): Timer {
    Timer(k, k, k)
  }

  /** The index with one timer for each of `keys`. */
  function Held(keys: seq<nat>): Index {
    Index(Of(keys), map k | k in keys :: [TimerOf(k)], 0)
  }

  // ----- Adding -----

  function Adds(keys: seq<nat>): seq<Op> {
    if keys == [] then [] else [AddTimer(keys[0], keys[0], 0)] + Adds(keys[1..])
  }

  /** Different timeouts, each not earlier than its parent in the tree that sifting up climbs. */
  predicate Settled(all: seq<nat>) {
    (forall i :: 0 < i < |all| ==> all[i / 2] <= all[i]) && forall i, j :: 0 <= i < j < |all| ==> all[i] != all[j]
  }

  /** Each of them stays where it is appended. */
  lemma AddInPlace(all: seq<nat>, n: nat)
    requires n < |all| && Settled(all)
    ensures Legal(Held(all[..n]), AddTimer(all[n], all[n], 0))
    ensures Add(Held(all[..n]), all[n], all[n], 0, false) == Held(all[..n + 1])
  {
    assert all[..n + 1] == all[..n] + [all[n]];
    assert all[n] !in all[..n];
    assert Of(all[..n]) + [Slot(all[n], all[n])] == Of(all[..n + 1]);
  }

  lemma {:induction false} HeldAgrees(all: seq<nat>, n: nat)
    requires n <= |all| && Settled(all)
    ensures Agrees(Held(all[..n]))
    decreases n
  {
    if n == 0 {
      NoneHeld();
      assert all[..0] == [];
    } else {
      var m: nat := n - 1;
      HeldAgrees(all, m);
      OneMoreAgrees(all, m);
      assert Held(all[..m + 1]) == Held(all[..n]);
    }
  }

  lemma NoneHeld()
    ensures Held([]) == EMPTY && Agrees(EMPTY)
  {
  }

  lemma OneMoreAgrees(all: seq<nat>, n: nat)
    requires n < |all| && Settled(all) && Agrees(Held(all[..n]))
    ensures Agrees(Held(all[..n + 1]))
  {
    AddInPlace(all, n);
    ApplyAgrees(Held(all[..n]), AddTimer(all[n], all[n], 0), false);
  }

  lemma {:induction false} AddsRun(all: seq<nat>, n: nat, rest: seq<Op>)
    requires n <= |all| && Settled(all) && Agrees(Held(all)) && LegalRun(Held(all), rest, false)
    ensures Agrees(Held(all[..n]))
    ensures LegalRun(Held(all[..n]), Adds(all[n..]) + rest, false)
    ensures Run(Held(all[..n]), Adds(all[n..]) + rest, false) == Run(Held(all), rest, false)
    decreases |all| - n
  {
    if n == |all| {
      assert all[..n] == all && Adds(all[n..]) + rest == rest;
    } else {
      AddInPlace(all, n);
      HeldAgrees(all, n);
      AddsRun(all, n + 1, rest);
      FirstStep(Held(all[..n]), AddTimer(all[n], all[n], 0), Adds(all[n + 1..]) + rest);
      FirstAdd(all, n, rest);
    }
  }

  lemma FirstAdd(all: seq<nat>, n: nat, rest: seq<Op>)
    requires n < |all|
    ensures Adds(all[n..]) + rest == [AddTimer(all[n], all[n], 0)] + (Adds(all[n + 1..]) + rest)
  {
    assert all[n..][0] == all[n] && all[n..][1..] == all[n + 1..];
  }

  lemma FirstStep(x: Index, op: Op, rest: seq<Op>)
    requires Agrees(x) && Legal(x, op) && Agrees(Apply(x, op, false)) && LegalRun(Apply(x, op, false), rest, false)
    ensures LegalRun(x, [op] + rest, false) && Run(x, [op] + rest, false) == Run(Apply(x, op, false), rest, false)
  {
    assert ([op] + rest)[1..] == rest;
  }

  // ----- Expiry of the root list -----

  /** The first key occurs once. */
  predicate Leads(a: seq<nat>) {
    a != [] && forall i :: 0 < i < |a| ==> a[i] != a[0]
  }

  lemma RemoveRoot(a: seq<nat>, b: seq<nat>)
    requires Leads(a) && Delete(Of(a), 0, false) == Of(b)
    ensures Removable(Held(a), TimerOf(a[0])) && Remove(Held(a), TimerOf(a[0]), false) == Held(b)
  {
    assert Of(a)[0].list == a[0];
    forall k ensures k in b <==> k in a && k != a[0] {
      KeysLeft(a, b, k);
    }
    assert (map k | k in a :: [TimerOf(k)]) - {a[0]} == map k | k in b :: [TimerOf(k)];
  }

  lemma KeysLeft(a: seq<nat>, b: seq<nat>, k: nat)
    requires Leads(a) && Delete(Of(a), 0, false) == Of(b)
    ensures k in b <==> k in a && k != a[0]
  {
    DeleteSlots(Of(a), 0, false);
    assert Of(a) == [Of(a)[0]] + Of(a)[1..];
    SlotOfKey(a, k);
    SlotOfKey(b, k);
    SlotOfKey(a[1..], k);
    assert Of(a[1..]) == Of(a)[1..];
    assert multiset(Of(b)) == multiset(Of(a[1..]));
    assert Slot(k, k) in Of(b) <==> Slot(k, k) in multiset(Of(b));
    assert Slot(k, k) in Of(a[1..]) <==> Slot(k, k) in multiset(Of(a[1..]));
  }

  lemma SlotOfKey(a: seq<nat>, k: nat)
    ensures k in a <==> Slot(k, k) in Of(a)
  {
    if k in a {
      var i :| 0 <= i < |a| && a[i] == k;
      assert Of(a)[i] == Slot(k, k);
    }
  }

  lemma RemoveRootAgrees(a: seq<nat>, b: seq<nat>)
    requires Agrees(Held(a)) && Leads(a) && Delete(Of(a), 0, false) == Of(b)
    ensures Agrees(Held(b))
  {
    RemoveRoot(a, b);
    RemoveAgrees(Held(a), TimerOf(a[0]), false);
  }

  lemma RemoveRun(a: seq<nat>, b: seq<nat>, rest: seq<Op>)
    requires Agrees(Held(a)) && Leads(a) && Delete(Of(a), 0, false) == Of(b)
    requires Agrees(Held(b)) && LegalRun(Held(b), rest, false)
    ensures LegalRun(Held(a), [RemoveTimer(TimerOf(a[0]))] + rest, false)
    ensures Run(Held(a), [RemoveTimer(TimerOf(a[0]))] + rest, false) == Run(Held(b), rest, false)
  {
    RemoveRoot(a, b);
    FirstStep(Held(a), RemoveTimer(TimerOf(a[0])), rest);
  }

  // ----- The run -----

  /** `a` reads `b`; keeps the concrete heaps below apart from their literals. */
  predicate Reads(a: seq<nat>, b: seq<nat>) {
    |a| == |b| && forall i :: 0 <= i < |b| ==> a[i] == b[i]
  }

  lemma SiftDownStep(a: seq<nat>, pos: nat, c: nat) returns (b: seq<nat>)
    requires 2 * pos + 1 < |a| && c == Child(Of(a), pos) && a[c] < a[pos]
    ensures b == a[pos := a[c]][c := a[pos]] && SiftDown(Of(a), pos) == SiftDown(Of(b), c)
  {
    b := a[pos := a[c]][c := a[pos]];
    assert Swap(Of(a), pos, c) == Of(b);
  }

  /** The last key takes the place of the first. */
  lemma Expire(a: seq<nat>) returns (b: seq<nat>)
    requires |a| > 1
    ensures b == a[..|a| - 1][0 := a[|a| - 1]] && Delete(Of(a), 0, false) == SiftDown(Of(b), 0)
  {
    b := a[..|a| - 1][0 := a[|a| - 1]];
    assert Vacate(Of(a), 0) == Of(b);
  }

  lemma FirstExpiry(a: seq<nat>) returns (b: seq<nat>)
    requires Reads(a, [1, 2, 10, 3, 11, 12, 4, 13, 14, 15])
    ensures Reads(b, [2, 3, 10, 13, 11, 12, 4, 15, 14]) && Delete(Of(a), 0, false) == Of(b)
  {
    b := Expire(a);
    b := SiftDownStep(b, 0, 1);
    b := SiftDownStep(b, 1, 3);
    b := SiftDownStep(b, 3, 7);
  }

  lemma SecondExpiry(a: seq<nat>) returns (b: seq<nat>)
    requires Reads(a, [2, 3, 10, 13, 11, 12, 4, 15, 14])
    ensures Reads(b, [3, 11, 10, 13, 14, 12, 4, 15]) && Delete(Of(a), 0, false) == Of(b)
  {
    b := Expire(a);
    b := SiftDownStep(b, 0, 1);
    b := SiftDownStep(b, 1, 4);
  }

  lemma ThirdExpiry(a: seq<nat>) returns (b: seq<nat>)
    requires Reads(a, [3, 11, 10, 13, 14, 12, 4, 15])
    ensures Reads(b, [10, 11, 4, 13, 14, 12, 15]) && Delete(Of(a), 0, false) == Of(b)
  {
    b := Expire(a);
    b := SiftDownStep(b, 0, 2);
    b := SiftDownStep(b, 2, 6);
  }

  /** Ten timeouts added at clock 0 and three expiries of the earliest timer of the root list. */
  function WitnessRun(keys: seq<nat>): seq<Op>
    requires |keys| == 10
  {
    Adds(keys) + Removals(keys)
  }

  function Removals(keys: seq<nat>): seq<Op>
    requires |keys| == 10
  {
    [RemoveTimer(TimerOf(keys[0])), RemoveTimer(TimerOf(keys[1])), RemoveTimer(TimerOf(keys[3]))]
  }

  lemma KeysSettled(keys: seq<nat>)
    requires Reads(keys, [1, 2, 10, 3, 11, 12, 4, 13, 14, 15])
    ensures Settled(keys)
  {
  }

  /** The run is legal, and after it `get_next_timer` returns the timer that ends at 10 while one that ends at 4
      lives. */
  lemma AsWrittenMissesEarliest(keys: seq<nat>)
    requires Reads(keys, [1, 2, 10, 3, 11, 12, 4, 13, 14, 15])
    ensures LegalRun(EMPTY, WitnessRun(keys), false) && Agrees(Run(EMPTY, WitnessRun(keys), false))
    ensures !NextIsEarliest(Run(EMPTY, WitnessRun(keys), false))
  {
    var b := FirstExpiry(keys);
    var c := SecondExpiry(b);
    var d := ThirdExpiry(c);
    RemovalsRun(keys, b, c, d);
    WholeRun(keys);
    RunAgrees(EMPTY, WitnessRun(keys), false);
    MissesFour(d);
  }

  lemma WholeRun(keys: seq<nat>)
    requires Reads(keys, [1, 2, 10, 3, 11, 12, 4, 13, 14, 15])
    requires Agrees(Held(keys)) && LegalRun(Held(keys), Removals(keys), false)
    ensures LegalRun(EMPTY, WitnessRun(keys), false)
    ensures Run(EMPTY, WitnessRun(keys), false) == Run(Held(keys), Removals(keys), false)
  {
    KeysSettled(keys);
    assert Held(keys[..0]) == EMPTY && keys[0..] == keys;
    AddsRun(keys, 0, Removals(keys));
  }

  lemma MissesFour(d: seq<nat>)
    requires Reads(d, [10, 11, 4, 13, 14, 12, 15]) && Agrees(Held(d))
    ensures !NextIsEarliest(Held(d))
  {
    assert Live(Held(d), TimerOf(d[2])) && Next(Held(d)) == TimerOf(d[0]);
  }

  lemma RemovalsRun(keys: seq<nat>, b: seq<nat>, c: seq<nat>, d: seq<nat>)
    requires Reads(keys, [1, 2, 10, 3, 11, 12, 4, 13, 14, 15]) && Delete(Of(keys), 0, false) == Of(b)
    requires Reads(b, [2, 3, 10, 13, 11, 12, 4, 15, 14]) && Delete(Of(b), 0, false) == Of(c)
    requires Reads(c, [3, 11, 10, 13, 14, 12, 4, 15]) && Delete(Of(c), 0, false) == Of(d)
    ensures Agrees(Held(keys)) && LegalRun(Held(keys), Removals(keys), false)
    ensures Run(Held(keys), Removals(keys), false) == Held(d)
  {
    KeysAgree(keys);
    ThreeRemovals(keys, b, c, d);
  }

  lemma KeysAgree(keys: seq<nat>)
    requires Reads(keys, [1, 2, 10, 3, 11, 12, 4, 13, 14, 15])
    ensures Agrees(Held(keys))
  {
    KeysSettled(keys);
    HeldAgrees(keys, |keys|);
    assert keys[..|keys|] == keys;
  }

  lemma ThreeRemovals(a: seq<nat>, b: seq<nat>, c: seq<nat>, d: seq<nat>)
    requires Agrees(Held(a)) && Leads(a) && Delete(Of(a), 0, false) == Of(b)
    requires Leads(b) && Delete(Of(b), 0, false) == Of(c)
    requires Leads(c) && Delete(Of(c), 0, false) == Of(d)
    ensures var rest := [RemoveTimer(TimerOf(a[0])), RemoveTimer(TimerOf(b[0])), RemoveTimer(TimerOf(c[0]))];
      LegalRun(Held(a), rest, false) && Run(Held(a), rest, false) == Held(d)
  {
    var last, last2 := [RemoveTimer(TimerOf(c[0]))], [RemoveTimer(TimerOf(b[0]))];
    assert last + [] == last;
    RemoveRootAgrees(a, b);
    RemoveRootAgrees(b, c);
    RemoveRootAgrees(c, d);
    RemoveRun(c, d, []);
    RemoveRun(b, c, last);
    RemoveRun(a, b, last2 + last);
    assert [RemoveTimer(TimerOf(a[0])), RemoveTimer(TimerOf(b[0])), RemoveTimer(TimerOf(c[0]))]
        == [RemoveTimer(TimerOf(a[0]))] + (last2 + last);
  }
}
