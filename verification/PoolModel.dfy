/**
 The pool of idle connections (`net/cort_tcp_ctrler.cpp`) on values: vectors of connections by
 address, and the seat that each pooled connection remembers.
 */
module PoolModel {
  import opened Common

  /** Address, port and type, which the source packs into 64 bits. */
  datatype Key = Key(ip: nat, port: nat, typeKey: nat)

  /** What a connection remembers: its key and its index in the vector of that key. */
  datatype Seat = Seat(key: Key, pos: nat)

  datatype World<C(==)> = World(b: map<Key, seq<C>>, seats: map<C, Seat>)

  function Bucket<C>(b: map<Key, seq<C>>, k: Key): seq<C> {
    if k in b then b[k] else []
  }

  /** The last element takes the place of number `i`. */
  function SwapRemove<T>(s: seq<T>, i: nat): seq<T>
    requires i < |s|
  {
    s[i := s[|s| - 1]][..|s| - 1]
  }

  // ----- The invariant -----

  /** The connections in the vectors are exactly those with a seat, each at its seat. */
  ghost predicate Matched<C>(w: World<C>) {
    match w
    case World(b, seats) =>
      (forall k, i: nat | k in b && i < |b[k]| :: SitsAt(w, k, i)) && (forall c | c in seats :: HasSeat(w, c))
  }

  ghost predicate SitsAt<C>(w: World<C>, k: Key, i: nat)
    requires k in w.b && i < |w.b[k]|
  {
    w.b[k][i] in w.seats && w.seats[w.b[k][i]] == Seat(k, i)
  }

  ghost predicate HasSeat<C>(w: World<C>, c: C)
    requires c in w.seats
  {
    var s := w.seats[c];
    s.key in w.b && s.pos < |w.b[s.key]| && w.b[s.key][s.pos] == c
  }

  ghost predicate Inv<C>(w: World<C>) {
    Matched(w) && forall k | k in w.b :: w.b[k] != []
  }

  /** `c` stands at its seat and nowhere else. */
  ghost predicate OnlyAt<C>(w: World<C>, c: C)
    requires c in w.seats
  {
    HasSeat(w, c) && forall k, i: nat | k in w.b && i < |w.b[k]| :: w.b[k][i] == c <==> Seat(k, i) == w.seats[c]
  }

  /** A pooled connection is in exactly one place. */
  lemma OnePlace<C>(w: World<C>, c: C)
    requires Matched(w) && c in w.seats
    ensures OnlyAt(w, c)
  {
    assert HasSeat(w, c);
    forall k, i: nat | k in w.b && i < |w.b[k]| ensures w.b[k][i] == c <==> Seat(k, i) == w.seats[c] {
      assert SitsAt(w, k, i);
    }
  }

  // ----- Steps -----

  /** `c` joins the end of the vector of `k`. */
  function PushBack<C>(w: World<C>, k: Key, c: C): World<C> {
    var dq := Bucket(w.b, k);
    World(w.b[k := dq + [c]], w.seats[c := Seat(k, |dq|)])
  }

  /** The last connection of a vector leaves it. */
  function PopBack<C>(w: World<C>, k: Key): World<C>
    requires k in w.b && w.b[k] != []
  {
    var n := |w.b[k]| - 1;
    World(w.b[k := w.b[k][..n]], w.seats - {w.b[k][n]})
  }

  /** The last connection of a vector takes the seat `s`, and `c` is out of the pool. */
  function Displace<C>(w: World<C>, c: C, s: Seat): World<C>
    requires s.key in w.b && s.pos < |w.b[s.key]|
  {
    var dq := w.b[s.key];
    World(w.b[s.key := SwapRemove(dq, s.pos)], w.seats[dq[|dq| - 1] := s] - {c})
  }

  /** A vector is not kept when it is empty. */
  function EraseIfEmpty<C>(w: World<C>, k: Key): World<C> {
    if Bucket(w.b, k) == [] then w.(b := w.b - {k}) else w
  }

  lemma PushBackKeeps<C>(w: World<C>, k: Key, c: C)
    requires Matched(w) && c !in w.seats
    ensures Matched(PushBack(w, k, c))
  {
    var v := PushBack(w, k, c);
    forall k', i: nat | k' in v.b && i < |v.b[k']| ensures SitsAt(v, k', i) {
      if k' != k || i < |Bucket(w.b, k)| { assert SitsAt(w, k', i); }
    }
    forall d | d in v.seats ensures HasSeat(v, d) {
      if d != c { assert HasSeat(w, d); }
    }
  }

  lemma PopBackKeeps<C>(w: World<C>, k: Key)
    requires Matched(w) && k in w.b && w.b[k] != []
    ensures w.b[k][|w.b[k]| - 1] in w.seats && Matched(PopBack(w, k))
  {
    var v := PopBack(w, k);
    assert SitsAt(w, k, |w.b[k]| - 1);
    forall k', i: nat | k' in v.b && i < |v.b[k']| ensures SitsAt(v, k', i) {
      assert SitsAt(w, k', i);
    }
    forall d | d in v.seats ensures HasSeat(v, d) {
      assert HasSeat(w, d);
    }
  }

  lemma DisplaceExactly<C>(w: World<C>, c: C, s: Seat)
    requires Matched(w) && s.key in w.b && s.pos < |w.b[s.key]|
    ensures Matched(Displace(w, c, s)) <==> c in w.seats && w.seats[c] == s
  {
    var dq, v := w.b[s.key], Displace(w, c, s);
    var there := dq[s.pos];
    assert SitsAt(w, s.key, s.pos) && SitsAt(w, s.key, |dq| - 1);
    if c in w.seats && w.seats[c] == s {
      assert HasSeat(w, c);
      DisplaceKeeps(w, c);
    } else if there == dq[|dq| - 1] || there != c {
      assert !HasSeat(v, there);
    }
  }

  lemma DisplaceKeeps<C>(w: World<C>, c: C)
    requires Matched(w) && c in w.seats
    ensures HasSeat(w, c) && Matched(Displace(w, c, w.seats[c]))
    ensures var s := w.seats[c]; multiset(Displace(w, c, s).b[s.key]) == multiset(w.b[s.key]) - multiset{c}
  {
    assert HasSeat(w, c);
    var Seat(k, p) := w.seats[c];
    var dq, v := w.b[k], Displace(w, c, w.seats[c]);
    assert SitsAt(w, k, |dq| - 1);
    SwapRemoveIs(dq, p);
    forall k', i: nat | k' in v.b && i < |v.b[k']| ensures SitsAt(v, k', i) {
      assert SitsAt(w, k', i);
    }
    forall d | d in v.seats ensures HasSeat(v, d) {
      assert HasSeat(w, d);
    }
  }

  /** Removal loses the one element and nothing else, and moves only the last. */
  lemma SwapRemoveIs<T>(s: seq<T>, i: nat)
    requires i < |s|
    ensures multiset(SwapRemove(s, i)) == multiset(s) - multiset{s[i]}
    ensures forall k :: 0 <= k < |s| - 1 && k != i ==> SwapRemove(s, i)[k] == s[k]
    ensures i < |s| - 1 ==> SwapRemove(s, i)[i] == s[|s| - 1]
  {
    var n := |s| - 1;
    if i == n {
      assert s == s[..n] + [s[n]] && SwapRemove(s, i) == s[..n];
    } else {
      SwapRemoveParts(s, i);
      LastForOne(s[..i], s[i], s[i + 1..n], s[n]);
    }
  }

  lemma SwapRemoveParts<T>(s: seq<T>, i: nat)
    requires i < |s| - 1
    ensures var n := |s| - 1;
      s == s[..i] + [s[i]] + s[i + 1..n] + [s[n]] && SwapRemove(s, i) == s[..i] + [s[n]] + s[i + 1..n]
  {
  }

  lemma LastForOne<T>(a: seq<T>, x: T, b: seq<T>, y: T)
    ensures multiset(a + [y] + b) == multiset(a + [x] + b + [y]) - multiset{x}
  {
  }

  lemma EraseMatches<C>(w: World<C>, k: Key)
    ensures Matched(EraseIfEmpty(w, k)) <==> Matched(w)
  {
    var v := EraseIfEmpty(w, k);
    if Matched(w) {
      forall k', i: nat | k' in v.b && i < |v.b[k']| ensures SitsAt(v, k', i) { assert SitsAt(w, k', i); }
      forall d | d in v.seats ensures HasSeat(v, d) { assert HasSeat(w, d); }
    }
    if Matched(v) {
      forall k', i: nat | k' in w.b && i < |w.b[k']| ensures SitsAt(w, k', i) { assert SitsAt(v, k', i); }
      forall d | d in w.seats ensures HasSeat(w, d) { assert HasSeat(v, d); }
    }
  }

  // ----- Operations -----

  /** `n` connections leave the vector of `k`, the last ones first. */
  function PopMany<C>(w: World<C>, k: Key, n: nat): World<C>
    requires k in w.b
    decreases n
  {
    if n == 0 || w.b[k] == [] then w else PopMany(PopBack(w, k), k, n - 1)
  }

  lemma {:induction false} PopManyKeeps<C>(w: World<C>, k: Key, n: nat)
    requires Matched(w) && k in w.b
    ensures Matched(PopMany(w, k, n)) && k in PopMany(w, k, n).b
    decreases n
  {
    if n > 0 && w.b[k] != [] {
      PopBackKeeps(w, k);
      PopManyKeeps(PopBack(w, k), k, n - 1);
    }
  }

  /** It takes the smaller of `n` and the size of the vector. */
  lemma {:induction false} PopManyCounts<C>(w: World<C>, k: Key, n: nat)
    requires Matched(w) && k in w.b
    ensures |PopMany(w, k, n).seats| == |w.seats| - Min(n, |w.b[k]|)
    decreases n
  {
    if n > 0 && w.b[k] != [] {
      PopBackKeeps(w, k);
      PopBackCounts(w, k);
      PopManyCounts(PopBack(w, k), k, n - 1);
    }
  }

  lemma PopBackCounts<C>(w: World<C>, k: Key)
    requires k in w.b && w.b[k] != [] && w.b[k][|w.b[k]| - 1] in w.seats
    ensures |PopBack(w, k).seats| == |w.seats| - 1
  {
    var c := w.b[k][|w.b[k]| - 1];
    assert (w.seats - {c}).Keys == w.seats.Keys - {c};
  }

  lemma {:induction false} PopManyBuckets<C>(w: World<C>, k: Key, n: nat)
    requires k in w.b
    ensures PopMany(w, k, n).b == w.b[k := w.b[k][..|w.b[k]| - Min(n, |w.b[k]|)]]
    decreases n
  {
    if n == 0 || w.b[k] == [] {
      assert w.b[k][..|w.b[k]|] == w.b[k];
      assert w.b == w.b[k := w.b[k]];
    } else {
      var v := PopBack(w, k);
      PopManyBuckets(v, k, n - 1);
      var m := Min(n - 1, |v.b[k]|);
      assert v.b[k][..|v.b[k]| - m] == w.b[k][..|w.b[k]| - (m + 1)];
    }
  }

  /** `remove_keep_alive` for a connection `c` that remembers `s`. There is no outcome when there is no pool, which the
      code dereferences, or when the index lies past the end of the vector, which the code writes to. */
  ghost function Remove<C>(w: World<C>, c: C, s: Seat): Option<World<C>> {
    if w.b == map[] then None
    else if s.key !in w.b then Some(w)
    else if s.pos >= |w.b[s.key]| then None
    else Some(EraseIfEmpty(Displace(w, c, s), s.key))
  }

  /** It goes well exactly if there is a pool, and there is no vector for the key unless the connection is in the pool
      at the place it remembers. */
  lemma RemoveExactly<C>(w: World<C>, c: C, s: Seat)
    requires Inv(w)
    ensures (Remove(w, c, s).Some? && Inv(Remove(w, c, s).value))
      <==> w.b != map[] && (s.key in w.b ==> c in w.seats && w.seats[c] == s)
  {
    if s.key in w.b {
      if s.pos < |w.b[s.key]| {
        DisplaceExactly(w, c, s);
        EraseMatches(Displace(w, c, s), s.key);
      } else if c in w.seats {
        assert HasSeat(w, c);
      }
    }
  }

  /** `Expire(c, s)`: connection `c`, which remembers `s`, timed out or became readable. */
  datatype Op<C> = Park(c: C, k: Key) | Take(k: Key) | Expire(c: C, s: Seat) | Clear(k: Key, n: nat)

  ghost function Do<C>(w: World<C>, op: Op<C>): Option<World<C>> {
    match op
    case Park(c, k) => Some(PushBack(w, k, c))
    case Take(k) => Some(if Bucket(w.b, k) != [] then EraseIfEmpty(PopBack(w, k), k) else w)
    case Expire(c, s) => Remove(w, c, s)
    case Clear(k, n) => Some(if k in w.b then EraseIfEmpty(PopMany(w, k, n), k) else w)
  }

  /** A connection is parked only once, and is not notified without a pool, or with a vector for its key while it is
      not in the pool. */
  ghost predicate Guarded<C>(w: World<C>, op: Op<C>) {
    match op
    case Park(c, k) => c !in w.seats
    case Expire(c, s) => w.b != map[] && (s.key in w.b ==> c in w.seats && w.seats[c] == s)
    case _ => true
  }

  ghost predicate Well<C>(o: Option<World<C>>) {
    o.Some? && Inv(o.value)
  }

  /** What a bulk clear leaves. */
  lemma PopManyLeaves<C>(w: World<C>, k: Key, n: nat)
    requires Inv(w) && k in w.b
    ensures var v := PopMany(w, k, n); Matched(v) && k in v.b && (forall k' | k' in v.b && k' != k :: v.b[k'] != [])
    ensures var v := EraseIfEmpty(PopMany(w, k, n), k);
      Do(w, Op.Clear(k, n)) == Some(v) && Inv(v) && |v.seats| == |w.seats| - Min(n, |w.b[k]|)
  {
    PopManyKeeps(w, k, n);
    PopManyCounts(w, k, n);
    PopManyBuckets(w, k, n);
    EraseMatches(PopMany(w, k, n), k);
  }

  lemma TakeKeeps<C>(w: World<C>, k: Key)
    requires Inv(w) && k in w.b
    ensures var v := EraseIfEmpty(PopBack(w, k), k); Do(w, Op.Take(k)) == Some(v) && Inv(v)
  {
    PopBackKeeps(w, k);
    EraseMatches(PopBack(w, k), k);
  }

  lemma ParkedTwice<C>(w: World<C>, k: Key, c: C)
    requires Matched(w) && c in w.seats
    ensures !Matched(PushBack(w, k, c))
  {
    assert HasSeat(w, c);
    var s, v := w.seats[c], PushBack(w, k, c);
    assert v.b[s.key][s.pos] == c;
    assert !SitsAt(v, s.key, s.pos);
  }

  /** An operation goes well exactly if it is guarded. */
  lemma DoExactly<C>(w: World<C>, op: Op<C>)
    requires Inv(w)
    ensures Well(Do(w, op)) <==> Guarded(w, op)
  {
    match op
    case Park(c, k) =>
      if c in w.seats { ParkedTwice(w, k, c); } else { PushBackKeeps(w, k, c); }
    case Take(k) =>
      if k in w.b { TakeKeeps(w, k); }
    case Expire(c, s) => RemoveExactly(w, c, s);
    case Clear(k, n) =>
      if k in w.b { PopManyLeaves(w, k, n); }
  }

  // ----- The effect of each operation on the vectors and the seats -----

  /** The vectors of all other keys are as before, and no empty vector is kept for `k`. */
  ghost predicate OthersSame<C>(w: World<C>, v: World<C>, k: Key) {
    match w
    case World(b, _) =>
      (forall k' :: k' != k ==> (k' in v.b <==> k' in b) && Bucket(v.b, k') == Bucket(b, k'))
      && (k in v.b <==> Bucket(v.b, k) != [])
  }

  lemma EraseEffect<C>(w: World<C>, v: World<C>, k: Key, dq: seq<C>)
    requires v.b == w.b[k := dq]
    ensures var u := EraseIfEmpty(v, k); Bucket(u.b, k) == dq && OthersSame(w, u, k) && u.seats == v.seats
  {
  }

  /** Parking puts `c` behind the others of its key, and gives it that seat. */
  lemma ParkEffect<C>(w: World<C>, c: C, k: Key)
    ensures Do(w, Op.Park(c, k)).Some?
    ensures var v := Do(w, Op.Park(c, k)).value;
      Bucket(v.b, k) == Bucket(w.b, k) + [c] && OthersSame(w, v, k)
      && v.seats == w.seats[c := Seat(k, |Bucket(w.b, k)|)]
  {
  }

  /** Taking removes the last of a vector. */
  lemma TakeEffect<C>(w: World<C>, k: Key)
    requires Inv(w) && k in w.b
    ensures Do(w, Op.Take(k)).Some?
    ensures var v, n := Do(w, Op.Take(k)).value, |w.b[k]| - 1;
      Bucket(v.b, k) == w.b[k][..n] && OthersSame(w, v, k) && v.seats == w.seats - {w.b[k][n]}
  {
    EraseEffect(w, PopBack(w, k), k, w.b[k][..|w.b[k]| - 1]);
  }

  /** `c` has left its vector and the last one of the vector has its seat; all others are where they were. */
  ghost predicate Dropped<C>(w: World<C>, v: World<C>, c: C)
    requires c in w.seats
  {
    match w
    case World(b, seats) =>
      var s := seats[c];
      s.key in b && b[s.key] != [] && multiset(Bucket(v.b, s.key)) == multiset(b[s.key]) - multiset{c}
      && OthersSame(w, v, s.key) && v.seats.Keys == seats.Keys - {c}
      && forall d :: d in v.seats ==> v.seats[d] == if d == b[s.key][|b[s.key]| - 1] then s else seats[d]
  }

  /** A pooled connection that is notified is dropped. */
  lemma ExpireEffect<C>(w: World<C>, c: C)
    requires Inv(w) && c in w.seats
    ensures var o := Do(w, Op.Expire(c, w.seats[c])); o.Some? && Dropped(w, o.value, c)
  {
    DisplaceKeeps(w, c);
    assert SitsAt(w, w.seats[c].key, |w.b[w.seats[c].key]| - 1);
    var s := w.seats[c];
    EraseEffect(w, Displace(w, c, s), s.key, SwapRemove(w.b[s.key], s.pos));
  }

  /** The last `n` are gone from the vector of `k`, or all of them if it had fewer, and the others stay. */
  ghost predicate Cleared<C>(w: World<C>, v: World<C>, k: Key, n: nat) {
    match w
    case World(b, seats) =>
      var dq := Bucket(b, k);
      Bucket(v.b, k) == dq[..|dq| - Min(n, |dq|)] && OthersSame(w, v, k) && |v.seats| == |seats| - Min(n, |dq|)
  }

  lemma ClearEffect<C>(w: World<C>, k: Key, n: nat)
    requires Inv(w)
    ensures var o := Do(w, Op.Clear(k, n)); o.Some? && Cleared(w, o.value, k, n)
  {
    if k in w.b {
      var dq := w.b[k];
      PopManyLeaves(w, k, n);
      PopManyBuckets(w, k, n);
      EraseEffect(w, PopMany(w, k, n), k, dq[..|dq| - Min(n, |dq|)]);
    }
  }

  // ----- Runs -----

  ghost function Run<C>(w: World<C>, ops: seq<Op<C>>): Option<World<C>>
    decreases |ops|
  {
    if ops == [] then Some(w)
    else if Do(w, ops[0]).None? then None
    else Run(Do(w, ops[0]).value, ops[1..])
  }

  ghost predicate WellThroughout<C>(w: World<C>, ops: seq<Op<C>>)
    decreases |ops|
  {
    Inv(w) && (ops != [] ==> Do(w, ops[0]).Some? && WellThroughout(Do(w, ops[0]).value, ops[1..]))
  }

  ghost predicate GuardedRun<C>(w: World<C>, ops: seq<Op<C>>)
    requires Inv(w)
    decreases |ops|
  {
    ops == [] || (Guarded(w, ops[0]) && (DoExactly(w, ops[0]); GuardedRun(Do(w, ops[0]).value, ops[1..])))
  }

  ghost predicate AllInPlace<C>(w: World<C>) {
    forall c | c in w.seats :: OnlyAt(w, c)
  }

  /** A run of parking, taking, expiry and bulk clearing goes well throughout exactly if every step is guarded. Then
      every pooled connection is in exactly one place, its seat, and no empty vector is kept. */
  lemma {:induction false} RunKeepsSeats<C>(w: World<C>, ops: seq<Op<C>>)
    requires Inv(w)
    ensures WellThroughout(w, ops) <==> GuardedRun(w, ops)
    ensures GuardedRun(w, ops) ==> Well(Run(w, ops)) && AllInPlace(Run(w, ops).value)
    decreases |ops|
  {
    if ops == [] {
      forall c | c in w.seats ensures OnlyAt(w, c) { OnePlace(w, c); }
    } else {
      DoExactly(w, ops[0]);
      if Guarded(w, ops[0]) {
        RunKeepsSeats(Do(w, ops[0]).value, ops[1..]);
      }
    }
  }

  // ----- Notifications of connections that have been taken -----

  /** Taking undoes parking, but the connection still remembers its place. If it is then notified there is no outcome
      when other connections are parked under its key, and none when the pool is gone. */
  lemma TakenThenNotified<C>(w: World<C>, c: C, k: Key)
    requires Inv(w) && c !in w.seats
    ensures Do(w, Op.Park(c, k)) == Some(PushBack(w, k, c)) && Do(PushBack(w, k, c), Op.Take(k)) == Some(w)
    ensures Do(w, Op.Expire(c, PushBack(w, k, c).seats[c])) == if w.b == map[] || k in w.b then None else Some(w)
  {
    var v, dq := PushBack(w, k, c), Bucket(w.b, k);
    assert v.b[k] == dq + [c] && v.b[k][..|dq|] == dq;
    assert v.seats - {c} == w.seats;
    assert PopBack(v, k) == World(w.b[k := dq], w.seats);
    assert EraseIfEmpty(PopBack(v, k), k).b == w.b;
  }

  /** If another connection was parked in its place meanwhile, that one is dropped from its vector without being
      told. */
  lemma NotifiedDropsAnother<C>(w: World<C>, c: C, d: C, k: Key)
    requires Inv(w) && c !in w.seats && d !in w.seats && c != d
    ensures var u, s := PushBack(w, k, d), PushBack(w, k, c).seats[c];
      Do(u, Op.Expire(c, s)) == Some(World(w.b, u.seats)) && d in u.seats && !Inv(World(w.b, u.seats))
  {
    var u, s, dq := PushBack(w, k, d), PushBack(w, k, c).seats[c], Bucket(w.b, k);
    assert u.b[k] == dq + [d] && SwapRemove(u.b[k], |dq|) == dq;
    assert u.seats[d := s] - {c} == u.seats;
    assert EraseIfEmpty(Displace(u, c, s), k).b == w.b;
    assert !HasSeat(World(w.b, u.seats), d);
  }
}
