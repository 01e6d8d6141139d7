/**
 The pool of idle connections (`net/cort_tcp_ctrler.cpp`), where each connection object stores its own
 key and index. The notifications of a connection are calls from outside.
 */
module KeepAlivePool {
  import opened Common
  import opened PoolModel

  /** What a notification of the connection calls. */
  datatype Callback = Other | RemoveKeepAlive | JustRelease

  class Client {
    var key: Key
    var waiterPos: nat
    var refs: nat
    var open: bool
    var callback: Callback
    ghost var deleted: bool

    constructor ()
      ensures !deleted && refs == 0 && open && callback == Other
    {
      key, waiterPos, refs, open, callback, deleted := Key(0, 0, 0), 0, 0, true, Other, false;
    }

    /** `release`: the last reference deletes the connection. */
    method Release()
      requires !deleted
      modifies this`refs, this`deleted
      ensures deleted == (old(refs) <= 1) && refs == (if old(refs) <= 1 then old(refs) else old(refs) - 1)
    {
      if refs <= 1 {
        deleted := true;
      } else {
        refs := refs - 1;
      }
    }
  }

  class Pool {
    var pool: Option<map<Key, seq<Client>>>
    ghost var seats: map<Client, Seat>

    function All(): map<Key, seq<Client>>
      reads this
    {
      if pool.Some? then pool.value else map[]
    }

    ghost function View(): World<Client>
      reads this
    {
      World(All(), seats)
    }

    /** A pooled connection is alive, referenced, and stores its seat. */
    ghost predicate Remembers(c: Client)
      reads this, c
      requires c in seats
    {
      Seat(c.key, c.waiterPos) == seats[c] && c.refs >= 1 && !c.deleted && c.callback == RemoveKeepAlive
    }

    ghost predicate AllRemember()
      reads this, seats.Keys
    {
      forall c | c in seats :: Remembers(c)
    }

    /** Besides, the pool exists only while it holds something. */
    ghost predicate Valid()
      reads this, seats.Keys
    {
      Inv(View()) && AllRemember() && (pool.Some? ==> pool.value != map[])
    }

    constructor ()
      ensures Valid() && View() == World(map[], map[])
    {
      pool, seats := None, map[];
    }

    /** `keep_alive`. The pool is right afterwards exactly if the connection was not in it before. */
    method Park(c: Client, key: Key)
      requires Valid() && !c.deleted
      modifies this, c
      ensures Do(old(View()), Op.Park(c, key)) == Some(View()) && (Valid() <==> c !in old(seats))
      ensures Bucket(All(), key) == old(Bucket(All(), key)) + [c] && OthersSame(old(View()), View(), key)
      ensures c.key == key && c.waiterPos == |old(Bucket(All(), key))| && c.callback == RemoveKeepAlive
      ensures c.refs == old(c.refs) + 1 && c.open == old(c.open)
    {
      DoExactly(View(), Op.Park(c, key));
      ParkEffect(View(), c, key);
      Append(c, key);
    }

    method Append(c: Client, key: Key)
      requires AllRemember() && !c.deleted
      modifies this, c
      ensures AllRemember() && View() == PushBack(old(View()), key, c) && pool.Some? && pool.value != map[]
      ensures c.key == key && c.waiterPos == |old(Bucket(All(), key))| && c.callback == RemoveKeepAlive
      ensures c.refs == old(c.refs) + 1 && c.open == old(c.open)
    {
      c.key := key;
      c.refs := c.refs + 1;
      c.callback := RemoveKeepAlive;
      if pool.None? {
        pool := Some(map[]);
      }
      var container := Bucket(pool.value, key);
      c.waiterPos := |container|;
      pool := Some(pool.value[key := container + [c]]);
      seats := seats[c := Seat(key, |container|)];
      assert key in pool.value;
      forall d | d in seats ensures Remembers(d) {
        if d != c { assert old(Remembers(d)); }
      }
    }

    /** The last connection of a vector leaves it. */
    method PopLast(k: Key) returns (c: Client)
      requires Matched(View()) && AllRemember() && pool.Some? && k in pool.value && pool.value[k] != []
      modifies this
      ensures pool.Some? && AllRemember() && Matched(View()) && View() == PopBack(old(View()), k)
      ensures c == old(pool.value[k])[|old(pool.value[k])| - 1] && c in old(seats) && c !in seats
    {
      PopBackKeeps(View(), k);
      var dq := pool.value[k];
      c := dq[|dq| - 1];
      pool := Some(pool.value[k := dq[..|dq| - 1]]);
      seats := seats - {c};
      assert forall d | d in seats :: old(Remembers(d));
    }

    /** An empty vector is removed, and the pool with the last one. */
    method Erase(k: Key)
      requires AllRemember() && pool.Some? && k in pool.value
      modifies this`pool
      ensures AllRemember() && (pool.Some? ==> pool.value != map[]) && View() == EraseIfEmpty(old(View()), k)
    {
      if pool.value[k] == [] {
        ghost var rest := pool.value - {k};
        assert pool.value.Keys == rest.Keys + {k};
        if |pool.value| == 1 {
          pool := None;
        } else {
          pool := Some(pool.value - {k});
        }
        assert All() == rest;
      }
      assert forall d | d in seats :: old(Remembers(d));
    }

    /** `get_keep_alive_connection_client`. */
    method Take(key: Key) returns (c: Client?)
      requires Valid()
      modifies this, seats.Keys
      ensures Valid() && Do(old(View()), Op.Take(key)) == Some(View())
      ensures c == null <==> key !in old(All())
      ensures c != null ==> c == old(All()[key])[|old(All()[key])| - 1] && c in old(seats) && c !in seats
      ensures c != null ==> !c.deleted && c.refs == old(c.refs) - 1 && c.open == old(c.open)
      ensures c != null ==>
        Bucket(All(), key) + [c] == old(All()[key]) && OthersSame(old(View()), View(), key)
    {
      if pool.None? || key !in pool.value {
        return null;
      }
      TakeKeeps(View(), key);
      TakeEffect(View(), key);
      var p := PopLast(key);
      p.refs := p.refs - 1;
      Erase(key);
      c := p;
    }

    /** `remove_keep_alive`, the notification of an idle connection that timed out or became readable. `defined` says
        whether the code has an outcome: it has none without a pool, or when the connection remembers an index past
        the end of its vector. The pool is right afterwards exactly if the notification was guarded. */
    method Expire(c: Client) returns (defined: bool)
      requires Valid() && !c.deleted
      modifies this, seats.Keys, c
      ensures defined <==> Do(old(View()), old(Op.Expire(c, Seat(c.key, c.waiterPos)))).Some?
      ensures defined ==> Do(old(View()), old(Op.Expire(c, Seat(c.key, c.waiterPos)))) == Some(View())
      ensures defined && Valid() <==> old(Guarded(View(), Op.Expire(c, Seat(c.key, c.waiterPos))))
      ensures defined && old(c.key in All()) ==>
        !c.open && c.deleted == (old(c.refs) <= 1) && (!c.deleted ==> c.refs == old(c.refs) - 1)
      ensures !defined || old(c.key !in All()) ==> View() == old(View()) && unchanged(c)
      ensures c in old(seats) ==> defined && Dropped(old(View()), View(), c)
    {
      if c in seats {
        assert Remembers(c);
        ExpireEffect(View(), c);
      }
      defined := Notify(c);
    }

    method Notify(c: Client) returns (defined: bool)
      requires Valid() && !c.deleted
      modifies this, seats.Keys, c
      ensures defined <==> Do(old(View()), old(Op.Expire(c, Seat(c.key, c.waiterPos)))).Some?
      ensures defined ==> Do(old(View()), old(Op.Expire(c, Seat(c.key, c.waiterPos)))) == Some(View())
      ensures defined && Valid() <==> old(Guarded(View(), Op.Expire(c, Seat(c.key, c.waiterPos))))
      ensures defined && old(c.key in All()) ==>
        !c.open && c.deleted == (old(c.refs) <= 1) && (!c.deleted ==> c.refs == old(c.refs) - 1)
      ensures !defined || old(c.key !in All()) ==> View() == old(View()) && unchanged(c)
    {
      RemoveExactly(View(), c, Seat(c.key, c.waiterPos));
      if pool.None? {
        return false;
      }
      if c.key in pool.value {
        var dq := pool.value[c.key];
        if c.waiterPos >= |dq| {
          return false;
        }
        assert SitsAt(View(), c.key, |dq| - 1);
        Drop(c);
      }
      return true;
    }

    /** The connection leaves the place that it remembers and is closed. */
    method Drop(c: Client)
      requires AllRemember() && !c.deleted && pool.Some? && c.key in pool.value && c.waiterPos < |pool.value[c.key]|
      requires var dq := pool.value[c.key]; dq[|dq| - 1] in seats && seats[dq[|dq| - 1]].key == c.key
      modifies this, seats.Keys, c
      ensures AllRemember() && (pool.Some? ==> pool.value != map[]) && c.key == old(c.key)
      ensures View() == EraseIfEmpty(Displace(old(View()), c, old(Seat(c.key, c.waiterPos))), c.key)
      ensures !c.open && c.deleted == (old(c.refs) <= 1) && (!c.deleted ==> c.refs == old(c.refs) - 1)
    {
      var key := c.key;
      MoveLast(c);
      Erase(key);
      CloseAndRelease(c);
    }

    /** The last connection of its vector takes the place that `c` remembers. */
    method MoveLast(c: Client)
      requires AllRemember() && pool.Some? && c.key in pool.value && c.waiterPos < |pool.value[c.key]|
      requires var dq := pool.value[c.key]; dq[|dq| - 1] in seats && seats[dq[|dq| - 1]].key == c.key
      modifies this, seats.Keys
      ensures pool.Some? && AllRemember() && View() == Displace(old(View()), c, old(Seat(c.key, c.waiterPos)))
      ensures c.refs == old(c.refs) && c.deleted == old(c.deleted) && c.key == old(c.key) && c !in seats
    {
      var dq := pool.value[c.key];
      var last := dq[|dq| - 1];
      assert Remembers(last);
      last.waiterPos := c.waiterPos;
      pool := Some(pool.value[c.key := SwapRemove(dq, c.waiterPos)]);
      seats := seats[last := Seat(c.key, c.waiterPos)] - {c};
      forall d | d in seats ensures Remembers(d) {
        assert old(Remembers(d));
      }
    }

    method CloseAndRelease(c: Client)
      requires AllRemember() && c !in seats && !c.deleted
      modifies c
      ensures AllRemember() && !c.open && c.deleted == (old(c.refs) <= 1)
      ensures (!c.deleted ==> c.refs == old(c.refs) - 1) && c.key == old(c.key)
    {
      c.open := false;
      c.Release();
      assert forall d | d in seats :: old(Remembers(d));
    }

    // ----- Bulk clear -----

    /** A largest vector. */
    method Largest() returns (k: Key)
      requires pool.Some? && pool.value != map[]
      ensures k in All() && forall k' :: k' in All() ==> |All()[k']| <= |All()[k]|
    {
      k :| k in pool.value;
      var rest := pool.value.Keys - {k};
      while rest != {}
        invariant k in pool.value && rest <= pool.value.Keys
        invariant forall k' :: k' in pool.value && k' !in rest ==> |pool.value[k']| <= |pool.value[k]|
      {
        var k' :| k' in rest;
        if |pool.value[k']| > |pool.value[k]| {
          k := k';
        }
        rest := rest - {k'};
      }
    }

    ghost predicate Dismissed(c: Client)
      reads c
    {
      !c.open && c.callback == JustRelease && !c.deleted
    }

    /** `clear_keep_alive_connection`, for the vector of `key` or, without a key, for a largest vector: up to `count`
        connections are closed and left to their own notification. */
    method ClearKeepAlive(count: nat, key: Option<Key>) returns (result: nat, ghost chosen: Key)
      requires Valid()
      modifies this, seats.Keys
      ensures key.Some? ==> chosen == key.value
      ensures key.None? ==> forall k :: k in old(All()) ==> |old(All())[k]| <= |Bucket(old(All()), chosen)|
      ensures Valid() && Do(old(View()), Op.Clear(chosen, count)) == Some(View())
      ensures result == Min(count, |Bucket(old(All()), chosen)|) && |seats| == |old(seats)| - result
      ensures Cleared(old(View()), View(), chosen, count)
      ensures forall c | c in old(seats) && c !in seats :: Dismissed(c) && c.refs == old(c.refs)
    {
      result := 0;
      if pool.None? {
        chosen := if key.Some? then key.value else Key(0, 0, 0);
        ClearEffect(View(), chosen, count);
        return;
      }
      var k;
      if key.Some? {
        k := key.value;
      } else {
        k := Largest();
      }
      chosen := k;
      ClearEffect(View(), k, count);
      if k in pool.value {
        result := ClearBucket(k, count);
      }
    }

    method ClearBucket(k: Key, count: nat) returns (result: nat)
      requires Valid() && pool.Some? && k in pool.value
      modifies this, seats.Keys
      ensures Valid() && Do(old(View()), Op.Clear(k, count)) == Some(View())
      ensures result == Min(count, |old(All())[k]|) && |seats| == |old(seats)| - result
      ensures forall c | c in old(seats) && c !in seats :: Dismissed(c) && c.refs == old(c.refs)
    {
      PopManyLeaves(View(), k, count);
      result := CloseSome(k, count);
      Erase(k);
    }

    method CloseSome(k: Key, count: nat) returns (result: nat)
      requires Inv(View()) && AllRemember() && pool.Some? && k in pool.value
      modifies this, seats.Keys
      ensures pool.Some? && Matched(View()) && AllRemember() && View() == PopMany(old(View()), k, count)
      ensures result == Min(count, |old(pool.value[k])|)
      ensures forall c | c in old(seats) && c !in seats :: Dismissed(c) && c.refs == old(c.refs)
    {
      ghost var s, goal := View(), PopMany(View(), k, count);
      ghost var t := s;
      var left := count;
      result := 0;
      while pool.value[k] != [] && left != 0
        invariant pool.Some? && t == View() && k in t.b && result + left == count && result + |t.b[k]| == |s.b[k]|
        invariant Matched(t) && AllRemember() && PopMany(t, k, left) == goal
        invariant forall c | c in t.seats :: c in s.seats
        invariant forall c | c in s.seats :: c.refs == old(c.refs) && (c !in t.seats ==> Dismissed(c))
      {
        left := left - 1;
        CloseLast(k);
        t := View();
        result := result + 1;
      }
    }

    /** One turn of that loop. */
    method CloseLast(k: Key)
      requires Matched(View()) && AllRemember() && pool.Some? && k in pool.value && pool.value[k] != []
      modifies this, seats.Keys
      ensures pool.Some? && Matched(View()) && AllRemember() && View() == PopBack(old(View()), k)
      ensures forall c | c in old(seats) :: c.refs == old(c.refs) && (c !in seats ==> Dismissed(c))
      ensures forall c | c in seats :: c in old(seats)
    {
      var last := PopLast(k);
      assert old(Remembers(last));
      last.open := false;
      last.callback := JustRelease;
      assert forall d | d in seats :: Remembers(d);
    }
  }
}
