/**
 The waiter behind CO_AWAIT_ANY_N (`cort_proto.h`): it resumes its parent when `n` of the awaited
 coroutines have finished and frees itself when all of them have. Counts wrap around like `size_t`.
 The coroutines awaited do not finish while the parent is being resumed.
 */
module WaitN {
  import opened Common

  const SIZE: nat := 0x1_0000_0000_0000_0000

  /** Where the waiter will be continued: it has not started, waits for the first ones, waits for the rest, or is
      gone. */
  datatype State = Fresh | First | Rest | Freed

  /** `resumes` lists the coroutine that was reported at each resumption of the parent, `frees` counts deletions. */
  datatype Waiter = Waiter(waitCount: Size, rest: Size, state: State, hasParent: bool, lastResumer: Option<nat>,
                           resumes: seq<nat>, frees: nat)

  /** `size_t`. */
  type Size = x: int | 0 <= x < SIZE

  function Minus(a: Size, b: Size): Size {
    if a >= b then a - b else a - b + SIZE
  }

  /** `delete this`. */
  function Free(w: Waiter): Waiter {
    w.(state := Freed, frees := w.frees + 1)
  }

  /** The callback of the waiter, after its wait count reached zero. */
  function Continue(w: Waiter): Waiter {
    match w.state
    case First =>
      if w.hasParent then
        var reported := if w.lastResumer.Some? then [w.lastResumer.value] else [];
        var v := w.(resumes := w.resumes + reported, waitCount := w.rest);
        if w.rest != 0 then v.(state := Rest) else Free(v)
      else Free(w)
    case Rest => Free(w)
    case _ => w
  }

  /** The coroutine `c`, which the waiter awaits, has finished. */
  function ChildDone(w: Waiter, c: nat): Waiter {
    var v := w.(waitCount := Minus(w.waitCount, 1));
    if v.waitCount == 0 then Continue(v.(lastResumer := Some(c))) else v
  }

  function AllDone(w: Waiter, order: seq<nat>): Waiter {
    if order == [] then w else ChildDone(AllDone(w, order[..|order| - 1]), order[|order| - 1])
  }

  /** The waiter of a suspended parent, when `waited` coroutines are pending and `first` more have to finish. */
  function Suspended(waited: Size, first: Size): Waiter {
    Waiter(first, Minus(waited, first), First, true, None, [], 0)
  }

  /** The waiter that nobody waits for any more: enough coroutines had finished when they were started. */
  function Orphan(waited: Size): Waiter {
    Waiter(waited, 0, First, false, None, [], 0)
  }

  // ----- Every order of completion -----

  /** Between the first and the last completion: what is due is due exactly then. */
  ghost predicate OnTime(w: Waiter, waited: Size, first: Size, order: seq<nat>)
    requires 1 <= first <= waited && |order| <= waited
  {
    && w.frees == (if |order| == waited then 1 else 0)
    && (w.state == Freed <==> |order| == waited)
    && w.resumes == (if |order| < first then [] else [order[first - 1]])
    && (|order| < first ==> w.state == First && w.waitCount == first - |order|)
    && (first <= |order| < waited ==> w.state == Rest && w.waitCount == waited - |order|)
  }

  /** When the count can be met the parent is resumed once, at completion number `first`, by the coroutine that
      finished then, and the waiter is freed once, at the last completion. */
  lemma {:induction false} ResumedOnTime(waited: Size, first: Size, order: seq<nat>)
    requires 1 <= first <= waited && |order| <= waited
    ensures OnTime(AllDone(Suspended(waited, first), order), waited, first, order)
    ensures var w := AllDone(Suspended(waited, first), order); w.rest == waited - first && w.hasParent
    decreases |order|
  {
    if order != [] {
      ResumedOnTime(waited, first, order[..|order| - 1]);
    }
  }

  /** When it cannot, because too few coroutines are pending or none was asked for, the parent is never resumed and
      the waiter never freed. */
  lemma {:induction false} NeverResumed(waited: Size, first: Size, order: seq<nat>)
    requires (first == 0 || first > waited) && |order| <= waited
    ensures AllDone(Suspended(waited, first), order) == Suspended(waited, first).(waitCount := Minus(first, |order|))
    decreases |order|
  {
    if order != [] {
      var n := |order| - 1;
      NeverResumed(waited, first, order[..n]);
      CountsOn(first, n);
    }
  }

  lemma CountsOn(first: Size, n: nat)
    requires n + 1 < SIZE && (first == 0 || first > n + 1)
    ensures Minus(Minus(first, n), 1) == Minus(first, n + 1) != 0
  {
  }

  lemma {:induction false} OrphanFreed(waited: Size, order: seq<nat>)
    requires 1 <= waited && |order| <= waited
    ensures |order| < waited ==> AllDone(Orphan(waited), order) == Orphan(waited).(waitCount := waited - |order|)
    ensures |order| == waited ==>
      AllDone(Orphan(waited), order).resumes == [] && AllDone(Orphan(waited), order).frees == 1
    decreases |order|
  {
    if order != [] {
      OrphanFreed(waited, order[..|order| - 1]);
    }
  }

  /** As long as coroutines are pending the waiter is there. */
  lemma StillThere(w: Waiter, waited: Size, first: Size, order: seq<nat>)
    requires w == Suspended(waited, first) || w == Orphan(waited)
    requires |order| < waited
    ensures AllDone(w, order).state == First || AllDone(w, order).state == Rest
  {
    if w == Orphan(waited) {
      OrphanFreed(waited, order);
    } else if 1 <= first <= waited {
      ResumedOnTime(waited, first, order);
    } else {
      NeverResumed(waited, first, order);
    }
  }

  // ----- Starting the coroutines -----

  /** How many of the coroutines had finished when they were started; `outcomes[i]` says whether number `i` waits. */
  function Finished(outcomes: seq<bool>): (n: nat)
    ensures n <= |outcomes|
  {
    if outcomes == [] then 0 else Finished(outcomes[..|outcomes| - 1]) + if outcomes[|outcomes| - 1] then 0 else 1
  }

  /** Those that wait. */
  function Waiting(outcomes: seq<bool>): set<nat> {
    set i | 0 <= i < |outcomes| && outcomes[i]
  }

  lemma {:induction false} Both(outcomes: seq<bool>)
    ensures Finished(outcomes) + |Waiting(outcomes)| == |outcomes|
    decreases |outcomes|
  {
    if outcomes != [] {
      var n := |outcomes| - 1;
      Both(outcomes[..n]);
      var a, b := Waiting(outcomes), Waiting(outcomes[..n]) + if outcomes[n] then {n} else {};
      forall k ensures k in a <==> k in b {
      }
      assert a == b;
    }
  }

  lemma {:induction false} FinishedGrows(outcomes: seq<bool>, i: nat)
    requires i <= |outcomes|
    ensures Finished(outcomes[..i]) <= Finished(outcomes)
    decreases |outcomes|
  {
    if i < |outcomes| {
      var n := |outcomes| - 1;
      assert outcomes[..n][..i] == outcomes[..i];
      FinishedGrows(outcomes[..n], i);
    } else {
      assert outcomes[..i] == outcomes;
    }
  }

  lemma Outcome(n: Size, outcomes: seq<bool>, all: set<nat>, order: seq<nat>)
    requires |order| == |all| <= |outcomes| < SIZE
    ensures !(1 <= n <= Finished(outcomes)) && all == Waiting(outcomes) ==>
      var w, k := AllDone(Suspended(|all|, Minus(n, Finished(outcomes))), order), n - Finished(outcomes);
      if 1 <= k <= |order| then w.resumes == [order[k - 1]] && w.frees == 1 else w.resumes == [] && w.frees == 0
    ensures all != {} ==> AllDone(Orphan(|all|), order).resumes == [] && AllDone(Orphan(|all|), order).frees == 1
  {
    Both(outcomes);
    var first := Minus(n, Finished(outcomes));
    if all != {} {
      OrphanFreed(|all|, order);
    }
    if !(1 <= n <= Finished(outcomes)) && all == Waiting(outcomes) {
      if 1 <= first <= |all| {
        ResumedOnTime(|all|, first, order);
      } else {
        NeverResumed(|all|, first, order);
      }
    }
  }

  class CortWaitN {
    var waitCount: Size
    var rest: Size
    var state: State
    var hasParent: bool
    var lastResumer: Option<nat>
    var resumes: seq<nat>  // stands for the parent: who was reported each time it was resumed
    var frees: nat         // stands for the allocator

    ghost function View(): Waiter
      reads this
    {
      Waiter(waitCount, rest, state, hasParent, lastResumer, resumes, frees)
    }

    constructor ()
      ensures View() == Waiter(0, 0, Fresh, false, None, [], 0)
    {
      waitCount, rest, state, hasParent, lastResumer, resumes, frees := 0, 0, Fresh, false, None, [], 0;
    }

    /** `init_resume_any`. */
    method InitResumeAny(total: Size, first: Size)
      modifies this
      ensures View() == old(View()).(rest := Minus(total, first), waitCount := first)
    {
      rest := Minus(total, first);
      waitCount := first;
    }

    /** `start` up to its first yield. */
    method Start()
      modifies this
      ensures View() == old(View()).(state := First)
    {
      state := First;
    }

    method Delete()
      requires state != Freed
      modifies this
      ensures View() == Free(old(View()))
    {
      state := Freed;
      frees := frees + 1;
    }

    /** `start` after its wait count reached zero. */
    method Resume(c: nat)
      requires state == First || state == Rest
      modifies this
      ensures View() == Continue(old(View()).(lastResumer := Some(c)))
    {
      lastResumer := Some(c);
      if state == First {
        if hasParent {
          resumes := resumes + [c];
        } else {
          Delete();
          return;
        }
        waitCount := rest;
        if rest != 0 {
          state := Rest;
          return;
        }
      }
      Delete();
    }

    /** The step of the loop of `cort_proto::resume` from a finished coroutine to this waiter. */
    method OnChildDone(c: nat)
      requires state == First || state == Rest
      modifies this
      ensures View() == ChildDone(old(View()), c)
    {
      waitCount := Minus(waitCount, 1);
      if waitCount == 0 {
        Resume(c);
      }
    }
  }

  lemma OneMore(outcomes: seq<bool>, i: nat)
    requires i < |outcomes|
    ensures Finished(outcomes[..i + 1]) == Finished(outcomes[..i]) + if outcomes[i] then 0 else 1
    ensures Waiting(outcomes[..i + 1]) == Waiting(outcomes[..i]) + if outcomes[i] then {i} else {}
    ensures Finished(outcomes[..i + 1]) <= Finished(outcomes)
    ensures |Waiting(outcomes[..i + 1])| == |Waiting(outcomes[..i])| + (if outcomes[i] then 1 else 0) <= |outcomes|
  {
    assert outcomes[..i + 1][..i] == outcomes[..i];
    FinishedGrows(outcomes, i + 1);
    WaitingMore(outcomes, i);
    Both(outcomes[..i]);
    Both(outcomes[..i + 1]);
  }

  lemma WaitingMore(outcomes: seq<bool>, i: nat)
    requires i < |outcomes|
    ensures Waiting(outcomes[..i + 1]) == Waiting(outcomes[..i]) + if outcomes[i] then {i} else {}
  {
    var a, b := Waiting(outcomes[..i + 1]), Waiting(outcomes[..i]) + if outcomes[i] then {i} else {};
    forall k ensures k in a <==> k in b {
    }
  }

  /** CO_AWAIT_ANY_N up to the point where the parent is suspended or goes on, after `started` coroutines were started;
      `pending` are those that wait. */
  method Launch(n: Size, outcomes: seq<bool>) returns (w: CortWaitN, suspended: bool, started: nat, pending: set<nat>)
    requires |outcomes| < SIZE
    ensures fresh(w) && started <= |outcomes| && |pending| <= |outcomes| && pending == Waiting(outcomes[..started])
    ensures suspended <==> !(1 <= n <= Finished(outcomes))
    ensures suspended ==> started == |outcomes| && w.View() == Suspended(|pending|, Minus(n, Finished(outcomes)))
    ensures !suspended ==> started > 0 && !outcomes[started - 1] && Finished(outcomes[..started]) == n
    ensures !suspended ==>
      w.View() == if pending == {} then Free(Waiter(0, 0, Fresh, false, None, [], 0)) else Orphan(|pending|)
  {
    w := new CortWaitN();
    var finished, waited := 0, 0;
    pending := {};
    started := 0;
    while started < |outcomes|
      invariant started <= |outcomes| && finished == Finished(outcomes[..started]) && (n == 0 || finished < n)
      invariant pending == Waiting(outcomes[..started]) && waited == |pending| <= |outcomes|
      invariant fresh(w) && w.View() == Waiter(0, 0, Fresh, false, None, [], 0)
    {
      OneMore(outcomes, started);
      started := started + 1;
      if outcomes[started - 1] {
        waited := waited + 1;
        pending := pending + {started - 1};
      } else {
        finished := finished + 1;
        if finished == n {
          Abandon(w, waited);
          return w, false, started, pending;
        }
      }
    }
    assert outcomes[..started] == outcomes;
    w.InitResumeAny(waited, Minus(n, finished));
    w.Start();
    w.hasParent := true;
    return w, true, started, pending;
  }

  /** Enough coroutines have finished: the waiter is left to those that wait, or freed. */
  method Abandon(w: CortWaitN, waited: Size)
    requires w.View() == Waiter(0, 0, Fresh, false, None, [], 0)
    modifies w
    ensures w.View() == if waited == 0 then Free(old(w.View())) else Orphan(waited)
  {
    if waited != 0 {
      w.waitCount := waited;
      w.Start();
    } else {
      w.Delete();
    }
  }

  /** The pending coroutines finish in any order. The parent is resumed exactly once, at completion number
      `n - Finished(outcomes)`, and the waiter is freed exactly once, if and only if that many coroutines are
      pending; a parent that was not suspended is not resumed, and then too the waiter is freed exactly once. */
  method AwaitAnyN(n: Size, outcomes: seq<bool>)
    returns (suspended: bool, started: nat, order: seq<nat>, resumes: seq<nat>, frees: nat)
    requires |outcomes| < SIZE
    ensures suspended <==> !(1 <= n <= Finished(outcomes))
    ensures frees == 1 <==> 1 <= n <= |outcomes|
    ensures !suspended ==> resumes == [] && frees == 1
    ensures started <= |outcomes| && (suspended ==> started == |outcomes|)
    ensures |order| == |Waiting(outcomes[..started])| && forall c :: c in order <==> c in Waiting(outcomes[..started])
    ensures suspended && 1 <= n - Finished(outcomes) <= |order| ==>
      resumes == [order[n - Finished(outcomes) - 1]] && frees == 1
    ensures suspended && !(1 <= n - Finished(outcomes) <= |order|) ==> resumes == [] && frees == 0
  {
    var pending: set<nat>;
    var w;
    w, suspended, started, pending := Launch(n, outcomes);
    assert outcomes[..|outcomes|] == outcomes;
    Both(outcomes);
    ghost var all, s, first := pending, w.View(), Minus(n, Finished(outcomes));
    order := [];
    while pending != {}
      invariant fresh(w) && w.View() == AllDone(s, order)
      invariant pending <= all && |order| + |pending| == |all|
      invariant forall c :: c in order <==> c in all - pending
    {
      StillThere(s, |all|, first, order);
      var c :| c in pending;
      pending := pending - {c};
      w.OnChildDone(c);
      assert (order + [c])[..|order|] == order;
      order := order + [c];
    }
    Outcome(n, outcomes, all, order);
    resumes, frees := w.resumes, w.frees;
  }
}
