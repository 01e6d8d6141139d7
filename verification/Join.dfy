/**
 The runtime that resumes coroutines (`cort_proto.h`), with the fields of all coroutines updated in
 place: starting, awaiting groups, and the loop of `resume` that climbs to the parents. Coroutines
 are numbered, and the objects of the source are the entries of `frames`.
 */
module Join {
  import opened Common
  import opened JoinModel

  class Runtime<!V> {
    const p: Program<V>
    var frames: seq<Frame<V>>
    ghost var phase: seq<Phase>
    ghost var trace: seq<Event>

    ghost function View(): World<V>
      reads this
    {
      World(p, frames, phase, trace)
    }

    constructor (program: Program<V>)
      requires program.Decides()
      ensures p == program && p.Decides() && Good(View(), Calm) && trace == []
      ensures forall c :: 0 <= c < |phase| ==> phase[c] == Unstarted
    {
      p := program;
      frames := seq(|program.rounds|, _ => Frame(None, 0, None, [], None));
      phase := seq(|program.rounds|, _ => Unstarted);
      trace := [];
      new;
      FreshGood(View());
    }

    // ----- Starting -----

    /** `cort_start`: runs the body of `c` up to its first wait; says whether it waits. */
    method Start(c: nat) returns (waits: bool)
      requires p.Decides() && Good(View(), Calm) && Startable(View(), c)
      modifies this
      ensures Good(View(), Calm) && OnlyBelow(old(View()), View(), c)
      ensures if waits then phase[c].Suspended? else phase[c] == Done
      decreases |p.rounds| - c, 5
    {
      ghost var s := View();
      BeginKeeps(s, c);
      phase := phase[c := Running(0)];
      ghost var t := View();
      OnlyBelowStep(s, t, c);
      StartedBlank(s, c);
      BeginAhead(s, c);
      waits := Proceed(c, 0);
      OnlyBelowThen(s, t, View(), c);
    }

    /** The body of `c` from round `first` on; says whether it waits. */
    method Proceed(c: nat, first: nat) returns (waits: bool)
      requires p.Decides() && Good(View(), Calm) && c < |frames| && phase[c] == Running(first)
      requires frames[c].waitCount == 0
      requires Ahead(View(), c, first)
      modifies this
      ensures OnlyBelow(old(View()), View(), c) && Sized(View())
      ensures Good(View(), if waits then Calm else MoodAfter(View(), c))
      ensures if waits then phase[c].Suspended? else phase[c] == Done
      decreases |p.rounds| - c, 4
    {
      ghost var s := View();
      RunningMeans(s, c);
      OnlyBelowStep(s, s, c);
      var r := first;
      NextRound(s, c, Calm);
      var round := p.next(c, frames[c].given);
      while round.Some?
        invariant r <= |p.rounds[c]| && Good(View(), Calm) && phase[c] == Running(r) && frames[c].waitCount == 0
        invariant OnlyBelow(s, View(), c) && Ahead(View(), c, r)
        invariant round == if r < |p.rounds[c]| then Some(p.rounds[c][r]) else None
        decreases |p.rounds[c]| - r
      {
        ghost var t := View();
        waits := RunRound(c, r, round.value);
        OnlyBelowThen(s, t, View(), c);
        if waits {
          return true;
        }
        r := r + 1;
        NextRound(View(), c, Calm);
        round := p.next(c, frames[c].given);
      }
      ghost var t := View();
      Return(c);
      OnlyBelowThen(s, t, View(), c);
      return false;
    }

    /** The end of the body: the result is stored. */
    method Return(c: nat)
      requires Good(View(), Calm) && c < |frames| && phase[c] == Running(|p.rounds[c]|)
      modifies this
      ensures View() == Finish(old(View()), c)
      ensures Good(View(), MoodAfter(View(), c)) && OnlyBelow(old(View()), View(), c)
    {
      ghost var s := View();
      FinishKeeps(s, c);
      FinishedMood(s, c);
      frames := frames[c := frames[c].(result := Some(p.combine(c, frames[c].given)))];
      phase := phase[c := Done];
      trace := trace + [Finished(c)];
      OnlyBelowStep(s, View(), c);
    }

    // ----- One round -----

    method RunRound(c: nat, r: nat, round: Round) returns (waits: bool)
      requires p.Decides() && Good(View(), Calm) && p.Has(c, r) && phase[c] == Running(r) && frames[c].waitCount == 0
      requires Ahead(View(), c, r)
      requires round == p.rounds[c][r]
      modifies this
      ensures Good(View(), Calm) && OnlyBelow(old(View()), View(), c)
      ensures waits ==> phase[c].Suspended?
      ensures !waits ==> phase[c] == Running(r + 1) && frames[c].waitCount == 0 && Ahead(View(), c, r + 1)
      decreases |p.rounds| - c, 3
    {
      ghost var s := View();
      waits := StartRound(c, r, round);
      ghost var t := View();
      if waits {
        Pause(c, r);
      } else {
        NoneUnfinished(t, c, r);
        GoOn(c, r, round);
      }
      OnlyBelowThen(s, t, View(), c);
    }

    /** Everything that round `r` awaits is started; says whether `c` has to wait. */
    method StartRound(c: nat, r: nat, round: Round) returns (waits: bool)
      requires p.Decides() && Good(View(), Calm) && p.Has(c, r) && phase[c] == Running(r) && frames[c].waitCount == 0
      requires Ahead(View(), c, r)
      requires round == p.rounds[c][r]
      modifies this
      ensures Good(View(), Calm) && OnlyBelow(old(View()), View(), c) && phase[c] == Running(r)
      ensures AllStarted(View(), c, r, |p.Members(c, r)|) && frames[c].waitCount == Unfinished(phase, Group(p, c, r))
      ensures waits == (p.rounds[c][r].Yield? || frames[c].waitCount > 0)
      decreases |p.rounds| - c, 2
    {
      ghost var s := View();
      match round
      case Yield =>
        waits := true;
        OnlyBelowStep(s, s, c);
      case All(members) =>
        var n := WaitRange(c, r, members);
        ghost var t := View();
        waits := n != 0;
        SetWaitCount(c, n);
        OnlyBelowThen(s, t, View(), c);
      case Each(members) =>
        AwaitEach(c, r, members);
        waits := frames[c].waitCount != 0;
    }

    /** `cort_wait_range`, and the body of CO_AWAIT_ALL: the members are started and those that wait are counted. */
    method WaitRange(c: nat, r: nat, members: seq<nat>) returns (n: nat)
      requires p.Decides() && Good(View(), Calm) && p.Has(c, r) && phase[c] == Running(r) && Ahead(View(), c, r)
      requires members == p.Members(c, r)
      modifies this
      ensures Good(View(), Calm) && OnlyBelow(old(View()), View(), c)
      ensures phase[c] == Running(r) && frames[c] == old(frames[c])
      ensures AllStarted(View(), c, r, |p.Members(c, r)|) && n == Unfinished(phase, Group(p, c, r))
      decreases |p.rounds| - c, 1
    {
      ghost var s := View();
      OnlyBelowStep(s, s, c);
      n := 0;
      var i := 0;
      while i < |members|
        invariant i <= |members| && Good(View(), Calm) && OnlyBelow(s, View(), c)
        invariant phase[c] == Running(r) && frames[c] == s.f[c]
        invariant PartStarted(View(), c, r, i) && n == Unfinished(phase, Group(p, c, r)[..i])
      {
        ghost var t := View();
        var waits := StartChild(c, r, i, members[i]);
        OnlyBelowThen(s, t, View(), c);
        if waits {
          n := n + 1;
        }
        i := i + 1;
      }
      assert Group(p, c, r)[..i] == Group(p, c, r);
    }

    /** `await` of one member after the other: the wait count of `c` itself is increased. */
    method AwaitEach(c: nat, r: nat, members: seq<nat>)
      requires p.Decides() && Good(View(), Calm) && p.Has(c, r) && phase[c] == Running(r) && frames[c].waitCount == 0
      requires Ahead(View(), c, r)
      requires members == p.Members(c, r)
      modifies this
      ensures Good(View(), Calm) && OnlyBelow(old(View()), View(), c) && phase[c] == Running(r)
      ensures AllStarted(View(), c, r, |p.Members(c, r)|) && frames[c].waitCount == Unfinished(phase, Group(p, c, r))
      decreases |p.rounds| - c, 1
    {
      ghost var s := View();
      OnlyBelowStep(s, s, c);
      var i := 0;
      while i < |members|
        invariant i <= |members| && Good(View(), Calm) && OnlyBelow(s, View(), c)
        invariant phase[c] == Running(r)
        invariant PartStarted(View(), c, r, i) && frames[c].waitCount == Unfinished(phase, Group(p, c, r)[..i])
      {
        ghost var t := View();
        Await(c, r, i, members[i]);
        OnlyBelowThen(s, t, View(), c);
        i := i + 1;
      }
      assert Group(p, c, r)[..i] == Group(p, c, r);
    }

    /** `await` of one member. */
    method Await(c: nat, r: nat, i: nat, m: nat)
      requires p.Decides() && Good(View(), Calm) && p.Has(c, r) && phase[c] == Running(r) && i < |p.Members(c, r)|
      requires PartStarted(View(), c, r, i) && frames[c].waitCount == Unfinished(phase, Group(p, c, r)[..i])
      requires m == p.Members(c, r)[i]
      modifies this
      ensures Good(View(), Calm) && OnlyBelow(old(View()), View(), c) && phase[c] == Running(r)
      ensures PartStarted(View(), c, r, i + 1) && frames[c].waitCount == Unfinished(phase, Group(p, c, r)[..i + 1])
      decreases |p.rounds| - c, 0, 1
    {
      ghost var s := View();
      var waits := StartChild(c, r, i, m);
      ghost var t := View();
      if waits {
        SetWaitCount(c, frames[c].waitCount + 1);
        OnlyBelowThen(s, t, View(), c);
        SamePart(t, View(), c, r, i + 1);
      }
    }

    /** One member is started; if it waits, it learns its parent. */
    method StartChild(c: nat, r: nat, i: nat, m: nat) returns (waits: bool)
      requires p.Decides() && Good(View(), Calm) && p.Has(c, r) && phase[c] == Running(r) && i < |p.Members(c, r)|
      requires PartStarted(View(), c, r, i)
      requires m == p.Members(c, r)[i]
      modifies this
      ensures Good(View(), Calm) && OnlyBelow(old(View()), View(), c)
      ensures phase[c] == Running(r) && frames[c] == old(frames[c])
      ensures PartStarted(View(), c, r, i + 1)
      ensures Unfinished(phase, Group(p, c, r)[..i + 1])
        == Unfinished(old(phase), Group(p, c, r)[..i]) + if waits then 1 else 0
      decreases |p.rounds| - c, 0, 0
    {
      ghost var s := View();
      ChildStartable(s, c, r, i);
      waits := Start(m);
      ghost var t := View();
      OnlyBelowChild(s, t, c, m);
      if waits {
        AdoptKeeps(t, m);
        frames := frames[m := frames[m].(parent := Some(c))];
        OnlyBelowStep(t, View(), m);
        OnlyBelowAdopted(s, t, View(), c, m);
      }
      OneMoreStarted(s, t, View(), c, r, i);
    }

    method SetWaitCount(c: nat, n: nat)
      requires Good(View(), Calm) && c < |frames| && phase[c].Running?
      modifies this
      ensures View() == Recount(old(View()), c, n) && Good(View(), Calm) && OnlyBelow(old(View()), View(), c)
    {
      ghost var s := View();
      RecountKeeps(s, c, n);
      frames := frames[c := frames[c].(waitCount := n)];
      OnlyBelowStep(s, View(), c);
    }

    /** The callback is set and control goes back to the caller. */
    method Pause(c: nat, r: nat)
      requires Good(View(), Calm) && p.Has(c, r) && phase[c] == Running(r)
      requires AllStarted(View(), c, r, |p.Members(c, r)|) && frames[c].waitCount == Unfinished(phase, Group(p, c, r))
      requires p.rounds[c][r].Yield? || frames[c].waitCount > 0
      modifies this
      ensures Good(View(), Calm) && OnlyBelow(old(View()), View(), c) && phase[c] == Suspended(r)
    {
      ghost var s := View();
      SuspendKeeps(s, c, r, frames[c].waitCount);
      frames := frames[c := frames[c].(callback := Some(r))];
      phase := phase[c := Suspended(r)];
      assert View() == Suspend(s, c, r, s.f[c].waitCount);
      OnlyBelowStep(s, View(), c);
    }

    /** `c` reads what round `r` gave it and goes on. */
    method GoOn(c: nat, r: nat, round: Round)
      requires Good(View(), Calm) && p.Has(c, r) && phase[c] == Running(r) && AllDone(View(), c, r)
      requires round == p.rounds[c][r]
      modifies this
      ensures View() == Pass(old(View()), c, r, p.Gives(c, r)) && Ahead(View(), c, r + 1)
      ensures Good(View(), Calm) && OnlyBelow(old(View()), View(), c)
    {
      ghost var s := View();
      PassKeeps(s, c, r);
      PassAhead(s, c, r, p.Gives(c, r));
      ReadsRight(s, c, r);
      var values := if round.Yield? then [p.answer(c, r)] else ResultsOf(frames, round.members);
      frames := frames[c := frames[c].(given := frames[c].given + [values])];
      phase := phase[c := Running(r + 1)];
      trace := trace + [Continued(c, r)];
      OnlyBelowStep(s, View(), c);
    }

    // ----- Resuming -----

    /** The callback of `c` is called; says whether `c` waits again. */
    method CallBack(c: nat, r: nat, ghost mood: Mood) returns (waits: bool)
      requires p.Decides() && Good(View(), mood) && (mood == Calm || mood == Ready(c)) && Quiet(View())
      requires c < |frames| && phase[c] == Suspended(r) && frames[c].waitCount == 0
      modifies this
      ensures OnlyBelow(old(View()), View(), c) && Sized(View())
      ensures Good(View(), if waits then Calm else MoodAfter(View(), c))
      ensures Quiet(View())
      ensures if waits then phase[c].Suspended? else phase[c] == Done
      ensures |trace| > |old(trace)|
    {
      ghost var s := View();
      WakeKeeps(s, c, r, mood);
      phase := phase[c := Running(r)];
      ghost var t := View();
      OnlyBelowStep(s, t, c);
      NextRound(t, c, Calm);
      GoOn(c, r, p.next(c, frames[c].given).value);
      ghost var u := View();
      OnlyBelowThen(s, t, u, c);
      waits := Proceed(c, r + 1);
      OnlyBelowThen(s, u, View(), c);
      QuietBelow(s, View(), c);
    }

    /** `resume` of a coroutine that yielded: whenever one finishes and its parent has nobody else to wait for, the
        parent is resumed in turn. */
    method Resume(c: nat)
      requires p.Decides() && Good(View(), Calm) && Quiet(View()) && Pending(View(), c)
      modifies this
      ensures Good(View(), Calm) && Quiet(View()) && |trace| > |old(trace)|
      ensures forall d :: 0 <= d < |phase| && old(phase)[d] != Unstarted ==> phase[d] != Unstarted
    {
      ghost var s := View();
      SuspendedMeans(s, c, Calm);
      var that: nat := c;
      var going := true;
      ghost var mood := Calm;
      while going
        invariant |phase| == |frames| == |s.ph| && Good(View(), mood) && Quiet(View())
        invariant going ==> (mood == Calm || mood == Ready(that)) && that < |frames|
        invariant going ==> phase[that].Suspended? && frames[that].waitCount == 0
        invariant !going ==> mood == Calm && |trace| > |s.trace|
        invariant |trace| >= |s.trace|
        invariant forall d :: 0 <= d < |phase| && s.ph[d] != Unstarted ==> phase[d] != Unstarted
        decreases that, going
      {
        SuspendedMeans(View(), that, mood);
        ParentWaits(View(), that, mood);
        var parent := frames[that].parent;
        var waits := CallBack(that, frames[that].callback.value, mood);
        if waits || parent.None? {
          going, mood := false, Calm;
        } else {
          going := DecrWaitCount(parent.value);
          mood := if going then Ready(parent.value) else Calm;
          that := parent.value;
        }
      }
    }

    /** `decr_wait_count` of a parent; says whether it has nobody else to wait for. */
    method DecrWaitCount(c: nat) returns (last: bool)
      requires Good(View(), Late(c)) && Quiet(View())
      modifies this
      ensures Good(View(), if last then Ready(c) else Calm) && Quiet(View()) && c < |frames|
      ensures last == (frames[c].waitCount == 0) && phase == old(phase) && trace == old(trace)
    {
      ghost var s := View();
      CountDownKeeps(s, c);
      frames := frames[c := frames[c].(waitCount := frames[c].waitCount - 1)];
      last := frames[c].waitCount == 0;
      assert View() == Recount(s, c, s.f[c].waitCount - 1);
    }

    // ----- Any schedule -----

    /** From outside, coroutines that yielded are resumed in any order. The run ends with the result of sequential
        evaluation, after every await of every coroutine was continued exactly once. */
    method RunAll() returns (result: V)
      requires p.Decides() && Good(View(), Calm) && forall c :: 0 <= c < |phase| ==> phase[c] == Unstarted
      modifies this
      ensures Good(View(), Calm) && result == p.Eval(0)
      ensures Distinct(trace) && forall e :: e in trace <==> e in AllEvents(p)
      ensures forall i: nat | i < |trace| :: After(p, trace, i)
    {
      ghost var s := View();
      var waits := Start(0);
      QuietBelow(s, View(), 0);
      RootResult(View());
      while frames[0].result.None?
        invariant Good(View(), Calm) && Quiet(View()) && phase[0] != Unstarted
        decreases |AllEvents(p)| - |trace|
      {
        ghost var t := View();
        RootResult(t);
        TraceBound(t);
        ghost var d := Progress(t, 0);
        ResumableMeans(t, d);
        var c: nat :| Resumable(frames, c);
        ResumableMeans(t, c);
        Resume(c);
        TraceBound(View());
      }
      RootResult(View());
      Completed(View());
      result := frames[0].result.value;
    }
  }
}
