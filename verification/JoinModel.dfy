/**
 Coroutines that await groups of coroutines (`cort_proto.h`): what the wait counts, parents and
 callbacks of a whole tree of coroutines mean, and what each step of the runtime keeps.
 */
module JoinModel {
  import opened Common

  /** What a coroutine does between two resume points: it yields, or it starts other coroutines and awaits them all,
      counting them at the end (CO_AWAIT, CO_AWAIT_ALL, CO_AWAIT_RANGE) or one by one (`await`, CO_UNTIL_ALL). */
  datatype Round = Yield | All(members: seq<nat>) | Each(members: seq<nat>)

  datatype Home = Home(owner: nat, round: nat, index: nat)

  /** A tree of coroutines with root 0. The code of a coroutine is `next`: from what its rounds gave it so far, what it
      does next, if anything. `answer` is what a yield gives and `combine` the result of a coroutine. `rounds` and
      `home` describe the tree that this code unfolds to: the rounds of each coroutine, and which round of which
      coroutine starts each of the others. */
  datatype Program<!V> = Program(rounds: seq<seq<Round>>, home: seq<Home>, next: (nat, seq<seq<V>>) -> Option<Round>,
                                 combine: (nat, seq<seq<V>>) -> V, answer: (nat, nat) -> V)
  {
    predicate Has(c: nat, r: nat) {
      c < |rounds| && r < |rounds[c]|
    }

    function Members(c: nat, r: nat): seq<nat>
      requires Has(c, r)
    {
      if rounds[c][r].Yield? then [] else rounds[c][r].members
    }

    /** Every coroutine but the root is started at exactly one place, by a coroutine with a smaller number. */
    ghost predicate WellFormed() {
      && |home| == |rounds| > 0
      && (forall c: nat, r: nat, i: nat | Has(c, r) && i < |Members(c, r)| :: StartedAt(c, r, i))
      && (forall m: nat | 0 < m < |rounds| :: HomeOf(m))
    }

    ghost predicate StartedAt(c: nat, r: nat, i: nat)
      requires |home| == |rounds| && Has(c, r) && i < |Members(c, r)|
    {
      var m := Members(c, r)[i];
      c < m < |rounds| && home[m] == Home(c, r, i)
    }

    ghost predicate HomeOf(m: nat)
      requires |home| == |rounds| && m < |rounds|
    {
      var h := home[m];
      h.owner < m && Has(h.owner, h.round) && h.index < |Members(h.owner, h.round)|
      && Members(h.owner, h.round)[h.index] == m
    }

    /** The code unfolds to the tree. */
    ghost predicate Decides() {
      WellFormed() && forall c: nat, r: nat | c < |rounds| && r <= |rounds[c]| :: DecidesAt(c, r)
    }

    ghost predicate DecidesAt(c: nat, r: nat)
      requires WellFormed() && c < |rounds| && r <= |rounds[c]|
    {
      next(c, Given(c, r)) == if r < |rounds[c]| then Some(rounds[c][r]) else None
    }

    // ----- Sequential evaluation -----

    /** The result of `c` when everything it starts is evaluated on the spot. */
    ghost function Eval(c: nat): V
      requires WellFormed() && c < |rounds|
      decreases |rounds| - c, 2, 0
    {
      combine(c, Given(c, |rounds[c]|))
    }

    /** What the first `n` rounds of `c` give it. */
    ghost function Given(c: nat, n: nat): seq<seq<V>>
      requires WellFormed() && c < |rounds| && n <= |rounds[c]|
      decreases |rounds| - c, 1, n
    {
      if n == 0 then [] else Given(c, n - 1) + [Gives(c, n - 1)]
    }

    ghost function Gives(c: nat, r: nat): seq<V>
      requires WellFormed() && Has(c, r)
      decreases |rounds| - c, 1, r
    {
      if rounds[c][r].Yield? then [answer(c, r)]
      else
        seq(|Members(c, r)|, i requires 0 <= i < |Members(c, r)| => assert StartedAt(c, r, i); Eval(Members(c, r)[i]))
    }
  }

  /** What sequential evaluation is: a coroutine combines what all its rounds gave it, in order; a yield gives its
      answer, and a group of coroutines the results of its members, in order. */
  lemma {:induction false} EvalMeans<V>(p: Program<V>, c: nat, n: nat)
    requires p.WellFormed() && c < |p.rounds| && n <= |p.rounds[c]|
    ensures p.Eval(c) == p.combine(c, p.Given(c, |p.rounds[c]|))
    ensures |p.Given(c, n)| == n
    ensures forall r: nat | r < n :: p.Given(c, n)[r] == p.Gives(c, r)
    ensures forall r: nat | r < n && p.rounds[c][r].Yield? :: p.Given(c, n)[r] == [p.answer(c, r)]
    ensures forall r: nat | r < n && !p.rounds[c][r].Yield? :: |p.Given(c, n)[r]| == |p.rounds[c][r].members|
    ensures forall r: nat, i: nat | r < n && !p.rounds[c][r].Yield? && i < |p.rounds[c][r].members| ::
      p.StartedAt(c, r, i) && p.Given(c, n)[r][i] == p.Eval(p.rounds[c][r].members[i])
    decreases n
  {
    forall r: nat, i: nat | r < n && !p.rounds[c][r].Yield? && i < |p.rounds[c][r].members|
      ensures p.StartedAt(c, r, i)
    {
      assert p.Has(c, r) && i < |p.Members(c, r)|;
    }
    if n > 0 {
      EvalMeans(p, c, n - 1);
    }
  }

  /** A coroutine: its parent, its wait count, the round it continues after, what it was given and its result. */
  datatype Frame<V> = Frame(parent: Option<nat>, waitCount: nat, callback: Option<nat>, given: seq<seq<V>>,
                            result: Option<V>)

  datatype Phase = Unstarted | Running(round: nat) | Suspended(round: nat) | Done

  /** `Continued(c, r)`: coroutine `c` went on after its round `r`. */
  datatype Event = Continued(c: nat, r: nat) | Finished(c: nat)

  datatype World<!V> = World(p: Program<V>, f: seq<Frame<V>>, ph: seq<Phase>, trace: seq<Event>)

  /** Between two steps: `Late(c)` has one child that finished and is not yet counted down; `Ready(c)` may go on. */
  datatype Mood = Calm | Late(c: nat) | Ready(c: nat)

  // ----- The invariant -----

  function Unfinished(ph: seq<Phase>, ms: seq<nat>): nat
    requires forall i :: 0 <= i < |ms| ==> ms[i] < |ph|
  {
    if ms == [] then 0 else (if ph[ms[0]].Done? then 0 else 1) + Unfinished(ph, ms[1..])
  }

  ghost predicate Sized<V>(w: World<V>) {
    w.p.WellFormed() && |w.f| == |w.ph| == |w.p.rounds|
  }

  /** A suspended coroutine counts its unfinished children exactly; nobody is suspended without a reason; what a
      coroutine was given, and its result, are those of sequential evaluation. */
  ghost predicate Fits<V>(w: World<V>, c: nat, mood: Mood)
    requires Sized(w) && c < |w.f|
  {
    match w.ph[c]
    case Unstarted => w.f[c] == Frame(None, 0, None, [], None)
    case Running(r) => r <= |w.p.rounds[c]| && w.f[c].given == w.p.Given(c, r) && w.f[c].result.None?
    case Suspended(r) =>
      w.p.Has(c, r) && w.f[c].given == w.p.Given(c, r) && w.f[c].result.None? && w.f[c].callback == Some(r)
      && w.f[c].waitCount == Unfinished(w.ph, Group(w.p, c, r)) + (if mood == Late(c) then 1 else 0)
      && (w.p.rounds[c][r].Yield? || w.f[c].waitCount > 0 || mood == Ready(c))
    case Done => w.f[c].result == Some(w.p.Eval(c))
  }

  ghost function Group<V>(p: Program<V>, c: nat, r: nat): (ms: seq<nat>)
    requires p.WellFormed() && p.Has(c, r)
    ensures ms == p.Members(c, r) && forall i :: 0 <= i < |ms| ==> ms[i] < |p.rounds|
  {
    assert forall i: nat | i < |p.Members(c, r)| :: p.StartedAt(c, r, i) && p.Members(c, r)[i] < |p.rounds|;
    p.Members(c, r)
  }

  /** A coroutine and the one that starts it: nothing is started early, and nothing is left behind. */
  ghost predicate Linked<V>(w: World<V>, m: nat)
    requires Sized(w) && 0 < m < |w.f|
  {
    assert w.p.HomeOf(m);
    var h := w.p.home[m];
    match w.ph[h.owner]
    case Unstarted => w.ph[m] == Unstarted
    case Running(r) => (h.round < r ==> w.ph[m] == Done) && (h.round > r ==> w.ph[m] == Unstarted)
    case Suspended(r) =>
      (h.round < r ==> w.ph[m] == Done) && (h.round > r ==> w.ph[m] == Unstarted)
      && (h.round == r ==> w.ph[m] != Unstarted && (w.ph[m] != Done ==> w.f[m].parent == Some(h.owner)))
    case Done => w.ph[m] == Done
  }

  function Position<V>(w: World<V>, c: nat): nat
    requires |w.ph| == |w.p.rounds| && c < |w.ph|
  {
    match w.ph[c]
    case Unstarted => 0
    case Running(r) => r
    case Suspended(r) => r
    case Done => |w.p.rounds[c]|
  }

  /** An event belongs to the past exactly when the phases say so. */
  ghost predicate Happened<V>(w: World<V>, e: Event)
    requires |w.ph| == |w.p.rounds|
  {
    match e
    case Continued(c, r) => w.p.Has(c, r) && r < Position(w, c)
    case Finished(c) => c < |w.ph| && w.ph[c] == Done
  }

  /** A coroutine goes on only after all the coroutines it awaited have finished. */
  ghost predicate After<V>(p: Program<V>, trace: seq<Event>, i: nat)
    requires i < |trace|
  {
    match trace[i]
    case Continued(c, r) => p.Has(c, r) && forall m | m in p.Members(c, r) :: Finished(m) in trace[..i]
    case Finished(c) => c < |p.rounds| && forall r: nat | r < |p.rounds[c]| :: Continued(c, r) in trace[..i]
  }

  ghost predicate Distinct(trace: seq<Event>) {
    forall i, j :: 0 <= i < j < |trace| ==> trace[i] != trace[j]
  }

  ghost predicate Traced<V>(w: World<V>)
    requires |w.ph| == |w.p.rounds|
  {
    match w
    case World(p, _, _, trace) =>
      Distinct(trace) && (forall e :: e in trace <==> Happened(w, e))
      && (forall i: nat | i < |trace| :: After(p, trace, i))
  }

  ghost predicate AllFit<V>(w: World<V>, mood: Mood)
    requires Sized(w)
  {
    forall c: nat | c < |w.f| :: Fits(w, c, mood)
  }

  ghost predicate AllLinked<V>(w: World<V>)
    requires Sized(w)
  {
    forall m: nat | 0 < m < |w.f| :: Linked(w, m)
  }

  ghost predicate Good<V>(w: World<V>, mood: Mood) {
    match w
    case World(_, f, _, _) =>
      Sized(w) && AllFit(w, mood) && AllLinked(w) && Traced(w)
      && (f[0].parent.None?) && (mood.Late? || mood.Ready? ==> mood.c < |f| && w.ph[mood.c].Suspended?)
  }

  // ----- Counting -----

  lemma {:induction false} UnfinishedSame(a: seq<Phase>, b: seq<Phase>, ms: seq<nat>)
    requires |a| == |b| && forall i :: 0 <= i < |ms| ==> ms[i] < |a| && (a[ms[i]].Done? <==> b[ms[i]].Done?)
    ensures Unfinished(a, ms) == Unfinished(b, ms)
  {
    if ms != [] {
      UnfinishedSame(a, b, ms[1..]);
    }
  }

  lemma {:induction false} UnfinishedOneLess(a: seq<Phase>, b: seq<Phase>, ms: seq<nat>, k: nat)
    requires |a| == |b| && forall i :: 0 <= i < |ms| ==> ms[i] < |a|
    requires k < |ms| && !a[ms[k]].Done? && b[ms[k]].Done?
    requires forall i :: 0 <= i < |ms| && i != k ==> (a[ms[i]].Done? <==> b[ms[i]].Done?)
    ensures Unfinished(a, ms) == Unfinished(b, ms) + 1
  {
    if k == 0 {
      UnfinishedSame(a, b, ms[1..]);
    } else {
      UnfinishedOneLess(a, b, ms[1..], k - 1);
    }
  }

  lemma {:induction false} UnfinishedNone(ph: seq<Phase>, ms: seq<nat>)
    requires forall i :: 0 <= i < |ms| ==> ms[i] < |ph|
    ensures Unfinished(ph, ms) == 0 <==> forall i :: 0 <= i < |ms| ==> ph[ms[i]].Done?
  {
    if ms != [] {
      UnfinishedNone(ph, ms[1..]);
      assert forall i :: 0 < i < |ms| ==> ms[i] == ms[1..][i - 1];
      if Unfinished(ph, ms) == 0 {
        forall i | 0 <= i < |ms| ensures ph[ms[i]].Done? {
          if i > 0 { assert ms[i] == ms[1..][i - 1]; }
        }
      }
    }
  }

  lemma {:induction false} UnfinishedSnoc(ph: seq<Phase>, ms: seq<nat>, m: nat)
    requires (forall i :: 0 <= i < |ms| ==> ms[i] < |ph|) && m < |ph|
    ensures Unfinished(ph, ms + [m]) == Unfinished(ph, ms) + if ph[m].Done? then 0 else 1
  {
    if ms != [] {
      assert (ms + [m])[1..] == ms[1..] + [m];
      UnfinishedSnoc(ph, ms[1..], m);
    }
  }

  // ----- Steps -----

  /** The body of `c` starts to run. */
  ghost function Begin<V>(w: World<V>, c: nat): World<V>
    requires Sized(w) && c < |w.f|
  {
    w.(ph := w.ph[c := Running(0)])
  }

  /** `c` waits for `n` coroutines and will continue after round `r`. */
  ghost function Suspend<V>(w: World<V>, c: nat, r: nat, n: nat): World<V>
    requires Sized(w) && c < |w.f|
  {
    w.(f := w.f[c := w.f[c].(waitCount := n, callback := Some(r))], ph := w.ph[c := Suspended(r)])
  }

  /** The callback of `c` is called. */
  ghost function Wake<V>(w: World<V>, c: nat, r: nat): World<V>
    requires Sized(w) && c < |w.f|
  {
    w.(ph := w.ph[c := Running(r)])
  }

  /** `c` goes on after round `r`, which gave it `values`. */
  ghost function Pass<V>(w: World<V>, c: nat, r: nat, values: seq<V>): World<V>
    requires Sized(w) && c < |w.f|
  {
    w.(f := w.f[c := w.f[c].(given := w.f[c].given + [values])], ph := w.ph[c := Running(r + 1)],
       trace := w.trace + [Continued(c, r)])
  }

  ghost function Finish<V>(w: World<V>, c: nat): World<V>
    requires Sized(w) && c < |w.f|
  {
    w.(f := w.f[c := w.f[c].(result := Some(w.p.combine(c, w.f[c].given)))], ph := w.ph[c := Done],
       trace := w.trace + [Finished(c)])
  }

  ghost function Recount<V>(w: World<V>, c: nat, n: nat): World<V>
    requires Sized(w) && c < |w.f|
  {
    w.(f := w.f[c := w.f[c].(waitCount := n)])
  }

  ghost function Adopt<V>(w: World<V>, m: nat, c: nat): World<V>
    requires Sized(w) && m < |w.f|
  {
    w.(f := w.f[m := w.f[m].(parent := Some(c))])
  }

  // ----- What a step that touches one coroutine keeps -----

  ghost predicate Touches<V>(w: World<V>, v: World<V>, c: nat) {
    v.p == w.p && Sized(w) && |v.f| == |w.f| && |v.ph| == |w.ph| && c < |w.f|
    && forall d :: 0 <= d < |w.f| && d != c ==> v.f[d] == w.f[d] && v.ph[d] == w.ph[d]
  }

  lemma GroupSame<V>(w: World<V>, v: World<V>, c: nat, d: nat, r: nat)
    requires Touches(w, v, c) && (w.ph[c].Done? <==> v.ph[c].Done?) && w.p.Has(d, r)
    ensures Unfinished(v.ph, Group(v.p, d, r)) == Unfinished(w.ph, Group(w.p, d, r))
  {
    UnfinishedSame(w.ph, v.ph, Group(w.p, d, r));
  }

  lemma OthersFit<V>(w: World<V>, v: World<V>, c: nat, mood: Mood, mood': Mood)
    requires Touches(w, v, c) && (w.ph[c].Done? <==> v.ph[c].Done?) && AllFit(w, mood) && Fits(v, c, mood')
    requires mood' != mood ==> (mood == Calm || mood.c == c) && (mood' == Calm || mood'.c == c)
    ensures AllFit(v, mood')
  {
    forall d: nat | d < |v.f| ensures Fits(v, d, mood') {
      if d != c {
        assert Fits(w, d, mood);
        if w.ph[d].Suspended? {
          GroupSame(w, v, c, d, w.ph[d].round);
        }
      }
    }
  }

  lemma OthersLinked<V>(w: World<V>, v: World<V>, c: nat)
    requires Touches(w, v, c) && AllLinked(w) && (c > 0 ==> Linked(v, c))
    requires forall m: nat | 0 < m < |w.f| && w.p.home[m].owner == c :: Linked(v, m)
    ensures AllLinked(v)
  {
    forall m: nat | 0 < m < |v.f| ensures Linked(v, m) {
      assert Linked(w, m) && w.p.HomeOf(m);
    }
  }

  lemma TracedSame<V>(w: World<V>, v: World<V>, c: nat)
    requires Touches(w, v, c) && Traced(w) && v.trace == w.trace
    requires Position(v, c) == Position(w, c) && (w.ph[c] == Done <==> v.ph[c] == Done)
    ensures Traced(v)
  {
    forall e ensures e in v.trace <==> Happened(v, e) {
      assert Happened(w, e) <==> Happened(v, e);
    }
  }

  lemma TracedMore<V>(w: World<V>, v: World<V>, e: Event)
    requires Sized(w) && Traced(w) && v.p == w.p && |v.ph| == |w.ph| && v.trace == w.trace + [e] && !Happened(w, e)
    requires forall x :: Happened(v, x) <==> Happened(w, x) || x == e
    requires After(v.p, v.trace, |w.trace|)
    ensures Traced(v)
  {
    forall i: nat | i < |v.trace| ensures After(v.p, v.trace, i) {
      if i < |w.trace| {
        assert After(w.p, w.trace, i);
        assert v.trace[..i] == w.trace[..i];
      }
    }
    assert Distinct(v.trace) by {
      forall i, j | 0 <= i < j < |v.trace| ensures v.trace[i] != v.trace[j] {
        assert v.trace[i] == w.trace[i] && w.trace[i] in w.trace;
      }
    }
    forall x ensures x in v.trace <==> Happened(v, x) {
    }
  }

  // ----- What each step keeps -----

  lemma BeginKeeps<V>(w: World<V>, c: nat)
    requires Good(w, Calm) && c < |w.f| && w.ph[c] == Unstarted
    requires c > 0 ==> w.p.HomeOf(c) && w.ph[w.p.home[c].owner] == Running(w.p.home[c].round)
    ensures Good(Begin(w, c), Calm)
  {
    var v := Begin(w, c);
    assert Fits(w, c, Calm);
    OthersFit(w, v, c, Calm, Calm);
    forall m: nat | 0 < m < |w.f| && w.p.home[m].owner == c ensures Linked(v, m) {
      assert Linked(w, m) && w.p.HomeOf(m);
    }
    OthersLinked(w, v, c);
    TracedSame(w, v, c);
  }

  /** The children of round `r` of `c` have been started, know their parent and are not running. */
  ghost predicate AllStarted<V>(w: World<V>, c: nat, r: nat, n: nat)
    requires Sized(w) && w.p.Has(c, r) && n <= |w.p.Members(c, r)|
  {
    forall i :: 0 <= i < n ==> StartedChild(w, Group(w.p, c, r)[i], c)
  }

  ghost predicate StartedChild<V>(w: World<V>, m: nat, c: nat)
    requires Sized(w) && m < |w.f|
  {
    w.ph[m] != Unstarted && !w.ph[m].Running? && (w.ph[m] != Done ==> w.f[m].parent == Some(c))
  }

  lemma SuspendKeeps<V>(w: World<V>, c: nat, r: nat, n: nat)
    requires Good(w, Calm) && w.p.Has(c, r) && w.ph[c] == Running(r)
    requires AllStarted(w, c, r, |w.p.Members(c, r)|) && n == Unfinished(w.ph, Group(w.p, c, r))
    requires w.p.rounds[c][r].Yield? || n > 0
    ensures Good(Suspend(w, c, r, n), Calm)
  {
    var v := Suspend(w, c, r, n);
    assert Fits(w, c, Calm);
    GroupSame(w, v, c, c, r);
    OthersFit(w, v, c, Calm, Calm);
    forall m: nat | 0 < m < |w.f| && w.p.home[m].owner == c ensures Linked(v, m) {
      assert Linked(w, m) && w.p.HomeOf(m);
      var h := w.p.home[m];
      if h.round == r {
        assert StartedChild(w, Group(w.p, c, r)[h.index], c);
      }
    }
    if c > 0 { assert Linked(w, c) && w.p.HomeOf(c); }
    OthersLinked(w, v, c);
    TracedSame(w, v, c);
  }

  ghost predicate AllDone<V>(w: World<V>, c: nat, r: nat)
    requires Sized(w) && w.p.Has(c, r)
  {
    forall i :: 0 <= i < |w.p.Members(c, r)| ==> w.ph[Group(w.p, c, r)[i]] == Done
  }

  lemma WakeKeeps<V>(w: World<V>, c: nat, r: nat, mood: Mood)
    requires Good(w, mood) && (mood == Calm || mood == Ready(c)) && c < |w.f| && w.ph[c] == Suspended(r)
    requires w.f[c].waitCount == 0
    ensures Good(Wake(w, c, r), Calm) && w.p.Has(c, r) && AllDone(w, c, r)
  {
    var v := Wake(w, c, r);
    assert Fits(w, c, mood);
    GroupSame(w, v, c, c, r);
    UnfinishedNone(w.ph, Group(w.p, c, r));
    OthersFit(w, v, c, mood, Calm);
    forall m: nat | 0 < m < |w.f| && w.p.home[m].owner == c ensures Linked(v, m) {
      assert Linked(w, m) && w.p.HomeOf(m);
    }
    if c > 0 { assert Linked(w, c) && w.p.HomeOf(c); }
    OthersLinked(w, v, c);
    TracedSame(w, v, c);
  }

  lemma PassKeeps<V>(w: World<V>, c: nat, r: nat)
    requires Good(w, Calm) && w.p.Has(c, r) && w.ph[c] == Running(r)
    requires AllDone(w, c, r)
    ensures Good(Pass(w, c, r, w.p.Gives(c, r)), Calm)
  {
    var v := Pass(w, c, r, w.p.Gives(c, r));
    assert Fits(w, c, Calm);
    OthersFit(w, v, c, Calm, Calm);
    forall m: nat | 0 < m < |w.f| && w.p.home[m].owner == c ensures Linked(v, m) {
      assert Linked(w, m) && w.p.HomeOf(m);
      var h := w.p.home[m];
      if h.round == r {
        assert w.ph[Group(w.p, c, r)[h.index]] == Done;
      }
    }
    if c > 0 { assert Linked(w, c) && w.p.HomeOf(c); }
    OthersLinked(w, v, c);
    var e := Continued(c, r);
    forall m | m in w.p.Members(c, r) ensures Finished(m) in w.trace {
      var i :| 0 <= i < |w.p.Members(c, r)| && Group(w.p, c, r)[i] == m;
      assert Happened(w, Finished(m));
    }
    assert v.trace[..|w.trace|] == w.trace;
    TracedMore(w, v, e);
  }

  /** The mood after `c` has finished: its parent is late if it is suspended. */
  ghost function MoodAfter<V>(w: World<V>, c: nat): Mood
    requires Sized(w) && c < |w.f|
  {
    if c == 0 then Calm
    else
      assert w.p.HomeOf(c);
      if w.ph[w.p.home[c].owner].Suspended? then Late(w.p.home[c].owner) else Calm
  }

  lemma FinishKeeps<V>(w: World<V>, c: nat)
    requires Good(w, Calm) && c < |w.f| && w.ph[c] == Running(|w.p.rounds[c]|)
    ensures Good(Finish(w, c), MoodAfter(w, c))
  {
    var v := Finish(w, c);
    assert Fits(w, c, Calm);
    FinishFits(w, c);
    forall m: nat | 0 < m < |w.f| && w.p.home[m].owner == c ensures Linked(v, m) {
      assert Linked(w, m) && w.p.HomeOf(m);
    }
    if c > 0 { assert Linked(w, c) && w.p.HomeOf(c); }
    OthersLinked(w, v, c);
    forall r: nat | r < |w.p.rounds[c]| ensures Continued(c, r) in w.trace {
      assert Happened(w, Continued(c, r));
    }
    assert v.trace[..|w.trace|] == w.trace;
    TracedMore(w, v, Finished(c));
  }

  lemma FinishedMood<V>(w: World<V>, c: nat)
    requires Sized(w) && c < |w.f|
    ensures MoodAfter(Finish(w, c), c) == MoodAfter(w, c)
  {
    if c > 0 { assert w.p.HomeOf(c); }
  }

  lemma FinishFits<V>(w: World<V>, c: nat)
    requires Good(w, Calm) && c < |w.f| && w.ph[c] == Running(|w.p.rounds[c]|)
    ensures AllFit(Finish(w, c), MoodAfter(w, c))
  {
    var v := Finish(w, c);
    var mood := MoodAfter(w, c);
    assert Fits(w, c, Calm);
    forall d: nat | d < |v.f| ensures Fits(v, d, mood) {
      if d != c {
        assert Fits(w, d, Calm);
        if w.ph[d].Suspended? {
          FinishCounts(w, c, d, w.ph[d].round);
        }
      }
    }
  }

  /** Only the parent has one unfinished child less. */
  lemma FinishCounts<V>(w: World<V>, c: nat, d: nat, r: nat)
    requires Good(w, Calm) && c < |w.f| && w.ph[c].Running? && d < |w.f| && d != c && w.ph[d] == Suspended(r)
    requires w.p.Has(d, r)
    ensures Unfinished(w.ph, Group(w.p, d, r))
      == Unfinished(Finish(w, c).ph, Group(w.p, d, r)) + if MoodAfter(w, c) == Late(d) then 1 else 0
  {
    var v := Finish(w, c);
    var ms := Group(w.p, d, r);
    if c > 0 && w.p.home[c].owner == d {
      assert Linked(w, c) && w.p.HomeOf(c);
      var k := w.p.home[c].index;
      assert w.p.home[c].round == r;
      forall i | 0 <= i < |ms| && i != k ensures ms[i] != c {
        assert w.p.StartedAt(d, r, i);
      }
      UnfinishedOneLess(w.ph, v.ph, ms, k);
    } else {
      forall i: nat | i < |ms| ensures ms[i] != c {
        assert w.p.StartedAt(d, r, i);
      }
      UnfinishedSame(w.ph, v.ph, ms);
    }
  }

  lemma CountDownKeeps<V>(w: World<V>, c: nat)
    requires Good(w, Late(c))
    ensures w.f[c].waitCount > 0
    ensures Good(Recount(w, c, w.f[c].waitCount - 1), if w.f[c].waitCount == 1 then Ready(c) else Calm)
  {
    assert Fits(w, c, Late(c));
    var v := Recount(w, c, w.f[c].waitCount - 1);
    var mood := if w.f[c].waitCount == 1 then Ready(c) else Calm;
    OthersFit(w, v, c, Late(c), mood);
    KeepsParents(w, v, c);
  }

  lemma RecountKeeps<V>(w: World<V>, c: nat, n: nat)
    requires Good(w, Calm) && c < |w.f| && w.ph[c].Running?
    ensures Good(Recount(w, c, n), Calm)
  {
    assert Fits(w, c, Calm);
    var v := Recount(w, c, n);
    OthersFit(w, v, c, Calm, Calm);
    KeepsParents(w, v, c);
  }

  lemma KeepsParents<V>(w: World<V>, v: World<V>, c: nat)
    requires Touches(w, v, c) && v.ph == w.ph && v.f[c].parent == w.f[c].parent && v.trace == w.trace
    requires AllLinked(w) && Traced(w)
    ensures AllLinked(v) && Traced(v)
  {
    forall m: nat | 0 < m < |v.f| ensures Linked(v, m) {
      assert Linked(w, m) && w.p.HomeOf(m);
    }
    TracedSame(w, v, c);
  }

  lemma AdoptKeeps<V>(w: World<V>, m: nat)
    requires Good(w, Calm) && 0 < m < |w.f| && w.p.HomeOf(m) && w.ph[m] != Unstarted
    ensures Good(Adopt(w, m, w.p.home[m].owner), Calm)
  {
    var v := Adopt(w, m, w.p.home[m].owner);
    assert Fits(w, m, Calm);
    if w.ph[m].Suspended? {
      GroupSame(w, v, m, m, w.ph[m].round);
    }
    OthersFit(w, v, m, Calm, Calm);
    assert Linked(w, m);
    forall d: nat | 0 < d < |w.f| && w.p.home[d].owner == m ensures Linked(v, d) {
      assert Linked(w, d) && w.p.HomeOf(d);
    }
    OthersLinked(w, v, m);
    TracedSame(w, v, m);
  }

  // ----- Whole runs -----

  ghost predicate Quiet<V>(w: World<V>) {
    forall c :: 0 <= c < |w.ph| ==> !w.ph[c].Running?
  }

  /** A coroutine that yielded and may be resumed from outside. */
  predicate Pending<V>(w: World<V>, c: nat) {
    c < |w.ph| && w.ph[c].Suspended? && w.p.Has(c, w.ph[c].round) && w.p.rounds[c][w.ph[c].round].Yield?
  }

  /** While a coroutine waits, some coroutine below it can be resumed. */
  lemma {:induction false} Progress<V>(w: World<V>, c: nat) returns (d: nat)
    requires Good(w, Calm) && Quiet(w) && c < |w.f| && w.ph[c].Suspended?
    ensures Pending(w, d)
    decreases |w.f| - c
  {
    assert Fits(w, c, Calm);
    var r := w.ph[c].round;
    if w.p.rounds[c][r].Yield? {
      d := c;
    } else {
      var ms := Group(w.p, c, r);
      UnfinishedNone(w.ph, ms);
      var i: nat :| i < |ms| && !w.ph[ms[i]].Done?;
      assert w.p.StartedAt(c, r, i) && Linked(w, ms[i]);
      d := Progress(w, ms[i]);
    }
  }

  /** When the root has finished, everything has. */
  lemma {:induction false} EverythingDone<V>(w: World<V>, c: nat)
    requires Good(w, Calm) && w.ph[0] == Done && c < |w.f|
    ensures w.ph[c] == Done
    decreases c
  {
    if c > 0 {
      assert Linked(w, c) && w.p.HomeOf(c);
      EverythingDone(w, w.p.home[c].owner);
    }
  }

  ghost function AllEvents<V>(p: Program<V>): set<Event> {
    (set c: nat, r: nat | c < |p.rounds| && r < |p.rounds[c]| :: Continued(c, r))
    + (set c: nat | c < |p.rounds| :: Finished(c))
  }

  /** They are one continuation for each round of each coroutine and one end for each coroutine. */
  lemma AllEventsAre<V>(p: Program<V>, c: nat, r: nat)
    ensures Continued(c, r) in AllEvents(p) <==> c < |p.rounds| && r < |p.rounds[c]|
    ensures Finished(c) in AllEvents(p) <==> c < |p.rounds|
  {
  }

  /** No run has more events than the program has places. */
  lemma TraceBound<V>(w: World<V>)
    requires Sized(w) && Traced(w)
    ensures |w.trace| <= |AllEvents(w.p)|
  {
    forall i | 0 <= i < |w.trace| ensures w.trace[i] in AllEvents(w.p) {
      assert w.trace[i] in w.trace;
      assert Happened(w, w.trace[i]);
    }
    DistinctSize(w.trace, AllEvents(w.p));
  }

  lemma {:induction false} DistinctSize(trace: seq<Event>, events: set<Event>)
    requires Distinct(trace) && forall i :: 0 <= i < |trace| ==> trace[i] in events
    ensures |trace| <= |events|
  {
    if trace != [] {
      var n := |trace| - 1;
      DistinctSize(trace[..n], events - {trace[n]});
    }
  }

  /** At the end every await of every coroutine was continued exactly once, after all it awaited had finished, and
      every result is that of sequential evaluation. */
  lemma Completed<V>(w: World<V>)
    requires Good(w, Calm) && w.ph[0] == Done
    ensures forall e :: e in AllEvents(w.p) <==> e in w.trace
    ensures Distinct(w.trace) && (forall i: nat | i < |w.trace| :: After(w.p, w.trace, i))
    ensures forall c: nat | c < |w.f| :: w.f[c].result == Some(w.p.Eval(c))
  {
    forall c: nat | c < |w.f| ensures w.ph[c] == Done && w.f[c].result == Some(w.p.Eval(c)) {
      EverythingDone(w, c);
      assert Fits(w, c, Calm);
    }
    forall e ensures e in AllEvents(w.p) <==> e in w.trace {
      assert e in w.trace <==> Happened(w, e);
    }
  }

  // ----- What running one coroutine leaves alone -----

  /** Coroutines that had started stay as they were, but for `c`; so do those whose starter had started. */
  ghost predicate OnlyBelow<V>(w: World<V>, v: World<V>, c: nat) {
    && Sized(w) && v.p == w.p && |v.f| == |w.f| && |v.ph| == |w.ph| && w.trace <= v.trace
    && (forall d :: 0 <= d < |w.f| && d != c && w.ph[d] != Unstarted ==> v.f[d] == w.f[d] && v.ph[d] == w.ph[d])
    && (forall d :: 0 < d < |w.f| && d != c ==> KeptBack(w, v, c, d))
    && (forall d :: 0 <= d < |w.f| && d != c && w.ph[d] == Unstarted ==> !v.ph[d].Running?)
  }

  ghost predicate KeptBack<V>(w: World<V>, v: World<V>, c: nat, d: nat)
    requires Sized(w) && |v.f| == |w.f| && |v.ph| == |w.ph| && 0 < d < |w.f|
  {
    assert w.p.HomeOf(d);
    w.p.home[d].owner != c && w.ph[w.p.home[d].owner] != Unstarted ==> v.f[d] == w.f[d] && v.ph[d] == w.ph[d]
  }

  lemma OnlyBelowStep<V>(w: World<V>, v: World<V>, c: nat)
    requires Touches(w, v, c) && w.trace <= v.trace
    ensures OnlyBelow(w, v, c)
  {
  }

  lemma OnlyBelowThen<V>(u: World<V>, w: World<V>, v: World<V>, c: nat)
    requires OnlyBelow(u, w, c) && OnlyBelow(w, v, c) && c < |u.f|
    requires u.ph[c] != Unstarted ==> w.ph[c] != Unstarted
    ensures OnlyBelow(u, v, c)
  {
    forall d | 0 < d < |u.f| && d != c ensures KeptBack(u, v, c, d) {
      assert KeptBack(u, w, c, d) && KeptBack(w, v, c, d) && u.p.HomeOf(d);
    }
  }

  /** Starting a child of `c` is running `c`. */
  lemma OnlyBelowChild<V>(w: World<V>, v: World<V>, c: nat, m: nat)
    requires OnlyBelow(w, v, m) && 0 < m < |w.f| && w.p.home[m].owner == c && c != m && w.ph[m] == Unstarted
    requires !v.ph[m].Running?
    ensures OnlyBelow(w, v, c)
  {
    forall d | 0 < d < |w.f| && d != c ensures KeptBack(w, v, c, d) {
      if d != m { assert KeptBack(w, v, m, d) && w.p.HomeOf(d); }
    }
  }

  ghost predicate Startable<V>(w: World<V>, c: nat) {
    Sized(w) && c < |w.f| && w.ph[c] == Unstarted
    && (c > 0 ==> w.p.HomeOf(c) && w.ph[w.p.home[c].owner] == Running(w.p.home[c].round))
  }

  /** The first `n` members of round `r` of `c` are started and the others are not. */
  ghost predicate PartStarted<V>(w: World<V>, c: nat, r: nat, n: nat) {
    && Sized(w) && w.p.Has(c, r) && n <= |w.p.Members(c, r)| && AllStarted(w, c, r, n)
    && forall i :: n <= i < |w.p.Members(c, r)| ==> w.ph[Group(w.p, c, r)[i]] == Unstarted
  }

  lemma FreshGood<V>(w: World<V>)
    requires Sized(w) && w.trace == []
    requires forall c: nat | c < |w.f| :: w.f[c] == Frame(None, 0, None, [], None) && w.ph[c] == Unstarted
    ensures Good(w, Calm)
  {
    assert AllFit(w, Calm);
    forall m: nat | 0 < m < |w.f| ensures Linked(w, m) {
      assert w.p.HomeOf(m);
    }
  }

  lemma StartedBlank<V>(w: World<V>, c: nat)
    requires Good(w, Calm) && c < |w.f| && w.ph[c] == Unstarted
    ensures w.f[c].waitCount == 0
  {
    assert Fits(w, c, Calm);
  }

  lemma RunningMeans<V>(w: World<V>, c: nat)
    requires Good(w, Calm) && c < |w.f| && w.ph[c].Running?
    ensures w.ph[c].round <= |w.p.rounds[c]|
  {
    assert Fits(w, c, Calm);
  }

  /** Nothing of round `r` of `c` is started yet. */
  ghost predicate Ahead<V>(w: World<V>, c: nat, r: nat) {
    Sized(w) && (w.p.Has(c, r) ==> PartStarted(w, c, r, 0))
  }

  lemma BeginAhead<V>(w: World<V>, c: nat)
    requires Good(w, Calm) && c < |w.f| && w.ph[c] == Unstarted
    ensures Ahead(Begin(w, c), c, 0)
  {
    if w.p.Has(c, 0) {
      forall i: nat | i < |w.p.Members(c, 0)| ensures Begin(w, c).ph[Group(w.p, c, 0)[i]] == Unstarted {
        assert w.p.StartedAt(c, 0, i) && Linked(w, Group(w.p, c, 0)[i]);
      }
    }
  }

  lemma PassAhead<V>(w: World<V>, c: nat, r: nat, values: seq<V>)
    requires Good(w, Calm) && w.p.Has(c, r) && w.ph[c] == Running(r)
    ensures Ahead(Pass(w, c, r, values), c, r + 1)
  {
    if w.p.Has(c, r + 1) {
      var v, ms := Pass(w, c, r, values), Group(w.p, c, r + 1);
      forall i: nat | i < |ms| ensures v.ph[ms[i]] == Unstarted {
        assert w.p.StartedAt(c, r + 1, i) && Linked(w, ms[i]);
      }
    }
  }

  lemma SamePart<V>(w: World<V>, v: World<V>, c: nat, r: nat, n: nat)
    requires PartStarted(w, c, r, n) && Touches(w, v, c) && v.ph == w.ph
    ensures PartStarted(v, c, r, n)
  {
    forall i | 0 <= i < n ensures StartedChild(v, Group(v.p, c, r)[i], c) {
      assert StartedChild(w, Group(w.p, c, r)[i], c) && w.p.StartedAt(c, r, i);
    }
  }

  lemma ChildStartable<V>(w: World<V>, c: nat, r: nat, i: nat)
    requires PartStarted(w, c, r, i) && w.ph[c] == Running(r) && i < |w.p.Members(c, r)|
    ensures Startable(w, Group(w.p, c, r)[i]) && c < Group(w.p, c, r)[i]
    ensures w.p.home[Group(w.p, c, r)[i]] == Home(c, r, i)
  {
    assert w.p.StartedAt(c, r, i);
    assert w.p.HomeOf(Group(w.p, c, r)[i]);
  }

  lemma OnlyBelowAdopted<V>(u: World<V>, w: World<V>, v: World<V>, c: nat, m: nat)
    requires OnlyBelow(u, w, c) && Touches(w, v, m) && v.ph == w.ph && v.trace == w.trace
    requires 0 < m < |u.f| && u.p.home[m].owner == c && c != m && u.ph[m] == Unstarted
    ensures OnlyBelow(u, v, c)
  {
    forall d | 0 < d < |u.f| && d != c ensures KeptBack(u, v, c, d) {
      if d != m { assert KeptBack(u, w, c, d); }
    }
  }

  lemma OneMoreStarted<V>(w: World<V>, t: World<V>, v: World<V>, c: nat, r: nat, i: nat)
    requires PartStarted(w, c, r, i) && w.ph[c] == Running(r) && i < |w.p.Members(c, r)|
    requires OnlyBelow(w, t, Group(w.p, c, r)[i]) && Touches(t, v, Group(w.p, c, r)[i])
    requires StartedChild(v, Group(w.p, c, r)[i], c)
    ensures PartStarted(v, c, r, i + 1)
    ensures var ms := Group(w.p, c, r);
      Unfinished(v.ph, ms[..i + 1]) == Unfinished(w.ph, ms[..i]) + if v.ph[ms[i]].Done? then 0 else 1
  {
    var ms := Group(w.p, c, r);
    forall k: nat | k < |ms| && k != i ensures v.f[ms[k]] == w.f[ms[k]] && v.ph[ms[k]] == w.ph[ms[k]] {
      SiblingKept(w, t, c, r, i, k);
    }
    forall k: nat | k < i + 1 ensures StartedChild(v, ms[k], c) {
      if k < i { assert StartedChild(w, ms[k], c); }
    }
    UnfinishedSame(w.ph, v.ph, ms[..i]);
    assert ms[..i + 1] == ms[..i] + [ms[i]];
    UnfinishedSnoc(v.ph, ms[..i], ms[i]);
  }

  lemma SiblingKept<V>(w: World<V>, t: World<V>, c: nat, r: nat, i: nat, k: nat)
    requires Sized(w) && w.p.Has(c, r) && w.ph[c] == Running(r) && i < |w.p.Members(c, r)| && k < |w.p.Members(c, r)|
    requires k != i
    requires OnlyBelow(w, t, Group(w.p, c, r)[i])
    ensures var m := Group(w.p, c, r)[k]; m != Group(w.p, c, r)[i] && t.f[m] == w.f[m] && t.ph[m] == w.ph[m]
  {
    var m := Group(w.p, c, r)[k];
    assert w.p.StartedAt(c, r, k) && w.p.StartedAt(c, r, i);
    assert KeptBack(w, t, Group(w.p, c, r)[i], m);
  }

  lemma NoneUnfinished<V>(w: World<V>, c: nat, r: nat)
    requires Sized(w) && w.p.Has(c, r) && Unfinished(w.ph, Group(w.p, c, r)) == 0
    ensures AllDone(w, c, r)
  {
    UnfinishedNone(w.ph, Group(w.p, c, r));
  }

  function ResultsOf<V>(f: seq<Frame<V>>, ms: seq<nat>): seq<V>
    requires forall i :: 0 <= i < |ms| ==> ms[i] < |f| && f[ms[i]].result.Some?
  {
    seq(|ms|, i requires 0 <= i < |ms| => f[ms[i]].result.value)
  }

  /** What `c` reads from its children after round `r` is what sequential evaluation gives it. */
  lemma ReadsRight<V>(w: World<V>, c: nat, r: nat)
    requires Good(w, Calm) && w.p.Has(c, r) && AllDone(w, c, r)
    ensures var ms := w.p.Members(c, r);
      forall i :: 0 <= i < |ms| ==> ms[i] < |w.f| && w.f[ms[i]].result.Some?
    ensures !w.p.rounds[c][r].Yield? ==> ResultsOf(w.f, w.p.Members(c, r)) == w.p.Gives(c, r)
  {
    var ms := Group(w.p, c, r);
    forall i: nat | i < |ms| ensures ms[i] < |w.f| && w.f[ms[i]].result == Some(w.p.Eval(ms[i])) {
      assert w.p.StartedAt(c, r, i) && Fits(w, ms[i], Calm);
    }
  }

  // ----- What `resume` relies on -----

  lemma QuietBelow<V>(w: World<V>, v: World<V>, c: nat)
    requires OnlyBelow(w, v, c) && c < |v.ph| && !v.ph[c].Running?
    requires forall d :: 0 <= d < |w.ph| && d != c ==> !w.ph[d].Running?
    ensures Quiet(v)
  {
  }

  lemma SuspendedMeans<V>(w: World<V>, c: nat, mood: Mood)
    requires Good(w, mood) && c < |w.f| && w.ph[c].Suspended?
    ensures w.f[c].callback == Some(w.ph[c].round) && w.p.Has(c, w.ph[c].round)
    ensures Pending(w, c) && mood != Late(c) ==> w.f[c].waitCount == 0
  {
    assert Fits(w, c, mood);
  }

  /** A coroutine that waits knows its parent, and the parent waits too. */
  lemma ParentWaits<V>(w: World<V>, c: nat, mood: Mood)
    requires Good(w, mood) && Quiet(w) && c < |w.f| && w.ph[c].Suspended?
    ensures c == 0 ==> w.f[c].parent == None
    ensures c > 0 ==> w.p.HomeOf(c) && w.f[c].parent == Some(w.p.home[c].owner) && w.ph[w.p.home[c].owner].Suspended?
  {
    if c > 0 {
      assert Linked(w, c) && w.p.HomeOf(c);
    }
  }

  /** What the runtime itself can tell: `c` yielded. */
  predicate Resumable<V>(f: seq<Frame<V>>, c: nat) {
    c < |f| && f[c].result.None? && f[c].callback.Some? && f[c].waitCount == 0
  }

  lemma ResumableMeans<V>(w: World<V>, c: nat)
    requires Good(w, Calm) && Quiet(w)
    ensures Resumable(w.f, c) <==> Pending(w, c)
  {
    if c < |w.f| {
      assert Fits(w, c, Calm);
    }
  }

  /** From what it was given so far, a coroutine decides on the round that the tree has for it. */
  lemma NextRound<V>(w: World<V>, c: nat, mood: Mood)
    requires Good(w, mood) && w.p.Decides() && c < |w.f| && (w.ph[c].Running? || w.ph[c].Suspended?)
    ensures w.p.next(c, w.f[c].given) == if w.p.Has(c, w.ph[c].round) then Some(w.p.rounds[c][w.ph[c].round]) else None
  {
    assert Fits(w, c, mood) && w.p.DecidesAt(c, w.ph[c].round);
  }

  lemma RootResult<V>(w: World<V>)
    requires Good(w, Calm) && Quiet(w) && w.ph[0] != Unstarted
    ensures w.f[0].result.None? ==> w.ph[0].Suspended?
    ensures w.f[0].result.Some? ==> w.ph[0] == Done
  {
    assert Fits(w, 0, Calm);
  }
}
