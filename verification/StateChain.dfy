/**
 The control-flow macros of `cort_proto.h`.

 A coroutine body written with CO_IF, CO_WHILE, CO_AWAIT and friends is a structured program.
 The macros expand it into a chain of states: small functions that end by tail-calling another
 state, by returning, or by recording the state to resume at and going back to the scheduler.
 This module defines the expansion, the machine that runs the chain, and the direct meaning of
 the structured program, and proves that the two agree.
 */
module StateChain {

  // ----- Structured programs -----

  datatype Leap = Break | Continue | Return

  datatype Stmt =
    | Plain(acts: seq<nat>)                             // C++ statements, possibly none
    | Await(e: nat)                                     // CO_AWAIT, CO_YIELD
    | AwaitIf(c: nat, e: nat)                           // CO_AWAIT_IF
    | If(chain: Branches)                               // CO_IF ... CO_IF_END
    | While(c: nat, step: seq<nat>, body: Block)        // CO_WHILE(c, step)
    | DoWhile(c: nat, step: seq<nat>, body: Block)      // CO_DO_WHILE(c, step)
    | Jump(leap: Leap)                                  // CO_BREAK, CO_CONTINUE, CO_RETURN
    | JumpIf(c: nat, leap: Leap)                        // the same under a C++ if

  /** CO_IF(c) body, closed by CO_IF_END, followed by CO_ELSE, or followed by CO_ELSE_IF. */
  datatype Branches =
    | Only(c: nat, body: Block)
    | OrElse(c: nat, body: Block, other: Block)
    | OrElseIf(c: nat, body: Block, rest: Branches)

  datatype Block = One(head: Stmt) | Then(head: Stmt, tail: Block)

  /** CO_BREAK and CO_CONTINUE name the class of the innermost loop, so they compile only inside one. */
  predicate WellScoped(b: Block, inLoop: bool) {
    WellScopedStmt(b.head, inLoop) && (b.Then? ==> WellScoped(b.tail, inLoop))
  }

  predicate WellScopedStmt(s: Stmt, inLoop: bool) {
    match s
    case If(chain) => WellScopedBranches(chain, inLoop)
    case While(_, _, body) => WellScoped(body, true)
    case DoWhile(_, _, body) => WellScoped(body, true)
    case Jump(leap) => leap.Return? || inLoop
    case JumpIf(_, leap) => leap.Return? || inLoop
    case _ => true
  }

  predicate WellScopedBranches(r: Branches, inLoop: bool) {
    WellScoped(r.body, inLoop) &&
    match r
    case Only(_, _) => true
    case OrElse(_, _, other) => WellScoped(other, inLoop)
    case OrElseIf(_, _, rest) => WellScopedBranches(rest, inLoop)
  }

  // ----- What the program acts on -----

  datatype Event = Did(a: nat) | Tested(c: nat) | Awaited(e: nat)

  /** The members of the coroutine class, and everything the coroutine has done so far. */
  datatype World<S> = World(store: S, trace: seq<Event>)

  /** Meaning of actions and conditions, and the behaviour of awaited coroutines: `sub(e, trace, store)`
      says whether the coroutine started by await `e` finishes at once, and the store once it has finished. Conditions
      may change the store. */
  datatype Env<!S> = Env(act: (nat, S) -> S, test: (nat, S) -> (bool, S), sub: (nat, seq<Event>, S) -> (bool, S))
  {
    function Act(a: nat, w: World<S>): World<S> {
      World(act(a, w.store), w.trace + [Did(a)])
    }

    function ActAll(acts: seq<nat>, w: World<S>): World<S> {
      if acts == [] then w else ActAll(acts[1..], Act(acts[0], w))
    }

    predicate Test(c: nat, w: World<S>) {
      test(c, w.store).0
    }

    function AfterTest(c: nat, w: World<S>): World<S> {
      World(test(c, w.store).1, w.trace + [Tested(c)])
    }

    predicate AtOnce(e: nat, w: World<S>) {
      sub(e, w.trace, w.store).0
    }

    function Complete(e: nat, w: World<S>): World<S> {
      World(sub(e, w.trace, w.store).1, w.trace + [Awaited(e)])
    }
  }

  // ----- Direct execution -----

  datatype Flow = Normal | Broke | Continued | Returned | OutOfFuel

  datatype Exit<S> = Exit(flow: Flow, w: World<S>, fuel: nat)

  /** Direct execution. `fuel` bounds the number of loop-backs; a run of any length is covered by some fuel. */
  function Exec<S>(env: Env<S>, b: Block, w: World<S>, fuel: nat): (x: Exit<S>)
    ensures x.fuel <= fuel
    decreases fuel, b, 0
  {
    var x := ExecStmt(env, b.head, w, fuel);
    if x.flow.Normal? && b.Then? then Exec(env, b.tail, x.w, x.fuel) else x
  }

  function ExecStmt<S>(env: Env<S>, s: Stmt, w: World<S>, fuel: nat): (x: Exit<S>)
    ensures x.fuel <= fuel
    decreases fuel, s, 0
  {
    match s
    case Plain(acts) => Exit(Normal, env.ActAll(acts, w), fuel)
    case Await(e) => Exit(Normal, env.Complete(e, w), fuel)
    case AwaitIf(c, e) =>
      var w' := env.AfterTest(c, w);
      Exit(Normal, if env.Test(c, w) then env.Complete(e, w') else w', fuel)
    case If(chain) => ExecBranches(env, chain, w, fuel)
    case While(c, step, body) =>
      var w' := env.AfterTest(c, w);
      if env.Test(c, w) then ExecLoop(env, c, step, body, w', fuel) else Exit(Normal, w', fuel)
    case DoWhile(c, step, body) => ExecLoop(env, c, step, body, w, fuel)
    case Jump(leap) => Exit(FlowOf(leap), w, fuel)
    case JumpIf(c, leap) => Exit(if env.Test(c, w) then FlowOf(leap) else Normal, env.AfterTest(c, w), fuel)
  }

  function FlowOf(leap: Leap): Flow {
    match leap
    case Break => Broke
    case Continue => Continued
    case Return => Returned
  }

  function ExecBranches<S>(env: Env<S>, r: Branches, w: World<S>, fuel: nat): (x: Exit<S>)
    ensures x.fuel <= fuel
    decreases fuel, r, 0
  {
    var w' := env.AfterTest(r.c, w);
    if env.Test(r.c, w) then Exec(env, r.body, w', fuel)
    else
      match r
      case Only(_, _) => Exit(Normal, w', fuel)
      case OrElse(_, _, other) => Exec(env, other, w', fuel)
      case OrElseIf(_, _, rest) => ExecBranches(env, rest, w', fuel)
  }

  /** One pass through the body, then the step and the test. `break` leaves this loop and no other. */
  function ExecLoop<S>(env: Env<S>, c: nat, step: seq<nat>, body: Block, w: World<S>, fuel: nat): (x: Exit<S>)
    ensures x.fuel <= fuel
    decreases fuel, body, 1
  {
    var x := Exec(env, body, w, fuel);
    match x.flow
    case Broke => x.(flow := Normal)
    case Returned => x
    case OutOfFuel => x
    case _ => LoopBack(env, c, step, body, x.w, x.fuel)
  }

  function LoopBack<S>(env: Env<S>, c: nat, step: seq<nat>, body: Block, w: World<S>, left: nat): (x: Exit<S>)
    ensures x.fuel <= left
    decreases left, body, 0
  {
    var w' := env.ActAll(step, w);
    var w'' := env.AfterTest(c, w');
    if !env.Test(c, w') then Exit(Normal, w'', left)
    else if left == 0 then Exit(OutOfFuel, w'', 0)
    else ExecLoop(env, c, step, body, w'', left - 1)
  }

  // ----- Laws of direct execution -----

  /** Actions run in order, each on what the ones before it left, and each leaves an event. */
  lemma {:induction false} ActsInOrder<S>(env: Env<S>, acts: seq<nat>, a: nat, w: World<S>)
    ensures env.ActAll([], w) == w
    ensures var v := env.ActAll(acts, w);
      env.ActAll(acts + [a], w) == World(env.act(a, v.store), v.trace + [Did(a)])
    decreases |acts|
  {
    if acts != [] {
      assert (acts + [a])[1..] == acts[1..] + [a];
      ActsInOrder(env, acts[1..], a, env.Act(acts[0], w));
    } else {
      assert ([] + [a])[1..] == [];
    }
  }

  /** Every test and every await leaves its event and its effect on the store. */
  lemma TestsAndAwaits<S>(env: Env<S>, c: nat, e: nat, w: World<S>)
    ensures env.Test(c, w) == env.test(c, w.store).0
    ensures env.AfterTest(c, w) == World(env.test(c, w.store).1, w.trace + [Tested(c)])
    ensures env.AtOnce(e, w) == env.sub(e, w.trace, w.store).0
    ensures env.Complete(e, w) == World(env.sub(e, w.trace, w.store).1, w.trace + [Awaited(e)])
  {
  }

  /** The statements without parts. */
  lemma SimpleLaws<S>(env: Env<S>, acts: seq<nat>, e: nat, w: World<S>, fuel: nat)
    ensures ExecStmt(env, Plain(acts), w, fuel) == Exit(Normal, env.ActAll(acts, w), fuel)
    ensures ExecStmt(env, Await(e), w, fuel) == Exit(Normal, env.Complete(e, w), fuel)
    ensures ExecStmt(env, Jump(Break), w, fuel) == Exit(Broke, w, fuel)
    ensures ExecStmt(env, Jump(Continue), w, fuel) == Exit(Continued, w, fuel)
    ensures ExecStmt(env, Jump(Return), w, fuel) == Exit(Returned, w, fuel)
  {
  }

  /** A block goes on after a statement exactly if that ends normally. */
  lemma SequenceLaws<S>(env: Env<S>, s: Stmt, b: Block, w: World<S>, fuel: nat)
    ensures Exec(env, One(s), w, fuel) == ExecStmt(env, s, w, fuel)
    ensures var x := ExecStmt(env, s, w, fuel);
      Exec(env, Then(s, b), w, fuel) == if x.flow.Normal? then Exec(env, b, x.w, x.fuel) else x
  {
  }

  /** The condition of a branch is tested once, and then exactly one of the alternatives runs. */
  lemma BranchLaws<S>(env: Env<S>, c: nat, b: Block, other: Block, rest: Branches, w: World<S>, fuel: nat)
    ensures env.Test(c, w) ==>
      ExecStmt(env, If(Only(c, b)), w, fuel) == Exec(env, b, env.AfterTest(c, w), fuel)
    ensures !env.Test(c, w) ==>
      ExecStmt(env, If(Only(c, b)), w, fuel) == Exit(Normal, env.AfterTest(c, w), fuel)
    ensures env.Test(c, w) ==>
      ExecStmt(env, If(OrElse(c, b, other)), w, fuel) == ExecStmt(env, If(Only(c, b)), w, fuel)
    ensures !env.Test(c, w) ==>
      ExecStmt(env, If(OrElse(c, b, other)), w, fuel) == Exec(env, other, env.AfterTest(c, w), fuel)
    ensures ExecStmt(env, If(OrElseIf(c, b, rest)), w, fuel) == ExecStmt(env, If(OrElse(c, b, One(If(rest)))), w, fuel)
  {
    var w' := env.AfterTest(c, w);
    assert Exec(env, One(If(rest)), w', fuel) == ExecStmt(env, If(rest), w', fuel);
  }

  /** The conditional forms are an if around the plain ones. */
  lemma ConditionalLaws<S>(env: Env<S>, c: nat, e: nat, leap: Leap, w: World<S>, fuel: nat)
    ensures ExecStmt(env, AwaitIf(c, e), w, fuel) == ExecStmt(env, If(Only(c, One(Await(e)))), w, fuel)
    ensures ExecStmt(env, JumpIf(c, leap), w, fuel) == ExecStmt(env, If(Only(c, One(Jump(leap)))), w, fuel)
  {
    var w' := env.AfterTest(c, w);
    assert Exec(env, One(Await(e)), w', fuel) == ExecStmt(env, Await(e), w', fuel);
    assert Exec(env, One(Jump(leap)), w', fuel) == ExecStmt(env, Jump(leap), w', fuel);
  }

  /** A while loop is a do-while loop behind a test. */
  lemma WhileLaw<S>(env: Env<S>, c: nat, step: seq<nat>, body: Block, w: World<S>, fuel: nat)
    ensures ExecStmt(env, While(c, step, body), w, fuel)
      == ExecStmt(env, If(Only(c, One(DoWhile(c, step, body)))), w, fuel)
  {
    var loop := DoWhile(c, step, body);
    assert Exec(env, One(loop), env.AfterTest(c, w), fuel) == ExecStmt(env, loop, env.AfterTest(c, w), fuel);
  }

  /** A do-while loop runs its body first. If the body ends normally or continues, the step runs and then a while loop
      with the same condition; `break` ends the loop and `return` the coroutine. */
  lemma DoWhileLaws<S>(env: Env<S>, c: nat, step: seq<nat>, body: Block, w: World<S>, fuel: nat)
    ensures var x := Exec(env, body, w, fuel); x.flow.Broke? ==>
      ExecStmt(env, DoWhile(c, step, body), w, fuel) == Exit(Normal, x.w, x.fuel)
    ensures var x := Exec(env, body, w, fuel); x.flow.Returned? || x.flow.OutOfFuel? ==>
      ExecStmt(env, DoWhile(c, step, body), w, fuel) == x
    ensures var x := Exec(env, body, w, fuel); (x.flow.Normal? || x.flow.Continued?) && x.fuel > 0 ==>
      var y, z := ExecStmt(env, DoWhile(c, step, body), w, fuel),
                  ExecStmt(env, While(c, step, body), env.ActAll(step, x.w), x.fuel - 1);
      y.flow == z.flow && y.w == z.w
    ensures var x := Exec(env, body, w, fuel); (x.flow.Normal? || x.flow.Continued?) && x.fuel == 0 ==>
      var w' := env.ActAll(step, x.w);
      ExecStmt(env, DoWhile(c, step, body), w, fuel)
        == Exit(if env.Test(c, w') then OutOfFuel else Normal, env.AfterTest(c, w'), 0)
  {
    var x := Exec(env, body, w, fuel);
    if x.flow.Normal? || x.flow.Continued? {
      assert ExecLoop(env, c, step, body, w, fuel) == LoopBack(env, c, step, body, x.w, x.fuel);
    }
  }

  /** The bound on loop-backs only cuts a run off: a run that ends within it is the same under every larger bound. */
  lemma {:induction false} MoreFuel<S>(env: Env<S>, b: Block, w: World<S>, fuel: nat, more: nat)
    requires !Exec(env, b, w, fuel).flow.OutOfFuel?
    ensures var x := Exec(env, b, w, fuel); Exec(env, b, w, fuel + more) == Exit(x.flow, x.w, x.fuel + more)
    decreases fuel, b, 0
  {
    MoreFuelStmt(env, b.head, w, fuel, more);
    var x := ExecStmt(env, b.head, w, fuel);
    if x.flow.Normal? && b.Then? {
      MoreFuel(env, b.tail, x.w, x.fuel, more);
    }
  }

  lemma {:induction false} MoreFuelStmt<S>(env: Env<S>, s: Stmt, w: World<S>, fuel: nat, more: nat)
    requires !ExecStmt(env, s, w, fuel).flow.OutOfFuel?
    ensures var x := ExecStmt(env, s, w, fuel); ExecStmt(env, s, w, fuel + more) == Exit(x.flow, x.w, x.fuel + more)
    decreases fuel, s, 0
  {
    match s
    case If(chain) => MoreFuelBranches(env, chain, w, fuel, more);
    case While(c, step, body) =>
      if env.Test(c, w) { MoreFuelLoop(env, c, step, body, env.AfterTest(c, w), fuel, more); }
    case DoWhile(c, step, body) => MoreFuelLoop(env, c, step, body, w, fuel, more);
    case _ =>
  }

  lemma {:induction false} MoreFuelBranches<S>(env: Env<S>, r: Branches, w: World<S>, fuel: nat, more: nat)
    requires !ExecBranches(env, r, w, fuel).flow.OutOfFuel?
    ensures var x := ExecBranches(env, r, w, fuel);
      ExecBranches(env, r, w, fuel + more) == Exit(x.flow, x.w, x.fuel + more)
    decreases fuel, r, 0
  {
    var w' := env.AfterTest(r.c, w);
    if env.Test(r.c, w) {
      MoreFuel(env, r.body, w', fuel, more);
    } else {
      match r
      case Only(_, _) =>
      case OrElse(_, _, other) => MoreFuel(env, other, w', fuel, more);
      case OrElseIf(_, _, rest) => MoreFuelBranches(env, rest, w', fuel, more);
    }
  }

  lemma {:induction false} MoreFuelLoop<S>(env: Env<S>, c: nat, step: seq<nat>, body: Block, w: World<S>, fuel: nat,
      more: nat)
    requires !ExecLoop(env, c, step, body, w, fuel).flow.OutOfFuel?
    ensures var x := ExecLoop(env, c, step, body, w, fuel);
      ExecLoop(env, c, step, body, w, fuel + more) == Exit(x.flow, x.w, x.fuel + more)
    decreases fuel, body, 1
  {
    var x := Exec(env, body, w, fuel);
    MoreFuel(env, body, w, fuel, more);
    if x.flow.Normal? || x.flow.Continued? {
      var w' := env.ActAll(step, x.w);
      if env.Test(c, w') {
        MoreFuelLoop(env, c, step, body, env.AfterTest(c, w'), x.fuel - 1, more);
      }
    }
  }

  // ----- Scoping -----

  /** Inside a loop every block compiles; so every loop does, and outside loops every jump but CO_BREAK and
      CO_CONTINUE. */
  lemma {:induction false} ScopedInLoop(b: Block)
    ensures WellScoped(b, true)
    decreases b, 1
  {
    ScopedStmtInLoop(b.head);
    if b.Then? { ScopedInLoop(b.tail); }
  }

  lemma {:induction false} ScopedStmtInLoop(s: Stmt)
    ensures WellScopedStmt(s, true)
    ensures !s.If? ==> (WellScopedStmt(s, false) <==> ((s.Jump? || s.JumpIf?) ==> s.leap.Return?))
    decreases s, 0
  {
    match s
    case If(chain) => ScopedBranchesInLoop(chain);
    case While(_, _, body) => ScopedInLoop(body);
    case DoWhile(_, _, body) => ScopedInLoop(body);
    case _ =>
  }

  lemma {:induction false} ScopedBranchesInLoop(r: Branches)
    ensures WellScopedBranches(r, true)
    decreases r, 0
  {
    ScopedInLoop(r.body);
    match r
    case Only(_, _) =>
    case OrElse(_, _, other) => ScopedInLoop(other);
    case OrElseIf(_, _, rest) => ScopedBranchesInLoop(rest);
  }

  // ----- The state chain -----

  /** The code of one state function. `AwaitTo` starts a coroutine and continues in state `next`, at once or
      when resumed; `Test` and `Goto` are tail calls; `Choose` is a C++ if; `Finish` is `return this->on_finish()`. */
  datatype Code =
    | Do(acts: seq<nat>, rest: Code)
    | Choose(c: nat, leap: Code, rest: Code)
    | AwaitTo(e: nat, next: nat)
    | AwaitToIf(c: nat, e: nat, next: nat)
    | Test(c: nat, yes: nat, no: nat)
    | Goto(l: nat)
    | Finish

  /** The rest of a state function, and the states that follow it. */
  datatype Piece = Piece(code: Code, states: seq<Code>)

  /** Expansion of a block: the rest of the current state function, and the states the block adds, which are
      numbered from `base`. `last` ends the block; `brk` and `cont` are `local_next_skip` and
      `local_next_start` of the innermost loop. Every continuation is numbered below `base`. */
  function Expand(b: Block, base: nat, last: Code, brk: nat, cont: nat): Piece
    decreases b, 0
  {
    var Piece(codeT, chainT) := if b.Then? then Expand(b.tail, base, last, brk, cont) else Piece(last, []);
    match b.head
    case Plain(acts) => Piece(Do(acts, codeT), chainT)
    case Jump(leap) => Piece(CodeOf(leap, brk, cont), chainT)
    case JumpIf(c, leap) => Piece(Choose(c, CodeOf(leap, brk, cont), codeT), chainT)
    case s =>
      var after := base + |chainT|;
      var Piece(code, states) := ExpandStmt(s, after + 1, after, brk, cont);
      Piece(code, chainT + [codeT] + states)
  }

  function CodeOf(leap: Leap, brk: nat, cont: nat): Code {
    match leap
    case Break => Goto(brk)
    case Continue => Goto(cont)
    case Return => Finish
  }

  /** A statement that closes the current state: what follows it is the new state `after`. */
  function ExpandStmt(s: Stmt, base: nat, after: nat, brk: nat, cont: nat): Piece
    requires !s.Plain? && !s.Jump? && !s.JumpIf?
    decreases s, 0
  {
    match s
    case Await(e) => Piece(AwaitTo(e, after), [])
    case AwaitIf(c, e) => Piece(AwaitToIf(c, e, after), [])
    case If(chain) => ExpandBranches(chain, base, after, brk, cont)
    case While(c, step, body) =>
      var states := ExpandLoop(c, step, body, base, after);
      Piece(Test(c, base + |states| - 1, base), states)
    case DoWhile(c, step, body) =>
      var states := ExpandLoop(c, step, body, base, after);
      Piece(Goto(base + |states| - 1), states)
  }

  /** The test that picks a branch, with the states of all branches: first `local_next_start` and the states
      behind it, then the states of the body. */
  function ExpandBranches(r: Branches, base: nat, after: nat, brk: nat, cont: nat): Piece
    decreases r, 1
  {
    var Piece(nextCode, chainR) := ExpandRest(r, base, after, brk, cont);
    var nextStart := base + |chainR|;
    var Piece(code, chainB) := Expand(r.body, nextStart + 1, Goto(after), brk, cont);
    Piece(Test(r.c, nextStart + 1 + |chainB|, nextStart), chainR + [nextCode] + chainB + [code])
  }

  /** `local_next_start` of a branch whose condition failed. */
  function ExpandRest(r: Branches, base: nat, after: nat, brk: nat, cont: nat): Piece
    decreases r, 0
  {
    match r
    case Only(_, _) => Piece(Goto(after), [])
    case OrElse(_, _, other) =>
      var Piece(code, chainB) := Expand(other, base, Goto(after), brk, cont);
      Piece(Goto(base + |chainB|), chainB + [code])
    case OrElseIf(_, _, rest) => ExpandBranches(rest, base, after, brk, cont)
  }

  /** The loop class: `local_next_skip` is its first state, `local_next_start` its second, `local_start` its last. */
  function ExpandLoop(c: nat, step: seq<nat>, body: Block, base: nat, after: nat): (states: seq<Code>)
    ensures |states| > 2
    decreases body, 1
  {
    var Piece(code, chainB) := Expand(body, base + 2, Goto(base + 1), base, base + 1);
    var enter := base + 2 + |chainB|;
    [Goto(after)] + [Do(step, Test(c, enter, base))] + chainB + [code]
  }

  // ----- Running the chain -----

  /** How a state function ends: it calls another state, records the state to resume at, or returns. */
  datatype Move<S> = Call(l: nat, w: World<S>) | Yield(l: nat, e: nat, w: World<S>) | Stop(w: World<S>)

  function RunState<S>(env: Env<S>, code: Code, w: World<S>): Move<S> {
    match code
    case Do(acts, rest) => RunState(env, rest, env.ActAll(acts, w))
    case AwaitTo(e, next) => if env.AtOnce(e, w) then Call(next, env.Complete(e, w)) else Yield(next, e, w)
    case AwaitToIf(c, e, next) =>
      var w' := env.AfterTest(c, w);
      if !env.Test(c, w) then Call(next, w')
      else if env.AtOnce(e, w') then Call(next, env.Complete(e, w'))
      else Yield(next, e, w')
    case Test(c, yes, no) => Call(if env.Test(c, w) then yes else no, env.AfterTest(c, w))
    case Choose(c, leap, rest) => RunState(env, if env.Test(c, w) then leap else rest, env.AfterTest(c, w))
    case Goto(l) => Call(l, w)
    case Finish => Stop(w)
  }

  datatype Result<S> =
    | Finished(w: World<S>)
    | Suspended(l: nat, e: nat, w: World<S>, fuel: nat)
    | Spent(w: World<S>)
    | Stuck

  /** Moving to a state that is not below the running one is a loop-back and costs one unit of fuel. */
  function Toll(here: nat, l: nat): nat {
    if l < here then 0 else 1
  }

  /** Runs the chain from inside state `here` until it returns to its resumer. */
  function Segment<S>(env: Env<S>, chain: seq<Code>, here: nat, code: Code, w: World<S>, fuel: nat): (r: Result<S>)
    ensures r.Suspended? ==> r.fuel < fuel || (r.fuel == fuel && r.l < here)
    decreases fuel, here
  {
    match RunState(env, code, w)
    case Call(l, w') =>
      if l >= |chain| then Stuck
      else if Toll(here, l) > fuel then Spent(w')
      else Segment(env, chain, l, chain[l], w', fuel - Toll(here, l))
    case Yield(l, e, w') => if Toll(here, l) > fuel then Spent(w') else Suspended(l, e, w', fuel - Toll(here, l))
    case Stop(w') => Finished(w')
  }

  /** The scheduler's side: every suspended await is later finished and the recorded state is called. */
  function Drive<S>(env: Env<S>, chain: seq<Code>, here: nat, code: Code, w: World<S>, fuel: nat): (r: Result<S>)
    ensures !r.Suspended?
    decreases fuel, here
  {
    match Segment(env, chain, here, code, w, fuel)
    case Suspended(l, e, w', left) =>
      if l >= |chain| then Stuck else Drive(env, chain, l, chain[l], env.Complete(e, w'), left)
    case r => r
  }

  /** The state in which a coroutine awaits hands over to the scheduler exactly if the awaited one does not finish at
      once; nothing has happened yet, and the recorded state is the next one. */
  lemma SuspendsExactly<S>(env: Env<S>, chain: seq<Code>, here: nat, e: nat, next: nat, w: World<S>, fuel: nat)
    requires next < here && next < |chain|
    ensures !env.AtOnce(e, w) ==> Segment(env, chain, here, AwaitTo(e, next), w, fuel) == Suspended(next, e, w, fuel)
    ensures env.AtOnce(e, w) ==>
      Segment(env, chain, here, AwaitTo(e, next), w, fuel)
        == Segment(env, chain, next, chain[next], env.Complete(e, w), fuel)
  {
  }

  /** The same behind the test of CO_AWAIT_IF. */
  lemma SuspendsIfExactly<S>(env: Env<S>, chain: seq<Code>, here: nat, c: nat, e: nat, next: nat, w: World<S>,
      fuel: nat)
    requires next < here && next < |chain|
    ensures var w' := env.AfterTest(c, w);
      env.Test(c, w) && !env.AtOnce(e, w') ==>
        Segment(env, chain, here, AwaitToIf(c, e, next), w, fuel) == Suspended(next, e, w', fuel)
  {
  }

  // ----- Single steps of a run -----

  /** A runner of a chain: `Drive` under another name, so that a proof uses the step lemmas and nothing else. */
  type Runner<!S> = (nat, Code, World<S>, nat) -> Result<S>

  ghost predicate Runs<S(!new)>(run: Runner<S>, env: Env<S>, chain: seq<Code>) {
    forall here: nat, code: Code, w: World<S>, fuel: nat
      {:trigger run(here, code, w, fuel), Drive(env, chain, here, code, w, fuel)} ::
      run(here, code, w, fuel) == Drive(env, chain, here, code, w, fuel)
  }

  lemma {:induction false} RunCall<S(!new)>(run: Runner<S>, env: Env<S>, chain: seq<Code>, here: nat, code: Code,
      l: nat, w: World<S>, w': World<S>, fuel: nat)
    requires Runs(run, env, chain) && l < |chain| && RunState(env, code, w) == Call(l, w')
    ensures run(here, code, w, fuel)
      == if Toll(here, l) > fuel then Spent(w') else run(l, chain[l], w', fuel - Toll(here, l))
  {
    var r := Drive(env, chain, here, code, w, fuel);
    if Toll(here, l) <= fuel {
      assert r == Drive(env, chain, l, chain[l], w', fuel - Toll(here, l));
    }
  }

  lemma {:induction false} RunJump<S(!new)>(run: Runner<S>, env: Env<S>, chain: seq<Code>, here: nat, l: nat,
      w: World<S>, fuel: nat)
    requires Runs(run, env, chain) && l < |chain|
    ensures run(here, Goto(l), w, fuel)
      == if Toll(here, l) > fuel then Spent(w) else run(l, chain[l], w, fuel - Toll(here, l))
  {
    RunCall(run, env, chain, here, Goto(l), l, w, w, fuel);
  }

  lemma {:induction false} RunTest<S(!new)>(run: Runner<S>, env: Env<S>, chain: seq<Code>, here: nat, c: nat,
      yes: nat, no: nat, w: World<S>, fuel: nat)
    requires Runs(run, env, chain) && yes < |chain| && no < |chain|
    ensures var l, w' := if env.Test(c, w) then yes else no, env.AfterTest(c, w);
      run(here, Test(c, yes, no), w, fuel)
        == if Toll(here, l) > fuel then Spent(w') else run(l, chain[l], w', fuel - Toll(here, l))
  {
    var l := if env.Test(c, w) then yes else no;
    RunCall(run, env, chain, here, Test(c, yes, no), l, w, env.AfterTest(c, w), fuel);
  }

  /** Finishing at once and suspending until resumed lead to the same continuation; `w'` is where the await starts. */
  lemma {:induction false} RunAwait<S(!new)>(run: Runner<S>, env: Env<S>, chain: seq<Code>, here: nat, code: Code,
      e: nat, next: nat, w: World<S>, w': World<S>, fuel: nat)
    requires Runs(run, env, chain) && next < here && next < |chain|
    requires RunState(env, code, w) == if env.AtOnce(e, w') then Call(next, env.Complete(e, w')) else Yield(next, e, w')
    ensures run(here, code, w, fuel) == run(next, chain[next], env.Complete(e, w'), fuel)
  {
    assert Drive(env, chain, here, code, w, fuel) == Drive(env, chain, next, chain[next], env.Complete(e, w'), fuel);
  }

  lemma {:induction false} RunDo<S(!new)>(run: Runner<S>, env: Env<S>, chain: seq<Code>, here: nat, acts: seq<nat>,
      code: Code, w: World<S>, fuel: nat)
    requires Runs(run, env, chain)
    ensures run(here, Do(acts, code), w, fuel) == run(here, code, env.ActAll(acts, w), fuel)
  {
    assert RunState(env, Do(acts, code), w) == RunState(env, code, env.ActAll(acts, w));
    assert Drive(env, chain, here, Do(acts, code), w, fuel) == Drive(env, chain, here, code, env.ActAll(acts, w), fuel);
  }

  lemma {:induction false} RunChoose<S(!new)>(run: Runner<S>, env: Env<S>, chain: seq<Code>, here: nat, c: nat,
      leap: Code, rest: Code, w: World<S>, fuel: nat)
    requires Runs(run, env, chain)
    ensures run(here, Choose(c, leap, rest), w, fuel)
      == run(here, if env.Test(c, w) then leap else rest, env.AfterTest(c, w), fuel)
  {
    var code, w' := if env.Test(c, w) then leap else rest, env.AfterTest(c, w);
    assert RunState(env, Choose(c, leap, rest), w) == RunState(env, code, w');
    assert Drive(env, chain, here, Choose(c, leap, rest), w, fuel) == Drive(env, chain, here, code, w', fuel);
  }

  /** `last` either returns or calls a state below `base`. */
  predicate Below(last: Code, base: nat) {
    last.Finish? || (last.Goto? && last.l < base)
  }

  lemma {:induction false} RunLast<S(!new)>(run: Runner<S>, env: Env<S>, chain: seq<Code>, here: nat, base: nat,
      last: Code, w: World<S>, fuel: nat)
    requires Runs(run, env, chain) && base <= here && base <= |chain| && Below(last, base)
    ensures run(here, last, w, fuel) == run(base, last, w, fuel)
  {
    if last.Goto? {
      RunJump(run, env, chain, here, last.l, w, fuel);
      RunJump(run, env, chain, base, last.l, w, fuel);
    } else {
      assert Drive(env, chain, here, last, w, fuel) == Drive(env, chain, base, last, w, fuel);
    }
  }

  // ----- Where the states of a construct sit in the chain -----

  ghost predicate Embedded(chain: seq<Code>, base: nat, states: seq<Code>) {
    base + |states| <= |chain| && chain[base..base + |states|] == states
  }

  lemma {:induction false} EmbeddedPart(chain: seq<Code>, base: nat, pre: seq<Code>, mid: seq<Code>, post: seq<Code>)
    requires Embedded(chain, base, pre + mid + post)
    ensures Embedded(chain, base + |pre|, mid)
  {
    var all := pre + mid + post;
    forall i | 0 <= i < |mid| ensures chain[base + |pre| + i] == mid[i] {
      assert chain[base..base + |all|][|pre| + i] == all[|pre| + i];
    }
  }

  lemma {:induction false} EmbeddedPrefix(chain: seq<Code>, base: nat, pre: seq<Code>, states: seq<Code>)
    requires Embedded(chain, base, states) && pre <= states
    ensures Embedded(chain, base, pre)
  {
    assert states == [] + pre + states[|pre|..];
    EmbeddedPart(chain, base, [], pre, states[|pre|..]);
  }

  lemma {:induction false} EmbeddedThree(chain: seq<Code>, base: nat, pre: seq<Code>, code: Code, post: seq<Code>)
    requires Embedded(chain, base, pre + [code] + post)
    ensures Embedded(chain, base, pre)
    ensures base + |pre| < |chain| && chain[base + |pre|] == code
    ensures Embedded(chain, base + |pre| + 1, post)
  {
    var states := pre + [code] + post;
    EmbeddedPrefix(chain, base, pre, states);
    EmbeddedPart(chain, base, pre, [code], post);
    assert chain[base + |pre|..base + |pre| + 1][0] == code;
    assert states == (pre + [code]) + post + [];
    EmbeddedPart(chain, base, pre + [code], post, []);
  }

  lemma {:induction false} EmbeddedFour(chain: seq<Code>, base: nat, pre: seq<Code>, first: Code, mid: seq<Code>,
      second: Code)
    requires Embedded(chain, base, pre + [first] + mid + [second])
    ensures Embedded(chain, base, pre)
    ensures base + |pre| < |chain| && chain[base + |pre|] == first
    ensures Embedded(chain, base + |pre| + 1, mid)
    ensures base + |pre| + 1 + |mid| < |chain| && chain[base + |pre| + 1 + |mid|] == second
  {
    assert pre + [first] + mid + [second] == pre + [first] + (mid + [second]);
    EmbeddedThree(chain, base, pre, first, mid + [second]);
    assert mid + [second] == mid + [second] + [];
    EmbeddedThree(chain, base + |pre| + 1, mid, second, []);
  }

  lemma {:induction false} EmbeddedLoop(chain: seq<Code>, base: nat, skip: Code, again: Code, mid: seq<Code>,
      enter: Code)
    requires Embedded(chain, base, [skip] + [again] + mid + [enter])
    ensures base + 2 + |mid| < |chain| && chain[base] == skip && chain[base + 1] == again
    ensures chain[base + 2 + |mid|] == enter
    ensures Embedded(chain, base + 2, mid)
  {
    EmbeddedFour(chain, base, [skip], again, mid, enter);
    assert chain[base..base + 1][0] == skip;
  }

  // ----- The expansion preserves meaning -----

  /** What the chain does after a block, given how the block ended. */
  function Onward<S>(run: Runner<S>, base: nat, last: Code, brk: nat, cont: nat, x: Exit<S>): Result<S> {
    match x.flow
    case Normal => run(base, last, x.w, x.fuel)
    case Broke => run(base, Goto(brk), x.w, x.fuel)
    case Continued => run(base, Goto(cont), x.w, x.fuel)
    case Returned => Finished(x.w)
    case OutOfFuel => Spent(x.w)
  }

  /** How the block ended is all that matters, not the state in which it did. */
  lemma {:induction false} OnwardRebase<S(!new)>(run: Runner<S>, env: Env<S>, chain: seq<Code>, high: nat, low: nat,
      last: Code, brk: nat, cont: nat, x: Exit<S>)
    requires Runs(run, env, chain)
    requires low <= high && low <= |chain| && Below(last, low)
    requires x.flow.Broke? || x.flow.Continued? ==> brk < low && cont < low
    ensures Onward(run, high, last, brk, cont, x) == Onward(run, low, last, brk, cont, x)
  {
    match x.flow
    case Normal => RunLast(run, env, chain, high, low, last, x.w, x.fuel);
    case Broke => RunLast(run, env, chain, high, low, Goto(brk), x.w, x.fuel);
    case Continued => RunLast(run, env, chain, high, low, Goto(cont), x.w, x.fuel);
    case _ =>
  }

  /** A statement that ends in state `after`, then the code `y` that starts there. */
  lemma {:induction false} OnwardCompose<S(!new)>(run: Runner<S>, env: Env<S>, chain: seq<Code>, after: nat, base: nat,
      last: Code, brk: nat, cont: nat,
                                            x: Exit<S>, y: Exit<S>)
    requires Runs(run, env, chain)
    requires base <= after < |chain| && Below(last, base)
    requires x.flow.Broke? || x.flow.Continued? ==> brk < base && cont < base
    requires if x.flow.Normal? then run(after, chain[after], x.w, x.fuel) == Onward(run, base, last, brk, cont, y)
             else y == x
    ensures Onward(run, after + 1, Goto(after), brk, cont, x) == Onward(run, base, last, brk, cont, y)
  {
    if x.flow.Normal? {
      RunJump(run, env, chain, after + 1, after, x.w, x.fuel);
    } else {
      OnwardRebase(run, env, chain, after + 1, base, last, brk, cont,
                   x.(flow := if x.flow.Normal? then Returned else x.flow));
    }
  }

  /** `break` and `continue` come out of a block only inside a loop. */
  lemma {:induction false} ScopedBlock<S>(env: Env<S>, b: Block, w: World<S>, fuel: nat)
    requires WellScoped(b, false)
    ensures !Exec(env, b, w, fuel).flow.Broke? && !Exec(env, b, w, fuel).flow.Continued?
    decreases fuel, b
  {
    ScopedStmt(env, b.head, w, fuel);
    if b.Then? {
      var x := ExecStmt(env, b.head, w, fuel);
      ScopedBlock(env, b.tail, x.w, x.fuel);
    }
  }

  lemma {:induction false} ScopedStmt<S>(env: Env<S>, s: Stmt, w: World<S>, fuel: nat)
    requires WellScopedStmt(s, false)
    ensures !ExecStmt(env, s, w, fuel).flow.Broke? && !ExecStmt(env, s, w, fuel).flow.Continued?
    decreases fuel, s
  {
    match s
    case If(chain) => ScopedBranches(env, chain, w, fuel);
    case While(c, step, body) => if env.Test(c, w) { LoopFlow(env, c, step, body, env.AfterTest(c, w), fuel); }
    case DoWhile(c, step, body) => LoopFlow(env, c, step, body, w, fuel);
    case _ =>
  }

  lemma {:induction false} ScopedBranches<S>(env: Env<S>, r: Branches, w: World<S>, fuel: nat)
    requires WellScopedBranches(r, false)
    ensures !ExecBranches(env, r, w, fuel).flow.Broke? && !ExecBranches(env, r, w, fuel).flow.Continued?
    decreases fuel, r
  {
    var w' := env.AfterTest(r.c, w);
    ScopedBlock(env, r.body, w', fuel);
    match r
    case Only(_, _) =>
    case OrElse(_, _, other) => ScopedBlock(env, other, w', fuel);
    case OrElseIf(_, _, rest) => ScopedBranches(env, rest, w', fuel);
  }

  lemma {:induction false} LoopFlow<S>(env: Env<S>, c: nat, step: seq<nat>, body: Block, w: World<S>, fuel: nat)
    ensures !ExecLoop(env, c, step, body, w, fuel).flow.Broke? && !ExecLoop(env, c, step, body, w, fuel).flow.Continued?
    decreases fuel
  {
    var x := Exec(env, body, w, fuel);
    if (x.flow.Normal? || x.flow.Continued?) && x.fuel > 0 {
      LoopFlow(env, c, step, body, env.AfterTest(c, env.ActAll(step, x.w)), x.fuel - 1);
    }
  }

  /** Running the expansion of a block equals executing the block and going on from there. */
  lemma {:induction false} BlockCorrect<S(!new)>(run: Runner<S>, env: Env<S>, chain: seq<Code>, b: Block,
      base: nat, last: Code, brk: nat, cont: nat, inLoop: bool, code: Code, states: seq<Code>, here: nat,
      w: World<S>, fuel: nat)
    requires Runs(run, env, chain)
    requires WellScoped(b, inLoop) && (inLoop ==> brk < base && cont < base) && Below(last, base)
    requires Piece(code, states) == Expand(b, base, last, brk, cont)
    requires Embedded(chain, base, states) && here >= base + |states|
    ensures run(here, code, w, fuel) == Onward(run, base, last, brk, cont, Exec(env, b, w, fuel))
    decreases fuel, b, 2
  {
    var Piece(codeT, chainT) := if b.Then? then Expand(b.tail, base, last, brk, cont) else Piece(last, []);
    match b.head
    case Plain(acts) =>
      assert states == chainT;
      RunDo(run, env, chain, here, acts, codeT, w, fuel);
      TailCorrect(run, env, chain, b, base, last, brk, cont, inLoop, codeT, chainT, here, env.ActAll(acts, w), fuel);
    case Jump(leap) =>
      LeapCorrect(run, env, chain, leap, base, last, brk, cont, inLoop, here, w, fuel);
    case JumpIf(c, leap) =>
      assert states == chainT;
      JumpIfCorrect(run, env, chain, b, base, last, brk, cont, inLoop, codeT, chainT, here, w, fuel);
    case _ =>
      SplitCorrect(run, env, chain, b, base, last, brk, cont, inLoop, code, states, here, w, fuel);
  }

  /** A C++ if around CO_BREAK, CO_CONTINUE or CO_RETURN stays inside its state. */
  lemma {:induction false} JumpIfCorrect<S(!new)>(run: Runner<S>, env: Env<S>, chain: seq<Code>, b: Block, base: nat,
      last: Code, brk: nat, cont: nat, inLoop: bool, codeT: Code, chainT: seq<Code>, here: nat, w: World<S>,
      fuel: nat)
    requires Runs(run, env, chain) && b.head.JumpIf?
    requires WellScoped(b, inLoop) && (inLoop ==> brk < base && cont < base) && Below(last, base)
    requires Piece(codeT, chainT) == if b.Then? then Expand(b.tail, base, last, brk, cont) else Piece(last, [])
    requires Embedded(chain, base, chainT) && here >= base + |chainT|
    ensures run(here, Choose(b.head.c, CodeOf(b.head.leap, brk, cont), codeT), w, fuel)
      == Onward(run, base, last, brk, cont, Exec(env, b, w, fuel))
    decreases fuel, b, 1
  {
    var JumpIf(c, leap) := b.head;
    var w' := env.AfterTest(c, w);
    RunChoose(run, env, chain, here, c, CodeOf(leap, brk, cont), codeT, w, fuel);
    if env.Test(c, w) {
      LeapCorrect(run, env, chain, leap, base, last, brk, cont, inLoop, here, w', fuel);
    } else {
      TailCorrect(run, env, chain, b, base, last, brk, cont, inLoop, codeT, chainT, here, w', fuel);
    }
  }

  /** CO_BREAK and CO_CONTINUE call a state of the innermost loop; CO_RETURN finishes the coroutine. */
  lemma {:induction false} LeapCorrect<S(!new)>(run: Runner<S>, env: Env<S>, chain: seq<Code>, leap: Leap,
      base: nat, last: Code, brk: nat, cont: nat, inLoop: bool, here: nat, w: World<S>, fuel: nat)
    requires Runs(run, env, chain)
    requires base <= here && base <= |chain| && (leap.Return? || (inLoop && brk < base && cont < base))
    ensures run(here, CodeOf(leap, brk, cont), w, fuel)
      == Onward(run, base, last, brk, cont, Exit(FlowOf(leap), w, fuel))
  {
    match leap
    case Break => RunLast(run, env, chain, here, base, Goto(brk), w, fuel);
    case Continue => RunLast(run, env, chain, here, base, Goto(cont), w, fuel);
    case Return => assert run(here, Finish, w, fuel) == Drive(env, chain, here, Finish, w, fuel);
  }

  /** The code after the first statement. */
  function ExecTail<S>(env: Env<S>, b: Block, w: World<S>, fuel: nat): Exit<S> {
    if b.Then? then Exec(env, b.tail, w, fuel) else Exit(Normal, w, fuel)
  }

  lemma {:induction false} TailCorrect<S(!new)>(run: Runner<S>, env: Env<S>, chain: seq<Code>, b: Block, base: nat,
      last: Code, brk: nat, cont: nat, inLoop: bool, codeT: Code, chainT: seq<Code>, here: nat, w: World<S>,
      fuel: nat)
    requires Runs(run, env, chain)
    requires WellScoped(b, inLoop) && (inLoop ==> brk < base && cont < base) && Below(last, base)
    requires Piece(codeT, chainT) == if b.Then? then Expand(b.tail, base, last, brk, cont) else Piece(last, [])
    requires Embedded(chain, base, chainT) && here >= base + |chainT|
    ensures run(here, codeT, w, fuel) == Onward(run, base, last, brk, cont, ExecTail(env, b, w, fuel))
    decreases fuel, b, 0
  {
    if b.Then? {
      BlockCorrect(run, env, chain, b.tail, base, last, brk, cont, inLoop, codeT, chainT, here, w, fuel);
    } else {
      RunLast(run, env, chain, here, base, last, w, fuel);
    }
  }

  /** A statement that ends the running state, followed by the state of the code after it. */
  lemma {:induction false} SplitCorrect<S(!new)>(run: Runner<S>, env: Env<S>, chain: seq<Code>, b: Block,
      base: nat, last: Code, brk: nat, cont: nat, inLoop: bool, code: Code, states: seq<Code>, here: nat,
      w: World<S>, fuel: nat)
    requires Runs(run, env, chain)
    requires !b.head.Plain? && !b.head.Jump? && !b.head.JumpIf?
    requires WellScoped(b, inLoop) && (inLoop ==> brk < base && cont < base) && Below(last, base)
    requires Piece(code, states) == Expand(b, base, last, brk, cont)
    requires Embedded(chain, base, states) && here >= base + |states|
    ensures run(here, code, w, fuel) == Onward(run, base, last, brk, cont, Exec(env, b, w, fuel))
    decreases fuel, b, 1
  {
    var Piece(codeT, chainT) := if b.Then? then Expand(b.tail, base, last, brk, cont) else Piece(last, []);
    var after := base + |chainT|;
    var Piece(codeS, more) := ExpandStmt(b.head, after + 1, after, brk, cont);
    EmbeddedThree(chain, base, chainT, codeT, more);
    StmtCorrect(run, env, chain, b.head, after + 1, after, brk, cont, inLoop, codeS, more, here, w, fuel);
    var x := ExecStmt(env, b.head, w, fuel);
    if x.flow.Normal? {
      TailCorrect(run, env, chain, b, base, last, brk, cont, inLoop, codeT, chainT, after, x.w, x.fuel);
    } else if !inLoop {
      ScopedStmt(env, b.head, w, fuel);
    }
    OnwardCompose(run, env, chain, after, base, last, brk, cont, x,
                  if x.flow.Normal? then ExecTail(env, b, x.w, x.fuel) else x);
  }

  lemma {:induction false} StmtCorrect<S(!new)>(run: Runner<S>, env: Env<S>, chain: seq<Code>, s: Stmt, base: nat,
      after: nat, brk: nat, cont: nat, inLoop: bool, code: Code, states: seq<Code>, here: nat, w: World<S>, fuel: nat)
    requires Runs(run, env, chain)
    requires !s.Plain? && !s.Jump? && !s.JumpIf?
    requires WellScopedStmt(s, inLoop) && (inLoop ==> brk < base && cont < base)
    requires base == after + 1 <= |chain| && Piece(code, states) == ExpandStmt(s, base, after, brk, cont)
    requires Embedded(chain, base, states) && here >= base + |states|
    ensures run(here, code, w, fuel) == Onward(run, base, Goto(after), brk, cont, ExecStmt(env, s, w, fuel))
    decreases fuel, s, 0
  {
    match s
    case Await(e) =>
      RunAwait(run, env, chain, here, code, e, after, w, w, fuel);
      RunJump(run, env, chain, base, after, env.Complete(e, w), fuel);
    case AwaitIf(c, e) =>
      var w' := env.AfterTest(c, w);
      if env.Test(c, w) {
        RunAwait(run, env, chain, here, code, e, after, w, w', fuel);
      } else {
        RunCall(run, env, chain, here, code, after, w, w', fuel);
      }
      RunJump(run, env, chain, base, after, if env.Test(c, w) then env.Complete(e, w') else w', fuel);
    case If(r) => BranchesCorrect(run, env, chain, r, base, after, brk, cont, inLoop, code, states, here, w, fuel);
    case While(c, step, body) =>
      var w' := env.AfterTest(c, w);
      LoopCorrect(run, env, chain, c, step, body, base, after, states, w', fuel);
      RunTest(run, env, chain, here, c, base + |states| - 1, base, w, fuel);
      LoopFlow(env, c, step, body, w', fuel);
      RunJump(run, env, chain, base, after, w', fuel);
    case DoWhile(c, step, body) =>
      LoopCorrect(run, env, chain, c, step, body, base, after, states, w, fuel);
      RunJump(run, env, chain, here, base + |states| - 1, w, fuel);
      LoopFlow(env, c, step, body, w, fuel);
  }

  lemma {:induction false} BranchesCorrect<S(!new)>(run: Runner<S>, env: Env<S>, chain: seq<Code>, r: Branches,
      base: nat, after: nat, brk: nat, cont: nat, inLoop: bool, code: Code, states: seq<Code>, here: nat,
      w: World<S>, fuel: nat)
    requires Runs(run, env, chain)
    requires WellScopedBranches(r, inLoop) && (inLoop ==> brk < base && cont < base)
    requires after < base && Piece(code, states) == ExpandBranches(r, base, after, brk, cont)
    requires Embedded(chain, base, states) && here >= base + |states|
    ensures run(here, code, w, fuel) == Onward(run, base, Goto(after), brk, cont, ExecBranches(env, r, w, fuel))
    decreases fuel, r, 1
  {
    var Piece(nextCode, chainR) := ExpandRest(r, base, after, brk, cont);
    var nextStart := base + |chainR|;
    var Piece(codeB, chainB) := Expand(r.body, nextStart + 1, Goto(after), brk, cont);
    EmbeddedFour(chain, base, chainR, nextCode, chainB, codeB);
    RunTest(run, env, chain, here, r.c, nextStart + 1 + |chainB|, nextStart, w, fuel);
    var w' := env.AfterTest(r.c, w);
    if env.Test(r.c, w) {
      ArmCorrect(run, env, chain, r.body, nextStart + 1, base, after, brk, cont, inLoop, codeB, chainB, w', fuel);
    } else {
      RestCorrect(run, env, chain, r, base, after, brk, cont, inLoop, nextCode, chainR, nextStart, w', fuel);
    }
  }

  /** The body of one branch, entered at its first state. */
  lemma {:induction false} ArmCorrect<S(!new)>(run: Runner<S>, env: Env<S>, chain: seq<Code>, body: Block, start: nat,
      base: nat, after: nat, brk: nat, cont: nat, inLoop: bool, code: Code, states: seq<Code>, w: World<S>, fuel: nat)
    requires Runs(run, env, chain)
    requires WellScoped(body, inLoop) && (inLoop ==> brk < base && cont < base)
    requires after < base <= start && Piece(code, states) == Expand(body, start, Goto(after), brk, cont)
    requires Embedded(chain, start, states)
    ensures run(start + |states|, code, w, fuel)
         == Onward(run, base, Goto(after), brk, cont, Exec(env, body, w, fuel))
    decreases fuel, body, 3
  {
    BlockCorrect(run, env, chain, body, start, Goto(after), brk, cont, inLoop, code, states, start + |states|, w, fuel);
    if !inLoop {
      ScopedBlock(env, body, w, fuel);
    }
    OnwardRebase(run, env, chain, start, base, Goto(after), brk, cont, Exec(env, body, w, fuel));
  }

  function ExecRest<S>(env: Env<S>, r: Branches, w: World<S>, fuel: nat): Exit<S> {
    match r
    case Only(_, _) => Exit(Normal, w, fuel)
    case OrElse(_, _, other) => Exec(env, other, w, fuel)
    case OrElseIf(_, _, rest) => ExecBranches(env, rest, w, fuel)
  }

  lemma {:induction false} RestCorrect<S(!new)>(run: Runner<S>, env: Env<S>, chain: seq<Code>, r: Branches,
      base: nat, after: nat, brk: nat, cont: nat, inLoop: bool, code: Code, states: seq<Code>, here: nat,
      w: World<S>, fuel: nat)
    requires Runs(run, env, chain)
    requires WellScopedBranches(r, inLoop) && (inLoop ==> brk < base && cont < base)
    requires after < base && Piece(code, states) == ExpandRest(r, base, after, brk, cont)
    requires Embedded(chain, base, states) && here >= base + |states|
    ensures run(here, code, w, fuel) == Onward(run, base, Goto(after), brk, cont, ExecRest(env, r, w, fuel))
    decreases fuel, r, 0
  {
    match r
    case Only(_, _) => RunLast(run, env, chain, here, base, Goto(after), w, fuel);
    case OrElse(_, _, other) =>
      var Piece(codeB, chainB) := Expand(other, base, Goto(after), brk, cont);
      assert chainB + [codeB] == chainB + [codeB] + [];
      EmbeddedThree(chain, base, chainB, codeB, []);
      RunJump(run, env, chain, here, base + |chainB|, w, fuel);
      ArmCorrect(run, env, chain, other, base, base, after, brk, cont, inLoop, codeB, chainB, w, fuel);
    case OrElseIf(_, _, rest) =>
      BranchesCorrect(run, env, chain, rest, base, after, brk, cont, inLoop, code, states, here, w, fuel);
  }

  /** The three functions of a loop class, from `local_start` on. */
  lemma {:induction false} LoopCorrect<S(!new)>(run: Runner<S>, env: Env<S>, chain: seq<Code>, c: nat, step: seq<nat>,
      body: Block, base: nat, after: nat, states: seq<Code>, w: World<S>, fuel: nat)
    requires Runs(run, env, chain)
    requires WellScoped(body, true)
    requires after < base && states == ExpandLoop(c, step, body, base, after) && Embedded(chain, base, states)
    ensures var enter := base + |states| - 1;
      base < enter < |chain| && chain[base] == Goto(after)
      && run(enter, chain[enter], w, fuel)
      == Onward(run, base, Goto(after), 0, 0, ExecLoop(env, c, step, body, w, fuel))
    decreases fuel, body, 4
  {
    var Piece(code, chainB) := Expand(body, base + 2, Goto(base + 1), base, base + 1);
    var enter := base + 2 + |chainB|;
    EmbeddedLoop(chain, base, Goto(after), Do(step, Test(c, enter, base)), chainB, code);
    BlockCorrect(run, env, chain, body, base + 2, Goto(base + 1), base, base + 1, true, code, chainB, enter, w, fuel);
    var x := Exec(env, body, w, fuel);
    match x.flow
    case Broke =>
      RunJump(run, env, chain, base + 2, base, x.w, x.fuel);
      RunJump(run, env, chain, base, after, x.w, x.fuel);
    case Returned =>
    case OutOfFuel =>
    case _ =>
      RunJump(run, env, chain, base + 2, base + 1, x.w, x.fuel);
      LoopBackCorrect(run, env, chain, c, step, body, base, after, states, enter, x.w, x.fuel);
  }

  /** `local_next_start`: the step, the test, and another pass or the way out. */
  lemma {:induction false} LoopBackCorrect<S(!new)>(run: Runner<S>, env: Env<S>, chain: seq<Code>, c: nat,
      step: seq<nat>, body: Block, base: nat, after: nat, states: seq<Code>, enter: nat, w: World<S>, left: nat)
    requires Runs(run, env, chain)
    requires WellScoped(body, true) && after < base && base + 1 < enter < |chain| && enter == base + |states| - 1
    requires states == ExpandLoop(c, step, body, base, after) && Embedded(chain, base, states)
    requires chain[base] == Goto(after) && chain[base + 1] == Do(step, Test(c, enter, base))
    ensures run(base + 1, chain[base + 1], w, left)
         == Onward(run, base, Goto(after), 0, 0, LoopBack(env, c, step, body, w, left))
    decreases left, body, 0
  {
    var w' := env.ActAll(step, w);
    RunDo(run, env, chain, base + 1, step, Test(c, enter, base), w, left);
    RunTest(run, env, chain, base + 1, c, enter, base, w', left);
    if env.Test(c, w') && left > 0 {
      LoopCorrect(run, env, chain, c, step, body, base, after, states, env.AfterTest(c, w'), left - 1);
    } else if !env.Test(c, w') {
      RunJump(run, env, chain, base, after, env.AfterTest(c, w'), left);
    }
  }

  // ----- Whole coroutines -----

  /** CO_BEGIN ... CO_END: the chain of a coroutine, whose last block ends with CO_RETURN. */
  function RunChain<S>(env: Env<S>, b: Block, w: World<S>, fuel: nat): Result<S> {
    var Piece(code, chain) := Expand(b, 0, Finish, 0, 0);
    Drive(env, chain, |chain|, code, w, fuel)
  }

  /** For every coroutine the compiler accepts, every environment, every pattern of awaits that finish at once or
      suspend, and every bound on loop-backs, the state chain does what the structured program does. */
  lemma {:induction false} ChainPreservesMeaning<S(!new)>(env: Env<S>, b: Block, w: World<S>, fuel: nat)
    requires WellScoped(b, false)
    ensures var x := Exec(env, b, w, fuel);
      RunChain(env, b, w, fuel) == if x.flow.OutOfFuel? then Spent(x.w) else Finished(x.w)
  {
    var Piece(code, chain) := Expand(b, 0, Finish, 0, 0);
    var run: Runner<S> := (here: nat, code, w, fuel: nat) => Drive(env, chain, here, code, w, fuel);
    BlockCorrect(run, env, chain, b, 0, Finish, 0, 0, false, code, chain, |chain|, w, fuel);
    ScopedBlock(env, b, w, fuel);
  }
}
