/** The event loop as a transition system: the loop thread polls, handles, swaps and runs; any
    number of other threads queue functors or ask it to quit, then write to the eventfd. */
module EventLoopSpec {
  import opened Options

  /** Where the loop thread is.  In `Inside(i)` it is calling the functor at position i of its batch. */
  datatype Pc = Idle | Test | Polling | Handling | Calling | Running(i: nat) | Inside(i: nat)

  /** The largest value of an eventfd counter; a write that would exceed it fails. */
  const MAX_COUNT: nat := 0xFFFF_FFFF_FFFF_FFFE

  /** `selfPushed`: the loop thread has pushed and not yet looked whether to wake itself.  `waking` and `quitting` count
      the other threads between their push, or their quit_ = true, and their write.  Ghosts: everything pushed, in lock
      order; the queued functors called so far; whether the loop thread queued one from outside its loop unawakened. */
  datatype State<F> = State(
    pc: Pc, quit: bool, calling: bool, pending: seq<F>, functors: seq<F>, counter: nat,
    selfPushed: bool, waking: nat, quitting: nat,
    pushed: seq<F>, executed: seq<F>, early: bool)

  datatype Action<F> =
    | Push(cb: F) | Wake | Quit | QuitWake  // other threads
    | SelfPush(cb: F) | SelfWake | SelfQuit  // the loop thread, in a callback or outside its loop
    | Loop | CheckQuit | PollReturn | HandleRead | EndHandling | Swap | Next | Return  // the loop thread in loop()

  function Init<F>(): State<F> {
    State(Idle, false, false, [], [], 0, false, 0, 0, [], [], false)
  }

  /** One more written to the eventfd. */
  function Bumped(counter: nat): nat {
    if counter < MAX_COUNT then counter + 1 else counter
  }

  /** Where the loop thread runs code of others: outside its loop, in a channel's callback, or in a functor. */
  predicate InCallback<F>(s: State<F>) {
    !s.selfPushed && (s.pc == Idle || s.pc == Handling || s.pc.Inside?)
  }

  predicate Enabled<F>(s: State<F>, a: Action<F>) {
    match a
    case Push(_) => true
    case Wake => s.waking > 0
    case Quit => true
    case QuitWake => s.quitting > 0
    case SelfPush(_) => InCallback(s)
    case SelfWake => s.selfPushed
    case SelfQuit => InCallback(s)
    case Loop => s.pc == Idle && !s.selfPushed
    case CheckQuit => s.pc == Test
    case PollReturn => s.pc == Polling
    case HandleRead => s.pc == Handling && !s.selfPushed
    case EndHandling => s.pc == Handling && !s.selfPushed
    case Swap => s.pc == Calling
    case Next => s.pc.Running?
    case Return => s.pc.Inside? && !s.selfPushed
  }

  /** The loop around the batch: the next functor, or, past the last, the end of doPendingFunctors, which
      leaves callingPendingFunctors_ set when the batch was empty. */
  function DoNext<F>(s: State<F>): State<F>
    requires s.pc.Running?
  {
    if s.pc.i < |s.functors| then s.(pc := Inside(s.pc.i), executed := s.executed + [s.functors[s.pc.i]])
    else if s.functors == [] then s.(pc := Test)
    else s.(pc := Test, functors := [], calling := false)
  }

  function Do<F>(s: State<F>, a: Action<F>): State<F>
    requires Enabled(s, a)
  {
    match a
    case Push(cb) => s.(pending := s.pending + [cb], pushed := s.pushed + [cb], waking := s.waking + 1)
    case Wake => s.(waking := s.waking - 1, counter := Bumped(s.counter))
    case Quit => s.(quit := true, quitting := s.quitting + 1)
    case QuitWake => s.(quitting := s.quitting - 1, counter := Bumped(s.counter))
    case SelfPush(cb) => s.(pending := s.pending + [cb], pushed := s.pushed + [cb], selfPushed := true)
    case SelfWake =>
      if s.calling then s.(selfPushed := false, counter := Bumped(s.counter))
      else s.(selfPushed := false, early := s.early || s.pc == Idle)
    case SelfQuit => s.(quit := true)
    case Loop => s.(pc := Test, quit := false)
    case CheckQuit => if s.quit then s.(pc := Idle) else s.(pc := Polling)
    case PollReturn => s.(pc := Handling)
    case HandleRead => s.(counter := 0)
    case EndHandling => s.(pc := Calling, calling := true)
    case Swap => s.(pc := Running(0), functors := s.pending, pending := [], early := false)
    case Next => DoNext(s)
    case Return => s.(pc := Running(s.pc.i + 1))
  }

  function Run<F>(run: seq<Action<F>>): Option<State<F>> {
    if run == [] then Some(Init())
    else
      var s := Run(run[..|run| - 1]);
      if s.Some? && Enabled(s.value, run[|run| - 1]) then Some(Do(s.value, run[|run| - 1])) else None
  }

  // ---------------------------------------------------------------- invariants

  /** How many functors of the batch have been called. */
  function Called<F>(s: State<F>): nat {
    match s.pc
    case Running(i) => i
    case Inside(i) => i + 1
    case _ => 0
  }

  /** Between a swap and the next poll's return, what is pending has a wake-up under way. */
  predicate WakeOk<F>(s: State<F>) {
    s.pending != [] && !(s.pc == Handling || s.pc == Calling) ==>
      s.counter > 0 || s.waking > 0 || s.selfPushed || s.early
  }

  predicate QuitOk<F>(s: State<F>) {
    s.pc == Polling && s.quit ==> s.counter > 0 || s.quitting > 0
  }

  predicate PlaceOk<F>(s: State<F>) {
    && (s.selfPushed ==> s.pc == Idle || s.pc == Handling || s.pc.Inside?)
    && (s.pc == Calling || s.pc.Running? || s.pc.Inside? ==> s.calling)
    && (s.pc.Running? || s.pc.Inside? || s.functors == [])
    && Called(s) <= |s.functors|
  }

  predicate Conserved<F(==)>(s: State<F>) {
    Called(s) <= |s.functors| && s.pushed == s.executed + s.functors[Called(s)..] + s.pending
  }

  predicate Inv<F(==)>(s: State<F>) {
    PlaceOk(s) && WakeOk(s) && QuitOk(s) && Conserved(s)
  }

  /** s is where the run leads. */
  predicate Reaches<F(==)>(run: seq<Action<F>>, s: State<F>) {
    Run(run) == Some(s)
  }

  lemma {:induction false} RunKeeps<F>(run: seq<Action<F>>, s: State<F>)
    requires Reaches(run, s)
    ensures Inv(s)
  {
    if run == [] {
    } else {
      var t := Run(run[..|run| - 1]).value;
      RunKeeps(run[..|run| - 1], t);
      StepKeeps(t, run[|run| - 1]);
    }
  }

  lemma StepKeeps<F>(s: State<F>, a: Action<F>)
    requires Inv(s) && Enabled(s, a)
    ensures Inv(Do(s, a))
  {
    StepPlace(s, a);
    StepWake(s, a);
    StepConserved(s, a);
  }

  lemma StepPlace<F>(s: State<F>, a: Action<F>)
    requires PlaceOk(s) && Enabled(s, a)
    ensures PlaceOk(Do(s, a))
  {
  }

  lemma StepWake<F>(s: State<F>, a: Action<F>)
    requires PlaceOk(s) && WakeOk(s) && QuitOk(s) && Enabled(s, a)
    ensures WakeOk(Do(s, a)) && QuitOk(Do(s, a))
  {
  }

  lemma StepConserved<F>(s: State<F>, a: Action<F>)
    requires PlaceOk(s) && Conserved(s) && Enabled(s, a)
    ensures Conserved(Do(s, a))
  {
    match a
    case Push(cb) => Append(s.executed + s.functors[Called(s)..], s.pending, cb);
    case SelfPush(cb) => Append(s.executed + s.functors[Called(s)..], s.pending, cb);
    case Swap => SwapConserved(s);
    case Next => NextConserved(s);
    case _ =>
      var s' := Do(s, a);
      assert s'.functors == s.functors && Called(s') == Called(s);
  }

  lemma SwapConserved<F>(s: State<F>)
    requires PlaceOk(s) && Conserved(s) && s.pc == Calling
    ensures Conserved(Do(s, Swap))
  {
    assert s.functors[Called(s)..] == [] && Do(s, Swap).functors[0..] == s.pending;
  }

  lemma NextConserved<F>(s: State<F>)
    requires PlaceOk(s) && Conserved(s) && s.pc.Running?
    ensures Conserved(DoNext(s))
  {
    var i := s.pc.i;
    if i < |s.functors| {
      assert s.functors[i..] == [s.functors[i]] + s.functors[i + 1..];
    } else {
      assert s.functors[i..] == [] == DoNext(s).functors[0..];
    }
  }

  lemma Append<F>(a: seq<F>, b: seq<F>, x: F)
    ensures a + b + [x] == a + (b + [x])
  {
  }

  // ---------------------------------------------------------------- what the loop promises

  /** Whether, since the last swap, the loop's own thread queued a functor outside its loop with the flag not set. */
  predicate QueuedOutside<F>(run: seq<Action<F>>)
    requires Run(run).Some?
  {
    if run == [] then false
    else
      var a, earlier := run[|run| - 1], run[..|run| - 1];
      if a.Swap? then false
      else (a.SelfWake? && Run(earlier).value.pc == Idle && !Run(earlier).value.calling) || QueuedOutside(earlier)
  }

  lemma StepEarly<F>(s: State<F>, a: Action<F>)
    requires Enabled(s, a)
    ensures Do(s, a).early <==> if a.Swap? then false else (a.SelfWake? && s.pc == Idle && !s.calling) || s.early
  {
  }

  lemma {:induction false} EarlyIsHistory<F>(run: seq<Action<F>>, s: State<F>)
    requires Reaches(run, s)
    ensures s.early <==> QueuedOutside(run)
    decreases |run|
  {
    if run != [] {
      var t := Run(run[..|run| - 1]).value;
      EarlyIsHistory(run[..|run| - 1], t);
      StepEarly(t, run[|run| - 1]);
    }
  }

  /** Whenever the loop thread is at poll with functors pending, the eventfd is readable or another thread is about to
      make it so, unless the loop's own thread queued a functor outside its callbacks. */
  lemma PendingIsAwaited<F>(run: seq<Action<F>>, s: State<F>)
    requires Reaches(run, s)
    ensures s.pc == Polling && s.pending != [] && !QueuedOutside(run) ==> s.counter > 0 || s.waking > 0
  {
    RunKeeps(run, s);
    EarlyIsHistory(run, s);
  }

  /** The functors queued, in the order of the critical sections. */
  function Queued<F>(run: seq<Action<F>>): seq<F> {
    if run == [] then []
    else
      var a, earlier := run[|run| - 1], Queued(run[..|run| - 1]);
      if a.Push? || a.SelfPush? then earlier + [a.cb] else earlier
  }

  lemma StepPushed<F>(s: State<F>, a: Action<F>)
    requires Enabled(s, a)
    ensures Do(s, a).pushed == if a.Push? || a.SelfPush? then s.pushed + [a.cb] else s.pushed
  {
  }

  lemma {:induction false} PushedAreQueued<F>(run: seq<Action<F>>, s: State<F>)
    requires Reaches(run, s)
    ensures s.pushed == Queued(run)
    decreases |run|
  {
    if run != [] {
      var t := Run(run[..|run| - 1]).value;
      PushedAreQueued(run[..|run| - 1], t);
      StepPushed(t, run[|run| - 1]);
    }
  }

  /** What the loop's thread does by itself between two polls. */
  predicate OwnStep<F>(a: Action<F>) {
    a.Loop? || a.CheckQuit? || a.HandleRead? || a.EndHandling? || a.Swap? || a.Next? || a.Return?
  }

  /** What is pending will be taken before the next poll, or has made the eventfd readable. */
  predicate Awaited<F>(s: State<F>) {
    s.pc == Handling || s.pc == Calling || s.counter > 0 || s.pending == []
  }

  predicate Unawaited<F>(s: State<F>) {
    (s.pc == Idle || s.pc == Test || s.pc == Polling) && s.counter == 0 && s.pending != []
  }

  lemma RunOne<F>(run: seq<Action<F>>, a: Action<F>)
    requires Run(run + [a]).Some?
    ensures Run(run).Some? && Enabled(Run(run).value, a) && Run(run + [a]).value == Do(Run(run).value, a)
  {
    assert (run + [a])[..|run|] == run;
  }

  lemma OwnStepKeeps<F>(s: State<F>, a: Action<F>)
    requires Enabled(s, a) && OwnStep(a)
    ensures Awaited(s) ==> Awaited(Do(s, a))
    ensures Unawaited(s) ==> Unawaited(Do(s, a))
  {
  }

  lemma {:induction false} OwnRun<F>(run: seq<Action<F>>, more: seq<Action<F>>)
    requires Run(run + more).Some? && forall i :: 0 <= i < |more| ==> OwnStep(more[i])
    ensures Run(run).Some?
    ensures Awaited(Run(run).value) ==> Awaited(Run(run + more).value)
    ensures Unawaited(Run(run).value) ==> Unawaited(Run(run + more).value)
    decreases |more|
  {
    if more == [] {
      assert run + more == run;
    } else {
      var n := |more| - 1;
      assert run + more == run + more[..n] + [more[n]];
      RunOne(run + more[..n], more[n]);
      OwnRun(run, more[..n]);
      OwnStepKeeps(Run(run + more[..n]).value, more[n]);
    }
  }

  /** A functor the loop's own thread queues while nothing else is under way is taken, or has made the eventfd readable,
      by the time the thread comes to poll next, if and only if the thread was in its loop or the flag still set. */
  lemma SelfQueueIsAwaited<F>(run: seq<Action<F>>, s: State<F>, cb: F, more: seq<Action<F>>, t: State<F>)
    requires Reaches(run, s) && s.counter == 0
    requires Reaches(run + [SelfPush(cb)] + [SelfWake] + more, t) && t.pc == Polling
    requires forall i :: 0 <= i < |more| ==> OwnStep(more[i])
    ensures t.pending == [] || t.counter > 0 <==> !(s.pc == Idle && !s.calling)
  {
    RunKeeps(run, s);
    OwnRun(run + [SelfPush(cb)] + [SelfWake], more);
    RunOne(run + [SelfPush(cb)], SelfWake);
    RunOne(run, SelfPush(cb));
  }

  /** The exception is real: the loop then sleeps on a functor. */
  lemma EarlyPushSleeps()
    ensures var run := [SelfPush(7), SelfWake, Loop, CheckQuit];
            Run(run).Some? && var s := Run(run).value;
            s.pc == Polling && s.pending == [7] && s.counter == 0 && s.waking == 0 && s.early
  {
    var run: seq<Action<int>> := [SelfPush(7), SelfWake, Loop, CheckQuit];
    assert run[..3] == [SelfPush(7), SelfWake, Loop] && run[..3][..2] == [SelfPush(7), SelfWake];
    assert run[..3][..2][..1] == [SelfPush(7)] && run[..3][..2][..1][..0] == [];
    assert Run(run[..3][..2][..1]).Some?;
    assert Run(run[..3][..2]).Some?;
    assert Run(run[..3]).Some?;
  }

  /** A quit from another thread is not slept through. */
  lemma QuitIsAwaited<F>(run: seq<Action<F>>, s: State<F>)
    requires Reaches(run, s)
    ensures s.pc == Polling && s.quit ==> s.counter > 0 || s.quitting > 0
  {
    RunKeeps(run, s);
  }

  /** Whether quit was called, by any thread, since loop() was entered, or since the beginning. */
  predicate QuitAsked<F>(run: seq<Action<F>>) {
    if run == [] then false
    else
      var a := run[|run| - 1];
      if a.Quit? || a.SelfQuit? then true else if a.Loop? then false else QuitAsked(run[..|run| - 1])
  }

  lemma StepQuit<F>(s: State<F>, a: Action<F>)
    requires Enabled(s, a)
    ensures Do(s, a).quit <==> if a.Quit? || a.SelfQuit? then true else if a.Loop? then false else s.quit
  {
  }

  lemma {:induction false} QuitIsAsked<F>(run: seq<Action<F>>, s: State<F>)
    requires Reaches(run, s)
    ensures s.quit <==> QuitAsked(run)
    decreases |run|
  {
    if run != [] {
      var t := Run(run[..|run| - 1]).value;
      QuitIsAsked(run[..|run| - 1], t);
      StepQuit(t, run[|run| - 1]);
    }
  }

  /** The loop test leaves the loop if and only if quit was called, by any thread, since loop() was entered. */
  lemma QuitEndsLoop<F>(run: seq<Action<F>>, s: State<F>)
    requires Reaches(run, s) && s.pc == Test
    ensures s.quit <==> QuitAsked(run)
    ensures Run(run + [CheckQuit]).Some?
    ensures Run(run + [CheckQuit]).value.pc == if QuitAsked(run) then Idle else Polling
  {
    QuitIsAsked(run, s);
    assert (run + [CheckQuit])[..|run|] == run;
  }

  /** The functors called, the rest of the batch and the pending ones are, in this order, exactly those queued: each is
      called at most once, and in the order of the pushes. */
  lemma CalledInOrder<F>(run: seq<Action<F>>, s: State<F>)
    requires Reaches(run, s)
    ensures Called(s) <= |s.functors| && Queued(run) == s.executed + s.functors[Called(s)..] + s.pending
            && s.executed <= Queued(run) && s.pushed == Queued(run)
  {
    RunKeeps(run, s);
    PushedAreQueued(run, s);
  }

  /** How many functors have been taken off the pending list. */
  function Taken<F>(s: State<F>): int {
    |s.pushed| - |s.pending|
  }

  lemma {:induction false} TakenGrows<F>(run: seq<Action<F>>, more: seq<Action<F>>)
    requires Run(run + more).Some?
    ensures Run(run).Some?
    ensures Taken(Run(run).value) <= Taken(Run(run + more).value)
            && Run(run).value.pushed <= Run(run + more).value.pushed
    decreases |more|
  {
    if more == [] {
      assert run + more == run;
    } else {
      var n := |more| - 1;
      assert (run + more)[..|run + more| - 1] == run + more[..n] && (run + more)[|run + more| - 1] == more[n];
      TakenGrows(run, more[..n]);
    }
  }

  /** Everything pending at a swap has been called by the time the loop tests quit_ again. */
  lemma SwappedAreCalled<F>(run: seq<Action<F>>, more: seq<Action<F>>)
    requires Run(run + [Swap]).Some? && Run(run + [Swap] + more).Some?
    requires Run(run + [Swap] + more).value.pc == Test
    ensures Run(run).Some? && Run(run).value.pushed <= Run(run + [Swap] + more).value.executed
  {
    assert (run + [Swap])[..|run|] == run && (run + [Swap])[|run|] == Swap;
    TakenGrows(run + [Swap], more);
    var t := Run(run + [Swap] + more).value;
    RunKeeps(run + [Swap] + more, t);
    assert t.functors[Called(t)..] == [];
    AllTaken(Run(run).value.pushed, t.pushed, t.executed, t.pending);
  }

  lemma AllTaken<F>(before: seq<F>, pushed: seq<F>, executed: seq<F>, pending: seq<F>)
    requires before <= pushed && pushed == executed + [] + pending && |before| <= |pushed| - |pending|
    ensures before <= executed
  {
  }

  /** Either the swap is still to come, or it has taken the functors of the first n pushes. */
  predicate TakesAll<F>(s: State<F>, n: nat) {
    s.pc == Handling || s.pc == Calling || Taken(s) >= n
  }

  lemma StepTakes<F>(s: State<F>, a: Action<F>, n: nat)
    requires PlaceOk(s) && TakesAll(s, n) && |s.pushed| >= n && Enabled(s, a)
    ensures TakesAll(Do(s, a), n) && s.pushed <= Do(s, a).pushed
  {
  }

  lemma {:induction false} RunTakes<F>(run: seq<Action<F>>, more: seq<Action<F>>, before: seq<F>)
    requires Run(run + more).Some? && Run(run).Some?
    requires TakesAll(Run(run).value, |before|) && before <= Run(run).value.pushed
    ensures TakesAll(Run(run + more).value, |before|) && before <= Run(run + more).value.pushed
    decreases |more|
  {
    if more == [] {
      assert run + more == run;
    } else {
      var n := |more| - 1;
      assert run + more == run + more[..n] + [more[n]];
      RunOne(run + more[..n], more[n]);
      RunTakes(run, more[..n], before);
      RunKeeps(run + more[..n], Run(run + more[..n]).value);
      StepTakes(Run(run + more[..n]).value, more[n], |before|);
    }
  }

  /** Everything queued when poll returns has been called by the time the loop tests quit_ again. */
  lemma PolledAreCalled<F>(run: seq<Action<F>>, more: seq<Action<F>>)
    requires Run(run + [PollReturn]).Some? && Run(run + [PollReturn] + more).Some?
    requires Run(run + [PollReturn] + more).value.pc == Test
    ensures Run(run).Some? && Run(run).value.pushed <= Run(run + [PollReturn] + more).value.executed
  {
    RunOne(run, PollReturn);
    var before, t := Run(run).value.pushed, Run(run + [PollReturn] + more).value;
    RunTakes(run + [PollReturn], more, before);
    RunKeeps(run + [PollReturn] + more, t);
    assert t.functors[Called(t)..] == [];
    AllTaken(before, t.pushed, t.executed, t.pending);
  }

  /** Any thread may queue and quit at any time, and the loop's own thread in every callback. */
  lemma CallsAnyTime<F>(run: seq<Action<F>>, s: State<F>, cb: F)
    requires Reaches(run, s)
    ensures Run(run + [Push(cb)]).Some? && Run(run + [Quit]).Some?
    ensures !s.selfPushed && (s.pc == Idle || s.pc == Handling || s.pc.Inside?) ==>
              Run(run + [SelfPush(cb)]).Some? && Run(run + [SelfQuit]).Some?
    ensures !s.selfPushed && s.pc == Handling ==> Run(run + [HandleRead]).Some?
  {
    assert forall a: Action<F> :: (run + [a])[..|run|] == run;
  }

  /** The loop thread's steps that need no other thread. */
  function NextStep<F>(s: State<F>): Action<F> {
    match s.pc
    case Idle => Loop
    case Test => CheckQuit
    case Polling => PollReturn
    case Handling => EndHandling
    case Calling => Swap
    case Running(_) => Next
    case Inside(_) => Return
  }

  /** How far the thread is from its next loop test. */
  function Distance<F>(s: State<F>): nat {
    match s.pc
    case Idle => 1
    case Test => 0
    case Polling => 2 * |s.pending| + 5
    case Handling => 2 * |s.pending| + 4
    case Calling => 2 * |s.pending| + 3
    case Running(i) => (if i < |s.functors| then 2 * (|s.functors| - i) else 0) + 1
    case Inside(i) => (if i + 1 < |s.functors| then 2 * (|s.functors| - i - 1) else 0) + 2
  }

  lemma StepNears<F>(s: State<F>)
    requires !s.selfPushed && Distance(s) > 0
    ensures var a := NextStep(s);
            Enabled(s, a) && !Do(s, a).selfPushed && Distance(Do(s, a)) < Distance(s) && Do(s, a).pushed == s.pushed
            && (s.pc != Idle ==> Do(s, a).quit == s.quit && Do(s, a).pc != Idle)
  {
  }

  /** The loop thread always comes, by its own steps, to its next loop test. */
  lemma {:induction false} ComesToTest<F>(run: seq<Action<F>>, s: State<F>)
    returns (more: seq<Action<F>>, t: State<F>)
    requires Reaches(run, s) && !s.selfPushed
    ensures Reaches(run + more, t) && t.pc == Test && t.pushed == s.pushed && (s.pc != Idle ==> t.quit == s.quit)
    ensures forall i :: 0 <= i < |more| ==> OwnStep(more[i]) || more[i].PollReturn?
    decreases Distance(s)
  {
    if Distance(s) == 0 {
      more, t := [], s;
      assert run + more == run;
    } else {
      var a := NextStep(s);
      StepNears(s);
      assert (run + [a])[..|run|] == run;
      var rest;
      rest, t := ComesToTest(run + [a], Do(s, a));
      more := [a] + rest;
      assert run + [a] + rest == run + more;
    }
  }

  /** Progress: when poll returns, the loop thread comes by its own steps to its loop test with exactly the functors
      queued by then called. */
  lemma PolledGetCalled<F>(run: seq<Action<F>>, s: State<F>) returns (more: seq<Action<F>>, t: State<F>)
    requires Reaches(run, s) && s.pc == Polling
    ensures Reaches(run + [PollReturn] + more, t) && t.pc == Test && t.executed == s.pushed
    ensures forall i :: 0 <= i < |more| ==> OwnStep(more[i]) || more[i].PollReturn?
  {
    assert (run + [PollReturn])[..|run|] == run;
    RunKeeps(run, s);
    more, t := ComesToTest(run + [PollReturn], Do(s, PollReturn));
    PolledAreCalled(run, more);
    CalledInOrder(run + [PollReturn] + more, t);
  }

  /** And when quit was called, by any thread, loop() returns. */
  lemma LoopReturns<F>(run: seq<Action<F>>, s: State<F>) returns (more: seq<Action<F>>, t: State<F>)
    requires Reaches(run, s) && s.pc != Idle && !s.selfPushed && QuitAsked(run)
    ensures Reaches(run + more, t) && t.pc == Idle
    ensures forall i :: 0 <= i < |more| ==> OwnStep(more[i]) || more[i].PollReturn?
  {
    QuitIsAsked(run, s);
    var first, u := ComesToTest(run, s);
    QuitIsAsked(run + first, u);
    QuitEndsLoop(run + first, u);
    more, t := first + [CheckQuit], Do(u, CheckQuit);
    assert run + more == run + first + [CheckQuit];
    RunOne(run + first, CheckQuit);
  }

  /** Whether the last swap, if there was one, found nothing pending. */
  predicate LastBatchEmpty<F>(run: seq<Action<F>>)
    requires Run(run).Some?
  {
    if run == [] then false
    else
      var earlier := run[..|run| - 1];
      if run[|run| - 1].Swap? then Run(earlier).value.pending == [] else LastBatchEmpty(earlier)
  }

  /** What the flag and the batch at hand say of whether that was so. */
  predicate BatchOk<F(==)>(s: State<F>, empty: bool) {
    if s.pc.Running? || s.pc.Inside? then empty <==> s.functors == [] else s.pc == Calling || (s.calling <==> empty)
  }

  lemma BatchStep<F>(s: State<F>, a: Action<F>, empty: bool)
    requires PlaceOk(s) && BatchOk(s, empty) && Enabled(s, a)
    ensures BatchOk(Do(s, a), if a.Swap? then s.pending == [] else empty)
  {
  }

  lemma {:induction false} BatchIsLast<F>(run: seq<Action<F>>, s: State<F>)
    requires Reaches(run, s)
    ensures BatchOk(s, LastBatchEmpty(run))
    decreases |run|
  {
    if run != [] {
      var t := Run(run[..|run| - 1]).value;
      RunKeeps(run[..|run| - 1], t);
      BatchIsLast(run[..|run| - 1], t);
      BatchStep(t, run[|run| - 1], LastBatchEmpty(run[..|run| - 1]));
    }
  }

  /** callingPendingFunctors_ stays set after an empty batch: outside doPendingFunctors it is set if and only if the
      last batch was empty. */
  lemma FlagSticks<F>(run: seq<Action<F>>, s: State<F>)
    requires Reaches(run, s) && (s.pc == Idle || s.pc == Test || s.pc == Polling || s.pc == Handling)
    ensures s.calling <==> LastBatchEmpty(run)
  {
    BatchIsLast(run, s);
  }

  function Min(a: nat, b: nat): nat {
    if a < b then a else b
  }

  /** Whether the step calls wakeup. */
  predicate Wakes<F>(s: State<F>, a: Action<F>) {
    a.Wake? || a.QuitWake? || (a.SelfWake? && s.calling)
  }

  lemma WakeStep<F>(s: State<F>, a: Action<F>)
    requires Enabled(s, a)
    ensures Do(s, a).counter == if a.HandleRead? then 0 else if Wakes(s, a) then Bumped(s.counter) else s.counter
  {
  }

  /** How often wakeup was called since the eventfd was last read. */
  function WakeupsSinceRead<F>(run: seq<Action<F>>): nat
    requires Run(run).Some?
  {
    if run == [] then 0
    else
      var earlier, a := run[..|run| - 1], run[|run| - 1];
      if a.HandleRead? then 0 else WakeupsSinceRead(earlier) + if Wakes(Run(earlier).value, a) then 1 else 0
  }

  /** What the eventfd holds is that number, as far as it goes: no wake-up is lost but those that find the counter
      full. */
  lemma {:induction false} CounterCountsWakeups<F>(run: seq<Action<F>>, s: State<F>)
    requires Reaches(run, s)
    ensures s.counter == Min(WakeupsSinceRead(run), MAX_COUNT)
    decreases |run|
  {
    if run != [] {
      var t := Run(run[..|run| - 1]).value;
      CounterCountsWakeups(run[..|run| - 1], t);
      WakeStep(t, run[|run| - 1]);
    }
  }
}
