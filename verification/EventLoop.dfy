/** The event loop as it is built.  Each method is one atomic step of some thread; a ghost state says
    which step of `EventLoopSpec` it is.  `poll` and the calls of the functors themselves happen between steps. */
module EventLoop {
  import opened EventLoopSpec

  class EventLoop<F(==)> {
    var looping: bool
    var quit: bool
    var callingPendingFunctors: bool
    var pendingFunctors: seq<F>
    var wakeupCount: nat  // the counter behind wakeupFd_

    // The local variables of doPendingFunctors.
    var functors: seq<F>
    var next: nat

    ghost var state: State<F>

    ghost predicate Valid()
      reads this
    {
      && quit == state.quit && callingPendingFunctors == state.calling && pendingFunctors == state.pending
      && wakeupCount == state.counter && functors == state.functors && next == Called(state)
      && (looping <==> state.pc != Idle)
      && Inv(state)
    }

    constructor ()
      ensures Valid() && state == Init()
    {
      looping, quit, callingPendingFunctors := false, false, false;
      pendingFunctors, wakeupCount, functors, next := [], 0, [], 0;
      state := Init();
    }

    /** wakeup(): a write of 1 to the eventfd, which fails when the counter is full. */
    method Wakeup()
      modifies this`wakeupCount
      ensures wakeupCount == Bumped(old(wakeupCount))
    {
      if wakeupCount < 0xFFFF_FFFF_FFFF_FFFE {
        wakeupCount := wakeupCount + 1;
      }
    }

    /** queueInLoop up to the end of its critical section, in the loop thread or in another. */
    method QueuePush(cb: F, inLoopThread: bool)
      requires Valid() && (inLoopThread ==> InCallback(state))
      modifies this
      ensures Valid() && state == Do(old(state), if inLoopThread then SelfPush(cb) else Push(cb))
      ensures pendingFunctors == old(pendingFunctors) + [cb]
    {
      StepKeeps(state, if inLoopThread then SelfPush(cb) else Push(cb));
      pendingFunctors := pendingFunctors + [cb];
      state := Do(state, if inLoopThread then SelfPush(cb) else Push(cb));
    }

    /** The rest of queueInLoop. */
    method QueueWake(inLoopThread: bool)
      requires Valid() && (if inLoopThread then state.selfPushed else state.waking > 0)
      modifies this
      ensures Valid() && state == Do(old(state), if inLoopThread then SelfWake else Wake)
      ensures wakeupCount == if inLoopThread && !old(callingPendingFunctors) then old(wakeupCount)
                             else Bumped(old(wakeupCount))
    {
      StepKeeps(state, if inLoopThread then SelfWake else Wake);
      if !inLoopThread || callingPendingFunctors {
        Wakeup();
      }
      state := Do(state, if inLoopThread then SelfWake else Wake);
    }

    /** runInLoop: the loop thread calls cb at once; another thread queues it, and has to go on with QueueWake. */
    method RunInLoop(cb: F, inLoopThread: bool) returns (callNow: bool)
      requires Valid()
      modifies this
      ensures Valid() && callNow == inLoopThread
      ensures state == if inLoopThread then old(state) else Do(old(state), Push(cb))
      ensures pendingFunctors == old(pendingFunctors) + if inLoopThread then [] else [cb]
    {
      callNow := inLoopThread;
      if !inLoopThread {
        QueuePush(cb, false);
      }
    }

    method Quit(inLoopThread: bool)
      requires Valid() && (inLoopThread ==> InCallback(state))
      modifies this
      ensures Valid() && state == Do(old(state), if inLoopThread then SelfQuit else Action.Quit)
      ensures quit
    {
      StepKeeps(state, if inLoopThread then SelfQuit else Action.Quit);
      quit := true;
      state := Do(state, if inLoopThread then SelfQuit else Action.Quit);
    }

    /** The rest of quit() in another thread. */
    method QuitWakeup()
      requires Valid() && state.quitting > 0
      modifies this
      ensures Valid() && state == Do(old(state), QuitWake)
    {
      StepKeeps(state, QuitWake);
      Wakeup();
      state := Do(state, QuitWake);
    }

    method EnterLoop()
      requires Valid() && state.pc == Idle && !state.selfPushed
      modifies this
      ensures Valid() && state == Do(old(state), Loop)
      ensures looping && !quit
    {
      StepKeeps(state, Loop);
      looping := true;
      quit := false;
      state := Do(state, Loop);
    }

    /** The test of the loop; poll is next when it says so. */
    method TestQuit() returns (goOn: bool)
      requires Valid() && state.pc == Test
      modifies this
      ensures Valid() && state == Do(old(state), CheckQuit) && goOn == !quit
      ensures looping == goOn
    {
      StepKeeps(state, CheckQuit);
      goOn := !quit;
      if quit {
        looping := false;
      }
      state := Do(state, CheckQuit);
    }

    method AfterPoll()
      requires Valid() && state.pc == Polling
      modifies this
      ensures Valid() && state == Do(old(state), PollReturn) && state.pc == Handling
    {
      StepKeeps(state, PollReturn);
      state := Do(state, PollReturn);
    }

    /** handleRead(): reading the eventfd takes its whole count. */
    method ReadEventFd()
      requires Valid() && state.pc == Handling && !state.selfPushed
      modifies this
      ensures Valid() && state == Do(old(state), HandleRead)
      ensures wakeupCount == 0
    {
      StepKeeps(state, HandleRead);
      wakeupCount := 0;
      state := Do(state, HandleRead);
    }

    /** The beginning of doPendingFunctors. */
    method BeginPending()
      requires Valid() && state.pc == Handling && !state.selfPushed
      modifies this
      ensures Valid() && state == Do(old(state), EndHandling)
      ensures callingPendingFunctors
    {
      StepKeeps(state, EndHandling);
      functors := [];
      callingPendingFunctors := true;
      state := Do(state, EndHandling);
    }

    /** Its critical section. */
    method SwapPending()
      requires Valid() && state.pc == Calling
      modifies this
      ensures Valid() && state == Do(old(state), Swap)
      ensures functors == old(pendingFunctors) && pendingFunctors == []
    {
      StepKeeps(state, Swap);
      functors, pendingFunctors := pendingFunctors, functors;
      next := 0;
      state := Do(state, Swap);
    }

    /** One turn of its loop: a functor to call, or its end. */
    method NextFunctor() returns (more: bool)
      requires Valid() && state.pc.Running?
      modifies this
      ensures Valid() && state == Do(old(state), Next) && more == (old(next) < |old(functors)|)
      ensures more ==> next == old(next) + 1 && functors == old(functors)
      ensures !more ==> functors == [] && (callingPendingFunctors <==> old(functors) == [])
    {
      StepKeeps(state, Next);
      more := next < |functors|;
      if more {
        next := next + 1;
      } else {
        if functors != [] {
          callingPendingFunctors := false;
        }
        functors, next := [], 0;
      }
      state := Do(state, Next);
    }

    method FunctorReturned()
      requires Valid() && state.pc.Inside? && !state.selfPushed
      modifies this
      ensures Valid() && state == Do(old(state), Return)
    {
      StepKeeps(state, Return);
      state := Do(state, Return);
    }
  }
}
