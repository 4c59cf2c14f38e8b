/** The event loop's task queue and its wakeup eventfd, between the loop thread and any number of others.
    A step is one critical section, one system call, or one stretch of a thread's own work. */
module EventLoop {

  /** A queued functor; early ones were queued by the loop thread itself while loop() was not running. */
  datatype Functor = Functor(id: int, early: bool)

  /** Where the loop thread is. */
  datatype Pc =
    | Outside               // loop() is not running
    | LoopHead              // about to test quit_
    | Polling
    | Handling(woken: bool) // the event handlers; woken: the wakeup channel's is still to come
    | BeforeSwap            // doPendingFunctors() has begun
    | Running(index: nat)   // calling functors[index]

  /** The counter of an eventfd cannot go beyond this. */
  const EVENTFD_MAX: nat := 0xffff_ffff_ffff_fffe

  datatype Loop = Loop(pc: Pc, quit: bool, calling: bool, pending: seq<Functor>, batch: seq<Functor>, counter: nat,
                       pushed: nat,    // other threads between their push and their wakeup()
                       quitting: nat,  // other threads between quit_ = true and their wakeup()
                       owing: bool)    // the loop thread is between its push and its wakeup()

  /** write() of 1 to the eventfd: fails when the counter is at its maximum. */
  function Woken(counter: nat): nat { if counter < EVENTFD_MAX then counter + 1 else counter }

  datatype Action =
    // other threads
    | OtherPush(id: int) | OtherWakeup | OtherQuit | QuitWakeup
    // the loop thread, in user code
    | OwnPush(id: int) | OwnWakeup | OwnQuit
    // the loop thread, in loop()
    | StartLoop | TestQuit | PollReturns | HandleRead | BeginPending | SwapPending | Call | EndPending

  /** User code of the loop thread runs outside loop(), in event handlers, and inside functors. */
  predicate InUserCode(s: Loop) {
    !s.owing && (s.pc == Outside || s.pc.Handling? || (s.pc.Running? && 0 < s.pc.index <= |s.batch|))
  }

  predicate Enabled(s: Loop, a: Action) {
    match a
    case OtherPush(_) => true
    case OtherWakeup => s.pushed > 0
    case OtherQuit => true
    case QuitWakeup => s.quitting > 0
    case OwnPush(_) => InUserCode(s)
    case OwnWakeup => s.owing
    case OwnQuit => InUserCode(s)
    case StartLoop => s.pc == Outside && !s.owing
    case TestQuit => s.pc == LoopHead
    case PollReturns => s.pc == Polling
    case HandleRead => s.pc == Handling(true) && !s.owing
    case BeginPending => s.pc == Handling(false) && !s.owing
    case SwapPending => s.pc == BeforeSwap
    case Call => s.pc.Running? && s.pc.index < |s.batch| && !s.owing
    case EndPending => s.pc.Running? && s.pc.index >= |s.batch| && !s.owing
  }

  /** Running(i): the functors before i have been called (the last of them may still be at work). */
  function Next(s: Loop, a: Action): Loop
    requires Enabled(s, a)
  {
    match a
    case OtherPush(id) => s.(pending := s.pending + [Functor(id, false)], pushed := s.pushed + 1)
    case OtherWakeup => s.(pushed := s.pushed - 1, counter := Woken(s.counter))
    case OtherQuit => s.(quit := true, quitting := s.quitting + 1)
    case QuitWakeup => s.(quitting := s.quitting - 1, counter := Woken(s.counter))
    case OwnPush(id) => s.(pending := s.pending + [Functor(id, s.pc == Outside)], owing := s.calling)
    case OwnWakeup => s.(owing := false, counter := Woken(s.counter))
    case OwnQuit => s.(quit := true)
    case StartLoop => s.(pc := LoopHead, quit := false)
    case TestQuit => if s.quit then s.(pc := Outside) else s.(pc := Polling)
    case PollReturns => s.(pc := Handling(s.counter > 0))
    case HandleRead => s.(pc := Handling(false), counter := 0)
    case BeginPending => s.(pc := BeforeSwap, calling := true)
    case SwapPending => s.(pc := Running(0), batch := s.pending, pending := [])
    case Call => s.(pc := Running(s.pc.index + 1))
    case EndPending => s.(pc := LoopHead, calling := false, batch := [])
  }

  function Start(): Loop { Loop(Outside, false, false, [], [], 0, 0, 0, false) }

  // ----- no lost wakeup -----

  /** Someone will wake the loop, or already has. */
  predicate WakeupComing(s: Loop) { s.counter > 0 || s.pushed > 0 || s.owing }

  predicate HasLate(fs: seq<Functor>) { exists i :: 0 <= i < |fs| && !fs[i].early }

  predicate Ok(s: Loop) {
    && s.counter <= EVENTFD_MAX
    && (s.calling <==> (s.pc == BeforeSwap || s.pc.Running?))
    && (s.owing ==> s.pc.Running?)
    && (s.pc.Running? ==> s.pc.index <= |s.batch|)
    && (!s.pc.Running? ==> s.batch == [])
    && ((!s.pc.Handling? && s.pc != BeforeSwap) ==> HasLate(s.pending) ==> WakeupComing(s))
    && (s.pc == Polling && s.quit ==> s.counter > 0 || s.quitting > 0)
  }

  lemma HasLateMore(fs: seq<Functor>, f: Functor)
    ensures HasLate(fs + [f]) <==> HasLate(fs) || !f.early
  {
    var gs := fs + [f];
    assert gs[|fs|] == f;
    if HasLate(gs) {
      var i :| 0 <= i < |gs| && !gs[i].early;
      if i < |fs| { assert !fs[i].early; }
    }
    if HasLate(fs) {
      var i :| 0 <= i < |fs| && !fs[i].early;
      assert !gs[i].early;
    }
  }

  lemma StepOk(s: Loop, a: Action)
    requires Ok(s) && Enabled(s, a)
    ensures Ok(Next(s, a))
  {
    hide HasLate;
    match a {
      case OtherPush(id) => HasLateMore(s.pending, Functor(id, false));
      case OwnPush(id) => HasLateMore(s.pending, Functor(id, s.pc == Outside));
      case SwapPending => assert !HasLate([]) by { NoLate(); }
      case _ =>
    }
  }

  lemma NoLate()
    ensures !HasLate([])
  {
  }

  predicate IsRun(s: Loop, acts: seq<Action>)
    decreases |acts|, 0
  {
    acts == [] || (IsRun(s, acts[..|acts| - 1]) && Enabled(After(s, acts[..|acts| - 1]), acts[|acts| - 1]))
  }

  function After(s: Loop, acts: seq<Action>): Loop
    requires IsRun(s, acts)
    decreases |acts|, 1
  {
    if acts == [] then s else Next(After(s, acts[..|acts| - 1]), acts[|acts| - 1])
  }

  lemma {:induction false} RunOk(s: Loop, acts: seq<Action>)
    requires Ok(s) && IsRun(s, acts)
    ensures Ok(After(s, acts))
  {
    hide Next, Enabled, Ok;
    if acts != [] {
      RunOk(s, acts[..|acts| - 1]);
      StepOk(After(s, acts[..|acts| - 1]), acts[|acts| - 1]);
    }
  }

  /** No wakeup is lost: in any run, when the loop is about to poll or polls, and a functor waits that was queued
      while loop() was running or by another thread, the eventfd is readable or some thread is about to make it so;
      and the same for a request to quit. */
  lemma NoLostWakeup(acts: seq<Action>)
    requires IsRun(Start(), acts)
    ensures var s := After(Start(), acts);
            && ((s.pc == LoopHead || s.pc == Polling) && HasLate(s.pending) ==> s.counter > 0 || s.pushed > 0)
            && (s.pc == Polling && s.quit ==> s.counter > 0 || s.quitting > 0)
  {
    assert Ok(Start()) by { NoLate(); }
    RunOk(Start(), acts);
  }

  // ----- every functor once, in order -----

  /** All functors queued and all functors called, in order. */
  datatype History = History(queued: seq<Functor>, called: seq<Functor>)

  function Note(h: History, s: Loop, a: Action): History
    requires Enabled(s, a)
  {
    match a
    case OtherPush(id) => h.(queued := h.queued + [Functor(id, false)])
    case OwnPush(id) => h.(queued := h.queued + [Functor(id, s.pc == Outside)])
    case Call => h.(called := h.called + [s.batch[s.pc.index]])
    case _ => h
  }

  function Notes(s: Loop, acts: seq<Action>): History
    requires IsRun(s, acts)
  {
    if acts == [] then History([], [])
    else Note(Notes(s, acts[..|acts| - 1]), After(s, acts[..|acts| - 1]), acts[|acts| - 1])
  }

  function ToCall(s: Loop): seq<Functor> {
    if s.pc.Running? && s.pc.index <= |s.batch| then s.batch[s.pc.index..] else []
  }

  predicate Conserved(s: Loop, h: History) { h.called + ToCall(s) + s.pending == h.queued }

  lemma Assoc(a: seq<Functor>, b: seq<Functor>, c: seq<Functor>)
    ensures a + (b + c) == a + b + c
    ensures a + [] == a && [] + a == a
  {
  }

  lemma CallConserved(s: Loop, h: History)
    requires Enabled(s, Call) && Conserved(s, h)
    ensures Conserved(Next(s, Call), Note(h, s, Call))
  {
    var i := s.pc.index;
    assert s.batch[i..] == [s.batch[i]] + s.batch[i + 1..];
    Assoc(h.called, [s.batch[i]], s.batch[i + 1..]);
  }

  lemma StepConserved(s: Loop, h: History, a: Action)
    requires Ok(s) && Enabled(s, a) && Conserved(s, h)
    ensures Conserved(Next(s, a), Note(h, s, a))
  {
    match a {
      case Call => CallConserved(s, h);
      case SwapPending =>
        Assoc(h.called, [], s.pending);
        Assoc(h.called + s.pending, [], []);
      case EndPending => assert ToCall(s) == [];
      case OtherPush(id) => Assoc(h.called + ToCall(s), s.pending, [Functor(id, false)]);
      case OwnPush(id) => Assoc(h.called + ToCall(s), s.pending, [Functor(id, s.pc == Outside)]);
      case _ =>
    }
  }

  /** Over any run every queued functor has been called, is in the batch being called, or is pending; each is called
      at most once, and in the order in which they were queued. */
  lemma {:induction false} CalledOnceInOrder(acts: seq<Action>)
    requires IsRun(Start(), acts)
    ensures Conserved(After(Start(), acts), Notes(Start(), acts))
    ensures Notes(Start(), acts).called <= Notes(Start(), acts).queued
  {
    hide Next, Note, Enabled, Ok;
    if acts != [] {
      var p, a := acts[..|acts| - 1], acts[|acts| - 1];
      CalledOnceInOrder(p);
      assert Ok(Start()) by { StartOk(); }
      RunOk(Start(), p);
      StepConserved(After(Start(), p), Notes(Start(), p), a);
    }
  }

  lemma StartOk()
    ensures Ok(Start())
  {
    NoLate();
  }

  // ----- before loop() -----

  /** What the loop thread does by itself up to its first poll. */
  predicate Alone(a: Action) { a.OwnPush? || a == OwnQuit || a == StartLoop || a == TestQuit }

  /** Nothing wakes the loop thread, and all that is pending was queued before loop(). */
  predicate Quiet(s: Loop) {
    && (s.pc == Outside || s.pc == LoopHead || s.pc == Polling)
    && s.counter == 0 && s.pushed == 0 && s.quitting == 0 && !s.owing && !s.calling && !HasLate(s.pending)
    && (s.pc != Outside ==> !s.quit)
  }

  lemma StepQuiet(s: Loop, a: Action)
    requires Quiet(s) && Enabled(s, a) && Alone(a)
    ensures Quiet(Next(s, a))
  {
    hide HasLate;
    if a.OwnPush? { HasLateMore(s.pending, Functor(a.id, s.pc == Outside)); }
  }

  /** The exception, for all runs in which the loop thread is alone: whatever it queued before loop(), the first poll
      finds all of it pending and nothing that ends the wait; and whatever it asked before loop(), it does not quit. */
  lemma {:induction false} EarlyFunctorsWait(acts: seq<Action>)
    requires IsRun(Start(), acts) && forall i :: 0 <= i < |acts| ==> Alone(acts[i])
    ensures Quiet(After(Start(), acts)) && After(Start(), acts).pending == Notes(Start(), acts).queued
  {
    hide Next, Enabled, Quiet;
    if acts == [] {
      assert Quiet(Start()) by { StartQuiet(); }
    } else {
      var p, a := acts[..|acts| - 1], acts[|acts| - 1];
      assert forall i :: 0 <= i < |p| ==> p[i] == acts[i];
      EarlyFunctorsWait(p);
      StepQuiet(After(Start(), p), a);
      PushedAndNoted(After(Start(), p), Notes(Start(), p), a);
    }
  }

  lemma StartQuiet()
    ensures Quiet(Start())
  {
    NoLate();
  }

  lemma PushedAndNoted(s: Loop, h: History, a: Action)
    requires Enabled(s, a) && Alone(a) && s.pending == h.queued
    ensures Next(s, a).pending == Note(h, s, a).queued
  {
  }

  /** Steps of other threads. */
  predicate OfOthers(a: Action) { a.OtherPush? || a == OtherWakeup || a == OtherQuit || a == QuitWakeup }

  lemma {:induction false} OthersOnly(s: Loop, mid: seq<Action>)
    requires s.pc == LoopHead && !s.quit && IsRun(s, mid) && forall i :: 0 <= i < |mid| ==> OfOthers(mid[i])
    ensures After(s, mid).pc == LoopHead && (After(s, mid).quit <==> OtherQuit in mid)
  {
    if mid != [] {
      var p, a := mid[..|mid| - 1], mid[|mid| - 1];
      assert mid == p + [a];
      assert forall i :: 0 <= i < |p| ==> p[i] == mid[i];
      OthersOnly(s, p);
    }
  }

  /** A request to quit counts from the beginning of loop() on: one made before, by whatever thread, is forgotten; one
      made by another thread before the test of quit_ ends the loop at once. */
  lemma QuitBeforeLoop(s: Loop, mid: seq<Action>)
    requires s.pc == Outside && !s.owing && IsRun(Next(s, StartLoop), mid) && forall i :: 0 <= i < |mid| ==> OfOthers(mid[i])
    ensures var t := After(Next(s, StartLoop), mid);
            Enabled(t, TestQuit) && Next(t, TestQuit).pc == if OtherQuit in mid then Outside else Polling
  {
    OthersOnly(Next(s, StartLoop), mid);
  }

  // ----- progress: a woken loop calls everything that is pending -----

  function Calls(n: nat): seq<Action> { seq(n, i => Call) }

  lemma {:induction false} CallAll(s: Loop, n: nat)
    requires s.pc == Running(0) && !s.owing && n <= |s.batch|
    ensures IsRun(s, Calls(n)) && After(s, Calls(n)) == s.(pc := Running(n))
  {
    if n == 0 {
      assert Calls(0) == [];
    } else {
      assert Calls(n)[..n - 1] == Calls(n - 1) && Calls(n)[n - 1] == Call;
      CallAll(s, n - 1);
    }
  }

  lemma {:induction false} RunThen(s: Loop, a: seq<Action>, b: seq<Action>)
    requires IsRun(s, a) && IsRun(After(s, a), b)
    ensures IsRun(s, a + b) && After(s, a + b) == After(After(s, a), b)
  {
    hide Next, Enabled;
    if b == [] {
      assert a + b == a;
    } else {
      assert (a + b)[..|a + b| - 1] == a + b[..|b| - 1];
      RunThen(s, a, b[..|b| - 1]);
    }
  }

  lemma RunSingle(s: Loop, a: Action)
    requires Enabled(s, a)
    ensures IsRun(s, [a]) && After(s, [a]) == Next(s, a)
  {
    assert [a][..0] == [];
    assert IsRun(s, []) && After(s, []) == s;
  }

  /** From the poll, with the eventfd readable, the loop thread by itself reads it and calls all that is pending. */
  lemma Drains(s: Loop)
    requires Ok(s) && s.pc == Polling && s.counter > 0
    ensures var acts := [PollReturns] + [HandleRead] + [BeginPending] + [SwapPending] + Calls(|s.pending|);
            IsRun(s, acts) &&
            After(s, acts) == s.(pc := Running(|s.pending|), counter := 0, calling := true, batch := s.pending, pending := [])
  {
    hide IsRun, After, Calls;
    RunSingle(s, PollReturns);
    var s1 := Next(s, PollReturns);
    RunSingle(s1, HandleRead);
    RunThen(s, [PollReturns], [HandleRead]);
    var s2 := Next(s1, HandleRead);
    RunSingle(s2, BeginPending);
    RunThen(s, [PollReturns] + [HandleRead], [BeginPending]);
    var s3 := Next(s2, BeginPending);
    RunSingle(s3, SwapPending);
    RunThen(s, [PollReturns] + [HandleRead] + [BeginPending], [SwapPending]);
    var s4 := Next(s3, SwapPending);
    CallAll(s4, |s.pending|);
    RunThen(s, [PollReturns] + [HandleRead] + [BeginPending] + [SwapPending], Calls(|s.pending|));
  }

  // ----- the class -----

  class EventLoopObject {
    var quit: bool
    var callingPendingFunctors: bool
    var pendingFunctors: seq<Functor>
    var wakeupFd: nat
    // the loop thread's own
    var pc: Pc
    var functors: seq<Functor>
    var owing: bool
    // where other threads are
    var pushed: nat
    var quitting: nat

    function State(): Loop
      reads this
    {
      Loop(pc, quit, callingPendingFunctors, pendingFunctors, functors, wakeupFd, pushed, quitting, owing)
    }

    ghost predicate Valid()
      reads this
    {
      Ok(State())
    }

    constructor ()
      ensures Valid() && State() == Start()
    {
      quit, callingPendingFunctors, pendingFunctors, wakeupFd := false, false, [], 0;
      pc, functors, owing, pushed, quitting := Outside, [], false, 0, 0;
      new;
      NoLate();
    }

    /** queueInLoop, up to the decision whether to wake the loop up. */
    method QueueInLoop(id: int, isInLoopThread: bool)
      requires Valid() && (isInLoopThread ==> InUserCode(State()))
      modifies this
      ensures Valid() && State() == Next(old(State()), if isInLoopThread then OwnPush(id) else OtherPush(id))
    {
      StepOk(State(), if isInLoopThread then OwnPush(id) else OtherPush(id));
      pendingFunctors := pendingFunctors + [Functor(id, isInLoopThread && pc == Outside)];
      if !isInLoopThread || callingPendingFunctors {
        if isInLoopThread { owing := true; } else { pushed := pushed + 1; }
      }
    }

    /** wakeup(), called by whoever a says. */
    method Wakeup(a: Action)
      requires Valid() && (a == OtherWakeup || a == QuitWakeup || a == OwnWakeup) && Enabled(State(), a)
      modifies this
      ensures Valid() && State() == Next(old(State()), a)
    {
      StepOk(State(), a);
      wakeupFd := Woken(wakeupFd);
      if a == OtherWakeup { pushed := pushed - 1; } else if a == QuitWakeup { quitting := quitting - 1; } else { owing := false; }
    }

    /** quit(), up to the wakeup of another thread. */
    method Quit(isInLoopThread: bool)
      requires Valid() && (isInLoopThread ==> InUserCode(State()))
      modifies this
      ensures Valid() && State() == Next(old(State()), if isInLoopThread then OwnQuit else OtherQuit)
    {
      StepOk(State(), if isInLoopThread then OwnQuit else OtherQuit);
      quit := true;
      if !isInLoopThread { quitting := quitting + 1; }
    }

    method BeginLoop()
      requires Valid() && pc == Outside && !owing
      modifies this
      ensures Valid() && State() == Next(old(State()), StartLoop)
    {
      StepOk(State(), StartLoop);
      quit := false;
      pc := LoopHead;
    }

    method TestLoop()
      requires Valid() && pc == LoopHead
      modifies this
      ensures Valid() && State() == Next(old(State()), TestQuit)
    {
      StepOk(State(), TestQuit);
      pc := if quit then Outside else Polling;
    }

    method Poll()
      requires Valid() && pc == Polling
      modifies this
      ensures Valid() && State() == Next(old(State()), PollReturns)
    {
      StepOk(State(), PollReturns);
      pc := Handling(wakeupFd > 0);
    }

    /** handleRead() of the wakeup channel. */
    method ReadWakeup()
      requires Valid() && pc == Handling(true) && !owing
      modifies this
      ensures Valid() && State() == Next(old(State()), HandleRead)
    {
      StepOk(State(), HandleRead);
      wakeupFd := 0;
      pc := Handling(false);
    }

    /** doPendingFunctors(), in steps: the flag, the swap under the lock, each call, the flag again. */
    method BeginPendingFunctors()
      requires Valid() && pc == Handling(false) && !owing
      modifies this
      ensures Valid() && State() == Next(old(State()), BeginPending)
    {
      StepOk(State(), BeginPending);
      callingPendingFunctors := true;
      pc := BeforeSwap;
    }

    method SwapPendingFunctors()
      requires Valid() && pc == BeforeSwap
      modifies this
      ensures Valid() && State() == Next(old(State()), SwapPending)
    {
      StepOk(State(), SwapPending);
      functors, pendingFunctors := pendingFunctors, functors;
      pc := Running(0);
    }

    method CallFunctor() returns (f: Functor)
      requires Valid() && pc.Running? && pc.index < |functors| && !owing
      modifies this
      ensures Valid() && State() == Next(old(State()), Call) && f == old(functors[pc.index])
    {
      StepOk(State(), Call);
      f := functors[pc.index];
      pc := Running(pc.index + 1);
    }

    method EndPendingFunctors()
      requires Valid() && pc.Running? && pc.index == |functors| && !owing
      modifies this
      ensures Valid() && State() == Next(old(State()), EndPending)
    {
      StepOk(State(), EndPending);
      functors := [];
      callingPendingFunctors := false;
      pc := LoopHead;
    }
  }
}
