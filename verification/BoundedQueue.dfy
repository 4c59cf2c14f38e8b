/** The bounded blocking queue as a monitor with two conditions. A step is one stretch of holding the mutex: from
    entering, or from coming back from a wait, to waiting (again) or leaving. Any thread may come in between a
    signal and the return of the signalled thread, and waits may end for no reason. */
module BoundedQueue {
  import opened Wrappers

  type Thread = int

  datatype Monitor<T> = Monitor(capacity: nat, queue: seq<T>,
                                takersWaiting: set<Thread>,   // in notEmpty_.wait()
                                takersWoken: set<Thread>,     // woken, not yet holding the mutex again
                                puttersWaiting: set<Thread>,  // in notFull_.wait()
                                puttersWoken: set<Thread>,
                                putting: map<Thread, T>)      // what each putter wants to put

  datatype Action<T> =
    | PutEnter(t: Thread, x: T, signal: Option<Thread>)
    | PutResume(t: Thread, signal: Option<Thread>)
    | TakeEnter(t: Thread, signal: Option<Thread>)
    | TakeResume(t: Thread, signal: Option<Thread>)
    | SpuriousTaker(t: Thread)
    | SpuriousPutter(t: Thread)

  predicate Busy<T>(s: Monitor<T>, t: Thread) {
    t in s.takersWaiting || t in s.takersWoken || t in s.puttersWaiting || t in s.puttersWoken
  }

  /** notify() wakes one waiting thread, if there is any. */
  predicate Signals(waiting: set<Thread>, signal: Option<Thread>) {
    match signal
    case None => waiting == {}
    case Some(t) => t in waiting
  }

  predicate Full<T>(s: Monitor<T>) { |s.queue| == s.capacity }

  predicate Enabled<T>(s: Monitor<T>, a: Action<T>) {
    match a
    case PutEnter(t, _, signal) => !Busy(s, t) && (!Full(s) ==> Signals(s.takersWaiting, signal))
    case PutResume(t, signal) => t in s.puttersWoken && t in s.putting && (!Full(s) ==> Signals(s.takersWaiting, signal))
    case TakeEnter(t, signal) => !Busy(s, t) && (s.queue != [] ==> Signals(s.puttersWaiting, signal))
    case TakeResume(t, signal) => t in s.takersWoken && (s.queue != [] ==> Signals(s.puttersWaiting, signal))
    case SpuriousTaker(t) => t in s.takersWaiting
    case SpuriousPutter(t) => t in s.puttersWaiting
  }

  function WakeTaker<T>(s: Monitor<T>, signal: Option<Thread>): Monitor<T> {
    match signal
    case None => s
    case Some(t) => s.(takersWaiting := s.takersWaiting - {t}, takersWoken := s.takersWoken + {t})
  }

  function WakePutter<T>(s: Monitor<T>, signal: Option<Thread>): Monitor<T> {
    match signal
    case None => s
    case Some(t) => s.(puttersWaiting := s.puttersWaiting - {t}, puttersWoken := s.puttersWoken + {t})
  }

  /** The body of put(), from its while test. */
  function Put<T>(s: Monitor<T>, t: Thread, x: T, signal: Option<Thread>): Monitor<T> {
    if Full(s) then s.(puttersWaiting := s.puttersWaiting + {t}, putting := s.putting[t := x])
    else WakeTaker(s.(queue := s.queue + [x]), signal)
  }

  /** The body of take(), from its while test. */
  function Take<T>(s: Monitor<T>, t: Thread, signal: Option<Thread>): Monitor<T> {
    if s.queue == [] then s.(takersWaiting := s.takersWaiting + {t})
    else WakePutter(s.(queue := s.queue[1..]), signal)
  }

  function Next<T>(s: Monitor<T>, a: Action<T>): Monitor<T>
    requires Enabled(s, a)
  {
    match a
    case PutEnter(t, x, signal) => Put(s, t, x, signal)
    case PutResume(t, signal) => Put(s.(puttersWoken := s.puttersWoken - {t}), t, s.putting[t], signal)
    case TakeEnter(t, signal) => Take(s, t, signal)
    case TakeResume(t, signal) => Take(s.(takersWoken := s.takersWoken - {t}), t, signal)
    case SpuriousTaker(t) => WakeTaker(s, Some(t))
    case SpuriousPutter(t) => WakePutter(s, Some(t))
  }

  function Start<T>(capacity: nat): Monitor<T> { Monitor(capacity, [], {}, {}, {}, {}, map[]) }

  // ----- no wakeup is lost -----

  predicate Ok<T>(s: Monitor<T>) {
    && |s.queue| <= s.capacity
    && (s.takersWaiting != {} ==> |s.queue| <= |s.takersWoken|)
    && (s.puttersWaiting != {} ==> s.capacity - |s.queue| <= |s.puttersWoken|)
    && s.takersWaiting !! s.takersWoken && s.puttersWaiting !! s.puttersWoken
    && s.puttersWaiting + s.puttersWoken <= s.putting.Keys
  }

  lemma WakeTakerCounts<T>(s: Monitor<T>, signal: Option<Thread>)
    requires Signals(s.takersWaiting, signal) && s.takersWaiting !! s.takersWoken
    ensures var r := WakeTaker(s, signal);
            && (s.takersWaiting != {} ==> |r.takersWoken| == |s.takersWoken| + 1)
            && (s.takersWaiting == {} ==> r == s)
  {
  }

  lemma WakePutterCounts<T>(s: Monitor<T>, signal: Option<Thread>)
    requires Signals(s.puttersWaiting, signal) && s.puttersWaiting !! s.puttersWoken
    ensures var r := WakePutter(s, signal);
            && (s.puttersWaiting != {} ==> |r.puttersWoken| == |s.puttersWoken| + 1)
            && (s.puttersWaiting == {} ==> r == s)
  {
  }

  /** Putting: one item more, and one waiting taker fewer. */
  lemma PutOk<T>(s: Monitor<T>, t: Thread, x: T, signal: Option<Thread>)
    requires Ok(s) && !(t in s.puttersWaiting || t in s.puttersWoken) && (!Full(s) ==> Signals(s.takersWaiting, signal))
    ensures Ok(Put(s, t, x, signal))
  {
    if !Full(s) { WakeTakerCounts(s.(queue := s.queue + [x]), signal); }
  }

  lemma TakeOk<T>(s: Monitor<T>, t: Thread, signal: Option<Thread>)
    requires Ok(s) && !(t in s.takersWaiting || t in s.takersWoken) && (s.queue != [] ==> Signals(s.puttersWaiting, signal))
    ensures Ok(Take(s, t, signal))
  {
    if s.queue != [] { WakePutterCounts(s.(queue := s.queue[1..]), signal); }
  }

  /** A thread that comes back is one woken thread fewer; what it does makes up for that. */
  lemma TakeResumeOk<T>(s: Monitor<T>, t: Thread, signal: Option<Thread>)
    requires Ok(s) && Enabled(s, TakeResume(t, signal))
    ensures Ok(Next(s, TakeResume(t, signal)))
  {
    var r := s.(takersWoken := s.takersWoken - {t});
    if s.queue != [] { WakePutterCounts(r.(queue := s.queue[1..]), signal); }
  }

  lemma PutResumeOk<T>(s: Monitor<T>, t: Thread, signal: Option<Thread>)
    requires Ok(s) && Enabled(s, PutResume(t, signal))
    ensures Ok(Next(s, PutResume(t, signal)))
  {
    var r := s.(puttersWoken := s.puttersWoken - {t});
    if !Full(s) { WakeTakerCounts(r.(queue := s.queue + [s.putting[t]]), signal); }
  }

  lemma StepOk<T>(s: Monitor<T>, a: Action<T>)
    requires Ok(s) && Enabled(s, a)
    ensures Ok(Next(s, a))
  {
    match a {
      case PutEnter(t, x, signal) => { hide Put, Ok, Signals; PutOk(s, t, x, signal); }
      case PutResume(t, signal) => { hide Put, Ok, Signals; PutResumeOk(s, t, signal); }
      case TakeEnter(t, signal) => { hide Take, Ok, Signals; TakeOk(s, t, signal); }
      case TakeResume(t, signal) => { hide Take, Ok, Signals; TakeResumeOk(s, t, signal); }
      case SpuriousTaker(t) => WakeTakerCounts(s, Some(t));
      case SpuriousPutter(t) => WakePutterCounts(s, Some(t));
    }
  }

  predicate IsRun<T>(s: Monitor<T>, acts: seq<Action<T>>)
    decreases |acts|, 0
  {
    acts == [] || (IsRun(s, acts[..|acts| - 1]) && Enabled(After(s, acts[..|acts| - 1]), acts[|acts| - 1]))
  }

  function After<T>(s: Monitor<T>, acts: seq<Action<T>>): Monitor<T>
    requires IsRun(s, acts)
    decreases |acts|, 1
  {
    if acts == [] then s else Next(After(s, acts[..|acts| - 1]), acts[|acts| - 1])
  }

  lemma {:induction false} RunOk<T>(capacity: nat, acts: seq<Action<T>>)
    requires IsRun(Start(capacity), acts)
    ensures Ok(After(Start(capacity), acts))
  {
    hide Next, Enabled, Ok;
    if acts != [] {
      RunOk(capacity, acts[..|acts| - 1]);
      StepOk(After(Start(capacity), acts[..|acts| - 1]), acts[|acts| - 1]);
    } else {
      StartOk<T>(capacity);
    }
  }

  lemma StartOk<T>(capacity: nat)
    ensures Ok(Start<T>(capacity))
  {
  }

  /** In every interleaving, with spurious wakeups and barging: the size stays within the capacity; while takers wait,
      each item in the queue has a woken taker coming for it, and while putters wait each free place a woken putter;
      so a non-empty queue (a queue with room) never leaves all its takers (putters) asleep. */
  lemma NoLostWakeup<T>(capacity: nat, acts: seq<Action<T>>)
    requires IsRun(Start(capacity), acts)
    ensures var s := After(Start(capacity), acts);
            && |s.queue| <= capacity
            && (s.takersWaiting != {} ==> |s.queue| <= |s.takersWoken|)
            && (s.puttersWaiting != {} ==> capacity - |s.queue| <= |s.puttersWoken|)
            && (s.queue != [] && s.takersWoken == {} ==> s.takersWaiting == {})
            && (|s.queue| < capacity && s.puttersWoken == {} ==> s.puttersWaiting == {})
  {
    RunOk(capacity, acts);
    CapacityKept(capacity, acts);
  }

  lemma {:induction false} CapacityKept<T>(capacity: nat, acts: seq<Action<T>>)
    requires IsRun(Start(capacity), acts)
    ensures After(Start(capacity), acts).capacity == capacity
  {
    if acts != [] {
      CapacityKept(capacity, acts[..|acts| - 1]);
    }
  }

  /** Takers and putters never all wait for each other, unless the queue has no places at all. */
  lemma NoDeadlock<T>(capacity: nat, acts: seq<Action<T>>)
    requires IsRun(Start(capacity), acts) && capacity > 0
    ensures var s := After(Start(capacity), acts);
            s.takersWaiting != {} && s.puttersWaiting != {} ==> s.takersWoken != {} || s.puttersWoken != {}
  {
    NoLostWakeup(capacity, acts);
  }

  /** With no places at all they do: the queue stays empty, every taker and every putter that comes or comes back waits,
      and none is ever woken but for no reason. */
  lemma {:induction false} NoPlacesNoProgress<T>(acts: seq<Action<T>>)
    requires IsRun(Start(0), acts) && forall i :: 0 <= i < |acts| ==> !acts[i].SpuriousTaker? && !acts[i].SpuriousPutter?
    ensures var s := After(Start(0), acts);
            && s.queue == [] && s.takersWoken == {} && s.puttersWoken == {}
            && (forall i :: 0 <= i < |acts| ==> (acts[i].TakeEnter? ==> acts[i].t in s.takersWaiting) && (acts[i].PutEnter? ==> acts[i].t in s.puttersWaiting))
  {
    CapacityKept(0, acts);
    if acts != [] {
      var p := acts[..|acts| - 1];
      assert forall i :: 0 <= i < |p| ==> p[i] == acts[i];
      NoPlacesNoProgress(p);
      CapacityKept(0, p);
      var s, t := After(Start(0), p), After(Start(0), acts);
      assert s.takersWaiting <= t.takersWaiting && s.puttersWaiting <= t.puttersWaiting;
      forall i | 0 <= i < |acts|
        ensures (acts[i].TakeEnter? ==> acts[i].t in t.takersWaiting) && (acts[i].PutEnter? ==> acts[i].t in t.puttersWaiting)
      {
        if i < |p| { assert acts[i] == p[i]; }
      }
    }
  }

  // ----- first in, first out -----

  datatype History<T> = History(put: seq<T>, taken: seq<T>)

  function Note<T>(h: History<T>, s: Monitor<T>, a: Action<T>): History<T>
    requires Enabled(s, a)
  {
    match a
    case PutEnter(_, x, _) => if Full(s) then h else h.(put := h.put + [x])
    case PutResume(t, _) => if Full(s) then h else h.(put := h.put + [s.putting[t]])
    case TakeEnter(_, _) => if s.queue == [] then h else h.(taken := h.taken + [s.queue[0]])
    case TakeResume(_, _) => if s.queue == [] then h else h.(taken := h.taken + [s.queue[0]])
    case _ => h
  }

  function Notes<T>(s: Monitor<T>, acts: seq<Action<T>>): History<T>
    requires IsRun(s, acts)
  {
    if acts == [] then History([], [])
    else Note(Notes(s, acts[..|acts| - 1]), After(s, acts[..|acts| - 1]), acts[|acts| - 1])
  }

  lemma StepInOrder<T>(s: Monitor<T>, h: History<T>, a: Action<T>)
    requires Enabled(s, a) && h.taken + s.queue == h.put
    ensures Note(h, s, a).taken + Next(s, a).queue == Note(h, s, a).put
  {
    if s.queue != [] {
      assert s.queue == [s.queue[0]] + s.queue[1..];
      assert h.taken + [s.queue[0]] + s.queue[1..] == h.taken + s.queue;
    }
    match a {
      case PutEnter(_, x, _) => assert h.taken + (s.queue + [x]) == h.taken + s.queue + [x];
      case PutResume(t, _) => assert h.taken + (s.queue + [s.putting[t]]) == h.taken + s.queue + [s.putting[t]];
      case _ =>
    }
  }

  /** Items leave in the order in which they came, none lost and none twice. */
  lemma {:induction false} FirstInFirstOut<T>(capacity: nat, acts: seq<Action<T>>)
    requires IsRun(Start(capacity), acts)
    ensures var h := Notes(Start(capacity), acts);
            h.taken + After(Start(capacity), acts).queue == h.put
  {
    hide Next, Note, Enabled;
    if acts != [] {
      var p := acts[..|acts| - 1];
      FirstInFirstOut(capacity, p);
      StepInOrder(After(Start(capacity), p), Notes(Start(capacity), p), acts[|acts| - 1]);
    }
  }

  // ----- the class -----

  class BoundedBlockingQueue<T> {
    const capacity: nat
    var queue: seq<T>
    var takersWaiting: set<Thread>
    var takersWoken: set<Thread>
    var puttersWaiting: set<Thread>
    var puttersWoken: set<Thread>
    var putting: map<Thread, T>

    function State(): Monitor<T>
      reads this
    {
      Monitor(capacity, queue, takersWaiting, takersWoken, puttersWaiting, puttersWoken, putting)
    }

    ghost predicate Valid()
      reads this
    {
      Ok(State())
    }

    constructor (maxSize: nat)
      ensures Valid() && State() == Start(maxSize)
    {
      capacity := maxSize;
      queue, takersWaiting, takersWoken := [], {}, {};
      puttersWaiting, puttersWoken, putting := {}, {}, map[];
    }

    /** put(), from its while test to the wait or to the end. */
    method PutOnce(t: Thread, x: T, signal: Option<Thread>) returns (done: bool)
      requires |queue| < capacity ==> Signals(takersWaiting, signal)
      requires |queue| <= capacity
      modifies this
      ensures State() == Put(old(State()), t, x, signal) && done == (old(|queue|) < capacity)
    {
      if |queue| == capacity {
        puttersWaiting, putting := puttersWaiting + {t}, putting[t := x];
        return false;
      }
      queue := queue + [x];
      if signal.Some? {
        takersWaiting, takersWoken := takersWaiting - {signal.value}, takersWoken + {signal.value};
      }
      return true;
    }

    method PutFirst(t: Thread, x: T, signal: Option<Thread>) returns (done: bool)
      requires Valid() && Enabled(State(), PutEnter(t, x, signal))
      modifies this
      ensures Valid() && State() == Next(old(State()), PutEnter(t, x, signal)) && done == (old(|queue|) < capacity)
    {
      StepOk(State(), PutEnter(t, x, signal));
      done := PutOnce(t, x, signal);
    }

    method PutAgain(t: Thread, signal: Option<Thread>) returns (done: bool)
      requires Valid() && Enabled(State(), PutResume(t, signal))
      modifies this
      ensures Valid() && State() == Next(old(State()), PutResume(t, signal)) && done == (old(|queue|) < capacity)
    {
      StepOk(State(), PutResume(t, signal));
      var x := putting[t];
      puttersWoken := puttersWoken - {t};
      done := PutOnce(t, x, signal);
    }

    /** take(), from its while test to the wait or to the end. */
    method TakeOnce(t: Thread, signal: Option<Thread>) returns (front: Option<T>)
      requires queue != [] ==> Signals(puttersWaiting, signal)
      modifies this
      ensures State() == Take(old(State()), t, signal)
      ensures front == if old(queue) == [] then None else Some(old(queue)[0])
    {
      if queue == [] {
        takersWaiting := takersWaiting + {t};
        return None;
      }
      front := Some(queue[0]);
      queue := queue[1..];
      if signal.Some? {
        puttersWaiting, puttersWoken := puttersWaiting - {signal.value}, puttersWoken + {signal.value};
      }
    }

    method TakeFirst(t: Thread, signal: Option<Thread>) returns (front: Option<T>)
      requires Valid() && Enabled(State(), TakeEnter(t, signal))
      modifies this
      ensures Valid() && State() == Next(old(State()), TakeEnter(t, signal))
      ensures front == if old(queue) == [] then None else Some(old(queue)[0])
    {
      StepOk(State(), TakeEnter(t, signal));
      front := TakeOnce(t, signal);
    }

    method TakeAgain(t: Thread, signal: Option<Thread>) returns (front: Option<T>)
      requires Valid() && Enabled(State(), TakeResume(t, signal))
      modifies this
      ensures Valid() && State() == Next(old(State()), TakeResume(t, signal))
      ensures front == if old(queue) == [] then None else Some(old(queue)[0])
    {
      StepOk(State(), TakeResume(t, signal));
      takersWoken := takersWoken - {t};
      front := TakeOnce(t, signal);
    }
  }
}
