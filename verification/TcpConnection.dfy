/** The output side of a connection: what is sent, by the loop thread or handed over to it, what is buffered, what is on the wire. */
module TcpConnection {
  import opened Bytes
  import B = Buffer

  datatype State = Connecting | Connected | Disconnecting | Disconnected

  function Rank(s: State): nat {
    match s case Connecting => 0 case Connected => 1 case Disconnecting => 2 case Disconnected => 3
  }

  /** What write() says. Broken: EPIPE or ECONNRESET. */
  datatype WriteResult = Wrote(n: nat) | WouldBlock | OtherError | Broken

  datatype Event = Up | Down | CloseCallback | WriteComplete | HighWater(size: nat)

  /** Callbacks that may be left out, and the mark. */
  datatype Options = Options(hasWriteComplete: bool, hasHighWater: bool, highWaterMark: nat)

  /** What another thread has queued for the loop thread: sendInLoop or shutdownInLoop. */
  datatype Task = LateSend(data: seq<Byte>) | LateShutdown

  datatype Conn = Conn(state: State, output: seq<Byte>, writing: bool, wire: seq<Byte>,
                       shuts: nat,              // calls of shutdownWrite()
                       sent: seq<Byte>,         // all messages taken, one after the other
                       lost: seq<seq<Byte>>,    // messages given up, because the connection was closed or broken
                       tasks: seq<Task>,
                       events: seq<Event>)
  {
    predicate Shut() { shuts > 0 }
  }

  function Start(): Conn { Conn(Connecting, [], false, [], 0, [], [], [], []) }

  // ----- the steps -----

  function Emit(c: Conn, on: bool, e: Event): Conn { if on then c.(events := c.events + [e]) else c }

  function ConnectEstablished(c: Conn): Conn { Emit(c.(state := Connected), true, Up) }

  /** The rest of a message goes to the buffer. */
  function Enqueue(c: Conn, o: Options, rest: seq<Byte>): Conn {
    var oldLen := |c.output|;
    var d := Emit(c, o.hasHighWater && oldLen + |rest| >= o.highWaterMark && oldLen < o.highWaterMark, HighWater(oldLen + |rest|));
    d.(output := d.output + rest, writing := true)
  }

  function SendInLoop(c: Conn, o: Options, data: seq<Byte>, w: WriteResult): Conn
    requires w.Wrote? ==> w.n <= |data|
  {
    if c.state == Disconnected then c.(lost := c.lost + [data])
    else if !c.writing && c.output == [] then
      match w
      case Wrote(n) =>
        var d := c.(wire := c.wire + data[..n], sent := c.sent + data);
        if n == |data| then Emit(d, o.hasWriteComplete, WriteComplete) else Enqueue(d, o, data[n..])
      case Broken => c.(lost := c.lost + [data])
      case _ => if data == [] then c else Enqueue(c.(sent := c.sent + data), o, data)
    else if data == [] then c
    else Enqueue(c.(sent := c.sent + data), o, data)
  }

  /** send() called by the loop thread. */
  function Send(c: Conn, o: Options, data: seq<Byte>, w: WriteResult): Conn
    requires w.Wrote? ==> w.n <= |data|
  {
    if c.state == Connected then SendInLoop(c, o, data, w) else c
  }

  function ShutdownInLoop(c: Conn): Conn { if !c.writing then c.(shuts := c.shuts + 1) else c }

  function Shutdown(c: Conn): Conn {
    if c.state == Connected then ShutdownInLoop(c.(state := Disconnecting)) else c
  }

  function ForceClose(c: Conn): Conn {
    if c.state == Connected || c.state == Disconnecting then c.(state := Disconnecting) else c
  }

  function HandleClose(c: Conn): Conn {
    Emit(Emit(c.(state := Disconnected, writing := false), true, Down), true, CloseCallback)
  }

  function ForceCloseInLoop(c: Conn): Conn {
    if c.state == Connected || c.state == Disconnecting then HandleClose(c) else c
  }

  function HandleWrite(c: Conn, o: Options, w: WriteResult): Conn
    requires w.Wrote? ==> w.n <= |c.output|
  {
    if c.writing && w.Wrote? && w.n > 0 then
      var d := c.(wire := c.wire + c.output[..w.n], output := c.output[w.n..]);
      if d.output == [] then
        var e := Emit(d.(writing := false), o.hasWriteComplete, WriteComplete);
        if e.state == Disconnecting then ShutdownInLoop(e) else e
      else d
    else c
  }

  function ConnectDestroyed(c: Conn): Conn {
    if c.state == Connected then Emit(c.(state := Disconnected, writing := false), true, Down) else c
  }

  /** send() and shutdown() called by another thread. */
  function HandOver(c: Conn, data: seq<Byte>): Conn {
    if c.state == Connected then c.(tasks := c.tasks + [LateSend(data)]) else c
  }

  function HandOverShutdown(c: Conn): Conn {
    if c.state == Connected then c.(state := Disconnecting, tasks := c.tasks + [LateShutdown]) else c
  }

  /** The loop thread runs the first of the tasks. */
  function RunTask(c: Conn, o: Options, w: WriteResult): Conn
    requires c.tasks != [] && (c.tasks[0].LateSend? && w.Wrote? ==> w.n <= |c.tasks[0].data|)
  {
    var d := c.(tasks := c.tasks[1..]);
    match c.tasks[0]
    case LateSend(data) => SendInLoop(d, o, data, w)
    case LateShutdown => ShutdownInLoop(d)
  }

  // ----- actions and runs -----

  datatype Action =
    | DoEstablish
    | DoSend(data: seq<Byte>, w: WriteResult)
    | DoShutdown
    | DoForceClose
    | DoForceCloseInLoop
    | DoHandleWrite(w: WriteResult)
    | DoHandleClose
    | DoDestroy
    | DoHandOver(data: seq<Byte>)
    | DoHandOverShutdown
    | DoTask(w: WriteResult)

  /** What write() can say of n bytes: once the write side is shut down, only EPIPE. */
  predicate Answers(c: Conn, n: nat, w: WriteResult) { (w.Wrote? ==> w.n <= n) && (c.Shut() ==> w.Broken?) }

  predicate Enabled(c: Conn, a: Action) {
    match a
    case DoEstablish => c.state == Connecting
    case DoSend(data, w) => Answers(c, |data|, w)
    case DoHandleWrite(w) => Answers(c, |c.output|, w)
    case DoTask(w) => c.tasks != [] && (c.tasks[0].LateSend? ==> Answers(c, |c.tasks[0].data|, w))
    case DoHandleClose => c.state == Connected || c.state == Disconnecting
    case _ => true
  }

  function Next(c: Conn, o: Options, a: Action): Conn
    requires Enabled(c, a)
  {
    match a
    case DoEstablish => ConnectEstablished(c)
    case DoSend(data, w) => Send(c, o, data, w)
    case DoShutdown => Shutdown(c)
    case DoForceClose => ForceClose(c)
    case DoForceCloseInLoop => ForceCloseInLoop(c)
    case DoHandleWrite(w) => HandleWrite(c, o, w)
    case DoHandleClose => HandleClose(c)
    case DoDestroy => ConnectDestroyed(c)
    case DoHandOver(data) => HandOver(c, data)
    case DoHandOverShutdown => HandOverShutdown(c)
    case DoTask(w) => RunTask(c, o, w)
  }

  predicate IsRun(o: Options, acts: seq<Action>)
    decreases |acts|, 0
  {
    acts == [] || (IsRun(o, acts[..|acts| - 1]) && Enabled(After(o, acts[..|acts| - 1]), acts[|acts| - 1]))
  }

  function After(o: Options, acts: seq<Action>): Conn
    requires IsRun(o, acts)
    decreases |acts|, 1
  {
    if acts == [] then Start() else Next(After(o, acts[..|acts| - 1]), o, acts[|acts| - 1])
  }

  // ----- what every step keeps -----

  function Count(es: seq<Event>, e: Event): nat {
    if es == [] then 0 else Count(es[..|es| - 1], e) + (if es[|es| - 1] == e then 1 else 0)
  }

  lemma CountMore(es: seq<Event>, x: Event, e: Event)
    ensures Count(es + [x], e) == Count(es, e) + (if x == e then 1 else 0)
  {
    assert (es + [x])[..|es|] == es;
  }

  /** Everything that matters but the events. */
  predicate Core(c: Conn) {
    && c.wire + c.output == c.sent
    && (c.state != Disconnected ==> (c.writing <==> c.output != []))
    && (c.state == Disconnected ==> !c.writing)
    && (c.Shut() ==> Rank(c.state) >= 2 && !c.writing && (c.state == Disconnecting ==> c.output == [] && c.wire == c.sent))
    && (c.state == Connecting ==> c.sent == [] && c.tasks == [])
    && (Rank(c.state) < 2 ==> NoShutdown(c.tasks))
  }

  predicate NoShutdown(ts: seq<Task>) { forall i :: 0 <= i < |ts| ==> !ts[i].LateShutdown? }

  lemma EnqueueCore(c: Conn, o: Options, rest: seq<Byte>)
    requires c.wire + c.output + rest == c.sent && rest != [] && !c.Shut() && c.state != Disconnected && c.state != Connecting
    requires Rank(c.state) < 2 ==> NoShutdown(c.tasks)
    ensures Core(Enqueue(c, o, rest))
  {
    Assoc(c.wire, c.output, rest);
  }

  lemma SendCore(c: Conn, o: Options, data: seq<Byte>, w: WriteResult)
    requires Core(c) && c.state != Connecting && Answers(c, |data|, w)
    ensures Core(SendInLoop(c, o, data, w))
  {
    if c.state != Disconnected && !c.Shut() {
      hide Enqueue, NoShutdown;
      Assoc(c.wire, c.output, data);
      Assoc(c.sent, [], []);
      if c.writing || c.output != [] || !w.Wrote? {
        if data != [] { EnqueueCore(c.(sent := c.sent + data), o, data); }
      } else {
        WroteCore(c, o, data, w.n);
      }
    }
  }

  /** A direct write of n bytes. */
  lemma WroteCore(c: Conn, o: Options, data: seq<Byte>, n: nat)
    requires Core(c) && c.state != Connecting && c.state != Disconnected && c.output == [] && !c.Shut() && n <= |data|
    ensures Core(SendInLoop(c, o, data, Wrote(n)))
  {
    hide Enqueue, NoShutdown;
    Assoc(c.wire, [], []);
    assert c.wire == c.sent && !c.writing;
    var d := c.(wire := c.wire + data[..n], sent := c.sent + data);
    assert data == data[..n] + data[n..];
    Assoc(c.wire, data[..n], data[n..]);
    Assoc(d.wire, [], []);
    if n < |data| { EnqueueCore(d, o, data[n..]); } else { assert data[..n] == data; }
  }

  lemma Assoc(a: seq<Byte>, b: seq<Byte>, c: seq<Byte>)
    ensures a + (b + c) == a + b + c && a + [] == a && [] + a == a
  {
  }

  lemma HandleWriteCore(c: Conn, o: Options, w: WriteResult)
    requires Core(c) && Enabled(c, DoHandleWrite(w))
    ensures Core(HandleWrite(c, o, w))
  {
    if w.Wrote? {
      assert c.output == c.output[..w.n] + c.output[w.n..];
      Assoc(c.wire, c.output[..w.n], c.output[w.n..]);
      Assoc(c.wire + c.output[..w.n], [], []);
    }
  }

  lemma StepCore(c: Conn, o: Options, a: Action)
    requires Core(c) && Enabled(c, a)
    ensures Core(Next(c, o, a))
  {
    match a {
      case DoSend(data, w) => { hide SendInLoop, Core; if c.state == Connected { SendCore(c, o, data, w); } }
      case DoHandleWrite(w) => { hide HandleWrite, Core; HandleWriteCore(c, o, w); }
      case DoTask(w) => TaskCore(c, o, w);
      case _ => Assoc(c.wire, c.output, []);
    }
  }

  lemma TaskCore(c: Conn, o: Options, w: WriteResult)
    requires Core(c) && Enabled(c, DoTask(w))
    ensures Core(RunTask(c, o, w))
  {
    hide SendInLoop;
    Assoc(c.wire, c.output, []);
    if c.tasks[0].LateSend? { SendCore(c.(tasks := c.tasks[1..]), o, c.tasks[0].data, w); }
  }

  /** On every run, with sends and shutdowns by the loop thread and by others: the bytes on the wire followed by the
      output buffer are the messages taken, in order; write interest is on exactly while there is something to write, up
      to the close; and when the write side has been shut down, before a close, everything taken is on the wire. */
  lemma {:induction false} RunCore(o: Options, acts: seq<Action>)
    requires IsRun(o, acts)
    ensures Core(After(o, acts))
  {
    hide Next, Enabled, Core;
    if acts != [] {
      RunCore(o, acts[..|acts| - 1]);
      StepCore(After(o, acts[..|acts| - 1]), o, acts[|acts| - 1]);
    } else {
      StartCore();
    }
  }

  lemma StartCore()
    ensures Core(Start())
  {
  }

  /** d comes after c: the state has not gone back, nothing sent or written was undone, and once the write side is shut
      down nothing more is sent or written; it is only shut down when everything sent is on the wire. */
  predicate Later(c: Conn, d: Conn) {
    && Rank(c.state) <= Rank(d.state)
    && c.wire <= d.wire && c.sent <= d.sent
    && (c.Shut() ==> d.Shut() && d.wire == c.wire && d.sent == c.sent)
    && (!c.Shut() && d.Shut() && c.state != Disconnected ==> d.wire == d.sent && d.state == Disconnecting)
  }

  lemma EnqueueKeeps(c: Conn, o: Options, rest: seq<Byte>)
    ensures var d := Enqueue(c, o, rest); d.state == c.state && d.wire == c.wire && d.sent == c.sent && d.shuts == c.shuts && d.tasks == c.tasks && d.lost == c.lost
  {
  }

  lemma SendForward(c: Conn, o: Options, data: seq<Byte>, w: WriteResult)
    requires Core(c) && Answers(c, |data|, w)
    ensures Later(c, SendInLoop(c, o, data, w)) && SendInLoop(c, o, data, w).shuts == c.shuts
  {
    hide Enqueue;
    EnqueueKeeps(c.(sent := c.sent + data), o, data);
    if w.Wrote? {
      EnqueueKeeps(c.(wire := c.wire + data[..w.n], sent := c.sent + data), o, data[w.n..]);
    }
  }

  lemma WriteForward(c: Conn, o: Options, w: WriteResult)
    requires Core(c) && Enabled(c, DoHandleWrite(w))
    ensures Later(c, HandleWrite(c, o, w))
  {
    HandleWriteCore(c, o, w);
    Assoc(HandleWrite(c, o, w).wire, [], []);
  }

  /** The state only moves forward, and nothing is taken or written once the write side is shut down; that happens when
      everything taken is on the wire (or after a close). */
  lemma StepForward(c: Conn, o: Options, a: Action)
    requires Core(c) && Enabled(c, a)
    ensures Later(c, Next(c, o, a))
  {
    hide SendInLoop, HandleWrite;
    match a {
      case DoSend(data, w) => SendForward(c, o, data, w);
      case DoHandleWrite(w) => { hide Later; WriteForward(c, o, w); }
      case DoTask(w) =>
        if c.tasks[0].LateSend? { SendForward(c.(tasks := c.tasks[1..]), o, c.tasks[0].data, w); } else { Assoc(c.wire, c.output, []); }
      case _ => Assoc(c.wire, c.output, []);
    }
  }

  lemma {:induction false} NothingAfterShutdown(o: Options, acts: seq<Action>, more: seq<Action>)
    requires IsRun(o, acts) && IsRun(o, acts + more) && After(o, acts).Shut()
    ensures After(o, acts + more).Shut() && After(o, acts + more).wire == After(o, acts).wire
    decreases |more|
  {
    hide Next, Enabled, Core;
    if more == [] {
      assert acts + more == acts;
    } else {
      var m := more[..|more| - 1];
      assert (acts + more)[..|acts + more| - 1] == acts + m;
      NothingAfterShutdown(o, acts, m);
      RunCore(o, acts + m);
      StepForward(After(o, acts + m), o, (acts + more)[|acts + more| - 1]);
    }
  }

  // ----- callbacks -----

  /** write-complete is queued exactly when a step leaves nothing to write although it wrote, or was given, a message:
      at that moment everything sent is on the wire. */
  lemma WriteCompleteMeans(c: Conn, o: Options, a: Action)
    requires Core(c) && Enabled(c, a)
    ensures var d := Next(c, o, a);
            |d.events| > |c.events| && d.events[|d.events| - 1] == WriteComplete ==> d.output == [] && d.wire == d.sent
  {
    StepCore(c, o, a);
    Assoc(Next(c, o, a).wire, [], []);
  }

  /** Draining the buffer, and only that, queues it in handleWrite; a shutdown that was waiting happens then. */
  lemma DrainCompletes(c: Conn, o: Options, w: WriteResult)
    requires Core(c) && c.output != [] && c.state != Disconnected && Enabled(c, DoHandleWrite(w)) && o.hasWriteComplete
    ensures var d := HandleWrite(c, o, w);
            && (d.output == [] <==> w == Wrote(|c.output|))
            && (d.output == [] <==> d.events == c.events + [WriteComplete])
            && (d.output == [] ==> !d.writing && (d.Shut() <==> c.state == Disconnecting))
            && (d.output != [] ==> d.events == c.events)
  {
  }

  /** The high-water callback is queued exactly when the buffer crosses the mark from below. */
  lemma HighWaterCrossing(c: Conn, o: Options, data: seq<Byte>, w: WriteResult)
    requires Core(c) && c.state == Connected && Answers(c, |data|, w) && o.hasHighWater
    ensures var d := Send(c, o, data, w);
            (|d.events| > |c.events| && d.events[|c.events|] == HighWater(|d.output|)) <==>
            |c.output| < o.highWaterMark <= |d.output|
  {
  }

  /** The connection callback runs once when the connection is up and once when it is down. */
  predicate Announced(c: Conn) {
    && Count(c.events, Up) == (if c.state == Connecting then 0 else 1)
    && Count(c.events, Down) == (if c.state == Disconnected then 1 else 0)
  }

  /** Does the step run handleClose? */
  predicate Closes(c: Conn, a: Action) {
    a.DoHandleClose? || (a.DoForceCloseInLoop? && (c.state == Connected || c.state == Disconnecting))
  }

  lemma StepAnnounced(c: Conn, o: Options, a: Action)
    requires Core(c) && Enabled(c, a) && Announced(c)
    ensures Announced(Next(c, o, a))
    ensures Count(Next(c, o, a).events, CloseCallback) == Count(c.events, CloseCallback) + (if Closes(c, a) then 1 else 0)
  {
    hide Count, Core;
    forall e, x | true
      ensures Count(c.events + [x], e) == Count(c.events, e) + (if x == e then 1 else 0)
    {
      CountMore(c.events, x, e);
    }
    if a.DoHandleClose? || a.DoForceCloseInLoop? {
      CountMore(c.events + [Down], CloseCallback, Up);
      CountMore(c.events + [Down], CloseCallback, Down);
      CountMore(c.events + [Down], CloseCallback, CloseCallback);
    }
    if a.DoTask? || a.DoSend? || a.DoHandleWrite? { QuietEvents(c, o, a); }
  }

  /** A send or a write makes at most one callback, and neither of these three. */
  lemma QuietEvents(c: Conn, o: Options, a: Action)
    requires Enabled(c, a) && (a.DoTask? || a.DoSend? || a.DoHandleWrite?)
    ensures var es := Next(c, o, a).events;
            es == c.events || (|es| == |c.events| + 1 && es == c.events + [es[|c.events|]] &&
                               (es[|c.events|] == WriteComplete || es[|c.events|].HighWater?))
    ensures Next(c, o, a).state == c.state
  {
  }

  predicate HasClosed(o: Options, acts: seq<Action>)
    requires IsRun(o, acts)
  {
    acts != [] && (HasClosed(o, acts[..|acts| - 1]) || Closes(After(o, acts[..|acts| - 1]), acts[|acts| - 1]))
  }

  /** On every run: up and down are announced once each as they happen; and the close callback is made once if the
      connection has gone down through handleClose, and not at all otherwise (connectDestroyed does not make it). */
  lemma {:induction false} RunAnnounced(o: Options, acts: seq<Action>)
    requires IsRun(o, acts)
    ensures Announced(After(o, acts))
    ensures HasClosed(o, acts) ==> After(o, acts).state == Disconnected
    ensures Count(After(o, acts).events, CloseCallback) == (if HasClosed(o, acts) then 1 else 0)
  {
    hide Next, Enabled, Core, Announced, Count, Later;
    if acts != [] {
      var p, a := acts[..|acts| - 1], acts[|acts| - 1];
      RunAnnounced(o, p);
      RunCore(o, p);
      StepAnnounced(After(o, p), o, a);
      StaysDown(After(o, p), o, a);
    } else {
      StartAnnounced();
    }
  }

  lemma StaysDown(c: Conn, o: Options, a: Action)
    requires Core(c) && Enabled(c, a)
    ensures c.state == Disconnected || Closes(c, a) ==> Next(c, o, a).state == Disconnected
    ensures c.state == Disconnected ==> !Closes(c, a)
  {
    hide Core;
  }

  lemma StartAnnounced()
    ensures Announced(Start()) && Count(Start().events, CloseCallback) == 0
  {
  }

  // ----- how often the write side is shut down -----

  /** A shutdown handed over by another thread that runs when the write side is shut down already. */
  predicate Repeats(c: Conn, a: Action)
    requires Enabled(c, a)
  {
    a.DoTask? && c.tasks[0].LateShutdown? && c.Shut()
  }

  function RepeatsIn(o: Options, acts: seq<Action>): nat
    requires IsRun(o, acts)
  {
    if acts == [] then 0
    else RepeatsIn(o, acts[..|acts| - 1]) + (if Repeats(After(o, acts[..|acts| - 1]), acts[|acts| - 1]) then 1 else 0)
  }

  function Shutdowns(ts: seq<Task>): nat {
    if ts == [] then 0 else (if ts[0].LateShutdown? then 1 else 0) + Shutdowns(ts[1..])
  }

  lemma {:induction false} ShutdownsMore(ts: seq<Task>, t: Task)
    ensures Shutdowns(ts + [t]) == Shutdowns(ts) + (if t.LateShutdown? then 1 else 0)
    decreases |ts|
  {
    if ts == [] {
      assert ts + [t] == [t] && [t][1..] == [];
    } else {
      assert (ts + [t])[1..] == ts[1..] + [t];
      ShutdownsMore(ts[1..], t);
    }
  }

  lemma {:induction false} ShutdownsNone(ts: seq<Task>)
    requires NoShutdown(ts)
    ensures Shutdowns(ts) == 0
    decreases |ts|
  {
    if ts != [] {
      assert forall i :: 0 <= i < |ts[1..]| ==> ts[1..][i] == ts[i + 1];
      ShutdownsNone(ts[1..]);
    }
  }

  lemma StepShuts(c: Conn, o: Options, a: Action)
    requires Core(c) && Enabled(c, a)
    ensures var d := Next(c, o, a);
            && d.shuts == c.shuts + (if Repeats(c, a) || (!c.Shut() && d.Shut()) then 1 else 0)
            && Shutdowns(d.tasks) == Shutdowns(c.tasks) + (if a.DoHandOverShutdown? && c.state == Connected then 1 else 0)
                                     - (if a.DoTask? && c.tasks[0].LateShutdown? then 1 else 0)
            && (Rank(d.state) < 2 ==> Rank(c.state) < 2)
  {
    hide SendInLoop;
    match a {
      case DoSend(data, w) => if c.state == Connected { SendForward(c, o, data, w); SendKeepsTasks(c, o, data, w); }
      case DoTask(w) =>
        if c.tasks[0].LateSend? {
          SendForward(c.(tasks := c.tasks[1..]), o, c.tasks[0].data, w);
          SendKeepsTasks(c.(tasks := c.tasks[1..]), o, c.tasks[0].data, w);
        }
      case DoHandOver(data) => ShutdownsMore(c.tasks, LateSend(data));
      case DoHandOverShutdown => ShutdownsMore(c.tasks, LateShutdown);
      case _ =>
    }
  }

  lemma SendKeepsTasks(c: Conn, o: Options, data: seq<Byte>, w: WriteResult)
    requires Answers(c, |data|, w)
    ensures SendInLoop(c, o, data, w).tasks == c.tasks && SendInLoop(c, o, data, w).state == c.state
  {
  }

  /** Does another thread's shutdown() find the connection up? */
  predicate HandsOverShutdown(o: Options, acts: seq<Action>)
    requires IsRun(o, acts)
  {
    acts != [] &&
    (HandsOverShutdown(o, acts[..|acts| - 1]) ||
     (acts[|acts| - 1].DoHandOverShutdown? && After(o, acts[..|acts| - 1]).state == Connected))
  }

  /** How often shutdownWrite() is called: once, however the run goes on, when nothing but the loop thread shuts down; a
      shutdown handed over by another thread adds a second call exactly if it runs when the write side is shut already,
      because the buffer drained in between. */
  lemma {:induction false} ShutOnce(o: Options, acts: seq<Action>)
    requires IsRun(o, acts)
    ensures var c := After(o, acts);
            && c.shuts == (if c.Shut() then 1 else 0) + RepeatsIn(o, acts)
            && RepeatsIn(o, acts) + Shutdowns(c.tasks) <= (if HandsOverShutdown(o, acts) then 1 else 0)
            && c.shuts <= 2 && (c.shuts == 2 <==> RepeatsIn(o, acts) == 1)
            && (HandsOverShutdown(o, acts) ==> Rank(c.state) >= 2)
  {
    hide Next, Enabled, Core, Shutdowns, Later;
    if acts == [] {
      ShutdownsNone([]);
    } else {
      var p, a := acts[..|acts| - 1], acts[|acts| - 1];
      ShutOnce(o, p);
      RunCore(o, p);
      var c := After(o, p);
      StepShuts(c, o, a);
      StepForward(c, o, a);
      NeverUnshut(c, Next(c, o, a));
      HandingOver(c, o, a);
    }
  }

  lemma NeverUnshut(c: Conn, d: Conn)
    requires Later(c, d)
    ensures (c.Shut() ==> d.Shut()) && Rank(c.state) <= Rank(d.state)
  {
  }

  lemma HandingOver(c: Conn, o: Options, a: Action)
    requires Core(c) && Enabled(c, a)
    ensures Rank(c.state) < 2 ==> Shutdowns(c.tasks) == 0
    ensures a.DoHandOverShutdown? && c.state == Connected ==> Rank(Next(c, o, a).state) >= 2
  {
    if Rank(c.state) < 2 { ShutdownsNone(c.tasks); }
  }

  // ----- messages handed over by other threads -----

  /** The messages among the tasks. */
  function Waiting(ts: seq<Task>): seq<seq<Byte>> {
    if ts == [] then [] else (if ts[0].LateSend? then [ts[0].data] else []) + Waiting(ts[1..])
  }

  /** The peer has not broken the connection: only a shut write side answers EPIPE. */
  predicate Healthy(c: Conn, a: Action) {
    && (a.DoSend? || a.DoTask? || a.DoHandleWrite? ==> a.w.Broken? ==> c.Shut())
    && c.state != Disconnected
  }

  /** A message handed over is lost exactly if it runs when the write side is shut; otherwise it is taken, behind all that
      was taken before. */
  lemma LateSendLost(c: Conn, o: Options, w: WriteResult)
    requires Core(c) && Enabled(c, DoTask(w)) && Healthy(c, DoTask(w)) && c.tasks[0].LateSend?
    ensures var d, data := Next(c, o, DoTask(w)), c.tasks[0].data;
            && d.lost == (if c.Shut() then c.lost + [data] else c.lost)
            && d.sent == (if c.Shut() then c.sent else c.sent + data)
            && (c.writing ==> d.output == c.output + data && !d.Shut())
  {
    Assoc(c.sent, [], []);
    Assoc(c.output, [], []);
  }

  lemma StepLoses(c: Conn, o: Options, a: Action)
    requires Core(c) && Enabled(c, a)
    ensures Healthy(c, a) && !c.Shut() ==> Next(c, o, a).lost == c.lost
    ensures c.Shut() ==> Next(c, o, a).lost + Waiting(Next(c, o, a).tasks) == c.lost + Waiting(c.tasks)
  {
    hide Core;
    if c.Shut() { ShutMeans(c); }
    if c.Shut() && a.DoTask? {
      var rest := c.tasks[1..];
      assert c.lost + ([] + Waiting(rest)) == c.lost + Waiting(rest);
      if c.tasks[0].LateSend? {
        assert c.lost + [c.tasks[0].data] + Waiting(rest) == c.lost + ([c.tasks[0].data] + Waiting(rest));
      }
    }
  }

  lemma ShutMeans(c: Conn)
    requires Core(c) && c.Shut()
    ensures Rank(c.state) >= 2 && !c.writing && (c.state == Disconnecting ==> c.output == [] && c.wire == c.sent)
  {
  }

  /** A run whose steps are all healthy. */
  predicate HealthyRun(o: Options, acts: seq<Action>)
    requires IsRun(o, acts)
  {
    acts == [] || (HealthyRun(o, acts[..|acts| - 1]) && Healthy(After(o, acts[..|acts| - 1]), acts[|acts| - 1]))
  }

  /** Up to the shutdown nothing is lost. */
  lemma {:induction false} NothingLostBefore(o: Options, acts: seq<Action>)
    requires IsRun(o, acts) && HealthyRun(o, acts) && (acts != [] ==> !After(o, acts[..|acts| - 1]).Shut())
    ensures After(o, acts).lost == []
  {
    hide Next, Enabled, Core, Healthy, Later;
    if acts != [] {
      var p, a := acts[..|acts| - 1], acts[|acts| - 1];
      RunCore(o, p);
      if p != [] {
        RunCore(o, p[..|p| - 1]);
        StepForward(After(o, p[..|p| - 1]), o, p[|p| - 1]);
        NeverUnshut(After(o, p[..|p| - 1]), After(o, p));
      }
      NothingLostBefore(o, p);
      StepLoses(After(o, p), o, a);
    }
  }

  /** What waits when the write side is shut, and nothing else, is lost from then on, in order, as it runs. */
  lemma {:induction false} WaitingIsLost(o: Options, acts: seq<Action>, more: seq<Action>)
    requires IsRun(o, acts) && IsRun(o, acts + more) && After(o, acts).Shut()
    ensures var c, d := After(o, acts), After(o, acts + more);
            d.lost + Waiting(d.tasks) == c.lost + Waiting(c.tasks)
    decreases |more|
  {
    hide Next, Enabled, Core;
    if more == [] {
      assert acts + more == acts;
    } else {
      var m := more[..|more| - 1];
      assert (acts + more)[..|acts + more| - 1] == acts + m;
      WaitingIsLost(o, acts, m);
      RunCore(o, acts + m);
      NothingAfterShutdown(o, acts, m);
      StepLoses(After(o, acts + m), o, (acts + more)[|acts + more| - 1]);
    }
  }

  /** Which messages a shutdown loses: exactly those that other threads had handed over and that still waited at the
      moment the write side was shut. All that had run by then, also while something was being written, is on the wire. */
  lemma LateSends(o: Options, acts: seq<Action>, more: seq<Action>)
    requires IsRun(o, acts) && HealthyRun(o, acts) && IsRun(o, acts + more)
    requires acts != [] && !After(o, acts[..|acts| - 1]).Shut() && After(o, acts).Shut()
    ensures var c, d := After(o, acts), After(o, acts + more);
            && d.lost + Waiting(d.tasks) == Waiting(c.tasks)
            && c.wire == c.sent == d.wire && (d.lost == [] && Waiting(d.tasks) == [] <==> Waiting(c.tasks) == [])
  {
    hide Next, Enabled, Core, Healthy, Waiting, Later;
    NothingLostBefore(o, acts);
    WaitingIsLost(o, acts, more);
    NothingAfterShutdown(o, acts, more);
    var p, a := acts[..|acts| - 1], acts[|acts| - 1];
    RunCore(o, p);
    RunCore(o, acts);
    StepForward(After(o, p), o, a);
    NowShut(After(o, p), After(o, acts), a);
    var c := After(o, acts);
    assert c.lost + Waiting(c.tasks) == Waiting(c.tasks);
  }

  lemma NowShut(c: Conn, d: Conn, a: Action)
    requires Later(c, d) && !c.Shut() && d.Shut() && Healthy(c, a)
    ensures d.wire == d.sent
  {
  }

  // ----- the class -----

  class Connection {
    const options: Options
    var state: State
    const outputBuffer: B.Buffer
    var writing: bool        // channel_->isWriting()
    var wire: seq<Byte>      // what the socket has taken
    var shuts: nat           // calls of shutdownWrite()
    var sent: seq<Byte>
    var lost: seq<seq<Byte>>
    var tasks: seq<Task>     // queued in the loop for this connection
    var events: seq<Event>

    ghost predicate Valid()
      reads this, outputBuffer, outputBuffer.buffer
    {
      outputBuffer.Valid() && Core(View())
    }

    function View(): Conn
      reads this, outputBuffer, outputBuffer.buffer
      requires outputBuffer.Valid()
    {
      Conn(state, outputBuffer.Contents(), writing, wire, shuts, sent, lost, tasks, events)
    }

    constructor (o: Options)
      ensures Valid() && View() == Start() && fresh(outputBuffer) && fresh(outputBuffer.buffer) && options == o
    {
      options := o;
      state, writing, wire, shuts, sent, lost, tasks, events := Connecting, false, [], 0, [], [], [], [];
      outputBuffer := new B.Buffer(1024);
    }

    method Establish()
      requires Valid() && state == Connecting
      modifies this
      ensures Valid() && View() == Next(old(View()), options, DoEstablish)
    {
      StepCore(View(), options, DoEstablish);
      state := Connected;
      events := events + [Up];
    }

    /** The second half of sendInLoop. */
    method Queue(rest: seq<Byte>)
      requires outputBuffer.Valid()
      modifies this`events, this`writing, outputBuffer, outputBuffer.buffer
      ensures outputBuffer.Valid() && View() == Enqueue(old(View()), options, rest)
      ensures outputBuffer.buffer == old(outputBuffer.buffer) || fresh(outputBuffer.buffer)
    {
      var oldLen := outputBuffer.ReadableBytes();
      if oldLen + |rest| >= options.highWaterMark && oldLen < options.highWaterMark && options.hasHighWater {
        events := events + [HighWater(oldLen + |rest|)];
      }
      outputBuffer.Append(rest);
      if !writing {
        writing := true;
      }
    }

    /** The direct write of sendInLoop. */
    method WriteNow(data: seq<Byte>, w: WriteResult) returns (nwrote: nat, faultError: bool)
      requires outputBuffer.Valid() && (w.Wrote? ==> w.n <= |data|)
      modifies this`wire, this`events
      ensures nwrote == (if w.Wrote? then w.n else 0) && faultError == w.Broken?
      ensures outputBuffer.Valid() && wire == old(wire) + data[..nwrote]
      ensures events == old(events) + (if w == Wrote(|data|) && options.hasWriteComplete then [WriteComplete] else [])
    {
      nwrote, faultError := 0, false;
      match w {
        case Wrote(n) =>
          nwrote := n;
          wire := wire + data[..n];
          if n == |data| && options.hasWriteComplete {
            events := events + [WriteComplete];
          }
        case Broken => faultError := true;
        case _ =>
      }
    }

    /** sendInLoop; w is what a direct write() would answer. */
    method SendNow(data: seq<Byte>, w: WriteResult)
      requires outputBuffer.Valid() && (w.Wrote? ==> w.n <= |data|)
      modifies this, outputBuffer, outputBuffer.buffer
      ensures outputBuffer.Valid() && View() == SendInLoop(old(View()), options, data, w)
      ensures outputBuffer.buffer == old(outputBuffer.buffer) || fresh(outputBuffer.buffer)
    {
      hide Enqueue;
      var nwrote, faultError := 0, false;
      if state == Disconnected {
        lost := lost + [data];
        return;
      }
      if !writing && outputBuffer.ReadableBytes() == 0 {
        nwrote, faultError := WriteNow(data, w);
        assert !w.Wrote? ==> wire == old(wire) && events == old(events);
        assert old(events) + [] == old(events);
      }
      if faultError {
        lost := lost + [data];
      } else {
        assert data == [] ==> sent + data == sent;
        sent := sent + data;
        if nwrote < |data| {
          assert data[0..] == data;
          Queue(data[nwrote..]);
        }
      }
    }

    method Send(data: seq<Byte>, w: WriteResult)
      requires Valid() && Answers(View(), |data|, w)
      modifies this, outputBuffer, outputBuffer.buffer
      ensures Valid() && View() == Next(old(View()), options, DoSend(data, w))
    {
      StepCore(View(), options, DoSend(data, w));
      if state == Connected {
        SendNow(data, w);
      }
    }

    method ShutdownWrite()
      requires outputBuffer.Valid()
      modifies this`shuts
      ensures outputBuffer.Valid() && View() == ShutdownInLoop(old(View()))
    {
      if !writing {
        shuts := shuts + 1;
      }
    }

    method Shutdown()
      requires Valid()
      modifies this
      ensures Valid() && View() == Next(old(View()), options, DoShutdown)
    {
      StepCore(View(), options, DoShutdown);
      if state == Connected {
        state := Disconnecting;
        ShutdownWrite();
      }
    }

    method ForceClose()
      requires Valid()
      modifies this
      ensures Valid() && View() == Next(old(View()), options, DoForceClose)
    {
      StepCore(View(), options, DoForceClose);
      if state == Connected || state == Disconnecting {
        state := Disconnecting;
      }
    }

    method HandleClose()
      requires Valid() && (state == Connected || state == Disconnecting)
      modifies this
      ensures Valid() && View() == Next(old(View()), options, DoHandleClose)
    {
      StepCore(View(), options, DoHandleClose);
      state := Disconnected;
      writing := false;
      events := events + [Down] + [CloseCallback];
    }

    method ForceCloseNow()
      requires Valid()
      modifies this
      ensures Valid() && View() == Next(old(View()), options, DoForceCloseInLoop)
    {
      if state == Connected || state == Disconnecting {
        HandleClose();
      }
    }

    /** send() called by another thread: the message is copied into a task. */
    method SendFromOther(data: seq<Byte>)
      requires Valid()
      modifies this`tasks
      ensures Valid() && View() == Next(old(View()), options, DoHandOver(data))
    {
      StepCore(View(), options, DoHandOver(data));
      if state == Connected {
        tasks := tasks + [LateSend(data)];
      }
    }

    method ShutdownFromOther()
      requires Valid()
      modifies this`tasks, this`state
      ensures Valid() && View() == Next(old(View()), options, DoHandOverShutdown)
    {
      StepCore(View(), options, DoHandOverShutdown);
      if state == Connected {
        state := Disconnecting;
        tasks := tasks + [LateShutdown];
      }
    }

    /** The loop thread runs the first of the tasks. */
    method RunFirstTask(w: WriteResult)
      requires Valid() && Enabled(View(), DoTask(w))
      modifies this, outputBuffer, outputBuffer.buffer
      ensures Valid() && View() == Next(old(View()), options, DoTask(w))
    {
      StepCore(View(), options, DoTask(w));
      var task := tasks[0];
      tasks := tasks[1..];
      match task {
        case LateSend(data) => SendNow(data, w);
        case LateShutdown => ShutdownWrite();
      }
    }

    /** handleWrite; w is what write() answers for the readable bytes. */
    method HandleWrite(w: WriteResult)
      requires Valid() && Answers(View(), |outputBuffer.Contents()|, w)
      modifies this, outputBuffer, outputBuffer.buffer
      ensures Valid() && View() == Next(old(View()), options, DoHandleWrite(w))
    {
      StepCore(View(), options, DoHandleWrite(w));
      if writing && w.Wrote? && w.n > 0 {
        wire := wire + outputBuffer.Contents()[..w.n];
        outputBuffer.Retrieve(w.n);
        if outputBuffer.ReadableBytes() == 0 {
          writing := false;
          if options.hasWriteComplete {
            events := events + [WriteComplete];
          }
          if state == Disconnecting {
            ShutdownWrite();
          }
        }
      }
    }

    method Destroy()
      requires Valid()
      modifies this
      ensures Valid() && View() == Next(old(View()), options, DoDestroy)
    {
      StepCore(View(), options, DoDestroy);
      if state == Connected {
        state := Disconnected;
        writing := false;
        events := events + [Down];
      }
    }
  }
}
