/** Double-buffered logging: appenders fill buffers under a lock, one thread swaps them out and writes them.
    A step is one access to running_, one critical section, or a stretch of the logging thread's own work. */
module AsyncLogging {
  import opened Wrappers

  const CAPACITY: nat := 4000 * 1000

  /** What reaches the file: a buffer's text, or the notice that buffers were dropped. */
  datatype Chunk = Text(text: string) | Notice(when: string, count: nat)

  datatype Pc = LoopHead | Entering | Waiting | Taken | Writing(done: nat) | Stopped

  /** The buffers by content. */
  datatype Logging = Logging(running: bool, pc: Pc, current: string, next: Option<string>, buffers: seq<string>,
                             new1: Option<string>, new2: Option<string>, toWrite: seq<string>, output: seq<Chunk>)

  // ----- the steps on contents -----

  /** FixedBuffer::append: all or nothing. */
  function Filled(data: string, line: string): string {
    if |data| + |line| < CAPACITY then data + line else data
  }

  function Appended(s: Logging, line: string): Logging {
    if |s.current| + |line| < CAPACITY then s.(current := s.current + line)
    else s.(buffers := s.buffers + [s.current],
            current := Filled(if s.next.Some? then s.next.value else "", line),
            next := None)
  }

  function Swapped(s: Logging): Logging
    requires s.new1.Some?
  {
    var t := s.(pc := Taken, toWrite := s.buffers + [s.current], buffers := s.toWrite, current := s.new1.value, new1 := None);
    if s.next == None then t.(next := s.new2, new2 := None) else t
  }

  /** The test of running_. */
  function Tested(s: Logging): Logging { s.(pc := if s.running then Entering else Stopped) }

  /** The critical section: wait for work, or take the buffers. */
  function Entered(s: Logging): Logging
    requires s.pc == Entering && s.new1.Some?
  {
    if s.buffers == [] then s.(pc := Waiting) else Swapped(s)
  }

  /** Keep two buffers out of more than 25. */
  function Trimmed(s: Logging, when: string): Logging
    requires s.pc == Taken
  {
    if |s.toWrite| > 25 then
      s.(pc := Writing(0), output := s.output + [Notice(when, |s.toWrite| - 2)], toWrite := s.toWrite[..2])
    else s.(pc := Writing(0))
  }

  function WroteOne(s: Logging): Logging
    requires s.pc.Writing? && s.pc.done < |s.toWrite|
  {
    s.(output := s.output + [Text(s.toWrite[s.pc.done])], pc := Writing(s.pc.done + 1))
  }

  /** Take back up to two buffers, emptied, from the end of the first two. */
  function Recycled(s: Logging): Logging
    requires s.pc.Writing?
    requires (if s.new1 == None then 1 else 0) + (if s.new2 == None then 1 else 0) <= |s.toWrite|
  {
    s.(pc := LoopHead, new1 := Some(if s.new1.Some? then s.new1.value else ""),
       new2 := Some(if s.new2.Some? then s.new2.value else ""), toWrite := [])
  }

  // ----- what holds at every step -----

  function Flatten(ts: seq<string>): string {
    if ts == [] then "" else Flatten(ts[..|ts| - 1]) + ts[|ts| - 1]
  }

  /** The assertions of the loop, and what they rest on: a missing spare buffer was pushed full, so there is always
      one more to take back. */
  predicate Ok(s: Logging) {
    && (s.next.Some? ==> s.next.value == "")
    && (s.new1.Some? ==> s.new1.value == "") && (s.new2.Some? ==> s.new2.value == "")
    && (s.next == None ==> s.buffers != [])
    && |s.current| < CAPACITY && (forall i :: 0 <= i < |s.buffers| ==> |s.buffers[i]| < CAPACITY)
    && match s.pc {
      case LoopHead => s.new1.Some? && s.new2.Some? && s.toWrite == []
      case Entering => s.new1.Some? && s.new2.Some? && s.toWrite == []
      case Waiting => s.new1.Some? && s.new2.Some? && s.toWrite == []
      case Stopped => true
      case Taken => s.new1 == None && s.toWrite != [] && (s.new2 == None ==> |s.toWrite| >= 2)
      case Writing(done) =>
        s.new1 == None && s.toWrite != [] && (s.new2 == None ==> |s.toWrite| >= 2) && |s.toWrite| <= 25 && done <= |s.toWrite|
    }
  }

  // ----- runs -----

  datatype Action =
    | DoAppend(line: string)
    | DoTest
    | DoEnter
    | DoWake  // notified, timed out, or for no reason
    | DoDrop(when: string)
    | DoWrite
    | DoRecycle
    | DoStop

  predicate Enabled(s: Logging, a: Action) {
    match a
    case DoAppend(_) => true
    case DoTest => s.pc == LoopHead
    case DoEnter => s.pc == Entering && s.new1.Some?
    case DoWake => s.pc == Waiting && s.new1.Some?
    case DoDrop(_) => s.pc == Taken
    case DoWrite => s.pc.Writing? && s.pc.done < |s.toWrite|
    case DoRecycle =>
      s.pc.Writing? && s.pc.done == |s.toWrite| &&
      (if s.new1 == None then 1 else 0) + (if s.new2 == None then 1 else 0) <= |s.toWrite|
    case DoStop => true
  }

  function Next(s: Logging, a: Action): Logging
    requires Enabled(s, a)
  {
    match a
    case DoAppend(line) => Appended(s, line)
    case DoTest => Tested(s)
    case DoEnter => Entered(s)
    case DoWake => Swapped(s)
    case DoDrop(when) => Trimmed(s, when)
    case DoWrite => WroteOne(s)
    case DoRecycle => Recycled(s)
    case DoStop => s.(running := false)
  }

  function Start(): Logging {
    Logging(true, LoopHead, "", Some(""), [], Some(""), Some(""), [], [])
  }

  predicate IsRun(s: Logging, acts: seq<Action>)
    decreases |acts|, 0
  {
    acts == [] || (IsRun(s, acts[..|acts| - 1]) && Enabled(After(s, acts[..|acts| - 1]), acts[|acts| - 1]))
  }

  /** The state after a run. */
  function After(s: Logging, acts: seq<Action>): Logging
    requires IsRun(s, acts)
    decreases |acts|, 1
  {
    if acts == [] then s else Next(After(s, acts[..|acts| - 1]), acts[|acts| - 1])
  }

  lemma StepOk(s: Logging, a: Action)
    requires Ok(s) && Enabled(s, a)
    ensures Ok(Next(s, a))
  {
    if a.DoAppend? && !(|s.current| + |a.line| < CAPACITY) {
      assert Next(s, a).buffers[|s.buffers|] == s.current;
    }
  }

  /** The thread is never stuck: what its position calls for is always possible, so both spares can be refilled. */
  lemma NeverStuck(s: Logging, when: string)
    requires Ok(s)
    ensures match s.pc {
              case LoopHead => Enabled(s, DoTest)
              case Entering => Enabled(s, DoEnter)
              case Waiting => Enabled(s, DoWake)
              case Taken => Enabled(s, DoDrop(when))
              case Writing(_) => Enabled(s, DoWrite) || Enabled(s, DoRecycle)
              case Stopped => true
            }
  {
  }

  lemma {:induction false} RunOk(s: Logging, acts: seq<Action>)
    requires Ok(s) && IsRun(s, acts)
    ensures Ok(After(s, acts))
  {
    if acts != [] {
      RunOk(s, acts[..|acts| - 1]);
      StepOk(After(s, acts[..|acts| - 1]), acts[|acts| - 1]);
    }
  }

  // ----- where every line goes -----

  /** What the logging thread did with the buffers it took at once: those written, and those dropped after them. */
  datatype Batch = Batch(kept: seq<string>, dropped: seq<string>, when: string)

  /** Buffers are dropped only from a batch of more than 25, and then all but the first two. */
  predicate FairBatch(b: Batch) { b.dropped != [] ==> |b.kept| == 2 && |b.kept| + |b.dropped| > 25 }

  /** All lines appended so far, the batches that are done with, and what was dropped from the one in hand. */
  datatype Ledger = Ledger(appended: string, done: seq<Batch>, dropped: seq<string>, when: string)

  function Account(l: Ledger, s: Logging, a: Action): Ledger
    requires Enabled(s, a)
  {
    match a
    case DoAppend(line) => if |line| < CAPACITY then l.(appended := l.appended + line) else l
    case DoDrop(when) => if |s.toWrite| > 25 then l.(dropped := s.toWrite[2..], when := when) else l
    case DoRecycle => l.(done := l.done + [Batch(s.toWrite, l.dropped, l.when)], dropped := [])
    case _ => l
  }

  function Accounts(s: Logging, acts: seq<Action>): Ledger
    requires IsRun(s, acts)
  {
    if acts == [] then Ledger("", [], [], "")
    else Account(Accounts(s, acts[..|acts| - 1]), After(s, acts[..|acts| - 1]), acts[|acts| - 1])
  }

  /** The lines that were in the batches. */
  function Original(done: seq<Batch>): string {
    if done == [] then ""
    else Original(done[..|done| - 1]) + (Flatten(done[|done| - 1].kept) + Flatten(done[|done| - 1].dropped))
  }

  /** The notice in front of a batch, if buffers were dropped from it: it says how many. */
  function Opening(dropped: seq<string>, when: string): seq<Chunk> {
    if dropped == [] then [] else [Notice(when, |dropped|)]
  }

  function Texts(ts: seq<string>): seq<Chunk> { seq(|ts|, i requires 0 <= i < |ts| => Text(ts[i])) }

  /** What the batches look like in the file. */
  function Shown(done: seq<Batch>): seq<Chunk> {
    if done == [] then []
    else
      var b := done[|done| - 1];
      Shown(done[..|done| - 1]) + (Opening(b.dropped, b.when) + Texts(b.kept))
  }

  /** The buffers the logging thread has taken and not dropped. */
  function Taking(s: Logging): seq<string> { if s.pc == Taken || s.pc.Writing? then s.toWrite else [] }

  /** How many of them are in the file. */
  function Done(s: Logging): nat { if s.pc.Writing? && s.pc.done <= |s.toWrite| then s.pc.done else 0 }

  /** Everything appended is in a batch, taken, queued or in the current buffer, in the order of the appends; and the
      file shows the batches so far, and of the one in hand what has been written. */
  predicate Accounted(s: Logging, l: Ledger) {
    && Original(l.done) + (Flatten(Taking(s)) + Flatten(l.dropped)) + Flatten(s.buffers) + s.current == l.appended
    && s.output == Shown(l.done) + (Opening(l.dropped, l.when) + Texts(Taking(s)[..Done(s)]))
    && (l.dropped != [] ==> s.pc.Writing?)
    && (s.pc.Writing? ==> FairBatch(Batch(s.toWrite, l.dropped, l.when)))
    && (forall i :: 0 <= i < |l.done| ==> FairBatch(l.done[i]))
  }

  lemma {:induction false} FlattenSplit(a: seq<string>, b: seq<string>)
    ensures Flatten(a + b) == Flatten(a) + Flatten(b)
  {
    if b == [] {
      assert a + b == a;
    } else {
      assert (a + b)[..|a + b| - 1] == a + b[..|b| - 1];
      FlattenSplit(a, b[..|b| - 1]);
    }
  }

  lemma FlattenOne(t: string)
    ensures Flatten([t]) == t
  {
    assert [t][..0] == [];
  }

  lemma Assoc(a: string, b: string, c: string)
    ensures a + (b + c) == a + b + c
  {
  }

  lemma AppendAccounted(s: Logging, l: Ledger, line: string)
    requires Ok(s) && Accounted(s, l)
    ensures Accounted(Appended(s, line), Account(l, s, DoAppend(line)))
  {
    hide Original, Shown, Flatten, FairBatch, Texts;
    var front := Original(l.done) + (Flatten(Taking(s)) + Flatten(l.dropped));
    if |s.current| + |line| < CAPACITY {
      Assoc(front + Flatten(s.buffers), s.current, line);
    } else {
      FlattenSplit(s.buffers, [s.current]);
      FlattenOne(s.current);
      Assoc(front, Flatten(s.buffers), s.current);
      assert "" + line == line;
      assert l.appended + "" == l.appended;
    }
  }

  lemma Empties(a: string)
    ensures a + "" == a && "" + a == a
  {
  }

  lemma NoTexts(ts: seq<string>)
    ensures Texts(ts[..0]) == [] && Opening([], "") == []
  {
  }

  lemma SwapAccounted(s: Logging, l: Ledger)
    requires Ok(s) && Accounted(s, l) && (s.pc == Entering || s.pc == Waiting)
    ensures Accounted(Swapped(s), l)
  {
    hide Original, Shown, Flatten, FairBatch, Texts;
    FlattenSplit(s.buffers, [s.current]);
    FlattenOne(s.current);
    FlattenNone();
    NoTexts(Taking(s));
    NoTexts(Taking(Swapped(s)));
    var o := Original(l.done);
    Empties(o);
    Empties(Flatten(s.buffers) + s.current);
    Empties(o + (Flatten(s.buffers) + s.current));
    Assoc(o, Flatten(s.buffers), s.current);
  }

  lemma FlattenNone()
    ensures Flatten([]) == ""
  {
  }

  lemma DropAccounted(s: Logging, l: Ledger, when: string)
    requires Ok(s) && Accounted(s, l) && s.pc == Taken
    ensures Accounted(Trimmed(s, when), Account(l, s, DoDrop(when)))
  {
    hide Original, Shown, Flatten, Texts;
    NoTexts(s.toWrite);
    NoTexts(Trimmed(s, when).toWrite);
    if |s.toWrite| > 25 {
      FlattenSplit(s.toWrite[..2], s.toWrite[2..]);
      assert s.toWrite[..2] + s.toWrite[2..] == s.toWrite;
      FlattenNone();
      Empties(Flatten(s.toWrite));
    }
  }

  lemma WriteAccounted(s: Logging, l: Ledger)
    requires Ok(s) && Accounted(s, l) && Enabled(s, DoWrite)
    ensures Accounted(WroteOne(s), Account(l, s, DoWrite))
  {
    hide Flatten, Original, Shown, FairBatch;
    var i := s.pc.done;
    assert Texts(s.toWrite[..i + 1]) == Texts(s.toWrite[..i]) + [Text(s.toWrite[i])];
  }

  lemma RecycleAccounted(s: Logging, l: Ledger)
    requires Ok(s) && Accounted(s, l) && Enabled(s, DoRecycle)
    ensures Accounted(Recycled(s), Account(l, s, DoRecycle))
  {
    hide Flatten, FairBatch, Texts;
    var m := Account(l, s, DoRecycle);
    assert m.done[..|m.done| - 1] == l.done;
    assert s.toWrite[..|s.toWrite|] == s.toWrite;
    FlattenNone();
    NoTexts([]);
    Empties(Original(m.done));
  }

  lemma StepAccounted(s: Logging, l: Ledger, a: Action)
    requires Ok(s) && Accounted(s, l) && Enabled(s, a)
    ensures Accounted(Next(s, a), Account(l, s, a))
  {
    hide Appended, Swapped, Trimmed, WroteOne, Recycled, Accounted, Original, Shown, Flatten;
    match a {
      case DoAppend(line) => AppendAccounted(s, l, line);
      case DoTest => PcOnly(s, l, if s.running then Entering else Stopped);
      case DoEnter => if s.buffers != [] { SwapAccounted(s, l); } else { PcOnly(s, l, Waiting); }
      case DoWake => SwapAccounted(s, l);
      case DoDrop(when) => DropAccounted(s, l, when);
      case DoWrite => WriteAccounted(s, l);
      case DoRecycle => RecycleAccounted(s, l);
      case DoStop => RunningOnly(s, l);
    }
  }

  lemma PcOnly(s: Logging, l: Ledger, pc: Pc)
    requires Accounted(s, l) && (s.pc == LoopHead || s.pc == Entering) && (pc == Entering || pc == Waiting || pc == Stopped)
    ensures Accounted(s.(pc := pc), l)
  {
  }

  lemma RunningOnly(s: Logging, l: Ledger)
    requires Accounted(s, l)
    ensures Accounted(s.(running := false), l)
  {
  }

  /** In every interleaving of appenders and the logging thread: the batches with what was dropped from them, then
      the buffers taken, then the queued ones, then the current one are exactly the appended lines in order; the file
      is the batches in order, each dropping one headed by a notice with the number of buffers dropped; and buffers are
      dropped only from a batch of more than 25, whose first two are written. */
  lemma {:induction false} RunAccounted(acts: seq<Action>)
    requires IsRun(Start(), acts)
    ensures Accounted(After(Start(), acts), Accounts(Start(), acts))
  {
    hide Next, Account, Enabled, Flatten;
    FlattenNone();
    if acts != [] {
      var p, a := acts[..|acts| - 1], acts[|acts| - 1];
      RunAccounted(p);
      RunOk(Start(), p);
      StepAccounted(After(Start(), p), Accounts(Start(), p), a);
    }
  }

  /** The text in the file. */
  function FileText(output: seq<Chunk>): string {
    if output == [] then ""
    else FileText(output[..|output| - 1]) + (if output[|output| - 1].Text? then output[|output| - 1].text else "")
  }

  predicate NoNotice(output: seq<Chunk>) { forall i :: 0 <= i < |output| ==> output[i].Text? }

  lemma {:induction false} FileTextSplit(a: seq<Chunk>, b: seq<Chunk>)
    ensures FileText(a + b) == FileText(a) + FileText(b)
  {
    if b == [] {
      assert a + b == a;
    } else {
      assert (a + b)[..|a + b| - 1] == a + b[..|b| - 1];
      FileTextSplit(a, b[..|b| - 1]);
    }
  }

  lemma {:induction false} FileTextTexts(ts: seq<string>)
    ensures FileText(Texts(ts)) == Flatten(ts)
    decreases |ts|
  {
    if ts != [] {
      assert Texts(ts)[..|ts| - 1] == Texts(ts[..|ts| - 1]);
      FileTextTexts(ts[..|ts| - 1]);
    }
  }

  lemma OpeningShows(x: seq<Chunk>, dropped: seq<string>, when: string, y: seq<Chunk>)
    ensures dropped != [] ==> !NoNotice(x + (Opening(dropped, when) + y))
  {
    if dropped != [] { assert (x + (Opening(dropped, when) + y))[|x|] == Notice(when, |dropped|); }
  }

  /** The file without notices has the lines of its batches. */
  lemma {:induction false} ShownText(done: seq<Batch>)
    requires NoNotice(Shown(done))
    ensures FileText(Shown(done)) == Original(done)
    decreases |done|
  {
    hide FileText, Texts, Flatten;
    if done == [] {
      assert FileText([]) == "" by { FileTextNone(); }
    } else {
      var front, b := done[..|done| - 1], done[|done| - 1];
      var x, y := Shown(front), Opening(b.dropped, b.when) + Texts(b.kept);
      assert forall i :: 0 <= i < |x| ==> (x + y)[i] == x[i];
      ShownText(front);
      FileTextSplit(x, y);
      OpeningShows(x, b.dropped, b.when, Texts(b.kept));
      assert b.dropped == [] && y == Texts(b.kept);
      FileTextTexts(b.kept);
      FlattenNone();
      Empties(Flatten(b.kept));
    }
  }

  lemma FileTextNone()
    ensures FileText([]) == ""
  {
  }

  /** As long as there is no notice in the file, nothing has been lost: the file, the buffers taken but not yet written,
      the queued ones and the current one are the appended lines in order. */
  lemma NothingLost(acts: seq<Action>)
    requires IsRun(Start(), acts) && NoNotice(After(Start(), acts).output)
    ensures var s := After(Start(), acts);
            FileText(s.output) + Flatten(Taking(s)[Done(s)..]) + Flatten(s.buffers) + s.current == Accounts(Start(), acts).appended
  {
    hide After, Accounts, IsRun, FileText, Original, Shown, Texts, Flatten;
    RunAccounted(acts);
    var s, l := After(Start(), acts), Accounts(Start(), acts);
    var x, ts, d := Shown(l.done), Taking(s), Done(s);
    var y := Opening(l.dropped, l.when) + Texts(ts[..d]);
    assert forall i :: 0 <= i < |x| ==> s.output[i] == x[i];
    OpeningShows(x, l.dropped, l.when, Texts(ts[..d]));
    assert y == Texts(ts[..d]);
    ShownText(l.done);
    FileTextSplit(x, y);
    FileTextTexts(ts[..d]);
    FlattenNone();
    Empties(Flatten(ts));
    assert ts[..d] + ts[d..] == ts;
    FlattenSplit(ts[..d], ts[d..]);
    Assoc(Original(l.done), Flatten(ts[..d]), Flatten(ts[d..]));
  }

  // ----- stop() -----

  /** The text in memory that the logging thread has not taken. */
  function Untaken(s: Logging): string { Flatten(s.buffers) + s.current }

  /** Will the logging thread take the buffers once more, whatever running_ says? */
  predicate AboutToTake(s: Logging) { s.pc == Entering || s.pc == Waiting }

  function Lines(acts: seq<Action>): string {
    if acts == [] then ""
    else
      var front, a := Lines(acts[..|acts| - 1]), acts[|acts| - 1];
      if a.DoAppend? && |a.line| < CAPACITY then front + a.line else front
  }

  predicate NoAppend(acts: seq<Action>) { forall i :: 0 <= i < |acts| ==> !acts[i].DoAppend? }

  /** One step after stop(). */
  lemma StepStopped(s: Logging, a: Action)
    requires Ok(s) && Enabled(s, a) && !s.running
    ensures var t := Next(s, a);
            && !t.running && (AboutToTake(t) ==> AboutToTake(s))
            && Untaken(t) == (if AboutToTake(s) && !AboutToTake(t) then "" else Untaken(s) + Lines([a]))
  {
    hide Flatten;
    assert [a][..0] == [];
    Empties(Untaken(s));
    FlattenNone();
    if a.DoAppend? {
      if |s.current| + |a.line| < CAPACITY {
        Assoc(Flatten(s.buffers), s.current, a.line);
      } else {
        FlattenSplit(s.buffers, [s.current]);
        FlattenOne(s.current);
        Empties(a.line);
        Empties(Flatten(s.buffers) + s.current);
      }
    }
  }

  lemma {:induction false} AfterStop(s: Logging, acts: seq<Action>)
    requires Ok(s) && !s.running && IsRun(s, acts)
    ensures var t := After(s, acts);
            && !t.running && (AboutToTake(t) ==> AboutToTake(s))
            && ((AboutToTake(s) <==> AboutToTake(t)) ==> Untaken(t) == Untaken(s) + Lines(acts))
            && (AboutToTake(s) && !AboutToTake(t) && NoAppend(acts) ==> Untaken(t) == "")
  {
    hide Next, Enabled, Ok, Untaken, AboutToTake;
    if acts == [] {
      Empties(Untaken(s));
    } else {
      var p, a := acts[..|acts| - 1], acts[|acts| - 1];
      AfterStop(s, p);
      RunOk(s, p);
      StepStopped(After(s, p), a);
      LinesSplit(Untaken(s), p, a);
      assert acts == p + [a];
      if NoAppend(acts) {
        assert forall i :: 0 <= i < |p| ==> p[i] == acts[i];
        assert !acts[|p|].DoAppend?;
        NoLines(a);
        Empties("");
      }
    }
  }

  lemma LinesSplit(x: string, acts: seq<Action>, a: Action)
    ensures x + Lines(acts) + Lines([a]) == x + Lines(acts + [a])
  {
    assert [a][..0] == [] && (acts + [a])[..|acts|] == acts;
    Empties(x + Lines(acts));
    if a.DoAppend? {
      Empties(a.line);
      Assoc(x, Lines(acts), a.line);
    }
  }

  lemma NoLines(a: Action)
    requires !a.DoAppend?
    ensures Lines([a]) == ""
  {
    assert [a][..0] == [];
  }

  /** stop() does not flush. What is still in memory when the thread has stopped, and so is lost: nothing, if at stop()
      the thread had tested running_ and not yet taken the buffers and nothing was appended later; else everything it had
      not taken at stop(), and every line appended later. */
  lemma StopLoses(s: Logging, acts: seq<Action>)
    requires Ok(s) && s.pc != Stopped && !s.running && IsRun(s, acts) && After(s, acts).pc == Stopped
    ensures !AboutToTake(s) ==> Untaken(After(s, acts)) == Untaken(s) + Lines(acts)
    ensures NoAppend(acts) ==> (Untaken(After(s, acts)) != "" <==> !AboutToTake(s) && Untaken(s) != "")
  {
    hide Lines;
    AfterStop(s, acts);
    if NoAppend(acts) { NoAppendNoLines(acts); }
    Empties(Untaken(s));
  }

  lemma {:induction false} NoAppendNoLines(acts: seq<Action>)
    requires NoAppend(acts)
    ensures Lines(acts) == ""
    decreases |acts|
  {
    if acts != [] {
      assert forall i :: 0 <= i < |acts| - 1 ==> acts[..|acts| - 1][i] == acts[i];
      NoAppendNoLines(acts[..|acts| - 1]);
    }
  }

  /** So a line appended between two batches can be lost. */
  lemma StopMayLoseLines(line: string)
    requires 0 < |line| < CAPACITY
    ensures var s := Start().(current := line, running := false);
            s == Next(Next(Start(), DoAppend(line)), DoStop) && Next(s, DoTest).pc == Stopped && Untaken(Next(s, DoTest)) == line
  {
    assert "" + line == line;
    assert Next(Start(), DoAppend(line)) == Start().(current := line);
    FlattenNone();
    Empties(line);
  }

  // ----- the class -----

  /** Every buffer has exactly one owner at a time (a ptr_vector or an auto_type pointer), so it is its content. */
  class AsyncLog {
    var running: bool
    var pc: Pc
    var currentBuffer: string
    var nextBuffer: Option<string>
    var buffers: seq<string>
    // the logging thread's own
    var newBuffer1: Option<string>
    var newBuffer2: Option<string>
    var buffersToWrite: seq<string>
    var output: seq<Chunk>

    function State(): Logging
      reads this
    {
      Logging(running, pc, currentBuffer, nextBuffer, buffers, newBuffer1, newBuffer2, buffersToWrite, output)
    }

    ghost predicate Valid()
      reads this
    {
      Ok(State())
    }

    constructor ()
      ensures Valid() && State() == Start()
    {
      running, pc := true, LoopHead;
      currentBuffer, nextBuffer, buffers := "", Some(""), [];
      newBuffer1, newBuffer2, buffersToWrite, output := Some(""), Some(""), [], [];
    }

    /** AsyncLogging::append, under the lock; any thread, at any time. */
    method Append(line: string)
      requires Valid()
      modifies this
      ensures Valid() && State() == Appended(old(State()), line)
    {
      StepOk(State(), DoAppend(line));
      if CAPACITY - |currentBuffer| > |line| {
        currentBuffer := Filled(currentBuffer, line);
      } else {
        buffers := buffers + [currentBuffer];
        if nextBuffer.Some? {
          currentBuffer, nextBuffer := nextBuffer.value, None;
        } else {
          currentBuffer := "";
        }
        currentBuffer := Filled(currentBuffer, line);
      }
    }

    method SwapBuffers()
      requires Valid() && (pc == Entering || pc == Waiting)
      modifies this
      ensures State() == Swapped(old(State()))
    {
      buffers := buffers + [currentBuffer];
      currentBuffer, newBuffer1 := newBuffer1.value, None;
      buffersToWrite, buffers := buffers, buffersToWrite;
      if nextBuffer == None {
        nextBuffer, newBuffer2 := newBuffer2, None;
      }
      pc := Taken;
    }

    /** The head of the loop. */
    method Test()
      requires Valid() && pc == LoopHead
      modifies this
      ensures Valid() && State() == Tested(old(State()))
    {
      StepOk(State(), DoTest);
      pc := if running then Entering else Stopped;
    }

    /** The critical section, up to the wait if there is one. */
    method Enter()
      requires Valid() && pc == Entering
      modifies this
      ensures Valid() && State() == Entered(old(State()))
    {
      StepOk(State(), DoEnter);
      if buffers == [] {
        pc := Waiting;
      } else {
        SwapBuffers();
      }
    }

    /** The rest of the critical section after the wait, whatever ended it. */
    method Wake()
      requires Valid() && pc == Waiting
      modifies this
      ensures Valid() && State() == Swapped(old(State()))
    {
      StepOk(State(), DoWake);
      SwapBuffers();
    }

    method DropExcess(when: string)
      requires Valid() && pc == Taken
      modifies this
      ensures Valid() && State() == Trimmed(old(State()), when)
    {
      StepOk(State(), DoDrop(when));
      if |buffersToWrite| > 25 {
        output := output + [Notice(when, |buffersToWrite| - 2)];
        buffersToWrite := buffersToWrite[..2];
      }
      pc := Writing(0);
    }

    method WriteBuffer()
      requires Valid() && pc.Writing? && pc.done < |buffersToWrite|
      modifies this
      ensures Valid() && State() == WroteOne(old(State()))
    {
      StepOk(State(), DoWrite);
      output := output + [Text(buffersToWrite[pc.done])];
      pc := Writing(pc.done + 1);
    }

    /** The end of the loop body: both spare buffers are there again, and empty. */
    method TakeBack()
      requires Valid() && pc.Writing? && pc.done == |buffersToWrite|
      modifies this
      ensures Valid() && State() == Recycled(old(State()))
    {
      StepOk(State(), DoRecycle);
      if |buffersToWrite| > 2 {
        buffersToWrite := buffersToWrite[..2];
      }
      if newBuffer1 == None {
        buffersToWrite := buffersToWrite[..|buffersToWrite| - 1];
        newBuffer1 := Some("");
      }
      if newBuffer2 == None {
        buffersToWrite := buffersToWrite[..|buffersToWrite| - 1];
        newBuffer2 := Some("");
      }
      buffersToWrite := [];
      pc := LoopHead;
    }

    method Stop()
      requires Valid()
      modifies this
      ensures Valid() && State() == old(State()).(running := false)
    {
      running := false;
    }
  }
}
