/** Machines that take one byte at a time and make callbacks: runs, splits of the input, and the
    callback stream with adjacent pieces of one field concatenated. */
module Streaming {
  import opened HttpTypes

  // ----- the callback stream -----

  predicate EndsWith(out: seq<Event>, k: DataKind) {
    |out| > 0 && out[|out| - 1].Data? && out[|out| - 1].kind == k
  }

  function Push(out: seq<Event>, e: Event): seq<Event> {
    if e.Data? && EndsWith(out, e.kind)
    then out[..|out| - 1] + [Data(e.kind, out[|out| - 1].bytes + e.bytes)]
    else out + [e]
  }

  function PushAll(out: seq<Event>, es: seq<Event>): seq<Event> {
    if es == [] then out else Push(PushAll(out, es[..|es| - 1]), es[|es| - 1])
  }

  /** The stream of a whole callback log. */
  function Norm(log: seq<Event>): seq<Event> { PushAll([], log) }

  function PushData(out: seq<Event>, k: DataKind, bytes: Bytes): seq<Event> {
    if bytes == [] then out else Push(out, Data(k, bytes))
  }

  lemma PushMerge(out: seq<Event>, k: DataKind, x: Bytes, y: Bytes)
    ensures Push(Push(out, Data(k, x)), Data(k, y)) == Push(out, Data(k, x + y))
  {
    var a := Push(out, Data(k, x));
    if EndsWith(out, k) {
      assert a[..|a| - 1] == out[..|out| - 1];
      assert out[|out| - 1].bytes + (x + y) == out[|out| - 1].bytes + x + y;
    } else {
      assert a[..|a| - 1] == out;
    }
  }

  lemma PushDataMerge(out: seq<Event>, k: DataKind, x: Bytes, y: Bytes)
    ensures PushData(PushData(out, k, x), k, y) == PushData(out, k, x + y)
  {
    if x == [] {
      assert x + y == y;
    } else if y == [] {
      assert x + y == x;
    } else {
      PushMerge(out, k, x, y);
    }
  }

  /** An empty piece changes nothing when the field is already being delivered. */
  lemma PushEmpty(out: seq<Event>, k: DataKind)
    requires EndsWith(out, k)
    ensures Push(out, Data(k, [])) == out
  {
    assert out[|out| - 1].bytes + [] == out[|out| - 1].bytes;
  }

  lemma PushOne(out: seq<Event>, e: Event)
    ensures PushAll(out, [e]) == Push(out, e)
  {
    assert [e][..0] == [];
  }

  lemma PushNew(out: seq<Event>, k: DataKind, x: Bytes)
    requires !EndsWith(out, k)
    ensures Push(out, Data(k, x)) == out + [Data(k, x)]
  {
  }

  lemma PushAllNone(out: seq<Event>)
    ensures PushAll(out, []) == out
  {
  }

  lemma {:induction false} PushAllSplit(out: seq<Event>, a: seq<Event>, b: seq<Event>)
    ensures PushAll(out, a + b) == PushAll(PushAll(out, a), b)
  {
    if b == [] {
      assert a + b == a;
    } else {
      assert (a + b)[..|a + b| - 1] == a + b[..|b| - 1];
      PushAllSplit(out, a, b[..|b| - 1]);
    }
  }

  lemma PushTwo(out: seq<Event>, d: Event, e: Event)
    ensures PushAll(out, [d, e]) == Push(Push(out, d), e)
  {
    assert [d, e] == [d] + [e];
    PushAllSplit(out, [d], [e]);
    PushOne(out, d);
    PushOne(Push(out, d), e);
  }

  // ----- machines and their runs -----

  /** What one byte does: keep going, leave because of an upgrade, or fail with an errno. */
  datatype Outcome =
    | Next(p: Parser, es: seq<Event>)
    | Stop(p: Parser, es: seq<Event>)
    | Fail(e: Failure)

  type Machine = (Parser, Byte) -> Outcome

  /** Everything consumed without trouble; left for another protocol after n bytes; failed at byte n. */
  datatype Result =
    | Running(p: Parser, out: seq<Event>)
    | Stopped(p: Parser, out: seq<Event>, n: nat)
    | Failed(e: Failure, n: nat)

  function Advance(f: Machine, r: Result, c: Byte, k: nat): Result {
    if !r.Running? then r
    else match f(r.p, c)
      case Next(q, es) => Running(q, PushAll(r.out, es))
      case Stop(q, es) => Stopped(q, PushAll(r.out, es), k + 1)
      case Fail(e) => Failed(e, k)
  }

  function Run(f: Machine, p: Parser, out: seq<Event>, data: Bytes): Result {
    if data == [] then Running(p, out)
    else Advance(f, Run(f, p, out, data[..|data| - 1]), data[|data| - 1], |data| - 1)
  }

  /** Going on with more bytes after a run over k bytes. */
  function Resume(f: Machine, r: Result, data: Bytes, k: nat): Result {
    match r
    case Running(q, o) =>
      (match Run(f, q, o, data)
       case Running(q', o') => Running(q', o')
       case Stopped(q', o', n) => Stopped(q', o', k + n)
       case Failed(e, n) => Failed(e, k + n))
    case _ => r
  }

  lemma RunOne(f: Machine, p: Parser, out: seq<Event>, data: Bytes, k: nat)
    requires k < |data|
    ensures Run(f, p, out, data[..k + 1]) == Advance(f, Run(f, p, out, data[..k]), data[k], k)
  {
    assert data[..k + 1][..k] == data[..k];
  }

  lemma RunLast(f: Machine, p: Parser, out: seq<Event>, x: Bytes, c: Byte)
    ensures Run(f, p, out, x + [c]) == Advance(f, Run(f, p, out, x), c, |x|)
  {
    assert (x + [c])[..|x|] == x;
  }

  /** The split of the input does not matter. */
  lemma {:induction false} RunSplit(f: Machine, p: Parser, out: seq<Event>, a: Bytes, b: Bytes)
    ensures Run(f, p, out, a + b) == Resume(f, Run(f, p, out, a), b, |a|)
  {
    if b == [] {
      assert a + b == a;
    } else {
      var b' := b[..|b| - 1];
      assert (a + b)[..|a + b| - 1] == a + b';
      RunSplit(f, p, out, a, b');
    }
  }

  /** Once a run has ended, more bytes change nothing. */
  lemma RunEnded(f: Machine, p: Parser, out: seq<Event>, data: Bytes, k: nat)
    requires k <= |data|
    requires !Run(f, p, out, data[..k]).Running?
    ensures Run(f, p, out, data) == Run(f, p, out, data[..k])
  {
    RunSplit(f, p, out, data[..k], data[k..]);
    assert data[..k] + data[k..] == data;
  }

  /** Two runs, one after the other. */
  lemma Then(f: Machine, p: Parser, out: seq<Event>, a: Bytes, b: Bytes, q: Parser, o: seq<Event>)
    requires Run(f, p, out, a) == Running(q, o)
    ensures Run(f, q, o, b).Running? ==> Run(f, p, out, a + b) == Run(f, q, o, b)
    ensures Run(f, q, o, b).Failed? ==> Run(f, p, out, a + b) == Failed(Run(f, q, o, b).e, |a| + Run(f, q, o, b).n)
  {
    RunSplit(f, p, out, a, b);
  }

  /** A run over one byte. */
  lemma RunByte(f: Machine, p: Parser, out: seq<Event>, c: Byte)
    ensures Run(f, p, out, [c]) == Advance(f, Running(p, out), c, 0)
  {
    RunLast(f, p, out, [], c);
    assert [] + [c] == [c];
  }

  // ----- tallies: a number carried along a run, used for the header size count -----

  type Tally = (Parser, Byte, nat) -> nat

  function Total(f: Machine, g: Tally, p: Parser, n: nat, out: seq<Event>, data: Bytes): nat {
    if data == [] then n
    else
      var before := Total(f, g, p, n, out, data[..|data| - 1]);
      var r := Run(f, p, out, data[..|data| - 1]);
      if r.Running? then g(r.p, data[|data| - 1], before) else before
  }

  lemma TotalOne(f: Machine, g: Tally, p: Parser, n: nat, out: seq<Event>, data: Bytes, k: nat)
    requires k < |data|
    requires Run(f, p, out, data[..k]).Running?
    ensures Total(f, g, p, n, out, data[..k + 1])
         == g(Run(f, p, out, data[..k]).p, data[k], Total(f, g, p, n, out, data[..k]))
  {
    assert data[..k + 1][..k] == data[..k];
  }

  lemma TotalLast(f: Machine, g: Tally, p: Parser, n: nat, out: seq<Event>, x: Bytes, c: Byte)
    requires Run(f, p, out, x).Running?
    ensures Total(f, g, p, n, out, x + [c]) == g(Run(f, p, out, x).p, c, Total(f, g, p, n, out, x))
  {
    assert (x + [c])[..|x|] == x;
  }

  /** Tallying over a and then over b is tallying over a + b. */
  lemma {:induction false} TotalSplit(f: Machine, g: Tally, p: Parser, n: nat, out: seq<Event>, a: Bytes, b: Bytes)
    requires Run(f, p, out, a).Running?
    ensures var r := Run(f, p, out, a);
            Total(f, g, p, n, out, a + b) == Total(f, g, r.p, Total(f, g, p, n, out, a), r.out, b)
  {
    if b == [] {
      assert a + b == a;
    } else {
      var b' := b[..|b| - 1];
      assert (a + b)[..|a + b| - 1] == a + b';
      TotalSplit(f, g, p, n, out, a, b');
      RunSplit(f, p, out, a, b');
    }
  }

  /** A tally that never widens a gap: one that starts at most `slack` too high stays so. */
  ghost predicate Steady(g: Tally) {
    forall p: Parser, c: Byte, n: nat, m: nat :: n <= m ==> g(p, c, n) <= g(p, c, m) <= g(p, c, n) + (m - n)
  }

  lemma {:induction false} TotalSlack(f: Machine, g: Tally, p: Parser, n: nat, m: nat, slack: nat, out: seq<Event>, data: Bytes)
    requires Steady(g) && n <= m <= n + slack
    ensures Total(f, g, p, n, out, data) <= Total(f, g, p, m, out, data) <= Total(f, g, p, n, out, data) + slack
  {
    if data != [] {
      TotalSlack(f, g, p, n, m, slack, out, data[..|data| - 1]);
    }
  }
}
