/** Facts about runs of the HTTP machine that the bulk scans rest on. */
module HttpRun {
  import opened Wrappers
  import opened HttpTypes
  import opened Streaming
  import opened HttpStep

  /** The kind of data a state is in the middle of. */
  function PendingKind(s: State): Option<DataKind> {
    if InUrl(s) then Some(Url)
    else if s == ResStatus then Some(DataKind.Status)
    else if s == HeaderField then Some(Field)
    else if s == HeaderValue then Some(Value)
    else if s == BodyIdentity || s == BodyIdentityEof || s == ChunkData || s == ChunkDataAlmostDone then Some(Body)
    else None
  }

  /** The states for which http_parser_execute sets a mark when it is entered. */
  predicate MustMark(s: State) { InUrl(s) || s == ResStatus || s == HeaderField || s == HeaderValue }

  /** Inside a field, the last callback piece belongs to that field. */
  predicate Anchored(s: State, out: seq<Event>) {
    MustMark(s) ==> EndsWith(out, PendingKind(s).value)
  }

  lemma GeneralStep(p: Parser, c: Byte, cb: HeadersCallback)
    requires p.state == HeaderValue && p.headerState == General && c != CR && c != LF
    ensures Step(p, c, cb) == Next(p, [Data(Value, [c])])
    ensures forall n: nat :: Count(p, c, n) == n + 1
  {
    hide StepRequestLine, StepBody, StepStatusLine, StepStart;
  }

  predicate ReadingBody(p: Parser, k: nat) {
    ((p.state == BodyIdentity || p.state == ChunkData) && k < p.contentLength) || p.state == BodyIdentityEof
  }

  /** The parser after k more body bytes. */
  function BodyRead(p: Parser, k: nat): Parser
    requires ReadingBody(p, k)
  {
    if p.state == BodyIdentityEof then p else p.(contentLength := p.contentLength - k)
  }

  lemma BodyStep(p: Parser, c: Byte, cb: HeadersCallback)
    requires ReadingBody(p, 1)
    ensures Step(p, c, cb) == Next(BodyRead(p, 1), [Data(Body, [c])])
    ensures forall n: nat :: Count(p, c, n) == n
  {
    hide StepRequestLine, StepHeader, StepStatusLine, StepStart;
  }

  /** The last byte of a body or of a chunk. */
  lemma LastStep(f: Machine, p: Parser, c: Byte, cb: HeadersCallback)
    requires IsHttp(f, cb) && p.contentLength == 1 && (p.state == BodyIdentity || p.state == ChunkData)
    ensures f(p, c) ==
            if p.state == ChunkData then Next(p.(contentLength := 0, state := ChunkDataAlmostDone), [Data(Body, [c])])
            else After([Data(Body, [c])], OnMessageDone(p.(contentLength := 0, state := MessageDone)))
    ensures forall n: nat :: COUNT(p, c, n) == n
  {
    hide StepRequestLine, StepHeader, StepStatusLine, StepStart;
    assert f(p, c) == Step(p, c, cb);
  }

  lemma PushDataOne(out: seq<Event>, k: DataKind, x: Bytes, c: Byte)
    ensures PushAll(PushData(out, k, x), [Data(k, [c])]) == PushData(out, k, x + [c])
  {
    PushOne(PushData(out, k, x), Data(k, [c]));
    PushDataMerge(out, k, x, [c]);
  }

  /** A stretch of an uninteresting header value. */
  lemma {:induction false} GeneralRun(f: Machine, cb: HeadersCallback, p: Parser, n: nat, out: seq<Event>, x: Bytes)
    requires IsHttp(f, cb)
    requires p.state == HeaderValue && p.headerState == General
    requires forall k :: 0 <= k < |x| ==> x[k] != CR && x[k] != LF
    ensures Run(f, p, out, x) == Running(p, PushData(out, Value, x))
    ensures Total(f, COUNT, p, n, out, x) == n + |x|
  {
    hide Step, Count;
    if x != [] {
      var y, c := x[..|x| - 1], x[|x| - 1];
      assert x == y + [c];
      GeneralRun(f, cb, p, n, out, y);
      RunLast(f, p, out, y, c);
      TotalLast(f, COUNT, p, n, out, y, c);
      GeneralStep(p, c, cb);
      PushDataOne(out, Value, y, c);
    }
  }

  /** A stretch of body that does not exhaust the expected length (or is read until the end of file). */
  lemma {:induction false} BodyRun(f: Machine, cb: HeadersCallback, p: Parser, n: nat, out: seq<Event>, x: Bytes)
    requires IsHttp(f, cb) && ReadingBody(p, |x|)
    ensures Run(f, p, out, x) == Running(BodyRead(p, |x|), PushData(out, Body, x))
    ensures Total(f, COUNT, p, n, out, x) == n
  {
    hide Step, Count;
    if x != [] {
      var y, c := x[..|x| - 1], x[|x| - 1];
      assert x == y + [c];
      BodyRun(f, cb, p, n, out, y);
      RunLast(f, p, out, y, c);
      TotalLast(f, COUNT, p, n, out, y, c);
      BodyStep(BodyRead(p, |y|), c, cb);
      PushDataOne(out, Body, y, c);
    }
  }
}
