/** The status line of a response: version, status code, reason. */
module HttpStatusLine {
  import opened HttpTypes
  import opened Streaming
  import opened HttpStep
  import opened HttpRun
  import opened HttpHeaders
  import opened HttpFraming
  import opened HttpNumbers

  lemma StatusStep(f: Machine, cb: HeadersCallback, p: Parser, c: Byte)
    requires IsHttp(f, cb) && InStatusLine(p.state)
    ensures f(p, c) == StepStatusLine(p, c)
  {
    hide StepBody, StepRequestLine, StepHeader, StepStatusLine, StepStart;
    assert f(p, c) == Step(p, c, cb);
  }

  // ----- "HTTP/" -----

  lemma ProtocolStart(f: Machine, cb: HeadersCallback, p: Parser, out: seq<Event>)
    requires IsHttp(f, cb) && p.state == StartRes
    ensures Run(f, p, out, [] + ['H']) == Running(p.(flags := NO_FLAGS, contentLength := ULLONG_MAX, state := ResH), out + [MessageBegin])
  {
    hide IsHttp, Run;
    RunNothing(f, p, out);
    StatusStep(f, cb, p, 'H');
    RunLast(f, p, out, [], 'H');
    PushOne(out, MessageBegin);
  }

  predicate Spells(s: State, c: Byte, t: State) {
    || (s == ResH && c == 'T' && t == ResHT) || (s == ResHT && c == 'T' && t == ResHTT)
    || (s == ResHTT && c == 'P' && t == ResHTTP) || (s == ResHTTP && c == '/' && t == ResFirstHttpMajor)
  }

  lemma Letter(f: Machine, cb: HeadersCallback, p: Parser, out: seq<Event>, x: Bytes, s: State, c: Byte, t: State)
    requires IsHttp(f, cb) && Spells(s, c, t) && Run(f, p, out, x) == Running(p.(state := s), out)
    ensures Run(f, p, out, x + [c]) == Running(p.(state := t), out)
  {
    hide IsHttp, Run;
    var q := p.(state := s);
    StatusStep(f, cb, q, c);
    RunOver(f, p, out, x, c, q, p.(state := t));
  }

  lemma RestOfProtocol(f: Machine, cb: HeadersCallback, p: Parser, out: seq<Event>)
    requires IsHttp(f, cb) && p.state == ResH
    ensures Run(f, p, out, ['T', 'T', 'P', '/']) == Running(p.(state := ResFirstHttpMajor), out)
  {
    hide IsHttp, Run;
    RunNothing(f, p, out);
    Letter(f, cb, p, out, [], ResH, 'T', ResHT);
    var x1: Bytes := [] + ['T'];
    Letter(f, cb, p, out, x1, ResHT, 'T', ResHTT);
    var x2 := x1 + ['T'];
    Letter(f, cb, p, out, x2, ResHTT, 'P', ResHTTP);
    Letter(f, cb, p, out, x2 + ['P'], ResHTTP, '/', ResFirstHttpMajor);
    assert x2 + ['P'] + ['/'] == ['T', 'T', 'P', '/'];
  }

  // ----- reason -----

  predicate IsReason(v: Bytes) { forall i :: 0 <= i < |v| ==> v[i] != CR && v[i] != LF }

  lemma ReasonByte(f: Machine, cb: HeadersCallback, p: Parser, c: Byte)
    requires IsHttp(f, cb) && c != CR && c != LF
    ensures p.state == ResStatusStart ==> f(p, c) == Next(p.(state := ResStatus, index := 0), [Data(DataKind.Status, [c])])
    ensures p.state == ResStatus ==> f(p, c) == Next(p, [Data(DataKind.Status, [c])])
  {
    hide IsHttp;
    if p.state == ResStatusStart || p.state == ResStatus { StatusStep(f, cb, p, c); }
  }

  lemma {:induction false} ReasonRun(f: Machine, cb: HeadersCallback, p: Parser, out: seq<Event>, v: Bytes)
    requires IsHttp(f, cb) && p.state == ResStatusStart && v != [] && IsReason(v) && !EndsWith(out, DataKind.Status)
    ensures Run(f, p, out, v) == Running(p.(state := ResStatus, index := 0), out + [Data(DataKind.Status, v)])
  {
    hide IsHttp, Run, Push, PushAll;
    var x, c := v[..|v| - 1], v[|v| - 1];
    assert v == x + [c] && c != CR && c != LF;
    RunLast(f, p, out, x, c);
    PushNew(out, DataKind.Status, v);
    if x == [] {
      RunNothing(f, p, out);
      ReasonByte(f, cb, p, c);
      PushOne(out, Data(DataKind.Status, [c]));
      assert v == [c];
    } else {
      assert forall i :: 0 <= i < |x| ==> x[i] == v[i];
      ReasonRun(f, cb, p, out, x);
      ReasonByte(f, cb, p.(state := ResStatus, index := 0), c);
      PushNew(out, DataKind.Status, x);
      PushOne(out + [Data(DataKind.Status, x)], Data(DataKind.Status, [c]));
      PushMerge(out, DataKind.Status, x, [c]);
    }
  }

  lemma LineEnd(f: Machine, cb: HeadersCallback, p: Parser, out: seq<Event>)
    requires IsHttp(f, cb) && (p.state == ResStatus || p.state == ResStatusStart)
    ensures Run(f, p, out, CRLF) == Running(p.(state := HeaderFieldStart), out)
  {
    hide IsHttp, Run;
    RunNothing(f, p, out);
    var q := p.(state := ResLineAlmostDone);
    StatusStep(f, cb, p, CR);
    RunOver(f, p, out, [], CR, p, q);
    StatusStep(f, cb, q, LF);
    RunOver(f, p, out, [] + [CR], LF, q, q.(state := HeaderFieldStart));
    assert [] + [CR] + [LF] == CRLF;
  }

  // ----- the line -----

  function StatusLineText(major: Bytes, minor: Bytes, code: Bytes, reason: Bytes): Bytes {
    ['H', 'T', 'T', 'P', '/'] + (major + ['.']) + (minor + [' ']) + (code + [' ']) + reason + CRLF
  }

  function ReasonEvents(reason: Bytes): seq<Event> { if reason == [] then [] else [Data(DataKind.Status, reason)] }

  /** The parser after the line. */
  function StatusRead(p: Parser, major: Bytes, minor: Bytes, code: Bytes, reason: Bytes): Parser {
    p.(flags := NO_FLAGS, contentLength := ULLONG_MAX, major := DecValue(major), minor := DecValue(minor),
       status := DecValue(code), index := if reason == [] then p.index else 0, state := HeaderFieldStart)
  }

  lemma ProtocolRun(f: Machine, cb: HeadersCallback, p: Parser, out: seq<Event>)
    requires IsHttp(f, cb) && p.state == StartRes
    ensures Run(f, p, out, ['H', 'T', 'T', 'P', '/']) ==
            Running(p.(flags := NO_FLAGS, contentLength := ULLONG_MAX, state := ResFirstHttpMajor), out + [MessageBegin])
  {
    hide IsHttp, Run;
    var q := p.(flags := NO_FLAGS, contentLength := ULLONG_MAX, state := ResH);
    ProtocolStart(f, cb, p, out);
    RestOfProtocol(f, cb, q, out + [MessageBegin]);
    Then(f, p, out, [] + ['H'], ['T', 'T', 'P', '/'], q, out + [MessageBegin]);
    assert [] + ['H'] + ['T', 'T', 'P', '/'] == ['H', 'T', 'T', 'P', '/'];
  }

  lemma NumbersRun(f: Machine, cb: HeadersCallback, p: Parser, out: seq<Event>, major: Bytes, minor: Bytes, code: Bytes)
    requires IsHttp(f, cb) && p.state == ResFirstHttpMajor
    requires Fits(ResponseMajor, major) && Fits(ResponseMinor, minor) && Fits(StatusCode, code)
    ensures Run(f, p, out, (major + ['.']) + (minor + [' ']) + (code + [' '])) ==
            Running(p.(major := DecValue(major), minor := DecValue(minor), status := DecValue(code), state := ResStatusStart), out)
  {
    hide IsHttp, Run, DecValue, HttpNumbers.Fits;
    VersionRun(f, cb, p, out, major, minor);
    var q := p.(major := DecValue(major), minor := DecValue(minor), state := ResFirstStatusCode);
    CodeRun(f, cb, q, out, code);
    Then(f, p, out, (major + ['.']) + (minor + [' ']), code + [' '], q, out);
  }

  lemma CodeRun(f: Machine, cb: HeadersCallback, p: Parser, out: seq<Event>, code: Bytes)
    requires IsHttp(f, cb) && p.state == ResFirstStatusCode && Fits(StatusCode, code)
    ensures Run(f, p, out, code + [' ']) == Running(p.(status := DecValue(code), state := ResStatusStart), out)
  {
    hide IsHttp, Run, DecValue, HttpNumbers.Fits;
    NumberThen(f, cb, p, out, StatusCode, code, ' ', ResStatusStart);
  }

  lemma MajorRun(f: Machine, cb: HeadersCallback, p: Parser, out: seq<Event>, major: Bytes)
    requires IsHttp(f, cb) && p.state == ResFirstHttpMajor && Fits(ResponseMajor, major)
    ensures Run(f, p, out, major + ['.']) == Running(p.(major := DecValue(major), state := ResFirstHttpMinor), out)
  {
    hide IsHttp, Run, DecValue, HttpNumbers.Fits;
    NumberThen(f, cb, p, out, ResponseMajor, major, '.', ResFirstHttpMinor);
  }

  lemma MinorRun(f: Machine, cb: HeadersCallback, p: Parser, out: seq<Event>, minor: Bytes)
    requires IsHttp(f, cb) && p.state == ResFirstHttpMinor && Fits(ResponseMinor, minor)
    ensures Run(f, p, out, minor + [' ']) == Running(p.(minor := DecValue(minor), state := ResFirstStatusCode), out)
  {
    hide IsHttp, Run, DecValue, HttpNumbers.Fits;
    NumberThen(f, cb, p, out, ResponseMinor, minor, ' ', ResFirstStatusCode);
  }

  lemma VersionRun(f: Machine, cb: HeadersCallback, p: Parser, out: seq<Event>, major: Bytes, minor: Bytes)
    requires IsHttp(f, cb) && p.state == ResFirstHttpMajor && Fits(ResponseMajor, major) && Fits(ResponseMinor, minor)
    ensures Run(f, p, out, (major + ['.']) + (minor + [' '])) ==
            Running(p.(major := DecValue(major), minor := DecValue(minor), state := ResFirstStatusCode), out)
  {
    hide IsHttp, Run, DecValue, HttpNumbers.Fits;
    MajorRun(f, cb, p, out, major);
    var q := p.(major := DecValue(major), state := ResFirstHttpMinor);
    MinorRun(f, cb, q, out, minor);
    Then(f, p, out, major + ['.'], minor + [' '], q, out);
  }

  lemma ReasonEnd(f: Machine, cb: HeadersCallback, p: Parser, out: seq<Event>, reason: Bytes)
    requires IsHttp(f, cb) && p.state == ResStatusStart && IsReason(reason) && !EndsWith(out, DataKind.Status)
    ensures Run(f, p, out, reason + CRLF) ==
            Running(p.(state := HeaderFieldStart, index := if reason == [] then p.index else 0), out + ReasonEvents(reason))
  {
    hide IsHttp, Run, IsReason;
    if reason == [] {
      assert reason + CRLF == CRLF && out + [] == out;
      LineEnd(f, cb, p, out);
    } else {
      ReasonRun(f, cb, p, out, reason);
      var q, o := p.(state := ResStatus, index := 0), out + [Data(DataKind.Status, reason)];
      LineEnd(f, cb, q, o);
      Then(f, p, out, reason, CRLF, q, o);
    }
  }

  /** A status line is read as what it says, and its reason is delivered whole. */
  lemma StatusLineRun(f: Machine, cb: HeadersCallback, p: Parser, out: seq<Event>, major: Bytes, minor: Bytes, code: Bytes, reason: Bytes)
    requires IsHttp(f, cb) && p.state == StartRes && IsReason(reason)
    requires Fits(ResponseMajor, major) && Fits(ResponseMinor, minor) && Fits(StatusCode, code)
    ensures Run(f, p, out, StatusLineText(major, minor, code, reason)) ==
            Running(StatusRead(p, major, minor, code, reason), out + [MessageBegin] + ReasonEvents(reason))
  {
    hide IsHttp, Run, DecValue, HttpNumbers.Fits, IsReason, ReasonEvents;
    var proto: Bytes := ['H', 'T', 'T', 'P', '/'];
    var o := out + [MessageBegin];
    ProtocolRun(f, cb, p, out);
    var p1 := p.(flags := NO_FLAGS, contentLength := ULLONG_MAX, state := ResFirstHttpMajor);
    NumbersRun(f, cb, p1, o, major, minor, code);
    var x := (major + ['.']) + (minor + [' ']) + (code + [' ']);
    Then(f, p, out, proto, x, p1, o);
    var p2 := p1.(major := DecValue(major), minor := DecValue(minor), status := DecValue(code), state := ResStatusStart);
    ReasonEnd(f, cb, p2, o, reason);
    Then(f, p, out, proto + x, reason + CRLF, p2, o);
    assert proto + x + (reason + CRLF) == StatusLineText(major, minor, code, reason);
  }

  // ----- blank lines in front of a response -----

  function Begins(n: nat): seq<Event> { seq(n, i => MessageBegin) }

  predicate AllLineEnds(b: Bytes) { forall i :: 0 <= i < |b| ==> b[i] == CR || b[i] == LF }

  /** The parser after a blank line, or part of one. */
  function AfterBlank(p: Parser, b: Bytes): Parser { if b == [] then p else p.(flags := NO_FLAGS, contentLength := ULLONG_MAX) }

  lemma BlankStep(f: Machine, cb: HeadersCallback, p: Parser, c: Byte)
    requires IsHttp(f, cb) && p.state == StartRes && (c == CR || c == LF)
    ensures f(p, c) == Next(p.(flags := NO_FLAGS, contentLength := ULLONG_MAX), [MessageBegin])
  {
    hide IsHttp;
    StatusStep(f, cb, p, c);
  }

  lemma {:induction false} BlankRun(f: Machine, cb: HeadersCallback, p: Parser, out: seq<Event>, b: Bytes)
    requires IsHttp(f, cb) && p.state == StartRes && AllLineEnds(b)
    ensures Run(f, p, out, b) == Running(AfterBlank(p, b), out + Begins(|b|))
  {
    hide IsHttp;
    if b == [] {
      assert out + [] == out;
    } else {
      var x := b[..|b| - 1];
      BlankRun(f, cb, p, out, x);
      BlankStep(f, cb, AfterBlank(p, x), b[|b| - 1]);
      PushOne(out + Begins(|x|), MessageBegin);
      assert out + Begins(|x|) + [MessageBegin] == out + Begins(|b|);
    }
  }

  function CountBegins(es: seq<Event>): nat {
    if es == [] then 0 else CountBegins(es[..|es| - 1]) + (if es[|es| - 1] == MessageBegin then 1 else 0)
  }

  lemma {:induction false} CountAll(n: nat)
    ensures CountBegins(Begins(n)) == n
  {
    if n > 0 {
      assert Begins(n)[..n - 1] == Begins(n - 1);
      CountAll(n - 1);
    }
  }

  lemma {:induction false} CountSplit(a: seq<Event>, b: seq<Event>)
    ensures CountBegins(a + b) == CountBegins(a) + CountBegins(b)
  {
    if b == [] {
      assert a + b == a;
    } else {
      assert (a + b)[..|a + b| - 1] == a + b[..|b| - 1];
      CountSplit(a, b[..|b| - 1]);
    }
  }

  /** A response is announced once for itself and once more for every CR and LF in front of it: exactly once only if
      nothing is in front. */
  lemma BlankLinesBegin(f: Machine, cb: HeadersCallback, p: Parser, b: Bytes, major: Bytes, minor: Bytes, code: Bytes, reason: Bytes)
    requires IsHttp(f, cb) && p.state == StartRes && AllLineEnds(b) && IsReason(reason)
    requires Fits(ResponseMajor, major) && Fits(ResponseMinor, minor) && Fits(StatusCode, code)
    ensures var r := Run(f, p, [], b + StatusLineText(major, minor, code, reason));
            && r == Running(StatusRead(p, major, minor, code, reason), Begins(|b|) + [MessageBegin] + ReasonEvents(reason))
            && CountBegins(r.out) == |b| + 1 && (CountBegins(r.out) == 1 <==> b == [])
  {
    hide IsHttp, Run, HttpNumbers.Fits, IsReason, StatusLineText, DecValue;
    var q := AfterBlank(p, b);
    BlankRun(f, cb, p, [], b);
    assert [] + Begins(|b|) == Begins(|b|);
    StatusLineRun(f, cb, q, Begins(|b|), major, minor, code, reason);
    Then(f, p, [], b, StatusLineText(major, minor, code, reason), q, Begins(|b|));
    CountAll(|b|);
    CountSplit(Begins(|b|), [MessageBegin]);
    CountSplit(Begins(|b|) + [MessageBegin], ReasonEvents(reason));
    CountFew(reason);
  }

  lemma CountFew(reason: Bytes)
    ensures CountBegins([MessageBegin]) == 1 && CountBegins(ReasonEvents(reason)) == 0
  {
    assert [MessageBegin][..0] == [] && CountBegins([]) == 0;
    if reason != [] { assert ReasonEvents(reason)[..0] == []; }
  }
}
