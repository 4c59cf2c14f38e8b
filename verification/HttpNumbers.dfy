/** Numbers of up to three digits: the two parts of a version, and the status code. */
module HttpNumbers {
  import opened HttpTypes
  import opened Streaming
  import opened HttpStep
  import opened HttpHeaders
  import opened HttpFraming

  datatype Number = RequestMajor | RequestMinor | ResponseMajor | ResponseMinor | StatusCode

  /** Before its first digit. */
  function FirstState(k: Number): State {
    match k
    case RequestMajor => ReqFirstHttpMajor
    case RequestMinor => ReqFirstHttpMinor
    case ResponseMajor => ResFirstHttpMajor
    case ResponseMinor => ResFirstHttpMinor
    case StatusCode => ResFirstStatusCode
  }

  /** After a digit. */
  function MoreState(k: Number): State {
    match k
    case RequestMajor => ReqHttpMajor
    case RequestMinor => ReqHttpMinor
    case ResponseMajor => ResHttpMajor
    case ResponseMinor => ResHttpMinor
    case StatusCode => ResStatusCode
  }

  function Refusal(k: Number): Errno { if k == StatusCode then InvalidStatus else InvalidVersion }

  /** p with the number n, reading on. */
  function Read(p: Parser, k: Number, n: nat): Parser {
    var q := p.(state := MoreState(k));
    match k
    case RequestMajor => q.(major := n)
    case ResponseMajor => q.(major := n)
    case RequestMinor => q.(minor := n)
    case ResponseMinor => q.(minor := n)
    case StatusCode => q.(status := n)
  }

  /** Digits; the major version of a request does not start with 0. */
  predicate Digits(k: Number, v: Bytes) {
    v != [] && (forall i :: 0 <= i < |v| ==> IsNum(v[i])) && (k == RequestMajor ==> v[0] != '0')
  }

  lemma NumberStep(f: Machine, cb: HeadersCallback, p: Parser, k: Number, c: Byte)
    requires IsHttp(f, cb) && (p.state == FirstState(k) || p.state == MoreState(k))
    ensures f(p, c) == if k == RequestMajor || k == RequestMinor then StepRequestLine(p, c) else StepStatusLine(p, c)
  {
    hide StepBody, StepRequestLine, StepHeader, StepStatusLine, StepStart;
    assert f(p, c) == Step(p, c, cb);
  }

  lemma FirstDigit(f: Machine, cb: HeadersCallback, p: Parser, k: Number, c: Byte)
    requires IsHttp(f, cb) && p.state == FirstState(k) && IsNum(c) && (k == RequestMajor ==> c != '0')
    ensures f(p, c) == Next(Read(p, k, Digit(c)), [])
  {
    hide IsHttp;
    NumberStep(f, cb, p, k, c);
  }

  lemma NextDigit(f: Machine, cb: HeadersCallback, p: Parser, k: Number, n: nat, c: Byte)
    requires IsHttp(f, cb) && IsNum(c)
    ensures var m := 10 * n + Digit(c);
            f(Read(p, k, n), c) == if m <= 999 then Next(Read(p, k, m), []) else Fail(Refusal(k))
  {
    hide IsHttp;
    NumberStep(f, cb, Read(p, k, n), k, c);
  }

  /** A number is read as what it says, leading zeros and all, and refused exactly when it exceeds 999. */
  lemma {:induction false} NumberRun(f: Machine, cb: HeadersCallback, p: Parser, out: seq<Event>, k: Number, v: Bytes)
    requires IsHttp(f, cb) && p.state == FirstState(k) && Digits(k, v)
    ensures var r := Run(f, p, out, v);
            if DecValue(v) <= 999 then r == Running(Read(p, k, DecValue(v)), out)
            else r.Failed? && r.e == Refusal(k)
  {
    hide IsHttp, Run, DecValue, Read, IsNum, Digit, FirstState, Refusal;
    var x, c := v[..|v| - 1], v[|v| - 1];
    assert v == x + [c] && IsNum(c);
    RunLast(f, p, out, x, c);
    DecMore(x, c);
    DigitIs(c);
    if x == [] {
      RunNothing(f, p, out);
      NoDigits();
      FirstDigit(f, cb, p, k, c);
    } else {
      assert forall i :: 0 <= i < |x| ==> x[i] == v[i];
      NumberRun(f, cb, p, out, k, x);
      NextDigit(f, cb, p, k, DecValue(x), c);
    }
  }

  /** A number that is taken. */
  predicate Fits(k: Number, v: Bytes) { Digits(k, v) && DecValue(v) <= 999 }

  /** A step without callbacks, after what has been read already. */
  lemma RunOver(f: Machine, p: Parser, out: seq<Event>, x: Bytes, c: Byte, q: Parser, r: Parser)
    requires Run(f, p, out, x) == Running(q, out) && f(q, c) == Next(r, [])
    ensures Run(f, p, out, x + [c]) == Running(r, out)
  {
    RunLast(f, p, out, x, c);
  }

  /** A number, and the byte that ends it. */
  lemma NumberThen(f: Machine, cb: HeadersCallback, p: Parser, out: seq<Event>, k: Number, v: Bytes, c: Byte, s: State)
    requires IsHttp(f, cb) && p.state == FirstState(k) && Fits(k, v)
    requires match k {
               case RequestMajor => c == '.' && s == ReqFirstHttpMinor
               case RequestMinor => c == CR && s == ReqLineAlmostDone
               case ResponseMajor => c == '.' && s == ResFirstHttpMinor
               case ResponseMinor => c == ' ' && s == ResFirstStatusCode
               case StatusCode => c == ' ' && s == ResStatusStart
             }
    ensures Run(f, p, out, v + [c]) == Running(Read(p, k, DecValue(v)).(state := s), out)
  {
    hide IsHttp, Run, DecValue, Digits;
    NumberRun(f, cb, p, out, k, v);
    var q := Read(p, k, DecValue(v));
    NumberStep(f, cb, q, k, c);
    RunOver(f, p, out, v, c, q, q.(state := s));
  }
}
