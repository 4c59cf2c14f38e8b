/** Whole header lines, and what a block of them does. */
module HttpLines {
  import opened Wrappers
  import opened HttpTypes
  import opened Streaming
  import opened HttpStep
  import opened HttpRun
  import opened HttpHeaders
  import opened HttpConnection
  import opened HttpFraming

  /** A header line: any white space in front of the value, which may be empty; the line may end in a bare LF. */
  datatype Line = Line(name: Bytes, space: Bytes, value: Bytes, bare: bool)

  function LineEnd(bare: bool): Bytes { if bare then [LF] else CRLF }

  function LineText(l: Line): Bytes { l.name + [':'] + l.space + l.value + LineEnd(l.bare) }

  predicate AllSpace(x: Bytes) { forall i :: 0 <= i < |x| ==> IsSpace(x[i]) }

  predicate ValidLine(l: Line) { IsName(l.name) && AllSpace(l.space) && (l.value == [] || IsValue(l.value)) }

  /** What a header means for the parser; None for a bad Content-Length. Without a value it means nothing. */
  function Effect(p: Parser, h: HeaderState, v: Bytes): Option<Parser> {
    if v == [] then Some(p)
    else match h
    case HContentLength =>
      if LengthText(v) && DecValue(v) <= MAX_CONTENT_LENGTH then Some(p.(contentLength := DecValue(v))) else None
    case HTransferEncoding => Some(if IsWord(CHUNKED, v) then p.(flags := p.flags.(chunked := true)) else p)
    case HConnection => Some(p.(flags := WithOptions(p.flags, Seen(Words(v)))))
    case HUpgrade => Some(p.(flags := p.flags.(upgrade := true)))
    case _ => Some(p)
  }

  function LineEffect(p: Parser, l: Line): Option<Parser> { Effect(p, NameState(LowerAll(l.name)), l.value) }

  /** The parser but for the scratch fields of the matchers. */
  function Core(p: Parser): Parser { p.(headerState := General, index := 0) }

  /** After a header line the flag it stands for is set once it is clear that the line is not continued. */
  function Settle(p: Parser): Parser {
    if p.state == HeaderValueLws || p.state == HeaderValueDiscardLws
    then p.(flags := FinalFlagFor(p.flags, p.headerState), state := HeaderFieldStart) else p
  }

  predicate AtLineStart(p: Parser) {
    p.state == HeaderFieldStart || p.state == HeaderValueLws || p.state == HeaderValueDiscardLws
  }

  /** The callback for an empty value is made when the next line begins. */
  function Owed(p: Parser): seq<Event> { if p.state == HeaderValueDiscardLws then [Data(Value, [])] else [] }

  /** Ready for a line, after the callbacks out. */
  predicate Ready(p: Parser, out: seq<Event>) {
    AtLineStart(p) && !EndsWith(out + Owed(p), Field) && (p.state == HeaderValueDiscardLws ==> !EndsWith(out, Value))
  }

  lemma HeaderStep(f: Machine, cb: HeadersCallback, p: Parser, c: Byte)
    requires IsHttp(f, cb) && InHeader(p.state)
    ensures f(p, c) == StepHeader(p, c, cb)
  {
    hide StepRequestLine, StepBody, StepStatusLine, StepStart, StepHeader;
    assert f(p, c) == Step(p, c, cb);
  }

  lemma SettleStep(f: Machine, cb: HeadersCallback, p: Parser, c: Byte)
    requires IsHttp(f, cb) && AtLineStart(p) && c != ' ' && c != '\t'
    ensures f(Settle(p), c) == OnFieldStart(Settle(p), c, cb) && f(p, c) == After(Owed(p), f(Settle(p), c))
  {
    AfterNothing(f(Settle(p), c));
    hide IsHttp, After, OnFieldStart, OnField, OnValueStart, OnValue, OnDiscardWs, OnHeadersAlmostDone, OnHeadersDone, FinalFlagFor;
    HeaderStep(f, cb, p, c);
    HeaderStep(f, cb, Settle(p), c);
  }

  lemma AfterNothing(o: Outcome)
    ensures After([], o) == o
  {
    if !o.Fail? { assert [] + o.es == o.es; }
  }

  /** The bytes that end a name, stand before a value, and end a line. */
  predicate Ends(s: State, c: Byte, t: State) {
    || (s == HeaderField && c == ':' && t == HeaderValueDiscardWs)
    || (s == HeaderValueDiscardWs && IsSpace(c) && t == s)
    || (s == HeaderValueDiscardWs && c == CR && t == HeaderValueDiscardWsAlmostDone)
    || (s == HeaderValueDiscardWs && c == LF && t == HeaderValueDiscardLws)
    || (s == HeaderValueDiscardWsAlmostDone && c == LF && t == HeaderValueDiscardLws)
    || (s == HeaderValue && c == CR && t == HeaderAlmostDone)
    || (s == HeaderValue && c == LF && t == HeaderValueLws)
    || (s == HeaderAlmostDone && c == LF && t == HeaderValueLws)
  }

  lemma EndStep(f: Machine, cb: HeadersCallback, p: Parser, c: Byte, t: State)
    requires IsHttp(f, cb) && Ends(p.state, c, t)
    ensures f(p, c) == Next(p.(state := t), [])
  {
    hide IsHttp, OnFieldStart, OnValueStart, OnDiscardLws, OnValueLws, OnHeadersAlmostDone, OnHeadersDone, ValueChar;
    HeaderStep(f, cb, p, c);
  }

  /** One such byte, after x. */
  lemma EndByte(f: Machine, cb: HeadersCallback, p: Parser, out: seq<Event>, x: Bytes, q: Parser, c: Byte, t: State)
    requires IsHttp(f, cb) && Run(f, p, out, x) == Running(q, out) && Ends(q.state, c, t)
    ensures Run(f, p, out, x + [c]) == Running(q.(state := t), out)
  {
    hide IsHttp, Run, Ends;
    EndStep(f, cb, q, c, t);
    RunLast(f, p, out, x, c);
  }

  /** Two parsers that take the first byte alike, but for some callbacks that one of them makes before. */
  lemma {:induction false} RunSame(f: Machine, p: Parser, q: Parser, out: seq<Event>, es: seq<Event>, data: Bytes)
    requires data != [] && f(p, data[0]) == After(es, f(q, data[0]))
    ensures Run(f, p, out, data) == Run(f, q, PushAll(out, es), data)
  {
    hide PushAll;
    if |data| == 1 {
      assert data[..0] == [];
      var o := f(q, data[0]);
      if !o.Fail? { PushAllSplit(out, es, o.es); }
    } else {
      RunSame(f, p, q, out, es, data[..|data| - 1]);
    }
  }

  // ----- one value -----

  /** The parser r, in the middle of a value, that will settle to q at the end of the line. */
  predicate WillBe(r: Parser, q: Parser) {
    r.state == HeaderValue && Core(r.(flags := FinalFlagFor(r.flags, r.headerState))) == Core(q).(state := HeaderValue)
  }

  /** The parser when it starts on the value of a header called so. */
  predicate AtValue(p: Parser) {
    p.state == HeaderValueDiscardWs &&
    (p.headerState == HConnection || p.headerState == HContentLength || p.headerState == HTransferEncoding ||
     p.headerState == HUpgrade || p.headerState == General || FieldCounts(p.headerState))
  }

  lemma OptionsWillBe(p: Parser, r: Parser, v: Bytes)
    requires OptionsRead(p, r, v)
    ensures v != [] ==> WillBe(r, p.(flags := WithOptions(p.flags, Seen(Words(v)))))
  {
    hide Words, WithOptions, OptionState, Seen, IndexFits;
    if v != [] { FinalOptions(p, r, v); }
  }

  lemma ChunkedWillBe(p: Parser, r: Parser, v: Bytes)
    requires v != [] && p.headerState == HTransferEncoding && ValueRead(p, r, v)
    ensures WillBe(r, if IsWord(CHUNKED, v) then p.(flags := p.flags.(chunked := true)) else p)
  {
    hide IsWord, Same;
  }

  lemma PlainValueRun(f: Machine, cb: HeadersCallback, p: Parser, out: seq<Event>, v: Bytes)
    requires IsHttp(f, cb) && AtValue(p) && IsValue(v)
    requires p.headerState == HUpgrade || p.headerState == General || FieldCounts(p.headerState)
    ensures Run(f, p, out, v) ==
            Running((if p.headerState == HUpgrade then p.(flags := p.flags.(upgrade := true)) else p)
                    .(state := HeaderValue, index := 0, headerState := General), Push(out, Data(Value, v)))
  {
    hide IsHttp, Push, PushAll, Run;
    var c, x := v[0], v[1..];
    assert v == [c] + x;
    RunByte(f, p, out, c);
    ValueStartStep(f, cb, p, c);
    PushOne(out, Data(Value, [c]));
    var q, o := f(p, c).p, Push(out, Data(Value, [c]));
    GeneralRun(f, cb, q, 0, o, x);
    Then(f, p, out, [c], x, q, o);
    if x == [] {
      assert v == [c];
    } else {
      PushMerge(out, Value, [c], x);
    }
  }

  lemma LengthWillBe(p: Parser, n: nat)
    requires p.headerState == HContentLength
    ensures WillBe(p.(state := HeaderValue, index := 0, contentLength := n), p.(contentLength := n))
  {
  }

  lemma PlainWillBe(p: Parser)
    requires p.headerState == HUpgrade || p.headerState == General || FieldCounts(p.headerState)
    ensures var q := if p.headerState == HUpgrade then p.(flags := p.flags.(upgrade := true)) else p;
            WillBe(q.(state := HeaderValue, index := 0, headerState := General), q)
  {
  }

  lemma ValueRun(f: Machine, cb: HeadersCallback, p: Parser, out: seq<Event>, v: Bytes)
    requires IsHttp(f, cb) && AtValue(p) && IsValue(v)
    ensures var r := Run(f, p, out, v);
            match Effect(p, p.headerState, v) {
              case None => r.Failed? && r.e == InvalidContentLength
              case Some(q) => r.Running? && r.out == Push(out, Data(Value, v)) && WillBe(r.p, q)
            }
  {
    hide IsHttp, Push, Run, OptionsRead, ValueRead, IsWord, DecValue, Words, WithOptions, Seen, WillBe;
    if p.headerState == HConnection {
      OptionsRecognised(f, cb, p, out, v);
      OptionsWillBe(p, Run(f, p, out, v).p, v);
    } else if p.headerState == HContentLength {
      LengthRecognised(f, cb, p, out, v);
      LengthWillBe(p, DecValue(v));
    } else if p.headerState == HTransferEncoding {
      ValueRecognised(f, cb, p, out, v);
      ChunkedWillBe(p, Run(f, p, out, v).p, v);
    } else {
      PlainValueRun(f, cb, p, out, v);
      PlainWillBe(p);
    }
  }

  // ----- one line -----

  lemma {:induction false} ColonRun(f: Machine, cb: HeadersCallback, p: Parser, out: seq<Event>, space: Bytes)
    requires IsHttp(f, cb) && p.state == HeaderField && AllSpace(space)
    ensures Run(f, p, out, [':'] + space) == Running(p.(state := HeaderValueDiscardWs), out)
  {
    hide IsHttp, Run, IsSpace;
    if space == [] {
      RunNothing(f, p, out);
      EndByte(f, cb, p, out, [], p, ':', HeaderValueDiscardWs);
      assert [] + [':'] == [':'] + space;
    } else {
      var x, c := space[..|space| - 1], space[|space| - 1];
      ColonRun(f, cb, p, out, x);
      EndByte(f, cb, p, out, [':'] + x, p.(state := HeaderValueDiscardWs), c, HeaderValueDiscardWs);
      assert [':'] + x + [c] == [':'] + space;
    }
  }

  /** The end of a line with a value, or without one. */
  lemma EndLineRun(f: Machine, cb: HeadersCallback, p: Parser, out: seq<Event>, bare: bool)
    requires IsHttp(f, cb) && (p.state == HeaderValue || p.state == HeaderValueDiscardWs)
    ensures Run(f, p, out, LineEnd(bare)) ==
            Running(p.(state := if p.state == HeaderValue then HeaderValueLws else HeaderValueDiscardLws), out)
  {
    hide IsHttp, Run;
    RunNothing(f, p, out);
    var t := if p.state == HeaderValue then HeaderValueLws else HeaderValueDiscardLws;
    if bare {
      EndByte(f, cb, p, out, [], p, LF, t);
      assert [] + [LF] == [LF];
    } else {
      var s := if p.state == HeaderValue then HeaderAlmostDone else HeaderValueDiscardWsAlmostDone;
      EndByte(f, cb, p, out, [], p, CR, s);
      EndByte(f, cb, p, out, [] + [CR], p.(state := s), LF, t);
      assert [] + [CR] + [LF] == CRLF;
    }
  }

  lemma NameRun(f: Machine, cb: HeadersCallback, p: Parser, out: seq<Event>, name: Bytes)
    requires IsHttp(f, cb) && Ready(p, out) && IsName(name)
    ensures var r := Run(f, p, out, name);
            r.Running? && r.out == out + Owed(p) + [Data(Field, name)] && NameRead(Settle(p), r.p, name)
  {
    hide IsHttp, Run, NameRead, NameState, Settle;
    assert name[0] != ' ' && name[0] != '\t';
    SettleStep(f, cb, p, name[0]);
    RunSame(f, p, Settle(p), out, Owed(p), name);
    PushOwed(p, out);
    assert Settle(p).state == HeaderFieldStart by { SettleState(p); }
    NameRecognised(f, cb, Settle(p), out + Owed(p), name);
  }

  lemma PushOwed(p: Parser, out: seq<Event>)
    requires Ready(p, out)
    ensures PushAll(out, Owed(p)) == out + Owed(p)
  {
    if Owed(p) == [] {
      PushAllNone(out);
      assert out + [] == out;
    } else {
      PushOne(out, Data(Value, []));
    }
  }

  lemma SettleState(p: Parser)
    requires AtLineStart(p)
    ensures Settle(p).state == HeaderFieldStart
  {
  }

  lemma NameStates(l: Bytes)
    ensures var h := NameState(l);
            h == HConnection || h == HContentLength || h == HTransferEncoding || h == HUpgrade || h == General || FieldCounts(h)
  {
  }

  lemma EffectCore(p: Parser, q: Parser, h: HeaderState, v: Bytes)
    requires Core(q) == Core(p).(state := q.state)
    ensures Effect(p, h, v).Some? == Effect(q, h, v).Some?
    ensures Effect(p, h, v).Some? ==>
              Effect(p, h, v).value.state == p.state && Core(Effect(q, h, v).value) == Core(Effect(p, h, v).value).(state := q.state)
  {
    hide WithOptions, IsWord, DecValue, Words, Seen;
  }

  /** The name, the colon and the space after it. */
  lemma FrontRun(f: Machine, cb: HeadersCallback, p: Parser, out: seq<Event>, l: Line)
    requires IsHttp(f, cb) && Ready(p, out) && ValidLine(l)
    ensures var r := Run(f, p, out, l.name + ([':'] + l.space));
            && r.Running? && r.out == out + Owed(p) + [Data(Field, l.name)] && r.p.state == HeaderValueDiscardWs
            && r.p.headerState == NameState(LowerAll(l.name)) && Core(r.p) == Core(Settle(p)).(state := HeaderValueDiscardWs)
  {
    hide IsHttp, Run, NameState, IsName, IsValue, LowerAll, FieldCounts, Settle, AllSpace;
    NameRun(f, cb, p, out, l.name);
    var p1, o1 := Run(f, p, out, l.name).p, out + Owed(p) + [Data(Field, l.name)];
    ColonRun(f, cb, p1, o1, l.space);
    Then(f, p, out, l.name, [':'] + l.space, p1, o1);
  }

  /** One header line: its name and value are delivered whole, and it does what the reference says. */
  lemma LineRun(f: Machine, cb: HeadersCallback, p: Parser, out: seq<Event>, l: Line)
    requires IsHttp(f, cb) && Ready(p, out) && ValidLine(l)
    ensures var r := Run(f, p, out, LineText(l));
            match LineEffect(Settle(p), l) {
              case None => r.Failed? && r.e == InvalidContentLength
              case Some(q) =>
                && r.Running? && r.out + Owed(r.p) == out + Owed(p) + [Data(Field, l.name), Data(Value, l.value)]
                && Ready(r.p, r.out) && Core(Settle(r.p)) == Core(q)
            }
  {
    hide IsHttp, Run, NameState, Effect, IsName, IsValue, LowerAll, FieldCounts, Settle, Ready;
    SettleReady(p, out);
    var x := l.name + ([':'] + l.space);
    FrontRun(f, cb, p, out, l);
    var q, o := Run(f, p, out, x).p, out + Owed(p) + [Data(Field, l.name)];
    NameStates(LowerAll(l.name));
    var y := l.value + LineEnd(l.bare);
    AfterColon(f, cb, Settle(p), q, o, l.value, l.bare);
    Then(f, p, out, x, y, q, o);
    assert LineText(l) == x + y;
    assert o + [Data(Value, l.value)] == out + Owed(p) + [Data(Field, l.name), Data(Value, l.value)];
    if Run(f, q, o, y).Failed? { RunFails(f, p, out, x, y, q, o); }
  }

  lemma RunFails(f: Machine, p: Parser, out: seq<Event>, x: Bytes, y: Bytes, q: Parser, o: seq<Event>)
    requires Run(f, p, out, x) == Running(q, o) && Run(f, q, o, y).Failed?
    ensures Run(f, p, out, x + y).Failed? && Run(f, p, out, x + y).e == Run(f, q, o, y).e
  {
    hide Run;
    Then(f, p, out, x, y, q, o);
  }

  /** What comes after the colon and the space, for the parser s as it was before the line. */
  lemma AfterColon(f: Machine, cb: HeadersCallback, s: Parser, q: Parser, o: seq<Event>, v: Bytes, bare: bool)
    requires IsHttp(f, cb) && s.state == HeaderFieldStart && Core(q) == Core(s).(state := HeaderValueDiscardWs) && EndsWith(o, Field)
    requires AtValue(q) && (v == [] || IsValue(v))
    ensures var r := Run(f, q, o, v + LineEnd(bare));
            match Effect(s, q.headerState, v) {
              case None => r.Failed? && r.e == InvalidContentLength
              case Some(t) => r.Running? && r.out + Owed(r.p) == o + [Data(Value, v)] && Ready(r.p, r.out) && Core(Settle(r.p)) == Core(t)
            }
  {
    hide IsHttp, Run, Effect, IsValue, Settle, Ready, AtValue;
    if v == [] {
      EndLineRun(f, cb, q, o, bare);
      assert v + LineEnd(bare) == LineEnd(bare);
      EmptyLine(s, q, o, q.headerState);
    } else {
      ValueLine(f, cb, q, o, v, bare);
      EffectCore(s, q, q.headerState, v);
    }
  }

  lemma SettleReady(p: Parser, out: seq<Event>)
    requires Ready(p, out)
    ensures Settle(p).state == HeaderFieldStart
  {
  }

  /** The value and the end of the line. */
  lemma ValueLine(f: Machine, cb: HeadersCallback, q: Parser, o: seq<Event>, v: Bytes, bare: bool)
    requires IsHttp(f, cb) && AtValue(q) && IsValue(v) && EndsWith(o, Field)
    ensures var r := Run(f, q, o, v + LineEnd(bare));
            match Effect(q, q.headerState, v) {
              case None => r.Failed? && r.e == InvalidContentLength
              case Some(t) =>
                r.Running? && r.out + Owed(r.p) == o + [Data(Value, v)] && Ready(r.p, r.out) &&
                Core(Settle(r.p)) == Core(t).(state := HeaderFieldStart)
            }
  {
    hide IsHttp, Run, Effect, IsValue, AtValue, WillBe, Settle, Ready, Owed;
    ValueRun(f, cb, q, o, v);
    var r := Run(f, q, o, v);
    var x := v + LineEnd(bare);
    if r.Running? {
      assert r.p.state == HeaderValue by { InValue(r.p, Effect(q, q.headerState, v).value); }
      EndLineRun(f, cb, r.p, r.out, bare);
      Then(f, q, o, v, LineEnd(bare), r.p, r.out);
      ValueEnds(r.p, Effect(q, q.headerState, v).value, o, v);
    } else {
      assert x[..|v|] == v;
      RunEnded(f, q, o, x, |v|);
    }
  }

  lemma InValue(r: Parser, t: Parser)
    requires WillBe(r, t)
    ensures r.state == HeaderValue
  {
  }

  lemma ValueEnds(r: Parser, t: Parser, o: seq<Event>, v: Bytes)
    requires WillBe(r, t) && EndsWith(o, Field)
    ensures var e, out := r.(state := HeaderValueLws), Push(o, Data(Value, v));
            && out + Owed(e) == o + [Data(Value, v)] && Ready(e, out) && Core(Settle(e)) == Core(t).(state := HeaderFieldStart)
  {
    var out := Push(o, Data(Value, v));
    assert out + [] == out;
  }

  /** The end of a line without a value. */
  lemma EmptyLine(s: Parser, q: Parser, o: seq<Event>, h: HeaderState)
    requires s.state == HeaderFieldStart && Core(q) == Core(s).(state := HeaderValueDiscardWs) && EndsWith(o, Field) && q.headerState == h
    requires AtValue(q)
    ensures var r := q.(state := HeaderValueDiscardLws);
            && Owed(r) == [Data(Value, [])] && Ready(r, o) && Effect(s, h, []) == Some(s) && Core(Settle(r)) == Core(s)
  {
  }

  // ----- a block of lines -----

  function LinesText(ls: seq<Line>): Bytes {
    if ls == [] then [] else LinesText(ls[..|ls| - 1]) + LineText(ls[|ls| - 1])
  }

  function LinesEvents(ls: seq<Line>): seq<Event> {
    if ls == [] then []
    else LinesEvents(ls[..|ls| - 1]) + [Data(Field, ls[|ls| - 1].name), Data(Value, ls[|ls| - 1].value)]
  }

  function LinesEffect(p: Parser, ls: seq<Line>): Option<Parser> {
    if ls == [] then Some(p)
    else match LinesEffect(p, ls[..|ls| - 1])
      case None => None
      case Some(q) => LineEffect(q, ls[|ls| - 1])
  }

  /** A block of header (or trailer) lines is delivered exactly; it is refused only for a bad Content-Length. */
  lemma {:induction false} LinesRun(f: Machine, cb: HeadersCallback, p: Parser, out: seq<Event>, ls: seq<Line>)
    requires IsHttp(f, cb) && p.state == HeaderFieldStart && !EndsWith(out, Field)
    requires forall i :: 0 <= i < |ls| ==> ValidLine(ls[i])
    ensures var r := Run(f, p, out, LinesText(ls));
            match LinesEffect(p, ls) {
              case None => r.Failed? && r.e == InvalidContentLength
              case Some(q) =>
                r.Running? && r.out + Owed(r.p) == out + LinesEvents(ls) && Ready(r.p, r.out) && Core(Settle(r.p)) == Core(q) &&
                q.state == HeaderFieldStart
            }
  {
    hide IsHttp, Run, ValidLine, LineEffect, LineText, Settle, Ready;
    if ls == [] {
      RunNothing(f, p, out);
      assert out + [] == out;
      SettleNothing(p, out);
    } else {
      var ks, l := ls[..|ls| - 1], ls[|ls| - 1];
      LinesRun(f, cb, p, out, ks);
      var r := Run(f, p, out, LinesText(ks));
      if r.Running? {
        LineRun(f, cb, r.p, r.out, l);
        Then(f, p, out, LinesText(ks), LineText(l), r.p, r.out);
        LineEffectCore(Settle(r.p), LinesEffect(p, ks).value, l);
        assert r.out + Owed(r.p) + [Data(Field, l.name), Data(Value, l.value)] == out + LinesEvents(ls);
      } else {
        assert LinesText(ls)[..|LinesText(ks)|] == LinesText(ks);
        RunEnded(f, p, out, LinesText(ls), |LinesText(ks)|);
      }
    }
  }

  lemma SettleNothing(p: Parser, out: seq<Event>)
    requires p.state == HeaderFieldStart && !EndsWith(out, Field)
    ensures Settle(p) == p && Ready(p, out) && Owed(p) == []
  {
    assert out + [] == out;
  }

  lemma LineEffectCore(p: Parser, q: Parser, l: Line)
    requires Core(p) == Core(q)
    ensures LineEffect(p, l).Some? == LineEffect(q, l).Some?
    ensures LineEffect(p, l).Some? ==> Core(LineEffect(p, l).value) == Core(LineEffect(q, l).value)
    ensures LineEffect(q, l).Some? ==> LineEffect(q, l).value.state == q.state
  {
    hide Effect;
    EffectCore(p, q, NameState(LowerAll(l.name)), l.value);
    EffectCore(q, q, NameState(LowerAll(l.name)), l.value);
  }
}
