/** Whole requests, one after the other on a connection: what is sent is what the callbacks see. */
module HttpRequests {
  import opened Wrappers
  import opened HttpTypes
  import opened Streaming
  import opened HttpStep
  import opened HttpRun
  import opened HttpHeaders
  import opened HttpConnection
  import opened HttpFraming
  import opened HttpNumbers
  import opened HttpLines
  import opened HttpRequestLine
  import opened HttpExecute
  import opened HttpSafety

  datatype Content =
    | NoContent
    | Known(data: Bytes)
    | Chunked(chunks: seq<Chunk>, last: Chunk, trailers: seq<Line>)

  datatype Message = Message(verb: Method, target: Bytes, major: Bytes, minor: Bytes, lines: seq<Line>, content: Content)

  // ----- text and callbacks -----

  function ContentText(c: Content): Bytes {
    match c
    case NoContent => []
    case Known(data) => data
    case Chunked(cs, last, trailers) => ChunksText(cs) + ChunkHead(last) + LinesText(trailers) + CRLF
  }

  function ContentEvents(c: Content): seq<Event> {
    match c
    case NoContent => [MessageComplete]
    case Known(data) => [Data(Body, data), MessageComplete]
    case Chunked(cs, last, trailers) =>
      ChunksEvents(cs) + [ChunkHeader(0)] + LinesEvents(trailers) + [ChunkComplete, MessageComplete]
  }

  function HeadText(m: Message): Bytes { RequestLineText(m.verb, m.target, m.major, m.minor) + LinesText(m.lines) }

  function MessageText(m: Message): Bytes { HeadText(m) + CRLF + ContentText(m.content) }

  predicate ValidHead(m: Message) {
    && ValidTarget(m.verb, m.target) && Fits(RequestMajor, m.major) && Fits(RequestMinor, m.minor)
    && (forall i :: 0 <= i < |m.lines| ==> ValidLine(m.lines[i]))
  }

  /** The parser as the request line and the header lines define it. */
  function Head(m: Message): Option<Parser>
  {
    LinesEffect(LineRead(Init(Request), m.verb, m.major, m.minor), m.lines)
  }

  /** Does the message take the connection away from HTTP? */
  predicate Upgrades(p: Parser) { (p.flags.upgrade && p.flags.connUpgrade) || p.verb == CONNECT }

  function Trailing(p: Parser): Parser {
    p.(contentLength := 0, flags := p.flags.(trailing := true), state := HeaderFieldStart)
  }

  /** The framing headers announce the content: chunks win over a length, and no length means no content. */
  predicate Announces(p: Parser, c: Content) {
    match c
    case NoContent => !p.flags.chunked && (p.contentLength == 0 || p.contentLength == ULLONG_MAX)
    case Known(data) => !p.flags.chunked && p.contentLength == |data| && 0 < |data| < ULLONG_MAX
    case Chunked(cs, last, trailers) =>
      && p.flags.chunked
      && (forall i :: 0 <= i < |cs| ==> ValidChunk(cs[i]) && cs[i].data != [])
      && ValidChunk(last) && last.data == []
      && (forall i :: 0 <= i < |trailers| ==> ValidLine(trailers[i]))
      && LinesEffect(Trailing(p), trailers).Some?
  }

  /** The parser at the end of the message, but for the state it goes to. */
  function Finished(p: Parser, c: Content): Parser
    requires Announces(p, c)
  {
    match c
    case NoContent => p
    case Known(_) => p.(contentLength := 0)
    case Chunked(_, _, trailers) => LinesEffect(Trailing(p), trailers).value
  }

  /** A request this theorem speaks of: well formed, its content announced by its headers, not leaving HTTP,
      and not cut short by the callback. */
  predicate Valid(m: Message, cb: HeadersCallback) {
    && ValidHead(m) && Head(m).Some?
    && var p := Head(m).value;
       !Upgrades(p) && !p.flags.skipBody && !p.flags.trailing && !p.upgrade && p.kind == Request &&
       cb(InfoOf(p)) == Continue && Announces(p, m.content)
  }

  function MessageEvents(m: Message): seq<Event>
    requires ValidHead(m) && Head(m).Some?
  {
    [MessageBegin, Data(Url, m.target)] + LinesEvents(m.lines) + [HeadersComplete(InfoOf(Head(m).value))] +
    ContentEvents(m.content)
  }

  // ----- end of the headers and of the trailers -----

  lemma AlmostDone(f: Machine, cb: HeadersCallback, p: Parser, out: seq<Event>)
    requires IsHttp(f, cb) && Ready(p, out)
    ensures Run(f, p, out, CRLF) ==
            Advance(f, Running(Settle(p).(state := HeadersAlmostDone), out + Owed(p)), LF, 1)
  {
    hide IsHttp, Run, Settle, OnHeadersAlmostDone, PushAll;
    SettleStep(f, cb, p, CR);
    RunByte(f, p, out, CR);
    PushOwed(p, out);
    assert Owed(p) + [] == Owed(p);
    RunLast(f, p, out, [CR], LF);
    assert [CR] + [LF] == CRLF;
  }

  lemma AlmostDoneStep(f: Machine, cb: HeadersCallback, p: Parser)
    requires IsHttp(f, cb) && p.state == HeadersAlmostDone
    ensures f(p, LF) == OnHeadersAlmostDone(p, LF, cb)
  {
    hide StepRequestLine, StepBody, StepStatusLine, StepStart, OnHeadersAlmostDone;
    assert f(p, LF) == Step(p, LF, cb);
  }

  /** Where the parser goes after the headers, and whether the message is complete. */
  function AfterHeaders(p: Parser): Parser {
    if p.flags.chunked then p.(state := ChunkSizeStart)
    else if p.contentLength == 0 || p.contentLength == ULLONG_MAX then p.(state := NewMessage(p))
    else p.(state := BodyIdentity)
  }

  function AfterHeadersEvents(p: Parser): seq<Event> {
    if !p.flags.chunked && (p.contentLength == 0 || p.contentLength == ULLONG_MAX) then [MessageComplete] else []
  }

  lemma HeadersDoneStep(q: Parser, cb: HeadersCallback)
    requires q.state == HeadersAlmostDone && !NeedsEof(q) && !q.flags.trailing && !q.flags.skipBody && !Upgrades(q) && !q.upgrade
    requires cb(InfoOf(q)) == Continue
    ensures OnHeadersAlmostDone(q, LF, cb) == Next(AfterHeaders(q), [HeadersComplete(InfoOf(q))] + AfterHeadersEvents(q))
  {
  }

  lemma HeadersEnd(f: Machine, cb: HeadersCallback, p: Parser, out: seq<Event>)
    requires IsHttp(f, cb) && Ready(p, out)
    requires var s := Settle(p);
             && !NeedsEof(s) && !s.flags.trailing && !s.flags.skipBody && !Upgrades(s) && !s.upgrade
             && cb(InfoOf(s)) == Continue
    ensures var s := Settle(p).(state := HeadersAlmostDone);
            Run(f, p, out, CRLF) ==
            Running(AfterHeaders(s), out + Owed(p) + [HeadersComplete(InfoOf(s))] + AfterHeadersEvents(s))
  {
    hide IsHttp, Run, Settle, AfterHeaders, OnHeadersAlmostDone, Upgrades, NeedsEof, Ready, Owed;
    var s := Settle(p).(state := HeadersAlmostDone);
    AlmostDone(f, cb, p, out);
    AlmostDoneStep(f, cb, s);
    UpgradesStateless(Settle(p), HeadersAlmostDone);
    HeadersDoneStep(s, cb);
    var e := HeadersComplete(InfoOf(s));
    if AfterHeadersEvents(s) == [] {
      assert [e] + [] == [e];
      PushOne(out + Owed(p), e);
      assert out + Owed(p) + [e] + [] == out + Owed(p) + [e];
    } else {
      assert [e] + [MessageComplete] == [e, MessageComplete];
      PushTwo(out + Owed(p), e, MessageComplete);
    }
  }

  lemma UpgradesStateless(p: Parser, s: State)
    ensures Upgrades(p.(state := s)) == Upgrades(p) && NeedsEof(p.(state := s)) == NeedsEof(p)
  {
  }

  lemma TrailersEnd(f: Machine, cb: HeadersCallback, p: Parser, out: seq<Event>)
    requires IsHttp(f, cb) && Ready(p, out) && Settle(p).flags.trailing && !Settle(p).upgrade
    ensures Run(f, p, out, CRLF) ==
            Running(Settle(p).(state := NewMessage(Settle(p))), out + Owed(p) + [ChunkComplete, MessageComplete])
  {
    hide IsHttp, Run, Settle, Ready, Owed;
    var s := Settle(p).(state := HeadersAlmostDone);
    AlmostDone(f, cb, p, out);
    AlmostDoneStep(f, cb, s);
    assert [ChunkComplete] + [MessageComplete] == [ChunkComplete, MessageComplete];
    PushTwo(out + Owed(p), ChunkComplete, MessageComplete);
  }

  // ----- content -----

  lemma NewMessageCore(p: Parser, q: Parser)
    requires Core(p).(state := Dead) == Core(q).(state := Dead)
    ensures NewMessage(p) == NewMessage(q) && InfoOf(p) == InfoOf(q)
  {
  }

  lemma EffectKeeps(p: Parser, l: Line)
    ensures LineEffect(p, l).Some? ==>
              var q := LineEffect(p, l).value;
              q.upgrade == p.upgrade && q.flags.trailing == p.flags.trailing && q.kind == p.kind && q.state == p.state
  {
    hide NameState, WithOptions, IsWord, DecValue;
    OptionsKeep(p.flags, Seen(Words(l.value)));
  }

  lemma {:induction false} OptionsKeep(f: Flags, ws: seq<Bytes>)
    ensures WithOptions(f, ws).trailing == f.trailing
  {
    if ws != [] {
      OptionsKeep(f, ws[..|ws| - 1]);
    }
  }

  lemma {:induction false} LinesKeep(p: Parser, ls: seq<Line>)
    ensures LinesEffect(p, ls).Some? ==>
              var q := LinesEffect(p, ls).value;
              q.upgrade == p.upgrade && q.flags.trailing == p.flags.trailing && q.kind == p.kind && q.state == p.state
  {
    hide LineEffect;
    if ls != [] {
      LinesKeep(p, ls[..|ls| - 1]);
      if LinesEffect(p, ls[..|ls| - 1]).Some? {
        EffectKeeps(LinesEffect(p, ls[..|ls| - 1]).value, ls[|ls| - 1]);
      }
    }
  }

  lemma {:induction false} LinesEffectCore(p: Parser, q: Parser, ls: seq<Line>)
    requires Core(p) == Core(q)
    ensures LinesEffect(p, ls).Some? == LinesEffect(q, ls).Some?
    ensures LinesEffect(p, ls).Some? ==> Core(LinesEffect(p, ls).value) == Core(LinesEffect(q, ls).value)
  {
    hide LineEffect;
    if ls != [] {
      var ks := ls[..|ls| - 1];
      LinesEffectCore(p, q, ks);
      if LinesEffect(p, ks).Some? {
        LineEffectCore(LinesEffect(p, ks).value, LinesEffect(q, ks).value, ls[|ls| - 1]);
      }
    }
  }

  /** The chunks and the line that announces the last one. */
  lemma ChunksPart(f: Machine, cb: HeadersCallback, p: Parser, out: seq<Event>, cs: seq<Chunk>, last: Chunk)
    requires IsHttp(f, cb) && p.state == ChunkSizeStart
    requires (forall i :: 0 <= i < |cs| ==> ValidChunk(cs[i]) && cs[i].data != []) && ValidChunk(last) && last.data == []
    ensures Run(f, p, out, ChunksText(cs) + ChunkHead(last)) == Running(Trailing(p), out + ChunksEvents(cs) + [ChunkHeader(0)])
  {
    hide IsHttp, Run, ValidChunk, ChunkHead;
    ChunksRun(f, cb, p, out, cs);
    var q, o := Run(f, p, out, ChunksText(cs)).p, out + ChunksEvents(cs);
    ChunkHeadRun(f, cb, q, o, last);
    Then(f, p, out, ChunksText(cs), ChunkHead(last), q, o);
  }

  /** The trailers and the end of the message. */
  lemma TrailersPart(f: Machine, cb: HeadersCallback, p: Parser, out: seq<Event>, ls: seq<Line>)
    requires IsHttp(f, cb) && p.state == HeaderFieldStart && p.flags.trailing && !p.upgrade && !EndsWith(out, Field)
    requires (forall i :: 0 <= i < |ls| ==> ValidLine(ls[i])) && LinesEffect(p, ls).Some?
    ensures var r, q := Run(f, p, out, LinesText(ls) + CRLF), LinesEffect(p, ls).value;
            r.Running? && r.out == out + LinesEvents(ls) + [ChunkComplete, MessageComplete] && Core(r.p) == Core(q.(state := NewMessage(q)))
  {
    hide IsHttp, Run, Settle, ValidLine, LineEffect, NewMessage, LinesEffect, Ready, Owed;
    LinesRun(f, cb, p, out, ls);
    var r := Run(f, p, out, LinesText(ls));
    LinesKeep(p, ls);
    TrailersEnd(f, cb, r.p, r.out);
    Then(f, p, out, LinesText(ls), CRLF, r.p, r.out);
    NewMessageCore(Settle(r.p), LinesEffect(p, ls).value);
  }

  /** A chunked body with its trailers. */
  lemma ChunkedRun(f: Machine, cb: HeadersCallback, p: Parser, out: seq<Event>, c: Content)
    requires IsHttp(f, cb) && p.state == ChunkSizeStart && !p.upgrade && c.Chunked? && Announces(p, c)
    ensures var r := Run(f, p, out, ContentText(c));
            && r.Running? && r.out == out + ContentEvents(c)
            && Core(r.p) == Core(Finished(p, c).(state := NewMessage(Finished(p, c))))
  {
    hide IsHttp, Run, ValidChunk, ValidLine, ChunkHead, NewMessage, LinesEffect, Core;
    var a, t := ChunksText(c.chunks) + ChunkHead(c.last), LinesText(c.trailers) + CRLF;
    ChunksPart(f, cb, p, out, c.chunks, c.last);
    var o2 := out + ChunksEvents(c.chunks) + [ChunkHeader(0)];
    TrailersPart(f, cb, Trailing(p), o2, c.trailers);
    Then(f, p, out, a, t, Trailing(p), o2);
    assert a + t == ContentText(c);
    assert o2 + LinesEvents(c.trailers) + [ChunkComplete, MessageComplete] == out + ContentEvents(c);
  }

  /** The content, from the parser q that the headers leave. */
  lemma ContentRun(f: Machine, cb: HeadersCallback, q: Parser, out: seq<Event>, c: Content)
    requires IsHttp(f, cb) && q.state == HeadersAlmostDone && !q.upgrade && Announces(q, c) && !EndsWith(out, Body)
    ensures var r := Run(f, AfterHeaders(q), out + AfterHeadersEvents(q), ContentText(c));
            && r.Running? && r.out == out + ContentEvents(c)
            && Core(r.p) == Core(Finished(q, c).(state := NewMessage(Finished(q, c))))
  {
    hide IsHttp, Run, NewMessage, LinesEffect;
    var p := AfterHeaders(q);
    match c {
      case NoContent =>
        RunNothing(f, p, out + AfterHeadersEvents(q));
      case Known(data) =>
        assert out + [] == out;
        IdentityRun(f, cb, p, out, data);
        NewMessageCore(p.(contentLength := 0, state := MessageDone), Finished(q, c));
      case Chunked(_, _, _) =>
        assert out + [] == out;
        assert Trailing(p) == Trailing(q);
        ChunkedRun(f, cb, p, out, c);
    }
  }

  // ----- a whole message -----

  /** The parser between two messages of a connection. */
  predicate Between(p: Parser) { p.kind == Request && p.status == 0 && p.state == StartReq && !p.upgrade }

  function End(m: Message): Parser
    requires ValidHead(m) && Head(m).Some? && Announces(Head(m).value, m.content)
  {
    Finished(Head(m).value, m.content)
  }

  lemma HeadRun(f: Machine, cb: HeadersCallback, p: Parser, out: seq<Event>, m: Message)
    requires IsHttp(f, cb) && Between(p) && ValidHead(m) && Head(m).Some?
    ensures var r := Run(f, p, out, HeadText(m));
            && r.Running? && r.out + Owed(r.p) == out + [MessageBegin, Data(Url, m.target)] + LinesEvents(m.lines)
            && Ready(r.p, r.out) && Core(Settle(r.p)) == Core(Head(m).value)
  {
    hide IsHttp, Run, Settle, ValidTarget, RequestLineText, ValidLine, Ready, Owed;
    var x := RequestLineText(m.verb, m.target, m.major, m.minor);
    RequestLineRun(f, cb, p, out, m.verb, m.target, m.major, m.minor);
    var q, o := LineRead(p, m.verb, m.major, m.minor), out + [MessageBegin, Data(Url, m.target)];
    LinesEffectCore(q, LineRead(Init(Request), m.verb, m.major, m.minor), m.lines);
    LinesRun(f, cb, q, o, m.lines);
    Then(f, p, out, x, LinesText(m.lines), q, o);
  }

  lemma AnnouncesCore(p: Parser, q: Parser, c: Content)
    requires Core(p).(state := Dead) == Core(q).(state := Dead) && Announces(p, c)
    ensures Announces(q, c) && Core(Finished(p, c)).(state := Dead) == Core(Finished(q, c)).(state := Dead)
    ensures NewMessage(Finished(p, c)) == NewMessage(Finished(q, c))
  {
    hide LinesEffect, NewMessage, ValidLine, ValidChunk;
    if c.Chunked? {
      LinesEffectCore(Trailing(p), Trailing(q), c.trailers);
    }
    NewMessageCore(Finished(p, c), Finished(q, c));
  }

  /** One request: the callbacks see exactly what was sent, once, and the parser is ready for the next one if the
      connection is kept. */
  lemma MessageRun(f: Machine, cb: HeadersCallback, p: Parser, out: seq<Event>, m: Message)
    requires IsHttp(f, cb) && Between(p) && Valid(m, cb)
    ensures var r := Run(f, p, out, MessageText(m));
            && r.Running? && r.out == out + MessageEvents(m)
            && Core(r.p) == Core(End(m).(state := if ShouldKeepAlive(End(m)) then StartReq else Dead))
  {
    hide IsHttp, Run, Settle, ValidTarget, ValidLine, LinesEffect, LineRead, Announces, HeadText, ContentText, ContentEvents, AfterHeaders, AfterHeadersEvents,
         Finished, NewMessage, LinesEvents, Ready, Owed;
    HeadRun(f, cb, p, out, m);
    var r1 := Run(f, p, out, HeadText(m));
    var p1, o1 := r1.p, out + [MessageBegin, Data(Url, m.target)] + LinesEvents(m.lines);
    var h := Head(m).value;
    NewMessageCore(Settle(p1), h);
    HeadersEnd(f, cb, p1, r1.out);
    var s := Settle(p1).(state := HeadersAlmostDone);
    NewMessageCore(s, h);
    var o2 := o1 + [HeadersComplete(InfoOf(h))];
    var p2, o3 := AfterHeaders(s), o2 + AfterHeadersEvents(s);
    Then(f, p, out, HeadText(m), CRLF, p1, r1.out);
    AnnouncesCore(h, s, m.content);
    ContentRun(f, cb, s, o2, m.content);
    Then(f, p, out, HeadText(m) + CRLF, ContentText(m.content), p2, o3);
    assert o2 + ContentEvents(m.content) == out + MessageEvents(m);
    EndState(m, cb);
  }

  lemma EndState(m: Message, cb: HeadersCallback)
    requires Valid(m, cb)
    ensures NewMessage(End(m)) == if ShouldKeepAlive(End(m)) then StartReq else Dead
    ensures !End(m).upgrade && End(m).kind == Request
  {
    hide LinesEffect, ValidTarget, ShouldKeepAlive, ValidLine, ValidChunk;
    if m.content.Chunked? {
      LinesKeep(Trailing(Head(m).value), m.content.trailers);
    }
  }

  lemma {:induction false} LinesKeepStatus(p: Parser, ls: seq<Line>)
    ensures LinesEffect(p, ls).Some? ==> LinesEffect(p, ls).value.status == p.status
  {
    hide NameState, WithOptions, IsWord, DecValue;
    if ls != [] {
      LinesKeepStatus(p, ls[..|ls| - 1]);
    }
  }

  lemma BetweenAgain(m: Message, cb: HeadersCallback, r: Parser)
    requires Valid(m, cb) && ShouldKeepAlive(End(m)) && Core(r) == Core(End(m).(state := StartReq))
    ensures Between(r)
  {
    hide LinesEffect, ValidTarget, ShouldKeepAlive, ValidLine, ValidChunk;
    EndState(m, cb);
    LinesKeepStatus(LineRead(Init(Request), m.verb, m.major, m.minor), m.lines);
    if m.content.Chunked? {
      LinesKeepStatus(Trailing(Head(m).value), m.content.trailers);
    }
  }

  // ----- a connection -----

  function MessagesText(ms: seq<Message>): Bytes {
    if ms == [] then [] else MessagesText(ms[..|ms| - 1]) + MessageText(ms[|ms| - 1])
  }

  predicate Kept(m: Message, cb: HeadersCallback) { Valid(m, cb) && ShouldKeepAlive(End(m)) }

  function KeptEvents(m: Message, cb: HeadersCallback): seq<Event>
    requires Kept(m, cb)
  {
    MessageEvents(m)
  }

  predicate AllKept(ms: seq<Message>, cb: HeadersCallback) {
    ms == [] || (AllKept(ms[..|ms| - 1], cb) && Kept(ms[|ms| - 1], cb))
  }

  function MessagesEvents(ms: seq<Message>, cb: HeadersCallback): seq<Event>
    requires AllKept(ms, cb)
  {
    if ms == [] then [] else MessagesEvents(ms[..|ms| - 1], cb) + KeptEvents(ms[|ms| - 1], cb)
  }

  lemma KeptRun(f: Machine, cb: HeadersCallback, p: Parser, out: seq<Event>, m: Message)
    requires IsHttp(f, cb) && Between(p) && Kept(m, cb)
    ensures var r := Run(f, p, out, MessageText(m));
            r.Running? && r.out == out + KeptEvents(m, cb) && Between(r.p)
  {
    hide IsHttp, Run, Valid, ShouldKeepAlive, MessageText, Core, Between, End;
    MessageRun(f, cb, p, out, m);
    BetweenAgain(m, cb, Run(f, p, out, MessageText(m)).p);
  }

  /** Pipelined requests are parsed one by one, and nothing leaks from one into the next. */
  lemma {:induction false} MessagesRun(f: Machine, cb: HeadersCallback, p: Parser, out: seq<Event>, ms: seq<Message>)
    requires IsHttp(f, cb) && Between(p)
    requires AllKept(ms, cb)
    ensures var r := Run(f, p, out, MessagesText(ms));
            r.Running? && r.out == out + MessagesEvents(ms, cb) && Between(r.p)
  {
    hide IsHttp, Run, Kept, KeptEvents, MessageText, Between;
    if ms == [] {
      RunNothing(f, p, out);
      assert out + [] == out;
    } else {
      var ns, m := ms[..|ms| - 1], ms[|ms| - 1];
      MessagesRun(f, cb, p, out, ns);
      var r := Run(f, p, out, MessagesText(ns));
      KeptRun(f, cb, r.p, r.out, m);
      Then(f, p, out, MessagesText(ns), MessageText(m), r.p, r.out);
      assert r.out + KeptEvents(m, cb) == out + MessagesEvents(ms, cb);
    }
  }

  lemma {:induction false} TotalBound(f: Machine, p: Parser, n: nat, out: seq<Event>, data: Bytes)
    ensures Total(f, COUNT, p, n, out, data) <= n + |data|
  {
    hide Run, ResetsCount;
    if data != [] {
      TotalBound(f, p, n, out, data[..|data| - 1]);
    }
  }

  /** A short stream cannot exceed the header limit. */
  lemma NoOverflow(f: Machine, p: Parser, out: seq<Event>, data: Bytes, slack: nat)
    requires |data| + slack <= MAX_HEADER_SIZE
    ensures !Overflows(f, p, 0, out, data, slack)
  {
    hide Run, Total;
    forall k | 0 <= k <= |data|
      ensures Total(f, COUNT, p, 0, out, data[..k]) + slack <= MAX_HEADER_SIZE
    {
      TotalBound(f, p, 0, out, data[..k]);
    }
  }

  /** http_parser_execute on a new connection, fed a pipeline of requests in any pieces. */
  method Serve(cb: HeadersCallback, ghost ms: seq<Message>, pieces: seq<Bytes>) returns (parser: HttpParser, n: nat)
    requires AllKept(ms, cb)
    requires Concat(pieces) == MessagesText(ms)
    requires forall i :: 0 <= i < |pieces| ==> pieces[i] != [] && |pieces[i]| + MAX_HEADER_SIZE + 1 < 0x1_0000_0000
    ensures parser.errno != HeaderOverflow ==>
              parser.errno == OK && n == |MessagesText(ms)| && Norm(parser.log) == MessagesEvents(ms, cb) && Between(parser.st)
    ensures |Concat(pieces)| + |pieces| <= MAX_HEADER_SIZE ==> parser.errno == OK
  {
    hide Step, Run, Total, Push, PushAll, BodyFits, PendingKind, Http, Overflows, Kept, KeptEvents, MessageText;
    parser := new HttpParser(Request, cb);
    ghost var f, p := Http(cb), parser.st;
    HttpIsHttp(cb);
    PushAllNone([]);
    MessagesRun(f, cb, p, [], ms);
    assert [] + MessagesEvents(ms, cb) == MessagesEvents(ms, cb);
    n := parser.Feed(pieces);
    if |Concat(pieces)| + |pieces| <= MAX_HEADER_SIZE {
      NoOverflow(f, p, [], Concat(pieces), |pieces|);
    }
  }
}
