/** Messages that end in other ways: requests that leave HTTP or whose body is skipped, and responses, whose body may
    go on to the end of the connection. */
module HttpResponses {
  import opened Wrappers
  import opened HttpTypes
  import opened Streaming
  import opened HttpStep
  import opened HttpRun
  import opened HttpHeaders
  import opened HttpConnection
  import opened HttpFraming
  import opened HttpNumbers
  import opened HttpLines
  import opened HttpRequestLine
  import opened HttpStatusLine
  import opened HttpExecute
  import opened HttpSafety
  import opened HttpRequests

  // ----- the end of the headers, whatever the callback says -----

  predicate HasBody(p: Parser) { p.flags.chunked || (p.contentLength > 0 && p.contentLength != ULLONG_MAX) }

  /** The parser as the callback sees it. */
  function AtCallback(s: Parser): Parser { s.(state := HeadersDone, upgrade := Upgrades(s)) }

  /** Does the message end with its headers, the rest of the connection being left to another protocol? */
  predicate Leaves(s: Parser, v: Verdict) { Upgrades(s) && (s.verb == CONNECT || v == SkipBody || s.flags.skipBody || !HasBody(s)) }

  function WithVerdict(p: Parser, v: Verdict): Parser { if v == SkipBody then p.(flags := p.flags.(skipBody := true)) else p }

  lemma LeaveStep(s: Parser, cb: HeadersCallback)
    requires !s.flags.trailing && cb(InfoOf(AtCallback(s))) != Abort && Leaves(s, cb(InfoOf(AtCallback(s))))
    ensures var q := WithVerdict(AtCallback(s), cb(InfoOf(AtCallback(s))));
            OnHeadersAlmostDone(s.(state := HeadersAlmostDone), LF, cb) ==
            Stop(q.(state := NewMessage(q)), [HeadersComplete(InfoOf(AtCallback(s))), MessageComplete])
  {
    hide NewMessage;
    var e := HeadersComplete(InfoOf(AtCallback(s)));
    assert [e] + [MessageComplete] == [e, MessageComplete];
  }

  /** The empty line after the headers of such a message. */
  lemma LeaveRun(f: Machine, cb: HeadersCallback, p: Parser, out: seq<Event>, h: Parser)
    requires IsHttp(f, cb) && Ready(p, out) && Core(Settle(p)) == Core(h)
    requires var v := cb(InfoOf(AtCallback(h))); !h.flags.trailing && v != Abort && Leaves(h, v)
    ensures var r := Run(f, p, out, CRLF);
            && r.Stopped? && r.n == 2 && r.p.upgrade
            && r.out == out + Owed(p) + [HeadersComplete(InfoOf(AtCallback(h))), MessageComplete]
  {
    hide IsHttp, Run, Settle, Ready, Owed, Leaves, WithVerdict, NewMessage;
    var s := Settle(p);
    SameAtCallback(s, h, cb);
    AlmostDone(f, cb, p, out);
    AlmostDoneStep(f, cb, s.(state := HeadersAlmostDone));
    LeaveStep(s, cb);
    PushTwo(out + Owed(p), HeadersComplete(InfoOf(AtCallback(h))), MessageComplete);
    UpgradeStays(s, cb(InfoOf(AtCallback(h))));
  }

  /** A request that leaves HTTP: its callbacks, and the call returns just after its headers, whatever follows them. */
  lemma UpgradeRun(f: Machine, cb: HeadersCallback, p: Parser, out: seq<Event>, m: Message, rest: Bytes)
    requires IsHttp(f, cb) && Between(p) && ValidHead(m) && Head(m).Some?
    requires var h := Head(m).value;
             var v := cb(InfoOf(AtCallback(h)));
             !h.flags.trailing && v != Abort && Leaves(h, v)
    ensures var r := Run(f, p, out, HeadText(m) + CRLF + rest);
            && r.Stopped? && r.n == |HeadText(m) + CRLF| && r.p.upgrade
            && r.out == out + [MessageBegin, Data(Url, m.target)] + LinesEvents(m.lines) +
                        [HeadersComplete(InfoOf(AtCallback(Head(m).value))), MessageComplete]
  {
    hide IsHttp, Run, Settle, LinesEffect, HeadText, LinesEvents, Ready, Owed, ValidHead, Leaves, AtCallback, Head, Between, Core;
    HeadRun(f, cb, p, out, m);
    var r1 := Run(f, p, out, HeadText(m));
    LeaveRun(f, cb, r1.p, r1.out, Head(m).value);
    var x := HeadText(m) + CRLF;
    StopsThere(f, cb, p, out, HeadText(m), r1.p, r1.out);
    assert (x + rest)[..|x|] == x;
    RunEnded(f, p, out, x + rest, |x|);
  }

  lemma UpgradeStays(s: Parser, v: Verdict)
    requires Leaves(s, v)
    ensures WithVerdict(AtCallback(s), v).upgrade
  {
  }

  lemma SameAtCallback(s: Parser, h: Parser, cb: HeadersCallback)
    requires Core(s) == Core(h)
    ensures InfoOf(AtCallback(s)) == InfoOf(AtCallback(h)) && (forall v :: Leaves(s, v) == Leaves(h, v)) && s.flags == h.flags
  {
  }

  /** A stop after x is at the same place when seen from the start. */
  lemma StopsThere(f: Machine, cb: HeadersCallback, p: Parser, out: seq<Event>, x: Bytes, q: Parser, o: seq<Event>)
    requires Run(f, p, out, x) == Running(q, o) && Run(f, q, o, CRLF).Stopped? && Run(f, q, o, CRLF).n == 2
    ensures var r := Run(f, q, o, CRLF); Run(f, p, out, x + CRLF) == Stopped(r.p, r.out, |x| + 2)
  {
    RunSplit(f, p, out, x, CRLF);
  }

  lemma SkipStep(s: Parser, cb: HeadersCallback)
    requires !s.flags.trailing && cb(InfoOf(AtCallback(s))) == SkipBody && !Upgrades(s)
    ensures var q := WithVerdict(AtCallback(s), SkipBody);
            OnHeadersAlmostDone(s.(state := HeadersAlmostDone), LF, cb) ==
            Next(q.(state := NewMessage(q)), [HeadersComplete(InfoOf(AtCallback(s))), MessageComplete])
  {
    hide NewMessage;
    var e := HeadersComplete(InfoOf(AtCallback(s)));
    assert [e] + [MessageComplete] == [e, MessageComplete];
  }

  /** The empty line after the headers of a message whose body is skipped. */
  lemma SkipLast(f: Machine, cb: HeadersCallback, p: Parser, out: seq<Event>, h: Parser)
    requires IsHttp(f, cb) && Ready(p, out) && Core(Settle(p)) == Core(h)
    requires !h.flags.trailing && cb(InfoOf(AtCallback(h))) == SkipBody && !Upgrades(h)
    ensures var r, q := Run(f, p, out, CRLF), WithVerdict(AtCallback(h), SkipBody);
            && r.Running? && Core(r.p) == Core(q.(state := NewMessage(q)))
            && r.out == out + Owed(p) + [HeadersComplete(InfoOf(AtCallback(h))), MessageComplete]
  {
    hide IsHttp, Run, Settle, Ready, Owed, NewMessage;
    var s := Settle(p);
    SameAtCallback(s, h, cb);
    AlmostDone(f, cb, p, out);
    AlmostDoneStep(f, cb, s.(state := HeadersAlmostDone));
    SkipStep(s, cb);
    PushTwo(out + Owed(p), HeadersComplete(InfoOf(AtCallback(h))), MessageComplete);
    NewMessageCore(WithVerdict(AtCallback(s), SkipBody), WithVerdict(AtCallback(h), SkipBody));
  }

  /** A request whose body the callback says is not there: complete with its headers, whatever they announce. */
  lemma SkipRun(f: Machine, cb: HeadersCallback, p: Parser, out: seq<Event>, m: Message)
    requires IsHttp(f, cb) && Between(p) && ValidHead(m) && Head(m).Some?
    requires var h := Head(m).value; !h.flags.trailing && cb(InfoOf(AtCallback(h))) == SkipBody && !Upgrades(h)
    ensures var r, h := Run(f, p, out, HeadText(m) + CRLF), Head(m).value;
            var q := WithVerdict(AtCallback(h), SkipBody);
            && r.Running? && Core(r.p) == Core(q.(state := NewMessage(q)))
            && r.out == out + [MessageBegin, Data(Url, m.target)] + LinesEvents(m.lines) +
                        [HeadersComplete(InfoOf(AtCallback(h))), MessageComplete]
  {
    hide IsHttp, Run, Settle, LinesEffect, HeadText, LinesEvents, Ready, Owed, ValidHead, NewMessage, AtCallback, Head, Between, Core,
         WithVerdict, Upgrades;
    HeadRun(f, cb, p, out, m);
    var r1 := Run(f, p, out, HeadText(m));
    SkipLast(f, cb, r1.p, r1.out, Head(m).value);
    Then(f, p, out, HeadText(m), CRLF, r1.p, r1.out);
  }

  // ----- responses -----

  datatype Response = Response(major: Bytes, minor: Bytes, code: Bytes, reason: Bytes, lines: seq<Line>)

  predicate ValidResponse(r: Response) {
    && Fits(ResponseMajor, r.major) && Fits(ResponseMinor, r.minor) && Fits(StatusCode, r.code) && IsReason(r.reason)
    && (forall i :: 0 <= i < |r.lines| ==> ValidLine(r.lines[i]))
  }

  function ResponseText(r: Response): Bytes { StatusLineText(r.major, r.minor, r.code, r.reason) + LinesText(r.lines) }

  /** The parser as the status line and the header lines define it. */
  function ResponseHead(r: Response, verb: Method): Option<Parser> {
    LinesEffect(StatusRead(Init(ResponseKind()).(verb := verb), r.major, r.minor, r.code, r.reason), r.lines)
  }

  function ResponseKind(): Kind { Kind.Response }

  function ResponseEvents(r: Response): seq<Event> { [MessageBegin] + ReasonEvents(r.reason) + LinesEvents(r.lines) }

  /** Waiting for a response; its method is that of the last message, or the first of the list. */
  predicate Awaits(p: Parser) { p.state == StartRes && p.kind == ResponseKind() && !p.upgrade }

  lemma ReasonNoField(out: seq<Event>, reason: Bytes)
    ensures !EndsWith(out + [MessageBegin] + ReasonEvents(reason), Field)
  {
  }

  lemma ResponseHeadRun(f: Machine, cb: HeadersCallback, p: Parser, out: seq<Event>, r: Response)
    requires IsHttp(f, cb) && Awaits(p) && ValidResponse(r) && ResponseHead(r, p.verb).Some?
    ensures var x := Run(f, p, out, ResponseText(r));
            && x.Running? && x.out + Owed(x.p) == out + ResponseEvents(r)
            && Ready(x.p, x.out) && Core(Settle(x.p)) == Core(ResponseHead(r, p.verb).value)
  {
    hide IsHttp, Run, Settle, ValidLine, Ready, Owed, ReasonEvents, StatusLineText, HttpNumbers.Fits, DecValue, LinesEffect;
    var t := StatusLineText(r.major, r.minor, r.code, r.reason);
    StatusLineRun(f, cb, p, out, r.major, r.minor, r.code, r.reason);
    var q, o := StatusRead(p, r.major, r.minor, r.code, r.reason), out + [MessageBegin] + ReasonEvents(r.reason);
    LinesEffectCore(q, StatusRead(Init(ResponseKind()).(verb := p.verb), r.major, r.minor, r.code, r.reason), r.lines);
    ReasonNoField(out, r.reason);
    LinesRun(f, cb, q, o, r.lines);
    Then(f, p, out, t, LinesText(r.lines), q, o);
    assert out + ResponseEvents(r) == o + LinesEvents(r.lines);
  }

  /** What the theorems about responses speak of: not leaving HTTP, and not cut short by the callback. */
  predicate Plain(h: Parser, cb: HeadersCallback) {
    !Upgrades(h) && !h.flags.skipBody && !h.flags.trailing && !h.upgrade && cb(InfoOf(h)) == Continue
  }

  /** A response framed by its headers, or that has no body: delivered exactly, with one completion. */
  lemma ResponseRun(f: Machine, cb: HeadersCallback, p: Parser, out: seq<Event>, r: Response, c: Content)
    requires IsHttp(f, cb) && Awaits(p) && ValidResponse(r) && ResponseHead(r, p.verb).Some?
    requires var h := ResponseHead(r, p.verb).value; Plain(h, cb) && !NeedsEof(h) && Announces(h, c)
    ensures var x, h := Run(f, p, out, ResponseText(r) + CRLF + ContentText(c)), ResponseHead(r, p.verb).value;
            && x.Running? && x.out == out + ResponseEvents(r) + [HeadersComplete(InfoOf(h))] + ContentEvents(c)
            && Core(x.p) == Core(Finished(h, c).(state := NewMessage(Finished(h, c))))
  {
    hide IsHttp, Run, Settle, ValidLine, Announces, ResponseText, ContentText, ContentEvents, AfterHeaders, AfterHeadersEvents,
         Finished, NewMessage, ResponseEvents, Ready, Owed, ResponseHead, ValidResponse, Upgrades, NeedsEof;
    ResponseHeadRun(f, cb, p, out, r);
    var x1 := Run(f, p, out, ResponseText(r));
    var p1, o1, h := x1.p, out + ResponseEvents(r), ResponseHead(r, p.verb).value;
    SameFraming(Settle(p1), h);
    NewMessageCore(Settle(p1), h);
    HeadersEnd(f, cb, p1, x1.out);
    var s := Settle(p1).(state := HeadersAlmostDone);
    NewMessageCore(s, h);
    var o2 := o1 + [HeadersComplete(InfoOf(h))];
    var p2, o3 := AfterHeaders(s), o2 + AfterHeadersEvents(s);
    Then(f, p, out, ResponseText(r), CRLF, p1, x1.out);
    AnnouncesCore(h, s, c);
    ContentRun(f, cb, s, o2, c);
    Then(f, p, out, ResponseText(r) + CRLF, ContentText(c), p2, o3);
  }

  lemma SameFraming(s: Parser, h: Parser)
    requires Core(s) == Core(h)
    ensures Upgrades(s) == Upgrades(h) && NeedsEof(s) == NeedsEof(h) && InfoOf(s) == InfoOf(h) && s.flags == h.flags && s.upgrade == h.upgrade
  {
  }

  lemma EofStep(s: Parser, cb: HeadersCallback)
    requires NeedsEof(s) && Plain(s, cb)
    ensures OnHeadersAlmostDone(s.(state := HeadersAlmostDone), LF, cb) ==
            Next(AtCallback(s).(state := BodyIdentityEof), [HeadersComplete(InfoOf(s))])
  {
    var e := HeadersComplete(InfoOf(s));
    assert [e] + [] == [e];
  }

  /** A response without framing: its body is everything up to the end of the connection. */
  lemma EofResponseRun(f: Machine, cb: HeadersCallback, p: Parser, out: seq<Event>, r: Response, data: Bytes)
    requires IsHttp(f, cb) && Awaits(p) && ValidResponse(r) && ResponseHead(r, p.verb).Some?
    requires var h := ResponseHead(r, p.verb).value; Plain(h, cb) && NeedsEof(h)
    ensures var x, h := Run(f, p, out, ResponseText(r) + CRLF + data), ResponseHead(r, p.verb).value;
            && x.Running? && x.p.state == BodyIdentityEof
            && x.out == out + ResponseEvents(r) + [HeadersComplete(InfoOf(h))] + (if data == [] then [] else [Data(Body, data)])
  {
    hide IsHttp, Run, Settle, ValidLine, ResponseText, ResponseEvents, Ready, Owed, ResponseHead, ValidResponse, Upgrades, NeedsEof;
    ResponseHeadRun(f, cb, p, out, r);
    var x1 := Run(f, p, out, ResponseText(r));
    var h := ResponseHead(r, p.verb).value;
    var s := Settle(x1.p);
    SameFraming(s, h);
    AlmostDone(f, cb, x1.p, x1.out);
    AlmostDoneStep(f, cb, s.(state := HeadersAlmostDone));
    EofStep(s, cb);
    var o1 := out + ResponseEvents(r);
    PushOne(o1, HeadersComplete(InfoOf(h)));
    Then(f, p, out, ResponseText(r), CRLF, x1.p, x1.out);
    var q, o2 := AtCallback(s).(state := BodyIdentityEof), o1 + [HeadersComplete(InfoOf(h))];
    EofBody(f, cb, q, o2, data);
    Then(f, p, out, ResponseText(r) + CRLF, data, q, o2);
  }

  lemma EofBody(f: Machine, cb: HeadersCallback, q: Parser, o: seq<Event>, data: Bytes)
    requires IsHttp(f, cb) && q.state == BodyIdentityEof && !EndsWith(o, Body)
    ensures Run(f, q, o, data) == Running(q, o + (if data == [] then [] else [Data(Body, data)]))
  {
    hide IsHttp, Run;
    BodyRun(f, cb, q, 0, o, data);
    assert o + [] == o;
    if data != [] { PushNew(o, Body, data); }
  }

  /** The callbacks for such a response, as far as its bytes go. */
  function EofEvents(r: Response, data: Bytes): seq<Event>
    requires ResponseHead(r, DELETE).Some?
  {
    ResponseEvents(r) + [HeadersComplete(InfoOf(ResponseHead(r, DELETE).value))] + (if data == [] then [] else [Data(Body, data)])
  }

  lemma EofFromStart(f: Machine, cb: HeadersCallback, p: Parser, r: Response, data: Bytes)
    requires IsHttp(f, cb) && Awaits(p) && p.verb == DELETE && ValidResponse(r) && ResponseHead(r, DELETE).Some?
    requires var h := ResponseHead(r, DELETE).value; Plain(h, cb) && NeedsEof(h)
    ensures var x := Run(f, p, [], ResponseText(r) + CRLF + data);
            x.Running? && x.p.state == BodyIdentityEof && x.out == EofEvents(r, data)
  {
    hide IsHttp, Run, ResponseText, ResponseEvents, ResponseHead, ValidResponse, Plain, NeedsEof;
    EofResponseRun(f, cb, p, [], r, data);
    assert [] + ResponseEvents(r) == ResponseEvents(r);
  }

  /** http_parser_execute on such a response, fed in any pieces. */
  method FeedResponse(cb: HeadersCallback, ghost r: Response, ghost data: Bytes, pieces: seq<Bytes>) returns (parser: HttpParser)
    requires ValidResponse(r) && ResponseHead(r, DELETE).Some?
    requires var h := ResponseHead(r, DELETE).value; Plain(h, cb) && NeedsEof(h)
    requires Concat(pieces) == ResponseText(r) + CRLF + data
    requires forall i :: 0 <= i < |pieces| ==> pieces[i] != [] && |pieces[i]| + MAX_HEADER_SIZE + 1 < 0x1_0000_0000
    ensures fresh(parser)
    ensures parser.errno != HeaderOverflow ==>
              parser.errno == OK && parser.Valid() && parser.st.state == BodyIdentityEof && Norm(parser.log) == EofEvents(r, data)
  {
    hide Step, Run, Total, Push, PushAll, BodyFits, PendingKind, Http, Overflows, ResponseText, EofEvents, ResponseHead, ValidResponse,
         Plain, NeedsEof;
    parser := new HttpParser(ResponseKind(), cb);
    HttpIsHttp(cb);
    PushAllNone([]);
    EofFromStart(Http(cb), cb, parser.st, r, data);
    var n := parser.Feed(pieces);
  }

  /** ... and then told of the end of the connection: the message is complete. */
  method ReceiveToEof(cb: HeadersCallback, ghost r: Response, ghost data: Bytes, pieces: seq<Bytes>) returns (parser: HttpParser)
    requires ValidResponse(r) && ResponseHead(r, DELETE).Some?
    requires var h := ResponseHead(r, DELETE).value; Plain(h, cb) && NeedsEof(h)
    requires Concat(pieces) == ResponseText(r) + CRLF + data
    requires forall i :: 0 <= i < |pieces| ==> pieces[i] != [] && |pieces[i]| + MAX_HEADER_SIZE + 1 < 0x1_0000_0000
    ensures parser.errno != HeaderOverflow ==> parser.errno == OK && Norm(parser.log) == EofEvents(r, data) + [MessageComplete]
  {
    hide Step, Run, Total, Push, PushAll, BodyFits, PendingKind, Http, Overflows, ResponseText, EofEvents, ResponseHead, ValidResponse,
         Plain, NeedsEof;
    parser := FeedResponse(cb, r, data, pieces);
    if parser.errno != HeaderOverflow {
      EofCompletes(parser.log, EofEvents(r, data));
      var n := parser.Execute([]);
    }
  }

  lemma EofCompletes(log: seq<Event>, es: seq<Event>)
    requires Norm(log) == es
    ensures Norm(log + [MessageComplete]) == es + [MessageComplete]
  {
    LogGrows(log, [MessageComplete]);
    PushOne(es, MessageComplete);
  }
}
