/** The one-byte meaning of http_parser_execute: no marks, no bulk scans, every data byte its own event. */
module HttpStep {
  import opened Wrappers
  import opened HttpTypes
  import opened Streaming

  function After(es: seq<Event>, o: Outcome): Outcome {
    match o
    case Next(p, fs) => Next(p, es + fs)
    case Stop(p, fs) => Stop(p, es + fs)
    case Fail(e) => o
  }

  function Go(p: Parser, s: State): Outcome { Next(p.(state := s), []) }

  /** parse_url_char; Dead stands for a bad character. */
  function UrlChar(s: State, c: Byte): State {
    if c == ' ' || c == CR || c == LF || c == '\t' || c == FF then Dead
    else match s
      case ReqSpacesBeforeUrl =>
        if c == '/' || c == '*' then ReqPath else if IsAlpha(c) then ReqSchema else Dead
      case ReqSchema =>
        if IsAlpha(c) then ReqSchema else if c == ':' then ReqSchemaSlash else Dead
      case ReqSchemaSlash => if c == '/' then ReqSchemaSlashSlash else Dead
      case ReqSchemaSlashSlash => if c == '/' then ReqServerStart else Dead
      case ReqServerWithAt => if c == '@' then Dead else ServerChar(c)
      case ReqServerStart => ServerChar(c)
      case ReqServer => ServerChar(c)
      case ReqPath =>
        if IsUrlChar(c) then ReqPath
        else if c == '?' then ReqQueryStringStart else if c == '#' then ReqFragmentStart else Dead
      case ReqQueryStringStart => QueryChar(c)
      case ReqQueryString => QueryChar(c)
      case ReqFragmentStart =>
        if IsUrlChar(c) || c == '?' then ReqFragment else if c == '#' then ReqFragmentStart else Dead
      case ReqFragment =>
        if IsUrlChar(c) || c == '?' || c == '#' then ReqFragment else Dead
      case _ => Dead
  }

  /** Where the automaton starts: the target of CONNECT is a server. */
  function UrlStart(isConnect: bool): State { if isConnect then ReqServerStart else ReqSpacesBeforeUrl }

  function ServerChar(c: Byte): State {
    if c == '/' then ReqPath
    else if c == '?' then ReqQueryStringStart
    else if c == '@' then ReqServerWithAt
    else if IsUserinfoChar(c) || c == '[' || c == ']' then ReqServer
    else Dead
  }

  function QueryChar(c: Byte): State {
    if IsUrlChar(c) || c == '?' then ReqQueryString else if c == '#' then ReqFragmentStart else Dead
  }

  // ----- request line -----

  function FirstMethod(c: Byte): Option<Method> {
    match c
    case 'A' => Some(ACL) case 'B' => Some(BIND) case 'C' => Some(CONNECT) case 'D' => Some(DELETE)
    case 'G' => Some(GET) case 'H' => Some(HEAD) case 'L' => Some(LOCK) case 'M' => Some(MKCOL)
    case 'N' => Some(NOTIFY) case 'O' => Some(OPTIONS) case 'P' => Some(POST) case 'R' => Some(REPORT)
    case 'S' => Some(SUBSCRIBE) case 'T' => Some(TRACE) case 'U' => Some(UNLOCK)
    case _ => None
  }

  /** The method to go on with when the byte at `index` is not the expected one. */
  function OtherMethod(m: Method, index: nat, c: Byte): Option<Method> {
    if m == CONNECT then
      if index == 1 && c == 'H' then Some(CHECKOUT) else if index == 2 && c == 'P' then Some(COPY) else None
    else if m == MKCOL then
      if index == 1 && c == 'O' then Some(MOVE)
      else if index == 1 && c == 'E' then Some(MERGE)
      else if index == 1 && c == '-' then Some(MSEARCH)
      else if index == 2 && c == 'A' then Some(MKACTIVITY)
      else if index == 3 && c == 'A' then Some(MKCALENDAR)
      else None
    else if m == SUBSCRIBE then if index == 1 && c == 'E' then Some(SEARCH) else None
    else if m == REPORT then if index == 2 && c == 'B' then Some(REBIND) else None
    else if index == 1 then
      if m == POST then
        if c == 'R' then Some(PROPFIND) else if c == 'U' then Some(PUT) else if c == 'A' then Some(PATCH) else None
      else if m == LOCK then if c == 'I' then Some(LINK) else None
      else Some(m)
    else if index == 2 then
      if m == PUT then if c == 'R' then Some(PURGE) else None
      else if m == UNLOCK then
        if c == 'S' then Some(UNSUBSCRIBE) else if c == 'B' then Some(UNBIND) else None
      else None
    else if index == 4 && m == PROPFIND && c == 'P' then Some(PROPPATCH)
    else if index == 3 && m == UNLOCK && c == 'I' then Some(UNLINK)
    else None
  }

  function OnStartReq(p: Parser, c: Byte): Outcome {
    if c == CR || c == LF then Next(p, [])
    else
      var q := p.(flags := NO_FLAGS, contentLength := ULLONG_MAX);
      match FirstMethod(c)
      case None => Fail(InvalidMethod)
      case Some(m) => Next(q.(verb := m, index := 1, state := ReqMethod), [MessageBegin])
  }

  function OnMethod(p: Parser, c: Byte): Outcome {
    if c == NUL then Fail(InvalidMethod)
    else
      var expected := At(MethodString(p.verb), p.index);
      if c == ' ' && expected == NUL then Next(p.(state := ReqSpacesBeforeUrl, index := p.index + 1), [])
      else if c == expected then Next(p.(index := p.index + 1), [])
      else match OtherMethod(p.verb, p.index, c)
        case None => Fail(InvalidMethod)
        case Some(m) => Next(p.(verb := m, index := p.index + 1), [])
  }

  function UrlStep(p: Parser, s: State, c: Byte): Outcome {
    var t := UrlChar(s, c);
    if t == Dead then Fail(InvalidUrl) else Next(p.(state := t), [Data(Url, [c])])
  }

  function OnUrl(p: Parser, c: Byte): Outcome {
    if UrlMayEnd(p.state) && c == ' ' then Go(p, ReqHttpStart)
    else if UrlMayEnd(p.state) && (c == CR || c == LF) then
      Go(p.(major := 0, minor := 9), if c == CR then ReqLineAlmostDone else HeaderFieldStart)
    else if c == ' ' || c == CR || c == LF then Fail(InvalidUrl)
    else UrlStep(p, p.state, c)
  }

  function OnSpacesBeforeUrl(p: Parser, c: Byte): Outcome {
    if c == ' ' then Next(p, [])
    else UrlStep(p, UrlStart(p.verb == CONNECT), c)
  }

  /** Expect one given character (STRICT_CHECK). */
  function Expect(p: Parser, c: Byte, want: Byte, s: State): Outcome {
    if c != want then Fail(Strict) else Go(p, s)
  }

  function OnMajor(p: Parser, c: Byte, s: State): Outcome {
    if c == '.' then Go(p, s)
    else if !IsNum(c) then Fail(InvalidVersion)
    else
      var q := p.(major := p.major * 10 + Digit(c));
      if q.major > 999 then Fail(InvalidVersion) else Next(q, [])
  }

  function OnMinorDigit(p: Parser, c: Byte): Outcome {
    if !IsNum(c) then Fail(InvalidVersion)
    else
      var q := p.(minor := p.minor * 10 + Digit(c));
      if q.minor > 999 then Fail(InvalidVersion) else Next(q, [])
  }

  // ----- status line -----

  function OnStartRes(p: Parser, c: Byte): Outcome {
    var q := p.(flags := NO_FLAGS, contentLength := ULLONG_MAX);
    if c == 'H' then Next(q.(state := ResH), [MessageBegin])
    else if c == CR || c == LF then Next(q, [MessageBegin])
    else Fail(InvalidConstant)
  }

  function OnStatusCode(p: Parser, c: Byte): Outcome {
    if !IsNum(c) then
      if c == ' ' then Go(p, ResStatusStart)
      else if c == CR then Go(p, ResLineAlmostDone)
      else if c == LF then Go(p, HeaderFieldStart)
      else Fail(InvalidStatus)
    else
      var q := p.(status := p.status * 10 + Digit(c));
      if q.status > 999 then Fail(InvalidStatus) else Next(q, [])
  }

  function OnStatus(p: Parser, c: Byte): Outcome {
    if c == CR then Go(p, ResLineAlmostDone)
    else if c == LF then Go(p, HeaderFieldStart)
    else if p.state == ResStatusStart then Next(p.(state := ResStatus, index := 0), [Data(Status, [c])])
    else Next(p, [Data(Status, [c])])
  }

  // ----- header fields -----

  function OnFieldStart(p: Parser, c: Byte, cb: HeadersCallback): Outcome {
    if c == CR then Go(p, HeadersAlmostDone)
    else if c == LF then OnHeadersAlmostDone(p.(state := HeadersAlmostDone), c, cb)
    else if Token(c) == NUL then Fail(InvalidHeaderToken)
    else Next(p.(index := 0, state := HeaderField, headerState := FirstFieldState(Token(c))), [Data(Field, [c])])
  }

  function FirstFieldState(c: Byte): HeaderState {
    if c == 'c' then HC
    else if c == 'p' then MatchingProxyConnection
    else if c == 't' then MatchingTransferEncoding
    else if c == 'u' then MatchingUpgrade
    else General
  }

  /** One more character of a word being matched; `index` is that of the character before. */
  function MatchWord(word: Bytes, index: nat, c: Byte, same: HeaderState, found: HeaderState, lost: HeaderState)
    : HeaderState
  {
    if index + 1 > |word| || c != At(word, index + 1) then lost
    else if index + 1 == |word| - 1 then found
    else same
  }

  /** The header_state after one more field-name character; c is the lower-cased token. */
  function FieldMatch(h: HeaderState, index: nat, c: Byte): HeaderState {
    match h
    case General => General
    case HC => if c == 'o' then HCO else General
    case HCO => if c == 'n' then HCON else General
    case HCON =>
      if c == 'n' then MatchingConnection else if c == 't' then MatchingContentLength else General
    case MatchingConnection => MatchWord("connection", index, c, h, HConnection, General)
    case MatchingProxyConnection => MatchWord("proxy-connection", index, c, h, HConnection, General)
    case MatchingContentLength => MatchWord("content-length", index, c, h, HContentLength, General)
    case MatchingTransferEncoding => MatchWord("transfer-encoding", index, c, h, HTransferEncoding, General)
    case MatchingUpgrade => MatchWord("upgrade", index, c, h, HUpgrade, General)
    case HConnection => if c != ' ' then General else h
    case HContentLength => if c != ' ' then General else h
    case HTransferEncoding => if c != ' ' then General else h
    case HUpgrade => if c != ' ' then General else h
    case _ => h
  }

  predicate FieldCounts(h: HeaderState) {
    h == HC || h == HCO || h == HCON || h == MatchingConnection || h == MatchingProxyConnection ||
    h == MatchingContentLength || h == MatchingTransferEncoding || h == MatchingUpgrade
  }

  function FieldChar(p: Parser, c: Byte): Parser
    requires Token(c) != NUL
  {
    p.(headerState := FieldMatch(p.headerState, p.index, Token(c)),
       index := if FieldCounts(p.headerState) then p.index + 1 else p.index)
  }

  function OnField(p: Parser, c: Byte): Outcome {
    if Token(c) != NUL then Next(FieldChar(p, c), [Data(Field, [c])])
    else if c == ':' then Go(p, HeaderValueDiscardWs)
    else Fail(InvalidHeaderToken)
  }

  // ----- header values -----

  function OnDiscardWs(p: Parser, c: Byte): Outcome {
    if c == ' ' || c == '\t' then Next(p, [])
    else if c == CR then Go(p, HeaderValueDiscardWsAlmostDone)
    else if c == LF then Go(p, HeaderValueDiscardLws)
    else OnValueStart(p, c)
  }

  /** The parser after the first character of a header value; None for a bad Content-Length. */
  function ValueStart(p: Parser, c: Byte): Option<Parser> {
    var q := p.(state := HeaderValue, index := 0);
    match p.headerState
    case HUpgrade => Some(q.(flags := p.flags.(upgrade := true), headerState := General))
    case HTransferEncoding => Some(q.(headerState := if Lower(c) == 'c' then MatchingChunked else General))
    case HContentLength => if IsNum(c) then Some(q.(contentLength := Digit(c))) else None
    case HConnection =>
      Some(q.(headerState :=
        if Lower(c) == 'k' then MatchingKeepAlive else if Lower(c) == 'c' then MatchingClose
        else if Lower(c) == 'u' then MatchingConnUpgrade else MatchingToken))
    case MatchingTokenStart => Some(q)
    case _ => Some(q.(headerState := General))
  }

  function OnValueStart(p: Parser, c: Byte): Outcome {
    match ValueStart(p, c)
    case None => Fail(InvalidContentLength)
    case Some(q) => Next(q, [Data(Value, [c])])
  }

  function FlagFor(f: Flags, h: HeaderState): Flags {
    if h == HKeepAlive then f.(keepAlive := true)
    else if h == HClose then f.(close := true)
    else if h == HConnUpgrade then f.(connUpgrade := true)
    else f
  }

  /** The same, for the end of a header line. */
  function FinalFlagFor(f: Flags, h: HeaderState): Flags {
    if h == HChunked then f.(chunked := true) else FlagFor(f, h)
  }

  /** The parser after one more header value character (neither CR nor LF). */
  function ValueChar(p: Parser, c: Byte): Option<Parser> {
    match p.headerState
    case General => Some(p)
    case HConnection => Some(p)
    case HTransferEncoding => Some(p)
    case HContentLength =>
      if c == ' ' then Some(p)
      else if !IsNum(c) then None
      else if (ULLONG_MAX - 10) / 10 < p.contentLength then None
      else Some(p.(contentLength := (p.contentLength * 10 + Digit(c)) % (ULLONG_MAX + 1)))
    case MatchingChunked =>
      Some(p.(index := p.index + 1,
              headerState := MatchWord("chunked", p.index, Lower(c), MatchingChunked, HChunked, General)))
    case MatchingTokenStart =>
      Some(p.(headerState :=
        if Lower(c) == 'k' then MatchingKeepAlive
        else if Lower(c) == 'c' then MatchingClose
        else if Lower(c) == 'u' then MatchingConnUpgrade
        else if Token(Lower(c)) != NUL then MatchingToken
        else if Lower(c) == ' ' || Lower(c) == '\t' then MatchingTokenStart
        else General))
    case MatchingKeepAlive =>
      Some(p.(index := p.index + 1,
              headerState := MatchWord("keep-alive", p.index, Lower(c), MatchingKeepAlive, HKeepAlive, MatchingToken)))
    case MatchingClose =>
      Some(p.(index := p.index + 1,
              headerState := MatchWord("close", p.index, Lower(c), MatchingClose, HClose, MatchingToken)))
    case MatchingConnUpgrade =>
      Some(p.(index := p.index + 1,
              headerState := MatchWord("upgrade", p.index, Lower(c), MatchingConnUpgrade, HConnUpgrade, MatchingToken)))
    case MatchingToken =>
      if c == ',' then Some(p.(headerState := MatchingTokenStart, index := 0)) else Some(p)
    case HChunked => Some(if c != ' ' then p.(headerState := General) else p)
    case HKeepAlive => Some(AfterConnectionToken(p, c))
    case HClose => Some(AfterConnectionToken(p, c))
    case HConnUpgrade => Some(AfterConnectionToken(p, c))
    case _ => Some(p.(headerState := General))
  }

  function AfterConnectionToken(p: Parser, c: Byte): Parser {
    if c == ',' then p.(flags := FlagFor(p.flags, p.headerState), headerState := MatchingTokenStart, index := 0)
    else if c != ' ' then p.(headerState := MatchingToken)
    else p
  }

  function OnValue(p: Parser, c: Byte): Outcome {
    if c == CR then Go(p, HeaderAlmostDone)
    else if c == LF then Go(p, HeaderValueLws)  // by way of s_header_almost_done
    else match ValueChar(p, c)
      case None => Fail(InvalidContentLength)
      case Some(q) => Next(q, [Data(Value, [c])])
  }

  function OnValueLws(p: Parser, c: Byte, cb: HeadersCallback): Outcome {
    if c == ' ' || c == '\t' then OnValueStart(p, c)
    else OnFieldStart(p.(flags := FinalFlagFor(p.flags, p.headerState), state := HeaderFieldStart), c, cb)
  }

  function OnDiscardLws(p: Parser, c: Byte, cb: HeadersCallback): Outcome {
    if c == ' ' || c == '\t' then Go(p, HeaderValueDiscardWs)
    else After([Data(Value, [])],
               OnFieldStart(p.(flags := FinalFlagFor(p.flags, p.headerState), state := HeaderFieldStart), c, cb))
  }

  // ----- end of the headers, end of the message -----

  function OnMessageDone(p: Parser): Outcome {
    var q := p.(state := NewMessage(p));
    if p.upgrade then Stop(q, [MessageComplete]) else Next(q, [MessageComplete])
  }

  function Completed(p: Parser): Outcome { Next(p.(state := NewMessage(p)), [MessageComplete]) }

  function OnHeadersDone(p: Parser, c: Byte): Outcome {
    if c != LF then Fail(Strict)
    else
      var hasBody := p.flags.chunked || (p.contentLength > 0 && p.contentLength != ULLONG_MAX);
      if p.upgrade && (p.verb == CONNECT || p.flags.skipBody || !hasBody) then
        Stop(p.(state := NewMessage(p)), [MessageComplete])
      else if p.flags.skipBody then Completed(p)
      else if p.flags.chunked then Go(p, ChunkSizeStart)
      else if p.contentLength == 0 then Completed(p)
      else if p.contentLength != ULLONG_MAX then Go(p, BodyIdentity)
      else if !NeedsEof(p) then Completed(p)
      else Go(p, BodyIdentityEof)
  }

  function OnHeadersAlmostDone(p: Parser, c: Byte, cb: HeadersCallback): Outcome {
    if c != LF then Fail(Strict)
    else if p.flags.trailing then After([ChunkComplete], OnMessageDone(p))
    else
      var q := p.(state := HeadersDone,
                  upgrade := (p.flags.upgrade && p.flags.connUpgrade) || p.verb == CONNECT);
      var es := [HeadersComplete(InfoOf(q))];
      match cb(InfoOf(q))
      case Continue => After(es, OnHeadersDone(q, c))
      case SkipBody => After(es, OnHeadersDone(q.(flags := q.flags.(skipBody := true)), c))
      case Abort => Fail(CbHeadersComplete)
  }

  // ----- bodies -----

  function OnBodyIdentity(p: Parser, c: Byte): Outcome {
    if p.contentLength == 0 then Next(p, [])  // excluded by an assertion of the source
    else
      var q := p.(contentLength := p.contentLength - 1);
      if q.contentLength == 0 then After([Data(Body, [c])], OnMessageDone(q.(state := MessageDone)))
      else Next(q, [Data(Body, [c])])
  }

  function OnChunkSizeStart(p: Parser, c: Byte): Outcome {
    if Unhex(c) == -1 then Fail(InvalidChunkSize)
    else Next(p.(contentLength := Unhex(c), state := ChunkSize), [])
  }

  function OnChunkSize(p: Parser, c: Byte): Outcome {
    if c == CR then Go(p, ChunkSizeAlmostDone)
    else if Unhex(c) == -1 then
      if c == ';' || c == ' ' then Go(p, ChunkParameters) else Fail(InvalidChunkSize)
    else if (ULLONG_MAX - 16) / 16 < p.contentLength then Fail(InvalidContentLength)
    else Next(p.(contentLength := (p.contentLength * 16 + Unhex(c)) % (ULLONG_MAX + 1)), [])
  }

  function OnChunkSizeAlmostDone(p: Parser, c: Byte): Outcome {
    if c != LF then Fail(Strict)
    else
      if p.contentLength == 0
      then Next(p.(flags := p.flags.(trailing := true), state := HeaderFieldStart), [ChunkHeader(0)])
      else Next(p.(state := ChunkData), [ChunkHeader(p.contentLength)])
  }

  function OnChunkData(p: Parser, c: Byte): Outcome {
    if p.contentLength == 0 then Next(p, [])  // excluded by an assertion of the source
    else
      var q := p.(contentLength := p.contentLength - 1);
      Next(if q.contentLength == 0 then q.(state := ChunkDataAlmostDone) else q, [Data(Body, [c])])
  }

  function OnChunkDataDone(p: Parser, c: Byte): Outcome {
    if c != LF then Fail(Strict) else Next(p.(state := ChunkSizeStart), [ChunkComplete])
  }

  // ----- the switch, group by group -----

  function StepStart(p: Parser, c: Byte): Outcome {
    match p.state
    case Dead => if c == CR || c == LF then Next(p, []) else Fail(ClosedConnection)
    case StartReqOrRes =>
      if c == CR || c == LF then Next(p, [])
      else
        var q := p.(flags := NO_FLAGS, contentLength := ULLONG_MAX);
        if c == 'H' then Next(q.(state := ResOrRespH), [MessageBegin])
        else OnStartReq(q.(kind := Request, state := StartReq), c)
    case ResOrRespH =>
      if c == 'T' then Go(p.(kind := Response), ResHT)
      else if c != 'E' then Fail(InvalidConstant)
      else Go(p.(kind := Request, verb := HEAD, index := 2), ReqMethod)
    case _ => Next(p, [])
  }

  function StepStatusLine(p: Parser, c: Byte): Outcome {
    match p.state
    case StartRes => OnStartRes(p, c)
    case ResH => Expect(p, c, 'T', ResHT)
    case ResHT => Expect(p, c, 'T', ResHTT)
    case ResHTT => Expect(p, c, 'P', ResHTTP)
    case ResHTTP => Expect(p, c, '/', ResFirstHttpMajor)
    case ResFirstHttpMajor =>
      if !IsNum(c) then Fail(InvalidVersion) else Go(p.(major := Digit(c)), ResHttpMajor)
    case ResHttpMajor => OnMajor(p, c, ResFirstHttpMinor)
    case ResFirstHttpMinor =>
      if !IsNum(c) then Fail(InvalidVersion) else Go(p.(minor := Digit(c)), ResHttpMinor)
    case ResHttpMinor => if c == ' ' then Go(p, ResFirstStatusCode) else OnMinorDigit(p, c)
    case ResFirstStatusCode =>
      if IsNum(c) then Go(p.(status := Digit(c)), ResStatusCode)
      else if c == ' ' then Next(p, []) else Fail(InvalidStatus)
    case ResStatusCode => OnStatusCode(p, c)
    case ResLineAlmostDone => Expect(p, c, LF, HeaderFieldStart)
    case _ => OnStatus(p, c)
  }

  function StepRequestLine(p: Parser, c: Byte): Outcome {
    match p.state
    case StartReq => OnStartReq(p, c)
    case ReqMethod => OnMethod(p, c)
    case ReqSpacesBeforeUrl => OnSpacesBeforeUrl(p, c)
    case ReqHttpStart =>
      if c == 'H' then Go(p, ReqHttpH) else if c == ' ' then Next(p, []) else Fail(InvalidConstant)
    case ReqHttpH => Expect(p, c, 'T', ReqHttpHT)
    case ReqHttpHT => Expect(p, c, 'T', ReqHttpHTT)
    case ReqHttpHTT => Expect(p, c, 'P', ReqHttpHTTP)
    case ReqHttpHTTP => Expect(p, c, '/', ReqFirstHttpMajor)
    case ReqFirstHttpMajor =>
      if c < '1' || c > '9' then Fail(InvalidVersion) else Go(p.(major := Digit(c)), ReqHttpMajor)
    case ReqHttpMajor => OnMajor(p, c, ReqFirstHttpMinor)
    case ReqFirstHttpMinor =>
      if !IsNum(c) then Fail(InvalidVersion) else Go(p.(minor := Digit(c)), ReqHttpMinor)
    case ReqHttpMinor =>
      if c == CR then Go(p, ReqLineAlmostDone) else if c == LF then Go(p, HeaderFieldStart) else OnMinorDigit(p, c)
    case ReqLineAlmostDone => if c != LF then Fail(LfExpected) else Go(p, HeaderFieldStart)
    case _ => OnUrl(p, c)
  }

  function StepHeader(p: Parser, c: Byte, cb: HeadersCallback): Outcome {
    match p.state
    case HeaderFieldStart => OnFieldStart(p, c, cb)
    case HeaderField => OnField(p, c)
    case HeaderValueDiscardWs => OnDiscardWs(p, c)
    case HeaderValueDiscardWsAlmostDone => Expect(p, c, LF, HeaderValueDiscardLws)
    case HeaderValueDiscardLws => OnDiscardLws(p, c, cb)
    case HeaderValueStart => OnValueStart(p, c)
    case HeaderValue => OnValue(p, c)
    case HeaderValueLws => OnValueLws(p, c, cb)
    case HeaderAlmostDone => Expect(p, c, LF, HeaderValueLws)
    case HeadersAlmostDone => OnHeadersAlmostDone(p, c, cb)
    case _ => OnHeadersDone(p, c)
  }

  function StepBody(p: Parser, c: Byte): Outcome {
    match p.state
    case ChunkSizeStart => OnChunkSizeStart(p, c)
    case ChunkSize => OnChunkSize(p, c)
    case ChunkParameters => if c == CR then Go(p, ChunkSizeAlmostDone) else Next(p, [])
    case ChunkSizeAlmostDone => OnChunkSizeAlmostDone(p, c)
    case ChunkData => OnChunkData(p, c)
    case ChunkDataAlmostDone => Expect(p, c, CR, ChunkDataDone)
    case ChunkDataDone => OnChunkDataDone(p, c)
    case BodyIdentity => OnBodyIdentity(p, c)
    case BodyIdentityEof => Next(p, [Data(Body, [c])])
    case _ => OnMessageDone(p)
  }

  /** One byte: the switch at `reexecute`, jumps back to it included. */
  function Step(p: Parser, c: Byte, cb: HeadersCallback): Outcome {
    if InRequestLine(p.state) then StepRequestLine(p, c)
    else if InHeader(p.state) then StepHeader(p, c, cb)
    else if InBody(p.state) then StepBody(p, c)
    else if InStatusLine(p.state) then StepStatusLine(p, c)
    else StepStart(p, c)
  }

  /** Does this byte take the parser through one of the places that set nread to 0? */
  predicate ResetsCount(p: Parser, c: Byte) {
    && c == LF
    && (p.state == ChunkSizeAlmostDone || p.state == ChunkDataDone || p.state == HeadersDone ||
        (!p.flags.trailing &&
         (p.state == HeadersAlmostDone || p.state == HeaderFieldStart || p.state == HeaderValueLws ||
          p.state == HeaderValueDiscardLws)))
  }

  /** nread after one byte that does not fail. */
  function Count(p: Parser, c: Byte, nread: nat): nat {
    if ResetsCount(p, c) then 0 else if ParsingHeader(p.state) then nread + 1 else nread
  }

  // ----- the machine -----

  function Http(cb: HeadersCallback): Machine { (p: Parser, c: Byte) => Step(p, c, cb) }

  /** f is the HTTP machine; said this way, a step is only looked into where a proof mentions it. */
  ghost predicate IsHttp(f: Machine, cb: HeadersCallback) {
    forall p: Parser, c: Byte {:trigger Step(p, c, cb)} :: f(p, c) == Step(p, c, cb)
  }

  lemma HttpIsHttp(cb: HeadersCallback)
    ensures IsHttp(Http(cb), cb)
  {
    hide Step;
  }

  const COUNT: Tally := (p: Parser, c: Byte, n: nat) => Count(p, c, n)
}
