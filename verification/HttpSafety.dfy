/** What every byte keeps: the assertions of http_parser_execute hold, matchers stay inside their words,
    and body lengths stay inside 64 bits and below the sentinel. */
module HttpSafety {
  import opened HttpTypes
  import opened HttpStep
  import opened Streaming

  predicate FieldState(h: HeaderState) {
    h == General || FieldCounts(h) || h == HConnection || h == HContentLength || h == HTransferEncoding || h == HUpgrade
  }

  predicate ValueState(h: HeaderState) {
    h == General || h == HContentLength || h == MatchingChunked || h == MatchingTokenStart ||
    h == MatchingKeepAlive || h == MatchingClose || h == MatchingConnUpgrade || h == MatchingToken ||
    h == HChunked || h == HKeepAlive || h == HClose || h == HConnUpgrade
  }

  /** The matchers: the header state is one the loop knows and the index is inside the word being matched. */
  predicate WordsFit(p: Parser) {
    && (p.state == HeaderField ==> FieldState(p.headerState) && FieldIndexFits(p.headerState, p.index))
    && (p.state == HeaderValue ==> ValueState(p.headerState) && ValueIndexFits(p.headerState, p.index))
    && (p.state == ReqMethod ==> 1 <= p.index <= |MethodString(p.verb)|)
  }

  /** The bounds are the lengths of the words. */
  predicate FieldIndexFits(h: HeaderState, index: nat) {
    match h
    case HC => index == 0
    case HCO => index == 1
    case HCON => index == 2
    case MatchingConnection => index < 10
    case MatchingProxyConnection => index < 16
    case MatchingContentLength => index < 14
    case MatchingTransferEncoding => index < 17
    case MatchingUpgrade => index < 7
    case _ => true
  }

  predicate ValueIndexFits(h: HeaderState, index: nat) {
    match h
    case MatchingChunked => index < 7
    case MatchingTokenStart => index == 0
    case MatchingKeepAlive => index < 10
    case MatchingClose => index < 5
    case MatchingConnUpgrade => index < 7
    case _ => true
  }

  /** The lengths: asserted in the chunk and body states, and never the ULLONG_MAX sentinel there. */
  predicate BodyFits(p: Parser) {
    && p.contentLength <= ULLONG_MAX
    && (InChunks(p.state) ==> p.flags.chunked)
    && (p.state == ChunkData || p.state == BodyIdentity ==> 0 < p.contentLength)
    && ((p.state == ChunkData || p.state == BodyIdentity || p.state == ChunkSize || p.state == ChunkParameters ||
        p.state == ChunkSizeAlmostDone) ==> p.contentLength < ULLONG_MAX)
    && (p.state == ChunkDataAlmostDone ==> p.contentLength == 0)
  }

  lemma StartReqWordsFit(p: Parser, c: Byte)
    requires WordsFit(p) && (p.state == StartReq || p.state == StartReqOrRes)
    ensures !OnStartReq(p, c).Fail? ==> WordsFit(OnStartReq(p, c).p)
  {
  }

  lemma StartResWordsFit(p: Parser, c: Byte)
    requires WordsFit(p) && p.state == StartRes
    ensures !OnStartRes(p, c).Fail? ==> WordsFit(OnStartRes(p, c).p)
  {
  }

  lemma MethodWordsFit(p: Parser, c: Byte)
    requires WordsFit(p) && p.state == ReqMethod
    ensures !OnMethod(p, c).Fail? ==> WordsFit(OnMethod(p, c).p)
  {
  }

  lemma UrlWordsFit(p: Parser, c: Byte)
    requires WordsFit(p) && InUrl(p.state)
    ensures !OnUrl(p, c).Fail? ==> WordsFit(OnUrl(p, c).p)
  {
  }

  lemma SpacesBeforeUrlWordsFit(p: Parser, c: Byte)
    requires WordsFit(p) && p.state == ReqSpacesBeforeUrl
    ensures !OnSpacesBeforeUrl(p, c).Fail? ==> WordsFit(OnSpacesBeforeUrl(p, c).p)
  {
  }

  lemma StatusWordsFit(p: Parser, c: Byte)
    requires WordsFit(p) && (p.state == ResStatus || p.state == ResStatusStart)
    ensures !OnStatus(p, c).Fail? ==> WordsFit(OnStatus(p, c).p)
  {
  }

  lemma HeadersDoneWordsFit(p: Parser, c: Byte)
    requires WordsFit(p) && p.state == HeadersDone
    ensures !OnHeadersDone(p, c).Fail? ==> WordsFit(OnHeadersDone(p, c).p)
  {
    hide NeedsEof;
  }

  lemma AlmostDoneWordsFit(p: Parser, c: Byte, cb: HeadersCallback)
    requires WordsFit(p)
    ensures !OnHeadersAlmostDone(p, c, cb).Fail? ==> WordsFit(OnHeadersAlmostDone(p, c, cb).p)
  {
    hide OnHeadersDone, WordsFit;
    var q := p.(state := HeadersDone, upgrade := (p.flags.upgrade && p.flags.connUpgrade) || p.verb == CONNECT);
    AtHeadersDoneWordsFit(p, q);
    HeadersDoneWordsFit(q, c);
    HeadersDoneWordsFit(q.(flags := q.flags.(skipBody := true)), c);
    MessageDoneWordsFit(p);
  }

  lemma AtHeadersDoneWordsFit(p: Parser, q: Parser)
    requires WordsFit(p) && q.state == HeadersDone && q.contentLength == p.contentLength
    ensures WordsFit(q) && WordsFit(q.(flags := q.flags.(skipBody := true)))
  {
  }

  lemma FieldStartWordsFit(p: Parser, c: Byte, cb: HeadersCallback)
    requires WordsFit(p)
    ensures !OnFieldStart(p, c, cb).Fail? ==> WordsFit(OnFieldStart(p, c, cb).p)
  {
    hide OnHeadersAlmostDone;
    AlmostDoneWordsFit(p.(state := HeadersAlmostDone), c, cb);
  }

  lemma FieldWordsFit(p: Parser, c: Byte)
    requires WordsFit(p) && p.state == HeaderField
    ensures !OnField(p, c).Fail? ==> WordsFit(OnField(p, c).p)
  {
  }

  lemma ValueStartWordsFit(p: Parser, c: Byte)
    requires WordsFit(p)
    ensures !OnValueStart(p, c).Fail? ==> WordsFit(OnValueStart(p, c).p)
  {
  }

  lemma ValueWordsFit(p: Parser, c: Byte)
    requires WordsFit(p) && p.state == HeaderValue
    ensures !OnValue(p, c).Fail? ==> WordsFit(OnValue(p, c).p)
  {
  }

  lemma ChunkSizeWordsFit(p: Parser, c: Byte)
    requires WordsFit(p) && p.state == ChunkSize
    ensures !OnChunkSize(p, c).Fail? ==> WordsFit(OnChunkSize(p, c).p)
  {
  }

  lemma ChunkDataWordsFit(p: Parser, c: Byte)
    requires WordsFit(p) && p.state == ChunkData
    ensures !OnChunkData(p, c).Fail? ==> WordsFit(OnChunkData(p, c).p)
  {
  }

  lemma BodyWordsFit(p: Parser, c: Byte)
    requires WordsFit(p) && p.state == BodyIdentity
    ensures !OnBodyIdentity(p, c).Fail? ==> WordsFit(OnBodyIdentity(p, c).p)
  {
  }

  lemma StartReqBodyFits(p: Parser, c: Byte)
    requires BodyFits(p) && (p.state == StartReq || p.state == StartReqOrRes)
    ensures !OnStartReq(p, c).Fail? ==> BodyFits(OnStartReq(p, c).p)
  {
  }

  lemma StartResBodyFits(p: Parser, c: Byte)
    requires BodyFits(p) && p.state == StartRes
    ensures !OnStartRes(p, c).Fail? ==> BodyFits(OnStartRes(p, c).p)
  {
  }

  lemma MethodBodyFits(p: Parser, c: Byte)
    requires BodyFits(p) && p.state == ReqMethod
    ensures !OnMethod(p, c).Fail? ==> BodyFits(OnMethod(p, c).p)
  {
  }

  lemma UrlBodyFits(p: Parser, c: Byte)
    requires BodyFits(p) && InUrl(p.state)
    ensures !OnUrl(p, c).Fail? ==> BodyFits(OnUrl(p, c).p)
  {
  }

  lemma SpacesBeforeUrlBodyFits(p: Parser, c: Byte)
    requires BodyFits(p) && p.state == ReqSpacesBeforeUrl
    ensures !OnSpacesBeforeUrl(p, c).Fail? ==> BodyFits(OnSpacesBeforeUrl(p, c).p)
  {
  }

  lemma StatusBodyFits(p: Parser, c: Byte)
    requires BodyFits(p) && (p.state == ResStatus || p.state == ResStatusStart)
    ensures !OnStatus(p, c).Fail? ==> BodyFits(OnStatus(p, c).p)
  {
  }

  lemma HeadersDoneBodyFits(p: Parser, c: Byte)
    requires BodyFits(p) && p.state == HeadersDone
    ensures !OnHeadersDone(p, c).Fail? ==> BodyFits(OnHeadersDone(p, c).p)
  {
    hide NeedsEof;
  }

  lemma AlmostDoneBodyFits(p: Parser, c: Byte, cb: HeadersCallback)
    requires BodyFits(p)
    ensures !OnHeadersAlmostDone(p, c, cb).Fail? ==> BodyFits(OnHeadersAlmostDone(p, c, cb).p)
  {
    hide OnHeadersDone, BodyFits;
    var q := p.(state := HeadersDone, upgrade := (p.flags.upgrade && p.flags.connUpgrade) || p.verb == CONNECT);
    AtHeadersDoneBodyFits(p, q);
    HeadersDoneBodyFits(q, c);
    HeadersDoneBodyFits(q.(flags := q.flags.(skipBody := true)), c);
    MessageDoneBodyFits(p);
  }

  lemma AtHeadersDoneBodyFits(p: Parser, q: Parser)
    requires BodyFits(p) && q.state == HeadersDone && q.contentLength == p.contentLength
    ensures BodyFits(q) && BodyFits(q.(flags := q.flags.(skipBody := true)))
  {
  }

  lemma FieldStartBodyFits(p: Parser, c: Byte, cb: HeadersCallback)
    requires BodyFits(p)
    ensures !OnFieldStart(p, c, cb).Fail? ==> BodyFits(OnFieldStart(p, c, cb).p)
  {
    hide OnHeadersAlmostDone;
    AlmostDoneBodyFits(p.(state := HeadersAlmostDone), c, cb);
  }

  lemma FieldBodyFits(p: Parser, c: Byte)
    requires BodyFits(p) && p.state == HeaderField
    ensures !OnField(p, c).Fail? ==> BodyFits(OnField(p, c).p)
  {
  }

  lemma ValueStartBodyFits(p: Parser, c: Byte)
    requires BodyFits(p)
    ensures !OnValueStart(p, c).Fail? ==> BodyFits(OnValueStart(p, c).p)
  {
  }

  lemma ValueBodyFits(p: Parser, c: Byte)
    requires BodyFits(p) && p.state == HeaderValue
    ensures !OnValue(p, c).Fail? ==> BodyFits(OnValue(p, c).p)
  {
  }

  lemma ChunkSizeBodyFits(p: Parser, c: Byte)
    requires BodyFits(p) && p.state == ChunkSize
    ensures !OnChunkSize(p, c).Fail? ==> BodyFits(OnChunkSize(p, c).p)
  {
  }

  lemma ChunkDataBodyFits(p: Parser, c: Byte)
    requires BodyFits(p) && p.state == ChunkData
    ensures !OnChunkData(p, c).Fail? ==> BodyFits(OnChunkData(p, c).p)
  {
  }

  lemma BodyBodyFits(p: Parser, c: Byte)
    requires BodyFits(p) && p.state == BodyIdentity
    ensures !OnBodyIdentity(p, c).Fail? ==> BodyFits(OnBodyIdentity(p, c).p)
  {
  }


  lemma StepStatusLineWordsFit(p: Parser, c: Byte)
    requires WordsFit(p) && InStatusLine(p.state)
    ensures !StepStatusLine(p, c).Fail? ==> WordsFit(StepStatusLine(p, c).p)
  {
    hide OnStartRes, OnStatus;
    if p.state == StartRes { StartResWordsFit(p, c); }
    else if p.state == ResStatus || p.state == ResStatusStart { StatusWordsFit(p, c); }
  }

  lemma ResOrReqWordsFit(p: Parser, c: Byte)
    requires WordsFit(p) && p.state == ResOrRespH
    ensures !StepStart(p, c).Fail? ==> WordsFit(StepStart(p, c).p)
  {
    hide OnStartReq;
  }

  lemma StartReqOrResWordsFit(p: Parser, c: Byte)
    requires WordsFit(p) && p.state == StartReqOrRes
    ensures !StepStart(p, c).Fail? ==> WordsFit(StepStart(p, c).p)
  {
    hide OnStartReq;
    StartReqWordsFit(p.(flags := NO_FLAGS, contentLength := ULLONG_MAX, kind := Request, state := StartReq), c);
  }

  lemma StepStartWordsFit(p: Parser, c: Byte)
    requires WordsFit(p) && !InRequestLine(p.state)
    ensures !StepStart(p, c).Fail? ==> WordsFit(StepStart(p, c).p)
  {
    hide OnStartReq, WordsFit, InRequestLine;
    if p.state == StartReqOrRes { StartReqOrResWordsFit(p, c); }
    else if p.state == ResOrRespH { ResOrReqWordsFit(p, c); }
  }

  predicate InVersion(s: State) {
    s == ReqHttpStart || s == ReqHttpH || s == ReqHttpHT || s == ReqHttpHTT || s == ReqHttpHTTP || s == ReqFirstHttpMajor ||
    s == ReqHttpMajor || s == ReqFirstHttpMinor || s == ReqHttpMinor || s == ReqLineAlmostDone
  }

  lemma VersionWordsFit(p: Parser, c: Byte)
    requires WordsFit(p) && InVersion(p.state)
    ensures !StepRequestLine(p, c).Fail? ==> WordsFit(StepRequestLine(p, c).p)
  {
    hide OnStartReq, OnMethod, OnSpacesBeforeUrl, OnUrl;
  }

  lemma StepRequestLineWordsFit(p: Parser, c: Byte)
    requires WordsFit(p) && InRequestLine(p.state)
    ensures !StepRequestLine(p, c).Fail? ==> WordsFit(StepRequestLine(p, c).p)
  {
    hide OnStartReq, OnMethod, OnSpacesBeforeUrl, OnUrl, WordsFit;
    if InVersion(p.state) { hide StepRequestLine; VersionWordsFit(p, c); }
    else if p.state == StartReq { StartReqWordsFit(p, c); }
    else if p.state == ReqMethod { MethodWordsFit(p, c); }
    else if p.state == ReqSpacesBeforeUrl { SpacesBeforeUrlWordsFit(p, c); }
    else { UrlWordsFit(p, c); }
  }

  lemma LinesWordsFit(p: Parser, c: Byte, cb: HeadersCallback)
    requires WordsFit(p)
    ensures !OnDiscardWs(p, c).Fail? ==> WordsFit(OnDiscardWs(p, c).p)
    ensures !OnDiscardLws(p, c, cb).Fail? ==> WordsFit(OnDiscardLws(p, c, cb).p)
    ensures !OnValueLws(p, c, cb).Fail? ==> WordsFit(OnValueLws(p, c, cb).p)
  {
    hide OnFieldStart, OnValueStart, FinalFlagFor;
    FieldStartWordsFit(p.(flags := FinalFlagFor(p.flags, p.headerState), state := HeaderFieldStart), c, cb);
    ValueStartWordsFit(p, c);
  }

  lemma StepHeaderWordsFit(p: Parser, c: Byte, cb: HeadersCallback)
    requires WordsFit(p) && InHeader(p.state)
    ensures !StepHeader(p, c, cb).Fail? ==> WordsFit(StepHeader(p, c, cb).p)
  {
    hide OnHeadersDone, OnHeadersAlmostDone, OnFieldStart, OnField, OnValueStart, OnValue, OnDiscardWs, OnDiscardLws, OnValueLws;
    if p.state == HeaderField { FieldWordsFit(p, c); }
    else if p.state == HeaderValue { ValueWordsFit(p, c); }
    else if p.state == HeaderFieldStart { FieldStartWordsFit(p, c, cb); }
    else if p.state == HeadersAlmostDone { AlmostDoneWordsFit(p, c, cb); }
    else if p.state == HeaderValueStart { ValueStartWordsFit(p, c); }
    else if p.state == HeadersDone { HeadersDoneWordsFit(p, c); }
    else { LinesWordsFit(p, c, cb); }
  }

  lemma ChunkLinesWordsFit(p: Parser, c: Byte)
    requires WordsFit(p)
    ensures p.state == ChunkSizeStart && !OnChunkSizeStart(p, c).Fail? ==> WordsFit(OnChunkSizeStart(p, c).p)
    ensures p.state == ChunkSizeAlmostDone && !OnChunkSizeAlmostDone(p, c).Fail? ==> WordsFit(OnChunkSizeAlmostDone(p, c).p)
    ensures p.state == ChunkDataDone && !OnChunkDataDone(p, c).Fail? ==> WordsFit(OnChunkDataDone(p, c).p)
  {
  }

  lemma MessageDoneWordsFit(p: Parser)
    requires WordsFit(p)
    ensures !OnMessageDone(p).Fail? && WordsFit(OnMessageDone(p).p)
  {
  }

  lemma ChunkPartsWordsFit(p: Parser, c: Byte)
    requires WordsFit(p) && (p.state == ChunkParameters || p.state == ChunkDataAlmostDone || p.state == BodyIdentityEof)
    ensures !StepBody(p, c).Fail? ==> WordsFit(StepBody(p, c).p)
  {
    hide OnMessageDone, OnChunkSize, OnChunkData, OnBodyIdentity, OnChunkSizeStart, OnChunkSizeAlmostDone, OnChunkDataDone;
  }

  lemma StepBodyWordsFit(p: Parser, c: Byte)
    requires WordsFit(p) && InBody(p.state)
    ensures !StepBody(p, c).Fail? ==> WordsFit(StepBody(p, c).p)
  {
    hide WordsFit, OnMessageDone, OnChunkSize, OnChunkData, OnBodyIdentity, OnChunkSizeStart, OnChunkSizeAlmostDone, OnChunkDataDone;
    if p.state == ChunkSize { ChunkSizeWordsFit(p, c); }
    else if p.state == ChunkData { ChunkDataWordsFit(p, c); }
    else if p.state == BodyIdentity { BodyWordsFit(p, c); }
    else if p.state == ChunkParameters || p.state == ChunkDataAlmostDone || p.state == BodyIdentityEof { ChunkPartsWordsFit(p, c); }
    else { ChunkLinesWordsFit(p, c); MessageDoneWordsFit(p); }
  }

  lemma StepWordsFit(p: Parser, c: Byte, cb: HeadersCallback)
    requires WordsFit(p)
    ensures !Step(p, c, cb).Fail? ==> WordsFit(Step(p, c, cb).p)
  {
    hide StepRequestLine, StepHeader, StepBody, StepStatusLine, StepStart, WordsFit;
    if InRequestLine(p.state) { StepRequestLineWordsFit(p, c); }
    else if InHeader(p.state) { StepHeaderWordsFit(p, c, cb); }
    else if InBody(p.state) { StepBodyWordsFit(p, c); }
    else if InStatusLine(p.state) { StepStatusLineWordsFit(p, c); }
    else { StepStartWordsFit(p, c); }
  }

  lemma StepStatusLineBodyFits(p: Parser, c: Byte)
    requires BodyFits(p) && InStatusLine(p.state)
    ensures !StepStatusLine(p, c).Fail? ==> BodyFits(StepStatusLine(p, c).p)
  {
    hide OnStartRes, OnStatus;
    if p.state == StartRes { StartResBodyFits(p, c); }
    else if p.state == ResStatus || p.state == ResStatusStart { StatusBodyFits(p, c); }
  }

  lemma ResOrReqBodyFits(p: Parser, c: Byte)
    requires BodyFits(p) && p.state == ResOrRespH
    ensures !StepStart(p, c).Fail? ==> BodyFits(StepStart(p, c).p)
  {
    hide OnStartReq;
  }

  lemma StartReqOrResBodyFits(p: Parser, c: Byte)
    requires BodyFits(p) && p.state == StartReqOrRes
    ensures !StepStart(p, c).Fail? ==> BodyFits(StepStart(p, c).p)
  {
    hide OnStartReq;
    StartReqBodyFits(p.(flags := NO_FLAGS, contentLength := ULLONG_MAX, kind := Request, state := StartReq), c);
  }

  lemma StepStartBodyFits(p: Parser, c: Byte)
    requires BodyFits(p) && !InRequestLine(p.state)
    ensures !StepStart(p, c).Fail? ==> BodyFits(StepStart(p, c).p)
  {
    hide OnStartReq, BodyFits, InRequestLine;
    if p.state == StartReqOrRes { StartReqOrResBodyFits(p, c); }
    else if p.state == ResOrRespH { ResOrReqBodyFits(p, c); }
  }

  lemma VersionBodyFits(p: Parser, c: Byte)
    requires BodyFits(p) && InVersion(p.state)
    ensures !StepRequestLine(p, c).Fail? ==> BodyFits(StepRequestLine(p, c).p)
  {
    hide OnStartReq, OnMethod, OnSpacesBeforeUrl, OnUrl;
  }

  lemma StepRequestLineBodyFits(p: Parser, c: Byte)
    requires BodyFits(p) && InRequestLine(p.state)
    ensures !StepRequestLine(p, c).Fail? ==> BodyFits(StepRequestLine(p, c).p)
  {
    hide OnStartReq, OnMethod, OnSpacesBeforeUrl, OnUrl, BodyFits;
    if InVersion(p.state) { hide StepRequestLine; VersionBodyFits(p, c); }
    else if p.state == StartReq { StartReqBodyFits(p, c); }
    else if p.state == ReqMethod { MethodBodyFits(p, c); }
    else if p.state == ReqSpacesBeforeUrl { SpacesBeforeUrlBodyFits(p, c); }
    else { UrlBodyFits(p, c); }
  }

  lemma LinesBodyFits(p: Parser, c: Byte, cb: HeadersCallback)
    requires BodyFits(p)
    ensures !OnDiscardWs(p, c).Fail? ==> BodyFits(OnDiscardWs(p, c).p)
    ensures !OnDiscardLws(p, c, cb).Fail? ==> BodyFits(OnDiscardLws(p, c, cb).p)
    ensures !OnValueLws(p, c, cb).Fail? ==> BodyFits(OnValueLws(p, c, cb).p)
  {
    hide OnFieldStart, OnValueStart, FinalFlagFor;
    FieldStartBodyFits(p.(flags := FinalFlagFor(p.flags, p.headerState), state := HeaderFieldStart), c, cb);
    ValueStartBodyFits(p, c);
  }

  lemma StepHeaderBodyFits(p: Parser, c: Byte, cb: HeadersCallback)
    requires BodyFits(p) && InHeader(p.state)
    ensures !StepHeader(p, c, cb).Fail? ==> BodyFits(StepHeader(p, c, cb).p)
  {
    hide OnHeadersDone, OnHeadersAlmostDone, OnFieldStart, OnField, OnValueStart, OnValue, OnDiscardWs, OnDiscardLws, OnValueLws;
    if p.state == HeaderField { FieldBodyFits(p, c); }
    else if p.state == HeaderValue { ValueBodyFits(p, c); }
    else if p.state == HeaderFieldStart { FieldStartBodyFits(p, c, cb); }
    else if p.state == HeadersAlmostDone { AlmostDoneBodyFits(p, c, cb); }
    else if p.state == HeaderValueStart { ValueStartBodyFits(p, c); }
    else if p.state == HeadersDone { HeadersDoneBodyFits(p, c); }
    else { LinesBodyFits(p, c, cb); }
  }

  lemma ChunkLinesBodyFits(p: Parser, c: Byte)
    requires BodyFits(p)
    ensures p.state == ChunkSizeStart && !OnChunkSizeStart(p, c).Fail? ==> BodyFits(OnChunkSizeStart(p, c).p)
    ensures p.state == ChunkSizeAlmostDone && !OnChunkSizeAlmostDone(p, c).Fail? ==> BodyFits(OnChunkSizeAlmostDone(p, c).p)
    ensures p.state == ChunkDataDone && !OnChunkDataDone(p, c).Fail? ==> BodyFits(OnChunkDataDone(p, c).p)
  {
  }

  lemma MessageDoneBodyFits(p: Parser)
    requires BodyFits(p)
    ensures !OnMessageDone(p).Fail? && BodyFits(OnMessageDone(p).p)
  {
  }

  lemma ChunkPartsBodyFits(p: Parser, c: Byte)
    requires BodyFits(p) && (p.state == ChunkParameters || p.state == ChunkDataAlmostDone || p.state == BodyIdentityEof)
    ensures !StepBody(p, c).Fail? ==> BodyFits(StepBody(p, c).p)
  {
    hide OnMessageDone, OnChunkSize, OnChunkData, OnBodyIdentity, OnChunkSizeStart, OnChunkSizeAlmostDone, OnChunkDataDone;
  }

  lemma StepBodyBodyFits(p: Parser, c: Byte)
    requires BodyFits(p) && InBody(p.state)
    ensures !StepBody(p, c).Fail? ==> BodyFits(StepBody(p, c).p)
  {
    hide BodyFits, OnMessageDone, OnChunkSize, OnChunkData, OnBodyIdentity, OnChunkSizeStart, OnChunkSizeAlmostDone, OnChunkDataDone;
    if p.state == ChunkSize { ChunkSizeBodyFits(p, c); }
    else if p.state == ChunkData { ChunkDataBodyFits(p, c); }
    else if p.state == BodyIdentity { BodyBodyFits(p, c); }
    else if p.state == ChunkParameters || p.state == ChunkDataAlmostDone || p.state == BodyIdentityEof { ChunkPartsBodyFits(p, c); }
    else { ChunkLinesBodyFits(p, c); MessageDoneBodyFits(p); }
  }

  lemma StepBodyFits(p: Parser, c: Byte, cb: HeadersCallback)
    requires BodyFits(p)
    ensures !Step(p, c, cb).Fail? ==> BodyFits(Step(p, c, cb).p)
  {
    hide StepRequestLine, StepHeader, StepBody, StepStatusLine, StepStart, BodyFits;
    if InRequestLine(p.state) { StepRequestLineBodyFits(p, c); }
    else if InHeader(p.state) { StepHeaderBodyFits(p, c, cb); }
    else if InBody(p.state) { StepBodyBodyFits(p, c); }
    else if InStatusLine(p.state) { StepStatusLineBodyFits(p, c); }
    else { StepStartBodyFits(p, c); }
  }

  /** Over whole runs. */
  lemma {:induction false} RunFits(f: Machine, cb: HeadersCallback, p: Parser, out: seq<Event>, data: Bytes)
    requires IsHttp(f, cb)
    ensures var r := Run(f, p, out, data);
            (WordsFit(p) && !r.Failed? ==> WordsFit(r.p)) && (BodyFits(p) && !r.Failed? ==> BodyFits(r.p))
  {
    hide Step, WordsFit, BodyFits, PushAll;
    if data != [] {
      RunFits(f, cb, p, out, data[..|data| - 1]);
      var r := Run(f, p, out, data[..|data| - 1]);
      if r.Running? {
        var c := data[|data| - 1];
        assert f(r.p, c) == Step(r.p, c, cb);
        if WordsFit(r.p) { StepWordsFit(r.p, c, cb); }
        if BodyFits(r.p) { StepBodyFits(r.p, c, cb); }
      }
    }
  }
}
