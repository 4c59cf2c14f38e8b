/** The vocabulary of the HTTP parser: parser record, callbacks, character classes and tables.
    The strict build (HTTP_PARSER_STRICT == 1) is modelled. Bytes are characters below 256. */
module HttpTypes {
  import opened Wrappers

  type Byte = c: char | c as int < 256 witness 'a'
  type Bytes = seq<Byte>

  const CR: Byte := '\r'
  const LF: Byte := '\n'
  const NUL: Byte := '\0'
  const FF: Byte := 12 as char

  const ULLONG_MAX: nat := 0xffff_ffff_ffff_ffff
  const MAX_HEADER_SIZE: nat := 80 * 1024

  datatype Kind = Request | Response | Both

  datatype State =
    | Dead | StartReqOrRes | ResOrRespH
    | StartRes | ResH | ResHT | ResHTT | ResHTTP
    | ResFirstHttpMajor | ResHttpMajor | ResFirstHttpMinor | ResHttpMinor
    | ResFirstStatusCode | ResStatusCode | ResStatusStart | ResStatus | ResLineAlmostDone
    | StartReq | ReqMethod | ReqSpacesBeforeUrl
    | ReqSchema | ReqSchemaSlash | ReqSchemaSlashSlash | ReqServerStart | ReqServer | ReqServerWithAt
    | ReqPath | ReqQueryStringStart | ReqQueryString | ReqFragmentStart | ReqFragment
    | ReqHttpStart | ReqHttpH | ReqHttpHT | ReqHttpHTT | ReqHttpHTTP
    | ReqFirstHttpMajor | ReqHttpMajor | ReqFirstHttpMinor | ReqHttpMinor | ReqLineAlmostDone
    | HeaderFieldStart | HeaderField
    | HeaderValueDiscardWs | HeaderValueDiscardWsAlmostDone | HeaderValueDiscardLws
    | HeaderValueStart | HeaderValue | HeaderValueLws | HeaderAlmostDone
    | ChunkSizeStart | ChunkSize | ChunkParameters | ChunkSizeAlmostDone
    | HeadersAlmostDone | HeadersDone
    | ChunkData | ChunkDataAlmostDone | ChunkDataDone
    | BodyIdentity | BodyIdentityEof | MessageDone

  /** States up to s_headers_done count towards the header size limit. */
  predicate ParsingHeader(s: State) {
    s != ChunkData && s != ChunkDataAlmostDone && s != ChunkDataDone &&
    s != BodyIdentity && s != BodyIdentityEof && s != MessageDone
  }

  /** The states in which a URL is being read (the ones that set url_mark on entry). */
  predicate InUrl(s: State) {
    s == ReqSchema || s == ReqSchemaSlash || s == ReqSchemaSlashSlash || s == ReqServerStart ||
    s == ReqServer || s == ReqServerWithAt || s == ReqPath || s == ReqQueryStringStart ||
    s == ReqQueryString || s == ReqFragmentStart || s == ReqFragment
  }

  /** URL states in which the URL may end. */
  predicate UrlMayEnd(s: State) {
    InUrl(s) && s != ReqSchema && s != ReqSchemaSlash && s != ReqSchemaSlashSlash && s != ReqServerStart
  }

  predicate InStatusLine(s: State) {
    s == StartRes || s == ResH || s == ResHT || s == ResHTT || s == ResHTTP || s == ResFirstHttpMajor ||
    s == ResHttpMajor || s == ResFirstHttpMinor || s == ResHttpMinor || s == ResFirstStatusCode ||
    s == ResStatusCode || s == ResStatusStart || s == ResStatus || s == ResLineAlmostDone
  }

  predicate InRequestLine(s: State) {
    s == StartReq || s == ReqMethod || s == ReqSpacesBeforeUrl || InUrl(s) || s == ReqHttpStart || s == ReqHttpH ||
    s == ReqHttpHT || s == ReqHttpHTT || s == ReqHttpHTTP || s == ReqFirstHttpMajor || s == ReqHttpMajor ||
    s == ReqFirstHttpMinor || s == ReqHttpMinor || s == ReqLineAlmostDone
  }

  predicate InHeader(s: State) {
    s == HeaderFieldStart || s == HeaderField || s == HeaderValueDiscardWs || s == HeaderValueDiscardWsAlmostDone ||
    s == HeaderValueDiscardLws || s == HeaderValueStart || s == HeaderValue || s == HeaderValueLws ||
    s == HeaderAlmostDone || s == HeadersAlmostDone || s == HeadersDone
  }

  predicate InChunks(s: State) {
    s == ChunkSizeStart || s == ChunkSize || s == ChunkParameters || s == ChunkSizeAlmostDone ||
    s == ChunkData || s == ChunkDataAlmostDone || s == ChunkDataDone
  }

  predicate InBody(s: State) {
    InChunks(s) || s == BodyIdentity || s == BodyIdentityEof || s == MessageDone
  }

  datatype HeaderState =
    | General | HC | HCO | HCON
    | MatchingConnection | MatchingProxyConnection | MatchingContentLength
    | MatchingTransferEncoding | MatchingUpgrade
    | HConnection | HContentLength | HTransferEncoding | HUpgrade
    | MatchingChunked | MatchingTokenStart | MatchingKeepAlive | MatchingClose
    | MatchingConnUpgrade | MatchingToken
    | HChunked | HKeepAlive | HClose | HConnUpgrade

  datatype Errno =
    | OK | CbHeadersComplete | InvalidEofState | HeaderOverflow | ClosedConnection | InvalidVersion
    | InvalidStatus | InvalidMethod | InvalidUrl | LfExpected | InvalidHeaderToken
    | InvalidContentLength | InvalidChunkSize | InvalidConstant | Strict

  /** The errors a byte of input can cause. */
  type Failure = e: Errno | e != OK && e != HeaderOverflow && e != InvalidEofState witness Strict

  datatype Method =
    | DELETE | GET | HEAD | POST | PUT | CONNECT | OPTIONS | TRACE | COPY | LOCK | MKCOL | MOVE
    | PROPFIND | PROPPATCH | SEARCH | UNLOCK | BIND | REBIND | UNBIND | ACL | REPORT | MKACTIVITY
    | CHECKOUT | MERGE | MSEARCH | NOTIFY | SUBSCRIBE | UNSUBSCRIBE | PATCH | PURGE | MKCALENDAR
    | LINK | UNLINK

  function MethodString(m: Method): Bytes {
    match m
    case DELETE => "DELETE" case GET => "GET" case HEAD => "HEAD" case POST => "POST"
    case PUT => "PUT" case CONNECT => "CONNECT" case OPTIONS => "OPTIONS" case TRACE => "TRACE"
    case COPY => "COPY" case LOCK => "LOCK" case MKCOL => "MKCOL" case MOVE => "MOVE"
    case PROPFIND => "PROPFIND" case PROPPATCH => "PROPPATCH" case SEARCH => "SEARCH"
    case UNLOCK => "UNLOCK" case BIND => "BIND" case REBIND => "REBIND" case UNBIND => "UNBIND"
    case ACL => "ACL" case REPORT => "REPORT" case MKACTIVITY => "MKACTIVITY"
    case CHECKOUT => "CHECKOUT" case MERGE => "MERGE" case MSEARCH => "M-SEARCH"
    case NOTIFY => "NOTIFY" case SUBSCRIBE => "SUBSCRIBE" case UNSUBSCRIBE => "UNSUBSCRIBE"
    case PATCH => "PATCH" case PURGE => "PURGE" case MKCALENDAR => "MKCALENDAR"
    case LINK => "LINK" case UNLINK => "UNLINK"
  }

  /** Reading a NUL-terminated constant. */
  function At(s: Bytes, i: nat): Byte { if i < |s| then s[i] else NUL }

  datatype Flags = Flags(chunked: bool, keepAlive: bool, close: bool, connUpgrade: bool,
                         trailing: bool, upgrade: bool, skipBody: bool)

  const NO_FLAGS := Flags(false, false, false, false, false, false, false)

  /** struct http_parser without the user's data pointer. Its http_errno and its nread (the header size
      count, which decides nothing but the overflow error) are kept beside it. */
  datatype Parser = Parser(kind: Kind, flags: Flags, state: State, headerState: HeaderState, index: nat,
                           contentLength: nat, major: nat, minor: nat, status: nat,
                           verb: Method, upgrade: bool)

  /** What http_parser_init leaves behind. */
  function Init(kind: Kind): Parser {
    Parser(kind, NO_FLAGS,
           match kind case Request => StartReq case Response => StartRes case Both => StartReqOrRes,
           General, 0, 0, 0, 0, 0, DELETE, false)
  }

  /** The part of the parser a callback may look at; nread is private. */
  datatype Info = Info(kind: Kind, flags: Flags, contentLength: nat, major: nat, minor: nat,
                       status: nat, verb: Method, upgrade: bool)

  function InfoOf(p: Parser): Info {
    Info(p.kind, p.flags, p.contentLength, p.major, p.minor, p.status, p.verb, p.upgrade)
  }

  /** The answer of on_headers_complete: 0, 1, or anything else. */
  datatype Verdict = Continue | SkipBody | Abort
  type HeadersCallback = Info -> Verdict

  datatype DataKind = Url | Status | Field | Value | Body

  datatype Event =
    | MessageBegin
    | HeadersComplete(info: Info)
    | MessageComplete
    | ChunkHeader(size: nat)
    | ChunkComplete
    | Data(kind: DataKind, bytes: Bytes)

  // ----- character classes -----

  /** c | 0x20 */
  function Lower(c: Byte): Byte {
    if (c as int / 32) % 2 == 0 then (c as int + 32) as char else c
  }

  predicate IsAlpha(c: Byte) { 'a' <= Lower(c) <= 'z' }
  predicate IsNum(c: Byte) { '0' <= c <= '9' }
  predicate IsAlphaNum(c: Byte) { IsAlpha(c) || IsNum(c) }
  predicate IsHex(c: Byte) { IsNum(c) || 'a' <= Lower(c) <= 'f' }

  predicate IsMark(c: Byte) {
    c == '-' || c == '_' || c == '.' || c == '!' || c == '~' || c == '*' || c == '\'' || c == '(' || c == ')'
  }

  predicate IsUserinfoChar(c: Byte) {
    IsAlphaNum(c) || IsMark(c) || c == '%' || c == ';' || c == ':' || c == '&' || c == '=' ||
    c == '+' || c == '$' || c == ','
  }

  predicate IsHostChar(c: Byte) { IsAlphaNum(c) || c == '.' || c == '-' }

  /** The normal_url_char bitmap: printable ASCII without space, '#' and '?'. */
  predicate IsUrlChar(c: Byte) { '!' <= c <= '~' && c != '#' && c != '?' }

  predicate IsTokenPunct(c: Byte) {
    c == '!' || c == '#' || c == '$' || c == '%' || c == '&' || c == '\'' || c == '*' || c == '+' ||
    c == '-' || c == '.' || c == '^' || c == '_' || c == '`' || c == '|' || c == '~'
  }

  /** The tokens[] table: the lower-cased token character, or NUL. */
  function Token(c: Byte): Byte {
    if 'A' <= c <= 'Z' then (c as int + 32) as char
    else if 'a' <= c <= 'z' || IsNum(c) || IsTokenPunct(c) then c
    else NUL
  }

  function Digit(c: Byte): nat
    requires IsNum(c)
  {
    c as int - '0' as int
  }

  /** The unhex[] table; the entries above 127 are not initialised and so are 0. */
  function Unhex(c: Byte): (v: int)
    ensures -1 <= v < 16
  {
    if IsNum(c) then c as int - '0' as int
    else if 'A' <= c <= 'F' then c as int - 'A' as int + 10
    else if 'a' <= c <= 'f' then c as int - 'a' as int + 10
    else if c as int >= 128 then 0
    else -1
  }

  // ----- derived facts about a parser -----

  predicate NeedsEof(p: Parser) {
    && p.kind != Request
    && !(p.status / 100 == 1 || p.status == 204 || p.status == 304 || p.flags.skipBody)
    && !(p.flags.chunked || p.contentLength != ULLONG_MAX)
  }

  predicate ShouldKeepAlive(p: Parser) {
    (if p.major > 0 && p.minor > 0 then !p.flags.close else p.flags.keepAlive) && !NeedsEof(p)
  }

  function StartState(p: Parser): State { if p.kind == Request then StartReq else StartRes }

  /** NEW_MESSAGE() of the strict build. */
  function NewMessage(p: Parser): State { if ShouldKeepAlive(p) then StartState(p) else Dead }
}
