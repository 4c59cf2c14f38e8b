/** http_parser_execute: marks, bulk scans and jumps, proved against the one-byte machine. */
module HttpExecute {
  import opened Wrappers
  import opened HttpTypes
  import opened Streaming
  import opened HttpStep
  import opened HttpRun
  import opened HttpSafety

  /** The *_mark pointers that are set, as offsets into the data. */
  type Marks = map<DataKind, nat>

  predicate MarksFit(s: State, marks: Marks, p: nat) {
    && (forall k :: k in marks ==> PendingKind(s) == Some(k) && marks[k] <= p)
    && (MustMark(s) ==> PendingKind(s).value in marks)
  }

  /** The callback stream once the bytes since the mark, up to p, are delivered too. */
  function View(s: State, log: seq<Event>, marks: Marks, data: Bytes, p: nat): seq<Event>
    requires MarksFit(s, marks, p) && p <= |data|
  {
    match PendingKind(s)
    case Some(k) => if k in marks then Push(Norm(log), Data(k, data[marks[k]..p])) else Norm(log)
    case None => Norm(log)
  }

  lemma ViewGrows(s: State, log: seq<Event>, marks: Marks, data: Bytes, p: nat, q: nat, k: DataKind)
    requires p <= q <= |data| && MarksFit(s, marks, p) && PendingKind(s) == Some(k) && k in marks
    ensures View(s, log, marks, data, q) == PushData(View(s, log, marks, data, p), k, data[p..q])
  {
    var m := marks[k];
    assert data[m..q] == data[m..p] + data[p..q];
    if p < q {
      PushMerge(Norm(log), k, data[m..p], data[p..q]);
    } else {
      assert data[p..q] == [];
      assert data[m..q] == data[m..p];
    }
  }

  /** One more byte of a field whose mark is set. */
  lemma FieldGoesOn(s: State, t: State, log: seq<Event>, marks: Marks, data: Bytes, p: nat, k: DataKind)
    requires p < |data| && MarksFit(s, marks, p) && PendingKind(s) == PendingKind(t) == Some(k) && k in marks
    ensures MarksFit(t, marks, p + 1)
    ensures View(t, log, marks, data, p + 1) == PushAll(View(s, log, marks, data, p), [Data(k, [data[p]])])
  {
    hide Push, PushAll, Norm, PendingKind, MustMark;
    ViewGrows(s, log, marks, data, p, p + 1, k);
    assert data[p..p + 1] == [data[p]];
    PushOne(View(s, log, marks, data, p), Data(k, [data[p]]));
  }

  /** The first byte of a field: MARK(k). */
  lemma FieldBegins(t: State, log: seq<Event>, data: Bytes, p: nat, k: DataKind)
    requires p < |data| && PendingKind(t) == Some(k)
    ensures MarksFit(t, map[k := p], p + 1)
    ensures View(t, log, map[k := p], data, p + 1) == PushAll(Norm(log), [Data(k, [data[p]])])
  {
    assert data[p..p + 1] == [data[p]];
    PushOne(Norm(log), Data(k, [data[p]]));
  }

  /** The end of a field: CALLBACK_DATA(k). */
  lemma FieldEnds(s: State, log: seq<Event>, marks: Marks, data: Bytes, p: nat, k: DataKind)
    requires p <= |data| && MarksFit(s, marks, p) && PendingKind(s) == Some(k)
    ensures Norm(log + (if k in marks then [Data(k, data[marks[k]..p])] else [])) == View(s, log, marks, data, p)
    ensures marks - {k} == map[]
  {
    if k in marks {
      var e := Data(k, data[marks[k]..p]);
      PushAllSplit([], log, [e]);
      PushOne(Norm(log), e);
    } else {
      assert log + [] == log;
    }
  }

  /** A byte that ends a field and leaves a state without one. */
  lemma EndPlain(s: State, t: State, log: seq<Event>, marks: Marks, data: Bytes, p: nat, k: DataKind)
    requires p < |data| && MarksFit(s, marks, p) && PendingKind(s) == Some(k) && PendingKind(t) == None && !MustMark(t)
    ensures var log' := log + (if k in marks then [Data(k, data[marks[k]..p])] else []);
            MarksFit(t, marks - {k}, p + 1) && View(t, log', marks - {k}, data, p + 1) == PushAll(View(s, log, marks, data, p), [])
    ensures k in marks ==> marks[k] <= p
  {
    hide View, Norm, Push, PushAll, PendingKind, MustMark;
    FieldEnds(s, log, marks, data, p, k);
    NoField(t, log + (if k in marks then [Data(k, data[marks[k]..p])] else []), marks - {k}, data, p + 1);
    PushAllNone(View(s, log, marks, data, p));
  }

  /** Kinds of states, for the methods below. */
  lemma UrlStates(s: State)
    ensures InUrl(s) ==> PendingKind(s) == Some(Url)
    ensures PendingKind(ReqHttpStart) == PendingKind(ReqLineAlmostDone) == PendingKind(HeaderFieldStart) == None
    ensures !MustMark(ReqHttpStart) && !MustMark(ReqLineAlmostDone) && !MustMark(HeaderFieldStart)
  {
    hide InUrl;
    UrlEnds();
  }

  lemma UrlEnds()
    ensures PendingKind(ReqHttpStart) == PendingKind(ReqLineAlmostDone) == PendingKind(HeaderFieldStart) == None
    ensures !MustMark(ReqHttpStart) && !MustMark(ReqLineAlmostDone) && !MustMark(HeaderFieldStart)
  {
  }

  lemma StatusStates()
    ensures PendingKind(ResStatus) == Some(DataKind.Status)
    ensures PendingKind(ResStatusStart) == PendingKind(ResLineAlmostDone) == PendingKind(HeaderFieldStart) == None
    ensures !MustMark(ResStatusStart) && !MustMark(ResLineAlmostDone) && !MustMark(HeaderFieldStart)
  {
  }

  lemma ChunkStates()
    ensures PendingKind(ChunkDataAlmostDone) == Some(Body) && PendingKind(ChunkDataDone) == None && !MustMark(ChunkDataDone)
  {
  }

  /** Callbacks of a byte outside any field. */
  lemma LogGrows(log: seq<Event>, es: seq<Event>)
    ensures Norm(log + es) == PushAll(Norm(log), es)
  {
    PushAllSplit([], log, es);
  }

  lemma NoField(s: State, log: seq<Event>, marks: Marks, data: Bytes, p: nat)
    requires p <= |data|
    requires (MarksFit(s, marks, p) && PendingKind(s) == None) || (!MustMark(s) && marks == map[])
    ensures MarksFit(s, marks, p) && marks == map[] && View(s, log, marks, data, p) == Norm(log)
  {
    assert marks == map[] by { assert forall k :: k !in marks; }
  }

  lemma UrlCharStays(s: State, c: Byte)
    ensures UrlChar(s, c) == Dead || InUrl(UrlChar(s, c))
  {
  }

  lemma UrlMarked(s: State, marks: Marks, p: nat)
    requires MarksFit(s, marks, p) && InUrl(s)
    ensures Url in marks
  {
  }

  lemma StatusMarked(marks: Marks, p: nat)
    requires MarksFit(ResStatus, marks, p)
    ensures DataKind.Status in marks
  {
  }

  lemma ChunkDataEndIs(p: Parser, c: Byte)
    requires p.state == ChunkDataAlmostDone
    ensures StepBody(p, c) == if c != CR then Fail(Strict) else Next(p.(state := ChunkDataDone), [])
  {
  }

  /** Where control goes after one trip through the loop body. */
  datatype Flow = More | Leave | Broken

  /** memchr on data[from..end]: the first c, or end. */
  function FirstIn(data: Bytes, from: nat, end: nat, c: Byte): (i: nat)
    requires from <= end <= |data|
    ensures from <= i <= end
    ensures i < end ==> data[i] == c
    ensures forall k :: from <= k < i ==> data[k] != c
    decreases end - from
  {
    if from == end then end else if data[from] == c then from else FirstIn(data, from + 1, end, c)
  }

  /** States left by one byte that neither set a mark nor deliver one. */
  predicate Plain(s: State) {
    PendingKind(s) == None && s != ReqSpacesBeforeUrl && s != ResStatusStart && s != HeaderFieldStart &&
    s != HeaderValueDiscardWs && s != HeaderValueStart && s != HeaderValueLws && s != HeaderValueDiscardLws
  }

  predicate Unmarked(o: Outcome) { o.Next? ==> !MustMark(o.p.state) }

  lemma AlmostDoneUnmarked(p: Parser, c: Byte, cb: HeadersCallback)
    ensures Unmarked(OnHeadersAlmostDone(p, c, cb))
  {
  }

  lemma PlainUnmarked(p: Parser, c: Byte, cb: HeadersCallback)
    requires Plain(p.state)
    ensures Unmarked(Step(p, c, cb))
  {
    hide StepRequestLine, StepHeader, StepBody, StepStatusLine, StepStart, Unmarked;
    if InRequestLine(p.state) { PlainUnmarkedRequest(p, c); }
    else if InHeader(p.state) { PlainUnmarkedHeader(p, c, cb); }
    else if InBody(p.state) { PlainUnmarkedBody(p, c); }
    else if InStatusLine(p.state) { PlainUnmarkedStatus(p, c); }
    else { PlainUnmarkedStart(p, c); }
  }

  lemma PlainUnmarkedRequest(p: Parser, c: Byte)
    requires Plain(p.state) && InRequestLine(p.state)
    ensures Unmarked(StepRequestLine(p, c))
  {
    hide OnUrl, OnSpacesBeforeUrl, OtherMethod, FirstMethod, MethodString;
  }

  lemma PlainUnmarkedHeader(p: Parser, c: Byte, cb: HeadersCallback)
    requires Plain(p.state) && InHeader(p.state)
    ensures Unmarked(StepHeader(p, c, cb))
  {
    hide OnHeadersAlmostDone;
    AlmostDoneUnmarked(p, c, cb);
  }

  lemma ChunkLinesUnmarked(p: Parser, c: Byte)
    ensures Unmarked(OnChunkSizeStart(p, c)) && Unmarked(OnChunkSizeAlmostDone(p, c)) && Unmarked(OnChunkDataDone(p, c))
    ensures p.state == ChunkSize ==> Unmarked(OnChunkSize(p, c))
  {
    hide Unhex, MustMark;
    BodyStatesUnmarked();
  }

  lemma DoneUnmarked(p: Parser)
    ensures Unmarked(OnMessageDone(p))
  {
    hide NewMessage, MustMark;
    NewMessageUnmarked(p);
  }

  lemma PlainUnmarkedBody(p: Parser, c: Byte)
    requires Plain(p.state) && InBody(p.state)
    ensures Unmarked(StepBody(p, c))
  {
    hide MustMark, OnChunkSizeStart, OnChunkSizeAlmostDone, OnChunkDataDone, OnChunkSize, OnMessageDone, OnChunkData, OnBodyIdentity;
    ChunkLinesUnmarked(p, c);
    DoneUnmarked(p);
    BodyStatesUnmarked();
  }

  lemma BodyStatesUnmarked()
    ensures forall s :: InBody(s) || s == HeaderFieldStart ==> !MustMark(s)
  {
  }

  lemma PlainUnmarkedStart(p: Parser, c: Byte)
    requires Plain(p.state) && !InStatusLine(p.state) && !InRequestLine(p.state)
    ensures Unmarked(StepStart(p, c))
  {
    hide FirstMethod;
  }

  lemma PlainUnmarkedStatus(p: Parser, c: Byte)
    requires Plain(p.state) && InStatusLine(p.state)
    ensures Unmarked(StepStatusLine(p, c))
  {
  }

  /** Some prefix of the data has too many header bytes, counting `slack` more for ends of buffers
      (each buffer that ends inside a header is counted one byte too long). */
  ghost predicate Overflows(f: Machine, p0: Parser, n0: nat, out0: seq<Event>, data: Bytes, slack: nat) {
    exists k :: 0 <= k <= |data| && Run(f, p0, out0, data[..k]).Running? &&
                Total(f, COUNT, p0, n0, out0, data[..k]) + slack > MAX_HEADER_SIZE
  }

  /** No prefix from p to q bytes long has too many header bytes. */
  ghost predicate Within(f: Machine, p0: Parser, n0: nat, out0: seq<Event>, data: Bytes, p: nat, q: nat) {
    forall k :: p <= k <= q && k <= |data| && Run(f, p0, out0, data[..k]).Running? ==>
                  Total(f, COUNT, p0, n0, out0, data[..k]) <= MAX_HEADER_SIZE
  }

  /** The parser st and the log agree with the one-byte machine run from p0 and stream out0 over data[..p]. */
  predicate Agrees(f: Machine, p0: Parser, out0: seq<Event>, data: Bytes, p: nat, marks: Marks, st: Parser, log: seq<Event>) {
    && p <= |data| && MarksFit(st.state, marks, p)
    && Run(f, p0, out0, data[..p]) == Running(st, View(st.state, log, marks, data, p))
  }

  lemma AgreesInside(f: Machine, p0: Parser, out0: seq<Event>, data: Bytes, p: nat, marks: Marks, st: Parser, log: seq<Event>)
    requires Agrees(f, p0, out0, data, p, marks, st, log)
    ensures p <= |data| && (forall k :: k in marks ==> marks[k] <= p)
    ensures Run(f, p0, out0, data[..p]).Running? && Run(f, p0, out0, data[..p]).p == st
  {
    hide View, Run;
  }

  /** The byte at q ends the field of kind k and leaves the state t. */
  lemma FieldOver(f: Machine, p0: Parser, out0: seq<Event>, data: Bytes, q: nat, marks: Marks, st: Parser, log: seq<Event>, k: DataKind, t: State)
    requires Agrees(f, p0, out0, data, q, marks, st, log) && q < |data|
    requires PendingKind(st.state) == Some(k) && PendingKind(t) == None && !MustMark(t)
    requires Run(f, p0, out0, data[..q + 1]) == Running(st.(state := t), Run(f, p0, out0, data[..q]).out)
    ensures Agrees(f, p0, out0, data, q + 1, marks - {k}, st.(state := t), log + (if k in marks then [Data(k, data[marks[k]..q])] else []))
  {
    hide View, Norm, Run, PendingKind, MustMark;
    FieldEnds(st.state, log, marks, data, q, k);
    NoField(t, log + (if k in marks then [Data(k, data[marks[k]..q])] else []), marks - {k}, data, q + 1);
  }

  lemma ValuePending()
    ensures PendingKind(HeaderValue) == Some(Value) && PendingKind(HeaderField) == Some(Field)
    ensures PendingKind(HeaderAlmostDone) == PendingKind(HeaderValueLws) == PendingKind(HeaderValueDiscardWs) == None
    ensures !MustMark(HeaderAlmostDone) && !MustMark(HeaderValueLws) && !MustMark(HeaderValueDiscardWs)
  {
  }

  /** One more character of a header name. */
  lemma FieldAgrees(f: Machine, cb: HeadersCallback, p0: Parser, n0: nat, out0: seq<Event>, data: Bytes, p: nat, marks: Marks, st: Parser, log: seq<Event>)
    requires IsHttp(f, cb) && Agrees(f, p0, out0, data, p, marks, st, log) && st.state == HeaderField && p < |data| && Token(data[p]) != NUL
    ensures Agrees(f, p0, out0, data, p + 1, marks, FieldChar(st, data[p]), log) && FieldChar(st, data[p]).state == HeaderField
    ensures Total(f, COUNT, p0, n0, out0, data[..p + 1]) == Total(f, COUNT, p0, n0, out0, data[..p]) + 1
  {
    hide View, Norm, Push, PushAll, Step, Count, FieldMatch, IsHttp, Run, Total, Token;
    FieldByte(f, cb, p0, n0, out0, data, p);
    FieldGoesOn(HeaderField, HeaderField, log, marks, data, p, Field);
  }

  /** One more character of a header value. */
  lemma ValueAgrees(f: Machine, cb: HeadersCallback, p0: Parser, n0: nat, out0: seq<Event>, data: Bytes, p: nat, marks: Marks, st: Parser, log: seq<Event>)
    requires IsHttp(f, cb) && Agrees(f, p0, out0, data, p, marks, st, log) && st.state == HeaderValue
    requires p < |data| && data[p] != CR && data[p] != LF
    ensures match ValueChar(st, data[p]) {
              case None => Run(f, p0, out0, data[..p + 1]) == Failed(InvalidContentLength, p)
              case Some(s) => Agrees(f, p0, out0, data, p + 1, marks, s, log) && s.state == HeaderValue
            }
    ensures Total(f, COUNT, p0, n0, out0, data[..p + 1]) == Total(f, COUNT, p0, n0, out0, data[..p]) + 1
  {
    hide View, Norm, Push, PushAll, Step, Count, ValueChar, IsHttp, Run, Total;
    ValueByte(f, cb, p0, n0, out0, data, p);
    ValueCharStays(st, data[p]);
    FieldGoesOn(HeaderValue, HeaderValue, log, marks, data, p, Value);
  }

  /** A stretch of a value that nobody looks into. */
  lemma GeneralAgrees(f: Machine, cb: HeadersCallback, p0: Parser, n0: nat, out0: seq<Event>, data: Bytes, p: nat, q: nat, marks: Marks, st: Parser, log: seq<Event>)
    requires IsHttp(f, cb) && Agrees(f, p0, out0, data, p, marks, st, log) && st.state == HeaderValue && st.headerState == General
    requires p <= q <= |data| && forall k :: p <= k < q ==> data[k] != CR && data[k] != LF
    ensures Agrees(f, p0, out0, data, q, marks, st, log)
    ensures Total(f, COUNT, p0, n0, out0, data[..q]) == Total(f, COUNT, p0, n0, out0, data[..p]) + (q - p)
  {
    hide View, Norm, Push, PushAll, Step, Count, IsHttp, Run, Total;
    GeneralStretch(f, cb, p0, n0, out0, data, p, q);
    ViewGrows(HeaderValue, log, marks, data, p, q, Value);
  }

  lemma OnlyPending(s: State, marks: Marks, p: nat)
    requires MarksFit(s, marks, p)
    ensures forall k :: k in marks ==> PendingKind(s) == Some(k) && marks[k] <= p
  {
  }

  /** The stream after the last callbacks, and what a field in the middle looks like then. */
  lemma Flushed(s: State, log: seq<Event>, marks: Marks, data: Bytes)
    requires MarksFit(s, marks, |data|)
    ensures var k := PendingKind(s);
            var log' := log + (if k.Some? && k.value in marks then [Data(k.value, data[marks[k.value]..|data|])] else []);
            Norm(log') == View(s, log, marks, data, |data|) && Anchored(s, Norm(log'))
  {
    hide Push, PushAll, Norm;
    match PendingKind(s) {
      case None =>
        NoField(s, log, marks, data, |data|);
        assert log + [] == log;
      case Some(k) =>
        FieldEnds(s, log, marks, data, |data|, k);
        if k in marks { PushEndsWith(Norm(log), k, data[marks[k]..|data|]); }
    }
  }

  class HttpParser {
    const onHeadersComplete: HeadersCallback
    var st: Parser
    var nread: nat
    var errno: Errno
    /** every callback made so far, in order */
    var log: seq<Event>

    ghost predicate Valid()
      reads this
    {
      Anchored(st.state, Norm(log)) && BodyFits(st) && nread <= MAX_HEADER_SIZE
    }

    constructor (kind: Kind, cb: HeadersCallback)
      ensures Valid() && st == Init(kind) && errno == OK && log == [] && nread == 0 && onHeadersComplete == cb
    {
      onHeadersComplete := cb;
      st := Init(kind);
      nread := 0;
      errno := OK;
      log := [];
    }

    /** What the one-byte outcome o says the fields must be after a trip from stream `before`. */
    ghost predicate Did(o: Outcome, before: seq<Event>, data: Bytes, p: nat, marks: Marks, flow: Flow)
      reads this
      requires p <= |data|
    {
      match o
      case Next(q, es) =>
        flow == More && errno == OK && st == q && MarksFit(q.state, marks, p) &&
        View(q.state, log, marks, data, p) == PushAll(before, es)
      case Stop(q, es) =>
        flow == Leave && errno == OK && st == q && Norm(log) == PushAll(before, es)
      case Fail(e) => flow == Broken && errno == e
    }

    /** MARK(k); CALLBACK_DATA(k) without consuming: deliver data[mark..p]. */
    method CallbackData(k: DataKind, data: Bytes, p: nat, marks: Marks) returns (marks': Marks)
      requires k in marks ==> marks[k] <= p
      requires p <= |data|
      modifies `log
      ensures marks' == marks - {k}
      ensures log == old(log) + (if k in marks then [Data(k, data[marks[k]..p])] else [])
    {
      if k in marks {
        log := log + [Data(k, data[marks[k]..p])];
      }
      marks' := marks - {k};
    }

    /** s_req_spaces_before_url */
    method SpacesBeforeUrl(data: Bytes, p: nat, marks: Marks) returns (flow: Flow, marks': Marks)
      requires p < |data| && marks == map[] && errno == OK && st.state == ReqSpacesBeforeUrl
      modifies this
      ensures Did(OnSpacesBeforeUrl(old(st), data[p]), Norm(old(log)), data, p + 1, marks', flow)
      ensures nread == old(nread)
    {
      hide UrlChar, View, Norm, Push, PushAll;
      var ch := data[p];
      flow, marks' := More, marks;
      if ch == ' ' {
        NoField(st.state, log, marks, data, p + 1);
        PushAllNone(Norm(log));
        return;
      }
      marks' := marks[Url := p];
      if st.verb == CONNECT {
        st := st.(state := ReqServerStart);
      }
      UrlCharStays(st.state, ch);
      st := st.(state := UrlChar(st.state, ch));
      if st.state == Dead {
        errno := InvalidUrl;
        flow := Broken;
        return;
      }
      FieldBegins(st.state, log, data, p, Url);
    }

    /** The states of the URL itself. */
    method UrlByte(data: Bytes, p: nat, marks: Marks) returns (flow: Flow, marks': Marks)
      requires p < |data| && MarksFit(st.state, marks, p) && errno == OK && InUrl(st.state)
      modifies this
      ensures Did(OnUrl(old(st), data[p]), View(old(st.state), old(log), marks, data, p), data, p + 1, marks', flow)
      ensures nread == old(nread)
    {
      hide UrlChar, View, Norm, Push, PushAll, MarksFit, PendingKind, MustMark;
      var ch := data[p];
      flow, marks' := More, marks;
      UrlStates(st.state);
      if UrlMayEnd(st.state) && (ch == ' ' || ch == CR || ch == LF) {
        var t := if ch == ' ' then ReqHttpStart else if ch == CR then ReqLineAlmostDone else HeaderFieldStart;
        EndPlain(st.state, t, log, marks, data, p, Url);
        marks' := CallbackData(Url, data, p, marks);
        if ch != ' ' {
          st := st.(major := 0, minor := 9);
        }
        st := st.(state := t);
      } else {
        if ch == ' ' || ch == CR || ch == LF {
          errno := InvalidUrl;
          flow := Broken;
          return;
        }
        UrlCharStays(st.state, ch);
        UrlStates(UrlChar(st.state, ch));
        st := st.(state := UrlChar(st.state, ch));
        if st.state == Dead {
          errno := InvalidUrl;
          flow := Broken;
          return;
        }
        UrlMarked(old(st).state, marks, p);
        FieldGoesOn(old(st).state, st.state, log, marks, data, p, Url);
      }
    }

    /** s_res_status_start and s_res_status */
    method StatusByte(data: Bytes, p: nat, marks: Marks) returns (flow: Flow, marks': Marks)
      requires p < |data| && MarksFit(st.state, marks, p) && errno == OK
      requires st.state == ResStatus || (st.state == ResStatusStart && marks == map[])
      modifies this
      ensures Did(OnStatus(old(st), data[p]), View(old(st.state), old(log), marks, data, p), data, p + 1, marks', flow)
      ensures nread == old(nread)
    {
      hide View, Norm, Push, PushAll, MarksFit, PendingKind, MustMark;
      var ch := data[p];
      flow, marks' := More, marks;
      StatusStates();
      if ch == CR || ch == LF {
        var t := if ch == CR then ResLineAlmostDone else HeaderFieldStart;
        if st.state == ResStatus {
          EndPlain(st.state, t, log, marks, data, p, DataKind.Status);
          marks' := CallbackData(DataKind.Status, data, p, marks);
        } else {
          NoField(st.state, log, marks, data, p);
          NoField(t, log, marks, data, p + 1);
          PushAllNone(Norm(log));
        }
        st := st.(state := t);
      } else if st.state == ResStatusStart {
        NoField(st.state, log, marks, data, p);
        marks' := map[DataKind.Status := p];
        st := st.(state := ResStatus, index := 0);
        FieldBegins(st.state, log, data, p, DataKind.Status);
      } else {
        StatusMarked(marks, p);
        FieldGoesOn(st.state, st.state, log, marks, data, p, DataKind.Status);
      }
    }

    /** Notify callbacks and state of a byte outside any field. */
    method Commit(o: Outcome, data: Bytes, p: nat) returns (flow: Flow)
      requires p < |data| && errno == OK && Unmarked(o)
      modifies this
      ensures Did(o, Norm(old(log)), data, p + 1, map[], flow)
      ensures nread == old(nread)
    {
      hide View, Norm, Push, PushAll;
      match o {
        case Next(q, es) =>
          LogGrows(log, es);
          st, log, flow := q, log + es, More;
          NoField(st.state, log, map[], data, p + 1);
        case Stop(q, es) =>
          LogGrows(log, es);
          st, log, flow := q, log + es, Leave;
        case Fail(e) =>
          errno, flow := e, Broken;
      }
    }

    /** s_header_field_start */
    method FieldStartByte(data: Bytes, p: nat) returns (flow: Flow, marks': Marks)
      requires p < |data| && errno == OK
      modifies this
      ensures Did(OnFieldStart(old(st), data[p], onHeadersComplete), Norm(old(log)), data, p + 1, marks', flow)
      ensures nread == old(nread)
    {
      hide View, Norm, Push, PushAll, OnHeadersAlmostDone;
      var ch := data[p];
      flow, marks' := More, map[];
      if ch == CR {
        st := st.(state := HeadersAlmostDone);
        NoField(st.state, log, marks', data, p + 1);
        PushAllNone(Norm(log));
      } else if ch == LF {
        st := st.(state := HeadersAlmostDone);
        AlmostDoneUnmarked(st, ch, onHeadersComplete);
        flow := Commit(OnHeadersAlmostDone(st, ch, onHeadersComplete), data, p);
      } else if Token(ch) == NUL {
        errno, flow := InvalidHeaderToken, Broken;
      } else {
        marks' := map[Field := p];
        st := st.(index := 0, state := HeaderField, headerState := FirstFieldState(Token(ch)));
        FieldBegins(st.state, log, data, p, Field);
      }
    }

    /** s_header_value_start */
    method ValueStartByte(data: Bytes, p: nat) returns (flow: Flow, marks': Marks)
      requires p < |data| && errno == OK
      modifies this
      ensures Did(OnValueStart(old(st), data[p]), Norm(old(log)), data, p + 1, marks', flow)
      ensures nread == old(nread)
    {
      hide View, Norm, Push, PushAll;
      flow, marks' := More, map[Value := p];
      match ValueStart(st, data[p]) {
        case None =>
          errno, flow := InvalidContentLength, Broken;
        case Some(q) =>
          st := q;
          assert st.state == HeaderValue;
          FieldBegins(st.state, log, data, p, Value);
      }
    }

    /** s_header_value_lws and s_header_value_discard_lws: another line of the value, or its end. */
    method LwsByte(data: Bytes, p: nat) returns (flow: Flow, marks': Marks)
      requires p < |data| && errno == OK
      requires st.state == HeaderValueLws || st.state == HeaderValueDiscardLws
      modifies this
      ensures Did(if old(st.state) == HeaderValueLws then OnValueLws(old(st), data[p], onHeadersComplete)
                  else OnDiscardLws(old(st), data[p], onHeadersComplete),
                  Norm(old(log)), data, p + 1, marks', flow)
      ensures nread == old(nread)
    {
      hide View, Norm, Push, PushAll, OnValueStart, OnFieldStart;
      var ch := data[p];
      flow, marks' := More, map[];
      if st.state == HeaderValueLws {
        if ch == ' ' || ch == '\t' {
          flow, marks' := ValueStartByte(data, p);
        } else {
          st := st.(flags := FinalFlagFor(st.flags, st.headerState), state := HeaderFieldStart);
          flow, marks' := FieldStartByte(data, p);
        }
      } else if ch == ' ' || ch == '\t' {
        st := st.(state := HeaderValueDiscardWs);
        NoField(st.state, log, marks', data, p + 1);
        PushAllNone(Norm(log));
      } else {
        st := st.(flags := FinalFlagFor(st.flags, st.headerState), state := HeaderFieldStart);
        marks' := marks'[Value := p];
        marks' := CallbackData(Value, data, p, marks');
        assert data[p..p] == [];
        LogGrows(old(log), [Data(Value, [])]);
        flow, marks' := FieldStartByte(data, p);
        ghost var o := OnFieldStart(old(st).(flags := FinalFlagFor(old(st).flags, old(st).headerState), state := HeaderFieldStart), ch, onHeadersComplete);
        if !o.Fail? {
          PushAllSplit(Norm(old(log)), [Data(Value, [])], o.es);
        }
      }
    }

    /** s_header_value_discard_ws */
    method DiscardWsByte(data: Bytes, p: nat) returns (flow: Flow, marks': Marks)
      requires p < |data| && errno == OK && st.state == HeaderValueDiscardWs
      modifies this
      ensures Did(OnDiscardWs(old(st), data[p]), Norm(old(log)), data, p + 1, marks', flow)
      ensures nread == old(nread)
    {
      hide View, Norm, Push, PushAll, OnValueStart;
      var ch := data[p];
      flow, marks' := More, map[];
      if ch == ' ' || ch == '\t' || ch == CR || ch == LF {
        if ch == CR {
          st := st.(state := HeaderValueDiscardWsAlmostDone);
        } else if ch == LF {
          st := st.(state := HeaderValueDiscardLws);
        }
        NoField(st.state, log, marks', data, p + 1);
        PushAllNone(Norm(log));
      } else {
        flow, marks' := ValueStartByte(data, p);
      }
    }

    /** s_chunk_data_almost_done */
    method ChunkDataEnd(data: Bytes, p: nat, marks: Marks) returns (flow: Flow, marks': Marks)
      requires p < |data| && MarksFit(st.state, marks, p) && errno == OK && st.state == ChunkDataAlmostDone
      modifies this
      ensures Did(StepBody(old(st), data[p]), View(old(st.state), old(log), marks, data, p), data, p + 1, marks', flow)
      ensures nread == old(nread)
    {
      hide View, Norm, Push, PushAll, MarksFit, PendingKind, MustMark;
      flow, marks' := More, marks;
      ChunkStates();
      ChunkDataEndIs(st, data[p]);
      hide StepBody;
      if data[p] != CR {
        errno, flow := Strict, Broken;
      } else {
        EndPlain(st.state, ChunkDataDone, log, marks, data, p, Body);
        marks' := CallbackData(Body, data, p, marks);
        st := st.(state := ChunkDataDone);
      }
    }

    predicate Bulk(s: State) {
      s == HeaderField || s == HeaderValue || s == BodyIdentity || s == BodyIdentityEof || s == ChunkData
    }

    /** The header states that consume one byte at a time. */
    method HeaderByte(data: Bytes, p: nat, marks: Marks) returns (flow: Flow, marks': Marks)
      requires p < |data| && MarksFit(st.state, marks, p) && errno == OK && !Bulk(st.state) && InHeader(st.state)
      modifies this
      ensures Did(StepHeader(old(st), data[p], onHeadersComplete), View(old(st.state), old(log), marks, data, p),
                  data, p + 1, marks', flow)
      ensures nread == old(nread)
    {
      hide View, Norm, Push, PushAll, OnFieldStart, OnValueStart, OnDiscardWs, OnValueLws, OnDiscardLws;
      NoField(st.state, log, marks, data, p);
      if st.state == HeaderFieldStart {
        flow, marks' := FieldStartByte(data, p);
      } else if st.state == HeaderValueStart {
        flow, marks' := ValueStartByte(data, p);
      } else if st.state == HeaderValueDiscardWs {
        flow, marks' := DiscardWsByte(data, p);
      } else if st.state == HeaderValueLws || st.state == HeaderValueDiscardLws {
        flow, marks' := LwsByte(data, p);
      } else {
        marks' := map[];
        hide StepHeader;
        PlainUnmarkedHeader(st, data[p], onHeadersComplete);
        flow := Commit(StepHeader(st, data[p], onHeadersComplete), data, p);
      }
    }

    /** All the states that consume one byte at a time. */
    method OneByte(data: Bytes, p: nat, marks: Marks) returns (flow: Flow, marks': Marks)
      requires p < |data| && MarksFit(st.state, marks, p) && errno == OK && !Bulk(st.state)
      modifies this
      ensures Did(Step(old(st), data[p], onHeadersComplete), View(old(st.state), old(log), marks, data, p),
                  data, p + 1, marks', flow)
      ensures nread == old(nread)
    {
      hide View, Norm, Push, PushAll, OnUrl, OnSpacesBeforeUrl, OnStatus, StepStart, StepHeader;
      if InHeader(st.state) {
        flow, marks' := HeaderByte(data, p, marks);
      } else if st.state == ReqSpacesBeforeUrl {
        NoField(st.state, log, marks, data, p);
        flow, marks' := SpacesBeforeUrl(data, p, marks);
      } else if InUrl(st.state) {
        flow, marks' := UrlByte(data, p, marks);
      } else if st.state == ResStatus || st.state == ResStatusStart {
        if st.state == ResStatusStart {
          NoField(st.state, log, marks, data, p);
        }
        flow, marks' := StatusByte(data, p, marks);
      } else if st.state == ChunkDataAlmostDone {
        flow, marks' := ChunkDataEnd(data, p, marks);
      } else {
        NoField(st.state, log, marks, data, p);
        marks' := map[];
        hide Step, StepStatusLine, StepRequestLine, StepBody;
        PlainUnmarked(st, data[p], onHeadersComplete);
        flow := Commit(Step(st, data[p], onHeadersComplete), data, p);
      }
    }

    // ----- loops -----

    /** The fields agree with the one-byte machine run from p0 (header count n0, stream out0) over data[..p]. */
    ghost predicate Tracks(f: Machine, p0: Parser, n0: nat, out0: seq<Event>, data: Bytes, p: nat, marks: Marks)
      reads this
    {
      Agrees(f, p0, out0, data, p, marks, st, log) && errno == OK
    }

    ghost predicate Ended(f: Machine, p0: Parser, n0: nat, out0: seq<Event>, data: Bytes, p: nat, flow: Flow)
      reads this
    {
      match flow
      case More => true
      case Leave => p <= |data| && errno == OK && Run(f, p0, out0, data[..p]) == Stopped(st, Norm(log), p)
      case Broken =>
        if errno == HeaderOverflow then Overflows(f, p0, n0, out0, data, 1)
        else p < |data| && errno != OK && errno != InvalidEofState && Run(f, p0, out0, data[..p + 1]) == Failed(errno, p)
    }

    /** COUNT_HEADER_SIZE(v), with nread 32 bits wide. */
    method CountHeaderSize(v: nat) returns (ok: bool)
      requires nread <= MAX_HEADER_SIZE + 1 && v + MAX_HEADER_SIZE + 1 < 0x1_0000_0000
      modifies `nread, `errno
      ensures nread == old(nread) + v
      ensures ok == (nread <= MAX_HEADER_SIZE)
      ensures errno == if ok then old(errno) else HeaderOverflow
    {
      nread := (nread + v) % 0x1_0000_0000;
      ok := nread <= MAX_HEADER_SIZE;
      if !ok {
        errno := HeaderOverflow;
      }
    }

    /** The loop over the bytes of a field name. */
    method FieldBytes(data: Bytes, p: nat, marks: Marks, ghost f: Machine, ghost p0: Parser, ghost n0: nat, ghost out0: seq<Event>)
      returns (q: nat)
      requires IsHttp(f, onHeadersComplete)
      requires Tracks(f, p0, n0, out0, data, p, marks) && p < |data| && st.state == HeaderField
      modifies `st
      ensures p <= q <= |data| && Tracks(f, p0, n0, out0, data, q, marks) && st.state == HeaderField
      ensures q < |data| ==> Token(data[q]) == NUL
      ensures forall k :: p <= k < q ==> data[k] != LF
      ensures Total(f, COUNT, p0, n0, out0, data[..q]) == Total(f, COUNT, p0, n0, out0, data[..p]) + (q - p)
    {
      hide Agrees, IsHttp, Run, Total, Token, FieldChar;
      TokenNotLf();
      q := p;
      while q < |data| && Token(data[q]) != NUL
        invariant p <= q <= |data| && st.state == HeaderField
        invariant forall k :: p <= k < q ==> data[k] != LF
        invariant Tracks(f, p0, n0, out0, data, q, marks)
        invariant Total(f, COUNT, p0, n0, out0, data[..q]) == Total(f, COUNT, p0, n0, out0, data[..p]) + (q - p)
      {
        FieldAgrees(f, onHeadersComplete, p0, n0, out0, data, q, marks, st, log);
        st := FieldChar(st, data[q]);
        q := q + 1;
      }
    }

    /** s_header_field: scan to the end of the field name, then account for its bytes. */
    method ScanField(data: Bytes, p: nat, marks: Marks, ghost f: Machine, ghost p0: Parser, ghost n0: nat, ghost out0: seq<Event>)
      returns (flow: Flow, q: nat, marks': Marks)
      requires IsHttp(f, onHeadersComplete)
      requires Tracks(f, p0, n0, out0, data, p, marks) && p < |data| && st.state == HeaderField
      requires |data| + MAX_HEADER_SIZE + 1 < 0x1_0000_0000
      requires nread == Total(f, COUNT, p0, n0, out0, data[..p]) + 1 <= MAX_HEADER_SIZE
      modifies this
      ensures Ended(f, p0, n0, out0, data, q, flow) && flow != Leave
      ensures flow == More ==> p < q && Tracks(f, p0, n0, out0, data, q, marks') && nread <= MAX_HEADER_SIZE
      ensures flow == More ==> var t := Total(f, COUNT, p0, n0, out0, data[..q]);
                               t <= nread <= t + (if q == |data| then 1 else 0)
      ensures flow == More ==> Within(f, p0, n0, out0, data, p, q)
    {
      hide Agrees, IsHttp, Run, Total, PendingKind, MustMark, FieldChar, Overflows, Token, Within;
      marks' := marks;
      flow := More;
      var start := p;
      q := FieldBytes(data, p, marks, f, p0, n0, out0);
      var ok := CountHeaderSize(q - start);
      if !ok {
        AgreesInside(f, p0, out0, data, q, marks, st, log);
        OverflowAt(f, p0, n0, out0, data, q);
        flow := Broken;
        return;
      }
      AgreesInside(f, p0, out0, data, q, marks, st, log);
      WithinLine(f, onHeadersComplete, p0, n0, out0, data, p, q);
      if q == |data| { return; }
      FieldByte(f, onHeadersComplete, p0, n0, out0, data, q);
      if data[q] == ':' {
        ValuePending();
        FieldOver(f, p0, out0, data, q, marks, st, log, Field, HeaderValueDiscardWs);
        st := st.(state := HeaderValueDiscardWs);
        marks' := CallbackData(Field, data, q, marks);
        WithinOneMore(f, p0, n0, out0, data, p, q);
        q := q + 1;
      } else {
        errno, flow := InvalidHeaderToken, Broken;
      }
    }

    /** The memchr shortcut of s_header_value in h_general: where p lands, and whether the search limit was hit. */
    method SkipGeneral(data: Bytes, p: nat) returns (q: nat, ghost capped: bool)
      requires p < |data| && data[p] != CR && data[p] != LF
      ensures p < q <= |data|
      ensures capped ==> q == |data| && p + MAX_HEADER_SIZE <= |data|
      ensures var e := if capped then p + MAX_HEADER_SIZE else q; forall k :: p <= k < e ==> data[k] != CR && data[k] != LF
      ensures q < |data| ==> data[q] == CR || data[q] == LF
    {
      var limit := if |data| - p < MAX_HEADER_SIZE then |data| - p else MAX_HEADER_SIZE;
      var pcr := FirstIn(data, p, p + limit, CR);
      var plf := FirstIn(data, p, p + limit, LF);
      capped := false;
      if pcr < p + limit {
        if plf < p + limit && pcr >= plf {
          q := plf;
        } else {
          q := pcr;
        }
      } else if plf < p + limit {
        q := plf;
      } else {
        q := |data|;
        capped := p + limit < |data|;
      }
    }

    /** The loop over the bytes of a header value. If the search limit hid the end of the line, the value goes on at
        least to `edge`, which is too far. */
    method ValueBytes(data: Bytes, p: nat, marks: Marks, ghost f: Machine, ghost p0: Parser, ghost n0: nat, ghost out0: seq<Event>)
      returns (bad: bool, q: nat, ghost capped: bool, ghost edge: nat)
      requires IsHttp(f, onHeadersComplete)
      requires Tracks(f, p0, n0, out0, data, p, marks) && p < |data| && st.state == HeaderValue
      modifies `st
      ensures p <= q <= |data| && p <= edge <= |data| && (q < |data| && !bad ==> data[q] == CR || data[q] == LF)
      ensures bad ==> q < |data| && Run(f, p0, out0, data[..q + 1]) == Failed(InvalidContentLength, q)
      ensures !bad ==> Agrees(f, p0, out0, data, edge, marks, st, log) && st.state == HeaderValue
      ensures !bad ==> Total(f, COUNT, p0, n0, out0, data[..edge]) == Total(f, COUNT, p0, n0, out0, data[..p]) + (edge - p)
      ensures !bad ==> if capped then q == |data| && p + MAX_HEADER_SIZE <= edge else edge == q
      ensures forall k :: p <= k < edge ==> data[k] != LF
    {
      hide Agrees, IsHttp, Run, Total, ValueChar;
      AgreesInside(f, p0, out0, data, p, marks, st, log);
      q, bad, capped, edge := p, false, false, p;
      while q < |data| && data[q] != CR && data[q] != LF
        invariant p <= q <= |data| && p <= edge <= |data| && st.state == HeaderValue
        invariant Agrees(f, p0, out0, data, edge, marks, st, log)
        invariant Total(f, COUNT, p0, n0, out0, data[..edge]) == Total(f, COUNT, p0, n0, out0, data[..p]) + (edge - p)
        invariant if capped then q == |data| && p + MAX_HEADER_SIZE <= edge else edge == q
        invariant forall k :: p <= k < edge ==> data[k] != LF
      {
        if st.headerState == General {
          ghost var from := q;
          q, capped := SkipGeneral(data, q);
          edge := if capped then from + MAX_HEADER_SIZE else q;
          GeneralAgrees(f, onHeadersComplete, p0, n0, out0, data, from, edge, marks, st, log);
        } else {
          ValueAgrees(f, onHeadersComplete, p0, n0, out0, data, q, marks, st, log);
          match ValueChar(st, data[q]) {
            case None =>
              bad := true;
              return;
            case Some(s) =>
              st := s;
              q := q + 1;
              edge := q;
          }
        }
      }
    }

    /** s_header_value: scan to the end of the line, then account for its bytes. A search limit that hides
        the end of the line always ends in HPE_HEADER_OVERFLOW. */
    method ScanValue(data: Bytes, p: nat, marks: Marks, ghost f: Machine, ghost p0: Parser, ghost n0: nat, ghost out0: seq<Event>)
      returns (flow: Flow, q: nat, marks': Marks)
      requires IsHttp(f, onHeadersComplete)
      requires Tracks(f, p0, n0, out0, data, p, marks) && p < |data| && st.state == HeaderValue
      requires |data| + MAX_HEADER_SIZE + 1 < 0x1_0000_0000
      requires nread == Total(f, COUNT, p0, n0, out0, data[..p]) + 1 <= MAX_HEADER_SIZE
      modifies this
      ensures Ended(f, p0, n0, out0, data, q, flow) && flow != Leave
      ensures flow == More ==> p < q && Tracks(f, p0, n0, out0, data, q, marks') && nread <= MAX_HEADER_SIZE
      ensures flow == More ==> var t := Total(f, COUNT, p0, n0, out0, data[..q]);
                               t <= nread <= t + (if q == |data| then 1 else 0)
      ensures flow == More ==> Within(f, p0, n0, out0, data, p, q)
    {
      hide Agrees, ValueChar, IsHttp, Run, Total, PendingKind, MustMark, Overflows, Within;
      marks' := marks;
      flow := More;
      var bad;
      ghost var capped, edge;
      bad, q, capped, edge := ValueBytes(data, p, marks, f, p0, n0, out0);
      if bad {
        errno, flow := InvalidContentLength, Broken;
        return;
      }
      var ok := CountHeaderSize(q - p);
      if !ok {
        AgreesInside(f, p0, out0, data, edge, marks, st, log);
        OverflowAt(f, p0, n0, out0, data, edge);
        flow := Broken;
        return;
      }
      AgreesInside(f, p0, out0, data, q, marks, st, log);
      WithinLine(f, onHeadersComplete, p0, n0, out0, data, p, q);
      if q == |data| { return; }
      ValuePending();
      ValueByte(f, onHeadersComplete, p0, n0, out0, data, q);
      // LF goes through s_header_almost_done at once
      var t := if data[q] == CR then HeaderAlmostDone else HeaderValueLws;
      FieldOver(f, p0, out0, data, q, marks, st, log, Value, t);
      st := st.(state := t);
      marks' := CallbackData(Value, data, q, marks);
      WithinOneMore(f, p0, n0, out0, data, p, q);
      q := q + 1;
    }

    /** s_body_identity, s_chunk_data and s_body_identity_eof: take as much as there is in one piece. */
    method ReadBody(data: Bytes, p: nat, marks: Marks, ghost f: Machine, ghost p0: Parser, ghost n0: nat, ghost out0: seq<Event>)
      returns (flow: Flow, q: nat, marks': Marks)
      requires IsHttp(f, onHeadersComplete)
      requires Tracks(f, p0, n0, out0, data, p, marks) && p < |data|
      requires st.state == BodyIdentity || st.state == ChunkData || st.state == BodyIdentityEof
      requires st.state != BodyIdentityEof ==> st.contentLength > 0
      modifies this
      ensures q == BodyEnd(old(st), p, |data|)
      ensures Ended(f, p0, n0, out0, data, q, flow) && flow != Broken && nread == old(nread)
      ensures flow == More ==> p < q && Tracks(f, p0, n0, out0, data, q, marks')
      ensures flow == More ==> Total(f, COUNT, p0, n0, out0, data[..q]) == Total(f, COUNT, p0, n0, out0, data[..p])
    {
      hide View, Norm, Push, PushAll, Step, Count, IsHttp, Run, Total, MustMark, NewMessage;
      flow := More;
      var left := |data| - p;
      marks' := if Body in marks then marks else marks[Body := p];
      ghost var before, log0 := st, log;
      if st.state == BodyIdentityEof || left < st.contentLength {
        q := |data|;
        BodyStretch(f, onHeadersComplete, p0, n0, out0, data, p, q);
        BodyView(st.state, st.state, log, marks, marks', data, p, q);
        if st.state != BodyIdentityEof {
          st := st.(contentLength := st.contentLength - left);
        }
        return;
      }
      q := p + st.contentLength;
      LastBodyByte(f, onHeadersComplete, p0, n0, out0, data, p, q);
      BodyView(st.state, st.state, log, marks, marks', data, p, q);
      if st.state == ChunkData {
        BodyView(st.state, ChunkDataAlmostDone, log, marks, marks', data, p, q);
        st := st.(contentLength := 0, state := ChunkDataAlmostDone);
      } else {
        FieldEnds(st.state, log, marks', data, q, Body);
        st := st.(contentLength := 0, state := MessageDone);
        marks' := CallbackData(Body, data, q, marks');
        LogGrows(log, [MessageComplete]);
        log := log + [MessageComplete];
        NewMessageUnmarked(st);
        st := st.(state := NewMessage(st));
        if st.upgrade {
          flow := Leave;
        } else {
          NoField(st.state, log, marks', data, q);
        }
      }
    }

    // ----- the whole function -----

    /** What a call over non-empty data (or several calls, with slack for each) has done, in terms of the
        one-byte machine: n bytes taken, and the parser, errno and callback stream it leaves. */
    ghost predicate Executed(f: Machine, p0: Parser, n0: nat, log0: seq<Event>, data: Bytes, n: nat, slack: nat)
      reads this
    {
      if errno == HeaderOverflow then Overflows(f, p0, n0, Norm(log0), data, slack)
      else match Run(f, p0, Norm(log0), data)
        case Running(q, o) =>
          errno == OK && n == |data| && st == q && Norm(log) == o && !Overflows(f, p0, n0, Norm(log0), data, 0) &&
          var t := Total(f, COUNT, p0, n0, Norm(log0), data); t <= nread <= t + slack
        case Stopped(q, o, k) => errno == OK && n == k && st == q && Norm(log) == o && !Overflows(f, p0, n0, Norm(log0), data, 0)
        case Failed(e, k) => errno == e && n == k
    }

    method AtEof() returns (n: nat)
      requires errno == OK
      modifies this
      ensures st == old(st) && nread == old(nread)
      ensures if old(st).state == BodyIdentityEof then n == 0 && errno == OK && log == old(log) + [MessageComplete]
              else if old(st).state in {Dead, StartReqOrRes, StartRes, StartReq} then n == 0 && errno == OK && log == old(log)
              else n == 1 && errno == InvalidEofState && log == old(log)
    {
      n := 0;
      if st.state == BodyIdentityEof {
        log := log + [MessageComplete];
      } else if !(st.state == Dead || st.state == StartReqOrRes || st.state == StartRes || st.state == StartReq) {
        errno := InvalidEofState;
        n := 1;
      }
    }

    /** The marks set on entry. */
    method EntryMarks() returns (marks: Marks)
      requires Valid()
      ensures MarksFit(st.state, marks, 0)
      ensures forall data :: View(st.state, log, marks, data, 0) == Norm(log)
    {
      marks := map[];
      if st.state == HeaderField {
        marks := marks[Field := 0];
      }
      if st.state == HeaderValue {
        marks := marks[Value := 0];
      }
      if InUrl(st.state) {
        marks := marks[Url := 0];
      } else if st.state == ResStatus {
        marks := marks[DataKind.Status := 0];
      }
      if MustMark(st.state) {
        PushEmpty(Norm(log), PendingKind(st.state).value);
      }
    }

    /** The callbacks for marks left over at the end of the data; at most one is set. */
    method Flush(data: Bytes, marks: Marks)
      requires MarksFit(st.state, marks, |data|)
      modifies `log
      ensures Norm(log) == View(st.state, old(log), marks, data, |data|) && Anchored(st.state, Norm(log))
    {
      hide Push, PushAll, View, Norm, PendingKind, MarksFit;
      OnlyPending(st.state, marks, |data|);
      ghost var log0 := log;
      CallbackRest(data, marks, PendingKind(st.state));
      Flushed(st.state, log0, marks, data);
    }

    method CallbackRest(data: Bytes, marks: Marks, ghost pending: Option<DataKind>)
      requires forall k :: k in marks ==> pending == Some(k) && marks[k] <= |data|
      modifies `log
      ensures log == old(log) + (if pending.Some? && pending.value in marks
                                 then [Data(pending.value, data[marks[pending.value]..|data|])] else [])
    {
      ghost var log0 := log;
      var ms := CallbackData(Field, data, |data|, marks);
      ms := CallbackData(Value, data, |data|, ms);
      ms := CallbackData(Url, data, |data|, ms);
      ms := CallbackData(Body, data, |data|, ms);
      ms := CallbackData(DataKind.Status, data, |data|, ms);
      ghost var rest := if pending.Some? && pending.value in marks then [Data(pending.value, data[marks[pending.value]..|data|])] else [];
      if pending.Some? {
        ghost var k := pending.value;
        assert k == Field || k == Value || k == Url || k == Body || k == DataKind.Status;
      }
      assert log == log0 + rest;
    }

    /** One trip through the loop for a state outside the bulk scans. */
    method OneByteTracked(data: Bytes, p: nat, marks: Marks, ghost f: Machine, ghost p0: Parser, ghost n0: nat, ghost out0: seq<Event>)
      returns (flow: Flow, q: nat, marks': Marks)
      requires IsHttp(f, onHeadersComplete)
      requires Tracks(f, p0, n0, out0, data, p, marks) && p < |data| && !Bulk(st.state)
      requires nread == Total(f, COUNT, p0, n0, out0, data[..p]) + (if ParsingHeader(st.state) then 1 else 0) <= MAX_HEADER_SIZE
      modifies this
      ensures Ended(f, p0, n0, out0, data, q, flow) && nread <= MAX_HEADER_SIZE
      ensures flow == More ==> p < q && Tracks(f, p0, n0, out0, data, q, marks')
      ensures flow == More ==> Total(f, COUNT, p0, n0, out0, data[..q]) == nread
      ensures flow != Broken ==> Within(f, p0, n0, out0, data, p, q)
    {
      hide View, Norm, Push, PushAll, Step, IsHttp, Run, Total, MustMark, PendingKind, MarksFit, ResetsCount, ParsingHeader, Bulk, Overflows;
      RunByByte(f, onHeadersComplete, p0, n0, out0, data, p);
      var resets := ResetsCount(st, data[p]);
      flow, marks' := OneByte(data, p, marks);
      if resets && flow != Broken {
        nread := 0;
      }
      q := if flow == Broken then p else p + 1;
    }

    /** One trip through the loop: account for the byte, then the switch. */
    method Trip(data: Bytes, p: nat, marks: Marks, ghost f: Machine, ghost p0: Parser, ghost n0: nat, ghost out0: seq<Event>)
      returns (flow: Flow, q: nat, marks': Marks)
      requires IsHttp(f, onHeadersComplete) && BodyFits(p0) && |data| + MAX_HEADER_SIZE + 1 < 0x1_0000_0000
      requires Tracks(f, p0, n0, out0, data, p, marks) && p < |data|
      requires nread == Total(f, COUNT, p0, n0, out0, data[..p]) <= MAX_HEADER_SIZE
      modifies this
      ensures Ended(f, p0, n0, out0, data, q, flow) && (flow != Broken ==> nread <= MAX_HEADER_SIZE)
      ensures flow == More ==> p < q && Tracks(f, p0, n0, out0, data, q, marks')
      ensures flow == More ==> var t := Total(f, COUNT, p0, n0, out0, data[..q]);
                               t <= nread <= t + (if q == |data| then 1 else 0)
      ensures flow != Broken ==> Within(f, p0, n0, out0, data, p, q)
    {
      hide View, Norm, Push, PushAll, Step, IsHttp, Run, Total, PendingKind, BodyFits, Overflows, Within;
      RunFits(f, onHeadersComplete, p0, out0, data[..p]);
      BodyPositive(st);
      marks' := marks;
      if ParsingHeader(st.state) {
        var ok := CountHeaderSize(1);
        if !ok {
          OverflowAt(f, p0, n0, out0, data, p);
          return Broken, p, marks;
        }
      }
      if st.state == HeaderField {
        flow, q, marks' := ScanField(data, p, marks, f, p0, n0, out0);
      } else if st.state == HeaderValue {
        flow, q, marks' := ScanValue(data, p, marks, f, p0, n0, out0);
      } else if Bulk(st.state) {
        WithinReadBody(f, onHeadersComplete, p0, n0, out0, data, p);
        flow, q, marks' := ReadBody(data, p, marks, f, p0, n0, out0);
      } else {
        flow, q, marks' := OneByteTracked(data, p, marks, f, p0, n0, out0);
      }
    }

    /** http_parser_execute. A buffer of 4 GB less the header limit would wrap the 32-bit nread. */
    method Execute(data: Bytes) returns (n: nat)
      requires Valid() && |data| + MAX_HEADER_SIZE + 1 < 0x1_0000_0000
      modifies this
      ensures old(errno) != OK ==> n == 0 && st == old(st) && errno == old(errno) && log == old(log) && nread == old(nread)
      ensures old(errno) == OK && data != [] ==> Executed(Http(onHeadersComplete), old(st), old(nread), old(log), data, n, 1)
      ensures old(errno) == OK && data == [] ==>
                && st == old(st) && nread == old(nread)
                && n == (if old(st).state in {BodyIdentityEof, Dead, StartReqOrRes, StartRes, StartReq} then 0 else 1)
                && errno == (if n == 0 then OK else InvalidEofState)
                && log == old(log) + (if old(st).state == BodyIdentityEof then [MessageComplete] else [])
      ensures errno == OK ==> Valid()
    {
      hide View, Norm, Push, PushAll, Step, IsHttp, Run, Total, PendingKind, BodyFits, Http, Overflows, Within;
      if errno != OK { return 0; }
      if data == [] {
        n := AtEof();
        if st.state == BodyIdentityEof { EofAnchored(st.state, log); }
        return;
      }
      ghost var f, p0, n0, out0 := Http(onHeadersComplete), st, nread, Norm(log);
      HttpIsHttp(onHeadersComplete);
      var p := 0;
      var marks := EntryMarks();
      RunStart(f, p0, n0, out0, data);
      WithinStart(f, p0, n0, out0, data);
      while p < |data|
        invariant Within(f, p0, n0, out0, data, 0, p)
        invariant Tracks(f, p0, n0, out0, data, p, marks) && nread <= MAX_HEADER_SIZE
        invariant var t := Total(f, COUNT, p0, n0, out0, data[..p]); t <= nread <= t + (if p == |data| then 1 else 0)
      {
        var flow, q;
        flow, q, marks := Trip(data, p, marks, f, p0, n0, out0);
        if flow != Broken { WithinJoin(f, p0, n0, out0, data, p, q); }
        if flow != More {
          if flow == Leave { WithinAll(f, p0, n0, out0, data, q); }
          EndedEarly(f, onHeadersComplete, p0, n0, out0, data, q, flow == Leave);
          return q;
        }
        p := q;
      }
      Flush(data, marks);
      assert data[..p] == data;
      WithinAll(f, p0, n0, out0, data, p);
      RunFits(f, onHeadersComplete, p0, out0, data);
      return p;
    }

    /** The way a caller feeds the parser: piece by piece, until a piece is not taken whole.
        (When the parser leaves for another protocol the caller is expected to stop feeding it.) */
    method Feed(pieces: seq<Bytes>) returns (n: nat)
      requires Valid() && errno == OK
      requires forall i :: 0 <= i < |pieces| ==> pieces[i] != [] && |pieces[i]| + MAX_HEADER_SIZE + 1 < 0x1_0000_0000
      modifies this
      ensures var f := Http(onHeadersComplete);
              !Run(f, old(st), old(Norm(log)), Concat(pieces)).Stopped? ==>
                Executed(f, old(st), old(nread), old(log), Concat(pieces), n, |pieces|)
      ensures errno == OK ==> Valid()
    {
      hide Step, Run, Total, Push, PushAll, Norm, BodyFits, PendingKind, Http, Overflows, IsHttp;
      ghost var f, p0, n0, out0 := Http(onHeadersComplete), st, nread, Norm(log);
      ghost var whole := Concat(pieces);
      n := 0;
      RunStart(f, p0, n0, out0, []);
      assert pieces[..0] == [];
      NoneOver(f, p0, n0, out0);
      ghost var none: Bytes := [];
      assert none[..0] == [];
      for i := 0 to |pieces|
        invariant errno == OK && Valid()
        invariant !Run(f, p0, out0, whole).Stopped? ==>
                    && n == |Concat(pieces[..i])| && !Overflows(f, p0, n0, out0, Concat(pieces[..i]), 0)
                    && Run(f, p0, out0, Concat(pieces[..i])) == Running(st, Norm(log))
                    && var t := Total(f, COUNT, p0, n0, out0, Concat(pieces[..i])); t <= nread <= t + i
      {
        ghost var q, m, log1 := st, nread, log;
        var k := Execute(pieces[i]);
        n := n + k;
        if !Run(f, p0, out0, whole).Stopped? {
          OnePiece(f, p0, n0, out0, pieces, i, q, m, Norm(log1));
        }
        if errno != OK || k < |pieces[i]| { return; }
        if !Run(f, p0, out0, whole).Stopped? {
          WithinPieces(f, p0, n0, out0, Concat(pieces[..i]), pieces[i], q, m, Norm(log1), i);
        }
      }
      assert pieces[..|pieces|] == pieces;
    }
  }

  function Concat(pieces: seq<Bytes>): Bytes {
    if pieces == [] then [] else Concat(pieces[..|pieces| - 1]) + pieces[|pieces| - 1]
  }

  lemma ConcatPrefix(pieces: seq<Bytes>, i: nat)
    requires i <= |pieces|
    ensures Concat(pieces[..i]) <= Concat(pieces)
    decreases |pieces|
  {
    if i < |pieces| {
      ConcatPrefix(pieces[..|pieces| - 1], i);
      assert pieces[..|pieces| - 1][..i] == pieces[..i];
    } else {
      assert pieces[..i] == pieces;
    }
  }

  /** What a call on piece i says about the concatenation of all pieces. */
  lemma OnePiece(f: Machine, p0: Parser, n0: nat, out0: seq<Event>, pieces: seq<Bytes>, i: nat, q: Parser, m: nat, out: seq<Event>)
    requires i < |pieces|
    requires Run(f, p0, out0, Concat(pieces[..i])) == Running(q, out)
    requires var t := Total(f, COUNT, p0, n0, out0, Concat(pieces[..i])); t <= m <= t + i
    requires !Run(f, p0, out0, Concat(pieces)).Stopped?
    ensures !Run(f, q, out, pieces[i]).Stopped?
    ensures Concat(pieces[..i + 1]) == Concat(pieces[..i]) + pieces[i]
    ensures match Run(f, q, out, pieces[i]) {
              case Running(q', out') =>
                Run(f, p0, out0, Concat(pieces[..i + 1])) == Running(q', out') &&
                var t := Total(f, COUNT, p0, n0, out0, Concat(pieces[..i + 1]));
                t <= Total(f, COUNT, q, m, out, pieces[i]) <= t + i
              case Stopped(_, _, _) => true
              case Failed(e, k) => Run(f, p0, out0, Concat(pieces)) == Failed(e, |Concat(pieces[..i])| + k)
            }
    ensures Overflows(f, q, m, out, pieces[i], 1) ==> Overflows(f, p0, n0, out0, Concat(pieces), |pieces|)
  {
    hide Push, PushAll, Run, Total;
    var done, x, whole := Concat(pieces[..i]), pieces[i], Concat(pieces);
    assert pieces[..i + 1][..i] == pieces[..i];
    assert Concat(pieces[..i + 1]) == done + x;
    ConcatPrefix(pieces, i + 1);
    assert whole[..|done| + |x|] == done + x;
    RunSplit(f, p0, out0, done, x);
    if !Run(f, q, out, x).Running? {
      RunEnded(f, p0, out0, whole, |done| + |x|);
    } else {
      TotalSplit(f, COUNT, p0, n0, out0, done, x);
      TotalSlack(f, COUNT, q, Total(f, COUNT, p0, n0, out0, done), m, i, out, x);
    }
    if Overflows(f, q, m, out, x, 1) {
      var k :| 0 <= k <= |x| && Run(f, q, out, x[..k]).Running? && Total(f, COUNT, q, m, out, x[..k]) + 1 > MAX_HEADER_SIZE;
      assert whole[..|done| + k] == done + x[..k];
      RunSplit(f, p0, out0, done, x[..k]);
      TotalSplit(f, COUNT, p0, n0, out0, done, x[..k]);
      TotalSlack(f, COUNT, q, Total(f, COUNT, p0, n0, out0, done), m, i, out, x[..k]);
      assert Run(f, p0, out0, whole[..|done| + k]).Running?;
    }
  }

  /** The split of the input does not matter: fed whole or in pieces, a parser ends in the same state, with
      the same error or none, the same count of bytes taken and the same callback stream, unless one of the
      two runs into the header size limit (or the parser leaves for another protocol). */
  method FeedBothWays(a: HttpParser, b: HttpParser, pieces: seq<Bytes>) returns (n: nat, m: nat)
    requires a != b && a.Valid() && b.Valid() && a.errno == b.errno == OK
    requires a.onHeadersComplete == b.onHeadersComplete && a.st == b.st && a.log == b.log && a.nread == b.nread
    requires pieces != [] && forall i :: 0 <= i < |pieces| ==> pieces[i] != []
    requires |Concat(pieces)| + MAX_HEADER_SIZE + 1 < 0x1_0000_0000
    modifies a, b
    ensures !Run(Http(a.onHeadersComplete), old(a.st), old(Norm(a.log)), Concat(pieces)).Stopped? &&
            a.errno != HeaderOverflow && b.errno != HeaderOverflow ==>
              && n == m && a.errno == b.errno
              && (a.errno == OK ==> a.st == b.st && Norm(a.log) == Norm(b.log))
  {
    hide Step, Run, Total, Push, PushAll, Norm, BodyFits, PendingKind, Http, Overflows;
    PiecesFit(pieces);
    n := a.Execute(Concat(pieces));
    m := b.Feed(pieces);
  }

  lemma {:induction false} PiecesFit(pieces: seq<Bytes>)
    ensures forall i :: 0 <= i < |pieces| ==> |pieces[i]| <= |Concat(pieces)|
    ensures pieces != [] && pieces[0] != [] ==> Concat(pieces) != []
  {
    if pieces != [] {
      PiecesFit(pieces[..|pieces| - 1]);
    }
  }

  lemma BodyPositive(p: Parser)
    requires BodyFits(p)
    ensures p.state == BodyIdentity || p.state == ChunkData ==> p.contentLength > 0
  {
  }

  lemma RunStart(f: Machine, p0: Parser, n0: nat, out0: seq<Event>, data: Bytes)
    ensures Run(f, p0, out0, data[..0]) == Running(p0, out0) && Total(f, COUNT, p0, n0, out0, data[..0]) == n0
  {
  }

  lemma OverflowAt(f: Machine, p0: Parser, n0: nat, out0: seq<Event>, data: Bytes, k: nat)
    requires k <= |data| && Run(f, p0, out0, data[..k]).Running? && Total(f, COUNT, p0, n0, out0, data[..k]) + 1 > MAX_HEADER_SIZE
    ensures Overflows(f, p0, n0, out0, data, 1)
  {
  }

  lemma TokenNotLf()
    ensures forall c: Byte :: Token(c) != NUL ==> c != LF
  {
  }

  /** Before its end a run goes on. */
  lemma RunningBefore(f: Machine, p0: Parser, out0: seq<Event>, data: Bytes, k: nat, q: nat)
    requires k <= q <= |data| && Run(f, p0, out0, data[..q]).Running?
    ensures Run(f, p0, out0, data[..k]).Running?
  {
    hide Run;
    assert data[..q][..k] == data[..k];
    if !Run(f, p0, out0, data[..k]).Running? { RunEnded(f, p0, out0, data[..q], k); }
  }

  /** Inside a line the count only grows. */
  lemma {:induction false} GrowsInLine(f: Machine, p0: Parser, n0: nat, out0: seq<Event>, data: Bytes, k: nat, q: nat)
    requires k <= q <= |data| && Run(f, p0, out0, data[..q]).Running? && forall j :: k <= j < q ==> data[j] != LF
    ensures Total(f, COUNT, p0, n0, out0, data[..k]) <= Total(f, COUNT, p0, n0, out0, data[..q])
    decreases q
  {
    hide Run, Total, ParsingHeader;
    if k < q {
      RunningBefore(f, p0, out0, data, q - 1, q);
      TotalOne(f, COUNT, p0, n0, out0, data, q - 1);
      GrowsInLine(f, p0, n0, out0, data, k, q - 1);
    }
  }

  lemma WithinLine(f: Machine, cb: HeadersCallback, p0: Parser, n0: nat, out0: seq<Event>, data: Bytes, p: nat, q: nat)
    requires p <= q <= |data| && Run(f, p0, out0, data[..q]).Running? && forall j :: p <= j < q ==> data[j] != LF
    requires Total(f, COUNT, p0, n0, out0, data[..q]) <= MAX_HEADER_SIZE
    ensures Within(f, p0, n0, out0, data, p, q)
  {
    hide Run, Total;
    forall k | p <= k <= q
      ensures Total(f, COUNT, p0, n0, out0, data[..k]) <= MAX_HEADER_SIZE
    {
      GrowsInLine(f, p0, n0, out0, data, k, q);
    }
  }

  lemma WithinOneMore(f: Machine, p0: Parser, n0: nat, out0: seq<Event>, data: Bytes, p: nat, q: nat)
    requires Within(f, p0, n0, out0, data, p, q) && q < |data|
    requires Run(f, p0, out0, data[..q + 1]).Running? ==> Total(f, COUNT, p0, n0, out0, data[..q + 1]) <= MAX_HEADER_SIZE
    ensures Within(f, p0, n0, out0, data, p, q + 1)
  {
    hide Run, Total;
  }

  lemma WithinBody(f: Machine, cb: HeadersCallback, p0: Parser, n0: nat, out0: seq<Event>, data: Bytes, p: nat, q: nat)
    requires IsHttp(f, cb) && p <= q <= |data| && Total(f, COUNT, p0, n0, out0, data[..p]) <= MAX_HEADER_SIZE
    requires var r := Run(f, p0, out0, data[..p]); r.Running? && ReadingBody(r.p, q - p)
    ensures Within(f, p0, n0, out0, data, p, q)
  {
    hide Run, Total, IsHttp;
    forall k | p <= k <= q
      ensures Total(f, COUNT, p0, n0, out0, data[..k]) <= MAX_HEADER_SIZE
    {
      BodyStretch(f, cb, p0, n0, out0, data, p, k);
    }
  }

  /** How far a stretch of body that begins at p goes in a buffer of this size. */
  function BodyEnd(st: Parser, p: nat, size: nat): nat
    requires p <= size
  {
    if st.state == BodyIdentityEof || size - p < st.contentLength then size else p + st.contentLength
  }

  /** As far as ReadBody goes. */
  lemma WithinReadBody(f: Machine, cb: HeadersCallback, p0: Parser, n0: nat, out0: seq<Event>, data: Bytes, p: nat)
    requires IsHttp(f, cb) && p < |data| && Total(f, COUNT, p0, n0, out0, data[..p]) <= MAX_HEADER_SIZE
    requires var r := Run(f, p0, out0, data[..p]);
             r.Running? && (r.p.state == BodyIdentityEof || ((r.p.state == BodyIdentity || r.p.state == ChunkData) && r.p.contentLength > 0))
    ensures Within(f, p0, n0, out0, data, p, BodyEnd(Run(f, p0, out0, data[..p]).p, p, |data|))
  {
    hide Run, Total, IsHttp, Within;
    var st, left := Run(f, p0, out0, data[..p]).p, |data| - p;
    if st.state == BodyIdentityEof || left < st.contentLength {
      WithinBody(f, cb, p0, n0, out0, data, p, |data|);
    } else {
      var q := p + st.contentLength;
      LastByteAfter(f, cb, p0, n0, out0, data, p, q);
      WithinBody(f, cb, p0, n0, out0, data, p, q - 1);
      WithinOneMore(f, p0, n0, out0, data, p, q - 1);
    }
  }

  lemma WithinStart(f: Machine, p0: Parser, n0: nat, out0: seq<Event>, data: Bytes)
    requires n0 <= MAX_HEADER_SIZE
    ensures Within(f, p0, n0, out0, data, 0, 0)
  {
    RunStart(f, p0, n0, out0, data);
  }

  lemma WithinJoin(f: Machine, p0: Parser, n0: nat, out0: seq<Event>, data: Bytes, p: nat, q: nat)
    requires Within(f, p0, n0, out0, data, 0, p) && Within(f, p0, n0, out0, data, p, q)
    ensures Within(f, p0, n0, out0, data, 0, q)
  {
    hide Run, Total;
  }

  /** Up to the end of the run is up to the end of the data. */
  lemma WithinAll(f: Machine, p0: Parser, n0: nat, out0: seq<Event>, data: Bytes, q: nat)
    requires q <= |data| && Within(f, p0, n0, out0, data, 0, q) && (q < |data| ==> !Run(f, p0, out0, data[..q]).Running?)
    ensures !Overflows(f, p0, n0, out0, data, 0)
  {
    hide Run, Total;
    forall k | 0 <= k <= |data| && Run(f, p0, out0, data[..k]).Running?
      ensures Total(f, COUNT, p0, n0, out0, data[..k]) <= MAX_HEADER_SIZE
    {
      if q < k { RunningBefore(f, p0, out0, data, q, k); }
    }
  }

  lemma NoneOver(f: Machine, p0: Parser, n0: nat, out0: seq<Event>)
    requires n0 <= MAX_HEADER_SIZE
    ensures !Overflows(f, p0, n0, out0, [], 0)
  {
    var none: Bytes := [];
    RunStart(f, p0, n0, out0, none);
    assert forall k :: 0 <= k <= |none| ==> none[..k] == [];
  }

  /** A piece within the limit after pieces within the limit. */
  lemma WithinPieces(f: Machine, p0: Parser, n0: nat, out0: seq<Event>, done: Bytes, x: Bytes, q: Parser, m: nat, out: seq<Event>, slack: nat)
    requires Run(f, p0, out0, done) == Running(q, out) && !Overflows(f, p0, n0, out0, done, 0) && !Overflows(f, q, m, out, x, 0)
    requires var t := Total(f, COUNT, p0, n0, out0, done); t <= m <= t + slack
    ensures !Overflows(f, p0, n0, out0, done + x, 0)
  {
    hide Run, Total;
    var whole := done + x;
    forall k | 0 <= k <= |whole| && Run(f, p0, out0, whole[..k]).Running?
      ensures Total(f, COUNT, p0, n0, out0, whole[..k]) <= MAX_HEADER_SIZE
    {
      if k <= |done| {
        assert whole[..k] == done[..k];
      } else {
        var y := x[..k - |done|];
        assert whole[..k] == done + y;
        RunSplit(f, p0, out0, done, y);
        TotalSplit(f, COUNT, p0, n0, out0, done, y);
        TotalSlack(f, COUNT, q, Total(f, COUNT, p0, n0, out0, done), m, slack, out, y);
      }
    }
  }

  lemma EofAnchored(s: State, log: seq<Event>)
    requires s == BodyIdentityEof
    ensures Anchored(s, Norm(log))
  {
  }

  lemma RunByByte(f: Machine, cb: HeadersCallback, p0: Parser, n0: nat, out0: seq<Event>, data: Bytes, p: nat)
    requires IsHttp(f, cb) && p < |data| && Run(f, p0, out0, data[..p]).Running?
    ensures var r := Run(f, p0, out0, data[..p]);
            Run(f, p0, out0, data[..p + 1]) ==
            match Step(r.p, data[p], cb) {
              case Next(q, es) => Running(q, PushAll(r.out, es))
              case Stop(q, es) => Stopped(q, PushAll(r.out, es), p + 1)
              case Fail(e) => Failed(e, p)
            }
    ensures var r := Run(f, p0, out0, data[..p]);
            Total(f, COUNT, p0, n0, out0, data[..p + 1]) ==
            Count(r.p, data[p], Total(f, COUNT, p0, n0, out0, data[..p]))
  {
    hide Step, Push, Count;
    RunOne(f, p0, out0, data, p);
    TotalOne(f, COUNT, p0, n0, out0, data, p);
    var r := Run(f, p0, out0, data[..p]);
    assert f(r.p, data[p]) == Step(r.p, data[p], cb);
  }

  /** A run over a prefix that ended is the run over the whole data. */
  lemma EndedEarly(f: Machine, cb: HeadersCallback, p0: Parser, n0: nat, out0: seq<Event>, data: Bytes, q: nat, left: bool)
    requires IsHttp(f, cb)
    ensures left && q <= |data| && Run(f, p0, out0, data[..q]).Stopped? ==>
              Run(f, p0, out0, data) == Run(f, p0, out0, data[..q]) &&
              (BodyFits(p0) ==> BodyFits(Run(f, p0, out0, data).p)) &&
              !MustMark(Run(f, p0, out0, data).p.state)
    ensures !left && q < |data| && Run(f, p0, out0, data[..q + 1]).Failed? ==>
              Run(f, p0, out0, data) == Run(f, p0, out0, data[..q + 1])
  {
    hide Step, Push, IsHttp, BodyFits;
    if left && q <= |data| && Run(f, p0, out0, data[..q]).Stopped? {
      RunEnded(f, p0, out0, data, q);
      RunFits(f, cb, p0, out0, data);
      StopUnmarked(f, cb, p0, out0, data);
    }
    if !left && q < |data| && Run(f, p0, out0, data[..q + 1]).Failed? {
      RunEnded(f, p0, out0, data, q + 1);
    }
  }

  lemma {:induction false} StopUnmarked(f: Machine, cb: HeadersCallback, p0: Parser, out0: seq<Event>, data: Bytes)
    requires IsHttp(f, cb) && Run(f, p0, out0, data).Stopped?
    ensures !MustMark(Run(f, p0, out0, data).p.state)
  {
    hide Step, Push, MustMark;
    var r := Run(f, p0, out0, data[..|data| - 1]);
    if r.Running? {
      var c := data[|data| - 1];
      assert f(r.p, c) == Step(r.p, c, cb);
      StepStops(r.p, c, cb);
    } else {
      StopUnmarked(f, cb, p0, out0, data[..|data| - 1]);
    }
  }

  /** The parser only leaves at the end of a message, ready for the next one. */
  lemma StepStops(p: Parser, c: Byte, cb: HeadersCallback)
    ensures Step(p, c, cb).Stop? ==> !MustMark(Step(p, c, cb).p.state)
  {
    hide StepRequestLine, StepHeader, StepBody, StepStatusLine, StepStart, MustMark;
    if InRequestLine(p.state) { StepStopsRequest(p, c); }
    else if InHeader(p.state) { StepStopsHeader(p, c, cb); }
    else if InBody(p.state) { StepStopsBody(p, c); }
    else { StepStopsStart(p, c); }
  }

  lemma StepStopsRequest(p: Parser, c: Byte)
    ensures !StepRequestLine(p, c).Stop?
  {
    hide OtherMethod, FirstMethod, MethodString, UrlChar;
  }

  lemma AlmostDoneStops(p: Parser, c: Byte, cb: HeadersCallback)
    ensures var o := OnHeadersAlmostDone(p, c, cb); o.Stop? ==> !MustMark(o.p.state)
  {
  }

  lemma FieldStartStops(p: Parser, c: Byte, cb: HeadersCallback)
    ensures var o := OnFieldStart(p, c, cb); o.Stop? ==> !MustMark(o.p.state)
  {
    hide OnHeadersAlmostDone;
    AlmostDoneStops(p.(state := HeadersAlmostDone), c, cb);
  }

  lemma FieldsDoNotStop(p: Parser, c: Byte)
    ensures !OnField(p, c).Stop? && !OnValueStart(p, c).Stop? && !OnValue(p, c).Stop? && !OnDiscardWs(p, c).Stop?
  {
    hide ValueStart, ValueChar, FieldChar;
  }

  lemma DoneStops(p: Parser, c: Byte)
    ensures OnHeadersDone(p, c).Stop? ==> !MustMark(OnHeadersDone(p, c).p.state)
  {
    hide NewMessage, NeedsEof, MustMark;
    NewMessageUnmarked(p);
  }

  lemma LinesStop(p: Parser, c: Byte, cb: HeadersCallback)
    ensures var o := OnDiscardLws(p, c, cb); o.Stop? ==> !MustMark(o.p.state)
    ensures var o := OnValueLws(p, c, cb); o.Stop? ==> !MustMark(o.p.state)
  {
    hide OnFieldStart, OnValueStart, FinalFlagFor, MustMark;
    FieldsDoNotStop(p, c);
    FieldStartStops(p.(flags := FinalFlagFor(p.flags, p.headerState), state := HeaderFieldStart), c, cb);
  }

  lemma StepStopsHeader(p: Parser, c: Byte, cb: HeadersCallback)
    ensures var o := StepHeader(p, c, cb); o.Stop? ==> !MustMark(o.p.state)
  {
    hide OnFieldStart, OnField, OnDiscardWs, OnDiscardLws, OnValueStart, OnValue, OnValueLws, OnHeadersAlmostDone, OnHeadersDone, MustMark;
    AlmostDoneStops(p, c, cb);
    FieldStartStops(p, c, cb);
    FieldsDoNotStop(p, c);
    DoneStops(p, c);
    LinesStop(p, c, cb);
  }

  lemma StepStopsBody(p: Parser, c: Byte)
    ensures StepBody(p, c).Stop? ==> !MustMark(StepBody(p, c).p.state)
  {
  }

  lemma StepStopsStart(p: Parser, c: Byte)
    ensures !StepStart(p, c).Stop? && !StepStatusLine(p, c).Stop?
  {
    hide FirstMethod;
  }

  lemma PushEndsWith(out: seq<Event>, k: DataKind, x: Bytes)
    ensures EndsWith(Push(out, Data(k, x)), k)
  {
  }

  lemma NewMessageUnmarked(p: Parser)
    ensures !MustMark(NewMessage(p)) && PendingKind(NewMessage(p)) == None
  {
  }

  /** The stream after a piece of body has been taken. */
  lemma BodyView(s: State, t: State, log: seq<Event>, marks: Marks, marks': Marks, data: Bytes, p: nat, q: nat)
    requires p < q <= |data| && MarksFit(s, marks, p) && PendingKind(s) == PendingKind(t) == Some(Body)
    requires marks' == if Body in marks then marks else marks[Body := p]
    ensures MarksFit(t, marks', q)
    ensures View(t, log, marks', data, q) == PushData(View(s, log, marks, data, p), Body, data[p..q])
  {
    if Body in marks {
      ViewGrows(s, log, marks, data, p, q, Body);
    }
  }

  lemma BodyStretch(f: Machine, cb: HeadersCallback, p0: Parser, n0: nat, out0: seq<Event>, data: Bytes, i: nat, j: nat)
    requires IsHttp(f, cb) && i <= j <= |data|
    requires var r := Run(f, p0, out0, data[..i]); r.Running? && ReadingBody(r.p, j - i)
    ensures var r := Run(f, p0, out0, data[..i]);
            Run(f, p0, out0, data[..j]) == Running(BodyRead(r.p, j - i), PushData(r.out, Body, data[i..j]))
    ensures Total(f, COUNT, p0, n0, out0, data[..j]) == Total(f, COUNT, p0, n0, out0, data[..i])
  {
    hide Step, Count, IsHttp, Push;
    assert data[..j] == data[..i] + data[i..j];
    RunSplit(f, p0, out0, data[..i], data[i..j]);
    TotalSplit(f, COUNT, p0, n0, out0, data[..i], data[i..j]);
    var r := Run(f, p0, out0, data[..i]);
    BodyRun(f, cb, r.p, Total(f, COUNT, p0, n0, out0, data[..i]), r.out, data[i..j]);
  }

  /** All but the last byte of the stretch that ends the body or the chunk, and then that byte. */
  lemma LastByteAfter(f: Machine, cb: HeadersCallback, p0: Parser, n0: nat, out0: seq<Event>, data: Bytes, i: nat, j: nat)
    requires IsHttp(f, cb) && i < j <= |data|
    requires var r := Run(f, p0, out0, data[..i]);
             r.Running? && (r.p.state == BodyIdentity || r.p.state == ChunkData) && r.p.contentLength == j - i
    ensures Total(f, COUNT, p0, n0, out0, data[..j]) == Total(f, COUNT, p0, n0, out0, data[..i])
    ensures var r := Run(f, p0, out0, data[..i]);
            Run(f, p0, out0, data[..j]) ==
            Advance(f, Running(r.p.(contentLength := 1), PushData(r.out, Body, data[i..j - 1])), data[j - 1], j - 1)
  {
    hide Step, Count, IsHttp, Push, PushData, OnMessageDone, Run, Total, Advance;
    var r := Run(f, p0, out0, data[..i]);
    BodyStretch(f, cb, p0, n0, out0, data, i, j - 1);
    RunOne(f, p0, out0, data, j - 1);
    TotalOne(f, COUNT, p0, n0, out0, data, j - 1);
    LastStep(f, r.p.(contentLength := 1), data[j - 1], cb);
  }

  /** The stretch that ends the body or the chunk. */
  lemma LastBodyByte(f: Machine, cb: HeadersCallback, p0: Parser, n0: nat, out0: seq<Event>, data: Bytes, i: nat, j: nat)
    requires IsHttp(f, cb) && i < j <= |data|
    requires var r := Run(f, p0, out0, data[..i]);
             r.Running? && (r.p.state == BodyIdentity || r.p.state == ChunkData) && r.p.contentLength == j - i
    ensures Total(f, COUNT, p0, n0, out0, data[..j]) == Total(f, COUNT, p0, n0, out0, data[..i])
    ensures var r := Run(f, p0, out0, data[..i]);
            var out := PushData(r.out, Body, data[i..j]);
            var done := r.p.(contentLength := 0, state := MessageDone);
            Run(f, p0, out0, data[..j]) ==
            if r.p.state == ChunkData then Running(r.p.(contentLength := 0, state := ChunkDataAlmostDone), out)
            else
              var o := OnMessageDone(done);
              if o.Stop? then Stopped(o.p, PushAll(out, o.es), j) else Running(o.p, PushAll(out, o.es))
  {
    hide Step, Count, IsHttp, Push, PushAll, PushData, OnMessageDone, Run, Total;
    var r, c := Run(f, p0, out0, data[..i]), data[j - 1];
    LastByteAfter(f, cb, p0, n0, out0, data, i, j);
    LastStep(f, r.p.(contentLength := 1), c, cb);
    assert data[i..j] == data[i..j - 1] + [c];
    PushDataOne(r.out, Body, data[i..j - 1], c);
    if r.p.state == BodyIdentity {
      DoneOutcome(r.p.(contentLength := 0, state := MessageDone));
      PushAllSplit(PushData(r.out, Body, data[i..j - 1]), [Data(Body, [c])], [MessageComplete]);
    }
  }

  lemma DoneOutcome(p: Parser)
    ensures !OnMessageDone(p).Fail? && OnMessageDone(p).es == [MessageComplete]
  {
  }

  lemma GeneralStretch(f: Machine, cb: HeadersCallback, p0: Parser, n0: nat, out0: seq<Event>, data: Bytes, i: nat, j: nat)
    requires IsHttp(f, cb) && i <= j <= |data|
    requires var r := Run(f, p0, out0, data[..i]); r.Running? && r.p.state == HeaderValue && r.p.headerState == General
    requires forall k :: i <= k < j ==> data[k] != CR && data[k] != LF
    ensures var r := Run(f, p0, out0, data[..i]);
            Run(f, p0, out0, data[..j]) == Running(r.p, PushData(r.out, Value, data[i..j]))
    ensures Total(f, COUNT, p0, n0, out0, data[..j]) == Total(f, COUNT, p0, n0, out0, data[..i]) + (j - i)
  {
    hide Step, Count, IsHttp, Push;
    assert data[..j] == data[..i] + data[i..j];
    RunSplit(f, p0, out0, data[..i], data[i..j]);
    TotalSplit(f, COUNT, p0, n0, out0, data[..i], data[i..j]);
    var r := Run(f, p0, out0, data[..i]);
    GeneralRun(f, cb, r.p, Total(f, COUNT, p0, n0, out0, data[..i]), r.out, data[i..j]);
  }

  lemma ValueCharStays(p: Parser, c: Byte)
    ensures ValueChar(p, c).Some? ==> ValueChar(p, c).value.state == p.state
  {
  }

  lemma ValueStep(f: Machine, p: Parser, c: Byte, cb: HeadersCallback)
    requires IsHttp(f, cb) && p.state == HeaderValue
    ensures f(p, c) == OnValue(p, c)
    ensures forall n: nat :: COUNT(p, c, n) == n + 1
  {
    hide StepRequestLine, StepBody, StepStatusLine, StepStart, OnValue;
    assert f(p, c) == Step(p, c, cb);
  }

  /** One byte in s_header_value, in terms of runs. */
  lemma ValueByte(f: Machine, cb: HeadersCallback, p0: Parser, n0: nat, out0: seq<Event>, data: Bytes, q: nat)
    requires IsHttp(f, cb) && q < |data|
    requires var r := Run(f, p0, out0, data[..q]); r.Running? && r.p.state == HeaderValue
    ensures Total(f, COUNT, p0, n0, out0, data[..q + 1]) == Total(f, COUNT, p0, n0, out0, data[..q]) + 1
    ensures var r, c := Run(f, p0, out0, data[..q]), data[q];
            Run(f, p0, out0, data[..q + 1]) ==
            if c == CR then Running(r.p.(state := HeaderAlmostDone), r.out)
            else if c == LF then Running(r.p.(state := HeaderValueLws), r.out)
            else match ValueChar(r.p, c)
              case None => Failed(InvalidContentLength, q)
              case Some(s) => Running(s, PushAll(r.out, [Data(Value, [c])]))
  {
    hide Step, Count, IsHttp, Push, ValueChar;
    RunOne(f, p0, out0, data, q);
    TotalOne(f, COUNT, p0, n0, out0, data, q);
    ValueStep(f, Run(f, p0, out0, data[..q]).p, data[q], cb);
  }

  /** One byte in s_header_field, in terms of runs. */
  lemma FieldByte(f: Machine, cb: HeadersCallback, p0: Parser, n0: nat, out0: seq<Event>, data: Bytes, q: nat)
    requires IsHttp(f, cb) && q < |data|
    requires var r := Run(f, p0, out0, data[..q]); r.Running? && r.p.state == HeaderField
    ensures Total(f, COUNT, p0, n0, out0, data[..q + 1]) == Total(f, COUNT, p0, n0, out0, data[..q]) + 1
    ensures var r, c := Run(f, p0, out0, data[..q]), data[q];
            Run(f, p0, out0, data[..q + 1]) ==
            if Token(c) != NUL then Running(FieldChar(r.p, c), PushAll(r.out, [Data(Field, [c])]))
            else if c == ':' then Running(r.p.(state := HeaderValueDiscardWs), r.out)
            else Failed(InvalidHeaderToken, q)
  {
    hide Step, Count, IsHttp, Push;
    RunOne(f, p0, out0, data, q);
    TotalOne(f, COUNT, p0, n0, out0, data, q);
    FieldStep(f, Run(f, p0, out0, data[..q]).p, data[q], cb);
  }

  lemma FieldStep(f: Machine, p: Parser, c: Byte, cb: HeadersCallback)
    requires IsHttp(f, cb) && p.state == HeaderField
    ensures f(p, c) == OnField(p, c)
    ensures forall n: nat :: COUNT(p, c, n) == n + 1
  {
    hide StepRequestLine, StepBody, StepStatusLine, StepStart, OnField;
    assert f(p, c) == Step(p, c, cb);
  }
}
