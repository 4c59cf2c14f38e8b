/** Message framing: the numbers that give body lengths, and bodies delivered exactly. */
module HttpFraming {
  import opened HttpTypes
  import opened Streaming
  import opened HttpStep
  import opened HttpRun
  import opened HttpHeaders

  const CRLF: Bytes := [CR, LF]

  // ----- Content-Length -----

  /** The decimal number written by the digits of v, blanks skipped. */
  function DecValue(v: Bytes): nat {
    if v == [] then 0
    else
      var n := DecValue(v[..|v| - 1]);
      if IsNum(v[|v| - 1]) then 10 * n + Digit(v[|v| - 1]) else n
  }

  predicate LengthText(v: Bytes) { forall i :: 0 <= i < |v| ==> IsNum(v[i]) || v[i] == ' ' }

  /** The largest Content-Length taken: the guard compares all but the last digit with (ULLONG_MAX - 10) / 10. */
  const MAX_CONTENT_LENGTH: nat := 18446744073709551609

  lemma LengthFirst(f: Machine, cb: HeadersCallback, p: Parser, c: Byte)
    requires IsHttp(f, cb) && p.state == HeaderValueDiscardWs && p.headerState == HContentLength && IsValue([c])
    ensures f(p, c) == if IsNum(c) then Next(p.(state := HeaderValue, index := 0, contentLength := Digit(c)), [Data(Value, [c])])
                       else Fail(InvalidContentLength)
  {
    hide IsHttp;
    assert [c][0] == c;
    ValueStartStep(f, cb, p, c);
  }

  lemma LengthNext(f: Machine, cb: HeadersCallback, p: Parser, c: Byte)
    requires IsHttp(f, cb) && p.state == HeaderValue && p.headerState == HContentLength && c != CR && c != LF
    ensures f(p, c) ==
            if c == ' ' then Next(p, [Data(Value, [c])])
            else if IsNum(c) && p.contentLength * 10 + Digit(c) <= MAX_CONTENT_LENGTH
            then Next(p.(contentLength := p.contentLength * 10 + Digit(c)), [Data(Value, [c])])
            else Fail(InvalidContentLength)
  {
    hide IsHttp;
    ValueCharStep(f, cb, p, c);
  }

  lemma DecMore(x: Bytes, c: Byte)
    ensures DecValue(x + [c]) == if IsNum(c) then 10 * DecValue(x) + Digit(c) else DecValue(x)
    ensures LengthText(x + [c]) <==> LengthText(x) && (IsNum(c) || c == ' ')
  {
    hide IsNum, Digit;
    var v := x + [c];
    assert v[..|x|] == x && v[|x|] == c;
    assert forall i :: 0 <= i < |x| ==> v[i] == x[i];
  }

  lemma NoDigits()
    ensures DecValue([]) == 0 && LengthText([])
  {
  }

  /** A Content-Length value is taken exactly when it is made of digits (and blanks) and its number fits; the
      length is then that number: it never wraps and never is the ULLONG_MAX that means "none". */
  lemma {:induction false} LengthRecognised(f: Machine, cb: HeadersCallback, p: Parser, out: seq<Event>, v: Bytes)
    requires IsHttp(f, cb) && p.state == HeaderValueDiscardWs && p.headerState == HContentLength && IsValue(v)
    ensures var r := Run(f, p, out, v);
            if LengthText(v) && DecValue(v) <= MAX_CONTENT_LENGTH
            then r == Running(p.(state := HeaderValue, index := 0, contentLength := DecValue(v)), Push(out, Data(Value, v)))
            else r.Failed? && r.e == InvalidContentLength
  {
    hide IsHttp, Push, PushAll, Run, DecValue, LengthText, IsNum, Digit;
    var x, c := v[..|v| - 1], v[|v| - 1];
    assert v == x + [c];
    DecMore(x, c);
    RunLast(f, p, out, x, c);
    if x == [] {
      RunNothing(f, p, out);
      NoDigits();
      assert v == [c];
      LengthFirst(f, cb, p, c);
      assert c != ' ';
      assert IsNum(c) ==> Digit(c) < 10 by { DigitIs(c); }
      PushOne(out, Data(Value, [c]));
    } else {
      assert forall i :: 0 <= i < |x| ==> x[i] == v[i];
      LengthRecognised(f, cb, p, out, x);
      if LengthText(x) && DecValue(x) <= MAX_CONTENT_LENGTH {
        var r := Run(f, p, out, x);
        LengthNext(f, cb, r.p, c);
        PushOne(r.out, Data(Value, [c]));
        PushMerge(out, Value, x, [c]);
        BlankIs();
      }
    }
  }

  lemma DigitIs(c: Byte)
    ensures IsNum(c) ==> Digit(c) < 10
  {
  }

  lemma BlankIs()
    ensures !IsNum(' ')
  {
  }

  // ----- chunk sizes -----

  predicate SizeText(v: Bytes) { v != [] && forall i :: 0 <= i < |v| ==> Unhex(v[i]) != -1 }

  function HexValue(v: Bytes): nat {
    if v == [] then 0
    else
      var n := HexValue(v[..|v| - 1]);
      if Unhex(v[|v| - 1]) != -1 then 16 * n + Unhex(v[|v| - 1]) else n
  }

  /** The largest chunk size taken. */
  const MAX_CHUNK: nat := ULLONG_MAX - 16

  lemma SizeStep(f: Machine, cb: HeadersCallback, p: Parser, c: Byte)
    requires IsHttp(f, cb) && InChunks(p.state)
    ensures f(p, c) == StepBody(p, c)
  {
    hide StepBody, StepRequestLine, StepHeader, StepStatusLine, StepStart;
    assert f(p, c) == Step(p, c, cb);
  }

  lemma SizeFirst(f: Machine, cb: HeadersCallback, p: Parser, c: Byte)
    requires IsHttp(f, cb) && p.state == ChunkSizeStart && Unhex(c) != -1
    ensures f(p, c) == Next(p.(contentLength := Unhex(c), state := ChunkSize), [])
  {
    hide IsHttp;
    SizeStep(f, cb, p, c);
  }

  lemma SizeNext(f: Machine, cb: HeadersCallback, p: Parser, c: Byte)
    requires IsHttp(f, cb) && p.state == ChunkSize && Unhex(c) != -1
    ensures f(p, c) ==
            if p.contentLength * 16 + Unhex(c) <= MAX_CHUNK then Next(p.(contentLength := p.contentLength * 16 + Unhex(c)), [])
            else Fail(InvalidContentLength)
  {
    hide IsHttp;
    SizeStep(f, cb, p, c);
  }

  lemma HexMore(x: Bytes, c: Byte)
    requires Unhex(c) != -1
    ensures HexValue(x + [c]) == 16 * HexValue(x) + Unhex(c)
  {
    hide Unhex;
    assert (x + [c])[..|x|] == x;
  }

  /** A chunk size is taken exactly when it fits: it never wraps nor reaches ULLONG_MAX. */
  lemma {:induction false} SizeRecognised(f: Machine, cb: HeadersCallback, p: Parser, out: seq<Event>, v: Bytes)
    requires IsHttp(f, cb) && p.state == ChunkSizeStart && SizeText(v)
    ensures var r := Run(f, p, out, v);
            if HexValue(v) <= MAX_CHUNK
            then r == Running(p.(state := ChunkSize, contentLength := HexValue(v)), out)
            else r.Failed? && r.e == InvalidContentLength
  {
    hide IsHttp, Push, PushAll, Run, Unhex, HexValue;
    var x, c := v[..|v| - 1], v[|v| - 1];
    assert v == x + [c];
    PushAllNone(out);
    HexMore(x, c);
    RunLast(f, p, out, x, c);
    if x == [] {
      RunNothing(f, p, out);
      HexNone();
      SizeFirst(f, cb, p, c);
    } else {
      assert forall i :: 0 <= i < |x| ==> x[i] == v[i];
      SizeRecognised(f, cb, p, out, x);
      if HexValue(x) <= MAX_CHUNK {
        SizeNext(f, cb, Run(f, p, out, x).p, c);
      }
    }
  }

  lemma HexNone()
    ensures HexValue([]) == 0
  {
  }

  // ----- chunks -----

  /** One chunk as it is sent: its size in hexadecimal, an optional extension, its data. */
  datatype Chunk = Chunk(size: Bytes, ext: Bytes, data: Bytes)

  predicate ExtText(ext: Bytes) {
    ext == [] || ((ext[0] == ';' || ext[0] == ' ') && forall i :: 0 <= i < |ext| ==> ext[i] != CR)
  }

  predicate ValidChunk(c: Chunk) {
    SizeText(c.size) && ExtText(c.ext) && HexValue(c.size) == |c.data| <= MAX_CHUNK
  }

  function ChunkHead(c: Chunk): Bytes { c.size + c.ext + CRLF }

  function ChunkText(c: Chunk): Bytes { ChunkHead(c) + c.data + CRLF }

  function ChunksText(cs: seq<Chunk>): Bytes {
    if cs == [] then [] else ChunksText(cs[..|cs| - 1]) + ChunkText(cs[|cs| - 1])
  }

  function ChunksEvents(cs: seq<Chunk>): seq<Event> {
    if cs == [] then []
    else ChunksEvents(cs[..|cs| - 1]) + [ChunkHeader(|cs[|cs| - 1].data|), Data(Body, cs[|cs| - 1].data), ChunkComplete]
  }

  lemma {:induction false} ExtRun(f: Machine, cb: HeadersCallback, p: Parser, out: seq<Event>, ext: Bytes)
    requires IsHttp(f, cb) && p.state == ChunkSize && ExtText(ext)
    ensures Run(f, p, out, ext) == Running(p.(state := if ext == [] then ChunkSize else ChunkParameters), out)
  {
    hide IsHttp, Push, Run;
    if ext == [] {
      RunNothing(f, p, out);
    } else {
      var x, c := ext[..|ext| - 1], ext[|ext| - 1];
      assert ext == x + [c];
      assert forall i :: 0 <= i < |x| ==> x[i] == ext[i];
      ExtRun(f, cb, p, out, x);
      RunLast(f, p, out, x, c);
      SizeStep(f, cb, Run(f, p, out, x).p, c);
    }
  }

  /** The parser after the line that announces a chunk of n bytes. */
  function Announced(p: Parser, n: nat): Parser {
    if n == 0 then p.(contentLength := 0, flags := p.flags.(trailing := true), state := HeaderFieldStart)
    else p.(contentLength := n, state := ChunkData)
  }

  lemma SizeEnds(f: Machine, cb: HeadersCallback, p: Parser)
    requires IsHttp(f, cb)
    ensures p.state == ChunkSize || p.state == ChunkParameters ==> f(p, CR) == Next(p.(state := ChunkSizeAlmostDone), [])
    ensures p.state == ChunkSizeAlmostDone ==> f(p, LF) == Next(Announced(p, p.contentLength), [ChunkHeader(p.contentLength)])
    ensures p.state == ChunkDataAlmostDone ==> f(p, CR) == Next(p.(state := ChunkDataDone), [])
    ensures p.state == ChunkDataDone ==> f(p, LF) == Next(p.(state := ChunkSizeStart), [ChunkComplete])
  {
    hide IsHttp, OnMessageDone, OnChunkData, OnBodyIdentity, OnChunkSizeStart;
    if InChunks(p.state) {
      SizeStep(f, cb, p, CR);
      SizeStep(f, cb, p, LF);
    }
  }

  lemma SizeAndExt(f: Machine, cb: HeadersCallback, p: Parser, out: seq<Event>, c: Chunk)
    requires IsHttp(f, cb) && p.state == ChunkSizeStart && ValidChunk(c)
    ensures Run(f, p, out, c.size + c.ext) ==
            Running(p.(contentLength := |c.data|, state := if c.ext == [] then ChunkSize else ChunkParameters), out)
  {
    hide IsHttp, Run, HexValue, SizeText, ExtText;
    var p1 := p.(state := ChunkSize, contentLength := |c.data|);
    SizeRecognised(f, cb, p, out, c.size);
    ExtRun(f, cb, p1, out, c.ext);
    Then(f, p, out, c.size, c.ext, p1, out);
  }

  lemma ChunkHeadRun(f: Machine, cb: HeadersCallback, p: Parser, out: seq<Event>, c: Chunk)
    requires IsHttp(f, cb) && p.state == ChunkSizeStart && ValidChunk(c)
    ensures Run(f, p, out, ChunkHead(c)) == Running(Announced(p, |c.data|), out + [ChunkHeader(|c.data|)])
  {
    hide IsHttp, Run, ValidChunk, PushAll;
    var n, x := |c.data|, c.size + c.ext;
    SizeAndExt(f, cb, p, out, c);
    var p2 := Run(f, p, out, x).p;
    RunLast(f, p, out, x, CR);
    SizeEnds(f, cb, p2);
    PushAllNone(out);
    var p3 := p2.(state := ChunkSizeAlmostDone);
    RunLast(f, p, out, x + [CR], LF);
    SizeEnds(f, cb, p3);
    PushOne(out, ChunkHeader(n));
    assert ChunkHead(c) == x + [CR] + [LF];
  }

  /** The data of a chunk, or a body of known length but for what its last byte brings about. */
  lemma DataRun(f: Machine, cb: HeadersCallback, p: Parser, out: seq<Event>, data: Bytes)
    requires IsHttp(f, cb) && p.state == ChunkData && p.contentLength == |data| > 0 && !EndsWith(out, Body)
    ensures Run(f, p, out, data) == Running(p.(contentLength := 0, state := ChunkDataAlmostDone), out + [Data(Body, data)])
  {
    hide IsHttp, Run, EndsWith;
    var x, c := data[..|data| - 1], data[|data| - 1];
    assert data == x + [c];
    BodyRun(f, cb, p, 0, out, x);
    RunLast(f, p, out, x, c);
    LastStep(f, BodyRead(p, |x|), c, cb);
    PushDataOne(out, Body, x, c);
  }

  lemma ChunkEnd(f: Machine, cb: HeadersCallback, p: Parser, out: seq<Event>)
    requires IsHttp(f, cb) && p.state == ChunkDataAlmostDone
    ensures Run(f, p, out, CRLF) == Running(p.(state := ChunkSizeStart), out + [ChunkComplete])
  {
    hide IsHttp, Run, PushAll;
    var q := p.(state := ChunkDataDone);
    SizeEnds(f, cb, p);
    SizeEnds(f, cb, q);
    RunByte(f, p, out, CR);
    PushAllNone(out);
    RunByte(f, q, out, LF);
    PushOne(out, ChunkComplete);
    Then(f, p, out, [CR], [LF], q, out);
    assert [CR] + [LF] == CRLF;
  }

  lemma ChunkRun(f: Machine, cb: HeadersCallback, p: Parser, out: seq<Event>, c: Chunk)
    requires IsHttp(f, cb) && p.state == ChunkSizeStart && ValidChunk(c) && c.data != []
    ensures Run(f, p, out, ChunkText(c)) ==
            Running(p.(contentLength := 0), out + [ChunkHeader(|c.data|), Data(Body, c.data), ChunkComplete])
  {
    hide IsHttp, Run, ValidChunk, ChunkHead;
    var n := |c.data|;
    var o1 := out + [ChunkHeader(n)];
    var o2 := o1 + [Data(Body, c.data)];
    ChunkHeadRun(f, cb, p, out, c);
    var p1 := Announced(p, n);
    DataRun(f, cb, p1, o1, c.data);
    Then(f, p, out, ChunkHead(c), c.data, p1, o1);
    var p2 := p1.(contentLength := 0, state := ChunkDataAlmostDone);
    ChunkEnd(f, cb, p2, o2);
    Then(f, p, out, ChunkHead(c) + c.data, CRLF, p2, o2);
    assert o2 + [ChunkComplete] == out + [ChunkHeader(n), Data(Body, c.data), ChunkComplete];
  }

  /** Any list of chunks is delivered exactly and in order, chunk by chunk. */
  lemma {:induction false} ChunksRun(f: Machine, cb: HeadersCallback, p: Parser, out: seq<Event>, cs: seq<Chunk>)
    requires IsHttp(f, cb) && p.state == ChunkSizeStart
    requires forall i :: 0 <= i < |cs| ==> ValidChunk(cs[i]) && cs[i].data != []
    ensures Run(f, p, out, ChunksText(cs)) ==
            Running(if cs == [] then p else p.(contentLength := 0), out + ChunksEvents(cs))
  {
    hide IsHttp, Run, ValidChunk, ChunkText;
    if cs == [] {
      RunNothing(f, p, out);
      assert out + [] == out;
    } else {
      var ds, c := cs[..|cs| - 1], cs[|cs| - 1];
      ChunksRun(f, cb, p, out, ds);
      var r := Run(f, p, out, ChunksText(ds));
      ChunkRun(f, cb, r.p, r.out, c);
      Then(f, p, out, ChunksText(ds), ChunkText(c), r.p, r.out);
      assert r.out + [ChunkHeader(|c.data|), Data(Body, c.data), ChunkComplete] == out + ChunksEvents(cs);
    }
  }

  // ----- bodies with a declared length -----

  /** A body of the declared length is delivered exactly, and completes the message with its last byte. */
  lemma IdentityRun(f: Machine, cb: HeadersCallback, p: Parser, out: seq<Event>, data: Bytes)
    requires IsHttp(f, cb) && p.state == BodyIdentity && p.contentLength == |data| > 0 && !EndsWith(out, Body) && !p.upgrade
    ensures var q := p.(contentLength := 0, state := MessageDone);
            Run(f, p, out, data) == Running(q.(state := NewMessage(q)), out + [Data(Body, data), MessageComplete])
  {
    hide IsHttp, Run, NewMessage;
    var x, c := data[..|data| - 1], data[|data| - 1];
    assert data == x + [c];
    BodyRun(f, cb, p, 0, out, x);
    RunLast(f, p, out, x, c);
    LastStep(f, BodyRead(p, |x|), c, cb);
    PushAllSplit(PushData(out, Body, x), [Data(Body, [c])], [MessageComplete]);
    PushDataOne(out, Body, x, c);
    assert out + [Data(Body, data)] + [MessageComplete] == out + [Data(Body, data), MessageComplete];
    PushOne(out + [Data(Body, data)], MessageComplete);
  }
}
