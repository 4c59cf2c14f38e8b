/** Length-prefixed frames: int32 length, tag, payload, int32 checksum of tag and payload. The checksum and the payload
    format are parameters. */
module ProtobufCodec {
  import opened Wrappers
  import opened Bytes
  import B = Buffer

  const HEADER_LEN: nat := 4
  const CHECKSUM_LEN: nat := 4
  const MAX_MESSAGE_LEN: nat := 64 * 1024 * 1024

  datatype Error = InvalidLength | CheckSumError | UnknownMessageType | ParseError

  datatype Codec<!M> = Codec(tag: seq<Byte>, checksum: seq<Byte> -> int, serialize: M -> seq<Byte>,
                             parse: seq<Byte> -> Option<M>, raw: Option<seq<Byte> -> bool>)

  function MinMessageLen<M>(c: Codec<M>): nat { |c.tag| + CHECKSUM_LEN }

  /** adler32 gives 32 bits, and parsing undoes serialising. */
  ghost predicate Good<M(!new)>(c: Codec<M>) {
    (forall x :: FitsSigned(c.checksum(x), 4)) && (forall m :: c.parse(c.serialize(m)) == Some(m))
  }

  // ----- one frame -----

  /** static_cast<int32_t> of a size */
  function AsInt32(n: nat): (x: int)
    ensures -0x8000_0000 <= x < 0x8000_0000
  {
    var u := n % 0x1_0000_0000;
    if u >= 0x8000_0000 then u - 0x1_0000_0000 else u
  }

  lemma FourBytes()
    ensures Pow256(4) == 0x1_0000_0000
  {
    assert Pow256(0) == 1 && Pow256(1) == 256 && Pow256(2) == 65536 && Pow256(3) == 0x100_0000;
  }

  lemma Int32Fits(n: nat)
    ensures FitsSigned(AsInt32(n), 4)
  {
    FourBytes();
  }

  ghost function Body<M(!new)>(c: Codec<M>, m: M): seq<Byte>
    requires Good(c)
  {
    var x := c.tag + c.serialize(m);
    x + SignedToBig(c.checksum(x), 4)
  }

  ghost function Frame<M(!new)>(c: Codec<M>, m: M): seq<Byte>
    requires Good(c)
  {
    Int32Fits(|Body(c, m)|);
    SignedToBig(AsInt32(|Body(c, m)|), 4) + Body(c, m)
  }

  /** parse() on the bytes after the length. */
  function Parse<M>(c: Codec<M>, body: seq<Byte>): Result<M>
    requires |body| >= MinMessageLen(c)
  {
    var n := |body| - CHECKSUM_LEN;
    if SignedFromBig(body[n..]) != c.checksum(body[..n]) then Bad(CheckSumError)
    else if body[..|c.tag|] != c.tag then Bad(UnknownMessageType)
    else match c.parse(body[|c.tag|..n])
      case None => Bad(ParseError)
      case Some(m) => Ok(m)
  }

  datatype Result<+M> = Ok(m: M) | Bad(e: Error)

  // ----- the loop -----

  /** Messages delivered, bytes left, and the error the loop stopped at. */
  datatype Outcome<+M> = Outcome(msgs: seq<M>, rest: seq<Byte>, error: Option<Error>)

  function Length(buf: seq<Byte>): int
    requires |buf| >= HEADER_LEN
  {
    SignedFromBig(buf[..HEADER_LEN])
  }

  /** What one round of the loop finds at the front of the buffer, and how many bytes it takes. */
  datatype Front<+M> = Wait | Fail(e: Error) | Skip(n: nat) | Take(m: M, n: nat)

  function First<M>(c: Codec<M>, buf: seq<Byte>): (f: Front<M>)
    ensures f.Skip? || f.Take? ==> 0 < f.n <= |buf|
  {
    if |buf| < MinMessageLen(c) + HEADER_LEN then Wait
    else
      var len := Length(buf);
      if len > MAX_MESSAGE_LEN || len < MinMessageLen(c) then Fail(InvalidLength)
      else if |buf| < HEADER_LEN + len then Wait
      else if c.raw.Some? && !c.raw.value(buf[..HEADER_LEN + len]) then Skip(HEADER_LEN + len)
      else match Parse(c, buf[HEADER_LEN..HEADER_LEN + len])
        case Bad(e) => Fail(e)
        case Ok(m) => Take(m, HEADER_LEN + len)
  }

  function OnMessage<M>(c: Codec<M>, buf: seq<Byte>): Outcome<M>
    decreases |buf|
  {
    match First(c, buf)
    case Wait => Outcome([], buf, None)
    case Fail(e) => Outcome([], buf, Some(e))
    case Skip(n) => OnMessage(c, buf[n..])
    case Take(m, n) =>
      var r := OnMessage(c, buf[n..]);
      Outcome([m] + r.msgs, r.rest, r.error)
  }

  /** What is left without an error is less than a frame, or says so itself. */
  predicate Incomplete<M>(c: Codec<M>, buf: seq<Byte>) {
    |buf| < MinMessageLen(c) + HEADER_LEN ||
    (MinMessageLen(c) <= Length(buf) <= MAX_MESSAGE_LEN && |buf| < HEADER_LEN + Length(buf))
  }

  lemma {:induction false} RestIncomplete<M>(c: Codec<M>, buf: seq<Byte>)
    ensures var r := OnMessage(c, buf); r.error == None ==> Incomplete(c, r.rest)
    decreases |buf|
  {
    var f := First(c, buf);
    if f.Skip? || f.Take? {
      RestIncomplete(c, buf[f.n..]);
    }
  }

  /** Deliver more bytes to a connection whose buffer holds what an earlier call left. */
  function Continue<M>(c: Codec<M>, r: Outcome<M>, more: seq<Byte>): Outcome<M> {
    var s := OnMessage(c, r.rest + more);
    Outcome(r.msgs + s.msgs, s.rest, s.error)
  }

  lemma HeadStays(buf: seq<Byte>, more: seq<Byte>, i: nat, j: nat)
    requires i <= j <= |buf|
    ensures (buf + more)[i..j] == buf[i..j] && (buf + more)[j..] == buf[j..] + more
  {
  }

  /** More bytes do not change what is found at the front. */
  lemma FirstStays<M>(c: Codec<M>, buf: seq<Byte>, more: seq<Byte>)
    requires !First(c, buf).Wait?
    ensures First(c, buf + more) == First(c, buf)
  {
    hide Parse, SignedFromBig;
    HeadStays(buf, more, 0, HEADER_LEN);
    var len := Length(buf);
    if MinMessageLen(c) <= len <= MAX_MESSAGE_LEN {
      HeadStays(buf, more, 0, HEADER_LEN + len);
      HeadStays(buf, more, HEADER_LEN, HEADER_LEN + len);
    }
  }

  /** Where the bytes are cut does not matter, errors included: after an error every call stops at the same frame. */
  lemma {:induction false} OnMessageSplit<M>(c: Codec<M>, buf: seq<Byte>, more: seq<Byte>)
    ensures var r := OnMessage(c, buf);
            if r.error == None then OnMessage(c, buf + more) == Continue(c, r, more)
            else OnMessage(c, buf + more) == Outcome(r.msgs, r.rest + more, r.error)
    decreases |buf|
  {
    hide First;
    var f := First(c, buf);
    if f.Wait? {
      assert [] + OnMessage(c, buf + more).msgs == OnMessage(c, buf + more).msgs;
    } else {
      FirstStays(c, buf, more);
      if f.Skip? || f.Take? {
        HeadStays(buf, more, f.n, f.n);
        OnMessageSplit(c, buf[f.n..], more);
        if f.Take? {
          var t := OnMessage(c, buf[f.n..]);
          var u := OnMessage(c, t.rest + more);
          assert [f.m] + t.msgs + u.msgs == [f.m] + (t.msgs + u.msgs);
        }
      }
    }
  }

  // ----- round trip -----

  ghost predicate Sendable<M(!new)>(c: Codec<M>, m: M)
    requires Good(c)
  {
    |Body(c, m)| <= MAX_MESSAGE_LEN && (c.raw.Some? ==> c.raw.value(Frame(c, m)))
  }

  lemma ParseBody<M(!new)>(c: Codec<M>, m: M)
    requires Good(c)
    ensures |Body(c, m)| >= MinMessageLen(c) && Parse(c, Body(c, m)) == Ok(m)
  {
    hide SignedToBig, SignedFromBig;
    var x, body := c.tag + c.serialize(m), Body(c, m);
    var n := |body| - CHECKSUM_LEN;
    assert body[..n] == x && body[n..] == SignedToBig(c.checksum(x), 4);
    SignedRoundTrip(c.checksum(x), 4);
    assert body[..|c.tag|] == c.tag && body[|c.tag|..n] == c.serialize(m);
  }

  /** The length in front is the length of what follows. */
  lemma FrameLength<M(!new)>(c: Codec<M>, m: M)
    requires Good(c) && |Body(c, m)| <= MAX_MESSAGE_LEN
    ensures Length(Frame(c, m)) == |Body(c, m)| && |Frame(c, m)| == HEADER_LEN + |Body(c, m)|
  {
    hide SignedToBig, SignedFromBig, Body;
    Int32Fits(|Body(c, m)|);
    SignedRoundTrip(AsInt32(|Body(c, m)|), 4);
    assert Frame(c, m)[..4] == SignedToBig(AsInt32(|Body(c, m)|), 4);
  }

  lemma FirstFrame<M(!new)>(c: Codec<M>, m: M, more: seq<Byte>)
    requires Good(c) && Sendable(c, m)
    ensures OnMessage(c, Frame(c, m) + more) ==
            var r := OnMessage(c, more); Outcome([m] + r.msgs, r.rest, r.error)
  {
    hide Body, Parse, SignedToBig, SignedFromBig;
    var f := Frame(c, m);
    var buf := f + more;
    ParseBody(c, m);
    FrameLength(c, m);
    HeadStays(f, more, 0, HEADER_LEN);
    HeadStays(f, more, 0, |f|);
    HeadStays(f, more, HEADER_LEN, |f|);
    assert f[..|f|] == f && f[HEADER_LEN..|f|] == Body(c, m) && f[|f|..] + more == more;
    assert Length(buf) == |Body(c, m)|;
  }

  ghost function Frames<M(!new)>(c: Codec<M>, ms: seq<M>): seq<Byte>
    requires Good(c)
  {
    if ms == [] then [] else Frame(c, ms[0]) + Frames(c, ms[1..])
  }

  /** Any messages, followed by any part of a frame: exactly these messages are delivered and that part is left. */
  lemma {:induction false} FramesRoundTrip<M(!new)>(c: Codec<M>, ms: seq<M>, tail: seq<Byte>)
    requires Good(c) && (forall i :: 0 <= i < |ms| ==> Sendable(c, ms[i])) && Incomplete(c, tail)
    ensures OnMessage(c, Frames(c, ms) + tail) == Outcome(ms, tail, None)
  {
    hide Frame, Sendable, Parse;
    if ms == [] {
      assert Frames(c, ms) + tail == tail;
    } else {
      FramesRoundTrip(c, ms[1..], tail);
      FirstFrame(c, ms[0], Frames(c, ms[1..]) + tail);
      assert Frames(c, ms) + tail == Frame(c, ms[0]) + (Frames(c, ms[1..]) + tail);
      assert [ms[0]] + ms[1..] == ms;
    }
  }

  /** A message too large for the receiver is refused by it (up to 2 GB, where the length field wraps). */
  lemma TooLarge<M(!new)>(c: Codec<M>, m: M, more: seq<Byte>)
    requires Good(c) && MAX_MESSAGE_LEN < |Body(c, m)| < 0x8000_0000
    ensures OnMessage(c, Frame(c, m) + more) == Outcome([], Frame(c, m) + more, Some(InvalidLength))
  {
    hide Parse, SignedToBig, SignedFromBig;
    Int32Fits(|Body(c, m)|);
    SignedRoundTrip(AsInt32(|Body(c, m)|), 4);
    HeadStays(Frame(c, m), more, 0, HEADER_LEN);
    assert Frame(c, m)[..4] == SignedToBig(AsInt32(|Body(c, m)|), 4);
  }

  // ----- the methods -----

  /** fillEmptyBuffer; bytes is what the message serialises to. */
  method FillEmptyBuffer<M(!new)>(c: Codec<M>, buf: B.Buffer, m: M)
    requires Good(c) && buf.Valid() && buf.Contents() == [] && buf.readerIndex == B.CHEAP_PREPEND
    modifies buf, buf.buffer
    ensures buf.Valid() && buf.Contents() == Frame(c, m)
  {
    hide SignedToBig, SignedFromBig;
    buf.Append(c.tag);
    var payload := c.serialize(m);
    buf.EnsureWritableBytes(|payload| + CHECKSUM_LEN);
    buf.Append(payload);
    assert buf.Contents() == c.tag + payload;
    var checkSum := c.checksum(buf.Contents());
    buf.AppendInt(checkSum, 4);
    var len := AsInt32(buf.ReadableBytes());
    assert buf.Contents() == Body(c, m);
    Int32Fits(|Body(c, m)|);
    buf.PrependInt(len, 4);
  }

  /** One round of the loop. */
  method Round<M>(c: Codec<M>, buf: B.Buffer) returns (f: Front<M>)
    requires buf.Valid()
    modifies buf`readerIndex, buf`writerIndex
    ensures buf.Valid() && f == First(c, old(buf.Contents()))
    ensures buf.Contents() == if f.Skip? || f.Take? then old(buf.Contents())[f.n..] else old(buf.Contents())
  {
    hide Parse, SignedFromBig;
    ghost var now := buf.Contents();
    if buf.ReadableBytes() < MinMessageLen(c) + HEADER_LEN { return Wait; }
    var len := buf.PeekInt(4);
    assert len == Length(now);
    if len > MAX_MESSAGE_LEN || len < MinMessageLen(c) { return Fail(InvalidLength); }
    if buf.ReadableBytes() < HEADER_LEN + len { return Wait; }
    var frame := buf.Contents()[..HEADER_LEN + len];
    assert frame[HEADER_LEN..] == now[HEADER_LEN..HEADER_LEN + len];
    if c.raw.Some? && !c.raw.value(frame) {
      buf.Retrieve(HEADER_LEN + len);
      return Skip(HEADER_LEN + len);
    }
    match Parse(c, frame[HEADER_LEN..]) {
      case Ok(m) =>
        buf.Retrieve(HEADER_LEN + len);
        return Take(m, HEADER_LEN + len);
      case Bad(e) => return Fail(e);
    }
  }

  /** onMessage, with what the callbacks get. */
  method Receive<M>(c: Codec<M>, buf: B.Buffer) returns (msgs: seq<M>, error: Option<Error>)
    requires buf.Valid()
    modifies buf`readerIndex, buf`writerIndex
    ensures buf.Valid() && Outcome(msgs, buf.Contents(), error) == OnMessage(c, old(buf.Contents()))
  {
    hide First;
    msgs, error := [], None;
    ghost var was := buf.Contents();
    var go := true;
    while go
      invariant buf.Valid() && (go ==> error == None)
      invariant OnMessage(c, was) == if go then After(msgs, OnMessage(c, buf.Contents())) else Outcome(msgs, buf.Contents(), error)
      decreases go, buf.ReadableBytes()
    {
      ghost var now := buf.Contents();
      var f := Round(c, buf);
      match f {
        case Wait =>
          NoneAfter(msgs, now, None);
          go := false;
        case Fail(e) =>
          NoneAfter(msgs, now, Some(e));
          error, go := Some(e), false;
        case Skip(_) =>
        case Take(m, n) =>
          OneMore(msgs, m, OnMessage(c, now[n..]));
          msgs := msgs + [m];
      }
    }
  }

  /** r, with the messages before it. */
  function After<M>(before: seq<M>, r: Outcome<M>): Outcome<M> { Outcome(before + r.msgs, r.rest, r.error) }

  lemma NoneAfter<M>(before: seq<M>, rest: seq<Byte>, e: Option<Error>)
    ensures After(before, Outcome([], rest, e)) == Outcome(before, rest, e)
  {
  }

  lemma OneMore<M>(before: seq<M>, m: M, r: Outcome<M>)
    ensures After(before, Outcome([m] + r.msgs, r.rest, r.error)) == After(before + [m], r)
  {
    assert before + ([m] + r.msgs) == before + [m] + r.msgs;
  }

  function Concat(pieces: seq<seq<Byte>>): seq<Byte> {
    if pieces == [] then [] else Concat(pieces[..|pieces| - 1]) + pieces[|pieces| - 1]
  }

  /** A connection that gets the frames of ms, and perhaps the beginning of another, in any pieces, one call each. */
  method ReceiveAll<M(!new)>(c: Codec<M>, buf: B.Buffer, pieces: seq<seq<Byte>>, ghost ms: seq<M>, ghost tail: seq<Byte>)
    returns (msgs: seq<M>)
    requires Good(c) && buf.Valid() && buf.Contents() == []
    requires (forall i :: 0 <= i < |ms| ==> Sendable(c, ms[i])) && Incomplete(c, tail)
    requires Concat(pieces) == Frames(c, ms) + tail
    modifies buf, buf.buffer
    ensures buf.Valid() && msgs == ms && buf.Contents() == tail
  {
    hide OnMessage, Frames, Sendable, Good, Incomplete;
    msgs := [];
    ghost var whole := Concat(pieces);
    FramesRoundTrip(c, ms, tail);
    EmptyOutcome(c);
    assert pieces[..0] == [];
    for i := 0 to |pieces|
      invariant buf.Valid() && OnMessage(c, Concat(pieces[..i])) == Outcome(msgs, buf.Contents(), None)
      invariant fresh(buf.buffer) || buf.buffer == old(buf.buffer)
      modifies buf, buf.buffer
    {
      OnePiece(c, pieces, i, ms, tail, msgs, buf.Contents());
      buf.Append(pieces[i]);
      var some, error := Receive(c, buf);
      msgs := msgs + some;
    }
    assert pieces[..|pieces|] == pieces;
  }

  lemma OnePiece<M>(c: Codec<M>, pieces: seq<seq<Byte>>, i: nat, ms: seq<M>, tail: seq<Byte>, msgs: seq<M>, rest: seq<Byte>)
    requires i < |pieces| && OnMessage(c, Concat(pieces)) == Outcome(ms, tail, None)
    requires OnMessage(c, Concat(pieces[..i])) == Outcome(msgs, rest, None)
    ensures var r := OnMessage(c, rest + pieces[i]);
            r.error == None && OnMessage(c, Concat(pieces[..i + 1])) == After(msgs, r)
  {
    hide OnMessage;
    var done, whole := Concat(pieces[..i + 1]), Concat(pieces);
    assert pieces[..i + 1][..i] == pieces[..i];
    OnMessageSplit(c, Concat(pieces[..i]), pieces[i]);
    ConcatPrefix(pieces, i + 1);
    OnMessageSplit(c, done, whole[|done|..]);
    assert done + whole[|done|..] == whole;
  }

  lemma EmptyOutcome<M>(c: Codec<M>)
    ensures OnMessage(c, []) == Outcome([], [], None)
  {
  }

  lemma ConcatPrefix(pieces: seq<seq<Byte>>, i: nat)
    requires i <= |pieces|
    ensures Concat(pieces[..i]) <= Concat(pieces)
    decreases |pieces|
  {
    if i < |pieces| {
      ConcatPrefix(pieces[..|pieces| - 1], i);
      assert pieces[..|pieces| - 1][..i] == pieces[..i];
    } else {
      assert pieces[..i] == pieces;
    }
  }
}
