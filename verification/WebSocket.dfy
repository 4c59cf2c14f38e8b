/** WebSocket frames (sections 5.2 and 5.3 of RFC 6455): serialising, incremental parsing, masking. */
module WebSocket {
  import opened Wrappers
  import opened Bytes

  type Nibble = n: nat | n < 16

  datatype Frame = Frame(fin: bool, rsv1: bool, rsv2: bool, rsv3: bool, opcode: Nibble, mask: bool,
                         payloadLength: nat, maskingKey: nat, body: seq<Byte>)

  function Bit(b: bool): nat { if b then 1 else 0 }

  // ----- serialising -----

  function FirstByte(f: Frame): Byte {
    128 * Bit(f.fin) + 64 * Bit(f.rsv1) + 32 * Bit(f.rsv2) + 16 * Bit(f.rsv3) + f.opcode
  }

  const MAX_LENGTH: nat := 0xffff_ffff

  /** The second byte and the length bytes after it. */
  function LengthBytes(f: Frame): seq<Byte>
    requires f.payloadLength <= MAX_LENGTH
  {
    if f.payloadLength <= 125 then [128 * Bit(f.mask) + f.payloadLength]
    else if f.payloadLength <= 0xff then [128 * Bit(f.mask) + 126] + ToBig(f.payloadLength, 2)
    else [128 * Bit(f.mask) + 127] + ToBig(f.payloadLength, 8)
  }

  function KeyBytes(f: Frame): seq<Byte> { if f.mask then ToBig(f.maskingKey, 4) else [] }

  function Header(f: Frame): seq<Byte>
    requires f.payloadLength <= MAX_LENGTH
  {
    [FirstByte(f)] + LengthBytes(f) + KeyBytes(f)
  }

  /** What a serialised frame is. */
  function Encoded(f: Frame): seq<Byte>
    requires f.payloadLength <= MAX_LENGTH
  {
    Header(f) + f.body
  }

  /** ConvertFrameToString appends to its argument; a frame that is too large leaves its first byte behind. */
  method ConvertFrameToString(f: Frame, before: seq<Byte>) returns (ok: bool, s: seq<Byte>)
    requires f.payloadLength < 0x1_0000_0000_0000_0000 && f.maskingKey < 0x1_0000_0000
    ensures ok == (f.payloadLength <= MAX_LENGTH)
    ensures s == before + (if ok then Encoded(f) else [FirstByte(f)])
  {
    hide ToBig;
    s := before + [FirstByte(f)];
    var lengthBytes := ToBig(f.payloadLength, 8);
    ghost var was := s;
    if f.payloadLength <= 125 {
      s := s + [128 * Bit(f.mask) + f.payloadLength];
    } else if f.payloadLength <= 0xff {
      LowBytes(f.payloadLength, 8, 2);
      s := s + [128 * Bit(f.mask) + 126] + lengthBytes[6..];
      Assoc(was, [128 * Bit(f.mask) + 126], ToBig(f.payloadLength, 2));
    } else if f.payloadLength <= 0xffff_ffff {
      s := s + [128 * Bit(f.mask) + 127] + lengthBytes;
      Assoc(was, [128 * Bit(f.mask) + 127], lengthBytes);
    } else {
      return false, s;
    }
    assert s == was + LengthBytes(f);
    hide LengthBytes;
    Assoc(before, [FirstByte(f)], LengthBytes(f));
    Assoc(before, [FirstByte(f)] + LengthBytes(f), KeyBytes(f));
    if f.mask {
      s := s + ToBig(f.maskingKey, 4);
    }
    assert s == before + Header(f);
    Assoc(before, Header(f), f.body);
    s := s + f.body;
    ok := true;
  }

  lemma Assoc(a: seq<Byte>, b: seq<Byte>, c: seq<Byte>)
    ensures a + b + c == a + (b + c) && a + [] == a && [] + a == a
  {
  }

  /** The last bytes of a number are those of its shorter form. */
  lemma {:induction false} LowBytes(u: nat, n: nat, k: nat)
    requires k <= n
    ensures ToBig(u, n)[n - k..] == ToBig(u, k)
  {
    if k > 0 {
      LowBytes(u / 256, n - 1, k - 1);
      assert ToBig(u, n)[n - k..] == ToBig(u / 256, n - 1)[n - k..] + [u % 256];
    }
  }

  // ----- parsing -----

  /** WebsocketParser: the header fields of the frame being read; key is masking_key_, which only masked frames set. */
  datatype Parser = Parser(inBody: bool, fin: bool, opcode: Nibble, mask: bool, length: nat, key: nat, body: seq<Byte>)

  /** What one call does: the parser after it, its answer, the bytes taken, and the frame handed over. */
  datatype Parsed = Parsed(p: Parser, ok: bool, taken: nat, frame: Option<Frame>)

  predicate BitAt(b: Byte, weight: nat)
    requires weight > 0
  {
    (b / weight) % 2 == 1
  }

  predicate AllowedFirst(b: Byte) {
    var opcode := b % 16;
    && !BitAt(b, 64) && !BitAt(b, 32) && !BitAt(b, 16)
    && !(2 < opcode < 8 || opcode > 10)
    && (opcode > 7 ==> BitAt(b, 128))
  }

  /** The frame made of the header fields and the body. */
  function FrameOf(p: Parser): Frame {
    Frame(p.fin, false, false, false, p.opcode, p.mask, p.length, p.key, p.body)
  }

  /** The part of Parse after the header; taken bytes of data are gone already. */
  function ParseBody(p: Parser, data: seq<Byte>, taken: nat): Parsed
    requires taken <= |data| && |p.body| <= p.length
  {
    var need := p.length - |p.body|;
    if need <= |data| - taken then
      var q := p.(body := p.body + data[taken..taken + need]);
      Parsed(q.(inBody := false, body := []), true, taken + need, Some(FrameOf(q)))
    else Parsed(p.(body := p.body + data[taken..]), true, |data|, None)
  }

  /** How many bytes of extended length follow the second byte. */
  function ExtraLength(second: Byte): nat { if second % 128 == 127 then 8 else if second % 128 == 126 then 2 else 0 }

  /** The part of Parse from the second byte on. */
  function ParseLength(p: Parser, data: seq<Byte>): Parsed
    requires !p.inBody && p.body == [] && |data| >= 2
  {
    var r := p.(mask := BitAt(data[1], 128), length := data[1] % 128);
    var n := 2 + ExtraLength(data[1]);
    if |data| < n then Parsed(r, true, 0, None)
    else
      var t := if n > 2 then r.(length := FromBig(data[2..n])) else r;
      if t.mask then
        if |data| < n + 4 then Parsed(t, true, 0, None)
        else ParseBody(t.(key := FromBig(data[n..n + 4]), inBody := true), data, n + 4)
      else ParseBody(t.(inBody := true), data, n)
  }

  function Parse(p: Parser, data: seq<Byte>): Parsed
    requires |p.body| <= p.length
    requires !p.inBody ==> p.body == []
  {
    if p.inBody then ParseBody(p, data, 0)
    else if |data| < 1 then Parsed(p, false, 0, None)
    else
      var q := p.(fin := BitAt(data[0], 128), opcode := data[0] % 16);
      if !AllowedFirst(data[0]) || |data| < 2 then Parsed(q, false, 0, None) else ParseLength(q, data)
  }

  predicate ParserOk(p: Parser) { |p.body| <= p.length && (!p.inBody ==> p.body == []) }

  lemma ParseKeepsOk(p: Parser, data: seq<Byte>)
    requires ParserOk(p)
    ensures ParserOk(Parse(p, data).p) && Parse(p, data).taken <= |data|
  {
  }

  /** At the start of a frame, Parse refuses exactly fewer than two bytes and bad first bytes. */
  lemma Refuses(p: Parser, data: seq<Byte>)
    requires ParserOk(p) && !p.inBody
    ensures Parse(p, data).ok <==> |data| >= 2 && AllowedFirst(data[0])
  {
  }

  // ----- the way back -----

  /** Frames that the parser accepts: no reserved bits or opcodes, control frames whole, and a body of the length said. */
  predicate ValidFrame(f: Frame) {
    && !f.rsv1 && !f.rsv2 && !f.rsv3
    && !(2 < f.opcode < 8 || f.opcode > 10)
    && (f.opcode > 7 ==> f.fin)
    && |f.body| == f.payloadLength <= MAX_LENGTH
    && f.maskingKey < 0x1_0000_0000
  }

  lemma FirstByteBits(f: Frame)
    requires ValidFrame(f)
    ensures var b := FirstByte(f);
            AllowedFirst(b) && BitAt(b, 128) == f.fin && b % 16 == f.opcode
  {
  }

  lemma SmallPowers()
    ensures Pow256(2) == 65536 && Pow256(4) == 0x1_0000_0000 && Pow256(8) == 0x1_0000_0000_0000_0000
  {
    assert Pow256(0) == 1 && Pow256(1) == 256 && Pow256(2) == 65536 && Pow256(3) == 0x100_0000;
    assert Pow256(4) == 0x1_0000_0000 && Pow256(5) == 0x100_0000_0000 && Pow256(6) == 0x1_0000_0000_0000;
    assert Pow256(7) == 0x100_0000_0000_0000;
  }

  /** What the length bytes say. */
  lemma LengthBytesSay(f: Frame)
    requires ValidFrame(f)
    ensures var s := LengthBytes(f);
            && |s| >= 1 && BitAt(s[0], 128) == f.mask && |s| == 1 + ExtraLength(s[0])
            && (if |s| > 1 then FromBig(s[1..]) == f.payloadLength else s[0] % 128 == f.payloadLength)
  {
    SmallPowers();
    var s := LengthBytes(f);
    if 125 < f.payloadLength <= 0xff {
      FromToBig(f.payloadLength, 2);
      assert s[1..] == ToBig(f.payloadLength, 2);
    } else if f.payloadLength > 0xff {
      FromToBig(f.payloadLength, 8);
      assert s[1..] == ToBig(f.payloadLength, 8);
    }
  }

  /** The parser once it has read the header of f. */
  function HeaderRead(p: Parser, f: Frame): Parser {
    Parser(true, f.fin, f.opcode, f.mask, f.payloadLength, if f.mask then f.maskingKey else p.key, [])
  }

  /** Shown a beginning of a frame, the parser takes the header whole or not at all. */
  lemma ParseHeader(p: Parser, f: Frame, data: seq<Byte>)
    requires ParserOk(p) && !p.inBody && ValidFrame(f) && |data| >= 2
    requires data <= Encoded(f) || Encoded(f) <= data
    ensures var r := Parse(p, data);
            if |data| < |Header(f)| then r.ok && r.taken == 0 && r.frame == None && !r.p.inBody && r.p.body == [] && r.p.key == p.key
            else r == ParseBody(HeaderRead(p, f), data, |Header(f)|)
  {
    hide ToBig, FromBig;
    var h, l, k := Header(f), LengthBytes(f), KeyBytes(f);
    FirstByteBits(f);
    LengthBytesSay(f);
    var n := 1 + |l|;
    assert h == [FirstByte(f)] + l + k && |h| == n + |k|;
    BeginsSame(h, f.body, data);
    assert data[0] == FirstByte(f) && data[1] == l[0];
    if |data| >= n {
      assert data[..n][1..] == l by { assert h[..n] == [FirstByte(f)] + l; SamePrefix(h, data, n); }
      if n > 2 { assert data[2..n] == l[1..]; }
      if f.mask && |data| >= n + 4 {
        SamePrefix(h, data, n + 4);
        assert h[n..n + 4] == k;
        assert data[n..n + 4] == k;
        SmallPowers();
        FromToBig(f.maskingKey, 4);
      }
    }
  }

  /** One of the two is the beginning of the other. */
  predicate Agree(x: seq<Byte>, y: seq<Byte>) { forall i :: 0 <= i < |x| && i < |y| ==> x[i] == y[i] }

  lemma BeginsSame(h: seq<Byte>, body: seq<Byte>, data: seq<Byte>)
    requires data <= h + body || h + body <= data
    ensures Agree(h, data)
  {
    var e := h + body;
    forall i | 0 <= i < |h| && i < |data|
      ensures h[i] == data[i]
    {
      assert e[i] == h[i];
    }
  }

  lemma SamePrefix(h: seq<Byte>, data: seq<Byte>, n: nat)
    requires Agree(h, data) && n <= |h| && n <= |data|
    ensures h[..n] == data[..n]
  {
  }

  // ----- streams of frames -----

  function Stream(fs: seq<Frame>): seq<Byte>
    requires forall i :: 0 <= i < |fs| ==> fs[i].payloadLength <= MAX_LENGTH
  {
    if fs == [] then [] else Encoded(fs[0]) + Stream(fs[1..])
  }

  /** What the parser is still to be shown of the frame f and those after it. */
  function ToCome(p: Parser, fs: seq<Frame>): seq<Byte>
    requires forall i :: 0 <= i < |fs| ==> fs[i].payloadLength <= MAX_LENGTH
    requires p.inBody ==> fs != [] && |p.body| <= |fs[0].body|
  {
    if p.inBody then fs[0].body[|p.body|..] + Stream(fs[1..]) else Stream(fs)
  }

  predicate AllValid(fs: seq<Frame>) { forall i :: 0 <= i < |fs| ==> ValidFrame(fs[i]) }

  /** A frame as the parser hands it over: an unmasked one carries the key of the last masked frame. */
  function Delivered(f: Frame, key: nat): Frame { if f.mask then f else f.(maskingKey := key) }

  function DeliveredAll(fs: seq<Frame>, key: nat): seq<Frame> {
    if fs == [] then []
    else [Delivered(fs[0], key)] + DeliveredAll(fs[1..], Delivered(fs[0], key).maskingKey)
  }

  /** The header of f has been read, and the beginning of its body. */
  predicate InBodyOf(p: Parser, f: Frame) {
    && p.inBody && |p.body| <= |f.body| && p.body == f.body[..|p.body|]
    && p.fin == f.fin && p.opcode == f.opcode && p.mask == f.mask && p.length == f.payloadLength
    && (p.mask ==> p.key == f.maskingKey)
  }

  lemma CutDone(left: seq<Byte>, rest: seq<Byte>, shown: seq<Byte>, future: seq<Byte>)
    requires shown + future == left + rest && |left| <= |shown|
    ensures shown[..|left|] == left && shown[|left|..] + future == rest
  {
    assert (shown + future)[..|left|] == shown[..|left|];
    assert (shown + future)[|left|..] == shown[|left|..] + future;
    assert (left + rest)[..|left|] == left && (left + rest)[|left|..] == rest;
  }

  lemma CutPart(left: seq<Byte>, rest: seq<Byte>, shown: seq<Byte>, future: seq<Byte>)
    requires shown + future == left + rest && |shown| < |left|
    ensures left == shown + left[|shown|..] && future == left[|shown|..] + rest
  {
    assert (left + rest)[..|shown|] == left[..|shown|];
    assert (shown + future)[..|shown|] == shown;
    assert (left + rest)[|shown|..] == left[|shown|..] + rest;
    assert (shown + future)[|shown|..] == future;
  }

  /** Shown some of its body, the parser keeps it, and hands the frame over when it is complete. */
  lemma BodyPart(p: Parser, f: Frame, rest: seq<Byte>, data: seq<Byte>, taken: nat, future: seq<Byte>)
    requires ValidFrame(f) && InBodyOf(p, f) && taken <= |data|
    requires data[taken..] + future == f.body[|p.body|..] + rest
    ensures var r := ParseBody(p, data, taken);
            && r.ok && taken <= r.taken <= |data| && r.p.key == p.key
            && match r.frame {
              case None =>
                InBodyOf(r.p, f) && |r.p.body| < |f.body| && r.taken == |data| && future == f.body[|r.p.body|..] + rest
              case Some(g) =>
                g == Delivered(f, p.key) && !r.p.inBody && r.p.body == [] && data[r.taken..] + future == rest
            }
  {
    var shown, left := data[taken..], f.body[|p.body|..];
    var need := p.length - |p.body|;
    assert f.body == f.body[..|p.body|] + left && need == |left|;
    if need <= |shown| {
      CutDone(left, rest, shown, future);
      assert data[taken..taken + need] == shown[..need];
      assert data[taken + need..] == shown[need..];
    } else {
      CutPart(left, rest, shown, future);
      assert f.body[..|p.body|] + shown == f.body[..|p.body| + |shown|] by {
        assert left[..|shown|] == shown;
      }
      assert left[|shown|..] == f.body[|p.body| + |shown|..];
    }
  }

  /** The parser is between frames, or in the middle of the first frame of fs. */
  predicate Reading(p: Parser, fs: seq<Frame>) {
    && AllValid(fs) && ParserOk(p)
    && (p.inBody ==> fs != [] && InBodyOf(p, fs[0]) && |p.body| < |fs[0].body|)
  }

  /** One call that is shown a beginning of what is to come (at least two bytes of it at the start of a frame): it
      never fails; it hands over nothing or exactly the next frame; what it does not take has to be shown again; and
      it takes nothing only when it needs more of a header. */
  lemma ParseShown(p: Parser, fs: seq<Frame>, data: seq<Byte>, future: seq<Byte>)
    requires Reading(p, fs) && data + future == ToCome(p, fs)
    requires !p.inBody ==> fs != [] && |data| >= 2
    ensures var r := Parse(p, data);
            && r.ok && r.taken <= |data|
            && match r.frame {
              case None =>
                && Reading(r.p, fs) && data[r.taken..] + future == ToCome(r.p, fs) && r.p.key == (if !p.inBody && r.taken > 0 && fs[0].mask then fs[0].maskingKey else p.key)
                && (r.taken == 0 ==> data == [] || (!r.p.inBody && |data| < |Header(fs[0])|)) && (r.taken > 0 ==> r.taken == |data|)
              case Some(g) =>
                && g == Delivered(fs[0], p.key) && Reading(r.p, fs[1..]) && !r.p.inBody && r.taken > 0
                && data[r.taken..] + future == ToCome(r.p, fs[1..]) && r.p.key == g.maskingKey
            }
  {
    hide ParseBody, Header, InBodyOf;
    if p.inBody {
      InBody(p, fs, data, future);
    } else {
      AtStart(p, fs, data, future);
    }
  }

  lemma TailValid(fs: seq<Frame>)
    requires AllValid(fs) && fs != []
    ensures AllValid(fs[1..])
  {
  }

  lemma InBody(p: Parser, fs: seq<Frame>, data: seq<Byte>, future: seq<Byte>)
    requires Reading(p, fs) && data + future == ToCome(p, fs) && p.inBody
    ensures var r := Parse(p, data);
            && r.ok && r.taken <= |data|
            && match r.frame {
              case None => Reading(r.p, fs) && data[r.taken..] + future == ToCome(r.p, fs) && r.p.key == p.key && r.taken == |data|
              case Some(g) =>
                g == Delivered(fs[0], p.key) && Reading(r.p, fs[1..]) && !r.p.inBody && r.taken > 0 &&
                data[r.taken..] + future == ToCome(r.p, fs[1..]) && r.p.key == g.maskingKey
            }
  {
    hide Stream;
    TailValid(fs);
    assert data[0..] == data;
    BodyPart(p, fs[0], Stream(fs[1..]), data, 0, future);
    var r := Parse(p, data);
    if r.frame == None { Assoc([], future, []); }
  }

  lemma AtStart(p: Parser, fs: seq<Frame>, data: seq<Byte>, future: seq<Byte>)
    requires Reading(p, fs) && data + future == ToCome(p, fs) && !p.inBody && fs != [] && |data| >= 2
    ensures var r := Parse(p, data);
            && r.ok && r.taken <= |data|
            && match r.frame {
              case None =>
                && Reading(r.p, fs) && data[r.taken..] + future == ToCome(r.p, fs) && r.p.key == (if r.taken > 0 && fs[0].mask then fs[0].maskingKey else p.key)
                && (r.taken == 0 ==> !r.p.inBody && |data| < |Header(fs[0])|) && (r.taken > 0 ==> r.taken == |data|)
              case Some(g) =>
                g == Delivered(fs[0], p.key) && Reading(r.p, fs[1..]) && !r.p.inBody && r.taken > 0 &&
                data[r.taken..] + future == ToCome(r.p, fs[1..]) && r.p.key == g.maskingKey
            }
  {
    hide Parse, ParseBody, InBodyOf, Delivered, Header;
    var f := fs[0];
    TailValid(fs);
    StreamAgrees(f, Stream(fs[1..]), data, future);
    ParseHeader(p, f, data);
    if |data| < |Header(f)| {
      assert data[0..] == data;
    } else {
      var q := HeaderRead(p, f);
      var n := |Header(f)|;
      HeaderThere(p, f, Stream(fs[1..]), data, future);
      BodyPart(q, f, Stream(fs[1..]), data, n, future);
      DeliveredKey(p, f);
      var r := Parse(p, data);
      if r.frame == None { Assoc([], future, []); }
    }
  }

  lemma DeliveredKey(p: Parser, f: Frame)
    ensures Delivered(f, HeaderRead(p, f).key) == Delivered(f, p.key)
    ensures Delivered(f, p.key).maskingKey == HeaderRead(p, f).key
    ensures |Header(f)| > 0
    requires f.payloadLength <= MAX_LENGTH
  {
  }

  lemma StreamAgrees(f: Frame, rest: seq<Byte>, data: seq<Byte>, future: seq<Byte>)
    requires ValidFrame(f) && data + future == Encoded(f) + rest
    ensures data <= Encoded(f) || Encoded(f) <= data
  {
    hide Encoded;
    var e := Encoded(f);
    if |data| <= |e| {
      assert (data + future)[..|data|] == data && (e + rest)[..|data|] == e[..|data|];
    } else {
      assert (data + future)[..|e|] == data[..|e|] && (e + rest)[..|e|] == e;
    }
  }

  lemma HeaderThere(p: Parser, f: Frame, rest: seq<Byte>, data: seq<Byte>, future: seq<Byte>)
    requires ValidFrame(f) && data + future == Encoded(f) + rest && |Header(f)| <= |data|
    ensures var q := HeaderRead(p, f);
            InBodyOf(q, f) && data[|Header(f)|..] + future == f.body[|q.body|..] + rest
  {
    hide Header;
    Assoc(Header(f), f.body, rest);
    CutDone(Header(f), f.body + rest, data, future);
    assert f.body[0..] == f.body && f.body[..0] == [];
  }

  // ----- the parser object -----

  class WebsocketParser {
    var inBody: bool
    var fin: bool
    var opcode: Nibble
    var mask: bool
    var payloadLength: nat
    var maskingKey: nat
    var body: seq<Byte>
    /** the frames given to the callback */
    var frames: seq<Frame>

    function State(): Parser
      reads this
    {
      Parser(inBody, fin, opcode, mask, payloadLength, maskingKey, body)
    }

    ghost predicate Valid()
      reads this
    {
      ParserOk(State())
    }

    /** The constructor of the source leaves every field but the state as it finds the memory. */
    constructor (garbage: Parser)
      ensures Valid() && !inBody && body == [] && frames == [] && maskingKey == garbage.key
    {
      inBody, body, frames := false, [], [];
      fin, opcode, mask, payloadLength, maskingKey := garbage.fin, garbage.opcode, garbage.mask, garbage.length, garbage.key;
    }

    method TakeBody(data: seq<Byte>, taken: nat) returns (parsed: nat)
      requires taken <= |data| && |body| <= payloadLength && inBody
      modifies this
      ensures var r := ParseBody(old(State()), data, taken);
              r.ok && parsed == r.taken && State() == r.p && frames == old(frames) + (if r.frame.Some? then [r.frame.value] else [])
    {
      parsed := taken;
      var need := payloadLength - |body|;
      if need <= |data| - parsed {
        body := body + data[parsed..parsed + need];
        parsed := parsed + need;
        frames := frames + [Frame(fin, false, false, false, opcode, mask, payloadLength, maskingKey, body)];
        body := [];
        inBody := false;
      } else {
        body := body + data[parsed..];
        parsed := |data|;
      }
    }

    /** The second byte and what follows it. */
    method TakeLength(data: seq<Byte>) returns (parsed: nat)
      requires !inBody && body == [] && |data| >= 2
      modifies this
      ensures var r := ParseLength(old(State()), data);
              r.ok && parsed == r.taken && State() == r.p && frames == old(frames) + (if r.frame.Some? then [r.frame.value] else [])
    {
      hide ParseBody, FromBig, BitAt;
      mask := BitAt(data[1], 128);
      payloadLength := data[1] % 128;
      var n := 2;
      if payloadLength == 127 {
        if |data| < n + 8 { return 0; }
        payloadLength := FromBig(data[n..n + 8]);
        n := n + 8;
      } else if payloadLength == 126 {
        if |data| < n + 2 { return 0; }
        payloadLength := FromBig(data[n..n + 2]);
        n := n + 2;
      }
      if mask {
        if |data| < n + 4 { return 0; }
        maskingKey := FromBig(data[n..n + 4]);
        n := n + 4;
      }
      inBody := true;
      parsed := TakeBody(data, n);
    }

    /** Parse */
    method ParseData(data: seq<Byte>) returns (ok: bool, parsed: nat)
      requires Valid()
      modifies this
      ensures var r := Parse(old(State()), data);
              ok == r.ok && parsed == r.taken && State() == r.p && frames == old(frames) + (if r.frame.Some? then [r.frame.value] else [])
      ensures Valid()
    {
      hide ParseBody, ParseLength;
      ParseKeepsOk(State(), data);
      if !inBody {
        if |data| < 1 { return false, 0; }
        fin, opcode := BitAt(data[0], 128), data[0] % 16;
        if BitAt(data[0], 64) || BitAt(data[0], 32) || BitAt(data[0], 16) { return false, 0; }
        if (2 < opcode && opcode < 8) || opcode > 10 { return false, 0; }
        if opcode > 7 && !fin { return false, 0; }
        if |data| < 2 { return false, 0; }
        parsed := TakeLength(data);
      } else {
        parsed := TakeBody(data, 0);
      }
      return true, parsed;
    }
  }

  function Concat(pieces: seq<seq<Byte>>): seq<Byte> {
    if pieces == [] then [] else pieces[0] + Concat(pieces[1..])
  }

  /** Call Parse as long as it takes something. */
  method Show(parser: WebsocketParser, shown: seq<Byte>, ghost fs: seq<Frame>, ghost future: seq<Byte>, ghost all: seq<Frame>)
    returns (pending: seq<Byte>, ghost left: seq<Frame>)
    requires parser.Valid() && Due(parser.State(), fs, shown + future) && parser.frames + Rest(parser.State(), fs) == all
    modifies parser
    ensures parser.Valid() && Due(parser.State(), left, pending + future) && parser.frames + Rest(parser.State(), left) == all
    ensures Waiting(parser.State(), left, pending)
  {
    hide Parse, Due, Rest, Waiting;
    pending, left := shown, fs;
    var go := true;
    while go && pending != [] && (parser.inBody || |pending| >= 2)
      invariant parser.Valid() && Due(parser.State(), left, pending + future) && parser.frames + Rest(parser.State(), left) == all
      invariant !go ==> Waiting(parser.State(), left, pending)
      decreases |pending|, go
    {
      ghost var p := parser.State();
      OneCall(p, left, pending, future, parser.frames);
      var ok, n := parser.ParseData(pending);
      if Parse(p, pending).frame.Some? { left := left[1..]; }
      pending := pending[n..];
      go := n > 0;
    }
    if go { ShortPending(parser.State(), left, pending); }
  }

  /** A stream of frames that arrives in any pieces, shown to the parser by a caller who shows again what was not taken
      and waits for two bytes at the start of a frame: every frame is handed over once, in order, and nothing is left. */
  method ReceiveAll(parser: WebsocketParser, pieces: seq<seq<Byte>>, ghost fs: seq<Frame>)
    requires parser.Valid() && !parser.inBody && parser.body == [] && parser.frames == []
    requires AllValid(fs) && Concat(pieces) == Stream(fs)
    modifies parser
    ensures parser.frames == DeliveredAll(fs, old(parser.maskingKey)) && !parser.inBody
  {
    hide Parse, Due, DeliveredAll, Waiting;
    NothingPending(parser.State(), fs);
    var pending: seq<Byte> := [];
    ghost var left := fs;
    ghost var all := DeliveredAll(fs, parser.maskingKey);
    Beginning(parser.State(), fs, Concat(pieces));
    assert pieces[0..] == pieces;
    for i := 0 to |pieces|
      invariant parser.Valid() && Due(parser.State(), left, pending + Concat(pieces[i..])) && Waiting(parser.State(), left, pending)
      invariant parser.frames + Rest(parser.State(), left) == all
    {
      assert pieces[i..][1..] == pieces[i + 1..];
      Assoc(pending, pieces[i], Concat(pieces[i + 1..]));
      pending, left := Show(parser, pending + pieces[i], left, Concat(pieces[i + 1..]), all);
    }
    Assoc(pending, [], []);
    AllCome(parser.State(), left, parser.frames, pending);
  }

  /** What is pending is of no use to the parser without more. */
  predicate Waiting(p: Parser, fs: seq<Frame>, pending: seq<Byte>)
  {
    pending == [] ||
    (!p.inBody && (|pending| < 2 || (fs != [] && fs[0].payloadLength <= MAX_LENGTH && |pending| < |Header(fs[0])|)))
  }

  lemma NothingPending(p: Parser, fs: seq<Frame>)
    ensures Waiting(p, fs, [])
  {
  }

  lemma ShortPending(p: Parser, fs: seq<Frame>, pending: seq<Byte>)
    requires pending == [] || (!p.inBody && |pending| < 2)
    ensures Waiting(p, fs, pending)
  {
  }

  /** data is exactly what the parser is still to be shown. */
  predicate Due(p: Parser, fs: seq<Frame>, data: seq<Byte>) { Reading(p, fs) && data == ToCome(p, fs) }

  /** The frames still to be handed over. */
  function Rest(p: Parser, fs: seq<Frame>): seq<Frame> { DeliveredAll(fs, p.key) }

  lemma Beginning(p: Parser, fs: seq<Frame>, data: seq<Byte>)
    requires ParserOk(p) && !p.inBody && AllValid(fs) && data == Stream(fs)
    ensures Due(p, fs, [] + data) && [] + Rest(p, fs) == DeliveredAll(fs, p.key)
  {
    hide ValidFrame;
    Assoc(data, [], []);
  }

  lemma OneCall(p: Parser, fs: seq<Frame>, data: seq<Byte>, future: seq<Byte>, frames: seq<Frame>)
    requires Due(p, fs, data + future) && data != [] && (!p.inBody ==> |data| >= 2) && ParserOk(p)
    ensures var r := Parse(p, data);
            && r.ok && r.taken <= |data| && (r.frame.Some? ==> fs != [])
            && (if r.frame.Some?
                then Due(r.p, fs[1..], data[r.taken..] + future) && frames + Rest(p, fs) == frames + [r.frame.value] + Rest(r.p, fs[1..])
                else Due(r.p, fs, data[r.taken..] + future) && frames + Rest(p, fs) == frames + Rest(r.p, fs))
            && (r.taken == 0 ==> r.frame == None && Waiting(r.p, fs, data[0..]))
  {
    hide Parse, Encoded, InBodyOf;
    assert data[0..] == data;
    assert fs != [];
    ParseShown(p, fs, data, future);
    var r := Parse(p, data);
    if r.frame.Some? {
      assert frames + ([r.frame.value] + Rest(r.p, fs[1..])) == frames + [r.frame.value] + Rest(r.p, fs[1..]);
    }
  }

  /** With nothing more to come, nothing is left. */
  lemma AllCome(p: Parser, fs: seq<Frame>, frames: seq<Frame>, pending: seq<Byte>)
    requires Due(p, fs, pending) && Waiting(p, fs, pending)
    ensures fs == [] && !p.inBody && frames + Rest(p, fs) == frames
  {
  }

  // ----- masking -----

  function Pow2(n: nat): (p: nat)
    ensures p > 0
  {
    if n == 0 then 1 else 2 * Pow2(n - 1)
  }

  /** Exclusive or of the n low bits. */
  function XorBits(a: nat, b: nat, n: nat): (r: nat)
    ensures r < Pow2(n)
  {
    if n == 0 then 0 else 2 * XorBits(a / 2, b / 2, n - 1) + (a + b) % 2
  }

  function Xor(a: Byte, b: Byte): Byte {
    assert Pow2(8) == 256 by { assert Pow2(0) == 1 && Pow2(2) == 4 && Pow2(4) == 16 && Pow2(6) == 64; }
    XorBits(a, b, 8)
  }

  lemma Halves(r: nat, bit: nat)
    requires bit < 2
    ensures (2 * r + bit) / 2 == r && (2 * r + bit) % 2 == bit
  {
  }

  lemma Parity(x: nat, a: nat, b: nat)
    requires x % 2 == (a + b) % 2
    ensures (x + b) % 2 == a % 2
  {
    assert (a + b) / 2 * 2 + (a + b) % 2 == a + b && x / 2 * 2 + x % 2 == x;
    assert x + b == a + 2 * (b + x / 2 - (a + b) / 2);
  }

  lemma {:induction false} XorBitsTwice(a: nat, b: nat, n: nat)
    requires a < Pow2(n)
    ensures XorBits(XorBits(a, b, n), b, n) == a
  {
    if n > 0 {
      var x, r := XorBits(a, b, n), XorBits(a / 2, b / 2, n - 1);
      assert x == 2 * r + (a + b) % 2;
      Halves(r, (a + b) % 2);
      Parity(x, a, b);
      XorBitsTwice(a / 2, b / 2, n - 1);
      assert XorBits(x, b, n) == 2 * XorBits(x / 2, b / 2, n - 1) + (x + b) % 2;
    }
  }

  lemma XorTwice(a: Byte, b: Byte)
    ensures Xor(Xor(a, b), b) == a
  {
    assert Pow2(8) == 256 by { assert Pow2(0) == 1 && Pow2(2) == 4 && Pow2(4) == 16 && Pow2(6) == 64; }
    XorBitsTwice(a, b, 8);
  }

  /** Section 5.3 of RFC 6455: octet i is combined with octet i modulo 4 of the key. */
  function Masked(s: seq<Byte>, key: nat): (r: seq<Byte>)
    ensures |r| == |s|
  {
    seq(|s|, i requires 0 <= i < |s| => Xor(s[i], ToBig(key, 4)[i % 4]))
  }

  method MaskInPlace(bytes: array<Byte>, key: nat)
    modifies bytes
    ensures bytes[..] == Masked(old(bytes[..]), key)
  {
    hide Xor;
    var keys := ToBig(key, 4);
    for i := 0 to bytes.Length
      invariant forall j :: 0 <= j < i ==> bytes[j] == Xor(old(bytes[j]), keys[j % 4])
      invariant forall j :: i <= j < bytes.Length ==> bytes[j] == old(bytes[j])
    {
      bytes[i] := Xor(bytes[i], keys[i % 4]);
    }
  }

  lemma MaskTwice(s: seq<Byte>, key: nat)
    ensures Masked(Masked(s, key), key) == s
  {
    hide Xor;
    forall i | 0 <= i < |s|
      ensures Masked(Masked(s, key), key)[i] == s[i]
    {
      XorTwice(s[i], ToBig(key, 4)[i % 4]);
    }
  }

  /** The test of the length of control frames compares the opcode with 127 and so never applies. */
  lemma LongControlFrames(p: Parser, f: Frame)
    requires ParserOk(p) && !p.inBody && ValidFrame(f) && f.opcode > 7 && f.payloadLength > 125
    ensures Parse(p, Encoded(f)).frame == Some(Delivered(f, p.key))
  {
    hide Parse, Header;
    var data := Encoded(f);
    Assoc(data, [], []);
    assert Reading(p, [f]) && [f][1..] == [] && Stream([f]) == data + [];
    HeaderShort(f);
    ParseShown(p, [f], data, []);
    var r := Parse(p, data);
    if r.frame == None {
      Assoc(data[r.taken..], [], []);
    }
  }

  lemma HeaderShort(f: Frame)
    requires f.payloadLength <= MAX_LENGTH
    ensures 2 <= |Header(f)| <= |Encoded(f)|
  {
  }
}
