/** WebsocketCodec: from frames to messages, and a whole stream of masked messages from the wire to the callbacks. */
module WebSocketCodec {
  import opened Bytes
  import opened WebSocket

  // ----- the body of a frame -----

  datatype Handled = Handled(body: seq<Byte>) | Refused

  /** HandleFrameBody: it goes by the key, not by the mask bit. */
  function HandleFrameBody(f: Frame, expectMasking: bool): Handled {
    if f.body == [] then Handled([])
    else if f.maskingKey != 0 && expectMasking then Handled(Masked(f.body, f.maskingKey))
    else if f.maskingKey != 0 || expectMasking then Refused
    else Handled([])  // not masked and not to be: nothing is copied
  }

  /** A masked message goes through serialising, any cutting up, parsing and unmasking unchanged, if its key is not
      zero; with the key zero it is refused. */
  lemma MaskedThrough(m: seq<Byte>, f: Frame, key: nat)
    requires f.mask && f.body == Masked(m, f.maskingKey) && m != []
    ensures HandleFrameBody(Delivered(f, key), true) == if f.maskingKey != 0 then Handled(m) else Refused
  {
    hide Xor, Masked;
    MaskTwice(m, f.maskingKey);
  }

  /** The key of the last masked frame, or else what the parser found in its memory. */
  function LastKey(fs: seq<Frame>, key: nat): nat {
    if fs == [] then key else if fs[|fs| - 1].mask then fs[|fs| - 1].maskingKey else LastKey(fs[..|fs| - 1], key)
  }

  lemma {:induction false} LastKeyFirst(f: Frame, fs: seq<Frame>, key: nat)
    ensures LastKey([f] + fs, key) == LastKey(fs, Delivered(f, key).maskingKey)
    decreases |fs|
  {
    var gs := [f] + fs;
    if fs == [] {
      assert gs == [f] && [f][..0] == [];
    } else {
      assert gs[..|gs| - 1] == [f] + fs[..|fs| - 1];
      LastKeyFirst(f, fs[..|fs| - 1], key);
    }
  }

  /** In a stream every frame is handed over with the key of the last masked one up to it. */
  lemma {:induction false} DeliveredAt(fs: seq<Frame>, key: nat, i: nat)
    requires i < |fs|
    ensures |DeliveredAll(fs, key)| == |fs| && DeliveredAll(fs, key)[i] == Delivered(fs[i], LastKey(fs[..i], key))
    decreases |fs|
  {
    var next := Delivered(fs[0], key).maskingKey;
    if i == 0 {
      assert fs[..0] == [];
      if |fs| > 1 { DeliveredAt(fs[1..], next, 0); }
    } else {
      DeliveredAt(fs[1..], next, i - 1);
      assert fs[..i] == [fs[0]] + fs[1..][..i - 1];
      LastKeyFirst(fs[0], fs[1..][..i - 1], key);
    }
  }

  /** A body sent in the clear, anywhere in a stream to a server that expects masks, is refused exactly if the last key
      is zero: that of the last masked frame before it, or, if there is none, what the parser found in its memory, which
      its constructor does not set. With any other last key it is taken for masked with that. */
  lemma StaleKey(fs: seq<Frame>, key: nat, i: nat)
    requires i < |fs| && !fs[i].mask && fs[i].body != []
    ensures |DeliveredAll(fs, key)| == |fs|
    ensures var last := LastKey(fs[..i], key);
            HandleFrameBody(DeliveredAll(fs, key)[i], true) == if last != 0 then Handled(Masked(fs[i].body, last)) else Refused
  {
    hide Masked;
    DeliveredAt(fs, key, i);
  }

  // ----- messages -----

  datatype MessageType = NoMessage | TextMessage | BinaryMessage

  datatype Output = TextOut(data: seq<Byte>) | BinaryOut(data: seq<Byte>) | CloseOut(data: seq<Byte>) | PingOut | PongOut | CodecError

  datatype Codec = Codec(current: MessageType, text: seq<Byte>, binary: seq<Byte>, log: seq<Output>)

  function Say(c: Codec, o: Output): Codec { c.(log := c.log + [o]) }

  /** OnTextFrame and OnBinaryFrame */
  function OnDataFrame(c: Codec, isText: bool, fin: bool, body: seq<Byte>): Codec {
    if c.current != NoMessage then Say(c, CodecError)
    else if isText then
      var t := c.text + body;
      if fin then Say(c.(text := []), TextOut(t)) else c.(current := TextMessage, text := t)
    else
      var t := c.binary + body;
      if fin then Say(c.(binary := []), BinaryOut(t)) else c.(current := BinaryMessage, binary := t)
  }

  /** OnContinuationFrame: the message type is forgotten after every continuation frame. */
  function OnContinuation(c: Codec, fin: bool, body: seq<Byte>): Codec {
    match c.current
    case NoMessage => Say(c, CodecError)
    case TextMessage =>
      var t := c.text + body;
      (if fin then Say(c.(text := []), TextOut(t)) else c.(text := t)).(current := NoMessage)
    case BinaryMessage =>
      var t := c.binary + body;
      (if fin then Say(c.(binary := []), BinaryOut(t)) else c.(binary := t)).(current := NoMessage)
  }

  /** What a control frame is passed on as: pings and pongs without their bodies. */
  function ControlOut(opcode: Nibble, body: seq<Byte>): Output {
    if opcode == 8 then CloseOut(body) else if opcode == 9 then PingOut else PongOut
  }

  /** OnParsedFrame */
  function OnFrame(c: Codec, f: Frame, expectMasking: bool): Codec {
    if 2 < f.opcode < 8 || f.opcode > 10 then c
    else
      match HandleFrameBody(f, expectMasking)
      case Refused => Say(c, CodecError)
      case Handled(body) =>
        if f.opcode == 0 then OnContinuation(c, f.fin, body)
        else if f.opcode == 1 then OnDataFrame(c, true, f.fin, body)
        else if f.opcode == 2 then OnDataFrame(c, false, f.fin, body)
        else Say(c, ControlOut(f.opcode, body))
  }

  /** The frames after the first of a fragmented message, by their bodies. */
  function Continue(c: Codec, parts: seq<seq<Byte>>): Codec
    decreases |parts|
  {
    if parts == [] then c else Continue(OnContinuation(c, |parts| == 1, parts[0]), parts[1..])
  }

  function InParts(c: Codec, isText: bool, first: seq<Byte>, parts: seq<seq<Byte>>): Codec {
    Continue(OnDataFrame(c, isText, parts == [], first), parts)
  }

  lemma {:induction false} OnlyErrors(c: Codec, parts: seq<seq<Byte>>)
    requires c.current == NoMessage
    ensures Continue(c, parts) == c.(log := c.log + seq(|parts|, i => CodecError))
    decreases |parts|
  {
    if parts != [] {
      var d := Say(c, CodecError);
      OnlyErrors(d, parts[1..]);
      assert c.log + [CodecError] + seq(|parts| - 1, i => CodecError) == c.log + seq(|parts|, i => CodecError);
    } else {
      assert c.log + seq(0, i => CodecError) == c.log;
    }
  }

  function DataOut(isText: bool, data: seq<Byte>): Output { if isText then TextOut(data) else BinaryOut(data) }

  /** A text or binary message in one or two frames is delivered; one in more frames is not, and the beginning of it is
      left to be put in front of the next message of its kind. */
  lemma MessageInParts(c: Codec, isText: bool, first: seq<Byte>, parts: seq<seq<Byte>>)
    requires c.current == NoMessage && c.text == [] && c.binary == []
    ensures var d := InParts(c, isText, first, parts);
            match |parts| {
              case 0 => d == Say(c, DataOut(isText, first))
              case 1 => d == Say(c, DataOut(isText, first + parts[0]))
              case _ =>
                d == (if isText then c.(text := first + parts[0]) else c.(binary := first + parts[0]))
                     .(log := c.log + seq(|parts| - 1, i => CodecError))
            }
  {
    assert [] + first == first;
    if |parts| >= 2 {
      var d := OnDataFrame(c, isText, false, first);
      OnlyErrors(OnContinuation(d, false, parts[0]), parts[1..]);
    } else if |parts| == 1 {
      var d := OnContinuation(OnDataFrame(c, isText, false, first), true, parts[0]);
      assert parts[1..] == [] && Continue(d, []) == d;
    }
  }

  // ----- the codec -----

  class WebsocketCodec {
    var current: MessageType
    var text: seq<Byte>
    var binary: seq<Byte>
    /** the callbacks made */
    var log: seq<Output>

    function State(): Codec
      reads this
    {
      Codec(current, text, binary, log)
    }

    constructor ()
      ensures State() == Codec(NoMessage, [], [], [])
    {
      current, text, binary, log := NoMessage, [], [], [];
    }

    /** HandleFrameBody; is_expected_masking_ is set once, to true. */
    method TakeBody(f: Frame) returns (ok: bool, body: seq<Byte>)
      modifies `log
      ensures State() == (if HandleFrameBody(f, true).Refused? then Say(old(State()), CodecError) else old(State()))
      ensures ok == HandleFrameBody(f, true).Handled? && (ok ==> body == HandleFrameBody(f, true).body)
    {
      ok, body := true, [];
      if f.body != [] {
        if f.maskingKey != 0 {
          body := Masked(f.body, f.maskingKey);
        } else {
          log := log + [CodecError];
          ok := false;
        }
      }
    }

    method OnContinuationFrame(f: Frame) returns (ok: bool)
      modifies this
      ensures State() == match HandleFrameBody(f, true) {
                case Refused => Say(old(State()), CodecError)
                case Handled(body) => OnContinuation(old(State()), f.fin, body)
              }
      ensures ok == (HandleFrameBody(f, true).Handled? && old(current) != NoMessage)
    {
      hide HandleFrameBody;
      var body;
      ok, body := TakeBody(f);
      if !ok { return; }
      if current == NoMessage {
        log := log + [CodecError];
        return false;
      } else if current == TextMessage {
        text := text + body;
        if f.fin {
          log := log + [TextOut(text)];
          text := [];
        }
      } else {
        binary := binary + body;
        if f.fin {
          log := log + [BinaryOut(binary)];
          binary := [];
        }
      }
      current := NoMessage;
    }

    method OnTextFrame(f: Frame) returns (ok: bool)
      modifies this
      ensures State() == match HandleFrameBody(f, true) {
                case Refused => Say(old(State()), CodecError)
                case Handled(body) => OnDataFrame(old(State()), true, f.fin, body)
              }
      ensures ok == (HandleFrameBody(f, true).Handled? && old(current) == NoMessage)
    {
      hide HandleFrameBody;
      var body;
      ok, body := TakeBody(f);
      if !ok { return; }
      if current != NoMessage {
        log := log + [CodecError];
        return false;
      }
      current := TextMessage;
      text := text + body;
      if f.fin {
        log := log + [TextOut(text)];
        text, current := [], NoMessage;
      }
    }

    method OnBinaryFrame(f: Frame) returns (ok: bool)
      modifies this
      ensures State() == match HandleFrameBody(f, true) {
                case Refused => Say(old(State()), CodecError)
                case Handled(body) => OnDataFrame(old(State()), false, f.fin, body)
              }
      ensures ok == (HandleFrameBody(f, true).Handled? && old(current) == NoMessage)
    {
      hide HandleFrameBody;
      var body;
      ok, body := TakeBody(f);
      if !ok { return; }
      if current != NoMessage {
        log := log + [CodecError];
        return false;
      }
      current := BinaryMessage;
      binary := binary + body;
      if f.fin {
        log := log + [BinaryOut(binary)];
        binary, current := [], NoMessage;
      }
    }

    /** OnCloseFrame, OnPingFrame and OnPongFrame: only the first passes its body on. */
    method OnControlFrame(f: Frame) returns (ok: bool)
      requires f.opcode == 8 || f.opcode == 9 || f.opcode == 10
      modifies `log
      ensures State() == match HandleFrameBody(f, true) {
                case Refused => Say(old(State()), CodecError)
                case Handled(body) => Say(old(State()), ControlOut(f.opcode, body))
              }
      ensures ok == HandleFrameBody(f, true).Handled?
    {
      hide HandleFrameBody;
      var body;
      ok, body := TakeBody(f);
      if !ok { return; }
      if f.opcode == 8 {
        log := log + [CloseOut(body)];
      } else if f.opcode == 9 {
        log := log + [PingOut];
      } else {
        log := log + [PongOut];
      }
    }

    method OnParsedFrame(f: Frame)
      modifies this
      ensures State() == OnFrame(old(State()), f, true)
    {
      hide HandleFrameBody, OnDataFrame, OnContinuation;
      var ok;
      if f.opcode == 0 {
        ok := OnContinuationFrame(f);
      } else if f.opcode == 1 {
        ok := OnTextFrame(f);
      } else if f.opcode == 2 {
        ok := OnBinaryFrame(f);
      } else if f.opcode == 8 || f.opcode == 9 || f.opcode == 10 {
        ok := OnControlFrame(f);
      }
    }
  }

  // ----- messages from the wire to the callbacks -----

  function OnFrames(c: Codec, fs: seq<Frame>): Codec
    decreases |fs|
  {
    if fs == [] then c else OnFrames(OnFrame(c, fs[0], true), fs[1..])
  }

  lemma {:induction false} OnFramesSplit(c: Codec, a: seq<Frame>, b: seq<Frame>)
    ensures OnFrames(c, a + b) == OnFrames(OnFrames(c, a), b)
    decreases |a|
  {
    hide OnFrame;
    if a == [] {
      assert a + b == b;
    } else {
      assert (a + b)[1..] == a[1..] + b;
      OnFramesSplit(OnFrame(c, a[0], true), a[1..], b);
    }
  }

  /** A control message may come between the two halves of another (section 5.4 of RFC 6455). */
  datatype Control = Control(opcode: Nibble, body: seq<Byte>, key: nat)

  datatype Message =
    | Whole(isText: bool, data: seq<Byte>, key: nat)
    | Halves(isText: bool, first: seq<Byte>, key: nat, between: seq<Control>, second: seq<Byte>, otherKey: nat)
    | Alone(control: Control)

  /** A masked frame around m. */
  function MaskedFrame(fin: bool, opcode: Nibble, m: seq<Byte>, key: nat): Frame {
    Frame(fin, false, false, false, opcode, true, |m|, key, Masked(m, key))
  }

  function ControlFrames(cs: seq<Control>): seq<Frame> {
    if cs == [] then [] else [MaskedFrame(true, cs[0].opcode, cs[0].body, cs[0].key)] + ControlFrames(cs[1..])
  }

  function DataOpcode(isText: bool): Nibble { if isText then 1 else 2 }

  function MessageFrames(m: Message): seq<Frame> {
    match m
    case Whole(isText, data, key) => [MaskedFrame(true, DataOpcode(isText), data, key)]
    case Halves(isText, first, key, between, second, otherKey) =>
      [MaskedFrame(false, DataOpcode(isText), first, key)] + ControlFrames(between) + [MaskedFrame(true, 0, second, otherKey)]
    case Alone(c) => ControlFrames([c])
  }

  function MessagesFrames(ms: seq<Message>): seq<Frame> {
    if ms == [] then [] else MessageFrames(ms[0]) + MessagesFrames(ms[1..])
  }

  function ControlsOut(cs: seq<Control>): seq<Output> {
    if cs == [] then [] else [ControlOut(cs[0].opcode, cs[0].body)] + ControlsOut(cs[1..])
  }

  function MessageOut(m: Message): seq<Output> {
    match m
    case Whole(isText, data, _) => [DataOut(isText, data)]
    case Halves(isText, first, _, between, second, _) => ControlsOut(between) + [DataOut(isText, first + second)]
    case Alone(c) => ControlsOut([c])
  }

  function MessagesOut(ms: seq<Message>): seq<Output> {
    if ms == [] then [] else MessageOut(ms[0]) + MessagesOut(ms[1..])
  }

  /** What a client may send: any length the serialiser takes, any key but zero. */
  predicate Fits(m: seq<Byte>, key: nat) { |m| <= MAX_LENGTH && 0 < key < 0x1_0000_0000 }

  predicate ValidControl(c: Control) { 8 <= c.opcode <= 10 && Fits(c.body, c.key) }

  predicate ValidMessage(m: Message) {
    match m
    case Whole(_, data, key) => Fits(data, key)
    case Halves(_, first, key, between, second, otherKey) =>
      Fits(first, key) && Fits(second, otherKey) && forall i :: 0 <= i < |between| ==> ValidControl(between[i])
    case Alone(c) => ValidControl(c)
  }

  lemma BodyUnmasked(fin: bool, opcode: Nibble, m: seq<Byte>, key: nat)
    requires Fits(m, key)
    ensures HandleFrameBody(MaskedFrame(fin, opcode, m, key), true) == Handled(m)
  {
    hide Masked;
    var f := MaskedFrame(fin, opcode, m, key);
    if m != [] { MaskedThrough(m, f, 0); }
  }

  lemma {:induction false} ControlsThrough(c: Codec, cs: seq<Control>)
    requires forall i :: 0 <= i < |cs| ==> ValidControl(cs[i])
    ensures OnFrames(c, ControlFrames(cs)) == c.(log := c.log + ControlsOut(cs))
    decreases |cs|
  {
    hide OnFrame, MaskedFrame;
    if cs != [] {
      var x := cs[0];
      ControlFrameOut(c, x);
      var d := Say(c, ControlOut(x.opcode, x.body));
      ControlsThrough(d, cs[1..]);
      assert c.log + [ControlOut(x.opcode, x.body)] + ControlsOut(cs[1..]) == c.log + ControlsOut(cs);
    }
  }

  lemma ControlFrameOut(c: Codec, x: Control)
    requires ValidControl(x)
    ensures OnFrame(c, MaskedFrame(true, x.opcode, x.body, x.key), true) == Say(c, ControlOut(x.opcode, x.body))
  {
    hide HandleFrameBody;
    BodyUnmasked(true, x.opcode, x.body, x.key);
  }

  lemma OneFrame(c: Codec, f: Frame)
    ensures OnFrames(c, [f]) == OnFrame(c, f, true)
  {
    hide OnFrame;
    assert [f][1..] == [];
  }

  /** Between messages: nothing collected. */
  predicate Idle(c: Codec) { c.current == NoMessage && c.text == [] && c.binary == [] }

  lemma WholeThrough(c: Codec, m: Message)
    requires Idle(c) && m.Whole? && ValidMessage(m)
    ensures OnFrames(c, MessageFrames(m)) == c.(log := c.log + MessageOut(m))
  {
    hide HandleFrameBody, OnFrames;
    var f := MaskedFrame(true, DataOpcode(m.isText), m.data, m.key);
    BodyUnmasked(true, DataOpcode(m.isText), m.data, m.key);
    OneFrame(c, f);
    assert [] + m.data == m.data;
  }

  lemma FirstHalf(c: Codec, m: Message)
    requires Idle(c) && m.Halves? && ValidMessage(m)
    ensures OnFrame(c, MaskedFrame(false, DataOpcode(m.isText), m.first, m.key), true) ==
            if m.isText then c.(current := TextMessage, text := m.first) else c.(current := BinaryMessage, binary := m.first)
  {
    hide HandleFrameBody;
    BodyUnmasked(false, DataOpcode(m.isText), m.first, m.key);
    assert [] + m.first == m.first;
  }

  lemma SecondHalf(c: Codec, m: Message, log: seq<Output>)
    requires Idle(c) && m.Halves? && ValidMessage(m)
    ensures var d := if m.isText then c.(current := TextMessage, text := m.first) else c.(current := BinaryMessage, binary := m.first);
            OnFrame(d.(log := log), MaskedFrame(true, 0, m.second, m.otherKey), true) ==
            c.(log := log + [DataOut(m.isText, m.first + m.second)])
  {
    hide HandleFrameBody;
    BodyUnmasked(true, 0, m.second, m.otherKey);
  }

  lemma HalvesThrough(c: Codec, m: Message)
    requires Idle(c) && m.Halves? && ValidMessage(m)
    ensures OnFrames(c, MessageFrames(m)) == c.(log := c.log + MessageOut(m))
  {
    hide OnFrame, OnFrames, MaskedFrame, Idle, ControlFrames, ControlsOut;
    var f := MaskedFrame(false, DataOpcode(m.isText), m.first, m.key);
    var g := MaskedFrame(true, 0, m.second, m.otherKey);
    var d := if m.isText then c.(current := TextMessage, text := m.first) else c.(current := BinaryMessage, binary := m.first);
    FirstHalf(c, m);
    OneFrame(c, f);
    ControlsThrough(d, m.between);
    OnFramesSplit(c, [f], ControlFrames(m.between));
    var log := c.log + ControlsOut(m.between);
    SecondHalf(c, m, log);
    OneFrame(d.(log := log), g);
    OnFramesSplit(c, [f] + ControlFrames(m.between), [g]);
    assert log + [DataOut(m.isText, m.first + m.second)] == c.log + MessageOut(m);
  }

  lemma MessageThrough(c: Codec, m: Message)
    requires Idle(c) && ValidMessage(m)
    ensures OnFrames(c, MessageFrames(m)) == c.(log := c.log + MessageOut(m))
  {
    hide OnFrames, ControlFrames, ControlsOut;
    match m
    case Whole(_, _, _) => WholeThrough(c, m);
    case Halves(_, _, _, _, _, _) => HalvesThrough(c, m);
    case Alone(x) => ControlsThrough(c, [x]);
  }

  /** The frames of any messages, each in one frame or in two, give exactly these messages. */
  lemma {:induction false} MessagesThrough(c: Codec, ms: seq<Message>)
    requires Idle(c) && forall i :: 0 <= i < |ms| ==> ValidMessage(ms[i])
    ensures OnFrames(c, MessagesFrames(ms)) == c.(log := c.log + MessagesOut(ms))
    decreases |ms|
  {
    hide OnFrame, MessageFrames, MessageOut, ValidMessage;
    if ms != [] {
      MessageThrough(c, ms[0]);
      var d := c.(log := c.log + MessageOut(ms[0]));
      MessagesThrough(d, ms[1..]);
      OnFramesSplit(c, MessageFrames(ms[0]), MessagesFrames(ms[1..]));
      assert c.log + MessageOut(ms[0]) + MessagesOut(ms[1..]) == c.log + MessagesOut(ms);
    }
  }

  predicate AllMasked(fs: seq<Frame>) { forall i :: 0 <= i < |fs| ==> ValidFrame(fs[i]) && fs[i].mask }

  lemma AllMaskedJoin(a: seq<Frame>, b: seq<Frame>)
    requires AllMasked(a) && AllMasked(b)
    ensures AllMasked(a + b)
  {
  }

  lemma MaskedFrameValid(fin: bool, opcode: Nibble, m: seq<Byte>, key: nat)
    requires Fits(m, key) && (opcode <= 2 || (8 <= opcode <= 10 && fin))
    ensures AllMasked([MaskedFrame(fin, opcode, m, key)])
  {
    hide Masked;
  }

  lemma {:induction false} ControlFramesValid(cs: seq<Control>)
    requires forall i :: 0 <= i < |cs| ==> ValidControl(cs[i])
    ensures AllMasked(ControlFrames(cs))
    decreases |cs|
  {
    hide MaskedFrame, ValidFrame;
    if cs != [] {
      MaskedFrameValid(true, cs[0].opcode, cs[0].body, cs[0].key);
      ControlFramesValid(cs[1..]);
      AllMaskedJoin([MaskedFrame(true, cs[0].opcode, cs[0].body, cs[0].key)], ControlFrames(cs[1..]));
    }
  }

  lemma MessageFramesValid(m: Message)
    requires ValidMessage(m)
    ensures AllMasked(MessageFrames(m))
  {
    hide MaskedFrame, ValidFrame, ControlFrames;
    match m
    case Whole(isText, data, key) => MaskedFrameValid(true, DataOpcode(isText), data, key);
    case Halves(isText, first, key, between, second, otherKey) =>
      MaskedFrameValid(false, DataOpcode(isText), first, key);
      MaskedFrameValid(true, 0, second, otherKey);
      ControlFramesValid(between);
    case Alone(c) => ControlFramesValid([c]);
  }

  lemma {:induction false} MessagesFramesValid(ms: seq<Message>)
    requires forall i :: 0 <= i < |ms| ==> ValidMessage(ms[i])
    ensures AllMasked(MessagesFrames(ms))
    decreases |ms|
  {
    hide MessageFrames, ValidMessage, ValidFrame;
    if ms != [] {
      MessageFramesValid(ms[0]);
      MessagesFramesValid(ms[1..]);
    }
  }

  /** Masked frames bring their own keys. */
  lemma {:induction false} MaskedAsSent(fs: seq<Frame>, key: nat)
    requires AllMasked(fs)
    ensures DeliveredAll(fs, key) == fs
    decreases |fs|
  {
    hide ValidFrame;
    if fs != [] {
      MaskedAsSent(fs[1..], fs[0].maskingKey);
      assert fs == [fs[0]] + fs[1..];
    }
  }

  lemma MaskedAreValid(fs: seq<Frame>)
    requires AllMasked(fs)
    ensures AllValid(fs) && forall i :: 0 <= i < |fs| ==> fs[i].payloadLength <= MAX_LENGTH
  {
  }

  /** The bytes a client sends for its messages. */
  function Wire(ms: seq<Message>): seq<Byte>
    requires forall i :: 0 <= i < |ms| ==> ValidMessage(ms[i])
  {
    MessagesFramesValid(ms);
    MaskedAreValid(MessagesFrames(ms));
    Stream(MessagesFrames(ms))
  }

  /** A client's messages on the wire, cut anywhere: the callbacks get exactly these messages, in order. */
  method ReceiveMessages(parser: WebsocketParser, codec: WebsocketCodec, pieces: seq<seq<Byte>>, ghost ms: seq<Message>)
    requires parser.Valid() && !parser.inBody && parser.body == [] && parser.frames == [] && Idle(codec.State())
    requires (forall i :: 0 <= i < |ms| ==> ValidMessage(ms[i])) && Concat(pieces) == Wire(ms)
    modifies parser, codec
    ensures codec.State() == old(codec.State()).(log := old(codec.log) + MessagesOut(ms))
  {
    hide OnFrame, ValidMessage, MessagesFrames, DeliveredAll, ValidFrame, AllMasked, Stream;
    ghost var c, fs := codec.State(), MessagesFrames(ms);
    MessagesFramesValid(ms);
    MaskedAreValid(fs);
    MaskedAsSent(fs, parser.maskingKey);
    ReceiveAll(parser, pieces, fs);
    for i := 0 to |parser.frames|
      invariant parser.frames == fs && codec.State() == OnFrames(c, fs[..i])
    {
      codec.OnParsedFrame(parser.frames[i]);
      OnFramesSplit(c, fs[..i], [fs[i]]);
      OneFrame(OnFrames(c, fs[..i]), fs[i]);
      assert fs[..i + 1] == fs[..i] + [fs[i]];
    }
    assert fs[..|fs|] == fs;
    MessagesThrough(c, ms);
  }
}
