/** Base64 (section 4 of RFC 4648), as encoded and decoded byte by byte. */
module Base64 {
  import opened Bytes

  const CHARS: string := "ABCDEFGHIJKLMNOPQRSTUVWXYZ" + "abcdefghijklmnopqrstuvwxyz" + "0123456789+/"

  predicate IsBase64(c: char) {
    'A' <= c <= 'Z' || 'a' <= c <= 'z' || '0' <= c <= '9' || c == '+' || c == '/'
  }

  /** base64_chars.find(c), from offset `from` on, as an unsigned char: npos becomes 255. */
  function FindFrom(c: char, from: nat): Byte
    requires from <= |CHARS|
    decreases |CHARS| - from
  {
    if from == |CHARS| then 255 else if CHARS[from] == c then from else FindFrom(c, from + 1)
  }

  function Find(c: char): Byte { FindFrom(c, 0) }

  type Six = n: int | 0 <= n < 64

  /** Character v, and how it is found again. */
  function CharOf(v: Six): char {
    if v < 26 then 'A' + v as char
    else if v < 52 then 'a' + (v - 26) as char
    else if v < 62 then '0' + (v - 52) as char
    else if v == 62 then '+' else '/'
  }

  lemma CharsAre(v: Six)
    ensures |CHARS| == 64 && CHARS[v] == CharOf(v)
  {
    if v < 26 { Capitals(v); } else if v < 52 { Smalls(v - 26); } else { Others(v - 52); }
  }

  lemma Capitals(v: Six)
    requires v < 26
    ensures "ABCDEFGHIJKLMNOPQRSTUVWXYZ"[v] == 'A' + v as char
  {
  }

  lemma Smalls(v: Six)
    requires v < 26
    ensures "abcdefghijklmnopqrstuvwxyz"[v] == 'a' + v as char
  {
  }

  lemma Others(v: Six)
    requires v < 12
    ensures "0123456789+/"[v] == CharOf(v + 52)
  {
  }

  lemma {:induction false} FindsFrom(v: Six, from: nat)
    requires from <= v
    ensures FindFrom(CharOf(v), from) == v
    decreases v - from
  {
    hide CharOf;
    CharsAre(v);
    CharsAre(from);
    if from < v {
      Distinct(from, v);
      FindsFrom(v, from + 1);
    }
  }

  lemma Distinct(u: Six, v: Six)
    ensures CharOf(u) == CharOf(v) ==> u == v
    ensures IsBase64(CharOf(v)) && CharOf(v) != '='
  {
  }

  lemma Finds(v: Six)
    ensures Find(CharOf(v)) == v
  {
    FindsFrom(v, 0);
  }

  // ----- encoding -----

  /** The four numbers of three bytes. */
  function Split3(a: Byte, b: Byte, c: Byte): (Six, Six, Six, Six) {
    (a / 4, (a % 4) * 16 + b / 16, (b % 16) * 4 + c / 64, c % 64)
  }

  function Four(a: Byte, b: Byte, c: Byte): string {
    var q := Split3(a, b, c);
    [CharOf(q.0), CharOf(q.1), CharOf(q.2), CharOf(q.3)]
  }

  function Encoded(s: seq<Byte>): (e: string)
    ensures |e| == 4 * ((|s| + 2) / 3)
  {
    if |s| == 0 then ""
    else if |s| == 1 then Four(s[0], 0, 0)[..2] + "=="
    else if |s| == 2 then Four(s[0], s[1], 0)[..3] + "="
    else Four(s[0], s[1], s[2]) + Encoded(s[3..])
  }

  /** Base64Encode; a length is 32 bits. */
  method Encode(s: seq<Byte>) returns (ret: string)
    requires |s| < 0x1_0000_0000
    ensures ret == Encoded(s)
  {
    hide CharOf, Encoded, Split3;
    ret := "";
    assert s[0..] == s && "" + Encoded(s) == Encoded(s);
    var left, at, i := |s|, 0, 0;
    var char3 := new Byte[3](_ => 0);
    while left > 0
      invariant 0 <= i < 3 && i <= at <= |s| && left == |s| - at
      invariant ret + Encoded(s[at - i..]) == Encoded(s)
      invariant forall j :: 0 <= j < i ==> char3[j] == s[at - i + j]
      decreases left
    {
      left := left - 1;
      char3[i] := s[at];
      i, at := i + 1, at + 1;
      if i == 3 {
        ghost var rest := s[at - 3..];
        assert rest[3..] == s[at..];
        var q := Split3(char3[0], char3[1], char3[2]);
        EncodedStep(rest);
        CharsAre(q.0); CharsAre(q.1); CharsAre(q.2); CharsAre(q.3);
        Assoc(ret, [CHARS[q.0], CHARS[q.1], CHARS[q.2], CHARS[q.3]], Encoded(s[at..]));
        ret := ret + [CHARS[q.0], CHARS[q.1], CHARS[q.2], CHARS[q.3]];
        i := 0;
      }
    }
    ghost var tail := s[at - i..];
    if i > 0 {
      for j := i to 3
        invariant forall k :: 0 <= k < i ==> char3[k] == s[at - i + k]
        invariant forall k :: i <= k < j ==> char3[k] == 0
      {
        char3[j] := 0;
      }
      var q := Split3(char3[0], char3[1], char3[2]);
      CharsAre(q.0); CharsAre(q.1); CharsAre(q.2); CharsAre(q.3);
      var char4 := [CHARS[q.0], CHARS[q.1], CHARS[q.2], CHARS[q.3]];
      EncodedTail(tail, char4);
      ret := ret + (char4[..i + 1] + (if i == 1 then "==" else "="));
    } else {
      EncodedTail(tail, []);
      Assoc(ret, [], []);
    }
  }

  lemma Assoc(a: string, b: string, c: string)
    ensures a + b + c == a + (b + c) && a + [] == a
  {
  }

  lemma EncodedStep(s: seq<Byte>)
    requires |s| >= 3
    ensures Encoded(s) == Four(s[0], s[1], s[2]) + Encoded(s[3..])
  {
  }

  lemma EncodedTail(s: seq<Byte>, four: string)
    requires |s| < 3 && (|s| == 1 ==> four == Four(s[0], 0, 0)) && (|s| == 2 ==> four == Four(s[0], s[1], 0))
    ensures Encoded(s) == if s == [] then "" else four[..|s| + 1] + (if |s| == 1 then "==" else "=")
  {
  }

  // ----- decoding -----

  /** The characters up to the first one that is not of the alphabet. */
  function Usable(e: string): string {
    if e != "" && e[0] != '=' && IsBase64(e[0]) then [e[0]] + Usable(e[1..]) else ""
  }

  /** Three bytes of four table values, with unsigned char arithmetic. */
  function Join4(a: Byte, b: Byte, c: Byte, d: Byte): seq<Byte> {
    [(4 * a + (b / 16) % 4) % 256, ((b % 16) * 16 + (c / 4) % 16) % 256, ((c % 4) * 64 + d) % 256]
  }

  function Decoded(v: string): seq<Byte> {
    if |v| < 4 then
      if |v| < 2 then [] else Join4(Find(v[0]), Find(v[1]), if |v| == 3 then Find(v[2]) else 255, 255)[..|v| - 1]
    else Join4(Find(v[0]), Find(v[1]), Find(v[2]), Find(v[3])) + Decoded(v[4..])
  }

  /** Base64Decode. The unused places of the last group hold NUL, which is not found: 255. */
  method Decode(e: string) returns (ret: seq<Byte>)
    requires |e| < 0x8000_0000
    ensures ret == Decoded(Usable(e))
  {
    hide FindFrom, Find, Join4, Decoded, Usable, IsBase64;
    ret := [];
    var left, at, i := |e|, 0, 0;
    var char4 := new char[4](_ => 'A');
    ghost var v := Usable(e);
    UsableIs(e);
    assert v[0..] == v;
    BytesAssoc(Decoded(v), [], []);
    while left > 0 && e[at] != '=' && IsBase64(e[at])
      invariant 0 <= i < 4 && i <= at <= |v| && left == |e| - at
      invariant ret + Decoded(v[at - i..]) == Decoded(v)
      invariant char4[..i] == v[at - i..at]
      decreases left
    {
      assert at < |v| && e[at] == v[at];
      left := left - 1;
      char4[i] := e[at];
      i, at := i + 1, at + 1;
      assert char4[..i] == v[at - i..at];
      if i == 4 {
        var three := Join4(Find(char4[0]), Find(char4[1]), Find(char4[2]), Find(char4[3]));
        GroupStep(v, at - 4, char4[..4], ret);
        ret := ret + three;
        i := 0;
      }
    }
    assert at == |v|;
    ghost var tail := v[at - i..];
    assert ret + Decoded(tail) == Decoded(v);
    if i > 0 {
      assert char4[..i] == tail;
      var last := LastGroup(char4, i);
      ret := ret + last;
    } else {
      assert tail == "";
      BytesAssoc(ret, [], []);
      DecodedNone();
    }
  }

  /** An incomplete group: its unused places are filled with NUL. */
  method LastGroup(char4: array<char>, i: nat) returns (bytes: seq<Byte>)
    requires char4.Length == 4 && 0 < i < 4
    modifies char4
    ensures bytes == Decoded(old(char4[..i]))
  {
    hide FindFrom, Find, Join4, Decoded;
    ghost var v := char4[..i];
    for j := i to 4
      invariant char4[..i] == v
      invariant forall k :: i <= k < j ==> char4[k] == '\0'
    {
      char4[j] := '\0';
    }
    NulNotFound();
    var three := Join4(Find(char4[0]), Find(char4[1]), Find(char4[2]), Find(char4[3]));
    assert v[0] == char4[0] && (i > 1 ==> v[1] == char4[1]) && (i > 2 ==> v[2] == char4[2]);
    DecodedTail(v, three);
    JoinLength(Find(char4[0]), Find(char4[1]), Find(char4[2]), Find(char4[3]));
    bytes := three[..i - 1];
  }

  lemma DecodedStep(v: string)
    requires |v| >= 4
    ensures Decoded(v) == Join4(Find(v[0]), Find(v[1]), Find(v[2]), Find(v[3])) + Decoded(v[4..])
  {
  }

  lemma JoinLength(a: Byte, b: Byte, c: Byte, d: Byte)
    ensures |Join4(a, b, c, d)| == 3
  {
  }

  lemma DecodedNone()
    ensures Decoded("") == []
  {
  }

  lemma BytesAssoc(a: seq<Byte>, b: seq<Byte>, c: seq<Byte>)
    ensures a + b + c == a + (b + c) && a + [] == a && [] + a == a
  {
  }

  lemma {:induction false} UsableIs(e: string)
    ensures var v := Usable(e);
            && v <= e && (forall i :: 0 <= i < |v| ==> v[i] != '=' && IsBase64(v[i]))
            && (|v| < |e| ==> e[|v|] == '=' || !IsBase64(e[|v|]))
  {
    hide IsBase64;
    if e != "" && e[0] != '=' && IsBase64(e[0]) {
      UsableIs(e[1..]);
      var v, w := Usable(e), Usable(e[1..]);
      assert v == [e[0]] + w && e == [e[0]] + e[1..];
      assert forall i :: 1 <= i < |v| ==> v[i] == w[i - 1];
    }
  }

  /** A whole group of the text is decoded. */
  lemma GroupStep(v: string, at: nat, four: string, done: seq<Byte>)
    requires at + 4 <= |v| && four == v[at..at + 4]
    ensures done + Decoded(v[at..]) == done + Join4(Find(four[0]), Find(four[1]), Find(four[2]), Find(four[3])) + Decoded(v[at + 4..])
  {
    hide FindFrom, Find, Join4, Decoded;
    var rest := v[at..];
    assert rest[4..] == v[at + 4..];
    assert rest[0] == four[0] && rest[1] == four[1] && rest[2] == four[2] && rest[3] == four[3];
    DecodedStep(rest);
    BytesAssoc(done, Join4(Find(four[0]), Find(four[1]), Find(four[2]), Find(four[3])), Decoded(v[at + 4..]));
  }

  lemma UsableEnds(e: string)
    requires e == "" || e[0] == '=' || !IsBase64(e[0])
    ensures Usable(e) == ""
  {
  }

  lemma {:induction false} NotFoundFrom(c: char, from: nat)
    requires from <= |CHARS| && !IsBase64(c)
    ensures FindFrom(c, from) == 255
    decreases |CHARS| - from
  {
    if from < |CHARS| {
      CharsAre(from);
      Distinct(from, from);
      NotFoundFrom(c, from + 1);
    }
  }

  lemma NulNotFound()
    ensures Find('\0') == 255
  {
    NotFoundFrom('\0', 0);
  }

  lemma DecodedTail(v: string, three: seq<Byte>)
    requires 0 < |v| < 4
    requires three == Join4(Find(v[0]), if |v| > 1 then Find(v[1]) else 255, if |v| > 2 then Find(v[2]) else 255, 255)
    ensures Decoded(v) == three[..|v| - 1]
  {
    hide FindFrom, Find;
  }

  // ----- round trip -----

  lemma JoinFirst(a: Byte, b: Byte)
    ensures (4 * (a / 4) + (((a % 4) * 16 + b / 16) / 16) % 4) % 256 == a
  {
    assert ((a % 4) * 16 + b / 16) / 16 == a % 4;
  }

  lemma JoinSecond(a: Byte, b: Byte, c: Byte)
    ensures ((((a % 4) * 16 + b / 16) % 16) * 16 + (((b % 16) * 4 + c / 64) / 4) % 16) % 256 == b
  {
    assert ((a % 4) * 16 + b / 16) % 16 == b / 16;
    assert ((b % 16) * 4 + c / 64) / 4 == b % 16;
  }

  lemma JoinThird(b: Byte, c: Byte)
    ensures ((((b % 16) * 4 + c / 64) % 4) * 64 + c % 64) % 256 == c
  {
    assert ((b % 16) * 4 + c / 64) % 4 == c / 64;
  }

  lemma JoinSplit(a: Byte, b: Byte, c: Byte)
    ensures var q := Split3(a, b, c);
            && Join4(q.0, q.1, q.2, q.3) == [a, b, c]
            && Join4(q.0, q.1, q.2, 255)[..2] == [a, b]
            && Join4(q.0, q.1, 255, 255)[..1] == [a]
  {
    JoinFirst(a, b);
    JoinSecond(a, b, c);
    JoinThird(b, c);
    var q := Split3(a, b, c);
    JoinIs(q.0, q.1, q.2, q.3, a, b, c);
    var y: int, z: int := q.1, q.2;
    JoinIs(q.0, q.1, q.2, 255, a, b, ((z % 4) * 64 + 255) % 256);
    JoinIs(q.0, q.1, 255, 255, a, ((y % 16) * 16 + (255 / 4) % 16) % 256, ((255 % 4) * 64 + 255) % 256);
  }

  lemma JoinIs(a: Byte, b: Byte, c: Byte, d: Byte, x: Byte, y: Byte, z: Byte)
    requires (4 * a + (b / 16) % 4) % 256 == x && ((b % 16) * 16 + (c / 4) % 16) % 256 == y && ((c % 4) * 64 + d) % 256 == z
    ensures Join4(a, b, c, d) == [x, y, z]
    ensures Join4(a, b, c, d)[..2] == [x, y] && Join4(a, b, c, d)[..1] == [x]
  {
  }

  lemma UsableFour(x: string, rest: string)
    requires forall i :: 0 <= i < |x| ==> IsBase64(x[i]) && x[i] != '='
    ensures Usable(x + rest) == x + Usable(rest)
  {
    if x == "" {
      assert x + rest == rest;
    } else {
      assert (x + rest)[1..] == x[1..] + rest;
      UsableFour(x[1..], rest);
      assert x == [x[0]] + x[1..];
    }
  }

  lemma FourUsable(a: Byte, b: Byte, c: Byte)
    ensures var f := Four(a, b, c); forall i :: 0 <= i < |f| ==> IsBase64(f[i]) && f[i] != '='
  {
    var q := Split3(a, b, c);
    Distinct(q.0, q.0);
    Distinct(q.1, q.1);
    Distinct(q.2, q.2);
    Distinct(q.3, q.3);
  }

  lemma FourFound(a: Byte, b: Byte, c: Byte)
    ensures var f, q := Four(a, b, c), Split3(a, b, c);
            Find(f[0]) == q.0 && Find(f[1]) == q.1 && Find(f[2]) == q.2 && Find(f[3]) == q.3
  {
    var q := Split3(a, b, c);
    Finds(q.0);
    Finds(q.1);
    Finds(q.2);
    Finds(q.3);
  }

  /** Decoding what was encoded gives it back, for every byte string. */
  lemma {:induction false} RoundTrip(s: seq<Byte>)
    ensures Decoded(Usable(Encoded(s))) == s
  {
    hide Find, FindFrom, CharOf, Split3, Join4;
    if |s| > 0 {
      var b, c := if |s| > 1 then s[1] else 0, if |s| > 2 then s[2] else 0;
      var f := Four(s[0], b, c);
      FourUsable(s[0], b, c);
      FourFound(s[0], b, c);
      JoinSplit(s[0], b, c);
      if |s| >= 3 {
        UsableFour(f, Encoded(s[3..]));
        RoundTrip(s[3..]);
        assert (f + Usable(Encoded(s[3..])))[4..] == Usable(Encoded(s[3..]));
        assert s == [s[0], b, c] + s[3..];
      } else {
        UsableFour(f[..|s| + 1], if |s| == 1 then "==" else "=");
        UsableEnds(if |s| == 1 then "==" else "=");
        assert Usable(Encoded(s)) == f[..|s| + 1];
        assert s == if |s| == 1 then [s[0]] else [s[0], b];
      }
    }
  }

  /** The two methods, one after the other. */
  method Through(s: seq<Byte>) returns (t: seq<Byte>)
    requires |s| <= 3 * 0x1fff_ffff
    ensures t == s
  {
    hide Encoded, Decoded, Usable;
    RoundTrip(s);
    var e := Encode(s);
    assert |e| < 0x8000_0000;
    t := Decode(e);
  }
}
