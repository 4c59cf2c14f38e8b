/** The header-name and header-value matchers, against the strings they are meant to recognise. */
module HttpHeaders {
  import opened Wrappers
  import opened HttpTypes
  import opened Streaming
  import opened HttpStep

  function LowerAll(s: Bytes): Bytes { seq(|s|, i requires 0 <= i < |s| => Token(s[i])) }

  predicate IsName(s: Bytes) { s != [] && forall i :: 0 <= i < |s| ==> Token(s[i]) != NUL }

  const CONNECTION: Bytes := "connection"
  const PROXY_CONNECTION: Bytes := "proxy-connection"
  const CONTENT_LENGTH: Bytes := "content-length"
  const TRANSFER_ENCODING: Bytes := "transfer-encoding"
  const UPGRADE: Bytes := "upgrade"

  /** Reference: the state after a (lower-cased) name has been read, by comparison with the known names. */
  function NameState(l: Bytes): HeaderState {
    if l == CONNECTION || l == PROXY_CONNECTION then HConnection
    else if l == CONTENT_LENGTH then HContentLength
    else if l == TRANSFER_ENCODING then HTransferEncoding
    else if l == UPGRADE then HUpgrade
    else if l == [] then General
    else if l <= CONNECTION && l <= CONTENT_LENGTH then (if |l| == 1 then HC else if |l| == 2 then HCO else HCON)
    else if l <= CONNECTION then MatchingConnection
    else if l <= CONTENT_LENGTH then MatchingContentLength
    else if l <= PROXY_CONNECTION then MatchingProxyConnection
    else if l <= TRANSFER_ENCODING then MatchingTransferEncoding
    else if l <= UPGRADE then MatchingUpgrade
    else General
  }

  lemma PrefixMore(l: Bytes, c: Byte, w: Bytes)
    ensures l + [c] <= w <==> l <= w && |l| < |w| && w[|l|] == c
    ensures l + [c] == w <==> l <= w && |l| + 1 == |w| && w[|l|] == c
  {
    if l <= w && |l| < |w| && w[|l|] == c {
      assert w[..|l| + 1] == l + [c];
      if |l| + 1 == |w| { assert w == w[..|l| + 1]; }
    }
    if l + [c] <= w {
      assert w[..|l|] == (l + [c])[..|l|] == l;
      assert w[|l|] == (l + [c])[|l|];
    }
  }

  lemma FirstLetter(c: Byte)
    ensures NameState([c]) == FirstFieldState(c)
  {
    PrefixMore([], c, CONNECTION);
    PrefixMore([], c, CONTENT_LENGTH);
    PrefixMore([], c, PROXY_CONNECTION);
    PrefixMore([], c, TRANSFER_ENCODING);
    PrefixMore([], c, UPGRADE);
    assert [] + [c] == [c];
  }

  lemma NextLetterC(l: Bytes, c: Byte)
    requires l != [] && l[0] == 'c' && c != NUL && c != ' '
    ensures FieldMatch(NameState(l), |l| - 1, c) == NameState(l + [c])
  {
    PrefixMore(l, c, CONNECTION);
    PrefixMore(l, c, CONTENT_LENGTH);
    assert l <= CONNECTION ==> |l| > 3 ==> l[3] == 'n';
    assert l <= CONTENT_LENGTH ==> |l| > 3 ==> l[3] == 't';
    assert |l| <= 3 ==> (l <= CONNECTION <==> l <= CONTENT_LENGTH) by {
      assert |l| <= 3 ==> CONNECTION[..|l|] == CONTENT_LENGTH[..|l|];
    }
    assert (l + [c])[0] == 'c';
  }

  lemma NextLetterNotC(l: Bytes, c: Byte)
    requires l != [] && l[0] != 'c' && c != NUL && c != ' '
    ensures FieldMatch(NameState(l), |l| - 1, c) == NameState(l + [c])
  {
    PrefixMore(l, c, PROXY_CONNECTION);
    PrefixMore(l, c, TRANSFER_ENCODING);
    PrefixMore(l, c, UPGRADE);
    assert l <= PROXY_CONNECTION ==> l[0] == 'p';
    assert l <= TRANSFER_ENCODING ==> l[0] == 't';
    assert l <= UPGRADE ==> l[0] == 'u';
    assert (l + [c])[0] != 'c';
  }

  lemma NextLetter(l: Bytes, c: Byte)
    requires l != [] && c != NUL && c != ' '
    ensures FieldMatch(NameState(l), |l| - 1, c) == NameState(l + [c])
  {
    if l[0] == 'c' { NextLetterC(l, c); } else { NextLetterNotC(l, c); }
  }

  /** What reading a name does to the parser. */
  predicate NameRead(p: Parser, q: Parser, name: Bytes) {
    && q == p.(state := HeaderField, headerState := NameState(LowerAll(name)), index := q.index)
    && (FieldCounts(q.headerState) ==> q.index == |name| - 1)
  }

  lemma FieldStartStep(f: Machine, cb: HeadersCallback, p: Parser, c: Byte)
    requires IsHttp(f, cb) && p.state == HeaderFieldStart && Token(c) != NUL
    ensures f(p, c) == Next(p.(index := 0, state := HeaderField, headerState := FirstFieldState(Token(c))), [Data(Field, [c])])
  {
    hide StepRequestLine, StepBody, StepStatusLine, StepStart, OnHeadersAlmostDone;
    assert f(p, c) == Step(p, c, cb);
  }

  lemma FieldCharStep(f: Machine, cb: HeadersCallback, p: Parser, c: Byte)
    requires IsHttp(f, cb) && p.state == HeaderField
    ensures f(p, c) == OnField(p, c)
  {
    hide StepRequestLine, StepBody, StepStatusLine, StepStart, OnField;
    assert f(p, c) == Step(p, c, cb);
  }

  lemma LowerMore(x: Bytes, c: Byte)
    ensures LowerAll(x + [c]) == LowerAll(x) + [Token(c)]
  {
    hide Token;
  }

  lemma FirstNameStep(f: Machine, cb: HeadersCallback, p: Parser, c: Byte)
    requires IsHttp(f, cb) && p.state == HeaderFieldStart && Token(c) != NUL
    ensures f(p, c).Next? && f(p, c).es == [Data(Field, [c])] && NameRead(p, f(p, c).p, [c])
  {
    hide IsHttp, NameState, Token;
    FieldStartStep(f, cb, p, c);
    LowerMore([], c);
    assert [] + [c] == [c] && LowerAll([]) + [Token(c)] == [Token(c)];
    FirstLetter(Token(c));
  }

  lemma NextNameStep(f: Machine, cb: HeadersCallback, p: Parser, q: Parser, x: Bytes, c: Byte)
    requires IsHttp(f, cb) && x != [] && Token(c) != NUL && NameRead(p, q, x)
    ensures f(q, c).Next? && f(q, c).es == [Data(Field, [c])] && NameRead(p, f(q, c).p, x + [c])
  {
    hide IsHttp, NameState, Token, LowerAll, FieldMatch, FieldCounts;
    FieldCharStep(f, cb, q, c);
    LowerMore(x, c);
    TokenIs(c);
    LowerLength(x);
    NextLetter(LowerAll(x), Token(c));
    NextIndex(q, |x| - 1, Token(c));
  }

  lemma LowerLength(x: Bytes)
    ensures |LowerAll(x)| == |x|
  {
  }

  lemma TokenIs(c: Byte)
    ensures Token(c) != ' '
  {
  }

  /** Every name is delivered whole, and the matcher ends where a comparison with the known names would. */
  lemma {:induction false} NameRecognised(f: Machine, cb: HeadersCallback, p: Parser, out: seq<Event>, name: Bytes)
    requires IsHttp(f, cb) && p.state == HeaderFieldStart && IsName(name)
    ensures var r := Run(f, p, out, name);
            r.Running? && NameRead(p, r.p, name) && r.out == Push(out, Data(Field, name))
  {
    hide IsHttp, Push, PushAll, NameRead, Run, Token;
    var x, c := name[..|name| - 1], name[|name| - 1];
    assert name == x + [c];
    RunLast(f, p, out, x, c);
    if x == [] {
      assert name == [c];
      RunNothing(f, p, out);
      FirstNameStep(f, cb, p, c);
      PushOne(out, Data(Field, [c]));
    } else {
      assert forall i :: 0 <= i < |x| ==> x[i] == name[i];
      NameRecognised(f, cb, p, out, x);
      var r := Run(f, p, out, x);
      NextNameStep(f, cb, p, r.p, x, c);
      PushOne(r.out, Data(Field, [c]));
      PushMerge(out, Field, x, [c]);
    }
  }

  /** The index matters only while a word is being matched. */
  lemma NextIndex(p: Parser, n: nat, c: Byte)
    requires FieldCounts(p.headerState) ==> p.index == n
    ensures FieldMatch(p.headerState, p.index, c) == FieldMatch(p.headerState, n, c)
    ensures FieldCounts(FieldMatch(p.headerState, n, c)) ==> FieldCounts(p.headerState)
  {
  }

  // ----- values: "chunked" and the connection options -----

  /** Reference: the state after a value v whose first word (up to trailing spaces) is to be compared with word. */
  function WordState(word: Bytes, v: Bytes, matching: HeaderState, found: HeaderState, lost: HeaderState): HeaderState {
    if IsWord(word, v) then found
    else if |v| < |word| && Same(v, word[..|v|]) then matching
    else lost
  }

  /** v, lower-cased, is the word followed by spaces only. */
  predicate IsWord(word: Bytes, v: Bytes) {
    |v| >= |word| && Same(v[..|word|], word) && forall i :: |word| <= i < |v| ==> v[i] == ' '
  }

  predicate Same(v: Bytes, word: Bytes) {
    |v| == |word| && forall i :: 0 <= i < |v| ==> Lower(v[i]) == word[i]
  }

  const CHUNKED: Bytes := "chunked"
  const KEEP_ALIVE: Bytes := "keep-alive"
  const CLOSE: Bytes := "close"

  /** Reference: the header state after a whole value, for the two headers whose value is looked at word by word. */
  function ValueWordState(h: HeaderState, v: Bytes): HeaderState
    requires v != []
  {
    if h == HTransferEncoding then WordState(CHUNKED, v, MatchingChunked, HChunked, General)
    else if Lower(v[0]) == 'k' then WordState(KEEP_ALIVE, v, MatchingKeepAlive, HKeepAlive, MatchingToken)
    else if Lower(v[0]) == 'c' then WordState(CLOSE, v, MatchingClose, HClose, MatchingToken)
    else if Lower(v[0]) == 'u' then WordState(UPGRADE, v, MatchingConnUpgrade, HConnUpgrade, MatchingToken)
    else MatchingToken
  }

  /** One more character, for a word matcher that has read v so far. */
  function NextWord(word: Bytes, v: Bytes, c: Byte, matching: HeaderState, found: HeaderState, lost: HeaderState): HeaderState
    requires v != []
  {
    var h := WordState(word, v, matching, found, lost);
    if h == found then (if c == ' ' then found else lost)
    else if h == matching then MatchWord(word, |v| - 1, Lower(c), matching, found, lost)
    else lost
  }

  lemma LongWord(word: Bytes, v: Bytes, c: Byte)
    requires |v| >= |word|
    ensures IsWord(word, v + [c]) <==> IsWord(word, v) && c == ' '
  {
    hide Same;
    var w := v + [c];
    assert w[..|word|] == v[..|word|];
    assert w[|v|] == c && forall i :: |word| <= i < |v| ==> w[i] == v[i];
  }

  lemma SameMore(word: Bytes, v: Bytes, c: Byte)
    requires |v| < |word|
    ensures Same(v + [c], word[..|v| + 1]) <==> Same(v, word[..|v|]) && Lower(c) == word[|v|]
  {
    hide Lower;
    var w, n := v + [c], |v|;
    assert w[n] == c && forall i :: 0 <= i < n ==> w[i] == v[i];
    if Same(w, word[..n + 1]) {
      assert forall i :: 0 <= i < n ==> Lower(v[i]) == word[..n + 1][i];
      assert Lower(w[n]) == word[..n + 1][n];
    }
  }

  lemma ShortWord(word: Bytes, v: Bytes)
    ensures |v| < |word| ==> !IsWord(word, v)
    ensures |v| == |word| ==> (IsWord(word, v) <==> Same(v, word[..|v|]))
  {
    hide Same;
    if |v| == |word| {
      assert v[..|word|] == v && word[..|v|] == word;
    }
  }

  lemma NextWordState(word: Bytes, v: Bytes, c: Byte, matching: HeaderState, found: HeaderState, lost: HeaderState)
    requires v != [] && |word| > 1 && (forall i :: 0 <= i < |word| ==> word[i] != NUL)
    requires matching != found && found != lost && lost != matching
    ensures NextWord(word, v, c, matching, found, lost) == WordState(word, v + [c], matching, found, lost)
    ensures var h := WordState(word, v, matching, found, lost); h == matching || h == found || h == lost
  {
    hide IsWord, Same, Lower;
    if |v| >= |word| {
      LongWord(word, v, c);
    } else {
      ShortWord(word, v);
      ShortWord(word, v + [c]);
      SameMore(word, v, c);
    }
  }

  lemma ValueStartStep(f: Machine, cb: HeadersCallback, p: Parser, c: Byte)
    requires IsHttp(f, cb) && p.state == HeaderValueDiscardWs && c != ' ' && c != '\t' && c != CR && c != LF
    ensures f(p, c) == OnValueStart(p, c)
  {
    hide StepRequestLine, StepBody, StepStatusLine, StepStart, OnValueStart;
    assert f(p, c) == Step(p, c, cb);
  }

  lemma ValueCharStep(f: Machine, cb: HeadersCallback, p: Parser, c: Byte)
    requires IsHttp(f, cb) && p.state == HeaderValue && c != CR && c != LF
    ensures f(p, c) == match ValueChar(p, c) {
                         case None => Fail(InvalidContentLength)
                         case Some(q) => Next(q, [Data(Value, [c])])
                       }
  {
    hide StepRequestLine, StepBody, StepStatusLine, StepStart, ValueChar;
    assert f(p, c) == Step(p, c, cb);
  }

  /** A header value as the parser takes it: not empty, no leading white space, one line. */
  predicate IsValue(v: Bytes) {
    v != [] && v[0] != ' ' && v[0] != '\t' && forall i :: 0 <= i < |v| ==> v[i] != CR && v[i] != LF
  }

  predicate Matching(h: HeaderState) {
    h == MatchingChunked || h == MatchingKeepAlive || h == MatchingClose || h == MatchingConnUpgrade
  }

  lemma NextValueWord(h: HeaderState, v: Bytes, p: Parser, c: Byte)
    requires h == HTransferEncoding || h == HConnection
    requires v != [] && c != ',' && p.headerState == ValueWordState(h, v) && (Matching(p.headerState) ==> p.index == |v| - 1)
    ensures ValueChar(p, c).Some?
    ensures var q := ValueChar(p, c).value;
            && q == p.(headerState := ValueWordState(h, v + [c]), index := q.index)
            && (Matching(q.headerState) ==> q.index == |v|)
  {
    hide WordState, Lower, At;
    assert (v + [c])[0] == v[0];
    if h == HTransferEncoding {
      NextWordState(CHUNKED, v, c, MatchingChunked, HChunked, General);
    } else if Lower(v[0]) == 'k' {
      NextWordState(KEEP_ALIVE, v, c, MatchingKeepAlive, HKeepAlive, MatchingToken);
    } else if Lower(v[0]) == 'c' {
      NextWordState(CLOSE, v, c, MatchingClose, HClose, MatchingToken);
    } else if Lower(v[0]) == 'u' {
      NextWordState(UPGRADE, v, c, MatchingConnUpgrade, HConnUpgrade, MatchingToken);
    }
  }

  /** What reading a value does to the parser. */
  predicate ValueRead(p: Parser, q: Parser, v: Bytes)
    requires v != []
  {
    && q == p.(state := HeaderValue, headerState := ValueWordState(p.headerState, v), index := q.index)
    && (Matching(q.headerState) ==> q.index == |v| - 1)
  }

  predicate Commaless(v: Bytes) { forall i :: 0 <= i < |v| ==> v[i] != ',' }

  predicate WordByWord(h: HeaderState, v: Bytes) {
    h == HTransferEncoding || (h == HConnection && Commaless(v))
  }

  lemma FirstValueStep(f: Machine, cb: HeadersCallback, p: Parser, c: Byte)
    requires IsHttp(f, cb) && p.state == HeaderValueDiscardWs && IsValue([c]) && WordByWord(p.headerState, [c])
    ensures f(p, c).Next? && f(p, c).es == [Data(Value, [c])] && ValueRead(p, f(p, c).p, [c])
  {
    hide IsHttp, ValueWordState, ValueStart;
    assert [c][0] == c;
    ValueStartStep(f, cb, p, c);
    FirstWord(p.headerState, p, c);
  }

  lemma NextValueStep(f: Machine, cb: HeadersCallback, p: Parser, q: Parser, x: Bytes, c: Byte)
    requires IsHttp(f, cb) && x != [] && c != CR && c != LF && WordByWord(p.headerState, x + [c])
    requires ValueRead(p, q, x)
    ensures f(q, c).Next? && f(q, c).es == [Data(Value, [c])] && ValueRead(p, f(q, c).p, x + [c])
  {
    hide IsHttp, ValueWordState, ValueChar;
    ValueCharStep(f, cb, q, c);
    assert (x + [c])[|x|] == c;
    if c == ',' {
      NextValueComma(x, q);
    } else {
      NextValueWord(p.headerState, x, q, c);
    }
  }

  /** A Transfer-Encoding value sets up F_CHUNKED exactly when it is "chunked", and a Connection value without
      commas is taken for an option exactly when it is that option, in any letter case, trailing spaces allowed. */
  lemma {:induction false} ValueRecognised(f: Machine, cb: HeadersCallback, p: Parser, out: seq<Event>, v: Bytes)
    requires IsHttp(f, cb) && p.state == HeaderValueDiscardWs && IsValue(v) && WordByWord(p.headerState, v)
    ensures var r := Run(f, p, out, v);
            r.Running? && r.out == Push(out, Data(Value, v)) && ValueRead(p, r.p, v)
  {
    hide IsHttp, Push, PushAll, ValueRead, Run;
    var x, c := v[..|v| - 1], v[|v| - 1];
    assert v == x + [c];
    RunLast(f, p, out, x, c);
    if x == [] {
      assert v == [c];
      assert Run(f, p, out, x) == Running(p, out) by { RunNothing(f, p, out); }
      FirstValueStep(f, cb, p, c);
      PushOne(out, Data(Value, [c]));
    } else {
      assert forall i :: 0 <= i < |x| ==> x[i] == v[i];
      ValueRecognised(f, cb, p, out, x);
      var r := Run(f, p, out, x);
      NextValueStep(f, cb, p, r.p, x, c);
      PushOne(r.out, Data(Value, [c]));
      PushMerge(out, Value, x, [c]);
    }
  }

  lemma RunNothing(f: Machine, p: Parser, out: seq<Event>)
    ensures Run(f, p, out, []) == Running(p, out)
  {
  }

  lemma NextValueComma(v: Bytes, p: Parser)
    requires v != [] && p.headerState == ValueWordState(HTransferEncoding, v) && (Matching(p.headerState) ==> p.index == |v| - 1)
    ensures ValueChar(p, ',') == Some(p.(headerState := ValueWordState(HTransferEncoding, v + [',']), index := ValueChar(p, ',').value.index))
    ensures !Matching(ValueWordState(HTransferEncoding, v + [',']))
  {
    NextWordState(CHUNKED, v, ',', MatchingChunked, HChunked, General);
    var w := v + [','];
    assert w[|v|] == ',';
  }

  lemma FirstWord(h: HeaderState, p: Parser, c: Byte)
    requires p.headerState == h && (h == HTransferEncoding || h == HConnection)
    ensures ValueStart(p, c) == Some(p.(state := HeaderValue, index := 0, headerState := ValueWordState(h, [c])))
  {
    assert forall w: Bytes :: |w| > 1 ==> !IsWord(w, [c]);
    assert forall w: Bytes :: |w| > 1 ==> (Same([c], w[..1]) <==> Lower(c) == w[0]);
  }
}
