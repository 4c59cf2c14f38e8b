/** The Connection header: a comma-separated list of options, of which three matter. */
module HttpConnection {
  import opened Wrappers
  import opened HttpTypes
  import opened Streaming
  import opened HttpStep
  import opened HttpRun
  import opened HttpHeaders

  // ----- reference: which words are looked at -----

  /** The pieces of v between commas. */
  function Words(v: Bytes): (ws: seq<Bytes>)
    ensures ws != []
  {
    if v == [] then [[]]
    else
      var ws, c := Words(v[..|v| - 1]), v[|v| - 1];
      if c == ',' then ws + [[]] else ws[..|ws| - 1] + [ws[|ws| - 1] + [c]]
  }

  /** A space; lower-casing makes a NUL one too. */
  predicate Blank(c: Byte) { Lower(c) == ' ' }

  function Trim(w: Bytes): Bytes { if w != [] && Blank(w[0]) then Trim(w[1..]) else w }

  /** A word that stops half way through one of the three options: the parser takes the comma after it for
      one more letter. */
  predicate Unfinished(t: Bytes) { t != [] && Matching(ValueWordState(HConnection, t)) }

  /** How the word after the words of `front` is read: from its beginning, as more of the word before it, or not at all. */
  datatype Look = Fresh | Merged | Over

  function LookAt(front: seq<Bytes>): Look {
    if front == [] then Fresh
    else
      var before, w := front[..|front| - 1], front[|front| - 1];
      match LookAt(before)
      case Over => Over
      case Merged => Fresh
      case Fresh =>
        if before == [] then (if w == [] || Unfinished(w) then Merged else Fresh)
        else if BadStart(Trim(w)) then Over
        else if Unfinished(Trim(w)) then Merged
        else Fresh
  }

  /** From the second word on, a word without a token character at its start ends the list. */
  predicate BadStart(t: Bytes) { t == [] || Token(Lower(t[0])) == NUL }

  /** A word as the matcher gets it: the blanks in front of the first one went with those in front of the value. */
  function Started(front: seq<Bytes>, w: Bytes): Bytes { if front == [] then w else Trim(w) }

  /** The words that are looked at. */
  function Seen(ws: seq<Bytes>): seq<Bytes> {
    if ws == [] then []
    else
      var front, w := ws[..|ws| - 1], ws[|ws| - 1];
      Seen(front) + (if LookAt(front) == Fresh then [Started(front, w)] else [])
  }

  /** The flags once the word w has been seen. */
  function WithOption(f: Flags, w: Bytes): Flags {
    if IsWord(KEEP_ALIVE, w) then f.(keepAlive := true)
    else if IsWord(CLOSE, w) then f.(close := true)
    else if IsWord(UPGRADE, w) then f.(connUpgrade := true)
    else f
  }

  function WithOptions(f: Flags, ws: seq<Bytes>): Flags {
    if ws == [] then f else WithOption(WithOptions(f, ws[..|ws| - 1]), ws[|ws| - 1])
  }

  // ----- the matcher -----

  /** The matcher inside the word w after the words of front. */
  function OptionState(front: seq<Bytes>, w: Bytes): HeaderState {
    match LookAt(front)
    case Over => General
    case Merged => MatchingToken
    case Fresh =>
      var t := Started(front, w);
      if t == [] then MatchingTokenStart
      else if front != [] && BadStart(t) then General
      else ValueWordState(HConnection, t)
  }

  predicate IndexFits(q: Parser, front: seq<Bytes>, w: Bytes) {
    && (Matching(q.headerState) ==> q.index == |Started(front, w)| - 1)
    && (q.headerState == MatchingTokenStart ==> q.index == 0)
  }

  /** What reading v so far has done: all words but the last have taken effect, the last is being matched. */
  predicate OptionsRead(p: Parser, q: Parser, v: Bytes) {
    var ws := Words(v);
    var front, last := ws[..|ws| - 1], ws[|ws| - 1];
    && q == p.(state := HeaderValue, flags := WithOptions(p.flags, Seen(front)), headerState := OptionState(front, last), index := q.index)
    && IndexFits(q, front, last)
  }

  lemma {:induction false} TrimMore(w: Bytes, c: Byte)
    ensures Trim(w + [c]) == if Trim(w) == [] && Blank(c) then [] else Trim(w) + [c]
  {
    if w == [] {
      assert w + [c] == [c] && [c][1..] == [];
      assert Trim([c]) == if Blank(c) then [] else [c];
    } else {
      assert (w + [c])[1..] == w[1..] + [c];
      if Blank(w[0]) { TrimMore(w[1..], c); }
    }
  }

  lemma WordsMore(v: Bytes, c: Byte)
    ensures var ws := Words(v);
            Words(v + [c]) == if c == ',' then ws + [[]] else ws[..|ws| - 1] + [ws[|ws| - 1] + [c]]
  {
    assert (v + [c])[..|v|] == v;
  }

  /** The three options start with different letters, so the matcher tells them apart by the first one. */
  lemma FlagOfWord(f: Flags, t: Bytes)
    requires t != []
    ensures FlagFor(f, ValueWordState(HConnection, t)) == FinalFlagFor(f, ValueWordState(HConnection, t)) == WithOption(f, t)
  {
    assert IsWord(KEEP_ALIVE, t) ==> Lower(t[0]) == 'k' by { assert |t| >= 10 ==> t[..10][0] == t[0]; }
    assert IsWord(CLOSE, t) ==> Lower(t[0]) == 'c' by { assert |t| >= 5 ==> t[..5][0] == t[0]; }
    assert IsWord(UPGRADE, t) ==> Lower(t[0]) == 'u' by { assert |t| >= 7 ==> t[..7][0] == t[0]; }
  }

  /** Nothing that is not one of the three, in full, sets a flag. */
  lemma NoFlag(f: Flags, t: Bytes)
    requires BadStart(t) || Unfinished(t)
    ensures WithOption(f, t) == f
  {
    if t != [] {
      FlagOfWord(f, t);
      assert Lower('k') == 'k' && Lower('c') == 'c' && Lower('u') == 'u';
    }
  }

  lemma FirstOption(f: Machine, cb: HeadersCallback, p: Parser, c: Byte)
    requires IsHttp(f, cb) && p.state == HeaderValueDiscardWs && p.headerState == HConnection && IsValue([c])
    ensures f(p, c).Next? && f(p, c).es == [Data(Value, [c])] && OptionsRead(p, f(p, c).p, [c])
  {
    hide IsHttp, ValueStart, ValueWordState, OptionsRead;
    assert [c][0] == c;
    ValueStartStep(f, cb, p, c);
    FirstWord(p.headerState, p, c);
    FirstRead(p, c);
  }

  lemma FirstRead(p: Parser, c: Byte)
    ensures OptionsRead(p, p.(state := HeaderValue, index := 0, headerState := ValueWordState(HConnection, [c])), [c])
  {
    hide Unfinished, Trim, BadStart, WithOption, Words, OptionState, IndexFits;
    FirstState(p, c);
    assert Words([c]) == if c == ',' then [[], []] else [[c]] by { WordsOfOne(c); }
    if c == ',' {
      assert Words([c])[..1] == [[]];
      SeenEmpty(p.flags);
    } else {
      assert Words([c])[..0] == [];
    }
  }

  lemma FirstState(p: Parser, c: Byte)
    ensures var q := p.(state := HeaderValue, index := 0, headerState := ValueWordState(HConnection, [c]));
            if c == ',' then q.headerState == OptionState([[]], []) && IndexFits(q, [[]], [])
            else q.headerState == OptionState([], [c]) && IndexFits(q, [], [c])
  {
    hide Unfinished, Trim, BadStart;
    NotTokenStart([c]);
    SeenEmpty(p.flags);
  }

  lemma WordsOfOne(c: Byte)
    ensures Words([c]) == if c == ',' then [[], []] else [[c]]
  {
    WordsMore([], c);
    assert [] + [c] == [c];
  }

  lemma SeenEmpty(f: Flags)
    ensures WithOptions(f, Seen([[]])) == f && LookAt([[]]) == Merged
  {
    var ws: seq<Bytes> := [[]];
    assert ws[..0] == [] && Seen(ws) == [[]] && Seen(ws)[..0] == [];
    NoFlag(f, []);
  }

  /** The character that starts a word. */
  lemma TokenStart(p: Parser, c: Byte)
    requires p.headerState == MatchingTokenStart && p.index == 0
    ensures ValueChar(p, c) == Some(p.(headerState := if Blank(c) then MatchingTokenStart
                                                      else if BadStart([c]) then General
                                                      else ValueWordState(HConnection, [c])))
    ensures Matching(ValueWordState(HConnection, [c])) ==> p.index == |[c]| - 1
  {
    FirstWord(HConnection, p.(headerState := HConnection), c);
  }

  lemma TrimNone()
    ensures Trim([]) == []
  {
  }

  /** One more character of the word w. */
  lemma WordChar(q: Parser, front: seq<Bytes>, w: Bytes, c: Byte)
    requires c != ',' && (front != [] || w != []) && q.headerState == OptionState(front, w) && IndexFits(q, front, w)
    ensures ValueChar(q, c).Some?
    ensures var r := ValueChar(q, c).value;
            r == q.(headerState := OptionState(front, w + [c]), index := r.index) && IndexFits(r, front, w + [c])
  {
    hide ValueWordState, ValueChar, Trim, BadStart;
    match LookAt(front) {
      case Fresh =>
        TrimMore(w, c);
        var t := Started(front, w);
        if t == [] {
          TokenStart(q, c);
          assert [] + [c] == [c];
        } else if front != [] && BadStart(t) {
          BadStartStays(t, c);
          Ignored(q, c);
        } else {
          if front != [] { BadStartStays(t, c); }
          NextValueWord(HConnection, t, q, c);
          NotTokenStart(t + [c]);
        }
      case _ => Ignored(q, c);
    }
  }

  lemma BadStartStays(t: Bytes, c: Byte)
    requires t != []
    ensures BadStart(t + [c]) <==> BadStart(t)
  {
  }

  lemma Ignored(q: Parser, c: Byte)
    ensures q.headerState == General || (q.headerState == MatchingToken && c != ',') ==> ValueChar(q, c) == Some(q)
  {
  }

  lemma NotTokenStart(t: Bytes)
    requires t != []
    ensures ValueWordState(HConnection, t) != MatchingTokenStart && ValueWordState(HConnection, t) != General
  {
  }

  /** The comma after a word that is matched: it ends the word, or is taken for a letter of it. */
  lemma CommaChar(q: Parser, t: Bytes)
    requires t != [] && q.headerState == ValueWordState(HConnection, t) && (Matching(q.headerState) ==> q.index == |t| - 1)
    ensures Unfinished(t) ==> ValueChar(q, ',') == Some(q.(headerState := MatchingToken, index := q.index + 1))
    ensures !Unfinished(t) ==>
              ValueChar(q, ',') == Some(q.(flags := WithOption(q.flags, t), headerState := MatchingTokenStart, index := 0))
  {
    hide WithOption, IsWord, Same;
    FlagOfWord(q.flags, t);
  }

  lemma WordComma(q: Parser, front: seq<Bytes>, w: Bytes)
    requires (front != [] || w != []) && q.headerState == OptionState(front, w) && IndexFits(q, front, w)
    ensures ValueChar(q, ',').Some?
    ensures var r := ValueChar(q, ',').value;
            && r == q.(flags := if LookAt(front) == Fresh then WithOption(q.flags, Started(front, w)) else q.flags,
                       headerState := OptionState(front + [w], []), index := r.index)
            && IndexFits(r, front + [w], [])
  {
    hide ValueWordState, ValueChar, Trim, WithOption, Unfinished, BadStart;
    TrimNone();
    assert (front + [w])[..|front|] == front;
    var t := Started(front, w);
    match LookAt(front) {
      case Over => Ignored(q, ',');
      case Merged => TokenEnds(q);
      case Fresh =>
        if front != [] && BadStart(t) {
          NoFlag(q.flags, t);
          if t == [] { CommaStart(q); } else { Ignored(q, ','); }
        } else {
          BadNothing(t);
          CommaChar(q, t);
          if Unfinished(t) { NoFlag(q.flags, t); }
        }
    }
  }

  lemma TokenEnds(q: Parser)
    requires q.headerState == MatchingToken
    ensures ValueChar(q, ',') == Some(q.(headerState := MatchingTokenStart, index := 0))
  {
  }

  lemma CommaStart(q: Parser)
    requires q.headerState == MatchingTokenStart
    ensures ValueChar(q, ',') == Some(q.(headerState := General))
  {
  }

  lemma SeenMore(f: Flags, front: seq<Bytes>, w: Bytes)
    ensures var fs := WithOptions(f, Seen(front));
            WithOptions(f, Seen(front + [w])) == if LookAt(front) == Fresh then WithOption(fs, Started(front, w)) else fs
  {
    hide WithOption, LookAt, Started;
    var ws := front + [w];
    assert ws[..|ws| - 1] == front;
    if LookAt(front) == Fresh {
      var seen := Seen(ws);
      assert seen[..|seen| - 1] == Seen(front);
    } else {
      assert Seen(front) + [] == Seen(front);
    }
  }

  lemma NextOption(f: Machine, cb: HeadersCallback, p: Parser, q: Parser, x: Bytes, c: Byte)
    requires IsHttp(f, cb) && x != [] && c != CR && c != LF
    requires OptionsRead(p, q, x)
    ensures f(q, c).Next? && f(q, c).es == [Data(Value, [c])] && OptionsRead(p, f(q, c).p, x + [c])
  {
    hide IsHttp, OptionState, ValueChar, Words, IndexFits, LookAt, Started, WithOption, WithOptions, Seen;
    ValueCharStep(f, cb, q, c);
    var ws, vs := Words(x), Words(x + [c]);
    var front, w := ws[..|ws| - 1], ws[|ws| - 1];
    WordsMore(x, c);
    WordsSome(x);
    if c == ',' {
      assert vs[..|vs| - 1] == ws == front + [w];
      SeenMore(p.flags, front, w);
      WordComma(q, front, w);
    } else {
      assert vs[..|vs| - 1] == front && vs[|vs| - 1] == w + [c];
      WordChar(q, front, w, c);
    }
  }

  lemma WordsSome(x: Bytes)
    requires x != []
    ensures var ws := Words(x); ws[..|ws| - 1] != [] || ws[|ws| - 1] != []
  {
  }

  /** Whatever the list: exactly the options among the words that are looked at set their flags. */
  lemma {:induction false} OptionsRecognised(f: Machine, cb: HeadersCallback, p: Parser, out: seq<Event>, v: Bytes)
    requires IsHttp(f, cb) && p.state == HeaderValueDiscardWs && p.headerState == HConnection && IsValue(v)
    ensures var r := Run(f, p, out, v);
            r.Running? && r.out == Push(out, Data(Value, v)) && OptionsRead(p, r.p, v)
  {
    hide IsHttp, Push, PushAll, OptionsRead, Run;
    var x, c := v[..|v| - 1], v[|v| - 1];
    assert v == x + [c];
    RunLast(f, p, out, x, c);
    if x == [] {
      assert v == [c];
      RunByte(f, p, out, c);
      FirstOption(f, cb, p, c);
      PushOne(out, Data(Value, [c]));
    } else {
      assert forall i :: 0 <= i < |x| ==> x[i] == v[i];
      OptionsRecognised(f, cb, p, out, x);
      var r := Run(f, p, out, x);
      NextOption(f, cb, p, r.p, x, c);
      PushOne(r.out, Data(Value, [c]));
      PushMerge(out, Value, x, [c]);
    }
  }

  /** The flags at the end of the line. */
  lemma FinalOptions(p: Parser, q: Parser, v: Bytes)
    requires OptionsRead(p, q, v) && v != []
    ensures FinalFlagFor(q.flags, q.headerState) == WithOptions(p.flags, Seen(Words(v)))
  {
    hide Words, LookAt, Trim, WithOption, WithOptions, Seen, ValueWordState, BadStart, Unfinished;
    var ws := Words(v);
    var front, w := ws[..|ws| - 1], ws[|ws| - 1];
    assert ws == front + [w];
    SeenMore(p.flags, front, w);
    if LookAt(front) == Fresh {
      var t := Started(front, w);
      BadNothing(t);
      if t == [] || (front != [] && BadStart(t)) { NoFlag(q.flags, t); } else { FlagOfWord(q.flags, t); }
    }
  }

  lemma BadNothing(t: Bytes)
    ensures t == [] ==> BadStart(t)
  {
  }

  // ----- against the list as section 7 of RFC 7230 reads it -----

  predicate IsSpace(c: Byte) { c == ' ' || c == '\t' }

  function StripFront(w: Bytes): Bytes { if w != [] && IsSpace(w[0]) then StripFront(w[1..]) else w }

  function StripEnd(w: Bytes): Bytes { if w != [] && IsSpace(w[|w| - 1]) then StripEnd(w[..|w| - 1]) else w }

  /** The list has the option: an element, without the white space around it and whatever its case, is the word. */
  predicate Lists(word: Bytes, v: Bytes) { exists i :: 0 <= i < |Words(v)| && Same(StripEnd(StripFront(Words(v)[i])), word) }

  /** The flags that the list asks for. */
  function WithListed(f: Flags, v: Bytes): Flags {
    f.(keepAlive := f.keepAlive || Lists(KEEP_ALIVE, v), close := f.close || Lists(CLOSE, v),
       connUpgrade := f.connUpgrade || Lists(UPGRADE, v))
  }

  /** Some word that is looked at is the option. */
  predicate Among(word: Bytes, ws: seq<Bytes>) { exists i :: 0 <= i < |ws| && IsWord(word, ws[i]) }

  /** No word is two of the options. */
  lemma OneOption(w: Bytes)
    ensures !(IsWord(KEEP_ALIVE, w) && IsWord(CLOSE, w)) && !(IsWord(KEEP_ALIVE, w) && IsWord(UPGRADE, w))
    ensures !(IsWord(CLOSE, w) && IsWord(UPGRADE, w))
  {
    assert IsWord(KEEP_ALIVE, w) ==> Lower(w[0]) == 'k' by { assert |w| >= 10 ==> w[..10][0] == w[0]; }
    assert IsWord(CLOSE, w) ==> Lower(w[0]) == 'c' by { assert |w| >= 5 ==> w[..5][0] == w[0]; }
    assert IsWord(UPGRADE, w) ==> Lower(w[0]) == 'u' by { assert |w| >= 7 ==> w[..7][0] == w[0]; }
  }

  lemma AmongMore(word: Bytes, ws: seq<Bytes>)
    requires ws != []
    ensures Among(word, ws) <==> Among(word, ws[..|ws| - 1]) || IsWord(word, ws[|ws| - 1])
  {
    hide IsWord;
    var front := ws[..|ws| - 1];
    if Among(word, ws) {
      var i :| 0 <= i < |ws| && IsWord(word, ws[i]);
      if i < |front| { assert front[i] == ws[i]; }
    }
    if Among(word, front) {
      var i :| 0 <= i < |front| && IsWord(word, front[i]);
      assert ws[i] == front[i];
    }
  }

  lemma {:induction false} FlagsOf(f: Flags, ws: seq<Bytes>)
    ensures WithOptions(f, ws) == f.(keepAlive := f.keepAlive || Among(KEEP_ALIVE, ws), close := f.close || Among(CLOSE, ws),
                                     connUpgrade := f.connUpgrade || Among(UPGRADE, ws))
  {
    hide IsWord;
    if ws != [] {
      hide Among;
      FlagsOf(f, ws[..|ws| - 1]);
      OneOption(ws[|ws| - 1]);
      AmongMore(KEEP_ALIVE, ws);
      AmongMore(CLOSE, ws);
      AmongMore(UPGRADE, ws);
    }
  }

  /** The option is read rightly: it is set already, or it is in the list exactly if a word that is looked at is it. */
  predicate ReadRight(already: bool, word: Bytes, v: Bytes) { already || (Lists(word, v) <==> Among(word, Seen(Words(v)))) }

  /** When the flags are those that the list asks for: exactly when each of the three options, if it is not set already
      and is in the list, is there in a word that is looked at, spaces alone around it (and is not seen where it is not). */
  lemma OptionsRight(f: Flags, v: Bytes)
    ensures WithOptions(f, Seen(Words(v))) == WithListed(f, v) <==>
            ReadRight(f.keepAlive, KEEP_ALIVE, v) && ReadRight(f.close, CLOSE, v) && ReadRight(f.connUpgrade, UPGRADE, v)
  {
    hide Lists, Among, Seen, Words;
    FlagsOf(f, Seen(Words(v)));
  }

  /** The words that are looked at are words of the list. */
  lemma {:induction false} SeenFrom(ws: seq<Bytes>, j: nat) returns (i: nat)
    requires j < |Seen(ws)|
    ensures i < |ws| && (Seen(ws)[j] == ws[i] || Seen(ws)[j] == Trim(ws[i]))
  {
    hide LookAt, Trim;
    var front := ws[..|ws| - 1];
    if j < |Seen(front)| {
      i := SeenFrom(front, j);
      assert front[i] == ws[i];
    } else {
      i := |front|;
    }
  }

  predicate NulFree(w: Bytes) { forall i :: 0 <= i < |w| ==> w[i] != NUL }

  lemma {:induction false} StripFrontTo(w: Bytes)
    requires NulFree(w) && Trim(w) != [] && !IsSpace(Trim(w)[0])
    ensures StripFront(w) == Trim(w)
  {
    BlankIs(w[0]);
    if w[0] == ' ' { StripFrontTo(w[1..]); }
  }

  lemma {:induction false} StripEndTo(word: Bytes, w: Bytes)
    requires IsWord(word, w) && word != [] && word[|word| - 1] != ' ' && word[|word| - 1] != Lower('\t')
    ensures Same(StripEnd(w), word)
    decreases |w|
  {
    if |w| > |word| {
      var x := w[..|w| - 1];
      assert x[..|word|] == w[..|word|];
      assert w[|w| - 1] == ' ';
      StripEndTo(word, x);
    } else {
      assert w[..|word|] == w && Lower(' ') == ' ';
      assert Lower(w[|w| - 1]) == word[|w| - 1];
    }
  }

  /** Nothing is read into a list without NULs: an option that is seen is in the list. */
  lemma NoFalseOption(word: Bytes, v: Bytes)
    requires word == KEEP_ALIVE || word == CLOSE || word == UPGRADE
    requires NulFree(v) && Among(word, Seen(Words(v)))
    ensures Lists(word, v)
  {
    hide Words, Seen, LookAt, Trim, StripEnd, StripFront, Same, IsWord;
    var ws := Words(v);
    var j :| 0 <= j < |Seen(ws)| && IsWord(word, Seen(ws)[j]);
    var i := SeenFrom(ws, j);
    WordsNulFree(v);
    LetterFirst(word, Seen(ws)[j]);
    StripEndTo(word, Seen(ws)[j]);
    if Seen(ws)[j] == ws[i] { NotBlank(ws[i]); }
    StripFrontTo(ws[i]);
  }

  /** The option is in the list, and no word that is looked at is it. */
  predicate Missed(already: bool, word: Bytes, v: Bytes) { !already && Lists(word, v) && !Among(word, Seen(Words(v))) }

  /** So such a list is read wrongly exactly if it has an option that is not set already and that stands only behind an
      unfinished word, behind one that does not start with a token character, or with a tab next to it. */
  lemma OptionsMissed(f: Flags, v: Bytes)
    requires NulFree(v)
    ensures WithOptions(f, Seen(Words(v))) != WithListed(f, v) <==>
            Missed(f.keepAlive, KEEP_ALIVE, v) || Missed(f.close, CLOSE, v) || Missed(f.connUpgrade, UPGRADE, v)
  {
    hide Lists, Among, Seen, Words;
    OptionsRight(f, v);
    forall word | (word == KEEP_ALIVE || word == CLOSE || word == UPGRADE) && Among(word, Seen(Words(v)))
      ensures Lists(word, v)
    {
      NoFalseOption(word, v);
    }
  }

  lemma LetterFirst(word: Bytes, w: Bytes)
    requires IsWord(word, w) && (word == KEEP_ALIVE || word == CLOSE || word == UPGRADE)
    ensures w != [] && !IsSpace(w[0]) && w[0] != NUL
  {
    assert w[..|word|][0] == w[0] && Lower(' ') == ' ' && Lower('\t') == ')' && Lower(NUL) == ' ';
  }

  lemma NotBlank(w: Bytes)
    requires w != [] && !IsSpace(w[0]) && w[0] != NUL
    ensures Trim(w) == w
  {
    BlankIs(w[0]);
  }

  lemma {:induction false} WordsNulFree(v: Bytes)
    requires NulFree(v)
    ensures forall i :: 0 <= i < |Words(v)| ==> NulFree(Words(v)[i])
  {
    if v != [] { WordsNulFree(v[..|v| - 1]); }
  }

  /** The lists of words that are complete and start with a token character, with spaces for white space. */
  predicate PlainList(v: Bytes) {
    var ws := Words(v);
    && (forall i :: 0 <= i < |v| ==> v[i] != '\t' && v[i] != NUL)
    && (forall i :: 0 <= i < |ws| - 1 ==> !BadStart(Trim(ws[i])) && !Unfinished(Trim(ws[i])))
  }

  predicate Clean(w: Bytes) { forall i :: 0 <= i < |w| ==> w[i] != '\t' && w[i] != NUL }

  lemma {:induction false} WordsClean(v: Bytes)
    requires Clean(v)
    ensures forall i :: 0 <= i < |Words(v)| ==> Clean(Words(v)[i])
  {
    if v != [] { WordsClean(v[..|v| - 1]); }
  }

  lemma {:induction false} StripFrontIs(w: Bytes)
    requires Clean(w)
    ensures StripFront(w) == Trim(w) && Clean(Trim(w))
  {
    if w != [] {
      BlankIs(w[0]);
      if w[0] == ' ' { StripFrontIs(w[1..]); }
    }
  }

  lemma BlankIs(c: Byte)
    requires c != NUL
    ensures Blank(c) <==> c == ' '
  {
  }

  /** A word with spaces after it. */
  lemma {:induction false} StripEndIs(word: Bytes, w: Bytes)
    requires Clean(w) && word != [] && word[|word| - 1] != ' '
    ensures Same(StripEnd(w), word) <==> IsWord(word, w)
    decreases |w|
  {
    if w != [] && w[|w| - 1] == ' ' {
      var x := w[..|w| - 1];
      StripEndIs(word, x);
      assert w == x + [' '];
      if |x| >= |word| { LongWord(word, x, ' '); } else { SpaceEnds(word, w); }
    } else {
      assert StripEnd(w) == w;
      SameIsWord(word, w);
    }
  }

  lemma SpaceEnds(word: Bytes, w: Bytes)
    requires word != [] && word[|word| - 1] != ' ' && w != [] && w[|w| - 1] == ' ' && |w| <= |word|
    ensures !IsWord(word, w)
  {
  }

  lemma SameIsWord(word: Bytes, w: Bytes)
    requires w == [] || w[|w| - 1] != ' '
    ensures word != [] ==> (Same(w, word) <==> IsWord(word, w))
  {
    assert w[..|w|] == w;
  }

  lemma {:induction false} AllFresh(ws: seq<Bytes>)
    requires forall i :: 0 <= i < |ws| ==> !BadStart(Trim(ws[i])) && !Unfinished(Trim(ws[i]))
    requires ws != [] ==> Trim(ws[0]) == ws[0]
    ensures LookAt(ws) == Fresh
  {
    hide BadStart, Unfinished;
    if ws != [] {
      var front := ws[..|ws| - 1];
      assert forall i :: 0 <= i < |front| ==> front[i] == ws[i];
      AllFresh(front);
      BadNothing(Trim(ws[|ws| - 1]));
    }
  }

  lemma {:induction false} SeenAll(ws: seq<Bytes>)
    requires forall i :: 0 <= i < |ws| - 1 ==> !BadStart(Trim(ws[i])) && !Unfinished(Trim(ws[i]))
    requires ws != [] ==> Trim(ws[0]) == ws[0]
    ensures |Seen(ws)| == |ws| && forall i :: 0 <= i < |ws| ==> Seen(ws)[i] == Trim(ws[i])
  {
    hide BadStart, Unfinished, Trim;
    if ws != [] {
      var front := ws[..|ws| - 1];
      assert forall i :: 0 <= i < |front| ==> front[i] == ws[i];
      AllFresh(front);
      SeenAll(front);
    }
  }

  lemma {:induction false} FirstOfWords(v: Bytes)
    requires v != []
    ensures v[0] == ',' ==> Words(v)[0] == []
    ensures v[0] != ',' ==> Words(v)[0] != [] && Words(v)[0][0] == v[0]
  {
    if |v| > 1 {
      FirstOfWords(v[..|v| - 1]);
    } else {
      assert v[..0] == [] && Words(v[..0]) == [[]];
    }
  }

  /** For these every option is read rightly. */
  lemma PlainListRight(f: Flags, v: Bytes)
    requires IsValue(v) && PlainList(v)
    ensures WithOptions(f, Seen(Words(v))) == WithListed(f, v)
  {
    hide Words, BadStart, Unfinished, IsWord, Same, Trim, Lists, Among, Seen, StripFront, StripEnd;
    var ws := Words(v);
    assert Clean(v);
    WordsClean(v);
    FirstOfWords(v);
    BlankIs(v[0]);
    NotTrimmed(ws[0]);
    SeenAll(ws);
    forall word | word == KEEP_ALIVE || word == CLOSE || word == UPGRADE
      ensures ReadRight(false, word, v)
    {
      AmongLists(word, v);
    }
    assert ReadRight(false, KEEP_ALIVE, v) && ReadRight(false, CLOSE, v) && ReadRight(false, UPGRADE, v);
    OptionsRight(f, v);
  }

  lemma NotTrimmed(w: Bytes)
    requires w == [] || !Blank(w[0])
    ensures Trim(w) == w
  {
  }

  lemma AmongLists(word: Bytes, v: Bytes)
    requires word == KEEP_ALIVE || word == CLOSE || word == UPGRADE
    requires var ws := Words(v);
             |Seen(ws)| == |ws| && forall i :: 0 <= i < |ws| ==> Seen(ws)[i] == Trim(ws[i]) && Clean(ws[i])
    ensures ReadRight(false, word, v)
  {
    hide Words, IsWord, Same, Trim, Seen, StripFront, StripEnd, Clean;
    var ws := Words(v);
    forall i | 0 <= i < |ws|
      ensures Same(StripEnd(StripFront(ws[i])), word) <==> IsWord(word, Seen(ws)[i])
    {
      StripFrontIs(ws[i]);
      StripEndIs(word, Trim(ws[i]));
    }
  }

  /** What is read wrongly: the word after an unfinished one, whatever it is, is not looked at; the one after it is. */
  lemma UnfinishedWordHides(front: seq<Bytes>, t: Bytes, hidden: Bytes)
    requires LookAt(front) == Fresh && Unfinished(Started(front, t))
    ensures Seen(front + [t] + [hidden]) == Seen(front) + [Started(front, t)] && LookAt(front + [t] + [hidden]) == Fresh
    ensures Unfinished("clos")
  {
    UnfinishedStarts(Started(front, t));
    hide Unfinished, BadStart, Trim;
    assert (front + [t] + [hidden])[..|front| + 1] == front + [t] && (front + [t])[..|front|] == front;
    assert LookAt(front + [t]) == Merged;
    assert Seen(front + [t]) == Seen(front) + [Started(front, t)];
    assert Seen(front + [t]) + [] == Seen(front + [t]);
    assert Unfinished("clos") by { ClosUnfinished(); }
  }

  lemma UnfinishedStarts(t: Bytes)
    requires Unfinished(t)
    ensures !BadStart(t)
  {
    assert Lower('k') == 'k' && Lower('c') == 'c' && Lower('u') == 'u';
  }

  lemma ClosUnfinished()
    ensures Unfinished("clos")
  {
    var c: Bytes := "clos";
    assert Same(c, CLOSE[..4]);
    assert !IsWord(CLOSE, c) by { NotYet(CLOSE, c); }
  }

  /** ... and neither is any word after one that does not start with a token character. */
  lemma {:induction false} BadStartHides(front: seq<Bytes>, bad: Bytes, hidden: seq<Bytes>)
    requires front != [] && LookAt(front) == Fresh && BadStart(Trim(bad))
    ensures Seen(front + [bad] + hidden) == Seen(front) + [Trim(bad)] && LookAt(front + [bad] + hidden) == Over
    ensures BadStart([]) && BadStart("\t")
  {
    hide BadStart, Unfinished;
    var ws := front + [bad] + hidden;
    if hidden == [] {
      assert ws[..|ws| - 1] == front;
      assert BadStart([]) && BadStart("\t") by { BadStarts(); }
    } else {
      assert ws[..|ws| - 1] == front + [bad] + hidden[..|hidden| - 1];
      BadStartHides(front, bad, hidden[..|hidden| - 1]);
      assert Seen(front) + [Trim(bad)] + [] == Seen(front) + [Trim(bad)];
    }
  }

  lemma BadStarts()
    ensures BadStart([]) && BadStart("\t")
  {
  }

  lemma NotYet(word: Bytes, t: Bytes)
    requires |t| < |word|
    ensures !IsWord(word, t)
  {
  }
}
