/** The request line: method, target, version. */
module HttpRequestLine {
  import opened Wrappers
  import opened HttpTypes
  import opened Streaming
  import opened HttpStep
  import opened HttpRun
  import opened HttpHeaders
  import opened HttpFraming
  import opened HttpNumbers

  lemma RequestStep(f: Machine, cb: HeadersCallback, p: Parser, c: Byte)
    requires IsHttp(f, cb) && InRequestLine(p.state)
    ensures f(p, c) == StepRequestLine(p, c)
  {
    hide StepBody, StepRequestLine, StepHeader, StepStatusLine, StepStart;
    assert f(p, c) == Step(p, c, cb);
  }

  // ----- method -----

  /** The method being tried once the first k letters of m have been read: methods that share a beginning are
      tried as the first of them until they part. */
  function Tried(m: Method, k: nat): Method {
    match m
    case CHECKOUT => if k < 2 then CONNECT else m
    case COPY => if k < 3 then CONNECT else m
    case MOVE => if k < 2 then MKCOL else m
    case MERGE => if k < 2 then MKCOL else m
    case MSEARCH => if k < 2 then MKCOL else m
    case MKACTIVITY => if k < 3 then MKCOL else m
    case MKCALENDAR => if k < 4 then MKCOL else m
    case SEARCH => if k < 2 then SUBSCRIBE else m
    case REBIND => if k < 3 then REPORT else m
    case PROPFIND => if k < 2 then POST else m
    case PROPPATCH => if k < 2 then POST else if k < 5 then PROPFIND else m
    case PUT => if k < 2 then POST else m
    case PATCH => if k < 2 then POST else m
    case PURGE => if k < 2 then POST else if k < 3 then PUT else m
    case LINK => if k < 2 then LOCK else m
    case UNSUBSCRIBE => if k < 3 then UNLOCK else m
    case UNBIND => if k < 3 then UNLOCK else m
    case UNLINK => if k < 4 then UNLOCK else m
    case _ => m
  }

  lemma FirstLetterOf(m: Method)
    ensures FirstMethod(MethodString(m)[0]) == Some(Tried(m, 1))
  {
  }

  /** The letter the tried method wants, or the switch to the next one to try. */
  predicate Follows(m: Method, k: nat)
    requires k < |MethodString(m)|
  {
    var c, t := MethodString(m)[k], Tried(m, k);
    if c == At(MethodString(t), k) then Tried(m, k + 1) == t else OtherMethod(t, k, c) == Some(Tried(m, k + 1))
  }

  predicate Shares(m: Method) { Tried(m, 1) != m }

  lemma LoneFollows(m: Method, k: nat)
    requires 1 <= k < |MethodString(m)| && !Shares(m)
    ensures Follows(m, k)
  {
  }

  lemma CFollows(m: Method, k: nat)
    requires 1 <= k < |MethodString(m)| && (m == CHECKOUT || m == COPY || m == SEARCH || m == REBIND || m == LINK)
    ensures Follows(m, k)
  {
  }

  lemma MFollows(m: Method, k: nat)
    requires 1 <= k < |MethodString(m)| && (m == MOVE || m == MERGE || m == MSEARCH || m == MKACTIVITY || m == MKCALENDAR)
    ensures Follows(m, k)
  {
  }

  lemma PFollows(m: Method, k: nat)
    requires 1 <= k < |MethodString(m)| && (m == PROPFIND || m == PROPPATCH || m == PUT || m == PATCH || m == PURGE)
    ensures Follows(m, k)
  {
  }

  lemma UFollows(m: Method, k: nat)
    requires 1 <= k < |MethodString(m)| && (m == UNSUBSCRIBE || m == UNBIND || m == UNLINK)
    ensures Follows(m, k)
  {
  }

  lemma NextLetterOf(m: Method, k: nat)
    requires 1 <= k < |MethodString(m)|
    ensures Follows(m, k)
  {
    hide Follows, MethodString;
    if !Shares(m) { LoneFollows(m, k); }
    else if m == UNSUBSCRIBE || m == UNBIND || m == UNLINK { UFollows(m, k); }
    else if m == PROPFIND || m == PROPPATCH || m == PUT || m == PATCH || m == PURGE { PFollows(m, k); }
    else if m == MOVE || m == MERGE || m == MSEARCH || m == MKACTIVITY || m == MKCALENDAR { MFollows(m, k); }
    else { CFollows(m, k); }
  }

  lemma LetterOf(m: Method, i: nat)
    requires i < |MethodString(m)|
    ensures 'A' <= MethodString(m)[i] <= 'Z' || MethodString(m)[i] == '-'
  {
  }

  lemma TriedAll(m: Method)
    ensures MethodString(m) != [] && Tried(m, |MethodString(m)|) == m
  {
  }

  lemma NoNul(m: Method)
    ensures MethodString(m) != [] && forall i :: 0 <= i < |MethodString(m)| ==> MethodString(m)[i] != NUL && MethodString(m)[i] != ' '
    ensures Tried(m, |MethodString(m)|) == m && MethodString(m)[0] != CR && MethodString(m)[0] != LF
  {
    hide MethodString, Tried;
    TriedAll(m);
    forall i | 0 <= i < |MethodString(m)|
      ensures MethodString(m)[i] != NUL && MethodString(m)[i] != ' ' && MethodString(m)[i] != CR && MethodString(m)[i] != LF
    {
      LetterOf(m, i);
    }
  }

  /** The parser inside the method, from p between messages. */
  function InMethod(p: Parser, m: Method, k: nat): Parser {
    p.(flags := NO_FLAGS, contentLength := ULLONG_MAX, verb := Tried(m, k), index := k, state := ReqMethod)
  }

  /** The first letters after which a wrong second one is not noticed. */
  predicate Loose(c: Byte) {
    c == 'A' || c == 'B' || c == 'D' || c == 'G' || c == 'H' || c == 'N' || c == 'O' || c == 'T' || c == 'U'
  }

  /** w is what is taken for a beginning of the method's name: the same letters, but for any second one after such a first. */
  predicate Resembles(w: Bytes, m: Method) {
    var name := MethodString(m);
    |w| <= |name| && forall i :: 0 <= i < |w| ==> w[i] == name[i] || (i == 1 && Loose(name[0]) && w[1] != NUL)
  }

  lemma MethodStart(f: Machine, cb: HeadersCallback, p: Parser, m: Method)
    requires IsHttp(f, cb) && p.state == StartReq
    ensures f(p, MethodString(m)[0]) == Next(InMethod(p, m, 1), [MessageBegin])
  {
    hide IsHttp, FirstMethod, MethodString, Tried;
    NoNul(m);
    FirstLetterOf(m);
    RequestStep(f, cb, p, MethodString(m)[0]);
  }

  lemma MethodGoesOn(f: Machine, cb: HeadersCallback, p: Parser, m: Method, k: nat)
    requires IsHttp(f, cb) && 1 <= k < |MethodString(m)|
    ensures f(InMethod(p, m, k), MethodString(m)[k]) == Next(InMethod(p, m, k + 1), [])
  {
    hide IsHttp, MethodString, Tried, OtherMethod;
    NoNul(m);
    NextLetterOf(m, k);
    RequestStep(f, cb, InMethod(p, m, k), MethodString(m)[k]);
  }

  /** The second letter is not looked at. */
  lemma SecondLetter(m: Method, c: Byte)
    requires Loose(MethodString(m)[0]) && c != NUL
    ensures Tried(m, 1) == Tried(m, 2) && |MethodString(Tried(m, 1))| > 1
    ensures c == At(MethodString(Tried(m, 1)), 1) || OtherMethod(Tried(m, 1), 1, c) == Some(Tried(m, 1))
  {
    hide OtherMethod;
    SecondIgnored(Tried(m, 1), c);
  }

  lemma SecondIgnored(m: Method, c: Byte)
    requires Loose(MethodString(m)[0]) && c != NUL
    ensures c == At(MethodString(m), 1) || OtherMethod(m, 1, c) == Some(m)
  {
  }

  lemma AnySecondLetter(f: Machine, cb: HeadersCallback, p: Parser, m: Method, c: Byte)
    requires IsHttp(f, cb) && Loose(MethodString(m)[0]) && c != NUL
    ensures f(InMethod(p, m, 1), c) == Next(InMethod(p, m, 2), [])
  {
    hide IsHttp, MethodString, Tried, OtherMethod, Loose;
    SecondLetter(m, c);
    NoNul(Tried(m, 1));
    RequestStep(f, cb, InMethod(p, m, 1), c);
  }

  /** Whatever resembles the name of a method is taken for it; in particular each of the 33 names is recognised. */
  lemma {:induction false} MethodRun(f: Machine, cb: HeadersCallback, p: Parser, out: seq<Event>, m: Method, w: Bytes)
    requires IsHttp(f, cb) && p.state == StartReq && w != [] && Resembles(w, m)
    ensures Run(f, p, out, w) == Running(InMethod(p, m, |w|), out + [MessageBegin])
  {
    hide IsHttp, MethodString, InMethod, Run, Loose;
    var x, c := w[..|w| - 1], w[|w| - 1];
    assert w == x + [c];
    RunLast(f, p, out, x, c);
    if x == [] {
      RunNothing(f, p, out);
      MethodStart(f, cb, p, m);
      PushOne(out, MessageBegin);
    } else {
      assert Resembles(x, m) by { assert forall i :: 0 <= i < |x| ==> x[i] == w[i]; }
      MethodRun(f, cb, p, out, m, x);
      if c == MethodString(m)[|x|] { MethodGoesOn(f, cb, p, m, |x|); } else { AnySecondLetter(f, cb, p, m, c); }
    }
  }

  lemma MethodEnd(f: Machine, cb: HeadersCallback, p: Parser, m: Method)
    requires IsHttp(f, cb)
    ensures var n := |MethodString(m)|;
            f(InMethod(p, m, n), ' ') == Next(InMethod(p, m, n).(verb := m, state := ReqSpacesBeforeUrl, index := n + 1), [])
  {
    hide IsHttp, MethodString, Tried;
    NoNul(m);
    RequestStep(f, cb, InMethod(p, m, |MethodString(m)|), ' ');
  }

  // ----- and nothing else -----

  /** The method tried after a first letter begins with that letter. */
  lemma FirstTried(c: Byte)
    ensures FirstMethod(c).Some? ==> var m := FirstMethod(c).value; MethodString(m)[0] == c && Tried(m, 1) == m
  {
  }

  /** One more letter: the method tried then is the same, or it shares the letters so far and has this one. */
  predicate GoesOnAs(t: Method, k: nat, c: Byte, u: Method) {
    var name, other := MethodString(t), MethodString(u);
    && k < |other| && k <= |name| && (forall i :: 0 <= i < k ==> other[i] == name[i]) && Tried(u, k + 1) == u
    && (other[k] == c || (k == 1 && u == t && Loose(other[0])))
  }

  lemma OtherC(t: Method, k: nat, c: Byte)
    requires 1 <= k <= |MethodString(t)| && t == CONNECT
    ensures OtherMethod(t, k, c).Some? ==> GoesOnAs(t, k, c, OtherMethod(t, k, c).value)
  {
  }

  lemma OtherS(t: Method, k: nat, c: Byte)
    requires 1 <= k <= |MethodString(t)| && (t == SUBSCRIBE || t == REPORT || t == LOCK)
    ensures OtherMethod(t, k, c).Some? ==> GoesOnAs(t, k, c, OtherMethod(t, k, c).value)
  {
  }

  lemma OtherM(t: Method, k: nat, c: Byte)
    requires 1 <= k <= |MethodString(t)| && t == MKCOL
    ensures OtherMethod(t, k, c).Some? ==> GoesOnAs(t, k, c, OtherMethod(t, k, c).value)
  {
  }

  lemma OtherP(t: Method, k: nat, c: Byte)
    requires 1 <= k <= |MethodString(t)| && t == POST
    ensures OtherMethod(t, k, c).Some? ==> GoesOnAs(t, k, c, OtherMethod(t, k, c).value)
  {
  }

  lemma OtherPs(t: Method, k: nat, c: Byte)
    requires 1 <= k <= |MethodString(t)| && (t == PUT || t == PROPFIND) && Tried(t, k) == t
    ensures OtherMethod(t, k, c).Some? ==> GoesOnAs(t, k, c, OtherMethod(t, k, c).value)
  {
  }

  lemma OtherU(t: Method, k: nat, c: Byte)
    requires 1 <= k <= |MethodString(t)| && t == UNLOCK
    ensures OtherMethod(t, k, c).Some? ==> GoesOnAs(t, k, c, OtherMethod(t, k, c).value)
  {
  }

  lemma OtherLone(t: Method, k: nat, c: Byte)
    requires 1 <= k <= |MethodString(t)| && Tried(t, k) == t
    requires !(t == CONNECT || t == SUBSCRIBE || t == REPORT || t == LOCK || t == MKCOL || t == POST || t == PUT || t == PROPFIND || t == UNLOCK)
    ensures OtherMethod(t, k, c).Some? ==> GoesOnAs(t, k, c, OtherMethod(t, k, c).value)
  {
  }

  lemma OtherGoesOn(t: Method, k: nat, c: Byte)
    requires 1 <= k <= |MethodString(t)| && Tried(t, k) == t
    ensures OtherMethod(t, k, c).Some? ==> GoesOnAs(t, k, c, OtherMethod(t, k, c).value)
  {
    hide OtherMethod, MethodString, Tried, GoesOnAs;
    if t == CONNECT { OtherC(t, k, c); }
    else if t == SUBSCRIBE || t == REPORT || t == LOCK { OtherS(t, k, c); }
    else if t == MKCOL { OtherM(t, k, c); }
    else if t == POST { OtherP(t, k, c); }
    else if t == PUT || t == PROPFIND { OtherPs(t, k, c); }
    else if t == UNLOCK { OtherU(t, k, c); }
    else { OtherLone(t, k, c); }
  }

  lemma TriedStays(t: Method, k: nat)
    requires Tried(t, k) == t
    ensures Tried(t, k + 1) == t
  {
  }

  lemma ResemblesMore(x: Bytes, t: Method, c: Byte, u: Method)
    requires x != [] && Resembles(x, t) && GoesOnAs(t, |x|, c, u) && c != NUL
    ensures Resembles(x + [c], u)
  {
    hide MethodString, Tried, Loose;
    var w, name, other := x + [c], MethodString(t), MethodString(u);
    forall i | 0 <= i < |w|
      ensures w[i] == other[i] || (i == 1 && Loose(other[0]) && w[1] != NUL)
    {
      if i < |x| { assert w[i] == x[i] && other[i] == name[i] && other[0] == name[0]; }
    }
  }

  /** The words that are looked at: in one piece, but that a space may pass for the second letter. */
  predicate IsWordOrSo(w: Bytes) {
    (w != [] ==> w[0] != CR && w[0] != LF) && forall i :: 0 <= i < |w| && i != 1 ==> w[i] != ' '
  }

  /** After a word the parser tries a method that the word resembles, or has failed. */
  lemma {:induction false} WordRun(f: Machine, cb: HeadersCallback, p: Parser, out: seq<Event>, w: Bytes)
    requires IsHttp(f, cb) && p.state == StartReq && w != [] && IsWordOrSo(w)
    ensures var r := Run(f, p, out, w);
            if r.Running? then Resembles(w, r.p.verb) && Tried(r.p.verb, |w|) == r.p.verb && r.p == InMethod(p, r.p.verb, |w|)
            else r.Failed? && r.e == InvalidMethod
  {
    hide IsHttp, MethodString, Run, Tried, OtherMethod, FirstMethod, Loose, Resembles, GoesOnAs;
    var x, c := w[..|w| - 1], w[|w| - 1];
    assert w == x + [c];
    RunLast(f, p, out, x, c);
    if x == [] {
      RunNothing(f, p, out);
      FirstOfWord(f, cb, p, w);
    } else {
      assert forall i :: 0 <= i < |x| ==> x[i] == w[i];
      WordRun(f, cb, p, out, x);
      var r := Run(f, p, out, x);
      if r.Running? { NextOfWord(f, cb, p, r.p.verb, x, c); }
    }
  }

  lemma FirstOfWord(f: Machine, cb: HeadersCallback, p: Parser, w: Bytes)
    requires IsHttp(f, cb) && p.state == StartReq && |w| == 1 && w[0] != CR && w[0] != LF
    ensures match f(p, w[0]) {
              case Next(q, es) => Resembles(w, q.verb) && Tried(q.verb, 1) == q.verb && q == InMethod(p, q.verb, 1)
              case Stop(_, _) => false
              case Fail(e) => e == InvalidMethod
            }
  {
    hide IsHttp, MethodString, Tried, FirstMethod, Resembles;
    FirstTried(w[0]);
    RequestStep(f, cb, p, w[0]);
    if FirstMethod(w[0]).Some? { LongName(FirstMethod(w[0]).value); OneLetter(FirstMethod(w[0]).value, w); }
  }

  lemma OneLetter(m: Method, w: Bytes)
    requires |w| == 1 && MethodString(m) != [] && MethodString(m)[0] == w[0]
    ensures Resembles(w, m)
  {
    hide MethodString;
  }

  lemma NextOfWord(f: Machine, cb: HeadersCallback, p: Parser, t: Method, x: Bytes, c: Byte)
    requires IsHttp(f, cb) && x != [] && Resembles(x, t) && Tried(t, |x|) == t && (c == ' ' ==> |x| == 1)
    ensures match f(InMethod(p, t, |x|), c) {
              case Next(q, es) =>
                Resembles(x + [c], q.verb) && Tried(q.verb, |x| + 1) == q.verb && q == InMethod(p, q.verb, |x| + 1) && es == []
              case Stop(_, _) => false
              case Fail(e) => e == InvalidMethod
            }
  {
    hide IsHttp, MethodString, Tried, OtherMethod, Loose, Resembles, GoesOnAs;
    var k, name := |x|, MethodString(t);
    InName(x, t);
    RequestStep(f, cb, InMethod(p, t, k), c);
    LongName(t);
    NoNul(t);
    if c != NUL {
      if c == At(name, k) {
        TriedStays(t, k);
        SameGoesOn(t, k, c);
        ResemblesMore(x, t, c, t);
      } else if OtherMethod(t, k, c).Some? {
        OtherGoesOn(t, k, c);
        AsTried(t, k, c, OtherMethod(t, k, c).value);
        ResemblesMore(x, t, c, OtherMethod(t, k, c).value);
      }
    }
  }

  lemma AsTried(t: Method, k: nat, c: Byte, u: Method)
    requires GoesOnAs(t, k, c, u)
    ensures Tried(u, k + 1) == u
  {
  }

  lemma InName(x: Bytes, t: Method)
    requires Resembles(x, t)
    ensures |x| <= |MethodString(t)|
  {
  }

  lemma LongName(t: Method)
    ensures |MethodString(t)| > 2
  {
  }

  lemma SameGoesOn(t: Method, k: nat, c: Byte)
    requires c != NUL && c == At(MethodString(t), k) && Tried(t, k + 1) == t
    ensures GoesOnAs(t, k, c, t)
  {
    hide MethodString, Tried;
  }

  /** Exactly these words are taken for the method m: those of its length that have its letters, but for the second one
      if the first is A, B, D, G, H, N, O, T or U, where any character but NUL will do. */
  lemma MethodAccepted(f: Machine, cb: HeadersCallback, p: Parser, out: seq<Event>, w: Bytes, m: Method)
    requires IsHttp(f, cb) && p.state == StartReq && IsWordOrSo(w)
    ensures var r := Run(f, p, out, w + [' ']);
            r.Running? && r.p.state == ReqSpacesBeforeUrl && r.p.verb == m <==> Resembles(w, m) && |w| == |MethodString(m)|
  {
    hide IsHttp, MethodString, Run, Tried, Resembles, InMethod;
    LongName(m);
    RunLast(f, p, out, w, ' ');
    if w == [] {
      RunNothing(f, p, out);
      NoSpaceFirst(f, cb, p);
    } else {
      if Resembles(w, m) && |w| == |MethodString(m)| {
        MethodRun(f, cb, p, out, m, w);
        MethodEnd(f, cb, p, m);
      }
      WordRun(f, cb, p, out, w);
      var r := Run(f, p, out, w);
      if r.Running? { EndOfWord(f, cb, p, r.p.verb, w); }
    }
  }

  lemma NoSpaceFirst(f: Machine, cb: HeadersCallback, p: Parser)
    requires IsHttp(f, cb) && p.state == StartReq
    ensures f(p, ' ').Fail?
  {
    hide IsHttp;
    RequestStep(f, cb, p, ' ');
  }

  lemma EndOfWord(f: Machine, cb: HeadersCallback, p: Parser, t: Method, w: Bytes)
    requires IsHttp(f, cb) && w != [] && Resembles(w, t) && Tried(t, |w|) == t
    ensures match f(InMethod(p, t, |w|), ' ') {
              case Next(q, _) => q.state == ReqSpacesBeforeUrl ==> q.verb == t && |w| == |MethodString(t)|
              case _ => true
            }
  {
    hide IsHttp, MethodString, Tried, OtherMethod, Loose;
    NoNul(t);
    RequestStep(f, cb, InMethod(p, t, |w|), ' ');
  }

  /** So wrong names are taken exactly by their second letter, and only after the nine first letters above. */
  lemma SecondLetterLoose(w: Bytes, m: Method)
    requires Resembles(w, m) && |w| == |MethodString(m)|
    ensures w != MethodString(m) <==> w[1] != MethodString(m)[1]
    ensures w != MethodString(m) ==> Loose(w[0])
  {
    hide MethodString, Loose;
    LongName(m);
    var name := MethodString(m);
    if w[1] == name[1] {
      assert forall i :: 0 <= i < |w| ==> w[i] == name[i];
    }
  }

  /** Blank lines before a request are passed over. */
  lemma {:induction false} BlankLines(f: Machine, cb: HeadersCallback, p: Parser, out: seq<Event>, b: Bytes)
    requires IsHttp(f, cb) && p.state == StartReq && forall i :: 0 <= i < |b| ==> b[i] == CR || b[i] == LF
    ensures Run(f, p, out, b) == Running(p, out)
  {
    hide IsHttp;
    if b != [] {
      BlankLines(f, cb, p, out, b[..|b| - 1]);
      RequestStep(f, cb, p, b[|b| - 1]);
    }
  }

  // ----- target -----

  /** The URL automaton run over a target. */
  function UrlState(s: State, t: Bytes): State {
    if t == [] then s else UrlChar(UrlState(s, t[..|t| - 1]), t[|t| - 1])
  }

  predicate ValidTarget(m: Method, t: Bytes) { t != [] && UrlMayEnd(UrlState(UrlStart(m == CONNECT), t)) }

  lemma UrlDead(c: Byte)
    ensures UrlChar(Dead, c) == Dead
  {
  }

  lemma UrlStays(s: State, c: Byte)
    ensures UrlChar(s, c) == Dead || (InUrl(UrlChar(s, c)) && c != ' ' && c != CR && c != LF)
  {
  }

  lemma UrlFirst(f: Machine, cb: HeadersCallback, p: Parser, c: Byte)
    requires IsHttp(f, cb) && p.state == ReqSpacesBeforeUrl && UrlChar(UrlStart(p.verb == CONNECT), c) != Dead
    ensures f(p, c) == Next(p.(state := UrlChar(UrlStart(p.verb == CONNECT), c)), [Data(Url, [c])])
  {
    hide IsHttp, UrlChar;
    UrlStays(UrlStart(p.verb == CONNECT), c);
    RequestStep(f, cb, p, c);
  }

  lemma UrlNext(f: Machine, cb: HeadersCallback, p: Parser, c: Byte)
    requires IsHttp(f, cb) && InUrl(p.state) && UrlChar(p.state, c) != Dead
    ensures f(p, c) == Next(p.(state := UrlChar(p.state, c)), [Data(Url, [c])])
  {
    hide IsHttp, UrlChar;
    UrlStays(p.state, c);
    RequestStep(f, cb, p, c);
  }

  /** The parser follows the URL automaton and delivers the target whole. */
  lemma {:induction false} UrlRun(f: Machine, cb: HeadersCallback, p: Parser, out: seq<Event>, t: Bytes)
    requires IsHttp(f, cb) && p.state == ReqSpacesBeforeUrl && !EndsWith(out, Url)
    requires t != [] && UrlState(UrlStart(p.verb == CONNECT), t) != Dead
    ensures Run(f, p, out, t) == Running(p.(state := UrlState(UrlStart(p.verb == CONNECT), t)), out + [Data(Url, t)])
    ensures InUrl(UrlState(UrlStart(p.verb == CONNECT), t))
  {
    hide IsHttp, UrlChar, Push, PushAll, Run;
    var x, c := t[..|t| - 1], t[|t| - 1];
    assert t == x + [c];
    RunLast(f, p, out, x, c);
    UrlStays(UrlState(UrlStart(p.verb == CONNECT), x), c);
    if x == [] {
      assert t == [c];
      RunNothing(f, p, out);
      UrlFirst(f, cb, p, c);
      PushOne(out, Data(Url, [c]));
      PushNew(out, Url, [c]);
    } else {
      UrlDead(c);
      UrlRun(f, cb, p, out, x);
      UrlNext(f, cb, p.(state := UrlState(UrlStart(p.verb == CONNECT), x)), c);
      PushNew(out, Url, x);
      PushOne(out + [Data(Url, x)], Data(Url, [c]));
      PushMerge(out, Url, x, [c]);
      PushNew(out, Url, t);
    }
  }

  /** Targets in origin form (section 5.3.1 of RFC 7230) are valid. */
  lemma {:induction false} OriginForm(m: Method, t: Bytes)
    requires m != CONNECT && t != [] && t[0] == '/'
    requires forall i :: 0 <= i < |t| ==> IsUrlChar(t[i]) || t[i] == '?'
    ensures var s := UrlState(UrlStart(m == CONNECT), t); s == ReqPath || s == ReqQueryStringStart || s == ReqQueryString
    ensures ValidTarget(m, t)
  {
    if |t| > 1 {
      OriginForm(m, t[..|t| - 1]);
    } else {
      assert t[..0] == [];
    }
  }

  // ----- version -----

  /** " HTTP/a.b" and the end of the line. */
  function VersionText(major: Bytes, minor: Bytes): Bytes {
    [' ', 'H', 'T', 'T', 'P', '/'] + (major + ['.']) + (minor + CRLF)
  }

  /** The letters of "HTTP/" after the blank. */
  predicate Spells(s: State, c: Byte, t: State) {
    || (s == ReqHttpStart && c == 'H' && t == ReqHttpH) || (s == ReqHttpH && c == 'T' && t == ReqHttpHT)
    || (s == ReqHttpHT && c == 'T' && t == ReqHttpHTT) || (s == ReqHttpHTT && c == 'P' && t == ReqHttpHTTP)
    || (s == ReqHttpHTTP && c == '/' && t == ReqFirstHttpMajor)
  }

  lemma Letter(f: Machine, cb: HeadersCallback, p: Parser, out: seq<Event>, x: Bytes, s: State, c: Byte, t: State)
    requires IsHttp(f, cb) && Spells(s, c, t) && Run(f, p, out, x) == Running(p.(state := s), out)
    ensures Run(f, p, out, x + [c]) == Running(p.(state := t), out)
  {
    hide IsHttp, Run;
    var q := p.(state := s);
    RequestStep(f, cb, q, c);
    RunOver(f, p, out, x, c, q, p.(state := t));
  }

  lemma FirstBlank(f: Machine, cb: HeadersCallback, p: Parser, out: seq<Event>)
    requires IsHttp(f, cb) && UrlMayEnd(p.state)
    ensures Run(f, p, out, [] + [' ']) == Running(p.(state := ReqHttpStart), out)
  {
    hide IsHttp, Run, UrlChar;
    RunNothing(f, p, out);
    RequestStep(f, cb, p, ' ');
    RunOver(f, p, out, [], ' ', p, p.(state := ReqHttpStart));
  }

  lemma NameOfProtocol(f: Machine, cb: HeadersCallback, p: Parser, out: seq<Event>)
    requires IsHttp(f, cb) && UrlMayEnd(p.state)
    ensures Run(f, p, out, [' ', 'H', 'T', 'T', 'P', '/']) == Running(p.(state := ReqFirstHttpMajor), out)
  {
    hide IsHttp, Run, UrlMayEnd;
    FirstBlank(f, cb, p, out);
    var x1: Bytes := [] + [' '];
    Letter(f, cb, p, out, x1, ReqHttpStart, 'H', ReqHttpH);
    var x2 := x1 + ['H'];
    Letter(f, cb, p, out, x2, ReqHttpH, 'T', ReqHttpHT);
    var x3 := x2 + ['T'];
    Letter(f, cb, p, out, x3, ReqHttpHT, 'T', ReqHttpHTT);
    var x4 := x3 + ['T'];
    Letter(f, cb, p, out, x4, ReqHttpHTT, 'P', ReqHttpHTTP);
    var x5 := x4 + ['P'];
    Letter(f, cb, p, out, x5, ReqHttpHTTP, '/', ReqFirstHttpMajor);
    assert x5 + ['/'] == [' ', 'H', 'T', 'T', 'P', '/'];
  }

  lemma MinorEnd(f: Machine, cb: HeadersCallback, p: Parser, out: seq<Event>, minor: Bytes)
    requires IsHttp(f, cb) && p.state == ReqFirstHttpMinor && Fits(RequestMinor, minor)
    ensures Run(f, p, out, minor + CRLF) == Running(p.(minor := DecValue(minor), state := HeaderFieldStart), out)
  {
    hide IsHttp, Run, DecValue, HttpNumbers.Fits;
    NumberThen(f, cb, p, out, RequestMinor, minor, CR, ReqLineAlmostDone);
    var q := p.(minor := DecValue(minor));
    LineFeed(f, cb, q, p, out, minor + [CR]);
    assert minor + [CR] + [LF] == minor + CRLF;
  }

  lemma LineFeed(f: Machine, cb: HeadersCallback, q: Parser, p: Parser, out: seq<Event>, x: Bytes)
    requires IsHttp(f, cb) && Run(f, p, out, x) == Running(q.(state := ReqLineAlmostDone), out)
    ensures Run(f, p, out, x + [LF]) == Running(q.(state := HeaderFieldStart), out)
  {
    hide IsHttp, Run;
    var r := q.(state := ReqLineAlmostDone);
    RequestStep(f, cb, r, LF);
    RunOver(f, p, out, x, LF, r, q.(state := HeaderFieldStart));
  }

  // ----- the line -----

  function RequestLineText(m: Method, target: Bytes, major: Bytes, minor: Bytes): Bytes {
    MethodString(m) + [' '] + target + VersionText(major, minor)
  }

  /** The parser after a request line. */
  function LineRead(p: Parser, m: Method, major: Bytes, minor: Bytes): Parser
  {
    p.(flags := NO_FLAGS, contentLength := ULLONG_MAX, verb := m, index := |MethodString(m)| + 1,
       major := DecValue(major), minor := DecValue(minor), state := HeaderFieldStart)
  }

  /** The method and the blank after it. */
  lemma MethodBlank(f: Machine, cb: HeadersCallback, p: Parser, out: seq<Event>, m: Method)
    requires IsHttp(f, cb) && p.state == StartReq
    ensures var n := |MethodString(m)|;
            Run(f, p, out, MethodString(m) + [' ']) ==
            Running(InMethod(p, m, n).(verb := m, state := ReqSpacesBeforeUrl, index := n + 1), out + [MessageBegin])
  {
    hide IsHttp, Run, MethodString, Tried;
    var w := MethodString(m);
    NoNul(m);
    MethodRun(f, cb, p, out, m, w);
    MethodEnd(f, cb, p, m);
    RunLast(f, p, out, w, ' ');
  }

  /** The version and the end of the line. */
  lemma VersionRun(f: Machine, cb: HeadersCallback, p: Parser, out: seq<Event>, major: Bytes, minor: Bytes)
    requires IsHttp(f, cb) && UrlMayEnd(p.state) && Fits(RequestMajor, major) && Fits(RequestMinor, minor)
    ensures Run(f, p, out, VersionText(major, minor)) ==
            Running(p.(major := DecValue(major), minor := DecValue(minor), state := HeaderFieldStart), out)
  {
    hide IsHttp, Run, UrlMayEnd, DecValue, HttpNumbers.Fits;
    NameOfProtocol(f, cb, p, out);
    var q := p.(state := ReqFirstHttpMajor);
    NumberThen(f, cb, q, out, RequestMajor, major, '.', ReqFirstHttpMinor);
    var proto: Bytes := [' ', 'H', 'T', 'T', 'P', '/'];
    Then(f, p, out, proto, major + ['.'], q, out);
    var q1 := p.(major := DecValue(major), state := ReqFirstHttpMinor);
    MinorEnd(f, cb, q1, out, minor);
    Then(f, p, out, proto + (major + ['.']), minor + CRLF, q1, out);
  }

  lemma RequestLineRun(f: Machine, cb: HeadersCallback, p: Parser, out: seq<Event>, m: Method, target: Bytes, major: Bytes, minor: Bytes)
    requires IsHttp(f, cb) && p.state == StartReq && ValidTarget(m, target) && Fits(RequestMajor, major) && Fits(RequestMinor, minor)
    ensures Run(f, p, out, RequestLineText(m, target, major, minor)) ==
            Running(LineRead(p, m, major, minor), out + [MessageBegin, Data(Url, target)])
  {
    hide IsHttp, Run, MethodString, UrlState, UrlMayEnd, Tried, UrlStart, VersionText, DecValue, HttpNumbers.Fits;
    var w := MethodString(m);
    var o1 := out + [MessageBegin];
    MethodBlank(f, cb, p, out, m);
    var p1 := InMethod(p, m, |w|).(verb := m, state := ReqSpacesBeforeUrl, index := |w| + 1);
    UrlEnds(UrlState(UrlStart(m == CONNECT), target));
    UrlRun(f, cb, p1, o1, target);
    Then(f, p, out, w + [' '], target, p1, o1);
    var p2 := p1.(state := UrlState(UrlStart(m == CONNECT), target));
    var o2 := o1 + [Data(Url, target)];
    VersionRun(f, cb, p2, o2, major, minor);
    Then(f, p, out, w + [' '] + target, VersionText(major, minor), p2, o2);
    assert o2 == out + [MessageBegin, Data(Url, target)];
  }

  lemma UrlEnds(s: State)
    ensures UrlMayEnd(s) ==> s != Dead
  {
  }
}
