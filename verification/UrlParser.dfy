/** http_parser_parse_url: two automata that cut a URL into its parts. */
module UrlParser {
  import opened Wrappers
  import opened HttpTypes
  import opened HttpStep
  import opened HttpFraming

  datatype Part = Schema | Userinfo | Host | Port | Path | Query | Fragment

  /** The order in which the parts of a URL come. */
  function Rank(p: Part): nat {
    match p
    case Schema => 0 case Userinfo => 1 case Host => 2 case Port => 3 case Path => 4 case Query => 5 case Fragment => 6
  }

  datatype Slice = Slice(off: nat, len: nat) {
    function End(): nat { off + len }
  }

  /** field_set and field_data: a part is set when it is in the map. */
  type Parts = map<Part, Slice>

  predicate IsDelimiter(c: Byte) {
    c == ':' || c == '/' || c == '@' || c == '[' || c == ']' || c == '?' || c == '#'
  }

  // ----- first automaton: the URL -----

  function PartOf(s: State): Option<Part> {
    match s
    case ReqSchema => Some(Schema)
    case ReqServer => Some(Host)
    case ReqServerWithAt => Some(Host)
    case ReqPath => Some(Path)
    case ReqQueryString => Some(Query)
    case ReqFragment => Some(Fragment)
    case _ => None
  }

  datatype Scan = Scan(state: State, last: Option<Part>, parts: Parts, foundAt: bool)

  /** The byte at offset i. */
  function ScanChar(sc: Scan, c: Byte, i: nat): Scan {
    var s := UrlChar(sc.state, c);
    match PartOf(s)
    case None => sc.(state := s)
    case Some(p) =>
      var at := sc.foundAt || s == ReqServerWithAt;
      if sc.last == Some(p) && p in sc.parts
      then Scan(s, sc.last, sc.parts[p := sc.parts[p].(len := sc.parts[p].len + 1)], at)
      else Scan(s, Some(p), sc.parts[p := Slice(i, 1)], at)
  }

  function ScanUrl(isConnect: bool, buf: Bytes): Scan {
    if buf == [] then Scan(UrlStart(isConnect), None, map[], false)
    else ScanChar(ScanUrl(isConnect, buf[..|buf| - 1]), buf[|buf| - 1], |buf| - 1)
  }

  // ----- second automaton: userinfo, host and port -----

  datatype HostState =
    | HostDead | UserinfoStart | InUserinfo | HostStart | V6Start | InHost | InV6 | V6End
    | ZoneStart | InZone | PortStart | InPort

  function HostChar(s: HostState, c: Byte): HostState {
    match s
    case UserinfoStart => UserinfoChar(c)
    case InUserinfo => UserinfoChar(c)
    case HostStart => if c == '[' then V6Start else if IsHostChar(c) then InHost else HostDead
    case InHost => if IsHostChar(c) then InHost else if c == ':' then PortStart else HostDead
    case V6End => if c == ':' then PortStart else HostDead
    case InV6 => if c == ']' then V6End else if IsV6Char(c) then InV6 else if c == '%' then ZoneStart else HostDead
    case V6Start => if IsV6Char(c) then InV6 else HostDead
    case InZone => if c == ']' then V6End else if IsZoneChar(c) then InZone else HostDead
    case ZoneStart => if IsZoneChar(c) then InZone else HostDead
    case InPort => if IsNum(c) then InPort else HostDead
    case PortStart => if IsNum(c) then InPort else HostDead
    case HostDead => HostDead
  }

  function UserinfoChar(c: Byte): HostState {
    if c == '@' then HostStart else if IsUserinfoChar(c) then InUserinfo else HostDead
  }

  predicate IsV6Char(c: Byte) { IsHex(c) || c == ':' || c == '.' }
  predicate IsZoneChar(c: Byte) { IsAlphaNum(c) || c == '%' || c == '.' || c == '-' || c == '_' || c == '~' }

  datatype HostScan = HostScan(state: HostState, parts: Parts)

  function Longer(s: Slice): Slice { s.(len := s.len + 1) }

  function HostScanChar(h: HostScan, c: Byte, i: nat): HostScan {
    var s := HostChar(h.state, c);
    var host := if Host in h.parts then h.parts[Host] else Slice(0, 0);
    match s
    case InHost => HostScan(s, h.parts[Host := Longer(if h.state != InHost then host.(off := i) else host)])
    case InV6 => HostScan(s, h.parts[Host := Longer(if h.state != InV6 then host.(off := i) else host)])
    case ZoneStart => HostScan(s, h.parts[Host := Longer(host)])
    case InZone => HostScan(s, h.parts[Host := Longer(host)])
    case InPort => HostScan(s, h.parts[Port := if h.state != InPort || Port !in h.parts then Slice(i, 1) else Longer(h.parts[Port])])
    case InUserinfo =>
      HostScan(s, h.parts[Userinfo := if h.state != InUserinfo || Userinfo !in h.parts then Slice(i, 1) else Longer(h.parts[Userinfo])])
    case _ => h.(state := s)
  }

  /** The scan of buf[lo..hi]. */
  function ScanHost(parts: Parts, foundAt: bool, buf: Bytes, lo: nat, hi: nat): HostScan
    requires lo <= hi <= |buf|
    decreases hi
  {
    if lo == hi then HostScan(if foundAt then UserinfoStart else HostStart, parts[Host := Slice(lo, 0)])
    else HostScanChar(ScanHost(parts, foundAt, buf, lo, hi - 1), buf[hi - 1], hi - 1)
  }

  predicate HostMayEnd(s: HostState) { s == InHost || s == V6End || s == InPort }

  // ----- the port number -----

  function DigitRun(s: Bytes): (r: Bytes)
    ensures r <= s && forall i :: 0 <= i < |r| ==> IsNum(r[i])
    ensures |r| < |s| ==> !IsNum(s[|r|])
  {
    if s != [] && IsNum(s[0]) then
      var r := DigitRun(s[1..]);
      assert [s[0]] + r <= s;
      [s[0]] + r
    else []
  }

  /** strtoul in base 10 on text that starts with a digit: it stops at the first other character. */
  function Strtoul(s: Bytes): nat {
    var v := DecValue(DigitRun(s));
    if v > ULLONG_MAX then ULLONG_MAX else v
  }

  // ----- http_parser_parse_url -----

  datatype ParsedUrl = ParsedUrl(parts: Parts, port: nat)

  /** What a call computes; `beyond` is the memory after the buffer, which strtoul may look at. */
  function Parsed(buf: Bytes, isConnect: bool, beyond: Bytes): Option<ParsedUrl> {
    var sc := ScanUrl(isConnect, buf);
    if sc.state == Dead || (Schema in sc.parts && Host !in sc.parts) then None
    else if Host !in sc.parts then (if isConnect then None else Some(ParsedUrl(sc.parts, 0)))
    else
      var s := sc.parts[Host];
      if s.End() > |buf| then None  // cannot happen
      else
        var h := ScanHost(sc.parts, sc.foundAt, buf, s.off, s.End());
        if !HostMayEnd(h.state) || (isConnect && h.parts.Keys != {Host, Port}) then None
        else if Port !in h.parts then Some(ParsedUrl(h.parts, 0))
        else
          var v := if h.parts[Port].off <= |buf| then Strtoul(buf[h.parts[Port].off..] + beyond) else 0;
          if v > 0xffff then None else Some(ParsedUrl(h.parts, v))
  }

  class HttpParserUrl {
    var parts: Parts
    var port: nat

    constructor ()
      ensures parts == map[] && port == 0
    {
      parts, port := map[], 0;
    }

    /** The inner switch of http_parse_host. */
    method NotePart(s: HostState, t: HostState, p: nat, ghost c: Byte)
      requires t == HostChar(s, c) && Host in parts && (s == InPort ==> Port in parts) && (s == InUserinfo ==> Userinfo in parts)
      modifies `parts
      ensures HostScan(t, parts) == HostScanChar(HostScan(s, old(parts)), c, p)
      ensures Host in parts && (t == InPort ==> Port in parts) && (t == InUserinfo ==> Userinfo in parts)
    {
      hide HostChar;
      if t == InHost || t == InV6 {
        if s != t { parts := parts[Host := parts[Host].(off := p)]; }
        parts := parts[Host := Longer(parts[Host])];
      } else if t == ZoneStart || t == InZone {
        parts := parts[Host := Longer(parts[Host])];
      } else if t == InPort {
        if s != InPort { parts := parts[Port := Slice(p, 0)]; }
        parts := parts[Port := Longer(parts[Port])];
      } else if t == InUserinfo {
        if s != InUserinfo { parts := parts[Userinfo := Slice(p, 0)]; }
        parts := parts[Userinfo := Longer(parts[Userinfo])];
      }
    }

    /** http_parse_host; true when it fails. */
    method ParseHost(buf: Bytes, foundAt: bool) returns (failed: bool)
      requires Host in parts && parts[Host].End() <= |buf|
      modifies this
      ensures var s := old(parts[Host]);
              var h := ScanHost(old(parts), foundAt, buf, s.off, s.End());
              failed == !HostMayEnd(h.state) && (!failed ==> parts == h.parts)
      ensures port == old(port)
    {
      hide HostChar;
      var lo, hi := parts[Host].off, parts[Host].End();
      parts := parts[Host := Slice(lo, 0)];
      var s := if foundAt then UserinfoStart else HostStart;
      for p := lo to hi
        invariant Host in parts && s != HostDead && HostScan(s, parts) == ScanHost(old(parts), foundAt, buf, lo, p)
        invariant (s == InPort ==> Port in parts) && (s == InUserinfo ==> Userinfo in parts)
        invariant port == old(port)
      {
        var t := HostChar(s, buf[p]);
        if t == HostDead {
          HostDies(old(parts), foundAt, buf, lo, p + 1, hi);
          return true;
        }
        NotePart(s, t, p, buf[p]);
        s := t;
      }
      return !HostMayEnd(s);
    }

    /** The inner switch of http_parser_parse_url. */
    method NoteUrlPart(part: Option<Part>, last: Option<Part>, p: nat) returns (last': Option<Part>)
      requires part.Some? && last == part ==> part.value in parts
      modifies `parts
      ensures part == None ==> parts == old(parts) && last' == last
      ensures part.Some? ==>
                && last' == part
                && parts == old(parts)[part.value := if last == part then Longer(old(parts)[part.value]) else Slice(p, 1)]
    {
      last' := last;
      if part == None { return; }
      if last == part {
        parts := parts[part.value := Longer(parts[part.value])];
      } else {
        parts := parts[part.value := Slice(p, 1)];
        last' := part;
      }
    }

    /** The loop over the URL; false when a byte is refused. */
    method ScanParts(buf: Bytes, isConnect: bool) returns (ok: bool, s: State, last: Option<Part>, foundAt: bool)
      requires parts == map[]
      modifies `parts
      ensures ok == (ScanUrl(isConnect, buf).state != Dead)
      ensures ok ==> Scan(s, last, parts, foundAt) == ScanUrl(isConnect, buf)
    {
      hide UrlChar, ScanFits, PartOf, ScanUrl;
      EmptyFits(isConnect);
      s, last, foundAt := UrlStart(isConnect), None, false;
      assert buf[..0] == [];
      for p := 0 to |buf|
        invariant s != Dead && Scan(s, last, parts, foundAt) == ScanUrl(isConnect, buf[..p])
        invariant ScanFits(Scan(s, last, parts, foundAt), buf[..p])
      {
        ScanNext(isConnect, buf, p);
        s := UrlChar(s, buf[p]);
        if s == Dead {
          ScanDies(isConnect, buf, p + 1);
          return false, s, last, foundAt;
        }
        if PartOf(s).Some? {
          foundAt := foundAt || s == ReqServerWithAt;
        }
        last := NoteUrlPart(PartOf(s), last, p);
      }
      assert buf[..|buf|] == buf;
      ok := true;
    }

    /** http_parser_parse_url; true when it fails. */
    method ParseUrl(buf: Bytes, isConnect: bool, beyond: Bytes) returns (failed: bool)
      requires |buf| < 0x1_0000
      modifies this
      ensures failed == Parsed(buf, isConnect, beyond).None?
      ensures !failed ==> ParsedUrl(parts, port) == Parsed(buf, isConnect, beyond).value
    {
      hide ScanUrl, ScanFits, ScanHost, Strtoul, HostMayEnd;
      parts, port := map[], 0;
      var ok, s, last, foundAt := ScanParts(buf, isConnect);
      if !ok { return true; }
      if Schema in parts && Host !in parts { return true; }
      ghost var sc := ScanUrl(isConnect, buf);
      UrlFits(isConnect, buf);
      FitsMeans(sc, buf);
      if Host in parts {
        var bad := ParseHost(buf, foundAt);
        if bad { return true; }
      }
      if isConnect && parts.Keys != {Host, Port} { return true; }
      if Port in parts {
        assert Host in sc.parts;
        PortInside(sc, buf);
        var v := Strtoul(buf[parts[Port].off..] + beyond);
        if v > 0xffff { return true; }
        port := v;
      }
      return false;
    }
  }

  /** What the loop over the URL knows before and after the byte at p. */
  lemma ScanNext(isConnect: bool, buf: Bytes, p: nat)
    requires p < |buf| && ScanFits(ScanUrl(isConnect, buf[..p]), buf[..p])
    ensures var sc := ScanUrl(isConnect, buf[..p]);
            var next := ScanUrl(isConnect, buf[..p + 1]);
            && next == ScanChar(sc, buf[p], p)
            && (sc.last.Some? ==> sc.last.value in sc.parts)
            && (next.state != Dead ==> ScanFits(next, buf[..p + 1]))
  {
    hide UrlChar, ScanFits, PartOf;
    var sc := ScanUrl(isConnect, buf[..p]);
    assert buf[..p + 1][..p] == buf[..p];
    FitsMeans(sc, buf[..p]);
    if UrlChar(sc.state, buf[p]) != Dead {
      FitsNext(sc, buf[..p + 1]);
    }
  }

  lemma {:induction false} ScanDies(isConnect: bool, buf: Bytes, n: nat)
    requires n <= |buf| && ScanUrl(isConnect, buf[..n]).state == Dead
    ensures ScanUrl(isConnect, buf).state == Dead
    decreases |buf|
  {
    if n == |buf| {
      assert buf[..n] == buf;
    } else {
      var x := buf[..|buf| - 1];
      assert x[..n] == buf[..n];
      ScanDies(isConnect, x, n);
    }
  }

  lemma {:induction false} HostDies(parts: Parts, foundAt: bool, buf: Bytes, lo: nat, n: nat, hi: nat)
    requires lo <= n <= hi <= |buf| && ScanHost(parts, foundAt, buf, lo, n).state == HostDead
    ensures ScanHost(parts, foundAt, buf, lo, hi).state == HostDead
    decreases hi
  {
    if n < hi { HostDies(parts, foundAt, buf, lo, n, hi - 1); }
  }

  // ----- what every step of the first automaton keeps -----

  predicate Covered(parts: Parts, i: nat) { exists p :: p in parts && parts[p].off <= i < parts[p].End() }

  predicate Ordered(parts: Parts) {
    forall p, q :: p in parts && q in parts && Rank(p) < Rank(q) ==> parts[p].End() <= parts[q].off
  }

  predicate FirstPass(p: Part) { p != Userinfo && p != Port }

  /** Which parts may have been seen last in a state between parts. */
  predicate LastFits(s: State, last: Option<Part>) {
    match s
    case ReqSpacesBeforeUrl => last == None
    case ReqSchemaSlash => last == Some(Schema)
    case ReqSchemaSlashSlash => last == Some(Schema)
    case ReqServerStart => last == None || last == Some(Schema)
    case ReqQueryStringStart => last.Some? ==> Rank(last.value) < Rank(Query)
    case ReqFragmentStart => last.Some? ==> Rank(last.value) < Rank(Fragment)
    case _ => PartOf(s).Some? && last == PartOf(s)
  }

  /** Parts in order, the last one seen last, all of them before n. */
  predicate Chain(parts: Parts, last: Option<Part>, n: nat) {
    && (last.Some? ==> last.value in parts)
    && (forall p :: p in parts ==> 0 < parts[p].len && parts[p].End() <= n && FirstPass(p))
    && (forall p :: p in parts ==> last.Some? && Rank(p) <= Rank(last.value))
    && Ordered(parts)
  }

  predicate PartsFit(sc: Scan, n: nat) {
    && LastFits(sc.state, sc.last) && Chain(sc.parts, sc.last, n)
    && (PartOf(sc.state).Some? ==> sc.last == PartOf(sc.state) && sc.parts[sc.last.value].End() == n)
    && (PartOf(sc.state) == None ==> forall p :: p in sc.parts ==> sc.parts[p].End() < n)
  }

  predicate PartsCover(sc: Scan, buf: Bytes) {
    && (forall i :: 0 <= i < |buf| ==> IsDelimiter(buf[i]) || Covered(sc.parts, i))
    && (Host in sc.parts && sc.parts[Host].End() < |buf| ==> var c := buf[sc.parts[Host].End()]; c == '/' || c == '?')
  }

  predicate ScanFits(sc: Scan, buf: Bytes) { PartsFit(sc, |buf|) && PartsCover(sc, buf) }

  lemma NextLastFits(s: State, last: Option<Part>, c: Byte)
    requires LastFits(s, last) && UrlChar(s, c) != Dead
    ensures LastFits(UrlChar(s, c), if PartOf(UrlChar(s, c)).Some? then PartOf(UrlChar(s, c)) else last)
  {
  }

  lemma NextFits(s: State, last: Option<Part>, c: Byte)
    requires LastFits(s, last) && UrlChar(s, c) != Dead
    ensures var t := UrlChar(s, c);
            && (PartOf(t).Some? && last == PartOf(t) ==> PartOf(s) == PartOf(t))
            && (PartOf(t).Some? && last != PartOf(t) ==> last.Some? ==> Rank(last.value) < Rank(PartOf(t).value))
            && (PartOf(t) == None ==> IsDelimiter(c))
            && LastFits(t, if PartOf(t).Some? then PartOf(t) else last)
            && (PartOf(t).Some? ==> FirstPass(PartOf(t).value))
            && (PartOf(s) == Some(Host) && PartOf(t) != Some(Host) ==> c == '/' || c == '?')
  {
    NextLastFits(s, last, c);
  }

  lemma ChainLonger(parts: Parts, q: Part, n: nat)
    requires Chain(parts, Some(q), n) && parts[q].End() == n
    ensures Chain(parts[q := Longer(parts[q])], Some(q), n + 1)
  {
    RankInjective(q);
  }

  lemma ChainNew(parts: Parts, last: Option<Part>, q: Part, n: nat)
    requires Chain(parts, last, n) && FirstPass(q) && (last.Some? ==> Rank(last.value) < Rank(q))
    ensures Chain(parts[q := Slice(n, 1)], Some(q), n + 1)
  {
    RankInjective(q);
  }

  lemma PartsFitNext(sc: Scan, c: Byte, n: nat)
    requires PartsFit(sc, n) && UrlChar(sc.state, c) != Dead
    ensures PartsFit(ScanChar(sc, c, n), n + 1)
  {
    hide UrlChar, LastFits, PartOf, Ordered, Rank, FirstPass;
    NextFits(sc.state, sc.last, c);
    var t := ScanChar(sc, c, n);
    if PartOf(t.state) == None {
      assert t.parts == sc.parts;
    } else {
      hide Chain;
      var q := PartOf(t.state).value;
      if sc.last == Some(q) {
        ChainLonger(sc.parts, q, n);
      } else {
        ChainNew(sc.parts, sc.last, q, n);
      }
    }
  }

  lemma RankInjective(q: Part)
    ensures forall p :: Rank(p) == Rank(q) ==> p == q
  {
  }

  lemma FitsMeans(sc: Scan, buf: Bytes)
    requires ScanFits(sc, buf)
    ensures forall p :: p in sc.parts ==> 0 < sc.parts[p].len && sc.parts[p].End() <= |buf| && FirstPass(p)
    ensures PartOf(sc.state).Some? ==> sc.last == PartOf(sc.state)
    ensures sc.last.Some? ==> sc.last.value in sc.parts
  {
  }

  /** A part once seen keeps its place and only grows. */
  lemma PartsGrow(sc: Scan, c: Byte, n: nat)
    requires PartsFit(sc, n) && UrlChar(sc.state, c) != Dead
    ensures var t := ScanChar(sc, c, n);
            && (forall p :: p in sc.parts ==> p in t.parts && t.parts[p].off == sc.parts[p].off && sc.parts[p].End() <= t.parts[p].End())
            && (IsDelimiter(c) || Covered(t.parts, n))
            && (Host in t.parts && t.parts[Host].End() <= n ==>
                  Host in sc.parts && t.parts[Host] == sc.parts[Host] && (t.parts[Host].End() == n ==> c == '/' || c == '?'))
  {
    hide UrlChar, IsDelimiter, LastFits, PartOf;
    NextFits(sc.state, sc.last, c);
    var t := ScanChar(sc, c, n);
    if PartOf(t.state).Some? {
      var q := PartOf(t.state).value;
      assert q in t.parts && t.parts[q].End() == n + 1;
      assert IsDelimiter(c) || Covered(t.parts, n);
      if sc.last == Some(q) {
        assert t.parts[q].off == sc.parts[q].off;
      } else {
        RankInjective(q);
        assert forall p :: p in sc.parts ==> p != q && t.parts[p] == sc.parts[p];
      }
    }
    if Host in sc.parts && PartOf(sc.state) != Some(Host) {
      HostEndsBefore(sc, n);
    }
  }

  lemma HostEndsBefore(sc: Scan, n: nat)
    requires PartsFit(sc, n) && Host in sc.parts && PartOf(sc.state) != Some(Host)
    ensures sc.parts[Host].End() < n
  {
    hide LastFits, PartOf;
    if PartOf(sc.state).Some? {
      RankInjective(PartOf(sc.state).value);
    }
  }

  lemma FitsNext(sc: Scan, buf: Bytes)
    requires buf != [] && ScanFits(sc, buf[..|buf| - 1]) && UrlChar(sc.state, buf[|buf| - 1]) != Dead
    ensures ScanFits(ScanChar(sc, buf[|buf| - 1], |buf| - 1), buf)
  {
    hide UrlChar, IsDelimiter, PartsFit, ScanChar;
    var n, c := |buf| - 1, buf[|buf| - 1];
    var x := buf[..n];
    var t := ScanChar(sc, c, n);
    PartsFitNext(sc, c, n);
    PartsGrow(sc, c, n);
    forall i | 0 <= i <= n
      ensures IsDelimiter(buf[i]) || Covered(t.parts, i)
    {
      if i < n && !IsDelimiter(buf[i]) {
        assert IsDelimiter(x[i]) || Covered(sc.parts, i);
        var p :| p in sc.parts && sc.parts[p].off <= i < sc.parts[p].End();
        assert p in t.parts;
      }
    }
    if Host in t.parts && t.parts[Host].End() < n {
      assert x[t.parts[Host].End()] == buf[t.parts[Host].End()];
    }
  }

  lemma {:induction false} UrlFits(isConnect: bool, buf: Bytes)
    ensures ScanUrl(isConnect, buf).state != Dead ==> ScanFits(ScanUrl(isConnect, buf), buf)
  {
    hide UrlChar, ScanFits;
    if buf != [] {
      var x := buf[..|buf| - 1];
      UrlFits(isConnect, x);
      if ScanUrl(isConnect, buf).state != Dead {
        StillDead(buf[|buf| - 1]);
        FitsNext(ScanUrl(isConnect, x), buf);
      }
    } else {
      EmptyFits(isConnect);
    }
  }

  lemma StillDead(c: Byte)
    ensures UrlChar(Dead, c) == Dead
  {
  }

  lemma EmptyFits(isConnect: bool)
    ensures ScanUrl(isConnect, []) == Scan(UrlStart(isConnect), None, map[], false)
    ensures ScanFits(ScanUrl(isConnect, []), [])
  {
  }

  // ----- what every step of the second automaton keeps -----

  /** The parts found in buf[lo..n] fit the state. */
  predicate HostFitsState(h: HostScan, lo: nat, n: nat) {
    && Host in h.parts
    && (Userinfo in h.parts ==> lo <= h.parts[Userinfo].off && 0 < h.parts[Userinfo].len && h.parts[Userinfo].End() <= n)
    && (Port in h.parts <==> h.state == InPort)
    && match h.state {
      case HostDead => true
      case UserinfoStart => n == lo && Userinfo !in h.parts && h.parts[Host].len == 0
      case InUserinfo => Userinfo in h.parts && h.parts[Userinfo].End() == n && h.parts[Host].len == 0
      case HostStart => h.parts[Host].len == 0
      case V6Start => h.parts[Host].len == 0
      case _ =>
        && 0 < h.parts[Host].len && lo <= h.parts[Host].off && h.parts[Host].End() <= n
        && (Userinfo in h.parts ==> h.parts[Userinfo].End() <= h.parts[Host].off)
        && (h.state == InHost || h.state == InV6 || h.state == ZoneStart || h.state == InZone ==> h.parts[Host].End() == n)
        && (h.state == InPort ==> 0 < h.parts[Port].len && h.parts[Port].End() == n && h.parts[Host].End() <= h.parts[Port].off)
    }
  }

  predicate InSection(parts: Parts, i: nat) {
    (exists p :: p in parts && !FirstPass(p) && parts[p].off <= i < parts[p].End()) ||
    (Host in parts && parts[Host].off <= i < parts[Host].End())
  }

  predicate HostScanFits(h: HostScan, buf: Bytes, lo: nat, n: nat)
    requires lo <= n <= |buf|
  {
    && HostFitsState(h, lo, n)
    && (h.state != HostDead ==> forall i :: lo <= i < n ==> IsDelimiter(buf[i]) || InSection(h.parts, i))
    && (Port in h.parts ==> forall i :: h.parts[Port].off <= i < n ==> IsNum(buf[i]))
  }

  lemma HostStateNext(h: HostScan, c: Byte, lo: nat, n: nat)
    requires lo <= n && h.state != HostDead && HostFitsState(h, lo, n) && HostChar(h.state, c) != HostDead
    ensures HostFitsState(HostScanChar(h, c, n), lo, n + 1)
    ensures Host in h.parts && Host in HostScanChar(h, c, n).parts
    ensures forall p :: p in h.parts && p != Host ==>
                          p in HostScanChar(h, c, n).parts && HostScanChar(h, c, n).parts[p].off == h.parts[p].off &&
                          HostScanChar(h, c, n).parts[p].End() >= h.parts[p].End()
    ensures h.parts[Host].len > 0 ==> HostScanChar(h, c, n).parts[Host].off == h.parts[Host].off &&
                                       HostScanChar(h, c, n).parts[Host].End() >= h.parts[Host].End()
    ensures IsDelimiter(c) || InSection(HostScanChar(h, c, n).parts, n)
  {
    hide IsHostChar, IsUserinfoChar, IsV6Char, IsZoneChar, IsNum;
    var t := HostScanChar(h, c, n);
    if t.state == InPort { assert Port in t.parts && t.parts[Port].End() == n + 1; }
    if t.state == InUserinfo { assert Userinfo in t.parts && t.parts[Userinfo].End() == n + 1; }
  }

  lemma {:induction false} HostFits(sc: Scan, buf: Bytes, lo: nat, n: nat)
    requires lo <= n <= |buf| && forall p :: p in sc.parts ==> FirstPass(p)
    ensures var h := ScanHost(sc.parts, sc.foundAt, buf, lo, n);
            && (h.state != HostDead ==> HostScanFits(h, buf, lo, n))
            && (forall p :: p in sc.parts && p != Host ==> p in h.parts && h.parts[p] == sc.parts[p])
            && (forall p :: p in h.parts && FirstPass(p) && p != Host ==> p in sc.parts)
    decreases n
  {
    hide HostChar, HostFitsState, IsDelimiter, IsNum;
    if lo < n {
      HostFits(sc, buf, lo, n - 1);
      var h, c := ScanHost(sc.parts, sc.foundAt, buf, lo, n - 1), buf[n - 1];
      var t := ScanHost(sc.parts, sc.foundAt, buf, lo, n);
      HostKeeps(h, c, n - 1);
      if t.state != HostDead {
        HostStaysDead(h, c);
        HostNext(h, buf, lo, n - 1);
      }
    } else {
      assert HostFitsState(ScanHost(sc.parts, sc.foundAt, buf, lo, n), lo, n) by { HostEmpty(sc, buf, lo); }
    }
  }

  lemma HostStaysDead(h: HostScan, c: Byte)
    ensures HostChar(HostDead, c) == HostDead && HostScanChar(h, c, 0).state == HostChar(h.state, c)
    ensures forall n :: HostScanChar(h, c, n).state == HostChar(h.state, c)
  {
  }

  lemma HostEmpty(sc: Scan, buf: Bytes, lo: nat)
    requires lo <= |buf| && forall p :: p in sc.parts ==> FirstPass(p)
    ensures HostFitsState(ScanHost(sc.parts, sc.foundAt, buf, lo, lo), lo, lo)
    ensures Port !in ScanHost(sc.parts, sc.foundAt, buf, lo, lo).parts
  {
  }

  lemma HostKeeps(h: HostScan, c: Byte, n: nat)
    ensures var t := HostScanChar(h, c, n);
            forall p :: FirstPass(p) && p != Host ==> (p in h.parts <==> p in t.parts) && (p in h.parts ==> t.parts[p] == h.parts[p])
  {
    hide HostChar;
  }

  lemma HostNext(h: HostScan, buf: Bytes, lo: nat, n: nat)
    requires lo <= n < |buf| && h.state != HostDead && HostScanFits(h, buf, lo, n) && HostChar(h.state, buf[n]) != HostDead
    ensures HostScanFits(HostScanChar(h, buf[n], n), buf, lo, n + 1)
  {
    hide IsDelimiter, HostScanChar, HostFitsState, IsNum, HostChar;
    HostStaysDead(h, buf[n]);
    var c, t := buf[n], HostScanChar(h, buf[n], n);
    HostStateNext(h, c, lo, n);
    forall i | lo <= i < n + 1
      ensures IsDelimiter(buf[i]) || InSection(t.parts, i)
    {
      if i < n && !IsDelimiter(buf[i]) {
        assert InSection(h.parts, i);
        if p :| p in h.parts && !FirstPass(p) && h.parts[p].off <= i < h.parts[p].End() {
          assert p in t.parts;
        }
      }
    }
    PortNext(h, c, lo, n);
  }

  lemma PortNext(h: HostScan, c: Byte, lo: nat, n: nat)
    requires h.state != HostDead && HostFitsState(h, lo, n) && HostChar(h.state, c) != HostDead
    ensures h.state == InPort <==> Port in h.parts
    ensures var t := HostScanChar(h, c, n);
            Port in t.parts ==> IsNum(c) && t.parts[Port].off == (if h.state == InPort then h.parts[Port].off else n)
  {
    hide IsHostChar, IsUserinfoChar, IsV6Char, IsZoneChar, IsNum;
  }

  lemma HostMeans(h: HostScan, buf: Bytes, lo: nat, n: nat)
    requires lo <= n <= |buf| && HostScanFits(h, buf, lo, n)
    ensures Host in h.parts
    ensures Port in h.parts ==> h.parts[Port].End() == n && lo <= h.parts[Port].off && 0 < h.parts[Port].len
    ensures HostMayEnd(h.state) ==> SectionFits(h.parts, lo, n)
    ensures HostMayEnd(h.state) ==> forall i :: lo <= i < n ==> IsDelimiter(buf[i]) || InSection(h.parts, i)
  {
    hide IsDelimiter;
  }

  lemma PortInside(sc: Scan, buf: Bytes)
    requires ScanFits(sc, buf) && Host in sc.parts && sc.parts[Host].End() <= |buf|
    ensures var h := ScanHost(sc.parts, sc.foundAt, buf, sc.parts[Host].off, sc.parts[Host].End());
            HostMayEnd(h.state) && Port in h.parts ==> h.parts[Port].off <= |buf|
  {
    hide HostScanFits, ScanFits, ScanHost;
    FitsMeans(sc, buf);
    var lo, hi := sc.parts[Host].off, sc.parts[Host].End();
    HostFits(sc, buf, lo, hi);
    var h := ScanHost(sc.parts, sc.foundAt, buf, lo, hi);
    if HostMayEnd(h.state) { HostMeans(h, buf, lo, hi); }
  }

  /** Userinfo, host and port, in this order, inside lo..n. */
  predicate SectionFits(parts: Parts, lo: nat, n: nat) {
    && Host in parts && 0 < parts[Host].len && lo <= parts[Host].off && parts[Host].End() <= n
    && (Userinfo in parts ==> 0 < parts[Userinfo].len && lo <= parts[Userinfo].off && parts[Userinfo].End() <= parts[Host].off)
    && (Port in parts ==> 0 < parts[Port].len && parts[Host].End() <= parts[Port].off && parts[Port].End() <= n)
  }

  // ----- the layout of a parsed URL -----

  function Cut(buf: Bytes, s: Slice): Bytes
    requires s.End() <= |buf|
  {
    buf[s.off..s.End()]
  }

  lemma OrderedPair(before: Parts, after: Parts, p: Part, q: Part)
    requires Ordered(before) && Host in before && before[Host].len > 0
    requires SectionFits(after, before[Host].off, before[Host].End())
    requires p in after && q in after && Rank(p) < Rank(q)
    requires FirstPass(p) && p != Host ==> p in before && after[p] == before[p]
    requires FirstPass(q) && q != Host ==> q in before && after[q] == before[q]
    ensures after[p].End() <= after[q].off
  {
    if FirstPass(p) && p != Host {
      if FirstPass(q) && q != Host {
        assert p in before && q in before;
      } else {
        assert Rank(p) < Rank(Host);
      }
    } else if FirstPass(q) && q != Host {
      assert Rank(Host) < Rank(q);
    }
  }

  lemma OrderedAgain(before: Parts, after: Parts)
    requires Ordered(before) && Host in before && before[Host].len > 0
    requires SectionFits(after, before[Host].off, before[Host].End())
    requires forall p :: p in before && p != Host ==> p in after && after[p] == before[p]
    requires forall p :: p in after && FirstPass(p) && p != Host ==> p in before
    ensures Ordered(after)
  {
    hide SectionFits, Rank, FirstPass;
    forall p, q | p in after && q in after && Rank(p) < Rank(q)
      ensures after[p].End() <= after[q].off
    {
      hide Ordered;
      OrderedPair(before, after, p, q);
    }
  }

  lemma CoveredAgain(before: Parts, after: Parts, i: nat)
    requires Host in before && Covered(before, i)
    requires forall p :: p in before && p != Host ==> p in after && after[p] == before[p]
    requires before[Host].off <= i < before[Host].End() ==> InSection(after, i)
    ensures Covered(after, i)
  {
    var p :| p in before && before[p].off <= i < before[p].End();
    if p != Host { assert p in after; }
  }

  /** On success the parts are in bounds, not empty, disjoint and in order, every byte outside them is a delimiter,
      a schema comes with a host, and CONNECT takes a host and a port only. */
  lemma UrlLayout(buf: Bytes, isConnect: bool, beyond: Bytes)
    requires Parsed(buf, isConnect, beyond).Some?
    ensures var parts := Parsed(buf, isConnect, beyond).value.parts;
            && (forall p :: p in parts ==> 0 < parts[p].len && parts[p].End() <= |buf|)
            && Ordered(parts)
            && (forall i :: 0 <= i < |buf| ==> IsDelimiter(buf[i]) || Covered(parts, i))
            && (Schema in parts || Userinfo in parts || Port in parts ==> Host in parts)
            && (isConnect ==> parts.Keys == {Host, Port})
  {
    hide ScanUrl, ScanHost, HostFitsState, IsDelimiter, PartsFit, Strtoul, SectionFits;
    var sc := ScanUrl(isConnect, buf);
    UrlFits(isConnect, buf);
    FitsMeans(sc, buf);
    FitsOrdered(sc, buf);
    var parts := Parsed(buf, isConnect, beyond).value.parts;
    if Host in sc.parts {
      var lo, hi := sc.parts[Host].off, sc.parts[Host].End();
      var h := ScanHost(sc.parts, sc.foundAt, buf, lo, hi);
      HostFits(sc, buf, lo, hi);
      HostMeans(h, buf, lo, hi);
      OrderedAgain(sc.parts, parts);
      assert SectionFits(parts, lo, hi);
      forall p | p in parts
        ensures 0 < parts[p].len && parts[p].End() <= |buf|
      {
        if FirstPass(p) && p != Host { assert p in sc.parts; } else { SectionMeans(parts, lo, hi, p); }
      }
      forall i | 0 <= i < |buf|
        ensures IsDelimiter(buf[i]) || Covered(parts, i)
      {
        if !IsDelimiter(buf[i]) { CoveredAgain(sc.parts, parts, i); }
      }
    }
  }

  lemma SectionMeans(parts: Parts, lo: nat, n: nat, p: Part)
    requires SectionFits(parts, lo, n) && p in parts && (!FirstPass(p) || p == Host)
    ensures 0 < parts[p].len && parts[p].End() <= n
  {
  }

  lemma FitsOrdered(sc: Scan, buf: Bytes)
    requires ScanFits(sc, buf)
    ensures Ordered(sc.parts)
  {
  }

  // ----- the port -----

  lemma {:induction false} DigitRunSplit(a: Bytes, b: Bytes)
    requires forall i :: 0 <= i < |a| ==> IsNum(a[i])
    ensures DigitRun(a + b) == a + DigitRun(b)
  {
    if a == [] {
      assert a + b == b;
    } else {
      assert (a + b)[1..] == a[1..] + b;
      DigitRunSplit(a[1..], b);
      assert [a[0]] + a[1..] == a;
    }
  }

  /** The digits the port number is read from: those of the port, and, when the URL ends with it, any that happen
      to follow the buffer in memory. */
  function PortDigits(buf: Bytes, port: Slice, beyond: Bytes): Bytes
    requires port.End() <= |buf|
  {
    Cut(buf, port) + (if port.End() == |buf| then DigitRun(beyond) else [])
  }

  lemma PortRead(buf: Bytes, port: Slice, beyond: Bytes)
    requires port.End() <= |buf| && (forall i :: port.off <= i < port.End() ==> IsNum(buf[i]))
    requires port.End() < |buf| ==> !IsNum(buf[port.End()])
    ensures DigitRun(buf[port.off..] + beyond) == PortDigits(buf, port, beyond)
  {
    var a, b := Cut(buf, port), buf[port.End()..] + beyond;
    assert buf[port.off..] + beyond == a + b;
    DigitRunSplit(a, b);
    if port.End() == |buf| {
      assert b == beyond;
    } else {
      assert b[0] == buf[port.End()];
    }
  }

  /** The port is a decimal number of at most 65535; the URL is refused for no larger reason than a larger number. */
  lemma PortValue(buf: Bytes, isConnect: bool, beyond: Bytes)
    requires Parsed(buf, isConnect, beyond).Some?
    ensures var u := Parsed(buf, isConnect, beyond).value;
            if Port in u.parts then
              && u.parts[Port].End() <= |buf|
              && (forall i :: u.parts[Port].off <= i < u.parts[Port].End() ==> IsNum(buf[i]))
              && u.port == DecValue(PortDigits(buf, u.parts[Port], beyond)) <= 0xffff
            else u.port == 0
  {
    hide ScanUrl, ScanHost, HostFitsState, IsDelimiter, PartsFit, DecValue;
    var sc := ScanUrl(isConnect, buf);
    UrlFits(isConnect, buf);
    FitsMeans(sc, buf);
    var u := Parsed(buf, isConnect, beyond).value;
    if Port in u.parts {
      assert Host in sc.parts;
      var lo, hi := sc.parts[Host].off, sc.parts[Host].End();
      var h := ScanHost(sc.parts, sc.foundAt, buf, lo, hi);
      HostFits(sc, buf, lo, hi);
      HostMeans(h, buf, lo, hi);
      PortRead(buf, u.parts[Port], beyond);
    }
  }

  // ----- round trip: a URL put together from its parts is cut into the same parts -----

  datatype Address = Address(schema: Bytes, userinfo: Option<Bytes>, host: Bytes, v6: bool, port: Option<Bytes>,
                             path: Bytes, query: Option<Bytes>, fragment: Option<Bytes>)

  function UserinfoText(a: Address): Bytes { if a.userinfo.Some? then a.userinfo.value + ['@'] else [] }
  function HostText(a: Address): Bytes { if a.v6 then ['['] + a.host + [']'] else a.host }
  function PortText(a: Address): Bytes { if a.port.Some? then [':'] + a.port.value else [] }
  function ServerText(a: Address): Bytes { UserinfoText(a) + HostText(a) + PortText(a) }
  function QueryText(a: Address): Bytes { if a.query.Some? then ['?'] + a.query.value else [] }
  function FragmentText(a: Address): Bytes { if a.fragment.Some? then ['#'] + a.fragment.value else [] }
  function FrontText(a: Address): Bytes { a.schema + [':', '/', '/'] }
  function AddressText(a: Address): Bytes {
    FrontText(a) + ServerText(a) + a.path + QueryText(a) + FragmentText(a)
  }

  predicate AllAre(x: Bytes, ok: Byte -> bool) { forall i :: 0 <= i < |x| ==> ok(x[i]) }

  predicate IsQueryChar(c: Byte) { IsUrlChar(c) || c == '?' }
  predicate IsServerChar(c: Byte) { IsUserinfoChar(c) || c == '[' || c == ']' }

  predicate ValidServer(a: Address) {
    && (a.userinfo.Some? ==> a.userinfo.value != [] && AllAre(a.userinfo.value, IsUserinfoChar))
    && a.host != [] && (if a.v6 then AllAre(a.host, IsV6Char) else AllAre(a.host, IsHostChar))
    && (a.port.Some? ==> a.port.value != [] && AllAre(a.port.value, IsNum) && DecValue(a.port.value) <= 0xffff)
  }

  /** A fragment must not follow the host directly. */
  predicate ValidAddress(a: Address) {
    && a.schema != [] && AllAre(a.schema, IsAlpha)
    && ValidServer(a)
    && (a.path != [] ==> a.path[0] == '/' && AllAre(a.path, IsUrlChar))
    && (a.query.Some? ==> a.query.value != [] && AllAre(a.query.value, IsQueryChar))
    && (a.fragment.Some? ==>
          a.fragment.value != [] && IsQueryChar(a.fragment.value[0]) && (a.path != [] || a.query.Some?) &&
          forall i :: 0 <= i < |a.fragment.value| ==> IsQueryChar(a.fragment.value[i]) || a.fragment.value[i] == '#')
  }

  /** The first automaton from any point: x is read at offset i. */
  function ScanFrom(sc: Scan, x: Bytes, i: nat): Scan {
    if x == [] then sc else ScanChar(ScanFrom(sc, x[..|x| - 1], i), x[|x| - 1], i + |x| - 1)
  }

  lemma {:induction false} ScanFromStart(isConnect: bool, buf: Bytes)
    ensures ScanUrl(isConnect, buf) == ScanFrom(Scan(UrlStart(isConnect), None, map[], false), buf, 0)
  {
    hide ScanChar;
    if buf != [] { ScanFromStart(isConnect, buf[..|buf| - 1]); }
  }

  lemma {:induction false} ScanFromSplit(sc: Scan, x: Bytes, y: Bytes, i: nat)
    ensures ScanFrom(sc, x + y, i) == ScanFrom(ScanFrom(sc, x, i), y, i + |x|)
  {
    hide ScanChar;
    if y == [] {
      assert x + y == x;
    } else {
      assert (x + y)[..|x + y| - 1] == x + y[..|y| - 1];
      ScanFromSplit(sc, x, y[..|y| - 1], i);
    }
  }

  lemma ScanFromOne(sc: Scan, c: Byte, i: nat)
    ensures ScanFrom(sc, [c], i) == ScanChar(sc, c, i)
  {
    hide ScanChar;
    assert [c][..0] == [];
  }

  /** A stretch that stays in one state is one part. */
  lemma {:induction false} Stretch(sc: Scan, x: Bytes, i: nat, s: State, p: Part)
    requires x != [] && PartOf(s) == Some(p) && s != ReqServerWithAt && sc.last != Some(p)
    requires UrlChar(sc.state, x[0]) == s && forall k :: 1 <= k < |x| ==> UrlChar(s, x[k]) == s
    ensures ScanFrom(sc, x, i) == Scan(s, Some(p), sc.parts[p := Slice(i, |x|)], sc.foundAt)
  {
    hide UrlChar;
    var y, c := x[..|x| - 1], x[|x| - 1];
    if y == [] {
      assert ScanFrom(sc, y, i) == sc;
    } else {
      assert y[0] == x[0] && forall k :: 1 <= k < |y| ==> y[k] == x[k];
      Stretch(sc, y, i, s, p);
      assert sc.parts[p := Slice(i, |y|)][p := Slice(i, |x|)] == sc.parts[p := Slice(i, |x|)];
    }
  }

  predicate AtServer(s: State) { s == ReqServerStart || s == ReqServer || s == ReqServerWithAt }

  /** How much of the server part there is before offset i. */
  predicate ServerSoFar(sc: Scan, lo: nat, i: nat) {
    lo < i && sc.last == Some(Host) && Host in sc.parts && sc.parts[Host] == Slice(lo, i - lo) && AtServer(sc.state) && sc.state != ReqServerStart
  }

  lemma ServerStep(sc: Scan, c: Byte, lo: nat, i: nat)
    requires IsServerChar(c)
    requires ServerSoFar(sc, lo, i) || (sc.state == ReqServerStart && lo == i && sc.last != Some(Host))
    ensures ScanChar(sc, c, i) == Scan(ReqServer, Some(Host), sc.parts[Host := Slice(lo, i + 1 - lo)], sc.foundAt)
  {
  }

  lemma Overwritten(parts: Parts, p: Part, s: Slice, t: Slice)
    ensures parts[p := s][p := t] == parts[p := t]
  {
  }

  lemma {:induction false} ServerStretch(sc: Scan, x: Bytes, lo: nat, i: nat)
    requires x != [] && AllAre(x, IsServerChar)
    requires ServerSoFar(sc, lo, i) || (sc.state == ReqServerStart && lo == i && sc.last != Some(Host))
    ensures ScanFrom(sc, x, i) == Scan(ReqServer, Some(Host), sc.parts[Host := Slice(lo, i + |x| - lo)], sc.foundAt)
  {
    hide ScanChar, IsServerChar;
    var y, c := x[..|x| - 1], x[|x| - 1];
    if y == [] {
      assert ScanFrom(sc, y, i) == sc;
      ServerStep(sc, c, lo, i);
    } else {
      assert AllAre(y, IsServerChar) by { assert forall k :: 0 <= k < |y| ==> y[k] == x[k]; }
      ServerStretch(sc, y, lo, i);
      ServerStep(ScanFrom(sc, y, i), c, lo, i + |y|);
      hide ScanFrom, ServerSoFar;
      Overwritten(sc.parts, Host, Slice(lo, i + |y| - lo), Slice(lo, i + |x| - lo));
    }
  }

  lemma AtSign(sc: Scan, lo: nat, i: nat)
    requires ServerSoFar(sc, lo, i) && sc.state == ReqServer
    ensures ScanFrom(sc, ['@'], i) == Scan(ReqServerWithAt, Some(Host), sc.parts[Host := Slice(lo, i + 1 - lo)], true)
  {
    ScanFromOne(sc, '@', i);
  }

  lemma HostTextServer(a: Address)
    requires ValidServer(a)
    ensures AllAre(HostText(a) + PortText(a), IsServerChar)
    ensures a.userinfo.Some? ==> AllAre(a.userinfo.value, IsServerChar)
  {
    var x := HostText(a) + PortText(a);
    forall i | 0 <= i < |x|
      ensures IsServerChar(x[i])
    {
    }
  }

  /** The server part, whole. */
  lemma ServerScan(sc: Scan, a: Address, lo: nat)
    requires ValidServer(a) && sc.state == ReqServerStart && sc.last != Some(Host) && Host !in sc.parts && !sc.foundAt
    ensures ScanFrom(sc, ServerText(a), lo) ==
            Scan(ReqServer, Some(Host), sc.parts[Host := Slice(lo, |ServerText(a)|)], a.userinfo.Some?)
  {
    hide ScanFrom, ScanChar, IsServerChar, AllAre, HostText, PortText;
    HostTextServer(a);
    var x := HostText(a) + PortText(a);
    assert x != [] by { HostTextSome(a); }
    if a.userinfo.Some? {
      UserinfoScan(sc, a.userinfo.value, x, lo);
      assert ServerText(a) == a.userinfo.value + ['@'] + x;
    } else {
      assert ServerText(a) == x;
      ServerStretch(sc, x, lo, lo);
    }
  }

  lemma HostTextSome(a: Address)
    requires ValidServer(a)
    ensures HostText(a) != []
  {
  }

  lemma UserinfoScan(sc: Scan, u: Bytes, x: Bytes, lo: nat)
    requires sc.state == ReqServerStart && sc.last != Some(Host) && Host !in sc.parts && !sc.foundAt
    requires u != [] && AllAre(u, IsServerChar) && x != [] && AllAre(x, IsServerChar)
    ensures ScanFrom(sc, u + ['@'] + x, lo) ==
            Scan(ReqServer, Some(Host), sc.parts[Host := Slice(lo, |u + ['@'] + x|)], true)
  {
    hide ScanFrom, ScanChar, IsServerChar, AllAre;
    ServerStretch(sc, u, lo, lo);
    var s1 := ScanFrom(sc, u, lo);
    AtSign(s1, lo, lo + |u|);
    ScanFromSplit(sc, u, ['@'], lo);
    var s2 := ScanFrom(sc, u + ['@'], lo);
    ServerStretch(s2, x, lo, lo + |u| + 1);
    ScanFromSplit(sc, u + ['@'], x, lo);
    var n := |u + ['@'] + x|;
    assert sc.parts[Host := Slice(lo, |u|)][Host := Slice(lo, |u| + 1)][Host := Slice(lo, n)] == sc.parts[Host := Slice(lo, n)];
  }

  lemma SchemaLetters(a: Address)
    requires ValidAddress(a)
    ensures a.schema != [] && UrlChar(ReqSpacesBeforeUrl, a.schema[0]) == ReqSchema
    ensures forall k :: 0 <= k < |a.schema| ==> UrlChar(ReqSchema, a.schema[k]) == ReqSchema
  {
    hide ValidServer;
    forall k | 0 <= k < |a.schema|
      ensures IsAlpha(a.schema[k])
    {
    }
  }

  /** "://" after a schema. */
  lemma ColonSlashSlash(sc: Scan, i: nat)
    requires sc.state == ReqSchema
    ensures ScanFrom(sc, [':', '/', '/'], i) == sc.(state := ReqServerStart)
  {
    hide ScanFrom;
    ScanFromOne(sc, ':', i);
    ScanFromOne(sc.(state := ReqSchemaSlash), '/', i + 1);
    ScanFromSplit(sc, [':'], ['/'], i);
    ScanFromOne(sc.(state := ReqSchemaSlashSlash), '/', i + 2);
    ScanFromSplit(sc, [':'] + ['/'], ['/'], i);
    assert [':'] + ['/'] + ['/'] == [':', '/', '/'];
  }

  lemma SchemaScan(a: Address)
    requires ValidAddress(a)
    ensures ScanFrom(Scan(ReqSpacesBeforeUrl, None, map[], false), FrontText(a), 0) ==
            Scan(ReqServerStart, Some(Schema), map[Schema := Slice(0, |a.schema|)], false)
  {
    hide ScanFrom, ValidAddress, UrlChar;
    var sc, n := Scan(ReqSpacesBeforeUrl, None, map[], false), |a.schema|;
    SchemaLetters(a);
    Stretch(sc, a.schema, 0, ReqSchema, Schema);
    assert map[][Schema := Slice(0, n)] == map[Schema := Slice(0, n)];
    ColonSlashSlash(ScanFrom(sc, a.schema, 0), n);
    ScanFromSplit(sc, a.schema, [':', '/', '/'], 0);
  }

  /** What the rest of the URL adds. */
  function WithPath(parts: Parts, a: Address, i: nat): Parts {
    if a.path == [] then parts else parts[Path := Slice(i, |a.path|)]
  }

  function WithQuery(parts: Parts, a: Address, i: nat): Parts {
    if a.query == None then parts else parts[Query := Slice(i + 1, |a.query.value|)]
  }

  function WithFragment(parts: Parts, a: Address, i: nat): Parts {
    if a.fragment == None then parts else parts[Fragment := Slice(i + 1, |a.fragment.value|)]
  }

  lemma PathScan(sc: Scan, a: Address, i: nat)
    requires ValidAddress(a)
    requires (sc.state == ReqServer && sc.last == Some(Host)) || (sc.state == ReqSpacesBeforeUrl && sc.last == None)
    ensures var t := ScanFrom(sc, a.path, i);
            && t.parts == WithPath(sc.parts, a, i) && t.foundAt == sc.foundAt
            && (if a.path == [] then t == sc else t.state == ReqPath && t.last == Some(Path))
  {
    hide ScanFrom;
    if a.path == [] {
      ScanNothing(sc, i);
    } else {
      assert forall k :: 0 <= k < |a.path| ==> IsUrlChar(a.path[k]);
      Stretch(sc, a.path, i, ReqPath, Path);
    }
  }

  lemma ScanNothing(sc: Scan, i: nat)
    ensures ScanFrom(sc, [], i) == sc
  {
  }

  lemma QueryLetters(q: Bytes)
    requires AllAre(q, IsQueryChar)
    ensures forall k :: 0 <= k < |q| ==> UrlChar(ReqQueryString, q[k]) == UrlChar(ReqQueryStringStart, q[k]) == ReqQueryString
  {
    forall k | 0 <= k < |q|
      ensures UrlChar(ReqQueryString, q[k]) == UrlChar(ReqQueryStringStart, q[k]) == ReqQueryString
    {
      assert IsQueryChar(q[k]);
    }
  }

  lemma FragmentLetters(q: Bytes)
    requires q != [] && IsQueryChar(q[0]) && forall i :: 0 <= i < |q| ==> IsQueryChar(q[i]) || q[i] == '#'
    ensures UrlChar(ReqFragmentStart, q[0]) == ReqFragment
    ensures forall k :: 0 <= k < |q| ==> UrlChar(ReqFragment, q[k]) == ReqFragment
  {
    forall k | 0 <= k < |q|
      ensures UrlChar(ReqFragment, q[k]) == ReqFragment
    {
      assert IsQueryChar(q[k]) || q[k] == '#';
    }
  }

  lemma QueryScan(sc: Scan, a: Address, i: nat)
    requires ValidAddress(a) && (sc.state == ReqServer || sc.state == ReqPath) && (sc.last == Some(Host) || sc.last == Some(Path))
    ensures var t := ScanFrom(sc, QueryText(a), i);
            && t.parts == WithQuery(sc.parts, a, i) && t.foundAt == sc.foundAt
            && (if a.query == None then t == sc else t.state == ReqQueryString && t.last == Some(Query))
  {
    hide ScanFrom, AllAre, ValidServer;
    if a.query == None {
      ScanNothing(sc, i);
    } else {
      var q := a.query.value;
      QueryLetters(q);
      ScanFromOne(sc, '?', i);
      var s1 := sc.(state := ReqQueryStringStart);
      ScanFromSplit(sc, ['?'], q, i);
      assert ScanFrom(sc, ['?'], i) == s1;
      hide UrlChar, ScanChar;
      Stretch(s1, q, i + 1, ReqQueryString, Query);
    }
  }

  lemma FragmentScan(sc: Scan, a: Address, i: nat)
    requires ValidAddress(a) && (a.fragment.Some? ==> sc.state == ReqPath || sc.state == ReqQueryString) && sc.last != Some(Fragment)
    ensures var t := ScanFrom(sc, FragmentText(a), i);
            && t.parts == WithFragment(sc.parts, a, i) && t.foundAt == sc.foundAt
            && (if a.fragment == None then t == sc else t.state == ReqFragment)
  {
    hide ScanFrom, AllAre, ValidServer;
    if a.fragment == None {
      ScanNothing(sc, i);
    } else {
      var q := a.fragment.value;
      FragmentLetters(q);
      ScanFromOne(sc, '#', i);
      var s1 := sc.(state := ReqFragmentStart);
      ScanFromSplit(sc, ['#'], q, i);
      assert ScanFrom(sc, ['#'], i) == s1;
      hide UrlChar, ScanChar;
      Stretch(s1, q, i + 1, ReqFragment, Fragment);
    }
  }

  function ServerAt(a: Address): nat { |FrontText(a)| }
  function PathAt(a: Address): nat { ServerAt(a) + |ServerText(a)| }
  function QueryAt(a: Address): nat { PathAt(a) + |a.path| }
  function FragmentAt(a: Address): nat { QueryAt(a) + |QueryText(a)| }

  /** The parts after the first automaton, the server part still in one piece. */
  function RoughParts(a: Address): Parts {
    var p0: Parts := map[Schema := Slice(0, |a.schema|)];
    var p1 := p0[Host := Slice(ServerAt(a), |ServerText(a)|)];
    WithFragment(WithQuery(WithPath(p1, a, PathAt(a)), a, QueryAt(a)), a, FragmentAt(a))
  }

  /** Up to the path. */
  lemma FrontScan(a: Address)
    requires ValidAddress(a)
    ensures ScanFrom(Scan(ReqSpacesBeforeUrl, None, map[], false), FrontText(a) + ServerText(a), 0) ==
            Scan(ReqServer, Some(Host), map[Schema := Slice(0, |a.schema|)][Host := Slice(ServerAt(a), |ServerText(a)|)], a.userinfo.Some?)
  {
    hide ScanFrom, ServerText, ValidServer, AllAre, FrontText;
    var sc := Scan(ReqSpacesBeforeUrl, None, map[], false);
    SchemaScan(a);
    ServerScan(ScanFrom(sc, FrontText(a), 0), a, ServerAt(a));
    ScanFromSplit(sc, FrontText(a), ServerText(a), 0);
  }

  /** From the path on. */
  lemma BackScan(sc: Scan, a: Address)
    requires ValidAddress(a) && sc.state == ReqServer && sc.last == Some(Host)
    ensures var t := ScanFrom(sc, a.path + QueryText(a) + FragmentText(a), PathAt(a));
            && t.state != Dead && t.foundAt == sc.foundAt
            && t.parts == WithFragment(WithQuery(WithPath(sc.parts, a, PathAt(a)), a, QueryAt(a)), a, FragmentAt(a))
  {
    hide ScanFrom, QueryText, FragmentText, ServerText, FrontText, AllAre, WithPath, WithQuery, WithFragment, ValidServer;
    var i, x, y := PathAt(a), QueryText(a), FragmentText(a);
    PathScan(sc, a, i);
    var s3 := ScanFrom(sc, a.path, i);
    QueryScan(s3, a, QueryAt(a));
    ScanFromSplit(sc, a.path, x, i);
    var s4 := ScanFrom(s3, x, QueryAt(a));
    FragmentScan(s4, a, FragmentAt(a));
    ScanFromSplit(sc, a.path + x, y, i);
  }

  lemma AddressScan(a: Address)
    requires ValidAddress(a)
    ensures var sc := ScanUrl(false, AddressText(a));
            sc.state != Dead && sc.parts == RoughParts(a) && sc.foundAt == a.userinfo.Some?
  {
    hide ScanFrom, ScanUrl, ServerText, QueryText, FragmentText, FrontText, ValidAddress, WithPath, WithQuery, WithFragment;
    var sc := Scan(ReqSpacesBeforeUrl, None, map[], false);
    var x, y, z := FrontText(a) + ServerText(a), a.path + QueryText(a), FragmentText(a);
    ScanFromStart(false, AddressText(a));
    FrontScan(a);
    var s2 := ScanFrom(sc, x, 0);
    BackScan(s2, a);
    ScanFromSplit(sc, x, y + z, 0);
    assert AddressText(a) == x + (y + z);
  }

  /** Why a fragment is only spoken of after a path or a query: directly after the server part it is refused. */
  lemma FragmentAfterHost(a: Address, rest: Bytes, beyond: Bytes)
    requires ValidAddress(a)
    ensures Parsed(FrontText(a) + ServerText(a) + ['#'] + rest, false, beyond) == None
  {
    hide ScanFrom, ScanUrl, ScanChar, ServerText, FrontText, ValidAddress, ScanHost, Strtoul;
    var x := FrontText(a) + ServerText(a);
    var sc := Scan(ReqSpacesBeforeUrl, None, map[], false);
    FrontScan(a);
    ScanFromStart(false, x + ['#']);
    ScanFromSplit(sc, x, ['#'], 0);
    ScanFromOne(ScanFrom(sc, x, 0), '#', |x|);
    HashRefused(ScanFrom(sc, x, 0), |x|);
    var buf := x + ['#'] + rest;
    assert buf[..|x| + 1] == x + ['#'];
    ScanDies(false, buf, |x| + 1);
  }

  lemma HashRefused(sc: Scan, i: nat)
    requires sc.state == ReqServer
    ensures ScanChar(sc, '#', i).state == Dead
  {
  }

  // ----- the server part, cut up -----

  lemma {:induction false} UserinfoRun(parts: Parts, buf: Bytes, lo: nat, n: nat)
    requires lo < n <= |buf| && forall i :: lo <= i < n ==> IsUserinfoChar(buf[i])
    ensures ScanHost(parts, true, buf, lo, n) ==
            HostScan(InUserinfo, parts[Host := Slice(lo, 0)][Userinfo := Slice(lo, n - lo)])
    decreases n
  {
    hide IsUserinfoChar;
    assert IsUserinfoChar(buf[n - 1]) && buf[n - 1] != '@' by { NotAt(buf[n - 1]); }
    if lo < n - 1 {
      UserinfoRun(parts, buf, lo, n - 1);
      var p := parts[Host := Slice(lo, 0)];
      assert p[Userinfo := Slice(lo, n - 1 - lo)][Userinfo := Slice(lo, n - lo)] == p[Userinfo := Slice(lo, n - lo)];
    } else {
      assert ScanHost(parts, true, buf, lo, lo) == HostScan(UserinfoStart, parts[Host := Slice(lo, 0)]);
    }
  }

  lemma NotAt(c: Byte)
    ensures IsUserinfoChar(c) ==> c != '@'
    ensures IsHostChar(c) ==> c != '[' && c != ':'
    ensures IsV6Char(c) ==> c != ']'
  {
  }

  lemma {:induction false} HostRun(parts: Parts, at: bool, buf: Bytes, lo: nat, b: nat, n: nat, p: Parts)
    requires lo <= b < n <= |buf| && ScanHost(parts, at, buf, lo, b) == HostScan(HostStart, p)
    requires Host in p && p[Host].len == 0 && forall i :: b <= i < n ==> IsHostChar(buf[i])
    ensures ScanHost(parts, at, buf, lo, n) == HostScan(InHost, p[Host := Slice(b, n - b)])
    decreases n
  {
    hide IsHostChar, HostFitsState, IsUserinfoChar, IsV6Char, IsZoneChar;
    NotAt(buf[n - 1]);
    assert IsHostChar(buf[n - 1]);
    if b < n - 1 {
      HostRun(parts, at, buf, lo, b, n - 1, p);
      assert p[Host := Slice(b, n - 1 - b)][Host := Slice(b, n - b)] == p[Host := Slice(b, n - b)];
    }
  }

  lemma {:induction false} V6Run(parts: Parts, at: bool, buf: Bytes, lo: nat, b: nat, n: nat, p: Parts)
    requires lo <= b < n <= |buf| && ScanHost(parts, at, buf, lo, b) == HostScan(V6Start, p)
    requires Host in p && p[Host].len == 0 && forall i :: b <= i < n ==> IsV6Char(buf[i])
    ensures ScanHost(parts, at, buf, lo, n) == HostScan(InV6, p[Host := Slice(b, n - b)])
    decreases n
  {
    hide IsV6Char, IsUserinfoChar, IsHostChar, IsZoneChar;
    NotAt(buf[n - 1]);
    assert IsV6Char(buf[n - 1]);
    if b < n - 1 {
      V6Run(parts, at, buf, lo, b, n - 1, p);
      assert p[Host := Slice(b, n - 1 - b)][Host := Slice(b, n - b)] == p[Host := Slice(b, n - b)];
    }
  }

  lemma {:induction false} PortRun(parts: Parts, at: bool, buf: Bytes, lo: nat, b: nat, n: nat, p: Parts)
    requires lo <= b < n <= |buf| && ScanHost(parts, at, buf, lo, b) == HostScan(PortStart, p)
    requires forall i :: b <= i < n ==> IsNum(buf[i])
    ensures ScanHost(parts, at, buf, lo, n) == HostScan(InPort, p[Port := Slice(b, n - b)])
    decreases n
  {
    hide IsNum;
    if b < n - 1 {
      PortRun(parts, at, buf, lo, b, n - 1, p);
      assert p[Port := Slice(b, n - 1 - b)][Port := Slice(b, n - b)] == p[Port := Slice(b, n - b)];
    }
  }

  function HostAt(a: Address, lo: nat): nat { lo + |UserinfoText(a)| + (if a.v6 then 1 else 0) }
  function HostEnd(a: Address, lo: nat): nat { lo + |UserinfoText(a)| + |HostText(a)| }

  /** The parts of the server part at lo. */
  function ServerParts(parts: Parts, a: Address, lo: nat): Parts {
    var p0 := parts[Host := Slice(lo, 0)];
    var p1 := if a.userinfo.Some? then p0[Userinfo := Slice(lo, |a.userinfo.value|)] else p0;
    var p2 := p1[Host := Slice(HostAt(a, lo), |a.host|)];
    if a.port.Some? then p2[Port := Slice(HostEnd(a, lo) + 1, |a.port.value|)] else p2
  }

  /** buf has the text x at offset i. */
  predicate HasAt(buf: Bytes, x: Bytes, i: nat) { i + |x| <= |buf| && buf[i..i + |x|] == x }

  lemma HasParts(buf: Bytes, x: Bytes, y: Bytes, i: nat)
    requires HasAt(buf, x + y, i)
    ensures HasAt(buf, x, i) && HasAt(buf, y, i + |x|)
  {
    assert buf[i..i + |x|] == (x + y)[..|x|];
    assert buf[i + |x|..i + |x| + |y|] == (x + y)[|x|..];
  }

  lemma HasAre(buf: Bytes, x: Bytes, i: nat, ok: Byte -> bool)
    requires HasAt(buf, x, i) && AllAre(x, ok)
    ensures forall k :: i <= k < i + |x| ==> ok(buf[k])
  {
    forall k | i <= k < i + |x|
      ensures ok(buf[k])
    {
      assert buf[k] == x[k - i];
    }
  }

  lemma HasByte(buf: Bytes, c: Byte, i: nat)
    requires HasAt(buf, [c], i)
    ensures buf[i] == c
  {
    assert buf[i] == buf[i..i + 1][0];
  }

  lemma UserinfoPart(parts: Parts, a: Address, buf: Bytes, lo: nat)
    requires ValidServer(a) && HasAt(buf, UserinfoText(a), lo)
    ensures var p0 := parts[Host := Slice(lo, 0)];
            ScanHost(parts, a.userinfo.Some?, buf, lo, lo + |UserinfoText(a)|) ==
            HostScan(HostStart, if a.userinfo.Some? then p0[Userinfo := Slice(lo, |a.userinfo.value|)] else p0)
  {
    hide IsUserinfoChar;
    if a.userinfo.Some? {
      var u := a.userinfo.value;
      HasParts(buf, u, ['@'], lo);
      HasAre(buf, u, lo, IsUserinfoChar);
      HasByte(buf, '@', lo + |u|);
      UserinfoRun(parts, buf, lo, lo + |u|);
    }
  }

  lemma HostPart(parts: Parts, a: Address, buf: Bytes, lo: nat, b: nat, p: Parts)
    requires ValidServer(a) && lo <= b && HasAt(buf, HostText(a), b) && Host in p && p[Host].len == 0
    requires ScanHost(parts, a.userinfo.Some?, buf, lo, b) == HostScan(HostStart, p)
    ensures ScanHost(parts, a.userinfo.Some?, buf, lo, b + |HostText(a)|) ==
            HostScan(if a.v6 then V6End else InHost, p[Host := Slice(if a.v6 then b + 1 else b, |a.host|)])
  {
    hide IsHostChar, IsV6Char, HasAt, AllAre, ScanHost, HostScanChar;
    HasFits(buf, HostText(a), b);
    if a.v6 {
      V6Part(parts, a.userinfo.Some?, a.host, buf, lo, b, p);
    } else {
      HasAre(buf, a.host, b, IsHostChar);
      HostRun(parts, a.userinfo.Some?, buf, lo, b, b + |a.host|, p);
    }
  }

  lemma HostStep(parts: Parts, at: bool, buf: Bytes, lo: nat, n: nat)
    requires lo <= n < |buf|
    ensures ScanHost(parts, at, buf, lo, n + 1) == HostScanChar(ScanHost(parts, at, buf, lo, n), buf[n], n)
  {
    hide HostScanChar;
  }

  lemma Punctuation(p: Parts, s: HostState, i: nat)
    ensures HostScanChar(HostScan(HostStart, p), '[', i) == HostScan(V6Start, p)
    ensures HostScanChar(HostScan(InV6, p), ']', i) == HostScan(V6End, p)
    ensures s == InHost || s == V6End ==> HostScanChar(HostScan(s, p), ':', i) == HostScan(PortStart, p)
  {
  }

  lemma BracketsHas(buf: Bytes, host: Bytes, b: nat)
    requires HasAt(buf, ['['] + host + [']'], b)
    ensures HasAt(buf, host, b + 1) && buf[b] == '[' && buf[b + 1 + |host|] == ']'
  {
    HasParts(buf, ['['] + host, [']'], b);
    HasParts(buf, ['['], host, b);
    HasByte(buf, '[', b);
    HasByte(buf, ']', b + 1 + |host|);
  }

  lemma V6Part(parts: Parts, at: bool, host: Bytes, buf: Bytes, lo: nat, b: nat, p: Parts)
    requires host != [] && AllAre(host, IsV6Char)
    requires lo <= b && HasAt(buf, ['['] + host + [']'], b) && Host in p && p[Host].len == 0
    requires ScanHost(parts, at, buf, lo, b) == HostScan(HostStart, p)
    ensures ScanHost(parts, at, buf, lo, b + |host| + 2) == HostScan(V6End, p[Host := Slice(b + 1, |host|)])
  {
    hide IsHostChar, IsV6Char, HasAt, AllAre, ScanHost, HostScanChar;
    HasFits(buf, ['['] + host + [']'], b);
    BracketsHas(buf, host, b);
    HasAre(buf, host, b + 1, IsV6Char);
    BracketsCut(parts, at, buf, lo, b, |host|, p);
  }

  lemma BracketsCut(parts: Parts, at: bool, buf: Bytes, lo: nat, b: nat, len: nat, p: Parts)
    requires len > 0 && lo <= b && b + len + 2 <= |buf| && Host in p && p[Host].len == 0
    requires ScanHost(parts, at, buf, lo, b) == HostScan(HostStart, p)
    requires buf[b] == '[' && buf[b + 1 + len] == ']' && forall i :: b + 1 <= i < b + 1 + len ==> IsV6Char(buf[i])
    ensures ScanHost(parts, at, buf, lo, b + len + 2) == HostScan(V6End, p[Host := Slice(b + 1, len)])
  {
    hide IsV6Char, ScanHost, HostScanChar;
    HostStep(parts, at, buf, lo, b);
    Punctuation(p, HostStart, b);
    V6Run(parts, at, buf, lo, b + 1, b + 1 + len, p);
    HostStep(parts, at, buf, lo, b + 1 + len);
    Punctuation(p[Host := Slice(b + 1, len)], InV6, b + 1 + len);
  }

  lemma ColonPort(parts: Parts, at: bool, port: Bytes, buf: Bytes, lo: nat, b: nat, s: HostState, p: Parts)
    requires port != [] && AllAre(port, IsNum) && lo <= b && HasAt(buf, [':'] + port, b) && (s == InHost || s == V6End)
    requires ScanHost(parts, at, buf, lo, b) == HostScan(s, p)
    ensures ScanHost(parts, at, buf, lo, b + |port| + 1) == HostScan(InPort, p[Port := Slice(b + 1, |port|)])
  {
    hide IsNum, HasAt, AllAre, ScanHost, HostScanChar;
    HasFits(buf, [':'] + port, b);
    HasParts(buf, [':'], port, b);
    HasByte(buf, ':', b);
    HasAre(buf, port, b + 1, IsNum);
    HostStep(parts, at, buf, lo, b);
    Punctuation(p, s, b);
    PortRun(parts, at, buf, lo, b + 1, b + 1 + |port|, p);
  }

  lemma PortPart(parts: Parts, a: Address, buf: Bytes, lo: nat, b: nat, s: HostState, p: Parts)
    requires ValidServer(a) && lo <= b && HasAt(buf, PortText(a), b) && (s == InHost || s == V6End)
    requires ScanHost(parts, a.userinfo.Some?, buf, lo, b) == HostScan(s, p)
    ensures ScanHost(parts, a.userinfo.Some?, buf, lo, b + |PortText(a)|) ==
            if a.port.Some? then HostScan(InPort, p[Port := Slice(b + 1, |a.port.value|)]) else HostScan(s, p)
  {
    hide IsNum, HasAt, AllAre, ScanHost;
    HasFits(buf, PortText(a), b);
    if a.port.Some? {
      ColonPort(parts, a.userinfo.Some?, a.port.value, buf, lo, b, s, p);
    }
  }

  lemma ServerCut(parts: Parts, a: Address, buf: Bytes, lo: nat)
    requires ValidServer(a) && HasAt(buf, ServerText(a), lo)
    ensures var h := ScanHost(parts, a.userinfo.Some?, buf, lo, lo + |ServerText(a)|);
            HostMayEnd(h.state) && h.parts == ServerParts(parts, a, lo)
  {
    hide ScanHost, HostText, UserinfoText, PortText;
    HasParts(buf, UserinfoText(a) + HostText(a), PortText(a), lo);
    HasParts(buf, UserinfoText(a), HostText(a), lo);
    var b := lo + |UserinfoText(a)|;
    UserinfoPart(parts, a, buf, lo);
    var p1 := ScanHost(parts, a.userinfo.Some?, buf, lo, b).parts;
    HostPart(parts, a, buf, lo, b, p1);
    var h := ScanHost(parts, a.userinfo.Some?, buf, lo, b + |HostText(a)|);
    PortPart(parts, a, buf, lo, b + |HostText(a)|, h.state, h.parts);
  }

  // ----- the theorem -----

  /** The part p of the URL is exactly the text x (or is not there). */
  predicate IsPart(buf: Bytes, parts: Parts, p: Part, x: Option<Bytes>) {
    match x
    case None => p !in parts
    case Some(t) => p in parts && parts[p].End() <= |buf| && Cut(buf, parts[p]) == t
  }

  function NonEmpty(x: Bytes): Option<Bytes> { if x == [] then None else Some(x) }

  lemma AddressHas(a: Address)
    ensures var buf := AddressText(a);
            && HasAt(buf, a.schema, 0)
            && HasAt(buf, ServerText(a), ServerAt(a))
            && HasAt(buf, a.path, PathAt(a))
            && HasAt(buf, QueryText(a), QueryAt(a))
            && HasAt(buf, FragmentText(a), FragmentAt(a))
            && FragmentAt(a) + |FragmentText(a)| == |buf|
  {
    hide ServerText, QueryText, FragmentText;
    var buf := AddressText(a);
    var x1, x2, x3, x4 := FrontText(a), ServerText(a), QueryText(a), FragmentText(a);
    assert HasAt(buf, x1 + x2 + a.path + x3 + x4, 0) by { assert buf[0..|buf|] == buf; }
    HasParts(buf, x1 + x2 + a.path + x3, x4, 0);
    HasParts(buf, x1 + x2 + a.path, x3, 0);
    HasParts(buf, x1 + x2, a.path, 0);
    HasParts(buf, x1, x2, 0);
    HasParts(buf, a.schema, [':', '/', '/'], 0);
  }

  lemma ServerHas(a: Address, buf: Bytes, lo: nat)
    requires HasAt(buf, ServerText(a), lo)
    ensures a.userinfo.Some? ==> HasAt(buf, a.userinfo.value, lo)
    ensures HasAt(buf, a.host, HostAt(a, lo))
    ensures a.port.Some? ==> HasAt(buf, a.port.value, HostEnd(a, lo) + 1)
  {
    hide HasAt;
    HasParts(buf, UserinfoText(a) + HostText(a), PortText(a), lo);
    HasParts(buf, UserinfoText(a), HostText(a), lo);
    if a.userinfo.Some? { HasParts(buf, a.userinfo.value, ['@'], lo); }
    if a.v6 { BracketsHas(buf, a.host, lo + |UserinfoText(a)|); }
    if a.port.Some? { HasParts(buf, [':'], a.port.value, HostEnd(a, lo)); }
  }

  lemma TailHas(a: Address, buf: Bytes)
    requires HasAt(buf, QueryText(a), QueryAt(a)) && HasAt(buf, FragmentText(a), FragmentAt(a))
    ensures a.query.Some? ==> HasAt(buf, a.query.value, QueryAt(a) + 1)
    ensures a.fragment.Some? ==> HasAt(buf, a.fragment.value, FragmentAt(a) + 1)
  {
    if a.query.Some? { HasParts(buf, ['?'], a.query.value, QueryAt(a)); }
    if a.fragment.Some? { HasParts(buf, ['#'], a.fragment.value, FragmentAt(a)); }
  }

  /** Where the parts are. */
  lemma PartsAre(a: Address)
    ensures var parts := ServerParts(RoughParts(a), a, ServerAt(a));
            && Schema in parts && parts[Schema] == Slice(0, |a.schema|)
            && (if a.userinfo.Some? then Userinfo in parts && parts[Userinfo] == Slice(ServerAt(a), |a.userinfo.value|) else Userinfo !in parts)
            && Host in parts && parts[Host] == Slice(HostAt(a, ServerAt(a)), |a.host|)
            && (if a.port.Some? then Port in parts && parts[Port] == Slice(HostEnd(a, ServerAt(a)) + 1, |a.port.value|) else Port !in parts)
            && (if a.path != [] then Path in parts && parts[Path] == Slice(PathAt(a), |a.path|) else Path !in parts)
            && (if a.query.Some? then Query in parts && parts[Query] == Slice(QueryAt(a) + 1, |a.query.value|) else Query !in parts)
            && (if a.fragment.Some? then Fragment in parts && parts[Fragment] == Slice(FragmentAt(a) + 1, |a.fragment.value|) else Fragment !in parts)
  {
    hide ServerText, QueryText, FragmentText, UserinfoText, HostText, PortText, ServerAt, PathAt, QueryAt, FragmentAt, HostAt, HostEnd;
  }

  lemma PartHas(buf: Bytes, parts: Parts, p: Part, x: Bytes, i: nat)
    requires HasAt(buf, x, i) && p in parts && parts[p] == Slice(i, |x|)
    ensures IsPart(buf, parts, p, Some(x))
  {
  }

  /** What the two automata leave. */
  lemma FinalParts(a: Address)
    requires ValidAddress(a)
    ensures var parts := ServerParts(RoughParts(a), a, ServerAt(a));
            var buf := AddressText(a);
            && IsPart(buf, parts, Schema, Some(a.schema)) && IsPart(buf, parts, Userinfo, a.userinfo)
            && IsPart(buf, parts, Host, Some(a.host)) && IsPart(buf, parts, Port, a.port)
            && IsPart(buf, parts, Path, NonEmpty(a.path)) && IsPart(buf, parts, Query, a.query)
            && IsPart(buf, parts, Fragment, a.fragment)
  {
    hide AddressText, ServerText, QueryText, FragmentText, ValidAddress, HasAt, ServerParts, RoughParts, ServerAt, PathAt,
         QueryAt, FragmentAt, HostAt, HostEnd;
    var buf, lo := AddressText(a), ServerAt(a);
    var parts := ServerParts(RoughParts(a), a, lo);
    AddressHas(a);
    ServerHas(a, buf, lo);
    TailHas(a, buf);
    PartsAre(a);
    PartHas(buf, parts, Schema, a.schema, 0);
    PartHas(buf, parts, Host, a.host, HostAt(a, lo));
    if a.userinfo.Some? { PartHas(buf, parts, Userinfo, a.userinfo.value, lo); }
    if a.port.Some? { PartHas(buf, parts, Port, a.port.value, HostEnd(a, lo) + 1); }
    if a.path != [] { PartHas(buf, parts, Path, a.path, PathAt(a)); }
    if a.query.Some? { PartHas(buf, parts, Query, a.query.value, QueryAt(a) + 1); }
    if a.fragment.Some? { PartHas(buf, parts, Fragment, a.fragment.value, FragmentAt(a) + 1); }
  }

  lemma PortAtEnd(a: Address)
    requires a.port.Some?
    ensures HostEnd(a, ServerAt(a)) + 1 + |a.port.value| == PathAt(a)
  {
  }

  /** A URL put together from its parts is cut into those parts, and the port is its number. (The byte in memory
      after the URL must not be a digit if the URL ends with its port.) */
  lemma UrlRoundTrip(a: Address, beyond: Bytes)
    requires ValidAddress(a) && (a.port.Some? && PathAt(a) == |AddressText(a)| ==> DigitRun(beyond) == [])
    ensures Parsed(AddressText(a), false, beyond).Some?
    ensures var u, buf := Parsed(AddressText(a), false, beyond).value, AddressText(a);
            && IsPart(buf, u.parts, Schema, Some(a.schema)) && IsPart(buf, u.parts, Userinfo, a.userinfo)
            && IsPart(buf, u.parts, Host, Some(a.host)) && IsPart(buf, u.parts, Port, a.port)
            && IsPart(buf, u.parts, Path, NonEmpty(a.path)) && IsPart(buf, u.parts, Query, a.query)
            && IsPart(buf, u.parts, Fragment, a.fragment)
            && u.port == (if a.port.Some? then DecValue(a.port.value) else 0)
  {
    hide ScanUrl, ScanHost, ServerText, AddressText, ServerParts, WithPath, WithQuery, WithFragment, DecValue, Strtoul, HostMayEnd, HasAt, ServerAt;
    var buf := AddressText(a);
    var lo := ServerAt(a);
    AddressScan(a);
    AddressHas(a);
    RoughHost(a);
    var sc := ScanUrl(false, buf);
    HasFits(buf, ServerText(a), lo);
    ServerCut(sc.parts, a, buf, lo);
    FinalParts(a);
    var parts := ServerParts(sc.parts, a, lo);
    if a.port.Some? {
      PortOfAddress(a, beyond);
    }
  }

  lemma HasFits(buf: Bytes, x: Bytes, i: nat)
    requires HasAt(buf, x, i)
    ensures i + |x| <= |buf|
  {
  }

  lemma RoughHost(a: Address)
    ensures Schema in RoughParts(a) && Host in RoughParts(a) && RoughParts(a)[Host] == Slice(ServerAt(a), |ServerText(a)|)
  {
  }

  lemma PortOfAddress(a: Address, beyond: Bytes)
    requires ValidAddress(a) && a.port.Some? && (PathAt(a) == |AddressText(a)| ==> DigitRun(beyond) == [])
    ensures var buf := AddressText(a);
            var port := ServerParts(RoughParts(a), a, ServerAt(a))[Port];
            port.off <= |buf| && Strtoul(buf[port.off..] + beyond) == DecValue(a.port.value)
  {
    hide AddressText, ServerText, QueryText, FragmentText, RoughParts, ServerParts, DecValue, HasAt, AllAre, HostEnd, ServerAt, PathAt;
    var buf := AddressText(a);
    var port := Slice(HostEnd(a, ServerAt(a)) + 1, |a.port.value|);
    AddressHas(a);
    PartsAre(a);
    ServerHas(a, buf, ServerAt(a));
    HasFits(buf, a.port.value, port.off);
    HasAre(buf, a.port.value, port.off, IsNum);
    PortAtEnd(a);
    if port.End() < |buf| { AfterServer(a); }
    PortRead(buf, port, beyond);
    HasCut(buf, a.port.value, port.off);
    assert PortDigits(buf, port, beyond) == a.port.value;
  }

  lemma HasCut(buf: Bytes, x: Bytes, i: nat)
    requires HasAt(buf, x, i)
    ensures Cut(buf, Slice(i, |x|)) == x
  {
  }

  lemma AfterServer(a: Address)
    requires ValidAddress(a) && PathAt(a) < |AddressText(a)|
    ensures !IsNum(AddressText(a)[PathAt(a)])
  {
    hide ServerText, ValidServer, AllAre, HasAt, AddressText, FrontText;
    AddressHas(a);
    var buf := AddressText(a);
    if a.path != [] {
      HasFirst(buf, a.path, PathAt(a));
    } else if a.query.Some? {
      HasFirst(buf, QueryText(a), QueryAt(a));
    } else {
      HasFirst(buf, FragmentText(a), FragmentAt(a));
    }
  }

  lemma HasFirst(buf: Bytes, x: Bytes, i: nat)
    requires HasAt(buf, x, i) && x != []
    ensures buf[i] == x[0]
  {
    assert buf[i] == buf[i..i + |x|][0];
  }

  // ----- the other forms of a target -----

  /** A target in origin form (section 5.3.1 of RFC 7230), or with a fragment. */
  function OriginText(a: Address): Bytes { a.path + QueryText(a) + FragmentText(a) }

  function OriginParts(a: Address): Parts {
    WithFragment(WithQuery(WithPath(map[], a, 0), a, |a.path|), a, |a.path| + |QueryText(a)|)
  }

  lemma OriginScan(a: Address)
    requires ValidAddress(a) && a.path != []
    ensures var sc := ScanUrl(false, OriginText(a)); sc.state != Dead && sc.parts == OriginParts(a)
  {
    hide ScanFrom, ScanUrl, QueryText, FragmentText, AllAre, WithPath, WithQuery, WithFragment, ValidAddress, ScanChar, UrlChar;
    var sc, x, y := Scan(ReqSpacesBeforeUrl, None, map[], false), QueryText(a), FragmentText(a);
    ScanFromStart(false, OriginText(a));
    PathScan(sc, a, 0);
    var s1 := ScanFrom(sc, a.path, 0);
    QueryScan(s1, a, |a.path|);
    ScanFromSplit(sc, a.path, x, 0);
    var s2 := ScanFrom(s1, x, |a.path|);
    FragmentScan(s2, a, |a.path| + |x|);
    ScanFromSplit(sc, a.path + x, y, 0);
  }

  /** A target in origin form is cut back into its path, query and fragment, and has no other part. */
  lemma OriginRoundTrip(a: Address, beyond: Bytes)
    requires ValidAddress(a) && a.path != []
    ensures Parsed(OriginText(a), false, beyond).Some?
    ensures var u, buf := Parsed(OriginText(a), false, beyond).value, OriginText(a);
            && u.port == 0 && u.parts.Keys <= {Path, Query, Fragment}
            && IsPart(buf, u.parts, Path, Some(a.path)) && IsPart(buf, u.parts, Query, a.query)
            && IsPart(buf, u.parts, Fragment, a.fragment)
  {
    hide ScanUrl, ValidAddress;
    OriginScan(a);
    OriginCut(a);
    var parts := OriginParts(a);
    assert parts.Keys <= {Path, Query, Fragment} && Host !in parts && Port !in parts;
  }

  lemma OriginCut(a: Address)
    requires a.path != []
    ensures var buf, parts := OriginText(a), OriginParts(a);
            && IsPart(buf, parts, Path, Some(a.path)) && IsPart(buf, parts, Query, a.query)
            && IsPart(buf, parts, Fragment, a.fragment)
  {
    var buf, parts := OriginText(a), OriginParts(a);
    hide QueryText, FragmentText;
    assert buf == a.path + QueryText(a) + FragmentText(a);
    WholeThere(buf);
    HasParts(buf, a.path + QueryText(a), FragmentText(a), 0);
    HasParts(buf, a.path, QueryText(a), 0);
    TailAt(a, buf, |a.path|, |a.path| + |QueryText(a)|);
    hide HasAt;
    PartHas(buf, parts, Path, a.path, 0);
    if a.query.Some? { PartHas(buf, parts, Query, a.query.value, |a.path| + 1); }
    if a.fragment.Some? { PartHas(buf, parts, Fragment, a.fragment.value, |a.path| + |QueryText(a)| + 1); }
  }

  lemma TailAt(a: Address, buf: Bytes, i: nat, j: nat)
    requires HasAt(buf, QueryText(a), i) && HasAt(buf, FragmentText(a), j)
    ensures a.query.Some? ==> HasAt(buf, a.query.value, i + 1)
    ensures a.fragment.Some? ==> HasAt(buf, a.fragment.value, j + 1)
  {
    hide HasAt;
    if a.query.Some? { HasParts(buf, ['?'], a.query.value, i); }
    if a.fragment.Some? { HasParts(buf, ['#'], a.fragment.value, j); }
  }

  /** The target of CONNECT (section 5.3.3 of RFC 7230) is cut back into its host and its port. */
  lemma ConnectRoundTrip(a: Address, beyond: Bytes)
    requires ValidServer(a) && a.userinfo == None && a.port.Some? && DigitRun(beyond) == []
    ensures Parsed(ServerText(a), true, beyond).Some?
    ensures var u, buf := Parsed(ServerText(a), true, beyond).value, ServerText(a);
            && u.parts.Keys == {Host, Port} && IsPart(buf, u.parts, Host, Some(a.host)) && IsPart(buf, u.parts, Port, a.port)
            && u.port == DecValue(a.port.value)
  {
    hide ScanUrl, ScanHost, Strtoul, ServerText, ValidServer, HasAt, DecValue;
    var buf := ServerText(a);
    ConnectScan(a);
    var parts: Parts := map[Host := Slice(0, |buf|)];
    assert HasAt(buf, buf, 0) by { WholeThere(buf); }
    ServerCut(parts, a, buf, 0);
    ConnectParts(parts, a, buf, beyond);
  }

  lemma WholeThere(buf: Bytes)
    ensures HasAt(buf, buf, 0)
  {
    assert buf[0..|buf|] == buf;
  }

  lemma ConnectScan(a: Address)
    requires ValidServer(a) && a.userinfo == None
    ensures ScanUrl(true, ServerText(a)) == Scan(ReqServer, Some(Host), map[Host := Slice(0, |ServerText(a)|)], false)
  {
    hide ScanFrom, ScanUrl, ServerText, ValidServer;
    var sc := Scan(ReqServerStart, None, map[], false);
    ScanFromStart(true, ServerText(a));
    ServerScan(sc, a, 0);
    assert map[][Host := Slice(0, |ServerText(a)|)] == map[Host := Slice(0, |ServerText(a)|)];
  }

  /** Where the host and the port are, and what the port is. */
  lemma ConnectParts(parts: Parts, a: Address, buf: Bytes, beyond: Bytes)
    requires parts.Keys == {Host} && ValidServer(a) && a.userinfo == None && a.port.Some? && DigitRun(beyond) == [] && buf == ServerText(a)
    ensures var cut := ServerParts(parts, a, 0);
            && cut.Keys == {Host, Port} && IsPart(buf, cut, Host, Some(a.host)) && IsPart(buf, cut, Port, a.port)
            && cut[Port].off <= |buf| && Strtoul(buf[cut[Port].off..] + beyond) == DecValue(a.port.value) <= 0xffff
  {
    hide HasAt, IsPart, Strtoul, ServerText, ValidServer, HostAt, HostEnd, DecValue, DigitRun;
    var cut, port := ServerParts(parts, a, 0), a.port.value;
    WholeThere(buf);
    ServerHas(a, buf, 0);
    PartHas(buf, cut, Host, a.host, HostAt(a, 0));
    PartHas(buf, cut, Port, port, HostEnd(a, 0) + 1);
    ServerSize(a);
    LastPort(a, buf, HostEnd(a, 0) + 1, beyond);
  }

  lemma ServerSize(a: Address)
    requires a.port.Some?
    ensures |ServerText(a)| == HostEnd(a, 0) + 1 + |a.port.value|
  {
  }

  /** A port at the end, with no digit behind it. */
  lemma LastPort(a: Address, buf: Bytes, i: nat, beyond: Bytes)
    requires ValidServer(a) && a.port.Some? && DigitRun(beyond) == [] && HasAt(buf, a.port.value, i) && |buf| == i + |a.port.value|
    ensures Strtoul(buf[i..] + beyond) == DecValue(a.port.value) <= 0xffff
  {
    hide DecValue, DigitRun;
    var port := a.port.value;
    assert buf[i..] == port;
    DigitRunSplit(port, beyond);
    assert port + [] == port;
  }
}
