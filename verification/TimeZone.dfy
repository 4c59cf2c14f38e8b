/** Local time: the lookup of the offset in force, and the way back with its correction for daylight saving. */
module TimeZone {
  import opened Calendar

  datatype Transition = Transition(gmttime: int, localtime: int, localtimeIdx: nat)

  datatype Localtime = Localtime(gmtOffset: int, isDst: bool)

  datatype Zone = Zone(transitions: seq<Transition>, localtimes: seq<Localtime>)

  /** The key a transition is compared by. */
  function Key(t: Transition, compareGmt: bool): int { if compareGmt then t.gmttime else t.localtime }

  predicate Usable(z: Zone) {
    z.localtimes != [] && forall i :: 0 <= i < |z.transitions| ==> z.transitions[i].localtimeIdx < |z.localtimes|
  }

  /** The part of readTimeZoneFile that makes the transitions. */
  method MakeTransitions(trans: seq<int>, kinds: seq<nat>, localtimes: seq<Localtime>) returns (r: seq<Transition>)
    requires |kinds| == |trans| && forall i :: 0 <= i < |kinds| ==> kinds[i] < |localtimes|
    ensures |r| == |trans|
    ensures forall i :: 0 <= i < |r| ==>
              r[i].gmttime == trans[i] && r[i].localtimeIdx == kinds[i] &&
              r[i].localtime - r[i].gmttime == localtimes[kinds[i]].gmtOffset
  {
    r := [];
    for i := 0 to |trans|
      invariant |r| == i
      invariant forall j :: 0 <= j < i ==>
                  r[j].gmttime == trans[j] && r[j].localtimeIdx == kinds[j] &&
                  r[j].localtime - r[j].gmttime == localtimes[kinds[j]].gmtOffset
    {
      r := r + [Transition(trans[i], trans[i] + localtimes[kinds[i]].gmtOffset, kinds[i])];
    }
  }

  predicate Ascending(ts: seq<Transition>, compareGmt: bool) {
    forall i, j :: 0 <= i < j < |ts| ==> Key(ts[i], compareGmt) < Key(ts[j], compareGmt)
  }

  /** std::lower_bound: the first transition not before the key. */
  function LowerBound(ts: seq<Transition>, key: int, compareGmt: bool): (k: nat)
    ensures k <= |ts|
    ensures forall i :: 0 <= i < k ==> Key(ts[i], compareGmt) < key
    ensures k < |ts| ==> key <= Key(ts[k], compareGmt)
  {
    if ts == [] || Key(ts[0], compareGmt) >= key then 0 else 1 + LowerBound(ts[1..], key, compareGmt)
  }

  /** The search itself, on transitions in order. */
  method Search(ts: seq<Transition>, key: int, compareGmt: bool) returns (k: nat)
    requires Ascending(ts, compareGmt)
    ensures k == LowerBound(ts, key, compareGmt)
  {
    k := 0;
    var hi := |ts|;
    while k < hi
      invariant 0 <= k <= hi <= |ts|
      invariant forall i :: 0 <= i < k ==> Key(ts[i], compareGmt) < key
      invariant forall i :: hi <= i < |ts| ==> key <= Key(ts[i], compareGmt)
    {
      var mid := (k + hi) / 2;
      if Key(ts[mid], compareGmt) < key { k := mid + 1; } else { hi := mid; }
    }
    ghost var b := LowerBound(ts, key, compareGmt);
    assert b < |ts| ==> key <= Key(ts[b], compareGmt);
    assert k < |ts| ==> key <= Key(ts[k], compareGmt);
  }

  function FindLocaltime(z: Zone, key: int, compareGmt: bool): Localtime
    requires Usable(z)
  {
    var ts := z.transitions;
    if ts == [] || key < Key(ts[0], compareGmt) then z.localtimes[0]
    else
      var k := LowerBound(ts, key, compareGmt);
      if k < |ts| then
        var i := if key != Key(ts[k], compareGmt) then k - 1 else k;
        z.localtimes[ts[i].localtimeIdx]
      else z.localtimes[ts[|ts| - 1].localtimeIdx]
  }

  /** Transition i is the last one not after the key (-1: there is none). */
  predicate IsLast(ts: seq<Transition>, key: int, compareGmt: bool, i: int) {
    -1 <= i < |ts| && (i >= 0 ==> Key(ts[i], compareGmt) <= key) && (i + 1 < |ts| ==> key < Key(ts[i + 1], compareGmt))
  }

  function InForce(z: Zone, i: int): Localtime
    requires Usable(z) && -1 <= i < |z.transitions|
  {
    if i < 0 then z.localtimes[0] else z.localtimes[z.transitions[i].localtimeIdx]
  }

  /** The lookup finds what is in force after the last transition not after the key. */
  lemma FindsLast(z: Zone, key: int, compareGmt: bool, i: int)
    requires Usable(z) && Ascending(z.transitions, compareGmt) && IsLast(z.transitions, key, compareGmt, i)
    ensures FindLocaltime(z, key, compareGmt) == InForce(z, i)
  {
    var ts := z.transitions;
    var k := LowerBound(ts, key, compareGmt);
    if i >= 0 {
      assert !(key < Key(ts[0], compareGmt));
      assert k <= i + 1;
      assert k >= i;
    }
  }

  lemma {:induction false} LastExists(ts: seq<Transition>, key: int, compareGmt: bool) returns (i: int)
    ensures IsLast(ts, key, compareGmt, i)
  {
    if ts == [] {
      i := -1;
    } else if key < Key(ts[0], compareGmt) {
      i := -1;
    } else {
      i := LastExists(ts[1..], key, compareGmt);
      i := i + 1;
    }
  }

  // ----- local time -----

  datatype LocalTm = LocalTm(tm: Tm, isDst: bool, gmtOffset: int)

  function ToLocalTime(z: Zone, seconds: int): LocalTm
    requires Usable(z)
  {
    var local := FindLocaltime(z, seconds, true);
    LocalTm(ToUtcTime(seconds + local.gmtOffset), local.isDst, local.gmtOffset)
  }

  function Timegm(tm: Tm): int { FromUtcTime(tm.date, tm.hour, tm.min, tm.sec) }

  function FromLocalTime(z: Zone, l: LocalTm): int
    requires Usable(z)
  {
    var seconds := Timegm(l.tm);
    var local := FindLocaltime(z, seconds, false);
    var tryTm := ToLocalTime(z, seconds - local.gmtOffset);
    if l.isDst && !tryTm.isDst && tryTm.tm.hour == l.tm.hour && tryTm.tm.min == l.tm.min
    then seconds - 3600 - local.gmtOffset
    else seconds - local.gmtOffset
  }

  /** A zone that alternates between standard time, `base` ahead of UTC, in which it starts, and summer time, `shift`
      ahead of that; its transitions are further apart than the shift. */
  predicate Alternating(z: Zone, base: int, shift: int) {
    && Usable(z) && shift > 0 && z.localtimes[0] == Localtime(base, false)
    && (forall i :: 0 <= i < |z.transitions| ==>
          z.localtimes[z.transitions[i].localtimeIdx] == (if i % 2 == 0 then Localtime(base + shift, true) else Localtime(base, false)))
    && (forall i :: 0 <= i < |z.transitions| ==>
          z.transitions[i].localtime == z.transitions[i].gmttime + z.localtimes[z.transitions[i].localtimeIdx].gmtOffset)
    && (forall i :: 0 <= i < |z.transitions| - 1 ==> z.transitions[i].gmttime + shift < z.transitions[i + 1].gmttime)
  }

  lemma Ascends(z: Zone, base: int, shift: int, i: int, j: int)
    requires Alternating(z, base, shift) && 0 <= i < j < |z.transitions|
    ensures z.transitions[i].gmttime + shift < z.transitions[j].gmttime
    ensures z.transitions[i].localtime < z.transitions[j].localtime
    decreases j - i
  {
    if j > i + 1 { Ascends(z, base, shift, i, j - 1); }
    assert z.transitions[j - 1].gmttime + shift < z.transitions[j].gmttime;
  }

  lemma BothAscend(z: Zone, base: int, shift: int)
    requires Alternating(z, base, shift)
    ensures Ascending(z.transitions, true) && Ascending(z.transitions, false)
  {
    forall i, j | 0 <= i < j < |z.transitions|
      ensures z.transitions[i].gmttime < z.transitions[j].gmttime && z.transitions[i].localtime < z.transitions[j].localtime
    {
      Ascends(z, base, shift, i, j);
    }
  }

  /** t is in the last `shift` seconds of the summer time that transition i begins. */
  predicate RepeatedAt(z: Zone, shift: int, t: int, i: int) {
    0 <= i < |z.transitions| - 1 && i % 2 == 0 &&
    z.transitions[i].gmttime <= t < z.transitions[i + 1].gmttime <= t + shift
  }

  /** Its wall clock time comes again. */
  predicate Repeated(z: Zone, shift: int, t: int) { exists i {:trigger RepeatedAt(z, shift, t, i)} :: 0 <= i < |z.transitions| && RepeatedAt(z, shift, t, i) }

  lemma UtcThere(t: int)
    requires t >= FIRST
    ensures Timegm(ToUtcTime(t)) == t
  {
    hide ToUtcTime, FromUtcTime;
    UtcRoundTrip(t);
  }

  /** What the offset in force after transition i is. */
  lemma ForceIs(z: Zone, base: int, shift: int, i: int)
    requires Alternating(z, base, shift) && -1 <= i < |z.transitions|
    ensures InForce(z, i) == if i >= 0 && i % 2 == 0 then Localtime(base + shift, true) else Localtime(base, false)
  {
  }

  /** From wall clock back to t, when transition i is the last one at t. */
  lemma BackFrom(z: Zone, base: int, shift: int, t: int, i: int)
    requires Alternating(z, base, shift) && IsLast(z.transitions, t, true, i) && t + base >= FIRST
    ensures FromLocalTime(z, ToLocalTime(z, t)) ==
            if i >= 0 && i % 2 == 0 && i + 1 < |z.transitions| && z.transitions[i + 1].gmttime <= t + shift then t + shift - 3600 else t
  {
    hide ToUtcTime, FromUtcTime, Alternating, FindLocaltime;
    BothAscend(z, base, shift);
    assert Usable(z) by { AlternatingUsable(z, base, shift); }
    FindsLast(z, t, true, i);
    ForceIs(z, base, shift, i);
    var summer := i >= 0 && i % 2 == 0;
    var wall := t + InForce(z, i).gmtOffset;
    AlternatingUsable(z, base, shift);
    UtcThere(wall);
    if summer && i + 1 < |z.transitions| && z.transitions[i + 1].gmttime <= t + shift {
      RepeatedLookup(z, base, shift, t, i);
      FindsLast(z, wall, false, i + 1);
      FindsLast(z, t + shift, true, i + 1);
      ForceIs(z, base, shift, i + 1);
    } else {
      PlainLookup(z, base, shift, t, i);
      FindsLast(z, wall, false, i);
    }
  }

  lemma AlternatingUsable(z: Zone, base: int, shift: int)
    requires Alternating(z, base, shift)
    ensures Usable(z) && shift > 0
  {
  }

  lemma RepeatedLookup(z: Zone, base: int, shift: int, t: int, i: int)
    requires Alternating(z, base, shift) && IsLast(z.transitions, t, true, i)
    requires i >= 0 && i % 2 == 0 && i + 1 < |z.transitions| && z.transitions[i + 1].gmttime <= t + shift
    ensures IsLast(z.transitions, t + base + shift, false, i + 1) && IsLast(z.transitions, t + shift, true, i + 1)
  {
    assert z.transitions[i + 1].localtime == z.transitions[i + 1].gmttime + base;
    if i + 2 < |z.transitions| {
      Ascends(z, base, shift, i + 1, i + 2);
      assert z.transitions[i + 2].localtime == z.transitions[i + 2].gmttime + base + shift;
    }
  }

  lemma PlainLookup(z: Zone, base: int, shift: int, t: int, i: int)
    requires Alternating(z, base, shift) && IsLast(z.transitions, t, true, i)
    requires !(i >= 0 && i % 2 == 0 && i + 1 < |z.transitions| && z.transitions[i + 1].gmttime <= t + shift)
    ensures IsLast(z.transitions, t + InForce(z, i).gmtOffset, false, i)
  {
    ForceIs(z, base, shift, i);
    if i + 1 < |z.transitions| {
      ForceIs(z, base, shift, i + 1);
      assert z.transitions[i + 1].localtime == z.transitions[i + 1].gmttime + InForce(z, i + 1).gmtOffset;
    }
    if i >= 0 {
      assert z.transitions[i].localtime == z.transitions[i].gmttime + InForce(z, i).gmtOffset;
    }
  }

  lemma RepeatedIs(z: Zone, base: int, shift: int, t: int, i: int)
    requires Alternating(z, base, shift) && IsLast(z.transitions, t, true, i)
    ensures Repeated(z, shift, t) <==>
            i >= 0 && i % 2 == 0 && i + 1 < |z.transitions| && z.transitions[i + 1].gmttime <= t + shift
  {
    if Repeated(z, shift, t) {
      var j :| 0 <= j < |z.transitions| && RepeatedAt(z, shift, t, j);
      OnlyOneLast(z, base, shift, t, i, j);
    }
    if RepeatedAt(z, shift, t, i) {
      assert Repeated(z, shift, t);
    }
  }

  lemma OnlyOneLast(z: Zone, base: int, shift: int, t: int, i: int, j: int)
    requires Alternating(z, base, shift) && IsLast(z.transitions, t, true, i) && IsLast(z.transitions, t, true, j)
    ensures i == j
  {
    hide Alternating;
    AlternatingUsable(z, base, shift);
    if j < i && j + 1 < i { Ascends(z, base, shift, j + 1, i); }
    if i < j && i + 1 < j { Ascends(z, base, shift, i + 1, j); }
  }

  /** Wall clock time and flag lead back to the time they came from exactly when the time is not in a repeated
      stretch or the shift is one hour; a zone with another shift is wrong there by the difference. */
  lemma LocalRoundTrip(z: Zone, base: int, shift: int, t: int)
    requires Alternating(z, base, shift) && t + base >= FIRST
    ensures FromLocalTime(z, ToLocalTime(z, t)) == (if Repeated(z, shift, t) then t + shift - 3600 else t)
    ensures FromLocalTime(z, ToLocalTime(z, t)) == t <==> !Repeated(z, shift, t) || shift == 3600
  {
    hide Alternating, FromLocalTime, ToLocalTime, Repeated;
    AlternatingUsable(z, base, shift);
    var i := LastExists(z.transitions, t, true);
    BackFrom(z, base, shift, t, i);
    RepeatedIs(z, base, shift, t, i);
  }
}
