/** The timer queue: timers ordered by expiration, the same timers by identity for cancelling, callbacks that add and
    cancel while a batch is being run, addresses that are used again, and the arming of one timerfd. */
module TimerQueue {
  import opened Wrappers

  /** Addresses of Timer objects; UINTPTR_MAX is not one. */
  const UINTPTR_MAX: nat := 0xffff_ffff_ffff_ffff
  type Addr = a: nat | a < UINTPTR_MAX

  datatype Timer = Timer(expiration: int, repeats: bool, interval: nat, sequence: nat)

  datatype Entry = Entry(time: int, addr: nat)

  /** What a TimerId holds, and the key of activeTimers_. */
  datatype Id = Id(addr: Addr, sequence: nat)

  predicate Less(a: Entry, b: Entry) { a.time < b.time || (a.time == b.time && a.addr < b.addr) }

  // ----- std::set<Entry> -----

  predicate Sorted(ts: seq<Entry>) { forall i, j :: 0 <= i < j < |ts| ==> Less(ts[i], ts[j]) }

  function Inserted(ts: seq<Entry>, e: Entry): (r: seq<Entry>)
    ensures |r| == |ts| + 1 && r[0] == if ts == [] || Less(e, ts[0]) then e else ts[0]
  {
    if ts == [] || Less(e, ts[0]) then [e] + ts else [ts[0]] + Inserted(ts[1..], e)
  }

  function Erased(ts: seq<Entry>, e: Entry): seq<Entry> {
    if ts == [] then [] else if ts[0] == e then ts[1..] else [ts[0]] + Erased(ts[1..], e)
  }

  /** How many entries come before e. */
  function LowerBound(ts: seq<Entry>, e: Entry): (k: nat)
    ensures k <= |ts|
  {
    if ts == [] || !Less(ts[0], e) then 0 else 1 + LowerBound(ts[1..], e)
  }

  lemma {:induction false} InsertedIs(ts: seq<Entry>, e: Entry)
    requires Sorted(ts) && e !in ts
    ensures Sorted(Inserted(ts, e))
    ensures forall x :: x in Inserted(ts, e) <==> x in ts || x == e
  {
    if ts == [] || Less(e, ts[0]) {
    } else {
      var rest := ts[1..];
      assert ts == [ts[0]] + rest;
      InsertedIs(rest, e);
      var r := Inserted(rest, e);
      assert Less(ts[0], e);
      assert forall i :: 0 <= i < |r| ==> Less(ts[0], r[i]) by {
        forall i | 0 <= i < |r| ensures Less(ts[0], r[i]) {
          assert r[i] in r;
          if r[i] != e {
            var k :| 0 <= k < |rest| && rest[k] == r[i];
            assert ts[k + 1] == r[i];
          }
        }
      }
    }
  }

  lemma {:induction false} ErasedIs(ts: seq<Entry>, e: Entry)
    requires Sorted(ts)
    ensures Sorted(Erased(ts, e))
    ensures forall x :: x in Erased(ts, e) <==> x in ts && x != e
    ensures ts != [] && Erased(ts, e) != [] ==> Erased(ts, e)[0] == ts[0] || Less(ts[0], Erased(ts, e)[0])
  {
    if ts != [] {
      var rest := ts[1..];
      assert ts == [ts[0]] + rest;
      if ts[0] == e {
        forall x | x in rest ensures x != e {
          var k :| 0 <= k < |rest| && rest[k] == x;
          assert ts[k + 1] == x;
        }
      } else {
        ErasedIs(rest, e);
        var r := Erased(rest, e);
        forall i | 0 <= i < |r| ensures Less(ts[0], r[i]) {
          assert r[i] in r;
          var k :| 0 <= k < |rest| && rest[k] == r[i];
          assert ts[k + 1] == r[i];
        }
      }
    }
  }

  lemma {:induction false} LowerBoundIs(ts: seq<Entry>, e: Entry)
    requires Sorted(ts)
    ensures var k := LowerBound(ts, e);
            && (forall i :: 0 <= i < k ==> Less(ts[i], e))
            && (forall i :: k <= i < |ts| ==> !Less(ts[i], e))
  {
    if ts != [] {
      if Less(ts[0], e) {
        LowerBoundIs(ts[1..], e);
        assert forall i :: 1 <= i < |ts| ==> ts[i] == ts[1..][i - 1];
      } else {
        assert forall i :: 0 <= i < |ts| ==> ts[i] == ts[0] || Less(ts[0], ts[i]);
      }
    }
  }

  // ----- the queue -----

  /** timerfd_settime at time `at` for `target`: at least 100 microseconds ahead. */
  datatype Arming = Arming(at: int, target: int) {
    function Deadline(): int { if target - at < 100 then at + 100 else target }
  }

  datatype Queue = Queue(memory: map<Addr, Timer>,   // the Timer objects that have not been deleted
                         numCreated: nat,
                         adding: set<Addr>,          // created, addTimerInLoop still to come
                         timers: seq<Entry>,
                         active: set<Id>,
                         calling: bool,
                         expired: seq<Entry>, now: int,  // of the handleRead() that is calling
                         canceling: set<Id>,
                         armed: Option<Arming>,
                         deleted: seq<nat>)          // sequence numbers of deleted timers, in order

  function Start(): Queue { Queue(map[], 0, {}, [], {}, false, [], 0, {}, None, []) }

  function IdAt(s: Queue, a: Addr): Id
    requires a in s.memory
  {
    Id(a, s.memory[a].sequence)
  }

  /** new Timer(...) in addTimer, by any thread, at an address the allocator picks. */
  function Create(s: Queue, a: Addr, when: int, repeats: bool, interval: nat): Queue {
    s.(memory := s.memory[a := Timer(when, repeats, interval, s.numCreated + 1)],
       numCreated := s.numCreated + 1, adding := s.adding + {a})
  }

  function Insert(s: Queue, a: Addr): Queue
    requires a in s.memory
  {
    s.(timers := Inserted(s.timers, Entry(s.memory[a].expiration, a)), active := s.active + {IdAt(s, a)})
  }

  predicate EarliestChanges(s: Queue, a: Addr)
    requires a in s.memory
  {
    s.timers == [] || s.memory[a].expiration < s.timers[0].time
  }

  /** addTimerInLoop; `clock` is the time at which the timerfd is set. */
  function Add(s: Queue, a: Addr, clock: int): Queue
    requires a in s.memory
  {
    var t := Insert(s, a).(adding := s.adding - {a});
    if EarliestChanges(s, a) then t.(armed := Some(Arming(clock, s.memory[a].expiration))) else t
  }

  function Delete(s: Queue, a: Addr): Queue
    requires a in s.memory
  {
    s.(memory := s.memory - {a}, deleted := s.deleted + [s.memory[a].sequence])
  }

  /** cancelInLoop */
  function Cancel(s: Queue, id: Id): Queue {
    if id in s.active && id.addr in s.memory then
      var t := s.(timers := Erased(s.timers, Entry(s.memory[id.addr].expiration, id.addr)), active := s.active - {id});
      Delete(t, id.addr)
    else if s.calling then s.(canceling := s.canceling + {id})
    else s
  }

  function EraseIds(active: set<Id>, memory: map<Addr, Timer>, es: seq<Entry>): set<Id> {
    if es == [] then active
    else
      var e := es[|es| - 1];
      var rest := EraseIds(active, memory, es[..|es| - 1]);
      if e.addr < UINTPTR_MAX && e.addr in memory then rest - {Id(e.addr, memory[e.addr].sequence)} else rest
  }

  /** handleRead, up to the callbacks. */
  function BeginRead(s: Queue, now: int): Queue {
    var k := LowerBound(s.timers, Entry(now, UINTPTR_MAX));
    s.(armed := None, timers := s.timers[k..], expired := s.timers[..k], now := now,
       active := EraseIds(s.active, s.memory, s.timers[..k]), calling := true, canceling := {})
  }

  /** One round of the loop in reset. */
  function ResetOne(s: Queue, e: Entry): Queue {
    if !(e.addr < UINTPTR_MAX && e.addr in s.memory) then s
    else
      var t := s.memory[e.addr];
      if t.repeats && Id(e.addr, t.sequence) !in s.canceling
      then Insert(s.(memory := s.memory[e.addr := t.(expiration := s.now + t.interval)]), e.addr)
      else Delete(s, e.addr)
  }

  /** expired holds the entries that are still to be reset. */
  function ResetAll(s: Queue): Queue
    decreases |s.expired|
  {
    if s.expired == [] then s else ResetAll(ResetOne(s, s.expired[0]).(expired := s.expired[1..]))
  }

  /** handleRead, after the callbacks. */
  function EndRead(s: Queue, clock: int): Queue {
    var t := ResetAll(s.(calling := false));
    if t.timers != [] && t.timers[0].time > 0 then t.(armed := Some(Arming(clock, t.timers[0].time))) else t
  }

  // ----- the invariant -----

  predicate AddrOk(e: Entry) { e.addr < UINTPTR_MAX }

  /** timers_ and activeTimers_ hold the same timers, each keyed by its current expiration. */
  predicate SameTimers(s: Queue) {
    && Sorted(s.timers)
    && (forall e :: e in s.timers ==> AddrOk(e) && e.addr in s.memory && s.memory[e.addr].expiration == e.time && IdAt(s, e.addr) in s.active)
    && (forall id :: id in s.active ==> id.addr in s.memory && IdAt(s, id.addr) == id && Entry(s.memory[id.addr].expiration, id.addr) in s.timers)
  }

  predicate InBatch(s: Queue, a: Addr) { exists i :: 0 <= i < |s.expired| && s.expired[i].addr == a }

  predicate IsActive(s: Queue, a: Addr) { a in s.memory && IdAt(s, a) in s.active }

  /** Every timer that is not deleted is waiting to be added, or active, or in the batch: exactly one of these. */
  predicate OnePlace(s: Queue) {
    && (forall i :: 0 <= i < |s.expired| ==> AddrOk(s.expired[i]) && s.expired[i].addr in s.memory && !IsActive(s, s.expired[i].addr))
    && (forall i, j :: 0 <= i < j < |s.expired| ==> s.expired[i].addr != s.expired[j].addr)
    && (forall a :: a in s.adding ==> a in s.memory && !IsActive(s, a) && !InBatch(s, a))
    && (forall a :: a in s.memory ==> a in s.adding || IsActive(s, a) || InBatch(s, a))
  }

  predicate NoTwice(ds: seq<nat>) { forall i, j :: 0 <= i < j < |ds| ==> ds[i] != ds[j] }

  /** Every timer ever created has its own number, and is live or deleted, once. */
  predicate Numbered(s: Queue) {
    && (forall a, b :: a in s.memory && b in s.memory && s.memory[a].sequence == s.memory[b].sequence ==> a == b)
    && (forall a :: a in s.memory ==> 1 <= s.memory[a].sequence <= s.numCreated && s.memory[a].sequence !in s.deleted)
    && NoTwice(s.deleted)
    && (forall n :: n in s.deleted ==> 1 <= n <= s.numCreated)
    && (forall n :: 1 <= n <= s.numCreated ==> n in s.deleted || Lives(s, n))
  }

  predicate Lives(s: Queue, n: nat) { exists a :: a in s.memory && s.memory[a].sequence == n }

  /** The timerfd will fire in time for the earliest timer; while a batch is run, for a timer that is already due. */
  predicate Armed(s: Queue) {
    s.timers != [] && (s.calling ==> s.timers[0].time < s.now) ==> s.armed.Some? && s.armed.value.target <= s.timers[0].time
  }

  predicate Ok(s: Queue) {
    SameTimers(s) && OnePlace(s) && Numbered(s) && (!s.calling ==> s.expired == []) && (s.calling ==> s.now > 0)
  }

  // ----- actions and runs -----

  datatype Action =
    | DoCreate(a: Addr, when: int, repeats: bool, interval: nat)
    | DoAdd(a: Addr, clock: int)
    | DoCancel(id: Id)
    | DoBegin(now: int)
    | DoEnd(clock: int)

  /** Time is after the epoch when handleRead reads the clock. */
  predicate Enabled(s: Queue, x: Action) {
    match x
    case DoCreate(a, _, _, _) => a !in s.memory
    case DoAdd(a, _) => a in s.adding && a in s.memory
    case DoCancel(_) => true
    case DoBegin(now) => !s.calling && now > 0
    case DoEnd(_) => s.calling
  }

  function Next(s: Queue, x: Action): Queue
    requires Enabled(s, x)
  {
    match x
    case DoCreate(a, when, repeats, interval) => Create(s, a, when, repeats, interval)
    case DoAdd(a, clock) => Add(s, a, clock)
    case DoCancel(id) => Cancel(s, id)
    case DoBegin(now) => BeginRead(s, now)
    case DoEnd(clock) => EndRead(s, clock)
  }

  // ----- Create -----

  lemma CreateOk(s: Queue, a: Addr, when: int, repeats: bool, interval: nat)
    requires Ok(s) && a !in s.memory
    ensures Ok(Create(s, a, when, repeats, interval))
  {
    var t := Create(s, a, when, repeats, interval);
    assert forall b :: b in s.memory ==> b in t.memory && t.memory[b] == s.memory[b];
    CreatePlaces(s, t, a);
    CreateNumbers(s, t, a);
  }

  lemma CreatePlaces(s: Queue, t: Queue, a: Addr)
    requires SameTimers(s) && OnePlace(s) && a !in s.memory
    requires t.timers == s.timers && t.active == s.active && t.expired == s.expired && t.adding == s.adding + {a}
    requires t.memory.Keys == s.memory.Keys + {a} && forall b :: b in s.memory ==> t.memory[b] == s.memory[b]
    ensures SameTimers(t) && OnePlace(t)
  {
    assert forall b :: b in s.memory ==> (IsActive(t, b) <==> IsActive(s, b));
    assert forall b :: InBatch(t, b) <==> InBatch(s, b);
    assert !IsActive(t, a) && !InBatch(t, a);
  }

  lemma CreateNumbers(s: Queue, t: Queue, a: Addr)
    requires Numbered(s) && a !in s.memory && t.deleted == s.deleted && t.numCreated == s.numCreated + 1
    requires t.memory.Keys == s.memory.Keys + {a} && t.memory[a].sequence == s.numCreated + 1
    requires forall b :: b in s.memory ==> t.memory[b] == s.memory[b]
    ensures Numbered(t)
  {
    forall n | 1 <= n <= t.numCreated
      ensures n in t.deleted || Lives(t, n)
    {
      if n == t.numCreated {
        assert a in t.memory && t.memory[a].sequence == n;
      } else if n !in s.deleted {
        var b :| b in s.memory && s.memory[b].sequence == n;
        assert b in t.memory && t.memory[b].sequence == n;
      }
    }
  }

  // ----- Insert -----

  /** Putting a timer that is nowhere in both indexes. */
  lemma InsertSame(s: Queue, a: Addr)
    requires SameTimers(s) && a in s.memory && !IsActive(s, a)
    ensures SameTimers(Insert(s, a))
    ensures Entry(s.memory[a].expiration, a) !in s.timers
    ensures forall b :: b in s.memory ==> (IsActive(Insert(s, a), b) <==> b == a || IsActive(s, b))
  {
    var e := Entry(s.memory[a].expiration, a);
    assert e !in s.timers;
    InsertedIs(s.timers, e);
    var t := Insert(s, a);
    assert forall b :: b in s.memory ==> IdAt(t, b) == IdAt(s, b);
  }

  lemma AddPlaces(s: Queue, a: Addr, clock: int)
    requires SameTimers(s) && OnePlace(s) && a in s.adding && a in s.memory
    ensures SameTimers(Add(s, a, clock)) && OnePlace(Add(s, a, clock))
  {
    hide SameTimers, Inserted, Sorted, Less;
    InsertSame(s, a);
    var t, u := Add(s, a, clock), Insert(s, a);
    assert t.memory == s.memory && t.expired == s.expired && t.adding == s.adding - {a};
    assert t.timers == u.timers && t.active == u.active && t.memory == u.memory;
    assert SameTimers(t) by { SameFields(u, t); }
    assert forall b :: b in s.memory ==> (IsActive(t, b) <==> IsActive(u, b));
    assert forall b :: InBatch(t, b) <==> InBatch(s, b);
  }

  lemma SameFields(s: Queue, t: Queue)
    requires SameTimers(s) && t.memory == s.memory && t.timers == s.timers && t.active == s.active
    ensures SameTimers(t)
  {
    assert forall b :: b in s.memory ==> IdAt(t, b) == IdAt(s, b);
  }

  lemma AddOk(s: Queue, a: Addr, clock: int)
    requires Ok(s) && a in s.adding && a in s.memory
    ensures Ok(Add(s, a, clock))
  {
    hide SameTimers, OnePlace, Numbered;
    AddPlaces(s, a, clock);
    SameNumbers(s, Add(s, a, clock));
  }

  lemma SameNumbers(s: Queue, t: Queue)
    requires Numbered(s) && t.numCreated == s.numCreated && t.deleted == s.deleted
    requires t.memory.Keys == s.memory.Keys && forall a :: a in s.memory ==> t.memory[a].sequence == s.memory[a].sequence
    ensures Numbered(t)
  {
    forall n | 1 <= n <= t.numCreated
      ensures n in t.deleted || Lives(t, n)
    {
      if n !in s.deleted {
        var b :| b in s.memory && s.memory[b].sequence == n;
        assert b in t.memory && t.memory[b].sequence == n;
      }
    }
  }

  // ----- Delete and Cancel -----

  lemma DeleteNumbers(s: Queue, a: Addr)
    requires Numbered(s) && a in s.memory
    ensures Numbered(Delete(s, a))
  {
    var t := Delete(s, a);
    assert t.deleted[|s.deleted|] == s.memory[a].sequence;
    assert forall n :: n in t.deleted <==> n in s.deleted || n == s.memory[a].sequence;
    forall n | 1 <= n <= t.numCreated
      ensures n in t.deleted || Lives(t, n)
    {
      if n !in t.deleted {
        var b :| b in s.memory && s.memory[b].sequence == n;
        assert b in t.memory && t.memory[b].sequence == n;
      }
    }
  }

  lemma CancelOk(s: Queue, id: Id)
    requires Ok(s)
    ensures Ok(Cancel(s, id))
  {
    var t := Cancel(s, id);
    if id in s.active {
      CancelSame(s, id);
      CancelPlaces(s, id);
      var m := s.(timers := Erased(s.timers, Entry(s.memory[id.addr].expiration, id.addr)), active := s.active - {id});
      assert Numbered(m) by { SameNumbers(s, m); }
      DeleteNumbers(m, id.addr);
    } else {
      assert SameTimers(t) && OnePlace(t) by { SamePlaces(s, t); }
      assert Numbered(t) by { SameNumbers(s, t); }
    }
  }

  lemma SamePlaces(s: Queue, t: Queue)
    requires SameTimers(s) && OnePlace(s)
    requires t.memory == s.memory && t.adding == s.adding && t.timers == s.timers && t.active == s.active && t.expired == s.expired
    ensures SameTimers(t) && OnePlace(t)
  {
    assert forall b :: b in s.memory ==> (IsActive(t, b) <==> IsActive(s, b));
    assert forall b :: InBatch(t, b) <==> InBatch(s, b);
  }

  lemma CancelSame(s: Queue, id: Id)
    requires SameTimers(s) && id in s.active
    ensures SameTimers(Cancel(s, id))
  {
    var e := Entry(s.memory[id.addr].expiration, id.addr);
    ErasedIs(s.timers, e);
    var t := Cancel(s, id);
    assert t.active == s.active - {id} && t.memory == s.memory - {id.addr};
    forall x | x in t.timers
      ensures AddrOk(x) && x.addr in t.memory && t.memory[x.addr].expiration == x.time && IdAt(t, x.addr) in t.active
    {
      assert x in s.timers && x != e;
      assert x.addr != id.addr;
    }
    forall y | y in t.active
      ensures y.addr in t.memory && IdAt(t, y.addr) == y && Entry(t.memory[y.addr].expiration, y.addr) in t.timers
    {
      assert y in s.active && y.addr != id.addr;
    }
  }

  lemma CancelPlaces(s: Queue, id: Id)
    requires SameTimers(s) && OnePlace(s) && id in s.active
    ensures OnePlace(Cancel(s, id))
  {
    var t := Cancel(s, id);
    assert IsActive(s, id.addr);
    assert forall b :: b in t.memory ==> (IsActive(t, b) <==> IsActive(s, b)) by {
      assert forall b :: b in t.memory ==> IdAt(t, b) == IdAt(s, b) && b != id.addr;
    }
    assert forall b :: InBatch(t, b) <==> InBatch(s, b);
  }

  // ----- BeginRead -----

  lemma {:induction false} EraseIdsIs(active: set<Id>, memory: map<Addr, Timer>, es: seq<Entry>)
    ensures forall id :: id in EraseIds(active, memory, es) <==>
                      id in active && !(exists i :: 0 <= i < |es| && es[i].addr == id.addr && id.addr in memory && memory[id.addr].sequence == id.sequence)
  {
    if es != [] {
      var p := es[..|es| - 1];
      EraseIdsIs(active, memory, p);
      var e := es[|es| - 1];
      forall id | id in active
        ensures id in EraseIds(active, memory, es) <==>
                !(exists i :: 0 <= i < |es| && es[i].addr == id.addr && id.addr in memory && memory[id.addr].sequence == id.sequence)
      {
        if i :| 0 <= i < |p| && p[i].addr == id.addr && id.addr in memory && memory[id.addr].sequence == id.sequence {
          assert es[i] == p[i];
        }
      }
    }
  }

  lemma DueFirst(s: Queue, now: int)
    requires SameTimers(s)
    ensures var k := LowerBound(s.timers, Entry(now, UINTPTR_MAX));
            forall i :: 0 <= i < |s.timers| ==> (i < k <==> s.timers[i].time <= now)
  {
    var k := LowerBound(s.timers, Entry(now, UINTPTR_MAX));
    LowerBoundIs(s.timers, Entry(now, UINTPTR_MAX));
    forall i | 0 <= i < |s.timers|
      ensures i < k <==> s.timers[i].time <= now
    {
      assert s.timers[i] in s.timers;
      assert AddrOk(s.timers[i]);
    }
  }

  /** The batch is exactly the timers due by `now`, in order. */
  lemma ExpiredExactly(s: Queue, now: int)
    requires SameTimers(s)
    ensures var t := BeginRead(s, now);
            && t.expired + t.timers == s.timers
            && (forall e :: e in t.expired ==> e.time <= now)
            && (forall e :: e in t.timers ==> now < e.time)
            && (forall e :: e in t.expired <==> e in s.timers && e.time <= now)
  {
    hide SameTimers, EraseIds, LowerBound;
    DueFirst(s, now);
    var ts, k := s.timers, LowerBound(s.timers, Entry(now, UINTPTR_MAX));
    var a, b := ts[..k], ts[k..];
    assert a + b == ts;
    forall e | e in b ensures now < e.time {
      var i :| 0 <= i < |b| && b[i] == e;
      assert ts[k + i] == e;
    }
    forall e | e in a ensures e.time <= now && e in ts {
      var i :| 0 <= i < |a| && a[i] == e;
      assert ts[i] == e;
    }
    forall e | e in ts && e.time <= now ensures e in a {
      var i :| 0 <= i < |ts| && ts[i] == e;
      assert a[i] == e;
    }
  }

  lemma BeginOk(s: Queue, now: int)
    requires Ok(s) && !s.calling && now > 0
    ensures Ok(BeginRead(s, now))
  {
    var t := BeginRead(s, now);
    ExpiredExactly(s, now);
    EraseIdsIs(s.active, s.memory, t.expired);
    AddrsDiffer(s);
    BeginActive(s, now);
    assert Numbered(t) by { SameNumbers(s, t); }
    BeginSame(s, now);
    BeginPlaces(s, now);
  }

  /** Two entries are of two timers. */
  lemma AddrsDiffer(s: Queue)
    requires SameTimers(s)
    ensures forall i, j :: 0 <= i < j < |s.timers| ==> s.timers[i].addr != s.timers[j].addr
  {
    forall i, j | 0 <= i < j < |s.timers|
      ensures s.timers[i].addr != s.timers[j].addr
    {
      assert s.timers[i] in s.timers && s.timers[j] in s.timers;
    }
  }

  lemma BeginActive(s: Queue, now: int)
    requires SameTimers(s) && !s.calling
    ensures var t := BeginRead(s, now);
            forall b :: b in s.memory ==> (IsActive(t, b) <==> IsActive(s, b) && !InBatch(t, b))
  {
    var t := BeginRead(s, now);
    EraseIdsIs(s.active, s.memory, t.expired);
  }

  /** A timer that is left is not in the batch. */
  lemma LeftNotInBatch(s: Queue, now: int, e: Entry)
    requires SameTimers(s) && e in BeginRead(s, now).timers && e.addr < UINTPTR_MAX
    ensures !InBatch(BeginRead(s, now), e.addr)
  {
    hide EraseIds, LowerBound, Sorted;
    ExpiredExactly(s, now);
    var t := BeginRead(s, now);
    AddrsDiffer(s);
    var k := |t.expired|;
    var j :| 0 <= j < |t.timers| && t.timers[j] == e;
    assert s.timers[k + j] == e;
    forall i | 0 <= i < k
      ensures t.expired[i].addr != e.addr
    {
      assert t.expired[i] == s.timers[i];
    }
  }

  lemma BeginSame(s: Queue, now: int)
    requires SameTimers(s) && !s.calling
    ensures SameTimers(BeginRead(s, now))
  {
    hide EraseIds, LowerBound;
    var t := BeginRead(s, now);
    ExpiredExactly(s, now);
    BeginActive(s, now);
    BeginSorted(s, now);
    hide BeginRead, Sorted;
    assert t.memory == s.memory by { BeginFields(s, now); }
    forall e | e in t.timers
      ensures AddrOk(e) && e.addr in t.memory && t.memory[e.addr].expiration == e.time && IdAt(t, e.addr) in t.active
    {
      assert e in t.expired + t.timers;
      LeftNotInBatch(s, now, e);
      assert IsActive(s, e.addr);
      assert IsActive(t, e.addr);
    }
    forall id | id in t.active
      ensures id.addr in t.memory && IdAt(t, id.addr) == id && Entry(t.memory[id.addr].expiration, id.addr) in t.timers
    {
      StillActive(s, now, id);
      var e := Entry(s.memory[id.addr].expiration, id.addr);
      NotExpired(t, id.addr, e);
      assert e in t.expired + t.timers;
    }
  }

  lemma NotExpired(t: Queue, a: Addr, e: Entry)
    requires !InBatch(t, a) && e.addr == a
    ensures e !in t.expired
  {
  }

  lemma BeginFields(s: Queue, now: int)
    ensures var t := BeginRead(s, now);
            t.memory == s.memory && t.adding == s.adding && t.numCreated == s.numCreated && t.deleted == s.deleted
  {
  }

  lemma StillActive(s: Queue, now: int, id: Id)
    requires SameTimers(s) && !s.calling && id in BeginRead(s, now).active
    ensures id in s.active && IdAt(s, id.addr) == id && !InBatch(BeginRead(s, now), id.addr)
  {
    var t := BeginRead(s, now);
    EraseIdsIs(s.active, s.memory, t.expired);
    BeginActive(s, now);
    assert IsActive(t, id.addr);
  }

  lemma BeginSorted(s: Queue, now: int)
    requires SameTimers(s)
    ensures Sorted(BeginRead(s, now).timers)
  {
  }

  lemma BeginPlaces(s: Queue, now: int)
    requires Ok(s) && !s.calling
    ensures OnePlace(BeginRead(s, now))
  {
    var t := BeginRead(s, now);
    ExpiredExactly(s, now);
    BeginActive(s, now);
    AddrsDiffer(s);
    assert forall i :: 0 <= i < |t.expired| ==> t.expired[i] == s.timers[i];
    forall i | 0 <= i < |t.expired|
      ensures AddrOk(t.expired[i]) && t.expired[i].addr in t.memory && InBatch(t, t.expired[i].addr) && IsActive(s, t.expired[i].addr)
    {
      assert t.expired[i] in s.timers;
    }
    forall a | a in t.adding
      ensures !InBatch(t, a)
    {
      assert forall i :: 0 <= i < |t.expired| ==> t.expired[i].addr != a;
    }
    assert forall a :: a in s.memory ==> a in s.adding || IsActive(s, a) by {
      assert forall a :: !InBatch(s, a);
    }
  }

  // ----- reset -----

  predicate Restarts(s: Queue, a: Addr)
    requires a in s.memory
  {
    s.memory[a].repeats && IdAt(s, a) !in s.canceling
  }

  /** The first timer of the batch is put back or deleted. */
  function ResetFirst(s: Queue): Queue
    requires s.expired != []
  {
    ResetOne(s, s.expired[0]).(expired := s.expired[1..])
  }

  lemma RestartSame(s: Queue, a: Addr, t: Timer)
    requires SameTimers(s) && a in s.memory && !IsActive(s, a) && t.sequence == s.memory[a].sequence
    ensures var u := s.(memory := s.memory[a := t]);
            SameTimers(u) && !IsActive(u, a) && forall b :: b in s.memory ==> (IsActive(u, b) <==> IsActive(s, b))
  {
    var u := s.(memory := s.memory[a := t]);
    assert forall b :: b in s.memory ==> IdAt(u, b) == IdAt(s, b);
    forall e | e in u.timers
      ensures AddrOk(e) && e.addr in u.memory && u.memory[e.addr].expiration == e.time && IdAt(u, e.addr) in u.active
    {
      assert IsActive(s, e.addr);
    }
    forall id | id in u.active
      ensures id.addr in u.memory && IdAt(u, id.addr) == id && Entry(u.memory[id.addr].expiration, id.addr) in u.timers
    {
      assert IsActive(s, id.addr);
    }
  }

  lemma DeleteSame(s: Queue, a: Addr)
    requires SameTimers(s) && a in s.memory && !IsActive(s, a)
    ensures SameTimers(Delete(s, a))
    ensures forall b :: b in Delete(s, a).memory ==> (IsActive(Delete(s, a), b) <==> IsActive(s, b))
  {
    var u := Delete(s, a);
    assert forall b :: b in u.memory ==> IdAt(u, b) == IdAt(s, b) && b != a;
    forall e | e in u.timers
      ensures AddrOk(e) && e.addr in u.memory && u.memory[e.addr].expiration == e.time && IdAt(u, e.addr) in u.active
    {
      assert IsActive(s, e.addr);
    }
    forall id | id in u.active
      ensures id.addr in u.memory && IdAt(u, id.addr) == id && Entry(u.memory[id.addr].expiration, id.addr) in u.timers
    {
      assert IsActive(s, id.addr);
    }
  }

  /** What one round does, and to whom. */
  lemma ResetFirstIs(s: Queue)
    requires SameTimers(s) && OnePlace(s) && s.expired != []
    ensures var a: Addr := s.expired[0].addr;
            var r := ResetFirst(s);
            && SameTimers(r)
            && (forall b :: b in s.memory && b != a ==> b in r.memory && r.memory[b] == s.memory[b] && (IsActive(r, b) <==> IsActive(s, b)))
            && (forall b :: b in r.memory ==> b in s.memory)
            && (if Restarts(s, a)
                then a in r.memory && r.memory[a] == s.memory[a].(expiration := s.now + s.memory[a].interval) && IsActive(r, a) && r.deleted == s.deleted
                else a !in r.memory && r.deleted == s.deleted + [s.memory[a].sequence])
            && r.canceling == s.canceling && r.now == s.now && r.adding == s.adding && r.expired == s.expired[1..] && r.armed == s.armed
            && r.numCreated == s.numCreated
  {
    hide Inserted, Sorted;
    var e := s.expired[0];
    var a: Addr := e.addr;
    var r := ResetFirst(s);
    if Restarts(s, a) {
      var t := s.memory[a].(expiration := s.now + s.memory[a].interval);
      RestartSame(s, a, t);
      var u := s.(memory := s.memory[a := t]);
      InsertSame(u, a);
      SameFields(Insert(u, a), r);
      assert forall b :: b in s.memory ==> (IsActive(r, b) <==> IsActive(Insert(u, a), b));
    } else {
      DeleteSame(s, a);
      SameFields(Delete(s, a), r);
      assert forall b :: b in r.memory ==> (IsActive(r, b) <==> IsActive(Delete(s, a), b));
    }
  }

  lemma ResetFirstPlaces(s: Queue)
    requires SameTimers(s) && OnePlace(s) && s.expired != []
    ensures OnePlace(ResetFirst(s))
  {
    ResetFirstIs(s);
    hide ResetFirst;
    var a: Addr := s.expired[0].addr;
    var r := ResetFirst(s);
    assert InBatch(s, a);
    assert forall i :: 0 <= i < |r.expired| ==> r.expired[i] == s.expired[i + 1];
    forall b | InBatch(r, b)
      ensures InBatch(s, b) && b != a
    {
      var i :| 0 <= i < |r.expired| && r.expired[i].addr == b;
      assert s.expired[i + 1].addr == b;
    }
    forall b | InBatch(s, b) && b != a
      ensures InBatch(r, b)
    {
      var i :| 0 <= i < |s.expired| && s.expired[i].addr == b;
      assert r.expired[i - 1].addr == b;
    }
  }

  lemma ResetFirstNumbers(s: Queue)
    requires SameTimers(s) && OnePlace(s) && Numbered(s) && s.expired != []
    ensures Numbered(ResetFirst(s))
  {
    hide Numbered;
    var e := s.expired[0];
    var a: Addr := e.addr;
    var r := ResetFirst(s);
    ResetFirstIs(s);
    if Restarts(s, a) {
      assert forall b :: b in s.memory ==> r.memory[b].sequence == s.memory[b].sequence;
      SameNumbers(s, r);
    } else {
      DeleteNumbers(s, a);
      SameNumbers(Delete(s, a), r);
    }
  }

  /** While a batch is run the timerfd looks after what became due before `now`. */
  predicate ArmedForDue(s: Queue) {
    s.timers != [] && s.timers[0].time < s.now ==> s.armed.Some? && s.armed.value.target <= s.timers[0].time
  }

  lemma ResetFirstArmed(s: Queue)
    requires SameTimers(s) && OnePlace(s) && s.expired != [] && ArmedForDue(s)
    ensures ArmedForDue(ResetFirst(s))
  {
  }

  lemma {:induction false} ResetOk(s: Queue)
    requires SameTimers(s) && OnePlace(s) && Numbered(s) && ArmedForDue(s)
    ensures var r := ResetAll(s);
            SameTimers(r) && OnePlace(r) && Numbered(r) && ArmedForDue(r) && r.expired == [] && r.now == s.now && r.calling == s.calling
    decreases |s.expired|
  {
    hide SameTimers, OnePlace, Numbered, ResetOne, ArmedForDue;
    if s.expired != [] {
      ResetFirstIs(s);
      ResetFirstPlaces(s);
      ResetFirstNumbers(s);
      ResetFirstArmed(s);
      ResetOk(ResetFirst(s));
      ResetCalling(s);
    }
  }

  lemma ResetCalling(s: Queue)
    requires s.expired != []
    ensures ResetFirst(s).calling == s.calling
  {
  }

  lemma EndOk(s: Queue, clock: int)
    requires Ok(s) && s.calling && Armed(s)
    ensures Ok(EndRead(s, clock)) && Armed(EndRead(s, clock))
  {
    hide SameTimers, OnePlace, Numbered, ResetAll;
    var q := s.(calling := false);
    assert SameTimers(q) by { SameFields(s, q); }
    assert OnePlace(q) by { SamePlaces(s, q); }
    assert Numbered(q) by { SameNumbers(s, q); }
    ResetOk(q);
    var t, r := ResetAll(q), EndRead(s, clock);
    assert SameTimers(r) by { SameFields(t, r); }
    assert OnePlace(r) by { SamePlaces(t, r); }
    assert Numbered(r) by { SameNumbers(t, r); }
  }

  // ----- the other steps keep the timerfd armed -----

  lemma AddArmed(s: Queue, a: Addr, clock: int)
    requires SameTimers(s) && a in s.memory && !IsActive(s, a) && Armed(s)
    ensures Armed(Add(s, a, clock))
  {
    InsertSame(s, a);
  }

  lemma CancelArmed(s: Queue, id: Id)
    requires SameTimers(s) && Armed(s)
    ensures Armed(Cancel(s, id))
  {
    if id in s.active {
      ErasedIs(s.timers, Entry(s.memory[id.addr].expiration, id.addr));
    }
  }

  lemma BeginArmed(s: Queue, now: int)
    requires SameTimers(s)
    ensures Armed(BeginRead(s, now))
  {
    ExpiredExactly(s, now);
    var t := BeginRead(s, now);
    if t.timers != [] { assert t.timers[0] in t.timers; }
  }

  // ----- all runs -----

  lemma StepOk(s: Queue, x: Action)
    requires Ok(s) && Armed(s) && Enabled(s, x)
    ensures Ok(Next(s, x)) && Armed(Next(s, x))
  {
    hide SameTimers, Numbered, Create, Add, Cancel, BeginRead, EndRead;
    match x {
      case DoCreate(a, when, repeats, interval) => { CreateOk(s, a, when, repeats, interval); CreateArmed(s, a, when, repeats, interval); }
      case DoAdd(a, clock) => { AddOk(s, a, clock); AddArmed(s, a, clock); }
      case DoCancel(id) => { CancelOk(s, id); CancelArmed(s, id); }
      case DoBegin(now) => { BeginOk(s, now); BeginArmed(s, now); }
      case DoEnd(clock) => EndOk(s, clock);
    }
  }

  lemma CreateArmed(s: Queue, a: Addr, when: int, repeats: bool, interval: nat)
    requires Armed(s)
    ensures Armed(Create(s, a, when, repeats, interval))
  {
  }

  predicate IsRun(s: Queue, xs: seq<Action>)
    decreases |xs|, 0
  {
    xs == [] || (IsRun(s, xs[..|xs| - 1]) && Enabled(After(s, xs[..|xs| - 1]), xs[|xs| - 1]))
  }

  function After(s: Queue, xs: seq<Action>): Queue
    requires IsRun(s, xs)
    decreases |xs|, 1
  {
    if xs == [] then s else Next(After(s, xs[..|xs| - 1]), xs[|xs| - 1])
  }

  /** In every reachable state the two indexes agree, every live timer is in one place, and every timer created is
      live or was deleted once; outside handleRead a non-empty queue has the timerfd set no later than its earliest
      timer or 100 microseconds after it was set. */
  lemma {:induction false} RunOk(xs: seq<Action>)
    requires IsRun(Start(), xs)
    ensures Ok(After(Start(), xs)) && Armed(After(Start(), xs))
  {
    hide Next, Enabled, Ok, Armed;
    if xs != [] {
      RunOk(xs[..|xs| - 1]);
      StepOk(After(Start(), xs[..|xs| - 1]), xs[|xs| - 1]);
    } else {
      StartOk();
    }
  }

  lemma StartOk()
    ensures Ok(Start()) && Armed(Start())
  {
  }

  lemma FiresInTime(xs: seq<Action>)
    requires IsRun(Start(), xs)
    ensures var s := After(Start(), xs);
            !s.calling && s.timers != [] ==>
              s.armed.Some? && s.armed.value.Deadline() <=
                (if s.timers[0].time > s.armed.value.at + 100 then s.timers[0].time else s.armed.value.at + 100)
  {
    RunOk(xs);
  }

  lemma NoneActive(s: Queue)
    requires SameTimers(s) && s.timers == []
    ensures s.active == {}
  {
  }

  /** The size assertions of the source. */
  lemma {:induction false} SameSize(s: Queue)
    requires SameTimers(s)
    ensures |s.timers| == |s.active|
    decreases |s.timers|
  {
    if s.timers == [] {
      NoneActive(s);
    } else {
      var e := s.timers[0];
      assert e in s.timers;
      var t := s.(timers := s.timers[1..], active := s.active - {IdAt(s, e.addr)});
      assert s.timers == [e] + t.timers;
      assert forall b :: b in s.memory ==> IdAt(t, b) == IdAt(s, b);
      forall x | x in t.timers
        ensures IdAt(t, x.addr) in t.active
      {
        var i :| 0 <= i < |t.timers| && t.timers[i] == x;
        assert Less(e, s.timers[i + 1]) && x in s.timers;
      }
      SameSize(t);
    }
  }

  // ----- cancelling -----

  /** A TimerId whose timer is gone, even if its address is in use again, cancels nothing: all timers stay. */
  lemma StaleIdHarmless(s: Queue, id: Id)
    requires Ok(s) && !(id.addr in s.memory && IdAt(s, id.addr) == id)
    ensures Cancel(s, id) == if s.calling then s.(canceling := s.canceling + {id}) else s
  {
  }

  /** A TimerId in use cancels its own timer and no other. */
  lemma CancelsItsTimer(s: Queue, id: Id)
    requires Ok(s) && id in s.active
    ensures var t := Cancel(s, id);
            && t.active == s.active - {id} && t.memory == s.memory - {id.addr} && t.deleted == s.deleted + [id.sequence]
            && (forall e :: e in t.timers <==> e in s.timers && e.addr != id.addr)
  {
    var e := Entry(s.memory[id.addr].expiration, id.addr);
    ErasedIs(s.timers, e);
  }

  lemma {:induction false} ResetFrame(s: Queue, a: Addr)
    requires SameTimers(s) && OnePlace(s) && a in s.memory && !InBatch(s, a)
    ensures var r := ResetAll(s);
            a in r.memory && r.memory[a] == s.memory[a] && (IsActive(r, a) <==> IsActive(s, a))
    decreases |s.expired|
  {
    hide SameTimers, OnePlace, ResetOne, IsActive;
    if s.expired != [] {
      ResetFirstIs(s);
      ResetFirstPlaces(s);
      assert s.expired[0].addr != a by { NotFirst(s, a); }
      NotInRest(s, a);
      ResetFrame(ResetFirst(s), a);
    }
  }

  lemma NotFirst(s: Queue, a: Addr)
    requires s.expired != [] && !InBatch(s, a)
    ensures s.expired[0].addr != a
  {
  }

  lemma NotInRest(s: Queue, a: Addr)
    requires s.expired != [] && !InBatch(s, a)
    ensures !InBatch(ResetFirst(s), a)
  {
    var r := ResetFirst(s);
    forall i | 0 <= i < |r.expired|
      ensures r.expired[i].addr != a
    {
      assert r.expired[i] == s.expired[i + 1];
    }
  }

  lemma {:induction false} DeletedStays(s: Queue, n: nat)
    requires SameTimers(s) && OnePlace(s) && n in s.deleted
    ensures n in ResetAll(s).deleted
    decreases |s.expired|
  {
    hide SameTimers, OnePlace, ResetOne;
    if s.expired != [] {
      ResetFirstIs(s);
      ResetFirstPlaces(s);
      DeletedStays(ResetFirst(s), n);
    }
  }

  /** After a batch: a repeating timer that was not cancelled meanwhile is back for now + interval; every other timer
      of the batch is deleted. */
  lemma {:induction false} BatchOutcome(s: Queue, i: nat)
    requires SameTimers(s) && OnePlace(s) && i < |s.expired|
    ensures var a: Addr := s.expired[i].addr;
            var r := ResetAll(s);
            if Restarts(s, a)
            then a in r.memory && r.memory[a] == s.memory[a].(expiration := s.now + s.memory[a].interval) && IsActive(r, a)
            else s.memory[a].sequence in r.deleted
    decreases |s.expired|
  {
    hide SameTimers, ResetOne;
    ResetFirstIs(s);
    ResetFirstPlaces(s);
    var r := ResetFirst(s);
    var a: Addr := s.expired[i].addr;
    if i == 0 {
      if Restarts(s, a) {
        assert !InBatch(r, a);
        ResetFrame(r, a);
      } else {
        assert r.deleted[|s.deleted|] == s.memory[a].sequence;
        DeletedStays(r, s.memory[a].sequence);
      }
    } else {
      assert s.expired[0].addr != s.expired[i].addr;
      assert r.expired[i - 1] == s.expired[i];
      BatchOutcome(r, i - 1);
    }
  }

  /** So a timer of the batch that a callback cancels is never put back. */
  lemma CancelledNotRestarted(s: Queue, i: nat, clock: int)
    requires Ok(s) && s.calling && i < |s.expired|
    ensures var a: Addr := s.expired[i].addr;
            && IdAt(s, a) in Cancel(s, IdAt(s, a)).canceling
            && (IdAt(s, a) in s.canceling ==> s.memory[a].sequence in EndRead(s, clock).deleted)
  {
    var a: Addr := s.expired[i].addr;
    var q := s.(calling := false);
    assert SameTimers(q) by { SameFields(s, q); }
    assert OnePlace(q) by { SamePlaces(s, q); }
    BatchOutcome(q, i);
  }

  /** Until the batch ends nothing takes a timer out of it or out of the set of cancelled ones. */
  lemma BatchStays(s: Queue, x: Action, i: nat)
    requires Ok(s) && Armed(s) && s.calling && Enabled(s, x) && !x.DoEnd? && i < |s.expired|
    ensures var t := Next(s, x);
            var a: Addr := s.expired[i].addr;
            && t.calling && t.expired == s.expired && s.canceling <= t.canceling
            && a in t.memory && t.memory[a] == s.memory[a]
  {
    hide Sorted, Numbered, Erased, Inserted;
    assert !IsActive(s, s.expired[i].addr);
  }

  lemma {:induction false} BatchStaysRun(s: Queue, xs: seq<Action>, i: nat)
    requires Ok(s) && Armed(s) && s.calling && i < |s.expired| && IsRun(s, xs) && forall k :: 0 <= k < |xs| ==> !xs[k].DoEnd?
    ensures var t := After(s, xs);
            var a: Addr := s.expired[i].addr;
            && Ok(t) && Armed(t) && t.calling && t.expired == s.expired && s.canceling <= t.canceling
            && a in t.memory && t.memory[a] == s.memory[a]
  {
    hide Next, Enabled, Armed;
    if xs != [] {
      var ys := xs[..|xs| - 1];
      BatchStaysRun(s, ys, i);
      var t := After(s, ys);
      StepOk(t, xs[|xs| - 1]);
      BatchStays(t, xs[|xs| - 1], i);
    }
  }

  /** From any point of a batch: cancel one of its timers, go on in any way, end the batch: the timer is deleted. */
  lemma CancelInBatchSticks(s: Queue, i: nat, xs: seq<Action>, clock: int)
    requires Ok(s) && Armed(s) && s.calling && i < |s.expired|
    requires var c := Cancel(s, IdAt(s, s.expired[i].addr)); IsRun(c, xs)
    requires forall k :: 0 <= k < |xs| ==> !xs[k].DoEnd?
    ensures var c := Cancel(s, IdAt(s, s.expired[i].addr));
            s.memory[s.expired[i].addr].sequence in EndRead(After(c, xs), clock).deleted
  {
    hide SameTimers, Numbered, EndRead;
    var a: Addr := s.expired[i].addr;
    var c := Cancel(s, IdAt(s, a));
    assert !IsActive(s, a);
    CancelOk(s, IdAt(s, a));
    BatchStaysRun(c, xs, i);
    CancelledNotRestarted(After(c, xs), i, clock);
  }

  // ----- the class -----

  class TimerQueueObject {
    var memory: map<Addr, Timer>
    var numCreated: nat
    var adding: set<Addr>
    var timers: seq<Entry>
    var activeTimers: set<Id>
    var callingExpiredTimers: bool
    var expired: seq<Entry>
    var now: int
    var cancelingTimers: set<Id>
    var timerfd: Option<Arming>
    var deleted: seq<nat>

    function State(): Queue
      reads this
    {
      Queue(memory, numCreated, adding, timers, activeTimers, callingExpiredTimers, expired, now, cancelingTimers,
            timerfd, deleted)
    }

    ghost predicate Valid()
      reads this
    {
      Ok(State()) && Armed(State())
    }

    constructor ()
      ensures Valid() && State() == Start()
    {
      memory, numCreated, adding, timers, activeTimers := map[], 0, {}, [], {};
      callingExpiredTimers, expired, now, cancelingTimers, timerfd, deleted := false, [], 0, {}, None, [];
    }

    /** The part of addTimer that runs in the calling thread; the allocator gives an address that is free. */
    method NewTimer(a: Addr, when: int, repeats: bool, interval: nat) returns (id: Id)
      requires Valid() && a !in memory
      modifies this
      ensures Valid() && State() == Create(old(State()), a, when, repeats, interval) && id == IdAt(State(), a)
    {
      hide SameTimers, OnePlace, Numbered, Armed;
      StepOk(State(), DoCreate(a, when, repeats, interval));
      numCreated := numCreated + 1;
      memory := memory[a := Timer(when, repeats, interval, numCreated)];
      adding := adding + {a};
      return Id(a, numCreated);
    }

    method InsertTimer(a: Addr) returns (earliestChanged: bool)
      requires a in memory
      modifies this`timers, this`activeTimers
      ensures State() == Insert(old(State()), a) && earliestChanged == EarliestChanges(old(State()), a)
    {
      var when := memory[a].expiration;
      earliestChanged := timers == [] || when < timers[0].time;
      timers := Inserted(timers, Entry(when, a));
      activeTimers := activeTimers + {Id(a, memory[a].sequence)};
    }

    method AddTimerInLoop(a: Addr, clock: int)
      requires Valid() && a in adding
      modifies this
      ensures Valid() && State() == Add(old(State()), a, clock)
    {
      AddingLives(State(), a);
      hide SameTimers, OnePlace, Numbered, Armed;
      StepOk(State(), DoAdd(a, clock));
      adding := adding - {a};
      var earliestChanged := InsertTimer(a);
      if earliestChanged {
        timerfd := Some(Arming(clock, memory[a].expiration));
      }
    }

    method DeleteTimer(a: Addr)
      requires a in memory
      modifies this`memory, this`deleted
      ensures State() == Delete(old(State()), a)
    {
      deleted := deleted + [memory[a].sequence];
      memory := memory - {a};
    }

    method CancelInLoop(id: Id)
      requires Valid()
      modifies this
      ensures Valid() && State() == Cancel(old(State()), id)
    {
      hide SameTimers, OnePlace, Numbered, Armed;
      StepOk(State(), DoCancel(id));
      ActiveLives(State());
      if id in activeTimers {
        timers := Erased(timers, Entry(memory[id.addr].expiration, id.addr));
        DeleteTimer(id.addr);
        activeTimers := activeTimers - {id};
      } else if callingExpiredTimers {
        cancelingTimers := cancelingTimers + {id};
      }
    }

    method GetExpired(t: int) returns (es: seq<Entry>)
      requires SameTimers(State())
      modifies this`timers, this`activeTimers
      ensures var s := old(State());
              var k := LowerBound(s.timers, Entry(t, UINTPTR_MAX));
              es == s.timers[..k] && timers == s.timers[k..] && activeTimers == EraseIds(s.active, s.memory, es)
    {
      var k := LowerBound(timers, Entry(t, UINTPTR_MAX));
      es := timers[..k];
      timers := timers[k..];
      ghost var before := activeTimers;
      for i := 0 to |es|
        invariant activeTimers == EraseIds(before, memory, es[..i]) && timers == old(timers)[k..]
      {
        assert old(timers)[i] in old(timers);
        activeTimers := activeTimers - {Id(es[i].addr, memory[es[i].addr].sequence)};
        assert es[..i + 1][..i] == es[..i];
      }
      assert es[..|es|] == es;
    }

    /** handleRead, up to the callbacks. */
    method BeginHandleRead(t: int)
      requires Valid() && !callingExpiredTimers && t > 0
      modifies this
      ensures Valid() && State() == BeginRead(old(State()), t)
    {
      hide SameTimers, OnePlace, Numbered, Armed, LowerBound;
      StepOk(State(), DoBegin(t));
      BeforeBegin(State());
      SameFields(State(), State().(now := t, armed := None));
      now := t;
      timerfd := None;
      expired := GetExpired(t);
      callingExpiredTimers := true;
      cancelingTimers := {};
    }

    /** The body of the loop in reset, for the timer at a. */
    method ResetTimer(e: Entry)
      requires e.addr < UINTPTR_MAX && e.addr in memory
      modifies this`memory, this`timers, this`activeTimers, this`deleted
      ensures State() == ResetOne(old(State()), e)
    {
      var a: Addr := e.addr;
      if memory[a].repeats && Id(a, memory[a].sequence) !in cancelingTimers {
        memory := memory[a := memory[a].(expiration := now + memory[a].interval)];
        var _ := InsertTimer(a);
      } else {
        DeleteTimer(a);
      }
    }

    /** handleRead, after the callbacks: reset. */
    method EndHandleRead(clock: int)
      requires Valid() && callingExpiredTimers
      modifies this
      ensures Valid() && State() == EndRead(old(State()), clock)
    {
      hide ResetOne, SameTimers, OnePlace, Numbered, Armed, EndRead;
      StepOk(State(), DoEnd(clock));
      assert SameTimers(State().(calling := false)) && OnePlace(State().(calling := false)) by {
        SameFields(State(), State().(calling := false));
        SamePlaces(State(), State().(calling := false));
      }
      callingExpiredTimers := false;
      ghost var whole := State();
      while expired != []
        invariant SameTimers(State()) && OnePlace(State()) && ResetAll(State()) == ResetAll(whole)
        decreases |expired|
      {
        ResetFirstIs(State());
        ResetFirstPlaces(State());
        BatchLives(State());
        ResetTimer(expired[0]);
        expired := expired[1..];
      }
      assert State() == EndRead(old(State()), clock).(armed := State().armed) by { EndReadIs(old(State()), clock); }
      EndReadIs(old(State()), clock);
      if timers != [] && timers[0].time > 0 {
        timerfd := Some(Arming(clock, timers[0].time));
      }
    }
  }

  lemma AddingLives(s: Queue, a: Addr)
    requires OnePlace(s) && a in s.adding
    ensures a in s.memory
  {
  }

  lemma ActiveLives(s: Queue)
    requires SameTimers(s)
    ensures forall id :: id in s.active ==> id.addr in s.memory && s.memory[id.addr].sequence == id.sequence
  {
    forall id | id in s.active ensures id.addr in s.memory && s.memory[id.addr].sequence == id.sequence {
      assert IdAt(s, id.addr) == id;
    }
  }

  lemma BeforeBegin(s: Queue)
    requires Ok(s) && !s.calling
    ensures s.expired == [] && SameTimers(s)
  {
  }

  lemma BatchLives(s: Queue)
    requires OnePlace(s) && s.expired != []
    ensures s.expired[0].addr < UINTPTR_MAX && s.expired[0].addr in s.memory
  {
  }

  lemma EndReadIs(s: Queue, clock: int)
    ensures var t := ResetAll(s.(calling := false));
            EndRead(s, clock) == if t.timers != [] && t.timers[0].time > 0 then t.(armed := Some(Arming(clock, t.timers[0].time))) else t
  {
  }
}
