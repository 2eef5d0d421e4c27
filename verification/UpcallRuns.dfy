/**
 * Runs of the upcall cache: any number of threads getting, putting, answering and flushing
 * entries in any order.
 */
module UpcallRuns {
  import opened Prelude
  import opened UpcallCache
  import opened UpcallSteps

  /** A step's outcome: the new state, and the entry a get returned with it. */
  datatype Out = Out(s: State, got: Option<nat>)

  function Quiet(s: State): Out { Out(s, None) }

  // ---------------------------------------------------------------- the end of a get

  /** The checks after an acquisition, at time `now`; the thread is waiting for its entry. */
  function Finish(s: State, t: nat, now: int): Out
    requires Inv(s) && t in s.threads && s.threads[t].Waiting?
  {
    var Waiting(key, e, created) := s.threads[t];
    ThreadHolds(s, t, e);
    if s.c.entries[e].invalid then Quiet(SetPc(s, t, Idle).(c := PutRef(s.c, e)))
    else
      var (d, gone) := CheckUnlink(s.c, e, now);
      CheckHeld(s, t, e, now);
      if gone && !created then Quiet(SetPc(s, t, Searching(key, None)).(c := PutRef(d, e)))
      else Out(SetPc(s, t, Idle).(c := d, held := s.held + multiset{e}), Some(e))
  }

  lemma CheckHeld(s: State, t: nat, e: nat, now: int)
    requires Inv(s) && t in s.threads && Holds(s.threads[t], e)
    ensures Shaped(s.c) && e in s.c.entries
    ensures var (d, gone) := CheckUnlink(s.c, e, now);
      && Shaped(d) && e in d.entries && d.entries[e] == s.c.entries[e].(expired := d.entries[e].expired)
      && d.entries[e].ref > 0 && Inv(s.(c := d)) && (!gone ==> d == s.c)
  {
    ThreadHolds(s, t, e);
    Parts(s);
    CheckShed(s.c, e, now);
    hide Inv, CacheOk, RefsOk, ThreadsOk, UpcallsOk;
    ShedInv(s, CheckUnlink(s.c, e, now).0);
  }

  lemma FinishInv(s: State, t: nat, now: int)
    requires Inv(s) && t in s.threads && s.threads[t].Waiting?
    ensures Inv(Finish(s, t, now).s)
  {
    hide Inv, CheckUnlink, PutRef;
    var Waiting(key, e, created) := s.threads[t];
    ThreadHolds(s, t, e);
    CheckHeld(s, t, e, now);
    if s.c.entries[e].invalid {
      DropInv(s, t, e, Idle);
    } else {
      var (d, gone) := CheckUnlink(s.c, e, now);
      var u := s.(c := d);
      if gone && !created { DropInv(u, t, e, Searching(key, None)); } else { HandInv(u, t, e); }
    }
  }

  /** What a get hands to its caller. */
  ghost predicate Good(s: State, key: nat, e: nat, created: bool, now: int) {
    && e in s.c.entries && s.c.entries[e].key == key && s.c.entries[e].ref > 0 && e in s.held
    && !s.c.entries[e].invalid && !s.c.entries[e].acquiring && !s.c.entries[e].isNew
    && (!created ==> !s.c.entries[e].expired && now < s.c.entries[e].expire)
  }

  lemma FinishGood(s: State, t: nat, now: int)
    requires Inv(s) && t in s.threads && s.threads[t].Waiting? && Finish(s, t, now).got.Some?
    requires s.threads[t].e in s.c.entries && !s.c.entries[s.threads[t].e].acquiring
    ensures var e := Finish(s, t, now).got.value; var u := Finish(s, t, now).s;
      && e == s.threads[t].e && Good(u, s.threads[t].key, e, s.threads[t].created, now)
      && u.held == s.held + multiset{e}
  {
    var Waiting(key, e, created) := s.threads[t];
    ThreadHolds(s, t, e);
    CheckHeld(s, t, e, now);
    Parts(s);
    assert PcOk(s.c, s.threads[t]);
    hide Inv, CacheOk, RefsOk, ThreadsOk, UpcallsOk;
  }

  // ---------------------------------------------------------------- finding or creating

  lemma ChainList(c: Cache, key: nat)
    requires CacheOk(c)
    ensures Slot(key) < |c.chains| && Distinct(c.chains[Slot(key)]) && forall e :: e in c.chains[Slot(key)] ==>
      e in c.entries
  {
    assert ChainOk(c, Slot(key));
  }

  /** After the scan: what is left of the list is current, and a hit has the key. */
  lemma {:induction false} ScanShed(c: Cache, list: seq<nat>, key: nat, now: int)
    requires CacheOk(c) && Distinct(list) && (forall e :: e in list ==> e in c.chains[Slot(key)])
    requires forall e :: e in list ==> e in c.entries
    ensures var (d, r) := Scan(c, list, key, now);
      && Shed(c, d) && CacheOk(d)
      && (r.Some? ==>
         r.value in list && r.value in d.entries && Linked(d, r.value) && d.entries[r.value].key == key &&
           Current(d.entries[r.value], now))
      && (r.None? ==> forall e :: e in list && e in d.chains[Slot(key)] && e in d.entries ==> d.entries[e].key != key)
      && (forall e :: e in c.chains[Slot(key)] && e !in list ==>
         e in d.chains[Slot(key)] && e in d.entries && d.entries[e] == c.entries[e])
    decreases |list|
  {
    assert Shaped(c);
    hide CacheOk, Shed, CheckUnlink, Current;
    ChainList(c, key);
    if list == [] {
      ShedSelf(c);
    } else {
      var e := list[0];
      assert e in list && e in c.chains[Slot(key)];
      ListedLinked(c, key, e);
      CheckShed(c, e, now);
      var (d, gone) := CheckUnlink(c, e, now);
      assert gone == !Current(c.entries[e], now) by { CheckGone(c, e, now); }
      if !(!gone && c.entries[e].key == key) {
        ScanRest(c, d, list, key, now);
      }
    }
  }

  lemma CheckGone(c: Cache, e: nat, now: int)
    requires Shaped(c) && e in c.entries
    ensures CheckUnlink(c, e, now).1 == !Current(c.entries[e], now)
  {
  }

  lemma ListedLinked(c: Cache, key: nat, e: nat)
    requires CacheOk(c) && e in c.chains[Slot(key)]
    ensures e in c.entries && Linked(c, e)
  {
    assert ChainOk(c, Slot(key));
  }

  lemma {:induction false} ScanRest(c: Cache, d: Cache, list: seq<nat>, key: nat, now: int)
    requires CacheOk(c) && Distinct(list) && (forall e :: e in list ==> e in c.chains[Slot(key)])
    requires list != [] && forall e :: e in list ==> e in c.entries
    requires var (b, gone) := CheckUnlink(c, list[0], now);
      && d == b && Shed(c, d) && CacheOk(d) && !(gone && Linked(d, list[0])) && (!gone ==> d == c)
      && (gone || c.entries[list[0]].key != key)
      && (gone ==> forall f :: f in d.entries && f != list[0] ==> d.entries[f] == c.entries[f])
      && (forall i, f :: 0 <= i < HASH_SIZE && f in c.chains[i] && f != list[0] ==> f in d.chains[i])
    ensures var (f, r) := Scan(d, list[1..], key, now);
      && Scan(c, list, key, now) == (f, r) && Shed(c, f) && CacheOk(f)
      && (r.Some? ==>
         r.value in list && r.value in f.entries && Linked(f, r.value) && f.entries[r.value].key == key &&
           Current(f.entries[r.value], now))
      && (r.None? ==> forall e :: e in list && e in f.chains[Slot(key)] && e in f.entries ==> f.entries[e].key != key)
      && (forall e :: e in c.chains[Slot(key)] && e !in list ==>
         e in f.chains[Slot(key)] && e in f.entries && f.entries[e] == c.entries[e])
    decreases |list|, 0
  {
    hide CheckUnlink, Current;
    var rest := list[1..];
    assert list[0] !in rest && forall e :: e in rest ==> e in list;
    ChainList(d, key);
    forall e | e in rest ensures e in d.chains[Slot(key)] && e in d.entries { }
    ScanShed(d, rest, key, now);
    var (f, r) := Scan(d, rest, key, now);
    ShedTrans(c, d, f);
    ShedChain(d, f, key);
    ChainList(f, key);
    hide CacheOk, Shed, Scan;
    forall e | e in list && e in f.chains[Slot(key)] && e in f.entries && r.None? ensures f.entries[e].key != key {
      if e == list[0] {
        HeadKey(c, d, f, key, e, now);
      }
    }
  }

  lemma ShedChain(c: Cache, d: Cache, key: nat)
    requires Shed(c, d)
    ensures forall e :: e in d.chains[Slot(key)] ==> e in c.chains[Slot(key)]
    ensures forall e :: e in d.entries ==> e in c.entries && d.entries[e].key == c.entries[e].key
  {
    assert ChainShed(c, d, Slot(key));
  }

  lemma HeadKey(c: Cache, d: Cache, f: Cache, key: nat, e: nat, now: int)
    requires CacheOk(c) && CacheOk(d) && Shed(c, d) && Shed(d, f) && e in c.entries && e in c.chains[Slot(key)]
    requires e in f.chains[Slot(key)] && e in f.entries
    requires var gone := CheckUnlink(c, e, now).1; !(gone && Linked(d, e)) && (gone || c.entries[e].key != key)
    ensures f.entries[e].key != key
  {
    ShedChain(d, f, key);
    ShedChain(c, d, key);
    ListedLinked(c, key, e);
    hide CacheOk, Shed, CheckUnlink;
    assert f.entries[e].key == key ==> Linked(d, e);
  }

  /** One search under the lock: hit, spare entry linked, or a spare entry allocated. */
  function Find(s: State, t: nat, now: int, later: int, room: bool): Out
    requires Inv(s) && t in s.threads && s.threads[t].Searching?
  {
    var Searching(key, mine) := s.threads[t];
    Parts(s);
    ChainList(s.c, key);
    var (d, found) := Scan(s.c, s.c.chains[Slot(key)], key, now);
    ScanShed(s.c, s.c.chains[Slot(key)], key, now);
    ShedInv(s, d);
    var u := s.(c := d);
    if found.None? then
      if mine.Some? then FindLinks(s, t, now); Quiet(Begin(u, t, key, mine.value))
      else if room then Quiet(Alloc(u, t, key))
      else Quiet(SetPc(u, t, Idle))
    else
      var v := Discard(u, t);
      DiscardFacts(u, t, found.value);
      Hit(v, t, key, found.value, later)
  }

  /** A spare entry is freed when the search hits. */
  function Discard(s: State, t: nat): (u: State)
    requires Inv(s) && t in s.threads && s.threads[t].Searching?
    ensures Inv(u) && u.threads == s.threads[t := Searching(s.threads[t].key, None)]
  {
    hide Inv;
    match s.threads[t].mine
    case None => assert s.threads[t := Searching(s.threads[t].key, None)] == s.threads; s
    case Some(n) =>
      DiscardInv(s, t, s.threads[t].key, n); SetPc(s, t, Searching(s.threads[t].key, None)).(c := FreeEntry(s.c, n))
  }

  /** A hit goes to the head of its chain and is referenced; one being acquired is waited for. */
  function Hit(s: State, t: nat, key: nat, e: nat, later: int): Out
    requires Inv(s) && t in s.threads && s.threads[t] == Searching(key, None)
    requires Shaped(s.c) && Linked(s.c, e) && s.c.entries[e].key == key
  {
    var u := s.(c := Relink(s.c, e));
    HitInv(s, t, key, e);
    var v := SetPc(u, t, Waiting(key, e, false)).(c := GetRef(u.c, e));
    if v.c.entries[e].acquiring then Quiet(v) else Finish(v, t, later)
  }

  lemma HitInv(s: State, t: nat, key: nat, e: nat)
    requires Inv(s) && t in s.threads && s.threads[t] == Searching(key, None)
    requires Shaped(s.c) && Linked(s.c, e) && s.c.entries[e].key == key
    ensures Shaped(Relink(s.c, e)) && e in Relink(s.c, e).entries
    ensures var u := s.(c := Relink(s.c, e));
      Inv(SetPc(u, t, Waiting(key, e, false)).(c := GetRef(u.c, e)))
  {
    Parts(s);
    RelinkInv(s, e);
    RelinkCache(s.c, e);
    ListedLinked(s.c, key, e);
    assert !s.c.entries[e].isNew by { assert ChainOk(s.c, Slot(key)); }
    var u := s.(c := Relink(s.c, e));
    Parts(u);
    hide Inv, CacheOk, RefsOk, ThreadsOk, UpcallsOk, Relink;
    GetInv(u, t, e, Waiting(key, e, false));
  }

  lemma DiscardFacts(s: State, t: nat, e: nat)
    requires Inv(s) && t in s.threads && s.threads[t].Searching? && Shaped(s.c) && Linked(s.c, e)
    ensures var u := Discard(s, t);
      Shaped(u.c) && e in u.c.entries && Linked(u.c, e) && u.c.entries[e] == s.c.entries[e] && u.held == s.held
  {
    Parts(s);
    Parts(Discard(s, t));
    match s.threads[t].mine
    case None =>
    case Some(n) =>
      SpareFacts(s, t, s.threads[t].key, n);
      DiscardCache(s, t, s.threads[t].key, n);
      hide Inv, CacheOk, RefsOk, ThreadsOk, UpcallsOk, FreeEntry;
  }

  lemma FindLinks(s: State, t: nat, now: int)
    requires Inv(s) && t in s.threads && s.threads[t].Searching? && s.threads[t].mine.Some?
    requires Shaped(s.c) && Distinct(s.c.chains[Slot(s.threads[t].key)])
    requires forall e :: e in s.c.chains[Slot(s.threads[t].key)] ==> e in s.c.entries
    requires Scan(s.c, s.c.chains[Slot(s.threads[t].key)], s.threads[t].key, now).1.None?
    ensures var Searching(key, mine) := s.threads[t];
      var u := s.(c := Scan(s.c, s.c.chains[Slot(key)], key, now).0);
      && Shaped(u.c) && mine.value in u.c.entries && mine.value in u.upcalls && Inv(Begin(u, t, key, mine.value))
  {
    Parts(s);
    var Searching(key, mine) := s.threads[t];
    var list := s.c.chains[Slot(key)];
    ScanShed(s.c, list, key, now);
    var d := Scan(s.c, list, key, now).0;
    ShedInv(s, d);
    ShedChain(s.c, d, key);
    hide Inv, CacheOk, RefsOk, ThreadsOk, UpcallsOk, Scan, Begin;
    ShapeOf(d);
    BeginInv(s.(c := d), t, key, mine.value);
  }

  lemma FindInv(s: State, t: nat, now: int, later: int, room: bool)
    requires Inv(s) && t in s.threads && s.threads[t].Searching?
    ensures Inv(Find(s, t, now, later, room).s)
  {
    var Searching(key, mine) := s.threads[t];
    Parts(s);
    ChainList(s.c, key);
    var (d, found) := Scan(s.c, s.c.chains[Slot(key)], key, now);
    ScanShed(s.c, s.c.chains[Slot(key)], key, now);
    ShedInv(s, d);
    var u := s.(c := d);
    hide Inv, CacheOk, RefsOk, ThreadsOk, UpcallsOk, Scan, Begin, Alloc, Hit, Discard;
    if found.None? {
      if mine.Some? { FindLinks(s, t, now); }
      else if room { AllocInv(u, t, key); }
      else { ShapeOf(d); IdleOk(d); MoveInv(u, t, Idle); }
    } else {
      var v := Discard(u, t);
      DiscardFacts(u, t, found.value);
      HitKeeps(v, t, key, found.value, later);
    }
  }

  lemma HitKeeps(s: State, t: nat, key: nat, e: nat, later: int)
    requires Inv(s) && t in s.threads && s.threads[t] == Searching(key, None)
    requires Shaped(s.c) && Linked(s.c, e) && s.c.entries[e].key == key
    ensures Inv(Hit(s, t, key, e, later).s)
  {
    HitInv(s, t, key, e);
    var u := s.(c := Relink(s.c, e));
    var v := SetPc(u, t, Waiting(key, e, false)).(c := GetRef(u.c, e));
    hide Inv, Finish;
    if !v.c.entries[e].acquiring { FinishInv(v, t, later); }
  }

  // ---------------------------------------------------------------- upcalls and waits

  /** The upcall has been sent, or has failed with a negative `rc`. */
  function UpcallDone(s: State, t: nat, rc: int, now: int): Out
    requires Inv(s) && t in s.threads && s.threads[t].Upcalling?
  {
    var Upcalling(key, e) := s.threads[t];
    ThreadHolds(s, t, e);
    var x := s.c.entries[e].(acquireExpire := now + s.limits.acquireExpire);
    var y := if rc < 0 then x.(acquiring := false, invalid := true) else x;
    var u := s.(c := SetEntry(s.c, e, y));
    FlagsInv(s, e, y);
    UpcallWaits(s, t, y);
    if rc == -EREMCHG then Quiet(SetPc(u, t, Idle).(c := PutRef(u.c, e)))
    else
      var v := SetPc(u, t, Waiting(key, e, true));
      if y.acquiring then Quiet(v) else Finish(v, t, now)
  }

  lemma UpcallWaits(s: State, t: nat, y: Entry)
    requires Inv(s) && t in s.threads && s.threads[t].Upcalling?
    requires var e := s.threads[t].e;
      e in s.c.entries && !s.c.entries[e].isNew && y.key == s.c.entries[e].key && y.ref == s.c.entries[e].ref &&
        !y.isNew
    ensures var u := s.(c := SetEntry(s.c, s.threads[t].e, y));
      Inv(u) && Shaped(u.c) && Inv(SetPc(u, t, Waiting(s.threads[t].key, s.threads[t].e, true)))
  {
    var Upcalling(key, e) := s.threads[t];
    FlagsInv(s, e, y);
    var u := s.(c := SetEntry(s.c, e, y));
    Parts(u);
    assert PcOk(u.c, u.threads[t]);
    hide Inv, CacheOk, RefsOk, ThreadsOk, UpcallsOk;
    MoveInv(u, t, Waiting(key, e, true));
  }

  lemma UpcallDoneInv(s: State, t: nat, rc: int, now: int)
    requires Inv(s) && t in s.threads && s.threads[t].Upcalling?
    ensures Inv(UpcallDone(s, t, rc, now).s)
  {
    hide Inv, PutRef, Finish;
    var Upcalling(key, e) := s.threads[t];
    ThreadHolds(s, t, e);
    var x := s.c.entries[e].(acquireExpire := now + s.limits.acquireExpire);
    var y := if rc < 0 then x.(acquiring := false, invalid := true) else x;
    UpcallWaits(s, t, y);
    var u := s.(c := SetEntry(s.c, e, y));
    if rc == -EREMCHG { DropInv(u, t, e, Idle); }
    else if !y.acquiring { FinishInv(SetPc(u, t, Waiting(key, e, true)), t, now); }
  }

  /** A waiter wakes: an entry still being acquired means a timeout or a signal. */
  function Wake(s: State, t: nat, now: int): Out
    requires Inv(s) && t in s.threads && s.threads[t].Waiting?
  {
    ThreadHolds(s, t, s.threads[t].e);
    if s.c.entries[s.threads[t].e].acquiring then Quiet(SetPc(s, t, Idle).(c := PutRef(s.c, s.threads[t].e)))
    else Finish(s, t, now)
  }

  lemma WakeInv(s: State, t: nat, now: int)
    requires Inv(s) && t in s.threads && s.threads[t].Waiting?
    ensures Inv(Wake(s, t, now).s)
  {
    hide Inv, PutRef, Finish;
    ThreadHolds(s, t, s.threads[t].e);
    if s.c.entries[s.threads[t].e].acquiring { DropInv(s, t, s.threads[t].e, Idle); } else { FinishInv(s, t, now); }
  }

  // ---------------------------------------------------------------- downcalls

  /** The locked end of a downcall: on failure the entry becomes invalid and leaves its chain. */
  function DownEnd(s: State, t: nat, bad: bool): State
    requires Inv(s) && t in s.threads && s.threads[t].Parsing?
  {
    var e := s.threads[t].e;
    ThreadHolds(s, t, e);
    var x := s.c.entries[e];
    var y := x.(invalid := x.invalid || bad, acquiring := false);
    FlagsInv(s, e, y);
    var c := SetEntry(s.c, e, y);
    SetPc(s, t, Dropping(e)).(c := if bad then Unlink(c, e) else c)
  }

  lemma DownEndInv(s: State, t: nat, bad: bool)
    requires Inv(s) && t in s.threads && s.threads[t].Parsing?
    ensures Inv(DownEnd(s, t, bad))
  {
    var e := s.threads[t].e;
    ThreadHolds(s, t, e);
    var x := s.c.entries[e];
    var y := x.(invalid := x.invalid || bad, acquiring := false);
    FlagsInv(s, e, y);
    var u := s.(c := SetEntry(s.c, e, y));
    Parts(u);
    hide Inv, CacheOk, RefsOk, ThreadsOk, UpcallsOk;
    if bad {
      UnlinkShed(u.c, e);
      ShedInv(u, Unlink(u.c, e));
      WillDrop(u.(c := Unlink(u.c, e)), t, e);
    } else {
      WillDrop(u, t, e);
    }
  }

  lemma WillDrop(s: State, t: nat, e: nat)
    requires Inv(s) && t in s.threads && s.threads[t] == Parsing(e)
    ensures Inv(SetPc(s, t, Dropping(e)))
  {
    Parts(s);
    assert PcOk(s.c, s.threads[t]);
    hide Inv, CacheOk, RefsOk, ThreadsOk, UpcallsOk;
    MoveInv(s, t, Dropping(e));
  }

  /** The put that ends a downcall, after the lock was dropped. */
  function Dropped(s: State, t: nat): State
    requires Inv(s) && t in s.threads && s.threads[t].Dropping?
  {
    ThreadHolds(s, t, s.threads[t].e);
    SetPc(s, t, Idle).(c := PutRef(s.c, s.threads[t].e))
  }

  /** A downcall finds the entry and, unless there is nothing to do, starts to parse. */
  function Downcall(s: State, t: nat, key: nat, err: nat): State
    requires Inv(s) && t in s.threads && s.threads[t] == Idle
  {
    Parts(s);
    ChainList(s.c, key);
    match FindKey(s.c, s.c.chains[Slot(key)], key)
    case None => s
    case Some(e) =>
      DowncallGets(s, t, key, e);
      var u := SetPc(s, t, Parsing(e)).(c := GetRef(s.c, e));
      if err != 0 then DownEnd(u, t, true)
      else if !u.c.entries[e].acquiring then DownEnd(u, t, false)
      else if u.c.entries[e].invalid || u.c.entries[e].expired then DownEnd(u, t, true)
      else u
  }

  lemma DowncallGets(s: State, t: nat, key: nat, e: nat)
    requires Inv(s) && t in s.threads && s.threads[t] == Idle && Shaped(s.c) && e in s.c.chains[Slot(key)]
    ensures e in s.c.entries && Inv(SetPc(s, t, Parsing(e)).(c := GetRef(s.c, e)))
  {
    Parts(s);
    assert ChainOk(s.c, Slot(key));
    hide Inv, CacheOk, RefsOk, ThreadsOk, UpcallsOk;
    GetInv(s, t, e, Parsing(e));
  }

  lemma DowncallInv(s: State, t: nat, key: nat, err: nat)
    requires Inv(s) && t in s.threads && s.threads[t] == Idle
    ensures Inv(Downcall(s, t, key, err))
  {
    Parts(s);
    ChainList(s.c, key);
    hide Inv, CacheOk, RefsOk, ThreadsOk, UpcallsOk, DownEnd, FindKey;
    match FindKey(s.c, s.c.chains[Slot(key)], key)
    case None =>
    case Some(e) =>
      DowncallGets(s, t, key, e);
      var u := SetPc(s, t, Parsing(e)).(c := GetRef(s.c, e));
      DownEndInv(u, t, true);
      DownEndInv(u, t, false);
  }

  /** The downcall's data has been parsed; on success the entry is valid from now on. */
  function Parsed(s: State, t: nat, rc: int, now: int): State
    requires Inv(s) && t in s.threads && s.threads[t].Parsing?
  {
    var e := s.threads[t].e;
    ThreadHolds(s, t, e);
    if rc != 0 then DownEnd(s, t, true)
    else
      var x := s.c.entries[e];
      var y := x.(isNew := false, acquiring := false, invalid := false, expired := false,
        expire := now + s.limits.entryExpire);
      FlagsInv(s, e, y);
      DownEnd(s.(c := SetEntry(s.c, e, y)), t, false)
  }

  lemma ParsedInv(s: State, t: nat, rc: int, now: int)
    requires Inv(s) && t in s.threads && s.threads[t].Parsing?
    ensures Inv(Parsed(s, t, rc, now))
  {
    hide Inv, DownEnd;
    var e := s.threads[t].e;
    ThreadHolds(s, t, e);
    if rc != 0 { DownEndInv(s, t, true); }
    else {
      var x := s.c.entries[e];
      var y := x.(isNew := false, acquiring := false, invalid := false, expired := false,
        expire := now + s.limits.entryExpire);
      FlagsInv(s, e, y);
      DownEndInv(s.(c := SetEntry(s.c, e, y)), t, false);
    }
  }

  // ---------------------------------------------------------------- flushes

  lemma {:induction false} FlushChainShed(c: Cache, list: seq<nat>, i: nat)
    requires CacheOk(c) && i < HASH_SIZE && Distinct(list) &&
      (forall e :: e in list ==> e in c.chains[i] && e in c.entries)
    ensures Shed(c, FlushChain(c, list)) && CacheOk(FlushChain(c, list))
    decreases |list|
  {
    hide CacheOk, Shed;
    if list == [] {
      ShedSelf(c);
    } else {
      var e := list[0];
      assert e in list;
      ShapeOf(c);
      var d := if c.entries[e].ref > 0 then SetEntry(c, e, c.entries[e].(expired := true)) else FreeEntry(c, e);
      FlushOneShed(c, e, i);
      ShedOk(c, d);
      FlushLeft(c, list, i);
      FlushChainShed(d, list[1..], i);
      ShedTrans(c, d, FlushChain(d, list[1..]));
    }
  }

  lemma FlushOneShed(c: Cache, e: nat, i: nat)
    requires CacheOk(c) && i < HASH_SIZE && e in c.chains[i] && e in c.entries
    ensures Shed(c, if c.entries[e].ref > 0 then SetEntry(c, e, c.entries[e].(expired := true)) else FreeEntry(c, e))
  {
    assert ChainOk(c, i);
    hide CacheOk, Shed, FreeEntry;
    if c.entries[e].ref > 0 { MarkShed(c, e); } else { FreeShed(c, e); }
  }

  lemma FlushLeft(c: Cache, list: seq<nat>, i: nat)
    requires CacheOk(c) && i < HASH_SIZE && list != [] && Distinct(list) &&
      (forall e :: e in list ==> e in c.chains[i] && e in c.entries)
    ensures var d := if c.entries[list[0]].ref > 0 then SetEntry(c, list[0], c.entries[list[0]].(expired := true))
      else FreeEntry(c, list[0]);
      Distinct(list[1..]) && forall e :: e in list[1..] ==> i < |d.chains| && e in d.chains[i] && e in d.entries
  {
    assert list[0] !in list[1..] && forall e :: e in list[1..] ==> e in list;
  }

  /** cache_flush, chain by chain. */
  function FlushFrom(c: Cache, i: nat): Cache
    requires CacheOk(c) && i <= HASH_SIZE
    decreases HASH_SIZE - i
  {
    if i == HASH_SIZE then c
    else
      WholeChain(c, i);
      FlushChainShed(c, c.chains[i], i);
      FlushFrom(FlushChain(c, c.chains[i]), i + 1)
  }

  lemma WholeChain(c: Cache, i: nat)
    requires CacheOk(c) && i < HASH_SIZE
    ensures Shaped(c) && Distinct(c.chains[i]) && forall e :: e in c.chains[i] ==> e in c.entries
  {
    assert ChainOk(c, i);
  }

  lemma {:induction false} FlushShed(c: Cache, i: nat)
    requires CacheOk(c) && i <= HASH_SIZE
    ensures Shed(c, FlushFrom(c, i))
    decreases HASH_SIZE - i
  {
    hide CacheOk, Shed, FlushChain;
    if i == HASH_SIZE {
      ShedSelf(c);
    } else {
      WholeChain(c, i);
      FlushChainShed(c, c.chains[i], i);
      var d := FlushChain(c, c.chains[i]);
      FlushShed(d, i + 1);
      ShedTrans(c, d, FlushFrom(d, i + 1));
    }
  }

  function FlushKey(c: Cache, key: nat): Cache
    requires CacheOk(c)
  {
    match FindKey(c, c.chains[Slot(key)], key)
    case None => c
    case Some(e) =>
      var d := SetEntry(c, e, c.entries[e].(expired := true));
      if c.entries[e].ref == 0 then FreeEntry(d, e) else d
  }

  lemma FlushKeyShed(c: Cache, key: nat)
    requires CacheOk(c)
    ensures Shed(c, FlushKey(c, key))
  {
    ChainList(c, key);
    hide CacheOk, Shed, FindKey;
    match FindKey(c, c.chains[Slot(key)], key)
    case None => ShedSelf(c);
    case Some(e) =>
      MarkShed(c, e);
      var d := SetEntry(c, e, c.entries[e].(expired := true));
      ShedOk(c, d);
      if c.entries[e].ref == 0 {
        ListedLinked(c, key, e);
        FreeShed(d, e);
        ShedTrans(c, d, FreeEntry(d, e));
      }
  }

  // ---------------------------------------------------------------- runs

  ghost predicate Enabled(s: State, ev: Event) {
    match ev
    case EvGet(t, key) => t in s.threads && s.threads[t] == Idle
    case EvFind(t, now, later, room) => t in s.threads && s.threads[t].Searching?
    case EvUpcallDone(t, rc, now) => t in s.threads && s.threads[t].Upcalling?
    case EvWake(t, now) => t in s.threads && s.threads[t].Waiting?
    case EvPut(e) => e in s.held
    case EvDowncall(t, key, err) => t in s.threads && s.threads[t] == Idle
    case EvParsed(t, rc, now) => t in s.threads && s.threads[t].Parsing?
    case EvDropped(t) => t in s.threads && s.threads[t].Dropping?
    case EvFlushIdle => true
    case EvFlushAll => Shaped(s.c) && forall e :: e in s.c.entries && Linked(s.c, e) ==> s.c.entries[e].ref == 0
    case EvFlushOne(key) => true
  }

  /** upcall_cache_put_entry by a caller who got the entry. */
  function Release(s: State, e: nat): State
    requires Inv(s) && e in s.held
  {
    ReleaseInv(s, e);
    s.(c := PutRef(s.c, e), held := s.held - multiset{e})
  }

  ghost function Step(s: State, ev: Event): Out
    requires Inv(s) && Enabled(s, ev)
  {
    hide Inv, CacheOk, RefsOk, ThreadsOk, UpcallsOk, Find, UpcallDone, Wake, Release, Downcall, Parsed, Dropped,
      FlushFrom, FlushKey;
    Parts(s);
    match ev
    case EvGet(t, key) => Quiet(SetPc(s, t, Searching(key, None)))
    case EvFind(t, now, later, room) => Find(s, t, now, later, room)
    case EvUpcallDone(t, rc, now) => UpcallDone(s, t, rc, now)
    case EvWake(t, now) => Wake(s, t, now)
    case EvPut(e) => Quiet(Release(s, e))
    case EvDowncall(t, key, err) => Quiet(Downcall(s, t, key, err))
    case EvParsed(t, rc, now) => Quiet(Parsed(s, t, rc, now))
    case EvDropped(t) => Quiet(Dropped(s, t))
    case EvFlushIdle => Quiet(s.(c := FlushFrom(s.c, 0)))
    case EvFlushAll => Quiet(s.(c := FlushFrom(s.c, 0)))
    case EvFlushOne(key) => Quiet(s.(c := FlushKey(s.c, key)))
  }

  lemma StepKeeps(s: State, ev: Event)
    requires Inv(s) && Enabled(s, ev)
    ensures Inv(Step(s, ev).s)
  {
    hide Inv, CacheOk, RefsOk, ThreadsOk, UpcallsOk, Find, UpcallDone, Wake, PutRef, Downcall, Parsed, FlushFrom,
      FlushKey, Shed;
    Parts(s);
    match ev
    case EvGet(t, key) => FreeHanded(s.c, Searching(key, None)); MoveInv(s, t, Searching(key, None));
    case EvFind(t, now, later, room) => FindInv(s, t, now, later, room);
    case EvUpcallDone(t, rc, now) => UpcallDoneInv(s, t, rc, now);
    case EvWake(t, now) => WakeInv(s, t, now);
    case EvPut(e) => ReleaseInv(s, e);
    case EvDowncall(t, key, err) => DowncallInv(s, t, key, err);
    case EvParsed(t, rc, now) => ParsedInv(s, t, rc, now);
    case EvDropped(t) => DropInv(s, t, s.threads[t].e, Idle);
    case EvFlushIdle => FlushShed(s.c, 0); ShedInv(s, FlushFrom(s.c, 0));
    case EvFlushAll => FlushShed(s.c, 0); ShedInv(s, FlushFrom(s.c, 0));
    case EvFlushOne(key) => FlushKeyShed(s.c, key); ShedInv(s, FlushKey(s.c, key));
  }

  function EmptyChain(i: int): seq<nat> { [] }

  function IdleThread(t: nat): Pc { Idle }

  /** As upcall_cache_init leaves the cache, with `n` threads around it. */
  function Started(n: nat, limits: Limits): State {
    State(Cache(map[], seq(HASH_SIZE, i => EmptyChain(i)), 0), map t: nat | 0 <= t < n ::
      IdleThread(t), multiset{}, map[], limits)
  }

  lemma StartedInv(n: nat, limits: Limits)
    ensures Inv(Started(n, limits))
  {
    var s := Started(n, limits);
    forall i | 0 <= i < HASH_SIZE ensures ChainOk(s.c, i) { assert s.c.chains[i] == []; }
    forall e ensures Uses(s, e) == 0 { assert Users(s.threads, e) == {}; }
  }

  ghost predicate Next(s: State, ev: Event, u: State) { Enabled(s, ev) && (Inv(s) ==> u == Step(s, ev).s) }

  ghost predicate Run(n: nat, limits: Limits, ss: seq<State>, evs: seq<Event>) {
    |ss| == |evs| + 1 && ss[0] == Started(n, limits) && forall k :: 0 <= k < |evs| ==> Next(ss[k], evs[k], ss[k + 1])
  }

  lemma {:induction false} RunSafe(n: nat, limits: Limits, ss: seq<State>, evs: seq<Event>, k: nat)
    requires Run(n, limits, ss, evs) && k <= |evs|
    ensures Inv(ss[k])
    ensures k < |evs| ==> Enabled(ss[k], evs[k]) && ss[k + 1] == Step(ss[k], evs[k]).s
  {
    hide Inv, Enabled, Step, Started;
    if k == 0 {
      StartedInv(n, limits);
    } else {
      RunSafe(n, limits, ss, evs, k - 1);
      StepKeeps(ss[k - 1], evs[k - 1]);
    }
    if k < |evs| {
      assert Next(ss[k], evs[k], ss[k + 1]);
    }
  }

  /** In every state of every run: one linked entry for a key, and one upcall for an entry. */
  lemma OneEntryOneUpcall(n: nat, limits: Limits, ss: seq<State>, evs: seq<Event>, k: nat, e: nat, f: nat)
    requires Run(n, limits, ss, evs) && k <= |evs|
    ensures Shaped(ss[k].c)
    ensures Linked(ss[k].c, e) && Linked(ss[k].c, f) && ss[k].c.entries[e].key == ss[k].c.entries[f].key ==> e == f
    ensures e in ss[k].upcalls ==> ss[k].upcalls[e] <= 1
  {
    RunSafe(n, limits, ss, evs, k);
    Parts(ss[k]);
    hide Inv, RefsOk, ThreadsOk, Run;
    var c := ss[k].c;
    if Linked(c, e) && Linked(c, f) && c.entries[e].key == c.entries[f].key {
      OneLinked(c, e, f);
    }
  }

  /** In every state of every run, an entry's count is the number of its holders, so none is freed while held. */
  lemma CountsAreHolders(n: nat, limits: Limits, ss: seq<State>, evs: seq<Event>, k: nat, e: nat)
    requires Run(n, limits, ss, evs) && k <= |evs|
    ensures e in ss[k].held || Users(ss[k].threads, e) != {} ==> e in ss[k].c.entries
    ensures e in ss[k].c.entries ==> ss[k].c.entries[e].ref == ss[k].held[e] + |Users(ss[k].threads, e)|
  {
    RunSafe(n, limits, ss, evs, k);
    hide Run;
    Counted(ss[k], e);
    hide Inv, Users;
    if Users(ss[k].threads, e) != {} {
      var t :| t in Users(ss[k].threads, e);
      assert |Users(ss[k].threads, e)| > 0;
    }
  }

  // ---------------------------------------------------------------- what a get returns

  /** The key a step's thread asked for, the creation flag it ends with, and the time of its final check. */
  function Asked(s: State, ev: Event): (nat, bool, int) {
    match ev
    case EvFind(t, _, later, _) =>
      if t in s.threads && s.threads[t].Searching? then (s.threads[t].key, false, later) else (0, false, 0)
    case EvUpcallDone(t, _, now) =>
      if t in s.threads && s.threads[t].Upcalling? then (s.threads[t].key, true, now) else (0, false, 0)
    case EvWake(t, now) =>
      if t in s.threads && s.threads[t].Waiting? then (s.threads[t].key, s.threads[t].created, now) else (0, false, 0)
    case _ => (0, false, 0)
  }

  /**
   * Whatever a get returns has the key asked for and a reference the caller owns, is neither
   * invalid nor still being acquired, and was unexpired at the final check unless this very
   * call created it.
   */
  lemma ReturnedGood(s: State, ev: Event)
    requires Inv(s) && Enabled(s, ev) && Step(s, ev).got.Some?
    ensures var e := Step(s, ev).got.value; var (key, created, now) := Asked(s, ev);
      Good(Step(s, ev).s, key, e, created, now) && Step(s, ev).s.held == s.held + multiset{e}
  {
    hide Inv, Finish, Find, UpcallDone, Wake, Downcall, Parsed, FlushFrom, FlushKey, Good;
    match ev
    case EvFind(t, now, later, room) => FindGood(s, t, now, later, room);
    case EvUpcallDone(t, rc, now) => UpcallDoneGood(s, t, rc, now);
    case EvWake(t, now) => WakeGood(s, t, now);
    case _ =>
  }

  /** The same over whole runs. */
  lemma EveryGetGood(n: nat, limits: Limits, ss: seq<State>, evs: seq<Event>, k: nat)
    requires Run(n, limits, ss, evs) && k < |evs|
    ensures Inv(ss[k]) && Enabled(ss[k], evs[k])
    ensures Step(ss[k], evs[k]).got.Some? ==>
      var e := Step(ss[k], evs[k]).got.value; var (key, created, now) := Asked(ss[k], evs[k]);
      Good(ss[k + 1], key, e, created, now) && ss[k + 1].held == ss[k].held + multiset{e}
  {
    hide Inv, Enabled, Step, Good, Asked;
    RunSafe(n, limits, ss, evs, k);
    hide Run;
    if Step(ss[k], evs[k]).got.Some? { ReturnedGood(ss[k], evs[k]); }
  }

  lemma WakeGood(s: State, t: nat, now: int)
    requires Inv(s) && t in s.threads && s.threads[t].Waiting? && Wake(s, t, now).got.Some?
    ensures var r := Wake(s, t, now);
      Good(r.s, s.threads[t].key, r.got.value, s.threads[t].created, now) && r.s.held == s.held + multiset{r.got.value}
  {
    hide Inv, Finish, Good;
    ThreadHolds(s, t, s.threads[t].e);
    FinishGood(s, t, now);
  }

  lemma UpcallDoneGood(s: State, t: nat, rc: int, now: int)
    requires Inv(s) && t in s.threads && s.threads[t].Upcalling? && UpcallDone(s, t, rc, now).got.Some?
    ensures var r := UpcallDone(s, t, rc, now);
      Good(r.s, s.threads[t].key, r.got.value, true, now) && r.s.held == s.held + multiset{r.got.value}
  {
    hide Inv, Finish, Good;
    var Upcalling(key, e) := s.threads[t];
    ThreadHolds(s, t, e);
    var x := s.c.entries[e].(acquireExpire := now + s.limits.acquireExpire);
    var y := if rc < 0 then x.(acquiring := false, invalid := true) else x;
    UpcallWaits(s, t, y);
    var v := SetPc(s.(c := SetEntry(s.c, e, y)), t, Waiting(key, e, true));
    FinishGood(v, t, now);
  }

  lemma FindGood(s: State, t: nat, now: int, later: int, room: bool)
    requires Inv(s) && t in s.threads && s.threads[t].Searching? && Find(s, t, now, later, room).got.Some?
    ensures var r := Find(s, t, now, later, room);
      Good(r.s, s.threads[t].key, r.got.value, false, later) && r.s.held == s.held + multiset{r.got.value}
  {
    var Searching(key, mine) := s.threads[t];
    Parts(s);
    ChainList(s.c, key);
    var (d, found) := Scan(s.c, s.c.chains[Slot(key)], key, now);
    ScanShed(s.c, s.c.chains[Slot(key)], key, now);
    ShedInv(s, d);
    var u := s.(c := d);
    hide Inv, CacheOk, RefsOk, ThreadsOk, UpcallsOk, Scan, Begin, Alloc, Hit, Discard, Good;
    if found.Some? {
      var v := Discard(u, t);
      DiscardFacts(u, t, found.value);
      HitGood(v, t, key, found.value, later);
    }
  }

  lemma HitGood(s: State, t: nat, key: nat, e: nat, later: int)
    requires Inv(s) && t in s.threads && s.threads[t] == Searching(key, None)
    requires Shaped(s.c) && Linked(s.c, e) && s.c.entries[e].key == key && Hit(s, t, key, e, later).got.Some?
    ensures var r := Hit(s, t, key, e, later);
      Good(r.s, key, r.got.value, false, later) && r.s.held == s.held + multiset{r.got.value}
  {
    HitInv(s, t, key, e);
    var u := s.(c := Relink(s.c, e));
    var v := SetPc(u, t, Waiting(key, e, false)).(c := GetRef(u.c, e));
    hide Inv, Finish, Good;
    FinishGood(v, t, later);
  }
}
