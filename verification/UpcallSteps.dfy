/** The steps of the upcall cache's threads, and what every state of a run satisfies. */
module UpcallSteps {
  import opened Prelude
  import opened UpcallCache

  // ---------------------------------------------------------------- the invariant

  /** Whether a thread holds a reference to `e`. */
  predicate Holds(pc: Pc, e: nat) {
    match pc
    case Upcalling(_, f) => f == e
    case Waiting(_, f, _) => f == e
    case Parsing(f) => f == e
    case Dropping(f) => f == e
    case _ => false
  }

  function Users(threads: map<nat, Pc>, e: nat): set<nat> { set t | t in threads && Holds(threads[t], e) }

  function Uses(s: State, e: nat): nat { s.held[e] + |Users(s.threads, e)| }

  /** Counts match holders, and what is held is there. */
  ghost predicate RefsOk(s: State) {
    forall e :: Uses(s, e) == if e in s.c.entries then s.c.entries[e].ref else 0
  }

  ghost predicate PcOk(c: Cache, pc: Pc)
    requires Shaped(c)
  {
    match pc
    case Idle => true
    case Searching(key, mine) =>
      mine.Some? ==>
        mine.value in c.entries && c.entries[mine.value].isNew && c.entries[mine.value].key == key &&
          !Linked(c, mine.value)
    case Upcalling(key, e) => e in c.entries && !c.entries[e].isNew && c.entries[e].key == key
    case Waiting(key, e, _) => e in c.entries && !c.entries[e].isNew && c.entries[e].key == key
    case Parsing(e) => e in c.entries && !c.entries[e].isNew
    case Dropping(e) => e in c.entries && !c.entries[e].isNew
  }

  predicate SameMine(a: Pc, b: Pc) { a.Searching? && b.Searching? && a.mine.Some? && a.mine == b.mine }

  ghost predicate ThreadsOk(s: State)
    requires Shaped(s.c)
  {
    && (forall t :: t in s.threads ==> PcOk(s.c, s.threads[t]))
    && (forall t, u :: t in s.threads && u in s.threads && SameMine(s.threads[t], s.threads[u]) ==> t == u)
  }

  /** One upcall for each entry that is no longer new. */
  ghost predicate UpcallsOk(s: State) {
    && (forall e :: e in s.c.entries ==> e in s.upcalls && s.upcalls[e] == if s.c.entries[e].isNew then 0 else 1)
    && (forall e :: e in s.upcalls ==> s.upcalls[e] <= 1 && e < s.c.next)
    && (forall e :: e in s.held ==> e in s.c.entries && !s.c.entries[e].isNew)
  }

  ghost predicate Inv(s: State) { CacheOk(s.c) && RefsOk(s) && ThreadsOk(s) && UpcallsOk(s) }

  // ---------------------------------------------------------------- counting users

  lemma UsersChange(threads: map<nat, Pc>, t: nat, pc: Pc, e: nat)
    requires t in threads
    ensures |Users(threads[t := pc], e)| + (if Holds(threads[t], e) then 1 else 0) ==
      |Users(threads, e)| + (if Holds(pc, e) then 1 else 0)
  {
    var a, b := Users(threads, e), Users(threads[t := pc], e);
    assert a - {t} == b - {t};
    assert t in a <==> Holds(threads[t], e);
    assert t in b <==> Holds(pc, e);
    hide Users, Holds;
    OneLess(a, t);
    OneLess(b, t);
  }

  lemma OneLess(a: set<nat>, t: nat)
    ensures |a - {t}| == if t in a then |a| - 1 else |a|
  {
    if t in a { } else { assert a - {t} == a; }
  }

  /** The counts when one thread moves. */
  lemma UsesMoved(s: State, t: nat, pc: Pc, e: nat)
    requires t in s.threads
    ensures Uses(s.(threads := s.threads[t := pc]), e) + (if Holds(s.threads[t], e) then 1 else 0)
            == Uses(s, e) + (if Holds(pc, e) then 1 else 0)
  {
    UsersChange(s.threads, t, pc, e);
  }

  // ---------------------------------------------------------------- parts

  lemma Parts(s: State)
    requires Inv(s)
    ensures CacheOk(s.c) && Shaped(s.c) && RefsOk(s) && ThreadsOk(s) && UpcallsOk(s)
  {
  }

  lemma Whole(s: State)
    requires CacheOk(s.c) && RefsOk(s) && ThreadsOk(s) && UpcallsOk(s)
    ensures Inv(s)
  {
  }

  lemma Counted(s: State, e: nat)
    requires Inv(s)
    ensures Uses(s, e) == if e in s.c.entries then s.c.entries[e].ref else 0
  {
    hide CacheOk, ThreadsOk, UpcallsOk;
  }

  lemma ThreadHolds(s: State, t: nat, e: nat)
    requires Inv(s) && t in s.threads && Holds(s.threads[t], e)
    ensures e in s.c.entries && s.c.entries[e].ref > 0 && !s.c.entries[e].isNew && Shaped(s.c)
  {
    Counted(s, e);
    assert t in Users(s.threads, e);
    hide CacheOk, RefsOk, UpcallsOk;
    assert PcOk(s.c, s.threads[t]);
  }

  // ---------------------------------------------------------------- primitive changes

  /** Idle linked entries go, others are marked. */
  lemma ShedInv(s: State, d: Cache)
    requires Inv(s) && Shed(s.c, d)
    ensures Inv(s.(c := d))
  {
    Parts(s);
    var u := s.(c := d);
    ShedOk(s.c, d);
    hide CacheOk;
    assert RefsOk(u) by {
      forall e ensures Uses(u, e) == if e in d.entries then d.entries[e].ref else 0 { Counted(s, e); }
    }
    forall t | t in u.threads ensures PcOk(d, u.threads[t]) { ShedPc(s, d, t); }
    assert UpcallsOk(u) by { ShedUpcalls(s, d); }
    Whole(u);
  }

  lemma ShedPc(s: State, d: Cache, t: nat)
    requires Inv(s) && Shed(s.c, d) && t in s.threads && CacheOk(d)
    ensures Shaped(d) && PcOk(d, s.threads[t])
  {
    match s.threads[t]
    case Idle =>
    case Searching(key, mine) =>
      if mine.Some? {
        Parts(s);
        hide CacheOk, RefsOk, UpcallsOk;
        assert PcOk(s.c, s.threads[t]);
        assert ChainShed(s.c, d, Slot(key));
      }
    case Upcalling(key, e) => StaysPut(s, d, t, e);
    case Waiting(key, e, _) => StaysPut(s, d, t, e);
    case Parsing(e) => StaysPut(s, d, t, e);
    case Dropping(e) => StaysPut(s, d, t, e);
  }

  lemma StaysPut(s: State, d: Cache, t: nat, e: nat)
    requires Inv(s) && Shed(s.c, d) && t in s.threads && Holds(s.threads[t], e)
    ensures e in d.entries && e in s.c.entries && d.entries[e] == s.c.entries[e].(expired := d.entries[e].expired)
    ensures Shaped(s.c) && PcOk(s.c, s.threads[t])
  {
    ThreadHolds(s, t, e);
    hide CacheOk, RefsOk, UpcallsOk, ChainShed;
  }

  lemma ShedUpcalls(s: State, d: Cache)
    requires Inv(s) && Shed(s.c, d)
    ensures UpcallsOk(s.(c := d))
  {
    Parts(s);
    hide CacheOk, ThreadsOk, ChainShed;
    forall e | e in s.held ensures e in d.entries && !d.entries[e].isNew {
      Counted(s, e);
    }
  }

  /** The flags and times of one entry that is no longer new change. */
  lemma FlagsInv(s: State, e: nat, x: Entry)
    requires Inv(s) && e in s.c.entries && !s.c.entries[e].isNew
    requires x.key == s.c.entries[e].key && x.ref == s.c.entries[e].ref && !x.isNew
    ensures Inv(s.(c := SetEntry(s.c, e, x)))
  {
    Parts(s);
    var d := SetEntry(s.c, e, x);
    var u := s.(c := d);
    forall i | 0 <= i < HASH_SIZE ensures ChainOk(d, i) { assert ChainOk(s.c, i); }
    assert CacheOk(d);
    hide CacheOk;
    assert RefsOk(u) by {
      forall f ensures Uses(u, f) == if f in d.entries then d.entries[f].ref else 0 { Counted(s, f); }
    }
    hide RefsOk;
    forall t | t in u.threads ensures PcOk(d, u.threads[t]) { assert PcOk(s.c, s.threads[t]); }
    Whole(u);
  }

  function SetPc(s: State, t: nat, pc: Pc): State { s.(threads := s.threads[t := pc]) }

  /** A thread moves without taking or dropping anything. */
  lemma MoveInv(s: State, t: nat, pc: Pc)
    requires Inv(s) && t in s.threads && PcOk(s.c, pc) && (forall e :: Holds(pc, e) <==> Holds(s.threads[t], e))
    requires pc.Searching? ==> pc.mine.None?
    ensures Inv(SetPc(s, t, pc))
  {
    Parts(s);
    hide CacheOk, PcOk;
    var u := SetPc(s, t, pc);
    assert RefsOk(u) by {
      forall e
        ensures Uses(u, e) == if e in u.c.entries then u.c.entries[e].ref else 0
      {
        Counted(s, e); UsesMoved(s, t, pc, e);
      }
    }
    hide RefsOk;
    Whole(u);
  }

  /** A thread takes a reference. */
  lemma GetInv(s: State, t: nat, e: nat, pc: Pc)
    requires Inv(s) && t in s.threads && e in s.c.entries && !s.c.entries[e].isNew && PcOk(s.c, pc)
    requires (forall f :: Holds(pc, f) <==> f == e) && (forall f :: !Holds(s.threads[t], f))
    requires !pc.Searching?
    ensures Inv(SetPc(s, t, pc).(c := GetRef(s.c, e)))
  {
    hide CacheOk, RefsOk, ThreadsOk, UpcallsOk, Inv;
    Parts(s);
    GetCache(s.c, e);
    var u := SetPc(s, t, pc).(c := GetRef(s.c, e));
    assert Shaped(u.c) by { ShapeOf(u.c); }
    GetRefs(s, t, e, pc);
    GetThreads(s, t, e, pc);
    assert UpcallsOk(u) by { GetUpcalls(s, t, e, pc); }
    Whole(u);
  }

  lemma GetCache(c: Cache, e: nat)
    requires CacheOk(c) && e in c.entries
    ensures CacheOk(GetRef(c, e))
  {
    var d := GetRef(c, e);
    forall i | 0 <= i < HASH_SIZE ensures ChainOk(d, i) { assert ChainOk(c, i); }
  }

  lemma GetRefs(s: State, t: nat, e: nat, pc: Pc)
    requires Inv(s) && t in s.threads && e in s.c.entries
    requires (forall f :: Holds(pc, f) <==> f == e) && (forall f :: !Holds(s.threads[t], f))
    ensures RefsOk(SetPc(s, t, pc).(c := GetRef(s.c, e)))
  {
    hide Inv, Uses;
    var u := SetPc(s, t, pc).(c := GetRef(s.c, e));
    forall f ensures Uses(u, f) == if f in u.c.entries then u.c.entries[f].ref else 0 {
      Counted(s, f);
      UsesMoved(s, t, pc, f);
      SameUses(SetPc(s, t, pc), u, f);
    }
  }

  lemma SameUses(s: State, u: State, e: nat)
    requires u.threads == s.threads && u.held == s.held
    ensures Uses(u, e) == Uses(s, e)
  {
  }

  lemma GetThreads(s: State, t: nat, e: nat, pc: Pc)
    requires Inv(s) && t in s.threads && e in s.c.entries && PcOk(s.c, pc) && !pc.Searching? && Shaped(GetRef(s.c, e))
    ensures ThreadsOk(SetPc(s, t, pc).(c := GetRef(s.c, e)))
  {
    Parts(s);
    hide Inv, CacheOk, RefsOk, UpcallsOk;
    var u := SetPc(s, t, pc).(c := GetRef(s.c, e));
    forall w | w in u.threads ensures PcOk(u.c, u.threads[w]) { if w != t { assert PcOk(s.c, s.threads[w]); } }
    hide PcOk;
    forall v, w | v in u.threads && w in u.threads && SameMine(u.threads[v], u.threads[w]) ensures v == w {
      assert SameMine(s.threads[v], s.threads[w]);
    }
  }

  lemma GetUpcalls(s: State, t: nat, e: nat, pc: Pc)
    requires Inv(s) && e in s.c.entries
    ensures UpcallsOk(SetPc(s, t, pc).(c := GetRef(s.c, e)))
  {
    hide CacheOk, RefsOk, ThreadsOk;
  }

  /** The reference to `e` goes; if it was the last, a stale entry goes with it. */
  lemma PutCache(c: Cache, e: nat)
    requires CacheOk(c) && e in c.entries && c.entries[e].ref > 0
    ensures var d := PutRef(c, e);
      && CacheOk(d) && d.next == c.next && d.entries.Keys <= c.entries.Keys
      && (forall f :: f in c.entries && f !in d.entries ==> f == e && c.entries[e].ref == 1)
      && (forall f :: f in d.entries ==> d.entries[f] == c.entries[f].(ref := d.entries[f].ref))
      && (forall f :: f in d.entries ==> d.entries[f].ref == if f == e then c.entries[f].ref - 1 else c.entries[f].ref)
      && (forall i :: 0 <= i < HASH_SIZE ==> forall f :: f in d.chains[i] ==> f in c.chains[i])
  {
    var b := SetEntry(c, e, c.entries[e].(ref := c.entries[e].ref - 1));
    forall i | 0 <= i < HASH_SIZE ensures ChainOk(b, i) { assert ChainOk(c, i); }
    var d := PutRef(c, e);
    forall i | 0 <= i < HASH_SIZE
      ensures ChainOk(d, i)
    {
      assert ChainOk(b, i); assert ChainOk(b, Slot(b.entries[e].key));
    }
  }

  /** Someone drops a reference to `e`: `u` is `s` with one use of it less. */
  lemma PutInv(s: State, u: State, e: nat)
    requires Inv(s) && e in s.c.entries && s.c.entries[e].ref > 0 && !s.c.entries[e].isNew
    requires u == s.(c := PutRef(s.c, e), threads := u.threads, held := u.held)
    requires forall f :: Uses(u, f) + (if f == e then 1 else 0) == Uses(s, f)
    requires forall t :: t in u.threads ==>
      t in s.threads && (u.threads[t] == s.threads[t] || u.threads[t] == Idle || u.threads[t].Searching?)
    requires forall t :: t in u.threads && u.threads[t] != s.threads[t] && u.threads[t].Searching? ==>
      u.threads[t].mine.None?
    requires forall f :: f in u.held ==> f in s.held
    ensures Inv(u)
  {
    hide CacheOk, PutRef, Inv, RefsOk, ThreadsOk, UpcallsOk;
    Parts(s);
    PutCache(s.c, e);
    PutRefs(s, u, e);
    assert Shaped(u.c) by { ShapeOf(u.c); }
    PutThreads(s, u, e);
    PutUpcalls(s, u, e);
    Whole(u);
  }

  lemma ShapeOf(c: Cache)
    requires CacheOk(c)
    ensures Shaped(c)
  {
  }

  lemma PutRefs(s: State, u: State, e: nat)
    requires Inv(s) && e in s.c.entries && s.c.entries[e].ref > 0
    requires Shaped(s.c) && u.c == PutRef(s.c, e) && forall f :: Uses(u, f) + (if f == e then 1 else 0) == Uses(s, f)
    ensures RefsOk(u)
  {
    hide CacheOk, PutRef, Inv, Uses;
    Parts(s);
    PutCache(s.c, e);
    hide RefsOk, ThreadsOk, UpcallsOk;
    forall f ensures Uses(u, f) == if f in u.c.entries then u.c.entries[f].ref else 0 { Counted(s, f); }
    assert RefsOk(u) by { AllCounted(u); }
  }

  lemma AllCounted(u: State)
    requires forall f :: Uses(u, f) == if f in u.c.entries then u.c.entries[f].ref else 0
    ensures RefsOk(u)
  {
    hide Uses;
  }

  lemma PutThreads(s: State, u: State, e: nat)
    requires Inv(s) && e in s.c.entries && s.c.entries[e].ref > 0 && !s.c.entries[e].isNew && RefsOk(u)
    requires Shaped(s.c) && u == s.(c := PutRef(s.c, e), threads := u.threads, held := u.held) && CacheOk(u.c) &&
      Shaped(u.c)
    requires forall t :: t in u.threads ==>
      t in s.threads && (u.threads[t] == s.threads[t] || u.threads[t] == Idle || u.threads[t].Searching?)
    requires forall t :: t in u.threads && u.threads[t] != s.threads[t] && u.threads[t].Searching? ==>
      u.threads[t].mine.None?
    ensures ThreadsOk(u)
  {
    hide CacheOk, PutRef, Inv, RefsOk, UpcallsOk, PcOk;
    Parts(s);
    forall t | t in u.threads ensures PcOk(u.c, u.threads[t]) {
      if u.threads[t] == s.threads[t] { PutPc(s, u, e, t); } else { FreeHanded(u.c, u.threads[t]); }
    }
    forall t, w | t in u.threads && w in u.threads && SameMine(u.threads[t], u.threads[w]) ensures t == w {
      assert SameMine(s.threads[t], s.threads[w]);
    }
  }

  lemma FreeHanded(c: Cache, pc: Pc)
    requires Shaped(c) && (pc == Idle || (pc.Searching? && pc.mine.None?))
    ensures PcOk(c, pc)
  {
  }

  lemma PutUpcalls(s: State, u: State, e: nat)
    requires Inv(s) && e in s.c.entries && s.c.entries[e].ref > 0 && Shaped(s.c)
    requires u == s.(c := PutRef(s.c, e), threads := u.threads, held := u.held) && RefsOk(u)
    requires forall f :: f in u.held ==> f in s.held
    ensures UpcallsOk(u)
  {
    hide CacheOk, PutRef, Inv, ThreadsOk;
    Parts(s);
    PutCache(s.c, e);
    forall f | f in u.held ensures f in u.c.entries && !u.c.entries[f].isNew {
      assert Uses(u, f) == if f in u.c.entries then u.c.entries[f].ref else 0;
    }
    hide RefsOk;
  }

  lemma PutPc(s: State, u: State, e: nat, t: nat)
    requires Inv(s) && e in s.c.entries && s.c.entries[e].ref > 0 && !s.c.entries[e].isNew && u.c == PutRef(s.c, e)
    requires RefsOk(u) && t in u.threads && t in s.threads && u.threads[t] == s.threads[t] && CacheOk(u.c)
    ensures PcOk(u.c, u.threads[t])
  {
    Parts(s);
    PutCache(s.c, e);
    assert PcOk(s.c, s.threads[t]);
    hide CacheOk, PutRef, ThreadsOk, UpcallsOk;
    match u.threads[t]
    case Idle =>
    case Searching(key, mine) =>
    case Upcalling(_, f) => UserThere(u, t, f);
    case Waiting(_, f, _) => UserThere(u, t, f);
    case Parsing(f) => UserThere(u, t, f);
    case Dropping(f) => UserThere(u, t, f);
  }

  lemma UserThere(u: State, t: nat, f: nat)
    requires RefsOk(u) && t in u.threads && Holds(u.threads[t], f)
    ensures f in u.c.entries
  {
    assert t in Users(u.threads, f);
    assert Uses(u, f) == if f in u.c.entries then u.c.entries[f].ref else 0;
  }

  /** A thread drops its reference. */
  lemma DropInv(s: State, t: nat, e: nat, pc: Pc)
    requires Inv(s) && t in s.threads && Holds(s.threads[t], e) && (pc == Idle || (pc.Searching? && pc.mine.None?))
    ensures Shaped(s.c) && e in s.c.entries && s.c.entries[e].ref > 0
    ensures Inv(SetPc(s, t, pc).(c := PutRef(s.c, e)))
  {
    ThreadHolds(s, t, e);
    var u := SetPc(s, t, pc).(c := PutRef(s.c, e));
    hide Inv, PutRef;
    forall f
      ensures Uses(u, f) + (if f == e then 1 else 0) == Uses(s, f)
    {
      UsesMoved(s, t, pc, f); HoldsOne(s.threads[t], e, f);
    }
    PutInv(s, u, e);
  }

  lemma HoldsOne(pc: Pc, e: nat, f: nat)
    requires Holds(pc, e)
    ensures Holds(pc, f) <==> f == e
  {
  }

  /** A caller drops its reference. */
  lemma ReleaseInv(s: State, e: nat)
    requires Inv(s) && e in s.held
    ensures Shaped(s.c) && e in s.c.entries && s.c.entries[e].ref > 0
    ensures Inv(s.(c := PutRef(s.c, e), held := s.held - multiset{e}))
  {
    Counted(s, e);
    Parts(s);
    var u := s.(c := PutRef(s.c, e), held := s.held - multiset{e});
    hide Inv, PutRef, CacheOk, RefsOk, ThreadsOk;
    PutInv(s, u, e);
  }

  /** The thread's reference becomes the caller's. */
  lemma HandInv(s: State, t: nat, e: nat)
    requires Inv(s) && t in s.threads && Holds(s.threads[t], e)
    ensures Inv(SetPc(s, t, Idle).(held := s.held + multiset{e}))
  {
    hide Inv, CacheOk, PcOk;
    ThreadHolds(s, t, e);
    Parts(s);
    var u := SetPc(s, t, Idle).(held := s.held + multiset{e});
    assert RefsOk(u) by {
      forall f ensures Uses(u, f) == if f in u.c.entries then u.c.entries[f].ref else 0 {
        Counted(s, f);
        UsesMoved(s, t, Idle, f);
        HoldsOne(s.threads[t], e, f);
      }
    }
    hide RefsOk;
    assert ThreadsOk(u) by { assert PcOk(s.c, Idle) by { IdleOk(s.c); } }
    Whole(u);
  }

  lemma IdleOk(c: Cache)
    requires Shaped(c)
    ensures PcOk(c, Idle)
  {
  }

  // ---------------------------------------------------------------- new entries

  function FreshEntry(key: nat): Entry { Entry(key, true, false, false, false, 0, 0, 0) }

  function Alloc(s: State, t: nat, key: nat): State {
    var n := s.c.next;
    SetPc(s, t, Searching(key, Some(n))).(c := s.c.(entries := s.c.entries[n := FreshEntry(key)], next := n + 1),
      upcalls := s.upcalls[n := 0])
  }

  lemma AllocInv(s: State, t: nat, key: nat)
    requires Inv(s) && t in s.threads && s.threads[t] == Searching(key, None)
    ensures Inv(Alloc(s, t, key))
  {
    hide CacheOk, Inv, RefsOk, ThreadsOk, UpcallsOk, Alloc;
    AllocCache(s, t, key);
    AllocRefs(s, t, key);
    AllocThreads(s, t, key);
    AllocUpcalls(s, t, key);
    Whole(Alloc(s, t, key));
  }

  lemma AllocCache(s: State, t: nat, key: nat)
    requires Inv(s)
    ensures var u := Alloc(s, t, key); CacheOk(u.c) && !Linked(u.c, s.c.next) && s.c.next !in s.c.entries && Shaped(s.c)
    ensures forall e :: e in s.c.entries ==> Linked(Alloc(s, t, key).c, e) == Linked(s.c, e)
  {
    Parts(s);
    hide Inv, RefsOk, ThreadsOk, UpcallsOk;
    var u := Alloc(s, t, key);
    forall i | 0 <= i < HASH_SIZE ensures ChainOk(u.c, i) { assert ChainOk(s.c, i); }
    assert ChainOk(s.c, Slot(key));
  }

  lemma AllocRefs(s: State, t: nat, key: nat)
    requires Inv(s) && t in s.threads && s.threads[t] == Searching(key, None)
    ensures RefsOk(Alloc(s, t, key))
  {
    hide CacheOk, Inv, RefsOk, ThreadsOk, UpcallsOk;
    AllocCache(s, t, key);
    var u := Alloc(s, t, key);
    forall f ensures Uses(u, f) == if f in u.c.entries then u.c.entries[f].ref else 0 {
      Counted(s, f);
      UsesMoved(s, t, Searching(key, Some(s.c.next)), f);
    }
    AllCounted(u);
  }

  lemma AllocThreads(s: State, t: nat, key: nat)
    requires Inv(s) && t in s.threads && CacheOk(Alloc(s, t, key).c)
    ensures ThreadsOk(Alloc(s, t, key))
  {
    hide CacheOk, Inv, RefsOk, UpcallsOk;
    Parts(s);
    AllocCache(s, t, key);
    var u := Alloc(s, t, key);
    forall w | w in u.threads ensures PcOk(u.c, u.threads[w]) { if w != t { assert PcOk(s.c, s.threads[w]); } }
    forall w, v | w in u.threads && v in u.threads && SameMine(u.threads[w], u.threads[v]) ensures w == v {
      assert w != t ==> PcOk(s.c, s.threads[w]);
      assert v != t ==> PcOk(s.c, s.threads[v]);
      if w != t && v != t { assert SameMine(s.threads[w], s.threads[v]); }
    }
  }

  lemma AllocUpcalls(s: State, t: nat, key: nat)
    requires Inv(s)
    ensures UpcallsOk(Alloc(s, t, key))
  {
    hide CacheOk, Inv, RefsOk, ThreadsOk;
    Parts(s);
    AllocCache(s, t, key);
  }

  /** A spare new entry is not needed after all. */
  lemma DiscardInv(s: State, t: nat, key: nat, n: nat)
    requires Inv(s) && t in s.threads && s.threads[t] == Searching(key, Some(n))
    ensures Shaped(s.c) && n in s.c.entries
    ensures Inv(SetPc(s, t, Searching(key, None)).(c := FreeEntry(s.c, n)))
  {
    hide CacheOk, Inv, RefsOk, UpcallsOk, ThreadsOk, FreeEntry;
    Parts(s);
    SpareUnused(s, t, key, n);
    DiscardCache(s, t, key, n);
    var u := SetPc(s, t, Searching(key, None)).(c := FreeEntry(s.c, n));
    forall f
      ensures Uses(u, f) == if f in u.c.entries then u.c.entries[f].ref else 0
    {
      Counted(s, f); UsesMoved(s, t, Searching(key, None), f);
    }
    AllCounted(u);
    DiscardThreads(s, t, key, n);
    DiscardUpcalls(s, t, key, n);
    Whole(u);
  }

  lemma DiscardCache(s: State, t: nat, key: nat, n: nat)
    requires Inv(s) && t in s.threads && s.threads[t] == Searching(key, Some(n)) && n in s.c.entries && Shaped(s.c)
    ensures var d := FreeEntry(s.c, n);
      CacheOk(d) && d.entries == s.c.entries - {n} && d.chains == s.c.chains && d.next == s.c.next
  {
    Parts(s);
    assert PcOk(s.c, s.threads[t]);
    hide Inv, RefsOk, ThreadsOk, UpcallsOk;
    var d := FreeEntry(s.c, n);
    assert ChainOk(s.c, Slot(key));
    assert d.chains == s.c.chains;
    forall i | 0 <= i < HASH_SIZE ensures ChainOk(d, i) { assert ChainOk(s.c, i); }
  }

  lemma DiscardThreads(s: State, t: nat, key: nat, n: nat)
    requires Inv(s) && t in s.threads && s.threads[t] == Searching(key, Some(n)) && n in s.c.entries && Shaped(s.c)
    ensures Shaped(FreeEntry(s.c, n)) && ThreadsOk(SetPc(s, t, Searching(key, None)).(c := FreeEntry(s.c, n)))
  {
    hide CacheOk, Inv, RefsOk, UpcallsOk;
    Parts(s);
    DiscardCache(s, t, key, n);
    var u := SetPc(s, t, Searching(key, None)).(c := FreeEntry(s.c, n));
    hide FreeEntry;
    assert PcOk(s.c, s.threads[t]);
    forall w | w in u.threads ensures PcOk(u.c, u.threads[w]) {
      if w != t {
        assert PcOk(s.c, s.threads[w]);
        assert SameMine(s.threads[t], s.threads[w]) ==> t == w;
      }
    }
  }

  lemma DiscardUpcalls(s: State, t: nat, key: nat, n: nat)
    requires Inv(s) && t in s.threads && s.threads[t] == Searching(key, Some(n)) && n in s.c.entries && Shaped(s.c)
    ensures UpcallsOk(SetPc(s, t, Searching(key, None)).(c := FreeEntry(s.c, n)))
  {
    hide CacheOk, Inv, RefsOk, ThreadsOk, FreeEntry;
    Parts(s);
    SpareUnused(s, t, key, n);
    DiscardCache(s, t, key, n);
    assert n !in s.held;
  }

  lemma SpareUnused(s: State, t: nat, key: nat, n: nat)
    requires Inv(s) && t in s.threads && s.threads[t] == Searching(key, Some(n))
    ensures n in s.c.entries && s.c.entries[n].ref == 0 && Uses(s, n) == 0
  {
    Parts(s);
    assert PcOk(s.c, s.threads[t]);
    Counted(s, n);
    if n in s.held { assert false; }
    forall w | w in s.threads ensures !Holds(s.threads[w], n) { assert PcOk(s.c, s.threads[w]); }
    assert Users(s.threads, n) == {};
  }

  // ---------------------------------------------------------------- linking

  /** The entry moves to the head of its chain. */
  function Relink(c: Cache, e: nat): Cache
    requires Shaped(c) && e in c.entries
  {
    LinkHead(Unlink(c, e), e)
  }

  lemma RelinkInv(s: State, e: nat)
    requires Inv(s) && Shaped(s.c) && Linked(s.c, e)
    ensures Inv(s.(c := Relink(s.c, e)))
  {
    hide CacheOk, RefsOk, ThreadsOk, UpcallsOk;
    Parts(s);
    RelinkCache(s.c, e);
    var u := s.(c := Relink(s.c, e));
    hide Inv, Relink;
    forall f ensures Uses(u, f) == if f in u.c.entries then u.c.entries[f].ref else 0 { Counted(s, f); }
    AllCounted(u);
    RelinkThreads(s, e);
    RelinkUpcalls(s, e);
    Whole(u);
  }

  lemma RelinkCache(c: Cache, e: nat)
    requires CacheOk(c) && Linked(c, e)
    ensures var d := Relink(c, e);
      && CacheOk(d) && d.entries == c.entries && d.next == c.next
      && (forall f :: f in c.entries ==> (Linked(d, f) <==> Linked(c, f)))
  {
    var i := Slot(c.entries[e].key);
    assert ChainOk(c, i);
    var rest := Without(c.chains[i], e);
    var d := Relink(c, e);
    assert d.chains[i] == [e] + rest;
    forall k | 0 <= k < HASH_SIZE ensures ChainOk(d, k) { assert ChainOk(c, k); }
  }

  lemma RelinkThreads(s: State, e: nat)
    requires Inv(s) && Shaped(s.c) && e in s.c.entries && Linked(s.c, e)
    ensures Shaped(Relink(s.c, e)) && ThreadsOk(s.(c := Relink(s.c, e)))
  {
    hide CacheOk, Inv, RefsOk, UpcallsOk, Relink, Linked;
    Parts(s);
    RelinkCache(s.c, e);
    ShapeOf(Relink(s.c, e));
    forall w | w in s.threads ensures PcOk(Relink(s.c, e), s.threads[w]) { assert PcOk(s.c, s.threads[w]); }
  }

  lemma RelinkUpcalls(s: State, e: nat)
    requires Inv(s) && Shaped(s.c) && e in s.c.entries && Linked(s.c, e)
    ensures UpcallsOk(s.(c := Relink(s.c, e)))
  {
    hide CacheOk, Inv, RefsOk, ThreadsOk, Relink, Linked;
    Parts(s);
    RelinkCache(s.c, e);
  }

  /** A new entry goes onto its chain, referenced, and its upcall begins. */
  function Begin(s: State, t: nat, key: nat, n: nat): State
    requires Shaped(s.c) && n in s.c.entries && n in s.upcalls
  {
    var c := LinkHead(s.c, n);
    SetPc(s, t, Upcalling(key, n))
      .(c := SetEntry(c, n, c.entries[n].(ref := c.entries[n].ref + 1, isNew := false, acquiring := true)),
        upcalls := s.upcalls[n := s.upcalls[n] + 1])
  }

  lemma BeginInv(s: State, t: nat, key: nat, n: nat)
    requires Inv(s) && t in s.threads && s.threads[t] == Searching(key, Some(n))
    requires Shaped(s.c) && forall f :: f in s.c.chains[Slot(key)] && f in s.c.entries ==> s.c.entries[f].key != key
    ensures n in s.c.entries && n in s.upcalls && Inv(Begin(s, t, key, n))
  {
    hide CacheOk, RefsOk, ThreadsOk, UpcallsOk;
    Parts(s);
    SpareUnused(s, t, key, n);
    SpareFacts(s, t, key, n);
    hide Inv;
    BeginCache(s, t, key, n);
    var u := Begin(s, t, key, n);
    hide Begin;
    forall f
      ensures Uses(u, f) == if f in u.c.entries then u.c.entries[f].ref else 0
    {
      Counted(s, f); UsesMoved(s, t, Upcalling(key, n), f);
    }
    AllCounted(u);
    BeginThreads(s, t, key, n);
    BeginUpcalls(s, t, key, n);
    Whole(u);
  }

  lemma SpareFacts(s: State, t: nat, key: nat, n: nat)
    requires Inv(s) && t in s.threads && s.threads[t] == Searching(key, Some(n))
    ensures n in s.c.entries && n in s.upcalls && s.upcalls[n] == 0 && s.c.entries[n].isNew && s.c.entries[n].key == key
    ensures Shaped(s.c) && !Linked(s.c, n) && n !in s.held
  {
    Parts(s);
    hide CacheOk, RefsOk;
    assert PcOk(s.c, s.threads[t]);
  }

  lemma BeginCache(s: State, t: nat, key: nat, n: nat)
    requires CacheOk(s.c) && n in s.c.entries && n in s.upcalls && s.c.entries[n].key == key && !Linked(s.c, n)
    requires forall f :: f in s.c.chains[Slot(key)] && f in s.c.entries ==> s.c.entries[f].key != key
    ensures var u := Begin(s, t, key, n);
      && CacheOk(u.c) && u.c.next == s.c.next && u.threads == s.threads[t := Upcalling(key, n)] && u.held == s.held
      && u.c.entries ==
         s.c.entries[n := s.c.entries[n].(ref := s.c.entries[n].ref + 1, isNew := false, acquiring := true)]
      && (forall f :: f in s.c.entries && f != n ==> (Linked(u.c, f) <==> Linked(s.c, f)))
      && u.upcalls == s.upcalls[n := s.upcalls[n] + 1]
  {
    var u := Begin(s, t, key, n);
    assert ChainOk(s.c, Slot(key));
    forall k | 0 <= k < HASH_SIZE ensures ChainOk(u.c, k) { assert ChainOk(s.c, k); }
  }

  lemma BeginThreads(s: State, t: nat, key: nat, n: nat)
    requires Inv(s) && t in s.threads && s.threads[t] == Searching(key, Some(n)) && n in s.c.entries && n in s.upcalls
    requires Shaped(s.c) && forall f :: f in s.c.chains[Slot(key)] && f in s.c.entries ==> s.c.entries[f].key != key
    ensures Shaped(Begin(s, t, key, n).c) && ThreadsOk(Begin(s, t, key, n))
  {
    hide CacheOk, Inv, RefsOk, UpcallsOk, Linked;
    Parts(s);
    SpareFacts(s, t, key, n);
    BeginCache(s, t, key, n);
    var u := Begin(s, t, key, n);
    ShapeOf(u.c);
    hide Begin;
    forall w | w in u.threads ensures PcOk(u.c, u.threads[w]) {
      if w != t {
        assert PcOk(s.c, s.threads[w]);
        assert SameMine(s.threads[t], s.threads[w]) ==> t == w;
      }
    }
    forall w, v | w in u.threads && v in u.threads && SameMine(u.threads[w], u.threads[v]) ensures w == v {
      assert SameMine(s.threads[w], s.threads[v]);
    }
  }

  lemma BeginUpcalls(s: State, t: nat, key: nat, n: nat)
    requires Inv(s) && t in s.threads && s.threads[t] == Searching(key, Some(n)) && n in s.c.entries && n in s.upcalls
    requires Shaped(s.c) && forall f :: f in s.c.chains[Slot(key)] && f in s.c.entries ==> s.c.entries[f].key != key
    ensures UpcallsOk(Begin(s, t, key, n))
  {
    hide CacheOk, Inv, RefsOk, ThreadsOk, Linked;
    Parts(s);
    SpareFacts(s, t, key, n);
    BeginCache(s, t, key, n);
    hide Begin;
  }
}
