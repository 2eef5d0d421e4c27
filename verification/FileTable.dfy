/**
 * The open file table: slots name file records, and a record counts the slots that name it.
 * Descriptors are 32-bit ints; the table can grow while memory lasts.
 */
module FileTable {
  import opened Prelude

  const EBADF := 9
  const ENOMEM := 12
  const EMFILE := 24
  const INT_LIMIT: nat := 0x8000_0000

  /** Reference counts of the live records, the slots, and the records destroyed so far. */
  datatype Tab = Tab(refs: map<nat, nat>, slots: seq<Option<nat>>, next: nat, gone: set<nat>)

  // ---------------------------------------------------------------- operations

  function Nones(n: nat): seq<Option<nat>> { seq(n, i => None) }

  /** fd_grow to `n` slots; the table never shrinks. */
  function Grow(t: Tab, n: nat, room: bool): (Tab, int) {
    if n >= INT_LIMIT then (t, -EMFILE)
    else if n <= |t.slots| then (t, 0)
    else if !room then (t, -ENOMEM)
    else (t.(slots := t.slots + Nones(n - |t.slots|)), 0)
  }

  /** The first free slot from `low` on, in the table or past its end. */
  function FirstFree(slots: seq<Option<nat>>, low: nat): (k: nat)
    ensures k >= low && (k < |slots| ==> slots[k].None?)
    ensures k == low || k <= |slots|
    ensures forall i :: low <= i < k && i < |slots| ==> slots[i].Some?
    decreases if low < |slots| then |slots| - low else 0
  {
    if low < |slots| && slots[low].Some? then FirstFree(slots, low + 1) else low
  }

  function FindFree(t: Tab, low: nat, room: bool): (Tab, int) {
    var n := FirstFree(t.slots, low);
    if n < |t.slots| then (t, n)
    else
      var (u, err) := Grow(t, n + 1, room);
      if err != 0 then (u, err) else (u, n)
  }

  function Find(t: Tab, fd: int): Option<nat> { if 0 <= fd < |t.slots| then t.slots[fd] else None }

  /** F_RELE: the last reference destroys the record. */
  function Rele(t: Tab, id: nat): Tab
    requires id in t.refs && t.refs[id] > 0
  {
    if t.refs[id] == 1 then t.(refs := t.refs - {id}, gone := t.gone + {id})
    else t.(refs := t.refs[id := t.refs[id] - 1])
  }

  function Ref(t: Tab, id: nat): Tab
    requires id in t.refs
  {
    t.(refs := t.refs[id := t.refs[id] + 1])
  }

  /** The slot takes the record, and the record that was there is released. */
  function Take(t: Tab, id: nat, fd: nat): Tab
    requires fd < |t.slots| && (t.slots[fd].Some? ==> t.slots[fd].value in t.refs && t.refs[t.slots[fd].value] > 0)
  {
    var u := t.(slots := t.slots[fd := Some(id)]);
    if t.slots[fd].Some? then Rele(u, t.slots[fd].value) else u
  }

  /** Where _sysio_fd_set puts a record: the table grown as needed and the slot, or an error. */
  function Place(t: Tab, fd: int, force: bool, room: bool): (r: (Tab, int))
    ensures r.1 >= 0 ==> r.1 < |r.0.slots|
  {
    if fd < 0 || !force then FindFree(t, if fd < 0 then 0 else fd, room)
    else if fd >= |t.slots| then
      var (u, err) := Grow(t, fd + 1, room);
      if err != 0 then (u, err) else (u, fd)
    else (t, fd)
  }

  // ---------------------------------------------------------------- the invariant

  /** How many slots name a record. */
  function Named(t: Tab, id: nat): nat { multiset(t.slots)[Some(id)] }

  function RefOf(t: Tab, id: nat): nat { if id in t.refs then t.refs[id] else 0 }

  /** Every record's count is its number of slots. */
  ghost predicate Counted(t: Tab) {
    (forall id :: RefOf(t, id) == Named(t, id)) && forall id :: id in t.refs ==> t.refs[id] > 0
  }

  /** A record is live or destroyed, never both. */
  ghost predicate Accounted(t: Tab) {
    && (forall id :: id in t.refs ==> id < t.next && id !in t.gone)
    && (forall id: nat :: id < t.next ==> id in t.refs || id in t.gone)
    && (forall id :: id in t.gone ==> id < t.next)
  }

  ghost predicate Inv(t: Tab) { Counted(t) && Accounted(t) && |t.slots| < INT_LIMIT }

  lemma Parts(t: Tab, id: nat)
    requires Inv(t)
    ensures RefOf(t, id) == Named(t, id) && (id in t.refs <==> Named(t, id) > 0)
  {
    assert RefOf(t, id) == Named(t, id);
    hide Accounted;
  }

  /** In every reachable table: a record is destroyed exactly when no slot names it any more. */
  lemma DestroyedIffUnnamed(t: Tab, id: nat)
    requires Inv(t) && id < t.next
    ensures id in t.gone <==> Named(t, id) == 0
    ensures id in t.refs ==> t.refs[id] == Named(t, id)
  {
    Parts(t, id);
    hide Counted;
  }

  lemma ReleRef(t: Tab, id: nat, x: nat)
    requires id in t.refs && t.refs[id] > 0
    ensures RefOf(Rele(t, id), x) == RefOf(t, x) - (if x == id then 1 else 0)
    ensures Rele(t, id).slots == t.slots && Rele(t, id).next == t.next
  {
  }

  lemma RelePositive(t: Tab, id: nat)
    requires id in t.refs && (forall x :: x in t.refs ==> t.refs[x] > 0) && Accounted(t)
    ensures var r := Rele(t, id); (forall x :: x in r.refs ==> r.refs[x] > 0) && Accounted(r)
  {
  }

  lemma CountedFrom(t: Tab)
    requires (forall id :: RefOf(t, id) == Named(t, id)) && forall id :: id in t.refs ==> t.refs[id] > 0
    ensures Counted(t)
  {
    hide Named;
  }

  lemma NamedAt(t: Tab, fd: nat)
    requires fd < |t.slots| && t.slots[fd].Some?
    ensures Named(t, t.slots[fd].value) > 0
  {
    assert t.slots[fd] in t.slots;
  }

  lemma SetSlot(slots: seq<Option<nat>>, fd: nat, x: Option<nat>, y: Option<nat>)
    requires fd < |slots|
    ensures multiset(slots[fd := x])[y] + (if slots[fd] == y then 1 else 0) ==
      multiset(slots)[y] + (if x == y then 1 else 0)
  {
    var rest := slots[..fd] + slots[fd + 1..];
    assert slots == slots[..fd] + [slots[fd]] + slots[fd + 1..];
    assert slots[fd := x] == slots[..fd] + [x] + slots[fd + 1..];
    assert multiset(slots) == multiset(rest) + multiset{slots[fd]};
    assert multiset(slots[fd := x]) == multiset(rest) + multiset{x};
  }

  lemma GrowSlots(slots: seq<Option<nat>>, n: nat, id: nat)
    ensures multiset(slots + Nones(n))[Some(id)] == multiset(slots)[Some(id)]
  {
    assert multiset(slots + Nones(n)) == multiset(slots) + multiset(Nones(n));
    assert Some(id) !in Nones(n);
  }

  // ---------------------------------------------------------------- growing and placing

  lemma GrowInv(t: Tab, n: nat, room: bool)
    requires |t.slots| < INT_LIMIT
    ensures var (u, err) := Grow(t, n, room);
      && u == t.(slots := u.slots) && t.slots <= u.slots && |u.slots| < INT_LIMIT && (err == 0 ==> |u.slots| >= n)
      && (forall i :: |t.slots| <= i < |u.slots| ==> u.slots[i].None?)
      && (forall id :: Named(u, id) == Named(t, id)) && err <= 0
  {
    var (u, err) := Grow(t, n, room);
    if u != t {
      forall id ensures Named(u, id) == Named(t, id) { GrowSlots(t.slots, n - |t.slots|, id); }
    }
  }

  /** A place is found or made without touching any slot in use; unforced, it is the lowest free one. */
  lemma PlaceInv(t: Tab, fd: int, force: bool, room: bool)
    requires |t.slots| < INT_LIMIT
    ensures var (u, n) := Place(t, fd, force, room);
      && u == t.(slots := u.slots) && t.slots <= u.slots && |u.slots| < INT_LIMIT
      && (forall i :: |t.slots| <= i < |u.slots| ==> u.slots[i].None?)
      && (forall id :: Named(u, id) == Named(t, id))
      && (n >= 0 && force && fd >= 0 ==> n == fd)
      && (n >= 0 && !(force && fd >= 0) ==>
            var low := if fd < 0 then 0 else fd;
            n >= low && u.slots[n].None? && forall i :: low <= i < n ==> i < |t.slots| && t.slots[i].Some?)
  {
    hide Named;
    if fd < 0 || !force {
      var k := FirstFree(t.slots, if fd < 0 then 0 else fd);
      GrowInv(t, k + 1, room);
      hide Grow, FirstFree;
    } else {
      GrowInv(t, fd + 1, room);
      hide Grow, FirstFree;
    }
  }

  // ---------------------------------------------------------------- the calls

  /** open: a new record, then the lowest free descriptor; without one the record is released. */
  function Open(t: Tab, room: bool): (Tab, int) {
    var id := t.next;
    var made := t.(refs := t.refs[id := 1], next := id + 1);
    var (u, fd) := Place(made, -1, false, room);
    if fd < 0 then (Rele(u.(refs := made.refs), id), fd)
    else (u.(slots := u.slots[fd := Some(id)], refs := made.refs), fd)
  }

  /** _sysio_fd_dup. */
  function Dup(t: Tab, oldfd: int, newfd: int, force: bool, room: bool): (Tab, int)
    requires Inv(t)
  {
    if oldfd == newfd && oldfd >= 0 then (t, newfd)
    else
      match Find(t, oldfd)
      case None => (t, -EBADF)
      case Some(id) =>
        var (u, fd) := Place(t, newfd, force, room);
        if fd < 0 then (u, fd)
        else
          DupSafe(t, oldfd, newfd, force, room);
          (Ref(Take(u, id, fd), id), fd)
  }

  function Close(t: Tab, fd: int): (Tab, int)
    requires Inv(t)
  {
    match Find(t, fd)
    case None => (t, -EBADF)
    case Some(id) => SlotLive(t, fd); (Rele(t.(slots := t.slots[fd := None]), id), 0)
  }

  lemma SlotLive(t: Tab, fd: nat)
    requires Inv(t) && fd < |t.slots| && t.slots[fd].Some?
    ensures t.slots[fd].value in t.refs && t.refs[t.slots[fd].value] > 0
  {
    NamedAt(t, fd);
  }

  /** Two slots that name one record make two references. */
  lemma TwoSlots(t: Tab, a: nat, b: nat)
    requires a < |t.slots| && b < |t.slots| && a != b && t.slots[a].Some? && t.slots[a] == t.slots[b]
    ensures Named(t, t.slots[a].value) >= 2
  {
    var id := t.slots[a].value;
    SetSlot(t.slots, a, None, Some(id));
    var u := t.(slots := t.slots[a := None]);
    NamedAt(u, b);
  }

  /** Taking over a slot never destroys the record that is being duplicated. */
  lemma DupSafe(t: Tab, oldfd: int, newfd: int, force: bool, room: bool)
    requires Inv(t) && Find(t, oldfd).Some? && !(oldfd == newfd && oldfd >= 0)
    requires Place(t, newfd, force, room).1 >= 0
    ensures var (u, fd) := Place(t, newfd, force, room); var id := Find(t, oldfd).value;
      && id in t.refs && fd != oldfd && Inv(u)
      && (u.slots[fd].Some? ==> u.slots[fd].value in u.refs && u.refs[u.slots[fd].value] > 0)
      && id in Take(u, id, fd).refs
  {
    var (u, fd) := Place(t, newfd, force, room);
    var id := Find(t, oldfd).value;
    PlaceInv(t, newfd, force, room);
    hide Place;
    SlotLive(t, oldfd);
    assert u.slots[oldfd] == t.slots[oldfd];
    if u.slots[fd].Some? {
      SlotLive(u, fd);
      if u.slots[fd].value == id { TwoSlots(u, fd, oldfd); }
    }
  }

  lemma TakenCounts(u: Tab, id: nat, fd: nat)
    requires Inv(u) && fd < |u.slots| && id in u.refs
    requires u.slots[fd].Some? ==> u.slots[fd].value in u.refs && u.refs[u.slots[fd].value] > 0
    requires id in Take(u, id, fd).refs
    ensures Inv(Ref(Take(u, id, fd), id))
  {
    var v := u.(slots := u.slots[fd := Some(id)]);
    var r := Ref(Take(u, id, fd), id);
    forall x ensures RefOf(r, x) == Named(r, x) {
      SetSlot(u.slots, fd, Some(id), Some(x));
      Parts(u, x);
      if u.slots[fd].Some? { ReleRef(v, u.slots[fd].value, x); }
    }
    TakenRest(u, id, fd);
    hide Named, Take, Accounted, Counted;
    CountedFrom(r);
  }

  lemma TakenRest(u: Tab, id: nat, fd: nat)
    requires Inv(u) && fd < |u.slots| && id in u.refs
    requires u.slots[fd].Some? ==> u.slots[fd].value in u.refs && u.refs[u.slots[fd].value] > 0
    requires id in Take(u, id, fd).refs
    ensures var r := Ref(Take(u, id, fd), id);
      (forall x :: x in r.refs ==> r.refs[x] > 0) && Accounted(r) && |r.slots| < INT_LIMIT
  {
    hide Named;
    var v := u.(slots := u.slots[fd := Some(id)]);
    if u.slots[fd].Some? { RelePositive(v, u.slots[fd].value); }
  }

  lemma DupInv(t: Tab, oldfd: int, newfd: int, force: bool, room: bool)
    requires Inv(t)
    ensures Inv(Dup(t, oldfd, newfd, force, room).0)
  {
    if !(oldfd == newfd && oldfd >= 0) && Find(t, oldfd).Some? {
      var id := Find(t, oldfd).value;
      var (u, fd) := Place(t, newfd, force, room);
      PlaceInv(t, newfd, force, room);
      if fd >= 0 {
        DupSafe(t, oldfd, newfd, force, room);
        hide Place, Inv, Take;
        TakenCounts(u, id, fd);
      }
    }
  }

  /** The request the source answers at once, without looking at the table. */
  predicate OntoItself(oldfd: int, newfd: int) { oldfd == newfd && oldfd >= 0 }

  predicate LowestFree(t: Tab, low: int, fd: int) {
    fd >= low && Find(t, fd).None? && forall i :: low <= i < fd ==> Find(t, i).Some?
  }

  /**
   * What dup promises: the record is found, and the new descriptor names it too, in a slot that
   * was the lowest free.
   */
  predicate DupPromise(t: Tab, oldfd: int, newfd: int, r: Tab, fd: int) {
    && Find(t, oldfd).Some? && Find(r, fd) == Find(t, oldfd)
    && LowestFree(t, if newfd < 0 then 0 else newfd, fd)
  }

  /**
   * A dup fails with EBADF exactly on an unused descriptor that is not duplicated onto itself,
   * and an unforced one keeps its promise exactly when it is not onto itself.  No slot changes
   * but the one taken, and both descriptors name the record afterwards.
   */
  lemma DupNames(t: Tab, oldfd: int, newfd: int, force: bool, room: bool)
    requires Inv(t)
    ensures var (r, fd) := Dup(t, oldfd, newfd, force, room);
      && (fd == -EBADF <==> Find(t, oldfd).None? && !OntoItself(oldfd, newfd))
      && (fd < 0 ==> forall i :: Find(r, i) == Find(t, i))
      && (OntoItself(oldfd, newfd) ==> fd == newfd && r == t)
      && (fd >= 0 && !(force && newfd >= 0) ==> (DupPromise(t, oldfd, newfd, r, fd) <==> !OntoItself(oldfd, newfd)))
      && (fd >= 0 && force && newfd >= 0 ==> fd == newfd)
      && (fd >= 0 ==>
            && Find(r, fd) == Find(t, oldfd) && Find(r, oldfd) == Find(t, oldfd)
            && (forall i :: 0 <= i && i != fd ==> Find(r, i) == Find(t, i)))
  {
    if !(oldfd == newfd && oldfd >= 0) && Find(t, oldfd).Some? {
      PlaceInv(t, newfd, force, room);
      var (u, fd) := Place(t, newfd, force, room);
      if fd >= 0 {
        DupSafe(t, oldfd, newfd, force, room);
        hide Place, Inv;
      }
    }
  }

  /** An unused descriptor duplicated onto itself: no error, and nothing is open afterwards. */
  lemma DupOfUnused(room: bool)
    ensures Inv(Empty()) && Find(Empty(), 5).None?
    ensures Dup(Empty(), 5, 5, true, room) == (Empty(), 5)
  {
    EmptyInv();
  }

  /** An open descriptor duplicated unforced onto itself: the answer is not the free slot above it. */
  lemma DupOfOpen(room: bool)
    ensures var t := Open(Empty(), true).0;
      && Inv(t) && Find(t, 0).Some? && LowestFree(t, 0, 1)
      && Dup(t, 0, 0, false, room) == (t, 0) && !DupPromise(t, 0, 0, t, 0)
  {
    EmptyInv();
    OpenInv(Empty(), true);
  }

  lemma OpenInv(t: Tab, room: bool)
    requires Inv(t)
    ensures var (r, fd) := Open(t, room);
      && Inv(r) && r.next == t.next + 1
      && (fd >= 0 ==>
            && Find(r, fd) == Some(t.next) && Find(t, fd).None? && (forall i :: 0 <= i < fd ==> Find(t, i).Some?)
            && (forall i :: 0 <= i && i != fd ==> Find(r, i) == Find(t, i)))
      && (fd < 0 ==> t.next in r.gone && forall i :: Find(r, i) == Find(t, i))
  {
    OpenPlaces(t, room);
    OpenCounts(t, room);
  }

  lemma OpenPlaces(t: Tab, room: bool)
    requires |t.slots| < INT_LIMIT
    ensures var id := t.next;
      var made := t.(refs := t.refs[id := 1], next := id + 1);
      var (u, fd) := Place(made, -1, false, room);
      && u == made.(slots := u.slots) && t.slots <= u.slots && |u.slots| < INT_LIMIT
      && (forall x :: Named(u, x) == Named(t, x))
      && (forall i :: |t.slots| <= i < |u.slots| ==> u.slots[i].None?)
      && (fd >= 0 ==> u.slots[fd].None? && forall i :: 0 <= i < fd ==> i < |t.slots| && t.slots[i].Some?)
  {
    var id := t.next;
    var made := t.(refs := t.refs[id := 1], next := id + 1);
    PlaceInv(made, -1, false, room);
    var (u, fd) := Place(made, -1, false, room);
    hide Place;
    forall x ensures Named(u, x) == Named(t, x) { assert Named(u, x) == Named(made, x); }
  }

  lemma OpenCounts(t: Tab, room: bool)
    requires Inv(t)
    ensures Inv(Open(t, room).0)
  {
    hide Named, Accounted, Counted, Place, RefOf, Open;
    var r := Open(t, room).0;
    forall x ensures RefOf(r, x) == Named(r, x) { OpenCount(t, room, x); }
    OpenAccounts(t, room);
    CountedFrom(r);
  }

  lemma OpenCount(t: Tab, room: bool, x: nat)
    requires Inv(t)
    ensures RefOf(Open(t, room).0, x) == Named(Open(t, room).0, x)
  {
    hide Place, Accounted;
    OpenPlaces(t, room);
    Parts(t, x);
    hide Inv;
    var id := t.next;
    var (u, fd) := Place(t.(refs := t.refs[id := 1], next := id + 1), -1, false, room);
    assert Named(u, x) == Named(t, x);
    NextUnused(t);
    if fd >= 0 { SetSlot(u.slots, fd, Some(id), Some(x)); }
  }

  lemma NextUnused(t: Tab)
    requires Inv(t)
    ensures t.next !in t.refs && t.next !in t.gone
  {
    hide Counted;
  }

  lemma OpenAccounts(t: Tab, room: bool)
    requires Inv(t)
    ensures var r := Open(t, room).0;
      Accounted(r) && (forall x :: x in r.refs ==> r.refs[x] > 0) && |r.slots| < INT_LIMIT
  {
    OpenPlaces(t, room);
    hide Place, Named;
  }

  lemma CloseInv(t: Tab, fd: int)
    requires Inv(t)
    ensures var (r, err) := Close(t, fd);
      && Inv(r) && (err == 0 <==> Find(t, fd).Some?) && (err != 0 ==> err == -EBADF && r == t)
      && (err == 0 ==> Find(r, fd).None? && forall i :: i != fd ==> Find(r, i) == Find(t, i))
  {
    if Find(t, fd).Some? {
      SlotLive(t, fd);
      var id := t.slots[fd].value;
      var v := t.(slots := t.slots[fd := None]);
      var r := Close(t, fd).0;
      forall x: nat ensures RefOf(r, x) == Named(r, x) {
        SetSlot(t.slots, fd, None, Some(x));
        Parts(t, x);
        ReleRef(v, id, x);
      }
      RelePositive(v, id);
      hide Named, Rele;
      CountedFrom(r);
      hide Counted, Accounted;
      ReleRef(v, id, id);
    }
  }

  /** _sysio_fd_close_all, from slot `k` on. */
  function CloseFrom(t: Tab, k: nat): Tab
    requires Inv(t) && k <= |t.slots|
    decreases |t.slots| - k
  {
    if k == |t.slots| then t
    else
      CloseInv(t, k);
      CloseFrom(Close(t, k).0, k + 1)
  }

  lemma {:induction false} CloseAllInv(t: Tab, k: nat)
    requires Inv(t) && k <= |t.slots| && forall i :: 0 <= i < k ==> t.slots[i].None?
    ensures var r := CloseFrom(t, k);
      Inv(r) && r.next == t.next && (forall i :: 0 <= i < |r.slots| ==> r.slots[i].None?) && r.refs == map[]
    decreases |t.slots| - k
  {
    if k < |t.slots| {
      CloseInv(t, k);
      var u := Close(t, k).0;
      assert |u.slots| == |t.slots|;
      forall i | 0 <= i < k + 1 ensures u.slots[i].None? { assert Find(u, i) == if i == k then None else Find(t, i); }
      hide Inv, Close;
      CloseAllInv(u, k + 1);
    } else {
      forall id: nat ensures id !in t.refs {
        Parts(t, id);
        assert Some(id) !in t.slots;
      }
      assert t.refs == map[];
    }
  }

  // ---------------------------------------------------------------- runs

  datatype Event =
    | EvOpen(room: bool)
    | EvDup(oldfd: int, newfd: int, force: bool, room: bool)
    | EvClose(fd: int)
    | EvCloseAll

  function Step(t: Tab, e: Event): Tab
    requires Inv(t)
  {
    match e
    case EvOpen(room) => Open(t, room).0
    case EvDup(oldfd, newfd, force, room) => Dup(t, oldfd, newfd, force, room).0
    case EvClose(fd) => Close(t, fd).0
    case EvCloseAll => CloseFrom(t, 0)
  }

  lemma StepInv(t: Tab, e: Event)
    requires Inv(t)
    ensures Inv(Step(t, e)) && Step(t, e).next >= t.next
  {
    match e
    case EvOpen(room) => OpenInv(t, room);
    case EvDup(oldfd, newfd, force, room) =>
      DupInv(t, oldfd, newfd, force, room);
      DupNext(t, oldfd, newfd, force, room);
    case EvClose(fd) => CloseInv(t, fd);
    case EvCloseAll => CloseAllInv(t, 0);
  }

  lemma DupNext(t: Tab, oldfd: int, newfd: int, force: bool, room: bool)
    requires Inv(t)
    ensures Dup(t, oldfd, newfd, force, room).0.next == t.next
  {
    if !(oldfd == newfd && oldfd >= 0) && Find(t, oldfd).Some? {
      PlaceInv(t, newfd, force, room);
      if Place(t, newfd, force, room).1 >= 0 { DupSafe(t, oldfd, newfd, force, room); }
    }
  }

  function Empty(): Tab { Tab(map[], [], 0, {}) }

  lemma EmptyInv()
    ensures Inv(Empty())
  {
  }

  ghost predicate Run(ts: seq<Tab>, es: seq<Event>) {
    |ts| == |es| + 1 && ts[0] == Empty() && forall k :: 0 <= k < |es| ==>
      (Inv(ts[k]) ==> ts[k + 1] == Step(ts[k], es[k]))
  }

  /** Over any run of open, dup, dup2 and close, a record's count is its slots and it dies with the last of them. */
  lemma {:induction false} RunCounts(ts: seq<Tab>, es: seq<Event>, k: nat, id: nat)
    requires Run(ts, es) && k <= |es|
    ensures Inv(ts[k]) && (k < |es| ==> ts[k + 1] == Step(ts[k], es[k]))
    ensures id in ts[k].refs ==> ts[k].refs[id] == Named(ts[k], id) > 0
    ensures id < ts[k].next ==> (id in ts[k].gone <==> Named(ts[k], id) == 0)
  {
    hide Inv, Step;
    if k == 0 {
      EmptyInv();
    } else {
      RunCounts(ts, es, k - 1, id);
      StepInv(ts[k - 1], es[k - 1]);
    }
    Parts(ts[k], id);
    if id < ts[k].next { DestroyedIffUnnamed(ts[k], id); }
  }
}
