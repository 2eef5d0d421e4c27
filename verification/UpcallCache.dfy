/**
 * The upcall cache: entries fetched by an upcall to user space, kept on hash chains, and
 * returned with a reference.  Every region under the cache lock is one step; the upcall, the
 * wait and the parsing of a downcall happen between steps.  The cache compares keys only.
 */
module UpcallCache {
  import opened Prelude

  const HASH_SIZE: nat := 128

  datatype Entry = Entry(
    key: nat, isNew: bool, acquiring: bool, invalid: bool, expired: bool, ref: nat, acquireExpire: int, expire: int)

  /** Entries by allocation number, and the chains of linked ones. */
  datatype Cache = Cache(entries: map<nat, Entry>, chains: seq<seq<nat>>, next: nat)

  /** Where a thread is between two steps. */
  datatype Pc =
    | Idle
    | Searching(key: nat, mine: Option<nat>)
    | Upcalling(key: nat, e: nat)
    | Waiting(key: nat, e: nat, created: bool)
    | Parsing(e: nat)
    | Dropping(e: nat)

  /** `held` are the references callers own; `upcalls` counts do_upcall calls of each entry. */
  datatype State = State(c: Cache, threads: map<nat, Pc>, held: multiset<nat>, upcalls: map<nat, nat>, limits: Limits)

  datatype Limits = Limits(entryExpire: int, acquireExpire: int)

  datatype Event =
    | EvGet(t: nat, key: nat)
    | EvFind(t: nat, now: int, later: int, room: bool)
    | EvUpcallDone(t: nat, rc: int, now: int)
    | EvWake(t: nat, now: int)
    | EvPut(e: nat)
    | EvDowncall(t: nat, key: nat, err: nat)
    | EvParsed(t: nat, rc: int, now: int)
    | EvDropped(t: nat)
    | EvFlushIdle
    | EvFlushAll
    | EvFlushOne(key: nat)

  const EREMCHG := 78

  // ---------------------------------------------------------------- the cache

  predicate IsValid(x: Entry) { !x.isNew && !x.acquiring && !x.invalid && !x.expired }

  function Slot(key: nat): nat { key % HASH_SIZE }

  predicate Shaped(c: Cache) { |c.chains| == HASH_SIZE }

  predicate Linked(c: Cache, e: nat)
    requires Shaped(c)
  {
    e in c.entries && e in c.chains[Slot(c.entries[e].key)]
  }

  function SetEntry(c: Cache, e: nat, x: Entry): Cache { c.(entries := c.entries[e := x]) }

  function Unlink(c: Cache, e: nat): Cache
    requires Shaped(c) && e in c.entries
  {
    var i := Slot(c.entries[e].key);
    c.(chains := c.chains[i := Without(c.chains[i], e)])
  }

  /** Also takes the entry off its chain. */
  function FreeEntry(c: Cache, e: nat): Cache
    requires Shaped(c) && e in c.entries
  {
    Unlink(c, e).(entries := c.entries - {e})
  }

  function LinkHead(c: Cache, e: nat): Cache
    requires Shaped(c) && e in c.entries
  {
    var i := Slot(c.entries[e].key);
    c.(chains := c.chains[i := [e] + c.chains[i]])
  }

  function GetRef(c: Cache, e: nat): Cache
    requires e in c.entries
  {
    SetEntry(c, e, c.entries[e].(ref := c.entries[e].ref + 1))
  }

  function PutRef(c: Cache, e: nat): Cache
    requires Shaped(c) && e in c.entries && c.entries[e].ref > 0
  {
    var d := SetEntry(c, e, c.entries[e].(ref := c.entries[e].ref - 1));
    if d.entries[e].ref == 0 && (d.entries[e].invalid || d.entries[e].expired) then FreeEntry(d, e) else d
  }

  /** Whether an entry is good, or still being acquired, at a time. */
  predicate Current(x: Entry, now: int) {
    (IsValid(x) && now < x.expire) || (x.acquiring && (x.acquireExpire == 0 || now < x.acquireExpire))
  }

  /** check_unlink_entry: an entry that is not current is unlinked, and freed if nobody holds it. */
  function CheckUnlink(c: Cache, e: nat, now: int): (Cache, bool)
    requires Shaped(c) && e in c.entries
  {
    var x := c.entries[e];
    if Current(x, now) then (c, false)
    else
      var d := SetEntry(c, e, if x.acquiring || !x.invalid then x.(expired := true) else x);
      (if x.ref == 0 then FreeEntry(d, e) else Unlink(d, e), true)
  }

  /** The search of a chain, dropping what is not current on the way. */
  function Scan(c: Cache, list: seq<nat>, key: nat, now: int): (Cache, Option<nat>)
    requires Shaped(c) && Distinct(list) && forall e :: e in list ==> e in c.entries
    decreases |list|
  {
    if list == [] then (c, None)
    else
      var (d, gone) := CheckUnlink(c, list[0], now);
      if !gone && c.entries[list[0]].key == key then (d, Some(list[0]))
      else Scan(d, list[1..], key, now)
  }

  function FindKey(c: Cache, list: seq<nat>, key: nat): (r: Option<nat>)
    ensures r.Some? ==> r.value in list && r.value in c.entries && c.entries[r.value].key == key
    ensures r.None? ==> forall e :: e in list && e in c.entries ==> c.entries[e].key != key
  {
    if list == [] then None
    else if list[0] in c.entries && c.entries[list[0]].key == key then Some(list[0])
    else FindKey(c, list[1..], key)
  }

  /** cache_flush over one chain. */
  function FlushChain(c: Cache, list: seq<nat>): Cache
    requires Shaped(c) && Distinct(list) && forall e :: e in list ==> e in c.entries
    decreases |list|
  {
    if list == [] then c
    else if c.entries[list[0]].ref > 0 then
      FlushChain(SetEntry(c, list[0], c.entries[list[0]].(expired := true)), list[1..])
    else FlushChain(FreeEntry(c, list[0]), list[1..])
  }

  // ---------------------------------------------------------------- well-formed caches

  ghost predicate ChainOk(c: Cache, i: nat)
    requires i < |c.chains|
  {
    && Distinct(c.chains[i])
    && (forall e :: e in c.chains[i] ==> e in c.entries && Slot(c.entries[e].key) == i && !c.entries[e].isNew)
    && (forall e, f :: e in c.chains[i] && f in c.chains[i] && c.entries[e].key == c.entries[f].key ==> e == f)
  }

  ghost predicate CacheOk(c: Cache) {
    Shaped(c) && (forall i :: 0 <= i < HASH_SIZE ==> ChainOk(c, i)) && forall e :: e in c.entries ==> e < c.next
  }

  /** At most one linked entry for a key. */
  lemma OneLinked(c: Cache, e: nat, f: nat)
    requires CacheOk(c) && Linked(c, e) && Linked(c, f) && c.entries[e].key == c.entries[f].key
    ensures e == f
  {
    assert ChainOk(c, Slot(c.entries[e].key));
  }

  /** Idle linked entries went, others were marked expired, and nothing else changed. */
  ghost predicate Shed(c: Cache, d: Cache) {
    && Shaped(c) && Shaped(d) && d.next == c.next && d.entries.Keys <= c.entries.Keys
    && (forall e :: e in c.entries && e !in d.entries ==> c.entries[e].ref == 0 && Linked(c, e))
    && (forall e :: e in d.entries ==> d.entries[e] == c.entries[e].(expired := d.entries[e].expired))
    && (forall e :: e in d.entries && c.entries[e].expired ==> d.entries[e].expired)
    && (forall i :: 0 <= i < HASH_SIZE ==> ChainShed(c, d, i))
  }

  ghost predicate ChainShed(c: Cache, d: Cache, i: nat)
    requires i < |c.chains| && i < |d.chains|
  {
    && (Distinct(c.chains[i]) ==> Distinct(d.chains[i]))
    && (forall e :: e in d.chains[i] ==> e in c.chains[i] && e in d.entries)
  }

  lemma ShedSelf(c: Cache)
    requires CacheOk(c)
    ensures Shed(c, c)
  {
    forall i | 0 <= i < HASH_SIZE ensures ChainShed(c, c, i) { assert ChainOk(c, i); }
  }

  lemma ShedTrans(c: Cache, d: Cache, f: Cache)
    requires Shed(c, d) && Shed(d, f)
    ensures Shed(c, f)
  {
    forall i | 0 <= i < HASH_SIZE ensures ChainShed(c, f, i) { assert ChainShed(c, d, i) && ChainShed(d, f, i); }
    forall e | e in c.entries && e !in f.entries ensures c.entries[e].ref == 0 && Linked(c, e) {
      if e in d.entries { assert ChainShed(c, d, Slot(d.entries[e].key)); }
    }
  }

  lemma ShedOk(c: Cache, d: Cache)
    requires CacheOk(c) && Shed(c, d)
    ensures CacheOk(d)
  {
    forall i | 0 <= i < HASH_SIZE ensures ChainOk(d, i) { assert ChainOk(c, i) && ChainShed(c, d, i); }
  }

  // ---------------------------------------------------------------- the operations shed

  lemma FreeShed(c: Cache, e: nat)
    requires CacheOk(c) && Linked(c, e) && c.entries[e].ref == 0
    ensures Shed(c, FreeEntry(c, e)) && !Linked(FreeEntry(c, e), e)
  {
    var d := FreeEntry(c, e);
    forall i | 0 <= i < HASH_SIZE ensures ChainShed(c, d, i) {
      assert ChainOk(c, i);
      assert ChainOk(c, Slot(c.entries[e].key));
    }
  }

  lemma MarkShed(c: Cache, e: nat)
    requires CacheOk(c) && e in c.entries
    ensures Shed(c, SetEntry(c, e, c.entries[e].(expired := true)))
  {
    var d := SetEntry(c, e, c.entries[e].(expired := true));
    forall i | 0 <= i < HASH_SIZE ensures ChainShed(c, d, i) { assert ChainOk(c, i); }
  }

  lemma UnlinkShed(c: Cache, e: nat)
    requires CacheOk(c) && e in c.entries
    ensures Shed(c, Unlink(c, e)) && !Linked(Unlink(c, e), e) && Unlink(c, e).entries == c.entries
  {
    var d := Unlink(c, e);
    assert ChainOk(c, Slot(c.entries[e].key));
    forall i | 0 <= i < HASH_SIZE ensures ChainShed(c, d, i) { assert ChainOk(c, i); }
  }

  /** The entry is off its chain, and all others are as they were. */
  ghost predicate CheckedOff(c: Cache, d: Cache, e: nat) {
    && Shaped(c) && Shaped(d) && !Linked(d, e)
    && (forall f :: f in d.entries && f != e ==> f in c.entries && d.entries[f] == c.entries[f])
    && (forall i, f :: 0 <= i < HASH_SIZE && f in c.chains[i] && f != e ==> f in d.chains[i])
  }

  /** A checked entry is linked still if it is current; otherwise it is off its chain. */
  lemma CheckShed(c: Cache, e: nat, now: int)
    requires CacheOk(c) && e in c.entries && (Linked(c, e) || c.entries[e].ref > 0)
    ensures var (d, gone) := CheckUnlink(c, e, now);
      && Shed(c, d) && CacheOk(d) && (!gone ==> d == c) && (gone ==> CheckedOff(c, d, e))
      && (c.entries[e].ref > 0 ==> e in d.entries)
  {
    var x := c.entries[e];
    ShedSelf(c);
    if !Current(x, now) {
      var y := if x.acquiring || !x.invalid then x.(expired := true) else x;
      var d := SetEntry(c, e, y);
      if y == x { assert d == c by { assert d.entries == c.entries; } } else { MarkShed(c, e); }
      if x.ref == 0 { FreedShed(c, d, e); } else { DroppedShed(c, d, e); }
    }
    hide CacheOk, Shed, Current;
  }

  /** The entry, marked, is unreferenced and goes. */
  lemma FreedShed(c: Cache, d: Cache, e: nat)
    requires CacheOk(c) && Linked(c, e) && Shed(c, d) && d.chains == c.chains && e in d.entries && d.entries[e].ref == 0
    requires d.entries.Keys == c.entries.Keys && forall f :: f in d.entries && f != e ==> d.entries[f] == c.entries[f]
    ensures Shed(c, FreeEntry(d, e)) && CacheOk(FreeEntry(d, e)) && CheckedOff(c, FreeEntry(d, e), e)
  {
    ShedOk(c, d);
    FreeShed(d, e);
    ShedTrans(c, d, FreeEntry(d, e));
    ShedOk(c, FreeEntry(d, e));
    hide CacheOk, Shed, ChainShed;
  }

  /** The entry, marked, is held and only leaves its chain. */
  lemma DroppedShed(c: Cache, d: Cache, e: nat)
    requires CacheOk(c) && Shed(c, d) && d.chains == c.chains && e in d.entries
    requires d.entries.Keys == c.entries.Keys && forall f :: f in d.entries && f != e ==> d.entries[f] == c.entries[f]
    ensures Shed(c, Unlink(d, e)) && CacheOk(Unlink(d, e)) && CheckedOff(c, Unlink(d, e), e)
    ensures e in Unlink(d, e).entries
  {
    ShedOk(c, d);
    UnlinkShed(d, e);
    ShedTrans(c, d, Unlink(d, e));
    ShedOk(c, Unlink(d, e));
    hide CacheOk, Shed, ChainShed;
  }
}
