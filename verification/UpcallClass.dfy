/** The upcall cache's lock-protected operations on its entries and chains, in place. */
module UpcallClass {
  import opened Prelude
  import opened UpcallCache
  import opened UpcallSteps
  import opened UpcallRuns

  class UpCache {
    var entries: map<nat, Entry>
    var chains: seq<seq<nat>>
    var next: nat

    function C(): Cache reads this { Cache(entries, chains, next) }

    constructor ()
      ensures CacheOk(C()) && entries == map[] && forall i :: 0 <= i < |chains| ==> chains[i] == []
    {
      entries, next := map[], 0;
      chains := seq(HASH_SIZE, i => EmptyChain(i));
      new;
      forall i | 0 <= i < HASH_SIZE ensures ChainOk(C(), i) { assert chains[i] == []; }
    }

    method ListDel(e: nat)
      requires Shaped(C()) && e in entries
      modifies this`chains
      ensures C() == Unlink(old(C()), e)
    {
      var i := entries[e].key % HASH_SIZE;
      chains := chains[i := Without(chains[i], e)];
    }

    method Free(e: nat)
      requires Shaped(C()) && e in entries
      modifies this`chains, this`entries
      ensures C() == FreeEntry(old(C()), e)
    {
      ListDel(e);
      entries := entries - {e};
    }

    /** put_entry: a stale entry goes with its last reference. */
    method Put(e: nat)
      requires Shaped(C()) && e in entries && entries[e].ref > 0
      modifies this`chains, this`entries
      ensures C() == PutRef(old(C()), e)
    {
      entries := entries[e := entries[e].(ref := entries[e].ref - 1)];
      if entries[e].ref == 0 && (entries[e].invalid || entries[e].expired) {
        Free(e);
      }
    }

    /** check_unlink_entry. */
    method Check(e: nat, now: int) returns (gone: bool)
      requires Shaped(C()) && e in entries
      modifies this`chains, this`entries
      ensures (C(), gone) == CheckUnlink(old(C()), e, now)
    {
      var x := entries[e];
      if IsValid(x) && now < x.expire {
        return false;
      }
      if x.acquiring {
        if x.acquireExpire == 0 || now < x.acquireExpire {
          return false;
        }
        entries := entries[e := x.(expired := true)];
      } else if !x.invalid {
        entries := entries[e := x.(expired := true)];
      }
      ghost var d := C();
      assert d == SetEntry(old(C()), e, if x.acquiring || !x.invalid then x.(expired := true) else x) by {
        if !(x.acquiring || !x.invalid) { assert old(entries)[e := x] == old(entries); }
      }
      ListDel(e);
      if entries[e].ref == 0 {  // free_entry, the list entry being empty already
        entries := entries - {e};
      }
      gone := true;
    }

    /** The search loop of upcall_cache_get_entry. */
    method Search(key: nat, now: int) returns (found: Option<nat>)
      requires CacheOk(C())
      modifies this`chains, this`entries
      ensures CacheOk(C()) && (C(), found) == SearchSpec(old(C()), key, now)
    {
      hide CacheOk, CheckUnlink, Scan, Shed;
      ghost var c := C();
      ShapeOf(c);
      ChainList(c, key);
      ScanShed(c, c.chains[Slot(key)], key, now);
      var list := chains[key % HASH_SIZE];
      var k := 0;
      assert list[0..] == list;
      while k < |list|
        invariant 0 <= k <= |list| && Shaped(C()) && Distinct(list[k..])
        invariant forall e :: e in list[k..] ==> e in entries
        invariant Scan(C(), list[k..], key, now) == Scan(c, list, key, now)
      {
        var entry := list[k];
        ScanStep(C(), list, k, key, now);
        var mykey := entries[entry].key;
        var gone := Check(entry, now);
        if !gone && mykey == key {
          return Some(entry);
        }
        k := k + 1;
      }
      ScanEnd(C(), list, key, now);
      found := None;
    }

    /** cache_flush without force: what is held is only marked. */
    method FlushIdle()
      requires CacheOk(C())
      modifies this`chains, this`entries
      ensures C() == FlushFrom(old(C()), 0) && CacheOk(C())
    {
      hide CacheOk, FlushChain, Shed;
      var i := 0;
      while i < HASH_SIZE
        invariant 0 <= i <= HASH_SIZE && CacheOk(C()) && FlushFrom(C(), i) == FlushFrom(old(C()), 0)
      {
        WholeChain(C(), i);
        FlushChainShed(C(), C().chains[i], i);
        FlushOne(i);
        i := i + 1;
      }
    }

    /** The loop over one chain. */
    method FlushOne(i: nat)
      requires Shaped(C()) && i < HASH_SIZE && Distinct(chains[i]) && forall e :: e in chains[i] ==> e in entries
      modifies this`chains, this`entries
      ensures C() == FlushChain(old(C()), old(chains[i]))
    {
      ghost var c := C();
      var list := chains[i];
      var k := 0;
      assert list[0..] == list;
      while k < |list|
        invariant 0 <= k <= |list| && Shaped(C()) && Distinct(list[k..]) && forall e :: e in list[k..] ==> e in entries
        invariant FlushChain(C(), list[k..]) == FlushChain(c, list)
      {
        var entry := list[k];
        assert list[k..][0] == entry && list[k..][1..] == list[k + 1..];
        if entries[entry].ref > 0 {
          entries := entries[entry := entries[entry].(expired := true)];
        } else {
          Free(entry);
        }
        k := k + 1;
      }
    }

    /** The search loop of a downcall, and of upcall_cache_flush_one. */
    method Lookup(key: nat) returns (found: Option<nat>)
      requires Shaped(C())
      ensures found == FindKey(C(), chains[Slot(key)], key)
    {
      var list := chains[key % HASH_SIZE];
      var k := 0;
      assert list[0..] == list;
      while k < |list|
        invariant 0 <= k <= |list| && FindKey(C(), list[k..], key) == FindKey(C(), list, key)
      {
        assert list[k..][0] == list[k] && list[k..][1..] == list[k + 1..];
        if list[k] in entries && entries[list[k]].key == key {
          return Some(list[k]);
        }
        k := k + 1;
      }
      found := None;
    }

    /** upcall_cache_flush_one. */
    method FlushEntry(key: nat)
      requires CacheOk(C())
      modifies this`chains, this`entries
      ensures C() == FlushKey(old(C()), key) && CacheOk(C())
    {
      FlushKeyShed(C(), key);
      ShedOk(C(), FlushKey(C(), key));
      hide CacheOk, Shed, FindKey;
      ShapeOf(C());
      var found := Lookup(key);
      if found.Some? {
        var e := found.value;
        entries := entries[e := entries[e].(expired := true)];
        if entries[e].ref == 0 {
          Free(e);
        }
      }
    }
  }

  function SearchSpec(c: Cache, key: nat, now: int): (Cache, Option<nat>)
    requires CacheOk(c)
  {
    hide CacheOk;
    ChainList(c, key);
    ShapeOf(c);
    Scan(c, c.chains[Slot(key)], key, now)
  }

  lemma ScanStep(c: Cache, list: seq<nat>, k: nat, key: nat, now: int)
    requires Shaped(c) && k < |list| && Distinct(list[k..]) && forall e :: e in list[k..] ==> e in c.entries
    ensures list[k] in c.entries && Distinct(list[k + 1..])
    ensures var (d, gone) := CheckUnlink(c, list[k], now);
      && Shaped(d) && (forall e :: e in list[k + 1..] ==> e in d.entries)
      && Scan(c, list[k..], key, now) ==
         if !gone && c.entries[list[k]].key == key then (d, Some(list[k])) else Scan(d, list[k + 1..], key, now)
  {
    var l := list[k..];
    assert l[0] == list[k] && l[1..] == list[k + 1..];
    assert l[0] !in l[1..];
  }

  lemma ScanEnd(c: Cache, list: seq<nat>, key: nat, now: int)
    requires Shaped(c)
    ensures list[|list|..] == [] && Scan(c, [], key, now) == (c, None)
  {
  }
}
