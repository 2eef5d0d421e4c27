/**
 * The table operations refine the operations of a plain multiset of nodes keyed by their
 * key, in every table whose items sit at their current or rehash position: with or without
 * a rehash in progress, and wherever that rehash has got to.
 */
module HashRefine {
  import opened Prelude
  import opened HashTable
  import opened HashOps

  ghost predicate HasKey(items: multiset<Node>, key: Key) {
    exists n :: n in items && n.key == key
  }

  /** What a rehash in progress may rely on: buckets below `upto` are already done. */
  ghost predicate Progress(t: Table, upto: nat)
    requires Arrays(t)
  {
    t.rehashBuckets.Some? ==> Processed(t, upto)
  }

  /** A located item is on one of the chains the dual descriptors name. */
  lemma FoundByDual(t: Table, n: Node) returns (j: nat)
    requires Arrays(t) && Located(t) && n in Items(t)
    ensures AllLive(t, DualBdGet(t, n.key))
    ensures j < |DualBdGet(t, n.key)| && n in ChainAt(t, DualBdGet(t, n.key)[j])
  {
    ItemsHolds(t, n);
    var i: nat, o: nat :| Holds(t, i, o, n);
    DualBdLive(t, n.key);
    CurBdLive(t, n.key);
    var bds := DualBdGet(t, n.key);
    var bd := Bd(Full(t)[i], o);
    if InPlace(t, t.curBits, i, o, n) {
      assert bd == BdFromKey(t, t.buckets, t.curBits, n.key);
      j :| 0 <= j < |bds| && bds[j] == bd;
    } else {
      RehashBdLive(t, n.key);
      assert bd == BdGet(t, n.key);
      j :| 0 <= j < |bds| && bds[j] == bd;
    }
  }

  /** A node on a live chain is an item of the table. */
  lemma OnChainIsItem(t: Table, bd: Bd, n: Node)
    requires Arrays(t) && Live(t, bd) && n in ChainAt(t, bd)
    ensures n in Items(t)
  {
    ChainWithin(t, bd);
    assert n in multiset(ChainAt(t, bd));
  }

  /** Lookup answers as a plain multiset keyed by key would. */
  lemma LookupRefines(t: Table, key: Key)
    requires Arrays(t) && Located(t)
    ensures Lookup(t, key).Some? <==> HasKey(Items(t), key)
    ensures Lookup(t, key).Some? ==> Lookup(t, key).value in Items(t) && Lookup(t, key).value.key == key
  {
    DualBdLive(t, key);
    var f := MultiFind(t, DualBdGet(t, key), key, None);
    if f.Some? {
      OnChainIsItem(t, f.value.0, f.value.1);
    } else if HasKey(Items(t), key) {
      var n :| n in Items(t) && n.key == key;
      var j := FoundByDual(t, n);
    }
  }

  /** The position an addition goes to is a legal position of the node. */
  lemma AddedInPlace(t: Table, n: Node, upto: nat)
    requires Shape(t) && Located(t) && Progress(t, upto) && n !in Items(t)
    ensures var u := Add(t, n); Shape(u) && Full(u) == Full(t) && Located(u) && Progress(u, upto)
    ensures Items(Add(t, n)) == Items(t) + multiset{n}
  {
    DualBdLive(t, n.key);
    var bd := BdGet(t, n.key);
    BdAddOk(t, bd, n);
    var u := Add(t, n);
    if t.rehashBuckets.Some? { RehashBdLive(t, n.key); } else { CurBdLive(t, n.key); }
    forall i: nat, o: nat, m: Node | Holds(u, i, o, m)
      ensures InPlace(u, u.curBits, i, o, m) || (u.rehashBuckets.Some? && InPlace(u, u.rehashBits, i, o, m))
      ensures u.rehashBuckets.Some? && i < upto ==> InPlace(u, u.rehashBits, i, o, m)
    {
      BdAddHolds(t, bd, n, i, o, m);
      assert Holds(t, i, o, m) ==>
        InPlace(t, t.curBits, i, o, m) || (t.rehashBuckets.Some? && InPlace(t, t.rehashBits, i, o, m));
    }
  }

  /** find-or-add: an existing node under the key is returned and nothing changes; otherwise the node is added. */
  lemma FindOrAddRefines(t: Table, n: Node, upto: nat)
    requires Shape(t) && Located(t) && Progress(t, upto) && n !in Items(t)
    ensures var (u, r) := FindOrAdd(t, n);
      if HasKey(Items(t), n.key) then u == t && r in Items(t) && r.key == n.key
      else u == Add(t, n) && r == n
    ensures var u := FindOrAdd(t, n).0; Shape(u) && Full(u) == Full(t) && Located(u) && Progress(u, upto)
  {
    LookupRefines(t, n.key);
    DualBdLive(t, n.key);
    AddedInPlace(t, n, upto);
    var f := MultiFind(t, DualBdGet(t, n.key), n.key, None);
    if f.Some? { OnChainIsItem(t, f.value.0, f.value.1); }
  }

  lemma DeletedStays(t: Table, bd: Bd, n: Node, upto: nat)
    requires Shape(t) && Located(t) && Progress(t, upto) && Live(t, bd) && n in ChainAt(t, bd)
    ensures var u := BdDel(t, bd, n); Shape(u) && Full(u) == Full(t) && Located(u) && Progress(u, upto)
    ensures Items(BdDel(t, bd, n)) == Items(t) - multiset{n} && n in Items(t)
  {
    BdDelOk(t, bd, n);
    var u := BdDel(t, bd, n);
    forall i: nat, o: nat, m: Node | Holds(u, i, o, m) ensures Holds(t, i, o, m) {
      BdDelHolds(t, bd, n, i, o, m);
    }
    assert u == t.(store := u.store, count := u.count);
    hide Arrays, Holds, BdDel;
    FewerPlaces(t, u, upto);
  }

  /** Removing nodes takes none of the others out of place. */
  lemma FewerPlaces(t: Table, u: Table, upto: nat)
    requires Arrays(t) && Located(t) && Progress(t, upto) && Arrays(u) && u == t.(store := u.store, count := u.count)
    requires forall i: nat, o: nat, m: Node :: Holds(u, i, o, m) ==> Holds(t, i, o, m)
    ensures Located(u) && Progress(u, upto)
  {
    hide Arrays, Holds;
  }

  /** A search of the dual descriptors that finds nothing proves absence. */
  lemma NothingFound(t: Table, key: Key, only: Option<Node>)
    requires Arrays(t) && Located(t) && AllLive(t, DualBdGet(t, key))
    requires MultiFind(t, DualBdGet(t, key), key, only).None?
    ensures forall n :: n in Items(t) && n.key == key ==> only.Some? && n != only.value
  {
    forall n | n in Items(t) && n.key == key ensures only.Some? && n != only.value {
      var j := FoundByDual(t, n);
    }
  }

  /** Deletion removes one node with the key (the named one, if any), or reports that there is none. */
  lemma DelRefines(t: Table, key: Key, only: Option<Node>, upto: nat)
    requires Shape(t) && Located(t) && Progress(t, upto) && DelAllowed(t, key, only)
    requires only.Some? ==> only.value.key == key
    ensures var u := Del(t, key, only).0; Shape(u) && Full(u) == Full(t) && Located(u) && Progress(u, upto)
    ensures var (u, r) := Del(t, key, only);
      && (r.Some? ==> && r.value in Items(t) && r.value.key == key && (only.Some? ==> r == only)
                      && Items(u) == Items(t) - multiset{r.value})
      && (r.None? ==> u == t && if only.Some? then only.value !in Items(t) else !HasKey(Items(t), key))
  {
    DualBdLive(t, key);
    var bds := DualBdGet(t, key);
    if |bds| == 1 && only.Some? {
      DeletedStays(t, bds[0], only.value, upto);
    } else {
      var f := MultiFind(t, bds, key, only);
      if f.Some? {
        DeletedStays(t, f.value.0, f.value.1, upto);
      } else {
        NothingFound(t, key, only);
      }
    }
  }
}
