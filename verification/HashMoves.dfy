/**
 * Where the items are while a rehash is under way, told from the run alone: an item that has
 * been in the table since the rehash began is at its old place until the front passes its old
 * bucket, and any other item is at its new place.
 */
module HashMoves {
  import opened Prelude
  import opened HashTable
  import opened HashOps
  import opened HashRefine
  import opened HashRehash
  import opened HashSystem
  import opened HashSafety
  import opened HashTheorems

  // ---------------------------------------------------------------- one bucket

  ghost predicate InBucket(t: Table, i: nat, n: Node)
    requires Arrays(t)
  {
    exists o: nat :: Holds(t, i, o, n)
  }

  /** Whoever is somewhere in `u` was there in `t`, or came from bucket `i` to its new place. */
  ghost predicate CameFrom(t: Table, u: Table, i: nat, p: nat, q: nat, m: Node)
    requires Arrays(t) && Arrays(u) && t.cfg.bktBits <= t.rehashBits
  {
    Holds(u, p, q, m) ==> Holds(t, p, q, m) || (InBucket(t, i, m) && InPlace(t, t.rehashBits, p, q, m))
  }

  ghost predicate Came(t: Table, u: Table, i: nat)
    requires Arrays(t) && Arrays(u) && t.cfg.bktBits <= t.rehashBits
  {
    forall p: nat, q: nat, m: Node :: CameFrom(t, u, i, p, q, m)
  }

  lemma CameTrans(t: Table, u: Table, v: Table, i: nat)
    requires Arrays(t) && Arrays(u) && Arrays(v) && t.cfg.bktBits <= t.rehashBits
    requires u.cfg == t.cfg && u.rehashBits == t.rehashBits && Came(t, u, i) && Came(u, v, i)
    ensures Came(t, v, i)
  {
    hide Arrays, Holds;
    forall p: nat, q: nat, m: Node ensures CameFrom(t, v, i, p, q, m) {
      assert CameFrom(u, v, i, p, q, m) && CameFrom(t, u, i, p, q, m);
      if o: nat :| Holds(u, i, o, m) { assert CameFrom(t, u, i, i, o, m); }
    }
  }

  lemma CameSelf(t: Table, i: nat)
    requires Arrays(t) && t.cfg.bktBits <= t.rehashBits
    ensures Came(t, t, i)
  {
    hide Arrays, Holds;
  }

  lemma MoveCame(t: Table, i: nat, o: nat, k: nat)
    requires Rehashing(t, i) && o < NumHeads(t.cfg)
    requires t.buckets[i] in t.store && o < |t.store[t.buckets[i]].heads| && k < |ChainAt(t, Bd(t.buckets[i], o))|
    requires t.cfg.bktBits <= t.rehashBits && |t.rehashBuckets.value| == NumBuckets(t.cfg, t.rehashBits)
    requires var bd := Bd(t.buckets[i], o);
      var dst := BdFromKey(t, t.rehashBuckets.value, t.rehashBits, ChainAt(t, bd)[k].key);
      && Live(t, bd) && Live(t, dst) && BdCompare(t, bd, dst) != 0
      && Shape(BdMove(t, bd, dst, ChainAt(t, bd)[k])) && Full(BdMove(t, bd, dst, ChainAt(t, bd)[k])) == Full(t)
    ensures var bd := Bd(t.buckets[i], o);
      var dst := BdFromKey(t, t.rehashBuckets.value, t.rehashBits, ChainAt(t, bd)[k].key);
      Came(t, BdMove(t, bd, dst, ChainAt(t, bd)[k]), i)
  {
    var bd := Bd(t.buckets[i], o);
    var n := ChainAt(t, bd)[k];
    var dst := BdFromKey(t, t.rehashBuckets.value, t.rehashBits, n.key);
    WalkedLive(t, i, o);
    RehashBdLive(t, n.key);
    assert Holds(t, i, o, n);
    hide Arrays, BdMove, Holds, Live;
    forall p: nat, q: nat, m: Node ensures CameFrom(t, BdMove(t, bd, dst, n), i, p, q, m) {
      BdMoveHolds(t, bd, dst, n, p, q, m);
    }
  }

  lemma {:induction false} ChainCame(t: Table, i: nat, o: nat, k: nat)
    requires Rehashing(t, i) && o < NumHeads(t.cfg) && t.cfg.bktBits <= t.rehashBits
    requires t.buckets[i] in t.store && o < |t.store[t.buckets[i]].heads| && k <= |ChainAt(t, Bd(t.buckets[i], o))|
    ensures Arrays(RehashChain(t, i, o, k)) && Came(t, RehashChain(t, i, o, k), i)
    decreases |ChainAt(t, Bd(t.buckets[i], o))| - k
  {
    if k == |ChainAt(t, Bd(t.buckets[i], o))| {
      hide Arrays, Came;
      CameSelf(t, i);
    } else {
      hide Arrays, Shape, RehashChain, Came, ChainAt;
      var u, k' := StepCame(t, i, o, k);
      ChainCame(u, i, o, k');
      CameTrans(t, u, RehashChain(t, i, o, k), i);
    }
  }

  /** One turn of the walk: the table and the cursor it leaves. */
  lemma StepCame(t: Table, i: nat, o: nat, k: nat) returns (u: Table, k': nat)
    requires Rehashing(t, i) && o < NumHeads(t.cfg) && t.cfg.bktBits <= t.rehashBits
    requires t.buckets[i] in t.store && o < |t.store[t.buckets[i]].heads| && k < |ChainAt(t, Bd(t.buckets[i], o))|
    ensures Rehashing(u, i) && u == t.(store := u.store) && Came(t, u, i)
    ensures u.buckets[i] in u.store && o < |u.store[u.buckets[i]].heads| && k' <= |ChainAt(u, Bd(u.buckets[i], o))|
    ensures |ChainAt(u, Bd(u.buckets[i], o))| - k' < |ChainAt(t, Bd(t.buckets[i], o))| - k
    ensures RehashChain(t, i, o, k) == RehashChain(u, i, o, k')
  {
    hide Arrays, BdMove, RehashChain, Came, Items, BdFromKey;
    var bd := Bd(t.buckets[i], o);
    var dst := WalkStep(t, i, o, k);
    if BdCompare(t, bd, dst) == 0 {
      u, k' := t, k + 1;
      CameSelf(t, i);
    } else {
      u, k' := BdMove(t, bd, dst, ChainAt(t, bd)[k]), k;
      MoveCame(t, i, o, k);
    }
  }

  lemma {:induction false} HeadsCame(t: Table, i: nat, o: nat)
    requires Rehashing(t, i) && o <= NumHeads(t.cfg) && t.cfg.bktBits <= t.rehashBits
    ensures Arrays(RehashHeads(t, i, o)) && Came(t, RehashHeads(t, i, o), i)
    decreases NumHeads(t.cfg) - o
  {
    if o == NumHeads(t.cfg) {
      hide Arrays, Came;
      CameSelf(t, i);
    } else {
      WalkedLive(t, i, o);
      hide Arrays, Came, Items, RehashChain;
      RehashChainFrame(t, i, o, 0);
      ChainCame(t, i, o, 0);
      var u := RehashChain(t, i, o, 0);
      HeadsCame(u, i, o + 1);
      CameTrans(t, u, RehashHeads(t, i, o), i);
    }
  }

  // ---------------------------------------------------------------- one step

  /** What a step during a rehash does to places: `i` is the bucket it moves, if it moves one. */
  ghost predicate Arrived(t: Table, u: Table, i: Option<nat>, j: nat, o: nat, n: Node)
    requires Arrays(t) && Arrays(u) && t.cfg.bktBits <= t.rehashBits
  {
    Holds(u, j, o, n) ==>
      || Holds(t, j, o, n)
      || (InPlace(t, t.rehashBits, j, o, n) && (n !in Items(t) || (i.Some? && InBucket(t, i.value, n))))
  }

  lemma AddArrived(t: Table, n: Node, j: nat, o: nat, m: Node)
    requires Shape(t) && t.rehashBuckets.Some? && t.cfg.bktBits <= t.rehashBits && n !in Items(t)
    ensures Arrays(Add(t, n)) && Arrived(t, Add(t, n), None, j, o, m)
  {
    DualBdLive(t, n.key);
    RehashBdLive(t, n.key);
    var bd := BdGet(t, n.key);
    hide Arrays, Holds, Items, Live;
    BdAddOk(t, bd, n);
    BdAddHolds(t, bd, n, j, o, m);
  }

  lemma DelArrived(t: Table, key: Key, only: Option<Node>, j: nat, o: nat, m: Node)
    requires Shape(t) && t.cfg.bktBits <= t.rehashBits && DelAllowed(t, key, only)
    ensures Arrays(Del(t, key, only).0) && Arrived(t, Del(t, key, only).0, None, j, o, m)
  {
    hide Arrays, Holds, Items, Live, BdDel, DualBdGet;
    DualBdLive(t, key);
    var bds := DualBdGet(t, key);
    if |bds| == 1 && only.Some? {
      BdDelOk(t, bds[0], only.value);
      BdDelHolds(t, bds[0], only.value, j, o, m);
    } else {
      var f := MultiFind(t, bds, key, only);
      if f.Some? {
        BdDelOk(t, f.value.0, f.value.1);
        BdDelHolds(t, f.value.0, f.value.1, j, o, m);
      }
    }
  }

  /** The bucket a step moves. */
  function Moved(s: Sys, e: Event): Option<nat>
    requires s.w.Moving?
  {
    if e == EvMove then Some(s.w.i) else None
  }

  /** A step from one state of a rehash to another. */
  ghost predicate During(s: Sys, e: Event) {
    && Inv(s) && Enabled(s, e) && Asserted(s, e) && s.w.Moving? && Step(s, e).w.Moving?
  }

  lemma DuringParts(s: Sys)
    requires Inv(s) && s.w.Moving?
    ensures !s.destroyed && !s.exited && Arrays(s.t) && Shape(s.t) && Located(s.t)
    ensures s.t.rehashBuckets.Some? && s.t.rehashBits != 0 && BitsOk(s.t.cfg, s.t.curBits) &&
      BitsOk(s.t.cfg, s.t.rehashBits)
    ensures s.w.i <= |s.t.buckets| && Processed(s.t, s.w.i)
  {
    hide Located, Processed, EmptyAt, ItersOk, Holds;
    Parts(s);
  }

  /** What no step of a rehash changes. */
  ghost predicate SameRehash(s: Sys, s': Sys) {
    s'.t.cfg == s.t.cfg && s'.t.curBits == s.t.curBits && s'.t.rehashBits == s.t.rehashBits
  }

  lemma DuringKeeps(s: Sys, e: Event)
    requires During(s, e)
    ensures SameRehash(s, Step(s, e))
    ensures Step(s, e).w == if e == EvMove then s.w.(i := s.w.i + 1) else s.w
    ensures e == EvMove ==> Rehashing(s.t, s.w.i) && Step(s, e).t == RehashBucket(s.t, s.w.i)
  {
    hide Inv, Shape, RehashBucket;
    if e == EvMove {
      MoveFields(s);
    } else if e.EvAdd? || e.EvFindAdd? || e.EvDel? {
      UserFields(s, e);
    } else {
      ControlStep(s, e);
    }
  }

  lemma UserFields(s: Sys, e: Event)
    requires During(s, e) && (e.EvAdd? || e.EvFindAdd? || e.EvDel?)
    ensures SameRehash(s, Step(s, e)) && Step(s, e).w == s.w
  {
    DuringParts(s);
    hide Inv, Shape, Arrays, Located, Processed, Items, Depart, Add, FindOrAdd, Del, HasKey, Progress;
    if e.EvAdd? {
      LiveOnlyAdd(s.t, e.n);
    } else if e.EvFindAdd? {
      FindOrAddRefines(s.t, e.n, 0) by { StartOfProgress(s.t); }
      LiveOnlyAdd(s.t, e.n);
    } else {
      LiveOnlyDel(s.t, e.key, e.only);
    }
  }

  lemma MoveFields(s: Sys)
    requires Inv(s) && Enabled(s, EvMove) && Asserted(s, EvMove) && s.w.Moving? && MoveStep(s).w.Moving?
    ensures Rehashing(s.t, s.w.i) && MoveStep(s) == s.(t := RehashBucket(s.t, s.w.i), w := s.w.(i := s.w.i + 1))
    ensures var u := RehashBucket(s.t, s.w.i); u == s.t.(store := u.store)
  {
    DuringParts(s);
    hide Inv, Shape, Arrays, Located, Processed, Items, RehashHeads;
    RehashBucketOk(s.t, s.w.i);
  }

  lemma Arrives(s: Sys, e: Event, j: nat, o: nat, n: Node)
    requires During(s, e)
    ensures Arrays(s.t) && Arrays(Step(s, e).t) && s.t.cfg.bktBits <= s.t.rehashBits
    ensures Arrived(s.t, Step(s, e).t, Moved(s, e), j, o, n)
  {
    DuringParts(s);
    hide Inv, Shape, Arrays, Located, Processed, Items, Begin, Realloc, HeadsItems, RehashHeads, TargetBits, Depart,
      Holds;
    if e == EvMove {
      DuringKeeps(s, e);
      HeadsCame(s.t, s.w.i, 0);
      assert CameFrom(s.t, Step(s, e).t, s.w.i, j, o, n);
    } else if e.EvAdd? {
      AddArrived(s.t, e.n, j, o, n);
      hide Add;
    } else if e.EvFindAdd? {
      FindOrAddRefines(s.t, e.n, 0) by { StartOfProgress(s.t); }
      AddArrived(s.t, e.n, j, o, n);
      hide Add, FindOrAdd;
    } else if e.EvDel? {
      DelArrived(s.t, e.key, e.only, j, o, n);
      hide Del;
    } else {
      ControlArrives(s, e, j, o, n);
    }
  }

  lemma ControlArrives(s: Sys, e: Event, j: nat, o: nat, n: Node)
    requires During(s, e) && !e.EvMove? && !e.EvAdd? && !e.EvFindAdd? && !e.EvDel?
    requires Arrays(s.t) && s.t.cfg.bktBits <= s.t.rehashBits
    ensures Arrays(Step(s, e).t) && Arrived(s.t, Step(s, e).t, Moved(s, e), j, o, n)
  {
    ControlStep(s, e);
    DuringParts(s);
    hide During, Shape, Arrays, SameBuckets, Holds;
    var u := Step(s, e).t;
    hide Step;
    SameBucketsShape(s.t, u);
    SameHolds(s.t, u, j, o, n);
  }

  lemma ControlStep(s: Sys, e: Event)
    requires During(s, e) && !e.EvMove? && !e.EvAdd? && !e.EvFindAdd? && !e.EvDel?
    ensures SameBuckets(s.t, Step(s, e).t) && SameRehash(s, Step(s, e)) && Step(s, e).w == s.w
  {
    hide Inv, Shape, Arrays, Located, Processed, Begin, Realloc, HeadsItems;
    DuringParts(s);
    OnlyControl(s, e);
    ControlWorker(s, e);
  }

  lemma ControlWorker(s: Sys, e: Event)
    requires Enabled(s, e) && Asserted(s, e) && s.w.Moving? && s.t.rehashBuckets.Some? && s.t.rehashBits != 0
    requires !e.EvMove? && !e.EvAdd? && !e.EvFindAdd? && !e.EvDel?
    ensures Step(s, e).w == s.w && Step(s, e).t.rehashBits == s.t.rehashBits
  {
    hide Shape, Arrays, Begin, Realloc, HeadsItems;
  }

  lemma SameHolds(t: Table, u: Table, j: nat, o: nat, n: Node)
    requires Arrays(t) && Arrays(u) && SameBuckets(t, u) && Full(u) == Full(t)
    ensures Holds(u, j, o, n) <==> Holds(t, j, o, n)
  {
  }

  // ---------------------------------------------------------------- a whole rehash

  /** The front has passed the bucket the node belongs to at the current size. */
  ghost predicate Passed(s: Sys, n: Node)
    requires s.w.Moving? && s.t.cfg.bktBits <= s.t.curBits
  {
    PosBucket(s.t.cfg, s.t.curBits, n.key) < s.w.i
  }

  lemma PassedPlace(s: Sys, j: nat, o: nat, n: Node)
    requires Inv(s) && s.w.Moving? && Arrays(s.t) && Holds(s.t, j, o, n)
    requires s.t.cfg.bktBits <= s.t.curBits && s.t.cfg.bktBits <= s.t.rehashBits
    ensures InPlace(s.t, s.t.curBits, j, o, n) || InPlace(s.t, s.t.rehashBits, j, o, n)
    ensures Passed(s, n) ==> InPlace(s.t, s.t.rehashBits, j, o, n)
  {
    DuringParts(s);
    hide Inv, Shape, Arrays, PosBucket, PosOffset, Holds;
    assert InPlace(s.t, s.t.curBits, j, o, n) || InPlace(s.t, s.t.rehashBits, j, o, n);
  }

  ghost predicate Has(s: Sys, n: Node) { Arrays(s.t) && n in Items(s.t) }

  lemma HeldHas(s: Sys, j: nat, o: nat, n: Node)
    requires Arrays(s.t) && Holds(s.t, j, o, n)
    ensures Has(s, n)
  {
    ItemsHolds(s.t, n);
  }

  /** In the table in every state after `b` up to `m`. */
  ghost predicate Stayed(ss: seq<Sys>, b: nat, m: nat, n: Node)
    requires m < |ss|
  {
    forall k :: b < k <= m ==> Has(ss[k], n)
  }

  /** One rehash from the step `b` that installs its array to the state `a`. */
  ghost predicate OneRehash(ss: seq<Sys>, es: seq<Event>, b: nat, a: nat) {
    && |ss| == |es| + 1 && b < a < |ss| && es[b] == EvInstall && !ss[b].w.Moving? && ss[b + 1].w.Moving?
    && ss[b + 1].w.i == 0
    && forall k :: b < k <= a ==> ss[k].w.Moving? && ss[k].t.curBits == ss[b + 1].t.curBits
  }

  lemma InstallsFirst(s: Sys, e: Event)
    requires Inv(s) && Enabled(s, e) && Asserted(s, e) && !s.w.Moving? && Step(s, e).w.Moving?
    ensures e == EvInstall && s.w.Alloced? && s.w.bkts.Some? && !s.destroyed
    ensures Step(s, e) == s.(t := s.t.(rehashBuckets := s.w.bkts), w := Moving(0, s.w.oldSize, s.w.newSize))
  {
    hide Inv, Shape, Arrays, Located, Items, Begin, Realloc, HeadsItems, Theta, TargetBits, Add, FindOrAdd, Del, Depart;
  }

  lemma InstalledPlace(s: Sys, e: Event, j: nat, o: nat, n: Node)
    requires Inv(s) && Enabled(s, e) && Asserted(s, e) && !s.w.Moving? && Step(s, e).w.Moving?
    ensures var u := Step(s, e).t;
      Arrays(u) && u.cfg.bktBits <= u.curBits && (Holds(u, j, o, n) ==> InPlace(u, u.curBits, j, o, n))
  {
    hide Inv, Shape, Arrays, Located, ItersOk, Processed, IdSet, Freed, EmptyAt, PendingOk, Holds, Enabled, Asserted,
      Step;
    InstallsFirst(s, e);
    Parts(s);
    assert !s.exited;
    PendingEmpty(s.t, s.w.bkts.value, s.w.oldSize, s.w.newSize);
    InstalledOk(s.t, s.w.bkts.value);
    ShapeBits(Step(s, e).t);
  }

  lemma ShapeBits(t: Table)
    requires Shape(t)
    ensures Arrays(t) && t.cfg.bktBits <= t.curBits
  {
  }

  /** Where the rehash that is under way in a state of a run began. */
  lemma {:induction false} RehashBegan(c: Config, ss: seq<Sys>, es: seq<Event>, a: nat) returns (b: nat)
    requires Run(c, ss, es) && a < |ss| && ss[a].w.Moving?
    ensures OneRehash(ss, es, b, a)
    decreases a
  {
    hide Run, Inv, Enabled, Asserted, Step;
    RunBounds(c, ss, es);
    assert a > 0 by { StartsIdle(c, ss, es); }
    RunSafe(c, ss, es, a - 1);
    RunSafe(c, ss, es, a);
    var s, e := ss[a - 1], es[a - 1];
    if s.w.Moving? {
      b := RehashBegan(c, ss, es, a - 1);
      DuringKeeps(s, e);
    } else {
      b := a - 1;
      InstallsFirst(s, e);
    }
  }

  lemma StartsIdle(c: Config, ss: seq<Sys>, es: seq<Event>)
    requires Run(c, ss, es)
    ensures |ss| > 0 && ss[0].w.Idle?
  {
  }

  /** An item in place: the old one or the new one. */
  ghost predicate At(s: Sys, new_: bool, j: nat, o: nat, n: Node)
    requires s.t.cfg.bktBits <= s.t.curBits && s.t.cfg.bktBits <= s.t.rehashBits
  {
    InPlace(s.t, if new_ then s.t.rehashBits else s.t.curBits, j, o, n)
  }

  /**
   * Which items have moved: those whose old bucket the front has passed, and those that have
   * not been in the table ever since the rehash began.
   */
  ghost predicate HasMoved(ss: seq<Sys>, b: nat, a: nat, n: Node)
    requires a < |ss| && ss[a].w.Moving? && ss[a].t.cfg.bktBits <= ss[a].t.curBits
  {
    Passed(ss[a], n) || !Stayed(ss, b, a, n)
  }

  /** In every state of every rehash of every run, an item that has moved is at its new place and no other is moved. */
  lemma {:induction false} WhoHasMoved(c: Config, ss: seq<Sys>, es: seq<Event>, b: nat, a: nat, j: nat, o: nat,
      n: Node)
    requires Run(c, ss, es) && OneRehash(ss, es, b, a) && Arrays(ss[a].t) && Holds(ss[a].t, j, o, n)
    ensures var s := ss[a];
      && s.t.cfg.bktBits <= s.t.curBits && s.t.cfg.bktBits <= s.t.rehashBits
      && At(s, HasMoved(ss, b, a, n), j, o, n)
    decreases a
  {
    hide Run, Inv, Enabled, Asserted, Step, Arrays, Holds, Has, Stayed, PosBucket, PosOffset, Shape, Located, Processed,
      Items;
    RunSafe(c, ss, es, a - 1);
    RunSafe(c, ss, es, a);
    var s, e := ss[a - 1], es[a - 1];
    DuringParts(ss[a]);
    HeldHas(ss[a], j, o, n);
    PassedPlace(ss[a], j, o, n);
    StayedStep(ss, b, a, n);
    if a == b + 1 {
      InstalledPlace(s, e, j, o, n);
    } else {
      DuringParts(s);
      DuringKeeps(s, e);
      Arrives(s, e, j, o, n);
      if Holds(s.t, j, o, n) {
        WhoHasMoved(c, ss, es, b, a - 1, j, o, n);
        HeldHas(s, j, o, n);
      } else if n in Items(s.t) {
        var p: nat :| Holds(s.t, s.w.i, p, n);
        WhoHasMoved(c, ss, es, b, a - 1, s.w.i, p, n);
      } else {
        NotThere(s, n);
      }
    }
  }

  lemma StayedStep(ss: seq<Sys>, b: nat, a: nat, n: Node)
    requires b < a < |ss|
    ensures Stayed(ss, b, a, n) <==> Has(ss[a], n) && (a == b + 1 || Stayed(ss, b, a - 1, n))
    ensures a > b + 1 && Stayed(ss, b, a, n) ==> Has(ss[a - 1], n)
  {
    hide Has;
  }

  lemma NotThere(s: Sys, n: Node)
    requires Arrays(s.t) && n !in Items(s.t)
    ensures !Has(s, n)
  {
  }
}
