/**
 * What a rehash aborted by destruction leaves out of place: a growing one takes the new array
 * with the items its front has not come to still at their old places, a shrinking one keeps
 * the old array with the items its front has passed, and those added since it began, at their
 * new places.
 */
module HashAbort {
  import opened Prelude
  import opened HashTable
  import opened HashOps
  import opened HashRehash
  import opened HashSystem
  import opened HashSafety
  import opened HashTheorems
  import opened HashMoves

  /** The worker is about to see that the table is being destroyed, with `s.w.i` buckets done. */
  ghost predicate Aborting(s: Sys) {
    Inv(s) && !s.destroyed && s.w.Moving? && s.w.i < |s.t.buckets| && s.t.exiting
  }

  /** Both sizes give the node the same position. */
  ghost predicate SamePlace(t: Table, n: Node)
    requires t.cfg.bktBits <= t.curBits && t.cfg.bktBits <= t.rehashBits
  {
    && PosBucket(t.cfg, t.curBits, n.key) == PosBucket(t.cfg, t.rehashBits, n.key)
    && PosOffset(t.cfg, t.curBits, n.key) == PosOffset(t.cfg, t.rehashBits, n.key)
  }

  predicate Grows(s: Sys)
    requires s.w.Moving?
  {
    s.w.oldSize < s.w.newSize
  }

  /** Whether the abort leaves an item that the rehash has moved, or has not, where the table will look for it. */
  ghost predicate KeptPlace(s: Sys, moved: bool, n: Node)
    requires s.w.Moving? && s.t.cfg.bktBits <= s.t.curBits && s.t.cfg.bktBits <= s.t.rehashBits
  {
    SamePlace(s.t, n) || moved == Grows(s)
  }

  lemma AbortParts(s: Sys)
    requires Aborting(s)
    ensures s.w.Moving? && Shape(s.t) && Located(s.t) && s.t.rehashBuckets.Some? && Rehashing(s.t, s.w.i) &&
      Processed(s.t, s.w.i)
    ensures BitsOk(s.t.cfg, s.t.curBits) && BitsOk(s.t.cfg, s.t.rehashBits)
    ensures s.w.oldSize < s.w.newSize <==> s.t.curBits < s.t.rehashBits
  {
    hide Located, Processed, EmptyAt, ItersOk, Holds;
    Parts(s);
    var t := s.t;
    assert !s.exited;
    if t.curBits < t.rehashBits { Pow2Strict(t.curBits - t.cfg.bktBits, t.rehashBits - t.cfg.bktBits); }
    else { Pow2Strict(t.rehashBits - t.cfg.bktBits, t.curBits - t.cfg.bktBits); }
  }

  /**
   * An abort moves no item.  An item whose old bucket the front has passed is in place
   * afterwards exactly when the rehash was growing or both sizes put the item in the same
   * place.  For any other item it also counts whether it is at its new place, as an item added
   * since the rehash began is.
   */
  lemma AbortPlaces(s: Sys, j: nat, o: nat, n: Node)
    requires Aborting(s) && Asserted(s, EvMove)
    ensures var u := MoveStep(s).t;
      && Arrays(s.t) && Arrays(u) && (Holds(u, j, o, n) <==> Holds(s.t, j, o, n))
      && (Holds(s.t, j, o, n) && Passed(s, n) ==> (InPlace(u, u.curBits, j, o, n) <==> Grows(s) || SamePlace(s.t, n)))
      && (Holds(s.t, j, o, n) && !Passed(s, n) ==>
            (InPlace(u, u.curBits, j, o, n) <==> KeptPlace(s, InPlace(s.t, s.t.rehashBits, j, o, n), n)))
  {
    hide Inv, Shape, Arrays, Located, Processed, PosBucket, PosOffset, Asserted, RehashBucket;
    AbortParts(s);
    AbortLeaves(s, j, o, n);
    if Holds(s.t, j, o, n) { PassedPlace(s, j, o, n); }
  }

  /** The array and the size an abort leaves, and nothing moved. */
  lemma AbortLeaves(s: Sys, j: nat, o: nat, n: Node)
    requires Aborting(s) && Asserted(s, EvMove)
    ensures var u := MoveStep(s).t;
      && u.cfg == s.t.cfg && u.curBits == (if Grows(s) then s.t.rehashBits else s.t.curBits)
      && Arrays(s.t) && Arrays(u) && (Holds(u, j, o, n) <==> Holds(s.t, j, o, n))
  {
    hide Inv, Shape, Arrays, Located, Processed, Asserted, RehashBucket;
    AbortParts(s);
    KeepMove(s);
    var t, u := s.t, MoveStep(s).t;
    assert u.store == t.store && u.cfg == t.cfg && Full(u) == Full(t);
    assert Arrays(t) && Arrays(u) by { ShapeArrays(t); ShapeArrays(u); }
  }

  /**
   * In every run: an item is in place after an abort exactly when both sizes put it in the same
   * place, or the rehash was growing and had moved it, or was shrinking and had not.  Moved are
   * the items whose old bucket the front has passed and those that have not been in the table
   * ever since the rehash began.
   */
  lemma AbortExact(c: Config, ss: seq<Sys>, es: seq<Event>, a: nat, j: nat, o: nat, n: Node) returns (b: nat)
    requires Run(c, ss, es) && a < |es| && a < |ss| && Aborting(ss[a]) && Asserted(ss[a], EvMove)
    requires Arrays(ss[a].t) && Holds(ss[a].t, j, o, n)
    ensures OneRehash(ss, es, b, a) && BitsOk(ss[a].t.cfg, ss[a].t.curBits) && BitsOk(ss[a].t.cfg, ss[a].t.rehashBits)
    ensures var u := MoveStep(ss[a]).t;
      && Arrays(u) && Holds(u, j, o, n)
      && (InPlace(u, u.curBits, j, o, n) <==> KeptPlace(ss[a], HasMoved(ss, b, a, n), n))
  {
    hide Run, Inv, Shape, Arrays, Located, Processed, PosBucket, PosOffset, Asserted, RehashBucket, Holds, HasMoved,
      OneRehash, MoveStep, Aborting;
    AbortParts(ss[a]);
    b := RehashBegan(c, ss, es, a);
    WhoHasMoved(c, ss, es, b, a, j, o, n);
    AbortLeaves(ss[a], j, o, n);
  }

  lemma ShapeArrays(t: Table)
    requires Shape(t)
    ensures Arrays(t)
  {
    hide Arrays;
  }

  // ---------------------------------------------------------------- from the abort on

  /** Same items at the same places, under the same size. */
  ghost predicate SamePlaces(t: Table, u: Table) {
    && Arrays(t) && Arrays(u) && u.curBits == t.curBits && u.cfg == t.cfg
    && forall j: nat, o: nat, n: Node :: Holds(u, j, o, n) <==> Holds(t, j, o, n)
  }

  /** The step after which the worker is never popped again is an abort. */
  lemma ExitIsAbort(s: Sys, e: Event)
    requires Inv(s) && Enabled(s, e) && Asserted(s, e) && !s.exited && Step(s, e).exited && !Step(s, e).destroyed
    ensures e == EvMove && Aborting(s) && Step(s, e) == MoveStep(s)
  {
    hide Inv, Shape, Arrays, Located, Items, Add, FindOrAdd, Del, Depart, Begin, Realloc, RehashBucket, HeadsItems,
      TargetBits;
    if s.destroyed { DestroyedFrees(s, e); }
  }

  lemma DestroyedFrees(s: Sys, e: Event)
    requires Enabled(s, e) && Asserted(s, e) && s.destroyed
    ensures Step(s, e).destroyed
  {
  }

  /** After the abort nothing moves any more. */
  lemma ExitedStays(s: Sys, e: Event)
    requires Inv(s) && Enabled(s, e) && Asserted(s, e) && s.exited && !Step(s, e).destroyed
    ensures !s.destroyed && Step(s, e).exited && Arrays(s.t) && SamePlaces(s.t, Step(s, e).t)
  {
    if s.destroyed { DestroyedFrees(s, e); }
    Parts(s);
    StepKeeps(s, e);
    Parts(Step(s, e));
    ExitedKeeps(s, e);
    hide Inv, Shape, Enabled, Asserted, Step, WorkerOk, ItersOk, Located, EmptyAt, TargetOk, IdSet, Private;
  }

  lemma ExitedKeeps(s: Sys, e: Event)
    requires Inv(s) && !s.destroyed && Enabled(s, e) && Asserted(s, e) && s.exited && !Step(s, e).destroyed
    ensures var t, u := s.t, Step(s, e).t;
      && Step(s, e).exited && u.curBits == t.curBits && u.cfg == t.cfg && Full(u) == Full(t)
      && forall i :: 0 <= i < |Full(t)| && Full(t)[i] in t.store && Full(t)[i] in u.store ==>
         u.store[Full(t)[i]] == t.store[Full(t)[i]]
  {
    assert s.t.exiting && s.t.rehashBits == 0 && s.iters == map[] && !Active(s.w) by { Parts(s); }
    hide Inv, Shape, Arrays, Located, Items, Add, FindOrAdd, Del, Depart, Begin, Realloc, RehashBucket, HeadsItems;
  }

  /** Where in a run the worker was aborted. */
  lemma {:induction false} AbortedAt(c: Config, ss: seq<Sys>, es: seq<Event>, k: nat) returns (a: nat)
    requires Run(c, ss, es) && k <= |es| && k < |ss| && !ss[k].destroyed && ss[k].exited
    ensures a < k && a < |es| && es[a] == EvMove && Aborting(ss[a]) && Asserted(ss[a], EvMove)
    ensures SamePlaces(MoveStep(ss[a]).t, ss[k].t)
    decreases k
  {
    hide Run, Inv, Enabled, Asserted, Step, SamePlaces, Aborting, MoveStep;
    assert k > 0 by { StartsRunning(c, ss, es); }
    RunSafe(c, ss, es, k - 1);
    RunSafe(c, ss, es, k);
    var s, e := ss[k - 1], es[k - 1];
    if s.exited {
      ExitedStays(s, e);
      a := AbortedAt(c, ss, es, k - 1);
      AbortParts(ss[a]);
      SameTrans(MoveStep(ss[a]).t, s.t, ss[k].t);
    } else {
      ExitIsAbort(s, e);
      a := k - 1;
      Parts(ss[k]);
      assert SamePlaces(ss[k].t, ss[k].t) by { SameSelf(ss[k].t); }
    }
  }

  lemma StartsRunning(c: Config, ss: seq<Sys>, es: seq<Event>)
    requires Run(c, ss, es)
    ensures |ss| > 0 && !ss[0].exited
  {
  }

  lemma SameSelf(t: Table)
    requires Arrays(t)
    ensures SamePlaces(t, t)
  {
    hide Arrays;
  }

  lemma SameTrans(t: Table, u: Table, v: Table)
    requires SamePlaces(t, u) && SamePlaces(u, v)
    ensures SamePlaces(t, v)
  {
    hide Arrays, Holds;
    forall j: nat, o: nat, n: Node ensures Holds(v, j, o, n) <==> Holds(t, j, o, n) {
      assert Holds(u, j, o, n) <==> Holds(t, j, o, n);
    }
  }

  /**
   * In every state of every run in which no rehash is wanted: an item is out of place only if
   * the worker was aborted, at step `a` in a rehash that began with step `b`, and then exactly
   * if the sizes disagree about it and a growing rehash had not moved it or a shrinking one had.
   */
  lemma AtRestExact(c: Config, ss: seq<Sys>, es: seq<Event>, k: nat, j: nat, o: nat, n: Node)
    returns (a: nat, b: nat)
    requires Run(c, ss, es) && k <= |es| && k < |ss| && !ss[k].destroyed && ss[k].t.rehashBits == 0
    requires Arrays(ss[k].t) && Holds(ss[k].t, j, o, n)
    ensures !ss[k].exited ==> InPlace(ss[k].t, ss[k].t.curBits, j, o, n)
    ensures ss[k].exited ==>
      && a < k && a < |es| && es[a] == EvMove && Aborting(ss[a]) && Arrays(ss[a].t) && Holds(ss[a].t, j, o, n)
      && OneRehash(ss, es, b, a) && BitsOk(ss[a].t.cfg, ss[a].t.curBits) && BitsOk(ss[a].t.cfg, ss[a].t.rehashBits)
      && (InPlace(ss[k].t, ss[k].t.curBits, j, o, n) <==> KeptPlace(ss[a], HasMoved(ss, b, a, n), n))
  {
    a, b := 0, 0;
    if ss[k].exited {
      hide Run, Inv, Aborting, MoveStep, KeptPlace, Arrays, OneRehash, HasMoved, Asserted, Holds;
      a := AbortedAt(c, ss, es, k);
      AbortParts(ss[a]);
      AbortLeaves(ss[a], j, o, n);
      var u := MoveStep(ss[a]).t;
      assert Holds(ss[k].t, j, o, n) <==> Holds(u, j, o, n);
      b := AbortExact(c, ss, es, a, j, o, n);
    } else {
      AtRest(c, ss, es, k);
    }
  }
}
