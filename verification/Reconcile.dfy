/**
 * Scatter/gather reconciliation: memory pieces and file extents, chopped up differently, are
 * paired byte by byte.  The driver's transfer function is an arbitrary function of the calls
 * made so far and its arguments.
 */
module Reconcile {

  datatype Iov = Iov(base: int, len: nat)

  datatype Xtv = Xtv(off: int, len: nat)

  /** One call of the transfer function, and what it returned. */
  datatype Call = Call(base: int, len: nat, off: int, cc: int)

  type Transfer = (seq<Call>, int, nat, int) -> int

  const EINVAL := 22

  /** Never more than it was asked for. */
  ghost predicate Polite(f: Transfer) { forall t: seq<Call>, b: int, n: nat, o: int :: f(t, b, n, o) <= n }

  /** All it was asked for, every time. */
  ghost predicate Complete(f: Transfer) { forall t: seq<Call>, b: int, n: nat, o: int :: f(t, b, n, o) == n }

  // ---------------------------------------------------------------- byte streams

  function Bytes(start: int, n: nat): (s: seq<int>)
    ensures |s| == n
  {
    seq(n, i => start + i)
  }

  /** The memory bytes of an I/O vector, in order. */
  function Memory(iov: seq<Iov>): seq<int> {
    if iov == [] then [] else Bytes(iov[0].base, iov[0].len) + Memory(iov[1..])
  }

  /** The file positions of an extent vector, in order. */
  function Extents(xtv: seq<Xtv>): seq<int> {
    if xtv == [] then [] else Bytes(xtv[0].off, xtv[0].len) + Extents(xtv[1..])
  }

  function Done(c: Call): nat { if c.cc > 0 then c.cc else 0 }

  /** The memory bytes the calls moved, in order. */
  function MovedFrom(calls: seq<Call>): seq<int> {
    if calls == [] then []
      else MovedFrom(calls[..|calls| - 1]) + Bytes(calls[|calls| - 1].base, Done(calls[|calls| - 1]))
  }

  /** The file positions they moved to or from, in order. */
  function MovedTo(calls: seq<Call>): seq<int> {
    if calls == [] then [] else MovedTo(calls[..|calls| - 1]) + Bytes(calls[|calls| - 1].off, Done(calls[|calls| - 1]))
  }

  lemma MovedOne(calls: seq<Call>, c: Call)
    ensures MovedFrom(calls + [c]) == MovedFrom(calls) + Bytes(c.base, Done(c))
    ensures MovedTo(calls + [c]) == MovedTo(calls) + Bytes(c.off, Done(c))
  {
    assert (calls + [c])[..|calls|] == calls;
  }

  lemma BytesSplit(start: int, m: nat, n: nat)
    ensures Bytes(start, m + n) == Bytes(start, m) + Bytes(start + m, n)
  {
  }

  lemma {:induction false} MemorySplit(a: seq<Iov>, b: seq<Iov>)
    ensures Memory(a + b) == Memory(a) + Memory(b)
  {
    if a == [] {
      assert a + b == b;
    } else {
      assert (a + b)[1..] == a[1..] + b;
      MemorySplit(a[1..], b);
      Assoc(Bytes(a[0].base, a[0].len), Memory(a[1..]), Memory(b));
    }
  }

  lemma Assoc(a: seq<int>, b: seq<int>, c: seq<int>)
    ensures (a + b) + c == a + (b + c)
  {
  }

  lemma MemoryNext(iov: seq<Iov>, i: nat)
    requires i < |iov|
    ensures Memory(iov[i..]) == Bytes(iov[i].base, iov[i].len) + Memory(iov[i + 1..])
  {
    assert iov[i..][0] == iov[i] && iov[i..][1..] == iov[i + 1..];
  }

  lemma ExtentsNext(xtv: seq<Xtv>, i: nat)
    requires i < |xtv|
    ensures Extents(xtv[i..]) == Bytes(xtv[i].off, xtv[i].len) + Extents(xtv[i + 1..])
  {
    assert xtv[i..][0] == xtv[i] && xtv[i..][1..] == xtv[i + 1..];
  }

  function Min(a: nat, b: nat): nat { if a < b then a else b }

  // ---------------------------------------------------------------- what a transfer achieves

  /** The calls move a prefix of the memory bytes, byte for byte to a prefix of the file positions. */
  ghost predicate Pairs(calls: seq<Call>, memory: seq<int>, file: seq<int>) {
    MovedFrom(calls) <= memory && MovedTo(calls) <= file && |MovedFrom(calls)| == |MovedTo(calls)|
  }

  /** The return value: the bytes moved if any, else what the last call said. */
  predicate Reports(rc: int, calls: seq<Call>) {
    if |MovedFrom(calls)| > 0 then rc == |MovedFrom(calls)|
    else rc <= 0 && rc == (if calls == [] then 0 else calls[|calls| - 1].cc)
  }

  /** `k`-th byte moved, `k`-th byte of each stream. */
  lemma PairedBytes(calls: seq<Call>, memory: seq<int>, file: seq<int>, k: nat)
    requires Pairs(calls, memory, file) && k < |MovedFrom(calls)|
    ensures k < |memory| && k < |file| && MovedFrom(calls)[k] == memory[k] && MovedTo(calls)[k] == file[k]
  {
  }

  // ---------------------------------------------------------------- one extent

  /** Whether any byte is asked for at all: the first loop of _sysio_enumerate_iovec. */
  method AnyBytes(iov: seq<Iov>, limit: nat) returns (acc: nat)
    ensures acc == Min(limit, |Memory(iov)|)
  {
    var n: nat, i := limit, 0;
    acc := 0;
    assert iov[0..] == iov;
    while n > 0 && i < |iov|
      invariant 0 <= i <= |iov| && acc + n == limit
      invariant acc + Min(n, |Memory(iov[i..])|) == Min(limit, |Memory(iov)|)
    {
      MemoryNext(iov, i);
      var cc := if iov[i].len < n then iov[i].len else n;
      n := n - cc;
      acc := acc + cc;
      i := i + 1;
    }
  }

  /** The first `i` pieces went to the file positions from `off` on. */
  ghost predicate Sent(iov: seq<Iov>, i: nat, calls: seq<Call>, off: int, acc: nat) {
    && i <= |iov| && MovedFrom(calls) + Memory(iov[i..]) == Memory(iov) && |MovedFrom(calls)| == acc
    && MovedTo(calls) == Bytes(off, acc)
  }

  lemma SentSkip(iov: seq<Iov>, i: nat, calls: seq<Call>, off: int, acc: nat)
    requires Sent(iov, i, calls, off, acc) && i < |iov| && iov[i].len == 0
    ensures Sent(iov, i + 1, calls, off, acc)
  {
    MemoryNext(iov, i);
    hide Memory, MovedFrom, MovedTo;
    assert Bytes(iov[i].base, 0) + Memory(iov[i + 1..]) == Memory(iov[i + 1..]);
  }

  /** One more call, moving the front of piece `i` or all of it. */
  lemma SentCall(iov: seq<Iov>, i: nat, calls: seq<Call>, off: int, acc: nat, c: Call, limit: nat)
    requires Sent(iov, i, calls, off, acc) && i < |iov| && c.base == iov[i].base && c.off == off + acc
    requires Done(c) <= iov[i].len && acc + Done(c) <= limit
    ensures Pairs(calls + [c], Memory(iov), Bytes(off, limit)) && |MovedFrom(calls + [c])| == acc + Done(c)
    ensures Done(c) == iov[i].len ==> Sent(iov, i + 1, calls + [c], off, acc + Done(c))
    ensures |Memory(iov)| == acc + iov[i].len + |Memory(iov[i + 1..])|
  {
    MemoryNext(iov, i);
    MovedOne(calls, c);
    var d := Done(c);
    hide Memory, MovedFrom, MovedTo, Done;
    BytesSplit(off, acc, d);
    BytesSplit(iov[i].base, d, iov[i].len - d);
    BytesSplit(off, acc + d, limit - acc - d);
    TakeSome(MovedFrom(calls), Bytes(iov[i].base, d), Bytes(iov[i].base + d, iov[i].len - d), Memory(iov[i + 1..]));
  }

  lemma SentAll(iov: seq<Iov>, calls: seq<Call>, off: int, acc: nat, limit: nat)
    requires Sent(iov, |iov|, calls, off, acc) && acc <= limit
    ensures Pairs(calls, Memory(iov), Bytes(off, limit)) && |Memory(iov)| == acc
  {
    assert iov[|iov|..] == [];
    assert MovedFrom(calls) + [] == MovedFrom(calls);
    BytesSplit(off, acc, limit - acc);
  }

  /** _sysio_enumerate_iovec: memory pieces, one call each, to consecutive file positions. */
  method EnumerateIovec(iov: seq<Iov>, off0: int, limit0: nat, f: Transfer, before: seq<Call>)
    returns (rc: int, calls: seq<Call>)
    requires Polite(f)
    ensures Pairs(calls, Memory(iov), Bytes(off0, limit0))
    ensures if iov == [] then rc == -EINVAL && calls == [] else Reports(rc, calls)
    ensures Complete(f) ==> |MovedFrom(calls)| == Min(limit0, |Memory(iov)|)
  {
    calls := [];
    if iov == [] {
      return -EINVAL, [];
    }
    var any := AnyBytes(iov, limit0);
    if any == 0 {
      return 0, [];
    }
    assert Sent(iov, 0, calls, off0, 0) by { assert iov[0..] == iov; assert [] + Memory(iov) == Memory(iov); }
    hide Sent, Memory, MovedFrom, MovedTo, Bytes, Pairs;
    var acc: nat, off, limit: nat, i: nat := 0, off0, limit0, 0;
    while i < |iov|
      invariant Sent(iov, i, calls, off0, acc) && 0 <= i <= |iov|
      invariant acc + limit == limit0 && off == off0 + acc && limit > 0
      invariant acc == 0 ==> calls == []
    {
      if iov[i].len == 0 {
        SentSkip(iov, i, calls, off0, acc);
        i := i + 1;
        continue;
      }
      var n: nat := if iov[i].len < limit then iov[i].len else limit;
      var cc := f(before + calls, iov[i].base, n, off);
      var c := Call(iov[i].base, n, off, cc);
      SentCall(iov, i, calls, off0, acc, c, limit0);
      calls := calls + [c];
      if cc <= 0 {
        return if acc > 0 then acc else cc, calls;
      }
      off, limit, acc := off + cc, limit - cc, acc + cc;
      if iov[i].len > cc || limit == 0 {
        return acc, calls;
      }
      i := i + 1;
    }
    SentAll(iov, calls, off0, acc, limit0);
    rc := acc;
    assert |MovedFrom(calls)| == acc by { SentCount(iov, calls, off0, acc); }
  }

  lemma SentCount(iov: seq<Iov>, calls: seq<Call>, off: int, acc: nat)
    requires Sent(iov, |iov|, calls, off, acc)
    ensures |MovedFrom(calls)| == acc
  {
  }

  lemma TakeSome(moved: seq<int>, a: seq<int>, b: seq<int>, rest: seq<int>)
    ensures moved + ((a + b) + rest) == (moved + a) + (b + rest)
    ensures moved + a <= moved + ((a + b) + rest)
    ensures b == [] ==> moved + ((a + b) + rest) == (moved + a) + rest
  {
    assert moved + ((a + b) + rest) == (moved + a) + (b + rest);
    assert b == [] ==> b + rest == rest;
  }

  // ---------------------------------------------------------------- all extents

  /**
   * What is left to move: extent `x` and those from `xi` on, piece `part` and those from `ii`
   * on; the calls so far moved all the bytes before.
   */
  ghost predicate Mid(xtv: seq<Xtv>, xi: nat, x: Xtv, iov: seq<Iov>, ii: nat, part: Iov, calls: seq<Call>, acc: nat) {
    && xi <= |xtv| && ii <= |iov| && |MovedFrom(calls)| == acc && |MovedTo(calls)| == acc
    && MovedFrom(calls) + (Bytes(part.base, part.len) + Memory(iov[ii..])) == Memory(iov)
    && MovedTo(calls) + (Bytes(x.off, x.len) + Extents(xtv[xi..])) == Extents(xtv)
  }

  lemma {:induction false} MovedMore(a: seq<Call>, b: seq<Call>)
    ensures MovedFrom(a + b) == MovedFrom(a) + MovedFrom(b) && MovedTo(a + b) == MovedTo(a) + MovedTo(b)
    decreases |b|
  {
    if b == [] {
      assert a + b == a;
    } else {
      var n := |b| - 1;
      var c, rest := b[n], b[..n];
      assert a + b == (a + rest) + [c] && b == rest + [c];
      MovedMore(a, rest);
      MovedOne(a + rest, c);
      MovedOne(rest, c);
      hide MovedFrom, MovedTo, Bytes;
      Assoc(MovedFrom(a), MovedFrom(rest), Bytes(c.base, Done(c)));
      Assoc(MovedTo(a), MovedTo(rest), Bytes(c.off, Done(c)));
    }
  }

  lemma MidStart(xtv: seq<Xtv>, iov: seq<Iov>)
    ensures Mid(xtv, 0, Xtv(0, 0), iov, 0, Iov(0, 0), [], 0)
  {
    assert iov[0..] == iov && xtv[0..] == xtv;
    assert [] + (Bytes(0, 0) + Memory(iov)) == Memory(iov);
    assert [] + (Bytes(0, 0) + Extents(xtv)) == Extents(xtv);
  }

  lemma MidPairs(xtv: seq<Xtv>, xi: nat, x: Xtv, iov: seq<Iov>, ii: nat, part: Iov, calls: seq<Call>, acc: nat)
    requires Mid(xtv, xi, x, iov, ii, part, calls, acc)
    ensures Pairs(calls, Memory(iov), Extents(xtv)) && |MovedFrom(calls)| == acc
    ensures acc + part.len + |Memory(iov[ii..])| == |Memory(iov)| &&
      acc + x.len + |Extents(xtv[xi..])| == |Extents(xtv)|
  {
    hide Memory, Extents, MovedFrom, MovedTo, Bytes;
  }

  /** The next extent, grown by those that follow on it. */
  method Coalesce(xtv: seq<Xtv>, from: nat) returns (x: Xtv, xi: nat)
    requires from < |xtv|
    ensures from < xi <= |xtv|
    ensures Bytes(x.off, x.len) + Extents(xtv[xi..]) == Extents(xtv[from..])
  {
    x, xi := xtv[from], from + 1;
    var off := x.off + x.len;
    ExtentsNext(xtv, from);
    hide Bytes, Extents;
    while xi < |xtv| && off == xtv[xi].off
      invariant from < xi <= |xtv| && off == x.off + x.len
      invariant Bytes(x.off, x.len) + Extents(xtv[xi..]) == Extents(xtv[from..])
    {
      ExtentsNext(xtv, xi);
      BytesSplit(x.off, x.len, xtv[xi].len);
      Assoc(Bytes(x.off, x.len), Bytes(xtv[xi].off, xtv[xi].len), Extents(xtv[xi + 1..]));
      off, x := off + xtv[xi].len, x.(len := x.len + xtv[xi].len);
      xi := xi + 1;
    }
  }

  lemma MidLoad(xtv: seq<Xtv>, xi: nat, x: Xtv, iov: seq<Iov>, ii: nat, part: Iov, calls: seq<Call>, acc: nat, y: Xtv,
      yi: nat)
    requires Mid(xtv, xi, x, iov, ii, part, calls, acc) && x.len == 0 && yi <= |xtv|
    requires Bytes(y.off, y.len) + Extents(xtv[yi..]) == Extents(xtv[xi..])
    ensures Mid(xtv, yi, y, iov, ii, part, calls, acc)
  {
    assert Bytes(x.off, 0) + Extents(xtv[xi..]) == Extents(xtv[xi..]);
  }

  /** The whole of an oversized piece is set aside. */
  lemma MidBuffer(xtv: seq<Xtv>, xi: nat, x: Xtv, iov: seq<Iov>, ii: nat, part: Iov, calls: seq<Call>, acc: nat)
    requires Mid(xtv, xi, x, iov, ii, part, calls, acc) && part.len == 0 && ii < |iov|
    ensures Mid(xtv, xi, x, iov, ii + 1, iov[ii], calls, acc)
  {
    MemoryNext(iov, ii);
    assert Bytes(part.base, 0) + Memory(iov[ii..]) == Memory(iov[ii..]);
  }

  lemma CutFront(moved: seq<int>, add: seq<int>, front: seq<int>, rest: seq<int>)
    requires add <= front
    ensures moved + (front + rest) == (moved + add) + (front[|add|..] + rest)
    ensures moved + add <= moved + (front + rest)
  {
    assert front == add + front[|add|..];
  }

  lemma BytesCut(start: int, n: nat, k: nat)
    requires k <= n
    ensures Bytes(start, n)[k..] == Bytes(start + k, n - k)
  {
  }

  /** Calls `d` move the first `cc` bytes of the piece set aside, to the front of the extent. */
  lemma MidPart(xtv: seq<Xtv>, xi: nat, x: Xtv, iov: seq<Iov>, ii: nat, part: Iov, calls: seq<Call>, acc: nat,
      d: seq<Call>, m: nat)
    requires Mid(xtv, xi, x, iov, ii, part, calls, acc) && m <= part.len
    requires Pairs(d, Bytes(part.base, m), Bytes(x.off, x.len))
    ensures var cc := |MovedFrom(d)|;
      && cc <= m && cc <= x.len
      && Mid(xtv, xi, Xtv(x.off + cc, x.len - cc), iov, ii, Iov(part.base + cc, part.len - cc), calls + d, acc + cc)
  {
    var cc := |MovedFrom(d)|;
    MovedMore(calls, d);
    hide Memory, Extents, MovedFrom, MovedTo;
    BytesSplit(part.base, m, part.len - m);
    assert MovedFrom(d) <= Bytes(part.base, part.len);
    CutFront(MovedFrom(calls), MovedFrom(d), Bytes(part.base, part.len), Memory(iov[ii..]));
    CutFront(MovedTo(calls), MovedTo(d), Bytes(x.off, x.len), Extents(xtv[xi..]));
    BytesCut(part.base, part.len, cc);
    BytesCut(x.off, x.len, cc);
  }

  /** Calls `d` move a front part of the pieces `ii` to `jj`. */
  lemma MidGroup(xtv: seq<Xtv>, xi: nat, x: Xtv, iov: seq<Iov>, ii: nat, jj: nat, part: Iov, calls: seq<Call>,
      acc: nat, d: seq<Call>)
    requires Mid(xtv, xi, x, iov, ii, part, calls, acc) && part.len == 0 && ii <= jj <= |iov| &&
      |Memory(iov[ii..jj])| <= x.len
    requires Pairs(d, Memory(iov[ii..jj]), Bytes(x.off, |Memory(iov[ii..jj])|))
    ensures Pairs(calls + d, Memory(iov), Extents(xtv))
    ensures var cc := |MovedFrom(d)|;
      && cc <= |Memory(iov[ii..jj])| && |MovedFrom(calls + d)| == acc + cc
      && (cc == |Memory(iov[ii..jj])| ==> Mid(xtv, xi, Xtv(x.off + cc, x.len - cc), iov, jj, part, calls + d, acc + cc))
  {
    hide Memory, Extents, MovedFrom, MovedTo, Bytes;
    MovedMore(calls, d);
    GroupMemory(calls, d, iov, ii, jj, part.base);
    GroupFile(calls, d, x, |Memory(iov[ii..jj])|, Extents(xtv[xi..]));
  }

  lemma GroupMemory(calls: seq<Call>, d: seq<Call>, iov: seq<Iov>, ii: nat, jj: nat, base: int)
    requires ii <= jj <= |iov| && MovedFrom(calls) + (Bytes(base, 0) + Memory(iov[ii..])) == Memory(iov)
    requires MovedFrom(d) <= Memory(iov[ii..jj])
    ensures MovedFrom(calls) + MovedFrom(d) <= Memory(iov)
    ensures |MovedFrom(d)| == |Memory(iov[ii..jj])| ==>
      (MovedFrom(calls) + MovedFrom(d)) + (Bytes(base, 0) + Memory(iov[jj..])) == Memory(iov)
  {
    var g, rest := Memory(iov[ii..jj]), Memory(iov[jj..]);
    assert iov[ii..] == iov[ii..jj] + iov[jj..];
    MemorySplit(iov[ii..jj], iov[jj..]);
    hide Memory, MovedFrom;
    EmptyFront(base, g + rest);
    EmptyFront(base, rest);
    CutFront(MovedFrom(calls), MovedFrom(d), g, rest);
    if |MovedFrom(d)| == |g| { assert g[|g|..] + rest == rest; }
  }

  lemma EmptyFront(base: int, s: seq<int>)
    ensures Bytes(base, 0) + s == s
  {
  }

  lemma GroupFile(calls: seq<Call>, d: seq<Call>, x: Xtv, n: nat, rest: seq<int>)
    requires n <= x.len && MovedTo(d) <= Bytes(x.off, n)
    ensures var all := MovedTo(calls) + (Bytes(x.off, x.len) + rest);
      && |MovedTo(d)| <= x.len && MovedTo(calls) + MovedTo(d) <= all
      && (MovedTo(calls) + MovedTo(d)) + (Bytes(x.off + |MovedTo(d)|, x.len - |MovedTo(d)|) + rest) == all
  {
    hide MovedTo;
    BytesSplit(x.off, n, x.len - n);
    LengthOf(x.off, n);
    CutFront(MovedTo(calls), MovedTo(d), Bytes(x.off, x.len), rest);
    BytesCut(x.off, x.len, |MovedTo(d)|);
  }

  /** As many whole pieces as fit into `n` bytes. */
  method Gather(iov: seq<Iov>, ii: nat, n0: nat) returns (jj: nat, n: nat)
    requires ii < |iov|
    ensures ii <= jj <= |iov| && n + |Memory(iov[ii..jj])| == n0
    ensures jj == ii ==> iov[ii].len > n0
    ensures jj > ii && (forall k :: 0 <= k < |iov| ==> iov[k].len > 0) ==> n < n0
  {
    jj, n := ii, n0;
    assert iov[ii..ii] == [];
    while jj < |iov| && iov[jj].len <= n
      invariant ii <= jj <= |iov| && n + |Memory(iov[ii..jj])| == n0 && n >= 0
      invariant jj == ii ==> n == n0
      invariant jj > ii && (forall k :: 0 <= k < |iov| ==> iov[k].len > 0) ==> n < n0
    {
      assert iov[ii..jj + 1] == iov[ii..jj] + [iov[jj]];
      MemorySplit(iov[ii..jj], [iov[jj]]);
      MemoryOne(iov[jj]);
      n, jj := n - iov[jj].len, jj + 1;
    }
  }

  lemma MemoryOne(v: Iov)
    ensures Memory([v]) == Bytes(v.base, v.len)
  {
    assert [v][1..] == [];
    assert Bytes(v.base, v.len) + [] == Bytes(v.base, v.len);
  }

  predicate NonEmpty(iov: seq<Iov>) { forall k :: 0 <= k < |iov| ==> iov[k].len > 0 }

  /** _sysio_doio: every byte of the memory stream meets the byte of the extent stream in its place. */
  method DoIo(xtv: seq<Xtv>, iov: seq<Iov>, f: Transfer) returns (rc: int, calls: seq<Call>)
    requires Polite(f)
    ensures Pairs(calls, Memory(iov), Extents(xtv)) && Reports(rc, calls)
    ensures Complete(f) && NonEmpty(iov) ==> rc == Min(|Memory(iov)|, |Extents(xtv)|)
  {
    hide Mid, Pairs, Memory, Extents, MovedFrom, MovedTo, Bytes;
    var acc: nat, x, part := 0, Xtv(0, 0), Iov(0, 0);
    var xi: nat, ii: nat := 0, 0;
    calls := [];
    MidStart(xtv, iov);
    while x.len > 0 || xi < |xtv|
      invariant Mid(xtv, xi, x, iov, ii, part, calls, acc) && 0 <= xi <= |xtv| && 0 <= ii <= |iov|
      invariant acc == 0 ==> calls == []
      decreases |xtv| - xi, x.len + (|iov| - ii)
    {
      MidPairs(xtv, xi, x, iov, ii, part, calls, acc);
      if x.len == 0 {
        var y, yi := Coalesce(xtv, xi);
        MidLoad(xtv, xi, x, iov, ii, part, calls, acc, y, yi);
        x, xi := y, yi;
      } else if part.len > 0 {
        var m: nat := if part.len > x.len then x.len else part.len;
        var cc, d := EnumerateIovec([Iov(part.base, m)], x.off, x.len, f, calls);
        MemoryOne(Iov(part.base, m));
        MidPart(xtv, xi, x, iov, ii, part, calls, acc, d, m);
        LengthOf(part.base, m);
        if cc <= 0 {
          NothingMoved(xtv, xi, x, iov, ii, part, calls, d, acc);
          return if acc > 0 then acc else cc, calls + d;
        }
        part, calls, acc := Iov(part.base + cc, part.len - cc), calls + d, acc + cc;
        x := Xtv(x.off + cc, x.len - cc);
      } else if ii < |iov| {
        var jj, n := Gather(iov, ii, x.len);
        if jj == ii {
          MidBuffer(xtv, xi, x, iov, ii, part, calls, acc);
          part, ii := iov[ii], ii + 1;
          continue;
        }
        var remain := x.len - n;
        var cc, d := EnumerateIovec(iov[ii..jj], x.off, remain, f, calls);
        MidGroup(xtv, xi, x, iov, ii, jj, part, calls, acc, d);
        if cc <= 0 {
          return if acc > 0 then acc else cc, calls + d;
        }
        calls, acc := calls + d, acc + cc;
        if remain > cc {
          return acc, calls;
        }
        ii := jj;
        x := Xtv(x.off + cc, x.len - cc);
      } else {
        MemoryEnd(iov);
        return acc, calls;
      }
    }
    MidPairs(xtv, xi, x, iov, ii, part, calls, acc);
    ExtentsEnd(xtv);
    rc := acc;
  }

  lemma LengthOf(start: int, n: nat)
    ensures |Bytes(start, n)| == n
  {
  }

  lemma MemoryEnd(iov: seq<Iov>)
    ensures Memory(iov[|iov|..]) == []
  {
  }

  lemma ExtentsEnd(xtv: seq<Xtv>)
    ensures Extents(xtv[|xtv|..]) == []
  {
  }

  lemma NothingMoved(xtv: seq<Xtv>, xi: nat, x: Xtv, iov: seq<Iov>, ii: nat, part: Iov, calls: seq<Call>, d: seq<Call>,
      acc: nat)
    requires |MovedFrom(d)| <= x.len && |MovedFrom(d)| <= part.len
    requires var cc := |MovedFrom(d)|;
      Mid(xtv, xi, Xtv(x.off + cc, x.len - cc), iov, ii, Iov(part.base + cc, part.len - cc), calls + d, acc + cc)
    ensures Pairs(calls + d, Memory(iov), Extents(xtv)) && |MovedFrom(calls + d)| == acc + |MovedFrom(d)|
  {
    hide Mid, Pairs, Memory, Extents, MovedFrom, MovedTo, Bytes;
    var cc := |MovedFrom(d)|;
    MidPairs(xtv, xi, Xtv(x.off + cc, x.len - cc), iov, ii, Iov(part.base + cc, part.len - cc), calls + d, acc + cc);
  }
}
