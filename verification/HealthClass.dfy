/** The agent's linked list of unhealthy devices, changed in place by the poll. */
module HealthClass {
  import opened Prelude
  import opened HealthTrap

  class Entry {
    const name: string
    var seen: bool
    var next: Entry?

    constructor (name: string, next: Entry?)
      ensures this.name == name && seen && this.next == next
    {
      this.name, seen, this.next := name, true, next;
    }
  }

  /** The list's contents, given its nodes in order. */
  function View(nodes: seq<Entry>): (v: seq<Item>)
    reads nodes
    ensures |v| == |nodes|
    ensures forall i :: 0 <= i < |v| ==> v[i] == Item(nodes[i].name, nodes[i].seen)
  {
    if nodes == [] then [] else [Item(nodes[0].name, nodes[0].seen)] + View(nodes[1..])
  }

  function NodeAt(nodes: seq<Entry>, i: int): Entry? { if 0 <= i < |nodes| then nodes[i] else null }

  class Monitor {
    var head: Entry?
    var sent: bool
    ghost var nodes: seq<Entry>
    ghost var repr: set<Entry>

    ghost predicate Valid()
      reads this, nodes
    {
      && head == NodeAt(nodes, 0) && Distinct(nodes) && (forall i :: 0 <= i < |nodes| ==> nodes[i] in repr)
      && forall i :: 0 <= i < |nodes| ==> nodes[i].next == NodeAt(nodes, i + 1)
    }

    ghost function M(): Memory
      reads this, nodes
    {
      Memory(View(nodes), sent)
    }

    constructor ()
      ensures Valid() && M() == Start() && repr == {}
    {
      head, sent, nodes, repr := null, false, [], {};
    }

    /** The search of is_obd_newly_unhealthy. */
    method Find(name: string) returns (e: Entry?, ghost i: nat)
      requires Valid()
      ensures e == null ==> !Has(View(nodes), name)
      ensures e != null ==> i < |nodes| && nodes[i] == e && e.name == name && forall k :: 0 <= k < i ==>
        nodes[k].name != name
    {
      hide View;
      e, i := head, 0;
      while e != null && e.name != name
        invariant 0 <= i <= |nodes| && e == NodeAt(nodes, i)
        invariant forall k :: 0 <= k < i ==> nodes[k].name != name
        decreases |nodes| - i
      {
        e, i := e.next, i + 1;
      }
    }

    method SetSeen(e: Entry, ghost i: nat, seen: bool)
      requires Valid() && i < |nodes| && nodes[i] == e
      modifies e`seen
      ensures Valid() && View(nodes) == old(View(nodes))[i := old(View(nodes))[i].(seen := seen)]
      ensures nodes == old(nodes)
    {
      hide View;
      e.seen := seen;
    }

    /** A new entry at the front. */
    method Push(name: string)
      requires Valid()
      modifies this`head, this`nodes, this`repr
      ensures Valid() && View(nodes) == [Item(name, true)] + old(View(nodes))
      ensures old(repr) <= repr && fresh(repr - old(repr))
    {
      hide View;
      ghost var was := nodes;
      var entry := new Entry(name, head);
      nodes, repr := [entry] + nodes, repr + {entry};
      head := entry;
      assert nodes[0] == entry && nodes[1..] == was;
      assert forall k :: 1 <= k < |nodes| ==> nodes[k] == was[k - 1];
    }

    /** is_obd_newly_unhealthy: a known name is marked, a new one put in front. */
    method NewlyUnhealthy(name: string) returns (newly: bool)
      requires Valid()
      modifies this`head, this`nodes, this`repr, repr
      ensures Valid() && View(nodes) == Note(old(View(nodes)), name) && newly == !Has(old(View(nodes)), name)
      ensures old(repr) <= repr && fresh(repr - old(repr))
    {
      hide View;
      ghost var v := View(nodes);
      var e, i := Find(name);
      if e != null {
        MarkAt(v, name, i);
        SetSeen(e, i, true);
        return false;
      }
      Push(name);
      newly := true;
    }

    /** Takes the entry at place `i` off the list. */
    method Remove(e: Entry, prev: Entry?, ghost i: nat)
      requires Valid() && i < |nodes| && nodes[i] == e && prev == NodeAt(nodes, i - 1)
      modifies this`head, this`nodes, repr
      ensures Valid() && nodes == old(nodes[..i] + nodes[i + 1..])
      ensures View(nodes) == old(View(nodes)[..i] + View(nodes)[i + 1..])
    {
      hide View, Distinct;
      ghost var was, v := nodes, View(nodes);
      CutDistinct(was, i);
      if prev == null {
        head := e.next;
      } else {
        prev.next := e.next;
      }
      nodes := was[..i] + was[i + 1..];
      forall k | 0 <= k < |nodes|
        ensures nodes[k] in repr && nodes[k].next == NodeAt(nodes, k + 1) && View(nodes)[k] == (v[..i] + v[i + 1..])[k]
      {
        assert nodes[k] == if k < i then was[k] else was[k + 1];
        if k + 1 < |nodes| { assert nodes[k + 1] == if k + 1 < i then was[k + 1] else was[k + 2]; }
      }
    }

    /** obd_unhealthy_scan: entries not seen are unlinked, the others unmarked. */
    method UnhealthyScan()
      requires Valid()
      modifies this`head, this`nodes, repr
      ensures Valid() && View(nodes) == Scan(old(View(nodes)))
    {
      hide View, Scan;
      ghost var v := View(nodes);
      var walker, prev := head, null;
      ghost var i := 0;
      ScanStart(v);
      while walker != null
        invariant 0 <= i <= |nodes| && walker == NodeAt(nodes, i) && prev == NodeAt(nodes, i - 1) && Valid()
        invariant View(nodes)[..i] + Scan(View(nodes)[i..]) == Scan(v)
        decreases |nodes| - i
      {
        ghost var w := View(nodes);
        ScanStep(w, i);
        if !walker.seen {
          var temp := walker;
          walker := walker.next;
          Remove(temp, prev, i);
        } else {
          SetSeen(walker, i, false);
          prev, walker, i := walker, walker.next, i + 1;
        }
      }
      ScanStop(View(nodes), i);
    }

    /** One line of the health file. */
    method TakeLine(line: Line) returns (traps: seq<Trap>)
      requires Valid()
      modifies this, repr
      ensures Valid() && old(repr) <= repr && fresh(repr - old(repr))
      ensures var (m, ts) := Digest(old(M()), [line]); M() == m && traps == ts
    {
      hide View, Note, Has;
      traps := [];
      match line {
        case Lbug =>
          if !sent {
            traps := [Catastrophe];
            sent := true;
          }
        case Device(name) =>
          var newly := NewlyUnhealthy(name);
          if newly {
            traps := [Unhealthy(name)];
          }
        case _ =>
      }
      assert [line][1..] == [];
    }

    /** The reading loop of health_entry_parser. */
    method TakeLines(lines: seq<string>) returns (traps: seq<Trap>, seenLbug: bool)
      requires Valid()
      modifies this, repr
      ensures Valid() && old(repr) <= repr && fresh(repr - old(repr))
      ensures (M(), traps) == Digest(old(M()), Read(lines)) && (seenLbug <==> Lbug in Read(lines))
    {
      hide View, Digest, Classify, Read;
      traps, seenLbug := [], false;
      ghost var m, ls := M(), Read(lines);
      var k := 0;
      DigestNone(m);
      ReadStart(lines);
      while k < |lines|
        invariant 0 <= k <= |lines| && k <= |ls| && ls[k..] == Read(lines[k..]) && ls == Read(lines)
        invariant Valid() && old(repr) <= repr && fresh(repr - old(repr))
        invariant (M(), traps) == Digest(m, ls[..k]) && (seenLbug <==> Lbug in ls[..k])
      {
        ReadStep(lines, k, ls);
        var line := Classify(lines[k]);
        if line == Broken {
          break;
        }
        DigestMore(m, ls[..k], line);
        var more := TakeLine(line);
        traps := traps + more;
        seenLbug := seenLbug || line == Lbug;
        k := k + 1;
      }
      ReadEnd(lines, k, ls);
    }

    /** health_entry_parser. */
    method HealthPoll(file: Option<seq<string>>) returns (traps: seq<Trap>)
      requires Valid()
      modifies this, repr
      ensures Valid() && old(repr) <= repr && fresh(repr - old(repr))
      ensures var (m, ts) := Poll(old(M()), file); M() == m && traps == ts
    {
      hide View, Digest, Scan, Read;
      if file.None? {
        return [];
      }
      var seenLbug;
      traps, seenLbug := TakeLines(file.value);
      if !seenLbug && sent {
        sent := false;
      }
      UnhealthyScan();
    }
  }

  lemma CutDistinct(s: seq<Entry>, i: nat)
    requires Distinct(s) && i < |s|
    ensures Distinct(s[..i] + s[i + 1..]) && forall j, k :: 0 <= j < k < |s| ==> s[j] != s[k]
  {
  }

  lemma ReadStart(lines: seq<string>)
    ensures Read(lines)[0..] == Read(lines[0..]) && Read(lines)[..0] == []
  {
    assert lines[0..] == lines;
  }

  lemma ReadStep(lines: seq<string>, k: nat, ls: seq<Line>)
    requires k < |lines| && k <= |ls| && ls[k..] == Read(lines[k..])
    ensures if Classify(lines[k]) == Broken then k == |ls| else k < |ls| && ls[k] == Classify(lines[k])
    ensures Classify(lines[k]) != Broken ==>
      ls[k + 1..] == Read(lines[k + 1..]) && ls[..k + 1] == ls[..k] + [Classify(lines[k])]
  {
    hide Classify;
    assert lines[k..][0] == lines[k] && lines[k..][1..] == lines[k + 1..];
    if Classify(lines[k]) != Broken {
      assert ls[k] == ls[k..][0];
      assert ls[k..][1..] == ls[k + 1..];
    }
  }

  lemma ReadEnd(lines: seq<string>, k: nat, ls: seq<Line>)
    requires k <= |lines| && k <= |ls| && ls[k..] == Read(lines[k..]) && (k == |lines| || k == |ls|)
    ensures ls[..k] == ls
  {
    if k == |lines| { assert lines[k..] == []; }
  }

  lemma DigestNone(m: Memory)
    ensures Digest(m, []) == (m, [])
  {
  }

  /** A poll digests its lines one after the other. */
  lemma {:induction false} DigestMore(m: Memory, ls: seq<Line>, x: Line)
    ensures var (a, s) := Digest(m, ls); var (b, t) := Digest(a, [x]); Digest(m, ls + [x]) == (b, s + t)
    decreases |ls|
  {
    hide Note, Has;
    if ls == [] {
      assert ls + [x] == [x];
      var (b, t) := Digest(m, [x]);
      assert [] + t == t;
    } else {
      var all := ls + [x];
      assert all[0] == ls[0] && all[1..] == ls[1..] + [x];
      match ls[0]
      case Lbug =>
        DigestMore(m.(sent := true), ls[1..], x);
        AssocTraps(if m.sent then [] else [Catastrophe], m.(sent := true), ls[1..], x);
      case Device(name) =>
        var m' := m.(list := Note(m.list, name));
        DigestMore(m', ls[1..], x);
        AssocTraps(if Has(m.list, name) then [] else [Unhealthy(name)], m', ls[1..], x);
      case Broken => DigestMore(m, ls[1..], x);
      case Other => DigestMore(m, ls[1..], x);
    }
  }

  lemma AssocTraps(pre: seq<Trap>, m: Memory, ls: seq<Line>, x: Line)
    ensures var (a, s) := Digest(m, ls); var (b, t) := Digest(a, [x]); pre + (s + t) == (pre + s) + t
  {
  }

  lemma ScanStart(v: seq<Item>)
    ensures v[..0] + Scan(v[0..]) == Scan(v)
  {
    assert v[0..] == v;
  }

  lemma ScanStop(v: seq<Item>, i: nat)
    requires i == |v|
    ensures v[..i] + Scan(v[i..]) == v
  {
    assert v[i..] == [] && v[..i] == v;
  }

  /** The scan at place `i`: an unseen entry is dropped, a seen one unmarked. */
  lemma ScanStep(w: seq<Item>, i: nat)
    requires i < |w|
    ensures !w[i].seen ==> var u := w[..i] + w[i + 1..]; u[..i] + Scan(u[i..]) == w[..i] + Scan(w[i..])
    ensures w[i].seen ==> var u := w[i := w[i].(seen := false)]; u[..i + 1] + Scan(u[i + 1..]) == w[..i] + Scan(w[i..])
  {
    assert w[i..][0] == w[i] && w[i..][1..] == w[i + 1..];
    if !w[i].seen {
      var u := w[..i] + w[i + 1..];
      assert u[..i] == w[..i] && u[i..] == w[i + 1..];
    } else {
      var u := w[i := w[i].(seen := false)];
      assert u[i + 1..] == w[i + 1..] && u[..i + 1] == w[..i] + [u[i]];
    }
  }

  lemma {:induction false} MarkAt(v: seq<Item>, name: string, i: nat)
    requires i < |v| && v[i].name == name && forall k :: 0 <= k < i ==> v[k].name != name
    ensures Has(v, name) && Mark(v, name) == v[i := v[i].(seen := true)]
  {
    if i == 0 {
    } else {
      MarkAt(v[1..], name, i - 1);
      var w := v[1..][i - 1 := v[1..][i - 1].(seen := true)];
      assert v[i := v[i].(seen := true)] == [v[0]] + w;
    }
  }
}
