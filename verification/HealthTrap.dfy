/**
 * The SNMP agent's health poll: it reads the health file, sends a trap for each device that is
 * newly unhealthy, and forgets the devices that are no longer reported.
 */
module HealthTrap {
  import opened Prelude

  datatype Item = Item(name: string, seen: bool)

  datatype Trap = Catastrophe | Unhealthy(name: string)

  /** The remembered devices, and whether the catastrophe trap has been sent. */
  datatype Memory = Memory(list: seq<Item>, sent: bool)

  // ---------------------------------------------------------------- lines

  datatype Line = Lbug | Device(name: string) | Broken | Other

  function UpToSpace(s: string): (k: nat)
    ensures k <= |s| && ' ' !in s[..k] && (k < |s| ==> s[k] == ' ')
  {
    if s == "" || s[0] == ' ' then 0 else 1 + UpToSpace(s[1..])
  }

  /** What the parser makes of a line; a device line without a space after the name ends the parse. */
  function Classify(s: string): Line {
    if "LBUG" <= s then Lbug
    else if "device " <= s then
      var k := UpToSpace(s[7..]);
      if k == |s| - 7 then Broken else Device(s[7..][..k])
    else Other
  }

  /** The lines the parser looks at. */
  function Read(lines: seq<string>): seq<Line> {
    if lines == [] || Classify(lines[0]) == Broken then [] else [Classify(lines[0])] + Read(lines[1..])
  }

  predicate Reported(ls: seq<Line>, name: string) { Device(name) in ls }

  // ---------------------------------------------------------------- the list

  predicate Has(list: seq<Item>, name: string) { exists i :: 0 <= i < |list| && list[i].name == name }

  /** Marks a known name as seen. */
  function Mark(list: seq<Item>, name: string): (r: seq<Item>)
    ensures |r| == |list| && forall i :: 0 <= i < |r| ==> r[i].name == list[i].name
  {
    if list == [] then []
    else if list[0].name == name then [list[0].(seen := true)] + list[1..]
    else [list[0]] + Mark(list[1..], name)
  }

  /** is_obd_newly_unhealthy: a new name goes to the front. */
  function Note(list: seq<Item>, name: string): seq<Item> {
    if Has(list, name) then Mark(list, name) else [Item(name, true)] + list
  }

  /** obd_unhealthy_scan: what was not seen goes, the rest is unmarked. */
  function Scan(list: seq<Item>): seq<Item> {
    if list == [] then []
    else if list[0].seen then [list[0].(seen := false)] + Scan(list[1..])
    else Scan(list[1..])
  }

  predicate UniqueNames(list: seq<Item>) { forall i, j :: 0 <= i < j < |list| ==> list[i].name != list[j].name }

  predicate AllSeen(list: seq<Item>, seen: bool) { forall i :: 0 <= i < |list| ==> list[i].seen == seen }

  // ---------------------------------------------------------------- a poll

  /** One line at a time; traps in the order they are sent. */
  function Digest(m: Memory, ls: seq<Line>): (Memory, seq<Trap>)
    decreases |ls|
  {
    if ls == [] then (m, [])
    else
      match ls[0]
      case Lbug =>
        var (r, traps) := Digest(m.(sent := true), ls[1..]);
        (r, (if m.sent then [] else [Catastrophe]) + traps)
      case Device(name) =>
        var (r, traps) := Digest(m.(list := Note(m.list, name)), ls[1..]);
        (r, (if Has(m.list, name) then [] else [Unhealthy(name)]) + traps)
      case _ => Digest(m, ls[1..])
  }

  /** health_entry_parser; a file that cannot be opened changes nothing. */
  function Poll(m: Memory, file: Option<seq<string>>): (Memory, seq<Trap>) {
    match file
    case None => (m, [])
    case Some(lines) =>
      var ls := Read(lines);
      var (r, traps) := Digest(m, ls);
      (Memory(Scan(r.list), r.sent && Lbug in ls), traps)
  }

  // ---------------------------------------------------------------- the list across a poll

  predicate Seen(list: seq<Item>, name: string) { Item(name, true) in list }

  lemma {:induction false} MarkSeen(list: seq<Item>, name: string, other: string)
    requires UniqueNames(list)
    ensures Seen(Mark(list, name), other) <==> Seen(list, other) || (other == name && Has(list, name))
    ensures UniqueNames(Mark(list, name))
  {
    if list == [] {
    } else {
      MarkSeen(list[1..], name, other);
      var r := Mark(list, name);
      assert r == [r[0]] + r[1..] && list == [list[0]] + list[1..];
      HasStep(list, name);
      if list[0].name == name {
        assert r[1..] == list[1..];
        assert !Has(list[1..], name);
        if Seen(list, other) && list[0] == Item(other, true) { assert r[0] == list[0]; }
      } else {
        assert r[1..] == Mark(list[1..], name);
      }
    }
  }

  lemma HasStep(list: seq<Item>, name: string)
    requires list != []
    ensures Has(list, name) <==> list[0].name == name || Has(list[1..], name)
  {
    if Has(list, name) {
      var i :| 0 <= i < |list| && list[i].name == name;
      if i > 0 { assert list[1..][i - 1].name == name; }
    }
    if Has(list[1..], name) {
      var i :| 0 <= i < |list[1..]| && list[1..][i].name == name;
      assert list[i + 1].name == name;
    }
  }

  lemma NoteSeen(list: seq<Item>, name: string, other: string)
    requires UniqueNames(list)
    ensures UniqueNames(Note(list, name))
    ensures Seen(Note(list, name), other) <==> Seen(list, other) || other == name
    ensures Has(Note(list, name), other) <==> Has(list, other) || other == name
  {
    hide Mark;
    if Has(list, name) {
      MarkSeen(list, name, other);
      var r := Mark(list, name);
      if Has(list, other) {
        var i :| 0 <= i < |list| && list[i].name == other;
        assert r[i].name == other;
      }
      if Has(r, other) {
        var i :| 0 <= i < |r| && r[i].name == other;
        assert list[i].name == other;
      }
    } else {
      var r := [Item(name, true)] + list;
      assert r[1..] == list;
      HasStep(r, other);
    }
  }

  lemma {:induction false} ScanKeeps(list: seq<Item>, name: string)
    requires UniqueNames(list)
    ensures Has(Scan(list), name) <==> Seen(list, name)
    ensures UniqueNames(Scan(list)) && AllSeen(Scan(list), false)
  {
    if list == [] {
    } else {
      var rest := list[1..];
      ScanKeeps(rest, name);
      var x := list[0];
      assert list == [x] + rest;
      if x.seen {
        var r := [x.(seen := false)] + Scan(rest);
        assert r[1..] == Scan(rest);
        HasStep(r, name);
        ScanNew(list);
      }
    }
  }

  /** The front name does not come back further down. */
  lemma {:induction false} ScanNew(list: seq<Item>)
    requires UniqueNames(list) && list != []
    ensures !Has(Scan(list[1..]), list[0].name)
  {
    ScanSub(list[1..], list[0].name);
  }

  lemma {:induction false} ScanSub(list: seq<Item>, name: string)
    ensures Has(Scan(list), name) ==> Has(list, name)
  {
    if list == [] {
    } else {
      ScanSub(list[1..], name);
      HasStep(list, name);
      if list[0].seen {
        var r := [list[0].(seen := false)] + Scan(list[1..]);
        assert r[1..] == Scan(list[1..]);
        HasStep(r, name);
      }
    }
  }

  // ---------------------------------------------------------------- one poll

  function Count(traps: seq<Trap>, x: Trap): nat { multiset(traps)[x] }

  lemma {:induction false} Digested(m: Memory, ls: seq<Line>, name: string)
    requires UniqueNames(m.list)
    ensures var (r, traps) := Digest(m, ls);
      && UniqueNames(r.list)
      && (Seen(r.list, name) <==> Seen(m.list, name) || Reported(ls, name))
      && Count(traps, Unhealthy(name)) == (if Reported(ls, name) && !Has(m.list, name) then 1 else 0)
      && Count(traps, Catastrophe) == (if Lbug in ls && !m.sent then 1 else 0)
      && r.sent == (m.sent || Lbug in ls)
    decreases |ls|
  {
    hide Note, Has, Seen;
    if ls == [] {
    } else {
      var rest := ls[1..];
      assert ls == [ls[0]] + rest;
      match ls[0]
      case Lbug =>
        Digested(m.(sent := true), rest, name);
        CountJoin(if m.sent then [] else [Catastrophe], Digest(m.(sent := true), rest).1);
      case Device(n) =>
        NoteSeen(m.list, n, name);
        var m' := m.(list := Note(m.list, n));
        Digested(m', rest, name);
        CountJoin(if Has(m.list, n) then [] else [Unhealthy(n)], Digest(m', rest).1);
      case Broken => Digested(m, rest, name);
      case Other => Digested(m, rest, name);
    }
  }

  lemma CountJoin(a: seq<Trap>, b: seq<Trap>)
    ensures forall x :: Count(a + b, x) == Count(a, x) + Count(b, x)
  {
  }

  /**
   * After a completed poll the list holds exactly the names reported in it, each once and
   * unmarked; a trap went out, once, for exactly those that were not on the list before.
   */
  lemma PollExact(m: Memory, lines: seq<string>, name: string)
    requires UniqueNames(m.list) && AllSeen(m.list, false)
    ensures var (r, traps) := Poll(m, Some(lines));
      && UniqueNames(r.list) && AllSeen(r.list, false)
      && (Has(r.list, name) <==> Reported(Read(lines), name))
      && Count(traps, Unhealthy(name)) == (if Reported(Read(lines), name) && !Has(m.list, name) then 1 else 0)
      && r.sent == (Lbug in Read(lines))
      && Count(traps, Catastrophe) == (if Lbug in Read(lines) && !m.sent then 1 else 0)
  {
    var ls := Read(lines);
    Digested(m, ls, name);
    ScanKeeps(Digest(m, ls).0.list, name);
    assert !Seen(m.list, name);
    hide Digest, Scan, Read;
  }

  // ---------------------------------------------------------------- sequences of polls

  function Start(): Memory { Memory([], false) }

  /** The memory after the first `k` polls. */
  function After(files: seq<Option<seq<string>>>, k: nat): Memory
    requires k <= |files|
  {
    if k == 0 then Start() else Poll(After(files, k - 1), files[k - 1]).0
  }

  function TrapsOf(files: seq<Option<seq<string>>>, k: nat): seq<Trap>
    requires k < |files|
  {
    Poll(After(files, k), files[k]).1
  }

  /** What the last completed poll before poll `k` read. */
  function LastRead(files: seq<Option<seq<string>>>, k: nat): seq<Line>
    requires k <= |files|
  {
    if k == 0 then [] else match files[k - 1] case Some(lines) => Read(lines) case None => LastRead(files, k - 1)
  }

  lemma {:induction false} AfterIs(files: seq<Option<seq<string>>>, k: nat, name: string)
    requires k <= |files|
    ensures var m := After(files, k);
      && UniqueNames(m.list) && AllSeen(m.list, false)
      && (Has(m.list, name) <==> Reported(LastRead(files, k), name)) && m.sent == (Lbug in LastRead(files, k))
  {
    if k == 0 {
    } else {
      AfterIs(files, k - 1, name);
      if files[k - 1].Some? { PollExact(After(files, k - 1), files[k - 1].value, name); }
    }
  }

  /**
   * Over any sequence of polls, poll `k` sends a trap for a name, once, exactly when the name
   * is reported in it and was not reported in the last completed poll before; likewise for
   * the catastrophe.
   */
  lemma TrapsExact(files: seq<Option<seq<string>>>, k: nat, name: string)
    requires k < |files|
    ensures var now := match files[k] case Some(lines) => Read(lines) case None => [];
      && Count(TrapsOf(files, k), Unhealthy(name)) ==
         (if Reported(now, name) && !Reported(LastRead(files, k), name) then 1 else 0)
      && Count(TrapsOf(files, k), Catastrophe) == (if Lbug in now && Lbug !in LastRead(files, k) then 1 else 0)
  {
    AfterIs(files, k, name);
    match files[k]
    case None =>
    case Some(lines) => PollExact(After(files, k), lines, name); hide Poll, Has;
  }
}
