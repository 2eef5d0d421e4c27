/**
 * The path printer and the path walk: when the text printed for a directory leads back to it.
 */
module PathPrint {
  import opened Prelude
  import opened NameSpace
  import opened NameWf
  import opened PathWalk

  // ---------------------------------------------------------------- mount stacks

  /** From the root of a mount down to the node it covers, as far as that goes. */
  function Bottom(s: Ns, p: nat): (u: nat)
    requires Wf(s) && p in s.pnodes
    ensures u in s.pnodes && s.pnodes[u].parent == s.pnodes[p].parent && u <= p
    ensures IsRoot(s, u) <==> u == s.root
    ensures u == s.root <==> p == s.root
    decreases p
  {
    hide Wf;
    WfNode(s, p);
    RootNode(s);
    if IsRoot(s, p) && p != s.pnodes[p].parent then
      WfNode(s, s.mounts[s.pnodes[p].mount].covers);
      Bottom(s, s.mounts[s.pnodes[p].mount].covers)
    else p
  }

  lemma RootNode(s: Ns)
    requires Wf(s)
    ensures s.root in s.pnodes && IsRoot(s, s.root) && s.pnodes[s.root].parent == s.root &&
      s.pnodes[s.root].cover == Some(s.root)
    ensures s.pnodes[s.root].base in s.bases && s.bases[s.pnodes[s.root].base].name == ""
  {
    WfParts(s);
    hide TreeOk, NamesOk;
    assert CoverOk(s, s.root);
  }

  /** The uncovered node on top of a stack. */
  function Top(s: Ns, p: nat): (u: nat)
    requires Wf(s) && p in s.pnodes
    ensures u in s.pnodes && s.pnodes[u].parent == s.pnodes[p].parent
    ensures s.pnodes[u].cover == None || s.pnodes[u].cover == Some(u)
    decreases s.nextPnode - p
  {
    hide Wf;
    match s.pnodes[p].cover
    case None => p
    case Some(c) => CoverYounger(s, p); CoverParent(s, p); if c == p then p else Top(s, c)
  }

  lemma CoverParent(s: Ns, p: nat)
    requires Wf(s) && p in s.pnodes && s.pnodes[p].cover.Some?
    ensures var c := s.pnodes[p].cover.value; c in s.pnodes && s.pnodes[c].parent == s.pnodes[p].parent
    ensures var c := s.pnodes[p].cover.value; IsRoot(s, c) && s.mounts[s.pnodes[c].mount].covers == p
    ensures s.pnodes[p].cover.value == p <==> p == s.root
  {
    WfNode(s, p);
    WfNode(s, s.pnodes[p].cover.value);
  }

  lemma {:induction false} TopBottom(s: Ns, p: nat)
    requires Wf(s) && p in s.pnodes
    ensures Bottom(s, Top(s, p)) == Bottom(s, p)
    decreases s.nextPnode - p
  {
    hide Wf;
    match s.pnodes[p].cover
    case None =>
    case Some(c) =>
      CoverYounger(s, p);
      CoverParent(s, p);
      if c != p {
        TopBottom(s, c);
        WfNode(s, c);
        BottomStep(s, c);
      }
  }

  lemma BottomStep(s: Ns, c: nat)
    requires Wf(s) && c in s.pnodes && IsRoot(s, c) && c != s.root
    ensures var v := s.mounts[s.pnodes[c].mount].covers;
      v in s.pnodes && s.pnodes[v].cover == Some(c) && Bottom(s, c) == Bottom(s, v)
  {
    WfNode(s, c);
  }

  lemma {:induction false} BottomTop(s: Ns, p: nat)
    requires Wf(s) && p in s.pnodes
    ensures Top(s, Bottom(s, p)) == Top(s, p)
    decreases p
  {
    hide Wf;
    WfNode(s, p);
    RootNode(s);
    if IsRoot(s, p) && p != s.pnodes[p].parent {
      BottomStep(s, p);
      BottomTop(s, s.mounts[s.pnodes[p].mount].covers);
    }
  }

  // ---------------------------------------------------------------- the printer

  /** What _sysio_p_path writes, the terminating NUL aside. */
  function PathOf(s: Ns, p: nat): string
    requires Wf(s) && p in s.pnodes
    decreases p
  {
    hide Wf;
    var u := Bottom(s, p);
    WfNode(s, u);
    var q := s.pnodes[u].parent;
    WfNode(s, q);
    (if q == s.pnodes[q].parent then "" else PathOf(s, q)) + [PATH_SEPARATOR] + s.bases[s.pnodes[u].base].name
  }

  /** The names on the way down from the root. */
  function Names(s: Ns, p: nat): (ns: seq<string>)
    requires Wf(s) && p in s.pnodes
    ensures forall n :: n in ns ==> NameOk(n)
    decreases p
  {
    hide Wf;
    if p == s.root then []
    else
      WfNode(s, p);
      EntryName(s, Bottom(s, p));
      Names(s, s.pnodes[p].parent) + [s.bases[s.pnodes[Bottom(s, p)].base].name]
  }

  lemma EntryName(s: Ns, u: nat)
    requires Wf(s) && u in s.pnodes && !IsRoot(s, u)
    ensures s.pnodes[u].base in s.bases && NameOk(s.bases[s.pnodes[u].base].name)
    ensures s.pnodes[u].parent in s.pnodes &&
      s.bases[s.pnodes[u].base].parent == Some(s.pnodes[s.pnodes[u].parent].base)
  {
    WfNode(s, u);
    WfParts(s);
    hide TreeOk, CoversOk, Wf;
  }

  /** The nodes on the way down, the root first. */
  function Chain(s: Ns, p: nat): seq<nat>
    requires Wf(s) && p in s.pnodes
    decreases p
  {
    hide Wf;
    if p == s.root then [p] else WfNode(s, p); Chain(s, s.pnodes[p].parent) + [p]
  }

  lemma {:induction false} ChainShape(s: Ns, p: nat)
    requires Wf(s) && p in s.pnodes
    ensures var ps := Chain(s, p);
      && |ps| == |Names(s, p)| + 1 && ps[0] == s.root && ps[|ps| - 1] == p
      && forall i :: 0 <= i < |ps| ==> ps[i] in s.pnodes
    decreases p
  {
    hide Wf, Bottom;
    WfNode(s, p);
    if p == s.root {
    } else {
      ChainShape(s, s.pnodes[p].parent);
    }
  }

  function Text(names: seq<string>): string {
    if names == [] then "" else [PATH_SEPARATOR] + names[0] + Text(names[1..])
  }

  lemma {:induction false} TextAppend(a: seq<string>, n: string)
    ensures Text(a + [n]) == Text(a) + [PATH_SEPARATOR] + n
  {
    if a == [] {
      assert (a + [n])[1..] == [];
    } else {
      TextAppend(a[1..], n);
      assert (a + [n])[1..] == a[1..] + [n];
    }
  }

  lemma {:induction false} PathIsText(s: Ns, p: nat)
    requires Wf(s) && p in s.pnodes
    ensures PathOf(s, p) == if p == s.root then [PATH_SEPARATOR] else Text(Names(s, p))
    decreases p
  {
    hide Wf, Bottom;
    RootNode(s);
    WfNode(s, p);
    if p == s.root {
      assert Bottom(s, p) == p by { BottomRoot(s); }
    } else {
      var q := s.pnodes[p].parent;
      WfNode(s, q);
      PathIsText(s, q);
      WfNode(s, Bottom(s, p));
      TextAppend(Names(s, q), s.bases[s.pnodes[Bottom(s, p)].base].name);
    }
  }

  lemma BottomRoot(s: Ns)
    requires Wf(s)
    ensures s.root in s.pnodes && Bottom(s, s.root) == s.root
  {
    RootNode(s);
    hide Wf;
  }

  lemma {:induction false} ChainParents(s: Ns, p: nat, i: nat)
    requires Wf(s) && p in s.pnodes && 0 < i < |Chain(s, p)|
    ensures |Names(s, p)| == |Chain(s, p)| - 1
    ensures var a := Chain(s, p)[i];
      && a in s.pnodes && a != s.root && s.pnodes[a].parent == Chain(s, p)[i - 1]
      && Bottom(s, a) in s.pnodes && s.pnodes[Bottom(s, a)].base in s.bases
      && Names(s, p)[i - 1] == s.bases[s.pnodes[Bottom(s, a)].base].name
    decreases p
  {
    hide Wf, Bottom;
    ChainShape(s, p);
    WfNode(s, p);
    WfNode(s, Bottom(s, Chain(s, p)[i]));
    ChainShape(s, s.pnodes[p].parent);
    if i < |Chain(s, p)| - 1 {
      ChainParents(s, s.pnodes[p].parent, i);
    }
  }

  // ---------------------------------------------------------------- components of a printed path

  lemma {:induction false} NameLeads(n: string, rest: string)
    requires PATH_SEPARATOR !in n && (rest == "" || rest[0] == PATH_SEPARATOR)
    ensures LeadingName(n + rest) == n
  {
    if n == "" {
      assert n + rest == rest;
    } else {
      NameLeads(n[1..], rest);
      assert (n + rest)[1..] == n[1..] + rest;
      assert n[0] in n;
    }
  }

  lemma ComponentOf(names: seq<string>)
    requires names != [] && NameOk(names[0])
    ensures Component(Text(names)) == (names[0], Text(names[1..]))
  {
    var n, rest := names[0], Text(names[1..]);
    var t := Text(names);
    assert t == [PATH_SEPARATOR] + (n + rest);
    assert t[1..] == n + rest;
    assert n[0] in n;
    assert SkipSlashes(t) == SkipSlashes(t[1..]) == n + rest;
    NameLeads(n, rest);
    assert (n + rest)[|n|..] == rest;
  }
}
