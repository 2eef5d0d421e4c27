/** The cursor loops of the parser and the list loops of the matcher, as the source runs them. */
module NidMethods {
  import opened Prelude
  import opened NidString
  import opened NidList

  /** gettok: `next` moves past the delimiter, or becomes null at the end of the text. */
  method GetToken(l: Lstr, delim: char) returns (ok: bool, res: Lstr, next: Option<Lstr>)
    requires Fits(l)
    ensures ok <==> GetTok(l, delim).Tok?
    ensures ok ==> GetTok(l, delim) == Tok(res, next)
  {
    var t := l.tail[..l.len];
    var k := 0;
    res, next := l, None;
    while k < l.len && IsWhite(l.tail[k])
      invariant 0 <= k <= l.len && LeadingWhite(t) == k + LeadingWhite(t[k..])
    {
      assert t[k..][1..] == t[k + 1..];
      k := k + 1;
    }
    assert LeadingWhite(t) == k;
    if k == l.len {
      return false, l, None;
    }
    if l.tail[k] == delim {
      return false, l, None;
    }
    var e := ScanFor(t[k..], delim);
    if k + e < l.len {
      next := Some(Lstr(l.tail[k + e + 1..], l.len - k - e - 1));
    }
    var n := TrimEnd(t[k..][..e]);
    ok, res := true, Lstr(l.tail[k..], n);
  }

  /** memchr. */
  method ScanFor(s: string, c: char) returns (k: nat)
    ensures k == FindChar(s, c)
  {
    k := 0;
    while k < |s| && s[k] != c
      invariant 0 <= k <= |s| && FindChar(s, c) == k + FindChar(s[k..], c)
    {
      assert s[k..][1..] == s[k + 1..];
      k := k + 1;
    }
  }

  method TrimEnd(s: string) returns (n: nat)
    requires s != ""
    ensures n == TrimmedLength(s)
  {
    n := |s|;
    assert s[..n] == s;
    while n > 1 && IsWhite(s[n - 1])
      invariant 1 <= n <= |s| && TrimmedLength(s[..n]) == TrimmedLength(s)
    {
      assert s[..n][..n - 1] == s[..n - 1];
      n := n - 1;
    }
  }

  /** The loop of parse_expr_list. */
  method ReadExprs(l: Lstr, min: nat, max: nat) returns (r: Option<NumAddr>)
    requires Fits(l)
    ensures r == ParseExprs(Some(l), min, max)
  {
    hide ParseRangeExpr, GetTok;
    var cur := Some(l);
    var list: NumAddr := [];
    AfterNothing(ParseExprs(cur, min, max));
    while cur.Some?
      invariant cur.Some? ==> Fits(cur.value)
      invariant ParseExprs(Some(l), min, max) == After(list, ParseExprs(cur, min, max))
      decreases cur.Some?, if cur.Some? then cur.value.len else 0
    {
      var ok, res, next := GetToken(cur.value, ',');
      if !ok {
        return None;
      }
      var e := ParseRangeExpr(res, min, max);
      if e.None? {
        return None;
      }
      AfterStep(list, e.value, ParseExprs(next, min, max));
      list, cur := list + [e.value], next;
    }
    assert list + [] == list;
    r := Some(list);
  }

  /** The loop of libcfs_ip_parse. */
  method ReadParts(l: Lstr) returns (r: Option<AddrRange>)
    requires Fits(l)
    ensures r == IpParts(Some(l))
  {
    hide NumParse, GetTok;
    var cur := Some(l);
    var list: AddrRange := [];
    AfterNothing(IpParts(cur));
    while cur.Some?
      invariant cur.Some? ==> Fits(cur.value)
      invariant IpParts(Some(l)) == After(list, IpParts(cur))
      decreases cur.Some?, if cur.Some? then cur.value.len else 0
    {
      var ok, res, next := GetToken(cur.value, '.');
      if !ok {
        return None;
      }
      var p := NumParse(res, 0, 255);
      if p.None? {
        return None;
      }
      AfterStep(list, p.value, IpParts(next));
      list, cur := list + [p.value], next;
    }
    assert list + [] == list;
    r := Some(list);
  }

  function After<T>(list: seq<T>, rest: Option<seq<T>>): Option<seq<T>> {
    match rest case None => None case Some(r) => Some(list + r)
  }

  lemma AfterNothing<T>(rest: Option<seq<T>>)
    ensures After([], rest) == rest
  {
    if rest.Some? { assert [] + rest.value == rest.value; }
  }

  lemma AfterStep<T>(list: seq<T>, x: T, rest: Option<seq<T>>)
    ensures After(list + [x], rest) == After(list, After([x], rest))
  {
    if rest.Some? { assert list + [x] + rest.value == list + ([x] + rest.value); }
  }

  /** The search of add_nidrange. */
  method SearchRange(list: seq<NidRange>, net: nat, num: nat) returns (k: nat)
    ensures k == FindRange(list, net, num, 0)
  {
    k := 0;
    while k < |list| && !(list[k].net == net && list[k].num == num)
      invariant 0 <= k <= |list| && FindRange(list, net, num, k) == FindRange(list, net, num, 0)
    {
      k := k + 1;
    }
  }

  /** cfs_parse_nidlist. */
  method ReadNidList(str: string, len: nat) returns (r: Option<seq<NidRange>>)
    requires len <= |str|
    ensures r == ParseNidList(Some(Lstr(str, len)), [])
  {
    hide ParseNidRange;
    var cur := Some(Lstr(str, len));
    var list: seq<NidRange> := [];
    while cur.Some?
      invariant cur.Some? ==> Fits(cur.value)
      invariant ParseNidList(cur, list) == ParseNidList(Some(Lstr(str, len)), [])
      decreases cur.Some?, if cur.Some? then cur.value.len else 0
    {
      var ok, res, next := GetToken(cur.value, ' ');
      if !ok {
        return None;
      }
      var grown := ParseNidRange(res, list);
      if grown.None? {
        return None;
      }
      list, cur := grown.value, next;
    }
    r := Some(list);
  }

  /** match_numaddr. */
  method MatchNumAddr(addr: nat, parts: AddrRange, shift0: int, wide: bool) returns (yes: bool)
    requires |parts| > 0 ==> shift0 >= 8 * (|parts| - 1)
    requires forall i :: 0 <= i < |parts| ==> StridesOk(parts[i])
    ensures yes <==> MatchParts(addr, parts, shift0, wide)
  {
    var shift := shift0;
    var k := 0;
    while k < |parts|
      invariant 0 <= k <= |parts| && shift == shift0 - 8 * k
      invariant MatchParts(addr, parts, shift0, wide) <==> MatchParts(addr, parts[k..], shift, wide)
    {
      var ip := Piece(addr, shift, wide);
      shift := shift - 8;
      var ok, j := false, 0;
      while j < |parts[k]| && !ok
        invariant 0 <= j <= |parts[k]|
        invariant ok ==> j > 0 && MatchExpr(ip, parts[k][j - 1])
        invariant !ok ==> forall i :: 0 <= i < j ==> !MatchExpr(ip, parts[k][i])
      {
        ok := MatchExpr(ip, parts[k][j]);
        j := j + 1;
      }
      assert ok <==> MatchAny(ip, parts[k]);
      assert parts[k..][0] == parts[k] && parts[k..][1..] == parts[k + 1..];
      if !ok {
        return false;
      }
      k := k + 1;
    }
    yes := true;
  }

  /** cfs_match_nid. */
  method Matches(nid: nat, list: seq<NidRange>) returns (yes: bool)
    requires ListOk(list)
    ensures yes <==> MatchNid(nid, list)
  {
    var k := 0;
    while k < |list|
      invariant 0 <= k <= |list|
      invariant forall i :: 0 <= i < k ==> !MatchRange(nid, list[i])
    {
      var r := list[k];
      assert RangeOk(r);
      if NETS[r.net].lnd == NetType(NidNet(nid)) && r.num == NetNum(NidNet(nid)) {
        if r.all {
          assert MatchRange(nid, list[k]);
          return true;
        }
        var found := MatchEntry(nid, r);
        if found {
          assert MatchRange(nid, list[k]);
          return true;
        }
      }
      k := k + 1;
    }
    yes := false;
  }

  /** The loop over one entry's address ranges. */
  method MatchEntry(nid: nat, r: NidRange) returns (yes: bool)
    requires RangeOk(r)
    ensures yes <==> exists i :: 0 <= i < |r.addrs| && MatchAddr(r.net, NidAddr(nid), r.addrs[i])
  {
    var j := 0;
    while j < |r.addrs|
      invariant 0 <= j <= |r.addrs|
      invariant forall i :: 0 <= i < j ==> !MatchAddr(r.net, NidAddr(nid), r.addrs[i])
    {
      assert AddrOk(r.net, r.addrs[j]);
      var ok;
      if Numeric(r.net) {
        ok := MatchNumAddr(NidAddr(nid), r.addrs[j], 0, true);
      } else {
        ok := MatchNumAddr(NidAddr(nid), r.addrs[j], 24, false);
      }
      if ok {
        return true;
      }
      j := j + 1;
    }
    yes := false;
  }
}
