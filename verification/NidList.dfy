/**
 * The parser and the matcher of nid range lists.  Text is read through a cursor that, like the
 * source's start and length, can see past the end of its token; `None` is the null start.
 */
module NidList {
  import opened Prelude
  import opened NumText
  import opened NidString

  const MAX_NUMERIC_VALUE: nat := U32 - 1

  datatype Lstr = Lstr(tail: string, len: nat)

  predicate Fits(l: Lstr) { l.len <= |l.tail| }

  function TextOf(l: Lstr): string
    requires Fits(l)
  {
    l.tail[..l.len]
  }

  // ---------------------------------------------------------------- tokens

  predicate IsWhite(c: char) { c == ' ' || c == '\t' || c == '\n' || c == '\r' }

  function LeadingWhite(s: string): (k: nat)
    ensures k <= |s| && (forall i :: 0 <= i < k ==> IsWhite(s[i])) && (k < |s| ==> !IsWhite(s[k]))
  {
    if s != "" && IsWhite(s[0]) then 1 + LeadingWhite(s[1..]) else 0
  }

  function FindChar(s: string, c: char): (k: nat)
    ensures k <= |s| && c !in s[..k] && (k < |s| ==> s[k] == c)
  {
    if s == "" || s[0] == c then 0 else 1 + FindChar(s[1..], c)
  }

  /** The length of a text without its trailing white space, its first character always kept. */
  function TrimmedLength(s: string): (k: nat)
    requires s != ""
    ensures 1 <= k <= |s| && (forall i :: k <= i < |s| ==> IsWhite(s[i])) && (k > 1 ==> !IsWhite(s[k - 1]))
  {
    if |s| == 1 || !IsWhite(s[|s| - 1]) then |s| else TrimmedLength(s[..|s| - 1])
  }

  datatype Tok = NoTok | Tok(res: Lstr, next: Option<Lstr>)

  /** gettok: the text before the delimiter, trimmed, and the text after it. */
  function GetTok(l: Lstr, delim: char): (r: Tok)
    requires Fits(l)
    ensures r.Tok? ==> Fits(r.res) && r.res.len > 0
    ensures r.Tok? && r.next.Some? ==> Fits(r.next.value) && r.next.value.len < l.len
  {
    var t := TextOf(l);
    var k := LeadingWhite(t);
    if k == l.len || t[k] == delim then NoTok
    else
      var e := FindChar(t[k..], delim);
      var res := Lstr(l.tail[k..], TrimmedLength(t[k..][..e]));
      Tok(res, if k + e == l.len then None else Some(Lstr(l.tail[k + e + 1..], l.len - k - e - 1)))
  }

  predicate AllWhite(s: string) { forall i :: 0 <= i < |s| ==> IsWhite(s[i]) }

  /** Blank text up to a delimiter that is no white space itself. */
  predicate BlankTo(t: string, j: nat, delim: char) {
    j < |t| && t[j] == delim && !IsWhite(delim) && AllWhite(t[..j])
  }

  /** There is no token exactly when the text is blank, all of it or up to the delimiter. */
  lemma TokNone(l: Lstr, delim: char)
    requires Fits(l)
    ensures GetTok(l, delim).NoTok? <==> AllWhite(TextOf(l)) || exists j :: BlankTo(TextOf(l), j, delim)
  {
    var t := TextOf(l);
    var k := LeadingWhite(t);
    hide LeadingWhite, FindChar, TrimmedLength;
    assert GetTok(l, delim).NoTok? <==> k == |t| || t[k] == delim;
    hide GetTok;
    if k < |t| && t[k] == delim { assert BlankTo(t, k, delim); }
    forall j: nat | BlankTo(t, j, delim) ensures j == k { }
  }

  /** The text, cut into white space, the token, more white space, and what follows the delimiter. */
  ghost predicate Cut(t: string, lead: string, tok: string, trail: string, after: string, delim: char) {
    && AllWhite(lead) && AllWhite(trail) && tok != "" && !IsWhite(tok[0]) && !IsWhite(tok[|tok| - 1])
    && delim !in tok + trail && t == lead + tok + trail + after
  }

  lemma CutAt(t: string, k: nat, m: nat, e: nat, delim: char)
    requires k < |t| && 1 <= m <= e && k + e <= |t| && AllWhite(t[..k]) && !IsWhite(t[k]) && !IsWhite(t[k + m - 1])
    requires (forall i :: k + m <= i < k + e ==> IsWhite(t[i])) && delim !in t[k..k + e]
    ensures Cut(t, t[..k], t[k..k + m], t[k + m..k + e], t[k + e..], delim)
  {
    assert t[k..k + m] + t[k + m..k + e] == t[k..k + e];
    assert t == t[..k] + t[k..k + m] + t[k + m..k + e] + t[k + e..];
  }

  lemma TrimmedAt(t: string, k: nat, e: nat)
    requires k < |t| && 1 <= e && k + e <= |t| && !IsWhite(t[k])
    ensures var m := TrimmedLength(t[k..][..e]);
      1 <= m <= e && !IsWhite(t[k + m - 1]) && forall i :: k + m <= i < k + e ==> IsWhite(t[i])
  {
    hide TrimmedLength;
    var q := t[k..][..e];
    var m := TrimmedLength(q);
    forall i | k + m <= i < k + e ensures IsWhite(t[i]) { assert t[i] == q[i - k]; }
    assert t[k + m - 1] == q[m - 1];
  }

  /** A token is what lies between white space and the delimiter or the end, without its own trailing white space. */
  lemma TokExact(l: Lstr, delim: char) returns (lead: string, trail: string)
    requires Fits(l) && GetTok(l, delim).Tok?
    ensures var Tok(res, next) := GetTok(l, delim);
      Cut(TextOf(l), lead, TextOf(res), trail, if next.Some? then [delim] + TextOf(next.value) else "", delim)
  {
    hide LeadingWhite, FindChar, TrimmedLength, Cut;
    var t := TextOf(l);
    var k := LeadingWhite(t);
    var e := FindChar(t[k..], delim);
    assert t[k..][..e] == t[k..k + e] && e >= 1;
    TrimmedAt(t, k, e);
    var m := TrimmedLength(t[k..][..e]);
    CutAt(t, k, m, e, delim);
    lead, trail := t[..k], t[k + m..k + e];
    TokParts(l, delim, k, e, m);
  }

  lemma TokParts(l: Lstr, delim: char, k: nat, e: nat, m: nat)
    requires Fits(l) && GetTok(l, delim).Tok? && k == LeadingWhite(TextOf(l)) && k < l.len
    requires e == FindChar(TextOf(l)[k..], delim) && k + e <= l.len && e > 0 && m == TrimmedLength(TextOf(l)[k..][..e])
    ensures var Tok(res, next) := GetTok(l, delim); var t := TextOf(l);
      TextOf(res) == t[k..k + m] && t[k + e..] == if next.Some? then [delim] + TextOf(next.value) else ""
  {
    hide LeadingWhite, FindChar, TrimmedLength;
    var Tok(res, next) := GetTok(l, delim);
    var t := TextOf(l);
    assert res == Lstr(l.tail[k..], m);
    assert TextOf(res) == t[k..k + m] by {
      forall i | 0 <= i < m ensures TextOf(res)[i] == t[k..k + m][i] {
        assert l.tail[k..][i] == l.tail[k + i] == t[k + i];
      }
    }
    if next.Some? {
      assert next.value == Lstr(l.tail[k + e + 1..], l.len - k - e - 1);
      assert t[k + e] == t[k..][e] == delim;
      assert t[k + e..] == [delim] + TextOf(next.value) by {
        forall i | 0 <= i < |TextOf(next.value)| ensures TextOf(next.value)[i] == t[k + e + 1..][i] {
          assert l.tail[k + e + 1..][i] == l.tail[k + e + 1 + i] == t[k + e + 1 + i];
        }
      }
    }
  }

  // ---------------------------------------------------------------- numbers

  /** The value the first scan that uses up the whole token yields. */
  function RawNum(l: Lstr): (r: Option<nat>)
    ensures r.Some? ==> r.value < U32
  {
    var d := Reads(ScanNumber(l.tail, 10), l.len);
    if d.Some? then d
    else
      var x := Reads(ScanAfter("0x", l.tail, 16), l.len);
      if x.Some? then x else Reads(ScanAfter("0X", l.tail, 16), l.len)
  }

  /** The ways to write a number that the parser accepts. */
  predicate Canonical(s: string, n: nat) {
    s == Print(n, 10) || s == "0x" + Print(n, 16) || s == "0X" + Print(n, 16)
  }

  /** libcfs_str2num_check: the number must print back as it was written. */
  function CheckNum(l: Lstr, min: nat, max: nat): (r: Option<nat>)
    requires Fits(l)
    ensures r.Some? ==> min <= r.value <= max && r.value < U32 && Canonical(TextOf(l), r.value)
  {
    match RawNum(l)
    case None => None
    case Some(n) => if Canonical(TextOf(l), n) && min <= n <= max then Some(n) else None
  }

  // ---------------------------------------------------------------- ranges

  datatype RangeExpr = RangeExpr(lo: nat, hi: nat, stride: nat)

  type NumAddr = seq<RangeExpr>

  type AddrRange = seq<NumAddr>

  datatype NidRange = NidRange(net: nat, num: nat, all: bool, addrs: seq<AddrRange>)

  /** What follows the '-' of a range: a number, or a number, '/', and a number. */
  function ParseUpper(lo: nat, src: Lstr, min: nat, max: nat): Option<RangeExpr>
    requires Fits(src)
  {
    match CheckNum(src, min, max)
    case Some(hi) => Some(RangeExpr(lo, hi, 1))
    case None =>
      match GetTok(src, '/')
      case NoTok => None
      case Tok(tok, next) =>
        match CheckNum(tok, min, max)
        case None => None
        case Some(hi) =>
          if next.None? then None
          else
            match CheckNum(next.value, min, max)
            case None => None
            case Some(stride) => Some(RangeExpr(lo, hi, stride))
  }

  function ParseRangeExpr(src: Lstr, min: nat, max: nat): Option<RangeExpr>
    requires Fits(src)
  {
    match CheckNum(src, min, max)
    case Some(n) => Some(RangeExpr(n, n, 1))
    case None =>
      match GetTok(src, '-')
      case NoTok => None
      case Tok(tok, next) =>
        match CheckNum(tok, min, max)
        case None => None
        case Some(lo) => if next.None? then None else ParseUpper(lo, next.value, min, max)
  }

  /** The loop of parse_expr_list. */
  function ParseExprs(cur: Option<Lstr>, min: nat, max: nat): Option<NumAddr>
    requires cur.Some? ==> Fits(cur.value)
    decreases cur.Some?, if cur.Some? then cur.value.len else 0
  {
    match cur
    case None => Some([])
    case Some(l) =>
      match GetTok(l, ',')
      case NoTok => None
      case Tok(res, next) =>
        match ParseRangeExpr(res, min, max)
        case None => None
        case Some(e) =>
          match ParseExprs(next, min, max)
          case None => None
          case Some(es) => Some([e] + es)
  }

  function ParseExprList(l: Lstr, min: nat, max: nat): Option<NumAddr>
    requires Fits(l)
  {
    if l.len < 2 || l.tail[0] != '[' || l.tail[l.len - 1] != ']' then None
    else ParseExprs(Some(Lstr(l.tail[1..], l.len - 2)), min, max)
  }

  function NumParse(l: Lstr, min: nat, max: nat): Option<NumAddr>
    requires Fits(l)
  {
    match CheckNum(l, min, max)
    case Some(n) => Some([RangeExpr(n, n, 1)])
    case None => ParseExprList(l, min, max)
  }

  /** The loop of libcfs_ip_parse. */
  function IpParts(cur: Option<Lstr>): Option<AddrRange>
    requires cur.Some? ==> Fits(cur.value)
    decreases cur.Some?, if cur.Some? then cur.value.len else 0
  {
    match cur
    case None => Some([])
    case Some(l) =>
      match GetTok(l, '.')
      case NoTok => None
      case Tok(res, next) =>
        match NumParse(res, 0, 255)
        case None => None
        case Some(p) =>
          match IpParts(next)
          case None => None
          case Some(ps) => Some([p] + ps)
  }

  predicate Numeric(net: nat)
    requires net < |NETS|
  {
    NETS[net].kind != DottedQuad
  }

  function ParseAddrs(net: nat, l: Lstr): Option<AddrRange>
    requires net < |NETS| && Fits(l)
  {
    if Numeric(net) then
      match NumParse(l, 0, MAX_NUMERIC_VALUE)
      case None => None
      case Some(p) => Some([p])
    else
      match IpParts(Some(l))
      case None => None
      case Some(ps) => if |ps| == 4 then Some(ps) else None
  }

  // ---------------------------------------------------------------- networks

  /** The network and number a token names. */
  function ParseNet(l: Lstr): (r: Option<(nat, nat)>)
    requires Fits(l)
    ensures r.Some? ==> r.value.0 < |NETS|
  {
    if l.len >= LNET_NIDSTR_SIZE then None
    else
      match ByPrefix(l.tail, 0)
      case None => None
      case Some(k) =>
        var n := |NETS[k].name|;
        if l.len == n then Some((k, 0))
        else if l.len < n then None
        else
          match CheckNum(Lstr(l.tail[n..], l.len - n), 0, MAX_NUMERIC_VALUE)
          case None => None
          case Some(num) => Some((k, num))
  }

  /** The entry for a network and number, from place `from` on. */
  function FindRange(list: seq<NidRange>, net: nat, num: nat, from: nat): (r: nat)
    requires from <= |list|
    ensures from <= r <= |list| && (r < |list| ==> list[r].net == net && list[r].num == num)
    ensures forall i :: from <= i < r ==> !(list[i].net == net && list[i].num == num)
    decreases |list| - from
  {
    if from == |list| || (list[from].net == net && list[from].num == num) then from
    else FindRange(list, net, num, from + 1)
  }

  /** add_nidrange: one entry for each network and number. */
  function AddRange(list: seq<NidRange>, net: nat, num: nat): (r: seq<NidRange>)
    ensures FindRange(list, net, num, 0) < |r|
    ensures var k := FindRange(list, net, num, 0); r[k].net == net && r[k].num == num
  {
    if FindRange(list, net, num, 0) < |list| then list else list + [NidRange(net, num, false, [])]
  }

  // ---------------------------------------------------------------- the list

  /** parse_nidrange: an address range, '@', a network. */
  function ParseNidRange(src: Lstr, list: seq<NidRange>): Option<seq<NidRange>>
    requires Fits(src)
  {
    match GetTok(src, '@')
    case NoTok => None
    case Tok(addr, next) =>
      if next.None? then None
      else
        match GetTok(next.value, '@')
        case NoTok => None
        case Tok(net, end) =>
          if end.Some? then None
          else
            match ParseNet(net)
            case None => None
            case Some((k, num)) =>
              var grown := AddRange(list, k, num);
              var i := FindRange(list, k, num, 0);
              if TextOf(addr) == "*" then Some(grown[i := grown[i].(all := true)])
              else
                match ParseAddrs(k, addr)
                case None => None
                case Some(ar) => Some(grown[i := grown[i].(addrs := grown[i].addrs + [ar])])
  }

  /** The loop of cfs_parse_nidlist. */
  function ParseNidList(cur: Option<Lstr>, list: seq<NidRange>): Option<seq<NidRange>>
    requires cur.Some? ==> Fits(cur.value)
    decreases cur.Some?, if cur.Some? then cur.value.len else 0
  {
    match cur
    case None => Some(list)
    case Some(l) =>
      match GetTok(l, ' ')
      case NoTok => None
      case Tok(res, next) =>
        match ParseNidRange(res, list)
        case None => None
        case Some(grown) => ParseNidList(next, grown)
  }

  // ---------------------------------------------------------------- matching

  predicate MatchExpr(x: int, e: RangeExpr)
    requires e.stride > 0
  {
    e.lo <= x <= e.hi && (x - e.lo) % e.stride == 0
  }

  predicate StridesOk(n: NumAddr) { forall i :: 0 <= i < |n| ==> n[i].stride > 0 }

  predicate MatchAny(x: int, n: NumAddr)
    requires StridesOk(n)
  {
    exists i :: 0 <= i < |n| && MatchExpr(x, n[i])
  }

  /** The part of an address that a number range is matched with. */
  function Piece(addr: nat, shift: nat, wide: bool): int {
    if wide then addr / Pow2(shift) else addr / Pow2(shift) % 256
  }

  /** match_numaddr: the first range against the highest byte, and so on down. */
  predicate MatchParts(addr: nat, parts: AddrRange, shift: int, wide: bool)
    requires |parts| > 0 ==> shift >= 8 * (|parts| - 1)
    requires forall i :: 0 <= i < |parts| ==> StridesOk(parts[i])
  {
    parts == [] || (MatchAny(Piece(addr, shift, wide), parts[0]) && MatchParts(addr, parts[1..], shift - 8, wide))
  }

  predicate AddrOk(net: nat, ar: AddrRange)
    requires net < |NETS|
  {
    |ar| == (if Numeric(net) then 1 else 4) && forall i :: 0 <= i < |ar| ==> StridesOk(ar[i])
  }

  predicate MatchAddr(net: nat, addr: nat, ar: AddrRange)
    requires net < |NETS| && AddrOk(net, ar)
  {
    if Numeric(net) then MatchParts(addr, ar, 0, true) else MatchParts(addr, ar, 24, false)
  }

  /** A compiled list the matcher can be run on: no zero stride to divide by. */
  predicate RangeOk(r: NidRange) {
    r.net < |NETS| && forall i :: 0 <= i < |r.addrs| ==> AddrOk(r.net, r.addrs[i])
  }

  predicate ListOk(list: seq<NidRange>) { forall i :: 0 <= i < |list| ==> RangeOk(list[i]) }

  predicate MatchRange(nid: nat, r: NidRange)
    requires RangeOk(r)
  {
    && NETS[r.net].lnd == NetType(NidNet(nid)) && r.num == NetNum(NidNet(nid))
    && (r.all || exists i :: 0 <= i < |r.addrs| && MatchAddr(r.net, NidAddr(nid), r.addrs[i]))
  }

  /** cfs_match_nid. */
  predicate MatchNid(nid: nat, list: seq<NidRange>)
    requires ListOk(list)
  {
    exists i :: 0 <= i < |list| && MatchRange(nid, list[i])
  }
}
