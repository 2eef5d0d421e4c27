/**
 * Network identifiers as text: an address, '@', a network name and number.  A nid is 64 bits:
 * a 32-bit network (type and number, 16 bits each) over a 32-bit address.
 */
module NidString {
  import opened Prelude
  import opened NumText

  const LNET_NIDSTR_SIZE: nat := 32
  const U64: nat := U32 * U32
  const LNET_NID_ANY: nat := U64 - 1
  const LOLND: nat := 9

  /** How a network writes and reads its addresses. */
  datatype AddrKind = Loopback | DottedQuad | DecimalNumber | HexNumber

  datatype NetFn = NetFn(lnd: nat, name: string, kind: AddrKind)

  /** The table of networks, in the order it is searched. */
  const NETS: seq<NetFn> := [
    NetFn(9, "lo", Loopback),
    NetFn(2, "tcp", DottedQuad),
    NetFn(5, "o2ib", DottedQuad),
    NetFn(6, "cib", DottedQuad),
    NetFn(7, "openib", DottedQuad),
    NetFn(8, "iib", DottedQuad),
    NetFn(11, "vib", DottedQuad),
    NetFn(10, "ra", DottedQuad),
    NetFn(1, "elan", DecimalNumber),
    NetFn(3, "gm", HexNumber),
    NetFn(12, "mx", DottedQuad),
    NetFn(4, "ptl", DecimalNumber)]

  function NidAddr(nid: nat): nat { nid % U32 }

  function NidNet(nid: nat): nat { nid / U32 }

  function NetType(net: nat): nat { net / 65536 % 65536 }

  function NetNum(net: nat): nat { net % 65536 }

  /** The type and number are or-ed together: a number past 16 bits spills into the type. */
  function MkNet(typ: nat, num: nat): nat
    requires typ < 65536 && num < U32
  {
    Or(typ * 65536, num)
  }

  /** Bitwise or. */
  function Or(a: nat, b: nat): nat {
    if a == 0 && b == 0 then 0 else (if a % 2 == 1 || b % 2 == 1 then 1 else 0) + 2 * Or(a / 2, b / 2)
  }

  function MkNid(net: nat, addr: nat): nat { net * U32 + addr }

  // ---------------------------------------------------------------- table searches

  /** libcfs_lnd2netstrfns. */
  function ByType(lnd: nat, from: nat): (r: Option<nat>)
    requires from <= |NETS|
    ensures r.Some? ==> from <= r.value < |NETS| && NETS[r.value].lnd == lnd
    ensures r.None? ==> forall k :: from <= k < |NETS| ==> NETS[k].lnd != lnd
    decreases |NETS| - from
  {
    if from == |NETS| then None else if NETS[from].lnd == lnd then Some(from) else ByType(lnd, from + 1)
  }

  /** libcfs_namenum2netstrfns: the first network whose name starts the text. */
  function ByPrefix(s: string, from: nat): (r: Option<nat>)
    requires from <= |NETS|
    ensures r.Some? ==> from <= r.value < |NETS| && NETS[r.value].name <= s
    ensures r.None? ==> forall k :: from <= k < |NETS| ==> !(NETS[k].name <= s)
    ensures r.Some? ==> forall k :: from <= k < r.value ==> !(NETS[k].name <= s)
    decreases |NETS| - from
  {
    if from == |NETS| then None else if NETS[from].name <= s then Some(from) else ByPrefix(s, from + 1)
  }

  // ---------------------------------------------------------------- addresses

  /** Numbers with a dot before each. */
  function Dots(parts: seq<nat>): string {
    if parts == [] then "" else "." + Print(parts[0], 10) + Dots(parts[1..])
  }

  /** "%u.%u.%u.%u" of the four bytes. */
  function QuadText(addr: nat): string
    requires addr < U32
  {
    Print(addr / 16777216, 10) + Dots([addr / 65536 % 256, addr / 256 % 256, addr % 256])
  }

  function AddrText(kind: AddrKind, addr: nat): string
    requires addr < U32
  {
    match kind
    case Loopback => Print(addr, 10)
    case DecimalNumber => Print(addr, 10)
    case HexNumber => "0x" + Print(addr, 16)
    case DottedQuad => QuadText(addr)
  }

  /** `k` further bytes of a dotted quad, and the text after them. */
  function MoreParts(t: string, k: nat, acc: nat): Option<(nat, string)>
    decreases k
  {
    if k == 0 then Some((acc, t))
    else
      match ScanAfter(".", t, 10)
      case NoMatch => None
      case Match(v, used) => if v < 256 then MoreParts(t[used..], k - 1, acc * 256 + v) else None
  }

  function ReadQuad(s: string, nob: nat): Option<nat> {
    match ScanNumber(s, 10)
    case NoMatch => None
    case Match(a, used) =>
      if a >= 256 then None
      else
        match MoreParts(s[used..], 3, a)
        case None => None
        case Some((v, rest)) => if |s| - |rest| == nob then Some(v) else None
  }

  function Reads(r: Scan, nob: nat): Option<nat> { if r.Match? && r.used == nob then Some(r.value) else None }

  function ReadNumber(s: string, nob: nat): Option<nat> {
    var x := Reads(ScanAfter("0x", s, 16), nob);
    if x.Some? then x
    else
      var y := Reads(ScanAfter("0X", s, 16), nob);
      if y.Some? then y else Reads(ScanNumber(s, 10), nob)
  }

  /** A loopback address reads as zero whatever it says. */
  function ReadAddr(kind: AddrKind, s: string, nob: nat): Option<nat> {
    match kind
    case Loopback => Some(0)
    case DottedQuad => ReadQuad(s, nob)
    case DecimalNumber => ReadNumber(s, nob)
    case HexNumber => ReadNumber(s, nob)
  }

  // ---------------------------------------------------------------- nids

  function NetText(k: nat, num: nat): string
    requires k < |NETS|
  {
    if num == 0 then NETS[k].name else NETS[k].name + Print(num, 10)
  }

  function Nid2Str(nid: nat): string
    requires nid < U64
  {
    var addr, typ, num := NidAddr(nid), NetType(NidNet(nid)), NetNum(NidNet(nid));
    if nid == LNET_NID_ANY then "LNET_NID_ANY"
    else
      match ByType(typ, 0)
      case None => Print(addr, 16) + "@<" + Print(typ, 10) + ":" + Print(num, 10) + ">"
      case Some(k) => AddrText(NETS[k].kind, addr) + "@" + NetText(k, num)
  }

  /** libcfs_str2net_internal: the network's place in the table and its number. */
  function ReadNet(s: string): Option<(nat, nat)> {
    match ByPrefix(s, 0)
    case None => None
    case Some(k) =>
      var name := NETS[k].name;
      if |s| == |name| then Some((k, 0))
      else if NETS[k].lnd == LOLND then None
      else
        match ScanNumber(s[|name|..], 10)
        case NoMatch => None
        case Match(v, used) => if used == |s| - |name| then Some((k, v)) else None
  }

  function FindAt(s: string): (k: nat)
    ensures k <= |s| && '@' !in s[..k] && (k < |s| ==> s[k] == '@')
  {
    if s == "" || s[0] == '@' then 0 else 1 + FindAt(s[1..])
  }

  function FromParts(net: Option<(nat, nat)>, s: string, sep: nat): nat {
    match net
    case None => LNET_NID_ANY
    case Some((k, num)) =>
      if k < |NETS| && num < U32 then
        match ReadAddr(NETS[k].kind, s, sep)
        case None => LNET_NID_ANY
        case Some(addr) => MkNid(MkNet(NETS[k].lnd, num), addr)
      else LNET_NID_ANY
  }

  /** Without an '@' the text is an address on the tcp network. */
  function Str2Nid(s: string): nat {
    var sep := FindAt(s);
    FromParts(if sep < |s| then ReadNet(s[sep + 1..]) else Some((1, 0)), s, sep)
  }

  // ---------------------------------------------------------------- the table is prefix free

  lemma TableFacts(k: nat)
    requires k < |NETS|
    ensures 2 <= |NETS[k].name| <= 6 && NETS[k].lnd < 16
    ensures forall c :: c in NETS[k].name ==> c != '@' && c != ' ' && c != '\t'
  {
  }

  /** No network's name starts another's, not even with a number appended. */
  lemma PrefixFree(j: nat, k: nat, rest: string)
    requires j < |NETS| && k < |NETS| && NETS[j].name <= NETS[k].name + rest
    ensures j == k
  {
    var a, b := NETS[j].name, NETS[k].name;
    assert a[0] == b[0] && a[1] == b[1];
  }

  lemma ByPrefixExact(k: nat, rest: string)
    requires k < |NETS|
    ensures ByPrefix(NETS[k].name + rest, 0) == Some(k)
  {
    var s := NETS[k].name + rest;
    assert NETS[k].name <= s;
    var r := ByPrefix(s, 0);
    hide ByPrefix;
    if r.Some? { PrefixFree(r.value, k, rest); }
  }

  lemma ReadNetExact(k: nat, num: nat)
    requires k < |NETS| && num < 65536 && (NETS[k].lnd == LOLND ==> num == 0)
    ensures ReadNet(NetText(k, num)) == Some((k, num))
  {
    var name := NETS[k].name;
    if num == 0 {
      assert name + "" == name;
      ByPrefixExact(k, "");
    } else {
      var d := Print(num, 10);
      ByPrefixExact(k, d);
      assert (name + d)[|name|..] == d + "";
      ScanPrinted(num, "", 10);
    }
  }

  lemma ReadNetLo(num: nat)
    requires 0 < num
    ensures ReadNet(NetText(0, num)) == None
  {
    ByPrefixExact(0, Print(num, 10));
  }

  // ---------------------------------------------------------------- addresses read back

  function Fold(acc: nat, parts: seq<nat>): nat
    decreases |parts|
  {
    if parts == [] then acc else Fold(acc * 256 + parts[0], parts[1..])
  }

  lemma Assoc(a: string, b: string, c: string)
    ensures (a + b) + c == a + (b + c)
  {
  }

  lemma DropFront(a: string, b: string)
    ensures (a + b)[|a|..] == b && (a + b)[..|a|] == a && a <= a + b
  {
  }

  lemma NextPart(v: nat, rest: string)
    requires v < U32 && Stops(rest, 10)
    ensures var t := "." + Print(v, 10) + rest;
      var r := ScanAfter(".", t, 10); r.Match? && r.value == v && t[r.used..] == rest
  {
    var p := Print(v, 10);
    hide Print, ScanNumber;
    ScanPrinted(v, rest, 10);
    Assoc(".", p, rest);
    DropFront(".", p + rest);
    DropFront("." + p, rest);
  }

  lemma PartStep(t: string, k: nat, acc: nat)
    requires k > 0 && ScanAfter(".", t, 10).Match? && ScanAfter(".", t, 10).value < 256
    ensures var r := ScanAfter(".", t, 10); MoreParts(t, k, acc) == MoreParts(t[r.used..], k - 1, acc * 256 + r.value)
  {
    hide ScanAfter;
  }

  lemma FoldStep(acc: nat, parts: seq<nat>)
    requires parts != []
    ensures Fold(acc, parts) == Fold(acc * 256 + parts[0], parts[1..])
  {
  }

  lemma {:induction false} PartsPrinted(parts: seq<nat>, rest: string, acc: nat)
    requires (forall i :: 0 <= i < |parts| ==> parts[i] < 256) && Stops(rest, 10)
    ensures MoreParts(Dots(parts) + rest, |parts|, acc) == Some((Fold(acc, parts), rest))
    decreases |parts|
  {
    hide Print, ScanAfter, Fold, MoreParts;
    if parts == [] {
      NoParts(rest, acc);
    } else {
      var v, tail := parts[0], parts[1..];
      var more := Dots(tail);
      assert Dots(parts) == "." + Print(v, 10) + more;
      assert Stops(more + rest, 10) by { if tail != [] { DotsStart(tail); } }
      hide Dots, Stops;
      Assoc("." + Print(v, 10), more, rest);
      NextPart(v, more + rest);
      PartsPrinted(tail, rest, acc * 256 + v);
      FoldStep(acc, parts);
      PartStep(Dots(parts) + rest, |parts|, acc);
    }
  }

  lemma NoParts(rest: string, acc: nat)
    ensures MoreParts(Dots([]) + rest, 0, acc) == Some((Fold(acc, []), rest))
  {
    assert Dots([]) + rest == rest;
  }

  lemma QuadReadsBack(addr: nat, rest: string)
    requires addr < U32 && Stops(rest, 10)
    ensures ReadQuad(QuadText(addr) + rest, |QuadText(addr)|) == Some(addr)
  {
    var a, parts := addr / 16777216, [addr / 65536 % 256, addr / 256 % 256, addr % 256];
    QuadFold(addr);
    QuadScan(a, parts, rest);
  }

  lemma QuadScan(a: nat, parts: seq<nat>, rest: string)
    requires a < 256 && |parts| == 3 && (forall i :: 0 <= i < |parts| ==> parts[i] < 256) && Stops(rest, 10)
    ensures ReadQuad(Print(a, 10) + Dots(parts) + rest, |Print(a, 10) + Dots(parts)|) == Some(Fold(a, parts))
  {
    var p, d := Print(a, 10), Dots(parts);
    assert Stops(d + rest, 10) by { DotsStart(parts); }
    hide Print, ScanNumber, MoreParts, Dots, Fold, Stops;
    Assoc(p, d, rest);
    ScanPrinted(a, d + rest, 10);
    PartsPrinted(parts, rest, a);
    DropFront(p, d + rest);
  }

  lemma DotsStart(parts: seq<nat>)
    requires parts != []
    ensures Dots(parts) != "" && Dots(parts)[0] == '.'
  {
  }

  lemma FoldQuad(a: nat, b: nat, c: nat, d: nat)
    ensures Fold(a, [b, c, d]) == a * 16777216 + b * 65536 + c * 256 + d
  {
    assert [b, c, d][1..] == [c, d] && [c, d][1..] == [d] && [d][1..] == [];
    assert Fold(a * 256 + b, [c, d]) == Fold((a * 256 + b) * 256 + c, [d]);
    assert Fold((a * 256 + b) * 256 + c, [d]) == Fold(((a * 256 + b) * 256 + c) * 256 + d, []);
  }

  lemma QuadBytes(addr: nat)
    requires addr < U32
    ensures addr / 16777216 < 256
    ensures addr / 16777216 * 16777216 + addr / 65536 % 256 * 65536 + addr / 256 % 256 * 256 + addr % 256 == addr
  {
    var x, y := addr / 256, addr / 65536;
    assert x / 256 == y && y / 256 == addr / 16777216;
    assert addr == x * 256 + addr % 256 && x == y * 256 + x % 256 && y == y / 256 * 256 + y % 256;
  }

  lemma QuadFold(addr: nat)
    requires addr < U32
    ensures addr / 16777216 < 256
    ensures Fold(addr / 16777216, [addr / 65536 % 256, addr / 256 % 256, addr % 256]) == addr
  {
    hide Fold;
    FoldQuad(addr / 16777216, addr / 65536 % 256, addr / 256 % 256, addr % 256);
    QuadBytes(addr);
  }

  lemma NumberReadsDecimal(n: nat, rest: string)
    requires n < U32 && rest != "" && rest[0] == '@'
    ensures ReadNumber(Print(n, 10) + rest, |Print(n, 10)|) == Some(n)
  {
    var s := Print(n, 10) + rest;
    assert |s| > 1 && s[1] != 'x' && s[1] != 'X' by {
      PrintValue(n, 10);
      assert |Print(n, 10)| > 1 ==> IsDigit(Print(n, 10)[1], 10);
    }
    hide Print, ScanNumber;
    ScanPrinted(n, rest, 10);
    NotHexed(s);
    hide ScanAfter;
  }

  lemma NotHexed(s: string)
    requires |s| > 1 && s[1] != 'x' && s[1] != 'X'
    ensures ScanAfter("0x", s, 16) == NoMatch && ScanAfter("0X", s, 16) == NoMatch
  {
    assert !("0x" <= s) && !("0X" <= s);
  }

  lemma HexPrefix(t: string)
    ensures "0x" <= "0x" + t && ("0x" + t)[2..] == t
  {
  }

  lemma NumberReadsHex(n: nat, rest: string)
    requires n < U32 && Stops(rest, 16)
    ensures ReadNumber("0x" + Print(n, 16) + rest, 2 + |Print(n, 16)|) == Some(n)
  {
    var p := Print(n, 16);
    hide Print, ScanNumber;
    Assoc("0x", p, rest);
    HexPrefix(p + rest);
    ScanPrinted(n, rest, 16);
  }

  lemma AddrReadsBack(kind: AddrKind, addr: nat, rest: string)
    requires addr < U32 && rest != "" && rest[0] == '@' && kind != Loopback
    ensures ReadAddr(kind, AddrText(kind, addr) + rest, |AddrText(kind, addr)|) == Some(addr)
  {
    hide Print, ReadQuad, ReadNumber, QuadText;
    match kind
    case DottedQuad => QuadReadsBack(addr, rest);
    case DecimalNumber => NumberReadsDecimal(addr, rest);
    case HexNumber => NumberReadsHex(addr, rest);
  }

  lemma DigitsNoAt(n: nat, base: nat)
    requires IsBase(base)
    ensures '@' !in Print(n, base)
  {
    PrintValue(n, base);
  }

  lemma AddrNoAt(kind: AddrKind, addr: nat)
    requires addr < U32
    ensures '@' !in AddrText(kind, addr)
  {
    hide Print, Dots;
    DigitsNoAt(addr, 10);
    DigitsNoAt(addr, 16);
    DigitsNoAt(addr / 16777216, 10);
    DotsNoAt([addr / 65536 % 256, addr / 256 % 256, addr % 256]);
  }

  lemma {:induction false} DotsNoAt(parts: seq<nat>)
    ensures '@' !in Dots(parts)
  {
    if parts == [] {
    } else {
      DigitsNoAt(parts[0], 10);
      DotsNoAt(parts[1..]);
    }
  }

  lemma {:induction false} DotsLength(parts: seq<nat>)
    requires forall i :: 0 <= i < |parts| ==> parts[i] < 256
    ensures |Dots(parts)| <= 4 * |parts|
  {
    if parts == [] {
    } else {
      Decimal8(parts[0]);
      DotsLength(parts[1..]);
    }
  }

  lemma {:induction false} FindAtExact(a: string, rest: string)
    requires '@' !in a && rest != "" && rest[0] == '@'
    ensures FindAt(a + rest) == |a|
  {
    if a == "" {
      assert a + rest == rest;
    } else {
      assert (a + rest)[1..] == a[1..] + rest;
      FindAtExact(a[1..], rest);
    }
  }

  // ---------------------------------------------------------------- the round trip

  lemma MkNetSmall(typ: nat, num: nat)
    requires typ < 65536 && num < 65536
    ensures MkNet(typ, num) == typ * 65536 + num
  {
    assert Pow2(16) == 65536 by { Pow2Split(8, 8); assert Pow2(8) == 256; }
    OrApart(typ, num, 16);
  }

  /** Bits that do not meet add up. */
  lemma {:induction false} OrApart(t: nat, n: nat, k: nat)
    requires n < Pow2(k)
    ensures Or(t * Pow2(k), n) == t * Pow2(k) + n
    decreases k
  {
    if k == 0 {
      OrZero(t);
    } else {
      var x := t * Pow2(k - 1);
      assert t * Pow2(k) == 2 * x;
      OrApart(t, n / 2, k - 1);
    }
  }

  lemma {:induction false} OrZero(a: nat)
    ensures Or(a, 0) == a
  {
    if a == 0 {
    } else {
      OrZero(a / 2);
    }
  }

  lemma NidParts(nid: nat)
    requires nid < U64
    ensures NidNet(nid) < U32 && NetType(NidNet(nid)) < 65536
    ensures MkNid(NetType(NidNet(nid)) * 65536 + NetNum(NidNet(nid)), NidAddr(nid)) == nid
  {
  }

  lemma Str2NidSplit(a: string, n: string)
    requires '@' !in a
    ensures Str2Nid(a + "@" + n) == FromParts(ReadNet(n), a + "@" + n, |a|)
  {
    hide FromParts, ReadNet;
    Assoc(a, "@", n);
    FindAtExact(a, "@" + n);
    assert (a + "@" + n)[|a| + 1..] == n;
  }

  /** The nids whose text names them. */
  predicate Printable(nid: nat) {
    var typ := NetType(NidNet(nid));
    nid == LNET_NID_ANY ||
    (ByType(typ, 0).Some? && (typ == LOLND ==> NetNum(NidNet(nid)) == 0 && NidAddr(nid) == 0))
  }

  lemma KnownReadsBack(nid: nat, k: nat)
    requires nid < U64 && nid != LNET_NID_ANY && ByType(NetType(NidNet(nid)), 0) == Some(k)
    ensures Str2Nid(Nid2Str(nid)) == nid <==> Printable(nid)
  {
    var addr, typ, num := NidAddr(nid), NetType(NidNet(nid)), NetNum(NidNet(nid));
    NidParts(nid);
    MkNetSmall(typ, num);
    var a, n := AddrText(NETS[k].kind, addr), NetText(k, num);
    AddrNoAt(NETS[k].kind, addr);
    Str2NidSplit(a, n);
    LoPlace(k);
    Assoc(a, "@", n);
    hide Str2Nid, AddrText, NetText, ReadNet, ReadAddr, MkNet;
    if typ == LOLND {
      if num == 0 { ReadNetExact(k, num); } else { ReadNetLo(num); }
    } else {
      ReadNetExact(k, num);
      AddrReadsBack(NETS[k].kind, addr, "@" + n);
    }
  }

  lemma LoPlace(k: nat)
    requires k < |NETS|
    ensures NETS[k].lnd == LOLND <==> k == 0
    ensures NETS[k].kind == Loopback <==> k == 0
  {
  }

  lemma UnknownReadsAny(nid: nat)
    requires nid < U64 && nid != LNET_NID_ANY && ByType(NetType(NidNet(nid)), 0) == None
    ensures Str2Nid(Nid2Str(nid)) == LNET_NID_ANY
  {
    var addr, typ, num := NidAddr(nid), NetType(NidNet(nid)), NetNum(NidNet(nid));
    var a := Print(addr, 16);
    var n := "<" + Print(typ, 10) + ":" + Print(num, 10) + ">";
    DigitsNoAt(addr, 16);
    BracketNoNet(n);
    Str2NidSplit(a, n);
    hide Print, Str2Nid, ReadNet, ReadAddr;
    BracketSplit(a, Print(typ, 10), Print(num, 10));
  }

  lemma BracketSplit(a: string, t: string, n: string)
    ensures a + "@<" + t + ":" + n + ">" == a + "@" + ("<" + t + ":" + n + ">")
  {
    assert "@<" == "@" + "<";
    Assoc(a, "@", "<");
    Assoc(a + "@", "<", t + ":" + n + ">");
    Assoc("<" + t, ":", n + ">");
  }

  lemma BracketNoNet(n: string)
    requires n != "" && n[0] == '<'
    ensures ReadNet(n) == None
  {
    var r := ByPrefix(n, 0);
    hide ByPrefix;
    if r.Some? { NameStart(r.value); }
  }

  lemma NameStart(k: nat)
    requires k < |NETS|
    ensures |NETS[k].name| > 0 && 'a' <= NETS[k].name[0] <= 'z'
  {
  }

  lemma AnyReadsAny()
    ensures Str2Nid(Nid2Str(LNET_NID_ANY)) == LNET_NID_ANY
  {
    var s := "LNET_NID_ANY";
    assert Nid2Str(LNET_NID_ANY) == s;
    assert s[0] == 'L' && '@' !in s;
    hide *;
    LetterReadsAny(s);
  }

  lemma LetterReadsAny(s: string)
    requires s != "" && s[0] == 'L' && '@' !in s
    ensures Str2Nid(s) == LNET_NID_ANY
  {
    assert |NETS| == 12 && NETS[1].kind == DottedQuad;
    hide FindAt, ScanNumber, NETS;
    NoAt(s);
    LetterNoNumber(s);
  }

  lemma LetterNoNumber(s: string)
    requires s != "" && s[0] == 'L'
    ensures ScanNumber(s, 10) == NoMatch
  {
    assert s[0..] == s;
  }

  lemma {:induction false} NoAt(s: string)
    requires '@' !in s
    ensures FindAt(s) == |s|
  {
    if s == "" {
    } else {
      NoAt(s[1..]);
    }
  }

  /**
   * A nid reads back from its text exactly when its network type is known and, on the loopback
   * network, number and address are zero; the wildcard nid reads back too.
   */
  lemma NidRoundTrip(nid: nat)
    requires nid < U64
    ensures Str2Nid(Nid2Str(nid)) == nid <==> Printable(nid)
  {
    if nid == LNET_NID_ANY {
      AnyReadsAny();
    } else {
      match ByType(NetType(NidNet(nid)), 0)
      case None => UnknownReadsAny(nid);
      case Some(k) => KnownReadsBack(nid, k);
    }
  }

  /** A loopback nid that does not read back: network 0x90000, address 1. */
  lemma LoopbackLost()
    ensures Str2Nid(Nid2Str(MkNid(0x90000, 1))) != MkNid(0x90000, 1)
  {
    hide Str2Nid, Nid2Str;
    var nid := MkNid(0x90000, 1);
    assert NidNet(nid) == 0x90000 && NidAddr(nid) == 1;
    NidRoundTrip(nid);
  }

  lemma AddrTextLength(kind: AddrKind, addr: nat)
    requires addr < U32
    ensures |AddrText(kind, addr)| <= 15
  {
    Decimal32(addr);
    Hex32(addr);
    Decimal8(addr / 16777216);
    DotsLength([addr / 65536 % 256, addr / 256 % 256, addr % 256]);
    hide Print, Dots;
  }

  /** Every nid's text fits the string buffer, so the printing is never cut short. */
  lemma NidTextFits(nid: nat)
    requires nid < U64
    ensures |Nid2Str(nid)| < LNET_NIDSTR_SIZE
  {
    var addr, typ, num := NidAddr(nid), NetType(NidNet(nid)), NetNum(NidNet(nid));
    Hex32(addr);
    Decimal16(typ);
    Decimal16(num);
    match ByType(typ, 0)
    case None =>
    case Some(k) =>
      AddrTextLength(NETS[k].kind, addr);
      TableFacts(k);
  }
}
