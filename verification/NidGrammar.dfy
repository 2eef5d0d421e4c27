/**
 * The documented grammar of nid range lists, with the white space the parser lets pass: its
 * sentences as data, their text, and the set of nids each denotes.  A text is accepted exactly
 * as a sentence whose addresses fit its networks, and the matcher then accepts exactly the nids
 * the sentence denotes.
 */
module NidGrammar {
  import opened Prelude
  import opened NumText
  import opened NidString
  import opened NidList

  // ---------------------------------------------------------------- sentences

  datatype Form = Decimal | LowerHex | UpperHex

  datatype Number = Number(value: nat, form: Form)

  /** White space may stand before the '-' and the '/', and after the '-' of a range with a stride. */
  datatype Range =
    | One(n: Number)
    | Span(lo: Number, gap: string, hi: Number)
    | Strided(lo: Number, gap: string, lead: string, hi: Number, trail: string, stride: Number)

  /** A token and the white space around it. */
  datatype Spaced<T> = Spaced(lead: string, it: T, trail: string)

  datatype Part = Plain(n: Number) | Listed(first: Spaced<Range>, more: seq<Spaced<Range>>)

  datatype Address =
    | Star
    | Single(part: Part)
    | Quad(a: Spaced<Part>, b: Spaced<Part>, c: Spaced<Part>, d: Spaced<Part>)

  /** An address range at a network, white space around the '@', the network's number given or not. */
  datatype Item = Item(addr: Address, before: string, after: string, net: nat, num: Option<Number>)

  // ---------------------------------------------------------------- where white space may stand

  predicate RangeLaid(r: Range) {
    match r
    case One(_) => true
    case Span(_, gap, _) => AllWhite(gap)
    case Strided(_, gap, lead, _, trail, _) => AllWhite(gap) && AllWhite(lead) && AllWhite(trail)
  }

  predicate Around<T>(x: Spaced<T>) { AllWhite(x.lead) && AllWhite(x.trail) }

  predicate SpacedRangeLaid(r: Spaced<Range>) { Around(r) && RangeLaid(r.it) }

  predicate PartLaid(p: Part) {
    p.Listed? ==> SpacedRangeLaid(p.first) && forall i :: 0 <= i < |p.more| ==> SpacedRangeLaid(p.more[i])
  }

  predicate SpacedPartLaid(p: Spaced<Part>) { Around(p) && PartLaid(p.it) }

  predicate AddressLaid(a: Address) {
    match a
    case Star => true
    case Single(p) => PartLaid(p)
    case Quad(p, q, r, s) =>
      SpacedPartLaid(p) && SpacedPartLaid(q) && SpacedPartLaid(r) && SpacedPartLaid(s) && p.lead == "" == s.trail
  }

  predicate ItemLaid(i: Item) { AddressLaid(i.addr) && AllWhite(i.before) && AllWhite(i.after) }

  /** A blank ends an item, so there is none inside one. */
  predicate SpacedItemLaid(i: Spaced<Item>)
    requires i.it.net < |NETS|
  {
    Around(i) && ItemLaid(i.it) && ' ' !in ItemStr(i.it) && ' ' !in i.trail
  }

  predicate Sentence(items: seq<Spaced<Item>>) {
    items != [] && ItemsOk(items) && forall i :: 0 <= i < |items| ==> SpacedItemLaid(items[i])
  }

  // ---------------------------------------------------------------- their text

  function NumberStr(n: Number): (s: string)
    ensures s != ""
  {
    match n.form
    case Decimal => Print(n.value, 10)
    case LowerHex => "0x" + Print(n.value, 16)
    case UpperHex => "0X" + Print(n.value, 16)
  }

  /** White space, a token, more white space and what follows. */
  function Laid(lead: string, tok: string, trail: string, after: string): string { lead + (tok + (trail + after)) }

  function RangeStr(r: Range): (s: string)
    ensures s != ""
  {
    match r
    case One(n) => NumberStr(n)
    case Span(lo, gap, hi) => Laid("", NumberStr(lo), gap, "-" + NumberStr(hi))
    case Strided(lo, gap, lead, hi, trail, stride) =>
      Laid("", NumberStr(lo), gap, "-" + Laid(lead, NumberStr(hi), trail, "/" + NumberStr(stride)))
  }

  function RangesStr(first: Spaced<Range>, more: seq<Spaced<Range>>): (s: string)
    ensures s != ""
    decreases |more|
  {
    Laid(first.lead, RangeStr(first.it), first.trail,
         if more == [] then "" else "," + RangesStr(more[0], more[1..]))
  }

  function PartStr(p: Part): (s: string)
    ensures s != ""
  {
    match p
    case Plain(n) => NumberStr(n)
    case Listed(first, more) => "[" + RangesStr(first, more) + "]"
  }

  function DottedStr(first: Spaced<Part>, more: seq<Spaced<Part>>): (s: string)
    ensures s != ""
    decreases |more|
  {
    Laid(first.lead, PartStr(first.it), first.trail, if more == [] then "" else "." + DottedStr(more[0], more[1..]))
  }

  function AddressStr(a: Address): (s: string)
    ensures s != ""
  {
    match a
    case Star => "*"
    case Single(p) => PartStr(p)
    case Quad(p, q, r, s) => DottedStr(p, [q, r, s])
  }

  function NetStr(i: Item): string
    requires i.net < |NETS|
  {
    NETS[i.net].name + (match i.num case None => "" case Some(n) => NumberStr(n))
  }

  function ItemStr(i: Item): string
    requires i.net < |NETS|
  {
    Laid("", AddressStr(i.addr), i.before, "@" + Laid(i.after, NetStr(i), "", ""))
  }

  predicate ItemsOk(items: seq<Spaced<Item>>) { forall i :: 0 <= i < |items| ==> items[i].it.net < |NETS| }

  function ListStr(items: seq<Spaced<Item>>): string
    requires items != [] && ItemsOk(items)
  {
    Laid(items[0].lead, ItemStr(items[0].it), items[0].trail, if |items| == 1 then "" else " " + ListStr(items[1..]))
  }

  // ---------------------------------------------------------------- their meaning

  predicate InRange(x: int, r: Range) {
    match r
    case One(n) => x == n.value
    case Span(lo, _, hi) => lo.value <= x <= hi.value
    case Strided(lo, _, _, hi, _, stride) =>
      lo.value <= x <= hi.value && (stride.value > 0 ==> (x - lo.value) % stride.value == 0)
  }

  predicate InPart(x: int, p: Part) {
    match p
    case Plain(n) => x == n.value
    case Listed(first, more) => InRange(x, first.it) || exists i :: 0 <= i < |more| && InRange(x, more[i].it)
  }

  predicate InAddress(addr: nat, a: Address) {
    match a
    case Star => true
    case Single(p) => InPart(addr, p)
    case Quad(p, q, r, s) =>
      InPart(addr / 16777216, p.it) && InPart(addr / 65536 % 256, q.it) && InPart(addr / 256 % 256, r.it) &&
        InPart(addr % 256, s.it)
  }

  function NumOf(i: Item): nat { match i.num case None => 0 case Some(n) => n.value }

  predicate Denotes(i: Item, nid: nat)
    requires i.net < |NETS|
  {
    && NETS[i.net].lnd == NetType(NidNet(nid)) && NumOf(i) == NetNum(NidNet(nid))
    && InAddress(NidAddr(nid), i.addr)
  }

  // ---------------------------------------------------------------- which sentences are accepted

  predicate RangeFits(r: Range, max: nat) {
    match r
    case One(n) => n.value <= max
    case Span(lo, _, hi) => lo.value <= max && hi.value <= max
    case Strided(lo, _, _, hi, _, stride) => lo.value <= max && hi.value <= max && stride.value <= max
  }

  predicate PartFits(p: Part, max: nat) {
    match p
    case Plain(n) => n.value <= max
    case Listed(first, more) =>
      RangeFits(first.it, max) && forall i :: 0 <= i < |more| ==> RangeFits(more[i].it, max)
  }

  /** Numbers on numeric networks, dotted quads on the others, '*' on all. */
  predicate AddressFits(a: Address, net: nat)
    requires net < |NETS|
  {
    match a
    case Star => true
    case Single(p) => Numeric(net) && PartFits(p, MAX_NUMERIC_VALUE)
    case Quad(p, q, r, s) =>
      !Numeric(net) && PartFits(p.it, 255) && PartFits(q.it, 255) && PartFits(r.it, 255) && PartFits(s.it, 255)
  }

  predicate ItemFits(i: Item)
    requires i.net < |NETS|
  {
    AddressFits(i.addr, i.net) && NumOf(i) <= MAX_NUMERIC_VALUE
  }

  // ---------------------------------------------------------------- characters

  predicate NumChar(c: char) { IsDigit(c, 16) || c == 'x' || c == 'X' }

  lemma CanonicalChars(s: string, n: nat)
    requires Canonical(s, n)
    ensures forall i :: 0 <= i < |s| ==> NumChar(s[i])
  {
    PrintValue(n, 10);
    PrintValue(n, 16);
    hide Print, Value;
  }

  lemma NumberChars(n: Number)
    ensures forall i :: 0 <= i < |NumberStr(n)| ==> NumChar(NumberStr(n)[i])
  {
    CanonicalChars(NumberStr(n), n.value);
  }

  /** A written number is canonical for its value only. */
  lemma NumberUnique(n: Number, m: nat)
    requires Canonical(NumberStr(n), m)
    ensures n.value == m
  {
    PrintValue(n.value, 10);
    PrintValue(n.value, 16);
    PrintValue(m, 10);
    PrintValue(m, 16);
    var d, h := Print(m, 10), Print(m, 16);
    var e, g := Print(n.value, 10), Print(n.value, 16);
    hide Print, Value;
    XNotDigits(d, "0x" + g);
    XNotDigits(d, "0X" + g);
    XNotDigits(e, "0x" + h);
    XNotDigits(e, "0X" + h);
    assert ("0x" + g)[1] == 'x' && ("0X" + h)[1] == 'X' && ("0X" + g)[1] == 'X' && ("0x" + h)[1] == 'x';
    assert ("0x" + g)[2..] == g && ("0x" + h)[2..] == h && ("0X" + g)[2..] == g && ("0X" + h)[2..] == h;
    if e == d { assert n.form.Decimal? ==> n.value == m by { PrintInjectiveIf(n.value, m, 10); } }
    if g == h { PrintInjectiveIf(n.value, m, 16); }
  }

  lemma PrintInjectiveIf(m: nat, n: nat, base: nat)
    requires IsBase(base) && Print(m, base) == Print(n, base)
    ensures m == n
  {
    PrintInjective(m, n, base);
  }

  lemma XNotDigits(d: string, x: string)
    requires AllDigits(d, 10) && |x| > 1 && (x[1] == 'x' || x[1] == 'X')
    ensures d != x
  {
    assert |d| > 1 ==> IsDigit(d[1], 10);
  }

  // ---------------------------------------------------------------- numbers

  /** Nothing after a number that could be taken for more of it. */
  predicate Ends(rest: string) { rest == "" || !IsDigit(rest[0], 16) }

  lemma RawExact(n: Number, rest: string)
    requires n.value < U32 && Ends(rest)
    ensures RawNum(Lstr(NumberStr(n) + rest, |NumberStr(n)|)) == Some(n.value)
  {
    hide Print, ScanNumber, ScanAfter;
    match n.form
    case Decimal =>
      ScanPrinted(n.value, rest, 10);
    case LowerHex =>
      HexScans("0x", n.value, rest);
    case UpperHex =>
      HexScans("0X", n.value, rest);
  }

  lemma HexScans(lit: string, v: nat, rest: string)
    requires (lit == "0x" || lit == "0X") && v < U32 && Ends(rest)
    ensures var s := lit + Print(v, 16) + rest;
      && ScanAfter(lit, s, 16) == Match(v, 2 + |Print(v, 16)|)
      && ScanNumber(s, 10) == Match(0, 1)
      && (lit == "0X" ==> ScanAfter("0x", s, 16) == NoMatch)
  {
    var p := Print(v, 16);
    hide Print, ScanNumber;
    Assoc(lit, p, rest);
    ScanPrinted(v, rest, 16);
    LitAfter(lit, p + rest);
    ZeroScan(lit + p + rest);
  }

  lemma LitAfter(lit: string, t: string)
    requires lit == "0x" || lit == "0X"
    ensures lit <= lit + t && (lit + t)[2..] == t && (lit + t)[0] == '0' && (lit + t)[1] == lit[1]
    ensures lit == "0X" ==> !("0x" <= lit + t)
  {
  }

  lemma ZeroScan(s: string)
    requires |s| > 1 && s[0] == '0' && (s[1] == 'x' || s[1] == 'X')
    ensures ScanNumber(s, 10) == Match(0, 1)
  {
    assert RunLength(s, 10) == 1 by { assert s[1..][0] == s[1]; assert RunLength(s[1..], 10) == 0; }
    PlainScan(s, 10);
    hide ScanNumber;
    assert s[..1][..0] == "";
    assert Value(s[..1], 10) == 0;
  }

  /** A number in place is read exactly when it is in range. */
  lemma NumberReads(n: Number, rest: string, max: nat)
    requires Ends(rest) && max < U32
    ensures CheckNum(Lstr(NumberStr(n) + rest, |NumberStr(n)|), 0, max) == if n.value <= max then Some(n.value)
      else None
  {
    var l := Lstr(NumberStr(n) + rest, |NumberStr(n)|);
    assert TextOf(l) == NumberStr(n);
    var r := CheckNum(l, 0, max);
    if n.value <= max {
      RawExact(n, rest);
      hide RawNum, NumberStr;
      assert Canonical(NumberStr(n), n.value) by { NumberCanonical(n); }
    } else if r.Some? {
      NumberUnique(n, r.value);
    }
  }

  /** Written in hexadecimal. */
  predicate Hexed(s: string) { |s| > 1 && (s[1] == 'x' || s[1] == 'X') }

  /** A text is accepted exactly as the canonical text of a value in range that more digits do not follow. */
  lemma CheckExact(l: Lstr, min: nat, max: nat, v: nat)
    requires Fits(l)
    ensures CheckNum(l, min, max) == Some(v) <==>
      && Canonical(TextOf(l), v) && min <= v <= max && v < U32
      && Stops(l.tail[l.len..], if Hexed(TextOf(l)) then 16 else 10)
  {
    var t, rest := TextOf(l), l.tail[l.len..];
    assert l.tail == t + rest;
    if Canonical(t, v) && v < U32 {
      if t == Print(v, 10) {
        PrintValue(v, 10);
        hide Print, Value, RawNum;
        DecimalRaw(l, v);
      } else {
        var lit := if t == "0x" + Print(v, 16) then "0x" else "0X";
        assert t == lit + Print(v, 16);
        hide Print, Value, RawNum;
        HexRaw(l, lit, v);
      }
    }
  }

  lemma DecimalRaw(l: Lstr, v: nat)
    requires Fits(l) && TextOf(l) == Print(v, 10) && v < U32
    ensures !Hexed(TextOf(l)) && RawNum(l) == if Stops(l.tail[l.len..], 10) then Some(v) else None
  {
    PrintValue(v, 10);
    var t, rest := TextOf(l), l.tail[l.len..];
    hide Print, Value, ScanNumber, RunLength, ScanAfter;
    assert l.tail == t + rest && AllDigits(t, 10) && |t| == l.len;
    assert !Hexed(t) by { DigitsNotHexed(t); }
    if Stops(rest, 10) {
      ScanPrinted(v, rest, 10);
    } else {
      PastDecimal(t, rest);
    }
  }

  lemma DigitsNotHexed(t: string)
    requires AllDigits(t, 10)
    ensures !Hexed(t)
  {
    if |t| > 1 { assert IsDigit(t[1], 10); }
  }

  lemma PastDecimal(t: string, rest: string)
    requires AllDigits(t, 10) && t != "" && !Stops(rest, 10)
    ensures ScanNumber(t + rest, 10).Match? && ScanNumber(t + rest, 10).used > |t|
    ensures ScanAfter("0x", t + rest, 16) == NoMatch && ScanAfter("0X", t + rest, 16) == NoMatch
  {
    var u := t + rest;
    assert forall i :: 0 <= i <= |t| ==> IsDigit(u[i], 10);
    hide ScanNumber, Value, ScanAfter, RunLength;
    RunPast(u, |t| + 1, 10);
    PlainScan(u, 10);
    NoPrefix(u);
  }

  lemma NoPrefix(s: string)
    requires |s| > 1 && IsDigit(s[1], 10)
    ensures ScanAfter("0x", s, 16) == NoMatch && ScanAfter("0X", s, 16) == NoMatch
  {
    assert s[1] != 'x' && s[1] != 'X';
    assert !("0x" <= s) && !("0X" <= s);
    hide ScanNumber;
  }

  lemma RunPast(s: string, k: nat, base: nat)
    requires k <= |s| && forall i :: 0 <= i < k ==> IsDigit(s[i], base)
    ensures RunLength(s, base) >= k
  {
    hide RunLength;
  }

  lemma HexRaw(l: Lstr, lit: string, v: nat)
    requires Fits(l) && (lit == "0x" || lit == "0X") && TextOf(l) == lit + Print(v, 16) && v < U32
    ensures Hexed(TextOf(l)) && RawNum(l) == if Stops(l.tail[l.len..], 16) then Some(v) else None
  {
    PrintValue(v, 16);
    var p, rest := Print(v, 16), l.tail[l.len..];
    hide Print, Value, ScanNumber, ScanAfter;
    assert l.tail == lit + p + rest;
    HexIs(lit, p);
    if Stops(rest, 16) {
      HexScans(lit, v, rest);
    } else {
      HexRuns(lit, p, rest);
    }
  }

  lemma HexIs(lit: string, p: string)
    requires (lit == "0x" || lit == "0X") && p != ""
    ensures Hexed(lit + p) && |lit + p| == 2 + |p| > 2
  {
  }

  /** With more digits after it, no scan ends where the token does. */
  lemma HexRuns(lit: string, p: string, rest: string)
    requires (lit == "0x" || lit == "0X") && AllDigits(p, 16) && !Stops(rest, 16)
    ensures var s := lit + p + rest; var n := 2 + |p|;
      && ScanNumber(s, 10) == Match(0, 1)
      && (ScanAfter("0x", s, 16).Match? ==> ScanAfter("0x", s, 16).used > n)
      && (ScanAfter("0X", s, 16).Match? ==> ScanAfter("0X", s, 16).used > n)
  {
    hide ScanNumber;
    Assoc(lit, p, rest);
    LitAfter(lit, p + rest);
    ZeroScan(lit + p + rest);
    PastHex(p, rest);
  }

  lemma PastHex(p: string, rest: string)
    requires AllDigits(p, 16) && !Stops(rest, 16)
    ensures ScanNumber(p + rest, 16).Match? && ScanNumber(p + rest, 16).used > |p|
  {
    var u := p + rest;
    assert forall i :: 0 <= i <= |p| ==> IsDigit(u[i], 16);
    RunPast(u, |p| + 1, 16);
    PlainScan(u, 16);
    hide ScanNumber, Value;
  }

  lemma NumberCanonical(n: Number)
    ensures Canonical(NumberStr(n), n.value)
  {
  }

  /** Text with a character no number has is no number. */
  lemma NotNumber(l: Lstr, min: nat, max: nat, i: nat)
    requires Fits(l) && i < l.len && !NumChar(l.tail[i])
    ensures CheckNum(l, min, max) == None
  {
    var r := CheckNum(l, min, max);
    assert TextOf(l)[i] == l.tail[i];
    if r.Some? {
      CanonicalChars(TextOf(l), r.value);
    }
  }
}
