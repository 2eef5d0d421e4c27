/** The parser on sentences of the grammar: it accepts those that fit and compiles their meaning. */
module NidParsing {
  import opened Prelude
  import opened NumText
  import opened NidString
  import opened NidList
  import opened NidGrammar

  // ---------------------------------------------------------------- tokens

  /** Text that neither begins nor ends with white space. */
  predicate Trim(s: string) { s != "" && !IsWhite(s[0]) && !IsWhite(s[|s| - 1]) }

  /** A cursor on a piece of text. */
  function At(s: string, rest: string): (l: Lstr)
    ensures Fits(l)
  {
    Lstr(s + rest, |s|)
  }

  lemma AtText(s: string, rest: string)
    ensures TextOf(At(s, rest)) == s && At(s, rest).tail[|s|..] == rest
  {
  }

  lemma {:induction false} FindCharExact(a: string, c: char, b: string)
    requires c !in a && (b == "" || b[0] == c)
    ensures FindChar(a + b, c) == |a|
  {
    if a == "" {
      assert a + b == b;
    } else {
      assert (a + b)[1..] == a[1..] + b;
      FindCharExact(a[1..], c, b);
    }
  }

  lemma {:induction false} LeadingExact(w: string, b: string)
    requires AllWhite(w) && b != "" && !IsWhite(b[0])
    ensures LeadingWhite(w + b) == |w|
  {
    if w == "" {
      assert w + b == b;
    } else {
      assert (w + b)[1..] == w[1..] + b;
      LeadingExact(w[1..], b);
    }
  }

  lemma {:induction false} TrimmedExact(a: string, w: string)
    requires a != "" && !IsWhite(a[|a| - 1]) && AllWhite(w)
    ensures TrimmedLength(a + w) == |a|
    decreases |w|
  {
    if w == "" {
      assert a + w == a;
    } else {
      var t := a + w;
      assert t[..|t| - 1] == a + w[..|w| - 1];
      TrimmedExact(a, w[..|w| - 1]);
    }
  }

  /** A token in front of a delimiter or the end. */
  lemma TokAt(lead: string, a: string, trail: string, after: string, delim: char, rest: string)
    requires AllWhite(lead) && Trim(a) && AllWhite(trail) && delim !in a && delim !in trail
    requires after == "" || after[0] == delim
    ensures GetTok(At(Laid(lead, a, trail, after), rest), delim) ==
      Tok(At(a, trail + (after + rest)), if after == "" then None else Some(At(after[1..], rest)))
  {
    hide LeadingWhite, FindChar, TrimmedLength;
    var t := Laid(lead, a, trail, after);
    var l := At(t, rest);
    AtText(t, rest);
    LeadingExact(lead, a + (trail + after));
    TokTail(lead, a, trail, after, rest);
    assert a[0] in a;
    FindCharExact(a + trail, delim, after);
    TrimmedExact(a, trail);
  }

  /** The pieces of the text and of what can be seen past it. */
  lemma TokTail(lead: string, a: string, trail: string, after: string, rest: string)
    requires a != ""
    ensures var t := Laid(lead, a, trail, after); var tail := t + rest;
      && t[|lead|] == a[0] && t[|lead|..] == (a + trail) + after && t[|lead|..][..|a + trail|] == a + trail
      && tail[|lead|..] == a + (trail + (after + rest))
      && (after != "" ==> tail[|lead| + |a + trail| + 1..] == after[1..] + rest)
      && |t| == |lead| + |a + trail| + |after|
  {
    var t := Laid(lead, a, trail, after);
    var tail := t + rest;
    Assoc(a, trail, after);
    DropFront(lead, a + (trail + after));
    Assoc(lead, a + (trail + after), rest);
    Assoc(a, trail + after, rest);
    Assoc(trail, after, rest);
    DropFront(lead, a + (trail + (after + rest)));
    if after != "" { AfterTail(lead + (a + trail), after, rest, tail) by { LaidParts(lead, a, trail, after, rest); } }
  }

  lemma LaidParts(lead: string, a: string, trail: string, after: string, rest: string)
    ensures Laid(lead, a, trail, after) + rest == (lead + (a + trail)) + (after + rest)
  {
  }

  lemma AfterTail(front: string, after: string, rest: string, tail: string)
    requires after != "" && tail == front + (after + rest)
    ensures tail[|front| + 1..] == after[1..] + rest
  {
  }

  lemma EndsAfter(trail: string, after: string, rest: string)
    requires AllWhite(trail) && (if after == "" then Ends(rest) else !IsDigit(after[0], 16))
    ensures Ends(trail + (after + rest))
  {
    if trail != "" {
      assert IsWhite(trail[0]) && (trail + (after + rest))[0] == trail[0];
    } else {
      assert trail + (after + rest) == after + rest;
      if after == "" { assert after + rest == rest; }
    }
  }

  lemma WhiteNot(w: string, c: char)
    requires AllWhite(w) && !IsWhite(c)
    ensures c !in w
  {
  }

  /** The characters of grammar text: those of numbers, delimiters named, and white space. */
  predicate Made(s: string, extra: string) {
    forall i :: 0 <= i < |s| ==> NumChar(s[i]) || s[i] in extra || IsWhite(s[i])
  }

  lemma MadeNot(s: string, extra: string, c: char)
    requires Made(s, extra) && c !in extra && !NumChar(c) && !IsWhite(c)
    ensures c !in s
  {
  }

  lemma LaidMade(lead: string, a: string, trail: string, after: string, extra: string)
    requires AllWhite(lead) && Made(a, extra) && AllWhite(trail) && Made(after, extra)
    ensures Made(Laid(lead, a, trail, after), extra)
  {
    hide IsWhite, NumChar;
  }

  lemma NumberMade(n: Number, extra: string)
    ensures Made(NumberStr(n), extra) && Trim(NumberStr(n))
    ensures forall c :: !NumChar(c) ==> c !in NumberStr(n)
  {
    NumberChars(n);
  }

  /** What begins and ends solidly does so with anything between. */
  lemma LaidTrim(a: string, trail: string, after: string)
    requires Trim(a) && after != "" && !IsWhite(after[|after| - 1])
    ensures Trim(Laid("", a, trail, after))
  {
    var t := Laid("", a, trail, after);
    assert t[0] == a[0] && t[|t| - 1] == after[|after| - 1];
  }

  // ---------------------------------------------------------------- ranges

  function RangeMeaning(r: Range): RangeExpr {
    match r
    case One(n) => RangeExpr(n.value, n.value, 1)
    case Span(lo, _, hi) => RangeExpr(lo.value, hi.value, 1)
    case Strided(lo, _, _, hi, _, stride) => RangeExpr(lo.value, hi.value, stride.value)
  }

  /** A token that is the whole text. */
  lemma TokWhole(a: string, delim: char, rest: string)
    requires Trim(a) && delim !in a
    ensures GetTok(At(a, rest), delim) == Tok(At(a, rest), None)
  {
    TokAt("", a, "", "", delim, rest);
    assert Laid("", a, "", "") == a && "" + ("" + rest) == rest;
  }

  lemma UpperSpan(lo: nat, hi: Number, rest: string, max: nat)
    requires Ends(rest) && max < U32
    ensures ParseUpper(lo, At(NumberStr(hi), rest), 0, max) ==
      if hi.value <= max then Some(RangeExpr(lo, hi.value, 1)) else None
  {
    hide CheckNum, GetTok, NumberStr;
    NumberReads(hi, rest, max);
    NumberMade(hi, "");
    TokWhole(NumberStr(hi), '/', rest);
  }

  /** Text with a delimiter in it is no number. */
  lemma LaidNotNumber(lead: string, a: string, trail: string, after: string, rest: string, max: nat)
    requires after != "" && !NumChar(after[0])
    ensures CheckNum(At(Laid(lead, a, trail, after), rest), 0, max) == None
  {
    var t := Laid(lead, a, trail, after);
    var k := |lead| + |a| + |trail|;
    assert (t + rest)[k] == t[k] == after[0];
    NotNumber(At(t, rest), 0, max, k);
  }

  lemma UpperStrided(lo: nat, lead: string, hi: Number, trail: string, stride: Number, rest: string, max: nat)
    requires AllWhite(lead) && AllWhite(trail) && Ends(rest) && max < U32
    ensures ParseUpper(lo, At(Laid(lead, NumberStr(hi), trail, "/" + NumberStr(stride)), rest), 0, max) ==
      if hi.value <= max && stride.value <= max then Some(RangeExpr(lo, hi.value, stride.value)) else None
  {
    hide CheckNum, GetTok, NumberStr, Laid;
    var a, b := NumberStr(hi), NumberStr(stride);
    NumberMade(hi, "");
    WhiteNot(trail, '/');
    assert ("/" + b)[1..] == b;
    TokAt(lead, a, trail, "/" + b, '/', rest);
    LaidNotNumber(lead, a, trail, "/" + b, rest, max);
    EndsAfter(trail, "/" + b, rest);
    NumberReads(hi, trail + (("/" + b) + rest), max);
    NumberReads(stride, rest, max);
  }

  lemma RangeSplit(lo: Number, gap: string, b: string, rest: string, max: nat)
    requires AllWhite(gap) && max < U32
    ensures ParseRangeExpr(At(Laid("", NumberStr(lo), gap, "-" + b), rest), 0, max) ==
      if lo.value <= max then ParseUpper(lo.value, At(b, rest), 0, max) else None
  {
    hide CheckNum, GetTok, NumberStr, ParseUpper, Laid;
    var a := NumberStr(lo);
    NumberMade(lo, "");
    WhiteNot(gap, '-');
    assert ("-" + b)[1..] == b;
    TokAt("", a, gap, "-" + b, '-', rest);
    LaidNotNumber("", a, gap, "-" + b, rest, max);
    EndsAfter(gap, "-" + b, rest);
    NumberReads(lo, gap + (("-" + b) + rest), max);
  }

  lemma RangeReads(r: Range, rest: string, max: nat)
    requires RangeLaid(r) && Ends(rest) && max < U32
    ensures ParseRangeExpr(At(RangeStr(r), rest), 0, max) == if RangeFits(r, max) then Some(RangeMeaning(r)) else None
  {
    hide CheckNum, GetTok, NumberStr, ParseUpper, Laid;
    match r
    case One(n) =>
      NumberReads(n, rest, max);
      NumberMade(n, "");
      TokWhole(NumberStr(n), '-', rest);
    case Span(lo, gap, hi) =>
      RangeSplit(lo, gap, NumberStr(hi), rest, max);
      UpperSpan(lo.value, hi, rest, max);
    case Strided(lo, gap, lead, hi, trail, stride) =>
      RangeSplit(lo, gap, Laid(lead, NumberStr(hi), trail, "/" + NumberStr(stride)), rest, max);
      UpperStrided(lo.value, lead, hi, trail, stride, rest, max);
  }

  lemma RangeMade(r: Range)
    requires RangeLaid(r)
    ensures Made(RangeStr(r), "-/") && Trim(RangeStr(r))
  {
    hide NumberStr, Laid;
    match r
    case One(n) => NumberMade(n, "-/");
    case Span(lo, gap, hi) =>
      NumberMade(lo, "-/");
      NumberMade(hi, "-/");
      LaidMade("", NumberStr(lo), gap, "-" + NumberStr(hi), "-/");
      LaidTrim(NumberStr(lo), gap, "-" + NumberStr(hi));
    case Strided(lo, gap, lead, hi, trail, stride) =>
      NumberMade(lo, "-/");
      NumberMade(hi, "-/");
      NumberMade(stride, "-/");
      var b := "/" + NumberStr(stride);
      LaidMade(lead, NumberStr(hi), trail, b, "-/");
      LaidEnd(lead, NumberStr(hi), trail, b);
      LaidMade("", NumberStr(lo), gap, "-" + Laid(lead, NumberStr(hi), trail, b), "-/");
      LaidTrim(NumberStr(lo), gap, "-" + Laid(lead, NumberStr(hi), trail, b));
  }

  lemma LaidEnd(lead: string, a: string, trail: string, after: string)
    requires after != ""
    ensures var t := Laid(lead, a, trail, after); t != "" && t[|t| - 1] == after[|after| - 1]
  {
  }

  /** The rest of a list after its first token. */
  function RangesRest(more: seq<Spaced<Range>>): string {
    if more == [] then "" else "," + RangesStr(more[0], more[1..])
  }

  lemma {:induction false} RangesMade(first: Spaced<Range>, more: seq<Spaced<Range>>)
    requires SpacedRangeLaid(first) && forall i :: 0 <= i < |more| ==> SpacedRangeLaid(more[i])
    ensures Made(RangesStr(first, more), "-/,")
    decreases |more|
  {
    RangeMade(first.it);
    hide RangeStr, Laid, RangeLaid;
    if more == [] {
    } else {
      RangesMade(more[0], more[1..]);
    }
    LaidMade(first.lead, RangeStr(first.it), first.trail, RangesRest(more), "-/,");
  }

  function RangesMeaning(first: Spaced<Range>, more: seq<Spaced<Range>>): NumAddr
    decreases |more|
  {
    [RangeMeaning(first.it)] + if more == [] then [] else RangesMeaning(more[0], more[1..])
  }

  predicate RangesFit(first: Spaced<Range>, more: seq<Spaced<Range>>, max: nat)
    decreases |more|
  {
    RangeFits(first.it, max) && (more == [] || RangesFit(more[0], more[1..], max))
  }

  lemma {:induction false} RangesRead(first: Spaced<Range>, more: seq<Spaced<Range>>, rest: string, max: nat)
    requires SpacedRangeLaid(first) && forall i :: 0 <= i < |more| ==> SpacedRangeLaid(more[i])
    requires Ends(rest) && max < U32
    ensures ParseExprs(Some(At(RangesStr(first, more), rest)), 0, max) ==
      if RangesFit(first, more, max) then Some(RangesMeaning(first, more)) else None
    decreases |more|
  {
    hide GetTok, ParseRangeExpr, RangeStr, Laid, RangeLaid;
    var a, after := RangeStr(first.it), RangesRest(more);
    RangeMade(first.it);
    MadeNot(a, "-/", ',');
    WhiteNot(first.trail, ',');
    TokAt(first.lead, a, first.trail, after, ',', rest);
    EndsAfter(first.trail, after, rest);
    RangeReads(first.it, first.trail + (after + rest), max);
    if more == [] {
    } else {
      assert after[1..] == RangesStr(more[0], more[1..]);
      RangesRead(more[0], more[1..], rest, max);
    }
  }

  lemma {:induction false} RangesFitAll(first: Spaced<Range>, more: seq<Spaced<Range>>, max: nat)
    ensures RangesFit(first, more, max) <==>
      RangeFits(first.it, max) && forall i :: 0 <= i < |more| ==> RangeFits(more[i].it, max)
    decreases |more|
  {
    hide RangeFits;
    if more == [] {
    } else {
      RangesFitAll(more[0], more[1..], max);
      if RangeFits(more[0].it, max) && forall i :: 0 <= i < |more[1..]| ==> RangeFits(more[1..][i].it, max) {
        forall i | 0 <= i < |more| ensures RangeFits(more[i].it, max) {
          if i > 0 { assert more[i] == more[1..][i - 1]; }
        }
      }
      if forall i :: 0 <= i < |more| ==> RangeFits(more[i].it, max) {
        assert RangeFits(more[0].it, max);
      }
    }
  }

  // ---------------------------------------------------------------- parts

  function PartMeaning(p: Part): NumAddr {
    match p
    case Plain(n) => [RangeExpr(n.value, n.value, 1)]
    case Listed(first, more) => RangesMeaning(first, more)
  }

  lemma PartReads(p: Part, rest: string, max: nat)
    requires PartLaid(p) && Ends(rest) && max < U32
    ensures NumParse(At(PartStr(p), rest), 0, max) == if PartFits(p, max) then Some(PartMeaning(p)) else None
  {
    hide CheckNum, ParseExprs, NumberStr, RangesStr;
    match p
    case Plain(n) =>
      NumberReads(n, rest, max);
      NumberMade(n, "");
      assert At(NumberStr(n), rest).tail[0] == NumberStr(n)[0] != '[';
    case Listed(first, more) =>
      var inner := RangesStr(first, more);
      var l := At("[" + inner + "]", rest);
      NotNumber(l, 0, max, 0);
      assert l.tail[l.len - 1] == ']';
      assert l.tail[1..] == inner + ("]" + rest);
      RangesRead(first, more, "]" + rest, max);
      RangesFitAll(first, more, max);
  }

  lemma PartMade(p: Part)
    requires PartLaid(p)
    ensures Made(PartStr(p), "-/,[]") && Trim(PartStr(p))
  {
    hide NumberStr, RangesStr;
    match p
    case Plain(n) => NumberMade(n, "-/,[]");
    case Listed(first, more) => RangesMade(first, more);
  }

  // ---------------------------------------------------------------- addresses

  function AddressMeaning(a: Address): AddrRange {
    match a
    case Star => []
    case Single(p) => [PartMeaning(p)]
    case Quad(p, q, r, s) => [PartMeaning(p.it), PartMeaning(q.it), PartMeaning(r.it), PartMeaning(s.it)]
  }

  predicate PartsFit(first: Spaced<Part>, more: seq<Spaced<Part>>)
    decreases |more|
  {
    PartFits(first.it, 255) && (more == [] || PartsFit(more[0], more[1..]))
  }

  function PartsMeaning(first: Spaced<Part>, more: seq<Spaced<Part>>): AddrRange
    decreases |more|
  {
    [PartMeaning(first.it)] + if more == [] then [] else PartsMeaning(more[0], more[1..])
  }

  function DottedRest(more: seq<Spaced<Part>>): string {
    if more == [] then "" else "." + DottedStr(more[0], more[1..])
  }

  lemma {:induction false} DottedReads(first: Spaced<Part>, more: seq<Spaced<Part>>, rest: string)
    requires SpacedPartLaid(first) && forall i :: 0 <= i < |more| ==> SpacedPartLaid(more[i])
    requires Ends(rest)
    ensures IpParts(Some(At(DottedStr(first, more), rest))) ==
      if PartsFit(first, more) then Some(PartsMeaning(first, more)) else None
    decreases |more|
  {
    hide GetTok, NumParse, PartStr, PartFits, PartMeaning, Laid, PartLaid;
    var a, after := PartStr(first.it), DottedRest(more);
    PartMade(first.it);
    MadeNot(a, "-/,[]", '.');
    WhiteNot(first.trail, '.');
    TokAt(first.lead, a, first.trail, after, '.', rest);
    EndsAfter(first.trail, after, rest);
    PartReads(first.it, first.trail + (after + rest), 255);
    if more == [] {
    } else {
      assert after[1..] == DottedStr(more[0], more[1..]);
      DottedReads(more[0], more[1..], rest);
    }
  }

  lemma QuadIsDotted(p: Spaced<Part>, q: Spaced<Part>, r: Spaced<Part>, s: Spaced<Part>)
    ensures PartsFit(p, [q, r, s]) <==>
      PartFits(p.it, 255) && PartFits(q.it, 255) && PartFits(r.it, 255) && PartFits(s.it, 255)
    ensures PartsMeaning(p, [q, r, s]) == AddressMeaning(Quad(p, q, r, s))
  {
    hide PartFits, PartMeaning;
    assert [q, r, s][1..] == [r, s] && [r, s][1..] == [s] && [s][1..] == [];
    assert PartsFit(r, [s]) <==> PartFits(r.it, 255) && PartsFit(s, []);
    assert PartsFit(q, [r, s]) <==> PartFits(q.it, 255) && PartsFit(r, [s]);
    assert PartsMeaning(s, []) == [PartMeaning(s.it)];
    assert PartsMeaning(r, [s]) == [PartMeaning(r.it)] + PartsMeaning(s, []);
    assert PartsMeaning(q, [r, s]) == [PartMeaning(q.it)] + PartsMeaning(r, [s]);
  }

  // What the range parser accepts never holds a dot, so no dotted quad is read as a number.

  lemma TokCovers(l: Lstr, delim: char, i: nat)
    requires Fits(l) && i < l.len && GetTok(l, delim).Tok? && !IsWhite(l.tail[i]) && l.tail[i] != delim
    ensures var t := GetTok(l, delim); l.tail[i] in TextOf(t.res) || (t.next.Some? && l.tail[i] in TextOf(t.next.value))
  {
    var t := TextOf(l);
    var k := LeadingWhite(t);
    var e := FindChar(t[k..], delim);
    var r := GetTok(l, delim);
    assert t[i] == l.tail[i];
    if i < k + e {
      assert t[k..][..e][i - k] == l.tail[i];
      assert TextOf(r.res)[i - k] == l.tail[i];
    } else {
      assert TextOf(r.next.value)[i - k - e - 1] == l.tail[i];
    }
  }

  predicate Odd(c: char) { !NumChar(c) && !IsWhite(c) && c != '-' && c != '/' && c != ',' }

  lemma OddNotNumber(l: Lstr, min: nat, max: nat, c: char)
    requires Fits(l) && c in TextOf(l) && Odd(c)
    ensures CheckNum(l, min, max) == None
  {
    var i :| 0 <= i < |TextOf(l)| && TextOf(l)[i] == c;
    NotNumber(l, min, max, i);
  }

  lemma OddUpper(lo: nat, l: Lstr, min: nat, max: nat, c: char)
    requires Fits(l) && c in TextOf(l) && Odd(c)
    ensures ParseUpper(lo, l, min, max) == None
  {
    hide CheckNum, GetTok;
    OddNotNumber(l, min, max, c);
    var t := GetTok(l, '/');
    if t.Tok? {
      var i :| 0 <= i < |TextOf(l)| && TextOf(l)[i] == c;
      TokCovers(l, '/', i);
      if c in TextOf(t.res) { OddNotNumber(t.res, min, max, c); } else { OddNotNumber(t.next.value, min, max, c); }
    }
  }

  lemma OddRange(l: Lstr, min: nat, max: nat, c: char)
    requires Fits(l) && c in TextOf(l) && Odd(c)
    ensures ParseRangeExpr(l, min, max) == None
  {
    hide CheckNum, GetTok, ParseUpper;
    OddNotNumber(l, min, max, c);
    var t := GetTok(l, '-');
    if t.Tok? {
      var i :| 0 <= i < |TextOf(l)| && TextOf(l)[i] == c;
      TokCovers(l, '-', i);
      if c in TextOf(t.res) {
        OddNotNumber(t.res, min, max, c);
      } else if CheckNum(t.res, min, max).Some? {
        OddUpper(CheckNum(t.res, min, max).value, t.next.value, min, max, c);
      }
    }
  }

  lemma {:induction false} OddExprs(l: Lstr, min: nat, max: nat, c: char)
    requires Fits(l) && c in TextOf(l) && Odd(c)
    ensures ParseExprs(Some(l), min, max) == None
    decreases l.len
  {
    hide GetTok, ParseRangeExpr;
    var t := GetTok(l, ',');
    if t.Tok? {
      var i :| 0 <= i < |TextOf(l)| && TextOf(l)[i] == c;
      TokCovers(l, ',', i);
      if c in TextOf(t.res) { OddRange(t.res, min, max, c); } else { OddExprs(t.next.value, min, max, c); }
    }
  }

  /** Text with a dot is no number range. */
  lemma DottedNotNumber(t: string, rest: string, max: nat)
    requires '.' in t && max < U32
    ensures NumParse(At(t, rest), 0, max) == None
  {
    hide CheckNum, ParseExprs;
    var l := At(t, rest);
    var i :| 0 <= i < |t| && t[i] == '.';
    assert l.tail[i] == '.';
    NotNumber(l, 0, max, i);
    if l.len >= 2 && l.tail[0] == '[' && l.tail[l.len - 1] == ']' {
      var inner := Lstr(l.tail[1..], l.len - 2);
      assert TextOf(inner)[i - 1] == '.';
      OddExprs(inner, 0, max, '.');
    }
  }

  lemma DotInside(lead: string, a: string, trail: string, after: string)
    requires after != "" && after[0] == '.'
    ensures '.' in Laid(lead, a, trail, after)
  {
    assert Laid(lead, a, trail, after)[|lead| + |a| + |trail|] == '.';
  }

  lemma AddressReads(a: Address, net: nat, rest: string)
    requires net < |NETS| && AddressLaid(a) && Ends(rest) && a != Star
    ensures ParseAddrs(net, At(AddressStr(a), rest)) == if AddressFits(a, net) then Some(AddressMeaning(a)) else None
  {
    hide NumParse, IpParts, PartStr, PartFits, PartMeaning, Laid, PartLaid;
    match a
    case Single(p) =>
      if Numeric(net) {
        PartReads(p, rest, MAX_NUMERIC_VALUE);
      } else {
        var x := Spaced("", p, "");
        assert DottedStr(x, []) == PartStr(p) by { LaidPlain(PartStr(p)); }
        DottedReads(x, [], rest);
        assert PartsFit(x, []) ==> |PartsMeaning(x, [])| == 1;
      }
    case Quad(p, q, r, s) =>
      QuadIsDotted(p, q, r, s);
      if Numeric(net) {
        DotInside(p.lead, PartStr(p.it), p.trail, DottedRest([q, r, s]));
        DottedNotNumber(DottedStr(p, [q, r, s]), rest, MAX_NUMERIC_VALUE);
      } else {
        DottedReads(p, [q, r, s], rest);
      }
  }

  lemma LaidPlain(a: string)
    ensures Laid("", a, "", "") == a
  {
  }

  lemma {:induction false} DottedMade(first: Spaced<Part>, more: seq<Spaced<Part>>)
    requires SpacedPartLaid(first) && forall i :: 0 <= i < |more| ==> SpacedPartLaid(more[i])
    ensures Made(DottedStr(first, more), "-/,[].*")
    decreases |more|
  {
    PartMade(first.it);
    hide PartStr, Laid, PartLaid;
    if more == [] {
    } else {
      DottedMade(more[0], more[1..]);
    }
    LaidMade(first.lead, PartStr(first.it), first.trail, DottedRest(more), "-/,[].*");
  }

  lemma QuadTrim(p: Spaced<Part>, q: Spaced<Part>, r: Spaced<Part>, s: Spaced<Part>)
    requires AddressLaid(Quad(p, q, r, s))
    ensures Trim(DottedStr(p, [q, r, s]))
  {
    hide PartStr, Laid, PartLaid;
    PartMade(p.it);
    PartMade(s.it);
    assert [q, r, s][1..] == [r, s] && [r, s][1..] == [s] && [s][1..] == [];
    var d, c, b := DottedStr(s, []), DottedStr(r, [s]), DottedStr(q, [r, s]);
    assert !IsWhite(d[|d| - 1]) by { LaidLast(s.lead, PartStr(s.it)); }
    LaidEnd(r.lead, PartStr(r.it), r.trail, "." + d);
    LaidEnd(q.lead, PartStr(q.it), q.trail, "." + c);
    LaidTrim(PartStr(p.it), p.trail, "." + b);
  }

  lemma LaidLast(lead: string, a: string)
    requires a != ""
    ensures var t := Laid(lead, a, "", ""); t != "" && t[|t| - 1] == a[|a| - 1]
  {
  }

  lemma AddressMade(a: Address)
    requires AddressLaid(a)
    ensures Made(AddressStr(a), "-/,[].*") && Trim(AddressStr(a))
    ensures AddressStr(a) == "*" <==> a == Star
  {
    hide PartStr, DottedStr, PartLaid;
    match a
    case Star =>
    case Single(p) =>
      PartMade(p);
      MadeNot(PartStr(p), "-/,[]", '*');
      assert '*' in "*";
    case Quad(p, q, r, s) =>
      DottedMade(p, [q, r, s]);
      QuadTrim(p, q, r, s);
      assert AddressStr(a) != "*" by { QuadNotStar(p, q, r, s); }
  }

  lemma QuadNotStar(p: Spaced<Part>, q: Spaced<Part>, r: Spaced<Part>, s: Spaced<Part>)
    ensures DottedStr(p, [q, r, s]) != "*"
  {
    hide PartStr, Laid;
    DotInside(p.lead, PartStr(p.it), p.trail, DottedRest([q, r, s]));
  }

  // ---------------------------------------------------------------- networks

  lemma NetReads(i: Item, rest: string)
    requires i.net < |NETS| && Ends(rest)
    ensures ParseNet(At(NetStr(i), rest)) == if NumOf(i) <= MAX_NUMERIC_VALUE then Some((i.net, NumOf(i))) else None
  {
    hide CheckNum, NumberStr, ByPrefix;
    TableFacts(i.net);
    var name := NETS[i.net].name;
    match i.num
    case None =>
      assert name + "" == name;
      ByPrefixExact(i.net, rest);
    case Some(n) =>
      var d := NumberStr(n);
      Assoc(name, d, rest);
      ByPrefixExact(i.net, d + rest);
      assert (name + (d + rest))[|name|..] == d + rest;
      NumberReads(n, rest, MAX_NUMERIC_VALUE);
      if n.value <= MAX_NUMERIC_VALUE { NumberShort(n); }
  }

  lemma NumberShort(n: Number)
    requires n.value < U32
    ensures |NumberStr(n)| <= 10
  {
    Decimal32(n.value);
    Hex32(n.value);
  }

  lemma NetMade(i: Item)
    requires i.net < |NETS|
    ensures Trim(NetStr(i)) && '@' !in NetStr(i)
  {
    NetNameSolid(i.net);
    hide NumberStr;
    if i.num.Some? { NumberMade(i.num.value, ""); }
  }

  lemma NetNameSolid(k: nat)
    requires k < |NETS|
    ensures Trim(NETS[k].name) && '@' !in NETS[k].name
  {
  }

  // ---------------------------------------------------------------- items and lists

  /** What one item adds to the compiled list: the entry of its network grows. */
  function Merge(list: seq<NidRange>, i: Item): seq<NidRange> {
    var grown := AddRange(list, i.net, NumOf(i));
    var k := FindRange(list, i.net, NumOf(i), 0);
    if i.addr == Star then grown[k := grown[k].(all := true)]
    else grown[k := grown[k].(addrs := grown[k].addrs + [AddressMeaning(i.addr)])]
  }

  lemma ItemReads(i: Item, rest: string, list: seq<NidRange>)
    requires i.net < |NETS| && ItemLaid(i) && Ends(rest)
    ensures ParseNidRange(At(ItemStr(i), rest), list) == if ItemFits(i) then Some(Merge(list, i)) else None
  {
    hide GetTok, ParseNet, ParseAddrs, AddressStr, NetStr, AddressMeaning, AddressFits, Laid, AddressLaid;
    var a, n := AddressStr(i.addr), NetStr(i);
    var b := Laid(i.after, n, "", "");
    AddressMade(i.addr);
    MadeNot(a, "-/,[].*", '@');
    WhiteNot(i.before, '@');
    assert ("@" + b)[1..] == b;
    TokAt("", a, i.before, "@" + b, '@', rest);
    NetMade(i);
    TokAt(i.after, n, "", "", '@', rest);
    assert "" + ("" + rest) == rest;
    NetReads(i, rest);
    var more := i.before + (("@" + b) + rest);
    AtText(a, more);
    if i.addr == Star {
      assert AddressFits(i.addr, i.net) by { StarFits(i.net); }
    } else {
      EndsAfter(i.before, "@" + b, rest);
      AddressReads(i.addr, i.net, more);
    }
  }

  lemma StarFits(net: nat)
    requires net < |NETS|
    ensures AddressFits(Star, net)
  {
  }

  lemma ItemMade(i: Item)
    requires i.net < |NETS| && ItemLaid(i)
    ensures Trim(ItemStr(i))
  {
    hide AddressStr, NetStr, Laid, AddressLaid;
    AddressMade(i.addr);
    NetMade(i);
    var b := Laid(i.after, NetStr(i), "", "");
    LaidLast(i.after, NetStr(i));
    LaidTrim(AddressStr(i.addr), i.before, "@" + b);
  }

  function MergeAll(list: seq<NidRange>, items: seq<Spaced<Item>>): seq<NidRange>
    decreases |items|
  {
    if items == [] then list else MergeAll(Merge(list, items[0].it), items[1..])
  }

  predicate AllFit(items: seq<Spaced<Item>>)
    requires ItemsOk(items)
  {
    forall i :: 0 <= i < |items| ==> ItemFits(items[i].it)
  }

  function ListRest(items: seq<Spaced<Item>>): string
    requires ItemsOk(items)
  {
    if items == [] then "" else " " + ListStr(items)
  }

  /** Parsing a sentence succeeds exactly when every address fits its network. */
  lemma {:induction false} ListReads(items: seq<Spaced<Item>>, rest: string, list: seq<NidRange>)
    requires Sentence(items) && Ends(rest)
    ensures ParseNidList(Some(At(ListStr(items), rest)), list) == if AllFit(items) then Some(MergeAll(list, items))
      else None
    decreases |items|
  {
    hide GetTok, ParseNidRange, ItemStr, Merge, ItemFits, Laid, ItemLaid;
    var x := items[0];
    assert SpacedItemLaid(x);
    var a, after := ItemStr(x.it), ListRest(items[1..]);
    ItemMade(x.it);
    TokAt(x.lead, a, x.trail, after, ' ', rest);
    EndsAfter(x.trail, after, rest);
    ItemReads(x.it, x.trail + (after + rest), list);
    if |items| == 1 {
      assert items[1..] == [];
    } else {
      assert after[1..] == ListStr(items[1..]);
      ListReads(items[1..], rest, Merge(list, x.it));
      assert AllFit(items) <==> ItemFits(x.it) && AllFit(items[1..]) by { AllFitStep(items); }
    }
  }

  lemma AllFitStep(items: seq<Spaced<Item>>)
    requires items != [] && ItemsOk(items)
    ensures AllFit(items) <==> ItemFits(items[0].it) && AllFit(items[1..])
  {
    hide ItemFits;
    if ItemFits(items[0].it) && AllFit(items[1..]) {
      forall i | 0 <= i < |items| ensures ItemFits(items[i].it) {
        if i > 0 { assert items[i] == items[1..][i - 1]; }
      }
    }
  }
}
