/**
 * The other direction: whatever text the parser accepts is the text of a sentence of the
 * grammar that fits, and it is compiled to that sentence's meaning.
 */
module NidAccepted {
  import opened Prelude
  import opened NumText
  import opened NidString
  import opened NidList
  import opened NidGrammar
  import opened NidParsing
  import opened NidMatching

  // ---------------------------------------------------------------- tokens

  /** A token and what surrounds it. */
  lemma TokFound(l: Lstr, delim: char) returns (lead: string, trail: string)
    requires Fits(l) && GetTok(l, delim).Tok?
    ensures var Tok(res, next) := GetTok(l, delim);
      && AllWhite(lead) && AllWhite(trail) && Trim(TextOf(res)) && delim !in TextOf(res) && delim !in trail
      && TextOf(l) == Laid(lead, TextOf(res), trail, if next.Some? then [delim] + TextOf(next.value) else "")
  {
    lead, trail := TokExact(l, delim);
    hide GetTok;
    var Tok(res, next) := GetTok(l, delim);
    var after := if next.Some? then [delim] + TextOf(next.value) else "";
    CutLaid(TextOf(l), lead, TextOf(res), trail, after, delim);
  }

  lemma CutLaid(t: string, lead: string, tok: string, trail: string, after: string, delim: char)
    requires Cut(t, lead, tok, trail, after, delim)
    ensures t == Laid(lead, tok, trail, after) && delim !in tok && delim !in trail
  {
    Assoc(lead, tok, trail);
    Assoc(lead, tok + trail, after);
    Assoc(tok, trail, after);
    assert forall c :: c in tok ==> c in tok + trail;
    assert forall c :: c in trail ==> c in tok + trail;
  }

  lemma LaidShows(lead: string, a: string, trail: string, after: string)
    requires a != ""
    ensures var t := Laid(lead, a, trail, after);
      && t != "" && (lead != "" ==> t[0] == lead[0])
      && (after == "" && trail != "" ==> t[|t| - 1] == trail[|trail| - 1])
  {
    var t := Laid(lead, a, trail, after);
    if after == "" { assert t == lead + a + trail; }
  }

  lemma NoLead(lead: string, a: string, trail: string, after: string)
    requires AllWhite(lead) && a != "" && (var t := Laid(lead, a, trail, after); t != "" && !IsWhite(t[0]))
    ensures lead == ""
  {
    LaidShows(lead, a, trail, after);
    hide Laid;
  }

  lemma NoTrail(lead: string, a: string, trail: string)
    requires AllWhite(trail) && a != "" && (var t := Laid(lead, a, trail, ""); t != "" && !IsWhite(t[|t| - 1]))
    ensures trail == ""
  {
    LaidShows(lead, a, trail, "");
    hide Laid;
  }

  // ---------------------------------------------------------------- ranges

  lemma NumberFound(l: Lstr, max: nat) returns (n: Number)
    requires Fits(l) && CheckNum(l, 0, max).Some?
    ensures TextOf(l) == NumberStr(n) && CheckNum(l, 0, max) == Some(n.value) && n.value <= max
  {
    var v := CheckNum(l, 0, max).value;
    var t := TextOf(l);
    hide CheckNum, Print;
    n := Number(v, if t == Print(v, 10) then Decimal else if t == "0x" + Print(v, 16) then LowerHex else UpperHex);
  }

  /** What follows the '-'. */
  lemma UpperFound(lo: Number, gap: string, l: Lstr, max: nat) returns (r: Range)
    requires Fits(l) && AllWhite(gap) && lo.value <= max && ParseUpper(lo.value, l, 0, max).Some?
    ensures RangeLaid(r) && RangeFits(r, max) && ParseUpper(lo.value, l, 0, max) == Some(RangeMeaning(r))
    ensures RangeStr(r) == Laid("", NumberStr(lo), gap, "-" + TextOf(l))
  {
    hide CheckNum, GetTok, NumberStr, Laid;
    if CheckNum(l, 0, max).Some? {
      var hi := NumberFound(l, max);
      r := Span(lo, gap, hi);
    } else {
      var Tok(tok, next) := GetTok(l, '/');
      var lead, trail := TokFound(l, '/');
      var hi := NumberFound(tok, max);
      var stride := NumberFound(next.value, max);
      assert ['/'] == "/";
      r := Strided(lo, gap, lead, hi, trail, stride);
    }
  }

  lemma RangeFound(l: Lstr, max: nat) returns (r: Range)
    requires Fits(l) && TextOf(l) != "" && !IsWhite(TextOf(l)[0]) && ParseRangeExpr(l, 0, max).Some?
    ensures RangeLaid(r) && RangeFits(r, max) && TextOf(l) == RangeStr(r)
    ensures ParseRangeExpr(l, 0, max) == Some(RangeMeaning(r))
  {
    hide CheckNum, GetTok, NumberStr, ParseUpper, Laid, RangeStr;
    if CheckNum(l, 0, max).Some? {
      var n := NumberFound(l, max);
      r := One(n);
      assert RangeStr(r) == NumberStr(n) by { OneStr(n); }
    } else {
      var Tok(tok, next) := GetTok(l, '-');
      var lead, gap := TokFound(l, '-');
      NoLead(lead, TextOf(tok), gap, ['-'] + TextOf(next.value));
      assert ['-'] == "-";
      var lo := NumberFound(tok, max);
      r := UpperFound(lo, gap, next.value, max);
    }
  }

  lemma OneStr(n: Number)
    ensures RangeStr(One(n)) == NumberStr(n)
  {
  }

  lemma {:induction false} RangesFound(l: Lstr, max: nat) returns (first: Spaced<Range>, more: seq<Spaced<Range>>)
    requires Fits(l) && ParseExprs(Some(l), 0, max).Some?
    ensures SpacedRangeLaid(first) && forall i :: 0 <= i < |more| ==> SpacedRangeLaid(more[i])
    ensures RangesFit(first, more, max) && TextOf(l) == RangesStr(first, more)
    ensures ParseExprs(Some(l), 0, max) == Some(RangesMeaning(first, more))
    decreases l.len
  {
    hide GetTok, ParseRangeExpr, RangeStr, Laid, RangeLaid, RangeFits, RangeMeaning;
    var Tok(res, next) := GetTok(l, ',');
    var lead, trail := TokFound(l, ',');
    var r := RangeFound(res, max);
    first := Spaced(lead, r, trail);
    if next.None? {
      more := [];
    } else {
      var f, m := RangesFound(next.value, max);
      more := [f] + m;
      assert more[0] == f && more[1..] == m;
      assert [','] == ",";
    }
  }

  // ---------------------------------------------------------------- parts and addresses

  lemma PartFound(l: Lstr, max: nat) returns (p: Part)
    requires Fits(l) && NumParse(l, 0, max).Some?
    ensures PartLaid(p) && PartFits(p, max) && TextOf(l) == PartStr(p) && NumParse(l, 0, max) == Some(PartMeaning(p))
  {
    hide CheckNum, ParseExprs, NumberStr, RangesStr, RangeFits, RangeLaid;
    if CheckNum(l, 0, max).Some? {
      var n := NumberFound(l, max);
      p := Plain(n);
    } else {
      var inner := Lstr(l.tail[1..], l.len - 2);
      var first, more := RangesFound(inner, max);
      RangesFitAll(first, more, max);
      p := Listed(first, more);
      assert TextOf(l) == "[" + TextOf(inner) + "]";
    }
  }

  lemma {:induction false} DottedFound(l: Lstr) returns (first: Spaced<Part>, more: seq<Spaced<Part>>)
    requires Fits(l) && IpParts(Some(l)).Some?
    ensures SpacedPartLaid(first) && forall i :: 0 <= i < |more| ==> SpacedPartLaid(more[i])
    ensures PartsFit(first, more) && TextOf(l) == DottedStr(first, more)
    ensures IpParts(Some(l)) == Some(PartsMeaning(first, more)) && |IpParts(Some(l)).value| == 1 + |more|
    decreases l.len
  {
    hide GetTok, NumParse, PartStr, Laid, PartLaid, PartFits, PartMeaning;
    var Tok(res, next) := GetTok(l, '.');
    var lead, trail := TokFound(l, '.');
    var p := PartFound(res, 255);
    first := Spaced(lead, p, trail);
    if next.None? {
      more := [];
    } else {
      var f, m := DottedFound(next.value);
      more := [f] + m;
      assert more[0] == f && more[1..] == m;
      assert ['.'] == ".";
    }
  }

  /** A quad on solid text has no white space before its first part or after its last. */
  lemma QuadSolid(p: Spaced<Part>, q: Spaced<Part>, r: Spaced<Part>, s: Spaced<Part>)
    requires Around(p) && Around(s) && Trim(DottedStr(p, [q, r, s]))
    ensures p.lead == "" == s.trail
  {
    hide PartStr, Laid;
    NoLead(p.lead, PartStr(p.it), p.trail, DottedRest([q, r, s]));
    assert [q, r, s][1..] == [r, s] && [r, s][1..] == [s] && [s][1..] == [];
    var d, c, b := DottedStr(s, []), DottedStr(r, [s]), DottedStr(q, [r, s]);
    LaidEnd(r.lead, PartStr(r.it), r.trail, "." + d);
    LaidEnd(q.lead, PartStr(q.it), q.trail, "." + c);
    LaidEnd(p.lead, PartStr(p.it), p.trail, "." + b);
    NoTrail(s.lead, PartStr(s.it), s.trail);
  }

  lemma AddressFound(net: nat, l: Lstr) returns (a: Address)
    requires net < |NETS| && Fits(l) && Trim(TextOf(l)) && ParseAddrs(net, l).Some?
    ensures a != Star && AddressLaid(a) && AddressFits(a, net) && TextOf(l) == AddressStr(a)
    ensures ParseAddrs(net, l) == Some(AddressMeaning(a))
  {
    hide NumParse, IpParts, PartStr, PartFits, PartMeaning, PartLaid, DottedStr;
    if Numeric(net) {
      var p := PartFound(l, MAX_NUMERIC_VALUE);
      a := Single(p);
    } else {
      var first, more := DottedFound(l);
      var q, r, s := more[0], more[1], more[2];
      assert more == [q, r, s];
      QuadSolid(first, q, r, s);
      QuadIsDotted(first, q, r, s);
      a := Quad(first, q, r, s);
    }
  }

  // ---------------------------------------------------------------- networks, items and lists

  /** A network token, as the network part of any item. */
  lemma NetFound(l: Lstr) returns (net: nat, num: Option<Number>)
    requires Fits(l) && ParseNet(l).Some?
    ensures net < |NETS|
    ensures var i := Item(Star, "", "", net, num);
      TextOf(l) == NetStr(i) && ParseNet(l) == Some((net, NumOf(i))) && NumOf(i) <= MAX_NUMERIC_VALUE
  {
    hide CheckNum, NumberStr, ByPrefix, NETS;
    net := ByPrefix(l.tail, 0).value;
    var name := NETS[net].name;
    if l.len == |name| {
      num := None;
      assert TextOf(l) == name + "";
    } else {
      var digits := Lstr(l.tail[|name|..], l.len - |name|);
      var n := NumberFound(digits, MAX_NUMERIC_VALUE);
      num := Some(n);
      assert TextOf(l) == name + TextOf(digits);
    }
  }

  lemma ItemFound(l: Lstr, list: seq<NidRange>) returns (i: Item)
    requires Fits(l) && Trim(TextOf(l)) && ParseNidRange(l, list).Some?
    ensures i.net < |NETS| && ItemLaid(i) && ItemFits(i) && TextOf(l) == ItemStr(i)
    ensures ParseNidRange(l, list) == Some(Merge(list, i))
  {
    hide GetTok, ParseNet, ParseAddrs, AddressStr, NetStr, Laid, AddressLaid, AddressMeaning, AddressFits;
    var Tok(addr, next) := GetTok(l, '@');
    var lead, before := TokFound(l, '@');
    NoLead(lead, TextOf(addr), before, ['@'] + TextOf(next.value));
    var Tok(net, _) := GetTok(next.value, '@');
    var after, trail := TokFound(next.value, '@');
    LaidShows(after, TextOf(net), trail, "");
    LaidEnd("", TextOf(addr), before, ['@'] + TextOf(next.value));
    NoTrail(after, TextOf(net), trail);
    var k, num := NetFound(net);
    var a: Address;
    if TextOf(addr) == "*" {
      a := Star;
      StarIs(k);
    } else {
      a := AddressFound(k, addr);
    }
    i := Item(a, before, after, k, num);
    assert ['@'] == "@";
    assert NetStr(i) == TextOf(net) by { SameNet(i, Item(Star, "", "", k, num)); }
  }

  lemma StarIs(net: nat)
    requires net < |NETS|
    ensures AddressLaid(Star) && AddressStr(Star) == "*" && AddressFits(Star, net)
  {
  }

  lemma SameNet(i: Item, j: Item)
    requires i.net == j.net < |NETS| && i.num == j.num
    ensures NetStr(i) == NetStr(j)
  {
  }

  lemma {:induction false} ListFound(l: Lstr, list: seq<NidRange>) returns (items: seq<Spaced<Item>>)
    requires Fits(l) && ParseNidList(Some(l), list).Some?
    ensures Sentence(items) && AllFit(items) && TextOf(l) == ListStr(items)
    ensures ParseNidList(Some(l), list) == Some(MergeAll(list, items))
    decreases l.len
  {
    hide GetTok, ParseNidRange, ItemStr, Laid, ItemLaid, ItemFits, Merge;
    var Tok(res, next) := GetTok(l, ' ');
    var lead, trail := TokFound(l, ' ');
    var i := ItemFound(res, list);
    var x := Spaced(lead, i, trail);
    if next.None? {
      items := [x];
      assert items[1..] == [];
    } else {
      var more := ListFound(next.value, Merge(list, i));
      items := [x] + more;
      assert items[1..] == more && [' '] == " ";
      AllFitStep(items);
    }
  }

  // ---------------------------------------------------------------- every text

  ghost predicate Spells(items: seq<Spaced<Item>>, t: string) {
    Sentence(items) && ListStr(items) == t && AllFit(items)
  }

  /** A text is accepted exactly when it is the text of a sentence that fits. */
  lemma AcceptedExactly(t: string)
    ensures ParseNidList(Some(At(t, "")), []).Some? <==> exists items :: Spells(items, t)
  {
    hide ParseNidList, ListStr, Sentence, AllFit, MergeAll;
    AtText(t, "");
    if ParseNidList(Some(At(t, "")), []).Some? {
      var items := ListFound(At(t, ""), []);
      assert Spells(items, t);
    }
    if items :| Spells(items, t) {
      assert Ends("");
      ListReads(items, "", []);
    }
  }

  /**
   * Whichever sentence an accepted text spells: the list has one entry for each network, the
   * matcher can be run on it exactly when all strides written are positive, and it then accepts
   * exactly the nids the sentence denotes.
   */
  lemma TextMatches(t: string, items: seq<Spaced<Item>>, nid: nat)
    requires Spells(items, t)
    ensures var list := ParseNidList(Some(At(t, "")), []);
      && list.Some? && OneEach(list.value) && (ListOk(list.value) <==> AllStrided(items))
      && (AllStrided(items) ==> (MatchNid(nid, list.value) <==> AnyDenotes(items, nid)))
  {
    hide ParseNidList, ListStr, Sentence, AllFit, OneEach, ListOk, AllStrided, MatchNid, AnyDenotes;
    assert Ends("");
    SentenceMatches(items, "", nid);
  }
}
