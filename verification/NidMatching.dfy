/** The compiled list of a sentence matches exactly the nids the sentence denotes. */
module NidMatching {
  import opened Prelude
  import opened NumText
  import opened NidString
  import opened NidList
  import opened NidGrammar
  import opened NidParsing

  // ---------------------------------------------------------------- positive strides

  predicate RangeStrides(r: Range) { r.Strided? ==> r.stride.value > 0 }

  predicate PartStrides(p: Part) {
    p.Listed? ==> RangeStrides(p.first.it) && forall i :: 0 <= i < |p.more| ==> RangeStrides(p.more[i].it)
  }

  predicate AddressStrides(a: Address) {
    match a
    case Star => true
    case Single(p) => PartStrides(p)
    case Quad(p, q, r, s) => PartStrides(p.it) && PartStrides(q.it) && PartStrides(r.it) && PartStrides(s.it)
  }

  predicate Sound(i: Item) { i.net < |NETS| && ItemFits(i) && AddressStrides(i.addr) }

  // ---------------------------------------------------------------- parts of addresses

  lemma RangeMatch(x: int, r: Range)
    requires RangeStrides(r)
    ensures RangeMeaning(r).stride > 0 && (MatchExpr(x, RangeMeaning(r)) <==> InRange(x, r))
  {
  }

  lemma {:induction false} RangesAt(first: Spaced<Range>, more: seq<Spaced<Range>>, i: nat)
    requires i <= |more|
    ensures |RangesMeaning(first, more)| == 1 + |more|
    ensures RangesMeaning(first, more)[i] == RangeMeaning(if i == 0 then first.it else more[i - 1].it)
    decreases |more|
  {
    hide RangeMeaning;
    if more == [] {
    } else {
      RangesAt(more[0], more[1..], if i == 0 then 0 else i - 1);
    }
  }

  lemma PartMatch(x: int, p: Part)
    requires PartStrides(p)
    ensures StridesOk(PartMeaning(p)) && (MatchAny(x, PartMeaning(p)) <==> InPart(x, p))
  {
    match p
    case Plain(n) =>
      assert PartMeaning(p)[0] == RangeExpr(n.value, n.value, 1);
    case Listed(first, more) =>
      var m := PartMeaning(p);
      forall i | 0 <= i <= |more|
        ensures |m| == 1 + |more| && m[i].stride > 0
        ensures MatchExpr(x, m[i]) <==> InRange(x, if i == 0 then first.it else more[i - 1].it)
      {
        RangesAt(first, more, i);
        RangeMatch(x, if i == 0 then first.it else more[i - 1].it);
      }
      RangesAt(first, more, 0);
      hide MatchExpr, InRange, RangesMeaning;
      if InRange(x, first.it) { assert MatchExpr(x, m[0]); }
      forall i | 0 <= i < |more| && InRange(x, more[i].it) ensures MatchAny(x, m) { assert MatchExpr(x, m[i + 1]); }
      forall i | 0 <= i < |m| && MatchExpr(x, m[i])
        ensures InPart(x, p)
      {
        if i > 0 { assert InRange(x, more[i - 1].it); }
      }
  }

  lemma Bytes(addr: nat)
    requires addr < U32
    ensures Piece(addr, 24, false) == addr / 16777216 && Piece(addr, 16, false) == addr / 65536 % 256
    ensures Piece(addr, 8, false) == addr / 256 % 256 && Piece(addr, 0, false) == addr % 256 &&
      Piece(addr, 0, true) == addr
  {
    assert Pow2(8) == 256;
    Pow2Split(8, 8);
    Pow2Split(16, 8);
    assert Pow2(16) == 65536 && Pow2(24) == 16777216;
    assert addr / 16777216 < 256;
  }

  lemma AddressMatch(net: nat, addr: nat, a: Address)
    requires net < |NETS| && AddressFits(a, net) && AddressStrides(a) && a != Star && addr < U32
    ensures AddrOk(net, AddressMeaning(a)) && (MatchAddr(net, addr, AddressMeaning(a)) <==> InAddress(addr, a))
  {
    Bytes(addr);
    hide PartMeaning, PartFits, InPart, MatchAny, PartStrides, Piece, StridesOk;
    match a
    case Single(p) =>
      PartMatch(addr, p);
      OnePart(addr, PartMeaning(p));
    case Quad(p, q, r, s) =>
      PartMatch(addr / 16777216, p.it);
      PartMatch(addr / 65536 % 256, q.it);
      PartMatch(addr / 256 % 256, r.it);
      PartMatch(addr % 256, s.it);
      FourParts(addr, PartMeaning(p.it), PartMeaning(q.it), PartMeaning(r.it), PartMeaning(s.it));
  }

  lemma OnePart(addr: nat, a: NumAddr)
    requires StridesOk(a)
    ensures MatchParts(addr, [a], 0, true) <==> MatchAny(Piece(addr, 0, true), a)
  {
    hide MatchAny, Piece, StridesOk;
    assert [a][1..] == [];
  }

  lemma FourParts(addr: nat, a: NumAddr, b: NumAddr, c: NumAddr, d: NumAddr)
    requires StridesOk(a) && StridesOk(b) && StridesOk(c) && StridesOk(d)
    ensures MatchParts(addr, [a, b, c, d], 24, false) <==>
      MatchAny(Piece(addr, 24, false), a) && MatchAny(Piece(addr, 16, false), b) &&
      MatchAny(Piece(addr, 8, false), c) && MatchAny(Piece(addr, 0, false), d)
  {
    hide MatchAny, Piece, StridesOk;
    assert [a, b, c, d][1..] == [b, c, d] && [b, c, d][1..] == [c, d] && [c, d][1..] == [d] && [d][1..] == [];
    assert MatchParts(addr, [d], 0, false) <==> MatchAny(Piece(addr, 0, false), d);
    assert MatchParts(addr, [c, d], 8, false) <==>
      MatchAny(Piece(addr, 8, false), c) && MatchParts(addr, [d], 0, false);
    assert MatchParts(addr, [b, c, d], 16, false) <==>
      MatchAny(Piece(addr, 16, false), b) && MatchParts(addr, [c, d], 8, false);
  }

  // ---------------------------------------------------------------- merging

  /** One entry for each network and number. */
  predicate OneEach(list: seq<NidRange>) {
    forall i, j :: 0 <= i < j < |list| ==> !(list[i].net == list[j].net && list[i].num == list[j].num)
  }

  /** The entry an item is merged into, before and after. */
  lemma EntryGrows(r: NidRange, i: Item, nid: nat)
    requires RangeOk(r) && Sound(i) && r.net == i.net && r.num == NumOf(i)
    ensures var g := if i.addr == Star then r.(all := true) else r.(addrs := r.addrs + [AddressMeaning(i.addr)]);
      RangeOk(g) && (MatchRange(nid, g) <==> MatchRange(nid, r) || Denotes(i, nid))
  {
    hide AddressMeaning, InAddress, MatchAddr, AddrOk, AddressStrides, AddressFits, NidNet, NetType, NetNum;
    if i.addr == Star {
      StarAll(NidAddr(nid));
    } else {
      AddressMatch(i.net, NidAddr(nid), i.addr);
      var m := AddressMeaning(i.addr);
      var g := r.(addrs := r.addrs + [m]);
      assert g.addrs[|r.addrs|] == m;
      forall k | 0 <= k < |r.addrs| ensures g.addrs[k] == r.addrs[k] { }
    }
  }

  lemma StarAll(addr: nat)
    ensures InAddress(addr, Star)
  {
  }

  lemma MergeMatch(list: seq<NidRange>, i: Item, nid: nat)
    requires ListOk(list) && Sound(i)
    ensures ListOk(Merge(list, i)) && (MatchNid(nid, Merge(list, i)) <==> MatchNid(nid, list) || Denotes(i, nid))
  {
    hide RangeOk, MatchRange, Denotes, Sound, AddressMeaning;
    var k := FindRange(list, i.net, NumOf(i), 0);
    var grown := AddRange(list, i.net, NumOf(i));
    NewEntry(i, nid);
    if k == |list| { assert grown == list + [NidRange(i.net, NumOf(i), false, [])]; }
    EntryGrows(grown[k], i, nid);
    var m := Merge(list, i);
    assert |m| == |grown| && forall j :: 0 <= j < |m| && j != k ==> m[j] == grown[j] == list[j];
    if MatchNid(nid, list) {
      var j :| 0 <= j < |list| && MatchRange(nid, list[j]);
      assert MatchRange(nid, m[j]);
    }
    if Denotes(i, nid) { assert MatchRange(nid, m[k]); }
    if MatchNid(nid, m) {
      var j :| 0 <= j < |m| && MatchRange(nid, m[j]);
      if j != k { assert MatchRange(nid, list[j]); }
      else if k < |list| && MatchRange(nid, grown[k]) { assert MatchRange(nid, list[k]); }
    }
  }

  lemma NewEntry(i: Item, nid: nat)
    requires Sound(i)
    ensures var r := NidRange(i.net, NumOf(i), false, []); RangeOk(r) && !MatchRange(nid, r)
  {
  }

  lemma MergeOneEach(list: seq<NidRange>, i: Item)
    requires OneEach(list)
    ensures OneEach(Merge(list, i))
  {
    hide AddressMeaning;
    var k := FindRange(list, i.net, NumOf(i), 0);
    var grown := AddRange(list, i.net, NumOf(i));
    var m := Merge(list, i);
    assert forall j :: 0 <= j < |m| ==> m[j].net == grown[j].net && m[j].num == grown[j].num;
  }

  predicate AllSound(items: seq<Spaced<Item>>) { forall i :: 0 <= i < |items| ==> Sound(items[i].it) }

  predicate AnyDenotes(items: seq<Spaced<Item>>, nid: nat)
    requires ItemsOk(items)
  {
    exists i :: 0 <= i < |items| && Denotes(items[i].it, nid)
  }

  lemma {:induction false} MergeAllMatch(list: seq<NidRange>, items: seq<Spaced<Item>>, nid: nat)
    requires ListOk(list) && OneEach(list) && AllSound(items) && ItemsOk(items)
    ensures ListOk(MergeAll(list, items)) && OneEach(MergeAll(list, items))
    ensures MatchNid(nid, MergeAll(list, items)) <==> MatchNid(nid, list) || AnyDenotes(items, nid)
    decreases |items|
  {
    hide Sound, Denotes, Merge, MatchNid, ListOk, OneEach;
    if items == [] {
    } else {
      MergeMatch(list, items[0].it, nid);
      MergeOneEach(list, items[0].it);
      MergeAllMatch(Merge(list, items[0].it), items[1..], nid);
      assert AnyDenotes(items, nid) <==>
        Denotes(items[0].it, nid) || AnyDenotes(items[1..], nid) by { AnyStep(items, nid); }
    }
  }

  lemma AnyStep(items: seq<Spaced<Item>>, nid: nat)
    requires items != [] && ItemsOk(items)
    ensures AnyDenotes(items, nid) <==> Denotes(items[0].it, nid) || AnyDenotes(items[1..], nid)
  {
    hide Denotes;
    if AnyDenotes(items, nid) {
      var i :| 0 <= i < |items| && Denotes(items[i].it, nid);
      if i > 0 { assert items[1..][i - 1] == items[i]; }
    }
    if AnyDenotes(items[1..], nid) {
      var i :| 0 <= i < |items[1..]| && Denotes(items[1..][i].it, nid);
      assert items[i + 1] == items[1..][i];
    }
  }

  predicate AllStrided(items: seq<Spaced<Item>>) { forall i :: 0 <= i < |items| ==> AddressStrides(items[i].it.addr) }

  // ---------------------------------------------------------------- which lists can be matched

  lemma PartOkIff(p: Part)
    ensures StridesOk(PartMeaning(p)) <==> PartStrides(p)
  {
    match p
    case Plain(_) =>
    case Listed(first, more) =>
      var m := PartMeaning(p);
      forall i | 0 <= i <= |more|
        ensures |m| == 1 + |more| && (m[i].stride > 0 <==> RangeStrides(if i == 0 then first.it else more[i - 1].it))
      {
        RangesAt(first, more, i);
      }
      hide RangesMeaning, RangeStrides;
      if StridesOk(m) {
        assert m[0].stride > 0;
        forall i | 0 <= i < |more| ensures RangeStrides(more[i].it) { assert m[i + 1].stride > 0; }
      }
  }

  lemma AddressOkIff(net: nat, a: Address)
    requires net < |NETS| && AddressFits(a, net) && a != Star
    ensures AddrOk(net, AddressMeaning(a)) <==> AddressStrides(a)
  {
    hide PartMeaning, PartFits, PartStrides, StridesOk;
    match a
    case Single(p) =>
      PartOkIff(p);
      assert AddressMeaning(a)[0] == PartMeaning(p);
    case Quad(p, q, r, s) =>
      PartOkIff(p.it);
      PartOkIff(q.it);
      PartOkIff(r.it);
      PartOkIff(s.it);
      var m := AddressMeaning(a);
      assert m[0] == PartMeaning(p.it) && m[1] == PartMeaning(q.it) && m[2] == PartMeaning(r.it) &&
        m[3] == PartMeaning(s.it);
  }

  lemma MergeOkIff(list: seq<NidRange>, i: Item)
    requires i.net < |NETS| && ItemFits(i)
    ensures ListOk(Merge(list, i)) <==> ListOk(list) && AddressStrides(i.addr)
  {
    var k := FindRange(list, i.net, NumOf(i), 0);
    var grown := AddRange(list, i.net, NumOf(i));
    var m := Merge(list, i);
    if i.addr != Star { AddressOkIff(i.net, i.addr); }
    hide AddressMeaning, AddressFits, AddrOk, AddressStrides, FindRange;
    EntryOkIff(grown[k], i);
    assert |m| == |grown| && forall j :: 0 <= j < |m| && j != k ==> m[j] == grown[j] == list[j];
    if ListOk(m) {
      assert RangeOk(m[k]);
      forall j | 0 <= j < |list| ensures RangeOk(list[j]) { assert RangeOk(m[j]); }
    }
  }

  lemma EntryOkIff(r: NidRange, i: Item)
    requires i.net < |NETS| && r.net == i.net &&
      (i.addr != Star ==> (AddrOk(i.net, AddressMeaning(i.addr)) <==> AddressStrides(i.addr)))
    ensures var g := if i.addr == Star then r.(all := true) else r.(addrs := r.addrs + [AddressMeaning(i.addr)]);
      RangeOk(g) <==> RangeOk(r) && AddressStrides(i.addr)
  {
    hide AddressMeaning, AddrOk;
    if i.addr != Star {
      var m := AddressMeaning(i.addr);
      var g := r.(addrs := r.addrs + [m]);
      assert g.addrs[|r.addrs|] == m;
      forall j | 0 <= j < |r.addrs| ensures g.addrs[j] == r.addrs[j] { }
    }
  }

  lemma {:induction false} MergeAllOkIff(list: seq<NidRange>, items: seq<Spaced<Item>>)
    requires ItemsOk(items) && AllFit(items) && OneEach(list)
    ensures OneEach(MergeAll(list, items))
    ensures ListOk(MergeAll(list, items)) <==> ListOk(list) && AllStrided(items)
    decreases |items|
  {
    hide ItemFits, AddressStrides, Merge, ListOk, OneEach;
    if items == [] {
    } else {
      MergeOkIff(list, items[0].it);
      MergeOneEach(list, items[0].it);
      MergeAllOkIff(Merge(list, items[0].it), items[1..]);
      if AllStrided(items[1..]) && AddressStrides(items[0].it.addr) {
        forall i | 0 <= i < |items|
          ensures AddressStrides(items[i].it.addr)
        {
          if i > 0 { assert items[1..][i - 1] == items[i]; }
        }
      }
      if AllStrided(items) {
        forall i | 0 <= i < |items[1..]|
          ensures AddressStrides(items[1..][i].it.addr)
        {
          assert items[1..][i] == items[i + 1];
        }
      }
    }
  }

  /**
   * A sentence parses exactly when every address fits its network, to a list with one entry
   * for each network.  The matcher can be run on the list, without a stride to divide by that
   * is zero, exactly when all strides written are positive; it then accepts a nid exactly when
   * some item denotes it.
   */
  lemma SentenceMatches(items: seq<Spaced<Item>>, rest: string, nid: nat)
    requires Sentence(items) && Ends(rest)
    ensures ParseNidList(Some(At(ListStr(items), rest)), []).Some? <==> AllFit(items)
    ensures AllFit(items) ==>
      var list := ParseNidList(Some(At(ListStr(items), rest)), []).value;
      && OneEach(list) && (ListOk(list) <==> AllStrided(items))
      && (AllStrided(items) ==> (MatchNid(nid, list) <==> AnyDenotes(items, nid)))
  {
    ListReads(items, rest, []);
    hide ParseNidList, ListStr, ItemFits, AddressStrides, MergeAll;
    if AllFit(items) {
      MergeAllOkIff([], items);
      if AllStrided(items) {
        assert AllSound(items);
        MergeAllMatch([], items, nid);
      }
    }
  }

  /** The sentence [1-9/0]@elan. */
  function ZeroStrided(): seq<Spaced<Item>> {
    var r := Strided(Number(1, Decimal), "", "", Number(9, Decimal), "", Number(0, Decimal));
    [Spaced("", Item(Single(Listed(Spaced("", r, ""), [])), "", "", 8, None), "")]
  }

  lemma ZeroRange()
    ensures RangeStr(ZeroStrided()[0].it.addr.part.first.it) == "1-9/0"
  {
    assert Print(1, 10) == "1" && Print(9, 10) == "9" && Print(0, 10) == "0";
    hide Print;
  }

  lemma ZeroItem()
    ensures ItemStr(ZeroStrided()[0].it) == "[1-9/0]@elan"
  {
    ZeroRange();
    hide RangeStr;
    var i := ZeroStrided()[0].it;
    assert RangesStr(i.addr.part.first, []) == "1-9/0";
    assert NetStr(i) == "elan";
  }

  lemma ZeroText()
    ensures Sentence(ZeroStrided()) && ListStr(ZeroStrided()) == "[1-9/0]@elan"
  {
    ZeroItem();
    hide ItemStr;
    assert ' ' !in "[1-9/0]@elan";
  }

  lemma ZeroFits()
    ensures ItemsOk(ZeroStrided()) && AllFit(ZeroStrided()) && !AllStrided(ZeroStrided())
  {
    assert ZeroStrided()[0].it.addr.part.Listed?;
  }

  /** A zero stride parses, and the matcher cannot be run on the outcome. */
  lemma ZeroStride()
    ensures var list := ParseNidList(Some(At("[1-9/0]@elan", "")), []); list.Some? && !ListOk(list.value)
  {
    hide ParseNidList, ListOk, ListStr, At, AllFit, AllStrided, MatchNid, AnyDenotes, OneEach, ItemsOk;
    ZeroText();
    ZeroFits();
    assert Ends("");
    SentenceMatches(ZeroStrided(), "", 0);
  }
}
