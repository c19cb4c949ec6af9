/** The table of I, K and E-lines by address (src/dline_conf.c). */
module KlineTables {
  import opened Text
  import opened IpPrefixes
  import opened IpTrees
  import opened DlineTables

  /** match(user, name). */
  type Matcher = (string, string) -> bool

  /** What the loop of match_ip_Kline holds: the winner so far and whether it is a K-line. */
  datatype Race = Race(winner: Option<Conf>, kline: bool)

  datatype Step = Stop(c: Conf) | Go(race: Race)

  predicate Fits(e: Conf, a: Ip, name: string, matches: Matcher) { ItemFor(e, a) && matches(e.user, name) }

  /** One turn of the loop. */
  function Turn(r: Race, e: Conf, a: Ip, name: string, matches: Matcher): Step {
    if !ItemFor(e, a) then Go(r)
    else if e.exempt && matches(e.user, name) then Stop(e)
    else if e.kill && matches(e.user, name) then Go(Race(Some(e), true))
    else if e.client && matches(e.user, name) && !r.kline
            && !(r.winner.Some? && Shorter(e.mask, r.winner.value.mask)) then Go(Race(Some(e), r.kline))
    else Go(r)
  }

  function RaceFrom(r: Race, c: seq<Conf>, a: Ip, name: string, matches: Matcher): Option<Conf>
    decreases |c|
  {
    if c == [] then r.winner
    else
      var s := Turn(r, c[0], a, name, matches);
      if s.Stop? then Some(s.c) else RaceFrom(s.race, c[1..], a, name, matches)
  }

  /** The line that decides among the items of a range. */
  function KlineVerdict(c: seq<Conf>, a: Ip, name: string, matches: Matcher): Option<Conf> {
    RaceFrom(Race(None, false), c, a, name, matches)
  }

  // ----- what the race means -----

  predicate EFits(e: Conf, a: Ip, name: string, matches: Matcher) { e.exempt && Fits(e, a, name, matches) }
  predicate KFits(e: Conf, a: Ip, name: string, matches: Matcher) { !e.exempt && e.kill && Fits(e, a, name, matches) }
  predicate IFits(e: Conf, a: Ip, name: string, matches: Matcher) {
    !e.exempt && !e.kill && e.client && Fits(e, a, name, matches)
  }

  /** An E-line beats a K-line beats an I-line: the first E-line that fits; else the last
      K-line that fits; else, of the I-lines that fit, one with the most specific mask, the
      first of these. */
  ghost predicate Decides(c: seq<Conf>, a: Ip, name: string, matches: Matcher, r: Option<Conf>) {
    if exists i :: 0 <= i < |c| && EFits(c[i], a, name, matches) then
      exists i :: 0 <= i < |c| && r == Some(c[i]) && EFits(c[i], a, name, matches)
        && forall j :: 0 <= j < i ==> !EFits(c[j], a, name, matches)
    else if exists i :: 0 <= i < |c| && KFits(c[i], a, name, matches) then
      exists i :: 0 <= i < |c| && r == Some(c[i]) && KFits(c[i], a, name, matches)
        && forall j :: i < j < |c| ==> !KFits(c[j], a, name, matches)
    else if exists i :: 0 <= i < |c| && IFits(c[i], a, name, matches) then
      exists i :: 0 <= i < |c| && r == Some(c[i]) && IFits(c[i], a, name, matches)
        && (forall j :: 0 <= j < i && IFits(c[j], a, name, matches) ==> Less(c[j].mask, c[i].mask))
        && (forall j :: i < j < |c| && IFits(c[j], a, name, matches) ==> Shorter(c[j].mask, c[i].mask))
    else r == None
  }

  /** The loop up to item `n`: no E-line yet, and what the winner is. */
  ghost predicate RaceIs(c: seq<Conf>, n: nat, a: Ip, name: string, matches: Matcher, r: Race, w: int)
    requires n <= |c|
  {
    && (forall j :: 0 <= j < n ==> !EFits(c[j], a, name, matches))
    && (r.winner.Some? ==> 0 <= w < n && r.winner.value == c[w])
    && (r.kline ==> r.winner.Some? && KFits(c[w], a, name, matches)
                    && forall j :: w < j < n ==> !KFits(c[j], a, name, matches))
    && (!r.kline ==> forall j :: 0 <= j < n ==> !KFits(c[j], a, name, matches))
    && (!r.kline && r.winner.None? ==> forall j :: 0 <= j < n ==> !IFits(c[j], a, name, matches))
    && (!r.kline && r.winner.Some? ==>
          && IFits(c[w], a, name, matches)
          && (forall j :: 0 <= j < w && IFits(c[j], a, name, matches) ==> Less(c[j].mask, c[w].mask))
          && (forall j :: w < j < n && IFits(c[j], a, name, matches) ==> Shorter(c[j].mask, c[w].mask)))
  }

  lemma TurnKeeps(c: seq<Conf>, n: nat, a: Ip, name: string, matches: Matcher, r: Race, w: int)
    returns (w': int)
    requires n < |c| && RaceIs(c, n, a, name, matches, r, w)
    ensures var s := Turn(r, c[n], a, name, matches);
      if s.Stop? then s.c == c[n] && EFits(c[n], a, name, matches)
      else RaceIs(c, n + 1, a, name, matches, s.race, w')
  {
    hide ItemFor, Less, Shorter;
    var s := Turn(r, c[n], a, name, matches);
    var betterI := IFits(c[n], a, name, matches) && !r.kline
        && !(r.winner.Some? && Shorter(c[n].mask, r.winner.value.mask));
    w' := if KFits(c[n], a, name, matches) || betterI then n else w;
    if s.Go? && betterI && r.winner.Some? {
      forall j | 0 <= j < n && IFits(c[j], a, name, matches) ensures Less(c[j].mask, c[n].mask) {
        MaskOrder(c[n].mask, c[w].mask);
        MaskChain(c[j].mask, c[w].mask, c[n].mask);
      }
    }
  }

  lemma MaskOrder(m: Ip, n: Ip)
    ensures Shorter(m, n) <==> !Less(n, m)
    ensures !Less(m, m)
  {
    hide *;
    ShorterIs(m, n);
    LessTotal(m, m);
  }

  lemma MaskChain(x: Ip, y: Ip, z: Ip)
    requires Shorter(x, y) || Less(x, y) || x == y
    ensures Less(y, z) ==> Less(x, z)
  {
    hide *;
    ShorterIs(x, y);
    LessTotal(x, y);
    LessOrder(x, y, z);
  }

  lemma {:induction false} RaceDecides(c: seq<Conf>, n: nat, a: Ip, name: string, matches: Matcher, r: Race, w: int)
    requires n <= |c| && RaceIs(c, n, a, name, matches, r, w)
    ensures Decides(c, a, name, matches, RaceFrom(r, c[n..], a, name, matches))
    decreases |c| - n
  {
    hide Fits, Less, Shorter, EFits, KFits, IFits, Turn;
    if n == |c| {
    } else {
      var w' := TurnKeeps(c, n, a, name, matches, r, w);
      var s := Turn(r, c[n], a, name, matches);
      assert c[n..][1..] == c[n + 1..];
      if s.Go? { RaceDecides(c, n + 1, a, name, matches, s.race, w'); }
    }
  }

  lemma VerdictDecides(c: seq<Conf>, a: Ip, name: string, matches: Matcher)
    ensures Decides(c, a, name, matches, KlineVerdict(c, a, name, matches))
  {
    assert c[0..] == c;
    RaceDecides(c, 0, a, name, matches, Race(None, false), -1);
  }

  // ----- items and the oracle -----

  /** A masked item has its bits in the oracle word. An item that is not masked matches nobody. */
  predicate EntryFits(e: Conf, o: Ip) { Masked(e) ==> BitsIn(RangeBits(e.ip, e.mask), o) }

  predicate ListFits(c: seq<Conf>, o: Ip) { forall e <- c :: EntryFits(e, o) }

  predicate ItemsFit(t: Tree, o: Ip) { t.Node? ==> ListFits(t.conf, o) && ItemsFit(t.left, o) && ItemsFit(t.right, o) }

  lemma ListFitsMore(c: seq<Conf>, o: Ip, bits: Ip)
    requires ListFits(c, o)
    ensures ListFits(c, BitsOr(o, bits))
  {
    hide Masked, RangeBits, BitsIn, BitsOr;
    forall e | e in c ensures EntryFits(e, BitsOr(o, bits)) { BitsInOr(RangeBits(e.ip, e.mask), o, bits); }
  }

  lemma {:induction false} FitsMore(t: Tree, o: Ip, bits: Ip)
    requires ItemsFit(t, o)
    ensures ItemsFit(t, BitsOr(o, bits))
  {
    hide ListFits, BitsOr;
    if t.Node? {
      ListFitsMore(t.conf, o, bits);
      FitsMore(t.left, o, bits);
      FitsMore(t.right, o, bits);
    }
  }

  lemma {:induction false} FitsInsert(t: Tree, key: Key, conf: seq<Conf>, o: Ip)
    requires ItemsFit(t, o) && ListFits(conf, o)
    ensures ItemsFit(Insert(t, key, conf), o)
  {
    hide ListFits, Less;
    if t.Node? {
      FitsInsert(t.left, key, conf, o);
      FitsInsert(t.right, key, conf, o);
    }
  }

  lemma {:induction false} FitsAmend(t: Tree, a: Ip, conf: seq<Conf>, o: Ip)
    requires ItemsFit(t, o) && ListFits(conf, o)
    ensures ItemsFit(Amend(t, a, conf), o)
  {
    hide ListFits, Covers, GoesLeft;
    if t.Node? {
      FitsAmend(t.left, a, conf, o);
      FitsAmend(t.right, a, conf, o);
    }
  }

  lemma {:induction false} FitsFind(t: Tree, a: Ip, o: Ip)
    requires ItemsFit(t, o)
    ensures Find(t, a).Node? ==> ListFits(Find(t, a).conf, o)
  {
    hide ListFits, Covers, GoesLeft;
    if t.Node? {
      FitsFind(t.left, a, o);
      FitsFind(t.right, a, o);
    }
  }

  lemma {:induction false} FitsEnds(t: Tree, o: Ip)
    requires t.Node? && ItemsFit(t, o)
    ensures ItemsFit(Rightmost(t), o) && ItemsFit(Leftmost(t), o)
  {
    hide ListFits;
    if t.left.Node? { FitsEnds(t.left, o); }
    if t.right.Node? { FitsEnds(t.right, o); }
  }

  lemma FitsReplace(l: Tree, r: Tree, coin: bool, o: Ip)
    requires ItemsFit(l, o) && ItemsFit(r, o)
    ensures ItemsFit(Replace(l, r, coin), o)
  {
    hide ListFits;
    if l.Node? { FitsEnds(l, o); }
    if r.Node? { FitsEnds(r, o); }
  }

  lemma {:induction false} FitsDelete(t: Tree, s: Key, clist: seq<Conf>, coin: Ip -> bool, o: Ip)
    requires ItemsFit(t, o) && ListFits(clist, o)
    ensures ItemsFit(Delete(t, s, clist, coin).tree, o) && ListFits(Delete(t, s, clist, coin).clist, o)
  {
    hide EntryFits, InScope, Replace;
    if t.Node? {
      var l := Delete(t.left, s, clist, coin);
      FitsDelete(t.left, s, clist, coin, o);
      FitsDelete(t.right, s, l.clist, coin, o);
      FitsReplace(l.tree, Delete(t.right, s, l.clist, coin).tree, coin(t.key.ip), o);
    }
  }

  /** Every line that matches the address has had its bits put into the oracle word. */
  lemma VerdictFits(c: seq<Conf>, a: Ip, name: string, matches: Matcher, o: Ip)
    requires ListFits(c, o) && KlineVerdict(c, a, name, matches).Some?
    ensures BitsIn(a, o)
  {
    hide BitsIn, Less, Shorter, Matches, RangeBits, KlineVerdict;
    VerdictDecides(c, a, name, matches);
    var e := KlineVerdict(c, a, name, matches).value;
    assert e in c && ItemFor(e, a);
    assert EntryFits(e, o);
    ItemIsMasked(e.ip, e.mask, a);
    CoverBits(e.ip, e.mask, a);
    BitsInChain(a, RangeBits(e.ip, e.mask), o);
  }

  lemma ItemIsMasked(ip: Ip, mask: Ip, a: Ip)
    requires Matches(ip, mask, a)
    ensures Matches(ip, mask, ip)
  {
  }

  // ----- which addresses a line reaches -----

  lemma ZeroesAndOnes(ip: Ip, n: Ip)
    ensures Matches(And(ip, n), n, And(ip, n)) && Matches(And(ip, n), n, And(ip, n) | !n)
  {
  }

  lemma BothHeld(x: Ip, m: Ip, ip: Ip, n: Ip)
    requires PrefixMask(m) && PrefixMask(n) && Matches(x, m, And(ip, n)) && Matches(x, m, And(ip, n) | !n)
    ensures Shorter(m, n)
  {
    NestedMasks(m, n);
    hide PrefixMask;
    assert m & !n == 0;
  }

  lemma HeldBy(x: Ip, m: Ip, ip: Ip, n: Ip, a: Ip)
    requires PrefixMask(m) && PrefixMask(n) && Shorter(m, n) && Matches(x, m, ip) && Matches(And(ip, n), n, a)
    ensures Matches(x, m, a)
  {
    NestedMasks(m, n);
    hide PrefixMask;
  }

  /** A line in the list of range `key` is looked up for all its addresses if and only if the range is
      not narrower than the line and the line's mask is at least eight bits long. */
  lemma LineReach(key: Key, c: Conf)
    requires KeyOk(key) && PrefixMask(c.mask) && Covers(key, c.ip)
    ensures (forall a: Ip :: Covers(KeyOf(c), a) ==> Covers(key, a) && Head(a) == Head(c.ip))
       <==> Shorter(key.mask, c.mask) && Long(c.mask)
  {
    hide KeyOk, Covers, KeyOf, PrefixMask, Shorter, Long, Head;
    LineKey(c);
    OneHead(KeyOf(c));
    LineHeld(key, c);
    if !Long(c.mask) {
      var a: Ip, b: Ip :| Covers(KeyOf(c), a) && Covers(KeyOf(c), b) && Head(a) != Head(b);
      assert Head(a) != Head(c.ip) || Head(b) != Head(c.ip);
    }
  }

  lemma LineKey(c: Conf)
    requires PrefixMask(c.mask)
    ensures KeyOk(KeyOf(c)) && Covers(KeyOf(c), c.ip) && KeyOf(c).mask == c.mask
  {
    hide Matches, And, PrefixMask;
    MaskedOnce(c.ip, c.mask);
  }

  /** The range holds all addresses of the line if and only if it is not narrower. */
  lemma LineHeld(key: Key, c: Conf)
    requires KeyOk(key) && PrefixMask(c.mask) && Covers(key, c.ip)
    ensures (forall a: Ip :: Covers(KeyOf(c), a) ==> Covers(key, a)) <==> Shorter(key.mask, c.mask)
  {
    hide Matches, And, PrefixMask, Shorter;
    ZeroesAndOnes(c.ip, c.mask);
    if Shorter(key.mask, c.mask) {
      forall a: Ip | Covers(KeyOf(c), a) ensures Covers(key, a) { HeldBy(key.ip, key.mask, c.ip, c.mask, a); }
    } else if Covers(key, And(c.ip, c.mask)) && Covers(key, And(c.ip, c.mask) | !c.mask) {
      BothHeld(key.ip, key.mask, c.ip, c.mask);
    }
  }

  // ----- the table -----

  /** trim_ip_Klines and trim_ip_Elines: `toast` is the comparison of the item's mask with the new one. */
  function Trimmed(cl: seq<Conf>, eline: bool, toast: Ip -> bool): (r: seq<Conf>)
    ensures forall e <- r :: e in cl
    ensures forall e <- cl :: (!eline && e.exempt) || !toast(e.mask) ==> e in r
  {
    if cl == [] then []
    else (if (!eline && cl[0].exempt) || !toast(cl[0].mask) then [cl[0]] else []) + Trimmed(cl[1..], eline, toast)
  }

  class KlineTable {
    const matches: Matcher
    const trees: array<Tree>
    const oracle: array<Ip>

    ghost predicate Valid()
      reads trees, oracle
    {
      && trees as object != oracle as object && oracle.Length == trees.Length
      && TablesOk(trees[..]) && Placeable(trees[..])
      && forall h :: 0 <= h < trees.Length ==> ItemsFit(trees[h], oracle[h])
    }

    constructor (matches: Matcher)
      ensures Valid() && fresh(trees) && fresh(oracle) && this.matches == matches
      ensures forall h :: 0 <= h < trees.Length ==> Keys(trees[h]) == {}
    {
      this.matches := matches;
      trees := new Tree[TABLE](_ => Leaf);
      oracle := new Ip[TABLE](_ => 0);
    }

    /** The tree and the oracle word after an add function. */
    method Put(h: nat, t: Tree, c: Conf)
      requires Valid() && h < TABLE && TreeOk(t) && Head(c.ip) == h
      requires forall k <- Keys(t) :: k in Keys(trees[..][h]) || Covers(k, c.ip)
      requires h < oracle.Length && ItemsFit(t, BitsOr(oracle[h], RangeBits(c.ip, c.mask)))
      modifies trees, oracle
      ensures Valid() && trees[..] == old(trees[..])[h := t]
      ensures oracle[..] == old(oracle[..])[h := BitsOr(old(oracle[..])[h], RangeBits(c.ip, c.mask))]
    {
      hide TreeOk, Keys, Head, Covers, RangeBits, BitsOr, ItemsFit;
      ghost var ts := trees[..];
      oracle[h] := BitsOr(oracle[h], RangeBits(c.ip, c.mask));
      trees[h] := t;
      TablesPut(ts, h, t);
    }

    /** The part that add_ip_Kline and add_ip_Eline share when no range holds the address:
        more specific ranges are deleted, and a node of its own is made for the line, with
        the items of theirs that stay. */
    method AddNode(c: Conf, eline: bool, coin: Ip -> bool)
      requires Valid() && PrefixMask(c.mask) && Head(c.ip) < TABLE && Find(trees[Head(c.ip)], c.ip).Leaf?
      modifies trees, oracle
      ensures Valid()
      ensures var h, key := Head(c.ip), KeyOf(c);
        var t := old(trees[..])[h];
        && oracle[..] == old(oracle[..])[h := BitsOr(old(oracle[..])[h], RangeBits(c.ip, c.mask))]
        && trees[..] == old(trees[..])[h := Placed(t, key, [c] + Inherited(c, eline, Gathered(t, key)), coin)]
    {
      hide TablesOk, TreeOk, Keys, Find, Has, Head, Covers, Less, Shorter, Masked, RangeBits, BitsOr, BitsIn,
          PrefixMask,
           InScope, Gathered, Placed, KeyOk, And, ItemsFit, EntryFits, Placeable, Inherited;
      var h := Head(c.ip);
      TablesAt(trees[..], h);
      ghost var t := trees[h];
      var key := KeyOf(c);
      MayPlace(t, c.ip, c.mask);
      PlacedAnywhere(t, c.ip, c.mask, [c], coin);
      var d := Delete(trees[h], key, [], coin);
      var clist := [c] + Inherited(c, eline, d.clist);
      PlacedOk(t, key, clist, coin);
      PlacedIs(t, key, clist, coin);
      ghost var o := BitsOr(oracle[h], RangeBits(c.ip, c.mask));
      FitsMore(t, oracle[h], RangeBits(c.ip, c.mask));
      FitsDelete(t, key, [], coin, o);
      OwnFits(c, oracle[h]);
      InheritedFits(c, eline, d.clist, o);
      FitsInsert(d.tree, key, clist, o);
      Put(h, Insert(d.tree, key, clist), c);
    }

    /** The part that they share when a range holds the address: the line joins the items
        of that range. */
    method AddItem(c: Conf, node: Tree, eline: bool, toast: Ip -> bool)
      requires Valid() && Head(c.ip) < TABLE && node == Find(trees[Head(c.ip)], c.ip) && node.Node?
      modifies trees, oracle
      ensures Valid()
      ensures var h := Head(c.ip);
        var l := [c] + if c.user == "*" then Trimmed(node.conf, eline, toast) else node.conf;
        && oracle[..] == old(oracle[..])[h := BitsOr(old(oracle[..])[h], RangeBits(c.ip, c.mask))]
        && trees[..] == old(trees[..])[h := Amend(old(trees[..])[h], c.ip, l)]
    {
      hide TablesOk, TreeOk, Keys, Find, Has, Head, Amend, RangeBits, BitsOr, BitsIn, ItemsFit, EntryFits, Masked,
          Placeable;
      var h := Head(c.ip);
      TablesAt(trees[..], h);
      ghost var t := trees[h];
      var l := [c] + if c.user == "*" then Trimmed(node.conf, eline, toast) else node.conf;
      AmendOk(t, c.ip, l);
      AmendKeys(t, c.ip, l);
      ghost var o := BitsOr(oracle[h], RangeBits(c.ip, c.mask));
      FitsMore(t, oracle[h], RangeBits(c.ip, c.mask));
      FitsFind(t, c.ip, o);
      OwnFits(c, oracle[h]);
      FitsAmend(t, c.ip, l, o);
      Put(h, Amend(trees[h], c.ip, l), c);
    }

    /** Some more general line for everybody is in the list; with `kills`, a K-line counts. */
    static method Overruled(cl: seq<Conf>, c: Conf, kills: bool) returns (yes: bool)
      ensures yes <==> exists i :: 0 <= i < |cl| && Overrules(cl[i], c, kills)
    {
      hide Less;
      var i := 0;
      while i < |cl|
        invariant 0 <= i <= |cl| && forall j :: 0 <= j < i ==> !Overrules(cl[j], c, kills)
      {
        if Overrules(cl[i], c, kills) { return true; }
        i := i + 1;
      }
      return false;
    }

    /** add_ip_Kline (`eline` false) and add_ip_Eline (`eline` true), for any address. `toast` is the
        comparison of masks, which is one of an int with an unsigned long. */
    method AddLine(conf: Conf, eline: bool, toast: Ip -> bool, coin: Ip -> bool)
      requires Valid() && PrefixMask(if eline then conf.mask else FixMask(conf.mask))
      modifies trees, oracle
      ensures Valid() && Head(conf.ip) < TABLE
      ensures var c := if eline then conf else conf.(mask := FixMask(conf.mask));
        var h, key := Head(conf.ip), KeyOf(c);
        var t := old(trees[..])[h];
        var f := Find(t, c.ip);
        if f.Node? && exists i :: 0 <= i < |f.conf| && Overrules(f.conf[i], c, !eline) then
          trees[..] == old(trees[..]) && oracle[..] == old(oracle[..])
        else
          && oracle[..] == old(oracle[..])[h := BitsOr(old(oracle[..])[h], RangeBits(c.ip, c.mask))]
          && trees[..] == old(trees[..])[h := trees[h]]
          && NewLines(t, trees[h], f, key, c, eline, toast, coin)
    {
      hide TablesOk, TreeOk, Keys, Find, Has, Head, Masked, InScope, Gathered, FixMask, Overrules, And, PrefixMask,
           Amend, Placed, Inherited, RangeBits, BitsOr, Placeable, ItemsFit, NewLines;
      var c := if eline then conf else conf.(mask := FixMask(conf.mask));
      HeadInTable(c.ip);
      TablesAt(trees[..], Head(c.ip));
      ghost var t := trees[Head(c.ip)];
      var node := FindSubtree(trees[Head(c.ip)], c.ip);
      if node.Leaf? {
        AddNode(c, eline, coin);
        NodeLines(t, c, eline, toast, coin);
        return;
      }
      FindIs(t, c.ip);
      var overruled := Overruled(node.conf, c, !eline);
      if overruled { return; }
      AddItem(c, node, eline, toast);
      ItemLines(t, c, eline, toast, coin);
    }

    /** match_ip_Kline. The oracle never changes the answer, whatever addresses were added: a line whose
        address is not masked matches nobody, and the others have their bits in the oracle word. A null
        name matches nothing. */
    method MatchKline(a: Ip, name: Option<string>) returns (r: Option<Conf>)
      requires Valid()
      ensures Head(a) < TABLE
      ensures r == LookKline(trees[Head(a)], a, name, matches)
    {
      hide TablesOk, TreeOk, Keys, Find, Has, Head, Covers, BitsIn, Entries, ItemFor, Shorter, Placeable, ItemsFit,
           ListFits, KlineVerdict;
      HeadInTable(a);
      var head := Head(a);
      TablesAt(trees[..], head);
      FitsFind(trees[head], a, oracle[head]);
      if !BitsIn(a, oracle[head]) {
        ghost var f := Find(trees[head], a);
        if f.Node? && name.Some? && KlineVerdict(f.conf, a, name.value, matches).Some? {
          VerdictFits(f.conf, a, name.value, matches, oracle[head]);
        }
        return None;
      }
      if trees[head].Leaf? {
        LeafFinds(a);
        return None;
      }
      var node := FindSubtree(trees[head], a);
      if node.Leaf? { return None; }
      if name.None? { return None; }
      r := RunRace(node.conf, a, name.value, matches);
    }

    /** The loop of match_ip_Kline over the items. */
    static method RunRace(c: seq<Conf>, a: Ip, name: string, matches: Matcher) returns (r: Option<Conf>)
      ensures r == KlineVerdict(c, a, name, matches)
    {
      hide ItemFor, Shorter;
      var winner: Option<Conf>, kline := None, false;
      var i := 0;
      assert c[0..] == c;
      while i < |c|
        invariant 0 <= i <= |c|
        invariant KlineVerdict(c, a, name, matches) == RaceFrom(Race(winner, kline), c[i..], a, name, matches)
      {
        var scan := c[i];
        assert c[i..][1..] == c[i + 1..];
        i := i + 1;
        if !ItemFor(scan, a) { continue; }
        if scan.exempt {
          if matches(scan.user, name) { return Some(scan); }
        }
        if scan.kill {
          if matches(scan.user, name) {
            winner, kline := Some(scan), true;
            continue;
          }
        }
        if scan.client {
          if matches(scan.user, name) {
            if !kline {
              if winner.Some? && Shorter(scan.mask, winner.value.mask) {
                continue;
              } else {
                winner := Some(scan);
              }
            }
          }
        }
      }
      return winner;
    }
  }

  /** What match_ip_Kline would answer without the oracle. */
  function LookKline(t: Tree, a: Ip, name: Option<string>, matches: Matcher): Option<Conf> {
    var f := Find(t, a);
    if f.Leaf? || name.None? then None else KlineVerdict(f.conf, a, name.value, matches)
  }

  /** It is the verdict on the one range that a linear scan finds. */
  lemma LookScansKlines(t: Tree, a: Ip, name: string, matches: Matcher)
    requires TreeOk(t)
    ensures (forall k <- Keys(t) :: !Covers(k, a)) ==> LookKline(t, a, Some(name), matches) == None
    ensures forall k, c :: Has(t, k, c) && Covers(k, a) ==>
      LookKline(t, a, Some(name), matches) == KlineVerdict(c, a, name, matches)
  {
    hide TreeOk, Keys, Find, Has, Covers, Entries, KlineVerdict;
    FindIs(t, a);
    HasKeys(t);
    if Find(t, a).Node? { OnlyFound(t, a); }
  }

  /** The items that a new node takes over. */
  function Inherited(c: Conf, eline: bool, cl: seq<Conf>): seq<Conf> {
    if c.user != "*" then cl else if eline then [] else KeepExempt(cl)
  }

  lemma InheritedFits(c: Conf, eline: bool, cl: seq<Conf>, o: Ip)
    requires ListFits(cl, o)
    ensures ListFits(Inherited(c, eline, cl), o)
  {
    hide EntryFits;
  }

  lemma OwnFits(c: Conf, o: Ip)
    ensures EntryFits(c, BitsOr(o, RangeBits(c.ip, c.mask)))
  {
    hide BitsIn, BitsOr, RangeBits, Masked;
    BitsInOwn(RangeBits(c.ip, c.mask), o);
  }

  lemma LeafFinds(a: Ip)
    ensures Find(Leaf, a).Leaf?
  {
  }

  /** All lists of the tree after a line was accepted. `f` is what the search for its address found. */
  ghost predicate NewLines(t: Tree, t': Tree, f: Tree, key: Key, c: Conf, eline: bool, toast: Ip -> bool,
      coin: Ip -> bool) {
    if f.Leaf? then
      && Keys(t') == Keys(Delete(t, key, [], coin).tree) + {key}
      && Has(t', key, [c] + Inherited(c, eline, Gathered(t, key)))
      && forall k, l :: Has(t', k, l) && k != key ==> Has(t, k, l) && !InScope(key, k)
    else
      && Keys(t') == Keys(t)
      && Has(t', f.key, [c] + if c.user == "*" then Trimmed(f.conf, eline, toast) else f.conf)
      && forall k, l :: k != f.key ==> (Has(t', k, l) <==> Has(t, k, l))
  }

  lemma NodeLines(t: Tree, c: Conf, eline: bool, toast: Ip -> bool, coin: Ip -> bool)
    requires TreeOk(t) && PrefixMask(c.mask) && Find(t, c.ip).Leaf?
    ensures var key := KeyOf(c);
      NewLines(t, Placed(t, key, [c] + Inherited(c, eline, Gathered(t, key)), coin), Find(t, c.ip), key, c, eline,
          toast, coin)
  {
    hide TreeOk, Keys, Find, Has, Covers, Less, Shorter, PrefixMask, InScope, Gathered, Placed, KeyOk, And,
        Inherited, Delete,
         Trimmed;
    var key := KeyOf(c);
    var clist := [c] + Inherited(c, eline, Gathered(t, key));
    MayPlace(t, c.ip, c.mask);
    PlacedAnywhere(t, c.ip, c.mask, [c], coin);
    PlacedOk(t, key, clist, coin);
    PlacedIs(t, key, clist, coin);
    InsertKeys(Delete(t, key, [], coin).tree, key, clist);
    HasKeys(Placed(t, key, clist, coin));
  }

  lemma ItemLines(t: Tree, c: Conf, eline: bool, toast: Ip -> bool, coin: Ip -> bool)
    requires TreeOk(t) && Find(t, c.ip).Node?
    ensures var f := Find(t, c.ip);
      var l := [c] + if c.user == "*" then Trimmed(f.conf, eline, toast) else f.conf;
      NewLines(t, Amend(t, c.ip, l), f, KeyOf(c), c, eline, toast, coin)
  {
    hide TreeOk, Keys, Find, Has, InScope, Gathered, And, Inherited, Delete, Amend, Trimmed, Entries;
    var f := Find(t, c.ip);
    var l := [c] + if c.user == "*" then Trimmed(f.conf, eline, toast) else f.conf;
    AmendKeys(t, c.ip, l);
    FindIs(t, c.ip);
    FoundHas(t, c.ip);
    forall k, x ensures Has(Amend(t, c.ip, l), k, x) <==> if k == f.key then x == l else Has(t, k, x) {
      AmendHas(t, c.ip, l, k, x);
    }
  }

  /** A line for 10.1.2.0/24 that is added after one for 10.1.2.0/25 goes into that node and does not
      reach 10.1.2.200. */
  lemma NarrowNode()
    ensures var key, c := Key(0x0a01_0200, 0xffff_ff80), Conf(0x0a01_0200, 0xffff_ff00, "*", false, true, false, 0);
      && KeyOk(key) && PrefixMask(c.mask) && Covers(key, c.ip)
      && Covers(KeyOf(c), 0x0a01_02c8) && !Covers(key, 0x0a01_02c8)
  {
  }

  predicate Overrules(e: Conf, c: Conf, kills: bool) {
    ((kills && e.kill) || e.exempt) && e.user == "*" && Less(e.mask, c.mask)
  }
}
