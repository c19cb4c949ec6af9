/** What K-lines and E-lines do to each other in one list (src/dline_conf.c): a line that is dropped for a
    more general one, lines that are taken out for a new one, and E-lines that go on to protect. */
module KlineCoverage {
  import opened Text
  import opened Chains
  import opened IpPrefixes
  import opened IpTrees
  import opened DlineTables
  import opened KlineTables

  /** A line for everybody with a shorter mask reaches all addresses of the other one if and only if it
      reaches the address that one was added with. */
  lemma RangeMet(e: Conf, c: Conf)
    requires PrefixMask(e.mask) && PrefixMask(c.mask) && Shorter(e.mask, c.mask)
    ensures (forall a: Ip :: Covers(KeyOf(c), a) ==> ItemFor(e, a)) <==> ItemFor(e, c.ip)
  {
    hide PrefixMask, Shorter, Matches, And;
    LineKey(c);
    if ItemFor(e, c.ip) {
      forall a: Ip | Covers(KeyOf(c), a) ensures ItemFor(e, a) { HeldBy(e.ip, e.mask, c.ip, c.mask, a); }
    }
  }

  /** The matcher of the server: a star is for everybody. */
  ghost predicate StarMatches(matches: Matcher) { forall name :: matches("*", name) }

  /** Everyone that line `c` is for is denied or exempt without it; for an E-line, exempt. */
  ghost predicate Superfluous(l: seq<Conf>, c: Conf, eline: bool, matches: Matcher) {
    forall a: Ip, name :: Covers(KeyOf(c), a) ==>
      var r := KlineVerdict(l, a, name, matches);
      r.Some? && (r.value.exempt || (!eline && r.value.kill))
  }

  /** A line that is dropped is superfluous when one that overrules it is for its address. */
  lemma DroppedMet(l: seq<Conf>, i: nat, c: Conf, eline: bool, matches: Matcher)
    requires i < |l| && Overrules(l[i], c, !eline) && PrefixMask(l[i].mask) && PrefixMask(c.mask)
    requires ItemFor(l[i], c.ip) && StarMatches(matches)
    ensures Superfluous(l, c, eline, matches)
  {
    hide PrefixMask, Shorter, Less, Covers, KeyOf, ItemFor, KlineVerdict;
    MaskOrder(l[i].mask, c.mask);
    MaskOrder(c.mask, l[i].mask);
    LessIsShorter(l[i].mask, c.mask);
    RangeMet(l[i], c);
    forall a: Ip, name | Covers(KeyOf(c), a)
      ensures var r := KlineVerdict(l, a, name, matches); r.Some? && (r.value.exempt || (!eline && r.value.kill))
    {
      assert matches("*", name);
      VerdictAtLeast(l, i, a, name, matches);
    }
  }

  lemma LessIsShorter(m: Ip, n: Ip)
    requires Less(m, n)
    ensures Shorter(m, n)
  {
  }

  /** A list with an E-line that fits exempts; one with a K-line that fits denies or exempts. */
  lemma VerdictAtLeast(l: seq<Conf>, i: nat, a: Ip, name: string, matches: Matcher)
    requires i < |l| && Fits(l[i], a, name, matches) && (l[i].exempt || l[i].kill)
    ensures var r := KlineVerdict(l, a, name, matches);
      r.Some? && (r.value.exempt || r.value.kill) && (l[i].exempt ==> r.value.exempt)
  {
    hide Fits, Less, Shorter, KlineVerdict;
    VerdictDecides(l, a, name, matches);
    assert EFits(l[i], a, name, matches) || KFits(l[i], a, name, matches);
  }

  // ----- a line that is dropped although nothing stands for it -----

  const FOO := Conf(0x0a01_0000, 0xffff_0000, "foo", false, true, false, 1)
  const ALL := Conf(0x0a01_0200, 0xffff_ff00, "*", false, true, false, 2)
  const BAR := Conf(0x0a01_0300, 0xffff_ff80, "bar", false, true, false, 3)

  const FOO_KEY := Key(0x0a01_0000, 0xffff_0000)
  const PLAINLY: Matcher := (u, n) => u == "*" || u == n
  const TOAST: Ip -> bool := m => Shorter(0xffff_ff00, m)

  /** After K-lines for foo at 10.1.0.0/16 and for all at 10.1.2.0/24, both in the node of the first, one for
      bar at 10.1.3.0/25 is dropped for the second, whose addresses are others: bar at 10.1.3.5 matches
      nothing, while with the line in the list it would be the answer. */
  method LostLine(coin: Ip -> bool) returns (r: Option<Conf>)
    ensures r == None && KlineVerdict([BAR, ALL, FOO], 0x0a01_0305, "bar", PLAINLY) == Some(BAR)
  {
    hide TablesOk, TreeOk, Keys, Find, Has, Head, Covers, Delete, Gathered, Inherited, Trimmed, Overrules, RangeBits,
         BitsOr, BitsIn, KeyOf, KlineVerdict, PrefixMask, FixMask, Placeable, ItemsFit, InScope, NewLines;
    LostMasks();
    LostHeads();
    LostVerdicts();
    var t := new KlineTable(PLAINLY);
    TablesSize(t.trees[..]);
    ghost var none := t.trees[10];
    EmptyTree(none, FOO.ip);
    t.AddLine(FOO, false, TOAST, coin);
    ghost var one := t.trees[10];
    TablesAt(t.trees[..], 10);
    FirstLine(none, one, coin);
    OneRange(one, [FOO], ALL.ip);
    NotOverruled();
    t.AddLine(ALL, false, TOAST, coin);
    ghost var two := t.trees[10];
    TablesAt(t.trees[..], 10);
    SecondLine(one, two, coin);
    OneRange(two, [ALL, FOO], BAR.ip);
    OneRange(two, [ALL, FOO], 0x0a01_0305);
    t.AddLine(BAR, false, TOAST, coin);
    r := t.MatchKline(0x0a01_0305, Some("bar"));
  }

  lemma LostMasks()
    ensures PrefixMask(FOO.mask) && PrefixMask(ALL.mask) && PrefixMask(BAR.mask)
    ensures FixMask(FOO.mask) == FOO.mask && FixMask(ALL.mask) == ALL.mask && FixMask(BAR.mask) == BAR.mask
    ensures KeyOf(FOO) == FOO_KEY && Covers(FOO_KEY, ALL.ip) && Covers(FOO_KEY, BAR.ip) && Covers(FOO_KEY, 0x0a01_0305)
  {
  }

  lemma LostHeads()
    ensures Head(FOO.ip) == Head(ALL.ip) == Head(BAR.ip) == Head(0x0a01_0305) == 10
  {
  }

  lemma NotOverruled()
    ensures forall i :: 0 <= i < 1 ==> !Overrules([FOO][i], ALL, true)
    ensures Overrules([ALL, FOO][0], BAR, true)
  {
  }

  lemma FirstLine(t: Tree, t': Tree, coin: Ip -> bool)
    requires Keys(t) == {} && Find(t, FOO.ip).Leaf?
    requires NewLines(t, t', Find(t, FOO.ip), FOO_KEY, FOO, false, TOAST, coin)
    ensures Keys(t') == {FOO_KEY} && Has(t', FOO_KEY, [FOO])
  {
    hide Has;
    assert t.Leaf?;
    assert [FOO] + [] == [FOO];
  }

  lemma SecondLine(t: Tree, t': Tree, coin: Ip -> bool)
    requires Keys(t) == {FOO_KEY} && Find(t, ALL.ip).Node? && Find(t, ALL.ip).key == FOO_KEY
    requires Find(t, ALL.ip).conf == [FOO]
    requires NewLines(t, t', Find(t, ALL.ip), KeyOf(ALL), ALL, false, TOAST, coin)
    ensures Keys(t') == {FOO_KEY} && Has(t', FOO_KEY, [ALL, FOO])
  {
    hide Has, Keys, Find;
    assert [FOO][1..] == [];
    assert Trimmed([FOO], false, TOAST) == [FOO];
    assert [ALL] + [FOO] == [ALL, FOO];
  }

  lemma OneRange(t: Tree, conf: seq<Conf>, a: Ip)
    requires TreeOk(t) && Keys(t) == {FOO_KEY} && Has(t, FOO_KEY, conf) && Covers(FOO_KEY, a)
    ensures Find(t, a).Node? && Find(t, a).key == FOO_KEY && Find(t, a).conf == conf
  {
    hide TreeOk, Keys, Find, Has, Covers;
    FindIs(t, a);
    OnlyFound(t, a);
  }

  lemma LostVerdicts()
    ensures KlineVerdict([ALL, FOO], 0x0a01_0305, "bar", PLAINLY) == None
    ensures KlineVerdict([BAR, ALL, FOO], 0x0a01_0305, "bar", PLAINLY) == Some(BAR)
  {
    LostItems();
    var none, won := Race(None, false), Race(Some(BAR), true);
    LostTurns(none);
    LostTurns(won);
    assert Turn(none, BAR, 0x0a01_0305, "bar", PLAINLY) == Go(won);
    hide Turn;
    RaceOn(none, BAR, [ALL, FOO]);
    assert [BAR] + [ALL, FOO] == [BAR, ALL, FOO];
  }

  /** The two other lines leave the race as it is. */
  lemma LostTurns(r: Race)
    ensures RaceFrom(r, [ALL, FOO], 0x0a01_0305, "bar", PLAINLY) == r.winner
  {
    LostItems();
    assert Turn(r, ALL, 0x0a01_0305, "bar", PLAINLY) == Turn(r, FOO, 0x0a01_0305, "bar", PLAINLY) == Go(r);
    hide Turn;
    RaceOn(r, ALL, [FOO]);
    RaceOn(r, FOO, []);
    assert [ALL] + [FOO] == [ALL, FOO] && [FOO] + [] == [FOO];
  }

  lemma RaceOn(r: Race, e: Conf, rest: seq<Conf>)
    ensures var s := Turn(r, e, 0x0a01_0305, "bar", PLAINLY);
      RaceFrom(r, [e] + rest, 0x0a01_0305, "bar", PLAINLY)
      == if s.Stop? then Some(s.c) else RaceFrom(s.race, rest, 0x0a01_0305, "bar", PLAINLY)
    ensures RaceFrom(r, [], 0x0a01_0305, "bar", PLAINLY) == r.winner
  {
    hide Turn;
    assert ([e] + rest)[1..] == rest;
  }

  lemma LostItems()
    ensures !ItemFor(ALL, 0x0a01_0305) && ItemFor(FOO, 0x0a01_0305) && ItemFor(BAR, 0x0a01_0305)
  {
  }

  // ----- what stays in a list -----

  /** The lines that a new one for everybody leaves in the list it joins: those with masks that are not to go,
      and E-lines, unless it is an E-line itself. */
  function StaysBeside(eline: bool, toast: Ip -> bool): Conf -> bool {
    (e: Conf) => (e.exempt && !eline) || !toast(e.mask)
  }

  lemma {:induction false} TrimmedIs(l: seq<Conf>, eline: bool, toast: Ip -> bool)
    ensures Selection(l, Trimmed(l, eline, toast), StaysBeside(eline, toast))
  {
    hide Selection;
    if l == [] {
      SelectNone(StaysBeside(eline, toast));
    } else {
      TrimmedIs(l[1..], eline, toast);
      SelectCons(l[0], l[1..], Trimmed(l[1..], eline, toast), StaysBeside(eline, toast));
      assert l == [l[0]] + l[1..];
    }
  }

  /** What a new range takes over of the ranges it replaces: all their lines, in order; of an E-line for
      everybody none, and of a K-line for everybody the E-lines. */
  lemma InheritedIs(c: Conf, eline: bool, t: Tree) returns (ks: seq<Key>)
    requires TreeOk(t)
    ensures ScopeList(t, KeyOf(c), ks)
    ensures var all, r := Lists(Entries(t), ks), Inherited(c, eline, Gathered(t, KeyOf(c)));
      if c.user != "*" then r == all else if eline then r == [] else ExemptPart(all, r)
  {
    hide TreeOk, Entries, Selection, KeyOf, Gathered;
    ks := GatheredIs(t, KeyOf(c));
    KeepExemptPicks(Gathered(t, KeyOf(c)));
  }

  // ----- E-lines -----

  /** After a K-line is added, every E-line of the ranges that it replaces, or of the list that it joins, goes
      on to exempt whom it did, in the range that they are looked up in now. */
  lemma ExemptStays(t: Tree, t': Tree, c: Conf, toast: Ip -> bool, coin: Ip -> bool, k: Key, l: seq<Conf>, e: Conf,
      a: Ip,
                    name: string, matches: Matcher)
    requires TreeOk(t) && TreeOk(t') && NewLines(t, t', Find(t, c.ip), KeyOf(c), c, false, toast, coin)
    requires Has(t, k, l) && e in l && e.exempt && Fits(e, a, name, matches)
    requires if Find(t, c.ip).Leaf? then InScope(KeyOf(c), k) && Covers(KeyOf(c), a)
             else k == Find(t, c.ip).key && Covers(k, a)
    ensures var r := LookKline(t', a, Some(name), matches); r.Some? && r.value.exempt
  {
    hide TreeOk, Keys, Find, Has, Covers, Entries, InScope, Gathered, Inherited, Trimmed, Delete, KlineVerdict, Fits,
        KeyOf;
    var f := Find(t, c.ip);
    var l': seq<Conf>;
    var k': Key;
    if f.Leaf? {
      k', l' := KeyOf(c), [c] + Inherited(c, false, Gathered(t, KeyOf(c)));
      ScopeKept(t, KeyOf(c), k, l, e, c);
    } else {
      k', l' := f.key, [c] + if c.user == "*" then Trimmed(f.conf, false, toast) else f.conf;
      FoundHas(t, c.ip);
      SameList(t, k, l, f.conf);
      assert e in Trimmed(f.conf, false, toast);
    }
    assert Has(t', k', l') && Covers(k', a) && e in l';
    LookScansKlines(t', a, name, matches);
    var i :| 0 <= i < |l'| && l'[i] == e;
    VerdictAtLeast(l', i, a, name, matches);
  }

  lemma SameList(t: Tree, k: Key, c: seq<Conf>, d: seq<Conf>)
    requires Has(t, k, c) && Has(t, k, d)
    ensures c == d
  {
  }

  lemma ScopeKept(t: Tree, s: Key, k: Key, l: seq<Conf>, e: Conf, c: Conf)
    requires TreeOk(t) && Has(t, k, l) && InScope(s, k) && e in l && e.exempt
    ensures e in Inherited(c, false, Gathered(t, s))
  {
    hide TreeOk, InScope, Entries, Keys, Gathered, Lists, KeepExempt, Selection;
    var ks := GatheredIs(t, s);
    var all := Gathered(t, s);
    ListsHas(Entries(t), ks, e);
    assert k in ks && e in Entries(t)[k];
    KeepExemptPicks(all);
    SelectedIs(all, KeepExempt(all), IsExempt(), e);
  }
}
