/** The D-line table and the table of I, K and E-lines by address (src/dline_conf.c): 256
    trees each, with an oracle word per tree that lets most look-ups stop early. */
module DlineTables {
  import opened Text
  import opened Chains
  import opened IpPrefixes
  import opened IpTrees

  const TABLE := 256

  /** Each tree is in order. */
  ghost predicate TablesOk(ts: seq<Tree>) { |ts| == TABLE && forall h :: 0 <= h < TABLE ==> TreeOk(ts[h]) }

  lemma TablesPut(ts: seq<Tree>, h: nat, t: Tree)
    requires TablesOk(ts) && h < TABLE && TreeOk(t)
    ensures TablesOk(ts[h := t])
  {
    hide TreeOk;
  }

  lemma TablesAt(ts: seq<Tree>, h: nat)
    requires TablesOk(ts) && h < TABLE
    ensures h < |ts| && TreeOk(ts[h])
  {
  }

  // ----- the oracle -----

  /** The oracle says yes to all addresses with head `h` in the ranges of the tree: to the last one
      of each range, for a range that has such an address. */
  ghost predicate OracleFits(t: Tree, o: Ip, h: nat) {
    forall k <- Keys(t), a: Ip :: Covers(k, a) && Head(a) == h ==> BitsIn(LastFor(k.mask, a), o)
  }

  /** The oracle fits if and only if it never says no to an address that a range of the tree holds. */
  lemma OracleFitsIs(t: Tree, o: Ip, h: nat)
    ensures OracleFits(t, o, h) <==> forall k <- Keys(t), a: Ip :: Covers(k, a) && Head(a) == h ==> BitsIn(a, o)
  {
    hide Covers, BitsIn, Head, TopOf, LastFor, Keys;
    if OracleFits(t, o, h) {
      forall k, a: Ip | k in Keys(t) && Covers(k, a) && Head(a) == h ensures BitsIn(a, o) {
        LastHolds(k, a, a);
        BitsInChain(a, LastFor(k.mask, a), o);
      }
    } else {
      var k, a: Ip :| k in Keys(t) && Covers(k, a) && Head(a) == h && !BitsIn(LastFor(k.mask, a), o);
      LastCovered(k, a);
      SameTop(a, LastFor(k.mask, a));
    }
  }

  /** A masked address is added: the oracle goes on to fit. */
  lemma OracleGrows(t: Tree, t': Tree, o: Ip, h: nat, ip: Ip, mask: Ip)
    requires OracleFits(t, o, h) && Matches(ip, mask, ip)
    requires forall k <- Keys(t') :: k in Keys(t) || k == Key(ip, mask)
    ensures OracleFits(t', BitsOr(o, RangeBits(ip, mask)), h)
  {
    hide Covers, BitsIn, Head, TopOf, LastFor, RangeBits, BitsOr, Keys;
    var bits := RangeBits(ip, mask);
    forall k, a: Ip | k in Keys(t') && Covers(k, a) && Head(a) == h
      ensures BitsIn(LastFor(k.mask, a), BitsOr(o, bits))
    {
      if k in Keys(t) {
        BitsInOr(LastFor(k.mask, a), o, bits);
      } else {
        LastCovered(k, a);
        MaskedCover(ip, mask, LastFor(k.mask, a));
        BitsInOwn(bits, o);
        BitsInChain(LastFor(k.mask, a), bits, BitsOr(o, bits));
      }
    }
  }

  lemma MaskedCover(ip: Ip, mask: Ip, a: Ip)
    requires Matches(ip, mask, ip) && Covers(Key(ip, mask), a)
    ensures BitsIn(a, RangeBits(ip, mask))
  {
    hide Matches, BitsIn, RangeBits;
    CoverBits(ip, mask, a);
  }

  /** Masked addresses are what the oracle needs: the bits added for a range say yes to
      all its addresses if and only if its address has no bit outside the mask. */
  lemma OracleNeedsMaskedAddress(ip: Ip, mask: Ip)
    requires PrefixMask(mask)
    ensures (forall a: Ip :: Matches(And(ip, mask), mask, a) ==> BitsIn(a, RangeBits(ip, mask)))
        <==> Matches(ip, mask, ip)
  {
    hide RangeBits, BitsIn, PrefixMask;
    MatchesIs(ip, mask, ip);
    if Matches(ip, mask, ip) {
      forall a: Ip | Matches(And(ip, mask), mask, a) ensures BitsIn(a, RangeBits(ip, mask)) { CoverBits(ip, mask, a); }
    } else {
      LastAddress(ip, mask);
      if BitsIn(And(ip, mask) | !mask, RangeBits(ip, mask)) { LastAddressMissed(ip, mask); }
    }
  }

  lemma LastAddress(ip: Ip, mask: Ip)
    ensures Matches(And(ip, mask), mask, And(ip, mask) | !mask)
  {
  }

  lemma LastAddressMissed(ip: Ip, mask: Ip)
    requires PrefixMask(mask) && BitsIn(And(ip, mask) | !mask, RangeBits(ip, mask))
    ensures Matches(ip, mask, ip)
  {
    hide Sum, Inverse, PrefixMask, BitsIn, Matches, And;
    HostBits(And(ip, mask), mask, RangeBits(ip, mask));
    NotMask(mask);
    SumHostBits(ip, mask);
    NoHostBits(ip, mask);
  }

  lemma HostBits(x: Ip, mask: Ip, s: Ip)
    requires BitsIn(x | !mask, s)
    ensures s & !mask == !mask
  {
  }

  lemma SumHostBits(ip: Ip, mask: Ip)
    requires PrefixMask(mask) && Sum(!mask, ip) & !mask == !mask
    ensures ip & !mask == 0
  {
  }

  lemma NoHostBits(ip: Ip, mask: Ip)
    requires ip & !mask == 0
    ensures Matches(ip, mask, ip)
  {
  }

  // ----- items -----

  /** trim_Dlines, and trim_ip_Klines with mask 0: only the exceptions stay. */
  function KeepExempt(cl: seq<Conf>): (r: seq<Conf>)
    ensures AllExempt(r) && forall e <- r :: e in cl
  {
    if cl == [] then [] else (if cl[0].exempt then [cl[0]] else []) + KeepExempt(cl[1..])
  }

  function IsExempt(): Conf -> bool { (e: Conf) => e.exempt }

  /** `r` are the exceptions of `l`, in order and as often. */
  ghost predicate ExemptPart(l: seq<Conf>, r: seq<Conf>) { Selection(l, r, IsExempt()) }

  lemma {:induction false} KeepExemptPicks(cl: seq<Conf>)
    ensures ExemptPart(cl, KeepExempt(cl))
  {
    hide Selection;
    if cl == [] {
      SelectNone(IsExempt());
    } else {
      KeepExemptPicks(cl[1..]);
      SelectCons(cl[0], cl[1..], KeepExempt(cl[1..]), IsExempt());
      assert cl == [cl[0]] + cl[1..];
    }
  }

  predicate AllExempt(cl: seq<Conf>) { forall e <- cl :: e.exempt }

  /** The items of a D-line: itself first, exceptions behind it. */
  predicate DlistOk(k: Key, c: seq<Conf>) {
    c != [] && !c[0].exempt && And(c[0].ip, c[0].mask) == k.ip && c[0].mask == k.mask && AllExempt(c[1..])
  }

  /** Item `e` is for address `a`. */
  predicate ItemFor(e: Conf, a: Ip) { Matches(e.ip, e.mask, a) }

  /** The first exception for the address, or else the D-line. */
  function DlineVerdict(c: seq<Conf>, a: Ip): Conf
    requires c != []
  {
    var i := FirstException(c, a);
    if i < |c| then c[i] else c[0]
  }

  function FirstException(c: seq<Conf>, a: Ip): (i: nat)
    ensures i <= |c|
    ensures i < |c| ==> c[i].exempt && ItemFor(c[i], a)
    ensures forall j :: 0 <= j < i ==> !(c[j].exempt && ItemFor(c[j], a))
  {
    if c == [] || (c[0].exempt && ItemFor(c[0], a)) then 0 else 1 + FirstException(c[1..], a)
  }

  lemma FirstExceptionAt(c: seq<Conf>, a: Ip, i: nat)
    requires i < |c| && c[i].exempt && ItemFor(c[i], a)
    requires forall j :: 0 <= j < i ==> !(c[j].exempt && ItemFor(c[j], a))
    ensures FirstException(c, a) == i
  {
    hide ItemFor;
  }

  ghost predicate DlinesOk(ts: seq<Tree>) {
    forall h, k, c :: 0 <= h < |ts| && Has(ts[h], k, c) ==> DlistOk(k, c)
  }

  function Between(c: seq<Conf>, p: seq<Conf>): seq<Conf>
    requires c != []
  {
    [c[0]] + p + c[1..]
  }

  /** The exceptions of `s` that belong to range `k` of the tree with head `h`. */
  function ExemptFor(s: seq<Conf>, h: nat, k: Key): (r: seq<Conf>)
    ensures AllExempt(r)
  {
    if s == [] then []
    else (if Head(s[0].ip) == h && Covers(k, s[0].ip) then [s[0].(exempt := true)] else []) + ExemptFor(s[1..], h, k)
  }

  /** The ranges of `t`, each with exactly its exceptions of `s` put right behind the D-line. */
  ghost predicate Given(t': Tree, t: Tree, s: seq<Conf>, h: nat) {
    && Keys(t') == Keys(t)
    && forall k, c :: Has(t, k, c) && c != [] ==> Has(t', k, Between(c, ExemptFor(s, h, k)))
  }

  lemma GivenNone(t: Tree, s: seq<Conf>, h: nat)
    requires forall k <- Keys(t) :: ExemptFor(s, h, k) == []
    ensures Given(t, t, s, h)
  {
    hide Entries, Keys;
    forall k, c | Has(t, k, c) && c != [] ensures Has(t, k, Between(c, ExemptFor(s, h, k))) {
      assert Between(c, []) == c;
    }
  }

  lemma BetweenTwice(c: seq<Conf>, p: seq<Conf>, q: seq<Conf>)
    requires c != []
    ensures Between(Between(c, p), q) == Between(c, q + p)
  {
  }

  lemma ExemptOne(e: Conf, s: seq<Conf>, h: nat, k: Key)
    ensures ExemptFor([e] + s, h, k) == ExemptFor([e], h, k) + ExemptFor(s, h, k)
  {
    hide Head, Covers;
    assert ([e] + s)[1..] == s && [e][1..] == [];
  }

  lemma GivenThen(a: Tree, b: Tree, c: Tree, e: Conf, s: seq<Conf>, h: nat)
    requires Given(a, b, [e], h) && Given(b, c, s, h)
    ensures Given(a, c, [e] + s, h)
  {
    hide Has, ExemptFor;
    forall k, x | Has(c, k, x) && x != [] ensures Has(a, k, Between(x, ExemptFor([e] + s, h, k))) {
      assert Has(b, k, Between(x, ExemptFor(s, h, k)));
      BetweenTwice(x, ExemptFor(s, h, k), ExemptFor([e], h, k));
      ExemptOne(e, s, h, k);
    }
  }

  lemma ExemptAt(e: Conf, h: nat, k: Key)
    ensures ExemptFor([e], h, k) == if Head(e.ip) == h && Covers(k, e.ip) then [e.(exempt := true)] else []
  {
    hide Head, Covers;
    assert [e][1..] == [];
  }

  /** add_dline puts one exception behind the D-line found. */
  lemma AmendGiven(t: Tree, e: Conf)
    requires TreeOk(t) && Find(t, e.ip).Node?
    ensures Find(t, e.ip).conf != []
    ensures var t' := Amend(t, e.ip, Between(Find(t, e.ip).conf, [e.(exempt := true)]));
      TreeOk(t') && Given(t', t, [e], Head(e.ip))
  {
    hide TreeOk, Keys, Entries, Amend, Find, Covers, Has, Head, ExemptFor;
    FindIs(t, e.ip);
    var f := Find(t, e.ip);
    var more := Between(f.conf, [e.(exempt := true)]);
    AmendOk(t, e.ip, more);
    AmendKeys(t, e.ip, more);
    FoundHas(t, e.ip);
    forall k, c | Has(t, k, c) && c != []
      ensures Has(Amend(t, e.ip, more), k, Between(c, ExemptFor([e], Head(e.ip), k)))
    {
      ExemptAt(e, Head(e.ip), k);
      HasKey(t, k, c);
      if k == f.key {
        OneList(t, k, c, f.conf);
        AmendHas(t, e.ip, more, k, more);
      } else {
        AmendHas(t, e.ip, more, k, c);
        assert Between(c, []) == c;
      }
    }
  }

  lemma FoundHas(t: Tree, a: Ip)
    requires TreeOk(t) && Find(t, a).Node?
    ensures Has(t, Find(t, a).key, Find(t, a).conf)
  {
    hide TreeOk, Covers;
    FindIs(t, a);
  }

  lemma OneList(t: Tree, k: Key, c: seq<Conf>, d: seq<Conf>)
    requires Has(t, k, c) && Has(t, k, d)
    ensures c == d
  {
  }

  lemma DlistGiven(t': Tree, t: Tree, s: seq<Conf>, h: nat)
    requires Given(t', t, s, h) && forall k, c :: Has(t, k, c) ==> DlistOk(k, c)
    ensures forall k, c :: Has(t', k, c) ==> DlistOk(k, c)
  {
    hide Keys, Entries, ExemptFor;
    forall k, c | Has(t', k, c) ensures DlistOk(k, c) {
      var c0 := Entries(t)[k];
      assert Has(t, k, c0);
      var p := ExemptFor(s, h, k);
      assert c == Between(c0, p);
      assert c[1..] == p + c0[1..];
    }
  }

  /** Where the ranges of one tree stay the same, every address is found as before. */
  lemma SameFinds(t: Tree, t': Tree, a: Ip)
    requires TreeOk(t) && TreeOk(t') && Keys(t) == Keys(t')
    ensures Find(t, a).Node? == Find(t', a).Node? && (Find(t, a).Node? ==> Find(t, a).key == Find(t', a).key)
  {
    hide TreeOk, Keys, Covers;
    FindIs(t, a);
    FindIs(t', a);
  }

  // ----- one new range in a tree -----

  /** The tree after the narrower ranges are deleted and the new one is inserted. */
  function Placed(t: Tree, key: Key, conf: seq<Conf>, coin: Ip -> bool): Tree {
    Insert(Delete(t, key, [], coin).tree, key, conf)
  }

  lemma PlacedOk(t: Tree, key: Key, conf: seq<Conf>, coin: Ip -> bool)
    requires TreeOk(t) && KeyOk(key) && conf != []
    requires forall k <- Keys(t) :: Covers(k, key.ip) ==> Less(key.mask, k.mask)
    ensures var t' := Placed(t, key, conf, coin);
      && TreeOk(t') && Has(t', key, conf)
      && (forall k <- Keys(t') :: k == key || (k in Keys(t) && !InScope(key, k)))
      && (forall k, c :: Has(t', k, c) ==> (k == key && c == conf) || Has(t, k, c))
      && Delete(t, key, [], coin).clist == Gathered(t, key)
  {
    hide Less, Covers, KeyOk, TreeOk, Entries, Keys, Has, Apart, InScope, Delete, Insert, PartOf, Gathered;
    var d := Delete(t, key, [], coin);
    DeleteOk(t, key, [], coin);
    assert Gathered(t, key) + [] == Gathered(t, key);
    ScopeApart(t, key, coin);
    InsertOk(d.tree, key, conf);
    InsertKeys(d.tree, key, conf);
    PartKeys(d.tree, t);
    forall k, c ensures Has(Placed(t, key, conf, coin), k, c) <==> (k == key && c == conf) || Has(d.tree, k, c) {
      InsertHas(d.tree, key, conf, k, c);
    }
    forall k, c | Has(d.tree, k, c) ensures Has(t, k, c) { PartHas(d.tree, t, k, c); }
  }

  lemma PartHas(t': Tree, t: Tree, k: Key, c: seq<Conf>)
    requires PartOf(t', t) && Has(t', k, c)
    ensures Has(t, k, c)
  {
    hide Entries, Keys;
  }

  /** Where the search finds no range that is as broad, none that is as broad meets the new one. */
  lemma MayPlace(t: Tree, ip: Ip, mask: Ip)
    requires TreeOk(t) && PrefixMask(mask) && !(Find(t, ip).Node? && Shorter(Find(t, ip).key.mask, mask))
    ensures forall k <- Keys(t) :: Covers(k, And(ip, mask)) ==> Less(mask, k.mask)
  {
    hide TreeOk, Less, Shorter, PrefixMask, And, Matches, Find;
    FindIs(t, ip);
    KeysOk(t);
    forall k | k in Keys(t) && Covers(k, And(ip, mask)) ensures Less(mask, k.mask) {
      ShorterIs(k.mask, mask);
      if Shorter(k.mask, mask) { HostBitsFree(k.ip, k.mask, ip, mask); }
    }
  }

  /** Any address, masked or not, may be placed: the tree stays in order, with its ranges apart. */
  lemma PlacedAnywhere(t: Tree, ip: Ip, mask: Ip, conf: seq<Conf>, coin: Ip -> bool)
    requires TreeOk(t) && PrefixMask(mask) && conf != [] && !(Find(t, ip).Node? && Shorter(Find(t, ip).key.mask, mask))
    ensures TreeOk(Placed(t, Key(And(ip, mask), mask), conf, coin))
    ensures KeyOk(Key(And(ip, mask), mask)) && Covers(Key(And(ip, mask), mask), ip)
  {
    hide TreeOk, Less, Shorter, PrefixMask, And, Matches, Find, Placed;
    MaskedOnce(ip, mask);
    MayPlace(t, ip, mask);
    PlacedOk(t, Key(And(ip, mask), mask), conf, coin);
  }

  /** ip_mask 0 stands for a single address. */
  function FixMask(mask: Ip): Ip { if mask == 0 then 0xffff_ffff else mask }

  function KeyOf(c: Conf): Key { Key(And(c.ip, c.mask), c.mask) }

  /** The address has no bits outside its mask. Configuration lines and the commands DLINE and KLINE
      with an address are not checked for that, and DLINE with a nickname passes the user's address. */
  predicate Masked(c: Conf) { Matches(c.ip, c.mask, c.ip) }

  lemma MaskedKey(c: Conf)
    requires Masked(c)
    ensures KeyOf(c) == Key(c.ip, c.mask)
  {
    hide Matches, And;
    MatchesIs(c.ip, c.mask, c.ip);
  }

  // ----- D-lines -----

  /** Some exception that has no D-line yet is for `a` (find_exception). */
  predicate Excepted(leftover: seq<Conf>, a: Ip) { exists i :: 0 <= i < |leftover| && ItemFor(leftover[i], a) }

  /** The exceptions of a list that no D-line of the table holds. */
  function Unplaced(s: seq<Conf>, ts: seq<Tree>): seq<Conf>
    requires |ts| == TABLE
  {
    if s == [] then []
    else
      HeadInTable(s[0].ip);
      (if Find(ts[Head(s[0].ip)], s[0].ip).Node? then [] else [s[0]]) + Unplaced(s[1..], ts)
  }

  lemma {:induction false} UnplacedSame(s: seq<Conf>, ts: seq<Tree>, ts': seq<Tree>)
    requires |ts| == |ts'| == TABLE
    requires forall h :: 0 <= h < TABLE ==> TreeOk(ts[h]) && TreeOk(ts'[h]) && Keys(ts[h]) == Keys(ts'[h])
    ensures Unplaced(s, ts) == Unplaced(s, ts')
  {
    hide TreeOk, Keys, Find, Head;
    if s != [] {
      HeadInTable(s[0].ip);
      SameFinds(ts[Head(s[0].ip)], ts'[Head(s[0].ip)], s[0].ip);
      UnplacedSame(s[1..], ts, ts');
    }
  }

  ghost predicate AllGiven(ts': seq<Tree>, ts: seq<Tree>, s: seq<Conf>) {
    |ts'| == |ts| && forall h: nat :: h < |ts| ==> Given(ts'[h], ts[h], s, h)
  }

  lemma AllGivenThen(a: seq<Tree>, b: seq<Tree>, c: seq<Tree>, s: seq<Conf>)
    requires s != [] && AllGiven(a, b, [s[0]]) && AllGiven(b, c, s[1..])
    ensures AllGiven(a, c, s)
  {
    hide Given;
    forall h: nat | h < |c| ensures Given(a[h], c[h], s, h) {
      assert s == [s[0]] + s[1..];
      GivenThen(a[h], b[h], c[h], s[0], s[1..], h);
    }
  }

  lemma AllGivenNone(ts: seq<Tree>)
    ensures AllGiven(ts, ts, [])
  {
    hide Given;
    forall h: nat | h < |ts| ensures Given(ts[h], ts[h], [], h) { GivenNone(ts[h], [], h); }
  }

  lemma GivenTables(ts': seq<Tree>, ts: seq<Tree>, s: seq<Conf>)
    requires TablesOk(ts) && TablesOk(ts') && AllGiven(ts', ts, s) && DlinesOk(ts)
    ensures DlinesOk(ts')
    ensures forall h :: 0 <= h < TABLE ==> TreeOk(ts[h]) && TreeOk(ts'[h]) && Keys(ts'[h]) == Keys(ts[h])
  {
    hide TreeOk, Has, DlistOk, ExemptFor;
    forall h: nat, k, c | h < |ts'| && Has(ts'[h], k, c) ensures DlistOk(k, c) { DlistGiven(ts'[h], ts[h], s, h); }
  }

  /** What match_Dline would answer without the oracle. */
  function LookDline(t: Tree, a: Ip): Option<Conf> {
    var c := Find(t, a);
    if c.Leaf? || c.conf == [] then None
    else
      var i := FirstException(c.conf, a);
      if i < |c.conf| then Some(c.conf[i])
      else if And(c.conf[0].ip, c.conf[0].mask) == And(a, c.conf[0].mask) then Some(c.conf[0])
      else None
  }

  /** It is what a linear scan over the ranges of the tree says. */
  lemma LookScans(t: Tree, a: Ip)
    requires TreeOk(t) && forall k, c :: Has(t, k, c) ==> DlistOk(k, c)
    ensures (forall k <- Keys(t) :: !Covers(k, a)) ==> LookDline(t, a) == None
    ensures forall k, c :: Has(t, k, c) && Covers(k, a) ==> c != [] && LookDline(t, a) == Some(DlineVerdict(c, a))
    ensures LookDline(t, a) == None ==> forall k <- Keys(t) :: !Covers(k, a)
  {
    hide TreeOk, Keys, Find, Has, Covers, ItemFor, FirstException, Entries, And;
    FindIs(t, a);
    HasKeys(t);
    var f := Find(t, a);
    if f.Node? {
      FoundHas(t, a);
      OnlyFound(t, a);
      OwnRange(f.key, f.conf[0], a);
    }
  }

  /** The look-up with the oracle is the one without it, for all addresses with head `h`, if and
      only if the oracle has all bits of the last such address of every range. */
  lemma OracleExact(t: Tree, o: Ip, h: nat)
    requires TreeOk(t) && forall k, c :: Has(t, k, c) ==> DlistOk(k, c)
    ensures OracleFits(t, o, h)
       <==> forall a: Ip :: Head(a) == h ==> (if BitsIn(a, o) then LookDline(t, a) else None) == LookDline(t, a)
  {
    hide TreeOk, Keys, Has, Covers, Head, BitsIn, LookDline, OracleFits, DlistOk;
    OracleFitsIs(t, o, h);
    forall a: Ip ensures LookDline(t, a) == None <==> forall k <- Keys(t) :: !Covers(k, a) { LookScans(t, a); }
  }

  /** DLINE with the nickname of a user at 10.1.2.3: the range 10.1.2.0/24 is added, and the oracle
      says no to that very address. */
  lemma NickMissed()
    ensures var c := Conf(0x0a01_0203, 0xffff_ff00, "*", false, false, false, 0);
      && PrefixMask(c.mask) && Covers(KeyOf(c), c.ip) && !Masked(c)
      && !BitsIn(c.ip, BitsOr(0, RangeBits(c.ip, c.mask)))
  {
  }

  /** The same on a table: after that DLINE the user does not match. */
  method NickDline(coin: Ip -> bool) returns (r: Option<Conf>)
    ensures r == None
  {
    hide TablesOk, DlinesOk, OracleFits, PrefixMask, Find, BitsIn, RangeBits, Head, LookDline;
    var c := Conf(0x0a01_0203, 0xffff_ff00, "*", false, false, false, 0);
    var t := new DlineTable();
    NickMissed();
    NickMask();
    HeadInTable(c.ip);
    TablesSize(t.trees[..]);
    EmptyTree(t.trees[Head(c.ip)], c.ip);
    t.AddDline(c, coin);
    r := t.MatchDline(c.ip);
  }

  lemma NickMask()
    ensures FixMask(0xffff_ff00) == 0xffff_ff00
  {
  }

  lemma EmptyTree(t: Tree, a: Ip)
    requires Keys(t) == {}
    ensures Find(t, a).Leaf?
  {
  }

  /** Whether any range of the whole table holds the address. */
  ghost predicate InSome(ts: seq<Tree>, a: Ip) { exists h, k :: 0 <= h < |ts| && k in Keys(ts[h]) && Covers(k, a) }

  /** Each range has an address of its tree's head. */
  ghost predicate Placeable(ts: seq<Tree>) {
    forall h, k :: 0 <= h < |ts| && k in Keys(ts[h]) ==> exists a: Ip :: Covers(k, a) && Head(a) == h
  }

  /** The look-up goes to one tree. It finds what a scan of the whole table would find, when the masks
      are eight bits or longer; OneHead says that a shorter mask has addresses with other heads. */
  lemma WholeTable(ts: seq<Tree>, a: Ip)
    requires TablesOk(ts) && Placeable(ts) && forall h, k :: 0 <= h < TABLE && k in Keys(ts[h]) ==> Long(k.mask)
    ensures Head(a) < TABLE && (InSome(ts, a) <==> Find(ts[Head(a)], a).Node?)
  {
    hide TreeOk, Keys, Covers, Find, Head, Long;
    HeadInTable(a);
    TablesAt(ts, Head(a));
    FindIs(ts[Head(a)], a);
    if InSome(ts, a) {
      var h, k :| 0 <= h < |ts| && k in Keys(ts[h]) && Covers(k, a);
      var b: Ip :| Covers(k, b) && Head(b) == h;
      TablesAt(ts, h);
      KeysOk(ts[h]);
      OneHead(k);
      assert Head(a) == h;
    }
  }

  class DlineTable {
    const trees: array<Tree>
    const oracle: array<Ip>
    var leftover: seq<Conf>
    /** The heads under which an address was added that was not masked. */
    ghost var unmasked: set<nat>

    ghost predicate Valid()
      reads this, trees, oracle
    {
      && trees as object != oracle as object && oracle.Length == TABLE
      && TablesOk(trees[..]) && DlinesOk(trees[..]) && Placeable(trees[..])
      && forall h: nat :: h < TABLE && h !in unmasked && h < trees.Length ==> OracleFits(trees[h], oracle[h], h)
    }

    /** clear_Dline_table. */
    constructor ()
      ensures Valid() && fresh(trees) && fresh(oracle) && leftover == [] && unmasked == {}
      ensures forall h :: 0 <= h < TABLE ==> Keys(trees[h]) == {} && oracle[h] == 0
    {
      trees := new Tree[TABLE](_ => Leaf);
      oracle := new Ip[TABLE](_ => 0);
      leftover, unmasked := [], {};
    }

    /** find_exception. */
    method FindException(a: Ip) returns (found: bool)
      ensures found <==> Excepted(leftover, a)
    {
      hide ItemFor;
      var i := 0;
      while i < |leftover|
        invariant 0 <= i <= |leftover| && forall j :: 0 <= j < i ==> !ItemFor(leftover[j], a)
      {
        if ItemFor(leftover[i], a) { return true; }
        i := i + 1;
      }
      return false;
    }

    /** add_dline when a D-line for the exception is there: it goes right behind that D-line. */
    method PlaceException(c: Conf) returns (placed: bool)
      requires Valid()
      modifies trees
      ensures Valid() && AllGiven(trees[..], old(trees[..]), [c])
      ensures placed <==> Head(c.ip) < TABLE && Find(old(trees[..])[Head(c.ip)], c.ip).Node?
    {
      hide TablesOk, DlinesOk, TreeOk, Keys, Find, Has, Given, Amend, Head, OracleFits, Placeable;
      ghost var ts := trees[..];
      HeadInTable(c.ip);
      var h := Head(c.ip);
      TablesAt(ts, h);
      var node := FindSubtree(trees[h], c.ip);
      if node.Leaf? {
        NowhereGiven(ts, c);
        return false;
      }
      var e := c.(exempt := true);
      AmendGiven(trees[h], c);
      var t := Amend(trees[h], c.ip, Between(node.conf, [e]));
      TablesPut(ts, h, t);
      trees[h] := t;
      assert trees[..] == ts[h := t];
      OneGiven(ts, h, t, c);
      GivenTables(trees[..], ts, [c]);
      TablesSize(ts);
      SameKeysFit(ts, trees[..], oracle[..], unmasked);
      return true;
    }

    /** add_dline. */
    method AddException(c: Conf)
      requires Valid()
      modifies this, trees
      ensures Valid() && AllGiven(trees[..], old(trees[..]), [c]) && unmasked == old(unmasked)
      ensures leftover == if Head(c.ip) < TABLE && Find(old(trees[..])[Head(c.ip)], c.ip).Node? then old(leftover)
                          else [c.(exempt := true)] + old(leftover)
    {
      hide TablesOk, DlinesOk, Find, AllGiven, Head, OracleFits, Placeable;
      var placed := PlaceException(c);
      if !placed { leftover := [c.(exempt := true)] + leftover; }
    }

    /** rescan_dlines: the rest of the list first. */
    method RescanDlines(s: seq<Conf>) returns (rest: seq<Conf>)
      requires Valid()
      modifies trees
      ensures Valid() && AllGiven(trees[..], old(trees[..]), s)
      ensures rest == Unplaced(s, old(trees[..]))
    {
      hide TablesOk, DlinesOk, Find, AllGiven, Head, OracleFits, Placeable;
      ghost var ts := trees[..];
      AllGivenNone(ts);
      if |s| == 0 { return []; }
      var tail := RescanDlines(s[1..]);
      ghost var ts1 := trees[..];
      GivenTables(ts1, ts, s[1..]);
      TablesSize(ts);
      TablesSize(ts1);
      UnplacedSame([s[0]], ts, ts1);
      HeadInTable(s[0].ip);
      assert [s[0]][1..] == [];
      assert Unplaced([s[0]], ts) == (if Find(ts[Head(s[0].ip)], s[0].ip).Node? then [] else [s[0]]);
      var placed := PlaceException(s[0]);
      AllGivenThen(trees[..], ts1, ts, s);
      rest := if placed then tail else [s[0]] + tail;
    }

    /** The tree and the oracle word of an accepted D-line. */
    method PutDline(c: Conf, coin: Ip -> bool)
      requires Valid() && PrefixMask(c.mask) && !c.exempt && Head(c.ip) < TABLE
      requires !(Find(trees[Head(c.ip)], c.ip).Node? && Shorter(Find(trees[Head(c.ip)], c.ip).key.mask, c.mask))
      modifies this`unmasked, trees, oracle
      ensures Valid()
      ensures var h, key := Head(c.ip), KeyOf(c);
        var t := old(trees[..])[h];
        && trees[..] == old(trees[..])[h := Placed(t, key, [c] + KeepExempt(Gathered(t, key)), coin)]
        && oracle[..] == old(oracle[..])[h := BitsOr(old(oracle[..])[h], RangeBits(c.ip, c.mask))]
        && unmasked == old(unmasked) + (if Masked(c) then {} else {h})
    {
      hide TablesOk, DlinesOk, TreeOk, Keys, Find, Has, Head, Covers, Less, Shorter, Masked, RangeBits, BitsOr,
           InScope, Gathered, Placed, KeyOk, KeepExempt, And, OracleFits, PrefixMask, Placeable;
      ghost var ts, os, was := trees[..], oracle[..], unmasked;
      var h := Head(c.ip);
      TablesAt(ts, h);
      var key := KeyOf(c);
      PlacedAnywhere(trees[h], c.ip, c.mask, [c], coin);
      MayPlace(trees[h], c.ip, c.mask);
      oracle[h] := BitsOr(oracle[h], RangeBits(c.ip, c.mask));
      var d := Delete(trees[h], key, [], coin);
      var clist := [c] + KeepExempt(d.clist);
      PlacedOk(trees[h], key, clist, coin);
      PlacedIs(trees[h], key, clist, coin);
      var t := Insert(d.tree, key, clist);
      TablesPut(ts, h, t);
      trees[h] := t;
      assert trees[..] == ts[h := t] && oracle[..] == os[h := BitsOr(os[h], RangeBits(c.ip, c.mask))];
      NewListOk(c, key, KeepExempt(d.clist));
      DlinesPut(ts, h, t, key, clist);
      PutPlaceable(ts, h, t, key, c.ip);
      if Masked(c) { PutFits(ts[h], t, os[h], h, was, c); }
      unmasked := unmasked + (if Masked(c) then {} else {h});
    }

    /** add_Dline, for any address. */
    method AddDline(conf: Conf, coin: Ip -> bool)
      requires Valid() && PrefixMask(FixMask(conf.mask)) && !conf.exempt
      modifies this, trees, oracle
      ensures Valid() && Head(conf.ip) < TABLE
      ensures var c := conf.(mask := FixMask(conf.mask));
        var h, key := Head(conf.ip), KeyOf(c);
        var t := old(trees[..])[h];
        if (Find(t, c.ip).Node? && Shorter(Find(t, c.ip).key.mask, c.mask)) || Excepted(old(leftover), c.ip) then
          && trees[..] == old(trees[..]) && oracle[..] == old(oracle[..]) && leftover == old(leftover)
          && unmasked == old(unmasked)
        else
          && unmasked == old(unmasked) + (if Masked(c) then {} else {h})
          && oracle[..] == old(oracle[..])[h := BitsOr(old(oracle[..])[h], RangeBits(c.ip, c.mask))]
          && Keys(trees[h]) == Keys(Delete(t, key, [], coin).tree) + {key}
          && (forall k <- Keys(trees[h]) :: k == key || (k in Keys(t) && !InScope(key, k)))
          && Has(trees[h], key, [c] + (ExemptFor(old(leftover), h, key) + KeepExempt(Gathered(t, key))))
          && (forall k, l :: Has(t, k, l) && l != [] && k != key && k in Keys(trees[h]) ==>
                Has(trees[h], k, Between(l, ExemptFor(old(leftover), h, k))))
          && (forall g: nat :: g < TABLE && g != h ==> Given(trees[g], old(trees[..])[g], old(leftover), g))
          && leftover == Unplaced(old(leftover), trees[..])
          && TakesOver(t, trees[h], key, [c] + ExemptFor(old(leftover), h, key))
          && Answers(t, trees[h], key, c, old(leftover), h)
    {
      hide TablesOk, DlinesOk, TreeOk, Keys, Find, Has, Head, Less, Shorter, Masked, RangeBits, BitsOr, Excepted, Given,
           InScope, Gathered, Placed, KeyOk, KeepExempt, AllGiven, And, FixMask, OracleFits, PrefixMask, ExemptFor,
           Placeable, Delete, TakesOver, Answers;
      ghost var ts := trees[..];
      var c := conf.(mask := FixMask(conf.mask));
      HeadInTable(c.ip);
      var h := Head(c.ip);
      TablesAt(ts, h);
      var node := FindSubtree(trees[h], c.ip);
      if node.Node? && Shorter(node.key.mask, c.mask) { return; }
      var excepted := FindException(c.ip);
      if excepted { return; }
      PutDline(c, coin);
      ghost var ts1 := trees[..];
      var s := leftover;
      leftover := RescanDlines(leftover);
      GivenTables(trees[..], ts1, s);
      TablesSize(trees[..]);
      UnplacedSame(s, ts1, trees[..]);
      ghost var key, p := KeyOf(c), KeepExempt(Gathered(ts[h], KeyOf(c)));
      MayPlace(ts[h], c.ip, c.mask);
      PlacedAnywhere(ts[h], c.ip, c.mask, [c], coin);
      AllGivenAt(trees[..], ts1, s, h);
      NewLists(ts[h], ts1[h], trees[h], s, h, key, c, p, coin);
      TablesAt(trees[..], h);
      DlinesTree(trees[..], h);
      Inherits(ts[h], trees[h], key, c, s, h);
      forall g: nat | g < TABLE && g != h ensures Given(trees[g], ts[g], s, g) { AllGivenAt(trees[..], ts1, s, g); }
    }

    /** match_Dline. Under a head where only masked addresses were added the oracle is exact. */
    method MatchDline(a: Ip) returns (r: Option<Conf>)
      requires Valid()
      ensures Head(a) < TABLE
      ensures r == if BitsIn(a, oracle[Head(a)]) then LookDline(trees[Head(a)], a) else None
      ensures Head(a) !in unmasked ==> r == LookDline(trees[Head(a)], a)
    {
      hide TablesOk, TreeOk, Keys, Find, Has, Head, Covers, ItemFor, FirstException, BitsIn, Entries, OracleFits, And,
           Placeable;
      HeadInTable(a);
      var head := Head(a);
      TablesAt(trees[..], head);
      DlinesTree(trees[..], head);
      OracleExact(trees[head], oracle[head], head);
      if !BitsIn(a, oracle[head]) { return None; }
      var node := FindSubtree(trees[head], a);
      FindIs(trees[head], a);
      if node.Leaf? { return None; }
      var c := node.conf;
      var i := 0;
      while i < |c|
        invariant 0 <= i <= |c| && forall j :: 0 <= j < i ==> !(c[j].exempt && ItemFor(c[j], a))
      {
        if c[i].exempt && ItemFor(c[i], a) {
          FirstExceptionAt(c, a, i);
          return Some(c[i]);
        }
        i := i + 1;
      }
      NoException(c, a);
      if And(c[0].ip, c[0].mask) == And(a, c[0].mask) { return Some(c[0]); } else { return None; }
    }
  }

  // ----- what a new range takes over -----

  /** The list of the new range: what it starts with, and behind that the exceptions of exactly the ranges in
      its scope, each list once, in order and as often. */
  ghost predicate TakesOver(t: Tree, t': Tree, key: Key, first: seq<Conf>) {
    exists ks :: TakesFrom(t, t', key, first, ks)
  }

  ghost predicate TakesFrom(t: Tree, t': Tree, key: Key, first: seq<Conf>, ks: seq<Key>) {
    ScopeList(t, key, ks) && exists p :: ExemptPart(Lists(Entries(t), ks), p) && Has(t', key, first + p)
  }

  /** An exception for `a` waits for a range that holds its own address. */
  predicate Waiting(s: seq<Conf>, h: nat, key: Key, a: Ip) {
    exists i :: 0 <= i < |s| && Head(s[i].ip) == h && Covers(key, s[i].ip) && ItemFor(s[i], a)
  }

  /** A range in scope has an exception for `a`. */
  ghost predicate Spared(t: Tree, key: Key, a: Ip) {
    exists k, l, e: Conf :: Has(t, k, l) && InScope(key, k) && e in l && e.exempt && ItemFor(e, a)
  }

  /** The look-up in the new range: an exception, if one that waited or one of a replaced range is for the
      address, and else the new D-line. */
  ghost predicate Answers(t: Tree, t': Tree, key: Key, c: Conf, s: seq<Conf>, h: nat) {
    forall a: Ip :: Covers(key, a) ==>
      && LookDline(t', a).Some?
      && (Waiting(s, h, key, a) || Spared(t, key, a) ==>
            LookDline(t', a).value.exempt && ItemFor(LookDline(t', a).value, a))
      && (!Waiting(s, h, key, a) && !Spared(t, key, a) ==> LookDline(t', a) == Some(c))
  }

  lemma {:induction false} ExemptForHas(s: seq<Conf>, h: nat, k: Key, a: Ip)
    ensures Waiting(s, h, k, a) <==> exists e :: e in ExemptFor(s, h, k) && ItemFor(e, a)
  {
    hide Head, Covers;
    if s != [] {
      var one, rest := ExemptFor(s[..1], h, k), ExemptFor(s[1..], h, k);
      ExemptForHas(s[1..], h, k, a);
      assert ExemptFor(s, h, k)
          == (if Head(s[0].ip) == h && Covers(k, s[0].ip) then [s[0].(exempt := true)] else []) + rest;
      if Waiting(s, h, k, a) {
        var i :| 0 <= i < |s| && Head(s[i].ip) == h && Covers(k, s[i].ip) && ItemFor(s[i], a);
        if i > 0 {
          assert s[1..][i - 1] == s[i];
          var e :| e in rest && ItemFor(e, a);
          assert e in ExemptFor(s, h, k);
        } else {
          assert ExemptFor(s, h, k)[0] == s[0].(exempt := true);
          assert s[0].(exempt := true) in ExemptFor(s, h, k);
        }
      }
      if e :| e in ExemptFor(s, h, k) && ItemFor(e, a) {
        if e in rest {
          var i :| 0 <= i < |s| - 1 && Head(s[1..][i].ip) == h && Covers(k, s[1..][i].ip) && ItemFor(s[1..][i], a);
          assert s[i + 1] == s[1..][i];
        } else {
          assert e == s[0].(exempt := true);
        }
      }
    }
  }

  lemma {:induction false} ListsHas(m: map<Key, seq<Conf>>, ks: seq<Key>, e: Conf)
    requires forall k <- ks :: k in m
    ensures e in Lists(m, ks) <==> exists k :: k in ks && e in m[k]
  {
    if ks != [] {
      ListsHas(m, ks[1..], e);
      assert ks == [ks[0]] + ks[1..];
    }
  }

  lemma SparedIs(t: Tree, key: Key, ks: seq<Key>, p: seq<Conf>, a: Ip)
    requires ScopeList(t, key, ks) && ExemptPart(Lists(Entries(t), ks), p)
    ensures Spared(t, key, a) <==> exists e :: e in p && ItemFor(e, a)
  {
    hide InScope, Entries, Keys, Lists, Selection, ItemFor;
    var m := Entries(t);
    if Spared(t, key, a) {
      var k, l, e: Conf :| Has(t, k, l) && InScope(key, k) && e in l && e.exempt && ItemFor(e, a);
      ListsHas(m, ks, e);
      assert k in ks && e in m[k];
      SelectedIs(Lists(m, ks), p, IsExempt(), e);
    }
    if e :| e in p && ItemFor(e, a) {
      SelectedIs(Lists(m, ks), p, IsExempt(), e);
      ListsHas(m, ks, e);
      var k :| k in ks && e in m[k];
      assert Has(t, k, m[k]);
    }
  }

  lemma ListVerdict(c: Conf, x: seq<Conf>, p: seq<Conf>, a: Ip)
    requires !c.exempt && AllExempt(x) && AllExempt(p)
    ensures var r := DlineVerdict([c] + (x + p), a);
      if (exists e :: e in x && ItemFor(e, a)) || (exists e :: e in p && ItemFor(e, a)) then r.exempt && ItemFor(r, a)
      else r == c
  {
    hide ItemFor;
    var l := [c] + (x + p);
    var i := FirstException(l, a);
    if i < |l| {
      assert l[i] in x || l[i] in p;
    } else {
      forall e | e in x + p ensures !ItemFor(e, a) {
        var j :| 0 <= j < |x + p| && (x + p)[j] == e;
        assert l[j + 1] == e;
      }
      assert forall e :: e in x || e in p ==> e in x + p;
    }
  }

  lemma Inherits(t: Tree, t': Tree, key: Key, c: Conf, s: seq<Conf>, h: nat)
    requires TreeOk(t) && TreeOk(t') && (forall k, l :: Has(t', k, l) ==> DlistOk(k, l)) && !c.exempt
    requires Has(t', key, [c] + (ExemptFor(s, h, key) + KeepExempt(Gathered(t, key))))
    ensures TakesOver(t, t', key, [c] + ExemptFor(s, h, key)) && Answers(t, t', key, c, s, h)
  {
    hide TreeOk, Keys, Entries, Has, DlistOk, InScope, Covers, ItemFor, ExemptFor, KeepExempt, Gathered, Lists,
        LookDline,
         Spared, Waiting, FirstException, Selection, DlineVerdict;
    var ks := GatheredIs(t, key);
    KeepExemptPicks(Gathered(t, key));
    var x, p := ExemptFor(s, h, key), KeepExempt(Gathered(t, key));
    assert ExemptPart(Lists(Entries(t), ks), p);
    assert [c] + (x + p) == ([c] + x) + p;
    assert TakesFrom(t, t', key, [c] + x, ks);
    forall a: Ip | Covers(key, a)
      ensures LookDline(t', a).Some?
      ensures Waiting(s, h, key, a) || Spared(t, key, a) ==>
        LookDline(t', a).value.exempt && ItemFor(LookDline(t', a).value, a)
      ensures !Waiting(s, h, key, a) && !Spared(t, key, a) ==> LookDline(t', a) == Some(c)
    {
      LookScans(t', a);
      ExemptForHas(s, h, key, a);
      SparedIs(t, key, ks, p, a);
      ListVerdict(c, x, p, a);
    }
  }

  // ----- helpers -----

  lemma AllGivenAt(ts': seq<Tree>, ts: seq<Tree>, s: seq<Conf>, h: nat)
    requires AllGiven(ts', ts, s) && h < |ts|
    ensures h < |ts'| && Given(ts'[h], ts[h], s, h)
  {
  }

  /** The lists of the tree after a D-line was placed and the exceptions were handed out. */
  lemma NewLists(t: Tree, t1: Tree, t2: Tree, s: seq<Conf>, h: nat, key: Key, c: Conf, p: seq<Conf>, coin: Ip -> bool)
    requires TreeOk(t) && KeyOk(key) && forall k <- Keys(t) :: Covers(k, key.ip) ==> Less(key.mask, k.mask)
    requires t1 == Placed(t, key, [c] + p, coin) && Given(t2, t1, s, h)
    ensures Keys(t2) == Keys(Delete(t, key, [], coin).tree) + {key}
    ensures forall k <- Keys(t2) :: k == key || (k in Keys(t) && !InScope(key, k))
    ensures Has(t2, key, [c] + (ExemptFor(s, h, key) + p))
    ensures forall k, l :: Has(t, k, l) && l != [] && k != key && k in Keys(t2) ==>
        Has(t2, k, Between(l, ExemptFor(s, h, k)))
  {
    hide TreeOk, Keys, Less, KeyOk, Covers, InScope, ExemptFor, Delete, Placed, Entries;
    PlacedOk(t, key, [c] + p, coin);
    PlacedIs(t, key, [c] + p, coin);
    InsertKeys(Delete(t, key, [], coin).tree, key, [c] + p);
    var x := ExemptFor(s, h, key);
    assert Between([c] + p, x) == [c] + (x + p);
    forall k, l | Has(t, k, l) && l != [] && k != key && k in Keys(t2)
      ensures Has(t2, k, Between(l, ExemptFor(s, h, k)))
    {
      assert Has(t1, k, Entries(t1)[k]);
      assert Has(t, k, Entries(t1)[k]);
    }
  }

  lemma PutFits(t: Tree, t': Tree, o: Ip, h: nat, unmasked: set<nat>, c: Conf)
    requires Masked(c) && (h !in unmasked ==> OracleFits(t, o, h))
    requires forall k <- Keys(t') :: k == KeyOf(c) || k in Keys(t)
    ensures h !in unmasked ==> OracleFits(t', BitsOr(o, RangeBits(c.ip, c.mask)), h)
  {
    hide OracleFits, Keys, BitsOr, RangeBits, And, Matches;
    MaskedKey(c);
    if h !in unmasked { OracleGrows(t, t', o, h, c.ip, c.mask); }
  }

  lemma PutPlaceable(ts: seq<Tree>, h: nat, t: Tree, key: Key, a: Ip)
    requires Placeable(ts) && h < |ts| && Covers(key, a) && Head(a) == h
    requires forall k <- Keys(t) :: k == key || k in Keys(ts[h])
    ensures Placeable(ts[h := t])
  {
    hide Keys, Covers, Head;
  }

  lemma SameKeysFit(ts: seq<Tree>, ts': seq<Tree>, os: seq<Ip>, unmasked: set<nat>)
    requires |ts| == |ts'| == |os| == TABLE && Placeable(ts)
    requires forall h :: 0 <= h < TABLE ==> Keys(ts'[h]) == Keys(ts[h])
    requires forall h: nat :: h < TABLE && h !in unmasked ==> OracleFits(ts[h], os[h], h)
    ensures forall h: nat :: h < TABLE && h !in unmasked ==> OracleFits(ts'[h], os[h], h)
    ensures Placeable(ts')
  {
    hide Keys, Covers, Head, BitsIn, LastFor;
    forall h: nat | h < TABLE && h !in unmasked ensures OracleFits(ts'[h], os[h], h) {
      assert OracleFits(ts[h], os[h], h);
    }
  }

  lemma DlinesTree(ts: seq<Tree>, h: nat)
    requires DlinesOk(ts) && h < |ts|
    ensures forall k, c :: Has(ts[h], k, c) ==> DlistOk(k, c)
  {
    hide Has, DlistOk;
  }

  lemma NowhereGiven(ts: seq<Tree>, c: Conf)
    requires TablesOk(ts) && Head(c.ip) < TABLE && Find(ts[Head(c.ip)], c.ip).Leaf?
    ensures AllGiven(ts, ts, [c])
  {
    hide TreeOk, Keys, Find, Head, Covers, Given, ExemptFor;
    FindIs(ts[Head(c.ip)], c.ip);
    forall h: nat | h < |ts| ensures Given(ts[h], ts[h], [c], h) {
      forall k | k in Keys(ts[h]) ensures ExemptFor([c], h, k) == [] { ExemptAt(c, h, k); }
      GivenNone(ts[h], [c], h);
    }
  }

  lemma OneGiven(ts: seq<Tree>, h: nat, t: Tree, c: Conf)
    requires h < |ts| && h == Head(c.ip) && Given(t, ts[h], [c], h)
    ensures AllGiven(ts[h := t], ts, [c])
  {
    hide Given, Head, ExemptFor;
    forall g: nat | g < |ts| ensures Given(ts[h := t][g], ts[g], [c], g) {
      if g != h {
        forall k | k in Keys(ts[g]) ensures ExemptFor([c], g, k) == [] { ExemptAt(c, g, k); }
        GivenNone(ts[g], [c], g);
      }
    }
  }

  lemma TablesSize(ts: seq<Tree>)
    requires TablesOk(ts)
    ensures |ts| == TABLE
  {
  }

  lemma PlacedIs(t: Tree, key: Key, conf: seq<Conf>, coin: Ip -> bool)
    ensures Placed(t, key, conf, coin) == Insert(Delete(t, key, [], coin).tree, key, conf)
  {
  }

  lemma NewListOk(c: Conf, key: Key, ex: seq<Conf>)
    requires !c.exempt && key == KeyOf(c) && AllExempt(ex)
    ensures DlistOk(key, [c] + ex)
  {
    assert ([c] + ex)[1..] == ex;
  }

  lemma DlinesPut(ts: seq<Tree>, h: nat, t: Tree, key: Key, conf: seq<Conf>)
    requires DlinesOk(ts) && h < |ts| && DlistOk(key, conf)
    requires forall k, c :: Has(t, k, c) ==> (k == key && c == conf) || Has(ts[h], k, c)
    ensures DlinesOk(ts[h := t])
  {
    hide Has, DlistOk;
  }

  lemma HasKeys(t: Tree)
    ensures forall k, c :: Has(t, k, c) ==> k in Keys(t)
  {
    hide Entries, Keys;
  }

  lemma OnlyFound(t: Tree, a: Ip)
    requires TreeOk(t) && Find(t, a).Node?
    ensures forall k, c :: Has(t, k, c) && Covers(k, a) ==> k == Find(t, a).key && c == Find(t, a).conf
  {
    hide TreeOk, Covers, Find;
    FindIs(t, a);
  }

  lemma NoException(c: seq<Conf>, a: Ip)
    requires forall j :: 0 <= j < |c| ==> !(c[j].exempt && ItemFor(c[j], a))
    ensures FirstException(c, a) == |c|
  {
    hide ItemFor;
    var i := FirstException(c, a);
  }

  lemma OwnRange(k: Key, c: Conf, a: Ip)
    requires Covers(k, a) && And(c.ip, c.mask) == k.ip && c.mask == k.mask
    ensures And(c.ip, c.mask) == And(a, c.mask)
  {
    hide Matches, And;
    MatchesIs(k.ip, k.mask, a);
  }
}
