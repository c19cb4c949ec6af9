/** Address prefixes: an IPv4 address with a mask of leading ones. The operations on
    addresses are named, so that proofs about trees need not look at bits. */
module IpPrefixes {

  type Ip = bv32

  predicate Less(a: Ip, b: Ip) { a < b }

  /** The mask is not more specific. */
  predicate Shorter(m: Ip, n: Ip) { m <= n }

  /** Leading ones followed by zeros. */
  predicate PrefixMask(m: Ip) { !m & (!m + 1) == 0 }

  /** a & mask == ip. */
  predicate Matches(ip: Ip, mask: Ip, a: Ip) { a & mask == ip }

  /** ip > (a & mask). */
  predicate GoesLeft(ip: Ip, mask: Ip, a: Ip) { Less(And(a, mask), ip) }

  function And(a: Ip, m: Ip): Ip { a & m }

  /** The two addresses agree where both masks have ones. */
  predicate Meet(x: Ip, m: Ip, y: Ip, n: Ip) { x & (m & n) == y & (m & n) }

  /** An address with its mask. */
  datatype Key = Key(ip: Ip, mask: Ip)

  predicate KeyOk(k: Key) { PrefixMask(k.mask) && Matches(k.ip, k.mask, k.ip) }

  /** Address `a` lies in the range of `k`. */
  predicate Covers(k: Key, a: Ip) { Matches(k.ip, k.mask, a) }

  predicate Apart(k: Key, l: Key) { !Meet(k.ip, k.mask, l.ip, l.mask) }

  /** All of `l` lies in `k`. */
  predicate Within(k: Key, l: Key) { Shorter(k.mask, l.mask) && Matches(k.ip, k.mask, l.ip) }

  // ----- order -----

  // The solver compares words of 32 bits badly and bytes well, so the order is taken
  // apart into bytes, the highest first.

  function High(a: Ip): Ip { a >> 24 }
  function Half(a: Ip): Ip { a >> 16 }
  function Rest(a: Ip): Ip { a >> 8 }
  function SecondByte(a: Ip): Ip { (a >> 16) & 0xff }
  function ThirdByte(a: Ip): Ip { (a >> 8) & 0xff }
  function LastByte(a: Ip): Ip { a & 0xff }
  predicate AtMost(a: Ip, b: Ip) { a <= b }
  predicate IsByte(a: Ip) { a <= 0xff }

  lemma HighOrder(a: Ip, b: Ip)
    ensures AtMost(a, b) ==> AtMost(High(a), High(b))
    ensures IsByte(High(a))
  {
  }

  lemma SecondOrder(a: Ip, b: Ip)
    ensures AtMost(a, b) && High(a) == High(b) ==> AtMost(SecondByte(a), SecondByte(b))
    ensures IsByte(SecondByte(a))
  {
  }

  lemma ThirdOrder(a: Ip, b: Ip)
    ensures AtMost(a, b) && Half(a) == Half(b) ==> AtMost(ThirdByte(a), ThirdByte(b))
    ensures IsByte(ThirdByte(a))
  {
  }

  lemma LastOrder(a: Ip, b: Ip)
    ensures AtMost(a, b) && Rest(a) == Rest(b) ==> AtMost(LastByte(a), LastByte(b))
    ensures IsByte(LastByte(a))
  {
  }

  lemma HalfJoin(a: Ip, b: Ip)
    ensures High(a) == High(b) && SecondByte(a) == SecondByte(b) ==> Half(a) == Half(b)
  {
  }

  lemma RestJoin(a: Ip, b: Ip)
    ensures Half(a) == Half(b) && ThirdByte(a) == ThirdByte(b) ==> Rest(a) == Rest(b)
  {
  }

  lemma WholeJoin(a: Ip, b: Ip)
    ensures Rest(a) == Rest(b) && LastByte(a) == LastByte(b) ==> a == b
  {
  }

  lemma ByteCycle(a: Ip, b: Ip, c: Ip)
    requires IsByte(a) && IsByte(b) && IsByte(c) && AtMost(a, b) && AtMost(b, c) && AtMost(c, a)
    ensures a == b == c
  {
  }

  /** Addresses that are in order around a circle are all the same. */
  lemma NoCycle(a: Ip, b: Ip, c: Ip)
    requires AtMost(a, b) && AtMost(b, c) && AtMost(c, a)
    ensures a == b == c
  {
    hide *;
    HighOrder(a, b);
    HighOrder(b, c);
    HighOrder(c, a);
    ByteCycle(High(a), High(b), High(c));
    SecondOrder(a, b);
    SecondOrder(b, c);
    SecondOrder(c, a);
    ByteCycle(SecondByte(a), SecondByte(b), SecondByte(c));
    HalfJoin(a, b);
    HalfJoin(b, c);
    ThirdOrder(a, b);
    ThirdOrder(b, c);
    ThirdOrder(c, a);
    ByteCycle(ThirdByte(a), ThirdByte(b), ThirdByte(c));
    RestJoin(a, b);
    RestJoin(b, c);
    LastOrder(a, b);
    LastOrder(b, c);
    LastOrder(c, a);
    ByteCycle(LastByte(a), LastByte(b), LastByte(c));
    WholeJoin(a, b);
    WholeJoin(b, c);
  }

  lemma LessIs(a: Ip, b: Ip)
    ensures Less(a, b) <==> !AtMost(b, a)
    ensures Less(a, b) ==> AtMost(a, b) && a != b
    ensures AtMost(a, a)
  {
  }

  lemma LessTotal(a: Ip, b: Ip)
    ensures !(Less(a, b) && Less(b, a)) && !Less(a, a)
    ensures a == b || Less(a, b) || Less(b, a)
  {
    hide *;
    LessIs(a, b);
    LessIs(b, a);
    LessIs(a, a);
    if AtMost(a, b) && AtMost(b, a) { NoCycle(a, b, a); }
  }

  lemma LessChain(a: Ip, b: Ip, c: Ip)
    requires AtMost(a, b) && AtMost(b, c) && (Less(a, b) || Less(b, c))
    ensures Less(a, c)
  {
    hide *;
    LessIs(a, b);
    LessIs(b, c);
    LessIs(a, c);
    if AtMost(c, a) { NoCycle(a, b, c); }
  }

  lemma LessOrder(a: Ip, b: Ip, c: Ip)
    ensures !(Less(a, b) && Less(b, a)) && !Less(a, a)
    ensures a == b || Less(a, b) || Less(b, a)
    ensures Less(a, b) && Less(b, c) ==> Less(a, c)
  {
    hide *;
    LessTotal(a, b);
    LessIs(a, b);
    LessIs(b, c);
    if Less(a, b) && Less(b, c) { LessChain(a, b, c); }
  }

  // ----- facts about bits -----

  lemma NestedMasks(m: Ip, n: Ip)
    requires PrefixMask(m) && PrefixMask(n)
    ensures if m <= n then m & n == m else m & n == n
  {
  }

  lemma NestedBits(x: Ip, m: Ip, y: Ip, n: Ip)
    requires PrefixMask(m) && PrefixMask(n) && Matches(x, m, x) && Matches(y, n, y) && Meet(x, m, y, n)
    ensures Shorter(m, n) ==> Matches(x, m, y)
    ensures !Shorter(m, n) ==> Shorter(n, m) && Matches(y, n, x)
  {
    NestedMasks(m, n);
    hide PrefixMask;
  }

  lemma MeetBits(x: Ip, m: Ip, y: Ip, n: Ip, a: Ip)
    requires Matches(x, m, a) && Matches(y, n, a)
    ensures Meet(x, m, y, n)
  {
  }

  lemma MeetSwap(x: Ip, m: Ip, y: Ip, n: Ip)
    ensures Meet(x, m, y, n) == Meet(y, n, x, m)
  {
    assert m & n == n & m;
  }

  lemma MatchesIs(x: Ip, m: Ip, a: Ip)
    ensures Matches(x, m, a) <==> And(a, m) == x
  {
  }

  lemma AndHigh(a: Ip, m: Ip)
    ensures High(And(a, m)) == And(High(a), High(m))
  {
  }

  lemma AndSecond(a: Ip, m: Ip)
    ensures SecondByte(And(a, m)) == And(SecondByte(a), SecondByte(m))
  {
  }

  lemma AndThird(a: Ip, m: Ip)
    ensures ThirdByte(And(a, m)) == And(ThirdByte(a), ThirdByte(m))
  {
  }

  lemma AndLast(a: Ip, m: Ip)
    ensures LastByte(And(a, m)) == And(LastByte(a), LastByte(m))
  {
  }

  predicate PrefixByte(p: Ip) { p in [0, 0x80, 0xc0, 0xe0, 0xf0, 0xf8, 0xfc, 0xfe, 0xff] }

  lemma MaskByte(m: Ip)
    requires PrefixMask(m)
    ensures PrefixByte(High(m)) && PrefixByte(SecondByte(m)) && PrefixByte(ThirdByte(m)) && PrefixByte(LastByte(m))
  {
  }

  lemma MaskEnds(m: Ip)
    requires PrefixMask(m)
    ensures High(m) != 0xff ==> SecondByte(m) == 0
    ensures SecondByte(m) != 0xff ==> ThirdByte(m) == 0
    ensures ThirdByte(m) != 0xff ==> LastByte(m) == 0
  {
  }

  /** Where a masked byte is the same, the byte was, or the mask ends there. */
  lemma ByteStep(p: Ip, x: Ip, y: Ip)
    requires PrefixByte(p) && IsByte(x) && IsByte(y) && AtMost(x, y) && AtMost(And(y, p), And(x, p))
    ensures And(x, p) == And(y, p) && (p == 0xff ==> x == y)
  {
  }

  lemma NoMask(x: Ip)
    ensures And(x, 0) == 0
  {
  }

  lemma TopByte(m: Ip, a: Ip, b: Ip)
    requires PrefixMask(m) && AtMost(a, b) && AtMost(And(b, m), And(a, m))
    ensures High(And(a, m)) == High(And(b, m)) && (High(a) == High(b) || SecondByte(m) == 0)
  {
    hide *;
    AndHigh(a, m);
    AndHigh(b, m);
    MaskByte(m);
    MaskEnds(m);
    HighOrder(a, b);
    HighOrder(b, a);
    HighOrder(And(b, m), And(a, m));
    ByteStep(High(m), High(a), High(b));
  }

  lemma NextByte(m: Ip, a: Ip, b: Ip)
    requires PrefixMask(m) && AtMost(a, b) && AtMost(And(b, m), And(a, m))
    requires High(And(a, m)) == High(And(b, m)) && (High(a) == High(b) || SecondByte(m) == 0)
    ensures Half(And(a, m)) == Half(And(b, m)) && (Half(a) == Half(b) || ThirdByte(m) == 0)
  {
    hide *;
    AndSecond(a, m);
    AndSecond(b, m);
    MaskByte(m);
    MaskEnds(m);
    HalfJoin(And(a, m), And(b, m));
    HalfJoin(a, b);
    if SecondByte(m) == 0 {
      NoMask(SecondByte(a));
      NoMask(SecondByte(b));
    } else {
      SecondOrder(a, b);
      SecondOrder(b, a);
      SecondOrder(And(b, m), And(a, m));
      ByteStep(SecondByte(m), SecondByte(a), SecondByte(b));
    }
  }

  lemma LowerByte(m: Ip, a: Ip, b: Ip)
    requires PrefixMask(m) && AtMost(a, b) && AtMost(And(b, m), And(a, m))
    requires Half(And(a, m)) == Half(And(b, m)) && (Half(a) == Half(b) || ThirdByte(m) == 0)
    ensures Rest(And(a, m)) == Rest(And(b, m)) && (Rest(a) == Rest(b) || LastByte(m) == 0)
  {
    hide *;
    AndThird(a, m);
    AndThird(b, m);
    MaskByte(m);
    MaskEnds(m);
    RestJoin(And(a, m), And(b, m));
    RestJoin(a, b);
    if ThirdByte(m) == 0 {
      NoMask(ThirdByte(a));
      NoMask(ThirdByte(b));
    } else {
      ThirdOrder(a, b);
      ThirdOrder(b, a);
      ThirdOrder(And(b, m), And(a, m));
      ByteStep(ThirdByte(m), ThirdByte(a), ThirdByte(b));
    }
  }

  lemma LowestByte(m: Ip, a: Ip, b: Ip)
    requires PrefixMask(m) && AtMost(a, b) && AtMost(And(b, m), And(a, m))
    requires Rest(And(a, m)) == Rest(And(b, m)) && (Rest(a) == Rest(b) || LastByte(m) == 0)
    ensures And(a, m) == And(b, m)
  {
    hide *;
    AndLast(a, m);
    AndLast(b, m);
    MaskByte(m);
    WholeJoin(And(a, m), And(b, m));
    if LastByte(m) == 0 {
      NoMask(LastByte(a));
      NoMask(LastByte(b));
    } else {
      LastOrder(a, b);
      LastOrder(b, a);
      LastOrder(And(b, m), And(a, m));
      ByteStep(LastByte(m), LastByte(a), LastByte(b));
    }
  }

  /** Masking keeps the order: byte by byte, until the mask ends or the bytes differ. */
  lemma AndMonotone(m: Ip, a: Ip, b: Ip)
    requires PrefixMask(m) && AtMost(a, b)
    ensures AtMost(And(a, m), And(b, m))
  {
    hide *;
    LessIs(And(b, m), And(a, m));
    if Less(And(b, m), And(a, m)) {
      TopByte(m, a, b);
      NextByte(m, a, b);
      LowerByte(m, a, b);
      LowestByte(m, a, b);
    }
  }

  lemma AndAtMost(m: Ip, a: Ip)
    ensures AtMost(And(a, m), a)
  {
  }

  lemma BetweenBits(x: Ip, m: Ip, a: Ip, b: Ip)
    requires PrefixMask(m) && Matches(x, m, x) && Matches(x, m, b) && Less(x, a) && Less(a, b)
    ensures Matches(x, m, a)
  {
    hide *;
    LessIs(x, a);
    LessIs(a, b);
    MatchesIs(x, m, x);
    MatchesIs(x, m, a);
    MatchesIs(x, m, b);
    AndMonotone(m, x, a);
    AndMonotone(m, a, b);
    LessIs(x, x);
    NoCycle(x, And(a, m), x);
  }

  lemma GoesLeftIs(x: Ip, m: Ip, a: Ip)
    ensures GoesLeft(x, m, a) <==> Less(And(a, m), x)
  {
    hide Less, And;
  }

  lemma LeftBits(x: Ip, m: Ip, a: Ip)
    requires PrefixMask(m) && Matches(x, m, x)
    ensures GoesLeft(x, m, a) ==> Less(a, x)
  {
    hide *;
    GoesLeftIs(x, m, a);
    LessIs(a, x);
    LessIs(And(a, m), x);
    MatchesIs(x, m, x);
    if AtMost(x, a) { AndMonotone(m, x, a); }
  }

  lemma RightBits(x: Ip, m: Ip, a: Ip)
    requires !Matches(x, m, a) && !GoesLeft(x, m, a)
    ensures Less(x, a)
  {
    hide *;
    GoesLeftIs(x, m, a);
    MatchesIs(x, m, a);
    LessTotal(And(a, m), x);
    LessIs(x, And(a, m));
    AndAtMost(m, a);
    LessChain(x, And(a, m), a);
  }

  lemma MatchFrom(x: Ip, m: Ip, a: Ip)
    requires Matches(x, m, a)
    ensures !Less(a, x)
  {
    hide *;
    MatchesIs(x, m, a);
    AndAtMost(m, a);
    LessIs(a, x);
  }

  lemma MaskedOnce(ip: Ip, m: Ip)
    ensures Matches(And(ip, m), m, And(ip, m)) && Matches(And(ip, m), m, ip)
  {
  }

  /** What holds the masked address under a shorter mask holds the address. */
  lemma HostBitsFree(x: Ip, m: Ip, ip: Ip, n: Ip)
    requires PrefixMask(m) && PrefixMask(n) && Shorter(m, n) && Matches(x, m, And(ip, n))
    ensures Matches(x, m, ip)
  {
    NestedMasks(m, n);
    hide PrefixMask;
  }

  // ----- facts about ranges -----

  /** Of two ranges that overlap, one holds the other. */
  lemma Overlap(k: Key, l: Key)
    requires KeyOk(k) && KeyOk(l) && !Apart(k, l)
    ensures if Shorter(k.mask, l.mask) then Within(k, l) else Within(l, k)
  {
    hide Matches, PrefixMask, Meet, Shorter;
    NestedBits(k.ip, k.mask, l.ip, l.mask);
  }

  lemma NotBoth(k: Key, l: Key, a: Ip)
    requires Apart(k, l)
    ensures !(Covers(k, a) && Covers(l, a))
  {
    hide Matches, Meet;
    if Covers(k, a) && Covers(l, a) { MeetBits(k.ip, k.mask, l.ip, l.mask, a); }
  }

  lemma ApartSwap(k: Key, l: Key)
    ensures Apart(k, l) == Apart(l, k)
  {
    hide Meet;
    MeetSwap(k.ip, k.mask, l.ip, l.mask);
  }

  /** Ranges that start at one address overlap. */
  lemma SameStart(k: Key, l: Key)
    requires KeyOk(k) && KeyOk(l) && k.ip == l.ip
    ensures !Apart(k, l)
  {
    hide Matches, PrefixMask, Meet;
    if Apart(k, l) { NotBoth(k, l, k.ip); }
  }

  lemma HoldsMiddle(k: Key, mid: Key, a: Ip)
    requires KeyOk(k) && KeyOk(mid) && Covers(k, a) && Less(k.ip, mid.ip) && Less(mid.ip, a)
    ensures !Apart(k, mid)
  {
    hide Matches, PrefixMask, Meet, Less;
    BetweenBits(k.ip, k.mask, mid.ip, a);
    MeetBits(k.ip, k.mask, mid.ip, mid.mask, mid.ip);
  }

  /** Three ranges in order: if the middle one is apart from both, so are the outer ones. */
  lemma ApartAcross(k: Key, mid: Key, l: Key)
    requires KeyOk(k) && KeyOk(mid) && KeyOk(l) && Less(k.ip, mid.ip) && Less(mid.ip, l.ip) && Apart(k, mid)
    ensures Apart(k, l)
  {
    hide Matches, PrefixMask, Meet, Less, Shorter;
    if !Apart(k, l) {
      Overlap(k, l);
      if Covers(k, l.ip) {
        HoldsMiddle(k, mid, l.ip);
      } else {
        MatchFrom(l.ip, l.mask, k.ip);
        LessOrder(k.ip, mid.ip, l.ip);
      }
    }
  }

  /** Going left at `k` loses no range that starts above it. */
  lemma LeftOnly(k: Key, r: Key, a: Ip)
    requires KeyOk(k) && GoesLeft(k.ip, k.mask, a) && Less(k.ip, r.ip)
    ensures !Covers(r, a) && !Covers(k, a)
  {
    hide Matches, PrefixMask, Less, GoesLeft;
    LeftBits(k.ip, k.mask, a);
    LessOrder(a, k.ip, r.ip);
    LessOrder(a, r.ip, r.ip);
    if Covers(r, a) { MatchFrom(r.ip, r.mask, a); }
    if Covers(k, a) { MatchFrom(k.ip, k.mask, a); }
  }

  /** Going right at `k` loses no range that starts below it. */
  lemma RightOnly(k: Key, l: Key, a: Ip)
    requires KeyOk(k) && KeyOk(l) && !Covers(k, a) && !GoesLeft(k.ip, k.mask, a) && Less(l.ip, k.ip) && Apart(l, k)
    ensures !Covers(l, a)
  {
    hide Matches, PrefixMask, Less, GoesLeft, Meet;
    RightBits(k.ip, k.mask, a);
    if Covers(l, a) { HoldsMiddle(l, k, a); }
  }

  // ----- the oracle -----

  /** The address bits that add_Dline adds to the oracle for a range. */
  function RangeBits(ip: Ip, mask: Ip): Ip { Sum(Inverse(mask), ip) }

  function Inverse(mask: Ip): Ip { 0xffff_ffff - mask }

  function Sum(a: Ip, b: Ip): Ip { a + b }

  /** b & a == a. */
  predicate BitsIn(a: Ip, b: Ip) { b & a == a }

  function BitsOr(a: Ip, b: Ip): Ip { a | b }

  lemma RangeBitsIs(ip: Ip, mask: Ip)
    requires Matches(ip, mask, ip)
    ensures RangeBits(ip, mask) == ip | !mask
  {
    hide Inverse, Sum;
    NotMask(mask);
    NoCarry(ip, mask);
  }

  lemma NotMask(mask: Ip)
    ensures Inverse(mask) == !mask
  {
  }

  lemma NoCarry(ip: Ip, mask: Ip)
    requires ip & mask == ip
    ensures Sum(!mask, ip) == ip | !mask
  {
  }

  /** Every address of a range has no bit outside the range's bits. */
  lemma CoverBits(ip: Ip, mask: Ip, a: Ip)
    requires Matches(ip, mask, ip) && Matches(ip, mask, a)
    ensures BitsIn(a, RangeBits(ip, mask))
  {
    RangeBitsIs(ip, mask);
    hide RangeBits;
  }

  lemma BitsInOr(a: Ip, b: Ip, c: Ip)
    ensures BitsIn(a, b) ==> BitsIn(a, BitsOr(b, c))
  {
  }

  lemma BitsInOwn(a: Ip, b: Ip)
    ensures BitsIn(a, BitsOr(b, a))
  {
  }

  lemma BitsInChain(a: Ip, b: Ip, c: Ip)
    requires BitsIn(a, b) && BitsIn(b, c)
    ensures BitsIn(a, c)
  {
  }

  // ----- the tables' heads -----

  /** ip >> 24. */
  function Head(a: Ip): nat { ((a >> 24) as bv8) as nat }

  const TOP: Ip := 0xff00_0000

  function TopOf(a: Ip): Ip { a & TOP }

  lemma HeadInTable(a: Ip)
    ensures Head(a) < 256
  {
  }

  lemma SameTop(a: Ip, b: Ip)
    ensures Head(a) == Head(b) <==> TopOf(a) == TopOf(b)
  {
  }

  /** Of the addresses that have the head of `a` and agree with it under the mask, the last. */
  function LastFor(mask: Ip, a: Ip): Ip { a | (!mask & !TOP) }

  lemma LastCovered(k: Key, a: Ip)
    requires Covers(k, a)
    ensures Covers(k, LastFor(k.mask, a)) && TopOf(LastFor(k.mask, a)) == TopOf(a)
  {
  }

  lemma LastHolds(k: Key, a: Ip, b: Ip)
    requires Covers(k, a) && Covers(k, b) && TopOf(a) == TopOf(b)
    ensures BitsIn(b, LastFor(k.mask, a))
  {
  }

  /** The mask is at least eight bits long. */
  predicate Long(mask: Ip) { mask & TOP == TOP }

  lemma LongTop(k: Key, a: Ip, b: Ip)
    requires Long(k.mask) && Covers(k, a) && Covers(k, b)
    ensures TopOf(a) == TopOf(b)
  {
  }

  function Outer(mask: Ip): Ip { TOP & !mask }

  lemma OuterBits(mask: Ip)
    ensures Outer(mask) == 0 ==> Long(mask)
    ensures And(Outer(mask), TOP) == Outer(mask)
  {
  }

  /** An address that differs only in the top bits outside the mask. */
  function Wide(ip: Ip, mask: Ip): Ip { ip | Outer(mask) }

  lemma WideCovered(ip: Ip, mask: Ip)
    requires Matches(ip, mask, ip)
    ensures And(ip, Outer(mask)) == 0 && Matches(ip, mask, Wide(ip, mask))
  {
  }

  lemma AddedBits(a: Ip, x: Ip)
    requires And(a, x) == 0 && And(x, TOP) == x && x != 0
    ensures TopOf(a | x) != TopOf(a)
  {
  }

  lemma OtherTop(ip: Ip, mask: Ip)
    requires Matches(ip, mask, ip) && !Long(mask)
    ensures Matches(ip, mask, Wide(ip, mask)) && TopOf(Wide(ip, mask)) != TopOf(ip)
  {
    hide Outer, Long, Matches, And, TopOf;
    OuterBits(mask);
    WideCovered(ip, mask);
    AddedBits(ip, Outer(mask));
  }

  /** All addresses of a range have one head if and only if its mask is long. */
  lemma OneHead(k: Key)
    requires KeyOk(k)
    ensures (forall a: Ip, b: Ip :: Covers(k, a) && Covers(k, b) ==> Head(a) == Head(b)) <==> Long(k.mask)
  {
    hide Long, Head, TopOf, PrefixMask, Matches, Wide;
    if Long(k.mask) {
      forall a: Ip, b: Ip | Covers(k, a) && Covers(k, b) ensures Head(a) == Head(b) {
        LongTop(k, a, b);
        SameTop(a, b);
      }
    } else {
      OtherTop(k.ip, k.mask);
      SameTop(k.ip, Wide(k.ip, k.mask));
    }
  }
}
