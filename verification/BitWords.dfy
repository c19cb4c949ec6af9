/** The bits of an unsigned long, which has 64 of them, and bitmaps made of such words. */
module BitWords {

  type Word = bv64

  const LONG_BITS := 64
  const ALL_ONES: Word := !0

  /** The mask that a loop reaches by shifting 1 to the left `i` times. */
  function Mask(i: nat): Word
    requires i <= LONG_BITS
  {
    if i == 0 then 1 else Mask(i - 1) << 1
  }

  /** The test of the loops: mask & word. */
  predicate Meets(w: Word, m: Word) { w & m != 0 }

  predicate Bit(w: Word, i: nat)
    requires i < LONG_BITS
  {
    Meets(w, Mask(i))
  }

  function With(w: Word, m: Word): Word { w | m }

  function Without(w: Word, m: Word): Word { w & !m }

  function Complement(w: Word): Word { !w }

  predicate PowerOfTwo(m: Word) { m != 0 && m & (m - 1) == 0 }

  lemma MaskNext(i: nat, n: nat)
    requires i + n + 1 <= LONG_BITS
    ensures Mask(i + n + 1) == Mask(i + n) << 1
  {
  }

  lemma ShiftEight(m: Word)
    ensures m << 1 << 1 << 1 << 1 << 1 << 1 << 1 << 1 == m << 8
  {
  }

  lemma MaskEight(i: nat)
    requires i + 8 <= LONG_BITS
    ensures Mask(i + 8) == Mask(i) << 8
  {
    hide Mask;
    MaskNext(i, 0);
    MaskNext(i, 1);
    MaskNext(i, 2);
    MaskNext(i, 3);
    MaskNext(i, 4);
    MaskNext(i, 5);
    MaskNext(i, 6);
    MaskNext(i, 7);
    ShiftEight(Mask(i));
  }

  /** Shifted out after the last bit, and not before. */
  lemma MaskEnd()
    ensures Mask(56) == 0x100_0000_0000_0000
    ensures Mask(63) == 0x8000_0000_0000_0000 && Mask(64) == 0
  {
    assert Mask(0) == 1;
    hide Mask;
    MaskEight(0);
    MaskEight(8);
    MaskEight(16);
    MaskEight(24);
    MaskEight(32);
    MaskEight(40);
    MaskEight(48);
    MaskEight(56);
    MaskNext(56, 0);
    MaskNext(56, 1);
    MaskNext(56, 2);
    MaskNext(56, 3);
    MaskNext(56, 4);
    MaskNext(56, 5);
    MaskNext(56, 6);
  }

  lemma {:induction false} MaskSet(i: nat)
    requires i < LONG_BITS
    ensures Mask(i) != 0
    decreases LONG_BITS - i
  {
    if i == 63 { MaskEnd(); } else { MaskSet(i + 1); }
  }

  lemma DoubleMask(m: Word)
    requires PowerOfTwo(m) && m << 1 != 0
    ensures PowerOfTwo(m << 1) && m < m << 1
  {
  }

  lemma {:induction false} MaskPower(i: nat)
    requires i < LONG_BITS
    ensures PowerOfTwo(Mask(i))
  {
    if i > 0 {
      MaskPower(i - 1);
      MaskSet(i);
      DoubleMask(Mask(i - 1));
    }
  }

  lemma {:induction false} MaskOrder(i: nat, j: nat)
    requires i < j < LONG_BITS
    ensures Mask(i) < Mask(j)
  {
    MaskPower(j - 1);
    MaskSet(j);
    DoubleMask(Mask(j - 1));
    if i < j - 1 { MaskOrder(i, j - 1); }
  }

  lemma PowersApart(a: Word, b: Word)
    requires PowerOfTwo(a) && PowerOfTwo(b) && a != b
    ensures a & b == 0
  {
  }

  lemma MasksApart(i: nat, j: nat)
    requires i < LONG_BITS && j < LONG_BITS && i != j
    ensures !Meets(Mask(i), Mask(j))
  {
    MaskPower(i);
    MaskPower(j);
    if i < j { MaskOrder(i, j); } else { MaskOrder(j, i); }
    PowersApart(Mask(i), Mask(j));
  }

  lemma OrAnd(w: Word, m: Word, n: Word)
    ensures (w | m) & n == (w & n) | (m & n)
  {
  }

  lemma SetMask(w: Word, m: Word, n: Word)
    ensures m != 0 ==> Meets(With(w, m), m)
    ensures !Meets(m, n) ==> Meets(With(w, m), n) == Meets(w, n)
  {
    assert With(w, m) & m == m;
    OrAnd(w, m, n);
    OrNothing(w & n);
  }

  lemma OrNothing(w: Word)
    ensures w | 0 == w
  {
  }

  lemma ClearMask(w: Word, m: Word, n: Word)
    ensures !Meets(Without(w, m), m)
    ensures !Meets(m, n) ==> Meets(Without(w, m), n) == Meets(w, n)
  {
  }

  lemma BitOfSet(w: Word, i: nat, j: nat)
    requires i < LONG_BITS && j < LONG_BITS
    ensures Bit(With(w, Mask(i)), j) <==> i == j || Bit(w, j)
  {
    hide Mask, Meets, With;
    MaskSet(i);
    if i != j { MasksApart(i, j); }
    SetMask(w, Mask(i), Mask(j));
  }

  lemma BitOfClear(w: Word, i: nat, j: nat)
    requires i < LONG_BITS && j < LONG_BITS
    ensures Bit(Without(w, Mask(i)), j) <==> i != j && Bit(w, j)
  {
    hide Mask, Meets, Without;
    if i != j { MasksApart(i, j); }
    ClearMask(w, Mask(i), Mask(j));
  }

  /** A power of two is all or nothing. */
  lemma PowerWhole(w: Word, m: Word)
    requires PowerOfTwo(m)
    ensures w & m == 0 || w & m == m
  {
  }

  lemma ComplementMask(w: Word, m: Word)
    requires PowerOfTwo(m)
    ensures Meets(Complement(w), m) <==> !Meets(w, m)
  {
    PowerWhole(w, m);
    Parts(w, m);
  }

  lemma Parts(w: Word, m: Word)
    ensures !w & m == m & !(w & m)
    ensures m & !m == 0 && m & !0 == m
  {
  }

  /** The bits below a power of two. */
  function Below(m: Word): Word { m - 1 }

  lemma LowStep(w: Word, m: Word, n: Word)
    requires PowerOfTwo(m) && !Meets(w, Below(m)) && !Meets(w, m) && n == m << 1
    ensures !Meets(w, Below(n))
  {
  }

  lemma {:induction false} LowBits(w: Word, i: nat)
    requires i <= LONG_BITS && forall k :: 0 <= k < i ==> !Bit(w, k)
    ensures !Meets(w, Below(Mask(i)))
  {
    hide Meets, PowerOfTwo, Below;
    if i > 0 {
      LowBits(w, i - 1);
      MaskPower(i - 1);
      assert !Bit(w, i - 1);
      LowStep(w, Mask(i - 1), Mask(i));
    } else {
      NothingBelow(w);
    }
  }

  lemma NothingBelow(w: Word)
    ensures !Meets(w, Below(1)) && !Meets(0, w)
    ensures !Meets(w, Below(0)) <==> w == 0
    ensures Complement(w) == 0 <==> w == ALL_ONES
  {
  }

  /** A word is 0 exactly when none of its bits is set. */
  lemma ZeroWord(w: Word)
    ensures w == 0 <==> forall k :: 0 <= k < LONG_BITS ==> !Bit(w, k)
  {
    hide Meets, Mask, Below;
    NothingBelow(w);
    if forall k :: 0 <= k < LONG_BITS ==> !Bit(w, k) {
      LowBits(w, LONG_BITS);
      MaskEnd();
    }
    if w == 0 {
      forall k | 0 <= k < LONG_BITS ensures !Bit(w, k) { NothingBelow(Mask(k)); }
    }
  }

  /** A word is all ones exactly when all its bits are set. */
  lemma FullWord(w: Word)
    ensures w == ALL_ONES <==> forall k :: 0 <= k < LONG_BITS ==> Bit(w, k)
  {
    hide Meets, Mask, Complement, Below;
    var c := Complement(w);
    NothingBelow(w);
    ZeroWord(c);
    forall k | 0 <= k < LONG_BITS ensures Bit(c, k) <==> !Bit(w, k) {
      MaskPower(k);
      ComplementMask(w, Mask(k));
    }
  }

  // ----- bitmaps -----

  predicate BitAt(words: seq<Word>, k: nat)
    requires k < LONG_BITS * |words|
  {
    Bit(words[k / LONG_BITS], k % LONG_BITS)
  }

  /** Setting or clearing bit `i` of word `u`. */
  lemma BitAtUpdate(words: seq<Word>, u: nat, i: nat, on: bool)
    requires u < |words| && i < LONG_BITS
    ensures var w := words[u := if on then With(words[u], Mask(i)) else Without(words[u], Mask(i))];
      forall k :: 0 <= k < LONG_BITS * |words| ==>
        (BitAt(w, k) <==> if k == u * LONG_BITS + i then on else BitAt(words, k))
  {
    hide Mask, Bit, With, Without;
    var w := words[u := if on then With(words[u], Mask(i)) else Without(words[u], Mask(i))];
    forall k | 0 <= k < LONG_BITS * |words|
      ensures BitAt(w, k) <==> if k == u * LONG_BITS + i then on else BitAt(words, k)
    {
      var j := k % LONG_BITS;
      if k / LONG_BITS == u {
        assert k == u * LONG_BITS + j;
        BitOfSet(words[u], i, j);
        BitOfClear(words[u], i, j);
      }
    }
  }
}
