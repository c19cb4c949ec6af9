/** The block allocator (src/blalloc.c): a chain of blocks, each with room for a fixed
    number of elements and a bitmap of those in use. Pointers are addresses. */
module BlockHeaps {
  import opened BitWords

  const POINTER_SIZE := 8

  /** elemSize, elemsPerBlock and numlongs of a heap. */
  datatype Shape = Shape(size: nat, count: nat, longs: nat)

  predicate ShapeOk(s: Shape) {
    s.size > 0 && s.count > 0 && s.longs == s.count / LONG_BITS + (if s.count % LONG_BITS == 0 then 0 else 1)
  }

  datatype Block = Block(elems: nat, freeElems: int, allocMap: seq<Word>)

  function Addr(s: Shape, b: Block, k: nat): nat { b.elems + k * s.size }

  /** The elements in use. */
  function Used(s: Shape, b: Block): set<nat>
    requires ShapeOk(s) && |b.allocMap| == s.longs
  {
    set k: nat | 0 <= k < s.count && BitAt(b.allocMap, k)
  }

  /** The free count is right, and the bits that stand for no element are clear. */
  predicate BlockOk(s: Shape, b: Block)
    requires ShapeOk(s)
  {
    && |b.allocMap| == s.longs
    && b.freeElems == s.count - |Used(s, b)|
    && forall k :: s.count <= k < LONG_BITS * s.longs ==> !BitAt(b.allocMap, k)
  }

  /** The memory of two blocks does not overlap. */
  predicate Apart(s: Shape, a: nat, b: nat) {
    a + (s.count + 1) * s.size <= b || b + (s.count + 1) * s.size <= a
  }

  predicate ChainOk(s: Shape, bs: seq<Block>)
    requires ShapeOk(s)
  {
    && (forall i :: 0 <= i < |bs| ==> BlockOk(s, bs[i]))
    && forall i, j :: 0 <= i < j < |bs| ==> Apart(s, bs[i].elems, bs[j].elems)
  }

  function FreeTotal(bs: seq<Block>): int {
    if bs == [] then 0 else bs[0].freeElems + FreeTotal(bs[1..])
  }

  /** Pointer `p` is element `k` of block `i` and in use. */
  predicate Holds(s: Shape, bs: seq<Block>, i: int, k: int, p: nat) {
    && 0 <= i < |bs| && 0 <= k < s.count && k < LONG_BITS * |bs[i].allocMap|
    && BitAt(bs[i].allocMap, k) && p == Addr(s, bs[i], k)
  }

  ghost predicate LiveIs(s: Shape, bs: seq<Block>, live: set<nat>) {
    forall p :: p in live <==> exists i, k :: Holds(s, bs, i, k, p)
  }

  // ----- counting -----

  function Indices(n: nat): (r: set<nat>)
    ensures forall k: nat :: k in r <==> k < n
  {
    if n == 0 then {} else Indices(n - 1) + {n - 1}
  }

  lemma {:induction false} IndicesSize(n: nat)
    ensures |Indices(n)| == n
  {
    if n > 0 {
      IndicesSize(n - 1);
    }
  }

  lemma SubsetSize(a: set<nat>, b: set<nat>)
    requires a <= b
    ensures |a| <= |b| && (|a| == |b| ==> a == b)
  {
    assert b == a + (b - a) && |b| == |a| + |b - a|;
  }

  lemma UsedSize(s: Shape, b: Block)
    requires ShapeOk(s) && BlockOk(s, b)
    ensures 0 <= b.freeElems <= s.count
    ensures b.freeElems == 0 ==> forall k :: 0 <= k < s.count ==> BitAt(b.allocMap, k)
    ensures b.freeElems > 0 ==> exists k :: 0 <= k < s.count && !BitAt(b.allocMap, k)
    ensures b.freeElems == s.count <==> forall k :: 0 <= k < s.count ==> !BitAt(b.allocMap, k)
  {
    IndicesSize(s.count);
    SubsetSize(Used(s, b), Indices(s.count));
    if b.freeElems == 0 {
      forall k | 0 <= k < s.count ensures BitAt(b.allocMap, k) { assert k in Indices(s.count); }
    }
    if forall k :: 0 <= k < s.count ==> BitAt(b.allocMap, k) {
      assert Used(s, b) == Indices(s.count);
    }
    if b.freeElems == s.count {
      forall k | 0 <= k < s.count ensures !BitAt(b.allocMap, k) { assert k !in Used(s, b); }
    }
    if forall k :: 0 <= k < s.count ==> !BitAt(b.allocMap, k) {
      assert Used(s, b) == {};
    }
  }

  lemma {:induction false} FreeTotalUpdate(bs: seq<Block>, i: nat, b: Block)
    requires i < |bs|
    ensures FreeTotal(bs[i := b]) == FreeTotal(bs) - bs[i].freeElems + b.freeElems
  {
    if i == 0 {
      assert bs[i := b][1..] == bs[1..];
    } else {
      FreeTotalUpdate(bs[1..], i - 1, b);
      assert bs[i := b][1..] == bs[1..][i - 1 := b];
    }
  }

  lemma {:induction false} FreeTotalBounds(s: Shape, bs: seq<Block>)
    requires ShapeOk(s) && forall i :: 0 <= i < |bs| ==> BlockOk(s, bs[i])
    ensures FreeTotal(bs) >= 0
    ensures forall i :: 0 <= i < |bs| ==> bs[i].freeElems <= FreeTotal(bs)
    ensures FreeTotal(bs) > 0 ==> exists i :: 0 <= i < |bs| && bs[i].freeElems > 0
  {
    if bs != [] {
      UsedSize(s, bs[0]);
      FreeTotalBounds(s, bs[1..]);
      if FreeTotal(bs[1..]) > 0 {
        var i :| 0 <= i < |bs[1..]| && bs[1..][i].freeElems > 0;
        assert bs[i + 1].freeElems > 0;
      }
      forall i | 0 <= i < |bs| ensures bs[i].freeElems <= FreeTotal(bs) {
        if i > 0 { assert bs[i] == bs[1..][i - 1]; }
      }
    }
  }

  // ----- addresses -----

  lemma MulOrder(k: nat, l: nat, size: nat)
    requires k < l
    ensures k * size + size <= l * size
  {
    assert (l - k - 1) * size >= 0;
    assert l * size == k * size + size + (l - k - 1) * size;
  }

  /** Different elements are at least one element size away from each other. */
  lemma AddrsApart(s: Shape, bs: seq<Block>, i: nat, k: nat, j: nat, l: nat)
    requires ShapeOk(s) && ChainOk(s, bs) && i < |bs| && j < |bs| && k < s.count && l < s.count && (i != j || k != l)
    ensures var a, b := Addr(s, bs[i], k), Addr(s, bs[j], l); a + s.size <= b || b + s.size <= a
  {
    hide ShapeOk, BlockOk;
    if i == j {
      if k < l { SlotsApart(bs[i].elems, k, l, s.size); } else { SlotsApart(bs[i].elems, l, k, s.size); }
    } else {
      assert Apart(s, bs[i].elems, bs[j].elems) || Apart(s, bs[j].elems, bs[i].elems);
      BlocksApart(s, bs[i].elems, k, bs[j].elems, l);
    }
  }

  lemma SlotsApart(a: nat, k: nat, l: nat, size: nat)
    requires k < l
    ensures a + k * size + size <= a + l * size
  {
    MulOrder(k, l, size);
  }

  lemma BlocksApart(s: Shape, a: nat, k: nat, b: nat, l: nat)
    requires (Apart(s, a, b) || Apart(s, b, a)) && k < s.count && l < s.count
    ensures a + k * s.size + s.size <= b + l * s.size || b + l * s.size + s.size <= a + k * s.size
  {
    MulOrder(k, s.count + 1, s.size);
    MulOrder(l, s.count + 1, s.size);
  }

  /** What BlockHeapCreate makes of the size it is given, to align the elements. */
  function PaddedSize(elemsize: nat): (size: nat)
    ensures elemsize <= size < elemsize + POINTER_SIZE
  {
    elemsize + elemsize % POINTER_SIZE
  }

  /** The elements of an aligned block are aligned exactly when the size given leaves 0 or 4 on division by
      8, or there is one element only: the padding adds what is beyond a multiple, not what is missing, so
      that 9 becomes 10. */
  lemma ElementsAligned(elemsize: nat, s: Shape, b: Block)
    requires s.size == PaddedSize(elemsize) && s.count > 0 && b.elems % POINTER_SIZE == 0
    ensures (forall k: nat :: k < s.count ==> Addr(s, b, k) % POINTER_SIZE == 0)
       <==> s.count == 1 || elemsize % POINTER_SIZE == 0 || elemsize % POINTER_SIZE == 4
  {
    PaddedRest(elemsize);
    if s.size % POINTER_SIZE == 0 {
      forall k: nat | k < s.count ensures Addr(s, b, k) % POINTER_SIZE == 0 { Multiples(b.elems, k, s.size); }
    } else if s.count > 1 {
      assert Addr(s, b, 1) == b.elems + s.size;
    } else {
      assert Addr(s, b, 0) == b.elems;
    }
  }

  lemma PaddedRest(n: nat)
    ensures PaddedSize(n) % POINTER_SIZE == 0 <==> n % POINTER_SIZE == 0 || n % POINTER_SIZE == 4
  {
    var q, r := n / POINTER_SIZE, n % POINTER_SIZE;
    assert PaddedSize(n) == POINTER_SIZE * q + 2 * r;
  }

  lemma Multiples(a: nat, k: nat, size: nat)
    requires a % POINTER_SIZE == 0 && size % POINTER_SIZE == 0
    ensures (a + k * size) % POINTER_SIZE == 0
  {
    var n, m := a / POINTER_SIZE, size / POINTER_SIZE;
    Eightfold(k, m);
    Multiple(n + k * m);
    assert a == POINTER_SIZE * n && size == POINTER_SIZE * m;
  }

  lemma Eightfold(k: nat, m: nat)
    ensures k * (POINTER_SIZE * m) == POINTER_SIZE * (k * m)
  {
  }

  lemma Multiple(x: nat)
    ensures (POINTER_SIZE * x) % POINTER_SIZE == 0
  {
  }

  /** The live elements of a consistent heap do not overlap. */
  lemma LiveApart(s: Shape, bs: seq<Block>, live: set<nat>, p: nat, q: nat)
    requires ShapeOk(s) && ChainOk(s, bs) && LiveIs(s, bs, live) && p in live && q in live && p < q
    ensures p + s.size <= q
  {
    var i, k :| Holds(s, bs, i, k, p);
    var j, l :| Holds(s, bs, j, l, q);
    AddrsApart(s, bs, i, k, j, l);
  }

  /** The caller has all the bytes that it asked for to itself, in every element that is live. */
  lemma AskedApart(elemsize: nat, s: Shape, bs: seq<Block>, live: set<nat>, p: nat, q: nat)
    requires s.size == PaddedSize(elemsize) && ShapeOk(s) && ChainOk(s, bs) && LiveIs(s, bs, live)
    requires p in live && q in live && p != q
    ensures p + elemsize <= q || q + elemsize <= p
  {
    hide ShapeOk, ChainOk, LiveIs;
    if p < q { LiveApart(s, bs, live, p, q); } else { LiveApart(s, bs, live, q, p); }
  }

  /** ptr lies between elems and endElem. */
  predicate InBlock(s: Shape, b: Block, p: nat)
    requires s.count > 0
  {
    b.elems <= p <= b.elems + (s.count - 1) * s.size
  }

  /** The element that BlockHeapFree takes `p` for. */
  function ElementOf(s: Shape, b: Block, p: nat): (k: nat)
    requires ShapeOk(s) && InBlock(s, b, p)
    ensures k < s.count && Addr(s, b, k) <= p < Addr(s, b, k) + s.size
  {
    ElementBound(s, p - b.elems);
    (p - b.elems) / s.size
  }

  lemma ElementBound(s: Shape, d: nat)
    requires s.size > 0 && d <= (s.count - 1) * s.size
    ensures d / s.size < s.count && (d / s.size) * s.size <= d < (d / s.size) * s.size + s.size
  {
    var k := d / s.size;
    assert d == s.size * k + d % s.size;
    if s.count <= k { MulOrder(s.count - 1, k, s.size); }
  }

  lemma ElementOfAddr(s: Shape, b: Block, k: nat)
    requires ShapeOk(s) && k < s.count
    ensures InBlock(s, b, Addr(s, b, k)) && ElementOf(s, b, Addr(s, b, k)) == k
  {
    if k < s.count - 1 { MulOrder(k, s.count - 1, s.size); }
    var l := ElementOf(s, b, Addr(s, b, k));
    if k < l { MulOrder(k, l, s.size); } else if l < k { MulOrder(l, k, s.size); }
  }

  // ----- changing one bit -----

  /** Block `b` with bit `i` of word `u` set or cleared and its free count adapted. */
  function Switched(b: Block, u: nat, i: nat, on: bool): Block
    requires u < |b.allocMap| && i < LONG_BITS
  {
    Block(b.elems, if on then b.freeElems - 1 else b.freeElems + 1,
          b.allocMap[u := if on then With(b.allocMap[u], Mask(i)) else Without(b.allocMap[u], Mask(i))])
  }

  lemma SwitchBlock(s: Shape, b: Block, u: nat, i: nat, on: bool)
    requires ShapeOk(s) && BlockOk(s, b) && i < LONG_BITS && u * LONG_BITS + i < s.count && u < |b.allocMap|
    requires BitAt(b.allocMap, u * LONG_BITS + i) == !on
    ensures BlockOk(s, Switched(b, u, i, on))
    ensures forall k :: 0 <= k < LONG_BITS * s.longs ==>
      (BitAt(Switched(b, u, i, on).allocMap, k) <==> if k == u * LONG_BITS + i then on else BitAt(b.allocMap, k))
  {
    hide BitAt, With, Without, Mask;
    BitAtUpdate(b.allocMap, u, i, on);
    OneMore(s, b, Switched(b, u, i, on), u * LONG_BITS + i, on);
  }

  /** Block `b'` is `b` with one element more or less in use. */
  lemma OneMore(s: Shape, b: Block, b': Block, x: nat, on: bool)
    requires ShapeOk(s) && BlockOk(s, b) && |b'.allocMap| == s.longs && x < s.count && BitAt(b.allocMap, x) == !on
    requires b'.freeElems == if on then b.freeElems - 1 else b.freeElems + 1
    requires forall k :: 0 <= k < LONG_BITS * s.longs ==>
        (BitAt(b'.allocMap, k) <==> if k == x then on else BitAt(b.allocMap, k))
    ensures BlockOk(s, b')
  {
    hide BitAt;
    if on {
      assert Used(s, b') == Used(s, b) + {x} && x !in Used(s, b);
    } else {
      assert Used(s, b) == Used(s, b') + {x} && x !in Used(s, b');
      assert b'.freeElems == s.count - |Used(s, b')|;
    }
    forall k | s.count <= k < LONG_BITS * s.longs ensures !BitAt(b'.allocMap, k) {
      assert k != x && !BitAt(b.allocMap, k);
    }
  }

  lemma SwitchChain(s: Shape, bs: seq<Block>, live: set<nat>, n: nat, u: nat, i: nat, on: bool)
    requires ShapeOk(s) && ChainOk(s, bs) && LiveIs(s, bs, live) && n < |bs|
    requires i < LONG_BITS && u * LONG_BITS + i < s.count && u < s.longs
    requires BitAt(bs[n].allocMap, u * LONG_BITS + i) == !on
    ensures var p, bs' := Addr(s, bs[n], u * LONG_BITS + i), bs[n := Switched(bs[n], u, i, on)];
      && ChainOk(s, bs') && (p in live <==> !on)
      && LiveIs(s, bs', if on then live + {p} else live - {p})
      && FreeTotal(bs') == FreeTotal(bs) + (if on then -1 else 1)
  {
    hide BitAt, Addr, FreeTotal, Used;
    var x := u * LONG_BITS + i;
    var p, bs' := Addr(s, bs[n], x), bs[n := Switched(bs[n], u, i, on)];
    SwitchBlock(s, bs[n], u, i, on);
    FreeTotalUpdate(bs, n, bs'[n]);
    assert bs'[n].elems == bs[n].elems;
    forall j, k, q | Holds(s, bs, j, k, q) ensures q == p ==> j == n && k == x { SameAddr(s, bs, j, k, n, x); }
    if !on { assert Holds(s, bs, n, x, p); }
    var live' := if on then live + {p} else live - {p};
    forall q ensures q in live' <==> exists j, k :: Holds(s, bs', j, k, q) {
      if q in live' && q in live {
        var j, k :| Holds(s, bs, j, k, q);
        SameElems(s, bs, n, bs'[n], j, k);
        assert Holds(s, bs', j, k, q);
      }
      if q == p && on { SameElems(s, bs, n, bs'[n], n, x); assert Holds(s, bs', n, x, p); }
      if j, k :| Holds(s, bs', j, k, q) {
        SameElems(s, bs, n, bs'[n], j, k);
        if j == n && k == x {
        } else {
          assert Holds(s, bs, j, k, q);
          if q == p { SameAddr(s, bs, j, k, n, x); }
        }
      }
    }
  }

  lemma SameElems(s: Shape, bs: seq<Block>, n: nat, b: Block, j: nat, k: nat)
    requires n < |bs| && j < |bs| && b.elems == bs[n].elems
    ensures Addr(s, bs[n := b][j], k) == Addr(s, bs[j], k)
  {
  }

  lemma SameAddr(s: Shape, bs: seq<Block>, i: nat, k: nat, j: nat, l: nat)
    requires ShapeOk(s) && ChainOk(s, bs) && i < |bs| && j < |bs| && k < s.count && l < s.count
    ensures Addr(s, bs[i], k) == Addr(s, bs[j], l) ==> i == j && k == l
  {
    if i != j || k != l { AddrsApart(s, bs, i, k, j, l); }
  }

  // ----- blocks added and removed -----

  function FreshBlock(s: Shape, mem: nat): Block { Block(mem, s.count, seq(s.longs, _ => 0)) }

  lemma FreshBlockOk(s: Shape, mem: nat)
    requires ShapeOk(s)
    ensures BlockOk(s, FreshBlock(s, mem)) && FreshBlock(s, mem).elems == mem && FreshBlock(s, mem).freeElems == s.count
    ensures |FreshBlock(s, mem).allocMap| == s.longs
    ensures forall k :: 0 <= k < LONG_BITS * s.longs ==> !BitAt(FreshBlock(s, mem).allocMap, k)
  {
    hide Bit;
    var b := FreshBlock(s, mem);
    ZeroWord(0);
    forall k | 0 <= k < LONG_BITS * s.longs ensures !BitAt(b.allocMap, k) { assert b.allocMap[k / LONG_BITS] == 0; }
    assert Used(s, b) == {};
  }

  lemma AddBlock(s: Shape, bs: seq<Block>, live: set<nat>, mem: nat)
    requires ShapeOk(s) && ChainOk(s, bs) && LiveIs(s, bs, live)
    requires forall i :: 0 <= i < |bs| ==> Apart(s, mem, bs[i].elems)
    ensures var bs' := [FreshBlock(s, mem)] + bs;
      ChainOk(s, bs') && LiveIs(s, bs', live) && FreeTotal(bs') == FreeTotal(bs) + s.count
  {
    hide BitAt, Addr, Used, BlockOk, FreeTotal;
    var b := FreshBlock(s, mem);
    FreshBlockOk(s, mem);
    hide FreshBlock;
    FreeTotalFront(b, bs);
    LiveFront(s, b, bs, live);
    var bs' := [b] + bs;
    assert forall i :: 0 < i < |bs'| ==> bs'[i] == bs[i - 1];
  }

  lemma FreeTotalFront(b: Block, bs: seq<Block>)
    ensures FreeTotal([b] + bs) == b.freeElems + FreeTotal(bs)
  {
    assert ([b] + bs)[1..] == bs;
  }

  lemma LiveFront(s: Shape, b: Block, bs: seq<Block>, live: set<nat>)
    requires ShapeOk(s) && LiveIs(s, bs, live) && |b.allocMap| == s.longs
    requires forall k :: 0 <= k < LONG_BITS * s.longs ==> !BitAt(b.allocMap, k)
    ensures LiveIs(s, [b] + bs, live)
  {
    hide BitAt, Addr;
    var bs' := [b] + bs;
    forall q ensures q in live <==> exists j, k :: Holds(s, bs', j, k, q) {
      if q in live {
        var j, k :| Holds(s, bs, j, k, q);
        assert Holds(s, bs', j + 1, k, q);
      }
      if j, k :| Holds(s, bs', j, k, q) { assert Holds(s, bs, j - 1, k, q); }
    }
  }

  predicate Empty(b: Block) { forall i :: 0 <= i < |b.allocMap| ==> b.allocMap[i] == 0 }

  lemma EmptyIs(s: Shape, b: Block)
    requires ShapeOk(s) && BlockOk(s, b)
    ensures Empty(b) <==> Used(s, b) == {}
    ensures Empty(b) ==> b.freeElems == s.count
  {
    hide Bit;
    if Empty(b) {
      ZeroWord(0);
      forall k | 0 <= k < s.count ensures !BitAt(b.allocMap, k) { assert b.allocMap[k / LONG_BITS] == 0; }
      assert Used(s, b) == {};
    } else {
      var i :| 0 <= i < |b.allocMap| && b.allocMap[i] != 0;
      ZeroWord(b.allocMap[i]);
      var j :| 0 <= j < LONG_BITS && Bit(b.allocMap[i], j);
      var k := i * LONG_BITS + j;
      assert BitAt(b.allocMap, k);
      assert k in Used(s, b);
    }
  }

  lemma RemoveBlock(s: Shape, bs: seq<Block>, live: set<nat>, n: nat)
    requires ShapeOk(s) && ChainOk(s, bs) && LiveIs(s, bs, live) && n < |bs| && Empty(bs[n])
    ensures var bs' := bs[..n] + bs[n + 1..];
      ChainOk(s, bs') && LiveIs(s, bs', live) && FreeTotal(bs') == FreeTotal(bs) - s.count
  {
    hide BitAt, Addr, Used, BlockOk;
    var bs' := bs[..n] + bs[n + 1..];
    EmptyIs(s, bs[n]);
    FreeTotalRemove(bs, n);
    assert forall i :: 0 <= i < |bs'| ==> bs'[i] == bs[if i < n then i else i + 1];
    forall q ensures q in live <==> exists j, k :: Holds(s, bs', j, k, q) {
      if q in live {
        var j, k :| Holds(s, bs, j, k, q);
        if j == n { NoneUsed(s, bs[n], k); }
        assert Holds(s, bs', if j < n then j else j - 1, k, q);
      }
      if j, k :| Holds(s, bs', j, k, q) { assert Holds(s, bs, if j < n then j else j + 1, k, q); }
    }
  }

  lemma NoneUsed(s: Shape, b: Block, k: nat)
    requires ShapeOk(s) && BlockOk(s, b) && k < s.count && Used(s, b) == {}
    ensures !BitAt(b.allocMap, k)
  {
    assert k !in Used(s, b);
  }

  lemma {:induction false} FreeTotalRemove(bs: seq<Block>, n: nat)
    requires n < |bs|
    ensures FreeTotal(bs[..n] + bs[n + 1..]) == FreeTotal(bs) - bs[n].freeElems
  {
    if n == 0 {
      assert bs[..n] + bs[n + 1..] == bs[1..];
    } else {
      FreeTotalRemove(bs[1..], n - 1);
      assert (bs[..n] + bs[n + 1..])[1..] == bs[1..][..n - 1] + bs[1..][n..];
    }
  }

  /** The blocks that garbage collection keeps, in their order. */
  function Kept(bs: seq<Block>): seq<Block> {
    if bs == [] then [] else Kept(bs[..|bs| - 1]) + (if Empty(bs[|bs| - 1]) then [] else [bs[|bs| - 1]])
  }

  lemma {:induction false} KeptNone(bs: seq<Block>)
    requires forall i :: 0 <= i < |bs| ==> !Empty(bs[i])
    ensures Kept(bs) == bs
  {
    hide Empty;
    if bs != [] { KeptNone(bs[..|bs| - 1]); }
  }

  function Bases(bs: seq<Block>): (r: seq<nat>)
    ensures |r| == |bs| && forall i :: 0 <= i < |bs| ==> r[i] == bs[i].elems
  {
    seq(|bs|, i requires 0 <= i < |bs| => bs[i].elems)
  }

  // ----- the heap -----

  class BlockHeap {
    const s: Shape
    var blocksAllocated: int
    var freeElems: int
    var blocks: seq<Block>
    /** The elements handed out and not freed since. */
    ghost var live: set<nat>

    ghost predicate Valid()
      reads this
    {
      && ShapeOk(s) && ChainOk(s, blocks) && LiveIs(s, blocks, live)
      && freeElems == FreeTotal(blocks) && blocksAllocated == |blocks|
    }

    /** Memory that get_block may return: it overlaps no block of the heap. */
    predicate Unused(mem: nat)
      reads this
    {
      forall i :: 0 <= i < |blocks| ==> Apart(s, mem, blocks[i].elems)
    }

    /** BlockHeapCreate. */
    constructor (elemsize: nat, elemsperblock: nat, mem: nat)
      requires elemsize > 0 && elemsperblock > 0
      ensures Valid() && live == {} && Bases(blocks) == [mem]
      ensures s.size == PaddedSize(elemsize) && s.count == elemsperblock
    {
      var longs := elemsperblock / LONG_BITS + 1;
      if elemsperblock % LONG_BITS == 0 { longs := longs - 1; }
      s := Shape(PaddedSize(elemsize), elemsperblock, longs);
      blocks, live, freeElems, blocksAllocated := [], {}, 0, 0;
      new;
      NewBlock(mem);
    }

    /** newblock. */
    method NewBlock(mem: nat)
      requires Valid() && Unused(mem)
      modifies this
      ensures Valid() && live == old(live) && freeElems == old(freeElems) + s.count
      ensures blocks == [FreshBlock(s, mem)] + old(blocks)
    {
      hide ChainOk, LiveIs, FreeTotal;
      AddBlock(s, blocks, live, mem);
      var b := Block(mem, s.count, seq(s.longs, _ => 0));
      blocksAllocated := blocksAllocated + 1;
      freeElems := freeElems + s.count;
      blocks := [b] + blocks;
    }

    /** The search for a clear bit in BlockHeapAlloc: the first one, and there is one. */
    static method FirstClear(s: Shape, b: Block) returns (unit: nat, ctr: nat)
      requires ShapeOk(s) && BlockOk(s, b) && b.freeElems > 0
      ensures unit < s.longs && ctr < LONG_BITS && unit * LONG_BITS + ctr < s.count
      ensures !BitAt(b.allocMap, unit * LONG_BITS + ctr)
      ensures forall k :: 0 <= k < unit * LONG_BITS + ctr ==> BitAt(b.allocMap, k)
    {
      hide Mask, BitAt, Used, Meets, Bit, ShapeOk, BlockOk;
      ghost var clear := ClearElement(s, b);
      var mask: Word := 1;
      FirstMask();
      unit, ctr := 0, 0;
      while unit < s.longs
        invariant 0 <= unit <= s.longs && 0 <= ctr < LONG_BITS && mask == Mask(ctr)
        invariant unit == s.longs ==> ctr == 0
        invariant forall k :: 0 <= k < unit * LONG_BITS + ctr ==> BitAt(b.allocMap, k)
        decreases s.longs - unit, LONG_BITS - ctr
      {
        WordBits(b.allocMap, unit);
        BitIs(b.allocMap, unit, ctr);
        if mask == 1 && b.allocMap[unit] == ALL_ONES {
          MaskOne(ctr);
          assert ctr == 0;
          unit, ctr := unit + 1, 0;
          continue;
        }
        if !Meets(b.allocMap[unit], mask) {
          assert !(clear < unit * LONG_BITS + ctr);
          return;
        }
        MaskShift(ctr);
        mask := mask << 1;
        ctr := ctr + 1;
        if mask == 0 {
          mask, unit, ctr := 1, unit + 1, 0;
        }
      }
      assert false;
    }

    /** BlockHeapAlloc. It always finds an element; `mem` is what get_block returns if it
        is called. */
    method Alloc(mem: nat) returns (p: nat)
      requires Valid() && Unused(mem)
      modifies this
      ensures Valid() && p !in old(live) && live == old(live) + {p}
      ensures if old(freeElems) == 0 then p == mem && Bases(blocks) == [mem] + Bases(old(blocks))
              else Bases(blocks) == Bases(old(blocks)) && freeElems == old(freeElems) - 1
    {
      hide ChainOk, LiveIs, FreeTotal, BitAt, Used, Mask;
      if freeElems == 0 {
        NewBlock(mem);
        FreshBlockOk(s, mem);
        FirstMask();
        SwitchChain(s, blocks, live, 0, 0, 0, true);
        FirstWord();
        var b := blocks[0];
        blocks := blocks[0 := Block(b.elems, b.freeElems - 1, b.allocMap[0 := 1])];
        freeElems := freeElems - 1;
        live := live + {mem};
        return blocks[0].elems;
      }
      ChainBlocks(s, blocks);
      FreeTotalBounds(s, blocks);
      var i := 0;
      while i < |blocks|
        invariant 0 <= i <= |blocks| && blocks == old(blocks) && live == old(live) && Valid()
        invariant forall j :: 0 <= j < i ==> blocks[j].freeElems <= 0
      {
        if blocks[i].freeElems > 0 {
          var unit, ctr := FirstClear(s, blocks[i]);
          SwitchChain(s, blocks, live, i, unit, ctr, true);
          p := blocks[i].elems + (unit * LONG_BITS + ctr) * s.size;
          blocks := blocks[i := Switched(blocks[i], unit, ctr, true)];
          freeElems := freeElems - 1;
          live := live + {p};
          return;
        }
        i := i + 1;
      }
      assert false;
    }

    /** BlockHeapFree. */
    method Free(p: nat) returns (r: int)
      requires Valid()
      modifies this
      ensures Valid() && Bases(blocks) == Bases(old(blocks))
      ensures r == if exists i :: 0 <= i < |blocks| && InBlock(s, old(blocks)[i], p) then 0 else 1
      ensures r == 1 ==> blocks == old(blocks) && live == old(live)
      ensures forall i :: 0 <= i < |blocks| && InBlock(s, old(blocks)[i], p) ==>
        var q := Addr(s, old(blocks)[i], ElementOf(s, old(blocks)[i], p));
        live == old(live) - {q} && (q !in old(live) ==> blocks == old(blocks))
      ensures p in old(live) ==> r == 0 && live == old(live) - {p}
    {
      hide ChainOk, LiveIs, FreeTotal, BitAt, Used, Mask, Addr, ElementOf, InBlock;
      ChainBlocks(s, blocks);
      LiveInBlock(s, blocks, live, p);
      var i := 0;
      while i < |blocks|
        invariant 0 <= i <= |blocks| && blocks == old(blocks) && live == old(live) && Valid()
        invariant forall j :: 0 <= j < i ==> !InBlock(s, blocks[j], p)
      {
        if InBlock(s, blocks[i], p) {
          var k := ElementOf(s, blocks[i], p);
          var ctr, word := k % LONG_BITS, k / LONG_BITS;
          assert k == word * LONG_BITS + ctr;
          forall j | 0 <= j < |blocks| && InBlock(s, blocks[j], p) ensures j == i { OneBlock(s, blocks, i, j, p); }
          BitIs(blocks[i].allocMap, word, ctr);
          if Meets(blocks[i].allocMap[word], Mask(ctr)) {
            SwitchChain(s, blocks, live, i, word, ctr, false);
            live := live - {Addr(s, blocks[i], k)};
            blocks := blocks[i := Switched(blocks[i], word, ctr, false)];
            freeElems := freeElems + 1;
          } else {
            NotLive(s, blocks, live, i, k);
          }
          return 0;
        }
        i := i + 1;
      }
      return 1;
    }

    /** BlockHeapGarbageCollect: blocks without an element in use are unlinked, the first
        one of the chain included. */
    method GarbageCollect()
      requires Valid()
      modifies this
      ensures Valid() && live == old(live) && blocks == Kept(old(blocks))
      ensures forall i :: 0 <= i < |blocks| ==> |blocks[i].allocMap| == s.longs && Used(s, blocks[i]) != {}
    {
      hide ChainOk, LiveIs, FreeTotal, Used, Empty, Kept, Swept, BlockOk;
      ChainBlocks(s, blocks);
      if freeElems < s.count {
        NoneEmpty(s, blocks);
        KeptNone(blocks);
        return;
      }
      var n := 0;
      ghost var seen := 0;
      SweepNone(s, blocks);
      while n < |blocks|
        invariant Valid() && live == old(live)
        invariant Swept(s, old(blocks), seen, blocks, n)
        decreases |blocks| - n
      {
        ChainBlocks(s, blocks);
        SweepBounds(s, old(blocks), seen, blocks, n);
        BlockWords(s, blocks[n]);
        var i := 0;
        while i < s.longs && blocks[n].allocMap[i] == 0
          invariant 0 <= i <= s.longs && forall j :: 0 <= j < i ==> blocks[n].allocMap[j] == 0
        {
          i := i + 1;
        }
        WordsEmpty(blocks[n], i);
        EmptyIs(s, blocks[n]);
        SweepOne(s, old(blocks), seen, blocks, n);
        if i == s.longs {
          RemoveBlock(s, blocks, live, n);
          blocks := blocks[..n] + blocks[n + 1..];
          blocksAllocated := blocksAllocated - 1;
          freeElems := freeElems - s.count;
        } else {
          n := n + 1;
        }
        seen := seen + 1;
      }
      SweepBounds(s, old(blocks), seen, blocks, n);
      SweptAll(s, old(blocks), seen, blocks, n);
    }
  }

  // ----- helpers for the loops -----

  /** The collection has looked at `seen` blocks of `was`, and `n` of them are left. */
  ghost predicate Swept(s: Shape, was: seq<Block>, seen: nat, bs: seq<Block>, n: nat) {
    && seen <= |was| && n <= |bs| && ShapeOk(s)
    && bs == Kept(was[..seen]) + was[seen..] && n == |Kept(was[..seen])|
    && forall i :: 0 <= i < n ==> |bs[i].allocMap| == s.longs && Used(s, bs[i]) != {}
  }

  /** With fewer free elements than a block has, no block is free as a whole. */
  lemma NoneEmpty(s: Shape, bs: seq<Block>)
    requires ShapeOk(s) && ChainOk(s, bs) && FreeTotal(bs) < s.count
    ensures forall i :: 0 <= i < |bs| ==> |bs[i].allocMap| == s.longs && Used(s, bs[i]) != {} && !Empty(bs[i])
  {
    hide Used, Empty;
    FreeTotalBounds(s, bs);
    forall i | 0 <= i < |bs| ensures |bs[i].allocMap| == s.longs && Used(s, bs[i]) != {} && !Empty(bs[i]) {
      EmptyIs(s, bs[i]);
    }
  }

  lemma SweepNone(s: Shape, bs: seq<Block>)
    requires ShapeOk(s)
    ensures Swept(s, bs, 0, bs, 0)
  {
    assert bs[..0] == [] && bs[0..] == bs;
  }

  lemma SweepBounds(s: Shape, was: seq<Block>, seen: nat, bs: seq<Block>, n: nat)
    requires Swept(s, was, seen, bs, n)
    ensures n <= |bs| && seen <= |was|
  {
  }

  lemma BlockWords(s: Shape, b: Block)
    requires ShapeOk(s) && BlockOk(s, b)
    ensures |b.allocMap| == s.longs
  {
  }

  lemma SweepOne(s: Shape, was: seq<Block>, seen: nat, bs: seq<Block>, n: nat)
    requires Swept(s, was, seen, bs, n) && n < |bs| && BlockOk(s, bs[n])
    ensures seen < |was|
    ensures Empty(bs[n]) ==> Swept(s, was, seen + 1, bs[..n] + bs[n + 1..], n)
    ensures !Empty(bs[n]) ==> Swept(s, was, seen + 1, bs, n + 1)
  {
    hide Empty, Used;
    var k := Kept(was[..seen]);
    assert bs[n] == was[seen];
    assert was[..seen + 1][..seen] == was[..seen];
    assert was[seen..] == [was[seen]] + was[seen + 1..];
    if Empty(bs[n]) {
      assert bs[..n] + bs[n + 1..] == k + was[seen + 1..];
    } else {
      assert Kept(was[..seen + 1]) == k + [was[seen]];
      assert bs == (k + [was[seen]]) + was[seen + 1..];
      EmptyIs(s, bs[n]);
      assert |bs[n].allocMap| == s.longs && Used(s, bs[n]) != {};
    }
  }

  lemma SweptAll(s: Shape, was: seq<Block>, seen: nat, bs: seq<Block>, n: nat)
    requires Swept(s, was, seen, bs, n) && n == |bs|
    ensures bs == Kept(was)
    ensures forall i :: 0 <= i < |bs| ==> |bs[i].allocMap| == s.longs && Used(s, bs[i]) != {}
  {
    assert was[seen..] == [];
    assert was[..seen] == was;
  }

  lemma ClearElement(s: Shape, b: Block) returns (k: nat)
    requires ShapeOk(s) && BlockOk(s, b) && b.freeElems > 0
    ensures |b.allocMap| == s.longs && k < s.count <= LONG_BITS * s.longs && !BitAt(b.allocMap, k)
  {
    UsedSize(s, b);
    k :| 0 <= k < s.count && !BitAt(b.allocMap, k);
  }

  lemma FirstMask()
    ensures Mask(0) == 1
  {
  }

  lemma FirstWord()
    ensures With(0, Mask(0)) == 1
  {
  }

  lemma MaskOne(i: nat)
    requires i < LONG_BITS
    ensures i > 0 ==> Mask(i) > 1
  {
    FirstMask();
    if i > 0 { MaskOrder(0, i); }
  }

  lemma MaskShift(i: nat)
    requires i < LONG_BITS
    ensures Mask(i) << 1 == Mask(i + 1)
    ensures Mask(i + 1) == 0 <==> i + 1 == LONG_BITS
  {
    MaskEnd();
    if i + 1 < LONG_BITS { MaskSet(i + 1); }
  }

  lemma WordBits(m: seq<Word>, u: nat)
    requires u < |m|
    ensures forall i :: 0 <= i < LONG_BITS ==> (BitAt(m, u * LONG_BITS + i) <==> Bit(m[u], i))
    ensures m[u] == ALL_ONES ==> forall k :: u * LONG_BITS <= k < (u + 1) * LONG_BITS ==> BitAt(m, k)
  {
    hide Bit;
    FullWord(m[u]);
  }

  lemma BitIs(m: seq<Word>, u: nat, i: nat)
    requires u < |m| && i < LONG_BITS
    ensures BitAt(m, u * LONG_BITS + i) <==> Meets(m[u], Mask(i))
  {
    hide Mask, Meets;
    assert (u * LONG_BITS + i) / LONG_BITS == u && (u * LONG_BITS + i) % LONG_BITS == i;
  }

  lemma ChainBlocks(s: Shape, bs: seq<Block>)
    requires ShapeOk(s) && ChainOk(s, bs)
    ensures forall i :: 0 <= i < |bs| ==> BlockOk(s, bs[i])
  {
  }

  lemma LiveInBlock(s: Shape, bs: seq<Block>, live: set<nat>, p: nat)
    requires ShapeOk(s) && ChainOk(s, bs) && LiveIs(s, bs, live)
    ensures p in live ==>
      exists i :: 0 <= i < |bs| && InBlock(s, bs[i], p) && Addr(s, bs[i], ElementOf(s, bs[i], p)) == p
  {
    if p in live {
      var i, k :| Holds(s, bs, i, k, p);
      ElementOfAddr(s, bs[i], k);
    }
  }

  lemma OneBlock(s: Shape, bs: seq<Block>, i: nat, j: nat, p: nat)
    requires ShapeOk(s) && ChainOk(s, bs) && i < |bs| && j < |bs| && InBlock(s, bs[i], p) && InBlock(s, bs[j], p)
    ensures i == j
  {
    MulOrder(s.count - 1, s.count + 1, s.size);
  }

  lemma NotLive(s: Shape, bs: seq<Block>, live: set<nat>, i: nat, k: nat)
    requires ShapeOk(s) && ChainOk(s, bs) && LiveIs(s, bs, live) && i < |bs| && k < s.count
    requires !BitAt(bs[i].allocMap, k)
    ensures Addr(s, bs[i], k) !in live
  {
    if Addr(s, bs[i], k) in live {
      var j, l :| Holds(s, bs, j, l, Addr(s, bs[i], k));
      SameAddr(s, bs, i, k, j, l);
    }
  }

  lemma WordsEmpty(b: Block, i: nat)
    requires i <= |b.allocMap| && forall j :: 0 <= j < i ==> b.allocMap[j] == 0
    requires i < |b.allocMap| ==> b.allocMap[i] != 0
    ensures Empty(b) <==> i == |b.allocMap|
  {
  }
}
