/** Memory of a resolver query (adns/query.c, adns/types.c): while it is worked on its blocks are
    only counted; at the end the answer is moved into one buffer of the counted size. */
module AnswerMemory {

  /** sizeof(union maxalign), and the sizes of the answer's parts on a 64-bit machine. */
  const ALIGN := 8
  const ANSWER_SIZE := 56
  const ADDR_SIZE := 20
  const INTSTR_SIZE := 16

  /** MEM_ROUND. */
  function Round(sz: nat): (r: nat)
    ensures sz <= r < sz + ALIGN && r % ALIGN == 0
  {
    (sz + ALIGN - 1) / ALIGN * ALIGN
  }

  /** A string in a block: the bytes put there before the NUL that ends it, the size that was asked for, and
      the number that stands beside it in the record, when it is a counted string. */
  datatype Str = Str(bytes: string, asked: nat, count: nat)

  /** A string that a parser finds: plain bytes, or a domain name, which is printed with a NUL already. */
  datatype Raw = Plain(bytes: string) | Printed(bytes: string)

  /** What pap_qstring and pap_mailbox822, and pap_domain, ask for: room for a NUL, behind the other one. */
  function Wanted(f: Raw): nat { |f.bytes| + if f.Printed? then 2 else 1 }

  datatype Option<+T> = None | Some(value: T)

  /** How a record type is laid out: the member of the answer's union that it uses. */
  datatype Layout = InAddr | Name | IntStr | ManyStr | StrPair | IntStrPair | Soa | Addr | HostAddr | IntHostAddr

  /** A parsed record, by what its finaliser has to move. */
  datatype Rr =
    | Blank
    | Flat
    | One(s: Str)
    | Two(a: Str, b: Str)
    | Many(table: seq<Str>)
    | Host(host: Str, naddrs: int, addrs: Option<nat>)

  /** What the parser finds in a record. `glue` is the number of addresses that came along. */
  datatype Rdata =
    | Octets
    | Text1(text: Raw)
    | Text2(text: Raw, text2: Raw)
    | Texts(texts: seq<string>)
    | HostText(text: Raw, glue: nat)

  function RrSize(k: Layout): nat {
    match k
    case InAddr => 4
    case Name => 8
    case IntStr => 16
    case ManyStr => 8
    case StrPair => 16
    case IntStrPair => 32
    case Soa => 56
    case Addr => ADDR_SIZE
    case HostAddr => 24
    case IntHostAddr => 32
  }

  /** The parser of a layout finds this kind of data. */
  predicate Suits(k: Layout, d: Rdata) {
    match k
    case InAddr => d.Octets?
    case Addr => d.Octets?
    case Name => d.Text1?
    case IntStr => d.Text1?
    case ManyStr => d.Texts?
    case StrPair => d.Text2?
    case IntStrPair => d.Text2?
    case Soa => d.Text2?
    case HostAddr => d.HostText?
    case IntHostAddr => d.HostText?
  }

  /** Bytes up to the first NUL, as strlen sees them. */
  function CutNul(s: string): (r: string)
    ensures |r| <= |s|
  {
    if s == "" || s[0] == '\0' then "" else [s[0]] + CutNul(s[1..])
  }

  function StrFor(f: Raw): Str { Str(f.bytes, Wanted(f), |f.bytes|) }

  predicate StrOk(s: Str) { |s.bytes| + 1 <= s.asked }

  /** strlen and the NUL. */
  function Size(s: Str): nat { |CutNul(s.bytes)| + 1 }

  // ----- what is counted and what is taken -----

  function Sum(ns: seq<nat>): nat { if ns == [] then 0 else Round(ns[0]) + Sum(ns[1..]) }

  lemma {:induction false} SumConcat(a: seq<nat>, b: seq<nat>)
    ensures Sum(a + b) == Sum(a) + Sum(b)
  {
    if a == [] {
      assert a + b == b;
    } else {
      assert (a + b)[1..] == a[1..] + b;
      SumConcat(a[1..], b);
    }
  }

  function Askeds(ss: seq<Str>): seq<nat> { seq(|ss|, i requires 0 <= i < |ss| => ss[i].asked) }

  function Lengths(ss: seq<Str>): seq<nat> { seq(|ss|, i requires 0 <= i < |ss| => Size(ss[i])) }

  /** The sizes of the blocks that belong to a record. */
  function Held(r: Rr): seq<nat> {
    match r
    case Blank => []
    case Flat => []
    case One(s) => [s.asked]
    case Two(a, b) => [a.asked, b.asked]
    case Many(t) => [INTSTR_SIZE * (|t| + 1)] + Askeds(t)
    case Host(h, _, addrs) => if addrs.Some? then [h.asked, ADDR_SIZE * addrs.value] else [h.asked]
  }

  /** The sizes that the finaliser of a record takes, in its order. */
  function Taken(r: Rr): seq<nat> {
    match r
    case Blank => []
    case Flat => []
    case One(s) => [Size(s)]
    case Two(a, b) => [Size(a), Size(b)]
    case Many(t) => [INTSTR_SIZE * (|t| + 1)] + Lengths(t)
    case Host(h, n, addrs) => if addrs.Some? && n >= 0 then [Size(h), ADDR_SIZE * n] else [Size(h)]
  }

  predicate RrOk(r: Rr) {
    match r
    case Blank => true
    case Flat => true
    case One(s) => StrOk(s)
    case Two(a, b) => StrOk(a) && StrOk(b)
    case Many(t) => forall i :: 0 <= i < |t| ==> StrOk(t[i])
    case Host(h, n, addrs) => StrOk(h) && (addrs.Some? ==> n == addrs.value && n > 0)
  }

  function HeldAll(rs: seq<Rr>): nat { if rs == [] then 0 else HeldAll(rs[..|rs| - 1]) + Sum(Held(rs[|rs| - 1])) }

  function TakenAll(rs: seq<Rr>): seq<nat> { if rs == [] then [] else TakenAll(rs[..|rs| - 1]) + Taken(rs[|rs| - 1]) }

  lemma RoundMono(a: nat, b: nat)
    requires a <= b
    ensures Round(a) <= Round(b)
  {
  }

  lemma {:induction false} StringsFit(t: seq<Str>)
    requires forall i :: 0 <= i < |t| ==> StrOk(t[i])
    ensures Sum(Lengths(t)) <= Sum(Askeds(t))
  {
    hide Round;
    if t != [] {
      StringsFit(t[1..]);
      assert Lengths(t)[1..] == Lengths(t[1..]) && Askeds(t)[1..] == Askeds(t[1..]);
      RoundMono(Size(t[0]), t[0].asked);
    }
  }

  lemma SumOne(a: nat)
    ensures Sum([a]) == Round(a)
  {
    hide Round;
    assert [a][1..] == [];
  }

  lemma SumTwo(a: nat, b: nat)
    ensures Sum([a, b]) == Round(a) + Round(b)
  {
    hide Round;
    assert [a, b][1..] == [b];
    SumOne(b);
  }

  /** No record's finaliser takes more than was counted for the record. */
  lemma RecordFits(r: Rr)
    requires RrOk(r)
    ensures Sum(Taken(r)) <= Sum(Held(r))
  {
    hide Round, Sum, Lengths, Askeds;
    match r
    case Blank =>
    case Flat =>
    case One(s) =>
      SumOne(Size(s));
      SumOne(s.asked);
      RoundMono(Size(s), s.asked);
    case Two(a, b) =>
      SumTwo(Size(a), Size(b));
      SumTwo(a.asked, b.asked);
      RoundMono(Size(a), a.asked);
      RoundMono(Size(b), b.asked);
    case Many(t) =>
      StringsFit(t);
      SumConcat([INTSTR_SIZE * (|t| + 1)], Lengths(t));
      SumConcat([INTSTR_SIZE * (|t| + 1)], Askeds(t));
    case Host(h, n, addrs) =>
      RoundMono(Size(h), h.asked);
      SumOne(Size(h));
      SumOne(h.asked);
      if addrs.Some? {
        SumTwo(Size(h), ADDR_SIZE * n);
        SumTwo(h.asked, ADDR_SIZE * addrs.value);
      }
  }

  lemma {:induction false} RecordsFit(rs: seq<Rr>)
    requires forall r <- rs :: RrOk(r)
    ensures Sum(TakenAll(rs)) <= HeldAll(rs)
  {
    hide Round, Sum, Taken, Held, RrOk;
    if rs == [] {
      NoSum();
    } else {
      RecordsFit(rs[..|rs| - 1]);
      RecordFits(rs[|rs| - 1]);
      SumConcat(TakenAll(rs[..|rs| - 1]), Taken(rs[|rs| - 1]));
    }
  }

  lemma NoSum()
    ensures Sum([]) == 0
  {
  }

  /** The total after one record is replaced. */
  lemma {:induction false} HeldUpdate(rs: seq<Rr>, i: nat, r: Rr)
    requires i < |rs|
    ensures HeldAll(rs[i := r]) == HeldAll(rs) - Sum(Held(rs[i])) + Sum(Held(r))
  {
    hide Sum, Held;
    var n := |rs| - 1;
    if i == n {
      assert rs[i := r][..n] == rs[..n];
    } else {
      assert rs[i := r][..n] == rs[..n][i := r] && rs[i := r][n] == rs[n];
      HeldUpdate(rs[..n], i, r);
    }
  }

  function Blanks(n: nat): seq<Rr> { seq(n, i => Blank) }

  lemma {:induction false} HeldBlanks(n: nat)
    ensures HeldAll(Blanks(n)) == 0
  {
    if n > 0 {
      assert Blanks(n)[..n - 1] == Blanks(n - 1);
      HeldBlanks(n - 1);
      NoSum();
    }
  }

  // ----- the finished answer -----

  /** A block of the buffer. */
  datatype Piece = Piece(at: nat, size: nat)

  /** Blocks laid one after the other from `at`. */
  function Placed(at: nat, sizes: seq<nat>): (ps: seq<Piece>)
    ensures |ps| == |sizes|
  {
    if sizes == [] then []
    else Placed(at, sizes[..|sizes| - 1]) + [Piece(at + Sum(sizes[..|sizes| - 1]), sizes[|sizes| - 1])]
  }

  lemma {:induction false} PlacedAt(at: nat, sizes: seq<nat>, i: nat)
    requires i < |sizes|
    ensures Placed(at, sizes)[i] == Piece(at + Sum(sizes[..i]), sizes[i])
  {
    var n := |sizes| - 1;
    if i < n {
      PlacedAt(at, sizes[..n], i);
      assert sizes[..n][..i] == sizes[..i];
    }
  }

  lemma {:induction false} SumAligned(ns: seq<nat>)
    ensures Sum(ns) % ALIGN == 0
  {
    hide Round;
    if ns != [] {
      SumAligned(ns[1..]);
      assert Round(ns[0]) % ALIGN == 0;
    }
  }

  lemma SumSplit(ns: seq<nat>, i: nat, j: nat)
    requires i < j <= |ns|
    ensures Sum(ns[..i]) + Round(ns[i]) <= Sum(ns[..j]) <= Sum(ns)
  {
    hide Sum;
    assert ns[..j] == ns[..i] + ([ns[i]] + ns[i + 1..j]);
    SumConcat(ns[..i], [ns[i]] + ns[i + 1..j]);
    SumConcat([ns[i]], ns[i + 1..j]);
    SumOne(ns[i]);
    assert ns == ns[..j] + ns[j..];
    SumConcat(ns[..j], ns[j..]);
  }

  /** Blocks laid out so are aligned, apart, and inside a buffer that has room for their sum. */
  lemma PlacedApart(at: nat, sizes: seq<nat>, i: nat, j: nat)
    requires i < j < |sizes| && at % ALIGN == 0
    ensures var p, q := Placed(at, sizes)[i], Placed(at, sizes)[j];
      && p.at % ALIGN == q.at % ALIGN == 0
      && at <= p.at && p.at + p.size <= q.at && q.at + q.size <= at + Sum(sizes)
  {
    hide Sum, Placed, Round;
    PlacedAt(at, sizes, i);
    PlacedAt(at, sizes, j);
    SumSplit(sizes, i, j);
    SumSplit(sizes, j, j + 1);
    SumAligned(sizes[..i]);
    SumAligned(sizes[..j]);
    Aligned(at, Sum(sizes[..i]));
    Aligned(at, Sum(sizes[..j]));
    RoundCovers(sizes[i]);
    RoundCovers(sizes[j]);
  }

  lemma Aligned(a: nat, b: nat)
    requires a % ALIGN == 0 && b % ALIGN == 0
    ensures (a + b) % ALIGN == 0
  {
  }

  lemma RoundCovers(n: nat)
    ensures n <= Round(n)
  {
  }

  lemma PlacedAdds(at: nat, sizes: seq<nat>, more: nat)
    ensures Placed(at, sizes + [more]) == Placed(at, sizes) + [Piece(at + Sum(sizes), more)]
  {
    assert (sizes + [more])[..|sizes|] == sizes;
  }

  /** Every two blocks are apart, aligned, and between `lo` and `hi`. */
  ghost predicate Apart(ps: seq<Piece>, lo: nat, hi: nat) {
    && (forall i :: 0 <= i < |ps| ==> ps[i].at % ALIGN == 0 && lo <= ps[i].at && ps[i].at + ps[i].size <= hi)
    && forall i, j :: 0 <= i < j < |ps| ==> ps[i].at + ps[i].size <= ps[j].at
  }

  lemma AllApart(at: nat, sizes: seq<nat>, hi: nat)
    requires at % ALIGN == 0 && at + Sum(sizes) <= hi
    ensures Apart(Placed(at, sizes), at, hi)
  {
    hide Sum, Placed, Round;
    var ps := Placed(at, sizes);
    forall i | 0 <= i < |ps| ensures ps[i].at % ALIGN == 0 && at <= ps[i].at && ps[i].at + ps[i].size <= hi {
      PlacedAt(at, sizes, i);
      SumSplit(sizes, i, i + 1);
      SumAligned(sizes[..i]);
      Aligned(at, Sum(sizes[..i]));
      RoundCovers(sizes[i]);
    }
    forall i, j | 0 <= i < j < |ps| ensures ps[i].at + ps[i].size <= ps[j].at { PlacedApart(at, sizes, i, j); }
  }

  // ----- what the finished answer says -----

  /** A string once it has been moved: strlen decides how much of it, and the count stays. */
  function Moved(s: Str): Str { Str(CutNul(s.bytes), Size(s), s.count) }

  function MovedOpt(s: Option<Str>): Option<Str> { if s.Some? then Some(Moved(s.value)) else None }

  function MovedAll(t: seq<Str>): seq<Str> { seq(|t|, i requires 0 <= i < |t| => Moved(t[i])) }

  function MovedRr(r: Rr): Rr {
    match r
    case Blank => r
    case Flat => r
    case One(s) => One(Moved(s))
    case Two(a, b) => Two(Moved(a), Moved(b))
    case Many(t) => Many(MovedAll(t))
    case Host(h, n, addrs) => Host(Moved(h), n, addrs)
  }

  function MovedRrs(rs: seq<Rr>): seq<Rr> { seq(|rs|, i requires 0 <= i < |rs| => MovedRr(rs[i])) }

  /** The strings of a record. */
  function Strings(r: Rr): seq<Str> {
    match r
    case Blank => []
    case Flat => []
    case One(s) => [s]
    case Two(a, b) => [a, b]
    case Many(t) => t
    case Host(h, _, _) => [h]
  }

  /** A string keeps its bytes, and as many as its count says, exactly when it holds no NUL. */
  lemma MovedKeeps(s: Str)
    requires s.count == |s.bytes|
    ensures Moved(s).bytes == s.bytes <==> '\0' !in s.bytes
    ensures |Moved(s).bytes| < Moved(s).count <==> '\0' in s.bytes
  {
    CutNulIs(s.bytes);
  }

  lemma {:induction false} CutNulIs(s: string)
    ensures '\0' !in CutNul(s) && CutNul(s) == s[..|CutNul(s)|]
    ensures |CutNul(s)| < |s| ==> s[|CutNul(s)|] == '\0'
    ensures |CutNul(s)| < |s| <==> '\0' in s
  {
    if s != "" {
      assert s == [s[0]] + s[1..];
      if s[0] != '\0' { CutNulIs(s[1..]); }
    }
  }

  /** Contents: the strings of a finished record are those that were parsed exactly when none of them holds a
      NUL. With a NUL the count of a TXT string goes beyond the end of its block. */
  lemma RecordKeeps(d: Rdata)
    ensures var was, now := Strings(Parsed(d)), Strings(MovedRr(Parsed(d)));
      && |now| == |was|
      && ((forall i :: 0 <= i < |was| ==> now[i].bytes == was[i].bytes) <==> forall s <- was :: '\0' !in s.bytes)
      && forall i :: 0 <= i < |was| ==> (now[i].count + 1 > now[i].asked <==> '\0' in was[i].bytes)
    ensures var r, f := Parsed(d), MovedRr(Parsed(d));
      && (r.Flat? ==> f.Flat?) && (r.One? ==> f.One?) && (r.Two? ==> f.Two?) && (r.Many? ==> f.Many?)
      && (r.Host? ==> f.Host? && f.naddrs == r.naddrs && f.addrs == r.addrs)
      && forall i :: 0 <= i < |Strings(r)| ==> Strings(f)[i].count == Strings(r)[i].count
  {
    hide CutNul;
    var was := Strings(Parsed(d));
    forall i | 0 <= i < |was|
      ensures Moved(was[i]).bytes == was[i].bytes <==> '\0' !in was[i].bytes
      ensures Moved(was[i]).count + 1 > Moved(was[i]).asked <==> '\0' in was[i].bytes
    {
      MovedKeeps(was[i]);
    }
  }

  // ----- a query -----

  datatype Status = Ok | TempFail | PermFail

  /** A record as its parser leaves it. */
  function Parsed(d: Rdata): (r: Rr)
    ensures RrOk(r)
  {
    match d
    case Octets => Flat
    case Text1(t) => One(StrFor(t))
    case Text2(a, b) => Two(StrFor(a), StrFor(b))
    case Texts(ts) => Many(seq(|ts|, i requires 0 <= i < |ts| => StrFor(Plain(ts[i]))))
    case HostText(t, glue) => if glue > 0 then Host(StrFor(t), glue, Some(glue)) else Host(StrFor(t), -1, None)
  }

  function AskedOf(s: Option<Str>): seq<nat> { if s.Some? then [s.value.asked] else [] }

  function LengthOf(s: Option<Str>): seq<nat> { if s.Some? then [Size(s.value)] else [] }

  function BlockOf(k: Layout, rrs: Option<seq<Rr>>): nat {
    if rrs.Some? then Round(RrSize(k) * |rrs.value|) + HeldAll(rrs.value) else 0
  }

  predicate MaybeOk(s: Option<Str>) { s.Some? ==> StrOk(s.value) }

  /** The sizes that makefinal_query takes, in its order. */
  function FinalSizes(k: Layout, cname: Option<Str>, owner: Option<Str>, rrs: Option<seq<Rr>>): seq<nat> {
    (LengthOf(cname) + LengthOf(owner))
    + if rrs.Some? && |rrs.value| > 0 then [RrSize(k) * |rrs.value|] + TakenAll(rrs.value) else []
  }

  lemma KeptFits(s: Option<Str>)
    requires MaybeOk(s)
    ensures Sum(LengthOf(s)) <= Sum(AskedOf(s))
  {
    hide Sum, Round;
    if s.Some? {
      RoundMono(Size(s.value), s.value.asked);
      SumOne(Size(s.value));
      SumOne(s.value.asked);
    }
  }

  /** What was counted suffices for the whole answer. */
  lemma AnswerFits(k: Layout, cname: Option<Str>, owner: Option<Str>, rrs: Option<seq<Rr>>)
    requires MaybeOk(cname) && MaybeOk(owner) && (rrs.Some? ==> forall r <- rrs.value :: RrOk(r))
    ensures Sum(FinalSizes(k, cname, owner, rrs)) <= Sum(AskedOf(cname)) + Sum(AskedOf(owner)) + BlockOf(k, rrs)
  {
    hide Sum, Round, TakenAll, HeldAll, RrOk, LengthOf, AskedOf, RrSize;
    KeptFits(cname);
    KeptFits(owner);
    SumConcat(LengthOf(cname), LengthOf(owner));
    var kept := LengthOf(cname) + LengthOf(owner);
    if rrs.Some? && |rrs.value| > 0 {
      RecordsFit(rrs.value);
      SumOne(RrSize(k) * |rrs.value|);
      SumConcat([RrSize(k) * |rrs.value|], TakenAll(rrs.value));
      SumConcat(kept, [RrSize(k) * |rrs.value|] + TakenAll(rrs.value));
    } else {
      SumConcat(kept, []);
      NoSum();
    }
  }

  /** A record whose addresses a child query has to find. */
  predicate Awaited(d: Option<Rdata>) { d.Some? && d.value.HostText? && d.value.glue == 0 }

  class Query {
    const kind: Layout
    var interim: int
    var preserved: int
    var space: Option<nat>
    var status: Status
    var cname: Option<Str>
    var owner: Option<Str>
    var rrs: Option<seq<Rr>>
    var nrrs: nat
    var pending: set<nat>

    /** The blocks moved so far and, for the proof, their sizes and the sum at the start. */
    var pieces: seq<Piece>
    ghost var taken: seq<nat>
    ghost var total: nat

    /** The counters cover all blocks of the answer. */
    ghost predicate Counted()
      reads this
    {
      && space.None? && MaybeOk(cname) && MaybeOk(owner)
      && Sum(AskedOf(cname)) + Sum(AskedOf(owner)) <= preserved
      && preserved + BlockOf(kind, rrs) <= interim
      && (rrs.Some? ==> forall r <- rrs.value :: RrOk(r))
      && (status != Ok ==> rrs.None?) && (rrs.Some? ==> |rrs.value| > 0)
      && forall i <- pending :: rrs.Some? && i < |rrs.value| && rrs.value[i].Host? && rrs.value[i].addrs.None?
    }

    ghost predicate Valid()
      reads this
    {
      Counted() && nrrs == if rrs.Some? then |rrs.value| else 0
    }

    constructor (k: Layout)
      ensures Valid() && kind == k && rrs.None? && cname.None? && owner.None? && status == Ok
          && interim == preserved == 0 && pieces == []
    {
      kind := k;
      interim, preserved, space, status, nrrs := 0, 0, None, Ok, 0;
      cname, owner, rrs, pending, pieces, taken, total := None, None, None, {}, [], [], 0;
      new;
      NoSum();
    }

    /** adns__alloc_interim. */
    method AllocInterim(sz: nat)
      requires space.None?
      modifies this`interim
      ensures interim == old(interim) + Round(sz)
    {
      interim := interim + Round(sz);
    }

    /** adns__alloc_preserved. */
    method AllocPreserved(sz: nat)
      requires space.None?
      modifies this`interim, this`preserved
      ensures interim == old(interim) + Round(sz) && preserved == old(preserved) + Round(sz)
    {
      AllocInterim(sz);
      preserved := preserved + Round(sz);
    }

    /** save_owner. */
    method SaveOwner(text: string)
      requires Valid() && owner.None?
      modifies this`interim, this`preserved, this`owner
      ensures Valid() && owner == Some(StrFor(Plain(text))) && interim - preserved == old(interim - preserved)
    {
      hide Sum, Round, BlockOf, RrOk;
      AllocPreserved(|text| + 1);
      owner := Some(StrFor(Plain(text)));
      SumOne(Wanted(Plain(text)));
      assert Sum(AskedOf(None)) == 0 by { NoSum(); }
    }

    /** A CNAME in a reply. An earlier one stays counted. */
    method SetCname(text: string)
      requires Valid()
      modifies this`interim, this`preserved, this`cname
      ensures Valid() && cname == Some(StrFor(Plain(text))) && interim - preserved == old(interim - preserved)
    {
      hide Sum, Round, BlockOf, RrOk;
      AllocPreserved(|text| + 1);
      cname := Some(StrFor(Plain(text)));
      SumOne(|text| + 1);
    }

    /** adns__reset_preserved. */
    method ResetPreserved()
      requires Counted()
      modifies this`interim, this`rrs, this`nrrs, this`pending
      ensures Valid() && interim == preserved && rrs.None?
    {
      pending, nrrs, rrs, interim := {}, 0, None, preserved;
    }

    /** The query is sent again, with what is preserved. */
    method Restart()
      requires Valid()
      modifies this`interim, this`rrs, this`nrrs, this`pending
      ensures Valid() && interim == preserved && rrs.None?
    {
      ResetPreserved();
    }

    /** adns__query_fail, before the query is done. */
    method Fail(st: Status)
      requires Counted() && st != Ok
      modifies this`interim, this`rrs, this`nrrs, this`pending, this`status
      ensures Valid() && status == st && rrs.None? && interim == preserved
    {
      ResetPreserved();
      status := st;
    }

    method FailNow(st: Status)
      requires Valid() && st != Ok
      modifies this`interim, this`rrs, this`nrrs, this`pending, this`status
      ensures Valid() && status == st && rrs.None? && interim == preserved
    {
      Fail(st);
    }

    /** pap_qstring, pap_domain and pap_mailbox822: room for a string. */
    method AllocStr(f: Raw) returns (s: Str)
      requires space.None?
      modifies this`interim
      ensures s == StrFor(f) && interim == old(interim) + Round(s.asked)
    {
      AllocInterim(Wanted(f));
      s := StrFor(f);
    }

    /** The parser of a record's data; an absent address list is left to a child query. */
    method ParseData(d: Rdata) returns (r: Rr)
      requires space.None?
      modifies this`interim
      ensures r == Parsed(d) && interim == old(interim) + Sum(Held(r))
    {
      hide Sum, Round;
      NoSum();
      match d {
        case Octets => r := Flat;
        case Text1(t) =>
          var s := AllocStr(t);
          r := One(s);
          SumOne(s.asked);
        case Text2(t, t2) =>
          var a := AllocStr(t);
          var b := AllocStr(t2);
          r := Two(a, b);
          SumTwo(a.asked, b.asked);
        case Texts(ts) => r := ParseTexts(ts);
        case HostText(t, glue) =>
          var h := AllocStr(t);
          SumOne(h.asked);
          if glue > 0 {
            AllocInterim(ADDR_SIZE * glue);
            SumTwo(h.asked, ADDR_SIZE * glue);
            r := Host(h, glue, Some(glue));
          } else {
            r := Host(h, -1, None);
          }
      }
    }

    /** pa_txt. */
    method ParseTexts(ts: seq<string>) returns (r: Rr)
      requires space.None?
      modifies this`interim
      ensures r == Parsed(Texts(ts)) && interim == old(interim) + Sum(Held(r))
    {
      hide Sum, Round;
      AllocInterim(INTSTR_SIZE * (|ts| + 1));
      var table: seq<Str> := [];
      NoSum();
      assert Askeds([]) == [];
      for i := 0 to |ts|
        invariant |table| == i && forall j :: 0 <= j < i ==> table[j] == StrFor(Plain(ts[j]))
        invariant interim == old(interim) + Round(INTSTR_SIZE * (|ts| + 1)) + Sum(Askeds(table))
      {
        var s := AllocStr(Plain(ts[i]));
        assert Askeds(table + [s]) == Askeds(table) + [s.asked];
        SumConcat(Askeds(table), [s.asked]);
        SumOne(s.asked);
        table := table + [s];
      }
      r := Many(table);
      SumConcat([INTSTR_SIZE * (|ts| + 1)], Askeds(table));
      SumOne(INTSTR_SIZE * (|ts| + 1));
    }

    /** The records of a reply. None is a record that its parser refuses. */
    method Records(ds: seq<Option<Rdata>>) returns (ok: bool)
      requires Valid() && status == Ok && rrs.None? && |ds| > 0 && forall d <- ds :: d.Some? ==> Suits(kind, d.value)
      modifies this`interim, this`rrs, this`nrrs, this`pending
      ensures if ok then Valid() else Counted()
      ensures ok <==> forall d <- ds :: d.Some?
      ensures ok ==> rrs.Some? && |rrs.value| == |ds| && forall i :: 0 <= i < |ds| ==>
          rrs.value[i] == Parsed(ds[i].value)
      ensures ok ==> forall i: nat :: i in pending <==> i < |ds| && Awaited(ds[i])
    {
      hide Sum, Round, Held, HeldAll, RrOk, Suits, RrSize;
      AllocInterim(RrSize(kind) * |ds|);
      var rs := Blanks(|ds|);
      HeldBlanks(|ds|);
      BlanksOk(|ds|);
      pending := {};
      rrs := Some(rs);
      for i := 0 to |ds|
        invariant Counted() && status == Ok && rrs == Some(rs) && |rs| == |ds|
        invariant forall j :: 0 <= j < i ==> ds[j].Some? && rs[j] == Parsed(ds[j].value)
        invariant forall j :: i <= j < |ds| ==> rs[j] == Blank
        invariant forall j: nat :: j in pending <==> j < i && Awaited(ds[j])
      {
        if ds[i].None? { return false; }
        var r := ParseData(ds[i].value);
        HeldUpdate(rs, i, r);
        BlankHolds();
        if Awaited(ds[i]) { pending := pending + {i}; }
        rs := rs[i := r];
        rrs := Some(rs);
      }
      nrrs := |ds|;
      return true;
    }

    // ----- results of child queries -----

    /** adns__transfer_interim, for a block. */
    static method TransferInterim(from: Query, to: Query, sz: nat)
      requires from != to && from.space.None? && to.space.None?
      modifies from`interim, to`interim
      ensures from.interim == old(from.interim) - Round(sz) && to.interim == old(to.interim) + Round(sz)
    {
      from.interim := from.interim - Round(sz);
      to.interim := to.interim + Round(sz);
    }

    /** icb_hostaddr: the child's addresses become those of record `i`, and their block is the
        parent's from now on. Nothing is lost between the two counters. */
    method HostaddrDone(child: Query, i: nat)
      requires Valid() && i in pending && child != this && child.Valid() && child.kind == Addr
      modifies this`interim, this`rrs, this`pending, child`interim
      ensures Valid() && interim + child.interim == old(interim) + old(child.interim)
      ensures child.preserved <= child.interim && preserved == old(preserved)
      ensures pending == old(pending) - {i} && rrs.Some?
      ensures rrs.value == old(rrs.value)[i := Resolved(old(rrs.value[i]), child.status, child.rrs)]
      ensures rrs.value[i].host == old(rrs.value[i]).host && (rrs.value[i].addrs.Some? <==> child.rrs.Some?)
      ensures child.rrs.Some? ==>
        rrs.value[i].naddrs == |child.rrs.value| > 0 && rrs.value[i].addrs == Some(|child.rrs.value|)
      ensures child.rrs.None? ==> rrs.value[i].naddrs == if child.status.TempFail? then -1 else 0
    {
      hide Sum, Round, RrOk, HeldAll;
      var h := rrs.value[i].host;
      var naddrs: int := if child.status.TempFail? then -1 else child.nrrs;
      var addrs := if child.rrs.Some? then Some(child.nrrs) else None;
      ghost var r := Host(h, naddrs, addrs);
      HostOk(rrs.value, i, r);
      if addrs.Some? {
        ChildBlock(child.kind, child.rrs.value);
        TransferInterim(child, this, ADDR_SIZE * naddrs);
      }
      HeldUpdate(rrs.value, i, r);
      rrs := Some(rrs.value[i := Host(h, naddrs, addrs)]);
      pending := pending - {i};
    }

    /** icb_ptr: the parent fails with its child, or stays as it is. */
    method PtrDone(child: Query, matches: bool)
      requires Valid() && child != this
      modifies this`interim, this`rrs, this`nrrs, this`pending, this`status
      ensures Valid()
      ensures if child.status == Ok && matches then unchanged(this)
              else
                && rrs.None? && interim == preserved
                && status == if child.status == TempFail then TempFail else PermFail
    {
      if child.status != Ok || !matches { Fail(if child.status == TempFail then TempFail else PermFail); }
    }

    // ----- the end -----

    /** Between makefinal_query's steps. */
    ghost predicate Moving()
      reads this
    {
      && space == Some(Round(ANSWER_SIZE) + Sum(taken)) && interim == total - Sum(taken)
      && pieces == Placed(Round(ANSWER_SIZE), taken)
    }

    /** adns__alloc_final; its assertion is the precondition. */
    method AllocFinal(sz: nat)
      requires Moving() && interim >= Round(sz)
      modifies this`interim, this`space, this`pieces, this`taken
      ensures Moving() && taken == old(taken) + [sz] && interim == old(interim) - Round(sz) >= 0
    {
      hide Sum, Round;
      pieces := pieces + [Piece(space.value, sz)];
      interim := interim - Round(sz);
      space := Some(space.value + Round(sz));
      PlacedAdds(Round(ANSWER_SIZE), taken, sz);
      SumConcat(taken, [sz]);
      SumOne(sz);
      taken := taken + [sz];
    }

    /** adns__makefinal_str: a copy of what strlen sees, in a block of its size. */
    method FinalStr(s: Option<Str>) returns (f: Option<Str>)
      requires Moving() && interim >= Sum(LengthOf(s))
      modifies this`interim, this`space, this`pieces, this`taken
      ensures Moving() && taken == old(taken) + LengthOf(s) && f == MovedOpt(s)
      ensures interim == old(interim) - Sum(LengthOf(s))
    {
      hide Sum, Round, Moving;
      f := None;
      NoSum();
      if s.Some? {
        SumOne(Size(s.value));
        AllocFinal(Size(s.value));
        f := Some(Moved(s.value));
      }
    }

    /** The finalisers mf_str, mf_intstr, mf_strpair, mf_intstrpair, mf_soa, mf_manyistr,
        mf_hostaddr, mf_inthostaddr and mf_flat. */
    method FinalRr(r: Rr) returns (f: Rr)
      requires Moving() && interim >= Sum(Taken(r)) && RrOk(r)
      modifies this`interim, this`space, this`pieces, this`taken
      ensures Moving() && taken == old(taken) + Taken(r) && f == MovedRr(r)
    {
      hide Sum, Round, Placed;
      ghost var was := taken;
      f := r;
      match r {
        case Blank =>
        case Flat =>
        case One(s) =>
          SumOne(Size(s));
          var s' := FinalStr(Some(s));
          f := One(s'.value);
        case Two(a, b) =>
          SumTwo(Size(a), Size(b));
          SumOne(Size(a));
          SumOne(Size(b));
          TwoMore(was, Size(a), Size(b));
          var a' := FinalStr(Some(a));
          var b' := FinalStr(Some(b));
          f := Two(a'.value, b'.value);
        case Many(t) =>
          var t' := FinalTable(t);
          f := Many(t');
        case Host(h, n, addrs) =>
          SumOne(Size(h));
          if addrs.Some? {
            SumTwo(Size(h), ADDR_SIZE * n);
            TwoMore(was, Size(h), ADDR_SIZE * n);
          }
          var h' := FinalStr(Some(h));
          f := Host(h'.value, n, addrs);
          if addrs.Some? { AllocFinal(ADDR_SIZE * n); }
      }
    }

    /** mf_manyistr: the table is copied with its counts, and then each string. */
    method FinalTable(t: seq<Str>) returns (f: seq<Str>)
      requires Moving() && interim >= Sum([INTSTR_SIZE * (|t| + 1)] + Lengths(t))
      modifies this`interim, this`space, this`pieces, this`taken
      ensures Moving() && taken == old(taken) + ([INTSTR_SIZE * (|t| + 1)] + Lengths(t)) && f == MovedAll(t)
    {
      hide Sum, Round, Placed;
      ghost var was := taken;
      var first := INTSTR_SIZE * (|t| + 1);
      SumConcat([first], Lengths(t));
      SumOne(first);
      AllocFinal(first);
      ghost var head := taken;
      f := [];
      for i := 0 to |t|
        invariant Moving() && taken == head + Lengths(t)[..i]
        invariant |f| == i && forall j :: 0 <= j < i ==> f[j] == Moved(t[j])
      {
        SumConcat(head, Lengths(t)[..i]);
        SumConcat(was, [first]);
        SumSplit(Lengths(t), i, i + 1);
        AllocFinal(Size(t[i]));
        f := f + [Moved(t[i])];
        assert Lengths(t)[..i + 1] == Lengths(t)[..i] + [Size(t[i])];
      }
      assert Lengths(t)[..|t|] == Lengths(t);
    }

    /** The records of the answer. */
    method FinalRecords(rs: seq<Rr>) returns (fs: seq<Rr>)
      requires Moving() && interim >= Sum(TakenAll(rs)) && forall r <- rs :: RrOk(r)
      modifies this`interim, this`space, this`pieces, this`taken
      ensures Moving() && taken == old(taken) + TakenAll(rs) && fs == MovedRrs(rs)
    {
      hide Sum, Round, Placed, RrOk, Taken, MovedRr;
      ghost var was := taken;
      fs := [];
      for i := 0 to |rs|
        invariant Moving() && taken == was + TakenAll(rs[..i])
        invariant |fs| == i && forall j :: 0 <= j < i ==> fs[j] == MovedRr(rs[j])
      {
        assert rs[..i + 1][..i] == rs[..i] && rs[..i + 1][i] == rs[i];
        TakenPrefix(rs, i + 1);
        SumConcat(was, TakenAll(rs[..i]));
        SumConcat(TakenAll(rs[..i]), Taken(rs[i]));
        var f := FinalRr(rs[i]);
        fs := fs + [f];
      }
      assert rs[..|rs|] == rs;
    }

    /** makefinal_query. `room` says whether the buffer could be had. The blocks are laid into it
        as FinalSizes says; the counter never runs out. */
    method MakeFinal(room: bool) returns (buffer: nat)
      requires Valid() && pieces == []
      modifies this
      ensures room ==> buffer == Round(ANSWER_SIZE) + old(interim)
      ensures buffer >= Round(ANSWER_SIZE) && (old(interim) == 0 ==> buffer == Round(ANSWER_SIZE))
      ensures room || old(interim) == 0 ==>
        && pieces == Placed(Round(ANSWER_SIZE), FinalSizes(kind, old(cname), old(owner), old(rrs)))
        && interim == old(interim) - Sum(FinalSizes(kind, old(cname), old(owner), old(rrs))) && interim >= 0
        && status == old(status) && cname == MovedOpt(old(cname)) && owner == MovedOpt(old(owner))
        && rrs == if old(rrs).Some? then Some(MovedRrs(old(rrs).value)) else None
      ensures !room && old(interim) > 0 ==>
        pieces == [] && status == TempFail && cname.None? && owner.None? && rrs.None? && interim == 0
    {
      hide Sum, Round, Placed, RrOk, TakenAll, LengthOf, AskedOf, RrSize, BlockOf;
      buffer := Round(ANSWER_SIZE);
      if interim > 0 {
        if !room {
          NothingKept();
          preserved, cname, owner := 0, None, None;
          pending, nrrs, rrs, interim := {}, 0, None, preserved;
          status := TempFail;
          return;
        }
        buffer := buffer + interim;
      }
      MoveAll();
    }

    /** The part of makefinal_query that fills the buffer. */
    method MoveAll()
      requires Valid() && pieces == []
      modifies this`interim, this`space, this`pieces, this`taken, this`total, this`cname, this`owner, this`rrs
      ensures pieces == Placed(Round(ANSWER_SIZE), FinalSizes(kind, old(cname), old(owner), old(rrs)))
      ensures interim == old(interim) - Sum(FinalSizes(kind, old(cname), old(owner), old(rrs))) && interim >= 0
      ensures cname == MovedOpt(old(cname)) && owner == MovedOpt(old(owner))
      ensures rrs == if old(rrs).Some? then Some(MovedRrs(old(rrs).value)) else None
    {
      hide Sum, Round, Placed, RrOk, TakenAll, LengthOf, AskedOf, RrSize, BlockOf, MaybeOk;
      AnswerFits(kind, cname, owner, rrs);
      total, taken := interim, [];
      space := Some(Round(ANSWER_SIZE));
      NoSum();
      NonePlaced(Round(ANSWER_SIZE));
      ghost var c, o := LengthOf(cname), LengthOf(owner);
      ghost var rest := if rrs.Some? && |rrs.value| > 0 then [RrSize(kind) * |rrs.value|] + TakenAll(rrs.value) else [];
      SumConcat(c, o);
      SumConcat(c + o, rest);
      assert [] + c == c;
      cname := FinalStr(cname);
      owner := FinalStr(owner);
      if nrrs > 0 {
        var rs := MoveRecords(rrs.value);
        rrs := Some(rs);
      } else {
        assert (c + o) + [] == c + o;
      }
    }

    method MoveRecords(rs: seq<Rr>) returns (fs: seq<Rr>)
      requires Moving() && interim >= Sum([RrSize(kind) * |rs|] + TakenAll(rs)) && forall r <- rs :: RrOk(r)
      modifies this`interim, this`space, this`pieces, this`taken
      ensures Moving() && taken == old(taken) + ([RrSize(kind) * |rs|] + TakenAll(rs)) && fs == MovedRrs(rs)
    {
      hide Sum, Round, RrOk, TakenAll, Moving, RrSize;
      var block := RrSize(kind) * |rs|;
      SumOne(block);
      SumConcat([block], TakenAll(rs));
      ghost var was := taken;
      AllocFinal(block);
      fs := FinalRecords(rs);
      assert (was + [block]) + TakenAll(rs) == was + ([block] + TakenAll(rs));
    }
  }

  /** A record once its addresses are known, or known to be unavailable. */
  function Resolved(r: Rr, st: Status, found: Option<seq<Rr>>): Rr
    requires r.Host?
  {
    Host(r.host, if st.TempFail? then -1 else if found.Some? then |found.value| else 0,
         if found.Some? then Some(|found.value|) else None)
  }

  lemma HostOk(rs: seq<Rr>, i: nat, r: Rr)
    requires i < |rs| && rs[i].Host? && rs[i].addrs.None? && RrOk(rs[i])
    requires r.Host? && r.host == rs[i].host && (r.addrs.Some? ==> r.naddrs == r.addrs.value && r.naddrs > 0)
    ensures RrOk(r)
    ensures Sum(Held(r)) == Sum(Held(rs[i])) + if r.addrs.Some? then Round(ADDR_SIZE * r.addrs.value) else 0
  {
    hide Sum, Round;
    SumOne(r.host.asked);
    if r.addrs.Some? { SumTwo(r.host.asked, ADDR_SIZE * r.addrs.value); }
  }

  lemma ChildBlock(k: Layout, rs: seq<Rr>)
    requires k == Addr
    ensures BlockOf(k, Some(rs)) >= Round(ADDR_SIZE * |rs|)
  {
    hide Round, HeldAll;
  }

  // ----- whole lives of queries -----

  /** What becomes of a child query: addresses, or a failure, after some CNAMEs. */
  datatype Outcome = Found(n: nat, cnames: seq<string>) | NotFound(temp: bool, cnames: seq<string>)

  /** What can happen to a query that is not done. */
  datatype Op =
    | GotCname(text: string)
    | GotRecords(ds: seq<Option<Rdata>>)
    | Restarted
    | Failed(temp: bool)
    | AddressesDone(i: nat, o: Outcome)
    | PointerDone(o: Outcome, matches: bool)

  predicate Fitting(k: Layout, op: Op) {
    op.GotRecords? ==> |op.ds| > 0 && forall d <- op.ds :: d.Some? ==> Suits(k, d.value)
  }

  /** A child query, up to its callback. */
  method ChildLife(o: Outcome) returns (child: Query)
    ensures fresh(child) && child.Valid() && child.kind == Addr
    ensures match o
      case Found(n, _) =>
        child.status == Ok && (if n == 0 then child.rrs.None? else child.rrs.Some? && |child.rrs.value| == n)
      case NotFound(temp, _) => child.status == (if temp then TempFail else PermFail) && child.rrs.None?
  {
    child := new Query(Addr);
    for i := 0 to |o.cnames|
      invariant fresh(child) && child.Valid() && child.rrs.None? && child.status == Ok
    {
      child.SetCname(o.cnames[i]);
    }
    match o {
      case Found(n, _) =>
        if n > 0 {
          var ds := seq(n, i => Some(Octets));
          assert forall i :: 0 <= i < n ==> ds[i].Some? && Suits(Addr, ds[i].value);
          var ok := child.Records(ds);
        }
      case NotFound(temp, _) => child.Fail(if temp then TempFail else PermFail);
    }
  }

  /** One thing that happens to a query. What cannot happen in its state does not. */
  method Happen(q: Query, op: Op)
    requires q.Valid() && q.pieces == [] && Fitting(q.kind, op)
    modifies q
    ensures q.Valid() && q.pieces == [] && q.owner == old(q.owner)
  {
    hide Sum, Round, Suits, Query.Counted;
    match op {
      case GotCname(t) => if q.rrs.None? && q.status == Ok { q.SetCname(t); }
      case GotRecords(ds) =>
        if q.rrs.None? && q.status == Ok {
          var ok := q.Records(ds);
          if !ok { q.Fail(PermFail); }
        }
      case Restarted => q.Restart();
      case Failed(temp) => q.FailNow(if temp then TempFail else PermFail);
      case AddressesDone(i, o) =>
        if i in q.pending {
          var child := ChildLife(o);
          q.HostaddrDone(child, i);
        }
      case PointerDone(o, matches) =>
        if q.rrs.Some? {
          var child := ChildLife(o);
          q.PtrDone(child, matches);
        }
    }
  }

  /** A query from its submission to its answer: whatever happens, the answer's blocks lie in the
      buffer apart from each other, and adns__alloc_final's assertion holds throughout. */
  method Life(k: Layout, owner: Option<string>, ops: seq<Op>, found: Option<string>, room: bool)
      returns (q: Query, buffer: nat)
    requires forall op <- ops :: Fitting(k, op)
    ensures q.interim >= 0 && Apart(q.pieces, Round(ANSWER_SIZE), buffer)
  {
    hide Sum, Round, Placed, FinalSizes, Apart, Query.Valid, Fitting;
    q := new Query(k);
    if owner.Some? { q.SaveOwner(owner.value); }
    for i := 0 to |ops|
      invariant fresh(q) && q.Valid() && q.kind == k && q.pieces == [] && (owner.None? ==> q.owner.None?)
    {
      Happen(q, ops[i]);
    }
    if owner.None? && found.Some? { q.SaveOwner(found.value); }
    ghost var sizes := FinalSizes(k, q.cname, q.owner, q.rrs);
    RoundAligned(ANSWER_SIZE);
    NonePlaced(Round(ANSWER_SIZE));
    NoSum();
    ghost var was := q.interim;
    NeverNegative(q);
    buffer := q.MakeFinal(room);
    ghost var at := Round(ANSWER_SIZE);
    if room || was == 0 { AllApart(at, sizes, buffer); } else { AllApart(at, [], buffer); }
  }

  lemma NeverNegative(q: Query)
    requires q.Valid()
    ensures q.interim >= q.preserved >= 0
  {
  }

  lemma RoundAligned(n: nat)
    ensures Round(n) % ALIGN == 0
  {
  }

  lemma NonePlaced(at: nat)
    ensures Placed(at, []) == []
  {
  }

  lemma NothingKept()
    ensures Sum(AskedOf(None)) == 0
  {
  }

  lemma TwoMore(s: seq<nat>, a: nat, b: nat)
    ensures (s + [a]) + [b] == s + [a, b]
  {
  }

  lemma BlanksOk(n: nat)
    ensures forall r <- Blanks(n) :: RrOk(r)
  {
  }

  lemma BlankHolds()
    ensures Sum(Held(Blank)) == 0
  {
    NoSum();
  }

  lemma {:induction false} TakenPrefix(rs: seq<Rr>, i: nat)
    requires i <= |rs|
    ensures Sum(TakenAll(rs[..i])) <= Sum(TakenAll(rs))
    decreases |rs|
  {
    hide Sum, Taken;
    if i == |rs| {
      assert rs[..i] == rs;
    } else {
      var n := |rs| - 1;
      assert rs[..n][..i] == rs[..i];
      TakenPrefix(rs[..n], i);
      SumConcat(TakenAll(rs[..n]), Taken(rs[n]));
    }
  }
}
