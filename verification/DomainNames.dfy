/** Domain names on the wire and as text (sections 3.1 and 5.1 of RFC 1035): the encoder
    of adns/transmit.c, and the reader and printer of adns/parse.c for names without
    compression. */
module DomainNames {

  type Byte = b: int | 0 <= b < 256

  const DOT: Byte := 46
  const BACKSLASH: Byte := 92
  const HYPHEN: Byte := 45
  const DNS_MAXLABEL := 63
  const DNS_MAXDOMAIN := 255
  const DNS_HDRSIZE := 12

  datatype Status = Ok | QueryDomainInvalid | QueryDomainTooLong

  predicate Digit(c: Byte) { 48 <= c <= 57 }
  predicate Alpha(c: Byte) { 65 <= c <= 90 || 97 <= c <= 122 }

  /** ctype_domainunquoted: letters, digits and "-_/+". */
  predicate Unquoted(c: Byte) { Alpha(c) || Digit(c) || c == 45 || c == 95 || c == 47 || c == 43 }

  // ----- adns__mkquery -----

  /** One label read from the text: its bytes and the text after it. */
  datatype Reading = Label(bytes: seq<Byte>, rest: seq<Byte>) | Bad

  /** A character that stands for itself, as flags allow it at position `ll`. */
  predicate Allowed(c: Byte, ll: nat, quoteok: bool) {
    quoteok || (if c == HYPHEN then ll > 0 else Alpha(c) || Digit(c))
  }

  /** The bytes of one step of the label loop: the byte meant and the characters it
      takes; None is an invalid name. The text ends in a NUL. */
  datatype Step = Take(b: Byte, n: nat) | Wrong

  function NextByte(t: seq<Byte>, quoteok: bool): (r: Step)
    requires t != []
    ensures r.Take? ==> 1 <= r.n <= |t|
  {
    if t[0] != BACKSLASH then Take(t[0], 1)
    else if !quoteok then Wrong
    else if |t| > 1 && Digit(t[1]) then
      if |t| > 3 && Digit(t[2]) && Digit(t[3]) then
        var c: int := (t[1] as int - 48) * 100 + (t[2] as int - 48) * 10 + (t[3] as int - 48);
        if c >= 256 then Wrong else Take(c, 4)
      else Wrong
    else if |t| == 1 || t[1] == 0 then Wrong
    else Take(t[1], 2)
  }

  function ReadLabel(t: seq<Byte>, quoteok: bool, acc: seq<Byte>): (r: Reading)
    requires |acc| <= 255
    ensures r.Label? ==> |acc| <= |r.bytes| <= 255
    ensures r.Label? ==> |r.bytes| - |acc| + |r.rest| <= |t|
    ensures r.Label? && r.rest != [] ==> |r.bytes| - |acc| + |r.rest| < |t|
    ensures r.Label? && t != [] ==> |r.rest| < |t|
    decreases |t|
  {
    if t == [] then Label(acc, [])
    else if t[0] == DOT then Label(acc, t[1..])
    else
      match NextByte(t, quoteok)
      case Wrong => Bad
      case Take(b, n) =>
        if !Allowed(b, |acc|, quoteok) || |acc| == 255 then Bad
        else ReadLabel(t[n..], quoteok, acc + [b])
  }

  /** The name part of a query for the text `t` after `nbytes` bytes of labels. */
  datatype Encoding = Name(bytes: seq<Byte>) | Fails(status: Status)

  function EncodeName(t: seq<Byte>, quoteok: bool, nbytes: nat): (r: Encoding)
    ensures r.Name? ==> |r.bytes| <= |t| + 2
    decreases |t|
  {
    if t == [] then Name([0])
    else
      match ReadLabel(t, quoteok, [])
      case Bad => Fails(QueryDomainInvalid)
      case Label(l, rest) =>
        if l == [] then Fails(QueryDomainInvalid)
        else if TooLong(l, nbytes) then Fails(QueryDomainTooLong)
        else Prepend([|l|] + l, EncodeName(rest, quoteok, nbytes + |l| + 1))
  }

  // ----- the text in memory -----

  /** What is in memory from the name's first byte on; the name has some number of them, and the rest is
      whatever lies behind it. */
  type Memory = nat -> Byte

  function TextOf(m: Memory, ol: nat): (t: seq<Byte>)
    ensures |t| == ol && forall i :: 0 <= i < ol ==> t[i] == m(i)
  {
    seq(ol, i requires 0 <= i < ol => m(i))
  }

  predicate Holds(m: Memory, t: seq<Byte>) { TextOf(m, |t|) == t }

  /** The bytes that one step may look at. */
  function Window(m: Memory, p: nat): (w: seq<Byte>)
    ensures |w| == 4
  {
    [m(p), m(p + 1), m(p + 2), m(p + 3)]
  }

  /** A label read from position `p`: its bytes and the position behind it. */
  datatype ReadingAt = At(bytes: seq<Byte>, next: nat) | BadAt

  /** The label loop. It stops at the end of the name only when it gets there exactly: an escape that begins
      before the end may be completed by what is behind it. */
  function LabelAt(m: Memory, pe: nat, p: nat, quoteok: bool, acc: seq<Byte>): (r: ReadingAt)
    requires |acc| <= 255
    ensures r.At? ==> p <= r.next && |acc| <= |r.bytes| <= 255
    ensures r.At? && p > pe ==> r.next > pe
    decreases 255 - |acc|
  {
    if p == pe then At(acc, p)
    else if m(p) == DOT then At(acc, p + 1)
    else
      match NextByte(Window(m, p), quoteok)
      case Wrong => BadAt
      case Take(b, n) =>
        if !Allowed(b, |acc|, quoteok) || |acc| == 255 then BadAt
        else LabelAt(m, pe, p + n, quoteok, acc + [b])
  }

  predicate TooLong(l: seq<Byte>, nbytes: nat) { |l| > DNS_MAXLABEL || nbytes + |l| + 1 >= DNS_MAXDOMAIN }

  /** The name part of a query as adns__mkquery makes it of `pe` bytes in memory. */
  function EncodeAt(m: Memory, pe: nat, p: nat, quoteok: bool, nbytes: nat): Encoding
    decreases DNS_MAXDOMAIN - nbytes
  {
    if p == pe then Name([0])
    else
      var r := LabelAt(m, pe, p, quoteok, []);
      if r.BadAt? || r.bytes == [] then Fails(QueryDomainInvalid)
      else if TooLong(r.bytes, nbytes) then Fails(QueryDomainTooLong)
      else Prepend([|r.bytes|] + r.bytes, EncodeAt(m, pe, r.next, quoteok, nbytes + |r.bytes| + 1))
  }

  /** How many bytes of the name are written, also when it fails in the end. */
  function Written(m: Memory, pe: nat, p: nat, quoteok: bool, nbytes: nat): (k: nat)
    ensures nbytes < DNS_MAXDOMAIN ==> nbytes + k <= DNS_MAXDOMAIN
    decreases DNS_MAXDOMAIN - nbytes
  {
    if p == pe then 1
    else
      var r := LabelAt(m, pe, p, quoteok, []);
      if r.BadAt? || r.bytes == [] || TooLong(r.bytes, nbytes) then 0
      else |r.bytes| + 1 + Written(m, pe, r.next, quoteok, nbytes + |r.bytes| + 1)
  }

  /** The size of the buffer that mkquery_header makes sure of. */
  function Room(ol: nat): nat { DNS_HDRSIZE + (ol + 2) + 4 }

  /** Where the memory ends that anything is ever written to. */
  const REACH := DNS_HDRSIZE + DNS_MAXDOMAIN + 4

  /** adns__mkquery: header, name and footer, written through a moving index. The array goes on behind the
      buffer, so that `inside` can say whether the buffer held all that was written. */
  method MkQuery(id: nat, m: Memory, ol: nat, qtype: nat, quoteok: bool)
      returns (status: Status, buf: array<Byte>, used: nat, inside: bool)
    requires id < 0x1_0000 && qtype < 0x1_0000
    ensures fresh(buf) && used <= buf.Length
    ensures inside <==> DNS_HDRSIZE + Written(m, ol, 0, quoteok, 0) <= Room(ol)
    ensures match EncodeAt(m, ol, 0, quoteok, 0)
      case Fails(s) => status == s
      case Name(bs) => status == Ok && used <= Room(ol) && IsQuery(buf[..used], id, bs, qtype)
    ensures Closed(m, ol) || !CutOff(TextOf(m, ol), quoteok, 0) ==>
              inside && EncodeAt(m, ol, 0, quoteok, 0) == EncodeName(TextOf(m, ol), quoteok, 0)
  {
    hide EncodeAt, Written, EncodeName, CutOff;
    if Closed(m, ol) || !CutOff(TextOf(m, ol), quoteok, 0) { EncodesText(m, ol, quoteok); }
    NameKept(m, ol, quoteok);
    buf := new Byte[if Room(ol) < REACH then REACH else Room(ol)](_ => 0);
    used := Add(buf, 0, Header(id));
    status, used := WriteName(buf, m, ol, quoteok);
    inside := used <= Room(ol);
    if status == Ok {
      QueryReads(id, buf[DNS_HDRSIZE..used], qtype);
      ghost var name := buf[DNS_HDRSIZE..used];
      assert buf[..used] == Header(id) + name;
      used := Add(buf, used, Footer(qtype));
    }
  }

  /** The loop over the labels. */
  method WriteName(buf: array<Byte>, m: Memory, ol: nat, quoteok: bool) returns (status: Status, used: nat)
    requires buf.Length >= REACH
    modifies buf
    ensures used == DNS_HDRSIZE + Written(m, ol, 0, quoteok, 0)
    ensures match EncodeAt(m, ol, 0, quoteok, 0)
      case Fails(s) => status == s && s != Ok
      case Name(bs) => status == Ok && buf[..used] == old(buf[..DNS_HDRSIZE]) + bs
  {
    hide Prepend, EncodeAt, LabelAt, Written;
    used := DNS_HDRSIZE;
    var p, nbytes := 0, 0;
    ghost var h := buf[..DNS_HDRSIZE];
    ghost var done: seq<Byte> := [];
    PrependNone(EncodeAt(m, ol, 0, quoteok, 0));
    while p != ol
      invariant used == DNS_HDRSIZE + nbytes && nbytes == |done| < DNS_MAXDOMAIN
      invariant buf[..used] == h + done
      invariant EncodeAt(m, ol, 0, quoteok, 0) == Prepend(done, EncodeAt(m, ol, p, quoteok, nbytes))
      invariant Written(m, ol, 0, quoteok, 0) == nbytes + Written(m, ol, p, quoteok, nbytes)
      decreases DNS_MAXDOMAIN - nbytes
    {
      var ok, lab, next := GetLabel(m, ol, p, quoteok);
      EncodeStep(m, ol, p, quoteok, nbytes);
      if !ok || |lab| == 0 { PrependFails(done, QueryDomainInvalid); return QueryDomainInvalid, used; }
      var ll := |lab|;
      if ll > DNS_MAXLABEL || nbytes + ll + 1 >= DNS_MAXDOMAIN {
        PrependFails(done, QueryDomainTooLong);
        return QueryDomainTooLong, used;
      }
      PrependMore(done, [ll] + lab, EncodeAt(m, ol, next, quoteok, nbytes + ll + 1));
      nbytes := nbytes + ll + 1;
      used := Add(buf, used, [ll] + lab);
      done := done + ([ll] + lab);
      p := next;
    }
    EncodeEnd(m, ol, done, quoteok, nbytes);
    used := Add(buf, used, [0]);
    status := Ok;
  }

  /** MKQUERY_ADDB and memcpy: bytes appended at the write index. */
  method Add(buf: array<Byte>, at: nat, bs: seq<Byte>) returns (used: nat)
    requires at + |bs| <= buf.Length
    modifies buf
    ensures used == at + |bs| && buf[..used] == old(buf[..at]) + bs
  {
    forall i | 0 <= i < |bs| { buf[at + i] := bs[i]; }
    used := at + |bs|;
    assert forall i :: 0 <= i < |bs| ==> buf[..used][at + i] == bs[i];
  }

  lemma LabelEnds(m: Memory, pe: nat, p: nat, quoteok: bool, acc: seq<Byte>)
    requires |acc| <= 255 && (p == pe || m(p) == DOT)
    ensures LabelAt(m, pe, p, quoteok, acc) == At(acc, if p == pe then p else p + 1)
  {
  }

  lemma LabelMore(m: Memory, pe: nat, p: nat, quoteok: bool, acc: seq<Byte>)
    requires |acc| <= 255 && p != pe && m(p) != DOT
    ensures var s := NextByte(Window(m, p), quoteok);
      LabelAt(m, pe, p, quoteok, acc)
      == if s.Wrong? || !Allowed(s.b, |acc|, quoteok) || |acc| == 255 then BadAt
         else LabelAt(m, pe, p + s.n, quoteok, acc + [s.b])
  {
    hide NextByte, Allowed, Window;
  }

  /** The label loop of adns__mkquery, with its buffer of 255 bytes. */
  method GetLabel(m: Memory, pe: nat, start: nat, quoteok: bool) returns (ok: bool, lab: seq<Byte>, p: nat)
    ensures match LabelAt(m, pe, start, quoteok, [])
      case BadAt => !ok
      case At(l, next) => ok && lab == l && p == next
  {
    hide LabelAt, NextByte, Allowed, Window;
    var buf := new Byte[255](_ => 0);
    var ll := 0;
    p := start;
    while p != pe
      invariant 0 <= ll <= 255
      invariant LabelAt(m, pe, start, quoteok, []) == LabelAt(m, pe, p, quoteok, buf[..ll])
      decreases 255 - ll
    {
      if m(p) == DOT {
        LabelEnds(m, pe, p, quoteok, buf[..ll]);
        return true, buf[..ll], p + 1;
      }
      LabelMore(m, pe, p, quoteok, buf[..ll]);
      var s := NextByte(Window(m, p), quoteok);
      if s == Wrong || !Allowed(s.b, ll, quoteok) || ll == buf.Length { return false, [], p; }
      ghost var before := buf[..ll];
      buf[ll] := s.b;
      assert buf[..ll + 1] == before + [s.b];
      ll := ll + 1;
      p := p + s.n;
    }
    LabelEnds(m, pe, p, quoteok, buf[..ll]);
    return true, buf[..ll], p;
  }

  function Word(w: nat): seq<Byte>
    requires w < 0x1_0000
  {
    [w / 256, w % 256]
  }

  /** mkquery_header and mkquery_footer. */
  function Header(id: nat): (h: seq<Byte>)
    requires id < 0x1_0000
    ensures |h| == DNS_HDRSIZE
  {
    Word(id) + [1, 0] + Word(1) + Word(0) + Word(0) + Word(0)
  }

  function Footer(qtype: nat): (f: seq<Byte>)
    requires qtype < 0x1_0000
    ensures |f| == 4
  {
    Word(qtype) + Word(1)
  }

  // ----- the datagram read back -----

  /** Two bytes of a datagram, the higher first. */
  function WordAt(d: seq<Byte>, at: nat): nat
    requires at + 1 < |d|
  {
    (d[at] as int) * 256 + d[at + 1] as int
  }

  /** A query (sections 4.1.1 and 4.1.2 of RFC 1035): its id, the flags of a question that asks for recursion,
      one question and no records, the name, and the type and the class Internet. */
  predicate IsQuery(d: seq<Byte>, id: nat, name: seq<Byte>, qtype: nat) {
    var end := DNS_HDRSIZE + |name|;
    && |d| == end + 4 && WordAt(d, 0) == id && WordAt(d, 2) == 0x100 && WordAt(d, 4) == 1
    && WordAt(d, 6) == WordAt(d, 8) == WordAt(d, 10) == 0
    && d[DNS_HDRSIZE..end] == name && WordAt(d, end) == qtype && WordAt(d, end + 2) == 1
  }

  lemma QueryReads(id: nat, name: seq<Byte>, qtype: nat)
    requires id < 0x1_0000 && qtype < 0x1_0000
    ensures IsQuery(Header(id) + name + Footer(qtype), id, name, qtype)
  {
    var h, f := Header(id), Footer(qtype);
    var d := h + name + f;
    assert forall i :: 0 <= i < 12 ==> d[i] == h[i];
    assert forall i :: 0 <= i < 4 ==> d[12 + |name| + i] == f[i];
    assert d[12 + |name| + 2] == f[2] && d[12 + |name| + 3] == f[3];
  }

  function Prepend(bs: seq<Byte>, e: Encoding): Encoding {
    if e.Name? then Name(bs + e.bytes) else e
  }

  lemma PrependFails(bs: seq<Byte>, s: Status)
    ensures Prepend(bs, Fails(s)) == Fails(s)
  {
  }

  lemma PrependNone(e: Encoding)
    ensures Prepend([], e) == e
  {
  }

  lemma EncodeEnd(m: Memory, pe: nat, bs: seq<Byte>, quoteok: bool, nbytes: nat)
    ensures Prepend(bs, EncodeAt(m, pe, pe, quoteok, nbytes)) == Name(bs + [0])
    ensures Written(m, pe, pe, quoteok, nbytes) == 1
  {
  }

  lemma EncodeStep(m: Memory, pe: nat, p: nat, quoteok: bool, nbytes: nat)
    requires p != pe
    ensures var r := LabelAt(m, pe, p, quoteok, []);
      && EncodeAt(m, pe, p, quoteok, nbytes)
         == (if r.BadAt? || r.bytes == [] then Fails(QueryDomainInvalid)
             else if TooLong(r.bytes, nbytes) then Fails(QueryDomainTooLong)
             else Prepend([|r.bytes|] + r.bytes, EncodeAt(m, pe, r.next, quoteok, nbytes + |r.bytes| + 1)))
      && Written(m, pe, p, quoteok, nbytes)
         == (if r.BadAt? || r.bytes == [] || TooLong(r.bytes, nbytes) then 0
             else |r.bytes| + 1 + Written(m, pe, r.next, quoteok, nbytes + |r.bytes| + 1))
  {
    hide LabelAt, Prepend;
  }

  lemma PrependMore(a: seq<Byte>, b: seq<Byte>, e: Encoding)
    ensures Prepend(a, Prepend(b, e)) == Prepend(a + b, e)
  {
    if e.Name? { assert a + (b + e.bytes) == (a + b) + e.bytes; }
  }

  // ----- escapes that are cut off -----

  /** `t` begins with an escape that is not complete, and may become a byte with more behind it. */
  predicate Unfinished(t: seq<Byte>, quoteok: bool) {
    t != [] && var s := NextByte(t + [48, 48, 48], quoteok); s.Take? && s.n > |t|
  }

  /** The label loop gets to an escape that is cut off by the end of the text. */
  predicate LabelCut(t: seq<Byte>, quoteok: bool, ll: nat)
    decreases |t|
  {
    if t == [] || t[0] == DOT || ll >= 255 then false
    else
      var s := NextByte(t, quoteok);
      if s.Wrong? then Unfinished(t, quoteok) else Allowed(s.b, ll, quoteok) && LabelCut(t[s.n..], quoteok, ll + 1)
  }

  /** The encoder gets to an escape that is cut off by the end of the text: it has found nothing wrong, and
      nothing too long, in what is before. */
  predicate CutOff(t: seq<Byte>, quoteok: bool, nbytes: nat)
    decreases |t|
  {
    t != [] && (LabelCut(t, quoteok, 0) ||
      var r := ReadLabel(t, quoteok, []);
      r.Label? && r.bytes != [] && !TooLong(r.bytes, nbytes) && CutOff(r.rest, quoteok, nbytes + |r.bytes| + 1))
  }

  /** What is behind the text completes no escape: a NUL, or, when the text does not end in a backslash,
      anything that is not a digit, such as the dot that adns_submit leaves out. */
  predicate Closed(m: Memory, ol: nat) {
    m(ol) == 0 || (!Digit(m(ol)) && (ol == 0 || m(ol - 1) != BACKSLASH))
  }

  /** One step on the text and one in memory. */
  lemma StepSame(m: Memory, ol: nat, p: nat, quoteok: bool)
    requires p < ol
    ensures var t, s := TextOf(m, ol)[p..], NextByte(TextOf(m, ol)[p..], quoteok);
      var s' := NextByte(Window(m, p), quoteok);
      && (s.Take? ==> s' == s)
      && (s.Wrong? && (Closed(m, ol) || !Unfinished(t, quoteok)) ==> s' == Wrong)
  {
    var t := TextOf(m, ol)[p..];
    assert t[0] == m(p);
    assert |t| > 1 ==> t[1] == m(p + 1);
    assert |t| > 2 ==> t[2] == m(p + 2);
    assert |t| > 3 ==> t[3] == m(p + 3);
    var u := t + [48, 48, 48];
    if |t| == 1 {
      assert m(p + 1) == m(ol) && u == [t[0], 48, 48, 48];
    } else if |t| == 2 {
      assert m(p + 2) == m(ol) && u == [t[0], t[1], 48, 48, 48];
    } else if |t| == 3 {
      assert m(p + 3) == m(ol) && u == [t[0], t[1], t[2], 48, 48, 48];
    }
  }

  lemma LabelCutStep(t: seq<Byte>, quoteok: bool, ll: nat)
    requires t != [] && t[0] != DOT && ll < 255 && !LabelCut(t, quoteok, ll)
    ensures var s := NextByte(t, quoteok);
      if s.Wrong? then !Unfinished(t, quoteok) else Allowed(s.b, ll, quoteok) ==> !LabelCut(t[s.n..], quoteok, ll + 1)
  {
    hide NextByte, Unfinished, Allowed;
  }

  /** A label read from the text and one read in memory. */
  lemma {:induction false} LabelSame(m: Memory, ol: nat, p: nat, quoteok: bool, acc: seq<Byte>)
    requires p <= ol && |acc| <= 255
    requires Closed(m, ol) || !LabelCut(TextOf(m, ol)[p..], quoteok, |acc|)
    ensures var r, r' := ReadLabel(TextOf(m, ol)[p..], quoteok, acc), LabelAt(m, ol, p, quoteok, acc);
      && (r.Bad? <==> r'.BadAt?)
      && (r.Label? ==> r'.bytes == r.bytes && r'.next <= ol && TextOf(m, ol)[r'.next..] == r.rest)
    decreases 255 - |acc|
  {
    hide ReadLabel, LabelAt, LabelCut, NextByte, Allowed, Closed, Unfinished, Window, TextOf;
    var t := TextOf(m, ol)[p..];
    if p == ol || m(p) == DOT {
      LabelEnds(m, ol, p, quoteok, acc);
      ReadEndOf(t, quoteok, acc);
    } else {
      var s := NextByte(t, quoteok);
      LabelMore(m, ol, p, quoteok, acc);
      ReadMore(t, quoteok, acc);
      if |acc| < 255 {
        if !Closed(m, ol) { LabelCutStep(t, quoteok, |acc|); }
        StepSame(m, ol, p, quoteok);
        if s.Take? && Allowed(s.b, |acc|, quoteok) {
          assert t[s.n..] == TextOf(m, ol)[p + s.n..];
          LabelSame(m, ol, p + s.n, quoteok, acc + [s.b]);
        }
      }
    }
  }

  lemma ReadEndOf(t: seq<Byte>, quoteok: bool, acc: seq<Byte>)
    requires |acc| <= 255 && (t == [] || t[0] == DOT)
    ensures ReadLabel(t, quoteok, acc) == Label(acc, if t == [] then [] else t[1..])
  {
  }

  lemma ReadMore(t: seq<Byte>, quoteok: bool, acc: seq<Byte>)
    requires |acc| <= 255 && t != [] && t[0] != DOT
    ensures var s := NextByte(t, quoteok);
      ReadLabel(t, quoteok, acc)
      == if s.Wrong? || !Allowed(s.b, |acc|, quoteok) || |acc| == 255 then Bad
         else ReadLabel(t[s.n..], quoteok, acc + [s.b])
  {
    hide NextByte, Allowed;
  }

  lemma CutOffStep(t: seq<Byte>, quoteok: bool, nbytes: nat)
    requires t != [] && !CutOff(t, quoteok, nbytes)
    ensures !LabelCut(t, quoteok, 0)
    ensures var r := ReadLabel(t, quoteok, []);
      r.Label? && r.bytes != [] && !TooLong(r.bytes, nbytes) ==> !CutOff(r.rest, quoteok, nbytes + |r.bytes| + 1)
  {
    hide LabelCut, ReadLabel;
  }

  lemma NameStep(t: seq<Byte>, quoteok: bool, nbytes: nat)
    requires t != []
    ensures var r := ReadLabel(t, quoteok, []);
      EncodeName(t, quoteok, nbytes)
      == (if r.Bad? || r.bytes == [] then Fails(QueryDomainInvalid)
          else if TooLong(r.bytes, nbytes) then Fails(QueryDomainTooLong)
          else Prepend([|r.bytes|] + r.bytes, EncodeName(r.rest, quoteok, nbytes + |r.bytes| + 1)))
  {
    hide ReadLabel, Prepend;
  }

  lemma ReadShorter(t: seq<Byte>, quoteok: bool)
    ensures var r := ReadLabel(t, quoteok, []);
      r.Label? ==> |r.bytes| + |r.rest| <= |t| && (r.rest != [] ==> |r.bytes| + |r.rest| < |t|)
  {
    hide NextByte, Allowed;
  }

  /** Where no escape is cut off, or what is behind completes none, the encoder depends on the text alone
      and its bytes have room in the buffer. */
  lemma {:induction false} NameSame(m: Memory, ol: nat, p: nat, quoteok: bool, nbytes: nat)
    requires p <= ol
    requires Closed(m, ol) || !CutOff(TextOf(m, ol)[p..], quoteok, nbytes)
    ensures EncodeAt(m, ol, p, quoteok, nbytes) == EncodeName(TextOf(m, ol)[p..], quoteok, nbytes)
    ensures Written(m, ol, p, quoteok, nbytes) <= ol - p + 2 && (p == ol ==> Written(m, ol, p, quoteok, nbytes) == 1)
    decreases DNS_MAXDOMAIN - nbytes
  {
    hide ReadLabel, LabelAt, EncodeAt, EncodeName, Written, CutOff, LabelCut, Closed, TextOf, Prepend;
    var t := TextOf(m, ol)[p..];
    if p == ol {
      EncodeEnd(m, ol, [], quoteok, nbytes);
      PrependNone(EncodeAt(m, ol, ol, quoteok, nbytes));
      NameEnds(quoteok, nbytes);
      assert t == [] && [] + [0] == [0];
    } else {
      if !Closed(m, ol) { CutOffStep(t, quoteok, nbytes); }
      LabelSame(m, ol, p, quoteok, []);
      EncodeStep(m, ol, p, quoteok, nbytes);
      NameStep(t, quoteok, nbytes);
      ReadShorter(t, quoteok);
      var r := LabelAt(m, ol, p, quoteok, []);
      if r.At? && r.bytes != [] && !TooLong(r.bytes, nbytes) {
        NameSame(m, ol, r.next, quoteok, nbytes + |r.bytes| + 1);
      }
    }
  }

  lemma NameEnds(quoteok: bool, nbytes: nat)
    ensures EncodeName([], quoteok, nbytes) == Name([0])
  {
  }

  lemma EncodesText(m: Memory, ol: nat, quoteok: bool)
    requires Closed(m, ol) || !CutOff(TextOf(m, ol), quoteok, 0)
    ensures EncodeAt(m, ol, 0, quoteok, 0) == EncodeName(TextOf(m, ol), quoteok, 0)
    ensures Written(m, ol, 0, quoteok, 0) <= ol + 2
  {
    assert TextOf(m, ol)[0..] == TextOf(m, ol);
    NameSame(m, ol, 0, quoteok, 0);
  }

  // ----- beyond the end -----

  lemma {:induction false} LabelTakes(m: Memory, pe: nat, p: nat, quoteok: bool, acc: seq<Byte>)
    requires |acc| <= 255
    ensures var r := LabelAt(m, pe, p, quoteok, acc);
      r.At? ==> |r.bytes| - |acc| <= r.next - p && (r.next != pe ==> |r.bytes| - |acc| < r.next - p)
    decreases 255 - |acc|
  {
    hide NextByte, Allowed, Window;
    if p != pe && m(p) != DOT {
      var s := NextByte(Window(m, p), quoteok);
      if s.Take? && |acc| < 255 { LabelTakes(m, pe, p + s.n, quoteok, acc + [s.b]); }
    }
  }

  /** A name that is made has room in the buffer, and its text was read to its end and no further: once
      the index is beyond the end, the query is refused, whatever it takes to get there. */
  lemma {:induction false} NameKeptFrom(m: Memory, pe: nat, p: nat, quoteok: bool, nbytes: nat)
    ensures var e := EncodeAt(m, pe, p, quoteok, nbytes);
      e.Name? ==> p <= pe && Written(m, pe, p, quoteok, nbytes) == |e.bytes| <= pe - p + if p == pe then 1 else 2
    decreases DNS_MAXDOMAIN - nbytes
  {
    hide LabelAt;
    if p != pe {
      var r := LabelAt(m, pe, p, quoteok, []);
      LabelTakes(m, pe, p, quoteok, []);
      if r.At? && r.bytes != [] && !TooLong(r.bytes, nbytes) {
        NameKeptFrom(m, pe, r.next, quoteok, nbytes + |r.bytes| + 1);
      }
    }
  }

  lemma NameKept(m: Memory, ol: nat, quoteok: bool)
    ensures var e := EncodeAt(m, ol, 0, quoteok, 0);
      e.Name? ==> Written(m, ol, 0, quoteok, 0) == |e.bytes| <= ol + 2
  {
    NameKeptFrom(m, ol, 0, quoteok, 0);
  }

  /** From `p` on the memory holds "x.x.x." without end. */
  ghost predicate Dotted(m: Memory, p: nat) {
    forall i: nat :: m(p + 2 * i) == 120 && m(p + 2 * i + 1) == DOT
  }

  lemma DottedLabel(m: Memory, pe: nat, p: nat)
    requires p > pe && m(p) == 120 && m(p + 1) == DOT
    ensures LabelAt(m, pe, p, true, []) == At([120], p + 2)
  {
    LabelMore(m, pe, p, true, []);
    LabelEnds(m, pe, p + 1, true, [120]);
    assert [] + [120 as Byte] == [120];
  }

  /** The encoder then only stops when the name is too long. */
  lemma {:induction false} Runaway(m: Memory, pe: nat, p: nat, nbytes: nat)
    requires p > pe && Dotted(m, p)
    ensures EncodeAt(m, pe, p, true, nbytes) == Fails(QueryDomainTooLong)
    decreases DNS_MAXDOMAIN - nbytes
  {
    hide LabelAt, EncodeAt, Written;
    assert m(p + 2 * 0) == 120 && m(p + 2 * 0 + 1) == DOT;
    DottedLabel(m, pe, p);
    EncodeStep(m, pe, p, true, nbytes);
    if !TooLong([120], nbytes) {
      forall i: nat ensures m(p + 2 + 2 * i) == 120 && m(p + 2 + 2 * i + 1) == DOT {
        assert m(p + 2 * (i + 1)) == 120 && m(p + 2 * (i + 1) + 1) == DOT;
      }
      Runaway(m, pe, p + 2, nbytes + 2);
    }
  }

  /** Memory that completes a cut-off escape with `k` zeros and then is dotted. */
  function Behind(t: seq<Byte>, k: nat): Memory {
    (i: nat) => if i < |t| then t[i] else if i < |t| + k then 48 else if (i - |t| - k) % 2 == 0 then DOT else 120
  }

  lemma BehindIs(t: seq<Byte>, k: nat)
    ensures Holds(Behind(t, k), t) && Dotted(Behind(t, k), |t| + k + 1) && Behind(t, k)(|t| + k) == DOT
    ensures forall i :: |t| <= i < |t| + k ==> Behind(t, k)(i) == 48
  {
    var m, q := Behind(t, k), |t| + k + 1;
    forall i: nat ensures m(q + 2 * i) == 120 && m(q + 2 * i + 1) == DOT {
      assert (q + 2 * i - |t| - k) % 2 == 1 && (q + 2 * i + 1 - |t| - k) % 2 == 0;
    }
  }

  /** The escape itself. */
  lemma UnfinishedRuns(t: seq<Byte>, p: nat, acc: seq<Byte>) returns (k: nat)
    requires p < |t| && |acc| < 255 && t[p] != DOT
    requires NextByte(t[p..], true).Wrong? && Unfinished(t[p..], true)
    ensures var r := LabelAt(Behind(t, k), |t|, p, true, acc); r.At? && r.bytes != [] && r.next == |t| + k + 1
  {
    hide Behind, LabelAt;
    var u := t[p..];
    assert u[0] == t[p] == BACKSLASH && |u| < 4;
    k := 4 - |u|;
    var m := Behind(t, k);
    BehindIs(t, k);
    var w := Window(m, p);
    assert TextOf(m, |t|)[p] == m(p);
    assert |u| > 1 ==> TextOf(m, |t|)[p + 1] == u[1] == m(p + 1);
    assert |u| > 2 ==> TextOf(m, |t|)[p + 2] == u[2] == m(p + 2);
    var s := NextByte(u + [48, 48, 48], true);
    assert NextByte(w, true) == s && s.n == 4;
    LabelMore(m, |t|, p, true, acc);
    LabelEnds(m, |t|, p + 4, true, acc + [s.b]);
  }

  lemma {:induction false} LabelRuns(t: seq<Byte>, p: nat, acc: seq<Byte>) returns (k: nat)
    requires p <= |t| && |acc| <= 255 && LabelCut(t[p..], true, |acc|)
    ensures var r := LabelAt(Behind(t, k), |t|, p, true, acc); r.At? && r.bytes != [] && r.next == |t| + k + 1
    ensures ReadLabel(t[p..], true, acc).Bad?
    decreases 255 - |acc|
  {
    hide Behind, LabelAt, NextByte, Unfinished, Window, TextOf, ReadLabel;
    var u := t[p..];
    var s := NextByte(u, true);
    ReadMore(u, true, acc);
    if s.Wrong? {
      k := UnfinishedRuns(t, p, acc);
    } else {
      assert u[s.n..] == t[p + s.n..];
      k := LabelRuns(t, p + s.n, acc + [s.b]);
      BehindIs(t, k);
      StepSame(Behind(t, k), |t|, p, true);
      assert TextOf(Behind(t, k), |t|)[p] == Behind(t, k)(p) by { TextAt(Behind(t, k), |t|, p); }
      LabelMore(Behind(t, k), |t|, p, true, acc);
    }
  }

  lemma TextAt(m: Memory, ol: nat, p: nat)
    requires p < ol
    ensures TextOf(m, ol)[p] == m(p)
  {
  }

  /** Memory behind a cut-off escape that leads the encoder elsewhere. */
  lemma {:induction false} CutOffRuns(t: seq<Byte>, p: nat, nbytes: nat) returns (k: nat)
    requires p <= |t| && CutOff(t[p..], true, nbytes)
    ensures EncodeAt(Behind(t, k), |t|, p, true, nbytes) == Fails(QueryDomainTooLong)
    ensures EncodeName(t[p..], true, nbytes) == Fails(QueryDomainInvalid)
    decreases |t| - p
  {
    hide Behind, LabelAt, EncodeAt, EncodeName, ReadLabel, LabelCut, TextOf, Dotted, Prepend;
    var u := t[p..];
    NameStep(u, true, nbytes);
    if LabelCut(u, true, 0) {
      k := LabelRuns(t, p, []);
      EncodeStep(Behind(t, k), |t|, p, true, nbytes);
      BehindIs(t, k);
      var r := LabelAt(Behind(t, k), |t|, p, true, []);
      if !TooLong(r.bytes, nbytes) { Runaway(Behind(t, k), |t|, r.next, nbytes + |r.bytes| + 1); }
      PrependFails([|r.bytes|] + r.bytes, QueryDomainTooLong);
    } else {
      var l := ReadLabel(u, true, []);
      RestOfText(u, true, []);
      assert l.rest == t[|t| - |l.rest|..];
      PrependFails([|l.bytes|] + l.bytes, QueryDomainInvalid);
      PrependFails([|l.bytes|] + l.bytes, QueryDomainTooLong);
      k := CutOffRuns(t, |t| - |l.rest|, nbytes + |l.bytes| + 1);
      BehindIs(t, k);
      LabelSame(Behind(t, k), |t|, p, true, []);
      EncodeStep(Behind(t, k), |t|, p, true, nbytes);
    }
  }

  lemma {:induction false} RestOfText(t: seq<Byte>, quoteok: bool, acc: seq<Byte>)
    requires |acc| <= 255
    ensures var r := ReadLabel(t, quoteok, acc);
      r.Label? ==> |r.rest| <= |t| && r.rest == t[|t| - |r.rest|..]
    decreases |t|
  {
    hide NextByte, Allowed;
    if t != [] && t[0] != DOT {
      var s := NextByte(t, quoteok);
      if s.Take? && |acc| < 255 { RestOfText(t[s.n..], quoteok, acc + [s.b]); }
    }
  }

  /** Without quoting a backslash is refused as such. */
  lemma {:induction false} PlainNotCut(t: seq<Byte>, ll: nat)
    ensures !LabelCut(t, false, ll)
    decreases |t|
  {
    if t != [] && t[0] != DOT && ll < 255 {
      var s := NextByte(t, false);
      if s.Take? { PlainNotCut(t[s.n..], ll + 1); }
    }
  }

  lemma {:induction false} PlainWhole(t: seq<Byte>, nbytes: nat)
    ensures !CutOff(t, false, nbytes)
    decreases |t|
  {
    hide ReadLabel, LabelCut;
    PlainNotCut(t, 0);
    var r := ReadLabel(t, false, []);
    if t != [] && r.Label? { PlainWhole(r.rest, nbytes + |r.bytes| + 1); }
  }

  /** Whatever is behind the text, the encoder makes of it what the text says, within its buffer. */
  ghost predicate TextAlone(t: seq<Byte>, quoteok: bool) {
    forall m: Memory :: Holds(m, t) ==>
      EncodeAt(m, |t|, 0, quoteok, 0) == EncodeName(t, quoteok, 0) && Written(m, |t|, 0, quoteok, 0) <= |t| + 2
  }

  /** This is so exactly when the encoder gets to no escape that is cut off by the end of the text. */
  lemma EncodesExact(t: seq<Byte>, quoteok: bool)
    ensures TextAlone(t, quoteok) <==> !CutOff(t, quoteok, 0)
  {
    hide EncodeAt, EncodeName, Written, CutOff, TextOf, Behind;
    if !CutOff(t, quoteok, 0) {
      forall m: Memory | Holds(m, t)
        ensures EncodeAt(m, |t|, 0, quoteok, 0) == EncodeName(t, quoteok, 0)
        ensures Written(m, |t|, 0, quoteok, 0) <= |t| + 2
      {
        EncodesText(m, |t|, quoteok);
      }
    } else {
      if !quoteok { PlainWhole(t, 0); }
      assert t[0..] == t;
      var k := CutOffRuns(t, 0, 0);
      BehindIs(t, k);
    }
  }

  /** A text that can be encoded has no such escape. */
  lemma {:induction false} NameNotCut(t: seq<Byte>, quoteok: bool, nbytes: nat)
    requires EncodeName(t, quoteok, nbytes).Name?
    ensures !CutOff(t, quoteok, nbytes)
    decreases |t|
  {
    hide EncodeName, ReadLabel, LabelCut;
    if t != [] {
      NameStep(t, quoteok, nbytes);
      var r := ReadLabel(t, quoteok, []);
      CutIsBad(t, quoteok, []);
      NameNotCut(r.rest, quoteok, nbytes + |r.bytes| + 1);
    }
  }

  lemma {:induction false} CutIsBad(t: seq<Byte>, quoteok: bool, acc: seq<Byte>)
    requires |acc| <= 255
    ensures LabelCut(t, quoteok, |acc|) ==> ReadLabel(t, quoteok, acc).Bad?
    decreases |t|
  {
    hide NextByte, Allowed, Unfinished;
    if t != [] && t[0] != DOT && |acc| < 255 {
      var s := NextByte(t, quoteok);
      if s.Take? { CutIsBad(t[s.n..], quoteok, acc + [s.b]); }
    }
  }

  // ----- which characters a name may have -----

  lemma {:induction false} LabelOfText(t: seq<Byte>, quoteok: bool, acc: seq<Byte>)
    requires |acc| + |t| <= 255 && DOT !in t && BACKSLASH !in t
    ensures var r := ReadLabel(t, quoteok, acc);
      if forall i :: 0 <= i < |t| ==> Allowed(t[i], |acc| + i, quoteok) then r == Label(acc + t, []) else r == Bad
    decreases |t|
  {
    hide Allowed;
    if t == [] {
      assert acc + t == acc;
    } else {
      assert t[0] in t;
      LabelOfText(t[1..], quoteok, acc + [t[0]]);
      assert (acc + [t[0]]) + t[1..] == acc + t;
      assert forall i :: 0 < i < |t| ==> t[i] == t[1..][i - 1];
    }
  }

  /** Letters, digits and hyphens, with no hyphen in front. */
  predicate PlainText(t: seq<Byte>)
    requires t != []
  {
    t[0] != HYPHEN && forall c <- t :: Alpha(c) || Digit(c) || c == HYPHEN
  }

  /** A name of one label is encoded if and only if it has at most 63 characters and, unless quoting is allowed,
      only letters, digits and hyphens, with no hyphen in front. */
  lemma PlainEncodes(t: seq<Byte>, quoteok: bool)
    requires 0 < |t| <= 255 && DOT !in t && BACKSLASH !in t
    ensures var e := EncodeName(t, quoteok, 0);
      && (e.Name? <==> |t| <= 63 && (quoteok || PlainText(t)))
      && (e.Name? ==> e.bytes == [|t|] + t + [0])
      && (e.Fails? ==> e.status == if quoteok || PlainText(t) then QueryDomainTooLong else QueryDomainInvalid)
  {
    hide ReadLabel;
    LabelOfText(t, quoteok, []);
    NameStep(t, quoteok, 0);
    assert [] + t == t;
    if forall i :: 0 <= i < |t| ==> Allowed(t[i], i, quoteok) {
      NameEnds(quoteok, |t| + 1);
      forall c | c in t ensures quoteok || Alpha(c) || Digit(c) || c == HYPHEN {
        var i :| 0 <= i < |t| && t[i] == c;
        assert Allowed(t[i], i, quoteok);
      }
      assert Allowed(t[0], 0, quoteok);
    } else {
      var i :| 0 <= i < |t| && !Allowed(t[i], i, quoteok);
      assert t[i] in t;
    }
  }

  // ----- where the text comes from -----

  /** A name handed to adns_submit, `n` bytes with a NUL behind them: it leaves a last dot out unless a
      backslash is before it. */
  function SubmittedLength(m: Memory, n: nat): (ol: nat)
    ensures ol <= n
  {
    if n >= 1 && m(n - 1) == DOT && (n < 2 || m(n - 2) != BACKSLASH) then n - 1 else n
  }

  /** Without a search list the name is always encoded as its text says. */
  lemma SubmittedEncodes(m: Memory, n: nat, quoteok: bool)
    requires m(n) == 0
    ensures var ol := SubmittedLength(m, n);
      && EncodeAt(m, ol, 0, quoteok, 0) == EncodeName(TextOf(m, ol), quoteok, 0)
      && Written(m, ol, 0, quoteok, 0) <= ol + 2
  {
    hide EncodeAt, EncodeName, Written;
    EncodesText(m, SubmittedLength(m, n), quoteok);
  }

  /** adns__search_next cuts its text back to the name without writing a NUL: behind the name there is
      what the last try put there. */
  const SEARCHED: seq<Byte> := [97, 92, 46, 101, 120, 97, 109, 112, 108, 101, 46, 111, 114, 103]
  const JOINED_LABEL: seq<Byte> := [97, 46, 101, 120, 97, 109, 112, 108, 101]

  /** Memory that holds these bytes, none of them a dot or a backslash. */
  ghost predicate Plainly(m: Memory, p: nat, bs: seq<Byte>) {
    forall i :: 0 <= i < |bs| ==> m(p + i) == bs[i] && bs[i] != DOT && bs[i] != BACKSLASH
  }

  lemma PlainTail(m: Memory, p: nat, bs: seq<Byte>)
    requires Plainly(m, p, bs) && bs != []
    ensures m(p) == bs[0] && bs[0] != DOT && bs[0] != BACKSLASH && Plainly(m, p + 1, bs[1..])
  {
    assert m(p + 0) == bs[0];
    forall i | 0 <= i < |bs| - 1 ensures m(p + 1 + i) == bs[1..][i] && bs[1..][i] != DOT && bs[1..][i] != BACKSLASH {
      assert m(p + (i + 1)) == bs[i + 1];
    }
  }

  lemma {:induction false} PlainRun(m: Memory, pe: nat, p: nat, bs: seq<Byte>, acc: seq<Byte>)
    requires |acc| + |bs| <= 255 && (pe < p || p + |bs| <= pe) && Plainly(m, p, bs)
    ensures LabelAt(m, pe, p, true, acc) == LabelAt(m, pe, p + |bs|, true, acc + bs)
    decreases |bs|
  {
    if bs == [] {
      assert acc + [] == acc;
    } else {
      hide LabelAt, Plainly;
      PlainTail(m, p, bs);
      PlainStep(m, pe, p, acc);
      PlainRun(m, pe, p + 1, bs[1..], acc + [bs[0]]);
      assert acc + bs == (acc + [bs[0]]) + bs[1..];
    }
  }

  lemma PlainStep(m: Memory, pe: nat, p: nat, acc: seq<Byte>)
    requires |acc| < 255 && p != pe && m(p) != DOT && m(p) != BACKSLASH
    ensures LabelAt(m, pe, p, true, acc) == LabelAt(m, pe, p + 1, true, acc + [m(p)])
  {
    hide LabelAt;
    LabelMore(m, pe, p, true, acc);
  }

  lemma JoinedLabel(m: Memory, pe: nat)
    requires Holds(m, SEARCHED) && (pe == 2 || pe == 14)
    ensures LabelAt(m, pe, 0, true, []) == At(JOINED_LABEL, 11)
  {
    hide LabelAt;
    forall i | 0 <= i < 14 ensures m(i) == SEARCHED[i] { TextAt(m, 14, i); }
    assert m(0) == 97 && m(1) == BACKSLASH && m(2) == DOT && m(10) == DOT;
    LabelMore(m, pe, 0, true, []);
    assert [] + [97 as Byte] == [97] && [97] + [DOT] == [97, 46];
    LabelMore(m, pe, 1, true, [97]);
    PlainRun(m, pe, 3, SEARCHED[3..10], [97, 46]);
    assert [97, 46] + SEARCHED[3..10] == JOINED_LABEL;
    LabelEnds(m, pe, 10, true, JOINED_LABEL);
  }

  /** The search entry "example.org" is tried with the name "a" and a backslash, and is a good name. When
      the name is tried alone after it, ten bytes are written where its buffer has room for eight. */
  lemma SearchOverruns(m: Memory)
    requires Holds(m, SEARCHED)
    ensures EncodeName(SEARCHED, true, 0).Name? && CutOff(SEARCHED[..2], true, 0)
    ensures Written(m, 2, 0, true, 0) >= 10 && DNS_HDRSIZE + Written(m, 2, 0, true, 0) > Room(2)
  {
    hide LabelAt, EncodeAt, EncodeName, ReadLabel, LabelCut, CutOff;
    JoinedLabel(m, 2);
    EncodeStep(m, 2, 0, true, 0);
    SearchedEncodes();
    EscapeCut();
  }

  lemma EscapeCut()
    ensures CutOff(SEARCHED[..2], true, 0)
  {
    hide ReadLabel;
    var t := SEARCHED[..2];
    assert t == [97, 92] && t[1..] == [92];
    assert [92 as Byte] + [48, 48, 48] == [92, 48, 48, 48];
    assert LabelCut([92], true, 1);
  }

  lemma SearchedEncodes()
    ensures EncodeName(SEARCHED, true, 0).Name?
  {
    hide LabelAt, EncodeAt, EncodeName, CutOff, LabelCut, Window;
    var m: Memory := (i: nat) => if i < 14 then SEARCHED[i] else 0;
    assert TextOf(m, 14) == SEARCHED;
    JoinedLabel(m, 14);
    EncodeStep(m, 14, 0, true, 0);
    PlainRun(m, 14, 11, SEARCHED[11..], []);
    LabelEnds(m, 14, 14, true, [] + SEARCHED[11..]);
    EncodeStep(m, 14, 11, true, 10);
    EncodeEnd(m, 14, [], true, 14);
    EncodesText(m, 14, true);
  }
}